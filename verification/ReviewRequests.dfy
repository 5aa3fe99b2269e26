/**
Durable review requests (src/message_queue.py).

A request is named by the position of its row, the order of creation.  A
registration holds its pull request's admission lock across two steps,
because it posts a comment in between; a match is found outside that lock;
cancelling takes no lock at all.
*/
module ReviewRequests {
  import opened Options

  datatype PullRequest = PullRequest(repo: string, number: int)

  datatype State = Active | Completed | Cancelled | Superseded

  datatype Row = Row(pr: PullRequest, owner: string, head: string, isActive: bool, state: State, successor: Option<nat>)

  /** A registration between finding its predecessors and persisting itself. */
  datatype Pending = Pending(owner: string, head: string, priors: seq<nat>)

  datatype Desk = Desk(
    rows: seq<Row>,                       // the registrations table
    memory: map<nat, bool>,               // registrations in memory, and whether they are active there
    locked: map<PullRequest, Pending>,    // admission locks held
    matched: set<nat>,                    // requests whose task has found a review and wants to complete
    wakes: seq<nat>)                      // wake messages queued, in order

  datatype Outcome = Existing(id: nat) | Conflict(id: nat) | Admitted

  // -------------------------------------------------------- registration

  predicate InTable(rows: seq<Row>, ids: seq<nat>) {
    forall i: nat | i in ids :: i < |rows|
  }

  function ActiveOn(rows: seq<Row>, pr: PullRequest): (ids: seq<nat>)
    ensures forall i: nat :: i in ids <==> i < |rows| && rows[i].pr == pr && rows[i].isActive
  {
    if rows == [] then []
    else
      var n := |rows| - 1;
      assert forall i | 0 <= i < n :: rows[i] == rows[..n][i];
      var ids := ActiveOn(rows[..n], pr);
      if rows[n].pr == pr && rows[n].isActive then ids + [n] else ids
  }

  function OwnedBy(rows: seq<Row>, ids: seq<nat>, owner: string): (own: seq<nat>)
    requires InTable(rows, ids)
    ensures forall i: nat :: i in own <==> i in ids && rows[i].owner == owner
  {
    if ids == [] then []
    else
      assert ids[0] in ids && forall i: nat | i in ids[1..] :: i in ids;
      (if rows[ids[0]].owner == owner then [ids[0]] else []) + OwnedBy(rows, ids[1..], owner)
  }

  function FirstAtHead(rows: seq<Row>, ids: seq<nat>, head: string): (r: Option<nat>)
    requires InTable(rows, ids)
    ensures r.Some? ==> r.value in ids && rows[r.value].head == head
    ensures r.None? ==> forall i: nat | i in ids :: rows[i].head != head
  {
    if ids == [] then None
    else
      assert ids[0] in ids && forall i: nat | i in ids[1..] :: i in ids;
      if rows[ids[0]].head == head then Some(ids[0])
      else FirstAtHead(rows, ids[1..], head)
  }

  function FirstOfOther(rows: seq<Row>, ids: seq<nat>, owner: string): (r: Option<nat>)
    requires InTable(rows, ids)
    ensures r.Some? ==> r.value in ids && rows[r.value].owner != owner
    ensures r.None? ==> forall i: nat | i in ids :: rows[i].owner == owner
  {
    if ids == [] then None
    else
      assert ids[0] in ids && forall i: nat | i in ids[1..] :: i in ids;
      if rows[ids[0]].owner != owner then Some(ids[0])
      else FirstOfOther(rows, ids[1..], owner)
  }

  /** The requester's own active request at this head, or someone else's active request, or nothing in the way. */
  function Admission(rows: seq<Row>, pr: PullRequest, owner: string, head: string): Outcome {
    var ids := ActiveOn(rows, pr);
    var same := FirstAtHead(rows, OwnedBy(rows, ids, owner), head);
    var other := FirstOfOther(rows, ids, owner);
    if same.Some? then Existing(same.value)
    else if other.Some? then Conflict(other.value)
    else Admitted
  }

  function Load(memory: map<nat, bool>, rows: seq<Row>, ids: seq<nat>): map<nat, bool>
    requires InTable(rows, ids)
  {
    memory + map i: nat | i in ids && i !in memory :: rows[i].isActive
  }

  /** Retires the predecessors that are still active. */
  function Supersede(rows: seq<Row>, priors: seq<nat>, id: nat): (r: seq<Row>)
    ensures |r| == |rows|
  {
    seq(|rows|, i requires 0 <= i < |rows| =>
      if i in priors && rows[i].isActive then rows[i].(isActive := false, state := Superseded, successor := Some(id))
      else rows[i])
  }

  function Forget(memory: map<nat, bool>, rows: seq<Row>, priors: seq<nat>): map<nat, bool>
    requires InTable(rows, priors)
  {
    map i: nat | i in memory :: if i in priors && rows[i].isActive then false else memory[i]
  }

  lemma FirstOnly(rows: seq<Row>, ids: seq<nat>, n: nat)
    requires InTable(rows, ids) && n <= |ids|
    ensures InTable(rows, ids[..n])
  {
    assert forall i: nat | i in ids[..n] :: i in ids;
  }

  // ----------------------------------------------------------------- steps

  datatype Step =
    | Begin(pr: PullRequest, owner: string, head: string)
    | Commit(pr: PullRequest)
    | CommitFails(pr: PullRequest, updates: nat)  // the transaction raises after so many updates and is rolled back
    | Abort(pr: PullRequest)              // posting the comment failed
    | Match(id: nat)                      // a task sees its request active in memory and finds a review
    | Complete(id: nat)
    | Cancel(id: nat)
    | Look(id: nat)                       // a listing brings a row into memory
    | Restart(gone: set<nat>)             // rows whose notify session no longer exists are cancelled

  predicate Enabled(s: Desk, step: Step) {
    match step
    case Begin(pr, _, _) => pr !in s.locked
    case Commit(pr) => pr in s.locked && InTable(s.rows, s.locked[pr].priors)
    case CommitFails(pr, updates) => pr in s.locked && InTable(s.rows, s.locked[pr].priors) && updates <= |s.locked[pr].priors|
    case Abort(pr) => pr in s.locked
    case Match(id) => id in s.memory && s.memory[id]
    case Complete(id) => id in s.matched && id < |s.rows| && s.rows[id].pr !in s.locked
    case Cancel(_) => true
    case Look(id) => id < |s.rows|
    case Restart(_) => true
  }

  function Insert(s: Desk, pr: PullRequest): Desk
    requires pr in s.locked && InTable(s.rows, s.locked[pr].priors)
  {
    var p, id := s.locked[pr], |s.rows|;
    Desk(Supersede(s.rows, p.priors, id) + [Row(pr, p.owner, p.head, true, Active, None)],
         Forget(s.memory, s.rows, p.priors)[id := true],
         s.locked - {pr}, s.matched, s.wakes)
  }

  function Finish(s: Desk, id: nat, state: State): Desk
    requires id < |s.rows|
  {
    s.(rows := s.rows[id := s.rows[id].(isActive := false, state := state)],
       memory := if id in s.memory then s.memory[id := false] else s.memory)
  }

  function Recover(rows: seq<Row>, gone: set<nat>): (r: seq<Row>)
    ensures |r| == |rows|
  {
    seq(|rows|, i requires 0 <= i < |rows| =>
      if i in gone && rows[i].isActive then rows[i].(isActive := false, state := Cancelled) else rows[i])
  }

  function Apply(s: Desk, step: Step): Desk
    requires Enabled(s, step)
  {
    match step
    case Begin(pr, owner, head) =>
      var ids := ActiveOn(s.rows, pr);
      var loaded := s.(memory := Load(s.memory, s.rows, ids));
      if Admission(s.rows, pr, owner, head).Admitted?
      then loaded.(locked := s.locked[pr := Pending(owner, head, OwnedBy(s.rows, ids, owner))])
      else loaded
    case Commit(pr) => Insert(s, pr)
    case CommitFails(pr, updates) =>
      FirstOnly(s.rows, s.locked[pr].priors, updates);
      s.(memory := Forget(s.memory, s.rows, s.locked[pr].priors[..updates]), locked := s.locked - {pr})
    case Abort(pr) => s.(locked := s.locked - {pr})
    case Match(id) => s.(matched := s.matched + {id})
    case Complete(id) =>
      if s.rows[id].isActive then Finish(s, id, Completed).(wakes := s.wakes + [id]) else s
    case Cancel(id) =>
      if id in s.memory && s.memory[id] && id < |s.rows| then Finish(s, id, Cancelled) else s
    case Look(id) => s.(memory := Load(s.memory, s.rows, [id]))
    case Restart(gone) =>
      var rows := Recover(s.rows, gone);
      Desk(rows, map i: nat | i < |rows| :: rows[i].isActive, map[], {}, s.wakes)
  }

  const START := Desk([], map[], map[], {}, [])

  ghost predicate IsRun(b: seq<Desk>, steps: seq<Step>) {
    && |b| == |steps| + 1 && b[0] == START
    && forall k | 0 <= k < |steps| :: Enabled(b[k], steps[k]) && b[k + 1] == Apply(b[k], steps[k])
  }

  // ------------------------------------------------------------- invariant

  /** Each pull request has at most one active request. */
  predicate OneActive(rows: seq<Row>) {
    forall i, j | 0 <= i < |rows| && 0 <= j < |rows| && rows[i].isActive && rows[j].isActive && rows[i].pr == rows[j].pr ::
      i == j
  }

  /** A row's flag, state and successor agree, and a successor is a later request for the same pull request. */
  predicate RowsAgree(rows: seq<Row>) {
    forall i | 0 <= i < |rows| ::
      && (rows[i].isActive <==> rows[i].state == Active)
      && (rows[i].successor.Some? <==> rows[i].state == Superseded)
      && (rows[i].successor.Some? ==> i < rows[i].successor.value < |rows| && rows[rows[i].successor.value].pr == rows[i].pr)
  }

  /** What is active in memory is active in the table; a commit that failed may leave it the other way round. */
  predicate MemoryAgrees(s: Desk) {
    forall i: nat | i in s.memory :: i < |s.rows| && (s.memory[i] ==> s.rows[i].isActive)
  }

  /** While a registration holds the lock, every active request of its pull request is one it will replace. */
  predicate LocksAgree(s: Desk) {
    forall pr | pr in s.locked ::
      && (forall i: nat | i in s.locked[pr].priors :: i < |s.rows| && s.rows[i].pr == pr)
      && (forall i | 0 <= i < |s.rows| && s.rows[i].pr == pr && s.rows[i].isActive :: i in s.locked[pr].priors)
  }

  /** One wake for each completed request, none for any other. */
  predicate WakesAgree(s: Desk) {
    && (forall p, q | 0 <= p < q < |s.wakes| :: s.wakes[p] != s.wakes[q])
    && (forall i: nat | i in s.wakes :: i < |s.rows|)
    && (forall i | 0 <= i < |s.rows| :: i in s.wakes <==> s.rows[i].state == Completed)
  }

  ghost predicate Inv(s: Desk) {
    OneActive(s.rows) && RowsAgree(s.rows) && MemoryAgrees(s) && LocksAgree(s) && WakesAgree(s)
  }

  lemma BeginLocks(s: Desk, t: Desk, pr: PullRequest, pending: Pending)
    requires LocksAgree(s) && t.rows == s.rows && t.locked == s.locked[pr := pending]
    requires pending.priors == OwnedBy(s.rows, ActiveOn(s.rows, pr), pending.owner)
    requires FirstOfOther(s.rows, ActiveOn(s.rows, pr), pending.owner).None?
    ensures LocksAgree(t)
  {
    hide ActiveOn, OwnedBy, FirstOfOther;
    var ids := ActiveOn(s.rows, pr);
    assert forall i: nat | i in pending.priors :: i in ids;
    assert forall i: nat | i < |s.rows| && s.rows[i].pr == pr && s.rows[i].isActive :: i in ids && i in pending.priors;
  }

  lemma BeginInv(s: Desk, pr: PullRequest, owner: string, head: string)
    requires Inv(s) && pr !in s.locked
    ensures Inv(Apply(s, Begin(pr, owner, head)))
  {
    hide OneActive, RowsAgree, WakesAgree, LocksAgree, ActiveOn, OwnedBy, FirstAtHead, FirstOfOther;
    var t := Apply(s, Begin(pr, owner, head));
    SameWakes(s, t);
    if Admission(s.rows, pr, owner, head).Admitted? {
      BeginLocks(s, t, pr, t.locked[pr]);
    } else {
      SameLocks(s, t);
    }
  }

  lemma SameLocks(s: Desk, t: Desk)
    requires LocksAgree(s) && t.rows == s.rows && t.locked == s.locked
    ensures LocksAgree(t)
  {
  }

  lemma SameWakes(s: Desk, t: Desk)
    requires WakesAgree(s) && t.rows == s.rows && t.wakes == s.wakes
    ensures WakesAgree(t)
  {
  }

  lemma CommitRows(rows: seq<Row>, priors: seq<nat>, pr: PullRequest, row: Row)
    requires OneActive(rows) && RowsAgree(rows)
    requires row.pr == pr && row.isActive && row.state == Active && row.successor.None?
    requires forall i: nat | i in priors :: i < |rows| && rows[i].pr == pr
    requires forall i | 0 <= i < |rows| && rows[i].pr == pr && rows[i].isActive :: i in priors
    ensures var t := Supersede(rows, priors, |rows|) + [row]; OneActive(t) && RowsAgree(t)
  {
    var n := |rows|;
    var t := Supersede(rows, priors, n) + [row];
    assert forall i | 0 <= i < n :: t[i] == Supersede(rows, priors, n)[i];
    assert forall i | 0 <= i < n && t[i].isActive :: t[i] == rows[i] && rows[i].pr != pr;
  }

  lemma CommitInv(s: Desk, pr: PullRequest)
    requires Inv(s) && pr in s.locked
    ensures InTable(s.rows, s.locked[pr].priors) && Inv(Insert(s, pr))
  {
    var t := Insert(s, pr);
    var p, id := s.locked[pr], |s.rows|;
    CommitRows(s.rows, p.priors, pr, Row(pr, p.owner, p.head, true, Active, None));
    hide OneActive, RowsAgree;
    assert forall i | 0 <= i < id :: t.rows[i] == Supersede(s.rows, p.priors, id)[i];
    CommitWakes(s, t);
    CommitLocks(s, t, pr);
    hide WakesAgree, LocksAgree;
  }

  lemma CommitLocks(s: Desk, t: Desk, pr: PullRequest)
    requires LocksAgree(s) && |t.rows| == |s.rows| + 1 && t.locked == s.locked - {pr} && t.rows[|s.rows|].pr == pr
    requires forall i | 0 <= i < |s.rows| :: t.rows[i].pr == s.rows[i].pr && (t.rows[i].isActive ==> s.rows[i].isActive)
    ensures LocksAgree(t)
  {
  }

  lemma CommitWakes(s: Desk, t: Desk)
    requires WakesAgree(s) && RowsAgreeHere(s.rows) && t.wakes == s.wakes && |t.rows| == |s.rows| + 1
    requires t.rows[|s.rows|].state == Active
    requires forall i | 0 <= i < |s.rows| :: t.rows[i].state == s.rows[i].state || (s.rows[i].isActive && t.rows[i].state == Superseded)
    ensures WakesAgree(t)
  {
  }

  predicate RowsAgreeHere(rows: seq<Row>) {
    forall i | 0 <= i < |rows| :: rows[i].isActive <==> rows[i].state == Active
  }

  lemma FinishRows(rows: seq<Row>, id: nat, row: Row)
    requires OneActive(rows) && RowsAgree(rows) && id < |rows| && rows[id].isActive
    requires row.pr == rows[id].pr && !row.isActive && (row.state == Completed || row.state == Cancelled) && row.successor.None?
    ensures OneActive(rows[id := row]) && RowsAgree(rows[id := row])
  {
  }

  lemma FinishWakes(s: Desk, id: nat, t: Desk, state: State)
    requires WakesAgree(s) && id < |s.rows| && s.rows[id].state == Active && state != Active && |t.rows| == |s.rows|
    requires t.rows[id].state == state && forall i | 0 <= i < |s.rows| && i != id :: t.rows[i] == s.rows[i]
    requires t.wakes == if state == Completed then s.wakes + [id] else s.wakes
    ensures WakesAgree(t)
  {
    assert forall i: nat :: i in s.wakes + [id] <==> i in s.wakes || i == id;
  }

  /** Rows only leaving the active state keeps the locks' promise. */
  lemma FewerActive(s: Desk, t: Desk)
    requires LocksAgree(s) && |t.rows| == |s.rows| && t.locked == s.locked
    requires forall i | 0 <= i < |s.rows| :: t.rows[i].pr == s.rows[i].pr && (t.rows[i].isActive ==> s.rows[i].isActive)
    ensures LocksAgree(t)
  {
  }

  lemma FinishInv(s: Desk, id: nat, state: State)
    requires Inv(s) && id < |s.rows| && s.rows[id].isActive && (state == Completed || state == Cancelled)
    ensures var t := Finish(s, id, state); Inv(if state == Completed then t.(wakes := s.wakes + [id]) else t)
  {
    var t0 := Finish(s, id, state);
    var t := if state == Completed then t0.(wakes := s.wakes + [id]) else t0;
    assert s.rows[id].state == Active && s.rows[id].successor.None?;
    hide OneActive, RowsAgree, LocksAgree, WakesAgree;
    FinishRows(s.rows, id, t.rows[id]);
    FinishWakes(s, id, t, state);
    FewerActive(s, t);
  }

  lemma RestartRows(rows: seq<Row>, gone: set<nat>)
    requires OneActive(rows) && RowsAgree(rows)
    ensures var r := Recover(rows, gone);
            OneActive(r) && RowsAgree(r) && forall i | 0 <= i < |r| :: (r[i].state == Completed <==> rows[i].state == Completed)
  {
    var r := Recover(rows, gone);
    assert forall i | 0 <= i < |r| && r[i].isActive :: r[i] == rows[i];
    assert forall i | 0 <= i < |r| :: r[i].pr == rows[i].pr && r[i].successor == rows[i].successor;
  }

  lemma RestartInv(s: Desk, gone: set<nat>)
    requires Inv(s)
    ensures Inv(Apply(s, Restart(gone)))
  {
    hide OneActive, RowsAgree, Recover;
    RestartRows(s.rows, gone);
  }

  lemma StepInv(s: Desk, step: Step)
    requires Inv(s) && Enabled(s, step)
    ensures Inv(Apply(s, step))
  {
    hide OneActive, RowsAgree, WakesAgree, ActiveOn, OwnedBy, FirstAtHead, FirstOfOther, Admission, Recover, Supersede;
    match step
    case Begin(pr, owner, head) => BeginInv(s, pr, owner, head);
    case Commit(pr) => CommitInv(s, pr);
    case CommitFails(_, _) => SameWakes(s, Apply(s, step));
    case Abort(pr) => SameWakes(s, Apply(s, step));
    case Match(id) => SameWakes(s, Apply(s, step));
    case Complete(id) => if s.rows[id].isActive { FinishInv(s, id, Completed); }
    case Cancel(id) => if id in s.memory && s.memory[id] { FinishInv(s, id, Cancelled); }
    case Look(id) => SameWakes(s, Apply(s, step));
    case Restart(gone) => RestartInv(s, gone);
  }

  lemma {:induction false} RunInv(b: seq<Desk>, steps: seq<Step>, k: nat)
    requires IsRun(b, steps) && k < |b|
    ensures Inv(b[k])
  {
    if k > 0 {
      RunInv(b, steps, k - 1);
      StepInv(b[k - 1], steps[k - 1]);
    }
  }

  // -------------------------------------------------------------- theorems

  /** In every run each pull request has at most one active request and each request wakes at most once. */
  lemma OneActiveOneWake(b: seq<Desk>, steps: seq<Step>, k: nat)
    requires IsRun(b, steps) && k < |b|
    ensures OneActive(b[k].rows)
    ensures forall p, q | 0 <= p < q < |b[k].wakes| :: b[k].wakes[p] != b[k].wakes[q]
  {
    RunInv(b, steps, k);
  }

  /** Rows are never lost and an inactive row never changes again. */
  predicate Settles(s: Desk, t: Desk) {
    && |s.rows| <= |t.rows|
    && forall i | 0 <= i < |s.rows| ::
         s.rows[i].pr == t.rows[i].pr && (!s.rows[i].isActive ==> t.rows[i] == s.rows[i])
  }

  lemma StepSettles(s: Desk, step: Step)
    requires Inv(s) && Enabled(s, step)
    ensures Settles(s, Apply(s, step))
  {
    hide ActiveOn, OwnedBy, FirstAtHead, FirstOfOther, Admission, OneActive, RowsAgree, WakesAgree, LocksAgree;
  }

  lemma {:induction false} RunSettles(b: seq<Desk>, steps: seq<Step>, m: nat, k: nat)
    requires IsRun(b, steps) && m <= k < |b|
    ensures Settles(b[m], b[k])
    decreases k - m
  {
    hide Apply, Enabled, Inv;
    if m < k {
      RunSettles(b, steps, m, k - 1);
      RunInv(b, steps, k - 1);
      StepSettles(b[k - 1], steps[k - 1]);
    }
  }

  /** Once superseded or cancelled, a request never wakes anyone, however late its task found a match. */
  lemma NoWakeAfterwards(b: seq<Desk>, steps: seq<Step>, m: nat, k: nat, id: nat)
    requires IsRun(b, steps) && m <= k < |b| && id < |b[m].rows|
    requires b[m].rows[id].state == Superseded || b[m].rows[id].state == Cancelled
    ensures id !in b[k].wakes
  {
    RunInv(b, steps, m);
    RunInv(b, steps, k);
    RunSettles(b, steps, m, k);
  }

  // -------------------------------------------------- after a failed commit

  /** Active in the table and retired in memory. */
  predicate Stuck(s: Desk, id: nat) {
    id < |s.rows| && s.rows[id].isActive && id in s.memory && !s.memory[id]
  }

  /** A commit that fails after retiring this request in memory. */
  predicate Strands(s: Desk, step: Step, id: nat) {
    && step.CommitFails? && Enabled(s, step) && id in s.locked[step.pr].priors[..step.updates]
    && id < |s.rows| && s.rows[id].isActive && id in s.memory
  }

  /** How one step moves a request that stays active: only a failed commit strands it, only a restart frees it. */
  lemma StuckMoves(s: Desk, step: Step, id: nat)
    requires Inv(s) && Enabled(s, step) && id < |Apply(s, step).rows| && Apply(s, step).rows[id].isActive
    ensures Stuck(Apply(s, step), id) <==> Strands(s, step, id) || (Stuck(s, id) && !step.Restart?)
  {
    hide ActiveOn, OwnedBy, FirstAtHead, FirstOfOther, Admission, OneActive, RowsAgree, WakesAgree, LocksAgree, Supersede, Recover;
    match step
    case Commit(pr) => CommitMoves(s, pr, id);
    case Restart(gone) => RestartMoves(s, gone, id);
    case _ =>
  }

  lemma CommitMoves(s: Desk, pr: PullRequest, id: nat)
    requires Inv(s) && pr in s.locked && InTable(s.rows, s.locked[pr].priors)
    requires id < |Insert(s, pr).rows| && Insert(s, pr).rows[id].isActive
    ensures Stuck(Insert(s, pr), id) <==> Stuck(s, id)
  {
    hide OneActive, RowsAgree, WakesAgree, LocksAgree;
    var p := s.locked[pr];
    if id < |s.rows| {
      assert Insert(s, pr).rows[id] == Supersede(s.rows, p.priors, |s.rows|)[id];
    }
  }

  lemma RestartMoves(s: Desk, gone: set<nat>, id: nat)
    requires id < |s.rows| && Recover(s.rows, gone)[id].isActive
    ensures !Stuck(Apply(s, Restart(gone)), id)
  {
  }

  /** In every run a request active in the table is stuck exactly when a commit stranded it and no restart followed. */
  lemma {:induction false} StuckIff(b: seq<Desk>, steps: seq<Step>, k: nat, id: nat)
    requires IsRun(b, steps) && k < |b| && id < |b[k].rows| && b[k].rows[id].isActive
    ensures Stuck(b[k], id) <==> exists m :: Stranded(b, steps, m, k, id)
  {
    hide Apply, Enabled, Inv, Strands;
    if k > 0 {
      var j := k - 1;
      var s, step := b[j], steps[j];
      assert Enabled(s, step) && b[k] == Apply(s, step);
      RunInv(b, steps, j);
      StuckMoves(s, step, id);
      StepSettles(s, step);
      if id < |s.rows| {
        StuckIff(b, steps, j, id);
        if m :| Stranded(b, steps, m, j, id) {
          assert !step.Restart? ==> Stranded(b, steps, m, k, id);
        }
        if m :| Stranded(b, steps, m, k, id) {
          assert m < j ==> Stranded(b, steps, m, j, id);
        }
        assert Strands(s, step, id) ==> Stranded(b, steps, j, k, id);
      } else {
        forall m | 0 <= m < k ensures !Strands(b[m], steps[m], id) {
          RunSettles(b, steps, m, j);
          NotThere(b[m], steps[m], id);
        }
      }
    }
  }

  ghost predicate Stranded(b: seq<Desk>, steps: seq<Step>, m: int, k: nat, id: nat)
    requires |b| == |steps| + 1 && k < |b|
  {
    0 <= m < k && Strands(b[m], steps[m], id) && forall j | m < j < k :: !steps[j].Restart?
  }

  lemma NotThere(s: Desk, step: Step, id: nat)
    requires id >= |s.rows|
    ensures !Strands(s, step, id)
  {
  }

  /** A stuck request that has found no match completes and is cancelled at no later point before a restart or a replacement. */
  lemma {:induction false} StuckStays(b: seq<Desk>, steps: seq<Step>, m: nat, k: nat, id: nat)
    requires IsRun(b, steps) && m <= k < |b| && Stuck(b[m], id) && id !in b[m].matched
    requires forall j | m <= j < k :: !steps[j].Restart? && steps[j] != Commit(b[m].rows[id].pr)
    ensures Stuck(b[k], id) && id !in b[k].matched && b[k].rows[id] == b[m].rows[id]
    decreases k
  {
    hide Apply, Enabled, Inv;
    if m < k {
      StuckStays(b, steps, m, k - 1, id);
      RunInv(b, steps, k - 1);
      assert Enabled(b[k - 1], steps[k - 1]) && b[k] == Apply(b[k - 1], steps[k - 1]);
      StuckStep(b[k - 1], steps[k - 1], id);
    }
  }

  lemma StuckStep(s: Desk, step: Step, id: nat)
    requires Inv(s) && Enabled(s, step) && Stuck(s, id) && id !in s.matched && !step.Restart? && step != Commit(s.rows[id].pr)
    ensures var t := Apply(s, step); Stuck(t, id) && id !in t.matched && t.rows[id] == s.rows[id]
  {
    hide ActiveOn, OwnedBy, FirstAtHead, FirstOfOther, Admission, OneActive, RowsAgree, WakesAgree;
    if step.Commit? {
      assert Apply(s, step).rows[id] == Supersede(s.rows, s.locked[step.pr].priors, |s.rows|)[id];
    }
  }

  /** The desk once this request is in memory. */
  function Known(s: Desk, id: nat): Desk
    requires id < |s.rows|
  {
    if id in s.memory then s else Apply(s, Look(id))
  }

  /** The request completes at once or after its task finds a match. */
  predicate Completable(s: Desk, id: nat)
    requires id < |s.rows|
  {
    || (Enabled(s, Complete(id)) && Completes(s, id))
    || (Enabled(Known(s, id), Match(id)) && var t := Apply(Known(s, id), Match(id)); Enabled(t, Complete(id)) && Completes(t, id))
  }

  predicate Completes(s: Desk, id: nat)
    requires Enabled(s, Complete(id))
  {
    var t := Apply(s, Complete(id));
    t.rows[id].state == Completed && t.wakes == s.wakes + [id]
  }

  /** With no registration under way, an active request can still complete if and only if it is matched or no failed commit stranded it since the last restart. */
  lemma CompletableIff(b: seq<Desk>, steps: seq<Step>, k: nat, id: nat)
    requires IsRun(b, steps) && k < |b| && id < |b[k].rows| && b[k].rows[id].isActive && b[k].rows[id].pr !in b[k].locked
    ensures Completable(b[k], id) <==> id in b[k].matched || !exists m :: Stranded(b, steps, m, k, id)
  {
    hide IsRun, Inv, Stranded, Completable, Apply, Enabled;
    StuckIff(b, steps, k, id);
    CompletableHere(b[k], id);
  }

  lemma CompletableHere(s: Desk, id: nat)
    requires id < |s.rows| && s.rows[id].isActive && s.rows[id].pr !in s.locked
    ensures Completable(s, id) <==> id in s.matched || !Stuck(s, id)
  {
    hide ActiveOn, OwnedBy, FirstAtHead, FirstOfOther, Admission, Supersede, Recover, Insert;
  }

  /** Asked for again, a stuck request is handed out again, anyone else meets a conflict with it, and cancelling it does nothing. */
  lemma StuckIsHandedOut(s: Desk, id: nat, owner: string)
    requires Inv(s) && Stuck(s, id)
    ensures var row := s.rows[id];
            Admission(s.rows, row.pr, owner, row.head) == if owner == row.owner then Existing(id) else Conflict(id)
    ensures Apply(s, Cancel(id)) == s
  {
    hide Admission, Apply, Inv;
    StuckCancels(s, id);
    var row := s.rows[id];
    AdmissionMeans(s.rows, row.pr, owner, row.head);
    OnlyActive(s, id);
  }

  lemma StuckCancels(s: Desk, id: nat)
    requires Stuck(s, id)
    ensures Apply(s, Cancel(id)) == s
  {
  }

  lemma OnlyActive(s: Desk, id: nat)
    requires Inv(s) && id < |s.rows| && s.rows[id].isActive
    ensures forall i | 0 <= i < |s.rows| :: ActiveFor(s.rows[i], s.rows[id].pr) <==> i == id
  {
    hide RowsAgree, MemoryAgrees, LocksAgree, WakesAgree;
  }

  function Alone(pr: PullRequest, owner: string, head: string, inMemory: bool): Desk {
    Desk([Row(pr, owner, head, true, Active, None)], map[0 := inMemory], map[], {}, [])
  }

  lemma FirstRequest(pr: PullRequest, owner: string, head: string)
    ensures var asked := START.(locked := map[pr := Pending(owner, head, [])]);
            && Enabled(START, Begin(pr, owner, head)) && Apply(START, Begin(pr, owner, head)) == asked
            && Enabled(asked, Commit(pr)) && Apply(asked, Commit(pr)) == Alone(pr, owner, head, true)
  {
    assert Supersede([], [], 0) == [];
  }

  function Again(pr: PullRequest, owner: string, head: string, newer: string): Desk {
    Alone(pr, owner, head, true).(locked := map[pr := Pending(owner, newer, [0])])
  }

  lemma SecondAsks(pr: PullRequest, owner: string, head: string, newer: string)
    requires head != newer
    ensures Enabled(Alone(pr, owner, head, true), Begin(pr, owner, newer))
    ensures Apply(Alone(pr, owner, head, true), Begin(pr, owner, newer)) == Again(pr, owner, head, newer)
  {
    hide ActiveOn, OwnedBy, Admission;
    AloneAdmits(pr, owner, head, newer);
  }

  lemma AloneAdmits(pr: PullRequest, owner: string, head: string, newer: string)
    requires head != newer
    ensures var rows := Alone(pr, owner, head, true).rows;
            ActiveOn(rows, pr) == [0] && OwnedBy(rows, [0], owner) == [0] && Admission(rows, pr, owner, newer).Admitted?
  {
    var rows := Alone(pr, owner, head, true).rows;
    var ids: seq<nat> := [0];
    assert rows[..0] == [] && ActiveOn(rows, pr) == ids;
    hide ActiveOn, FirstAtHead, FirstOfOther;
    assert ids[1..] == [] && OwnedBy(rows, ids[1..], owner) == [] && OwnedBy(rows, ids, owner) == ids;
  }

  lemma SecondFails(pr: PullRequest, owner: string, head: string, newer: string)
    ensures Enabled(Again(pr, owner, head, newer), CommitFails(pr, 1))
    ensures Apply(Again(pr, owner, head, newer), CommitFails(pr, 1)) == Alone(pr, owner, head, false)
  {
    var ids: seq<nat> := [0];
    assert ids[..1] == ids && forall i: nat :: i in ids <==> i == 0;
  }

  lemma LostIsStuck(pr: PullRequest, owner: string, head: string)
    ensures var lost := Alone(pr, owner, head, false);
            && Stuck(lost, 0) && |lost.rows| == 1 && lost.rows[0] == Row(pr, owner, head, true, Active, None)
            && lost.locked == map[] && 0 !in lost.matched
  {
  }

  lemma FourSteps(s0: Desk, s1: Desk, s2: Desk, s3: Desk, s4: Desk, steps: seq<Step>)
    requires |steps| == 4 && s0 == START
    requires Enabled(s0, steps[0]) && Enabled(s1, steps[1]) && Enabled(s2, steps[2]) && Enabled(s3, steps[3])
    requires s1 == Apply(s0, steps[0]) && s2 == Apply(s1, steps[1]) && s3 == Apply(s2, steps[2]) && s4 == Apply(s3, steps[3])
    ensures IsRun([s0, s1, s2, s3, s4], steps)
  {
    hide Apply, Enabled;
  }

  /** One owner asks at a head, asks again at a newer one, and that commit raises at its insertion. */
  lemma StrandedRun(pr: PullRequest, owner: string, head: string, newer: string) returns (b: seq<Desk>, steps: seq<Step>)
    requires head != newer
    ensures IsRun(b, steps) && |b| == 5 && Stuck(b[4], 0) && !Completable(b[4], 0)
    ensures Admission(b[4].rows, pr, owner, head) == Existing(0)
  {
    hide *;
    steps := [Begin(pr, owner, head), Commit(pr), Begin(pr, owner, newer), CommitFails(pr, 1)];
    var held, lost := Alone(pr, owner, head, true), Alone(pr, owner, head, false);
    var asked, again := START.(locked := map[pr := Pending(owner, head, [])]), Again(pr, owner, head, newer);
    b := [START, asked, held, again, lost];
    FirstRequest(pr, owner, head);
    SecondAsks(pr, owner, head, newer);
    SecondFails(pr, owner, head, newer);
    LostIsStuck(pr, owner, head);
    FourSteps(START, asked, held, again, lost, steps);
    RunInv(b, steps, 4);
    StuckIsHandedOut(lost, 0, owner);
    CompletableHere(lost, 0);
  }

  /** What a registration is told, in terms of the requests that are active. */
  lemma AdmissionMeans(rows: seq<Row>, pr: PullRequest, owner: string, head: string)
    ensures var outcome := Admission(rows, pr, owner, head);
            && (outcome.Existing? <==> exists i :: 0 <= i < |rows| && ActiveFor(rows[i], pr) && rows[i].owner == owner && rows[i].head == head)
            && (outcome.Conflict? <==> !outcome.Existing? && exists i :: 0 <= i < |rows| && ActiveFor(rows[i], pr) && rows[i].owner != owner)
            && (!outcome.Admitted? ==> outcome.id < |rows| && ActiveFor(rows[outcome.id], pr))
            && (outcome.Existing? ==> rows[outcome.id].owner == owner && rows[outcome.id].head == head)
            && (outcome.Conflict? ==> rows[outcome.id].owner != owner)
  {
    hide ActiveOn, OwnedBy, FirstAtHead, FirstOfOther;
    var ids := ActiveOn(rows, pr);
    var own := OwnedBy(rows, ids, owner);
    forall i: nat | i < |rows| && ActiveFor(rows[i], pr) ensures i in ids && (rows[i].owner == owner ==> i in own) {
    }
  }

  predicate ActiveFor(row: Row, pr: PullRequest) {
    row.pr == pr && row.isActive
  }

  /** Registering again at the same head gives the same request; anyone else meets a conflict with it. */
  lemma RegisterAgain(s: Desk, pr: PullRequest, owner: string, head: string)
    requires Inv(s) && pr in s.locked
    ensures InTable(s.rows, s.locked[pr].priors)
    ensures var id, mine := |s.rows|, s.locked[pr];
            Admission(Insert(s, pr).rows, pr, owner, head) ==
            if owner != mine.owner then Conflict(id) else if head == mine.head then Existing(id) else Admitted
  {
    CommitInv(s, pr);
    var t := Insert(s, pr);
    var id := |s.rows|;
    assert ActiveFor(t.rows[id], pr);
    assert forall i | 0 <= i < |t.rows| && ActiveFor(t.rows[i], pr) :: i == id;
    AdmissionMeans(t.rows, pr, owner, head);
    hide Insert, Admission, Inv;
  }

  /** The request that finally replaced this one. */
  function Latest(rows: seq<Row>, id: nat): (r: nat)
    requires RowsAgree(rows) && id < |rows|
    ensures id <= r < |rows| && rows[r].successor.None? && rows[r].pr == rows[id].pr
    ensures r == id <==> rows[id].successor.None?
    decreases |rows| - id
  {
    if rows[id].successor.None? then id else Latest(rows, rows[id].successor.value)
  }

  /** Following successors any positive number of times leads strictly later, so no chain returns. */
  function Follow(rows: seq<Row>, id: nat, n: nat): Option<nat>
    requires RowsAgree(rows) && id < |rows|
    decreases n
  {
    if n == 0 then Some(id)
    else if rows[id].successor.None? then None
    else Follow(rows, rows[id].successor.value, n - 1)
  }

  lemma {:induction false} ChainsClimb(b: seq<Desk>, steps: seq<Step>, k: nat, id: nat, n: nat)
    requires IsRun(b, steps) && k < |b| && id < |b[k].rows|
    ensures RowsAgree(b[k].rows)
    ensures var r := Follow(b[k].rows, id, n);
            r.Some? ==> id + n <= r.value <= Latest(b[k].rows, id) && b[k].rows[r.value].pr == b[k].rows[id].pr
    decreases n
  {
    RunInv(b, steps, k);
    var rows := b[k].rows;
    if n > 0 && rows[id].successor.Some? {
      ChainsClimb(b, steps, k, rows[id].successor.value, n - 1);
    }
  }

  // ------------------------------------------------------------- the object

  /** Retiring one more predecessor. */
  lemma SupersedeOne(rows: seq<Row>, priors: seq<nat>, k: nat, id: nat)
    requires k < |priors| && priors[k] < |rows|
    ensures var done, p := Supersede(rows, priors[..k], id), priors[k];
            Supersede(rows, priors[..k + 1], id) ==
            if done[p].isActive then done[p := done[p].(isActive := false, state := Superseded, successor := Some(id))] else done
  {
    assert priors[..k + 1] == priors[..k] + [priors[k]];
    assert forall i: nat :: i in priors[..k + 1] <==> i in priors[..k] || i == priors[k];
  }

  lemma ForgetOne(memory: map<nat, bool>, rows: seq<Row>, priors: seq<nat>, k: nat, id: nat)
    requires k < |priors| && InTable(rows, priors)
    ensures InTable(rows, priors[..k]) && InTable(rows, priors[..k + 1]) && priors[k] < |rows|
    ensures var done, p := Forget(memory, rows, priors[..k]), priors[k];
            Forget(memory, rows, priors[..k + 1]) ==
            if p in done && Supersede(rows, priors[..k], id)[p].isActive then done[p := false] else done
  {
    assert priors[k] in priors && forall i: nat | i in priors[..k] :: i in priors;
    assert priors[..k + 1] == priors[..k] + [priors[k]];
    assert forall i: nat :: i in priors[..k + 1] <==> i in priors[..k] || i == priors[k];
  }

  function Outcomes(pr: PullRequest, raisesAfter: Option<nat>): Step {
    if raisesAfter.None? then Commit(pr) else CommitFails(pr, raisesAfter.value)
  }

  class ReviewDesk {
    var rows: seq<Row>
    var memory: map<nat, bool>
    var locked: map<PullRequest, Pending>
    var matched: set<nat>
    var wakes: seq<nat>

    ghost function View(): Desk
      reads this
    {
      Desk(rows, memory, locked, matched, wakes)
    }

    constructor ()
      ensures View() == START && Inv(View())
    {
      rows, memory, locked, matched, wakes := [], map[], map[], {}, [];
    }

    method BeginRegister(pr: PullRequest, owner: string, head: string) returns (outcome: Outcome)
      requires Inv(View()) && pr !in locked
      modifies this
      ensures Inv(View()) && View() == Apply(old(View()), Begin(pr, owner, head))
      ensures outcome == Admission(old(rows), pr, owner, head)
    {
      BeginInv(View(), pr, owner, head);
      var ids := ActiveOn(rows, pr);
      memory := Load(memory, rows, ids);
      outcome := Admission(rows, pr, owner, head);
      if outcome.Admitted? {
        locked := locked[pr := Pending(owner, head, OwnedBy(rows, ids, owner))];
      }
    }

    /** The loop over the predecessors found when the lock was taken, or the first of them. */
    method RetirePriors(priors: seq<nat>, id: nat)
      requires InTable(rows, priors)
      modifies this`rows, this`memory
      ensures rows == Supersede(old(rows), priors, id) && memory == Forget(old(memory), old(rows), priors)
    {
      for k := 0 to |priors|
        invariant rows == Supersede(old(rows), priors[..k], id)
        invariant InTable(old(rows), priors[..k]) && memory == Forget(old(memory), old(rows), priors[..k])
      {
        var prior := priors[k];
        assert prior in priors;
        SupersedeOne(old(rows), priors, k, id);
        ForgetOne(old(memory), old(rows), priors, k, id);
        hide Supersede, Forget;
        if rows[prior].isActive {
          rows := rows[prior := rows[prior].(isActive := false, state := Superseded, successor := Some(id))];
          if prior in memory {
            memory := memory[prior := false];
          }
        }
      }
      assert priors[..|priors|] == priors;
    }

    /** Retires the predecessors and inserts the request; if the transaction raises on the way, the table is rolled back and memory is not. */
    method CommitRegister(pr: PullRequest, raisesAfter: Option<nat>) returns (id: Option<nat>)
      requires Inv(View()) && pr in locked && (raisesAfter.Some? ==> raisesAfter.value <= |locked[pr].priors|)
      modifies this
      ensures Inv(View()) && Enabled(old(View()), Outcomes(pr, raisesAfter)) && View() == Apply(old(View()), Outcomes(pr, raisesAfter))
      ensures id == if raisesAfter.None? then Some(|old(rows)|) else None
    {
      hide Supersede, Forget;
      CommitInv(View(), pr);
      StepInv(View(), Outcomes(pr, raisesAfter));
      var pending := locked[pr];
      var before := rows;
      if raisesAfter.Some? {
        FirstOnly(rows, pending.priors, raisesAfter.value);
        RetirePriors(pending.priors[..raisesAfter.value], |before|);
        rows, id := before, None;
      } else {
        RetirePriors(pending.priors, |before|);
        rows := rows + [Row(pr, pending.owner, pending.head, true, Active, None)];
        memory, id := memory[|before| := true], Some(|before|);
      }
      locked := locked - {pr};
    }

    /** Completes and wakes only if this exact request is still active in the table. */
    method CompleteIfCurrent(id: nat) returns (woken: bool)
      requires Inv(View()) && Enabled(View(), Complete(id))
      modifies this
      ensures Inv(View()) && View() == Apply(old(View()), Complete(id)) && woken == old(rows)[id].isActive
    {
      StepInv(View(), Complete(id));
      if !rows[id].isActive {
        return false;
      }
      rows := rows[id := rows[id].(isActive := false, state := Completed)];
      if id in memory {
        memory := memory[id := false];
      }
      wakes := wakes + [id];
      woken := true;
    }

    method CancelRequest(id: nat) returns (found: bool)
      requires Inv(View())
      modifies this
      ensures Inv(View()) && View() == Apply(old(View()), Cancel(id)) && found == (id in old(memory))
    {
      StepInv(View(), Cancel(id));
      found := id in memory;
      if found && memory[id] {
        memory := memory[id := false];
        rows := rows[id := rows[id].(isActive := false, state := Cancelled)];
      }
    }
  }
}
