/**
The durable ledger of structured requests (src/codex_request_ledger.py): rows
kept across restarts, and the futures and expiry tasks of one process.

Expiry is two steps, because the row is marked expired in one transaction and
resolved in the next, and the process may end between them.
*/
module RequestLedger {
  import opened Options

  type Id = string
  type Payload = string

  datatype Status =
    | Pending
    | Expired
    | Resolved(payload: Payload, source: string, error: Option<string>)
    | Orphaned(reason: string)

  datatype Row = Row(session: string, generation: string, status: Status)

  datatype Ledger = Ledger(
    generation: string,
    rows: map<Id, Row>,                     // the table
    waiting: set<Id>,                       // keys of the pending futures
    tasks: map<Id, Payload>,                // expiry tasks and the policy payload each carries
    firing: map<Id, Payload>,               // tasks that marked their row expired and are about to resolve it
    settled: map<Id, Option<Payload>>)      // futures that have a result

  datatype Reply =
    | NotFound
    | Unavailable
    | Answered(idempotent: bool, answer: Status)

  predicate Open(status: Status) {
    status == Pending || status == Expired
  }

  predicate IsOpen(rows: map<Id, Row>, id: Id) {
    id in rows && Open(rows[id].status)
  }

  // ------------------------------------------------------------- operations

  function SetStatus(rows: map<Id, Row>, id: Id, status: Status): map<Id, Row>
    requires id in rows
  {
    rows[id := rows[id].(status := status)]
  }

  /** Takes the future and the expiry task out of memory and gives the future its result. */
  function Settle(s: Ledger, id: Id, result: Option<Payload>): Ledger {
    s.(waiting := s.waiting - {id}, tasks := s.tasks - {id},
       settled := if id in s.waiting then s.settled[id := result] else s.settled)
  }

  predicate Resolvable(status: Status, allowExpired: bool) {
    status == Pending || (status == Expired && allowExpired)
  }

  function ReplyTo(rows: map<Id, Row>, id: Id, answer: Status, allowExpired: bool): Reply {
    if id !in rows then NotFound
    else if Resolvable(rows[id].status, allowExpired) then Answered(false, answer)
    else if rows[id].status.Resolved? then Answered(true, rows[id].status)
    else Unavailable
  }

  function ResolveTo(s: Ledger, id: Id, answer: Status, allowExpired: bool): Ledger
    requires answer.Resolved?
  {
    var reply := ReplyTo(s.rows, id, answer, allowExpired);
    if reply.Answered? && reply.answer.Resolved? then
      Settle(s.(rows := if reply.idempotent then s.rows else SetStatus(s.rows, id, answer)), id, Some(reply.answer.payload))
    else s
  }

  /** What waiting on a request answers once no future is in memory for it. */
  function Lookup(rows: map<Id, Row>, id: Id): Option<Payload> {
    if id in rows && rows[id].status.Resolved? then Some(rows[id].status.payload) else None
  }

  function OrphanRow(row: Row, reason: string): Row {
    if Open(row.status) then row.(status := Orphaned(reason)) else row
  }

  function OrphanSession(rows: map<Id, Row>, session: string, reason: string): map<Id, Row> {
    map id | id in rows :: if rows[id].session == session then OrphanRow(rows[id], reason) else rows[id]
  }

  function OrphanOthers(rows: map<Id, Row>, generation: string): map<Id, Row> {
    map id | id in rows :: if rows[id].generation != generation then OrphanRow(rows[id], "server_restarted") else rows[id]
  }

  function Unresolved(rows: map<Id, Row>, session: string): set<Id> {
    set id | id in rows && rows[id].session == session && Open(rows[id].status)
  }

  function Nothing(ids: set<Id>): map<Id, Option<Payload>> {
    map id | id in ids :: None
  }

  /** Takes these requests' futures and tasks out of memory; each future gets no answer. */
  function Dropped(s: Ledger, ids: set<Id>): Ledger {
    s.(waiting := s.waiting - ids, tasks := s.tasks - ids, settled := s.settled + Nothing(ids * s.waiting))
  }

  // ------------------------------------------------------------------ steps

  datatype Step =
    | Register(id: Id, session: string, policy: Payload)
    | Resolve(id: Id, payload: Payload, source: string, error: Option<string>)
    | MarkExpired(id: Id)
    | Fire(id: Id)
    | Orphan(session: string, reason: string)
    | Restart(generation: string)

  predicate Enabled(s: Ledger, step: Step) {
    match step
    case Register(id, _, _) => id !in s.rows
    case MarkExpired(id) => id in s.tasks && id !in s.firing
    case Fire(id) => id in s.firing
    case _ => true
  }

  function PolicyAnswer(payload: Payload): Status {
    Resolved(payload, "policy", Some("request_expired"))
  }

  function Apply(s: Ledger, step: Step): Ledger
    requires Enabled(s, step)
  {
    match step
    case Register(id, session, policy) =>
      s.(rows := s.rows[id := Row(session, s.generation, Pending)], waiting := s.waiting + {id}, tasks := s.tasks[id := policy])
    case Resolve(id, payload, source, error) => ResolveTo(s, id, Resolved(payload, source, error), false)
    case MarkExpired(id) =>
      if id in s.rows && s.rows[id].status == Pending
      then s.(rows := SetStatus(s.rows, id, Expired), firing := s.firing[id := s.tasks[id]])
      else s
    case Fire(id) => ResolveTo(s.(firing := s.firing - {id}), id, PolicyAnswer(s.firing[id]), true)
    case Orphan(session, reason) =>
      var ids := Unresolved(s.rows, session);
      Dropped(s.(rows := OrphanSession(s.rows, session, reason)), ids)
    case Restart(generation) => Ledger(generation, OrphanOthers(s.rows, generation), {}, map[], map[], map[])
  }

  ghost predicate IsRun(b: seq<Ledger>, steps: seq<Step>) {
    && |b| == |steps| + 1 && b[0].rows == map[] && b[0] == Ledger(b[0].generation, map[], {}, map[], map[], map[])
    && forall k | 0 <= k < |steps| :: Enabled(b[k], steps[k]) && b[k + 1] == Apply(b[k], steps[k])
  }

  // -------------------------------------------------------------- invariants

  /**
  What holds of one request: its future and its task exist together and only
  while its row is open, an expired row's task is on its way, and a future's
  result is what the row says.
  */
  ghost predicate At(s: Ledger, id: Id) {
    && (id in s.tasks <==> id in s.waiting)
    && (id in s.waiting ==> IsOpen(s.rows, id) && (s.rows[id].status == Expired ==> id in s.firing))
    && (id in s.firing ==> id in s.rows && s.rows[id].status != Pending)
    && (id in s.settled ==> id in s.rows && !Open(s.rows[id].status) && s.settled[id] == Lookup(s.rows, id))
  }

  ghost predicate Inv(s: Ledger) {
    forall id: Id :: At(s, id)
  }

  /** Every open row has a future and an expiry task in this process. */
  ghost predicate Agrees(s: Ledger) {
    forall id | IsOpen(s.rows, id) :: id in s.waiting
  }

  lemma StepAt(s: Ledger, step: Step, id: Id)
    requires At(s, id) && Enabled(s, step)
    ensures At(Apply(s, step), id)
  {
  }

  lemma StepInv(s: Ledger, step: Step)
    requires Inv(s) && Enabled(s, step)
    ensures Inv(Apply(s, step))
  {
    hide At, Apply;
    var t := Apply(s, step);
    forall id: Id ensures At(t, id) {
      assert At(s, id);
      StepAt(s, step, id);
    }
  }

  lemma {:induction false} RunInv(b: seq<Ledger>, steps: seq<Step>, k: nat)
    requires IsRun(b, steps) && k < |b|
    ensures Inv(b[k])
  {
    hide Apply;
    if k > 0 {
      RunInv(b, steps, k - 1);
      StepInv(b[k - 1], steps[k - 1]);
    }
  }

  /** The row stays, and once resolved or orphaned it never changes. */
  predicate Keeps(before: map<Id, Row>, after: map<Id, Row>, id: Id) {
    id in before ==>
      && id in after && after[id].session == before[id].session && after[id].generation == before[id].generation
      && (!Open(before[id].status) ==> after[id] == before[id])
  }

  lemma StepKeeps(s: Ledger, step: Step, id: Id)
    requires Enabled(s, step)
    ensures Keeps(s.rows, Apply(s, step).rows, id)
  {
  }

  lemma {:induction false} RunKeeps(b: seq<Ledger>, steps: seq<Step>, m: nat, k: nat, id: Id)
    requires IsRun(b, steps) && m <= k < |b|
    ensures Keeps(b[m].rows, b[k].rows, id)
    decreases k
  {
    hide Apply;
    if m < k {
      RunKeeps(b, steps, m, k - 1, id);
      StepKeeps(b[k - 1], steps[k - 1], id);
    }
  }

  // ---------------------------------------------------------------- theorems

  /** Once a request is resolved every later resolve, in any process, returns that first answer and changes nothing. */
  lemma FirstAnswerWins(b: seq<Ledger>, steps: seq<Step>, m: nat, k: nat, id: Id, later: Status)
    requires IsRun(b, steps) && m <= k < |b| && id in b[m].rows && b[m].rows[id].status.Resolved? && later.Resolved?
    ensures forall allowExpired :: ReplyTo(b[k].rows, id, later, allowExpired) == Answered(true, b[m].rows[id].status)
    ensures forall allowExpired :: ResolveTo(b[k], id, later, allowExpired) == b[k]
  {
    RunKeeps(b, steps, m, k, id);
    RunInv(b, steps, k);
    assert At(b[k], id);
    assert b[k].rows[id] == b[m].rows[id] && id !in b[k].waiting && id !in b[k].tasks;
    assert b[k].waiting - {id} == b[k].waiting && b[k].tasks - {id} == b[k].tasks;
  }

  /** Waiting beforehand and asking any time later, even after restarts, answer alike; the answer is none exactly for orphans. */
  lemma WaitingAgreesWithAsking(b: seq<Ledger>, steps: seq<Step>, m: nat, k: nat, id: Id)
    requires IsRun(b, steps) && m <= k < |b| && id in b[m].settled
    ensures id !in b[k].waiting && Lookup(b[k].rows, id) == b[m].settled[id]
    ensures id in b[m].rows && (b[m].settled[id] == None <==> b[m].rows[id].status.Orphaned?)
  {
    RunInv(b, steps, m);
    RunInv(b, steps, k);
    RunKeeps(b, steps, m, k, id);
    assert At(b[m], id) && At(b[k], id);
    assert id in b[m].rows && b[k].rows[id] == b[m].rows[id];
  }

  /** While the process lives, a waiter either still waits on an open row or has its result. */
  lemma {:induction false} WaitersAreServed(b: seq<Ledger>, steps: seq<Step>, m: nat, k: nat, id: Id)
    requires IsRun(b, steps) && m <= k < |b| && id in b[m].waiting
    requires forall j | m <= j < k :: !steps[j].Restart?
    ensures if IsOpen(b[k].rows, id) then id in b[k].waiting else id in b[k].settled
    decreases k
  {
    hide Apply;
    if m == k {
      RunInv(b, steps, k);
      assert At(b[k], id);
    } else {
      WaitersAreServed(b, steps, m, k - 1, id);
      RunInv(b, steps, k - 1);
      assert At(b[k - 1], id);
      StillServed(b[k - 1], steps[k - 1], id);
    }
  }

  lemma StillServed(s: Ledger, step: Step, id: Id)
    requires At(s, id) && Enabled(s, step) && !step.Restart? && (id in s.waiting || id in s.settled)
    ensures var t := Apply(s, step); if IsOpen(t.rows, id) then id in t.waiting else id in t.settled
  {
  }

  /** An open row has its future in memory exactly when no restart has happened since it was registered. */
  lemma {:induction false} ForgottenOnlyByRestart(b: seq<Ledger>, steps: seq<Step>, k: nat, id: Id)
    requires IsRun(b, steps) && k < |b| && IsOpen(b[k].rows, id)
    ensures id !in b[k].waiting <==> exists m :: 0 <= m < k && steps[m].Restart? && id in b[m].rows
  {
    hide Apply;
    if k > 0 {
      var s, step := b[k - 1], steps[k - 1];
      RunInv(b, steps, k - 1);
      assert At(s, id);
      StepKeeps(s, step, id);
      WaitingMoves(s, step, id);
      if id in s.rows {
        ForgottenOnlyByRestart(b, steps, k - 1, id);
      } else {
        forall m | 0 <= m < k ensures id !in b[m].rows { RunKeeps(b, steps, m, k - 1, id); }
      }
    }
  }

  lemma WaitingMoves(s: Ledger, step: Step, id: Id)
    requires At(s, id) && Enabled(s, step) && IsOpen(Apply(s, step).rows, id)
    ensures id in Apply(s, step).waiting <==> (id in s.rows ==> id in s.waiting && !step.Restart?)
  {
  }

  /** A restart leaves memory and table in agreement exactly when no open row carries the new process's generation. */
  lemma RestartAgreesIff(s: Ledger, generation: string)
    ensures Agrees(Apply(s, Restart(generation))) <==>
            forall id | IsOpen(s.rows, id) :: s.rows[id].generation != generation
  {
    var t := Apply(s, Restart(generation));
    forall id | id in s.rows
      ensures IsOpen(t.rows, id) <==> IsOpen(s.rows, id) && s.rows[id].generation == generation
    {
    }
    if id :| IsOpen(s.rows, id) && s.rows[id].generation == generation {
      assert IsOpen(t.rows, id);
    }
  }

  lemma StepAgrees(s: Ledger, step: Step)
    requires Inv(s) && Agrees(s) && Enabled(s, step)
    requires step.Restart? ==> forall id | IsOpen(s.rows, id) :: s.rows[id].generation != step.generation
    ensures Agrees(Apply(s, step))
  {
    if step.Restart? {
      RestartAgreesIff(s, step.generation);
    } else {
      var t := Apply(s, step);
      forall id | IsOpen(t.rows, id) ensures id in t.waiting {
        assert At(s, id);
        StepKeeps(s, step, id);
        WaitingMoves(s, step, id);
      }
    }
  }

  /** With a generation of its own for each process, every open request always has a future to wait on. */
  lemma {:induction false} FreshGenerationsAgree(b: seq<Ledger>, steps: seq<Step>, k: nat)
    requires IsRun(b, steps) && k < |b|
    requires forall m | 0 <= m < k && steps[m].Restart? :: forall id | id in b[m].rows :: b[m].rows[id].generation != steps[m].generation
    ensures Agrees(b[k])
  {
    if k > 0 {
      FreshGenerationsAgree(b, steps, k - 1);
      RunInv(b, steps, k - 1);
      StepAgrees(b[k - 1], steps[k - 1]);
    }
  }

  /** While memory and table agree, the timeout alone can always bring an open request to its policy answer. */
  lemma TimeoutAlwaysAnswers(s: Ledger, id: Id)
    requires Inv(s) && Agrees(s) && IsOpen(s.rows, id)
    ensures id in s.tasks
    ensures s.rows[id].status == Pending ==> Enabled(s, MarkExpired(id))
    ensures var t := if s.rows[id].status == Pending then Apply(s, MarkExpired(id)) else s;
            && Enabled(t, Fire(id))
            && var u := Apply(t, Fire(id));
               && u.rows[id].status == PolicyAnswer(t.firing[id]) && id !in u.waiting
               && id in u.settled && u.settled[id] == Some(t.firing[id])
               && (s.rows[id].status == Pending ==> t.firing[id] == s.tasks[id])
  {
    assert At(s, id);
  }

  /** The same generation reused: a request stays open while waiting on it answers none at once. */
  lemma ReusedGeneration()
    ensures var s := Ledger("g", map["r" := Row("s", "g", Pending)], {"r"}, map["r" := "deny"], map[], map[]);
            && Inv(s) && Agrees(s)
            && var t := Apply(s, Restart("g"));
               IsOpen(t.rows, "r") && "r" !in t.waiting && Lookup(t.rows, "r") == None
               && Lookup(Apply(t, Resolve("r", "allow", "user", None)).rows, "r") == Some("allow")
  {
    var rows := map["r" := Row("s", "g", Pending)];
    assert OrphanOthers(rows, "g") == rows;
    var s := Ledger("g", rows, {"r"}, map["r" := "deny"], map[], map[]);
    assert forall id: Id :: At(s, id);
  }

  // -------------------------------------------------------------- the object

  lemma DropNone(s: Ledger)
    ensures Dropped(s, {}) == s
  {
    assert Nothing({} * s.waiting) == map[];
  }

  /** Dropping one more of the requests still to go. */
  lemma DropOne(s: Ledger, ids: set<Id>, left: set<Id>, id: Id)
    requires left <= ids && id in left
    ensures var d, e := Dropped(s, ids - left), Dropped(s, ids - (left - {id}));
            e == d.(waiting := d.waiting - {id}, tasks := d.tasks - {id},
                    settled := if id in d.waiting then d.settled[id := None] else d.settled)
  {
    assert ids - (left - {id}) == ids - left + {id};
  }

  class CodexRequestLedger {
    var generation: string
    var rows: map<Id, Row>
    var waiting: set<Id>
    var tasks: map<Id, Payload>
    var firing: map<Id, Payload>
    var settled: map<Id, Option<Payload>>

    ghost function View(): Ledger
      reads this
    {
      Ledger(generation, rows, waiting, tasks, firing, settled)
    }

    /** Opens the database a previous process left and orphans its unresolved requests. */
    constructor (ghost previous: Ledger, table: map<Id, Row>, processGeneration: string)
      requires table == previous.rows
      ensures View() == Apply(previous, Restart(processGeneration)) && Inv(View())
    {
      generation, rows := processGeneration, OrphanOthers(table, processGeneration);
      waiting, tasks, firing, settled := {}, map[], map[], map[];
    }

    /** False when the identifier is already taken. */
    method RegisterRequest(id: Id, session: string, policy: Payload) returns (ok: bool)
      requires Inv(View())
      modifies this
      ensures Inv(View()) && ok == (id !in old(rows))
      ensures View() == if ok then Apply(old(View()), Register(id, session, policy)) else old(View())
    {
      ok := id !in rows;
      if ok {
        StepInv(View(), Register(id, session, policy));
        rows := rows[id := Row(session, generation, Pending)];
        waiting := waiting + {id};
        tasks := tasks[id := policy];
      }
    }

    method ResolveRequest(id: Id, answer: Status, allowExpired: bool) returns (reply: Reply)
      requires answer.Resolved?
      modifies this
      ensures View() == ResolveTo(old(View()), id, answer, allowExpired)
      ensures reply == ReplyTo(old(rows), id, answer, allowExpired)
    {
      if id !in rows {
        return NotFound;
      }
      var status := rows[id].status;
      if (status == Pending || status == Expired) && (status == Pending || allowExpired) {
        rows := rows[id := rows[id].(status := answer)];
        reply := Answered(false, answer);
      } else if status.Resolved? {
        reply := Answered(true, status);
      } else {
        return Unavailable;
      }
      if id in waiting {
        settled := settled[id := Some(reply.answer.payload)];
      }
      waiting := waiting - {id};
      tasks := tasks - {id};
    }

    method MarkRowExpired(id: Id) returns (transitioned: bool)
      requires Enabled(View(), MarkExpired(id))
      modifies this
      ensures View() == Apply(old(View()), MarkExpired(id))
      ensures transitioned == (id in old(rows) && old(rows)[id].status == Pending)
    {
      transitioned := id in rows && rows[id].status == Pending;
      if transitioned {
        rows := rows[id := rows[id].(status := Expired)];
        firing := firing[id := tasks[id]];
      }
    }

    /** The body of an expiry task once its sleep is over. */
    method ExpireAfterTimeout(id: Id)
      requires Inv(View()) && Enabled(View(), MarkExpired(id)) && At(View(), id)
      modifies this
      ensures Inv(View()) && id in rows && rows[id].status == PolicyAnswer(old(tasks)[id])
      ensures id in settled && settled[id] == Some(old(tasks)[id])
      ensures View() == Apply(Apply(old(View()), MarkExpired(id)), Fire(id))
    {
      StepInv(View(), MarkExpired(id));
      StepInv(Apply(View(), MarkExpired(id)), Fire(id));
      var transitioned := MarkRowExpired(id);
      var policy := firing[id];
      firing := firing - {id};
      var reply := ResolveRequest(id, PolicyAnswer(policy), true);
    }

    method OrphanPendingForSession(session: string, reason: string)
      requires Inv(View())
      modifies this
      ensures Inv(View()) && View() == Apply(old(View()), Orphan(session, reason))
    {
      hide At, Inv, Dropped;
      StepInv(View(), Orphan(session, reason));
      var ids := Unresolved(rows, session);
      rows := OrphanSession(rows, session, reason);
      ghost var from := View();
      var left := ids;
      assert ids - left == {};
      DropNone(from);
      while left != {}
        invariant left <= ids && View() == Dropped(from, ids - left)
        decreases |left|
      {
        var id :| id in left;
        DropOne(from, ids, left, id);
        if id in waiting {
          settled := settled[id := None];
        }
        waiting, tasks, left := waiting - {id}, tasks - {id}, left - {id};
      }
      assert ids - left == ids;
    }

    /** The future of an open request, or the answer the table gives. */
    method WaitForResolution(id: Id) returns (blocks: bool, answer: Option<Payload>)
      requires Inv(View())
      ensures blocks ==> IsOpen(rows, id)
      ensures !blocks && Agrees(View()) ==> (answer.Some? <==> id in rows && rows[id].status.Resolved?) && !IsOpen(rows, id)
      ensures !blocks ==> answer == Lookup(rows, id)
    {
      assert At(View(), id);
      if id in waiting {
        return true, None;
      }
      return false, if id in rows && rows[id].status.Resolved? then Some(rows[id].status.payload) else None;
    }
  }
}
