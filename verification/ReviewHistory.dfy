/**
What becomes of one review request, told by the steps of a run alone: its row,
what memory thinks of it, who holds the lock of its pull request, and the wakes.
*/
module ReviewHistory {
  import opened Options
  import opened ReviewRequests

  function Commits(steps: seq<Step>): nat {
    if steps == [] then 0 else Commits(steps[..|steps| - 1]) + if steps[|steps| - 1].Commit? then 1 else 0
  }

  lemma RowsMove(s: Desk, step: Step)
    requires Enabled(s, step)
    ensures |Apply(s, step).rows| == |s.rows| + if step.Commit? then 1 else 0
  {
    hide ActiveOn, OwnedBy, FirstAtHead, FirstOfOther, Admission, Load, Forget;
  }

  /** Only a successful commit adds a row, and it adds one, last. */
  lemma {:induction false} RowsAreCommitted(b: seq<Desk>, steps: seq<Step>, k: nat)
    requires IsRun(b, steps) && k < |b|
    ensures |b[k].rows| == Commits(steps[..k])
  {
    hide Apply, Enabled;
    if k > 0 {
      RowsAreCommitted(b, steps, k - 1);
      assert Enabled(b[k - 1], steps[k - 1]) && b[k] == Apply(b[k - 1], steps[k - 1]);
      RowsMove(b[k - 1], steps[k - 1]);
      assert steps[..k][..k - 1] == steps[..k - 1];
    }
  }

  // ----------------------------------------------------------------- locks

  datatype Asked = Asked(owner: string, head: string)

  /** Nothing on this pull request is in the way: every active request is the owner's own, at another head. */
  predicate Clear(rows: seq<Row>, pr: PullRequest, owner: string, head: string) {
    forall i | 0 <= i < |rows| && rows[i].pr == pr && rows[i].isActive :: rows[i].owner == owner && rows[i].head != head
  }

  /** Who holds the lock of a pull request after the first k steps. */
  ghost function Holder(b: seq<Desk>, steps: seq<Step>, k: nat, pr: PullRequest): Option<Asked>
    requires k <= |steps| < |b|
    decreases k
  {
    if k == 0 then None
    else
      var before := Holder(b, steps, k - 1, pr);
      match steps[k - 1]
      case Begin(x, owner, head) => if x == pr && Clear(b[k - 1].rows, pr, owner, head) then Some(Asked(owner, head)) else before
      case Commit(x) => if x == pr then None else before
      case CommitFails(x, _) => if x == pr then None else before
      case Abort(x) => if x == pr then None else before
      case Restart(_) => None
      case _ => before
  }

  ghost predicate LockIs(s: Desk, pr: PullRequest, holder: Option<Asked>) {
    (pr in s.locked <==> holder.Some?) && (holder.Some? ==> s.locked[pr].owner == holder.value.owner && s.locked[pr].head == holder.value.head)
  }

  lemma ClearMeans(rows: seq<Row>, pr: PullRequest, owner: string, head: string)
    ensures Admission(rows, pr, owner, head).Admitted? <==> Clear(rows, pr, owner, head)
  {
    hide Admission;
    AdmissionMeans(rows, pr, owner, head);
    if !Clear(rows, pr, owner, head) {
      var i :| 0 <= i < |rows| && rows[i].pr == pr && rows[i].isActive && !(rows[i].owner == owner && rows[i].head != head);
      assert ActiveFor(rows[i], pr);
    }
  }

  lemma LockMoves(s: Desk, step: Step, pr: PullRequest)
    requires Enabled(s, step)
    ensures var t := Apply(s, step);
            match step
            case Begin(x, owner, head) =>
              if x == pr && Clear(s.rows, pr, owner, head) then LockIs(t, pr, Some(Asked(owner, head)))
              else (pr in t.locked <==> pr in s.locked) && (pr in s.locked ==> t.locked[pr] == s.locked[pr])
            case Commit(x) => if x == pr then pr !in t.locked else t.locked == s.locked - {x}
            case CommitFails(x, _) => if x == pr then pr !in t.locked else t.locked == s.locked - {x}
            case Abort(x) => if x == pr then pr !in t.locked else t.locked == s.locked - {x}
            case Restart(_) => t.locked == map[]
            case _ => t.locked == s.locked
  {
    if step.Begin? {
      ClearMeans(s.rows, step.pr, step.owner, step.head);
    }
    hide ActiveOn, OwnedBy, FirstAtHead, FirstOfOther, Admission, Clear;
  }

  /** In every run a pull request is locked, and for whom and which head, exactly as the steps tell. */
  lemma {:induction false} LocksTellHistory(b: seq<Desk>, steps: seq<Step>, k: nat, pr: PullRequest)
    requires IsRun(b, steps) && k < |b|
    ensures LockIs(b[k], pr, Holder(b, steps, k, pr))
  {
    if k > 0 {
      LocksTellHistory(b, steps, k - 1, pr);
      assert Enabled(b[k - 1], steps[k - 1]) && b[k] == Apply(b[k - 1], steps[k - 1]);
      hide Apply, Enabled, Clear;
      LockMoves(b[k - 1], steps[k - 1], pr);
    }
  }

  /** A registration that holds the lock can commit or give up; while nobody holds it anyone can begin; neither otherwise. */
  lemma LockAdmits(b: seq<Desk>, steps: seq<Step>, k: nat, pr: PullRequest)
    requires IsRun(b, steps) && k < |b|
    ensures var held := Holder(b, steps, k, pr).Some?;
            && (Enabled(b[k], Commit(pr)) <==> held) && (Enabled(b[k], Abort(pr)) <==> held)
            && forall owner, head :: Enabled(b[k], Begin(pr, owner, head)) <==> !held
  {
    hide Holder;
    RunInv(b, steps, k);
    LocksTellHistory(b, steps, k, pr);
  }

  // ---------------------------------------------------------- one request

  /** A request's state, what replaced it, and whether memory takes it for active. */
  datatype Life = Life(state: State, successor: Option<nat>, known: bool)

  /** What one step makes of request `id` of this pull request; `next` is the number the next request would get. */
  function Moved(id: nat, pr: PullRequest, life: Life, step: Step, next: nat): Life {
    match step
    case Commit(x) => if x == pr && life.state == Active then Life(Superseded, Some(next), false) else life
    case CommitFails(x, updates) => if x == pr && life.state == Active && updates > 0 then life.(known := false) else life
    case Complete(x) => if x == id && life.state == Active then Life(Completed, None, false) else life
    case Cancel(x) => if x == id && life.known then Life(Cancelled, None, false) else life
    case Restart(gone) =>
      if life.state != Active then life else if id in gone then Life(Cancelled, None, false) else life.(known := true)
    case _ => life
  }

  function LifeTold(id: nat, pr: PullRequest, steps: seq<Step>, r: nat, k: nat): Life
    requires r < k <= |steps|
    decreases k
  {
    if k == r + 1 then Life(Active, None, true)
    else Moved(id, pr, LifeTold(id, pr, steps, r, k - 1), steps[k - 1], Commits(steps[..k - 1]))
  }

  ghost predicate Lives(s: Desk, id: nat, pr: PullRequest, asked: Asked, life: Life) {
    && id < |s.rows| && s.rows[id] == Row(pr, asked.owner, asked.head, life.state == Active, life.state, life.successor)
    && id in s.memory && s.memory[id] == life.known
  }

  /** A registration under way has at most one request to replace, and that is the active one. */
  ghost predicate OnePrior(s: Desk) {
    forall pr | pr in s.locked :: |s.locked[pr].priors| <= 1
  }

  lemma {:induction false} ShortOwned(rows: seq<Row>, ids: seq<nat>, owner: string)
    requires InTable(rows, ids)
    ensures |OwnedBy(rows, ids, owner)| <= |ids|
  {
    if ids != [] {
      assert forall i: nat | i in ids[1..] :: i in ids;
      ShortOwned(rows, ids[1..], owner);
    }
  }

  lemma {:induction false} ShortActive(rows: seq<Row>, pr: PullRequest)
    requires OneActive(rows)
    ensures |ActiveOn(rows, pr)| <= 1
  {
    if rows != [] {
      var n := |rows| - 1;
      assert forall i | 0 <= i < n :: rows[..n][i] == rows[i];
      ShortActive(rows[..n], pr);
      var ids := ActiveOn(rows[..n], pr);
      if ids != [] {
        assert ids[0] in ids;
      }
    }
  }

  lemma {:induction false} RunOnePrior(b: seq<Desk>, steps: seq<Step>, k: nat)
    requires IsRun(b, steps) && k < |b|
    ensures OnePrior(b[k])
  {
    if k > 0 {
      hide Apply, Enabled, Inv, OnePrior;
      RunOnePrior(b, steps, k - 1);
      RunInv(b, steps, k - 1);
      StepOnePrior(b[k - 1], steps[k - 1]);
    } else {
      NoPrior();
    }
  }

  lemma NoPrior()
    ensures OnePrior(START)
  {
  }

  lemma StepOnePrior(s: Desk, step: Step)
    requires Inv(s) && OnePrior(s) && Enabled(s, step)
    ensures OnePrior(Apply(s, step))
  {
    if step.Begin? {
      ShortActive(s.rows, step.pr);
      ShortOwned(s.rows, ActiveOn(s.rows, step.pr), step.owner);
    }
    hide ActiveOn, OwnedBy, FirstAtHead, FirstOfOther, Admission, Inv, Supersede, Forget, Recover, Load;
  }

  lemma LifeMoves(s: Desk, step: Step, id: nat, pr: PullRequest, asked: Asked, life: Life)
    requires Inv(s) && OnePrior(s) && Enabled(s, step) && Lives(s, id, pr, asked, life)
    ensures Lives(Apply(s, step), id, pr, asked, Moved(id, pr, life, step, |s.rows|))
  {
    hide ActiveOn, OwnedBy, FirstAtHead, FirstOfOther, Admission, OneActive, RowsAgree, WakesAgree, LocksAgree, OnePrior, Supersede, Forget, Recover, Lives;
    match step
    case Commit(x) => CommitLife(s, x, id, pr, asked, life);
    case CommitFails(x, updates) => FailLife(s, x, updates, id, pr, asked, life);
    case Complete(x) => CompleteLife(s, x, id, pr, asked, life);
    case Cancel(x) => CancelLife(s, x, id, pr, asked, life);
    case Restart(gone) => RestartLife(s, gone, id, pr, asked, life);
    case _ => SameLife(s, step, id, pr, asked, life);
  }

  lemma CommitLife(s: Desk, x: PullRequest, id: nat, pr: PullRequest, asked: Asked, life: Life)
    requires Inv(s) && OnePrior(s) && Enabled(s, Commit(x)) && Lives(s, id, pr, asked, life)
    ensures Lives(Apply(s, Commit(x)), id, pr, asked, Moved(id, pr, life, Commit(x), |s.rows|))
  {
    PriorIs(s, x, id);
    assert Apply(s, Commit(x)).rows[id] == Supersede(s.rows, s.locked[x].priors, |s.rows|)[id];
    hide OneActive, WakesAgree, LocksAgree, RowsAgree, OnePrior;
  }

  lemma FailLife(s: Desk, x: PullRequest, updates: nat, id: nat, pr: PullRequest, asked: Asked, life: Life)
    requires Inv(s) && OnePrior(s) && Enabled(s, CommitFails(x, updates)) && Lives(s, id, pr, asked, life)
    ensures Lives(Apply(s, CommitFails(x, updates)), id, pr, asked, Moved(id, pr, life, CommitFails(x, updates), |s.rows|))
  {
    PriorIs(s, x, id);
    hide OneActive, WakesAgree, LocksAgree, RowsAgree, OnePrior;
  }

  lemma CompleteLife(s: Desk, x: nat, id: nat, pr: PullRequest, asked: Asked, life: Life)
    requires Inv(s) && Enabled(s, Complete(x)) && Lives(s, id, pr, asked, life)
    ensures Lives(Apply(s, Complete(x)), id, pr, asked, Moved(id, pr, life, Complete(x), |s.rows|))
  {
    hide OneActive, WakesAgree, LocksAgree;
  }

  lemma CancelLife(s: Desk, x: nat, id: nat, pr: PullRequest, asked: Asked, life: Life)
    requires Inv(s) && Lives(s, id, pr, asked, life)
    ensures Lives(Apply(s, Cancel(x)), id, pr, asked, Moved(id, pr, life, Cancel(x), |s.rows|))
  {
    hide OneActive, WakesAgree, LocksAgree;
  }

  lemma RestartLife(s: Desk, gone: set<nat>, id: nat, pr: PullRequest, asked: Asked, life: Life)
    requires Inv(s) && Lives(s, id, pr, asked, life)
    ensures Lives(Apply(s, Restart(gone)), id, pr, asked, Moved(id, pr, life, Restart(gone), |s.rows|))
  {
    hide OneActive, WakesAgree, LocksAgree;
  }

  lemma SameLife(s: Desk, step: Step, id: nat, pr: PullRequest, asked: Asked, life: Life)
    requires Enabled(s, step) && Lives(s, id, pr, asked, life) && (step.Begin? || step.Abort? || step.Match? || step.Look?)
    ensures Lives(Apply(s, step), id, pr, asked, life)
  {
    hide ActiveOn, OwnedBy, FirstAtHead, FirstOfOther, Admission;
  }

  lemma PriorIs(s: Desk, pr: PullRequest, id: nat)
    requires LocksAgree(s) && OnePrior(s) && pr in s.locked && id < |s.rows|
    ensures var priors := s.locked[pr].priors;
            && (s.rows[id].isActive && s.rows[id].pr == pr ==> priors == [id])
            && (s.rows[id].pr != pr ==> id !in priors)
            && forall n: nat | 0 < n <= |priors| :: priors[..n] == priors
  {
  }

  lemma Committed(s: Desk, pr: PullRequest)
    requires pr in s.locked && InTable(s.rows, s.locked[pr].priors)
    ensures Lives(Insert(s, pr), |s.rows|, pr, Asked(s.locked[pr].owner, s.locked[pr].head), Life(Active, None, true))
  {
  }

  lemma LifeUnfolds(id: nat, pr: PullRequest, steps: seq<Step>, r: nat, k: nat)
    requires r < k <= |steps|
    ensures LifeTold(id, pr, steps, r, k) ==
            if k == r + 1 then Life(Active, None, true) else Moved(id, pr, LifeTold(id, pr, steps, r, k - 1), steps[k - 1], Commits(steps[..k - 1]))
  {
  }

  /** The request committed at step r is at position k as the steps tell. */
  ghost predicate AsTold(b: seq<Desk>, steps: seq<Step>, r: nat, k: nat)
    requires r < k <= |steps| < |b| && steps[r].Commit?
  {
    var pr, id := steps[r].pr, |b[r].rows|;
    var asked := Holder(b, steps, r, pr);
    asked.Some? && Lives(b[k], id, pr, asked.value, LifeTold(id, pr, steps, r, k))
  }

  /**
  In every run a committed request has the pull request, owner and head its
  registration began with, and its state, successor and standing in memory are
  what the steps since then tell.
  */
  lemma {:induction false} RequestTellsHistory(b: seq<Desk>, steps: seq<Step>, r: nat, k: nat)
    requires IsRun(b, steps) && r < k < |b| && steps[r].Commit?
    ensures AsTold(b, steps, r, k)
    decreases k
  {
    hide AsTold;
    if k == r + 1 {
      FirstLife(b, steps, r);
    } else {
      RequestTellsHistory(b, steps, r, k - 1);
      NextLife(b, steps, r, k);
    }
  }

  lemma NextLife(b: seq<Desk>, steps: seq<Step>, r: nat, k: nat)
    requires IsRun(b, steps) && r + 1 < k < |b| && steps[r].Commit? && AsTold(b, steps, r, k - 1)
    ensures AsTold(b, steps, r, k)
  {
    hide Inv, Lives, Holder, LifeTold, Moved, Apply, Enabled, OnePrior, Commits;
    var pr, id, n := steps[r].pr, |b[r].rows|, k - 1;
    RunInv(b, steps, n);
    RunOnePrior(b, steps, n);
    RowsAreCommitted(b, steps, n);
    TakenStep(b, steps, n);
    LifeMoves(b[n], steps[n], id, pr, Holder(b, steps, r, pr).value, LifeTold(id, pr, steps, r, n));
    LifeUnfolds(id, pr, steps, r, k);
  }

  lemma TakenStep(b: seq<Desk>, steps: seq<Step>, k: nat)
    requires IsRun(b, steps) && k < |steps|
    ensures |b| == |steps| + 1 && Enabled(b[k], steps[k]) && b[k + 1] == Apply(b[k], steps[k])
  {
  }

  lemma FirstLife(b: seq<Desk>, steps: seq<Step>, r: nat)
    requires IsRun(b, steps) && r < |steps| && steps[r].Commit?
    ensures AsTold(b, steps, r, r + 1)
  {
    hide Holder, Lives, Insert;
    TakenStep(b, steps, r);
    LocksTellHistory(b, steps, r, steps[r].pr);
    Committed(b[r], steps[r].pr);
  }

  // ------------------------------------------------------ matches and wakes

  /** A task has found a match since the last restart. */
  ghost predicate Matched(steps: seq<Step>, k: nat, id: nat)
    requires k <= |steps|
  {
    exists m :: 0 <= m < k && steps[m] == Match(id) && forall j | m < j < k :: !steps[j].Restart?
  }

  lemma {:induction false} MatchesTellHistory(b: seq<Desk>, steps: seq<Step>, k: nat, id: nat)
    requires IsRun(b, steps) && k < |b|
    ensures id in b[k].matched <==> Matched(steps, k, id)
  {
    if k > 0 {
      MatchesTellHistory(b, steps, k - 1, id);
      assert b[k] == Apply(b[k - 1], steps[k - 1]);
      hide ActiveOn, OwnedBy, FirstAtHead, FirstOfOther, Admission;
      if steps[k - 1] == Match(id) {
        assert Matched(steps, k, id);
      }
    }
  }

  /** The wakes a step adds: the request it completes, if that was still active. */
  lemma WakesTold(b: seq<Desk>, steps: seq<Step>, k: nat)
    requires IsRun(b, steps) && k < |steps|
    ensures var step := steps[k];
            b[k + 1].wakes == if step.Complete? && step.id < |b[k].rows| && b[k].rows[step.id].state == Active then b[k].wakes + [step.id] else b[k].wakes
  {
    RunInv(b, steps, k);
    assert Enabled(b[k], steps[k]) && b[k + 1] == Apply(b[k], steps[k]);
    hide ActiveOn, OwnedBy, FirstAtHead, FirstOfOther, Admission, OneActive, WakesAgree, LocksAgree;
  }

  /** No row but this one differs. */
  predicate OnlyRow(s: Desk, t: Desk, id: nat) {
    |t.rows| == |s.rows| && forall i | 0 <= i < |s.rows| && i != id :: t.rows[i] == s.rows[i]
  }

  /** Cancelling a request that memory takes for active retires it in table and memory, touches no other row, and it never wakes anyone. */
  lemma CancelledForGood(b: seq<Desk>, steps: seq<Step>, m: nat, k: nat, id: nat)
    requires IsRun(b, steps) && m < k < |b| && steps[m] == Cancel(id) && id in b[m].memory && b[m].memory[id]
    ensures id < |b[m].rows| && OnlyRow(b[m], b[m + 1], id)
    ensures id < |b[k].rows| && b[k].rows[id].state == Cancelled && !b[k].rows[id].isActive && id !in b[k].wakes
    ensures id in b[m + 1].memory && !b[m + 1].memory[id]
  {
    RunInv(b, steps, m);
    RunInv(b, steps, m + 1);
    assert b[m + 1] == Apply(b[m], steps[m]);
    RunSettles(b, steps, m + 1, k);
    NoWakeAfterwards(b, steps, m + 1, k, id);
    hide OneActive, WakesAgree, LocksAgree;
  }

  /** A restart cancels exactly the active requests whose session is gone, and those never wake anyone. */
  lemma GoneForGood(b: seq<Desk>, steps: seq<Step>, m: nat, k: nat, id: nat)
    requires IsRun(b, steps) && m < k < |b| && steps[m].Restart? && id < |b[m].rows|
    ensures b[m].rows[id].isActive && id in steps[m].gone ==>
              && id < |b[k].rows| && b[k].rows[id].state == Cancelled && !b[k].rows[id].isActive && id !in b[k].wakes
              && id in b[m + 1].memory && !b[m + 1].memory[id]
    ensures !(b[m].rows[id].isActive && id in steps[m].gone) ==>
              && id < |b[m + 1].rows| && b[m + 1].rows[id] == b[m].rows[id]
              && id in b[m + 1].memory && b[m + 1].memory[id] == b[m].rows[id].isActive
  {
    RunInv(b, steps, m);
    RunInv(b, steps, m + 1);
    assert b[m + 1] == Apply(b[m], steps[m]);
    RunSettles(b, steps, m + 1, k);
    if b[m].rows[id].isActive && id in steps[m].gone {
      NoWakeAfterwards(b, steps, m + 1, k, id);
    }
    hide OneActive, WakesAgree, LocksAgree;
  }
}
