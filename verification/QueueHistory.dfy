/**
What the queue holds, told by the labels of a run alone: every job is as it
was asked for, and its state, stamps and notices are those of the labels that
named it.
*/
module QueueHistory {
  import opened Options
  import opened QueueModel
  import opened QueueRuns

  // -------------------------------------------------------------- creation

  function Creations(ls: seq<Label>): nat {
    if ls == [] then 0 else Creations(ls[..|ls| - 1]) + if ls[|ls| - 1].Create? then 1 else 0
  }

  /** Only a creation adds a job, and it adds one, last. */
  lemma {:induction false} JobsAreCreated(cfg: Config, b: seq<Runner>, ls: seq<Label>, k: nat)
    requires IsRun(cfg, b, ls) && k < |b|
    ensures |b[k].jobs| == |b[0].jobs| + Creations(ls[..k])
  {
    if k > 0 {
      JobsAreCreated(cfg, b, ls, k - 1);
      LabelFacts(cfg, b[k - 1], ls[k - 1]);
      assert ls[..k][..k - 1] == ls[..k - 1];
      hide NextAdmissible, DisplaceTarget;
    }
  }

  /**
  The job a creation makes has the type, the wish to be told and the stamp it
  was asked for with, in every later state.
  */
  lemma CreatedAsAsked(cfg: Config, b: seq<Runner>, ls: seq<Label>, m: nat, k: nat)
    requires IsRun(cfg, b, ls) && m < k < |b| && ls[m].Create?
    ensures var i := |b[m].jobs|;
            && i < |b[k].jobs|
            && b[k].jobs[i].kind == ls[m].kind && b[k].jobs[i].notify == ls[m].notify && b[k].jobs[i].queuedAt == ls[m].at
  {
    var i := |b[m].jobs|;
    assert Enabled(cfg, b[m], ls[m]) && b[m + 1] == Apply(cfg, b[m], ls[m]);
    assert b[m + 1].jobs[i].kind == ls[m].kind && b[m + 1].jobs[i].queuedAt == ls[m].at;
    hide Apply, Enabled;
    RunEvolves(cfg, b, ls, m + 1, k);
  }

  /** Of two jobs of one type, the one asked for at an earlier time starts while the other waits, never the other way round. */
  lemma StartsOldest(cfg: Config, b: seq<Runner>, ls: seq<Label>, m: nat, n: nat, k: nat)
    requires IsRun(cfg, b, ls) && m < k < |ls| && n < k && ls[m].Create? && ls[n].Create? && ls[m].kind == ls[n].kind
    requires ls[k].Start? && ls[k].job == |b[m].jobs|
    requires |b[n].jobs| < |b[k].jobs| ==> b[k].jobs[|b[n].jobs|].state == Pending
    ensures ls[m].at <= ls[n].at
    ensures ls[m].at == ls[n].at && (forall j | 0 <= j < k :: !ls[j].Reload?) && Placed(b[0].jobs) ==> m <= n
  {
    CreatedAsAsked(cfg, b, ls, m, k);
    CreatedAsAsked(cfg, b, ls, n, k);
    RunStartsFairly(cfg, b, ls, k);
    hide FairStart;
    FairFirst(cfg, b[k].jobs, ls[k].job, |b[n].jobs|, ls[k].free, ls[k].now);
    if (forall j | 0 <= j < k :: !ls[j].Reload?) && Placed(b[0].jobs) {
      PlacesHold(cfg, b, ls, k);
      if n < m {
        RunEvolves(cfg, b, ls, n + 1, m);
        assert Enabled(cfg, b[n], ls[n]) && b[n + 1] == Apply(cfg, b[n], ls[n]);
        assert |b[n].jobs| < |b[n + 1].jobs| <= |b[m].jobs|;
      }
    }
  }

  lemma FairFirst(cfg: Config, jobs: seq<Job>, i: nat, j: nat, free: Option<int>, now: int)
    requires FairStart(cfg, jobs, i, free, now) && j < |jobs| && jobs[j].state == Pending && jobs[j].kind == jobs[i].kind
    ensures jobs[i].queuedAt < jobs[j].queuedAt || (jobs[i].queuedAt == jobs[j].queuedAt && Listed(jobs, i, j))
  {
  }

  // ------------------------------------------------------ memory and displacement

  /** A start or a displacement is made on a reading of free memory no less than the least configured, if any is configured and there is a reading. */
  lemma MemoryWasFree(cfg: Config, b: seq<Runner>, ls: seq<Label>, k: nat)
    requires IsRun(cfg, b, ls) && k < |ls| && (ls[k].Start? || ls[k].Displace?)
    ensures cfg.minFree > 0 && ls[k].free.Some? ==> ls[k].free.value >= cfg.minFree
  {
    assert Enabled(cfg, b[k], ls[k]);
    hide FirstMin, OldestPending, OldestBackground, TypeGate, PerfBlocked, CooldownActive;
  }

  /**
  In every run from an empty queue a displacement ends a running background job
  that started no later than any other, for a perf job that waits with every
  slot taken, a perf slot free, no cooldown and no turn owed to tests.
  */
  lemma DisplacedIsOldest(cfg: Config, b: seq<Runner>, ls: seq<Label>, k: nat)
    requires IsRun(cfg, b, ls) && b[0].jobs == [] && k < |ls| && ls[k].Displace?
    ensures var jobs, i := b[k].jobs, ls[k].job;
            && i < |jobs| && jobs[i].kind == Background && jobs[i].state == Running && jobs[i].startedAt.Some?
            && (forall j | 0 <= j < |jobs| && jobs[j].kind == Background && jobs[j].state == Running ::
                  jobs[j].startedAt.Some? && jobs[i].startedAt.value <= jobs[j].startedAt.value)
            && (exists j :: 0 <= j < |jobs| && jobs[j].kind == Perf && jobs[j].state == Pending)
            && RunningCount(jobs) >= cfg.maxRunning && !Held(cfg, jobs, Perf, ls[k].now)
  {
    var jobs, i := b[k].jobs, ls[k].job;
    assert Enabled(cfg, b[k], ls[k]);
    var perf := OldestPending(jobs, Perf);
    assert perf.Some? && Waiting(jobs, Perf, perf.value);
    GateIsHeld(cfg, jobs, Perf, ls[k].now);
    hide FirstMin, PerfBlocked, CooldownActive, Held, Enabled;
    forall j | 0 <= j < |jobs| && jobs[j].state == Running ensures jobs[j].startedAt.Some? {
      JobsTellHistory(cfg, b, ls, k, j);
      hide IsRun;
    }
    hide IsRun;
    assert forall j | 0 <= j < |jobs| && jobs[j].kind == Background && jobs[j].state == Running :: Displaceable(jobs[j]);
  }

  // ---------------------------------------------------------------- places

  /** The dictionary lists the jobs in the order they were made. */
  predicate Placed(jobs: seq<Job>) {
    forall i, j | 0 <= i < j < |jobs| :: jobs[i].slot < jobs[j].slot
  }

  /** Without a restart the order of listing is the order of creation. */
  lemma {:induction false} PlacesHold(cfg: Config, b: seq<Runner>, ls: seq<Label>, k: nat)
    requires IsRun(cfg, b, ls) && k < |b| && Placed(b[0].jobs) && forall j | 0 <= j < k :: !ls[j].Reload?
    ensures Placed(b[k].jobs)
  {
    if k > 0 {
      PlacesHold(cfg, b, ls, k - 1);
      LabelFacts(cfg, b[k - 1], ls[k - 1]);
      hide NextAdmissible, DisplaceTarget;
    }
  }

  /** After a restart every job has the place its row had, and jobs made since come after all of them. */
  lemma {:induction false} PlacesAfterRestart(cfg: Config, b: seq<Runner>, ls: seq<Label>, m: nat, k: nat)
    requires IsRun(cfg, b, ls) && m < k < |b| && ls[m].Reload? && forall j | m < j < k :: !ls[j].Reload?
    ensures var n := |ls[m].slots|;
            && n == |b[m].jobs| <= |b[k].jobs|
            && (forall i | 0 <= i < n :: b[k].jobs[i].slot == ls[m].slots[i])
            && forall i, j | 0 <= i < j < |b[k].jobs| && n <= j :: b[k].jobs[i].slot < b[k].jobs[j].slot
    decreases k
  {
    assert Enabled(cfg, b[k - 1], ls[k - 1]) && b[k] == Apply(cfg, b[k - 1], ls[k - 1]);
    if m + 1 < k {
      PlacesAfterRestart(cfg, b, ls, m, k - 1);
      LabelFacts(cfg, b[k - 1], ls[k - 1]);
      hide NextAdmissible, DisplaceTarget;
    }
  }

  // ------------------------------------------------------- what the labels say

  ghost predicate StartedAt(ls: seq<Label>, k: nat, i: nat, m: int)
    requires k <= |ls|
  {
    0 <= m < k && ls[m].Start? && ls[m].job == i
  }

  ghost predicate EndedAt(ls: seq<Label>, k: nat, i: nat, m: int)
    requires k <= |ls|
  {
    0 <= m < k && (ls[m].Finish? || ls[m].Displace? || ls[m].CancelPending?) && ls[m].job == i
  }

  ghost predicate ToldAt(ls: seq<Label>, k: nat, i: nat, m: int)
    requires k <= |ls|
  {
    0 <= m < k && ls[m] == NotifyQueued(i)
  }

  function EndState(l: Label): JobState {
    match l
    case Finish(_, outcome, _) => outcome
    case Displace(_, _, _, _) => Displaced
    case _ => Cancelled
  }

  ghost predicate HasStarted(ls: seq<Label>, k: nat, i: nat)
    requires k <= |ls|
  {
    exists m :: StartedAt(ls, k, i, m)
  }

  ghost predicate HasEnded(ls: seq<Label>, k: nat, i: nat)
    requires k <= |ls|
  {
    exists m :: EndedAt(ls, k, i, m)
  }

  ghost predicate WasTold(ls: seq<Label>, k: nat, i: nat)
    requires k <= |ls|
  {
    exists m :: ToldAt(ls, k, i, m)
  }

  /** The job was told to be queued, and then started. */
  ghost predicate ToldThenStarted(ls: seq<Label>, k: nat, i: nat)
    requires k <= |ls|
  {
    exists m :: StartedAt(ls, k, i, m) && WasTold(ls, m, i)
  }

  ghost predicate Tells(ls: seq<Label>, k: nat, i: nat, j: Job)
    requires k <= |ls|
  {
    && (j.startedAt.Some? <==> HasStarted(ls, k, i))
    && (forall m | StartedAt(ls, k, i, m) :: j.startedAt == Some(ls[m].at))
    && (j.finishedAt.Some? <==> HasEnded(ls, k, i))
    && (forall m | EndedAt(ls, k, i, m) :: j.finishedAt == Some(ls[m].at) && j.state == EndState(ls[m]))
    && (j.state == Running <==> HasStarted(ls, k, i) && !HasEnded(ls, k, i))
    && (j.state == Pending <==> !HasStarted(ls, k, i) && !HasEnded(ls, k, i))
    && (j.queuedNotified <==> WasTold(ls, k, i))
    && (j.startedNotified <==> ToldThenStarted(ls, k, i))
    && (j.completionNotified <==> HasEnded(ls, k, i))
  }

  /**
  In every run from an empty queue a job's state, stamps and flags are those of
  the labels that named it: its start, its end and its queued notice.
  */
  lemma {:induction false} JobsTellHistory(cfg: Config, b: seq<Runner>, ls: seq<Label>, k: nat, i: nat)
    requires IsRun(cfg, b, ls) && b[0].jobs == [] && k < |b| && i < |b[k].jobs|
    ensures Tells(ls, k, i, b[k].jobs[i])
  {
    var s, l := b[k - 1], ls[k - 1];
    assert Enabled(cfg, s, l) && b[k] == Apply(cfg, s, l);
    hide Tells;
    HistoryGrows(ls, k, i);
    if i < |s.jobs| {
      JobsTellHistory(cfg, b, ls, k - 1, i);
      hide IsRun, HasStarted, HasEnded, WasTold, ToldThenStarted;
      JobStep(cfg, s, l, i);
      TellsNext(ls, k, i, s.jobs[i], b[k].jobs[i]);
    } else {
      FreshJob(cfg, s, l, i);
      Unnamed(cfg, b, ls, k, i);
      hide IsRun;
      TellsNothing(ls, k, i, b[k].jobs[i]);
    }
  }

  lemma HistoryGrows(ls: seq<Label>, k: nat, i: nat)
    requires 0 < k <= |ls|
    ensures var l := ls[k - 1];
            && (HasStarted(ls, k, i) <==> HasStarted(ls, k - 1, i) || (l.Start? && l.job == i))
            && (HasEnded(ls, k, i) <==> HasEnded(ls, k - 1, i) || EndedAt(ls, k, i, k - 1))
            && (WasTold(ls, k, i) <==> WasTold(ls, k - 1, i) || l == NotifyQueued(i))
            && (ToldThenStarted(ls, k, i) <==> ToldThenStarted(ls, k - 1, i) || (l.Start? && l.job == i && WasTold(ls, k - 1, i)))
  {
    var n, l := k - 1, ls[k - 1];
    if m :| StartedAt(ls, n, i, m) {
      assert StartedAt(ls, k, i, m);
    }
    if l.Start? && l.job == i {
      assert StartedAt(ls, k, i, n);
    }
    if m :| EndedAt(ls, n, i, m) {
      assert EndedAt(ls, k, i, m);
    }
    if m :| ToldAt(ls, n, i, m) {
      assert ToldAt(ls, k, i, m);
    }
    if l == NotifyQueued(i) {
      assert ToldAt(ls, k, i, n);
    }
    if m :| StartedAt(ls, k, i, m) {
      assert m < n ==> StartedAt(ls, n, i, m);
    }
    if m :| EndedAt(ls, k, i, m) {
      assert m < n ==> EndedAt(ls, n, i, m);
    }
    if m :| ToldAt(ls, k, i, m) {
      assert m < n ==> ToldAt(ls, n, i, m);
    }
    if m :| StartedAt(ls, n, i, m) && WasTold(ls, m, i) {
      assert StartedAt(ls, k, i, m);
    }
    if m :| StartedAt(ls, k, i, m) && WasTold(ls, m, i) {
      assert m < n ==> StartedAt(ls, n, i, m);
    }
  }

  /** One label and one job: what a label does to the job it names, and that it leaves every other. */
  predicate Touches(l: Label, i: nat, j: Job, j': Job) {
    match l
    case Start(x, _, _, at) =>
      if x == i then j.state == Pending && j' == j.(state := Running, startedAt := Some(at), startedNotified := j.queuedNotified || j.startedNotified)
      else j' == j
    case Displace(x, _, _, at) =>
      if x == i then j.state == Running && j' == j.(state := Displaced, finishedAt := Some(at), completionNotified := true) else j' == j
    case Finish(x, outcome, at) =>
      if x == i then j.state == Running && Terminal(outcome) && j' == j.(state := outcome, finishedAt := Some(at), completionNotified := true)
      else j' == j
    case CancelPending(x, at) =>
      if x == i then j.state == Pending && j' == j.(state := Cancelled, finishedAt := Some(at), completionNotified := true) else j' == j
    case NotifyQueued(x) => if x == i then j.state == Pending && j' == j.(queuedNotified := true) else j' == j
    case Reload(slots) => j' == j.(slot := j'.slot)
    case Create(_, _, _) => j' == j
  }

  lemma JobStep(cfg: Config, s: Runner, l: Label, i: nat)
    requires Enabled(cfg, s, l) && i < |s.jobs|
    ensures i < |Apply(cfg, s, l).jobs| && Touches(l, i, s.jobs[i], Apply(cfg, s, l).jobs[i])
  {
    LabelFacts(cfg, s, l);
    hide NextAdmissible, DisplaceTarget;
  }

  lemma FreshJob(cfg: Config, s: Runner, l: Label, i: nat)
    requires Enabled(cfg, s, l) && |s.jobs| <= i < |Apply(cfg, s, l).jobs|
    ensures i == |s.jobs| && l.Create?
    ensures var j := Apply(cfg, s, l).jobs[i];
            && j.state == Pending && j.startedAt.None? && j.finishedAt.None?
            && !j.queuedNotified && !j.startedNotified && !j.completionNotified
  {
    LabelFacts(cfg, s, l);
    hide NextAdmissible, DisplaceTarget;
  }

  /** No label of a run names a job that is not there yet. */
  lemma Unnamed(cfg: Config, b: seq<Runner>, ls: seq<Label>, k: nat, i: nat)
    requires IsRun(cfg, b, ls) && 0 < k < |b| && |b[k - 1].jobs| <= i && ls[k - 1].Create?
    ensures !HasStarted(ls, k, i) && !HasEnded(ls, k, i) && !WasTold(ls, k, i)
  {
    hide Apply;
    forall m | 0 <= m < k ensures (ls[m].Start? || ls[m].Displace? || ls[m].Finish? || ls[m].CancelPending? || ls[m].NotifyQueued?) ==> ls[m].job < i {
      assert Enabled(cfg, b[m], ls[m]);
      LabelFacts(cfg, b[m], ls[m]);
      RunEvolves(cfg, b, ls, m, k - 1);
    }
  }

  lemma TellsNothing(ls: seq<Label>, k: nat, i: nat, j: Job)
    requires k <= |ls| && !HasStarted(ls, k, i) && !HasEnded(ls, k, i) && !WasTold(ls, k, i)
    requires j.state == Pending && j.startedAt.None? && j.finishedAt.None?
    requires !j.queuedNotified && !j.startedNotified && !j.completionNotified
    ensures Tells(ls, k, i, j)
  {
    assert forall m :: !StartedAt(ls, k, i, m);
    assert forall m :: !EndedAt(ls, k, i, m);
  }

  lemma TellsNext(ls: seq<Label>, k: nat, i: nat, j: Job, j': Job)
    requires 0 < k <= |ls| && Tells(ls, k - 1, i, j) && Touches(ls[k - 1], i, j, j')
    requires var l := ls[k - 1];
             && (HasStarted(ls, k, i) <==> HasStarted(ls, k - 1, i) || (l.Start? && l.job == i))
             && (HasEnded(ls, k, i) <==> HasEnded(ls, k - 1, i) || EndedAt(ls, k, i, k - 1))
             && (WasTold(ls, k, i) <==> WasTold(ls, k - 1, i) || l == NotifyQueued(i))
             && (ToldThenStarted(ls, k, i) <==> ToldThenStarted(ls, k - 1, i) || (l.Start? && l.job == i && WasTold(ls, k - 1, i)))
    ensures Tells(ls, k, i, j')
  {
    hide WasTold, ToldThenStarted;
    var l := ls[k - 1];
    forall m | StartedAt(ls, k, i, m) ensures j'.startedAt == Some(ls[m].at) {
      if m < k - 1 {
        assert StartedAt(ls, k - 1, i, m);
      }
    }
    forall m | EndedAt(ls, k, i, m) ensures j'.finishedAt == Some(ls[m].at) && j'.state == EndState(ls[m]) {
      if m < k - 1 {
        assert EndedAt(ls, k - 1, i, m);
      }
    }
  }
}
