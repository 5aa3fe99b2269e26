/**
A run from an empty runner in which perf goes twice in a row: a tests job and
a perf job finish at one instant, the tests job is listed first, and another
of each waits.
*/
module QueueTie {
  import opened Options
  import opened QueueModel
  import opened QueueRuns

  /** Two jobs at a time, one of them perf, no cooldown and no memory gate. */
  const CFG := Config(2, 1, 2, 2, 0, 0)

  function Fresh(slot: nat, kind: JobType): Job {
    Job(slot, kind, Pending, 0, None, None, false, false, false, false)
  }

  function Going(j: Job): Job {
    j.(state := Running, startedAt := Some(0))
  }

  function Told(j: Job): Job {
    j.(queuedNotified := true)
  }

  function Over(j: Job): Job {
    j.(state := Succeeded, finishedAt := Some(1), completionNotified := true)
  }

  const T0 := Fresh(0, Tests)
  const P1 := Fresh(1, Perf)
  const P2 := Fresh(2, Perf)
  const T3 := Fresh(3, Tests)

  const LABELS: seq<Label> :=
    [Create(Tests, false, 0), Start(0, None, 0, 0),
     Create(Perf, false, 0), Start(1, None, 0, 0),
     Create(Perf, false, 0), NotifyQueued(2),
     Create(Tests, false, 0), NotifyQueued(3),
     Finish(0, Succeeded, 1), Finish(1, Succeeded, 1), Start(2, None, 1, 1)]

  const LAST := Told(P2).(state := Running, startedAt := Some(1), startedNotified := true)

  const RUN: seq<Runner> :=
    [Runner([], [], 0), Runner([T0], [], 0), Runner([Going(T0)], [], 0),
     Runner([Going(T0), P1], [], 0), Runner([Going(T0), Going(P1)], [], 0),
     Runner([Going(T0), Going(P1), P2], [], 0), Runner([Going(T0), Going(P1), Told(P2)], [], 0),
     Runner([Going(T0), Going(P1), Told(P2), T3], [], 0), Runner([Going(T0), Going(P1), Told(P2), Told(T3)], [], 0),
     Runner([Over(Going(T0)), Going(P1), Told(P2), Told(T3)], [], 1),
     Runner([Over(Going(T0)), Over(Going(P1)), Told(P2), Told(T3)], [], 1),
     Runner([Over(Going(T0)), Over(Going(P1)), LAST, Told(T3)], [], 1)]

  predicate Follows(s: Runner, l: Label, t: Runner) {
    Enabled(CFG, s, l) && t == Apply(CFG, s, l)
  }

  lemma Slots(jobs: seq<Job>)
    requires forall i | 0 <= i < |jobs| :: jobs[i].slot == i
    ensures NextSlot(jobs) == |jobs|
  {
    if jobs != [] {
      Slots(jobs[..|jobs| - 1]);
    }
  }

  lemma Creates(jobs: seq<Job>, kind: JobType, clock: int)
    requires clock <= 0 && forall i | 0 <= i < |jobs| :: jobs[i].slot == i
    ensures Follows(Runner(jobs, [], clock), Create(kind, false, 0), Runner(jobs + [Fresh(|jobs|, kind)], [], 0))
  {
    Slots(jobs);
  }

  lemma FirstStart()
    ensures Follows(RUN[1], LABELS[1], RUN[2])
  {
    var jobs := [T0];
    assert Having(jobs, Running) == {} && HavingOf(jobs, Running, Tests) == {};
    assert Waiting(jobs, Tests, 0);
    hide FirstMin;
    assert OldestPending(jobs, Perf).None? && OldestPending(jobs, Tests) == Some(0);
  }

  lemma SecondStart()
    ensures Follows(RUN[3], LABELS[3], RUN[4])
  {
    hide FirstMin;
    var jobs := [Going(T0), P1];
    assert Having(jobs, Running) == {0} && HavingOf(jobs, Running, Perf) == {};
    assert Waiting(jobs, Perf, 1);
    assert OldestPending(jobs, Perf) == Some(1);
    assert LatestFinished(jobs).None?;
  }

  lemma LastStart()
    ensures Follows(RUN[10], LABELS[10], RUN[11])
  {
    hide FirstMin;
    var jobs := [Over(Going(T0)), Over(Going(P1)), Told(P2), Told(T3)];
    assert Having(jobs, Running) == {} && HavingOf(jobs, Running, Perf) == {};
    assert Waiting(jobs, Perf, 2);
    assert OldestPending(jobs, Perf) == Some(2);
    assert Contended(jobs[0]) && Contended(jobs[1]);
    assert LatestFinished(jobs) == Some(0);
  }

  lemma Others()
    ensures forall k | k in {5, 7, 8, 9} :: Follows(RUN[k], LABELS[k], RUN[k + 1])
  {
    assert RUN[5].jobs[2 := Told(P2)] == RUN[6].jobs && RUN[7].jobs[3 := Told(T3)] == RUN[8].jobs;
    assert RUN[8].jobs[0 := Over(Going(T0))] == RUN[9].jobs && RUN[9].jobs[1 := Over(Going(P1))] == RUN[10].jobs;
  }

  lemma AllCreates()
    ensures forall k | k in {0, 2, 4, 6} :: Follows(RUN[k], LABELS[k], RUN[k + 1])
  {
    hide Follows;
    Creates(RUN[0].jobs, Tests, 0);
    Creates(RUN[2].jobs, Perf, 0);
    Creates(RUN[4].jobs, Perf, 0);
    Creates(RUN[6].jobs, Tests, 0);
    assert RUN[0].jobs + [T0] == RUN[1].jobs && RUN[2].jobs + [P1] == RUN[3].jobs;
    assert RUN[4].jobs + [P2] == RUN[5].jobs && RUN[6].jobs + [T3] == RUN[7].jobs;
  }

  /** The last perf start follows the perf ending of step 9 with a tests job waiting and none ended in between. */
  lemma TurnLostOnTie()
    ensures IsRun(CFG, RUN, LABELS) && RUN[0] == Runner([], [], 0)
    ensures EndsKind(RUN, LABELS, 9, Perf) && TestsActive(RUN[9].jobs) && !Wins(RUN[9].jobs, 1, 1)
    ensures LABELS[10].Start? && RUN[10].jobs[LABELS[10].job].kind == Perf
  {
    AllCreates();
    FirstStart();
    SecondStart();
    LastStart();
    Others();
    hide Enabled, Apply;
    assert |RUN| == 12 && |LABELS| == 11;
    forall k | 0 <= k < |LABELS|
      ensures Enabled(CFG, RUN[k], LABELS[k]) && RUN[k + 1] == Apply(CFG, RUN[k], LABELS[k])
    {
      assert k in {0, 2, 4, 6} || k in {5, 7, 8, 9} || k == 1 || k == 3 || k == 10;
      assert Follows(RUN[k], LABELS[k], RUN[k + 1]);
    }
    assert RUN[9].jobs[0].kind == Tests && RUN[9].jobs[0].finishedAt == Some(1);
    assert RUN[9].jobs[3].kind == Tests && !Terminal(RUN[9].jobs[3].state);
  }
}
