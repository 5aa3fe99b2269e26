/** The admission pass: what one holding of the scheduler lock does, iteration by iteration. */
module QueuePass {
  import opened Basics
  import opened Options
  import opened QueueModel
  import opened QueueRuns

  /**
  What one iteration reads: the displacement test, then the admission test, then
  the stamp.  `reheld` are the jobs whose displayed reason for waiting changes.
  */
  datatype Tick = Tick(freeD: Option<int>, nowD: int, freeA: Option<int>, nowA: int, at: int, reheld: seq<nat>)

  /** Readings never go back. */
  ghost predicate Forward(ticks: nat -> Tick) {
    forall n: nat :: ticks(n).nowD <= ticks(n).nowA <= ticks(n).at <= ticks(n + 1).nowD
  }

  /** Every reading of the memory gate in the pass has the same answer. */
  ghost predicate Steady(cfg: Config, ticks: nat -> Tick, pass: bool) {
    forall n: nat :: ShortOfMemory(cfg, ticks(n).freeD) != pass && ShortOfMemory(cfg, ticks(n).freeA) != pass
  }

  /** The change one iteration makes; none ends the loop. */
  function Choice(cfg: Config, s: Runner, t: Tick): Option<Label> {
    var target := DisplaceTarget(cfg, s.jobs, t.freeD, t.nowD);
    if target.Some? then Some(Displace(target.value, t.freeD, t.nowD, t.at))
    else
      var next := NextAdmissible(cfg, s.jobs, t.freeA, t.nowA);
      if next.Some? then Some(Start(next.value, t.freeA, t.nowA, t.at)) else None
  }

  lemma ChoiceEnabled(cfg: Config, s: Runner, t: Tick)
    requires s.clock <= t.nowD <= t.nowA <= t.at && Choice(cfg, s, t).Some?
    ensures Enabled(cfg, s, Choice(cfg, s, t).value)
    ensures var l := Choice(cfg, s, t).value;
            || (l.Start? && l.job < |s.jobs| && s.jobs[l.job].state == Pending)
            || (l.Displace? && l.now == t.nowD && l.job < |s.jobs| && Displaceable(s.jobs[l.job]))
  {
    hide FirstMin;
  }

  /** Each iteration that changes anything lowers 2 * pending + running by one. */
  lemma ChoiceLowersMeasure(cfg: Config, s: Runner, t: Tick)
    requires s.clock <= t.nowD <= t.nowA <= t.at && Choice(cfg, s, t).Some?
    ensures Enabled(cfg, s, Choice(cfg, s, t).value)
    ensures var l := Choice(cfg, s, t).value; Measure(Apply(cfg, s, l).jobs) == Measure(s.jobs) - 1
  {
    hide Choice, Measure;
    ChoiceEnabled(cfg, s, t);
    var l := Choice(cfg, s, t).value;
    hide NextAdmissible, DisplaceTarget;
    ForwardLowers(s.jobs, l.job, Apply(cfg, s, l).jobs[l.job]);
  }

  lemma ForwardLowers(jobs: seq<Job>, i: nat, j: Job)
    requires i < |jobs| && j.kind == jobs[i].kind
    requires (jobs[i].state == Pending && j.state == Running) || (jobs[i].state == Running && Terminal(j.state))
    ensures Measure(jobs[i := j]) == Measure(jobs) - 1
  {
    ReplaceJob(jobs, i, j);
    assert i in Having(jobs, jobs[i].state);
  }

  /** The changes of one pass, in order. */
  ghost function Pass(cfg: Config, s: Runner, ticks: nat -> Tick, n: nat): (ls: seq<Label>)
    requires Forward(ticks) && s.clock <= ticks(n).nowD
    ensures Runs(cfg, s, ls)
    decreases Measure(s.jobs)
  {
    var c := Choice(cfg, s, ticks(n));
    if c.None? then []
    else
      ChoiceLowersMeasure(cfg, s, ticks(n));
      [c.value] + Pass(cfg, Apply(cfg, s, c.value), ticks, n + 1)
  }

  /** The pass unfolded once. */
  lemma PassUnfolds(cfg: Config, s: Runner, ticks: nat -> Tick, n: nat)
    requires Forward(ticks) && s.clock <= ticks(n).nowD && Choice(cfg, s, ticks(n)).Some?
    ensures Enabled(cfg, s, Choice(cfg, s, ticks(n)).value)
    ensures var l := Choice(cfg, s, ticks(n)).value;
            var s' := Apply(cfg, s, l);
            var rest := Pass(cfg, s', ticks, n + 1);
            && s'.clock <= ticks(n + 1).nowD
            && Measure(s'.jobs) == Measure(s.jobs) - 1
            && Pass(cfg, s, ticks, n) == [l] + rest && ([l] + rest)[1..] == rest
            && After(cfg, s, [l] + rest) == After(cfg, s', rest)
  {
    ChoiceLowersMeasure(cfg, s, ticks(n));
  }

  /** A pass makes at most 2 * pending + running changes. */
  lemma {:induction false} PassIsShort(cfg: Config, s: Runner, ticks: nat -> Tick, n: nat)
    requires Forward(ticks) && s.clock <= ticks(n).nowD
    ensures |Pass(cfg, s, ticks, n)| <= Measure(s.jobs)
    decreases Measure(s.jobs)
  {
    hide Choice, Apply, Enabled, Measure, Runs, After;
    var c := Choice(cfg, s, ticks(n));
    if c.Some? {
      PassUnfolds(cfg, s, ticks, n);
      PassIsShort(cfg, Apply(cfg, s, c.value), ticks, n + 1);
    }
  }

  lemma {:induction false} PassStops(cfg: Config, s: Runner, ticks: nat -> Tick, n: nat)
    requires Forward(ticks) && s.clock <= ticks(n).nowD
    ensures var ls := Pass(cfg, s, ticks, n);
            Choice(cfg, After(cfg, s, ls), ticks(n + |ls|)).None?
    decreases Measure(s.jobs)
  {
    hide Choice, Apply, Enabled;
    var c := Choice(cfg, s, ticks(n));
    if c.Some? {
      PassUnfolds(cfg, s, ticks, n);
      PassStops(cfg, Apply(cfg, s, c.value), ticks, n + 1);
    }
  }

  /** When a pass ends, no pending job could start: the machine is full, short of memory, or its type is held. */
  lemma PassLeavesNothingStartable(cfg: Config, s: Runner, ticks: nat -> Tick, n: nat)
    requires Forward(ticks) && s.clock <= ticks(n).nowD
    ensures var ls := Pass(cfg, s, ticks, n);
            var t := ticks(n + |ls|);
            var jobs := After(cfg, s, ls).jobs;
            forall i | 0 <= i < |jobs| && jobs[i].state == Pending ::
              RunningCount(jobs) >= cfg.maxRunning || ShortOfMemory(cfg, t.freeA) || Held(cfg, jobs, jobs[i].kind, t.nowA)
  {
    hide *;
    PassStops(cfg, s, ticks, n);
    var ls := Pass(cfg, s, ticks, n);
    StoppedIsStarved(cfg, After(cfg, s, ls), ticks(n + |ls|));
  }

  lemma StoppedIsStarved(cfg: Config, s: Runner, t: Tick)
    requires Choice(cfg, s, t).None?
    ensures forall i | 0 <= i < |s.jobs| && s.jobs[i].state == Pending ::
              RunningCount(s.jobs) >= cfg.maxRunning || ShortOfMemory(cfg, t.freeA)
              || Held(cfg, s.jobs, s.jobs[i].kind, t.nowA)
  {
    NextIsFair(cfg, s.jobs, t.freeA, t.nowA);
  }

  // --------------------------------------------------------- displacement

  function NonBackground(jobs: seq<Job>): int {
    RunningCount(jobs) - RunningOf(jobs, Background)
  }

  /** A perf job waits and nothing but the total cap keeps it from starting. */
  predicate PerfReady(cfg: Config, jobs: seq<Job>, now: int) {
    OldestPending(jobs, Perf).Some? && TypeGate(cfg, jobs, Perf, now)
  }

  predicate StartsKind(jobs: seq<Job>, l: Label, kind: JobType) {
    l.Start? && l.job < |jobs| && jobs[l.job].kind == kind
  }

  predicate SameKinds(a: seq<Job>, b: seq<Job>) {
    |a| == |b| && forall i | 0 <= i < |a| :: a[i].kind == b[i].kind
  }

  lemma ChoiceKeepsKinds(cfg: Config, s: Runner, t: Tick)
    requires s.clock <= t.nowD <= t.nowA <= t.at && Choice(cfg, s, t).Some?
    ensures Enabled(cfg, s, Choice(cfg, s, t).value)
    ensures SameKinds(s.jobs, Apply(cfg, s, Choice(cfg, s, t).value).jobs)
  {
    ChoiceLowersMeasure(cfg, s, t);
  }

  lemma ChoiceEffects(cfg: Config, s: Runner, t: Tick)
    requires s.clock <= t.nowD <= t.nowA <= t.at && Choice(cfg, s, t).Some?
    ensures Enabled(cfg, s, Choice(cfg, s, t).value)
    ensures var l := Choice(cfg, s, t).value;
            && (l.Start? || (l.Displace? && l.now == t.nowD)) && l.job < |s.jobs|
            && (l.Start? ==> RunningOf(Apply(cfg, s, l).jobs, Perf) ==
                             RunningOf(s.jobs, Perf) + if StartsKind(s.jobs, l, Perf) then 1 else 0)
  {
    ChoiceEnabled(cfg, s, t);
    hide NextAdmissible, DisplaceTarget;
    var l := Choice(cfg, s, t).value;
    ReplaceJob(s.jobs, l.job, Apply(cfg, s, l).jobs[l.job]);
  }

  lemma CooldownWanes(cfg: Config, jobs: seq<Job>, now: int, later: int)
    requires now <= later && CooldownActive(cfg, jobs, later)
    ensures CooldownActive(cfg, jobs, now)
  {
  }

  /** Ending a background job leaves both perf gates, and the waiting perf job, as they were. */
  lemma DisplacementKeepsReady(cfg: Config, s: Runner, l: Label, later: int)
    requires Enabled(cfg, s, l) && l.Displace? && l.now <= later
    ensures var jobs := Apply(cfg, s, l).jobs;
            && s.jobs[l.job].kind == Background
            && PerfReady(cfg, jobs, later)
            && RunningCount(jobs) == RunningCount(s.jobs) - 1
            && RunningOf(jobs, Background) == RunningOf(s.jobs, Background) - 1
            && RunningOf(jobs, Perf) == RunningOf(s.jobs, Perf)
  {
    hide PerfReady, RunningOf, RunningCount, Enabled, Apply;
    DisplaceFacts(cfg, s, l);
    var jobs := Apply(cfg, s, l).jobs;
    ReplaceCounts(s.jobs, l.job, jobs[l.job]);
    ReadyStays(cfg, s.jobs, jobs, l.now, later);
  }

  lemma DisplaceFacts(cfg: Config, s: Runner, l: Label)
    requires Enabled(cfg, s, l) && l.Displace?
    ensures PerfReady(cfg, s.jobs, l.now) && l.job < |s.jobs| && s.jobs[l.job].kind == Background && s.jobs[l.job].state == Running
    ensures var jobs := Apply(cfg, s, l).jobs;
            |jobs| == |s.jobs| && jobs == s.jobs[l.job := jobs[l.job]] && jobs[l.job].kind == Background && jobs[l.job].state == Displaced
  {
    hide PerfBlocked, CooldownActive, OldestPending, FirstMin, RunningOf, RunningCount;
  }

  lemma ReadyStays(cfg: Config, a: seq<Job>, b: seq<Job>, now: int, later: int)
    requires SameContended(a, b) && PerfReady(cfg, a, now) && now <= later && RunningOf(b, Perf) == RunningOf(a, Perf)
    ensures PerfReady(cfg, b, later)
  {
    hide PerfBlocked;
    SameGates(cfg, a, b, later);
    if CooldownActive(cfg, a, later) {
      CooldownWanes(cfg, a, now, later);
    }
    hide CooldownActive;
    assert Waiting(b, Perf, OldestPending(a, Perf).value);
  }

  /** The jobs differ only in background jobs. */
  predicate SameContended(a: seq<Job>, b: seq<Job>) {
    |a| == |b| && forall i | 0 <= i < |a| :: a[i].kind == b[i].kind && (a[i].kind != Background ==> a[i] == b[i])
  }

  lemma SameGates(cfg: Config, a: seq<Job>, b: seq<Job>, now: int)
    requires SameContended(a, b)
    ensures CooldownActive(cfg, b, now) ==> CooldownActive(cfg, a, now)
    ensures PerfBlocked(b) ==> PerfBlocked(a)
  {
    if CooldownActive(cfg, b, now) {
      var i :| 0 <= i < |b| && Contended(b[i]) && now - b[i].finishedAt.value < cfg.cooldown;
      assert Contended(a[i]);
    }
    assert forall i | 0 <= i < |a| :: Contended(a[i]) <==> Contended(b[i]);
    if PerfBlocked(b) {
      var p := LatestFinished(b).value;
      assert Contended(a[p]);
      assert LatestFinished(a).value == p;
      var i :| 0 <= i < |b| && b[i].kind == Tests && !Terminal(b[i].state);
      assert a[i] == b[i];
    }
  }

  /** With a slot free, the perf job that is ready is what the iteration starts. */
  lemma ReadyPerfStarts(cfg: Config, s: Runner, t: Tick)
    requires t.nowD <= t.nowA && PerfReady(cfg, s.jobs, t.nowD) && !ShortOfMemory(cfg, t.freeA)
    requires RunningCount(s.jobs) < cfg.maxRunning
    ensures Choice(cfg, s, t).Some? && StartsKind(s.jobs, Choice(cfg, s, t).value, Perf)
  {
    if CooldownActive(cfg, s.jobs, t.nowA) {
      CooldownWanes(cfg, s.jobs, t.nowD, t.nowA);
    }
  }

  /** With no slot free, the iteration displaces if any background job runs, and otherwise ends the pass. */
  lemma FullChoice(cfg: Config, s: Runner, t: Tick)
    requires PerfReady(cfg, s.jobs, t.nowD) && !ShortOfMemory(cfg, t.freeD)
    requires RunningCount(s.jobs) >= cfg.maxRunning
    ensures var c := Choice(cfg, s, t);
            if OldestBackground(s.jobs).None? then c.None? else c.Some? && c.value.Displace? && c.value.now == t.nowD
  {
  }

  /**
  Exactly when displacing pays: from a state where a perf job is held only by
  the total cap, the pass starts a perf job if and only if the jobs that are
  not background leave room under the total cap.
  */
  lemma {:induction false} DisplacingPaysIff(cfg: Config, s: Runner, ticks: nat -> Tick, n: nat)
    requires Forward(ticks) && s.clock <= ticks(n).nowD && Steady(cfg, ticks, true)
    requires PerfReady(cfg, s.jobs, ticks(n).nowD)
    ensures StartsPerf(s.jobs, Pass(cfg, s, ticks, n)) <==> NonBackground(s.jobs) < cfg.maxRunning
    decreases Measure(s.jobs)
  {
    hide PerfReady, Choice, Enabled, Apply, RunningCount, RunningOf, After, Runs, StartsKind, SameKinds;
    var t := ticks(n);
    BackgroundsRun(s.jobs);
    if RunningCount(s.jobs) < cfg.maxRunning {
      ReadyPerfStarts(cfg, s, t);
      PassUnfolds(cfg, s, ticks, n);
      assert StartsKind(s.jobs, Pass(cfg, s, ticks, n)[0], Perf);
    } else if OldestBackground(s.jobs).Some? {
      FullChoice(cfg, s, t);
      var l := Choice(cfg, s, t).value;
      PassUnfolds(cfg, s, ticks, n);
      ChoiceKeepsKinds(cfg, s, t);
      var s' := Apply(cfg, s, l);
      DisplacementKeepsReady(cfg, s, l, ticks(n + 1).nowD);
      DisplacingPaysIff(cfg, s', ticks, n + 1);
      ConsStarts(s.jobs, s'.jobs, l, Pass(cfg, s', ticks, n + 1));
    } else {
      FullChoice(cfg, s, t);
    }
  }

  predicate StartsPerf(jobs: seq<Job>, ls: seq<Label>) {
    exists k :: 0 <= k < |ls| && StartsKind(jobs, ls[k], Perf)
  }

  lemma ConsStarts(jobs: seq<Job>, jobs': seq<Job>, l: Label, rest: seq<Label>)
    requires SameKinds(jobs, jobs') && !l.Start?
    ensures StartsPerf(jobs, [l] + rest) <==> StartsPerf(jobs', rest)
  {
    var ls := [l] + rest;
    if k :| 0 <= k < |rest| && StartsKind(jobs', rest[k], Perf) {
      assert StartsKind(jobs, ls[k + 1], Perf);
    }
    if k :| 0 <= k < |ls| && StartsKind(jobs, ls[k], Perf) {
      assert StartsKind(jobs', rest[k - 1], Perf);
    }
  }

  /** No running background job is found only if none is counted. */
  lemma BackgroundsRun(jobs: seq<Job>)
    ensures OldestBackground(jobs).None? ==> RunningOf(jobs, Background) == 0
    ensures RunningOf(jobs, Background) <= RunningCount(jobs)
  {
    SubsetSize(HavingOf(jobs, Running, Background), Having(jobs, Running));
    if OldestBackground(jobs).None? && HavingOf(jobs, Running, Background) != {} {
      assert false;
    }
  }

  /** Every displacement of the pass is of a background job and is followed at once by a perf start. */
  predicate NoneInVain(jobs: seq<Job>, ls: seq<Label>) {
    forall k | 0 <= k < |ls| && ls[k].Displace? ::
      && ls[k].job < |jobs| && jobs[ls[k].job].kind == Background
      && k + 1 < |ls| && StartsKind(jobs, ls[k + 1], Perf)
  }

  function Displacements(ls: seq<Label>): nat {
    if ls == [] then 0 else (if ls[0].Displace? then 1 else 0) + Displacements(ls[1..])
  }

  lemma ConsInVain(jobs: seq<Job>, jobs': seq<Job>, l: Label, rest: seq<Label>)
    requires SameKinds(jobs, jobs') && NoneInVain(jobs', rest)
    requires l.Displace? ==> l.job < |jobs| && jobs[l.job].kind == Background
    requires l.Displace? ==> rest != [] && StartsKind(jobs', rest[0], Perf)
    ensures NoneInVain(jobs, [l] + rest)
  {
    var ls := [l] + rest;
    assert forall k | 0 < k < |ls| :: ls[k] == rest[k - 1];
  }

  /** Within caps, the iteration after a displacement starts a perf job. */
  lemma DisplacementPairs(cfg: Config, s: Runner, ticks: nat -> Tick, n: nat, pass: bool)
    requires Forward(ticks) && s.clock <= ticks(n).nowD && Steady(cfg, ticks, pass) && WithinCaps(cfg, s)
    requires Choice(cfg, s, ticks(n)).Some? && Choice(cfg, s, ticks(n)).value.Displace?
    ensures Enabled(cfg, s, Choice(cfg, s, ticks(n)).value)
    ensures var l := Choice(cfg, s, ticks(n)).value;
            var s' := Apply(cfg, s, l);
            && l.job < |s.jobs| && s.jobs[l.job].kind == Background
            && RunningOf(s'.jobs, Perf) == RunningOf(s.jobs, Perf)
            && Choice(cfg, s', ticks(n + 1)).Some?
            && StartsKind(s'.jobs, Choice(cfg, s', ticks(n + 1)).value, Perf)
  {
    var l := Choice(cfg, s, ticks(n)).value;
    DisplacementKeepsReady(cfg, s, l, ticks(n + 1).nowD);
    ReadyPerfStarts(cfg, Apply(cfg, s, l), ticks(n + 1));
  }

  /** Starting within its caps, a pass never displaces in vain and displaces at most one job per free perf slot. */
  lemma {:induction false} PassDisplacesForPerf(cfg: Config, s: Runner, ticks: nat -> Tick, n: nat, pass: bool)
    requires Forward(ticks) && s.clock <= ticks(n).nowD && Steady(cfg, ticks, pass) && WithinCaps(cfg, s)
    ensures NoneInVain(s.jobs, Pass(cfg, s, ticks, n))
    ensures Displacements(Pass(cfg, s, ticks, n)) <= cfg.perfCap - RunningOf(s.jobs, Perf)
    decreases Measure(s.jobs)
  {
    hide Choice, Enabled, Apply, RunningOf, RunningCount, After, Runs;
    var t := ticks(n);
    var c := Choice(cfg, s, t);
    if c.Some? {
      var l := c.value;
      PassUnfolds(cfg, s, ticks, n);
      ChoiceKeepsKinds(cfg, s, t);
      ChoiceEffects(cfg, s, t);
      StepCaps(cfg, s, l);
      var s' := Apply(cfg, s, l);
      PassDisplacesForPerf(cfg, s', ticks, n + 1, pass);
      var rest := Pass(cfg, s', ticks, n + 1);
      if l.Displace? {
        DisplacementPairs(cfg, s, ticks, n, pass);
        PassUnfolds(cfg, s', ticks, n + 1);
        PairStep(cfg, s', ticks, n + 1, pass);
      }
      ConsInVain(s.jobs, s'.jobs, l, rest);
    }
  }

  /** When the pass opens with a perf start, that start uses one of the free perf slots. */
  lemma {:induction false} PairStep(cfg: Config, s: Runner, ticks: nat -> Tick, n: nat, pass: bool)
    requires Forward(ticks) && s.clock <= ticks(n).nowD && Steady(cfg, ticks, pass) && WithinCaps(cfg, s)
    requires Choice(cfg, s, ticks(n)).Some? && StartsKind(s.jobs, Choice(cfg, s, ticks(n)).value, Perf)
    ensures Displacements(Pass(cfg, s, ticks, n)) < cfg.perfCap - RunningOf(s.jobs, Perf)
    decreases Measure(s.jobs), 0
  {
    hide Choice, Enabled, Apply;
    var l := Choice(cfg, s, ticks(n)).value;
    PassUnfolds(cfg, s, ticks, n);
    StepCaps(cfg, s, l);
    var s' := Apply(cfg, s, l);
    ChoiceEffects(cfg, s, ticks(n));
    PassDisplacesForPerf(cfg, s', ticks, n + 1, pass);
    assert Pass(cfg, s, ticks, n)[1..] == Pass(cfg, s', ticks, n + 1);
  }
}
