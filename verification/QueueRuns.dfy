/** What holds over every run of the queue runner, restarts between steps included. */
module QueueRuns {
  import opened Options
  import opened QueueModel

  // ------------------------------------------------------------ lifecycle

  /** How a job may differ later in the same run. */
  predicate Advances(a: Job, b: Job) {
    && a.kind == b.kind && a.queuedAt == b.queuedAt && a.notify == b.notify
    && (a.state == Running ==> b.state != Pending)
    && (Terminal(a.state) ==> b == a.(slot := b.slot))
    && (a.queuedNotified ==> b.queuedNotified)
    && (a.startedNotified ==> b.startedNotified)
    && (a.completionNotified ==> b.completionNotified)
    && (a.state != Pending ==> b.queuedNotified == a.queuedNotified)
  }

  predicate Evolves(s: Runner, t: Runner) {
    && |s.jobs| <= |t.jobs|
    && s.outbox <= t.outbox
    && s.clock <= t.clock
    && forall i | 0 <= i < |s.jobs| :: Advances(s.jobs[i], t.jobs[i])
  }

  lemma StepEvolves(cfg: Config, s: Runner, l: Label)
    requires Enabled(cfg, s, l)
    ensures Evolves(s, Apply(cfg, s, l))
  {
    LabelFacts(cfg, s, l);
    hide NextAdmissible, DisplaceTarget;
  }

  lemma EvolvesTrans(r: Runner, s: Runner, t: Runner)
    requires Evolves(r, s) && Evolves(s, t)
    ensures Evolves(r, t)
  {
    forall i | 0 <= i < |r.jobs|
      ensures Advances(r.jobs[i], t.jobs[i])
    {
      assert Advances(r.jobs[i], s.jobs[i]) && Advances(s.jobs[i], t.jobs[i]);
    }
  }

  /** Job lifecycle: states only move forward and a terminal job never changes again. */
  lemma {:induction false} RunEvolves(cfg: Config, b: seq<Runner>, ls: seq<Label>, m: nat, k: nat)
    requires IsRun(cfg, b, ls) && m <= k < |b|
    ensures Evolves(b[m], b[k])
    decreases k - m
  {
    hide Enabled, Apply;
    if m < k {
      RunEvolves(cfg, b, ls, m, k - 1);
      StepEvolves(cfg, b[k - 1], ls[k - 1]);
      EvolvesTrans(b[m], b[k - 1], b[k]);
    }
  }

  /** The only moves a job's state can make in one step. */
  predicate Moves(a: JobState, b: JobState) {
    || a == b
    || (a == Pending && (b == Running || b == Cancelled))
    || (a == Running && Terminal(b))
  }

  /** At every step of a run a job stays, starts, is cancelled while pending, or ends while running. */
  lemma RunMoves(cfg: Config, b: seq<Runner>, ls: seq<Label>, k: nat, i: nat)
    requires IsRun(cfg, b, ls) && k < |ls| && i < |b[k].jobs|
    ensures i < |b[k + 1].jobs| && Moves(b[k].jobs[i].state, b[k + 1].jobs[i].state)
  {
    assert Enabled(cfg, b[k], ls[k]);
    LabelFacts(cfg, b[k], ls[k]);
    hide NextAdmissible, DisplaceTarget;
  }

  // -------------------------------------------------------------- notices

  predicate DistinctNotices(outbox: seq<Notice>) {
    forall p, q | 0 <= p < q < |outbox| :: outbox[p] != outbox[q]
  }

  predicate Before(outbox: seq<Notice>, first: Notice, second: Notice) {
    forall p, q | 0 <= p < |outbox| && 0 <= q < |outbox| && outbox[p] == first && outbox[q] == second :: p < q
  }

  /** The promise to the notified session about one job. */
  predicate NoticesInOrder(outbox: seq<Notice>, i: nat) {
    && Before(outbox, QueuedNotice(i), StartedNotice(i))
    && Before(outbox, QueuedNotice(i), CompletedNotice(i))
    && Before(outbox, StartedNotice(i), CompletedNotice(i))
    && (StartedNotice(i) in outbox ==> QueuedNotice(i) in outbox)
  }

  /** The outbox and the notification stamps agree. */
  ghost predicate StampsAgree(s: Runner) {
    && DistinctNotices(s.outbox)
    && (forall i: nat :: NoticesInOrder(s.outbox, i))
    && (forall n | n in s.outbox :: n.job < |s.jobs|)
    && (forall i | 0 <= i < |s.jobs| :: JobStamps(s.outbox, i, s.jobs[i]))
  }

  predicate JobStamps(outbox: seq<Notice>, i: nat, j: Job) {
    && (QueuedNotice(i) in outbox <==> j.queuedNotified && j.notify)
    && (StartedNotice(i) in outbox <==> j.startedNotified && j.notify)
    && (CompletedNotice(i) in outbox <==> j.completionNotified && j.notify)
    && (j.startedNotified ==> j.queuedNotified && j.state != Pending)
    && (j.completionNotified <==> Terminal(j.state))
  }

  lemma AppendNotice(outbox: seq<Notice>, n: Notice)
    requires DistinctNotices(outbox) && n !in outbox
    requires forall i: nat :: NoticesInOrder(outbox, i)
    requires n.QueuedNotice? ==> StartedNotice(n.job) !in outbox
    requires n.StartedNotice? ==> QueuedNotice(n.job) in outbox
    requires !n.CompletedNotice? ==> CompletedNotice(n.job) !in outbox
    ensures DistinctNotices(outbox + [n])
    ensures forall i: nat :: NoticesInOrder(outbox + [n], i)
  {
    forall i: nat
      ensures NoticesInOrder(outbox + [n], i)
    {
      assert NoticesInOrder(outbox, i);
      assert forall m :: m in outbox + [n] <==> m in outbox || m == n;
    }
  }

  /** Changing job `i` and telling its session one thing, as every step that tells does. */
  lemma TellAbout(s: Runner, i: nat, j: Job, send: bool, n: Notice, clock: int)
    requires StampsAgree(s) && i < |s.jobs| && n.job == i && j.notify == s.jobs[i].notify
    requires send ==> n !in s.outbox
    requires send && n.QueuedNotice? ==> StartedNotice(i) !in s.outbox
    requires send && n.StartedNotice? ==> QueuedNotice(i) in s.outbox
    requires send && !n.CompletedNotice? ==> CompletedNotice(i) !in s.outbox
    requires JobStamps(Announce(s.outbox, send, n), i, j)
    ensures StampsAgree(Runner(s.jobs[i := j], Announce(s.outbox, send, n), clock))
  {
    var outbox := Announce(s.outbox, send, n);
    assert forall m :: m in outbox <==> m in s.outbox || (send && m == n);
    if send {
      AppendNotice(s.outbox, n);
    }
    var jobs := s.jobs[i := j];
    forall k | 0 <= k < |jobs|
      ensures JobStamps(outbox, k, jobs[k])
    {
      assert JobStamps(s.outbox, k, s.jobs[k]);
    }
  }

  lemma StepStamps(cfg: Config, s: Runner, l: Label)
    requires Enabled(cfg, s, l) && StampsAgree(s)
    ensures StampsAgree(Apply(cfg, s, l))
  {
    LabelFacts(cfg, s, l);
    hide NextAdmissible, DisplaceTarget;
    match l
    case Create(kind, notify, at) =>
    case Reload(_) =>
    case Start(i, _, _, at) =>
      var j := s.jobs[i];
      assert JobStamps(s.outbox, i, j);
      var tell := j.queuedNotified && !j.startedNotified;
      TellAbout(s, i, Apply(cfg, s, l).jobs[i], tell && j.notify, StartedNotice(i), at);
    case NotifyQueued(i) =>
      var j := s.jobs[i];
      assert JobStamps(s.outbox, i, j);
      TellAbout(s, i, j.(queuedNotified := true), j.notify, QueuedNotice(i), s.clock);
    case Displace(i, _, _, at) => EndStamps(s, i, Displaced, at);
    case Finish(i, outcome, at) => EndStamps(s, i, outcome, at);
    case CancelPending(i, at) => EndStamps(s, i, Cancelled, at);
  }

  lemma EndStamps(s: Runner, i: nat, outcome: JobState, at: int)
    requires StampsAgree(s) && i < |s.jobs| && !Terminal(s.jobs[i].state) && Terminal(outcome)
    ensures StampsAgree(FinishJob(s, i, outcome, at))
  {
    var j := s.jobs[i];
    assert JobStamps(s.outbox, i, j);
    TellAbout(s, i, j.(state := outcome, finishedAt := Some(at), completionNotified := true),
              !j.completionNotified && j.notify, CompletedNotice(i), at);
  }

  /** Notices are each sent at most once, in order, and a started notice only after a queued one. */
  lemma {:induction false} RunNotices(cfg: Config, b: seq<Runner>, ls: seq<Label>, k: nat)
    requires IsRun(cfg, b, ls) && StampsAgree(b[0]) && k < |b|
    ensures StampsAgree(b[k])
  {
    if k > 0 {
      RunNotices(cfg, b, ls, k - 1);
      StepStamps(cfg, b[k - 1], ls[k - 1]);
    }
  }

  // ----------------------------------------------------------------- caps

  predicate WithinCaps(cfg: Config, s: Runner) {
    && RunningCount(s.jobs) <= cfg.maxRunning
    && forall kind :: RunningOf(s.jobs, kind) <= cfg.Cap(kind)
  }

  lemma StepCaps(cfg: Config, s: Runner, l: Label)
    requires Enabled(cfg, s, l) && WithinCaps(cfg, s)
    ensures WithinCaps(cfg, Apply(cfg, s, l))
  {
    LabelFacts(cfg, s, l);
    hide NextAdmissible, DisplaceTarget, RunningCount, RunningOf;
    var t := Apply(cfg, s, l);
    match l
    case Create(kind, notify, at) =>
      AppendPending(s.jobs, NewJob(s.jobs, kind, notify, at));
    case Start(i, _, _, _) => ReplaceCounts(s.jobs, i, t.jobs[i]);
    case Displace(i, _, _, _) => ReplaceCounts(s.jobs, i, t.jobs[i]);
    case Finish(i, _, _) => ReplaceCounts(s.jobs, i, t.jobs[i]);
    case CancelPending(i, _) => ReplaceCounts(s.jobs, i, t.jobs[i]);
    case NotifyQueued(i) => ReplaceCounts(s.jobs, i, t.jobs[i]);
    case Reload(slots) => RelistCounts(s.jobs, slots);
  }

  /** Once within its caps, the runner stays within them for ever. */
  lemma {:induction false} RunCaps(cfg: Config, b: seq<Runner>, ls: seq<Label>, k: nat)
    requires IsRun(cfg, b, ls) && WithinCaps(cfg, b[0]) && k < |b|
    ensures WithinCaps(cfg, b[k])
  {
    if k > 0 {
      RunCaps(cfg, b, ls, k - 1);
      StepCaps(cfg, b[k - 1], ls[k - 1]);
    }
  }

  // ------------------------------------------------------ priority, order

  function Rank(kind: JobType): nat {
    match kind case Perf => 0 case Tests => 1 case Background => 2
  }

  /** Tests are owed the next turn: the last perf or tests job to finish was a perf job. */
  predicate TestsOwed(jobs: seq<Job>) {
    && TestsActive(jobs)
    && exists p | 0 <= p < |jobs| ::
         && jobs[p].kind == Perf && jobs[p].finishedAt.Some?
         && forall q | 0 <= q < |jobs| && Contended(jobs[q]) ::
              jobs[q].finishedAt.value < jobs[p].finishedAt.value
              || (jobs[q].finishedAt == jobs[p].finishedAt && Listed(jobs, p, q))
  }

  lemma BlockedIsTestsOwed(jobs: seq<Job>)
    ensures PerfBlocked(jobs) <==> TestsOwed(jobs)
  {
    hide FirstMin;
    var latest := LatestFinished(jobs);
    if TestsOwed(jobs) {
      var p :| 0 <= p < |jobs| && jobs[p].kind == Perf && jobs[p].finishedAt.Some?
               && forall q | 0 <= q < |jobs| && Contended(jobs[q]) ::
                    jobs[q].finishedAt.value < jobs[p].finishedAt.value
                    || (jobs[q].finishedAt == jobs[p].finishedAt && Listed(jobs, p, q));
      assert Contended(jobs[p]);
      assert latest.value == p;
    }
  }

  /** The reading of free memory is below the least configured; no reading never is. */
  predicate ShortOfMemory(cfg: Config, free: Option<int>) {
    cfg.minFree > 0 && free.Some? && free.value < cfg.minFree
  }

  lemma MemoryGate(cfg: Config, free: Option<int>)
    ensures MemoryPasses(cfg, free) <==> !ShortOfMemory(cfg, free)
  {
  }

  /** A perf or tests job finished less than the cooldown ago. */
  predicate CoolingDown(cfg: Config, jobs: seq<Job>, now: int) {
    exists i | 0 <= i < |jobs| ::
      (jobs[i].kind == Perf || jobs[i].kind == Tests) && jobs[i].finishedAt.Some? && now - jobs[i].finishedAt.value < cfg.cooldown
  }

  lemma CooldownGate(cfg: Config, jobs: seq<Job>, now: int)
    ensures CooldownActive(cfg, jobs, now) <==> CoolingDown(cfg, jobs, now)
  {
    if i :| 0 <= i < |jobs| && (jobs[i].kind == Perf || jobs[i].kind == Tests) && jobs[i].finishedAt.Some? && now - jobs[i].finishedAt.value < cfg.cooldown {
      assert Contended(jobs[i]);
    }
  }

  /** A type is held back by its own cap, by the perf cooldown, or by the tests' turn. */
  predicate Held(cfg: Config, jobs: seq<Job>, kind: JobType, now: int) {
    match kind
    case Perf => RunningOf(jobs, Perf) >= cfg.perfCap || CoolingDown(cfg, jobs, now) || TestsOwed(jobs)
    case Tests => RunningOf(jobs, Tests) >= cfg.testsCap
    case Background => RunningOf(jobs, Background) >= cfg.backgroundCap
  }

  lemma GateIsHeld(cfg: Config, jobs: seq<Job>, kind: JobType, now: int)
    ensures TypeGate(cfg, jobs, kind, now) <==> !Held(cfg, jobs, kind, now)
  {
    BlockedIsTestsOwed(jobs);
    CooldownGate(cfg, jobs, now);
    hide CooldownActive, CoolingDown, PerfBlocked, TestsOwed;
  }

  /** Job `i` is a job the policy allows to start now. */
  predicate FairStart(cfg: Config, jobs: seq<Job>, i: nat, free: Option<int>, now: int) {
    && i < |jobs| && jobs[i].state == Pending
    && RunningCount(jobs) < cfg.maxRunning
    && !ShortOfMemory(cfg, free)
    && !Held(cfg, jobs, jobs[i].kind, now)
    && (forall j | 0 <= j < |jobs| && jobs[j].state == Pending && jobs[j].kind == jobs[i].kind ::
          jobs[i].queuedAt < jobs[j].queuedAt || (jobs[i].queuedAt == jobs[j].queuedAt && Listed(jobs, i, j)))
    && (forall j | 0 <= j < |jobs| && jobs[j].state == Pending && Rank(jobs[j].kind) < Rank(jobs[i].kind) ::
          Held(cfg, jobs, jobs[j].kind, now))
  }

  /**
  The scan picks a job exactly when a fair start exists, and what it picks is
  one: oldest of its type, every more urgent type held.
  */
  lemma NextIsFair(cfg: Config, jobs: seq<Job>, free: Option<int>, now: int)
    ensures var r := NextAdmissible(cfg, jobs, free, now);
            r.Some? ==> FairStart(cfg, jobs, r.value, free, now)
    ensures var r := NextAdmissible(cfg, jobs, free, now);
            r.None? ==> forall i | 0 <= i < |jobs| && jobs[i].state == Pending ::
              RunningCount(jobs) >= cfg.maxRunning || ShortOfMemory(cfg, free) || Held(cfg, jobs, jobs[i].kind, now)
  {
    MemoryGate(cfg, free);
    hide TypeGate, Held, OldestPending;
    forall kind
      ensures TypeGate(cfg, jobs, kind, now) <==> !Held(cfg, jobs, kind, now)
    {
      GateIsHeld(cfg, jobs, kind, now);
    }
    forall i | 0 <= i < |jobs| && jobs[i].state == Pending
      ensures Waiting(jobs, jobs[i].kind, i)
    {
    }
  }

  /** Over every run, a job starts only in its turn. */
  lemma RunStartsFairly(cfg: Config, b: seq<Runner>, ls: seq<Label>, k: nat)
    requires IsRun(cfg, b, ls) && k < |ls| && ls[k].Start?
    ensures FairStart(cfg, b[k].jobs, ls[k].job, ls[k].free, ls[k].now)
  {
    assert Enabled(cfg, b[k], ls[k]);
    NextIsFair(cfg, b[k].jobs, ls[k].free, ls[k].now);
  }

  // --------------------------------------------------- perf/tests turns

  predicate FinishedInPast(s: Runner) {
    forall i | 0 <= i < |s.jobs| ::
      && (s.jobs[i].finishedAt.Some? <==> Terminal(s.jobs[i].state))
      && (s.jobs[i].finishedAt.Some? ==> s.jobs[i].finishedAt.value <= s.clock)
  }

  lemma {:induction false} RunFinishedInPast(cfg: Config, b: seq<Runner>, ls: seq<Label>, k: nat)
    requires IsRun(cfg, b, ls) && FinishedInPast(b[0]) && k < |b|
    ensures FinishedInPast(b[k])
  {
    if k > 0 {
      RunFinishedInPast(cfg, b, ls, k - 1);
      LabelFacts(cfg, b[k - 1], ls[k - 1]);
      hide NextAdmissible, DisplaceTarget;
    }
  }

  /** Label `k` of the run brings a job of this type to a terminal state. */
  ghost predicate EndsKind(b: seq<Runner>, ls: seq<Label>, k: int, kind: JobType)
    requires |b| == |ls| + 1
  {
    0 <= k < |ls| && Ends(ls[k]).Some? && Ends(ls[k]).value < |b[k].jobs| && b[k].jobs[Ends(ls[k]).value].kind == kind
  }

  /** Some perf job finished strictly after every tests job that has finished. */
  predicate PerfFinishedLast(jobs: seq<Job>) {
    exists p | 0 <= p < |jobs| ::
      && jobs[p].kind == Perf && jobs[p].finishedAt.Some?
      && forall q | 0 <= q < |jobs| && jobs[q].kind == Tests && jobs[q].finishedAt.Some? ::
           jobs[q].finishedAt.value < jobs[p].finishedAt.value
  }

  lemma LastPerfBlocks(jobs: seq<Job>)
    requires PerfFinishedLast(jobs) && TestsActive(jobs)
    ensures PerfBlocked(jobs)
  {
    var p :| 0 <= p < |jobs| && jobs[p].kind == Perf && jobs[p].finishedAt.Some?
             && forall q | 0 <= q < |jobs| && jobs[q].kind == Tests && jobs[q].finishedAt.Some? ::
                  jobs[q].finishedAt.value < jobs[p].finishedAt.value;
    assert Contended(jobs[p]);
  }

  /** A job that is finished after a step that did not end it was already finished, with that stamp. */
  lemma StampIsOld(cfg: Config, s: Runner, l: Label, q: nat)
    requires Enabled(cfg, s, l) && q < |Apply(cfg, s, l).jobs| && Apply(cfg, s, l).jobs[q].finishedAt.Some?
    requires Ends(l) != Some(q)
    ensures q < |s.jobs| && s.jobs[q].finishedAt == Apply(cfg, s, l).jobs[q].finishedAt
    ensures s.jobs[q].kind == Apply(cfg, s, l).jobs[q].kind
  {
    LabelFacts(cfg, s, l);
    hide NextAdmissible, DisplaceTarget;
  }

  /** A step that ends no tests job keeps the tests' turn. */
  lemma StepKeepsTurn(cfg: Config, s: Runner, l: Label)
    requires Enabled(cfg, s, l) && FinishedInPast(s)
    requires PerfFinishedLast(s.jobs) && TestsActive(s.jobs)
    requires Ends(l).Some? ==> Ends(l).value < |s.jobs| && s.jobs[Ends(l).value].kind != Tests
    ensures var t := Apply(cfg, s, l); PerfFinishedLast(t.jobs) && TestsActive(t.jobs)
  {
    hide Apply, Enabled;
    var t := Apply(cfg, s, l);
    StepEvolves(cfg, s, l);
    var a :| 0 <= a < |s.jobs| && s.jobs[a].kind == Tests && !Terminal(s.jobs[a].state);
    StaysActive(cfg, s, l, a);
    var p :| 0 <= p < |s.jobs| && s.jobs[p].kind == Perf && s.jobs[p].finishedAt.Some?
             && forall q | 0 <= q < |s.jobs| && s.jobs[q].kind == Tests && s.jobs[q].finishedAt.Some? ::
                  s.jobs[q].finishedAt.value < s.jobs[p].finishedAt.value;
    assert Terminal(s.jobs[p].state) && Advances(s.jobs[p], t.jobs[p]);
    hide FinishedInPast;
    forall q | 0 <= q < |t.jobs| && t.jobs[q].kind == Tests && t.jobs[q].finishedAt.Some?
      ensures t.jobs[q].finishedAt.value < t.jobs[p].finishedAt.value
    {
      assert q < |s.jobs| ==> Advances(s.jobs[q], t.jobs[q]);
      StampIsOld(cfg, s, l, q);
    }
  }

  lemma StaysActive(cfg: Config, s: Runner, l: Label, a: nat)
    requires Enabled(cfg, s, l) && a < |s.jobs| && !Terminal(s.jobs[a].state) && Ends(l) != Some(a)
    ensures a < |Apply(cfg, s, l).jobs| && !Terminal(Apply(cfg, s, l).jobs[a].state)
    ensures Apply(cfg, s, l).jobs[a].kind == s.jobs[a].kind
  {
    LabelFacts(cfg, s, l);
    hide NextAdmissible, DisplaceTarget;
  }

  /** This perf job finished last: later than every other perf or tests job, or first listed of those that finished with it. */
  predicate Leads(jobs: seq<Job>, p: nat) {
    && p < |jobs| && jobs[p].kind == Perf && jobs[p].finishedAt.Some?
    && forall q | 0 <= q < |jobs| && Contended(jobs[q]) ::
         jobs[q].finishedAt.value < jobs[p].finishedAt.value || (jobs[q].finishedAt == jobs[p].finishedAt && Listed(jobs, p, q))
  }

  lemma LeadsIsOwed(jobs: seq<Job>)
    ensures TestsOwed(jobs) <==> TestsActive(jobs) && exists p: nat :: Leads(jobs, p)
  {
    if p: nat :| Leads(jobs, p) {
      assert TestsActive(jobs) ==> TestsOwed(jobs);
    }
    if TestsOwed(jobs) {
      var p :| 0 <= p < |jobs| && jobs[p].kind == Perf && jobs[p].finishedAt.Some?
               && forall q | 0 <= q < |jobs| && Contended(jobs[q]) ::
                    jobs[q].finishedAt.value < jobs[p].finishedAt.value
                    || (jobs[q].finishedAt == jobs[p].finishedAt && Listed(jobs, p, q));
      assert Leads(jobs, p);
    }
  }

  /** A tests job has finished at this very instant. */
  predicate TestsAt(jobs: seq<Job>, at: int) {
    exists q | 0 <= q < |jobs| :: jobs[q].kind == Tests && jobs[q].finishedAt == Some(at)
  }

  /** Job e, or another perf job that finished at the same instant, is listed before every tests job that did. */
  predicate Wins(jobs: seq<Job>, e: nat, at: int) {
    exists p | 0 <= p < |jobs| ::
      && jobs[p].kind == Perf && (p == e || jobs[p].finishedAt == Some(at))
      && forall q | 0 <= q < |jobs| && jobs[q].kind == Tests && jobs[q].finishedAt == Some(at) :: Listed(jobs, p, q)
  }

  /** What the end of job e does to the stamps. */
  lemma EndStamp(cfg: Config, s: Runner, l: Label)
    requires Enabled(cfg, s, l) && Ends(l).Some? && FinishedInPast(s)
    ensures var t, e := Apply(cfg, s, l), Ends(l).value;
            OnlyEnds(s.jobs, t.jobs, e, l.at)
  {
    LabelFacts(cfg, s, l);
    hide NextAdmissible, DisplaceTarget;
  }

  /** When a perf job ends with tests pending or running, perf is blocked from then on if and only if that job wins its instant. */
  lemma TurnTakenIff(cfg: Config, s: Runner, l: Label)
    requires Enabled(cfg, s, l) && FinishedInPast(s) && TestsActive(s.jobs)
    requires Ends(l).Some? && Ends(l).value < |s.jobs| && s.jobs[Ends(l).value].kind == Perf
    ensures PerfBlocked(Apply(cfg, s, l).jobs) <==> Wins(s.jobs, Ends(l).value, l.at)
  {
    hide Apply, Enabled, PerfBlocked, Wins, TestsOwed;
    var t, e := Apply(cfg, s, l), Ends(l).value;
    EndStamp(cfg, s, l);
    KeptActive(s.jobs, t.jobs, e);
    BlockedIsTestsOwed(t.jobs);
    LeadsIsOwed(t.jobs);
    hide TestsActive;
    if Wins(s.jobs, e, l.at) {
      WinnerLeads(s.jobs, t.jobs, e, l.at);
    }
    if p: nat :| Leads(t.jobs, p) {
      LeaderWins(s.jobs, t.jobs, e, l.at, p);
    }
  }

  /** Only job e has ended, at a time no earlier than every stamp. */
  predicate OnlyEnds(jobs: seq<Job>, after: seq<Job>, e: nat, at: int) {
    && e < |jobs| == |after| && jobs[e].finishedAt.None?
    && after[e].finishedAt == Some(at) && after[e].kind == jobs[e].kind && after[e].slot == jobs[e].slot
    && (forall q | 0 <= q < |jobs| && q != e :: after[q] == jobs[q])
    && (forall q | 0 <= q < |jobs| && jobs[q].finishedAt.Some? :: jobs[q].finishedAt.value <= at)
  }

  lemma KeptActive(jobs: seq<Job>, after: seq<Job>, e: nat)
    requires TestsActive(jobs) && e < |jobs| == |after| && jobs[e].kind == Perf && forall q | 0 <= q < |jobs| && q != e :: after[q] == jobs[q]
    ensures TestsActive(after)
  {
    var a :| 0 <= a < |jobs| && jobs[a].kind == Tests && !Terminal(jobs[a].state);
    assert after[a] == jobs[a];
  }

  lemma SameList(jobs: seq<Job>, after: seq<Job>, e: nat, at: int, x: nat, y: nat)
    requires OnlyEnds(jobs, after, e, at) && x < |jobs| && y < |jobs|
    ensures Listed(after, x, y) == Listed(jobs, x, y)
  {
  }

  lemma WinnerLeads(jobs: seq<Job>, after: seq<Job>, e: nat, at: int)
    requires OnlyEnds(jobs, after, e, at) && jobs[e].kind == Perf && Wins(jobs, e, at)
    ensures exists p: nat :: Leads(after, p)
  {
    hide FirstMin;
    var p :| 0 <= p < |jobs| && jobs[p].kind == Perf && (p == e || jobs[p].finishedAt == Some(at))
             && forall q | 0 <= q < |jobs| && jobs[q].kind == Tests && jobs[q].finishedAt == Some(at) :: Listed(jobs, p, q);
    assert Contended(after[e]) && Contended(after[p]);
    var r := LatestFinished(after).value;
    assert after[r].finishedAt == Some(at);
    SameList(jobs, after, e, at, p, r);
    SameList(jobs, after, e, at, r, p);
    assert after[r].kind == Perf;
    assert Leads(after, r);
  }

  lemma LeaderWins(jobs: seq<Job>, after: seq<Job>, e: nat, at: int, p: nat)
    requires OnlyEnds(jobs, after, e, at) && jobs[e].kind == Perf && Leads(after, p)
    ensures Wins(jobs, e, at)
  {
    assert Contended(after[e]);
    assert after[p].finishedAt == Some(at);
    forall q | 0 <= q < |jobs| && jobs[q].kind == Tests && jobs[q].finishedAt == Some(at)
      ensures Listed(jobs, p, q)
    {
      assert Contended(after[q]);
      SameList(jobs, after, e, at, p, q);
    }
    assert jobs[p].kind == Perf && (p == e || jobs[p].finishedAt == Some(at));
  }

  /** A perf job that ends while tests wait takes the last place, unless a tests job ended at that instant. */
  lemma PerfEndTakesTurn(cfg: Config, s: Runner, l: Label)
    requires Enabled(cfg, s, l) && FinishedInPast(s) && TestsActive(s.jobs)
    requires Ends(l).Some? && Ends(l).value < |s.jobs| && s.jobs[Ends(l).value].kind == Perf && !TestsAt(s.jobs, l.at)
    ensures var t := Apply(cfg, s, l); PerfFinishedLast(t.jobs) && TestsActive(t.jobs)
  {
    EndStamp(cfg, s, l);
    hide Apply, Enabled;
    var t, e := Apply(cfg, s, l), Ends(l).value;
    var a :| 0 <= a < |s.jobs| && s.jobs[a].kind == Tests && !Terminal(s.jobs[a].state);
    assert t.jobs[a] == s.jobs[a];
    assert t.jobs[e].finishedAt == Some(l.at);
  }

  /** A step that ends no tests job and is no restart keeps a turn won in a tie. */
  lemma StepKeepsOwed(cfg: Config, s: Runner, l: Label)
    requires Enabled(cfg, s, l) && FinishedInPast(s) && TestsOwed(s.jobs) && !l.Reload?
    requires Ends(l).Some? ==> Ends(l).value < |s.jobs| && s.jobs[Ends(l).value].kind != Tests
    ensures TestsOwed(Apply(cfg, s, l).jobs)
  {
    hide Apply, Enabled, TestsOwed, TestsActive, FinishedInPast;
    var t := Apply(cfg, s, l);
    LeadsIsOwed(s.jobs);
    LeadsIsOwed(t.jobs);
    var p: nat :| Leads(s.jobs, p);
    StillActive(cfg, s, l);
    if Ends(l).Some? {
      EndStamp(cfg, s, l);
      EndKeepsLead(s.jobs, t.jobs, p, Ends(l).value, l.at);
    } else {
      StampsKept(cfg, s, l);
      assert Leads(t.jobs, p);
    }
  }

  lemma StillActive(cfg: Config, s: Runner, l: Label)
    requires Enabled(cfg, s, l) && TestsActive(s.jobs)
    requires Ends(l).Some? ==> Ends(l).value < |s.jobs| && s.jobs[Ends(l).value].kind != Tests
    ensures TestsActive(Apply(cfg, s, l).jobs)
  {
    var a :| 0 <= a < |s.jobs| && s.jobs[a].kind == Tests && !Terminal(s.jobs[a].state);
    StaysActive(cfg, s, l, a);
  }

  lemma StampsKept(cfg: Config, s: Runner, l: Label)
    requires Enabled(cfg, s, l) && Ends(l).None? && !l.Reload?
    ensures var t := Apply(cfg, s, l);
            && |s.jobs| <= |t.jobs|
            && (forall q | 0 <= q < |s.jobs| ::
                  t.jobs[q].finishedAt == s.jobs[q].finishedAt && t.jobs[q].kind == s.jobs[q].kind && t.jobs[q].slot == s.jobs[q].slot)
            && forall q | |s.jobs| <= q < |t.jobs| :: t.jobs[q].finishedAt.None?
  {
    LabelFacts(cfg, s, l);
    hide NextAdmissible, DisplaceTarget;
  }

  lemma EndKeepsLead(jobs: seq<Job>, after: seq<Job>, p: nat, e: nat, at: int)
    requires OnlyEnds(jobs, after, e, at) && Leads(jobs, p) && jobs[e].kind != Tests
    ensures exists p': nat :: Leads(after, p')
  {
    var lead := if jobs[e].kind == Perf && (jobs[p].finishedAt.value < at || Listed(jobs, e, p)) then e else p;
    forall q | 0 <= q < |after| && Contended(after[q])
      ensures after[q].finishedAt.value < after[lead].finishedAt.value || (after[q].finishedAt == after[lead].finishedAt && Listed(after, lead, q))
    {
      SameList(jobs, after, e, at, lead, q);
      assert q != e ==> Contended(jobs[q]);
    }
    assert Leads(after, lead);
  }

  lemma {:induction false} TurnHolds(cfg: Config, b: seq<Runner>, ls: seq<Label>, p: nat, q: nat)
    requires IsRun(cfg, b, ls) && FinishedInPast(b[0]) && p < q < |b|
    requires EndsKind(b, ls, p, Perf) && TestsActive(b[p].jobs) && !TestsAt(b[p].jobs, ls[p].at)
    requires forall m | p < m < q :: !EndsKind(b, ls, m, Tests)
    ensures PerfFinishedLast(b[q].jobs) && TestsActive(b[q].jobs)
  {
    RunFinishedInPast(cfg, b, ls, q - 1);
    assert Enabled(cfg, b[q - 1], ls[q - 1]);
    if q == p + 1 {
      PerfEndTakesTurn(cfg, b[p], ls[p]);
    } else {
      TurnHolds(cfg, b, ls, p, q - 1);
      assert !EndsKind(b, ls, q - 1, Tests);
      EndsInRange(cfg, b[q - 1], ls[q - 1]);
      StepKeepsTurn(cfg, b[q - 1], ls[q - 1]);
    }
  }

  lemma EndsInRange(cfg: Config, s: Runner, l: Label)
    requires Enabled(cfg, s, l)
    ensures Ends(l).Some? ==> Ends(l).value < |s.jobs|
  {
    LabelFacts(cfg, s, l);
  }

  lemma {:induction false} OwedHolds(cfg: Config, b: seq<Runner>, ls: seq<Label>, p: nat, q: nat)
    requires IsRun(cfg, b, ls) && FinishedInPast(b[0]) && p < q < |b| && TestsOwed(b[p + 1].jobs)
    requires forall m | p < m < q :: !EndsKind(b, ls, m, Tests) && !ls[m].Reload?
    ensures TestsOwed(b[q].jobs)
  {
    hide Apply, Enabled, TestsOwed, FinishedInPast;
    if q > p + 1 {
      OwedHolds(cfg, b, ls, p, q - 1);
      RunFinishedInPast(cfg, b, ls, q - 1);
      assert Enabled(cfg, b[q - 1], ls[q - 1]) && b[q] == Apply(cfg, b[q - 1], ls[q - 1]);
      assert !EndsKind(b, ls, q - 1, Tests);
      EndsInRange(cfg, b[q - 1], ls[q - 1]);
      StepKeepsOwed(cfg, b[q - 1], ls[q - 1]);
    }
  }

  /**
  Alternation: after a perf job ends with tests pending or running and wins
  its instant, no perf job starts before some tests job has ended.  Only a
  turn won against a tests job of the same instant can be lost in a restart,
  which may list the jobs anew.
  */
  lemma PerfWaitsForTests(cfg: Config, b: seq<Runner>, ls: seq<Label>, p: nat, q: nat)
    requires IsRun(cfg, b, ls) && FinishedInPast(b[0]) && p < q < |ls|
    requires EndsKind(b, ls, p, Perf) && TestsActive(b[p].jobs) && Wins(b[p].jobs, Ends(ls[p]).value, ls[p].at)
    requires TestsAt(b[p].jobs, ls[p].at) ==> forall m | p < m < q :: !ls[m].Reload?
    requires ls[q].Start? && ls[q].job < |b[q].jobs| && b[q].jobs[ls[q].job].kind == Perf
    ensures exists m :: p < m < q && EndsKind(b, ls, m, Tests)
  {
    if forall m | p < m < q :: !EndsKind(b, ls, m, Tests) {
      assert Enabled(cfg, b[p], ls[p]) && b[p + 1] == Apply(cfg, b[p], ls[p]);
      if TestsAt(b[p].jobs, ls[p].at) {
        RunFinishedInPast(cfg, b, ls, p);
        TurnTakenIff(cfg, b[p], ls[p]);
        BlockedIsTestsOwed(b[p + 1].jobs);
        OwedHolds(cfg, b, ls, p, q);
      } else {
        TurnHolds(cfg, b, ls, p, q);
        LastPerfBlocks(b[q].jobs);
      }
      hide Apply, Enabled;
      RunStartsFairly(cfg, b, ls, q);
      BlockedIsTestsOwed(b[q].jobs);
      assert false;
    }
  }

  /** A finish stamp later than every earlier one always wins. */
  lemma NewStampWins(s: Runner, e: nat, at: int)
    requires FinishedInPast(s) && e < |s.jobs| && s.jobs[e].kind == Perf && s.clock < at
    ensures Wins(s.jobs, e, at) && !TestsAt(s.jobs, at)
  {
    assert forall q | 0 <= q < |s.jobs| && s.jobs[q].finishedAt.Some? :: s.jobs[q].finishedAt.value < at;
  }

  /** Every perf start keeps the cooldown from every earlier perf or tests ending. */
  lemma PerfKeepsCooldown(cfg: Config, b: seq<Runner>, ls: seq<Label>, m: nat, k: nat)
    requires IsRun(cfg, b, ls) && m < k < |ls|
    requires EndsKind(b, ls, m, Perf) || EndsKind(b, ls, m, Tests)
    requires ls[k].Start? && ls[k].job < |b[k].jobs| && b[k].jobs[ls[k].job].kind == Perf
    ensures ls[k].at - ls[m].at >= cfg.cooldown
  {
    hide NextAdmissible, DisplaceTarget;
    assert Enabled(cfg, b[m], ls[m]) && Enabled(cfg, b[k], ls[k]);
    LabelFacts(cfg, b[m], ls[m]);
    RunEvolves(cfg, b, ls, m + 1, k);
    RunStartsFairly(cfg, b, ls, k);
    var e := Ends(ls[m]).value;
    assert b[m + 1].jobs[e].finishedAt == Some(ls[m].at);
    assert Contended(b[k].jobs[e]);
  }
}
