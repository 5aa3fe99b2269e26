/**
The queue runner's jobs, admission gates and atomic steps (src/queue_runner.py).

A job is named by its position in `jobs`, the order of creation.  Its slot
is its place in the runner's dictionary, which decides ties; a restart reads
the dictionary back in the order the rows were last written, so it may give
the jobs any slots.  The wall clock, the free-memory probe and the outcome of a
process are inputs of the steps that read them.
*/
module QueueModel {
  import opened Basics
  import opened Options

  datatype JobType = Perf | Tests | Background

  datatype JobState = Pending | Running | Succeeded | Failed | TimedOut | Cancelled | Displaced

  predicate Terminal(st: JobState) {
    st != Pending && st != Running
  }

  datatype Job = Job(
    slot: nat,
    kind: JobType,
    state: JobState,
    queuedAt: int,
    startedAt: Option<int>,
    finishedAt: Option<int>,
    notify: bool,              // a notify session was given
    queuedNotified: bool,
    startedNotified: bool,
    completionNotified: bool)

  datatype Notice = QueuedNotice(job: nat) | StartedNotice(job: nat) | CompletedNotice(job: nat)

  datatype Config = Config(maxRunning: int, perfCap: int, testsCap: int, backgroundCap: int,
                           cooldown: int, minFree: int)
  {
    function Cap(kind: JobType): int {
      match kind
      case Perf => perfCap
      case Tests => testsCap
      case Background => backgroundCap
    }
  }

  /** `clock` is the latest time any step has read. */
  datatype Runner = Runner(jobs: seq<Job>, outbox: seq<Notice>, clock: int)

  // ---------------------------------------------------------------- counts

  function Having(jobs: seq<Job>, st: JobState): set<nat> {
    set i: nat | i < |jobs| && jobs[i].state == st
  }

  function HavingOf(jobs: seq<Job>, st: JobState, kind: JobType): set<nat> {
    set i: nat | i < |jobs| && jobs[i].state == st && jobs[i].kind == kind
  }

  function RunningCount(jobs: seq<Job>): nat {
    |Having(jobs, Running)|
  }

  function RunningOf(jobs: seq<Job>, kind: JobType): nat {
    |HavingOf(jobs, Running, kind)|
  }

  /** The measure that every iteration of an admission pass lowers. */
  function Measure(jobs: seq<Job>): nat {
    2 * |Having(jobs, Pending)| + RunningCount(jobs)
  }

  // ----------------------------------------------------------- selections

  /** Job i comes no later than job j in the dictionary. */
  predicate Listed(jobs: seq<Job>, i: nat, j: nat)
    requires i < |jobs| && j < |jobs|
  {
    jobs[i].slot < jobs[j].slot || (jobs[i].slot == jobs[j].slot && i <= j)
  }

  /** The first job with the least key among those picked: Python's `min` over a filtered dictionary. */
  function FirstMin(jobs: seq<Job>, pick: Job -> bool, key: Job -> int): (r: Option<nat>)
    ensures r.None? <==> forall i | 0 <= i < |jobs| :: !pick(jobs[i])
    ensures r.Some? ==> r.value < |jobs| && pick(jobs[r.value])
    ensures r.Some? ==> forall i | 0 <= i < |jobs| && pick(jobs[i]) ::
              key(jobs[r.value]) <= key(jobs[i]) && (key(jobs[r.value]) == key(jobs[i]) ==> Listed(jobs, r.value, i))
  {
    if jobs == [] then None
    else
      var n := |jobs| - 1;
      var front := jobs[..n];
      assert forall i | 0 <= i < n :: jobs[i] == front[i];
      var r := FirstMin(front, pick, key);
      assert r.Some? ==> forall i | 0 <= i < n :: Listed(front, r.value, i) == Listed(jobs, r.value, i);
      if !pick(jobs[n]) then r
      else if r.None? || key(jobs[n]) < key(jobs[r.value]) then Some(n)
      else if key(jobs[n]) == key(jobs[r.value]) && jobs[n].slot < jobs[r.value].slot then Some(n)
      else r
  }

  predicate Waiting(jobs: seq<Job>, kind: JobType, i: int) {
    0 <= i < |jobs| && jobs[i].state == Pending && jobs[i].kind == kind
  }

  function OldestPending(jobs: seq<Job>, kind: JobType): (r: Option<nat>)
    ensures r.None? <==> forall i :: !Waiting(jobs, kind, i)
    ensures r.Some? ==> Waiting(jobs, kind, r.value)
    ensures r.Some? ==> forall i | Waiting(jobs, kind, i) ::
              jobs[r.value].queuedAt < jobs[i].queuedAt || (jobs[r.value].queuedAt == jobs[i].queuedAt && Listed(jobs, r.value, i))
  {
    var pick := (j: Job) => j.state == Pending && j.kind == kind;
    assert forall i | 0 <= i < |jobs| :: pick(jobs[i]) <==> Waiting(jobs, kind, i);
    FirstMin(jobs, pick, (j: Job) => j.queuedAt)
  }

  function StartOrQueue(j: Job): int {
    if j.startedAt.Some? then j.startedAt.value else j.queuedAt
  }

  predicate Displaceable(j: Job) {
    j.state == Running && j.kind == Background
  }

  function OldestBackground(jobs: seq<Job>): (r: Option<nat>)
    ensures r.None? <==> forall i | 0 <= i < |jobs| :: !Displaceable(jobs[i])
    ensures r.Some? ==> r.value < |jobs| && Displaceable(jobs[r.value])
    ensures r.Some? ==> forall i | 0 <= i < |jobs| && Displaceable(jobs[i]) ::
              StartOrQueue(jobs[r.value]) <= StartOrQueue(jobs[i])
  {
    FirstMin(jobs, Displaceable, StartOrQueue)
  }

  predicate Contended(j: Job) {
    j.kind != Background && j.finishedAt.Some?
  }

  /** Python's `max` by finish time over finished perf and tests jobs, written as a minimum. */
  function LatestFinished(jobs: seq<Job>): (r: Option<nat>)
    ensures r.None? <==> forall i | 0 <= i < |jobs| :: !Contended(jobs[i])
    ensures r.Some? ==> r.value < |jobs| && Contended(jobs[r.value])
    ensures r.Some? ==> forall i | 0 <= i < |jobs| && Contended(jobs[i]) ::
              || jobs[i].finishedAt.value < jobs[r.value].finishedAt.value
              || (jobs[i].finishedAt == jobs[r.value].finishedAt && Listed(jobs, r.value, i))
  {
    var key := (j: Job) => if j.finishedAt.Some? then -j.finishedAt.value else 0;
    assert forall i | 0 <= i < |jobs| && Contended(jobs[i]) :: key(jobs[i]) == -jobs[i].finishedAt.value;
    FirstMin(jobs, Contended, key)
  }

  // ---------------------------------------------------------------- gates

  predicate CooldownActive(cfg: Config, jobs: seq<Job>, now: int) {
    exists i | 0 <= i < |jobs| ::
      Contended(jobs[i]) && now - jobs[i].finishedAt.value < cfg.cooldown
  }

  predicate TestsActive(jobs: seq<Job>) {
    exists i | 0 <= i < |jobs| :: jobs[i].kind == Tests && !Terminal(jobs[i].state)
  }

  predicate PerfBlocked(jobs: seq<Job>) {
    var latest := LatestFinished(jobs);
    latest.Some? && jobs[latest.value].kind == Perf && TestsActive(jobs)
  }

  predicate MemoryPasses(cfg: Config, free: Option<int>) {
    cfg.minFree <= 0 || free.None? || free.value >= cfg.minFree
  }

  /** The per-type part of the admission test. */
  predicate TypeGate(cfg: Config, jobs: seq<Job>, kind: JobType, now: int) {
    && RunningOf(jobs, kind) < cfg.Cap(kind)
    && (kind == Perf ==> !CooldownActive(cfg, jobs, now) && !PerfBlocked(jobs))
  }

  function DisplaceTarget(cfg: Config, jobs: seq<Job>, free: Option<int>, now: int): Option<nat> {
    if OldestPending(jobs, Perf).None? then None
    else if RunningCount(jobs) < cfg.maxRunning then None
    else if RunningOf(jobs, Perf) >= cfg.perfCap then None
    else if !MemoryPasses(cfg, free) || CooldownActive(cfg, jobs, now) || PerfBlocked(jobs) then None
    else OldestBackground(jobs)
  }

  function NextAdmissible(cfg: Config, jobs: seq<Job>, free: Option<int>, now: int): Option<nat> {
    if RunningCount(jobs) >= cfg.maxRunning then None
    else if !MemoryPasses(cfg, free) then None
    else
      var perf, tests, background :=
        OldestPending(jobs, Perf), OldestPending(jobs, Tests), OldestPending(jobs, Background);
      if perf.Some? && TypeGate(cfg, jobs, Perf, now) then perf
      else if tests.Some? && TypeGate(cfg, jobs, Tests, now) then tests
      else if background.Some? && TypeGate(cfg, jobs, Background, now) then background
      else None
  }

  // ---------------------------------------------------------------- steps

  /**
  One lock-protected change.  `free` and `now` are what the gates read, `at`
  is the time stamped on the job.  `Reload` is a restart, which keeps every
  stored job and gives it the slot its row has; a restart that finds a job ended is a `Finish`.
  */
  datatype Label =
    | Create(kind: JobType, notify: bool, at: int)
    | Start(job: nat, free: Option<int>, now: int, at: int)
    | Displace(job: nat, free: Option<int>, now: int, at: int)
    | Finish(job: nat, outcome: JobState, at: int)
    | CancelPending(job: nat, at: int)
    | NotifyQueued(job: nat)
    | Reload(slots: seq<nat>)

  predicate Enabled(cfg: Config, s: Runner, l: Label) {
    match l
    case Create(_, _, _) => true              // stamped before it waits for the lock
    case Start(i, free, now, at) =>
      s.clock <= now <= at && NextAdmissible(cfg, s.jobs, free, now) == Some(i)
    case Displace(i, free, now, at) =>
      s.clock <= now <= at && DisplaceTarget(cfg, s.jobs, free, now) == Some(i)
    case Finish(i, outcome, at) =>
      && s.clock <= at && i < |s.jobs| && s.jobs[i].state == Running
      && outcome in {Succeeded, Failed, TimedOut, Cancelled}
    case CancelPending(i, at) => s.clock <= at && i < |s.jobs| && s.jobs[i].state == Pending
    case NotifyQueued(i) => i < |s.jobs| && s.jobs[i].state == Pending && !s.jobs[i].queuedNotified
    case Reload(slots) => |slots| == |s.jobs|
  }

  /** The job an enabled label acts on, and the room a start has. */
  lemma LabelFacts(cfg: Config, s: Runner, l: Label)
    requires Enabled(cfg, s, l)
    ensures l.Start? ==> l.job < |s.jobs| && s.jobs[l.job].state == Pending
    ensures l.Start? ==> RunningCount(s.jobs) < cfg.maxRunning
    ensures l.Start? ==> RunningOf(s.jobs, s.jobs[l.job].kind) < cfg.Cap(s.jobs[l.job].kind)
    ensures l.Displace? ==> l.job < |s.jobs| && Displaceable(s.jobs[l.job])
  {
    hide FirstMin;
  }

  function Announce(outbox: seq<Notice>, send: bool, notice: Notice): seq<Notice> {
    if send then outbox + [notice] else outbox
  }

  function StartJob(s: Runner, i: nat, at: int): Runner
    requires i < |s.jobs|
  {
    var j := s.jobs[i];
    var tell := j.queuedNotified && !j.startedNotified;
    Runner(s.jobs[i := j.(state := Running, startedAt := Some(at), startedNotified := j.startedNotified || tell)],
           Announce(s.outbox, tell && j.notify, StartedNotice(i)),
           at)
  }

  function FinishJob(s: Runner, i: nat, outcome: JobState, at: int): Runner
    requires i < |s.jobs|
  {
    var j := s.jobs[i];
    Runner(s.jobs[i := j.(state := outcome, finishedAt := Some(at), completionNotified := true)],
           Announce(s.outbox, !j.completionNotified && j.notify, CompletedNotice(i)),
           at)
  }

  /** A slot after every other. */
  function NextSlot(jobs: seq<Job>): (n: nat)
    ensures forall i | 0 <= i < |jobs| :: jobs[i].slot < n
  {
    if jobs == [] then 0
    else
      var front := jobs[..|jobs| - 1];
      assert forall i | 0 <= i < |front| :: jobs[i] == front[i];
      var n := NextSlot(front);
      if jobs[|jobs| - 1].slot < n then n else jobs[|jobs| - 1].slot + 1
  }

  function NewJob(jobs: seq<Job>, kind: JobType, notify: bool, at: int): Job {
    Job(NextSlot(jobs), kind, Pending, at, None, None, notify, false, false, false)
  }

  function Relisted(jobs: seq<Job>, slots: seq<nat>): (r: seq<Job>)
    requires |slots| == |jobs|
    ensures |r| == |jobs| && forall i | 0 <= i < |jobs| :: r[i] == jobs[i].(slot := slots[i])
  {
    seq(|jobs|, i requires 0 <= i < |jobs| => jobs[i].(slot := slots[i]))
  }

  function Apply(cfg: Config, s: Runner, l: Label): Runner
    requires Enabled(cfg, s, l)
  {
    match l
    case Create(kind, notify, at) => s.(jobs := s.jobs + [NewJob(s.jobs, kind, notify, at)], clock := Max(s.clock, at))
    case Start(i, _, _, at) => StartJob(s, i, at)
    case Displace(i, _, _, at) => FinishJob(s, i, Displaced, at)
    case Finish(i, outcome, at) => FinishJob(s, i, outcome, at)
    case CancelPending(i, at) => FinishJob(s, i, Cancelled, at)
    case NotifyQueued(i) =>
      s.(jobs := s.jobs[i := s.jobs[i].(queuedNotified := true)],
         outbox := Announce(s.outbox, s.jobs[i].notify, QueuedNotice(i)))
    case Reload(slots) => s.(jobs := Relisted(s.jobs, slots))
  }

  /** The job a label brings to a terminal state, if any. */
  function Ends(l: Label): Option<nat> {
    match l
    case Displace(i, _, _, _) => Some(i)
    case Finish(i, _, _) => Some(i)
    case CancelPending(i, _) => Some(i)
    case _ => None
  }

  /** A run: every label is enabled where it is taken, and the states follow. */
  ghost predicate IsRun(cfg: Config, b: seq<Runner>, ls: seq<Label>) {
    && |b| == |ls| + 1
    && forall k | 0 <= k < |ls| :: Enabled(cfg, b[k], ls[k]) && b[k + 1] == Apply(cfg, b[k], ls[k])
  }

  /** The same, given by its first state and its labels alone. */
  ghost predicate Runs(cfg: Config, s: Runner, ls: seq<Label>)
    decreases ls
  {
    ls == [] || (Enabled(cfg, s, ls[0]) && Runs(cfg, Apply(cfg, s, ls[0]), ls[1..]))
  }

  ghost function After(cfg: Config, s: Runner, ls: seq<Label>): Runner
    requires Runs(cfg, s, ls)
    decreases ls
  {
    if ls == [] then s else After(cfg, Apply(cfg, s, ls[0]), ls[1..])
  }

  ghost function Trace(cfg: Config, s: Runner, ls: seq<Label>): (b: seq<Runner>)
    requires Runs(cfg, s, ls)
    ensures IsRun(cfg, b, ls) && b[0] == s && b[|ls|] == After(cfg, s, ls)
    decreases ls
  {
    if ls == [] then [s] else [s] + Trace(cfg, Apply(cfg, s, ls[0]), ls[1..])
  }

  lemma {:induction false} RunsAppend(cfg: Config, s: Runner, ls: seq<Label>, ms: seq<Label>)
    requires Runs(cfg, s, ls) && Runs(cfg, After(cfg, s, ls), ms)
    ensures Runs(cfg, s, ls + ms) && After(cfg, s, ls + ms) == After(cfg, After(cfg, s, ls), ms)
    decreases ls
  {
    if ls == [] {
      assert ls + ms == ms;
    } else {
      RunsAppend(cfg, Apply(cfg, s, ls[0]), ls[1..], ms);
      assert (ls + ms)[1..] == ls[1..] + ms;
    }
  }

  // ------------------------------------------------------------ count laws

  /** What replacing one job by another of its type does to every count. */
  lemma ReplaceJob(jobs: seq<Job>, i: nat, j: Job)
    requires i < |jobs| && j.kind == jobs[i].kind
    ensures forall st :: Having(jobs[i := j], st) ==
              if st == j.state then Having(jobs, st) + {i} else Having(jobs, st) - {i}
    ensures forall st, kind :: HavingOf(jobs[i := j], st, kind) ==
              if st == j.state && kind == j.kind then HavingOf(jobs, st, kind) + {i}
              else HavingOf(jobs, st, kind) - {i}
  {
  }

  function One(b: bool): nat { if b then 1 else 0 }

  /** The same, on the running counts the caps are about. */
  lemma ReplaceCounts(jobs: seq<Job>, i: nat, j: Job)
    requires i < |jobs| && j.kind == jobs[i].kind
    ensures RunningCount(jobs[i := j]) == RunningCount(jobs) - One(jobs[i].state == Running) + One(j.state == Running)
    ensures forall kind :: RunningOf(jobs[i := j], kind) == RunningOf(jobs, kind)
              - One(kind == j.kind && jobs[i].state == Running) + One(kind == j.kind && j.state == Running)
  {
    ReplaceJob(jobs, i, j);
  }

  lemma AppendPending(jobs: seq<Job>, j: Job)
    requires j.state == Pending
    ensures Having(jobs + [j], Running) == Having(jobs, Running)
    ensures forall kind :: HavingOf(jobs + [j], Running, kind) == HavingOf(jobs, Running, kind)
  {
  }

  lemma RelistCounts(jobs: seq<Job>, slots: seq<nat>)
    requires |slots| == |jobs|
    ensures forall st :: Having(Relisted(jobs, slots), st) == Having(jobs, st)
    ensures forall st, kind :: HavingOf(Relisted(jobs, slots), st, kind) == HavingOf(jobs, st, kind)
  {
  }
}
