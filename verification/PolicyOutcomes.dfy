/**
What a request to the policy gate is told, mode by mode and said of the calls
before it: which settings it needs, which gates hold it, and what is recorded.
*/
module PolicyOutcomes {
  import opened Basics
  import opened Options
  import opened TopRows
  import opened PolicyGate

  /** The token gate is on. */
  predicate ByTokens(p: Policy) {
    p.mode == TokenGate || p.mode == BothGates
  }

  /** The time gate is on. */
  predicate ByTimes(p: Policy) {
    p.mode == TimeGate || p.mode == BothGates
  }

  /** A setting or a token that the mode needs is missing. */
  predicate Unfit(p: Policy, r: Request) {
    || (ByTokens(p) && (r.token == None || r.token == Some("") || p.tokenWindow <= 0))
    || (ByTimes(p) && p.minInterval <= 0)
  }

  /** The token is among the last window of admissions. */
  predicate Repeats(p: Policy, log: seq<Run>, r: Request) {
    exists i :: 0 <= i < |log| && |log| - i <= p.tokenWindow && log[i].token == r.token
  }

  /** The last admission was stamped less than the interval before this request. */
  predicate Hurries(p: Policy, log: seq<Run>, r: Request) {
    log != [] && log[|log| - 1].admittedAt.Some? && r.now - log[|log| - 1].admittedAt.value < p.minInterval
  }

  /**
  In every run, while the table holds the window: a request is invalid exactly
  when its mode misses a setting or token, held exactly when a gate of its mode
  fails, with the gates in order, and otherwise admitted exactly when the queue
  takes its job.
  */
  lemma OutcomeByMode(p: Policy, b: seq<Table>, calls: seq<Call>, k: nat)
    requires IsRun(p, b, calls) && k < |calls| && Clocked(p, b[k])
    ensures var log, r := b[k].log, calls[k].r;
            Decide(p, b[k], calls[k].recent, r) ==
            if Unfit(p, r) then Invalid
            else if ByTokens(p) && Repeats(p, log, r) then Held(if ByTimes(p) && Hurries(p, log, r) then [ByToken, ByTime] else [ByToken])
            else if ByTimes(p) && Hurries(p, log, r) then Held([ByTime])
            else if r.jobAccepted then Admitted
            else JobRefused
  {
    HeldExactly(p, b, calls, k);
    AllAdmitted(p, b, calls, k);
    var log, r := b[k].log, calls[k].r;
    var gates := FailedGates(p, b[k], calls[k].recent, r);
    assert ByToken in gates <==> ByTokens(p) && Repeats(p, log, r);
    assert ByTime in gates <==> ByTimes(p) && Hurries(p, log, r);
    GateList(p, b[k], calls[k].recent, r);
    hide FailedGates, Repeats, Hurries, IsRun;
    assert ValidRequest(p, r) <==> !Unfit(p, r);
  }

  lemma GateList(p: Policy, t: Table, recent: set<nat>, r: Request)
    ensures var gates := FailedGates(p, t, recent, r);
            gates == if ByToken in gates then (if ByTime in gates then [ByToken, ByTime] else [ByToken])
                     else if ByTime in gates then [ByTime] else []
  {
  }

  /** A policy without gates takes every request whose job the queue takes. */
  lemma NoGateNeverHolds(p: Policy, b: seq<Table>, calls: seq<Call>, k: nat)
    requires IsRun(p, b, calls) && k < |calls| && p.mode == NoGate
    ensures Decide(p, b[k], calls[k].recent, calls[k].r) == if calls[k].r.jobAccepted then Admitted else JobRefused
  {
    OutcomeByMode(p, b, calls, k);
  }

  /** The requests admitted so far, in order. */
  ghost function AdmittedSoFar(p: Policy, b: seq<Table>, calls: seq<Call>, k: nat): seq<Request>
    requires k <= |calls| < |b|
    decreases k
  {
    if k == 0 then []
    else AdmittedSoFar(p, b, calls, k - 1) + if Decide(p, b[k - 1], calls[k - 1].recent, calls[k - 1].r).Admitted? then [calls[k - 1].r] else []
  }

  /** In every run the log is the requests admitted, in order, each with its token and both its stamps. */
  lemma {:induction false} LogTold(p: Policy, b: seq<Table>, calls: seq<Call>, k: nat)
    requires IsRun(p, b, calls) && k < |b|
    ensures var rs := AdmittedSoFar(p, b, calls, k);
            && |b[k].log| == |rs|
            && forall i | 0 <= i < |rs| :: b[k].log[i] == Run(rs[i].token, rs[i].now, Some(rs[i].admittedAt), [])
  {
    hide Enabled, Decide;
    if k > 0 {
      LogTold(p, b, calls, k - 1);
      assert b[k] == Table(NewLog(p, b[k - 1], calls[k - 1]), calls[k - 1].kept);
    }
  }

  lemma AllAdmitted(p: Policy, b: seq<Table>, calls: seq<Call>, k: nat)
    requires IsRun(p, b, calls) && k < |b|
    ensures forall i | 0 <= i < |b[k].log| :: b[k].log[i].admittedAt.Some?
  {
    LogTold(p, b, calls, k);
  }

  /** In every run the table holds as many admissions as the retention, no less than the window, allows, and none dropped was requested later than one held. */
  lemma KeptTold(p: Policy, b: seq<Table>, calls: seq<Call>, k: nat)
    requires IsRun(p, b, calls) && k < |b|
    ensures var t, keep := b[k], Max(1, Max(p.admittedRuns, p.tokenWindow));
            && (forall i | i in t.kept :: i < |t.log|) && |t.kept| == Min(keep, |t.log|)
            && forall i, j | i in t.kept && 0 <= j < |t.log| && j !in t.kept :: t.log[j].requestedAt <= t.log[i].requestedAt
  {
    RunInv(p, b, calls, k);
    var t := b[k];
    var keys := Stamps(t.log, RequestedAt);
    assert forall i | 0 <= i < |t.log| :: keys[i] == t.log[i].requestedAt;
    assert forall i: nat | i in t.kept :: i in All(|t.log|);
  }
}
