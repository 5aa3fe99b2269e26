/**
The dedupe gate in front of the queue runner (src/queue_runner.py, create_policy_run).

One policy's rows.  Every query of the source filters by policy and by
decision, so admitted and suppressed rows are kept apart here.  An admitted row
is named by its number among all admissions, in the order of the gate's lock.
A request reads its clock before it waits for that lock, so its stamp need not
follow the order of the numbers.
*/
module PolicyGate {
  import opened Basics
  import opened Options
  import opened TopRows

  datatype Mode = NoGate | TimeGate | TokenGate | BothGates

  datatype Policy = Policy(mode: Mode, tokenWindow: int, minInterval: int, admittedRuns: int, suppressedRuns: int)
  {
    predicate Tokens() { mode == TokenGate || mode == BothGates }
    predicate Times() { mode == TimeGate || mode == BothGates }

    function Window(): nat { Max(0, tokenWindow) }
    function AdmittedKeep(): nat { Max(1, Max(admittedRuns, tokenWindow)) }
    function SuppressedKeep(): nat { Max(1, suppressedRuns) }
  }

  datatype Gate = ByToken | ByTime

  /** A row of queue_policy_runs; an admitted row has no gates, a suppressed one has no admission time. */
  datatype Run = Run(token: Option<string>, requestedAt: int, admittedAt: Option<int>, gates: seq<Gate>)

  /** The columns the queries order by; only admitted rows, which all have one, are read by admission time. */
  datatype Column = RequestedAt | AdmittedAt

  function Key(r: Run, c: Column): int {
    if c == RequestedAt then r.requestedAt else if r.admittedAt.Some? then r.admittedAt.value else 0
  }

  function Stamps(rows: seq<Run>, c: Column): (keys: seq<int>)
    ensures |keys| == |rows| && forall i | 0 <= i < |rows| :: keys[i] == Key(rows[i], c)
  {
    seq(|rows|, i requires 0 <= i < |rows| => Key(rows[i], c))
  }

  /** `jobAccepted` is whether the queue takes the job; it raises otherwise and nothing is recorded. */
  datatype Request = Request(token: Option<string>, now: int, jobAccepted: bool, admittedAt: int)

  function AdmittedRun(r: Request): Run { Run(r.token, r.now, Some(r.admittedAt), []) }

  datatype Outcome = Invalid | Held(gates: seq<Gate>) | JobRefused | Admitted

  // -------------------------------------------------------------- the gate

  /** Every admission ever made, and the numbers of those the table still holds. */
  datatype Table = Table(log: seq<Run>, kept: set<nat>)

  function WithToken(t: Table): set<nat> {
    set i | i in t.kept && i < |t.log| && t.log[i].token.Some?
  }

  /** The token is among the rows the query returned. */
  predicate TokenSeen(log: seq<Run>, recent: set<nat>, token: Option<string>) {
    exists i | i in recent :: i < |log| && log[i].token == token
  }

  /** Some admission is less than the interval ago; the latest is if any is. */
  predicate TooSoon(p: Policy, log: seq<Run>, rows: set<nat>, now: int) {
    exists i | i in rows :: i < |log| && now - Key(log[i], AdmittedAt) < p.minInterval
  }

  /** The gates that hold a request back, in the order the source lists them. */
  function FailedGates(p: Policy, t: Table, recent: set<nat>, r: Request): seq<Gate> {
    (if p.Tokens() && TokenSeen(t.log, recent, r.token) then [ByToken] else [])
    + (if p.Times() && TooSoon(p, t.log, t.kept, r.now) then [ByTime] else [])
  }

  predicate ValidRequest(p: Policy, r: Request) {
    && (p.Tokens() ==> r.token.Some? && r.token.value != "")
    && (p.Times() ==> p.minInterval > 0)
    && (p.Tokens() ==> p.tokenWindow > 0)
  }

  function Decide(p: Policy, t: Table, recent: set<nat>, r: Request): Outcome {
    if !ValidRequest(p, r) then Invalid
    else if FailedGates(p, t, recent, r) != [] then Held(FailedGates(p, t, recent, r))
    else if !r.jobAccepted then JobRefused
    else Admitted
  }

  /** The rows the token query may return, equal stamps in any order. */
  ghost predicate Answers(p: Policy, t: Table, recent: set<nat>) {
    Within(t.kept, Stamps(t.log, AdmittedAt)) && IsTop(recent, WithToken(t), Stamps(t.log, AdmittedAt), p.Window())
  }

  // ------------------------------------------------------------------ runs

  /** One call, with the rows the token query returned and the rows the prune left, equal stamps in any order. */
  datatype Call = Call(r: Request, recent: set<nat>, kept: set<nat>)

  function NewLog(p: Policy, t: Table, call: Call): seq<Run> {
    if Decide(p, t, call.recent, call.r).Admitted? then t.log + [AdmittedRun(call.r)] else t.log
  }

  function Offered(p: Policy, t: Table, call: Call): set<nat> {
    if Decide(p, t, call.recent, call.r).Admitted? then t.kept + {|t.log|} else t.kept
  }

  /** The only demand on the clock: it does not go back within one call. */
  ghost predicate Enabled(p: Policy, t: Table, call: Call) {
    && call.r.now <= call.r.admittedAt
    && Answers(p, t, call.recent)
    && IsTop(call.kept, Offered(p, t, call), Stamps(NewLog(p, t, call), RequestedAt), p.AdmittedKeep())
  }

  ghost predicate IsRun(p: Policy, b: seq<Table>, calls: seq<Call>) {
    && |b| == |calls| + 1 && b[0] == Table([], {})
    && forall k | 0 <= k < |calls| :: Enabled(p, b[k], calls[k]) && b[k + 1] == Table(NewLog(p, b[k], calls[k]), calls[k].kept)
  }

  predicate AskedFirst(log: seq<Run>) {
    forall i | 0 <= i < |log| :: log[i].requestedAt <= Key(log[i], AdmittedAt)
  }

  predicate HaveTokens(p: Policy, log: seq<Run>) {
    (log != [] ==> p.tokenWindow > 0) && forall i | 0 <= i < |log| :: log[i].token.Some? && log[i].token.value != ""
  }

  /** The table holds the newest requests of the log, and in the token modes every admission has a token. */
  ghost predicate Inv(p: Policy, t: Table) {
    && IsTop(t.kept, All(|t.log|), Stamps(t.log, RequestedAt), p.AdmittedKeep())
    && (p.Tokens() ==> WithToken(t) == t.kept && HaveTokens(p, t.log))
    && (p.Times() ==> Ascending(Stamps(t.log, RequestedAt)) && Ascending(Stamps(t.log, AdmittedAt)))
    && AskedFirst(t.log)
  }

  lemma StampsGrow(rows: seq<Run>, run: Run, c: Column)
    ensures Stamps(rows + [run], c) == Stamps(rows, c) + [Key(run, c)]
  {
  }

  /** In the time modes the last admission is never pruned, so the next one comes after it. */
  lemma TimesRise(p: Policy, t: Table, recent: set<nat>, r: Request)
    requires Inv(p, t) && p.Times() && Decide(p, t, recent, r).Admitted? && r.now <= r.admittedAt
    ensures t.log != [] ==> Key(t.log[|t.log| - 1], AdmittedAt) + p.minInterval <= r.now && p.minInterval > 0
  {
    if t.log != [] {
      LastIsKept(p, t);
    }
  }

  lemma LastIsKept(p: Policy, t: Table)
    requires Inv(p, t) && p.Times() && t.log != []
    ensures |t.log| - 1 in t.kept
  {
    TopIsLast(t.kept, Stamps(t.log, RequestedAt), p.AdmittedKeep());
  }

  lemma AscendMore(keys: seq<int>, key: int)
    requires Ascending(keys) && (keys != [] ==> keys[|keys| - 1] < key)
    ensures Ascending(keys + [key])
  {
  }

  lemma TokensStay(p: Policy, log: seq<Run>, r: Request, kept: set<nat>)
    requires p.Tokens() && ValidRequest(p, r) && HaveTokens(p, log) && forall i | i in kept :: i <= |log|
    ensures HaveTokens(p, log + [AdmittedRun(r)]) && WithToken(Table(log + [AdmittedRun(r)], kept)) == kept
  {
  }

  lemma AskedStays(log: seq<Run>, r: Request)
    requires AskedFirst(log) && r.now <= r.admittedAt
    ensures AskedFirst(log + [AdmittedRun(r)])
  {
  }

  lemma AdmitTop(p: Policy, t: Table, call: Call)
    requires Inv(p, t) && Enabled(p, t, call) && Decide(p, t, call.recent, call.r).Admitted?
    ensures var log := t.log + [AdmittedRun(call.r)];
            IsTop(call.kept, All(|log|), Stamps(log, RequestedAt), p.AdmittedKeep()) && forall i | i in call.kept :: i < |log|
    ensures call.r.now <= call.r.admittedAt
  {
    hide Decide, Ascending, WithToken, TooSoon, All;
    StampsGrow(t.log, AdmittedRun(call.r), RequestedAt);
    TopGrows(t.kept, call.kept, Stamps(t.log, RequestedAt), call.r.now, p.AdmittedKeep());
  }

  lemma AdmitTimes(p: Policy, t: Table, call: Call)
    requires Inv(p, t) && p.Times() && Decide(p, t, call.recent, call.r).Admitted? && call.r.now <= call.r.admittedAt
    ensures var log := t.log + [AdmittedRun(call.r)];
            Ascending(Stamps(log, RequestedAt)) && Ascending(Stamps(log, AdmittedAt))
  {
    TimesRise(p, t, call.recent, call.r);
    hide Decide, IsTop, WithToken;
    StampsGrow(t.log, AdmittedRun(call.r), RequestedAt);
    StampsGrow(t.log, AdmittedRun(call.r), AdmittedAt);
    AscendMore(Stamps(t.log, RequestedAt), call.r.now);
    AscendMore(Stamps(t.log, AdmittedAt), call.r.admittedAt);
  }

  lemma AdmitInv(p: Policy, t: Table, call: Call)
    requires Inv(p, t) && Enabled(p, t, call) && Decide(p, t, call.recent, call.r).Admitted?
    ensures Inv(p, Table(t.log + [AdmittedRun(call.r)], call.kept))
  {
    AdmitTop(p, t, call);
    AdmittedIsClear(p, t, call);
    hide IsTop, Ascending, Decide, WithToken, Stamps, Enabled, FailedGates, All, HaveTokens, AskedFirst, ValidRequest;
    AskedStays(t.log, call.r);
    if p.Times() {
      AdmitTimes(p, t, call);
    }
    if p.Tokens() {
      TokensStay(p, t.log, call.r, call.kept);
    }
  }

  lemma StepInv(p: Policy, t: Table, call: Call)
    requires Inv(p, t) && Enabled(p, t, call)
    ensures Inv(p, Table(NewLog(p, t, call), call.kept))
  {
    if Decide(p, t, call.recent, call.r).Admitted? {
      AdmitInv(p, t, call);
      hide Inv, Enabled, Decide;
    } else {
      TopOfFew(call.kept, t.kept, Stamps(t.log, RequestedAt), p.AdmittedKeep());
      hide Decide, IsTop;
    }
  }

  lemma EmptyInv(p: Policy)
    ensures Inv(p, Table([], {}))
  {
    assert All(0) == {};
  }

  lemma {:induction false} RunInv(p: Policy, b: seq<Table>, calls: seq<Call>, k: nat)
    requires IsRun(p, b, calls) && k < |b|
    ensures Inv(p, b[k])
  {
    hide Inv, Enabled, NewLog;
    if k > 0 {
      RunInv(p, b, calls, k - 1);
      StepInv(p, b[k - 1], calls[k - 1]);
    } else {
      EmptyInv(p);
    }
  }

  // ------------------------------------------------------ pruning is unseen

  /** The rows a prune by request time may drop are never among the latest admissions the gate looks at. */
  ghost predicate InLine(p: Policy, log: seq<Run>) {
    Aligned(Stamps(log, RequestedAt), Stamps(log, AdmittedAt), p.AdmittedKeep(), p.Window())
  }

  /** In the time modes the stamps are always in line. */
  lemma TimesAreInLine(p: Policy, t: Table)
    requires Inv(p, t) && p.Times()
    ensures InLine(p, t.log)
  {
    RisingAligned(Stamps(t.log, RequestedAt), Stamps(t.log, AdmittedAt), p.AdmittedKeep(), p.Window());
  }

  /** Every admission the table has dropped has `token_window` later ones. */
  ghost predicate ShowsWindow(p: Policy, t: Table) {
    Shows(t.kept, Stamps(t.log, AdmittedAt), p.Window())
  }

  /** In line, the stamps leave only tables that show the window. */
  lemma InLineShows(p: Policy, t: Table)
    requires Inv(p, t) && InLine(p, t.log)
    ensures ShowsWindow(p, t)
  {
    AlignedShows(Stamps(t.log, RequestedAt), Stamps(t.log, AdmittedAt), p.AdmittedKeep(), p.Window(), t.kept);
  }

  /** The whole log, nothing pruned. */
  function Full(t: Table): Table { Table(t.log, All(|t.log|)) }

  /**
  Over every run in the token modes, whatever the stamps: the pruned table and
  the full log have the same answers to the token query if and only if every
  admission dropped has a window of later ones.
  */
  lemma SameAnswersIff(p: Policy, b: seq<Table>, calls: seq<Call>, k: nat)
    requires IsRun(p, b, calls) && k < |b| && p.Tokens()
    ensures (forall recent :: Answers(p, b[k], recent) <==> Answers(p, Full(b[k]), recent)) <==> ShowsWindow(p, b[k])
  {
    var t := b[k];
    RunInv(p, b, calls, k);
    TopCount(p, t);
    AllWithToken(t);
    hide IsTop, Inv, IsRun, WithToken, All, Stamps;
    SameTopIff(t.kept, Stamps(t.log, AdmittedAt), p.Window());
    forall recent ensures Answers(p, t, recent) <==> IsTop(recent, t.kept, Stamps(t.log, AdmittedAt), p.Window()) {
    }
    forall recent ensures Answers(p, Full(t), recent) <==> IsTop(recent, All(|t.log|), Stamps(t.log, AdmittedAt), p.Window()) {
    }
  }

  lemma TopCount(p: Policy, t: Table)
    requires Inv(p, t)
    ensures Within(t.kept, Stamps(t.log, AdmittedAt)) && |t.kept| >= Min(p.Window(), |t.log|) && t.kept <= All(|t.log|)
    ensures p.Tokens() ==> WithToken(t) == t.kept && HaveTokens(p, t.log)
  {
  }

  /**
  Over every run: always without the token gate or with the time gate on, and
  with the token gate alone whenever the table shows the window, the pruned
  table and the full log give the token query the same rows and decide every
  request alike.
  */
  lemma PruningIsInvisible(p: Policy, b: seq<Table>, calls: seq<Call>, k: nat, recent: set<nat>, r: Request)
    requires IsRun(p, b, calls) && k < |b| && (p.mode == TokenGate ==> ShowsWindow(p, b[k]))
    ensures p.Tokens() ==> (Answers(p, b[k], recent) <==> Answers(p, Full(b[k]), recent))
    ensures Decide(p, b[k], recent, r) == Decide(p, Full(b[k]), recent, r)
  {
    hide IsTop, Inv, Answers, ShowsWindow, InLine, TooSoon, TokenSeen, All, Stamps, IsRun;
    RunInv(p, b, calls, k);
    if p.Times() {
      TimesAreInLine(p, b[k]);
      InLineShows(p, b[k]);
      SameTooSoon(p, b[k], r.now);
    }
    if p.Tokens() {
      SameAnswersIff(p, b, calls, k);
    }
  }

  lemma AllWithToken(t: Table)
    requires forall i | 0 <= i < |t.log| :: t.log[i].token.Some?
    ensures WithToken(Full(t)) == All(|t.log|) && Within(All(|t.log|), Stamps(t.log, AdmittedAt))
  {
  }

  lemma SameTooSoon(p: Policy, t: Table, now: int)
    requires Inv(p, t) && p.Times()
    ensures TooSoon(p, t.log, t.kept, now) == TooSoon(p, t.log, All(|t.log|), now)
  {
    if i :| i in All(|t.log|) && i < |t.log| && now - Key(t.log[i], AdmittedAt) < p.minInterval {
      LastIsKept(p, t);
      var n := |t.log| - 1;
      var keys := Stamps(t.log, AdmittedAt);
      assert keys[i] <= keys[n];
      assert n in t.kept && now - Key(t.log[n], AdmittedAt) < p.minInterval;
    }
  }

  /**
  From stamps to tables: every table the prunes may leave holds every set of
  rows the query may ask for if and only if the stamps are in line.
  */
  lemma InvisibleIff(p: Policy, log: seq<Run>)
    ensures (forall kept, recent |
               && IsTop(kept, All(|log|), Stamps(log, RequestedAt), p.AdmittedKeep())
               && IsTop(recent, All(|log|), Stamps(log, AdmittedAt), p.Window()) :: recent <= kept)
            <==> InLine(p, log)
  {
    KeptHoldsTopIff(Stamps(log, RequestedAt), Stamps(log, AdmittedAt), p.AdmittedKeep(), p.Window());
  }

  // -------------------------------------------------------------- spacing

  /** The table holds the last `token_window` admissions. */
  ghost predicate HoldsWindow(p: Policy, t: Table) {
    forall i | 0 <= i < |t.log| && |t.log| - i <= p.tokenWindow :: i in t.kept
  }

  lemma WindowIsLast(p: Policy, t: Table)
    ensures HoldsWindow(p, t) <==> LastOnes(|t.log|, p.Window()) <= t.kept
  {
    assert forall i: nat :: i in LastOnes(|t.log|, p.Window()) <==> i < |t.log| && |t.log| - i <= p.tokenWindow;
  }

  /** With the token gate alone: the admission stamps follow the lock and the table holds the last window. */
  ghost predicate Clocked(p: Policy, t: Table) {
    p.mode == TokenGate ==> Ascending(Stamps(t.log, AdmittedAt)) && HoldsWindow(p, t)
  }

  lemma TimesAreClocked(p: Policy, t: Table)
    requires Inv(p, t) && p.Times()
    ensures Ascending(Stamps(t.log, AdmittedAt)) && HoldsWindow(p, t)
  {
    TimesAreInLine(p, t);
    InLineShows(p, t);
    RisingShowsIff(t.kept, Stamps(t.log, AdmittedAt), p.Window());
    WindowIsLast(p, t);
  }

  /** The token query then returns exactly the last admissions. */
  lemma RecentIsLast(p: Policy, t: Table, recent: set<nat>)
    requires Inv(p, t) && p.Tokens() && Clocked(p, t) && Answers(p, t, recent)
    ensures recent == LastOnes(|t.log|, p.Window())
  {
    var keys := Stamps(t.log, AdmittedAt);
    TopCount(p, t);
    if p.Times() {
      TimesAreClocked(p, t);
    }
    WindowIsLast(p, t);
    hide IsTop, Inv, LastOnes, All, WithToken, Stamps, HoldsWindow;
    RisingShowsIff(t.kept, keys, p.Window());
    SameTop(t.kept, keys, p.Window(), recent);
    TopIsLast(recent, keys, p.Window());
  }

  /**
  What the gate on the pruned table holds back, said of the full log alone: a
  token among the last `token_window` admissions, a time within the interval
  of the last admission, and nothing else.
  */
  lemma HeldExactly(p: Policy, b: seq<Table>, calls: seq<Call>, k: nat)
    requires IsRun(p, b, calls) && k < |calls| && Clocked(p, b[k])
    ensures var log, r := b[k].log, calls[k].r;
            var gates := FailedGates(p, b[k], calls[k].recent, r);
            && (ByToken in gates <==>
                  (p.mode == TokenGate || p.mode == BothGates) && exists i :: 0 <= i < |log| && |log| - i <= p.tokenWindow && log[i].token == r.token)
            && (ByTime in gates <==>
                  (p.mode == TimeGate || p.mode == BothGates) && log != [] && r.now - Key(log[|log| - 1], AdmittedAt) < p.minInterval)
  {
    hide Inv, Clocked, TokenSeen, TooSoon, LastOnes, IsTop;
    var t, r := b[k], calls[k].r;
    RunInv(p, b, calls, k);
    assert Enabled(p, t, calls[k]);
    if p.Tokens() {
      RecentIsLast(p, t, calls[k].recent);
      SeenIsLast(t.log, p.Window(), r.token);
    }
    if p.Times() {
      SoonIsLast(p, t, r.now);
    }
  }

  lemma SeenIsLast(log: seq<Run>, w: nat, token: Option<string>)
    ensures TokenSeen(log, LastOnes(|log|, w), token) <==> exists i :: 0 <= i < |log| && |log| - i <= w && log[i].token == token
    ensures forall i | i in LastOnes(|log|, w) :: i < |log| && |log| - i <= w
  {
    if i :| 0 <= i < |log| && |log| - i <= w && log[i].token == token {
      assert i in LastOnes(|log|, w);
    }
  }

  lemma SoonIsLast(p: Policy, t: Table, now: int)
    requires Inv(p, t) && p.Times()
    ensures TooSoon(p, t.log, t.kept, now) <==> t.log != [] && now - Key(t.log[|t.log| - 1], AdmittedAt) < p.minInterval
  {
    var keys := Stamps(t.log, AdmittedAt);
    if t.log != [] {
      LastIsKept(p, t);
      assert forall i | 0 <= i < |t.log| :: keys[i] <= keys[|t.log| - 1];
    }
  }

  /** Two admitted runs with one token have at least `token_window` admitted runs between them. */
  ghost predicate TokensSpaced(p: Policy, log: seq<Run>) {
    p.mode == TokenGate || p.mode == BothGates ==> forall i, j | 0 <= i < j < |log| && log[i].token == log[j].token :: j - i - 1 >= p.tokenWindow
  }

  /** Consecutive admissions are at least `min_interval_seconds` apart. */
  ghost predicate TimesSpaced(p: Policy, log: seq<Run>) {
    p.mode == TimeGate || p.mode == BothGates ==> forall i | 0 <= i < |log| - 1 :: Key(log[i + 1], AdmittedAt) - Key(log[i], AdmittedAt) >= p.minInterval
  }

  lemma AdmitSpaced(p: Policy, log: seq<Run>, run: Run)
    requires TokensSpaced(p, log) && TimesSpaced(p, log)
    requires p.Tokens() ==> forall i | 0 <= i < |log| && log[i].token == run.token :: |log| - i > p.tokenWindow
    requires p.Times() && log != [] ==> Key(run, AdmittedAt) - Key(log[|log| - 1], AdmittedAt) >= p.minInterval
    ensures TokensSpaced(p, log + [run]) && TimesSpaced(p, log + [run])
  {
    hide Key;
  }

  /**
  Admissions keep both spacings: over every run in the time modes, and with the
  token gate alone while the admission stamps follow the lock and every table
  holds the last window.
  */
  lemma {:induction false} AdmissionsSpaced(p: Policy, b: seq<Table>, calls: seq<Call>, k: nat)
    requires IsRun(p, b, calls) && k < |b| && forall m | 0 <= m < k :: Clocked(p, b[m])
    ensures TokensSpaced(p, b[k].log) && TimesSpaced(p, b[k].log)
  {
    hide Decide, IsTop, Clocked, FailedGates;
    if k > 0 {
      var t, call := b[k - 1], calls[k - 1];
      AdmissionsSpaced(p, b, calls, k - 1);
      HeldExactly(p, b, calls, k - 1);
      assert Enabled(p, t, call);
      hide Enabled;
      if Decide(p, t, call.recent, call.r).Admitted? {
        AdmittedIsClear(p, t, call);
        AdmitSpaced(p, t.log, AdmittedRun(call.r));
      }
    }
  }

  lemma AdmittedIsClear(p: Policy, t: Table, call: Call)
    requires Decide(p, t, call.recent, call.r).Admitted?
    ensures ValidRequest(p, call.r) && FailedGates(p, t, call.recent, call.r) == []
  {
  }

  // ------------------------------------------------------------- the object

  /** Rows of a table by number, each as the log has it. */
  ghost predicate Holds(rows: map<nat, Run>, log: seq<Run>) {
    forall i | i in rows :: i < |log| && rows[i] == log[i]
  }

  method NewestOf(rows: map<nat, Run>, among: set<nat>, c: Column) returns (best: nat)
    requires among <= rows.Keys && among != {}
    ensures best in among && forall i | i in among :: Key(rows[i], c) <= Key(rows[best], c)
  {
    var left := among;
    best :| best in left;
    left := left - {best};
    while left != {}
      invariant best in among && left <= among
      invariant forall i | i in among && i !in left :: Key(rows[i], c) <= Key(rows[best], c)
      decreases |left|
    {
      var i :| i in left;
      left := left - {i};
      if Key(rows[best], c) < Key(rows[i], c) {
        best := i;
      }
    }
  }

  /** `ORDER BY c DESC LIMIT n`. */
  method Newest(rows: map<nat, Run>, c: Column, n: nat, ghost log: seq<Run>) returns (chosen: set<nat>)
    requires Holds(rows, log)
    ensures Within(rows.Keys, Stamps(log, c)) && IsTop(chosen, rows.Keys, Stamps(log, c), n)
  {
    ghost var keys := Stamps(log, c);
    assert forall i | i in rows :: i < |keys| && keys[i] == Key(rows[i], c);
    hide Stamps, Holds, Key;
    chosen := {};
    var left := rows.Keys;
    while |chosen| < n && left != {}
      invariant left <= rows.Keys && Taking(chosen, left, rows.Keys, keys) && |chosen| <= n
      decreases n - |chosen|
    {
      var best := NewestOf(rows, left, c);
      TakeBest(chosen, left, rows.Keys, keys, best);
      hide Taking;
      chosen, left := chosen + {best}, left - {best};
    }
    TakenAll(chosen, left, rows.Keys, keys, n);
  }

  /** The rows taken so far stand above the rows left. */
  ghost predicate Taking(chosen: set<nat>, left: set<nat>, all: set<nat>, keys: seq<int>) {
    && Within(all, keys) && chosen !! left && chosen + left == all
    && forall x, r | x in chosen && r in left :: keys[r] <= keys[x]
  }

  lemma TakeBest(chosen: set<nat>, left: set<nat>, all: set<nat>, keys: seq<int>, best: nat)
    requires Taking(chosen, left, all, keys) && best in left && forall i | i in left :: i < |keys| && keys[i] <= keys[best]
    ensures Taking(chosen + {best}, left - {best}, all, keys) && |chosen + {best}| == |chosen| + 1
  {
    assert chosen + {best} + (left - {best}) == all;
  }

  lemma TakenAll(chosen: set<nat>, left: set<nat>, all: set<nat>, keys: seq<int>, n: nat)
    requires Taking(chosen, left, all, keys) && |chosen| <= n && (left == {} || |chosen| == n)
    ensures IsTop(chosen, all, keys, n)
  {
    assert |all| == |chosen| + |left|;
  }

  class Gatekeeper {
    const policy: Policy
    var admitted: map<nat, Run>
    var suppressed: map<nat, Run>
    var nextAdmitted: nat
    var nextSuppressed: nat
    ghost var log: seq<Run>
    ghost var refused: seq<Run>

    ghost predicate Valid()
      reads this
    {
      && nextAdmitted == |log| && Holds(admitted, log) && |admitted.Keys| <= policy.AdmittedKeep()
      && nextSuppressed == |refused| && Holds(suppressed, refused) && |suppressed.Keys| <= policy.SuppressedKeep()
    }

    ghost function View(): Table
      reads this
    {
      Table(log, admitted.Keys)
    }

    constructor (policy: Policy)
      ensures Valid() && this.policy == policy && View() == Table([], {})
    {
      this.policy := policy;
      admitted, suppressed, nextAdmitted, nextSuppressed, log, refused := map[], map[], 0, 0, [], [];
    }

    /** A request is decided on the table as it was; what is recorded, and the prune, make one step of the runs. */
    method CreatePolicyRun(r: Request) returns (outcome: Outcome, ghost call: Call)
      requires Valid() && r.now <= r.admittedAt
      modifies this
      ensures Valid() && call.r == r && Enabled(policy, old(View()), call)
      ensures outcome == Decide(policy, old(View()), call.recent, r)
      ensures View() == Table(NewLog(policy, old(View()), call), call.kept)
      ensures refused == if outcome.Held? then old(refused) + [Run(r.token, r.now, None, outcome.gates)] else old(refused)
    {
      hide IsTop, Decide, Stamps, Answers;
      var recent;
      outcome, recent := PassGates(r);
      if outcome.Held? || outcome.Admitted? {
        RecordRun(r, outcome);
        PruneRuns();
      } else {
        TopOfSelf(admitted.Keys, Stamps(log, RequestedAt), policy.AdmittedKeep());
      }
      call := Call(r, recent, admitted.Keys);
    }

    /** What is decided on the table as it is, and the rows of the token query. */
    method PassGates(r: Request) returns (outcome: Outcome, recent: set<nat>)
      requires Valid()
      ensures Answers(policy, View(), recent) && outcome == Decide(policy, View(), recent, r)
    {
      recent := RecentRows();
      var gates := HoldingGates(r, recent);
      outcome := if !ValidRequest(policy, r) then Invalid else if gates != [] then Held(gates)
                 else if !r.jobAccepted then JobRefused else Admitted;
    }

    method RecordRun(r: Request, outcome: Outcome)
      requires Valid() && (outcome.Held? || outcome.Admitted?)
      modifies this
      ensures nextAdmitted == |log| && Holds(admitted, log) && nextSuppressed == |refused| && Holds(suppressed, refused)
      ensures log == if outcome.Admitted? then old(log) + [AdmittedRun(r)] else old(log)
      ensures admitted.Keys == if outcome.Admitted? then old(admitted).Keys + {|old(log)|} else old(admitted).Keys
      ensures refused == if outcome.Held? then old(refused) + [Run(r.token, r.now, None, outcome.gates)] else old(refused)
    {
      if outcome.Held? {
        var row := Run(r.token, r.now, None, outcome.gates);
        suppressed := suppressed[nextSuppressed := row];
        refused, nextSuppressed := refused + [row], nextSuppressed + 1;
      } else {
        admitted := admitted[nextAdmitted := AdmittedRun(r)];
        log, nextAdmitted := log + [AdmittedRun(r)], nextAdmitted + 1;
      }
    }

    method HoldingGates(r: Request, recent: set<nat>) returns (gates: seq<Gate>)
      requires Valid() && recent <= admitted.Keys
      ensures gates == FailedGates(policy, View(), recent, r)
    {
      gates := [];
      if policy.Tokens() && (exists i | i in recent :: i in admitted && admitted[i].token == r.token) {
        gates := gates + [ByToken];
      }
      var soon := LatestTooSoon(r.now);
      if policy.Times() && soon {
        gates := gates + [ByTime];
      }
    }

    /** The token query: the newest admissions that have a token. */
    method RecentRows() returns (recent: set<nat>)
      requires Valid()
      ensures Answers(policy, View(), recent)
    {
      var rows := map i | i in admitted && admitted[i].token.Some? :: admitted[i];
      assert rows.Keys == WithToken(View());
      recent := Newest(rows, AdmittedAt, policy.Window(), log);
    }

    /** The time query: the newest admission, if there is one. */
    method LatestTooSoon(now: int) returns (soon: bool)
      requires Valid()
      ensures soon == TooSoon(policy, log, admitted.Keys, now)
    {
      if admitted.Keys == {} {
        return false;
      }
      var latest := NewestOf(admitted, admitted.Keys, AdmittedAt);
      soon := now - Key(admitted[latest], AdmittedAt) < policy.minInterval;
    }

    /** Keeps, of each kind, the newest requests up to its retention; nothing older than a row dropped is kept. */
    method PruneRuns()
      requires nextAdmitted == |log| && Holds(admitted, log) && nextSuppressed == |refused| && Holds(suppressed, refused)
      modifies `admitted, `suppressed
      ensures Valid()
      ensures Within(old(admitted).Keys, Stamps(log, RequestedAt)) && Within(old(suppressed).Keys, Stamps(refused, RequestedAt))
      ensures IsTop(admitted.Keys, old(admitted).Keys, Stamps(log, RequestedAt), policy.AdmittedKeep())
      ensures IsTop(suppressed.Keys, old(suppressed).Keys, Stamps(refused, RequestedAt), policy.SuppressedKeep())
      ensures |suppressed.Keys| == Min(|old(suppressed).Keys|, Max(1, policy.suppressedRuns))
      ensures |admitted.Keys| == Min(|old(admitted).Keys|, Max(1, Max(policy.admittedRuns, policy.tokenWindow)))
    {
      var kept := Newest(admitted, RequestedAt, policy.AdmittedKeep(), log);
      var held := Newest(suppressed, RequestedAt, policy.SuppressedKeep(), refused);
      admitted := map i | i in admitted && i in kept :: admitted[i];
      suppressed := map i | i in suppressed && i in held :: suppressed[i];
      assert admitted.Keys == kept && suppressed.Keys == held;
    }
  }

  // -------------------------------------------------------------- instance

  const ONE_TOKEN := Policy(TokenGate, 1, 0, 1, 1)

  function Asks(token: string, now: int, at: int): Request { Request(Some(token), now, true, at) }

  /** Two requests read one stamp before the lock; the prune drops the later admission, and its token is admitted again at once. */
  const RUN: seq<Table> :=
    [Table([], {}),
     Table([AdmittedRun(Asks("x", 0, 0))], {0}),
     Table([AdmittedRun(Asks("x", 0, 0)), AdmittedRun(Asks("y", 0, 1))], {0}),
     Table([AdmittedRun(Asks("x", 0, 0)), AdmittedRun(Asks("y", 0, 1)), AdmittedRun(Asks("y", 2, 2))], {2})]

  const CALLS: seq<Call> :=
    [Call(Asks("x", 0, 0), {}, {0}), Call(Asks("y", 0, 1), {0}, {0}), Call(Asks("y", 2, 2), {0}, {2})]

  lemma OneCall(t: Table, call: Call)
    requires call.r.token.Some? && call.r.token.value != "" && call.r.jobAccepted && call.r.now <= call.r.admittedAt
    requires forall i | i in t.kept :: i < |t.log| && t.log[i].token.Some? && t.log[i].token != call.r.token
    requires call.recent == t.kept && |t.kept| <= 1 && |t.log| !in t.kept
    requires |call.kept| == 1 && call.kept <= t.kept + {|t.log|}
    requires forall i, j | i in t.kept && j in call.kept && i !in call.kept :: j == |t.log| && t.log[i].requestedAt <= call.r.now
    requires |t.log| !in call.kept ==> forall i | i in call.kept :: i in t.kept && call.r.now <= t.log[i].requestedAt
    ensures Enabled(ONE_TOKEN, t, call) && NewLog(ONE_TOKEN, t, call) == t.log + [AdmittedRun(call.r)]
  {
    assert WithToken(t) == t.kept;
    assert Decide(ONE_TOKEN, t, call.recent, call.r) == Admitted;
    StampsGrow(t.log, AdmittedRun(call.r), RequestedAt);
    assert |t.kept + {|t.log|}| == |t.kept| + 1;
  }

  lemma TokenReadmitted()
    ensures IsRun(ONE_TOKEN, RUN, CALLS) && !TokensSpaced(ONE_TOKEN, RUN[3].log)
    ensures Ascending(Stamps(RUN[3].log, AdmittedAt)) && !HoldsWindow(ONE_TOKEN, RUN[2]) && !InLine(ONE_TOKEN, RUN[2].log)
  {
    hide Enabled, NewLog, InLine;
    Calls();
    forall k | 0 <= k < 3
      ensures Enabled(ONE_TOKEN, RUN[k], CALLS[k]) && RUN[k + 1] == Table(NewLog(ONE_TOKEN, RUN[k], CALLS[k]), CALLS[k].kept)
    {
    }
    assert RUN[3].log[1].token == RUN[3].log[2].token;
    assert 1 in LastOnes(2, 1);
    OutOfLine();
  }

  lemma Calls()
    ensures forall k | 0 <= k < 3 :: Enabled(ONE_TOKEN, RUN[k], CALLS[k]) && RUN[k + 1] == Table(NewLog(ONE_TOKEN, RUN[k], CALLS[k]), CALLS[k].kept)
  {
    hide Enabled, NewLog;
    FirstCall();
    SecondCall();
    ThirdCall();
  }

  lemma FirstCall()
    ensures Enabled(ONE_TOKEN, RUN[0], CALLS[0]) && RUN[1] == Table(NewLog(ONE_TOKEN, RUN[0], CALLS[0]), CALLS[0].kept)
  {
    hide Enabled, NewLog;
    OneCall(RUN[0], CALLS[0]);
    assert RUN[0].log + [AdmittedRun(CALLS[0].r)] == RUN[1].log;
  }

  lemma SecondCall()
    ensures Enabled(ONE_TOKEN, RUN[1], CALLS[1]) && RUN[2] == Table(NewLog(ONE_TOKEN, RUN[1], CALLS[1]), CALLS[1].kept)
  {
    hide Enabled, NewLog;
    OneCall(RUN[1], CALLS[1]);
    assert RUN[1].log + [AdmittedRun(CALLS[1].r)] == RUN[2].log;
  }

  lemma ThirdCall()
    ensures Enabled(ONE_TOKEN, RUN[2], CALLS[2]) && RUN[3] == Table(NewLog(ONE_TOKEN, RUN[2], CALLS[2]), CALLS[2].kept)
  {
    hide Enabled, NewLog;
    OneCall(RUN[2], CALLS[2]);
    assert RUN[2].log + [AdmittedRun(CALLS[2].r)] == RUN[3].log;
  }

  lemma OutOfLine()
    ensures !InLine(ONE_TOKEN, RUN[2].log)
  {
    var req, adm := Stamps(RUN[2].log, RequestedAt), Stamps(RUN[2].log, AdmittedAt);
    assert req == [0, 0] && adm == [0, 1];
    assert NotBelow(req, 1) == {0} && Above(adm, 1) == {};
  }
}
