/**
A session's reminder told by the steps of a run alone: for whom it is tracked,
when its cycle began, and which stages a poll fires, in seconds.
*/
module RemindHistory {
  import opened Basics
  import opened Options
  import opened RemindCycle

  // ----------------------------------------------------- who is waiting for it

  /** The sessions a registration is tracked for, and whether a reply leaves it in force. */
  datatype Terms = Terms(owners: set<string>, persistent: bool)

  function Named(owner: string): set<string> {
    if owner == "" then {} else {owner}
  }

  /** A tracked session that is found dead loses its registration. */
  function Buried(terms: Option<Terms>, alive: bool): Option<Terms> {
    if terms.Some? && terms.value.owners != {} && !alive then None else terms
  }

  /** The terms after the first k steps; none when nothing is registered. */
  function TermsTold(steps: seq<Step>, k: nat): Option<Terms>
    requires k <= |steps|
    decreases k
  {
    if k == 0 then None
    else
      var before := TermsTold(steps, k - 1);
      match steps[k - 1]
      case Registers(_, _, owner, persistent, merge, _) =>
        if merge && before.Some? then Some(Terms(before.value.owners + Named(owner), before.value.persistent || persistent))
        else Some(Terms(Named(owner), persistent))
      case Cancels => None
      case Replies(recipient, _) =>
        if before.None? || before.value.persistent || recipient !in before.value.owners then before
        else if before.value.owners - {recipient} == {} then None
        else Some(before.value.(owners := before.value.owners - {recipient}))
      case Ticks(alive, _, _, _) => Buried(before, alive)
      case Restarts(alive) => Buried(before, alive)
      case Crashes(_, _, _, _, alive) => Buried(before, alive)
      case _ => before
  }

  ghost predicate HasTerms(s: Remind, terms: Option<Terms>) {
    && (s.reg.Some? <==> terms.Some?)
    && (s.reg.Some? ==> s.reg.value.owners == terms.value.owners && s.reg.value.persistent == terms.value.persistent)
  }

  lemma {:induction false} FireKeepsTerms(s: Remind, stages: seq<Stage>, resetAt: real)
    requires s.reg.Some?
    ensures var t := FireAll(s, stages, resetAt).reg.value;
            && t.owners == s.reg.value.owners && t.persistent == s.reg.value.persistent
            && t.soft == s.reg.value.soft && t.hard == s.reg.value.hard
            && t.lastReset == if Hard in stages then resetAt else s.reg.value.lastReset
    decreases stages
  {
    if stages != [] {
      FireKeepsTerms(Fire(s, stages[0], resetAt), stages[1..], resetAt);
      assert stages == [stages[0]] + stages[1..];
    }
  }

  /** What is left of a poll that dies is the stages done, whatever was only queued. */
  function Done(s: Remind, now: real, done: nat): seq<Stage>
    requires s.reg.Some?
  {
    var fired := Fired(s.reg.value, now - s.reg.value.lastReset);
    if done >= |fired| then fired else fired[..done]
  }

  lemma CrashIs(s: Remind, step: Step)
    requires Agrees(s) && s.reg.Some? && step.Crashes?
    ensures var reg := FireAll(s, Done(s, step.now, step.done), step.resetAt).reg.value;
            Apply(s, step).reg == if reg.owners != {} && !step.alive then None else Some(reg)
  {
    hide Fired, FireAll, Update, Loaded;
    CutAgrees(s, step.now, step.resetAt, step.done, step.torn);
  }

  lemma TermsMove(s: Remind, steps: seq<Step>, k: nat)
    requires 0 < k <= |steps| && Agrees(s) && HasTerms(s, TermsTold(steps, k - 1))
    ensures HasTerms(Apply(s, steps[k - 1]), TermsTold(steps, k))
  {
    var step := steps[k - 1];
    if s.reg.Some? && step.Ticks? {
      FireKeepsTerms(s, Fired(s.reg.value, step.now - s.reg.value.lastReset), step.resetAt);
    }
    if s.reg.Some? && step.Crashes? {
      CrashIs(s, step);
      FireKeepsTerms(s, Done(s, step.now, step.done), step.resetAt);
      hide Apply, Done;
    }
    if s.reg.Some? && step.Replies? {
      var owners := s.reg.value.owners;
      assert owners - {step.recipient} == {} && step.recipient in owners <==> owners == {step.recipient};
    }
    hide FireAll, Fired, Update, CutOff;
  }

  /** In every run a registration is in force, and with which owners, exactly as the steps tell. */
  lemma {:induction false} TermsTellHistory(b: seq<Remind>, steps: seq<Step>, k: nat)
    requires IsRun(b, steps) && k < |b|
    ensures HasTerms(b[k], TermsTold(steps, k))
  {
    if k > 0 {
      hide HasTerms, Apply, TermsTold;
      TermsTellHistory(b, steps, k - 1);
      MemoryIsTable(b, steps, k - 1);
      TermsMove(b[k - 1], steps, k);
    } else {
      NoTerms(steps);
    }
  }

  lemma NoTerms(steps: seq<Step>)
    ensures HasTerms(START, TermsTold(steps, 0))
  {
  }

  // ------------------------------------------------------------ the cycle

  /** What a poll finds due, by the stages already in the cycle and the seconds since it began. */
  predicate NudgeNow(s: Remind, elapsed: real)
    requires s.reg.Some?
  {
    var soft := s.reg.value.soft;
    && s.reg.value.owners != {} && Nudge !in s.current && Soft !in s.current
    && soft > 5 && elapsed >= (soft - Min(60, soft / 2)) as real
  }

  predicate SoftNow(s: Remind, elapsed: real)
    requires s.reg.Some?
  {
    Soft !in s.current && elapsed >= s.reg.value.soft as real
  }

  predicate HardNow(s: Remind, elapsed: real)
    requires s.reg.Some?
  {
    elapsed >= s.reg.value.hard as real
  }

  lemma DueNow(s: Remind, elapsed: real)
    requires Inv(s, false) && s.reg.Some?
    ensures Fired(s.reg.value, elapsed) == Stages(NudgeNow(s, elapsed), SoftNow(s, elapsed), HardNow(s, elapsed))
  {
    StagesInTurn(s.reg.value.nudged, s.reg.value.softFired, false);
    hide Stages, InTurn;
    assert Nudge in s.current <==> s.reg.value.nudged;
    assert Soft in s.current <==> s.reg.value.softFired;
  }

  lemma StagesAdd(current: seq<Stage>, nudge: bool, soft: bool, hard: bool)
    ensures var cycle := current + (if nudge then [Nudge] else []) + (if soft then [Soft] else []);
            current + Stages(nudge, soft, hard) == if hard then cycle + [Hard] else cycle
    ensures Hard in Stages(nudge, soft, hard) <==> hard
  {
    StagesInTurn(nudge, soft, hard);
  }

  /**
  In every run without a torn stage, a poll of a live, uncompacted session adds
  to its cycle exactly the stages due: a nudge for a tracked one some seconds
  before soft, soft at its threshold, hard at its own, and hard closes the cycle.
  */
  lemma PollTold(b: seq<Remind>, steps: seq<Step>, k: nat, now: real, resetAt: real)
    requires IsRun(b, steps) && k < |b| && Untorn(b, steps, k) && b[k].reg.Some?
    ensures var s := b[k];
            var elapsed := now - s.reg.value.lastReset;
            var cycle := s.current + (if NudgeNow(s, elapsed) then [Nudge] else []) + (if SoftNow(s, elapsed) then [Soft] else []);
            var t := Tick(s, true, false, now, resetAt);
            if HardNow(s, elapsed) then t.past == s.past + [cycle + [Hard]] && t.current == []
            else t.past == s.past && t.current == cycle
  {
    hide *;
    var s := b[k];
    var elapsed := now - s.reg.value.lastReset;
    RunInv(b, steps, k, false);
    DueNow(s, elapsed);
    StagesAdd(s.current, NudgeNow(s, elapsed), SoftNow(s, elapsed), HardNow(s, elapsed));
    PollCycle(s, now, resetAt);
  }

  /** A poll that finds a tracked session dead, or any session compacting, fires nothing. */
  lemma QuietPoll(b: seq<Remind>, steps: seq<Step>, k: nat, alive: bool, compacting: bool, now: real, resetAt: real)
    requires IsRun(b, steps) && k < |b| && b[k].reg.Some? && (compacting || (b[k].reg.value.owners != {} && !alive))
    ensures var t := Tick(b[k], alive, compacting, now, resetAt);
            && t.past == b[k].past && t.current == b[k].current
            && t.reg == if b[k].reg.value.owners != {} && !alive then None else b[k].reg
  {
  }

  /** The stages one poll has done before it dies. */
  ghost function Reached(s: Remind, now: real, done: nat): bool
    requires s.reg.Some?
  {
    var elapsed := now - s.reg.value.lastReset;
    HardNow(s, elapsed) && done > (if NudgeNow(s, elapsed) then 1 else 0) + (if SoftNow(s, elapsed) then 1 else 0)
  }

  /** When the cycle in force began: at a registration, at a reset or refresh that is not refused, or when hard last fired. */
  ghost function CycleStart(b: seq<Remind>, steps: seq<Step>, k: nat): real
    requires k <= |steps| < |b|
    decreases k
  {
    if k == 0 then 0.0
    else
      var before, terms, s := CycleStart(b, steps, k - 1), TermsTold(steps, k - 1), b[k - 1];
      match steps[k - 1]
      case Registers(_, _, _, _, _, now) => now
      case Resets(force, now) => if terms.Some? && (terms.value.owners == {} || force || terms.value.persistent) then now else before
      case Refreshes(owner, now) => if terms.Some? && terms.value.persistent && owner in terms.value.owners then now else before
      case Replies(recipient, now) => if terms.Some? && terms.value.persistent && recipient in terms.value.owners then now else before
      case Ticks(alive, compacting, now, resetAt) =>
        if s.reg.Some? && Buried(terms, alive).Some? && !compacting && HardNow(s, now - before) then resetAt else before
      case Crashes(now, resetAt, done, _, _) => if s.reg.Some? && Reached(s, now, done) then resetAt else before
      case _ => before
  }

  lemma StartMoves(b: seq<Remind>, steps: seq<Step>, k: nat)
    requires IsRun(b, steps) && 0 < k < |b| && Untorn(b, steps, k - 1)
    requires b[k - 1].reg.Some? ==> b[k - 1].reg.value.lastReset == CycleStart(b, steps, k - 1)
    ensures b[k].reg.Some? ==> b[k].reg.value.lastReset == CycleStart(b, steps, k)
  {
    var s, step := b[k - 1], steps[k - 1];
    TermsTellHistory(b, steps, k - 1);
    MemoryIsTable(b, steps, k - 1);
    RunInv(b, steps, k - 1, false);
    assert b[k] == Apply(s, step);
    if s.reg.Some? && (step.Ticks? || step.Crashes?) {
      if b[k].reg.Some? {
        PollMoves(s, step);
      }
      assert HasTerms(s, TermsTold(steps, k - 1));
      hide Apply, Inv, TermsTold;
    } else {
      hide Inv, Fired, FireAll, Update, CutOff, TermsTold;
    }
  }

  /** What a poll, whole or cut off, does to the start of the cycle. */
  lemma PollMoves(s: Remind, step: Step)
    requires Agrees(s) && Inv(s, false) && s.reg.Some? && (step.Ticks? || step.Crashes?) && Apply(s, step).reg.Some?
    ensures var elapsed := step.now - s.reg.value.lastReset;
            Apply(s, step).reg.value.lastReset ==
            if (if step.Ticks? then !step.compacting && HardNow(s, elapsed) else Reached(s, step.now, step.done)) then step.resetAt
            else s.reg.value.lastReset
    ensures step.Ticks? ==> s.reg.value.owners == {} || step.alive
  {
    hide *;
    if step.Ticks? {
      TickMoves(s, step);
    } else {
      CrashMoves(s, step);
    }
  }

  lemma TickMoves(s: Remind, step: Step)
    requires Inv(s, false) && s.reg.Some? && step.Ticks? && Apply(s, step).reg.Some?
    ensures Apply(s, step).reg.value.lastReset ==
            if !step.compacting && HardNow(s, step.now - s.reg.value.lastReset) then step.resetAt else s.reg.value.lastReset
    ensures s.reg.value.owners == {} || step.alive
  {
    hide Inv, FireAll, Fired, InTurn, NudgeNow, SoftNow, HardNow, Update, Stages;
    var elapsed := step.now - s.reg.value.lastReset;
    DueNow(s, elapsed);
    StagesAdd([], NudgeNow(s, elapsed), SoftNow(s, elapsed), HardNow(s, elapsed));
    FireKeepsTerms(s, Fired(s.reg.value, elapsed), step.resetAt);
  }

  lemma CrashMoves(s: Remind, step: Step)
    requires Agrees(s) && Inv(s, false) && s.reg.Some? && step.Crashes? && Apply(s, step).reg.Some?
    ensures Apply(s, step).reg.value.lastReset == if Reached(s, step.now, step.done) then step.resetAt else s.reg.value.lastReset
  {
    hide Inv, Apply, FireAll, Fired, InTurn, NudgeNow, SoftNow, HardNow, Update, Stages;
    var elapsed := step.now - s.reg.value.lastReset;
    DueNow(s, elapsed);
    CrashIs(s, step);
    FireKeepsTerms(s, Done(s, step.now, step.done), step.resetAt);
    HardLast(NudgeNow(s, elapsed), SoftNow(s, elapsed), HardNow(s, elapsed), step.done);
  }

  lemma HardLast(nudge: bool, soft: bool, hard: bool, done: nat)
    ensures var stages := Stages(nudge, soft, hard);
            Hard in (if done >= |stages| then stages else stages[..done]) <==>
            hard && done > (if nudge then 1 else 0) + (if soft then 1 else 0)
  {
    var stages := Stages(nudge, soft, hard);
    StagesInTurn(nudge, soft, hard);
    if done < |stages| {
      assert forall i | 0 <= i < done :: stages[..done][i] == stages[i];
    }
  }

  /** In every run without a torn stage the time since the last reset is the time since the cycle told by the steps began. */
  lemma {:induction false} StartTellsHistory(b: seq<Remind>, steps: seq<Step>, k: nat)
    requires IsRun(b, steps) && k < |b| && Untorn(b, steps, k)
    ensures b[k].reg.Some? ==> b[k].reg.value.lastReset == CycleStart(b, steps, k)
  {
    if k > 0 {
      hide Apply, CycleStart;
      StartTellsHistory(b, steps, k - 1);
      StartMoves(b, steps, k);
    }
  }

  /** A reset that is not refused empties the cycle, and no stage fires before its threshold has passed since then. */
  lemma ResetRestarts(b: seq<Remind>, steps: seq<Step>, k: nat, now: real, resetAt: real)
    requires IsRun(b, steps) && k < |steps| && Untorn(b, steps, k) && steps[k].Resets? && b[k].reg.Some?
    requires b[k].reg.value.owners == {} || steps[k].force || b[k].reg.value.persistent
    ensures b[k + 1].reg.Some? && b[k + 1].current == [] && b[k + 1].past == b[k].past + [b[k].current]
    ensures var soft, hard := b[k].reg.value.soft, b[k].reg.value.hard;
            var t := Tick(b[k + 1], true, false, now, resetAt);
            var elapsed := now - steps[k].now;
            && (t.past != b[k + 1].past <==> elapsed >= hard as real)
            && (elapsed < hard as real ==> (Soft in t.current <==> elapsed >= soft as real))
  {
    var s, t := b[k], b[k + 1];
    assert t == Apply(s, steps[k]);
    assert t.current == [] && t.reg == Some(Rewound(s.reg.value, steps[k].now));
    hide Apply;
    PollTold(b, steps, k + 1, now, resetAt);
  }
}
