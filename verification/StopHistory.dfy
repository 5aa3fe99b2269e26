/**
A session's stop notifications told by the steps of a run: which step set each
thing the session remembers, and that nothing undid it since.
*/
module StopHistory {
  import opened Basics
  import opened Options
  import opened StopNotify

  // ------------------------------------------------------------ what happens

  /** A stop hook that a requested handoff takes over. */
  predicate TakenOver(s: Delivery, step: Step) {
    step.Idle? && step.fromHook && s.handoff
  }

  /** A stop hook within the window of a fence that has slots left. */
  predicate Fenced(s: Delivery, config: Config, step: Step) {
    && step.Idle? && step.fromHook && !s.handoff && s.skip > 0
    && s.fenceAt.Some? && step.now - s.fenceAt.value < config.fenceWindow
  }

  /** The turn is over. */
  predicate Over(s: Delivery, config: Config, step: Step) {
    step.Idle? && !TakenOver(s, step) && !Fenced(s, config, step)
  }

  /** The session wrote to whoever is armed less than thirty seconds ago. */
  predicate Hushed(s: Delivery, now: real) {
    s.armed.Some? && s.outgoing.Some? && s.outgoing.value.target == s.armed.value.sender && now - s.outgoing.value.at < 30.0
  }

  /** A delay is over while the session is idle and still armed for the same sender with the same delay. */
  predicate Rings(s: Delivery, step: Step) {
    && step.Fire? && s.task.Some? && s.isIdle && s.armed.Some?
    && s.armed.value.sender == s.task.value.mark.sender && s.delay == s.task.value.delay
  }

  /** Arms at once: an arming that names someone, an urgent message, or a message pasted at idle. */
  predicate Arms(s: Delivery, step: Step) {
    (step.Arm? && step.sender != "") || step.UrgentNotify? || (step.Notify? && s.pasting == Some(true))
  }

  /** Stages: a message pasted while a turn is under way. */
  predicate StagesFor(s: Delivery, step: Step) {
    step.Notify? && s.pasting == Some(false)
  }

  /** The session turns to new work, which undoes a delayed arming. */
  predicate Wakes(s: Delivery, step: Step) {
    (step.Active? || step.Pasted?) && s.delay > 0.0
  }

  // ---------------------------------------------------- one step, field by field

  lemma FlagsMove(s: Delivery, config: Config, step: Step)
    requires Enabled(s, step)
    ensures var t := Apply(s, config, step);
            && (t.isIdle <==>
                  if Over(s, config, step) || step.SetIdle? then true
                  else if step.Active? || step.Pasted? || TakenOver(s, step) then false else s.isIdle)
            && (t.handoff <==> if step.RequestHandoff? then true else if step.Idle? && step.fromHook then false else s.handoff)
            && t.pasting == (if step.Begin? then Some(s.isIdle) else if step.End? then None else s.pasting)
            && t.armings == s.armings + (if step.Arm? || step.Notify? || step.UrgentNotify? then 1 else 0)
  {
    if Over(s, config, step) {
      EndTurnRest(s, config, step.fromHook, step.now);
      hide EndTurn;
    }
  }

  lemma FenceMoves(s: Delivery, config: Config, step: Step)
    requires Enabled(s, step)
    ensures var t := Apply(s, config, step);
            && t.skip == (match step
                          case Clear(slots, _) => s.skip + slots
                          case HandoffFence(_) => s.skip + 1
                          case Idle(fromHook, _) => if Fenced(s, config, step) then s.skip - 1 else if Over(s, config, step) && fromHook then 0 else s.skip
                          case _ => s.skip)
            && t.fenceAt == (match step
                             case Clear(slots, now) => if slots > 0 then Some(now) else s.fenceAt
                             case HandoffFence(now) => Some(now)
                             case Idle(fromHook, _) =>
                               if Fenced(s, config, step) then (if s.skip > 1 then s.fenceAt else None)
                               else if Over(s, config, step) && fromHook && s.skip > 0 then None else s.fenceAt
                             case _ => s.fenceAt)
  {
    if Over(s, config, step) {
      FencedRest(s, config, step.fromHook, step.now);
      hide EndTurn;
    }
  }

  lemma FencedRest(s: Delivery, config: Config, fromHook: bool, now: real)
    ensures var t := EndTurn(s, config, fromHook, now);
            if fromHook && s.skip > 0 then t.skip == 0 && t.fenceAt == None else t.skip == s.skip && t.fenceAt == s.fenceAt
  {
  }

  lemma OutgoingMoves(s: Delivery, config: Config, step: Step)
    requires Enabled(s, step)
    ensures Apply(s, config, step).outgoing ==
            if step.Sends? then Some(Outgoing(step.target, step.at))
            else if step.Clear? || step.HandoffFence? then None
            else if (Over(s, config, step) || Rings(s, step)) && Hushed(s, step.now) then None
            else s.outgoing
  {
    hide EndTurn;
    if Over(s, config, step) {
      EndTurnForgets(s, config, step.fromHook, step.now);
    }
  }

  lemma EndTurnForgets(s: Delivery, config: Config, fromHook: bool, now: real)
    ensures EndTurn(s, config, fromHook, now).outgoing == if Hushed(s, now) then None else s.outgoing
  {
  }

  lemma StagedMoves(s: Delivery, config: Config, step: Step)
    requires Enabled(s, step)
    ensures Apply(s, config, step).staged ==
            if StagesFor(s, step) then Some(Mark(s.armings, step.sender)) else if Over(s, config, step) then None else s.staged
  {
    hide EndTurn;
    if Over(s, config, step) {
      EndTurnMarks(s, config, step.fromHook, step.now);
    }
  }

  lemma ArmedMoves(s: Delivery, config: Config, step: Step)
    requires Enabled(s, step)
    ensures Apply(s, config, step).armed ==
            if Arms(s, step) then Some(Mark(s.armings, step.sender))
            else if step.Arm? || step.Clear? || step.HandoffFence? || Wakes(s, step) || Rings(s, step) then None
            else if Over(s, config, step) then
              if config.codexFork then None
              else if s.staged.Some? then s.staged
              else if s.armed.Some? && s.delay > 0.0 && !Hushed(s, step.now) then s.armed
              else None
            else s.armed
  {
    hide EndTurn;
    if Over(s, config, step) {
      EndTurnMarks(s, config, step.fromHook, step.now);
    }
  }

  lemma DelayMoves(s: Delivery, config: Config, step: Step)
    requires Enabled(s, step)
    ensures Apply(s, config, step).delay ==
            if step.Arm? then (if step.seconds > 0.0 then step.seconds else 0.0)
            else if Arms(s, step) || step.HandoffFence? || Wakes(s, step) || Rings(s, step) then 0.0
            else if Over(s, config, step) && (config.codexFork || s.staged.Some? || (s.armed.Some? && (s.delay <= 0.0 || Hushed(s, step.now)))) then 0.0
            else s.delay
  {
    hide EndTurn;
    if Over(s, config, step) {
      EndTurnDelay(s, config, step.fromHook, step.now);
    }
  }

  lemma EndTurnDelay(s: Delivery, config: Config, fromHook: bool, now: real)
    ensures EndTurn(s, config, fromHook, now).delay ==
            if config.codexFork || s.staged.Some? || (s.armed.Some? && (s.delay <= 0.0 || Hushed(s, now))) then 0.0 else s.delay
  {
  }

  lemma TaskMovesTold(s: Delivery, config: Config, step: Step)
    requires Enabled(s, step)
    ensures Apply(s, config, step).task ==
            if step.Active? || step.Arm? || step.Notify? || step.UrgentNotify? || step.HandoffFence? || step.Fire? || Wakes(s, step) then None
            else if Over(s, config, step) then
              if config.codexFork then None
              else if s.armed.Some? && s.delay > 0.0 && !Hushed(s, step.now) then Some(Task(s.armed.value, s.delay))
              else s.task
            else s.task
  {
    hide EndTurn;
    if Over(s, config, step) {
      EndTurnMarks(s, config, step.fromHook, step.now);
    }
  }

  lemma SentMoves(s: Delivery, config: Config, step: Step)
    requires Enabled(s, step)
    ensures Apply(s, config, step).sent ==
            if Over(s, config, step) && !config.codexFork && s.armed.Some? && s.delay <= 0.0 && !Hushed(s, step.now) then s.sent + [s.armed.value]
            else if Rings(s, step) && !Hushed(s, step.now) then s.sent + [s.task.value.mark]
            else s.sent
  {
    hide EndTurn;
    if Over(s, config, step) {
      EndTurnMarks(s, config, step.fromHook, step.now);
    }
  }

  // ---------------------------------------------------------- who set what

  /** The step of a run, where it was taken. */
  lemma Taken(b: seq<Delivery>, config: Config, steps: seq<Step>, k: nat)
    requires IsRun(b, config, steps) && k < |steps|
    ensures |b| == |steps| + 1 && Enabled(b[k], steps[k]) && b[k + 1] == Apply(b[k], config, steps[k])
  {
  }

  ghost predicate SetsIdle(b: seq<Delivery>, config: Config, steps: seq<Step>, m: int, k: nat)
    requires k <= |steps| < |b|
  {
    && 0 <= m < k && (Over(b[m], config, steps[m]) || steps[m].SetIdle?)
    && forall j | m < j < k :: !steps[j].Active? && !steps[j].Pasted? && !TakenOver(b[j], steps[j])
  }

  /** In every run the session counts as idle exactly when a turn ended, or idleness was recovered, and it was not put to work or handed over since. */
  lemma {:induction false} IdleTold(b: seq<Delivery>, config: Config, steps: seq<Step>, k: nat)
    requires IsRun(b, config, steps) && k < |b|
    ensures b[k].isIdle <==> exists m :: SetsIdle(b, config, steps, m, k)
  {
    hide Apply, Over, TakenOver;
    if k > 0 {
      var n := k - 1;
      IdleTold(b, config, steps, n);
      Taken(b, config, steps, n);
      FlagsMove(b[n], config, steps[n]);
      OverIsIdle(b[n], config, steps[n]);
      if m :| SetsIdle(b, config, steps, m, n) {
        assert !(steps[n].Active? || steps[n].Pasted? || TakenOver(b[n], steps[n])) ==> SetsIdle(b, config, steps, m, k);
      }
      if m :| SetsIdle(b, config, steps, m, k) {
        assert m < n ==> SetsIdle(b, config, steps, m, n);
      }
      if Over(b[n], config, steps[n]) || steps[n].SetIdle? {
        assert SetsIdle(b, config, steps, n, k);
      }
    }
  }

  lemma OverIsIdle(s: Delivery, config: Config, step: Step)
    ensures Over(s, config, step) ==> step.Idle? && !TakenOver(s, step)
  {
  }

  ghost predicate AsksHandoff(steps: seq<Step>, m: int, k: nat)
    requires k <= |steps|
  {
    0 <= m < k && steps[m].RequestHandoff? && forall j | m < j < k :: !(steps[j].Idle? && steps[j].fromHook)
  }

  /** In every run a handoff is due exactly when one was requested and no stop hook came since. */
  lemma {:induction false} HandoffTold(b: seq<Delivery>, config: Config, steps: seq<Step>, k: nat)
    requires IsRun(b, config, steps) && k < |b|
    ensures b[k].handoff <==> exists m :: AsksHandoff(steps, m, k)
  {
    hide Apply, Over, TakenOver;
    if k > 0 {
      var n := k - 1;
      HandoffTold(b, config, steps, n);
      Taken(b, config, steps, n);
      FlagsMove(b[n], config, steps[n]);
      if m :| AsksHandoff(steps, m, n) {
        assert !(steps[n].Idle? && steps[n].fromHook) ==> AsksHandoff(steps, m, k);
      }
      if m :| AsksHandoff(steps, m, k) {
        assert m < n ==> AsksHandoff(steps, m, n);
      }
      if steps[n].RequestHandoff? {
        assert AsksHandoff(steps, n, k);
      }
    }
  }

  ghost predicate BeginsAt(steps: seq<Step>, m: int, k: nat)
    requires k <= |steps|
  {
    0 <= m < k && steps[m].Begin? && forall j | m < j < k :: !steps[j].End?
  }

  /** In every run a delivery under way remembers whether the session was idle when it began. */
  lemma {:induction false} PastingTold(b: seq<Delivery>, config: Config, steps: seq<Step>, k: nat)
    requires IsRun(b, config, steps) && k < |b|
    ensures b[k].pasting.Some? <==> exists m :: BeginsAt(steps, m, k)
    ensures forall m | BeginsAt(steps, m, k) :: b[k].pasting == Some(b[m].isIdle)
  {
    hide Apply, Over, TakenOver;
    if k > 0 {
      var n := k - 1;
      PastingTold(b, config, steps, n);
      Taken(b, config, steps, n);
      FlagsMove(b[n], config, steps[n]);
      forall m | BeginsAt(steps, m, k) ensures b[k].pasting == Some(b[m].isIdle) {
        if m < n {
          assert BeginsAt(steps, m, n);
        }
      }
      if m :| BeginsAt(steps, m, n) {
        assert !steps[n].End? ==> BeginsAt(steps, m, k);
      }
      if steps[n].Begin? {
        assert BeginsAt(steps, n, k);
      }
    }
  }

  // ----------------------------------------------------------- the marks

  /** Arming number `number` was made at step m, for that step's sender. */
  ghost predicate MadeAt(b: seq<Delivery>, steps: seq<Step>, m: int, k: nat, mark: Mark)
    requires k <= |steps| < |b|
  {
    && 0 <= m < k && (steps[m].Arm? || steps[m].Notify? || steps[m].UrgentNotify?)
    && b[m].armings == mark.number && steps[m].sender == mark.sender
  }

  ghost predicate Made(b: seq<Delivery>, steps: seq<Step>, k: nat, mark: Mark)
    requires k <= |steps| < |b|
  {
    exists m :: MadeAt(b, steps, m, k, mark)
  }

  /** Every mark the session holds or has sent was made by a step. */
  ghost predicate AllMade(b: seq<Delivery>, steps: seq<Step>, k: nat)
    requires k <= |steps| < |b|
  {
    && (b[k].armed.Some? ==> Made(b, steps, k, b[k].armed.value))
    && (b[k].staged.Some? ==> Made(b, steps, k, b[k].staged.value))
    && (b[k].task.Some? ==> Made(b, steps, k, b[k].task.value.mark))
    && (forall i | 0 <= i < |b[k].sent| :: Made(b, steps, k, b[k].sent[i]))
  }

  lemma StillMade(b: seq<Delivery>, steps: seq<Step>, k: nat, mark: Mark)
    requires k < |steps| < |b| && Made(b, steps, k, mark)
    ensures Made(b, steps, k + 1, mark)
  {
    var m :| MadeAt(b, steps, m, k, mark);
    assert MadeAt(b, steps, m, k + 1, mark);
  }

  /**
  In every run whoever is armed, staged, waited for or has been notified is the
  sender of the very step that made that arming.
  */
  lemma {:induction false} MarksTold(b: seq<Delivery>, config: Config, steps: seq<Step>, k: nat)
    requires IsRun(b, config, steps) && k < |b|
    ensures AllMade(b, steps, k)
  {
    if k > 0 {
      var n := k - 1;
      MarksTold(b, config, steps, n);
      Taken(b, config, steps, n);
      NewMarks(b[n], config, steps[n]);
      hide Apply, Made, IsRun;
      var s, t := b[n], b[k];
      if s.armed.Some? { StillMade(b, steps, n, s.armed.value); }
      if s.staged.Some? { StillMade(b, steps, n, s.staged.value); }
      if s.task.Some? { StillMade(b, steps, n, s.task.value.mark); }
      forall i | 0 <= i < |s.sent| ensures Made(b, steps, k, s.sent[i]) { StillMade(b, steps, n, s.sent[i]); }
      if steps[n].Arm? || steps[n].Notify? || steps[n].UrgentNotify? {
        NewlyMade(b, steps, n);
      }
    }
  }

  lemma NewlyMade(b: seq<Delivery>, steps: seq<Step>, n: nat)
    requires n < |steps| < |b| && (steps[n].Arm? || steps[n].Notify? || steps[n].UrgentNotify?)
    ensures Made(b, steps, n + 1, Mark(b[n].armings, steps[n].sender))
  {
    assert MadeAt(b, steps, n, n + 1, Mark(b[n].armings, steps[n].sender));
  }

  /** Where the marks after a step come from. */
  lemma NewMarks(s: Delivery, config: Config, step: Step)
    requires Enabled(s, step)
    ensures var t := Apply(s, config, step);
            var arming := step.Arm? || step.Notify? || step.UrgentNotify?;
            && (t.armed.Some? ==> t.armed == s.armed || t.armed == s.staged || (arming && t.armed == Some(Mark(s.armings, step.sender))))
            && (t.staged.Some? ==> t.staged == s.staged || (arming && t.staged == Some(Mark(s.armings, step.sender))))
            && (t.task.Some? ==> t.task == s.task || Some(t.task.value.mark) == s.armed)
            && (t.sent == s.sent || (s.armed.Some? && t.sent == s.sent + [s.armed.value]) || (s.task.Some? && t.sent == s.sent + [s.task.value.mark]))
  {
    ArmedMoves(s, config, step);
    StagedMoves(s, config, step);
    TaskMovesTold(s, config, step);
    SentMoves(s, config, step);
    hide Apply;
  }

  /** What a step asks for as the delay before whoever it arms is told. */
  function AskedDelay(step: Step): real {
    if step.Arm? && step.seconds > 0.0 then step.seconds else 0.0
  }

  /** In every run whoever is armed is told after the delay its arming asked for, and a negative one counts as none. */
  lemma {:induction false} DelayTold(b: seq<Delivery>, config: Config, steps: seq<Step>, k: nat) returns (m: nat)
    requires IsRun(b, config, steps) && k < |b| && b[k].armed.Some?
    ensures m < k <= |steps| && MadeAt(b, steps, m, k, b[k].armed.value) && b[k].delay == AskedDelay(steps[m])
  {
    var n := k - 1;
    Taken(b, config, steps, n);
    var s, step := b[n], steps[n];
    ArmedMoves(s, config, step);
    DelayMoves(s, config, step);
    if Arms(s, step) {
      m := n;
    } else if Over(s, config, step) && s.staged.Some? {
      m := StagedTold(b, config, steps, n);
    } else {
      hide Apply;
      m := DelayTold(b, config, steps, n);
    }
  }

  /** In every run whoever is staged is the sender of a message pasted mid-turn, with no turn over since. */
  lemma {:induction false} StagedTold(b: seq<Delivery>, config: Config, steps: seq<Step>, k: nat) returns (m: nat)
    requires IsRun(b, config, steps) && k < |b| && b[k].staged.Some?
    ensures m < k <= |steps| && MadeAt(b, steps, m, k, b[k].staged.value) && steps[m].Notify? && b[m].pasting == Some(false)
    ensures forall j | m < j < k :: !Over(b[j], config, steps[j])
  {
    var n := k - 1;
    Taken(b, config, steps, n);
    StagedMoves(b[n], config, steps[n]);
    if StagesFor(b[n], steps[n]) {
      m := n;
    } else {
      hide Apply, Over;
      m := StagedTold(b, config, steps, n);
    }
  }

  /** A step that found whoever is armed recently written to, and hushed the notice. */
  predicate Hushes(s: Delivery, config: Config, step: Step) {
    (Over(s, config, step) || Rings(s, step)) && Hushed(s, step.now)
  }

  ghost predicate WroteAt(b: seq<Delivery>, config: Config, steps: seq<Step>, m: int, k: nat)
    requires k <= |steps| < |b|
  {
    && 0 <= m < k && steps[m].Sends?
    && forall j | m < j < k :: !steps[j].Sends? && !steps[j].Clear? && !steps[j].HandoffFence? && !Hushes(b[j], config, steps[j])
  }

  /** In every run the session remembers exactly the last message it wrote, until it is cleared or that message has hushed a notice. */
  lemma {:induction false} OutgoingTold(b: seq<Delivery>, config: Config, steps: seq<Step>, k: nat)
    requires IsRun(b, config, steps) && k < |b|
    ensures b[k].outgoing.Some? <==> exists m :: WroteAt(b, config, steps, m, k)
    ensures forall m | WroteAt(b, config, steps, m, k) :: b[k].outgoing == Some(Outgoing(steps[m].target, steps[m].at))
  {
    if k > 0 {
      var n := k - 1;
      OutgoingTold(b, config, steps, n);
      Taken(b, config, steps, n);
      OutgoingMoves(b[n], config, steps[n]);
      assert Hushes(b[n], config, steps[n]) ==> steps[n].Idle? || steps[n].Fire?;
      assert b[k].outgoing == if steps[n].Sends? then Some(Outgoing(steps[n].target, steps[n].at))
                              else if steps[n].Clear? || steps[n].HandoffFence? || Hushes(b[n], config, steps[n]) then None
                              else b[n].outgoing;
      hide Apply, Over, Rings, Hushed, Hushes, IsRun;
      forall m | WroteAt(b, config, steps, m, k) ensures b[k].outgoing == Some(Outgoing(steps[m].target, steps[m].at)) {
        if m < n {
          assert WroteAt(b, config, steps, m, n);
        }
      }
      if m :| WroteAt(b, config, steps, m, n) {
        assert b[k].outgoing == b[n].outgoing && !steps[n].Sends? ==> WroteAt(b, config, steps, m, k);
      }
      if steps[n].Sends? {
        assert WroteAt(b, config, steps, n, k);
      }
    }
  }

  // ------------------------------------------------------------- the fence

  /** How many stop hooks a step asks the fence to absorb. */
  function AskedSlots(step: Step): nat {
    match step
    case Clear(slots, _) => slots
    case HandoffFence(_) => 1
    case _ => 0
  }

  /**
  After a clear or a handoff fence at this time, until another one, the hooks
  absorbed are exactly those within the window of it, up to the slots asked for
  and those left before.
  */
  lemma FenceTold(b: seq<Delivery>, config: Config, steps: seq<Step>, m: nat, k: nat)
    requires IsRun(b, config, steps) && m < k < |b| && AskedSlots(steps[m]) > 0 && !b[m].handoff && Undisturbed(steps, m + 1, k)
    ensures Absorbed(b, config, steps, m + 1, k) ==
            Min(b[m].skip + AskedSlots(steps[m]), FreshHooks(steps[m + 1..k], steps[m].now, config.fenceWindow))
    ensures b[m + 1].armed.None? && b[m + 1].outgoing.None?
  {
    Taken(b, config, steps, m);
    FenceMoves(b[m], config, steps[m]);
    FlagsMove(b[m], config, steps[m]);
    ArmedMoves(b[m], config, steps[m]);
    OutgoingMoves(b[m], config, steps[m]);
    hide Apply;
    FenceAbsorbsExactly(b, config, steps, m + 1, k, steps[m].now);
  }
}
