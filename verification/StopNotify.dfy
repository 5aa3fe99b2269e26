/**
Stop notifications of one session (src/message_queue.py, src/server.py): who is
told when the agent stops, with mid-turn staging, the delayed send and the fence
that absorbs the stop hooks of clear commands.

Armings are numbered in the order they are made; the number is not part of the
program's state, it only lets the properties tell two armings apart.
*/
module StopNotify {
  import opened Basics
  import opened Options

  datatype Mark = Mark(number: nat, sender: string)

  datatype Task = Task(mark: Mark, delay: real)

  datatype Outgoing = Outgoing(target: string, at: real)

  datatype Config = Config(codexFork: bool, fenceWindow: real)

  datatype Delivery = Delivery(
    isIdle: bool,
    armed: Option<Mark>,           // whom the next stop notifies
    delay: real,
    staged: Option<Mark>,          // armed by a message pasted mid-turn
    task: Option<Task>,            // delayed notification waiting to fire
    skip: nat,                     // stop hooks still to absorb
    fenceAt: Option<real>,
    outgoing: Option<Outgoing>,    // last message this session sent
    handoff: bool,
    pasting: Option<bool>,         // delivery in flight, and whether the session was idle when it began
    armings: nat,
    sent: seq<Mark>)

  const FRESH := Delivery(false, None, 0.0, None, None, 0, None, None, false, None, 0, [])

  const SUPPRESSION := 30.0

  // ------------------------------------------------------------- operations

  /** The session itself wrote to the waiting sender moments ago. */
  predicate Suppressed(s: Delivery, now: real) {
    s.armed.Some? && s.outgoing.Some? && s.outgoing.value.target == s.armed.value.sender && now - s.outgoing.value.at < SUPPRESSION
  }

  function Disarm(s: Delivery): Delivery {
    s.(armed := None, delay := 0.0)
  }

  function Suppress(s: Delivery, now: real): Delivery {
    if Suppressed(s, now) then Disarm(s).(outgoing := None) else s
  }

  function DropForFork(s: Delivery, config: Config): Delivery {
    if config.codexFork then Disarm(s).(task := None, staged := None) else s
  }

  function NotifyWaiting(s: Delivery): Delivery {
    if s.armed.None? then s
    else if s.delay > 0.0 then s.(task := Some(Task(s.armed.value, s.delay)))
    else Disarm(s).(sent := s.sent + [s.armed.value])
  }

  function Promote(s: Delivery): Delivery {
    if s.staged.Some? then s.(armed := s.staged, delay := 0.0, staged := None) else s
  }

  predicate Absorbs(s: Delivery, config: Config, fromHook: bool, now: real) {
    fromHook && !s.handoff && s.skip > 0 && s.fenceAt.Some? && now - s.fenceAt.value < config.fenceWindow
  }

  /** The call really ends a turn: no handoff takes over and the fence does not absorb it. */
  predicate Genuine(s: Delivery, config: Config, fromHook: bool, now: real) {
    !(fromHook && s.handoff) && !Absorbs(s, config, fromHook, now)
  }

  function EndTurn(s: Delivery, config: Config, fromHook: bool, now: real): Delivery {
    var fenced := if fromHook && s.skip > 0 then s.(skip := 0, fenceAt := None) else s;
    Promote(NotifyWaiting(DropForFork(Suppress(fenced.(isIdle := true), now), config)))
  }

  function MarkIdle(s: Delivery, config: Config, fromHook: bool, now: real): Delivery {
    if fromHook && s.handoff then s.(handoff := false, isIdle := false)
    else if Absorbs(s, config, fromHook, now) then s.(skip := s.skip - 1, fenceAt := if s.skip == 1 then None else s.fenceAt)
    else EndTurn(s, config, fromHook, now)
  }

  /** The delayed notification, once its sleep is over. */
  function DelayFires(s: Delivery, now: real): Delivery
    requires s.task.Some?
  {
    var over := s.(task := None);
    var task := s.task.value;
    if !s.isIdle || s.armed.None? || s.armed.value.sender != task.mark.sender || s.delay != task.delay then over
    else if Suppressed(s, now) then Disarm(over).(outgoing := None)
    else Disarm(over).(sent := s.sent + [task.mark])
  }

  function ArmNow(s: Delivery, sender: string, delay: real): Delivery {
    s.(task := None, armed := if sender == "" then None else Some(Mark(s.armings, sender)), delay := delay, armings := s.armings + 1)
  }

  // ------------------------------------------------------------------ steps

  datatype Step =
    | Idle(fromHook: bool, now: real)
    | Active
    | SetIdle                              // only the flag, by recovery paths
    | Arm(sender: string, seconds: real)
    | Fire(now: real)
    | Sends(target: string, at: real)      // the session itself writes to another
    | Clear(slots: nat, now: real)         // cache invalidation on clear; slots is 0 without a fence
    | HandoffFence(now: real)
    | RequestHandoff
    | Begin                                // a delivery captures the idle flag before it pastes
    | Pasted
    | Notify(sender: string)               // a pasted message asks for a stop notification
    | UrgentNotify(sender: string)
    | End

  predicate Enabled(s: Delivery, step: Step) {
    match step
    case Fire(_) => s.task.Some?
    case Begin => s.pasting.None?
    case Notify(sender) => s.pasting.Some? && sender != ""
    case UrgentNotify(sender) => sender != ""
    case End => s.pasting.Some?
    case _ => true
  }

  function Apply(s: Delivery, config: Config, step: Step): Delivery
    requires Enabled(s, step)
  {
    match step
    case Idle(fromHook, now) => MarkIdle(s, config, fromHook, now)
    case Active => (if s.delay > 0.0 then Disarm(s) else s).(isIdle := false, task := None)
    case SetIdle => s.(isIdle := true)
    case Arm(sender, seconds) => ArmNow(s, sender, if seconds < 0.0 then 0.0 else seconds)
    case Fire(now) => DelayFires(s, now)
    case Sends(target, at) => s.(outgoing := Some(Outgoing(target, at)))
    case Clear(slots, now) =>
      s.(armed := None, outgoing := None, skip := s.skip + slots, fenceAt := if slots > 0 then Some(now) else s.fenceAt)
    case HandoffFence(now) => Disarm(s).(task := None, outgoing := None, skip := s.skip + 1, fenceAt := Some(now))
    case RequestHandoff => s.(handoff := true)
    case Begin => s.(pasting := Some(s.isIdle))
    case Pasted => (if s.delay > 0.0 then Disarm(s).(task := None) else s).(isIdle := false)
    case Notify(sender) =>
      if s.pasting.value then ArmNow(s, sender, 0.0)
      else s.(task := None, staged := Some(Mark(s.armings, sender)), armings := s.armings + 1)
    case UrgentNotify(sender) => ArmNow(s, sender, 0.0)
    case End => s.(pasting := None)
  }

  ghost predicate IsRun(b: seq<Delivery>, config: Config, steps: seq<Step>) {
    && |b| == |steps| + 1 && b[0] == FRESH
    && forall k | 0 <= k < |steps| :: Enabled(b[k], steps[k]) && b[k + 1] == Apply(b[k], config, steps[k])
  }

  // --------------------------------------------------------------- invariant

  predicate Distinct(sent: seq<Mark>) {
    forall p, q | 0 <= p < q < |sent| :: sent[p].number != sent[q].number
  }

  predicate Unsent(mark: Option<Mark>, s: Delivery) {
    mark.Some? ==> mark.value.number < s.armings && forall p | 0 <= p < |s.sent| :: s.sent[p].number != mark.value.number
  }

  function One(mark: Option<Mark>): nat { if mark.Some? then 1 else 0 }

  /** A delayed notification waits for the arming it was scheduled for, whenever that arming still carries a delay. */
  predicate TaskInv(s: Delivery) {
    s.delay >= 0.0 && (s.task.Some? ==> s.task.value.delay > 0.0 && (s.armed.Some? && s.delay > 0.0 ==> s.task.value == Task(s.armed.value, s.delay)))
  }

  predicate MarksInv(s: Delivery) {
    && Unsent(s.armed, s) && Unsent(s.staged, s)
    && (s.armed.Some? && s.staged.Some? ==> s.armed.value.number != s.staged.value.number)
    && (forall p | 0 <= p < |s.sent| :: s.sent[p].number < s.armings)
    && Distinct(s.sent)
    && |s.sent| + One(s.armed) + One(s.staged) <= s.armings
  }

  predicate Inv(s: Delivery) {
    TaskInv(s) && MarksInv(s)
  }

  /** Disarming, dropping and flags: nothing new is armed or sent. */
  predicate Fades(s: Delivery, t: Delivery) {
    && t.armings == s.armings && t.sent == s.sent
    && (t.armed == s.armed || t.armed.None?) && (t.staged == s.staged || t.staged.None?)
  }

  lemma FadesKeeps(s: Delivery, t: Delivery)
    requires MarksInv(s) && Fades(s, t)
    ensures MarksInv(t)
  {
  }

  lemma SendKeeps(s: Delivery, t: Delivery)
    requires MarksInv(s) && s.armed.Some? && t.armings == s.armings && t.sent == s.sent + [s.armed.value]
    requires t.armed.None? && t.staged == s.staged
    ensures MarksInv(t)
  {
  }

  lemma ArmKeeps(s: Delivery, t: Delivery)
    requires MarksInv(s) && t.armings == s.armings + 1 && t.sent == s.sent
    requires t.staged == s.staged && (t.armed.None? || t.armed.value.number == s.armings)
    ensures MarksInv(t)
  {
  }

  lemma StageKeeps(s: Delivery, t: Delivery)
    requires MarksInv(s) && t.armings == s.armings + 1 && t.sent == s.sent
    requires t.armed == s.armed && t.staged.Some? && t.staged.value.number == s.armings
    ensures MarksInv(t)
  {
  }

  /** The sender waits, is not suppressed and its session may notify. */
  predicate Waits(s: Delivery, config: Config, now: real) {
    s.armed.Some? && !Suppressed(s, now) && !config.codexFork
  }

  /** What ending a turn does to the fence and the flags. */
  lemma EndTurnRest(s: Delivery, config: Config, fromHook: bool, now: real)
    ensures var t := EndTurn(s, config, fromHook, now);
            && t.isIdle && t.handoff == s.handoff && t.pasting == s.pasting && t.armings == s.armings
            && t.skip == (if fromHook then 0 else s.skip)
            && (!fromHook ==> t.fenceAt == s.fenceAt)
  {
  }

  /** What ending a turn does to the armings. */
  lemma EndTurnMarks(s: Delivery, config: Config, fromHook: bool, now: real)
    ensures var t := EndTurn(s, config, fromHook, now);
            && t.staged.None?
            && t.sent == (if Waits(s, config, now) && s.delay <= 0.0 then s.sent + [s.armed.value] else s.sent)
            && t.armed == (if !config.codexFork && s.staged.Some? then s.staged
                           else if Waits(s, config, now) && s.delay > 0.0 then s.armed else None)
            && (t.delay == 0.0 || (t.delay == s.delay && (config.codexFork || s.staged.None?)))
            && (t.armed.Some? ==> t.delay == if s.staged.Some? then 0.0 else s.delay)
            && t.task == (if config.codexFork then None
                          else if Waits(s, config, now) && s.delay > 0.0 then Some(Task(s.armed.value, s.delay)) else s.task)
  {
    var fenced := if fromHook && s.skip > 0 then s.(skip := 0, fenceAt := None) else s;
    var u := DropForFork(Suppress(fenced.(isIdle := true), now), config);
    assert u.sent == s.sent && u.staged == (if config.codexFork then None else s.staged);
    assert u.armed == (if Waits(s, config, now) then s.armed else None);
    assert u.task == (if config.codexFork then None else s.task);
    assert u.delay == s.delay || (u.delay == 0.0 && u.armed.None?);
  }

  lemma EndTurnInv(s: Delivery, config: Config, fromHook: bool, now: real)
    requires Inv(s)
    ensures Inv(EndTurn(s, config, fromHook, now))
  {
    EndTurnMarks(s, config, fromHook, now);
    EndTurnRest(s, config, fromHook, now);
    hide EndTurn, MarksInv;
    var t := EndTurn(s, config, fromHook, now);
    var u := t.(armed := if t.armed == s.armed then s.armed else None, staged := s.staged);
    if t.sent == s.sent {
      FadesKeeps(s, u);
    } else {
      u := t.(armed := None, staged := s.staged);
      SendKeeps(s, u);
    }
    TakeStaged(u, t);
  }

  lemma TakeStaged(s: Delivery, t: Delivery)
    requires MarksInv(s) && t.armings == s.armings && t.sent == s.sent && t.staged.None?
    requires t.armed == s.staged || t.armed == s.armed || t.armed.None?
    ensures MarksInv(t)
  {
  }

  lemma StepInv(s: Delivery, config: Config, step: Step)
    requires Inv(s) && Enabled(s, step)
    ensures Inv(Apply(s, config, step))
  {
    hide MarksInv, EndTurn;
    var t := Apply(s, config, step);
    match step
    case Idle(fromHook, now) =>
      if Genuine(s, config, fromHook, now) { EndTurnInv(s, config, fromHook, now); } else { FadesKeeps(s, t); }
    case Fire(now) => if t.sent == s.sent { FadesKeeps(s, t); } else { SendKeeps(s, t); }
    case Arm(_, _) => ArmKeeps(s, t);
    case UrgentNotify(_) => ArmKeeps(s, t);
    case Notify(_) => if s.pasting.value { ArmKeeps(s, t); } else { StageKeeps(s, t); }
    case _ => FadesKeeps(s, t);
  }

  lemma {:induction false} RunInv(b: seq<Delivery>, config: Config, steps: seq<Step>, k: nat)
    requires IsRun(b, config, steps) && k < |b|
    ensures Inv(b[k])
  {
    if k > 0 {
      RunInv(b, config, steps, k - 1);
      StepInv(b[k - 1], config, steps[k - 1]);
    }
  }

  // ---------------------------------------------------------------- theorems

  /** Notifications sent, plus senders still armed or staged, never exceed the armings; no arming is notified twice. */
  lemma NoticesAreArmed(b: seq<Delivery>, config: Config, steps: seq<Step>, k: nat)
    requires IsRun(b, config, steps) && k < |b|
    ensures |b[k].sent| + One(b[k].armed) + One(b[k].staged) <= b[k].armings
    ensures forall p, q | 0 <= p < q < |b[k].sent| :: b[k].sent[p].number != b[k].sent[q].number
  {
    RunInv(b, config, steps, k);
  }

  /** A delayed notification that passes its checks belongs to the very arming in force, not to an older one that looks alike. */
  lemma DelayedIsCurrent(b: seq<Delivery>, config: Config, steps: seq<Step>, k: nat)
    requires IsRun(b, config, steps) && k < |b| && b[k].task.Some? && b[k].armed.Some?
    requires b[k].delay == b[k].task.value.delay
    ensures b[k].task.value.mark == b[k].armed.value
  {
    RunInv(b, config, steps, k);
  }

  /** Whoever is notified was armed just before and has not heard from the session within the suppression window. */
  lemma NoticeIsDue(s: Delivery, config: Config, step: Step)
    requires Inv(s) && Enabled(s, step) && Apply(s, config, step).sent != s.sent
    ensures s.armed.Some? && Apply(s, config, step).sent == s.sent + [s.armed.value]
    ensures step.Idle? || step.Fire?
    ensures s.outgoing.Some? && s.outgoing.value.target == s.armed.value.sender ==> step.now - s.outgoing.value.at >= SUPPRESSION
    ensures step.Fire? ==> s.isIdle && s.delay > 0.0
    ensures step.Idle? ==> Genuine(s, config, step.fromHook, step.now) && s.delay == 0.0
  {
    hide EndTurn;
    if step.Idle? && Genuine(s, config, step.fromHook, step.now) {
      EndTurnMarks(s, config, step.fromHook, step.now);
    }
    hide MarksInv;
  }

  /** Exactly when a step notifies: a turn ends on an armed sender with no delay, or a delay fires on the arming in force. */
  lemma NotifiedIff(s: Delivery, config: Config, step: Step)
    requires Inv(s) && Enabled(s, step)
    ensures Apply(s, config, step).sent != s.sent <==>
            || (TurnEnds(s, config, step) && Waits(s, config, step.now) && s.delay == 0.0)
            || (step.Fire? && s.isIdle && s.armed == Some(s.task.value.mark) && s.delay > 0.0 && !Suppressed(s, step.now))
  {
    hide EndTurn;
    if TurnEnds(s, config, step) {
      EndTurnMarks(s, config, step.fromHook, step.now);
    }
    hide MarksInv;
  }

  /** A staged sender is armed by the turn that ends first and told by the one that ends next, unless suppressed. */
  lemma StagedIsToldSecond(s: Delivery, config: Config, hook1: bool, now1: real, hook2: bool, now2: real)
    requires s.staged.Some? && !config.codexFork
    ensures var t := EndTurn(s, config, hook1, now1);
            var u := EndTurn(t, config, hook2, now2);
            && t.armed == s.staged && t.delay == 0.0
            && u.sent == if Suppressed(t, now2) then t.sent else t.sent + [s.staged.value]
  {
    EndTurnMarks(s, config, hook1, now1);
    EndTurnMarks(EndTurn(s, config, hook1, now1), config, hook2, now2);
    hide EndTurn;
  }

  /** A codex-fork session never notifies anyone. */
  lemma {:induction false} ForkNeverNotifies(b: seq<Delivery>, config: Config, steps: seq<Step>, k: nat)
    requires IsRun(b, config, steps) && k < |b| && config.codexFork
    ensures b[k].sent == [] && b[k].task.None?
  {
    if k > 0 {
      hide EndTurn;
      var step := steps[k - 1];
      ForkNeverNotifies(b, config, steps, k - 1);
      if TurnEnds(b[k - 1], config, step) {
        EndTurnMarks(b[k - 1], config, step.fromHook, step.now);
      }
    }
  }

  /** What makes a waiting delayed notification moot. */
  predicate Supersedes(s: Delivery, step: Step) {
    step.Active? || step.Arm? || step.Notify? || step.UrgentNotify? || step.HandoffFence? || (step.Pasted? && s.delay > 0.0)
  }

  /** The turn that ended at step m scheduled this notification. */
  ghost predicate Scheduled(b: seq<Delivery>, config: Config, steps: seq<Step>, m: nat, task: Task)
    requires |b| == |steps| + 1 && m < |steps|
  {
    TurnEnds(b[m], config, steps[m]) && b[m].armed == Some(task.mark) && b[m].delay == task.delay > 0.0
  }

  ghost predicate Undisputed(b: seq<Delivery>, steps: seq<Step>, m: nat, k: nat)
    requires |b| == |steps| + 1 && m < k <= |steps|
  {
    forall j | m < j < k :: !Supersedes(b[j], steps[j])
  }

  /** A delayed notification that still waits was scheduled by a turn that ended, and nothing has superseded it since. */
  lemma {:induction false} DelayedSinceStop(b: seq<Delivery>, config: Config, steps: seq<Step>, k: nat) returns (m: nat)
    requires IsRun(b, config, steps) && k < |b| && b[k].task.Some?
    ensures m < k && Scheduled(b, config, steps, m, b[k].task.value) && Undisputed(b, steps, m, k)
  {
    var s, step := b[k - 1], steps[k - 1];
    TaskMoves(s, config, step);
    hide Apply, TurnEnds;
    if TurnEnds(s, config, step) && s.armed.Some? && s.delay > 0.0 && b[k].task == Some(Task(s.armed.value, s.delay)) {
      m := k - 1;
    } else {
      m := DelayedSinceStop(b, config, steps, k - 1);
    }
  }

  lemma TaskMoves(s: Delivery, config: Config, step: Step)
    requires Enabled(s, step) && Apply(s, config, step).task.Some?
    ensures var t := Apply(s, config, step);
            || (TurnEnds(s, config, step) && s.armed.Some? && s.delay > 0.0 && t.task == Some(Task(s.armed.value, s.delay)))
            || (t.task == s.task && !Supersedes(s, step))
  {
    hide EndTurn;
    if TurnEnds(s, config, step) {
      EndTurnMarks(s, config, step.fromHook, step.now);
    }
  }

  // ------------------------------------------------------- mid-turn staging

  predicate TurnEnds(s: Delivery, config: Config, step: Step) {
    step.Idle? && Genuine(s, config, step.fromHook, step.now)
  }

  /** Turns that really ended from position m up to position k. */
  ghost function TurnsEnded(b: seq<Delivery>, config: Config, steps: seq<Step>, m: nat, k: nat): nat
    requires m <= k <= |steps| < |b|
    decreases k
  {
    if m == k then 0
    else TurnsEnded(b, config, steps, m, k - 1) + if TurnEnds(b[k - 1], config, steps[k - 1]) then 1 else 0
  }

  predicate IsSent(s: Delivery, number: nat) {
    exists p :: 0 <= p < |s.sent| && s.sent[p].number == number
  }

  predicate IsMark(mark: Option<Mark>, number: nat) {
    mark.Some? && mark.value.number == number
  }

  /** Where a staged arming may be after this many ended turns. */
  predicate Progress(s: Delivery, number: nat, turns: nat) {
    && number < s.armings
    && (IsMark(s.armed, number) ==> turns >= 1 && s.delay == 0.0)
    && (IsSent(s, number) ==> turns >= 2)
  }

  lemma StepProgress(s: Delivery, config: Config, step: Step, number: nat, turns: nat)
    requires Inv(s) && Enabled(s, step) && Progress(s, number, turns)
    ensures Progress(Apply(s, config, step), number, turns + if TurnEnds(s, config, step) then 1 else 0)
  {
    SentProgress(s, config, step, number, turns);
    hide IsSent;
    ArmedProgress(s, config, step, number, turns);
    hide Apply, TurnEnds;
  }

  lemma SentProgress(s: Delivery, config: Config, step: Step, number: nat, turns: nat)
    requires Inv(s) && Enabled(s, step) && Progress(s, number, turns)
    ensures IsSent(Apply(s, config, step), number) ==> turns + (if TurnEnds(s, config, step) then 1 else 0) >= 2
  {
    var t := Apply(s, config, step);
    hide Apply;
    if t.sent != s.sent {
      NoticeIsDue(s, config, step);
      SentLast(s, t, number);
    } else {
      assert IsSent(t, number) ==> IsSent(s, number);
    }
  }

  lemma ArmedProgress(s: Delivery, config: Config, step: Step, number: nat, turns: nat)
    requires Inv(s) && Enabled(s, step) && Progress(s, number, turns)
    ensures var t := Apply(s, config, step);
            && number < t.armings
            && (IsMark(t.armed, number) ==> turns + (if TurnEnds(s, config, step) then 1 else 0) >= 1 && t.delay == 0.0)
  {
    hide EndTurn, IsSent, MarksInv;
    if TurnEnds(s, config, step) {
      EndTurnMarks(s, config, step.fromHook, step.now);
      EndTurnRest(s, config, step.fromHook, step.now);
    }
  }

  lemma SentLast(s: Delivery, t: Delivery, number: nat)
    requires s.armed.Some? && t.sent == s.sent + [s.armed.value]
    ensures IsSent(t, number) ==> IsSent(s, number) || s.armed.value.number == number
  {
  }

  lemma StagedFirst(s: Delivery, config: Config, step: Step)
    requires Inv(s) && Enabled(s, step) && step.Notify? && s.pasting == Some(false)
    ensures Progress(Apply(s, config, step), s.armings, 0)
  {
  }

  lemma {:induction false} StagedProgress(b: seq<Delivery>, config: Config, steps: seq<Step>, m: nat, k: nat)
    requires IsRun(b, config, steps) && m < k < |b|
    requires steps[m].Notify? && b[m].pasting == Some(false)
    ensures Progress(b[k], b[m].armings, TurnsEnded(b, config, steps, m + 1, k))
    decreases k
  {
    hide Apply, Inv, Progress, TurnEnds;
    RunInv(b, config, steps, k - 1);
    if k == m + 1 {
      StagedFirst(b[m], config, steps[m]);
    } else {
      StagedProgress(b, config, steps, m, k - 1);
      StepProgress(b[k - 1], config, steps[k - 1], b[m].armings, TurnsEnded(b, config, steps, m + 1, k - 1));
    }
  }

  /** A sender whose message was pasted mid-turn is not notified before the second turn that ends after the paste. */
  lemma MidTurnWaitsTwoTurns(b: seq<Delivery>, config: Config, steps: seq<Step>, m: nat, k: nat)
    requires IsRun(b, config, steps) && m < k < |b|
    requires steps[m].Notify? && b[m].pasting == Some(false)
    ensures IsSent(b[k], b[m].armings) ==> TurnsEnded(b, config, steps, m + 1, k) >= 2
  {
    StagedProgress(b, config, steps, m, k);
  }

  // ------------------------------------------------------------------ fence

  predicate IsHook(step: Step) {
    step.Idle? && step.fromHook
  }

  /** Stop hooks that come within the window of a fence armed at this time. */
  function FreshHooks(steps: seq<Step>, at: real, window: real): nat
    decreases |steps|
  {
    if steps == [] then 0
    else
      var last := steps[|steps| - 1];
      FreshHooks(steps[..|steps| - 1], at, window) + if IsHook(last) && last.now - at < window then 1 else 0
  }

  ghost function Absorbed(b: seq<Delivery>, config: Config, steps: seq<Step>, m: nat, k: nat): nat
    requires m <= k <= |steps| < |b|
    decreases k
  {
    if m == k then 0
    else
      var step := steps[k - 1];
      Absorbed(b, config, steps, m, k - 1) + if step.Idle? && Absorbs(b[k - 1], config, step.fromHook, step.now) then 1 else 0
  }

  /** No step of the stretch arms the fence again or asks for a handoff, and the hooks' clock does not go back. */
  ghost predicate Undisturbed(steps: seq<Step>, m: nat, k: nat)
    requires m <= k <= |steps|
  {
    && (forall j | m <= j < k :: !steps[j].Clear? && !steps[j].HandoffFence? && !steps[j].RequestHandoff?)
    && (forall i, j | m <= i < j < k && IsHook(steps[i]) && IsHook(steps[j]) :: steps[i].now <= steps[j].now)
  }

  ghost predicate SomeStale(steps: seq<Step>, m: nat, k: nat, at: real, window: real)
    requires m <= k <= |steps|
  {
    exists j :: m <= j < k && IsHook(steps[j]) && steps[j].now - at >= window
  }

  /**
  A fence of so many slots absorbs exactly the stop hooks that come within its
  window, up to that number; once a hook comes too late it absorbs none.
  */
  lemma {:induction false} FenceAbsorbsExactly(b: seq<Delivery>, config: Config, steps: seq<Step>, m: nat, k: nat, at: real)
    requires IsRun(b, config, steps) && m <= k < |b| && b[m].fenceAt == Some(at) && !b[m].handoff
    requires Undisturbed(steps, m, k)
    ensures Absorbed(b, config, steps, m, k) == Min(b[m].skip, FreshHooks(steps[m..k], at, config.fenceWindow))
    ensures !b[k].handoff
    ensures b[k].skip == if SomeStale(steps, m, k, at, config.fenceWindow) then 0 else b[m].skip - Absorbed(b, config, steps, m, k)
    ensures b[k].skip > 0 ==> b[k].fenceAt == Some(at)
    decreases k
  {
    hide Apply, Absorbs, SomeStale;
    assert !SomeStale(steps, m, m, at, config.fenceWindow) by { NoneStale(steps, m, at, config.fenceWindow); }
    if m < k {
      FenceAbsorbsExactly(b, config, steps, m, k - 1, at);
      SliceLast(steps, m, k);
      StaleLast(steps, m, k, at, config.fenceWindow);
      FenceAccount(b[k - 1], config, steps[k - 1], at, b[m].skip, Absorbed(b, config, steps, m, k - 1),
                   FreshHooks(steps[m..k - 1], at, config.fenceWindow), SomeStale(steps, m, k - 1, at, config.fenceWindow));
    }
  }

  lemma SliceLast(steps: seq<Step>, m: nat, k: nat)
    requires m < k <= |steps|
    ensures steps[m..k] != [] && steps[m..k][|steps[m..k]| - 1] == steps[k - 1] && steps[m..k][..|steps[m..k]| - 1] == steps[m..k - 1]
  {
  }

  lemma FenceStep(s: Delivery, config: Config, step: Step)
    requires Enabled(s, step) && !step.Clear? && !step.HandoffFence? && !step.RequestHandoff? && !s.handoff
    ensures var t := Apply(s, config, step);
            && !t.handoff
            && (if !IsHook(step) then t.skip == s.skip && t.fenceAt == s.fenceAt
                else if Absorbs(s, config, true, step.now) then t.skip == s.skip - 1 && (t.skip > 0 ==> t.fenceAt == s.fenceAt)
                else t.skip == 0)
  {
    hide EndTurn;
    if TurnEnds(s, config, step) {
      EndTurnRest(s, config, step.fromHook, step.now);
    }
  }

  lemma NoneStale(steps: seq<Step>, m: nat, at: real, window: real)
    requires m <= |steps|
    ensures !SomeStale(steps, m, m, at, window)
  {
  }

  lemma StaleLast(steps: seq<Step>, m: nat, k: nat, at: real, window: real)
    requires m < k <= |steps| && Undisturbed(steps, m, k)
    ensures SomeStale(steps, m, k, at, window) <==>
            SomeStale(steps, m, k - 1, at, window) || (IsHook(steps[k - 1]) && steps[k - 1].now - at >= window)
    ensures IsHook(steps[k - 1]) && steps[k - 1].now - at < window ==> !SomeStale(steps, m, k - 1, at, window)
  {
  }

  /** One step of the count: slots left, hooks absorbed and fresh hooks seen move together. */
  lemma FenceAccount(s: Delivery, config: Config, step: Step, at: real, slots: nat, absorbed: nat, timely: nat, stale: bool)
    requires Enabled(s, step) && !step.Clear? && !step.HandoffFence? && !step.RequestHandoff? && !s.handoff
    requires absorbed == Min(slots, timely) && s.skip == (if stale then 0 else slots - absorbed)
    requires s.skip > 0 ==> s.fenceAt == Some(at)
    requires IsHook(step) && step.now - at < config.fenceWindow ==> !stale
    ensures var t := Apply(s, config, step);
            var absorbed' := absorbed + if step.Idle? && Absorbs(s, config, step.fromHook, step.now) then 1 else 0;
            var timely' := timely + if IsHook(step) && step.now - at < config.fenceWindow then 1 else 0;
            && absorbed' == Min(slots, timely') && !t.handoff
            && t.skip == (if stale || (IsHook(step) && step.now - at >= config.fenceWindow) then 0 else slots - absorbed')
            && (t.skip > 0 ==> t.fenceAt == Some(at))
  {
    FenceStep(s, config, step);
    hide Apply;
  }

  /** Hooks that come one after another within the window of a fence. */
  ghost predicate FreshBurst(steps: seq<Step>, m: nat, k: nat, at: real, window: real)
    requires m <= k <= |steps|
  {
    forall j | m <= j < k :: IsHook(steps[j]) && steps[j].now - at < window
  }

  /** A burst of fresh stop hooks no longer than the fence leaves no trace but the slots it used; the hook after the last slot ends the turn. */
  lemma {:induction false} BurstIsSilent(b: seq<Delivery>, config: Config, steps: seq<Step>, m: nat, k: nat, at: real)
    requires IsRun(b, config, steps) && m <= k < |b| && b[m].fenceAt == Some(at) && !b[m].handoff
    requires FreshBurst(steps, m, k, at, config.fenceWindow) && 0 < b[m].skip && k - m <= b[m].skip
    ensures b[k] == b[m].(skip := b[m].skip - (k - m), fenceAt := if k - m == b[m].skip then None else Some(at))
    ensures k < |steps| && k - m == b[m].skip && IsHook(steps[k]) ==> TurnEnds(b[k], config, steps[k])
    decreases k
  {
    if m < k {
      hide Enabled, EndTurn;
      BurstIsSilent(b, config, steps, m, k - 1, at);
      assert b[k] == Apply(b[k - 1], config, steps[k - 1]);
    }
  }

  // -------------------------------------------------------------- the object

  class SessionDeliveryState {
    const config: Config
    var isIdle: bool
    var armed: Option<Mark>
    var delay: real
    var staged: Option<Mark>
    var task: Option<Task>
    var skip: nat
    var fenceAt: Option<real>
    var outgoing: Option<Outgoing>
    var handoff: bool
    var pasting: Option<bool>
    var armings: nat
    var sent: seq<Mark>

    ghost function View(): Delivery
      reads this
    {
      Delivery(isIdle, armed, delay, staged, task, skip, fenceAt, outgoing, handoff, pasting, armings, sent)
    }

    constructor (config: Config)
      ensures View() == FRESH && Inv(View()) && this.config == config
    {
      this.config := config;
      isIdle, armed, delay, staged, task, skip := false, None, 0.0, None, None, 0;
      fenceAt, outgoing, handoff, pasting, armings, sent := None, None, false, None, 0, [];
    }

    predicate Suppresses(now: real)
      reads this
    {
      armed.Some? && outgoing.Some? && outgoing.value.target == armed.value.sender && now - outgoing.value.at < SUPPRESSION
    }

    /** The tail of a turn that really ended: whom to tell, and whom to keep for the next turn. */
    method Settle(now: real)
      modifies this`armed, this`delay, this`staged, this`task, this`outgoing, this`sent
      ensures View() == Promote(NotifyWaiting(DropForFork(Suppress(old(View()), now), config)))
    {
      if Suppresses(now) {
        armed, delay, outgoing := None, 0.0, None;
      }
      if config.codexFork {
        armed, delay, task, staged := None, 0.0, None, None;
      }
      if armed.Some? {
        if delay > 0.0 {
          task := Some(Task(armed.value, delay));
        } else {
          sent := sent + [armed.value];
          armed, delay := None, 0.0;
        }
      }
      if staged.Some? {
        armed, delay, staged := staged, 0.0, None;
      }
    }

    method MarkSessionIdle(fromHook: bool, now: real)
      requires Inv(View())
      modifies this
      ensures Inv(View()) && View() == Apply(old(View()), config, Idle(fromHook, now))
    {
      hide Inv, Promote, NotifyWaiting, DropForFork, Suppress;
      StepInv(View(), config, Idle(fromHook, now));
      if fromHook && handoff {
        handoff, isIdle := false, false;
        return;
      }
      if fromHook && skip > 0 {
        if fenceAt.Some? && now - fenceAt.value < config.fenceWindow {
          skip := skip - 1;
          if skip == 0 {
            fenceAt := None;
          }
          return;
        }
        skip, fenceAt := 0, None;
      }
      isIdle := true;
      Settle(now);
    }

    method MarkSessionActive()
      requires Inv(View())
      modifies this
      ensures Inv(View()) && View() == Apply(old(View()), config, Active)
    {
      hide MarksInv;
      StepInv(View(), config, Active);
      isIdle, task := false, None;
      if delay > 0.0 {
        armed, delay := None, 0.0;
      }
    }

    method ArmStopNotify(sender: string, seconds: real)
      requires Inv(View())
      modifies this
      ensures Inv(View()) && View() == Apply(old(View()), config, Arm(sender, seconds))
    {
      hide MarksInv;
      StepInv(View(), config, Arm(sender, seconds));
      task := None;
      armed := if sender == "" then None else Some(Mark(armings, sender));
      delay := if seconds < 0.0 then 0.0 else seconds;
      armings := armings + 1;
    }

    method RunDelayedStopNotification(now: real)
      requires Inv(View()) && task.Some?
      modifies this
      ensures Inv(View()) && View() == Apply(old(View()), config, Fire(now))
    {
      hide MarksInv;
      StepInv(View(), config, Fire(now));
      var mark, after := task.value.mark, task.value.delay;
      task := None;
      if !isIdle || armed.None? || armed.value.sender != mark.sender || delay != after {
        return;
      }
      if Suppresses(now) {
        armed, delay, outgoing := None, 0.0, None;
        return;
      }
      sent := sent + [mark];
      armed, delay := None, 0.0;
    }

    /** A delivered message that asks to be told when the session stops. */
    method NotifyOnStop(sender: string)
      requires Inv(View()) && Enabled(View(), Notify(sender))
      modifies this
      ensures Inv(View()) && View() == Apply(old(View()), config, Notify(sender))
    {
      hide MarksInv;
      StepInv(View(), config, Notify(sender));
      task := None;
      if pasting.value {
        armed, delay := Some(Mark(armings, sender)), 0.0;
      } else {
        staged := Some(Mark(armings, sender));
      }
      armings := armings + 1;
    }
  }
}
