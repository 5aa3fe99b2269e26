/**
The periodic remind of one session (src/message_queue.py): a nudge to a tracked
agent, then a soft reminder, then a hard one that starts the cycle again.

The registration lives in memory and in a row of a table that a restart reads
back; each update writes only the columns it names.  The stages fired are
recorded cycle by cycle; a cycle ends at every reset.
*/
module RemindCycle {
  import opened Basics
  import opened Options

  datatype Reg = Reg(
    soft: int,
    hard: int,
    lastReset: real,
    owners: set<string>,         // sessions whose reply ends the tracking
    persistent: bool,
    nudged: bool,
    softFired: bool)

  /** The one row of this session. */
  datatype Row = Row(
    soft: int,
    hard: int,
    lastReset: real,
    owners: set<string>,
    persistent: bool,
    nudged: bool,
    softFired: bool,
    active: bool)

  datatype Column =
    | SetSoft(soft: int)
    | SetHard(hard: int)
    | SetLastReset(at: real)
    | SetOwners(owners: set<string>)
    | SetPersistent(persistent: bool)
    | SetNudged(nudged: bool)
    | SetSoftFired(softFired: bool)
    | SetActive(active: bool)

  datatype Stage = Nudge | Soft | Hard

  datatype Remind = Remind(
    reg: Option<Reg>,            // in memory
    row: Option<Row>,
    past: seq<seq<Stage>>,       // finished cycles
    current: seq<Stage>)

  const START := Remind(None, None, [], [])

  const CHECK_INTERVAL := 5
  const MAX_LEAD := 60

  // --------------------------------------------------------------- the table

  function SetColumn(row: Row, column: Column): Row {
    match column
    case SetSoft(soft) => row.(soft := soft)
    case SetHard(hard) => row.(hard := hard)
    case SetLastReset(at) => row.(lastReset := at)
    case SetOwners(owners) => row.(owners := owners)
    case SetPersistent(persistent) => row.(persistent := persistent)
    case SetNudged(nudged) => row.(nudged := nudged)
    case SetSoftFired(softFired) => row.(softFired := softFired)
    case SetActive(active) => row.(active := active)
  }

  /** An update of the row, which does nothing where there is none. */
  function Update(row: Option<Row>, columns: seq<Column>): Option<Row>
    decreases columns
  {
    if row.None? || columns == [] then row else Update(Some(SetColumn(row.value, columns[0])), columns[1..])
  }

  /** What a new process makes of the row. */
  function Loaded(row: Option<Row>): Option<Reg> {
    if row.None? || !row.value.active then None
    else
      var r := row.value;
      Some(Reg(r.soft, r.hard, r.lastReset, r.owners, r.persistent, r.nudged, r.softFired))
  }

  // ------------------------------------------------------------- operations

  /** How far ahead of the soft reminder the tracked agent is nudged. */
  function Lead(soft: int): int {
    if soft <= CHECK_INTERVAL then 0 else Min(MAX_LEAD, Max(soft / 2, 1))
  }

  /** A new cycle: the stages fired so far belong to a finished one. */
  function NewCycle(s: Remind): Remind {
    s.(past := s.past + [s.current], current := [])
  }

  function AddOwner(owners: set<string>, owner: string): set<string> {
    if owner == "" then owners else owners + {owner}
  }

  function Rewound(reg: Reg, now: real): Reg {
    reg.(lastReset := now, nudged := false, softFired := false)
  }

  function RewindColumns(now: real): seq<Column> {
    [SetLastReset(now), SetNudged(false), SetSoftFired(false)]
  }

  function Merged(reg: Reg, soft: int, hard: int, owner: string, persistent: bool, now: real): Reg {
    Rewound(reg, now).(soft := Min(reg.soft, soft), hard := Min(reg.hard, hard),
                       persistent := reg.persistent || persistent, owners := AddOwner(reg.owners, owner))
  }

  function MergeColumns(reg: Reg): seq<Column> {
    [SetSoft(reg.soft), SetHard(reg.hard), SetLastReset(reg.lastReset), SetPersistent(reg.persistent),
     SetNudged(false), SetSoftFired(false), SetOwners(reg.owners)]
  }

  function Cancel(s: Remind): Remind {
    if s.reg.None? then s else s.(reg := None, row := Update(s.row, [SetActive(false)]))
  }

  function Register(s: Remind, soft: int, hard: int, owner: string, persistent: bool, merge: bool, now: real): Remind {
    if merge && s.reg.Some? then
      var merged := Merged(s.reg.value, soft, hard, owner, persistent, now);
      NewCycle(s).(reg := Some(merged), row := Update(s.row, MergeColumns(merged)))
    else
      var owners := AddOwner({}, owner);
      NewCycle(s).(reg := Some(Reg(soft, hard, now, owners, persistent, false, false)),
                   row := Some(Row(soft, hard, now, owners, persistent, false, false, true)))
  }

  function Reset(s: Remind, force: bool, now: real): Remind {
    if s.reg.None? || (s.reg.value.owners != {} && !(force || s.reg.value.persistent)) then s
    else NewCycle(s).(reg := Some(Rewound(s.reg.value, now)), row := Update(s.row, RewindColumns(now)))
  }

  function Refresh(s: Remind, owner: string, now: real): Remind {
    if s.reg.None? || !s.reg.value.persistent || owner !in s.reg.value.owners then s else Reset(s, true, now)
  }

  function Reply(s: Remind, recipient: string, now: real): Remind {
    if s.reg.None? || recipient !in s.reg.value.owners then s
    else if s.reg.value.persistent then Refresh(s, recipient, now)
    else if s.reg.value.owners == {recipient} then Cancel(s)
    else
      var owners := s.reg.value.owners - {recipient};
      s.(reg := Some(s.reg.value.(owners := owners)), row := Update(s.row, [SetOwners(owners)]))
  }

  predicate NudgeDue(reg: Reg, elapsed: real) {
    && reg.owners != {} && !reg.nudged && !reg.softFired
    && Lead(reg.soft) > 0 && elapsed >= Max(reg.soft - Lead(reg.soft), 0) as real
  }

  predicate SoftDue(reg: Reg, elapsed: real) {
    !reg.softFired && elapsed >= reg.soft as real
  }

  predicate HardDue(reg: Reg, elapsed: real) {
    elapsed >= reg.hard as real
  }

  function Flag(b: bool, stage: Stage): seq<Stage> { if b then [stage] else [] }

  function Stages(nudge: bool, soft: bool, hard: bool): seq<Stage> {
    Flag(nudge, Nudge) + Flag(soft, Soft) + Flag(hard, Hard)
  }

  /** The stages one poll fires, in order. */
  function Fired(reg: Reg, elapsed: real): seq<Stage> {
    Stages(NudgeDue(reg, elapsed), SoftDue(reg, elapsed), HardDue(reg, elapsed))
  }

  /** One stage: its message is queued, then it is marked in memory and in its columns; the hard one ends the cycle. */
  function Fire(s: Remind, stage: Stage, resetAt: real): Remind
    requires s.reg.Some?
  {
    var t := s.(current := s.current + [stage]);
    match stage
    case Nudge => t.(reg := Some(s.reg.value.(nudged := true)), row := Update(s.row, [SetNudged(true)]))
    case Soft => t.(reg := Some(s.reg.value.(softFired := true)), row := Update(s.row, [SetSoftFired(true)]))
    case Hard => NewCycle(t).(reg := Some(Rewound(s.reg.value, resetAt)), row := Update(s.row, RewindColumns(resetAt)))
  }

  function FireAll(s: Remind, stages: seq<Stage>, resetAt: real): (t: Remind)
    requires s.reg.Some?
    ensures t.reg.Some?
    decreases stages
  {
    if stages == [] then s else FireAll(Fire(s, stages[0], resetAt), stages[1..], resetAt)
  }

  function Tick(s: Remind, alive: bool, compacting: bool, now: real, resetAt: real): Remind {
    if s.reg.None? then s
    else if s.reg.value.owners != {} && !alive then Cancel(s)
    else if compacting then s
    else FireAll(s, Fired(s.reg.value, now - s.reg.value.lastReset), resetAt)
  }

  /** A new process reads the table; a tracked target that has died is not taken up again. */
  function Restart(s: Remind, alive: bool): Remind {
    var reg := Loaded(s.row);
    if reg.Some? && reg.value.owners != {} && !alive then s.(reg := None, row := Update(s.row, [SetActive(false)]))
    else s.(reg := reg)
  }

  /** A poll that dies after so many stages, and perhaps between queueing the next one and marking it. */
  function CutOff(s: Remind, now: real, resetAt: real, done: nat, torn: bool): Remind
    requires s.reg.Some?
  {
    var fired := Fired(s.reg.value, now - s.reg.value.lastReset);
    if done >= |fired| then FireAll(s, fired, resetAt)
    else
      var t := FireAll(s, fired[..done], resetAt);
      if torn then t.(current := t.current + [fired[done]]) else t
  }

  // ------------------------------------------------------------------ steps

  datatype Step =
    | Registers(soft: int, hard: int, owner: string, persistent: bool, merge: bool, now: real)
    | Cancels
    | Resets(force: bool, now: real)
    | Refreshes(owner: string, now: real)
    | Replies(recipient: string, now: real)
    | Ticks(alive: bool, compacting: bool, now: real, resetAt: real)
    | Restarts(alive: bool)
    | Crashes(now: real, resetAt: real, done: nat, torn: bool, alive: bool)   // within a poll, and restarts

  function Apply(s: Remind, step: Step): Remind {
    match step
    case Registers(soft, hard, owner, persistent, merge, now) => Register(s, soft, hard, owner, persistent, merge, now)
    case Cancels => Cancel(s)
    case Resets(force, now) => Reset(s, force, now)
    case Refreshes(owner, now) => Refresh(s, owner, now)
    case Replies(recipient, now) => Reply(s, recipient, now)
    case Ticks(alive, compacting, now, resetAt) => Tick(s, alive, compacting, now, resetAt)
    case Restarts(alive) => Restart(s, alive)
    case Crashes(now, resetAt, done, torn, alive) =>
      Restart(if s.reg.None? then s else CutOff(s, now, resetAt, done, torn), alive)
  }

  ghost predicate IsRun(b: seq<Remind>, steps: seq<Step>) {
    |b| == |steps| + 1 && b[0] == START && forall k | 0 <= k < |steps| :: b[k + 1] == Apply(b[k], steps[k])
  }

  /** Every registration of the run asks for a soft threshold no later than its hard one. */
  predicate Ordered(steps: seq<Step>) {
    forall k | 0 <= k < |steps| && steps[k].Registers? :: steps[k].soft <= steps[k].hard
  }

  /** The process dies between queueing a stage and marking it. */
  predicate Tears(s: Remind, step: Step) {
    step.Crashes? && step.torn && s.reg.Some? && step.done < |Fired(s.reg.value, step.now - s.reg.value.lastReset)|
  }

  // ------------------------------------------------------- memory and table

  /** Whatever is written column by column, the row says what memory says. */
  ghost predicate Agrees(s: Remind) {
    s.reg == Loaded(s.row)
  }

  lemma FireAgrees(s: Remind, stage: Stage, resetAt: real)
    requires Agrees(s) && s.reg.Some?
    ensures Agrees(Fire(s, stage, resetAt))
  {
    ThreeColumns(s.row, resetAt);
  }

  lemma ThreeColumns(row: Option<Row>, now: real)
    requires row.Some?
    ensures Update(row, RewindColumns(now)) == Some(row.value.(lastReset := now, nudged := false, softFired := false))
  {
    assert RewindColumns(now)[1..] == [SetNudged(false), SetSoftFired(false)];
    assert [SetNudged(false), SetSoftFired(false)][1..] == [SetSoftFired(false)];
    assert [SetSoftFired(false)][1..] == [];
  }

  lemma {:induction false} FireAllAgrees(s: Remind, stages: seq<Stage>, resetAt: real)
    requires Agrees(s) && s.reg.Some?
    ensures Agrees(FireAll(s, stages, resetAt))
    decreases stages
  {
    hide Agrees, Fire;
    if stages != [] {
      FireAgrees(s, stages[0], resetAt);
      assert Fire(s, stages[0], resetAt).reg.Some? by { StillThere(s, stages[0], resetAt); }
      FireAllAgrees(Fire(s, stages[0], resetAt), stages[1..], resetAt);
    }
  }

  lemma StillThere(s: Remind, stage: Stage, resetAt: real)
    requires s.reg.Some?
    ensures Fire(s, stage, resetAt).reg.Some?
  {
  }

  lemma OneColumn(row: Option<Row>, column: Column)
    requires row.Some?
    ensures Update(row, [column]) == Some(SetColumn(row.value, column))
  {
    assert [column][1..] == [];
  }

  lemma UpdateAt(row: Row, columns: seq<Column>, i: nat)
    requires i < |columns|
    ensures Update(Some(row), columns[i..]) == Update(Some(SetColumn(row, columns[i])), columns[i + 1..])
  {
    assert columns[i..][1..] == columns[i + 1..];
  }

  lemma UpdateSeven(row: Row, columns: seq<Column>, r: seq<Row>)
    requires |columns| == 7 && |r| == 8 && r[0] == row && forall i | 0 <= i < 7 :: r[i + 1] == SetColumn(r[i], columns[i])
    ensures Update(Some(row), columns) == Some(r[7])
  {
    hide SetColumn;
    assert columns[0..] == columns && columns[7..] == [];
    UpdateAt(r[0], columns, 0);
    UpdateAt(r[1], columns, 1);
    UpdateAt(r[2], columns, 2);
    UpdateAt(r[3], columns, 3);
    UpdateAt(r[4], columns, 4);
    UpdateAt(r[5], columns, 5);
    UpdateAt(r[6], columns, 6);
  }

  lemma {:induction false} MergeAgrees(row: Row, reg: Reg)
    requires row.active && !reg.nudged && !reg.softFired
    ensures Loaded(Update(Some(row), MergeColumns(reg))) == Some(reg)
  {
    hide Update;
    var columns := MergeColumns(reg);
    var r1 := row.(soft := reg.soft);
    var r2 := r1.(hard := reg.hard);
    var r3 := r2.(lastReset := reg.lastReset);
    var r4 := r3.(persistent := reg.persistent);
    var r5 := r4.(nudged := false);
    var r6 := r5.(softFired := false);
    UpdateSeven(row, columns, [row, r1, r2, r3, r4, r5, r6, r6.(owners := reg.owners)]);
  }

  lemma StepAgrees(s: Remind, step: Step)
    requires Agrees(s)
    ensures Agrees(Apply(s, step))
  {
    hide Fire, Fired;
    if s.reg.Some? {
      match step
      case Registers(soft, hard, owner, persistent, merge, now) =>
        if merge {
          MergeAgrees(s.row.value, Merged(s.reg.value, soft, hard, owner, persistent, now));
        }
      case Resets(_, now) => ThreeColumns(s.row, now);
      case Refreshes(_, now) => ThreeColumns(s.row, now);
      case Replies(recipient, now) =>
        ThreeColumns(s.row, now);
        OneColumn(s.row, SetOwners(s.reg.value.owners - {recipient}));
      case Ticks(_, _, now, resetAt) => FireAllAgrees(s, Fired(s.reg.value, now - s.reg.value.lastReset), resetAt);
      case Crashes(now, resetAt, done, torn, _) => CutAgrees(s, now, resetAt, done, torn);
      case _ =>
    }
  }

  lemma CutAgrees(s: Remind, now: real, resetAt: real, done: nat, torn: bool)
    requires Agrees(s) && s.reg.Some?
    ensures Agrees(CutOff(s, now, resetAt, done, torn))
  {
    hide Fire, Fired;
    var fired := Fired(s.reg.value, now - s.reg.value.lastReset);
    FireAllAgrees(s, fired, resetAt);
    if done < |fired| {
      FireAllAgrees(s, fired[..done], resetAt);
    }
    hide FireAll, Loaded;
  }

  /** In every run, whatever the thresholds and wherever a process dies, the row read back is the registration in memory. */
  lemma {:induction false} MemoryIsTable(b: seq<Remind>, steps: seq<Step>, k: nat)
    requires IsRun(b, steps) && k < |b|
    ensures b[k].reg == Loaded(b[k].row)
  {
    if k > 0 {
      MemoryIsTable(b, steps, k - 1);
      hide Apply, Loaded;
      StepAgrees(b[k - 1], steps[k - 1]);
    }
  }

  // ------------------------------------------------------------- the cycles

  /** Each stage at most once, the nudge never after soft, hard last. */
  predicate InTurn(cycle: seq<Stage>) {
    && (forall i, j | 0 <= i < j < |cycle| :: cycle[i] != cycle[j])
    && (forall i, j | 0 <= i < j < |cycle| :: !(cycle[i] == Soft && cycle[j] == Nudge))
    && (forall j | 0 <= j < |cycle| && cycle[j] == Hard :: j == |cycle| - 1)
  }

  /** In turn, and hard only after soft. */
  predicate Proper(cycle: seq<Stage>) {
    InTurn(cycle) && (Hard in cycle ==> Soft in cycle)
  }

  ghost predicate AllInTurn(s: Remind) {
    InTurn(s.current) && forall i | 0 <= i < |s.past| :: InTurn(s.past[i])
  }

  ghost predicate AllProper(s: Remind) {
    Proper(s.current) && forall i | 0 <= i < |s.past| :: Proper(s.past[i])
  }

  lemma StagesInTurn(nudge: bool, soft: bool, hard: bool)
    ensures var cycle := Stages(nudge, soft, hard);
            InTurn(cycle) && (Nudge in cycle <==> nudge) && (Soft in cycle <==> soft) && (Hard in cycle <==> hard)
  {
    var cycle := Stages(nudge, soft, hard);
    assert nudge ==> cycle[0] == Nudge;
    assert soft ==> cycle[|Flag(nudge, Nudge)|] == Soft;
    assert hard ==> cycle[|cycle| - 1] == Hard;
  }

  /** Someone waits for this session and there is time for a nudge. */
  predicate Tracked(reg: Reg) {
    reg.owners != {} && reg.soft > CHECK_INTERVAL
  }

  /** The flags say which stages the current cycle holds. */
  ghost predicate Marked(s: Remind) {
    s.reg.Some? ==> s.current == Stages(s.reg.value.nudged, s.reg.value.softFired, false)
  }

  /** The thresholds are in order and a tracked session is nudged before soft. */
  ghost predicate Calm(s: Remind) {
    s.reg.Some? ==> s.reg.value.soft <= s.reg.value.hard && (Tracked(s.reg.value) && s.reg.value.softFired ==> s.reg.value.nudged)
  }

  /** What holds for any thresholds, and what more when every registration asks for them in order. */
  ghost predicate Inv(s: Remind, ordered: bool) {
    Agrees(s) && Marked(s) && AllInTurn(s) && (ordered ==> Calm(s) && AllProper(s))
  }

  /** A stage that may come next in the cycle. */
  predicate MayFire(reg: Reg, stage: Stage, ordered: bool) {
    match stage
    case Nudge => !reg.nudged && !reg.softFired
    case Soft => !reg.softFired && (ordered && Tracked(reg) ==> reg.nudged)
    case Hard => ordered ==> reg.softFired
  }

  lemma FireInv(s: Remind, stage: Stage, resetAt: real, ordered: bool)
    requires Inv(s, ordered) && s.reg.Some? && MayFire(s.reg.value, stage, ordered)
    ensures Inv(Fire(s, stage, resetAt), ordered)
  {
    hide InTurn, Agrees, Update;
    var reg := s.reg.value;
    FireAgrees(s, stage, resetAt);
    NoStages();
    var nudged, soft, hard := stage == Nudge || reg.nudged, stage == Soft || reg.softFired, stage == Hard;
    StagesInTurn(nudged, soft, hard);
    assert s.current + [stage] == Stages(nudged, soft, hard);
    hide Stages;
    assert InTurn(s.current + [stage]) && (ordered ==> Proper(s.current + [stage]));
  }

  lemma NoStages()
    ensures Proper([]) && Stages(false, false, false) == []
  {
  }

  /** The first so many stages of a poll, in order, keep every cycle in turn. */
  lemma PollInv(s: Remind, elapsed: real, resetAt: real, done: nat, ordered: bool)
    requires Inv(s, ordered) && s.reg.Some? && done <= |Fired(s.reg.value, elapsed)|
    ensures Inv(FireAll(s, Fired(s.reg.value, elapsed)[..done], resetAt), ordered)
  {
    var reg := s.reg.value;
    var nudge, soft, hard := NudgeDue(reg, elapsed), SoftDue(reg, elapsed), HardDue(reg, elapsed);
    assert ordered && Tracked(reg) && soft ==> reg.nudged || nudge;
    assert ordered && hard ==> reg.softFired || soft;
    hide Inv, Lead, FireAll, Stages;
    NextStages(s, Stages(nudge, soft, hard), nudge, soft, hard, resetAt, done, ordered);
  }

  lemma {:induction false} NextStages(s: Remind, stages: seq<Stage>, nudge: bool, soft: bool, hard: bool, resetAt: real, done: nat, ordered: bool)
    requires Inv(s, ordered) && s.reg.Some? && stages == Stages(nudge, soft, hard) && done <= |stages|
    requires nudge ==> MayFire(s.reg.value, Nudge, ordered)
    requires soft ==> !s.reg.value.softFired && (ordered && Tracked(s.reg.value) ==> s.reg.value.nudged || nudge)
    requires ordered && hard ==> s.reg.value.softFired || soft
    ensures Inv(FireAll(s, stages[..done], resetAt), ordered)
    decreases |stages|
  {
    hide Inv, FireAll, Stages;
    if done == 0 {
      FireNone(s, stages[..0], resetAt);
    } else {
      assert Stages(nudge, soft, hard) != [];
      FirstStage(nudge, soft, hard);
      var stage, rest := stages[0], stages[1..];
      FireInv(s, stage, resetAt, ordered);
      FireMarks(s, stage, resetAt);
      FireFirst(s, stages[..done], resetAt);
      assert stages[..done][1..] == rest[..done - 1];
      hide Fire, Tracked;
      NextStages(Fire(s, stage, resetAt), rest, false, nudge && soft, (nudge || soft) && hard, resetAt, done - 1, ordered);
    }
  }

  lemma FireNone(s: Remind, stages: seq<Stage>, resetAt: real)
    requires s.reg.Some? && stages == []
    ensures FireAll(s, stages, resetAt) == s
  {
  }

  lemma FireFirst(s: Remind, stages: seq<Stage>, resetAt: real)
    requires s.reg.Some? && stages != []
    ensures Fire(s, stages[0], resetAt).reg.Some?
    ensures FireAll(s, stages, resetAt) == FireAll(Fire(s, stages[0], resetAt), stages[1..], resetAt)
  {
  }

  /** What firing one stage leaves of the registration. */
  lemma FireMarks(s: Remind, stage: Stage, resetAt: real)
    requires s.reg.Some?
    ensures var t := Fire(s, stage, resetAt);
            && t.reg.Some? && Tracked(t.reg.value) == Tracked(s.reg.value)
            && (stage != Hard ==> t.reg.value.nudged == (s.reg.value.nudged || stage == Nudge))
            && (stage != Hard ==> t.reg.value.softFired == (s.reg.value.softFired || stage == Soft))
  {
  }

  lemma FirstStage(nudge: bool, soft: bool, hard: bool)
    requires Stages(nudge, soft, hard) != []
    ensures var stages := Stages(nudge, soft, hard);
            && stages[0] == (if nudge then Nudge else if soft then Soft else Hard)
            && stages[1..] == Stages(false, nudge && soft, (nudge || soft) && hard)
  {
  }

  lemma StepInv(s: Remind, step: Step, ordered: bool)
    requires Inv(s, ordered) && (ordered && step.Registers? ==> step.soft <= step.hard) && !Tears(s, step)
    ensures Inv(Apply(s, step), ordered)
  {
    StepAgrees(s, step);
    NoStages();
    if s.reg.Some? && step.Ticks? {
      TickInv(s, step, ordered);
    } else if s.reg.Some? && step.Crashes? {
      CrashInv(s, step, ordered);
    } else {
      hide InTurn, Stages, FireAll, Fired, Update, CutOff, Agrees;
      assert step.Restarts? || step.Crashes? ==> s.reg == Loaded(s.row) by { MemoryAgrees(s); }
    }
  }

  lemma MemoryAgrees(s: Remind)
    requires Agrees(s)
    ensures s.reg == Loaded(s.row)
  {
  }

  /** A poll of a live session. */
  lemma WholePollInv(s: Remind, now: real, resetAt: real, ordered: bool)
    requires Inv(s, ordered) && s.reg.Some?
    ensures Inv(FireAll(s, Fired(s.reg.value, now - s.reg.value.lastReset), resetAt), ordered)
  {
    var elapsed := now - s.reg.value.lastReset;
    var fired := Fired(s.reg.value, elapsed);
    hide Inv, FireAll, Fired;
    PollInv(s, elapsed, resetAt, |fired|, ordered);
    assert fired[..|fired|] == fired;
  }

  lemma TickInv(s: Remind, step: Step, ordered: bool)
    requires Inv(s, ordered) && s.reg.Some? && step.Ticks?
    ensures Inv(Apply(s, step), ordered)
  {
    StepAgrees(s, step);
    WholePollInv(s, step.now, step.resetAt, ordered);
    hide InTurn, Proper, Stages, FireAll, Fired, Update, Agrees;
  }

  /** Restarting from a state in order keeps it in order. */
  lemma RestartInv(s: Remind, alive: bool, ordered: bool)
    requires Inv(s, ordered)
    ensures Inv(Restart(s, alive), ordered)
  {
    hide InTurn, Proper, Stages;
  }

  lemma CrashInv(s: Remind, step: Step, ordered: bool)
    requires Inv(s, ordered) && s.reg.Some? && step.Crashes? && !Tears(s, step)
    ensures Inv(Apply(s, step), ordered)
  {
    hide Inv, FireAll, Fired, Restart;
    var elapsed := step.now - s.reg.value.lastReset;
    var fired := Fired(s.reg.value, elapsed);
    var done := if step.done >= |fired| then |fired| else step.done;
    PollInv(s, elapsed, step.resetAt, done, ordered);
    assert fired[..|fired|] == fired;
    RestartInv(FireAll(s, fired[..done], step.resetAt), step.alive, ordered);
  }

  /** No process of the run so far died between queueing a stage and marking it. */
  ghost predicate Untorn(b: seq<Remind>, steps: seq<Step>, k: nat)
    requires |b| == |steps| + 1 && k < |b|
  {
    forall m | 0 <= m < k :: !Tears(b[m], steps[m])
  }

  lemma {:induction false} RunInv(b: seq<Remind>, steps: seq<Step>, k: nat, ordered: bool)
    requires IsRun(b, steps) && k < |b| && Untorn(b, steps, k) && (ordered ==> Ordered(steps))
    ensures Inv(b[k], ordered)
  {
    hide Apply, Tears, Inv;
    if k > 0 {
      RunInv(b, steps, k - 1, ordered);
      StepInv(b[k - 1], steps[k - 1], ordered);
    } else {
      StartInv();
    }
  }

  lemma StartInv()
    ensures Inv(START, true) && Inv(START, false)
  {
  }

  // ---------------------------------------------------------------- theorems

  /**
  In every run, whatever the thresholds, every cycle fires each stage at most
  once, the nudge never after soft and nothing after hard, as long as no
  process dies between queueing a stage and marking it.
  */
  lemma CyclesAreInTurn(b: seq<Remind>, steps: seq<Step>, k: nat)
    requires IsRun(b, steps) && k < |b| && Untorn(b, steps, k)
    ensures AllInTurn(b[k])
  {
    RunInv(b, steps, k, false);
  }

  /**
  If moreover every registration asks for soft no later than hard, hard never
  comes without soft; merges keep soft no later than hard.
  */
  lemma CyclesAreProper(b: seq<Remind>, steps: seq<Step>, k: nat)
    requires IsRun(b, steps) && k < |b| && Ordered(steps) && Untorn(b, steps, k)
    ensures b[k].reg.Some? ==> b[k].reg.value.soft <= b[k].reg.value.hard
    ensures AllProper(b[k])
  {
    RunInv(b, steps, k, true);
  }

  // ------------------------------------------------------------ torn stages

  /** The state a torn stage leaves: the flags are those before it, the cycle holds it. */
  lemma TornFlags(s: Remind, step: Step)
    requires Inv(s, false) && Tears(s, step) && Apply(s, step).reg.Some?
    ensures var elapsed := step.now - s.reg.value.lastReset;
            var t, u := FireAll(s, Fired(s.reg.value, elapsed)[..step.done], step.resetAt), Apply(s, step);
            && u.reg == t.reg && u.current == t.current + [Fired(s.reg.value, elapsed)[step.done]]
  {
    var elapsed := step.now - s.reg.value.lastReset;
    var fired := Fired(s.reg.value, elapsed);
    PollInv(s, elapsed, step.resetAt, step.done, false);
    hide InTurn, FireAll, Fired, Stages;
  }

  /** A torn stage is due again at every later poll. */
  lemma TornIsDue(s: Remind, step: Step, now: real)
    requires Inv(s, false) && Tears(s, step) && Apply(s, step).reg.Some? && step.now <= now
    ensures var u := Apply(s, step);
            u.current != [] && u.current[|u.current| - 1] in Fired(u.reg.value, now - u.reg.value.lastReset)
  {
    hide Inv, Apply, FireAll, NudgeDue, SoftDue, HardDue;
    TornFlags(s, step);
    var reg, elapsed := s.reg.value, step.now - s.reg.value.lastReset;
    var nudge, soft, hard := NudgeDue(reg, elapsed), SoftDue(reg, elapsed), HardDue(reg, elapsed);
    var fired := Fired(reg, elapsed);
    var u := Apply(s, step);
    BeforeStage(s, nudge, soft, hard, step.resetAt, step.done);
    StageIsDue(reg, elapsed, step.done);
    DueAgain(reg, u.reg.value, fired[step.done], elapsed, now - u.reg.value.lastReset);
  }

  /** The cycle a poll adds to: the current one, or the one it closes. */
  function PolledCycle(s: Remind, t: Remind): seq<Stage> {
    if |t.past| > |s.past| then t.past[|t.past| - 1] else t.current
  }

  lemma PollCycle(s: Remind, now: real, resetAt: real)
    requires s.reg.Some?
    ensures var t := Tick(s, true, false, now, resetAt);
            var fired := Fired(s.reg.value, now - s.reg.value.lastReset);
            && PolledCycle(s, t) == s.current + fired
            && (if Hard in fired then t.past == s.past + [s.current + fired] && t.current == [] else t.past == s.past && t.current == s.current + fired)
  {
    hide Update;
    var reg, elapsed := s.reg.value, now - s.reg.value.lastReset;
    var nudge, soft, hard := NudgeDue(reg, elapsed), SoftDue(reg, elapsed), HardDue(reg, elapsed);
    StagesInTurn(nudge, soft, hard);
    FireInTurn(s, nudge, soft, hard, resetAt);
    hide FireAll, InTurn, NudgeDue, SoftDue, HardDue;
    var t1 := if nudge then Fire(s, Nudge, resetAt) else s;
    var t2 := if soft then Fire(t1, Soft, resetAt) else t1;
    assert t1.current == s.current + Flag(nudge, Nudge);
    assert t2.current == s.current + (Flag(nudge, Nudge) + Flag(soft, Soft));
    assert t2.current + [Hard] == s.current + (Flag(nudge, Nudge) + Flag(soft, Soft) + [Hard]);
  }

  /**
  In every run with no torn stage before: after a crash within a poll that
  leaves a registration, the next poll leaves every cycle in turn, and with
  thresholds in order proper, if and only if the crash tore no stage.
  */
  lemma TornIff(b: seq<Remind>, steps: seq<Step>, k: nat, now: real, resetAt: real)
    requires IsRun(b, steps) && k < |steps| && Untorn(b, steps, k)
    requires steps[k].Crashes? && b[k].reg.Some? && b[k + 1].reg.Some? && steps[k].now <= now
    ensures AllInTurn(Tick(b[k + 1], true, false, now, resetAt)) <==> !Tears(b[k], steps[k])
    ensures Ordered(steps) ==> (AllProper(Tick(b[k + 1], true, false, now, resetAt)) <==> !Tears(b[k], steps[k]))
  {
    hide Inv, Tears, Tick, Apply, AllProper, AllInTurn;
    assert b[k + 1] == Apply(b[k], steps[k]);
    RunInv(b, steps, k, false);
    if Tears(b[k], steps[k]) {
      TornFiresTwice(b[k], steps[k], now, resetAt);
    } else {
      StepInv(b[k], steps[k], false);
      PollInTurn(b[k + 1], now, resetAt, false);
      if Ordered(steps) {
        RunInv(b, steps, k, true);
        StepInv(b[k], steps[k], true);
        PollInTurn(b[k + 1], now, resetAt, true);
      }
    }
  }

  lemma PollInTurn(s: Remind, now: real, resetAt: real, ordered: bool)
    requires Inv(s, ordered) && s.reg.Some?
    ensures var t := Tick(s, true, false, now, resetAt); AllInTurn(t) && (ordered ==> AllProper(t))
  {
    WholePollInv(s, now, resetAt, ordered);
    hide FireAll, Fired, Proper;
  }

  /** Whatever the thresholds, the cycle of a torn stage holds it twice after the next poll. */
  lemma TornFiresTwice(s: Remind, step: Step, now: real, resetAt: real)
    requires Inv(s, false) && Tears(s, step) && Apply(s, step).reg.Some? && step.now <= now
    ensures var u := Apply(s, step);
            var t := Tick(u, true, false, now, resetAt);
            var cycle := PolledCycle(u, t);
            && u.current != [] && (exists i :: |u.current| <= i < |cycle| && cycle[i] == u.current[|u.current| - 1])
            && u.current <= cycle && !InTurn(cycle) && !AllInTurn(t) && !AllProper(t)
  {
    var u := Apply(s, step);
    hide Apply, Tick, Inv, Fired;
    TornIsDue(s, step, now);
    PollCycle(u, now, resetAt);
    var fired := Fired(u.reg.value, now - u.reg.value.lastReset);
    var n := |u.current| - 1;
    var i :| 0 <= i < |fired| && fired[i] == u.current[n];
    var cycle := u.current + fired;
    assert cycle[n] == u.current[n] && cycle[|u.current| + i] == cycle[n];
  }

  predicate Due(reg: Reg, stage: Stage, elapsed: real) {
    match stage
    case Nudge => NudgeDue(reg, elapsed)
    case Soft => SoftDue(reg, elapsed)
    case Hard => HardDue(reg, elapsed)
  }

  lemma StageIsDue(reg: Reg, elapsed: real, i: nat)
    requires i < |Fired(reg, elapsed)|
    ensures Due(reg, Fired(reg, elapsed)[i], elapsed)
  {
  }

  lemma DueAgain(reg: Reg, after: Reg, stage: Stage, elapsed: real, later: real)
    requires Due(reg, stage, elapsed) && elapsed <= later
    requires after.soft == reg.soft && after.hard == reg.hard && after.owners == reg.owners
    requires (stage == Nudge ==> after.nudged == reg.nudged) && (stage != Hard ==> after.softFired == reg.softFired)
    ensures stage in Fired(after, later)
  {
    assert Due(after, stage, later);
  }

  /** What the stages before one leave of the registration. */
  lemma BeforeStage(s: Remind, nudge: bool, soft: bool, hard: bool, resetAt: real, done: nat)
    requires s.reg.Some? && done < |Stages(nudge, soft, hard)|
    ensures var stage := Stages(nudge, soft, hard)[done];
            FireAll(s, Stages(nudge, soft, hard)[..done], resetAt).reg ==
            Some(s.reg.value.(nudged := s.reg.value.nudged || (nudge && stage != Nudge), softFired := s.reg.value.softFired || (soft && stage == Hard)))
  {
    var stages := Stages(nudge, soft, hard);
    hide Update;
    if done == 0 {
      assert stages[..0] == [];
    } else if done == 1 {
      assert stages[..1] == [stages[0]] && [stages[0]][1..] == [];
    } else {
      assert stages == [Nudge, Soft, Hard];
      assert stages[..2] == [Nudge, Soft] && [Nudge, Soft][1..] == [Soft] && [Soft][1..] == [];
    }
  }

  /** A session tracked for others is always nudged before its owners are reminded. */
  lemma TrackedIsNudgedFirst(b: seq<Remind>, steps: seq<Step>, k: nat)
    requires IsRun(b, steps) && k < |b| && Ordered(steps) && Untorn(b, steps, k)
    requires b[k].reg.Some? && Tracked(b[k].reg.value)
    ensures Soft in b[k].current ==> b[k].current == [Nudge, Soft]
  {
    RunInv(b, steps, k, true);
    StagesInTurn(b[k].reg.value.nudged, b[k].reg.value.softFired, false);
  }

  /** A poll past the hard threshold closes the cycle with soft and hard, nudged if tracked, and starts an empty one. */
  lemma OverdueCompletes(b: seq<Remind>, steps: seq<Step>, k: nat, now: real, resetAt: real)
    requires IsRun(b, steps) && k < |b| && Ordered(steps) && Untorn(b, steps, k)
    requires b[k].reg.Some? && now - b[k].reg.value.lastReset >= b[k].reg.value.hard as real
    ensures var reg, t := b[k].reg.value, Tick(b[k], true, false, now, resetAt);
            && (exists nudge :: t.past == b[k].past + [Stages(nudge, true, true)] && (Tracked(reg) ==> nudge))
            && t.current == [] && t.reg == Some(Rewound(reg, resetAt))
  {
    RunInv(b, steps, k, true);
    var s, reg := b[k], b[k].reg.value;
    var elapsed := now - reg.lastReset;
    var nudge, soft := NudgeDue(reg, elapsed), SoftDue(reg, elapsed);
    assert Tracked(reg) ==> reg.nudged || nudge;
    assert reg.softFired || soft;
    CloseCycle(s, nudge, soft, resetAt);
    assert Tick(s, true, false, now, resetAt) == FireAll(s, Stages(nudge, soft, true), resetAt);
    assert Tick(s, true, false, now, resetAt).past == s.past + [Stages(reg.nudged || nudge, true, true)];
  }

  lemma CloseCycle(s: Remind, nudge: bool, soft: bool, resetAt: real)
    requires s.reg.Some? && s.current == Stages(s.reg.value.nudged, s.reg.value.softFired, false)
    requires nudge ==> !s.reg.value.nudged && !s.reg.value.softFired
    requires soft <==> !s.reg.value.softFired
    ensures var t := FireAll(s, Stages(nudge, soft, true), resetAt);
            && t.past == s.past + [Stages(s.reg.value.nudged || nudge, true, true)]
            && t.current == [] && t.reg == Some(Rewound(s.reg.value, resetAt))
  {
    hide Update;
    var reg := s.reg.value;
    var t1 := if nudge then Fire(s, Nudge, resetAt) else s;
    var t2 := if soft then Fire(t1, Soft, resetAt) else t1;
    FireInTurn(s, nudge, soft, true, resetAt);
    assert t2.current + [Hard] == Stages(reg.nudged || nudge, true, true);
  }

  lemma {:induction false} FireAppend(s: Remind, a: seq<Stage>, c: seq<Stage>, resetAt: real)
    requires s.reg.Some?
    ensures FireAll(s, a + c, resetAt) == FireAll(FireAll(s, a, resetAt), c, resetAt)
    decreases a
  {
    hide Fire;
    if a == [] {
      assert a + c == c;
    } else {
      StillThere(s, a[0], resetAt);
      FireAppend(Fire(s, a[0], resetAt), a[1..], c, resetAt);
      assert (a + c)[1..] == a[1..] + c;
    }
  }

  lemma FireFlag(s: Remind, due: bool, stage: Stage, resetAt: real)
    requires s.reg.Some?
    ensures FireAll(s, Flag(due, stage), resetAt) == if due then Fire(s, stage, resetAt) else s
  {
    assert [stage][1..] == [];
  }

  /** Firing the stages that are due is firing each in turn. */
  lemma FireInTurn(s: Remind, nudge: bool, soft: bool, hard: bool, resetAt: real)
    requires s.reg.Some?
    ensures var t1 := if nudge then Fire(s, Nudge, resetAt) else s;
            t1.reg.Some? &&
            var t2 := if soft then Fire(t1, Soft, resetAt) else t1;
            t2.reg.Some? &&
            FireAll(s, Stages(nudge, soft, hard), resetAt) == if hard then Fire(t2, Hard, resetAt) else t2
  {
    StillThere(s, Nudge, resetAt);
    var t1 := if nudge then Fire(s, Nudge, resetAt) else s;
    StillThere(t1, Soft, resetAt);
    var t2 := if soft then Fire(t1, Soft, resetAt) else t1;
    hide Fire, FireAll;
    FireFlag(s, nudge, Nudge, resetAt);
    FireFlag(t1, soft, Soft, resetAt);
    FireFlag(t2, hard, Hard, resetAt);
    FireAppend(s, Flag(nudge, Nudge), Flag(soft, Soft), resetAt);
    FireAppend(s, Flag(nudge, Nudge) + Flag(soft, Soft), Flag(hard, Hard), resetAt);
  }

  /** The registration of step m is still there before position k, joined perhaps by others. */
  ghost predicate StillRegistered(b: seq<Remind>, steps: seq<Step>, m: nat, k: nat)
    requires m < k <= |steps| < |b|
  {
    && (forall j | m < j <= k :: b[j].reg.Some?)
    && (forall j | m < j < k && steps[j].Registers? :: steps[j].merge)
  }

  lemma {:induction false} FireKeepsThresholds(s: Remind, stages: seq<Stage>, resetAt: real)
    requires s.reg.Some?
    ensures var t := FireAll(s, stages, resetAt).reg.value; t.soft == s.reg.value.soft && t.hard == s.reg.value.hard
    decreases stages
  {
    if stages != [] {
      FireKeepsThresholds(Fire(s, stages[0], resetAt), stages[1..], resetAt);
    }
  }

  /** A step that registers nothing leaves the thresholds as they are. */
  lemma StepSameThresholds(s: Remind, step: Step)
    requires Agrees(s) && Apply(s, step).reg.Some? && !step.Registers?
    ensures s.reg.Some? && Apply(s, step).reg.value.soft == s.reg.value.soft && Apply(s, step).reg.value.hard == s.reg.value.hard
  {
    hide Fired;
    StepAgrees(s, step);
    if s.reg.Some? && (step.Ticks? || step.Crashes?) {
      var fired := Fired(s.reg.value, step.now - s.reg.value.lastReset);
      FireKeepsThresholds(s, fired, step.resetAt);
      if step.Crashes? {
        CutAgrees(s, step.now, step.resetAt, step.done, step.torn);
        if step.done < |fired| {
          FireKeepsThresholds(s, fired[..step.done], step.resetAt);
        }
      }
    }
    hide FireAll, Update;
  }

  lemma StepKeepsThresholds(s: Remind, step: Step)
    requires Agrees(s) && s.reg.Some? && Apply(s, step).reg.Some? && (step.Registers? ==> step.merge)
    ensures var t := Apply(s, step).reg.value; t.soft <= s.reg.value.soft && t.hard <= s.reg.value.hard
  {
    if !step.Registers? {
      StepSameThresholds(s, step);
      hide Apply;
    }
  }

  /** Whoever joins later, a registration's reminders never come later than it asked for. */
  lemma {:induction false} NeverLaterThanAsked(b: seq<Remind>, steps: seq<Step>, m: nat, k: nat)
    requires IsRun(b, steps) && m < k <= |steps| && steps[m].Registers? && StillRegistered(b, steps, m, k)
    ensures b[k].reg.value.soft <= steps[m].soft && b[k].reg.value.hard <= steps[m].hard
    decreases k
  {
    assert b[k] == Apply(b[k - 1], steps[k - 1]);
    if k > m + 1 {
      NeverLaterThanAsked(b, steps, m, k - 1);
      MemoryIsTable(b, steps, k - 1);
      StepKeepsThresholds(b[k - 1], steps[k - 1]);
    }
  }

  // ---------------------------------------------------- hard without soft

  /** Registration m is in force at position k. */
  ghost predicate Joined(b: seq<Remind>, steps: seq<Step>, m: int, k: nat)
    requires k <= |steps| < |b|
  {
    0 <= m < k && steps[m].Registers? && StillRegistered(b, steps, m, k)
  }

  /** In every run the thresholds in force are asked for by registrations in force, so they are the least asked for. */
  lemma {:induction false} LeastInForce(b: seq<Remind>, steps: seq<Step>, k: nat) returns (m: nat, n: nat)
    requires IsRun(b, steps) && k <= |steps| && b[k].reg.Some?
    ensures Joined(b, steps, m, k) && steps[m].soft == b[k].reg.value.soft
    ensures Joined(b, steps, n, k) && steps[n].hard == b[k].reg.value.hard
    ensures forall j | Joined(b, steps, j, k) :: b[k].reg.value.soft <= steps[j].soft && b[k].reg.value.hard <= steps[j].hard
    decreases k
  {
    forall j | Joined(b, steps, j, k) ensures b[k].reg.value.soft <= steps[j].soft && b[k].reg.value.hard <= steps[j].hard {
      NeverLaterThanAsked(b, steps, j, k);
    }
    m, n := AskedInForce(b, steps, k);
  }

  lemma {:induction false} AskedInForce(b: seq<Remind>, steps: seq<Step>, k: nat) returns (m: nat, n: nat)
    requires IsRun(b, steps) && k <= |steps| && b[k].reg.Some?
    ensures Joined(b, steps, m, k) && steps[m].soft == b[k].reg.value.soft
    ensures Joined(b, steps, n, k) && steps[n].hard == b[k].reg.value.hard
    decreases k
  {
    var j := k - 1;
    var s, step := b[j], steps[j];
    assert b[k] == Apply(s, step);
    if step.Registers? && !(step.merge && s.reg.Some?) {
      m, n := j, j;
    } else {
      MemoryIsTable(b, steps, j);
      if !step.Registers? {
        StepSameThresholds(s, step);
      }
      m, n := AskedInForce(b, steps, j);
      hide Tick, Cancel, Restart, CutOff, Reset, Reply, Refresh;
      if step.Registers? && step.soft < s.reg.value.soft {
        m := j;
      }
      if step.Registers? && step.hard < s.reg.value.hard {
        n := j;
      }
    }
  }

  /** A poll at this time closes the cycle with hard and without soft. */
  predicate SkipsSoft(s: Remind, now: real, resetAt: real) {
    var t := Tick(s, true, false, now, resetAt);
    |t.past| == |s.past| + 1 && Hard in t.past[|s.past|] && Soft !in t.past[|s.past|]
  }

  /** It does so exactly when hard is due, soft is not, and the cycle holds no soft. */
  lemma SkipsSoftWhen(s: Remind, now: real, resetAt: real)
    requires Inv(s, false) && s.reg.Some?
    ensures var reg, elapsed := s.reg.value, now - s.reg.value.lastReset;
            SkipsSoft(s, now, resetAt) <==> Soft !in s.current && reg.hard as real <= elapsed < reg.soft as real
  {
    var reg, elapsed := s.reg.value, now - s.reg.value.lastReset;
    var fired := Fired(reg, elapsed);
    StagesInTurn(reg.nudged, reg.softFired, false);
    StagesInTurn(NudgeDue(reg, elapsed), SoftDue(reg, elapsed), HardDue(reg, elapsed));
    assert Soft in s.current <==> reg.softFired;
    hide Inv, Stages, Tick, InTurn;
    PollCycle(s, now, resetAt);
    assert forall x :: x in s.current + fired <==> x in s.current || x in fired;
  }

  /** Registration m asks for hard before any registration in force asks for soft. */
  ghost predicate Undercuts(b: seq<Remind>, steps: seq<Step>, m: int, k: nat)
    requires k <= |steps| < |b|
  {
    Joined(b, steps, m, k) && forall j | Joined(b, steps, j, k) :: steps[m].hard < steps[j].soft
  }

  /**
  In every run with no torn stage, whatever the thresholds: some poll would
  close the cycle with hard and without soft if and only if the cycle holds no
  soft yet and one registration in force asks for hard before every registration
  in force asks for soft.
  */
  lemma HardWithoutSoftIff(b: seq<Remind>, steps: seq<Step>, k: nat)
    requires IsRun(b, steps) && k <= |steps| && Untorn(b, steps, k) && b[k].reg.Some?
    ensures (exists now: real, resetAt: real :: SkipsSoft(b[k], now, resetAt)) <==>
            Soft !in b[k].current && exists m :: Undercuts(b, steps, m, k)
  {
    var s, reg := b[k], b[k].reg.value;
    RunInv(b, steps, k, false);
    var m, n := LeastInForce(b, steps, k);
    hide Inv, SkipsSoft, Joined, IsRun;
    assert (exists i :: Undercuts(b, steps, i, k)) <==> reg.hard < reg.soft by {
      assert reg.hard < reg.soft ==> Undercuts(b, steps, n, k);
    }
    if Soft !in s.current && reg.hard < reg.soft {
      var now := s.reg.value.lastReset + reg.hard as real;
      SkipsSoftWhen(s, now, now);
      assert SkipsSoft(s, now, now);
    }
    forall now: real, resetAt: real | SkipsSoft(s, now, resetAt) ensures Soft !in s.current && reg.hard < reg.soft {
      SkipsSoftWhen(s, now, resetAt);
    }
  }

  /** With hard before soft, a single poll can end a cycle that holds nothing but the hard stage. */
  lemma HardAlone()
    ensures var s := Apply(Apply(START, Registers(20, 10, "", false, false, 0.0)), Ticks(true, false, 12.0, 12.0));
            s.past == [[], [Hard]]
  {
    var s := Apply(START, Registers(20, 10, "", false, false, 0.0));
    assert s.past == [[]] && Fired(s.reg.value, 12.0) == [Hard];
    assert [Hard][1..] == [];
    assert Apply(s, Ticks(true, false, 12.0, 12.0)).past == [[]] + [[] + [Hard]];
  }
}
