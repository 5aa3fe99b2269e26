/**
Remote ingestion end to end: the agent's tail on one side, a lossy FIFO
channel, and the primary's cursor table on the other.
*/
module Ingestion {
  import opened Options
  import opened ProviderCursors
  import NodeAgent

  /** The tail of one registration.  `from` is how many events the primary had applied when it took the cursor. */
  datatype Tail = Tail(next: nat, cursor: NodeAgent.Cursor, from: nat)

  /** A line on its way; its place in the file is not sent, it only lets the properties tell lines apart. */
  datatype Line = Line(place: nat, position: Position)

  datatype Net = Net(
    file: seq<Position>,        // the event file, one position per line
    store: Store,
    applied: seq<Position>,     // what the primary has recorded, in order
    tail: Option<Tail>,
    channel: seq<Line>)         // sent and not yet consumed

  datatype Step =
    | Write(p: Position)        // the provider appends a line
    | Register(from: nat, keep: nat)  // a (re-)registration with a cursor the primary holds or held
    | Send                      // the agent reads its next line
    | Disconnect(keep: nat)     // the connection drops; only a prefix of what was sent survives
    | Consume                   // the primary takes one line off its queue
    | Fail                      // it takes a line it should ingest and cannot persist the event

  /** Positions are distinct, and within an epoch each line's number exceeds the line's before. */
  predicate Orderly(file: seq<Position>) {
    && (forall i, j | 0 <= i < j < |file| :: file[i] != file[j])
    && (forall i | 0 < i < |file| && file[i - 1].epoch == file[i].epoch :: file[i - 1].num < file[i].num)
  }

  /** The cursor after the first `n` lines of a list. */
  function CursorAt(ps: seq<Position>, n: nat): NodeAgent.Cursor
    requires n <= |ps|
  {
    if n == 0 then NodeAgent.Cursor(None, None) else NodeAgent.Cursor(Some(ps[n - 1].epoch), Some(ps[n - 1].num))
  }

  predicate Enabled(s: Net, step: Step) {
    match step
    case Write(p) => Orderly(s.file + [p])
    case Register(from, keep) => from <= |s.applied| && keep <= |s.channel|
    case Send => s.tail.Some? && s.tail.value.next < |s.file|
    case Disconnect(keep) => keep <= |s.channel|
    case Consume => s.channel != []
    case Fail => s.channel != [] && ShouldIngest(s.store, s.channel[0].position)
  }

  function SendNext(s: Net): Net
    requires s.tail.Some? && s.tail.value.next < |s.file|
  {
    var t, p := s.tail.value, s.file[s.tail.value.next];
    if NodeAgent.ShouldSend(t.cursor, p.epoch, Some(p.num))
    then s.(tail := Some(Tail(t.next + 1, NodeAgent.NoteSent(t.cursor, p.epoch, Some(p.num)), t.from)),
            channel := s.channel + [Line(t.next, p)])
    else s.(tail := Some(t.(next := t.next + 1)))
  }

  function ConsumeNext(s: Net): Net
    requires s.channel != []
  {
    var p := s.channel[0].position;
    s.(store := Claim(s.store, p),
       applied := if ShouldIngest(s.store, p) then s.applied + [p] else s.applied,
       channel := s.channel[1..])
  }

  function Apply(s: Net, step: Step): Net
    requires Enabled(s, step)
  {
    match step
    case Write(p) => s.(file := s.file + [p])
    case Register(from, keep) => s.(tail := Some(Tail(0, CursorAt(s.applied, from), from)), channel := s.channel[..keep])
    case Send => SendNext(s)
    case Disconnect(keep) => s.(tail := None, channel := s.channel[..keep])
    case Consume => ConsumeNext(s)
    case Fail => s.(channel := s.channel[1..])
  }

  const START := Net([], EMPTY, [], None, [])

  ghost predicate IsRun(b: seq<Net>, steps: seq<Step>) {
    && |b| == |steps| + 1 && b[0] == START
    && forall k | 0 <= k < |steps| :: Enabled(b[k], steps[k]) && b[k + 1] == Apply(b[k], steps[k])
  }

  // ----------------------------------------------- what holds in every run

  /** The cursor table holds exactly these positions, the last of them as its cursor. */
  ghost predicate StoreIs(store: Store, applied: seq<Position>) {
    && store.positions == (set p | p in applied)
    && store.cursor == if applied == [] then None else Some(applied[|applied| - 1])
  }

  predicate Distinct(ps: seq<Position>) {
    forall i, j | 0 <= i < j < |ps| :: ps[i] != ps[j]
  }

  /** What failures leave untouched: everything applied is a line of the file, once, and recorded. */
  ghost predicate Sound(s: Net) {
    && Orderly(s.file) && StoreIs(s.store, s.applied) && Distinct(s.applied)
    && (forall p | p in s.applied :: p in s.file)
    && (forall i | 0 <= i < |s.channel| :: s.channel[i].place < |s.file| && s.file[s.channel[i].place] == s.channel[i].position)
  }

  lemma StepSound(s: Net, step: Step)
    requires Sound(s) && Enabled(s, step)
    ensures Sound(Apply(s, step))
    ensures s.applied <= Apply(s, step).applied && s.file <= Apply(s, step).file
  {
  }

  lemma {:induction false} RunSound(b: seq<Net>, steps: seq<Step>, k: nat)
    requires IsRun(b, steps) && k < |b|
    ensures Sound(b[k])
  {
    if k > 0 {
      RunSound(b, steps, k - 1);
      StepSound(b[k - 1], steps[k - 1]);
    }
  }

  lemma {:induction false} RunGrows(b: seq<Net>, steps: seq<Step>, m: nat, k: nat)
    requires IsRun(b, steps) && m <= k < |b|
    ensures b[m].applied <= b[k].applied && b[m].file <= b[k].file
    decreases k
  {
    hide Apply, Enabled, Sound;
    if m < k {
      RunGrows(b, steps, m, k - 1);
      RunSound(b, steps, k - 1);
      StepSound(b[k - 1], steps[k - 1]);
    }
  }

  // -------------------------------------------------- while it is a prefix

  predicate InStep(s: Net) { s.applied <= s.file }

  /** A line follows the one before it in the file, or starts a connection no later than what is due. */
  predicate Linked(a: nat, before: Line, line: Line) {
    line.place == before.place + 1 || line.place <= a
  }

  ghost predicate Chain(s: Net) {
    forall i | 0 < i < |s.channel| :: Linked(|s.applied|, s.channel[i - 1], s.channel[i])
  }

  /** A tail has sent its last line, or has not yet reached where it was registered. */
  ghost predicate TailInv(s: Net)
    requires InStep(s)
  {
    s.tail.Some? ==>
      var t := s.tail.value;
      && t.from <= |s.applied| && t.next <= |s.file|
      && (t.cursor == CursorAt(s.file, t.next) || (t.next < t.from && t.cursor == CursorAt(s.file, t.from)))
      && (s.channel != [] ==> t.next <= t.from || s.channel[|s.channel| - 1].place + 1 == t.next)
  }

  ghost predicate Inv(s: Net) {
    Sound(s) && InStep(s) && Chain(s) && TailInv(s)
  }

  /** The next line to arrive is due or has been applied. */
  predicate Safe(s: Net) {
    if s.channel != [] then s.channel[0].place <= |s.applied|
    else s.tail.Some? ==> s.tail.value.next <= |s.applied|
  }

  /** What the claim answers for the lines applied and for the line due. */
  lemma ClaimAnswers(s: Net)
    requires Sound(s) && InStep(s)
    ensures forall p | p in s.applied :: !ShouldIngest(s.store, p)
    ensures |s.applied| < |s.file| ==> ShouldIngest(s.store, s.file[|s.applied|])
  {
    var a := |s.applied|;
    if a < |s.file| {
      assert forall i | 0 <= i < a :: s.applied[i] == s.file[i] && s.file[i] != s.file[a];
    }
  }

  lemma InvWrite(s: Net, p: Position)
    requires Inv(s) && Orderly(s.file + [p])
    ensures var t := Apply(s, Write(p)); Inv(t) && (Safe(s) ==> Safe(t))
  {
    StepSound(s, Write(p));
    var file' := s.file + [p];
    if s.tail.Some? {
      var t := s.tail.value;
      assert CursorAt(file', t.next) == CursorAt(s.file, t.next);
      assert CursorAt(file', t.from) == CursorAt(s.file, t.from);
    }
  }

  /** A registration or a disconnection; when nothing of the channel is kept, the next line is due or known. */
  lemma InvCut(s: Net, step: Step)
    requires Inv(s) && Enabled(s, step) && (step.Register? || step.Disconnect?)
    ensures var t := Apply(s, step); Inv(t) && (Safe(s) || step.keep == 0 ==> Safe(t))
  {
    StepSound(s, step);
    if step.Register? {
      assert CursorAt(s.applied, step.from) == CursorAt(s.file, step.from);
    }
  }

  /** The line a tail was registered at, and every line after it, is sent. */
  lemma InvSend(s: Net)
    requires Inv(s) && Enabled(s, Send)
    ensures Inv(SendNext(s)) && (Safe(s) ==> Safe(SendNext(s)))
  {
    StepSound(s, Send);
    var t := s.tail.value;
    var p := s.file[t.next];
    if NodeAgent.ShouldSend(t.cursor, p.epoch, Some(p.num)) {
      hide Sound;
      SentInv(s, SendNext(s), Line(t.next, p));
    } else {
      assert t.cursor != CursorAt(s.file, t.next);
      hide Sound;
    }
  }

  lemma SentInv(s: Net, u: Net, line: Line)
    requires InStep(s) && Chain(s) && TailInv(s) && s.tail.Some? && line.place == s.tail.value.next < |s.file|
    requires u == s.(tail := Some(Tail(line.place + 1, CursorAt(s.file, line.place + 1), s.tail.value.from)), channel := s.channel + [line])
    ensures Chain(u) && TailInv(u) && (Safe(s) ==> Safe(u))
  {
  }

  lemma InvDrop(s: Net)
    requires Inv(s) && s.channel != []
    ensures var t := s.(channel := s.channel[1..]);
            Chain(t) && TailInv(t) && (s.channel[0].place < |s.applied| ==> Safe(t))
  {
  }

  /** Consuming the line due, or a line that is refused. */
  lemma InvConsume(s: Net)
    requires Inv(s) && s.channel != [] && InStep(ConsumeNext(s))
    ensures var t := ConsumeNext(s);
            Inv(t) && (Safe(s) || t.applied != s.applied ==> Safe(t))
  {
    StepSound(s, Consume);
    ConsumedPlace(s);
    hide Sound, ShouldIngest;
    InvDrop(s);
    Restock(s, ConsumeNext(s));
  }

  /** A line that is taken is the one due; a line refused that is not ahead has been applied. */
  lemma ConsumedPlace(s: Net)
    requires Inv(s) && s.channel != [] && InStep(ConsumeNext(s))
    ensures var a, line := |s.applied|, s.channel[0];
            if ShouldIngest(s.store, line.position) then line.place == a else line.place != a
  {
    ClaimAnswers(s);
    var a, line := |s.applied|, s.channel[0];
    hide Chain, TailInv, ShouldIngest;
    if ShouldIngest(s.store, line.position) {
      var t := ConsumeNext(s);
      assert t.applied[a] == line.position == t.file[a];
    }
  }

  lemma Restock(s: Net, t: Net)
    requires Inv(s) && s.channel != [] && InStep(t)
    requires t.file == s.file && t.tail == s.tail && t.channel == s.channel[1..]
    requires t.applied == s.applied || (|t.applied| == |s.applied| + 1 && s.channel[0].place == |s.applied|)
    requires t.applied == s.applied ==> s.channel[0].place != |s.applied|
    ensures Chain(t) && TailInv(t) && (Safe(s) || t.applied != s.applied ==> Safe(t))
  {
    hide Sound;
  }

  lemma SafeConsume(s: Net)
    requires Inv(s) && Safe(s) && s.channel != []
    ensures InStep(ConsumeNext(s))
  {
    var a, line := |s.applied|, s.channel[0];
    ClaimAnswers(s);
    if line.place < a {
      assert s.applied[line.place] == line.position;
    }
  }

  // -------------------------------------------------------------- failures

  /** A step that takes a line and applies it. */
  predicate Claims(s: Net, step: Step) {
    step.Consume? && s.channel != [] && ShouldIngest(s.store, s.channel[0].position)
  }

  /** The event due next is taken and cannot be persisted. */
  predicate FailsDue(s: Net, step: Step) {
    step.Fail? && s.channel != [] && s.channel[0].place == |s.applied|
  }

  predicate DropsChannel(step: Step) {
    (step.Register? || step.Disconnect?) && step.keep == 0
  }

  /** The event due at step m failed; up to position k nothing has been applied since and the channel was not dropped. */
  ghost predicate Unmended(b: seq<Net>, steps: seq<Step>, m: nat, k: nat)
    requires |b| == |steps| + 1
  {
    && m < k < |b| && FailsDue(b[m], steps[m])
    && forall j | m < j < k :: !Claims(b[j], steps[j]) && !DropsChannel(steps[j])
  }

  /** Before position k some other event was applied where a failed one was due. */
  ghost predicate Overtaken(b: seq<Net>, steps: seq<Step>, k: nat)
    requires |b| == |steps| + 1 && k < |b|
  {
    exists m: nat, j: nat :: j < k && Unmended(b, steps, m, j) && Claims(b[j], steps[j]) && b[j].channel[0].place != b[m].channel[0].place
  }

  ghost predicate SomeUnmended(b: seq<Net>, steps: seq<Step>, k: nat)
    requires |b| == |steps| + 1 && k < |b|
  {
    exists m: nat :: Unmended(b, steps, m, k)
  }

  lemma StepInv(s: Net, step: Step)
    requires Inv(s) && Enabled(s, step) && InStep(Apply(s, step))
    ensures var t := Apply(s, step);
            Inv(t) && ((Safe(s) && !FailsDue(s, step)) || DropsChannel(step) || Claims(s, step) ==> Safe(t))
  {
    match step
    case Write(p) => InvWrite(s, p);
    case Register(_, _) => InvCut(s, step);
    case Disconnect(_) => InvCut(s, step);
    case Send => InvSend(s);
    case Consume => InvConsume(s);
    case Fail =>
      StepSound(s, step);
      InvDrop(s);
      ClaimAnswers(s);
      KnownIsRefused(s, s.channel[0].place);
  }

  lemma KnownIsRefused(s: Net, i: nat)
    requires Sound(s) && InStep(s)
    ensures i < |s.applied| ==> !ShouldIngest(s.store, s.file[i])
  {
    assert i < |s.applied| ==> s.applied[i] == s.file[i];
  }

  /** Being in step now means having been in step before. */
  lemma StepBack(s: Net, step: Step)
    requires Sound(s) && Enabled(s, step) && InStep(Apply(s, step))
    ensures InStep(s)
  {
    if step.Write? {
      var file' := s.file + [step.p];
      assert file'[|s.file|] == step.p;
      assert forall i | 0 <= i < |s.file| :: file'[i] == s.file[i] && file'[i] != file'[|s.file|];
      assert step.p !in s.applied;
      assert forall i | 0 <= i < |s.applied| :: s.applied[i] == file'[i] && file'[i] != step.p;
      assert |s.applied| <= |s.file|;
    }
  }

  lemma StartInv()
    ensures Inv(START) && Safe(START)
  {
  }

  lemma StillUnmended(b: seq<Net>, steps: seq<Step>, k: nat)
    requires |b| == |steps| + 1 && 0 < k < |b| && !Claims(b[k - 1], steps[k - 1]) && !DropsChannel(steps[k - 1])
    requires FailsDue(b[k - 1], steps[k - 1]) || SomeUnmended(b, steps, k - 1)
    ensures SomeUnmended(b, steps, k)
  {
    hide Claims, FailsDue, DropsChannel;
    if FailsDue(b[k - 1], steps[k - 1]) {
      assert Unmended(b, steps, k - 1, k);
    } else {
      var m: nat :| Unmended(b, steps, m, k - 1);
      assert Unmended(b, steps, m, k);
    }
  }

  /** While the primary is in step, the next line is due or known, unless an event that failed when due is still unmended. */
  lemma {:induction false} RunInv(b: seq<Net>, steps: seq<Step>, k: nat)
    requires IsRun(b, steps) && k < |b| && InStep(b[k])
    ensures Inv(b[k]) && (Safe(b[k]) || SomeUnmended(b, steps, k))
  {
    hide Apply, Enabled, Inv, Safe, InStep, Claims, FailsDue, DropsChannel, SomeUnmended;
    if k == 0 {
      StartInv();
    } else {
      var s, step := b[k - 1], steps[k - 1];
      assert Enabled(s, step) && b[k] == Apply(s, step);
      RunSound(b, steps, k - 1);
      StepBack(s, step);
      RunInv(b, steps, k - 1);
      StepInv(s, step);
      if !Safe(b[k]) {
        StillUnmended(b, steps, k);
      }
    }
  }

  lemma {:induction false} NothingApplied(b: seq<Net>, steps: seq<Step>, m: nat, k: nat)
    requires IsRun(b, steps) && Unmended(b, steps, m, k)
    ensures b[k].applied == b[m].applied
    decreases k
  {
    assert b[m + 1].applied == b[m].applied;
    if k > m + 1 {
      assert Unmended(b, steps, m, k - 1);
      NothingApplied(b, steps, m, k - 1);
      assert !Claims(b[k - 1], steps[k - 1]);
    }
  }

  /** The step at which the primary first falls out of step. */
  lemma {:induction false} FirstSlip(b: seq<Net>, steps: seq<Step>, k: nat) returns (j: nat)
    requires IsRun(b, steps) && k < |b| && !InStep(b[k])
    ensures j < k && InStep(b[j]) && !InStep(b[j + 1])
  {
    if InStep(b[k - 1]) {
      j := k - 1;
    } else {
      j := FirstSlip(b, steps, k - 1);
    }
  }

  /** The line that puts the primary out of step was not due. */
  lemma SlipIsEarly(s: Net, step: Step)
    requires Sound(s) && InStep(s) && Enabled(s, step) && !InStep(Apply(s, step))
    ensures Claims(s, step) && s.channel[0].place != |s.applied|
  {
    if Claims(s, step) && s.channel[0].place == |s.applied| {
      DueKeepsStep(s);
    }
  }

  lemma DueKeepsStep(s: Net)
    requires Sound(s) && InStep(s) && s.channel != [] && s.channel[0].place == |s.applied|
    ensures InStep(ConsumeNext(s))
  {
    assert s.file[..|s.applied| + 1] == s.applied + [s.channel[0].position];
  }

  lemma SlipMeansOvertaken(b: seq<Net>, steps: seq<Step>, k: nat)
    requires IsRun(b, steps) && k < |b| && !InStep(b[k])
    ensures Overtaken(b, steps, k)
  {
    var j := FirstSlip(b, steps, k);
    RunSound(b, steps, j);
    SlipIsEarly(b[j], steps[j]);
    RunInv(b, steps, j);
    if Safe(b[j]) {
      SafeConsume(b[j]);
    }
    var m: nat :| Unmended(b, steps, m, j);
    NothingApplied(b, steps, m, j);
  }

  lemma OvertakenMeansSlip(b: seq<Net>, steps: seq<Step>, k: nat)
    requires IsRun(b, steps) && k < |b| && Overtaken(b, steps, k)
    ensures !InStep(b[k])
  {
    var m: nat, j: nat :| j < k && Unmended(b, steps, m, j) && Claims(b[j], steps[j]) && b[j].channel[0].place != b[m].channel[0].place;
    NothingApplied(b, steps, m, j);
    RunSound(b, steps, j);
    RunSound(b, steps, k);
    RunGrows(b, steps, j, k);
    RunGrows(b, steps, j + 1, k);
    var a, line := |b[j].applied|, b[j].channel[0];
    assert b[j + 1].applied == b[j].applied + [line.position];
    assert b[k].applied[a] == line.position == b[k].file[line.place];
    Displaced(b[k].applied, b[k].file, a, line.place);
  }

  lemma Displaced(applied: seq<Position>, file: seq<Position>, a: nat, place: nat)
    requires Distinct(file) && a < |applied| && place < |file| && applied[a] == file[place] && a != place
    ensures !(applied <= file)
  {
  }

  // -------------------------------------------------------------- theorems

  /**
  Exactly once and in order, over any interleaving of writes, registrations,
  sends, disconnects, consumption and failures to persist: nothing is applied
  twice, and what is applied is a prefix of the file if and only if no event
  that failed when due was overtaken, that is, no other event was applied
  next, before the channel was dropped or the event itself was applied.
  */
  lemma AppliedIsPrefix(b: seq<Net>, steps: seq<Step>, k: nat)
    requires IsRun(b, steps) && k < |b|
    ensures b[k].applied <= b[k].file <==> !Overtaken(b, steps, k)
    ensures forall i, j | 0 <= i < j < |b[k].applied| :: b[k].applied[i] != b[k].applied[j]
    ensures forall p | p in b[k].applied :: p in b[k].file
    ensures b[k].store.positions == (set p | p in b[k].applied)
  {
    RunSound(b, steps, k);
    if Overtaken(b, steps, k) {
      OvertakenMeansSlip(b, steps, k);
    } else if !InStep(b[k]) {
      SlipMeansOvertaken(b, steps, k);
    }
  }

  /** Without a failure on an event that is due, the applied events are always a prefix. */
  lemma NoFailureNoSlip(b: seq<Net>, steps: seq<Step>, k: nat)
    requires IsRun(b, steps) && k < |b| && forall m | 0 <= m < k :: !FailsDue(b[m], steps[m])
    ensures b[k].applied <= b[k].file
  {
    AppliedIsPrefix(b, steps, k);
  }

  /**
  A connection that has read the whole file and been consumed has had all of
  it applied if and only if no due event that failed was overtaken or is
  still unmended.
  */
  lemma DrainedIsComplete(b: seq<Net>, steps: seq<Step>, k: nat)
    requires IsRun(b, steps) && k < |b|
    requires b[k].tail.Some? && b[k].tail.value.next == |b[k].file| && b[k].channel == []
    ensures b[k].applied == b[k].file <==> !Overtaken(b, steps, k) && !SomeUnmended(b, steps, k)
  {
    AppliedIsPrefix(b, steps, k);
    if InStep(b[k]) {
      RunInv(b, steps, k);
    }
    if SomeUnmended(b, steps, k) {
      var m: nat :| Unmended(b, steps, m, k);
      NothingApplied(b, steps, m, k);
      RunSound(b, steps, m);
      RunGrows(b, steps, m, k);
    }
  }

  function SendAll(s: Net, n: nat): Net
    decreases n
  {
    if n == 0 || s.tail.None? || s.tail.value.next >= |s.file| then s else SendAll(SendNext(s), n - 1)
  }

  function ConsumeAll(s: Net): Net
    decreases |s.channel|
  {
    if s.channel == [] then s else ConsumeAll(ConsumeNext(s))
  }

  /** An undisturbed connection: everything before it is dropped, the whole file is read, every line is consumed. */
  function Connect(s: Net, from: nat): Net
    requires from <= |s.applied|
  {
    ConsumeAll(SendAll(Apply(s, Register(from, 0)), |s.file|))
  }

  lemma SendNextMoves(s: Net)
    requires Enabled(s, Send)
    ensures var t := SendNext(s); t.file == s.file && t.tail.Some? && t.tail.value.next == s.tail.value.next + 1
  {
  }

  lemma {:induction false} SendAllReads(s: Net, n: nat)
    requires Inv(s) && Safe(s) && s.tail.Some? && s.tail.value.next + n == |s.file|
    ensures var t := SendAll(s, n); Inv(t) && Safe(t) && t.file == s.file && t.tail.Some? && t.tail.value.next == |s.file|
    decreases n
  {
    hide Inv, SendNext, Safe;
    if n > 0 {
      InvSend(s);
      SendNextMoves(s);
      SendAllReads(SendNext(s), n - 1);
    }
  }

  lemma {:induction false} ConsumeAllEmpties(s: Net)
    requires Inv(s) && Safe(s)
    ensures var t := ConsumeAll(s); Inv(t) && Safe(t) && t.file == s.file && t.tail == s.tail && t.channel == []
    decreases |s.channel|
  {
    if s.channel != [] {
      SafeConsume(s);
      InvConsume(s);
      hide Inv, Safe;
      ConsumeAllEmpties(ConsumeNext(s));
    }
  }

  lemma {:induction false} SendAllApplies(s: Net, n: nat)
    ensures SendAll(s, n).applied == s.applied
    decreases n
  {
    if n > 0 && s.tail.Some? && s.tail.value.next < |s.file| {
      SendAllApplies(SendNext(s), n - 1);
    }
  }

  lemma {:induction false} ConsumeAllGrows(s: Net)
    ensures s.applied <= ConsumeAll(s).applied
    decreases |s.channel|
  {
    if s.channel != [] {
      ConsumeAllGrows(ConsumeNext(s));
    }
  }

  /** One undisturbed connection, whatever cursor it starts from, applies the whole file if and only if nothing due was ever overtaken. */
  lemma OneConnectionSuffices(b: seq<Net>, steps: seq<Step>, k: nat, from: nat)
    requires IsRun(b, steps) && k < |b| && from <= |b[k].applied|
    ensures Connect(b[k], from).applied == b[k].file <==> !Overtaken(b, steps, k)
  {
    AppliedIsPrefix(b, steps, k);
    if !Overtaken(b, steps, k) {
      RunInv(b, steps, k);
      var s := b[k];
      var r := Apply(s, Register(from, 0));
      InvCut(s, Register(from, 0));
      SendAllReads(r, |s.file|);
      ConsumeAllEmpties(SendAll(r, |s.file|));
    } else {
      hide Overtaken, ConsumeAll, SendAll;
      var r := Apply(b[k], Register(from, 0));
      SendAllApplies(r, |b[k].file|);
      ConsumeAllGrows(SendAll(r, |b[k].file|));
    }
  }

  // --------------------------------------------- when the file is the cause

  /** One connection to a fresh primary, line by line: filter, then claim. */
  datatype Fresh = Fresh(cursor: NodeAgent.Cursor, store: Store, applied: seq<Position>)

  function FreshLine(r: Fresh, p: Position): Fresh {
    if !NodeAgent.ShouldSend(r.cursor, p.epoch, Some(p.num)) then r
    else Fresh(NodeAgent.NoteSent(r.cursor, p.epoch, Some(p.num)), Claim(r.store, p),
               if ShouldIngest(r.store, p) then r.applied + [p] else r.applied)
  }

  function FreshDrain(file: seq<Position>): (r: Fresh)
    ensures |r.applied| <= |file|
  {
    if file == [] then Fresh(NodeAgent.Cursor(None, None), EMPTY, [])
    else FreshLine(FreshDrain(file[..|file| - 1]), file[|file| - 1])
  }

  lemma {:induction false} FreshState(file: seq<Position>)
    requires FreshDrain(file).applied == file
    ensures var r := FreshDrain(file);
            && r.cursor == CursorAt(file, |file|)
            && StoreIs(r.store, file)
    ensures file != [] ==> FreshDrain(file[..|file| - 1]).applied == file[..|file| - 1]
  {
    if file != [] {
      var front := file[..|file| - 1];
      assert |FreshDrain(front).applied| <= |front|;
      assert FreshDrain(file).applied == FreshDrain(front).applied + [file[|file| - 1]];
      FreshState(front);
    }
  }

  lemma OrderlyAppend(front: seq<Position>, p: Position)
    ensures Orderly(front + [p]) <==>
            && Orderly(front) && p !in front
            && (front != [] && front[|front| - 1].epoch == p.epoch ==> front[|front| - 1].num < p.num)
  {
    var file := front + [p];
    assert forall i | 0 <= i < |front| :: file[i] == front[i];
    assert file[|front|] == p;
    if Orderly(file) {
      assert forall i | 0 <= i < |front| :: file[i] != file[|front|];
    }
  }

  lemma FreshNothing()
    ensures FreshDrain([]).applied == [] && Orderly([])
  {
  }

  lemma FreshUnfolds(front: seq<Position>, p: Position)
    ensures FreshDrain(front + [p]) == FreshLine(FreshDrain(front), p)
  {
    assert (front + [p])[..|front|] == front;
  }

  lemma FreshLineIff(front: seq<Position>, r: Fresh, p: Position)
    requires r.applied == front && r.cursor == CursorAt(front, |front|)
    requires StoreIs(r.store, front)
    ensures FreshLine(r, p).applied == front + [p] <==>
            && p !in front
            && (front != [] && front[|front| - 1].epoch == p.epoch ==> front[|front| - 1].num < p.num)
  {
    assert |front| < |front + [p]|;
  }

  lemma FreshStep(front: seq<Position>, p: Position)
    requires FreshDrain(front).applied == front
    ensures FreshDrain(front + [p]).applied == front + [p] <==>
            && p !in front
            && (front != [] && front[|front| - 1].epoch == p.epoch ==> front[|front| - 1].num < p.num)
  {
    hide FreshDrain, FreshLine, StoreIs, CursorAt;
    FreshState(front);
    FreshUnfolds(front, p);
    FreshLineIff(front, FreshDrain(front), p);
  }

  /** The exact condition: a fresh primary applies the whole file if and only if the file is orderly. */
  lemma {:induction false} FreshDrainIff(file: seq<Position>)
    ensures FreshDrain(file).applied == file <==> Orderly(file)
  {
    hide FreshDrain, Orderly;
    if file == [] {
      FreshNothing();
    } else {
      var front, p := file[..|file| - 1], file[|file| - 1];
      assert file == front + [p];
      FreshDrainIff(front);
      OrderlyAppend(front, p);
      if FreshDrain(front).applied == front {
        FreshStep(front, p);
      } else if FreshDrain(file).applied == file {
        FreshState(file);
      }
    }
  }
}
