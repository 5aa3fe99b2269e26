/**
After a failure to persist: what a later connection still applies, and what it
never will.
*/
module IngestionRepair {
  import opened Basics
  import opened Options
  import opened ProviderCursors
  import opened Ingestion
  import NodeAgent

  /** The cursor says that this position is behind it. */
  predicate Covers(cursor: Option<Position>, p: Position) {
    cursor.Some? && cursor.value.epoch == p.epoch && p.num <= cursor.value.num
  }

  /** The lines applied when a list is shown to the primary one by one: those neither applied nor behind the last one applied. */
  function Sifted(ps: seq<Position>, applied: seq<Position>, cursor: Option<Position>): seq<Position> {
    if ps == [] then []
    else if ps[0] in applied || Covers(cursor, ps[0]) then Sifted(ps[1..], applied, cursor)
    else [ps[0]] + Sifted(ps[1..], applied, Some(ps[0]))
  }

  /** The cursor after that. */
  function Front(ps: seq<Position>, applied: seq<Position>, cursor: Option<Position>): Option<Position> {
    var news := Sifted(ps, applied, cursor);
    if news == [] then cursor else Some(news[|news| - 1])
  }

  lemma {:induction false} SiftedSkips(ps: seq<Position>, applied: seq<Position>, cursor: Option<Position>, p: Position)
    requires p !in ps
    ensures Sifted(ps, applied + [p], cursor) == Sifted(ps, applied, cursor)
  {
    if ps != [] {
      SiftedSkips(ps[1..], applied, cursor, p);
      SiftedSkips(ps[1..], applied, Some(ps[0]), p);
    }
  }

  lemma {:induction false} SiftedSplit(a: seq<Position>, c: seq<Position>, applied: seq<Position>, cursor: Option<Position>)
    ensures Sifted(a + c, applied, cursor) == Sifted(a, applied, cursor) + Sifted(c, applied, Front(a, applied, cursor))
    decreases a
  {
    if a == [] {
      assert a + c == c;
    } else {
      assert (a + c)[1..] == a[1..] + c;
      SiftedSplit(a[1..], c, applied, cursor);
      SiftedSplit(a[1..], c, applied, Some(a[0]));
    }
  }

  lemma {:induction false} SiftedFrom(ps: seq<Position>, applied: seq<Position>, cursor: Option<Position>)
    ensures forall p | p in Sifted(ps, applied, cursor) :: p in ps && p !in applied
  {
    if ps != [] {
      SiftedFrom(ps[1..], applied, cursor);
      SiftedFrom(ps[1..], applied, Some(ps[0]));
      assert ps == [ps[0]] + ps[1..];
    }
  }

  /** A line is sifted out of a list exactly when it is not applied and the cursor reached before it does not hide it. */
  lemma SiftedHas(ps: seq<Position>, applied: seq<Position>, cursor: Option<Position>, i: nat)
    requires Distinct(ps) && i < |ps|
    ensures ps[i] in Sifted(ps, applied, cursor) <==> ps[i] !in applied && !Covers(Front(ps[..i], applied, cursor), ps[i])
  {
    var front, rest := Front(ps[..i], applied, cursor), ps[i + 1..];
    assert ps == ps[..i] + ps[i..] && ps[i..] == [ps[i]] + rest && ps[i..][1..] == rest;
    SiftedSplit(ps[..i], ps[i..], applied, cursor);
    SiftedFrom(ps[..i], applied, cursor);
    SiftedFrom(rest, applied, front);
    assert ps[i] !in ps[..i] && ps[i] !in rest;
  }

  /** A line that is not applied and that the cursor does not hide. */
  predicate Pending(s: Net, i: nat)
    requires i < |s.file|
  {
    s.file[i] !in s.applied && !Covers(s.store.cursor, s.file[i])
  }

  function FirstPending(s: Net, n: nat): (f: nat)
    requires n <= |s.file|
    ensures n <= f <= |s.file| && (f < |s.file| ==> Pending(s, f)) && forall i | n <= i < f :: !Pending(s, i)
    decreases |s.file| - n
  {
    if n == |s.file| || Pending(s, n) then n else FirstPending(s, n + 1)
  }

  /** Numbers rise through the whole of each epoch, also when it comes back later. */
  predicate Rising(file: seq<Position>) {
    forall i, j | 0 <= i < j < |file| && file[i].epoch == file[j].epoch :: file[i].num < file[j].num
  }

  /** The lines not yet applied, in order. */
  function Unapplied(ps: seq<Position>, applied: seq<Position>): seq<Position> {
    if ps == [] then [] else (if ps[0] in applied then [] else [ps[0]]) + Unapplied(ps[1..], applied)
  }

  lemma {:induction false} UnappliedHas(ps: seq<Position>, applied: seq<Position>, p: Position)
    ensures p in Unapplied(ps, applied) <==> p in ps && p !in applied
  {
    if ps != [] {
      UnappliedHas(ps[1..], applied, p);
      assert ps == [ps[0]] + ps[1..];
    }
  }

  // ------------------------------------------------------------ what is sent

  function LinesFrom(file: seq<Position>, n: nat): seq<Line>
    requires n <= |file|
    decreases |file| - n
  {
    if n == |file| then [] else [Line(n, file[n])] + LinesFrom(file, n + 1)
  }

  /** The lines sent from place n up to m. */
  function LinesTo(file: seq<Position>, n: nat, m: nat): seq<Line>
    requires n <= m <= |file|
    decreases m
  {
    if n == m then [] else LinesTo(file, n, m - 1) + [Line(m - 1, file[m - 1])]
  }

  lemma {:induction false} LinesAgree(file: seq<Position>, n: nat, m: nat)
    requires n <= m <= |file|
    ensures LinesTo(file, n, m) + LinesFrom(file, m) == LinesFrom(file, n)
    decreases m
  {
    if n < m {
      LinesAgree(file, n, m - 1);
      var sent, rest := LinesTo(file, n, m - 1), LinesFrom(file, m);
      assert sent + ([Line(m - 1, file[m - 1])] + rest) == (sent + [Line(m - 1, file[m - 1])]) + rest;
    }
  }

  /** The first line the cursor does not hide. */
  function FirstOpen(file: seq<Position>, cursor: Option<Position>, n: nat): (f: nat)
    requires n <= |file|
    ensures n <= f <= |file| && (f < |file| ==> !Covers(cursor, file[f])) && forall i | n <= i < f :: Covers(cursor, file[i])
    decreases |file| - n
  {
    if n == |file| || !Covers(cursor, file[n]) then n else FirstOpen(file, cursor, n + 1)
  }

  /** A tail registered with the primary's cursor, having read the first n lines. */
  ghost predicate Reading(s: Net, n: nat) {
    && Orderly(s.file) && n <= |s.file| && s.tail.Some? && s.tail.value.next == n
    && var f := FirstOpen(s.file, s.store.cursor, 0);
       if n <= f
       then s.channel == [] && s.tail.value.cursor == (if s.store.cursor.None? then NodeAgent.Cursor(None, None)
                                                       else NodeAgent.Cursor(Some(s.store.cursor.value.epoch), Some(s.store.cursor.value.num)))
       else s.channel == LinesTo(s.file, f, n) && s.tail.value.cursor == CursorAt(s.file, n)
  }

  lemma ReadOne(s: Net, n: nat)
    requires Reading(s, n) && n < |s.file|
    ensures var t := SendNext(s);
            Reading(t, n + 1) && t.file == s.file && t.store == s.store && t.applied == s.applied
  {
  }

  lemma {:induction false} ReadAll(s: Net, n: nat)
    requires Reading(s, n)
    ensures var t := SendAll(s, |s.file| - n);
            && t.channel == LinesFrom(s.file, FirstOpen(s.file, s.store.cursor, 0))
            && t.file == s.file && t.store == s.store && t.applied == s.applied
    decreases |s.file| - n
  {
    hide Reading;
    if n < |s.file| {
      assert s.tail.Some? && s.tail.value.next == n by { ReadingMeans(s, n); }
      ReadOne(s, n);
      ReadAll(SendNext(s), n + 1);
    } else {
      ReadingMeans(s, n);
    }
  }

  lemma ReadingMeans(s: Net, n: nat)
    requires Reading(s, n)
    ensures s.tail.Some? && s.tail.value.next == n <= |s.file|
    ensures n == |s.file| ==> s.channel == LinesFrom(s.file, FirstOpen(s.file, s.store.cursor, 0))
  {
    var f := FirstOpen(s.file, s.store.cursor, 0);
    if n == |s.file| && n > f {
      LinesAgree(s.file, f, n);
    }
  }

  // --------------------------------------------------------- what is applied

  /** Consuming the line at n when it is accepted. */
  lemma TakeNew(s: Net, n: nat)
    requires Sound(s) && n < |s.file| && s.channel == LinesFrom(s.file, n) && ShouldIngest(s.store, s.file[n])
    ensures var t := ConsumeNext(s);
            && s.channel != [] && Sound(t) && t.file == s.file && t.channel == LinesFrom(s.file, n + 1)
            && t.applied == s.applied + [s.file[n]] && t.store.cursor == Some(s.file[n])
  {
    StepSound(s, Consume);
  }

  lemma TakeOld(s: Net, n: nat)
    requires Sound(s) && n < |s.file| && s.channel == LinesFrom(s.file, n) && !ShouldIngest(s.store, s.file[n])
    ensures var t := ConsumeNext(s);
            s.channel != [] && Sound(t) && t == s.(channel := LinesFrom(s.file, n + 1))
  {
    StepSound(s, Consume);
  }

  lemma Answer(s: Net, p: Position)
    requires Sound(s)
    ensures ShouldIngest(s.store, p) <==> p !in s.applied && !Covers(s.store.cursor, p)
  {
  }

  lemma HasLine(s: Net, n: nat)
    requires n < |s.file| && s.channel == LinesFrom(s.file, n)
    ensures s.channel != []
  {
  }

  lemma FileDistinct(s: Net)
    requires Sound(s)
    ensures Distinct(s.file)
  {
  }

  lemma SiftStep(file: seq<Position>, applied: seq<Position>, cursor: Option<Position>, n: nat)
    requires Distinct(file) && n < |file|
    ensures var p := file[n];
            if p in applied || Covers(cursor, p) then Sifted(file[n..], applied, cursor) == Sifted(file[n + 1..], applied, cursor)
            else applied + Sifted(file[n..], applied, cursor) == (applied + [p]) + Sifted(file[n + 1..], applied + [p], Some(p))
  {
    var p, rest := file[n], file[n + 1..];
    assert file[n..][0] == p && file[n..][1..] == rest;
    if !(p in applied || Covers(cursor, p)) {
      SiftedSkips(rest, applied, Some(p), p);
      assert (applied + [p]) + Sifted(rest, applied, Some(p)) == applied + ([p] + Sifted(rest, applied, Some(p)));
    }
  }

  lemma NothingLeft(s: Net)
    requires s.channel == LinesFrom(s.file, |s.file|)
    ensures ConsumeAll(s) == s && Sifted(s.file[|s.file|..], s.applied, s.store.cursor) == []
  {
  }

  lemma {:induction false} ConsumeSifts(s: Net, n: nat)
    requires Sound(s) && n <= |s.file| && s.channel == LinesFrom(s.file, n)
    ensures ConsumeAll(s).applied == s.applied + Sifted(s.file[n..], s.applied, s.store.cursor)
    decreases |s.file| - n
  {
    hide Sound, ConsumeNext, Sifted, LinesFrom, ShouldIngest, Covers;
    if n == |s.file| {
      NothingLeft(s);
    } else {
      HasLine(s, n);
      var p, t := s.file[n], ConsumeNext(s);
      Answer(s, p);
      FileDistinct(s);
      SiftStep(s.file, s.applied, s.store.cursor, n);
      if p in s.applied || Covers(s.store.cursor, p) {
        TakeOld(s, n);
      } else {
        TakeNew(s, n);
      }
      ConsumeSifts(t, n + 1);
    }
  }

  lemma {:induction false} HiddenSiftOut(file: seq<Position>, applied: seq<Position>, cursor: Option<Position>, f: nat, n: nat)
    requires n <= f <= |file| && forall i | n <= i < f :: Covers(cursor, file[i])
    ensures Sifted(file[n..], applied, cursor) == Sifted(file[f..], applied, cursor)
    decreases f - n
  {
    if n < f {
      HiddenSiftOut(file, applied, cursor, f, n + 1);
      assert file[n..][0] == file[n] && file[n..][1..] == file[n + 1..];
    }
  }

  /**
  One undisturbed connection with the primary's own cursor does what showing it
  the whole file line by line would: the agent's own filter changes nothing.
  */
  lemma ConnectionApplies(b: seq<Net>, steps: seq<Step>, k: nat)
    requires IsRun(b, steps) && k < |b|
    ensures var s := b[k];
            Connect(s, |s.applied|).applied == s.applied + Sifted(s.file, s.applied, s.store.cursor)
  {
    RunSound(b, steps, k);
    ConnectIs(b[k]);
  }

  lemma ConnectIs(s: Net)
    requires Sound(s)
    ensures Connect(s, |s.applied|).applied == s.applied + Sifted(s.file, s.applied, s.store.cursor)
  {
    hide Sound, Reading, ConsumeAll, SendAll, Sifted, Apply, Covers, FirstOpen, LinesFrom;
    var r := Apply(s, Register(|s.applied|, 0));
    RegisterReads(s);
    ReadAll(r, 0);
    var t := SendAll(r, |s.file|);
    var f := FirstOpen(s.file, s.store.cursor, 0);
    SentSound(r, t, f);
    ConsumeSifts(t, f);
    HiddenSiftOut(s.file, s.applied, s.store.cursor, f, 0);
    assert s.file[0..] == s.file;
  }

  lemma RegisterReads(s: Net)
    requires Sound(s)
    ensures var r := Apply(s, Register(|s.applied|, 0));
            Sound(r) && Reading(r, 0) && r.file == s.file && r.store == s.store && r.applied == s.applied
  {
    StepSound(s, Register(|s.applied|, 0));
  }

  lemma SentSound(r: Net, t: Net, f: nat)
    requires Sound(r) && t.file == r.file && t.store == r.store && t.applied == r.applied
    requires f <= |r.file| && t.channel == LinesFrom(r.file, f)
    ensures Sound(t)
  {
    LinesAreTrue(r.file, f);
  }

  lemma {:induction false} LinesAreTrue(file: seq<Position>, n: nat)
    requires n <= |file|
    ensures forall i | 0 <= i < |LinesFrom(file, n)| :: LinesFrom(file, n)[i].place < |file| && file[LinesFrom(file, n)[i].place] == LinesFrom(file, n)[i].position
    decreases |file| - n
  {
    if n < |file| {
      LinesAreTrue(file, n + 1);
    }
  }

  /** A line is applied by that connection exactly when it already was, or the last line applied before it does not hide it. */
  lemma AppliedLaterIff(b: seq<Net>, steps: seq<Step>, k: nat, i: nat)
    requires IsRun(b, steps) && k < |b| && i < |b[k].file|
    ensures var s := b[k];
            s.file[i] in Connect(s, |s.applied|).applied <==>
            s.file[i] in s.applied || !Covers(Front(s.file[..i], s.applied, s.store.cursor), s.file[i])
  {
    RunSound(b, steps, k);
    hide Connect, Front, Sifted;
    ConnectIs(b[k]);
    FileDistinct(b[k]);
    SiftedHas(b[k].file, b[k].applied, b[k].store.cursor, i);
  }

  // ------------------------------------------------------------------- never

  /** An event the cursor has passed is never applied while only events of its own epoch are. */
  lemma {:induction false} HiddenInItsEpoch(b: seq<Net>, steps: seq<Step>, m: nat, k: nat, p: Position)
    requires IsRun(b, steps) && m <= k < |b| && p !in b[m].applied && Covers(b[m].store.cursor, p)
    requires forall i | |b[m].applied| <= i < |b[k].applied| :: b[k].applied[i].epoch == p.epoch
    ensures p !in b[k].applied && Covers(b[k].store.cursor, p)
    decreases k
  {
    hide Apply, Enabled, Sound, Covers, Claims;
    if m < k {
      var s, step := b[k - 1], steps[k - 1];
      assert Enabled(s, step) && b[k] == Apply(s, step);
      RunSound(b, steps, k - 1);
      StepSound(s, step);
      RunGrows(b, steps, m, k - 1);
      assert forall i | |b[m].applied| <= i < |s.applied| :: s.applied[i] == b[k].applied[i];
      HiddenInItsEpoch(b, steps, m, k - 1, p);
      HiddenStep(s, step, p);
    }
  }

  lemma HiddenStep(s: Net, step: Step, p: Position)
    requires Sound(s) && Enabled(s, step) && p !in s.applied && Covers(s.store.cursor, p)
    requires |Apply(s, step).applied| > |s.applied| ==> Apply(s, step).applied[|s.applied|].epoch == p.epoch
    ensures p !in Apply(s, step).applied && Covers(Apply(s, step).store.cursor, p)
  {
    if Claims(s, step) {
      assert Apply(s, step).applied[|s.applied|] == s.channel[0].position;
    }
  }

  // ------------------------------------------------------------- for good

  lemma {:induction false} SendAllSound(s: Net, n: nat)
    requires Sound(s)
    ensures var t := SendAll(s, n); Sound(t) && t.file == s.file && t.applied == s.applied
    decreases n
  {
    hide Sound;
    if n > 0 && s.tail.Some? && s.tail.value.next < |s.file| {
      StepSound(s, Send);
      SendAllSound(SendNext(s), n - 1);
    }
  }

  lemma {:induction false} ConsumeAllSound(s: Net)
    requires Sound(s)
    ensures var t := ConsumeAll(s); Sound(t) && t.file == s.file
    decreases |s.channel|
  {
    hide Sound;
    if s.channel != [] {
      StepSound(s, Consume);
      ConsumeAllSound(ConsumeNext(s));
    }
  }

  lemma ConnectSound(s: Net)
    requires Sound(s)
    ensures var t := Connect(s, |s.applied|); Sound(t) && t.file == s.file
  {
    hide Sound, SendAll, ConsumeAll;
    StepSound(s, Register(|s.applied|, 0));
    var r := Apply(s, Register(|s.applied|, 0));
    SendAllSound(r, |s.file|);
    ConsumeAllSound(SendAll(r, |s.file|));
  }

  function Again(s: Net): Net {
    Connect(s, |s.applied|)
  }

  /** So many undisturbed connections, one after the other. */
  function Reconnected(s: Net, n: nat): Net {
    if n == 0 then s else Again(Reconnected(s, n - 1))
  }

  /** What one connection leaves. */
  lemma AgainIs(s: Net)
    requires Sound(s)
    ensures var t, news := Again(s), Sifted(s.file, s.applied, s.store.cursor);
            && Sound(t) && t.file == s.file && t.applied == s.applied + news && t.store.cursor == Front(s.file, s.applied, s.store.cursor)
            && (news == [] ==> t.store == s.store)
  {
    ConnectSound(s);
    ConnectIs(s);
    hide Connect, Sifted;
    EndsWith(Again(s), s, Sifted(s.file, s.applied, s.store.cursor));
  }

  lemma EndsWith(t: Net, s: Net, news: seq<Position>)
    requires StoreIs(t.store, t.applied) && StoreIs(s.store, s.applied) && t.applied == s.applied + news
    ensures news == [] ==> t.applied == s.applied && t.store == s.store
    ensures news != [] ==> t.store.cursor == Some(news[|news| - 1])
  {
    assert news == [] ==> t.applied == s.applied;
    assert news != [] ==> t.applied[|t.applied| - 1] == news[|news| - 1];
  }

  /** No line is pending: everything not applied is behind the cursor. */
  predicate Idle(s: Net) {
    forall i | 0 <= i < |s.file| :: !Pending(s, i)
  }

  lemma {:induction false} SiftsNothingIff(ps: seq<Position>, applied: seq<Position>, cursor: Option<Position>)
    ensures Sifted(ps, applied, cursor) == [] <==> forall i | 0 <= i < |ps| :: ps[i] in applied || Covers(cursor, ps[i])
  {
    if ps != [] {
      SiftsNothingIff(ps[1..], applied, cursor);
      assert forall i | 0 < i < |ps| :: ps[i] == ps[1..][i - 1];
    }
  }

  lemma IdleIff(s: Net)
    ensures Idle(s) <==> Sifted(s.file, s.applied, s.store.cursor) == []
  {
    hide Sifted, Covers;
    SiftsNothingIff(s.file, s.applied, s.store.cursor);
    assert forall i | 0 <= i < |s.file| :: Pending(s, i) <==> !(s.file[i] in s.applied || Covers(s.store.cursor, s.file[i]));
  }

  /** Each connection that finds a pending line applies one more. */
  lemma {:induction false} Progress(s: Net, n: nat)
    requires Sound(s)
    ensures var t := Reconnected(s, n);
            Sound(t) && t.file == s.file && (Idle(t) || |t.applied| >= |s.applied| + n)
  {
    hide Sound, Again, Sifted, Idle;
    if n > 0 {
      var t := Reconnected(s, n - 1);
      Progress(s, n - 1);
      AgainIs(t);
      IdleIff(t);
      if Idle(t) {
        IdleStays(t);
      }
    }
  }

  lemma IdleStays(s: Net)
    requires Sound(s) && Idle(s)
    ensures Idle(Again(s)) && Again(s).applied == s.applied && Again(s).store == s.store
  {
    hide Sound, Again, Sifted, Idle;
    AgainIs(s);
    IdleIff(s);
    assert s.applied + [] == s.applied;
    IdleIff(Again(s));
  }

  /** No more lines than the file has can be applied, and then none is pending. */
  lemma AllApplied(s: Net)
    requires Sound(s) && |s.applied| >= |s.file|
    ensures Idle(s)
  {
    var a, f := set p | p in s.applied, set p | p in s.file;
    assert a <= f;
    SizeOf(s.applied);
    SizeOf(s.file);
    SubsetSize(a, f);
    assert forall i | 0 <= i < |s.file| :: s.file[i] in f && s.file[i] in a;
  }

  lemma {:induction false} SizeOf(ps: seq<Position>)
    requires Distinct(ps)
    ensures |set p | p in ps| == |ps|
  {
    if ps != [] {
      var n := |ps| - 1;
      SizeOf(ps[..n]);
      assert ps == ps[..n] + [ps[n]];
      assert (set p | p in ps) == (set p | p in ps[..n]) + {ps[n]};
    }
  }

  lemma {:induction false} Settled(s: Net, n: nat)
    requires Sound(s) && n >= |s.file|
    ensures var t, u := Reconnected(s, |s.file|), Reconnected(s, n);
            Sound(t) && Idle(t) && u.file == t.file == s.file && u.applied == t.applied && u.store == t.store && Sound(u) && Idle(u)
    decreases n
  {
    hide Sound, Again, Idle;
    Progress(s, |s.file|);
    if n == |s.file| {
      var t := Reconnected(s, n);
      if !Idle(t) {
        AllApplied(t);
      }
    } else {
      Settled(s, n - 1);
      var t := Reconnected(s, n - 1);
      IdleStays(t);
      AgainIs(t);
    }
  }

  /** No number of undisturbed connections applies this line. */
  ghost predicate SkippedForGood(s: Net, p: Position) {
    forall n: nat :: p !in Reconnected(s, n).applied
  }

  lemma {:induction false} ReconnectedGrows(s: Net, m: nat, n: nat)
    requires Sound(s) && m <= n
    ensures Reconnected(s, m).applied <= Reconnected(s, n).applied
    decreases n
  {
    hide Sound, Again, Sifted, Idle;
    if m < n {
      ReconnectedGrows(s, m, n - 1);
      Progress(s, n - 1);
      AgainIs(Reconnected(s, n - 1));
    }
  }

  /**
  As many connections as the file has lines decide: a line missing then is
  missing for good, and it is then behind the cursor in the cursor's epoch, so
  that only an event of another epoch can bring it back.
  */
  lemma SkippedForGoodIff(b: seq<Net>, steps: seq<Step>, k: nat, i: nat)
    requires IsRun(b, steps) && k < |b| && i < |b[k].file|
    ensures var s := b[k];
            var t := Reconnected(s, |s.file|);
            && (SkippedForGood(s, s.file[i]) <==> s.file[i] !in t.applied)
            && (s.file[i] !in t.applied ==> Covers(t.store.cursor, s.file[i]))
            && forall n: nat | n >= |s.file| :: Reconnected(s, n).applied == t.applied
  {
    var s := b[k];
    RunSound(b, steps, k);
    hide Sound, Reconnected, IsRun;
    Settled(s, |s.file|);
    var t := Reconnected(s, |s.file|);
    assert !Pending(t, i);
    forall n: nat ensures n >= |s.file| ==> Reconnected(s, n).applied == t.applied {
      if n >= |s.file| {
        Settled(s, n);
      }
    }
    forall n: nat | s.file[i] !in t.applied ensures s.file[i] !in Reconnected(s, n).applied {
      if n < |s.file| {
        ReconnectedGrows(s, n, |s.file|);
      }
    }
  }

  // ----------------------------------------------- when epochs keep rising

  /** Once a line before has been applied, nothing not yet applied is hidden. */
  lemma {:induction false} AfterOne(file: seq<Position>, applied: seq<Position>, n: nat, y: nat)
    requires Rising(file) && y < n <= |file|
    ensures Sifted(file[n..], applied, Some(file[y])) == Unapplied(file[n..], applied)
    decreases |file| - n
  {
    if n < |file| {
      assert file[n..][0] == file[n] && file[n..][1..] == file[n + 1..];
      assert !Covers(Some(file[y]), file[n]);
      AfterOne(file, applied, n + 1, y);
      AfterOne(file, applied, n + 1, n);
    }
  }

  lemma {:induction false} FromFirst(s: Net, n: nat)
    requires Rising(s.file) && n <= |s.file|
    ensures Sifted(s.file[n..], s.applied, s.store.cursor) == Unapplied(s.file[FirstPending(s, n)..], s.applied)
    decreases |s.file| - n
  {
    if n < |s.file| {
      assert s.file[n..][0] == s.file[n] && s.file[n..][1..] == s.file[n + 1..];
      if Pending(s, n) {
        AfterOne(s.file, s.applied, n + 1, n);
      } else {
        FromFirst(s, n + 1);
      }
    }
  }

  /** The last line one connection applies, if it applies any. */
  function LastNew(s: Net): Option<Position> {
    var news := Unapplied(s.file[FirstPending(s, 0)..], s.applied);
    if news == [] then None else Some(news[|news| - 1])
  }

  /** What one connection leaves: the cursor is the last new line, and lines before the first pending one are as they were. */
  lemma AgainFacts(s: Net)
    requires Sound(s) && Rising(s.file)
    ensures var t, f := Again(s), FirstPending(s, 0);
            && Sound(t) && t.file == s.file
            && (f < |s.file| <==> LastNew(s).Some?)
            && (LastNew(s).Some? ==> t.store.cursor == LastNew(s) && LastNew(s).value in s.file[f..])
            && (LastNew(s).None? ==> t.applied == s.applied && t.store == s.store)
            && forall i | 0 <= i < |s.file| :: s.file[i] in t.applied <==> s.file[i] in s.applied || f <= i
  {
    hide Sound, Again, FirstPending, Unapplied, Sifted, Rising;
    AgainIs(s);
    FromFirst(s, 0);
    assert s.file[0..] == s.file;
    LastNewIs(s);
    FileDistinct(s);
    forall i | 0 <= i < |s.file| ensures s.file[i] in Again(s).applied <==> s.file[i] in s.applied || FirstPending(s, 0) <= i {
      FromPlace(s.file, s.applied, FirstPending(s, 0), i);
    }
  }

  lemma FromPlace(file: seq<Position>, applied: seq<Position>, f: nat, i: nat)
    requires Distinct(file) && f <= |file| && i < |file|
    ensures file[i] in Unapplied(file[f..], applied) <==> file[i] !in applied && f <= i
  {
    hide Unapplied;
    UnappliedHas(file[f..], applied, file[i]);
    if f <= i {
      assert file[f..][i - f] == file[i];
    } else {
      assert forall j | f <= j < |file| :: file[j] != file[i];
    }
  }

  lemma LastNewIs(s: Net)
    ensures var f := FirstPending(s, 0);
            (f < |s.file| <==> LastNew(s).Some?) && (LastNew(s).Some? ==> LastNew(s).value in s.file[f..])
  {
    hide FirstPending, Unapplied;
    var f := FirstPending(s, 0);
    var news := Unapplied(s.file[f..], s.applied);
    if news != [] {
      UnappliedHas(s.file[f..], s.applied, news[|news| - 1]);
    }
    if f < |s.file| {
      UnappliedHas(s.file[f..], s.applied, s.file[f]);
      assert s.file[f] == s.file[f..][0];
    }
  }

  /** Before the first pending line everything not applied is behind the cursor. */
  lemma BeforeFirst(s: Net, i: nat)
    requires i < FirstPending(s, 0) && s.file[i] !in s.applied
    ensures Covers(s.store.cursor, s.file[i])
  {
    assert !Pending(s, i);
  }

  /** A line before the first pending one is pending afterwards exactly when the last new line is of another epoch. */
  lemma PendingAgain(s: Net, i: nat)
    requires Sound(s) && Rising(s.file) && i < |s.file|
    ensures var t := Again(s);
            t.file == s.file &&
            (Pending(t, i) <==> i < FirstPending(s, 0) && s.file[i] !in s.applied && LastNew(s).Some? && LastNew(s).value.epoch != s.file[i].epoch)
  {
    hide Sound, FirstPending, Again, LastNew, Rising;
    AgainFacts(s);
    var f := FirstPending(s, 0);
    if i < f && s.file[i] !in s.applied {
      BeforeFirst(s, i);
      if LastNew(s).Some? {
        AheadOf(s.file, f, i, LastNew(s).value);
      }
    }
  }

  lemma AheadOf(file: seq<Position>, f: nat, i: nat, p: Position)
    requires Rising(file) && i < f <= |file| && p in file[f..]
    ensures Covers(Some(p), file[i]) <==> p.epoch == file[i].epoch
  {
    var y :| 0 <= y < |file[f..]| && file[f..][y] == p;
    assert file[f + y] == p;
  }

  /**
  When epochs keep rising two connections decide: an event is in them exactly
  when it was applied, or some line up to it was pending, or the first
  connection ended in another epoch; a third connection applies nothing more.
  */
  lemma TwoConnectionsDecide(b: seq<Net>, steps: seq<Step>, k: nat, i: nat)
    requires IsRun(b, steps) && k < |b| && Rising(b[k].file) && i < |b[k].file|
    ensures var s := b[k];
            && (s.file[i] in Again(Again(s)).applied <==>
                  || s.file[i] in s.applied || FirstPending(s, 0) <= i
                  || (LastNew(s).Some? && LastNew(s).value.epoch != s.file[i].epoch))
            && Again(Again(Again(s))).applied == Again(Again(s)).applied
  {
    RunSound(b, steps, k);
    SecondDecides(b[k], i);
    ThirdIsIdle(b[k]);
  }

  lemma SecondDecides(s: Net, i: nat)
    requires Sound(s) && Rising(s.file) && i < |s.file|
    ensures s.file[i] in Again(Again(s)).applied <==>
            || s.file[i] in s.applied || FirstPending(s, 0) <= i
            || (LastNew(s).Some? && LastNew(s).value.epoch != s.file[i].epoch)
  {
    var t := Again(s);
    AgainFacts(s);
    AgainFacts(t);
    PendingAgain(s, i);
    hide Sound, Again, LastNew, Rising;
    var g := FirstPending(t, 0);
    if g <= i && g < FirstPending(s, 0) && s.file[i] !in s.applied && i < FirstPending(s, 0) {
      PendingAgain(s, g);
      BeforeFirst(s, i);
      BeforeFirst(s, g);
    }
    if Pending(t, i) {
      assert g <= i;
    }
    if g < |s.file| {
      PendingAgain(s, g);
    }
  }

  lemma ThirdIsIdle(s: Net)
    requires Sound(s) && Rising(s.file)
    ensures Again(Again(Again(s))).applied == Again(Again(s)).applied
  {
    var t := Again(s);
    var u := Again(t);
    AgainFacts(s);
    AgainFacts(t);
    AgainFacts(u);
    hide Sound, Again, LastNew, Rising;
    var g, h := FirstPending(t, 0), FirstPending(u, 0);
    if h < |s.file| {
      PendingAgain(t, h);
      PendingAgain(s, g);
      BeforeFirst(s, g);
      BeforeFirst(s, h);
      PendingAgain(s, h);
      assert false;
    }
  }

  // -------------------------------------------------------------- instances

  const A1 := Position("A", 1)
  const A2 := Position("A", 2)
  const B1 := Position("B", 1)

  const L1 := Line(0, A1)
  const L2 := Line(1, A2)

  function Tailing(next: nat, last: Option<int>): Option<Tail> {
    Some(Tail(next, NodeAgent.Cursor(if last.Some? then Some("A") else None, last), 0))
  }

  /** The first of two events fails and the second overtakes it. */
  const RUN: seq<Net> :=
    [START, Net([A1], EMPTY, [], None, []), Net([A1, A2], EMPTY, [], None, []),
     Net([A1, A2], EMPTY, [], Tailing(0, None), []),
     Net([A1, A2], EMPTY, [], Tailing(1, Some(1)), [L1]),
     Net([A1, A2], EMPTY, [], Tailing(2, Some(2)), [L1, L2]),
     Net([A1, A2], EMPTY, [], Tailing(2, Some(2)), [L2]),
     Net([A1, A2], Store(Some(A2), {A2}), [A2], Tailing(2, Some(2)), [])]

  const STEPS := [Write(A1), Write(A2), Register(0, 0), Send, Send, Fail, Consume]

  predicate Follows(s: Net, step: Step, t: Net) {
    Enabled(s, step) && t == Apply(s, step)
  }

  lemma Registered()
    ensures Follows(RUN[2], STEPS[2], RUN[3])
  {
    var s: Net := RUN[2];
    assert s.channel[..0] == [];
  }

  lemma SentBoth()
    ensures Follows(RUN[3], STEPS[3], RUN[4]) && Follows(RUN[4], STEPS[4], RUN[5])
  {
    assert [] + [L1] == [L1] && [L1] + [L2] == [L1, L2];
  }

  lemma TakenBoth()
    ensures Follows(RUN[5], STEPS[5], RUN[6]) && Follows(RUN[6], STEPS[6], RUN[7])
  {
    assert [L1, L2][1..] == [L2] && [L2][1..] == [] && [] + [A2] == [A2] && {} + {A2} == {A2};
  }

  lemma OvertakenRun()
    ensures IsRun(RUN, STEPS) && |STEPS| == 7 && Overtaken(RUN, STEPS, 7)
    ensures RUN[7].file == [A1, A2] && RUN[7].applied == [A2] && RUN[7].store.cursor == Some(A2)
  {
    hide Apply, Enabled;
    WrittenBoth();
    Registered();
    SentBoth();
    TakenBoth();
    forall k | 0 <= k < 7 ensures Follows(RUN[k], STEPS[k], RUN[k + 1]) {
    }
    OneOvertakes();
  }

  lemma WrittenBoth()
    ensures Follows(RUN[0], STEPS[0], RUN[1]) && Follows(RUN[1], STEPS[1], RUN[2])
  {
    hide Follows, Orderly;
    TwoLines(A1, A2);
  }

  lemma TwoLines(p: Position, q: Position)
    requires p.epoch == q.epoch && p.num < q.num
    ensures Follows(START, Write(p), Net([p], EMPTY, [], None, []))
    ensures Follows(Net([p], EMPTY, [], None, []), Write(q), Net([p, q], EMPTY, [], None, []))
  {
    assert [] + [p] == [p] && [p] + [q] == [p, q];
    OrderlyPair(p, q);
    hide Orderly;
  }

  lemma OrderlyPair(p: Position, q: Position)
    requires p.epoch == q.epoch && p.num < q.num
    ensures Orderly([p]) && Orderly([p, q])
  {
  }

  lemma OneOvertakes()
    ensures Overtaken(RUN, STEPS, 7)
  {
    assert Unmended(RUN, STEPS, 5, 6);
    assert Claims(RUN[6], STEPS[6]);
  }

  /**
  That event stays skipped however often one connects, until an event of
  another epoch has been applied; then the next connection applies it last.
  */
  lemma SkippedUntilNextEpoch()
    ensures Again(RUN[7]).applied == [A2]
    ensures var t := RUN[7].(file := [A1, A2, B1]);
            Again(t).applied == [A2, B1] && Again(Again(t)).applied == [A2, B1, A1]
  {
    OvertakenRun();
    RunSound(RUN, STEPS, 7);
    var s := RUN[7];
    SkippedFirst(s);
    var t := s.(file := [A1, A2, B1]);
    assert [A1, A2] + [B1] == [A1, A2, B1];
    assert t == Apply(s, Write(B1));
    StepSound(s, Write(B1));
    hide Sound, Apply, Again;
    ThenLast(t);
  }

  lemma SkippedFirst(s: Net)
    requires Sound(s) && s.file == [A1, A2] && s.applied == [A2] && s.store.cursor == Some(A2)
    ensures Again(s).applied == [A2]
  {
    hide Again, Sound;
    AgainIs(s);
    SiftsNothingIff([A1, A2], [A2], Some(A2));
    assert [A2] + [] == [A2];
  }

  lemma ThenLast(t: Net)
    requires Sound(t) && t.file == [A1, A2, B1] && t.applied == [A2] && t.store.cursor == Some(A2)
    ensures Again(t).applied == [A2, B1] && Again(Again(t)).applied == [A2, B1, A1]
  {
    hide Again, Sound, Sifted;
    Siftings();
    AgainIs(t);
    assert [A2] + [B1] == [A2, B1];
    AgainIs(Again(t));
    assert [A2, B1] + [A1] == [A2, B1, A1];
  }

  lemma Siftings()
    ensures Sifted([A1, A2, B1], [A2], Some(A2)) == [B1] && Sifted([A1, A2, B1], [A2, B1], Some(B1)) == [A1]
  {
    hide Sifted;
    assert [B1] == [B1] + [] && [A2, B1] == [A2] + [B1] && [A1, A2, B1] == [A1] + [A2, B1];
    SiftCons(B1, [], [A2], Some(A2));
    SiftCons(A2, [B1], [A2], Some(A2));
    SiftCons(A1, [A2, B1], [A2], Some(A2));
    SiftCons(B1, [], [A2, B1], Some(A1));
    SiftCons(A2, [B1], [A2, B1], Some(A1));
    SiftCons(A1, [A2, B1], [A2, B1], Some(B1));
    SiftNil([A2], Some(B1));
    SiftNil([A2, B1], Some(A1));
  }

  lemma SiftCons(p: Position, rest: seq<Position>, applied: seq<Position>, cursor: Option<Position>)
    ensures Sifted([p] + rest, applied, cursor) ==
            if p in applied || Covers(cursor, p) then Sifted(rest, applied, cursor) else [p] + Sifted(rest, applied, Some(p))
  {
    assert ([p] + rest)[1..] == rest;
  }

  lemma SiftNil(applied: seq<Position>, cursor: Option<Position>)
    ensures Sifted([], applied, cursor) == []
  {
  }
}
