/**
Reading a transcript for relay (src/response_relay.py): where an inbound turn
ends in the file, and which assistant messages come after it.

Decoding a line as JSON is a parameter: any function from the bytes of a line
to an entry.
*/
module TranscriptRelay {
  import opened Options

  type Byte = b: int | 0 <= b < 256

  const LF: Byte := 10
  const CR: Byte := 13

  datatype Line = Line(content: seq<Byte>, end: seq<Byte>)

  datatype Entry =
    | Other                                   // malformed, blank, or of another type
    | User(text: string, hash: string)
    | Assistant(id: Option<string>, completed: Option<real>, text: string, hash: string)

  type Reader = seq<Byte> -> Entry

  /** The identifier the entry carries, or one made from its place and the hash of its text. */
  datatype MessageId = Given(id: string) | Derived(offset: nat, hash: string)

  datatype Output = Output(id: MessageId, text: string, completed: Option<real>, offset: nat, number: nat)

  // ------------------------------------------------------------------- lines

  predicate IsBreak(b: Byte) { b == LF || b == CR }

  function FirstBreak(data: seq<Byte>): (n: nat)
    ensures n <= |data| && (n < |data| ==> IsBreak(data[n])) && forall i | 0 <= i < n :: !IsBreak(data[i])
  {
    if data == [] || IsBreak(data[0]) then 0 else 1 + FirstBreak(data[1..])
  }

  /** Line ends are a line feed, a carriage return, or both in that order. */
  function EndAt(data: seq<Byte>, n: nat): (w: nat)
    requires n <= |data|
    ensures n + w <= |data|
  {
    if n == |data| then 0 else if data[n] == CR && n + 1 < |data| && data[n + 1] == LF then 2 else 1
  }

  function First(data: seq<Byte>): (line: Line)
    requires data != []
    ensures line.content + line.end <= data && line.content + line.end != []
  {
    var n := FirstBreak(data);
    Line(data[..n], data[n..n + EndAt(data, n)])
  }

  function Bytes(line: Line): seq<Byte> { line.content + line.end }

  function Split(data: seq<Byte>): seq<Line>
    decreases |data|
  {
    if data == [] then [] else [First(data)] + Split(data[|Bytes(First(data))|..])
  }

  function Join(lines: seq<Line>): seq<Byte> {
    if lines == [] then [] else Bytes(lines[0]) + Join(lines[1..])
  }

  lemma SplitStep(data: seq<Byte>)
    requires data != []
    ensures var head := Bytes(First(data));
            head != [] && head <= data && Split(data) == [First(data)] + Split(data[|head|..])
  {
  }

  lemma JoinStep(line: Line, rest: seq<Line>)
    ensures Join([line] + rest) == Bytes(line) + Join(rest)
  {
    assert ([line] + rest)[1..] == rest;
  }

  lemma {:induction false} SplitJoins(data: seq<Byte>)
    ensures Join(Split(data)) == data
    decreases |data|
  {
    if data != [] {
      var head := Bytes(First(data));
      var rest := data[|head|..];
      SplitStep(data);
      hide First, Split, Join, Bytes;
      SplitJoins(rest);
      JoinStep(First(data), Split(rest));
      assert head + rest == data;
    }
  }

  lemma {:induction false} JoinAppends(a: seq<Line>, c: seq<Line>)
    ensures Join(a + c) == Join(a) + Join(c)
  {
    if a == [] {
      assert a + c == c;
    } else {
      hide Join, Bytes;
      var rest := a[1..];
      calc {
        Join(a + c);
        { Regroup([a[0]], rest, c); assert a == [a[0]] + rest; }
        Join([a[0]] + (rest + c));
        { JoinStep(a[0], rest + c); }
        Bytes(a[0]) + Join(rest + c);
        { JoinAppends(rest, c); }
        Bytes(a[0]) + (Join(rest) + Join(c));
        { Regroup(Bytes(a[0]), Join(rest), Join(c)); }
        (Bytes(a[0]) + Join(rest)) + Join(c);
        { JoinStep(a[0], rest); assert a == [a[0]] + rest; }
        Join(a) + Join(c);
      }
    }
  }

  lemma Regroup<T>(x: seq<T>, y: seq<T>, z: seq<T>)
    ensures (x + y) + z == x + (y + z)
  {
  }

  /** Where a line starts. */
  function StartOf(lines: seq<Line>, k: nat): nat
    requires k <= |lines|
  {
    |Join(lines[..k])|
  }

  lemma StartFits(data: seq<Byte>, k: nat)
    requires k <= |Split(data)|
    ensures StartOf(Split(data), k) <= |data|
  {
    hide Split, Join;
    var lines := Split(data);
    SplitJoins(data);
    JoinAppends(lines[..k], lines[k..]);
    assert lines[..k] + lines[k..] == lines;
  }

  lemma StartStep(line: Line, rest: seq<Line>, k: nat)
    requires 0 < k <= |rest| + 1
    ensures StartOf([line] + rest, k) == |Bytes(line)| + StartOf(rest, k - 1)
  {
    assert ([line] + rest)[..k] == [line] + rest[..k - 1];
    JoinStep(line, rest[..k - 1]);
  }

  lemma StartLast(lines: seq<Line>, k: nat)
    requires 0 < k <= |lines|
    ensures StartOf(lines, k) == StartOf(lines, k - 1) + |lines[k - 1].content| + |lines[k - 1].end|
  {
    var line := lines[k - 1];
    JoinAppends(lines[..k - 1], [line]);
    assert lines[..k] == lines[..k - 1] + [line];
    assert Join([line]) == Bytes(line);
  }

  lemma DropTwice<T>(s: seq<T>, a: nat, c: nat)
    requires a + c <= |s|
    ensures s[a..][c..] == s[a + c..]
  {
  }

  /** Reading from the start of a line gives the lines from there on. */
  lemma {:induction false} SplitFrom(data: seq<Byte>, k: nat)
    requires k <= |Split(data)|
    ensures StartOf(Split(data), k) <= |data| && Split(data[StartOf(Split(data), k)..]) == Split(data)[k..]
    decreases k
  {
    hide First, Split, StartOf, Bytes;
    StartFits(data, k);
    if k > 0 {
      NotEmpty(data);
      SplitStep(data);
      var head := Bytes(First(data));
      var rest := data[|head|..];
      SplitFrom(rest, k - 1);
      var start := StartOf(Split(rest), k - 1);
      StartStep(First(data), Split(rest), k);
      DropTwice(data, |head|, start);
      DropFront([First(data)], Split(rest), 1);
      DropTwice(Split(data), 1, k - 1);
    } else {
      StartZero(Split(data));
      assert data[0..] == data;
    }
  }

  lemma NotEmpty(data: seq<Byte>)
    requires Split(data) != []
    ensures data != []
  {
  }

  lemma StartZero(lines: seq<Line>)
    ensures StartOf(lines, 0) == 0
  {
  }

  /** The bytes at a line's start are the line. */
  lemma LineSits(data: seq<Byte>, k: nat)
    requires k < |Split(data)|
    ensures var start := StartOf(Split(data), k);
            start + |Bytes(Split(data)[k])| <= |data| && data[start..][..|Bytes(Split(data)[k])|] == Bytes(Split(data)[k])
  {
    SplitFrom(data, k);
    var rest := data[StartOf(Split(data), k)..];
    assert Split(rest)[0] == First(rest);
  }

  /** The file so far stops at the end of a line and what follows does not continue it. */
  predicate Closed(data: seq<Byte>, more: seq<Byte>) {
    data == [] || data[|data| - 1] == LF || (data[|data| - 1] == CR && !([LF] <= more))
  }

  lemma FirstStays(data: seq<Byte>, more: seq<Byte>)
    requires data != [] && Closed(data, more)
    ensures data + more != [] && First(data + more) == First(data)
    ensures Closed(data[|Bytes(First(data))|..], more)
  {
    hide FirstBreak, Split;
    var n := FirstBreak(data);
    var all := data + more;
    assert forall i | 0 <= i < |data| :: all[i] == data[i];
    BreakIs(all, n);
    hide IsBreak;
    assert n + 1 < |all| && n + 1 == |data| ==> all[n + 1] == more[0];
  }

  lemma {:induction false} SplitGrows(data: seq<Byte>, more: seq<Byte>)
    requires Closed(data, more)
    ensures Split(data + more) == Split(data) + Split(more)
    decreases |data|
  {
    hide First, Split, Bytes, Closed;
    if data == [] {
      SplitNothing();
      assert data + more == more;
    } else {
      FirstStays(data, more);
      SplitStep(data);
      SplitStep(data + more);
      var w := |Bytes(First(data))|;
      SplitGrows(data[w..], more);
      DropFront(data, more, w);
      Regroup([First(data)], Split(data[w..]), Split(more));
    }
  }

  lemma SplitNothing()
    ensures Split([]) == []
  {
  }

  lemma DropFront<T>(s: seq<T>, t: seq<T>, w: nat)
    requires w <= |s|
    ensures (s + t)[w..] == s[w..] + t
  {
  }

  lemma BreakIs(data: seq<Byte>, n: nat)
    requires n <= |data| && (n < |data| ==> IsBreak(data[n])) && forall i | 0 <= i < n :: !IsBreak(data[i])
    ensures FirstBreak(data) == n
  {
    hide FirstBreak;
    var m := FirstBreak(data);
  }

  function Width(data: seq<Byte>): nat {
    FirstBreak(data) + EndAt(data, FirstBreak(data))
  }

  lemma SplitCount(data: seq<Byte>)
    requires data != []
    ensures 0 < Width(data) <= |data| && |Split(data)| == 1 + |Split(data[Width(data)..])|
  {
    SplitStep(data);
    assert |Bytes(First(data))| == Width(data);
  }

  lemma UnbrokenWidth(data: seq<Byte>, more: seq<Byte>)
    requires FirstBreak(data) == |data|
    ensures Width(data) == |data| && Width(data + more) == |data| + Width(more)
  {
    hide FirstBreak;
    var all, m := data + more, FirstBreak(more);
    assert forall i | 0 <= i < |more| :: all[|data| + i] == more[i];
    BreakIs(all, |data| + m);
  }

  lemma BrokenWidth(data: seq<Byte>, more: seq<Byte>)
    requires FirstBreak(data) < |data| && Width(data) < |data|
    ensures Width(data + more) == Width(data)
  {
    hide FirstBreak;
    var n := FirstBreak(data);
    BreakIs(data + more, n);
    hide IsBreak;
    assert n + 1 < |data| && (data + more)[n] == data[n] && (data + more)[n + 1] == data[n + 1];
  }

  lemma TailOpen(data: seq<Byte>, more: seq<Byte>, w: nat)
    requires w < |data| && !Closed(data, more)
    ensures !Closed(data[w..], more)
  {
    assert data[w..][|data[w..]| - 1] == data[|data| - 1];
  }

  lemma EdgeWidth(data: seq<Byte>, more: seq<Byte>)
    requires FirstBreak(data) < |data| && Width(data) == |data| && !Closed(data, more)
    ensures Width(data + more) == |data| + 1 && Width(more) == 1
  {
    hide FirstBreak;
    assert [LF] <= more && more[0] == LF;
    BreakIs(data + more, FirstBreak(data));
    BreakIs(more, 0);
    assert (data + more)[|data|] == more[0];
  }

  /** Bytes that continue an unfinished line, or complete its line end, cost one line. */
  lemma {:induction false} SplitMerges(data: seq<Byte>, more: seq<Byte>)
    requires !Closed(data, more) && more != []
    ensures |Split(data + more)| == |Split(data)| + |Split(more)| - 1
    decreases |data|
  {
    assert data != [];
    hide Split, Width, Closed, FirstBreak, EndAt;
    var w := Width(data);
    if FirstBreak(data) == |data| {
      UnbrokenWidth(data, more);
      MergeEdge(data, more);
    } else if w >= |data| {
      SplitCount(data);
      EdgeWidth(data, more);
      MergeEdge(data, more);
    } else {
      BrokenWidth(data, more);
      TailOpen(data, more, w);
      SplitCount(data);
      SplitMerges(data[w..], more);
      SplitCount(data + more);
      DropFront(data, more, w);
    }
  }

  lemma MergeEdge(data: seq<Byte>, more: seq<Byte>)
    requires data != [] && more != [] && Width(data) == |data| && Width(data + more) == |data| + Width(more)
    ensures |Split(data + more)| == |Split(data)| + |Split(more)| - 1
  {
    hide Split, Width;
    SplitCount(data);
    SplitCount(data + more);
    SplitCount(more);
    SplitNothing();
    assert data[|data|..] == [];
    DropBack(data, more, Width(more));
  }

  lemma DropBack<T>(s: seq<T>, t: seq<T>, w: nat)
    requires w <= |t|
    ensures (s + t)[|s| + w..] == t[w..]
  {
  }

  /** A file read in two pieces shows the same lines exactly when the first piece stops at a line end. */
  lemma SplitGrowsIff(data: seq<Byte>, more: seq<Byte>)
    requires more != []
    ensures Split(data + more) == Split(data) + Split(more) <==> Closed(data, more)
  {
    if Closed(data, more) {
      SplitGrows(data, more);
    } else {
      SplitMerges(data, more);
    }
  }

  // ---------------------------------------------------------------- boundary

  predicate Matches(line: Line, reader: Reader, hash: string) {
    var entry := reader(line.content);
    entry.User? && entry.text != "" && entry.hash == hash
  }

  /** The number of lines up to and including the last match; none without one. */
  function LastMatch(lines: seq<Line>, reader: Reader, hash: string): (r: Option<nat>)
    ensures r.Some? ==> 0 < r.value <= |lines| && Matches(lines[r.value - 1], reader, hash)
    ensures forall i | (if r.Some? then r.value else 0) <= i < |lines| :: !Matches(lines[i], reader, hash)
  {
    if lines == [] then None
    else
      var n := |lines| - 1;
      if Matches(lines[n], reader, hash) then Some(n + 1)
      else
        assert forall i | 0 <= i < n :: lines[..n][i] == lines[i];
        LastMatch(lines[..n], reader, hash)
  }

  /** The byte just after the last user line whose text has this hash. */
  function Boundary(data: seq<Byte>, reader: Reader, hash: string): Option<nat> {
    var r := LastMatch(Split(data), reader, hash);
    if r.Some? then Some(StartOf(Split(data), r.value)) else None
  }

  // ----------------------------------------------------------------- outputs

  /** The message a line shows, if it is a visible assistant line and not too old. */
  function Emit(line: Line, reader: Reader, since: Option<real>, at: nat, number: nat): (r: seq<Output>)
    ensures |r| <= 1
    ensures r != [] ==> reader(line.content).Assistant? && reader(line.content).text == r[0].text && r[0].text != ""
                        && r[0].offset == at && r[0].number == number
  {
    match reader(line.content)
    case Assistant(id, completed, text, hash) =>
      if text == "" || (since.Some? && (completed.None? || completed.value < since.value)) then []
      else [Output(if id.Some? then Given(id.value) else Derived(at, hash), text, completed, at, number)]
    case _ => []
  }

  /** The scan counts one byte for every line end. */
  function Counted(lines: seq<Line>): nat {
    if lines == [] then 0 else Counted(lines[..|lines| - 1]) + |lines[|lines| - 1].content| + 1
  }

  function Outputs(lines: seq<Line>, reader: Reader, since: Option<real>, base: nat): seq<Output> {
    if lines == [] then []
    else
      var n := |lines| - 1;
      Outputs(lines[..n], reader, since, base) + Emit(lines[n], reader, since, base + Counted(lines[..n]), n + 1)
  }

  /** From a known offset every visible message counts; without one only those stamped no earlier than the delivery. */
  function Collect(data: seq<Byte>, reader: Reader, offset: Option<nat>, delivered: real): seq<Output> {
    match offset
    case Some(o) => if o > |data| then [] else Outputs(Split(data[o..]), reader, None, o)
    case None => Outputs(Split(data), reader, Some(delivered), 0)
  }

  lemma {:induction false} OutputsGrow(a: seq<Line>, c: seq<Line>, reader: Reader, since: Option<real>, base: nat)
    ensures Outputs(a, reader, since, base) <= Outputs(a + c, reader, since, base)
    decreases |c|
  {
    if c == [] {
      assert a + c == a;
    } else {
      var n := |c| - 1;
      OutputsGrow(a, c[..n], reader, since, base);
      assert (a + c)[..|a + c| - 1] == a + c[..n];
    }
  }

  /** Growth by whole lines only extends the list: what was collected keeps its identifiers, offsets and numbers. */
  lemma CollectGrows(data: seq<Byte>, more: seq<Byte>, reader: Reader, offset: Option<nat>, delivered: real)
    requires Closed(data, more) && (offset.Some? ==> offset.value <= |data|)
    ensures Collect(data, reader, offset, delivered) <= Collect(data + more, reader, offset, delivered)
  {
    var o := if offset.Some? then offset.value else 0;
    var part := data[o..];
    assert (data + more)[o..] == part + more;
    SplitGrows(part, more);
    assert data[0..] == data && (data + more)[0..] == data + more;
    OutputsGrow(Split(part), Split(more), reader, if offset.Some? then None else Some(delivered), o);
  }

  /** Lines ended by a carriage return and a line feed. */
  function Wide(lines: seq<Line>): nat {
    if lines == [] then 0 else Wide(lines[..|lines| - 1]) + if |lines[|lines| - 1].end| == 2 then 1 else 0
  }

  /** Every line but the last is ended, by one byte or by two. */
  lemma {:induction false} EndsOf(data: seq<Byte>, k: nat)
    requires k < |Split(data)|
    ensures |Split(data)[k].end| <= 2 && (k + 1 < |Split(data)| ==> 1 <= |Split(data)[k].end|)
    decreases |data|
  {
    var rest := data[|Bytes(First(data))|..];
    if k > 0 {
      EndsOf(rest, k - 1);
    } else {
      var n := FirstBreak(data);
      assert n == |data| ==> rest == [];
    }
  }

  lemma {:induction false} CountedLags(data: seq<Byte>, k: nat)
    requires k < |Split(data)|
    ensures Counted(Split(data)[..k]) + Wide(Split(data)[..k]) == StartOf(Split(data), k)
    decreases k
  {
    if k > 0 {
      hide Split, Join, StartOf;
      var lines := Split(data);
      CountedLags(data, k - 1);
      EndsOf(data, k - 1);
      assert lines[..k][..k - 1] == lines[..k - 1];
      StartLast(lines, k);
    }
  }

  lemma OutputsLast(lines: seq<Line>, reader: Reader, since: Option<real>, base: nat)
    requires lines != []
    ensures var n := |lines| - 1;
            Outputs(lines, reader, since, base) ==
            Outputs(lines[..n], reader, since, base) + Emit(lines[n], reader, since, base + Counted(lines[..n]), n + 1)
  {
    hide Emit, Counted;
  }

  lemma OutputsNothing(reader: Reader, since: Option<real>, base: nat)
    ensures Outputs([], reader, since, base) == []
  {
  }

  /** Each output comes from the line its number names. */
  lemma {:induction false} OutputSource(lines: seq<Line>, reader: Reader, since: Option<real>, base: nat, p: nat)
    requires p < |Outputs(lines, reader, since, base)|
    ensures var out := Outputs(lines, reader, since, base)[p];
            && 1 <= out.number <= |lines|
            && [out] == Emit(lines[out.number - 1], reader, since, base + Counted(lines[..out.number - 1]), out.number)
  {
    hide Outputs, Counted, Emit;
    OutputsNothing(reader, since, base);
    OutputsLast(lines, reader, since, base);
    var n := |lines| - 1;
    var before := Outputs(lines[..n], reader, since, base);
    var last := Emit(lines[n], reader, since, base + Counted(lines[..n]), n + 1);
    if p < |before| {
      OutputSource(lines[..n], reader, since, base, p);
      var k := before[p].number - 1;
      assert lines[..n][..k] == lines[..k] && lines[..n][k] == lines[k];
    } else {
      assert last == [last[0]] && (before + last)[p] == last[0];
    }
  }

  /** Every line that shows a message is collected. */
  lemma {:induction false} VisibleIsCollected(lines: seq<Line>, reader: Reader, since: Option<real>, base: nat, k: nat)
    requires k < |lines|
    ensures var shown := Emit(lines[k], reader, since, base + Counted(lines[..k]), k + 1);
            shown != [] ==> shown[0] in Outputs(lines, reader, since, base)
  {
    hide Outputs, Counted, Emit;
    OutputsNothing(reader, since, base);
    OutputsLast(lines, reader, since, base);
    var n := |lines| - 1;
    var before := Outputs(lines[..n], reader, since, base);
    var last := Emit(lines[n], reader, since, base + Counted(lines[..n]), n + 1);
    if k < n {
      VisibleIsCollected(lines[..n], reader, since, base, k);
      assert lines[..n][..k] == lines[..k] && lines[..n][k] == lines[k];
    }
  }

  /**
  The offset reported for an output is the true byte start of its line exactly
  when no line before it in the scan ends in a carriage return and a line feed;
  otherwise it falls short by one byte for each such line.
  */
  lemma OffsetIsTrueIff(data: seq<Byte>, reader: Reader, since: Option<real>, base: nat, p: nat)
    requires p < |Outputs(Split(data), reader, since, base)|
    ensures var lines := Split(data);
            var out := Outputs(lines, reader, since, base)[p];
            var k := out.number - 1;
            && 0 <= k < |lines|
            && out.offset + Wide(lines[..k]) == base + StartOf(lines, k)
            && (out.offset == base + StartOf(lines, k) <==> forall j | 0 <= j < k :: |lines[j].end| == 1)
  {
    hide Split, Join;
    OutputSource(Split(data), reader, since, base, p);
    var k := Outputs(Split(data), reader, since, base)[p].number - 1;
    CountedLags(data, k);
    forall j | 0 <= j < k ensures 1 <= |Split(data)[j].end| <= 2 { EndsOf(data, j); }
    WideZero(Split(data), k);
  }

  /** A blank line ended by both: the next message starts at byte two and is reported at byte one. */
  lemma WideEndShifts()
    ensures var reader: Reader := content => if content == [120] then Assistant(None, None, "x", "h") else Other;
            var data: seq<Byte> := [CR, LF, 120];
            && Outputs(Split(data), reader, None, 0) == [Output(Derived(1, "h"), "x", None, 1, 2)]
            && |Split(data)| == 2 && StartOf(Split(data), 1) == 2
  {
    var reader: Reader := content => if content == [120] then Assistant(None, None, "x", "h") else Other;
    var data: seq<Byte> := [CR, LF, 120];
    var blank, last := Line([], [CR, LF]), Line([120], []);
    hide Split;
    WideSplit();
    TwoOutputs(blank, last, reader);
    JoinStep(blank, []);
    assert [blank, last][..1] == [blank] == [blank] + [];
  }

  lemma WideSplit()
    ensures Split([CR, LF, 120]) == [Line([], [CR, LF]), Line([120], [])]
  {
    hide FirstBreak, Split;
    var data: seq<Byte> := [CR, LF, 120];
    BreakIs(data, 0);
    BreakIs([120], 1);
    SplitStep(data);
    SplitStep([120]);
    SplitNothing();
    assert First(data) == Line([], [CR, LF]) && First([120]) == Line([120], []);
    assert data[2..] == [120] && [120][1..] == [];
  }

  lemma TwoOutputs(a: Line, c: Line, reader: Reader)
    ensures Outputs([a, c], reader, None, 0) == Emit(a, reader, None, 0, 1) + Emit(c, reader, None, |a.content| + 1, 2)
  {
    assert [a, c][..1] == [a] && [a][..0] == [];
    assert Counted([a]) == |a.content| + 1;
    assert Outputs([a], reader, None, 0) == Outputs([], reader, None, 0) + Emit(a, reader, None, 0, 1);
  }

  lemma {:induction false} WideZero(lines: seq<Line>, k: nat)
    requires k <= |lines| && forall j | 0 <= j < k :: 1 <= |lines[j].end| <= 2
    ensures Wide(lines[..k]) == 0 <==> forall j | 0 <= j < k :: |lines[j].end| == 1
    decreases k
  {
    if k > 0 {
      WideZero(lines, k - 1);
      assert lines[..k][..k - 1] == lines[..k - 1];
    }
  }

  /** A file whose only line breaks are line feeds has single-byte line ends, so every offset is true. */
  lemma LineFeedsOnly(data: seq<Byte>, reader: Reader, since: Option<real>, base: nat, p: nat)
    requires CR !in data && p < |Outputs(Split(data), reader, since, base)|
    ensures var out := Outputs(Split(data), reader, since, base)[p];
            1 <= out.number <= |Split(data)| && out.offset == base + StartOf(Split(data), out.number - 1)
  {
    OffsetIsTrueIff(data, reader, since, base, p);
    forall j | 0 <= j < |Split(data)| - 1 ensures |Split(data)[j].end| == 1 {
      EndsOf(data, j);
      NoCarriage(data, j);
    }
  }

  lemma {:induction false} NoCarriage(data: seq<Byte>, k: nat)
    requires CR !in data && k < |Split(data)|
    ensures |Split(data)[k].end| <= 1
    decreases |data|
  {
    if k > 0 {
      NoCarriage(data[|Bytes(First(data))|..], k - 1);
    }
  }

  /** Two outputs never share a place, so identifiers made from the place are distinct. */
  lemma {:induction false} PlacesDiffer(lines: seq<Line>, reader: Reader, since: Option<real>, base: nat, p: nat, q: nat)
    requires p < q < |Outputs(lines, reader, since, base)|
    ensures var outs := Outputs(lines, reader, since, base);
            outs[p].offset < outs[q].offset && outs[p].number < outs[q].number
  {
    hide Outputs, Counted, Emit;
    OutputsNothing(reader, since, base);
    OutputsLast(lines, reader, since, base);
    var n := |lines| - 1;
    var before := Outputs(lines[..n], reader, since, base);
    var last := Emit(lines[n], reader, since, base + Counted(lines[..n]), n + 1);
    if q < |before| {
      PlacesDiffer(lines[..n], reader, since, base, p, q);
    } else {
      OutputSource(lines[..n], reader, since, base, p);
      var k := before[p].number - 1;
      CountedClimbs(lines, k, n);
      assert lines[..n][..k] == lines[..k];
    }
  }

  lemma {:induction false} CountedClimbs(lines: seq<Line>, k: nat, n: nat)
    requires k < n <= |lines|
    ensures Counted(lines[..k]) < Counted(lines[..n])
    decreases n
  {
    assert lines[..n][..n - 1] == lines[..n - 1];
    if k < n - 1 {
      CountedClimbs(lines, k, n - 1);
    }
  }

  /**
  Collecting from a boundary found by hash sees exactly the lines after the
  last matching user line, and no matching line is among them.
  */
  lemma AfterLastMatch(data: seq<Byte>, reader: Reader, hash: string, delivered: real)
    ensures var r := LastMatch(Split(data), reader, hash);
            match Boundary(data, reader, hash)
            case None => forall i | 0 <= i < |Split(data)| :: !Matches(Split(data)[i], reader, hash)
            case Some(o) =>
              && r.Some? && o <= |data| && Matches(Split(data)[r.value - 1], reader, hash)
              && Collect(data, reader, Some(o), delivered) == Outputs(Split(data)[r.value..], reader, None, o)
              && forall i | r.value <= i < |Split(data)| :: !Matches(Split(data)[i], reader, hash)
  {
    var r := LastMatch(Split(data), reader, hash);
    if r.Some? {
      SplitFrom(data, r.value);
    }
  }

  /** The entry is a user message with this hash. */
  predicate Says(entry: Entry, hash: string) {
    entry.User? && entry.text != "" && entry.hash == hash
  }

  /** The byte after line k. */
  function EndOf(lines: seq<Line>, k: nat): nat
    requires k < |lines|
  {
    StartOf(lines, k) + |lines[k].content| + |lines[k].end|
  }

  /** Line k is the last to say it. */
  predicate LastSaid(lines: seq<Line>, reader: Reader, hash: string, k: int) {
    && 0 <= k < |lines| && Says(reader(lines[k].content), hash)
    && forall i | k < i < |lines| :: !Says(reader(lines[i].content), hash)
  }

  /** The boundary is the end of the last user line with this hash, and there is none exactly when no line has it. */
  lemma BoundaryTold(data: seq<Byte>, reader: Reader, hash: string)
    ensures Boundary(data, reader, hash).None? ==> forall i | 0 <= i < |Split(data)| :: !Says(reader(Split(data)[i].content), hash)
    ensures Boundary(data, reader, hash).Some? ==> exists k :: LastSaid(Split(data), reader, hash, k) && Boundary(data, reader, hash) == Some(EndOf(Split(data), k))
  {
    hide Split, StartOf, LastMatch, Says;
    var lines := Split(data);
    var r := LastMatch(lines, reader, hash);
    forall i | 0 <= i < |lines| ensures Matches(lines[i], reader, hash) <==> Says(reader(lines[i].content), hash) {
      MatchMeans(lines[i], reader, hash);
    }
    if r.Some? {
      StartLast(lines, r.value);
      assert LastSaid(lines, reader, hash, r.value - 1);
    }
  }

  lemma MatchMeans(line: Line, reader: Reader, hash: string)
    ensures Matches(line, reader, hash) <==> Says(reader(line.content), hash)
  {
  }

  /** The line shows an assistant message to be relayed: it has text, and is stamped no earlier than asked. */
  predicate Relays(entry: Entry, since: Option<real>) {
    && entry.Assistant? && entry.text != ""
    && (since.Some? ==> entry.completed.Some? && since.value <= entry.completed.value)
  }

  /** What is relayed of such a line: its text, stamp and place, under the identifier it carries or else one made from place and hash. */
  predicate Renders(out: Output, entry: Entry, offset: nat, number: nat)
    requires entry.Assistant?
  {
    && out.text == entry.text && out.completed == entry.completed && out.offset == offset && out.number == number
    && match entry.id
       case Some(id) => out.id == Given(id)
       case None => out.id == Derived(offset, entry.hash)
  }

  /** The output is the rendering of a line that relays. */
  predicate FromLine(out: Output, lines: seq<Line>, reader: Reader, since: Option<real>, base: nat) {
    && 1 <= out.number <= |lines|
    && var k := out.number - 1;
       Relays(reader(lines[k].content), since) && Renders(out, reader(lines[k].content), base + Counted(lines[..k]), k + 1)
  }

  predicate Numbers(outs: seq<Output>, number: nat) {
    exists p :: 0 <= p < |outs| && outs[p].number == number
  }

  /** The outputs are exactly the renderings of the lines that relay. */
  predicate Rendered(outs: seq<Output>, lines: seq<Line>, reader: Reader, since: Option<real>, base: nat) {
    && (forall p | 0 <= p < |outs| :: FromLine(outs[p], lines, reader, since, base))
    && (forall k | 0 <= k < |lines| && Relays(reader(lines[k].content), since) :: Numbers(outs, k + 1))
  }

  lemma OutputsTold(lines: seq<Line>, reader: Reader, since: Option<real>, base: nat)
    ensures Rendered(Outputs(lines, reader, since, base), lines, reader, since, base)
  {
    hide Outputs, Relays, FromLine, Numbers;
    var outs := Outputs(lines, reader, since, base);
    forall p | 0 <= p < |outs| ensures FromLine(outs[p], lines, reader, since, base) {
      OutputTold(lines, reader, since, base, p);
    }
    forall k | 0 <= k < |lines| && Relays(reader(lines[k].content), since) ensures Numbers(outs, k + 1) {
      LineTold(lines, reader, since, base, k);
    }
  }

  lemma OutputTold(lines: seq<Line>, reader: Reader, since: Option<real>, base: nat, p: nat)
    requires p < |Outputs(lines, reader, since, base)|
    ensures FromLine(Outputs(lines, reader, since, base)[p], lines, reader, since, base)
  {
    hide Outputs, Counted, Renders, Relays, Emit;
    OutputSource(lines, reader, since, base, p);
    var k := Outputs(lines, reader, since, base)[p].number - 1;
    EmitTold(lines[k], reader, since, base + Counted(lines[..k]), k + 1);
  }

  lemma LineTold(lines: seq<Line>, reader: Reader, since: Option<real>, base: nat, k: nat)
    requires k < |lines| && Relays(reader(lines[k].content), since)
    ensures Numbers(Outputs(lines, reader, since, base), k + 1)
  {
    hide Outputs, Counted, Relays, Emit;
    VisibleIsCollected(lines, reader, since, base, k);
    EmitTold(lines[k], reader, since, base + Counted(lines[..k]), k + 1);
    var shown := Emit(lines[k], reader, since, base + Counted(lines[..k]), k + 1);
    var p :| 0 <= p < |Outputs(lines, reader, since, base)| && Outputs(lines, reader, since, base)[p] == shown[0];
  }

  lemma EmitTold(line: Line, reader: Reader, since: Option<real>, at: nat, number: nat)
    ensures var shown := Emit(line, reader, since, at, number);
            if Relays(reader(line.content), since) then |shown| == 1 && Renders(shown[0], reader(line.content), at, number) else shown == []
  {
  }

  /**
  With no boundary a collection is exactly the assistant messages of the file
  stamped no earlier than the delivery; from a boundary, all those after it.
  */
  lemma CollectedExactly(data: seq<Byte>, reader: Reader, offset: Option<nat>, delivered: real)
    requires offset.Some? ==> offset.value <= |data|
    ensures var base := if offset.Some? then offset.value else 0;
            Rendered(Collect(data, reader, offset, delivered), Split(data[base..]), reader, if offset.None? then Some(delivered) else None, base)
  {
    assert data[0..] == data;
    var base := if offset.Some? then offset.value else 0;
    OutputsTold(Split(data[base..]), reader, if offset.None? then Some(delivered) else None, base);
    hide Rendered, Outputs, Split;
  }

  /** A boundary past the end of the file collects nothing. */
  lemma NothingPastTheEnd(data: seq<Byte>, reader: Reader, offset: nat, delivered: real)
    requires offset > |data|
    ensures Collect(data, reader, Some(offset), delivered) == []
  {
  }

  // ------------------------------------------------------------------- loops

  /** The boundary, counting bytes line by line. */
  method FindBoundary(data: seq<Byte>, reader: Reader, textHash: Option<string>) returns (matched: Option<nat>)
    ensures matched == if textHash.None? then None else Boundary(data, reader, textHash.value)
  {
    if textHash.None? {
      return None;
    }
    var lines := Split(data);
    var offset := 0;
    matched := None;
    for k := 0 to |lines|
      invariant offset == StartOf(lines, k)
      invariant var r := LastMatch(lines[..k], reader, textHash.value);
                matched == if r.Some? then Some(StartOf(lines[..k], r.value)) else None
    {
      var line := lines[k];
      assert lines[..k + 1][..k] == lines[..k];
      StartLast(lines, k + 1);
      StartsAgree(lines[..k + 1], k);
      offset := offset + |line.content| + |line.end|;
      if Matches(line, reader, textHash.value) {
        matched := Some(offset);
      }
    }
    assert lines[..|lines|] == lines;
  }

  lemma StartsAgree(lines: seq<Line>, n: nat)
    requires n <= |lines|
    ensures forall i: nat | i <= n :: StartOf(lines[..n], i) == StartOf(lines, i)
    ensures StartOf(lines, |lines|) == |Join(lines)|
  {
    forall i: nat | i <= n ensures StartOf(lines[..n], i) == StartOf(lines, i) {
      assert lines[..n][..i] == lines[..i];
    }
    assert lines[..|lines|] == lines;
  }

  /** The outputs and when each was completed; `clock` is the time read while the line of that number is scanned. */
  method CollectOutputs(data: seq<Byte>, reader: Reader, offset: Option<nat>, delivered: real, clock: nat -> real)
    returns (outputs: seq<Output>, completedAt: seq<real>)
    ensures outputs == Collect(data, reader, offset, delivered) && |completedAt| == |outputs|
    ensures forall i | 0 <= i < |outputs| ::
              completedAt[i] == if outputs[i].completed.Some? then outputs[i].completed.value else clock(outputs[i].number)
  {
    hide Split, Emit;
    outputs, completedAt := [], [];
    if offset.Some? && offset.value > |data| {
      return;
    }
    var base, since := 0, Some(delivered);
    if offset.Some? {
      base, since := offset.value, None;
    }
    assert data[0..] == data;
    var lines := Split(data[base..]);
    var lineStart := 0;
    for k := 0 to |lines|
      invariant lineStart == Counted(lines[..k])
      invariant outputs == Outputs(lines[..k], reader, since, base) && |completedAt| == |outputs|
      invariant forall i | 0 <= i < |outputs| ::
                  completedAt[i] == if outputs[i].completed.Some? then outputs[i].completed.value else clock(outputs[i].number)
    {
      assert lines[..k + 1][..k] == lines[..k];
      var at := base + lineStart;
      lineStart := lineStart + |lines[k].content| + 1;
      var shown := Emit(lines[k], reader, since, at, k + 1);
      if shown != [] {
        var completed := shown[0].completed;
        completedAt := completedAt + [if completed.Some? then completed.value else clock(k + 1)];
      }
      outputs := outputs + shown;
    }
    assert lines[..|lines|] == lines;
  }
}
