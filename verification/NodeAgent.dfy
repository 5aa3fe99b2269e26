/**
The node-local event tail (src/node_agent.py): the cursor filter, and the line
buffer that turns arbitrary chunks of a file into frames.
*/
module NodeAgent {
  import opened Options

  /** Both fields are independently optional, as the registration payload allows. */
  datatype Cursor = Cursor(epoch: Option<string>, num: Option<int>)

  /** A decoded line: blank, or its stripped text with the epoch key and sequence number it carries. */
  datatype Line = Blank | Line(raw: string, epoch: string, num: Option<int>)

  datatype Frame =
    | EventGap(previous: int, next: int, epoch: string)
    | Event(raw: string)

  // ------------------------------------------------------------ the filter

  predicate ShouldSend(c: Cursor, epoch: string, num: Option<int>) {
    num.None? || c.epoch != Some(epoch) || c.num.None? || num.value > c.num.value
  }

  function NoteSent(c: Cursor, epoch: string, num: Option<int>): Cursor {
    if num.None? then c else Cursor(Some(epoch), num)
  }

  function Gap(c: Cursor, epoch: string, num: Option<int>): Option<Frame> {
    if num.Some? && c.epoch == Some(epoch) && c.num.Some? && num.value > c.num.value + 1
    then Some(EventGap(c.num.value, num.value, epoch))
    else None
  }

  datatype Sent = Sent(cursor: Cursor, frames: seq<Frame>)

  function SendLine(c: Cursor, l: Line): Sent {
    if l.Blank? || !ShouldSend(c, l.epoch, l.num) then Sent(c, [])
    else
      var gap := Gap(c, l.epoch, l.num);
      Sent(NoteSent(c, l.epoch, l.num), (if gap.Some? then [gap.value] else []) + [Event(l.raw)])
  }

  function SendLines(decode: string -> Line, c: Cursor, lines: seq<string>): Sent
    decreases lines
  {
    if lines == [] then Sent(c, [])
    else
      var first := SendLine(c, decode(lines[0]));
      var rest := SendLines(decode, first.cursor, lines[1..]);
      Sent(rest.cursor, first.frames + rest.frames)
  }

  lemma {:induction false} SendLinesAppend(decode: string -> Line, c: Cursor, a: seq<string>, b: seq<string>)
    ensures var first := SendLines(decode, c, a);
            var rest := SendLines(decode, first.cursor, b);
            SendLines(decode, c, a + b) == Sent(rest.cursor, first.frames + rest.frames)
    decreases a
  {
    if a == [] {
      assert a + b == b;
    } else {
      assert (a + b)[1..] == a[1..] + b;
      SendLinesAppend(decode, SendLine(c, decode(a[0])).cursor, a[1..], b);
    }
  }

  // ---------------------------------------------------------- conservation

  function Events(frames: seq<Frame>): nat {
    if frames == [] then 0 else (if frames[0].Event? then 1 else 0) + Events(frames[1..])
  }

  /** The sequence numbers the reported gaps say are missing. */
  function Missing(frames: seq<Frame>): int {
    if frames == [] then 0
    else (if frames[0].EventGap? then frames[0].next - frames[0].previous - 1 else 0) + Missing(frames[1..])
  }

  lemma {:induction false} CountsAppend(a: seq<Frame>, b: seq<Frame>)
    ensures Events(a + b) == Events(a) + Events(b) && Missing(a + b) == Missing(a) + Missing(b)
  {
    if a == [] {
      assert a + b == b;
    } else {
      assert (a + b)[1..] == a[1..] + b;
      CountsAppend(a[1..], b);
    }
  }

  lemma SendLineConserves(c: Cursor, l: Line)
    requires c.num.Some? && c.epoch.Some? && (l.Line? ==> Some(l.epoch) == c.epoch && l.num.Some?)
    ensures var s := SendLine(c, l);
            && s.cursor.epoch == c.epoch && s.cursor.num.Some?
            && s.cursor.num.value - c.num.value == Events(s.frames) + Missing(s.frames)
  {
    var s := SendLine(c, l);
    if s.frames != [] {
      assert s.frames[|s.frames| - 1..] == [Event(l.raw)];
      CountsAppend(s.frames[..|s.frames| - 1], [Event(l.raw)]);
      assert s.frames == s.frames[..|s.frames| - 1] + [Event(l.raw)];
    }
  }

  /** Within one epoch, events sent plus gaps reported account for every sequence number passed. */
  lemma {:induction false} GapsConserve(decode: string -> Line, c: Cursor, lines: seq<string>)
    requires c.num.Some? && c.epoch.Some?
    requires forall l | l in lines && decode(l).Line? :: Some(decode(l).epoch) == c.epoch && decode(l).num.Some?
    ensures var s := SendLines(decode, c, lines);
            && s.cursor.epoch == c.epoch && s.cursor.num.Some?
            && s.cursor.num.value - c.num.value == Events(s.frames) + Missing(s.frames)
    decreases lines
  {
    if lines != [] {
      var first := SendLine(c, decode(lines[0]));
      SendLineConserves(c, decode(lines[0]));
      GapsConserve(decode, first.cursor, lines[1..]);
      CountsAppend(first.frames, SendLines(decode, first.cursor, lines[1..]).frames);
    }
  }

  // ------------------------------------------------------------- splitting

  /** The characters at which Python's `splitlines` breaks. */
  predicate IsBreak(c: char) {
    c in {'\n', '\r', '\U{0B}', '\U{0C}', '\U{1C}', '\U{1D}', '\U{1E}', '\U{85}', '\U{2028}', '\U{2029}'}
  }

  function BreakAt(s: string): (i: nat)
    ensures i <= |s| && (forall k | 0 <= k < i :: !IsBreak(s[k])) && (i < |s| ==> IsBreak(s[i]))
  {
    if s == "" || IsBreak(s[0]) then 0 else 1 + BreakAt(s[1..])
  }

  function AfterBreak(s: string, i: nat): nat {
    if i + 1 < |s| && s[i] == '\r' && s[i + 1] == '\n' then i + 2 else i + 1
  }

  function SplitLines(s: string): seq<string> {
    var i := BreakAt(s);
    if s == "" then []
    else if i == |s| then [s]
    else [s[..i]] + SplitLines(s[AfterBreak(s, i)..])
  }

  datatype Tail = Tail(cursor: Cursor, buffer: string)

  datatype Fed = Fed(tail: Tail, frames: seq<Frame>)

  /** The lines a buffer completes, and what stays in it. */
  function Take(buffer: string): (seq<string>, string) {
    var lines := SplitLines(buffer);
    if buffer != "" && buffer[|buffer| - 1] != '\n'
    then if lines != [] then (lines[..|lines| - 1], lines[|lines| - 1]) else (lines, buffer)
    else (lines, "")
  }

  function ProcessChunk(decode: string -> Line, t: Tail, chunk: string): Fed {
    var (lines, rest) := Take(t.buffer + chunk);
    var sent := SendLines(decode, t.cursor, lines);
    Fed(Tail(sent.cursor, rest), sent.frames)
  }

  function Feed(decode: string -> Line, t: Tail, chunks: seq<string>): Fed
    decreases chunks
  {
    if chunks == [] then Fed(t, [])
    else
      var first := ProcessChunk(decode, t, chunks[0]);
      var rest := Feed(decode, first.tail, chunks[1..]);
      Fed(rest.tail, first.frames + rest.frames)
  }

  function Joined(chunks: seq<string>): string {
    if chunks == [] then "" else chunks[0] + Joined(chunks[1..])
  }

  // ------------------------------------------------------ where lines end

  predicate Unbroken(s: string) {
    forall k | 0 <= k < |s| :: !IsBreak(s[k])
  }

  lemma BreakAtIs(s: string, i: nat)
    requires i <= |s| && (i < |s| ==> IsBreak(s[i])) && forall k | 0 <= k < i :: !IsBreak(s[k])
    ensures BreakAt(s) == i
  {
    hide BreakAt;
    var n := BreakAt(s);
  }

  /** The break that ends s and the one that starts t would be one. */
  predicate Joins(s: string, t: string) {
    s != "" && t != "" && s[|s| - 1] == '\r' && t[0] == '\n'
  }

  /** The last line of s is complete and t does not continue its break. */
  predicate Closed(s: string, t: string) {
    s == "" || (IsBreak(s[|s| - 1]) && !Joins(s, t))
  }

  lemma SplitStep(s: string)
    requires BreakAt(s) < |s|
    ensures var i := BreakAt(s);
            var w := AfterBreak(s, i);
            i < w <= |s| && SplitLines(s) == [s[..i]] + SplitLines(s[w..])
  {
  }

  lemma SplitWhole(s: string)
    requires Unbroken(s)
    ensures SplitLines(s) == if s == "" then [] else [s]
  {
    BreakAtIs(s, |s|);
  }

  /** A line that has ended stays the first line when text is appended; what follows it is appended to. */
  lemma SplitMore(s: string, t: string)
    requires BreakAt(s) < |s|
    ensures var i := BreakAt(s);
            var w := AfterBreak(s, i);
            && w <= |s|
            && (w < |s| || !Joins(s, t) ==> SplitLines(s + t) == [s[..i]] + SplitLines(s[w..] + t))
            && (w == |s| && Joins(s, t) ==> SplitLines(s + t) == [s[..i]] + SplitLines(t[1..]))
  {
    hide BreakAt, SplitLines, AfterBreak, Joins, IsBreak;
    var i, all := BreakAt(s), s + t;
    var w := AfterBreak(s, i);
    SameBreak(s, t);
    SplitStep(all);
    EndBounds(s, i);
    assert all[..i] == s[..i];
    if w < |s| || !Joins(s, t) {
      SameEnd(s, t, i);
      assert all[w..] == s[w..] + t;
    } else {
      JoinedEnd(s, t, i);
      assert all[w + 1..] == t[1..];
    }
  }

  lemma EndBounds(s: string, i: nat)
    requires i < |s|
    ensures i < AfterBreak(s, i) <= |s|
  {
  }

  lemma SameBreak(s: string, t: string)
    requires BreakAt(s) < |s|
    ensures BreakAt(s + t) == BreakAt(s)
  {
    hide BreakAt;
    var all := s + t;
    assert forall k | 0 <= k < |s| :: all[k] == s[k];
    BreakAtIs(all, BreakAt(s));
  }

  lemma JoinedEnd(s: string, t: string, i: nat)
    requires i < |s| && AfterBreak(s, i) == |s| && Joins(s, t)
    ensures t != "" && AfterBreak(s + t, i) == |s| + 1
  {
    assert (s + t)[|s|] == t[0];
  }

  lemma SameEnd(s: string, t: string, i: nat)
    requires i < |s| && (AfterBreak(s, i) < |s| || !Joins(s, t))
    ensures AfterBreak(s + t, i) == AfterBreak(s, i)
  {
    assert i + 1 < |s| ==> (s + t)[i + 1] == s[i + 1];
    assert i + 1 == |s| && t != "" ==> (s + t)[i + 1] == t[0];
  }

  lemma TailEnds(s: string, t: string, w: nat)
    requires w < |s|
    ensures Joins(s[w..], t) == Joins(s, t) && Closed(s[w..], t) == Closed(s, t)
    ensures IsBreak(s[w..][|s[w..]| - 1]) == IsBreak(s[|s| - 1])
  {
    assert s[w..][|s[w..]| - 1] == s[|s| - 1];
  }

  /** After a complete line, splitting starts afresh. */
  lemma {:induction false} SplitClosed(s: string, t: string)
    requires Closed(s, t)
    ensures SplitLines(s + t) == SplitLines(s) + SplitLines(t)
    decreases |s|
  {
    hide SplitLines, AfterBreak, BreakAt, Joins;
    if s == "" {
      assert s + t == t;
      SplitWhole("");
    } else {
      var i := BreakAt(s);
      var w := AfterBreak(s, i);
      SplitStep(s);
      SplitMore(s, t);
      if w < |s| {
        TailEnds(s, t, w);
        SplitClosed(s[w..], t);
      } else {
        assert s[w..] == "" && "" + t == t;
        SplitWhole("");
      }
      Regroup(s[..i], SplitLines(s[w..]), SplitLines(t));
    }
  }

  /** Otherwise the last line goes on. */
  lemma {:induction false} SplitOpen(s: string, t: string)
    requires !Closed(s, t)
    ensures var lines := SplitLines(s);
            var n := |lines| - 1;
            n >= 0 && SplitLines(s + t) == lines[..n] + SplitLines(lines[n] + t)
    decreases |s|
  {
    hide SplitLines, AfterBreak, BreakAt;
    var i := BreakAt(s);
    if i == |s| {
      SplitWhole(s);
      assert [s][..0] + SplitLines(s + t) == SplitLines(s + t);
    } else {
      var w := AfterBreak(s, i);
      SplitStep(s);
      SplitMore(s, t);
      if w < |s| {
        TailEnds(s, t, w);
        SplitOpen(s[w..], t);
        var lines := SplitLines(s[w..]);
        LastOf(s[..i], lines, SplitLines(lines[|lines| - 1] + t));
      } else {
        EndBreaks(s);
        assert s[w..] == "";
        SplitWhole("");
        SplitEnded(s[..i], t);
        assert [s[..i]] + [] == [s[..i]] && [s[..i]][..0] == [];
      }
    }
  }

  lemma EndBreaks(s: string)
    requires BreakAt(s) < |s| && AfterBreak(s, BreakAt(s)) == |s|
    ensures IsBreak(s[|s| - 1])
  {
  }

  lemma LastOf(head: string, lines: seq<string>, more: seq<string>)
    requires lines != []
    ensures var all := [head] + lines;
            all[|all| - 1] == lines[|lines| - 1] && all[..|all| - 1] + more == [head] + (lines[..|lines| - 1] + more)
  {
    assert ([head] + lines)[..|lines|] == [head] + lines[..|lines| - 1];
  }

  /** A line that a line feed completes. */
  lemma SplitEnded(x: string, t: string)
    requires Unbroken(x) && t != "" && t[0] == '\n'
    ensures SplitLines(x + t) == [x] + SplitLines(t[1..])
  {
    var s := x + t;
    assert forall k | 0 <= k < |x| :: s[k] == x[k];
    assert s[|x|] == '\n';
    BreakAtIs(s, |x|);
    SplitStep(s);
    assert s[..|x|] == x && s[|x| + 1..] == t[1..];
  }

  /** Text before the first break changes the first line only. */
  lemma SplitSame(x: string, t: string)
    requires Unbroken(x) && t != ""
    ensures |SplitLines(x + t)| == |SplitLines(t)|
  {
    hide BreakAt, SplitLines;
    var s, i := x + t, BreakAt(t);
    assert forall k | 0 <= k < |t| :: s[|x| + k] == t[k];
    BreakAtIs(s, |x| + i);
    if i < |t| {
      SplitStep(t);
      SplitStep(s);
      hide IsBreak;
      var w := AfterBreak(t, i);
      assert AfterBreak(s, |x| + i) == |x| + w;
      DropBoth(x, t, w);
    } else {
      SplitWhole(t);
      SplitWhole(s);
    }
  }

  lemma DropBoth(x: string, t: string, w: nat)
    requires w <= |t|
    ensures (x + t)[|x| + w..] == t[w..]
  {
  }

  lemma {:induction false} LinesUnbroken(s: string, k: nat)
    requires k < |SplitLines(s)|
    ensures Unbroken(SplitLines(s)[k])
    decreases |s|
  {
    if BreakAt(s) < |s| {
      SplitStep(s);
      if k > 0 {
        LinesUnbroken(s[AfterBreak(s, BreakAt(s))..], k - 1);
      }
    }
  }

  lemma Regroup(head: string, a: seq<string>, b: seq<string>)
    ensures [head] + (a + b) == ([head] + a) + b && [] + b == b
  {
  }

  // ------------------------------------------------------- chunk boundaries

  /** A boundary after this text, with that text still to come, that leaves no trace. */
  predicate Smooth(s: string, t: string) {
    s == "" || t == "" || !IsBreak(s[|s| - 1]) || s[|s| - 1] == '\n' || (s[|s| - 1] == '\r' && t[0] == '\n')
  }

  /** What is left over is one unfinished line. */
  lemma LeftUnbroken(s: string)
    ensures Unbroken(Take(s).1)
  {
    var lines := SplitLines(s);
    if lines != [] {
      LinesUnbroken(s, |lines| - 1);
    } else {
      SplitStepEmpty(s);
    }
  }

  lemma SplitStepEmpty(s: string)
    requires SplitLines(s) == []
    ensures s == ""
  {
  }

  lemma TakeUnbroken(s: string)
    requires Unbroken(s)
    ensures Take(s) == ([], s)
  {
    SplitWhole(s);
  }

  /** The lines of a piece of text: all, or all but the last when no line feed ends it. */
  lemma TakeIs(s: string)
    ensures var lines := SplitLines(s);
            var whole := s == "" || s[|s| - 1] == '\n';
            && (s != "" ==> lines != [])
            && Take(s) == if whole then (lines, "") else (lines[..|lines| - 1], lines[|lines| - 1])
  {
    if SplitLines(s) == [] {
      SplitStepEmpty(s);
    }
  }

  lemma SameLast(x: string, s: string, t: string)
    requires t != ""
    ensures (x + t)[|x + t| - 1] == (s + t)[|s + t| - 1] == t[|t| - 1]
  {
  }

  /**
  For every buffer and every further chunk: cutting there gives the lines and
  the leftover of the joined text if and only if the buffer is empty, or does
  not end in a line break, or ends in a line feed, or ends in a carriage return
  that the chunk completes with a line feed.
  */
  lemma BoundaryIsInvisibleIff(s: string, t: string)
    requires t != ""
    ensures var first := Take(s);
            var second := Take(first.1 + t);
            (first.0 + second.0, second.1) == Take(s + t) <==> Smooth(s, t)
    ensures !Smooth(s, t) ==> |Take(s).0| + |Take(Take(s).1 + t).0| + 1 == |Take(s + t).0|
  {
    hide SplitLines, Take, IsBreak;
    if !Closed(s, t) {
      OpenBoundary(s, t);
    } else if s == "" || s[|s| - 1] == '\n' {
      CleanBoundary(s, t);
    } else {
      LossyBoundary(s, t);
    }
  }

  lemma OpenBoundary(s: string, t: string)
    requires t != "" && !Closed(s, t)
    ensures var first := Take(s);
            var second := Take(first.1 + t);
            (first.0 + second.0, second.1) == Take(s + t)
    ensures s[|s| - 1] != '\n'
  {
    hide SplitLines, Take;
    var lines := SplitLines(s);
    TakeIs(s);
    TakeIs(s + t);
    SplitOpen(s, t);
    hide Closed;
    var rest := lines[|lines| - 1];
    TakeIs(rest + t);
    SameLast(rest, s, t);
    PopAfter(lines[..|lines| - 1], SplitLines(rest + t));
  }

  lemma CleanBoundary(s: string, t: string)
    requires t != "" && (s == "" || s[|s| - 1] == '\n')
    ensures var first := Take(s);
            var second := Take(first.1 + t);
            (first.0 + second.0, second.1) == Take(s + t)
  {
    hide SplitLines, Take;
    assert Closed(s, t);
    TakeIs(s);
    TakeIs(s + t);
    TakeIs(t);
    SplitClosed(s, t);
    hide Closed;
    assert "" + t == t;
    SameLast("", s, t);
    PopAfter(SplitLines(s), SplitLines(t));
  }

  lemma LossyBoundary(s: string, t: string)
    requires t != "" && Closed(s, t) && s != "" && s[|s| - 1] != '\n'
    ensures |Take(s).0| + |Take(Take(s).1 + t).0| + 1 == |Take(s + t).0|
  {
    hide SplitLines, Take;
    TakeIs(s);
    TakeIs(s + t);
    SplitClosed(s, t);
    hide Closed;
    var rest := Take(s).1;
    TakeIs(rest + t);
    SameLast(rest, s, t);
    LeftUnbroken(s);
    SplitSame(rest, t);
  }

  lemma PopAfter(a: seq<string>, b: seq<string>)
    requires b != []
    ensures (a + b)[..|a + b| - 1] == a + b[..|b| - 1] && (a + b)[|a + b| - 1] == b[|b| - 1]
  {
  }

  // ------------------------------------------------------------ chunk lists

  /** The lines a list of chunks completes, and what stays in the buffer. */
  function FeedLines(buffer: string, chunks: seq<string>): (seq<string>, string)
    decreases chunks
  {
    if chunks == [] then ([], buffer)
    else
      var first := Take(buffer + chunks[0]);
      var rest := FeedLines(first.1, chunks[1..]);
      (first.0 + rest.0, rest.1)
  }

  predicate AllSmooth(buffer: string, chunks: seq<string>)
    decreases chunks
  {
    chunks != [] ==> Smooth(buffer + chunks[0], Joined(chunks[1..])) && AllSmooth(buffer + chunks[0], chunks[1..])
  }

  /** Smoothness depends on the text before only through its last character. */
  lemma {:induction false} SmoothFrom(s: string, r: string, chunks: seq<string>)
    requires Unbroken(r) && Smooth(s, Joined(chunks))
    ensures AllSmooth(s, chunks) <==> AllSmooth(r, chunks)
    decreases chunks
  {
    if chunks != [] {
      var c, rest := chunks[0], chunks[1..];
      if c == "" {
        assert s + c == s && r + c == r && Joined(chunks) == Joined(rest);
        assert Smooth(r, Joined(rest));
        SmoothFrom(s, r, rest);
      } else {
        SameLast(r, s, c);
        SmoothSame(s + c, r + c, rest);
      }
    }
  }

  lemma {:induction false} SmoothSame(s: string, r: string, chunks: seq<string>)
    requires s != "" && r != "" && s[|s| - 1] == r[|r| - 1]
    ensures AllSmooth(s, chunks) <==> AllSmooth(r, chunks)
    decreases chunks
  {
    if chunks != [] {
      var c := chunks[0];
      if c != "" {
        SameLast(r, s, c);
      } else {
        assert s + c == s && r + c == r;
      }
      SmoothSame(s + c, r + c, chunks[1..]);
    }
  }

  /** A boundary never adds lines. */
  lemma {:induction false} FewerLines(buffer: string, chunks: seq<string>)
    requires Unbroken(buffer)
    ensures |FeedLines(buffer, chunks).0| <= |Take(buffer + Joined(chunks)).0|
    decreases chunks
  {
    hide Take, Smooth, Unbroken;
    if chunks == [] {
    } else {
      var s, t := buffer + chunks[0], Joined(chunks[1..]);
      assert buffer + Joined(chunks) == s + t;
      LeftUnbroken(s);
      FewerLines(Take(s).1, chunks[1..]);
      TwoPieces(s, t);
    }
  }

  /** The same with nothing more to come: the leftover stays as it is. */
  lemma TwoPieces(s: string, t: string)
    ensures var first := Take(s);
            var second := Take(first.1 + t);
            && ((first.0 + second.0, second.1) == Take(s + t) <==> Smooth(s, t))
            && (!Smooth(s, t) ==> |first.0| + |second.0| + 1 == |Take(s + t).0|)
  {
    if t == "" {
      LeftUnbroken(s);
      TakeUnbroken(Take(s).1);
      assert s + t == s && Take(s).1 + t == Take(s).1;
      assert Take(s).0 + [] == Take(s).0;
    } else {
      BoundaryIsInvisibleIff(s, t);
    }
  }

  /** A list of chunks gives the lines and the leftover of its text if and only if every boundary in it is smooth. */
  lemma {:induction false} ChunksInvisibleIff(buffer: string, chunks: seq<string>)
    requires Unbroken(buffer)
    ensures FeedLines(buffer, chunks) == Take(buffer + Joined(chunks)) <==> AllSmooth(buffer, chunks)
    decreases chunks
  {
    hide Take, Smooth, Unbroken;
    if chunks == [] {
      assert buffer + Joined(chunks) == buffer;
      TakeUnbroken(buffer);
    } else {
      var s, t := buffer + chunks[0], Joined(chunks[1..]);
      assert buffer + Joined(chunks) == s + t;
      var first := Take(s);
      LeftUnbroken(s);
      TwoPieces(s, t);
      FewerLines(first.1, chunks[1..]);
      ChunksInvisibleIff(first.1, chunks[1..]);
      if Smooth(s, t) {
        SmoothFrom(s, first.1, chunks[1..]);
        SamePieces(first.0, FeedLines(first.1, chunks[1..]), Take(first.1 + t));
      }
    }
  }

  lemma SamePieces(front: seq<string>, a: (seq<string>, string), b: (seq<string>, string))
    ensures (front + a.0, a.1) == (front + b.0, b.1) <==> a == b
  {
    assert (front + a.0)[|front|..] == a.0 && (front + b.0)[|front|..] == b.0;
  }

  /** What is sent depends on the chunks only through their lines. */
  lemma {:induction false} FeedSends(decode: string -> Line, t: Tail, chunks: seq<string>)
    ensures var fed := FeedLines(t.buffer, chunks);
            var sent := SendLines(decode, t.cursor, fed.0);
            Feed(decode, t, chunks) == Fed(Tail(sent.cursor, fed.1), sent.frames)
    decreases chunks
  {
    if chunks != [] {
      hide Take, SendLines;
      var first := ProcessChunk(decode, t, chunks[0]);
      FeedSends(decode, first.tail, chunks[1..]);
      SendLinesAppend(decode, t.cursor, Take(t.buffer + chunks[0]).0, FeedLines(first.tail.buffer, chunks[1..]).0);
    }
  }

  predicate NewlineOnly(s: string) {
    forall k | 0 <= k < |s| :: IsBreak(s[k]) ==> s[k] == '\n'
  }

  lemma {:induction false} NewlinesAreSmooth(buffer: string, chunks: seq<string>)
    requires NewlineOnly(buffer + Joined(chunks))
    ensures AllSmooth(buffer, chunks)
    decreases chunks
  {
    if chunks != [] {
      var s, t := buffer + chunks[0], Joined(chunks[1..]);
      assert buffer + Joined(chunks) == s + t;
      assert s != "" ==> (s + t)[|s| - 1] == s[|s| - 1];
      NewlinesAreSmooth(s, chunks[1..]);
    }
  }

  /**
  Feeding a stream in any chunks whose boundaries are smooth gives the frames,
  cursor and leftover of feeding it whole; so does any split of text whose only
  line breaks are line feeds.
  */
  lemma ChunkingIsInvisible(decode: string -> Line, t: Tail, chunks: seq<string>)
    requires Unbroken(t.buffer)
    ensures AllSmooth(t.buffer, chunks) ==> Feed(decode, t, chunks) == ProcessChunk(decode, t, Joined(chunks))
    ensures NewlineOnly(t.buffer + Joined(chunks)) ==> AllSmooth(t.buffer, chunks)
  {
    FeedSends(decode, t, chunks);
    ChunksInvisibleIff(t.buffer, chunks);
    if NewlineOnly(t.buffer + Joined(chunks)) {
      NewlinesAreSmooth(t.buffer, chunks);
    }
    hide *;
  }

  // ------------------------------------------------------------- the object

  class TailRegistration {
    const decode: string -> Line
    var cursor: Cursor
    var buffer: string
    var frames: seq<Frame>     // everything sent so far

    constructor (decode: string -> Line, cursor: Cursor)
      ensures this.decode == decode && this.cursor == cursor && buffer == "" && frames == []
    {
      this.decode, this.cursor, this.buffer, this.frames := decode, cursor, "", [];
    }

    method Process(chunk: string)
      modifies this
      ensures var fed := ProcessChunk(decode, Tail(old(cursor), old(buffer)), chunk);
              Tail(cursor, buffer) == fed.tail && frames == old(frames) + fed.frames
    {
      buffer := buffer + chunk;
      var (lines, rest) := Take(buffer);
      buffer := rest;
      ghost var c0, f0 := cursor, frames;
      for i := 0 to |lines|
        invariant buffer == rest
        invariant var sent := SendLines(decode, c0, lines[..i]); cursor == sent.cursor && frames == f0 + sent.frames
      {
        var line := decode(lines[i]);
        SendOne(i, lines, c0);
        if line.Line? && ShouldSend(cursor, line.epoch, line.num) {
          var gap := Gap(cursor, line.epoch, line.num);
          cursor := NoteSent(cursor, line.epoch, line.num);
          if gap.Some? {
            frames := frames + [gap.value];
          }
          frames := frames + [Event(line.raw)];
        }
      }
      assert lines[..|lines|] == lines;
    }

    lemma SendOne(i: nat, lines: seq<string>, c: Cursor)
      requires i < |lines|
      ensures var sent := SendLines(decode, c, lines[..i]);
              var last := SendLine(sent.cursor, decode(lines[i]));
              SendLines(decode, c, lines[..i + 1]) == Sent(last.cursor, sent.frames + last.frames)
    {
      assert lines[..i + 1] == lines[..i] + [lines[i]];
      SendLinesAppend(decode, c, lines[..i], [lines[i]]);
      var sent := SendLines(decode, c, lines[..i]);
      assert SendLines(decode, sent.cursor, [lines[i]]) == SendLine(sent.cursor, decode(lines[i]));
    }
  }
}
