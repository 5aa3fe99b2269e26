/**
What a node's tail sends, said of the text and the numbers in it: which lines
a buffer completes, which of them are forwarded, and which gaps are reported.
*/
module TailFrames {
  import opened Basics
  import opened Options
  import opened NodeAgent

  // --------------------------------------------------------------- the lines

  /** The code points at which Python's `splitlines` breaks. */
  lemma BreaksByCode(c: char)
    ensures IsBreak(c) <==> c as int in {10, 11, 12, 13, 28, 29, 30, 133, 8232, 8233}
  {
  }

  /** A line feed or a character that is neither a control nor a separator. */
  predicate Ordinary(c: char) {
    c == '\n' || 32 <= c as int < 127 || 160 <= c as int < 8232 || 8233 < c as int
  }

  predicate AllOrdinary(s: string) {
    forall k | 0 <= k < |s| :: Ordinary(s[k])
  }

  /** The lines with a line feed after each. */
  function Ended(lines: seq<string>): string {
    if lines == [] then "" else lines[0] + "\n" + Ended(lines[1..])
  }

  predicate Whole(lines: seq<string>) {
    forall i | 0 <= i < |lines| :: '\n' !in lines[i]
  }

  /** These lines make up the text; only its last line may lack a line feed. */
  predicate MakesUp(s: string, lines: seq<string>) {
    && Whole(lines)
    && if s == "" || s[|s| - 1] == '\n' then s == Ended(lines)
       else lines != [] && s == Ended(lines[..|lines| - 1]) + lines[|lines| - 1]
  }

  lemma BreakIsFeed(s: string)
    requires AllOrdinary(s)
    ensures var i := BreakAt(s); '\n' !in s[..i] && (i < |s| ==> s[i] == '\n' && AfterBreak(s, i) == i + 1)
  {
    hide BreakAt;
    var i := BreakAt(s);
    forall k | 0 <= k < |s| ensures IsBreak(s[k]) <==> s[k] == '\n' { BreaksByCode(s[k]); }
  }

  lemma ConsMakesUp(head: string, rest: string, lines: seq<string>)
    requires '\n' !in head && MakesUp(rest, lines)
    ensures MakesUp(head + "\n" + rest, [head] + lines)
  {
    var s, all := head + "\n" + rest, [head] + lines;
    assert all[1..] == lines;
    if rest != "" && rest[|rest| - 1] != '\n' {
      var n := |lines| - 1;
      assert all[..n + 1] == [head] + lines[..n] && ([head] + lines[..n])[1..] == lines[..n];
      assert s == head + "\n" + (Ended(lines[..n]) + lines[n]);
      assert s == (head + "\n" + Ended(lines[..n])) + lines[n];
    }
  }

  lemma {:induction false} SplitTold(s: string)
    requires AllOrdinary(s)
    ensures MakesUp(s, SplitLines(s))
    decreases |s|
  {
    hide MakesUp, BreakAt, AfterBreak;
    var i := BreakAt(s);
    BreakIsFeed(s);
    if i < |s| {
      var head, rest := s[..i], s[i + 1..];
      SplitStep(s);
      hide SplitLines;
      SplitTold(rest);
      ConsMakesUp(head, rest, SplitLines(rest));
      assert s == head + "\n" + rest;
    } else {
      assert s[..i] == s;
      LastMakesUp(s);
    }
  }

  lemma LastMakesUp(s: string)
    requires '\n' !in s
    ensures s != "" ==> MakesUp(s, [s])
    ensures MakesUp("", [])
  {
    assert [s][..0] == [];
    assert s != "" ==> s[|s| - 1] in s;
  }

  /**
  Of ordinary text a buffer completes exactly the lines ended by a line feed,
  each without it, and keeps the rest.
  */
  lemma TakeTold(buffer: string)
    requires AllOrdinary(buffer)
    ensures var (lines, rest) := Take(buffer);
            buffer == Ended(lines) + rest && '\n' !in rest && Whole(lines)
  {
    SplitTold(buffer);
    hide SplitLines;
    var lines := SplitLines(buffer);
    if buffer != "" && buffer[|buffer| - 1] == '\n' {
      assert Ended(lines) + "" == Ended(lines);
    }
  }

  // -------------------------------------------------------------- the frames

  /** A line that is not blank is forwarded with its text; one of another epoch, one without a number, and the first numbered one never report a gap. */
  lemma FreshLinePasses(c: Cursor, l: Line)
    requires l.Line? && (l.num.None? || c.num.None? || c.epoch != Some(l.epoch))
    ensures SendLine(c, l) == Sent(if l.num.None? then c else Cursor(Some(l.epoch), l.num), [Event(l.raw)])
  {
  }

  lemma BlankIsDropped(c: Cursor)
    ensures SendLine(c, Blank) == Sent(c, [])
  {
  }

  /** The greatest number up to line n, starting from what was sent before. */
  function Highest(decode: string -> Line, top: int, lines: seq<string>, n: nat): int
    requires n <= |lines|
    decreases n
  {
    if n == 0 then top
    else
      Raised(Highest(decode, top, lines, n - 1), decode(lines[n - 1]))
  }

  function Raised(before: int, l: Line): int {
    if l.Line? && l.num.Some? then Max(before, l.num.value) else before
  }

  /** What line n adds: its text if its number is new, after the gap it leaves. */
  function Piece(decode: string -> Line, top: int, lines: seq<string>, n: nat): seq<Frame>
    requires n < |lines|
  {
    Adds(Highest(decode, top, lines, n), decode(lines[n]))
  }

  function Adds(before: int, l: Line): seq<Frame> {
    match l
    case Blank => []
    case Line(raw, epoch, num) =>
      if num.None? then [Event(raw)]
      else if num.value <= before then []
      else if num.value == before + 1 then [Event(raw)]
      else [EventGap(before, num.value, epoch), Event(raw)]
  }

  function Pieces(decode: string -> Line, top: int, lines: seq<string>, n: nat): seq<Frame>
    requires n <= |lines|
    decreases n
  {
    if n == 0 then [] else Pieces(decode, top, lines, n - 1) + Piece(decode, top, lines, n - 1)
  }

  /**
  Within one epoch a line is forwarded exactly when its number exceeds every
  number before it, with its own text, and just before it comes a gap exactly
  when numbers between are missing.
  */
  lemma FramesTold(decode: string -> Line, c: Cursor, lines: seq<string>)
    requires c.num.Some? && c.epoch.Some? && forall l | l in lines && decode(l).Line? :: Some(decode(l).epoch) == c.epoch
    ensures var s := SendLines(decode, c, lines);
            && s.frames == Pieces(decode, c.num.value, lines, |lines|)
            && s.cursor == Cursor(c.epoch, Some(Highest(decode, c.num.value, lines, |lines|)))
  {
    FramesUpTo(decode, c, lines, |lines|);
    assert lines[..|lines|] == lines;
  }

  lemma {:induction false} FramesUpTo(decode: string -> Line, c: Cursor, lines: seq<string>, n: nat)
    requires n <= |lines| && c.num.Some? && c.epoch.Some? && forall l | l in lines && decode(l).Line? :: Some(decode(l).epoch) == c.epoch
    ensures var s := SendLines(decode, c, lines[..n]);
            && s.frames == Pieces(decode, c.num.value, lines, n)
            && s.cursor == Cursor(c.epoch, Some(Highest(decode, c.num.value, lines, n)))
    decreases n
  {
    if n > 0 {
      FramesUpTo(decode, c, lines, n - 1);
      assert lines[..n] == lines[..n - 1] + [lines[n - 1]];
      SendLinesAppend(decode, c, lines[..n - 1], [lines[n - 1]]);
      var s := SendLines(decode, c, lines[..n - 1]);
      assert lines[n - 1] in lines;
      OneLine(decode, s.cursor, lines[n - 1]);
      LineAdds(s.cursor, decode(lines[n - 1]));
      hide SendLines, SendLine, Raised, Adds;
    }
  }

  lemma LineAdds(c: Cursor, l: Line)
    requires c.num.Some? && c.epoch.Some? && (l.Line? ==> Some(l.epoch) == c.epoch)
    ensures SendLine(c, l) == Sent(Cursor(c.epoch, Some(Raised(c.num.value, l))), Adds(c.num.value, l))
  {
  }

  lemma OneLine(decode: string -> Line, c: Cursor, line: string)
    ensures SendLines(decode, c, [line]) == SendLine(c, decode(line))
  {
    assert [line][1..] == [];
  }
}
