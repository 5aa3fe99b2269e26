/**
What a page holds, said of the numbers stored and of the steps of a run: which
events, the bounds, where to resume, and what gap is reported.
*/
module EventPages {
  import opened Basics
  import opened Options
  import opened EventRows
  import opened EventReader

  /** The numbers from lo to hi, none missing. */
  ghost predicate Spans(nums: set<int>, lo: int, hi: int) {
    lo <= hi && forall x :: x in nums <==> lo <= x <= hi
  }

  lemma RunSpans(ret: EventRows.Retention, session: string, b: seq<Log>, steps: seq<Step>, k: nat) returns (lo: int, hi: int)
    requires ret.Valid() && IsRun(ret, session, b, steps) && k < |b| && Nums(b[k].rows, session) != {}
    ensures Spans(Nums(b[k].rows, session), lo, hi)
  {
    ReaderSeesAllOrIsTold(ret, session, b, steps, k);
    lo, hi := Extremes(Nums(b[k].rows, session));
  }

  lemma {:induction false} Extremes(nums: set<int>) returns (lo: int, hi: int)
    requires nums != {}
    ensures lo in nums && hi in nums && forall x | x in nums :: lo <= x <= hi
    decreases |nums|
  {
    assert (forall x :: x !in nums) ==> nums == {};
    var x :| x in nums;
    if nums - {x} == {} {
      assert nums == {x};
      lo, hi := x, x;
    } else {
      lo, hi := Extremes(nums - {x});
      assert forall y | y in nums :: y == x || y in nums - {x};
      lo, hi := Min(lo, x), Max(hi, x);
    }
  }

  /** So many numbers in a row from the first. */
  predicate Consecutive(events: seq<int>, first: int, n: int) {
    |events| == Max(n, 0) && forall i | 0 <= i < |events| :: events[i] == first + i
  }

  /**
  In every run: without a number to resume from, a page is the newest events up
  to the limit, which is brought into 1 to 500; with one, it is the events after
  it, or from the earliest stored if those after it are gone.  The gap is
  reported exactly then, and otherwise a failure to persist if the last append failed.
  */
  lemma PageTold(ret: EventRows.Retention, session: string, b: seq<Log>, steps: seq<Step>, k: nat, page: Page, since: Option<int>, limit: int)
    returns (lo: int, hi: int)
    requires ret.Valid() && IsRun(ret, session, b, steps) && k < |b| && Nums(b[k].rows, session) != {}
    requires IsPage(page, Nums(b[k].rows, session), session in b[k].degraded, since, limit)
    ensures Spans(Nums(b[k].rows, session), lo, hi) && page.earliest == Some(lo) && page.latest == Some(hi)
    ensures var n := if limit < 1 then 1 else if limit > 500 then 500 else limit;
            match since
            case None =>
              var count := Min(n, hi - lo + 1);
              Consecutive(page.events, hi - count + 1, count) && page.next == hi + 1
            case Some(x) =>
              var first := Max(x + 1, lo);
              Consecutive(page.events, first, Min(n, hi - first + 1)) && page.next == if hi < first then x + 1 else first + |page.events|
    ensures page.gap == if since.Some? && since.value + 1 < lo then Some(Pruned)
                        else if FailedLast(steps[..k], session) then Some(PersistenceError) else None
  {
    lo, hi := RunSpans(ret, session, b, steps, k);
    DegradedTold(ret, session, b, steps, k, session);
    hide IsRun, FailedLast;
    var nums := Nums(b[k].rows, session);
    assert lo in nums && hi in nums;
    assert page.earliest == Some(lo) && page.latest == Some(hi);
    assert Contiguous(nums) && IsMin(lo, nums) && IsMax(hi, nums);
    var n := Clamp(limit);
    var start := StartOf(lo, hi, since, n);
    SelectionIsRun(page.events, nums, start, n, lo, hi);
    SelectionLength(page.events, nums, start, n, lo, hi);
  }

  lemma SelectionLength(events: seq<int>, nums: set<int>, start: int, n: nat, lo: int, hi: int)
    requires Spans(nums, lo, hi) && lo <= start && IsSelection(events, nums, start, n)
    requires forall i | 0 <= i < |events| :: events[i] == start + i
    ensures |events| == Max(Min(n, hi - start + 1), 0)
  {
    if events != [] {
      assert events[|events| - 1] in events;
    }
    assert start + |events| !in events;
  }

  /** An empty history has an empty page, resuming where asked or at one. */
  lemma EmptyPageTold(ret: EventRows.Retention, session: string, b: seq<Log>, steps: seq<Step>, k: nat, page: Page, since: Option<int>, limit: int)
    requires IsRun(ret, session, b, steps) && k < |b| && Nums(b[k].rows, session) == {}
    requires IsPage(page, Nums(b[k].rows, session), session in b[k].degraded, since, limit)
    ensures page.events == [] && page.earliest.None? && page.latest.None?
    ensures page.next == if since.Some? then since.value + 1 else 1
    ensures page.gap == if FailedLast(steps[..k], session) then Some(PersistenceError) else None
  {
    DegradedTold(ret, session, b, steps, k, session);
  }

  /** The last append to this session failed. */
  predicate FailedLast(steps: seq<Step>, session: string) {
    if steps == [] then false
    else
      var last := steps[|steps| - 1];
      if last.Append? && last.session == session then !last.ok else FailedLast(steps[..|steps| - 1], session)
  }

  lemma {:induction false} DegradedTold(ret: EventRows.Retention, session: string, b: seq<Log>, steps: seq<Step>, k: nat, x: string)
    requires IsRun(ret, session, b, steps) && k < |b|
    ensures x in b[k].degraded <==> FailedLast(steps[..k], x)
  {
    if k > 0 {
      DegradedTold(ret, session, b, steps, k - 1, x);
      assert steps[..k][..k - 1] == steps[..k - 1];
      assert b[k] == Apply(ret, session, b[k - 1], steps[k - 1]);
      hide AppendRows, IsPage, IsFirst;
    }
  }

  // ----------------------------------------------------------------- reader

  /** The events of all pages read, in order. */
  function Delivered(steps: seq<Step>): seq<int> {
    if steps == [] then []
    else
      var last := steps[|steps| - 1];
      Delivered(steps[..|steps| - 1]) + if last.Read? then last.page.events else []
  }

  /** A page with events that reported pruned ones was read after i events. */
  predicate WarnedAt(steps: seq<Step>, j: int, i: nat) {
    0 <= j < |steps| && steps[j].Read? && steps[j].page.events != [] && steps[j].page.gap == Some(Pruned) && |Delivered(steps[..j])| == i
  }

  lemma ReaderMoves(ret: EventRows.Retention, session: string, s: Log, step: Step)
    requires Enabled(ret, session, s, step)
    ensures var r, t := s.reader, Apply(ret, session, s, step).reader;
            if step.Read? && step.page.events != [] then
              var warns := step.page.gap == Some(Pruned);
              && t.seen == r.seen + step.page.events && t.since == step.page.events[|step.page.events| - 1]
              && t.warned == if warns then r.warned + {|r.seen|} else r.warned
            else t == r
  {
    hide AppendRows, IsPage, IsFirst, Overflow;
  }

  /** A reader has seen exactly the pages it read, resumes after the last event, and was warned by exactly the pages that said so. */
  lemma {:induction false} ReaderTold(ret: EventRows.Retention, session: string, b: seq<Log>, steps: seq<Step>, k: nat)
    requires IsRun(ret, session, b, steps) && k < |b|
    ensures b[k].reader.seen == Delivered(steps[..k])
    ensures b[k].reader.since == if Delivered(steps[..k]) == [] then 0 else Delivered(steps[..k])[|Delivered(steps[..k])| - 1]
    ensures forall i: nat :: i in b[k].reader.warned <==> exists j :: WarnedAt(steps[..k], j, i)
  {
    hide Apply, Enabled;
    if k > 0 {
      var n := k - 1;
      ReaderTold(ret, session, b, steps, n);
      assert steps[..k][..n] == steps[..n] && steps[..k][n] == steps[n];
      assert Enabled(ret, session, b[n], steps[n]) && b[k] == Apply(ret, session, b[n], steps[n]);
      ReaderMoves(ret, session, b[n], steps[n]);
      forall i: nat
        ensures i in b[k].reader.warned <==> exists j :: WarnedAt(steps[..k], j, i)
      {
        WarnedNext(steps[..k], i);
      }
    }
  }

  lemma WarnedNext(steps: seq<Step>, i: nat)
    requires steps != []
    ensures var n := |steps| - 1;
            (exists j :: WarnedAt(steps, j, i)) <==> (exists j :: WarnedAt(steps[..n], j, i)) || WarnedAt(steps, n, i)
  {
    hide Delivered;
    var n := |steps| - 1;
    forall j | 0 <= j < n
      ensures WarnedAt(steps, j, i) <==> WarnedAt(steps[..n], j, i)
    {
      assert steps[..n][..j] == steps[..j];
    }
    if j :| WarnedAt(steps, j, i) {
      assert j == n || WarnedAt(steps[..n], j, i);
    }
    if j :| WarnedAt(steps[..n], j, i) {
      assert WarnedAt(steps, j, i);
    }
  }

  // ------------------------------------------------------------------- rows

  /** Row r is what the append at step m stored: the event itself, or before it the marker of a failed one. */
  ghost predicate StoredAt(b: seq<Log>, steps: seq<Step>, m: int, k: nat, r: Row)
    requires k < |b| == |steps| + 1
  {
    && 0 <= m < k && steps[m].Append? && steps[m].ok && steps[m].session == r.session
    && var top := Top(b[m].rows, r.session);
       if FailedLast(steps[..m], r.session)
       then r == Row(r.session, top + 1, steps[m].markerTs) || r == Row(r.session, top + 2, steps[m].ts)
       else r == Row(r.session, top + 1, steps[m].ts)
  }

  /** Every row of every run was stored by an append, with that append's time, and an append stores its rows. */
  lemma {:induction false} RowsAreAppended(ret: EventRows.Retention, session: string, b: seq<Log>, steps: seq<Step>, k: nat, r: Row)
    requires IsRun(ret, session, b, steps) && k < |b|
    ensures r in b[k].rows ==> exists m :: StoredAt(b, steps, m, k, r)
    ensures k > 0 && StoredAt(b, steps, k - 1, k, r) ==> r in b[k].rows
  {
    if k > 0 {
      var j := k - 1;
      RowsAreAppended(ret, session, b, steps, j, r);
      DegradedTold(ret, session, b, steps, j, r.session);
      NewRows(ret, session, b[j], steps[j], r);
      hide IsPage, IsFirst, FailedLast, Top, Apply, Enabled;
      if m :| StoredAt(b, steps, m, j, r) {
        assert StoredAt(b, steps, m, k, r);
      }
      if r in b[k].rows && r !in b[j].rows {
        assert StoredAt(b, steps, j, k, r);
      }
    }
  }

  /** The rows one step adds. */
  lemma NewRows(ret: EventRows.Retention, session: string, s: Log, step: Step, r: Row)
    requires Enabled(ret, session, s, step)
    ensures var t := Apply(ret, session, s, step);
            var adds := step.Append? && step.ok && step.session == r.session &&
              var top := Top(s.rows, r.session);
              if r.session in s.degraded then r == Row(r.session, top + 1, step.markerTs) || r == Row(r.session, top + 2, step.ts)
              else r == Row(r.session, top + 1, step.ts);
            (adds ==> r in t.rows) && (r in t.rows ==> adds || r in s.rows)
  {
    hide Top, IsPage, IsFirst;
  }

  /** A row leaves only by a retention batch that names it. */
  lemma RowsStay(ret: EventRows.Retention, session: string, b: seq<Log>, steps: seq<Step>, k: nat, r: Row)
    requires IsRun(ret, session, b, steps) && k < |steps| && r in b[k].rows
    ensures r in b[k + 1].rows <==> !(steps[k].Prune? && r in steps[k].chosen)
  {
    assert b[k + 1] == Apply(ret, session, b[k], steps[k]);
    hide IsPage, IsFirst;
  }
}
