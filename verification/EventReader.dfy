/** Cursor paging over the event log: a reader that resumes sees every event or is told it missed some. */
module EventReader {
  import opened Options
  import opened EventRows
  import EventPrune

  datatype GapReason = Pruned | PersistenceError

  datatype Page = Page(events: seq<int>, earliest: Option<int>, latest: Option<int>, next: int, gap: Option<GapReason>)

  predicate Increasing(s: seq<int>) {
    forall i, j | 0 <= i < j < |s| :: s[i] < s[j]
  }

  /** `WHERE seq >= start ORDER BY seq LIMIT n`. */
  ghost predicate IsSelection(events: seq<int>, nums: set<int>, start: int, n: nat) {
    && Increasing(events)
    && (forall x | x in events :: x in nums && x >= start)
    && |events| <= n
    && (|events| < n ==> forall x | x in nums && x >= start :: x in events)
    && (forall x, y | x in events && y in nums && y >= start && y !in events :: x < y)
  }

  ghost predicate IsMin(m: int, nums: set<int>) { m in nums && forall x | x in nums :: m <= x }
  ghost predicate IsMax(m: int, nums: set<int>) { m in nums && forall x | x in nums :: x <= m }

  function Clamp(limit: int): nat {
    if limit > 500 then 500 else if limit < 1 then 1 else limit
  }

  function StartOf(lo: int, hi: int, since: Option<int>, limit: nat): int {
    if since.None? then (if lo < hi - limit + 1 then hi - limit + 1 else lo)
    else if since.value < lo - 1 then lo
    else since.value + 1
  }

  /** What a page of a session's history may contain. */
  ghost predicate IsPage(p: Page, nums: set<int>, degraded: bool, since: Option<int>, limit: int) {
    if nums == {} then
      p == Page([], None, None, if since.Some? then since.value + 1 else 1,
                if degraded then Some(PersistenceError) else None)
    else
      && p.earliest.Some? && IsMin(p.earliest.value, nums)
      && p.latest.Some? && IsMax(p.latest.value, nums)
      && IsSelection(p.events, nums, StartOf(p.earliest.value, p.latest.value, since, Clamp(limit)), Clamp(limit))
      && p.next == (if p.events != [] then p.events[|p.events| - 1] + 1
                    else if since.Some? then since.value + 1 else p.earliest.value)
      && p.gap == if since.Some? && since.value < p.earliest.value - 1 then Some(Pruned)
                  else if degraded then Some(PersistenceError) else None
  }

  // ------------------------------------------------------------ contiguity

  /** From any stored number up to the newest, nothing is missing. */
  ghost predicate Contiguous(nums: set<int>) {
    forall x, y, k | x in nums && y in nums && x <= k <= y :: k in nums
  }

  /** Over a contiguous log a page is itself contiguous and starts where asked. */
  lemma SelectionIsRun(events: seq<int>, nums: set<int>, start: int, n: nat, lo: int, hi: int)
    requires n >= 1 && IsSelection(events, nums, start, n) && Contiguous(nums)
    requires IsMin(lo, nums) && IsMax(hi, nums) && lo <= start
    ensures forall i | 0 <= i < |events| :: events[i] == start + i
    ensures start <= hi ==> events != []
  {
    if start <= hi {
      assert start in nums && hi in nums;
      assert events != [];
    }
    if events != [] {
      assert events[0] in events;
      assert start in nums;
    }
    RunFrom(events, nums, start, n, hi, |events|);
  }

  lemma {:induction false} RunFrom(events: seq<int>, nums: set<int>, start: int, n: nat, hi: int, m: nat)
    requires IsSelection(events, nums, start, n) && Contiguous(nums) && IsMax(hi, nums)
    requires m <= |events| && (events != [] ==> start in nums)
    ensures forall i | 0 <= i < m :: events[i] == start + i
  {
    if m > 0 {
      RunFrom(events, nums, start, n, hi, m - 1);
      var k := m - 1;
      var x := events[k];
      assert x in events;
      assert x >= start + k by {
        if k > 0 {
          assert events[k - 1] < x;
        }
      }
      if x > start + k {
        assert start + k in nums;
        NotListed(events, start, k);
      }
    }
  }

  lemma NotListed(events: seq<int>, start: int, k: nat)
    requires Increasing(events) && k < |events| && events[k] > start + k
    requires forall i | 0 <= i < k :: events[i] == start + i
    ensures start + k !in events
  {
  }

  /** A retention batch takes a session's smallest numbers, so what is left has no hole. */
  lemma BatchKeepsContiguous(ret: EventRows.Retention, rows: set<Row>, chosen: set<Row>, session: string)
    requires ret.Valid() && Keyed(rows) && Contiguous(Nums(rows, session))
    requires IsFirst(chosen, Overflow(ret, rows, session), ByNum(), ret.batch)
    ensures Contiguous(Nums(rows - chosen, session))
  {
    var less := rows - chosen;
    forall x, y, k | x in Nums(less, session) && y in Nums(less, session) && x <= k <= y
      ensures k in Nums(less, session)
    {
      var a :| a in less && a.session == session && a.num == x;
      var c :| c in less && c.session == session && c.num == y;
      assert x in Nums(rows, session) && y in Nums(rows, session);
      assert k in Nums(rows, session);
      var b :| b in rows && b.session == session && b.num == k;
      assert b in chosen && a in Overflow(ret, rows, session) ==> ByNum()(b) <= ByNum()(a);
      assert b in less;
    }
  }

  lemma AppendNums(rows: set<Row>, session: string, degraded: bool, markerTs: int, ts: int)
    requires Keyed(rows)
    ensures var top := Top(rows, session);
            Nums(AppendRows(rows, session, degraded, markerTs, ts), session) ==
            Nums(rows, session) + {top + 1} + if degraded then {top + 2} else {}
  {
    hide Top;
    var top := Top(rows, session);
    var rows' := AppendRows(rows, session, degraded, markerTs, ts);
    var one, two := Row(session, top + 1, if degraded then markerTs else ts), Row(session, top + 2, ts);
    assert one in rows' && (degraded ==> two in rows');
    forall x | x in Nums(rows, session)
      ensures x in Nums(rows', session)
    {
      var r :| r in rows && r.session == session && r.num == x;
      assert r in rows';
    }
  }

  lemma ContiguousAbove(nums: set<int>, top: int, two: bool)
    requires Contiguous(nums) && (forall x | x in nums :: 1 <= x <= top) && (top == 0 || top in nums)
    ensures Contiguous(nums + {top + 1} + if two then {top + 2} else {})
  {
  }

  lemma AppendKeepsContiguous(rows: set<Row>, session: string, degraded: bool, markerTs: int, ts: int)
    requires Keyed(rows) && Contiguous(Nums(rows, session))
    ensures Contiguous(Nums(AppendRows(rows, session, degraded, markerTs, ts), session))
  {
    hide Top, Contiguous, AppendRows;
    AppendNums(rows, session, degraded, markerTs, ts);
    ContiguousAbove(Nums(rows, session), Top(rows, session), degraded);
  }

  // ---------------------------------------------------------------- a reader

  /** A reader of one session: where it resumes, what it has seen, and which of those it was warned before. */
  datatype Reader = Reader(since: int, seen: seq<int>, warned: set<nat>)

  datatype Log = Log(rows: set<Row>, degraded: set<string>, reader: Reader)

  datatype Step =
    | Append(session: string, ok: bool, markerTs: int, ts: int)
    | Prune(session: string, chosen: set<Row>)
    | Read(limit: int, page: Page)

  ghost predicate Enabled(ret: EventRows.Retention, session: string, s: Log, step: Step) {
    match step
    case Append(_, _, _, _) => true
    case Prune(x, chosen) => IsFirst(chosen, Overflow(ret, s.rows, x), ByNum(), ret.batch)
    case Read(limit, page) =>
      IsPage(page, Nums(s.rows, session), session in s.degraded, Some(s.reader.since), limit)
  }

  /** The reader takes a page and resumes after the last event it has seen. */
  function TakePage(r: Reader, page: Page): Reader {
    if page.events == [] then r
    else Reader(page.events[|page.events| - 1],
                r.seen + page.events,
                if page.gap == Some(Pruned) then r.warned + {|r.seen|} else r.warned)
  }

  ghost function Apply(ret: EventRows.Retention, session: string, s: Log, step: Step): Log
    requires Enabled(ret, session, s, step)
  {
    match step
    case Append(x, ok, markerTs, ts) =>
      if ok then s.(rows := AppendRows(s.rows, x, x in s.degraded, markerTs, ts), degraded := s.degraded - {x})
      else s.(degraded := s.degraded + {x})
    case Prune(_, chosen) => s.(rows := s.rows - chosen)
    case Read(_, page) => s.(reader := TakePage(s.reader, page))
  }

  const START := Log({}, {}, Reader(0, [], {}))

  ghost predicate IsRun(ret: EventRows.Retention, session: string, b: seq<Log>, steps: seq<Step>) {
    && |b| == |steps| + 1 && b[0] == START
    && forall k | 0 <= k < |steps| ::
         Enabled(ret, session, b[k], steps[k]) && b[k + 1] == Apply(ret, session, b[k], steps[k])
  }

  function Before(seen: seq<int>, i: nat): int
    requires i <= |seen|
  {
    if i == 0 then 0 else seen[i - 1]
  }

  /** Strictly increasing, and every jump was announced on the page that made it. */
  ghost predicate AllOrTold(r: Reader) {
    && Increasing(r.seen)
    && forall i | 0 <= i < |r.seen| :: r.seen[i] == Before(r.seen, i) + 1 || i in r.warned
  }

  ghost predicate Inv(session: string, s: Log) {
    && Keyed(s.rows) && Contiguous(Nums(s.rows, session))
    && AllOrTold(s.reader)
    && s.reader.since == Before(s.reader.seen, |s.reader.seen|)
    && 0 <= s.reader.since <= Top(s.rows, session)
  }

  lemma PruneInv(ret: EventRows.Retention, session: string, s: Log, x: string, chosen: set<Row>)
    requires ret.Valid() && Inv(session, s) && IsFirst(chosen, Overflow(ret, s.rows, x), ByNum(), ret.batch)
    ensures Inv(session, s.(rows := s.rows - chosen))
  {
    EventPrune.OverflowKeepsTop(ret, s.rows, chosen, x, session);
    if x == session {
      BatchKeepsContiguous(ret, s.rows, chosen, x);
    } else {
      assert Nums(s.rows - chosen, session) == Nums(s.rows, session) by {
        forall n | n in Nums(s.rows, session)
          ensures n in Nums(s.rows - chosen, session)
        {
          var r :| r in s.rows && r.session == session && r.num == n;
          assert r in s.rows - chosen;
        }
      }
    }
  }

  lemma AppendInv(session: string, s: Log, x: string, markerTs: int, ts: int)
    requires Inv(session, s)
    ensures Inv(session, s.(rows := AppendRows(s.rows, x, x in s.degraded, markerTs, ts), degraded := s.degraded - {x}))
  {
    hide Top;
    var rows' := AppendRows(s.rows, x, x in s.degraded, markerTs, ts);
    AppendTop(s.rows, x, x in s.degraded, markerTs, ts);
    if x == session {
      AppendKeepsContiguous(s.rows, x, x in s.degraded, markerTs, ts);
    } else {
      hide AppendRows;
      SameTop(s.rows, rows', session);
      assert forall r :: r in rows' && r.session == session <==> r in Of(rows', session);
      assert forall r :: r in s.rows && r.session == session <==> r in Of(s.rows, session);
      assert Nums(rows', session) == Nums(s.rows, session);
    }
  }

  lemma ReadInv(session: string, s: Log, limit: int, page: Page)
    requires Inv(session, s)
    requires IsPage(page, Nums(s.rows, session), session in s.degraded, Some(s.reader.since), limit)
    ensures Inv(session, s.(reader := TakePage(s.reader, page)))
  {
    var r, nums := s.reader, Nums(s.rows, session);
    if page.events != [] {
      var lo, hi := page.earliest.value, page.latest.value;
      var start := StartOf(lo, hi, Some(r.since), Clamp(limit));
      SelectionIsRun(page.events, nums, start, Clamp(limit), lo, hi);
      var r' := TakePage(r, page);
      assert r'.since in nums by {
        assert r'.since in page.events;
      }
      PageAllOrTold(r, page, start);
    }
  }

  lemma PageAllOrTold(r: Reader, page: Page, start: int)
    requires AllOrTold(r) && r.since == Before(r.seen, |r.seen|) && 0 <= r.since
    requires page.events != [] && forall i | 0 <= i < |page.events| :: page.events[i] == start + i
    requires start > r.since && (start == r.since + 1 || page.gap == Some(Pruned))
    ensures AllOrTold(TakePage(r, page))
  {
    var events, n := page.events, |r.seen|;
    var seen := r.seen + events;
    Consecutive(events, start);
    hide Increasing;
    IncreasingAppend(r.seen, events);
    forall i | 0 <= i < |seen|
      ensures seen[i] == Before(seen, i) + 1 || i in TakePage(r, page).warned
    {
      if i > n {
        assert seen[i] == events[i - n] && seen[i - 1] == events[i - n - 1];
      } else if i < n {
        assert seen[i] == r.seen[i] && Before(seen, i) == Before(r.seen, i);
      } else {
        assert seen[i] == events[0] && Before(seen, i) == r.since;
      }
    }
  }

  lemma Consecutive(events: seq<int>, start: int)
    requires forall i | 0 <= i < |events| :: events[i] == start + i
    ensures Increasing(events)
  {
  }

  lemma IncreasingSnoc(a: seq<int>, x: int)
    requires Increasing(a) && (a != [] ==> a[|a| - 1] < x)
    ensures Increasing(a + [x])
  {
    IncreasingAppend(a, [x]);
  }

  lemma IncreasingAppend(a: seq<int>, b: seq<int>)
    requires Increasing(a) && Increasing(b) && (a != [] && b != [] ==> a[|a| - 1] < b[0])
    ensures Increasing(a + b)
  {
    var c := a + b;
    forall i, j | 0 <= i < j < |c|
      ensures c[i] < c[j]
    {
      if i < |a| <= j {
        assert a[i] <= a[|a| - 1] && b[0] <= b[j - |a|];
      }
    }
  }

  lemma {:induction false} RunInv(ret: EventRows.Retention, session: string, b: seq<Log>, steps: seq<Step>, k: nat)
    requires ret.Valid() && IsRun(ret, session, b, steps) && k < |b|
    ensures Inv(session, b[k])
  {
    if k > 0 {
      RunInv(ret, session, b, steps, k - 1);
      var s := b[k - 1];
      assert Enabled(ret, session, s, steps[k - 1]);
      hide Inv, IsFirst, IsPage, AppendRows;
      match steps[k - 1]
      case Append(x, ok, markerTs, ts) =>
        if ok {
          AppendInv(session, s, x, markerTs, ts);
        } else {
          FailedAppendInv(session, s, x);
        }
      case Prune(x, chosen) => PruneInv(ret, session, s, x, chosen);
      case Read(limit, page) => ReadInv(session, s, limit, page);
    }
  }

  lemma FailedAppendInv(session: string, s: Log, x: string)
    requires Inv(session, s)
    ensures Inv(session, s.(degraded := s.degraded + {x}))
  {
  }

  /** The reader's promise, over every interleaving of appends, retention batches and reads. */
  lemma ReaderSeesAllOrIsTold(ret: EventRows.Retention, session: string, b: seq<Log>, steps: seq<Step>, k: nat)
    requires ret.Valid() && IsRun(ret, session, b, steps) && k < |b|
    ensures AllOrTold(b[k].reader) && Contiguous(Nums(b[k].rows, session))
  {
    RunInv(ret, session, b, steps, k);
  }
}
