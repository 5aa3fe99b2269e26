/**
What retention deletes, said of stamps and numbers alone: a row is too old, or
its session has another far enough ahead of it, and which of them one batch takes.
Then what the maintenance thread has in hand and which sessions wait for it, told
by the events of a run.
*/
module EventRetention {
  import opened Basics
  import opened EventRows
  import opened EventPrune

  /** The session has a row so many numbers ahead of this one. */
  ghost predicate Beyond(ret: EventRows.Retention, rows: set<Row>, r: Row) {
    exists q | q in rows :: q.session == r.session && q.num >= r.num + ret.perSession
  }

  lemma OverflowIsBeyond(ret: EventRows.Retention, rows: set<Row>, session: string, r: Row)
    requires Keyed(rows)
    ensures r in Overflow(ret, rows, session) <==> r in rows && r.session == session && Beyond(ret, rows, r)
  {
    var top := Top(rows, session);
    hide Top;
    if r in Overflow(ret, rows, session) {
      assert top != 0;
    }
  }

  /** The one-shot prune keeps a row if and only if it is young and none of the young ones is so far ahead of it. */
  lemma PrunedExactly(ret: EventRows.Retention, cutoff: int, rows: set<Row>, r: Row)
    requires Keyed(rows)
    ensures r in PruneOnce(ret, cutoff, rows) <==>
            && r in rows && r.ts >= cutoff
            && forall q | q in rows && q.ts >= cutoff && q.session == r.session :: q.num < r.num + ret.perSession
  {
    var young := rows - Aged(rows, cutoff);
    assert forall q :: q in young <==> q in rows && q.ts >= cutoff;
    OverflowIsBeyond(ret, young, r.session, r);
    hide Overflow;
  }

  // ------------------------------------------------------------- one batch

  ghost predicate OldestBatch(chosen: set<Row>, rows: set<Row>, cutoff: int, batch: nat) {
    && chosen <= rows && (forall x | x in chosen :: x.ts < cutoff)
    && |chosen| <= batch && (|chosen| == batch || forall y | y in rows && y.ts < cutoff :: y in chosen)
    && (forall x, y | x in chosen && y in rows - chosen :: x.ts <= y.ts)
  }

  ghost predicate LowestBatch(ret: EventRows.Retention, chosen: set<Row>, rows: set<Row>, session: string) {
    && chosen <= rows && (forall x | x in chosen :: x.session == session && Beyond(ret, rows, x))
    && |chosen| <= ret.batch
    && (|chosen| == ret.batch || forall y | y in rows && y.session == session && Beyond(ret, rows, y) :: y in chosen)
    && (forall x, y | x in chosen && y in rows - chosen && y.session == session :: x.num <= y.num)
  }

  /** Session i is the first on the list with a row beyond its retention; it stays on the list unless the batch was not full. */
  ghost predicate FirstBeyond(ret: EventRows.Retention, rows: set<Row>, work: seq<string>, i: nat, chosen: set<Row>, remaining: seq<string>)
    requires i < |work|
  {
    && (forall r, k | r in rows && 0 <= k < i && r.session == work[k] :: !Beyond(ret, rows, r))
    && (exists r | r in rows :: r.session == work[i] && Beyond(ret, rows, r))
    && LowestBatch(ret, chosen, rows, work[i])
    && remaining == if |chosen| < ret.batch then work[i + 1..] else work[i..]
  }

  ghost predicate Batch(ret: EventRows.Retention, cutoff: int, rows: set<Row>, work: seq<string>, chosen: set<Row>, remaining: seq<string>) {
    if exists r | r in rows :: r.ts < cutoff then OldestBatch(chosen, rows, cutoff, ret.batch) && remaining == work
    else
      || (chosen == {} && remaining == [] && forall r | r in rows && r.session in work :: !Beyond(ret, rows, r))
      || (exists i | 0 <= i < |work| :: FirstBeyond(ret, rows, work, i, chosen, remaining))
  }

  lemma FullOrAll(chosen: set<Row>, candidates: set<Row>, n: nat)
    requires chosen <= candidates
    ensures |chosen| == (if |candidates| < n then |candidates| else n) <==> |chosen| <= n && (|chosen| == n || candidates <= chosen)
  {
    SubsetSize(chosen, candidates);
    assert candidates <= chosen ==> candidates == chosen;
  }

  lemma OldestMeans(chosen: set<Row>, rows: set<Row>, cutoff: int, batch: nat)
    ensures IsFirst(chosen, Aged(rows, cutoff), ByTime(), batch) <==> OldestBatch(chosen, rows, cutoff, batch)
  {
    var aged := Aged(rows, cutoff);
    if chosen <= aged {
      FullOrAll(chosen, aged, batch);
      assert aged <= chosen <==> forall y | y in rows && y.ts < cutoff :: y in chosen;
      if IsFirst(chosen, aged, ByTime(), batch) {
        forall x, y | x in chosen && y in rows - chosen
          ensures x.ts <= y.ts
        {
          assert y in aged ==> ByTime()(x) <= ByTime()(y);
        }
      }
    }
  }

  /** Rows beyond the retention have lower numbers than the rest of their session. */
  lemma BeyondIsLower(ret: EventRows.Retention, rows: set<Row>, x: Row, y: Row)
    requires x.session == y.session && Beyond(ret, rows, x) && !Beyond(ret, rows, y)
    ensures x.num <= y.num
  {
    var q :| q in rows && q.session == x.session && q.num >= x.num + ret.perSession;
  }

  lemma LowestOf(ret: EventRows.Retention, chosen: set<Row>, rows: set<Row>, session: string, over: set<Row>)
    requires forall r :: r in over <==> r in rows && r.session == session && Beyond(ret, rows, r)
    ensures IsFirst(chosen, over, ByNum(), ret.batch) <==> LowestBatch(ret, chosen, rows, session)
  {
    hide Beyond;
    if chosen <= over {
      FullOrAll(chosen, over, ret.batch);
      if IsFirst(chosen, over, ByNum(), ret.batch) {
        forall x, y | x in chosen && y in rows - chosen && y.session == session
          ensures x.num <= y.num
        {
          assert y in over ==> ByNum()(x) <= ByNum()(y);
          if y !in over {
            BeyondIsLower(ret, rows, x, y);
          }
        }
      }
    }
  }

  lemma LowestMeans(ret: EventRows.Retention, chosen: set<Row>, rows: set<Row>, session: string)
    requires Keyed(rows)
    ensures IsFirst(chosen, Overflow(ret, rows, session), ByNum(), ret.batch) <==> LowestBatch(ret, chosen, rows, session)
  {
    hide *;
    var over := Overflow(ret, rows, session);
    forall r
      ensures r in over <==> r in rows && r.session == session && Beyond(ret, rows, r)
    {
      OverflowIsBeyond(ret, rows, session, r);
    }
    LowestOf(ret, chosen, rows, session, over);
  }

  lemma OverflowsMeans(ret: EventRows.Retention, rows: set<Row>, session: string)
    requires Keyed(rows)
    ensures Overflows(ret, rows, session) <==> exists r | r in rows :: r.session == session && Beyond(ret, rows, r)
  {
    forall r
      ensures r in Overflow(ret, rows, session) <==> r in rows && r.session == session && Beyond(ret, rows, r)
    {
      OverflowIsBeyond(ret, rows, session, r);
    }
    hide Overflow, Beyond;
    assert Overflow(ret, rows, session) == {} <==> forall r :: r !in Overflow(ret, rows, session);
  }

  lemma NoneMeans(ret: EventRows.Retention, rows: set<Row>, work: seq<string>)
    requires Keyed(rows)
    ensures (forall s | s in work :: !Overflows(ret, rows, s)) <==> (forall r | r in rows && r.session in work :: !Beyond(ret, rows, r))
  {
    forall s | s in work
      ensures Overflows(ret, rows, s) <==> exists r | r in rows :: r.session == s && Beyond(ret, rows, r)
    {
      OverflowsMeans(ret, rows, s);
    }
    hide Overflows, Beyond, Keyed;
  }

  lemma FirstMeans(ret: EventRows.Retention, rows: set<Row>, work: seq<string>, i: nat, chosen: set<Row>, remaining: seq<string>)
    requires Keyed(rows) && i < |work|
    ensures IsPlanFor(ret, rows, work, i, chosen, remaining) <==> FirstBeyond(ret, rows, work, i, chosen, remaining)
  {
    LowestMeans(ret, chosen, rows, work[i]);
    forall k | 0 <= k <= i
      ensures Overflows(ret, rows, work[k]) <==> exists r | r in rows :: r.session == work[k] && Beyond(ret, rows, r)
    {
      OverflowsMeans(ret, rows, work[k]);
    }
    hide Overflows, Overflow, Beyond, LowestBatch, IsFirst;
  }

  lemma AgedMeans(rows: set<Row>, cutoff: int)
    ensures Aged(rows, cutoff) != {} <==> exists r | r in rows :: r.ts < cutoff
  {
    if r :| r in rows && r.ts < cutoff {
      assert r in Aged(rows, cutoff);
    }
  }

  /**
  One pass deletes, and hands back, exactly this: the oldest of the rows that
  are too old, or else the lowest numbers of the first session on the list that
  has too many, a batch of them at most.
  */
  lemma PassTold(ret: EventRows.Retention, cutoff: int, rows: set<Row>, work: seq<string>, chosen: set<Row>, remaining: seq<string>)
    requires Keyed(rows)
    ensures IsPlan(ret, cutoff, rows, work, chosen, remaining) <==> Batch(ret, cutoff, rows, work, chosen, remaining)
  {
    OldestMeans(chosen, rows, cutoff, ret.batch);
    NoneMeans(ret, rows, work);
    AgedMeans(rows, cutoff);
    forall i | 0 <= i < |work|
      ensures IsPlanFor(ret, rows, work, i, chosen, remaining) <==> FirstBeyond(ret, rows, work, i, chosen, remaining)
    {
      FirstMeans(ret, rows, work, i, chosen, remaining);
    }
    hide IsPlanFor, FirstBeyond, Overflows, Beyond, OldestBatch, IsFirst, Aged, Keyed;
  }

  // ------------------------------------------------------------ maintenance

  /** The list popped last. */
  function LastList(es: seq<Event>): seq<string> {
    if es == [] then []
    else
      var last := es[|es| - 1];
      if last.Pop? then last.list else LastList(es[..|es| - 1])
  }

  /** What is left of the list after the batch planned last. */
  function LastRemaining(es: seq<Event>): seq<string> {
    if es == [] then []
    else
      var last := es[|es| - 1];
      if last.Plan? then last.remaining else LastRemaining(es[..|es| - 1])
  }

  /** The last thing the thread did. */
  function LastWork(es: seq<Event>): Event {
    if es == [] then HandBack
    else
      var last := es[|es| - 1];
      if last.Append? then LastWork(es[..|es| - 1]) else last
  }

  function InHand(es: seq<Event>): Phase {
    match LastWork(es)
    case Pop(_) => Popped(LastList(es))
    case Plan(_, chosen, _) => Planned(LastList(es), chosen, LastRemaining(es))
    case Delete => Deleted(LastRemaining(es))
    case _ => Resting
  }

  /** What the thread has in hand is what it popped and planned last, until it hands back or fails. */
  lemma {:induction false} InHandTold(ret: EventRows.Retention, b: seq<System>, es: seq<Event>, k: nat)
    requires IsRun(ret, b, es) && k < |b|
    ensures b[k].phase == InHand(es[..k])
  {
    if k > 0 {
      var n := k - 1;
      InHandTold(ret, b, es, n);
      assert Enabled(ret, b[n], es[n]) && b[k] == Apply(ret, b[n], es[n]);
      assert es[..k][..n] == es[..n] && es[..k][n] == es[n];
      hide IsPlan, AppendRows, Top;
    }
  }

  /** A session waits from its first number beyond the retention, or from being handed back or failed with, until the next list is popped. */
  ghost predicate Waits(ret: EventRows.Retention, b: seq<System>, es: seq<Event>, k: nat, x: string)
    requires k <= |es| < |b|
    decreases k
  {
    if k == 0 then false
    else
      match es[k - 1]
      case Pop(_) => false
      case HandBack => x in LastRemaining(es[..k - 1]) || Waits(ret, b, es, k - 1, x)
      case Fail => x in LastList(es[..k - 1]) || Waits(ret, b, es, k - 1, x)
      case Append(y, ok, _, _) =>
        Waits(ret, b, es, k - 1, x) || (y == x && ok && exists q | q in b[k].rows :: q.session == x && q.num > ret.perSession)
      case _ => Waits(ret, b, es, k - 1, x)
  }

  lemma TopExceeds(rows: set<Row>, session: string, n: nat)
    ensures Top(rows, session) > n <==> exists q | q in rows :: q.session == session && q.num > n
  {
  }

  lemma {:induction false} WaitsTold(ret: EventRows.Retention, b: seq<System>, es: seq<Event>, k: nat, x: string)
    requires IsRun(ret, b, es) && k < |b|
    ensures x in b[k].pending <==> Waits(ret, b, es, k, x)
  {
    if k > 0 {
      var n := k - 1;
      WaitsTold(ret, b, es, n, x);
      InHandTold(ret, b, es, n);
      WaitMoves(ret, b[n], es[n], x);
      assert Enabled(ret, b[n], es[n]) && b[k] == Apply(ret, b[n], es[n]);
      hide Apply, Enabled, LastList, LastRemaining, LastWork;
    }
  }

  lemma WaitMoves(ret: EventRows.Retention, s: System, e: Event, x: string)
    requires Enabled(ret, s, e)
    ensures var t := Apply(ret, s, e);
            x in t.pending <==>
            match e
            case Pop(_) => false
            case HandBack => x in s.phase.remaining || x in s.pending
            case Fail => x in s.phase.list || x in s.pending
            case Append(y, ok, _, _) => x in s.pending || (y == x && ok && exists q | q in t.rows :: q.session == x && q.num > ret.perSession)
            case _ => x in s.pending
    ensures e.HandBack? ==> s.phase.Deleted?
    ensures e.Fail? ==> s.phase.Popped? || s.phase.Planned?
  {
    TopExceeds(Apply(ret, s, e).rows, x, ret.perSession);
    hide IsPlan, AppendRows, Top;
  }

  /** The thread can fail from popping a list until it has deleted, and at no other time. */
  lemma FailsOnlyAtWork(ret: EventRows.Retention, b: seq<System>, es: seq<Event>, k: nat)
    requires IsRun(ret, b, es) && k < |b|
    ensures Enabled(ret, b[k], Fail) <==> LastWork(es[..k]).Pop? || LastWork(es[..k]).Plan?
  {
    InHandTold(ret, b, es, k);
    hide LastWork, LastList, LastRemaining;
  }

  // ------------------------------------------------------------------- rows

  /** The last append to this session failed. */
  predicate Failed(es: seq<Event>, session: string) {
    if es == [] then false
    else
      var last := es[|es| - 1];
      if last.Append? && last.session == session then !last.ok else Failed(es[..|es| - 1], session)
  }

  lemma {:induction false} FailedTold(ret: EventRows.Retention, b: seq<System>, es: seq<Event>, k: nat, x: string)
    requires IsRun(ret, b, es) && k < |b|
    ensures x in b[k].degraded <==> Failed(es[..k], x)
  {
    if k > 0 {
      var n := k - 1;
      FailedTold(ret, b, es, n, x);
      assert Enabled(ret, b[n], es[n]) && b[k] == Apply(ret, b[n], es[n]);
      assert es[..k][..n] == es[..n] && es[..k][n] == es[n];
      hide IsPlan, AppendRows, Top;
    }
  }

  /** The rows this append stores: the event, numbered next, and before it a marker if the append before it failed. */
  ghost predicate Stores(b: seq<System>, es: seq<Event>, k: nat, r: Row)
    requires k < |es| < |b|
  {
    && es[k].Append? && es[k].ok && es[k].session == r.session
    && var top := Top(b[k].rows, r.session);
       if Failed(es[..k], r.session) then r == Row(r.session, top + 1, es[k].markerTs) || r == Row(r.session, top + 2, es[k].ts)
       else r == Row(r.session, top + 1, es[k].ts)
  }

  lemma RowsMove(ret: EventRows.Retention, s: System, e: Event, r: Row)
    requires Enabled(ret, s, e)
    ensures var stores := e.Append? && e.ok && e.session == r.session &&
              var top := Top(s.rows, r.session);
              if r.session in s.degraded then r == Row(r.session, top + 1, e.markerTs) || r == Row(r.session, top + 2, e.ts)
              else r == Row(r.session, top + 1, e.ts);
            r in Apply(ret, s, e).rows <==> stores || (r in s.rows && !(e.Delete? && r in s.phase.chosen))
  {
    hide IsPlan, Top;
  }

  /** A row is there from the append that stores it until the deletion of a batch it was planned in. */
  lemma RowsTold(ret: EventRows.Retention, b: seq<System>, es: seq<Event>, k: nat, r: Row)
    requires IsRun(ret, b, es) && k < |es|
    ensures r in b[k + 1].rows <==> Stores(b, es, k, r) || (r in b[k].rows && !(es[k].Delete? && r in b[k].phase.chosen))
  {
    FailedTold(ret, b, es, k, r.session);
    assert Enabled(ret, b[k], es[k]) && b[k + 1] == Apply(ret, b[k], es[k]);
    RowsMove(ret, b[k], es[k], r);
    hide IsPlan, Top, Failed, Apply, AppendRows;
  }
}
