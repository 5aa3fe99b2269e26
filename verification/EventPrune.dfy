/** Batched retention: it ends where the one-shot prune does, and it forgets no session. */
module EventPrune {
  import opened Basics
  import opened EventRows

  // ------------------------------------------------ refinement of PruneOnce

  /** Every session with something to delete is on the worklist. */
  ghost predicate Covers(ret: Retention, rows: set<Row>, work: seq<string>) {
    forall s :: Overflows(ret, rows, s) ==> s in work
  }

  /** Deleting rows lowers no bound that matters: what overflows afterwards overflowed before. */
  lemma OverflowShrinks(ret: Retention, rows: set<Row>, less: set<Row>, session: string)
    requires less <= rows
    ensures Overflow(ret, less, session) <= Overflow(ret, rows, session)
  {
    if Top(less, session) != 0 {
      var r :| r in less && r.session == session && r.num == Top(less, session);
      assert r in rows;
    }
  }

  /** Deleting only rows that overflow keeps each session's newest row. */
  lemma OverflowKeepsTop(ret: Retention, rows: set<Row>, chosen: set<Row>, session: string, s: string)
    requires ret.Valid() && chosen <= Overflow(ret, rows, session)
    ensures Top(rows - chosen, s) == Top(rows, s)
  {
    var less := rows - chosen;
    if Top(rows, s) != 0 {
      var r :| r in rows && r.session == s && r.num == Top(rows, s);
      assert r in less;
      TopIs(less, s, r);
    }
  }

  lemma OverflowTarget(ret: Retention, cutoff: int, rows: set<Row>, chosen: set<Row>, session: string)
    requires ret.Valid() && Aged(rows, cutoff) == {} && chosen <= Overflow(ret, rows, session)
    ensures Aged(rows - chosen, cutoff) == {}
    ensures PruneOnce(ret, cutoff, rows - chosen) == PruneOnce(ret, cutoff, rows)
    ensures forall s :: Overflow(ret, rows - chosen, s) == Overflow(ret, rows, s) - chosen
  {
    var less := rows - chosen;
    assert Aged(less, cutoff) == {};
    forall s
      ensures Overflow(ret, less, s) == Overflow(ret, rows, s) - chosen
    {
      OverflowKeepsTop(ret, rows, chosen, session, s);
    }
    assert rows - Aged(rows, cutoff) == rows && less - Aged(less, cutoff) == less;
    forall r | r in chosen
      ensures r in Overflow(ret, rows, r.session)
    {
    }
  }

  lemma AgedTarget(ret: Retention, cutoff: int, rows: set<Row>, chosen: set<Row>)
    requires chosen <= Aged(rows, cutoff)
    ensures PruneOnce(ret, cutoff, rows - chosen) == PruneOnce(ret, cutoff, rows)
  {
    var less := rows - chosen;
    assert less - Aged(less, cutoff) == rows - Aged(rows, cutoff);
  }

  /** One pass: the final rows it works towards do not change, and it stops only when there. */
  lemma PassRefines(ret: Retention, cutoff: int, rows: set<Row>, work: seq<string>,
                    chosen: set<Row>, remaining: seq<string>)
    requires ret.Valid() && IsPlan(ret, cutoff, rows, work, chosen, remaining) && Covers(ret, rows, work)
    ensures chosen <= rows
    ensures PruneOnce(ret, cutoff, rows - chosen) == PruneOnce(ret, cutoff, rows)
    ensures Covers(ret, rows - chosen, remaining)
    ensures chosen == {} ==> rows == PruneOnce(ret, cutoff, rows)
  {
    if Aged(rows, cutoff) != {} {
      AgedTarget(ret, cutoff, rows, chosen);
      forall s | Overflows(ret, rows - chosen, s)
        ensures s in remaining
      {
        OverflowShrinks(ret, rows, rows - chosen, s);
      }
    } else if i :| 0 <= i < |work| && IsPlanFor(ret, rows, work, i, chosen, remaining) {
      OverflowTarget(ret, cutoff, rows, chosen, work[i]);
      PlanCovers(ret, rows, work, i, chosen, remaining);
    } else {
      assert forall r | r in rows :: !Overflows(ret, rows, r.session);
      assert rows - Aged(rows, cutoff) == rows;
      assert rows - {} == rows;
    }
  }

  /** A session on the worklist that still overflows stays on it. */
  lemma PlanKeeps(ret: Retention, rows: set<Row>, work: seq<string>, i: nat,
                  chosen: set<Row>, remaining: seq<string>, x: string)
    requires i < |work| && IsPlanFor(ret, rows, work, i, chosen, remaining)
    requires forall s :: Overflow(ret, rows - chosen, s) == Overflow(ret, rows, s) - chosen
    requires x in work && Overflows(ret, rows - chosen, x)
    ensures x in remaining
  {
    assert Overflows(ret, rows, x);
    var k :| 0 <= k < |work| && work[k] == x;
    assert k >= i;
    if x == work[i] {
      if |chosen| < ret.batch {
        SubsetSize(chosen, Overflow(ret, rows, work[i]));
      }
      assert remaining[0] == x;
    } else {
      assert x == work[i..][k - i];
      assert x == work[i + 1..][k - i - 1];
    }
  }

  /** The worklist handed back holds every session that still overflows. */
  lemma PlanCovers(ret: Retention, rows: set<Row>, work: seq<string>, i: nat,
                   chosen: set<Row>, remaining: seq<string>)
    requires ret.Valid() && i < |work| && IsPlanFor(ret, rows, work, i, chosen, remaining) && Covers(ret, rows, work)
    requires forall s :: Overflow(ret, rows - chosen, s) == Overflow(ret, rows, s) - chosen
    ensures Covers(ret, rows - chosen, remaining) && chosen != {}
  {
    forall s | Overflows(ret, rows - chosen, s)
      ensures s in remaining
    {
      assert Overflows(ret, rows, s);
      PlanKeeps(ret, rows, work, i, chosen, remaining, s);
    }
  }

  /** A state of the repeated maintenance: the table and the worklist. */
  datatype Work = Work(rows: set<Row>, list: seq<string>)

  /** Passes follow one another without appends; every pass but the last deletes something. */
  ghost predicate IsSweep(ret: Retention, cutoff: int, b: seq<Work>, plans: seq<set<Row>>) {
    && |b| == |plans| + 1
    && forall k | 0 <= k < |plans| ::
         && IsPlan(ret, cutoff, b[k].rows, b[k].list, plans[k], b[k + 1].list)
         && b[k + 1].rows == b[k].rows - plans[k]
  }

  lemma {:induction false} SweepKeepsTarget(ret: Retention, cutoff: int, b: seq<Work>, plans: seq<set<Row>>, k: nat)
    requires ret.Valid() && IsSweep(ret, cutoff, b, plans) && Covers(ret, b[0].rows, b[0].list) && k < |b|
    ensures Covers(ret, b[k].rows, b[k].list)
    ensures PruneOnce(ret, cutoff, b[k].rows) == PruneOnce(ret, cutoff, b[0].rows)
  {
    if k > 0 {
      SweepKeepsTarget(ret, cutoff, b, plans, k - 1);
      PassRefines(ret, cutoff, b[k - 1].rows, b[k - 1].list, plans[k - 1], b[k].list);
    }
  }

  /** Repeating the incremental prune until it deletes nothing leaves exactly the rows of the one-shot prune. */
  lemma SweepEndsAtPruneOnce(ret: Retention, cutoff: int, b: seq<Work>, plans: seq<set<Row>>)
    requires ret.Valid() && IsSweep(ret, cutoff, b, plans) && Covers(ret, b[0].rows, b[0].list)
    requires plans != [] && plans[|plans| - 1] == {}
    ensures b[|plans|].rows == PruneOnce(ret, cutoff, b[0].rows)
  {
    var k := |plans| - 1;
    SweepKeepsTarget(ret, cutoff, b, plans, k);
    PassRefines(ret, cutoff, b[k].rows, b[k].list, plans[k], b[k + 1].list);
  }

  /** A sweep that always deletes something is no longer than the table. */
  lemma {:induction false} SweepIsShort(ret: Retention, cutoff: int, b: seq<Work>, plans: seq<set<Row>>, k: nat)
    requires ret.Valid() && IsSweep(ret, cutoff, b, plans) && Covers(ret, b[0].rows, b[0].list) && k < |b|
    requires forall m | 0 <= m < k :: plans[m] != {}
    ensures k + |b[k].rows| <= |b[0].rows|
  {
    hide IsPlan, Covers, PruneOnce;
    if k > 0 {
      SweepIsShort(ret, cutoff, b, plans, k - 1);
      SweepKeepsTarget(ret, cutoff, b, plans, k - 1);
      PassRefines(ret, cutoff, b[k - 1].rows, b[k - 1].list, plans[k - 1], b[k].list);
      Removed(b[k - 1].rows, plans[k - 1]);
    }
  }

  lemma Removed(rows: set<Row>, chosen: set<Row>)
    requires chosen <= rows && chosen != {}
    ensures |rows - chosen| < |rows|
  {
    var x :| x in chosen;
    SubsetSize(rows - chosen, rows - {x});
  }

  // -------------------------------------------------- nothing is forgotten

  /** The maintenance thread: between passes, holding the popped list, with a batch selected, or done deleting. */
  datatype Phase =
    | Resting
    | Popped(list: seq<string>)
    | Planned(list: seq<string>, chosen: set<Row>, remaining: seq<string>)
    | Deleted(remaining: seq<string>)

  datatype System = System(rows: set<Row>, pending: set<string>, degraded: set<string>, phase: Phase)

  datatype Event =
    | Append(session: string, ok: bool, markerTs: int, ts: int)
    | Pop(list: seq<string>)
    | Plan(cutoff: int, chosen: set<Row>, remaining: seq<string>)
    | Delete
    | HandBack
    | Fail

  ghost predicate Enabled(ret: Retention, s: System, e: Event) {
    match e
    case Append(_, _, _, _) => true
    case Pop(list) => s.phase.Resting? && (set x | x in list) == s.pending
    case Plan(cutoff, chosen, remaining) =>
      s.phase.Popped? && IsPlan(ret, cutoff, s.rows, s.phase.list, chosen, remaining)
    case Delete => s.phase.Planned?
    case HandBack => s.phase.Deleted?
    case Fail => s.phase.Popped? || s.phase.Planned?
  }

  ghost function Apply(ret: Retention, s: System, e: Event): System
    requires Enabled(ret, s, e)
  {
    match e
    case Append(session, ok, markerTs, ts) =>
      if !ok then s.(degraded := s.degraded + {session})
      else
        var rows' := AppendRows(s.rows, session, session in s.degraded, markerTs, ts);
        s.(rows := rows', degraded := s.degraded - {session},
           pending := if Top(rows', session) > ret.perSession then s.pending + {session} else s.pending)
    case Pop(list) => s.(pending := {}, phase := Popped(list))
    case Plan(_, chosen, remaining) => s.(phase := Planned(s.phase.list, chosen, remaining))
    case Delete => s.(rows := s.rows - s.phase.chosen, phase := Deleted(s.phase.remaining))
    case HandBack => s.(pending := s.pending + (set x | x in s.phase.remaining), phase := Resting)
    case Fail => s.(pending := s.pending + (set x | x in s.phase.list), phase := Resting)
  }

  const FRESH := System({}, {}, {}, Resting)

  ghost predicate IsRun(ret: Retention, b: seq<System>, es: seq<Event>) {
    && |b| == |es| + 1 && b[0] == FRESH
    && forall k | 0 <= k < |es| :: Enabled(ret, b[k], es[k]) && b[k + 1] == Apply(ret, b[k], es[k])
  }

  ghost predicate InFlight(p: Phase, session: string) {
    match p
    case Resting => false
    case Popped(list) => session in list
    case Planned(list, _, _) => session in list
    case Deleted(remaining) => session in remaining
  }

  /** A session that overflows, now or once the selected batch is gone, is pending or still in the thread's hands. */
  ghost predicate Remembered(ret: Retention, s: System) {
    && Keyed(s.rows)
    && (forall x :: Overflows(ret, s.rows, x) ==> x in s.pending || InFlight(s.phase, x))
    && (s.phase.Planned? ==> s.phase.chosen <= s.rows)
    && (s.phase.Planned? ==> forall x :: Overflows(ret, s.rows - s.phase.chosen, x) ==>
          x in s.pending || x in s.phase.remaining)
  }

  lemma OverflowMeansLong(ret: Retention, rows: set<Row>, session: string)
    requires Keyed(rows) && Overflows(ret, rows, session)
    ensures Top(rows, session) > ret.perSession
  {
  }

  lemma SameOverflow(ret: Retention, a: set<Row>, b: set<Row>, session: string)
    requires Of(a, session) == Of(b, session)
    ensures Overflow(ret, a, session) == Overflow(ret, b, session)
  {
    SameTop(a, b, session);
    assert forall r :: r in a && r.session == session <==> r in Of(a, session);
    assert forall r :: r in b && r.session == session <==> r in Of(b, session);
  }

  /** After an append, only the session appended to can newly overflow, and then it has been marked. */
  lemma AppendMarks(ret: Retention, rows: set<Row>, chosen: set<Row>, session: string,
                    degraded: bool, markerTs: int, ts: int, x: string)
    requires Keyed(rows)
    requires Overflows(ret, AppendRows(rows, session, degraded, markerTs, ts) - chosen, x)
    ensures if x == session then Top(AppendRows(rows, session, degraded, markerTs, ts), x) > ret.perSession
            else Overflows(ret, rows - chosen, x)
  {
    if x == session {
      AppendMarksOwn(ret, rows, chosen, session, degraded, markerTs, ts);
    } else {
      AppendMarksOther(ret, rows, chosen, session, degraded, markerTs, ts, x);
    }
  }

  lemma AppendMarksOwn(ret: Retention, rows: set<Row>, chosen: set<Row>, session: string, degraded: bool, markerTs: int, ts: int)
    requires Keyed(rows) && Overflows(ret, AppendRows(rows, session, degraded, markerTs, ts) - chosen, session)
    ensures Top(AppendRows(rows, session, degraded, markerTs, ts), session) > ret.perSession
  {
    hide AppendRows, Top, Keyed, Overflow;
    var rows' := AppendRows(rows, session, degraded, markerTs, ts);
    AppendTop(rows, session, degraded, markerTs, ts);
    OverflowShrinks(ret, rows', rows' - chosen, session);
    OverflowMeansLong(ret, rows', session);
  }

  lemma AppendMarksOther(ret: Retention, rows: set<Row>, chosen: set<Row>, session: string,
                         degraded: bool, markerTs: int, ts: int, x: string)
    requires Keyed(rows) && x != session && Overflows(ret, AppendRows(rows, session, degraded, markerTs, ts) - chosen, x)
    ensures Overflows(ret, rows - chosen, x)
  {
    hide AppendRows, Top, Keyed, Overflow;
    var rows' := AppendRows(rows, session, degraded, markerTs, ts);
    AppendTop(rows, session, degraded, markerTs, ts);
    assert Of(rows' - chosen, x) == Of(rows', x) - chosen;
    assert Of(rows - chosen, x) == Of(rows, x) - chosen;
    SameOverflow(ret, rows - chosen, rows' - chosen, x);
  }

  lemma AppendRemembers(ret: Retention, s: System, e: Event)
    requires Remembered(ret, s) && e.Append?
    ensures Remembered(ret, Apply(ret, s, e))
  {
    hide Overflows, Keyed, Top, AppendRows;
    var t := Apply(ret, s, e);
    if e.ok {
      var degraded := e.session in s.degraded;
      AppendTop(s.rows, e.session, degraded, e.markerTs, e.ts);
      AppendGrows(s.rows, e.session, degraded, e.markerTs, e.ts);
      assert s.rows - {} == s.rows && t.rows - {} == t.rows;
      forall x | Overflows(ret, t.rows, x)
        ensures x in t.pending || InFlight(t.phase, x)
      {
        AppendMarks(ret, s.rows, {}, e.session, degraded, e.markerTs, e.ts, x);
      }
      if s.phase.Planned? {
        forall x | Overflows(ret, t.rows - s.phase.chosen, x)
          ensures x in t.pending || x in t.phase.remaining
        {
          AppendMarks(ret, s.rows, s.phase.chosen, e.session, degraded, e.markerTs, e.ts, x);
        }
      }
    }
  }

  lemma AppendGrows(rows: set<Row>, session: string, degraded: bool, markerTs: int, ts: int)
    ensures rows <= AppendRows(rows, session, degraded, markerTs, ts)
  {
  }

  /** Planning a batch keeps every session that will still overflow on the list to be handed back. */
  lemma PlanRemembers(ret: Retention, s: System, e: Event)
    requires ret.Valid() && Remembered(ret, s) && e.Plan? && Enabled(ret, s, e)
    ensures Remembered(ret, Apply(ret, s, e))
  {
    var rows, work, chosen := s.rows, s.phase.list, e.chosen;
    forall x | Overflows(ret, rows - chosen, x) && x !in s.pending
      ensures x in e.remaining
    {
      OverflowShrinks(ret, rows, rows - chosen, x);
      assert x in work;
      if Aged(rows, e.cutoff) == {} {
        if i :| 0 <= i < |work| && IsPlanFor(ret, rows, work, i, chosen, e.remaining) {
          OverflowTarget(ret, e.cutoff, rows, chosen, work[i]);
          PlanKeeps(ret, rows, work, i, chosen, e.remaining, x);
        }
      }
    }
  }

  lemma DeleteRemembers(ret: Retention, s: System, e: Event)
    requires Remembered(ret, s) && Enabled(ret, s, e) && !e.Append? && !e.Plan?
    ensures Remembered(ret, Apply(ret, s, e))
  {
  }

  /** From an empty store, no interleaving of appends, batches and failed passes loses an overflowing session. */
  lemma {:induction false} RunRemembers(ret: Retention, b: seq<System>, es: seq<Event>, k: nat)
    requires ret.Valid() && IsRun(ret, b, es) && k < |b|
    ensures Remembered(ret, b[k])
  {
    if k == 0 {
      assert forall x :: !Overflows(ret, {}, x);
    } else {
      RunRemembers(ret, b, es, k - 1);
      var s, e := b[k - 1], es[k - 1];
      if e.Append? {
        AppendRemembers(ret, s, e);
      } else if e.Plan? {
        PlanRemembers(ret, s, e);
      } else {
        DeleteRemembers(ret, s, e);
      }
    }
  }
}
