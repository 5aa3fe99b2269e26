/** The event store object (src/codex_event_store.py): append, paging, and both forms of retention. */
module EventStore {
  import Basics
  import opened Options
  import opened EventRows
  import opened EventReader
  import EventPrune

  class EventStore {
    const ret: EventRows.Retention
    var rows: set<Row>
    var degraded: set<string>
    var pending: set<string>

    ghost predicate Valid()
      reads this
    {
      ret.Valid() && Keyed(rows)
    }

    constructor (ret: EventRows.Retention)
      requires ret.Valid()
      ensures Valid() && this.ret == ret && rows == {} && degraded == {} && pending == {}
    {
      this.ret := ret;
      rows, degraded, pending := {}, {}, {};
    }

    /** Appends one event, or remembers that persistence failed. */
    method AppendEvent(session: string, persists: bool, markerTs: int, ts: int) returns (num: Option<int>)
      requires Valid()
      modifies this
      ensures Valid()
      ensures !persists ==> num == None && rows == old(rows) && pending == old(pending) && degraded == old(degraded) + {session}
      ensures persists ==>
                && rows == AppendRows(old(rows), session, session in old(degraded), markerTs, ts)
                && num == Some(Top(rows, session))
                && degraded == old(degraded) - {session}
                && pending == if Top(rows, session) > ret.perSession then old(pending) + {session} else old(pending)
    {
      hide Top, Keyed;
      AppendTop(rows, session, session in degraded, markerTs, ts);
      if !persists {
        degraded := degraded + {session};
        return None;
      }
      var latest := MaxNum(rows, session);
      if session in degraded {
        latest := latest + 1;
        rows := rows + {Row(session, latest, markerTs)};
        degraded := degraded - {session};
      }
      latest := latest + 1;
      rows := rows + {Row(session, latest, ts)};
      if latest > ret.perSession {
        pending := pending + {session};
      }
      num := Some(latest);
      assert rows == AppendRows(old(rows), session, session in old(degraded), markerTs, ts);
    }

    method GetEvents(session: string, since: Option<int>, limit: int) returns (page: Page)
      requires Valid()
      ensures IsPage(page, Nums(rows, session), session in degraded, since, limit)
    {
      hide Keyed;
      var n, mine := Clamp(limit), Of(rows, session);
      ghost var nums := Nums(rows, session);
      NumsOf(rows, session);
      var error := if session in degraded then Some(PersistenceError) else None;
      if mine == {} {
        return Page([], None, None, if since.Some? then since.value + 1 else 1, error);
      }
      var lo, hi := Bounds(mine, session);
      var pruned := since.Some? && since.value < lo - 1;
      var events := SelectNums(mine, session, StartOf(lo, hi, since, n), n);
      var next := if events != [] then events[|events| - 1] + 1 else if since.Some? then since.value + 1 else lo;
      page := Page(events, Some(lo), Some(hi), next, if pruned then Some(Pruned) else error);
    }

    /** One retention pass over a worklist: a batch of aged rows, or of the first session that overflows. */
    method PruneIncremental(cutoff: int, work: seq<string>) returns (pruned: nat, remaining: seq<string>, ghost chosen: set<Row>)
      requires Valid()
      modifies `rows
      ensures Valid() && IsPlan(ret, cutoff, old(rows), work, chosen, remaining)
      ensures rows == old(rows) - chosen && pruned == |chosen|
    {
      hide Top, Keyed, IsFirst;
      FewerKeyed(rows);
      var aged := Aged(rows, cutoff);
      if aged != {} {
        var batch := SelectFirst(aged, true, ret.batch);
        rows := rows - batch;
        return |batch|, work, batch;
      }
      var i := 0;
      while i < |work|
        invariant 0 <= i <= |work| && rows == old(rows)
        invariant forall k | 0 <= k < i :: !Overflows(ret, rows, work[k])
      {
        var newest := MaxNum(rows, work[i]);
        var minKeep := newest - ret.perSession + 1;
        if minKeep > 1 {
          var over := set r | r in rows && r.session == work[i] && r.num < minKeep;
          assert over == Overflow(ret, rows, work[i]);
          if over != {} {
            var batch := SelectFirst(over, false, ret.batch);
            remaining := if |batch| < ret.batch then work[i + 1..] else work[i..];
            assert IsPlanFor(ret, rows, work, i, batch, remaining);
            rows := rows - batch;
            return |batch|, remaining, batch;
          }
        }
        i := i + 1;
      }
      return 0, [], {};
    }

    /** The one-shot prune: aged rows first, then every session down to its retention. */
    method PruneLocked(cutoff: int)
      requires Valid()
      modifies `rows
      ensures Valid() && rows == PruneOnce(ret, cutoff, old(rows))
    {
      hide Top, Keyed, Overflow;
      FewerKeyed(rows);
      rows := rows - Aged(rows, cutoff);
      ghost var young := rows;
      var sessions := set r | r in rows :: r.session;
      ghost var done: set<string> := {};
      while sessions != {}
        invariant rows == Trimmed(ret, young, done)
        invariant forall r | r in young :: r.session in sessions || r.session in done
        invariant done !! sessions
        decreases sessions
      {
        var session :| session in sessions;
        var newest := MaxNum(rows, session);
        var minKeep := newest - ret.perSession + 1;
        TrimOne(ret, young, done, session);
        OverflowIs(ret, rows, session);
        if minKeep > 1 {
          rows := rows - set r | r in rows && r.session == session && r.num < minKeep;
        }
        sessions, done := sessions - {session}, done + {session};
      }
    }
  }

  /** The table with some of its sessions cut down to their retention. */
  ghost function Trimmed(ret: EventRows.Retention, young: set<Row>, done: set<string>): set<Row> {
    set r | r in young && !(r.session in done && r in Overflow(ret, young, r.session))
  }

  /** Cutting one more session: its rows are still whole, so its bound is the one of the full table. */
  lemma TrimOne(ret: EventRows.Retention, young: set<Row>, done: set<string>, session: string)
    requires session !in done
    ensures var rows := Trimmed(ret, young, done);
            && Top(rows, session) == Top(young, session)
            && Trimmed(ret, young, done + {session}) == rows - Overflow(ret, rows, session)
  {
    hide Top;
    var rows := Trimmed(ret, young, done);
    assert Of(rows, session) == Of(young, session);
    EventPrune.SameOverflow(ret, rows, young, session);
    SameTop(rows, young, session);
  }

  lemma OverflowIs(ret: EventRows.Retention, rows: set<Row>, session: string)
    ensures var minKeep := Top(rows, session) - ret.perSession + 1;
            Overflow(ret, rows, session) ==
            if minKeep <= 1 then {} else set r | r in rows && r.session == session && r.num < minKeep
  {
  }

  /** Keys stay keys when rows go. */
  lemma FewerKeyed(rows: set<Row>)
    requires Keyed(rows)
    ensures forall less | less <= rows :: Keyed(less)
  {
  }

  lemma NumsOf(rows: set<Row>, session: string)
    ensures Nums(rows, session) == Nums(Of(rows, session), session)
    ensures Nums(rows, session) == {} <==> Of(rows, session) == {}
    ensures Keyed(rows) ==> Keyed(Of(rows, session))
  {
    var mine := Of(rows, session);
    assert forall r :: r in rows && r.session == session <==> r in mine;
    if r :| r in mine {
      assert r.num in Nums(rows, session);
    }
  }

  // --------------------------------------------------------------- queries

  method MaxNum(rows: set<Row>, session: string) returns (m: int)
    ensures m == Top(rows, session)
  {
    m := 0;
    var rest := rows;
    while rest != {}
      invariant rest <= rows && m >= 0
      invariant forall r | r in rows - rest && r.session == session :: r.num <= m
      invariant m == 0 || exists r | r in rows :: r.session == session && r.num == m
      decreases rest
    {
      var r :| r in rest;
      if r.session == session && r.num > m {
        m := r.num;
      }
      rest := rest - {r};
    }
  }

  /** `MIN(seq), MAX(seq)` of one session's rows. */
  method Bounds(mine: set<Row>, session: string) returns (lo: int, hi: int)
    requires mine != {} && forall r | r in mine :: r.session == session
    ensures IsMin(lo, Nums(mine, session)) && IsMax(hi, Nums(mine, session))
  {
    var least := LeastBy(mine, ByNum());
    var most := LeastBy(mine, (r: Row) => -r.num);
    lo, hi := least.num, most.num;
    forall r | r in mine
      ensures lo <= r.num <= hi
    {
      assert ByNum()(least) <= ByNum()(r);
    }
  }

  /** `ORDER BY timestamp LIMIT n` or `ORDER BY seq LIMIT n`. */
  method SelectFirst(candidates: set<Row>, byTime: bool, n: nat) returns (chosen: set<Row>)
    ensures IsFirst(chosen, candidates, if byTime then ByTime() else ByNum(), n)
  {
    var key := if byTime then ByTime() else ByNum();
    chosen := {};
    while |chosen| < n && chosen != candidates
      invariant chosen <= candidates && |chosen| <= n
      invariant forall x, y | x in chosen && y in candidates - chosen :: key(x) <= key(y)
      decreases candidates - chosen
    {
      var least := LeastBy(candidates - chosen, key);
      assert forall x, y | x in chosen + {least} && y in candidates - chosen - {least} :: key(x) <= key(y);
      chosen := chosen + {least};
    }
    Basics.SubsetSize(chosen, candidates);
    if |chosen| == |candidates| {
      Basics.SubsetSize(chosen, candidates);
    }
  }

  method LeastBy(rows: set<Row>, key: Row -> int) returns (least: Row)
    requires rows != {}
    ensures least in rows && forall r | r in rows :: key(least) <= key(r)
  {
    least :| least in rows;
    var rest := rows - {least};
    while rest != {}
      invariant rest <= rows && least in rows
      invariant forall r | r in rows - rest :: key(least) <= key(r)
      decreases rest
    {
      var r :| r in rest;
      if key(r) < key(least) {
        least := r;
      }
      rest := rest - {r};
    }
  }

  /** Listing a session's rows from `start` upwards: `events` is what is listed, `rest` what is left. */
  ghost predicate Selecting(events: seq<int>, rest: set<Row>, mine: set<Row>, start: int) {
    && Increasing(events) && rest <= mine
    && (forall x | x in events :: x >= start && exists r | r in mine :: r.num == x)
    && (forall r | r in mine && r.num >= start :: r.num in events || r in rest)
    && (forall x, r | x in events && r in rest :: x < r.num)
    && (forall r | r in rest :: r.num >= start)
  }

  lemma TakeLeast(events: seq<int>, rest: set<Row>, mine: set<Row>, session: string, start: int, least: Row)
    requires Selecting(events, rest, mine, start)
    requires Keyed(mine) && forall r | r in mine :: r.session == session
    requires least in rest && forall r | r in rest :: least.num <= r.num
    ensures Selecting(events + [least.num], rest - {least}, mine, start)
  {
    if events != [] {
      assert events[|events| - 1] in events;
    }
    IncreasingSnoc(events, least.num);
    hide Increasing;
    assert forall x :: x in events + [least.num] <==> x in events || x == least.num;
  }

  lemma SelectingEnds(events: seq<int>, rest: set<Row>, mine: set<Row>, session: string, start: int, n: nat)
    requires Selecting(events, rest, mine, start) && |events| <= n && (|events| == n || rest == {})
    requires forall r | r in mine :: r.session == session
    ensures IsSelection(events, Nums(mine, session), start, n)
  {
    hide Increasing;
    forall x | x in events
      ensures x in Nums(mine, session)
    {
      var r :| r in mine && r.num == x;
      assert r.session == session;
    }
  }

  /** `WHERE seq >= start ORDER BY seq LIMIT n` over one session's rows. */
  method SelectNums(mine: set<Row>, session: string, start: int, n: nat) returns (events: seq<int>)
    requires Keyed(mine) && forall r | r in mine :: r.session == session
    ensures IsSelection(events, Nums(mine, session), start, n)
  {
    events := [];
    var rest := set r | r in mine && r.num >= start;
    assert Selecting(events, rest, mine, start);
    hide Selecting, Keyed, IsSelection;
    while |events| < n && rest != {}
      invariant Selecting(events, rest, mine, start) && |events| <= n
      decreases rest
    {
      var least := LeastBy(rest, ByNum());
      assert forall r | r in rest :: ByNum()(least) <= ByNum()(r);
      TakeLeast(events, rest, mine, session, start, least);
      events, rest := events + [least.num], rest - {least};
    }
    SelectingEnds(events, rest, mine, session, start, n);
  }
}
