/** The primary's durable provider cursor and positions table (src/codex_event_store.py). */
module ProviderCursors {
  import opened Options

  datatype Position = Position(epoch: string, num: int)

  /** One session's cursor row and its recorded positions. */
  datatype Store = Store(cursor: Option<Position>, positions: set<Position>)

  const EMPTY := Store(None, {})

  predicate ShouldIngest(s: Store, p: Position) {
    && !(s.cursor.Some? && s.cursor.value.epoch == p.epoch && p.num <= s.cursor.value.num)
    && p !in s.positions
  }

  /** A position already recorded violates the primary key and changes nothing. */
  function Record(s: Store, p: Position): Store {
    if p in s.positions then s else Store(Some(p), s.positions + {p})
  }

  /** Check and record in one consumer step. */
  function Claim(s: Store, p: Position): Store {
    if ShouldIngest(s, p) then Record(s, p) else s
  }

  /** A claimed position is never claimed again, whatever the cursor does meanwhile. */
  lemma {:induction false} ClaimedOnce(s: Store, p: Position, later: seq<Position>)
    ensures !ShouldIngest(ClaimAll(Record(s, p), later), p)
  {
    if later == [] {
    } else {
      ClaimedOnce(s, p, later[..|later| - 1]);
      PositionsGrow(Record(s, p), later[..|later| - 1]);
    }
  }

  function ClaimAll(s: Store, ps: seq<Position>): Store {
    if ps == [] then s else Claim(ClaimAll(s, ps[..|ps| - 1]), ps[|ps| - 1])
  }

  lemma {:induction false} PositionsGrow(s: Store, ps: seq<Position>)
    ensures s.positions <= ClaimAll(s, ps).positions
  {
    if ps != [] {
      PositionsGrow(s, ps[..|ps| - 1]);
    }
  }

  class CursorTable {
    var cursors: map<string, Position>
    var positions: map<string, set<Position>>

    function Of(session: string): Store
      reads this
    {
      Store(if session in cursors then Some(cursors[session]) else None,
            if session in positions then positions[session] else {})
    }

    constructor ()
      ensures forall session :: Of(session) == EMPTY
    {
      cursors, positions := map[], map[];
    }

    method Should(session: string, p: Position) returns (ok: bool, previous: Option<Position>)
      ensures ok == ShouldIngest(Of(session), p) && previous == Of(session).cursor
    {
      previous := None;
      if session in cursors {
        previous := Some(cursors[session]);
        if cursors[session].epoch == p.epoch && p.num <= cursors[session].num {
          return false, previous;
        }
      }
      if session in positions && p in positions[session] {
        return false, previous;
      }
      ok := true;
    }

    method RecordApplied(session: string, p: Position) returns (previous: Option<Position>, current: Option<Position>)
      modifies this
      ensures Of(session) == Record(old(Of(session)), p)
      ensures forall other | other != session :: Of(other) == old(Of(other))
      ensures previous == old(Of(session).cursor) && current == if Of(session).cursor.Some? then Of(session).cursor else Some(p)
    {
      previous := if session in cursors then Some(cursors[session]) else None;
      var known := if session in positions then positions[session] else {};
      if p in known {
        current := if session in cursors then Some(cursors[session]) else Some(p);
        return;
      }
      positions := positions[session := known + {p}];
      cursors := cursors[session := p];
      current := Some(p);
    }

    method ClaimEvent(session: string, p: Position) returns (claimed: bool)
      modifies this
      ensures claimed == old(ShouldIngest(Of(session), p))
      ensures Of(session) == Claim(old(Of(session)), p)
      ensures forall other | other != session :: Of(other) == old(Of(other))
    {
      var ok, _ := Should(session, p);
      if ok {
        var _, _ := RecordApplied(session, p);
      }
      claimed := ok;
    }
  }
}
