/** The codex_session_events table and the queries and updates the event store runs on it. */
module EventRows {
  datatype Row = Row(session: string, num: int, ts: int)

  /** The retention settings: R newest rows per session, deletion in batches. */
  datatype Retention = Retention(perSession: nat, batch: nat)
  {
    predicate Valid() { perSession >= 1 && batch >= 1 }
  }

  /** Numbers start at one and (session, num) is a key. */
  ghost predicate Keyed(rows: set<Row>) {
    && (forall r | r in rows :: r.num >= 1)
    && (forall a, b | a in rows && b in rows && a.session == b.session && a.num == b.num :: a == b)
  }

  function Of(rows: set<Row>, session: string): set<Row> {
    set r | r in rows && r.session == session
  }

  function Nums(rows: set<Row>, session: string): set<int> {
    set r | r in rows && r.session == session :: r.num
  }

  /** `COALESCE(MAX(seq), 0)`. */
  ghost function Top(rows: set<Row>, session: string): (m: int)
    ensures m >= 0
    ensures forall r | r in rows && r.session == session :: r.num <= m
    ensures m == 0 || exists r | r in rows :: r.session == session && r.num == m
  {
    if rows == {} then 0
    else
      var r :| r in rows;
      var m := Top(rows - {r}, session);
      if r.session == session && r.num > m then r.num else m
  }

  lemma TopIs(rows: set<Row>, session: string, r: Row)
    requires r in rows && r.session == session && r.num >= 0
    requires forall q | q in rows && q.session == session :: q.num <= r.num
    ensures Top(rows, session) == r.num
  {
  }

  /** `ORDER BY key LIMIT n` over a set of candidates, ties in any order. */
  ghost predicate IsFirst(chosen: set<Row>, candidates: set<Row>, key: Row -> int, n: nat) {
    && chosen <= candidates
    && |chosen| == (if |candidates| < n then |candidates| else n)
    && forall x, y | x in chosen && y in candidates - chosen :: key(x) <= key(y)
  }

  function ByTime(): Row -> int { (r: Row) => r.ts }
  function ByNum(): Row -> int { (r: Row) => r.num }

  // ------------------------------------------------------------ retention

  function Aged(rows: set<Row>, cutoff: int): set<Row> {
    set r | r in rows && r.ts < cutoff
  }

  ghost function MinKeep(ret: Retention, rows: set<Row>, session: string): int {
    Top(rows, session) - ret.perSession + 1
  }

  /** The rows of a session that are beyond its retention. */
  ghost function Overflow(ret: Retention, rows: set<Row>, session: string): set<Row> {
    if MinKeep(ret, rows, session) <= 1 then {}
    else set r | r in rows && r.session == session && r.num < MinKeep(ret, rows, session)
  }

  /** The one-shot prune: drop what is too old, then what overflows. */
  ghost function PruneOnce(ret: Retention, cutoff: int, rows: set<Row>): set<Row> {
    var young := rows - Aged(rows, cutoff);
    set r | r in young && r !in Overflow(ret, young, r.session)
  }

  /** Whether a session on the worklist has rows to delete. */
  ghost predicate Overflows(ret: Retention, rows: set<Row>, session: string) {
    Overflow(ret, rows, session) != {}
  }

  /**
  One incremental pass: at most one batch of aged rows, or else one batch of
  the first worklist session that overflows.  `chosen` is deleted and
  `remaining` is the worklist handed back.
  */
  ghost predicate IsPlan(ret: Retention, cutoff: int, rows: set<Row>, work: seq<string>,
                         chosen: set<Row>, remaining: seq<string>)
  {
    if Aged(rows, cutoff) != {} then
      IsFirst(chosen, Aged(rows, cutoff), ByTime(), ret.batch) && remaining == work
    else
      || (chosen == {} && remaining == [] && forall s | s in work :: !Overflows(ret, rows, s))
      || (exists i | 0 <= i < |work| :: IsPlanFor(ret, rows, work, i, chosen, remaining))
  }

  ghost predicate IsPlanFor(ret: Retention, rows: set<Row>, work: seq<string>, i: nat,
                            chosen: set<Row>, remaining: seq<string>)
    requires i < |work|
  {
    && (forall k | 0 <= k < i :: !Overflows(ret, rows, work[k]))
    && Overflows(ret, rows, work[i])
    && IsFirst(chosen, Overflow(ret, rows, work[i]), ByNum(), ret.batch)
    && remaining == if |chosen| < ret.batch then work[i + 1..] else work[i..]
  }

  // -------------------------------------------------------------- appends

  /** One persisted append; after a failed one, a recovery marker goes first. */
  ghost function AppendRows(rows: set<Row>, session: string, degraded: bool, markerTs: int, ts: int): set<Row> {
    var top := Top(rows, session);
    if degraded then rows + {Row(session, top + 1, markerTs), Row(session, top + 2, ts)}
    else rows + {Row(session, top + 1, ts)}
  }

  lemma AppendTop(rows: set<Row>, session: string, degraded: bool, markerTs: int, ts: int)
    requires Keyed(rows)
    ensures var rows' := AppendRows(rows, session, degraded, markerTs, ts);
            && Keyed(rows')
            && Top(rows', session) == Top(rows, session) + (if degraded then 2 else 1)
            && forall other | other != session :: Of(rows', other) == Of(rows, other)
  {
    hide Top;
    var rows' := AppendRows(rows, session, degraded, markerTs, ts);
    TopIs(rows', session, Row(session, Top(rows, session) + (if degraded then 2 else 1), ts));
  }

  lemma SameTop(a: set<Row>, b: set<Row>, session: string)
    requires Of(a, session) == Of(b, session)
    ensures Top(a, session) == Top(b, session)
  {
    assert forall r :: r in a && r.session == session <==> r in Of(a, session);
    assert forall r :: r in b && r.session == session <==> r in Of(b, session);
  }
}
