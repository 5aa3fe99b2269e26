/**
Non-urgent delivery of queued messages (src/message_queue.py): a pass takes a
batch from the front of the pending messages, never joining a native rename
with anything else.
*/
module BatchDelivery {
  import opened Basics
  import opened Options

  datatype Message = Message(id: nat, important: bool, isRename: bool, text: string)

  // ---------------------------------------------------------------- batches

  /** A slice up to a configured number, which counts from the end when negative. */
  function Take(q: seq<Message>, size: int): seq<Message> {
    if size >= 0 then q[..Min(size, |q|)] else q[..Max(|q| + size, 0)]
  }

  /** The position of the first rename, or the length when there is none. */
  function FirstRename(q: seq<Message>): (r: nat)
    ensures r <= |q| && (r < |q| ==> q[r].isRename) && forall i | 0 <= i < r :: !q[i].isRename
  {
    if q == [] || q[0].isRename then 0 else 1 + FirstRename(q[1..])
  }

  function Batch(q: seq<Message>, size: int): (batch: seq<Message>)
    ensures batch <= q
  {
    var head := Take(q, size);
    var r := FirstRename(head);
    if r == 0 && head != [] then head[..1] else head[..r]
  }

  /** What may be pasted in one go. */
  predicate Legal(batch: seq<Message>, size: int) {
    0 < |batch| <= size && (|batch| == 1 || forall i | 0 <= i < |batch| :: !batch[i].isRename)
  }

  lemma BatchIsLegal(q: seq<Message>, size: int)
    requires q != [] && size >= 1
    ensures Legal(Batch(q, size), size)
  {
  }

  /** No longer batch from the front would be legal. */
  lemma BatchIsLongest(q: seq<Message>, size: int, n: nat)
    requires n <= |q| && Legal(q[..n], size)
    ensures n <= |Batch(q, size)|
  {
    var head := Take(q, size);
    assert forall i | 0 <= i < n :: q[..n][i] == q[i] && head[i] == q[i];
  }

  /** Every waiting queue makes progress exactly when the configured size is positive. */
  lemma ProgressIff(size: int)
    ensures (forall q: seq<Message> | q != [] :: Batch(q, size) != []) <==> size >= 1
  {
    if size >= 1 {
      forall q: seq<Message> | q != [] ensures Batch(q, size) != [] { BatchIsLegal(q, size); }
    } else {
      var q := [Message(0, false, false, "")];
      assert Take(q, size) == [] && Batch(q, size) == [];
    }
  }

  // ---------------------------------------------------------- repeated passes

  /** The batches of successful passes until nothing is pending. */
  function Drain(q: seq<Message>, size: int): seq<seq<Message>>
    requires size >= 1
    decreases |q|
  {
    if q == [] then []
    else
      BatchIsLegal(q, size);
      [Batch(q, size)] + Drain(q[|Batch(q, size)|..], size)
  }

  function Concat(parts: seq<seq<Message>>): seq<Message> {
    if parts == [] then [] else parts[0] + Concat(parts[1..])
  }

  predicate AllLegal(parts: seq<seq<Message>>, size: int) {
    forall i | 0 <= i < |parts| :: Legal(parts[i], size)
  }

  lemma DrainStep(q: seq<Message>, size: int)
    requires q != [] && size >= 1
    ensures Batch(q, size) != [] && Drain(q, size) == [Batch(q, size)] + Drain(q[|Batch(q, size)|..], size)
  {
    BatchIsLegal(q, size);
  }

  lemma ConcatStep(head: seq<Message>, tail: seq<seq<Message>>)
    ensures Concat([head] + tail) == head + Concat(tail)
  {
    assert ([head] + tail)[1..] == tail;
  }

  lemma LegalStep(head: seq<Message>, tail: seq<seq<Message>>, size: int)
    requires Legal(head, size) && AllLegal(tail, size)
    ensures AllLegal([head] + tail, size) && AllLegal([], size)
  {
  }

  /** Repeated passes paste the whole queue in order, each message once, in legal batches, in at most as many passes as messages. */
  lemma {:induction false} DrainDelivers(q: seq<Message>, size: int)
    requires size >= 1
    ensures Concat(Drain(q, size)) == q && AllLegal(Drain(q, size), size) && |Drain(q, size)| <= |q|
    decreases |q|
  {
    hide *;
    if q != [] {
      BatchIsLegal(q, size);
      DrainStep(q, size);
      var batch := Batch(q, size);
      var rest := q[|batch|..];
      DrainDelivers(rest, size);
      ConcatStep(batch, Drain(rest, size));
      LegalStep(batch, Drain(rest, size), size);
      assert batch + rest == q;
    } else {
      DrainNothing(size);
      LegalStep([Message(0, false, false, "")], [], size);
      ConcatNothing();
    }
  }

  lemma ConcatNothing()
    ensures Concat([]) == []
  {
  }

  /** No way of cutting the queue into legal batches, even after part of it is gone, needs fewer passes. */
  lemma {:induction false} DrainIsShortest(parts: seq<seq<Message>>, size: int, gone: nat)
    requires size >= 1 && AllLegal(parts, size) && gone <= |Concat(parts)|
    ensures |Drain(Concat(parts)[gone..], size)| <= |parts|
    decreases |parts|
  {
    hide Drain, Batch;
    var q := Concat(parts)[gone..];
    if q == [] {
      assert Drain(q, size) == [] by { DrainNothing(size); }
    } else {
      var first, rest := parts[0], parts[1..];
      var all := Concat(rest);
      assert AllLegal(rest, size) && Legal(first, size);
      assert Concat(parts) == first + all;
      hide Concat, Legal, AllLegal;
      if gone < |first| {
        DrainStep(q, size);
        FrontFits(first, all, size, gone);
        var n := |Batch(q, size)|;
        assert q[n..] == all[gone + n - |first|..];
        DrainIsShortest(rest, size, gone + n - |first|);
      } else {
        assert q == all[gone - |first|..];
        DrainIsShortest(rest, size, gone - |first|);
      }
    }
  }

  lemma DrainNothing(size: int)
    requires size >= 1
    ensures Drain([], size) == []
  {
  }

  /** The pass takes at least what is left of a legal batch at the front. */
  lemma FrontFits(first: seq<Message>, rest: seq<Message>, size: int, gone: nat)
    requires Legal(first, size) && gone < |first|
    ensures |first| - gone <= |Batch((first + rest)[gone..], size)|
  {
    var q := (first + rest)[gone..];
    var n := |first| - gone;
    assert q[..n] == first[gone..];
    assert forall i | 0 <= i < n :: first[gone..][i] == first[gone + i];
    BatchIsLongest(q, size, n);
  }

  // ------------------------------------------------------------------- runs

  datatype Row = Row(message: Message, delivered: bool)

  datatype Queue = Queue(
    rows: seq<Row>,                  // the table in queued order
    pasted: seq<seq<Message>>,       // batches pasted into the session
    dropped: seq<Message>)           // renames given up after a failed attempt

  datatype Step =
    | Enqueue(important: bool, isRename: bool, text: string)
    | Pass(importantOnly: bool, success: bool)

  function Pending(rows: seq<Row>, importantOnly: bool): (q: seq<Message>) {
    if rows == [] then []
    else
      var n := |rows| - 1;
      Pending(rows[..n], importantOnly) +
      if !rows[n].delivered && (importantOnly ==> rows[n].message.important) then [rows[n].message] else []
  }

  function Deliver(rows: seq<Row>, batch: seq<Message>): (r: seq<Row>)
    ensures |r| == |rows|
  {
    seq(|rows|, i requires 0 <= i < |rows| => if rows[i].message in batch then rows[i].(delivered := true) else rows[i])
  }

  function Apply(s: Queue, size: int, step: Step): Queue {
    match step
    case Enqueue(important, isRename, text) =>
      s.(rows := s.rows + [Row(Message(|s.rows|, important, isRename, text), false)])
    case Pass(importantOnly, success) =>
      var batch := Batch(Pending(s.rows, importantOnly), size);
      if Pending(s.rows, importantOnly) == [] then s
      else if success then Queue(Deliver(s.rows, batch), s.pasted + [batch], s.dropped)
      else if |batch| == 1 && batch[0].isRename then Queue(Deliver(s.rows, batch), s.pasted, s.dropped + batch)
      else s
  }

  const EMPTY := Queue([], [], [])

  ghost predicate IsRun(b: seq<Queue>, size: int, steps: seq<Step>) {
    |b| == |steps| + 1 && b[0] == EMPTY && forall k | 0 <= k < |steps| :: b[k + 1] == Apply(b[k], size, steps[k])
  }

  predicate Numbered(rows: seq<Row>) {
    forall i | 0 <= i < |rows| :: rows[i].message.id == i
  }

  predicate Eligible(row: Row, importantOnly: bool) {
    !row.delivered && (importantOnly ==> row.message.important)
  }

  predicate Ascending(q: seq<Message>) {
    forall p, r | 0 <= p < r < |q| :: q[p].id < q[r].id
  }

  /** The messages come from eligible rows. */
  predicate From(rows: seq<Row>, q: seq<Message>, importantOnly: bool) {
    forall p | 0 <= p < |q| :: q[p].id < |rows| && rows[q[p].id].message == q[p] && Eligible(rows[q[p].id], importantOnly)
  }

  /** What is pending comes from eligible rows, in table order. */
  lemma {:induction false} PendingIsFrom(rows: seq<Row>, importantOnly: bool)
    requires Numbered(rows)
    ensures From(rows, Pending(rows, importantOnly), importantOnly) && Ascending(Pending(rows, importantOnly))
  {
    if rows != [] {
      var n := |rows| - 1;
      PendingIsFrom(rows[..n], importantOnly);
      var q := Pending(rows[..n], importantOnly);
      assert From(rows, q, importantOnly) by {
        assert forall i | 0 <= i < n :: rows[..n][i] == rows[i];
      }
    }
  }

  /** Every eligible row is pending. */
  lemma {:induction false} EligibleIsPending(rows: seq<Row>, importantOnly: bool, i: nat)
    requires i < |rows| && Eligible(rows[i], importantOnly)
    ensures rows[i].message in Pending(rows, importantOnly)
  {
    var n := |rows| - 1;
    if i < n {
      EligibleIsPending(rows[..n], importantOnly, i);
    }
  }

  /** An undelivered row stands behind no delivered row it should precede. */
  ghost predicate InOrder(rows: seq<Row>, importantOnly: bool) {
    forall i, j | 0 <= i < j < |rows| && rows[j].delivered && (importantOnly ==> rows[i].message.important) :: rows[i].delivered
  }

  lemma EnqueueKeeps(rows: seq<Row>, row: Row)
    requires Numbered(rows) && row.message.id == |rows| && !row.delivered
    ensures Numbered(rows + [row])
    ensures forall only :: InOrder(rows, only) ==> InOrder(rows + [row], only)
  {
  }

  lemma DeliverFacts(rows: seq<Row>, batch: seq<Message>, i: nat)
    requires i < |rows|
    ensures var after := Deliver(rows, batch);
            after[i].message == rows[i].message && (after[i].delivered <==> rows[i].delivered || rows[i].message in batch)
  {
  }

  /** A batch comes from eligible rows, in table order. */
  lemma BatchIsFrom(rows: seq<Row>, importantOnly: bool, size: int)
    requires Numbered(rows)
    ensures var batch := Batch(Pending(rows, importantOnly), size); From(rows, batch, importantOnly) && Ascending(batch)
  {
    hide Pending, Batch, From, Ascending;
    PendingIsFrom(rows, importantOnly);
    PrefixIsFrom(rows, Pending(rows, importantOnly), Batch(Pending(rows, importantOnly), size), importantOnly);
  }

  lemma PrefixIsFrom(rows: seq<Row>, q: seq<Message>, batch: seq<Message>, importantOnly: bool)
    requires From(rows, q, importantOnly) && Ascending(q) && batch <= q
    ensures From(rows, batch, importantOnly) && Ascending(batch)
  {
    assert forall p | 0 <= p < |batch| :: batch[p] == q[p];
  }

  /** An eligible row that a pass leaves behind comes after everything the pass took. */
  lemma LeftBehindIsLater(rows: seq<Row>, importantOnly: bool, size: int, i: nat, j: nat)
    requires Numbered(rows) && i < |rows| && j < |rows| && Eligible(rows[i], importantOnly)
    requires var batch := Batch(Pending(rows, importantOnly), size);
             rows[i].message !in batch && rows[j].message in batch
    ensures j < i
  {
    PendingIsFrom(rows, importantOnly);
    EligibleIsPending(rows, importantOnly, i);
    hide Pending;
    var q := Pending(rows, importantOnly);
    var batch := Batch(q, size);
    assert forall x | 0 <= x < |batch| :: batch[x] == q[x];
    var p :| 0 <= p < |q| && q[p] == rows[i].message;
    var r :| 0 <= r < |batch| && batch[r] == rows[j].message;
  }

  /** A pass never lets a message it may take be overtaken. */
  lemma PassKeepsOrder(rows: seq<Row>, passOnly: bool, only: bool, size: int)
    requires Numbered(rows) && InOrder(rows, only) && (passOnly ==> only)
    ensures InOrder(Deliver(rows, Batch(Pending(rows, passOnly), size)), only)
  {
    var batch := Batch(Pending(rows, passOnly), size);
    var after := Deliver(rows, batch);
    hide Batch, Pending, Deliver;
    forall i, j | 0 <= i < j < |after| && after[j].delivered && (only ==> after[i].message.important)
      ensures after[i].delivered
    {
      DeliverFacts(rows, batch, i);
      DeliverFacts(rows, batch, j);
      if !after[i].delivered && !rows[j].delivered {
        LeftBehindIsLater(rows, passOnly, size, i, j);
      }
    }
  }

  /** The rows of these messages are marked delivered. */
  predicate Recorded(rows: seq<Row>, q: seq<Message>) {
    forall p | 0 <= p < |q| :: q[p].id < |rows| && rows[q[p].id] == Row(q[p], true)
  }

  predicate Apart(q: seq<Message>, r: seq<Message>) {
    forall i, j | 0 <= i < |q| && 0 <= j < |r| :: q[i].id != r[j].id
  }

  ghost predicate Once(s: Queue) {
    && Numbered(s.rows) && Recorded(s.rows, s.dropped)
    && (forall a | 0 <= a < |s.pasted| :: Recorded(s.rows, s.pasted[a]) && Ascending(s.pasted[a]))
    && (forall a, c | 0 <= a < c < |s.pasted| :: Apart(s.pasted[a], s.pasted[c]))
  }

  lemma RecordedStays(rows: seq<Row>, batch: seq<Message>, q: seq<Message>)
    requires Recorded(rows, q)
    ensures Recorded(Deliver(rows, batch), q)
  {
  }

  lemma BatchIsRecorded(rows: seq<Row>, batch: seq<Message>, importantOnly: bool)
    requires Numbered(rows) && From(rows, batch, importantOnly)
    ensures Recorded(Deliver(rows, batch), batch) && Numbered(Deliver(rows, batch))
  {
    assert forall p | 0 <= p < |batch| :: batch[p] in batch;
  }

  lemma BatchIsApart(rows: seq<Row>, batch: seq<Message>, importantOnly: bool, q: seq<Message>)
    requires From(rows, batch, importantOnly) && Recorded(rows, q)
    ensures Apart(q, batch)
  {
  }

  lemma StepOnce(s: Queue, size: int, step: Step)
    requires Once(s)
    ensures Once(Apply(s, size, step))
  {
    match step
    case Enqueue(_, _, _) =>
    case Pass(importantOnly, success) =>
      var batch := Batch(Pending(s.rows, importantOnly), size);
      BatchIsFrom(s.rows, importantOnly, size);
      BatchIsRecorded(s.rows, batch, importantOnly);
      RecordedStays(s.rows, batch, s.dropped);
      forall a | 0 <= a < |s.pasted|
        ensures Recorded(Deliver(s.rows, batch), s.pasted[a]) && Apart(s.pasted[a], batch)
      {
        RecordedStays(s.rows, batch, s.pasted[a]);
        BatchIsApart(s.rows, batch, importantOnly, s.pasted[a]);
      }
      hide Deliver, Batch, Pending, Apart, Ascending, Numbered, From;
  }

  lemma StepOrder(s: Queue, size: int, step: Step, only: bool)
    requires Numbered(s.rows) && InOrder(s.rows, only) && (step.Pass? && step.importantOnly ==> only)
    ensures InOrder(Apply(s, size, step).rows, only)
  {
    match step
    case Enqueue(important, isRename, text) =>
      EnqueueKeeps(s.rows, Row(Message(|s.rows|, important, isRename, text), false));
    case Pass(importantOnly, _) => PassKeepsOrder(s.rows, importantOnly, only, size);
  }

  lemma {:induction false} RunOnce(b: seq<Queue>, size: int, steps: seq<Step>, k: nat)
    requires IsRun(b, size, steps) && k < |b|
    ensures Once(b[k])
  {
    if k > 0 {
      RunOnce(b, size, steps, k - 1);
      StepOnce(b[k - 1], size, steps[k - 1]);
    }
  }

  /** Over every mix of queueing, passes and failures no message is pasted twice and every batch is in queued order. */
  lemma PastedOnce(b: seq<Queue>, size: int, steps: seq<Step>, k: nat, a: nat, c: nat, p: nat, r: nat)
    requires IsRun(b, size, steps) && k < |b|
    requires a < |b[k].pasted| && c < |b[k].pasted| && p < |b[k].pasted[a]| && r < |b[k].pasted[c]|
    ensures b[k].pasted[a][p].id == b[k].pasted[c][r].id <==> a == c && p == r
    ensures a == c && p < r ==> b[k].pasted[a][p].id < b[k].pasted[c][r].id
  {
    RunOnce(b, size, steps, k);
    var pasted := b[k].pasted;
    if a < c {
      assert Apart(pasted[a], pasted[c]);
    } else if c < a {
      assert Apart(pasted[c], pasted[a]);
    } else {
      assert Ascending(pasted[a]);
    }
  }

  lemma OnceNumbered(s: Queue)
    requires Once(s)
    ensures Numbered(s.rows)
  {
  }

  /** An important message is never overtaken; with no important-only pass, no message is. */
  lemma {:induction false} NeverOvertaken(b: seq<Queue>, size: int, steps: seq<Step>, k: nat)
    requires IsRun(b, size, steps) && k < |b|
    ensures InOrder(b[k].rows, true)
    ensures (forall m | 0 <= m < k && steps[m].Pass? :: !steps[m].importantOnly) ==> InOrder(b[k].rows, false)
  {
    hide InOrder, Once, Numbered;
    if k > 0 {
      NeverOvertaken(b, size, steps, k - 1);
      RunOnce(b, size, steps, k - 1);
      OnceNumbered(b[k - 1]);
      hide Apply;
      StepOrder(b[k - 1], size, steps[k - 1], true);
      if forall m | 0 <= m < k && steps[m].Pass? :: !steps[m].importantOnly {
        StepOrder(b[k - 1], size, steps[k - 1], false);
      }
    } else {
      NothingOvertaken();
    }
  }

  lemma NothingOvertaken()
    ensures InOrder([], true) && InOrder([], false)
  {
  }

  function Asked(steps: seq<Step>): (asked: seq<Step>)
    ensures forall i | 0 <= i < |asked| :: asked[i].Enqueue?
  {
    if steps == [] then []
    else
      var last := steps[|steps| - 1];
      Asked(steps[..|steps| - 1]) + if last.Enqueue? then [last] else []
  }

  /** In every run the table holds the messages asked for, in order, each with its text and marks. */
  lemma {:induction false} RowsTellHistory(b: seq<Queue>, size: int, steps: seq<Step>, k: nat)
    requires IsRun(b, size, steps) && k < |b|
    ensures var asked := Asked(steps[..k]);
            && |b[k].rows| == |asked|
            && forall i | 0 <= i < |asked| ::
                 b[k].rows[i].message == Message(i, asked[i].important, asked[i].isRename, asked[i].text)
  {
    if k > 0 {
      RowsTellHistory(b, size, steps, k - 1);
      assert b[k] == Apply(b[k - 1], size, steps[k - 1]);
      assert steps[..k][..k - 1] == steps[..k - 1];
      hide Batch, Pending;
    }
  }

  /** In every run a message is marked exactly when it has been pasted or, as a rename that failed, given up. */
  lemma {:induction false} MarksTellHistory(b: seq<Queue>, size: int, steps: seq<Step>, k: nat, i: nat)
    requires IsRun(b, size, steps) && k < |b| && i < |b[k].rows|
    ensures b[k].rows[i].delivered <==> b[k].rows[i].message in b[k].dropped || exists a :: 0 <= a < |b[k].pasted| && b[k].rows[i].message in b[k].pasted[a]
  {
    if k > 0 {
      var s, step := b[k - 1], steps[k - 1];
      assert b[k] == Apply(s, size, step);
      RunOnce(b, size, steps, k - 1);
      OnceNumbered(s);
      hide Batch, Pending, Once;
      if i < |s.rows| {
        MarksTellHistory(b, size, steps, k - 1, i);
        var message := s.rows[i].message;
        if a :| 0 <= a < |s.pasted| && message in s.pasted[a] {
          assert b[k].pasted[a] == s.pasted[a];
        }
        if step.Pass? && b[k].pasted != s.pasted {
          assert b[k].pasted[|s.pasted|] == Batch(Pending(s.rows, step.importantOnly), size);
        }
      } else {
        NotYetThere(b, size, steps, k, i);
      }
    }
  }

  /** Only renames are given up. */
  lemma {:induction false} OnlyRenamesDropped(b: seq<Queue>, size: int, steps: seq<Step>, k: nat)
    requires IsRun(b, size, steps) && k < |b|
    ensures forall m | m in b[k].dropped :: m.isRename
  {
    if k > 0 {
      OnlyRenamesDropped(b, size, steps, k - 1);
      hide Batch, Pending;
    }
  }

  /** Row i is the first that waits. */
  predicate WaitsFirst(rows: seq<Row>, importantOnly: bool, i: nat) {
    i < |rows| && Eligible(rows[i], importantOnly) && forall j | 0 <= j < i :: !Eligible(rows[j], importantOnly)
  }

  lemma {:induction false} NonePending(rows: seq<Row>, importantOnly: bool)
    requires forall j | 0 <= j < |rows| :: !Eligible(rows[j], importantOnly)
    ensures Pending(rows, importantOnly) == []
  {
    if rows != [] {
      NonePending(rows[..|rows| - 1], importantOnly);
    }
  }

  lemma {:induction false} FirstPending(rows: seq<Row>, importantOnly: bool, i: nat)
    requires WaitsFirst(rows, importantOnly, i)
    ensures Pending(rows, importantOnly) != [] && Pending(rows, importantOnly)[0] == rows[i].message
  {
    var n := |rows| - 1;
    if i == n {
      NonePending(rows[..n], importantOnly);
    } else {
      FirstPending(rows[..n], importantOnly, i);
    }
  }

  /** A pass that fails gives up the first message waiting if and only if that is a rename, and changes nothing else. */
  lemma GivenUpTold(b: seq<Queue>, size: int, steps: seq<Step>, k: nat, i: nat)
    requires IsRun(b, size, steps) && k < |steps| && size >= 1 && steps[k].Pass? && !steps[k].success
    requires WaitsFirst(b[k].rows, steps[k].importantOnly, i)
    ensures var row := b[k].rows[i];
            b[k + 1] == if row.message.isRename
                        then Queue(b[k].rows[i := row.(delivered := true)], b[k].pasted, b[k].dropped + [row.message])
                        else b[k]
  {
    var s, q, m := b[k], Pending(b[k].rows, steps[k].importantOnly), b[k].rows[i].message;
    RunOnce(b, size, steps, k);
    FirstPending(s.rows, steps[k].importantOnly, i);
    assert b[k + 1] == Apply(s, size, steps[k]);
    BatchIsLegal(q, size);
    assert Batch(q, size)[0] == m;
    if m.isRename {
      assert Batch(q, size) == [m];
      DeliverOne(s.rows, [m], 0);
      assert Deliver(s.rows, []) == s.rows && [m][..1] == [m] && [m][..0] == [];
    }
    hide Batch, Pending;
  }

  lemma NotYetThere(b: seq<Queue>, size: int, steps: seq<Step>, k: nat, i: nat)
    requires IsRun(b, size, steps) && 0 < k < |b| && |b[k - 1].rows| <= i < |b[k].rows|
    ensures b[k].rows[i].message !in b[k].dropped && forall a | 0 <= a < |b[k].pasted| :: b[k].rows[i].message !in b[k].pasted[a]
    ensures !b[k].rows[i].delivered
  {
    RunOnce(b, size, steps, k - 1);
  }

  /** Every pasted batch is legal when the size is positive. */
  lemma {:induction false} PastedLegally(b: seq<Queue>, size: int, steps: seq<Step>, k: nat)
    requires IsRun(b, size, steps) && k < |b| && size >= 1
    ensures AllLegal(b[k].pasted, size)
  {
    if k > 0 {
      PastedLegally(b, size, steps, k - 1);
      var step := steps[k - 1];
      if step.Pass? && Pending(b[k - 1].rows, step.importantOnly) != [] {
        BatchIsLegal(Pending(b[k - 1].rows, step.importantOnly), size);
      }
      hide Batch, Pending, Legal;
    }
  }

  // ------------------------------------------------- passes until nothing waits

  function Passes(s: Queue, size: int, importantOnly: bool, n: nat): Queue
    decreases n
  {
    if n == 0 then s else Passes(Apply(s, size, Pass(importantOnly, true)), size, importantOnly, n - 1)
  }

  function Without(q: seq<Message>, batch: seq<Message>): seq<Message> {
    if q == [] then []
    else Without(q[..|q| - 1], batch) + if q[|q| - 1] in batch then [] else [q[|q| - 1]]
  }

  lemma WithoutLast(q: seq<Message>, m: Message, batch: seq<Message>)
    ensures Without(q + [m], batch) == Without(q, batch) + if m in batch then [] else [m]
    ensures Without(q + [], batch) == Without(q, batch)
  {
    assert (q + [m])[..|q|] == q && q + [] == q;
  }

  lemma {:induction false} PendingAfter(rows: seq<Row>, batch: seq<Message>, importantOnly: bool)
    ensures Pending(Deliver(rows, batch), importantOnly) == Without(Pending(rows, importantOnly), batch)
  {
    if rows != [] {
      var n := |rows| - 1;
      PendingAfter(rows[..n], batch, importantOnly);
      var after := Deliver(rows, batch);
      assert after[..n] == Deliver(rows[..n], batch);
      WithoutLast(Pending(rows[..n], importantOnly), rows[n].message, batch);
    }
  }

  /** Taking a batch off the front of distinct messages leaves the rest. */
  lemma {:induction false} WithoutFront(q: seq<Message>, n: nat)
    requires n <= |q| && Ascending(q)
    ensures Without(q, q[..n]) == q[n..]
    decreases |q|
  {
    if n == |q| {
      WithoutAll(q, q);
      assert q[..n] == q;
    } else {
      var last := |q| - 1;
      WithoutFront(q[..last], n);
      assert q[..last][..n] == q[..n];
      assert q[last] !in q[..n];
      assert q[n..] == q[..last][n..] + [q[last]];
    }
  }

  lemma {:induction false} WithoutAll(q: seq<Message>, batch: seq<Message>)
    requires forall m | m in q :: m in batch
    ensures Without(q, batch) == []
    decreases |q|
  {
    if q != [] {
      WithoutAll(q[..|q| - 1], batch);
    }
  }

  lemma PassLeaves(rows: seq<Row>, importantOnly: bool, size: int)
    requires Numbered(rows)
    ensures var q := Pending(rows, importantOnly);
            var batch := Batch(q, size);
            Pending(Deliver(rows, batch), importantOnly) == q[|batch|..] && Numbered(Deliver(rows, batch))
  {
    hide Pending, Batch, Without, From, Deliver, Numbered, Ascending;
    PendingIsFrom(rows, importantOnly);
    var q := Pending(rows, importantOnly);
    var batch := Batch(q, size);
    PendingAfter(rows, batch, importantOnly);
    NumberedStays(rows, batch);
    WithoutFront(q, |batch|);
    assert q[..|batch|] == batch;
  }

  lemma NumberedStays(rows: seq<Row>, batch: seq<Message>)
    requires Numbered(rows)
    ensures Numbered(Deliver(rows, batch))
  {
  }

  /** These batches were pasted and exactly the eligible rows marked. */
  ghost predicate Drained(s: Queue, t: Queue, importantOnly: bool, batches: seq<seq<Message>>) {
    && t.pasted == s.pasted + batches && t.dropped == s.dropped && |t.rows| == |s.rows|
    && forall i | 0 <= i < |s.rows| ::
         t.rows[i] == if Eligible(s.rows[i], importantOnly) then s.rows[i].(delivered := true) else s.rows[i]
  }

  lemma DrainedStep(s: Queue, batch: seq<Message>, t: Queue, importantOnly: bool, batches: seq<seq<Message>>)
    requires From(s.rows, batch, importantOnly) && Numbered(s.rows)
    requires Drained(Queue(Deliver(s.rows, batch), s.pasted + [batch], s.dropped), t, importantOnly, batches)
    ensures Drained(s, t, importantOnly, [batch] + batches)
  {
    assert s.pasted + [batch] + batches == s.pasted + ([batch] + batches);
  }

  lemma NothingPending(rows: seq<Row>, importantOnly: bool)
    requires Pending(rows, importantOnly) == []
    ensures forall i | 0 <= i < |rows| :: !Eligible(rows[i], importantOnly)
  {
    forall i | 0 <= i < |rows| && Eligible(rows[i], importantOnly) ensures false {
      EligibleIsPending(rows, importantOnly, i);
    }
  }

  /**
  As many successful passes as the queue has batches paste exactly those
  batches and leave nothing eligible; the important-only form marks exactly the
  important rows.
  */
  lemma {:induction false} PassesDrain(s: Queue, size: int, importantOnly: bool)
    requires size >= 1 && Numbered(s.rows)
    ensures var batches := Drain(Pending(s.rows, importantOnly), size);
            var t := Passes(s, size, importantOnly, |batches|);
            Drained(s, t, importantOnly, batches) && Pending(t.rows, importantOnly) == []
    decreases |Pending(s.rows, importantOnly)|
  {
    hide Batch, Pending, Deliver, Numbered, From;
    var q := Pending(s.rows, importantOnly);
    if q == [] {
      NothingPending(s.rows, importantOnly);
    } else {
      hide Drained;
      var batch := Batch(q, size);
      DrainStep(q, size);
      hide Drain;
      PassLeaves(s.rows, importantOnly, size);
      BatchIsFrom(s.rows, importantOnly, size);
      var next := Apply(s, size, Pass(importantOnly, true));
      PassesDrain(next, size, importantOnly);
      var batches := Drain(q[|batch|..], size);
      DrainedStep(s, batch, Passes(next, size, importantOnly, |batches|), importantOnly, batches);
    }
  }

  // -------------------------------------------------------------- the object

  /** Marking one more message of the batch. */
  lemma DeliverOne(rows: seq<Row>, batch: seq<Message>, k: nat)
    requires k < |batch| && Numbered(rows) && batch[k].id < |rows| && rows[batch[k].id].message == batch[k]
    ensures var done, id := Deliver(rows, batch[..k]), batch[k].id;
            Deliver(rows, batch[..k + 1]) == done[id := done[id].(delivered := true)]
  {
    assert batch[..k + 1] == batch[..k] + [batch[k]];
    assert forall m :: m in batch[..k + 1] <==> m in batch[..k] || m == batch[k];
  }

  /** What is known of the session before a pass. */
  datatype Hold = Hold(paused: bool, sessionKnown: bool, typing: bool, inputSaved: bool)

  /** The texts of a batch with a blank line between them. */
  function Joined(batch: seq<Message>): string {
    if batch == [] then ""
    else if |batch| == 1 then batch[0].text
    else batch[0].text + "\n\n" + Joined(batch[1..])
  }

  lemma {:induction false} JoinedLast(batch: seq<Message>, m: Message)
    requires batch != []
    ensures Joined(batch + [m]) == Joined(batch) + "\n\n" + m.text
  {
    if |batch| > 1 {
      JoinedLast(batch[1..], m);
      assert (batch + [m])[1..] == batch[1..] + [m];
    } else {
      assert (batch + [m])[1..] == [m];
    }
  }

  /** What is pasted: a lone message as it is, more with a blank line after each but the last. */
  lemma {:induction false} PayloadTold(batch: seq<Message>, m: Message)
    ensures Joined([m]) == m.text
    ensures batch != [] ==> Joined([m] + batch) == m.text + "\n\n" + Joined(batch)
  {
    assert ([m] + batch)[1..] == batch;
  }

  method JoinTexts(batch: seq<Message>) returns (text: string)
    ensures text == Joined(batch)
  {
    text := "";
    for k := 0 to |batch|
      invariant text == Joined(batch[..k])
    {
      assert batch[..k + 1] == batch[..k] + [batch[k]];
      if k == 0 {
        text := batch[k].text;
      } else {
        JoinedLast(batch[..k], batch[k]);
        text := text + "\n\n" + batch[k].text;
      }
    }
    assert batch[..|batch|] == batch;
  }

  class MessageQueue {
    const size: int
    var rows: seq<Row>
    var pasted: seq<seq<Message>>
    var dropped: seq<Message>

    ghost function View(): Queue
      reads this
    {
      Queue(rows, pasted, dropped)
    }

    constructor (size: int)
      ensures View() == EMPTY && Once(View()) && this.size == size
    {
      this.size := size;
      rows, pasted, dropped := [], [], [];
    }

    method GetPending(importantOnly: bool) returns (q: seq<Message>)
      ensures q == Pending(rows, importantOnly)
    {
      q := [];
      for k := 0 to |rows|
        invariant q == Pending(rows[..k], importantOnly)
      {
        assert rows[..k + 1][..k] == rows[..k];
        if !rows[k].delivered && (!importantOnly || rows[k].message.important) {
          q := q + [rows[k].message];
        }
      }
      assert rows[..|rows|] == rows;
    }

    method SelectBatch(q: seq<Message>) returns (batch: seq<Message>)
      ensures batch == Batch(q, size)
    {
      batch := Take(q, size);
      var index := 0;
      while index < |batch| && !batch[index].isRename
        invariant index <= |batch| && forall i | 0 <= i < index :: !batch[i].isRename
      {
        index := index + 1;
      }
      if index < |batch| {
        batch := if index == 0 then batch[..1] else batch[..index];
      }
    }

    method MarkDelivered(batch: seq<Message>, ghost importantOnly: bool)
      requires Numbered(rows) && From(rows, batch, importantOnly)
      modifies this`rows
      ensures rows == Deliver(old(rows), batch)
    {
      for k := 0 to |batch|
        invariant rows == Deliver(old(rows), batch[..k])
      {
        DeliverOne(old(rows), batch, k);
        var id := batch[k].id;
        rows := rows[id := rows[id].(delivered := true)];
      }
      assert batch[..|batch|] == batch;
    }

    /** One pass; whether the paste goes through is an input, and so is what may hold the pass back. */
    method TryDeliver(hold: Hold, importantOnly: bool, success: bool) returns (payload: Option<string>)
      requires Once(View())
      modifies this
      ensures Once(View())
      ensures var q, stops := Pending(old(rows), importantOnly), hold.paused || !hold.sessionKnown || (hold.typing && !hold.inputSaved);
              && View() == (if stops then old(View()) else Apply(old(View()), size, Pass(importantOnly, success)))
              && payload == if stops || q == [] then None else Some(Joined(Batch(q, size)))
    {
      payload := None;
      if hold.paused || !hold.sessionKnown {
        return;
      }
      StepOnce(View(), size, Pass(importantOnly, success));
      BatchIsFrom(rows, importantOnly, size);
      hide Batch, Pending, Deliver, From;
      var messages := GetPending(importantOnly);
      if messages == [] {
        return;
      }
      if hold.typing && !hold.inputSaved {
        return;
      }
      var batch := SelectBatch(messages);
      var text := JoinTexts(batch);
      payload := Some(text);
      if success {
        MarkDelivered(batch, importantOnly);
        pasted := pasted + [batch];
      } else if |batch| == 1 && batch[0].isRename {
        MarkDelivered(batch, importantOnly);
        dropped := dropped + batch;
      }
    }
  }
}
