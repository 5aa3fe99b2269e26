/**
Turn buffers of the app server client (src/codex_app_server.py): the deltas of
interleaved turns are collected by turn and reported when the turn completes.
*/
module TurnBuffers {
  datatype Event =
    | Sent(turn: string)                  // the response to a turn the client started
    | Started(turn: string)               // an empty name stands for a missing one
    | Delta(turn: string, text: string)
    | Completed(turn: string)

  datatype Report = Report(turn: string, text: string)

  datatype Client = Client(buffers: map<string, seq<string>>, current: string, reports: seq<Report>)

  const START := Client(map[], "", [])

  function Concat(texts: seq<string>): string {
    if texts == [] then "" else Concat(texts[..|texts| - 1]) + texts[|texts| - 1]
  }

  function Buffered(s: Client, turn: string): seq<string> {
    if turn in s.buffers then s.buffers[turn] else []
  }

  function Apply(s: Client, event: Event): Client {
    match event
    case Sent(turn) => if turn == "" then s else s.(current := turn, buffers := s.buffers[turn := Buffered(s, turn)])
    case Started(turn) =>
      if turn == "" then s.(current := "") else s.(current := turn, buffers := s.buffers[turn := Buffered(s, turn)])
    case Delta(turn, text) => if turn == "" then s else s.(buffers := s.buffers[turn := Buffered(s, turn) + [text]])
    case Completed(turn) =>
      if turn == "" then s.(reports := s.reports + [Report("", "")])
      else Client(s.buffers - {turn}, if s.current == turn then "" else s.current, s.reports + [Report(turn, Concat(Buffered(s, turn)))])
  }

  function After(events: seq<Event>): Client {
    if events == [] then START else Apply(After(events[..|events| - 1]), events[|events| - 1])
  }

  // --------------------------------------------------------------- reference

  /** The deltas of one turn, in order. */
  function DeltasOf(events: seq<Event>, turn: string): seq<string> {
    if events == [] then []
    else
      var last := events[|events| - 1];
      DeltasOf(events[..|events| - 1], turn) + if last.Delta? && last.turn == turn then [last.text] else []
  }

  /** The number of events up to and including the last completion of this turn. */
  function LastCompletion(events: seq<Event>, turn: string): (n: nat)
    ensures n <= |events| && (n > 0 ==> events[n - 1] == Completed(turn))
    ensures forall i | n <= i < |events| :: events[i] != Completed(turn)
  {
    if events == [] then 0
    else if events[|events| - 1] == Completed(turn) then |events|
    else
      assert forall i | 0 <= i < |events| - 1 :: events[..|events| - 1][i] == events[i];
      LastCompletion(events[..|events| - 1], turn)
  }

  /** All a turn has been reported to say. */
  function Said(reports: seq<Report>, turn: string): string {
    if reports == [] then ""
    else
      var last := reports[|reports| - 1];
      Said(reports[..|reports| - 1], turn) + if last.turn == turn then last.text else ""
  }

  // ---------------------------------------------------------------- theorems

  function Added(event: Event, turn: string): seq<string> {
    if event.Delta? && event.turn == turn then [event.text] else []
  }

  lemma Unroll(events: seq<Event>, event: Event, turn: string)
    ensures After(events + [event]) == Apply(After(events), event)
    ensures DeltasOf(events + [event], turn) ==
            DeltasOf(events, turn) + Added(event, turn)
  {
    assert (events + [event])[..|events|] == events;
  }

  lemma Tail(events: seq<Event>, event: Event, m: nat)
    requires m <= |events|
    ensures (events + [event])[m..] == events[m..] + [event]
  {
  }

  lemma LastMoves(events: seq<Event>, event: Event, turn: string)
    ensures LastCompletion(events + [event], turn) == if event == Completed(turn) then |events| + 1 else LastCompletion(events, turn)
    ensures DeltasOf([], turn) == []
  {
    assert (events + [event])[..|events|] == events;
  }

  /** At every point a turn's buffer holds exactly its deltas since it last completed. */
  lemma {:induction false} BufferHolds(events: seq<Event>, turn: string)
    requires turn != ""
    ensures Buffered(After(events), turn) == DeltasOf(events[LastCompletion(events, turn)..], turn)
  {
    if events != [] {
      hide After, Apply, Buffered, LastCompletion, DeltasOf;
      var n := |events| - 1;
      var before, event := events[..n], events[n];
      BufferHolds(before, turn);
      assert before + [event] == events;
      Unroll(before, event, turn);
      BufferMoves(After(before), event, turn);
      var m := LastCompletion(before, turn);
      LastMoves(before, event, turn);
      if event == Completed(turn) {
        assert events[|events|..] == [];
      } else {
        Tail(before, event, m);
        Unroll(before[m..], event, turn);
      }
    }
  }

  /** Whatever the interleaving, a completion reports the in-order concatenation of that turn's deltas since its last one. */
  lemma CompletionReports(events: seq<Event>, turn: string)
    requires turn != ""
    ensures var s := After(events + [Completed(turn)]);
            && s.reports == After(events).reports + [Report(turn, Concat(DeltasOf(events[LastCompletion(events, turn)..], turn)))]
            && turn !in s.buffers
  {
    Unroll(events, Completed(turn), turn);
    BufferHolds(events, turn);
  }

  lemma {:induction false} ConcatAppends(a: seq<string>, c: seq<string>)
    ensures Concat(a + c) == Concat(a) + Concat(c)
    decreases |c|
  {
    if c == [] {
      assert a + c == a;
    } else {
      var n := |c| - 1;
      ConcatAppends(a, c[..n]);
      assert (a + c)[..|a + c| - 1] == a + c[..n];
    }
  }

  lemma SaidLast(reports: seq<Report>, last: Report, turn: string)
    ensures Said(reports + [last], turn) == Said(reports, turn) + if last.turn == turn then last.text else ""
  {
    assert (reports + [last])[..|reports|] == reports;
  }

  /** Nothing is lost, repeated or given to another turn: what was reported and what is buffered make up all a turn's deltas. */
  lemma {:induction false} DeltasConserved(events: seq<Event>, turn: string)
    requires turn != ""
    ensures Said(After(events).reports, turn) + Concat(Buffered(After(events), turn)) == Concat(DeltasOf(events, turn))
  {
    hide *;
    if events == [] {
      NothingYet(turn);
    } else {
      var n := |events| - 1;
      DeltasConserved(events[..n], turn);
      ConservedStep(events[..n], events[n], turn);
      assert events[..n] + [events[n]] == events;
    }
  }

  lemma NothingYet(turn: string)
    ensures Said(After([]).reports, turn) + Concat(Buffered(After([]), turn)) == Concat(DeltasOf([], turn))
  {
    assert After([]) == START && DeltasOf([], turn) == [];
  }

  lemma ConservedStep(events: seq<Event>, event: Event, turn: string)
    requires turn != ""
    requires Said(After(events).reports, turn) + Concat(Buffered(After(events), turn)) == Concat(DeltasOf(events, turn))
    ensures var more := events + [event];
            Said(After(more).reports, turn) + Concat(Buffered(After(more), turn)) == Concat(DeltasOf(more, turn))
  {
    hide *;
    Unroll(events, event, turn);
    StepConserves(After(events), event, turn);
    ConcatAppends(DeltasOf(events, turn), Added(event, turn));
  }

  lemma StepConserves(s: Client, event: Event, turn: string)
    requires turn != ""
    ensures var t := Apply(s, event);
            Said(t.reports, turn) + Concat(Buffered(t, turn)) ==
            (Said(s.reports, turn) + Concat(Buffered(s, turn))) + Concat(Added(event, turn))
  {
    assert Concat([]) == "";
    hide Apply, Said, Concat, Buffered;
    var said, held, added := Said(s.reports, turn), Concat(Buffered(s, turn)), Concat(Added(event, turn));
    BufferMoves(s, event, turn);
    SaidMoves(s, event, turn);
    if event != Completed(turn) {
      ConcatAppends(Buffered(s, turn), Added(event, turn));
      Regroup(said, held, added);
    }
  }

  lemma Regroup(x: string, y: string, z: string)
    ensures (x + "") + (y + z) == (x + y) + z
  {
    assert x + "" == x;
  }

  lemma BufferMoves(s: Client, event: Event, turn: string)
    requires turn != ""
    ensures Buffered(Apply(s, event), turn) == if event == Completed(turn) then [] else Buffered(s, turn) + Added(event, turn)
  {
    assert Buffered(s, turn) + [] == Buffered(s, turn);
  }

  lemma SaidMoves(s: Client, event: Event, turn: string)
    requires turn != ""
    ensures Said(Apply(s, event).reports, turn) ==
            Said(s.reports, turn) + if event == Completed(turn) then Concat(Buffered(s, turn)) else ""
  {
    hide Concat;
    if event.Completed? {
      SaidLast(s.reports, Report(event.turn, if event.turn == "" then "" else Concat(Buffered(s, event.turn))), turn);
    }
    hide Said;
  }

  /** The turn the client is in: the one last sent or started, unless it has completed since or a nameless one started. */
  function CurrentTold(events: seq<Event>): string {
    if events == [] then ""
    else
      var before := CurrentTold(events[..|events| - 1]);
      match events[|events| - 1]
      case Sent(turn) => if turn != "" then turn else before
      case Started(turn) => turn
      case Delta(_, _) => before
      case Completed(turn) => if turn == before then "" else before
  }

  lemma {:induction false} CurrentIsTold(events: seq<Event>)
    ensures After(events).current == CurrentTold(events)
  {
    if events != [] {
      CurrentIsTold(events[..|events| - 1]);
    }
  }

  /** A turn has a buffer from its first mention on until it completes. */
  function Mentioned(events: seq<Event>, turn: string): bool {
    if events == [] then false
    else
      var last := events[|events| - 1];
      if last.turn != turn then Mentioned(events[..|events| - 1], turn) else !last.Completed?
  }

  lemma {:induction false} BuffersAreMentioned(events: seq<Event>, turn: string)
    ensures turn in After(events).buffers <==> turn != "" && Mentioned(events, turn)
  {
    if events != [] {
      BuffersAreMentioned(events[..|events| - 1], turn);
    }
  }

  function Completions(events: seq<Event>): seq<string> {
    if events == [] then []
    else
      var last := events[|events| - 1];
      Completions(events[..|events| - 1]) + if last.Completed? then [last.turn] else []
  }

  /** One report for each completion, in order and under its name; a nameless one says nothing. */
  lemma {:induction false} ReportsAreCompletions(events: seq<Event>)
    ensures var reports := After(events).reports;
            && |reports| == |Completions(events)|
            && forall i | 0 <= i < |reports| :: reports[i].turn == Completions(events)[i] && (reports[i].turn == "" ==> reports[i].text == "")
  {
    if events != [] {
      ReportsAreCompletions(events[..|events| - 1]);
    }
  }

  // -------------------------------------------------------------- the object

  class CodexAppServerSession {
    var buffers: map<string, seq<string>>
    var current: string
    var reports: seq<Report>

    ghost function View(): Client
      reads this
    {
      Client(buffers, current, reports)
    }

    constructor ()
      ensures View() == START
    {
      buffers, current, reports := map[], "", [];
    }

    method HandleNotification(event: Event)
      requires !event.Sent?
      modifies this
      ensures View() == Apply(old(View()), event)
    {
      match event
      case Started(turn) =>
        current := turn;
        if turn != "" && turn !in buffers {
          buffers := buffers[turn := []];
        }
      case Delta(turn, text) =>
        if turn != "" {
          buffers := buffers[turn := (if turn in buffers then buffers[turn] else []) + [text]];
        }
      case Completed(turn) =>
        var text := "";
        if turn != "" {
          text := Concat(if turn in buffers then buffers[turn] else []);
          buffers := buffers - {turn};
          if current == turn {
            current := "";
          }
        }
        reports := reports + [Report(turn, text)];
    }

    method TurnSent(turn: string) returns (ok: bool)
      modifies this
      ensures View() == Apply(old(View()), Sent(turn)) && ok == (turn != "")
    {
      ok := turn != "";
      if ok {
        current := turn;
        if turn !in buffers {
          buffers := buffers[turn := []];
        }
      }
    }
  }
}
