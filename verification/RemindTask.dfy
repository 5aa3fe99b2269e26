/** The remind registration of one session as the message queue holds it, and the polling task's one pass over it. */
module RemindTask {
  import opened Basics
  import opened Options
  import opened RemindCycle

  /** The session itself, or one of the sessions it is tracked for. */
  datatype Recipient = Target | Owner(session: string)

  datatype Message = Message(to: Recipient, stage: Stage)

  /** Whom a stage tells: the owners of a tracked session, and otherwise the session itself. */
  function Told(reg: Reg, stage: Stage): set<Recipient> {
    if stage == Nudge || reg.owners == {} then {Target} else set o | o in reg.owners :: Owner(o)
  }

  /** One message of this stage to each of these recipients, in any order. */
  ghost predicate IsRound(messages: seq<Message>, stage: Stage, to: set<Recipient>) {
    && |messages| == |to| && (forall r | r in to :: Message(r, stage) in messages)
    && forall m | m in messages :: m.stage == stage && m.to in to
  }

  class RemindRegistration {
    var reg: Option<Reg>
    var row: Option<Row>
    ghost var past: seq<seq<Stage>>
    ghost var current: seq<Stage>
    var queued: seq<Message>         // messages queued, in order

    ghost function View(): Remind
      reads this
    {
      Remind(reg, row, past, current)
    }

    constructor ()
      ensures View() == START && queued == []
    {
      reg, row, past, current, queued := None, None, [], [], [];
    }

    /** Writes the named columns and no others. */
    method UpdateRow(columns: seq<Column>)
      modifies `row
      ensures row == Update(old(row), columns)
    {
      for k := 0 to |columns|
        invariant Update(row, columns[k..]) == Update(old(row), columns)
      {
        if row.Some? {
          UpdateAt(row.value, columns, k);
          row := Some(SetColumn(row.value, columns[k]));
        }
      }
      assert columns[|columns|..] == [];
    }

    method RegisterPeriodicRemind(soft: int, hard: int, owner: string, persistent: bool, merge: bool, now: real)
      modifies this
      ensures View() == Register(old(View()), soft, hard, owner, persistent, merge, now) && queued == old(queued)
    {
      assert {} + {owner} == {owner};
      past, current := past + [current], [];
      if merge && reg.Some? {
        var owners := reg.value.owners;
        if owner != "" {
          owners := owners + {owner};
        }
        reg := Some(Reg(Min(reg.value.soft, soft), Min(reg.value.hard, hard), now, owners, reg.value.persistent || persistent, false, false));
        UpdateRow([SetSoft(reg.value.soft), SetHard(reg.value.hard), SetLastReset(now), SetPersistent(reg.value.persistent),
                   SetNudged(false), SetSoftFired(false), SetOwners(owners)]);
      } else {
        var owners := if owner == "" then {} else {owner};
        reg := Some(Reg(soft, hard, now, owners, persistent, false, false));
        row := Some(Row(soft, hard, now, owners, persistent, false, false, true));
      }
    }

    method ResetRemind(force: bool, now: real)
      modifies this
      ensures View() == Reset(old(View()), force, now) && queued == old(queued)
    {
      if reg.None? || (reg.value.owners != {} && !(force || reg.value.persistent)) {
        return;
      }
      past, current := past + [current], [];
      reg := Some(reg.value.(lastReset := now, nudged := false, softFired := false));
      UpdateRow([SetLastReset(now), SetNudged(false), SetSoftFired(false)]);
    }

    /** A reply to an owner ends its tracking, refreshes a persistent one, and cancels with the last owner. */
    method ReplyTo(recipient: string, now: real)
      modifies this
      ensures View() == Reply(old(View()), recipient, now) && queued == old(queued)
    {
      if reg.None? || recipient !in reg.value.owners {
        return;
      }
      if reg.value.persistent {
        ResetRemind(true, now);
        return;
      }
      var owners := reg.value.owners - {recipient};
      assert owners == {} <==> reg.value.owners == {recipient};
      if owners != {} {
        reg := Some(reg.value.(owners := owners));
        UpdateRow([SetOwners(owners)]);
      } else {
        reg := None;
        UpdateRow([SetActive(false)]);
      }
    }

    /** One pass of the polling task; a nudge or soft message that repeats one still pending is not queued again. */
    method Poll(alive: bool, compacting: bool, now: real, resetAt: real, pending: set<Message>) returns (active: bool, ghost rounds: Rounds)
      modifies this
      ensures View() == Tick(old(View()), alive, compacting, now, resetAt) && active == reg.Some?
      ensures queued == old(queued) + rounds.nudges + rounds.softs + rounds.hards
      ensures if old(reg).Some? && reg.Some? && !compacting then AreDue(rounds, old(reg).value, now - old(reg).value.lastReset, pending)
              else rounds == Rounds([], [], [])
    {
      rounds := Rounds([], [], []);
      assert queued == queued + rounds.nudges + rounds.softs + rounds.hards;
      if reg.None? {
        return false, rounds;
      }
      if reg.value.owners != {} && !alive {
        reg := None;
        UpdateRow([SetActive(false)]);
        return false, rounds;
      }
      if compacting {
        return true, rounds;
      }
      rounds := FireStages(now, resetAt, pending);
      active := true;
    }

    /** The three thresholds in turn, each marked in memory and in its columns as it fires. */
    method FireStages(now: real, resetAt: real, pending: set<Message>) returns (ghost rounds: Rounds)
      requires reg.Some?
      modifies this
      ensures View() == FireAll(old(View()), Fired(old(reg).value, now - old(reg).value.lastReset), resetAt)
      ensures queued == old(queued) + rounds.nudges + rounds.softs + rounds.hards
      ensures AreDue(rounds, old(reg).value, now - old(reg).value.lastReset, pending)
    {
      ghost var s, before := View(), reg.value;
      var elapsed := now - reg.value.lastReset;
      ghost var nudge, soft, hard := NudgeDue(before, elapsed), SoftDue(before, elapsed), HardDue(before, elapsed);
      FireInTurn(s, nudge, soft, hard, resetAt);
      hide Stages, FireAll, IsRound, Told, NotPending;
      var nudges, softs, hards: seq<Message> := [], [], [];
      if NudgeDue(reg.value, elapsed) {
        nudges := TellAll(Told(reg.value, Nudge), Nudge, pending);
        MarkNudge(resetAt);
      }
      assert View() == if nudge then Fire(s, Nudge, resetAt) else s;
      if SoftDue(reg.value, elapsed) {
        softs := TellAll(Told(reg.value, Soft), Soft, pending);
        MarkSoft(resetAt);
      }
      if HardDue(reg.value, elapsed) {
        hards := TellAll(Told(reg.value, Hard), Hard, {});
        MarkHard(resetAt);
      }
      queued := queued + nudges + softs + hards;
      rounds := Rounds(nudges, softs, hards);
      NoRound();
    }

    method MarkNudge(ghost resetAt: real)
      requires reg.Some?
      modifies `reg, `row, `current
      ensures View() == Fire(old(View()), Nudge, resetAt)
    {
      current := current + [Nudge];
      reg := Some(reg.value.(nudged := true));
      UpdateRow([SetNudged(true)]);
    }

    method MarkSoft(ghost resetAt: real)
      requires reg.Some?
      modifies `reg, `row, `current
      ensures View() == Fire(old(View()), Soft, resetAt)
    {
      current := current + [Soft];
      reg := Some(reg.value.(softFired := true));
      UpdateRow([SetSoftFired(true)]);
    }

    method MarkHard(resetAt: real)
      requires reg.Some?
      modifies `reg, `row, `current, `past
      ensures View() == Fire(old(View()), Hard, resetAt)
    {
      past, current := past + [current + [Hard]], [];
      reg := Some(reg.value.(lastReset := resetAt, nudged := false, softFired := false));
      UpdateRow([SetLastReset(resetAt), SetNudged(false), SetSoftFired(false)]);
    }

    method Recover(alive: bool)
      modifies this
      ensures View() == Restart(old(View()), alive) && queued == old(queued)
    {
      reg := None;
      if row.Some? && row.value.active {
        if row.value.owners != {} && !alive {
          UpdateRow([SetActive(false)]);
        } else {
          var r := row.value;
          reg := Some(Reg(r.soft, r.hard, r.lastReset, r.owners, r.persistent, r.nudged, r.softFired));
        }
      }
    }
  }

  /** The messages of one poll, stage by stage. */
  datatype Rounds = Rounds(nudges: seq<Message>, softs: seq<Message>, hards: seq<Message>)

  function NotPending(to: set<Recipient>, stage: Stage, pending: set<Message>): set<Recipient> {
    set r | r in to && Message(r, stage) !in pending
  }

  /** Every stage that is due tells everyone it concerns once, except that nudge and soft do not repeat a pending message. */
  ghost predicate AreDue(rounds: Rounds, reg: Reg, elapsed: real, pending: set<Message>) {
    && IsRound(rounds.nudges, Nudge, if NudgeDue(reg, elapsed) then NotPending(Told(reg, Nudge), Nudge, pending) else {})
    && IsRound(rounds.softs, Soft, if SoftDue(reg, elapsed) then NotPending(Told(reg, Soft), Soft, pending) else {})
    && IsRound(rounds.hards, Hard, if HardDue(reg, elapsed) then Told(reg, Hard) else {})
  }

  /** The message goes to everyone the session is tracked for, or to the session itself when it is not tracked. */
  predicate Concerns(reg: Reg, m: Message) {
    match m.to
    case Target => reg.owners == {}
    case Owner(session) => session in reg.owners
  }

  /** What a poll queues: the nudge to the session, soft and hard to whom they concern, each once when due, nudge and soft not while pending. */
  lemma MessagesTold(rounds: Rounds, reg: Reg, elapsed: real, pending: set<Message>, m: Message)
    requires AreDue(rounds, reg, elapsed, pending)
    ensures m in rounds.nudges <==> NudgeDue(reg, elapsed) && m == Message(Target, Nudge) && m !in pending
    ensures m in rounds.softs <==> SoftDue(reg, elapsed) && m.stage == Soft && Concerns(reg, m) && m !in pending
    ensures m in rounds.hards <==> HardDue(reg, elapsed) && m.stage == Hard && Concerns(reg, m)
    ensures Unrepeated(rounds.nudges) && Unrepeated(rounds.softs) && Unrepeated(rounds.hards)
  {
    hide NudgeDue, SoftDue, HardDue;
    ToldConcerns(reg, m);
    OnceEach(rounds.nudges, Nudge, if NudgeDue(reg, elapsed) then NotPending(Told(reg, Nudge), Nudge, pending) else {});
    OnceEach(rounds.softs, Soft, if SoftDue(reg, elapsed) then NotPending(Told(reg, Soft), Soft, pending) else {});
    OnceEach(rounds.hards, Hard, if HardDue(reg, elapsed) then Told(reg, Hard) else {});
    hide Told, Concerns, Unrepeated;
  }

  lemma ToldConcerns(reg: Reg, m: Message)
    ensures m.to in Told(reg, m.stage) <==> if m.stage == Nudge then m.to == Target else Concerns(reg, m)
  {
  }

  predicate Unrepeated(messages: seq<Message>) {
    forall i, j | 0 <= i < j < |messages| :: messages[i] != messages[j]
  }

  lemma OnceEach(messages: seq<Message>, stage: Stage, to: set<Recipient>)
    requires IsRound(messages, stage, to)
    ensures Unrepeated(messages)
  {
    forall i, j | 0 <= i < j < |messages| ensures messages[i] != messages[j] {
      if messages[i] == messages[j] {
        var rest := messages[..j] + messages[j + 1..];
        forall r | r in to ensures Message(r, stage) in rest {
          var p :| 0 <= p < |messages| && messages[p] == Message(r, stage);
          assert p < j ==> rest[p] == messages[p];
          assert p > j ==> rest[p - 1] == messages[p];
          assert p == j ==> rest[i] == messages[p];
        }
        TooShort(rest, stage, to);
      }
    }
  }

  lemma {:induction false} TooShort(messages: seq<Message>, stage: Stage, to: set<Recipient>)
    requires forall r | r in to :: Message(r, stage) in messages
    ensures |messages| >= |to|
  {
    if to != {} {
      var r :| r in to;
      var p :| 0 <= p < |messages| && messages[p] == Message(r, stage);
      var rest := messages[..p] + messages[p + 1..];
      forall q | q in to - {r} ensures Message(q, stage) in rest {
        var i :| 0 <= i < |messages| && messages[i] == Message(q, stage);
        assert i < p ==> rest[i] == messages[i];
        assert i > p ==> rest[i - 1] == messages[i];
      }
      TooShort(rest, stage, to - {r});
    }
  }

  /** The loop over the recipients of one stage. */
  method TellAll(to: set<Recipient>, stage: Stage, pending: set<Message>) returns (messages: seq<Message>)
    ensures IsRound(messages, stage, NotPending(to, stage, pending))
  {
    messages := [];
    var left := to;
    while left != {}
      invariant left <= to && IsRound(messages, stage, NotPending(to - left, stage, pending))
      decreases |left|
    {
      var r :| r in left;
      if Message(r, stage) !in pending {
        messages := messages + [Message(r, stage)];
        assert NotPending(to - (left - {r}), stage, pending) == NotPending(to - left, stage, pending) + {r};
      } else {
        assert NotPending(to - (left - {r}), stage, pending) == NotPending(to - left, stage, pending);
      }
      left := left - {r};
    }
    assert to - left == to;
  }

  lemma NoRound()
    ensures forall stage :: IsRound([], stage, {})
    ensures forall to, stage :: NotPending(to, stage, {}) == to
  {
  }
}
