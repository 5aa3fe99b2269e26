/**
The token gate on the pruned table, exactly: when it decides like the full
history, and when the next admission keeps the window.  Admission stamps are
read under the gate's lock and taken to rise.
*/
module PolicyWindow {
  import opened Basics
  import opened Options
  import opened TopRows
  import opened PolicyGate

  // ------------------------------------------------------------- later rows

  function Later(kept: set<nat>, i: nat): set<nat> {
    set c | c in kept && i < c
  }

  /** A row is among the first w exactly when fewer than w rows are later. */
  lemma TopIsLate(kept: set<nat>, keys: seq<int>, w: nat, top: set<nat>, i: nat)
    requires Ascending(keys) && Within(kept, keys) && IsTop(top, kept, keys, w) && i in kept
    ensures i in top <==> |Later(kept, i)| < w
  {
    if i in top {
      assert Later(kept, i) + {i} <= top;
      SubsetSize(Later(kept, i) + {i}, top);
    } else {
      assert top <= Later(kept, i);
      SubsetSize(top, Later(kept, i));
      SubsetSize(top + {i}, kept);
    }
  }

  /** A new last row comes in and at most one row goes: no row has fewer later rows than before. */
  lemma LaterStays(kept: set<nat>, more: set<nat>, n: nat, i: nat)
    requires (forall c | c in kept :: c < n) && more <= kept + {n} && |more| >= |kept| && i in kept
    ensures |Later(more, i)| >= |Later(kept, i)|
  {
    var all := kept + {n};
    var gone := all - more;
    assert all == more + gone && |all| == |kept| + 1;
    assert Later(kept, i) + {n} <= Later(more, i) + gone;
    SubsetSize(Later(kept, i) + {n}, Later(more, i) + gone);
  }

  // -------------------------------------------------------------- invariant

  /** Between a row the table holds and a repetition of its token there are w later rows the table holds. */
  ghost predicate Recurs(t: Table, w: nat) {
    forall i, j | i in t.kept && i < j < |t.log| && t.log[i].token == t.log[j].token :: |Later(t.kept, i)| >= w
  }

  lemma AdmitRecurs(p: Policy, t: Table, call: Call)
    requires Inv(p, t) && p.Tokens() && Recurs(t, p.Window()) && Ascending(Stamps(t.log, AdmittedAt))
    requires Enabled(p, t, call) && Decide(p, t, call.recent, call.r).Admitted?
    ensures Recurs(Table(t.log + [AdmittedRun(call.r)], call.kept), p.Window())
  {
    var n, log := |t.log|, t.log + [AdmittedRun(call.r)];
    Unseen(p, t, call);
    PruneKeeps(p, t, call);
    hide IsTop, Inv, Enabled, Decide, Ascending, Later;
    forall i, j | i in call.kept && i < j < |log| && log[i].token == log[j].token
      ensures |Later(call.kept, i)| >= p.Window()
    {
      LaterStays(t.kept, call.kept, n, i);
    }
  }

  /** The token of an admission is in no row that has fewer than a window of later rows. */
  lemma Unseen(p: Policy, t: Table, call: Call)
    requires Inv(p, t) && p.Tokens() && Ascending(Stamps(t.log, AdmittedAt))
    requires Enabled(p, t, call) && Decide(p, t, call.recent, call.r).Admitted?
    ensures forall i | i in t.kept :: i < |t.log| && (t.log[i].token == call.r.token ==> |Later(t.kept, i)| >= p.Window())
  {
    AdmittedIsClear(p, t, call);
    TopCount(p, t);
    hide Inv, Decide, Later, IsTop, Ascending;
    forall i | i in t.kept && t.log[i].token == call.r.token ensures |Later(t.kept, i)| >= p.Window() {
      TopIsLate(t.kept, Stamps(t.log, AdmittedAt), p.Window(), call.recent, i);
    }
  }

  lemma PruneKeeps(p: Policy, t: Table, call: Call)
    requires Inv(p, t) && Enabled(p, t, call) && Decide(p, t, call.recent, call.r).Admitted?
    ensures call.kept <= t.kept + {|t.log|} && |call.kept| >= |t.kept| && forall c | c in t.kept :: c < |t.log|
  {
    TopCount(p, t);
    hide Decide, Answers;
    assert |t.kept + {|t.log|}| == |t.kept| + 1;
  }

  lemma {:induction false} RunRecurs(p: Policy, b: seq<Table>, calls: seq<Call>, k: nat)
    requires IsRun(p, b, calls) && k < |b| && p.Tokens() && Ascending(Stamps(b[k].log, AdmittedAt))
    ensures Recurs(b[k], p.Window())
  {
    hide Inv, Decide, Recurs, IsTop;
    if k > 0 {
      var t, call := b[k - 1], calls[k - 1];
      assert Enabled(p, t, call) && b[k] == Table(NewLog(p, t, call), call.kept);
      RunInv(p, b, calls, k - 1);
      if Decide(p, t, call.recent, call.r).Admitted? {
        StampsGrow(t.log, AdmittedRun(call.r), AdmittedAt);
        PrefixAscends(Stamps(t.log, AdmittedAt), call.r.admittedAt);
        RunRecurs(p, b, calls, k - 1);
        AdmitRecurs(p, t, call);
      } else {
        HeldKeeps(p, t, call);
        RunRecurs(p, b, calls, k - 1);
      }
    } else {
      NothingRecurs(p.Window());
    }
  }

  lemma PrefixAscends(keys: seq<int>, key: int)
    requires Ascending(keys + [key])
    ensures Ascending(keys)
  {
    assert forall i | 0 <= i < |keys| :: (keys + [key])[i] == keys[i];
  }

  lemma HeldKeeps(p: Policy, t: Table, call: Call)
    requires Inv(p, t) && Enabled(p, t, call) && !Decide(p, t, call.recent, call.r).Admitted?
    ensures call.kept == t.kept
  {
    TopOfFew(call.kept, t.kept, Stamps(t.log, RequestedAt), p.AdmittedKeep());
  }

  lemma NothingRecurs(w: nat)
    ensures Recurs(Table([], {}), w)
  {
  }

  // --------------------------------------------------------------- theorems

  /** Whatever the queries return, the table and the full log decide every request alike. */
  ghost predicate DecidesAlike(p: Policy, t: Table) {
    forall r, some, full | Answers(p, t, some) && Answers(p, Full(t), full) :: Decide(p, t, some, r) == Decide(p, Full(t), full, r)
  }

  /**
  Over every run in the token modes with rising admission stamps: the pruned
  table decides every request like the full log if and only if it holds the
  last `token_window` admissions.
  */
  lemma DecidesAlikeIff(p: Policy, b: seq<Table>, calls: seq<Call>, k: nat)
    requires IsRun(p, b, calls) && k < |b| && p.Tokens() && Ascending(Stamps(b[k].log, AdmittedAt))
    ensures DecidesAlike(p, b[k]) <==> HoldsWindow(p, b[k])
  {
    var t := b[k];
    RunInv(p, b, calls, k);
    hide Inv, HoldsWindow, Answers, Decide, Recurs;
    if HoldsWindow(p, t) {
      forall r, some, full | Answers(p, t, some) && Answers(p, Full(t), full)
        ensures Decide(p, t, some, r) == Decide(p, Full(t), full, r)
      {
        FullIsLast(p, t, full);
        RecentIsLast(p, t, some);
        PruningIsInvisible(p, b, calls, k, some, r) by { ShowsIffHolds(p, t); }
      }
    } else {
      if p.Times() {
        TimesAreClocked(p, t);
        assert false;
      }
      RunRecurs(p, b, calls, k);
      var r, some, full := DecidedOtherwise(p, t);
    }
  }

  lemma ShowsIffHolds(p: Policy, t: Table)
    requires Ascending(Stamps(t.log, AdmittedAt))
    ensures ShowsWindow(p, t) <==> HoldsWindow(p, t)
  {
    WindowIsLast(p, t);
    hide Shows, LastOnes, Ascending, HoldsWindow;
    RisingShowsIff(t.kept, Stamps(t.log, AdmittedAt), p.Window());
  }

  lemma FullIsLast(p: Policy, t: Table, full: set<nat>)
    requires Inv(p, t) && p.Tokens() && Ascending(Stamps(t.log, AdmittedAt)) && Answers(p, Full(t), full)
    ensures full == LastOnes(|t.log|, p.Window())
  {
    AllWithToken(t);
    hide IsTop, All, LastOnes, Ascending, WithToken;
    TopIsLast(full, Stamps(t.log, AdmittedAt), p.Window());
  }

  /** A table without the last window: its answer, which differs from the last window in some row on each side. */
  lemma Shifted(p: Policy, t: Table) returns (some: set<nat>, extra: nat, missed: nat)
    requires Inv(p, t) && p.Tokens() && Ascending(Stamps(t.log, AdmittedAt)) && Recurs(t, p.Window()) && !HoldsWindow(p, t)
    ensures Answers(p, t, some) && extra in some && missed !in some
    ensures var last := LastOnes(|t.log|, p.Window());
            extra !in last && missed in last && extra < missed < |t.log|
    ensures forall i | i in some :: i < |t.log| && forall j | i < j < |t.log| :: t.log[i].token != t.log[j].token
  {
    var keys, last := Stamps(t.log, AdmittedAt), LastOnes(|t.log|, p.Window());
    TopCount(p, t);
    some := TopExists(t.kept, keys, p.Window());
    CountLast(|t.log|, p.Window());
    missed :| missed in last && missed !in t.kept;
    if some <= last {
      Counted(p, t, some);
      SubsetSize(some, last);
    }
    extra :| extra in some && extra !in last;
    forall i, j | i in some && i < j < |t.log| ensures t.log[i].token != t.log[j].token {
      TopIsLate(t.kept, keys, p.Window(), some, i);
    }
  }

  lemma Counted(p: Policy, t: Table, some: set<nat>)
    requires Inv(p, t) && |some| == Min(p.Window(), |t.kept|)
    ensures |some| == Min(p.Window(), |t.log|)
  {
    TopCount(p, t);
    SubsetSize(t.kept, All(|t.log|));
  }

  function Asking(token: Option<string>): Request { Request(token, 0, true, 0) }

  lemma DecidedOtherwise(p: Policy, t: Table) returns (r: Request, some: set<nat>, full: set<nat>)
    requires Inv(p, t) && p.mode == TokenGate && Ascending(Stamps(t.log, AdmittedAt)) && Recurs(t, p.Window()) && !HoldsWindow(p, t)
    ensures Answers(p, t, some) && Answers(p, Full(t), full) && Decide(p, t, some, r) != Decide(p, Full(t), full, r)
  {
    var extra, missed;
    some, extra, missed := Shifted(p, t);
    TopCount(p, t);
    full := FullAnswer(p, t);
    r := Asking(t.log[extra].token);
    assert TokenSeen(t.log, some, r.token);
    assert !TokenSeen(t.log, full, r.token);
  }

  lemma FullAnswer(p: Policy, t: Table) returns (full: set<nat>)
    requires Inv(p, t) && p.Tokens() && Ascending(Stamps(t.log, AdmittedAt))
    ensures Answers(p, Full(t), full) && full == LastOnes(|t.log|, p.Window())
  {
    AllWithToken(t);
    full := TopExists(All(|t.log|), Stamps(t.log, AdmittedAt), p.Window());
    FullIsLast(p, t, full);
  }

  /**
  Over every run in the token modes with rising admission stamps and the
  window kept so far: every next call keeps it if and only if the table holds
  the last `token_window` admissions.
  */
  lemma NextIsSpacedIff(p: Policy, b: seq<Table>, calls: seq<Call>, k: nat)
    requires IsRun(p, b, calls) && k < |b| && p.Tokens() && Ascending(Stamps(b[k].log, AdmittedAt)) && TokensSpaced(p, b[k].log)
    ensures (forall call | Enabled(p, b[k], call) :: TokensSpaced(p, NewLog(p, b[k], call))) <==> HoldsWindow(p, b[k])
  {
    var t := b[k];
    RunInv(p, b, calls, k);
    hide Inv, HoldsWindow, Recurs, TokensSpaced, Enabled;
    if HoldsWindow(p, t) {
      forall call | Enabled(p, t, call) ensures TokensSpaced(p, NewLog(p, t, call)) {
        SpacedCall(p, t, call);
      }
    } else {
      if p.Times() {
        TimesAreClocked(p, t);
        assert false;
      }
      RunRecurs(p, b, calls, k);
      var call := RepeatingCall(p, t);
    }
  }

  lemma SpacedCall(p: Policy, t: Table, call: Call)
    requires Inv(p, t) && p.Tokens() && Ascending(Stamps(t.log, AdmittedAt)) && HoldsWindow(p, t) && TokensSpaced(p, t.log)
    requires Enabled(p, t, call)
    ensures TokensSpaced(p, NewLog(p, t, call))
  {
    hide Inv, HoldsWindow, Ascending, IsTop, LastOnes;
    if Decide(p, t, call.recent, call.r).Admitted? {
      AdmittedIsClear(p, t, call);
      RecentIsLast(p, t, call.recent);
      SeenIsLast(t.log, p.Window(), call.r.token);
    }
  }

  /** A call with the token of the missed row is admitted. */
  lemma RepeatingCall(p: Policy, t: Table) returns (call: Call)
    requires Inv(p, t) && p.mode == TokenGate && Ascending(Stamps(t.log, AdmittedAt)) && Recurs(t, p.Window())
    requires !HoldsWindow(p, t) && TokensSpaced(p, t.log)
    ensures Enabled(p, t, call) && !TokensSpaced(p, NewLog(p, t, call))
  {
    var some, extra, missed := Shifted(p, t);
    TopCount(p, t);
    var r := Asking(t.log[missed].token);
    MissedIsUnseen(p, t, some, missed);
    var log := t.log + [AdmittedRun(r)];
    assert Within(t.kept + {|t.log|}, Stamps(log, RequestedAt));
    var kept := TopExists(t.kept + {|t.log|}, Stamps(log, RequestedAt), p.AdmittedKeep());
    call := Call(r, some, kept);
    hide IsTop;
    assert NewLog(p, t, call) == log;
    assert log[missed].token == log[|t.log|].token;
  }

  lemma MissedIsUnseen(p: Policy, t: Table, some: set<nat>, missed: nat)
    requires TokensSpaced(p, t.log) && p.Tokens() && HaveTokens(p, t.log) && missed in LastOnes(|t.log|, p.Window()) && missed !in some
    requires forall i | i in some :: i < |t.log| && forall j | i < j < |t.log| :: t.log[i].token != t.log[j].token
    ensures !TokenSeen(t.log, some, t.log[missed].token)
  {
  }
}
