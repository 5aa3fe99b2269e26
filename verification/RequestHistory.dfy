/**
What becomes of one structured request, told by the steps of a run alone: the
row, the payload its timeout would answer with, and what its waiter gets.
*/
module RequestHistory {
  import opened Options
  import opened RequestLedger

  /** The request as it was registered. */
  datatype Asked = Asked(id: Id, session: string, policy: Payload, generation: string)

  ghost predicate RegisteredAt(b: seq<Ledger>, steps: seq<Step>, r: nat, a: Asked)
    requires |b| == |steps| + 1
  {
    r < |steps| && steps[r] == Register(a.id, a.session, a.policy) && b[r].generation == a.generation
  }

  /** What one step makes of the status of this request. */
  function Moved(a: Asked, status: Status, step: Step): Status {
    var open := status == Pending || status == Expired;
    match step
    case Register(_, _, _) => status
    case Resolve(id, payload, source, error) => if id == a.id && status == Pending then Resolved(payload, source, error) else status
    case MarkExpired(id) => if id == a.id && status == Pending then Expired else status
    case Fire(id) => if id == a.id && open then Resolved(a.policy, "policy", Some("request_expired")) else status
    case Orphan(session, reason) => if session == a.session && open then Orphaned(reason) else status
    case Restart(generation) => if generation != a.generation && open then Orphaned("server_restarted") else status
  }

  /** The status after the steps from the registration up to position k. */
  function StatusTold(a: Asked, steps: seq<Step>, r: nat, k: nat): Status
    requires r < k <= |steps|
    decreases k
  {
    if k == r + 1 then Pending else Moved(a, StatusTold(a, steps, r, k - 1), steps[k - 1])
  }

  ghost predicate NoRestart(steps: seq<Step>, m: nat, k: nat)
    requires m <= k <= |steps|
  {
    forall j | m <= j < k :: !steps[j].Restart?
  }

  // --------------------------------------------------------------- one step

  lemma RowMoves(s: Ledger, step: Step, a: Asked)
    requires At(s, a.id) && Enabled(s, step) && a.id in s.rows && s.rows[a.id].session == a.session && s.rows[a.id].generation == a.generation
    requires a.id in s.firing ==> s.firing[a.id] == a.policy
    ensures a.id in Apply(s, step).rows && Apply(s, step).rows[a.id] == Row(a.session, a.generation, Moved(a, s.rows[a.id].status, step))
  {
  }

  /** A request's timeout, waiting or firing, carries its policy, or is not there. */
  ghost predicate Carries(s: Ledger, a: Asked) {
    (a.id in s.tasks ==> s.tasks[a.id] == a.policy) && (a.id in s.firing ==> s.firing[a.id] == a.policy)
  }

  lemma CarriesOn(s: Ledger, step: Step, a: Asked)
    requires Carries(s, a) && Enabled(s, step) && a.id in s.rows
    ensures Carries(Apply(s, step), a)
  {
  }

  lemma Registers(s: Ledger, a: Asked)
    requires Inv(s) && Enabled(s, Register(a.id, a.session, a.policy)) && s.generation == a.generation
    ensures var t := Apply(s, Register(a.id, a.session, a.policy));
            && a.id in t.rows && t.rows[a.id] == Row(a.session, a.generation, Pending) && Carries(t, a)
            && a.id in t.waiting && a.id in t.tasks
  {
    assert At(s, a.id);
  }

  // ------------------------------------------------------------- the request

  /**
  In every run, restarts included, the row of a request holds the session it
  was registered for, the process that registered it, and the status its steps
  tell; whatever task it has carries the policy it was registered with.
  */
  lemma {:induction false} RowTellsHistory(b: seq<Ledger>, steps: seq<Step>, r: nat, k: nat, a: Asked)
    requires IsRun(b, steps) && r < k < |b| && RegisteredAt(b, steps, r, a)
    ensures a.id in b[k].rows && b[k].rows[a.id] == Row(a.session, a.generation, StatusTold(a, steps, r, k))
    ensures Carries(b[k], a)
    decreases k
  {
    hide Apply, Enabled, Carries, At;
    RunInv(b, steps, k - 1);
    assert Enabled(b[k - 1], steps[k - 1]) && b[k] == Apply(b[k - 1], steps[k - 1]);
    if k == r + 1 {
      Registers(b[r], a);
    } else {
      RowTellsHistory(b, steps, r, k - 1, a);
      assert At(b[k - 1], a.id);
      FiringCarries(b[k - 1], a);
      RowMoves(b[k - 1], steps[k - 1], a);
      CarriesOn(b[k - 1], steps[k - 1], a);
    }
  }

  lemma FiringCarries(s: Ledger, a: Asked)
    requires Carries(s, a)
    ensures a.id in s.firing ==> s.firing[a.id] == a.policy
  {
  }

  /** Only a registration makes a row, and no identifier is registered twice. */
  lemma {:induction false} RowsAreRegistered(b: seq<Ledger>, steps: seq<Step>, k: nat, id: Id)
    requires IsRun(b, steps) && k < |b|
    ensures id in b[k].rows <==> exists r :: 0 <= r < k && steps[r].Register? && steps[r].id == id
    ensures forall q, r | 0 <= q < r < k && steps[q].Register? && steps[r].Register? :: steps[q].id != steps[r].id
  {
    hide Apply;
    if k > 0 {
      RowsAreRegistered(b, steps, k - 1, id);
      assert Enabled(b[k - 1], steps[k - 1]) && b[k] == Apply(b[k - 1], steps[k - 1]);
      OnlyRegister(b[k - 1], steps[k - 1], id);
      if steps[k - 1].Register? {
        RowsAreRegistered(b, steps, k - 1, steps[k - 1].id);
      }
    }
  }

  lemma OnlyRegister(s: Ledger, step: Step, id: Id)
    requires Enabled(s, step)
    ensures id in Apply(s, step).rows <==> id in s.rows || (step.Register? && step.id == id)
  {
  }

  /** The process a state belongs to is the one last started. */
  lemma {:induction false} GenerationTold(b: seq<Ledger>, steps: seq<Step>, m: nat, k: nat)
    requires IsRun(b, steps) && m <= k < |b| && NoRestart(steps, m, k)
    ensures m < |steps| && steps[m].Restart? ==> m == k
    ensures b[k].generation == b[m].generation
    ensures m > 0 && steps[m - 1].Restart? ==> b[k].generation == steps[m - 1].generation
    decreases k
  {
    if m < k {
      GenerationTold(b, steps, m, k - 1);
    }
  }

  /**
  While its process lives, a waiter waits exactly as long as its request is
  open, then has the answer that closed it: the payload, or none for an orphan.
  */
  lemma WaiterTold(b: seq<Ledger>, steps: seq<Step>, r: nat, k: nat, a: Asked)
    requires IsRun(b, steps) && r < k < |b| && RegisteredAt(b, steps, r, a) && NoRestart(steps, r, k)
    ensures match StatusTold(a, steps, r, k)
            case Resolved(payload, _, _) => a.id !in b[k].waiting && a.id in b[k].settled && b[k].settled[a.id] == Some(payload)
            case Orphaned(_) => a.id !in b[k].waiting && a.id in b[k].settled && b[k].settled[a.id] == None
            case _ => a.id in b[k].waiting && a.id !in b[k].settled && a.id in b[k].tasks && b[k].tasks[a.id] == a.policy
  {
    RowTellsHistory(b, steps, r, k, a);
    RunInv(b, steps, r);
    RunInv(b, steps, k);
    assert At(b[k], a.id);
    assert b[r + 1] == Apply(b[r], steps[r]);
    Registers(b[r], a);
    WaitersAreServed(b, steps, r + 1, k, a.id);
    hide Apply, StatusTold;
  }

  /** While its process lives, the timeout of an open request answers its waiter with the policy it was registered with. */
  lemma TimeoutTold(b: seq<Ledger>, steps: seq<Step>, r: nat, k: nat, a: Asked)
    requires IsRun(b, steps) && r < k < |b| && RegisteredAt(b, steps, r, a) && NoRestart(steps, r, k)
    requires StatusTold(a, steps, r, k) == Pending
    ensures Enabled(b[k], MarkExpired(a.id))
    ensures var t := Apply(b[k], MarkExpired(a.id));
            && Enabled(t, Fire(a.id))
            && var u := Apply(t, Fire(a.id));
               && a.id in u.rows && u.rows[a.id].status == Resolved(a.policy, "policy", Some("request_expired"))
               && a.id !in u.waiting && a.id in u.settled && u.settled[a.id] == Some(a.policy)
  {
    RowTellsHistory(b, steps, r, k, a);
    WaiterTold(b, steps, r, k, a);
    RunInv(b, steps, k);
    assert At(b[k], a.id);
  }

  ghost predicate ExpiresAt(steps: seq<Step>, m: int, k: nat, id: Id)
    requires k <= |steps|
  {
    0 <= m < k && steps[m] == MarkExpired(id) && forall j | m < j < k :: steps[j] != Fire(id) && !steps[j].Restart?
  }

  /** In every run a timeout is between its two transactions exactly when it marked its request and neither resolved it nor lost its process since. */
  lemma {:induction false} FiringTold(b: seq<Ledger>, steps: seq<Step>, k: nat, id: Id)
    requires IsRun(b, steps) && k < |b|
    ensures id in b[k].firing <==> exists m :: ExpiresAt(steps, m, k, id)
  {
    hide Apply, Enabled, At;
    if k > 0 {
      var n := k - 1;
      FiringTold(b, steps, n, id);
      RunInv(b, steps, n);
      assert At(b[n], id) && Enabled(b[n], steps[n]) && b[k] == Apply(b[n], steps[n]);
      FiringMoves(b[n], steps[n], id);
      if m :| ExpiresAt(steps, m, n, id) {
        assert steps[n] != Fire(id) && !steps[n].Restart? ==> ExpiresAt(steps, m, k, id);
      }
      if m :| ExpiresAt(steps, m, k, id) {
        assert m < n ==> ExpiresAt(steps, m, n, id);
      }
      if steps[n] == MarkExpired(id) {
        assert ExpiresAt(steps, n, k, id);
      }
    }
  }

  lemma FiringMoves(s: Ledger, step: Step, id: Id)
    requires At(s, id) && Enabled(s, step)
    ensures id in Apply(s, step).firing <==> step == MarkExpired(id) || (id in s.firing && step != Fire(id) && !step.Restart?)
  {
  }

  /** What a resolve is told, and what asking afterwards answers, from the steps. */
  lemma ReplyTold(b: seq<Ledger>, steps: seq<Step>, r: nat, k: nat, a: Asked, answer: Status, allowExpired: bool)
    requires IsRun(b, steps) && r < k < |b| && RegisteredAt(b, steps, r, a) && answer.Resolved?
    ensures var told := StatusTold(a, steps, r, k);
            && ReplyTo(b[k].rows, a.id, answer, allowExpired) ==
               (if told == Pending || (told == Expired && allowExpired) then Answered(false, answer)
                else if told.Resolved? then Answered(true, told)
                else Unavailable)
            && Lookup(b[k].rows, a.id) == if told.Resolved? then Some(told.payload) else None
  {
    RowTellsHistory(b, steps, r, k, a);
  }

  /** A request never registered is not found and answers none. */
  lemma UnknownTold(b: seq<Ledger>, steps: seq<Step>, k: nat, id: Id, answer: Status, allowExpired: bool)
    requires IsRun(b, steps) && k < |b| && forall r | 0 <= r < k && steps[r].Register? :: steps[r].id != id
    ensures ReplyTo(b[k].rows, id, answer, allowExpired) == NotFound && Lookup(b[k].rows, id) == None
    ensures id !in b[k].waiting && id !in b[k].settled
  {
    RowsAreRegistered(b, steps, k, id);
    RunInv(b, steps, k);
    assert At(b[k], id);
  }

  /** Nothing about this request is different. */
  ghost predicate Untouched(s: Ledger, t: Ledger, id: Id) {
    && (id in t.rows <==> id in s.rows) && (id in s.rows ==> t.rows[id] == s.rows[id])
    && (id in t.waiting <==> id in s.waiting)
    && (id in t.tasks <==> id in s.tasks) && (id in s.tasks ==> t.tasks[id] == s.tasks[id])
    && (id in t.firing <==> id in s.firing) && (id in s.firing ==> t.firing[id] == s.firing[id])
    && (id in t.settled <==> id in s.settled) && (id in s.settled ==> t.settled[id] == s.settled[id])
  }

  /** A step that names another request touches nothing of this one. */
  lemma OthersUntouched(s: Ledger, step: Step, id: Id)
    requires Enabled(s, step) && (step.Register? || step.Resolve? || step.MarkExpired? || step.Fire?) && step.id != id
    ensures Untouched(s, Apply(s, step), id) && Apply(s, step).generation == s.generation
  {
  }

  /** Orphaning a session closes exactly the open requests registered for it, gives their waiters none, and touches no other request. */
  lemma OrphansExactly(b: seq<Ledger>, steps: seq<Step>, r: nat, k: nat, a: Asked)
    requires IsRun(b, steps) && r < k < |steps| && RegisteredAt(b, steps, r, a) && steps[k].Orphan?
    ensures var told := StatusTold(a, steps, r, k);
            if a.session == steps[k].session && (told == Pending || told == Expired)
            then && a.id in b[k + 1].rows && b[k + 1].rows[a.id].status == Orphaned(steps[k].reason)
                 && a.id !in b[k + 1].waiting && a.id !in b[k + 1].tasks
                 && (a.id in b[k].waiting ==> a.id in b[k + 1].settled && b[k + 1].settled[a.id] == None)
            else Untouched(b[k], b[k + 1], a.id)
  {
    RowTellsHistory(b, steps, r, k, a);
    RunInv(b, steps, k);
    assert At(b[k], a.id);
    assert b[k + 1] == Apply(b[k], steps[k]);
    hide StatusTold, IsRun;
  }
}
