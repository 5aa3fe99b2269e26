/**
The response relay ledger (src/response_relay.py): which inbound turn of a
session is the active one, and which assistant outputs are claimed or relayed.
*/
module RelayLedger {
  import opened Options

  datatype Key = Key(session: string, inbound: string, provider: string, message: string)

  datatype Claim = Claim(claimedAt: Option<real>, relayed: bool)

  datatype Turn = Turn(session: string, active: bool, offset: Option<nat>, hash: Option<string>)

  datatype Ledger = Ledger(turns: map<string, Turn>, outputs: map<Key, Claim>)

  const EMPTY := Ledger(map[], map[])

  datatype Step =
    | Record(session: string, inbound: string, offset: Option<nat>, hash: Option<string>)
    | TryClaim(key: Key, now: real, timeout: real)
    | MarkRelayed(key: Key)
    | Release(key: Key)

  function OrElse<T>(first: Option<T>, second: Option<T>): Option<T> {
    if first.Some? then first else second
  }

  /** Delivering a turn supersedes the session's others; a turn delivered again keeps boundaries it is not given. */
  function Recorded(turns: map<string, Turn>, session: string, inbound: string, offset: Option<nat>, hash: Option<string>): map<string, Turn> {
    var superseded := map id | id in turns ::
      if turns[id].session == session && id != inbound then turns[id].(active := false) else turns[id];
    superseded[inbound :=
      if inbound in turns then Turn(session, true, OrElse(offset, turns[inbound].offset), OrElse(hash, turns[inbound].hash))
      else Turn(session, true, offset, hash)]
  }

  predicate Claimable(outputs: map<Key, Claim>, key: Key, now: real, timeout: real) {
    key in outputs ==>
      !outputs[key].relayed && (outputs[key].claimedAt.Some? ==> outputs[key].claimedAt.value <= now - timeout)
  }

  function Apply(s: Ledger, step: Step): Ledger {
    match step
    case Record(session, inbound, offset, hash) => s.(turns := Recorded(s.turns, session, inbound, offset, hash))
    case TryClaim(key, now, timeout) =>
      if Claimable(s.outputs, key, now, timeout) then s.(outputs := s.outputs[key := Claim(Some(now), false)]) else s
    case MarkRelayed(key) => if key in s.outputs then s.(outputs := s.outputs[key := s.outputs[key].(relayed := true)]) else s
    case Release(key) =>
      if key in s.outputs && !s.outputs[key].relayed
      then s.(outputs := s.outputs[key := Claim(None, false)])
      else s
  }

  ghost predicate IsRun(b: seq<Ledger>, steps: seq<Step>) {
    |b| == |steps| + 1 && b[0] == EMPTY && forall k | 0 <= k < |steps| :: b[k + 1] == Apply(b[k], steps[k])
  }

  predicate Granted(s: Ledger, step: Step, key: Key) {
    step.TryClaim? && step.key == key && Claimable(s.outputs, key, step.now, step.timeout)
  }

  // ------------------------------------------------------------------ claims

  /** Some claim on this output was granted before position k. */
  ghost predicate EverGranted(b: seq<Ledger>, steps: seq<Step>, k: nat, key: Key)
    requires k <= |steps| < |b|
  {
    exists i :: 0 <= i < k && Granted(b[i], steps[i], key)
  }

  /** The output was marked relayed, after a claim, before position k. */
  ghost predicate WasRelayed(b: seq<Ledger>, steps: seq<Step>, k: nat, key: Key)
    requires k <= |steps| < |b|
  {
    exists m :: 0 <= m < k && steps[m] == MarkRelayed(key) && EverGranted(b, steps, m, key)
  }

  /** When the claim in force was granted; none if it has been released since. */
  ghost function InForce(b: seq<Ledger>, steps: seq<Step>, k: nat, key: Key): Option<real>
    requires k <= |steps| < |b|
    decreases k
  {
    if k == 0 then None
    else if Granted(b[k - 1], steps[k - 1], key) then Some(steps[k - 1].now)
    else if steps[k - 1] == Release(key) then None
    else InForce(b, steps, k - 1, key)
  }

  /** The rows say what the history of claims, relays and releases says. */
  lemma {:induction false} RowsTellHistory(b: seq<Ledger>, steps: seq<Step>, k: nat, key: Key)
    requires IsRun(b, steps) && k <= |steps|
    ensures key in b[k].outputs <==> EverGranted(b, steps, k, key)
    ensures key in b[k].outputs && b[k].outputs[key].relayed <==> WasRelayed(b, steps, k, key)
    ensures key in b[k].outputs && !b[k].outputs[key].relayed ==> b[k].outputs[key].claimedAt == InForce(b, steps, k, key)
  {
    if k > 0 {
      hide EverGranted, WasRelayed, Recorded;
      RowsTellHistory(b, steps, k - 1, key);
      HistoryGrows(b, steps, k, key);
      assert b[k] == Apply(b[k - 1], steps[k - 1]);
    }
  }

  lemma HistoryGrows(b: seq<Ledger>, steps: seq<Step>, k: nat, key: Key)
    requires 0 < k <= |steps| < |b|
    ensures EverGranted(b, steps, k, key) <==> EverGranted(b, steps, k - 1, key) || Granted(b[k - 1], steps[k - 1], key)
    ensures WasRelayed(b, steps, k, key) <==>
            WasRelayed(b, steps, k - 1, key) || (steps[k - 1] == MarkRelayed(key) && EverGranted(b, steps, k - 1, key))
  {
    hide Granted;
  }

  /**
  In every run a claim is granted exactly when its output has not been relayed
  and the claim in force, if it was not released, is at least the timeout old.
  */
  lemma GrantedIff(b: seq<Ledger>, steps: seq<Step>, k: nat, key: Key)
    requires IsRun(b, steps) && k < |steps| && steps[k].TryClaim? && steps[k].key == key
    ensures Granted(b[k], steps[k], key) <==>
            && !WasRelayed(b, steps, k, key)
            && (EverGranted(b, steps, k, key) && InForce(b, steps, k, key).Some? ==>
                  steps[k].now - InForce(b, steps, k, key).value >= steps[k].timeout)
  {
    RowsTellHistory(b, steps, k, key);
  }

  /** An unreleased claim is remembered, and replaced only by later ones. */
  lemma {:induction false} ClaimHeld(b: seq<Ledger>, steps: seq<Step>, i: nat, k: nat, key: Key)
    requires IsRun(b, steps) && i < k < |b| && Granted(b[i], steps[i], key)
    requires forall m | i < m < k :: steps[m] != Release(key) && (steps[m].TryClaim? ==> steps[m].timeout >= 0.0)
    ensures key in b[k].outputs && b[k].outputs[key].claimedAt.Some? && b[k].outputs[key].claimedAt.value >= steps[i].now
    decreases k
  {
    if k == i + 1 {
      assert b[k] == Apply(b[i], steps[i]);
    } else {
      ClaimHeld(b, steps, i, k - 1, key);
      assert b[k] == Apply(b[k - 1], steps[k - 1]);
    }
  }

  /** Two granted claims on one output with no release between them are at least the timeout apart, whatever the clock does. */
  lemma ClaimsApart(b: seq<Ledger>, steps: seq<Step>, i: nat, j: nat, key: Key)
    requires IsRun(b, steps) && i < j < |steps| && Granted(b[i], steps[i], key) && Granted(b[j], steps[j], key)
    requires forall m | i < m < j :: steps[m] != Release(key) && (steps[m].TryClaim? ==> steps[m].timeout >= 0.0)
    ensures steps[j].now - steps[i].now >= steps[j].timeout
  {
    ClaimHeld(b, steps, i, j, key);
  }

  // ------------------------------------------------------------------- turns

  /** The turn last delivered to a session, unless it has since been delivered to another. */
  function Latest(steps: seq<Step>, session: string): Option<string> {
    if steps == [] then None
    else
      var before, last := Latest(steps[..|steps| - 1], session), steps[|steps| - 1];
      if !last.Record? then before
      else if last.session == session then Some(last.inbound)
      else if before == Some(last.inbound) then None
      else before
  }

  predicate IsActive(s: Ledger, session: string, id: string) {
    id in s.turns && s.turns[id].session == session && s.turns[id].active
  }

  /** The active turn of a session is exactly the one last delivered to it, so there is never more than one. */
  lemma {:induction false} ActiveIsLatest(b: seq<Ledger>, steps: seq<Step>, k: nat, session: string, id: string)
    requires IsRun(b, steps) && k < |b|
    ensures IsActive(b[k], session, id) <==> Latest(steps[..k], session) == Some(id)
  {
    if k > 0 {
      ActiveIsLatest(b, steps, k - 1, session, id);
      assert b[k] == Apply(b[k - 1], steps[k - 1]);
      assert steps[..k][..k - 1] == steps[..k - 1];
    }
  }

  /** The session a turn was last delivered to; none if it never was. */
  function LastSession(steps: seq<Step>, id: string): Option<string> {
    if steps == [] then None
    else
      var last := steps[|steps| - 1];
      if last.Record? && last.inbound == id then Some(last.session) else LastSession(steps[..|steps| - 1], id)
  }

  /** The boundary offset last given for a turn. */
  function LastOffset(steps: seq<Step>, id: string): Option<nat> {
    if steps == [] then None
    else
      var last := steps[|steps| - 1];
      if last.Record? && last.inbound == id && last.offset.Some? then last.offset else LastOffset(steps[..|steps| - 1], id)
  }

  /** The text hash last given for a turn. */
  function LastHash(steps: seq<Step>, id: string): Option<string> {
    if steps == [] then None
    else
      var last := steps[|steps| - 1];
      if last.Record? && last.inbound == id && last.hash.Some? then last.hash else LastHash(steps[..|steps| - 1], id)
  }

  /** In every run a turn has the session it was last delivered to and the offset and hash last given for it. */
  lemma {:induction false} TurnsTellHistory(b: seq<Ledger>, steps: seq<Step>, k: nat, id: string)
    requires IsRun(b, steps) && k < |b|
    ensures id in b[k].turns <==> LastSession(steps[..k], id).Some?
    ensures id in b[k].turns ==>
              && Some(b[k].turns[id].session) == LastSession(steps[..k], id)
              && b[k].turns[id].offset == LastOffset(steps[..k], id) && b[k].turns[id].hash == LastHash(steps[..k], id)
    ensures id !in b[k].turns ==> LastOffset(steps[..k], id).None? && LastHash(steps[..k], id).None?
  {
    if k > 0 {
      TurnsTellHistory(b, steps, k - 1, id);
      TurnMoves(b[k - 1], steps[k - 1], id);
      assert b[k] == Apply(b[k - 1], steps[k - 1]);
      assert steps[..k][..k - 1] == steps[..k - 1];
      hide Apply;
    }
  }

  lemma TurnMoves(s: Ledger, step: Step, id: string)
    ensures var t := Apply(s, step);
            if step.Record? && step.inbound == id then
              && id in t.turns && t.turns[id].session == step.session
              && t.turns[id].offset == (if step.offset.Some? then step.offset else if id in s.turns then s.turns[id].offset else None)
              && t.turns[id].hash == if step.hash.Some? then step.hash else if id in s.turns then s.turns[id].hash else None
            else
              && (id in t.turns <==> id in s.turns)
              && (id in s.turns ==> var was, now := s.turns[id], t.turns[id];
                    now.session == was.session && now.offset == was.offset && now.hash == was.hash)
  {
  }

  // -------------------------------------------------------------- the object

  class ResponseRelayLedger {
    var turns: map<string, Turn>
    var outputs: map<Key, Claim>

    ghost function View(): Ledger
      reads this
    {
      Ledger(turns, outputs)
    }

    constructor ()
      ensures View() == EMPTY
    {
      turns, outputs := map[], map[];
    }

    method RecordInboundTurn(session: string, inbound: string, offset: Option<nat>, hash: Option<string>)
      modifies this
      ensures View() == Apply(old(View()), Record(session, inbound, offset, hash))
    {
      turns := map id | id in turns :: if turns[id].session == session && id != inbound then turns[id].(active := false) else turns[id];
      if inbound in turns {
        var row := turns[inbound];
        turns := turns[inbound := Turn(session, true, if offset.Some? then offset else row.offset, if hash.Some? then hash else row.hash)];
      } else {
        turns := turns[inbound := Turn(session, true, offset, hash)];
      }
    }

    method ClaimAssistantOutput(key: Key, now: real, timeout: real) returns (claimed: bool)
      modifies this
      ensures View() == Apply(old(View()), TryClaim(key, now, timeout))
      ensures claimed == Granted(old(View()), TryClaim(key, now, timeout), key)
    {
      if key in outputs {
        if outputs[key].relayed {
          return false;
        }
        if outputs[key].claimedAt.Some? && outputs[key].claimedAt.value > now - timeout {
          return false;
        }
        outputs := outputs[key := outputs[key].(claimedAt := Some(now))];
      } else {
        outputs := outputs[key := Claim(Some(now), false)];
      }
      return true;
    }

    method MarkAssistantOutputRelayed(key: Key)
      modifies this
      ensures View() == Apply(old(View()), MarkRelayed(key))
    {
      if key in outputs {
        outputs := outputs[key := outputs[key].(relayed := true)];
      }
    }

    method ReleaseAssistantOutputClaim(key: Key)
      modifies this
      ensures View() == Apply(old(View()), Release(key))
    {
      if key in outputs && !outputs[key].relayed {
        outputs := outputs[key := outputs[key].(claimedAt := None)];
      }
    }
  }
}
