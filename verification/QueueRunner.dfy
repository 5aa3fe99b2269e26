/** The queue runner object: in-memory jobs, their stored rows, and the methods that change both. */
module QueueRunner {
  import opened Basics
  import opened Options
  import opened QueueModel
  import opened QueueRuns
  import opened QueuePass

  class QueueRunner {
    const cfg: Config
    var jobs: seq<Job>          // the in-memory dictionary, its order in the slots
    var rows: seq<Job>          // the queue_jobs table, the place of each row in its slot
    var nextRow: nat            // the place the next row written will take
    var outbox: seq<Notice>     // messages handed to the message queue
    var clock: int              // the latest time read

    /** Between steps the table holds what memory holds, except for the order, so a restart loses nothing else. */
    ghost predicate Valid()
      reads this
    {
      && |rows| == |jobs|
      && forall i | 0 <= i < |jobs| :: rows[i] == jobs[i].(slot := rows[i].slot) && rows[i].slot < nextRow
    }

    ghost function View(): Runner
      reads this
    {
      Runner(jobs, outbox, clock)
    }

    constructor (cfg: Config)
      ensures Valid() && this.cfg == cfg && View() == Runner([], [], 0)
    {
      this.cfg := cfg;
      jobs, rows, nextRow, outbox, clock := [], [], 0, [], 0;
    }

    /** Writes one job back; replacing a row puts it last in the table. */
    method Persist(i: nat)
      requires i < |jobs| == |rows| && forall k | 0 <= k < |jobs| :: rows[k].slot < nextRow
      modifies `rows, `nextRow
      ensures |rows| == |jobs| && forall k | 0 <= k < |jobs| && k != i :: rows[k] == old(rows)[k]
      ensures rows[i] == jobs[i].(slot := rows[i].slot)
      ensures forall k | 0 <= k < |jobs| && k != i :: rows[k].slot < rows[i].slot
      ensures forall k | 0 <= k < |jobs| :: rows[k].slot < nextRow
    {
      rows := rows[i := jobs[i].(slot := nextRow)];
      nextRow := nextRow + 1;
    }

    method StartLocked(i: nat, at: int)
      requires Valid() && i < |jobs|
      modifies this
      ensures Valid() && View() == StartJob(old(View()), i, at)
    {
      var job := jobs[i].(startedAt := Some(at), state := Running);
      clock := at;
      if job.queuedNotified && !job.startedNotified {
        if job.notify {
          outbox := outbox + [StartedNotice(i)];
        }
        job := job.(startedNotified := true);
      }
      jobs := jobs[i := job];
      Persist(i);
    }

    method FinishLocked(i: nat, outcome: JobState, at: int)
      requires Valid() && i < |jobs|
      modifies this
      ensures Valid() && View() == FinishJob(old(View()), i, outcome, at)
    {
      var job := jobs[i].(state := outcome, finishedAt := Some(at));
      clock := at;
      if !job.completionNotified {
        if job.notify {
          outbox := outbox + [CompletedNotice(i)];
        }
        job := job.(completionNotified := true);
      }
      jobs := jobs[i := job];
      Persist(i);
    }

    /** Writes back the jobs whose displayed reason for waiting changed, which moves their rows and nothing else. */
    method RenewRows(reheld: seq<nat>)
      requires Valid()
      modifies `rows, `nextRow
      ensures Valid() && forall i | 0 <= i < |rows| :: i !in reheld ==> rows[i] == old(rows)[i]
    {
      for k := 0 to |reheld|
        invariant Valid() && forall i | 0 <= i < |rows| :: i !in reheld ==> rows[i] == old(rows)[i]
      {
        var i := reheld[k];
        if i < |jobs| && jobs[i].state == Pending {
          Persist(i);
        }
      }
    }

    /** One iteration of the admission loop: displace a background job, or start a job, or do nothing. */
    method Iterate(t: Tick) returns (l: Option<Label>)
      requires Valid() && clock <= t.nowD <= t.nowA <= t.at
      modifies this
      ensures Valid() && l == Choice(cfg, old(View()), t)
      ensures l.None? ==> View() == old(View())
      ensures l.Some? ==> Enabled(cfg, old(View()), l.value) && View() == Apply(cfg, old(View()), l.value)
    {
      hide Choice, Enabled, Apply, StartJob, FinishJob;
      l := Choice(cfg, Runner(jobs, outbox, clock), t);
      RenewRows(t.reheld);
      if l.Some? {
        ApplyChoice(cfg, View(), t);
        if l.value.Displace? {
          FinishLocked(l.value.job, Displaced, t.at);
        } else {
          StartLocked(l.value.job, t.at);
        }
      }
    }

    /** One admission pass: displace or start until nothing more can be done. */
    method AdmitJobs(ticks: nat -> Tick) returns (changed: bool)
      requires Valid() && Forward(ticks) && clock <= ticks(0).nowD
      modifies this
      ensures Valid()
      ensures View() == After(cfg, old(View()), Pass(cfg, old(View()), ticks, 0))
      ensures changed <==> Pass(cfg, old(View()), ticks, 0) != []
    {
      hide Choice, Enabled, Apply, Pass, Measure;
      changed := false;
      var n: nat := 0;
      ghost var s0 := View();
      ghost var done: seq<Label> := [];
      while true
        invariant Valid() && clock <= ticks(n).nowD
        invariant Runs(cfg, s0, done) && View() == After(cfg, s0, done)
        invariant Pass(cfg, s0, ticks, 0) == done + Pass(cfg, View(), ticks, n)
        invariant changed <==> done != []
        decreases Measure(jobs)
      {
        ghost var s := View();
        var choice := Iterate(ticks(n));
        if choice.None? {
          PassEmpty(cfg, s, ticks, n);
          assert done + [] == done;
          break;
        }
        PassUnfolds(cfg, s, ticks, n);
        OneMore(cfg, s0, done, choice.value);
        done := done + [choice.value];
        n, changed := n + 1, true;
      }
    }

    /** Queues a job, runs a pass, and tells the requester if the job is still waiting. */
    method CreateJob(kind: JobType, notify: bool, at: int, ticks: nat -> Tick) returns (i: nat, ghost ls: seq<Label>)
      requires Valid() && Max(clock, at) <= ticks(0).nowD && Forward(ticks)
      modifies this
      ensures Valid() && i == old(|jobs|) < |jobs|
      ensures ls == Creation(cfg, old(View()), kind, notify, at, ticks)
      ensures Runs(cfg, old(View()), ls) && View() == After(cfg, old(View()), ls)
      ensures jobs[i].state == Pending ==> jobs[i].queuedNotified
    {
      hide Enabled, Apply, Pass, Choice;
      ghost var s0 := View();
      i := Enqueue(kind, notify, at);
      ghost var s1 := View();
      var _ := AdmitJobs(ticks);
      ls := [Create(kind, notify, at)] + Pass(cfg, s1, ticks, 0);
      CreationRuns(cfg, s0, kind, notify, at, ticks);
      if jobs[i].state == Pending && !jobs[i].queuedNotified {
        WaitingIsTold(cfg, View(), i);
        OneMore(cfg, s0, ls, NotifyQueued(i));
        ls := ls + [NotifyQueued(i)];
        NotifyStillQueued(i);
      } else {
        assert ls + [] == ls;
      }
    }

    /** Adds the job to memory and table. */
    method Enqueue(kind: JobType, notify: bool, at: int) returns (i: nat)
      requires Valid()
      modifies this
      ensures Valid() && i == |old(jobs)| && clock == Max(old(clock), at) && Enabled(cfg, old(View()), Create(kind, notify, at))
      ensures View() == Apply(cfg, old(View()), Create(kind, notify, at))
    {
      i := |jobs|;
      var job := NewJob(jobs, kind, notify, at);
      jobs, rows, nextRow, clock := jobs + [job], rows + [job.(slot := nextRow)], nextRow + 1, Max(clock, at);
    }

    /** Tells the requester, once, that the job is waiting. */
    method NotifyStillQueued(i: nat)
      requires Valid() && Enabled(cfg, View(), NotifyQueued(i))
      modifies this
      ensures Valid() && View() == Apply(cfg, old(View()), NotifyQueued(i))
      ensures i < |jobs| == |old(jobs)| && jobs[i].queuedNotified
    {
      if jobs[i].notify {
        outbox := outbox + [QueuedNotice(i)];
      }
      jobs := jobs[i := jobs[i].(queuedNotified := true)];
      Persist(i);
    }

    /** Cancels a pending or running job; a terminal or unknown job is left alone. */
    method CancelJob(i: nat, at: int) returns (found: bool)
      requires Valid() && clock <= at
      modifies this
      ensures Valid() && found == (i < |old(jobs)|)
      ensures View() ==
              if !found || Terminal(old(jobs)[i].state) then old(View())
              else if old(jobs)[i].state == Pending then Apply(cfg, old(View()), CancelPending(i, at))
              else Apply(cfg, old(View()), Finish(i, Cancelled, at))
    {
      found := i < |jobs|;
      if found && !Terminal(jobs[i].state) {
        FinishLocked(i, Cancelled, at);
      }
    }

    /** The end of a process, or its timeout, reported by whoever waits for it. */
    method ProcessEnded(i: nat, outcome: JobState, at: int)
      requires Valid() && clock <= at && i < |jobs| && outcome in {Succeeded, Failed, TimedOut}
      modifies this
      ensures Valid()
      ensures View() == if old(jobs)[i].state == Running then Apply(cfg, old(View()), Finish(i, outcome, at))
                        else old(View())
    {
      if jobs[i].state != Running {
        return;
      }
      FinishLocked(i, outcome, at);
    }

    /** A restart: reload the table in its own order, then settle every job that was running and has ended meanwhile. */
    method Restart(found: nat -> Option<JobState>, at: int) returns (ghost ls: seq<Label>)
      requires Valid() && clock <= at
      requires forall i: nat :: found(i).Some? ==> found(i).value in {Succeeded, Failed, TimedOut}
      modifies this
      ensures Valid()
      ensures Runs(cfg, old(View()), ls) && View() == After(cfg, old(View()), ls)
      ensures ls != [] && ls[0] == Reload(Places(old(rows))) && forall k | 0 < k < |ls| :: ls[k].Finish?
      ensures Recovered(Relisted(old(jobs), Places(old(rows))), found, {}, jobs)
    {
      hide Enabled, Apply, Runs, After, Recovered;
      ghost var s0, slots := View(), Places(rows);
      LoadJobs();
      ReloadRuns(cfg, s0, slots);
      ghost var rest := RecoverAll(found, at);
      ls := [Reload(slots)] + rest;
      RunsAppend(cfg, s0, [Reload(slots)], rest);
    }

    /** Memory becomes what the table holds, in the table's order. */
    method LoadJobs()
      requires Valid()
      modifies `jobs
      ensures Valid() && jobs == Relisted(old(jobs), Places(rows))
    {
      jobs := rows;
    }

    /** The loop over the jobs read, in whatever order the table lists them. */
    method RecoverAll(found: nat -> Option<JobState>, at: int) returns (ghost ls: seq<Label>)
      requires Valid() && clock <= at
      requires forall i: nat :: found(i).Some? ==> found(i).value in {Succeeded, Failed, TimedOut}
      modifies this
      ensures Valid() && Runs(cfg, old(View()), ls) && View() == After(cfg, old(View()), ls)
      ensures (forall k | 0 <= k < |ls| :: ls[k].Finish?) && Recovered(old(jobs), found, {}, jobs)
    {
      hide Recovering, Recovered, Runs, After, FinishJob, All, Enabled, Apply;
      ghost var s0 := View();
      ls := [];
      NothingYet(cfg, s0, found);
      var left: set<nat> := All(|jobs|);
      while left != {}
        invariant Valid() && clock <= at && left <= All(|s0.jobs|) && Recovering(cfg, s0, found, left, ls, View())
        decreases |left|
      {
        var i: nat :| i in left;
        ghost var s := View();
        InPlace(cfg, s0, found, left, ls, s, i);
        RecoverJob(i, found(i), at);
        ls := RecoverMore(cfg, s0, found, left, ls, s, i, at);
        left := left - {i};
      }
      AllRecovered(cfg, s0, found, ls, View());
    }

    /** Ends a running job that was found ended and writes a pending one back. */
    method RecoverJob(i: nat, found: Option<JobState>, at: int)
      requires Valid() && i < |jobs| && clock <= at
      modifies this
      ensures Valid() && clock <= at
      ensures View() == if old(jobs)[i].state == Running && found.Some? then FinishJob(old(View()), i, found.value, at) else old(View())
    {
      if jobs[i].state == Running && found.Some? {
        FinishLocked(i, found.value, at);
      } else if jobs[i].state == Pending {
        Persist(i);
      }
    }
  }

  /** Every job has its place, and those not left that were running and were found ended have ended that way. */
  predicate Recovered(was: seq<Job>, found: nat -> Option<JobState>, left: set<nat>, jobs: seq<Job>) {
    && |jobs| == |was|
    && forall k | 0 <= k < |jobs| ::
         && jobs[k].slot == was[k].slot
         && jobs[k].state == if k !in left && was[k].state == Running && found(k).Some? then found(k).value else was[k].state
  }

  /** So far the labels are endings that lead from the jobs as loaded to this state. */
  ghost predicate Recovering(cfg: Config, s0: Runner, found: nat -> Option<JobState>, left: set<nat>, ls: seq<Label>, s: Runner) {
    Recovered(s0.jobs, found, left, s.jobs) && Runs(cfg, s0, ls) && s == After(cfg, s0, ls) && forall k | 0 <= k < |ls| :: ls[k].Finish?
  }

  lemma NothingYet(cfg: Config, s: Runner, found: nat -> Option<JobState>)
    ensures Recovering(cfg, s, found, All(|s.jobs|), [], s)
  {
  }

  lemma InPlace(cfg: Config, s0: Runner, found: nat -> Option<JobState>, left: set<nat>, ls: seq<Label>, s: Runner, i: nat)
    requires Recovering(cfg, s0, found, left, ls, s) && left <= All(|s0.jobs|) && i in left
    ensures i < |s.jobs|
  {
  }

  lemma AllRecovered(cfg: Config, s0: Runner, found: nat -> Option<JobState>, ls: seq<Label>, s: Runner)
    requires Recovering(cfg, s0, found, {}, ls, s)
    ensures Recovered(s0.jobs, found, {}, s.jobs) && Runs(cfg, s0, ls) && s == After(cfg, s0, ls) && forall k | 0 <= k < |ls| :: ls[k].Finish?
  {
  }

  lemma RecoverMore(cfg: Config, s0: Runner, found: nat -> Option<JobState>, left: set<nat>, ls: seq<Label>, s: Runner, i: nat, at: int)
    returns (more: seq<Label>)
    requires Recovering(cfg, s0, found, left, ls, s) && i in left && i < |s.jobs| && s.clock <= at
    requires found(i).Some? ==> found(i).value in {Succeeded, Failed, TimedOut}
    ensures var t := if s.jobs[i].state == Running && found(i).Some? then FinishJob(s, i, found(i).value, at) else s;
            Recovering(cfg, s0, found, left - {i}, more, t)
  {
    hide Runs, After;
    more := ls;
    if s.jobs[i].state == Running && found(i).Some? {
      FinishMore(cfg, s0, ls, i, found(i).value, at);
      more := ls + [Finish(i, found(i).value, at)];
    }
  }

  /** The places of the rows in the table. */
  function Places(rows: seq<Job>): seq<nat> {
    seq(|rows|, i requires 0 <= i < |rows| => rows[i].slot)
  }

  /** What creating a job does: the creation, one whole pass, and the queued notice if the job still waits. */
  ghost function Creation(cfg: Config, s: Runner, kind: JobType, notify: bool, at: int, ticks: nat -> Tick): seq<Label>
    requires Max(s.clock, at) <= ticks(0).nowD && Forward(ticks)
  {
    var create := Create(kind, notify, at);
    var created := Apply(cfg, s, create);
    var pass := Pass(cfg, created, ticks, 0);
    var i, jobs := |s.jobs|, After(cfg, created, pass).jobs;
    [create] + pass + if i < |jobs| && jobs[i].state == Pending && !jobs[i].queuedNotified then [NotifyQueued(i)] else []
  }

  lemma ReloadRuns(cfg: Config, s: Runner, slots: seq<nat>)
    requires |slots| == |s.jobs|
    ensures Runs(cfg, s, [Reload(slots)]) && After(cfg, s, [Reload(slots)]) == s.(jobs := Relisted(s.jobs, slots))
  {
    OneMore(cfg, s, [], Reload(slots));
    assert [] + [Reload(slots)] == [Reload(slots)];
  }

  lemma FinishMore(cfg: Config, s: Runner, ls: seq<Label>, i: nat, outcome: JobState, at: int)
    requires Runs(cfg, s, ls) && outcome in {Succeeded, Failed, TimedOut, Cancelled}
    requires var t := After(cfg, s, ls); t.clock <= at && i < |t.jobs| && t.jobs[i].state == Running
    ensures var more := ls + [Finish(i, outcome, at)];
            Runs(cfg, s, more) && After(cfg, s, more) == FinishJob(After(cfg, s, ls), i, outcome, at)
  {
    OneMore(cfg, s, ls, Finish(i, outcome, at));
  }

  lemma WaitingIsTold(cfg: Config, s: Runner, i: nat)
    requires i < |s.jobs| && s.jobs[i].state == Pending && !s.jobs[i].queuedNotified
    ensures Enabled(cfg, s, NotifyQueued(i))
  {
  }

  lemma CreationRuns(cfg: Config, s: Runner, kind: JobType, notify: bool, at: int, ticks: nat -> Tick)
    requires Max(s.clock, at) <= ticks(0).nowD && Forward(ticks)
    ensures Enabled(cfg, s, Create(kind, notify, at))
    ensures var created := Apply(cfg, s, Create(kind, notify, at));
            created.clock <= ticks(0).nowD &&
            var pass := Pass(cfg, created, ticks, 0);
            var ls := [Create(kind, notify, at)] + pass;
            Runs(cfg, s, ls) && After(cfg, s, ls) == After(cfg, created, pass) && |After(cfg, s, ls).jobs| > |s.jobs|
  {
    var created := Apply(cfg, s, Create(kind, notify, at));
    var pass := Pass(cfg, created, ticks, 0);
    assert |created.jobs| == |s.jobs| + 1;
    hide Pass, Choice;
    assert ([Create(kind, notify, at)] + pass)[1..] == pass;
    RunEvolves(cfg, Trace(cfg, created, pass), pass, 0, |pass|);
  }

  lemma OneMore(cfg: Config, s: Runner, ls: seq<Label>, l: Label)
    requires Runs(cfg, s, ls) && Enabled(cfg, After(cfg, s, ls), l)
    ensures Runs(cfg, s, ls + [l]) && After(cfg, s, ls + [l]) == Apply(cfg, After(cfg, s, ls), l)
  {
    var t := After(cfg, s, ls);
    var u := Apply(cfg, t, l);
    assert Runs(cfg, u, []) && After(cfg, u, []) == u && [l][1..] == [];
    assert Runs(cfg, t, [l]) && After(cfg, t, [l]) == Apply(cfg, t, l);
    RunsAppend(cfg, s, ls, [l]);
  }

  lemma PassEmpty(cfg: Config, s: Runner, ticks: nat -> Tick, n: nat)
    requires Forward(ticks) && s.clock <= ticks(n).nowD && Choice(cfg, s, ticks(n)).None?
    ensures Pass(cfg, s, ticks, n) == []
  {
  }

  /** What carrying out a choice does to the state. */
  lemma ApplyChoice(cfg: Config, s: Runner, t: Tick)
    requires s.clock <= t.nowD <= t.nowA <= t.at && Choice(cfg, s, t).Some?
    ensures Enabled(cfg, s, Choice(cfg, s, t).value)
    ensures var l := Choice(cfg, s, t).value;
            && (l.Start? || l.Displace?) && l.job < |s.jobs|
            && Apply(cfg, s, l) == if l.Start? then StartJob(s, l.job, t.at) else FinishJob(s, l.job, Displaced, t.at)
  {
  }
}
