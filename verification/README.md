# Session manager: protocols and their proofs

The session manager runs coding agents in terminals, queues work and messages for
them, relays their output and remembers all of it across restarts. This project
models the parts of it that are protocols and proves what they promise over every
run.

Each protocol is a value (the state), a datatype of steps, and a function that says
what a step does. A run is a sequence of states in which every step is one the code
could take, restarts and lost connections included. Beside it stands a class with
the program's own fields and methods; each method is proved to make exactly the
step the runs are about. Clocks, memory readings, process exits, network loss,
paste results and decoded JSON are inputs, so every theorem holds whatever they
turn out to be.

The `…History` modules, and `PolicyOutcomes`, `EventRetention`, `EventPages` and `TailFrames`, say the same
states again without the step functions: what a job, request, notification or page holds is
told by the steps of the run that named it, in the numbers and names they carried.

| files | protocol |
|---|---|
| `QueueModel`, `QueueRuns`, `QueueHistory`, `QueueTie`, `QueuePass`, `QueueRunner` | the job queue: admission, displacement, turns, notices |
| `TopRows`, `PolicyGate`, `PolicyWindow`, `PolicyOutcomes` | the policy gate in front of the queue and its pruned history |
| `NodeAgent`, `TailFrames`, `ProviderCursors`, `Ingestion`, `IngestionRepair` | tailing an event file on a node and applying it once on the primary, through lost connections and failures to persist |
| `EventRows`, `EventPrune`, `EventRetention`, `EventReader`, `EventPages`, `EventStore` | the event log: append, retention, paging |
| `ReviewRequests`, `ReviewHistory` | durable review requests |
| `RequestLedger`, `RequestHistory` | structured requests, their waiters and their expiry |
| `StopNotify`, `StopHistory` | stop notifications |
| `RemindCycle`, `RemindHistory`, `RemindTask` | periodic reminders |
| `BatchDelivery` | non-urgent message delivery |
| `TranscriptRelay`, `RelayLedger` | reading transcripts and relaying answers once |
| `TurnBuffers` | demultiplexing turn deltas |

`dafny verify dfyconfig.toml` checks the whole project.

## What turned out to need a condition

Some promises hold only under a condition. Each has a lemma with the exact condition,
and where one instance makes the point, a concrete one.

- Displacing background jobs lets a waiting perf job start in the same pass if and only
  if the jobs that are not background leave a slot (`QueuePass.DisplacingPaysIff`).
- When a perf job ends with tests waiting, perf is held back from then on if and only if that
  job, or a perf job that finished at the same instant, is listed before every tests job that
  did (`QueueRuns.TurnTakenIff`). A stamp of its own always wins (`QueueRuns.NewStampWins`);
  `QueueTie.TurnLostOnTie` is a run from an empty queue that loses the turn.
- With the time gate on, pruning the policy history never shows. With the token gate alone the
  pruned table answers the token query like the full history if and only if every admission it
  dropped has a window of later ones (`PolicyGate.SameAnswersIff`), and with rising admission
  stamps it decides every request alike, and keeps the window at every next admission, if and
  only if it holds the last window of admissions (`PolicyWindow.DecidesAlikeIff`,
  `PolicyWindow.NextIsSpacedIff`). Rows are pruned by a stamp that requests read before they
  wait for the lock, so this can fail: `PolicyGate.TokenReadmitted` admits one token twice.
  `PolicyGate.InvisibleIff` says for which stamps no prune can lose a row of the window.
- A boundary between two chunks given to `_process_chunk` is invisible in its lines if and only
  if the text before it is empty, does not end in a line break, ends in a line feed, or ends in
  a carriage return that the rest completes; a list of chunks is invisible if and only if every
  boundary in it is
  (`NodeAgent.BoundaryIsInvisibleIff`, `NodeAgent.ChunksInvisibleIff`). Its only caller reads
  in text mode, which turns carriage returns into line feeds, so of the visible boundaries only
  those after other breaks, such as a form feed, are left there.
- One connection to a fresh primary applies a whole file if and only if the file is orderly
  (`Ingestion.FreshDrainIff`).
- What is applied stays a prefix of the file, and one undisturbed connection completes it, if
  and only if no event that failed to persist when due was overtaken by another one
  (`Ingestion.AppliedIsPrefix`, `Ingestion.OneConnectionSuffices`). An overtaken event is not
  always lost: as many undisturbed connections as the file has lines decide, a line missing then
  stays missing and is behind the cursor in its epoch (`IngestionRepair.SkippedForGoodIff`), and
  when the numbers of each epoch keep rising two connections decide, by a condition on the
  state before them (`IngestionRepair.TwoConnectionsDecide`). `IngestionRepair.OvertakenRun`
  and `IngestionRepair.SkippedUntilNextEpoch` show both outcomes.
- A review request that is active in the table can still complete if and only if its task has a
  match or no failing replacement retired it in memory since the last restart
  (`ReviewRequests.CompletableIff`); until then it is handed out and cannot be cancelled
  (`ReviewRequests.StuckIsHandedOut`, `ReviewRequests.StrandedRun`).
- Each reminder stage fires at most once in a cycle as long as no process dies between queueing
  it and marking it; after a crash within a poll the next poll leaves every cycle in turn if and
  only if it did not, and otherwise the stage is in its cycle twice (`RemindCycle.TornIff`,
  `RemindCycle.TornFiresTwice`).
- A restarted ledger has a future for every open request if and only if no open row carries
  the generation of the new process (`RequestLedger.RestartAgreesIff`).
- Some poll would close a reminder cycle with hard and without soft if and only if the cycle
  holds no soft yet and one registration in force asks for hard before every registration in
  force asks for soft (`RemindCycle.HardWithoutSoftIff`). Registration does not check this.
- Every pass makes progress if and only if the batch size is positive
  (`BatchDelivery.ProgressIff`). The configuration does not check this.
- The byte offset reported for a transcript message is the true start of its line if and only
  if no earlier line of the scan ends in a carriage return and a line feed
  (`TranscriptRelay.OffsetIsTrueIff`).

## Model

| member | source | states |
|---|---|---|
| QueueModel.FirstMin | src/queue_runner.py:956-958 | the job picked is one that qualifies, has the least key, and comes first among equals; none is picked only if none qualifies |
| QueueRuns.RunEvolves | src/queue_runner.py:474-526 | over every run, restarts included, no job is lost, a job never leaves a terminal state or changes after it, never returns from running to pending, and the outbox only grows |
| QueueRuns.RunMoves | src/queue_runner.py:829-840 | in one step a pending job can only start or be cancelled and a running job can only end |
| QueueRuns.RunNotices | src/queue_runner.py:1010-1033 | queued, started and completion notices are each sent at most once, in that order, a started one only after a queued one, and they agree with the stored stamps |
| QueueRuns.RunCaps | src/queue_runner.py:917-958 | once within the total cap and the caps per type, a run never exceeds them |
| QueueRuns.BlockedIsTestsOwed | src/queue_runner.py:968-981 | the block on perf holds exactly when tests are active and the latest perf or tests job to finish was perf |
| QueueRuns.NextIsFair | src/queue_runner.py:917-941 | the job chosen is the oldest of its type, the first listed of equals, with room, memory and no hold, and every more urgent waiting type held back; none is chosen only if no pending job may start; memory, caps and cooldown are said in numbers |
| QueueRuns.RunStartsFairly | src/queue_runner.py:884-898 | every start of every run is such a fair start |
| QueueHistory.JobsAreCreated | src/queue_runner.py:599-601 | in every run there are as many jobs more than at the start as there were creations |
| QueueHistory.CreatedAsAsked | src/queue_runner.py:579-601 | a job has, in every later state, the type, the wish to be told and the stamp its creation was asked for with |
| QueueHistory.StartsOldest | src/queue_runner.py:956-958 | a job that starts was asked for no later than any job of its type still waiting, and first among equal stamps unless a restart came between |
| QueueHistory.JobsTellHistory | src/queue_runner.py:1010-1033 | in every run from an empty queue a job's state, start and finish stamps and notice flags are those of the start, end and queued notice that named it, and of no others |
| QueueHistory.MemoryWasFree | src/queue_runner.py:983-987 | starts and displacements are made on a reading of at least the configured free memory, if one is configured and there is a reading |
| QueueHistory.DisplacedIsOldest | src/queue_runner.py:900-915 | a displaced job is a running background job that started no later than any other, displaced for a waiting perf job with every slot taken and nothing else holding it |
| QueueHistory.PlacesHold | src/queue_runner.py:600 | without a restart jobs are listed in the order they were created |
| QueueHistory.PlacesAfterRestart | src/queue_runner.py:468-472 | after a restart every job has the place of its row and jobs made since come after all of them |
| QueueRuns.TurnTakenIff | src/queue_runner.py:968-981 | when a perf job ends with tests active, perf is blocked afterwards if and only if a perf job of that instant is listed before every tests job of it |
| QueueRuns.PerfWaitsForTests | src/queue_runner.py:924-940 | after a perf job that wins its instant ends with tests active, some tests job ends before the next perf start; only a turn won against a tests job of the same instant needs that no restart comes between |
| QueueRuns.NewStampWins | src/queue_runner.py:968-981 | a finish stamp later than all earlier ones always wins and has no tests job beside it |
| QueueTie.TurnLostOnTie | src/queue_runner.py:968-981 | a run from the empty queue in which a tests job listed first ties with a perf job and perf starts again with tests waiting and none ended in between |
| QueueRuns.PerfKeepsCooldown | src/queue_runner.py:960-966 | every perf start is at least the cooldown after every earlier perf or tests ending |
| QueuePass.ChoiceLowersMeasure | src/queue_runner.py:884-915 | every iteration that changes anything is a legal step and lowers twice the pending plus the running jobs by one |
| QueuePass.PassIsShort | src/queue_runner.py:884-898 | a pass makes no more changes than that measure, so it ends |
| QueuePass.PassLeavesNothingStartable | src/queue_runner.py:884-898 | when a pass ends, every pending job faces a full machine, short memory, or a hold on its type |
| QueuePass.DisplacementKeepsReady | src/queue_runner.py:900-915 | displacing ends a background job, frees one slot and leaves the waiting perf job as ready as before |
| QueuePass.DisplacingPaysIff | src/queue_runner.py:900-941 | with a ready perf job, the pass starts perf if and only if the non-background running jobs are fewer than the total cap |
| QueuePass.PassDisplacesForPerf | src/queue_runner.py:884-941 | from within caps every displacement is of a background job and followed at once by a perf start, and there are at most as many as free perf slots |
| QueueRunner.QueueRunner.Persist | src/queue_runner.py:474-512 | writing a job back makes its row equal to memory and the last of the table, and touches no other row |
| QueueRunner.QueueRunner.StartLocked | src/queue_runner.py:1010-1033 | starting keeps memory and table equal and tells the session exactly when it was told the job was queued |
| QueueRunner.QueueRunner.FinishLocked | src/queue_runner.py:1147-1162 | finishing keeps memory and table equal and sends the completion notice unless already sent |
| QueueRunner.QueueRunner.RenewRows | src/queue_runner.py:925-947 | rewriting displayed reasons moves rows of those jobs and changes nothing else |
| QueueRunner.QueueRunner.Iterate | src/queue_runner.py:884-915 | one iteration makes the one legal displacement or start, or changes nothing |
| QueueRunner.QueueRunner.AdmitJobs | src/queue_runner.py:884-898 | the loop ends in the state of the whole pass and reports whether it changed anything |
| QueueRunner.QueueRunner.Enqueue | src/queue_runner.py:599-601 | a new job is pending and last, in memory and in the table, whenever its stamp was read |
| QueueRunner.QueueRunner.NotifyStillQueued | src/queue_runner.py:603-606 | the queued notice goes out once and is stamped in memory and table |
| QueueRunner.QueueRunner.CreateJob | src/queue_runner.py:541-610 | creating a job is exactly the creation, then the changes of one pass, then a queued notice if the job is still pending, and that is a legal run, so the laws of QueueHistory hold of it |
| QueueRunner.QueueRunner.CancelJob | src/queue_runner.py:829-840 | an unknown or ended job is left alone; otherwise the job ends cancelled |
| QueueRunner.QueueRunner.ProcessEnded | src/queue_runner.py:1041-1067 | an exit or timeout ends only a job that is still running |
| QueueRunner.QueueRunner.Restart | src/queue_runner.py:468-526 | a restart lists the jobs in the order their rows were last written, then ends exactly the running jobs found ended, and loses nothing else |
| QueueRunner.QueueRunner.RecoverAll | src/queue_runner.py:518-524 | the loop, in whatever order the table lists the jobs, is a run of endings only, of exactly the running jobs found ended |
| QueueRunner.QueueRunner.RecoverJob | src/queue_runner.py:518-524 | a running job found ended ends, and any other job is as before, in memory and in the table |
| TopRows.KeptHoldsTopIff | src/queue_runner.py:391-409 | with ties in any order, the rows kept by one column always hold the first rows by another if and only if every row that may be dropped has enough rows strictly above it |
| PolicyGate.InvisibleIff | src/queue_runner.py:383-409 | every table the prunes may leave holds every set of rows the token query may ask for if and only if every row that may be dropped by request time has a window of later admissions |
| PolicyGate.SameAnswersIff | src/queue_runner.py:642-660 | over every run in the token modes, whatever the stamps, the pruned table and the full log have the same answers to the token query if and only if every admission dropped has a window of later ones |
| PolicyGate.PruningIsInvisible | src/queue_runner.py:383-409 | over every run, always without the token gate or with the time gate on, and with the token gate alone while every admission dropped has a window of later ones, the pruned table and the full log give the token query the same answers and decide every request alike |
| PolicyWindow.DecidesAlikeIff | src/queue_runner.py:642-690 | over every run in the token modes with rising admission stamps, the pruned table decides every request like the full log if and only if it holds the last window of admissions |
| PolicyWindow.NextIsSpacedIff | src/queue_runner.py:642-690 | in such a run that has kept the window so far, every next call keeps it if and only if the table holds the last window of admissions |
| PolicyWindow.RunRecurs | src/queue_runner.py:391-409 | in such a run there are a window of later rows in the table after every row of it whose token was admitted again |
| PolicyGate.AdmissionsSpaced | src/queue_runner.py:642-686 | over every run, always with the time gate on and with the token gate alone while admission stamps rise and each table holds the last window, two admissions with one token have the window of admissions between them, and timed admissions keep the minimum interval |
| PolicyGate.TokenReadmitted | src/queue_runner.py:640-686 | a run of three requests in the token mode, with window and retention one, in which a token is admitted again although no other admission came between by the lock |
| PolicyGate.HeldExactly | src/queue_runner.py:642-686 | in the token and both modes the pruned table holds back exactly the tokens among the last window of admissions, in the time and both modes exactly the requests within the interval of the last one |
| PolicyOutcomes.OutcomeByMode | src/queue_runner.py:630-690 | in every run, while the table holds the window, a request is invalid exactly when its mode misses a token, window or interval, held exactly when a gate of its mode fails, with the gates in order, and otherwise admitted exactly when the queue takes its job |
| PolicyOutcomes.NoGateNeverHolds | src/queue_runner.py:645-670 | in every run a policy without gates admits every request whose job the queue takes |
| PolicyOutcomes.LogTold | src/queue_runner.py:711-722 | in every run the log is the requests admitted, in order, with their tokens and both stamps |
| PolicyOutcomes.KeptTold | src/queue_runner.py:383-409 | in every run the table holds as many admissions as the retention, at least one and no less than the window, allows, and none it dropped was requested later than one it holds |
| PolicyGate.Gatekeeper.CreatePolicyRun | src/queue_runner.py:612-730 | a request is decided on the table as it was, then recorded and pruned, or rejected and not recorded; each call is one step of the runs |
| PolicyGate.Newest | src/queue_runner.py:642-686 | the rows chosen are so many as asked or all there are, and none left out has a greater key |
| PolicyGate.Gatekeeper.PassGates | src/queue_runner.py:634-690 | what is decided, on the newest admissions with a token up to the window and the newest admission of all |
| PolicyGate.Gatekeeper.RecentRows | src/queue_runner.py:648-657 | the token query looks at the newest admissions with a token, up to the window |
| PolicyGate.Gatekeeper.LatestTooSoon | src/queue_runner.py:660-670 | the time gate closes exactly when the newest admission is less than the interval ago |
| PolicyGate.Gatekeeper.PruneRuns | src/queue_runner.py:391-409 | of admitted and of suppressed rows the retention of each stays, and no row that goes was requested later than one that stays |
| NodeAgent.GapsConserve | src/node_agent.py:44-66 | within one epoch, lines sent plus the gaps reported equal the distance the cursor moved |
| NodeAgent.ChunkingIsInvisible | src/node_agent.py:182-208 | chunks whose boundaries are all smooth give the frames, cursor and leftover of the whole stream, and every split of text with line feeds only is smooth |
| NodeAgent.BoundaryIsInvisibleIff | src/node_agent.py:182-208 | for every buffer and further chunk the cut gives the lines and leftover of the joined text if and only if it is smooth; otherwise exactly one line fewer |
| NodeAgent.ChunksInvisibleIff | src/node_agent.py:182-208 | a list of chunks gives the lines and leftover of its text if and only if every boundary is smooth |
| TailFrames.TakeTold | src/node_agent.py:182-188 | of text without other controls or separators a buffer completes exactly the lines ended by a line feed and keeps the rest |
| TailFrames.BreaksByCode | src/node_agent.py:184 | the code points at which a line breaks |
| TailFrames.FramesTold | src/node_agent.py:44-66 | within one epoch a line is forwarded, with its own text, exactly when its number exceeds every number before it, and a gap comes just before it exactly when numbers between are missing |
| TailFrames.FreshLinePasses | src/node_agent.py:44-66 | a line of another epoch, without a number, or first to have one is forwarded with its text and no gap |
| NodeAgent.TailRegistration.Process | src/node_agent.py:182-208 | processing a chunk sends the frames of its completed lines and keeps the unfinished rest |
| ProviderCursors.ClaimedOnce | src/codex_event_store.py:635-657 | a recorded position is refused ever after, whatever is claimed in between |
| ProviderCursors.CursorTable.Should | src/codex_event_store.py:488-534 | a position is taken unless recorded or not ahead of the cursor within its epoch; the cursor is returned |
| ProviderCursors.CursorTable.RecordApplied | src/codex_event_store.py:536-633 | recording touches one session only, moves its cursor and remembers the position |
| ProviderCursors.CursorTable.ClaimEvent | src/codex_event_store.py:635-657 | a claim succeeds exactly when the position may be taken, and then it is recorded |
| Ingestion.AppliedIsPrefix | src/session_manager.py:2995-3020 | over any writes, sends, disconnects, registrations and failures to persist nothing is applied twice or from outside the file, the recorded positions are the applied ones, and they are a prefix of the file if and only if no event that failed when due was overtaken |
| Ingestion.NoFailureNoSlip | src/node_agent.py:305-315 | without a failure on an event that is due the applied events are a prefix of the file |
| Ingestion.DrainedIsComplete | src/codex_event_store.py:488-633 | a connection that has read the whole file and been consumed has had all of it applied if and only if no due event that failed was overtaken or is still unmended |
| Ingestion.OneConnectionSuffices | src/node_agent.py:290-315 | from every reachable state, and from any outdated cursor, one undisturbed connection applies the whole file if and only if nothing due was ever overtaken |
| Ingestion.FreshDrainIff | src/node_agent.py:44-66 | a fresh primary applies a whole file if and only if positions are distinct and numbers rise within each run of an epoch |
| IngestionRepair.ConnectionApplies | src/session_manager.py:2995-3020 | one undisturbed connection applies exactly what showing the primary the whole file line by line would: the agent's filter and its cursor change nothing |
| IngestionRepair.AppliedLaterIff | src/session_manager.py:2995-3020 | that connection has a line applied if and only if it was, or the last line applied before it is not ahead of it in its epoch |
| IngestionRepair.HiddenInItsEpoch | src/codex_event_store.py:488-534 | over every run an event behind the cursor is not applied while only events of its epoch are |
| IngestionRepair.SkippedForGoodIff | src/codex_event_store.py:488-633 | no number of undisturbed connections applies a line if and only if as many as the file has lines do not; it is then behind the cursor in the cursor's epoch, and further connections add nothing |
| IngestionRepair.TwoConnectionsDecide | src/codex_event_store.py:488-633 | with numbers rising through each epoch two connections have a line applied if and only if it was, or a line up to it was pending, or the first ended in another epoch; a third adds nothing |
| IngestionRepair.OvertakenRun | src/session_manager.py:2995-3020 | a run that fails on the first of two lines and applies the second |
| IngestionRepair.SkippedUntilNextEpoch | src/codex_event_store.py:488-534 | there the first line stays skipped until a line of another epoch has been applied, and is then applied last |
| EventRows.AppendTop | src/codex_event_store.py:205-262 | an append raises a session's newest number by one, or by two when it first leaves a marker for a failed one, and touches no other session |
| EventPrune.PassRefines | src/codex_event_store.py:855-928 | one batched pass leaves the goal of the one-shot prune unchanged, hands back every session that still overflows, and deletes nothing only at the goal |
| EventPrune.SweepEndsAtPruneOnce | src/codex_event_store.py:818-837 | repeating the batched prune until it deletes nothing leaves exactly the rows of the one-shot prune |
| EventPrune.SweepIsShort | src/codex_event_store.py:855-896 | passes that delete something number at most the rows there were |
| EventPrune.RunRemembers | src/codex_event_store.py:143-183 | from an empty store no mix of appends, batches and failed passes leaves an overflowing session outside the pending set and the thread's hands |
| EventRetention.PrunedExactly | src/codex_event_store.py:817-837 | the one-shot prune keeps a row if and only if it is young and no young row of its session is a retention ahead of it |
| EventRetention.PassTold | src/codex_event_store.py:855-911 | a pass deletes exactly the oldest of the rows too old, or else the lowest numbers of the first listed session that has too many, a batch at most, and hands back the list from there |
| EventRetention.WaitsTold | src/codex_event_store.py:839-853 | in every run a session waits for pruning exactly from its first number beyond the retention, or from being handed back or failed with, until the next pop |
| EventRetention.InHandTold | src/codex_event_store.py:158-174 | in every run the thread holds the list popped and the batch planned last, until it hands back or fails |
| EventRetention.FailsOnlyAtWork | src/codex_event_store.py:158-174 | a pass can fail from popping its list until it has deleted, and at no other time |
| EventRetention.FailedTold | src/codex_event_store.py:205-296 | in every run with retention under way a session counts as degraded exactly when its last append failed |
| EventRetention.RowsTold | src/codex_event_store.py:205-262 | a row is there from the append that stores it, numbered next, until the deletion of a batch it was planned in |
| EventReader.BatchKeepsContiguous | src/codex_event_store.py:898-914 | an overflow batch takes a session's smallest numbers, so no hole appears |
| EventReader.SelectionIsRun | src/codex_event_store.py:314-405 | over a log without holes a page starts where asked and skips nothing |
| EventReader.ReaderSeesAllOrIsTold | src/codex_event_store.py:314-405 | over every run a resuming reader sees strictly increasing numbers and every skip is on a page that reported a retention gap |
| EventPages.PageTold | src/codex_event_store.py:314-405 | in every run a page without a number to resume from is the newest events up to the limit brought into 1 to 500, one with it is the events after it or from the earliest stored, with the true bounds, the next number, and the gap reported exactly when events after it are gone or the last append failed |
| EventPages.EmptyPageTold | src/codex_event_store.py:325-340 | a page of an empty history is empty and resumes where asked or at one |
| EventPages.DegradedTold | src/codex_event_store.py:205-296 | a session counts as degraded exactly when its last append failed |
| EventPages.RowsAreAppended | src/codex_event_store.py:205-262 | every row was stored by a successful append with that append's time, next after the newest number, after a marker if the append before failed |
| EventPages.RowsStay | src/codex_event_store.py:898-928 | a row leaves only by a retention batch that names it |
| EventPages.ReaderTold | src/codex_event_store.py:314-405 | a reader has seen exactly the pages it read, in order, resumes after the last event and was warned by exactly the pages that reported pruned ones |
| EventStore.EventStore.AppendEvent | src/codex_event_store.py:185-296 | a persisted append adds its rows, returns the newest number and marks the session when it may overflow; a failed one only marks the session degraded |
| EventStore.EventStore.GetEvents | src/codex_event_store.py:314-405 | a page holds the least numbers from its start up to the clamped limit, the true bounds, the next number and the right gap reason; PageTold says which events these are |
| EventStore.EventStore.PruneIncremental | src/codex_event_store.py:855-928 | one pass deletes one batch of aged rows, or of the first session that overflows, and hands back the sessions not finished |
| EventStore.EventStore.PruneLocked | src/codex_event_store.py:818-837 | the loop over sessions leaves exactly the young rows within retention |
| ReviewRequests.OneActiveOneWake | src/message_queue.py:1018-1107 | in every interleaving, failing commits included, each pull request has at most one active request and each request wakes at most once |
| ReviewRequests.RunSettles | src/message_queue.py:1053-1107 | rows are never lost and a request that is no longer active never changes again |
| ReviewRequests.NoWakeAfterwards | src/message_queue.py:1322-1373 | a superseded or cancelled request never wakes anyone, however late its task found a match |
| ReviewRequests.ChainsClimb | src/message_queue.py:1053-1107 | each successor is a later request for the same pull request, so following successors n times climbs at least n rows and every chain ends |
| ReviewRequests.Latest | src/message_queue.py:1053-1107 | every chain of successors ends in a request for the same pull request that nothing replaced |
| ReviewRequests.AdmissionMeans | src/message_queue.py:1143-1165 | a registration gets its own active request at this head, or else a conflict exactly when another owner has one, and both name such a request |
| ReviewRequests.RegisterAgain | src/message_queue.py:1135-1165 | after a registration the same owner and head get the same request, any other owner a conflict with it, and only a new head of the owner is admitted |
| ReviewRequests.StuckIff | src/message_queue.py:1061-1107 | in every run a request active in the table is retired in memory if and only if a replacement that retired it failed and no restart followed |
| ReviewRequests.CompletableIff | src/message_queue.py:1322-1390 | in every run an active request with no registration under way can complete and wake, now or after a match, if and only if it has a match or was not stranded like that |
| ReviewRequests.StuckStays | src/message_queue.py:1376-1390 | a stranded request without a match changes in no way until a restart or a successful replacement |
| ReviewRequests.StuckIsHandedOut | src/message_queue.py:1143-1165 | its owner asking again gets it again, anyone else a conflict with it, and cancelling does nothing |
| ReviewRequests.StrandedRun | src/message_queue.py:1061-1107 | a run of four steps that strands a request |
| ReviewHistory.LocksTellHistory | src/message_queue.py:1135-1165 | in every run a pull request is locked, and for which owner and head, exactly when a registration that nothing stood in the way of began and has not ended since |
| ReviewHistory.LockAdmits | src/message_queue.py:1135-1165 | in every run a registration that holds the lock can commit or give up, and one can begin exactly while nobody holds it |
| ReviewHistory.RequestTellsHistory | src/message_queue.py:1053-1107 | in every run a request has the pull request, owner and head its registration began with, and its state, successor and standing in memory are what the commits, completions, cancellations and restarts since tell |
| ReviewHistory.RowsAreCommitted | src/message_queue.py:1078-1103 | there are as many rows as successful commits |
| ReviewHistory.CancelledForGood | src/message_queue.py:1259-1287 | a request active in memory that is cancelled is retired in table and memory, no other row changes, and it never wakes anyone |
| ReviewHistory.GoneForGood | src/message_queue.py:1528-1552 | a restart cancels exactly the active requests whose session is gone, and those never wake anyone; every other row and what memory makes of it is unchanged |
| ReviewHistory.MatchesTellHistory | src/message_queue.py:1376-1390 | a request counts as matched exactly when its task found a match since the last restart |
| ReviewHistory.WakesTold | src/message_queue.py:1322-1373 | wakes are exactly the completions that found their request active, in order |
| ReviewRequests.ReviewDesk.BeginRegister | src/message_queue.py:1135-1165 | under the lock the requester gets its own request at this head, or a conflict with another's, or keeps the lock with every active request of its own to replace |
| ReviewRequests.ReviewDesk.RetirePriors | src/message_queue.py:1061-1077 | the loop retires exactly the predecessors still active, in the table and in memory |
| ReviewRequests.ReviewDesk.CommitRegister | src/message_queue.py:1053-1107 | retirement and insertion are one step, after which the new request is the only active one of its pull request; if the transaction raises, the table is as before and memory keeps what was retired |
| ReviewRequests.ReviewDesk.CompleteIfCurrent | src/message_queue.py:1322-1373 | a request completes and wakes exactly when its row is still active |
| ReviewRequests.ReviewDesk.CancelRequest | src/message_queue.py:1259-1287 | only a request known and active in memory is cancelled, in the table too |
| RequestLedger.FirstAnswerWins | src/codex_request_ledger.py:187-323 | once resolved, every later resolve in any process returns the first answer and changes nothing |
| RequestLedger.WaitingAgreesWithAsking | src/codex_request_ledger.py:176-185 | what a waiter got is what asking later answers, even after restarts, and it is none exactly for orphans |
| RequestLedger.WaitersAreServed | src/codex_request_ledger.py:176-185 | while the process lives a waiter waits on an open row or has its result |
| RequestLedger.RunKeeps | src/codex_request_ledger.py:238-323 | rows stay, and resolved and orphaned are absorbing |
| RequestLedger.RunInv | src/codex_request_ledger.py:139-185 | in every run futures and expiry tasks exist for the same requests, only for open ones, and every result agrees with its row |
| RequestLedger.ForgottenOnlyByRestart | src/codex_request_ledger.py:75-89 | an open request has its future in memory exactly when no restart happened since it was registered |
| RequestLedger.RestartAgreesIff | src/codex_request_ledger.py:75-89 | after a restart every open request has a future if and only if no open row carries the new generation |
| RequestLedger.FreshGenerationsAgree | src/codex_request_ledger.py:21-32 | when each process has a generation of its own, every open request always has its future and its task |
| RequestLedger.ReusedGeneration | src/codex_request_ledger.py:75-89 | with a reused generation a request stays open while waiting on it answers none, and it can still be resolved afterwards |
| RequestLedger.TimeoutAlwaysAnswers | src/codex_request_ledger.py:159-174 | while memory and table agree the timeout alone brings any open request and its waiter to the policy answer |
| RequestHistory.RowTellsHistory | src/codex_request_ledger.py:91-157 | in every run a row has the session and process it was registered with and the status its steps tell, and its task carries the policy it was registered with |
| RequestHistory.RowsAreRegistered | src/codex_request_ledger.py:91-157 | a row exists exactly when it was registered, and no identifier twice |
| RequestHistory.WaiterTold | src/codex_request_ledger.py:176-185 | while its process lives a waiter waits exactly as long as its request is open and then has the payload that resolved it, or none for an orphan |
| RequestHistory.TimeoutTold | src/codex_request_ledger.py:159-174 | while its process lives the timeout of a pending request answers its waiter with the policy it was registered with |
| RequestHistory.ReplyTold | src/codex_request_ledger.py:187-323 | what a resolve is told and what asking answers, by the status told |
| RequestHistory.UnknownTold | src/codex_request_ledger.py:187-323 | a request never registered is not found and answers none |
| RequestHistory.OrphansExactly | src/codex_request_ledger.py:499-535 | orphaning a session closes exactly the open requests registered for it, gives their waiters none, and touches nothing of any other |
| RequestHistory.OthersUntouched | src/codex_request_ledger.py:187-323 | a step that names one request touches nothing of another |
| RequestHistory.FiringTold | src/codex_request_ledger.py:159-174 | a timeout is between its two transactions exactly when it marked its request and neither resolved it nor lost its process since |
| RequestHistory.GenerationTold | src/codex_request_ledger.py:21-32 | a state belongs to the process last started |
| RequestLedger.CodexRequestLedger.constructor | src/codex_request_ledger.py:21-89 | opening a database orphans exactly the open rows of other generations and starts with empty memory |
| RequestLedger.CodexRequestLedger.RegisterRequest | src/codex_request_ledger.py:91-157 | a new identifier gets a pending row, a future and a task; a taken one changes nothing |
| RequestLedger.CodexRequestLedger.ResolveRequest | src/codex_request_ledger.py:187-323 | pending rows resolve, expired ones only when allowed, resolved ones answer again, others are refused; the waiter gets the answer |
| RequestLedger.CodexRequestLedger.MarkRowExpired | src/codex_request_ledger.py:478-497 | only a pending row expires, and the answer says whether it did |
| RequestLedger.CodexRequestLedger.ExpireAfterTimeout | src/codex_request_ledger.py:159-174 | a timeout leaves the row resolved with the policy payload and the waiter answered with it |
| RequestLedger.CodexRequestLedger.OrphanPendingForSession | src/codex_request_ledger.py:499-535 | exactly the session's open rows are orphaned and each of their waiters is released without an answer |
| RequestLedger.CodexRequestLedger.WaitForResolution | src/codex_request_ledger.py:176-185 | a wait blocks only on an open row; when memory and table agree it answers at once exactly for closed or unknown ones |
| StopNotify.NoticesAreArmed | src/message_queue.py:1783-1898 | over every run notifications sent plus senders armed or staged never exceed the armings, and no arming is notified twice |
| StopNotify.DelayedIsCurrent | src/message_queue.py:3664-3746 | a delayed notification that passes its checks belongs to the very arming in force |
| StopNotify.NoticeIsDue | src/message_queue.py:1836-1880 | a notification goes to whoever is armed, only when a turn really ends or a delay fires while idle, and never within thirty seconds of the session writing to that target |
| StopNotify.NotifiedIff | src/message_queue.py:1836-1880 | a step notifies exactly when a turn ends on an armed, undelayed and unsuppressed sender outside codex-fork, or a delay fires at idle on the arming in force |
| StopNotify.StagedIsToldSecond | src/message_queue.py:1882-1895 | a sender staged mid-turn is armed by the first turn that ends and told by the next, unless suppressed then |
| StopNotify.DelayedSinceStop | src/message_queue.py:3664-3746 | a notification still waiting was scheduled by a turn that ended, and since then the session was not made active, armed again, fenced by a handoff or pasted into while the delay was in force |
| StopNotify.ForkNeverNotifies | src/message_queue.py:1846-1857 | a codex-fork session never notifies anyone |
| StopNotify.MidTurnWaitsTwoTurns | src/message_queue.py:2684-2702 | a sender whose message was pasted mid-turn is not notified before the second turn that ends after the paste |
| StopNotify.FenceAbsorbsExactly | src/message_queue.py:1796-1828 | with a clock that does not go back, a fence absorbs exactly the stop hooks within its window, up to its slots, and none once one came late |
| StopNotify.BurstIsSilent | src/message_queue.py:1803-1828 | a burst of stop hooks within the window, no longer than the fence, leaves the whole state as it was but for the slots used, and the hook after the last slot ends the turn |
| StopHistory.MarksTold | src/message_queue.py:3630-3656 | in every run whoever is armed, staged, waited for or has been notified is the sender of the very step that made that arming |
| StopHistory.DelayTold | src/message_queue.py:3630-3656 | in every run whoever is armed is told after the delay its arming asked for, a negative one counting as none |
| StopHistory.StagedTold | src/message_queue.py:2684-2702 | whoever is staged sent a message pasted mid-turn, with no turn over since |
| StopHistory.IdleTold | src/message_queue.py:1783-1909 | in every run the session counts as idle exactly when a turn ended or idleness was recovered and it was not put to work or handed over since |
| StopHistory.HandoffTold | src/message_queue.py:1789-1795 | a handoff is due exactly when one was requested and no stop hook came since |
| StopHistory.PastingTold | src/message_queue.py:2630-2634 | a delivery under way remembers whether the session was idle when it began |
| StopHistory.OutgoingTold | src/message_queue.py:3730-3746 | the session remembers exactly the last message it wrote, until it is cleared or that message has hushed a notice |
| StopHistory.FenceTold | src/server.py:1255-1269 | after a clear or a handoff fence, until another, the hooks absorbed are exactly those within its window up to the slots asked for and those left before, and nothing stays armed |
| StopNotify.SessionDeliveryState.constructor | src/models.py:860-877 | a new session is not idle, has nothing armed and no fence |
| StopNotify.SessionDeliveryState.Settle | src/message_queue.py:1836-1895 | suppression, the fork rule, the send or the delay, and promotion happen in that order |
| StopNotify.SessionDeliveryState.MarkSessionIdle | src/message_queue.py:1783-1898 | an idle call is taken over by a handoff, absorbed by a fresh fence, or ends the turn |
| StopNotify.SessionDeliveryState.MarkSessionActive | src/message_queue.py:1900-1909 | becoming active cancels a delayed notification and the arming behind it |
| StopNotify.SessionDeliveryState.ArmStopNotify | src/message_queue.py:3630-3656 | arming replaces what was armed, cancels a waiting notification and never takes a negative delay |
| StopNotify.SessionDeliveryState.RunDelayedStopNotification | src/message_queue.py:3685-3729 | a delayed notification is sent only if its arming is still in force and not suppressed |
| StopNotify.SessionDeliveryState.NotifyOnStop | src/message_queue.py:2688-2702 | a delivered message arms directly when pasted at idle and is staged when pasted mid-turn |
| RemindCycle.CyclesAreInTurn | src/message_queue.py:3808-3892 | in every run, whatever the thresholds, with no process dying inside a stage, every cycle fires each stage at most once, nudge never after soft and nothing after hard |
| RemindCycle.CyclesAreProper | src/message_queue.py:3808-3892 | if moreover every registration asks for soft no later than hard, merges keep that order and hard never comes without soft |
| RemindCycle.TrackedIsNudgedFirst | src/message_queue.py:3840-3868 | a session tracked for others, with room for a nudge, is nudged in every cycle before its owners are reminded |
| RemindCycle.OverdueCompletes | src/message_queue.py:3838-3892 | a check past the hard threshold closes the cycle with soft and hard, and the nudge if tracked, and starts an empty one |
| RemindCycle.NeverLaterThanAsked | src/message_queue.py:3332-3349 | whoever merges in later, a registration's thresholds never grow beyond what it asked for |
| RemindCycle.MemoryIsTable | src/message_queue.py:3344-3353 | in every run, whatever the thresholds and wherever a process dies, the row written column by column reads back as the registration in memory |
| RemindCycle.TornIff | src/message_queue.py:3844-3892 | after a crash within a poll the next poll leaves every cycle in turn, and with ordered thresholds proper, if and only if the crash fell on no stage between its message and its mark |
| RemindCycle.TornFiresTwice | src/message_queue.py:3844-3892 | a stage torn like that is in its cycle twice after the next poll, whatever the thresholds |
| RemindCycle.LeastInForce | src/message_queue.py:3332-3349 | in every run the thresholds in force are the least that the registrations in force asked for |
| RemindCycle.HardWithoutSoftIff | src/message_queue.py:3851-3892 | in every run, whatever the thresholds, some poll would close the cycle with hard and without soft if and only if the cycle holds no soft yet and one registration in force asks for hard before all of them ask for soft |
| RemindHistory.TermsTellHistory | src/message_queue.py:3330-3450 | in every run a registration is in force, and with which owners and persistence, exactly as registrations, replies, cancellations and polls of dead targets tell |
| RemindHistory.StartTellsHistory | src/message_queue.py:3451-3478 | in every run without a torn stage the cycle began at the last registration, reset or refresh not refused, or hard reminder |
| RemindHistory.PollTold | src/message_queue.py:3838-3892 | in such a run a poll adds to the cycle exactly the stages due, in seconds since it began: a nudge for a tracked session half of soft or a minute before it, soft and hard at their thresholds, and hard closes the cycle |
| RemindHistory.ResetRestarts | src/message_queue.py:3451-3478 | a reset not refused closes the cycle and no stage fires before its threshold has passed since then |
| RemindHistory.QuietPoll | src/message_queue.py:3818-3836 | a poll of a compacting session or a dead tracked one fires nothing, and drops the latter |
| RemindCycle.HardAlone | src/message_queue.py:3872-3892 | with hard before soft one check ends a cycle holding the hard stage alone |
| RemindTask.RemindRegistration.UpdateRow | src/message_queue.py:3772-3791 | the loop writes the named columns and no others |
| RemindTask.RemindRegistration.RegisterPeriodicRemind | src/message_queue.py:3330-3410 | a merge takes the smaller thresholds, adds the owner, starts a new cycle and writes only its columns; otherwise the registration is replaced |
| RemindTask.RemindRegistration.ResetRemind | src/message_queue.py:3451-3478 | a reset starts a new cycle unless the session is tracked and neither forced nor persistent |
| RemindTask.RemindRegistration.ReplyTo | src/message_queue.py:3411-3450 | a reply to an owner ends its tracking, refreshes a persistent one, and cancels with the last owner |
| RemindTask.RemindRegistration.Poll | src/message_queue.py:3818-3836 | one poll drops a dead tracked target, waits out compaction, and otherwise fires exactly the due stages in order |
| RemindTask.RemindRegistration.FireStages | src/message_queue.py:3838-3892 | nudge, soft and hard fire in that order, each only when due and each written to its own columns, and a hard one ends the cycle; everyone a stage concerns is told once, except that nudge and soft do not repeat a pending message |
| RemindTask.TellAll | src/message_queue.py:3599-3628 | the loop tells each recipient without a pending message of that stage exactly once |
| RemindTask.MessagesTold | src/message_queue.py:3587-3628 | a poll queues the nudge to the session, soft and hard to every session it is tracked for or else to itself, each once when due, nudge and soft not while pending |
| RemindTask.RemindRegistration.Recover | src/message_queue.py:3899-3955 | a restart resumes the stored cycle, or drops it when its tracked target has died |
| BatchDelivery.ProgressIff | src/message_queue.py:2607-2618 | every waiting queue yields a non-empty batch if and only if the configured size is positive |
| BatchDelivery.BatchIsLongest | src/message_queue.py:2607-2618 | no longer legal batch could be taken from the front |
| BatchDelivery.DrainDelivers | src/message_queue.py:2586-2656 | repeated passes paste the whole queue in order, each message once, in legal batches, in at most as many passes as messages |
| BatchDelivery.DrainIsShortest | src/message_queue.py:2607-2618 | no other way of cutting the queue into legal batches needs fewer passes |
| BatchDelivery.PassesDrain | src/message_queue.py:2586-2656 | on the table, that many passes paste exactly those batches and mark exactly the eligible rows, the important ones in the important-only form |
| BatchDelivery.PastedOnce | src/message_queue.py:2214-2268 | over any mix of queueing, passes and failures no message is pasted twice and batches keep queued order |
| BatchDelivery.NeverOvertaken | src/message_queue.py:2214-2256 | an important message is never overtaken, and with no important-only pass no message is |
| BatchDelivery.PastedLegally | src/message_queue.py:2607-2618 | every pasted batch is within the limit and a rename is alone in its batch |
| BatchDelivery.RowsTellHistory | src/message_queue.py:2214-2256 | in every run the table holds the messages asked for, in order, with their texts and marks |
| BatchDelivery.MarksTellHistory | src/message_queue.py:2262-2268 | in every run a message is marked exactly when it was pasted or given up |
| BatchDelivery.OnlyRenamesDropped | src/message_queue.py:2720-2733 | only renames are given up |
| BatchDelivery.GivenUpTold | src/message_queue.py:2720-2733 | a pass that fails gives up the first message waiting if and only if that is a rename, and changes nothing else |
| BatchDelivery.PayloadTold | src/message_queue.py:2619-2627 | a lone message is pasted as its text, more with a blank line after each but the last |
| BatchDelivery.MessageQueue.GetPending | src/message_queue.py:2214-2256 | the eligible undelivered messages in queued order |
| BatchDelivery.MessageQueue.SelectBatch | src/message_queue.py:2607-2618 | the loop for the first rename finds the batch |
| BatchDelivery.MessageQueue.MarkDelivered | src/message_queue.py:2262-2268 | exactly the rows of the batch become delivered |
| BatchDelivery.JoinTexts | src/message_queue.py:2620-2628 | the loop joins the texts of a batch in order with a blank line between them |
| BatchDelivery.MessageQueue.TryDeliver | src/message_queue.py:2562-2735 | a pass that is paused, has no session or meets unsaved typing changes nothing; otherwise it pastes the joined batch and marks it, drops a rename that failed alone, and leaves any other failure to be retried |
| TranscriptRelay.SplitJoins | src/response_relay.py:502-510 | cutting a file into lines and joining them gives the file back |
| TranscriptRelay.SplitGrowsIff | src/response_relay.py:545-549 | a file read in two pieces shows the same lines if and only if the first piece stops at a line end that the second does not continue |
| TranscriptRelay.SplitFrom | src/response_relay.py:530-536 | reading from the start of a line shows exactly the lines from there on |
| TranscriptRelay.LineSits | src/response_relay.py:545-549 | the bytes at a line's true start are the line |
| TranscriptRelay.CollectGrows | src/response_relay.py:517-575 | growth by whole lines only extends the list; earlier outputs keep identifiers, offsets and numbers |
| TranscriptRelay.VisibleIsCollected | src/response_relay.py:544-575 | every line that shows a message is collected |
| TranscriptRelay.OffsetIsTrueIff | src/response_relay.py:544-549 | the reported offset falls short of the line's true start by one byte per earlier line ended by two bytes, so it is true if and only if there is none |
| TranscriptRelay.WideEndShifts | src/response_relay.py:544-549 | a three-byte file whose message starts at byte two and is reported at byte one |
| TranscriptRelay.LineFeedsOnly | src/response_relay.py:544-549 | without carriage returns every reported offset is true |
| TranscriptRelay.PlacesDiffer | src/response_relay.py:466-476 | later outputs have larger offsets and numbers, so identifiers derived from the place differ |
| TranscriptRelay.AfterLastMatch | src/response_relay.py:479-575 | collecting from a boundary found by hash sees exactly the lines after the last matching user line, none of which matches; no boundary means no match |
| TranscriptRelay.BoundaryTold | src/response_relay.py:479-514 | the boundary is the end of the last user line with this hash, and there is none exactly when no user line with text has it |
| TranscriptRelay.CollectedExactly | src/response_relay.py:517-575 | with no boundary the outputs are exactly the assistant messages with text stamped no earlier than the delivery, from a boundary all after it, each with its text, stamp, place and the identifier it carries or one made from place and hash |
| TranscriptRelay.FindBoundary | src/response_relay.py:479-514 | the loop finds the byte after the last matching user line, and nothing without a hash |
| TranscriptRelay.CollectOutputs | src/response_relay.py:517-575 | the loop collects the visible assistant lines after the offset, or by timestamp without one, and nothing past the end of the file; an output without a timestamp is completed when it is scanned |
| RelayLedger.GrantedIff | src/response_relay.py:306-351 | in every run a claim is granted exactly when its output was never relayed after a claim and the claim in force, if not released, is at least the timeout old |
| RelayLedger.RowsTellHistory | src/response_relay.py:306-442 | the rows say exactly what the history of grants, relays and releases says |
| RelayLedger.ClaimsApart | src/response_relay.py:306-351 | two granted claims with no release between are at least the timeout apart, whatever the clock does |
| RelayLedger.ActiveIsLatest | src/response_relay.py:154-227 | the active turn of a session is exactly the one last delivered to it and not since delivered elsewhere, so there is at most one |
| RelayLedger.TurnsTellHistory | src/response_relay.py:154-227 | in every run a turn has the session it was last delivered to and the offset and hash last given for it |
| RelayLedger.ResponseRelayLedger.RecordInboundTurn | src/response_relay.py:154-227 | recording supersedes the session's other turns and keeps boundaries that are not given again |
| RelayLedger.ResponseRelayLedger.ClaimAssistantOutput | src/response_relay.py:306-391 | a claim is granted exactly when the output is unknown, or unrelayed with no live claim |
| RelayLedger.ResponseRelayLedger.MarkAssistantOutputRelayed | src/response_relay.py:394-418 | a known output becomes relayed |
| RelayLedger.ResponseRelayLedger.ReleaseAssistantOutputClaim | src/response_relay.py:420-442 | a release frees only what is not relayed |
| TurnBuffers.BufferHolds | src/codex_app_server.py:352-380 | for any interleaving a turn's buffer holds exactly its deltas since it last completed |
| TurnBuffers.CompletionReports | src/codex_app_server.py:367-380 | a completion reports their in-order concatenation and empties the buffer |
| TurnBuffers.DeltasConserved | src/codex_app_server.py:352-380 | what was reported for a turn and what is buffered make up all its deltas, none lost, repeated or given to another |
| TurnBuffers.CurrentIsTold | src/codex_app_server.py:345-380 | the current turn is the one last sent or started, unless it completed since or a nameless one started |
| TurnBuffers.BuffersAreMentioned | src/codex_app_server.py:352-380 | a turn has a buffer from its first mention until it completes |
| TurnBuffers.ReportsAreCompletions | src/codex_app_server.py:367-380 | one report for each completion, in order and under its name; a nameless one says nothing |
| TurnBuffers.CodexAppServerSession.HandleNotification | src/codex_app_server.py:345-380 | each notification touches only its own turn's buffer, and a nameless one touches none |
| TurnBuffers.CodexAppServerSession.TurnSent | src/codex_app_server.py:143-169 | starting a turn keeps deltas that arrived first and fails on a missing name |

## Left out

- Urgent delivery (src/message_queue.py:2738-2911): it does not re-read whether its message was delivered; only its effect on stop notifications is modelled.
- Message expiry and timeouts in the queue: an expired message leaves the table; the delivery properties are about messages that do not expire.
- The order of `queued_at` stamps: rows are taken to be queued in stamp order.
- Age pruning and `delete_event` in the reader's property: they can remove the newest row, after which numbering starts again from the newest left.
- EventPrune.RunRemembers: starts from an empty store in one process; the pending set is in memory, so after a restart a session that overflowed before is taken up again only with its next append.
- PolicyGate.PruningIsInvisible: one policy with a fixed configuration; an admission is stamped no earlier than its request. With the token gate alone it needs every admission dropped to have a window of later ones; SameAnswersIff shows that this condition is exact.
- PolicyGate.AdmissionsSpaced: with the token gate alone it needs admission stamps that rise under the lock and tables that hold the last window; NextIsSpacedIff shows that the latter is exact, TokenReadmitted that it can fail.
- PolicyGate.HeldExactly: as AdmissionsSpaced.
- PolicyWindow.DecidesAlikeIff: two admissions of one policy with equal or falling admission stamps are left to SameAnswersIff, because the full history may then answer in more than one way itself.
- QueueRuns.PerfWaitsForTests: needs the perf job to win its instant; TurnTakenIff shows that this condition is exact.
- The text of the queue's displayed holding reasons (that they rewrite rows is modelled), wrapper scripts, processes and log files.
- Ingestion.AppliedIsPrefix: events carry an epoch and a number; lines without a position are always forwarded and always taken, so nothing is promised about them. A failure is one that leaves nothing stored; one after the event is stored but before it is recorded is not modelled.
- IngestionRepair.TwoConnectionsDecide: the numbers of an epoch rise through the whole file, also when the epoch comes back later; SkippedForGoodIff needs no such thing.
- Two threads inside one provider claim: the check and the record are separate lock sections; ingestion takes one event at a time.
- RequestLedger.RunInv: payloads are compared as values, not through JSON text; two threads inside one operation are not modelled, except that expiry and resolution may be interleaved.
- StopNotify.FenceAbsorbsExactly: the stretch holds no new fence and no handoff request.
- RemindTask.RemindRegistration.FireStages: which messages are pending is an input, and so is the order in which owners are told.
- ReviewRequests.StuckStays: polling, retries and pickup stamps of a request are not modelled, only whether its task has a match.
- TranscriptRelay.CollectOutputs: JSON decoding and text hashing are parameters.
- Telegram, e-mail, HTTP, terminals, subprocesses, the GitHub command line and launch agents: I/O only.
