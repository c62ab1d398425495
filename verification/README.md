# Verification of the UFO observation command service

This project models the observation command service and proves what its workflow,
its telemetry streams and its small coordination protocols keep in every run.
`dafny verify dfyconfig.toml` checks all of it.

## What is modelled

**The recovery workflow** (missions, buoys, recovery jobs, dive windows and their
items, signal recovery reports, integrity incidents, the audit log). `Tables` holds
one map per table, `Transactions` says what each SQL statement and each service
transaction does to the tables, and `RecoveryService` runs the same services
statement by statement on a class whose fields are the tables, with rollback, each
method proved against its function. `Verdicts` and `Outcomes` say once more, flat and
column by column, how each transaction ends and what it leaves. On top of that:

- `Workflow`: the cross-table invariants no table constraint states, in every state whole transactions reach.
- `Finality`, `Legality`: what never changes again, and which status writes are edges.
- `Stranded`, `Finishing`: a dead end the expiry sweep creates, and exactly when a window is in one.
- `Incidents`: which incidents can ever be settled.
- `Conservation`: for whole transactions, completed installs are counted once per job and stay within quota.
- `Execution`: completions happen while their mission is active, in its window, before expiry.
- `Versions`: callers' versions, and that each is good for one commit.
- `Moorings`: the mooring rows against the log.
- `Ledger`: every version number is accounted for by the audit log.
- `Sweep`: what one expiry sweep rejects, and that repeated sweeps drain.
- `Codes`: the business codes that pass.
- `OptimisticLock`: reads and conditional writes as separate steps, freely interleaved.
- `Installs`: what interleaved completions keep, and exactly when installs stay counted once per job.
- `LateReports`: a report inserted some time after its target was checked.
- `Scenario`, `Race`: runs from empty tables through the dead end, an illegal write, an
  incident that stays open, and a job that is installed twice.

**Telemetry**. `Streams` is the stream manager on values, `StreamManager` the same
manager with segment maps and payload arrays on the heap, `AwaitProtocol` its
waiters and the close-and-replace channel in every interleaving, `Fencing` the
fencing lease, `Broadcast` the broadcaster with its lock, buffers and receivers.

**Algorithms**. `StateMachines` (construction, path checking, breadth-first
reachability), `Ordering` and `Paging` (stable sorting, windows of a listing),
`Search` and `BuoyStore` (queries and their pages), `Retry` (capped exponential
delay in 64-bit arithmetic, bounded retrying), `AuditChain` (the hash chain), `Keys`
and `SharedKeys` (NUL-joined keys and which of them are shared).

Runs are sequences of whole transactions except where reads and writes are said to be
separate steps. Time is an integer, an id a natural number, text a sequence of
characters. Clocks, fresh ids, the outcome of callbacks and of commits are parameters.

## What the proofs found

- `SPEC_FREEZE.md` says that transitions of jobs validate the current state;
  activation, acceptance and review move a job by version alone. The model follows
  the code: the invariants hold all the same, but no job status is final.
- Completing or archiving a job, and moving a mission, check the move against the
  row read and then write under the caller's version, which may differ. With an
  equal version every committed move is a legal edge; in general this holds in
  every interleaving exactly when the caller's version is not above the version
  read (or, for a completion, when the buoy has no install left to claim).
- A completion under a version newer than the row read can count one job twice: a rival
  completes the job in between, and the caller's commit claims a second install. Whole
  transactions count every job once; an interleaved completion does so in every
  interleaving exactly when the caller's version is not above the version read or it
  claims the buoy's last install. The invariants and the quota survive such completions.
- A report submission checks its target and inserts without repeating the check, so a
  cancellation in between leaves a report in a cancelled window. The invariants survive
  every rival exactly when the window already has some report.
- The expiry sweep can reject a job a running window still waits for. If that
  window already has a report it can then be neither completed nor cancelled, unless
  the database clock goes back behind the instant of the sweep, which comes from the
  service's own clock. A running window is stuck exactly when it has a report and an
  item whose job is out of progress, expired and unreported.
- The incident table admits one settled incident of a job and kind, so a second one
  can never be settled.
- Business codes are checked trimmed and stored as given, so codes that differ in the
  white space around them count as different.
- The segments of a stream depend on the order of arrival exactly when two valid
  appends differ at one open index: the first one stays.
- The sweep logs its rejections under an object type of their own, so a job's
  history is split over two object types; the ledger counts both.
- Attaching a job to a window, reviewing it and restoring it on cancellation raise
  its version without an event about the job; the ledger names each such write.
- Keys joined with NUL identify NUL-free parts. A list of parts that holds a NUL
  shares its key with another accepted one exactly when some part can be cut there
  with an acceptable piece left over; two NULs in a part always suffice, one may not.
- With an odd maximum the retry delay jumps to the maximum one unit early, in
  exactly one case.
- A buoy query panics exactly when the end of its page overflows 64 bits.
- Two owners can commit under the fencing lease at one instant exactly when the
  clocks between go above it or rise; superseded tokens never commit under any clock.

## Model

| member | source | states |
|---|---|---|
| Workflow.RunKeepsInvariant | internal/service/service.go:114-330 | in every state reached by any sequence of transactions: references are sound, there is one report per item, every in-progress job is an item of an open window whose report for it is absent or pending, reports exist only in running or completed windows, completed windows are fully reviewed, rejected reports have a reassess incident, item counts lie within 1..capacity |
| Workflow.ApplyKeepsInvariant | internal/repository/postgres.go:205-283 | each committed transaction keeps that invariant |
| Workflow.AttachItemsExact | internal/repository/postgres.go:242-256 | the attach loop succeeds exactly when the ids are distinct and each job was accepted, unexpired and unattached at the start; its effect is then simultaneous |
| Workflow.CreateWindowKeepsInvariant | internal/service/service.go:187-213 | creating a window keeps the invariant, with its items within capacity |
| Workflow.CancelWindowKeepsInvariant | internal/repository/round.go:30-51 | cancelling restores in-progress items and leaves none uncovered |
| Workflow.CompleteWindowKeepsInvariant | internal/repository/round.go:52-75 | guarded completion leaves no in-progress job uncovered |
| Workflow.SubmitKeepsInvariant | internal/service/service.go:215-248 | a new report keeps the invariant, the one-report-per-item part included |
| Workflow.ReviewShape | internal/service/service.go:250-286 | a committed review changes exactly one report, its job, at most one incident and the log, each as stated |
| Workflow.ReviewKeepsInvariant | internal/service/service.go:250-286 | a review keeps the invariant though the job moves by version alone |
| Workflow.HandOverKeepsInvariant | internal/service/service.go:163-185 | activation and acceptance keep the invariant though they do not check the status |
| Workflow.SweepKeepsInvariant | internal/repository/reconcile.go:44-57 | the sweep's rejections keep the invariant |
| Finality.RunFollows | internal/repository/round.go:29-75 | over any run rows persist, item lists of existing windows are frozen, closed windows and reviewed reports stay identical |
| Finality.CompletedWindowIsFinal | internal/repository/round.go:52-75 | forever after completion a window's row and items are the same and every item has the same reviewed report |
| Finality.CancelledWindowIsFinal | internal/repository/round.go:30-51 | over whole transactions a cancelled window stays as it is and never has any report |
| Finality.NoJobStatusIsFinal | internal/service/service.go:163-173 | whatever a job's status, archived included, some activation commits and puts it back to activation pending |
| Legality.JobWriteLegalIff | internal/service/service.go:163-330 | over all nineteen transactions, which job rows a committed one writes, and from exactly which statuses each write is an edge of the transition relation |
| Legality.TransactionLegalIff | internal/service/service.go:163-330 | a committed transaction moves every job it writes along an edge exactly when a guard on the tables before it held; activation, acceptance, review, cancellation and sweep leave that guard to others |
| Scenario.RunRevivesRejected | internal/service/service.go:250-286 | a run from empty tables in which an accepting review takes a swept job from rejected to verified |
| Finishing.FinishableIff | internal/repository/round.go:29-75 | in every state that keeps the invariant, a running window can still be completed or cancelled by some run on a clock that does not go back exactly when it is not stranded: it has no report, or no item whose job is out of progress, expired and unreported; hypothesis: the new windows of such a run may take their codes from a set of valid codes with as many as there are windows plus items of this one |
| Finishing.CodesNeverRunOut | internal/domain/validation.go:11-19 | sets of valid codes of every size exist, since the check trims a code that is stored as given |
| Stranded.StrandedForever | internal/repository/round.go:29-75 | one half of it, for any tables: no run on such a clock finishes a stranded window, it stays stranded |
| Stranded.SweepStrands | internal/repository/reconcile.go:26-57 | a sweep that picks a job some running window with a report still waits for strands that window |
| Scenario.RunStrands | internal/repository/reconcile.go:17-62 | a run from empty tables whose sweep strands a window that was not stranded before |
| Incidents.SettleableIff | migrations/001_initial.sql:100-109 | an unsettled incident can be settled by some later run exactly when no other incident of its job and kind is settled |
| Incidents.StuckForever | internal/repository/intervention.go:32-41 | once one is, no run settles the other |
| Scenario.RunSticksIncident | internal/service/intervention.go:12-45 | a run from empty tables that opens, settles and opens an incident again; the second can never be settled |
| Conservation.RunConserves | internal/repository/postgres.go:205-229 | in every state whole transactions reach a buoy's counter is the number of its jobs ever completed, within its quota, and a job is queued exactly when its version is 1 |
| Conservation.JobCompletesAtMostOnce | internal/service/service.go:306-330 | a run of whole transactions completes a job as often as the job has a completion time: once or never |
| Conservation.ProgressWithinRequirement | internal/repository/progress.go:14-31 | in every state whole transactions reach, completed jobs of a mission never exceed the installs it requires |
| Conservation.CompletionBalances | internal/repository/postgres.go:205-229 | a completion moves the counter and the set of completed jobs together |
| Ledger.RunBalances | internal/repository/postgres.go:347-357 | over every run the version of a mission, window or report is its number of audit events, and a job's version minus one is its non-creation events plus items plus reviewed reports plus cancel-restores |
| Ledger.ApplyBalances | internal/service/round.go:23-47 | each committed transaction keeps the four balances, up to the restores of a cancellation |
| Ledger.CreateWindowBalances | internal/service/service.go:187-213 | attaching raises each job's version once and adds one item for it |
| Ledger.ReviewReportBalances | internal/service/service.go:250-286 | a review adds one reviewed report where it raises the job's version |
| Ledger.SweepBalances | internal/repository/reconcile.go:44-57 | the sweep writes one event per version it raises |
| Sweep.SweepClears | internal/repository/reconcile.go:17-62 | one sweep takes exactly min(limit, n) of the n jobs that have expired and are neither verified, rejected nor archived, none expiring after a job left behind, with one event each |
| Sweep.SweepRejectsDue | internal/repository/reconcile.go:17-62 | a committed sweep rejects exactly its picks, in the order they expired, each due before; fewer picks than the limit, 100 unless one of 1 to 500 is given, means none is left due |
| Sweep.SweepsDrain | internal/repository/reconcile.go:17-62 | repeated sweeps at one instant leave exactly as many such jobs as their limits do not cover, none once they add up; verified, rejected and archived rows stay as they are |
| Frames.MarkAllExpiredExact | internal/repository/reconcile.go:44-57 | marking one by one is marking all at once, with the events in order |
| RowSteps.ApplySteps | internal/repository/postgres.go:170-229 | every transaction writes each mission and job row with its version raised by exactly one, or leaves it alone |
| Verdicts.VerdictDecides | internal/service/service.go:51-330 | over all nineteen transactions, the error one ends with, or that it commits, is read off the tables before it, column by column and with the loops over buoys, requests and jobs decided at once |
| Outcomes.CommitLeaves | internal/repository/postgres.go:153-283 | over all nineteen transactions, a committed one leaves exactly these rows, items, moorings and events, its loops taken at once |
| Codes.ValidCodeIff | internal/domain/validation.go:11-19 | a code passes exactly when it is a capital or digit and two to 31 more characters of the pattern, with white space around it |
| Execution.CompletesOnTime | internal/service/service.go:306-330 | a committed completion finds its mission active with the instant in its window, the job queued and not expired, and writes that instant |
| Execution.ArchivesReviewed | internal/service/service.go:288-330 | a committed archival finds the job verified or rejected and changes only its status and version |
| Execution.CheckedThenMoved | internal/service/service.go:306-330 | read, check and guarded write back to back are the completion or archival; where the check refuses, so does the transaction |
| Execution.CheckedThenAdvanced | internal/service/service.go:114-128 | the same for a mission move |
| Execution.RunExecutesOnTime | internal/domain/plan.go:41-43 | over any run of whole transactions a completion time lies in its mission's window, not after the job's expiry, and the mission was activated |
| Execution.StepsCompleteOnTime | internal/service/service.go:306-330 | the times hold in every interleaving, whoever commits and under whatever version |
| Versions.CommitsUnderCurrent | internal/repository/round.go:29-75 | every committed move of a mission, job, window or report was called with the version of its row and raises it by one |
| Versions.OneCommitPerVersion | internal/repository/round.go:29-75 | of all operations of a run that carry one version of one row, whatever they do to it, at most one commits |
| Versions.EqualVersionsMeanEqualRows | internal/repository/round.go:29-75 | over any run a window or report row of unchanged version is the same row |
| Moorings.HandOverRecords | internal/service/service.go:163-185 | a committed activation or acceptance appends exactly one mooring row with its job, giver, receiver and instant, both people registered, and one event |
| Moorings.OthersRecordNothing | internal/repository/postgres.go:231-234 | no other transaction writes a mooring row or logs an activation or acceptance |
| Moorings.RunTellsMoorings | internal/repository/postgres.go:231-234 | over any run the mooring rows are, job by job and in order, the activations and acceptances in the log, and name registered operators |
| Moorings.RunCountsMoorings | internal/repository/postgres.go:231-234 | so a job has as many mooring rows as activations and acceptances in the log |
| OptimisticLock.EqualVersionsMeanEqualRows | internal/repository/postgres.go:170-229 | in any interleaving a mission or job row with an unchanged version is the same row |
| OptimisticLock.MatchingVersionCommitsLegally | internal/service/service.go:306-330 | when the caller's version is the one read, a commit moves the row actually written along a legal edge and raises its version by one |
| OptimisticLock.MissionMoveAlwaysLegalIff | internal/service/service.go:114-128 | a mission move is legal in every interleaving exactly when the caller's version is not above the version read |
| OptimisticLock.JobMoveAlwaysLegalIff | internal/service/service.go:306-330 | the same for completing and archiving a job, or no install is left to claim |
| Installs.StepsKeep | internal/service/service.go:306-330 | in every interleaving from empty tables of half-done mission moves, completions and archivals with whole transactions, illegal commits included, the workflow's invariant holds and a buoy's counter lies between the number of its installed jobs and its quota |
| Installs.CarefulStepsConserve | internal/repository/postgres.go:205-229 | in every interleaving in which no caller completes a job under a version newer than the row it read, the counter is the number of installed jobs |
| Installs.CompletionAlwaysBalancedIff | internal/service/service.go:306-330 | a completion just read keeps that count from every balanced state of every later interleaving exactly when the caller's version is not above the one read or it claims the last install |
| LateReports.LateReportKeepsIff | internal/service/service.go:215-248 | a report whose target was just checked keeps the workflow's invariant, whatever transactions run before its insert, exactly when its window already has a report |
| LateReports.CheckedThenRecorded | internal/service/service.go:215-248 | check and insert back to back are the submission |
| LateReports.RunReportsCancelled | internal/repository/business_checks.go:38-51 | a run from empty tables: target checked, window cancelled, report inserted in the cancelled window |
| Race.RunInstallsTwice | internal/service/service.go:306-330 | an interleaved run from empty tables in which a caller one version ahead commits along no edge and the buoy counts two installs for one job |
| RecoveryService.Store.Finish | internal/repository/postgres.go:23-36 | a failed transaction or a failed commit leaves every table as it was |
| RecoveryService.Store.AttachRecoveryJobs | internal/repository/postgres.go:242-256 | the attach loop with early exit has the effect of the attach function |
| RecoveryService.Store.ChangeWindow | internal/repository/round.go:29-75 | start, guarded completion and cancel-with-restore of a window row, each under the version of the row |
| RecoveryService.Store.RegisterOperator | internal/service/array_operators.go:12-33 | all of the transaction or nothing, a taken id refused |
| RecoveryService.Store.CreateSurveyMission | internal/service/service.go:51-100 | all of the transaction or nothing, codes checked first, and one id per buoy in order |
| RecoveryService.Store.AdvanceSurveyMission | internal/service/service.go:114-128 | all of the transaction or nothing |
| RecoveryService.Store.CreateRecoveryJob | internal/service/service.go:130-157 | all of the transaction or nothing, a blank code, expiry and the code's form refused first, in that order |
| RecoveryService.Store.CheckBulk | internal/domain/bulk.go:33-45 | the first blank, expired or repeated request decides the error |
| RecoveryService.Store.CreateRecoveryJobsBulk | internal/service/bulk.go:11-51 | all jobs and one event, or nothing; one result per job in order |
| RecoveryService.Store.CompleteRecoveryJob | internal/service/service.go:306-330 | all of the transaction or nothing, the mission, the move, the version and the quota checked in that order |
| RecoveryService.Store.ArchiveRecoveryJob | internal/service/service.go:288-330 | all of the transaction or nothing |
| RecoveryService.Store.ActivateRecoveryJob | internal/service/service.go:163-173 | all of the transaction or nothing, guarded by the version alone, with its mooring row |
| RecoveryService.Store.AcceptRecoveryJob | internal/service/service.go:175-185 | all of the transaction or nothing, guarded by the version alone, with its mooring row |
| RecoveryService.Store.CreateDiveWindow | internal/service/service.go:187-213 | all of the transaction or nothing, capacity, the code and repeated ids refused first |
| RecoveryService.Store.StartDiveWindow | internal/service/round.go:23-47 | all of the transaction or nothing, under the version of the row |
| RecoveryService.Store.CompleteDiveWindow | internal/service/round.go:23-47 | all of the transaction or nothing, under the version of the row |
| RecoveryService.Store.CancelDiveWindow | internal/service/round.go:23-47 | all of the transaction or nothing, under the version of the row |
| RecoveryService.Store.SubmitSignalReport | internal/service/service.go:215-248 | all of the transaction or nothing, target and recorder checked first |
| RecoveryService.Store.ReviewSignalReport | internal/service/service.go:250-286 | all of the transaction or nothing, over three tables and the log |
| RecoveryService.Store.OpenIntegrityIncident | internal/service/intervention.go:12-30 | all of the transaction or nothing, the due time three days ahead unless given |
| RecoveryService.Store.StartIntegrityIncident | internal/service/intervention.go:47-60 | all of the transaction or nothing |
| RecoveryService.Store.CloseIntegrityIncident | internal/service/intervention.go:32-45 | all of the transaction or nothing |
| RecoveryService.Store.SelectOverdue | internal/repository/reconcile.go:26-42 | the soonest-expiring due jobs, up to the limit |
| RecoveryService.Store.MarkEach | internal/repository/reconcile.go:44-57 | marks and logs each scanned job; none fails inside one transaction |
| RecoveryService.Store.MarkExpiredRecoveryJobs | internal/repository/reconcile.go:17-62 | the whole sweep: the picks answer the query, Scanned equals Marked, Failed is 0 |
| Streams.RunKeepsWellFormed | internal/telemetry/stream.go:35-123 | in every run version is 1 plus segments plus 1 if sealed, indexes lie in range, a sealed stream is full |
| Streams.FullMeansEveryIndex | internal/telemetry/stream.go:103-105 | as many segments as slots means every index is present |
| Streams.SealedHasEveryIndex | internal/telemetry/stream.go:90-123 | a sealed stream holds exactly the indexes 0..expected-1 |
| Streams.SealedStreamIsFinal | internal/telemetry/stream.go:54-123 | no run of operations changes a sealed stream |
| Streams.SealsAtMostOnce | internal/telemetry/stream.go:90-123 | at most one operation of a run seals a given stream |
| Streams.FirstAppendWins | internal/telemetry/stream.go:54-81 | after any run each index holds what it had before or else the content of its first valid append, and nothing else |
| Streams.SameSegmentsIff | internal/telemetry/stream.go:54-81 | two runs from one state collect the same segments exactly when they agree on the first valid append at every open index |
| Streams.OrderMattersIff | internal/telemetry/stream.go:54-81 | some reordering of a run collects other segments exactly when two of its valid appends differ at one open index |
| Streams.ArrivalOrderIsIrrelevant | internal/telemetry/stream.go:54-81 | runs whose valid appends deliver the same indexes and content, in any order, with replays and refused appends, reach the same segments and version |
| Streams.SealReturnsWholePayload | internal/telemetry/stream.go:90-159 | a successful seal expected the version expected + 1 and returns the payloads of the first valid appends at 0 to n-1 joined, and each index had one |
| Streams.SealSucceedsIff | internal/telemetry/stream.go:90-123 | after an open and any run a seal succeeds exactly when every index had a valid append, nothing sealed before, the version is expected + 1, the checksum is the digest of the first payloads and the audit takes the record; otherwise its error is told |
| Streams.SealsWhatWasSeen | internal/telemetry/stream.go:100-102 | a seal under a version seen earlier succeeds only on the very stream that was seen |
| Streams.AppendAnswers | internal/telemetry/stream.go:54-81 | by the history of its stream an append is refused with its error, told it is a replay, or stored as it came |
| Streams.OpensOnce | internal/telemetry/stream.go:35-52 | an opened key is never opened again, whatever runs in between |
| StreamManager.Manager.Open | internal/telemetry/stream.go:35-52 | opens as specified; the returned stream and the stored one share nothing with each other or the caller's labels |
| StreamManager.Manager.Append | internal/telemetry/stream.go:54-81 | appends as specified with the payload copied; the channel is closed and replaced exactly for a new segment |
| StreamManager.Manager.Snapshot | internal/telemetry/stream.go:83-88 | a snapshot equals the stored stream, or the empty stream with a false flag, and reaches nothing stored |
| StreamManager.Manager.Finalize | internal/telemetry/stream.go:90-123 | seals as specified, the audit callback deciding on the very record a success returns; every failure, a failed audit included, leaves streams and channel unchanged; the record's payload is fresh |
| StreamManager.Manager.CheckAppend | internal/telemetry/stream.go:54-74 | the checks of an append in order, telling a new segment from a replay |
| StreamManager.Manager.CheckSeal | internal/telemetry/stream.go:90-112 | the checks of a seal in order, yielding the assembled payload |
| StreamManager.Manager.Look | internal/telemetry/stream.go:125-135 | a waiter's look reports completeness and takes the current, open channel |
| StreamManager.Manager.Signal | internal/telemetry/stream.go:143-146 | closes an open channel and installs a fresh open one, the stored streams untouched |
| StreamManager.Assemble | internal/telemetry/stream.go:148-159 | payloads joined in index order whatever order the map is walked in |
| StreamManager.ConcatenatedIsAssembled | internal/telemetry/stream.go:148-159 | joining at the sorted keys is joining at 0, 1, 2, ... |
| StreamManager.CloneStream | internal/telemetry/stream.go:161-178 | a clone holds the same stream and is built of fresh objects only |
| AwaitProtocol.StepsKeepSound | internal/telemetry/stream.go:125-146 | in every interleaving channels below the current one are closed, the current one is open and none was closed twice |
| AwaitProtocol.NoLostWakeup | internal/telemetry/stream.go:125-146 | a waiter blocked on an open channel waits for an incomplete stream; a satisfied waiter's stream is complete |
| AwaitProtocol.CompletenessPersists | internal/telemetry/stream.go:54-146 | a complete stream stays complete whatever runs |
| AwaitProtocol.CompleteWaiterReturns | internal/telemetry/stream.go:125-141 | once its stream is complete a waiter returns after two steps of its own, whatever others do between |
| Fencing.FenceLease.Acquire | internal/telemetry/coordination.go:17-27 | over the history of calls: grants exactly when no other owner holds the lease, and short of a wrap-around issues a token above every one issued before |
| Fencing.FenceLease.Commit | internal/telemetry/coordination.go:29-33 | over the history of calls: accepts exactly the owner of the last, unexpired grant with its token, and short of a wrap-around nothing was then granted since that token was issued |
| Fencing.CommitsIffHeld | internal/telemetry/coordination.go:29-33 | after any events a commit is accepted exactly when the last grant was its owner's, issued its token and has not run out |
| Fencing.GrantedIffUnheld | internal/telemetry/coordination.go:17-27 | after any events an acquisition is granted exactly when no other owner holds an unexpired last grant |
| Fencing.IssuedTokensIncrease | internal/telemetry/coordination.go:17-27 | issued tokens strictly increase short of a wrap-around |
| Fencing.SupersededTokenNeverCommits | internal/telemetry/coordination.go:17-33 | a token issued before another grant commits for nobody, under any clock |
| Fencing.CommittedTokensDoNotFall | internal/telemetry/coordination.go:29-33 | tokens of successful commits never fall, and stay equal exactly while nothing was granted between |
| Fencing.OneOwnerPerInstant | internal/telemetry/coordination.go:17-33 | two commits at one instant are one owner's if the clocks between them are not above it and never rise |
| Fencing.SteadyClockSettles | internal/telemetry/coordination.go:17-33 | a clock that never falls gives such clocks between any two commits at one instant |
| Fencing.InstantSharedIff | internal/telemetry/coordination.go:17-33 | two owners can commit at one instant exactly when some clock between them is above it or rises |
| Broadcast.SubscribersGetHistory | internal/telemetry/coordination.go:57-89 | outside a publication each subscriber has taken or buffered exactly the events between its subscribe and cancel points, in order, each once |
| Broadcast.TakenIsPrefix | internal/telemetry/coordination.go:57-89 | at any moment what a subscriber took is a prefix of what was published since it subscribed |
| Broadcast.OpenIffSubscribed | internal/telemetry/coordination.go:65-89 | a channel is in the map exactly while open; nothing is sent on a closed channel and none is closed twice |
| Broadcast.PointsAreFixed | internal/telemetry/coordination.go:65-80 | later steps never move a subscription's points and only extend the history |
| Broadcast.SubscribesAsAsked | internal/telemetry/coordination.go:65-80 | a subscription starts at the history of its moment and never holds more untaken events than it asked to buffer |
| StateMachines.NewStateMachine | internal/domain/state_machine.go:12-21 | the machine allows exactly the listed edges |
| StateMachines.StateMachine.ValidatePath | internal/domain/state_machine.go:32-42 | accepts exactly the valid paths and names the first bad step |
| StateMachines.StateMachine.Reachable | internal/domain/state_machine.go:44-63 | terminates on every graph and lists exactly the start and every state some valid path reaches, strictly ascending |
| StateMachines.ReachableUnique | internal/domain/state_machine.go:44-63 | the listing does not depend on the order maps are walked in |
| StateMachines.DefaultSurveyMissionMachine | internal/domain/state_machine.go:65-67 | the textual graph is the mission status relation on every pair, and nothing else |
| StateMachines.DefaultRecoveryJobMachine | internal/domain/state_machine.go:69-71 | the textual graph is the job status relation on every pair, and nothing else |
| StateMachines.DefaultDiveWindowMachine | internal/domain/state_machine.go:73-75 | the textual graph is the window status relation on every pair, and nothing else |
| Ordering.StableSort | internal/domain/search.go:46-60 | the result is sorted, a permutation, and keeps tied elements in their order |
| Ordering.StableSortUnique | internal/domain/search.go:46-60 | sortedness and the order of ties determine the result |
| Ordering.StringBeforeIff | internal/domain/search.go:46-60 | strings are ordered by the first character that differs, a prefix first |
| Paging.PagesJoin | internal/domain/search.go:61-69 | windows at 0, L, 2L, ... join to the covered part of the listing |
| Search.Normalize | internal/domain/search.go:24-36 | the normalised request is always in range and an in-range request keeps its fields |
| Search.SearchRecoveryJobs | internal/domain/search.go:38-69 | the answer is the requested window of the stable sort of the matching jobs, ascending or descending |
| Search.ListsWanted | internal/domain/search.go:38-45 | a listing holds each item as often as the items do if mission, status and text of the filter want it, else not at all |
| Search.ListsInOrder | internal/domain/search.go:46-60 | it runs by expiry, by lower-cased code or by ID, up or down as asked |
| Search.OutOfRangeRequest | internal/domain/search.go:24-36 | a limit outside 1 to 100 answers as 50, a negative offset as 0 |
| Search.AnswerUnique | internal/domain/search.go:38-69 | items and request determine the answer |
| Search.PagesGiveWhole | internal/domain/search.go:38-69 | answers at offsets 0, L, 2L, ... join to the whole listing, nothing lost or repeated |
| BuoyStore.Store.PutBuoy | internal/arrayops/store.go:49-57 | refuses an empty identity, else stores under the buoy's own id |
| BuoyStore.Store.QueryBuoys | internal/arrayops/store.go:171-190 | the page is the requested window of the selected buoys by ascending id; it panics exactly when the end of the page overflows |
| BuoyStore.LargestLimitOverflows | internal/arrayops/store.go:171-190 | one stored buoy, the largest limit and offset 1 make the end of the page overflow |
| BuoyStore.PageUnique | internal/arrayops/store.go:171-190 | a page is a function of contents and query, though the map order and the sort's treatment of ties are free |
| BuoyStore.PageShowsSelected | internal/arrayops/store.go:171-190 | a page counts all buoys of the tenant and class and shows some of them by strictly ascending id |
| BuoyStore.OutOfRangeQuery | internal/arrayops/store.go:171-190 | no positive limit means 50, a negative offset 0 |
| BuoyStore.PagesGiveWhole | internal/arrayops/store.go:171-190 | pages at offsets 0, L, 2L, ... join to every selected buoy once, in order |
| Retry.Delay | internal/worker/retry.go:15-30 | for all machine integers the loop computes the wrapped recursion and never exceeds the maximum |
| Retry.DelayClosedForm | internal/worker/retry.go:15-30 | for non-negative base and maximum every doubling is exact in 64 bits and the delay is the capped exponential, plus one in one case |
| Retry.DelayIsIdealIff | internal/worker/retry.go:15-30 | the delay meets the capped exponential exactly when that does not land one below the maximum, always for an even maximum |
| Retry.DelayIsMonotone | internal/worker/retry.go:15-30 | later attempts never wait less |
| Retry.OddMaximumJumps | internal/worker/retry.go:20-23 | base 1, maximum 5, attempt 3 waits 5 where the exponential is 4 |
| Retry.RunWithRetry | internal/worker/retry.go:32-58 | the exact events and outcome of a run against any environment |
| Retry.CallsBounded | internal/worker/retry.go:32-58 | at most Attempts calls, all but the last failed, success and giving up characterised exactly |
| Retry.TraceInOrder | internal/worker/retry.go:32-58 | a run is check, call, wait, round by round, each wait as long as the policy says for its round |
| Retry.CancellationIsLast | internal/worker/retry.go:38-55 | nothing follows an observed cancellation |
| Retry.RunUnique | internal/worker/retry.go:32-58 | the environment determines the run |
| AuditChain.Chain.Append | internal/audit/chain.go:12-33 | accepts exactly valid, encodable events; a rejected event leaves the head unchanged |
| AuditChain.AcceptedAreComplete | internal/audit/audit.go:21-29 | a run takes exactly the events with request, object, action and outcome that can be encoded, each with a detail |
| AuditChain.FramedApart | internal/audit/chain.go:23-26 | the hashed text determines both the previous head and the event |
| AuditChain.HeadCommits | internal/audit/chain.go:12-35 | equal heads mean equal accepted event sequences, unless two different texts these two runs hashed have one digest, or two different events they accepted encode alike |
| AuditChain.HeadIsOfAccepted | internal/audit/chain.go:12-35 | the head depends on the accepted events only |
| Keys.SplitUndoesJoin | internal/telemetry/stream.go:25-33 | splitting a joined list of NUL-free parts gives it back |
| Keys.JoinIdentifies | internal/arrayops/policy.go:9-24 | a NUL-free list shares its joined form with no other list of its length |
| Keys.StreamKeyIdentifies | internal/telemetry/stream.go:25-33 | a NUL-free scope shares its key with no other accepted scope |
| Keys.IdempotencyKeyIdentifies | internal/arrayops/policy.go:9-17 | the same for idempotency keys |
| Keys.CallbackKeyIdentifies | internal/arrayops/policy.go:19-24 | the same for callback keys |
| Keys.KeysCollideWithNul | internal/telemetry/stream.go:25-33 | two different accepted scopes with one key: the text next to a NUL ends one part or begins the next |
| SharedKeys.SharedIffCuttable | internal/arrayops/policy.go:9-24 | an accepted list of parts shares its joined text with another accepted list of as many parts exactly when some part can be cut at a NUL, leaving an acceptable piece on one side and a neighbour on the other |
| SharedKeys.StreamKeySharedIff | internal/telemetry/stream.go:25-33 | a scope shares its key with another accepted scope exactly when some part can be cut so |
| SharedKeys.IdempotencyKeySharedIff | internal/arrayops/policy.go:9-17 | the same for idempotency keys |
| SharedKeys.CallbackKeySharedIff | internal/arrayops/policy.go:19-24 | the same for callback keys, whose pieces need only be non-empty |
| SharedKeys.TwoNulsCuttable | internal/telemetry/stream.go:25-33 | two NULs in one part are always enough |
| SharedKeys.NulWithoutSharing | internal/telemetry/stream.go:25-33 | one NUL is not: a concrete scope that holds one and shares its key with no other |

## Left out

- Format checks of names, lanes, scales, reasons and time zones, and the columns only they look at: string checks before a transaction starts.
- Columns the transactions carry but never consult (names, methods, request ids, audit details, created-at times).
- Fresh ids are parameters of the operations, so an id that is already taken is a conflict rather than an impossibility.
- Changing an operator's role: the statement exists in the repository layer, no service calls it.
- `Service.WriteAuditEvent` (internal/service/audit.go:19-25) writes any event about any object; nothing calls it, and `Ledger.RunBalances` speaks of runs without it.
- Infrastructure faults: a commit that fails is the `commits` flag; failures of single statements for other reasons than constraints roll back the same way and are not enumerated.
- Isolation levels, row locks and SKIP LOCKED: `OptimisticLock` and `Installs` separate reads from writes for mission moves and job completion and archival, `LateReports` for report submission, the operations whose checks are not repeated in the write; every other transaction runs in one piece.
- 64-bit overflow of versions and counters of rows and streams.
- Listing queries, the SQL search, handoffs, assignments, reports, HTTP handlers, console, configuration and login: plumbing or easy members.
- StreamManager.Manager.Finalize: the audit callback is a predicate on the record; it neither changes the payload it shares with the caller nor calls back into the manager, which would deadlock on the lock.
- StreamManager.Manager.Snapshot: the state word of a stream is a flag, so the empty state of an empty stream reads as not sealed.
- Broadcast.SubscribersGetHistory: the broadcaster is a state machine over lock regions and channel operations, not a class, because sending blocks in the middle of publishing; a negative buffer size, which panics in the code, is not modelled, and nothing is claimed about a publication ever ending.
- AwaitProtocol.CompleteWaiterReturns: real scheduling and context deadlines are steps that may or may not be taken; a waiter with both signals ready may take either.
- The digest is a function parameter everywhere; no property of SHA-256 is assumed beyond its hexadecimal shape, and collisions appear as an explicit alternative.
- Search and Reachable compare strings by character; the code compares UTF-8 bytes, which order alike.
- Trimming and lower-casing are uninterpreted functions in Search, taken in Search.ListsWanted to change nothing when done twice; Prelude spells out the white space trimmed elsewhere.
- Delivery to a sink, the worker loop and the capacity counter of the coordination file: easy members beside the lease and the broadcaster.
