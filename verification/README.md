# Verified model of the control plane's job protocol, artifacts and setups

The control plane queues jobs for runners that live next to project checkouts. A runner claims a
job under a lease, acknowledges it, works, renews the lease and submits a result. On top of that
protocol a user requests a plan for a checkout, reviews it, approves it, and may roll the applied
operation back. The jobs carry content-addressed artifacts and draw on setup revisions.

This project models that machinery in Dafny and proves what holds of it over every run.

## How it is organised

* `Protocol`, `ResultMatching`: envelopes, results, and which result fits which job.
* `JobLifecycle`: one job row, what one step may do to it, and every run of a table of such rows.
* `MemoryTransport`, `MemoryRuns`: the in-memory repository as an object, proved against functions
  on its job map, and all runs of its calls.
* `ControlPlane`, `PostgresRepository`: the database transactions as relations between tables (a
  query that may return any of several rows allows each), and the repositories that carry them out
  statement by statement. `RepositoriesAgree` compares the two claims and the two completions.
* `Invariants`, `ControlPlaneRuns`, `ControlPlaneTheorems`: arbitrary interleavings of the
  transactions that write these tables, on a clock that never runs backwards, what every reachable
  state keeps, and the theorems. Publishing revisions and capturing a project's default setup
  appear as one event that may assign a new revision to any project at any time.
* `CheckoutHistory`, `DeviceOrder`: how the operations of one checkout, and the jobs of one device,
  follow one another.
* `ReadSide`, `Offers`, `CheckoutReads`: what a client reads about a checkout, and that what it is
  offered is what the write side accepts. `ReachableExample` is one history, step by step, in which
  a plan and then a rollback are offered; in `ThrownExample` it goes on to a submission that throws.
* `Evaluations`, `CanonicalPlans`, `RunnerExecution`: the runner's dispatch of a job around an
  engine whose outcomes are arbitrary.
* `Sorting`, `ArtifactPaths`, `ArtifactEncoding`, `BundleValidation`, `ArtifactTrees`,
  `ArtifactCaches`, `LibrarySnapshots`: artifact identity, from bytes to directories and back.
* `TableFacts` and the `...Answers` modules: which answer each call gives and what it writes, for all
  inputs, in terms of the fields of single rows, messages and items, apart from the functions that
  the transactions are made of. `QueueAnswers` has the three queueing calls, `ClaimAnswers` both claims,
  `CallAnswers` a runner's other calls, `StatusAnswers` and `StatusQueries` what clients read,
  `ExecutionAnswers` the runner, `SetupAnswers` setups, `BundleAnswers` bundles and snapshots.
* `JobSignals`: the wake-up behind the long poll. `Setups`, `SetupRuns`, `LibrarySetups`: setups.

## What was found on the way

Each of these is a proved statement, with the exact condition where a promise does not always hold.

* A cancelled apply or rollback answers for the project registered on the runner's machine. When
  that is not the job's project the control plane refuses the result. It also refuses an evaluation
  cancelled on a job that names a checkout, and an evaluation with a side over 300 seconds. In every
  other branch the runner's envelope is accepted (`EnvelopesAreAcceptedExactly`; a refused one in
  `ACancellationElsewhereIsRefused`).
* A cancelled evaluation ends as succeeded (`CancelledFirstEndsCancelled`).
* The in-memory repository accepts results that the database refuses, such as a plan for a scan;
  exactly which is `CompletionsDifferExactlyWhen`.
* A submission can throw: when an apply receipt reuses an operation id, or a rollback restores a
  revision its organization does not have (`SubmissionsThrowExactlyWhen`; a concrete history in
  `AReusedOperationThrows`). Nothing is written then.
* A checkout can be bound to another project. A plan reviewed before that stays on offer, and
  approving it answers a mismatch (`MovedCheckoutStillOffersAMismatch`; a concrete history in
  `AMovedCheckoutRefusesItsPlan`).
* An operation has one rollback job at most, whatever became of it: a rollback that failed cannot
  be asked for again (`RolledBackExactlyByItsRollback`).
* The database expires a leased job whose envelope ran out even while its lease is live; memory
  hands it out again. That is the only disagreement between the two claims on orderly jobs
  (`ClaimsAgreeExactlyUnlessALiveJobExpired`).
* The library snapshot turns backslashes into slashes where the directory hash refuses them
  (`SnapshotAgreesWithHashDir`; a concrete directory in `ABackslashDivides`).
* Reading a cached directory does not skip `.git`, which hashing does
  (`ReadingIsFaithfulExactlyWithoutHiddenPaths`; a concrete directory in `AHiddenFolderIsRead`).
* A cache slot whose non-empty directory lacks its digest can never be filled again, whatever is
  offered (`DamagedSlotsStayDamaged`; a concrete slot in `ADamagedSlotRefusesItsBundle`). No call brings a slot into that state, and an accepted bundle
  is stored exactly when its slot is not in it, by however many concurrent writers
  (`ConcurrentWritersSucceed`).
* Copying a directory leaves links and special files out without a word. The directory itself then
  has no digest, but its copy may (`CopiesHashAlikeExactlyWhenComplete`; a concrete directory in
  `ALinkIsLeftOut`).
* A setup that is both too full and already holds a target is refused for different reasons by the
  database and by memory (`AdditionsAgree`; a concrete setup in `AFullSetupDivides`).
* The database never lets a device hold two jobs, unless they were issued at the same instant
  (`JobsHeldTogetherWereIssuedTogether`); then both can even be under a live lease
  (`ATieIsHeldTwice`). Memory never does (`AtMostOneHeldJobPerDevice`).

## Assumptions

* One reading of the clock per transaction, none earlier than the one before. What is said of offers
  and of reads after an operation assumes more: no two transactions at the same instant (`Ticks`).
* Identifiers, lease ids, approval ids and revision ids are fresh, and a plan is requested for a
  revision that exists. An apply receipt's operation id is not assumed fresh.
* A transaction is atomic, and the five queries behind a checkout's status see one state.
* What a device reports does not change, where one held job per device and the order of first leases
  are concerned.
* How the database lowers the case of setup names and how memory does are two arbitrary functions;
  `AdditionsAgree` says what happens when they tell names apart differently.
* Idempotency keys are built from a prefix and an identifier; here they are constructors.
* SHA-256 is a free constructor for artifacts and for setup requests, so equal digests mean equal
  pre-images; elsewhere digests are opaque. No byte string is 2^64 bytes long.

## Model

| member | source | states |
|---|---|---|
| `JobLifecycle.RowStepKeepsShape` | apps/control-plane/src/runner-transport-memory.ts:286-394 | a held job has a lease and its expiry, a result fixes the terminal state, terminal rows and rows with a result never change, a new lease is one never seen before |
| `JobLifecycle.FinishedForGood` | apps/control-plane/src/runner-transport-memory.ts:340-394 | over every run, a terminal row or a row with a result stays exactly as it is |
| `JobLifecycle.RetiredForGood` | apps/control-plane/src/runner-transport-memory.ts:306-313 | a lease that was replaced never becomes the job's lease again |
| `JobLifecycle.StaleLeaseIsFenced` | apps/control-plane/src/runner-transport-memory.ts:306-424 | once a job holding a lease is found under another, no acknowledgement, control or completion with the old lease changes it or is accepted, ever |
| `JobLifecycle.CompletionIsFinal` | apps/control-plane/src/runner-transport-memory.ts:362-394 | a completion is accepted only from the current lease of an acknowledged job without a result; afterwards every submission is a duplicate exactly when its digest matches, else a conflict, and changes nothing |
| `MemoryTransport.InMemoryRunnerTransportRepository.EnqueueJob` | apps/control-plane/src/runner-transport-memory.ts:220-233 | the map gains a pending row, keeping the position of a key it had |
| `MemoryTransport.InMemoryRunnerTransportRepository.ClaimJob` | apps/control-plane/src/runner-transport-memory.ts:253-315 | new contents and answer are those of the claim specification: a live job first, else sweep and grant |
| `MemoryTransport.InMemoryRunnerTransportRepository.LiveJob` | apps/control-plane/src/runner-transport-memory.ts:272-282 | the first job, in map order, that the device holds under a live lease |
| `MemoryTransport.InMemoryRunnerTransportRepository.LeaseCandidate` | apps/control-plane/src/runner-transport-memory.ts:283-314 | the scan over all jobs in issue order |
| `MemoryTransport.InMemoryRunnerTransportRepository.GrantFirst` | apps/control-plane/src/runner-transport-memory.ts:286-313 | expires what ran out up to the first candidate left, and grants that one |
| `MemoryTransport.InMemoryRunnerTransportRepository.AcknowledgeJob` | apps/control-plane/src/runner-transport-memory.ts:317-345 | accepted, duplicate, conflict or unknown, with the row it leaves |
| `MemoryTransport.InMemoryRunnerTransportRepository.CompleteJob` | apps/control-plane/src/runner-transport-memory.ts:347-394 | the stored digest decides first, then lease and state, then the result check; the terminal state follows the result |
| `MemoryTransport.InMemoryRunnerTransportRepository.JobControl` | apps/control-plane/src/runner-transport-memory.ts:396-424 | renews the lease of the current holder, even a lapsed one, and reports a requested cancellation |
| `MemoryTransport.InMemoryRunnerTransportRepository.CancelJob` | apps/control-plane/src/runner-transport-memory.ts:440-457 | ends a pending job, marks a held one, and refuses the rest |
| `MemoryTransport.ScanMeaning` | apps/control-plane/src/runner-transport-memory.ts:286-313 | the granted job is the first eligible candidate; before it only expired rows change, after it nothing |
| `MemoryTransport.FirstLiveMeaning` | apps/control-plane/src/runner-transport-memory.ts:272-282 | no answer exactly when the device holds nothing live |
| `MemoryTransport.ClaimRow` | apps/control-plane/src/runner-transport-memory.ts:286-313 | a claim leaves a row, expires it, or grants it when eligible; no row is lost |
| `MemoryRuns.HeldRivalWasSwept` | apps/control-plane/src/runner-transport-memory.ts:286-313 | when a claim grants a job, any other job the device held came before it and was expired by the same scan |
| `MemoryRuns.RunIsDisciplined` | apps/control-plane/src/runner-transport-memory.ts:253-457 | every run keeps map and order consistent, one held job per device, and first leases in order |
| `MemoryRuns.RunTakesAnyAllowedCall` | apps/control-plane/src/runner-transport-memory.ts:253-457 | no run is stuck: every call with fresh identifiers can follow |
| `MemoryRuns.MemoryRunIsTableRun` | apps/control-plane/src/runner-transport-memory.ts:253-457 | fencing and final results, proved of all runs of a job table, hold of this repository |
| `MemoryRuns.StaleCallsChangeNothing` | apps/control-plane/src/runner-transport-memory.ts:317-424 | a call with a replaced lease is never accepted and leaves the whole repository as it was |
| `MemoryRuns.AtMostOneHeldJobPerDevice` | apps/control-plane/src/runner-transport-memory.ts:253-424 | at any time a device has at most one leased or acknowledged job, lapsed and renewed leases included |
| `MemoryRuns.FirstLeasesFollowIssueOrder` | apps/control-plane/src/runner-transport-memory.ts:283-313 | when a job was leased, every supported job issued before it for that device was leased too or has ended |
| `PostgresRepository.First` | apps/control-plane/src/switching-pg.ts:153-163 | an ordered query with limit 1 returns a wanted row that no wanted row precedes, or none when there is none |
| `PostgresRepository.PostgresRepository.ExpirePendingSetupOperations` | apps/control-plane/src/switching-pg.ts:131-146 | exactly the checkout's pending operations whose envelope ran out become expired, with a completion time |
| `PostgresRepository.PostgresRepository.ActiveSetupOperation` | apps/control-plane/src/switching-pg.ts:148-164 | the oldest active operation of the checkout, none exactly when it is idle |
| `PostgresRepository.PostgresRepository.EnqueuePlan` | apps/control-plane/src/switching-pg.ts:491-516 | sweeps, then queues or reports the operation in the way; without a checkout nothing happens |
| `PostgresRepository.PostgresRepository.ExistingApproval` | apps/control-plane/src/switching-pg.ts:547-567 | an approval of the same plan and digest, if there is one |
| `PostgresRepository.PostgresRepository.LatestPlanAttempt` | apps/control-plane/src/switching-pg.ts:568-575 | the one newest plan job of the checkout |
| `PostgresRepository.PostgresRepository.ObjectionToPlan` | apps/control-plane/src/switching-pg.ts:568-599 | the first objection in the order superseded, not ready, mismatch, conflicts, offline, incapable |
| `PostgresRepository.PostgresRepository.ApproveAndEnqueueApply` | apps/control-plane/src/switching-pg.ts:518-664 | the approval transaction, every answer and every table |
| `PostgresRepository.PostgresRepository.EnqueueRollback` | apps/control-plane/src/switching-pg.ts:666-737 | the rollback transaction, every answer and every table |
| `PostgresRepository.PostgresRepository.ExistingRequest` | apps/control-plane/src/switching-pg.ts:699-707 | a job with the same device and idempotency key, if there is one |
| `PostgresRepository.PostgresRepository.ExpireForDevice` | apps/control-plane/src/runner-transport-pg.ts:619-624 | the device's pending and leased jobs with an exhausted envelope become expired, live lease or not |
| `PostgresRepository.PostgresRepository.ExistingLease` | apps/control-plane/src/runner-transport-pg.ts:625-635 | an oldest supported job under a live lease, none exactly when there is none |
| `PostgresRepository.PostgresRepository.GrantOldest` | apps/control-plane/src/runner-transport-pg.ts:637-661 | grants an oldest job that is free, or nothing when none is |
| `PostgresRepository.PostgresRepository.ClaimJob` | apps/control-plane/src/runner-transport-pg.ts:593-663 | the claim transaction, jobs and device row |
| `PostgresRepository.PostgresRepository.AcknowledgeJob` | apps/control-plane/src/runner-transport-pg.ts:665-700 | the acknowledgement transaction |
| `PostgresRepository.PostgresRepository.PersistPortableReceipt` | apps/control-plane/src/runner-transport-pg.ts:179-295 | the receipt row and the assignment it moves, or the exception and no change |
| `PostgresRepository.PostgresRepository.CompleteJob` | apps/control-plane/src/runner-transport-pg.ts:702-745 | the completion transaction; an exception leaves every table as it was |
| `PostgresRepository.PostgresRepository.JobControl` | apps/control-plane/src/runner-transport-pg.ts:747-779 | touches the device, renews the holder's lease, tells conflict from unknown |
| `PostgresRepository.PostgresRepository.CancelJob` | apps/control-plane/src/runner-transport-pg.ts:800-815 | ends a pending job, marks a held one, refuses the rest |
| `PostgresRepository.PostgresRepository.RegisterProjectInstance` | apps/control-plane/src/runner-transport-pg.ts:484-511 | binds or re-binds the runner's own checkout, refuses another's, and throws for a second checkout of one project on one device; nothing else changes |
| `QueueAnswers.PlanAnswersExactly` | apps/control-plane/src/switching-pg.ts:491-516 | a plan is queued exactly when no operation of the checkout is held or waits with time left; otherwise the oldest of these is reported and nothing is inserted; a waiting operation is expired only when its own time is up |
| `QueueAnswers.ApprovalAnswersExactly` | apps/control-plane/src/switching-pg.ts:518-664 | which of ten answers an approval gets, decided on the fields of the plan job, the checkout and the device: a revoked device, or one not in touch since the limit, is offline, one that does not report applies is incapable; the job and the approval that are written, and that nothing else is |
| `QueueAnswers.RollbackAnswersExactly` | apps/control-plane/src/switching-pg.ts:666-737 | the same for the seven answers to a rollback |
| `CallAnswers.NothingIsQueuedToARevokedDevice` | apps/control-plane/src/switching-pg.ts:207-221 | over every history, once a device was revoked no apply and no rollback is queued to it again |
| `ClaimAnswers.DatabaseClaimAnswersExactly` | apps/control-plane/src/runner-transport-pg.ts:593-663 | nothing is handed out exactly when the runner holds no job of a reported kind and none awaits it; otherwise the oldest held is repeated, or the oldest waiting leased; snapshot commands need a runner that reports snapshots; every other row stays or is one whose time is up |
| `ClaimAnswers.MemoryClaimAnswersExactly` | apps/control-plane/src/runner-transport-memory.ts:253-315 | the same for memory, where a held job is repeated even when its time is up |
| `ClaimAnswers.EnqueuePutsLast` | apps/control-plane/src/runner-transport-memory.ts:220-233 | a new job goes last, untouched; an identifier that is known keeps its place |
| `CallAnswers.CallsReachOwnJobsOnly` | apps/control-plane/src/runner-transport-pg.ts:665-779 | a runner's calls about a job that is not its own answer unknown and write nothing, but that a control call shows the device to be in touch |
| `CallAnswers.MemoryCallsReachOwnJobsOnly` | apps/control-plane/src/runner-transport-memory.ts:317-424 | in memory too |
| `CallAnswers.AcknowledgementAnswersExactly` | apps/control-plane/src/runner-transport-pg.ts:665-700 | accepted exactly from the lease of a leased job; then the same call again is a duplicate and any other a conflict |
| `CallAnswers.CompletionAnswersExactly` | apps/control-plane/src/runner-transport-pg.ts:702-745 | accepted exactly from the lease of an acknowledged job without a result, when the result fits; which terminal state each kind of result gives |
| `CallAnswers.ControlAnswersExactly` | apps/control-plane/src/runner-transport-memory.ts:396-424 | answered exactly for the holder of a held job, lapsed or not: the lease is renewed, nothing else changes, and a cancellation is reported exactly when one is on record |
| `CallAnswers.ResultsMatchExactly` | apps/control-plane/src/runner-transport-pg.ts:143-177 | which results fit which job, kind by kind |
| `CallAnswers.EvaluationsFitAlike` | apps/control-plane/src/evaluation-results.ts:8-35 | what an accepted evaluation shares with its definition (suite, profile, both revisions), the limits of its two sides, and the three checks, each named once |
| `CallAnswers.CompletionWritesExactly` | apps/control-plane/src/runner-transport-pg.ts:179-295 | in every history: the receipt row and the assignment after an accepted apply or rollback receipt, field by field, and that other results write neither |
| `CallAnswers.CancellationAnswersExactly` | apps/control-plane/src/runner-transport-pg.ts:800-815 | a waiting job is cancelled, a held one gets the request on record, any other is left alone and refused |
| `CallAnswers.MemoryCancellationAnswersExactly` | apps/control-plane/src/runner-transport-memory.ts:440-457 | the same for memory, which sets no completion time |
| `CallAnswers.CancellationsAreReportedExactly` | apps/control-plane/src/runner-transport-pg.ts:776-815 | over every history, a control call that is answered reports a cancellation exactly when one was requested while the job was waiting or held |
| `CallAnswers.RegistrationAnswersExactly` | apps/control-plane/src/runner-transport-pg.ts:484-511 | refused for an unknown project or another runner's checkout, an exception for a second checkout of one project on one device, otherwise bound |
| `RepositoriesAgree.MemoryGrantsTheOldest` | apps/control-plane/src/runner-transport-memory.ts:283-313 | with nothing live, memory grants an oldest eligible job, none exactly when none is eligible |
| `RepositoriesAgree.DatabaseGrantsTheOldest` | apps/control-plane/src/runner-transport-pg.ts:619-661 | with nothing live, the database grants an oldest job that memory would call eligible |
| `RepositoriesAgree.ClaimsAgreeExactlyUnlessALiveJobExpired` | apps/control-plane/src/runner-transport-pg.ts:619-661 | with distinct issue times and at most one live lease, both lease the same job with the same row exactly when no live job of the device has an exhausted envelope |
| `RepositoriesAgree.AnExpiredLiveJobDivides` | apps/control-plane/src/runner-transport-memory.ts:272-282 | the concrete case: memory returns the held job, the database expires it and returns nothing |
| `RepositoriesAgree.DatabaseAcceptsNoMore` | apps/control-plane/src/runner-transport-pg.ts:719-743 | what the database accepts memory accepts with the same row but for the completion time; duplicates agree; the rest is a conflict that changes nothing |
| `RepositoriesAgree.CompletionsDifferExactlyWhen` | apps/control-plane/src/runner-transport-memory.ts:362-384 | the two completions answer differently exactly when the current lease of an acknowledged job submits a result that fits only the looser check: a device job that names a checkout, or a project job's result that is neither a cancellation nor its own answer |
| `RepositoriesAgree.MemoryTakesAPlanForAScan` | apps/control-plane/src/runner-transport-memory.ts:368-376 | memory accepts a plan as a scan's result, the database does not |
| `ControlPlaneRuns.EarlierApprovalIsFound` | apps/control-plane/src/switching-pg.ts:547-567 | in a reachable state any approval of a plan is found by the query exactly when the digest is the reviewed one |
| `ControlPlaneRuns.EarlierRollbackIsFound` | apps/control-plane/src/switching-pg.ts:699-707 | the query by idempotency key finds exactly the rollback jobs of the operation |
| `ControlPlaneRuns.ReceiptBindingNeverBreaks` | apps/control-plane/src/runner-transport-pg.ts:185-258 | the exceptions for a receipt without approval and a rollback without receipt are unreachable |
| `ControlPlaneRuns.HistoryKeepsInv` | apps/control-plane/src/switching-pg.ts:491-737 | every history of interleaved transactions keeps the invariants on jobs, single flight, approvals, receipts and rollbacks |
| `ControlPlaneTheorems.HistoryIsTableRun` | apps/control-plane/src/runner-transport-pg.ts:593-815 | fencing and final results hold of the database control plane |
| `ControlPlaneTheorems.StaleCallsChangeNothing` | apps/control-plane/src/runner-transport-pg.ts:665-779 | a call with a replaced lease is never accepted, throws nothing, and leaves jobs, approvals, receipts and assignments as they were, at any later time |
| `ControlPlaneTheorems.AtMostOneOperationPerCheckout` | apps/control-plane/src/switching-pg.ts:131-164 | a checkout never has two plan, apply or rollback jobs pending, leased or acknowledged |
| `ControlPlaneTheorems.RequestsAreUniquePerDevice` | apps/control-plane/src/switching-pg.ts:181-205 | no two jobs but evaluations share an idempotency key, so that unique index never fires |
| `ControlPlaneTheorems.EachPlanIsAppliedAtMostOnce` | apps/control-plane/src/switching-pg.ts:547-656 | every apply job stands for one reviewed, conflict-free plan of its checkout, and no plan for two apply jobs |
| `ControlPlaneTheorems.ReceiptsCarryTheReviewedPlan` | apps/control-plane/src/runner-transport-pg.ts:166-172 | every stored receipt has the digest and revision of the final, conflict-free result of the very plan that its own apply job was approved from, complete before that job was issued |
| `ControlPlaneTheorems.AcceptedReceiptsAreRecorded` | apps/control-plane/src/runner-transport-pg.ts:185-258 | an accepted apply receipt belongs to an approved job and adds one row; an accepted rollback receipt rewrites one existing row; nothing else touches receipts |
| `ControlPlaneTheorems.SubmissionsThrowExactlyWhen` | apps/control-plane/src/runner-transport-pg.ts:185-278 | a submission throws exactly when it would be accepted but reuses an operation id, or moves an assignment to a revision the organization does not have |
| `ControlPlaneTheorems.ReceiptsAreSucceededApplies` | apps/control-plane/src/runner-transport-pg.ts:185-207 | receipt rows and succeeded apply jobs correspond one to one, and are as many |
| `ControlPlaneTheorems.RolledBackExactlyByItsRollback` | apps/control-plane/src/runner-transport-pg.ts:242-258 | a row is rolled back exactly when its rollback job succeeded or its apply receipt said so; an operation has at most one rollback job |
| `ControlPlaneTheorems.RolledBackReceiptsAreSucceededRollbacks` | apps/control-plane/src/runner-transport-pg.ts:242-258 | when apply receipts report applied or no change, rolled-back rows and succeeded rollbacks correspond one to one, and are as many |
| `Offers.NewestWasNeverRolledBack` | apps/control-plane/src/switching-pg.ts:298-306 | no rollback of the newest listed operation exists |
| `Offers.OfferedRollbackIsAccepted` | apps/web/src/switch-state.ts:10-21 | a rollback the client offers is never answered receipt missing, not recoverable, existing or in progress: it is queued exactly when the runner is available |
| `Offers.OfferedPlanIsApplicable` | apps/control-plane/src/switching-pg.ts:389-439 | an offered plan is never missing, not ready, superseded, already applied or blocked: it is a mismatch exactly when the checkout's project is not the plan's, and otherwise queued exactly when it has no conflicts and the runner is available |
| `Offers.OfferedCheckoutIsIdle` | apps/control-plane/src/switching-pg.ts:410-439 | while a plan is on offer, nothing of its checkout is pending, leased or acknowledged |
| `CheckoutHistory.ActiveOperationIsNewest` | apps/control-plane/src/switching-pg.ts:601-612 | an active operation was issued after every other operation of its checkout |
| `CheckoutHistory.ActiveOperationIsLast` | apps/control-plane/src/switching-pg.ts:131-164 | and not before any other of them ended |
| `CheckoutReads.FinishedOperationReadsBack` | apps/control-plane/src/switching-pg.ts:374-441 | right after an accepted receipt the checkout has no active operation and no plan on offer, holds what the receipt says, and is current exactly when that is assigned |
| `CheckoutReads.AppliedCheckoutIsCurrent` | apps/control-plane/src/switching-pg.ts:418-426 | a successful apply leaves the checkout current on its revision while it belongs to the same project |
| `CheckoutReads.RolledBackCheckoutIsCurrent` | apps/control-plane/src/runner-transport-pg.ts:259-278 | a successful rollback leaves it current exactly when it restored nothing or the project had an assignment |
| `CheckoutReads.OfferedPlanFitsItsCheckout` | apps/control-plane/src/switching-pg.ts:546-599 | with a fixed binding of checkouts an offered plan is queued, unless it has conflicts or the runner is not available |
| `CheckoutReads.MovedCheckoutStillOffersAMismatch` | apps/control-plane/src/runner-transport-pg.ts:494-501 | without it, every offered plan stays on offer after a move and is then refused as a mismatch |
| `StatusAnswers.HealthMeans` | apps/control-plane/src/switching-pg.ts:376-426 | attention, drifted, current or unknown, and the revision in place, on the fields of the rows read |
| `StatusAnswers.AttentionMeans` | apps/control-plane/src/switching-pg.ts:401-404 | over every history, a checkout calls for attention exactly when its newest apply or rollback failed or was cancelled and asks for a person, and no plan of the assigned revision was completed since |
| `StatusAnswers.FailedOperationReadsBack` | apps/control-plane/src/switching-pg.ts:374-441 | right after an accepted result of an apply or rollback that asks for a person, the checkout calls for attention and offers neither plan nor rollback |
| `StatusAnswers.ReviewedPlanMeans` | apps/control-plane/src/switching-pg.ts:410-439 | the plan on offer is that of the newest plan job, exactly when it succeeded after the newest operation ended |
| `StatusAnswers.RollbackOfferMeans` | apps/web/src/switch-state.ts:10-21 | the client offers exactly the rollback of the newest operation, if it can be undone, its revision is in place, nothing runs and nothing calls for attention |
| `StatusAnswers.ListMeans` | apps/control-plane/src/switching-pg.ts:336-372 | what each listed operation says of its row, and the operation in progress of its own |
| `StatusAnswers.TheTenNewestAreListed` | apps/control-plane/src/switching-pg.ts:298-306 | the list is of the ten newest applies and rollbacks, newest first: whatever is not on it is older than ten that are |
| `StatusQueries.QueriesMean` | apps/control-plane/src/switching-pg.ts:293-332 | which rows the other queries select: the assigned revision, the newest plan job, the last completed plan of that revision, and the oldest operation in progress, ties broken as in the queries |
| `StatusQueries.OneReading` | apps/control-plane/src/switching-pg.ts:293-332 | in every reachable state the five queries of a known checkout have one answer and no other, so what is said of readings is never said of nothing |
| `DeviceOrder.JobsHeldTogetherWereIssuedTogether` | apps/control-plane/src/runner-transport-pg.ts:619-661 | over every history with fixed reports, two jobs that a device holds at the same time were issued at the same instant: with distinct issue times it holds one at most |
| `DeviceOrder.FirstLeasesFollowIssueOrder` | apps/control-plane/src/runner-transport-pg.ts:637-661 | when a job was leased, every supported job issued before it for that device was leased too or has ended |
| `DeviceOrder.ATieIsHeldTwice` | apps/control-plane/src/runner-transport-pg.ts:637-661 | the concrete history: of two jobs issued together the second is leased while the first is lapsed, and the first is renewed |
| `ThrownExample.AReusedOperationThrows` | apps/control-plane/src/runner-transport-pg.ts:185-207 | a history of eighteen events after which a submission that reuses an operation id throws and writes nothing |
| `ReachableExample.APlanIsOffered` | apps/control-plane/src/switching-pg.ts:410-439 | a history of seven events after which a plan is on offer |
| `ReachableExample.ARollbackIsOffered` | apps/web/src/switch-state.ts:10-21 | a history of eleven events after which a rollback is on offer |
| `ReachableExample.AMovedCheckoutRefusesItsPlan` | apps/control-plane/src/runner-transport-pg.ts:494-501 | the concrete case of a moved checkout: the plan is still on offer, approving it is a mismatch |
| `Protocol.CountZeroExactlyWhenNothingActionable` | apps/web/src/switch-state.ts:61-65 | the actionable count is zero exactly when no action changes anything |
| `Evaluations.GradeMeaning` | crates/ahm-runner/src/evaluation.rs:113-139 | an answer is graded exactly when it names each of three cases once; each check compares with the expected line |
| `Evaluations.GradedChecksAreExpected` | crates/ahm-runner/src/evaluation.rs:132-136 | graded checks are the three the control plane counts, once each and short |
| `Evaluations.RunVariantMatches` | crates/ahm-runner/src/evaluation.rs:519-625 | one side fits the control plane's check exactly when it took at most 300 seconds |
| `Evaluations.ResultMatchesUnlessTooLong` | crates/ahm-runner/src/evaluation.rs:689-778 | so does the whole evaluation, on every path through it |
| `CanonicalPlans.BuildCanonicalPlan` | crates/ahm-runner/src/job_dispatcher.rs:585-701 | pushes, sorts and digests exactly the canonical plan, or fails |
| `CanonicalPlans.CanonicalActionMeans` | crates/ahm-runner/src/job_dispatcher.rs:585-671 | what each local action becomes: its change, its kind (removal, copy for one tool, link), its first tool, and whether only records change |
| `CanonicalPlans.CanonicalPlanMeaning` | crates/ahm-runner/src/job_dispatcher.rs:665-710 | the plan is in path and identifier order, holds every local action once, and counts nothing exactly when everything is kept |
| `CanonicalPlans.PlannedOrderIsForgotten` | crates/ahm-runner/src/setup_service.rs:1692-1723 | the planner has one action per target path, so the plan and its digest do not depend on the order of the actions |
| `CanonicalPlans.OrderMattersExactlyForTies` | crates/ahm-runner/src/job_dispatcher.rs:665-694 | for an arbitrary engine some order of the same actions gives another plan exactly when two of them share path and identifier and differ |
| `RunnerExecution.ProjectJobIsAcceptable` | crates/ahm-runner/src/job_dispatcher.rs:329-537 | every result of a project job is one the control plane accepts |
| `RunnerExecution.CancellationIsAcceptable` | crates/ahm-runner/src/job_dispatcher.rs:153-205 | a cancellation read first is accepted exactly unless projects differ or an evaluation names a checkout |
| `RunnerExecution.EnvelopesAreAcceptedExactly` | crates/ahm-runner/src/job_dispatcher.rs:251-548 | every envelope, in every branch, is accepted exactly unless one of three conditions holds |
| `RunnerExecution.ACancellationElsewhereIsRefused` | crates/ahm-runner/src/job_dispatcher.rs:153-205 | the concrete case: a rollback for project 1 cancelled where project 2 is registered |
| `RunnerExecution.WellPlacedJobsAreAccepted` | crates/ahm-runner/src/job_dispatcher.rs:251-548 | always, when projects match, device jobs name no checkout and sides stay within 300 seconds |
| `RunnerExecution.ReceiptsAreForTheApprovedPlan` | crates/ahm-runner/src/job_dispatcher.rs:368-448 | an apply receipt implies a matching, unexpired approval whose digest is that of the plan computed locally, without conflicts; a rollback is promised exactly when something changed |
| `ExecutionAnswers.EnvelopeRepeatsTheJob` | crates/ahm-runner/src/job_dispatcher.rs:539-547 | the envelope repeats the job's identifiers, key and checkout under the runner's own device |
| `ExecutionAnswers.GuardsAnswer` | crates/ahm-runner/src/job_dispatcher.rs:261-345 | the error of each failing guard, in the order in which they are tried |
| `ExecutionAnswers.CancellationsAnswer` | crates/ahm-runner/src/job_dispatcher.rs:153-205 | what a job cancelled before it runs answers, by its kind and by whether an interrupted operation could be restored |
| `ExecutionAnswers.ScansAnswer` | crates/ahm-runner/src/job_dispatcher.rs:91-138 | a scan answers with what was discovered |
| `ExecutionAnswers.PlansAnswer` | crates/ahm-runner/src/job_dispatcher.rs:349-367 | a plan answers with the canonical form of what was staged, exactly when every action is portable |
| `ExecutionAnswers.LibraryActionsAnswer` | crates/ahm-runner/src/job_dispatcher.rs:307-324 | a library action answers with the library's value |
| `ExecutionAnswers.AppliesAnswer` | crates/ahm-runner/src/job_dispatcher.rs:368-475 | an apply answers by how far it got; its receipt names the operation carried out, the revision, the digest of the plan computed here and the number of actions that change something |
| `ExecutionAnswers.RollbacksAnswer` | crates/ahm-runner/src/job_dispatcher.rs:479-521 | a rollback answers with the revision it restored, or with how it was interrupted |
| `ExecutionAnswers.EvaluationsAnswer` | crates/ahm-runner/src/evaluation.rs:689-778 | an evaluation answers for its own suite and profile with both sides as they ran, the second only when the first was neither cancelled nor interrupted |
| `ArtifactPaths.JoinOfSplit` | crates/ahm-runner/src/content_hash.rs:27-35 | joining the segments of a path gives the path |
| `ArtifactPaths.SplitOfJoin` | crates/ahm-runner/src/content_hash.rs:27-35 | splitting a path made of segments gives the segments |
| `ArtifactPaths.HostedIsPortableAndShort` | apps/control-plane/src/runner-transport.ts:191-204 | the control plane takes exactly the runner's portable paths of at most 500 UTF-16 units |
| `BundleAnswers.LengthsAdd` | apps/control-plane/src/runner-transport.ts:191-204 | lengths of paths are counted in UTF-16 units: two for a character beyond the first plane |
| `ArtifactEncoding.ArtifactDigestOf` | apps/control-plane/src/artifact-digest.ts:5-25 | one running hash over a sorted copy computes the digest |
| `ArtifactEncoding.DecodingRecoversTheEntries` | apps/control-plane/src/artifact-digest.ts:5-25 | the hashed bytes decode to the entries in byte order |
| `ArtifactEncoding.DigestIdentifiesTheEntries` | apps/control-plane/src/artifact-digest.ts:12-24 | for unique paths digests are equal exactly when the entries are, in any input order |
| `Sorting.Utf8IsInjective` | apps/control-plane/src/artifact-digest.ts:14-17 | different paths have different bytes |
| `Sorting.Utf8CharSpells` | apps/control-plane/src/artifact-digest.ts:14-17 | the bytes of a character spell its code point, as many as it needs |
| `BundleValidation.CheckEntries` | apps/control-plane/src/runner-transport.ts:188-223 | accepts exactly well-shaped entries with unique hosted paths within 10 MiB |
| `BundleValidation.CheckParents` | apps/control-plane/src/runner-transport.ts:224-232 | accepts exactly when every ancestor is listed as a directory |
| `BundleValidation.ValidateArtifactBundle` | apps/control-plane/src/runner-transport.ts:181-236 | accepts exactly the acceptable bundles; too large only when the bytes are |
| `BundleAnswers.AcceptableMeans` | apps/control-plane/src/runner-transport.ts:181-236 | which bundles are acceptable, down to the characters of their paths, the numbers of entries and bytes, and the parents listed |
| `BundleAnswers.SnapshotableMeans` | crates/ahm-runner/src/library_snapshot.rs:38-106 | of which directories a snapshot is taken, down to the characters of their paths |
| `BundleAnswers.ReadingMeans` | crates/ahm-runner/src/artifact_cache.rs:81-117 | a directory is read exactly when it holds no special file and at most 10 MiB |
| `ArtifactTrees.CollectEntries` | crates/ahm-runner/src/content_hash.rs:13-41 | lists the visible paths once each, failing exactly when one is not portable |
| `ArtifactTrees.HashDir` | crates/ahm-runner/src/content_hash.rs:7-60 | the digest of what is visible, whatever the walk's order |
| `ArtifactTrees.ListingOrderIsIrrelevant` | crates/ahm-runner/src/content_hash.rs:42-59 | any two walks give the same sorted entries and size |
| `ArtifactTrees.WriteBundle` | crates/ahm-runner/src/artifact_cache.rs:130-160 | the directory after the entries were written one by one, or the failure |
| `ArtifactTrees.OnlyPlainEntriesAreStored` | crates/ahm-runner/src/artifact_cache.rs:130-160 | whatever entries are stored lie on portable paths, are directories or files with content, and hold at most 10 MiB |
| `ArtifactTrees.StoringBuildsTheTree` | crates/ahm-runner/src/artifact_cache.rs:132-160 | entries that describe a directory build it in any order |
| `ArtifactTrees.ReadEntries` | crates/ahm-runner/src/artifact_cache.rs:85-117 | every path in byte order, failing exactly on a special file or more than 10 MiB |
| `ArtifactTrees.CopyDir` | crates/ahm-runner/src/sync_engine.rs:259-297 | keeps exactly the visible folders and files, in any order of the walk |
| `ArtifactTrees.CopiesHashAlikeExactlyWhenComplete` | crates/ahm-runner/src/sync_engine.rs:284-297 | a copy has its source's digest exactly when no visible link or special file was left out, or neither has one |
| `ArtifactTrees.ALinkIsLeftOut` | crates/ahm-runner/src/sync_engine.rs:284-297 | the concrete case: a directory that holds one link |
| `ArtifactTrees.AHiddenFolderIsRead` | crates/ahm-runner/src/artifact_cache.rs:88-117 | the concrete case: a directory with a `.git` folder reads as entries of another digest |
| `ArtifactTrees.BundleAndTreeUndoEachOther` | crates/ahm-runner/src/artifact_cache.rs:81-173 | an accepted bundle, stored in any order, builds a directory of its digest that reads back as the same entries in byte order |
| `ArtifactTrees.ReadingIsFaithfulExactlyWithoutHiddenPaths` | crates/ahm-runner/src/artifact_cache.rs:88-117 | entries read from a directory have its digest exactly when it has no `.git` path |
| `ArtifactCaches.ArtifactCache.Contains` | crates/ahm-runner/src/artifact_cache.rs:40-46 | present, missing, or broken when it cannot be hashed |
| `ArtifactCaches.ArtifactCache.Publish` | crates/ahm-runner/src/artifact_cache.rs:161-167 | moves a verified directory into a vacant slot; otherwise changes nothing, and succeeds when a faster writer put the digest there |
| `ArtifactCaches.ArtifactCache.Store` | crates/ahm-runner/src/artifact_cache.rs:120-173 | the cache after a bundle was offered, and the answer |
| `ArtifactCaches.ArtifactCache.Snapshot` | crates/ahm-runner/src/artifact_cache.rs:48-79 | the cache after a directory was copied and offered, and the answer |
| `ArtifactCaches.ArtifactCache.BundleFor` | crates/ahm-runner/src/artifact_cache.rs:81-118 | absent, failed, or the entries of the slot |
| `ArtifactCaches.LookupMeans` | crates/ahm-runner/src/artifact_cache.rs:40-118 | a lookup misses a vacant slot or one with another digest, and fails on what cannot be hashed or, under its digest, not read |
| `ArtifactCaches.WrittenBundlesAreBounded` | crates/ahm-runner/src/artifact_cache.rs:120-160 | whatever is written comes from at most 5,000 entries and 10 MiB, on portable paths |
| `ArtifactCaches.StartedCallsStayUnderWay` | crates/ahm-runner/src/artifact_cache.rs:120-160 | over every interleaving, a call that found its slot missing stays under way, with what it offers, until it ends |
| `ArtifactCaches.StoredBundlesAreFound` | crates/ahm-runner/src/artifact_cache.rs:81-173 | a stored bundle is found again entry for entry, and other slots are untouched |
| `ArtifactCaches.OffersSucceedExactlyUnlessDamaged` | crates/ahm-runner/src/artifact_cache.rs:120-173 | offering an accepted bundle succeeds exactly when its slot is vacant or already has the digest |
| `ArtifactCaches.ADamagedSlotRefusesItsBundle` | crates/ahm-runner/src/artifact_cache.rs:161-166 | the concrete case: an accepted bundle and a slot that cannot take it |
| `ArtifactCaches.DamagedSlotsStayDamaged` | crates/ahm-runner/src/artifact_cache.rs:161-166 | over every interleaving of calls a non-empty directory without its digest stays as it is, every offer for it fails, no lookup finds it |
| `ArtifactCaches.ConcurrentWritersSucceed` | crates/ahm-runner/src/artifact_cache.rs:161-166 | a call that stores an accepted bundle succeeds, at once or however much later it ends and whoever was faster, exactly when its slot was not damaged when it began |
| `ArtifactCaches.StoredBundlesStayFound` | crates/ahm-runner/src/artifact_cache.rs:81-173 | once a bundle was stored, every later lookup finds exactly its entries, whatever else is offered |
| `ArtifactCaches.LookupsAreFaithful` | crates/ahm-runner/src/artifact_cache.rs:81-118 | in a cache that started empty whatever a lookup finds has the digest it was looked up by, under any interleaving; it misses only what was never published and fails only on what cannot be read |
| `LibrarySnapshots.TakeOne` | crates/ahm-runner/src/library_snapshot.rs:53-85 | the bounded read never underflows and an accepted file is complete |
| `LibrarySnapshots.Take` | crates/ahm-runner/src/library_snapshot.rs:38-106 | succeeds exactly on snapshotable directories, with every visible file in full and the digest of its entries |
| `LibrarySnapshots.SnapshotAgreesWithHashDir` | crates/ahm-runner/src/library_snapshot.rs:57-62 | a snapshot's digest is the directory's exactly when no visible path has a backslash; otherwise the directory has none |
| `LibrarySnapshots.ABackslashDivides` | crates/ahm-runner/src/library_snapshot.rs:57-62 | the concrete case: a snapshot is taken of a directory that has no digest |
| `LibrarySnapshots.SnapshotsAreAcceptable` | crates/ahm-runner/src/library_snapshot.rs:87-116 | without backslashes a snapshot is a bundle the control plane accepts |
| `JobSignals.JobSignal.ResolvePassed` | apps/control-plane/src/runner-transport.ts:272-277 | takes exactly the passed waiters out, over a copy of the set |
| `JobSignals.JobSignal.Notify` | apps/control-plane/src/runner-transport.ts:267-279 | counts up and resolves exactly the waiters of older generations |
| `JobSignals.JobSignal.Wait` | apps/control-plane/src/runner-transport.ts:281-302 | ends at once or registers the waiter |
| `JobSignals.JobSignal.Timeout` | apps/control-plane/src/runner-transport.ts:288-292 | the timer acts on the set it captured |
| `JobSignals.WaitsEndAtOnceExactly` | apps/control-plane/src/runner-transport.ts:281-302 | a wait ends at once exactly when it has no time or something was announced since the generation was read; otherwise its waiter is in the set of its device |
| `JobSignals.NotifyKeepsSignal` | apps/control-plane/src/runner-transport.ts:267-279 | every open waiter stays in the set its timer holds and waits past its device's generation |
| `JobSignals.InterleavingIsOk` | apps/control-plane/src/runner-transport.ts:259-303 | that holds over every interleaving of polls, jobs, notifications and timers |
| `JobSignals.EventsAreNeverBlocked` | apps/control-plane/src/runner-transport.ts:267-292 | in every reachable state the timer of every pending poll can fire and every enqueued job can be announced |
| `JobSignals.NoLostWakeUp` | apps/control-plane/src/runner-transport.ts:524-538 | a poll that read its generation before a job's notification is never left waiting |
| `JobSignals.TimersEndOnlyUneventfulWaits` | apps/control-plane/src/runner-transport.ts:281-302 | a timer ends a wait only when nothing was announced since the generation was read |
| `JobSignals.SecondClaimSeesAnnouncedJobs` | apps/control-plane/src/runner-transport.ts:535-538 | a poll that claims again without a timer was woken by an announcement after it read its generation, and its claim runs after every announced job was enqueued |
| `Setups.InMemorySetupRepository.Select` | apps/control-plane/src/setups-memory.ts:83-85 | the selected items, or none when one is missing or changed |
| `Setups.InMemorySetupRepository.CreateSetup` | apps/control-plane/src/setups-memory.ts:103-150 | the new setup, or the refusal, and every map |
| `Setups.InMemorySetupRepository.PublishRevision` | apps/control-plane/src/setups-memory.ts:79-93 | the next revision in front, or the refusal |
| `Setups.InMemorySetupRepository.AddLibrarySkill` | apps/control-plane/src/setups-memory.ts:33-62 | the addition with carried items and its publication, the earlier answer, or the refusal |
| `SetupAnswers.CreationAnswersExactly` | apps/control-plane/src/setups-memory.ts:103-150 | refused exactly for a name taken up to case or an item that is gone or has changed; otherwise the first revision holds the selected items in order |
| `SetupAnswers.PublicationAnswersExactly` | apps/control-plane/src/setups-memory.ts:79-93 | which refusal is answered when, and what the revision put in front holds |
| `SetupAnswers.AdditionAnswersExactly` | apps/control-plane/src/setups-memory.ts:33-62 | the snapshot decides first, then an earlier publication, then what stands in the way; otherwise the revision in front carries the older items and holds the skill once for each target |
| `SetupAnswers.ValidationAnswersExactly` | apps/control-plane/src/setups.ts:97-136 | a request passes exactly with 1 to 5,000 items whose fields are given and short and whose destinations, trimmed, differ; the items passed on are these without the white space around their fields |
| `Setups.ValidatedItemsAreDistinct` | apps/control-plane/src/setups.ts:124-136 | validated items are 1 to 5,000 and name every destination once |
| `SetupRuns.RunKeepsLibraryOk` | apps/control-plane/src/setups-memory.ts:33-150 | every run keeps numbering, sizes, destinations, names and publications in order |
| `SetupRuns.HistoryIsLinear` | apps/control-plane/src/setups-memory.ts:86-91 | revisions are numbered n down to 1, with unique destinations and at most 5,000 items |
| `SetupRuns.HistoryIsAppendOnly` | apps/control-plane/src/setups-memory.ts:90-90 | every revision a setup ever had stays as it was |
| `SetupRuns.NamesAreUnique` | apps/control-plane/src/setups-memory.ts:104-106 | two setups of an organization never share a name, up to case |
| `SetupRuns.StalePublishersConflict` | apps/control-plane/src/setups-memory.ts:44-82 | once a revision was put on a number, by a publication or a library addition, either call that expects the number changes nothing, and is a conflict |
| `SetupRuns.EachSnapshotYieldsOneRevision` | apps/control-plane/src/setups-memory.ts:37-38 | a snapshot job yields one revision; later calls change nothing and repeat that answer exactly for the same request |
| `SetupRuns.PermutedRequestsAreTheSame` | apps/control-plane/src/setups.ts:189-194 | requests that differ in target order only have one digest |
| `SetupRuns.ReplaysAnswerTheSameRevision` | apps/control-plane/src/setups.ts:171-197 | a replay with its targets permuted, at any later time, returns the same revision and changes nothing |
| `SetupRuns.ServiceRecordsAreAllowed` | apps/control-plane/src/setups.ts:124-197 | what the service passes on meets what the runs assume |
| `LibrarySetups.LibrarySetupTables.LatestRevision` | apps/control-plane/src/library-setups-pg.ts:37-38 | a revision of the setup that none outnumbers |
| `LibrarySetups.LibrarySetupTables.AddLibrarySkill` | apps/control-plane/src/library-setups-pg.ts:6-69 | the transaction, every answer and every table |
| `LibrarySetups.RefusalsOfAdds` | apps/control-plane/src/library-setups-pg.ts:6-40 | which refusal comes first, for a stranger, a snapshot that does not serve or has no stored bundle, and a setup without revisions; nothing is written unless the skill is added |
| `LibrarySetups.RowIsARevision` | apps/control-plane/src/library-setups-pg.ts:37-40 | every revision row is one of the setup's revisions, with its items |
| `LibrarySetups.AdditionsAgree` | apps/control-plane/src/library-setups-pg.ts:11-61 | on mirrored states the transaction answers as memory does and leaves mirrored states, but for the reason given to a request refused both for its size and for a target, and but for a new name that is in use under only one of the two lowerings: one refuses it, the other adds |
| `LibrarySetups.AFullSetupDivides` | apps/control-plane/src/setups-memory.ts:45-46 | a setup of 5,000 items where memory answers target conflict and the database invalid items |

## Left out

* Enrollment, credentials, membership checks, and the devices kept by the in-memory repository.
* Audit events and timestamps inside receipts. Setup revisions are never deleted here.
* Row locks, `SKIP LOCKED`, and the skew between a step's clock reading and its commit.
* Authentication of the long poll: a runner is authenticated once before it waits, and nothing is claimed about a device revoked meanwhile.
* Which candidates a scan keeps, and the snapshots it takes of them: what it discovered is arbitrary.
* The runner's file system engine and journal: any outcome their types allow is considered.
* Running an evaluation: only the construction of its result is modelled, with any duration and ending; its fixed texts are represented by their lengths.
* Shape checks of JSON values (exact keys, digest and identifier formats), which types stand for; base64, which is taken as decoded.
* Paths that are not Unicode text, and case-insensitive file systems.
* Read failures of the file system during hashing, reading and snapshots.
* Keys joined with NUL characters are tuples: identifiers that contain NUL are not modelled.
* Text checks of setup names, library request keys and setup revision identifiers.
* The unique-violation handler of the library transaction: its checks come first, and the model has no concurrent writer.
* The order of revision item rows, which the queries leave open; the model keeps insertion order.
* The error code and retry flag of a listed operation, which are copied from its result.
* The composer's list of items, setup listings and status reads.
* JobSignals.JobSignal.Wait: does not model the second generation check inside `wait`, because nothing can run between it and the first.
* ArtifactCaches.ArtifactCache.Publish: takes the renaming of a directory over an empty one to succeed, as it does on POSIX systems.
