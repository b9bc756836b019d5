# Qualigence: delivery, execution and authority, verified

A Dafny 4.11 model of the protocols, state machines and durable formats at the centre of the
repository, with machine-checked proofs of what they promise. `dafny verify dfyconfig.toml` checks
the whole project. Automatic induction is switched off on every lemma, so that each is proved by its own
body alone.

The parts, each in modules named after what they model:

* **Runner delivery** (`ArtifactChunks`, `CoreEvidence`, `RunnerSpool`, `TraceDelivery`,
  `ArtifactDelivery`, `RunDelivery`). Trace events are numbered and spooled before they are sent,
  artifacts are cut into chunks and spooled before the event that names them, two pumps drain both
  to Core, and the run is completed last. Core may lose a call, stop half way through it, or do all
  of it and lose only the answer; the runner may restart at any point. The class `TenantRun` holds
  spool and Core of one run, and every method keeps its invariant, so the invariant holds in every
  reachable state.
* **Execution runtime and budget** (`ExecutionBudget`, `ExecutionTrace`, `ExecutionRuntime`). The
  language of traces is given recursively by the plan; the interpreter, whose dependencies may
  answer or throw anything at every stage, is proved to stay inside it.
* **Lease authority** (`LeaseAuthority`). The window of monotonic time in which a runner may act,
  and the renewal loop that moves it, cut into the pieces it runs without waiting.
* **Stop-request mailbox** (`StopMailbox`). Publishers and supervisors over atomic link, rename and
  rm, as a step machine with an inductive invariant over inodes and program counters.
* **Companion permits** (`CompanionPermits`). Approval, latches and one-time permits; what is proved
  is a property of histories.
* **Canonical JSON** (`CodeUnits`, `CanonicalJson`), **model gateway** (`ModelGateway`), **migration
  ledger** (`MigrationLedger`), **action value configuration** (`ActionValueConfiguration`),
  **freeze decision** (`FreezeDecision`), **backup directory** (`BackupDirectory`), **mission
  dispatch** (`MissionDispatch`).

Where the code is a class or a loop the model is one, proved against a specification function or an
abstract state; where it is an expression the model is a function. Clock readings, random tokens,
model and target answers, aborts and failures of input and output are parameters or arbitrary choices.

## What turned out not to hold

The code is modelled as it is; these are the places where a promise fails, with the exact condition
and an instance.

* `ArtifactUploadPump.Drain` returns without an error although an artifact stays unacknowledged,
  exactly when some pending artifact has a chunk that neither the spool nor Core holds
  (`ArtifactDelivery.ArtifactUploadPump.Drain`). An interrupted capture leaves such a manifest behind
  (`RunDelivery.ManifestWithoutChunks`), and the run is then completed all the same
  (`RunDelivery.InterruptedCaptureIsCompleted`).
* In a tenant run Core refuses every event that carries evidence other than artifact ids. A finding
  carries the two sides of each claim as "graph:node", so it can be delivered exactly when it has no
  claim and its graphs name only artifacts (`RunDelivery.FindingIsDeliverable`); with a claim it is refused whatever
  Core has, and its run never completed (`RunDelivery.FindingWithClaimIsRefused`, `OneClaimIsRefused`).
* The comment on the lease window says that a later wall-clock reading is never converted back into
  permission. `mayStartAction` does just that; a refusal is final exactly when the window is closed or
  past its deadline (`LeaseAuthority.RefusalIsFinal`, `WallClockRefusalIsTakenBack`).
  `assertActionActive`, which executors go through, closes the window.
* The gateway's account of tokens is lost exactly when the delay behind the first transient failure breaks, or
  the signal is aborted between the result and its use, while some total was known
  (`ModelGateway.InvokeStructured`, `BrokenDelayLosesTokens`).
* An append to the ledger that returns has its record findable exactly when it was before or the last
  line was empty; behind a torn line it is lost (`MigrationLedger.FileObservationMigrationStore.Append`,
  `TornLineLosesNextRecord`).
* The companion's broker does not compare the risk a human approved with the risk the permit is bound
  to. Every risky action was approved exactly when every permit used for one was also asked for under a risk
  other than the normal one (`CompanionPermits.RiskyActionWasApproved`, `UnnamedRiskIsNotApproved`). The
  daemon, which uses one risk for both (apps/companion/src/main.rs:752-765), sees to that.
* The print of `canonicalize` tells a value from all others without an array of one undefined item
  exactly when it has no such array itself (`CanonicalJson.PrintIdentifies`, `UndefinedItemIsLost`).
* Blocking a dispatch never ends exactly when its row is stale, the lease of its run does not fit and
  no store call fails, and it keeps the cycle from all dispatches behind it
  (`MissionDispatch.BlockingNeverEnds`, `LostLeaseBlocksForEver`).

## Model

| member | source | states |
|---|---|---|
| `ArtifactChunks.ChunksFor` | apps/runner/src/spooling-artifact-observer.ts:106-127 | the loop produces the tiling of the bytes given by the recursive specification |
| `ArtifactChunks.ChunksTileTheArtifact` | apps/runner/src/spooling-artifact-observer.ts:85-127 | for all bytes the chunks concatenate back to them, offsets are multiples of the chunk size, and their number is the manifest's totalChunks |
| `CoreEvidence.MissingRangesAreExact` | packages/core-modules/evidence/src/artifact-upload-service.ts:220-233 | a chunk offset lies in a reported range exactly when Core lacks that chunk |
| `CoreEvidence.ProgressIsExact` | packages/core-modules/evidence/src/artifact-upload-service.ts:135-181 | on genuine chunks Core acknowledges exactly when it has all of them and then stores exactly the captured bytes; otherwise it reports what it lacks; it never fails |
| `CoreEvidence.CoreLink.Ingest` | packages/core-application/src/runner/runner-session-service.ts:160-209 | the loop over a batch does what the recursive specification of ingestion says, and stops where it stops |
| `CoreEvidence.CoreLink.Submit` | packages/core-application/src/runner/runner-session-service.ts:160-209 | a submission whose answer is lost still left Core with some beginning of the batch ingested, and nothing else |
| `CoreEvidence.CoreLink.UploadChunk` | packages/core-modules/evidence/src/artifact-upload-service.ts:104-129 | a chunk upload whose answer is lost did nothing, all of it, or all but verifying and storing |
| `CoreEvidence.CoreLink.RegisterManifest` | packages/core-modules/evidence/src/artifact-upload-service.ts:86-102 | a registration whose answer is lost did nothing, all of it, or only kept the manifest |
| `RunnerSpool.WindowIsPrefix` | packages/runner-components/runner-spool/src/sqlite-runner-spool.ts:266-294 | a batch is a prefix of the pending events, and not empty when there is one and events may be sent |
| `RunnerSpool.TakeWindow` | packages/runner-components/runner-spool/src/sqlite-runner-spool.ts:266-294 | the loop that fills a batch within both limits agrees with the recursive specification |
| `RunnerSpool.ChunksInKeeps` | packages/runner-components/runner-spool/src/sqlite-runner-spool.ts:386-412 | the pending chunks are exactly the spooled ones inside the missing ranges |
| `RunnerSpool.RunSpool.Append` | packages/runner-components/runner-spool/src/sqlite-runner-spool.ts:221-264 | an append inserts the event at its number, repeats harmlessly, or fails and changes nothing |
| `RunnerSpool.RunSpool.SaveChunk` | packages/runner-components/runner-spool/src/sqlite-runner-spool.ts:338-373 | a chunk is inserted at its offset, repeats harmlessly, or fails and changes nothing |
| `RunnerSpool.AfterAckKeeps` | packages/runner-components/runner-spool/src/sqlite-runner-spool.ts:433-468 | a final acknowledgement takes the manifest and all chunks of its artifact, a partial one leaves exactly the chunks inside the missing ranges and records the progress, and no other artifact changes |
| `TraceDelivery.IngestExtendsPrefix` | packages/core-modules/evidence/src/trace-ingestor.ts:74-101 | for every stretch of recorded events starting no later than Core's log ends, Core ends with a longer prefix of the recording, by events whose artifacts it holds, and accepts the whole stretch exactly when it holds all its artifacts |
| `TraceDelivery.AfterSubmit` | apps/runner/src/trace-upload-pump.ts:35-57 | whether or not the answer came back, Core's log is still a prefix of the recording and every event it lacks is still spooled |
| `TraceDelivery.SpoolingTraceRecorder.Append` | apps/runner/src/spooling-trace-recorder.ts:30-43 | numbering stays contiguous from 1; a failed append leaves the number free and the spool unchanged |
| `TraceDelivery.TraceUploadPump.SendBatch` | apps/runner/src/trace-upload-pump.ts:35-57 | one batch moves the cursor to Core's next number and leaves in the spool exactly what Core lacks; an error or abort loses nothing |
| `TraceDelivery.TraceUploadPump.PumpOnce` | apps/runner/src/trace-upload-pump.ts:35-57 | whatever happens the delivery invariant holds; done is reported only when Core has the whole recording and the spool is empty |
| `TraceDelivery.TraceUploadPump.Drain` | apps/runner/src/trace-upload-pump.ts:59-66 | the drain ends against any Core, and ends without an error only with Core's log equal to the recording and the spool empty |
| `ArtifactDelivery.UploadAgrees` | apps/runner/src/artifact-upload-pump.ts:77-102 | uploading a chunk keeps spool and Core in agreement, loses no chunk and gets a fresh report |
| `ArtifactDelivery.RecordingProgress` | apps/runner/src/artifact-upload-pump.ts:77-102 | recording a fresh report loses no chunk and shrinks the spool whenever a spooled chunk is already on Core |
| `ArtifactDelivery.ArtifactUploadPump.SendRound` | apps/runner/src/artifact-upload-pump.ts:77-102 | a round over the pending chunks keeps everything held and strictly shrinks the spool unless it ends acknowledged or in an error |
| `ArtifactDelivery.ArtifactUploadPump.UploadMissing` | apps/runner/src/artifact-upload-pump.ts:77-102 | the rounds end; the artifact is acknowledged, and then stored in full, exactly when each of its chunks was on Core or in the spool |
| `ArtifactDelivery.ArtifactUploadPump.RegisterManifest` | apps/runner/src/artifact-upload-pump.ts:61-75 | registering again after a lost answer is harmless and brings a fresh report into the spool |
| `ArtifactDelivery.ArtifactUploadPump.Drain` | apps/runner/src/artifact-upload-pump.ts:41-59 | a drain that returns acknowledged all artifacts exactly when every pending one was held in full by spool and Core together; exactly those are stored, and nothing held is ever lost |
| `RunDelivery.TenantRun.Capture` | apps/runner/src/spooling-artifact-observer.ts:40-68 | a capture that returns refers only to artifacts whose manifest and chunks are all spooled |
| `RunDelivery.TenantRun.SaveArtifact` | apps/runner/src/spooling-artifact-observer.ts:40-53 | after manifest and chunks are saved the artifact is held in full; a failure on the way loses nothing held before |
| `RunDelivery.ManifestWithoutChunks` | apps/runner/src/spooling-artifact-observer.ts:40-53 | a manifest without its chunks is a legal state of spool and Core in which the artifact is held nowhere |
| `RunDelivery.InterruptedCaptureIsCompleted` | apps/runner/src/spooling-artifact-observer.ts:40-53 | a capture cut short behind the manifest of a non-empty artifact reaches that state, and a run finalized from there without an error is completed with the manifest still pending |
| `RunDelivery.TenantRun.Record` | apps/runner/src/spooling-trace-recorder.ts:30-43 | an event whose evidence was captured keeps the run's invariant: Core's events refer only to artifacts Core holds in full |
| `RunDelivery.TenantRun.Upload` | apps/runner/src/offer-runtime.ts:196-207 | artifacts then trace, after any number of restarts: a return without an error leaves Core with the recording and every captured artifact; only a reference that is no artifact can be refused |
| `RunDelivery.TenantRun.Replay` | apps/runner/src/replay-recovery.ts:22-35 | replaying one run delivers it or ends in an error; with artifacts pending and no persisted lease nothing is touched |
| `RunDelivery.ReplayPendingRuns` | apps/runner/src/replay-recovery.ts:15-37 | over several runs: those before the first error are delivered, those behind it are exactly as they were, and every run keeps its invariant |
| `RunDelivery.TenantRun.Finalize` | apps/runner/src/offer-runtime.ts:196-211 | completion is asked for only when the trace is drained and all captured artifacts are stored; the manifests are drained as well exactly when all pending artifacts were held in full |
| `RunDelivery.OnlyPlainTextIsRefused` | packages/core-modules/evidence/src/trace-ingestor.ts:74-131 | with all captured artifacts stored, a refused event refers to something that is no artifact |
| `RunDelivery.FindingIsDeliverable` | packages/runner-kernel/src/execution-runtime.ts:823-845 | the evidence of a finding is made of artifact ids alone exactly when it has no claim and its graphs name nothing else |
| `RunDelivery.FindingWithClaimIsRefused` | packages/core-modules/evidence/src/trace-ingestor.ts:74-131 | whatever Core has stored and logged, it refuses a finding with a claim as an unacknowledged artifact |
| `RunDelivery.OneClaimIsRefused` | packages/core-modules/evidence/src/trace-ingestor.ts:74-131 | the instance of one claim, about "cart:total" |
| `StopMailbox.StepKeepsInv` | apps/local-launcher/src/runtime-state.ts:71-139 | every file-system call of every process keeps the invariant about names, calls, places and claims |
| `StopMailbox.RunKeepsInv` | apps/local-launcher/src/runtime-state.ts:71-139 | the invariant holds in every state of every interleaving |
| `StopMailbox.MarkerIsClaimedAtMostOnce` | apps/local-launcher/src/runtime-state.ts:115-139 | no two claims in any interleaving take the same marker |
| `StopMailbox.TrueClaimIsJustified` | apps/local-launcher/src/runtime-state.ts:115-139 | a true claim took a valid, fresh marker of its own topology, published by some call or there at the start, and that topology was on record at an instant of the claim, when it made its comparison |
| `StopMailbox.ValidMarkerIsNeverLost` | apps/local-launcher/src/runtime-state.ts:71-139 | at every moment a valid marker is canonical, in the hands of a call in progress, used up by one claim, displaced by another valid marker, or still unpublished |
| `StopMailbox.TakenMarkerIsPutBack` | apps/local-launcher/src/runtime-state.ts:92-97 | a valid marker a publisher takes off the canonical name is put back unless another marker stands there |
| `StopMailbox.ReturningCallSawItsTopology` | apps/local-launcher/src/runtime-state.ts:71-113 | a publish that returns normally saw a marker of its topology at the canonical name at some instant of the call |
| `StopMailbox.RefusingCallSawAnotherTopology` | apps/local-launcher/src/runtime-state.ts:99-108 | a publish that refuses saw a valid marker of another topology at the canonical name during the call |
| `ExecutionBudget.DeterministicExecutionBudget.Begin` | packages/runner-kernel/src/execution-budget.ts:75-94 | a run is booked once, with three positive safe limits, or refused with the right code |
| `ExecutionBudget.DeterministicExecutionBudget.BeforeStep` | packages/runner-kernel/src/execution-budget.ts:96-103 | a step is counted exactly when the clock is in its limit, the index is a safe natural number and a step is left |
| `ExecutionBudget.DeterministicExecutionBudget.MaximumOutputTokens` | packages/runner-kernel/src/execution-budget.ts:105-113 | succeeds exactly in time with tokens left, and says how many |
| `ExecutionBudget.DeterministicExecutionBudget.ConsumeModelUsage` | packages/runner-kernel/src/execution-budget.ts:124-135 | usage with a total is booked even when it exceeds the budget, usage without one is refused unbooked |
| `ExecutionBudget.DeterministicExecutionBudget.RemainingWallClockMs` | packages/runner-kernel/src/execution-budget.ts:115-122 | succeeds exactly while the limit is not reached, also for a clock that ran backwards |
| `ExecutionTrace.StoppedShortIsNotPerformed` | packages/runner-kernel/src/execution-runtime.ts:409-492 | the trace language reads in one way: a run that stopped short never leaves the trace of a run that performed its plan |
| `ExecutionTrace.PerformedPrefix` | packages/runner-kernel/src/execution-runtime.ts:409-460 | a full trace is made of the traces of its items, one after the other |
| `ExecutionTrace.UniqueKeepsOrder` | packages/runner-kernel/src/execution-runtime.ts:835-845 | the references of a finding stand in the order of their first occurrences, none twice |
| `ExecutionTrace.ClaimRefsAt` | packages/runner-kernel/src/execution-runtime.ts:829-832 | each claim contributes its expected side and then its observed side, in order |
| `ExecutionRuntime.ExecutionPermit.AssertAuthorizedForDispatch` | packages/runner-kernel/src/execution-runtime.ts:309-353 | the dispatch mark is set exactly by a check that passed, and never taken back |
| `ExecutionRuntime.ExecutionRun.Execute` | packages/runner-kernel/src/execution-runtime.ts:531-541 | the executor is called at most once, only inside the wall clock, with the budget of that moment |
| `ExecutionRuntime.ExecutionRun.ExecuteAuthorized` | packages/runner-kernel/src/execution-runtime.ts:528-551 | a throw after the dispatch mark becomes an unknown outcome, a failed outcome ends the step, and every call follows observation, matching decision, resolution and authorization of the same step with steps and tokens left |
| `ExecutionRuntime.ExecutionRun.ExecuteStep` | packages/runner-kernel/src/execution-runtime.ts:494-552 | a step goes on exactly when its five events are all there and the last says ok; a denial is recorded and blocks |
| `ExecutionRuntime.ExecutionRun.Decide` | packages/runner-kernel/src/execution-runtime.ts:784-806 | a decision that departs from the planned step is refused unrecorded |
| `ExecutionRuntime.ExecutionRun.Verify` | packages/runner-kernel/src/execution-runtime.ts:566-594 | a check goes on exactly when verification passed; a finding is returned exactly when it is the last event, behind the failed verification it rests on; the verifier is asked once, for the claims of this check, and shown the first observation of the run and the last |
| `ExecutionRuntime.ExecutionRun.PerformStep` | packages/runner-kernel/src/execution-runtime.ts:430-456 | observing and executing one planned action either extends the performed part of the plan by it or stops the run inside it |
| `ExecutionRuntime.ExecutionRun.PerformCheck` | packages/runner-kernel/src/execution-runtime.ts:437-450 | a check compares the first observation of the run with the one just made, and takes the answered checks of the script exactly one further |
| `ExecutionRuntime.ExecutionRun.RunPlan` | packages/runner-kernel/src/execution-runtime.ts:409-471 | the stages of a planned run stop somewhere in the script of the plan, with a last check when the plan has none, and no more steps than the budget has |
| `ExecutionRuntime.ExecutionRun.RunObjectiveOnly` | packages/runner-kernel/src/execution-runtime.ts:473-492 | without a plan the script is one free action and one check |
| `ExecutionRuntime.ExecutionRun.Run` | packages/runner-kernel/src/execution-runtime.ts:378-407 | a completion is returned only with a trace that is a legal beginning of the plan's language, closed by exactly one terminal event that is last and agrees; passed exactly when the whole plan was performed; a finding exactly when it is the last stage, resting on the first and the last observation; the budget's books are as before |
| `ExecutionRuntime.PassedRunCheckedEveryClaim` | packages/runner-kernel/src/execution-runtime.ts:409-471 | in a run that passed the verifier answered for every verify step with the claims the step names, or for all expected claims of a plan without one, and each answer is in the trace |
| `ExecutionRuntime.CompletionAgrees` | packages/runner-kernel/src/execution-runtime.ts:694-722 | the completion drawn from an error or a result agrees with the trace, and a failed or thrown executor call never ends in passed or finding; thrown or failed after the dispatch mark it is error with an unknown outcome |
| `ExecutionRuntime.NoTerminalInside` | packages/runner-kernel/src/execution-runtime.ts:614-632 | no stage event closes the run |
| `LeaseAuthority.LeaseWindow.Renew` | apps/runner/src/lease-window.ts:41-46 | a renewal moves deadline, expiry and wall-clock baseline and leaves a closed window closed |
| `LeaseAuthority.LeaseWindow.MayStartAction` | apps/runner/src/lease-window.ts:54-66 | yes exactly when the window is open, the deadline not reached and the wall clock not behind its baseline |
| `LeaseAuthority.AuthorityFitsLease` | apps/runner/src/lease-window.ts:31-46 | every moment of authority lies before the end of the lease Core granted exactly when the window was reset within the safety margin after the grant |
| `LeaseAuthority.TwoIntervalsFit` | apps/runner/src/lease-renewal-controller.ts:64-66 | two renewal intervals fit into the lease exactly when it lasts at least 3 ms |
| `LeaseAuthority.RefusalIsFinal` | apps/runner/src/lease-window.ts:54-66 | a refused start is final exactly when the window is closed or past its deadline |
| `LeaseAuthority.WallClockRefusalIsTakenBack` | apps/runner/src/lease-window.ts:15-22 | a wall clock that jumped back and forth again gets the permission back |
| `LeaseAuthority.AcceptedLeaseLifecycle.DelayEnds` | apps/runner/src/lease-renewal-controller.ts:68-79 | the renewal is sent after the wait unless the run is over or the lease expired; with exact timers and at least 3 ms it never has |
| `LeaseAuthority.AcceptedLeaseLifecycle.Renewed` | apps/runner/src/lease-renewal-controller.ts:106-110 | with exact timers resets are at most two intervals apart and at most one after Core's grant; a closed window stays closed |
| `LeaseAuthority.AcceptedLeaseLifecycle.RenewalTimesOut` | apps/runner/src/lease-renewal-controller.ts:94-105 | a renewal not answered within the interval closes the window and aborts the execution |
| `LeaseAuthority.AcceptedLeaseLifecycle.AssertActionActive` | apps/runner/src/job-executor.ts:214-222 | an action is authorized before Core's expiry when the window was reset within the margin; with exact timers and a margin of an interval every renewal sees to that; with exact timers and a live renewal loop no margin is needed for not exceeding it; a no closes the window for good |
| `LeaseAuthority.AcceptedLeaseLifecycle.AssertLeaseActive` | apps/runner/src/job-executor.ts:204-212 | an expired lease closes the window for good; with exact timers, at least 3 ms and a live renewal loop it does not expire |
| `LeaseAuthority.AnyHistory` | apps/runner/src/job-executor.ts:103-222 | over any interleaving of time, renewals, refusals, checks and aborts, every authorization comes before Core's expiry under exact timers and a sufficient margin, and a closed window never authorizes again |
| `CompanionPermits.SessionControl.Pause` | apps/companion/src/emergency_stop.rs:50-56 | pausing has no effect on a stopped session |
| `CompanionPermits.SessionControl.Resume` | apps/companion/src/emergency_stop.rs:58-62 | resuming clears a pause and never an emergency stop |
| `CompanionPermits.PermitStore.Issue` | apps/companion/src/permit.rs:93-113 | the permit expires its time to live from now, saturating at the largest instant |
| `CompanionPermits.PermitStore.Consume` | apps/companion/src/permit.rs:122-159 | a token is used up exactly by a full match in time under open latches; a failure changes nothing and names the first check that failed |
| `CompanionPermits.Companion.Decide` | apps/companion/src/approval.rs:96-111 | approved exactly under open latches for a normal risk, or a risk that requires it when the human said yes; only such a risk reaches the human |
| `CompanionPermits.Companion.RequestPermit` | apps/companion/src/lib.rs:78-87 | a permit is minted exactly when approved, and recorded with the human's answer; a rejection mints nothing |
| `CompanionPermits.Companion.AuthorizeAction` | apps/companion/src/lib.rs:92-99 | an action is authorized exactly when the history gives leave: no stop or pause in force, a permit issued for this token and binding in the same undisturbed session, unused, unexpired, and never for the forbidden risk |
| `CompanionPermits.Companion.EmergencyStop` | apps/companion/src/lib.rs:111-114 | a stop latches and invalidates every pending permit |
| `CompanionPermits.TokenIsAuthorizedAtMostOnce` | apps/companion/src/permit.rs:120-159 | over every history a token is authorized at most once |
| `CompanionPermits.AuthorizationIsJustified` | apps/companion/src/permit.rs:120-159 | every authorization follows the only issue of its token, with its binding, before its expiry and with no stop or reset in between |
| `CompanionPermits.NothingAfterStopUntilReset` | apps/companion/src/emergency_stop.rs:64-76 | after a stop nothing is authorized and nothing issued until a reset |
| `CompanionPermits.RiskyActionWasApproved` | apps/companion/src/approval.rs:96-111 | over every sound history, all authorized actions but the normal ones had a human approval before them exactly when every permit used for more than the normal risk was also asked for under a risk other than the normal one |
| `CompanionPermits.HumanIsAskedByRequestedRisk` | apps/companion/src/approval.rs:96-111 | a permit has a human approval behind it exactly when the request named a risk other than the normal one, whatever risk it is bound to |
| `CompanionPermits.UnnamedRiskIsNotApproved` | apps/companion/src/lib.rs:78-87 | for every risk that requires approval: a request that names the normal one gets a permit that is used, and no human approved it |
| `CanonicalJson.EscapeReadsOneWay` | packages/runner-kernel/src/deterministic-policy-gate.ts:136-137 | up to its closing quote an escaped string reads in one way only, surrogates and control characters included |
| `CanonicalJson.SortedKeysDefine` | packages/runner-kernel/src/deterministic-policy-gate.ts:139-143 | the keys printed are exactly those with a defined value, in ascending order |
| `CanonicalJson.ReadsOneWay` | packages/runner-kernel/src/deterministic-policy-gate.ts:136-145 | in front of anything that may follow it a printed value reads in one way only, up to the order of fields and arrays of one undefined item; undefined items elsewhere included |
| `CanonicalJson.AlikePrintsAlike` | packages/runner-kernel/src/deterministic-policy-gate.ts:136-145 | the print is independent of the order of fields at every depth, and takes an array of one undefined item for an empty one |
| `CanonicalJson.CanonicalFormIsExact` | packages/runner-kernel/src/deterministic-policy-gate.ts:136-145 | two values, with undefined items or not, print alike exactly when they are the same up to the order of fields and arrays of one undefined item, which count as empty |
| `CanonicalJson.DigestIdentifiesAction` | packages/runner-kernel/src/deterministic-policy-gate.ts:147-159 | two action digests agree exactly for alike actions and the same run, decision, policy, risk and expiry |
| `CanonicalJson.DigestIdentifiesMendedAction` | packages/runner-kernel/src/deterministic-policy-gate.ts:147-159 | for actions without an array of one undefined item: exactly for the same action |
| `CanonicalJson.PrintIdentifies` | packages/runner-kernel/src/deterministic-policy-gate.ts:136-145 | among the values without an array of one undefined item, the print of a value tells it from every other exactly when it has no such array itself |
| `CanonicalJson.MendIsAlike` | packages/runner-kernel/src/deterministic-policy-gate.ts:136-138 | emptying such arrays leaves the print as it is, and leaves the value the same only when there was none |
| `CanonicalJson.UndefinedItemIsLost` | packages/runner-kernel/src/deterministic-policy-gate.ts:136-138 | the instance: an array of one undefined item prints as an empty one, while in front of another item the undefined one shows |
| `ModelGateway.TallyNext` | packages/model-gateway/src/model-gateway.ts:468-495 | the four accumulators say after each call whether all or any of the calls reported a determinable total, and the sum of those |
| `ModelGateway.TallyAccounts` | packages/model-gateway/src/model-gateway.ts:436-466 | a usage state built from the accumulators, directly or through an error, is a true account of the calls |
| `ModelGateway.AfterCall` | packages/model-gateway/src/model-gateway.ts:232-389 | after a call the loop goes on exactly when the failure was transient and waited for, or the output off its schema, with that retry still unused and no abort; every exit but the one of a broken delay gives a true account, and these two and the result are told by the turn alone |
| `ModelGateway.RunStructured` | packages/model-gateway/src/model-gateway.ts:206-391 | against any environment exactly the calls it leads to are made, at most three, all but the last retried for one transient failure and one schema mismatch at most; the exit is a broken delay exactly when the wait behind the first transient failure breaks, a result exactly when the last call brings one unaborted, and every exit but the broken delay gives a true account of tokens |
| `ModelGateway.InvokeStructured` | packages/model-gateway/src/model-gateway.ts:114-181 | against any environment callers get a true account exactly unless the delay behind the first transient failure broke, or a result was there and the signal aborted before its use, while some total was known; success exactly for a result not so aborted whose report goes through |
| `ModelGateway.BrokenDelayLosesTokens` | packages/model-gateway/src/model-gateway.ts:280-298 | the instance of two calls: ten tokens with an output off its schema, then a rate limit whose delay breaks, and the ten tokens are lost |
| `MigrationLedger.JoinedIsSpoilt` | packages/observation-migration/src/file-migration-store.ts:84-97 | behind a torn, spoilt or unterminated line no beginning of a record ever parses |
| `MigrationLedger.ProperBeginningIsNoRecord` | packages/observation-migration/src/file-migration-store.ts:84-97 | a proper beginning of a record never parses |
| `MigrationLedger.WriteKeepsSane` | packages/observation-migration/src/file-migration-store.ts:49-65 | a full or torn write keeps at most one parseable line a key and all terminated lines, and its record can be found exactly when it was written in full onto an empty line |
| `MigrationLedger.TerminatedIsFoundForEver` | packages/observation-migration/src/file-migration-store.ts:39-47 | a record on a terminated line is found for ever |
| `MigrationLedger.FileObservationMigrationStore.Reload` | packages/observation-migration/src/file-migration-store.ts:72-100 | the loop over the lines builds the map in which later parseable lines win |
| `MigrationLedger.FileObservationMigrationStore.Append` | packages/observation-migration/src/file-migration-store.ts:49-65 | an append under the lock keeps the ledger sane whatever it crashes into; one that returns leaves its key findable exactly when it was before or the last line was empty |
| `MigrationLedger.Migrate` | packages/observation-migration/src/migration-runner.ts:110-131 | an asset gets the ledger's result unless its source is corrupted, and its own otherwise; only its own record is added; a migration that is not cut short does to the lines of the ledger exactly what the specification says, torn last line or not |
| `MigrationLedger.MigrateAll` | packages/observation-migration/src/migration-runner.ts:110-131 | for every inventory and every sane ledger a run that gets through returns and leaves what the specification of the run says; on a clean last line it leaves every record findable; for consistent assets with nothing else under their keys it returns their own records |
| `MigrationLedger.MigrateUntilDone` | packages/observation-migration/src/migration-runner.ts:110-131 | from any ledger with nothing else under the keys of consistent assets, however often it crashes, a run that gets through returns what an uninterrupted one does |
| `MigrationLedger.RunReturnsOwnRecords` | packages/observation-migration/src/migration-runner.ts:110-131 | on a clean last line a run returns every asset's own record exactly when no other record stands under the key of an uncorrupted one when its turn comes |
| `MigrationLedger.ConsistentRunReturnsAll` | packages/observation-migration/src/migration-runner.ts:110-131 | whatever the last line of the ledger, assets that share a key share their record and get it |
| `MigrationLedger.TornLineTellsAssetsApart` | packages/observation-migration/src/migration-runner.ts:110-131 | two assets of one key with different records get different results behind a torn line than without one |
| `MigrationLedger.TornLineLosesNextRecord` | packages/observation-migration/src/file-migration-store.ts:49-65 | the instance: behind a line torn after its first bracket a whole record is appended and cannot be found |
| `ActionValueConfiguration.StringEndsAtFirstUnescapedQuote` | apps/runner/src/action-value-provider.ts:200-215 | the scanner stops exactly at the first quote that an even number of backslashes precedes |
| `ActionValueConfiguration.ParseJsonString` | apps/runner/src/action-value-provider.ts:200-215 | the scanning loop agrees with the specification on what is left of the text |
| `ActionValueConfiguration.ParseConfiguration` | apps/runner/src/action-value-provider.ts:170-198 | the loop with its moving offset returns what the specification says, errors included |
| `ActionValueConfiguration.DocumentReadsBack` | apps/runner/src/action-value-provider.ts:170-198 | whatever the escapes and the white space, a rendered list of pairs reads back as exactly its map, and a duplicate key is refused |
| `ActionValueConfiguration.ParsesExactlyTheWritten` | apps/runner/src/action-value-provider.ts:170-220 | the parser accepts exactly the texts that render some list of pairs with distinct keys, and returns its map |
| `FreezeDecision.RequiredIdsAreCanonical` | packages/observation-migration/src/freeze-decision.ts:40-68 | the table of required ids lists every canonical id once and nothing else |
| `FreezeDecision.SectionIdsDiffer` | packages/observation-migration/src/freeze-decision.ts:58-68 | the ids of a section, "item-1" and so on or the names of the veto items, are all different texts |
| `FreezeDecision.SectionsAreProper` | packages/observation-migration/src/freeze-decision.ts:23-56 | the sections of checklist v1 have different names and items, and its thirteen veto names are all different |
| `FreezeDecision.SectionCountsFollow` | packages/observation-migration/src/freeze-decision.ts:409-425 | the section counts follow from the checks on ids, duplicates and prefixes |
| `FreezeDecision.ValidateItems` | packages/observation-migration/src/freeze-decision.ts:378-408 | the loop over the items adds a reason exactly when some item is incomplete, misplaced, unfinished or repeated, and otherwise indexes them exactly |
| `FreezeDecision.ValidateIds` | packages/observation-migration/src/freeze-decision.ts:426-432 | comparing the number and looking each required id up accepts exactly the canonical set of ids |
| `FreezeDecision.ValidateVetoes` | packages/observation-migration/src/freeze-decision.ts:434-458 | accepts exactly when each veto item is attested once and recorded as passed |
| `FreezeDecision.ValidateWindowsChecklist` | packages/observation-migration/src/freeze-decision.ts:326-473 | accepts exactly the checklists with a proper header, the canonical items in some order, every veto item passed and attested, and one passing conclusion |
| `FreezeDecision.DecideGraphFreeze` | packages/observation-migration/src/freeze-decision.ts:531-583 | frozen exactly when no reason blocks, and exactly when all three inputs are accepted; signed off only then |
| `FreezeDecision.AcceptedIsPermutation` | packages/observation-migration/src/freeze-decision.ts:58-68 | the items of an accepted checklist are a permutation of the canonical ids |
| `BackupDirectory.CanonicalIsFixed` | apps/admin-cli/src/backup/backup-index.ts:81-120 | canonical form is a fixed point and keeps the records, also where the order cannot tell keys apart |
| `BackupDirectory.CanonicalIsValid` | apps/admin-cli/src/backup/backup-index.ts:123-180 | an index parses exactly when its canonical form does |
| `BackupDirectory.ParseIndex` | apps/admin-cli/src/backup/backup-index.ts:152-170 | the loop over the records accepts exactly distinct valid records whose number and total are as stated |
| `BackupDirectory.VerifyBackupDirectory` | apps/admin-cli/src/backup/backup-index.ts:209-233 | a directory verifies exactly when it is marked, its index canonical and valid, and every record borne out by bytes |
| `BackupDirectory.CopyObjects` | apps/admin-cli/src/commands/backup.ts:114-138 | the copy succeeds exactly when the store has what each manifest promises, also for keys that share an address |
| `BackupDirectory.RunBackup` | apps/admin-cli/src/commands/backup.ts:99-182 | a run not cut short succeeds exactly when objects match and the index is valid, and its directory then verifies with the canonical index; the final directory is never seen in any other state |
| `MissionDispatch.DelaysAreBoundedAndGrow` | apps/server/src/mission-dispatch-loop.ts:449-455 | delays stay between the initial and the maximal one and never shrink with more failures |
| `MissionDispatch.MissionDispatchLoop.RecordBackoff` | apps/server/src/mission-dispatch-loop.ts:449-455 | a failure gets a delay in bounds, no shorter than the one before, and the attempt waits until that long after the clock reading it was given at |
| `MissionDispatch.MissionDispatchLoop.AcceptExistingLease` | apps/server/src/mission-dispatch-loop.ts:329-347 | nothing happens exactly when the run has no lease; otherwise the dispatch is settled, accepted only with a lease of its own |
| `MissionDispatch.MissionDispatchLoop.AuthorizeConnection` | apps/server/src/mission-dispatch-loop.ts:349-370 | lets exactly the bound runner of the tenant pass, with the project in scope and every capability |
| `MissionDispatch.MissionDispatchLoop.Block` | apps/server/src/mission-dispatch-loop.ts:396-418 | a blocked dispatch is marked so and leaves the backoff; however many rounds the call is watched for, it is still blocking exactly when the row is stale for the version the dispatch was read with, the lease of the run does not fit, and no store call failed |
| `MissionDispatch.Environment.Mark` | packages/storage-providers/sqlite-runtime/src/sqlite-prd-mission-store.ts:326-372 | a mark is answered by row, version and attempt alone: it settles a pending row once, repeats harmlessly, and otherwise conflicts and changes nothing |
| `MissionDispatch.MissionDispatchLoop.DispatchOne` | apps/server/src/mission-dispatch-loop.ts:264-327 | at most one offer, only without a lease, to the bound and authorized runner under an unexpired policy and not before the backoff ends; accepted only with a lease of its own; while it backs off nothing happens, and it is told for how long |
| `MissionDispatch.MissionDispatchLoop.RunOnce` | apps/server/src/mission-dispatch-loop.ts:216-237 | over a cycle of this loop or of one started after a crash, no run is offered once its lease exists, and leases only grow; a dispatch that is still blocking keeps the cycle from every one behind it |
| `MissionDispatch.NoOfferOnceLeased` | apps/server/src/mission-dispatch-loop.ts:286-304 | in the whole history of offers a run that had a lease is never offered again |
| `MissionDispatch.BlockingNeverEnds` | apps/server/src/mission-dispatch-loop.ts:396-418 | blocking is not over after any number of rounds exactly when the row is stale, the lease does not fit and no store call ever fails |
| `MissionDispatch.ConflictPersists` | packages/storage-providers/sqlite-runtime/src/sqlite-prd-mission-store.ts:350-357 | a version conflict stays one whatever other users of the outbox do to the row |
| `MissionDispatch.LostLeaseBlocksForEver` | apps/server/src/mission-dispatch-loop.ts:396-418 | the instance: a row accepted by another loop whose lease was lost since |
| `RunnerSpool.RunSpool.Pending` | packages/runner-components/runner-spool/src/sqlite-runner-spool.ts:266-294 | the pending batch is the window of the events from a number on |
| `RunnerSpool.EventsFromKeeps` | packages/runner-components/runner-spool/src/sqlite-runner-spool.ts:296-317 | exactly the events below the confirmed number leave the spool, and the others keep their order |
| `RunnerSpool.RunSpool.SaveManifest` | packages/runner-components/runner-spool/src/sqlite-runner-spool.ts:319-336 | a manifest is kept once, repeats harmlessly, or is refused and changes nothing |
| `ArtifactDelivery.ArtifactUploadPump.SendChunk` | apps/runner/src/artifact-upload-pump.ts:77-102 | sending a chunk that spool or Core holds keeps their agreement and ends with it on Core, or in a transport error or abort that loses nothing |
| `ArtifactDelivery.ArtifactUploadPump.DrainOne` | apps/runner/src/artifact-upload-pump.ts:44-57 | one manifest is resumed from recorded progress or registered, and is acknowledged exactly when its artifact was held in full |
| `RunDelivery.TenantRun.SaveChunks` | apps/runner/src/spooling-artifact-observer.ts:49-51 | the loop over the chunks spools each of them or stops without losing one |
| `RunDelivery.TenantRun.DrainArtifacts` | apps/runner/src/offer-runtime.ts:201-203 | draining the artifacts leaves every captured one stored |
| `RunDelivery.TenantRun.DrainTrace` | apps/runner/src/offer-runtime.ts:204-207 | draining the trace behind the artifacts can only be refused for a reference that is no artifact |
| `RunDelivery.TenantRun.Restart` | apps/runner/src/replay-recovery.ts:15-37 | a restarted runner has lost its recorder and nothing else |
| `StopMailbox.NothingIsRewritten` | apps/local-launcher/src/runtime-state.ts:71-113 | over every run files keep their content and calls their marker |
| `ExecutionRuntime.ExecutionRun.Record` | packages/runner-kernel/src/execution-runtime.ts:634-653 | an event is appended, or the append fails and leaves nothing behind |
| `ExecutionRuntime.ExecutionRun.UseModel` | packages/runner-kernel/src/execution-runtime.ts:503-512 | decisions and verifications may only raise the run's own token count |
| `ExecutionRuntime.ExecutionRun.Capture` | packages/runner-kernel/src/execution-runtime.ts:554-564 | an observation is returned exactly when it is the last event of the trace |
| `ExecutionRuntime.ExecutionRun.Resolve` | packages/runner-kernel/src/execution-runtime.ts:515-517 | an action is returned exactly when its resolution is the last event |
| `ExecutionRuntime.ExecutionRun.Authorize` | packages/runner-kernel/src/execution-runtime.ts:519-527 | the gate's answer, yes or no, is recorded before it takes effect |
| `ExecutionRuntime.ExecutionRun.PerformPlanned` | packages/runner-kernel/src/execution-runtime.ts:426-457 | a planned step is counted first and then extends the performed part of the plan or stops the run in it |
| `ExecutionRuntime.ExecutionRun.CheckLast` | packages/runner-kernel/src/execution-runtime.ts:458-471 | a plan without a verify step gets exactly one more check, of all its expected claims |
| `ExecutionRuntime.ExecutionRun.RecordTerminal` | packages/runner-kernel/src/execution-runtime.ts:614-632 | the terminal event carries what the completion says, or the run has none |
| `ExecutionRuntime.ExecutionRun.Close` | packages/runner-kernel/src/execution-runtime.ts:388-402 | the completion is drawn from how the stages ended and returned only with its terminal event; an unexpected error or a lost terminal event leaves no terminal event |
| `LeaseAuthority.ExpiredWindowStartsNothing` | apps/runner/src/lease-window.ts:31-71 | an expired window starts no action, whatever the clocks say later, exactly when the safety margin is not negative |
| `LeaseAuthority.AcceptedLeaseLifecycle.Fail` | apps/runner/src/lease-renewal-controller.ts:118-122 | a failed renewal closes the window and aborts the execution, keeping the first reason |
| `LeaseAuthority.AcceptedLeaseLifecycle.RenewalFails` | apps/runner/src/lease-renewal-controller.ts:106-106 | a refusal closes the window and ends the loop |
| `CompanionPermits.StoppedMeansNoResetSince` | apps/companion/src/emergency_stop.rs:64-76 | the session is stopped exactly when some stop has no reset behind it |
| `CompanionPermits.PausedMeansNoResumeSince` | apps/companion/src/emergency_stop.rs:50-76 | the session is paused exactly since a pause of a session not stopped, with no resume, stop or reset behind it; never while stopped |
| `CompanionPermits.PermitDiesWithItsSession` | apps/companion/src/permit.rs:161-165 | a token issued before a stop or reset authorizes nothing after it |
| `CompanionPermits.Companion.ResetSession` | apps/companion/src/lib.rs:125-129 | a reset opens the latches, invalidates every permit and renames the session |
| `ModelGateway.WaitForRetry` | packages/model-gateway/src/model-gateway.ts:280-298 | an abort during the delay gives a true account of the calls made |
| `MigrationLedger.FileObservationMigrationStore.Find` | packages/observation-migration/src/file-migration-store.ts:39-47 | a search returns what the file holds now under the key, whatever store wrote it |
| `ActionValueConfiguration.SkipWhitespace` | apps/runner/src/action-value-provider.ts:217-220 | the loop skips all leading white space and nothing else |
| `ActionValueConfiguration.ParsePair` | apps/runner/src/action-value-provider.ts:182-188 | one turn over key, colon and value agrees with the specification, errors included |
| `ActionValueConfiguration.ParseLoop` | apps/runner/src/action-value-provider.ts:181-197 | the loop over the entries agrees with the recursive specification |
| `FreezeDecision.ValidateHeader` | packages/observation-migration/src/freeze-decision.ts:336-377 | adds a reason exactly when versions, signatures, timestamp or environment are not in order |
| `FreezeDecision.ValidateSections` | packages/observation-migration/src/freeze-decision.ts:409-425 | adds a reason exactly when a section count or the number of sections is off |
| `FreezeDecision.ValidateCandidateReport` | packages/observation-migration/src/freeze-decision.ts:282-323 | accepts exactly a past report of the right schema with everything classified and nothing failed |
| `FreezeDecision.ValidateSchemaConformance` | packages/observation-migration/src/freeze-decision.ts:476-509 | accepts exactly when both targets validate the schema and all core fields are shared |
| `BackupDirectory.Publish` | apps/admin-cli/src/commands/backup.ts:161-170 | index, check, marker and rename succeed exactly for a valid index; the final directory appears only complete |
| `BackupDirectory.Finish` | apps/admin-cli/src/commands/backup.ts:166-170 | the marker is written last and the rename makes a directory appear that verifies |
| `MissionDispatch.MissionDispatchLoop.Accept` | apps/server/src/mission-dispatch-loop.ts:372-394 | acceptance is marked and clears the backoff, or is deferred; it needs a lease of the dispatch |
| `MissionDispatch.MissionDispatchLoop.Defer` | apps/server/src/mission-dispatch-loop.ts:439-442 | a deferred dispatch waits in bounds and no shorter than before |
| `MissionDispatch.MissionDispatchLoop.PreOfferStopped` | apps/server/src/mission-dispatch-loop.ts:420-429 | an abort stops without a delay, a deadline with one |
| `MissionDispatch.MissionDispatchLoop.OfferTo` | apps/server/src/mission-dispatch-loop.ts:303-327 | exactly one offer is made and settled, also when its answer is lost |

## Left out

Assumptions about the environment:

- SHA-256 is taken to be free of collisions: a digest is the content it was taken of. Random tokens and temporary names are fresh. Artifact ids have no colon in them, as the runner makes them.
- Promise scheduling: an append, an upload or a record is done or failed before the next step; an abandoned operation that takes effect later is outside the model.
- SQLite, PostgreSQL, S3, gRPC, Playwright, UIA, Windows pipes and process handling: each appears only as the atomic effect on the modelled state.
- Spool rows and Core's state are kept per run; which runs are pending is an input, and the lease token Core checks at registration is not modelled.
- Capacity failures of the spool happen at any time and are not tied to its byte counts.
- The stop-request mailbox is crash-free; link, rm and read fail only where the protocol reacts to it, one claim at a time runs under a process id, since the claim file is named after it, and `clearOwnedTopologyFiles`, whose check and removal are separate steps, is not part of the model.
- The lease window is read on integer milliseconds; `LeaseRenewalController.run` and the waiting in `duringLease` appear as the pieces they run between two waits, in any order their state allows.
- `LeasedJobExecutor.execute`, `finish` and `dispose` around the lease lifecycle, the desktop policy descriptor and the branches of `authorize` in the policy gate would add easy members.
- Token totals of several calls are added exactly; sums past the largest safe integer are rounded by the original.
- The ledger's lock, its recovery when stale and the queue in front of it are taken as mutual exclusion of whole appends; a record is known by its text, and the reader follows strings, escapes and brackets of a line instead of all of JSON.
- The text of a backup index stands for its value; `parseIndex` is modelled on a well-typed value, the migration binding and the target binding are left out, and so are an I/O error of the removal of a staging directory and partial files inside it.
- An id of a checklist item is known by the part before its first dot and the rest; texts of reasons are not modelled, and timestamps are instants or missing.
- A lease that appears between the lookup and the offer of one turn, a store that fails at the first lookup of a turn and so ends the cycle, and leases changed by others while one call blocks.
- The last action and its outcome, which the verifier is shown beside the two observations.
- Log messages, metrics, readiness, timers of the dispatch loop and the details attached to a blocked dispatch.

Contracts weaker than the code:

- RunDelivery.TenantRun.Finalize: says nothing of the lease token and of the completion's content.
- MigrationLedger.Migrate: the record of an asset is a parameter, because the projector is not part of the model.
- CoreEvidence.CoreLink.Submit: which event a lost submission stopped at is an arbitrary choice.
