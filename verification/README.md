# agent-managed-bash: verified model

`managed-bash` runs shell commands as detached jobs. A job is one directory: a state file, an output log, three
advisory locks and an intent marker. Runners, observers, cancellers, waits and removals share it without a server.
This project models that store, the loops around it, the start handshake with its frame codec, and four smaller
cores of the repository (strict JSON with its canonical printer, the plugin's session registry, the release
transaction, the installer), and proves what they promise for every input, interleaving, crash and failure.

Check it with `dafny verify dfyconfig.toml` (Dafny 4.11).

## Layout

| file | models |
|---|---|
| JobState.dfy | the persisted state, its validator, the guard of non-output writes, the functions that build each next state |
| JobProtocol.dfy | the store protocol as a step relation: processes, locks, intent, state file, log, clock, crash at any step |
| JobInvariant.dfy | its inductive invariant |
| JobTheorems.dfy | what holds over whole runs: the chain of states, recovery, the intent window, deadlock freedom, readers |
| JobProgress.dfy, JobOrdinary.dfy | nobody waits in vain: holders let go of their locks, the intent marker can be got out of the way, and every operation left alone does what it is for |
| JobRecords.dfy | what each record of the store says, field by field |
| JobDirectory.dfy, JobAgreement.dfy | the same operations uninterrupted, as methods of a directory object, and that the protocol's steps write the same states |
| Supervisor.dfy | the runner's supervision loop and the stop of an unpublished shell |
| WaitLoop.dfy, WaitDelivery.dfy | the wait loop, and what a persisted cursor says about delivered output |
| Frames.dfy | the frame codec |
| Startup.dfy, StartupProgress.dfy | the handshake of manager, bootstrap and runner: what never happens, and what does |
| PartialWrites.dfy | writers that take less than they are given, for the frame codec and the log |
| StrictJson.dfy, StrictJsonTheorems.dfy | JSON texts, trees and values; the parser accepts exactly the strict grammar |
| StrictJsonCanonical.dfy, StrictJsonParser.dfy | the canonical printer and its inverse; the parser as the index-advancing object it is |
| StrictJsonNotation.dfy | parser and printer against ASCII, positional decimals, UTF-16 code points and the layout of a canonical text |
| SessionRegistry.dfy, SessionRegistryProgress.dfy, SessionRegistryObject.dfy | the plugin's registry: all schedules of its async functions, what they come to, and the object itself |
| ReleaseTransaction.dfy, ReleaseTransactionProgress.dfy | leases, commit and cleanup over all schedules, what they come to, and the transaction object |
| Installer.dfy | install and uninstall with a failure or a stop possible at every file operation |

## How to read the models

The store protocol, the registry, the transaction and the handshake are interleavings: a world, one function per
atomic step, `IsRun` for a finite run from the initial world, and theorems about every world of every run. A step is
what the program does between two points where another process, or another async function, can act. History fields
(`fed`, `late`, `orphaned`, `handed`, `origin`, `swept`, `published`, `committing`, `owned`,
`pauses`) record what happened and never steer a step. Objects that the source updates in place are classes whose methods
are tied to those functions.

Assumptions: a lock is exclusive and falls with its process; a rename is atomic; the clock does not go back while a
job lives; the guardian reports one exit code from 0 to 255 or one signal from 1 to 64, or is lost; job ids do not
collide. `schemas/v1/policy.json` fixes the statuses and allows transitions only out of `running`.

## Where the code does less than one would hope

- **The intent marker can outlive the lock it was created under, without any crash.** A reconciler that waits for
  `state.lock` gives up at its deadline and leaves `terminal.pending` behind (internal/runner/liveness_unix.go:104-110).
  `JobTheorems.IntentCanOutliveItsLock` is such a run; `JobTheorems.IntentLeftBehindExactly` says a step leaves the
  marker in the directory with no holder of the recovery lock at work on it if and only if its owner crashes there or
  gives up there. `JobProgress.MarkerWaiterGetsOn` shows that such a marker is never in the way for good.
- **A wait with an explicit cursor can commit bytes nobody was shown.** `WaitDelivery.SkippingCursorLeavesAGap` is the
  example, `WaitDelivery.ExplicitCursorKeepsPromiseExactly` the exact condition.
- **Not every RFC 8259 text without duplicate keys and lone surrogates is accepted:** a number of magnitude 2^1024 - 2^970
  or more rounds to no finite double and is refused. `StrictJsonTheorems.OneE999IsRefused` is the example `1e999`,
  `StrictJsonTheorems.NonFiniteNumberIsRefused` the exact condition.

## Model

| member | source | states |
|---|---|---|
| `JobState.ValidatePersistedState` | internal/state/state_validation.go:5-64 | the loops with their set of seen sessions accept exactly the states whose header, observers, cancellation and outcome are valid |
| `JobState.AcceptedBytes` | internal/state/capture_policy.go:3-18 | never past the limit, short of the request only when the limit is reached, refused exactly out of policy |
| `JobState.GuardFreezesOutcome` | internal/runner/state_io_unix.go:249-260 | guard and validator alone, without the transition table, freeze status, result, finish time and captured bytes of a terminal job |
| `JobState.GuardExtends` | internal/runner/snapshot_unix.go:65-92 | a guarded write of a valid state with no cursor lost extends the state before it |
| `JobState.InitialCommitted` | internal/runner/execute_unix.go:123-141 | the initial state of every admissible request passes the validator |
| `JobState.AppendedCommitted` | internal/runner/output_unix.go:16-66 | an append is always within policy, its state passes the validator and extends the one before |
| `JobState.CancelCommitted` | internal/runner/cancel_unix.go:87-114 | a requested cancellation passes guard and validator and extends the state |
| `JobState.CursorAfterUpdate` | internal/runner/wait_unix.go:233-266 | replacing or adding an observer moves that session's cursor and no other |
| `JobState.WaitCommitCommitted` | internal/runner/wait_unix.go:223-266 | a wait commit is never rejected, passes guard and validator, and leaves the cursor at the end of its range or further |
| `JobState.TerminalCommitted` | internal/runner/result_unix.go:12-67 | every supervised outcome becomes an accepted terminal state, `cancelled` exactly when a cancellation was persisted |
| `JobState.RunnerLostCommitted` | internal/runner/liveness_unix.go:147-166 | the record of a lost runner passes guard and validator and extends the state |
| `JobInvariant.InitialInv` | internal/runner/store_unix.go:64-143 | a job directory just renamed into place, lease held, satisfies the protocol invariant |
| `JobInvariant.CandidateAccepted` | internal/runner/snapshot_unix.go:65-92 | from every reachable world, whatever a process is about to write passes field guard and validator, under `state.lock` |
| `JobInvariant.StepInv` | internal/runner/state_io_unix.go:32-88 | every step, crash, timeout or birth keeps locks, file, log, intent and positions consistent |
| `JobInvariant.RunInv` | internal/runner/liveness_unix.go:25-119 | the invariant holds in every world of every run |
| `JobTheorems.CommittedStatesFormAChain` | internal/runner/state_io_unix.go:232-260 | along any run captured bytes and cursors never decrease, a cancellation is written once, a terminal outcome never changes, an erased job stays erased |
| `JobTheorems.CommittedStatesAreValid` | internal/runner/state_io_unix.go:94-104 | every state any process can find in the file passes the validator |
| `JobTheorems.AppendAccepted` | internal/runner/output_unix.go:48-64 | the encoder never refuses what an append commits, and it extends the file |
| `JobTheorems.RequestedCancellationDecides` | internal/runner/execution_publish_unix.go:7-18 | once a cancellation is persisted the job ends only as cancelled or runner_lost, and cancelled always has a persisted cancellation |
| `JobTheorems.RunnerLostNeedsFreeLease` | internal/runner/liveness_unix.go:71-119 | runner_lost is written only to a running job, while no process holds the lease |
| `JobTheorems.RemovalNeverErasesRunningJob` | internal/runner/remove_unix.go:48-93 | a directory disappears only in a terminal state, by its owner, with no lease held |
| `JobTheorems.AtMostOneLateWrite` | internal/runner/state_io_unix.go:32-62 | while an intent stands, at most one write leaves the job running: that of a mutator past its check |
| `JobTheorems.IntentLeftBehindExactly` | internal/runner/liveness_unix.go:95-112 | a step leaves the marker standing with no holder of the recovery lock at work on it if and only if its owner crashes, or is a reconciler past its deadline |
| `JobTheorems.IntentOnlyUnderRecoveryLock` | internal/runner/terminal_publish_unix.go:37-61 | in a run without such a step the marker stands only while the holder of the recovery lock is at work on it |
| `JobTheorems.IntentCanOutliveItsLock` | internal/runner/liveness_unix.go:104-110 | a run without crashes that ends with the intent present and every lock free |
| `JobTheorems.WaitGraphIsAcyclic` | internal/runner/cancel_unix.go:56-73 | in every reachable world no chain of waiting processes closes |
| `JobTheorems.HolderCanMove` | internal/runner/terminal_publish_unix.go:37-61 | a lock holder that is not itself waiting can take its next step |
| `JobTheorems.BlockedBehindMover` | internal/runner/liveness_unix.go:49-112 | behind every blocked process, at most two waits away, stands a lock holder that can move |
| `JobTheorems.ReconcileRecovers` | internal/runner/liveness_unix.go:71-119 | from any reachable world with state.lock free, a reconciler with runner.lock ends with exactly the reconciled state and no marker |
| `JobTheorems.CrashedJobIsRecovered` | internal/runner/liveness_unix.go:25-119 | after any crashes that freed the locks, one undisturbed reconcile of a running or still marked job ends, from its very start, with exactly the state `Directory.Reconcile` writes and no marker |
| `JobTheorems.ReaderSeesExactPrefix` | internal/runner/output_unix.go:79-94 | a lock-free reader gets exactly the bytes its snapshot counts, of all appended output cut at the limit |
| `JobTheorems.CapturedIsTruncatedTotal` | internal/state/capture_policy.go:3-28 | captured is the total handed in cut at the limit, at the limit exactly when the total reached it; `output_limit` means at the limit |
| `JobProgress.OwnMoveWorks` | internal/runner/liveness_unix.go:49-119 | a lock holder that is not blocked has a next move, and every such move brings it nearer to letting go |
| `JobProgress.StateLockIsReleased` | internal/runner/state_io_unix.go:64-92 | whoever holds state.lock lets go of it within five moves of its own |
| `JobProgress.HoldersDrain` | internal/runner/terminal_publish_unix.go:37-67 | from every reachable world all holders let go of their locks without a crash or a surrender |
| `JobProgress.ReconcileRecoversAnyway` | internal/runner/liveness_unix.go:71-119 | from any reachable world, state.lock free or not, a reconciler with runner.lock ends in a terminal state with no marker, within nine moves |
| `JobProgress.MarkerWaiterGetsOn` | internal/runner/terminal_intent_unix.go:62-106 | in every world of every run a process that waits for the marker can get on, without a crash or a surrender: the holders finish, and an abandoned marker falls to one reconcile |
| `JobRecords.ResultsExactly` | internal/state/state_validation.go:66-86 | a result is valid exactly with an exit code where the process ended by itself, a signal only where one may have ended it, both in range, and a diagnostic for a lost runner |
| `JobRecords.GuardExactly` | internal/runner/state_io_unix.go:232-260 | a guarded write changes at most the observers, the status, and what was not there before; the log holds the captured bytes |
| `JobRecords.TransitionsExactly` | internal/state/lifecycle_policy.go:25-40 | a running job may come to any end, an end is final, and only an ended job may be removed |
| `JobRecords.InitialRecord` | internal/runner/execute_unix.go:123-141 | every field of the first state comes from the request field of its name; started not before created |
| `JobRecords.TerminalRecord` | internal/runner/result_unix.go:12-67 | the record of a supervised end carries the outcome's exit code, or its signal, and the cause's status; finished at the later of now and start; no diagnostic; nothing else changes; it is refused exactly without signal and with no code from 0 to 255 |
| `JobRecords.LostRecord` | internal/runner/liveness_unix.go:147-166 | the record of a lost runner has neither code nor signal, but a diagnostic, and finishes at the later of now and start |
| `JobRecords.CancelRecord` | internal/runner/cancel_unix.go:87-114 | a cancellation names its actor and the later of now and creation, and changes nothing else |
| `JobRecords.CancelWrittenExactly` | internal/state/access_policy.go:31-49 | it is written exactly by the owner of a running job that has none |
| `JobRecords.AppendRecord` | internal/runner/output_unix.go:48-64 | an append changes the captured count, by what was accepted, and nothing else |
| `JobRecords.ObserverRecord` | internal/runner/wait_unix.go:233-266 | a committed wait has one entry with its session, cursor and stamp, in the old place or at the end |
| `JobRecords.CommitOutcomeExactly` | internal/state/observer_policy.go:15-31 | a commit is unnecessary exactly when the session is as far, and refused exactly when its range is not one of a capture |
| `JobRecords.StartRecord` | internal/state/observer_policy.go:5-13 | a wait starts at its explicit cursor, else at the session's entry, else at the beginning |
| `JobRecords.StampRecord` | internal/runner/wait_unix.go:104-123 | a wait is stamped with the present, not before creation, never after the finish it saw |
| `JobRecords.StartIsResolved` | internal/runner/wait_unix.go:166-192 | where the wait loop starts is where the store resolves the cursor, for every state with that cursor |
| `JobOrdinary.AppendGetsThrough` | internal/runner/output_unix.go:16-66 | an append under `state.lock`, left alone, ends with its bytes counted as far as they fit and the lock free |
| `JobOrdinary.AppendRuns` | internal/runner/output_unix.go:16-66 | so does one from its call on, with no marker and the lock free |
| `JobOrdinary.CancelRuns` | internal/runner/cancel_unix.go:75-127 | a cancellation left alone is persisted exactly if its actor owns a running job without one |
| `JobOrdinary.PollsAndTicks` | internal/runner/supervise_unix.go:120-133 | the runner's poll notices a cancellation exactly when one is persisted |
| `JobOrdinary.WaitRuns` | internal/runner/wait_unix.go:134-266 | a wait left alone responds with the captured bytes from its start on, and its commit moves its session's cursor, and no other, to their end |
| `JobOrdinary.PublicationRuns` | internal/runner/terminal_publish_unix.go:13-67 | a publication left alone ends with the outcome's record, no marker and the lease given up |
| `JobOrdinary.RemovalRuns` | internal/runner/remove_unix.go:48-93 | the removal of a terminal job by its owner, left alone, leaves nothing |
| `JobOrdinary.CancelWhileActiveRuns` | internal/runner/cancel_unix.go:56-73 | so does a cancellation through reconciliation while the runner holds its lock, with the same result as a direct one |
| `JobAgreement.StepsWriteAsMethods` | internal/runner/snapshot_unix.go:65-92 | the protocol's write and erase steps leave exactly what the directory's methods promise |
| `JobDirectory.Directory.WriteAt` | internal/runner/output_unix.go:96-109 | succeeds if and only if the write sizes carry the whole data, which then is at the offset; a failure has written a proper prefix of it |
| `JobDirectory.Directory.PublishStateLocked` | internal/runner/snapshot_unix.go:65-92 | the file changes exactly when guard and validator accept the next state |
| `JobDirectory.Directory.AppendOutput` | internal/runner/output_unix.go:16-66 | succeeds if and only if the job runs and the write sizes carry the accepted bytes; the log grows by that prefix of the chunk, the limit is reported exactly when the total reaches it, a failure keeps the state |
| `JobDirectory.Directory.CancelLocked` | internal/runner/cancel_unix.go:87-127 | owner only, written once, only while running; an earlier request and a job that is already terminal are told apart, and the answer is what is persisted then |
| `JobDirectory.Directory.CommitWaitLocked` | internal/runner/wait_unix.go:223-266 | written exactly when guard and validator accept; a prepared wait is never refused, and leaves the session's cursor at the larger of its own and the wait's |
| `JobDirectory.Directory.PublishTerminal` | internal/runner/terminal_publish_unix.go:13-67 | a supervised outcome is published exactly with a held lease, no intent and a running job, then intent and lease are gone; else nothing changed |
| `JobDirectory.Directory.Reconcile` | internal/runner/liveness_unix.go:25-119 | a dead runner's job becomes runner_lost once, a stale intent goes, an active runner's job is at most cancelled |
| `JobDirectory.Directory.RemoveTerminal` | internal/runner/remove_unix.go:16-93 | each outcome if and only if its cause, with the three tries at `runner.lock` told apart: missing, denied and active jobs stay as they were, a running job whose last try fails is left reconciled, else nothing is left |
| `JobDirectory.Directory.EraseLocked` | internal/runner/remove_unix.go:66-82 | erases exactly what the actor owns and is terminal; the outcome says which of the two it was not |
| `Supervisor.SuperviseShell` | internal/runner/supervise_unix.go:29-144 | for every event order the loop returns what its turns make of the received events: result, signals, and the initial job with the bytes of every appended chunk counted up to the limit and the first cancellation; the rows below say the rest in terms of the events |
| `Supervisor.ProgressIsInTheEvents` | internal/runner/supervise_unix.go:54-66 | TERM is sent exactly at the first exit, failure or change of cause, and KILL at the first grace timer after it; exit and end of output are noticed when they come |
| `Supervisor.PendingExactly` | internal/runner/supervise_unix.go:67-67 | the loop returns if and only if exit, end of output and a grace timer after a trigger are all among the events, and then has sent TERM and KILL once each |
| `Supervisor.StateIsTheFold` | internal/runner/supervise_unix.go:77-85 | the job is the initial one with every chunk counted, up to the limit, that came before the end of output, any error and the limit, and the first cancellation persisted, nothing else |
| `Supervisor.LateOutputCounts` | internal/runner/supervise_unix.go:80-85 | a chunk after a timeout or a noticed cancellation is captured like any other |
| `Supervisor.StrikeExactly` | internal/runner/supervise_unix.go:86-133 | each event strikes with the limit, the timeout or the cancellation exactly when it fills the count, fires the armed timer of an unstruck job, or is the first poll to find a cancellation persisted before it |
| `Supervisor.CauseExactly` | internal/runner/supervise_unix.go:86-133 | the cause is the cancellation if and only if a poll noticed one, else the limit or the timeout if and only if that one struck |
| `Supervisor.CauseOnlyRises` | internal/runner/supervise_unix.go:16-22 | the cause moves only from normal to one limit, and from any to cancelled |
| `Supervisor.FailedExactly` | internal/runner/supervise_unix.go:71-143 | the loop keeps an error if and only if one came: a failed append while output is taken, a failed last read, a shell lost without a cause, a failed reaping, the end of the context, or a state file that could not be polled |
| `Supervisor.WaitIsTheReport` | internal/runner/supervise_unix.go:93-119 | exit code and signal are those of the exit report; a report without signal of a group killed for a cause reads as killed |
| `Supervisor.DoneSays` | internal/runner/supervise_unix.go:135-143 | all of this for what the loop returns: pending, failed or an outcome, each exactly when |
| `Supervisor.OutcomeIsSupervised` | internal/runner/supervise_unix.go:143-143 | a returned outcome can be published: its cause holds of the job and its exit code or signal is in range |
| `Supervisor.SupervisedOutcomePublishes` | internal/runner/result_unix.go:12-67 | which status each outcome gets, in both directions, always with a valid result |
| `Supervisor.StopUnpublishedShell` | internal/runner/supervise_unix.go:146-177 | stopped if and only if exit and end of output came; TERM first, KILL once at the grace timer or at the stop |
| `WaitLoop.PrepareWait` | internal/runner/wait_unix.go:14-132 | refuses times under a millisecond; the answer is the job at the last look, from the explicit cursor, else the session's, else 0; the cursor is resolved or refused before the first pause; terminal iff not running iff end of file; a timeout is past the deadline; idle means that the output stood still at every instant of a span of at least the idle interval, within the call and up to that look; every pause began before the deadline, and the job still ran at the end of each but the last |
| `WaitLoop.Watch` | internal/runner/wait_unix.go:33-101 | the loop terminates whatever the job and the clock do, and answers as above |
| `WaitLoop.Turn` | internal/runner/wait_unix.go:41-86 | one turn answers, repeats at once on growth, or leaves a running job to a pause, with the idle deadline the idle interval after the last growth seen |
| `WaitLoop.LookOnce` | internal/runner/wait_unix.go:42-58 | the first look of a turn resolves a cursor that was left out, refuses one out of range, and answers from the snapshot if the observation was cut |
| `WaitLoop.LookAgain` | internal/runner/wait_unix.go:64-86 | the look before an answer: it goes back to waiting only on growth, and otherwise answers as above |
| `WaitDelivery.CommitIsMax` | internal/state/observer_policy.go:15-31 | committing a wait leaves the larger of the two cursors |
| `WaitDelivery.StoreResolvesAndCommits` | internal/runner/wait_unix.go:204-266 | the delivery model resolves and commits exactly as the persisted observers do |
| `WaitDelivery.StepKeepsNoGap` | internal/runner/wait_unix.go:134-192 | no step of overlapping, lost or repeated waits commits past what was delivered |
| `WaitDelivery.PersistedCursorMeansDelivered` | internal/cli/app.go:82-93 | a session of omitted-cursor waits and runs from zero: everything before the persisted cursor was in a written response |
| `WaitDelivery.ExplicitCursorKeepsPromiseExactly` | internal/runner/wait_unix.go:39-58 | an explicit cursor keeps that promise if and only if all it skips was delivered before |
| `WaitDelivery.SkippingCursorLeavesAGap` | internal/state/observer_policy.go:5-13 | the concrete wait whose commit covers a byte nobody received |
| `WaitDelivery.SerialWaitsTileOutput` | internal/runner/wait_unix.go:204-266 | in every run whose waits are serial, the byte ranges of the written responses follow one another without gap or overlap and are exactly the output between the first cursor and the last |
| `WaitDelivery.SerialCommitReachesCapture` | internal/runner/wait_unix.go:223-266 | each commit moves the cursor to the end of the last response's range |
| `Frames.BigEndianBytes` | internal/runner/internal_protocol.go:49-49 | the most significant byte of the length comes first |
| `Frames.EncodedLayout` | internal/runner/internal_protocol.go:38-58 | a frame is "AMB1", the version, the kind, four bytes of length and the payload |
| `Frames.BigEndianRoundTrip` | internal/runner/internal_protocol.go:49-49 | the four length bytes read back as the length |
| `Frames.BigEndianUnique` | internal/runner/internal_protocol.go:68-68 | every four bytes are the encoding of the length they decode to |
| `Frames.WriteFull` | internal/runner/internal_protocol.go:97-109 | succeeds if and only if the writer's sizes carry all bytes, which then are all there in order; else a proper prefix and an error |
| `PartialWrites.CarriesExactly` | internal/runner/internal_protocol.go:97-109 | everything gets through if and only if the sizes add up to it before the first write that takes nothing |
| `Frames.WriteFrame` | internal/runner/internal_protocol.go:38-58 | succeeds if and only if the payload is not too long and the writer carries header and payload; then exactly the encoding is appended, else a proper prefix of it, and nothing of an oversized payload |
| `Frames.Source.ReadFrame` | internal/runner/internal_protocol.go:60-80 | the result is what the stream starts with, and the stream is that frame's encoding and what is left |
| `Frames.ReadsExactlyEncodings` | internal/runner/internal_protocol.go:60-80 | a stream yields a frame if and only if it starts with the encoding of a sendable frame with a valid payload |
| `Frames.EncodingIsPrefixFree` | internal/runner/internal_protocol.go:45-49 | no frame's encoding begins another's |
| `Frames.FramesRoundTrip` | internal/runner/internal_protocol.go:38-109 | any frames written in a row read back the same, the rest of the stream untouched |
| `Startup.StepInv` | internal/runner/internal_mode_unix.go:56-137 | every step of the three processes, every death and every half-failed write keeps the handshake consistent |
| `Startup.VisibleOnlyAfterCommitBegan` | internal/runner/startup_handshake_unix.go:29-62 | a job is visible only after the manager began to send the commit, and only under the requested id |
| `Startup.ReturnedMeansPublished` | internal/runner/startup_handshake_unix.go:62-134 | returned metadata, also after recovery, means published under the requested id |
| `Startup.AbortMeansNeverVisible` | internal/runner/startup_handshake_unix.go:152-162 | an abort or the manager's death before the commit means the job is visible neither before nor after, whatever the others do |
| `Startup.NothingStagedIsLeft` | internal/runner/execute_unix.go:77-108 | a runner that ended in order left no staged directory, and none stands beside a published job |
| `Startup.PendingJob.Commit` | internal/runner/store_unix.go:122-143 | one commit publishes and returns the lease; a failed one changes nothing |
| `Startup.PendingJob.Abort` | internal/runner/store_unix.go:145-157 | after a commit it does nothing, before one it drops lease and directory: never both take effect |
| `StartupProgress.OrdinaryStartReturns` | internal/runner/startup_handshake_unix.go:29-74 | from every world of a run in which nothing went wrong, good moves end with the requested job published and visible, its metadata returned, nothing staged, and the runner supervising unless the job is over |
| `StartupProgress.StartSettles` | internal/runner/internal_mode_unix.go:56-188 | from every world of every run, whatever failed or died before, everybody comes to an end without another fault and without a timeout, and nothing staged is left unless the runner died |
| `StartupProgress.AbortsExactly` | internal/runner/startup_handshake_unix.go:29-50 | the manager begins to abort exactly when, before its commit, its own step fails, the stream ends, or another frame than the offer comes |
| `StartupProgress.ReturnsExactly` | internal/runner/startup_handshake_unix.go:62-134 | it returns exactly on the committed frame or when the store shows the job, and fails exactly when asking the store is over |
| `StartupProgress.CommitFaults` | internal/runner/startup_handshake_unix.go:53-68 | after the commit was begun, a failed write or answer leads to asking the store, never to an abort |
| `StartupProgress.BootstrapStopsReadingExactly` | internal/runner/internal_mode_unix.go:57-131 | a reading bootstrap gives up exactly on a failed read, the end of the stream or a frame it does not wait for |
| `StartupProgress.BootstrapStopsWritingExactly` | internal/runner/internal_mode_unix.go:97-116 | a writing bootstrap stops its runner exactly when the write failed, and takes its input away |
| `StartupProgress.RunnerGivesUpExactly` | internal/runner/execute_unix.go:36-121 | a runner leaves its way to the publication exactly on a failed step, the end of its input or another frame, and then removes what it staged |
| `StartupProgress.WaitsThenKills` | internal/runner/startup_handshake_unix.go:152-162 | who waits for another process to end kills it when the wait is over |
| `StartupProgress.WritesExactly` | internal/runner/internal_mode_unix.go:97-133 | each write puts its frame into its pipe unless it failed before it went out |
| `StrictJsonNotation.TerminalsAreAscii` | scripts/release-candidate-json.ts:23-50 | the character classes and marks of the grammar, in ASCII |
| `StrictJsonNotation.ShortEscapes` | scripts/release-candidate-json.ts:124-153 | what each two-character escape stands for |
| `StrictJsonNotation.HexEscapes` | scripts/release-candidate-json.ts:136-151 | four hexadecimal digits in either case name their code unit, whichever it is |
| `StrictJsonNotation.EscapesExactly` | scripts/release-candidate-canonical.ts:30-33 | the printer escapes only what must be, by the short form where there is one, else by lower case digits |
| `StrictJsonNotation.ExactIsWritten` | scripts/release-candidate-json.ts:155-178 | the exact decimal of a number is the one it writes: sign, digits by place, fraction, times ten to the exponent |
| `StrictJsonNotation.FractionDigit` | scripts/release-candidate-json.ts:160-164 | one more digit of a fraction adds its value by its place |
| `StrictJsonNotation.TenToStep` | scripts/release-candidate-json.ts:165-172 | one more in the exponent multiplies by ten |
| `StrictJsonNotation.NumberTextMeans` | scripts/release-candidate-json.ts:155-178 | the text of any number parses to the rounding of what it writes, and is refused exactly where that is not finite |
| `StrictJsonNotation.MinusHundredFifty` | scripts/release-candidate-json.ts:155-178 | `-1.50e+2` is -150 |
| `StrictJsonNotation.PairedIsUtf16` | scripts/release-candidate-canonical.ts:9-22 | a text without lone surrogates is exactly one that encodes code points |
| `StrictJsonNotation.ItemsInOrder` | scripts/release-candidate-json.ts:82-98 | an array means its items in the order of the text |
| `StrictJsonNotation.MembersByKey` | scripts/release-candidate-json.ts:52-80 | an object means under each decoded key the value that stands under it |
| `StrictJsonNotation.BeforeExactly` | scripts/release-candidate-canonical.ts:43-47 | keys are ordered by the first unit where they differ, a beginning first |
| `StrictJsonNotation.CanonicalIsCompact` | scripts/release-candidate-canonical.ts:26-50 | a canonical text has no space, no unneeded escape, and its members in ascending order |
| `StrictJsonTheorems.AcceptsExactlyGrammar` | scripts/release-candidate-json.ts:13-216 | accepted with a tree if and only if the text is that tree's with space around it, and the tree is well formed: RFC 8259 sections 2 to 7, paired surrogates, distinct keys, finite numbers |
| `StrictJsonTheorems.GrammarIsUnambiguous` | scripts/release-candidate-json.ts:23-50 | a text has at most one tree, so its value is well defined |
| `StrictJsonTheorems.NonFiniteNumberIsRefused` | scripts/release-candidate-json.ts:155-178 | a number text is accepted if and only if its exact decimal lies strictly between -(2^1024 - 2^970) and 2^1024 - 2^970 |
| `StrictJsonTheorems.OneE999IsRefused` | scripts/release-candidate-json.ts:173-176 | `1e999` is in the grammar and is refused |
| `StrictJsonTheorems.LexemeExact` | scripts/release-candidate-json.ts:155-192 | every number of the grammar is consumed whole, and nothing after it |
| `StrictJsonTheorems.PartsSound` | scripts/release-candidate-json.ts:100-153 | what a string parse consumed is the text of its characters and the closing quote |
| `StrictJsonCanonical.SortedIsUnique` | scripts/release-candidate-canonical.ts:43-47 | only one order of the keys is ascending by UTF-16 unit, so insertion order cannot show |
| `StrictJsonCanonical.TreeIsPrinted` | scripts/release-candidate-canonical.ts:26-50 | the printed text is that of a well formed tree whose meaning is the value |
| `StrictJsonCanonical.RefusesExactlyLoneSurrogates` | scripts/release-candidate-canonical.ts:30-47 | the printer refuses exactly the values with a lone surrogate in some string or key |
| `StrictJsonCanonical.ParseInvertsCanonical` | scripts/release-candidate-json.ts:219-221 | parsing a canonical text gives back the value, for every way of printing numbers that reads back |
| `StrictJsonCanonical.CanonicalTextIdentifiesValue` | scripts/release-candidate-canonical.ts:26-50 | canonical texts are equal if and only if the values are |
| `StrictJsonCanonical.CanonicalTextKeepsMeaning` | scripts/release-candidate-canonical.ts:26-50 | any accepted text, printed canonically and parsed again, means the same |
| `StrictJsonCanonical.DecimalShowsSafeIntegers` | scripts/release-candidate-canonical.ts:34-39 | decimal digits are a faithful way to print every safe integer |
| `StrictJsonCanonical.SafeValuesRoundTrip` | scripts/release-candidate-canonical.ts:26-50 | every value with paired strings whose numbers are safe integers, nested as it may be, is printed and read back |
| `StrictJsonCanonical.SafeTextIdentifiesValue` | scripts/release-candidate-canonical.ts:26-50 | the canonical texts of two such values are equal if and only if the values are |
| `StrictJsonCanonical.SafeTextKeepsMeaning` | scripts/release-candidate-json.ts:219-221 | any accepted text whose numbers are safe integers, printed canonically and parsed again, means the same |
| `StrictJsonCanonical.RejectLoneSurrogate` | scripts/release-candidate-canonical.ts:9-22 | the index loop accepts exactly the texts whose surrogates are paired |
| `StrictJsonParser.Parser.Parse` | scripts/release-candidate-json.ts:13-21 | the object accepts exactly what the grammar allows and returns the value it denotes |
| `StrictJsonParser.Parser.ParseValueAt` | scripts/release-candidate-json.ts:23-50 | consumes and returns exactly the value at the index, or fails exactly when there is none |
| `StrictJsonParser.Parser.ParseObject` | scripts/release-candidate-json.ts:52-80 | the key-set loop refuses exactly duplicate decoded keys and builds the object's map |
| `StrictJsonParser.Parser.ParseArray` | scripts/release-candidate-json.ts:82-98 | the loop returns the items in order |
| `StrictJsonParser.Parser.ParseString` | scripts/release-candidate-json.ts:100-122 | the loop returns the decoded characters up to the closing quote |
| `StrictJsonParser.Parser.ParseEscape` | scripts/release-candidate-json.ts:124-153 | an escape is consumed whole and means one unit |
| `StrictJsonParser.Parser.ParseNumber` | scripts/release-candidate-json.ts:155-178 | the slice handed to `Number` is exactly the number at the index |
| `SessionRegistry.StepInv` | plugins/opencode/src/managed-bash-session-registry.ts:36-115 | every call and every resumption, in any order, keeps launches, closes, cleanups and jobs accounted for |
| `SessionRegistry.HandedExactlyOnce` | plugins/opencode/src/managed-bash-session-registry.ts:36-57 | a job tracked once and in time is never handed over twice, and exactly once when nothing of its closed session is waiting |
| `SessionRegistry.ClosedSessionsDrain` | plugins/opencode/src/managed-bash-session-registry.ts:45-57 | once the launches of a closed session have finished, whatever is pending in others, letting its waiting functions go on hands over every such job of it exactly once |
| `SessionRegistry.WaitingEnds` | plugins/opencode/src/managed-bash-session-registry.ts:45-56 | a close or cleanup whose launches have finished can go on, and then waits for them no more |
| `SessionRegistry.DisposeResolvesLast` | plugins/opencode/src/managed-bash-session-registry.ts:103-107 | when dispose resolves every launch has finished and every such job was handed over once |
| `SessionRegistry.NoLaunchAfterClose` | plugins/opencode/src/managed-bash-session-registry.ts:59-72 | no launch of a session begins after its close |
| `SessionRegistryProgress.AbortsExactly` | plugins/opencode/src/managed-bash-session-registry.ts:36-57 | a launch is aborted exactly by a close of its listed session, or a dispose, while it is pending and can be |
| `SessionRegistryProgress.DisposeResolves` | plugins/opencode/src/managed-bash-session-registry.ts:103-107 | once every launch has finished, letting the waiting functions go on resolves every dispose, with nothing more from outside |
| `SessionRegistryObject.Registry.Begin` | plugins/opencode/src/managed-bash-session-registry.ts:59-98 | refused exactly when disposed or closed; else a new pending launch |
| `SessionRegistryObject.Registry.Track` | plugins/opencode/src/managed-bash-session-registry.ts:92-94 | takes the tracking step and keeps the invariant |
| `SessionRegistryObject.Registry.Finish` | plugins/opencode/src/managed-bash-session-registry.ts:88-91 | takes the finishing step and keeps the invariant |
| `SessionRegistryObject.Registry.AbortOrDefer` | plugins/opencode/src/managed-bash-session-registry.ts:43-53 | the loop aborts the abortable launches and defers a cleanup for each other one |
| `SessionRegistryObject.Registry.Close` | plugins/opencode/src/managed-bash-session-registry.ts:36-57 | takes the closing step up to its await |
| `SessionRegistryObject.Registry.Dispose` | plugins/opencode/src/managed-bash-session-registry.ts:103-107 | closes every listed session and waits for those closes |
| `SessionRegistryObject.Registry.Resume` | plugins/opencode/src/managed-bash-session-registry.ts:54-57 | goes on exactly when its await is over, and hands over exactly the jobs it reports |
| `ReleaseTransaction.StepInv` | scripts/release-candidate-transaction.ts:15-57 | every step of operations, signals, commit and cleanup keeps leases, owned paths and disk accounted for |
| `ReleaseTransaction.CleanupLeavesAllOrNothing` | scripts/release-candidate-transaction-state.ts:83-103 | a resolved cleanup: no lease held, none can begin, and the disk is as before, plus every published output if committed |
| `ReleaseTransaction.ExistingIsNeverDeleted` | scripts/release-candidate-transaction.ts:43-57 | what existed beforehand exists in every later world |
| `ReleaseTransaction.CloseRequestSettles` | scripts/release-candidate-transaction-state.ts:62-81 | after a close request, by a signal or by cleanup, a commit can no longer take effect |
| `ReleaseTransactionProgress.OperationPublishes` | scripts/release-candidate-transaction.ts:15-57 | an operation on a new output in an open transaction, left alone, puts its output in place, leaves no stage and holds no lease |
| `ReleaseTransactionProgress.CommitsExactly` | scripts/release-candidate-transaction-state.ts:75-81 | a commit takes effect exactly while the transaction is open |
| `ReleaseTransactionProgress.ClosesExactly` | scripts/release-candidate-transaction-state.ts:62-69 | a close request closes an open transaction and does nothing else |
| `ReleaseTransactionProgress.RenamesExactly` | scripts/release-candidate-transaction.ts:15-41 | a rename is refused exactly where its stage is gone or a directory would replace something |
| `ReleaseTransactionProgress.CleanupCompletes` | scripts/release-candidate-transaction-state.ts:83-103 | from every reachable world in which it was asked for, the cleanup can be run to its end |
| `ReleaseTransaction.Transaction.BeginMutation` | scripts/release-candidate-transaction-state.ts:30-56 | refused exactly when not open; else the lease is active and the output owned |
| `ReleaseTransaction.Transaction.Commit` | scripts/release-candidate-transaction-state.ts:75-81 | refused exactly when not open; else nothing is left to roll back |
| `ReleaseTransaction.Transaction.Clean` | scripts/release-candidate-transaction-state.ts:93-103 | removes exactly the owned paths, then owns nothing and is closed |
| `Installer.Installation.Install` | internal/installer/install.go:26-144 | in every written state `current` is absent or names a complete release; it succeeds if and only if nothing foreign stood in the way and none of the file operations it tried fails; a failure is undone if and only if no second one fails, and then all is as before |
| `Installer.Installation.PrepareRelease` | internal/installer/stage.go:27-77 | success means the complete release; only that release is touched, and never once complete |
| `Installer.Installation.Commit` | internal/installer/install.go:85-144 | after staging: all of it in place if no operation failed; undone to the disk as it was but for the created release if exactly one did |
| `Installer.Installation.SwitchCurrent` | internal/installer/install.go:185-211 | switches only from the expected target, and changes only `current` |
| `Installer.Installation.RestoreCurrent` | internal/installer/install.go:213-229 | success means the old target or no `current`; nothing else changes |
| `Installer.Installation.RemoveExpectedLink` | internal/installer/paths.go:63-87 | removes an expected owned link and nothing else, and says whether it did |
| `Installer.Installation.RemoveRelease` | internal/installer/stage.go:269-279 | removes that release only, never the one in use |
| `Installer.Installation.Uninstall` | internal/installer/uninstall.go:39-103 | no release is touched while `current` is there; it succeeds if and only if all that is there is ours and none of the file operations it tried fails, and then leaves nothing |

## Left out

- JobTheorems.ReconcileRecovers: runs once `state.lock` is free; `ReconcileRecoversAnyway` starts from any reachable world.
- JobProgress.MarkerWaiterGetsOn: says that the moves exist, not that a scheduler takes them; the reconcile that the waiter runs itself is the one of a helper process.
- JobTheorems.IntentOnlyUnderRecoveryLock: holds only for runs in which no owner crashes and no reconciler gives up, because the code breaks it otherwise (see above).
- WaitDelivery.PersistedCursorMeansDelivered: covers omitted cursors and runs from zero, because explicit cursors can leave gaps (see above).
- StrictJsonCanonical.ParseInvertsCanonical: takes the printing of numbers as a parameter that must read back; `SafeValuesRoundTrip` has no such condition, for safe integers. The digits of other doubles and negative zero are not modelled.
- Startup.AbortMeansNeverVisible: a frame is delivered whole or not at all; a cut frame reads as the end of its pipe.
- JobDirectory.Directory.PublishTerminal: runs uninterrupted; waiting, deadlines and crashes are in the protocol.
- JobDirectory.Directory.AppendOutput: its write of the state file does not fail; in the protocol it can.
- WaitLoop.PrepareWait: the store's errors other than an invalid cursor and an ended context are not told apart.
- A failed write of the log or of the state file is a step of its own; any other failed file operation of the store counts as the crash of its process. Fsync results are not modelled.
- Removal erases a directory in one step; the order in which its files disappear, and its marker among them, is not modelled.
- `runner.lock` found busy does not mean that the runner lives: a probe may hold it. Nothing is claimed from it.
- The text of a chunk is repaired UTF-8, chunk by chunk; the statements are about byte ranges.
- The output, list and status commands beyond their snapshot read, and range arguments of output.
- Descriptors, modes, ownership, symlinks and path checks; the workspace check is a parameter of the policy.
- The JSON schema and the size limit of stored state, and the decoding of frame payloads into requests.
- Spawning, process groups, birth identity and the guardian itself; only the events they deliver.
- The signals and children of a release transaction, except that a signal requests its close; its parent directories.
- A cancelJob that throws before it returns its promise, and removal of a finished cleanup in a later microtask than its end.
- Names of temporary links and stages in the installer, the lock file, bundle verification and the directories it creates.
- Command line, error tables, plugin presentation, publication and attestation scripts, archives and manifests.
