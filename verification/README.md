# Verified model of the Hermes MCP gateway

This project models the stateful core of the gateway in Dafny and proves what that core is
for: resumable jobs that are launched at most once and never forgotten while they may still
run, an operator's drain gate that really means quiescence, session owners that are cleaned
up exactly once and never under running work, a pool of graph sessions that evicts only idle
ones, and two output cutters that lose nothing.

`dafny verify dfyconfig.toml` checks the whole project.

## How the model is built

**Resumable jobs** (`JobTable`, `JobDatabase`, `JobProtocol` and the `Job*` proofs).
`JobTable` holds the transactions on the jobs table as functions and the table invariant.
`JobDatabase` holds the classes that perform them in place on a shared database, proved
equal to those functions. `JobProtocol` is the run-level state machine: every SQL
transaction is one atomic step, every native call is a request step followed, if ever, by a
reply step, and each operation in flight has a program counter. Adapters, operations,
crashes, the operator's script and the native side interleave freely. Within one adapter an
operation keeps the event loop from one `await` to the next; the per-job locks are not
assumed, so more interleavings are allowed than the program has. `JobInvariant` states the
inductive invariant, `JobControl`, `JobWrites`, `JobSteps`, `JobSafety`, `JobEvents` and
`JobEnvironment` prove that every event keeps it, and `JobTheorems`, `JobMoves`,
`JobGuarantees`, `JobEvidence`, `JobOutcomes`, `JobClocks`, `JobDrain`, `JobAdapters`,
`JobVerdicts` and `JobRace` draw the consequences for whole runs. `JobAnswers` says, event
by event and in the columns of the row, what each operation makes of what it reads.

The native side is assumed to do only this: one `terminal` request creates at most one
process, possibly after its waiter has gone; a listing names only processes of the asking
job; a terminal status is told only of a process that has ended; any call may fail, time
out or never be answered. Digests are injective, IDs and tokens are fresh, all adapters use
the same limits, and clock readings are arbitrary (they may run backwards and differ
between adapters).

**The drain gate** (`PythonInt`, `AdmissionGate`, `JobDrain`) is the other writer of that
database; `PythonInt` is how Python's `int` reads a text.

**Session leases** (`SessionStore`, `SessionCapabilities`, `NativeActivity`,
`LeaseProtocol`, `SessionLifetimes`): the capability store on shared mutable records, the
native calls that go on after their waiter was cancelled, the runs of both with cleanup
tasks, and how long a session lasts in them.

**Graph sessions** (`OperationQueue`, `QueueRuns`, `QueueAnswers`, `LoopRuns`,
`SessionPool`, `PoolRuns`, `ClientRuns`): the queue of one owner task with its pending
counter and the answers its waiters get, in runs with arbitrary scheduling and in runs on an event loop that carries out callbacks in the order they were
scheduled; the least-recently-used pool above it; and runs of both together.

**Bounded output** (`Json`, `JsonGrammar`, `JsonParser`, `JsonResult`, `ReadFilePages`,
`PageCuts`, `Pagination`): rendering and escaping of JSON over code points, a reader of JSON texts after
the grammar of RFC 8259 that does not use the renderer, the truncation search, and the page
cutter of `read_file`.

## Properties that fail, and exactly when

- The script takes any stored text other than `0` for a pause, the gateway any text that
  `int` does not read as zero. They disagree exactly on the other spellings of zero: blanks,
  an optional sign, zeros with single underscores and no more of them than the
  interpreter's digit limit, blanks (`AdmissionGate.ReadersAgreeExactly`). Blanks are 9 to
  13 and 32 in ASCII and the Unicode blanks beyond it; zeros are those of any script that
  the interpreter's tables know, and the result holds for every such table and limit. So
  they differ on `00` and on a no-break space before `0`, but not on the control character
  28 before `0` nor on 4301 zeros, which `int` refuses (`AdmissionGate.ReadersOnExamples`).
  On everything the script writes they agree (`AdmissionGate.GateIsALock`); no program
  writes another value, so it takes an edit of the database by hand.
- With one adapter a killed job is `timed_out` exactly when the timeout was requested. With
  two adapters a job may be recorded as `cancelled` although the request was stored:
  `JobRace.TwoAdaptersMayDisagree` gives the run. It happens exactly when an operation read
  the flag as unset, another adapter stored the request while the verdict was still owed,
  and then the verdict was written (`JobVerdicts.CancelledWithTimeoutExactly`): `_poll` reads
  the flag and writes the verdict in two transactions.
- `_request` does not look again whether the owner still lives after it has awaited its
  start. If scheduling is arbitrary, the pending counter of a graph session is wrong exactly
  when a request resumed on an ended owner and that owner's queue was dropped afterwards
  (`QueueRuns.CounterDriftsExactly`). On an event loop this needs a teardown of the owner's
  two context managers that never suspends: the counter is exact in every run if and only if
  the teardown suspends at least once (`LoopRuns.CounterExactIfTeardownSuspends`). Both
  context managers belong to the MCP library, which is not part of this model; as far as
  they await anything when they close, the counter is exact.
- An operation that is in hand when its owner is cut is counted down, but its response is
  never resolved, while every other operation that is counted down is answered or was given
  up by its waiter (`QueueRuns.FinishedIsAnswered`, `QueueRuns.CutMeansInHand`); and such a
  run exists however the owner's teardown suspends (`LoopRuns.CutLeavesWaiter`).

## Model

| member | source | states |
|---|---|---|
| JobTable.AdmitKeepsConsistent | src/hermes_mcp_gateway/jobs.py:358-405 | the transaction of `start`, on any table, clock reading and answer of the file system, keeps the table invariant: active rows within `max_active` and within `max_per_session` for each owner, no two active workspaces equal or nested, unique keys, prepared rows within both limits, payload stored exactly while prepared |
| JobTable.PrepareKeepsConsistent | src/hermes_mcp_gateway/jobs.py:285-320 | the transaction of `prepare` keeps the table invariant on every path, including the ones that roll back |
| JobTable.UpdateKeepsConsistent | src/hermes_mcp_gateway/jobs.py:175-199 | a guarded update between active states, out of an active state, or out of `prepared` with the payload cleared keeps the table invariant |
| JobTable.RequestTimeoutKeepsConsistent | src/hermes_mcp_gateway/jobs.py:201-209 | storing a timeout request keeps the table invariant |
| JobTable.SweepKeepsConsistent | src/hermes_mcp_gateway/jobs.py:603-614 | both deletions, of expired preparations and of receipts past their retention, keep the table invariant |
| JobTable.AdmittedExactly | src/hermes_mcp_gateway/jobs.py:358-405 | a start is admitted if and only if the credential fits an unexpired prepared row, the gate is open, both quotas have room, the directory still resolves, and no path lies in its workspace and in that of an active job |
| JobTable.RepeatedKey | src/hermes_mcp_gateway/jobs.py:285-299 | while a row is kept under an idempotency key, the same request replays that job, any other request is refused, the row is untouched and no row is added |
| JobTable.PreparedExactly | src/hermes_mcp_gateway/jobs.py:281-320 | a preparation is issued if and only if no kept row has its key and both limits have room after the expired preparations are gone; then exactly those go, every other row stays, and the new row holds the request, key, credential and caller, with its deadline and expiry counted from the clock reading |
| JobTheorems.RunMono | src/hermes_mcp_gateway/jobs.py:146-209 | what two readings of a row at any two times have in common: the frozen request, key, directory and credential; a final row is the same, `prepared` is never come back to, a timeout request is never withdrawn; and a row that is gone does not return |
| JobDatabase.ResumableJobs.PrepareTransaction | src/hermes_mcp_gateway/jobs.py:285-320 | in place on the shared database: new rows and answer are those of the transaction specification, the gate is unchanged, the invariant is kept |
| JobDatabase.ResumableJobs.WorkspaceBusyScan | src/hermes_mcp_gateway/jobs.py:389-397 | the scan finds an overlap if and only if some active row's directory is equal to, above or below the new one |
| JobDatabase.ResumableJobs.StartTransaction | src/hermes_mcp_gateway/jobs.py:358-405 | in place: the row of an expired preparation becomes `expired`, that of an admitted start `starting` for its caller with the deadline `now` plus the stored duration and the payload cleared, and no row changes otherwise; the answer is that of the specification, the gate is unchanged, the invariant is kept |
| JobDatabase.ResumableJobs.UpdateRow | src/hermes_mcp_gateway/jobs.py:175-199 | in place: the row changes if and only if it exists in an expected state, no other row does, the invariant is kept |
| JobDatabase.ResumableJobs.RequestTimeoutRow | src/hermes_mcp_gateway/jobs.py:201-209 | in place: the flag is set on an active row only, the invariant is kept |
| JobDatabase.ResumableJobs.ActiveJobs | src/hermes_mcp_gateway/jobs.py:605-609 | the query hands out exactly the active jobs, at most `max_active` of them |
| JobDatabase.ResumableJobs.RetireRows | src/hermes_mcp_gateway/jobs.py:610-614 | the two deletions, one transaction in place: only what may be deleted goes, no active row is lost |
| JobEnvironment.RunInv | src/hermes_mcp_gateway/jobs.py:278-614 | the protocol invariant (table, dispatch log, native processes, evidence, deleted rows, every operation in flight) holds in every state of every run of any number of adapters |
| JobEvents.StepKeepsInv | src/hermes_mcp_gateway/jobs.py:349-601 | every step of `start`, `status`, `cancel`, `_adopt`, `_poll` and `_maintain_one`, with any reply, failure, timeout or cancellation, keeps the protocol invariant |
| JobEnvironment.NextKeepsInv | src/hermes_mcp_gateway/jobs.py:278-614 | so does every other event: preparation, new call, crash, retention sweep, gate change, native process created late, lost or ended |
| JobTheorems.NextMono | src/hermes_mcp_gateway/jobs.py:175-601 | no event removes a dispatch, revives a process, clears a timeout request, changes a frozen payload or rewrites a final row |
| JobGuarantees.LiveJobsWithinLimits | src/hermes_mcp_gateway/jobs.py:358-442 | in every state of every run the processes alive or still to come number at most `max_active`, at most `max_per_session` for each starting caller, and no two share any directory |
| JobGuarantees.Quarantine | src/hermes_mcp_gateway/jobs.py:410-495 | a dispatched job for which no terminal reply was recorded has an active row; a job whose row is final or gone was never dispatched and never will be, or a terminal reply was recorded for it and its process has ended |
| JobEvidence.EvidenceOnlyFinality | src/hermes_mcp_gateway/jobs.py:410-495 | the same in terms of the run: until a poll of a dispatched job was answered with a terminal status its row stays active; if its row is final or gone, such an answer came before, or the job was never dispatched and never will be |
| JobEvidence.EvidenceWasPolled | src/hermes_mcp_gateway/jobs.py:462-495 | the reply recorded for a job was given to a poll of that job in the same run |
| JobEvidence.EndToldMeansEnded | src/hermes_mcp_gateway/jobs.py:462-495 | a terminal answer is only ever given about a process of that job that has ended |
| JobTheorems.AtMostOnceFrozenLaunch | src/hermes_mcp_gateway/jobs.py:311-427 | over all repeated and concurrent starts a job is dispatched at most once, with the command and directory its preparation froze; the command is stored exactly while the row is prepared |
| JobTheorems.DispatchAfterCommit | src/hermes_mcp_gateway/jobs.py:398-427 | a dispatch happens only while the row is committed as active for its caller with its payload cleared, and never for a job dispatched before |
| JobTheorems.FinalIsAbsorbing | src/hermes_mcp_gateway/jobs.py:175-199 | from any final state on, the row is the same row until it is deleted |
| JobTheorems.ReportsAreDurable | src/hermes_mcp_gateway/jobs.py:490-571 | a final report that `start`, `status` or `cancel` returned equals the stored state, exit code and output at every later time at which the row exists |
| JobGuarantees.OutcomeAttribution | src/hermes_mcp_gateway/jobs.py:462-495 | `succeeded`: exit code 0 from a terminal poll without kill marker; `failed`: a non-zero code from such a poll, or no dispatch; `timed_out`: a kill-marked poll and a stored timeout request; `cancelled`: a kill-marked poll, or no dispatch; `expired`: no dispatch |
| JobOutcomes.AckIsStored | src/hermes_mcp_gateway/jobs.py:413-442 | in every run, what `start` is told of its `terminal` request is stored by its next step if the row is still `starting`: `running` with just the acknowledged process, or `unknown` without one after a failure, a timeout or a cancellation; a row that has moved on is left alone |
| JobOutcomes.ReplyIsWritten | src/hermes_mcp_gateway/jobs.py:462-495 | in every run, a reply to a poll without kill marker is written by the operation's next step: an active row becomes `succeeded` if and only if the reply is terminal with exit code 0, `failed` if and only if with another integer, `running` if and only if the process is said to run or start, `unknown` otherwise; exit code and output are those of the reply, and `status` and `cancel` answer with that row |
| JobOutcomes.KillIsWritten | src/hermes_mcp_gateway/jobs.py:474-495 | in every run, a terminal reply with a kill marker makes an active row `timed_out` if and only if the flag was set when the operation read it, otherwise `cancelled` |
| JobAnswers.StartBegins | src/hermes_mcp_gateway/jobs.py:349-405 | the transaction of `start` in a run, case by case: which refusal, which row, which report, and for an admission the new columns |
| JobAnswers.StartDispatches | src/hermes_mcp_gateway/jobs.py:406-427 | after an admission the directory is checked again; the one native request is sent if it still resolves, otherwise the row becomes `failed` |
| JobAnswers.StatusBegins | src/hermes_mcp_gateway/jobs.py:497-519 | `status` fails on a wrong credential, expires an overdue preparation, asks for the process list if a started job has no process, polls a job with one, and otherwise answers with the row |
| JobAnswers.StatusExpires | src/hermes_mcp_gateway/jobs.py:502-507 | the expiry is written only to a row that is still prepared, and then reported |
| JobAnswers.CancelBegins | src/hermes_mcp_gateway/jobs.py:535-559 | `cancel` fails on a wrong credential, answers with a final row, and kills the stored process or looks for one |
| JobAnswers.CancelBeforeStart | src/hermes_mcp_gateway/jobs.py:539-542 | a job that is still prepared is cancelled with its payload cleared |
| JobAnswers.AdoptsInOrder | src/hermes_mcp_gateway/jobs.py:444-460 | a listing is tried in order: the first process goes to an active row and makes it `running`, and a row that takes none is left alone |
| JobAnswers.AfterAdoption | src/hermes_mcp_gateway/jobs.py:519-562 | after the listing `status` and `cancel` read the row again, and its stored process comes before the adopted one |
| JobAnswers.NativeFailure | src/hermes_mcp_gateway/jobs.py:524-571 | a failed poll or kill makes an active row `unknown` and never final |
| JobAnswers.PollReadsAgain | src/hermes_mcp_gateway/jobs.py:490-495 | a verdict that found its row no longer active gives way to the stored result of a final row |
| JobAnswers.CallerIsCancelled | src/hermes_mcp_gateway/jobs.py:428-442 | a cancellation of the caller changes no row and dispatches nothing; only while the acknowledgement is awaited a write is still owed |
| JobAnswers.MaintainBegins | src/hermes_mcp_gateway/jobs.py:573-584 | a reconciliation leaves a row that is not active, or a start less than a minute old without a process, polls a job with a process, and looks for one otherwise |
| JobAnswers.MaintainTimesOut | src/hermes_mcp_gateway/jobs.py:590-601 | once only, and exactly if the job runs past the deadline, the timeout is requested, and the kill follows only if the row was still active |
| JobAnswers.MaintainGivesUp | src/hermes_mcp_gateway/jobs.py:584-589 | a start without a process becomes `unknown` exactly after a minute |
| JobGuarantees.KillOnlyAfterTimeoutRequest | src/hermes_mcp_gateway/jobs.py:590-601 | whenever maintenance awaits a kill, the timeout request is durable, and it stays so |
| JobGuarantees.IdempotencyWindow | src/hermes_mcp_gateway/jobs.py:281-614 | one row per key in every state; of two dispatches under one key the first job was final and past its retention when its row was deleted |
| JobClocks.TimeoutOnlyPastDeadline | src/hermes_mcp_gateway/jobs.py:573-601 | a row carries a timeout request only after maintenance had read a clock past the deadline that the row still shows, and past the clock reading of the job's admission by more than the duration its preparation froze |
| JobClocks.DeadlineFromAdmission | src/hermes_mcp_gateway/jobs.py:398-403 | in every run, every active row shows as its deadline the clock reading of its admission plus the duration its preparation froze |
| JobClocks.OverdueIsStopped | src/hermes_mcp_gateway/jobs.py:590-596 | in every run, a reconciliation that found a job running requests its timeout if and only if it has not done so before and the stored deadline is before its sweep |
| JobClocks.ReceiptKeptForRetention | src/hermes_mcp_gateway/jobs.py:603-614 | a final row is gone later only if a sweep in between read a clock more than the retention past its last update |
| JobAdapters.OneAdapterTellsTimeoutFromCancel | src/hermes_mcp_gateway/jobs.py:474-495 | in every run of a single adapter a killed job is `timed_out` if and only if its timeout was requested |
| JobVerdicts.CancelledWithTimeoutExactly | src/hermes_mcp_gateway/jobs.py:474-495 | in every run of any number of adapters a row is `cancelled` with its timeout request stored if and only if an operation read the flag as unset, then another adapter stored the request while that verdict was owed, and then the verdict was written to the still active row |
| JobRace.TwoAdaptersMayDisagree | src/hermes_mcp_gateway/jobs.py:474-495 | with two adapters a run reaches a row that is `cancelled` with its timeout request stored |
| PythonInt.ReadsAsZero | src/hermes_mcp_gateway/jobs.py:334-342 | the texts that `int` reads as zero, for every interpreter: blanks, an optional sign, zeros with no underscore at either end and no two together, no more digits than the limit, blanks |
| AdmissionGate.ReadersAgreeExactly | src/hermes_mcp_gateway/jobs.py:326-342 | for every interpreter the script's and the gateway's reading of a stored text agree if and only if it is absent, is `0`, or is not spelled as such a zero |
| AdmissionGate.ReadersOnExamples | src/hermes_mcp_gateway/jobs.py:334-342 | texts on each side of that line under Python 3.11 |
| AdmissionGate.GateIsALock | scripts/job_admission.py:98-133 | over all sequences of drain and resume by any operators the gate behaves as a lock: owner stored exactly while paused, one winner, only the holder is not refused, both readers see a pause exactly while it is held |
| JobDatabase.JobAdmission.SetDrainingRow | scripts/job_admission.py:98-133 | in place: new settings and answer are those of the specification, the jobs are untouched |
| JobDatabase.JobAdmission.Status | scripts/job_admission.py:136-151 | the sum of the counts by state is the number of active jobs, and the report names a drained system if and only if the gate is paused and no row is active |
| JobDatabase.JobAdmission.DrainLoop | scripts/job_admission.py:222-237 | exit 0 exactly on the first report without active jobs, exit 3 only past the deadline, no earlier report ignored |
| JobDrain.DrainSoundness | scripts/job_admission.py:222-237 | once a report says paused and no active job, then until the gate's holder resumes no row is active, no process of a job lives or can appear, no start can dispatch, none is dispatched and none is admitted |
| JobDrain.DrainExitMeansAtRest | scripts/job_admission.py:215-237 | exit code 0 of `drain`: if the drain was accepted, the loop ended on a reading with count 0 and nobody resumed with the same owner token in between, then the gate is that operator's and all of this holds until that operator resumes, although the loop does not look at `draining` |
| JobDrain.QuietUntilResume | src/hermes_mcp_gateway/jobs.py:377-405 | a quiet system stays quiet and dispatches nothing through every event except its holder's resume, and in each of these states every start is refused admission, whoever asks and whenever |
| SessionStore.RevokeKeepsOk | src/hermes_mcp_gateway/sessions.py:48-55 | revoking any set of records keeps the store invariant: cleanup due exactly for revoked records without references, digest index exactly the unrevoked records |
| SessionStore.ReferencesKeepOk | src/hermes_mcp_gateway/sessions.py:83-114 | so do acquiring, retaining and releasing a reference |
| SessionStore.CleanupKeepsOk | src/hermes_mcp_gateway/sessions.py:116-119 | so does completing a cleanup |
| SessionCapabilities.SessionCapabilityStore.RevokeRecord | src/hermes_mcp_gateway/sessions.py:48-55 | for any record object, in the store or not: the record is revoked, its digest entry goes if it was not revoked before, it is handed out exactly if it has no reference and was not handed out before; a record that has left the store changes nothing in it |
| SessionCapabilities.SessionCapabilityStore.ExpireDue | src/hermes_mcp_gateway/sessions.py:57-68 | record by record: revoked afterwards if and only if revoked before or expired by `now`, nothing else changes; handed out are exactly those newly revoked without references, each once |
| SessionCapabilities.SessionCapabilityStore.RevokeAll | src/hermes_mcp_gateway/sessions.py:121-127 | revokes every record, empties the digest index, hands out exactly those without references |
| SessionCapabilities.SessionCapabilityStore.IssueToken | src/hermes_mcp_gateway/sessions.py:70-81 | a new record under a fresh digest if the owner index has room, otherwise no change |
| SessionCapabilities.SessionCapabilityStore.Acquire | src/hermes_mcp_gateway/sessions.py:83-92 | takes one reference on the record the token opens, on no other, or changes nothing |
| SessionCapabilities.SessionCapabilityStore.Retain | src/hermes_mcp_gateway/sessions.py:106-114 | for any record object: one more reference exactly if the store holds this very object, it has a reference and its cleanup has not started; otherwise nothing changes |
| SessionCapabilities.SessionCapabilityStore.ReleaseRecord | src/hermes_mcp_gateway/sessions.py:97-104 | for any record object, in the store or not: one reference is given back, and the record is handed out exactly at the last release of a revoked record whose cleanup has not started; no other record changes |
| SessionCapabilities.SessionCapabilityStore.CleanupCompleted | src/hermes_mcp_gateway/sessions.py:116-119 | for any record object: the entry under its task ID is dropped exactly if its cleanup had started and it has no reference; if that entry is the record itself or missing, the store stays valid |
| NativeActivity.NativeCalls.Run | src/hermes_mcp_gateway/native_activity.py:51-65 | the lease is retained before the thread starts and given back if none could be created; a started call is in the count |
| NativeActivity.NativeCalls.Finished | src/hermes_mcp_gateway/native_activity.py:33-65 | a finished thread leaves the count and releases the lease it was started under, whatever became of its waiter |
| NativeActivity.RetainedAndReleased | src/hermes_mcp_gateway/native_activity.py:51-65 | a reference taken and given back leaves the store as it was and hands nothing out |
| LeaseProtocol.NextKeepsLeases | src/hermes_mcp_gateway/server.py:453-478 | every event of requests, native calls, expiry, close, shutdown and cleanup tasks keeps the lease invariant |
| LeaseProtocol.ReferenceConservation | src/hermes_mcp_gateway/native_activity.py:40-65 | in every run each counter equals the request leases outstanding plus the native calls not finished |
| LeaseProtocol.CleanupNeverMeetsWork | src/hermes_mcp_gateway/server.py:883-919 | an owner whose cleanup has started has no request and no native call, then or at any later time |
| LeaseProtocol.ExactlyOnceCleanup | src/hermes_mcp_gateway/sessions.py:48-127 | a cleanup is started at most once for each owner, and has been exactly if the owner is revoked with no reference left |
| LeaseProtocol.CloseDiscardsNothing | src/hermes_mcp_gateway/server.py:668-680 | the record that `session_close` would throw away is never one to be cleaned up, because the caller holds a lease |
| LeaseProtocol.TokenAgreement | src/hermes_mcp_gateway/sessions.py:57-92 | in every run a token opens its session exactly while issued, not revoked and not expired; the digest index is exactly that of the unrevoked records |
| LeaseProtocol.SlotFreedByCleanup | src/hermes_mcp_gateway/sessions.py:70-119 | the owner index never exceeds its capacity, and a slot is freed only by the completed cleanup of its owner |
| SessionLifetimes.ReapEndsExactlyTheDue | src/hermes_mcp_gateway/sessions.py:57-68 | in every run, after an expiry pass a record is revoked if and only if it was before or its time is up, so none that is due stays open; the others are untouched |
| SessionLifetimes.TokenOpensForItsLifetime | src/hermes_mcp_gateway/sessions.py:57-92 | in every run, a request with an issued token gets a lease on its session if and only if the lifetime since the issue is not over and no expiry pass after its end, close by a request of that session or shutdown came in between |
| SessionLifetimes.OpenSessionIsKept | src/hermes_mcp_gateway/sessions.py:48-127 | in every run, a session is revoked if and only if one of those events came, and until then its record stays |
| SessionLifetimes.NativeStartsUnderALease | src/hermes_mcp_gateway/sessions.py:106-114 | in every run, native work starts for an owner if and only if a request or other native work of that owner is under way |
| SessionLifetimes.EndsAreRecorded | src/hermes_mcp_gateway/server.py:453-478 | in every run, a request, a native call and a cleanup end by their own end event and by no other, and a completed cleanup takes the record with it |
| OperationQueue.GraphSession.Request | src/hermes_mcp_gateway/upstreams.py:249-281 | queued at once on a live owner, refused when closed, otherwise a new owner with an empty queue |
| OperationQueue.GraphSession.ServeQueued | src/hermes_mcp_gateway/upstreams.py:195-203 | the server loop over entries that are there: operations whose waiter left are counted down, up to the first live one or a close |
| OperationQueue.GraphSession.UpstreamAnswered | src/hermes_mcp_gateway/upstreams.py:204-231 | the waiter that is still there gets the value if the server answered and the exception if the call raised; a waiter that left, every other response and the queue are left alone; the operation is counted down either way |
| OperationQueue.GraphSession.Interrupt | src/hermes_mcp_gateway/upstreams.py:204-239 | a cancellation or a broken connection: an operation in hand is counted down, its response is left alone |
| OperationQueue.GraphSession.DrainAndEnd | src/hermes_mcp_gateway/upstreams.py:240-247 | the loop of the owner's `finally`: every queued operation is counted down and answered with the failure |
| QueueRuns.QueueStepKeepsInv | src/hermes_mcp_gateway/upstreams.py:172-330 | every event of a graph session keeps its invariant |
| QueueRuns.PendingIsExact | src/hermes_mcp_gateway/upstreams.py:143-150 | in every run the counter is never negative and equals queued operations plus the one in hand plus those lost with a dead owner's queue; it is exact if and only if none was lost |
| QueueRuns.FinishedOnceInOrder | src/hermes_mcp_gateway/upstreams.py:195-247 | operations queued on a live owner are counted down in the order they were queued, each exactly once, and all of them by the time the owner has ended, on success, error, departed waiter, failure or cancellation |
| QueueRuns.FinishedIsAnswered | src/hermes_mcp_gateway/upstreams.py:224-247 | from the count-down on, at every later time: an operation cut in hand is never resolved, every other one was answered or given up; a waiter that stays waits in vain if and only if the owner was cut |
| QueueRuns.CutMeansInHand | src/hermes_mcp_gateway/upstreams.py:204-239 | an operation is counted down as cut if and only if its owner was interrupted while the operation was in hand |
| QueueAnswers.AnswerIsExact | src/hermes_mcp_gateway/upstreams.py:201-247 | in every run, for every queued operation: its response is a value if and only if the server answered while it was in hand and waited for, an exception if and only if the server call raised then or the owner ended with it queued and waited for, cancelled if and only if its waiter left before |
| QueueAnswers.CloseIsExact | src/hermes_mcp_gateway/upstreams.py:195-247 | in every run, a close goes on to await the owner if and only if the server loop took its entry while it waited, fails if and only if the owner ended with the entry queued, and is cancelled if and only if it left before |
| QueueAnswers.ServeTakesFirst | src/hermes_mcp_gateway/upstreams.py:195-203 | the server loop counts down exactly the leading operations whose waiters left, and takes the first other entry: an operation comes in hand unanswered, a close is answered and ends the loop |
| QueueAnswers.DrainFailsAll | src/hermes_mcp_gateway/upstreams.py:240-247 | the final loop fails every queued operation and close that is still waited for, and no other |
| QueueAnswers.QueuedAtTheEnd | src/hermes_mcp_gateway/upstreams.py:271-281 | in every run, an operation appears exactly when a request finds a live owner or has waited for its start, at the end of the queue, unanswered and counted |
| QueueAnswers.NothingQueuedAfterClose | src/hermes_mcp_gateway/upstreams.py:299-330 | in every run, once a close or an abort has begun no operation is queued any more |
| QueueAnswers.ClosedSessionStaysDown | src/hermes_mcp_gateway/upstreams.py:297-330 | in every run, a session whose close or abort came to its end has no owner and nothing queued from then on, and the lock is free |
| QueueAnswers.AnsweredCloseAwaits | src/hermes_mcp_gateway/upstreams.py:304-310 | a close that the server loop answered goes on to await the owner with the lock held; one that failed gives the lock back |
| QueueAnswers.StarterIsWoken | src/hermes_mcp_gateway/upstreams.py:192-271 | in every run, a request that awaits the start of an owner cannot go on while the owner starts, and can as soon as it is ready or has ended |
| LoopRuns.CutLeavesWaiter | src/hermes_mcp_gateway/upstreams.py:204-247 | a run on the event loop, for every number of suspensions of the teardown, that ends with the owner done, nothing pending and the waiter still waiting |
| QueueRuns.CounterDriftsExactly | src/hermes_mcp_gateway/upstreams.py:258-281 | with arbitrary scheduling the counter differs from what is queued or in hand if and only if a request resumed on an ended owner and that owner's queue was replaced or dropped afterwards |
| LoopRuns.StarterIsInTime | src/hermes_mcp_gateway/upstreams.py:192-281 | on an event loop, if the teardown of the owner suspends at least once, no request ever resumes on an ended owner, and the counter equals what is queued or in hand in every state of every run |
| LoopRuns.CounterExactIfTeardownSuspends | src/hermes_mcp_gateway/upstreams.py:172-281 | the counter is exact in every run on the event loop if and only if the teardown suspends at least once |
| QueueRuns.OrphansNeverFinish | src/hermes_mcp_gateway/upstreams.py:271-281 | such an operation is never counted down or answered and keeps the counter positive |
| QueueRuns.ExactWithoutLateStarters | src/hermes_mcp_gateway/upstreams.py:143-150 | without such a resumption the counter is exact throughout, and an ended owner leaves nothing pending |
| LoopRuns.LateStarterLosesItsOperation | src/hermes_mcp_gateway/upstreams.py:249-281 | with a teardown that never suspends, a run on the event loop that leaves an operation behind and the counter one too high |
| SessionPool.GraphClient.TrimSessions | src/hermes_mcp_gateway/upstreams.py:402-420 | the eviction loop closes exactly the first min(excess, idle unprotected) idle unprotected sessions in recency order |
| SessionPool.GraphClient.GetSession | src/hermes_mcp_gateway/upstreams.py:478-507 | the session of a directory becomes the most recent; refused exactly if closed or if a new one does not start, and then nothing changes |
| SessionPool.GraphClient.Call | src/hermes_mcp_gateway/upstreams.py:533-539 | the first locked section of `call`: session, pin and trim as specified and exactly the trimmed sessions handed over, or no change and none; exactly the chosen session has one pin more |
| SessionPool.GraphClient.CallFinished | src/hermes_mcp_gateway/upstreams.py:543-547 | the locked section of its `finally`: unpin and trim as specified, and exactly the trimmed sessions handed over; the session has one pin less and every other as many as before |
| SessionPool.GraphClient.Describe | src/hermes_mcp_gateway/upstreams.py:509-515 | the locked section of `describe`: find or start the session; trim, and hand over the trimmed sessions, only if its own discovery succeeds |
| SessionPool.GraphClient.Close | src/hermes_mcp_gateway/upstreams.py:549-554 | the map is emptied and every session in it is handed over to be closed |
| SessionPool.DropPartitions | src/hermes_mcp_gateway/upstreams.py:402-420 | every session is either kept or closed, none is lost or duplicated |
| SessionPool.EvictedAndKept | src/hermes_mcp_gateway/upstreams.py:402-420 | what a trim hands over to be closed and what it keeps make up the pool, and all that it hands over was idle and unprotected |
| SessionPool.DropKeepsOrder | src/hermes_mcp_gateway/upstreams.py:402-420 | a trim keeps the order of the rest |
| SessionPool.DropKeepsBusy | src/hermes_mcp_gateway/upstreams.py:397-412 | a trim never closes a protected session or one with active work |
| SessionPool.TrimReachesLimit | src/hermes_mcp_gateway/upstreams.py:402-420 | a trim ends within the limit or with every unprotected session busy, and never goes below the limit |
| PoolRuns.EvictsLeastRecentlyUsed | src/hermes_mcp_gateway/upstreams.py:402-420 | what a trim closes was asked for before every idle unprotected session that it keeps |
| PoolRuns.PoolStepKeepsInv | src/hermes_mcp_gateway/upstreams.py:478-555 | every event of the client keeps recency order, one session per directory, pins no fewer than the calls outstanding, and those calls' sessions in the map until close |
| PoolRuns.PinnedUntilClose | src/hermes_mcp_gateway/upstreams.py:533-555 | in every run a session with an outstanding call is in the map unless the client was closed, and after a close the map is empty for good |
| PoolRuns.EventCalls | src/hermes_mcp_gateway/upstreams.py:478-547 | a call is outstanding from the event that gives it the session of its directory, or a new one if there was none, until its own end; it is refused exactly if the client is closed or a new session does not start |
| PoolRuns.AskedForStays | src/hermes_mcp_gateway/upstreams.py:478-541 | after a call or `describe` that is not refused the directory has a session in the map, the one it had or the new one: their trims never close it |
| ClientRuns.PinsAreOutstandingCalls | src/hermes_mcp_gateway/upstreams.py:533-547 | in every run of the client, the pins of every session equal its outstanding calls plus the ends that skipped their unpin; without such ends, its outstanding calls |
| ClientRuns.EvictableExactly | src/hermes_mcp_gateway/upstreams.py:396-412 | in the client together with its sessions' queues, a session may be closed to make room if and only if it is not protected, no call pins it, and none of its operations is queued, in hand or lost |
| ClientRuns.EvictedHasNoWork | src/hermes_mcp_gateway/upstreams.py:402-420 | in every run of the client with its sessions, a session that leaves the map otherwise than by the client's close has no outstanding call and no operation queued or in hand |
| ClientRuns.SparedHasWork | src/hermes_mcp_gateway/upstreams.py:402-420 | after every trim of such a run the pool is within its limit, or every session but the protected one has an outstanding call, has an operation queued, in hand or lost, or has had a call whose end skipped its unpin |
| Json.ScanEscaped | src/hermes_mcp_gateway/output.py:75-93 | scanning after section 7 of RFC 8259 undoes the escaping of `json.dumps` on every text: character by character without `ensure_ascii`, as UTF-16 units with it |
| JsonParser.RenderedReadsBack | src/hermes_mcp_gateway/output.py:75-93 | every rendering of a value whose numbers are JSON numbers is a JSON text by the grammar of RFC 8259 and reads back as that value |
| Json.RenderPrintable | src/hermes_mcp_gateway/output.py:75-93 | every rendering with `ensure_ascii` is printable ASCII |
| Json.EscapedPrefixGrows | src/hermes_mcp_gateway/output.py:75-93 | the escaped length is monotone in the prefix and grows at least as fast |
| JsonResult.EnvelopeDecodes | src/hermes_mcp_gateway/output.py:80-84 | every envelope is a JSON text that reads as the object with `truncated` true and the given preview |
| JsonResult.EnvelopeText | src/hermes_mcp_gateway/output.py:80-84 | the envelope character by character: its length is 34 more than that of the escaped preview |
| JsonResult.LongestFit | src/hermes_mcp_gateway/output.py:85-92 | the binary search, although it starts at min(length, limit), ends on a prefix whose envelope fits while that of every longer prefix does not |
| JsonResult.JsonText | src/hermes_mcp_gateway/output.py:75-93 | for every payload and limit: the rendering if it fits, and it reads back as the payload if its numbers are JSON numbers; the error if not even an empty envelope fits; otherwise a JSON text within the limit whose preview is a proper prefix of the rendering, and no longer prefix fits |
| ReadFilePages.KeepLines | src/hermes_mcp_gateway/server.py:191-198 | the loop that collects lines stops exactly where the raw budget ends |
| ReadFilePages.PopUntilFits | src/hermes_mcp_gateway/server.py:200-221 | the loop that drops lines from the end gives the answer of its specification, for numbered lines and others |
| ReadFilePages.CutPage | src/hermes_mcp_gateway/server.py:166-227 | the whole cutter on a decoded payload gives the answer of its specification |
| PageCuts.CutExactly | src/hermes_mcp_gateway/server.py:166-227 | for every payload and limit: passed through exactly without a text content; whole if the structured value fits; otherwise, of the lines within the raw budget, the search from the end passes every page that is too large and stops at the first that fits, at a line without number, or when no line is left, with the page and next offset or the error of each |
| PageCuts.LinesMakeText | src/hermes_mcp_gateway/server.py:191-191 | the lines of any text make up the text, each ends with its first boundary, and only the last may lack one |
| Pagination.LinesOfNumbered | src/hermes_mcp_gateway/server.py:191-191 | `splitlines` gives back the lines of a numbered listing |
| Pagination.KeptLines | src/hermes_mcp_gateway/server.py:204-208 | joining the first lines and stripping the newline is the listing of exactly those lines |
| Pagination.StructuredLookup | src/hermes_mcp_gateway/server.py:184-186 | the structured value shows the content as `file_text` and keeps every other field |
| Pagination.PageLookup | src/hermes_mcp_gateway/server.py:205-211 | a page carries its content, the cut mark, the next offset and the hint that names it, and keeps every other field |
| Pagination.BeyondBudget | src/hermes_mcp_gateway/server.py:194-216 | lines beyond the raw budget could not have fitted in any page |
| Pagination.CutIsBest | src/hermes_mcp_gateway/server.py:166-227 | a numbered listing is passed on whole if its structured value fits; otherwise the page is the longest run of leading lines that fits both as text and as structured value; the single-line error comes exactly when no run fits |
| Pagination.PageReadsBack | src/hermes_mcp_gateway/server.py:205-213 | the text of a cut page is a JSON text and reads back as the page |
| Pagination.LosslessPagination | src/hermes_mcp_gateway/server.py:200-227 | following `next_offset` from any line always advances and ends, and yields every line once in order, or every line up to the one at which nothing fits |

## Left out

- SQLite itself: schema migration, file modes, symlink and path-permission checks, database
  errors, `snapshot`, and legacy rows without owner or directory. Kept are the atomicity of
  transactions, the roll-back of a transaction that raises, and durability.
- Validation of arguments and of caller IDs before a transaction: requests are taken as
  already validated.
- The file system: whether a frozen directory still resolves is an arbitrary answer at each
  admission and revalidation; paths are sequences of components.
- The coroutines of `jobs.py` are program counters of the state machine rather than Dafny
  methods; only their transactions are methods.
- `maintain` starting one reconciliation for each active job: any reconciliation may start at
  any time, which allows more runs.
- Liveness: that the native side answers, that jobs end, that a kill takes effect in time;
  and exactly-once external effects.
- SessionCapabilities.SessionCapabilityStore.ExpireDue: does not fix the order of the list
  it hands out.
- JobDatabase.JobAdmission.Status: does not model the count of unrecognized states, which
  the script adds to the active ones, because no transaction writes such a state; nor the
  table of counts by state.
- JobDatabase.JobAdmission.DrainLoop: reports and monotonic readings are arguments, and a
  reading past the deadline is assumed to come.
- AdmissionGate.ReadersAgreeExactly: speaks of texts; a value stored as a BLOB by hand is not
  modelled. The runs use Python 3.11 with the digits of Unicode 14.0 and the default limit;
  they only ever meet the texts `0` and `1`.
- NativeActivity.NativeCalls.Finished: the end of a native call is the end of its
  `to_thread` task, which at loop shutdown can come before the thread itself ends.
- JobDatabase.ResumableJobs.ActiveJobs: the query of `maintain` and its deletions are not one
  transaction, as Python opens one only at the first deletion; so what another adapter
  commits in between is not in the answer.
- ClientRuns.EvictedHasNoWork: a session's closing after its eviction is not tied to the
  eviction; its queue may close, or be cut, at any time.
- Digests, tokens, `hmac` comparison: injective, fresh, equality.
- The graph session's connection, environment and tool-surface check: a start either becomes
  ready or fails, and an owner may be cut at any point.
- LoopRuns.StarterIsInTime: of the event loop only the order of the callbacks of one
  session's owner and starter is modelled; everything else may happen between any two of
  them.
- SessionCapabilities.SessionCapabilityStore.CleanupCompleted: says nothing of the store's
  validity if another record had the same task ID; task IDs are random and never shared.
- PoolRuns.PinnedUntilClose: only the safe direction.
- ClientRuns.PinsAreOutstandingCalls: a cancellation that hits the lock in the `finally` of
  `call` leaves its pin behind for good, as in the program; such ends are counted apart.
- JobOutcomes.ReplyIsWritten: a reply's exit code that is not an integer is taken as a
  missing one, although the program stores it as it is.
- Closing of evicted sessions, cleanup-task tracking, `healthy` and `describe`'s tool
  description.
- Json.ScanEscaped: a pair of escaped surrogates is read as its two UTF-16 units and not
  joined to one character.
- JsonParser.RenderedReadsBack: the bare words that `json.dumps` writes for infinities and
  NaN are not JSON, so a payload that holds one and fits is passed on as it is.
- ReadFilePages.CutPage: redaction is the identity, the payload is already decoded, and a
  line number is taken as ASCII decimal digits.
- Pagination.LosslessPagination: the native tool is taken to answer an offset with the rest
  of the file; its own windows are not modelled.
- `normalize_result`, whose structured preview is cut before it is escaped again.
- HTTP and MCP transport, tool catalogs, `execution.py`, `capabilities.py`, `memory.py`,
  `lsp.py`, probes and configuration: allowlists, forwarding and process plumbing.
