# Verified model of the coordination protocols

The toolkit runs coding tasks in detached Git checkouts, synchronously or as persisted
asynchronous jobs, against one managed model endpoint. Its hard part is coordination between
processes that may die between any two writes: they share job records, a lease list, delivery
receipts, review records and a checkout, and they protect them with advisory locks that the
operating system frees when a process exits.

This project models those protocols in Dafny and proves what they promise. Each protocol
appears twice where that makes sense:

* as a **transition system** with any number of processes, program counters, locks, a durable
  store and a crash step that is enabled everywhere, with theorems about every run
  (`JobProtocol`, `Submission`, `LeaseProtocol`, `Bridge`, `Capture`);
* as **classes and methods in the form of the source**, with the same loops, branches and early
  exits, whose contracts state the new state outright and tie it to the functions the theorems
  are about (`JobManagement`, `Leases`, `Bridge.BridgeStore`, `Git.Checkout`, `Export`,
  `Removal`, `Worktree`, `Review`, `BoundedLoop`, `ScopedRun`, `Worker`, `Manifest`).

Run `dafny verify dfyconfig.toml` with the options `--resource-limit 2000000
--verification-time-limit 0` to check everything.

## How the modules fit together

| module | subject |
|---|---|
| `Jobs` | the job record, its validator, and the six locked mutations as one function `Apply` |
| `JobManagement` | the job manager class; every method equals `Apply` on the stored record |
| `JobProtocol` | one record, many processes: lock, read, replace and release are separate steps |
| `Submission` | submitter, worker, canceller and recoverer racing at startup |
| `Worker` | one worker from claim to lease release, and the failure reason it derives |
| `Leases` | the activity registry of the managed endpoint, every operation as a method |
| `LeaseProtocol` | the registry under interleaving, crashes, unlocked job reads and lifecycle commands |
| `Bridge` | write-ahead receipts and at-most-once delivery beside a concurrent cleaner |
| `Git`, `Export` | commit, rollback and export of one checkout |
| `Removal`, `Worktree` | removal of directory entries, and of the untracked files of a checkout by means of it |
| `Sequences` | any sequence of edits, commits, exports and rollbacks, with failures anywhere |
| `TaskPolicy`, `ScopedRun`, `BoundedLoop` | declared scope, the tail of a run, the attempt loop |
| `Review` | review records, self-hashed evidence, status across crash points |
| `Capture` | two reader threads with unsynchronised counters; re-encoded size of what they kept |
| `Manifest` | worklist equality of JSON values and the comparison of benchmark variants |

`JobProtocol.ChangeIsOneMutation` shows that every change of a record is one `Apply` of one
mutation to exactly the record on disk. That is why `Submission` and `JobManagement` may treat a
locked mutation as a single step, and why `LeaseProtocol` may let a job's status move along any
legal edge at any moment without its lock. `LeaseProtocol.DroppedJobIsTerminal` is what makes the
registry's unlocked reads sound. The protocols share the notion of a run in module `Runs`. The
operations on a checkout state three things each: what holds when outsiders rewrite HEAD, index and
files before every command; what holds when nobody interferes and commands and removals fail, or
the process dies, at will (`Git.Checkout.Alone`, on which `Sequences` builds); and what exactly
happens when nothing fails either (`Git.Checkout.Undisturbed`).

Where a contract equates the new state with a function, what that function means is stated once
more in terms of inputs and results alone: `Jobs.ApplyAnswers`, `Jobs.ApplyWrites` and
`Jobs.AbandonmentMeans` for the job record, `Leases.ReconciledMeaning` for the registry,
`Git.CommitHappensIff` for a commit, `Review.CurrentIff` for a status,
`BoundedLoop.FirstStopDecides` for the attempt loop. The protocols are shown not to be idle in the
same way (`JobProtocol.RecoveryHappens`, `Submission.HandshakeSucceeds`,
`LeaseProtocol.CommandStarts`, `Bridge.DeliveryGoesThrough`).

## What the code decides

These are places where the code does less, or other, than its comments or the obvious reading
suggest. The model keeps the code and proves the exact boundary.

* `_fail_if_queued` says that it persists a launch failure only if the worker has not claimed the
  job. `transition` accepts FAILED from RUNNING as well, so a worker that claims between the last
  poll and this write is failed while it runs, and `submit_job` raises for a claimed job.
  `Submission.SubmitterCanFailARunningWorker` is such a run. `Submission.RaisedPromiseIff` proves
  that what the error means to say is true exactly if that write did not land on a running job
  without a cancellation request.
* `set_child_process` replaces the record with `model_copy`, which skips field validation.
  `Jobs.SavedIsLoadableIff` proves that a saved record can be read back exactly if no non-positive
  child PID was copied in; `JobManagement.BadChildBreaksReads` is the failing case. The validator
  rules themselves survive every write (`Jobs.ApplyKeepsRules`).
* Records without a start token are judged by creation times. `JobProtocol.DriftCondemnsTheLiving`
  proves that a live worker is condemned exactly if the clock drifts beyond the tolerance. The
  recovery theorem therefore bounds the reading error for such workers. Workers with a token are
  judged by the token alone, and their creation times may drift at will.
* `recover_job` ignores a pending cancellation request, so a cancelled running job may still end as
  FAILED, but only with reason `abandoned_process` (`JobProtocol.CancelFirstDecides`).
* `_failure_reason` can produce a reason that starts with a digit. The terminal write is then
  refused, the record stays RUNNING and the lease stays taken, until recovery.
  `Worker.DigitCodeIsRefused` is such a code; `Worker.FailureReasonIsValidIff` and
  `Worker.RunningJobIsSettledIff` give the exact conditions.
  No error code of the toolkit itself starts with a digit.
* "One message in flight per thread" holds among live invocations. When an invocation dies, its
  queue command may live on while another job's command to the same thread starts:
  `Bridge.OrphanOverlaps` is such a run. Counting such commands, a start is exclusive exactly if none
  is left for its thread (`Bridge.StartIsExclusiveIff`). At most one start per job holds without that
  restriction.
* A readiness request leaves no sentinel. When its client dies or gives up, the lock is freed while the
  server may still work on the request. `LeaseProtocol.AbandonedRequestOverlaps` is a run in which a task
  is then admitted. `LeaseProtocol.OverlapIffAbandoned` proves that such requests are the only ones that
  overlap anything. Lifecycle commands stay excluded after a death.
* A terminal record does not stop its worker: when the submitter's failing write lands on a running job,
  the worker goes on, and that is the only way (`Submission.WorkingUnderTerminalIff`). The dropped job
  lease is then no longer its cover; the run itself takes a sync lease of its own (aider_runner.py:840).
* The capture cap bounds each stream. Both together may exceed it, since a reader acts on a counter that
  it read earlier, but by no more than one chunk (`Capture.CaptureBounds`), and by that much for every cap
  (`Capture.CapPlusChunkIsReached`).
* The export reports every path that differs from the baseline, and exactly one kind of path that
  does not: a baseline file that was dropped from the index but still lies there unchanged
  (`Export.ReportIsComplete`).
* Attempt tests are judged by their exit code alone, even if they timed out
  (`BoundedLoop.RecordOf`).
* A scope violation that shows only after the commit still leaves the commit hash on a failed run:
  `ScopedRun.LateEditFailsTheRun` is such a run. It takes an outside edit between the commit and the last
  export: without interference no failed run names a commit (`ScopedRun.FinishRun`), and the late check
  fails exactly if what the checkout holds by then is out of scope (`ScopedRun.ConcludeRun`).

## Model

| member | source | states |
|---|---|---|
| `Jobs.ApplyKeepsRules` | src/hybrid_sdlc/job_manager.py:111-143 | the record validator's rules survive every write, unvalidated copies included |
| `Jobs.RulesByStatus` | src/hybrid_sdlc/job_manager.py:111-143 | what a valid record holds, status by status, and which fields of it are bounded |
| `Jobs.FormatsAre` | src/hybrid_sdlc/job_manager.py:28-31 | the formats of digests and reasons, character by character |
| `Jobs.EdgesAre` | src/hybrid_sdlc/job_manager.py:44-51 | the legal transitions are these six, and the terminal statuses are those that none leaves |
| `Jobs.ApplyAnswers` | src/hybrid_sdlc/job_manager.py:212-537 | for each mutation exactly when it is refused, when it changes nothing and when it is saved |
| `Jobs.ApplyWrites` | src/hybrid_sdlc/job_manager.py:212-537 | what each saved mutation writes: the claim, the heartbeat, the cancellation, the child, the abandonment, and the result, reason and end of a transition |
| `Jobs.SavedIsLoadableIff` | src/hybrid_sdlc/job_manager.py:298-329 | a saved record can be read back exactly if no non-positive child PID was copied into it |
| `Jobs.ApplyFollowsEdges` | src/hybrid_sdlc/job_manager.py:44-51 | every write keeps the status of a running job or follows a legal transition; no write leaves a terminal status |
| `Jobs.ApplyFrame` | src/hybrid_sdlc/job_manager.py:212-329 | what each mutation must leave alone: request, creation time, worker, child, run result, cancellation flag |
| `Jobs.CancellationWins` | src/hybrid_sdlc/job_manager.py:510-521 | with cancellation on record a running job stays running, is cancelled without a foreign result, or is failed as abandoned |
| `Jobs.AbandonmentMeans` | src/hybrid_sdlc/job_manager.py:455-494 | the verdict of a probe, cause by cause: missing exactly without a live process, reused exactly for two known tokens that differ, and by creation time exactly without a token and beyond the tolerance |
| `JobManagement.JobManager.Get` | src/hybrid_sdlc/job_manager.py:331-338 | a read succeeds exactly for an existing, valid record of that identifier |
| `JobManagement.LookupMeans` | src/hybrid_sdlc/job_manager.py:331-338 | which records can be looked up, and which error the others give |
| `JobManagement.CallMeans` | src/hybrid_sdlc/job_manager.py:212-537 | the effect of a locked call on the store and its answer, for each verdict on the record; all other records stay |
| `JobManagement.ReplayInTurn` | src/hybrid_sdlc/job_manager.py:146-537 | calls in turn: the last one has its effect on what the others left |
| `JobManagement.JobManager.Create` | src/hybrid_sdlc/job_manager.py:165-210 | a new queued record under the first unused drawn identifier, or the requested one; existing records untouched; gives up exactly if all ten are taken |
| `JobManagement.JobManager.Claim` | src/hybrid_sdlc/job_manager.py:212-244 | store and answer are those of a claim: only from QUEUED, worker identity and start recorded |
| `JobManagement.JobManager.Heartbeat` | src/hybrid_sdlc/job_manager.py:246-263 | only the running job's own worker refreshes its heartbeat |
| `JobManagement.JobManager.Cancel` | src/hybrid_sdlc/job_manager.py:265-296 | queued jobs are cancelled at once, running ones flagged, terminal and flagged ones returned unchanged |
| `JobManagement.JobManager.SetChildProcess` | src/hybrid_sdlc/job_manager.py:298-329 | the own worker records or clears its child; clearing another child changes nothing |
| `JobManagement.JobManager.Diagnose` | src/hybrid_sdlc/job_manager.py:388-403 | the unlocked half of recovery: snapshot and verdict of the probe; of a running job, a dead worker is always found missing, and with both tokens known a reused PID exactly if they differ |
| `JobManagement.JobManager.FailIfStillOwned` | src/hybrid_sdlc/job_manager.py:404-426 | the locked half: fails the job only if it still runs under the snapshot's worker |
| `JobManagement.JobManager.Transition` | src/hybrid_sdlc/job_manager.py:496-537 | legal edges only; a cancellation request turns any end into CANCELLED without reason and result |
| `JobManagement.ReplayKeepsLoadable` | src/hybrid_sdlc/job_manager.py:146-537 | any sequence of calls keeps all records readable, given positive child PIDs |
| `JobManagement.ReplayKeepsTerminal` | src/hybrid_sdlc/job_manager.py:44-51 | no sequence of calls changes a terminal record or removes any record |
| `JobManagement.BadChildBreaksReads` | src/hybrid_sdlc/job_manager.py:321-328 | the counterexample: one unvalidated child PID makes the record unreadable |
| `JobProtocol.ChangeIsOneMutation` | src/hybrid_sdlc/job_manager.py:212-329 | no lost update: each change of the file is one mutation applied by the lock holder to exactly the record on disk |
| `JobProtocol.HistoryIsLegal` | src/hybrid_sdlc/job_manager.py:44-51 | in every run the status history follows the legal edges, with at most one successful claim and valid records throughout |
| `JobProtocol.TerminalIsForEver` | src/hybrid_sdlc/job_manager.py:44-51 | a terminal record never changes again, whatever stale snapshots processes hold |
| `JobProtocol.FirstClaimWins` | src/hybrid_sdlc/job_manager.py:212-244 | the first claimant remains the recorded worker for the rest of the run |
| `JobProtocol.CondemnedWorkerHasExited` | src/hybrid_sdlc/job_manager.py:455-494 | a truthful probe that yields an abandonment verdict proves that the claimant exited; a worker with a token is judged by it alone, however creation times drift |
| `JobProtocol.RecoveryFailsOnlyTheExited` | src/hybrid_sdlc/job_manager.py:388-426 | a recovery write goes through only on a running job whose recorded worker has exited, for any interleaving of snapshot, probe and lock; creation times are bounded only for workers without a token |
| `JobProtocol.RecoveryGoesOn` | src/hybrid_sdlc/job_manager.py:388-403 | completeness: if the claimant has exited, a truthful probe that finds nobody, or reads a token for a worker with one, always leads on to the locked half with its cause |
| `JobProtocol.RecoveryGetsThrough` | src/hybrid_sdlc/job_manager.py:404-426 | and the save then fails the job as abandoned with that cause if it still runs under the snapshot's worker |
| `JobProtocol.RecoveryHappens` | src/hybrid_sdlc/job_manager.py:388-426 | in any run, a new process can recover a running job whose worker's PID is nobody's while the lock is free |
| `JobProtocol.MutationInOneGo` | src/hybrid_sdlc/job_manager.py:221-244 | a process that finds the lock free gets its mutation done and leaves the lock free |
| `JobProtocol.CancelFirstDecides` | src/hybrid_sdlc/job_manager.py:265-296 | once cancellation of a running job is on file it stays so, and the job never completes and fails only as abandoned |
| `JobProtocol.TerminalFirstIsReported` | src/hybrid_sdlc/job_manager.py:275-278 | a terminal write that locked first is what a later cancellation returns, unchanged |
| `JobProtocol.DriftCondemnsTheLiving` | src/hybrid_sdlc/job_manager.py:477-493 | without a token a live worker is condemned exactly beyond the clock tolerance |
| `Submission.FailIfQueued` | src/hybrid_sdlc/submission.py:200-207 | ends with a terminal record on file, or with the error of an unreadable one; a terminal record is returned as it was, a running one is failed or, if so requested, cancelled |
| `Submission.PollStartup` | src/hybrid_sdlc/submission.py:339-361 | the poll loop stops at the first record that is not queued or the first exit; a record counts as claimed exactly if it has a worker and a start and is no launch failure |
| `Submission.ReturnedIsClaimed` | src/hybrid_sdlc/submission.py:330-368 | a returned record was claimed by the launched worker and is no launch failure |
| `Submission.KillSparesClaimants` | src/hybrid_sdlc/submission.py:361-367 | a killed worker has not claimed and never will, in every later state |
| `Submission.TerminalSettles` | src/hybrid_sdlc/job_manager.py:44-51 | once the job is terminal, who claimed it and who failed it is settled |
| `Submission.ForcedIffOverwrote` | src/hybrid_sdlc/submission.py:200-207 | the submitter failed a claimed job exactly if its write once landed on a running, uncancelled job |
| `Submission.RaisedPromiseIff` | src/hybrid_sdlc/submission.py:330-368 | after the error the job is terminal for good, and nobody claimed it or the worker reported the failure itself, exactly if the submitter's write did not land on a running, uncancelled job |
| `Submission.SubmitterCanFailARunningWorker` | src/hybrid_sdlc/submission.py:361-367 | the race: a claim after the last poll ends as a launch failure of a working worker |
| `Submission.HandshakeSucceeds` | src/hybrid_sdlc/submission.py:330-355 | from any start, a worker that claims in time has its running job returned under its own identity |
| `Submission.HandshakeFails` | src/hybrid_sdlc/submission.py:356-368 | without a claim the job fails as not launched and the error is raised, after a failed launch, an exit or the deadline; only after the deadline the child is killed |
| `Submission.WritesReachTheFile` | src/hybrid_sdlc/submission.py:330-368 | what worker, canceller and recoverer write reaches the file as the mutation says, and only its own end stops the worker |
| `Submission.WorkingUnderTerminalIff` | src/hybrid_sdlc/submission.py:200-207 | a worker that still works does so under a terminal record exactly if the submitter's failing write landed on the running job |
| `Worker.FailureReasonIsValidIff` | src/hybrid_sdlc/worker.py:29-35 | the derived reason is acceptable exactly unless the code's first letter or digit is a digit and no known word occurs |
| `Worker.DigitCodeIsRefused` | src/hybrid_sdlc/worker.py:29-35 | the counterexample: the reason derived from "3d" is refused |
| `Worker.NormalizedIsJoined` | src/hybrid_sdlc/worker.py:30 | normalisation yields the words of the lower-cased code joined by single underscores |
| `Worker.FailureReasonMeans` | src/hybrid_sdlc/worker.py:29-35 | which reason a code gives: timeout, then test failure, then its own words, then internal error |
| `Worker.RunWorker` | src/hybrid_sdlc/worker.py:116-198 | claim, execute, settle, release: a settled job is COMPLETED or FAILED with the summary of its run, CANCELLED if it was cancelled, or FAILED for a bad value, an internal error or a failed heartbeat, each under its own reason; the lease is given back exactly when the record on disk is terminal by this worker's write and the release gets the lock and can read the record, whatever others do meanwhile |
| `Worker.RunningJobIsSettledIff` | src/hybrid_sdlc/worker.py:38-45 | a job still running at the end is settled exactly if cancellation was requested or the reason is acceptable |
| `Leases.ReconciledMeaning` | src/hybrid_sdlc/runtime_strata.py:738-774 | reconciliation refuses exactly if some entry is malformed or a job whose record cannot be read; otherwise exactly the entries that are no job read as COMPLETED, FAILED or CANCELLED stay, in their order |
| `Leases.ReconciledSplit` | src/hybrid_sdlc/runtime_strata.py:745-774 | reconciling a list in two parts is reconciling it whole |
| `Leases.NothingIsLeft` | src/hybrid_sdlc/runtime_strata.py:738-774 | reconciliation leaves nothing exactly if every entry is a job read as completed, failed or cancelled |
| `Leases.ActivityRegistry.IsUncertain` | src/hybrid_sdlc/runtime_strata.py:789-794 | finds a lifecycle sentinel exactly if there is one |
| `Leases.ActivityRegistry.SyncEnter` | src/hybrid_sdlc/runtime_strata.py:395-411 | admitted exactly without a sentinel, and then one sync lease is appended |
| `Leases.OnlyOwnLeaseGoes` | src/hybrid_sdlc/runtime_strata.py:414-418 | removing by identifier takes exactly the entry that carries it and keeps all others in their order |
| `Leases.ActivityRegistry.SyncExit` | src/hybrid_sdlc/runtime_strata.py:412-418 | whatever was appended before and after the own lease stays in order; a list that no longer holds the lease is left as it is |
| `Leases.ActivityRegistry.ReserveAsync` | src/hybrid_sdlc/runtime_strata.py:448-510 | every way the creation may end: a created job, or one that exists and is not terminal, is covered by a lease; other entries stay |
| `Leases.ActivityRegistry.ReleaseAsync` | src/hybrid_sdlc/runtime_strata.py:513-551 | drops the job's lease exactly on a terminal record, and answers without change if there is none |
| `Leases.ActivityRegistry.Reconcile` | src/hybrid_sdlc/runtime_strata.py:738-774 | the loop with its early exits leaves the old list exactly if an entry cannot be judged, and otherwise all entries but the jobs read as completed, failed or cancelled |
| `Leases.ActivityRegistry.DiagnosticStatus` | src/hybrid_sdlc/runtime_strata.py:1045-1073 | the lock-free observer answers unknown exactly if an entry cannot be judged, idle exactly if every entry is a job read as completed, failed or cancelled, and busy otherwise |
| `Leases.ActivityRegistry.RunLifecycle` | src/hybrid_sdlc/runtime_strata.py:777-875 | a command runs exactly on a registry that holds nothing but ended jobs; a failed one leaves exactly its sentinel |
| `LeaseProtocol.NoOverlap` | src/hybrid_sdlc/runtime_strata.py:394-551 | in every run with crashes anywhere no lifecycle command, pending in the daemon included, and no readiness request of a live process that waits for it overlaps a task body, a reserved job that is not terminal, or each other |
| `LeaseProtocol.OverlapIffAbandoned` | src/hybrid_sdlc/runtime_strata.py:422-445 | the exact boundary: while a task, an unfinished reserved job or a pending command occupies the service, a readiness request is in service exactly if one was abandoned by its client and has not ended |
| `LeaseProtocol.AbandonedRequestOverlaps` | src/hybrid_sdlc/runtime_strata.py:422-445 | a run in which a client dies during its request and a task runs while the server still works on it |
| `LeaseProtocol.LeaseCover` | src/hybrid_sdlc/runtime_strata.py:448-551 | at every point each existing job that is not terminal has a submitting or job lease |
| `LeaseProtocol.ActSparesOthers` | src/hybrid_sdlc/runtime_strata.py:412-551 | no step of a lock holder removes somebody else's entry unless its job is terminal |
| `LeaseProtocol.EntriesOfOthersStay` | src/hybrid_sdlc/runtime_strata.py:738-774 | an entry disappears only by its owner's step, for a terminal job, or by an operator |
| `LeaseProtocol.DroppedJobIsTerminal` | src/hybrid_sdlc/runtime_strata.py:738-774 | a job whose lease goes away without another entry taking its place is terminal on record then and in every later state, which makes the unlocked read sound |
| `LeaseProtocol.FinishedStaysFinished` | src/hybrid_sdlc/job_manager.py:44-51 | a terminal job keeps its status in every later state, under unlocked moves of all jobs |
| `LeaseProtocol.FailureLeavesOrphan` | src/hybrid_sdlc/runtime_strata.py:861-870 | a lifecycle command that fails, or whose process dies after the sentinel, leaves a sentinel nobody clears |
| `LeaseProtocol.OrphanStays` | src/hybrid_sdlc/runtime_strata.py:789-816 | such a sentinel survives every step but an operator's, and no job is reserved or created meanwhile |
| `LeaseProtocol.FailClosed` | src/hybrid_sdlc/runtime_strata.py:789-875 | from then on, without an operator, no task body, readiness request or lifecycle command runs and no job is reserved, in any continuation |
| `LeaseProtocol.JudgingIsReconciling` | src/hybrid_sdlc/runtime_strata.py:738-774 | the stepwise loop of the protocol computes the reconciled list of `Leases`, or leaves where that refuses |
| `LeaseProtocol.ReservingInOneGo` | src/hybrid_sdlc/runtime_strata.py:448-510 | the protocol's reservation steps without interruption have the effect that `Leases.ActivityRegistry.ReserveAsync` states |
| `LeaseProtocol.TaskInOneGo` | src/hybrid_sdlc/runtime_strata.py:394-418 | a task appends its entry and later takes exactly that out of whatever the list then is |
| `LeaseProtocol.ReleaseInOneGo` | src/hybrid_sdlc/runtime_strata.py:513-551 | a release takes the job's lease exactly if its record can be read and is terminal |
| `LeaseProtocol.CheckInOneGo` | src/hybrid_sdlc/runtime_strata.py:738-816 | a check that found nothing lets a readiness request go out, or a lifecycle command get ready |
| `LeaseProtocol.CommandStarts` | src/hybrid_sdlc/runtime_strata.py:818-861 | from there a lifecycle command is started behind its sentinel |
| `LeaseProtocol.CommandReturns` | src/hybrid_sdlc/runtime_strata.py:861-875 | the sentinel goes exactly if the command returns cleanly |
| `LeaseProtocol.RepairCovers` | src/hybrid_sdlc/runtime_strata.py:470-510 | what a failed creation leaves: no lease without a record or for an ended job, and cover otherwise |
| `LeaseProtocol.RaisingInOneGo` | src/hybrid_sdlc/runtime_strata.py:474-478 | a creation that raises has written its record or not; its entry stays until the repair, which leaves what `LeaseProtocol.RepairCovers` states |
| `LeaseProtocol.AdmittedIff` | src/hybrid_sdlc/runtime_strata.py:394-551 | who is admitted under the lock: without a sentinel tasks, reservations and lifecycle commands, a readiness request always |
| `LeaseProtocol.HoldersFinish` | src/hybrid_sdlc/runtime_strata.py:394-875 | every step of a lock holder brings it closer to the release |
| `LeaseProtocol.HoldersGoOn` | src/hybrid_sdlc/runtime_strata.py:394-875 | until then there is such a step, whatever the holder meets |
| `LeaseProtocol.OutsideMoves` | src/hybrid_sdlc/runtime_strata.py:394-875 | what may happen beside the holder, and what it changes |
| `LeaseProtocol.AbandonedCounts` | src/hybrid_sdlc/runtime_strata.py:422-445 | abandoned requests are counted up exactly when a client dies during its request or gives up, and down when the server ends one |
| `LeaseProtocol.CrashLeaves` | src/hybrid_sdlc/runtime_strata.py:394-551 | a crash takes the process and its lock, and leaves list, jobs and pending commands as they are |
| `LeaseProtocol.LifecycleCommandsHappen` | src/hybrid_sdlc/runtime_strata.py:818-875 | the protocol is not idle: some run reaches a Docker command |
| `LeaseProtocol.TasksHappen` | src/hybrid_sdlc/runtime_strata.py:394-511 | some run has a task body and a reserved job under way together |
| `Bridge.ReceiptForEver` | src/hybrid_sdlc/codex_bridge.py:220-223 | a receipt outlives every step, cleaning and crashes included, and is never retargeted |
| `Bridge.IntentComesFirst` | src/hybrid_sdlc/codex_bridge.py:246-266 | when the queue command starts, an intent receipt for that thread and status is durable and nothing was sent before |
| `Bridge.AtMostOnce` | src/hybrid_sdlc/codex_bridge.py:188-313 | any two starts of the queue command for one job, by any invocations and to any threads, are the same start |
| `Bridge.SentIsPersisted` | src/hybrid_sdlc/codex_bridge.py:193-204 | the status that was sent is terminal and still the persisted one |
| `Bridge.OneInFlightPerThread` | src/hybrid_sdlc/codex_bridge.py:224-233 | among live invocations at most one has a command in flight to a thread |
| `Bridge.StartIsExclusiveIff` | src/hybrid_sdlc/codex_bridge.py:224-233 | counting commands that outlived their invocation: a command that starts is the only one in flight to its thread exactly if no such command of that thread is left |
| `Bridge.OrphanOverlaps` | src/hybrid_sdlc/codex_bridge.py:309-313 | a run in which an invocation dies during its command and another job's invocation starts one for the same thread |
| `Bridge.OrphanMayOverlap` | src/hybrid_sdlc/codex_bridge.py:309-313 | wherever one command runs and another job's invocation is about to take the thread lock, a crash lets both run |
| `Bridge.DeliveryGoesThrough` | src/hybrid_sdlc/codex_bridge.py:206-313 | not idle: from whatever state, an invocation that finds its job finished, no receipt and both locks free can run its command once, unless it is interrupted before; the receipt then says how it went as far as that could be saved, and both locks are free |
| `Bridge.RefusalGoesThrough` | src/hybrid_sdlc/codex_bridge.py:206-233 | one that finds the job's lock taken, a receipt or its thread busy ends and changes nothing |
| `Bridge.IntentFailureGoesThrough` | src/hybrid_sdlc/codex_bridge.py:246-249 | one that cannot save its intent ends and changes nothing |
| `Bridge.CrashLeaves` | src/hybrid_sdlc/codex_bridge.py:309-313 | a crash frees exactly the locks of the invocation, and only a running command outlives it |
| `Bridge.BridgeStore.SaveReceipt` | src/hybrid_sdlc/codex_bridge.py:137-157 | the receipts stay exactly what replaying the durable events yields; the receipts of other jobs are untouched |
| `Bridge.RanHasReceipt` | src/hybrid_sdlc/codex_bridge.py:246-266 | in every write-ahead log, whoever ran a command has a receipt, so no later call runs one |
| `Bridge.BridgeStore.Run` | src/hybrid_sdlc/codex_bridge.py:160-313 | one invocation, and so any sequence of them: which refusal is given exactly when; otherwise the first terminal status that was read goes out after its intent, at most once a job, delivered exactly if every stage succeeded without an interrupt, and what the receipt is left at when not |
| `Bridge.BridgeStore.Deliver` | src/hybrid_sdlc/codex_bridge.py:234-308 | from the intent on: exactly which receipts are written and whether the command ran, with an interrupt before the command or after the accepted receipt included |
| `Bridge.CleanArtifacts` | src/hybrid_sdlc/artifacts.py:213-254 | deletes exactly the expired unlocked files that can be read and removed, reports the locked ones, and never loses a receipt |
| `TaskPolicy.ScopeViolations` | src/hybrid_sdlc/task_policy.py:104-116 | no violation exactly if all paths are intended and none is excluded; each offending path once with the reason that counts first |
| `TaskPolicy.SizeShowsDuplicates` | src/hybrid_sdlc/task_policy.py:231-237 | comparing the size of the set with the list finds duplicates, both directions |
| `TaskPolicy.LiteralPathMeans` | src/hybrid_sdlc/task_policy.py:130-142 | a policy path is accepted exactly if it has no control or special character and no empty or dot component |
| `TaskPolicy.PathListsMean` | src/hybrid_sdlc/task_policy.py:231-237 | the path lists are accepted exactly if they are free of duplicates, disjoint, and hold valid paths only |
| `TaskPolicy.LoadTaskScope` | src/hybrid_sdlc/task_policy.py:81-101 | the scope comes from the pinned commit's blob exactly if head, digest and path lists agree |
| `TaskPolicy.CheckLimits` | src/hybrid_sdlc/task_policy.py:240-265 | passes exactly if every set ceiling bounds a checkable effective value |
| `Git.Checkout.UpdateRef` | src/hybrid_sdlc/git_tools.py:217-226 | HEAD moves only from the expected commit |
| `Git.Checkout.Preflight` | src/hybrid_sdlc/git_tools.py:74-129 | the gates and checks before the index is touched: passed exactly if each check holds of the checkout as its command finds it, whoever interferes, and no command fails; undisturbed, exactly the first problem |
| `Git.Checkout.StageAll` | src/hybrid_sdlc/git_tools.py:128-180 | without interference the index becomes the candidate or stays; if its commands are fine, the first problem of what is staged then, whoever interferes; undisturbed, of the candidate |
| `Git.Checkout.WriteCommit` | src/hybrid_sdlc/git_tools.py:181-227 | under any outside edits a commit has the baseline as only parent and the index as it was right after it matched the files as its in-scope tree, HEAD moved from the baseline to it, and no command failed |
| `Git.Checkout.WriteTree` | src/hybrid_sdlc/git_tools.py:181-190 | the index becomes a tree exactly if the files agree with it and both commands are fine |
| `Git.Checkout.CheckTree` | src/hybrid_sdlc/git_tools.py:191-212 | with a scope the written tree is checked again, and a violation is told apart from a failing command |
| `Git.Checkout.CommitTree` | src/hybrid_sdlc/git_tools.py:213-227 | HEAD moves from the baseline to the commit of that tree, or stays |
| `Git.Checkout.AttemptCommit` | src/hybrid_sdlc/git_tools.py:128-227 | what may have to be undone: without interference the commit is made as a whole, or at most the index is staged |
| `Git.TextChecksMean` | src/hybrid_sdlc/git_tools.py:82-86 | which task identifiers and subjects pass, character by character |
| `Git.Checkout.CreateScopedCommit` | src/hybrid_sdlc/git_tools.py:59-245 | the transaction: under any outside edits HEAD stays or moves from the baseline to an in-scope child of it, and a failure after staging restores the baseline index or says that it could not; without them any failure, at any command, leaves everything as it was or says that the index may be staged, and a death or uncaught exception leaves at most the staged index or the whole commit |
| `Git.CommitHappensIff` | src/hybrid_sdlc/git_tools.py:59-245 | undisturbed, a commit comes about exactly if all gates are open, the index is the baseline's and the candidate is a change in scope without links and submodules; it stores the candidate, and a refusal changes nothing |
| `Git.Checkout.CleanAndRestore` | src/hybrid_sdlc/worktrees.py:680-696 | without interference, success means that index and files equal the baseline tree, and failure or death at any point keeps every tracked file or has done it all |
| `Git.Checkout.Clean` | src/hybrid_sdlc/worktrees.py:680 | without interference nothing tracked goes, and on success nothing untracked is left |
| `Git.Checkout.RestoreFiles` | src/hybrid_sdlc/worktrees.py:681-696 | success leaves index and tracked files as the baseline has them, whoever interfered before |
| `Git.Checkout.Rollback` | src/hybrid_sdlc/worktrees.py:624-701 | moves HEAD at most once, to the baseline; whatever commands fail, success leaves HEAD, index and files at the baseline, and failure or death loses nothing tracked; undisturbed, it succeeds exactly on a detached checkout without submodules and otherwise changes nothing |
| `Sequences.PerformAll` | src/hybrid_sdlc/worktrees.py:601-701 | any list of edits, commits, exports and rollbacks performed on a checkout, at any command of which a failure or a death may occur, goes through a history in the sense of the next rows |
| `Sequences.HistorySettles` | src/hybrid_sdlc/worktrees.py:601-701 | in every such history HEAD stays at the baseline or at a direct child of it |
| `Sequences.RollbackBetweenCommits` | src/hybrid_sdlc/git_tools.py:112-124 | between any two commits of a history, those whose caller died included, lies a rollback that got through, however many did not |
| `Sequences.OnlyRollbackUnblocks` | src/hybrid_sdlc/git_tools.py:112-124 | once HEAD is off the baseline or a failure or death has left the index staged, no commit comes about before a rollback gets through |
| `Sequences.HeadHasAuthor` | src/hybrid_sdlc/git_tools.py:191-226 | a HEAD off the baseline is the commit of an entry of the history and in scope for its request |
| `Sequences.RollbackRecovers` | src/hybrid_sdlc/worktrees.py:332-335 | a rollback that gets through anywhere in a history yields the baseline in full and unblocks commits, whatever failed before it |
| `Export.DiffApplies` | src/hybrid_sdlc/worktrees.py:496-508 | a list of true disjoint hunks covering all differences applies to its source tree and yields its target |
| `Export.DiffAppliesIff` | src/hybrid_sdlc/worktrees.py:496-508 | a diff applies to exactly those trees that agree with its source wherever it touches them, and changes them into its target there and nowhere else |
| `Export.ExportResult` | src/hybrid_sdlc/worktrees.py:433-588 | the loop yields the tracked diff followed by one creation per untracked file, exactly if the checkout qualifies |
| `Export.ExportReproducesCandidate` | src/hybrid_sdlc/worktrees.py:496-570 | round trip: the exported patch applied to the baseline yields the tracked and the untracked, not ignored content |
| `Export.ReportIsComplete` | src/hybrid_sdlc/worktrees.py:557-563 | the reported paths are the differing ones, both sides of renames included, plus exactly the files dropped from the index in place |
| `Export.FreshCheckoutAgrees` | src/hybrid_sdlc/review.py:442-455 | applying the patch in another checkout and exporting again gives the same content change |
| `Export.CommitMatchesExport` | src/hybrid_sdlc/git_tools.py:131-226 | the committed tree is what an export of the same checkout reproduces |
| `Removal.FileSystem.IsSafe` | src/hybrid_sdlc/worktrees.py:316-329 | accepts exactly paths below the checkout that no symbolic link leads through |
| `Removal.FileSystem.UnlinkLeaf` | src/hybrid_sdlc/worktrees.py:301-313 | removes exactly that entry, never what a link points to; it succeeds exactly on a path that no link leads through and whose removal is not denied |
| `Removal.FileSystem.RemoveTree` | src/hybrid_sdlc/worktrees.py:281-298 | the recursion ends, removes nothing outside the directory whatever its links point to, and succeeds exactly if all of it is gone |
| `Removal.FileSystem.RemoveCandidates` | src/hybrid_sdlc/worktrees.py:246-262 | only entries at or below a candidate disappear, on success none is left and no link leads through any, and link-free candidates below which nothing is denied give success |
| `Removal.FileSystem.SweepEmpty` | src/hybrid_sdlc/worktrees.py:264-278 | afterwards no empty directory is left but those whose removal is denied and `.git`; nothing but such directories disappears |
| `Removal.FileSystem.RemoveUntracked` | src/hybrid_sdlc/worktrees.py:214-278 | both in turn, with the same guarantees |
| `Worktree.RemoveUntrackedFiles` | src/hybrid_sdlc/worktrees.py:214-278 | laid out on disk and removed entry by entry, exactly the untracked paths go; tracked ones stay even if the removal stops part way |
| `Worktree.LayoutIsWellFormed` | src/hybrid_sdlc/worktrees.py:316-329 | a tree without path conflicts lies on disk with directories, and no links, above every path |
| `Review.AcceptedWasVerified` | src/hybrid_sdlc/review.py:180-413 | after any history of recordings, crashes, input changes and evidence losses, what reads as accepted was verified by one of its recordings, every stage passed, on exactly this run record, patch, head and named profile |
| `Review.RecordHasAuthor` | src/hybrid_sdlc/review.py:313-335 | whatever record is on file was written by a recording of the history, for the inputs that it saw |
| `Review.RevisionCountsWrites` | src/hybrid_sdlc/review.py:252-335 | the revision is the number of record writes, crashed ones included |
| `Review.CurrentStays` | src/hybrid_sdlc/review.py:342-413 | a current status stays exactly as it is until a record is written or a bound input or the bound evidence changes |
| `Review.WrittenIsVisible` | src/hybrid_sdlc/review.py:313-335 | a record just written is read as current, with its judgment and the next revision, while the inputs that it checked are bound alike |
| `Review.FailureKeepsStatus` | src/hybrid_sdlc/review.py:246-312 | a failure, or a crash before the record is written, changes no status for any inputs |
| `Review.AcceptanceBindsInputs` | src/hybrid_sdlc/review.py:370-402 | two input sets share an acceptance exactly if run, patch, head and the named profile are equal |
| `Review.CurrentIff` | src/hybrid_sdlc/review.py:342-413 | exactly when a stored review counts for given inputs, field by field, and what is read then |
| `Review.AcceptanceHappens` | src/hybrid_sdlc/review.py:180-339 | some recording is read back as accepted |
| `Review.VerifyCandidate` | src/hybrid_sdlc/review.py:416-531 | the evidence passes exactly if every stage passed, its fields say which stages were reached and how the test ended, and the exception handler never completes a verification |
| `Review.ReviewStore.RecordReview` | src/hybrid_sdlc/review.py:180-339 | a record is written exactly if request, final check and crash point allow it; then it carries the next revision, its reviewer, the run's model and how the two are related, the judgment earned and the inputs seen, and it reads as current for the inputs checked; otherwise the review stays, only evidence of the next revision may differ, and each refusal is given exactly for its own reason |
| `BoundedLoop.RunAttempts` | src/hybrid_sdlc/aider_runner.py:459-706 | the loop with its local variables equals a fold over the trace of edit, diff and test outcomes |
| `BoundedLoop.FoldIsWellBehaved` | src/hybrid_sdlc/aider_runner.py:536-706 | at most the allowed attempts, success exactly without a failure and exactly if the last attempt passed, exhaustion exactly when every attempt was used and failed |
| `BoundedLoop.FoldProgresses` | src/hybrid_sdlc/aider_runner.py:618-686 | adjacent attempts differ in diff, and in failure signature except where the run ends as stuck |
| `BoundedLoop.FirstStopDecides` | src/hybrid_sdlc/aider_runner.py:536-706 | the first attempt that does not fail with something new decides the run, each way to end exactly for its own reason; the attempts before it are on record as failed; if there is none, the retries are exhausted |
| `ScopedRun.ExportPaths` | src/hybrid_sdlc/worktrees.py:450-563 | without interference, the reported paths exactly of a checkout that qualifies for export while no command fails |
| `ScopedRun.FirstCheck` | src/hybrid_sdlc/aider_runner.py:964-971 | the first export and its scope check: a violation is a failed draft, not a lost one |
| `ScopedRun.CommitDraft` | src/hybrid_sdlc/aider_runner.py:973-989 | the commit of a draft: a commit is kept, a late scope violation becomes a failure whose candidate is exported again, any other error loses the result |
| `ScopedRun.FinishRun` | src/hybrid_sdlc/aider_runner.py:964-1003 | success has every exported path in scope; a reported commit names an in-scope tree on the baseline and took a passing last attempt; a failed run keeps a commit only for a late scope violation, and only if somebody interfered; without interference the export is what the checkout holds, or the rollback reached the baseline; undisturbed, there is a result exactly if the checkout can be exported and a due commit is possible, and then exactly the commit, status, export and checkout that follow from the state before |
| `ScopedRun.DraftRun` | src/hybrid_sdlc/aider_runner.py:964-989 | up to the commit: an export of the committed checkout reports exactly the paths of the commit if nobody interferes; undisturbed, exactly when there is a draft and what it holds |
| `ScopedRun.ConcludeRun` | src/hybrid_sdlc/aider_runner.py:990-1003 | from the commit on: the late check fails exactly if what the checkout held when it began is out of scope; undisturbed, only a checkout that cannot be exported or reset loses the result |
| `ScopedRun.LateEditFailsTheRun` | src/hybrid_sdlc/aider_runner.py:990-1003 | one edit from outside between the commit and the last export ends in a failed run that names its commit |
| `ScopedRun.PolicyRun` | src/hybrid_sdlc/aider_runner.py:882-1003 | from the pinned policy to the end: what a successful run exports, and the tree of any commit it names, lies within the intended list of the pinned policy, wherever the files were edited to; undisturbed, there is a result exactly if the policy loads and the run has one under its scope |
| `Capture.CaptureBounds` | src/hybrid_sdlc/processes.py:630-661 | under every interleaving of unsynchronised counter reads each captured stream is a prefix within the cap, both together exceed the cap by at most one chunk of 4096 bytes (or the cap, if smaller), truncation is marked exactly on loss, and loss means that the streams exceed the cap and that at least the cap was kept |
| `Capture.ReadersFinish` | src/hybrid_sdlc/processes.py:638-659 | every step brings a reader closer to its end, and until then there is one that it can take |
| `Capture.CapPlusChunkIsReached` | src/hybrid_sdlc/processes.py:638-659 | the bound on both together is attained for every cap and all contents |
| `Capture.GrowsAtMostThreefold` | src/hybrid_sdlc/processes.py:725-726 | decoding with replacement and encoding again at most triples the size |
| `Capture.ThreefoldIsReached` | src/hybrid_sdlc/processes.py:725-726 | the factor three is attained |
| `Capture.TextSurvives` | src/hybrid_sdlc/processes.py:725-726 | well-formed UTF-8 comes back byte for byte |
| `Capture.UnitOfCharacter` | src/hybrid_sdlc/processes.py:725-726 | the encoding of any character is recognised as one unit in front of anything |
| `Capture.CharacterOfUnit` | src/hybrid_sdlc/processes.py:725-726 | and nothing else is |
| `Capture.TimeoutCountsFit` | src/hybrid_sdlc/timeout_diagnostics.py:60-70 | with any configurable cap the byte counts of a timeout record are within their limits |
| `Manifest.JsonValuesEqual` | src/hybrid_sdlc/benchmark_manifest.py:77-94 | the worklist ends and answers true exactly if both values mean the same, whatever the order of keys, and hold no NaN |
| `Manifest.AgreeIsEquivalence` | src/hybrid_sdlc/benchmark_manifest.py:77-94 | the relation is symmetric and transitive, and reflexive exactly on values without NaN |
| `Manifest.FieldsAgree` | src/hybrid_sdlc/benchmark_manifest.py:84-87 | two objects agree exactly if their keys are the same and the values under each key agree |
| `Manifest.ItemsAgree` | src/hybrid_sdlc/benchmark_manifest.py:88-91 | two lists agree exactly if they are equally long and agree item by item |
| `Manifest.ValidateSettings` | src/hybrid_sdlc/benchmark_manifest.py:97-129 | settings are accepted exactly if all required ones are valid, and the copy that is compared means the same as the original |
| `Manifest.MembersMean` | src/hybrid_sdlc/benchmark_manifest.py:19-49 | what the checks of single members accept, character by character |
| `Manifest.SettingReportsMean` | src/hybrid_sdlc/benchmark_manifest.py:105-123 | exactly the missing and the bad settings are reported, each as what it is |
| `Manifest.CheckPins` | src/hybrid_sdlc/benchmark_manifest.py:252-278 | no error exactly if revision, argument lists and the variant's identity are valid; the revision is kept in lower case exactly if it is one |
| `Manifest.PinReportsMean` | src/hybrid_sdlc/benchmark_manifest.py:252-278 | exactly the bad pins are reported |
| `Manifest.ImageDigestMeans` | src/hybrid_sdlc/benchmark_manifest.py:272-278 | an image digest is the prefix and 64 hexadecimal digits |
| `Manifest.CheckSettings` | src/hybrid_sdlc/benchmark_manifest.py:279-298 | no error exactly if both settings are valid and agree; the effective ones are kept exactly if they are valid |
| `Manifest.RequestedReportedIff` | src/hybrid_sdlc/benchmark_manifest.py:279-298 | requested and effective settings are reported to differ exactly if both are valid and do not agree |
| `Manifest.CheckVariants` | src/hybrid_sdlc/benchmark_manifest.py:239-309 | nothing is reported exactly if both variants are valid, run with the same settings and name the same revision: without a report both revisions agree character by character up to ASCII case, and valid revisions are reported to differ exactly if they do not |
| `Manifest.DifferencesReportedIff` | src/hybrid_sdlc/benchmark_manifest.py:300-309 | settings and revisions that are valid on both sides are reported exactly if they differ |
| `Text.LowerForgetsCase` | src/hybrid_sdlc/benchmark_manifest.py:256 | comparing in lower case tells apart exactly what differs by more than ASCII case |
| `Manifest.ComparableSettingsAgree` | src/hybrid_sdlc/benchmark_manifest.py:279-304 | then all four settings objects agree pairwise |

## Left out

Assumptions the theorems rest on:

- Lock files give mutual exclusion and are freed when their holder exits; replacing a file is atomic and durable.
- Digests do not collide; a digest is represented by what was digested, and a commit by its content.
- Random job, lease and token identifiers are fresh; a job identifier is unique over all repositories. The pair of PID and start instant never comes back.
- Liveness probes may answer unknown but do not lie about start tokens; for workers without a token, recorded and probed creation times are off by at most half the smaller tolerance.
- An operator clears a lifecycle entry only while no process holds the activity lock, and with that declares the Docker command settled.
- The managed runtime is configured before any task starts, and its identity does not change.
- The clock values that a run reads are arbitrary integers; the status theorems need no order between them.

Not modelled:

- Docker, Git, Aider, Codex and HTTP themselves: they are oracles, or maps of paths to contents. `git diff` is any list of true, disjoint hunks that covers all differences; hunk text, binary encoding and file modes are not represented.
- Windows job objects, process probing through procfs or `ps`, and signal delivery: only the answer alive, dead or unknown matters.
- CLI, MCP server, progress output, packaging, host setup, Compose rendering, configuration files and their validation.
- Secret redaction, which is the identity on the modelled fields; URL classification, so every request goes to the managed endpoint; label syntax of reviews; the job identifier format check.
- Expiry of job and review records by `clean_artifacts`: the job and review theorems hold while the record exists. Only the receipt exemption of the cleaner is modelled.
- Polling of `status`, `list_jobs`, `recover_running_jobs` and the wait deadline of the bridge, which add no write. The bridge's argument checks before the first record read are left out too.
- Preflight of a submission, environment construction, and the Docker ownership, volume and image checks before a lifecycle command, which are one yes-or-no answer.
- The identity checks of a checkout (device and inode numbers, registration, storage path) inside commit, rollback and export; and the snapshot reader for untracked files.
- Outside changes to the file system while untracked entries are being removed; they happen before and after, so the path checks repeated in between pass. A restore that would make a path a file and a directory at once fails.
- Git commands that only read between two modelled ones are part of these, so the numbers of commands in contracts are the model's.
- A Git command that reports failure after it has taken effect; a process that dies after the effect is modelled.
- Policy parsing, the checks of a policy against the task (`validate_task_policy` apart from its limits), and the checks that Git's own listings contain no unsafe paths.
- The parts of `validate_manifest` before the variants (shared settings, fixture, model pin): single-field checks with no relation between them. Error texts are constructors, and settings beyond the required ones are copied in the order of the object, not sorted.
- Case folding and lower case outside ASCII. A float is its real value, so rounding plays no part in JSON equality.
- The contents of prompts, the per-attempt feedback text, the extraction of failure signatures and the durations in run records.
- Timeout of a thread join in the capture: the bounds hold for whatever has been collected at any moment.

Contracts that are weaker than one might expect:

- Git.Checkout.CreateScopedCommit: under outside interference the restored index is promised only at the moment of restoring, because an outsider may rewrite it right after.
- ScopedRun.FinishRun: with outside interference the exported set is what the last export saw; only without it the contract says that the checkout still holds it.
