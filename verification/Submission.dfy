/**
 The startup handshake between a submitter, the detached worker that it launches, a
 canceller and a recoverer, all writing one job record. Each locked mutation is one step
 here; JobProtocol.ChangeIsOneMutation is what justifies that.
*/
module Submission {
  import opened Runs
  import opened Wrappers
  import opened Jobs
  import opened JobManagement

  /** Persisted evidence that some worker claimed the job. */
  predicate WorkerClaimed(r: JobRecord) {
    r.worker.Some? && r.startedAt.Some?
  }

  predicate StartupSucceeded(r: JobRecord) {
    WorkerClaimed(r) && r.failureReason != Some(LAUNCH_FAILURE)
  }

  const FAIL_LAUNCH := MoveTo(Failed, Some(LAUNCH_FAILURE), None, None)

  /** Despite its name this fails a running job as well: that edge is legal too. */
  method FailIfQueued(manager: JobManager, id: string, now: int) returns (r: Result<JobRecord, JobError>)
    modifies manager
    ensures var found := Lookup(old(manager.records), id);
            found.Ok? ==>
              && r.Ok? && Terminal(r.value.status) && id in manager.records && r.value == manager.records[id]
              && (Terminal(found.value.status) ==> r.value == found.value)
              && (!Terminal(found.value.status) && !found.value.cancellationRequested ==>
                    r.value.status.Failed? && r.value.failureReason == Some(LAUNCH_FAILURE))
              && (!Terminal(found.value.status) && found.value.cancellationRequested ==> r.value.status.Cancelled?)
              && r.value.worker == found.value.worker
    ensures Lookup(old(manager.records), id).Err? ==>
              r == Lookup(old(manager.records), id) && manager.records == old(manager.records)
    ensures forall other :: other != id ==> (other in manager.records <==> other in old(manager.records))
    ensures forall other :: other != id && other in manager.records ==>
              manager.records[other] == old(manager.records[other])
  {
    r := manager.Transition(id, Failed, Some(LAUNCH_FAILURE), None, None, now);
    if r == Err(InvalidTransition) {
      r := manager.Get(id);
    }
  }

  datatype Poll = Claimed(record: JobRecord) | Lost(record: JobRecord) | ChildGone | DeadlinePassed

  /** The poll loop: what it makes of the records and exit codes that it observes, one per tick. */
  method PollStartup(observed: seq<JobRecord>, exited: seq<bool>) returns (outcome: Poll, seen: nat)
    requires |observed| == |exited|
    ensures seen <= |observed|
    ensures forall k :: 0 <= k < seen ==> observed[k].status.Queued? && !exited[k]
    ensures outcome.DeadlinePassed? <==> seen == |observed|
    ensures seen < |observed| ==>
      && (outcome.ChildGone? ==> observed[seen].status.Queued? && exited[seen])
      && (outcome.Claimed? || outcome.Lost? ==> outcome.record == observed[seen] && !observed[seen].status.Queued?)
      && (observed[seen].status.Queued? ==> outcome.ChildGone?)
      && (!observed[seen].status.Queued? ==>
            (outcome.Claimed? <==>
              && observed[seen].worker.Some? && observed[seen].startedAt.Some?
              && observed[seen].failureReason != Some("launch_failure")))
      && (outcome.Lost? ==> !StartupSucceeded(observed[seen]))
  {
    seen := 0;
    while seen < |observed|
      invariant 0 <= seen <= |observed|
      invariant forall k :: 0 <= k < seen ==> observed[k].status.Queued? && !exited[k]
    {
      var current := observed[seen];
      if !current.status.Queued? {
        if StartupSucceeded(current) {
          return Claimed(current), seen;
        }
        return Lost(current), seen;
      }
      if exited[seen] {
        return ChildGone, seen;
      }
      seen := seen + 1;
    }
    return DeadlinePassed, seen;
  }

  // ----- the handshake as a transition system -----

  datatype SubPc =
    | Launching
    | Polling
    | Failing(timedOut: bool)
    | Rereading(timedOut: bool)
    | Judging(timedOut: bool, final: JobRecord)
    | Stopping
    | Returned(record: JobRecord)
    | Raised

  datatype WorkerPc = NotLaunched | Starting | Working | Gone

  /** claimed, forced and workerFailed are history: see Promise. */
  datatype Sys = Sys(
    file: JobRecord,
    submitter: SubPc,
    worker: WorkerPc,
    self: Worker,
    killed: bool,
    claimed: bool,
    forced: bool,
    workerFailed: bool)

  datatype Step =
    | Launch
    | LaunchFails
    | Observe
    | SeeExit
    | PassDeadline
    | FailQueued(now: int)
    | Reread
    | Decide
    | Kill
    | WorkerClaims(now: int)
    | WorkerWrites(m: Mutation, now: int)
    | WorkerEnds
    | CancelJob(now: int)
    | RecoverJob(snapshot: JobRecord, cause: Cause, now: int)

  ghost predicate Init(s: Sys) {
    && s.file.status.Queued? && Loadable(s.file) && s.file.worker.None? && s.file.startedAt.None?
    && !s.file.cancellationRequested
    && s.submitter.Launching? && s.worker.NotLaunched? && s.self.pid > 0
    && !s.killed && !s.claimed && !s.forced && !s.workerFailed
  }

  /** Everything a worker that holds the claim writes: heartbeats, its child, and its own end. */
  predicate WorkerMutation(m: Mutation) {
    m.Beat? || (m.NoteChild? && !WritesBadChild(m)) || (m.MoveTo? && Terminal(m.status))
  }

  ghost predicate Enabled(s: Sys, step: Step) {
    match step
    case Launch => s.submitter.Launching?
    case LaunchFails => s.submitter.Launching?
    case Observe => s.submitter.Polling?
    case SeeExit => s.submitter.Polling? && s.worker.Gone?
    case PassDeadline => s.submitter.Polling?
    case FailQueued(_) => s.submitter.Failing?
    case Reread => s.submitter.Rereading?
    case Decide => s.submitter.Judging?
    case Kill => s.submitter.Stopping?
    case WorkerClaims(_) => s.worker.Starting?
    case WorkerWrites(m, _) => s.worker.Working? && WorkerMutation(m)
    case WorkerEnds => s.worker.Starting? || s.worker.Working?
    case CancelJob(_) => true
    case RecoverJob(_, _, _) => s.file.worker.Some? ==> s.worker.Gone?
  }

  function Written(c: JobRecord, m: Mutation, now: int): JobRecord {
    if Apply(m, c, now).Saved? then Apply(m, c, now).record else c
  }

  ghost function Do(s: Sys, step: Step): Sys
    requires Enabled(s, step)
  {
    match step
    case Launch => s.(submitter := Polling, worker := Starting)
    case LaunchFails => s.(submitter := Failing(false))
    case Observe =>
      if s.file.status.Queued? then s
      else s.(submitter := if StartupSucceeded(s.file) then Returned(s.file) else Raised)
    // The record was still queued when it was read, which may be a while ago.
    case SeeExit => s.(submitter := Failing(false))
    case PassDeadline => s.(submitter := Failing(true))
    case FailQueued(now) =>
      var verdict := Apply(FAIL_LAUNCH, s.file, now);
      if verdict.Saved? then
        s.(file := verdict.record, submitter := Judging(s.submitter.timedOut, verdict.record),
           forced := s.file.status.Running? && !s.file.cancellationRequested)
      else s.(submitter := Rereading(s.submitter.timedOut))
    case Reread => s.(submitter := Judging(s.submitter.timedOut, s.file))
    case Decide =>
      var final := s.submitter.final;
      if StartupSucceeded(final) then s.(submitter := Returned(final))
      else if s.submitter.timedOut && final.status.Failed? && final.worker.None? then s.(submitter := Stopping)
      else s.(submitter := Raised)
    case Kill => s.(submitter := Raised, killed := true,
                    worker := if s.worker.NotLaunched? then NotLaunched else Gone)
    case WorkerClaims(now) =>
      var verdict := Apply(ClaimBy(s.self), s.file, now);
      if verdict.Saved? then s.(file := verdict.record, worker := Working, claimed := true)
      else s.(worker := Gone)
    case WorkerWrites(m, now) =>
      var next := Written(s.file, m, now);
      s.(file := next,
         worker := if m.MoveTo? then Gone else s.worker,
         workerFailed := s.workerFailed || (next != s.file && m.MoveTo? && next.failureReason == Some(LAUNCH_FAILURE)))
    case WorkerEnds => s.(worker := Gone)
    case CancelJob(now) => s.(file := Written(s.file, RequestCancel, now))
    case RecoverJob(snapshot, cause, now) => s.(file := Written(s.file, FailAbandoned(snapshot, cause), now))
  }

  ghost predicate Next(s: Sys, t: Sys) {
    exists step :: Enabled(s, step) && t == Do(s, step)
  }

  ghost predicate Behavior(run: seq<Sys>) {
    IsRun(run, Init, Next)
  }

  ghost predicate FileInv(s: Sys) {
    && Loadable(s.file) && s.self.pid > 0
    && (s.claimed <==> s.file.worker.Some?)
    && (s.claimed ==> s.file.startedAt.Some? && !s.file.status.Queued?)
    && (!s.claimed && !s.file.status.Queued? ==> Terminal(s.file.status))
    && (s.worker.Working? ==> s.claimed)
    && (s.forced || s.workerFailed ==>
          s.claimed && s.file.status.Failed? && s.file.failureReason == Some(LAUNCH_FAILURE))
    && !(s.forced && s.workerFailed)
    && (s.claimed && s.file.failureReason == Some(LAUNCH_FAILURE) ==> s.forced || s.workerFailed)
  }

  ghost predicate SubmitterInv(s: Sys) {
    && (s.submitter.Launching? || s.submitter.Polling? || s.submitter.Failing? ==> !s.forced)
    && (s.submitter.Rereading? ==> Terminal(s.file.status))
    && (s.submitter.Judging? ==> s.submitter.final == s.file && Terminal(s.file.status))
    && (s.submitter.Stopping? || s.killed ==> !s.claimed && Terminal(s.file.status))
    && (s.submitter.Raised? ==> Terminal(s.file.status) && !StartupSucceeded(s.file))
    && (s.submitter.Returned? ==>
          s.claimed && StartupSucceeded(s.submitter.record) && s.submitter.record.worker == s.file.worker)
  }

  ghost predicate Inv(s: Sys) {
    FileInv(s) && SubmitterInv(s)
  }

  /** One write by anybody but the submitter, with the facts about it that the invariant needs. */
  lemma OthersKeepInv(s: Sys, m: Mutation, now: int)
    requires FileInv(s) && !m.ClaimBy? && !WritesBadChild(m) && !(m.MoveTo? && !Terminal(m.status))
    ensures var next := Written(s.file, m, now);
            && Loadable(next) && next.worker == s.file.worker && (Terminal(s.file.status) ==> next == s.file)
            && (s.file.startedAt.Some? ==> next.startedAt == s.file.startedAt)
            && (next != s.file && next.failureReason == Some(LAUNCH_FAILURE) ==> m.MoveTo?)
  {
    if Apply(m, s.file, now).Saved? {
      SavedIsLoadableIff(m, s.file, now);
      ApplyFollowsEdges(m, s.file, now);
      ApplyFrame(m, s.file, now);
    }
  }

  lemma StepKeepsInv(s: Sys, step: Step)
    requires Inv(s) && Enabled(s, step)
    ensures Inv(Do(s, step))
  {
    match step
    case WorkerWrites(m, now) => OthersKeepInv(s, m, now);
    case CancelJob(now) => OthersKeepInv(s, RequestCancel, now);
    case RecoverJob(snapshot, cause, now) => OthersKeepInv(s, FailAbandoned(snapshot, cause), now);
    case FailQueued(now) => OthersKeepInv(s, FAIL_LAUNCH, now);
    case _ =>
  }

  lemma NextKeepsInv(s: Sys, t: Sys)
    requires Inv(s) && Next(s, t)
    ensures Inv(t)
  {
    var step :| Enabled(s, step) && t == Do(s, step);
    StepKeepsInv(s, step);
  }

  lemma Reachable(run: seq<Sys>, i: nat)
    requires Behavior(run) && i < |run|
    ensures Inv(run[i])
  {
    forall s, t | Inv(s) && Next(s, t) ensures Inv(t) {
      NextKeepsInv(s, t);
    }
    Keeps(run, Init, Next, Inv, i);
  }

  lemma DecidedStepStays(s: Sys, step: Step)
    requires Inv(s) && Enabled(s, step) && Terminal(s.file.status)
    ensures var t := Do(s, step);
            t.file == s.file && t.claimed == s.claimed && t.forced == s.forced && t.workerFailed == s.workerFailed
  {
    match step
    case WorkerWrites(m, now) => OthersKeepInv(s, m, now);
    case CancelJob(now) => OthersKeepInv(s, RequestCancel, now);
    case RecoverJob(snapshot, cause, now) => OthersKeepInv(s, FailAbandoned(snapshot, cause), now);
    case _ =>
  }

  lemma TerminalNext(run: seq<Sys>, i: nat)
    requires Behavior(run) && i + 1 < |run| && Terminal(run[i].file.status)
    ensures run[i + 1].file == run[i].file && run[i + 1].claimed == run[i].claimed
    ensures run[i + 1].forced == run[i].forced && run[i + 1].workerFailed == run[i].workerFailed
  {
    Reachable(run, i);
    assert Follows(run, Next, i);
    var step :| Enabled(run[i], step) && run[i + 1] == Do(run[i], step);
    DecidedStepStays(run[i], step);
  }

  /** Once the job is terminal, who claimed and who failed it is settled for the rest of the run. */
  lemma {:induction false} TerminalSettles(run: seq<Sys>, i: nat, j: nat)
    requires Behavior(run) && i <= j < |run| && Terminal(run[i].file.status)
    ensures run[j].file == run[i].file && run[j].claimed == run[i].claimed
    ensures run[j].forced == run[i].forced && run[j].workerFailed == run[i].workerFailed
  {
    if i == j {
    } else {
      TerminalSettles(run, i, j - 1);
      TerminalNext(run, j - 1);
    }
  }

  // ----- what the handshake guarantees -----

  /** submit_job returns only a record that the launched worker claimed. */
  lemma ReturnedIsClaimed(run: seq<Sys>, i: nat)
    requires Behavior(run) && i < |run| && run[i].submitter.Returned?
    ensures run[i].claimed && WorkerClaimed(run[i].submitter.record)
    ensures run[i].submitter.record.worker == run[i].file.worker
    ensures run[i].submitter.record.failureReason != Some("launch_failure")
  {
    Reachable(run, i);
  }

  /** The kill reaches only a worker that has not claimed, and that never will. */
  lemma KillSparesClaimants(run: seq<Sys>, i: nat, j: nat)
    requires Behavior(run) && i <= j < |run| && (run[i].killed || run[i].submitter.Stopping?)
    ensures !run[j].claimed
  {
    Reachable(run, i);
    TerminalSettles(run, i, j);
  }

  /** What the error is meant to say: nobody claims, or the claimant itself reported a launch failure. */
  ghost predicate Promise(s: Sys) {
    !s.claimed || s.workerFailed
  }

  /** The submitter's failing write lands on a running job that nobody asked to cancel. */
  ghost predicate Overwrites(s: Sys, t: Sys) {
    s.submitter.Failing? && t.submitter.Judging? && s.file.status.Running? && !s.file.cancellationRequested
  }

  lemma ForcedStep(s: Sys, t: Sys)
    requires Inv(s) && Next(s, t)
    ensures t.forced <==> s.forced || Overwrites(s, t)
  {
    var step :| Enabled(s, step) && t == Do(s, step);
    if step.FailQueued? {
      assert IsReason(LAUNCH_FAILURE);
    }
  }

  ghost predicate OverwritesAt(run: seq<Sys>, k: nat)
    requires k + 1 < |run|
  {
    Overwrites(run[k], run[k + 1])
  }

  lemma ForcedNext(run: seq<Sys>, i: nat)
    requires Behavior(run) && i + 1 < |run|
    ensures run[i + 1].forced <==> run[i].forced || OverwritesAt(run, i)
  {
    Reachable(run, i);
    assert Follows(run, Next, i);
    ForcedStep(run[i], run[i + 1]);
  }

  lemma {:induction false} ForcedIffOverwrote(run: seq<Sys>, i: nat)
    requires Behavior(run) && i < |run|
    ensures run[i].forced <==> exists k :: 0 <= k < i && OverwritesAt(run, k)
  {
    if i == 0 {
    } else {
      ForcedIffOverwrote(run, i - 1);
      ForcedNext(run, i - 1);
    }
  }

  /**
   When submit_job raises, the job is terminal for good, and the meant promise holds, then and
   ever after, exactly if the submitter's own write did not land on a running, uncancelled job.
  */
  lemma RaisedPromiseIff(run: seq<Sys>, i: nat, j: nat)
    requires Behavior(run) && i <= j < |run| && run[i].submitter.Raised?
    ensures Terminal(run[j].file.status) && run[j].file == run[i].file
    ensures Promise(run[j]) <==> !exists k :: 0 <= k < i && OverwritesAt(run, k)
  {
    Reachable(run, i);
    TerminalSettles(run, i, j);
    ForcedIffOverwrote(run, i);
  }

  /** The submitter's failing write lands on a running job, whether or not cancellation was asked for. */
  ghost predicate LandsAt(run: seq<Sys>, k: nat)
    requires k + 1 < |run|
  {
    run[k].submitter.Failing? && run[k + 1].submitter.Judging? && run[k].file.status.Running?
  }

  lemma WorkingStep(s: Sys, t: Sys)
    requires Inv(s) && Next(s, t) && t.worker.Working? && Terminal(t.file.status)
    ensures (s.worker.Working? && Terminal(s.file.status))
            || (s.submitter.Failing? && t.submitter.Judging? && s.file.status.Running?)
  {
    var step :| Enabled(s, step) && t == Do(s, step);
    match step
    case WorkerWrites(m, now) =>
      if Apply(m, s.file, now).Saved? {
        ApplyFollowsEdges(m, s.file, now);
        ApplyFrame(m, s.file, now);
      }
    case _ =>
  }

  lemma WorkingNext(run: seq<Sys>, i: nat)
    requires Behavior(run) && i + 1 < |run| && run[i + 1].worker.Working? && Terminal(run[i + 1].file.status)
    ensures (run[i].worker.Working? && Terminal(run[i].file.status)) || LandsAt(run, i)
  {
    Reachable(run, i);
    assert Follows(run, Next, i);
    WorkingStep(run[i], run[i + 1]);
  }

  lemma LandedIsTerminal(run: seq<Sys>, k: nat, i: nat)
    requires Behavior(run) && k + 1 <= i < |run| && LandsAt(run, k)
    ensures Terminal(run[i].file.status)
  {
    Reachable(run, k + 1);
    TerminalSettles(run, k + 1, i);
  }

  /**
   A terminal record does not stop its worker. A worker that still works does so under a terminal record
   exactly if the submitter's failing write landed on the running job.
  */
  lemma {:induction false} WorkingUnderTerminalIff(run: seq<Sys>, i: nat)
    requires Behavior(run) && i < |run| && run[i].worker.Working?
    ensures Terminal(run[i].file.status) <==> exists k :: 0 <= k < i && LandsAt(run, k)
  {
    if k :| 0 <= k < i && LandsAt(run, k) {
      LandedIsTerminal(run, k, i);
    }
    if i == 0 {
      Reachable(run, i);
    } else if Terminal(run[i].file.status) {
      WorkingNext(run, i - 1);
      if !LandsAt(run, i - 1) {
        WorkingUnderTerminalIff(run, i - 1);
      }
    }
  }

  lemma Extended(run: seq<Sys>, step: Step) returns (longer: seq<Sys>)
    requires Behavior(run) && Enabled(run[|run| - 1], step)
    ensures Behavior(longer) && longer == run + [Do(run[|run| - 1], step)]
  {
    longer := run + [Do(run[|run| - 1], step)];
    Runs.Extended(run, Init, Next, Do(run[|run| - 1], step));
  }

  /** Heartbeats, ends, cancellations and recoveries reach the file; only its own end makes a worker stop. */
  lemma WritesReachTheFile(s: Sys, m: Mutation, now: int)
    ensures var next := match Apply(m, s.file, now) case Saved(r) => r case _ => s.file;
            && (Enabled(s, WorkerWrites(m, now)) ==>
                  var t := Do(s, WorkerWrites(m, now));
                  t.file == next && t.worker == if m.MoveTo? then Gone else Working)
            && (s.worker.Working? && m.Beat? ==> Enabled(s, WorkerWrites(m, now)))
            && (s.worker.Working? && m.MoveTo? && Terminal(m.status) ==> Enabled(s, WorkerWrites(m, now)))
            && (m.RequestCancel? ==> Do(s, CancelJob(now)) == s.(file := next))
            && (m.FailAbandoned? && s.worker.Gone? ==> Enabled(s, RecoverJob(m.snapshot, m.cause, now)))
            && (m.FailAbandoned? && Enabled(s, RecoverJob(m.snapshot, m.cause, now)) ==>
                  Do(s, RecoverJob(m.snapshot, m.cause, now)) == s.(file := next))
    // A submitter whose write was refused judges the record that it reads then.
    ensures s.submitter.Rereading? ==>
              && Enabled(s, Reread)
              && Do(s, Reread) == s.(submitter := Judging(s.submitter.timedOut, s.file))
  {
  }

  /** Unhindered, a worker that claims in time has its job returned as running. */
  lemma HandshakeSucceeds(s: Sys, now: int) returns (run: seq<Sys>)
    requires Init(s)
    ensures Behavior(run) && run[0] == s
    ensures var last := run[|run| - 1];
            && last.submitter == Returned(last.file) && last.worker.Working?
            && last.file.status.Running? && last.file.worker == Some(s.self)
  {
    run := [s];
    run := Extended(run, Launch);
    run := Extended(run, WorkerClaims(now));
    run := Extended(run, Observe);
  }

  /**
   Without a claim the job is failed as not launched and the error is raised, whether the launch fails, the
   child exits or the deadline passes; after the deadline, and only then, the child is killed.
  */
  lemma HandshakeFails(s: Sys, cause: Step, now: int) returns (run: seq<Sys>)
    requires Init(s) && cause in {LaunchFails, SeeExit, PassDeadline}
    ensures Behavior(run) && run[0] == s
    ensures var last := run[|run| - 1];
            && last.submitter.Raised? && !last.claimed && !last.worker.Working? && !last.worker.Starting?
            && last.file.status.Failed? && last.file.failureReason == Some("launch_failure")
            && (last.killed <==> cause.PassDeadline?) && (!cause.LaunchFails? ==> last.worker.Gone?)
  {
    assert IsReason(LAUNCH_FAILURE);
    run := [s];
    if !cause.LaunchFails? {
      run := Extended(run, Launch);
    }
    if cause.SeeExit? {
      run := Extended(run, WorkerEnds);
    }
    run := Extended(run, cause);
    run := Extended(run, FailQueued(now));
    run := Extended(run, Decide);
    if cause.PassDeadline? {
      run := Extended(run, Kill);
    }
  }

  /** The race: the worker claims after the last poll, and the submitter fails its running job. */
  lemma SubmitterCanFailARunningWorker() returns (run: seq<Sys>)
    ensures Behavior(run)
    ensures var last := run[|run| - 1];
            && last.submitter.Raised? && last.worker.Working? && !Promise(last)
            && last.file.status.Failed? && last.file.failureReason == Some(LAUNCH_FAILURE)
  {
    var q := Request("j", None, None, None, None, None);
    run := [Sys(Fresh(q, 0), Launching, NotLaunched, Worker(7, 0, Some(1)), false, false, false, false)];
    run := Extended(run, Launch);
    run := Extended(run, PassDeadline);
    run := Extended(run, WorkerClaims(1));
    assert IsReason(LAUNCH_FAILURE);
    run := Extended(run, FailQueued(2));
    run := Extended(run, Decide);
  }
}
