/**
 The persisted record of one asynchronous job and the six mutations that the job
 manager performs on it while holding the job's transition lock.
 Times are integers (milliseconds); a process start token is an integer.
*/
module Jobs {
  import opened Wrappers

  datatype Status = Queued | Running | Completed | Failed | Cancelled

  predicate Terminal(s: Status) {
    s.Completed? || s.Failed? || s.Cancelled?
  }

  /** The edge set LEGAL_TRANSITIONS. */
  predicate LegalEdge(s: Status, t: Status) {
    match s
    case Queued => t.Running? || t.Failed? || t.Cancelled?
    case Running => Terminal(t)
    case _ => false
  }

  datatype RunStatus = RunSuccess | RunFailure | RunAborted | RunCancelled

  datatype RunSummary = RunSummary(status: RunStatus, testsPassed: seq<bool>)

  datatype Cause = WorkerMissing | PidReused | PidReusedLegacy

  datatype Worker = Worker(pid: int, createdAt: int, token: Option<int>)

  datatype Child = Child(pid: int, createdAt: int)

  /** The fields that creation fixes for ever. */
  datatype Request = Request(
    jobId: string,
    hostUrl: Option<string>,
    policyPath: Option<string>,
    policySha256: Option<string>,
    specSha256: Option<string>,
    policyBaseline: Option<string>)

  datatype JobRecord = JobRecord(
    request: Request,
    status: Status,
    cancellationRequested: bool,
    failureReason: Option<string>,
    failureMetadata: Option<Cause>,
    worker: Option<Worker>,
    child: Option<Child>,
    heartbeatAt: Option<int>,
    createdAt: int,
    updatedAt: int,
    startedAt: Option<int>,
    finishedAt: Option<int>,
    duration: Option<int>,
    runResult: Option<RunSummary>)

  const ABANDONED := "abandoned_process"
  const LAUNCH_FAILURE := "launch_failure"

  predicate IsHex(s: string) {
    forall i :: 0 <= i < |s| ==> '0' <= s[i] <= '9' || 'a' <= s[i] <= 'f'
  }

  /** Lower-case snake case, starting with a letter. */
  predicate IsReason(s: string) {
    && |s| > 0
    && 'a' <= s[0] <= 'z'
    && forall i :: 0 <= i < |s| ==> 'a' <= s[i] <= 'z' || '0' <= s[i] <= '9' || s[i] == '_'
  }

  predicate ProvenanceOk(q: Request) {
    || (q.policyPath.None? && q.policySha256.None? && q.specSha256.None? && q.policyBaseline.None?)
    || (&& q.policyPath.Some? && q.policySha256.Some? && q.specSha256.Some? && q.policyBaseline.Some?
        && |q.policyPath.value| > 0
        && |q.policySha256.value| == 64 && IsHex(q.policySha256.value)
        && |q.specSha256.value| == 64 && IsHex(q.specSha256.value)
        && (|q.policyBaseline.value| == 40 || |q.policyBaseline.value| == 64)
        && IsHex(q.policyBaseline.value))
  }

  /** The model validator of a record: what status demands of the other fields. */
  predicate RecordRules(r: JobRecord) {
    && ProvenanceOk(r.request)
    && (if r.status.Failed? then r.failureReason.Some? && IsReason(r.failureReason.value)
        else r.failureReason.None? && r.failureMetadata.None?)
    && (Terminal(r.status) <==> r.finishedAt.Some?)
  }

  /** The single-field constraints, which a copy with updates does not check. */
  predicate FieldsInRange(r: JobRecord) {
    && (r.worker.Some? ==> r.worker.value.pid > 0)
    && (r.child.Some? ==> r.child.value.pid > 0)
    && (r.duration.Some? ==> r.duration.value >= 0)
  }

  /** A record that a later read accepts. */
  predicate Loadable(r: JobRecord) {
    RecordRules(r) && FieldsInRange(r)
  }

  datatype JobError = NotFound | AlreadyExists | InvalidTransition | InvalidRecord | NoFreshId

  datatype Mutation =
    | ClaimBy(worker: Worker)
    | Beat(pid: int, workerCreatedAt: int)
    | RequestCancel
    | NoteChild(pid: int, workerCreatedAt: int, childPid: int, childCreatedAt: Option<int>)
    | FailAbandoned(snapshot: JobRecord, cause: Cause)
    | MoveTo(status: Status, reason: Option<string>, metadata: Option<Cause>, result: Option<RunSummary>)

  /** What one locked mutation does to the record it has read. */
  datatype Verdict = Refused(error: JobError) | Unchanged | Saved(record: JobRecord)

  function Fresh(q: Request, now: int): JobRecord {
    JobRecord(q, Queued, false, None, None, None, None, None, now, now, None, None, None, None)
  }

  function Elapsed(r: JobRecord, now: int): int {
    if now - r.createdAt < 0 then 0 else now - r.createdAt
  }

  predicate OwnedBy(r: JobRecord, pid: int, createdAt: int) {
    r.status.Running? && r.worker.Some? && r.worker.value.pid == pid && r.worker.value.createdAt == createdAt
  }

  /** A write that goes through full validation. */
  function Checked(r: JobRecord): Verdict {
    if Loadable(r) then Saved(r) else Refused(InvalidRecord)
  }

  function Apply(m: Mutation, c: JobRecord, now: int): Verdict {
    match m
    case ClaimBy(w) =>
      if !c.status.Queued? then Refused(InvalidTransition)
      else Checked(c.(status := Running, worker := Some(w), startedAt := Some(now),
                      heartbeatAt := Some(now), updatedAt := now))
    case Beat(pid, created) =>
      if !OwnedBy(c, pid, created) then Refused(InvalidTransition)
      else Saved(c.(heartbeatAt := Some(now), updatedAt := now))
    case RequestCancel =>
      if Terminal(c.status) || c.cancellationRequested then Unchanged
      else if c.status.Queued? then
        Checked(c.(status := Cancelled, cancellationRequested := true, updatedAt := now,
                   finishedAt := Some(now), duration := Some(Elapsed(c, now))))
      else Saved(c.(cancellationRequested := true, updatedAt := now))
    case NoteChild(pid, created, childPid, childCreatedAt) =>
      if !OwnedBy(c, pid, created) then Refused(InvalidTransition)
      else if childCreatedAt.None? && !(c.child.Some? && c.child.value.pid == childPid) then Unchanged
      else Saved(c.(child := if childCreatedAt.Some? then Some(Child(childPid, childCreatedAt.value)) else None,
                    updatedAt := now))
    case FailAbandoned(snapshot, cause) =>
      if !c.status.Running? || c.worker != snapshot.worker then Unchanged
      else Checked(c.(status := Failed, failureReason := Some(ABANDONED), failureMetadata := Some(cause),
                      updatedAt := now, finishedAt := Some(now), duration := Some(Elapsed(c, now))))
    case MoveTo(status, reason, metadata, result) =>
      if !LegalEdge(c.status, status) then Refused(InvalidTransition)
      else
        var overruled := c.cancellationRequested && !status.Cancelled?;
        var target := if overruled then Cancelled else status;
        Checked(c.(status := target,
                   failureReason := if overruled then None else reason,
                   failureMetadata := if overruled then None else metadata,
                   runResult := if overruled then None else result,
                   updatedAt := now,
                   startedAt := if target.Running? then Some(now) else c.startedAt,
                   finishedAt := if Terminal(target) then Some(now) else c.finishedAt,
                   duration := if Terminal(target) then Some(Elapsed(c, now)) else c.duration))
  }

  /** The only mutation that can write a record which no later read accepts. */
  predicate WritesBadChild(m: Mutation) {
    m.NoteChild? && m.childCreatedAt.Some? && m.childPid <= 0
  }

  /** The validator, status by status. */
  lemma RulesByStatus(r: JobRecord)
    ensures RecordRules(r) <==>
              && (match r.status
                  case Queued => r.failureReason.None? && r.failureMetadata.None? && r.finishedAt.None?
                  case Running => r.failureReason.None? && r.failureMetadata.None? && r.finishedAt.None?
                  case Completed => r.failureReason.None? && r.failureMetadata.None? && r.finishedAt.Some?
                  case Cancelled => r.failureReason.None? && r.failureMetadata.None? && r.finishedAt.Some?
                  case Failed => r.failureReason.Some? && IsReason(r.failureReason.value) && r.finishedAt.Some?)
              && var q := r.request;
                 && (q.policyPath.Some? == q.policySha256.Some? == q.specSha256.Some? == q.policyBaseline.Some?)
                 && (q.policyPath.Some? ==>
                       && q.policyPath.value != "" && |q.policySha256.value| == |q.specSha256.value| == 64
                       && |q.policyBaseline.value| in {40, 64}
                       && IsHex(q.policySha256.value) && IsHex(q.specSha256.value) && IsHex(q.policyBaseline.value))
    ensures Loadable(r) <==>
              && RecordRules(r)
              && (r.worker.Some? ==> r.worker.value.pid >= 1) && (r.child.Some? ==> r.child.value.pid >= 1)
              && (r.duration.Some? ==> r.duration.value >= 0)
  {
  }

  /** Digests are lower-case, reasons are words in lower case with digits and underscores. */
  lemma FormatsAre(s: string)
    ensures IsHex(s) <==> forall c :: c in s ==> '0' <= c <= '9' || 'a' <= c <= 'f'
    ensures IsReason(s) <==>
              && s != "" && s[0] != '_' && !('0' <= s[0] <= '9')
              && forall c :: c in s ==> c == '_' || 'a' <= c <= 'z' || '0' <= c <= '9'
  {
    assert forall i :: 0 <= i < |s| ==> s[i] in s;
  }

  /** The transition table, and the statuses that no transition leaves. */
  lemma EdgesAre(s: Status, t: Status)
    ensures LegalEdge(s, t) <==> (s, t) in {
              (Queued, Running), (Queued, Failed), (Queued, Cancelled),
              (Running, Completed), (Running, Failed), (Running, Cancelled)}
    ensures Terminal(s) <==> s in {Completed, Failed, Cancelled}
    ensures Terminal(s) <==> forall u :: !LegalEdge(s, u)
  {
    if !Terminal(s) {
      assert LegalEdge(s, Failed);
    }
  }

  /**
   When each mutation of a readable record is refused, when it changes nothing, and when it is saved.
  */
  lemma ApplyAnswers(m: Mutation, c: JobRecord, now: int)
    requires Loadable(c)
    ensures m.ClaimBy? ==>
              && (Apply(m, c, now).Saved? <==> c.status == Queued && m.worker.pid > 0)
              && (Apply(m, c, now) == Refused(InvalidTransition) <==> c.status != Queued)
              && !Apply(m, c, now).Unchanged?
    ensures m.Beat? ==>
              var owner := c.status == Running && c.worker.Some? && c.worker.value.pid == m.pid
                           && c.worker.value.createdAt == m.workerCreatedAt;
              Apply(m, c, now).Saved? == owner && (!owner ==> Apply(m, c, now) == Refused(InvalidTransition))
    ensures m.RequestCancel? ==>
              && (Apply(m, c, now).Saved? <==> c.status in {Queued, Running} && !c.cancellationRequested)
              && (Apply(m, c, now).Unchanged? <==> !Apply(m, c, now).Saved?)
    ensures m.NoteChild? ==>
              var owner := c.status == Running && c.worker.Some? && c.worker.value.pid == m.pid
                           && c.worker.value.createdAt == m.workerCreatedAt;
              var clearsAnother := m.childCreatedAt.None? && (c.child.None? || c.child.value.pid != m.childPid);
              && (Apply(m, c, now) == Refused(InvalidTransition) <==> !owner)
              && (Apply(m, c, now).Unchanged? <==> owner && clearsAnother)
              && (Apply(m, c, now).Saved? <==> owner && !clearsAnother)
    ensures m.FailAbandoned? ==>
              && (Apply(m, c, now).Saved? <==> c.status == Running && c.worker == m.snapshot.worker)
              && (Apply(m, c, now).Unchanged? <==> !Apply(m, c, now).Saved?)
    ensures m.MoveTo? ==>
              && (Apply(m, c, now) == Refused(InvalidTransition) <==> !LegalEdge(c.status, m.status))
              && (Apply(m, c, now).Saved? <==>
                    LegalEdge(c.status, m.status)
                    && (|| (c.cancellationRequested && m.status != Cancelled)
                        || (m.status == Failed && m.reason.Some? && IsReason(m.reason.value))
                        || (m.status != Failed && m.reason.None? && m.metadata.None?)))
  {
    assert IsReason(ABANDONED);
  }

  /** What each mutation writes, apart from what ApplyFrame says stays. */
  lemma ApplyWrites(m: Mutation, c: JobRecord, now: int)
    requires Apply(m, c, now).Saved?
    ensures var r := Apply(m, c, now).record;
            && (m.ClaimBy? ==>
                  && r.status == Running && r.worker == Some(m.worker)
                  && r.startedAt == Some(now) && r.heartbeatAt == Some(now))
            && (m.Beat? ==> r == c.(heartbeatAt := Some(now), updatedAt := now))
            && (m.RequestCancel? ==>
                  r.cancellationRequested && r.status == if c.status == Queued then Cancelled else c.status)
            && (m.NoteChild? && m.childCreatedAt.Some? ==> r.child == Some(Child(m.childPid, m.childCreatedAt.value)))
            && (m.NoteChild? && m.childCreatedAt.None? ==> r.child.None?)
            && (m.FailAbandoned? ==>
                  && r.status == Failed && r.failureReason == Some("abandoned_process")
                  && r.failureMetadata == Some(m.cause))
            && (m.MoveTo? && (!c.cancellationRequested || m.status == Cancelled) ==>
                  && r.status == m.status && r.failureReason == m.reason && r.failureMetadata == m.metadata
                  && r.runResult == m.result)
            && (m.MoveTo? && c.cancellationRequested && m.status != Cancelled ==>
                  && r.status == Cancelled && r.failureReason.None? && r.failureMetadata.None? && r.runResult.None?)
            && (Terminal(r.status) ==>
                  r.finishedAt == Some(now)
                  && r.duration == Some(if now < c.createdAt then 0 else now - c.createdAt))
            && (!Terminal(r.status) ==> r.finishedAt == c.finishedAt && r.duration == c.duration)
            && r.updatedAt == now && r.request == c.request && r.createdAt == c.createdAt
            && (m.MoveTo? && r.status == Running ==> r.startedAt == Some(now))
            && (m.ClaimBy? || m.Beat? || r.heartbeatAt == c.heartbeatAt)
  {
  }

  /** The record rules survive every write, copies that skip validation included. */
  lemma ApplyKeepsRules(m: Mutation, c: JobRecord, now: int)
    requires RecordRules(c)
    ensures Apply(m, c, now).Saved? ==> RecordRules(Apply(m, c, now).record)
  {
  }

  /** A saved record can be read back exactly when no non-positive child PID was copied in. */
  lemma SavedIsLoadableIff(m: Mutation, c: JobRecord, now: int)
    requires Loadable(c) && Apply(m, c, now).Saved?
    ensures Loadable(Apply(m, c, now).record) <==> !WritesBadChild(m)
  {
  }

  /** Every write stays on a status or follows a legal edge, and never leaves a terminal status. */
  lemma ApplyFollowsEdges(m: Mutation, c: JobRecord, now: int)
    requires Apply(m, c, now).Saved?
    ensures !Terminal(c.status)
    ensures var r := Apply(m, c, now).record;
            && (r.status == c.status || LegalEdge(c.status, r.status))
            && (r.status == c.status ==> c.status.Running? && !m.ClaimBy?)
  {
  }

  /** What a mutation must not touch. */
  lemma ApplyFrame(m: Mutation, c: JobRecord, now: int)
    requires Apply(m, c, now).Saved?
    ensures var r := Apply(m, c, now).record;
            && r.request == c.request && r.createdAt == c.createdAt && r.updatedAt == now
            && (r.worker == if m.ClaimBy? then Some(m.worker) else c.worker)
            && (!m.NoteChild? ==> r.child == c.child)
            && (r.startedAt != c.startedAt ==> r.status.Running? && r.startedAt == Some(now))
            && (m.Beat? || m.NoteChild? ==> r.status == c.status && r.cancellationRequested == c.cancellationRequested)
            && (r.runResult != c.runResult ==>
                  && m.MoveTo?
                  && r.runResult == (if c.cancellationRequested && !m.status.Cancelled? then None else m.result))
            && (c.cancellationRequested ==> r.cancellationRequested)
            && (r.cancellationRequested && !c.cancellationRequested ==> m.RequestCancel?)
  {
  }

  /**
   Once cancellation of a running job is on record, the job stays running, is cancelled,
   or is failed by the recovery of an abandoned worker; nothing else is possible.
  */
  lemma CancellationWins(m: Mutation, c: JobRecord, now: int)
    requires c.status.Running? && c.cancellationRequested && Apply(m, c, now).Saved?
    ensures var r := Apply(m, c, now).record;
            && r.cancellationRequested
            && (|| r.status.Running?
                || (r.status.Cancelled? && r.runResult == (if m.status.Cancelled? then m.result else None))
                || (m.FailAbandoned? && r.status.Failed? && r.failureReason == Some(ABANDONED)))
  {
  }

  // ----- liveness probes -----

  datatype Probe = Dead | Unknown | Alive(createdAt: Option<int>, token: Option<int>, coarse: bool)

  function Tolerance(coarse: bool): int {
    if coarse then 1100 else 2500
  }

  function Distance(a: int, b: int): int {
    if a < b then b - a else a - b
  }

  /** Some cause exactly when the probe shows that the recorded worker is gone. */
  function Abandonment(r: JobRecord, p: Probe): Option<Cause> {
    if r.worker.None? || p.Dead? then Some(WorkerMissing)
    else if p.Unknown? then None
    else if r.worker.value.token.Some? then
      if p.token.None? || p.token == r.worker.value.token then None else Some(PidReused)
    else if p.createdAt.None? then None
    else if Distance(r.worker.value.createdAt, p.createdAt.value) > Tolerance(p.coarse) then Some(PidReusedLegacy)
    else None
  }

  /**
   The verdict of a probe: a worker that is not recorded or is dead is missing; a token decides as soon as
   both sides have one; and creation times decide only for a worker that recorded no token.
  */
  lemma AbandonmentMeans(r: JobRecord, p: Probe)
    ensures Abandonment(r, p) == Some(WorkerMissing) <==> r.worker.None? || p.Dead?
    ensures r.worker.Some? && p.Unknown? ==> Abandonment(r, p).None?
    ensures Abandonment(r, p) == Some(PidReused) <==>
              && r.worker.Some? && p.Alive? && r.worker.value.token.Some? && p.token.Some?
              && p.token != r.worker.value.token
    ensures Abandonment(r, p) == Some(PidReusedLegacy) <==>
              && r.worker.Some? && p.Alive? && r.worker.value.token.None? && p.createdAt.Some?
              && var drift := r.worker.value.createdAt - p.createdAt.value;
                 drift > (if p.coarse then 1100 else 2500) || -drift > (if p.coarse then 1100 else 2500)
  {
  }
}
