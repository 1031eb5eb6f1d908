/**
 The job manager of one repository. Every mutating method reads the record, checks it
 and replaces it, all while it holds the job's transition lock, so here a method is one
 atomic step; module JobProtocol splits these steps and interleaves them.
*/
module JobManagement {
  import opened Wrappers
  import opened Jobs

  type Store = map<string, JobRecord>

  /** A complete read: a missing record and one that fails validation are both errors. */
  function Lookup(records: Store, id: string): Result<JobRecord, JobError> {
    if id !in records then Err(NotFound)
    else if !Loadable(records[id]) || records[id].request.jobId != id then Err(InvalidRecord)
    else Ok(records[id])
  }

  /** The store after mutation m of job id. */
  function After(records: Store, id: string, m: Mutation, now: int): Store {
    var found := Lookup(records, id);
    if found.Ok? && Apply(m, found.value, now).Saved? then
      records[id := Apply(m, found.value, now).record]
    else records
  }

  /** What the caller of mutation m is told. */
  function Reply(records: Store, id: string, m: Mutation, now: int): Result<JobRecord, JobError> {
    var found := Lookup(records, id);
    if found.Err? then found
    else match Apply(m, found.value, now)
      case Refused(error) => Err(error)
      case Unchanged => Ok(found.value)
      case Saved(record) => Ok(record)
  }

  ghost predicate AllLoadable(records: Store) {
    forall id :: id in records ==> Lookup(records, id).Ok?
  }

  /** The number of identifiers that creation draws before it gives up. */
  const CREATE_TRIES: nat := 10

  /** The first drawn identifier that no record uses. */
  ghost predicate FirstUnused(records: Store, drawn: seq<string>, k: nat) {
    && k < |drawn| && k < CREATE_TRIES && drawn[k] !in records
    && forall j :: 0 <= j < k ==> drawn[j] in records
  }

  /** A record is read exactly if it exists under its own identifier and passes validation. */
  lemma LookupMeans(records: Store, id: string)
    ensures Lookup(records, id) == Err(NotFound) <==> id !in records
    ensures Lookup(records, id).Ok? <==>
              id in records && RecordRules(records[id]) && FieldsInRange(records[id]) && records[id].request.jobId == id
    ensures Lookup(records, id).Ok? ==> Lookup(records, id).value == records[id]
    ensures Lookup(records, id).Err? ==> Lookup(records, id).error in {NotFound, InvalidRecord}
  {
  }

  /** Store and answer after a mutation, by what Jobs.ApplyAnswers and Jobs.ApplyWrites say about the record. */
  lemma CallMeans(records: Store, id: string, m: Mutation, now: int)
    ensures forall other :: other in After(records, id, m, now) <==> other in records
    ensures forall other :: other in records && other != id ==> After(records, id, m, now)[other] == records[other]
    ensures Lookup(records, id).Err? ==>
              After(records, id, m, now) == records && Reply(records, id, m, now) == Lookup(records, id)
    ensures Lookup(records, id).Ok? ==>
              match Apply(m, records[id], now)
              case Saved(r) => After(records, id, m, now)[id] == r && Reply(records, id, m, now) == Ok(r)
              case Unchanged => After(records, id, m, now) == records && Reply(records, id, m, now) == Ok(records[id])
              case Refused(e) => After(records, id, m, now) == records && Reply(records, id, m, now) == Err(e)
  {
  }

  class JobManager {
    var records: Store

    constructor ()
      ensures records == map[]
    {
      records := map[];
    }

    method Get(id: string) returns (r: Result<JobRecord, JobError>)
      ensures r == Lookup(records, id)
    {
      if id !in records {
        return Err(NotFound);
      }
      var record := records[id];
      if !Loadable(record) || record.request.jobId != id {
        return Err(InvalidRecord);
      }
      return Ok(record);
    }

    /** Persist a queued job under the first unused drawn identifier, or under the requested one. */
    method Create(q: Request, requested: Option<string>, drawn: seq<string>, now: int)
      returns (r: Result<JobRecord, JobError>)
      requires |drawn| == CREATE_TRIES
      modifies this
      ensures r.Ok? ==>
        && r.value == Fresh(q.(jobId := r.value.request.jobId), now)
        && r.value.request.jobId !in old(records)
        && r.value.status == Queued && !r.value.cancellationRequested && r.value.worker.None? && r.value.child.None?
        && r.value.createdAt == r.value.updatedAt == now && r.value.startedAt.None? && r.value.runResult.None?
        && records == old(records)[r.value.request.jobId := r.value]
      ensures r.Err? ==> records == old(records)
      ensures requested.Some? && requested.value in old(records) ==> r == Err(AlreadyExists)
      ensures requested.Some? && r.Ok? ==> r.value.request.jobId == requested.value
      ensures requested.None? && r.Ok? ==>
        exists k: nat :: FirstUnused(old(records), drawn, k) && r.value.request.jobId == drawn[k]
      ensures requested.None? ==> (r == Err(NoFreshId) <==> forall d :: d in drawn ==> d in old(records))
      ensures r.Ok? || r.error in {AlreadyExists, NoFreshId, InvalidRecord}
      ensures r == Err(InvalidRecord) ==> !ProvenanceOk(q)
      ensures old(AllLoadable(records)) ==> AllLoadable(records)
    {
      var i := 0;
      while i < CREATE_TRIES
        invariant 0 <= i <= CREATE_TRIES
        invariant records == old(records)
        invariant requested.Some? ==> i == 0
        invariant forall j :: 0 <= j < i ==> drawn[j] in records
      {
        var id := if requested.Some? then requested.value else drawn[i];
        if id in records {
          if requested.Some? {
            return Err(AlreadyExists);
          }
          i := i + 1;
        } else {
          var record := Fresh(q.(jobId := id), now);
          if !Loadable(record) {
            return Err(InvalidRecord);
          }
          records := records[id := record];
          if requested.None? {
            assert FirstUnused(old(records), drawn, i);
          }
          return Ok(record);
        }
      }
      return Err(NoFreshId);
    }

    method Claim(id: string, w: Worker, now: int) returns (r: Result<JobRecord, JobError>)
      modifies this
      ensures records == After(old(records), id, ClaimBy(w), now)
      ensures r == Reply(old(records), id, ClaimBy(w), now)
    {
      var found := Get(id);
      if found.Err? {
        return found;
      }
      var current := found.value;
      if current.status != Queued {
        return Err(InvalidTransition);
      }
      var claimed := current.(status := Running, worker := Some(w), startedAt := Some(now),
                              heartbeatAt := Some(now), updatedAt := now);
      r := SaveValidated(id, claimed);
    }

    method Heartbeat(id: string, pid: int, createdAt: int, now: int) returns (r: Result<JobRecord, JobError>)
      modifies this
      ensures records == After(old(records), id, Beat(pid, createdAt), now)
      ensures r == Reply(old(records), id, Beat(pid, createdAt), now)
    {
      var found := Get(id);
      if found.Err? {
        return found;
      }
      var current := found.value;
      if !OwnedBy(current, pid, createdAt) {
        return Err(InvalidTransition);
      }
      var refreshed := current.(heartbeatAt := Some(now), updatedAt := now);
      records := records[id := refreshed];
      return Ok(refreshed);
    }

    method Cancel(id: string, now: int) returns (r: Result<JobRecord, JobError>)
      modifies this
      ensures records == After(old(records), id, RequestCancel, now)
      ensures r == Reply(old(records), id, RequestCancel, now)
    {
      var found := Get(id);
      if found.Err? {
        return found;
      }
      var current := found.value;
      if Terminal(current.status) || current.cancellationRequested {
        return Ok(current);
      }
      if current.status == Queued {
        var cancelled := current.(status := Cancelled, cancellationRequested := true, updatedAt := now,
                                  finishedAt := Some(now), duration := Some(Elapsed(current, now)));
        r := SaveValidated(id, cancelled);
      } else {
        var marked := current.(cancellationRequested := true, updatedAt := now);
        records := records[id := marked];
        return Ok(marked);
      }
    }

    method SetChildProcess(id: string, pid: int, createdAt: int, childPid: int, childCreatedAt: Option<int>, now: int)
      returns (r: Result<JobRecord, JobError>)
      modifies this
      ensures records == After(old(records), id, NoteChild(pid, createdAt, childPid, childCreatedAt), now)
      ensures r == Reply(old(records), id, NoteChild(pid, createdAt, childPid, childCreatedAt), now)
    {
      var found := Get(id);
      if found.Err? {
        return found;
      }
      var current := found.value;
      if !OwnedBy(current, pid, createdAt) {
        return Err(InvalidTransition);
      }
      if childCreatedAt.None? && (current.child.None? || current.child.value.pid != childPid) {
        return Ok(current);
      }
      var child := None;
      if childCreatedAt.Some? {
        child := Some(Child(childPid, childCreatedAt.value));
      }
      var updated := current.(child := child, updatedAt := now);
      records := records[id := updated];
      return Ok(updated);
    }

    /** The unlocked half of recovery: read, probe and judge. */
    method Diagnose(id: string, probe: Probe) returns (snapshot: Result<JobRecord, JobError>, cause: Option<Cause>)
      ensures snapshot == Lookup(records, id)
      ensures cause == if snapshot.Ok? && snapshot.value.status.Running? then Abandonment(snapshot.value, probe)
                       else None
      // A worker that is gone is found out.
      ensures snapshot.Ok? && snapshot.value.status == Running && probe.Dead? ==> cause == Some(WorkerMissing)
      ensures snapshot.Ok? && snapshot.value.status == Running && snapshot.value.worker.Some?
              && snapshot.value.worker.value.token.Some? && probe.Alive? && probe.token.Some? ==>
                (cause == Some(PidReused) <==> probe.token != snapshot.value.worker.value.token)
                && (cause.None? <==> probe.token == snapshot.value.worker.value.token)
    {
      snapshot := Get(id);
      cause := None;
      if snapshot.Ok? && snapshot.value.status == Running {
        cause := Abandonment(snapshot.value, probe);
      }
    }

    /** The locked half of recovery: re-read, compare with the snapshot, and only then fail the job. */
    method FailIfStillOwned(id: string, snapshot: JobRecord, cause: Cause, now: int)
      returns (r: Result<JobRecord, JobError>)
      modifies this
      ensures records == After(old(records), id, FailAbandoned(snapshot, cause), now)
      ensures r == Reply(old(records), id, FailAbandoned(snapshot, cause), now)
    {
      var found := Get(id);
      if found.Err? {
        return found;
      }
      var current := found.value;
      if current.status != Running || current.worker != snapshot.worker {
        return Ok(current);
      }
      var failed := current.(status := Failed, failureReason := Some(ABANDONED), failureMetadata := Some(cause),
                             updatedAt := now, finishedAt := Some(now), duration := Some(Elapsed(current, now)));
      r := SaveValidated(id, failed);
    }

    method Transition(id: string, status: Status, reason: Option<string>, metadata: Option<Cause>,
                      result: Option<RunSummary>, now: int)
      returns (r: Result<JobRecord, JobError>)
      modifies this
      ensures records == After(old(records), id, MoveTo(status, reason, metadata, result), now)
      ensures r == Reply(old(records), id, MoveTo(status, reason, metadata, result), now)
    {
      var found := Get(id);
      if found.Err? {
        return found;
      }
      var current := found.value;
      if !LegalEdge(current.status, status) {
        return Err(InvalidTransition);
      }
      var target, failureReason, failureMetadata, runResult := status, reason, metadata, result;
      if current.cancellationRequested && status != Cancelled {
        target, failureReason, failureMetadata, runResult := Cancelled, None, None, None;
      }
      var record := current.(status := target, failureReason := failureReason, failureMetadata := failureMetadata,
                             runResult := runResult, updatedAt := now);
      if target == Running {
        record := record.(startedAt := Some(now));
      }
      if Terminal(target) {
        record := record.(finishedAt := Some(now), duration := Some(Elapsed(current, now)));
      }
      r := SaveValidated(id, record);
    }

    method SaveValidated(id: string, record: JobRecord) returns (r: Result<JobRecord, JobError>)
      modifies this
      ensures records == if Loadable(record) then old(records)[id := record] else old(records)
      ensures r == if Loadable(record) then Ok(record) else Err(InvalidRecord)
    {
      if !Loadable(record) {
        return Err(InvalidRecord);
      }
      records := records[id := record];
      return Ok(record);
    }
  }

  // ----- any sequence of calls -----

  datatype Call = Call(id: string, m: Mutation, now: int)

  function Replay(records: Store, calls: seq<Call>): Store {
    if calls == [] then records
    else Replay(After(records, calls[0].id, calls[0].m, calls[0].now), calls[1..])
  }

  /** One more call at the end has its effect on what the others left. */
  lemma {:induction false} ReplayInTurn(records: Store, calls: seq<Call>, c: Call)
    ensures Replay(records, []) == records
    ensures Replay(records, calls + [c]) == After(Replay(records, calls), c.id, c.m, c.now)
    decreases |calls|
  {
    if calls == [] {
      assert [] + [c] == [c] && [c][1..] == [];
    } else {
      assert (calls + [c])[1..] == calls[1..] + [c];
      ReplayInTurn(After(records, calls[0].id, calls[0].m, calls[0].now), calls[1..], c);
    }
  }

  /** All records stay readable through any calls, provided no child PID written is non-positive. */
  lemma {:induction false} ReplayKeepsLoadable(records: Store, calls: seq<Call>)
    requires AllLoadable(records)
    requires forall c :: c in calls ==> !WritesBadChild(c.m)
    ensures AllLoadable(Replay(records, calls))
  {
    if calls == [] {
    } else {
      var c := calls[0];
      var next := After(records, c.id, c.m, c.now);
      if next != records {
        SavedIsLoadableIff(c.m, records[c.id], c.now);
        ApplyFrame(c.m, records[c.id], c.now);
        assert forall id :: id in next && id != c.id ==> Lookup(next, id) == Lookup(records, id);
      }
      ReplayKeepsLoadable(next, calls[1..]);
    }
  }

  /** A terminal record is the same for ever, and no call makes a record disappear. */
  lemma {:induction false} ReplayKeepsTerminal(records: Store, calls: seq<Call>, id: string)
    requires id in records
    ensures id in Replay(records, calls)
    ensures Terminal(records[id].status) ==> Replay(records, calls)[id] == records[id]
  {
    if calls == [] {
    } else {
      var c := calls[0];
      var next := After(records, c.id, c.m, c.now);
      if next != records && c.id == id {
        ApplyFollowsEdges(c.m, records[id], c.now);
      }
      ReplayKeepsTerminal(next, calls[1..], id);
    }
  }

  /** A child PID that is not positive makes the record unreadable: validation was skipped. */
  lemma BadChildBreaksReads()
    ensures exists records: Store, c: Call ::
      AllLoadable(records) && WritesBadChild(c.m) && !AllLoadable(After(records, c.id, c.m, c.now))
  {
    var q := Request("j", None, None, None, None, None);
    var w := Worker(7, 0, None);
    var running := Fresh(q, 0).(status := Running, worker := Some(w), startedAt := Some(1), heartbeatAt := Some(1));
    var records: Store := map["j" := running];
    var c := Call("j", NoteChild(7, 0, 0, Some(5)), 2);
    assert AllLoadable(records);
    var after := After(records, c.id, c.m, c.now);
    assert after["j"].child == Some(Child(0, 5));
    assert !Lookup(after, "j").Ok?;
    assert WritesBadChild(c.m) && !AllLoadable(after);
  }
}
