/**
 The persisted activity registry of the managed endpoint: its lease list, and every
 operation on it. Each method runs under the activity lock; LeaseProtocol interleaves
 the writes in between with other processes, running jobs and crashes.
*/
module Leases {
  import opened Wrappers
  import opened Jobs

  datatype JobKey = JobKey(repo: string, id: string)

  /** One registry entry; Malformed is a job entry without a repository or job identifier. */
  datatype Entry =
    | Sync(token: nat)
    | Submitting(job: JobKey)
    | Job(job: JobKey)
    | LifecycleUnknown(token: nat)
    | Malformed

  /** The lease_id field: random for sync and lifecycle entries, derived from the job otherwise. */
  datatype LeaseId = Random(token: nat) | ForJob(id: string) | NoId

  function IdOf(e: Entry): LeaseId {
    match e
    case Sync(t) => Random(t)
    case LifecycleUnknown(t) => Random(t)
    case Submitting(k) => ForJob(k.id)
    case Job(k) => ForJob(k.id)
    case Malformed => NoId
  }

  /** The entries that do not carry the given lease_id, in order. */
  function Without(leases: seq<Entry>, id: LeaseId): (r: seq<Entry>)
    ensures forall e :: e in r <==> e in leases && IdOf(e) != id
    ensures |r| <= |leases|
  {
    if leases == [] then []
    else (if IdOf(leases[0]) == id then [] else [leases[0]]) + Without(leases[1..], id)
  }

  function WithoutJob(leases: seq<Entry>, job: JobKey): (r: seq<Entry>)
    ensures forall e :: e in r <==> e in leases && e != Job(job)
    ensures |r| <= |leases|
  {
    if leases == [] then []
    else (if leases[0] == Job(job) then [] else [leases[0]]) + WithoutJob(leases[1..], job)
  }

  predicate Unused(leases: seq<Entry>, id: LeaseId) {
    forall e :: e in leases ==> IdOf(e) != id
  }

  lemma {:induction false} WithoutUnused(leases: seq<Entry>, id: LeaseId)
    requires Unused(leases, id)
    ensures Without(leases, id) == leases
  {
    if leases == [] {
    } else {
      WithoutUnused(leases[1..], id);
    }
  }

  lemma {:induction false} WithoutSplit(a: seq<Entry>, b: seq<Entry>, id: LeaseId)
    ensures Without(a + b, id) == Without(a, id) + Without(b, id)
  {
    if a == [] {
      assert a + b == b;
    } else {
      assert (a + b)[1..] == a[1..] + b;
      WithoutSplit(a[1..], b, id);
    }
  }

  /** Removing by identifier takes exactly the one entry that carries it and keeps the order of all others. */
  lemma OnlyOwnLeaseGoes(a: seq<Entry>, e: Entry, b: seq<Entry>)
    requires Unused(a, IdOf(e)) && Unused(b, IdOf(e))
    ensures Without(a + [e] + b, IdOf(e)) == a + b
  {
    var id := IdOf(e);
    assert Without([e], id) == [] by {
      assert [e][1..] == [] && Without([], id) == [];
    }
    calc {
      Without(a + [e] + b, id);
      { WithoutSplit(a + [e], b, id); }
      Without(a + [e], id) + Without(b, id);
      { WithoutSplit(a, [e], id); }
      (Without(a, id) + []) + Without(b, id);
      { WithoutUnused(a, id); WithoutUnused(b, id); }
      (a + []) + b;
      a + b;
    }
  }

  predicate Uncertain(leases: seq<Entry>) {
    exists e :: e in leases && e.LifecycleUnknown?
  }

  /** What reading a job record yields: its status, or nothing that can be trusted. */
  datatype Reading = Unreadable | Read(status: Status)

  datatype Fate = Keep | Drop | Refuse

  function FateOf(e: Entry, read: JobKey -> Reading): Fate {
    match e
    case Malformed => Refuse
    case Job(k) =>
      if read(k).Unreadable? then Refuse
      else if Terminal(read(k).status) then Drop
      else Keep
    case _ => Keep
  }

  /** The reconciled list, or None if any entry cannot be judged. */
  function Reconciled(leases: seq<Entry>, read: JobKey -> Reading): Option<seq<Entry>> {
    if leases == [] then Some([])
    else
      var rest := Reconciled(leases[1..], read);
      match FateOf(leases[0], read)
      case Refuse => None
      case Drop => rest
      case Keep => if rest.None? then None else Some([leases[0]] + rest.value)
  }

  lemma {:induction false} ReconciledSplit(a: seq<Entry>, b: seq<Entry>, read: JobKey -> Reading)
    ensures Reconciled(a + b, read) ==
            (if Reconciled(a, read).None? || Reconciled(b, read).None? then None
             else Some(Reconciled(a, read).value + Reconciled(b, read).value))
  {
    if a == [] {
      assert a + b == b;
      if Reconciled(b, read).Some? {
        assert [] + Reconciled(b, read).value == Reconciled(b, read).value;
      }
    } else {
      assert (a + b)[1..] == a[1..] + b;
      ReconciledSplit(a[1..], b, read);
      if Reconciled(a[1..], read).Some? && Reconciled(b, read).Some? {
        assert [a[0]] + (Reconciled(a[1..], read).value + Reconciled(b, read).value)
            == ([a[0]] + Reconciled(a[1..], read).value) + Reconciled(b, read).value;
      }
    }
  }

  lemma ReconciledNext(leases: seq<Entry>, i: nat, read: JobKey -> Reading)
    requires i < |leases| && Reconciled(leases[..i], read).Some?
    ensures FateOf(leases[i], read).Refuse? ==> Reconciled(leases, read).None?
    ensures FateOf(leases[i], read).Drop? ==>
      Reconciled(leases[..i + 1], read) == Reconciled(leases[..i], read)
    ensures FateOf(leases[i], read).Keep? ==>
      Reconciled(leases[..i + 1], read) == Some(Reconciled(leases[..i], read).value + [leases[i]])
  {
    var e := leases[i];
    assert leases[..i + 1] == leases[..i] + [e];
    ReconciledSplit(leases[..i], [e], read);
    assert leases == leases[..i + 1] + leases[i + 1..];
    ReconciledSplit(leases[..i + 1], leases[i + 1..], read);
    assert [e][1..] == [] && [e] + [] == [e];
    var done := Reconciled(leases[..i], read).value;
    assert done + [] == done;
  }

  /** An entry that cannot be judged: a malformed one, or a job whose record cannot be read. */
  predicate Doubtful(e: Entry, read: JobKey -> Reading) {
    e.Malformed? || (e.Job? && read(e.job).Unreadable?)
  }

  /** A job that has ended, one way or another. */
  predicate Over(e: Entry, read: JobKey -> Reading) {
    e.Job? && read(e.job).Read? && read(e.job).status in {Completed, Failed, Cancelled}
  }

  /** Reconciliation keeps exactly the entries that are not jobs that have ended, and refuses on any doubt. */
  lemma {:induction false} ReconciledMeaning(leases: seq<Entry>, read: JobKey -> Reading)
    ensures Reconciled(leases, read).None? <==>
              exists e :: e in leases && (e.Malformed? || (e.Job? && read(e.job).Unreadable?))
    ensures Reconciled(leases, read).Some? ==>
              forall e :: e in Reconciled(leases, read).value <==>
                e in leases && !(e.Job? && read(e.job).Read? && read(e.job).status in {Completed, Failed, Cancelled})
  {
    if leases == [] {
    } else {
      ReconciledMeaning(leases[1..], read);
      assert leases == [leases[0]] + leases[1..];
    }
  }

  /** Nothing is left exactly if every entry is a job that has ended. */
  lemma NothingIsLeft(leases: seq<Entry>, read: JobKey -> Reading)
    ensures Reconciled(leases, read) == Some([]) <==> forall e :: e in leases ==> Over(e, read)
    ensures Reconciled(leases, read).None? <==> exists e :: e in leases && Doubtful(e, read)
  {
    ReconciledMeaning(leases, read);
    if Reconciled(leases, read).Some? && Reconciled(leases, read).value != [] {
      assert Reconciled(leases, read).value[0] in Reconciled(leases, read).value;
    }
  }

  datatype Activity = Busy | IdleNow | UnknownActivity

  /** How the reserved job's creation ended: returned, or raised before or after the record was written. */
  datatype Creation = Created | RaisedNoRecord | RaisedUnreadable | RaisedWith(status: Status)

  class ActivityRegistry {
    var leases: seq<Entry>

    constructor ()
      ensures leases == []
    {
      leases := [];
    }

    method IsUncertain() returns (found: bool)
      ensures found <==> exists e :: e in leases && e.LifecycleUnknown?
    {
      for i := 0 to |leases|
        invariant forall j :: 0 <= j < i ==> !leases[j].LifecycleUnknown?
      {
        if leases[i].LifecycleUnknown? {
          return true;
        }
      }
      return false;
    }

    method SyncEnter(token: nat) returns (admitted: bool)
      modifies this
      ensures admitted <==> !Uncertain(old(leases))
      ensures leases == if admitted then old(leases) + [Sync(token)] else old(leases)
    {
      var uncertain := IsUncertain();
      if uncertain {
        return false;
      }
      leases := leases + [Sync(token)];
      return true;
    }

    /**
     Whatever was appended before and after the own lease stays, in order; nothing else goes. A
     registry from which the lease has meanwhile been cleared is left as it is.
    */
    method SyncExit(token: nat)
      modifies this
      ensures forall a, b | Unused(a, Random(token)) && Unused(b, Random(token)) ::
                old(leases) == a + [Sync(token)] + b ==> leases == a + b
      ensures Unused(old(leases), Random(token)) ==> leases == old(leases)
      ensures Unused(leases, Random(token)) && forall e :: e in leases <==> e in old(leases) && IdOf(e) != Random(token)
    {
      forall a, b | Unused(a, Random(token)) && Unused(b, Random(token)) && leases == a + [Sync(token)] + b
        ensures Without(leases, Random(token)) == a + b
      {
        OnlyOwnLeaseGoes(a, Sync(token), b);
      }
      if Unused(leases, Random(token)) {
        WithoutUnused(leases, Random(token));
      }
      leases := Without(leases, Random(token));
    }

    /** Reserve around job creation: placeholder first, then the record, then the job lease. */
    method ReserveAsync(job: JobKey, creation: Creation) returns (admitted: bool)
      modifies this
      ensures admitted <==> !Uncertain(old(leases)) && creation.Created?
      ensures Uncertain(old(leases)) ==> leases == old(leases)
      ensures admitted ==> leases == Without(old(leases), ForJob(job.id)) + [Job(job)]
      ensures !Uncertain(old(leases)) && creation.RaisedUnreadable? ==> leases == old(leases) + [Submitting(job)]
      ensures !Uncertain(old(leases)) && creation.RaisedWith? && !Terminal(creation.status) ==> Job(job) in leases
      ensures !Uncertain(old(leases)) && creation.RaisedNoRecord? ==> leases == Without(old(leases), ForJob(job.id))
      ensures !Uncertain(old(leases)) && creation.RaisedWith? && Terminal(creation.status) ==>
        leases == Without(old(leases), ForJob(job.id))
      ensures forall e :: e in old(leases) && IdOf(e) != ForJob(job.id) ==> e in leases
    {
      var uncertain := IsUncertain();
      if uncertain {
        return false;
      }
      ghost var before := leases;
      var mine := leases + [Submitting(job)];
      leases := mine;
      WithoutAppended(before, Submitting(job));
      match creation {
        case Created =>
          leases := Without(mine, ForJob(job.id)) + [Job(job)];
          return true;
        case RaisedNoRecord =>
          leases := Without(mine, ForJob(job.id));
        case RaisedUnreadable =>
        case RaisedWith(status) =>
          if Terminal(status) {
            leases := Without(mine, ForJob(job.id));
          } else {
            leases := mine[|mine| - 1 := Job(job)];
            assert forall i :: 0 <= i < |before| ==> leases[i] == before[i];
            assert leases[|mine| - 1] == Job(job);
          }
      }
      return false;
    }

    /** Drop the job's lease, but only on a terminal record. */
    method ReleaseAsync(job: JobKey, reading: Reading) returns (ok: bool)
      modifies this
      ensures ok <==> Job(job) !in old(leases) || (reading.Read? && Terminal(reading.status))
      ensures leases == if ok then WithoutJob(old(leases), job) else old(leases)
    {
      if Job(job) !in leases {
        WithoutAbsentJob(leases, job);
        return true;
      }
      if reading.Unreadable? || !Terminal(reading.status) {
        return false;
      }
      leases := WithoutJob(leases, job);
      return true;
    }

    /** The mutating reconciler: rewrites the list only if some job turned out terminal. */
    method Reconcile(read: JobKey -> Reading) returns (ok: bool)
      modifies this
      ensures ok <==> Reconciled(old(leases), read).Some?
      ensures leases == if ok then Reconciled(old(leases), read).value else old(leases)
      // The same without reference to the loop: refusal on any doubt, and otherwise ended jobs go and nothing else.
      ensures ok <==> forall e :: e in old(leases) ==> !e.Malformed? && (e.Job? ==> read(e.job).Read?)
      ensures ok ==> forall e :: e in leases <==>
                e in old(leases) && !(e.Job? && read(e.job).status in {Completed, Failed, Cancelled})
    {
      ReconciledMeaning(leases, read);
      var remaining: seq<Entry>, changed := [], false;
      var i := 0;
      while i < |leases|
        invariant 0 <= i <= |leases| && leases == old(leases)
        invariant Reconciled(leases[..i], read) == Some(remaining)
        invariant !changed ==> remaining == leases[..i]
      {
        ReconciledNext(leases, i, read);
        match leases[i] {
          case Malformed =>
            return false;
          case Job(k) =>
            var reading := read(k);
            if reading.Unreadable? {
              return false;
            }
            if Terminal(reading.status) {
              changed := true;
            } else {
              remaining := remaining + [leases[i]];
            }
          case _ =>
            remaining := remaining + [leases[i]];
        }
        i := i + 1;
      }
      assert leases[..i] == leases;
      if changed {
        leases := remaining;
      }
      return true;
    }

    /** The lock-free observer answers exactly what the mutating reconciler would have found. */
    method DiagnosticStatus(read: JobKey -> Reading) returns (activity: Activity)
      ensures activity.UnknownActivity? <==> Reconciled(leases, read).None?
      ensures activity.Busy? <==> Reconciled(leases, read).Some? && Reconciled(leases, read).value != []
      ensures activity.IdleNow? <==> Reconciled(leases, read) == Some([])
      ensures activity.UnknownActivity? <==> exists e :: e in leases && Doubtful(e, read)
      ensures activity.IdleNow? <==>
                forall e :: e in leases ==>
                  e.Job? && read(e.job).Read? && read(e.job).status in {Completed, Failed, Cancelled}
    {
      NothingIsLeft(leases, read);
      var active := false;
      var i := 0;
      while i < |leases|
        invariant 0 <= i <= |leases|
        invariant Reconciled(leases[..i], read).Some?
        invariant active <==> Reconciled(leases[..i], read).value != []
      {
        ReconciledNext(leases, i, read);
        match leases[i] {
          case Malformed =>
            return UnknownActivity;
          case Job(k) =>
            var reading := read(k);
            if reading.Unreadable? {
              return UnknownActivity;
            }
            if !Terminal(reading.status) {
              active := true;
            }
          case _ =>
            active := true;
        }
        i := i + 1;
      }
      assert leases[..i] == leases;
      return if active then Busy else IdleNow;
    }

    /** One lifecycle command; dockerReturns is whether the Docker client came back cleanly. */
    method RunLifecycle(read: JobKey -> Reading, preflight: bool, token: nat, dockerReturns: bool)
      returns (ran: bool, ok: bool)
      modifies this
      ensures ran <==> !Uncertain(old(leases)) && Reconciled(old(leases), read) == Some([]) && preflight
      ensures ran <==>
                preflight && forall e :: e in old(leases) ==>
                  e.Job? && read(e.job).Read? && read(e.job).status in {Completed, Failed, Cancelled}
      ensures ok <==> ran && dockerReturns
      ensures ok ==> leases == []
      ensures ran && !ok ==> leases == [LifecycleUnknown(token)]
      ensures !ran ==> leases == if !Uncertain(old(leases)) && Reconciled(old(leases), read).Some?
                                 then Reconciled(old(leases), read).value else old(leases)
    {
      NothingIsLeft(leases, read);
      var uncertain := IsUncertain();
      if uncertain {
        return false, false;
      }
      var judged := Reconcile(read);
      if !judged || leases != [] || !preflight {
        return false, false;
      }
      leases := leases + [LifecycleUnknown(token)];
      if !dockerReturns {
        return true, false;
      }
      leases := Without(leases, Random(token));
      return true, true;
    }
  }

  lemma WithoutAppended(leases: seq<Entry>, e: Entry)
    ensures Without(leases + [e], IdOf(e)) == Without(leases, IdOf(e))
  {
    if leases == [] {
    } else {
      assert (leases + [e])[1..] == leases[1..] + [e];
      WithoutAppended(leases[1..], e);
    }
  }

  lemma WithoutAbsentJob(leases: seq<Entry>, job: JobKey)
    requires Job(job) !in leases
    ensures WithoutJob(leases, job) == leases
  {
    if leases == [] {
    } else {
      WithoutAbsentJob(leases[1..], job);
    }
  }
}
