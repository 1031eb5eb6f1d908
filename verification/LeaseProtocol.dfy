/**
 The managed endpoint shared by any number of processes: synchronous tasks, asynchronous
 submissions and releases, readiness requests and Docker lifecycle commands. A process works
 on the lease list that it loaded when it took the activity lock; job records change under
 locks of their own and are read without them. A process may crash between any two steps.
*/
module LeaseProtocol {
  import opened Runs
  import opened Wrappers
  import opened Jobs
  import opened Leases

  type Pid = nat

  datatype Purpose = Readiness | Lifecycle

  /** All but Idle and SyncBody hold the activity lock. */
  datatype Pc =
    | Idle
    | SyncHeld(token: nat, copy: seq<Entry>)
    | SyncNoted(token: nat)
    | SyncBody(token: nat)
    | SyncLeaving(token: nat, copy: seq<Entry>)
    | AsyncHeld(job: JobKey, copy: seq<Entry>)
    | AsyncPlaced(job: JobKey, copy: seq<Entry>)
    | AsyncCreated(job: JobKey, copy: seq<Entry>)
    | AsyncFailed(job: JobKey, copy: seq<Entry>)
    | FreeHeld(job: JobKey, copy: seq<Entry>)
    | FreeSafe(job: JobKey, copy: seq<Entry>)
    | Checking(purpose: Purpose, copy: seq<Entry>, at: nat, remaining: seq<Entry>, changed: bool)
    | Posting
    | Preflight
    | Marked(token: nat)
    | Docker(token: nat)
    | DockerReturned(token: nat)
    | Leaving

  /**
   What is persisted, with the identifiers handed out so far. pending holds the lifecycle
   commands that were started and have neither returned cleanly nor been resolved by an
   operator: the Docker daemon may still be applying them.
  */
  datatype Core = Core(
    leases: seq<Entry>,
    jobs: map<JobKey, Status>,
    issued: set<JobKey>,
    tokens: set<nat>,
    pending: set<nat>)

  /** abandoned counts the readiness requests that the server still works on after their client died or gave up. */
  datatype Sys = Sys(core: Core, lock: Option<Pid>, pcs: map<Pid, Pc>, abandoned: nat)

  /** Why a process takes the lock. */
  datatype Request =
    | ToSync(token: nat)
    | ToLeaveSync
    | ToReserve(job: JobKey)
    | ToFree(job: JobKey)
    | ToCheck(purpose: Purpose)

  /** One step of the lock holder. */
  datatype Work =
    | SyncNote
    | SyncErase
    | AsyncPlace
    | AsyncCreate
    | AsyncRaise(written: bool)
    | AsyncFinish
    | AsyncRepair(readable: bool)
    | FreeRead(readable: bool)
    | FreeErase
    | CheckOne(readable: bool)
    | CheckEnd
    | PostReturns
    | PreflightFails
    | Mark(token: nat)
    | DockerStarts
    | DockerFails
    | DockerOk
    | Unmark

  datatype Step =
    | Arrive(p: Pid)
    | Crash(p: Pid)
    | Enter(p: Pid, request: Request)
    | Act(p: Pid, work: Work)
    | Unlock(p: Pid)
    | GiveUp(p: Pid)
    | PostGivesUp(p: Pid)
    | ServerEnds
    | JobMoves(job: JobKey, status: Status)
    | OperatorClears(token: nat)

  predicate Holds(pc: Pc) {
    !pc.Idle? && !pc.SyncBody?
  }

  // ----- taking the lock and loading the list -----

  ghost predicate MayEnter(c: Core, pc: Pc, r: Request) {
    match r
    case ToSync(t) => pc.Idle? && !Uncertain(c.leases) && t !in c.tokens
    case ToLeaveSync => pc.SyncBody?
    case ToReserve(k) => pc.Idle? && !Uncertain(c.leases) && forall j :: j in c.issued ==> j.id != k.id
    case ToFree(k) => pc.Idle? && Job(k) in c.leases
    case ToCheck(purpose) => pc.Idle? && (purpose.Lifecycle? ==> !Uncertain(c.leases))
  }

  function EnterCore(c: Core, r: Request): Core {
    match r
    case ToSync(t) => c.(tokens := c.tokens + {t})
    case ToReserve(k) => c.(issued := c.issued + {k})
    case _ => c
  }

  function EnterPc(c: Core, pc: Pc, r: Request): Pc
    requires r.ToLeaveSync? ==> pc.SyncBody?
  {
    match r
    case ToSync(t) => SyncHeld(t, c.leases)
    case ToLeaveSync => SyncLeaving(pc.token, c.leases)
    case ToReserve(k) => AsyncHeld(k, c.leases)
    case ToFree(k) => FreeHeld(k, c.leases)
    case ToCheck(purpose) => Checking(purpose, c.leases, 0, [], false)
  }

  // ----- working under the lock -----

  ghost predicate MayAct(c: Core, pc: Pc, w: Work) {
    match w
    case SyncNote => pc.SyncHeld?
    case SyncErase => pc.SyncLeaving?
    case AsyncPlace => pc.AsyncHeld?
    case AsyncCreate => pc.AsyncPlaced?
    case AsyncRaise(_) => pc.AsyncPlaced?
    case AsyncFinish => pc.AsyncCreated?
    case AsyncRepair(_) => pc.AsyncFailed?
    case FreeRead(_) => pc.FreeHeld?
    case FreeErase => pc.FreeSafe?
    case CheckOne(_) => pc.Checking? && pc.at < |pc.copy|
    case CheckEnd => pc.Checking? && pc.at == |pc.copy|
    case PostReturns => pc.Posting?
    case PreflightFails => pc.Preflight?
    case Mark(t) => pc.Preflight? && t !in c.tokens
    case DockerStarts => pc.Marked?
    case DockerFails => pc.Docker? || pc.Marked?
    case DockerOk => pc.Docker?
    case Unmark => pc.DockerReturned?
  }

  /** The record of job k, read without its lock; an existing record may still be unreadable. */
  function ReadJob(c: Core, k: JobKey, readable: bool): Reading {
    if k in c.jobs && readable then Read(c.jobs[k]) else Unreadable
  }

  /** After create_job raised, only a missing or a terminal record gives the lease up. */
  function Repaired(c: Core, k: JobKey, copy: seq<Entry>, readable: bool): seq<Entry> {
    if k !in c.jobs then Without(copy, ForJob(k.id))
    else if !readable || |copy| == 0 then copy
    else if Terminal(c.jobs[k]) then Without(copy, ForJob(k.id))
    else copy[|copy| - 1 := Job(k)]
  }

  /** One turn of the reconciling loop; the job may move on right after it has been read. */
  function Judged(c: Core, pc: Pc, readable: bool): Pc
    requires pc.Checking? && pc.at < |pc.copy|
  {
    var e := pc.copy[pc.at];
    match FateOf(e, k => ReadJob(c, k, readable))
    case Refuse => Leaving
    case Drop => pc.(at := pc.at + 1, changed := true)
    case Keep => pc.(at := pc.at + 1, remaining := pc.remaining + [e])
  }

  ghost function ActCore(c: Core, pc: Pc, w: Work): Core
    requires MayAct(c, pc, w)
  {
    match w
    case SyncNote => c.(leases := pc.copy + [Sync(pc.token)])
    case SyncErase => c.(leases := Without(pc.copy, Random(pc.token)))
    case AsyncPlace => c.(leases := pc.copy + [Submitting(pc.job)])
    case AsyncCreate => c.(jobs := c.jobs[pc.job := Queued])
    case AsyncRaise(written) => if written then c.(jobs := c.jobs[pc.job := Queued]) else c
    case AsyncFinish => c.(leases := Without(pc.copy, ForJob(pc.job.id)) + [Job(pc.job)])
    case AsyncRepair(readable) => c.(leases := Repaired(c, pc.job, pc.copy, readable))
    case FreeErase => c.(leases := WithoutJob(pc.copy, pc.job))
    case CheckEnd => if pc.changed then c.(leases := pc.remaining) else c
    case Mark(t) => c.(leases := c.leases + [LifecycleUnknown(t)], tokens := c.tokens + {t})
    case DockerStarts => c.(pending := c.pending + {pc.token})
    case DockerOk => c.(pending := c.pending - {pc.token})
    case Unmark => c.(leases := Without(c.leases, Random(pc.token)))
    case _ => c
  }

  ghost function ActPc(c: Core, pc: Pc, w: Work): Pc
    requires MayAct(c, pc, w)
  {
    match w
    case SyncNote => SyncNoted(pc.token)
    case AsyncPlace => AsyncPlaced(pc.job, pc.copy + [Submitting(pc.job)])
    case AsyncCreate => AsyncCreated(pc.job, pc.copy)
    case AsyncRaise(_) => AsyncFailed(pc.job, pc.copy)
    case FreeRead(readable) =>
      var reading := ReadJob(c, pc.job, readable);
      if reading.Read? && Terminal(reading.status) then FreeSafe(pc.job, pc.copy) else Leaving
    case CheckOne(readable) => Judged(c, pc, readable)
    case CheckEnd => if pc.remaining != [] then Leaving else if pc.purpose.Readiness? then Posting else Preflight
    case Mark(t) => Marked(t)
    case DockerStarts => Docker(pc.token)
    case DockerOk => DockerReturned(pc.token)
    case _ => Leaving
  }

  // ----- the whole system -----

  ghost predicate Init(s: Sys) {
    s == Sys(Core([], map[], {}, {}, {}), None, map[], 0)
  }

  ghost predicate Enabled(s: Sys, step: Step) {
    match step
    case Arrive(p) => p !in s.pcs
    case Crash(p) => p in s.pcs
    case Enter(p, r) => p in s.pcs && s.lock.None? && MayEnter(s.core, s.pcs[p], r)
    case Act(p, w) => p in s.pcs && MayAct(s.core, s.pcs[p], w)
    case Unlock(p) => p in s.pcs && (s.pcs[p].Leaving? || s.pcs[p].SyncNoted?)
    case GiveUp(p) => p in s.pcs && s.pcs[p].SyncBody?
    case PostGivesUp(p) => p in s.pcs && s.pcs[p].Posting?
    case ServerEnds => s.abandoned > 0
    case JobMoves(k, st) => k in s.core.jobs && LegalEdge(s.core.jobs[k], st)
    case OperatorClears(t) => s.lock.None? && LifecycleUnknown(t) in s.core.leases
  }

  ghost function Do(s: Sys, step: Step): Sys
    requires Enabled(s, step)
  {
    match step
    case Arrive(p) => s.(pcs := s.pcs[p := Idle])
    case Crash(p) =>
      s.(pcs := s.pcs - {p}, lock := if s.lock == Some(p) then None else s.lock,
         abandoned := s.abandoned + if s.pcs[p].Posting? then 1 else 0)
    case Enter(p, r) => Sys(EnterCore(s.core, r), Some(p), s.pcs[p := EnterPc(s.core, s.pcs[p], r)], s.abandoned)
    case Act(p, w) => s.(core := ActCore(s.core, s.pcs[p], w), pcs := s.pcs[p := ActPc(s.core, s.pcs[p], w)])
    case Unlock(p) =>
      s.(lock := None, pcs := s.pcs[p := if s.pcs[p].SyncNoted? then SyncBody(s.pcs[p].token) else Idle])
    case GiveUp(p) => s.(pcs := s.pcs[p := Idle])
    case PostGivesUp(p) => s.(pcs := s.pcs[p := Leaving], abandoned := s.abandoned + 1)
    case ServerEnds => s.(abandoned := s.abandoned - 1)
    case JobMoves(k, st) => s.(core := s.core.(jobs := s.core.jobs[k := st]))
    case OperatorClears(t) =>
      s.(core := s.core.(leases := Without(s.core.leases, Random(t)), pending := s.core.pending - {t}))
  }

  ghost predicate Next(s: Sys, t: Sys) {
    exists step :: Enabled(s, step) && t == Do(s, step)
  }

  ghost predicate Behavior(run: seq<Sys>) {
    IsRun(run, Init, Next)
  }

  // ----- the invariant -----

  predicate Covered(leases: seq<Entry>, k: JobKey) {
    Job(k) in leases || Submitting(k) in leases
  }

  /** Identifiers are handed out once, and only issued ones have records. */
  ghost predicate IssuedInv(c: Core) {
    && (forall k, j :: k in c.issued && j in c.issued && k.id == j.id ==> k == j)
    && (forall k :: k in c.jobs ==> k in c.issued)
  }

  ghost predicate EntriesInv(c: Core) {
    forall e :: e in c.leases ==>
      && !e.Malformed?
      && (e.Job? ==> e.job in c.jobs)
      && (e.Job? || e.Submitting? ==> e.job in c.issued)
      && (e.Sync? || e.LifecycleUnknown? ==> e.token in c.tokens)
  }

  ghost predicate CoverInv(c: Core) {
    forall k :: k in c.jobs && !Terminal(c.jobs[k]) ==> Covered(c.leases, k)
  }

  /** A sentinel is alone in the list, and every pending command still has its own. */
  ghost predicate SentinelInv(c: Core) {
    && (forall e :: e in c.leases && e.LifecycleUnknown? ==> c.leases == [e])
    && (forall t :: t in c.pending ==> LifecycleUnknown(t) in c.leases)
  }

  /** What the persisted state satisfies at every point, crash points included. */
  ghost predicate CoreInv(c: Core) {
    IssuedInv(c) && EntriesInv(c) && CoverInv(c) && SentinelInv(c)
  }

  /** The reconciler has so far dropped only jobs that can never run again. */
  ghost predicate CheckInv(c: Core, pc: Pc)
    requires pc.Checking?
  {
    && pc.copy == c.leases && pc.at <= |pc.copy|
    && (pc.purpose.Lifecycle? ==> !Uncertain(pc.copy))
    && (forall i :: 0 <= i < pc.at ==>
          pc.copy[i] in pc.remaining
          || (pc.copy[i].Job? && pc.copy[i].job in c.jobs && Terminal(c.jobs[pc.copy[i].job])))
    && (forall e :: e in pc.remaining ==> e in pc.copy)
    && (!pc.changed ==> pc.remaining == pc.copy[..pc.at])
    && (pc.changed ==> exists e :: e in pc.copy && e.Job?)
  }

  /** What the lock holder knows; its loaded copy is still the persisted list. */
  ghost predicate HolderInv(c: Core, pc: Pc) {
    match pc
    case SyncHeld(t, copy) => copy == c.leases && !Uncertain(copy)
    case SyncNoted(t) => Sync(t) in c.leases
    case SyncLeaving(t, copy) => copy == c.leases && Sync(t) in copy
    case AsyncHeld(k, copy) => copy == c.leases && !Uncertain(copy) && k in c.issued && k !in c.jobs
    case AsyncPlaced(k, copy) => PlacedInv(c, k, copy) && k !in c.jobs
    case AsyncCreated(k, copy) => PlacedInv(c, k, copy) && k in c.jobs
    case AsyncFailed(k, copy) => PlacedInv(c, k, copy)
    case FreeHeld(k, copy) => copy == c.leases
    case FreeSafe(k, copy) => copy == c.leases && k in c.jobs && Terminal(c.jobs[k])
    case Checking(_, _, _, _, _) => CheckInv(c, pc)
    case Posting => c.leases == []
    case Preflight => c.leases == []
    case Marked(t) => c.leases == [LifecycleUnknown(t)] && t !in c.pending
    case Docker(t) => c.leases == [LifecycleUnknown(t)] && t in c.pending
    case DockerReturned(t) => c.leases == [LifecycleUnknown(t)] && t !in c.pending
    case _ => true
  }

  ghost predicate PlacedInv(c: Core, k: JobKey, copy: seq<Entry>) {
    && copy == c.leases && k in c.issued
    && |copy| > 0 && copy[|copy| - 1] == Submitting(k)
  }

  predicate HasToken(pc: Pc) {
    pc.SyncHeld? || pc.SyncNoted? || pc.SyncBody? || pc.SyncLeaving? || pc.Marked? || pc.Docker? || pc.DockerReturned?
  }

  ghost predicate Inv(s: Sys) {
    && CoreInv(s.core)
    && (s.lock.Some? ==> s.lock.value in s.pcs && Holds(s.pcs[s.lock.value]))
    && (forall p :: p in s.pcs && Holds(s.pcs[p]) ==> s.lock == Some(p))
    && (forall p :: p in s.pcs ==> HolderInv(s.core, s.pcs[p]))
    && (forall p :: p in s.pcs && s.pcs[p].SyncBody? ==> Sync(s.pcs[p].token) in s.core.leases)
    && (forall p :: p in s.pcs && HasToken(s.pcs[p]) ==> s.pcs[p].token in s.core.tokens)
    && (forall p, q :: p in s.pcs && q in s.pcs && p != q && HasToken(s.pcs[p]) && HasToken(s.pcs[q]) ==>
          s.pcs[p].token != s.pcs[q].token)
  }

  /** Entry e belongs to the process at pc: it is the one that pc put there, or may take away. */
  predicate Owns(pc: Pc, e: Entry) {
    || (HasToken(pc) && (e == Sync(pc.token) || e == LifecycleUnknown(pc.token)))
    || ((pc.AsyncHeld? || pc.AsyncPlaced? || pc.AsyncCreated? || pc.AsyncFailed? || pc.FreeHeld? || pc.FreeSafe?)
        && (e == Job(pc.job) || e == Submitting(pc.job)))
  }

  predicate FinishedJob(c: Core, e: Entry) {
    e.Job? && e.job in c.jobs && Terminal(c.jobs[e.job])
  }

  lemma EnterKeeps(c: Core, pc: Pc, r: Request)
    requires CoreInv(c) && HolderInv(c, pc) && MayEnter(c, pc, r)
    requires pc.SyncBody? ==> Sync(pc.token) in c.leases
    ensures CoreInv(EnterCore(c, r)) && HolderInv(EnterCore(c, r), EnterPc(c, pc, r))
  {
  }

  /** No step of a lock holder takes away an entry of somebody else, unless its job is finished. */
  lemma ActSparesOthers(c: Core, pc: Pc, w: Work, e: Entry)
    requires CoreInv(c) && HolderInv(c, pc) && MayAct(c, pc, w)
    requires e in c.leases && !Owns(pc, e) && !FinishedJob(c, e)
    ensures e in ActCore(c, pc, w).leases
  {
    match w
    case AsyncRepair(_) =>
      var i :| 0 <= i < |pc.copy| && pc.copy[i] == e;
      assert pc.copy[|pc.copy| - 1 := Job(pc.job)][i] == e;
    case CheckEnd =>
      var i :| 0 <= i < |pc.copy| && pc.copy[i] == e;
    case _ =>
  }

  predicate TaskWork(w: Work) {
    w.SyncNote? || w.SyncErase? || w.AsyncPlace? || w.AsyncCreate? || w.AsyncRaise? || w.AsyncFinish? || w.AsyncRepair?
  }

  predicate CheckWork(w: Work) {
    w.CheckOne? || w.CheckEnd?
  }

  lemma TaskWorkKeepsHolder(c: Core, pc: Pc, w: Work)
    requires HolderInv(c, pc) && MayAct(c, pc, w) && TaskWork(w)
    ensures HolderInv(ActCore(c, pc, w), ActPc(c, pc, w))
  {
  }

  lemma CheckOneKeepsHolder(c: Core, pc: Pc, readable: bool)
    requires HolderInv(c, pc) && MayAct(c, pc, CheckOne(readable))
    ensures HolderInv(c, Judged(c, pc, readable))
  {
    assert CheckInv(c, pc);
    var e := pc.copy[pc.at];
    assert pc.copy[..pc.at + 1] == pc.copy[..pc.at] + [e];
  }

  lemma CheckEndKeepsHolder(c: Core, pc: Pc)
    requires HolderInv(c, pc) && MayAct(c, pc, CheckEnd)
    ensures HolderInv(ActCore(c, pc, CheckEnd), ActPc(c, pc, CheckEnd))
  {
    assert CheckInv(c, pc) && pc.copy[..pc.at] == pc.copy;
  }

  lemma OtherWorkKeepsHolder(c: Core, pc: Pc, w: Work)
    requires CoreInv(c) && HolderInv(c, pc) && MayAct(c, pc, w) && !TaskWork(w) && !CheckWork(w)
    ensures HolderInv(ActCore(c, pc, w), ActPc(c, pc, w))
  {
  }

  lemma ActKeepsHolder(c: Core, pc: Pc, w: Work)
    requires CoreInv(c) && HolderInv(c, pc) && MayAct(c, pc, w)
    ensures HolderInv(ActCore(c, pc, w), ActPc(c, pc, w))
  {
    if TaskWork(w) {
      TaskWorkKeepsHolder(c, pc, w);
    } else if w.CheckOne? {
      CheckOneKeepsHolder(c, pc, w.readable);
    } else if w.CheckEnd? {
      CheckEndKeepsHolder(c, pc);
    } else {
      OtherWorkKeepsHolder(c, pc, w);
    }
  }

  lemma ActKeepsEntries(c: Core, pc: Pc, w: Work)
    requires CoreInv(c) && HolderInv(c, pc) && MayAct(c, pc, w)
    requires HasToken(pc) ==> pc.token in c.tokens
    ensures IssuedInv(ActCore(c, pc, w)) && EntriesInv(ActCore(c, pc, w))
  {
  }

  /** The holder's own job stays covered as well. */
  lemma OwnJobStaysCovered(c: Core, pc: Pc, w: Work, k: JobKey)
    requires CoreInv(c) && HolderInv(c, pc) && MayAct(c, pc, w)
    requires Owns(pc, Job(k)) && k in ActCore(c, pc, w).jobs && !Terminal(ActCore(c, pc, w).jobs[k])
    ensures Covered(ActCore(c, pc, w).leases, k)
  {
    match w
    case AsyncRepair(_) =>
      assert pc.copy[|pc.copy| - 1 := Job(k)][|pc.copy| - 1] == Job(k);
    case AsyncFinish =>
      assert (Without(pc.copy, ForJob(k.id)) + [Job(k)])[|Without(pc.copy, ForJob(k.id))|] == Job(k);
    case _ =>
  }

  lemma ActKeepsCover(c: Core, pc: Pc, w: Work)
    requires CoreInv(c) && HolderInv(c, pc) && MayAct(c, pc, w)
    ensures CoverInv(ActCore(c, pc, w))
  {
    var d := ActCore(c, pc, w);
    forall k | k in d.jobs && !Terminal(d.jobs[k])
      ensures Covered(d.leases, k)
    {
      if Owns(pc, Job(k)) {
        OwnJobStaysCovered(c, pc, w, k);
      } else {
        var e := if Job(k) in c.leases then Job(k) else Submitting(k);
        ActSparesOthers(c, pc, w, e);
      }
    }
  }

  lemma ActKeepsSentinel(c: Core, pc: Pc, w: Work)
    requires CoreInv(c) && HolderInv(c, pc) && MayAct(c, pc, w)
    ensures SentinelInv(ActCore(c, pc, w))
  {
  }

  lemma ActKeepsCore(c: Core, pc: Pc, w: Work)
    requires CoreInv(c) && HolderInv(c, pc) && MayAct(c, pc, w)
    requires HasToken(pc) ==> pc.token in c.tokens
    ensures CoreInv(ActCore(c, pc, w))
  {
    ActKeepsEntries(c, pc, w);
    ActKeepsCover(c, pc, w);
    ActKeepsSentinel(c, pc, w);
  }

  lemma EnterKeepsTokens(c: Core, pc: Pc, r: Request)
    requires MayEnter(c, pc, r) && (HasToken(pc) ==> pc.token in c.tokens)
    ensures var d, pd := EnterCore(c, r), EnterPc(c, pc, r);
            && c.tokens <= d.tokens && d.leases == c.leases && Holds(pd)
            && (HasToken(pd) ==> pd.token in d.tokens)
            && (HasToken(pd) ==> (HasToken(pc) && pd.token == pc.token) || pd.token !in c.tokens)
  {
  }

  /** A process gets the free lock: no other process holds anything. */
  lemma Entered(s: Sys, p: Pid, d: Core, pd: Pc)
    requires Inv(s) && s.lock.None? && p in s.pcs
    requires CoreInv(d) && HolderInv(d, pd) && Holds(pd)
    requires s.core.tokens <= d.tokens && d.leases == s.core.leases
    requires HasToken(pd) ==> pd.token in d.tokens
    requires HasToken(pd) ==> (HasToken(s.pcs[p]) && pd.token == s.pcs[p].token) || pd.token !in s.core.tokens
    ensures Inv(s.(core := d, lock := Some(p), pcs := s.pcs[p := pd]))
  {
    assert forall q :: q in s.pcs ==> !Holds(s.pcs[q]);
  }

  lemma EnterKeepsInv(s: Sys, p: Pid, r: Request)
    requires Inv(s) && Enabled(s, Enter(p, r))
    ensures Inv(Do(s, Enter(p, r)))
  {
    EnterKeeps(s.core, s.pcs[p], r);
    EnterKeepsTokens(s.core, s.pcs[p], r);
    Entered(s, p, EnterCore(s.core, r), EnterPc(s.core, s.pcs[p], r));
  }

  lemma ActKeepsTokens(c: Core, pc: Pc, w: Work)
    requires MayAct(c, pc, w) && (HasToken(pc) ==> pc.token in c.tokens)
    ensures var d, pd := ActCore(c, pc, w), ActPc(c, pc, w);
            && c.tokens <= d.tokens && Holds(pd)
            && (HasToken(pd) ==> pd.token in d.tokens)
            && (HasToken(pd) ==> (HasToken(pc) && pd.token == pc.token) || pd.token !in c.tokens)
  {
  }

  /** Replacing the holder's program counter and the core by ones that fit each other keeps the rest. */
  lemma HolderMoves(s: Sys, p: Pid, d: Core, pd: Pc)
    requires Inv(s) && s.lock == Some(p)
    requires CoreInv(d) && HolderInv(d, pd) && Holds(pd)
    requires s.core.tokens <= d.tokens
    requires HasToken(pd) ==> pd.token in d.tokens
    requires HasToken(pd) ==> (HasToken(s.pcs[p]) && pd.token == s.pcs[p].token) || pd.token !in s.core.tokens
    requires forall q :: q in s.pcs && s.pcs[q].SyncBody? ==> Sync(s.pcs[q].token) in d.leases
    ensures Inv(s.(core := d, pcs := s.pcs[p := pd]))
  {
  }

  lemma ActKeepsInv(s: Sys, p: Pid, w: Work)
    requires Inv(s) && Enabled(s, Act(p, w))
    ensures Inv(Do(s, Act(p, w)))
  {
    var c, pc := s.core, s.pcs[p];
    ActKeepsCore(c, pc, w);
    ActKeepsHolder(c, pc, w);
    ActKeepsTokens(c, pc, w);
    forall q | q in s.pcs && s.pcs[q].SyncBody?
      ensures Sync(s.pcs[q].token) in ActCore(c, pc, w).leases
    {
      ActSparesOthers(c, pc, w, Sync(s.pcs[q].token));
    }
    HolderMoves(s, p, ActCore(c, pc, w), ActPc(c, pc, w));
  }

  /** What a lock holder knows stays true when some other job moves on. */
  lemma HolderSurvivesMove(c: Core, pc: Pc, k: JobKey, st: Status)
    requires HolderInv(c, pc) && k in c.jobs && LegalEdge(c.jobs[k], st)
    ensures HolderInv(c.(jobs := c.jobs[k := st]), pc)
  {
  }

  lemma MoveKeepsInv(s: Sys, k: JobKey, st: Status)
    requires Inv(s) && Enabled(s, JobMoves(k, st))
    ensures Inv(Do(s, JobMoves(k, st)))
  {
    var t := Do(s, JobMoves(k, st));
    forall p | p in t.pcs ensures HolderInv(t.core, t.pcs[p]) {
      HolderSurvivesMove(s.core, s.pcs[p], k, st);
    }
    assert CoreInv(t.core);
  }

  lemma ClearingKeepsCore(c: Core, token: nat)
    requires CoreInv(c) && LifecycleUnknown(token) in c.leases
    ensures var d := c.(leases := Without(c.leases, Random(token)), pending := c.pending - {token});
            CoreInv(d) && d.leases == []
  {
    assert c.leases == [LifecycleUnknown(token)];
    assert forall t :: t in c.pending ==> LifecycleUnknown(t) in c.leases;
  }

  /** An operator edits only while no process holds the lock. */
  lemma OperatorKeepsInv(s: Sys, token: nat)
    requires Inv(s) && Enabled(s, OperatorClears(token))
    ensures Inv(Do(s, OperatorClears(token)))
  {
    var t := Do(s, OperatorClears(token));
    ClearingKeepsCore(s.core, token);
    assert s.core.leases == [LifecycleUnknown(token)];
    forall p | p in t.pcs ensures t.pcs[p].Idle? {
      assert !Holds(s.pcs[p]);
    }
  }

  lemma CrashKeepsInv(s: Sys, p: Pid)
    requires Inv(s) && Enabled(s, Crash(p))
    ensures Inv(Do(s, Crash(p)))
  {
    var t := Do(s, Crash(p));
    assert forall q :: q in t.pcs ==> q in s.pcs && q != p && t.pcs[q] == s.pcs[q];
  }

  /** The holder lets go; what it goes back to holds nothing. */
  lemma Unlocked(s: Sys, p: Pid, pc: Pc)
    requires Inv(s) && s.lock == Some(p) && (pc.Idle? || (pc.SyncBody? && s.pcs[p] == SyncNoted(pc.token)))
    ensures Inv(s.(lock := None, pcs := s.pcs[p := pc]))
  {
    assert forall q :: q in s.pcs && q != p ==> !Holds(s.pcs[q]);
  }

  lemma UnlockKeepsInv(s: Sys, p: Pid)
    requires Inv(s) && Enabled(s, Unlock(p))
    ensures Inv(Do(s, Unlock(p)))
  {
    Unlocked(s, p, if s.pcs[p].SyncNoted? then SyncBody(s.pcs[p].token) else Idle);
  }

  lemma IdleKeepsInv(s: Sys, p: Pid)
    requires Inv(s) && (p in s.pcs ==> !Holds(s.pcs[p]))
    ensures Inv(s.(pcs := s.pcs[p := Idle]))
  {
  }

  lemma StepKeepsInv(s: Sys, step: Step)
    requires Inv(s) && Enabled(s, step)
    ensures Inv(Do(s, step))
  {
    match step
    case Enter(p, r) => EnterKeepsInv(s, p, r);
    case Act(p, w) => ActKeepsInv(s, p, w);
    case JobMoves(k, st) => MoveKeepsInv(s, k, st);
    case OperatorClears(token) => OperatorKeepsInv(s, token);
    case Crash(p) => CrashKeepsInv(s, p);
    case Unlock(p) => UnlockKeepsInv(s, p);
    case Arrive(p) => IdleKeepsInv(s, p);
    case GiveUp(p) => IdleKeepsInv(s, p);
    case PostGivesUp(p) => HolderMoves(s, p, s.core, Leaving);
    case ServerEnds =>
  }

  lemma NextKeepsInv(s: Sys, t: Sys)
    requires Inv(s) && Next(s, t)
    ensures Inv(t)
  {
    var step :| Enabled(s, step) && t == Do(s, step);
    StepKeepsInv(s, step);
  }

  lemma Reachable(run: seq<Sys>, i: nat)
    requires Behavior(run) && i < |run|
    ensures Inv(run[i])
  {
    forall s, t | Inv(s) && Next(s, t) ensures Inv(t) {
      NextKeepsInv(s, t);
    }
    Keeps(run, Init, Next, Inv, i);
  }

  // ----- what every run guarantees -----

  ghost predicate NoTaskActive(s: Sys) {
    && (forall p :: p in s.pcs ==> !s.pcs[p].SyncBody?)
    && (forall k :: k in s.core.jobs ==> Terminal(s.core.jobs[k]))
  }

  /**
   Neither a Docker lifecycle command, not even one that the daemon may still be applying after
   its client failed or died, nor a readiness request of a live process ever overlaps a running task
   body or a reserved job that is not terminal; and such a request never overlaps such a command. With
   requests that outlive their clients, OverlapIffAbandoned is the exact boundary.
  */
  lemma NoOverlap(run: seq<Sys>, i: nat)
    requires Behavior(run) && i < |run|
    ensures run[i].core.pending != {} ==> NoTaskActive(run[i])
    ensures (exists p :: p in run[i].pcs && (run[i].pcs[p].Docker? || run[i].pcs[p].Posting?)) ==> NoTaskActive(run[i])
    ensures forall p :: p in run[i].pcs && run[i].pcs[p].Posting? ==> run[i].core.pending == {}
    ensures forall p :: p in run[i].pcs && run[i].pcs[p].Docker? ==> run[i].core.pending == {run[i].pcs[p].token}
  {
    Reachable(run, i);
    var c := run[i].core;
    forall t, u | t in c.pending && u in c.pending ensures t == u {
      assert LifecycleUnknown(t) in c.leases && LifecycleUnknown(u) in c.leases;
    }
    if t :| t in c.pending {
      assert LifecycleUnknown(t) in c.leases;
      assert forall k :: Job(k) !in c.leases && Submitting(k) !in c.leases;
    }
  }

  /** Somebody depends on the service: a task body runs, a reserved job is not terminal, or a command is pending. */
  ghost predicate Occupied(s: Sys) {
    !NoTaskActive(s) || s.core.pending != {}
  }

  /** The server works on a readiness request, whether or not its client is still there. */
  ghost predicate RequestInService(s: Sys) {
    s.abandoned > 0 || exists p :: p in s.pcs && s.pcs[p].Posting?
  }

  /**
   While the service is occupied, a readiness request is in service exactly if some request was abandoned
   and has not ended.
  */
  lemma OverlapIffAbandoned(run: seq<Sys>, i: nat)
    requires Behavior(run) && i < |run| && Occupied(run[i])
    ensures RequestInService(run[i]) <==> run[i].abandoned > 0
  {
    NoOverlap(run, i);
  }

  /** Lease cover: at every point, each job that is not terminal is covered by a lease. */
  lemma LeaseCover(run: seq<Sys>, i: nat, k: JobKey)
    requires Behavior(run) && i < |run| && k in run[i].core.jobs && !Terminal(run[i].core.jobs[k])
    ensures Covered(run[i].core.leases, k)
  {
    Reachable(run, i);
  }

  /** An entry disappears only by its owner's own step, for a finished job, or by the operator. */
  lemma EntriesOfOthersStay(s: Sys, step: Step, e: Entry)
    requires Inv(s) && Enabled(s, step)
    requires e in s.core.leases && e !in Do(s, step).core.leases
    ensures || FinishedJob(s.core, e)
            || (step.Act? && Owns(s.pcs[step.p], e))
            || (step.OperatorClears? && e == LifecycleUnknown(step.token))
  {
    if step.Act? && !FinishedJob(s.core, e) && !Owns(s.pcs[step.p], e) {
      ActSparesOthers(s.core, s.pcs[step.p], step.work, e);
    }
  }

  lemma ActLeavesJobs(c: Core, pc: Pc, w: Work, k: JobKey)
    requires HolderInv(c, pc) && MayAct(c, pc, w) && k in c.jobs
    ensures k in ActCore(c, pc, w).jobs && ActCore(c, pc, w).jobs[k] == c.jobs[k]
  {
  }

  ghost predicate Finished(s: Sys, k: JobKey, st: Status) {
    k in s.core.jobs && s.core.jobs[k] == st && Terminal(st)
  }

  lemma FinishedDo(s: Sys, step: Step, k: JobKey, st: Status)
    requires Inv(s) && Enabled(s, step) && Finished(s, k, st)
    ensures Finished(Do(s, step), k, st)
  {
    if step.Act? {
      ActLeavesJobs(s.core, s.pcs[step.p], step.work, k);
    }
  }

  lemma FinishedStep(s: Sys, t: Sys, k: JobKey, st: Status)
    requires Inv(s) && Next(s, t) && Finished(s, k, st)
    ensures Finished(t, k, st)
  {
    var step :| Enabled(s, step) && t == Do(s, step);
    FinishedDo(s, step, k, st);
  }

  lemma FinishedNext(run: seq<Sys>, i: nat, k: JobKey, st: Status)
    requires Behavior(run) && i + 1 < |run| && Finished(run[i], k, st)
    ensures Finished(run[i + 1], k, st)
  {
    Reachable(run, i);
    assert Follows(run, Next, i);
    FinishedStep(run[i], run[i + 1], k, st);
  }

  /** A job whose entry reconciliation dropped is terminal in every later state. */
  lemma {:induction false} FinishedStaysFinished(run: seq<Sys>, i: nat, j: nat, k: JobKey, st: Status)
    requires Behavior(run) && i <= j < |run| && Finished(run[i], k, st)
    ensures Finished(run[j], k, st)
  {
    if i == j {
    } else {
      FinishedStaysFinished(run, i, j - 1, k, st);
      FinishedNext(run, j - 1, k, st);
    }
  }

  /** A job that loses its lease and has no other entry is terminal on record, then and in every later state. */
  lemma DroppedJobIsTerminal(run: seq<Sys>, i: nat, j: nat, k: JobKey)
    requires Behavior(run) && i < j < |run|
    requires Job(k) in run[i].core.leases && !Covered(run[i + 1].core.leases, k)
    ensures k in run[j].core.jobs && Terminal(run[j].core.jobs[k])
  {
    Reachable(run, i);
    JobsStay(run, i, k);
    if !Terminal(run[i + 1].core.jobs[k]) {
      LeaseCover(run, i + 1, k);
    }
    FinishedStaysFinished(run, i + 1, j, k, run[i + 1].core.jobs[k]);
  }

  lemma JobsStay(run: seq<Sys>, i: nat, k: JobKey)
    requires Behavior(run) && i + 1 < |run| && k in run[i].core.jobs
    ensures k in run[i + 1].core.jobs
  {
    Reachable(run, i);
    assert Follows(run, Next, i);
    JobStaysNext(run[i], run[i + 1], k);
  }

  lemma JobStaysNext(s: Sys, t: Sys, k: JobKey)
    requires Inv(s) && Next(s, t) && k in s.core.jobs
    ensures k in t.core.jobs
  {
    var step :| Enabled(s, step) && t == Do(s, step);
    if step.Act? {
      ActLeavesJobs(s.core, s.pcs[step.p], step.work, k);
    }
  }

  // ----- the fail-closed sentinel -----

  /** The sentinel of a lifecycle command that no live process will ever clear. */
  ghost predicate Orphaned(s: Sys, t: nat) {
    && LifecycleUnknown(t) in s.core.leases
    && forall p :: p in s.pcs && HasToken(s.pcs[p]) ==> s.pcs[p].token != t
  }

  /** A command that fails, or whose process dies once the sentinel is written, leaves an orphan. */
  lemma FailureLeavesOrphan(s: Sys, p: Pid, step: Step)
    requires Inv(s) && p in s.pcs && (s.pcs[p].Marked? || s.pcs[p].Docker? || s.pcs[p].DockerReturned?)
    requires step == Crash(p) || step == Act(p, DockerFails)
    requires Enabled(s, step)
    ensures Orphaned(Do(s, step), s.pcs[p].token)
  {
  }

  /** Nothing that would touch the managed service is under way. */
  ghost predicate Quiet(s: Sys) {
    forall p :: p in s.pcs ==>
      var pc := s.pcs[p];
      !pc.SyncBody? && !pc.Posting? && !pc.Preflight? && !pc.Marked? && !pc.Docker?
  }

  /** Next to an orphan, a lock holder can only look and leave. */
  lemma OnlyLookersHold(s: Sys, p: Pid, t: nat)
    requires Inv(s) && Orphaned(s, t) && p in s.pcs && Holds(s.pcs[p])
    ensures var pc := s.pcs[p]; pc.Checking? || pc.FreeHeld? || pc.FreeSafe? || pc.Leaving?
  {
    assert s.core.leases == [LifecycleUnknown(t)];
  }

  lemma LookersChangeNoJob(c: Core, pc: Pc, w: Work)
    requires MayAct(c, pc, w) && (pc.Checking? || pc.FreeHeld? || pc.FreeSafe? || pc.Leaving?)
    ensures ActCore(c, pc, w).jobs == c.jobs && ActCore(c, pc, w).issued == c.issued
    ensures !HasToken(ActPc(c, pc, w))
  {
  }

  lemma OrphanStaysAct(s: Sys, p: Pid, w: Work, t: nat)
    requires Inv(s) && Orphaned(s, t) && Enabled(s, Act(p, w))
    ensures Orphaned(Do(s, Act(p, w)), t)
    ensures Do(s, Act(p, w)).core.jobs == s.core.jobs && Do(s, Act(p, w)).core.issued == s.core.issued
  {
    OnlyLookersHold(s, p, t);
    ActSparesOthers(s.core, s.pcs[p], w, LifecycleUnknown(t));
    LookersChangeNoJob(s.core, s.pcs[p], w);
  }

  lemma OrphanStaysEnter(s: Sys, p: Pid, r: Request, t: nat)
    requires Inv(s) && Orphaned(s, t) && Enabled(s, Enter(p, r))
    ensures Orphaned(Do(s, Enter(p, r)), t)
    ensures Do(s, Enter(p, r)).core.jobs == s.core.jobs && Do(s, Enter(p, r)).core.issued == s.core.issued
  {
    assert Uncertain(s.core.leases) && t in s.core.tokens;
  }

  lemma OrphanStays(s: Sys, step: Step, t: nat)
    requires Inv(s) && Orphaned(s, t) && Enabled(s, step) && !step.OperatorClears?
    ensures Orphaned(Do(s, step), t)
    ensures Do(s, step).core.jobs.Keys == s.core.jobs.Keys && Do(s, step).core.issued == s.core.issued
  {
    match step
    case Act(p, w) => OrphanStaysAct(s, p, w, t);
    case Enter(p, r) => OrphanStaysEnter(s, p, r, t);
    case _ =>
  }

  ghost predicate NextUnattended(s: Sys, t: Sys) {
    exists step :: Enabled(s, step) && !step.OperatorClears? && t == Do(s, step)
  }

  ghost predicate UnattendedAt(run: seq<Sys>, k: nat)
    requires k + 1 < |run|
  {
    NextUnattended(run[k], run[k + 1])
  }

  lemma OrphanNext(run: seq<Sys>, i: nat, t: nat)
    requires Behavior(run) && i + 1 < |run| && Orphaned(run[i], t) && UnattendedAt(run, i)
    ensures Orphaned(run[i + 1], t)
    ensures run[i + 1].core.issued == run[i].core.issued && run[i + 1].core.jobs.Keys == run[i].core.jobs.Keys
  {
    Reachable(run, i);
    OrphanStaysNext(run[i], run[i + 1], t);
  }

  lemma OrphanedIsQuiet(s: Sys, t: nat)
    requires Inv(s) && Orphaned(s, t)
    ensures Quiet(s)
  {
    assert s.core.leases == [LifecycleUnknown(t)];
  }

  /**
   Fail closed: from an orphaned sentinel on, as long as no operator steps in, no task body,
   readiness request or lifecycle command runs and no job is reserved or created.
  */
  lemma {:induction false} FailClosed(run: seq<Sys>, i: nat, j: nat, t: nat)
    requires Behavior(run) && i <= j < |run| && Orphaned(run[i], t)
    requires forall k :: i <= k < j ==> UnattendedAt(run, k)
    ensures Orphaned(run[j], t) && Quiet(run[j])
    ensures run[j].core.issued == run[i].core.issued && run[j].core.jobs.Keys == run[i].core.jobs.Keys
  {
    if i == j {
    } else {
      FailClosed(run, i, j - 1, t);
      OrphanNext(run, j - 1, t);
    }
    Reachable(run, j);
    OrphanedIsQuiet(run[j], t);
  }

  lemma OrphanStaysNext(s: Sys, u: Sys, t: nat)
    requires Inv(s) && Orphaned(s, t) && NextUnattended(s, u)
    ensures Orphaned(u, t) && u.core.jobs.Keys == s.core.jobs.Keys && u.core.issued == s.core.issued
  {
    var step :| Enabled(s, step) && !step.OperatorClears? && u == Do(s, step);
    OrphanStays(s, step, t);
  }

  // ----- what the steps amount to when nobody intervenes -----

  /** All records readable and at rest. */
  function Readings(c: Core): JobKey -> Reading {
    k => ReadJob(c, k, true)
  }

  /** The reconciling loop run to its end. */
  function JudgeAll(c: Core, pc: Pc): Pc
    requires pc.Checking? && pc.at <= |pc.copy|
    decreases |pc.copy| - pc.at
  {
    if pc.at == |pc.copy| then pc
    else
      var next := Judged(c, pc, true);
      if next.Checking? then JudgeAll(c, next) else next
  }

  /** The stepwise loop computes what Leases.Reconciled says, or leaves if that refuses. */
  lemma {:induction false} JudgingIsReconciling(c: Core, pc: Pc)
    requires pc.Checking? && pc.at <= |pc.copy|
    requires Reconciled(pc.copy[..pc.at], Readings(c)) == Some(pc.remaining)
    ensures var all, end := Reconciled(pc.copy, Readings(c)), JudgeAll(c, pc);
            && (all.None? ==> end.Leaving?)
            && (all.Some? ==> end.Checking? && end.copy == pc.copy && end.at == |pc.copy| && end.remaining == all.value)
    decreases |pc.copy| - pc.at
  {
    if pc.at == |pc.copy| {
      assert pc.copy[..pc.at] == pc.copy;
    } else {
      ReconciledNext(pc.copy, pc.at, Readings(c));
      assert FateOf(pc.copy[pc.at], Readings(c)) == FateOf(pc.copy[pc.at], k => ReadJob(c, k, true));
      var next := Judged(c, pc, true);
      if next.Checking? {
        JudgingIsReconciling(c, next);
      }
    }
  }

  /** Taking the lock and reserving in one go has the effect that Leases.ReserveAsync states. */
  lemma ReservingInOneGo(c: Core, k: JobKey)
    requires MayEnter(c, Idle, ToReserve(k))
    ensures var c0, p0 := EnterCore(c, ToReserve(k)), EnterPc(c, Idle, ToReserve(k));
            var c1, p1 := ActCore(c0, p0, AsyncPlace), ActPc(c0, p0, AsyncPlace);
            var c2, p2 := ActCore(c1, p1, AsyncCreate), ActPc(c1, p1, AsyncCreate);
            var c3 := ActCore(c2, p2, AsyncFinish);
            && c1.leases == c.leases + [Submitting(k)]
            && c3.leases == Without(c.leases, ForJob(k.id)) + [Job(k)] && c3.jobs == c.jobs[k := Queued]
  {
    WithoutAppended(c.leases, Submitting(k));
  }

  /** A synchronous task: its entry is appended, and later taken out of whatever the list then is. */
  lemma TaskInOneGo(c: Core, token: nat, d: Core)
    requires MayEnter(c, Idle, ToSync(token))
    ensures var c0, p0 := EnterCore(c, ToSync(token)), EnterPc(c, Idle, ToSync(token));
            && ActCore(c0, p0, SyncNote).leases == c.leases + [Sync(token)]
            && ActPc(c0, p0, SyncNote) == SyncNoted(token)
    ensures MayEnter(d, SyncBody(token), ToLeaveSync)
    ensures var p0 := EnterPc(d, SyncBody(token), ToLeaveSync);
            && MayAct(d, p0, SyncErase)
            && ActCore(d, p0, SyncErase) == d.(leases := Without(d.leases, Random(token)))
            && ActPc(d, p0, SyncErase) == Leaving
  {
  }

  /** Releasing a job: its lease goes exactly if its record can be read and is terminal. */
  lemma ReleaseInOneGo(c: Core, k: JobKey, readable: bool)
    requires MayEnter(c, Idle, ToFree(k))
    ensures var p0 := EnterPc(c, Idle, ToFree(k));
            && MayAct(c, p0, FreeRead(readable))
            && var p1 := ActPc(c, p0, FreeRead(readable));
               if k in c.jobs && readable && c.jobs[k] in {Completed, Failed, Cancelled} then
                 && MayAct(c, p1, FreeErase)
                 && ActCore(c, p1, FreeErase) == c.(leases := WithoutJob(c.leases, k))
               else p1 == Leaving
  {
  }

  /** A check that found nothing lets a readiness request go out, or a lifecycle command get ready. */
  lemma CheckInOneGo(c: Core, purpose: Purpose)
    requires c.leases == []
    ensures MayEnter(c, Idle, ToCheck(purpose))
    ensures var p0 := EnterPc(c, Idle, ToCheck(purpose));
            && MayAct(c, p0, CheckEnd) && ActCore(c, p0, CheckEnd) == c
            && ActPc(c, p0, CheckEnd) == if purpose.Readiness? then Posting else Preflight
  {
  }

  /** From there a lifecycle command is started behind its sentinel. */
  lemma CommandStarts(c: Core, token: nat)
    requires c.leases == [] && token !in c.tokens
    ensures var marked := ActCore(c, Preflight, Mark(token));
            && MayAct(c, Preflight, Mark(token)) && marked.leases == [LifecycleUnknown(token)]
            && ActPc(c, Preflight, Mark(token)) == Marked(token)
            && ActCore(marked, Marked(token), DockerStarts) == marked.(pending := c.pending + {token})
            && ActPc(marked, Marked(token), DockerStarts) == Docker(token)
  {
    assert [] + [LifecycleUnknown(token)] == [LifecycleUnknown(token)];
  }

  /** The sentinel goes exactly if the command returns cleanly. */
  lemma CommandReturns(c: Core, token: nat)
    requires c.leases == [LifecycleUnknown(token)]
    ensures ActCore(c, Docker(token), DockerFails) == c && ActPc(c, Docker(token), DockerFails) == Leaving
    ensures var returned := ActCore(c, Docker(token), DockerOk);
            && returned == c.(pending := c.pending - {token})
            && ActPc(c, Docker(token), DockerOk) == DockerReturned(token)
            && ActCore(returned, DockerReturned(token), Unmark) == returned.(leases := [])
            && ActPc(returned, DockerReturned(token), Unmark) == Leaving
  {
    WithoutAppended([], LifecycleUnknown(token));
    assert [] + c.leases == c.leases;
  }

  /** What a failed creation leaves: no lease without a record or for an ended job, and cover in all other cases. */
  lemma RepairCovers(c: Core, k: JobKey, before: seq<Entry>, readable: bool)
    ensures var after := Repaired(c, k, before + [Submitting(k)], readable);
            && (k !in c.jobs || (readable && c.jobs[k] in {Completed, Failed, Cancelled}) ==>
                  after == Without(before, ForJob(k.id)))
            && (k in c.jobs && !readable ==> after == before + [Submitting(k)])
            && (k in c.jobs && readable && c.jobs[k] in {Queued, Running} ==> after == before + [Job(k)])
  {
    WithoutAppended(before, Submitting(k));
  }

  /** A creation that raises has written the record or not; the entry stays until it is repaired. */
  lemma RaisingInOneGo(c: Core, k: JobKey, written: bool, readable: bool)
    requires MayEnter(c, Idle, ToReserve(k))
    ensures var c0, p0 := EnterCore(c, ToReserve(k)), EnterPc(c, Idle, ToReserve(k));
            var c1, p1 := ActCore(c0, p0, AsyncPlace), ActPc(c0, p0, AsyncPlace);
            && MayAct(c1, p1, AsyncRaise(written))
            && var c2 := ActCore(c1, p1, AsyncRaise(written));
               && c2.leases == c.leases + [Submitting(k)]
               && c2.jobs == (if written then c.jobs[k := Queued] else c.jobs)
               && var p2 := ActPc(c1, p1, AsyncRaise(written));
                  && MayAct(c2, p2, AsyncRepair(readable)) && ActPc(c2, p2, AsyncRepair(readable)) == Leaving
                  && ActCore(c2, p2, AsyncRepair(readable)) ==
                     c2.(leases := Repaired(c2, k, c.leases + [Submitting(k)], readable))
  {
  }

  /** What may happen at any time beside the holder, and what it changes. */
  lemma OutsideMoves(s: Sys, p: Pid, k: JobKey, status: Status, token: nat)
    ensures p in s.pcs && s.pcs[p].SyncBody? ==>
              Enabled(s, GiveUp(p)) && Do(s, GiveUp(p)) == s.(pcs := s.pcs[p := Idle])
    ensures p in s.pcs && s.pcs[p].Posting? ==> Enabled(s, PostGivesUp(p))
    ensures p in s.pcs ==> Enabled(s, Crash(p))
    ensures s.abandoned > 0 <==> Enabled(s, ServerEnds)
    ensures Enabled(s, JobMoves(k, status)) <==> k in s.core.jobs && LegalEdge(s.core.jobs[k], status)
    ensures k in s.core.jobs && LegalEdge(s.core.jobs[k], status) ==>
              Do(s, JobMoves(k, status)) == s.(core := s.core.(jobs := s.core.jobs[k := status]))
    ensures Enabled(s, OperatorClears(token)) <==> s.lock.None? && LifecycleUnknown(token) in s.core.leases
  {
  }

  /** Abandoned requests are those whose client died or gave up, until the server ends them. */
  lemma AbandonedCounts(s: Sys, step: Step)
    requires Enabled(s, step)
    ensures var left := (step.Crash? || step.PostGivesUp?) && s.pcs[step.p].Posting?;
            Do(s, step).abandoned ==
              s.abandoned + (if left then 1 else 0) - (if step.ServerEnds? then 1 else 0)
    ensures step.PostGivesUp? ==> Do(s, step).pcs == s.pcs[step.p := Leaving] && Do(s, step).lock == s.lock
  {
  }

  /** A crash takes the process and its lock; list, jobs and pending commands stay as they are. */
  lemma CrashLeaves(s: Sys, p: Pid)
    requires Enabled(s, Crash(p))
    ensures var t := Do(s, Crash(p));
            t.core == s.core && t.pcs == s.pcs - {p} && t.lock == if s.lock == Some(p) then None else s.lock
  {
  }

  /** Who is admitted: idle processes, by what the list holds and which identifiers were handed out. */
  lemma AdmittedIff(c: Core, pc: Pc)
    ensures var certain := forall e :: e in c.leases ==> !e.LifecycleUnknown?;
            && (forall t :: MayEnter(c, pc, ToSync(t)) <==> pc.Idle? && certain && t !in c.tokens)
            && (forall k :: MayEnter(c, pc, ToReserve(k)) <==>
                              pc.Idle? && certain && forall j :: j in c.issued ==> j.id != k.id)
            && (forall k :: MayEnter(c, pc, ToFree(k)) <==> pc.Idle? && Job(k) in c.leases)
            && (MayEnter(c, pc, ToCheck(Readiness)) <==> pc.Idle?)
            && (MayEnter(c, pc, ToCheck(Lifecycle)) <==> pc.Idle? && certain)
            && (MayEnter(c, pc, ToLeaveSync) <==> pc.SyncBody?)
  {
  }

  /** How many steps a holder of the lock still has before it, at most. */
  function StepsLeft(pc: Pc): nat {
    match pc
    case Checking(_, copy, at, _, _) => if at <= |copy| then |copy| - at + 7 else 0
    case Preflight => 6
    case Marked(_) => 5
    case Docker(_) => 4
    case DockerReturned(_) => 3
    case AsyncHeld(_, _) => 5
    case AsyncPlaced(_, _) => 4
    case AsyncCreated(_, _) => 3
    case AsyncFailed(_, _) => 3
    case FreeHeld(_, _) => 4
    case FreeSafe(_, _) => 3
    case SyncHeld(_, _) => 3
    case SyncLeaving(_, _) => 3
    case Posting => 3
    case _ => 2
  }

  /** Every step of a holder brings it closer to the release of the lock. */
  lemma HoldersFinish(c: Core, pc: Pc, w: Work)
    requires MayAct(c, pc, w)
    ensures StepsLeft(ActPc(c, pc, w)) < StepsLeft(pc)
  {
  }

  /** Until then there is such a step, whatever the holder meets. */
  lemma HoldersGoOn(c: Core, pc: Pc, readable: bool, written: bool)
    ensures pc.SyncHeld? ==> MayAct(c, pc, SyncNote)
    ensures pc.SyncLeaving? ==> MayAct(c, pc, SyncErase)
    ensures pc.AsyncHeld? ==> MayAct(c, pc, AsyncPlace)
    ensures pc.AsyncPlaced? ==> MayAct(c, pc, AsyncCreate) && MayAct(c, pc, AsyncRaise(written))
    ensures pc.AsyncCreated? ==> MayAct(c, pc, AsyncFinish)
    ensures pc.AsyncFailed? ==> MayAct(c, pc, AsyncRepair(readable))
    ensures pc.FreeHeld? ==> MayAct(c, pc, FreeRead(readable))
    ensures pc.FreeSafe? ==> MayAct(c, pc, FreeErase)
    ensures pc.Checking? && pc.at <= |pc.copy| ==> MayAct(c, pc, CheckOne(readable)) || MayAct(c, pc, CheckEnd)
    ensures pc.Posting? ==> MayAct(c, pc, PostReturns)
    ensures pc.Preflight? ==> MayAct(c, pc, PreflightFails)
    ensures pc.Marked? ==> MayAct(c, pc, DockerStarts)
    ensures pc.Docker? ==> MayAct(c, pc, DockerOk) && MayAct(c, pc, DockerFails)
    ensures pc.DockerReturned? ==> MayAct(c, pc, Unmark)
  {
  }

  // ----- the protocol is not idle -----

  lemma Extended(run: seq<Sys>, step: Step) returns (longer: seq<Sys>)
    requires Behavior(run) && Enabled(run[|run| - 1], step)
    ensures Behavior(longer) && longer == run + [Do(run[|run| - 1], step)]
  {
    longer := run + [Do(run[|run| - 1], step)];
    Runs.Extended(run, Init, Next, Do(run[|run| - 1], step));
  }

  /** Some run reaches a Docker command. */
  lemma LifecycleCommandsHappen() returns (run: seq<Sys>)
    ensures Behavior(run) && run[|run| - 1].pcs == map[0 := Docker(0)]
  {
    run := Extended([Sys(Core([], map[], {}, {}, {}), None, map[], 0)], Arrive(0));
    run := Extended(run, Enter(0, ToCheck(Lifecycle)));
    run := Extended(run, Act(0, CheckEnd));
    run := Extended(run, Act(0, Mark(0)));
    run := Extended(run, Act(0, DockerStarts));
  }

  /** Some run has a job and a task body under way together. */
  lemma TasksHappen(k: JobKey) returns (run: seq<Sys>)
    ensures Behavior(run) && run[|run| - 1].pcs == map[0 := SyncBody(0), 1 := Leaving]
    ensures run[|run| - 1].core.jobs == map[k := Queued] && run[|run| - 1].core.leases == [Sync(0), Job(k)]
  {
    run := TaskAndReservation(k);
    run := Extended(run, Act(1, AsyncCreate));
    run := Extended(run, Act(1, AsyncFinish));
    assert Without([Sync(0), Submitting(k)], ForJob(k.id)) == [Sync(0)] by {
      assert [Sync(0), Submitting(k)][1..] == [Submitting(k)] && [Submitting(k)][1..] == [];
    }
  }

  /** A readiness request whose process dies; nothing on disk tells of it. */
  lemma RequestIsAbandoned() returns (run: seq<Sys>)
    ensures Behavior(run) && run[|run| - 1] == Sys(Core([], map[], {}, {}, {}), None, map[], 1)
  {
    run := Extended([Sys(Core([], map[], {}, {}, {}), None, map[], 0)], Arrive(0));
    run := Extended(run, Enter(0, ToCheck(Readiness)));
    run := Extended(run, Act(0, CheckEnd));
    run := Extended(run, Crash(0));
    assert map[0 := Posting] - {0} == map[];
  }

  /** The overlap is reachable: a task is admitted and runs while the server works on the abandoned request. */
  lemma AbandonedRequestOverlaps() returns (run: seq<Sys>)
    ensures Behavior(run)
    ensures run[|run| - 1].pcs == map[1 := SyncBody(0)] && Occupied(run[|run| - 1]) && RequestInService(run[|run| - 1])
  {
    run := RequestIsAbandoned();
    run := Extended(run, Arrive(1));
    run := Extended(run, Enter(1, ToSync(0)));
    run := Extended(run, Act(1, SyncNote));
    run := Extended(run, Unlock(1));
  }

  lemma TaskAndReservation(k: JobKey) returns (tasks: seq<Sys>)
    ensures Behavior(tasks)
    ensures tasks[|tasks| - 1] == Sys(Core([Sync(0), Submitting(k)], map[], {k}, {0}, {}), Some(1),
                                      map[0 := SyncBody(0), 1 := AsyncPlaced(k, [Sync(0), Submitting(k)])], 0)
  {
    tasks := Extended([Sys(Core([], map[], {}, {}, {}), None, map[], 0)], Arrive(0));
    tasks := Extended(tasks, Enter(0, ToSync(0)));
    tasks := Extended(tasks, Act(0, SyncNote));
    tasks := Extended(tasks, Unlock(0));
    tasks := Extended(tasks, Arrive(1));
    tasks := Extended(tasks, Enter(1, ToReserve(k)));
    tasks := Extended(tasks, Act(1, AsyncPlace));
    assert [] + [Sync(0)] + [Submitting(k)] == [Sync(0), Submitting(k)];
  }
}
