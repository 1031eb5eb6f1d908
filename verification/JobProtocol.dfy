/**
 One job record shared by any number of operating-system processes. A locked mutation is
 split into taking the lock, reading, replacing the file and releasing; recovery adds an
 unlocked read and a liveness probe before that. A process may exit at any point, and the
 operating system then frees its lock.
*/
module JobProtocol {
  import opened Runs
  import opened Wrappers
  import opened Jobs

  /** A process: its PID and start instant. The pair never comes back after an exit. */
  datatype Ident = Ident(pid: int, start: int)

  datatype Pc =
    | Idle
    | Snapped(snapshot: JobRecord)
    | Waiting(m: Mutation)
    | Locked(m: Mutation)
    | Deciding(m: Mutation, current: JobRecord)
    | Releasing

  /** claimant and claims are history: who has had a claim saved, and how often. */
  datatype Sys = Sys(
    file: JobRecord,
    lock: Option<Ident>,
    pcs: map<Ident, Pc>,
    exited: set<Ident>,
    claimant: Option<Ident>,
    claims: nat)

  datatype Step =
    | Spawn(p: Ident)
    | Begin(p: Ident, m: Mutation)
    | Snapshot(p: Ident)
    | Judge(p: Ident, probe: Probe)
    | Acquire(p: Ident)
    | Read(p: Ident)
    | Save(p: Ident, now: int)
    | Release(p: Ident)
    | Exit(p: Ident)

  /** How far a read creation time may lie from the true one when it is all there is: half the smaller tolerance. */
  const READING_ERROR: int := 550

  predicate Holds(pc: Pc) {
    pc.Locked? || pc.Deciding? || pc.Releasing?
  }

  predicate HasMutation(pc: Pc) {
    pc.Waiting? || pc.Locked? || pc.Deciding?
  }

  /** Worker data that process p reports about itself when it claims. */
  predicate Describes(w: Worker, p: Ident) {
    && w.pid == p.pid
    && (w.token.Some? ==> w.token.value == p.start)
    && (w.token.None? ==> Distance(w.createdAt, p.start) <= READING_ERROR)
  }

  /**
   A probe of the PID of w may answer unknown, but a token that it reads is the true one. Creation
   times may drift at will, except that of a worker that recorded no token.
  */
  ghost predicate Truthful(s: Sys, w: Worker, probe: Probe) {
    match probe
    case Unknown => true
    case Dead => forall i :: i in s.pcs ==> i.pid != w.pid
    case Alive(created, token, coarse) =>
      exists i :: i in s.pcs && i.pid == w.pid
                  && (token.Some? ==> token.value == i.start)
                  && (w.token.None? && created.Some? ==> Distance(created.value, i.start) <= READING_ERROR)
  }

  ghost predicate Init(s: Sys) {
    && s.file.status.Queued? && RecordRules(s.file) && s.file.worker.None? && !s.file.cancellationRequested
    && s.lock.None? && s.pcs == map[] && s.exited == {} && s.claimant.None? && s.claims == 0
  }

  ghost predicate Enabled(s: Sys, step: Step) {
    match step
    case Spawn(p) => p !in s.pcs && p !in s.exited && forall i :: i in s.pcs ==> i.pid != p.pid
    case Begin(p, m) =>
      p in s.pcs && s.pcs[p].Idle? && !m.FailAbandoned? && (m.ClaimBy? ==> Describes(m.worker, p))
    case Snapshot(p) => p in s.pcs && s.pcs[p].Idle? && Loadable(s.file) && s.file.status.Running?
    case Judge(p, probe) =>
      && p in s.pcs && s.pcs[p].Snapped?
      && (s.pcs[p].snapshot.worker.Some? ==> Truthful(s, s.pcs[p].snapshot.worker.value, probe))
    case Acquire(p) => p in s.pcs && s.pcs[p].Waiting? && s.lock.None?
    case Read(p) => p in s.pcs && s.pcs[p].Locked?
    case Save(p, now) => p in s.pcs && s.pcs[p].Deciding?
    case Release(p) => p in s.pcs && s.pcs[p].Releasing?
    case Exit(p) => p in s.pcs
  }

  function Goto(s: Sys, p: Ident, pc: Pc): Sys {
    s.(pcs := s.pcs[p := pc])
  }

  ghost function Do(s: Sys, step: Step): Sys
    requires Enabled(s, step)
  {
    match step
    case Spawn(p) => Goto(s, p, Idle)
    case Begin(p, m) => Goto(s, p, Waiting(m))
    case Snapshot(p) => Goto(s, p, Snapped(s.file))
    case Judge(p, probe) =>
      var cause := Abandonment(s.pcs[p].snapshot, probe);
      Goto(s, p, if cause.Some? then Waiting(FailAbandoned(s.pcs[p].snapshot, cause.value)) else Idle)
    case Acquire(p) => Goto(s, p, Locked(s.pcs[p].m)).(lock := Some(p))
    case Read(p) => Goto(s, p, if Loadable(s.file) then Deciding(s.pcs[p].m, s.file) else Releasing)
    case Save(p, now) =>
      // The replacement is computed from what was read, not from what the file now holds.
      var verdict := Apply(s.pcs[p].m, s.pcs[p].current, now);
      if verdict.Saved? then
        Goto(s, p, Releasing).(
          file := verdict.record,
          claimant := if s.pcs[p].m.ClaimBy? then Some(p) else s.claimant,
          claims := if s.pcs[p].m.ClaimBy? then s.claims + 1 else s.claims)
      else Goto(s, p, Releasing)
    case Release(p) => Goto(s, p, Idle).(lock := None)
    case Exit(p) =>
      s.(pcs := s.pcs - {p}, exited := s.exited + {p}, lock := if s.lock == Some(p) then None else s.lock)
  }

  ghost predicate Next(s: Sys, t: Sys) {
    exists step :: Enabled(s, step) && t == Do(s, step)
  }

  ghost predicate Behavior(run: seq<Sys>) {
    IsRun(run, Init, Next)
  }

  // ----- the invariant -----

  ghost predicate LockInv(s: Sys) {
    && (s.lock.Some? ==> s.lock.value in s.pcs && Holds(s.pcs[s.lock.value]))
    && (forall p :: p in s.pcs && Holds(s.pcs[p]) ==> s.lock == Some(p))
    && (forall p :: p in s.pcs && s.pcs[p].Deciding? ==> s.pcs[p].current == s.file && Loadable(s.file))
  }

  ghost predicate IdentInv(s: Sys) {
    && s.pcs.Keys !! s.exited
    && (forall p, q :: p in s.pcs && q in s.pcs && p.pid == q.pid ==> p == q)
    && (s.claimant.Some? ==> s.claimant.value in s.pcs || s.claimant.value in s.exited)
  }

  ghost predicate ClaimInv(s: Sys) {
    && RecordRules(s.file)
    && s.claims == (if s.claimant.Some? then 1 else 0)
    && (s.claimant.Some? ==> !s.file.status.Queued?)
    && (s.file.worker.Some? <==> s.claimant.Some?)
    && (s.file.worker.Some? ==> Describes(s.file.worker.value, s.claimant.value))
    && (forall p :: p in s.pcs && HasMutation(s.pcs[p]) && s.pcs[p].m.ClaimBy? ==> Describes(s.pcs[p].m.worker, p))
  }

  /** A pending abandonment verdict is about the recorded worker, and that worker is gone. */
  ghost predicate VerdictInv(s: Sys) {
    && (forall p :: p in s.pcs && s.pcs[p].Snapped? ==>
          s.pcs[p].snapshot.worker == s.file.worker && !s.file.status.Queued?)
    && (forall p :: p in s.pcs && HasMutation(s.pcs[p]) && s.pcs[p].m.FailAbandoned? ==>
          && s.pcs[p].m.snapshot.worker == s.file.worker
          && !s.file.status.Queued?
          && (s.claimant.Some? ==> s.claimant.value in s.exited))
  }

  ghost predicate Inv(s: Sys) {
    LockInv(s) && IdentInv(s) && ClaimInv(s) && VerdictInv(s)
  }

  /** A probe that condemns the recorded worker proves that its process has exited. */
  lemma CondemnedWorkerHasExited(s: Sys, r: JobRecord, w: Ident, probe: Probe)
    requires IdentInv(s) && s.claimant == Some(w)
    requires r.worker.Some? && Describes(r.worker.value, w)
    requires Truthful(s, r.worker.value, probe) && Abandonment(r, probe).Some?
    ensures w in s.exited
  {
    if w in s.pcs {
      assert false;
    }
  }

  lemma SaveKeepsInv(s: Sys, p: Ident, now: int)
    requires Inv(s) && Enabled(s, Save(p, now))
    ensures Inv(Do(s, Save(p, now)))
  {
    var m, t := s.pcs[p].m, Do(s, Save(p, now));
    var verdict := Apply(m, s.file, now);
    if verdict.Saved? {
      ApplyKeepsRules(m, s.file, now);
      ApplyFollowsEdges(m, s.file, now);
      ApplyFrame(m, s.file, now);
      assert forall q :: q in t.pcs && q != p ==> t.pcs[q] == s.pcs[q] && !t.pcs[q].Deciding?;
    }
  }

  lemma SpawnKeepsInv(s: Sys, p: Ident)
    requires Inv(s) && Enabled(s, Spawn(p))
    ensures Inv(Do(s, Spawn(p)))
  {
  }

  /** A process that holds nothing moves on, with a claim about itself or a justified verdict at most. */
  lemma OutsiderMoves(s: Sys, p: Ident, pc: Pc)
    requires Inv(s) && p in s.pcs && !Holds(s.pcs[p]) && !Holds(pc)
    requires pc.Waiting? && pc.m.ClaimBy? ==> Describes(pc.m.worker, p)
    requires pc.Snapped? ==> pc.snapshot.worker == s.file.worker && !s.file.status.Queued?
    requires pc.Waiting? && pc.m.FailAbandoned? ==>
      && pc.m.snapshot.worker == s.file.worker && !s.file.status.Queued?
      && (s.claimant.Some? ==> s.claimant.value in s.exited)
    ensures Inv(Goto(s, p, pc))
  {
  }

  lemma JudgeKeepsInv(s: Sys, p: Ident, probe: Probe)
    requires Inv(s) && Enabled(s, Judge(p, probe))
    ensures Inv(Do(s, Judge(p, probe)))
  {
    var snapshot := s.pcs[p].snapshot;
    var cause := Abandonment(snapshot, probe);
    if cause.Some? && s.claimant.Some? {
      CondemnedWorkerHasExited(s, snapshot, s.claimant.value, probe);
    }
    OutsiderMoves(s, p, if cause.Some? then Waiting(FailAbandoned(snapshot, cause.value)) else Idle);
  }

  lemma AcquireKeepsInv(s: Sys, p: Ident)
    requires Inv(s) && Enabled(s, Acquire(p))
    ensures Inv(Do(s, Acquire(p)))
  {
  }

  lemma ReadKeepsInv(s: Sys, p: Ident)
    requires Inv(s) && Enabled(s, Read(p))
    ensures Inv(Do(s, Read(p)))
  {
  }

  lemma ReleaseKeepsInv(s: Sys, p: Ident)
    requires Inv(s) && Enabled(s, Release(p))
    ensures Inv(Do(s, Release(p)))
  {
  }

  lemma ExitKeepsInv(s: Sys, p: Ident)
    requires Inv(s) && Enabled(s, Exit(p))
    ensures Inv(Do(s, Exit(p)))
  {
    var t := Do(s, Exit(p));
    assert forall q :: q in t.pcs ==> q in s.pcs && t.pcs[q] == s.pcs[q];
  }

  lemma StepKeepsInv(s: Sys, step: Step)
    requires Inv(s) && Enabled(s, step)
    ensures Inv(Do(s, step))
  {
    match step
    case Spawn(p) => SpawnKeepsInv(s, p);
    case Begin(p, m) => OutsiderMoves(s, p, Waiting(m));
    case Snapshot(p) => OutsiderMoves(s, p, Snapped(s.file));
    case Judge(p, probe) => JudgeKeepsInv(s, p, probe);
    case Acquire(p) => AcquireKeepsInv(s, p);
    case Read(p) => ReadKeepsInv(s, p);
    case Save(p, now) => SaveKeepsInv(s, p, now);
    case Release(p) => ReleaseKeepsInv(s, p);
    case Exit(p) => ExitKeepsInv(s, p);
  }

  lemma NextKeepsInv(s: Sys, t: Sys)
    requires Inv(s) && Next(s, t)
    ensures Inv(t)
  {
    var step :| Enabled(s, step) && t == Do(s, step);
    StepKeepsInv(s, step);
  }

  lemma Reachable(run: seq<Sys>, i: nat)
    requires Behavior(run) && i < |run|
    ensures Inv(run[i])
  {
    forall s, t | Inv(s) && Next(s, t) ensures Inv(t) {
      NextKeepsInv(s, t);
    }
    Keeps(run, Init, Next, Inv, i);
  }

  // ----- what every run guarantees -----

  lemma ChangeIsSaved(s: Sys, t: Sys) returns (p: Ident, m: Mutation, now: int)
    requires Inv(s) && Next(s, t) && s.file != t.file
    ensures p in s.pcs && s.lock == Some(p) && s.pcs[p] == Deciding(m, s.file)
    ensures Apply(m, s.file, now) == Saved(t.file)
  {
    var step :| Enabled(s, step) && t == Do(s, step);
    p, m, now := step.p, s.pcs[step.p].m, step.now;
  }

  /**
   No update is lost: when the file changes, some process that held the lock applied one
   mutation to exactly the record that was in the file.
  */
  lemma ChangeIsOneMutation(run: seq<Sys>, i: nat) returns (p: Ident, m: Mutation, now: int)
    requires Behavior(run) && i + 1 < |run| && run[i].file != run[i + 1].file
    ensures p in run[i].pcs && run[i].lock == Some(p) && run[i].pcs[p] == Deciding(m, run[i].file)
    ensures Apply(m, run[i].file, now) == Saved(run[i + 1].file)
  {
    Reachable(run, i);
    assert Follows(run, Next, i);
    p, m, now := ChangeIsSaved(run[i], run[i + 1]);
  }

  /** The status history follows the legal edges, with at most one successful claim. */
  lemma HistoryIsLegal(run: seq<Sys>, i: nat)
    requires Behavior(run) && i + 1 < |run|
    ensures RecordRules(run[i + 1].file) && run[i + 1].claims <= 1
    ensures run[i].file.status == run[i + 1].file.status || LegalEdge(run[i].file.status, run[i + 1].file.status)
    ensures Terminal(run[i].file.status) ==> run[i + 1].file == run[i].file
  {
    Reachable(run, i);
    Reachable(run, i + 1);
    if run[i].file != run[i + 1].file {
      var p, m, now := ChangeIsOneMutation(run, i);
      ApplyFollowsEdges(m, run[i].file, now);
    }
  }

  /** A terminal record never changes again, whoever holds whatever stale snapshot. */
  lemma {:induction false} TerminalIsForEver(run: seq<Sys>, i: nat, j: nat)
    requires Behavior(run) && i <= j < |run| && Terminal(run[i].file.status)
    ensures run[j].file == run[i].file
  {
    if i == j {
    } else {
      TerminalIsForEver(run, i, j - 1);
      HistoryIsLegal(run, j - 1);
    }
  }

  lemma ClaimantStays(s: Sys, step: Step)
    requires Inv(s) && Enabled(s, step) && s.claimant.Some?
    ensures Do(s, step).claimant == s.claimant && Do(s, step).file.worker == s.file.worker
  {
    if step.Save? {
      var verdict := Apply(s.pcs[step.p].m, s.file, step.now);
      if verdict.Saved? {
        ApplyFrame(s.pcs[step.p].m, s.file, step.now);
      }
    }
  }

  lemma ClaimantNext(run: seq<Sys>, i: nat)
    requires Behavior(run) && i + 1 < |run| && run[i].claimant.Some?
    ensures run[i + 1].claimant == run[i].claimant && run[i + 1].file.worker == run[i].file.worker
  {
    Reachable(run, i);
    assert Follows(run, Next, i);
    var step :| Enabled(run[i], step) && run[i + 1] == Do(run[i], step);
    ClaimantStays(run[i], step);
  }

  /** The first claimant stays the recorded worker in every later state. */
  lemma {:induction false} FirstClaimWins(run: seq<Sys>, i: nat, j: nat)
    requires Behavior(run) && i <= j < |run| && run[i].claimant.Some?
    ensures run[j].claimant == run[i].claimant && run[j].file.worker == run[i].file.worker
  {
    if i == j {
    } else {
      FirstClaimWins(run, i, j - 1);
      ClaimantNext(run, j - 1);
    }
  }

  /**
   Recovery safety: whenever a recovery write goes through, the job was running and its
   recorded worker, if it had one, had already exited.
  */
  lemma RecoveryFailsOnlyTheExited(run: seq<Sys>, i: nat, p: Ident, now: int)
    requires Behavior(run) && i < |run| && Enabled(run[i], Save(p, now)) && run[i].pcs[p].m.FailAbandoned?
    requires Do(run[i], Save(p, now)).file != run[i].file
    ensures run[i].file.status.Running?
    ensures Do(run[i], Save(p, now)).file.failureReason == Some(ABANDONED)
    ensures run[i].file.worker.Some? ==> run[i].claimant.Some? && run[i].claimant.value in run[i].exited
  {
    Reachable(run, i);
  }

  /** The probe shows that the recorded worker is gone: nobody has its PID, or somebody with another token. */
  ghost predicate ShowsGone(w: Worker, probe: Probe) {
    probe.Dead? || (probe.Alive? && w.token.Some? && probe.token.Some?)
  }

  /**
   Completeness of recovery: when the claimant has exited, a truthful probe that finds nobody, or reads a token
   for a worker that recorded one, makes the recovering process go on to fail the job.
  */
  lemma RecoveryGoesOn(run: seq<Sys>, i: nat, p: Ident, probe: Probe)
    requires Behavior(run) && i < |run| && Enabled(run[i], Judge(p, probe))
    requires run[i].claimant.Some? && run[i].claimant.value in run[i].exited
    requires run[i].pcs[p].snapshot.worker.Some? && ShowsGone(run[i].pcs[p].snapshot.worker.value, probe)
    ensures var pc := Do(run[i], Judge(p, probe)).pcs[p];
            && pc.Waiting? && pc.m.FailAbandoned? && pc.m.snapshot == run[i].pcs[p].snapshot
            && pc.m.cause == if probe.Dead? then WorkerMissing else PidReused
  {
    Reachable(run, i);
  }

  /** And the save then fails the job as abandoned, if it still runs under the worker of the snapshot. */
  lemma RecoveryGetsThrough(run: seq<Sys>, i: nat, p: Ident, now: int)
    requires Behavior(run) && i < |run| && Enabled(run[i], Save(p, now)) && run[i].pcs[p].m.FailAbandoned?
    requires run[i].file.status == Running && run[i].file.worker == run[i].pcs[p].m.snapshot.worker
    ensures var file := Do(run[i], Save(p, now)).file;
            && file.status == Failed && file.failureReason == Some("abandoned_process")
            && file.failureMetadata == Some(run[i].pcs[p].m.cause)
  {
    Reachable(run, i);
    ApplyAnswers(run[i].pcs[p].m, run[i].file, now);
    ApplyWrites(run[i].pcs[p].m, run[i].file, now);
  }

  lemma Extended(run: seq<Sys>, step: Step) returns (longer: seq<Sys>)
    requires Behavior(run) && Enabled(run[|run| - 1], step)
    ensures Behavior(longer) && longer == run + [Do(run[|run| - 1], step)]
  {
    longer := run + [Do(run[|run| - 1], step)];
    Runs.Extended(run, Init, Next, Do(run[|run| - 1], step));
  }

  /** The unlocked half: a new process looks at the record, probes, and makes up its mind. */
  lemma DiagnosisHappens(run: seq<Sys>, p: Ident) returns (longer: seq<Sys>)
    requires Behavior(run) && Enabled(run[|run| - 1], Spawn(p))
    requires var s := run[|run| - 1];
             && Loadable(s.file) && s.file.status == Running && s.file.worker.Some?
             && p.pid != s.file.worker.value.pid
             && forall i :: i in s.pcs ==> i.pid != s.file.worker.value.pid
    ensures var s := run[|run| - 1];
            && Behavior(longer) && run <= longer
            && longer[|longer| - 1] == s.(pcs := s.pcs[p := Waiting(FailAbandoned(s.file, WorkerMissing))])
  {
    AbandonmentMeans(run[|run| - 1].file, Dead);
    longer := Extended(run, Spawn(p));
    longer := Extended(longer, Snapshot(p));
    longer := Extended(longer, Judge(p, Dead));
  }

  /** The locked half of any mutation that will be saved. */
  lemma SaveHappens(run: seq<Sys>, p: Ident, m: Mutation, now: int) returns (longer: seq<Sys>)
    requires Behavior(run)
    requires var s := run[|run| - 1];
             && p in s.pcs && s.pcs[p] == Waiting(m) && s.lock.None? && Loadable(s.file)
             && Apply(m, s.file, now).Saved?
    ensures var s := run[|run| - 1];
            && Behavior(longer) && run <= longer
            && longer[|longer| - 1].file == Apply(m, s.file, now).record
            && longer[|longer| - 1].lock.None? && longer[|longer| - 1].pcs == s.pcs[p := Idle]
  {
    longer := Extended(run, Acquire(p));
    longer := Extended(longer, Read(p));
    longer := Extended(longer, Save(p, now));
    longer := Extended(longer, Release(p));
  }

  /**
   Whenever a job runs whose worker's PID is nobody's and the lock is free, a new process can recover it: it looks,
   probes, locks, reads and fails the job as abandoned.
  */
  lemma RecoveryHappens(run: seq<Sys>, p: Ident, now: int) returns (longer: seq<Sys>)
    requires Behavior(run) && Enabled(run[|run| - 1], Spawn(p)) && run[|run| - 1].lock.None?
    requires var s := run[|run| - 1];
             && Loadable(s.file) && s.file.status == Running && s.file.worker.Some?
             && p.pid != s.file.worker.value.pid
             && forall i :: i in s.pcs ==> i.pid != s.file.worker.value.pid
    ensures Behavior(longer) && run <= longer
    ensures var file := longer[|longer| - 1].file;
            && file.status == Failed && file.failureReason == Some("abandoned_process")
            && file.failureMetadata == Some(WorkerMissing)
    ensures longer[|longer| - 1].lock.None? && longer[|longer| - 1].pcs == run[|run| - 1].pcs[p := Idle]
  {
    var file := run[|run| - 1].file;
    var m := FailAbandoned(file, WorkerMissing);
    ApplyAnswers(m, file, now);
    ApplyWrites(m, file, now);
    longer := DiagnosisHappens(run, p);
    longer := SaveHappens(longer, p, m, now);
    assert run[|run| - 1].pcs[p := Waiting(m)][p := Idle] == run[|run| - 1].pcs[p := Idle];
  }

  /** Who can start and who can exit, what an exit leaves, and that a probe may always answer unknown. */
  lemma StartsAndExits(s: Sys, p: Ident)
    ensures Enabled(s, Spawn(p)) <==> p !in s.pcs && p !in s.exited && forall i :: i in s.pcs ==> i.pid != p.pid
    ensures p in s.pcs && s.pcs[p].Snapped? ==> Enabled(s, Judge(p, Unknown))
    ensures Enabled(s, Exit(p)) <==> p in s.pcs
    ensures p in s.pcs ==>
              var t := Do(s, Exit(p));
              && t.pcs == s.pcs - {p} && t.exited == s.exited + {p} && t.file == s.file
              && t.lock == if s.lock == Some(p) then None else s.lock
  {
  }

  /** An idle process that finds the lock free gets its mutation done. */
  lemma MutationInOneGo(s: Sys, p: Ident, m: Mutation, now: int)
    requires Enabled(s, Begin(p, m)) && s.lock.None? && Loadable(s.file)
    ensures var started := Do(s, Begin(p, m));
            && Enabled(started, Acquire(p))
            && var holding := Do(started, Acquire(p));
               && Enabled(holding, Read(p))
               && var deciding := Do(holding, Read(p));
                  && Enabled(deciding, Save(p, now))
                  && var saved := Do(deciding, Save(p, now));
                     && Enabled(saved, Release(p))
                     && var done := Do(saved, Release(p));
                        && done.lock.None? && done.pcs == s.pcs && done.exited == s.exited
                        && done.file == if Apply(m, s.file, now).Saved? then Apply(m, s.file, now).record else s.file
  {
    assert s.pcs == s.pcs[p := Idle];
  }

  predicate DecidedByCancel(r: JobRecord) {
    && r.cancellationRequested
    && (r.status.Running? || r.status.Cancelled? || (r.status.Failed? && r.failureReason == Some(ABANDONED)))
  }

  lemma DecidedNext(run: seq<Sys>, i: nat)
    requires Behavior(run) && i + 1 < |run| && DecidedByCancel(run[i].file)
    ensures DecidedByCancel(run[i + 1].file)
  {
    if run[i].file != run[i + 1].file {
      var p, m, now := ChangeIsOneMutation(run, i);
      ApplyFollowsEdges(m, run[i].file, now);
      CancellationWins(m, run[i].file, now);
    }
  }

  /** Cancellation that reached a running job first decides every later state of the job. */
  lemma {:induction false} CancelFirstDecides(run: seq<Sys>, i: nat, j: nat)
    requires Behavior(run) && i <= j < |run|
    requires run[i].file.status.Running? && run[i].file.cancellationRequested
    ensures DecidedByCancel(run[j].file)
  {
    if i == j {
    } else {
      CancelFirstDecides(run, i, j - 1);
      DecidedNext(run, j - 1);
    }
  }

  /** A terminal write that took the lock first is what a later cancellation reports, unchanged. */
  lemma TerminalFirstIsReported(run: seq<Sys>, i: nat, j: nat, now: int)
    requires Behavior(run) && i <= j < |run| && Terminal(run[i].file.status)
    ensures Apply(RequestCancel, run[j].file, now) == Unchanged && run[j].file == run[i].file
  {
    TerminalIsForEver(run, i, j);
  }

  /** Without a start token, a clock that drifts beyond the tolerance condemns a live worker. */
  lemma DriftCondemnsTheLiving(r: JobRecord, w: Ident, drift: int, coarse: bool)
    requires r.worker == Some(Worker(w.pid, w.start, None))
    ensures Abandonment(r, Alive(Some(w.start + drift), None, coarse)).Some? <==> Distance(drift, 0) > Tolerance(coarse)
  {
  }
}
