/**
 At-most-once delivery of a finished job's status: bridge invocations for any jobs and
 threads, each of which may crash at any step, beside running jobs and an artifact cleaner.
 A per-job lock, a per-thread lock and a durable intent receipt guard the queue command.
*/
module Bridge {
  import opened Runs
  import opened Wrappers
  import opened Jobs

  type Pid = nat
  type JobId = nat
  type ThreadId = nat

  datatype Delivery = Intent | QueueAccepted | DeliveryUnknown

  datatype Receipt = Receipt(thread: ThreadId, status: Status, state: Delivery)

  /** One invocation's place; from JobLocked to JobHeld it holds the job's lock. */
  datatype Pc =
    | Waiting
    | Seen(status: Status)
    | JobLocked(status: Status)
    | NoReceipt(status: Status)
    | ThreadLocked(status: Status)
    | IntentSaved(status: Status)
    | Queueing(status: Status)
    | Answered(status: Status, accepted: bool)
    | ThreadHeld
    | JobHeld
    | Done

  datatype Proc = Proc(job: JobId, thread: ThreadId, pc: Pc)

  /**
   All that belongs to one job: its record's status, its receipt file and its receipt lock;
   and, as history, how often the queue command was started and with which status.
  */
  datatype Slot = Slot(status: Status, receipt: Option<Receipt>, lock: Option<Pid>, queued: nat, sent: Option<Status>)

  /** orphans are queue commands that outlived a crashed invocation, by thread. */
  datatype Sys = Sys(
    slots: map<JobId, Slot>,
    threadLocks: map<ThreadId, Pid>,
    procs: map<Pid, Proc>,
    orphans: map<Pid, ThreadId>,
    others: set<string>)

  datatype Work =
    | SeeTerminal
    | LockJob
    | CheckReceipt
    | LockThread
    | SaveIntent(ok: bool)
    | StartQueue
    | Interrupt
    | QueueEnds(accepted: bool)
    | SaveOutcome(first: bool, second: bool)
    | UnlockThread
    | UnlockJob

  /** Files under the artifact directory; receipts live in bridges/codex. */
  datatype Artifact = ReceiptFile(job: JobId) | Other(name: string)

  datatype Step =
    | Invoke(p: Pid, job: JobId, thread: ThreadId)
    | Act(p: Pid, work: Work)
    | Crash(p: Pid)
    | OrphanEnds(p: Pid)
    | JobCreated(job: JobId)
    | JobMoves(job: JobId, status: Status)
    | Clean(stale: set<Artifact>)

  predicate HoldsThread(pc: Pc) {
    pc.ThreadLocked? || pc.IntentSaved? || pc.Queueing? || pc.Answered? || pc.ThreadHeld?
  }

  predicate HoldsJob(pc: Pc) {
    pc.JobLocked? || pc.NoReceipt? || pc.JobHeld? || HoldsThread(pc)
  }

  predicate HasStatus(pc: Pc) {
    !pc.Waiting? && !pc.ThreadHeld? && !pc.JobHeld? && !pc.Done?
  }

  predicate MayAct(slot: Slot, pc: Pc, w: Work) {
    match w
    case SeeTerminal => pc.Waiting? && Terminal(slot.status)
    case LockJob => pc.Seen?
    case CheckReceipt => pc.JobLocked?
    case LockThread => pc.NoReceipt?
    case SaveIntent(_) => pc.ThreadLocked?
    case StartQueue => pc.IntentSaved?
    case Interrupt => pc.IntentSaved?
    case QueueEnds(_) => pc.Queueing?
    case SaveOutcome(_, _) => pc.Answered?
    case UnlockThread => pc.ThreadHeld?
    case UnlockJob => pc.JobHeld?
  }

  /** busy says whether another invocation holds the lock of the thread. */
  function ActPc(slot: Slot, pc: Pc, w: Work, busy: bool): Pc
    requires MayAct(slot, pc, w)
  {
    match w
    case SeeTerminal => Seen(slot.status)
    case LockJob => if slot.lock.Some? then Done else JobLocked(pc.status)
    case CheckReceipt => if slot.receipt.Some? then JobHeld else NoReceipt(pc.status)
    case LockThread => if busy then JobHeld else ThreadLocked(pc.status)
    case SaveIntent(ok) => if ok then IntentSaved(pc.status) else ThreadHeld
    case StartQueue => Queueing(pc.status)
    case Interrupt => Answered(pc.status, false)
    case QueueEnds(accepted) => Answered(pc.status, accepted)
    case SaveOutcome(_, _) => ThreadHeld
    case UnlockThread => JobHeld
    case UnlockJob => Done
  }

  function ActSlot(slot: Slot, p: Pid, q: Proc, w: Work): Slot
    requires MayAct(slot, q.pc, w)
  {
    match w
    case LockJob => if slot.lock.Some? then slot else slot.(lock := Some(p))
    case SaveIntent(ok) =>
      if ok then slot.(receipt := Some(Receipt(q.thread, q.pc.status, Intent))) else slot
    case StartQueue => slot.(queued := slot.queued + 1, sent := Some(q.pc.status))
    case SaveOutcome(first, second) =>
      // If the acceptance cannot be saved, the outcome is recorded as unknown, if that can be saved.
      if q.pc.accepted && first then slot.(receipt := Some(Receipt(q.thread, q.pc.status, QueueAccepted)))
      else if second then slot.(receipt := Some(Receipt(q.thread, q.pc.status, DeliveryUnknown)))
      else slot
    case UnlockJob => slot.(lock := None)
    case _ => slot
  }

  function ActThreads(locks: map<ThreadId, Pid>, p: Pid, thread: ThreadId, w: Work): map<ThreadId, Pid> {
    match w
    case LockThread => if thread in locks then locks else locks[thread := p]
    case UnlockThread => locks - {thread}
    case _ => locks
  }

  /** The cleaner never enters the receipt directory, however old its files are. */
  predicate Cleanable(a: Artifact) {
    !a.ReceiptFile?
  }

  ghost predicate Init(s: Sys) {
    s == Sys(map[], map[], map[], map[], {})
  }

  ghost predicate Enabled(s: Sys, step: Step) {
    match step
    case Invoke(p, j, t) => p !in s.procs && p !in s.orphans && j in s.slots
    case Act(p, w) => p in s.procs && s.procs[p].job in s.slots && MayAct(s.slots[s.procs[p].job], s.procs[p].pc, w)
    case Crash(p) => p in s.procs
    case OrphanEnds(p) => p in s.orphans
    case JobCreated(j) => j !in s.slots
    case JobMoves(j, st) => j in s.slots && LegalEdge(s.slots[j].status, st)
    case Clean(_) => true
  }

  function Do(s: Sys, step: Step): Sys
    requires Enabled(s, step)
  {
    match step
    case Invoke(p, j, t) => s.(procs := s.procs[p := Proc(j, t, Waiting)])
    case Act(p, w) =>
      var q := s.procs[p];
      var slot := s.slots[q.job];
      s.(slots := s.slots[q.job := ActSlot(slot, p, q, w)],
         threadLocks := ActThreads(s.threadLocks, p, q.thread, w),
         procs := s.procs[p := q.(pc := ActPc(slot, q.pc, w, q.thread in s.threadLocks))])
    case Crash(p) =>
      s.(slots := map j | j in s.slots ::
                    if s.slots[j].lock == Some(p) then s.slots[j].(lock := None) else s.slots[j],
         threadLocks := (map t | t in s.threadLocks && s.threadLocks[t] != p :: s.threadLocks[t]),
         procs := s.procs - {p},
         orphans := if s.procs[p].pc.Queueing? then s.orphans[p := s.procs[p].thread] else s.orphans)
    case OrphanEnds(p) => s.(orphans := s.orphans - {p})
    case JobCreated(j) => s.(slots := s.slots[j := Slot(Queued, None, None, 0, None)])
    case JobMoves(j, st) => s.(slots := s.slots[j := s.slots[j].(status := st)])
    case Clean(stale) =>
      s.(others := (set n | n in s.others && !(Other(n) in stale && Cleanable(Other(n)))),
         slots := map j | j in s.slots ::
                    if ReceiptFile(j) in stale && Cleanable(ReceiptFile(j)) then s.slots[j].(receipt := None)
                    else s.slots[j])
  }

  ghost predicate Next(s: Sys, t: Sys) {
    exists step :: Enabled(s, step) && t == Do(s, step)
  }

  ghost predicate Behavior(run: seq<Sys>) {
    IsRun(run, Init, Next)
  }

  // ----- the invariant -----

  /** The command was started at most once, and only behind a receipt with the status that was sent. */
  predicate SlotInv(slot: Slot) {
    && slot.queued <= 1
    && (slot.queued > 0 ==> slot.receipt.Some? && slot.sent == Some(slot.receipt.value.status))
    && (slot.sent.Some? ==> slot.sent.value == slot.status && Terminal(slot.status))
  }

  predicate ProcInv(slot: Slot, p: Pid, q: Proc) {
    && (HoldsJob(q.pc) ==> slot.lock == Some(p))
    && (HasStatus(q.pc) ==> q.pc.status == slot.status && Terminal(slot.status))
    && (q.pc.NoReceipt? || q.pc.ThreadLocked? ==> slot.receipt.None?)
    && (q.pc.IntentSaved? || q.pc.Queueing? || q.pc.Answered? ==>
          slot.receipt == Some(Receipt(q.thread, q.pc.status, Intent)))
    && (q.pc.IntentSaved? ==> slot.queued == 0)
  }

  ghost predicate Inv(s: Sys) {
    SlotsOk(s) && ThreadInv(s)
  }

  ghost predicate ThreadInv(s: Sys) {
    && (forall p :: p in s.procs && HoldsThread(s.procs[p].pc) ==>
          s.procs[p].thread in s.threadLocks && s.threadLocks[s.procs[p].thread] == p)
    && (forall t :: t in s.threadLocks ==>
          var p := s.threadLocks[t]; p in s.procs && s.procs[p].thread == t && HoldsThread(s.procs[p].pc))
  }

  ghost predicate SlotsOk(s: Sys) {
    && (forall j :: j in s.slots ==> SlotInv(s.slots[j]))
    && (forall p :: p in s.procs ==> s.procs[p].job in s.slots && ProcInv(s.slots[s.procs[p].job], p, s.procs[p]))
    && (forall j :: j in s.slots && s.slots[j].lock.Some? ==>
          var p := s.slots[j].lock.value; p in s.procs && s.procs[p].job == j && HoldsJob(s.procs[p].pc))
  }

  lemma ActLocally(slot: Slot, p: Pid, q: Proc, w: Work, busy: bool)
    requires SlotInv(slot) && ProcInv(slot, p, q) && MayAct(slot, q.pc, w)
    requires slot.lock == Some(p) ==> HoldsJob(q.pc)
    ensures var next, pc := ActSlot(slot, p, q, w), ActPc(slot, q.pc, w, busy);
            && SlotInv(next) && ProcInv(next, p, q.(pc := pc))
            && (next.lock == slot.lock || next.lock == Some(p) || next.lock.None?)
            && (next.lock == Some(p) ==> HoldsJob(pc))
  {
  }

  /** An invocation that does not hold the job's lock cannot notice what the holder does. */
  lemma ActUnnoticed(slot: Slot, p: Pid, q: Proc, w: Work, p': Pid, q': Proc)
    requires ProcInv(slot, p, q) && MayAct(slot, q.pc, w)
    requires p' != p && ProcInv(slot, p', q')
    ensures ProcInv(ActSlot(slot, p, q, w), p', q')
  {
  }

  /** Replacing one invocation's place and its job's slot, when the two fit and the others agree. */
  lemma SlotMoves(s: Sys, p: Pid, slot: Slot, pc: Pc, locks: map<ThreadId, Pid>)
    requires SlotsOk(s) && p in s.procs
    requires SlotInv(slot) && ProcInv(slot, p, s.procs[p].(pc := pc))
    requires slot.lock == s.slots[s.procs[p].job].lock || slot.lock == Some(p) || slot.lock.None?
    requires slot.lock == Some(p) ==> HoldsJob(pc)
    requires forall p' :: p' in s.procs && p' != p && s.procs[p'].job == s.procs[p].job ==>
              ProcInv(slot, p', s.procs[p'])
    ensures SlotsOk(s.(slots := s.slots[s.procs[p].job := slot], threadLocks := locks,
                       procs := s.procs[p := s.procs[p].(pc := pc)]))
  {
  }

  lemma ActKeepsSlots(s: Sys, p: Pid, w: Work)
    requires SlotsOk(s) && Enabled(s, Act(p, w))
    ensures SlotsOk(Do(s, Act(p, w)))
  {
    var q := s.procs[p];
    var slot, busy := s.slots[q.job], q.thread in s.threadLocks;
    ActLocally(slot, p, q, w, busy);
    forall p' | p' in s.procs && p' != p && s.procs[p'].job == q.job
      ensures ProcInv(ActSlot(slot, p, q, w), p', s.procs[p'])
    {
      ActUnnoticed(slot, p, q, w, p', s.procs[p']);
    }
    SlotMoves(s, p, ActSlot(slot, p, q, w), ActPc(slot, q.pc, w, busy), ActThreads(s.threadLocks, p, q.thread, w));
  }

  /** How an invocation's hold on its thread changes with its place. */
  lemma ThreadLocally(slot: Slot, pc: Pc, w: Work, busy: bool)
    requires MayAct(slot, pc, w)
    ensures w.LockThread? ==> !HoldsThread(pc) && (HoldsThread(ActPc(slot, pc, w, busy)) <==> !busy)
    ensures w.UnlockThread? ==> HoldsThread(pc) && !HoldsThread(ActPc(slot, pc, w, busy))
    ensures !w.LockThread? && !w.UnlockThread? ==> (HoldsThread(ActPc(slot, pc, w, busy)) <==> HoldsThread(pc))
  {
  }

  lemma ThreadMoves(s: Sys, p: Pid, slots: map<JobId, Slot>, pc: Pc, w: Work)
    requires ThreadInv(s) && p in s.procs
    requires var held, busy := HoldsThread(s.procs[p].pc), s.procs[p].thread in s.threadLocks;
             && (w.LockThread? ==> !held && (HoldsThread(pc) <==> !busy))
             && (w.UnlockThread? ==> held && !HoldsThread(pc))
             && (!w.LockThread? && !w.UnlockThread? ==> (HoldsThread(pc) <==> held))
    ensures ThreadInv(s.(slots := slots, threadLocks := ActThreads(s.threadLocks, p, s.procs[p].thread, w),
                         procs := s.procs[p := s.procs[p].(pc := pc)]))
  {
  }

  lemma CrashKeepsSlots(s: Sys, p: Pid)
    requires SlotsOk(s) && Enabled(s, Crash(p))
    ensures SlotsOk(Do(s, Crash(p)))
  {
    var t := Do(s, Crash(p));
    forall q | q in t.procs
      ensures t.procs[q].job in t.slots && ProcInv(t.slots[t.procs[q].job], q, t.procs[q])
    {
      assert ProcInv(s.slots[s.procs[q].job], q, s.procs[q]);
    }
    forall j | j in t.slots
      ensures SlotInv(t.slots[j])
    {
      assert SlotInv(s.slots[j]);
    }
  }

  lemma CrashKeepsThreads(s: Sys, p: Pid)
    requires ThreadInv(s) && Enabled(s, Crash(p))
    ensures ThreadInv(Do(s, Crash(p)))
  {
  }

  lemma ActKeepsThreads(s: Sys, p: Pid, w: Work)
    requires ThreadInv(s) && Enabled(s, Act(p, w))
    ensures ThreadInv(Do(s, Act(p, w)))
  {
    var q := s.procs[p];
    var slot, busy := s.slots[q.job], q.thread in s.threadLocks;
    ThreadLocally(slot, q.pc, w, busy);
    ThreadMoves(s, p, s.slots[q.job := ActSlot(slot, p, q, w)], ActPc(slot, q.pc, w, busy), w);
  }

  lemma InvokeKeepsSlots(s: Sys, p: Pid, j: JobId, t: ThreadId)
    requires SlotsOk(s) && Enabled(s, Invoke(p, j, t))
    ensures SlotsOk(Do(s, Invoke(p, j, t)))
  {
  }

  lemma JobKeepsSlots(s: Sys, step: Step)
    requires SlotsOk(s) && Enabled(s, step) && (step.JobCreated? || step.JobMoves?)
    ensures SlotsOk(Do(s, step))
  {
  }

  /** The cleaner changes no receipt and no job; of the other files exactly the stale ones go. */
  lemma CleanKeepsSlots(s: Sys, stale: set<Artifact>)
    ensures Do(s, Clean(stale)).slots == s.slots
    ensures forall n :: n in Do(s, Clean(stale)).others <==> n in s.others && Other(n) !in stale
  {
  }

  /** Steps outside the invocations. */
  lemma OutsideKeepsSlots(s: Sys, step: Step)
    requires SlotsOk(s) && Enabled(s, step) && !step.Act? && !step.Crash?
    ensures SlotsOk(Do(s, step))
  {
    match step
    case Invoke(p, j, t) => InvokeKeepsSlots(s, p, j, t);
    case Clean(stale) => CleanKeepsSlots(s, stale);
    case OrphanEnds(_) =>
    case _ => JobKeepsSlots(s, step);
  }

  lemma OutsideKeepsThreads(s: Sys, step: Step)
    requires ThreadInv(s) && Enabled(s, step) && !step.Act? && !step.Crash?
    ensures ThreadInv(Do(s, step))
  {
  }

  lemma StepKeepsInv(s: Sys, step: Step)
    requires Inv(s) && Enabled(s, step)
    ensures Inv(Do(s, step))
  {
    match step
    case Act(p, w) =>
      ActKeepsSlots(s, p, w);
      ActKeepsThreads(s, p, w);
    case Crash(p) =>
      CrashKeepsSlots(s, p);
      CrashKeepsThreads(s, p);
    case _ =>
      OutsideKeepsSlots(s, step);
      OutsideKeepsThreads(s, step);
  }

  lemma NextKeepsInv(s: Sys, t: Sys)
    requires Inv(s) && Next(s, t)
    ensures Inv(t)
  {
    var step :| Enabled(s, step) && t == Do(s, step);
    StepKeepsInv(s, step);
  }

  lemma Reachable(run: seq<Sys>, i: nat)
    requires Behavior(run) && i < |run|
    ensures Inv(run[i])
  {
    forall s, t | Inv(s) && Next(s, t) ensures Inv(t) {
      NextKeepsInv(s, t);
    }
    Keeps(run, Init, Next, Inv, i);
  }

  // ----- what every run guarantees -----

  /** The receipt of job j exists and names this thread and status. */
  predicate Receipted(s: Sys, j: JobId, thread: ThreadId, status: Status) {
    j in s.slots && s.slots[j].receipt.Some?
    && s.slots[j].receipt.value.thread == thread && s.slots[j].receipt.value.status == status
  }

  lemma ActKeepsReceipt(slot: Slot, p: Pid, q: Proc, w: Work)
    requires ProcInv(slot, p, q) && MayAct(slot, q.pc, w) && slot.receipt.Some?
    ensures var next := ActSlot(slot, p, q, w);
            && next.receipt.Some? && next.queued >= slot.queued
            && next.receipt.value.thread == slot.receipt.value.thread
            && next.receipt.value.status == slot.receipt.value.status
  {
  }

  lemma ReceiptStep(s: Sys, step: Step, j: JobId, thread: ThreadId, status: Status)
    requires SlotsOk(s) && Enabled(s, step) && Receipted(s, j, thread, status)
    ensures Receipted(Do(s, step), j, thread, status) && Do(s, step).slots[j].queued >= s.slots[j].queued
  {
    match step
    case Act(p, w) =>
      if s.procs[p].job == j {
        ActKeepsReceipt(s.slots[j], p, s.procs[p], w);
      }
    case _ =>
  }

  lemma ReceiptNext(run: seq<Sys>, i: nat, j: JobId, thread: ThreadId, status: Status)
    requires Behavior(run) && i + 1 < |run| && Receipted(run[i], j, thread, status)
    ensures Receipted(run[i + 1], j, thread, status) && run[i + 1].slots[j].queued >= run[i].slots[j].queued
  {
    Reachable(run, i);
    assert Follows(run, Next, i);
    var step :| Enabled(run[i], step) && run[i + 1] == Do(run[i], step);
    ReceiptStep(run[i], step, j, thread, status);
  }

  /** A receipt outlives everything, cleaning included, and is never retargeted. */
  lemma {:induction false} ReceiptForEver(run: seq<Sys>, i: nat, k: nat, j: JobId, thread: ThreadId, status: Status)
    requires Behavior(run) && i <= k < |run| && Receipted(run[i], j, thread, status)
    ensures Receipted(run[k], j, thread, status) && run[k].slots[j].queued >= run[i].slots[j].queued
  {
    if i == k {
    } else {
      ReceiptForEver(run, i, k - 1, j, thread, status);
      ReceiptNext(run, k - 1, j, thread, status);
    }
  }

  /** The step from run[i] starts the queue command for job j. */
  ghost predicate Starts(run: seq<Sys>, i: nat, p: Pid, j: JobId) {
    && i + 1 < |run| && Enabled(run[i], Act(p, StartQueue)) && run[i + 1] == Do(run[i], Act(p, StartQueue))
    && run[i].procs[p].job == j
  }

  /** When the command starts, an intent receipt for the same thread and status is already durable. */
  lemma IntentComesFirst(run: seq<Sys>, i: nat, p: Pid, j: JobId)
    requires Behavior(run) && Starts(run, i, p, j)
    ensures run[i].slots[j].receipt == Some(Receipt(run[i].procs[p].thread, run[i].procs[p].pc.status, Intent))
    ensures run[i].slots[j].queued == 0 && run[i + 1].slots[j].queued == 1
    ensures run[i + 1].slots[j].sent == Some(run[i].slots[j].status) && Terminal(run[i].slots[j].status)
    ensures Receipted(run[i + 1], j, run[i].procs[p].thread, run[i].procs[p].pc.status)
  {
    Reachable(run, i);
    assert ProcInv(run[i].slots[j], p, run[i].procs[p]);
  }

  lemma StartStaysCounted(run: seq<Sys>, i: nat, p: Pid, k: nat, j: JobId)
    requires Behavior(run) && Starts(run, i, p, j) && i < k < |run|
    ensures j in run[k].slots && run[k].slots[j].queued >= 1
  {
    IntentComesFirst(run, i, p, j);
    ReceiptForEver(run, i + 1, k, j, run[i].procs[p].thread, run[i].procs[p].pc.status);
  }

  lemma StarterIsUnique(s: Sys, p: Pid, q: Pid)
    requires SlotsOk(s) && Enabled(s, Act(p, StartQueue)) && Enabled(s, Act(q, StartQueue))
    requires s.procs[p].job == s.procs[q].job
    ensures p == q
  {
    assert ProcInv(s.slots[s.procs[p].job], p, s.procs[p]) && ProcInv(s.slots[s.procs[q].job], q, s.procs[q]);
  }

  /** At most once: two starts of the queue command for one job are the same start. */
  lemma AtMostOnce(run: seq<Sys>, i: nat, p: Pid, k: nat, q: Pid, j: JobId)
    requires Behavior(run) && Starts(run, i, p, j) && Starts(run, k, q, j) && i <= k
    ensures i == k && p == q
  {
    if i < k {
      StartStaysCounted(run, i, p, k, j);
      IntentComesFirst(run, k, q, j);
    } else {
      Reachable(run, i);
      StarterIsUnique(run[i], p, q);
    }
  }

  /** What was sent is still what the job's record says. */
  lemma SentIsPersisted(run: seq<Sys>, i: nat, j: JobId)
    requires Behavior(run) && i < |run| && j in run[i].slots && run[i].slots[j].sent.Some?
    ensures run[i].slots[j].sent.value == run[i].slots[j].status && Terminal(run[i].slots[j].status)
  {
    Reachable(run, i);
    assert SlotInv(run[i].slots[j]);
  }

  /** Among live invocations at most one has a queue command in flight to a given thread. */
  lemma OneInFlightPerThread(run: seq<Sys>, i: nat, p: Pid, q: Pid)
    requires Behavior(run) && i < |run| && p in run[i].procs && q in run[i].procs
    requires run[i].procs[p].pc.Queueing? && run[i].procs[q].pc.Queueing?
    requires run[i].procs[p].thread == run[i].procs[q].thread
    ensures p == q
  {
    Reachable(run, i);
    assert HoldsThread(run[i].procs[p].pc) && HoldsThread(run[i].procs[q].pc);
  }

  /** A queue command to thread t under process id p, of a live invocation or of one that crashed. */
  predicate InFlight(s: Sys, p: Pid, t: ThreadId) {
    (p in s.procs && s.procs[p].pc.Queueing? && s.procs[p].thread == t) || (p in s.orphans && s.orphans[p] == t)
  }

  ghost predicate OnlyInFlight(s: Sys, p: Pid, t: ThreadId) {
    forall q :: InFlight(s, q, t) ==> q == p
  }

  predicate NoOrphanOf(s: Sys, p: Pid, t: ThreadId) {
    forall q :: q in s.orphans && q != p ==> s.orphans[q] != t
  }

  /**
   Counting the commands that outlived their invocations: a command that starts is the only one in
   flight to its thread exactly if no orphan of that thread is left when it starts.
  */
  lemma StartIsExclusiveIff(run: seq<Sys>, i: nat, p: Pid, j: JobId)
    requires Behavior(run) && Starts(run, i, p, j)
    ensures var t := run[i].procs[p].thread;
            && InFlight(run[i + 1], p, t)
            && (OnlyInFlight(run[i + 1], p, t) <==> NoOrphanOf(run[i], p, t))
  {
    var s, u, t := run[i], run[i + 1], run[i].procs[p].thread;
    if NoOrphanOf(s, p, t) {
      forall q | InFlight(u, q, t) ensures q == p {
        if q in u.procs && u.procs[q].pc.Queueing? && u.procs[q].thread == t {
          OneInFlightPerThread(run, i + 1, p, q);
        }
      }
    }
    if OnlyInFlight(u, p, t) {
      forall q | q in s.orphans && q != p ensures s.orphans[q] != t {
        assert !InFlight(u, q, t);
      }
    }
  }

  /**
   Wherever one live command runs and another job's invocation is about to ask for the thread, a crash lets
   both run.
  */
  lemma OrphanMayOverlap(s: Sys, p: Pid, q: Pid)
    requires Inv(s) && p != q && p in s.procs && s.procs[p].pc.Queueing?
    requires q in s.procs && s.procs[q].pc.NoReceipt? && s.procs[q].thread == s.procs[p].thread
    ensures var a := Do(s, Crash(p));
            && Enabled(a, Act(q, LockThread))
            && var b := Do(a, Act(q, LockThread));
               && Enabled(b, Act(q, SaveIntent(true)))
               && var c := Do(b, Act(q, SaveIntent(true)));
                  && Enabled(c, Act(q, StartQueue))
                  && var d := Do(c, Act(q, StartQueue));
                     d.procs[q].pc.Queueing? && p in d.orphans && d.orphans[p] == d.procs[q].thread
  {
    assert s.threadLocks[s.procs[p].thread] == p;
  }

  lemma Extended(run: seq<Sys>, step: Step) returns (longer: seq<Sys>)
    requires Behavior(run) && Enabled(run[|run| - 1], step)
    ensures Behavior(longer) && longer == run + [Do(run[|run| - 1], step)]
  {
    longer := run + [Do(run[|run| - 1], step)];
    Runs.Extended(run, Init, Next, Do(run[|run| - 1], step));
  }

  /** Two finished jobs with an invocation each, both for thread 0. */
  lemma TwoInvocations() returns (run: seq<Sys>)
    ensures Behavior(run)
    ensures var idle := Slot(Failed, None, None, 0, None);
            run[|run| - 1] == Sys(map[0 := idle, 1 := idle], map[],
                                  map[0 := Proc(0, 0, Waiting), 1 := Proc(1, 0, Waiting)], map[], {})
  {
    run := [Sys(map[], map[], map[], map[], {})];
    run := Extended(run, JobCreated(0));
    run := Extended(run, JobMoves(0, Failed));
    run := Extended(run, JobCreated(1));
    run := Extended(run, JobMoves(1, Failed));
    run := Extended(run, Invoke(0, 0, 0));
    run := Extended(run, Invoke(1, 1, 0));
  }

  /** The first one runs its command while the second one has found no receipt for its own job. */
  lemma CommandBesideNewcomer() returns (run: seq<Sys>)
    ensures Behavior(run)
    ensures var receipt := Receipt(0, Failed, Intent);
            var sending := Slot(Failed, Some(receipt), Some(0), 1, Some(Failed));
            var waiting := Slot(Failed, None, Some(1), 0, None);
            run[|run| - 1] == Sys(map[0 := sending, 1 := waiting], map[0 := 0],
                                  map[0 := Proc(0, 0, Queueing(Failed)), 1 := Proc(1, 0, NoReceipt(Failed))], map[], {})
  {
    run := TwoInvocations();
    run := Extended(run, Act(0, SeeTerminal));
    run := Extended(run, Act(0, LockJob));
    run := Extended(run, Act(0, CheckReceipt));
    run := Extended(run, Act(0, LockThread));
    run := Extended(run, Act(0, SaveIntent(true)));
    run := Extended(run, Act(0, StartQueue));
    run := Extended(run, Act(1, SeeTerminal));
    run := Extended(run, Act(1, LockJob));
    run := Extended(run, Act(1, CheckReceipt));
  }

  /**
   The overlap is reachable: the first invocation dies while its command runs, its thread lock is
   freed, and the second one starts another command for the same thread.
  */
  lemma OrphanOverlaps() returns (run: seq<Sys>)
    ensures Behavior(run) && |run| >= 2 && Starts(run, |run| - 2, 1, 1)
    ensures InFlight(run[|run| - 1], 0, 0) && InFlight(run[|run| - 1], 1, 0)
  {
    run := CommandBesideNewcomer();
    run := Extended(run, Crash(0));
    run := Extended(run, Act(1, LockThread));
    run := Extended(run, Act(1, SaveIntent(true)));
    run := Extended(run, Act(1, StartQueue));
  }

  /** s with invocation p at another place, its job's slot and the thread locks replaced. */
  function At(s: Sys, p: Pid, slot: Slot, locks: map<ThreadId, Pid>, pc: Pc): Sys
    requires p in s.procs
  {
    s.(slots := s.slots[s.procs[p].job := slot], threadLocks := locks, procs := s.procs[p := s.procs[p].(pc := pc)])
  }

  /** Invocation p waits for a finished job. */
  predicate ReadyToDeliver(s: Sys, p: Pid) {
    && p in s.procs && s.procs[p].pc.Waiting? && s.procs[p].job in s.slots
    && s.slots[s.procs[p].job].status in {Completed, Failed, Cancelled}
  }

  lemma SeenAndLocked(run: seq<Sys>, p: Pid) returns (longer: seq<Sys>)
    requires Behavior(run) && ReadyToDeliver(run[|run| - 1], p)
    requires run[|run| - 1].slots[run[|run| - 1].procs[p].job].lock.None?
    ensures var s := run[|run| - 1];
            var slot := s.slots[s.procs[p].job];
            && Behavior(longer) && run <= longer
            && longer[|longer| - 1] == At(s, p, slot.(lock := Some(p)), s.threadLocks, JobLocked(slot.status))
  {
    longer := Extended(run, Act(p, SeeTerminal));
    longer := Extended(longer, Act(p, LockJob));
  }

  lemma IntentSavedNext(run: seq<Sys>, s: Sys, p: Pid, slot: Slot) returns (longer: seq<Sys>)
    requires Behavior(run) && p in s.procs && s.procs[p].thread !in s.threadLocks
    requires slot.receipt.None? && run[|run| - 1] == At(s, p, slot, s.threadLocks, JobLocked(slot.status))
    ensures Behavior(longer) && run <= longer
    ensures var intent := Receipt(s.procs[p].thread, slot.status, Intent);
            longer[|longer| - 1] ==
            At(s, p, slot.(receipt := Some(intent)), s.threadLocks[s.procs[p].thread := p], IntentSaved(slot.status))
  {
    longer := Extended(run, Act(p, CheckReceipt));
    longer := Extended(longer, Act(p, LockThread));
    longer := Extended(longer, Act(p, SaveIntent(true)));
  }

  /** How the receipt ends: cut means that an interrupt came before the command. */
  function Ended(cut: bool, accepted: bool, first: bool, second: bool): Delivery {
    if !cut && accepted && first then QueueAccepted else if second then DeliveryUnknown else Intent
  }

  lemma CommandEnds(run: seq<Sys>, s: Sys, p: Pid, slot: Slot, locks: map<ThreadId, Pid>, accepted: bool)
    returns (longer: seq<Sys>)
    requires Behavior(run) && p in s.procs
    requires run[|run| - 1] == At(s, p, slot, locks, IntentSaved(slot.status))
    ensures Behavior(longer) && run <= longer
    ensures longer[|longer| - 1] ==
            At(s, p, slot.(queued := slot.queued + 1, sent := Some(slot.status)), locks,
               Answered(slot.status, accepted))
  {
    longer := Extended(run, Act(p, StartQueue));
    longer := Extended(longer, Act(p, QueueEnds(accepted)));
  }

  lemma OutcomeSavedNext(run: seq<Sys>, s: Sys, p: Pid, slot: Slot, locks: map<ThreadId, Pid>,
                         cut: bool, accepted: bool, first: bool, second: bool) returns (longer: seq<Sys>)
    requires Behavior(run) && p in s.procs
    requires run[|run| - 1] == At(s, p, slot, locks, IntentSaved(slot.status))
    requires slot.receipt == Some(Receipt(s.procs[p].thread, slot.status, Intent))
    ensures Behavior(longer) && run <= longer
    ensures var receipt := Some(Receipt(s.procs[p].thread, slot.status, Ended(cut, accepted, first, second)));
            var left := slot.(receipt := receipt);
            longer[|longer| - 1] ==
            At(s, p, if cut then left else left.(queued := slot.queued + 1, sent := Some(slot.status)),
               locks, ThreadHeld)
  {
    if cut {
      longer := Extended(run, Act(p, Interrupt));
      longer := Extended(longer, Act(p, SaveOutcome(first, second)));
    } else {
      longer := CommandEnds(run, s, p, slot, locks, accepted);
      longer := Extended(longer, Act(p, SaveOutcome(first, second)));
    }
  }

  lemma UnlockedNext(run: seq<Sys>, s: Sys, p: Pid, slot: Slot) returns (longer: seq<Sys>)
    requires Behavior(run) && p in s.procs && s.procs[p].thread !in s.threadLocks
    requires run[|run| - 1] == At(s, p, slot, s.threadLocks[s.procs[p].thread := p], ThreadHeld)
    ensures Behavior(longer) && run <= longer
    ensures longer[|longer| - 1] == At(s, p, slot.(lock := None), s.threadLocks, Done)
  {
    longer := Extended(run, Act(p, UnlockThread));
    longer := Extended(longer, Act(p, UnlockJob));
    assert s.threadLocks[s.procs[p].thread := p] - {s.procs[p].thread} == s.threadLocks;
  }

  /**
   An invocation that finds its job finished, without a receipt, and both locks free can get its status delivered
   from whatever state: the command runs once more unless an interrupt comes before it, the receipt says how it went
   as far as that can be saved, and both locks are free again.
  */
  lemma DeliveryGoesThrough(run: seq<Sys>, p: Pid, cut: bool, accepted: bool, first: bool, second: bool)
    returns (longer: seq<Sys>)
    requires Behavior(run) && ReadyToDeliver(run[|run| - 1], p)
    requires var s := run[|run| - 1];
             var slot := s.slots[s.procs[p].job];
             slot.lock.None? && slot.receipt.None? && s.procs[p].thread !in s.threadLocks
    ensures Behavior(longer) && run <= longer
    ensures var s := run[|run| - 1];
            var slot := s.slots[s.procs[p].job];
            var receipt := Some(Receipt(s.procs[p].thread, slot.status, Ended(cut, accepted, first, second)));
            var left := slot.(receipt := receipt);
            longer[|longer| - 1] ==
            At(s, p, if cut then left else left.(queued := slot.queued + 1, sent := Some(slot.status)),
               s.threadLocks, Done)
  {
    var s := run[|run| - 1];
    var slot := s.slots[s.procs[p].job];
    var locked := slot.(lock := Some(p));
    var locks := s.threadLocks[s.procs[p].thread := p];
    var announced := locked.(receipt := Some(Receipt(s.procs[p].thread, slot.status, Intent)));
    longer := SeenAndLocked(run, p);
    longer := IntentSavedNext(longer, s, p, locked);
    longer := OutcomeSavedNext(longer, s, p, announced, locks, cut, accepted, first, second);
    var held := longer[|longer| - 1].slots[s.procs[p].job];
    longer := UnlockedNext(longer, s, p, held);
  }

  /** A command that outlived its invocation may end at any time, and takes nothing else with it. */
  lemma OrphansEnd(s: Sys, p: Pid)
    ensures Enabled(s, OrphanEnds(p)) <==> p in s.orphans
    ensures p in s.orphans ==> Do(s, OrphanEnds(p)) == s.(orphans := s.orphans - {p})
  {
  }

  /** If the intent cannot be saved, it ends and changes nothing. */
  lemma IntentFailureGoesThrough(run: seq<Sys>, p: Pid) returns (longer: seq<Sys>)
    requires Behavior(run) && ReadyToDeliver(run[|run| - 1], p)
    requires var s := run[|run| - 1];
             var slot := s.slots[s.procs[p].job];
             slot.lock.None? && slot.receipt.None? && s.procs[p].thread !in s.threadLocks
    ensures Behavior(longer) && run <= longer
    ensures var s := run[|run| - 1];
            longer[|longer| - 1] == At(s, p, s.slots[s.procs[p].job], s.threadLocks, Done)
  {
    var s := run[|run| - 1];
    longer := SeenAndLocked(run, p);
    longer := Extended(longer, Act(p, CheckReceipt));
    longer := Extended(longer, Act(p, LockThread));
    longer := Extended(longer, Act(p, SaveIntent(false)));
    longer := UnlockedNext(longer, s, p, s.slots[s.procs[p].job].(lock := Some(p)));
  }

  /** A crash frees the locks of the invocation; only a running command outlives it. */
  lemma CrashLeaves(s: Sys, p: Pid)
    requires Enabled(s, Crash(p))
    ensures var t := Do(s, Crash(p));
            && t.procs == s.procs - {p} && t.slots.Keys == s.slots.Keys && t.others == s.others
            && (forall j :: j in s.slots ==>
                  t.slots[j] == s.slots[j].(lock := if s.slots[j].lock == Some(p) then None else s.slots[j].lock))
            && (forall h :: h in t.threadLocks <==> h in s.threadLocks && s.threadLocks[h] != p)
            && (forall h :: h in t.threadLocks ==> t.threadLocks[h] == s.threadLocks[h])
            && t.orphans == if s.procs[p].pc.Queueing? then s.orphans[p := s.procs[p].thread] else s.orphans
  {
  }

  /** One that finds the job's lock taken, a receipt or its thread busy can only end, and changes nothing. */
  lemma RefusalGoesThrough(run: seq<Sys>, p: Pid) returns (longer: seq<Sys>)
    requires Behavior(run) && ReadyToDeliver(run[|run| - 1], p)
    requires var s := run[|run| - 1];
             var slot := s.slots[s.procs[p].job];
             slot.lock.Some? || slot.receipt.Some? || s.procs[p].thread in s.threadLocks
    ensures Behavior(longer) && run <= longer
    ensures var s := run[|run| - 1];
            longer[|longer| - 1] == At(s, p, s.slots[s.procs[p].job], s.threadLocks, Done)
  {
    var s := run[|run| - 1];
    var slot := s.slots[s.procs[p].job];
    if slot.lock.Some? {
      longer := Extended(run, Act(p, SeeTerminal));
      longer := Extended(longer, Act(p, LockJob));
    } else {
      longer := SeenAndLocked(run, p);
      longer := Extended(longer, Act(p, CheckReceipt));
      if slot.receipt.None? {
        longer := Extended(longer, Act(p, LockThread));
      }
      longer := Extended(longer, Act(p, UnlockJob));
    }
  }

  // ----- one invocation, in sequence -----

  /** What becomes durable or visible outside, in order. */
  datatype Event = Persisted(job: JobId, receipt: Receipt) | Ran(job: JobId, thread: ThreadId, status: Status)

  datatype QueueOutcome = Accepted | Ambiguous

  /** Where an interrupt hits, if at all. */
  datatype Cut = Uncut | BeforeCommand | AfterAcceptance

  datatype BridgeResult = Delivered | StillRunning | JobBusy | Replay | ThreadBusy | NoIntent | Unclear

  /** The receipts on disk after a sequence of events. */
  function Replayed(log: seq<Event>): map<JobId, Receipt>
    decreases |log|
  {
    if log == [] then map[]
    else
      var front, last := log[..|log| - 1], log[|log| - 1];
      if last.Persisted? then Replayed(front)[last.job := last.receipt] else Replayed(front)
  }

  /** Behind every command lies its intent receipt, and no job had two commands. */
  ghost predicate WriteAhead(log: seq<Event>) {
    && (forall k :: 0 <= k < |log| && log[k].Ran? ==>
          k > 0 && log[k - 1] == Persisted(log[k].job, Receipt(log[k].thread, log[k].status, Intent)))
    && (forall k, m :: 0 <= k < m < |log| && log[k].Ran? && log[m].Ran? ==> log[k].job != log[m].job)
  }

  /** Whoever ran a command has a receipt, whatever the crash point: the claim holds of every prefix. */
  lemma {:induction false} RanHasReceipt(log: seq<Event>, k: nat)
    requires WriteAhead(log) && k < |log| && log[k].Ran?
    ensures log[k].job in Replayed(log)
    decreases |log|
  {
    var front := log[..|log| - 1];
    if k == |log| - 1 {
      assert front[|front| - 1] == log[k - 1];
    } else {
      assert WriteAhead(front) by {
        assert forall i :: 0 <= i < |front| ==> front[i] == log[i];
      }
      RanHasReceipt(front, k);
    }
  }

  /** A job without a receipt had no command. */
  lemma NoneRan(log: seq<Event>, job: JobId)
    requires WriteAhead(log) && job !in Replayed(log)
    ensures forall k :: 0 <= k < |log| && log[k].Ran? ==> log[k].job != job
  {
    forall k | 0 <= k < |log| && log[k].Ran? ensures log[k].job != job {
      RanHasReceipt(log, k);
    }
  }

  class BridgeStore {
    var receipts: map<JobId, Receipt>
    var log: seq<Event>

    /** The receipts are what replaying the log yields, and every command was announced and ran once. */
    ghost predicate Valid()
      reads this
    {
      receipts == Replayed(log) && WriteAhead(log)
    }

    constructor ()
      ensures Valid() && receipts == map[] && log == []
    {
      receipts, log := map[], [];
    }

    method SaveReceipt(job: JobId, r: Receipt)
      requires Valid()
      modifies this
      ensures Valid() && log == old(log) + [Persisted(job, r)]
      ensures job in receipts && receipts[job] == r
      ensures OthersKept(old(receipts), receipts, job)
    {
      receipts := receipts[job := r];
      log := log + [Persisted(job, r)];
      assert log[..|log| - 1] == old(log);
    }

    /** Start the command right after its intent receipt, which must be the first receipt of the job. */
    method StartCommand(job: JobId, thread: ThreadId, status: Status)
      requires Valid() && |log| > 0 && log[|log| - 1] == Persisted(job, Receipt(thread, status, Intent))
      requires forall k :: 0 <= k < |log| && log[k].Ran? ==> log[k].job != job
      modifies this`log
      ensures Valid() && log == old(log) + [Ran(job, thread, status)]
    {
      log := log + [Ran(job, thread, status)];
      assert log[..|log| - 1] == old(log);
    }

    /**
     observed lists the statuses that the wait loop reads before its deadline. The call may be interrupted
     before the command starts or after its acceptance was saved; both make the receipt an unknown one.
    */
    method Run(job: JobId, thread: ThreadId, observed: seq<Status>, jobLockFree: bool, threadLockFree: bool,
               intentOk: bool, outcome: QueueOutcome, firstOk: bool, cut: Cut, secondOk: bool)
      returns (r: BridgeResult)
      requires Valid()
      modifies this
      ensures Valid()
      ensures job in old(receipts) ==> receipts == old(receipts) && log == old(log)
      ensures OthersKept(old(receipts), receipts, job)
      ensures r.StillRunning? <==> forall st :: st in observed ==> !Terminal(st)
      ensures r in {StillRunning, JobBusy, Replay, ThreadBusy, NoIntent} ==>
                receipts == old(receipts) && log == old(log)
      ensures r in {Delivered, Unclear} ==>
        exists st :: st in observed && Terminal(st)
          && job in receipts && receipts[job].thread == thread && receipts[job].status == st
          && log == old(log) + Sent(job, thread, st, !cut.BeforeCommand?)
                    + Outcome(job, thread, st, Acceptance(outcome, firstOk, cut), r.Unclear? && secondOk)
      ensures r.Delivered? ==> receipts[job].state.QueueAccepted?
      ensures r.Unclear? && secondOk ==> receipts[job].state.DeliveryUnknown?
      ensures r.Delivered? <==> old(job !in receipts) && !r.StillRunning? && jobLockFree && threadLockFree && intentOk
                                && outcome.Accepted? && firstOk && cut.Uncut?
      // Which refusal is given.
      ensures r.JobBusy? <==> !r.StillRunning? && !jobLockFree
      ensures r.Replay? <==> !r.StillRunning? && jobLockFree && job in old(receipts)
      ensures r.ThreadBusy? <==> !r.StillRunning? && jobLockFree && job !in old(receipts) && !threadLockFree
      ensures r.NoIntent? <==>
        !r.StillRunning? && jobLockFree && job !in old(receipts) && threadLockFree && !intentOk
      // The status that goes out is the first terminal one that was read, and it goes out unless cut off before.
      ensures r in {Delivered, Unclear} ==>
        exists k :: 0 <= k < |observed| && Terminal(observed[k]) && receipts[job].status == observed[k]
          && (forall j :: 0 <= j < k ==> !Terminal(observed[j]))
          && (Ran(job, thread, observed[k]) in log[|old(log)|..] <==> !cut.BeforeCommand?)
      // What the receipt is left at when nothing more can be saved.
      ensures r.Unclear? && !secondOk ==>
        (receipts[job].state.QueueAccepted? <==> outcome.Accepted? && firstOk && cut.AfterAcceptance?)
      ensures r.Unclear? && !secondOk ==> !receipts[job].state.DeliveryUnknown?
    {
      var i := 0;
      while i < |observed| && !Terminal(observed[i])
        invariant 0 <= i <= |observed|
        invariant forall k :: 0 <= k < i ==> !Terminal(observed[k])
      {
        i := i + 1;
      }
      if i == |observed| {
        return StillRunning;
      }
      var status := observed[i];
      assert status in observed;
      if !jobLockFree {
        return JobBusy;
      }
      if job in receipts {
        return Replay;
      }
      if !threadLockFree {
        return ThreadBusy;
      }
      if !intentOk {
        return NoIntent;
      }
      r := Deliver(job, thread, status, outcome, firstOk, cut, secondOk);
      RanIffStarted(old(log), job, thread, status, !cut.BeforeCommand?,
                    Outcome(job, thread, status, Acceptance(outcome, firstOk, cut), r.Unclear? && secondOk));
    }

    /** From the intent on, for a job without a receipt. */
    method Deliver(job: JobId, thread: ThreadId, status: Status, outcome: QueueOutcome, firstOk: bool, cut: Cut,
                   secondOk: bool)
      returns (r: BridgeResult)
      requires Valid() && job !in receipts
      modifies this
      ensures Valid() && r in {Delivered, Unclear}
      ensures r.Delivered? <==> Acceptance(outcome, firstOk, cut) && cut.Uncut?
      ensures OthersKept(old(receipts), receipts, job)
      ensures job in receipts && receipts[job].thread == thread && receipts[job].status == status
      ensures r.Delivered? ==> receipts[job].state.QueueAccepted?
      ensures r.Unclear? ==>
        receipts[job].state ==
          if secondOk then DeliveryUnknown
          else if outcome.Accepted? && firstOk && !cut.BeforeCommand? then QueueAccepted
          else Intent
      ensures log == old(log) + Sent(job, thread, status, !cut.BeforeCommand?)
                     + Outcome(job, thread, status, Acceptance(outcome, firstOk, cut), r.Unclear? && secondOk)
    {
      NoneRan(log, job);
      SaveReceipt(job, Receipt(thread, status, Intent));
      if !cut.BeforeCommand? {
        StartCommand(job, thread, status);
      }
      assert log == old(log) + Sent(job, thread, status, !cut.BeforeCommand?);
      r := SaveOutcome(job, thread, status, Acceptance(outcome, firstOk, cut), !cut.Uncut?, secondOk);
    }

    /** The receipt after the command; saved tells whether the command was accepted and that could be saved. */
    method SaveOutcome(job: JobId, thread: ThreadId, status: Status, saved: bool, interrupted: bool, secondOk: bool)
      returns (r: BridgeResult)
      requires Valid() && job in receipts && receipts[job] == Receipt(thread, status, Intent)
      modifies this
      ensures Valid() && r in {Delivered, Unclear} && (r.Delivered? <==> saved && !interrupted)
      ensures OthersKept(old(receipts), receipts, job)
      ensures job in receipts && receipts[job].thread == thread && receipts[job].status == status
      ensures r.Delivered? ==> receipts[job].state.QueueAccepted?
      ensures r.Unclear? ==>
        receipts[job].state == if secondOk then DeliveryUnknown else if saved then QueueAccepted else Intent
      ensures log == old(log) + Outcome(job, thread, status, saved, r.Unclear? && secondOk)
    {
      if saved {
        SaveReceipt(job, Receipt(thread, status, QueueAccepted));
        if !interrupted {
          return Delivered;
        }
      }
      if secondOk {
        SaveReceipt(job, Receipt(thread, status, DeliveryUnknown));
      }
      return Unclear;
    }
  }

  /** The intent, and the command unless an interrupt came before it. */
  function Sent(job: JobId, thread: ThreadId, status: Status, started: bool): seq<Event> {
    [Persisted(job, Receipt(thread, status, Intent))] + if started then [Ran(job, thread, status)] else []
  }

  lemma RanIffStarted(before: seq<Event>, job: JobId, thread: ThreadId, status: Status, started: bool,
                      rest: seq<Event>)
    requires forall e :: e in rest ==> e.Persisted?
    ensures var log := before + Sent(job, thread, status, started) + rest;
            Ran(job, thread, status) in log[|before|..] <==> started
  {
    var log := before + Sent(job, thread, status, started) + rest;
    assert log[|before|..] == Sent(job, thread, status, started) + rest;
  }

  /** The command ran, was accepted, and that could be saved. */
  predicate Acceptance(outcome: QueueOutcome, firstOk: bool, cut: Cut) {
    outcome.Accepted? && firstOk && !cut.BeforeCommand?
  }

  /** What is persisted after the command. */
  function Outcome(job: JobId, thread: ThreadId, status: Status, accepted: bool, unknown: bool): seq<Event> {
    (if accepted then [Persisted(job, Receipt(thread, status, QueueAccepted))] else [])
    + (if unknown then [Persisted(job, Receipt(thread, status, DeliveryUnknown))] else [])
  }

  ghost predicate OthersKept(before: map<JobId, Receipt>, after: map<JobId, Receipt>, job: JobId) {
    forall other :: other != job ==>
      && (other in after <==> other in before)
      && (other in after ==> after[other] == before[other])
  }

  // ----- the cleaner -----

  datatype Listed = Listed(file: Artifact, modified: int, isLock: bool, guarded: bool,
                           statFails: bool, locked: bool, unlinkFails: bool)

  /** An old, readable file that is no lock file, not protected and no receipt. */
  predicate Expired(f: Listed, cutoff: int) {
    Cleanable(f.file) && !f.isLock && !f.guarded && !f.statFails && f.modified < cutoff
  }

  /** What becomes of a file. */
  datatype Fate = Kept | Deleted | Skipped

  /** A file whose removal fails is passed over in silence; a dry run removes nothing, so nothing fails. */
  function FateOf(f: Listed, cutoff: int, dryRun: bool): Fate {
    if !Expired(f, cutoff) then Kept
    else if f.locked then Skipped
    else if f.unlinkFails && !dryRun then Kept
    else Deleted
  }

  /** Some file listed in the first n directories has the fate asked for. */
  ghost predicate ListedWith(directories: seq<seq<Listed>>, n: nat, cutoff: int, dryRun: bool, fate: Fate, a: Artifact)
    requires n <= |directories|
  {
    exists d, k :: 0 <= d < n && 0 <= k < |directories[d]| && directories[d][k].file == a
                   && FateOf(directories[d][k], cutoff, dryRun) == fate
  }

  ghost predicate FileWith(files: seq<Listed>, n: nat, cutoff: int, dryRun: bool, fate: Fate, a: Artifact)
    requires n <= |files|
  {
    exists k :: 0 <= k < n && files[k].file == a && FateOf(files[k], cutoff, dryRun) == fate
  }

  /**
   Deletes exactly the expired unlocked files that can be removed and reports the locked ones. The walk skips the
   receipt directory as a whole, so no receipt is ever lost. A dry run only reports.
  */
  method CleanArtifacts(directories: seq<seq<Listed>>, inReceipts: seq<bool>, cutoff: int, dryRun: bool,
                        present: set<Artifact>)
    returns (remaining: set<Artifact>, deleted: seq<Artifact>, skipped: seq<Artifact>)
    requires |directories| == |inReceipts|
    requires forall d, k :: 0 <= d < |directories| && 0 <= k < |directories[d]| ==>
               (inReceipts[d] <==> directories[d][k].file.ReceiptFile?)
    ensures forall a :: a in deleted <==> ListedWith(directories, |directories|, cutoff, dryRun, Deleted, a)
    ensures forall a :: a in skipped <==> ListedWith(directories, |directories|, cutoff, dryRun, Skipped, a)
    ensures remaining == if dryRun then present else present - (set a | a in deleted)
    ensures forall a :: a in present && a.ReceiptFile? ==> a in remaining
  {
    remaining, deleted, skipped := present, [], [];
    for d := 0 to |directories|
      invariant forall a :: a in deleted <==> ListedWith(directories, d, cutoff, dryRun, Deleted, a)
      invariant forall a :: a in skipped <==> ListedWith(directories, d, cutoff, dryRun, Skipped, a)
      invariant remaining == if dryRun then present else present - (set a | a in deleted)
    {
      var files := directories[d];
      ghost var deletedBefore, skippedBefore := deleted, skipped;
      if !inReceipts[d] {
        for k := 0 to |files|
          invariant forall a :: a in deleted <==> a in deletedBefore || FileWith(files, k, cutoff, dryRun, Deleted, a)
          invariant forall a :: a in skipped <==> a in skippedBefore || FileWith(files, k, cutoff, dryRun, Skipped, a)
          invariant remaining == if dryRun then present else present - (set a | a in deleted)
        {
          var f := files[k];
          if !f.guarded && !f.isLock && !f.statFails && f.modified < cutoff {
            if f.locked {
              skipped := skipped + [f.file];
            } else if dryRun || !f.unlinkFails {
              if !dryRun {
                remaining := remaining - {f.file};
              }
              deleted := deleted + [f.file];
            }
          }
        }
      }
      forall a, fate: Fate | !fate.Kept?
        ensures ListedWith(directories, d + 1, cutoff, dryRun, fate, a)
           <==> ListedWith(directories, d, cutoff, dryRun, fate, a) || FileWith(files, |files|, cutoff, dryRun, fate, a)
      {
        ListedWithNext(directories, d, cutoff, dryRun, fate, a);
      }
    }
  }

  lemma ListedWithNext(directories: seq<seq<Listed>>, d: nat, cutoff: int, dryRun: bool, fate: Fate, a: Artifact)
    requires d < |directories|
    ensures ListedWith(directories, d + 1, cutoff, dryRun, fate, a)
       <==> ListedWith(directories, d, cutoff, dryRun, fate, a)
            || FileWith(directories[d], |directories[d]|, cutoff, dryRun, fate, a)
  {
  }
}
