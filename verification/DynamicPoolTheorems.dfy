/** What holds in every run of the dynamic pool. */
module DynamicPoolTheorems {
  import opened Counting
  import opened TaskRing
  import opened DynamicPool
  import opened DynamicPoolInvariants
  import opened DynamicPoolQueue
  import opened DynamicPoolWorkers

  ghost predicate SyncInv(s: State) {
    LockInv(s) && CounterInv(s) && SleepInv(s)
  }

  ghost predicate QueueInv(c: Config, s: State) {
    HolderInv(c, s) && BoundsInv(c, s) && ShapeInv(c, s) && FifoInv(Abs(c, s)) && FullWaitInv(c, s)
  }

  ghost predicate PopulationInv(s: State) {
    LiveInv(s) && BusyInv(s) && SlotInv(s) && TicketInv(s) && ShrinkInv(s)
  }

  ghost predicate Inv(c: Config, s: State) {
    SyncInv(s) && QueueInv(c, s) && PopulationInv(s) && WakeInv(s)
  }

  lemma InvInit(c: Config, garbage: seq<Task>)
    requires ValidConfig(c) && |garbage| == c.cap
    ensures Inv(c, Init(c, garbage)) && !Init(c, garbage).pool.shutdown
  {
    var s := Init(c, garbage);
    assert QueueInv(c, s);
    PopulationInit(c, garbage);
  }

  lemma CountsInit(c: Config, s: State)
    requires s.pool.live == c.minThr == |s.workers| && s.pool.busy == 0 && Uncounted(s) == 0
    requires forall w | 0 <= w < |s.workers| :: s.workers[w].pc == WLock
    ensures LiveInv(s) && BusyInv(s)
  {
    assert Where(s.workers, NotRetired) == Ids(c.minThr);
    assert Where(s.workers, IsBusy) == {};
  }

  lemma PopulationInit(c: Config, garbage: seq<Task>)
    requires ValidConfig(c) && |garbage| == c.cap
    ensures PopulationInv(Init(c, garbage))
  {
    var s := Init(c, garbage);
    assert SlotInv(s) && TicketInv(s) && ShrinkInv(s);
    CountsInit(c, s);
  }

  /** The worker side depends on few fields. */
  lemma PopulationFrame(s: State, t: State)
    requires PopulationInv(s)
    requires t.workers == s.workers && t.mgr == s.mgr
    requires t.pool.(ring := s.pool.ring, shutdown := s.pool.shutdown) == s.pool
    requires t.log.(accepted := s.log.accepted) == s.log
    requires Retiring(t) == Retiring(s)
    ensures PopulationInv(t)
  {
  }

  lemma InvKeptByProducer(c: Config, s: State, p: nat, wake: set<nat>)
    requires Inv(c, s) && p < |s.producers| && ProducerCan(s, p, wake)
    ensures Inv(c, ProducerNext(c, s, p, wake))
  {
    var t := ProducerNext(c, s, p, wake);
    LocksKeptByProducer(c, s, p, wake);
    SleepKeptByProducer(c, s, p, wake);
    FactsKeptByProducer(c, s, p, wake);
    ProducerRefines(c, s, p, wake);
    FifoKept(c.cap, Abs(c, s), Abs(c, t));
    FullWaitKeptByProducer(c, s, p, wake);
    ProducerWakes(c, s, p, wake);
    if !s.pool.shutdown {
      CoverAfterProducer(s, t, s.producers[p].pc, wake, s.log.strays);
    }
    PopulationKeptByProducer(c, s, p, wake);
  }

  lemma PopulationKeptByProducer(c: Config, s: State, p: nat, wake: set<nat>)
    requires LockInv(s) && PopulationInv(s) && p < |s.producers| && ProducerCan(s, p, wake)
    ensures PopulationInv(ProducerNext(c, s, p, wake))
  {
    var t := ProducerNext(c, s, p, wake);
    ProducerHandover(c, s, p, wake);
    assert t.pool.(ring := s.pool.ring) == s.pool;
    assert t.log.(accepted := s.log.accepted) == s.log;
    PopulationFrame(s, t);
  }

  lemma InvKeptByWorker(c: Config, s: State, w: nat)
    requires Inv(c, s) && w < |s.workers| && WorkerCan(s, w)
    ensures Inv(c, WorkerNext(c, s, w))
  {
    var t := WorkerNext(c, s, w);
    LocksKeptByWorker(c, s, w);
    SleepKeptByWorker(c, s, w);
    FactsKeptByWorker(c, s, w);
    WorkerRefines(c, s, w);
    FifoKept(c.cap, Abs(c, s), Abs(c, t));
    CountsKeptByWorker(c, s, w);
    SlotsKeptByWorker(c, s, w);
    TicketsKeptByWorker(c, s, w);
    FullWaitKeptByWorker(c, s, w);
    ShrinkKeptByWorker(c, s, w);
    WakeKeptByWorker(c, s, w);
  }

  lemma WakeKeptByWorker(c: Config, s: State, w: nat)
    requires Inv(c, s) && w < |s.workers| && WorkerCan(s, w)
    ensures WakeInv(WorkerNext(c, s, w))
  {
    WorkerStrays(c, s, w);
    if !s.pool.shutdown {
      WorkerWakes(c, s, w);
      CoverAfterWorker(s, WorkerNext(c, s, w), w, s.log.strays);
    }
  }

  lemma InvKeptByManager(c: Config, s: State, alive: bool, wake: set<nat>)
    requires Inv(c, s) && ManagerCan(s, alive, wake)
    ensures Inv(c, ManagerNext(c, s, alive, wake))
  {
    var t := ManagerNext(c, s, alive, wake);
    LocksKeptByManager(c, s, alive, wake);
    SleepKeptByManager(c, s, alive, wake);
    FactsKeptByManager(c, s, alive, wake);
    ManagerRefines(c, s, alive, wake);
    CountsKeptByManager(c, s, alive, wake);
    SlotsKeptByManager(c, s, alive, wake);
    TicketsKeptByManager(c, s, alive, wake);
    FullWaitKeptByManager(c, s, alive, wake);
    ShrinkKeptByManager(c, s, alive, wake);
    ManagerWakes(c, s, alive, wake);
    if !s.pool.shutdown {
      CoverKeptByManager(c, s, alive, wake, s.log.strays);
    }
  }

  /** A new call, a shutdown request, or a wakeup without a signal. */
  predicate Environment(step: Step) {
    step.Call? || step.Shutdown? || step.StrayProducer? || step.StrayWorker?
  }

  lemma QueueKeptByEnvironment(c: Config, s: State, step: Step)
    requires LockInv(s) && QueueInv(c, s) && Enabled(s, step) && Environment(step)
    ensures QueueInv(c, Next(c, s, step))
  {
    var t := Next(c, s, step);
    assert t.workers == s.workers && t.mgr == s.mgr && t.lock == s.lock && t.log == s.log;
    assert t.pool.(shutdown := s.pool.shutdown) == s.pool;
    assert Extra(t) == Extra(s);
    assert Abs(c, t) == Abs(c, s);
  }

  lemma WakeKeptByEnvironment(c: Config, s: State, step: Step)
    requires WakeInv(s) && Enabled(s, step) && Environment(step)
    requires LockInv(s)
    ensures WakeInv(Next(c, s, step))
  {
    var t := Next(c, s, step);
    assert t.workers == s.workers && t.lock == s.lock;
    assert t.notEmpty <= s.notEmpty && Pending(t) == Pending(s);
    SubsetCard(Contending(s), Contending(t));
  }

  lemma SyncKeptByEnvironment(c: Config, s: State, step: Step)
    requires SyncInv(s) && Enabled(s, step) && Environment(step)
    ensures SyncInv(Next(c, s, step))
  {
  }

  lemma PopulationKeptByEnvironment(c: Config, s: State, step: Step)
    requires LockInv(s) && PopulationInv(s) && Enabled(s, step) && Environment(step)
    ensures PopulationInv(Next(c, s, step))
  {
    PopulationFrame(s, Next(c, s, step));
  }

  lemma InvKeptByEnvironment(c: Config, s: State, step: Step)
    requires Inv(c, s) && Enabled(s, step) && Environment(step)
    ensures Inv(c, Next(c, s, step))
  {
    SyncKeptByEnvironment(c, s, step);
    QueueKeptByEnvironment(c, s, step);
    PopulationKeptByEnvironment(c, s, step);
    WakeKeptByEnvironment(c, s, step);
  }

  lemma InvKept(c: Config, s: State, step: Step)
    requires Inv(c, s) && Enabled(s, step)
    ensures Inv(c, Next(c, s, step))
  {
    match step
    case ProducerStep(p, wake) => InvKeptByProducer(c, s, p, wake);
    case WorkerStep(w) => InvKeptByWorker(c, s, w);
    case ManagerStep(alive, wake) => InvKeptByManager(c, s, alive, wake);
    case _ => InvKeptByEnvironment(c, s, step);
  }

  lemma {:induction false} InvAlong(c: Config, s: State, steps: seq<Step>)
    requires Inv(c, s) && Feasible(c, s, steps)
    ensures Inv(c, Exec(c, s, steps))
    decreases |steps|
  {
    if steps != [] {
      InvKept(c, s, steps[0]);
      InvAlong(c, Next(c, s, steps[0]), steps[1..]);
    }
  }

  /** A state of some run that `threadpool_create` started. */
  ghost predicate Reachable(c: Config, s: State) {
    exists garbage, steps :: Reaches(c, garbage, steps, s)
  }

  ghost predicate Reaches(c: Config, garbage: seq<Task>, steps: seq<Step>, s: State) {
    && ValidConfig(c) && |garbage| == c.cap
    && Feasible(c, Init(c, garbage), steps)
    && s == Exec(c, Init(c, garbage), steps)
  }

  lemma InvAlways(c: Config, s: State)
    requires Reachable(c, s)
    ensures Inv(c, s)
  {
    var garbage, steps :| Reaches(c, garbage, steps, s);
    InvInit(c, garbage);
    InvAlong(c, Init(c, garbage), steps);
  }

  lemma ReachableNext(c: Config, s: State, step: Step)
    requires Reachable(c, s) && Enabled(s, step)
    ensures Reachable(c, Next(c, s, step))
  {
    var garbage, steps :| Reaches(c, garbage, steps, s);
    var t := Next(c, s, step);
    ExecCons(c, s, step, [], t);
    ExecAppend(c, Init(c, garbage), steps, [step] + []);
    assert Reaches(c, garbage, steps + ([step] + []), t);
  }

  // ------------------------------------------------------------ the bounded FIFO

  /** Whenever `lock` is free the ring is a queue in the code's own terms, and all
      that was accepted is what was dequeued, in order, then what is queued. */
  lemma RingIsQueueWhenFree(c: Config, s: State)
    requires Reachable(c, s) && s.lock == Free
    ensures var r := s.pool.ring;
      && 0 <= r.size <= c.cap == |r.cells|
      && 0 <= r.front < c.cap
      && r.rear == (r.front + r.size) % c.cap
      && s.log.accepted == s.log.taken + Contents(r.cells, r.front, r.size)
  {
    InvAlways(c, s);
    RingWhenFree(c, s);
  }

  lemma RingWhenFree(c: Config, s: State)
    requires ShapeInv(c, s) && FifoInv(Abs(c, s)) && BoundsInv(c, s) && s.lock == Free
    ensures var r := s.pool.ring;
      && 0 <= r.size <= c.cap == |r.cells|
      && 0 <= r.front < c.cap
      && r.rear == (r.front + r.size) % c.cap
      && s.log.accepted == s.log.taken + Contents(r.cells, r.front, r.size)
  {
    PosIsMod(s.pool.ring.front, s.pool.ring.size, c.cap);
  }

  /** Every statement of every thread is a step of the bounded FIFO queue, or none
      at all; what a call enqueues is its own task, and what a worker dequeues is
      the oldest one. */
  lemma StepRefinesFifo(c: Config, s: State, step: Step)
    requires Reachable(c, s) && Enabled(s, step)
    ensures ShapeInv(c, s) && ShapeInv(c, Next(c, s, step))
    ensures FifoStep(c.cap, Abs(c, s), Abs(c, Next(c, s, step)))
    ensures Enqueues(c.cap, Abs(c, s), Abs(c, Next(c, s, step))) ==>
              step.ProducerStep? && Next(c, s, step).log.accepted == s.log.accepted + [s.producers[step.p].task]
    ensures Dequeues(Abs(c, s), Abs(c, Next(c, s, step))) ==>
              step.WorkerStep? && s.workers[step.w].task == Abs(c, s).items[0]
  {
    InvAlways(c, s);
    match step
    case ProducerStep(p, wake) => ProducerRefines(c, s, p, wake);
    case WorkerStep(w) => WorkerRefines(c, s, w);
    case ManagerStep(alive, wake) => ManagerRefines(c, s, alive, wake);
    case _ => EnvironmentStutters(c, s, step);
  }

  lemma EnvironmentStutters(c: Config, s: State, step: Step)
    requires Inv(c, s) && Enabled(s, step) && Environment(step)
    ensures ShapeInv(c, Next(c, s, step)) && Abs(c, Next(c, s, step)) == Abs(c, s)
  {
    var t := Next(c, s, step);
    assert t.workers == s.workers && t.lock == s.lock && t.log == s.log;
    assert t.pool.(shutdown := s.pool.shutdown) == s.pool;
    assert Extra(t) == Extra(s);
  }

  // -------------------------------------------------------------- population

  /** The number of live threads stays within its limits whatever stale numbers the
      manager acts on, equals the workers that have not retired (but for one that
      the manager is about to count), and real threads fit in `threads[]`. */
  lemma PopulationSafe(c: Config, s: State)
    requires Reachable(c, s)
    ensures c.minThr <= s.pool.live <= c.maxThr
    ensures |Where(s.workers, NotRetired)| == s.pool.live + Uncounted(s)
    ensures s.lock == Free ==> Uncounted(s) == 0
    ensures |Where(s.workers, Unexited)| <= c.maxThr
    ensures forall v, w | v in Where(s.workers, Unexited) && w in Where(s.workers, Unexited) && v != w ::
              s.workers[v].slot != s.workers[w].slot
  {
    InvAlways(c, s);
    SlotsDistinct(c, s);
  }

  lemma SlotsDistinct(c: Config, s: State)
    requires SlotInv(s) && |s.pool.threads| == c.maxThr
    ensures |Where(s.workers, Unexited)| <= c.maxThr
    ensures forall v, w | v in Where(s.workers, Unexited) && w in Where(s.workers, Unexited) && v != w ::
              s.workers[v].slot != s.workers[w].slot
  {
    var slot := map w: nat | w in Where(s.workers, Unexited) :: s.workers[w].slot;
    SlotBound(Where(s.workers, Unexited), slot, c.maxThr);
  }

  /** One grow pass creates at most ten threads. */
  lemma GrowPassAddsAtMostTen(c: Config, s: State)
    requires Reachable(c, s) && s.mgr.pc == MUnlock3
    ensures s.mgr.base <= |s.workers| <= s.mgr.base + 10
  {
    InvAlways(c, s);
  }

  /** The busy counter, kept under the other lock, is exact in every state and
      never exceeds the number of live threads. */
  lemma BusyWithinLive(c: Config, s: State)
    requires Reachable(c, s)
    ensures s.pool.busy == |Where(s.workers, IsBusy)|
    ensures 0 <= s.pool.busy <= s.pool.live <= c.maxThr
  {
    InvAlways(c, s);
    if Uncounted(s) == 1 {
      NewestNotStarted(c, s);
    }
    BusyAreLive(s);
  }

  lemma NewestNotStarted(c: Config, s: State)
    requires LockInv(s) && HolderInv(c, s) && Uncounted(s) == 1
    ensures |s.workers| > 0 && s.workers[|s.workers| - 1].pc == WLock
  {
  }

  // ------------------------------------------------------------- exactly once

  /** Dequeue `k` is in the hands of its one taker, or has been run once. */
  lemma TakenRunExactlyOnce(c: Config, s: State, k: nat)
    requires Reachable(c, s) && k < |s.log.taken|
    ensures |s.log.takers| == |s.log.taken|
    ensures s.log.finished[k] == if HoldsTicket(s, s.log.takers[k], k) then 0 else 1
    ensures forall w: nat | HoldsTicket(s, w, k) :: w == s.log.takers[k] && s.workers[w].task == s.log.taken[k]
    ensures Exited(s, s.log.takers[k]) ==> s.log.finished[k] == 1
  {
    InvAlways(c, s);
  }

  /** Accepted tasks are, as a multiset, the queued ones and the dequeued ones. */
  lemma TasksConserved(c: Config, s: State)
    requires Reachable(c, s)
    ensures ShapeInv(c, s)
    ensures multiset(s.log.accepted) == multiset(Abs(c, s).items) + multiset(s.log.taken)
    ensures forall k: nat | k >= |s.log.taken| :: s.log.finished[k] == 0
  {
    InvAlways(c, s);
  }

  // ------------------------------------------------------------------ blocking

  /** With `lock` free, a producer is blocked only on a full queue. */
  lemma ProducersBlockOnlyWhenFull(c: Config, s: State)
    requires Reachable(c, s)
    ensures s.lock == Free && s.notFull != {} ==> s.pool.ring.size == c.cap
    ensures 0 <= s.pool.waitExit <= 10
    ensures forall p | p in s.notFull :: p < |s.producers| && s.producers[p].pc == PSleep
  {
    InvAlways(c, s);
  }

  /** Before shutdown, if a worker is blocked then the queued tasks are matched one
      by one by contending workers, signals about to be sent, and retirements that
      happened with tasks queued, at most ten for each firing of the shrink branch. */
  lemma LostWakeupsBounded(c: Config, s: State)
    requires Reachable(c, s) && !s.pool.shutdown
    ensures Covered(s, s.log.strays)
    ensures s.log.strays <= 10 * s.log.shrinks
  {
    InvAlways(c, s);
  }

  /** No wakeup is lost in a run in which the shrink branch never fires. */
  lemma NoLostWakeupWithoutShrink(c: Config, s: State)
    requires Reachable(c, s) && !s.pool.shutdown && s.log.shrinks == 0
    ensures s.notEmpty == {} || s.pool.ring.size <= |Contending(s)| + Pending(s)
    ensures s.lock == Free && s.notEmpty != {} && s.pool.ring.size > 0 ==> Contending(s) != {}
  {
    LostWakeupsBounded(c, s);
  }

  /** The one statement that strands a queued task: a worker retires although every
      contending worker, itself included, is needed for the queue. */
  ghost predicate Strands(s: State, step: Step) {
    && step.WorkerStep? && step.w < |s.workers| && s.workers[step.w].pc == WDecLive
    && s.notEmpty != {}
    && 0 < s.pool.ring.size == |Contending(s)| + Pending(s)
  }

  /** Exactly when a statement loses a wakeup, in any run. */
  lemma WakeupLostIffStranding(c: Config, s: State, step: Step)
    requires Reachable(c, s) && Enabled(s, step) && !Next(c, s, step).pool.shutdown
    requires Covered(s, 0)
    ensures Covered(Next(c, s, step), 0) <==> !Strands(s, step)
  {
    InvAlways(c, s);
    LostIffStranding(c, s, step);
  }

  lemma LostIffStranding(c: Config, s: State, step: Step)
    requires Inv(c, s) && Enabled(s, step) && !Next(c, s, step).pool.shutdown
    requires Covered(s, 0)
    ensures Covered(Next(c, s, step), 0) <==> !Strands(s, step)
  {
    match step
    case ProducerStep(p, wake) =>
      ProducerWakes(c, s, p, wake);
      CoverAfterProducer(s, Next(c, s, step), s.producers[p].pc, wake, 0);
    case WorkerStep(w) => CoverAfterWorkerExact(c, s, w);
    case ManagerStep(alive, wake) => CoverKeptByManager(c, s, alive, wake, 0);
    case _ => CoverKeptByEnvironment(c, s, step);
  }

  /** Every state of the schedule, the first and the last included, is covered. */
  ghost predicate AlwaysCovered(c: Config, s: State, steps: seq<Step>)
    requires Feasible(c, s, steps)
    decreases |steps|
  {
    Covered(s, 0) && (steps != [] ==> AlwaysCovered(c, Next(c, s, steps[0]), steps[1..]))
  }

  ghost predicate Stranding(c: Config, s: State, steps: seq<Step>)
    requires Feasible(c, s, steps)
    decreases |steps|
  {
    steps != [] && (Strands(s, steps[0]) || Stranding(c, Next(c, s, steps[0]), steps[1..]))
  }

  /** A run without shutdown loses no wakeup if and only if no step of it strands. */
  lemma NoWakeupLostIffNeverStranding(c: Config, garbage: seq<Task>, steps: seq<Step>)
    requires ValidConfig(c) && |garbage| == c.cap && Feasible(c, Init(c, garbage), steps)
    requires !Exec(c, Init(c, garbage), steps).pool.shutdown
    ensures AlwaysCovered(c, Init(c, garbage), steps) <==> !Stranding(c, Init(c, garbage), steps)
  {
    InvInit(c, garbage);
    CoveredIffNeverStranding(c, Init(c, garbage), steps);
  }

  lemma {:induction false} CoveredIffNeverStranding(c: Config, s: State, steps: seq<Step>)
    requires Inv(c, s) && Covered(s, 0) && Feasible(c, s, steps) && !Exec(c, s, steps).pool.shutdown
    ensures AlwaysCovered(c, s, steps) <==> !Stranding(c, s, steps)
    decreases |steps|
  {
    if steps != [] {
      var t := Next(c, s, steps[0]);
      if t.pool.shutdown {
        ShutdownStays(c, t, steps[1..]);
      }
      LostIffStranding(c, s, steps[0]);
      if Covered(t, 0) {
        InvKept(c, s, steps[0]);
        CoveredIffNeverStranding(c, t, steps[1..]);
      }
    }
  }

  lemma ShutdownKept(c: Config, s: State, step: Step)
    requires Enabled(s, step) && s.pool.shutdown
    ensures Next(c, s, step).pool.shutdown
  {
  }

  lemma {:induction false} ShutdownStays(c: Config, s: State, steps: seq<Step>)
    requires Feasible(c, s, steps) && s.pool.shutdown
    ensures Exec(c, s, steps).pool.shutdown
    decreases |steps|
  {
    if steps != [] {
      ShutdownKept(c, s, steps[0]);
      ShutdownStays(c, Next(c, s, steps[0]), steps[1..]);
    }
  }

  lemma CoverAfterWorkerExact(c: Config, s: State, w: nat)
    requires SyncInv(s) && BoundsInv(c, s) && w < |s.workers| && WorkerCan(s, w)
    requires !s.pool.shutdown && Covered(s, 0)
    ensures Covered(WorkerNext(c, s, w), 0) <==> !Strands(s, WorkerStep(w))
  {
    var t := WorkerNext(c, s, w);
    WorkerWakes(c, s, w);
    if s.workers[w].pc == WDecLive {
      assert w !in s.notEmpty;
      CoverAfterRetirement(s, t, w);
    } else {
      CoverAfterWorker(s, t, w, 0);
    }
  }

  lemma CoverKeptByEnvironment(c: Config, s: State, step: Step)
    requires Covered(s, 0) && Enabled(s, step) && Environment(step) && LockInv(s)
    ensures Covered(Next(c, s, step), 0)
  {
    var t := Next(c, s, step);
    assert t.notEmpty <= s.notEmpty && Pending(t) == Pending(s);
    SubsetCard(Contending(s), Contending(t));
  }

  // ------------------------------------------------------------------ progress

  lemma LockOwnerCanMove(s: State)
    requires LockInv(s) && CounterInv(s)
    ensures match s.lock
            case Free => true
            case ByProducer(p) => Enabled(s, ProducerStep(p, s.notEmpty))
            case ByWorker(w) => Enabled(s, WorkerStep(w))
            case ByManager => Enabled(s, ManagerStep(true, s.notEmpty))
  {
  }

  lemma CounterOwnerCanMove(s: State)
    requires CounterInv(s)
    ensures match s.counter
            case Free => true
            case ByProducer(p) => false
            case ByWorker(w) => Enabled(s, WorkerStep(w))
            case ByManager => Enabled(s, ManagerStep(true, s.notEmpty))
  {
  }

  /** Whoever owns a mutex can execute its next statement, so no schedule of the
      two mutexes deadlocks. */
  lemma MutexOwnersCanMove(c: Config, s: State)
    requires Reachable(c, s)
    ensures match s.lock
            case Free => true
            case ByProducer(p) => Enabled(s, ProducerStep(p, s.notEmpty))
            case ByWorker(w) => Enabled(s, WorkerStep(w))
            case ByManager => Enabled(s, ManagerStep(true, s.notEmpty))
    ensures match s.counter
            case Free => true
            case ByProducer(p) => false
            case ByWorker(w) => Enabled(s, WorkerStep(w))
            case ByManager => Enabled(s, ManagerStep(true, s.notEmpty))
  {
    InvAlways(c, s);
    LockOwnerCanMove(s);
    CounterOwnerCanMove(s);
  }

  /** Statements that a worker with a task in hand has still to execute. */
  function WorkLeft(pc: WorkerPc): nat {
    match pc
    case WDecSize => 8
    case WBroadcast => 7
    case WUnlock => 6
    case WCountLock => 5
    case WInc => 4
    case WCountUnlock => 3
    case WCall => 2
    case WRunning => 1
    case _ => 0
  }

  lemma TakerMoves(c: Config, s: State, w: nat, k: nat)
    requires HoldsTicket(s, w, k) && WorkerCan(s, w)
    ensures var t := WorkerNext(c, s, w);
      && |t.workers| == |s.workers|
      && WorkLeft(t.workers[w].pc) < WorkLeft(s.workers[w].pc)
      && (s.workers[w].pc != WRunning ==> HoldsTicket(t, w, k))
      && (s.workers[w].pc == WRunning ==> t.log.finished == s.log.finished + multiset{k})
  {
  }

  lemma TakerAdvances(c: Config, s: State, w: nat, k: nat)
    requires TicketInv(s) && HoldsTicket(s, w, k) && WorkerCan(s, w)
    ensures var t := WorkerNext(c, s, w);
      && |t.workers| == |s.workers|
      && WorkLeft(t.workers[w].pc) < WorkLeft(s.workers[w].pc)
      && (HoldsTicket(t, w, k) || t.log.finished[k] == 1)
  {
    TakerMoves(c, s, w, k);
    assert s.log.finished[k] == 0;
  }

  predicate IsBy(owner: Owner, step: Step) {
    match owner
    case Free => false
    case ByProducer(p) => step.ProducerStep? && step.p == p
    case ByWorker(w) => step == WorkerStep(w)
    case ByManager => step.ManagerStep?
  }

  /** Statements that another owner of `thread_counter` executes before it is free. */
  function OthersLeft(s: State, w: nat): nat {
    match s.counter
    case ByWorker(v) =>
      if v == w || v >= |s.workers| then 0 else if s.workers[v].pc == WInc || s.workers[v].pc == WDec then 2 else 1
    case ByManager => if s.mgr.pc == MReadBusy then 2 else 1
    case _ => 0
  }

  /** A worker's own statement leaves another owner of `thread_counter` where it is. */
  lemma OthersWait(c: Config, s: State, w: nat)
    requires w < |s.workers| && WorkerCan(s, w)
    requires s.counter.ByWorker? ==> s.counter.w < |s.workers|
    ensures var t := WorkerNext(c, s, w);
      && OthersLeft(t, w) <= OthersLeft(s, w)
      && (t.counter == s.counter || t.counter == ByWorker(w) || t.counter == Free)
  {
    WorkerHandover(c, s, w);
    WorkerCounterHandover(c, s, w);
  }

  /** The owner of `thread_counter` comes closer to its unlock. */
  lemma CounterOwnerMoves(c: Config, s: State, w: nat) returns (step: Step)
    requires CounterInv(s) && s.counter != Free && s.counter != ByWorker(w) && w < |s.workers|
    ensures IsBy(s.counter, step) && Enabled(s, step)
    ensures var t := Next(c, s, step);
      && w < |t.workers| && t.workers[w] == s.workers[w] && OthersLeft(t, w) < OthersLeft(s, w)
      && (t.counter == s.counter || t.counter == Free)
  {
    match s.counter
    case ByWorker(v) => step := WorkerStep(v);
    case ByManager => step := ManagerStep(true, {});
  }

  /** The next step towards the end of the task that worker `w` holds. */
  lemma TakerStep(c: Config, s: State, w: nat, k: nat) returns (step: Step, t: State)
    requires Reachable(c, s) && HoldsTicket(s, w, k)
    ensures Enabled(s, step) && (step == WorkerStep(w) || IsBy(s.counter, step))
    ensures t == Next(c, s, step)
      && w < |t.workers|
      && (if step == WorkerStep(w)
          then WorkLeft(t.workers[w].pc) < WorkLeft(s.workers[w].pc) && OthersLeft(t, w) <= OthersLeft(s, w)
          else t.workers[w] == s.workers[w] && OthersLeft(t, w) < OthersLeft(s, w))
      && (HoldsTicket(t, w, k) || t.log.finished[k] == 1)
      && (t.counter == s.counter || t.counter == ByWorker(w) || t.counter == Free)
  {
    InvAlways(c, s);
    if WorkerCan(s, w) {
      step := WorkerStep(w);
      TakerAdvances(c, s, w, k);
      OthersWait(c, s, w);
    } else {
      step := CounterOwnerMoves(c, s, w);
    }
    t := Next(c, s, step);
  }

  /** How many steps of the schedule are worker `w`'s own. */
  function OwnSteps(steps: seq<Step>, w: nat): nat {
    if steps == [] then 0 else (if steps[0] == WorkerStep(w) then 1 else 0) + OwnSteps(steps[1..], w)
  }

  ghost predicate OnlyBy(steps: seq<Step>, w: nat, owner: Owner) {
    forall i | 0 <= i < |steps| :: steps[i] == WorkerStep(w) || IsBy(owner, steps[i])
  }

  /** A dequeued task gets run, shutdown or not: the worker that holds it needs no
      more than eight statements of its own, and two of the thread that owns
      `thread_counter` at the start. */
  lemma {:induction false} TakerFinishes(c: Config, s: State, w: nat, k: nat) returns (steps: seq<Step>)
    requires Reachable(c, s) && HoldsTicket(s, w, k)
    ensures Feasible(c, s, steps) && Exec(c, s, steps).log.finished[k] == 1
    ensures OnlyBy(steps, w, s.counter)
    ensures OwnSteps(steps, w) <= WorkLeft(s.workers[w].pc) <= 8
    ensures |steps| - OwnSteps(steps, w) <= OthersLeft(s, w) <= 2
    decreases WorkLeft(s.workers[w].pc) + OthersLeft(s, w)
  {
    var step, t := TakerStep(c, s, w, k);
    ReachableNext(c, s, step);
    var rest := [];
    if t.log.finished[k] != 1 {
      rest := TakerFinishes(c, t, w, k);
    }
    steps := [step] + rest;
    assert steps[1..] == rest;
    ExecCons(c, s, step, rest, t);
  }

  /** A worker that holds a task is never blocked, except for the short time that
      another thread owns `thread_counter`; each statement of its own brings the end
      of the task closer, and some schedule of the two reaches it. */
  lemma TakerCanMove(c: Config, s: State, w: nat, k: nat)
    requires Reachable(c, s) && HoldsTicket(s, w, k)
    ensures Enabled(s, WorkerStep(w)) ||
            (s.workers[w].pc == WCountLock && s.counter != Free && s.counter != ByWorker(w))
    ensures Enabled(s, WorkerStep(w)) ==>
              var t := Next(c, s, WorkerStep(w));
              && w < |t.workers| && WorkLeft(t.workers[w].pc) < WorkLeft(s.workers[w].pc)
              && (HoldsTicket(t, w, k) || t.log.finished[k] == 1)
    ensures exists steps ::
              OnlyBy(steps, w, s.counter) && Feasible(c, s, steps) && Exec(c, s, steps).log.finished[k] == 1
  {
    InvAlways(c, s);
    if WorkerCan(s, w) {
      TakerAdvances(c, s, w, k);
    }
    var steps := TakerFinishes(c, s, w, k);
  }
}
