/** When the manager of the dynamic pool grows or shrinks the pool, over whole runs. */
module DynamicPoolSizing {
  import opened Counting
  import opened TaskRing
  import opened DynamicPool
  import opened DynamicPoolInvariants
  import opened DynamicPoolWorkers
  import opened DynamicPoolTheorems

  /** In a grow pass, from the lock on. */
  predicate InGrow(pc: ManagerPc) {
    pc.MLock3? || Growing(pc)
  }

  predicate InShrink(pc: ManagerPc) {
    pc.MLock4? || pc.MSetExit? || pc.MUnlock4? || pc.MSignal?
  }

  predicate PassJustified(c: Config, m: Manager) {
    && (InGrow(m.pc) ==> m.size >= 10 && m.live < c.maxThr)
    && (InShrink(m.pc) ==> m.busy * 2 < m.live && m.live > c.minThr)
    && (m.pc.MSignal? ==> 0 <= m.i <= 10)
  }

  lemma JustifiedByManager(c: Config, s: State, alive: bool, wake: set<nat>)
    requires PassJustified(c, s.mgr) && ManagerCan(s, alive, wake)
    ensures PassJustified(c, ManagerNext(c, s, alive, wake).mgr)
  {
  }

  lemma JustifiedKept(c: Config, s: State, step: Step)
    requires PassJustified(c, s.mgr) && Enabled(s, step)
    ensures PassJustified(c, Next(c, s, step).mgr)
  {
    match step
    case ProducerStep(p, wake) => ProducerHandover(c, s, p, wake);
    case WorkerStep(w) => WorkerHandover(c, s, w);
    case ManagerStep(alive, wake) => JustifiedByManager(c, s, alive, wake);
    case Call(_) =>
    case Shutdown =>
    case StrayProducer(_) =>
    case StrayWorker(_) =>
  }

  lemma {:induction false} JustifiedAlong(c: Config, s: State, steps: seq<Step>)
    requires PassJustified(c, s.mgr) && Feasible(c, s, steps)
    ensures PassJustified(c, Exec(c, s, steps).mgr)
    decreases |steps|
  {
    if steps != [] {
      JustifiedKept(c, s, steps[0]);
      JustifiedAlong(c, Next(c, s, steps[0]), steps[1..]);
    }
  }

  /** In every reachable state a grow pass has seen ten tasks or more and fewer live
      threads than the maximum; a shrink pass has seen fewer than half of the live
      threads busy, and more live ones than the minimum. */
  lemma PassesJustified(c: Config, s: State)
    requires Reachable(c, s)
    ensures InGrow(s.mgr.pc) ==> s.mgr.size >= 10 && s.mgr.live < c.maxThr
    ensures InShrink(s.mgr.pc) ==> s.mgr.busy * 2 < s.mgr.live && s.mgr.live > c.minThr
    ensures s.mgr.pc.MSignal? ==> 0 <= s.mgr.i <= 10
  {
    var garbage, steps :| Reaches(c, garbage, steps, s);
    JustifiedAlong(c, Init(c, garbage), steps);
  }

  /** Fewer than ten tasks are queued in every state of the schedule. */
  predicate FewTasks(c: Config, s: State, steps: seq<Step>)
    requires Feasible(c, s, steps)
    decreases |steps|
  {
    s.pool.ring.size < 10 && (steps != [] ==> FewTasks(c, Next(c, s, steps[0]), steps[1..]))
  }

  /** The manager has nothing to do, and does nothing. */
  predicate AtRest(c: Config, s: State) {
    && |s.workers| == c.minThr && s.log.shrinks == 0
    && s.mgr.size < 10 && s.mgr.live <= c.minThr
    && !InGrow(s.mgr.pc) && !InShrink(s.mgr.pc)
  }

  lemma LiveAtMostWorkers(s: State)
    requires LiveInv(s)
    ensures s.pool.live <= |s.workers|
  {
    SubsetCard(Where(s.workers, NotRetired), Ids(|s.workers|));
  }

  lemma RestKept(c: Config, s: State, step: Step)
    requires AtRest(c, s) && s.pool.ring.size < 10 && s.pool.live <= c.minThr && Enabled(s, step)
    ensures AtRest(c, Next(c, s, step))
  {
    match step
    case ProducerStep(p, wake) => ProducerHandover(c, s, p, wake); ProducerShrinks(c, s, p, wake);
    case WorkerStep(w) => WorkerHandover(c, s, w); WorkerShrinks(c, s, w);
    case ManagerStep(alive, wake) =>
    case Call(_) =>
    case Shutdown =>
    case StrayProducer(_) =>
    case StrayWorker(_) =>
  }

  lemma ProducerShrinks(c: Config, s: State, p: nat, wake: set<nat>)
    requires p < |s.producers| && ProducerCan(s, p, wake)
    ensures ProducerNext(c, s, p, wake).log.shrinks == s.log.shrinks
  {
  }

  lemma WorkerShrinks(c: Config, s: State, w: nat)
    requires w < |s.workers| && WorkerCan(s, w)
    ensures WorkerNext(c, s, w).log.shrinks == s.log.shrinks
  {
  }

  lemma {:induction false} RestAlong(c: Config, s: State, steps: seq<Step>)
    requires Reachable(c, s) && AtRest(c, s) && Feasible(c, s, steps) && FewTasks(c, s, steps)
    ensures AtRest(c, Exec(c, s, steps))
    decreases |steps|
  {
    if steps != [] {
      LiveAtRest(c, s);
      RestKept(c, s, steps[0]);
      ReachableNext(c, s, steps[0]);
      RestAlong(c, Next(c, s, steps[0]), steps[1..]);
    }
  }

  lemma LiveAtRest(c: Config, s: State)
    requires Reachable(c, s) && AtRest(c, s)
    ensures s.pool.live <= c.minThr
  {
    InvAlways(c, s);
    LiveAtMostWorkers(s);
  }

  lemma InitReachable(c: Config, garbage: seq<Task>)
    requires ValidConfig(c) && |garbage| == c.cap
    ensures Reachable(c, Init(c, garbage))
  {
    assert Feasible(c, Init(c, garbage), []);
    assert Reaches(c, garbage, [], Init(c, garbage));
  }

  /** A run that never has ten tasks queued keeps exactly the workers it began with:
      the manager neither grows nor shrinks the pool. */
  lemma FewTasksNoChange(c: Config, garbage: seq<Task>, steps: seq<Step>)
    requires ValidConfig(c) && |garbage| == c.cap && Feasible(c, Init(c, garbage), steps)
    requires FewTasks(c, Init(c, garbage), steps)
    ensures var s := Exec(c, Init(c, garbage), steps);
      |s.workers| == c.minThr && s.log.shrinks == 0 && s.pool.live == c.minThr
  {
    InitReachable(c, garbage);
    RestAlong(c, Init(c, garbage), steps);
    var s := Exec(c, Init(c, garbage), steps);
    assert Reaches(c, garbage, steps, s);
    LiveAtRest(c, s);
    PopulationSafe(c, s);
  }
}
