/** The invariants of the dynamic pool and the proof that every step keeps them. */
module DynamicPoolInvariants {
  import opened TaskRing
  import opened DynamicPool

  // ------------------------------------------------------------ mutual exclusion

  predicate PHolds(pc: ProducerPc) {
    !pc.PLock? && !pc.PSleep? && !pc.PReturned?
  }

  predicate WHolds(pc: WorkerPc) {
    || pc.WCheck? || pc.WWoken? || pc.WDecExit? || pc.WCmpLive? || pc.WDecLive? || pc.WRetUnlock?
    || pc.WShut? || pc.WLeaveUnlock? || pc.WTake? || pc.WAdvance? || pc.WDecSize? || pc.WBroadcast? || pc.WUnlock?
  }

  predicate MHolds(pc: ManagerPc) {
    || pc.MReadSize? || pc.MReadLive? || pc.MUnlock1? || pc.MLoop? || pc.MSlot? || pc.MCreate? || pc.MAdd?
    || pc.MLive? || pc.MNext? || pc.MUnlock3? || pc.MSetExit? || pc.MUnlock4?
  }

  predicate WCounts(pc: WorkerPc) {
    pc.WInc? || pc.WCountUnlock? || pc.WDec? || pc.WCountUnlock2?
  }

  predicate MCounts(pc: ManagerPc) {
    pc.MReadBusy? || pc.MUnlock2?
  }

  /** The owner of `lock` is the one thread between its lock and its unlock. */
  ghost predicate LockInv(s: State) {
    && (forall p | 0 <= p < |s.producers| :: PHolds(s.producers[p].pc) <==> s.lock == ByProducer(p))
    && (forall w | 0 <= w < |s.workers| :: WHolds(s.workers[w].pc) <==> s.lock == ByWorker(w))
    && (MHolds(s.mgr.pc) <==> s.lock == ByManager)
    && (s.lock.ByProducer? ==> s.lock.p < |s.producers|)
    && (s.lock.ByWorker? ==> s.lock.w < |s.workers|)
  }

  ghost predicate CounterInv(s: State) {
    && (forall w | 0 <= w < |s.workers| :: WCounts(s.workers[w].pc) <==> s.counter == ByWorker(w))
    && (MCounts(s.mgr.pc) <==> s.counter == ByManager)
    && !s.counter.ByProducer?
    && (s.counter.ByWorker? ==> s.counter.w < |s.workers|)
  }

  /** Only threads inside pthread_cond_wait are blocked. */
  ghost predicate SleepInv(s: State) {
    && (forall p | p in s.notFull :: p < |s.producers| && s.producers[p].pc == PSleep)
    && (forall w | w in s.notEmpty :: w < |s.workers| && s.workers[w].pc == WSleep)
  }

  /** What one statement may do to a mutex: take it, give it back, or leave it. */
  predicate Handover(me: Owner, before: bool, after: bool, owner: Owner, owner': Owner) {
    || (!before && after && owner == Free && owner' == me)
    || (before && !after && owner' == Free)
    || (before == after && owner' == owner)
  }

  lemma ProducerHandover(c: Config, s: State, p: nat, wake: set<nat>)
    requires p < |s.producers| && ProducerCan(s, p, wake)
    ensures var t := ProducerNext(c, s, p, wake);
      && |t.producers| == |s.producers|
      && t.producers == s.producers[p := t.producers[p]]
      && t.workers == s.workers && t.mgr == s.mgr && t.counter == s.counter
      && Handover(ByProducer(p), PHolds(s.producers[p].pc), PHolds(t.producers[p].pc), s.lock, t.lock)
  {
  }

  lemma WorkerHandover(c: Config, s: State, w: nat)
    requires w < |s.workers| && WorkerCan(s, w)
    ensures var t := WorkerNext(c, s, w);
      && |t.workers| == |s.workers|
      && t.workers == s.workers[w := t.workers[w]]
      && t.producers == s.producers && t.mgr == s.mgr
      && Handover(ByWorker(w), WHolds(s.workers[w].pc), WHolds(t.workers[w].pc), s.lock, t.lock)
  {
  }

  lemma WorkerCounterHandover(c: Config, s: State, w: nat)
    requires w < |s.workers| && WorkerCan(s, w)
    ensures var t := WorkerNext(c, s, w);
      && |t.workers| == |s.workers|
      && Handover(ByWorker(w), WCounts(s.workers[w].pc), WCounts(t.workers[w].pc), s.counter, t.counter)
  {
  }

  function NewWorker(s: State): Worker {
    Worker(WLock, if s.mgr.i >= 0 then s.mgr.i else 0, NO_TASK, 0)
  }

  lemma ManagerHandover(c: Config, s: State, alive: bool, wake: set<nat>)
    requires ManagerCan(s, alive, wake)
    ensures var t := ManagerNext(c, s, alive, wake);
      && (t.workers == s.workers || (s.mgr.pc == MCreate && t.workers == s.workers + [NewWorker(s)]))
      && t.producers == s.producers
      && Handover(ByManager, MHolds(s.mgr.pc), MHolds(t.mgr.pc), s.lock, t.lock)
      && Handover(ByManager, MCounts(s.mgr.pc), MCounts(t.mgr.pc), s.counter, t.counter)
  {
  }

  lemma LocksKeptByProducer(c: Config, s: State, p: nat, wake: set<nat>)
    requires LockInv(s) && CounterInv(s)
    requires p < |s.producers| && ProducerCan(s, p, wake)
    ensures var t := ProducerNext(c, s, p, wake); LockInv(t) && CounterInv(t)
  {
    ProducerHandover(c, s, p, wake);
  }

  lemma LocksKeptByWorker(c: Config, s: State, w: nat)
    requires LockInv(s) && CounterInv(s)
    requires w < |s.workers| && WorkerCan(s, w)
    ensures var t := WorkerNext(c, s, w); LockInv(t) && CounterInv(t)
  {
    WorkerHandover(c, s, w);
    WorkerCounterHandover(c, s, w);
  }

  lemma LocksKeptByManager(c: Config, s: State, alive: bool, wake: set<nat>)
    requires LockInv(s) && CounterInv(s)
    requires ManagerCan(s, alive, wake)
    ensures var t := ManagerNext(c, s, alive, wake); LockInv(t) && CounterInv(t)
  {
    ManagerHandover(c, s, alive, wake);
  }

  lemma SleepKeptByProducer(c: Config, s: State, p: nat, wake: set<nat>)
    requires SleepInv(s) && p < |s.producers| && ProducerCan(s, p, wake)
    ensures SleepInv(ProducerNext(c, s, p, wake))
  {
    var t := ProducerNext(c, s, p, wake);
    ProducerHandover(c, s, p, wake);
    assert t.notEmpty <= s.notEmpty;
    assert t.notFull <= s.notFull + {p};
    assert p in t.notFull ==> t.producers[p].pc == PSleep;
  }

  lemma SleepKeptByWorker(c: Config, s: State, w: nat)
    requires SleepInv(s) && w < |s.workers| && WorkerCan(s, w)
    ensures SleepInv(WorkerNext(c, s, w))
  {
    var t := WorkerNext(c, s, w);
    WorkerHandover(c, s, w);
    assert t.notFull <= s.notFull;
    assert t.notEmpty <= s.notEmpty + {w};
    assert w in t.notEmpty ==> t.workers[w].pc == WSleep;
  }

  lemma SleepKeptByManager(c: Config, s: State, alive: bool, wake: set<nat>)
    requires SleepInv(s) && ManagerCan(s, alive, wake)
    ensures SleepInv(ManagerNext(c, s, alive, wake))
  {
    var t := ManagerNext(c, s, alive, wake);
    ManagerHandover(c, s, alive, wake);
    assert t.notFull == s.notFull && t.notEmpty <= s.notEmpty;
  }

  // ----------------------------------------------- what the owner of `lock` knows

  predicate ProducerFacts(c: Config, pool: Pool, me: Producer) {
    match me.pc
    case PShut => pool.ring.size < c.cap || pool.shutdown
    case PClear => pool.ring.size < c.cap
    case PFunc => pool.ring.size < c.cap
    case PArg =>
      && pool.ring.size < c.cap
      && (InRange(pool.ring.cells, pool.ring.rear) ==> pool.ring.cells[pool.ring.rear].func == me.task.func)
    case PRear =>
      && pool.ring.size < c.cap
      && (InRange(pool.ring.cells, pool.ring.rear) ==> pool.ring.cells[pool.ring.rear] == me.task)
    case PSize => pool.ring.size < c.cap
    case _ => true
  }

  predicate WorkerFacts(c: Config, pool: Pool, me: Worker) {
    match me.pc
    case WShut => pool.ring.size > 0 || pool.shutdown
    case WTake => pool.ring.size > 0
    case WAdvance => pool.ring.size > 0 && me.task == Head(pool.ring)
    case WDecSize => pool.ring.size > 0
    case WDecExit => pool.waitExit > 0
    case WDecLive => pool.live > c.minThr
    case _ => true
  }

  predicate Growing(pc: ManagerPc) {
    pc.MLoop? || pc.MSlot? || pc.MCreate? || pc.MAdd? || pc.MLive? || pc.MNext? || pc.MUnlock3?
  }

  /** Threads created by this pass so far and counted in `add`. */
  predicate ManagerFacts(c: Config, s: State) {
    var m := s.mgr;
    && (Growing(m.pc) ==>
      && 0 <= m.i <= c.maxThr && 0 <= m.add <= DEFAULT_THREAD_VARY
      && |s.workers| == m.base + m.add + (if m.pc.MAdd? then 1 else 0))
    && (m.pc.MSlot? || m.pc.MCreate? || m.pc.MAdd? || m.pc.MLive? ==> s.pool.live < c.maxThr)
    && (m.pc.MSlot? || m.pc.MCreate? || m.pc.MAdd? ==> m.add < DEFAULT_THREAD_VARY)
    && (m.pc.MSlot? || m.pc.MCreate? || m.pc.MAdd? || m.pc.MLive? || m.pc.MNext? ==> m.i < c.maxThr)
    && (m.pc.MAdd? || m.pc.MLive? ==> |s.workers| > 0 && s.workers[|s.workers| - 1].pc == WLock)
    && (m.pc.MCreate? ==> m.i < |s.pool.threads| && (s.pool.threads[m.i].Tid? ==> Exited(s, s.pool.threads[m.i].w)))
  }

  ghost predicate HolderInv(c: Config, s: State) {
    match s.lock
    case Free => true
    case ByProducer(p) => p < |s.producers| && ProducerFacts(c, s.pool, s.producers[p])
    case ByWorker(w) => w < |s.workers| && WorkerFacts(c, s.pool, s.workers[w])
    case ByManager => ManagerFacts(c, s)
  }

  predicate BoundsInv(c: Config, s: State) {
    && 0 <= s.pool.ring.size <= c.cap
    && 0 <= s.pool.waitExit <= DEFAULT_THREAD_VARY
    && c.minThr <= s.pool.live <= c.maxThr
    && |s.pool.threads| == c.maxThr
    && |s.workers| > 0
  }

  lemma FactsKeptByProducer(c: Config, s: State, p: nat, wake: set<nat>)
    requires HolderInv(c, s) && BoundsInv(c, s)
    requires p < |s.producers| && ProducerCan(s, p, wake)
    requires PHolds(s.producers[p].pc) <==> s.lock == ByProducer(p)
    ensures var t := ProducerNext(c, s, p, wake); HolderInv(c, t) && BoundsInv(c, t)
  {
    var t := ProducerNext(c, s, p, wake);
    ProducerHandover(c, s, p, wake);
    if !PHolds(s.producers[p].pc) {
      assert t.pool == s.pool;
    }
  }

  /** What a worker's statement does to the numbers of the pool, by statement. */
  lemma WorkerPool(c: Config, s: State, w: nat)
    requires w < |s.workers| && WorkerCan(s, w)
    ensures var t := WorkerNext(c, s, w); var pc := s.workers[w].pc; var r := s.pool.ring;
      && |t.workers| == |s.workers|
      && t.pool == s.pool.(ring := t.pool.ring, live := t.pool.live, busy := t.pool.busy, waitExit := t.pool.waitExit)
      && t.pool.ring == r.(front := t.pool.ring.front, size := r.size - (if pc == WDecSize then 1 else 0))
      && t.pool.live == s.pool.live - (if pc == WDecLive then 1 else 0)
      && t.pool.waitExit == s.pool.waitExit - (if pc == WDecExit then 1 else 0)
      && (!WHolds(pc) ==> t.pool == s.pool.(busy := t.pool.busy))
  {
  }

  lemma WorkerFactsAfter(c: Config, s: State, w: nat)
    requires w < |s.workers| && WorkerCan(s, w)
    requires WHolds(s.workers[w].pc) ==> WorkerFacts(c, s.pool, s.workers[w])
    requires s.pool.ring.size >= 0
    ensures var t := WorkerNext(c, s, w);
      && |t.workers| == |s.workers|
      && (WHolds(t.workers[w].pc) ==> WorkerFacts(c, t.pool, t.workers[w]))
  {
  }

  /** What other owners know does not depend on `busy_thr_num`. */
  lemma FactsFrame(c: Config, s: State, t: State)
    requires HolderInv(c, s) && t.lock == s.lock && t.producers == s.producers && t.mgr == s.mgr
    requires t.pool.(busy := s.pool.busy) == s.pool && |t.workers| == |s.workers|
    requires s.lock.ByWorker? && s.lock.w < |s.workers| ==> t.workers[s.lock.w] == s.workers[s.lock.w]
    requires s.lock == ByManager ==> forall w | 0 <= w < |s.workers| :: KeepsFacts(s.workers[w], t.workers[w])
    ensures HolderInv(c, t)
  {
  }

  /** An exited worker stays so, and a worker that has not started cannot start
      without the lock. */
  predicate KeepsFacts(me: Worker, me': Worker) {
    && (me.pc == WRetired || me.pc == WLeft ==> me'.pc == me.pc)
    && (me.pc == WLock ==> me'.pc == WLock)
  }

  lemma WorkerKeepsFacts(c: Config, s: State, w: nat)
    requires w < |s.workers| && WorkerCan(s, w) && s.lock != Free && !WHolds(s.workers[w].pc)
    ensures var t := WorkerNext(c, s, w); |t.workers| == |s.workers| && KeepsFacts(s.workers[w], t.workers[w])
  {
  }

  lemma FactsKeptByWorker(c: Config, s: State, w: nat)
    requires HolderInv(c, s) && BoundsInv(c, s)
    requires w < |s.workers| && WorkerCan(s, w)
    requires WHolds(s.workers[w].pc) <==> s.lock == ByWorker(w)
    ensures var t := WorkerNext(c, s, w); HolderInv(c, t) && BoundsInv(c, t)
  {
    var t := WorkerNext(c, s, w);
    WorkerHandover(c, s, w);
    WorkerPool(c, s, w);
    WorkerFactsAfter(c, s, w);
    if !WHolds(s.workers[w].pc) && s.lock != Free {
      WorkerKeepsFacts(c, s, w);
      FactsFrame(c, s, t);
    }
  }

  /** What the manager's statement does outside a grow pass. */
  lemma ManagerIdle(c: Config, s: State, alive: bool, wake: set<nat>)
    requires ManagerCan(s, alive, wake) && !Growing(s.mgr.pc)
    ensures var t := ManagerNext(c, s, alive, wake);
      && t.workers == s.workers && t.pool == s.pool.(waitExit := t.pool.waitExit)
      && t.pool.waitExit == (if s.mgr.pc == MSetExit then DEFAULT_THREAD_VARY else s.pool.waitExit)
      && (Growing(t.mgr.pc) ==>
            t.mgr.pc == MLoop && t.mgr.i == 0 && t.mgr.add == 0 && t.mgr.base == |s.workers|)
  {
  }

  lemma ManagerGrowing(c: Config, s: State, alive: bool, wake: set<nat>)
    requires ManagerCan(s, alive, wake) && Growing(s.mgr.pc) && ManagerFacts(c, s) && BoundsInv(c, s)
    ensures var t := ManagerNext(c, s, alive, wake); ManagerFacts(c, t) && BoundsInv(c, t)
  {
  }

  lemma FactsKeptByManager(c: Config, s: State, alive: bool, wake: set<nat>)
    requires HolderInv(c, s) && BoundsInv(c, s)
    requires ManagerCan(s, alive, wake)
    requires MHolds(s.mgr.pc) <==> s.lock == ByManager
    ensures var t := ManagerNext(c, s, alive, wake); HolderInv(c, t) && BoundsInv(c, t)
  {
    ManagerHandover(c, s, alive, wake);
    if Growing(s.mgr.pc) {
      ManagerGrowing(c, s, alive, wake);
    } else {
      ManagerIdle(c, s, alive, wake);
    }
  }
}
