/** How many workers there are, where they live, what they hold and who is woken. */
module DynamicPoolWorkers {
  import opened Counting
  import opened DynamicPool
  import opened DynamicPoolInvariants

  // ---------------------------------------------------- populations of workers

  predicate NotRetired(me: Worker) {
    !me.pc.WRetUnlock? && !me.pc.WRetExit? && !me.pc.WRetired?
  }

  /** Between the increment and the decrement of `busy_thr_num`. */
  predicate IsBusy(me: Worker) {
    me.pc.WCountUnlock? || me.pc.WCall? || me.pc.WRunning? || me.pc.WCountLock2? || me.pc.WDec?
  }

  predicate Unexited(me: Worker) {
    !me.pc.WRetired? && !me.pc.WLeft?
  }

  /** Will test the queue before it blocks again, unless it retires. */
  predicate Contends(me: Worker) {
    || me.pc.WLock? || me.pc.WCheck? || me.pc.WSleep? || me.pc.WWoken?
    || me.pc.WDecExit? || me.pc.WCmpLive? || me.pc.WDecLive?
    || me.pc.WShut? || me.pc.WTake? || me.pc.WAdvance? || me.pc.WDecSize?
  }

  /** Has dequeued a task and not yet finished running it. */
  predicate Holding(me: Worker) {
    || me.pc.WDecSize? || me.pc.WBroadcast? || me.pc.WUnlock? || me.pc.WCountLock? || me.pc.WInc? || me.pc.WCountUnlock?
    || me.pc.WCall? || me.pc.WRunning?
  }

  /** A worker the manager has created but not yet counted in `live_thr_num`. */
  function Uncounted(s: State): int {
    if s.mgr.pc == MAdd || s.mgr.pc == MLive then 1 else 0
  }

  ghost predicate LiveInv(s: State) {
    |Where(s.workers, NotRetired)| == s.pool.live + Uncounted(s)
  }

  ghost predicate BusyInv(s: State) {
    |Where(s.workers, IsBusy)| == s.pool.busy
  }

  lemma WorkerCounts(c: Config, s: State, w: nat)
    requires w < |s.workers| && WorkerCan(s, w)
    ensures var t := WorkerNext(c, s, w); var pc := s.workers[w].pc;
      && |t.workers| == |s.workers|
      && NotRetired(t.workers[w]) == (NotRetired(s.workers[w]) && pc != WDecLive)
      && t.pool.live == s.pool.live - (if pc == WDecLive then 1 else 0)
      && IsBusy(t.workers[w]) == ((IsBusy(s.workers[w]) && pc != WDec) || pc == WInc)
      && t.pool.busy == s.pool.busy + (if pc == WInc then 1 else if pc == WDec then -1 else 0)
  {
  }

  lemma CountsKeptByWorker(c: Config, s: State, w: nat)
    requires LiveInv(s) && BusyInv(s)
    requires w < |s.workers| && WorkerCan(s, w)
    ensures var t := WorkerNext(c, s, w); LiveInv(t) && BusyInv(t)
  {
    var t := WorkerNext(c, s, w);
    WorkerHandover(c, s, w);
    WorkerCounts(c, s, w);
    WhereUpdate(s.workers, w, t.workers[w], NotRetired);
    WhereUpdate(s.workers, w, t.workers[w], IsBusy);
  }

  lemma CountsKeptByManager(c: Config, s: State, alive: bool, wake: set<nat>)
    requires LiveInv(s) && BusyInv(s) && ManagerCan(s, alive, wake)
    ensures var t := ManagerNext(c, s, alive, wake); LiveInv(t) && BusyInv(t)
  {
    ManagerHandover(c, s, alive, wake);
    WhereAppend(s.workers, NewWorker(s), NotRetired);
    WhereAppend(s.workers, NewWorker(s), IsBusy);
  }

  // ------------------------------------------------------------------ threads[]

  /** Every running worker is recorded in its own slot of `threads[]`. */
  ghost predicate SlotInv(s: State) {
    && (forall w | 0 <= w < |s.workers| && Unexited(s.workers[w]) ::
          InSlots(s, s.workers[w].slot) && s.pool.threads[s.workers[w].slot] == Tid(w))
    && (forall i | 0 <= i < |s.pool.threads| && s.pool.threads[i].Tid? :: s.pool.threads[i].w < |s.workers|)
  }

  lemma WorkerSlots(c: Config, s: State, w: nat)
    requires w < |s.workers| && WorkerCan(s, w)
    ensures var t := WorkerNext(c, s, w);
      && |t.workers| == |s.workers|
      && t.pool.threads == s.pool.threads
      && t.workers[w].slot == s.workers[w].slot
      && (Unexited(t.workers[w]) ==> Unexited(s.workers[w]))
  {
  }

  lemma SlotsKeptByWorker(c: Config, s: State, w: nat)
    requires SlotInv(s) && w < |s.workers| && WorkerCan(s, w)
    ensures SlotInv(WorkerNext(c, s, w))
  {
    WorkerHandover(c, s, w);
    WorkerSlots(c, s, w);
  }

  lemma SlotsKeptByManager(c: Config, s: State, alive: bool, wake: set<nat>)
    requires SlotInv(s) && HolderInv(c, s) && ManagerCan(s, alive, wake)
    requires MHolds(s.mgr.pc) <==> s.lock == ByManager
    ensures SlotInv(ManagerNext(c, s, alive, wake))
  {
    var t := ManagerNext(c, s, alive, wake);
    if s.mgr.pc == MCreate {
      assert t.workers == s.workers + [NewWorker(s)];
      assert t.pool.threads == s.pool.threads[s.mgr.i := Tid(|s.workers|)];
    } else {
      ManagerHandover(c, s, alive, wake);
      assert t.pool.threads == s.pool.threads;
    }
  }

  // -------------------------------------------------------------------- tickets

  predicate HoldsTicket(s: State, w: nat, k: nat) {
    w < |s.workers| && Holding(s.workers[w]) && s.workers[w].ticket == k
  }

  /** Dequeue number `k` was made by `takers[k]`, which either still has that very
      task in hand or has run it to the end exactly once. */
  ghost predicate TicketInv(s: State) {
    && |s.log.takers| == |s.log.taken|
    && (forall k: nat | k < |s.log.taken| ::
          s.log.takers[k] < |s.workers| && s.log.finished[k] == if HoldsTicket(s, s.log.takers[k], k) then 0 else 1)
    && (forall k: nat | k >= |s.log.taken| :: s.log.finished[k] == 0)
    && (forall w | 0 <= w < |s.workers| && Holding(s.workers[w]) ::
          && s.workers[w].ticket < |s.log.taken|
          && s.log.takers[s.workers[w].ticket] == w
          && s.workers[w].task == s.log.taken[s.workers[w].ticket])
  }

  lemma WorkerTicketLog(c: Config, s: State, w: nat)
    requires w < |s.workers| && WorkerCan(s, w)
    requires s.workers[w].pc != WAdvance && s.workers[w].pc != WRunning
    ensures var t := WorkerNext(c, s, w);
      t.log.taken == s.log.taken && t.log.takers == s.log.takers && t.log.finished == s.log.finished
  {
  }

  lemma WorkerTickets(c: Config, s: State, w: nat)
    requires w < |s.workers| && WorkerCan(s, w)
    requires s.workers[w].pc != WAdvance && s.workers[w].pc != WRunning
    ensures var t := WorkerNext(c, s, w);
      && |t.workers| == |s.workers|
      && Holding(t.workers[w]) == Holding(s.workers[w])
      && (Holding(s.workers[w]) ==> t.workers[w] == s.workers[w].(pc := t.workers[w].pc))
  {
  }

  lemma TicketsKeptByWorker(c: Config, s: State, w: nat)
    requires TicketInv(s) && w < |s.workers| && WorkerCan(s, w)
    ensures TicketInv(WorkerNext(c, s, w))
  {
    WorkerHandover(c, s, w);
    if s.workers[w].pc != WAdvance && s.workers[w].pc != WRunning {
      WorkerTicketLog(c, s, w);
      WorkerTickets(c, s, w);
    }
  }

  lemma TicketsKeptByManager(c: Config, s: State, alive: bool, wake: set<nat>)
    requires TicketInv(s) && ManagerCan(s, alive, wake)
    ensures TicketInv(ManagerNext(c, s, alive, wake))
  {
    var t := ManagerNext(c, s, alive, wake);
    ManagerHandover(c, s, alive, wake);
    assert t.log.(shrinks := 0) == s.log.(shrinks := 0);
  }

  // -------------------------------------------------------------------- wakeups

  /** A blocked producer means a full queue, or a broadcast about to happen. */
  predicate FullWaitInv(c: Config, s: State) {
    || s.notFull == {}
    || s.pool.ring.size == c.cap
    || (s.lock.ByWorker? && s.lock.w < |s.workers| && s.workers[s.lock.w].pc == WBroadcast)
  }

  lemma FullWaitKeptByProducer(c: Config, s: State, p: nat, wake: set<nat>)
    requires FullWaitInv(c, s) && HolderInv(c, s) && p < |s.producers| && ProducerCan(s, p, wake)
    requires PHolds(s.producers[p].pc) <==> s.lock == ByProducer(p)
    ensures FullWaitInv(c, ProducerNext(c, s, p, wake))
  {
  }

  lemma FullWaitKeptByWorker(c: Config, s: State, w: nat)
    requires FullWaitInv(c, s) && w < |s.workers| && WorkerCan(s, w)
    requires WHolds(s.workers[w].pc) <==> s.lock == ByWorker(w)
    ensures FullWaitInv(c, WorkerNext(c, s, w))
  {
  }

  lemma FullWaitKeptByManager(c: Config, s: State, alive: bool, wake: set<nat>)
    requires FullWaitInv(c, s) && ManagerCan(s, alive, wake)
    requires MHolds(s.mgr.pc) <==> s.lock == ByManager
    ensures FullWaitInv(c, ManagerNext(c, s, alive, wake))
  {
    ManagerHandover(c, s, alive, wake);
  }

  /** A retirement pending in the hands of the lock's owner. */
  function Retiring(s: State): int {
    if s.lock.ByWorker? && s.lock.w < |s.workers|
       && (s.workers[s.lock.w].pc == WCmpLive || s.workers[s.lock.w].pc == WDecLive)
    then 1 else 0
  }

  /** Each firing of the shrink branch pays for at most ten retirements. */
  predicate ShrinkInv(s: State) {
    s.log.strays + s.pool.waitExit + Retiring(s) <= DEFAULT_THREAD_VARY * s.log.shrinks
  }

  lemma ShrinkKeptByWorker(c: Config, s: State, w: nat)
    requires ShrinkInv(s) && w < |s.workers| && WorkerCan(s, w)
    requires WHolds(s.workers[w].pc) <==> s.lock == ByWorker(w)
    ensures ShrinkInv(WorkerNext(c, s, w))
  {
  }

  lemma ShrinkKeptByManager(c: Config, s: State, alive: bool, wake: set<nat>)
    requires ShrinkInv(s) && 0 <= s.pool.waitExit && ManagerCan(s, alive, wake)
    requires MHolds(s.mgr.pc) <==> s.lock == ByManager
    ensures ShrinkInv(ManagerNext(c, s, alive, wake))
  {
    ManagerHandover(c, s, alive, wake);
  }

  /** Workers that will look at the queue before they can block again. */
  ghost function Contending(s: State): set<nat> {
    Where(s.workers, Contends) - s.notEmpty
  }

  /** A wakeup that a producer has earned but not yet sent. */
  function Pending(s: State): int {
    if s.lock.ByProducer? && s.lock.p < |s.producers| && s.producers[s.lock.p].pc == PSignal then 1 else 0
  }

  ghost predicate Covered(s: State, lost: int) {
    s.notEmpty == {} || s.pool.ring.size <= |Contending(s)| + Pending(s) + lost
  }

  /** Every queued task is matched by a contending worker, a pending signal, or a
      retirement that happened with tasks in the queue. */
  ghost predicate WakeInv(s: State) {
    !s.pool.shutdown ==> Covered(s, s.log.strays)
  }

  /** What a producer's statement does to the wakeup accounting. */
  predicate ProducerWake(s: State, t: State, pc: ProducerPc, wake: set<nat>) {
    && t.workers == s.workers && t.pool.shutdown == s.pool.shutdown && t.log.strays == s.log.strays
    && t.notEmpty == (if pc == PSignal then s.notEmpty - wake else if pc == PBroadcast then {} else s.notEmpty)
    && t.pool.ring.size == s.pool.ring.size + (if pc == PSize then 1 else 0)
    && Pending(t) == Pending(s) + (if pc == PSize then 1 else if pc == PSignal then -1 else 0)
  }

  lemma ProducerWakes(c: Config, s: State, p: nat, wake: set<nat>)
    requires p < |s.producers| && ProducerCan(s, p, wake)
    requires PHolds(s.producers[p].pc) <==> s.lock == ByProducer(p)
    ensures ProducerWake(s, ProducerNext(c, s, p, wake), s.producers[p].pc, wake)
    ensures s.producers[p].pc == PSignal ==> GoodWake(s.notEmpty, wake)
  {
  }

  lemma CoverAfterProducer(s: State, t: State, pc: ProducerPc, wake: set<nat>, lost: int)
    requires Covered(s, lost) && SleepInv(s) && ProducerWake(s, t, pc, wake)
    requires pc == PSignal ==> GoodWake(s.notEmpty, wake)
    ensures Covered(t, lost)
  {
    if pc == PSignal {
      assert s.notEmpty <= Where(s.workers, Contends);
      WakeCard(Where(s.workers, Contends), s.notEmpty, wake);
    }
  }

  /** What a worker's statement does to the wakeup accounting before shutdown. */
  predicate WorkerWake(s: State, t: State, w: nat) {
    && w < |s.workers| == |t.workers|
    && var pc := s.workers[w].pc; var pc' := t.workers[w].pc;
    && t.workers == s.workers[w := t.workers[w]]
    && t.notEmpty == (if pc' == WSleep then s.notEmpty + {w} else s.notEmpty)
    && (pc' == WSleep ==> s.pool.ring.size == 0)
    && t.pool.ring.size == s.pool.ring.size - (if pc == WDecSize then 1 else 0)
    && Pending(t) == Pending(s)
    && (pc != WDecSize && pc != WDecLive && Contends(s.workers[w]) ==> Contends(t.workers[w]))
  }

  lemma WorkerWakes(c: Config, s: State, w: nat)
    requires w < |s.workers| && WorkerCan(s, w) && !s.pool.shutdown
    requires WHolds(s.workers[w].pc) <==> s.lock == ByWorker(w)
    ensures WorkerWake(s, WorkerNext(c, s, w), w)
  {
    WorkerHandover(c, s, w);
  }

  lemma WorkerStrays(c: Config, s: State, w: nat)
    requires w < |s.workers| && WorkerCan(s, w)
    ensures var t := WorkerNext(c, s, w);
      && t.pool.shutdown == s.pool.shutdown
      && t.log.strays == s.log.strays + (if s.workers[w].pc == WDecLive && s.pool.ring.size > 0 then 1 else 0)
  {
  }

  lemma CoverAfterWorker(s: State, t: State, w: nat, lost: int)
    requires Covered(s, lost) && WorkerWake(s, t, w) && lost >= 0
    ensures Covered(t, lost + if s.workers[w].pc == WDecLive && s.pool.ring.size > 0 then 1 else 0)
  {
    WhereUpdate(s.workers, w, t.workers[w], Contends);
    if t.workers[w].pc == WSleep {
      assert Covered(t, lost);
    } else if Contends(t.workers[w]) {
      assert Contending(s) <= Contending(t);
      SubsetCard(Contending(s), Contending(t));
    } else {
      assert Contending(t) == Contending(s) - {w};
    }
  }

  /** A retirement takes a contending worker away without taking a task. */
  lemma CoverAfterRetirement(s: State, t: State, w: nat)
    requires Covered(s, 0) && WorkerWake(s, t, w) && 0 <= s.pool.ring.size
    requires s.workers[w].pc == WDecLive && t.workers[w].pc == WRetUnlock && w !in s.notEmpty
    ensures Covered(t, 0) <==> !(s.notEmpty != {} && 0 < s.pool.ring.size == |Contending(s)| + Pending(s))
  {
    WhereUpdate(s.workers, w, t.workers[w], Contends);
    assert Contending(t) == Contending(s) - {w};
  }

  lemma BusyAreLive(s: State)
    requires LiveInv(s) && BusyInv(s)
    requires Uncounted(s) == 1 ==> |s.workers| > 0 && s.workers[|s.workers| - 1].pc == WLock
    ensures 0 <= s.pool.busy <= s.pool.live
  {
    var busy, here := Where(s.workers, IsBusy), Where(s.workers, NotRetired);
    assert busy <= here;
    if Uncounted(s) == 1 {
      var newest := |s.workers| - 1;
      assert newest in here && newest !in busy;
      SubsetCard(busy, here - {newest});
    } else {
      SubsetCard(busy, here);
    }
  }

  lemma ManagerWakes(c: Config, s: State, alive: bool, wake: set<nat>)
    requires ManagerCan(s, alive, wake)
    requires MHolds(s.mgr.pc) <==> s.lock == ByManager
    ensures var t := ManagerNext(c, s, alive, wake);
      && t.pool.shutdown == s.pool.shutdown && t.log.strays == s.log.strays
      && t.notEmpty <= s.notEmpty
      && t.pool.ring.size == s.pool.ring.size
      && Pending(t) == Pending(s)
  {
    ManagerHandover(c, s, alive, wake);
  }

  lemma CoverKeptByManager(c: Config, s: State, alive: bool, wake: set<nat>, lost: int)
    requires Covered(s, lost) && ManagerCan(s, alive, wake)
    requires MHolds(s.mgr.pc) <==> s.lock == ByManager
    ensures Covered(ManagerNext(c, s, alive, wake), lost)
  {
    var t := ManagerNext(c, s, alive, wake);
    ManagerHandover(c, s, alive, wake);
    ManagerWakes(c, s, alive, wake);
    WhereAppend(s.workers, NewWorker(s), Contends);
    assert Contending(s) <= Contending(t);
    SubsetCard(Contending(s), Contending(t));
  }
}
