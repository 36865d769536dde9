/** The invariants of the simple pool and the proof that every step keeps them. */
module SimplePoolInvariants {
  import opened Arithmetic
  import opened SimplePool

  // ------------------------------------------------------------ mutual exclusion

  predicate PHolds(pc: ProducerPc) {
    !pc.PLock? && !pc.PSleep? && !pc.PSignal? && !pc.PReturned?
  }

  predicate WHolds(pc: WorkerPc) {
    || pc.WCheck? || pc.WJob? || pc.WPop? || pc.WCopy? || pc.WOwn? || pc.WDec? || pc.WSignal? || pc.WShut?
    || pc.WQuit? || pc.WUnlock?
  }

  ghost predicate LockInv(s: State) {
    && (forall p | 0 <= p < |s.producers| :: PHolds(s.producers[p].pc) <==> s.lock == ByProducer(p))
    && (forall w | 0 <= w < |s.workers| :: WHolds(s.workers[w].pc) <==> s.lock == ByWorker(w))
    && (s.lock.ByProducer? ==> s.lock.p < |s.producers|)
    && (s.lock.ByWorker? ==> s.lock.w < |s.workers|)
  }

  ghost predicate SleepInv(s: State) {
    && (forall p | p in s.notFull :: p < |s.producers| && s.producers[p].pc == PSleep)
    && (forall w | w in s.notEmpty :: w < |s.workers| && s.workers[w].pc == WSleep)
  }

  predicate Handover(me: Owner, before: bool, after: bool, owner: Owner, owner': Owner) {
    || (!before && after && owner == Free && owner' == me)
    || (before && !after && owner' == Free)
    || (before == after && owner' == owner)
  }

  lemma ProducerHandover(c: Config, s: State, p: nat, wake: set<nat>)
    requires p < |s.producers| && ProducerCan(s, p, wake)
    ensures var t := ProducerNext(c, s, p, wake);
      && |t.producers| == |s.producers| && t.producers == s.producers[p := t.producers[p]]
      && t.workers == s.workers && t.poppers == s.poppers && t.ran == s.ran
      && Handover(ByProducer(p), PHolds(s.producers[p].pc), PHolds(t.producers[p].pc), s.lock, t.lock)
      && t.notEmpty <= s.notEmpty
      && t.notFull == (if t.producers[p].pc == PSleep then s.notFull + {p} else s.notFull)
      && (s.producers[p].pc == PSleep ==> p !in s.notFull)
  {
  }

  lemma WorkerHandover(c: Config, s: State, w: nat, wake: set<nat>)
    requires w < |s.workers| && WorkerCan(s, w, wake)
    ensures var t := WorkerNext(c, s, w, wake);
      && |t.workers| == |s.workers| && t.workers == s.workers[w := t.workers[w]]
      && t.producers == s.producers
      && Handover(ByWorker(w), WHolds(s.workers[w].pc), WHolds(t.workers[w].pc), s.lock, t.lock)
      && t.notFull <= s.notFull
      && t.notEmpty == (if t.workers[w].pc == WSleep then s.notEmpty + {w} else s.notEmpty)
      && (s.workers[w].pc == WSleep ==> w !in s.notEmpty)
  {
  }

  lemma SyncKeptByProducer(c: Config, s: State, p: nat, wake: set<nat>)
    requires LockInv(s) && SleepInv(s) && p < |s.producers| && ProducerCan(s, p, wake)
    ensures var t := ProducerNext(c, s, p, wake); LockInv(t) && SleepInv(t)
  {
    ProducerHandover(c, s, p, wake);
  }

  lemma SyncKeptByWorker(c: Config, s: State, w: nat, wake: set<nat>)
    requires LockInv(s) && SleepInv(s) && w < |s.workers| && WorkerCan(s, w, wake)
    ensures var t := WorkerNext(c, s, w, wake); LockInv(t) && SleepInv(t)
  {
    WorkerHandover(c, s, w, wake);
  }

  // ----------------------------------------------------------------- the counters

  /** Has taken a ticket and not yet counted it in `job_num`. */
  predicate Pushing(pc: ProducerPc) {
    pc.PNum? || pc.PArg? || pc.PFunc? || pc.PInc?
  }

  predicate Popping(pc: WorkerPc) {
    pc.WCopy? || pc.WOwn? || pc.WDec?
  }

  function OwnerP(s: State): ProducerPc {
    if s.lock.ByProducer? && s.lock.p < |s.producers| then s.producers[s.lock.p].pc else PReturned
  }

  function OwnerW(s: State): WorkerPc {
    if s.lock.ByWorker? && s.lock.w < |s.workers| then s.workers[s.lock.w].pc else WGone
  }

  /** The counters agree up to what the owner of the lock is in the middle of. */
  predicate CounterInv(c: Config, s: State) {
    && s.pool.jobNum ==
       s.pool.jobPush - s.pool.jobPop - (if Pushing(OwnerP(s)) then 1 else 0) + (if Popping(OwnerW(s)) then 1 else 0)
    && s.pool.beginnum == FIRST_NUM + s.pool.jobPush - (if OwnerP(s).PNum? then 1 else 0)
    && 0 <= s.pool.jobNum <= c.maxJobs == |s.pool.tasks|
    && 0 <= s.pool.jobPop <= s.pool.jobPush
    && (OwnerP(s).PPush? || Pushing(OwnerP(s)) ==> s.pool.jobNum < c.maxJobs)
    && (OwnerW(s).WPop? || Popping(OwnerW(s)) ==> s.pool.jobNum > 0)
    && (OwnerW(s).WJob? ==> s.pool.jobNum > 0 || s.pool.shutdown)
  }

  lemma CountersKeptByProducer(c: Config, s: State, p: nat, wake: set<nat>)
    requires CounterInv(c, s) && p < |s.producers| && ProducerCan(s, p, wake)
    requires PHolds(s.producers[p].pc) <==> s.lock == ByProducer(p)
    ensures CounterInv(c, ProducerNext(c, s, p, wake))
  {
    ProducerHandover(c, s, p, wake);
  }

  lemma CountersKeptByWorker(c: Config, s: State, w: nat, wake: set<nat>)
    requires CounterInv(c, s) && w < |s.workers| && WorkerCan(s, w, wake)
    requires WHolds(s.workers[w].pc) <==> s.lock == ByWorker(w)
    ensures CounterInv(c, WorkerNext(c, s, w, wake))
  {
    WorkerHandover(c, s, w, wake);
  }

  // ---------------------------------------------------------------- stored tickets

  predicate InCells(c: Config, i: int) {
    0 <= i < c.maxJobs
  }

  /** The complete content of ticket `k`'s slot. */
  function Stored(c: Config, k: int): PoolTask {
    PoolTask(FIRST_NUM + k, Cell(Mod(k, c.maxJobs)), true)
  }

  /** Tickets whose slots are completely written. */
  function Tail(s: State): int {
    s.pool.jobPush - if OwnerP(s).PNum? || OwnerP(s).PArg? || OwnerP(s).PFunc? then 1 else 0
  }

  /** Every queued ticket `k` has the number 1000 + k in its own slot. */
  ghost predicate StoreInv(c: Config, s: State) {
    && (forall k: int | s.pool.jobPop <= k < Tail(s) :: At(s.pool.tasks, Mod(k, c.maxJobs)) == Stored(c, k))
    && (s.lock.ByProducer? && s.lock.p < |s.producers| ==> BeingStored(c, s, s.producers[s.lock.p]))
    && (OwnerW(s).WCopy? ==>
          && s.workers[s.lock.w].taskpos == Mod(s.pool.jobPop - 1, c.maxJobs)
          && s.workers[s.lock.w].hand == Ticket(s.pool.jobPop - 1)
          && At(s.pool.tasks, Mod(s.pool.jobPop - 1, c.maxJobs)) == Stored(c, s.pool.jobPop - 1))
  }

  predicate BeingStored(c: Config, s: State, me: Producer) {
    var t := At(s.pool.tasks, me.taskpos);
    var k := s.pool.jobPush - 1;
    && (me.pc.PNum? || me.pc.PArg? || me.pc.PFunc? ==> me.taskpos == Mod(k, c.maxJobs) && InCells(c, me.taskpos))
    && (me.pc.PArg? ==> t.tasknum == FIRST_NUM + k)
    && (me.pc.PFunc? ==> t.tasknum == FIRST_NUM + k && t.arg == Cell(me.taskpos))
  }

  predicate Writes(pc: ProducerPc) {
    pc.PNum? || pc.PArg? || pc.PFunc?
  }

  /** The only cell that a producer's statement changes. */
  lemma ProducerCells(c: Config, s: State, p: nat, wake: set<nat>)
    requires p < |s.producers| && ProducerCan(s, p, wake)
    requires PHolds(s.producers[p].pc) <==> s.lock == ByProducer(p)
    ensures var t := ProducerNext(c, s, p, wake); var me := s.producers[p];
      && (!Writes(me.pc) ==> t.pool.tasks == s.pool.tasks)
      && (Writes(me.pc) ==> t.pool.tasks == Put(s.pool.tasks, me.taskpos, At(t.pool.tasks, me.taskpos)))
      && t.pool.jobPop == s.pool.jobPop
      && Tail(t) == Tail(s) + (if me.pc.PFunc? then 1 else 0)
      && (Writes(me.pc) ==> Tail(s) == s.pool.jobPush - 1)
      && (OwnerW(t).WCopy? ==> OwnerW(s).WCopy? && t.lock == s.lock && t.workers == s.workers)
  {
  }

  /** What the writer of a slot has written so far. */
  lemma ProducerWrites(c: Config, s: State, p: nat, wake: set<nat>)
    requires p < |s.producers| && ProducerCan(s, p, wake) && ValidConfig(c) && |s.pool.tasks| == c.maxJobs
    requires PHolds(s.producers[p].pc) <==> s.lock == ByProducer(p)
    requires s.lock == ByProducer(p) ==> BeingStored(c, s, s.producers[p])
    requires s.producers[p].pc.PNum? ==> s.pool.beginnum == FIRST_NUM + s.pool.jobPush - 1
    ensures var t := ProducerNext(c, s, p, wake); var me := s.producers[p];
      && |t.producers| == |s.producers|
      && (t.lock == ByProducer(p) ==> BeingStored(c, t, t.producers[p]))
      && (me.pc.PFunc? ==> At(t.pool.tasks, me.taskpos) == Stored(c, s.pool.jobPush - 1))
  {
    assert 0 <= Mod(s.pool.jobPush, c.maxJobs) < c.maxJobs;
  }

  lemma StoreKeptByProducer(c: Config, s: State, p: nat, wake: set<nat>)
    requires ValidConfig(c) && CounterInv(c, s) && StoreInv(c, s) && p < |s.producers| && ProducerCan(s, p, wake)
    requires PHolds(s.producers[p].pc) <==> s.lock == ByProducer(p)
    ensures StoreInv(c, ProducerNext(c, s, p, wake))
  {
    var t := ProducerNext(c, s, p, wake);
    var pc := s.producers[p].pc;
    ProducerHandover(c, s, p, wake);
    ProducerCells(c, s, p, wake);
    ProducerWrites(c, s, p, wake);
    if Writes(pc) {
      OtherSlotsKept(c, s, t.pool.tasks, s.pool.jobPush - 1);
    }
    StoreAfterProducer(c, s, t, p);
  }

  /** The store, put together from what the statement wrote and what it left alone. */
  lemma StoreAfterProducer(c: Config, s: State, t: State, p: nat)
    requires StoreInv(c, s) && p < |s.producers| == |t.producers|
    requires t.producers == s.producers[p := t.producers[p]] && t.pool.jobPop == s.pool.jobPop
    requires var pc := s.producers[p].pc;
      && Tail(t) == Tail(s) + (if pc.PFunc? then 1 else 0)
      && (if Writes(pc)
          then Tail(s) == s.pool.jobPush - 1
               && forall k: int | s.pool.jobPop <= k < Tail(s) :: At(t.pool.tasks, Mod(k, c.maxJobs)) == Stored(c, k)
          else t.pool.tasks == s.pool.tasks)
      && (pc.PFunc? ==> At(t.pool.tasks, Mod(Tail(s), c.maxJobs)) == Stored(c, Tail(s)))
    requires t.lock.ByProducer? && t.lock.p < |t.producers| ==> BeingStored(c, t, t.producers[t.lock.p])
    requires OwnerW(t).WCopy? ==> OwnerW(s).WCopy? && t.lock == s.lock && t.workers == s.workers
    ensures StoreInv(c, t)
  {
  }

  /** Queued tickets do not share the slot of the ticket being written. */
  lemma OtherSlotsKept(c: Config, s: State, tasks: seq<PoolTask>, last: int)
    requires ValidConfig(c) && |s.pool.tasks| == c.maxJobs && s.pool.jobPop <= last < s.pool.jobPop + c.maxJobs
    requires forall k: int | s.pool.jobPop <= k < last :: At(s.pool.tasks, Mod(k, c.maxJobs)) == Stored(c, k)
    requires tasks == Put(s.pool.tasks, Mod(last, c.maxJobs), At(tasks, Mod(last, c.maxJobs)))
    ensures forall k: int | s.pool.jobPop <= k < last :: At(tasks, Mod(k, c.maxJobs)) == Stored(c, k)
  {
    forall k: int | s.pool.jobPop <= k < last
      ensures At(tasks, Mod(k, c.maxJobs)) == Stored(c, k)
    {
      ModDistinct(k, last, c.maxJobs);
    }
  }

  lemma WorkerCells(c: Config, s: State, w: nat, wake: set<nat>)
    requires w < |s.workers| && WorkerCan(s, w, wake)
    requires WHolds(s.workers[w].pc) <==> s.lock == ByWorker(w)
    ensures var t := WorkerNext(c, s, w, wake); var me := s.workers[w];
      && t.pool.tasks == s.pool.tasks && t.pool.jobPush == s.pool.jobPush
      && Tail(t) == Tail(s)
      && t.pool.jobPop == s.pool.jobPop + (if me.pc.WPop? then 1 else 0)
      && (me.pc.WPop? ==> OwnerW(s).WPop?)
      && (t.lock.ByProducer? ==> t.lock == s.lock)
      && |t.workers| == |s.workers|
      && (t.lock == ByWorker(w) && t.workers[w].pc.WCopy? ==>
            && me.pc.WPop?
            && t.workers[w].taskpos == Mod(s.pool.jobPop, c.maxJobs) && t.workers[w].hand == Ticket(s.pool.jobPop))
      && (t.lock.ByWorker? && t.lock != ByWorker(w) ==> t.lock == s.lock && !me.pc.WPop?)
  {
  }

  lemma StoreKeptByWorker(c: Config, s: State, w: nat, wake: set<nat>)
    requires CounterInv(c, s) && StoreInv(c, s) && w < |s.workers| && WorkerCan(s, w, wake)
    requires WHolds(s.workers[w].pc) <==> s.lock == ByWorker(w)
    ensures StoreInv(c, WorkerNext(c, s, w, wake))
  {
    WorkerHandover(c, s, w, wake);
    WorkerCells(c, s, w, wake);
    StoreAfterWorker(c, s, WorkerNext(c, s, w, wake), w);
  }

  lemma StoreAfterWorker(c: Config, s: State, t: State, w: nat)
    requires CounterInv(c, s) && StoreInv(c, s) && w < |s.workers| == |t.workers|
    requires t.workers == s.workers[w := t.workers[w]] && t.producers == s.producers
    requires t.pool.tasks == s.pool.tasks && t.pool.jobPush == s.pool.jobPush && Tail(t) == Tail(s)
    requires t.pool.jobPop == s.pool.jobPop + if s.workers[w].pc.WPop? then 1 else 0
    requires s.workers[w].pc.WPop? ==> OwnerW(s).WPop?
    requires t.lock.ByProducer? ==> t.lock == s.lock
    requires t.lock == ByWorker(w) && t.workers[w].pc.WCopy? ==>
               && s.workers[w].pc.WPop?
               && t.workers[w].taskpos == Mod(s.pool.jobPop, c.maxJobs) && t.workers[w].hand == Ticket(s.pool.jobPop)
    requires t.lock.ByWorker? && t.lock != ByWorker(w) ==> t.lock == s.lock && !s.workers[w].pc.WPop?
    ensures StoreInv(c, t)
  {
  }
}
