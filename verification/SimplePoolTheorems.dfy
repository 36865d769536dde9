/** What holds in every run of the simple pool. */
module SimplePoolTheorems {
  import opened Arithmetic
  import opened Counting
  import opened SimplePool
  import opened SimplePoolInvariants

  // -------------------------------------------------------------- tickets in hand

  predicate Keeps(pc: WorkerPc) {
    pc.WCopy? || pc.WOwn? || pc.WDec? || pc.WSignal? || pc.WUnlock? || pc.WCall? || pc.WRunning?
  }

  predicate Empty(pc: WorkerPc) {
    pc.WLock? || pc.WCheck? || pc.WSleep? || pc.WJob? || pc.WPop?
  }

  predicate Quitting(pc: WorkerPc) {
    pc.WQuit? || pc.WFree? || pc.WGone?
  }

  /** What worker `w` knows about its private copy, whatever others do. */
  predicate CopyOk(me: Worker, w: nat, shutdown: bool) {
    HandOk(me, shutdown) && TaskOk(me, w)
  }

  predicate HandOk(me: Worker, shutdown: bool) {
    var pc := me.pc;
    && (Keeps(pc) ==> me.hand.Ticket?)
    && (Empty(pc) ==> me.hand.Nothing?)
    && (pc.WShut? && me.hand.Nothing? ==> shutdown)
    && (Quitting(pc) ==> shutdown)
  }

  predicate TaskOk(me: Worker, w: nat) {
    var pc := me.pc;
    && (me.hand.Ticket? && (pc.WOwn? || pc.WDec? || pc.WSignal? || pc.WShut? || pc.WUnlock? || pc.WCall?) ==>
          me.task.tasknum == FIRST_NUM + me.hand.k && me.task.runs)
    && (me.hand.Ticket? && (pc.WDec? || pc.WSignal? || pc.WShut? || pc.WUnlock? || pc.WCall?) ==>
          me.task.arg == Copy(w))
    && (pc.WRunning? && me.hand.Ticket? ==> me.seen == FIRST_NUM + me.hand.k)
  }

  ghost predicate CopyInv(s: State) {
    forall w | 0 <= w < |s.workers| :: CopyOk(s.workers[w], w, s.pool.shutdown)
  }

  lemma CopyKeptByWorker(c: Config, s: State, w: nat, wake: set<nat>)
    requires CopyInv(s) && CounterInv(c, s) && StoreInv(c, s) && w < |s.workers| && WorkerCan(s, w, wake)
    requires WHolds(s.workers[w].pc) <==> s.lock == ByWorker(w)
    ensures CopyInv(WorkerNext(c, s, w, wake))
  {
    var t := WorkerNext(c, s, w, wake);
    WorkerHandover(c, s, w, wake);
    assert s.workers[w].pc.WCopy? ==> OwnerW(s).WCopy?;
    assert s.workers[w].pc.WJob? ==> OwnerW(s).WJob?;
    HandOkAfter(c, s, w, wake);
    TaskOkAfter(c, s, w, wake);
  }

  lemma HandOkAfter(c: Config, s: State, w: nat, wake: set<nat>)
    requires w < |s.workers| && WorkerCan(s, w, wake) && HandOk(s.workers[w], s.pool.shutdown)
    requires s.workers[w].pc.WJob? ==> s.pool.jobNum != 0 || s.pool.shutdown
    ensures var t := WorkerNext(c, s, w, wake);
      |t.workers| == |s.workers| && t.pool.shutdown == s.pool.shutdown && HandOk(t.workers[w], t.pool.shutdown)
  {
  }

  lemma TaskOkAfter(c: Config, s: State, w: nat, wake: set<nat>)
    requires w < |s.workers| && WorkerCan(s, w, wake) && CopyOk(s.workers[w], w, s.pool.shutdown)
    requires s.workers[w].pc.WCopy? ==> At(s.pool.tasks, s.workers[w].taskpos) == Stored(c, s.workers[w].hand.k)
    ensures var t := WorkerNext(c, s, w, wake); |t.workers| == |s.workers| && TaskOk(t.workers[w], w)
  {
  }

  predicate HoldsTicket(s: State, w: nat, k: int) {
    w < |s.workers| && s.workers[w].hand == Ticket(k)
  }

  /** Ticket `k` was popped by `poppers[k]`, which has it in hand or has run it. */
  ghost predicate TicketInv(s: State) {
    && |s.poppers| == s.pool.jobPop
    && (forall k: nat | k < |s.poppers| ::
          s.poppers[k] < |s.workers| && s.ran[FIRST_NUM + k] == if HoldsTicket(s, s.poppers[k], k) then 0 else 1)
    && (forall w: nat | w < |s.workers| && s.workers[w].hand.Ticket? ::
          0 <= s.workers[w].hand.k < |s.poppers| && s.poppers[s.workers[w].hand.k] == w)
    && (forall x: int | x in s.ran :: FIRST_NUM <= x < FIRST_NUM + |s.poppers|)
  }

  lemma HandAfter(c: Config, s: State, w: nat, wake: set<nat>)
    requires w < |s.workers| && WorkerCan(s, w, wake)
    ensures var t := WorkerNext(c, s, w, wake);
      && |t.workers| == |s.workers|
      && (s.workers[w].pc != WPop && s.workers[w].pc != WRunning ==>
            t.workers[w].hand == s.workers[w].hand && t.pool.jobPop == s.pool.jobPop
            && t.poppers == s.poppers && t.ran == s.ran)
  {
  }

  /** Popping gives the next ticket to the worker. */
  lemma TicketPopped(s: State, t: State, w: nat)
    requires TicketInv(s) && w < |s.workers| == |t.workers| && s.workers[w].hand == Nothing
    requires t.workers == s.workers[w := t.workers[w]] && t.workers[w].hand == Ticket(s.pool.jobPop)
    requires t.poppers == s.poppers + [w] && t.ran == s.ran && t.pool.jobPop == s.pool.jobPop + 1
    ensures TicketInv(t)
  {
    assert s.ran[FIRST_NUM + s.pool.jobPop] == 0;
  }

  /** Running it spends the ticket. */
  lemma TicketSpent(s: State, t: State, w: nat)
    requires TicketInv(s) && w < |s.workers| == |t.workers| && s.workers[w].hand.Ticket?
    requires t.workers == s.workers[w := t.workers[w]] && t.workers[w].hand == Nothing
    requires t.poppers == s.poppers && t.ran == s.ran + multiset{FIRST_NUM + s.workers[w].hand.k}
    requires t.pool.jobPop == s.pool.jobPop
    ensures TicketInv(t)
  {
  }

  lemma TicketFrame(s: State, t: State, w: nat)
    requires TicketInv(s) && w < |s.workers| == |t.workers|
    requires t.workers == s.workers[w := t.workers[w]] && t.workers[w].hand == s.workers[w].hand
    requires t.poppers == s.poppers && t.ran == s.ran && t.pool.jobPop == s.pool.jobPop
    ensures TicketInv(t)
  {
  }

  lemma TicketsKeptByWorker(c: Config, s: State, w: nat, wake: set<nat>)
    requires TicketInv(s) && w < |s.workers| && WorkerCan(s, w, wake)
    requires CopyOk(s.workers[w], w, s.pool.shutdown)
    ensures TicketInv(WorkerNext(c, s, w, wake))
  {
    var t := WorkerNext(c, s, w, wake);
    WorkerHandover(c, s, w, wake);
    if s.workers[w].pc == WPop {
      TicketPopped(s, t, w);
    } else if s.workers[w].pc == WRunning {
      TicketSpent(s, t, w);
    } else {
      HandAfter(c, s, w, wake);
      TicketFrame(s, t, w);
    }
  }

  // ------------------------------------------------------------------------ calls

  predicate NotPushed(me: Producer) {
    me.pc.PLock? || me.pc.PCheck? || me.pc.PSleep? || me.pc.PPush?
  }

  ghost predicate CallsInv(s: State) {
    s.pool.jobPush + |Where(s.producers, NotPushed)| == |s.producers|
  }

  lemma CallsKeptByProducer(c: Config, s: State, p: nat, wake: set<nat>)
    requires CallsInv(s) && p < |s.producers| && ProducerCan(s, p, wake)
    ensures CallsInv(ProducerNext(c, s, p, wake))
  {
    var t := ProducerNext(c, s, p, wake);
    ProducerHandover(c, s, p, wake);
    WhereUpdate(s.producers, p, t.producers[p], NotPushed);
  }

  // ---------------------------------------------------------------------- wakeups

  /** Will look at `job_num` before it can block. */
  predicate WContends(me: Worker) {
    || me.pc.WLock? || me.pc.WCheck? || me.pc.WSleep? || me.pc.WJob? || me.pc.WPop? || me.pc.WCopy? || me.pc.WOwn?
    || me.pc.WDec?
  }

  predicate PContends(me: Producer) {
    NotPushed(me) || Pushing(me.pc)
  }

  /** Has added a task and still owes its signal, sent after the unlock. */
  predicate OwesSignal(me: Producer) {
    me.pc.PUnlock? || me.pc.PSignal?
  }

  ghost function ContendingWorkers(s: State): set<nat> {
    Where(s.workers, WContends) - s.notEmpty
  }

  ghost function ContendingProducers(s: State): set<nat> {
    Where(s.producers, PContends) - s.notFull
  }

  ghost predicate JobsCovered(s: State) {
    s.notEmpty == {} || s.pool.jobNum <= |ContendingWorkers(s)| + |Where(s.producers, OwesSignal)|
  }

  ghost predicate SpaceCovered(c: Config, s: State) {
    || s.notFull == {}
    || c.maxJobs - s.pool.jobNum <= |ContendingProducers(s)| + (if OwnerW(s).WSignal? then 1 else 0)
  }

  /** What a producer's statement does to the accounting. */
  predicate ProducerWake(c: Config, s: State, t: State, p: nat, wake: set<nat>) {
    && p < |s.producers| == |t.producers| && t.producers == s.producers[p := t.producers[p]]
    && var pc := s.producers[p].pc;
    && t.workers == s.workers && t.pool.shutdown == s.pool.shutdown
    && t.pool.jobNum == s.pool.jobNum + (if pc.PInc? then 1 else 0)
    && t.notEmpty == (if pc.PSignal? then s.notEmpty - wake else s.notEmpty)
    && t.notFull == (if t.producers[p].pc.PSleep? then s.notFull + {p} else s.notFull)
    && (t.producers[p].pc.PSleep? ==> c.maxJobs <= s.pool.jobNum)
    && (pc.PSignal? ==> GoodWake(s.notEmpty, wake))
    && OwesSignal(t.producers[p]) == (pc.PInc? || pc.PUnlock?)
    && PContends(t.producers[p]) == (PContends(s.producers[p]) && !pc.PInc?)
    && OwnerW(t).WSignal? == OwnerW(s).WSignal?
  }

  lemma ProducerWakes(c: Config, s: State, p: nat, wake: set<nat>)
    requires p < |s.producers| && ProducerCan(s, p, wake)
    requires PHolds(s.producers[p].pc) <==> s.lock == ByProducer(p)
    ensures ProducerWake(c, s, ProducerNext(c, s, p, wake), p, wake)
  {
    ProducerHandover(c, s, p, wake);
  }

  lemma JobsAfterProducer(c: Config, s: State, t: State, p: nat, wake: set<nat>)
    requires JobsCovered(s) && SleepInv(s) && ProducerWake(c, s, t, p, wake)
    ensures JobsCovered(t)
  {
    WhereUpdate(s.producers, p, t.producers[p], OwesSignal);
    if s.producers[p].pc.PSignal? {
      assert s.notEmpty <= Where(s.workers, WContends);
      WakeCard(Where(s.workers, WContends), s.notEmpty, wake);
    }
  }

  lemma SpaceAfterProducer(c: Config, s: State, t: State, p: nat, wake: set<nat>)
    requires SpaceCovered(c, s) && ProducerWake(c, s, t, p, wake)
    ensures SpaceCovered(c, t)
  {
    WhereUpdate(s.producers, p, t.producers[p], PContends);
    if t.producers[p].pc.PSleep? {
    } else if PContends(t.producers[p]) {
      assert ContendingProducers(s) <= ContendingProducers(t);
      SubsetCard(ContendingProducers(s), ContendingProducers(t));
    } else {
      assert ContendingProducers(t) == ContendingProducers(s) - {p};
    }
  }

  /** What a worker's statement does to the accounting. */
  predicate WorkerWake(s: State, t: State, w: nat, wake: set<nat>) {
    && w < |s.workers| == |t.workers| && t.workers == s.workers[w := t.workers[w]]
    && var pc := s.workers[w].pc;
    && t.producers == s.producers && t.pool.shutdown == s.pool.shutdown
    && t.pool.jobNum == s.pool.jobNum - (if pc.WDec? then 1 else 0)
    && t.notFull == (if pc.WSignal? then s.notFull - wake else s.notFull)
    && t.notEmpty == (if t.workers[w].pc.WSleep? then s.notEmpty + {w} else s.notEmpty)
    && (t.workers[w].pc.WSleep? ==> s.pool.jobNum <= 0)
    && (pc.WSignal? ==> GoodWake(s.notFull, wake))
    && (!s.pool.shutdown && WContends(s.workers[w]) && !pc.WDec? ==> WContends(t.workers[w]))
    && OwnerW(t).WSignal? == (if pc.WDec? then true else if pc.WSignal? then false else OwnerW(s).WSignal?)
    && (pc.WDec? ==> !OwnerW(s).WSignal?) && (pc.WSignal? ==> OwnerW(s).WSignal?)
  }

  lemma WorkerWakes(c: Config, s: State, w: nat, wake: set<nat>)
    requires w < |s.workers| && WorkerCan(s, w, wake) && CounterInv(c, s)
    requires WHolds(s.workers[w].pc) <==> s.lock == ByWorker(w)
    ensures WorkerWake(s, WorkerNext(c, s, w, wake), w, wake)
  {
    WorkerHandover(c, s, w, wake);
  }

  lemma JobsAfterWorker(s: State, t: State, w: nat, wake: set<nat>)
    requires JobsCovered(s) && WorkerWake(s, t, w, wake) && !s.pool.shutdown
    ensures JobsCovered(t)
  {
    WhereUpdate(s.workers, w, t.workers[w], WContends);
    if t.workers[w].pc.WSleep? {
    } else if WContends(t.workers[w]) {
      assert ContendingWorkers(s) <= ContendingWorkers(t);
      SubsetCard(ContendingWorkers(s), ContendingWorkers(t));
    } else {
      assert ContendingWorkers(t) == ContendingWorkers(s) - {w};
    }
  }

  lemma SpaceAfterWorker(c: Config, s: State, t: State, w: nat, wake: set<nat>)
    requires SpaceCovered(c, s) && SleepInv(s) && WorkerWake(s, t, w, wake)
    ensures SpaceCovered(c, t)
  {
    if s.workers[w].pc.WSignal? {
      assert s.notFull <= Where(s.producers, PContends);
      WakeCard(Where(s.producers, PContends), s.notFull, wake);
    }
  }

  // --------------------------------------------------------------- the invariant

  ghost predicate QueueInv(c: Config, s: State) {
    CounterInv(c, s) && StoreInv(c, s)
  }

  ghost predicate WakeInv(c: Config, s: State) {
    SpaceCovered(c, s) && (!s.pool.shutdown ==> JobsCovered(s))
  }

  ghost predicate Inv(c: Config, s: State) {
    && ValidConfig(c) && |s.workers| == c.thrNum
    && LockInv(s) && SleepInv(s)
    && QueueInv(c, s)
    && CopyInv(s) && TicketInv(s) && CallsInv(s)
    && WakeInv(c, s)
  }

  lemma InvInit(c: Config, garbage: seq<PoolTask>)
    requires ValidConfig(c) && |garbage| == c.maxJobs
    ensures Inv(c, Init(c, garbage)) && !Init(c, garbage).pool.shutdown
  {
    assert Where(Init(c, garbage).producers, NotPushed) == {};
  }

  lemma InvKeptByProducer(c: Config, s: State, p: nat, wake: set<nat>)
    requires Inv(c, s) && p < |s.producers| && ProducerCan(s, p, wake)
    ensures Inv(c, ProducerNext(c, s, p, wake))
  {
    var t := ProducerNext(c, s, p, wake);
    SyncKeptByProducer(c, s, p, wake);
    CountersKeptByProducer(c, s, p, wake);
    StoreKeptByProducer(c, s, p, wake);
    CallsKeptByProducer(c, s, p, wake);
    HandsKeptByProducer(c, s, p, wake);
    ProducerWakes(c, s, p, wake);
    SpaceAfterProducer(c, s, t, p, wake);
    if !s.pool.shutdown {
      JobsAfterProducer(c, s, t, p, wake);
    }
  }

  lemma HandsKeptByProducer(c: Config, s: State, p: nat, wake: set<nat>)
    requires CopyInv(s) && TicketInv(s) && p < |s.producers| && ProducerCan(s, p, wake)
    ensures var t := ProducerNext(c, s, p, wake); CopyInv(t) && TicketInv(t) && |t.workers| == |s.workers|
  {
    var t := ProducerNext(c, s, p, wake);
    ProducerHandover(c, s, p, wake);
    assert t.pool.jobPop == s.pool.jobPop && t.pool.shutdown == s.pool.shutdown;
  }

  lemma InvKeptByWorker(c: Config, s: State, w: nat, wake: set<nat>)
    requires Inv(c, s) && w < |s.workers| && WorkerCan(s, w, wake)
    ensures Inv(c, WorkerNext(c, s, w, wake))
  {
    var t := WorkerNext(c, s, w, wake);
    SyncKeptByWorker(c, s, w, wake);
    CountersKeptByWorker(c, s, w, wake);
    StoreKeptByWorker(c, s, w, wake);
    CopyKeptByWorker(c, s, w, wake);
    TicketsKeptByWorker(c, s, w, wake);
    CallsKeptByWorker(c, s, w, wake);
    WorkerWakes(c, s, w, wake);
    SpaceAfterWorker(c, s, t, w, wake);
    if !s.pool.shutdown {
      JobsAfterWorker(s, t, w, wake);
    }
  }

  lemma CallsKeptByWorker(c: Config, s: State, w: nat, wake: set<nat>)
    requires CallsInv(s) && w < |s.workers| && WorkerCan(s, w, wake)
    ensures CallsInv(WorkerNext(c, s, w, wake))
  {
    var t := WorkerNext(c, s, w, wake);
    WorkerHandover(c, s, w, wake);
    assert t.pool.jobPush == s.pool.jobPush;
  }

  lemma CountsKeptByCall(c: Config, s: State, t: State)
    requires CallsInv(s) && WakeInv(c, s)
    requires t == s.(producers := s.producers + [Producer(PLock, 0)])
    requires OwnerW(t) == OwnerW(s)
    ensures CallsInv(t) && WakeInv(c, t)
  {
    var me := Producer(PLock, 0);
    WhereAppend(s.producers, me, NotPushed);
    WhereAppend(s.producers, me, OwesSignal);
    WhereAppend(s.producers, me, PContends);
    assert ContendingProducers(s) <= ContendingProducers(t);
    SubsetCard(ContendingProducers(s), ContendingProducers(t));
  }

  lemma InvKeptByCall(c: Config, s: State)
    requires Inv(c, s)
    ensures Inv(c, Next(c, s, Call))
  {
    var t := Next(c, s, Call);
    assert OwnerP(t) == OwnerP(s) && OwnerW(t) == OwnerW(s);
    CountsKeptByCall(c, s, t);
    SyncKeptByOthers(c, s, Call);
    RestKeptByOthers(c, s, Call);
  }

  lemma SyncKeptByOthers(c: Config, s: State, step: Step)
    requires LockInv(s) && SleepInv(s) && Enabled(s, step) && !step.ProducerStep? && !step.WorkerStep?
    ensures var t := Next(c, s, step); LockInv(t) && SleepInv(t)
  {
  }

  lemma RestKeptByOthers(c: Config, s: State, step: Step)
    requires LockInv(s) && QueueInv(c, s) && CopyInv(s) && TicketInv(s)
    requires Enabled(s, step) && !step.ProducerStep? && !step.WorkerStep?
    ensures var t := Next(c, s, step); QueueInv(c, t) && CopyInv(t) && TicketInv(t) && |t.workers| == |s.workers|
  {
    var t := Next(c, s, step);
    assert t.workers == s.workers && t.lock == s.lock && t.poppers == s.poppers && t.ran == s.ran;
    assert t.pool == s.pool.(shutdown := t.pool.shutdown) && (s.pool.shutdown ==> t.pool.shutdown);
    assert OwnerP(t) == OwnerP(s) && OwnerW(t) == OwnerW(s);
  }

  lemma InvKeptByOthers(c: Config, s: State, step: Step)
    requires Inv(c, s) && Enabled(s, step)
    requires step.Shutdown? || step.StrayProducer? || step.StrayWorker?
    ensures Inv(c, Next(c, s, step))
  {
    var t := Next(c, s, step);
    SyncKeptByOthers(c, s, step);
    RestKeptByOthers(c, s, step);
    assert t.producers == s.producers;
    OthersWake(c, s, t);
  }

  lemma OthersWake(c: Config, s: State, t: State)
    requires WakeInv(c, s)
    requires t.workers == s.workers && t.producers == s.producers && t.lock == s.lock
    requires t.pool.jobNum == s.pool.jobNum && (s.pool.shutdown ==> t.pool.shutdown)
    requires t.notFull <= s.notFull && t.notEmpty <= s.notEmpty
    ensures WakeInv(c, t)
  {
    SubsetCard(ContendingProducers(s), ContendingProducers(t));
    SubsetCard(ContendingWorkers(s), ContendingWorkers(t));
  }

  lemma {:induction false} InvAlong(c: Config, s: State, steps: seq<Step>)
    requires Inv(c, s) && Feasible(c, s, steps)
    ensures Inv(c, Exec(c, s, steps))
    decreases |steps|
  {
    if steps != [] {
      match steps[0] {
        case Call => InvKeptByCall(c, s);
        case ProducerStep(p, wake) => InvKeptByProducer(c, s, p, wake);
        case WorkerStep(w, wake) => InvKeptByWorker(c, s, w, wake);
        case _ => InvKeptByOthers(c, s, steps[0]);
      }
      InvAlong(c, Next(c, s, steps[0]), steps[1..]);
    }
  }

  // ------------------------------------------------------------------ the theorems

  ghost predicate Reachable(c: Config, s: State) {
    exists garbage, steps :: Reaches(c, garbage, steps, s)
  }

  ghost predicate Reaches(c: Config, garbage: seq<PoolTask>, steps: seq<Step>, s: State) {
    && ValidConfig(c) && |garbage| == c.maxJobs
    && Feasible(c, Init(c, garbage), steps)
    && s == Exec(c, Init(c, garbage), steps)
  }

  lemma InvAlways(c: Config, s: State)
    requires Reachable(c, s)
    ensures Inv(c, s)
  {
    var garbage, steps :| Reaches(c, garbage, steps, s);
    InvInit(c, garbage);
    InvAlong(c, Init(c, garbage), steps);
  }

  /** No wakeup is lost: before shutdown a blocked worker means that every queued
      job has a contending worker or a signal still to be sent, and at any time a
      blocked producer means that every free place has a contending producer or a
      worker about to signal. */
  lemma NoLostWakeup(c: Config, s: State)
    requires Reachable(c, s)
    ensures !s.pool.shutdown && s.notEmpty != {} ==>
              s.pool.jobNum <= |ContendingWorkers(s)| + |Where(s.producers, OwesSignal)|
    ensures s.notFull != {} ==>
              c.maxJobs - s.pool.jobNum <= |ContendingProducers(s)| + (if OwnerW(s).WSignal? then 1 else 0)
  {
    InvAlways(c, s);
  }

  /** With at least one worker, the whole program cannot fall asleep. */
  lemma NeverAllAsleep(c: Config, s: State)
    requires Reachable(c, s) && !s.pool.shutdown && c.thrNum >= 1
    requires forall w: nat | w < |s.workers| :: w in s.notEmpty
    requires forall p: nat | p < |s.producers| :: p in s.notFull || s.producers[p].pc.PReturned?
    ensures s.notFull == {}
  {
    InvAlways(c, s);
    assert 0 in s.notEmpty;
    AsleepMeansNoJobs(s);
    AsleepMeansNoRoom(c, s);
  }

  lemma LockOwnerCanMove(s: State)
    requires LockInv(s)
    ensures match s.lock
            case Free => true
            case ByProducer(p) => Enabled(s, ProducerStep(p, s.notEmpty))
            case ByWorker(w) => Enabled(s, WorkerStep(w, s.notFull))
  {
  }

  /** With the lock free, a thread that is not blocked and not done can go on. */
  lemma AwakeCanMove(s: State)
    requires s.lock == Free
    ensures forall p: nat | p < |s.producers| && p !in s.notFull && !s.producers[p].pc.PReturned? ::
              Enabled(s, ProducerStep(p, s.notEmpty))
    ensures forall w: nat | w < |s.workers| && w !in s.notEmpty && !s.workers[w].pc.WGone? ::
              Enabled(s, WorkerStep(w, s.notFull))
  {
  }

  ghost predicate SomebodyCanMove(s: State) {
    || (exists p, wake :: Enabled(s, ProducerStep(p, wake)))
    || (exists w, wake :: Enabled(s, WorkerStep(w, wake)))
  }

  /** As long as a call is unfinished and shutdown has not begun, some thread of a
      pool that has a worker can execute its next statement. */
  lemma AlwaysSomebodyCanMove(c: Config, s: State, p: nat)
    requires Reachable(c, s) && !s.pool.shutdown && c.thrNum >= 1
    requires p < |s.producers| && !s.producers[p].pc.PReturned?
    ensures SomebodyCanMove(s)
  {
    InvAlways(c, s);
    LockOwnerCanMove(s);
    NobodyQuitEarly(s);
    if s.lock == Free {
      AwakeCanMove(s);
      if w: nat :| w < |s.workers| && w !in s.notEmpty {
        assert Enabled(s, WorkerStep(w, s.notFull));
      } else if q: nat :| q < |s.producers| && q !in s.notFull && !s.producers[q].pc.PReturned? {
        assert Enabled(s, ProducerStep(q, s.notEmpty));
      } else {
        NeverAllAsleep(c, s);
        assert false;
      }
    }
  }

  lemma NobodyQuitEarly(s: State)
    requires CopyInv(s) && !s.pool.shutdown
    ensures forall w: nat | w < |s.workers| :: !s.workers[w].pc.WGone?
  {
  }

  /** No worker contends and no producer owes a signal, so there is no job. */
  lemma AsleepMeansNoJobs(s: State)
    requires JobsCovered(s) && SleepInv(s) && s.notEmpty != {}
    requires forall w: nat | w < |s.workers| :: w in s.notEmpty
    requires forall p: nat | p < |s.producers| :: p in s.notFull || s.producers[p].pc.PReturned?
    ensures s.pool.jobNum <= 0
  {
    assert ContendingWorkers(s) == {};
    assert Where(s.producers, OwesSignal) == {};
  }

  /** No producer contends and no worker is about to signal, so a producer that is
      blocked is right to be. */
  lemma AsleepMeansNoRoom(c: Config, s: State)
    requires SpaceCovered(c, s) && SleepInv(s)
    requires forall w: nat | w < |s.workers| :: w in s.notEmpty
    requires forall p: nat | p < |s.producers| :: p in s.notFull || s.producers[p].pc.PReturned?
    ensures s.notFull == {} || c.maxJobs <= s.pool.jobNum
  {
    assert ContendingProducers(s) == {};
    assert !OwnerW(s).WSignal? by {
      if s.lock.ByWorker? && s.lock.w < |s.workers| {
        assert s.lock.w in s.notEmpty;
      }
    }
  }

  /** The counters agree whenever the lock is free, and queued tickets lie in
      different slots that hold their own numbers. */
  lemma TicketsQueued(c: Config, s: State)
    requires Reachable(c, s) && s.lock == Free
    ensures s.pool.jobNum == s.pool.jobPush - s.pool.jobPop && 0 <= s.pool.jobNum <= c.maxJobs
    ensures s.pool.beginnum == 1000 + s.pool.jobPush
    ensures forall k: int | s.pool.jobPop <= k < s.pool.jobPush ::
              At(s.pool.tasks, Mod(k, c.maxJobs)) == PoolTask(1000 + k, Cell(Mod(k, c.maxJobs)), true)
    ensures forall j: int, k: int | s.pool.jobPop <= j < k < s.pool.jobPush :: Mod(j, c.maxJobs) != Mod(k, c.maxJobs)
  {
    InvAlways(c, s);
    forall j: int, k: int | s.pool.jobPop <= j < k < s.pool.jobPush
      ensures Mod(j, c.maxJobs) != Mod(k, c.maxJobs)
    {
      ModDistinct(j, k, c.maxJobs);
    }
  }

  /** taskRun sees the number that was enqueued, even if the slot has been reused
      since: the worker reads its own copy. */
  lemma RunSeesItsOwnNumber(c: Config, s: State, w: nat)
    requires Reachable(c, s) && w < |s.workers| && s.workers[w].pc.WCall?
    ensures s.workers[w].hand.Ticket? && s.workers[w].task.runs
    ensures Deref(s, s.workers[w]) == 1000 + s.workers[w].hand.k
  {
    InvAlways(c, s);
  }

  /** Every popped ticket is in its popper's hand (for good, if that worker quits),
      or its own number has been run exactly once; nothing else has been run. */
  lemma TicketsRunAtMostOnce(c: Config, s: State, k: nat)
    requires Reachable(c, s) && k < s.pool.jobPop
    ensures |s.poppers| == s.pool.jobPop
    ensures s.ran[1000 + k] == if HoldsTicket(s, s.poppers[k], k) then 0 else 1
    ensures forall w: nat | HoldsTicket(s, w, k) :: w == s.poppers[k]
    ensures forall x: int | x in s.ran :: FIRST_NUM <= x < FIRST_NUM + s.pool.jobPop
  {
    InvAlways(c, s);
  }

  const INT_MAX := 0x7fff_ffff

  /** With fewer than 2^31 - 1000 calls of addtask no counter leaves the range of a
      C int, so the unbounded integers of this model are the program's. */
  lemma CountersFitInt(c: Config, s: State)
    requires Reachable(c, s) && |s.producers| < INT_MAX + 1 - FIRST_NUM && c.maxJobs <= INT_MAX
    ensures 0 <= s.pool.jobPop <= s.pool.jobPush <= s.pool.beginnum <= INT_MAX
    ensures 0 <= s.pool.jobNum <= INT_MAX
  {
    InvAlways(c, s);
  }
}
