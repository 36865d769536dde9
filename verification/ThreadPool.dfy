/** `struct threadpool_t` as an object. Each method is a stretch of
    thread/threadpool.c that runs with `lock` held, statement for statement, and
    is proved against the operations of the transition system. */
module ThreadPool {
  import opened TaskRing
  import DynamicPool
  import opened DynamicPoolManager

  /** Lines 152-161, step by step in the transition system. */
  lemma AddSteps(c: DynamicPool.Config, s: DynamicPool.State, p: nat)
    requires p < |s.producers| && s.producers[p].pc == DynamicPool.PClear
    ensures var r := DynamicPool.ProducerNext(c, DynamicPool.ProducerNext(c, s, p, {}), p, {});
      && |r.producers| == |s.producers|
      && var t := DynamicPool.ProducerNext(c, r, p, {});
      && |t.producers| == |s.producers| && t.producers[p].pc == DynamicPool.PRear
      && var u := DynamicPool.ProducerNext(c, DynamicPool.ProducerNext(c, t, p, {}), p, {});
      && u.producers == s.producers[p := s.producers[p].(pc := DynamicPool.PSignal)]
      && u.pool == s.pool.(ring := Added(s.pool.ring, s.producers[p].task, c.cap))
  {
  }

  /** Lines 215-219 likewise; the worker leaves with the head of the queue. */
  lemma TakeSteps(c: DynamicPool.Config, s: DynamicPool.State, w: nat)
    requires w < |s.workers| && s.workers[w].pc == DynamicPool.WTake
    ensures var t := DynamicPool.WorkerNext(c, s, w);
      && |t.workers| == |s.workers|
      && var u := DynamicPool.WorkerNext(c, DynamicPool.WorkerNext(c, t, w), w);
      && |u.workers| == |s.workers| && u.workers[w].pc == DynamicPool.WBroadcast
      && u.workers[w].task == Head(s.pool.ring)
      && u.pool == s.pool.(ring := Taken(s.pool.ring, c.cap))
  {
  }

  /** The pool after a woken worker has decided whether to retire. */
  function AfterWake(pool: DynamicPool.Pool, minThr: int): DynamicPool.Pool {
    if pool.waitExit <= 0 then pool
    else pool.(waitExit := pool.waitExit - 1, live := if pool.live > minThr then pool.live - 1 else pool.live)
  }

  /** Lines 189-202 likewise: one statement, three, or four. */
  lemma RetireSteps(c: DynamicPool.Config, s: DynamicPool.State, w: nat)
    requires w < |s.workers| && s.workers[w].pc == DynamicPool.WWoken
    ensures var a := DynamicPool.WorkerNext(c, s, w);
      && |a.workers| == |s.workers|
      && if s.pool.waitExit <= 0
         then a.workers[w].pc == DynamicPool.WCheck && a.pool == AfterWake(s.pool, c.minThr)
         else var b := DynamicPool.WorkerNext(c, DynamicPool.WorkerNext(c, a, w), w);
           && |b.workers| == |s.workers|
           && if s.pool.live <= c.minThr
              then b.workers[w].pc == DynamicPool.WCheck && b.pool == AfterWake(s.pool, c.minThr)
              else var d := DynamicPool.WorkerNext(c, b, w);
                && |d.workers| == |s.workers|
                && d.workers[w].pc == DynamicPool.WRetUnlock && d.pool == AfterWake(s.pool, c.minThr)
  {
  }

  ghost predicate Below(at: seq<nat>, i: nat) {
    forall m | 0 <= m < |at| :: at[m] < i
  }

  ghost predicate NoneVacant(threads: seq<DynamicPool.Slot>, i: nat, dead: set<nat>) {
    i <= |threads| && forall k | 0 <= k < i :: !Vacant(threads[k], dead)
  }

  /** The slots `at`, vacant before and in increasing order, hold the threads from
      `next` on, and all others are as they were. */
  ghost predicate Filled(was: seq<DynamicPool.Slot>, now: seq<DynamicPool.Slot>,
                         at: seq<nat>, next: nat, dead: set<nat>)
  {
    && |was| == |now|
    && (forall m, n | 0 <= m < n < |at| :: at[m] < at[n])
    && (forall m | 0 <= m < |at| ::
          at[m] < |now| && Vacant(was[at[m]], dead) && now[at[m]] == DynamicPool.Tid(next + m))
    && (forall i: nat | i < |now| && i !in at :: now[i] == was[i])
  }

  lemma FilledStep(was: seq<DynamicPool.Slot>, now: seq<DynamicPool.Slot>,
                   at: seq<nat>, i: nat, next: nat, dead: set<nat>)
    requires Filled(was, now, at, next, dead) && Below(at, i) && i < |now| && Vacant(now[i], dead)
    requires NoneVacant(now, i, dead) && forall d | d in dead :: d < next
    ensures var now' := now[i := DynamicPool.Tid(next + |at|)];
      && Filled(was, now', at + [i], next, dead) && Below(at + [i], i + 1)
      && NoneVacant(now', i + 1, dead)
  {
  }

  class ThreadPool {
    const minThrNum: nat
    const maxThrNum: nat
    const queueMaxSize: nat
    const taskQueue: array<Task>
    const threads: array<DynamicPool.Slot>
    var liveThrNum: int
    var busyThrNum: int
    var waitExitThrNum: int
    var queueFront: int
    var queueRear: int
    var queueSize: int
    var shutdown: bool

    /** The data of the struct, as the transition system sees it. */
    ghost function View(): DynamicPool.Pool
      reads this, taskQueue, threads
    {
      DynamicPool.Pool(
        Ring(queueFront, queueRear, queueSize, taskQueue[..]),
        liveThrNum, busyThrNum, waitExitThrNum, shutdown, threads[..])
    }

    ghost predicate Valid()
      reads this, taskQueue, threads
    {
      && 1 <= minThrNum <= maxThrNum == threads.Length
      && 1 <= queueMaxSize == taskQueue.Length
      && RingShape(View().ring, queueMaxSize, queueSize)
    }

    /** The queued tasks, oldest first. */
    ghost function Queue(): seq<Task>
      reads this, taskQueue, threads
      requires Valid()
    {
      Contents(taskQueue[..], queueFront, queueSize)
    }

    constructor (minThr: nat, maxThr: nat, queueMax: nat)
      requires 1 <= minThr <= maxThr && 1 <= queueMax
      ensures Valid() && fresh(taskQueue) && fresh(threads)
      ensures minThrNum == minThr && maxThrNum == maxThr && queueMaxSize == queueMax
      ensures View() == DynamicPool.Init(DynamicPool.Config(minThr, maxThr, queueMax), taskQueue[..]).pool
      ensures Queue() == [] && !shutdown && liveThrNum == minThr && busyThrNum == 0 && waitExitThrNum == 0
    {
      minThrNum, maxThrNum, queueMaxSize := minThr, maxThr, queueMax;
      busyThrNum, liveThrNum, waitExitThrNum := 0, minThr, 0;
      queueSize, queueFront, queueRear := 0, 0, 0;
      shutdown := false;
      threads := new DynamicPool.Slot[maxThr](_ => DynamicPool.Empty);
      taskQueue := new Task[queueMax](_ => NO_TASK);
      new;
      for i := 0 to minThr
        invariant liveThrNum == minThr && busyThrNum == waitExitThrNum == 0 && !shutdown
        invariant queueFront == queueRear == queueSize == 0
        invariant forall k | 0 <= k < i :: threads[k] == DynamicPool.Tid(k)
        invariant forall k | i <= k < maxThr :: threads[k] == DynamicPool.Empty
      {
        threads[i] := DynamicPool.Tid(i);
      }
    }

    /** Lines 152-161 of threadpool_add: the queue is not full. */
    method PutTask(function_: int, arg: int)
      requires Valid() && queueSize < queueMaxSize
      modifies this`queueRear, this`queueSize, taskQueue
      ensures Valid()
      ensures Queue() == old(Queue()) + [Task(function_, arg)]
      ensures View() == old(View()).(ring := Added(old(View().ring), Task(function_, arg), queueMaxSize))
    {
      ghost var before := taskQueue[..];
      if taskQueue[queueRear].arg != 0 {
        taskQueue[queueRear] := taskQueue[queueRear].(arg := 0);
      }
      taskQueue[queueRear] := taskQueue[queueRear].(func := function_);
      taskQueue[queueRear] := taskQueue[queueRear].(arg := arg);
      assert taskQueue[..] == before[queueRear := Task(function_, arg)];
      StoreKeepsContents(before, queueFront, queueSize, Task(function_, arg));
      AdvanceRearAppends(taskQueue[..], queueFront, queueSize);
      SuccIsNext(queueFront, queueSize, queueMaxSize);
      queueRear := (queueRear + 1) % queueMaxSize;
      queueSize := queueSize + 1;
    }

    /** Lines 215-219 of threadpool_thread: the queue is not empty. */
    method TakeTask() returns (task: Task)
      requires Valid() && queueSize > 0
      modifies this`queueFront, this`queueSize
      ensures Valid()
      ensures old(Queue()) == [task] + Queue()
      ensures task == Head(old(View().ring))
      ensures View() == old(View()).(ring := Taken(old(View().ring), queueMaxSize))
    {
      AdvanceFrontDrops(taskQueue[..], queueFront, queueSize);
      task := Task(taskQueue[queueFront].func, taskQueue[queueFront].arg);
      queueFront := (queueFront + 1) % queueMaxSize;
      queueSize := queueSize - 1;
    }

    /** Lines 189-202: a woken worker decides whether to retire. */
    method RetireIfSurplus() returns (retire: bool)
      requires Valid() && minThrNum <= liveThrNum
      modifies this`waitExitThrNum, this`liveThrNum
      ensures Valid() && minThrNum <= liveThrNum
      ensures retire <==> old(waitExitThrNum) > 0 && old(liveThrNum) > minThrNum
      ensures View() == AfterWake(old(View()), minThrNum)
    {
      retire := false;
      if waitExitThrNum > 0 {
        waitExitThrNum := waitExitThrNum - 1;
        if liveThrNum > minThrNum {
          liveThrNum := liveThrNum - 1;
          retire := true;
        }
      }
    }

    /** Lines 277 and 279: thread `w` is created in slot `i` and counted. */
    method CreateThread(i: nat, w: nat)
      requires Valid() && i < maxThrNum
      modifies this`liveThrNum, threads
      ensures Valid()
      ensures liveThrNum == old(liveThrNum) + 1 && threads[..] == old(threads[..])[i := DynamicPool.Tid(w)]
      ensures View() == Created(old(View()), i, w)
    {
      threads[i] := DynamicPool.Tid(w);
      liveThrNum := liveThrNum + 1;
    }

    /** Lines 275-280: one turn of the loop, at slot `i`. */
    method TrySlot(i: nat, dead: set<nat>, next: nat, add: nat, ghost was: seq<DynamicPool.Slot>, ghost at: seq<nat>)
        returns (add': nat, ghost at': seq<nat>)
      requires Valid() && i < maxThrNum && liveThrNum < maxThrNum && |at| == add < DynamicPool.DEFAULT_THREAD_VARY
      requires forall d | d in dead :: d < next
      requires Filled(was, threads[..], at, next, dead) && Below(at, i) && NoneVacant(threads[..], i, dead)
      modifies this`liveThrNum, threads
      ensures Valid() && |at'| == add' && add <= add' <= add + 1 && liveThrNum == old(liveThrNum) + add' - add
      ensures Filled(was, threads[..], at', next, dead) && Below(at', i + 1) && NoneVacant(threads[..], i + 1, dead)
      ensures Grown(View(), i + 1, add', next + add', dead) == Grown(old(View()), i, add, next + add, dead)
    {
      add', at' := add, at;
      if threads[i] == DynamicPool.Empty || threads[i].w in dead {
        FilledStep(was, threads[..], at, i, next, dead);
        CreateThread(i, next + add);
        add', at' := add + 1, at + [i];
      }
    }

    /** Lines 268-283: one grow pass. New threads get the identifiers from `next`
        on and go to the vacant slots `at`, lowest first; it stops only after ten
        of them, at the maximum, or when no vacant slot is left. */
    method GrowPass(dead: set<nat>, next: nat) returns (add: nat, ghost at: seq<nat>)
      requires Valid() && liveThrNum <= maxThrNum
      requires forall d | d in dead :: d < next
      modifies this`liveThrNum, threads
      ensures Valid()
      ensures |at| == add <= 10
      ensures liveThrNum == old(liveThrNum) + add <= maxThrNum
      ensures View() == Grown(old(View()), 0, 0, next, dead)
      ensures Filled(old(threads[..]), threads[..], at, next, dead)
      ensures add == 10 || liveThrNum == maxThrNum ||
              NoneVacant(threads[..], maxThrNum, dead)
    {
      add, at := 0, [];
      var i: nat := 0;
      while i < maxThrNum && add < DynamicPool.DEFAULT_THREAD_VARY && liveThrNum < maxThrNum
        invariant Valid() && i <= maxThrNum && |at| == add <= DynamicPool.DEFAULT_THREAD_VARY
        invariant liveThrNum == old(liveThrNum) + add <= maxThrNum
        invariant Grown(View(), i, add, next + add, dead) == Grown(old(View()), 0, 0, next, dead)
        invariant Filled(old(threads[..]), threads[..], at, next, dead)
        invariant Below(at, i) && NoneVacant(threads[..], i, dead)
      {
        add, at := TrySlot(i, dead, next, add, old(threads[..]), at);
        i := i + 1;
      }
    }
  }
}
