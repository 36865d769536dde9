/** A run of the dynamic pool that ends with a queued task and no thread awake to
    take it: `threadpool_create(1, 2, 10)`, ten tasks, one grow pass, one shrink
    pass that nobody is there to notice, an idle pool, and one more task. The
    worker that the last signal wakes finds the left-over `wait_exit_thr_num` and
    retires. */
module DynamicPoolLostWakeup {
  import opened Counting
  import opened TaskRing
  import opened DynamicPool
  import opened DynamicPoolCycles
  import opened DynamicPoolManager
  import opened DynamicPoolWorkers
  import opened DynamicPoolTheorems

  const SMALL := Config(1, 2, 10)

  ghost predicate Leads(s: State, t: State) {
    exists steps :: LeadsBy(s, t, steps)
  }

  ghost predicate LeadsBy(s: State, t: State, steps: seq<Step>) {
    Feasible(SMALL, s, steps) && t == Exec(SMALL, s, steps)
  }

  lemma LeadsNowhere(s: State)
    ensures Leads(s, s)
  {
    assert LeadsBy(s, s, []);
  }

  lemma LeadsOn(s: State, t: State, u: State)
    requires Leads(s, t) && Leads(t, u)
    ensures Leads(s, u)
  {
    var xs :| LeadsBy(s, t, xs);
    var ys :| LeadsBy(t, u, ys);
    ExecAppend(SMALL, s, xs, ys);
    assert LeadsBy(s, u, xs + ys);
  }

  /** A thread on its own, and the manager on its own, lead where they go. */
  lemma LeadsAlone(s: State, step: Step, n: nat, t: State)
    requires Goes(SMALL, s, step, n, t)
    ensures Leads(s, t)
  {
    assert LeadsBy(s, t, Repeat(step, n));
  }

  lemma ManagerAlone(s: State, t: State)
    requires ManagerLeads(SMALL, s, t)
    ensures Leads(s, t)
  {
    var steps :| ManagerRun(SMALL, s, steps, t);
    assert LeadsBy(s, t, steps);
  }

  // ------------------------------------------------------- pieces of the schedule

  lemma TakeOne(s: State, w: nat) returns (t: State)
    requires w < |s.workers| && s.workers[w].pc == WLock && s.lock == Free && s.counter == Free
    requires !s.pool.shutdown && s.pool.ring.size > 0
    ensures Leads(s, t) && t == Served(SMALL, s, w)
  {
    t := Served(SMALL, s, w);
    WorkerServes(SMALL, s, w);
    LeadsAlone(s, WorkerStep(w), 16, t);
  }

  /** Only worker `w` has moved, and the queue and the history. */
  predicate Alone(s: State, t: State, w: nat, pc: WorkerPc) {
    && w < |s.workers| == |t.workers|
    && t.workers == s.workers[w := t.workers[w]] && t.workers[w].pc == pc
    && t.lock == Free && t.counter == Free
    && t.producers == s.producers && t.mgr == s.mgr
    && t.pool == s.pool.(ring := t.pool.ring)
  }

  lemma {:induction false} Drain(s: State, w: nat) returns (t: State)
    requires w < |s.workers| && s.workers[w].pc == WLock && s.lock == Free && s.counter == Free
    requires !s.pool.shutdown && s.pool.ring.size >= 0
    ensures Leads(s, t) && Alone(s, t, w, WLock) && t.notEmpty == s.notEmpty && t.pool.ring.size == 0
    decreases s.pool.ring.size
  {
    if s.pool.ring.size == 0 {
      t := s;
      LeadsNowhere(s);
    } else {
      var a := TakeOne(s, w);
      t := Drain(a, w);
      LeadsOn(s, a, t);
    }
  }

  lemma FallAsleep(s: State, w: nat) returns (t: State)
    requires w < |s.workers| && s.workers[w].pc == WLock && s.lock == Free && s.counter == Free
    requires !s.pool.shutdown && s.pool.ring.size == 0
    ensures Leads(s, t) && Alone(s, t, w, WSleep) && t.notEmpty == s.notEmpty + {w} && t.pool == s.pool
  {
    t := PutWorker(s, w, s.workers[w].(pc := WSleep)).(notEmpty := s.notEmpty + {w});
    WorkerBlocks(SMALL, s, w);
    LeadsAlone(s, WorkerStep(w), 2, t);
  }

  lemma AddOne(s: State, task: Task, wake: set<nat>) returns (t: State)
    requires s.lock == Free && !s.pool.shutdown && s.pool.ring.size != SMALL.cap && GoodWake(s.notEmpty, wake)
    ensures Leads(s, t)
    ensures t.lock == Free && t.counter == s.counter && t.workers == s.workers && t.mgr == s.mgr
    ensures t.notEmpty == s.notEmpty - wake
    ensures t.pool == s.pool.(ring := t.pool.ring) && t.pool.ring.size == s.pool.ring.size + 1
  {
    var p := |s.producers|;
    var a := Next(SMALL, s, Call(task));
    var b := Goes1(SMALL, s, Call(task));
    LeadsAlone(s, Call(task), 1, a);
    t := Accepted(SMALL, a, p, wake);
    CallAdds(SMALL, a, p, wake);
    LeadsAlone(a, ProducerStep(p, wake), 10, t);
    LeadsOn(s, a, t);
  }

  lemma {:induction false} Fill(s: State, task: Task) returns (t: State)
    requires s.lock == Free && !s.pool.shutdown && s.pool.ring.size <= SMALL.cap && s.notEmpty == {}
    ensures Leads(s, t)
    ensures t.lock == Free && t.counter == s.counter && t.workers == s.workers && t.mgr == s.mgr && t.notEmpty == {}
    ensures t.pool == s.pool.(ring := t.pool.ring) && t.pool.ring.size == SMALL.cap
    decreases SMALL.cap - s.pool.ring.size
  {
    if s.pool.ring.size == SMALL.cap {
      t := s;
      LeadsNowhere(s);
    } else {
      var a := AddOne(s, task, {});
      t := Fill(a, task);
      LeadsOn(s, a, t);
    }
  }

  // ------------------------------------------------------------------- the story

  /** With ten tasks queued and one thread live, the first pass creates the second. */
  lemma GrowByOne(s: State) returns (t: State)
    requires s.mgr.pc == MTop && !s.pool.shutdown && s.lock == Free && s.counter == Free && s.notEmpty == {}
    requires s.pool.threads == [Tid(0), Empty] && s.pool.live == 1 && s.pool.busy == 0 && s.pool.ring.size == 10
    requires |s.workers| == 1 && s.workers[0].pc == WLock
    ensures Leads(s, t)
    ensures t.mgr.pc == MTop && t.lock == Free && t.counter == Free && t.notEmpty == {}
    ensures |t.workers| == 2 && t.workers[0].pc == WLock && t.workers[1].pc == WLock
    ensures t.pool == s.pool.(threads := [Tid(0), Tid(1)], live := 2)
  {
    GrownStep(s.pool, 0, 0, 1, {});
    GrownStep(s.pool, 1, 0, 1, {});
    assert Created(s.pool, 1, 1) == s.pool.(threads := [Tid(0), Tid(1)], live := 2);
    t := UndisturbedPass(SMALL, s, {});
    ManagerAlone(s, t);
  }

  /** All threads look idle to the second pass, so it asks ten of them to leave. */
  lemma ClaimTen(s: State) returns (t: State)
    requires s.mgr.pc == MTop && !s.pool.shutdown && s.lock == Free && s.counter == Free && s.notEmpty == {}
    requires |s.pool.threads| == 2 && s.pool.live == 2 && s.pool.busy == 0
    requires |s.workers| == 2 && s.workers[0].pc == WLock && s.workers[1].pc == WLock
    ensures Leads(s, t)
    ensures t.mgr.pc == MTop && t.lock == Free && t.counter == Free && t.notEmpty == {}
    ensures |t.workers| == 2 && t.workers[0].pc == WLock && t.workers[1].pc == WLock
    ensures t.pool == s.pool.(waitExit := 10)
  {
    t := UndisturbedPass(SMALL, s, {});
    ManagerAlone(s, t);
  }

  lemma Busiest(garbage: seq<Task>, task: Task) returns (t: State)
    requires |garbage| == SMALL.cap
    ensures Leads(Init(SMALL, garbage), t)
    ensures t.mgr.pc == MTop && t.lock == Free && t.counter == Free && t.notEmpty == {}
    ensures |t.workers| == 2 && t.workers[0].pc == WLock && t.workers[1].pc == WLock
    ensures t.pool.ring.size == 10 && !t.pool.shutdown
    ensures t.pool.waitExit == 10 && t.pool.live == 2
  {
    var s := Init(SMALL, garbage);
    var a := Fill(s, task);
    assert a.pool.threads == [Tid(0), Empty];
    var b := GrowByOne(a);
    LeadsOn(s, a, b);
    t := ClaimTen(b);
    LeadsOn(s, b, t);
  }

  lemma AllIdle(s: State) returns (t: State)
    requires s.lock == Free && s.counter == Free && s.notEmpty == {}
    requires |s.workers| == 2 && s.workers[0].pc == WLock && s.workers[1].pc == WLock
    requires s.pool.ring.size == 10 && !s.pool.shutdown
    ensures Leads(s, t)
    ensures t.mgr == s.mgr && t.lock == Free && t.notEmpty == {0, 1}
    ensures |t.workers| == 2 && t.workers[0].pc == WSleep && t.workers[1].pc == WSleep
    ensures t.pool == s.pool.(ring := t.pool.ring) && t.pool.ring.size == 0
  {
    var a := Drain(s, 0);
    var b := FallAsleep(a, 0);
    LeadsOn(s, a, b);
    t := FallAsleep(b, 1);
    LeadsOn(s, b, t);
    assert {} + {0} + {1} == {0, 1};
  }

  lemma OneMore(s: State, task: Task) returns (t: State)
    requires s.lock == Free && s.notEmpty == {0, 1}
    requires |s.workers| == 2 && s.workers[0].pc == WSleep && s.workers[1].pc == WSleep
    requires s.pool.ring.size == 0 && !s.pool.shutdown && s.pool.waitExit > 0 && s.pool.live == 2
    ensures Leads(s, t)
    ensures t.mgr == s.mgr && t.lock == Free && !t.pool.shutdown && t.pool.ring.size == 1
    ensures |t.workers| == 2 && t.workers[0].pc == WRetired && t.workers[1].pc == WSleep && t.notEmpty == {1}
  {
    var a := AddOne(s, task, {0});
    assert {0, 1} - {0} == {1};
    WorkerRetires(SMALL, a, 0);
    t := PutWorker(a, 0, a.workers[0].(pc := WRetired)).(
           pool := a.pool.(waitExit := a.pool.waitExit - 1, live := a.pool.live - 1),
           log := a.log.(strays := a.log.strays + 1));
    LeadsAlone(a, WorkerStep(0), 7, t);
    LeadsOn(s, a, t);
  }

  lemma IdleThenOneMore(s: State, task: Task) returns (t: State)
    requires s.lock == Free && s.counter == Free && s.notEmpty == {}
    requires |s.workers| == 2 && s.workers[0].pc == WLock && s.workers[1].pc == WLock
    requires s.pool.ring.size == 10 && !s.pool.shutdown
    requires s.pool.waitExit == 10 && s.pool.live == 2
    ensures Leads(s, t)
    ensures t.mgr == s.mgr && t.lock == Free && !t.pool.shutdown && t.pool.ring.size == 1
    ensures |t.workers| == 2 && t.workers[0].pc == WRetired && t.workers[1].pc == WSleep && t.notEmpty == {1}
  {
    var a := AllIdle(s);
    t := OneMore(a, task);
    LeadsOn(s, a, t);
  }

  /** No-lost-wakeup is false of the dynamic pool: this reachable state has a task
      queued, both mutexes at rest, every worker retired or blocked, and nobody
      about to signal. */
  lemma LostWakeupReachable(garbage: seq<Task>, task: Task) returns (t: State)
    requires |garbage| == SMALL.cap
    ensures Reachable(SMALL, t)
    ensures !t.pool.shutdown && t.lock == Free && t.mgr.pc == MTop && t.pool.ring.size == 1
    ensures t.notEmpty == {1} && Contending(t) == {} && Pending(t) == 0
    ensures !Covered(t, 0)
  {
    var a := Busiest(garbage, task);
    t := IdleThenOneMore(a, task);
    LeadsOn(Init(SMALL, garbage), a, t);
    var steps :| LeadsBy(Init(SMALL, garbage), t, steps);
    assert Reaches(SMALL, garbage, steps, t);
    assert Where(t.workers, Contends) == {1};
  }
}
