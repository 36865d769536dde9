/** What one thread of the dynamic pool does when no other interferes: whole turns of
    its loop, statement by statement. */
module DynamicPoolCycles {
  import opened Counting
  import opened TaskRing
  import opened DynamicPool

  function Repeat(step: Step, n: nat): seq<Step> {
    seq(n, i => step)
  }

  /** `n` statements of the one kind of step lead from `s` to `t`. */
  ghost predicate Goes(c: Config, s: State, step: Step, n: nat, t: State) {
    Feasible(c, s, Repeat(step, n)) && Exec(c, s, Repeat(step, n)) == t
  }

  lemma GoesOnce(c: Config, s: State, step: Step, n: nat, t: State)
    requires Enabled(s, step) && Goes(c, Next(c, s, step), step, n, t)
    ensures Goes(c, s, step, n + 1, t)
  {
    assert Repeat(step, n + 1)[1..] == Repeat(step, n);
  }

  lemma GoesOn(c: Config, s: State, step: Step, m: nat, t: State, n: nat, u: State)
    requires Goes(c, s, step, m, t) && Goes(c, t, step, n, u)
    ensures Goes(c, s, step, m + n, u)
  {
    ExecAppend(c, s, Repeat(step, m), Repeat(step, n));
    assert Repeat(step, m) + Repeat(step, n) == Repeat(step, m + n);
  }

  lemma Goes1(c: Config, s: State, step: Step) returns (t: State)
    requires Enabled(s, step)
    ensures t == Next(c, s, step) && Goes(c, s, step, 1, t)
  {
    t := Next(c, s, step);
    GoesOnce(c, s, step, 0, t);
  }

  lemma Goes2(c: Config, s: State, step: Step) returns (t: State)
    requires Enabled(s, step) && Enabled(Next(c, s, step), step)
    ensures t == Next(c, Next(c, s, step), step) && Goes(c, s, step, 2, t)
  {
    var a := Next(c, s, step);
    t := Goes1(c, a, step);
    GoesOnce(c, s, step, 1, t);
  }

  lemma Goes3(c: Config, s: State, step: Step) returns (t: State)
    requires Enabled(s, step) && Enabled(Next(c, s, step), step) && Enabled(Next(c, Next(c, s, step), step), step)
    ensures t == Next(c, Next(c, Next(c, s, step), step), step) && Goes(c, s, step, 3, t)
  {
    var a := Next(c, s, step);
    t := Goes2(c, a, step);
    GoesOnce(c, s, step, 2, t);
  }

  // -------------------------------------------------------------------- workers

  function PutWorker(s: State, w: nat, me: Worker): State
    requires w < |s.workers|
  {
    s.(workers := s.workers[w := me])
  }

  lemma Fetch(c: Config, s: State, w: nat) returns (t: State)
    requires w < |s.workers| && s.workers[w].pc == WLock && s.lock == Free
    requires !s.pool.shutdown && s.pool.ring.size != 0
    ensures Goes(c, s, WorkerStep(w), 3, t)
    ensures t == PutWorker(s, w, s.workers[w].(pc := WTake)).(lock := ByWorker(w))
  {
    t := Goes3(c, s, WorkerStep(w));
  }

  lemma Remove(c: Config, s: State, w: nat) returns (t: State)
    requires w < |s.workers| && s.workers[w].pc == WTake
    ensures Goes(c, s, WorkerStep(w), 3, t)
    ensures t == PutWorker(s, w, s.workers[w].(pc := WBroadcast, task := Head(s.pool.ring), ticket := |s.log.taken|)).(
                   pool := s.pool.(ring := Taken(s.pool.ring, c.cap)),
                   log := s.log.(taken := s.log.taken + [Head(s.pool.ring)], takers := s.log.takers + [w]))
  {
    t := Goes3(c, s, WorkerStep(w));
  }

  lemma Release(c: Config, s: State, w: nat) returns (t: State)
    requires w < |s.workers| && s.workers[w].pc == WBroadcast && s.counter == Free
    ensures Goes(c, s, WorkerStep(w), 3, t)
    ensures t == PutWorker(s, w, s.workers[w].(pc := WInc)).(notFull := {}, lock := Free, counter := ByWorker(w))
  {
    t := Goes3(c, s, WorkerStep(w));
  }

  /** Lines 180-225: the oldest task leaves the queue. */
  lemma WorkerTakes(c: Config, s: State, w: nat) returns (t: State)
    requires w < |s.workers| && s.workers[w].pc == WLock && s.lock == Free && s.counter == Free
    requires !s.pool.shutdown && s.pool.ring.size != 0
    ensures Goes(c, s, WorkerStep(w), 9, t)
    ensures t == PutWorker(s, w, s.workers[w].(pc := WInc, task := Head(s.pool.ring), ticket := |s.log.taken|)).(
                   notFull := {}, counter := ByWorker(w),
                   pool := s.pool.(ring := Taken(s.pool.ring, c.cap)),
                   log := s.log.(taken := s.log.taken + [Head(s.pool.ring)], takers := s.log.takers + [w]))
  {
    var a := Fetch(c, s, w);
    var b := Remove(c, a, w);
    GoesOn(c, s, WorkerStep(w), 3, a, 3, b);
    t := Release(c, b, w);
    GoesOn(c, s, WorkerStep(w), 6, b, 3, t);
  }

  lemma Begin(c: Config, s: State, w: nat) returns (t: State)
    requires w < |s.workers| && s.workers[w].pc == WInc
    ensures Goes(c, s, WorkerStep(w), 3, t)
    ensures t == PutWorker(s, w, s.workers[w].(pc := WRunning)).(
                   counter := Free, pool := s.pool.(busy := s.pool.busy + 1))
  {
    t := Goes3(c, s, WorkerStep(w));
  }

  lemma EndTask(c: Config, s: State, w: nat) returns (t: State)
    requires w < |s.workers| && s.workers[w].pc == WRunning && s.counter == Free
    ensures Goes(c, s, WorkerStep(w), 2, t)
    ensures t == PutWorker(s, w, s.workers[w].(pc := WDec)).(
                   counter := ByWorker(w), log := s.log.(finished := s.log.finished + multiset{s.workers[w].ticket}))
  {
    t := Goes2(c, s, WorkerStep(w));
  }

  lemma Discount(c: Config, s: State, w: nat) returns (t: State)
    requires w < |s.workers| && s.workers[w].pc == WDec
    ensures Goes(c, s, WorkerStep(w), 2, t)
    ensures t == PutWorker(s, w, s.workers[w].(pc := WLock)).(
                   counter := Free, pool := s.pool.(busy := s.pool.busy - 1))
  {
    t := Goes2(c, s, WorkerStep(w));
  }

  /** Lines 230-240: the task in hand is run. */
  lemma WorkerRuns(c: Config, s: State, w: nat) returns (t: State)
    requires w < |s.workers| && s.workers[w].pc == WInc
    ensures Goes(c, s, WorkerStep(w), 7, t)
    ensures t == PutWorker(s, w, s.workers[w].(pc := WLock)).(
                   counter := Free, log := s.log.(finished := s.log.finished + multiset{s.workers[w].ticket}))
  {
    var a := Begin(c, s, w);
    var b := EndTask(c, a, w);
    GoesOn(c, s, WorkerStep(w), 3, a, 2, b);
    t := Discount(c, b, w);
    GoesOn(c, s, WorkerStep(w), 5, b, 2, t);
  }

  /** The state after worker `w` has taken the oldest task and run it. */
  function Served(c: Config, s: State, w: nat): State
    requires w < |s.workers|
  {
    PutWorker(s, w, s.workers[w].(pc := WLock, task := Head(s.pool.ring), ticket := |s.log.taken|)).(
      notFull := {},
      pool := s.pool.(ring := Taken(s.pool.ring, c.cap)),
      log := s.log.(taken := s.log.taken + [Head(s.pool.ring)], takers := s.log.takers + [w],
                    finished := s.log.finished + multiset{|s.log.taken|}))
  }

  /** Lines 180-240: with a task queued and no shutdown, the sixteen statements of a
      turn take the oldest task, wake every blocked call, and run the task. */
  lemma WorkerServes(c: Config, s: State, w: nat)
    requires w < |s.workers| && s.workers[w].pc == WLock && s.lock == Free && s.counter == Free
    requires !s.pool.shutdown && s.pool.ring.size != 0
    ensures Goes(c, s, WorkerStep(w), 16, Served(c, s, w))
  {
    var a := WorkerTakes(c, s, w);
    var t := WorkerRuns(c, a, w);
    GoesOn(c, s, WorkerStep(w), 9, a, 7, t);
  }

  /** Lines 180-186: with nothing queued and no shutdown a worker blocks. */
  lemma WorkerBlocks(c: Config, s: State, w: nat)
    requires w < |s.workers| && s.workers[w].pc == WLock && s.lock == Free
    requires !s.pool.shutdown && s.pool.ring.size == 0
    ensures Goes(c, s, WorkerStep(w), 2,
                 PutWorker(s, w, s.workers[w].(pc := WSleep)).(notEmpty := s.notEmpty + {w}))
  {
    var t := Goes2(c, s, WorkerStep(w));
  }

  /** Lines 180-211: once shutdown is set a worker leaves, whatever is queued, and
      changes nothing. */
  lemma WorkerLeaves(c: Config, s: State, w: nat)
    requires w < |s.workers| && s.workers[w].pc == WLock && s.lock == Free && s.pool.shutdown
    ensures Goes(c, s, WorkerStep(w), 5, PutWorker(s, w, s.workers[w].(pc := WLeft)))
  {
    var a := Goes3(c, s, WorkerStep(w));
    assert a == PutWorker(s, w, s.workers[w].(pc := WLeaveUnlock)).(lock := ByWorker(w));
    var t := Goes2(c, a, WorkerStep(w));
    GoesOn(c, s, WorkerStep(w), 3, a, 2, t);
  }

  lemma WakeUp(c: Config, s: State, w: nat) returns (t: State)
    requires w < |s.workers| && s.workers[w].pc == WSleep && w !in s.notEmpty && s.lock == Free
    requires s.pool.waitExit > 0
    ensures Goes(c, s, WorkerStep(w), 3, t)
    ensures t == PutWorker(s, w, s.workers[w].(pc := WCmpLive)).(
                   lock := ByWorker(w), pool := s.pool.(waitExit := s.pool.waitExit - 1))
  {
    t := Goes3(c, s, WorkerStep(w));
  }

  lemma StepDown(c: Config, s: State, w: nat) returns (t: State)
    requires w < |s.workers| && s.workers[w].pc == WCmpLive && s.pool.live > c.minThr
    ensures Goes(c, s, WorkerStep(w), 4, t)
    ensures t == PutWorker(s, w, s.workers[w].(pc := WRetired)).(
                   lock := Free, pool := s.pool.(live := s.pool.live - 1),
                   log := s.log.(strays := if s.pool.ring.size > 0 then s.log.strays + 1 else s.log.strays))
  {
    var a := Goes2(c, s, WorkerStep(w));
    assert a.workers[w].pc == WRetUnlock;
    t := Goes2(c, a, WorkerStep(w));
    GoesOn(c, s, WorkerStep(w), 2, a, 2, t);
  }

  /** Lines 186-200: a woken worker retires if exits are pending and more than the
      minimum are live, whatever is queued. */
  lemma WorkerRetires(c: Config, s: State, w: nat)
    requires w < |s.workers| && s.workers[w].pc == WSleep && w !in s.notEmpty && s.lock == Free
    requires s.pool.waitExit > 0 && s.pool.live > c.minThr
    ensures Goes(c, s, WorkerStep(w), 7,
                 PutWorker(s, w, s.workers[w].(pc := WRetired)).(
                   pool := s.pool.(waitExit := s.pool.waitExit - 1, live := s.pool.live - 1),
                   log := s.log.(strays := if s.pool.ring.size > 0 then s.log.strays + 1 else s.log.strays)))
  {
    var a := WakeUp(c, s, w);
    var b := StepDown(c, a, w);
    GoesOn(c, s, WorkerStep(w), 3, a, 4, b);
  }

  // ---------------------------------------------------------------------- calls

  lemma Enter(c: Config, s: State, p: nat, wake: set<nat>) returns (t: State)
    requires p < |s.producers| && s.producers[p].pc == PLock && s.lock == Free
    requires !s.pool.shutdown && s.pool.ring.size != c.cap
    ensures Goes(c, s, ProducerStep(p, wake), 3, t)
    ensures t == GoP(s, p, PClear).(lock := ByProducer(p))
  {
    t := Goes3(c, s, ProducerStep(p, wake));
  }

  lemma Store(c: Config, s: State, p: nat, wake: set<nat>) returns (t: State)
    requires p < |s.producers| && s.producers[p].pc == PClear
    ensures Goes(c, s, ProducerStep(p, wake), 3, t)
    ensures var task := s.producers[p].task;
      t == GoP(s, p, PRear).(pool := s.pool.(ring := StoreArg(StoreFunc(ClearArg(s.pool.ring), task.func), task.arg)))
  {
    t := Goes3(c, s, ProducerStep(p, wake));
  }

  lemma Commit(c: Config, s: State, p: nat, wake: set<nat>) returns (t: State)
    requires p < |s.producers| && s.producers[p].pc == PRear && GoodWake(s.notEmpty, wake)
    ensures Goes(c, s, ProducerStep(p, wake), 4, t)
    ensures t == GoP(s, p, PReturned).(
                   lock := Free, notEmpty := s.notEmpty - wake,
                   pool := s.pool.(ring := s.pool.ring.(
                     rear := Succ(s.pool.ring.rear, c.cap), size := s.pool.ring.size + 1)),
                   log := s.log.(accepted := s.log.accepted + [s.producers[p].task]))
  {
    var a := Goes2(c, s, ProducerStep(p, wake));
    t := Goes2(c, a, ProducerStep(p, wake));
    GoesOn(c, s, ProducerStep(p, wake), 2, a, 2, t);
  }

  /** The state after call `p` has added its task and woken `wake`. */
  function Accepted(c: Config, s: State, p: nat, wake: set<nat>): State
    requires p < |s.producers|
  {
    GoP(s, p, PReturned).(
      notEmpty := s.notEmpty - wake,
      pool := s.pool.(ring := Added(s.pool.ring, s.producers[p].task, c.cap)),
      log := s.log.(accepted := s.log.accepted + [s.producers[p].task]))
  }

  /** Lines 136-167: with room in the queue and no shutdown, the ten statements of a
      call add its task and wake a worker, if one is blocked. */
  lemma CallAdds(c: Config, s: State, p: nat, wake: set<nat>)
    requires p < |s.producers| && s.producers[p].pc == PLock && s.lock == Free
    requires !s.pool.shutdown && s.pool.ring.size != c.cap && GoodWake(s.notEmpty, wake)
    ensures Goes(c, s, ProducerStep(p, wake), 10, Accepted(c, s, p, wake))
  {
    var a := Enter(c, s, p, wake);
    var b := Store(c, a, p, wake);
    GoesOn(c, s, ProducerStep(p, wake), 3, a, 3, b);
    var t := Commit(c, b, p, wake);
    GoesOn(c, s, ProducerStep(p, wake), 6, b, 4, t);
    assert t == Accepted(c, s, p, wake);
  }

  /** Lines 136-141: with the queue full and no shutdown a call blocks. */
  lemma CallBlocks(c: Config, s: State, p: nat, wake: set<nat>)
    requires p < |s.producers| && s.producers[p].pc == PLock && s.lock == Free
    requires !s.pool.shutdown && s.pool.ring.size == c.cap
    ensures Goes(c, s, ProducerStep(p, wake), 2, GoP(s, p, PSleep).(notFull := s.notFull + {p}))
  {
    var t := Goes2(c, s, ProducerStep(p, wake));
  }

  /** Lines 136-148: once shutdown is set a call adds nothing, room or not, and wakes
      every blocked worker. */
  lemma CallTurnedAway(c: Config, s: State, p: nat, wake: set<nat>)
    requires p < |s.producers| && s.producers[p].pc == PLock && s.lock == Free && s.pool.shutdown
    ensures Goes(c, s, ProducerStep(p, wake), 5, GoP(s, p, PReturned).(notEmpty := {}))
  {
    var a := Goes3(c, s, ProducerStep(p, wake));
    assert a == GoP(s, p, PBroadcast).(lock := ByProducer(p));
    var t := Goes2(c, a, ProducerStep(p, wake));
    GoesOn(c, s, ProducerStep(p, wake), 3, a, 2, t);
  }
}
