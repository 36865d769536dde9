/** What one thread of the simple pool does when no other interferes: whole turns of
    its loop, statement by statement. */
module SimplePoolCycles {
  import opened Counting
  import opened SimplePool

  function Repeat(step: Step, n: nat): seq<Step> {
    seq(n, i => step)
  }

  /** `n` statements of the one kind of step lead from `s` to `t`. */
  ghost predicate Goes(c: Config, s: State, step: Step, n: nat, t: State) {
    Feasible(c, s, Repeat(step, n)) && Exec(c, s, Repeat(step, n)) == t
  }

  lemma GoesOnce(c: Config, s: State, step: Step, n: nat, t: State)
    requires Enabled(s, step) && Goes(c, Next(c, s, step), step, n, t)
    ensures Goes(c, s, step, n + 1, t)
  {
    assert Repeat(step, n + 1)[1..] == Repeat(step, n);
  }

  lemma GoesOn(c: Config, s: State, step: Step, m: nat, t: State, n: nat, u: State)
    requires Goes(c, s, step, m, t) && Goes(c, t, step, n, u)
    ensures Goes(c, s, step, m + n, u)
  {
    ExecAppend(c, s, Repeat(step, m), Repeat(step, n));
    assert Repeat(step, m) + Repeat(step, n) == Repeat(step, m + n);
  }

  lemma Goes1(c: Config, s: State, step: Step) returns (t: State)
    requires Enabled(s, step)
    ensures t == Next(c, s, step) && Goes(c, s, step, 1, t)
  {
    t := Next(c, s, step);
    GoesOnce(c, s, step, 0, t);
  }

  lemma Goes2(c: Config, s: State, step: Step) returns (t: State)
    requires Enabled(s, step) && Enabled(Next(c, s, step), step)
    ensures t == Next(c, Next(c, s, step), step) && Goes(c, s, step, 2, t)
  {
    var a := Next(c, s, step);
    t := Goes1(c, a, step);
    GoesOnce(c, s, step, 1, t);
  }

  lemma Goes3(c: Config, s: State, step: Step) returns (t: State)
    requires Enabled(s, step) && Enabled(Next(c, s, step), step) && Enabled(Next(c, Next(c, s, step), step), step)
    ensures t == Next(c, Next(c, Next(c, s, step), step), step) && Goes(c, s, step, 3, t)
  {
    var a := Next(c, s, step);
    t := Goes2(c, a, step);
    GoesOnce(c, s, step, 2, t);
  }

  // -------------------------------------------------------------------- workers

  function PutWorker(s: State, w: nat, me: Worker): State
    requires w < |s.workers|
  {
    s.(workers := s.workers[w := me])
  }

  lemma Fetch(c: Config, s: State, w: nat, wake: set<nat>) returns (t: State)
    requires w < |s.workers| && s.workers[w].pc == WLock && s.lock == Free && s.pool.jobNum > 0
    ensures Goes(c, s, WorkerStep(w, wake), 3, t)
    ensures t == PutWorker(s, w, s.workers[w].(pc := WPop)).(lock := ByWorker(w))
  {
    t := Goes3(c, s, WorkerStep(w, wake));
  }

  /** The oldest task as its popper keeps it. */
  function Copied(c: Config, s: State, w: nat): PoolTask {
    At(s.pool.tasks, Mod(s.pool.jobPop, c.maxJobs)).(arg := Copy(w))
  }

  lemma Copying(c: Config, s: State, w: nat, wake: set<nat>) returns (t: State)
    requires w < |s.workers| && s.workers[w].pc == WPop
    ensures Goes(c, s, WorkerStep(w, wake), 3, t)
    ensures t == PutWorker(s, w, Worker(WDec, Mod(s.pool.jobPop, c.maxJobs), Copied(c, s, w), s.workers[w].seen,
                                        Ticket(s.pool.jobPop))).(
                   pool := s.pool.(jobPop := s.pool.jobPop + 1), poppers := s.poppers + [w])
  {
    t := Goes3(c, s, WorkerStep(w, wake));
  }

  lemma Announce(c: Config, s: State, w: nat, wake: set<nat>) returns (t: State)
    requires w < |s.workers| && s.workers[w].pc == WDec && GoodWake(s.notFull, wake)
    ensures Goes(c, s, WorkerStep(w, wake), 2, t)
    ensures t == PutWorker(s, w, s.workers[w].(pc := WShut)).(
                   notFull := s.notFull - wake, pool := s.pool.(jobNum := s.pool.jobNum - 1))
  {
    t := Goes2(c, s, WorkerStep(w, wake));
  }

  /** Lines 18-38: with a job queued, shutdown or not, a worker pops the oldest
      ticket, copies its task and wakes a call, if one is blocked. */
  lemma WorkerPops(c: Config, s: State, w: nat, wake: set<nat>) returns (t: State)
    requires w < |s.workers| && s.workers[w].pc == WLock && s.lock == Free && s.pool.jobNum > 0
    requires GoodWake(s.notFull, wake)
    ensures Goes(c, s, WorkerStep(w, wake), 8, t)
    ensures t == PutWorker(s, w, Worker(WShut, Mod(s.pool.jobPop, c.maxJobs), Copied(c, s, w), s.workers[w].seen,
                                        Ticket(s.pool.jobPop))).(
                   lock := ByWorker(w), pool := Taken(s.pool), poppers := s.poppers + [w], notFull := s.notFull - wake)
  {
    var a := Fetch(c, s, w, wake);
    var b := Copying(c, a, w, wake);
    GoesOn(c, s, WorkerStep(w, wake), 3, a, 3, b);
    t := Announce(c, b, w, wake);
    GoesOn(c, s, WorkerStep(w, wake), 6, b, 2, t);
  }

  lemma RunCopy(c: Config, s: State, w: nat, wake: set<nat>) returns (t: State)
    requires w < |s.workers| && s.workers[w].pc == WShut && s.workers[w].task.arg == Copy(w) && !s.pool.shutdown
    ensures Goes(c, s, WorkerStep(w, wake), 4, t)
    ensures var num := s.workers[w].task.tasknum;
      t == PutWorker(s, w, s.workers[w].(pc := WLock, seen := num, hand := Nothing)).(
             lock := Free, ran := s.ran + multiset{num})
  {
    var a := Goes2(c, s, WorkerStep(w, wake));
    assert a == PutWorker(s, w, s.workers[w].(pc := WCall)).(lock := Free);
    t := Goes2(c, a, WorkerStep(w, wake));
    GoesOn(c, s, WorkerStep(w, wake), 2, a, 2, t);
  }

  /** Lines 18-51 without shutdown: the popped task is run, by its own number. */
  lemma WorkerServes(c: Config, s: State, w: nat, wake: set<nat>) returns (t: State)
    requires w < |s.workers| && s.workers[w].pc == WLock && s.lock == Free && s.pool.jobNum > 0
    requires GoodWake(s.notFull, wake) && !s.pool.shutdown
    ensures Goes(c, s, WorkerStep(w, wake), 12, t)
    ensures var num := At(s.pool.tasks, Mod(s.pool.jobPop, c.maxJobs)).tasknum;
      t == PutWorker(s, w, Worker(WLock, Mod(s.pool.jobPop, c.maxJobs), Copied(c, s, w), num, Nothing)).(
             pool := Taken(s.pool), poppers := s.poppers + [w], notFull := s.notFull - wake,
             ran := s.ran + multiset{num})
  {
    var a := WorkerPops(c, s, w, wake);
    t := RunCopy(c, a, w, wake);
    GoesOn(c, s, WorkerStep(w, wake), 8, a, 4, t);
  }

  lemma Quit(c: Config, s: State, w: nat, wake: set<nat>) returns (t: State)
    requires w < |s.workers| && s.workers[w].pc == WShut && s.pool.shutdown
    ensures Goes(c, s, WorkerStep(w, wake), 3, t)
    ensures t == PutWorker(s, w, s.workers[w].(pc := WGone)).(lock := Free)
  {
    t := Goes3(c, s, WorkerStep(w, wake));
  }

  /** Lines 18-46 after shutdown, with a job queued: the worker pops a ticket all the
      same, and quits with it. */
  lemma WorkerDiscards(c: Config, s: State, w: nat, wake: set<nat>) returns (t: State)
    requires w < |s.workers| && s.workers[w].pc == WLock && s.lock == Free && s.pool.jobNum > 0
    requires GoodWake(s.notFull, wake) && s.pool.shutdown
    ensures Goes(c, s, WorkerStep(w, wake), 11, t)
    ensures t == PutWorker(s, w, Worker(WGone, Mod(s.pool.jobPop, c.maxJobs), Copied(c, s, w), s.workers[w].seen,
                                        Ticket(s.pool.jobPop))).(
                   pool := Taken(s.pool), poppers := s.poppers + [w], notFull := s.notFull - wake)
  {
    var a := WorkerPops(c, s, w, wake);
    t := Quit(c, a, w, wake);
    GoesOn(c, s, WorkerStep(w, wake), 8, a, 3, t);
  }

  /** Lines 18-24: with no job and no shutdown a worker blocks. */
  lemma WorkerBlocks(c: Config, s: State, w: nat, wake: set<nat>)
    requires w < |s.workers| && s.workers[w].pc == WLock && s.lock == Free && s.pool.jobNum == 0 && !s.pool.shutdown
    ensures Goes(c, s, WorkerStep(w, wake), 2,
                 PutWorker(s, w, s.workers[w].(pc := WSleep)).(notEmpty := s.notEmpty + {w}))
  {
    var t := Goes2(c, s, WorkerStep(w, wake));
  }

  /** Lines 18-46 after shutdown, with no job: the worker quits. */
  lemma WorkerLeaves(c: Config, s: State, w: nat, wake: set<nat>)
    requires w < |s.workers| && s.workers[w].pc == WLock && s.lock == Free && s.pool.jobNum == 0 && s.pool.shutdown
    ensures Goes(c, s, WorkerStep(w, wake), 6, PutWorker(s, w, s.workers[w].(pc := WGone)))
  {
    var a := Goes3(c, s, WorkerStep(w, wake));
    assert a == PutWorker(s, w, s.workers[w].(pc := WShut)).(lock := ByWorker(w));
    var t := Quit(c, a, w, wake);
    GoesOn(c, s, WorkerStep(w, wake), 3, a, 3, t);
  }

  // ---------------------------------------------------------------------- calls

  lemma Enter(c: Config, s: State, p: nat, wake: set<nat>) returns (t: State)
    requires p < |s.producers| && s.producers[p].pc == PLock && s.lock == Free && s.pool.jobNum < c.maxJobs
    ensures Goes(c, s, ProducerStep(p, wake), 3, t)
    ensures t == s.(lock := ByProducer(p),
                    producers := s.producers[p := Producer(PNum, Mod(s.pool.jobPush, c.maxJobs))],
                    pool := s.pool.(jobPush := s.pool.jobPush + 1))
  {
    t := Goes3(c, s, ProducerStep(p, wake));
  }

  lemma Fill(c: Config, s: State, p: nat, wake: set<nat>) returns (t: State)
    requires p < |s.producers| && s.producers[p].pc == PNum
    ensures Goes(c, s, ProducerStep(p, wake), 3, t)
    ensures var pos := s.producers[p].taskpos;
      t == GoP(s, p, PInc).(
             pool := s.pool.(tasks := Put(s.pool.tasks, pos, PoolTask(s.pool.beginnum, Cell(pos), true)),
                             beginnum := s.pool.beginnum + 1))
  {
    t := Goes3(c, s, ProducerStep(p, wake));
  }

  lemma Leave(c: Config, s: State, p: nat, wake: set<nat>) returns (t: State)
    requires p < |s.producers| && s.producers[p].pc == PInc && GoodWake(s.notEmpty, wake)
    ensures Goes(c, s, ProducerStep(p, wake), 3, t)
    ensures t == GoP(s, p, PReturned).(
                   lock := Free, notEmpty := s.notEmpty - wake, pool := s.pool.(jobNum := s.pool.jobNum + 1))
  {
    t := Goes3(c, s, ProducerStep(p, wake));
  }

  /** Lines 114-131: with room in the queue, shutdown or not, a call stores the next
      number in the next slot and wakes a worker, if one is blocked. */
  lemma CallAdds(c: Config, s: State, p: nat, wake: set<nat>) returns (t: State)
    requires p < |s.producers| && s.producers[p].pc == PLock && s.lock == Free && s.pool.jobNum < c.maxJobs
    requires GoodWake(s.notEmpty, wake)
    ensures Goes(c, s, ProducerStep(p, wake), 9, t)
    ensures t == s.(producers := s.producers[p := Producer(PReturned, Mod(s.pool.jobPush, c.maxJobs))],
                    pool := Added(s.pool, c.maxJobs), notEmpty := s.notEmpty - wake)
  {
    var a := Enter(c, s, p, wake);
    var b := Fill(c, a, p, wake);
    GoesOn(c, s, ProducerStep(p, wake), 3, a, 3, b);
    t := Leave(c, b, p, wake);
    GoesOn(c, s, ProducerStep(p, wake), 6, b, 3, t);
  }

  /** Lines 114-119: with no room a call blocks. */
  lemma CallBlocks(c: Config, s: State, p: nat, wake: set<nat>)
    requires p < |s.producers| && s.producers[p].pc == PLock && s.lock == Free && s.pool.jobNum >= c.maxJobs
    ensures Goes(c, s, ProducerStep(p, wake), 2, GoP(s, p, PSleep).(notFull := s.notFull + {p}))
  {
    var t := Goes2(c, s, ProducerStep(p, wake));
  }
}
