/** What shutdown does to a run of the simple pool, and that nothing else does it. */
module SimplePoolShutdown {
  import opened Counting
  import opened SimplePool
  import opened SimplePoolCycles
  import opened SimplePoolInvariants
  import opened SimplePoolTheorems

  /** Nothing but the request itself sets the flag. */
  lemma ShutdownOnlyByRequest(c: Config, s: State, step: Step)
    requires Enabled(s, step)
    ensures Next(c, s, step).pool.shutdown == (s.pool.shutdown || step.Shutdown?)
  {
  }

  lemma {:induction false} OpenWithoutRequest(c: Config, s: State, steps: seq<Step>)
    requires Feasible(c, s, steps) && !s.pool.shutdown && forall i | 0 <= i < |steps| :: !steps[i].Shutdown?
    ensures !Exec(c, s, steps).pool.shutdown
    decreases |steps|
  {
    if steps != [] {
      ShutdownOnlyByRequest(c, s, steps[0]);
      OpenWithoutRequest(c, Next(c, s, steps[0]), steps[1..]);
    }
  }

  /** A new pool is open, and stays so until shutdown is requested. */
  lemma OpenUntilRequested(c: Config, garbage: seq<PoolTask>, steps: seq<Step>)
    requires ValidConfig(c) && |garbage| == c.maxJobs && Feasible(c, Init(c, garbage), steps)
    requires forall i | 0 <= i < |steps| :: !steps[i].Shutdown?
    ensures !Exec(c, Init(c, garbage), steps).pool.shutdown
  {
    OpenWithoutRequest(c, Init(c, garbage), steps);
  }

  lemma JoinThree(c: Config, s: State, x: Step, m: nat, a: State, y: Step, n: nat, b: State, z: Step, k: nat, t: State)
      returns (steps: seq<Step>)
    requires Goes(c, s, x, m, a) && Goes(c, a, y, n, b) && Goes(c, b, z, k, t)
    requires !x.Shutdown? && !y.Shutdown? && !z.Shutdown?
    ensures Feasible(c, s, steps) && Exec(c, s, steps) == t
    ensures forall i | 0 <= i < |steps| :: !steps[i].Shutdown?
  {
    ExecAppend(c, a, Repeat(y, n), Repeat(z, k));
    ExecAppend(c, s, Repeat(x, m), Repeat(y, n) + Repeat(z, k));
    steps := Repeat(x, m) + (Repeat(y, n) + Repeat(z, k));
  }

  lemma FirstTurns(c: Config, s: State) returns (a: State, b: State, t: State)
    requires c.maxJobs >= 1 && |s.pool.tasks| == c.maxJobs && s.lock == Free && s.notFull == s.notEmpty == {}
    requires s.producers == [] && |s.workers| >= 1 && s.workers[0].pc == WLock
    requires s.pool == Pool(0, 0, 0, false, s.pool.tasks, 1000)
    ensures Goes(c, s, Call, 1, a) && Goes(c, a, ProducerStep(0, {}), 9, b) && Goes(c, b, WorkerStep(0, {}), 12, t)
    ensures t.ran == s.ran + multiset{1000} && |t.producers| == 1 && t.producers[0].pc == PReturned
  {
    a := Goes1(c, s, Call);
    b := CallAdds(c, a, 0, {});
    FirstSlot(c, s.pool);
    t := WorkerServes(c, b, 0, {});
  }

  /** In a pool of any size with a worker the first task gets run: one call, one turn of
      a worker, and no request for shutdown. */
  lemma FirstTaskRuns(c: Config, garbage: seq<PoolTask>) returns (steps: seq<Step>)
    requires ValidConfig(c) && c.thrNum >= 1 && |garbage| == c.maxJobs
    ensures (forall i | 0 <= i < |steps| :: !steps[i].Shutdown?) && Feasible(c, Init(c, garbage), steps)
    ensures Exec(c, Init(c, garbage), steps).ran == multiset{1000}
  {
    var s := Init(c, garbage);
    var a, b, t := FirstTurns(c, s);
    steps := JoinThree(c, s, Call, 1, a, ProducerStep(0, {}), 9, b, WorkerStep(0, {}), 12, t);
  }

  lemma FirstSlot(c: Config, pool: Pool)
    requires c.maxJobs >= 1 && |pool.tasks| == c.maxJobs && pool.jobPush == 0
    ensures Mod(0, c.maxJobs) == 0 && At(Added(pool, c.maxJobs).tasks, 0).tasknum == pool.beginnum
  {
  }

  // -------------------------------------------------------------- after shutdown

  /** No worker blocks any more. */
  lemma WaitSetShrinks(c: Config, s: State, step: Step)
    requires Enabled(s, step) && s.pool.shutdown
    ensures Next(c, s, step).notEmpty <= s.notEmpty
  {
  }

  /** Statements that a worker has still to execute after shutdown, at most. */
  function WorkerLeft(pc: WorkerPc): nat {
    match pc
    case WUnlock => 14
    case WCall => 13
    case WRunning => 12
    case WLock => 11
    case WSleep => 11
    case WCheck => 10
    case WJob => 9
    case WPop => 8
    case WCopy => 7
    case WOwn => 6
    case WDec => 5
    case WSignal => 4
    case WShut => 3
    case WQuit => 2
    case WFree => 1
    case WGone => 0
  }

  function WorkerSteps(steps: seq<Step>, w: nat): nat {
    if steps == [] then 0
    else (if steps[0].WorkerStep? && steps[0].w == w then 1 else 0) + WorkerSteps(steps[1..], w)
  }

  lemma WorkerWindsDown(c: Config, s: State, w: nat, wake: set<nat>)
    requires w < |s.workers| && WorkerCan(s, w, wake) && s.pool.shutdown
    ensures var t := WorkerNext(c, s, w, wake);
      |t.workers| == |s.workers| && WorkerLeft(t.workers[w].pc) < WorkerLeft(s.workers[w].pc)
  {
  }

  lemma OtherStepKeepsWorker(c: Config, s: State, step: Step, w: nat)
    requires Enabled(s, step) && w < |s.workers| && !(step.WorkerStep? && step.w == w)
    ensures var t := Next(c, s, step);
      w < |t.workers| && t.workers[w] == s.workers[w] && (s.pool.shutdown ==> t.pool.shutdown)
  {
    match step
    case ProducerStep(p, wake) => ProducerHandover(c, s, p, wake);
    case WorkerStep(v, wake) => WorkerHandover(c, s, v, wake);
    case Call =>
    case Shutdown =>
    case StrayProducer(_) =>
    case StrayWorker(_) =>
  }

  /** After shutdown a worker executes at most fourteen more statements, in any
      schedule: it runs the task that is past line 40, if any, and quits. */
  lemma {:induction false} WorkersWindDown(c: Config, s: State, more: seq<Step>, w: nat)
    requires Feasible(c, s, more) && s.pool.shutdown && w < |s.workers|
    ensures var t := Exec(c, s, more);
      && w < |t.workers| && WorkerSteps(more, w) + WorkerLeft(t.workers[w].pc) <= WorkerLeft(s.workers[w].pc) <= 14
      && t.notEmpty <= s.notEmpty
    decreases |more|
  {
    if more != [] {
      var t := Next(c, s, more[0]);
      if more[0].WorkerStep? && more[0].w == w {
        WorkerWindsDown(c, s, w, more[0].wake);
      } else {
        OtherStepKeepsWorker(c, s, more[0], w);
      }
      WaitSetShrinks(c, s, more[0]);
      ShutdownOnlyByRequest(c, s, more[0]);
      WorkersWindDown(c, t, more[1..], w);
    }
  }
}
