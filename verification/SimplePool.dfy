/** The simple thread pool (thread/threadpoolsimple.c) as a transition system:
    ticket counters taken modulo the capacity, one mutex, two condition variables,
    single signals, and a consumer signal that is sent after the unlock. */
module SimplePool {
  import opened Counting

  datatype Config = Config(thrNum: nat, maxJobs: nat)

  predicate ValidConfig(c: Config) {
    1 <= c.maxJobs
  }

  const FIRST_NUM := 1000

  /** What the `arg` field of a task points to. */
  datatype Arg = Null | Cell(pos: int) | Copy(w: nat)

  /** `runs` tells whether `task_func` is set to taskRun. */
  datatype PoolTask = PoolTask(tasknum: int, arg: Arg, runs: bool)

  const RAW := PoolTask(0, Null, false)

  datatype Owner = Free | ByProducer(p: nat) | ByWorker(w: nat)

  /** Where an `addtask` call stands. */
  datatype ProducerPc =
    | PLock   // 114
    | PCheck  // 117
    | PSleep  // 119
    | PPush   // 122
    | PNum    // 124
    | PArg    // 125
    | PFunc   // 126
    | PInc    // 127
    | PUnlock // 129
    | PSignal // 131
    | PReturned

  datatype Producer = Producer(pc: ProducerPc, taskpos: int)

  datatype WorkerPc =
    | WLock    // 18
    | WCheck   // 21
    | WSleep   // 24
    | WJob     // 27
    | WPop     // 30
    | WCopy    // 33
    | WOwn     // 34
    | WDec     // 35
    | WSignal  // 37
    | WShut    // 40
    | WQuit    // 44
    | WFree    // 45-46
    | WGone
    | WUnlock  // 50
    | WCall    // 51, and 139 inside taskRun
    | WRunning // 140-143

  /** History: the ticket a worker has popped and not yet run to the end. */
  datatype Hand = Nothing | Ticket(k: int)

  /** `task` is the worker's malloc'ed copy; `seen` is the local `num` of taskRun. */
  datatype Worker = Worker(pc: WorkerPc, taskpos: int, task: PoolTask, seen: int, hand: Hand)

  datatype Pool = Pool(jobNum: int, jobPush: int, jobPop: int, shutdown: bool, tasks: seq<PoolTask>, beginnum: int)

  /** History: who popped each ticket, and the task numbers of finished runs. */
  datatype State = State(
    lock: Owner,
    notFull: set<nat>,  // blocked on empty_task
    notEmpty: set<nat>, // blocked on not_empty_task
    pool: Pool,
    producers: seq<Producer>,
    workers: seq<Worker>,
    poppers: seq<nat>,
    ran: multiset<int>)

  function Init(c: Config, garbage: seq<PoolTask>): State {
    State(Free, {}, {}, Pool(0, 0, 0, false, garbage, FIRST_NUM), [],
          seq(c.thrNum, i => Worker(WLock, 0, RAW, 0, Nothing)), [], multiset{})
  }

  datatype Step =
    | Call
    | ProducerStep(p: nat, wake: set<nat>)
    | WorkerStep(w: nat, wake: set<nat>)
    | Shutdown
    | StrayProducer(p: nat)
    | StrayWorker(w: nat)

  function At(tasks: seq<PoolTask>, i: int): PoolTask {
    if 0 <= i < |tasks| then tasks[i] else RAW
  }

  function Put(tasks: seq<PoolTask>, i: int, t: PoolTask): seq<PoolTask> {
    if 0 <= i < |tasks| then tasks[i := t] else tasks
  }

  function Mod(k: int, n: int): int {
    if n > 0 then k % n else 0
  }

  /** The pool after the next ticket has been stored, and after the oldest has left. */
  function Added(pool: Pool, maxJobs: nat): Pool {
    var pos := Mod(pool.jobPush, maxJobs);
    Pool(pool.jobNum + 1, pool.jobPush + 1, pool.jobPop, pool.shutdown,
         Put(pool.tasks, pos, PoolTask(pool.beginnum, Cell(pos), true)), pool.beginnum + 1)
  }

  function Taken(pool: Pool): Pool {
    pool.(jobPop := pool.jobPop + 1, jobNum := pool.jobNum - 1)
  }

  // ---------------------------------------------------------------- producers

  predicate ProducerCan(s: State, p: nat, wake: set<nat>)
    requires p < |s.producers|
  {
    match s.producers[p].pc
    case PLock => s.lock == Free
    case PSleep => p !in s.notFull && s.lock == Free
    case PSignal => GoodWake(s.notEmpty, wake)
    case PReturned => false
    case _ => true
  }

  function GoP(s: State, p: nat, pc: ProducerPc): State
    requires p < |s.producers|
  {
    s.(producers := s.producers[p := s.producers[p].(pc := pc)])
  }

  function ProducerNext(c: Config, s: State, p: nat, wake: set<nat>): State
    requires p < |s.producers|
  {
    var pool := s.pool;
    var pos := s.producers[p].taskpos;
    match s.producers[p].pc
    case PLock => GoP(s, p, PCheck).(lock := ByProducer(p))
    case PCheck =>
      if c.maxJobs <= pool.jobNum
      then GoP(s, p, PSleep).(lock := Free, notFull := s.notFull + {p})
      else GoP(s, p, PPush)
    case PSleep => GoP(s, p, PCheck).(lock := ByProducer(p))
    case PPush =>
      s.(producers := s.producers[p := Producer(PNum, Mod(pool.jobPush, c.maxJobs))],
         pool := pool.(jobPush := pool.jobPush + 1))
    case PNum =>
      GoP(s, p, PArg).(pool := pool.(
        tasks := Put(pool.tasks, pos, At(pool.tasks, pos).(tasknum := pool.beginnum)),
        beginnum := pool.beginnum + 1))
    case PArg =>
      GoP(s, p, PFunc).(pool := pool.(tasks := Put(pool.tasks, pos, At(pool.tasks, pos).(arg := Cell(pos)))))
    case PFunc =>
      GoP(s, p, PInc).(pool := pool.(tasks := Put(pool.tasks, pos, At(pool.tasks, pos).(runs := true))))
    case PInc => GoP(s, p, PUnlock).(pool := pool.(jobNum := pool.jobNum + 1))
    case PUnlock => GoP(s, p, PSignal).(lock := Free)
    case PSignal => GoP(s, p, PReturned).(notEmpty := s.notEmpty - wake)
    case PReturned => s
  }

  // ------------------------------------------------------------------ workers

  predicate WorkerCan(s: State, w: nat, wake: set<nat>)
    requires w < |s.workers|
  {
    match s.workers[w].pc
    case WLock => s.lock == Free
    case WSleep => w !in s.notEmpty && s.lock == Free
    case WSignal => GoodWake(s.notFull, wake)
    case WGone => false
    case _ => true
  }

  function GoW(s: State, w: nat, pc: WorkerPc): State
    requires w < |s.workers|
  {
    s.(workers := s.workers[w := s.workers[w].(pc := pc)])
  }

  /** The number that taskRun reads through its argument. */
  function Deref(s: State, me: Worker): int {
    match me.task.arg
    case Null => 0
    case Cell(pos) => At(s.pool.tasks, pos).tasknum
    case Copy(v) => if v < |s.workers| then s.workers[v].task.tasknum else 0
  }

  function WorkerNext(c: Config, s: State, w: nat, wake: set<nat>): State
    requires w < |s.workers|
  {
    var pool := s.pool;
    var me := s.workers[w];
    match me.pc
    case WLock => GoW(s, w, WCheck).(lock := ByWorker(w))
    case WCheck =>
      if pool.jobNum <= 0 && !pool.shutdown
      then GoW(s, w, WSleep).(lock := Free, notEmpty := s.notEmpty + {w})
      else GoW(s, w, WJob)
    case WSleep => GoW(s, w, WCheck).(lock := ByWorker(w))
    case WJob => GoW(s, w, if pool.jobNum != 0 then WPop else WShut)
    case WPop =>
      s.(workers := s.workers[w :=
           me.(pc := WCopy, taskpos := Mod(pool.jobPop, c.maxJobs), hand := Ticket(pool.jobPop))],
         pool := pool.(jobPop := pool.jobPop + 1),
         poppers := s.poppers + [w])
    case WCopy => s.(workers := s.workers[w := me.(pc := WOwn, task := At(pool.tasks, me.taskpos))])
    case WOwn => s.(workers := s.workers[w := me.(pc := WDec, task := me.task.(arg := Copy(w)))])
    case WDec => GoW(s, w, WSignal).(pool := pool.(jobNum := pool.jobNum - 1))
    case WSignal => GoW(s, w, WShut).(notFull := s.notFull - wake)
    case WShut => GoW(s, w, if pool.shutdown then WQuit else WUnlock)
    case WQuit => GoW(s, w, WFree).(lock := Free)
    case WFree => GoW(s, w, WGone)
    case WGone => s
    case WUnlock => GoW(s, w, WCall).(lock := Free)
    case WCall => s.(workers := s.workers[w := me.(pc := WRunning, seen := Deref(s, me))])
    case WRunning =>
      s.(workers := s.workers[w := me.(pc := WLock, hand := Nothing)], ran := s.ran + multiset{me.seen})
  }

  // --------------------------------------------------------------------- runs

  predicate Enabled(s: State, step: Step) {
    match step
    case Call => true
    case ProducerStep(p, wake) => p < |s.producers| && ProducerCan(s, p, wake)
    case WorkerStep(w, wake) => w < |s.workers| && WorkerCan(s, w, wake)
    case Shutdown => true
    case StrayProducer(p) => p in s.notFull
    case StrayWorker(w) => w in s.notEmpty
  }

  function Next(c: Config, s: State, step: Step): State
    requires Enabled(s, step)
  {
    match step
    case Call => s.(producers := s.producers + [Producer(PLock, 0)])
    case ProducerStep(p, wake) => ProducerNext(c, s, p, wake)
    case WorkerStep(w, wake) => WorkerNext(c, s, w, wake)
    case Shutdown => s.(pool := s.pool.(shutdown := true))
    case StrayProducer(p) => s.(notFull := s.notFull - {p})
    case StrayWorker(w) => s.(notEmpty := s.notEmpty - {w})
  }

  predicate Feasible(c: Config, s: State, steps: seq<Step>)
    decreases |steps|
  {
    steps == [] || (Enabled(s, steps[0]) && Feasible(c, Next(c, s, steps[0]), steps[1..]))
  }

  function Exec(c: Config, s: State, steps: seq<Step>): State
    requires Feasible(c, s, steps)
    decreases |steps|
  {
    if steps == [] then s else Exec(c, Next(c, s, steps[0]), steps[1..])
  }

  lemma ExecCons(c: Config, s: State, step: Step, rest: seq<Step>, t: State)
    requires Enabled(s, step) && t == Next(c, s, step) && Feasible(c, t, rest)
    ensures Feasible(c, s, [step] + rest) && Exec(c, s, [step] + rest) == Exec(c, t, rest)
  {
    assert ([step] + rest)[1..] == rest;
  }

  lemma {:induction false} ExecAppend(c: Config, s: State, xs: seq<Step>, ys: seq<Step>)
    requires Feasible(c, s, xs) && Feasible(c, Exec(c, s, xs), ys)
    ensures Feasible(c, s, xs + ys) && Exec(c, s, xs + ys) == Exec(c, Exec(c, s, xs), ys)
    decreases |xs|
  {
    if xs == [] {
      assert xs + ys == ys;
    } else {
      assert (xs + ys)[0] == xs[0] && (xs + ys)[1..] == xs[1..] + ys;
      ExecAppend(c, Next(c, s, xs[0]), xs[1..], ys);
    }
  }
}
