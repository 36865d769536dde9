/** The dynamic thread pool (thread/threadpool.c) as a transition system.

    Any number of `threadpool_add` calls and worker threads, one manager, two
    mutexes and two condition variables. Each step is one statement of the C
    code, so every interleaving of statements is a run of this system. */
module DynamicPool {
  import opened Counting
  import opened TaskRing

  const MIN_WAIT_TASK_NUM := 10
  const DEFAULT_THREAD_VARY := 10

  datatype Config = Config(minThr: nat, maxThr: nat, cap: nat)

  predicate ValidConfig(c: Config) {
    1 <= c.minThr <= c.maxThr && 1 <= c.cap
  }

  datatype Owner = Free | ByProducer(p: nat) | ByWorker(w: nat) | ByManager

  /** Where a `threadpool_add` call stands; the comments give source lines. */
  datatype ProducerPc =
    | PLock      // 136
    | PCheck     // 139
    | PSleep     // 141
    | PShut      // 144
    | PBroadcast // 146
    | PQuit      // 147
    | PClear     // 152-154
    | PFunc      // 158
    | PArg       // 159
    | PRear      // 160
    | PSize      // 161
    | PSignal    // 164
    | PUnlock    // 165
    | PReturned

  datatype Producer = Producer(pc: ProducerPc, task: Task)

  datatype WorkerPc =
    | WLock        // 180
    | WCheck       // 183
    | WSleep       // 186
    | WWoken       // 189
    | WDecExit     // 191
    | WCmpLive     // 194
    | WDecLive     // 197
    | WRetUnlock   // 198
    | WRetExit     // 200
    | WRetired
    | WShut        // 206
    | WLeaveUnlock // 208
    | WLeaveExit   // 211
    | WLeft
    | WTake        // 215-216
    | WAdvance     // 218
    | WDecSize     // 219
    | WBroadcast   // 222
    | WUnlock      // 225
    | WCountLock   // 229
    | WInc         // 230
    | WCountUnlock // 231
    | WCall        // 233, before the callback
    | WRunning     // 233, inside the callback
    | WCountLock2  // 238
    | WDec         // 239
    | WCountUnlock2 // 240

  /** `slot` is the index in `threads[]` the worker was created in; `ticket`
      counts the dequeues before its own last one. */
  datatype Worker = Worker(pc: WorkerPc, slot: nat, task: Task, ticket: nat)

  datatype ManagerPc =
    | MTop       // 251
    | MLock1     // 256
    | MReadSize  // 257
    | MReadLive  // 258
    | MUnlock1   // 259
    | MLock2     // 261
    | MReadBusy  // 262
    | MUnlock2   // 263
    | MGrowTest  // 266
    | MLock3     // 268-269
    | MLoop      // 272
    | MSlot      // 275
    | MCreate    // 277
    | MAdd       // 278
    | MLive      // 279
    | MNext      // 273, i++
    | MUnlock3   // 283
    | MShrinkTest // 287
    | MLock4     // 290
    | MSetExit   // 291
    | MUnlock4   // 292
    | MSignal    // 294-298
    | MDone      // 302

  /** `size`, `live` and `busy` are the manager's snapshots; `base` is the number
      of threads ever created when the current grow pass began. */
  datatype Manager = Manager(pc: ManagerPc, i: int, add: int, size: int, live: int, busy: int, base: nat)

  datatype Slot = Empty | Tid(w: nat)

  /** The fields of `struct threadpool_t` that are data. */
  datatype Pool = Pool(ring: Ring, live: int, busy: int, waitExit: int, shutdown: bool, threads: seq<Slot>)

  /** History: the tasks accepted, the tasks dequeued and by whom, which dequeues
      have been run to the end, how often the shrink branch fired, and how many
      retirements left a non-empty queue. */
  datatype History = History(
    accepted: seq<Task>,
    taken: seq<Task>,
    takers: seq<nat>,
    finished: multiset<nat>,
    shrinks: nat,
    strays: nat)

  /** `notFull` and `notEmpty` hold the threads blocked on the two condition
      variables. */
  datatype State = State(
    lock: Owner,
    counter: Owner,
    notFull: set<nat>,
    notEmpty: set<nat>,
    pool: Pool,
    producers: seq<Producer>,
    workers: seq<Worker>,
    mgr: Manager,
    log: History)

  /** What `threadpool_create` leaves behind; `garbage` is the uninitialised
      memory of `task_queue`. */
  function Init(c: Config, garbage: seq<Task>): State
    requires ValidConfig(c) && |garbage| == c.cap
  {
    State(
      Free, Free, {}, {},
      Pool(Ring(0, 0, 0, garbage), c.minThr, 0, 0, false,
           seq(c.maxThr, i requires 0 <= i < c.maxThr => if i < c.minThr then Tid(i) else Empty)),
      [],
      seq(c.minThr, i requires 0 <= i < c.minThr => Worker(WLock, i, NO_TASK, 0)),
      Manager(MTop, 0, 0, 0, 0, 0, 0),
      History([], [], [], multiset{}, 0, 0))
  }

  /** One step of one thread. `wake` is the set of threads that a signal wakes:
      at least one if any is blocked. `alive` is the answer of `is_thread_alive`.
      The two stray wakeups are those that pthread_cond_wait may always have. */
  datatype Step =
    | Call(task: Task)
    | ProducerStep(p: nat, wake: set<nat>)
    | WorkerStep(w: nat)
    | ManagerStep(alive: bool, wake: set<nat>)
    | Shutdown
    | StrayProducer(p: nat)
    | StrayWorker(w: nat)

  // ---------------------------------------------------------------- producers

  predicate ProducerCan(s: State, p: nat, wake: set<nat>)
    requires p < |s.producers|
  {
    match s.producers[p].pc
    case PLock => s.lock == Free
    case PSleep => p !in s.notFull && s.lock == Free
    case PSignal => GoodWake(s.notEmpty, wake)
    case PReturned => false
    case _ => true
  }

  function GoP(s: State, p: nat, pc: ProducerPc): State
    requires p < |s.producers|
  {
    s.(producers := s.producers[p := s.producers[p].(pc := pc)])
  }

  function ProducerNext(c: Config, s: State, p: nat, wake: set<nat>): State
    requires p < |s.producers|
  {
    var task := s.producers[p].task;
    match s.producers[p].pc
    case PLock => GoP(s, p, PCheck).(lock := ByProducer(p))
    case PCheck =>
      if s.pool.ring.size == c.cap && !s.pool.shutdown
      then GoP(s, p, PSleep).(lock := Free, notFull := s.notFull + {p})
      else GoP(s, p, PShut)
    case PSleep => GoP(s, p, PCheck).(lock := ByProducer(p))
    case PShut => GoP(s, p, if s.pool.shutdown then PBroadcast else PClear)
    case PBroadcast => GoP(s, p, PQuit).(notEmpty := {})
    case PQuit => GoP(s, p, PReturned).(lock := Free)
    case PClear => GoP(s, p, PFunc).(pool := s.pool.(ring := ClearArg(s.pool.ring)))
    case PFunc => GoP(s, p, PArg).(pool := s.pool.(ring := StoreFunc(s.pool.ring, task.func)))
    case PArg => GoP(s, p, PRear).(pool := s.pool.(ring := StoreArg(s.pool.ring, task.arg)))
    case PRear =>
      GoP(s, p, PSize).(
        pool := s.pool.(ring := s.pool.ring.(rear := Succ(s.pool.ring.rear, c.cap))),
        log := s.log.(accepted := s.log.accepted + [task]))
    case PSize => GoP(s, p, PSignal).(pool := s.pool.(ring := s.pool.ring.(size := s.pool.ring.size + 1)))
    case PSignal => GoP(s, p, PUnlock).(notEmpty := s.notEmpty - wake)
    case PUnlock => GoP(s, p, PReturned).(lock := Free)
    case PReturned => s
  }

  // ------------------------------------------------------------------ workers

  predicate WorkerCan(s: State, w: nat)
    requires w < |s.workers|
  {
    match s.workers[w].pc
    case WLock => s.lock == Free
    case WSleep => w !in s.notEmpty && s.lock == Free
    case WCountLock => s.counter == Free
    case WCountLock2 => s.counter == Free
    case WRetired => false
    case WLeft => false
    case _ => true
  }

  function GoW(s: State, w: nat, pc: WorkerPc): State
    requires w < |s.workers|
  {
    s.(workers := s.workers[w := s.workers[w].(pc := pc)])
  }

  function WorkerNext(c: Config, s: State, w: nat): State
    requires w < |s.workers|
  {
    match s.workers[w].pc
    case WLock => GoW(s, w, WCheck).(lock := ByWorker(w))
    case WCheck =>
      if s.pool.ring.size == 0 && !s.pool.shutdown
      then GoW(s, w, WSleep).(lock := Free, notEmpty := s.notEmpty + {w})
      else GoW(s, w, WShut)
    case WSleep => GoW(s, w, WWoken).(lock := ByWorker(w))
    case WWoken => GoW(s, w, if s.pool.waitExit > 0 then WDecExit else WCheck)
    case WDecExit => GoW(s, w, WCmpLive).(pool := s.pool.(waitExit := s.pool.waitExit - 1))
    case WCmpLive => GoW(s, w, if s.pool.live > c.minThr then WDecLive else WCheck)
    case WDecLive =>
      GoW(s, w, WRetUnlock).(
        pool := s.pool.(live := s.pool.live - 1),
        log := s.log.(strays := if s.pool.ring.size > 0 then s.log.strays + 1 else s.log.strays))
    case WRetUnlock => GoW(s, w, WRetExit).(lock := Free)
    case WRetExit => GoW(s, w, WRetired)
    case WRetired => s
    case WShut => GoW(s, w, if s.pool.shutdown then WLeaveUnlock else WTake)
    case WLeaveUnlock => GoW(s, w, WLeaveExit).(lock := Free)
    case WLeaveExit => GoW(s, w, WLeft)
    case WLeft => s
    case WTake =>
      s.(workers := s.workers[w := s.workers[w].(pc := WAdvance, task := Head(s.pool.ring))])
    case WAdvance =>
      s.(workers := s.workers[w := s.workers[w].(pc := WDecSize, ticket := |s.log.taken|)],
         pool := s.pool.(ring := s.pool.ring.(front := Succ(s.pool.ring.front, c.cap))),
         log := s.log.(taken := s.log.taken + [s.workers[w].task], takers := s.log.takers + [w]))
    case WDecSize => GoW(s, w, WBroadcast).(pool := s.pool.(ring := s.pool.ring.(size := s.pool.ring.size - 1)))
    case WBroadcast => GoW(s, w, WUnlock).(notFull := {})
    case WUnlock => GoW(s, w, WCountLock).(lock := Free)
    case WCountLock => GoW(s, w, WInc).(counter := ByWorker(w))
    case WInc => GoW(s, w, WCountUnlock).(pool := s.pool.(busy := s.pool.busy + 1))
    case WCountUnlock => GoW(s, w, WCall).(counter := Free)
    case WCall => GoW(s, w, WRunning)
    case WRunning => GoW(s, w, WCountLock2).(log := s.log.(finished := s.log.finished + multiset{s.workers[w].ticket}))
    case WCountLock2 => GoW(s, w, WDec).(counter := ByWorker(w))
    case WDec => GoW(s, w, WCountUnlock2).(pool := s.pool.(busy := s.pool.busy - 1))
    case WCountUnlock2 => GoW(s, w, WLock).(counter := Free)
  }

  // ------------------------------------------------------------------ manager

  predicate Exited(s: State, w: nat) {
    w < |s.workers| && (s.workers[w].pc == WRetired || s.workers[w].pc == WLeft)
  }

  /** Can slot `i` take a new thread, given what `is_thread_alive` answered? */
  predicate SlotFree(s: State, i: int, alive: bool) {
    InSlots(s, i) && (s.pool.threads[i] == Empty || !alive)
  }

  predicate InSlots(s: State, i: int) {
    0 <= i < |s.pool.threads|
  }

  predicate ManagerCan(s: State, alive: bool, wake: set<nat>) {
    match s.mgr.pc
    case MLock1 => s.lock == Free
    case MLock2 => s.counter == Free
    case MLock3 => s.lock == Free
    case MLock4 => s.lock == Free
    case MSlot => !alive && InSlots(s, s.mgr.i) && s.pool.threads[s.mgr.i].Tid? ==> Exited(s, s.pool.threads[s.mgr.i].w)
    case MSignal => s.mgr.i < DEFAULT_THREAD_VARY ==> GoodWake(s.notEmpty, wake)
    case MDone => false
    case _ => true
  }

  function GoM(s: State, pc: ManagerPc): State {
    s.(mgr := s.mgr.(pc := pc))
  }

  function ManagerNext(c: Config, s: State, alive: bool, wake: set<nat>): State {
    var m := s.mgr;
    match m.pc
    case MTop => GoM(s, if s.pool.shutdown then MDone else MLock1)
    case MLock1 => GoM(s, MReadSize).(lock := ByManager)
    case MReadSize => s.(mgr := m.(pc := MReadLive, size := s.pool.ring.size))
    case MReadLive => s.(mgr := m.(pc := MUnlock1, live := s.pool.live))
    case MUnlock1 => GoM(s, MLock2).(lock := Free)
    case MLock2 => GoM(s, MReadBusy).(counter := ByManager)
    case MReadBusy => s.(mgr := m.(pc := MUnlock2, busy := s.pool.busy))
    case MUnlock2 => GoM(s, MGrowTest).(counter := Free)
    case MGrowTest => GoM(s, if m.size >= MIN_WAIT_TASK_NUM && m.live < c.maxThr then MLock3 else MShrinkTest)
    case MLock3 => s.(lock := ByManager, mgr := m.(pc := MLoop, i := 0, add := 0, base := |s.workers|))
    case MLoop =>
      GoM(s, if m.i < c.maxThr && m.add < DEFAULT_THREAD_VARY && s.pool.live < c.maxThr then MSlot else MUnlock3)
    case MSlot => GoM(s, if SlotFree(s, m.i, alive) then MCreate else MNext)
    case MCreate =>
      GoM(s, MAdd).(
        pool := if InSlots(s, m.i) then s.pool.(threads := s.pool.threads[m.i := Tid(|s.workers|)]) else s.pool,
        workers := s.workers + [Worker(WLock, if m.i >= 0 then m.i else 0, NO_TASK, 0)])
    case MAdd => s.(mgr := m.(pc := MLive, add := m.add + 1))
    case MLive => GoM(s, MNext).(pool := s.pool.(live := s.pool.live + 1))
    case MNext => s.(mgr := m.(pc := MLoop, i := m.i + 1))
    case MUnlock3 => GoM(s, MShrinkTest).(lock := Free)
    case MShrinkTest => GoM(s, if m.busy * 2 < m.live && m.live > c.minThr then MLock4 else MTop)
    case MLock4 => GoM(s, MSetExit).(lock := ByManager)
    case MSetExit => GoM(s, MUnlock4).(
        pool := s.pool.(waitExit := DEFAULT_THREAD_VARY), log := s.log.(shrinks := s.log.shrinks + 1))
    case MUnlock4 => s.(lock := Free, mgr := m.(pc := MSignal, i := 0))
    case MSignal =>
      if m.i < DEFAULT_THREAD_VARY
      then s.(mgr := m.(i := m.i + 1), notEmpty := s.notEmpty - wake)
      else GoM(s, MTop)
    case MDone => s
  }

  // --------------------------------------------------------------------- runs

  predicate Enabled(s: State, step: Step) {
    match step
    case Call(_) => true
    case ProducerStep(p, wake) => p < |s.producers| && ProducerCan(s, p, wake)
    case WorkerStep(w) => w < |s.workers| && WorkerCan(s, w)
    case ManagerStep(alive, wake) => ManagerCan(s, alive, wake)
    case Shutdown => true
    case StrayProducer(p) => p in s.notFull
    case StrayWorker(w) => w in s.notEmpty
  }

  function Next(c: Config, s: State, step: Step): State
    requires Enabled(s, step)
  {
    match step
    case Call(task) => s.(producers := s.producers + [Producer(PLock, task)])
    case ProducerStep(p, wake) => ProducerNext(c, s, p, wake)
    case WorkerStep(w) => WorkerNext(c, s, w)
    case ManagerStep(alive, wake) => ManagerNext(c, s, alive, wake)
    case Shutdown => s.(pool := s.pool.(shutdown := true))
    case StrayProducer(p) => s.(notFull := s.notFull - {p})
    case StrayWorker(w) => s.(notEmpty := s.notEmpty - {w})
  }

  /** Can the schedule `steps` be executed from `s`? */
  predicate Feasible(c: Config, s: State, steps: seq<Step>)
    decreases |steps|
  {
    steps == [] || (Enabled(s, steps[0]) && Feasible(c, Next(c, s, steps[0]), steps[1..]))
  }

  function Exec(c: Config, s: State, steps: seq<Step>): State
    requires Feasible(c, s, steps)
    decreases |steps|
  {
    if steps == [] then s else Exec(c, Next(c, s, steps[0]), steps[1..])
  }

  lemma ExecCons(c: Config, s: State, step: Step, rest: seq<Step>, t: State)
    requires Enabled(s, step) && t == Next(c, s, step) && Feasible(c, t, rest)
    ensures Feasible(c, s, [step] + rest) && Exec(c, s, [step] + rest) == Exec(c, t, rest)
  {
    assert ([step] + rest)[1..] == rest;
  }

  lemma {:induction false} ExecAppend(c: Config, s: State, xs: seq<Step>, ys: seq<Step>)
    requires Feasible(c, s, xs) && Feasible(c, Exec(c, s, xs), ys)
    ensures Feasible(c, s, xs + ys)
    ensures Exec(c, s, xs + ys) == Exec(c, Exec(c, s, xs), ys)
    decreases |xs|
  {
    if xs == [] {
      assert xs + ys == ys;
    } else {
      assert (xs + ys)[0] == xs[0] && (xs + ys)[1..] == xs[1..] + ys;
      ExecAppend(c, Next(c, s, xs[0]), xs[1..], ys);
    }
  }
}
