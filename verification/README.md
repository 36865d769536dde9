# Verified models of the POSIX teaching programs

A Dafny 4.11 project that models the concurrent and in-place parts of the
repository and proves what they promise. `dafny verify dfyconfig.toml` checks
all of it.

The concurrent programs are transition systems: a state holds the shared data,
the owner of each mutex, the set of threads blocked on each condition variable
and a program counter for every thread, and a step is one statement of one
thread. There may be any number of threads, and a schedule (`seq<Step>`) is any
interleaving of their statements. "Reachable" states are those at the end of
some schedule from the initial state, so each theorem about reachable states is
an invariant of all runs. Signals follow POSIX (IEEE Std 1003.1,
`pthread_cond_signal` and `pthread_cond_wait`): a signal wakes at least one
blocked thread if there is one, and a thread may also wake without a signal.
The code that works on arrays, nodes, buffers and descriptor sets is modelled
as classes and methods with loops, proved against functions on sequences and
sets.

| files | subject |
|---|---|
| `DynamicPool*.dfy`, `ThreadPool.dfy`, `TaskRing.dfy` | `thread/threadpool.c`: ring of tasks, two mutexes, two condition variables, retiring workers, a manager that grows and shrinks the pool from stale snapshots |
| `SimplePool*.dfy`, `SimpleThreadPool.dfy` | `thread/threadpoolsimple.c`: ticket counters modulo the capacity, single signals, one of them after the unlock |
| `StreamIo.dfy`, `LineIo.dfy` | `socket/wrap.c`: `Readn`, `Writen`, `my_read`, `Readline` over a kernel that transfers any amount |
| `LinkList.dfy` | `pipe/linkList.c`: the sentinel-headed list, edited, reversed and merged in place |
| `CondQueue.dfy`, `SemQueue.dfy` | `pipe/lock.c`: producers and consumers with a condition variable, and with semaphores |
| `PingPong.dfy` | `pipe/signal.c`: two processes that take turns by signals |
| `SelectLoop.dfy` | `socket/socket.c`: the readiness accounting of the `select` server |
| `Counting.dfy`, `Arithmetic.dfy` | facts about finite sets and remainders |

## Where the code does not keep what it seems to promise

* Dynamic pool, wakeups. A worker that `threadpool_add` wakes may retire with
  the queue non-empty, because `wait_exit_thr_num` can be left over from an
  earlier shrink pass; the task then waits while other workers sleep.
  `LostWakeupReachable` gives a whole run (`threadpool_create(1, 2, 10)`).
  `WakeupLostIffStranding` says exactly which statement loses a wakeup: the
  decrement of `live_thr_num` (line 197) while a worker is blocked and the queue
  needs every contending worker; `NoWakeupLostIffNeverStranding` says the same of
  whole runs. `LostWakeupsBounded` bounds the damage by ten
  tasks for each firing of the shrink branch, and
  `NoLostWakeupWithoutShrink` is the promise itself for runs without one.
* Ping-pong. The pair stops for good exactly when a signal is delivered between
  the receiver's own `kill` and the `flag = 1` after it
  (`StopsIffInterrupted`); `StallReachable` is such a run. Without such a delivery
  it never stalls, in any schedule (`NeverStallsUninterrupted`). What has been
  printed is right in every run.
* Shutdown. In both pools it gives up what is queued. In the dynamic pool at most
  one more task is accepted or taken, by a thread that had already passed its test
  (`ShutdownGivesUpQueue`); in the simple pool a worker that comes by still pops a
  ticket, and quits with it (`WorkerDiscards`), and calls go on adding tasks.
* Simple pool, tickets. On shutdown a worker may pop a ticket and quit without
  running it; `DiscardReachable` is such a run, for a pool of any size.
  `TicketRunsIff` says exactly which popped tickets can still be run: those whose
  popper is past the test of `shutdown` on line 40, and, as long as shutdown has
  not begun, those whose popper has not quit. `LostBounded` bounds the rest by
  the number of workers, and `TicketsRunAtMostOnce` says what holds of all.
* List merge. On a list that is not empty, `list_merge(H, H)` ends if and only if
  the first node has the greatest data, and then it has closed a cycle
  (`MergeWithItself`); the promises of the merge are for disjoint lists.

## Assumptions

* `1 <= min_thr_num <= max_thr_num` and `queue_max_size >= 1`; in the simple
  pool `maxtasknum >= 1`.
* The calls that create threads, mutexes and condition variables succeed, and
  all workers of the initial creation loop exist from the start.
  `is_thread_alive` answers false only for a worker that has exited.
* `shutdown` is a flag that may be set at any moment, never reset.
* Variables are read and written as the C text says, one statement at a time.
  A statement that tests two fields under the lock is one step.
* `select` reports only descriptors it was asked about, and `accept` returns a
  descriptor above the listening one that is not being watched.
* `malloc` may fail wherever the list code checks it: the answer is a parameter.
* The signal model starts when both handlers are installed; a second pending
  signal of one kind is merged into the first, and a handler's own signal is
  blocked while it runs.

Integers are unbounded. In the simple pool, whose counters only grow,
`CountersFitInt` shows that fewer than 2^31 - 1000 calls keep them all in the
range of `int`; the dynamic pool's indices and counters stay within the capacity
and the thread limits.

## Model

| member | source | states |
|---|---|---|
| DynamicPoolTheorems.RingIsQueueWhenFree | thread/threadpool.c:134-225 | in every run, whenever `lock` is free: 0 <= size <= capacity, rear == (front + size) % capacity, and all accepted tasks are the dequeued ones, in order, followed by the ring contents from `queue_front` |
| DynamicPoolTheorems.StepRefinesFifo | thread/threadpool.c:134-300 | each statement of each thread is one enqueue or one dequeue of an abstract bounded FIFO queue, or changes nothing of it; only a call enqueues, and what it adds is its own task; only a worker dequeues, and what it takes is the oldest task |
| DynamicPoolTheorems.PopulationSafe | thread/threadpool.c:189-299 | despite stale snapshots min <= live <= max always; live is the number of workers not retired, but for one the manager is about to count, and exactly so when `lock` is free; no two running workers share a `threads[]` slot, so at most max exist |
| DynamicPoolTheorems.GrowPassAddsAtMostTen | thread/threadpool.c:268-283 | one grow pass creates at most ten threads, whatever others do meanwhile |
| DynamicPoolTheorems.BusyWithinLive | thread/threadpool.c:229-240 | across the two mutexes: `busy_thr_num` is the number of workers between increment and decrement, and 0 <= busy <= live <= max in every state |
| DynamicPoolTheorems.TakenRunExactlyOnce | thread/threadpool.c:206-240 | dequeue k is either still in the hands of its one taker, which holds that very task, or has been run exactly once; a worker that has exited left nothing unrun |
| DynamicPoolTheorems.TasksConserved | thread/threadpool.c:144-225 | accepted tasks, as a multiset, are the queued and the dequeued ones; nothing not dequeued has been run |
| DynamicPoolTheorems.ProducersBlockOnlyWhenFull | thread/threadpool.c:139-222 | with `lock` free a blocked producer means a full queue; 0 <= `wait_exit_thr_num` <= 10; only calls inside their wait are blocked |
| DynamicPoolTheorems.LostWakeupsBounded | thread/threadpool.c:164-297 | before shutdown, if a worker is blocked then the queue is no longer than contending workers plus signals still to be sent plus retirements with tasks queued, and these are at most ten for each firing of the shrink branch |
| DynamicPoolTheorems.NoLostWakeupWithoutShrink | thread/threadpool.c:164-203 | in runs in which the shrink branch never fires no wakeup is lost before shutdown |
| DynamicPoolTheorems.WakeupLostIffStranding | thread/threadpool.c:183-202 | in any run a statement ends the coverage of the queued tasks if and only if it is a retirement with a worker blocked and every contending worker needed |
| DynamicPoolTheorems.NoWakeupLostIffNeverStranding | thread/threadpool.c:134-300 | over a whole run without shutdown: every state of it covers the queued tasks if and only if none of its steps is a stranding retirement |
| DynamicPoolTheorems.MutexOwnersCanMove | thread/threadpool.c:136-292 | whoever owns `lock` or `thread_counter` can execute its next statement, so the two mutexes never deadlock |
| DynamicPoolTheorems.TakerCanMove | thread/threadpool.c:219-240 | a worker with a task in hand waits for nothing but another thread's short hold of `thread_counter`, shutdown or not; each statement of its own brings the end of the task strictly closer, and a schedule of these two threads reaches it |
| DynamicPoolTheorems.TakerFinishes | thread/threadpool.c:219-240 | that schedule: at most eight statements of the worker and two of the thread that owns `thread_counter` at the start, after which the task has been run |
| DynamicPoolShutdown.ShutdownGivesUpQueue | thread/threadpool.c:139-219 | from any reachable state with shutdown set, along every continuation: accepted plus taken tasks grow by one at most, and neither wait set grows |
| DynamicPoolShutdown.CallsAnswered | thread/threadpool.c:134-168 | before shutdown every call past its store, or returned, has had its task accepted and none is turned away; once one has been turned away, no worker is blocked any more |
| DynamicPoolShutdown.WorkersWindDown | thread/threadpool.c:180-241 | after shutdown a worker executes at most eighteen more statements in any schedule: it finishes the task in hand and leaves |
| DynamicPoolShutdown.CallsWindDown | thread/threadpool.c:136-168 | after shutdown a call executes at most seven more |
| DynamicPoolShutdown.ManagerEnds | thread/threadpool.c:251-302 | after shutdown the manager executes at most 27 + 6 * max more statements: it finishes its pass and ends |
| DynamicPoolShutdown.OpenUntilRequested | thread/threadpool.c:79-79 | a new pool is open, and stays so in every schedule without a request for shutdown |
| DynamicPoolSizing.PassesJustified | thread/threadpool.c:266-287 | in every reachable state a grow pass has seen ten tasks or more queued and fewer than max live; a shrink pass has seen busy * 2 < live and live > min |
| DynamicPoolSizing.FewTasksNoChange | thread/threadpool.c:256-291 | a run in which fewer than ten tasks are queued in every state keeps exactly the workers it began with: no thread is created and no shrink pass happens |
| DynamicPoolManager.UndisturbedPass | thread/threadpool.c:251-300 | a whole pass of the manager alone: it grows the pool if and only if ten tasks are queued and fewer than max live, and claims ten exits if and only if busy * 2 < live and live > min; nothing else of the pool changes |
| DynamicPoolManager.GrowPart | thread/threadpool.c:266-284 | the grow part of it |
| DynamicPoolManager.ShrinkPart | thread/threadpool.c:287-299 | the shrink part |
| DynamicPoolManager.SignalsWake | thread/threadpool.c:294-298 | its ten signals wake ten blocked workers at least, or all of them |
| DynamicPoolCycles.WorkerServes | thread/threadpool.c:180-240 | with a task queued, no shutdown and no other thread interfering, the sixteen statements of a worker's turn take the oldest task, wake every blocked call and run the task, and leave both mutexes free |
| DynamicPoolCycles.WorkerBlocks | thread/threadpool.c:180-186 | with nothing queued and no shutdown it blocks |
| DynamicPoolCycles.WorkerLeaves | thread/threadpool.c:180-211 | with shutdown set it leaves and takes nothing, whatever is queued |
| DynamicPoolCycles.WorkerRetires | thread/threadpool.c:186-200 | woken with exits pending and more than min live, it retires, whatever is queued |
| DynamicPoolCycles.CallAdds | thread/threadpool.c:136-167 | with room and no shutdown, the ten statements of a call add its own task and wake a blocked worker |
| DynamicPoolCycles.CallBlocks | thread/threadpool.c:136-141 | with the queue full and no shutdown it blocks |
| DynamicPoolCycles.CallTurnedAway | thread/threadpool.c:136-148 | with shutdown set it adds nothing, room or not, and wakes every blocked worker |
| DynamicPoolTheorems.InvInit | thread/threadpool.c:58-121 | what `threadpool_create` leaves behind satisfies the whole invariant, for any garbage in the task array |
| DynamicPoolTheorems.InvKept | thread/threadpool.c:134-300 | every enabled statement of every thread keeps the whole invariant |
| DynamicPoolTheorems.InvAlong | thread/threadpool.c:134-300 | every schedule keeps it |
| DynamicPoolTheorems.InvAlways | thread/threadpool.c:58-300 | it holds in every reachable state |
| DynamicPoolLostWakeup.LostWakeupReachable | thread/threadpool.c:183-202 | a reachable state with a task queued, `lock` free, the manager at rest, the one live worker blocked, and nobody contending or about to signal: the unconditional no-lost-wakeup claim is false |
| DynamicPoolLostWakeup.IdleThenOneMore | thread/threadpool.c:164-202 | with `wait_exit_thr_num` left over, an idle two-worker pool and one more task lead there |
| DynamicPoolLostWakeup.Busiest | thread/threadpool.c:247-299 | a run from creation, with one grow pass and one shrink pass that nobody notices, that leaves ten exits to be claimed and ten tasks queued |
| DynamicPoolQueue.ProducerRefines | thread/threadpool.c:139-165 | each statement of `threadpool_add` stutters or enqueues, including those between the two index updates |
| DynamicPoolQueue.WorkerRefines | thread/threadpool.c:180-225 | each statement of a worker stutters or dequeues the oldest task, the one it copied |
| DynamicPoolQueue.ManagerRefines | thread/threadpool.c:251-299 | the manager never touches the queue |
| DynamicPoolQueue.FifoKept | thread/threadpool.c:157-219 | a step of the abstract queue keeps accepted == taken + queued |
| DynamicPoolInvariants.LocksKeptByProducer | thread/threadpool.c:136-165 | `threadpool_add` keeps mutual exclusion: the owner of a mutex is the one thread between its lock and its unlock |
| DynamicPoolInvariants.LocksKeptByWorker | thread/threadpool.c:180-240 | so does a worker, for both mutexes |
| DynamicPoolInvariants.LocksKeptByManager | thread/threadpool.c:256-292 | and the manager |
| DynamicPoolInvariants.SleepKeptByProducer | thread/threadpool.c:139-164 | only threads inside `pthread_cond_wait` are in a wait set |
| DynamicPoolInvariants.SleepKeptByWorker | thread/threadpool.c:183-222 | the same for the statements of workers |
| DynamicPoolInvariants.FactsKeptByProducer | thread/threadpool.c:139-161 | what the owner of `lock` has tested stays true until it acts on it: not full until stored, and the slot it has written so far |
| DynamicPoolInvariants.FactsKeptByWorker | thread/threadpool.c:183-219 | the same for a worker: not empty, the copied head, `live > min` before the decrement; size, live and wait_exit stay in their bounds |
| DynamicPoolInvariants.FactsKeptByManager | thread/threadpool.c:268-291 | the same for a grow pass: `live < max`, the slot it fills holds no running worker, at most ten added |
| DynamicPoolWorkers.CountsKeptByWorker | thread/threadpool.c:194-240 | live and busy counters go on counting workers |
| DynamicPoolWorkers.CountsKeptByManager | thread/threadpool.c:275-280 | creating a worker and counting it later keeps both |
| DynamicPoolWorkers.SlotsKeptByManager | thread/threadpool.c:272-281 | a new worker never overwrites the slot of a running one |
| DynamicPoolWorkers.SlotsKeptByWorker | thread/threadpool.c:180-241 | a running worker stays recorded in its own slot |
| DynamicPoolWorkers.TicketsKeptByWorker | thread/threadpool.c:215-240 | each dequeue has one taker, which runs it once |
| DynamicPoolWorkers.FullWaitKeptByProducer | thread/threadpool.c:139-165 | a producer blocks only on a full queue |
| DynamicPoolWorkers.FullWaitKeptByWorker | thread/threadpool.c:215-225 | a dequeue wakes every blocked producer before the lock is released |
| DynamicPoolWorkers.ShrinkKeptByWorker | thread/threadpool.c:189-201 | each retirement with tasks queued is paid for by a shrink pass |
| DynamicPoolWorkers.ShrinkKeptByManager | thread/threadpool.c:287-299 | each shrink pass pays for at most ten |
| DynamicPoolWorkers.CoverAfterProducer | thread/threadpool.c:157-165 | a stored task is matched by its signal, and the signal by the worker it wakes |
| DynamicPoolWorkers.CoverAfterWorker | thread/threadpool.c:180-225 | a worker gives up at most the task it takes, unless it retires |
| DynamicPoolWorkers.CoverAfterRetirement | thread/threadpool.c:194-200 | a retirement keeps the coverage if and only if it is not the stranding one |
| DynamicPoolWorkers.CoverKeptByManager | thread/threadpool.c:272-298 | the manager keeps it |
| DynamicPoolWorkers.BusyAreLive | thread/threadpool.c:229-240 | busy workers are live ones, so busy <= live even while a created worker is uncounted |
| DynamicPoolTheorems.SlotsDistinct | thread/threadpool.c:272-281 | workers in pairwise different slots of `threads[]` number at most its length |
| TaskRing.PosIsMod | thread/threadpool.c:160-160 | places on the circle are remainders modulo the capacity |
| TaskRing.SuccIsNext | thread/threadpool.c:160-160 | `(i + 1) % capacity` is the next place |
| TaskRing.StoreKeepsContents | thread/threadpool.c:152-159 | storing at the rear of a queue that is not full changes no queued task |
| TaskRing.AdvanceRearAppends | thread/threadpool.c:160-161 | moving the rear appends the stored task |
| TaskRing.AdvanceFrontDrops | thread/threadpool.c:215-219 | moving the front removes exactly the oldest task |
| ThreadPool.ThreadPool.constructor | thread/threadpool.c:58-116 | the struct starts as the transition system does, with an empty queue and the first min slots taken |
| ThreadPool.ThreadPool.PutTask | thread/threadpool.c:152-161 | appends the task to the queue, through the same array contents and indices as the transition system |
| ThreadPool.AddSteps | thread/threadpool.c:152-161 | the five statements of the transition system change the ring exactly as `PutTask` does |
| ThreadPool.TakeSteps | thread/threadpool.c:215-219 | the three statements of the transition system change the ring as `TakeTask` does, and hand the worker the head |
| ThreadPool.ThreadPool.TakeTask | thread/threadpool.c:215-219 | removes and returns the oldest task, and changes nothing else |
| ThreadPool.RetireSteps | thread/threadpool.c:189-197 | the one, three or four statements of the transition system change the pool as `RetireIfSurplus` does, and lead to the retirement or back to the test of the queue |
| DynamicPoolManager.GrowSteps | thread/threadpool.c:272-281 | the manager's own statements, a turn of the loop for each slot, change the pool as `GrowPass` does |
| ThreadPool.ThreadPool.RetireIfSurplus | thread/threadpool.c:189-202 | retires if and only if exits are pending and live > min, claims one exit whenever there is one, and never goes below min |
| ThreadPool.ThreadPool.TrySlot | thread/threadpool.c:275-280 | one turn fills the slot if and only if it is vacant |
| ThreadPool.ThreadPool.GrowPass | thread/threadpool.c:268-283 | fills vacant slots lowest first and no others, counts each, and stops only after ten, at max, or when no vacant slot is left |
| SimplePoolTheorems.NoLostWakeup | thread/threadpoolsimple.c:17-131 | in every run: before shutdown a blocked worker means job_num <= contending workers + signals owed; a blocked producer means free places <= contending producers + a signal about to be sent |
| SimplePoolTheorems.NeverAllAsleep | thread/threadpoolsimple.c:17-131 | with one worker at least and before shutdown, all workers and all unfinished calls can never be blocked together |
| SimplePoolTheorems.AlwaysSomebodyCanMove | thread/threadpoolsimple.c:17-131 | with a worker, an unfinished call and no shutdown, some call or worker can execute its next statement, in every reachable state |
| SimplePoolTheorems.TicketsQueued | thread/threadpoolsimple.c:27-127 | with the lock free job_num == job_push - job_pop, ticket k carries number 1000 + k in slot k modulo the capacity, and queued tickets have different slots |
| SimplePoolTheorems.RunSeesItsOwnNumber | thread/threadpoolsimple.c:30-144 | the number `taskRun` reads is the one enqueued under its worker's ticket, even if the slot has been reused |
| SimplePoolTheorems.TicketsRunAtMostOnce | thread/threadpoolsimple.c:27-52 | each popped ticket is in its popper's hand or has been run exactly once, and nothing else has been run |
| SimplePoolShutdown.OpenUntilRequested | thread/threadpoolsimple.c:65-65 | a new pool is open, and stays so in every schedule without a request for shutdown |
| SimplePoolShutdown.FirstTaskRuns | thread/threadpoolsimple.c:18-143 | for every pool with a worker a run without a request for shutdown in which the first task, number 1000, is run |
| SimplePoolShutdown.WorkersWindDown | thread/threadpoolsimple.c:18-51 | after shutdown a worker executes at most fourteen more statements in any schedule, and no worker blocks |
| SimplePoolCycles.WorkerServes | thread/threadpoolsimple.c:18-51 | with a job queued, no shutdown and no other thread interfering, the twelve statements of a worker's turn pop the oldest ticket, wake a blocked call and run that ticket's number |
| SimplePoolCycles.WorkerPops | thread/threadpoolsimple.c:18-38 | the first eight of them, shutdown or not |
| SimplePoolCycles.WorkerDiscards | thread/threadpoolsimple.c:18-46 | after shutdown, with a job queued, it pops a ticket and quits with it |
| SimplePoolCycles.WorkerBlocks | thread/threadpoolsimple.c:18-24 | with no job and no shutdown it blocks |
| SimplePoolCycles.WorkerLeaves | thread/threadpoolsimple.c:18-46 | with no job and shutdown set it quits |
| SimplePoolCycles.CallAdds | thread/threadpoolsimple.c:114-131 | with room, the nine statements of a call store the next number in the next slot and wake a blocked worker |
| SimplePoolCycles.CallBlocks | thread/threadpoolsimple.c:114-119 | with no room it blocks |
| SimplePoolDiscards.TicketRunsIff | thread/threadpoolsimple.c:27-52 | a popped ticket that has not been run can be run in some continuation if and only if its popper is past the test on line 40, or shutdown has not begun and the popper is not quitting |
| SimplePoolDiscards.DiscardsExactlyAtTest | thread/threadpoolsimple.c:40-47 | a worker's own statement makes it discard a ticket if and only if it is that test, with a ticket in hand and shutdown begun |
| SimplePoolDiscards.LostBounded | thread/threadpoolsimple.c:27-52 | the popped tickets in hand for good are exactly those not run that no continuation runs; there are none before shutdown, and never more than workers |
| SimplePoolDiscards.DiscardsBounded | thread/threadpoolsimple.c:40-47 | tickets are discarded only after shutdown, no more of them than there are workers, and a discarded ticket has not been run and never will be |
| SimplePoolDiscards.DiscardReachable | thread/threadpoolsimple.c:18-46 | for every pool of at least one worker, a run that discards the first ticket |
| SimplePoolDiscards.LostForEver | thread/threadpoolsimple.c:40-47 | no continuation changes the fate of a ticket that cannot be run |
| SimplePoolDiscards.RunsToTheEnd | thread/threadpoolsimple.c:33-51 | the popper's own statements run any other |
| SimplePoolTheorems.CountersFitInt | thread/threadpoolsimple.c:122-127 | fewer than 2^31 - 1000 calls keep every counter within `int` |
| SimplePoolTheorems.InvInit | thread/threadpoolsimple.c:58-86 | `create_threadpool` establishes the whole invariant |
| SimplePoolTheorems.InvAlong | thread/threadpoolsimple.c:8-133 | every schedule keeps it |
| SimplePoolTheorems.InvAlways | thread/threadpoolsimple.c:8-133 | it holds in every reachable state |
| SimplePoolTheorems.CopyKeptByWorker | thread/threadpoolsimple.c:33-51 | a worker's private copy keeps the number, the callback and an argument that points to the copy itself |
| SimplePoolTheorems.TicketsKeptByWorker | thread/threadpoolsimple.c:30-51 | popping gives a ticket one owner; running spends it |
| SimplePoolTheorems.JobsAfterProducer | thread/threadpoolsimple.c:114-131 | an `addtask` that has unlocked still owes its signal, and the signal wakes a worker for its job |
| SimplePoolTheorems.JobsAfterWorker | thread/threadpoolsimple.c:18-50 | a worker gives up only the job it takes and blocks only when there is none |
| SimplePoolTheorems.SpaceAfterProducer | thread/threadpoolsimple.c:114-129 | a producer gives up only the place it fills and blocks only when there is none |
| SimplePoolTheorems.SpaceAfterWorker | thread/threadpoolsimple.c:35-38 | each place set free is matched by a signal, and the signal by the producer it wakes |
| SimplePoolInvariants.SyncKeptByProducer | thread/threadpoolsimple.c:114-131 | mutual exclusion and the wait sets, over the statements of `addtask` |
| SimplePoolInvariants.SyncKeptByWorker | thread/threadpoolsimple.c:18-50 | the same over the statements of `thrRun` |
| SimplePoolInvariants.CountersKeptByProducer | thread/threadpoolsimple.c:117-127 | the counters agree up to what the lock's owner is in the middle of; job_num stays within the capacity |
| SimplePoolInvariants.CountersKeptByWorker | thread/threadpoolsimple.c:21-38 | the same for a worker |
| SimplePoolInvariants.StoreKeptByProducer | thread/threadpoolsimple.c:122-127 | writing the slot of a new ticket disturbs no queued ticket |
| SimplePoolInvariants.StoreKeptByWorker | thread/threadpoolsimple.c:30-35 | the slot a worker copies holds the ticket it has just popped |
| SimpleThreadPool.NumbersAppend | thread/threadpoolsimple.c:122-127 | writing the slot of the next ticket appends its number to the queue and changes no other |
| SimpleThreadPool.ThreadPool.constructor | thread/threadpoolsimple.c:58-70 | the struct starts as the transition system does, with an empty queue |
| SimpleThreadPool.AddSteps | thread/threadpoolsimple.c:122-127 | the five statements of the transition system change the pool as `AddTask` does |
| SimpleThreadPool.TakeSteps | thread/threadpoolsimple.c:30-35 | the four statements of the transition system change the pool, and fill the worker's copy, as `TakeTask` does |
| SimpleThreadPool.ThreadPool.AddTask | thread/threadpoolsimple.c:122-127 | appends the next number to the queue and writes one complete slot |
| SimpleThreadPool.ThreadPool.TakeTask | thread/threadpoolsimple.c:30-35 | removes the oldest number and returns a copy of its slot with the argument redirected |
| StreamIo.Readn | socket/wrap.c:108-130 | under any chunking and interruption: stores exactly the bytes consumed, in order, and no others; returns the number asked for unless the stream ends first, or -1 exactly after one hard error |
| StreamIo.Writen | socket/wrap.c:132-152 | appends exactly the buffer and returns n, or appends a proper prefix and returns -1 after one refusal |
| StreamIo.SendThenReceive | socket/wrap.c:108-152 | round trip: what `Writen` reports as sent, `Readn` returns unchanged, and without refusals both succeed |
| StreamIo.Descriptor.Read | socket/wrap.c:118-124 | the kernel as `read` shows it: any positive amount up to the request, 0 only at the end of the stream, EINTR or an error with nothing consumed |
| StreamIo.Descriptor.Write | socket/wrap.c:141-146 | the kernel as `write` shows it: a prefix of the request, or nothing |
| LineIo.LineReader.Readline | socket/wrap.c:176-196 | takes from the stream exactly the next line, cut at the first newline, the end, or maxlen - 1 bytes; stores it NUL-terminated within maxlen and writes nothing beyond the NUL; the result is the line's length, but maxlen when maxlen - 1 bytes came without newline; -1 after a hard error |
| LineIo.LineReader.StoreLine | socket/wrap.c:181-192 | the loop stops at the first reason to stop |
| LineIo.LineReader.MyRead | socket/wrap.c:154-174 | hands out the stream byte by byte, whatever the chunks |
| LineIo.LineReader.HandOut | socket/wrap.c:170-171 | the next byte of the chunk leaves, and no other |
| LineIo.LineReader.Refill | socket/wrap.c:160-169 | repeats an interrupted read; loses and invents nothing |
| LineIo.CutLenIsCut | socket/wrap.c:181-195 | the length of a line ends at a newline, at the limit or at the end of the stream, with no newline before |
| LineIo.CutIsUnique | socket/wrap.c:181-195 | there is only one such length |
| LineIo.SplitJoins | socket/wrap.c:176-196 | the lines of a stream joined give back the stream; each is non-empty, within the limit and without inner newline |
| LineIo.SplitStops | socket/wrap.c:176-196 | every line but the last ends in a newline or fills the limit |
| LineIo.ReadAllLines | web/webserver.c:79-79 | successive calls of the buffered reader yield exactly the lines of the unbuffered splitting, independent of the kernel's chunks and interruptions; after a hard error a prefix of them |
| LinkList.ListReverse | pipe/linkList.c:209-233 | in place, the list becomes its own nodes in reverse order, for any length, every `data` field untouched |
| LinkList.ReversedTwice | pipe/linkList.c:209-233 | reversing twice is the identity on sequences |
| LinkList.ReverseTwice | pipe/linkList.c:209-233 | two calls restore the heap shape, node for node |
| LinkList.ReversedAt | pipe/linkList.c:224-231 | which node ends up where |
| LinkList.MoveToFront | pipe/linkList.c:226-230 | one turn of the loop moves the first remaining node to the front |
| LinkList.ListMerge | pipe/linkList.c:265-310 | in place, H1 becomes the merge of both node sequences and H2 empty; both lists are kept when a sentinel is NULL |
| LinkList.MergeLists | pipe/linkList.c:277-307 | the same with both sentinels present |
| LinkList.MergeLoop | pipe/linkList.c:280-307 | from two detached chains, the loop and the final link produce an acyclic list of exactly the merge |
| LinkList.MoveFirst | pipe/linkList.c:287-290 | one turn moves the first node of a chain behind the result |
| LinkList.MergeOfLists | pipe/linkList.c:265-310 | a call on two disjoint lists leaves behind H1 an acyclic list of exactly the nodes of both, each list in its own order, sorted by `data` if both were, ties from H1 first, and H2 empty |
| LinkList.MergedNodes | pipe/linkList.c:283-307 | the same of the merged node sequence, in terms of the `data` fields |
| LinkList.MergeWithItself | pipe/linkList.c:277-307 | a list that is not empty, merged with itself: the loop ends if and only if the first node has the greatest data, and then no list is left |
| LinkList.TakeNext | pipe/linkList.c:287-290 | in that loop, the next node goes behind the last one |
| LinkList.TurnRound | pipe/linkList.c:294-297 | and the other branch only turns the nodes already taken in a circle |
| LinkList.MergeKeepsAll | pipe/linkList.c:283-307 | the merge consists of exactly the nodes of both lists |
| LinkList.MergeKeepsOrder | pipe/linkList.c:283-307 | each of the two lists keeps its own order in it: the nodes of H1 alone are H1, and the nodes of H2 alone are H2 |
| LinkList.MergeSorted | pipe/linkList.c:283-307 | it is sorted if both lists are |
| LinkList.MergeStable | pipe/linkList.c:285-292 | ties go to H1: a node of H2 precedes one of H1 only if its data is strictly less |
| LinkList.ListGetBefore | pipe/linkList.c:48-75 | the sentinel for pos <= -1, node number pos for 0 <= pos < length, NULL beyond |
| LinkList.ListEmpty | pipe/linkList.c:76-86 | 0 exactly for NULL and for the empty list |
| LinkList.ListInsert | pipe/linkList.c:109-136 | for 0 <= pos <= length the list becomes ns[..pos] + [q] + ns[pos..] with one new node q, for pos < 0 it becomes [q] + ns; beyond, -1 and the list unchanged |
| LinkList.ListTailInsert | pipe/linkList.c:22-47 | appends one new node |
| LinkList.ListDelete | pipe/linkList.c:157-182 | for 0 <= pos < length node number pos leaves the list and is the one freed, for pos < 0 on a list that is not empty the first; otherwise -1 and the list unchanged |
| LinkList.ListPoo | pipe/linkList.c:88-107 | unlinks and returns the last node; NULL on an empty list |
| LinkList.InsertThenDelete | pipe/linkList.c:109-182 | deleting at the position of an insertion restores the list, and what it frees is the node inserted |
| LinkList.TailInsertThenPoo | pipe/linkList.c:22-107 | popping after a tail insertion returns the value inserted and restores the list |
| CondQueue.ItemsConserved | pipe/lock.c:85-124 | in every run the insertions are the list length plus the pops, each node in one place only |
| CondQueue.PopsNewest | pipe/lock.c:113-113 | in every reachable state a pop takes the last node of the list, the newest there, and leaves the others as they are |
| CondQueue.ProducerTurn | pipe/lock.c:88-93 | a producer's turn, undisturbed: the new node goes to the end, the lock is free again, and a blocked consumer is woken |
| CondQueue.ConsumerTurn | pipe/lock.c:105-119 | a consumer that finds a node: the last one is popped, read and freed, and the lock is free again |
| CondQueue.ConsumerBlocks | pipe/lock.c:105-111 | a consumer that finds none blocks |
| CondQueue.WokenConsumerMayPopNull | pipe/lock.c:111-121 | a woken consumer does not test again: on an empty list it pops NULL, skips it and starts over |
| CondQueue.ValueSafe | pipe/lock.c:113-119 | although emptiness is tested with `if`, a NULL pop is never dereferenced, and a popped node is read and freed by its one owner, once |
| CondQueue.NoLostWakeup | pipe/lock.c:85-115 | if a consumer is blocked, the list is no longer than contending consumers plus signals still to come |
| CondQueue.InvAlong | pipe/lock.c:85-124 | every schedule keeps the whole invariant |
| CondQueue.CoverKeptByProducer | pipe/lock.c:88-93 | a producer that has unlocked still owes the signal for its node |
| CondQueue.CoverKeptByConsumer | pipe/lock.c:105-115 | a consumer gives up only the node it pops and blocks only on an empty list |
| CondQueue.NodesKept | pipe/lock.c:89-113 | no step loses or duplicates a node |
| CondQueue.PopKept | pipe/lock.c:113-119 | each pop has one owner until it is freed once |
| SemQueue.ListBounded | pipe/lock.c:164-202 | in every run the ten permits are conserved, and the list is bounded by the consumer semaphore plus consumers before their pop plus producers before their post, so never exceeds ten nodes, NULL pops notwithstanding |
| SemQueue.NodesAndPosts | pipe/lock.c:164-202 | in every run the nodes inserted are those in the list and those popped, and each semaphore is worth five and the posts to it less the waits for it |
| SemQueue.ProducerTurn | pipe/lock.c:167-170 | a producer's turn inserts one node and moves one permit to the consumers' side |
| SemQueue.ConsumerTurn | pipe/lock.c:182-190 | a consumer's turn pops a node if there is one and moves a permit back |
| SemQueue.AlwaysSomebodyCanMove | pipe/lock.c:164-193 | with a producer and a consumer some thread can always execute its next statement: the permits never vanish |
| SemQueue.InvKeptByProducer | pipe/lock.c:164-175 | each step of a producer keeps that |
| SemQueue.InvKeptByConsumer | pipe/lock.c:178-193 | each step of a consumer keeps that |
| PingPong.PrintsCountUp | pipe/signal.c:181-225 | in every interleaving the processes alternate and print 0, 1, 2, ... with no skip or repeat |
| PingPong.OneTurn | pipe/signal.c:181-225 | at most one process has the turn, and exactly one as long as no signal was delivered between a `kill` and its `flag = 1` |
| PingPong.StopsIffInterrupted | pipe/signal.c:208-225 | if such a delivery happened, at most one more line appears in any continuation; if not, for every n some continuation prints n more |
| PingPong.NeverStallsUninterrupted | pipe/signal.c:208-225 | in every schedule without such a delivery, at most nine advancing steps of the process with the turn go by for each line, and that process always has one to execute |
| PingPong.StepComesCloser | pipe/signal.c:181-225 | no step without such a delivery takes the turn further from the next line, and each advancing one brings it closer or prints |
| PingPong.StallReachable | pipe/signal.c:208-225 | a run of two printed lines after which nobody has the turn |
| PingPong.InvKept | pipe/signal.c:181-225 | every statement of main loops and handlers keeps the place of the turn and the two counts in step |
| PingPong.DoomedIffInterrupted | pipe/signal.c:208-225 | along any schedule the turn is lost, or about to be, if and only if such a delivery happened |
| PingPong.DoomedPrintsLittle | pipe/signal.c:181-225 | from there only the line of a handler already running can follow |
| PingPong.PrintsOn | pipe/signal.c:181-225 | otherwise any number of lines can |
| SelectLoop.SelectServer.Round | socket/socket.c:300-356 | one turn goes on after an interruption, ends at an error of select or accept, and otherwise reads each ready client exactly once, in increasing order, watches the new connection and drops the ended ones; the countdown reaches zero exactly then, so the early `continue` and `break` skip nobody; every watched descriptor stays in [lfd, maxfd] |
| SelectLoop.SelectServer.Scan | socket/socket.c:328-356 | the scan with its early break, entered with `nready` equal to the number of ready clients: it reads each of them once, in increasing order, drops the ended ones, and ends with `nready` at zero |
| SelectLoop.SelectServer.ReadClient | socket/socket.c:336-354 | a client whose read ends it leaves the watched set, another stays, and the countdown takes one off |
| SelectLoop.AfterInSets | socket/socket.c:315-341 | the watched set after a turn, in plain sets: the new connection joins, the ready clients that ended leave |
| SelectLoop.SelectServer.Watch | socket/socket.c:318-321 | a new connection is watched and within reach of the scan, which is widened no more than needed |
| SelectLoop.SelectServer.Serve | socket/socket.c:300-358 | over all rounds: stops only at a hard error, and each round reads exactly its ready clients |
| SelectLoop.WatchedIffOpen | socket/socket.c:300-358 | after any run a descriptor is watched if and only if it was watched from the start or accepted, and has not ended since |
| SelectLoop.SelectServer.constructor | socket/socket.c:290-298 | at first only the listening descriptor is watched |

## Left out

- DynamicPoolTheorems.NoLostWakeupWithoutShrink: holds for runs without a shrink pass only, because the unconditional claim is false; `WakeupLostIffStranding` gives the exact statement that breaks it.
- DynamicPoolTheorems.LostWakeupsBounded: nothing is claimed after `shutdown` is set, when workers leave without emptying the queue.
- SimplePoolTheorems.NoLostWakeup: the half about workers is claimed before `shutdown` only, for the same reason.
- LineIo.LineReader.Readline: requires maxlen >= 1, because for 0 the C code writes its NUL outside the buffer; a hard error in the middle of a line loses the bytes stored so far, as the contract says.
- LineIo.LineReader.MyRead: one reader per descriptor; the C buffer is static and shared by all descriptors, so the claims hold for a program that reads lines from one descriptor.
- LinkList.ListMerge: requires lists without a common node; `MergeWithItself` says what becomes of one list given twice, and two lists that share only a tail are not covered.
- ThreadPool.ThreadPool.constructor: the success path only; on a failed allocation the C code frees members of the struct that it has not initialised yet (lines 126 and 340-347).
- SelectLoop.SelectServer.Round: the echo (lines 343-349) is left out; it upcases one byte and answers to the wrong descriptor.
- SelectLoop.SelectServer.Scan: the same.
- SelectLoop.SelectServer.ReadClient: the same.
- SemQueue.ListBounded: each list call is one step; the two semaphores do not exclude the calls from one another, and the data race inside them is not modelled.
- The transition systems are values, not objects: the update in place of the pool fields is captured by the two `ThreadPool` classes for the stretches under the lock, and interleaving by the transition systems.
- Lines 215 and 216 of thread/threadpool.c, which copy a task under the lock, are one step.
- Destruction of both pools (thread/threadpool.c:305-360, thread/threadpoolsimple.c:90-108): frees memory under running workers; no claim that all workers end.
- `list_free` and `list_show` of pipe/linkList.c: read freed memory or NULL; `list_add_max` would add an easy member.
- `pipe/thread.c`, the read-write lock test of pipe/lock.c, the pipes, FIFOs, mmap and daemon programs: easy or pure plumbing.
- The start-up of pipe/signal.c before the handlers are installed, and compiler optimisation of the plain `flag`.
- Sockets, UDP, libevent, the web server and SQL: system-call plumbing.
