/** `struct _ThreadPool` as an object: the stretches of thread/threadpoolsimple.c
    that add and take a task under `pool_lock`, statement for statement. */
module SimpleThreadPool {
  import opened Arithmetic
  import opened SimplePool

  /** The task numbers found under tickets `lo` to `hi`. */
  function Numbers(tasks: seq<PoolTask>, lo: int, hi: int): seq<int>
    decreases hi - lo
  {
    if lo >= hi then [] else [At(tasks, Mod(lo, |tasks|)).tasknum] + Numbers(tasks, lo + 1, hi)
  }

  /** Writing the slot of the next ticket appends its number and no more. */
  lemma {:induction false} NumbersAppend(tasks: seq<PoolTask>, t: PoolTask, lo: int, hi: int)
    requires |tasks| > 0 && lo <= hi < lo + |tasks|
    ensures Numbers(tasks[Mod(hi, |tasks|) := t], lo, hi + 1) == Numbers(tasks, lo, hi) + [t.tasknum]
    decreases hi - lo
  {
    if lo < hi {
      ModDistinct(lo, hi, |tasks|);
      NumbersAppend(tasks, t, lo + 1, hi);
    }
  }

  /** Lines 122-127, step by step in the transition system. */
  lemma AddSteps(c: Config, s: State, p: nat)
    requires p < |s.producers| && s.producers[p].pc == PPush
    ensures var a := ProducerNext(c, s, p, {});
      && |a.producers| == |s.producers|
      && var b := ProducerNext(c, ProducerNext(c, a, p, {}), p, {});
      && |b.producers| == |s.producers|
      && var t := ProducerNext(c, ProducerNext(c, b, p, {}), p, {});
      && |t.producers| == |s.producers| && t.producers[p].pc == PUnlock
      && t.pool == Added(s.pool, c.maxJobs)
  {
  }

  /** Lines 30-35 likewise: the worker leaves with a copy of the oldest task. */
  lemma TakeSteps(c: Config, s: State, w: nat)
    requires w < |s.workers| && s.workers[w].pc == WPop
    ensures var a := WorkerNext(c, WorkerNext(c, s, w, {}), w, {});
      && |a.workers| == |s.workers|
      && var t := WorkerNext(c, WorkerNext(c, a, w, {}), w, {});
      && |t.workers| == |s.workers| && t.workers[w].pc == WSignal
      && t.workers[w].task == At(s.pool.tasks, Mod(s.pool.jobPop, c.maxJobs)).(arg := Copy(w))
      && t.pool == Taken(s.pool)
  {
  }

  class ThreadPool {
    const maxJobNum: nat
    const tasks: array<PoolTask>
    var jobNum: int
    var jobPush: int
    var jobPop: int
    var shutdown: bool
    var beginnum: int

    ghost function View(): Pool
      reads this, tasks
    {
      Pool(jobNum, jobPush, jobPop, shutdown, tasks[..], beginnum)
    }

    ghost predicate Valid()
      reads this, tasks
    {
      && 1 <= maxJobNum == tasks.Length
      && 0 <= jobPop <= jobPush
      && 0 <= jobNum == jobPush - jobPop <= maxJobNum
    }

    /** The numbers of the queued tasks, oldest first. */
    ghost function Queued(): seq<int>
      reads this, tasks
      requires Valid()
    {
      Numbers(tasks[..], jobPop, jobPush)
    }

    constructor (maxTaskNum: nat)
      requires 1 <= maxTaskNum
      ensures Valid() && fresh(tasks) && maxJobNum == maxTaskNum
      ensures View() == Init(Config(0, maxTaskNum), tasks[..]).pool
      ensures Queued() == [] && !shutdown && beginnum == 1000
    {
      maxJobNum, shutdown := maxTaskNum, false;
      jobPush, jobPop, jobNum, beginnum := 0, 0, 0, FIRST_NUM;
      tasks := new PoolTask[maxTaskNum](_ => RAW);
    }

    /** Lines 122-127 of addtask. */
    method AddTask()
      requires Valid() && jobNum < maxJobNum
      modifies this`jobPush, this`jobNum, this`beginnum, tasks
      ensures Valid()
      ensures Queued() == old(Queued()) + [old(beginnum)]
      ensures View() == Added(old(View()), maxJobNum)
    {
      NumbersAppend(tasks[..], PoolTask(beginnum, Cell(jobPush % maxJobNum), true), jobPop, jobPush);
      var taskpos := jobPush % maxJobNum;
      jobPush := jobPush + 1;
      tasks[taskpos] := tasks[taskpos].(tasknum := beginnum);
      beginnum := beginnum + 1;
      tasks[taskpos] := tasks[taskpos].(arg := Cell(taskpos));
      tasks[taskpos] := tasks[taskpos].(runs := true);
      jobNum := jobNum + 1;
      assert tasks[..] == old(tasks[..])[taskpos := PoolTask(old(beginnum), Cell(taskpos), true)];
    }

    /** Lines 30-35 of thrRun, executed by worker `me`: a private copy of the task
        leaves, with its argument redirected to the copy. */
    method TakeTask(me: nat) returns (task: PoolTask)
      requires Valid() && jobNum > 0
      modifies this`jobPop, this`jobNum
      ensures Valid()
      ensures old(Queued()) == [task.tasknum] + Queued()
      ensures task == old(tasks[Mod(jobPop, maxJobNum)]).(arg := Copy(me))
      ensures View() == Taken(old(View()))
    {
      var taskpos := jobPop % maxJobNum;
      jobPop := jobPop + 1;
      task := tasks[taskpos];
      task := task.(arg := Copy(me));
      jobNum := jobNum - 1;
    }
  }
}
