/** The circular task buffer shared by the workers and the producers of the
    dynamic pool (thread/threadpool.c), as values: every operation is one of
    the statements that the C code executes on `task_queue`. */
module TaskRing {
  import opened Arithmetic

  /** A callback and its argument; 0 stands for a null pointer. */
  datatype Task = Task(func: int, arg: int)

  datatype Ring = Ring(front: int, rear: int, size: int, cells: seq<Task>)

  const NO_TASK := Task(0, 0)

  predicate InRange(cells: seq<Task>, i: int) {
    0 <= i < |cells|
  }

  function Head(r: Ring): Task {
    if InRange(r.cells, r.front) then r.cells[r.front] else NO_TASK
  }

  function ClearArg(r: Ring): Ring {
    if InRange(r.cells, r.rear) then r.(cells := r.cells[r.rear := r.cells[r.rear].(arg := 0)]) else r
  }

  function StoreFunc(r: Ring, f: int): Ring {
    if InRange(r.cells, r.rear) then r.(cells := r.cells[r.rear := r.cells[r.rear].(func := f)]) else r
  }

  function StoreArg(r: Ring, a: int): Ring {
    if InRange(r.cells, r.rear) then r.(cells := r.cells[r.rear := r.cells[r.rear].(arg := a)]) else r
  }

  function Succ(i: int, cap: int): int {
    if cap > 0 then (i + 1) % cap else i
  }

  /** The ring after a task has been added to it, and after one has been taken. */
  function Added(r: Ring, task: Task, cap: int): Ring {
    var stored := StoreArg(StoreFunc(ClearArg(r), task.func), task.arg);
    stored.(rear := Succ(r.rear, cap), size := r.size + 1)
  }

  function Taken(r: Ring, cap: int): Ring {
    r.(front := Succ(r.front, cap), size := r.size - 1)
  }

  /** The index `i` places after `front` in a circular buffer of `cap` cells. */
  function Pos(front: int, i: int, cap: int): (k: int)
    requires 0 <= front < cap && 0 <= i <= cap
    ensures 0 <= k < cap
  {
    if front + i < cap then front + i else front + i - cap
  }

  /** Places on the circle are the code's remainders modulo the capacity. */
  lemma PosIsMod(front: int, i: int, cap: int)
    requires 0 <= front < cap && 0 <= i <= cap
    ensures Pos(front, i, cap) == (front + i) % cap
  {
    ModWrap(front + i, cap);
  }

  /** The `n` tasks found by walking the buffer from `front`. */
  function Contents(cells: seq<Task>, front: int, n: int): (q: seq<Task>)
    requires 0 <= front < |cells| && 0 <= n <= |cells|
    ensures |q| == n
  {
    seq(n, i requires 0 <= i < n => cells[Pos(front, i, |cells|)])
  }

  predicate RingShape(r: Ring, cap: nat, n: int) {
    && |r.cells| == cap
    && 0 <= r.front < cap
    && 0 <= n <= cap
    && r.rear == Pos(r.front, n, cap)
  }

  /** The code's `(i + 1) % cap` is the next place on the circle. */
  lemma SuccIsNext(front: int, i: int, cap: int)
    requires 0 <= front < cap && 0 <= i < cap
    ensures Succ(Pos(front, i, cap), cap) == Pos(front, i + 1, cap)
  {
    ModWrap(Pos(front, i, cap) + 1, cap);
  }

  /** Storing below capacity at the rear changes no task of the queue. */
  lemma StoreKeepsContents(cells: seq<Task>, front: int, n: int, t: Task)
    requires 0 <= front < |cells| && 0 <= n < |cells|
    ensures Contents(cells[Pos(front, n, |cells|) := t], front, n) == Contents(cells, front, n)
  {
  }

  /** Advancing the rear over a stored task appends it. */
  lemma AdvanceRearAppends(cells: seq<Task>, front: int, n: int)
    requires 0 <= front < |cells| && 0 <= n < |cells|
    ensures Contents(cells, front, n + 1) == Contents(cells, front, n) + [cells[Pos(front, n, |cells|)]]
  {
  }

  /** Advancing the front removes the oldest task. */
  lemma AdvanceFrontDrops(cells: seq<Task>, front: int, n: int)
    requires 0 <= front < |cells| && 0 < n <= |cells|
    ensures 0 <= Succ(front, |cells|) < |cells|
    ensures Contents(cells, front, n) == [cells[front]] + Contents(cells, Succ(front, |cells|), n - 1)
    ensures Pos(Succ(front, |cells|), n - 1, |cells|) == Pos(front, n, |cells|)
  {
    var cap := |cells|;
    assert Pos(front, 0, cap) == front;
    SuccIsNext(front, 0, cap);
    forall i | 0 <= i < n - 1
      ensures Pos(Succ(front, cap), i, cap) == Pos(front, i + 1, cap)
    {
    }
    assert Pos(Succ(front, cap), n - 1, cap) == Pos(front, n, cap);
  }
}
