/** The task queue of the dynamic pool refines a bounded FIFO queue, step by step. */
module DynamicPoolQueue {
  import opened TaskRing
  import opened DynamicPool
  import opened DynamicPoolInvariants

  /** The abstract queue: what came in, what went out, what is inside. */
  datatype Fifo = Fifo(accepted: seq<Task>, taken: seq<Task>, items: seq<Task>)

  predicate Enqueues(cap: nat, f: Fifo, f': Fifo) {
    && |f.items| < cap
    && |f'.accepted| > 0
    && var x := f'.accepted[|f'.accepted| - 1];
    f' == Fifo(f.accepted + [x], f.taken, f.items + [x])
  }

  predicate Dequeues(f: Fifo, f': Fifo) {
    && |f.items| > 0
    && f' == Fifo(f.accepted, f.taken + [f.items[0]], f.items[1..])
  }

  predicate FifoStep(cap: nat, f: Fifo, f': Fifo) {
    f' == f || Enqueues(cap, f, f') || Dequeues(f, f')
  }

  /** Between moving an index and adjusting `queue_size` the owner of the lock has
      a queue whose length differs from `queue_size` by one. */
  function Extra(s: State): int {
    match s.lock
    case ByProducer(p) => if p < |s.producers| && s.producers[p].pc == PSize then 1 else 0
    case ByWorker(w) => if w < |s.workers| && s.workers[w].pc == WDecSize then -1 else 0
    case _ => 0
  }

  ghost predicate ShapeInv(c: Config, s: State) {
    RingShape(s.pool.ring, c.cap, s.pool.ring.size + Extra(s))
  }

  /** The abstraction: walk the circle from `queue_front`. */
  function Abs(c: Config, s: State): (f: Fifo)
    requires ShapeInv(c, s)
  {
    Fifo(s.log.accepted, s.log.taken, Contents(s.pool.ring.cells, s.pool.ring.front, s.pool.ring.size + Extra(s)))
  }

  ghost predicate FifoInv(f: Fifo) {
    f.accepted == f.taken + f.items
  }

  lemma FifoKept(cap: nat, f: Fifo, f': Fifo)
    requires FifoInv(f) && FifoStep(cap, f, f')
    ensures FifoInv(f')
  {
    if Dequeues(f, f') {
      assert f.items == [f.items[0]] + f.items[1..];
    }
  }

  predicate Stores(pc: ProducerPc) {
    pc == PClear || pc == PFunc || pc == PArg
  }

  /** What the statement `pc` of a call that adds `task` does to the ring and the log. */
  predicate ProducerRing(c: Config, s: State, t: State, pc: ProducerPc, task: Task) {
    var r, r' := s.pool.ring, t.pool.ring;
    && Extra(s) == (if pc == PSize then 1 else 0)
    && Extra(t) == (if pc == PRear then 1 else 0)
    && t.log.taken == s.log.taken
    && t.log.accepted == (if pc == PRear then s.log.accepted + [task] else s.log.accepted)
    && r'.front == r.front
    && r'.rear == (if pc == PRear then Succ(r.rear, c.cap) else r.rear)
    && r'.size == r.size + (if pc == PSize then 1 else 0)
    && |r'.cells| == |r.cells|
    && (if Stores(pc) && InRange(r.cells, r.rear)
        then r'.cells == r.cells[r.rear := r'.cells[r.rear]]
        else r'.cells == r.cells)
  }

  lemma ProducerRings(c: Config, s: State, p: nat, wake: set<nat>)
    requires p < |s.producers| && ProducerCan(s, p, wake)
    requires PHolds(s.producers[p].pc) <==> s.lock == ByProducer(p)
    ensures ProducerRing(c, s, ProducerNext(c, s, p, wake), s.producers[p].pc, s.producers[p].task)
  {
  }

  lemma RefinesProducer(c: Config, s: State, t: State, pc: ProducerPc, task: Task)
    requires ShapeInv(c, s) && ProducerRing(c, s, t, pc, task)
    requires Stores(pc) || pc == PRear ==> s.pool.ring.size < c.cap
    requires pc == PRear && InRange(s.pool.ring.cells, s.pool.ring.rear) ==> s.pool.ring.cells[s.pool.ring.rear] == task
    ensures ShapeInv(c, t)
    ensures FifoStep(c.cap, Abs(c, s), Abs(c, t)) && t.log.taken == s.log.taken
    ensures Abs(c, t) != Abs(c, s) ==> t.log.accepted == s.log.accepted + [task]
  {
    var r := s.pool.ring;
    if Stores(pc) {
      StoreKeepsContents(r.cells, r.front, r.size, t.pool.ring.cells[r.rear]);
    } else if pc == PRear {
      AdvanceRearAppends(r.cells, r.front, r.size);
      SuccIsNext(r.front, r.size, c.cap);
    }
  }

  lemma ProducerRefines(c: Config, s: State, p: nat, wake: set<nat>)
    requires ShapeInv(c, s) && HolderInv(c, s)
    requires p < |s.producers| && ProducerCan(s, p, wake)
    requires PHolds(s.producers[p].pc) <==> s.lock == ByProducer(p)
    ensures var t := ProducerNext(c, s, p, wake);
      && ShapeInv(c, t)
      && FifoStep(c.cap, Abs(c, s), Abs(c, t)) && t.log.taken == s.log.taken
      && (Abs(c, t) != Abs(c, s) ==> t.log.accepted == s.log.accepted + [s.producers[p].task])
  {
    ProducerRings(c, s, p, wake);
    RefinesProducer(c, s, ProducerNext(c, s, p, wake), s.producers[p].pc, s.producers[p].task);
  }

  /** What the statement `pc` of a worker that holds `task` does to them. */
  predicate WorkerRing(c: Config, s: State, t: State, pc: WorkerPc, task: Task) {
    var r, r' := s.pool.ring, t.pool.ring;
    && Extra(s) == (if pc == WDecSize then -1 else 0)
    && Extra(t) == (if pc == WAdvance then -1 else 0)
    && t.log.accepted == s.log.accepted
    && t.log.taken == (if pc == WAdvance then s.log.taken + [task] else s.log.taken)
    && r' == r.(front := if pc == WAdvance then Succ(r.front, c.cap) else r.front,
                size := r.size - (if pc == WDecSize then 1 else 0))
  }

  lemma WorkerRings(c: Config, s: State, w: nat)
    requires w < |s.workers| && WorkerCan(s, w) && (s.lock == Free || s.lock == ByWorker(w))
    requires WHolds(s.workers[w].pc) <==> s.lock == ByWorker(w)
    ensures WorkerRing(c, s, WorkerNext(c, s, w), s.workers[w].pc, s.workers[w].task)
  {
  }

  lemma WorkerElsewhere(c: Config, s: State, w: nat)
    requires w < |s.workers| && WorkerCan(s, w) && s.lock != Free && s.lock != ByWorker(w)
    requires WHolds(s.workers[w].pc) <==> s.lock == ByWorker(w)
    ensures var t := WorkerNext(c, s, w);
      && t.pool.ring == s.pool.ring && Extra(t) == Extra(s)
      && t.log.accepted == s.log.accepted && t.log.taken == s.log.taken
  {
    WorkerHandover(c, s, w);
  }

  lemma RefinesWorker(c: Config, s: State, t: State, pc: WorkerPc, task: Task)
    requires ShapeInv(c, s) && WorkerRing(c, s, t, pc, task)
    requires pc == WAdvance ==> s.pool.ring.size > 0 && task == Head(s.pool.ring)
    ensures ShapeInv(c, t)
    ensures FifoStep(c.cap, Abs(c, s), Abs(c, t))
    ensures Abs(c, t) != Abs(c, s) ==> Dequeues(Abs(c, s), Abs(c, t)) && task == Abs(c, s).items[0]
  {
    var r := s.pool.ring;
    if pc == WAdvance {
      AdvanceFrontDrops(r.cells, r.front, r.size);
    }
  }

  lemma WorkerRefines(c: Config, s: State, w: nat)
    requires ShapeInv(c, s) && HolderInv(c, s)
    requires w < |s.workers| && WorkerCan(s, w)
    requires WHolds(s.workers[w].pc) <==> s.lock == ByWorker(w)
    ensures ShapeInv(c, WorkerNext(c, s, w))
    ensures FifoStep(c.cap, Abs(c, s), Abs(c, WorkerNext(c, s, w)))
    ensures Abs(c, WorkerNext(c, s, w)) != Abs(c, s) ==>
              Dequeues(Abs(c, s), Abs(c, WorkerNext(c, s, w))) && s.workers[w].task == Abs(c, s).items[0]
  {
    if s.lock == Free || s.lock == ByWorker(w) {
      WorkerRings(c, s, w);
      RefinesWorker(c, s, WorkerNext(c, s, w), s.workers[w].pc, s.workers[w].task);
    } else {
      WorkerElsewhere(c, s, w);
    }
  }

  lemma ManagerRefines(c: Config, s: State, alive: bool, wake: set<nat>)
    requires ShapeInv(c, s) && ManagerCan(s, alive, wake)
    requires MHolds(s.mgr.pc) <==> s.lock == ByManager
    ensures ShapeInv(c, ManagerNext(c, s, alive, wake))
    ensures Abs(c, ManagerNext(c, s, alive, wake)) == Abs(c, s)
  {
    var t := ManagerNext(c, s, alive, wake);
    ManagerHandover(c, s, alive, wake);
    assert t.pool.ring == s.pool.ring;
    assert t.log.accepted == s.log.accepted && t.log.taken == s.log.taken;
    assert Extra(t) == Extra(s);
  }
}
