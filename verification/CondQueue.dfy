/** The condition-variable producers and consumers (producer and consumer in
    pipe/lock.c): the consumer tests emptiness with `if`, and the producer signals
    after its unlock. */
module CondQueue {
  import opened Counting

  datatype Owner = Free | ByProducer(p: nat) | ByConsumer(c: nat)

  datatype ProducerPc =
    | PLock   // 88
    | PInsert // 89
    | PUnlock // 91
    | PSignal // 93

  datatype ConsumerPc =
    | CLock   // 105
    | CTest   // 106
    | CSleep  // 111
    | CPop    // 113
    | CUnlock // 115
    | CUse    // 116
    | CRead   // 117
    | CFree   // 118

  /** The local `value`: NULL, or the node of pop number `k`. */
  datatype Value = Null | Popped(k: nat)

  datatype Consumer = Consumer(pc: ConsumerPc, value: Value)

  /** Nodes are numbered in the order of insertion. History: the nodes popped, by
      whom, and the pops whose node has been freed. */
  datatype State = State(
    lock: Owner,
    blocked: set<nat>,
    list: seq<nat>,
    made: nat,
    producers: seq<ProducerPc>,
    consumers: seq<Consumer>,
    popped: seq<nat>,
    poppers: seq<nat>,
    freed: multiset<nat>)

  datatype Step = ProducerStep(p: nat, mallocOk: bool, wake: set<nat>) | ConsumerStep(c: nat) | StrayWakeup(c: nat)

  function Init(producers: nat, consumers: nat): State {
    State(Free, {}, [], 0, seq(producers, _ => PLock), seq(consumers, _ => Consumer(CLock, Null)), [], [], multiset{})
  }

  predicate Enabled(s: State, step: Step) {
    match step
    case ProducerStep(p, _, wake) =>
      && p < |s.producers|
      && (s.producers[p].PLock? ==> s.lock == Free)
      && (s.producers[p].PSignal? ==> GoodWake(s.blocked, wake))
    case ConsumerStep(c) =>
      && c < |s.consumers|
      && (s.consumers[c].pc.CLock? ==> s.lock == Free)
      && (s.consumers[c].pc.CSleep? ==> s.lock == Free && c !in s.blocked)
    case StrayWakeup(c) => c in s.blocked
  }

  function ProducerNext(s: State, p: nat, mallocOk: bool, wake: set<nat>): State
    requires p < |s.producers|
  {
    match s.producers[p]
    case PLock => s.(lock := ByProducer(p), producers := s.producers[p := PInsert])
    case PInsert =>
      if mallocOk
      then s.(list := s.list + [s.made], made := s.made + 1, producers := s.producers[p := PUnlock])
      else s.(producers := s.producers[p := PUnlock])
    case PUnlock => s.(lock := Free, producers := s.producers[p := PSignal])
    case PSignal => s.(blocked := s.blocked - wake, producers := s.producers[p := PLock])
  }

  function GoC(s: State, c: nat, pc: ConsumerPc): State
    requires c < |s.consumers|
  {
    s.(consumers := s.consumers[c := s.consumers[c].(pc := pc)])
  }

  function ConsumerNext(s: State, c: nat): State
    requires c < |s.consumers|
  {
    match s.consumers[c].pc
    case CLock => GoC(s, c, CTest).(lock := ByConsumer(c))
    case CTest => if s.list == [] then GoC(s, c, CSleep).(lock := Free, blocked := s.blocked + {c}) else GoC(s, c, CPop)
    case CSleep => GoC(s, c, CPop).(lock := ByConsumer(c))
    case CPop =>
      if s.list == []
      then s.(consumers := s.consumers[c := Consumer(CUnlock, Null)])
      else s.(consumers := s.consumers[c := Consumer(CUnlock, Popped(|s.popped|))],
              list := s.list[..|s.list| - 1],
              popped := s.popped + [s.list[|s.list| - 1]],
              poppers := s.poppers + [c])
    case CUnlock => GoC(s, c, CUse).(lock := Free)
    case CUse => GoC(s, c, if s.consumers[c].value == Null then CLock else CRead)
    case CRead => GoC(s, c, CFree)
    case CFree =>
      s.(consumers := s.consumers[c := Consumer(CLock, Null)],
         freed := if s.consumers[c].value.Popped? then s.freed + multiset{s.consumers[c].value.k} else s.freed)
  }

  function Next(s: State, step: Step): State
    requires Enabled(s, step)
  {
    match step
    case ProducerStep(p, mallocOk, wake) => ProducerNext(s, p, mallocOk, wake)
    case ConsumerStep(c) => ConsumerNext(s, c)
    case StrayWakeup(c) => s.(blocked := s.blocked - {c})
  }

  predicate Feasible(s: State, steps: seq<Step>)
    decreases |steps|
  {
    steps == [] || (Enabled(s, steps[0]) && Feasible(Next(s, steps[0]), steps[1..]))
  }

  function Exec(s: State, steps: seq<Step>): State
    requires Feasible(s, steps)
    decreases |steps|
  {
    if steps == [] then s else Exec(Next(s, steps[0]), steps[1..])
  }

  // ------------------------------------------------------------------ invariants

  predicate PHolds(pc: ProducerPc) { pc.PInsert? || pc.PUnlock? }
  predicate CHolds(pc: ConsumerPc) { pc.CTest? || pc.CPop? || pc.CUnlock? }

  ghost predicate LockInv(s: State) {
    && (forall p | 0 <= p < |s.producers| :: PHolds(s.producers[p]) <==> s.lock == ByProducer(p))
    && (forall c | 0 <= c < |s.consumers| :: CHolds(s.consumers[c].pc) <==> s.lock == ByConsumer(c))
    && (forall c | c in s.blocked :: c < |s.consumers| && s.consumers[c].pc == CSleep)
  }

  /** What one statement may do to the mutex: take it, give it back, or leave it. */
  predicate Handover(me: Owner, before: bool, after: bool, owner: Owner, owner': Owner) {
    || (!before && after && owner == Free && owner' == me)
    || (before && !after && owner' == Free)
    || (before == after && owner' == owner)
  }

  lemma ProducerHandover(s: State, p: nat, mallocOk: bool, wake: set<nat>)
    requires Enabled(s, ProducerStep(p, mallocOk, wake))
    ensures var t := ProducerNext(s, p, mallocOk, wake);
      && |t.producers| == |s.producers|
      && Handover(ByProducer(p), PHolds(s.producers[p]), PHolds(t.producers[p]), s.lock, t.lock)
  {
  }

  lemma ConsumerHandover(s: State, c: nat)
    requires Enabled(s, ConsumerStep(c))
    ensures var t := ConsumerNext(s, c);
      && |t.consumers| == |s.consumers|
      && Handover(ByConsumer(c), CHolds(s.consumers[c].pc), CHolds(t.consumers[c].pc), s.lock, t.lock)
      && (s.consumers[c].pc == CSleep ==> c !in s.blocked)
  {
  }

  lemma LockKeptByProducer(s: State, t: State, p: nat)
    requires LockInv(s) && p < |s.producers| == |t.producers|
    requires t.producers == s.producers[p := t.producers[p]] && t.consumers == s.consumers && t.blocked <= s.blocked
    requires Handover(ByProducer(p), PHolds(s.producers[p]), PHolds(t.producers[p]), s.lock, t.lock)
    ensures LockInv(t)
  {
  }

  lemma LockKeptByConsumer(s: State, t: State, c: nat)
    requires LockInv(s) && c < |s.consumers| == |t.consumers|
    requires t.consumers == s.consumers[c := t.consumers[c]] && t.producers == s.producers
    requires t.blocked == if t.consumers[c].pc == CSleep then s.blocked + {c} else s.blocked
    requires s.consumers[c].pc == CSleep ==> c !in s.blocked
    requires Handover(ByConsumer(c), CHolds(s.consumers[c].pc), CHolds(t.consumers[c].pc), s.lock, t.lock)
    ensures LockInv(t)
  {
  }

  lemma LockKept(s: State, step: Step)
    requires LockInv(s) && Enabled(s, step)
    ensures LockInv(Next(s, step))
  {
    match step
    case ProducerStep(p, mallocOk, wake) =>
      ProducerHandover(s, p, mallocOk, wake);
      ProducerEffect(s, p, mallocOk, wake);
      LockKeptByProducer(s, ProducerNext(s, p, mallocOk, wake), p);
    case ConsumerStep(c) =>
      ConsumerHandover(s, c);
      ConsumerEffect(s, c);
      LockKeptByConsumer(s, ConsumerNext(s, c), c);
    case StrayWakeup(_) =>
  }

  ghost function AllIds(n: nat): multiset<nat> {
    if n == 0 then multiset{} else AllIds(n - 1) + multiset{n - 1}
  }

  /** Every inserted node is in the list or was popped, and only once. */
  ghost predicate NodesInv(s: State) {
    multiset(s.list) + multiset(s.popped) == AllIds(s.made)
  }

  lemma ProducerEffect(s: State, p: nat, mallocOk: bool, wake: set<nat>)
    requires Enabled(s, ProducerStep(p, mallocOk, wake))
    ensures var t := ProducerNext(s, p, mallocOk, wake);
      && |t.producers| == |s.producers| && t.producers == s.producers[p := t.producers[p]]
      && t.consumers == s.consumers && t.popped == s.popped && t.poppers == s.poppers && t.freed == s.freed
      && t.blocked == (if s.producers[p].PSignal? then s.blocked - wake else s.blocked)
      && OwesSignal(t.producers[p]) == (s.producers[p].PInsert? || s.producers[p].PUnlock?)
      && (if s.producers[p].PInsert? && mallocOk
          then t.list == s.list + [s.made] && t.made == s.made + 1
          else t.list == s.list && t.made == s.made)
  {
  }

  lemma ConsumerEffect(s: State, c: nat)
    requires Enabled(s, ConsumerStep(c))
    ensures var t := ConsumerNext(s, c); var pc := s.consumers[c].pc;
      && |t.consumers| == |s.consumers| && t.consumers == s.consumers[c := t.consumers[c]]
      && t.producers == s.producers && t.made == s.made
      && t.blocked == (if t.consumers[c].pc == CSleep then s.blocked + {c} else s.blocked)
      && (t.consumers[c].pc == CSleep ==> s.list == [])
      && (Contends(s.consumers[c]) && pc != CPop ==> Contends(t.consumers[c]))
      && (pc != CPop ==> t.list == s.list && t.popped == s.popped && t.poppers == s.poppers)
      && (pc != CFree ==> t.freed == s.freed)
      && (pc != CPop && pc != CFree ==> t.consumers[c].value == s.consumers[c].value)
  {
  }

  lemma NodesKept(s: State, step: Step)
    requires NodesInv(s) && Enabled(s, step)
    ensures NodesInv(Next(s, step))
  {
    match step
    case ProducerStep(p, mallocOk, wake) => ProducerEffect(s, p, mallocOk, wake);
    case ConsumerStep(c) => NodesKeptByConsumer(s, c);
    case StrayWakeup(_) =>
  }

  /** The list is in the order of insertion. */
  ghost predicate OrderInv(s: State) {
    && (forall i, j | 0 <= i < j < |s.list| :: s.list[i] < s.list[j])
    && (forall i | 0 <= i < |s.list| :: s.list[i] < s.made)
  }

  lemma OrderKept(s: State, step: Step)
    requires OrderInv(s) && Enabled(s, step)
    ensures OrderInv(Next(s, step))
  {
    match step
    case ProducerStep(p, mallocOk, wake) => ProducerEffect(s, p, mallocOk, wake);
    case ConsumerStep(c) =>
      if s.consumers[c].pc != CPop {
        ConsumerEffect(s, c);
      }
    case StrayWakeup(_) =>
  }

  lemma NodesKeptByConsumer(s: State, c: nat)
    requires NodesInv(s) && Enabled(s, ConsumerStep(c))
    ensures NodesInv(ConsumerNext(s, c))
  {
    if s.consumers[c].pc != CPop {
      ConsumerEffect(s, c);
    } else if s.list != [] {
      assert s.list == s.list[..|s.list| - 1] + [s.list[|s.list| - 1]];
    }
  }

  predicate HasPop(s: State, c: nat, k: nat) {
    c < |s.consumers| && s.consumers[c].value == Popped(k)
  }

  /** The node of pop `k` is in its popper's hands, or has been freed once. */
  ghost predicate PopInv(s: State) {
    && |s.poppers| == |s.popped|
    && (forall k: nat | k < |s.popped| ::
          s.poppers[k] < |s.consumers| && s.freed[k] == if HasPop(s, s.poppers[k], k) then 0 else 1)
    && (forall k: nat | k >= |s.popped| :: s.freed[k] == 0)
    && (forall c | 0 <= c < |s.consumers| && s.consumers[c].value.Popped? ::
          s.consumers[c].value.k < |s.popped| && s.poppers[s.consumers[c].value.k] == c)
    && (forall c | 0 <= c < |s.consumers| :: ValueOk(s.consumers[c]))
  }

  /** NULL is never dereferenced, and an old node never kept. */
  predicate ValueOk(me: Consumer) {
    && (me.pc.CRead? || me.pc.CFree? ==> me.value.Popped?)
    && (me.pc.CLock? || me.pc.CTest? || me.pc.CSleep? || me.pc.CPop? ==> me.value.Null?)
  }

  lemma PopKept(s: State, step: Step)
    requires PopInv(s) && Enabled(s, step)
    ensures PopInv(Next(s, step))
  {
    match step
    case ProducerStep(p, mallocOk, wake) => ProducerEffect(s, p, mallocOk, wake);
    case ConsumerStep(c) => PopKeptByConsumer(s, c);
    case StrayWakeup(_) =>
  }

  lemma PopKeptByConsumer(s: State, c: nat)
    requires PopInv(s) && Enabled(s, ConsumerStep(c))
    ensures PopInv(ConsumerNext(s, c))
  {
    ConsumerEffect(s, c);
    ValueOkAfter(s, c);
    if s.consumers[c].pc == CPop {
      PopKeptByPop(s, c);
    } else if s.consumers[c].pc == CFree {
      PopKeptByFree(s, c);
    } else {
      PopFrame(s, ConsumerNext(s, c), c);
    }
  }

  lemma ValueOkAfter(s: State, c: nat)
    requires Enabled(s, ConsumerStep(c)) && ValueOk(s.consumers[c])
    ensures |ConsumerNext(s, c).consumers| == |s.consumers| && ValueOk(ConsumerNext(s, c).consumers[c])
  {
  }

  /** A pop that finds a node records its popper. */
  lemma PopRecorded(s: State, t: State, c: nat, node: nat)
    requires PopInv(s) && c < |s.consumers| && s.consumers[c].value == Null
    requires t.popped == s.popped + [node] && t.poppers == s.poppers + [c] && t.freed == s.freed
    requires t.consumers == s.consumers[c := Consumer(CUnlock, Popped(|s.popped|))]
    ensures PopInv(t)
  {
  }

  /** A statement that pops and frees nothing, with the same value in hand. */
  lemma PopFrame(s: State, t: State, c: nat)
    requires PopInv(s) && c < |s.consumers| == |t.consumers| && ValueOk(t.consumers[c])
    requires t.popped == s.popped && t.poppers == s.poppers && t.freed == s.freed
    requires t.consumers == s.consumers[c := t.consumers[c]] && t.consumers[c].value == s.consumers[c].value
    ensures PopInv(t)
  {
  }

  lemma PopKeptByPop(s: State, c: nat)
    requires PopInv(s) && c < |s.consumers| && s.consumers[c].pc == CPop
    ensures PopInv(ConsumerNext(s, c))
  {
    var t := ConsumerNext(s, c);
    if s.list != [] {
      PopRecorded(s, t, c, s.list[|s.list| - 1]);
    } else {
      PopFrame(s, t, c);
    }
  }

  /** Freeing the node in hand. */
  lemma PopFreed(s: State, t: State, c: nat)
    requires PopInv(s) && c < |s.consumers| && s.consumers[c].value.Popped?
    requires t.popped == s.popped && t.poppers == s.poppers
    requires t.freed == s.freed + multiset{s.consumers[c].value.k}
    requires t.consumers == s.consumers[c := Consumer(CLock, Null)]
    ensures PopInv(t)
  {
  }

  lemma PopKeptByFree(s: State, c: nat)
    requires PopInv(s) && c < |s.consumers| && s.consumers[c].pc == CFree
    ensures PopInv(ConsumerNext(s, c))
  {
    PopFreed(s, ConsumerNext(s, c), c);
  }

  /** Will look at the list before it can block again. */
  predicate Contends(me: Consumer) {
    me.pc.CLock? || me.pc.CTest? || me.pc.CSleep? || me.pc.CPop?
  }

  predicate OwesSignal(pc: ProducerPc) {
    pc.PUnlock? || pc.PSignal?
  }

  ghost function Contending(s: State): set<nat> {
    Where(s.consumers, Contends) - s.blocked
  }

  /** No lost wakeup, `if` or not. */
  ghost predicate Covered(s: State) {
    s.blocked == {} || |s.list| <= |Contending(s)| + |Where(s.producers, OwesSignal)|
  }

  lemma CoverKeptByProducer(s: State, p: nat, mallocOk: bool, wake: set<nat>)
    requires LockInv(s) && Covered(s) && Enabled(s, ProducerStep(p, mallocOk, wake))
    ensures Covered(ProducerNext(s, p, mallocOk, wake))
  {
    var t := ProducerNext(s, p, mallocOk, wake);
    ProducerEffect(s, p, mallocOk, wake);
    WhereUpdate(s.producers, p, t.producers[p], OwesSignal);
    if s.producers[p].PSignal? {
      assert s.blocked <= Where(s.consumers, Contends);
      WakeCard(Where(s.consumers, Contends), s.blocked, wake);
    } else if s.producers[p].PUnlock? {
      assert Where(t.producers, OwesSignal) == Where(s.producers, OwesSignal);
    }
  }

  lemma CoverKeptByConsumer(s: State, c: nat)
    requires Covered(s) && Enabled(s, ConsumerStep(c))
    ensures Covered(ConsumerNext(s, c))
  {
    ConsumerEffect(s, c);
    if s.consumers[c].pc == CPop {
      PopShortens(s, c);
    }
    CoverAfterConsumer(s, ConsumerNext(s, c), c);
  }

  lemma PopShortens(s: State, c: nat)
    requires Enabled(s, ConsumerStep(c)) && s.consumers[c].pc == CPop
    ensures |ConsumerNext(s, c).list| == if s.list == [] then 0 else |s.list| - 1
  {
  }

  lemma CoverAfterConsumer(s: State, t: State, c: nat)
    requires Covered(s) && c < |s.consumers| == |t.consumers|
    requires t.consumers == s.consumers[c := t.consumers[c]] && t.producers == s.producers
    requires t.blocked == if t.consumers[c].pc == CSleep then s.blocked + {c} else s.blocked
    requires t.consumers[c].pc == CSleep ==> t.list == []
    requires s.consumers[c].pc != CPop ==> t.list == s.list
    requires s.consumers[c].pc == CPop ==> |t.list| == if s.list == [] then 0 else |s.list| - 1
    requires Contends(s.consumers[c]) && s.consumers[c].pc != CPop ==> Contends(t.consumers[c])
    ensures Covered(t)
  {
    WhereUpdate(s.consumers, c, t.consumers[c], Contends);
    if t.consumers[c].pc == CSleep {
    } else if Contends(t.consumers[c]) {
      assert Contending(s) <= Contending(t);
      SubsetCard(Contending(s), Contending(t));
    } else {
      assert Contending(t) == Contending(s) - {c};
    }
  }

  lemma CoverKept(s: State, step: Step)
    requires LockInv(s) && Covered(s) && Enabled(s, step)
    ensures Covered(Next(s, step))
  {
    match step
    case ProducerStep(p, mallocOk, wake) => CoverKeptByProducer(s, p, mallocOk, wake);
    case ConsumerStep(c) => CoverKeptByConsumer(s, c);
    case StrayWakeup(c) => SubsetCard(Contending(s), Contending(Next(s, step)));
  }

  ghost predicate Inv(s: State) {
    LockInv(s) && NodesInv(s) && OrderInv(s) && PopInv(s) && Covered(s)
  }

  lemma {:induction false} InvAlong(s: State, steps: seq<Step>)
    requires Inv(s) && Feasible(s, steps)
    ensures Inv(Exec(s, steps))
    decreases |steps|
  {
    if steps != [] {
      LockKept(s, steps[0]);
      NodesKept(s, steps[0]);
      OrderKept(s, steps[0]);
      PopKept(s, steps[0]);
      CoverKept(s, steps[0]);
      InvAlong(Next(s, steps[0]), steps[1..]);
    }
  }

  // -------------------------------------------------------------------- theorems

  ghost predicate Reachable(s: State) {
    exists producers: nat, consumers: nat, steps :: Reaches(producers, consumers, steps, s)
  }

  ghost predicate Reaches(producers: nat, consumers: nat, steps: seq<Step>, s: State) {
    Feasible(Init(producers, consumers), steps) && s == Exec(Init(producers, consumers), steps)
  }

  lemma InvAlways(s: State)
    requires Reachable(s)
    ensures Inv(s)
  {
    var producers: nat, consumers: nat, steps :| Reaches(producers, consumers, steps, s);
    InvAlong(Init(producers, consumers), steps);
  }

  lemma {:induction false} AllIdsCard(n: nat)
    ensures |AllIds(n)| == n
    ensures forall k: nat :: AllIds(n)[k] == if k < n then 1 else 0
  {
    if n > 0 {
      AllIdsCard(n - 1);
    }
  }

  /** Insertions are the nodes in the list and the nodes popped, none twice. */
  lemma ItemsConserved(s: State)
    requires Reachable(s)
    ensures s.made == |s.list| + |s.popped|
    ensures forall id: nat | id < s.made :: multiset(s.list)[id] + multiset(s.popped)[id] == 1
  {
    InvAlways(s);
    AllIdsCard(s.made);
    assert |multiset(s.list) + multiset(s.popped)| == |s.list| + |s.popped|;
    forall id: nat | id < s.made
      ensures multiset(s.list)[id] + multiset(s.popped)[id] == 1
    {
      assert (multiset(s.list) + multiset(s.popped))[id] == 1;
    }
  }

  /** A pop takes the newest node of the list, and leaves the others as they are. */
  lemma PopsNewest(s: State, step: Step)
    requires Reachable(s) && Enabled(s, step)
    ensures var t := Next(s, step);
      t.popped == s.popped ||
      (|t.popped| == |s.popped| + 1
       && var x := t.popped[|s.popped|];
          && t.popped == s.popped + [x] && s.list == t.list + [x]
          && forall y | y in t.list :: y < x)
  {
    InvAlways(s);
    match step
    case ProducerStep(p, mallocOk, wake) => ProducerEffect(s, p, mallocOk, wake);
    case ConsumerStep(c) =>
      if s.consumers[c].pc != CPop {
        ConsumerEffect(s, c);
      } else if s.list != [] {
        assert s.list == s.list[..|s.list| - 1] + [s.list[|s.list| - 1]];
      }
    case StrayWakeup(_) =>
  }

  // ---------------------------------------------------------- one thread undisturbed

  function Repeat(step: Step, n: nat): seq<Step> {
    seq(n, i => step)
  }

  /** `n` statements of the one kind of step lead from `s` to `t`. */
  ghost predicate Goes(s: State, step: Step, n: nat, t: State) {
    Feasible(s, Repeat(step, n)) && Exec(s, Repeat(step, n)) == t
  }

  lemma GoesOnce(s: State, step: Step, n: nat, t: State)
    requires Enabled(s, step) && Goes(Next(s, step), step, n, t)
    ensures Goes(s, step, n + 1, t)
  {
    assert Repeat(step, n + 1)[1..] == Repeat(step, n);
  }

  /** One turn of the producer's loop. */
  lemma ProducerTurn(s: State, p: nat, mallocOk: bool, wake: set<nat>)
    requires p < |s.producers| && s.producers[p] == PLock && s.lock == Free && GoodWake(s.blocked, wake)
    ensures Goes(s, ProducerStep(p, mallocOk, wake), 4,
                 s.(list := if mallocOk then s.list + [s.made] else s.list,
                    made := if mallocOk then s.made + 1 else s.made,
                    blocked := s.blocked - wake))
  {
    var step := ProducerStep(p, mallocOk, wake);
    var a := Next(s, step);
    var b := Next(a, step);
    var d := Next(b, step);
    var t := Next(d, step);
    assert t.producers == s.producers;
    GoesOnce(d, step, 0, t);
    GoesOnce(b, step, 1, t);
    GoesOnce(a, step, 2, t);
    GoesOnce(s, step, 3, t);
  }

  /** A consumer that finds the list empty blocks. */
  lemma ConsumerBlocks(s: State, c: nat)
    requires c < |s.consumers| && s.consumers[c].pc == CLock && s.lock == Free && s.list == []
    ensures Goes(s, ConsumerStep(c), 2, GoC(s, c, CSleep).(blocked := s.blocked + {c}))
  {
    var step := ConsumerStep(c);
    var a := Next(s, step);
    GoesOnce(a, step, 0, Next(a, step));
    GoesOnce(s, step, 1, Next(a, step));
  }

  /** A consumer that finds a node takes the last one, reads it and frees it. */
  lemma ConsumerTurn(s: State, c: nat)
    requires c < |s.consumers| && s.consumers[c] == Consumer(CLock, Null) && s.lock == Free && s.list != []
    ensures var last := |s.list| - 1;
      Goes(s, ConsumerStep(c), 7,
           s.(list := s.list[..last], popped := s.popped + [s.list[last]], poppers := s.poppers + [c],
              freed := s.freed + multiset{|s.popped|}))
  {
    var step := ConsumerStep(c);
    var a := Next(s, step);
    var b := Next(a, step);
    var d := Next(b, step);
    var t := UseNode(d, c, |s.popped|);
    assert t.consumers == s.consumers;
    GoesOnce(b, step, 4, t);
    GoesOnce(a, step, 5, t);
    GoesOnce(s, step, 6, t);
  }

  lemma UseNode(s: State, c: nat, k: nat) returns (t: State)
    requires c < |s.consumers| && s.consumers[c] == Consumer(CUnlock, Popped(k))
    ensures Goes(s, ConsumerStep(c), 4, t)
    ensures t == s.(lock := Free, consumers := s.consumers[c := Consumer(CLock, Null)], freed := s.freed + multiset{k})
  {
    var step := ConsumerStep(c);
    var a := Next(s, step);
    var b := Next(a, step);
    var d := Next(b, step);
    t := Next(d, step);
    GoesOnce(d, step, 0, t);
    GoesOnce(b, step, 1, t);
    GoesOnce(a, step, 2, t);
    GoesOnce(s, step, 3, t);
  }

  /** A woken consumer pops without testing again: on an empty list it gets NULL, and
      starts over. */
  lemma WokenConsumerMayPopNull(s: State, c: nat)
    requires c < |s.consumers| && s.consumers[c] == Consumer(CSleep, Null) && c !in s.blocked
    requires s.lock == Free && s.list == []
    ensures Goes(s, ConsumerStep(c), 4, GoC(s, c, CLock))
  {
    var step := ConsumerStep(c);
    var a := Next(s, step);
    var b := Next(a, step);
    var d := Next(b, step);
    var t := Next(d, step);
    assert t == GoC(s, c, CLock);
    GoesOnce(d, step, 0, t);
    GoesOnce(b, step, 1, t);
    GoesOnce(a, step, 2, t);
    GoesOnce(s, step, 3, t);
  }

  /** A consumer that reads or frees `value` has a node that nobody else has and
      that has not been freed; every popped node is freed at most once. */
  lemma ValueSafe(s: State, c: nat)
    requires Reachable(s) && c < |s.consumers| && (s.consumers[c].pc.CRead? || s.consumers[c].pc.CFree?)
    ensures s.consumers[c].value.Popped? && s.freed[s.consumers[c].value.k] == 0
    ensures forall d: nat | HasPop(s, d, s.consumers[c].value.k) :: d == c
  {
    InvAlways(s);
  }

  /** If a consumer is blocked, every node in the list has a contending consumer or
      a signal still to come. */
  lemma NoLostWakeup(s: State)
    requires Reachable(s) && s.blocked != {}
    ensures |s.list| <= |Contending(s)| + |Where(s.producers, OwesSignal)|
  {
    InvAlways(s);
  }
}
