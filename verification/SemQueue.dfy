/** The semaphore producers and consumers (producer2 and consumer2 in pipe/lock.c),
    with each list call as one step. The semaphores both start at five, so they do
    not exclude one another; they still bound the list. */
module SemQueue {
  import opened Counting

  const START := 5

  datatype ProducerPc =
    | QWait   // 167
    | QInsert // 168
    | QPost   // 170

  datatype ConsumerPc =
    | RWait // 182
    | RPop  // 183
    | RUse  // 184-188
    | RPost // 190

  /** History: successful insertions, pops that returned a node, and posts. */
  datatype History = History(made: nat, popped: nat, posted: nat, returned: nat)

  /** `length` is the number of nodes in the list. */
  datatype State = State(
    semProducer: int,
    semConsumer: int,
    length: int,
    producers: seq<ProducerPc>,
    consumers: seq<ConsumerPc>,
    log: History)

  datatype Step = ProducerStep(p: nat, mallocOk: bool) | ConsumerStep(c: nat)

  function Init(producers: nat, consumers: nat): State {
    State(START, START, 0, seq(producers, _ => QWait), seq(consumers, _ => RWait), History(0, 0, 0, 0))
  }

  predicate Enabled(s: State, step: Step) {
    match step
    case ProducerStep(p, _) => p < |s.producers| && (s.producers[p].QWait? ==> s.semProducer > 0)
    case ConsumerStep(c) => c < |s.consumers| && (s.consumers[c].RWait? ==> s.semConsumer > 0)
  }

  /** A pop of the empty list returns NULL and the consumer goes on regardless. */
  function Next(s: State, step: Step): State
    requires Enabled(s, step)
  {
    match step
    case ProducerStep(p, mallocOk) =>
      (match s.producers[p]
       case QWait => s.(semProducer := s.semProducer - 1, producers := s.producers[p := QInsert])
       case QInsert =>
         s.(length := if mallocOk then s.length + 1 else s.length, producers := s.producers[p := QPost],
            log := s.log.(made := if mallocOk then s.log.made + 1 else s.log.made))
       case QPost =>
         s.(semConsumer := s.semConsumer + 1, producers := s.producers[p := QWait],
            log := s.log.(posted := s.log.posted + 1)))
    case ConsumerStep(c) =>
      (match s.consumers[c]
       case RWait => s.(semConsumer := s.semConsumer - 1, consumers := s.consumers[c := RPop])
       case RPop =>
         s.(length := if s.length > 0 then s.length - 1 else 0, consumers := s.consumers[c := RUse],
            log := s.log.(popped := if s.length > 0 then s.log.popped + 1 else s.log.popped))
       case RUse => s.(consumers := s.consumers[c := RPost])
       case RPost =>
         s.(semProducer := s.semProducer + 1, consumers := s.consumers[c := RWait],
            log := s.log.(returned := s.log.returned + 1)))
  }

  predicate Feasible(s: State, steps: seq<Step>)
    decreases |steps|
  {
    steps == [] || (Enabled(s, steps[0]) && Feasible(Next(s, steps[0]), steps[1..]))
  }

  function Exec(s: State, steps: seq<Step>): State
    requires Feasible(s, steps)
    decreases |steps|
  {
    if steps == [] then s else Exec(Next(s, steps[0]), steps[1..])
  }

  predicate Inserting(pc: ProducerPc) { !pc.QWait? }
  predicate Inserted(pc: ProducerPc) { pc.QPost? }
  predicate Consuming(pc: ConsumerPc) { !pc.RWait? }
  predicate Popping(pc: ConsumerPc) { pc.RPop? }

  /** The permits: available, or with a thread between its wait and its post. */
  ghost function Permits(s: State): int {
    s.semProducer + s.semConsumer + |Where(s.producers, Inserting)| + |Where(s.consumers, Consuming)|
  }

  ghost predicate Inv(s: State) {
    && 0 <= s.semProducer && 0 <= s.semConsumer && 0 <= s.length
    && Permits(s) == 2 * START
    && s.length <= s.semConsumer + |Where(s.consumers, Popping)| + |Where(s.producers, Inserted)|
    && s.log.made == s.length + s.log.popped
    && s.semConsumer == START + s.log.posted - s.log.returned - |Where(s.consumers, Consuming)|
    && s.semProducer == START + s.log.returned - s.log.posted - |Where(s.producers, Inserting)|
  }

  lemma InvKeptByProducer(s: State, p: nat, mallocOk: bool)
    requires Inv(s) && Enabled(s, ProducerStep(p, mallocOk))
    ensures Inv(Next(s, ProducerStep(p, mallocOk)))
  {
    var t := Next(s, ProducerStep(p, mallocOk));
    assert t.producers == s.producers[p := t.producers[p]] && t.consumers == s.consumers;
    WhereUpdate(s.producers, p, t.producers[p], Inserting);
    WhereUpdate(s.producers, p, t.producers[p], Inserted);
  }

  lemma InvKeptByConsumer(s: State, c: nat)
    requires Inv(s) && Enabled(s, ConsumerStep(c))
    ensures Inv(Next(s, ConsumerStep(c)))
  {
    var t := Next(s, ConsumerStep(c));
    assert t.consumers == s.consumers[c := t.consumers[c]] && t.producers == s.producers;
    WhereUpdate(s.consumers, c, t.consumers[c], Consuming);
    WhereUpdate(s.consumers, c, t.consumers[c], Popping);
  }

  lemma {:induction false} InvAlong(s: State, steps: seq<Step>)
    requires Inv(s) && Feasible(s, steps)
    ensures Inv(Exec(s, steps))
    decreases |steps|
  {
    if steps != [] {
      match steps[0] {
        case ProducerStep(p, mallocOk) => InvKeptByProducer(s, p, mallocOk);
        case ConsumerStep(c) => InvKeptByConsumer(s, c);
      }
      InvAlong(Next(s, steps[0]), steps[1..]);
    }
  }

  /** In every run of any number of threads the ten permits are conserved, and the
      list never holds more than ten nodes, NULL pops notwithstanding. */
  lemma ListBounded(producers: nat, consumers: nat, steps: seq<Step>)
    requires Feasible(Init(producers, consumers), steps)
    ensures var s := Exec(Init(producers, consumers), steps);
      && s.semProducer >= 0 && s.semConsumer >= 0
      && Permits(s) == 10
      && s.length <= s.semConsumer + |Where(s.consumers, Popping)| + |Where(s.producers, Inserted)| <= 10
  {
    var s := Init(producers, consumers);
    assert Where(s.producers, Inserting) == {} && Where(s.consumers, Consuming) == {};
    InvAlong(s, steps);
    var t := Exec(s, steps);
    SubsetCard(Where(t.consumers, Popping), Where(t.consumers, Consuming));
    SubsetCard(Where(t.producers, Inserted), Where(t.producers, Inserting));
  }

  /** The nodes inserted are those in the list and those popped; and each semaphore is
      worth five and the posts to it, less the waits for it. */
  lemma NodesAndPosts(producers: nat, consumers: nat, steps: seq<Step>)
    requires Feasible(Init(producers, consumers), steps)
    ensures var s := Exec(Init(producers, consumers), steps);
      && s.log.made == s.length + s.log.popped
      && s.semConsumer == 5 + s.log.posted - s.log.returned - |Where(s.consumers, Consuming)|
      && s.semProducer == 5 + s.log.returned - s.log.posted - |Where(s.producers, Inserting)|
  {
    var s := Init(producers, consumers);
    assert Where(s.producers, Inserting) == {} && Where(s.consumers, Consuming) == {};
    InvAlong(s, steps);
  }

  // ---------------------------------------------------------- one thread undisturbed

  function Repeat(step: Step, n: nat): seq<Step> {
    seq(n, i => step)
  }

  ghost predicate Goes(s: State, step: Step, n: nat, t: State) {
    Feasible(s, Repeat(step, n)) && Exec(s, Repeat(step, n)) == t
  }

  lemma GoesOnce(s: State, step: Step, n: nat, t: State)
    requires Enabled(s, step) && Goes(Next(s, step), step, n, t)
    ensures Goes(s, step, n + 1, t)
  {
    assert Repeat(step, n + 1)[1..] == Repeat(step, n);
  }

  /** One turn of the producer's loop moves a permit to the consumers' side. */
  lemma ProducerTurn(s: State, p: nat, mallocOk: bool)
    requires p < |s.producers| && s.producers[p] == QWait && s.semProducer > 0
    ensures Goes(s, ProducerStep(p, mallocOk), 3,
                 s.(semProducer := s.semProducer - 1, semConsumer := s.semConsumer + 1,
                    length := s.length + (if mallocOk then 1 else 0),
                    log := s.log.(made := s.log.made + (if mallocOk then 1 else 0), posted := s.log.posted + 1)))
  {
    var step := ProducerStep(p, mallocOk);
    var a := Next(s, step);
    var b := Next(a, step);
    var t := Next(b, step);
    assert t.producers == s.producers;
    GoesOnce(b, step, 0, t);
    GoesOnce(a, step, 1, t);
    GoesOnce(s, step, 2, t);
  }

  /** One turn of the consumer's loop moves it back, node or no node. */
  lemma ConsumerTurn(s: State, c: nat)
    requires c < |s.consumers| && s.consumers[c] == RWait && s.semConsumer > 0 && s.length >= 0
    ensures var got := if s.length > 0 then 1 else 0;
      Goes(s, ConsumerStep(c), 4,
           s.(semProducer := s.semProducer + 1, semConsumer := s.semConsumer - 1, length := s.length - got,
              log := s.log.(popped := s.log.popped + got, returned := s.log.returned + 1)))
  {
    var step := ConsumerStep(c);
    var a := Next(s, step);
    var b := Next(a, step);
    var d := Next(b, step);
    var t := Next(d, step);
    assert t.consumers == s.consumers;
    GoesOnce(d, step, 0, t);
    GoesOnce(b, step, 1, t);
    GoesOnce(a, step, 2, t);
    GoesOnce(s, step, 3, t);
  }

  /** The permits never vanish, so with a producer and a consumer some thread can
      always execute its next statement. */
  lemma AlwaysSomebodyCanMove(producers: nat, consumers: nat, steps: seq<Step>)
    requires producers >= 1 && consumers >= 1 && Feasible(Init(producers, consumers), steps)
    ensures exists step :: Enabled(Exec(Init(producers, consumers), steps), step)
  {
    var s := Exec(Init(producers, consumers), steps);
    ListBounded(producers, consumers, steps);
    ThreadsStay(Init(producers, consumers), steps);
    if !(exists step :: Enabled(s, step)) {
      assert !Enabled(s, ProducerStep(0, true)) && !Enabled(s, ConsumerStep(0));
      AllWait(s);
    }
  }

  lemma AllWait(s: State)
    requires forall step :: !Enabled(s, step)
    ensures Where(s.producers, Inserting) == {} && Where(s.consumers, Consuming) == {}
  {
    forall p: nat | p < |s.producers|
      ensures !Inserting(s.producers[p])
    {
      assert !Enabled(s, ProducerStep(p, true));
    }
    forall c: nat | c < |s.consumers|
      ensures !Consuming(s.consumers[c])
    {
      assert !Enabled(s, ConsumerStep(c));
    }
  }

  lemma {:induction false} ThreadsStay(s: State, steps: seq<Step>)
    requires Feasible(s, steps)
    ensures var t := Exec(s, steps); |t.producers| == |s.producers| && |t.consumers| == |s.consumers|
    decreases |steps|
  {
    if steps != [] {
      ThreadsStay(Next(s, steps[0]), steps[1..]);
    }
  }
}
