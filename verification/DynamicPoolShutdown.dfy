/** What shutdown does to a run of the dynamic pool. */
module DynamicPoolShutdown {
  import opened Counting
  import opened TaskRing
  import opened DynamicPool
  import opened DynamicPoolInvariants
  import opened DynamicPoolWorkers
  import opened DynamicPoolTheorems
  import opened DynamicPoolSizing

  // ------------------------------------------------------------- before shutdown

  /** What a thread's statement does to the flag and the wait sets. */
  predicate FlagAndWaits(s: State, t: State) {
    && t.pool.shutdown == s.pool.shutdown
    && (s.pool.shutdown ==> t.notFull <= s.notFull && t.notEmpty <= s.notEmpty)
  }

  lemma CallFlag(c: Config, s: State, p: nat, wake: set<nat>)
    requires p < |s.producers| && ProducerCan(s, p, wake)
    ensures FlagAndWaits(s, ProducerNext(c, s, p, wake))
  {
  }

  lemma WorkerFlag(c: Config, s: State, w: nat)
    requires w < |s.workers| && WorkerCan(s, w)
    ensures FlagAndWaits(s, WorkerNext(c, s, w))
  {
  }

  lemma ManagerFlag(c: Config, s: State, alive: bool, wake: set<nat>)
    requires ManagerCan(s, alive, wake)
    ensures FlagAndWaits(s, ManagerNext(c, s, alive, wake))
  {
  }

  /** Nothing but the request itself sets the flag, and after it no thread blocks. */
  lemma ShutdownOnlyByRequest(c: Config, s: State, step: Step)
    requires Enabled(s, step)
    ensures var t := Next(c, s, step);
      && t.pool.shutdown == (s.pool.shutdown || step.Shutdown?)
      && (s.pool.shutdown ==> t.notFull <= s.notFull && t.notEmpty <= s.notEmpty)
  {
    match step
    case ProducerStep(p, wake) => CallFlag(c, s, p, wake);
    case WorkerStep(w) => WorkerFlag(c, s, w);
    case ManagerStep(alive, wake) => ManagerFlag(c, s, alive, wake);
    case Call(_) =>
    case Shutdown =>
    case StrayProducer(_) =>
    case StrayWorker(_) =>
  }

  lemma {:induction false} OpenWithoutRequest(c: Config, s: State, steps: seq<Step>)
    requires Feasible(c, s, steps) && !s.pool.shutdown && forall i | 0 <= i < |steps| :: !steps[i].Shutdown?
    ensures !Exec(c, s, steps).pool.shutdown
    decreases |steps|
  {
    if steps != [] {
      ShutdownOnlyByRequest(c, s, steps[0]);
      OpenWithoutRequest(c, Next(c, s, steps[0]), steps[1..]);
    }
  }

  /** A new pool is open, and stays so until shutdown is requested. */
  lemma OpenUntilRequested(c: Config, garbage: seq<Task>, steps: seq<Step>)
    requires ValidConfig(c) && |garbage| == c.cap && Feasible(c, Init(c, garbage), steps)
    requires forall i | 0 <= i < |steps| :: !steps[i].Shutdown?
    ensures !Exec(c, Init(c, garbage), steps).pool.shutdown
  {
    OpenWithoutRequest(c, Init(c, garbage), steps);
  }

  // ------------------------------------------------------- calls and their answers

  /** Has stored its task, or has been turned away and is past the broadcast. */
  predicate Answered(me: Producer) {
    me.pc.PSize? || me.pc.PSignal? || me.pc.PUnlock? || me.pc.PQuit? || me.pc.PReturned?
  }

  predicate BeingRefused(pc: ProducerPc) {
    pc.PBroadcast? || pc.PQuit?
  }

  /** Every answered call has had its task accepted; or shutdown has begun and no
      worker is blocked. */
  ghost predicate AnswerInv(s: State) {
    && (forall p | 0 <= p < |s.producers| && BeingRefused(s.producers[p].pc) :: s.pool.shutdown)
    && ((s.pool.shutdown && s.notEmpty == {}) || |s.log.accepted| == |Where(s.producers, Answered)|)
  }

  lemma CallAnswer(c: Config, s: State, p: nat, wake: set<nat>)
    requires p < |s.producers| && ProducerCan(s, p, wake)
    ensures var t := ProducerNext(c, s, p, wake); var pc := s.producers[p].pc;
      && |t.producers| == |s.producers|
      && t.pool.shutdown == s.pool.shutdown && t.notEmpty <= s.notEmpty
      && (pc == PBroadcast ==> t.notEmpty == {})
      && |t.log.accepted| == |s.log.accepted| + (if pc == PRear then 1 else 0)
      && Answered(t.producers[p]) == (Answered(s.producers[p]) || pc == PRear || pc == PBroadcast)
      && (Answered(s.producers[p]) ==> pc != PRear)
      && (BeingRefused(t.producers[p].pc) ==> BeingRefused(pc) || s.pool.shutdown)
  {
  }

  lemma AnswerKeptByCall(c: Config, s: State, p: nat, wake: set<nat>)
    requires AnswerInv(s) && p < |s.producers| && ProducerCan(s, p, wake)
    ensures AnswerInv(ProducerNext(c, s, p, wake))
  {
    var t := ProducerNext(c, s, p, wake);
    ProducerHandover(c, s, p, wake);
    CallAnswer(c, s, p, wake);
    AnswerAfterCall(s, t, p);
  }

  lemma AnswerAfterCall(s: State, t: State, p: nat)
    requires AnswerInv(s) && p < |s.producers| == |t.producers| && t.producers == s.producers[p := t.producers[p]]
    requires t.pool.shutdown == s.pool.shutdown && t.notEmpty <= s.notEmpty
    requires BeingRefused(t.producers[p].pc) ==> BeingRefused(s.producers[p].pc) || s.pool.shutdown
    requires var pc := s.producers[p].pc;
      && (pc == PBroadcast ==> t.notEmpty == {})
      && |t.log.accepted| == |s.log.accepted| + (if pc == PRear then 1 else 0)
      && Answered(t.producers[p]) == (Answered(s.producers[p]) || pc == PRear || pc == PBroadcast)
      && (Answered(s.producers[p]) ==> pc != PRear)
    ensures AnswerInv(t)
  {
    assert s.producers[p].pc == PBroadcast ==> s.pool.shutdown;
    WhereUpdate(s.producers, p, t.producers[p], Answered);
    var before, after := Where(s.producers, Answered), Where(t.producers, Answered);
    assert after == if Answered(t.producers[p]) then before + {p} else before - {p};
    if Answered(t.producers[p]) == Answered(s.producers[p]) {
      assert after == before;
    }
  }

  /** Other threads accept nothing. */
  lemma OthersAnswerNothing(c: Config, s: State, step: Step)
    requires Enabled(s, step) && !step.ProducerStep? && !step.Call?
    ensures var t := Next(c, s, step); t.producers == s.producers && t.log.accepted == s.log.accepted
  {
    match step
    case WorkerStep(w) => WorkerHandover(c, s, w); WorkerAccepts(c, s, w);
    case ManagerStep(alive, wake) => ManagerHandover(c, s, alive, wake); ManagerMoves(c, s, alive, wake);
    case Shutdown =>
    case StrayProducer(_) =>
    case StrayWorker(_) =>
  }

  lemma WorkerAccepts(c: Config, s: State, w: nat)
    requires w < |s.workers| && WorkerCan(s, w)
    ensures WorkerNext(c, s, w).log.accepted == s.log.accepted
  {
  }

  lemma ManagerMoves(c: Config, s: State, alive: bool, wake: set<nat>)
    requires ManagerCan(s, alive, wake)
    ensures var t := ManagerNext(c, s, alive, wake); t.log.accepted == s.log.accepted && t.log.taken == s.log.taken
  {
  }

  lemma AnswerKept(c: Config, s: State, step: Step)
    requires AnswerInv(s) && Enabled(s, step)
    ensures AnswerInv(Next(c, s, step))
  {
    if step.ProducerStep? {
      AnswerKeptByCall(c, s, step.p, step.wake);
    } else {
      ShutdownOnlyByRequest(c, s, step);
      if step.Call? {
        WhereAppend(s.producers, Producer(PLock, step.task), Answered);
      } else {
        OthersAnswerNothing(c, s, step);
      }
    }
  }

  lemma {:induction false} AnswerAlong(c: Config, s: State, steps: seq<Step>)
    requires AnswerInv(s) && Feasible(c, s, steps)
    ensures AnswerInv(Exec(c, s, steps))
    decreases |steps|
  {
    if steps != [] {
      AnswerKept(c, s, steps[0]);
      AnswerAlong(c, Next(c, s, steps[0]), steps[1..]);
    }
  }

  /** Before shutdown every call that has been answered has had its task accepted, and
      none is turned away; once one has been, no worker is blocked any more. */
  lemma CallsAnswered(c: Config, s: State)
    requires Reachable(c, s)
    ensures !s.pool.shutdown ==>
              && |s.log.accepted| == |Where(s.producers, Answered)|
              && forall p | 0 <= p < |s.producers| :: !BeingRefused(s.producers[p].pc)
    ensures |s.log.accepted| < |Where(s.producers, Answered)| ==> s.pool.shutdown && s.notEmpty == {}
  {
    var garbage, steps :| Reaches(c, garbage, steps, s);
    assert Where(Init(c, garbage).producers, Answered) == {};
    AnswerAlong(c, Init(c, garbage), steps);
  }

  // -------------------------------------------------------------- after shutdown

  predicate StoringOn(pc: ProducerPc) {
    pc.PClear? || pc.PFunc? || pc.PArg? || pc.PRear?
  }

  predicate TakingOn(pc: WorkerPc) {
    pc.WTake? || pc.WAdvance?
  }

  /** The owner of `lock` is past its test of shutdown, and short of moving an index. */
  function UnderWay(s: State): int {
    match s.lock
    case ByProducer(p) => if p < |s.producers| && StoringOn(s.producers[p].pc) then 1 else 0
    case ByWorker(w) => if w < |s.workers| && TakingOn(s.workers[w].pc) then 1 else 0
    case _ => 0
  }

  function Moved(s: State): int {
    |s.log.accepted| + |s.log.taken|
  }

  lemma CallMoves(c: Config, s: State, p: nat, wake: set<nat>)
    requires p < |s.producers| && ProducerCan(s, p, wake) && s.pool.shutdown
    requires PHolds(s.producers[p].pc) <==> s.lock == ByProducer(p)
    ensures var t := ProducerNext(c, s, p, wake); Moved(t) + UnderWay(t) <= Moved(s) + UnderWay(s)
  {
  }

  lemma WorkerMoves(c: Config, s: State, w: nat)
    requires w < |s.workers| && WorkerCan(s, w) && s.pool.shutdown
    requires WHolds(s.workers[w].pc) <==> s.lock == ByWorker(w)
    ensures var t := WorkerNext(c, s, w); Moved(t) + UnderWay(t) <= Moved(s) + UnderWay(s)
  {
  }

  lemma OthersMove(c: Config, s: State, step: Step)
    requires Enabled(s, step) && !step.ProducerStep? && !step.WorkerStep? && LockInv(s)
    ensures var t := Next(c, s, step); Moved(t) + UnderWay(t) <= Moved(s) + UnderWay(s)
  {
    match step
    case ManagerStep(alive, wake) => ManagerHandover(c, s, alive, wake); ManagerMoves(c, s, alive, wake);
    case Call(_) =>
    case Shutdown =>
    case StrayProducer(_) =>
    case StrayWorker(_) =>
  }

  lemma {:induction false} MovesAlong(c: Config, s: State, more: seq<Step>)
    requires Reachable(c, s) && s.pool.shutdown && Feasible(c, s, more)
    ensures var t := Exec(c, s, more);
      && Moved(t) + UnderWay(t) <= Moved(s) + UnderWay(s)
      && t.notFull <= s.notFull && t.notEmpty <= s.notEmpty && t.pool.shutdown
    decreases |more|
  {
    if more != [] {
      var t := Next(c, s, more[0]);
      InvAlways(c, s);
      match more[0] {
        case ProducerStep(p, wake) => CallMoves(c, s, p, wake);
        case WorkerStep(w) => WorkerMoves(c, s, w);
        case _ => OthersMove(c, s, more[0]);
      }
      ShutdownOnlyByRequest(c, s, more[0]);
      ReachableNext(c, s, more[0]);
      MovesAlong(c, t, more[1..]);
    }
  }

  /** Once shutdown is set the queue is given up: along every continuation at most one
      more task is accepted or taken, by a thread that had passed its test before;
      and no call and no worker blocks again. */
  lemma ShutdownGivesUpQueue(c: Config, s: State, more: seq<Step>)
    requires Reachable(c, s) && s.pool.shutdown && Feasible(c, s, more)
    ensures var t := Exec(c, s, more);
      && |t.log.accepted| + |t.log.taken| <= |s.log.accepted| + |s.log.taken| + 1
      && t.notFull <= s.notFull && t.notEmpty <= s.notEmpty
  {
    MovesAlong(c, s, more);
    NotNegative(Exec(c, s, more));
  }

  lemma NotNegative(s: State)
    ensures 0 <= UnderWay(s) <= 1
  {
  }

  // ---------------------------------------------------------------- winding down

  /** Statements that a worker has still to execute after shutdown, at most. */
  function WorkerLeft(pc: WorkerPc): nat {
    match pc
    case WTake => 18
    case WAdvance => 17
    case WDecSize => 16
    case WBroadcast => 15
    case WUnlock => 14
    case WCountLock => 13
    case WInc => 12
    case WCountUnlock => 11
    case WCall => 10
    case WRunning => 9
    case WCountLock2 => 8
    case WDec => 7
    case WCountUnlock2 => 6
    case WSleep => 9
    case WWoken => 8
    case WDecExit => 7
    case WCmpLive => 6
    case WLock => 5
    case WCheck => 4
    case WShut => 3
    case WLeaveUnlock => 2
    case WLeaveExit => 1
    case WLeft => 0
    case WDecLive => 3
    case WRetUnlock => 2
    case WRetExit => 1
    case WRetired => 0
  }

  lemma WorkerWindsDown(c: Config, s: State, w: nat)
    requires w < |s.workers| && WorkerCan(s, w) && s.pool.shutdown
    ensures var t := WorkerNext(c, s, w);
      |t.workers| == |s.workers| && WorkerLeft(t.workers[w].pc) < WorkerLeft(s.workers[w].pc)
  {
  }

  lemma OtherStepKeepsWorker(c: Config, s: State, step: Step, w: nat)
    requires Enabled(s, step) && w < |s.workers| && step != WorkerStep(w)
    ensures var t := Next(c, s, step); w < |t.workers| && t.workers[w] == s.workers[w]
  {
    match step
    case ProducerStep(p, wake) => ProducerHandover(c, s, p, wake);
    case WorkerStep(v) => WorkerHandover(c, s, v);
    case ManagerStep(alive, wake) => ManagerHandover(c, s, alive, wake);
    case Call(_) =>
    case Shutdown =>
    case StrayProducer(_) =>
    case StrayWorker(_) =>
  }

  /** After shutdown a worker executes at most eighteen more statements, in any
      schedule: it finishes the task in hand, if any, and leaves. */
  lemma {:induction false} WorkersWindDown(c: Config, s: State, more: seq<Step>, w: nat)
    requires Feasible(c, s, more) && s.pool.shutdown && w < |s.workers|
    ensures var t := Exec(c, s, more);
      w < |t.workers| && OwnSteps(more, w) + WorkerLeft(t.workers[w].pc) <= WorkerLeft(s.workers[w].pc) <= 18
    decreases |more|
  {
    if more != [] {
      var t := Next(c, s, more[0]);
      if more[0] == WorkerStep(w) {
        WorkerWindsDown(c, s, w);
      } else {
        OtherStepKeepsWorker(c, s, more[0], w);
      }
      ShutdownOnlyByRequest(c, s, more[0]);
      WorkersWindDown(c, t, more[1..], w);
    }
  }

  /** The same for a call. */
  function CallLeft(pc: ProducerPc): nat {
    match pc
    case PClear => 7
    case PFunc => 6
    case PArg => 5
    case PRear => 4
    case PSize => 3
    case PSignal => 2
    case PUnlock => 1
    case PLock => 5
    case PSleep => 5
    case PCheck => 4
    case PShut => 3
    case PBroadcast => 2
    case PQuit => 1
    case PReturned => 0
  }

  function CallSteps(steps: seq<Step>, p: nat): nat {
    if steps == [] then 0
    else (if steps[0].ProducerStep? && steps[0].p == p then 1 else 0) + CallSteps(steps[1..], p)
  }

  lemma CallWindsDown(c: Config, s: State, p: nat, wake: set<nat>)
    requires p < |s.producers| && ProducerCan(s, p, wake) && s.pool.shutdown
    ensures var t := ProducerNext(c, s, p, wake);
      |t.producers| == |s.producers| && CallLeft(t.producers[p].pc) < CallLeft(s.producers[p].pc)
  {
  }

  lemma OtherStepKeepsCall(c: Config, s: State, step: Step, p: nat)
    requires Enabled(s, step) && p < |s.producers| && !(step.ProducerStep? && step.p == p)
    ensures var t := Next(c, s, step); p < |t.producers| && t.producers[p] == s.producers[p]
  {
    match step
    case ProducerStep(q, wake) => ProducerHandover(c, s, q, wake);
    case WorkerStep(v) => WorkerHandover(c, s, v);
    case ManagerStep(alive, wake) => ManagerHandover(c, s, alive, wake);
    case Call(_) =>
    case Shutdown =>
    case StrayProducer(_) =>
    case StrayWorker(_) =>
  }

  lemma {:induction false} CallsWindDown(c: Config, s: State, more: seq<Step>, p: nat)
    requires Feasible(c, s, more) && s.pool.shutdown && p < |s.producers|
    ensures var t := Exec(c, s, more);
      p < |t.producers| && CallSteps(more, p) + CallLeft(t.producers[p].pc) <= CallLeft(s.producers[p].pc) <= 7
    decreases |more|
  {
    if more != [] {
      var t := Next(c, s, more[0]);
      if more[0].ProducerStep? && more[0].p == p {
        CallWindsDown(c, s, p, more[0].wake);
      } else {
        OtherStepKeepsCall(c, s, more[0], p);
      }
      ShutdownOnlyByRequest(c, s, more[0]);
      CallsWindDown(c, t, more[1..], p);
    }
  }

  /** The same for the manager, whose loops are bounded. */
  function ManagerLeft(c: Config, m: Manager): int {
    var turns := 6 * (if m.i < c.maxThr then c.maxThr - m.i else 0);
    match m.pc
    case MDone => 0
    case MTop => 1
    case MSignal => 2 + (if m.i < 10 then 10 - m.i else 0)
    case MUnlock4 => 13
    case MSetExit => 14
    case MLock4 => 15
    case MShrinkTest => 16
    case MUnlock3 => 17
    case MLoop => 18 + turns
    case MSlot => 17 + turns
    case MCreate => 16 + turns
    case MAdd => 15 + turns
    case MLive => 14 + turns
    case MNext => 13 + turns
    case MLock3 => 19 + 6 * c.maxThr
    case MGrowTest => 20 + 6 * c.maxThr
    case MUnlock2 => 21 + 6 * c.maxThr
    case MReadBusy => 22 + 6 * c.maxThr
    case MLock2 => 23 + 6 * c.maxThr
    case MUnlock1 => 24 + 6 * c.maxThr
    case MReadLive => 25 + 6 * c.maxThr
    case MReadSize => 26 + 6 * c.maxThr
    case MLock1 => 27 + 6 * c.maxThr
  }

  lemma ManagerWindsDown(c: Config, s: State, alive: bool, wake: set<nat>)
    requires ManagerCan(s, alive, wake) && s.pool.shutdown
    requires s.lock == ByManager ==> ManagerFacts(c, s)
    requires MHolds(s.mgr.pc) <==> s.lock == ByManager
    ensures 0 <= ManagerLeft(c, ManagerNext(c, s, alive, wake).mgr) < ManagerLeft(c, s.mgr)
  {
  }

  function ManagerSteps(steps: seq<Step>): nat {
    if steps == [] then 0 else (if steps[0].ManagerStep? then 1 else 0) + ManagerSteps(steps[1..])
  }

  lemma OtherStepKeepsManager(c: Config, s: State, step: Step)
    requires Enabled(s, step) && !step.ManagerStep?
    ensures Next(c, s, step).mgr == s.mgr
  {
    match step
    case ProducerStep(q, wake) => ProducerHandover(c, s, q, wake);
    case WorkerStep(v) => WorkerHandover(c, s, v);
    case Call(_) =>
    case Shutdown =>
    case StrayProducer(_) =>
    case StrayWorker(_) =>
  }

  lemma ManagerStepDown(c: Config, s: State, step: Step)
    requires Reachable(c, s) && s.pool.shutdown && Enabled(s, step)
    ensures var t := Next(c, s, step);
      if step.ManagerStep? then 0 <= ManagerLeft(c, t.mgr) < ManagerLeft(c, s.mgr) else t.mgr == s.mgr
  {
    if step.ManagerStep? {
      InvAlways(c, s);
      ManagerWindsDown(c, s, step.alive, step.wake);
    } else {
      OtherStepKeepsManager(c, s, step);
    }
  }

  lemma ManagerLeftBounded(c: Config, s: State)
    requires Reachable(c, s)
    ensures 0 <= ManagerLeft(c, s.mgr) <= 27 + 6 * c.maxThr
  {
    ManagerIndex(c, s);
    ManagerLeftAtMost(c, s.mgr);
  }

  lemma ManagerIndex(c: Config, s: State)
    requires Reachable(c, s)
    ensures Growing(s.mgr.pc) || s.mgr.pc.MSignal? ==> 0 <= s.mgr.i
  {
    InvAlways(c, s);
    PassesJustified(c, s);
  }

  lemma ManagerLeftAtMost(c: Config, m: Manager)
    requires Growing(m.pc) || m.pc.MSignal? ==> 0 <= m.i
    ensures 0 <= ManagerLeft(c, m) <= 27 + 6 * c.maxThr
  {
  }

  lemma {:induction false} ManagerStepsDown(c: Config, s: State, more: seq<Step>)
    requires Reachable(c, s) && Feasible(c, s, more) && s.pool.shutdown
    ensures ManagerSteps(more) + ManagerLeft(c, Exec(c, s, more).mgr) <= ManagerLeft(c, s.mgr)
    decreases |more|
  {
    if more != [] {
      ManagerStepDown(c, s, more[0]);
      ShutdownOnlyByRequest(c, s, more[0]);
      ReachableNext(c, s, more[0]);
      ManagerStepsDown(c, Next(c, s, more[0]), more[1..]);
    }
  }

  /** After shutdown the manager finishes its pass and ends. */
  lemma ManagerEnds(c: Config, s: State, more: seq<Step>)
    requires Reachable(c, s) && Feasible(c, s, more) && s.pool.shutdown
    ensures ManagerSteps(more) <= ManagerLeft(c, s.mgr) <= 27 + 6 * c.maxThr
  {
    ManagerStepsDown(c, s, more);
    ManagerLeftBounded(c, s);
    ManagerLeftNat(c, Exec(c, s, more).mgr);
  }

  lemma ManagerLeftNat(c: Config, m: Manager)
    ensures ManagerLeft(c, m) >= 0
  {
  }
}
