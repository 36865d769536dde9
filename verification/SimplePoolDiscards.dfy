/** Tickets of the simple pool that are popped and never run: which, how many, and
    exactly when. */
module SimplePoolDiscards {
  import opened Counting
  import opened SimplePool
  import opened SimplePoolCycles
  import opened SimplePoolInvariants
  import opened SimplePoolShutdown
  import opened SimplePoolTheorems

  lemma ReachableOn(c: Config, s: State, more: seq<Step>)
    requires Reachable(c, s) && Feasible(c, s, more)
    ensures Reachable(c, Exec(c, s, more))
  {
    var garbage, steps :| Reaches(c, garbage, steps, s);
    ExecAppend(c, Init(c, garbage), steps, more);
    assert Reaches(c, garbage, steps + more, Exec(c, s, more));
  }

  // ------------------------------------------------------------- will ticket k run?

  /** Past the test of `shutdown` on line 40, with the task still to be run. */
  predicate PastTest(pc: WorkerPc) {
    pc.WUnlock? || pc.WCall? || pc.WRunning?
  }

  /** Can the worker that popped a ticket still come to run it? */
  predicate MayRun(me: Worker, shutdown: bool) {
    PastTest(me.pc) || (!shutdown && !Quitting(me.pc))
  }

  /** Ticket `k` is in hand for good. */
  predicate Lost(s: State, w: nat, k: int) {
    HoldsTicket(s, w, k) && !MayRun(s.workers[w], s.pool.shutdown)
  }

  lemma LostByItsOwner(c: Config, s: State, w: nat, k: int, wake: set<nat>)
    requires Lost(s, w, k) && HandOk(s.workers[w], s.pool.shutdown) && WorkerCan(s, w, wake)
    ensures Lost(WorkerNext(c, s, w, wake), w, k)
  {
  }

  lemma LostKept(c: Config, s: State, step: Step, w: nat, k: int)
    requires Lost(s, w, k) && CopyInv(s) && Enabled(s, step)
    ensures Lost(Next(c, s, step), w, k)
  {
    if step.WorkerStep? && step.w == w {
      LostByItsOwner(c, s, w, k, step.wake);
    } else {
      OtherStepKeepsWorker(c, s, step, w);
    }
  }

  lemma {:induction false} LostForEver(c: Config, s: State, more: seq<Step>, w: nat, k: int)
    requires Reachable(c, s) && Lost(s, w, k) && Feasible(c, s, more)
    ensures Lost(Exec(c, s, more), w, k)
    decreases |more|
  {
    if more != [] {
      var t := Next(c, s, more[0]);
      InvAlways(c, s);
      LostKept(c, s, more[0], w, k);
      ExecCons(c, s, more[0], [], t);
      ReachableOn(c, s, [more[0]] + []);
      LostForEver(c, t, more[1..], w, k);
    }
  }

  /** Statements between a worker with a ticket in hand and the end of its run. */
  function StepsLeft(pc: WorkerPc): nat {
    match pc
    case WCopy => 8
    case WOwn => 7
    case WDec => 6
    case WSignal => 5
    case WShut => 4
    case WUnlock => 3
    case WCall => 2
    case WRunning => 1
    case _ => 0
  }

  lemma HolderMoves(c: Config, s: State, w: nat, k: int)
    requires HoldsTicket(s, w, k) && MayRun(s.workers[w], s.pool.shutdown)
    requires HandOk(s.workers[w], s.pool.shutdown)
    ensures WorkerCan(s, w, s.notFull)
    ensures var t := WorkerNext(c, s, w, s.notFull);
      && |t.workers| == |s.workers| && StepsLeft(t.workers[w].pc) < StepsLeft(s.workers[w].pc)
      && (if s.workers[w].pc.WRunning? then t.workers[w].hand.Nothing? && t.poppers == s.poppers
          else HoldsTicket(t, w, k) && MayRun(t.workers[w], t.pool.shutdown))
  {
  }

  lemma {:induction false} RunsToTheEnd(c: Config, s: State, w: nat, k: nat) returns (more: seq<Step>)
    requires Reachable(c, s) && HoldsTicket(s, w, k) && MayRun(s.workers[w], s.pool.shutdown)
    ensures Feasible(c, s, more) && Exec(c, s, more).ran[FIRST_NUM + k] == 1
    decreases StepsLeft(s.workers[w].pc)
  {
    var step := WorkerStep(w, s.notFull);
    InvAlways(c, s);
    HolderMoves(c, s, w, k);
    var t := Next(c, s, step);
    ExecCons(c, s, step, [], t);
    ReachableOn(c, s, [step] + []);
    var rest := [];
    if s.workers[w].pc.WRunning? {
      TicketsRunAtMostOnce(c, t, k);
    } else {
      rest := RunsToTheEnd(c, t, w, k);
    }
    ExecCons(c, s, step, rest, t);
    more := [step] + rest;
  }

  ghost predicate CanRun(c: Config, s: State, k: int) {
    exists more :: Feasible(c, s, more) && Exec(c, s, more).ran[FIRST_NUM + k] == 1
  }

  /** A popped ticket that has not been run yet can be run in some continuation if
      and only if its popper is past the test on line 40, or shutdown has not begun
      and the popper is not quitting. */
  lemma TicketRunsIff(c: Config, s: State, k: nat)
    requires Reachable(c, s) && k < s.pool.jobPop
    ensures k < |s.poppers| && s.poppers[k] < |s.workers|
    ensures HoldsTicket(s, s.poppers[k], k) ==>
              (CanRun(c, s, k) <==> MayRun(s.workers[s.poppers[k]], s.pool.shutdown))
    ensures !HoldsTicket(s, s.poppers[k], k) ==> s.ran[FIRST_NUM + k] == 1
  {
    InvAlways(c, s);
    var w := s.poppers[k];
    if HoldsTicket(s, w, k) {
      if MayRun(s.workers[w], s.pool.shutdown) {
        var more := RunsToTheEnd(c, s, w, k);
      } else {
        forall more | Feasible(c, s, more)
          ensures Exec(c, s, more).ran[FIRST_NUM + k] == 0
        {
          LostForEver(c, s, more, w, k);
          ReachableOn(c, s, more);
          HeldNotRun(c, Exec(c, s, more), w, k);
        }
      }
    }
  }

  lemma HeldNotRun(c: Config, s: State, w: nat, k: nat)
    requires Reachable(c, s) && HoldsTicket(s, w, k)
    ensures s.ran[FIRST_NUM + k] == 0
  {
    InvAlways(c, s);
  }

  /** The popped tickets that are in hand for good. */
  ghost function LostTickets(s: State): set<nat> {
    set k: nat | k < |s.poppers| && Lost(s, s.poppers[k], k)
  }

  /** They are exactly the popped tickets that have not been run and never will be;
      they appear only after shutdown has begun, and there are no more of them than
      there are workers. */
  lemma LostBounded(c: Config, s: State)
    requires Reachable(c, s)
    ensures |LostTickets(s)| <= c.thrNum
    ensures LostTickets(s) != {} ==> s.pool.shutdown
    ensures forall k: nat | k < s.pool.jobPop ::
              k in LostTickets(s) <==> s.ran[FIRST_NUM + k] == 0 && !CanRun(c, s, k)
  {
    InvAlways(c, s);
    var popper := map k | k in LostTickets(s) :: s.poppers[k];
    SlotBound(LostTickets(s), popper, c.thrNum);
    forall k: nat | k < s.pool.jobPop
      ensures k in LostTickets(s) <==> s.ran[FIRST_NUM + k] == 0 && !CanRun(c, s, k)
    {
      TicketRunsIff(c, s, k);
      if HoldsTicket(s, s.poppers[k], k) {
        HeldNotRun(c, s, s.poppers[k], k);
      }
    }
    if k :| k in LostTickets(s) {
      LostAfterShutdown(s, s.poppers[k], k);
    }
  }

  lemma LostAfterShutdown(s: State, w: nat, k: int)
    requires Lost(s, w, k) && CopyInv(s)
    ensures s.pool.shutdown
  {
  }

  // ------------------------------------------------------------------- discards

  /** A worker that quits with a ticket in its hand discards it. */
  predicate Discards(me: Worker) {
    Quitting(me.pc) && me.hand.Ticket?
  }

  /** The one statement that discards: the test on line 40, with a ticket in hand
      and shutdown begun. */
  lemma DiscardsExactlyAtTest(c: Config, s: State, w: nat, wake: set<nat>)
    requires w < |s.workers| && WorkerCan(s, w, wake) && !Discards(s.workers[w])
    ensures var t := WorkerNext(c, s, w, wake);
      && |t.workers| == |s.workers|
      && (Discards(t.workers[w]) <==> s.workers[w].pc.WShut? && s.workers[w].hand.Ticket? && s.pool.shutdown)
  {
  }

  predicate IsDiscarded(s: State, k: nat) {
    && k < |s.poppers| && s.poppers[k] < |s.workers|
    && HoldsTicket(s, s.poppers[k], k) && Quitting(s.workers[s.poppers[k]].pc)
  }

  ghost function Discarded(s: State): set<nat> {
    set k: nat | k < |s.poppers| && IsDiscarded(s, k)
  }

  /** Tickets are discarded only after shutdown has begun, no more of them than there
      are workers, and none of them is ever run. */
  lemma DiscardsBounded(c: Config, s: State)
    requires Reachable(c, s)
    ensures Discarded(s) <= LostTickets(s) && |Discarded(s)| <= c.thrNum
    ensures Discarded(s) != {} ==> s.pool.shutdown
    ensures forall k | k in Discarded(s) :: s.ran[FIRST_NUM + k] == 0 && !CanRun(c, s, k)
  {
    LostBounded(c, s);
    DiscardedAreLost(c, s);
    SubsetCard(Discarded(s), LostTickets(s));
  }

  lemma DiscardedAreLost(c: Config, s: State)
    requires Reachable(c, s)
    ensures Discarded(s) <= LostTickets(s) && |s.poppers| == s.pool.jobPop
  {
    InvAlways(c, s);
    forall k | k in Discarded(s)
      ensures k in LostTickets(s)
    {
      QuittersAfterShutdown(s, s.poppers[k]);
    }
  }

  lemma QuittersAfterShutdown(s: State, w: nat)
    requires CopyInv(s) && w < |s.workers| && Quitting(s.workers[w].pc)
    ensures s.pool.shutdown && !PastTest(s.workers[w].pc)
  {
  }

  // ------------------------------------------------------------- a run that discards

  lemma ReachableAlong(c: Config, s: State, step: Step, n: nat, t: State)
    requires Reachable(c, s) && Goes(c, s, step, n, t)
    ensures Reachable(c, t)
  {
    ReachableOn(c, s, Repeat(step, n));
  }

  lemma InitReachable(c: Config, garbage: seq<PoolTask>) returns (s: State)
    requires ValidConfig(c) && |garbage| == c.maxJobs
    ensures s == Init(c, garbage) && Reachable(c, s)
  {
    s := Init(c, garbage);
    assert Feasible(c, s, []);
    assert Reaches(c, garbage, [], s);
  }

  lemma TicketZeroDiscarded(c: Config, t: State)
    requires Reachable(c, t) && |t.workers| > 0 && t.workers[0].pc.WGone? && t.workers[0].hand == Ticket(0)
    ensures 0 in Discarded(t) && t.ran[FIRST_NUM] == 0 && !CanRun(c, t, 0)
  {
    InvAlways(c, t);
    assert HoldsTicket(t, 0, 0) && IsDiscarded(t, 0);
    DiscardsBounded(c, t);
  }

  /** Discards happen, whatever the size of the pool: one call, one pop, and shutdown
      before line 40. */
  lemma DiscardReachable(c: Config, garbage: seq<PoolTask>) returns (t: State)
    requires ValidConfig(c) && c.thrNum >= 1 && |garbage| == c.maxJobs
    ensures Reachable(c, t) && t.workers != [] && t.workers[0].pc.WGone? && t.workers[0].hand == Ticket(0)
    ensures 0 in Discarded(t) && t.ran[1000] == 0 && !CanRun(c, t, 0)
  {
    var s := InitReachable(c, garbage);
    var a := Goes1(c, s, Call);
    ReachableAlong(c, s, Call, 1, a);
    var b := CallAdds(c, a, 0, {});
    ReachableAlong(c, a, ProducerStep(0, {}), 9, b);
    var d := WorkerPops(c, b, 0, {});
    ReachableAlong(c, b, WorkerStep(0, {}), 8, d);
    var e := Goes1(c, d, Shutdown);
    ReachableAlong(c, d, Shutdown, 1, e);
    t := Quit(c, e, 0, {});
    ReachableAlong(c, e, WorkerStep(0, {}), 3, t);
    TicketZeroDiscarded(c, t);
  }
}
