/** A pass of the manager of the dynamic pool (adjust_thread) that no other thread
    interferes with, statement by statement. */
module DynamicPoolManager {
  import opened Counting
  import opened TaskRing
  import opened DynamicPool

  /** Can a thread be created in a slot, when exactly the threads in `dead` fail
      the test of `is_thread_alive`? */
  predicate Vacant(s: Slot, dead: set<nat>) {
    s.Empty? || s.w in dead
  }

  function Created(pool: Pool, i: nat, w: nat): Pool
    requires i < |pool.threads|
  {
    pool.(threads := pool.threads[i := Tid(w)], live := pool.live + 1)
  }

  /** The pool after a grow pass from slot `i` on, with `add` threads created before;
      new threads get the identifiers from `next` on. */
  function Grown(pool: Pool, i: nat, add: int, next: nat, dead: set<nat>): Pool
    decreases |pool.threads| - i
  {
    if i < |pool.threads| && add < DEFAULT_THREAD_VARY && pool.live < |pool.threads| then
      if Vacant(pool.threads[i], dead)
      then Grown(Created(pool, i, next), i + 1, add + 1, next + 1, dead)
      else Grown(pool, i + 1, add, next, dead)
    else pool
  }

  /** One turn of the pass. */
  lemma GrownStep(pool: Pool, i: nat, add: int, next: nat, dead: set<nat>)
    requires i < |pool.threads| && add < DEFAULT_THREAD_VARY && pool.live < |pool.threads|
    ensures Grown(pool, i, add, next, dead) ==
            if Vacant(pool.threads[i], dead)
            then Grown(Created(pool, i, next), i + 1, add + 1, next + 1, dead)
            else Grown(pool, i + 1, add, next, dead)
  {
  }

  /** The manager alone gets from `s` to `t`. */
  ghost predicate ManagerLeads(c: Config, s: State, t: State) {
    exists steps :: ManagerRun(c, s, steps, t)
  }

  ghost predicate ManagerRun(c: Config, s: State, steps: seq<Step>, t: State) {
    && (forall i | 0 <= i < |steps| :: steps[i].ManagerStep?)
    && Feasible(c, s, steps) && Exec(c, s, steps) == t
  }

  lemma ManagerStays(c: Config, s: State)
    ensures ManagerLeads(c, s, s)
  {
    assert ManagerRun(c, s, [], s);
  }

  lemma ManagerGoes(c: Config, s: State, alive: bool, wake: set<nat>, t: State)
    requires ManagerCan(s, alive, wake) && ManagerLeads(c, ManagerNext(c, s, alive, wake), t)
    ensures ManagerLeads(c, s, t)
  {
    var step := ManagerStep(alive, wake);
    var next := Next(c, s, step);
    var rest :| ManagerRun(c, next, rest, t);
    ExecCons(c, s, step, rest, next);
    assert ManagerRun(c, s, [step] + rest, t);
  }

  lemma ManagerLeadsOn(c: Config, s: State, t: State, u: State)
    requires ManagerLeads(c, s, t) && ManagerLeads(c, t, u)
    ensures ManagerLeads(c, s, u)
  {
    var xs :| ManagerRun(c, s, xs, t);
    var ys :| ManagerRun(c, t, ys, u);
    ExecAppend(c, s, xs, ys);
    assert ManagerRun(c, s, xs + ys, u);
  }

  lemma Manager2(c: Config, s: State) returns (t: State)
    requires ManagerCan(s, true, {}) && ManagerCan(ManagerNext(c, s, true, {}), true, {})
    ensures t == ManagerNext(c, ManagerNext(c, s, true, {}), true, {}) && ManagerLeads(c, s, t)
  {
    var a := ManagerNext(c, s, true, {});
    t := ManagerNext(c, a, true, {});
    ManagerStays(c, t);
    ManagerGoes(c, a, true, {}, t);
    ManagerGoes(c, s, true, {}, t);
  }

  // ------------------------------------------------------------------ the snapshot

  lemma ReadQueue(c: Config, s: State) returns (t: State)
    requires s.mgr.pc == MTop && !s.pool.shutdown && s.lock == Free
    ensures ManagerLeads(c, s, t)
    ensures t == s.(mgr := s.mgr.(pc := MLock2, size := s.pool.ring.size, live := s.pool.live))
  {
    var a := Manager2(c, s);
    assert a == s.(lock := ByManager, mgr := s.mgr.(pc := MReadSize));
    var b := Manager2(c, a);
    t := ManagerNext(c, b, true, {});
    ManagerStays(c, t);
    ManagerGoes(c, b, true, {}, t);
    ManagerLeadsOn(c, s, a, b);
    ManagerLeadsOn(c, s, b, t);
  }

  lemma ReadBusy(c: Config, s: State) returns (t: State)
    requires s.mgr.pc == MLock2 && s.counter == Free
    ensures ManagerLeads(c, s, t)
    ensures t == s.(mgr := s.mgr.(pc := MGrowTest, busy := s.pool.busy))
  {
    var a := Manager2(c, s);
    t := ManagerNext(c, a, true, {});
    ManagerStays(c, t);
    ManagerGoes(c, a, true, {}, t);
    ManagerLeadsOn(c, s, a, t);
  }

  /** Lines 251-263: the manager reads its three numbers, one lock at a time. */
  lemma Snapshot(c: Config, s: State) returns (t: State)
    requires s.mgr.pc == MTop && !s.pool.shutdown && s.lock == Free && s.counter == Free
    ensures ManagerLeads(c, s, t)
    ensures t == s.(mgr := s.mgr.(pc := MGrowTest, size := s.pool.ring.size, live := s.pool.live, busy := s.pool.busy))
  {
    var a := ReadQueue(c, s);
    t := ReadBusy(c, a);
    ManagerLeadsOn(c, s, a, t);
  }

  // --------------------------------------------------------------------- growing

  /** Workers have been added, as many as `live_thr_num` says, and none has moved. */
  ghost predicate Hired(s: State, t: State) {
    && s.workers <= t.workers
    && |t.workers| - |s.workers| == t.pool.live - s.pool.live
    && forall w | |s.workers| <= w < |t.workers| :: t.workers[w].pc == WLock
  }

  /** The state after one turn of the loop of a grow pass. */
  function AfterTurn(s: State, dead: set<nat>): State
    requires 0 <= s.mgr.i < |s.pool.threads|
  {
    if Vacant(s.pool.threads[s.mgr.i], dead) then
      s.(mgr := s.mgr.(pc := MLoop, i := s.mgr.i + 1, add := s.mgr.add + 1),
         pool := Created(s.pool, s.mgr.i, |s.workers|),
         workers := s.workers + [Worker(WLock, s.mgr.i, NO_TASK, 0)])
    else
      s.(mgr := s.mgr.(pc := MLoop, i := s.mgr.i + 1))
  }

  /** From line 277 on, and from line 273 on. */
  lemma FillSlot(c: Config, s: State, dead: set<nat>, t: State)
    requires s.mgr.pc == MCreate && 0 <= s.mgr.i < |s.pool.threads|
    requires Vacant(s.pool.threads[s.mgr.i], dead) && ManagerLeads(c, AfterTurn(s, dead), t)
    ensures ManagerLeads(c, s, t)
  {
    var a := ManagerNext(c, s, true, {});
    var b := ManagerNext(c, a, true, {});
    var d := ManagerNext(c, b, true, {});
    ManagerGoes(c, d, true, {}, t);
    ManagerGoes(c, b, true, {}, t);
    ManagerGoes(c, a, true, {}, t);
    ManagerGoes(c, s, true, {}, t);
  }

  predicate LoopGoesOn(c: Config, s: State) {
    s.mgr.i < c.maxThr && s.mgr.add < DEFAULT_THREAD_VARY && s.pool.live < c.maxThr
  }

  lemma OneTurn(c: Config, s: State, dead: set<nat>, t: State)
    requires s.mgr.pc == MLoop && 0 <= s.mgr.i < |s.pool.threads| == c.maxThr && LoopGoesOn(c, s)
    requires forall d | d in dead :: Exited(s, d)
    requires ManagerLeads(c, AfterTurn(s, dead), t)
    ensures ManagerLeads(c, s, t)
  {
    var slot := s.pool.threads[s.mgr.i];
    var alive := !(slot.Tid? && slot.w in dead);
    var a := ManagerNext(c, s, true, {});
    var b := ManagerNext(c, a, alive, {});
    assert b == s.(mgr := s.mgr.(pc := if Vacant(slot, dead) then MCreate else MNext));
    if Vacant(slot, dead) {
      FillSlot(c, b, dead, t);
    } else {
      ManagerGoes(c, b, true, {}, t);
    }
    ManagerGoes(c, a, alive, {}, t);
    ManagerGoes(c, s, true, {}, t);
  }

  /** Lines 272-281, step by step in the transition system: if exactly the threads in
      `dead`, exited ones, fail the test of `is_thread_alive`, the manager's own
      statements change the pool as `Grown` says. */
  lemma {:induction false} GrowSteps(c: Config, s: State, dead: set<nat>)
      returns (t: State)
    requires s.mgr.pc == MLoop && 0 <= s.mgr.i && |s.pool.threads| == c.maxThr
    requires forall d | d in dead :: Exited(s, d)
    ensures ManagerLeads(c, s, t) && t.mgr.pc == MUnlock3
    ensures t.pool == Grown(s.pool, s.mgr.i, s.mgr.add, |s.workers|, dead)
    ensures t == s.(mgr := t.mgr, pool := t.pool, workers := t.workers) && Hired(s, t)
    ensures t.mgr.size == s.mgr.size && t.mgr.live == s.mgr.live && t.mgr.busy == s.mgr.busy
    decreases c.maxThr - s.mgr.i
  {
    if LoopGoesOn(c, s) {
      GrownStep(s.pool, s.mgr.i, s.mgr.add, |s.workers|, dead);
      t := GrowSteps(c, AfterTurn(s, dead), dead);
      OneTurn(c, s, dead, t);
    } else {
      t := ManagerNext(c, s, true, {});
      ManagerStays(c, t);
      ManagerGoes(c, s, true, {}, t);
    }
  }

  /** Lines 266-284. */
  lemma GrowPart(c: Config, s: State, dead: set<nat>) returns (t: State)
    requires s.mgr.pc == MGrowTest && s.lock == Free && |s.pool.threads| == c.maxThr
    requires forall d | d in dead :: Exited(s, d)
    ensures ManagerLeads(c, s, t) && t.mgr.pc == MShrinkTest
    ensures t == s.(mgr := t.mgr, pool := t.pool, workers := t.workers) && Hired(s, t)
    ensures t.mgr.live == s.mgr.live && t.mgr.busy == s.mgr.busy
    ensures t.pool == if s.mgr.size >= 10 && s.mgr.live < c.maxThr
                      then Grown(s.pool, 0, 0, |s.workers|, dead) else s.pool
  {
    if s.mgr.size >= 10 && s.mgr.live < c.maxThr {
      var a := Manager2(c, s);
      assert a == s.(lock := ByManager, mgr := a.mgr) && a.mgr.pc == MLoop && a.mgr.i == 0 && a.mgr.add == 0;
      var b := GrowSteps(c, a, dead);
      ManagerLeadsOn(c, s, a, b);
      t := ManagerNext(c, b, true, {});
      ManagerStays(c, t);
      ManagerGoes(c, b, true, {}, t);
      ManagerLeadsOn(c, s, b, t);
    } else {
      t := ManagerNext(c, s, true, {});
      ManagerStays(c, t);
      ManagerGoes(c, s, true, {}, t);
    }
  }

  // -------------------------------------------------------------------- shrinking

  /** Lines 294-298, the blocked workers all woken by the first signal. */
  lemma {:induction false} SendSignals(c: Config, s: State) returns (t: State)
    requires s.mgr.pc == MSignal && s.mgr.i <= 10
    ensures ManagerLeads(c, s, t) && t.mgr.pc == MTop
    ensures t == s.(mgr := t.mgr, notEmpty := t.notEmpty)
    ensures s.notEmpty == {} ==> t.notEmpty == {}
    decreases 10 - s.mgr.i
  {
    var a := ManagerNext(c, s, true, s.notEmpty);
    if s.mgr.i == 10 {
      t := a;
      ManagerStays(c, t);
    } else {
      t := SendSignals(c, a);
    }
    ManagerGoes(c, s, true, s.notEmpty, t);
  }

  lemma ClaimExits(c: Config, s: State) returns (t: State)
    requires s.mgr.pc == MShrinkTest && s.lock == Free
    requires s.mgr.busy * 2 < s.mgr.live && s.mgr.live > c.minThr
    ensures ManagerLeads(c, s, t) && t.mgr.pc == MSignal && t.mgr.i == 0
    ensures t == s.(mgr := t.mgr, pool := s.pool.(waitExit := 10), log := s.log.(shrinks := s.log.shrinks + 1))
  {
    var a := Manager2(c, s);
    assert a.mgr.pc == MSetExit && a == s.(lock := ByManager, mgr := a.mgr);
    t := Manager2(c, a);
    ManagerLeadsOn(c, s, a, t);
  }

  /** Lines 287-299. */
  lemma ShrinkPart(c: Config, s: State) returns (t: State)
    requires s.mgr.pc == MShrinkTest && s.lock == Free
    ensures ManagerLeads(c, s, t) && t.mgr.pc == MTop
    ensures t.workers == s.workers && t.lock == Free && t.counter == s.counter && t.producers == s.producers
    ensures s.notEmpty == {} ==> t.notEmpty == {}
    ensures t.log == if s.mgr.busy * 2 < s.mgr.live && s.mgr.live > c.minThr
                     then s.log.(shrinks := s.log.shrinks + 1) else s.log
    ensures t.pool == if s.mgr.busy * 2 < s.mgr.live && s.mgr.live > c.minThr then s.pool.(waitExit := 10) else s.pool
  {
    if s.mgr.busy * 2 < s.mgr.live && s.mgr.live > c.minThr {
      var a := ClaimExits(c, s);
      t := SendSignals(c, a);
      ManagerLeadsOn(c, s, a, t);
    } else {
      t := ManagerNext(c, s, true, {});
      ManagerStays(c, t);
      ManagerGoes(c, s, true, {}, t);
    }
  }

  /** Lines 251-300: a whole pass. It grows the pool if and only if ten tasks or more
      are queued and fewer than the maximum live, and claims ten exits if and only
      if fewer than half of the live threads, more than the minimum, are busy. */
  lemma UndisturbedPass(c: Config, s: State, dead: set<nat>) returns (t: State)
    requires s.mgr.pc == MTop && !s.pool.shutdown && s.lock == Free && s.counter == Free
    requires |s.pool.threads| == c.maxThr && forall d | d in dead :: Exited(s, d)
    ensures ManagerLeads(c, s, t) && t.mgr.pc == MTop
    ensures t.lock == Free && t.counter == Free && t.producers == s.producers && Hired(s, t)
    ensures s.notEmpty == {} ==> t.notEmpty == {}
    ensures var grown :=
        if s.pool.ring.size >= 10 && s.pool.live < c.maxThr then Grown(s.pool, 0, 0, |s.workers|, dead) else s.pool;
      t.pool == if s.pool.busy * 2 < s.pool.live && s.pool.live > c.minThr then grown.(waitExit := 10) else grown
  {
    var a := Snapshot(c, s);
    var b := GrowPart(c, a, dead);
    ManagerLeadsOn(c, s, a, b);
    t := ShrinkPart(c, b);
    ManagerLeadsOn(c, s, b, t);
  }

  /** The ten signals of a shrink pass wake ten blocked workers at least, or all. */
  lemma {:induction false} SignalsWake(c: Config, s: State, steps: seq<Step>)
    requires s.mgr.pc == MSignal && 0 <= s.mgr.i <= 10 && |steps| == 11 - s.mgr.i
    requires (forall i | 0 <= i < |steps| :: steps[i].ManagerStep?) && Feasible(c, s, steps)
    ensures var t := Exec(c, s, steps);
      t.mgr.pc == MTop && (t.notEmpty == {} || |t.notEmpty| + 10 - s.mgr.i <= |s.notEmpty|)
    decreases |steps|
  {
    var t := Next(c, s, steps[0]);
    if s.mgr.i == 10 {
      assert steps[1..] == [];
    } else {
      SignalWakesOne(s, t, steps[0].wake);
      SignalsWake(c, t, steps[1..]);
    }
  }

  lemma SignalWakesOne(s: State, t: State, wake: set<nat>)
    requires GoodWake(s.notEmpty, wake) && t.notEmpty == s.notEmpty - wake
    ensures s.notEmpty == {} ==> t.notEmpty == {}
    ensures s.notEmpty != {} ==> |t.notEmpty| + 1 <= |s.notEmpty|
  {
    if x :| x in wake {
      assert t.notEmpty <= s.notEmpty - {x};
      SubsetCard(t.notEmpty, s.notEmpty - {x});
    }
  }
}
