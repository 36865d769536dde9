/** The two-process ping-pong by signals of pipe/signal.c (func1, func2 and
    testSigchld2), from the moment both handlers are installed. A handler may run
    between any two statements of its process's main loop. */
module PingPong {

  datatype Id = Parent | Child

  function Other(i: Id): Id {
    if i == Parent then Child else Parent
  }

  datatype MainPc =
    | MTest // 209, 221
    | MKill // 211, 222
    | MSet  // 212, 223

  datatype HandlerPc =
    | HNone
    | HPrint // 182, 189
    | HAdd   // 183, 190
    | HClear // 184, 191
    | HSleep // 185, 192, and the return

  /** `pending`: the other process's signal has been sent and not delivered; a
      second one would be merged into it. */
  datatype Proc = Proc(num: int, flag: int, main: MainPc, handler: HandlerPc, pending: bool)

  datatype Line = Line(printer: Id, num: int)

  datatype State = State(parent: Proc, child: Proc, printed: seq<Line>)

  datatype Step = Main(i: Id) | Deliver(i: Id) | Handler(i: Id)

  function Init(): State {
    State(Proc(0, 1, MTest, HNone, false), Proc(1, 0, MTest, HNone, false), [])
  }

  function At(s: State, i: Id): Proc {
    if i == Parent then s.parent else s.child
  }

  function Put(s: State, i: Id, p: Proc): State {
    if i == Parent then s.(parent := p) else s.(child := p)
  }

  /** The main loop is suspended while its handler runs, and the signal is blocked. */
  predicate Enabled(s: State, step: Step) {
    match step
    case Main(i) => At(s, i).handler == HNone
    case Deliver(i) => At(s, i).handler == HNone && At(s, i).pending
    case Handler(i) => At(s, i).handler != HNone
  }

  function MainNext(s: State, i: Id): State {
    var p, o := At(s, i), Other(i);
    match p.main
    case MTest => Put(s, i, p.(main := if p.flag == 0 then MKill else MTest))
    case MKill => Put(Put(s, i, p.(main := MSet)), o, At(s, o).(pending := true))
    case MSet => Put(s, i, p.(flag := 1, main := MTest))
  }

  function HandlerNext(s: State, i: Id): State {
    var p := At(s, i);
    match p.handler
    case HNone => s
    case HPrint => Put(s, i, p.(handler := HAdd)).(printed := s.printed + [Line(i, p.num)])
    case HAdd => Put(s, i, p.(num := p.num + 2, handler := HClear))
    case HClear => Put(s, i, p.(flag := 0, handler := HSleep))
    case HSleep => Put(s, i, p.(handler := HNone))
  }

  function Next(s: State, step: Step): State
    requires Enabled(s, step)
  {
    match step
    case Main(i) => MainNext(s, i)
    case Deliver(i) => Put(s, i, At(s, i).(handler := HPrint, pending := false))
    case Handler(i) => HandlerNext(s, i)
  }

  predicate Feasible(s: State, steps: seq<Step>)
    decreases |steps|
  {
    steps == [] || (Enabled(s, steps[0]) && Feasible(Next(s, steps[0]), steps[1..]))
  }

  function Exec(s: State, steps: seq<Step>): State
    requires Feasible(s, steps)
    decreases |steps|
  {
    if steps == [] then s else Exec(Next(s, steps[0]), steps[1..])
  }

  // ------------------------------------------------------------- where the turn is

  predicate Between(p: Proc) {
    p.handler == HNone || p.handler == HSleep
  }

  /** The main loop has nothing to send. */
  predicate Passive(p: Proc) {
    p.main == MSet || (p.main == MTest && p.flag != 0)
  }

  predicate Quiet(p: Proc) {
    Between(p) && Passive(p) && !p.pending
  }

  /** The turn is a signal on its way. */
  predicate Coming(p: Proc) {
    Between(p) && Passive(p) && p.pending
  }

  /** The turn is in a handler that has not set its flag yet. */
  predicate Handling(p: Proc) {
    !Between(p) && Passive(p) && !p.pending
  }

  /** The turn is a zero flag that the main loop will see. */
  predicate Holding(p: Proc) {
    Between(p) && p.main != MSet && p.flag == 0 && !p.pending
  }

  predicate HasTurn(p: Proc) {
    Coming(p) || Handling(p) || Holding(p)
  }

  /** What `p` and the other process count when `p` has the turn and `n` numbers
      have been printed. */
  predicate Counts(p: Proc, other: Proc, n: int) {
    if Coming(p) || p.handler == HPrint then p.num == n && other.num == n + 1
    else if p.handler == HAdd then p.num == n - 1 && other.num == n
    else p.num == n + 1 && other.num == n
  }

  predicate Turn(s: State, i: Id) {
    HasTurn(At(s, i)) && Quiet(At(s, Other(i))) && Counts(At(s, i), At(s, Other(i)), |s.printed|)
  }

  /** Nobody has the turn. */
  predicate Stalled(s: State) {
    Quiet(s.parent) && Quiet(s.child)
  }

  function Owner(n: int): Id {
    if n % 2 == 0 then Parent else Child
  }

  ghost predicate CountsUp(printed: seq<Line>) {
    forall k | 0 <= k < |printed| :: printed[k] == Line(Owner(k), k)
  }

  ghost predicate Inv(s: State) {
    && CountsUp(s.printed)
    && Owner(s.parent.num) == Parent && Owner(s.child.num) == Child
    && (Turn(s, Parent) || Turn(s, Child) || Stalled(s))
  }

  lemma InvKeptByMain(s: State, i: Id)
    requires Inv(s) && Enabled(s, Main(i))
    ensures Inv(Next(s, Main(i)))
  {
    assert Next(s, Main(i)).printed == s.printed;
  }

  lemma InvKeptByHandler(s: State, i: Id)
    requires Inv(s) && Enabled(s, Handler(i))
    ensures Inv(Next(s, Handler(i)))
  {
  }

  lemma InvKept(s: State, step: Step)
    requires Inv(s) && Enabled(s, step)
    ensures Inv(Next(s, step))
  {
    match step {
      case Main(i) => InvKeptByMain(s, i);
      case Deliver(i) => assert Next(s, step).printed == s.printed;
      case Handler(i) => InvKeptByHandler(s, i);
    }
  }

  lemma {:induction false} InvAlong(s: State, steps: seq<Step>)
    requires Inv(s) && Feasible(s, steps)
    ensures Inv(Exec(s, steps))
    decreases |steps|
  {
    if steps != [] {
      InvKept(s, steps[0]);
      InvAlong(Next(s, steps[0]), steps[1..]);
    }
  }

  /** In every interleaving the processes alternate and print 0, 1, 2, ... with no
      number skipped or repeated. */
  lemma PrintsCountUp(steps: seq<Step>)
    requires Feasible(Init(), steps)
    ensures forall k | 0 <= k < |Exec(Init(), steps).printed| ::
              Exec(Init(), steps).printed[k] == Line(if k % 2 == 0 then Parent else Child, k)
  {
    InvAlong(Init(), steps);
    assert CountsUp(Exec(Init(), steps).printed);
  }

  // ------------------------------------------------- when the pair stops for good

  /** The signal is delivered between its receiver's own `kill` and the `flag = 1` after it. */
  predicate Hits(s: State, step: Step) {
    step.Deliver? && At(s, step.i).main == MSet
  }

  ghost predicate Interrupted(s: State, steps: seq<Step>)
    requires Feasible(s, steps)
    decreases |steps|
  {
    steps != [] && (Hits(s, steps[0]) || Interrupted(Next(s, steps[0]), steps[1..]))
  }

  /** The zero that the handler stores, or has stored, will be overwritten. */
  predicate Doomed(s: State) {
    || Stalled(s)
    || (Handling(s.parent) && s.parent.main == MSet)
    || (Handling(s.child) && s.child.main == MSet)
  }

  lemma DoomedStep(s: State, step: Step)
    requires Inv(s) && Enabled(s, step)
    ensures Doomed(Next(s, step)) <==> Doomed(s) || Hits(s, step)
  {
  }

  lemma {:induction false} DoomedIffInterrupted(s: State, steps: seq<Step>)
    requires Inv(s) && Feasible(s, steps)
    ensures Doomed(Exec(s, steps)) <==> Doomed(s) || Interrupted(s, steps)
    decreases |steps|
  {
    if steps != [] {
      DoomedStep(s, steps[0]);
      InvKept(s, steps[0]);
      DoomedIffInterrupted(Next(s, steps[0]), steps[1..]);
    }
  }

  /** Of one process at most the line of the handler now running is still to come. */
  function Left(s: State): nat {
    if s.parent.handler == HPrint || s.child.handler == HPrint then 1 else 0
  }

  lemma {:induction false} DoomedPrintsLittle(s: State, steps: seq<Step>)
    requires Inv(s) && Doomed(s) && Feasible(s, steps)
    ensures |Exec(s, steps).printed| <= |s.printed| + Left(s)
    decreases |steps|
  {
    if steps != [] {
      DoomedStep(s, steps[0]);
      InvKept(s, steps[0]);
      DoomedPrintsLittle(Next(s, steps[0]), steps[1..]);
    }
  }

  /** Steps to the next line when the process with the turn runs undisturbed. */
  function Distance(p: Proc): nat {
    var late := if p.handler == HSleep then 1 else 0;
    if Coming(p) then (if p.main == MSet then 2 else 1) + late
    else if Holding(p) then (if p.main == MKill then 4 else 5) + late
    else if p.handler == HPrint then 0
    else if p.handler == HClear then 7
    else 8
  }

  function Goes(p: Proc, i: Id): Step {
    if p.handler != HNone then Handler(i)
    else if Coming(p) && p.main != MSet then Deliver(i)
    else Main(i)
  }

  lemma GoesCloser(s: State, i: Id)
    requires Inv(s) && !Doomed(s) && Turn(s, i)
    ensures Enabled(s, Goes(At(s, i), i)) && !Hits(s, Goes(At(s, i), i))
    ensures var t := Next(s, Goes(At(s, i), i));
      if At(s, i).handler == HPrint
      then |t.printed| == |s.printed| + 1
      else t.printed == s.printed && exists j :: Turn(t, j) && Distance(At(t, j)) < Distance(At(s, i))
  {
    var t := Next(s, Goes(At(s, i), i));
    assert At(s, i).handler != HPrint ==> Turn(t, i) || Turn(t, Other(i));
  }

  /** The distance of the process with the turn. */
  function TurnDistance(s: State): nat {
    if Turn(s, Parent) then Distance(s.parent) else Distance(s.child)
  }

  const LAP := 9

  /** A statement of the process with the turn, other than testing a flag that is set. */
  predicate Advances(s: State, step: Step) {
    Turn(s, step.i) && !(step.Main? && At(s, step.i).main == MTest && At(s, step.i).flag != 0)
  }

  /** A step that takes the turn no further from the next line, and closer if it
      advances; or the one that prints. */
  predicate ComesCloser(s: State, t: State, step: Step) {
    var a := if Advances(s, step) then 1 else 0;
    if |t.printed| > |s.printed|
    then |t.printed| == |s.printed| + 1 && TurnDistance(t) + a <= TurnDistance(s) + LAP
    else t.printed == s.printed && TurnDistance(t) + a <= TurnDistance(s)
  }

  lemma MainComesCloser(s: State, i: Id)
    requires Inv(s) && !Doomed(s) && Enabled(s, Main(i))
    ensures ComesCloser(s, Next(s, Main(i)), Main(i))
  {
  }

  lemma DeliverComesCloser(s: State, i: Id)
    requires Inv(s) && !Doomed(s) && Enabled(s, Deliver(i)) && !Hits(s, Deliver(i))
    ensures ComesCloser(s, Next(s, Deliver(i)), Deliver(i))
  {
  }

  lemma HandlerComesCloser(s: State, i: Id)
    requires Inv(s) && !Doomed(s) && Enabled(s, Handler(i))
    ensures ComesCloser(s, Next(s, Handler(i)), Handler(i))
  {
  }

  /** No statement of either process, and no delivery that does not hit, takes the
      turn further from the next line. */
  lemma StepComesCloser(s: State, step: Step)
    requires Inv(s) && !Doomed(s) && Enabled(s, step) && !Hits(s, step)
    ensures ComesCloser(s, Next(s, step), step)
  {
    match step
    case Main(i) => MainComesCloser(s, i);
    case Deliver(i) => DeliverComesCloser(s, i);
    case Handler(i) => HandlerComesCloser(s, i);
  }

  /** How many steps of the schedule advance the turn. */
  ghost function Advancing(s: State, steps: seq<Step>): nat
    requires Feasible(s, steps)
    decreases |steps|
  {
    if steps == [] then 0
    else (if Advances(s, steps[0]) then 1 else 0) + Advancing(Next(s, steps[0]), steps[1..])
  }

  lemma {:induction false} AdvancingPrints(s: State, steps: seq<Step>)
    requires Inv(s) && !Doomed(s) && Feasible(s, steps) && !Interrupted(s, steps)
    ensures var t := Exec(s, steps);
      Advancing(s, steps) + TurnDistance(t) <= TurnDistance(s) + LAP * (|t.printed| - |s.printed|)
    decreases |steps|
  {
    if steps != [] {
      InvKept(s, steps[0]);
      DoomedStep(s, steps[0]);
      StepComesCloser(s, steps[0]);
      AdvancingPrints(Next(s, steps[0]), steps[1..]);
    }
  }

  /** In every schedule without such a delivery, whatever else the processes do, at
      most nine steps of the process with the turn go by for each line: only a
      process that is not run can hold the pair up. */
  lemma NeverStallsUninterrupted(steps: seq<Step>)
    requires Feasible(Init(), steps) && !Interrupted(Init(), steps)
    ensures Advancing(Init(), steps) <= LAP * |Exec(Init(), steps).printed| + LAP
    ensures var s := Exec(Init(), steps);
      exists i :: Turn(s, i) && Enabled(s, Goes(At(s, i), i)) && Advances(s, Goes(At(s, i), i))
  {
    var s := Exec(Init(), steps);
    InvAlong(Init(), steps);
    DoomedIffInterrupted(Init(), steps);
    AdvancingPrints(Init(), steps);
    var i := if Turn(s, Parent) then Parent else Child;
    GoesCloser(s, i);
  }

  lemma {:induction false} PrintsAgain(s: State, i: Id) returns (steps: seq<Step>)
    requires Inv(s) && !Doomed(s) && Turn(s, i)
    ensures Feasible(s, steps) && Inv(Exec(s, steps)) && !Doomed(Exec(s, steps))
    ensures |Exec(s, steps).printed| == |s.printed| + 1
    decreases Distance(At(s, i))
  {
    var step := Goes(At(s, i), i);
    GoesCloser(s, i);
    InvKept(s, step);
    DoomedStep(s, step);
    var t := Next(s, step);
    var rest := [];
    if At(s, i).handler != HPrint {
      var j :| Turn(t, j) && Distance(At(t, j)) < Distance(At(s, i));
      rest := PrintsAgain(t, j);
    }
    steps := [step] + rest;
    assert steps[1..] == rest;
  }

  lemma {:induction false} ExecJoin(s: State, first: seq<Step>, second: seq<Step>)
    requires Feasible(s, first) && Feasible(Exec(s, first), second)
    ensures Feasible(s, first + second) && Exec(s, first + second) == Exec(Exec(s, first), second)
    decreases |first|
  {
    if first == [] {
      assert first + second == second;
    } else {
      assert (first + second)[1..] == first[1..] + second;
      ExecJoin(Next(s, first[0]), first[1..], second);
    }
  }

  lemma {:induction false} PrintsOn(s: State, n: nat) returns (steps: seq<Step>)
    requires Inv(s) && !Doomed(s)
    ensures Feasible(s, steps) && |Exec(s, steps).printed| == |s.printed| + n
    decreases n
  {
    if n == 0 {
      return [];
    }
    var i := if Turn(s, Parent) then Parent else Child;
    var first := PrintsAgain(s, i);
    var rest := PrintsOn(Exec(s, first), n - 1);
    ExecJoin(s, first, rest);
    return first + rest;
  }

  /** Some continuation prints `n` more lines. */
  ghost predicate CanPrint(s: State, n: nat) {
    exists more :: Feasible(s, more) && |Exec(s, more).printed| == |s.printed| + n
  }

  /** The pair can go on printing for ever, unless some signal was delivered between
      a `kill` and the `flag = 1` after it; then at most one more line appears,
      whatever happens. */
  lemma StopsIffInterrupted(steps: seq<Step>)
    requires Feasible(Init(), steps)
    ensures var s := Exec(Init(), steps);
      if Interrupted(Init(), steps)
      then forall more | Feasible(s, more) :: |Exec(s, more).printed| <= |s.printed| + 1
      else forall n :: CanPrint(s, n)
  {
    var s := Exec(Init(), steps);
    InvAlong(Init(), steps);
    DoomedIffInterrupted(Init(), steps);
    if Interrupted(Init(), steps) {
      forall more | Feasible(s, more)
        ensures |Exec(s, more).printed| <= |s.printed| + 1
      {
        DoomedPrintsLittle(s, more);
      }
    } else {
      forall n
        ensures CanPrint(s, n)
      {
        var more := PrintsOn(s, n);
      }
    }
  }

  /** Without such a delivery exactly one process has the turn, in every state. */
  lemma OneTurn(steps: seq<Step>)
    requires Feasible(Init(), steps)
    ensures var s := Exec(Init(), steps);
      && !(HasTurn(s.parent) && HasTurn(s.child))
      && (!Interrupted(Init(), steps) ==> HasTurn(s.parent) || HasTurn(s.child))
  {
    InvAlong(Init(), steps);
    DoomedIffInterrupted(Init(), steps);
  }

  ghost predicate Leads(s: State, t: State) {
    exists steps :: Feasible(s, steps) && Exec(s, steps) == t
  }

  lemma LeadsStep(s: State, step: Step, t: State)
    requires Enabled(s, step) && Leads(Next(s, step), t)
    ensures Leads(s, t)
  {
    var rest :| Feasible(Next(s, step), rest) && Exec(Next(s, step), rest) == t;
    var steps := [step] + rest;
    assert steps[1..] == rest;
    assert Feasible(s, steps) && Exec(s, steps) == t;
  }

  /** A reachable stall: the child is answered before its `flag = 1`. */
  lemma StallReachable() returns (t: State)
    ensures Leads(Init(), t) && Stalled(t) && t.printed == [Line(Parent, 0), Line(Child, 1)]
  {
    var one, two := [Line(Parent, 0)], [Line(Parent, 0), Line(Child, 1)];
    var s3 := State(Proc(0, 1, MTest, HPrint, false), Proc(1, 0, MSet, HNone, false), []);
    var s6 := State(Proc(2, 0, MTest, HSleep, false), Proc(1, 0, MSet, HNone, false), one);
    var s9 := State(Proc(2, 0, MSet, HNone, false), Proc(1, 0, MSet, HNone, true), one);
    var s12 := State(Proc(2, 0, MSet, HNone, false), Proc(3, 0, MSet, HClear, false), two);
    t := State(Proc(2, 0, MSet, HNone, false), Proc(3, 0, MSet, HSleep, false), two);
    assert Feasible(t, []) && Exec(t, []) == t;
    assert [] + one == one && one + [Line(Child, 1)] == two;
    LeadsStep(s12, Handler(Child), t);
    LeadsTwo(Next(s9, Deliver(Child)), Handler(Child), Handler(Child), t);
    LeadsStep(s9, Deliver(Child), t);
    LeadsTwo(Next(s6, Handler(Parent)), Main(Parent), Main(Parent), t);
    LeadsStep(s6, Handler(Parent), t);
    LeadsTwo(Next(s3, Handler(Parent)), Handler(Parent), Handler(Parent), t);
    LeadsStep(s3, Handler(Parent), t);
    LeadsTwo(Next(Init(), Main(Child)), Main(Child), Deliver(Parent), t);
    LeadsStep(Init(), Main(Child), t);
  }

  lemma LeadsTwo(s: State, a: Step, b: Step, t: State)
    requires Enabled(s, a) && Enabled(Next(s, a), b) && Leads(Next(Next(s, a), b), t)
    ensures Leads(s, t)
  {
    LeadsStep(Next(s, a), b, t);
    LeadsStep(s, a, t);
  }
}
