/**
 Interleaving refinement: any run of the event loop, seen from one circuit, is a run of that circuit
 alone. Its state on its own is recovered from what the C program keeps: `current`, the arguments of the
 task in progress, or the contents of the circuit's bag.
 */
module Refinement {
  import opened CTypes
  import opened Options
  import opened Rings
  import opened BagTable
  import opened Machine
  import opened Invariant
  import opened Runs

  // ---------- one circuit on its own ----------

  datatype Solo =
    | Idle
    | Running(element: nat, state: Ptr, data: Ptr)
    | Waiting(element: nat, state: Ptr, data: Ptr)

  datatype Input =
    | Go(state: Ptr, data: Ptr)    // started
    | Next(state: Ptr, data: Ptr)  // its task returns
    | Quit                         // its task fails, or cannot arm the descriptor it wants to wait for
    | Park(state: Ptr, data: Ptr)  // its task waits
    | Resume                       // the wait is over
    | Abort                        // the wait ends in a hang-up or an error

  /** An execution of a task; `retry` when it re-enters an element that had waited. */
  datatype Visited = Visited(element: nat, state: Ptr, data: Ptr, retry: bool)

  predicate Accepts(solo: Solo, x: Input) {
    match x
    case Go(_, _) => solo.Idle?
    case Next(_, _) => solo.Running?
    case Quit => solo.Running?
    case Park(_, _) => solo.Running?
    case Resume => solo.Waiting?
    case Abort => solo.Waiting?
  }

  predicate SoloOk(r: Ring, solo: Solo) {
    r.Valid() && (solo.Idle? || solo.element < r.size)
  }

  /** The circuit alone: a waiting element is re-entered with the arguments it waited with. */
  function SoloStep(r: Ring, solo: Solo, x: Input): (n: (Solo, Option<Visited>))
    requires SoloOk(r, solo) && Accepts(solo, x)
    ensures SoloOk(r, n.0)
  {
    match x
    case Go(s, d) => (Running(0, s, d), Some(Visited(0, s, d, false)))
    case Next(s, d) =>
      (match r.Next(solo.element)
       case None => (Idle, None)
       case Some(j) => (Running(j, s, d), Some(Visited(j, s, d, false))))
    case Quit => (Idle, None)
    case Park(s, d) => (Waiting(solo.element, s, d), None)
    case Resume => (Running(solo.element, solo.state, solo.data),
                    Some(Visited(solo.element, solo.state, solo.data, true)))
    case Abort => (Idle, None)
  }

  /** How a circuit fares: it gets inputs it cannot get, or it ends somewhere, having executed `log`. */
  datatype Course = NoCourse | Course(end: Solo, log: seq<Visited>)

  function Listed(v: Option<Visited>): seq<Visited> {
    if v.None? then [] else [v.value]
  }

  function After(ran: Option<Visited>, rest: Course): Course {
    if rest.NoCourse? then NoCourse else Course(rest.end, Listed(ran) + rest.log)
  }

  /** The circuit alone, getting these inputs in order. */
  function Alone(r: Ring, solo: Solo, xs: seq<Input>): (a: Course)
    requires SoloOk(r, solo)
    ensures a.Course? ==> SoloOk(r, a.end)
    decreases |xs|
  {
    if xs == [] then
      Course(solo, [])
    else if !Accepts(solo, xs[0]) then
      NoCourse
    else
      var (next, ran) := SoloStep(r, solo, xs[0]);
      After(ran, Alone(r, next, xs[1..]))
  }

  lemma AloneCons(r: Ring, solo: Solo, x: Input, rest: seq<Input>)
    requires SoloOk(r, solo) && Accepts(solo, x)
    ensures Alone(r, solo, [x] + rest) ==
            After(SoloStep(r, solo, x).1, Alone(r, SoloStep(r, solo, x).0, rest))
  {
    assert ([x] + rest)[1..] == rest;
  }

  function Given(x: Option<Input>): seq<Input> {
    if x.None? then [] else [x.value]
  }

  /** No input is no step. */
  lemma AloneStep(r: Ring, solo: Solo, x: Option<Input>, next: Solo, ran: Option<Visited>, rest: seq<Input>)
    requires SoloOk(r, solo)
    requires if x.None? then (next, ran) == (solo, None)
             else Accepts(solo, x.value) && (next, ran) == SoloStep(r, solo, x.value)
    ensures Alone(r, solo, Given(x) + rest) == After(ran, Alone(r, next, rest))
  {
    if x.Some? {
      AloneCons(r, solo, x.value, rest);
    } else {
      assert Given(x) + rest == rest;
    }
  }

  // ---------- a circuit inside the event loop ----------

  /** The innermost task in progress of circuit c. */
  function FrameOf(stack: seq<Frame>, c: nat): (f: Option<Frame>)
    ensures f.Some? ==> f.value.circuit == c
    ensures f.Some? <==> OnStack(stack, c)
  {
    if stack == [] then None
    else
      var n := |stack| - 1;
      if stack[n].circuit == c then Some(stack[n])
      else
        var rest := FrameOf(stack[..n], c);
        assert OnStack(stack, c) ==> OnStack(stack[..n], c);
        rest
  }

  /** The state of circuit c on its own, read off the state of the whole program. */
  function View(st: State, c: nat): (v: Solo)
    requires Inv(st) && c < |st.rings|
    ensures SoloOk(st.rings[c], v)
  {
    if st.current[c].None? then Idle
    else
      match FrameOf(st.stack, c)
      case Some(f) => Running(st.current[c].value, f.state, f.data)
      case None =>
        assert c in st.parked;
        var bag := st.table.heap[st.parked[c]];
        Waiting(st.current[c].value, bag.state, bag.data)
  }

  /** What a step means to circuit c. */
  function InputOf(st: State, ch: Choice, c: nat): Option<Input>
    requires Inv(st) && Enabled(st, ch)
  {
    match ch
    case Start(k, s, d) => if k == c then Some(Go(s, d)) else None
    case Task(o) =>
      if Top(st).circuit != c then None
      else
        (match o
         case Return(s, d) => Some(Next(s, d))
         case Fail(_, _) => Some(Quit)
         case Wait(s, d, _, _, armed) => Some(if armed then Park(s, d) else Quit))
    case Poll(_) => None
    case Dispatch =>
      var ev := st.pending[0];
      assert Outstanding(st, ev.bag);
      if st.table.heap[ev.bag].circuit != c then None
      else Some(if ev.hup || ev.err then Abort else Resume)
  }

  /** What a step executes of circuit c. */
  function RanOf(ch: Choice, r: Result, c: nat): Option<Visited> {
    if r.Fine? && r.ran.Some? && r.ran.value.circuit == c then
      Some(Visited(r.ran.value.element, r.ran.value.state, r.ran.value.data, ch.Dispatch?))
    else
      None
  }

  lemma FrameOfPush(stack: seq<Frame>, f: Frame, c: nat)
    ensures FrameOf(stack + [f], c) == if f.circuit == c then Some(f) else FrameOf(stack, c)
  {
    assert (stack + [f])[..|stack|] == stack;
  }

  lemma FrameOfPop(st: State, c: nat)
    requires StackOk(st) && st.stack != []
    ensures Top(st).circuit != c ==> FrameOf(Pop(st).stack, c) == FrameOf(st.stack, c)
    ensures Top(st).circuit == c ==> FrameOf(Pop(st).stack, c) == None && FrameOf(st.stack, c) == Some(Top(st))
  {
    PopOffStack(st);
    assert st.stack == Pop(st).stack + [Top(st)];
    FrameOfPush(Pop(st).stack, Top(st), c);
  }

  /** The step, seen from circuit c, is the solo step its input asks for, with the same execution; a
      step that is none of c's business leaves its view as it was and executes nothing of c. */
  predicate Simulates(st: State, ch: Choice, c: nat)
    requires Inv(st) && Enabled(st, ch) && Safe(Step(st, ch)) && c < |st.rings|
  {
    var r := Step(st, ch);
    && r.state.rings == st.rings
    && match InputOf(st, ch, c)
       case None => View(r.state, c) == View(st, c) && RanOf(ch, r, c) == None
       case Some(x) =>
         Accepts(View(st, c), x) &&
         (View(r.state, c), RanOf(ch, r, c)) == SoloStep(st.rings[c], View(st, c), x)
  }

  /** A circuit's view depends on its `current`, its task in progress and its bag only. */
  lemma SameView(st: State, st': State, c: nat)
    requires Inv(st) && Inv(st') && c < |st.rings| && st'.rings == st.rings
    requires st'.current[c] == st.current[c] && FrameOf(st'.stack, c) == FrameOf(st.stack, c)
    requires c in st.parked ==>
               c in st'.parked && st'.table.heap[st'.parked[c]] == st.table.heap[st.parked[c]]
    ensures View(st', c) == View(st, c)
  {
  }

  lemma StartSimulates(st: State, k: nat, s: Ptr, d: Ptr, c: nat)
    requires Inv(st) && k < |st.rings| && st.current[k].None? && c < |st.rings|
    ensures Safe(Step(st, Start(k, s, d)))
    ensures Simulates(st, Start(k, s, d), c)
  {
    StepKeeps(st, Start(k, s, d));
    FrameOfPush(st.stack, Frame(k, s, d), c);
  }

  lemma ReturnOthers(st: State, s: Ptr, d: Ptr, c: nat)
    requires Inv(st) && st.stack != [] && Safe(ReturnA(st, s, d))
    requires c < |st.rings| && c != Top(st).circuit
    ensures View(ReturnA(st, s, d).state, c) == View(st, c)
  {
    FrameOfPop(st, c);
    hide View, FrameOf, Machine.StackOk, Machine.CurrentOk, Machine.ClaimsOk, Machine.KernelOk, BagTable.TableOk;
    FrameOfPush(Pop(st).stack, Frame(Top(st).circuit, s, d), c);
    SameView(st, ReturnA(st, s, d).state, c);
  }

  lemma ReturnOwn(st: State, s: Ptr, d: Ptr)
    requires Inv(st) && st.stack != [] && Safe(ReturnA(st, s, d))
    ensures var c := Top(st).circuit;
            && View(st, c) == Running(st.current[c].value, Top(st).state, Top(st).data)
            && View(ReturnA(st, s, d).state, c) ==
               match st.rings[c].Next(st.current[c].value) { case None => Idle case Some(j) => Running(j, s, d) }
  {
    var c := Top(st).circuit;
    FrameOfPop(st, c);
    FrameOfPush(Pop(st).stack, Frame(c, s, d), c);
  }

  lemma ReturnSimulates(st: State, s: Ptr, d: Ptr, c: nat)
    requires Inv(st) && st.stack != [] && c < |st.rings|
    ensures Safe(Step(st, Task(Return(s, d))))
    ensures Simulates(st, Task(Return(s, d)), c)
  {
    StepKeeps(st, Task(Return(s, d)));
    if c == Top(st).circuit {
      ReturnOwn(st, s, d);
    } else {
      ReturnOthers(st, s, d, c);
    }
  }

  lemma FailSimulates(st: State, s: Ptr, d: Ptr, c: nat)
    requires Inv(st) && st.stack != [] && c < |st.rings|
    ensures Safe(Step(st, Task(Fail(s, d))))
    ensures Simulates(st, Task(Fail(s, d)), c)
  {
    StepKeeps(st, Task(Fail(s, d)));
    FrameOfPop(st, c);
  }

  /** What waiting leaves alone of the other circuits. */
  lemma WaitOthers(st: State, o: Outcome, c: nat)
    requires Inv(st) && st.stack != [] && o.Wait? && o.bag !in st.table.heap
    requires c < |st.rings| && c != Top(st).circuit && Safe(WaitA(st, o))
    ensures View(WaitA(st, o).state, c) == View(st, c)
  {
    FrameOfPop(st, c);
    NewBagKeeps(st.table, o.bag, Bag(o.fd, Top(st).circuit, o.state, o.data));
    SameView(st, WaitA(st, o).state, c);
  }

  lemma WaitOwn(st: State, o: Outcome)
    requires Inv(st) && st.stack != [] && o.Wait? && o.bag !in st.table.heap && Safe(WaitA(st, o))
    ensures View(WaitA(st, o).state, Top(st).circuit) ==
            if o.armed then Waiting(st.current[Top(st).circuit].value, o.state, o.data) else Idle
  {
    FrameOfPop(st, Top(st).circuit);
    NewBagKeeps(st.table, o.bag, Bag(o.fd, Top(st).circuit, o.state, o.data));
  }

  lemma WaitSimulates(st: State, o: Outcome, c: nat)
    requires Inv(st) && st.stack != [] && o.Wait? && o.bag !in st.table.heap && c < |st.rings|
    ensures Safe(Step(st, Task(o)))
    ensures Simulates(st, Task(o), c)
  {
    StepKeeps(st, Task(o));
    if c == Top(st).circuit {
      WaitOwn(st, o);
      FrameOfPop(st, c);
    } else {
      WaitOthers(st, o, c);
    }
  }

  lemma PollSimulates(st: State, ready: seq<Ready>, c: nat)
    requires Inv(st) && Enabled(st, Poll(ready)) && c < |st.rings|
    ensures Safe(Step(st, Poll(ready)))
    ensures Simulates(st, Poll(ready), c)
  {
    StepKeeps(st, Poll(ready));
  }

  lemma DispatchOthers(st: State, c: nat)
    requires Inv(st) && Enabled(st, Dispatch) && c < |st.rings| && Safe(HandleEvent(st))
    requires c != st.table.heap[st.pending[0].bag].circuit
    ensures View(HandleEvent(st).state, c) == View(st, c)
  {
    var a := st.pending[0].bag;
    var bag := st.table.heap[a];
    FreeBagKeeps(st.table, a);
    hide BagTable.FreeBag, BagTable.TableOk, BagTable.Remembered, Machine.KernelOk, Machine.CurrentOk, Machine.StackOk;
    FrameOfPush(st.stack, Frame(bag.circuit, bag.state, bag.data), c);
    if c in st.parked {
      assert st.table.heap[st.parked[c]].circuit == c;
    }
    SameView(st, HandleEvent(st).state, c);
  }

  lemma DispatchOwn(st: State)
    requires Inv(st) && Enabled(st, Dispatch) && Safe(HandleEvent(st))
    ensures var ev := st.pending[0];
            var bag := st.table.heap[ev.bag];
            var c, i := bag.circuit, st.current[bag.circuit];
            && i.Some? && View(st, c) == Waiting(i.value, bag.state, bag.data)
            && View(HandleEvent(st).state, c) ==
               if ev.hup || ev.err then Idle else Running(i.value, bag.state, bag.data)
  {
    var a := st.pending[0].bag;
    assert Outstanding(st, a);
    var bag := st.table.heap[a];
    FrameOfPush(st.stack, Frame(bag.circuit, bag.state, bag.data), bag.circuit);
  }

  lemma DispatchAny(st: State, c: nat)
    requires Inv(st) && Enabled(st, Dispatch) && c < |st.rings| && Safe(Step(st, Dispatch))
    ensures Simulates(st, Dispatch, c)
  {
    if c == st.table.heap[st.pending[0].bag].circuit {
      DispatchOwn(st);
    } else {
      DispatchOthers(st, c);
    }
  }

  lemma DispatchSimulates(st: State, c: nat)
    requires Inv(st) && Enabled(st, Dispatch) && c < |st.rings|
    ensures Safe(Step(st, Dispatch))
    ensures Simulates(st, Dispatch, c)
  {
    StepKeeps(st, Dispatch);
    DispatchAny(st, c);
  }

  lemma StepSimulates(st: State, ch: Choice, c: nat)
    requires Inv(st) && Enabled(st, ch) && Disciplined(st, ch) && c < |st.rings|
    ensures Safe(Step(st, ch))
    ensures Simulates(st, ch, c)
  {
    match ch
    case Start(k, s, d) => StartSimulates(st, k, s, d, c);
    case Task(Return(s, d)) => ReturnSimulates(st, s, d, c);
    case Task(Fail(s, d)) => FailSimulates(st, s, d, c);
    case Task(Wait(s, d, fd, bag, armed)) => WaitSimulates(st, Wait(s, d, fd, bag, armed), c);
    case Poll(ready) => PollSimulates(st, ready, c);
    case Dispatch => DispatchSimulates(st, c);
  }

  // ---------- whole runs ----------

  /** What a run means to circuit c, in order. */
  ghost function Inputs(st: State, chs: seq<Choice>, c: nat): seq<Input>
    requires GoodRun(st, chs)
    decreases |chs|
  {
    if chs == [] then []
    else
      RunHead(st, chs);
      var x := InputOf(st, chs[0], c);
      Given(x) + Inputs(Step(st, chs[0]).state, chs[1..], c)
  }

  /** Where a run leaves circuit c, and what it executes of it, in order. */
  ghost function Within(st: State, chs: seq<Choice>, c: nat): (w: Course)
    requires GoodRun(st, chs) && c < |st.rings|
    ensures w.Course?
    decreases |chs|
  {
    if chs == [] then Course(View(st, c), [])
    else
      RunHead(st, chs);
      var r := Step(st, chs[0]);
      After(RanOf(chs[0], r, c), Within(r.state, chs[1..], c))
  }

  lemma {:induction false} WithinEnd(st: State, chs: seq<Choice>, c: nat)
    requires GoodRun(st, chs) && c < |st.rings|
    ensures RunEnd(st, chs).rings == st.rings
    ensures Within(st, chs, c).end == View(RunEnd(st, chs), c)
    decreases |chs|
  {
    if chs != [] {
      RunHead(st, chs);
      WithinEnd(Step(st, chs[0]).state, chs[1..], c);
    }
  }

  /** Interleaving refinement, for every number of circuits, readiness order, batching, arming failure,
      shared descriptor and table overflow: in any run, each circuit executes exactly what it would alone,
      element by element with the same state and data, and ends as it would alone. */
  lemma {:induction false} Interleaving(st: State, chs: seq<Choice>, c: nat)
    requires GoodRun(st, chs) && c < |st.rings|
    ensures Within(st, chs, c) == Alone(st.rings[c], View(st, c), Inputs(st, chs, c))
    decreases |chs|
  {
    if chs != [] {
      RunHead(st, chs);
      var st' := Step(st, chs[0]).state;
      StepSimulates(st, chs[0], c);
      Interleaving(st', chs[1..], c);
      AloneStep(st.rings[c], View(st, c), InputOf(st, chs[0], c), View(st', c), RanOf(chs[0], Step(st, chs[0]), c),
                Inputs(st', chs[1..], c));
    }
  }

  // ---------- the log ----------

  /** The executions of circuit c. */
  function OnlyOf(log: seq<Exec>, c: nat): seq<Exec> {
    if log == [] then [] else (if log[0].circuit == c then [log[0]] else []) + OnlyOf(log[1..], c)
  }

  /** A circuit's own log, as executions of circuit c. */
  function Executed(log: seq<Visited>, c: nat): seq<Exec> {
    if log == [] then []
    else [Exec(c, log[0].element, log[0].state, log[0].data)] + Executed(log[1..], c)
  }

  lemma StepLog(st: State, ch: Choice, c: nat, log: seq<Exec>, own: seq<Visited>)
    requires InRange(st) && Enabled(st, ch) && Step(st, ch).Fine? && OnlyOf(log, c) == Executed(own, c)
    ensures OnlyOf(Ran(Step(st, ch)) + log, c) == Executed(Listed(RanOf(ch, Step(st, ch), c)) + own, c)
  {
    var r := Step(st, ch);
    hide Machine.Step;
    if r.ran.Some? {
      assert ([r.ran.value] + log)[1..] == log;
      var own' := RanOf(ch, r, c);
      if own'.Some? {
        assert ([own'.value] + own)[1..] == own;
      } else {
        assert Listed(own') + own == own;
      }
    } else {
      assert Ran(r) + log == log && Listed(RanOf(ch, r, c)) + own == own;
    }
  }

  /** What a run executes of circuit c is the part of its log that is about c. */
  lemma {:induction false} WithinLog(st: State, chs: seq<Choice>, c: nat)
    requires GoodRun(st, chs) && c < |st.rings|
    ensures OnlyOf(RunLog(st, chs), c) == Executed(Within(st, chs, c).log, c)
    decreases |chs|
  {
    if chs != [] {
      RunHead(st, chs);
      hide Machine.Step, Machine.Inv, Machine.Enabled, Machine.Disciplined, Runs.GoodRun, OnlyOf, Executed;
      var st' := Step(st, chs[0]).state;
      WithinLog(st', chs[1..], c);
      StepLog(st, chs[0], c, RunLog(st', chs[1..]), Within(st', chs[1..], c).log);
    }
  }
}
