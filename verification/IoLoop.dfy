/**
 The event loop and the calls tasks make, in place (meloop/io.c, meloop/arrow.c): circuits whose `current`
 moves, the bag table, and the kernel's armed descriptors. Everything is proved against module Driver.
 */
module IoLoop {
  import opened CTypes
  import opened Options
  import opened Rings
  import opened Elements
  import opened Circuits
  import opened BagTable
  import opened Machine
  import opened Invariant
  import opened Runs
  import opened Deeds
  import opened Driver

  /** The answers of the environment that are still to come. */
  class Env {
    var script: seq<Answer>

    constructor (script: seq<Answer>)
      ensures this.script == script
    {
      this.script := script;
    }

    method Next() returns (a: Option<Answer>)
      modifies this
      ensures script == Rest(old(script))
      ensures a == if old(script) == [] then None else Some(old(script)[0])
    {
      if script == [] {
        return None;
      }
      a := Some(script[0]);
      script := script[1..];
    }
  }

  /** A call of an error callback. */
  datatype Callback = Callback(circuit: nat, state: Ptr, data: Ptr)

  /** Tasks ran, or nothing happened: nothing was closed. */
  predicate TasksOnly(before: seq<Deed>, after: seq<Deed>) {
    before <= after && forall i :: |before| <= i < |after| ==> !after[i].Closed?
  }

  /** An answer of epoll_wait that the kernel can give: armed descriptors, at most 16, each once. */
  predicate CanReport(armed: map<Fd, Addr>, ready: seq<Ready>) {
    && 0 < |ready| <= MAX_EVENTS
    && (forall i :: 0 <= i < |ready| ==> ready[i].fd in armed)
    && (forall i, j :: 0 <= i < j < |ready| ==> ready[i].fd != ready[j].fd)
  }

  // ---------- what each step of the machine means for the fields below ----------

  /** In memory, `next` differs from st by what waitA does for circuit k. */
  predicate Waits(st: State, k: nat, o: Outcome, next: State)
    requires o.Wait?
  {
    var t := NewBag(st.table, o.bag, Bag(o.fd, k, o.state, o.data));
    && next.rings == st.rings && k < |st.current|
    && next.table == (if o.armed then ArmBag(t, o.fd, o.bag) else t)
    && next.current == (if o.armed then st.current else st.current[k := None])
  }

  /** In memory, `next` differs from st by what errorA does to circuit k. */
  predicate Fails(st: State, k: nat, next: State) {
    && next.rings == st.rings && next.table == st.table && k < |st.current|
    && next.current == st.current[k := None]
  }

  /** In memory, `next` differs from st by the end of circuit k's wait in a hang-up. */
  predicate HangsUp(st: State, a: Addr, bag: Bag, next: State) {
    && next.rings == st.rings && bag.circuit < |st.current|
    && next.current == st.current[bag.circuit := None]
    && next.table == DisarmAll(FreeBag(st.table, a), {bag.fd})
  }

  lemma TaskInRange(st: State)
    requires Inv(st) && st.stack != []
    ensures InRange(st) && Top(st).circuit < |st.rings|
  {
  }

  lemma ReturnAnswer(st: State, script: seq<Answer>, log: seq<Deed>, s: Ptr, d: Ptr)
    requires Inv(st) && st.stack != [] && script != [] && script[0] == Does(Return(s, d))
    ensures InRange(st) && Machine.ReturnA(st, s, d).Fine? && Inv(Machine.ReturnA(st, s, d).state)
    ensures Drive(st, script, log) ==
            Drive(Machine.ReturnA(st, s, d).state, Rest(script), log + Calls(Machine.ReturnA(st, s, d)))
  {
    StepKeeps(st, Task(Return(s, d)));
  }

  lemma WaitAnswer(st: State, script: seq<Answer>, log: seq<Deed>, o: Outcome)
    requires Inv(st) && st.stack != [] && script != [] && script[0] == Does(o)
    requires o.Wait? && o.bag !in st.table.heap
    ensures InRange(st) && Inv(Machine.WaitA(st, o).state)
    ensures Waits(st, Top(st).circuit, o, Machine.WaitA(st, o).state)
    ensures Machine.WaitA(st, o).state.stack == Pop(st).stack && Machine.WaitA(st, o).state.pending == st.pending
    ensures Drive(st, script, log) ==
            Drive(Machine.WaitA(st, o).state, Rest(script),
                  log + if o.armed then [] else [Failed(Top(st).circuit, o.state, o.data)])
  {
    StepKeeps(st, Task(o));
  }

  lemma StartAnswer(st: State, script: seq<Answer>, log: seq<Deed>, c: nat, s: Ptr, d: Ptr)
    requires Inv(st) && st.stack != [] && script != [] && script[0] == Starts(c, s, d)
    requires c < |st.rings| == |st.current| && st.current[c].None?
    ensures InRange(st) && Inv(Machine.RunA(st, c, s, d).state)
    ensures Drive(st, script, log) ==
            Drive(Machine.RunA(st, c, s, d).state, Rest(script), log + Calls(Machine.RunA(st, c, s, d)))
  {
    assert TaskChoice(st, script) == Start(c, s, d);
    hide TaskChoice;
    StepKeeps(st, Start(c, s, d));
  }

  /** Any other answer is a task's failure. */
  predicate MeansFailure(st: State, script: seq<Answer>) {
    |st.rings| == |st.current| &&
    (script != [] ==>
       match script[0]
       case Does(o) => o.Fail? || (o.Wait? && o.bag in st.table.heap)
       case Starts(c, _, _) => c < |st.rings| ==> st.current[c].Some?
       case _ => true)
  }

  /** What the task of f hands to errorA: it says so, or it hands on what it has got. */
  function FailWith(f: Frame, script: seq<Answer>): (Ptr, Ptr) {
    if script != [] && script[0].Does? && script[0].outcome.Fail? then (script[0].outcome.state, script[0].outcome.data)
    else (f.state, f.data)
  }

  lemma FailingChoice(st: State, script: seq<Answer>)
    requires InRange(st) && st.stack != [] && MeansFailure(st, script)
    ensures TaskChoice(st, script) == Task(Fail(FailWith(Top(st), script).0, FailWith(Top(st), script).1))
  {
  }

  lemma OtherAnswer(st: State, script: seq<Answer>, log: seq<Deed>)
    requires Inv(st) && st.stack != [] && MeansFailure(st, script)
    ensures InRange(st) && Inv(Machine.ErrorA(st).state)
    ensures Fails(st, Top(st).circuit, Machine.ErrorA(st).state)
    ensures Machine.ErrorA(st).state.stack == Pop(st).stack && Machine.ErrorA(st).state.pending == st.pending
    ensures var (s, d) := FailWith(Top(st), script);
            Drive(st, script, log) ==
            Drive(Machine.ErrorA(st).state, Rest(script), log + [Failed(Top(st).circuit, s, d)])
  {
    FailingChoice(st, script);
    hide TaskChoice, MeansFailure;
    var (s, d) := FailWith(Top(st), script);
    hide FailWith;
    StepKeeps(st, Task(Fail(s, d)));
  }

  lemma PollAnswer(st: State, script: seq<Answer>, log: seq<Deed>, ready: seq<Ready>)
    requires Inv(st) && st.stack == [] && st.pending == [] && st.table.waiting != 0
    requires script != [] && script[0] == Reports(ready) && CanReport(st.table.armed, ready)
    ensures Enabled(st, Poll(ready)) && Inv(TakeBatch(st, ready))
    ensures Drive(st, script, log) == Drive(TakeBatch(st, ready), Rest(script), log)
  {
    StepKeeps(st, Poll(ready));
  }

  lemma PollEnds(st: State, script: seq<Answer>, log: seq<Deed>)
    requires Inv(st) && st.stack == [] && st.pending == [] && st.table.waiting != 0 && !Stops(script)
    requires script != [] && script[0].Reports? ==> !CanReport(st.table.armed, script[0].ready)
    ensures Drive(st, script, log) == Driven(st, Rest(script), if TimesOut(script) then TimedOut else PollFailed, log)
  {
  }

  lemma GuardEnds(st: State, script: seq<Answer>, log: seq<Deed>)
    requires Inv(st) && st.stack == [] && st.pending == [] && (Stops(script) || st.table.waiting == 0)
    ensures Drive(st, script, log) == Driven(st, script, if Stops(script) then ByStatus else NoBags, log)
  {
  }

  /** The state in which the loop calls runA for an event: its bag freed, its circuit no longer waiting. */
  ghost function Claimed(st: State): (st': State)
    requires Inv(st) && st.pending != []
    ensures st'.rings == st.rings && st'.current == st.current && st'.stack == st.stack
    ensures st'.pending == st.pending[1..] && st'.table == FreeBag(st.table, st.pending[0].bag)
  {
    var a := st.pending[0].bag;
    st.(pending := st.pending[1..], table := FreeBag(st.table, a), parked := st.parked - {st.table.heap[a].circuit})
  }

  lemma EventIsLive(st: State)
    requires Inv(st) && st.pending != []
    ensures InRange(st) && InRange(Claimed(st))
    ensures st.pending[0].bag in st.table.heap && st.table.heap[st.pending[0].bag].circuit < |st.rings|
    ensures |st.current| == |st.rings| && st.current[st.table.heap[st.pending[0].bag].circuit].Some?
  {
    FreeBagKeeps(st.table, st.pending[0].bag);
    assert Outstanding(st, st.pending[0].bag);
  }

  lemma HangUpEffect(st: State, script: seq<Answer>, log: seq<Deed>, bag: Bag)
    requires Inv(st) && st.stack == [] && st.pending != [] && (st.pending[0].hup || st.pending[0].err)
    requires st.pending[0].bag in st.table.heap && st.table.heap[st.pending[0].bag] == bag
    ensures InRange(st) && HandleEvent(st).Fine? && Inv(HandleEvent(st).state)
    ensures Drive(st, script, log) ==
            Drive(HandleEvent(st).state, script, log + [Closed(bag.fd), Failed(bag.circuit, bag.state, bag.data)])
    ensures HangsUp(st, st.pending[0].bag, bag, HandleEvent(st).state)
    ensures HandleEvent(st).state.pending == st.pending[1..] && HandleEvent(st).state.stack == []
  {
    StepKeeps(st, Dispatch);
  }

  lemma ResumeEffect(st: State, script: seq<Answer>, log: seq<Deed>, bag: Bag)
    requires Inv(st) && st.stack == [] && st.pending != [] && !st.pending[0].hup && !st.pending[0].err
    requires st.pending[0].bag in st.table.heap && st.table.heap[st.pending[0].bag] == bag
    requires InRange(Claimed(st)) && bag.circuit < |st.rings| == |st.current| && st.current[bag.circuit].Some?
    ensures Inv(Machine.RunA(Claimed(st), bag.circuit, bag.state, bag.data).state)
    ensures var r := Machine.RunA(Claimed(st), bag.circuit, bag.state, bag.data);
            && Calls(r) == [Entered(Exec(bag.circuit, st.current[bag.circuit].value, bag.state, bag.data))]
            && Drive(st, script, log) == Drive(r.state, script, log + Calls(r))
  {
    StepKeeps(st, Dispatch);
  }

  /** In memory, `next` differs from st by the move of circuit k's `current`. */
  predicate Moves(st: State, k: nat, next: State) {
    && k < |st.current| == |st.rings| && next.rings == st.rings && next.table == st.table
    && st.current[k].Some? && st.rings[k].Valid() && st.current[k].value < st.rings[k].size
    && next.current == st.current[k := st.rings[k].Next(st.current[k].value)]
  }

  lemma ReturnEffect(st: State, s: Ptr, d: Ptr)
    requires Inv(st) && st.stack != []
    ensures InRange(st) && Top(st).circuit < |st.rings|
    ensures var r, k := Machine.ReturnA(st, s, d), Top(st).circuit;
            && r.Fine? && Inv(r.state) && r.state.pending == st.pending && Moves(st, k, r.state)
            && r.state.stack == (if r.state.current[k].Some? then Pop(st).stack + [Frame(k, s, d)] else Pop(st).stack)
            && Calls(r) == (if r.state.current[k].Some? then [Entered(Exec(k, r.state.current[k].value, s, d))] else [])
  {
    StepKeeps(st, Task(Return(s, d)));
  }

  class Reactor {
    const circuits: seq<CircuitS>
    const ev: Ev
    const env: Env
    // The elements of all circuits.
    ghost const cells: set<Element>
    // The state of the machine that the fields amount to.
    ghost var st: State
    // What has been done so far: tasks called, descriptors closed, circuits failed.
    ghost var log: seq<Deed>
    // The calls of error callbacks so far.
    ghost var calls: seq<Callback>
    // What epoll_wait has returned so far.
    ghost var polls: seq<int>

    /** A reactor over circuits that are built and idle, with nothing armed. */
    constructor (circuits: seq<CircuitS>, script: seq<Answer>, ghost rings: seq<Ring>, ghost cells: set<Element>)
      requires forall i, j :: 0 <= i < j < |circuits| ==> circuits[i] != circuits[j]
      requires |rings| == |circuits|
      requires forall i :: 0 <= i < |circuits| ==>
                 && circuits[i].Valid() && circuits[i].nets != null && circuits[i].current == null
                 && Shapes.RingOf(circuits[i].shape) == rings[i]
                 && (forall e <- circuits[i].shape.cells :: e in cells)
      ensures Valid() && this.circuits == circuits && env.script == script
      ensures fresh(env) && fresh(ev) && fresh(ev.slots)
      ensures st == Boot(rings) && log == [] && calls == [] && polls == []
    {
      this.circuits := circuits;
      ev := new Ev();
      env := new Env(script);
      this.cells := cells;
      st, log, calls, polls := Boot(rings), [], [], [];
      new;
      hide Machine.Inv, Elements.IsCircuit, BagTable.NewTable;
      BootInv(rings);
      forall i | 0 <= i < |circuits| ensures Agrees(i, rings[i], None) {
        assert circuits[i].at.None?;
      }
      hide Shapes.RingOf;
      assert Wired(rings, st.current);
    }

    /** The circuits in memory, all distinct and well-formed, are these rings at these elements. */
    ghost predicate Wired(rings: seq<Ring>, current: seq<Option<nat>>)
      reads circuits, cells
    {
      && |circuits| == |rings| == |current|
      && (forall i, j :: 0 <= i < j < |circuits| ==> circuits[i] != circuits[j])
      && (forall i :: 0 <= i < |circuits| ==> Agrees(i, rings[i], current[i]))
    }

    ghost predicate Agrees(i: nat, ring: Ring, current: Option<nat>)
      requires i < |circuits|
      reads circuits, cells
    {
      && (forall e <- circuits[i].shape.cells :: e in cells)
      && circuits[i].Valid() && circuits[i].nets != null
      && Shapes.RingOf(circuits[i].shape) == ring
      && circuits[i].at == current
    }

    /** Memory is what this state of the machine says: every `current`, the table and the descriptors. */
    ghost predicate Matches(t: State)
      reads circuits, cells, ev, ev.slots
    {
      Wired(t.rings, t.current) && ev.slots.Length == MAX_EVENTS && ev.T() == t.table
    }

    ghost predicate Valid()
      reads this, circuits, cells, ev, ev.slots
    {
      Inv(st) && Matches(st) && calls == CallsIn(log)
    }

    /** errorA calls the callback of a circuit that has one. */
    ghost function CallsIn(deeds: seq<Deed>): seq<Callback> {
      if deeds == [] then []
      else
        var n := |deeds| - 1;
        CallsIn(deeds[..n]) + CallsOf(deeds[n])
    }

    ghost function CallsOf(deed: Deed): seq<Callback> {
      if deed.Failed? && deed.circuit < |circuits| && circuits[deed.circuit].hasErr
      then [Callback(deed.circuit, deed.state, deed.data)] else []
    }

    lemma CallsSnoc(deeds: seq<Deed>, deed: Deed)
      ensures CallsIn(deeds + [deed]) == CallsIn(deeds) + CallsOf(deed)
    {
      assert (deeds + [deed])[..|deeds|] == deeds;
    }

    // ---------- what the calls do to memory ----------

    method Enter(k: nat, ghost rings: seq<Ring>, ghost current: seq<Option<nat>>)
      requires Wired(rings, current) && k < |circuits|
      modifies circuits
      ensures Wired(rings, current[k := Some(if current[k].None? then 0 else current[k].value)])
    {
      assert Agrees(k, rings[k], current[k]);
      var _ := circuits[k].Enter();
      assert forall i :: 0 <= i < |circuits| && i != k ==> Agrees(i, rings[i], current[i]);
    }

    method Advance(k: nat, ghost rings: seq<Ring>, ghost current: seq<Option<nat>>) returns (more: bool)
      requires Wired(rings, current) && k < |circuits| && current[k].Some?
      requires rings[k].Valid() && current[k].value < rings[k].size
      modifies circuits
      ensures Wired(rings, current[k := rings[k].Next(current[k].value)])
      ensures more <==> rings[k].Next(current[k].value).Some?
    {
      assert Agrees(k, rings[k], current[k]);
      var e := circuits[k].Advance();
      more := e != null;
      assert forall i :: 0 <= i < |circuits| && i != k ==> Agrees(i, rings[i], current[i]);
    }

    /** close(2) on a descriptor. */
    method Close(fd: Fd)
      modifies this`log
      ensures log == old(log) + [Closed(fd)]
      ensures old(calls) == CallsIn(old(log)) ==> calls == CallsIn(log)
    {
      log := log + [Closed(fd)];
      CallsSnoc(old(log), Closed(fd));
    }

    /** The first half of errorA: c->err is called, if there is one, with s and d. */
    method CallErr(k: nat, s: Ptr, d: Ptr)
      requires k < |circuits|
      modifies this`log, this`calls
      ensures log == old(log) + [Failed(k, s, d)]
      ensures calls == old(calls) + if circuits[k].hasErr then [Callback(k, s, d)] else []
      ensures old(calls) == CallsIn(old(log)) ==> calls == CallsIn(log)
    {
      CallsSnoc(log, Failed(k, s, d));
      log := log + [Failed(k, s, d)];
      if circuits[k].hasErr {
        calls := calls + [Callback(k, s, d)];
      }
    }

    /** errorA on circuit k: its callback is called, and its `current` becomes NULL. */
    method ErrorA(k: nat, s: Ptr, d: Ptr, ghost rings: seq<Ring>, ghost current: seq<Option<nat>>)
      requires Wired(rings, current) && k < |circuits|
      modifies this`log, this`calls, circuits
      ensures Wired(rings, current[k := None])
      ensures log == old(log) + [Failed(k, s, d)]
      ensures calls == old(calls) + if circuits[k].hasErr then [Callback(k, s, d)] else []
      ensures old(calls) == CallsIn(old(log)) ==> calls == CallsIn(log)
    {
      hide CallsIn;
      CallErr(k, s, d);
      StopCircuit(k, rings, current);
    }

    method StopCircuit(k: nat, ghost rings: seq<Ring>, ghost current: seq<Option<nat>>)
      requires Wired(rings, current) && k < |circuits|
      modifies circuits
      ensures Wired(rings, current[k := None])
    {
      assert Agrees(k, rings[k], current[k]);
      var _ := circuits[k].Stop();
      assert forall i :: 0 <= i < |circuits| && i != k ==> Agrees(i, rings[i], current[i]);
    }

    method IsIdle(k: nat, ghost rings: seq<Ring>, ghost current: seq<Option<nat>>) returns (idle: bool)
      requires Wired(rings, current) && k < |circuits|
      ensures idle <==> current[k].None?
    {
      assert Agrees(k, rings[k], current[k]);
      idle := circuits[k].current == null;
    }

    /** Remember the task's arguments in a bag and arm the descriptor; malloc answers a, epoll_ctl mod and
        add. When arming fails the circuit fails, and the bag is left behind. */
    method WaitA(k: nat, s: Ptr, d: Ptr, fd: Fd, a: Addr, mod: Ctl, add: Ctl,
                 ghost rings: seq<Ring>, ghost current: seq<Option<nat>>)
      requires Wired(rings, current) && k < |circuits|
      requires ev.slots.Length == MAX_EVENTS && a !in ev.heap
      modifies this`log, this`calls, circuits, ev, ev.slots
      ensures var t := NewBag(old(ev.T()), a, Bag(fd, k, s, d));
              if mod.Done? || (mod.NoEntry? && add.Done?) then
                && ev.T() == ArmBag(t, fd, a) && Wired(rings, current)
                && log == old(log) && calls == old(calls)
              else
                && ev.T() == t && Wired(rings, current[k := None])
                && log == old(log) + [Failed(k, s, d)]
                && calls == old(calls) + if circuits[k].hasErr then [Callback(k, s, d)] else []
      ensures old(calls) == CallsIn(old(log)) ==> calls == CallsIn(log)
    {
      ev.BagNew(a, fd, k, s, d);
      var ret := ev.Arm(a, mod, add);
      assert Wired(rings, current);
      if ret != OK {
        ErrorA(k, s, d, rings, current);
      }
    }

    // ---------- running tasks ----------

    /** The task of circuit k's current element runs, and whatever runs because of it, until it is over. */
    method RunTask(k: nat, s: Ptr, d: Ptr)
      requires Valid() && st.stack != [] && Top(st) == Frame(k, s, d)
      modifies this`st, this`log, this`calls, circuits, ev, ev.slots, env
      ensures Valid() && st.pending == old(st.pending) && st.stack == old(Pop(st).stack)
      ensures Drive(st, env.script, log) == Drive(old(st), old(env.script), old(log))
      ensures TasksOnly(old(log), log)
      ensures |env.script| <= old(|env.script|)
      ensures old(env.script) != [] && old(env.script)[0].Does? && old(env.script)[0].outcome.Fail? ==>
                var o := old(env.script)[0].outcome; log == old(log) + [Failed(k, o.state, o.data)]
      ensures old(env.script) != [] && old(env.script)[0].Does? && old(env.script)[0].outcome.Wait? &&
              old(env.script)[0].outcome.bag !in old(ev.heap) ==>
                var o := old(env.script)[0].outcome;
                log == old(log) + if o.armed then [] else [Failed(k, o.state, o.data)]
      decreases |env.script|, 2
    {
      hide Machine.Inv, Machine.ReturnA, Machine.WaitA, Machine.ErrorA, Driver.Drive, TasksOnly, CallsIn;
      ghost var script := env.script;
      TaskInRange(st);
      var answer := env.Next();
      if answer.Some? && answer.value.Does? && answer.value.outcome.Return? {
        ReturnAnswer(st, script, log, answer.value.outcome.state, answer.value.outcome.data);
        ReturnA(k, answer.value.outcome.state, answer.value.outcome.data);
      } else if answer.Some? && answer.value.Does? && answer.value.outcome.Wait?
                && answer.value.outcome.bag !in ev.heap {
        WaitAnswer(st, script, log, answer.value.outcome);
        Park(k, answer.value.outcome, Machine.WaitA(st, answer.value.outcome).state);
      } else {
        StartOrFail(k, s, d, answer, script);
      }
    }

    /** The task of circuit k starts another, idle circuit and goes on, or it fails. */
    method StartOrFail(k: nat, s: Ptr, d: Ptr, answer: Option<Answer>, ghost script: seq<Answer>)
      requires Valid() && st.stack != [] && Top(st) == Frame(k, s, d)
      requires env.script == Rest(script) && answer == if script == [] then None else Some(script[0])
      requires answer.Some? && answer.value.Does? ==>
                 answer.value.outcome.Fail? ||
                 (answer.value.outcome.Wait? && answer.value.outcome.bag in ev.heap)
      modifies this`st, this`log, this`calls, circuits, ev, ev.slots, env
      ensures Valid() && st.pending == old(st.pending) && st.stack == old(Pop(st).stack)
      ensures Drive(st, env.script, log) == Drive(old(st), script, old(log))
      ensures TasksOnly(old(log), log)
      ensures |env.script| <= old(|env.script|)
      ensures answer.Some? && answer.value.Does? && answer.value.outcome.Fail? ==>
                log == old(log) + [Failed(k, answer.value.outcome.state, answer.value.outcome.data)]
      decreases |script|, 1
    {
      hide Machine.Inv, Machine.ErrorA, Machine.RunA, Driver.Drive, Deeds.Calls, TasksOnly, CallsIn;
      TaskInRange(st);
      if answer.Some? && answer.value.Starts? && answer.value.circuit < |circuits| {
        var c := answer.value.circuit;
        var idle := IsIdle(c, st.rings, st.current);
        if idle {
          StartAnother(k, s, d, c, answer.value.state, answer.value.data, script);
          return;
        }
      }
      var fs, fd := s, d;
      if answer.Some? && answer.value.Does? && answer.value.outcome.Fail? {
        fs, fd := answer.value.outcome.state, answer.value.outcome.data;
      }
      OtherAnswer(st, script, log);
      Fail(k, fs, fd, Machine.ErrorA(st).state);
    }

    /** Circuit k's task starts the idle circuit c, and goes on when that is over. */
    method StartAnother(k: nat, s: Ptr, d: Ptr, c: nat, cs: Ptr, cd: Ptr, ghost script: seq<Answer>)
      requires Valid() && st.stack != [] && Top(st) == Frame(k, s, d)
      requires script != [] && script[0] == Starts(c, cs, cd) && env.script == Rest(script)
      requires c < |circuits| && st.current[c].None?
      modifies this`st, this`log, this`calls, circuits, ev, ev.slots, env
      ensures Valid() && st.pending == old(st.pending) && st.stack == old(Pop(st).stack)
      ensures Drive(st, env.script, log) == Drive(old(st), script, old(log))
      ensures TasksOnly(old(log), log)
      ensures |env.script| <= old(|env.script|)
      decreases |script|, 0
    {
      hide Machine.Inv, Driver.Drive;
      TaskInRange(st);
      StartAnswer(st, script, log, c, cs, cd);
      RunA(c, cs, cd);
      RunTask(k, s, d);
    }

    /** waitA by circuit k's task, leading to `next`. */
    method Park(k: nat, o: Outcome, ghost next: State)
      requires Matches(st) && k < |circuits| && o.Wait? && o.bag !in st.table.heap && Waits(st, k, o, next)
      modifies this`st, this`log, this`calls, circuits, ev, ev.slots
      ensures Matches(st) && st == next
      ensures log == old(log) + if o.armed then [] else [Failed(k, o.state, o.data)]
      ensures TasksOnly(old(log), log)
      ensures old(calls) == CallsIn(old(log)) ==> calls == CallsIn(log)
    {
      hide CallsIn, BagTable.NewBag;
      WaitA(k, o.state, o.data, o.fd, o.bag, NoEntry, if o.armed then Done else Refused, st.rings, st.current);
      st := next;
    }

    /** errorA by circuit k's task, leading to `next`. */
    method Fail(k: nat, s: Ptr, d: Ptr, ghost next: State)
      requires Matches(st) && k < |circuits| && Fails(st, k, next)
      modifies this`st, this`log, this`calls, circuits
      ensures Matches(st) && st == next
      ensures log == old(log) + [Failed(k, s, d)]
      ensures TasksOnly(old(log), log)
      ensures old(calls) == CallsIn(old(log)) ==> calls == CallsIn(log)
    {
      ErrorA(k, s, d, st.rings, st.current);
      st := next;
    }

    /** The task of the element that circuit k's `current` points to is called. */
    method CallTask(k: nat, s: Ptr, d: Ptr)
      requires Valid() && st.stack != [] && Top(st) == Frame(k, s, d)
      requires k < |circuits| && st.current[k].Some?
      modifies this`st, this`log, this`calls, circuits, ev, ev.slots, env
      ensures Valid() && st.pending == old(st.pending) && st.stack == old(Pop(st).stack)
      ensures Drive(st, env.script, log) ==
              Drive(old(st), old(env.script), old(log) + [Entered(Exec(k, old(st.current[k].value), s, d))])
      ensures old(log) + [Entered(Exec(k, old(st.current[k].value), s, d))] <= log
      ensures TasksOnly(old(log), log)
      ensures |env.script| <= old(|env.script|)
      decreases |env.script|, 3
    {
      hide Machine.Inv, Driver.Drive, CallsIn;
      assert Agrees(k, st.rings[k], st.current[k]);
      log := log + [Entered(Exec(k, circuits[k].at.value, s, d))];
      CallsSnoc(old(log), log[|log| - 1]);
      RunTask(k, s, d);
    }

    /** Circuit k's `current` moves on, leading to `next`. */
    method Move(k: nat, ghost next: State) returns (more: bool)
      requires Matches(st) && Moves(st, k, next)
      modifies this`st, circuits
      ensures Matches(st) && st == next && k < |circuits| && (more <==> next.current[k].Some?)
    {
      more := Advance(k, st.rings, st.current);
      st := next;
    }

    /** returnA, called by the task of circuit k. */
    method ReturnA(k: nat, s: Ptr, d: Ptr)
      requires Valid() && st.stack != [] && Top(st).circuit == k
      modifies this`st, this`log, this`calls, circuits, ev, ev.slots, env
      ensures Valid() && st.pending == old(st.pending) && st.stack == old(Pop(st).stack)
      ensures Machine.ReturnA(old(st), s, d).Fine? && Inv(Machine.ReturnA(old(st), s, d).state)
      ensures var r := Machine.ReturnA(old(st), s, d);
              Drive(st, env.script, log) == Drive(r.state, old(env.script), old(log) + Calls(r))
      ensures TasksOnly(old(log), log)
      ensures |env.script| <= old(|env.script|)
      decreases |env.script|, 4
    {
      hide Machine.Inv, Driver.Drive, Machine.ReturnA, Deeds.Calls;
      ReturnEffect(st, s, d);
      var more := Move(k, Machine.ReturnA(st, s, d).state);
      if more {
        CallTask(k, s, d);
      } else {
        assert log + [] == log;
      }
    }

    /** runA on circuit k: by a program that starts it, or by the loop that resumes it. */
    method RunA(k: nat, s: Ptr, d: Ptr)
      requires k < |circuits| && Wired(st.rings, st.current) && ev.slots.Length == MAX_EVENTS && ev.T() == st.table
      requires InRange(st) && Inv(Machine.RunA(st, k, s, d).state) && calls == CallsIn(log)
      modifies this`st, this`log, this`calls, circuits, ev, ev.slots, env
      ensures Valid() && st.pending == old(st.pending) && st.stack == old(st.stack)
      ensures old(log) + Calls(Machine.RunA(old(st), k, s, d)) <= log
      ensures var r := Machine.RunA(old(st), k, s, d);
              Drive(st, env.script, log) == Drive(r.state, old(env.script), old(log) + Calls(r))
      ensures TasksOnly(old(log), log)
      ensures |env.script| <= old(|env.script|)
      decreases |env.script|, 4
    {
      hide Machine.Inv, Driver.Drive;
      Enter(k, st.rings, st.current);
      st := Machine.RunA(st, k, s, d).state;
      CallTask(k, s, d);
    }

    // ---------- the loop ----------

    /** The kernel fills in the batch, and disarms what it reports. */
    method Report(ready: seq<Ready>, ghost next: State) returns (events: seq<Event>)
      requires Matches(st) && CanReport(st.table.armed, ready) && next == TakeBatch(st, ready)
      modifies this`st, ev`armed
      ensures Matches(st) && st == next && events == next.pending
    {
      var armed := ev.armed;
      events := seq(|ready|, i requires 0 <= i < |ready| && ready[i].fd in armed =>
                      Event(armed[ready[i].fd], ready[i].hup, ready[i].err));
      ev.armed := armed - ReadyFds(ready);
      st := next;
    }

    /** epoll_wait */
    method EvWait() returns (nfds: int, events: seq<Event>)
      requires Valid() && st.stack == [] && st.pending == [] && st.table.waiting != 0 && !Stops(env.script)
      modifies this`st, this`polls, ev, env
      ensures polls == old(polls) + [nfds]
      ensures nfds > 0 <==> old(env.script) != [] && old(env.script)[0].Reports? &&
                            CanReport(old(ev.armed), old(env.script)[0].ready)
      ensures nfds == 0 <==> old(env.script) != [] && old(env.script)[0] == Reports([])
      ensures nfds < 0 ==> nfds == -1
      ensures nfds <= 0 ==> st == old(st) && env.script == Rest(old(env.script))
      ensures nfds > 0 ==>
                var ready := old(env.script)[0].ready;
                && nfds == |events| == |ready|
                && (forall i :: 0 <= i < |ready| ==> ready[i].fd in old(ev.armed))
                && (forall i :: 0 <= i < |ready| ==>
                      events[i] == Event(old(ev.armed)[ready[i].fd], ready[i].hup, ready[i].err))
                && (forall fd :: fd in ev.armed <==> fd in old(ev.armed) && fd !in ReadyFds(ready))
      ensures Valid() && st.stack == [] && st.pending == events && |events| == if nfds < 0 then 0 else nfds
      ensures nfds > 0 ==> |env.script| < old(|env.script|)
                           && Drive(st, env.script, log) == Drive(old(st), old(env.script), log)
      ensures nfds <= 0 ==> Drive(old(st), old(env.script), log) ==
                            Driven(st, env.script, if nfds == 0 then TimedOut else PollFailed, log)
    {
      hide Machine.Inv, Driver.Drive;
      ghost var script := env.script;
      var answer := env.Next();
      if answer.Some? && answer.value.Reports? && CanReport(ev.armed, answer.value.ready) {
        var ready := answer.value.ready;
        PollAnswer(st, script, log, ready);
        events := Report(ready, TakeBatch(st, ready));
        nfds := |ready|;
        polls := polls + [nfds];
        return;
      }
      PollEnds(st, script, log);
      events := [];
      nfds := if answer.Some? && answer.value == Reports([]) then 0 else -1;
      polls := polls + [nfds];
    }

    /** The body of the batch loop: take the waiting circuit's data out of the bag, free the bag, and fail
        or resume the circuit. */
    method HandleOne(e: Event)
      requires Valid() && st.stack == [] && st.pending != [] && e == st.pending[0]
      modifies this`st, this`log, this`calls, circuits, ev, ev.slots, env
      ensures e.bag in old(ev.heap) && old(ev.heap)[e.bag].circuit < |circuits|
      ensures e.hup || e.err ==>
                var bag := old(ev.heap)[e.bag];
                && log == old(log) + [Closed(bag.fd), Failed(bag.circuit, bag.state, bag.data)]
                && calls == old(calls) + (if circuits[bag.circuit].hasErr
                                          then [Callback(bag.circuit, bag.state, bag.data)] else [])
                && bag.fd !in ev.armed && env.script == old(env.script)
      ensures !e.hup && !e.err ==>
                var bag := old(ev.heap)[e.bag];
                && old(st.current)[bag.circuit].Some?
                && old(log) + [Entered(Exec(bag.circuit, old(st.current)[bag.circuit].value, bag.state, bag.data))]
                   <= log
                && TasksOnly(old(log), log)
      ensures Valid() && st.stack == [] && st.pending == old(st.pending)[1..]
      ensures Drive(st, env.script, log) == Drive(old(st), old(env.script), old(log))
      ensures |env.script| <= old(|env.script|)
    {
      hide Machine.Inv, Driver.Drive, BagTable.FreeBag, CallsIn, TasksOnly;
      EventIsLive(st);
      var bag := ev.heap[e.bag];
      ev.BagFree(e.bag);
      if e.hup {
        FailWaiter(e.bag, bag);
      } else if e.err {
        FailWaiter(e.bag, bag);
      } else {
        ResumeWaiter(e.bag, bag);
      }
    }

    /** The bag of the next event has been freed; the event is a hang-up or an error. */
    method FailWaiter(a: Addr, bag: Bag)
      requires Inv(st) && Wired(st.rings, st.current) && ev.slots.Length == MAX_EVENTS && calls == CallsIn(log)
      requires st.stack == [] && st.pending != [] && st.pending[0].bag == a && (st.pending[0].hup || st.pending[0].err)
      requires ev.T() == FreeBag(st.table, a) && a in st.table.heap && bag == st.table.heap[a]
      modifies this`st, this`log, this`calls, circuits, ev`armed
      ensures Valid() && st.stack == [] && st.pending == old(st.pending)[1..] && bag.circuit < |circuits|
      ensures log == old(log) + [Closed(bag.fd), Failed(bag.circuit, bag.state, bag.data)]
      ensures calls == old(calls) + (if circuits[bag.circuit].hasErr
                                     then [Callback(bag.circuit, bag.state, bag.data)] else [])
      ensures bag.fd !in ev.armed
      ensures Drive(st, env.script, log) == Drive(old(st), env.script, old(log))
    {
      hide Machine.Inv, Driver.Drive, Machine.HandleEvent, BagTable.FreeBag, CallsIn;
      EventIsLive(st);
      HangUpEffect(st, env.script, log, bag);
      HangUp(a, bag, HandleEvent(st).state);
    }

    /** The bag of the next event has been freed; the event is an ordinary one. */
    method ResumeWaiter(a: Addr, bag: Bag)
      requires Inv(st) && Wired(st.rings, st.current) && ev.slots.Length == MAX_EVENTS && calls == CallsIn(log)
      requires st.stack == [] && st.pending != [] && st.pending[0].bag == a && !st.pending[0].hup && !st.pending[0].err
      requires ev.T() == FreeBag(st.table, a) && a in st.table.heap && bag == st.table.heap[a]
      modifies this`st, this`log, this`calls, circuits, ev, ev.slots, env
      ensures Valid() && st.stack == [] && st.pending == old(st.pending)[1..]
      ensures bag.circuit < |circuits| == |old(st.current)| && old(st.current)[bag.circuit].Some?
      ensures old(log) + [Entered(Exec(bag.circuit, old(st.current)[bag.circuit].value, bag.state, bag.data))] <= log
      ensures TasksOnly(old(log), log)
      ensures Drive(st, env.script, log) == Drive(old(st), old(env.script), old(log))
      ensures |env.script| <= old(|env.script|)
    {
      hide Machine.Inv, Driver.Drive, Machine.RunA, Deeds.Calls, BagTable.FreeBag, CallsIn, TasksOnly;
      EventIsLive(st);
      ResumeEffect(st, env.script, log, bag);
      st := Claimed(st);
      RunA(bag.circuit, bag.state, bag.data);
    }

    /** The remote end is gone, or the descriptor is broken: dearm it, close it, and fail the circuit, with the
        arguments it waited with. */
    method HangUp(a: Addr, bag: Bag, ghost next: State)
      requires Wired(st.rings, st.current) && ev.slots.Length == MAX_EVENTS && ev.T() == FreeBag(st.table, a)
      requires bag.circuit < |circuits| && HangsUp(st, a, bag, next)
      modifies this`st, this`log, this`calls, circuits, ev`armed
      ensures Matches(st) && st == next && bag.fd !in ev.armed
      ensures log == old(log) + [Closed(bag.fd), Failed(bag.circuit, bag.state, bag.data)]
      ensures calls == old(calls) + (if circuits[bag.circuit].hasErr
                                     then [Callback(bag.circuit, bag.state, bag.data)] else [])
      ensures old(calls) == CallsIn(old(log)) ==> calls == CallsIn(log)
    {
      ev.Dearm(bag.fd);
      Close(bag.fd);
      ErrorA(bag.circuit, bag.state, bag.data, st.rings, st.current);
      st := next;
      assert (old(log) + [Closed(bag.fd)]) + [Failed(bag.circuit, bag.state, bag.data)] == log;
    }

    /** The loop over one batch. */
    method HandleBatch(events: seq<Event>)
      requires Valid() && st.stack == [] && st.pending == events
      modifies this`st, this`log, this`calls, circuits, ev, ev.slots, env
      ensures Valid() && st.stack == [] && st.pending == []
      ensures Drive(st, env.script, log) == Drive(old(st), old(env.script), old(log))
      ensures |env.script| <= old(|env.script|)
    {
      hide Machine.Inv, Driver.Drive;
      ghost var d := Drive(st, env.script, log);
      for i := 0 to |events|
        invariant Valid() && st.stack == [] && st.pending == events[i..]
        invariant Drive(st, env.script, log) == d && |env.script| <= old(|env.script|)
      {
        HandleOne(events[i]);
      }
    }

    /** Wait for events and resume circuits until no bag is left, the status asks to stop, or epoll_wait
        fails or times out. The head of the script says whether *status asks to stop. */
    method MeloopIoLoop() returns (ret: int)
      requires Valid() && st.stack == [] && st.pending == []
      modifies this`st, this`log, this`calls, this`polls, circuits, ev, ev.slots, env
      ensures Valid()
      // The loop ends at once, without a call of epoll_wait, when it is asked to stop or no bag is left.
      ensures (old(env.script) != [] && old(env.script)[0] == StatusStops) || old(ev.waiting) == 0 ==>
                ret == 0 && polls == old(polls) && env.script == old(env.script) && st == old(st) && log == old(log)
      // It ends after one call of epoll_wait that times out or fails.
      ensures old(ev.waiting) != 0 && old(env.script) != [] && old(env.script)[0] == Reports([]) ==>
                ret == 0 && polls == old(polls) + [0] && st == old(st) && log == old(log)
      ensures old(ev.waiting) != 0 && (old(env.script) == [] || (old(env.script)[0].Reports? &&
                old(env.script)[0] != Reports([]) && !CanReport(old(ev.armed), old(env.script)[0].ready))) ==>
                ret == -1 && polls == old(polls) + [-1] && st == old(st) && log == old(log)
      // However long it runs, it answers -1 iff the last call of epoll_wait failed, and else 0, for a reason.
      ensures old(polls) <= polls && (ret == -1 || ret == 0)
      ensures ret == -1 <==> |polls| > |old(polls)| && polls[|polls| - 1] < 0
      ensures ret == 0 ==>
                || (env.script != [] && env.script[0] == StatusStops) || ev.waiting == 0
                || (|polls| > |old(polls)| && polls[|polls| - 1] == 0)
      // The state, what was done and the answers left are those of the flat description.
      ensures var d := Drive(old(st), old(env.script), old(log));
              st == d.state && env.script == d.script && ret == Ret(d.exit) && log == d.log
      // They are those of a run, and the descriptors closed are the ones that hung up in it, in order.
      ensures IsLoopRun(old(st), st, old(log), log)
    {
      hide Machine.Inv, Driver.Drive, Driver.IsLoopRun;
      ret := OK;
      ghost var d := Drive(st, env.script, log);
      while !Stops(env.script) && ev.More() != 0
        invariant Valid() && st.stack == [] && st.pending == [] && ret == OK
        invariant Drive(st, env.script, log) == d
        invariant old(polls) <= polls && forall i :: |old(polls)| <= i < |polls| ==> polls[i] > 0
        invariant polls == old(polls) ==>
                    && st == old(st) && log == old(log) && env.script == old(env.script)
                    && ev.waiting == old(ev.waiting) && ev.armed == old(ev.armed)
        invariant polls != old(polls) ==>
                    && !Stops(old(env.script)) && old(ev.waiting) != 0 && old(env.script) != []
                    && old(env.script)[0].Reports? && CanReport(old(ev.armed), old(env.script)[0].ready)
        decreases |env.script|
      {
        var nfds, events := EvWait();
        if nfds < 0 {
          ret := ERR;
          DriveCloses(old(st), old(env.script), old(log));
          return;
        }
        if nfds == 0 {
          DriveCloses(old(st), old(env.script), old(log));
          return;
        }
        HandleBatch(events);
      }
      GuardEnds(st, env.script, log);
      DriveCloses(old(st), old(env.script), old(log));
    }
  }
}
