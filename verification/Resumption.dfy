/** Faithful resumption: an armed wait re-enters the element that asked for it, with its arguments. */
module Resumption {
  import opened Options
  import opened BagTable
  import opened Machine
  import opened Invariant
  import opened Runs
  import opened Deeds

  /** Circuit c waits at element i, and `bag`, live at a, is what it waits with. */
  predicate WaitsWith(st: State, c: nat, i: nat, a: Addr, bag: Bag) {
    && c < |st.current| && st.current[c] == Some(i)
    && c in st.parked && st.parked[c] == a
    && a in st.table.heap && st.table.heap[a] == bag && bag.circuit == c
  }

  lemma WaitBegins(st: State, o: Outcome)
    requires Inv(st) && Enabled(st, Task(o)) && o.Wait? && o.armed
    ensures Safe(Step(st, Task(o)))
    ensures var c := Top(st).circuit;
            && st.current[c].Some?
            && WaitsWith(Step(st, Task(o)).state, c, st.current[c].value, o.bag,
                         Bag(o.fd, c, o.state, o.data))
  {
    StepKeeps(st, Task(o));
    PopOffStack(st);
    NewBagKeeps(st.table, o.bag, Bag(o.fd, Top(st).circuit, o.state, o.data));
  }

  lemma TaskLeavesWait(st: State, o: Outcome, c: nat, i: nat, a: Addr, bag: Bag)
    requires Inv(st) && Enabled(st, Task(o)) && WaitsWith(st, c, i, a, bag) && Step(st, Task(o)).Fine?
    ensures WaitsWith(Step(st, Task(o)).state, c, i, a, bag)
  {
    assert Top(st).circuit != c;
    if o.Wait? {
      NewBagKeeps(st.table, o.bag, Bag(o.fd, Top(st).circuit, o.state, o.data));
    }
    hide Machine.Owned, Machine.KernelOk, BagTable.TableOk, BagTable.NewBag;
  }

  lemma OtherEventLeavesWait(st: State, c: nat, i: nat, a: Addr, bag: Bag)
    requires Inv(st) && st.pending != [] && st.pending[0].bag != a && WaitsWith(st, c, i, a, bag)
    ensures HandleEvent(st).Fine? && WaitsWith(HandleEvent(st).state, c, i, a, bag)
  {
    assert Outstanding(st, st.pending[0].bag);
    FreeBagKeeps(st.table, st.pending[0].bag);
  }

  lemma WaitLasts(st: State, ch: Choice, c: nat, i: nat, a: Addr, bag: Bag)
    requires Inv(st) && Enabled(st, ch) && Disciplined(st, ch) && Safe(Step(st, ch))
    requires WaitsWith(st, c, i, a, bag)
    requires !(ch.Dispatch? && st.pending[0].bag == a)
    ensures WaitsWith(Step(st, ch).state, c, i, a, bag)
  {
    match ch
    case Start(_, _, _) =>
    case Task(o) => TaskLeavesWait(st, o, c, i, a, bag);
    case Poll(_) =>
    case Dispatch => OtherEventLeavesWait(st, c, i, a, bag);
  }

  lemma {:induction false} WaitLastsRun(st: State, chs: seq<Choice>, c: nat, i: nat, a: Addr, bag: Bag)
    requires GoodRun(st, chs) && WaitsWith(st, c, i, a, bag) && Unhandled(st, chs, a)
    ensures WaitsWith(RunEnd(st, chs), c, i, a, bag)
    decreases |chs|
  {
    if chs != [] {
      RunHead(st, chs);
      WaitLasts(st, chs[0], c, i, a, bag);
      WaitLastsRun(Step(st, chs[0]).state, chs[1..], c, i, a, bag);
    }
  }

  /** A circuit waits; whatever happens until the event of its wait is handled, that event runs the element
      the circuit waits at, with the arguments in its bag. A hang-up runs nothing. */
  lemma {:induction false} WaitResumes(st: State, between: seq<Choice>, c: nat, i: nat, a: Addr, bag: Bag)
    requires GoodRun(st, between) && WaitsWith(st, c, i, a, bag) && Unhandled(st, between, a)
    requires Enabled(RunEnd(st, between), Dispatch) && RunEnd(st, between).pending[0].bag == a
    ensures var now := RunEnd(st, between);
            var ev := now.pending[0];
            Step(now, Dispatch).Fine? &&
            Step(now, Dispatch).ran == if ev.hup || ev.err then None else Some(Exec(c, i, bag.state, bag.data))
  {
    WaitLastsRun(st, between, c, i, a, bag);
    StepKeeps(RunEnd(st, between), Dispatch);
  }

  // ---------- from the report on ----------

  /** The batch is what epoll_wait reported, descriptor by descriptor, with the bag armed there and the flags. */
  lemma BatchIsReport(st: State, ready: seq<Ready>)
    requires Inv(st) && Enabled(st, Poll(ready))
    ensures Inv(TakeBatch(st, ready))
    ensures var batch := TakeBatch(st, ready).pending;
            |batch| == |ready| &&
            forall i :: 0 <= i < |ready| ==>
              batch[i] == Event(st.table.armed[ready[i].fd], ready[i].hup, ready[i].err)
  {
    StepKeeps(st, Poll(ready));
  }

  lemma EventStays(st: State, ch: Choice, ev: Event)
    requires InRange(st) && Enabled(st, ch) && Step(st, ch).Fine? && ev in st.pending
    requires !(ch.Dispatch? && st.pending[0].bag == ev.bag)
    ensures ev in Step(st, ch).state.pending
  {
    var k :| 0 <= k < |st.pending| && st.pending[k] == ev;
    if ch.Dispatch? {
      assert Step(st, ch).state.pending[k - 1] == ev;
    }
  }

  /** Until it is handled, an event stays in the batch as it is. */
  lemma {:induction false} EventLasts(st: State, chs: seq<Choice>, ev: Event)
    requires GoodRun(st, chs) && ev in st.pending && Unhandled(st, chs, ev.bag)
    ensures ev in RunEnd(st, chs).pending
    decreases |chs|
  {
    if chs != [] {
      RunHead(st, chs);
      EventStays(st, chs[0], ev);
      EventLasts(Step(st, chs[0]).state, chs[1..], ev);
    }
  }

  lemma NextEvent(st: State, ev: Event)
    requires Inv(st) && ev in st.pending && st.pending[0].bag == ev.bag
    ensures st.pending[0] == ev
  {
    var k :| 0 <= k < |st.pending| && st.pending[k] == ev;
    assert k == 0;
  }

  /** What handling this event of a waiting circuit comes to: a hang-up or an error disarms the descriptor, closes
      it and fails the circuit, with the arguments it waited with; any other event runs the element that waits. */
  predicate Handled(st: State, c: nat, i: nat, bag: Bag, failed: bool)
    requires InRange(st) && Enabled(st, Dispatch)
  {
    var r := Step(st, Dispatch);
    r.Fine? && c < |r.state.current| &&
    if failed then
      && StepDeeds(st, Dispatch) == [Closed(bag.fd), Failed(c, bag.state, bag.data)]
      && r.ran == None && r.state.current[c] == None && bag.fd !in r.state.table.armed
    else
      StepDeeds(st, Dispatch) == [Entered(Exec(c, i, bag.state, bag.data))]
  }

  lemma HandlesEvent(st: State, c: nat, i: nat, a: Addr, bag: Bag, hup: bool, err: bool)
    requires Inv(st) && WaitsWith(st, c, i, a, bag) && Enabled(st, Dispatch)
    requires st.pending[0] == Event(a, hup, err)
    ensures Handled(st, c, i, bag, hup || err)
  {
    StepKeeps(st, Dispatch);
  }

  /** epoll_wait reports a descriptor, with or without EPOLLRDHUP and EPOLLERR; anything may happen until the
      event is handled. Then the circuit whose bag was armed there fails iff either flag was reported, and
      otherwise its waiting element runs. */
  lemma {:induction false} ReportedEvent(st: State, ready: seq<Ready>, k: nat, between: seq<Choice>)
    requires Inv(st) && Enabled(st, Poll(ready)) && k < |ready|
    requires GoodRun(TakeBatch(st, ready), between)
    requires Unhandled(TakeBatch(st, ready), between, st.table.armed[ready[k].fd])
    requires var now := RunEnd(TakeBatch(st, ready), between);
             Enabled(now, Dispatch) && now.pending[0].bag == st.table.armed[ready[k].fd]
    ensures st.table.armed[ready[k].fd] in st.table.heap
    ensures var bag := st.table.heap[st.table.armed[ready[k].fd]];
            && bag.fd == ready[k].fd && bag.circuit < |st.current| && st.current[bag.circuit].Some?
            && Handled(RunEnd(TakeBatch(st, ready), between), bag.circuit, st.current[bag.circuit].value, bag,
                       ready[k].hup || ready[k].err)
  {
    var a := st.table.armed[ready[k].fd];
    assert Outstanding(st, a);
    var bag := st.table.heap[a];
    var c, batch := bag.circuit, TakeBatch(st, ready);
    var i, ev := st.current[c].value, Event(a, ready[k].hup, ready[k].err);
    BatchIsReport(st, ready);
    assert ev == batch.pending[k];
    assert WaitsWith(batch, c, i, a, bag);
    hide Machine.Inv, Machine.Step, Machine.TakeBatch, Handled;
    WaitLastsRun(batch, between, c, i, a, bag);
    EventLasts(batch, between, ev);
    NextEvent(RunEnd(batch, between), ev);
    HandlesEvent(RunEnd(batch, between), c, i, a, bag, ready[k].hup, ready[k].err);
  }

  /** A run of a program that obeys the rule leads to `end`, without handling an event of bag a. */
  ghost predicate Until(st: State, chs: seq<Choice>, a: Addr, end: State) {
    GoodRun(st, chs) && Unhandled(st, chs, a) && RunEnd(st, chs) == end && Inv(end)
  }

  /** From waitA over the report to the handling: a task waits for a descriptor and arms it; anything may happen
      until epoll_wait reports that descriptor for it, and again until the event is handled. If the report was
      flagged, the descriptor is closed and the circuit fails with the arguments of waitA; otherwise exactly
      the waiting element runs with them. */
  lemma {:induction false} FaithfulToReport(st: State, o: Outcome, parked: State, before: seq<Choice>, mid: State,
                                            ready: seq<Ready>, k: nat, batch: State, between: seq<Choice>, now: State)
    requires Inv(st) && Enabled(st, Task(o)) && o.Wait? && o.armed && Step(st, Task(o)) == Fine(parked, None)
    requires Until(parked, before, o.bag, mid)
    requires Enabled(mid, Poll(ready)) && k < |ready| && ready[k].fd == o.fd && mid.table.armed[o.fd] == o.bag
    requires batch == TakeBatch(mid, ready) && Until(batch, between, o.bag, now)
    requires Enabled(now, Dispatch) && now.pending[0].bag == o.bag
    ensures var c := Top(st).circuit;
            && st.current[c].Some?
            && Handled(now, c, st.current[c].value, Bag(o.fd, c, o.state, o.data), ready[k].hup || ready[k].err)
  {
    var c := Top(st).circuit;
    WaitBegins(st, o);
    var i, bag := st.current[c].value, Bag(o.fd, c, o.state, o.data);
    hide Machine.Inv, Machine.Step, Machine.TakeBatch, Handled;
    WaitLastsRun(parked, before, c, i, o.bag, bag);
    ReportedEvent(mid, ready, k, between);
  }

  /**
   A task of circuit c at element i waits, successfully arming a descriptor; anything may happen in
   between; then the event of that wait is handled. Unless it is a hang-up, exactly element i of c runs,
   with the state and data that the task passed to waitA, and a hang-up runs nothing.
   */
  lemma {:induction false} FaithfulResumption(st: State, o: Outcome, between: seq<Choice>)
    requires Inv(st) && Enabled(st, Task(o)) && o.Wait? && o.armed
    requires Step(st, Task(o)).Fine? && GoodRun(Step(st, Task(o)).state, between)
    requires Unhandled(Step(st, Task(o)).state, between, o.bag)
    requires var now := RunEnd(Step(st, Task(o)).state, between);
             Enabled(now, Dispatch) && now.pending[0].bag == o.bag
    ensures var now := RunEnd(Step(st, Task(o)).state, between);
            var ev, c := now.pending[0], Top(st).circuit;
            st.current[c].Some? && Step(now, Dispatch).Fine? &&
            Step(now, Dispatch).ran ==
              if ev.hup || ev.err then None else Some(Exec(c, st.current[c].value, o.state, o.data))
  {
    var c := Top(st).circuit;
    WaitBegins(st, o);
    WaitResumes(Step(st, Task(o)).state, between, c, st.current[c].value, o.bag, Bag(o.fd, c, o.state, o.data));
  }
}
