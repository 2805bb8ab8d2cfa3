/**
 Circuits and the event loop as one small-step machine (meloop/arrow.c, meloop/ev.c, meloop/io.c).

 What the source cannot decide is a choice of the environment: which call a task makes, which address
 malloc answers, whether epoll_ctl succeeds, which armed file descriptors are ready and with which flags.
 A task makes exactly one of the calls returnA, errorA and waitA, and may start other circuits before.
 Dereferencing NULL or a freed bag is a Fault, never assumed away.
 */
module Machine {
  import opened CTypes
  import opened Options
  import opened Rings
  import opened BagTable

  /** A task in progress: the circuit it belongs to and the arguments it was called with. */
  datatype Frame = Frame(circuit: nat, state: Ptr, data: Ptr)

  /** An entry of the batch that epoll_wait filled in. */
  datatype Event = Event(bag: Addr, hup: bool, err: bool)

  datatype Ready = Ready(fd: Fd, hup: bool, err: bool)

  datatype Outcome =
    | Return(state: Ptr, data: Ptr)
    | Fail(state: Ptr, data: Ptr)
    | Wait(state: Ptr, data: Ptr, fd: Fd, bag: Addr, armed: bool)

  datatype Choice =
    | Start(circuit: nat, state: Ptr, data: Ptr)  // runA by the program
    | Task(outcome: Outcome)                      // the call that the innermost task makes
    | Poll(ready: seq<Ready>)                     // epoll_wait
    | Dispatch                                    // the next event of the batch

  /** One execution of a task: the circuit, the element's position, and the arguments. */
  datatype Exec = Exec(circuit: nat, element: nat, state: Ptr, data: Ptr)

  datatype State = State(
    rings: seq<Ring>,                // the circuits
    current: seq<Option<nat>>,       // c->current of each
    table: Table,
    pending: seq<Event>,             // rest of the current batch
    stack: seq<Frame>,               // tasks in progress, innermost at the end
    parked: map<nat, Addr>)          // history: the bag of each circuit's last armed wait, until its event

  datatype Fault = NullCurrent | DeadBag

  datatype Result = Fine(state: State, ran: Option<Exec>) | Faulty(fault: Fault)

  /** Nothing runs, nothing waits. */
  function Boot(rings: seq<Ring>): State {
    State(rings, seq(|rings|, i => None), NewTable(), [], [], map[])
  }

  predicate InRange(st: State) {
    && |st.current| == |st.rings|
    && (forall c :: 0 <= c < |st.rings| ==> st.rings[c].Valid())
    && (forall c :: 0 <= c < |st.rings| && st.current[c].Some? ==> st.current[c].value < st.rings[c].size)
    && (forall f <- st.stack :: f.circuit < |st.rings|)
    && (forall a <- st.table.heap :: st.table.heap[a].circuit < |st.rings|)
  }

  /** The choices the environment has. */
  predicate Enabled(st: State, ch: Choice) {
    match ch
    case Start(c, s, d) => c < |st.rings|
    case Task(o) => st.stack != [] && (o.Wait? ==> o.bag !in st.table.heap)
    case Poll(ready) =>
      && st.stack == [] && st.pending == [] && st.table.waiting != 0
      && 0 < |ready| <= MAX_EVENTS
      && (forall i :: 0 <= i < |ready| ==> ready[i].fd in st.table.armed)
      && (forall i, j :: 0 <= i < j < |ready| ==> ready[i].fd != ready[j].fd)
    case Dispatch => st.stack == [] && st.pending != []
  }

  // ---------- the steps ----------

  /** runA: go on at the current element, or at the head when there is none. */
  function RunA(st: State, c: nat, s: Ptr, d: Ptr): (r: Result)
    requires InRange(st) && c < |st.rings|
    ensures r.Fine? && InRange(r.state) && r.state.rings == st.rings
  {
    var i := if st.current[c].None? then 0 else st.current[c].value;
    Fine(st.(current := st.current[c := Some(i)], stack := st.stack + [Frame(c, s, d)]),
         Some(Exec(c, i, s, d)))
  }

  function Pop(st: State): State
    requires st.stack != []
  {
    st.(stack := st.stack[..|st.stack| - 1])
  }

  function Top(st: State): Frame
    requires st.stack != []
  {
    st.stack[|st.stack| - 1]
  }

  /** returnA by the innermost task: the next element runs, or the circuit is done. */
  function ReturnA(st: State, s: Ptr, d: Ptr): (r: Result)
    requires InRange(st) && st.stack != []
    ensures r.Fine? ==> InRange(r.state) && r.state.rings == st.rings
  {
    var c := Top(st).circuit;
    if st.current[c].None? then
      Faulty(NullCurrent)
    else
      match st.rings[c].Next(st.current[c].value)
      case None => Fine(Pop(st).(current := st.current[c := None]), None)
      case Some(j) =>
        Fine(Pop(st).(current := st.current[c := Some(j)], stack := Pop(st).stack + [Frame(c, s, d)]),
             Some(Exec(c, j, s, d)))
  }

  /** errorA by the innermost task. */
  function ErrorA(st: State): (r: Result)
    requires InRange(st) && st.stack != []
    ensures r.Fine? && InRange(r.state) && r.state.rings == st.rings
  {
    Fine(Pop(st).(current := st.current[Top(st).circuit := None]), None)
  }

  /** waitA by the innermost task. When arming fails the new bag stays behind. */
  function WaitA(st: State, o: Outcome): (r: Result)
    requires InRange(st) && st.stack != [] && o.Wait?
    ensures r.Fine? && InRange(r.state) && r.state.rings == st.rings
  {
    var c := Top(st).circuit;
    var t := NewBag(st.table, o.bag, Bag(o.fd, c, o.state, o.data));
    if o.armed then
      Fine(Pop(st).(table := ArmBag(t, o.fd, o.bag), parked := st.parked[c := o.bag]), None)
    else
      Fine(Pop(st).(table := t, current := st.current[c := None]), None)
  }

  function EventOf(st: State, r: Ready): Event
    requires r.fd in st.table.armed
  {
    Event(st.table.armed[r.fd], r.hup, r.err)
  }

  function ReadyFds(ready: seq<Ready>): set<Fd> {
    set r | r in ready :: r.fd
  }

  /** epoll_wait: the reported descriptors are disarmed (EPOLLONESHOT). */
  function TakeBatch(st: State, ready: seq<Ready>): State
    requires forall i :: 0 <= i < |ready| ==> ready[i].fd in st.table.armed
  {
    st.(pending := seq(|ready|, i requires 0 <= i < |ready| => EventOf(st, ready[i])),
        table := DisarmAll(st.table, ReadyFds(ready)))
  }

  /** The body of the batch loop. */
  function HandleEvent(st: State): (r: Result)
    requires InRange(st) && st.pending != []
    ensures r.Fine? ==> InRange(r.state) && r.state.rings == st.rings
  {
    var ev := st.pending[0];
    if ev.bag !in st.table.heap then
      Faulty(DeadBag)
    else
      var bag := st.table.heap[ev.bag];
      var st1 := st.(pending := st.pending[1..], table := FreeBag(st.table, ev.bag),
                     parked := st.parked - {bag.circuit});
      if ev.hup || ev.err then
        Fine(st1.(table := DisarmAll(st1.table, {bag.fd}), current := st.current[bag.circuit := None]), None)
      else
        RunA(st1, bag.circuit, bag.state, bag.data)
  }

  function Step(st: State, ch: Choice): (r: Result)
    requires InRange(st) && Enabled(st, ch)
    ensures r.Fine? ==> InRange(r.state) && r.state.rings == st.rings
  {
    match ch
    case Start(c, s, d) => RunA(st, c, s, d)
    case Task(Return(s, d)) => ReturnA(st, s, d)
    case Task(Fail(_, _)) => ErrorA(st)
    case Task(Wait(s, d, fd, bag, armed)) => WaitA(st, Wait(s, d, fd, bag, armed))
    case Poll(ready) => Fine(TakeBatch(st, ready), None)
    case Dispatch => HandleEvent(st)
  }

  /** The one rule for programs: a circuit is started only while its `current` is NULL. */
  predicate Disciplined(st: State, ch: Choice) {
    ch.Start? && ch.circuit < |st.current| ==> st.current[ch.circuit].None?
  }

  // ---------- what holds in every state of every program ----------

  /** Every bag that an armed descriptor or the rest of the batch points to is live, and is pointed to
      from one place only. */
  predicate KernelOk(st: State) {
    && (forall fd <- st.table.armed :: st.table.armed[fd] in st.table.heap)
    && (forall fd <- st.table.armed :: st.table.heap[st.table.armed[fd]].fd == fd)
    && (forall i :: 0 <= i < |st.pending| ==> st.pending[i].bag in st.table.heap)
    && (forall i, j :: 0 <= i < j < |st.pending| ==> st.pending[i].bag != st.pending[j].bag)
    && (forall i, fd :: 0 <= i < |st.pending| && fd in st.table.armed ==> st.pending[i].bag != st.table.armed[fd])
  }

  predicate Base(st: State) {
    InRange(st) && TableOk(st.table) && KernelOk(st)
  }

  // ---------- what holds in every state of a program that obeys the rule ----------

  predicate OnStack(stack: seq<Frame>, c: nat) {
    exists i :: 0 <= i < |stack| && stack[i].circuit == c
  }

  /** No two tasks in progress belong to the same circuit, and none to a waiting one. */
  predicate StackOk(st: State) {
    && (forall i, j :: 0 <= i < j < |st.stack| ==> st.stack[i].circuit != st.stack[j].circuit)
    && (forall i :: 0 <= i < |st.stack| ==> st.stack[i].circuit !in st.parked)
  }

  /** The bag belongs to a circuit whose outstanding wait it is. */
  predicate Outstanding(st: State, a: Addr) {
    && a in st.table.heap
    && st.table.heap[a].circuit in st.parked
    && st.parked[st.table.heap[a].circuit] == a
  }

  predicate ClaimsOk(st: State) {
    && (forall fd <- st.table.armed :: Outstanding(st, st.table.armed[fd]))
    && (forall i :: 0 <= i < |st.pending| ==> Outstanding(st, st.pending[i].bag))
  }

  predicate ParkedOk(st: State) {
    forall c <- st.parked ::
      c < |st.rings| && st.parked[c] in st.table.heap && st.table.heap[st.parked[c]].circuit == c
  }

  /** `current` is set exactly while the circuit runs or waits. */
  predicate CurrentOk(st: State) {
    |st.current| == |st.rings| &&
    forall c :: 0 <= c < |st.rings| ==> (st.current[c].Some? <==> OnStack(st.stack, c) || c in st.parked)
  }

  predicate Owned(st: State) {
    StackOk(st) && ClaimsOk(st) && ParkedOk(st) && CurrentOk(st)
  }

  predicate Inv(st: State) {
    Base(st) && Owned(st)
  }

  lemma BootInv(rings: seq<Ring>)
    requires forall c :: 0 <= c < |rings| ==> rings[c].Valid()
    ensures Inv(Boot(rings))
  {
    NewTableOk();
  }
}
