/**
 What leaving the event loop through its guard means, when arming never fails, no descriptor is shared and
 at most 16 circuits wait at a time: nobody is still waiting.
 */
module LoopExit {
  import opened Options
  import opened Rings
  import opened BagTable
  import opened Machine
  import opened Invariant
  import opened Runs

  /** A task waits only for a descriptor that nobody else waits for, arming it succeeds, and the table has
      room. All of it is known before, or from the answer of, the call. */
  predicate Exclusive(st: State, ch: Choice)
    requires Base(st)
  {
    ch.Task? && ch.outcome.Wait? ==>
      && ch.outcome.armed
      && ch.outcome.fd !in st.table.armed
      && (forall i :: 0 <= i < |st.pending| ==> st.table.heap[st.pending[i].bag].fd != ch.outcome.fd)
      && st.table.waiting < MAX_EVENTS
  }

  ghost predicate AllExclusive(st: State, chs: seq<Choice>)
    requires GoodRun(st, chs)
    decreases |chs|
  {
    chs == [] ||
    (Exclusive(st, chs[0]) && (RunHead(st, chs); AllExclusive(Step(st, chs[0]).state, chs[1..])))
  }

  predicate IsPending(st: State, a: Addr) {
    exists i :: 0 <= i < |st.pending| && st.pending[i].bag == a
  }

  /** The live bag is armed on its own descriptor, or its event is pending and the descriptor is not armed. */
  predicate Tracked(st: State, a: Addr)
    requires a in st.table.heap
  {
    var fd := st.table.heap[a].fd;
    if fd in st.table.armed then st.table.armed[fd] == a else IsPending(st, a)
  }

  /** Every live bag is remembered and tracked, and no two of them share a descriptor. */
  predicate Bijective(st: State)
    requires Base(st)
  {
    && st.table.heap.Keys == Remembered(st.table)
    && (forall a <- st.table.heap :: Tracked(st, a))
    && (forall a <- st.table.heap, b <- st.table.heap :: st.table.heap[a].fd == st.table.heap[b].fd ==> a == b)
  }

  lemma NewDescriptor(st: State, o: Outcome)
    requires Base(st) && Bijective(st) && o.Wait? && Exclusive(st, Task(o))
    ensures forall a <- st.table.heap :: st.table.heap[a].fd != o.fd
  {
    forall a <- st.table.heap ensures st.table.heap[a].fd != o.fd {
      assert Tracked(st, a);
    }
  }

  lemma WaitTracked(st: State, o: Outcome, a: Addr)
    requires Base(st) && Enabled(st, Task(o)) && o.Wait? && o.armed
    requires a in st.table.heap && Tracked(st, a) && st.table.heap[a].fd != o.fd
    ensures a in WaitA(st, o).state.table.heap && Tracked(WaitA(st, o).state, a)
  {
    hide BagTable.TableOk, Machine.KernelOk, BagTable.Remember;
    assert IsPending(st, a) ==> IsPending(WaitA(st, o).state, a);
  }

  lemma WaitTracks(st: State, o: Outcome)
    requires Base(st) && Bijective(st) && Enabled(st, Task(o)) && o.Wait? && Exclusive(st, Task(o))
    ensures forall a <- WaitA(st, o).state.table.heap :: Tracked(WaitA(st, o).state, a)
  {
    NewDescriptor(st, o);
    var st' := WaitA(st, o).state;
    forall a <- st'.table.heap ensures Tracked(st', a) {
      if a != o.bag {
        WaitTracked(st, o, a);
      }
    }
  }

  lemma WaitBijective(st: State, o: Outcome)
    requires Base(st) && Bijective(st) && Enabled(st, Task(o)) && o.Wait? && Exclusive(st, Task(o))
    ensures Base(WaitA(st, o).state) && Bijective(WaitA(st, o).state)
  {
    WaitBase(st, o);
    WaitTracks(st, o);
    NewDescriptor(st, o);
    var bag := Bag(o.fd, Top(st).circuit, o.state, o.data);
    NewBagKeeps(st.table, o.bag, bag);
    assert WaitA(st, o).state.table == ArmBag(NewBag(st.table, o.bag, bag), o.fd, o.bag);
  }

  lemma PollBijective(st: State, ready: seq<Ready>)
    requires Base(st) && Bijective(st) && Enabled(st, Poll(ready))
    ensures Base(TakeBatch(st, ready)) && Bijective(TakeBatch(st, ready))
  {
    PollBase(st, ready);
    var st' := TakeBatch(st, ready);
    forall a <- st'.table.heap ensures Tracked(st', a) {
      assert Tracked(st, a);
      var fd := st.table.heap[a].fd;
      if fd !in st'.table.armed {
        var r :| r in ready && r.fd == fd;
        var i :| 0 <= i < |ready| && ready[i] == r;
        assert st'.pending[i].bag == a;
      }
    }
  }

  lemma DispatchBijective(st: State)
    requires Base(st) && Bijective(st) && Enabled(st, Dispatch)
    ensures HandleEvent(st).Fine? && Base(HandleEvent(st).state) && Bijective(HandleEvent(st).state)
  {
    DispatchBase(st);
    var a := st.pending[0].bag;
    var fd := st.table.heap[a].fd;
    FreeBagKeeps(st.table, a);
    var st' := HandleEvent(st).state;
    assert st'.table.heap == st.table.heap - {a};
    assert Tracked(st, a);
    forall b <- st'.table.heap ensures Tracked(st', b) {
      assert Tracked(st, b) && st.table.heap[b].fd != fd;
      if IsPending(st, b) {
        var i :| 0 <= i < |st.pending| && st.pending[i].bag == b;
        assert st'.pending[i - 1] == st.pending[i];
      }
    }
  }

  lemma StepBijective(st: State, ch: Choice)
    requires Base(st) && Bijective(st) && Enabled(st, ch) && Exclusive(st, ch) && Step(st, ch).Fine?
    ensures Base(Step(st, ch).state) && Bijective(Step(st, ch).state)
  {
    BatchLiveness(st, ch);
    match ch
    case Task(Wait(s, d, fd, b, armed)) => WaitBijective(st, Wait(s, d, fd, b, armed));
    case Poll(ready) => PollBijective(st, ready);
    case Dispatch => DispatchBijective(st);
    case _ =>
      var st' := Step(st, ch).state;
      assert st'.table == st.table && st'.pending == st.pending;
      forall a <- st'.table.heap ensures Tracked(st', a) {
        assert Tracked(st, a);
        assert IsPending(st, a) <==> IsPending(st', a);
      }
  }

  lemma {:induction false} RunBijective(st: State, chs: seq<Choice>)
    requires GoodRun(st, chs) && AllExclusive(st, chs) && Bijective(st)
    ensures Bijective(RunEnd(st, chs))
    decreases |chs|
  {
    if chs != [] {
      RunHead(st, chs);
      StepBijective(st, chs[0]);
      RunBijective(Step(st, chs[0]).state, chs[1..]);
    }
  }

  /** Between two rounds of the loop: no task in progress and the batch used up. */
  predicate BetweenRounds(st: State) {
    st.stack == [] && st.pending == []
  }

  /** Between rounds remembered bags and armed descriptors correspond one to one, so the counter is the
      number of armed descriptors, and it is 0 iff no circuit waits. */
  lemma GuardMeaning(st: State)
    requires Inv(st) && Bijective(st) && BetweenRounds(st)
    ensures st.table.heap.Keys == Remembered(st.table)
    ensures forall a <- Remembered(st.table) ::
              st.table.heap[a].fd in st.table.armed && st.table.armed[st.table.heap[a].fd] == a
    ensures forall fd <- st.table.armed ::
              st.table.armed[fd] in Remembered(st.table) && st.table.heap[st.table.armed[fd]].fd == fd
    ensures st.table.waiting == |st.table.armed|
    ensures st.table.waiting == 0 <==> forall c :: 0 <= c < |st.rings| ==> st.current[c].None?
  {
    WaitingCountsRemembered(st.table);
    forall a <- st.table.heap
      ensures st.table.heap[a].fd in st.table.armed && st.table.armed[st.table.heap[a].fd] == a
    {
      assert Tracked(st, a);
    }
    SameSize(st.table.heap.Keys, st.table.armed.Keys, st.table.heap, st.table.armed);
    if st.table.waiting == 0 {
      assert st.table.heap.Keys == {};
    } else {
      var a :| a in st.table.heap;
      assert Outstanding(st, st.table.armed[st.table.heap[a].fd]);
      assert st.current[st.table.heap[a].circuit].Some?;
    }
  }

  /** Bags and descriptors that point to each other are equally many. */
  lemma {:induction false} SameSize(bags: set<Addr>, fds: set<Fd>, heap: map<Addr, Bag>, armed: map<Fd, Addr>)
    requires bags <= heap.Keys && fds <= armed.Keys
    requires forall a <- bags :: heap[a].fd in fds && armed[heap[a].fd] == a
    requires forall fd <- fds :: armed[fd] in bags && heap[armed[fd]].fd == fd
    ensures |bags| == |fds|
    decreases |bags|
  {
    var image := set a | a in bags :: heap[a].fd;
    forall fd <- fds ensures fd in image {
      var a := armed[fd];
      assert a in bags && heap[a].fd == fd;
    }
    if bags != {} {
      var a :| a in bags;
      var fd := heap[a].fd;
      SameSize(bags - {a}, fds - {fd}, heap, armed);
    }
  }

  /** Loop exit, over whole runs: started with all circuits idle, a program that obeys the rule and waits
      exclusively leaves the loop through a zero counter iff no circuit is still waiting. */
  lemma {:induction false} LoopExitMeaning(rings: seq<Ring>, chs: seq<Choice>)
    requires forall c :: 0 <= c < |rings| ==> rings[c].Valid()
    requires GoodRun(Boot(rings), chs) && AllExclusive(Boot(rings), chs)
    requires BetweenRounds(RunEnd(Boot(rings), chs))
    ensures var st := RunEnd(Boot(rings), chs);
            && st.table.waiting == |st.table.armed|
            && (st.table.waiting == 0 <==> forall c :: 0 <= c < |st.rings| ==> st.current[c].None?)
  {
    var st := Boot(rings);
    assert Remembered(st.table) == {};
    RunBijective(st, chs);
    GuardMeaning(RunEnd(st, chs));
  }

  /** Without them the guard can be wrong. After a failed arming the counter is positive although no circuit
      waits, and by StrandedForever it stays so. (Overflow shows when it is 0 although a circuit waits.) */
  lemma GuardAfterArmingFailure(fd: Fd, a: Addr)
    ensures var st := RunA(Boot([Ring(1, None)]), 0, 0, 0).state;
            var st' := WaitA(st, Wait(0, 0, fd, a, false)).state;
            && BetweenRounds(st') && st'.current == [None]
            && st'.table.waiting == 1 && st'.table.armed == map[]
  {
    BootInv([Ring(1, None)]);
    var st := RunA(Boot([Ring(1, None)]), 0, 0, 0).state;
    NewTableOk();
    assert Remembered(NewTable()) == {};
    WaitingCountsRemembered(NewTable());
    NewBagKeeps(NewTable(), a, Bag(fd, 0, 0, 0));
  }
}
