/**
 Where all the bags go, over every run of every program: accounting, bags that are lost, and what it means
 that the loop's guard counts remembered bags.
 */
module Accounting {
  import opened Options
  import opened Rings
  import opened BagTable
  import opened Machine
  import opened Invariant
  import opened Runs

  /** Bags made, freed, and made while the table was full. */
  datatype Tally = Tally(created: nat, freed: nat, dropped: nat)

  function Add(x: Tally, y: Tally): Tally {
    Tally(x.created + y.created, x.freed + y.freed, x.dropped + y.dropped)
  }

  function StepTally(st: State, ch: Choice): Tally
    requires Enabled(st, ch)
  {
    match ch
    case Task(Wait(_, _, _, _, _)) => Tally(1, 0, if None in st.table.slots then 0 else 1)
    case Dispatch => Tally(0, if Some(st.pending[0].bag) in st.table.slots then 1 else 0, 0)
    case _ => Tally(0, 0, 0)
  }

  function TallyOf(st: State, chs: seq<Choice>): Tally
    requires InRange(st)
    decreases |chs|
  {
    if chs == [] || !Enabled(st, chs[0]) || Step(st, chs[0]).Faulty? then Tally(0, 0, 0)
    else Add(StepTally(st, chs[0]), TallyOf(Step(st, chs[0]).state, chs[1..]))
  }

  lemma StepAccounting(st: State, ch: Choice)
    requires Base(st) && Enabled(st, ch) && Step(st, ch).Fine?
    ensures var st', t := Step(st, ch).state, StepTally(st, ch);
            && Base(st')
            && |st'.table.heap| == |st.table.heap| + t.created - t.freed
            && st'.table.waiting == st.table.waiting + t.created - t.dropped - t.freed
            && (t.dropped > 0 ==> st.table.waiting == MAX_EVENTS)
  {
    BatchLiveness(st, ch);
    match ch
    case Task(Wait(s, d, fd, a, armed)) =>
      NewBagCounts(st.table, a, Bag(fd, Top(st).circuit, s, d));
    case Dispatch =>
      FreeBagCounts(st.table, st.pending[0].bag);
    case _ =>
  }

  lemma {:induction false} RunAccounting(st: State, chs: seq<Choice>)
    requires Base(st) && Play(st, chs).End?
    ensures var st', t := Play(st, chs).state, TallyOf(st, chs);
            && Base(st')
            && |st'.table.heap| == |st.table.heap| + t.created - t.freed
            && st'.table.waiting == st.table.waiting + t.created - t.dropped - t.freed
    decreases |chs|
  {
    if chs != [] {
      StepAccounting(st, chs[0]);
      RunAccounting(Step(st, chs[0]).state, chs[1..]);
    }
  }

  /** Bag accounting, for every run from the start of every program: bags made are freed, remembered or
      dropped; the live ones are the last two kinds; the counter is the number of the remembered ones. */
  lemma {:induction false} BagAccounting(rings: seq<Ring>, chs: seq<Choice>)
    requires forall c :: 0 <= c < |rings| ==> rings[c].Valid()
    requires Play(Boot(rings), chs).End?
    ensures var t, table := TallyOf(Boot(rings), chs), Play(Boot(rings), chs).state.table;
            && t.created == t.freed + |Remembered(table)| + t.dropped
            && |table.heap| == |Remembered(table)| + t.dropped
            && |table.heap.Keys - Remembered(table)| == t.dropped
            && table.waiting == |Remembered(table)|
  {
    BootInv(rings);
    RunAccounting(Boot(rings), chs);
    var table := Play(Boot(rings), chs).state.table;
    WaitingCountsRemembered(table);
    assert table.heap.Keys == (table.heap.Keys - Remembered(table)) + Remembered(table);
  }

  /** At no time more than 16 bags are live. */
  predicate FitsTable(st: State, chs: seq<Choice>)
    requires InRange(st)
    decreases |chs|
  {
    && |st.table.heap| <= MAX_EVENTS
    && (chs != [] && Enabled(st, chs[0]) && Step(st, chs[0]).Fine? ==>
          FitsTable(Step(st, chs[0]).state, chs[1..]))
  }

  /** Nothing is dropped while no more than 16 bags are live. */
  lemma {:induction false} NothingDropped(st: State, chs: seq<Choice>)
    requires Base(st) && Play(st, chs).End? && FitsTable(st, chs) && |st.table.heap| == st.table.waiting
    ensures TallyOf(st, chs).dropped == 0
    decreases |chs|
  {
    if chs != [] {
      StepAccounting(st, chs[0]);
      assert |Step(st, chs[0]).state.table.heap| <= MAX_EVENTS;
      NothingDropped(Step(st, chs[0]).state, chs[1..]);
    }
  }

  // ---------- lost bags ----------

  /** A live bag that no armed descriptor and no pending event points to. */
  predicate Stranded(st: State, a: Addr) {
    && a in st.table.heap
    && (forall fd <- st.table.armed :: st.table.armed[fd] != a)
    && (forall i :: 0 <= i < |st.pending| ==> st.pending[i].bag != a)
  }

  lemma StrandedStep(st: State, ch: Choice, a: Addr)
    requires Base(st) && Enabled(st, ch) && Step(st, ch).Fine? && Stranded(st, a)
    ensures Stranded(Step(st, ch).state, a)
    ensures a in Remembered(Step(st, ch).state.table) <==> a in Remembered(st.table)
  {
    match ch
    case Task(Wait(s, d, fd, b, armed)) =>
      NewBagKeeps(st.table, b, Bag(fd, Top(st).circuit, s, d));
    case Dispatch =>
      FreeBagKeeps(st.table, st.pending[0].bag);
    case _ =>
  }

  /** A remembered bag that is stranded once, because arming failed, its descriptor was armed again for
      someone else, or it was dearmed, keeps the loop's guard true for ever: the loop never again stops
      for want of waiting circuits. */
  lemma {:induction false} StrandedForever(st: State, chs: seq<Choice>, a: Addr)
    requires Base(st) && Play(st, chs).End? && Stranded(st, a) && a in Remembered(st.table)
    ensures Stranded(Play(st, chs).state, a) && Play(st, chs).state.table.waiting > 0
    decreases |chs|
  {
    if chs == [] {
      WaitingCountsRemembered(st.table);
      assert Remembered(st.table) != {};
    } else {
      BatchLiveness(st, chs[0]);
      StrandedStep(st, chs[0], a);
      StrandedForever(Step(st, chs[0]).state, chs[1..], a);
    }
  }

  /** Exactly how a live bag gets stranded: it is new and arming failed; its descriptor was armed again for
      someone else; its descriptor was dearmed by the hang-up of an earlier bag; or its event was handled
      although the table did not know it, so that it was not freed. */
  predicate Strands(st: State, ch: Choice, a: Addr)
    requires Enabled(st, ch) && KernelOk(st)
  {
    match ch
    case Task(Wait(_, _, fd, b, armed)) =>
      if a == b then !armed else armed && fd in st.table.armed && st.table.armed[fd] == a
    case Dispatch =>
      var ev := st.pending[0];
      var fd := st.table.heap[ev.bag].fd;
      || (ev.bag == a && a !in Remembered(st.table))
      || ((ev.hup || ev.err) && fd in st.table.armed && st.table.armed[fd] == a)
    case _ => false
  }

  lemma StrandsExactly(st: State, ch: Choice, a: Addr)
    requires Base(st) && Enabled(st, ch) && Step(st, ch).Fine?
    requires !Stranded(st, a) && a in Step(st, ch).state.table.heap
    ensures Stranded(Step(st, ch).state, a) <==> Strands(st, ch, a)
  {
    match ch
    case Task(Wait(s, d, fd, b, armed)) => WaitStrands(st, Wait(s, d, fd, b, armed), a);
    case Dispatch => DispatchStrands(st, a);
    case Poll(ready) => PollStrandsNobody(st, ready, a);
    case _ =>
  }

  lemma WaitStrands(st: State, o: Outcome, a: Addr)
    requires Base(st) && Enabled(st, Task(o)) && o.Wait?
    requires !Stranded(st, a) && a in WaitA(st, o).state.table.heap
    ensures Stranded(WaitA(st, o).state, a) <==> Strands(st, Task(o), a)
  {
    hide BagTable.TableOk, BagTable.Remember;
    var st' := WaitA(st, o).state;
    if a == o.bag {
      assert o.armed ==> st'.table.armed[o.fd] == a;
    } else if fd :| fd in st.table.armed && st.table.armed[fd] == a {
      assert fd == st.table.heap[a].fd;
      assert !Strands(st, Task(o), a) ==> fd in st'.table.armed && st'.table.armed[fd] == a;
    }
  }

  lemma DispatchStrands(st: State, a: Addr)
    requires Base(st) && Enabled(st, Dispatch) && HandleEvent(st).Fine?
    requires !Stranded(st, a) && a in HandleEvent(st).state.table.heap
    ensures Stranded(HandleEvent(st).state, a) <==> Strands(st, Dispatch, a)
  {
    FreeBagKeeps(st.table, st.pending[0].bag);
    hide BagTable.TableOk, BagTable.FreeBag, BagTable.Remembered;
    var st' := HandleEvent(st).state;
    assert forall i :: 0 <= i < |st'.pending| ==> st'.pending[i] == st.pending[i + 1];
    if fd :| fd in st.table.armed && st.table.armed[fd] == a {
      assert fd == st.table.heap[a].fd;
      assert !Strands(st, Dispatch, a) ==> fd in st'.table.armed && st'.table.armed[fd] == a;
    } else if i :| 0 < i < |st.pending| && st.pending[i].bag == a {
      assert st'.pending[i - 1].bag == a;
    }
  }

  lemma PollStrandsNobody(st: State, ready: seq<Ready>, a: Addr)
    requires Base(st) && Enabled(st, Poll(ready)) && !Stranded(st, a) && a in st.table.heap
    ensures !Stranded(TakeBatch(st, ready), a)
  {
    var st' := TakeBatch(st, ready);
    var fd :| fd in st.table.armed && st.table.armed[fd] == a;
    if fd in ReadyFds(ready) {
      var r :| r in ready && r.fd == fd;
      var i :| 0 <= i < |ready| && ready[i] == r;
      assert st'.pending[i].bag == a;
    } else {
      assert fd in st'.table.armed;
    }
  }

  /** waitA strands its bag exactly when arming fails. */
  lemma ArmingFailureStrands(st: State, o: Outcome)
    requires Base(st) && st.stack != [] && o.Wait? && o.bag !in st.table.heap
    ensures Stranded(WaitA(st, o).state, o.bag) <==> !o.armed
  {
    NewBagKeeps(st.table, o.bag, Bag(o.fd, Top(st).circuit, o.state, o.data));
    var st' := WaitA(st, o).state;
    if o.armed {
      assert st'.table.armed[o.fd] == o.bag;
    }
  }

  /** Arming a descriptor that someone else waits for strands the earlier bag, whose event is then lost. */
  lemma SharingStrands(st: State, o: Outcome)
    requires Base(st) && st.stack != [] && o.Wait? && o.bag !in st.table.heap
    requires o.armed && o.fd in st.table.armed
    ensures Stranded(WaitA(st, o).state, st.table.armed[o.fd])
  {
    NewBagKeeps(st.table, o.bag, Bag(o.fd, Top(st).circuit, o.state, o.data));
  }

  /** A bag that the full table did not take is never freed, even after its event was handled. */
  lemma {:induction false} DroppedForever(st: State, chs: seq<Choice>, a: Addr)
    requires Base(st) && Play(st, chs).End? && a in st.table.heap && a !in Remembered(st.table)
    ensures a in Play(st, chs).state.table.heap && a !in Remembered(Play(st, chs).state.table)
    decreases |chs|
  {
    if chs != [] {
      BatchLiveness(st, chs[0]);
      DroppedStep(st, chs[0], a);
      DroppedForever(Step(st, chs[0]).state, chs[1..], a);
    }
  }

  lemma DroppedStep(st: State, ch: Choice, a: Addr)
    requires Base(st) && Enabled(st, ch) && Step(st, ch).Fine?
    requires a in st.table.heap && a !in Remembered(st.table)
    ensures a in Step(st, ch).state.table.heap && a !in Remembered(Step(st, ch).state.table)
  {
    match ch
    case Task(Wait(s, d, fd, b, armed)) =>
      NewBagKeeps(st.table, b, Bag(fd, Top(st).circuit, s, d));
    case Dispatch =>
      FreeBagKeeps(st.table, st.pending[0].bag);
    case _ =>
  }
}
