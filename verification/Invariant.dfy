/**
 What every step of a disciplined program keeps: no NULL or dead bag is ever dereferenced, and every
 pointer the kernel or the batch still holds leads to the one outstanding bag of a waiting circuit.
 */
module Invariant {
  import opened CTypes
  import opened BagTable
  import opened Machine

  predicate Safe(r: Result) {
    r.Fine? && Inv(r.state)
  }

  // ---------- every program ----------

  lemma WaitBase(st: State, o: Outcome)
    requires Base(st) && st.stack != [] && o.Wait? && o.bag !in st.table.heap
    ensures Base(WaitA(st, o).state)
  {
    NewBagKeeps(st.table, o.bag, Bag(o.fd, Top(st).circuit, o.state, o.data));
  }

  lemma PollBase(st: State, ready: seq<Ready>)
    requires Base(st) && Enabled(st, Poll(ready))
    ensures Base(TakeBatch(st, ready))
  {
    var st' := TakeBatch(st, ready);
    forall i, j | 0 <= i < j < |ready| ensures st'.pending[i].bag != st'.pending[j].bag {
      assert st.table.heap[st'.pending[i].bag].fd == ready[i].fd;
      assert st.table.heap[st'.pending[j].bag].fd == ready[j].fd;
    }
    forall i, fd | 0 <= i < |ready| && fd in st'.table.armed
      ensures st'.pending[i].bag != st'.table.armed[fd]
    {
      assert ready[i] in ready;
      assert st.table.heap[st'.pending[i].bag].fd == ready[i].fd;
    }
  }

  lemma DispatchBase(st: State)
    requires Base(st) && st.pending != []
    ensures HandleEvent(st).Fine? && Base(HandleEvent(st).state)
  {
    var a := st.pending[0].bag;
    FreeBagKeeps(st.table, a);
    var st' := HandleEvent(st).state;
    assert forall i :: 0 <= i < |st'.pending| ==> st'.pending[i] == st.pending[i + 1];
  }

  /** Batch liveness, for every program whatsoever: the bag pointer of the next event is live and points
      to the bag that was armed, although earlier events of the batch freed bags and their tasks made
      new ones, whose addresses malloc may have reused. The only fault left is a return of a circuit
      whose `current` someone else has reset. */
  lemma BatchLiveness(st: State, ch: Choice)
    requires Base(st) && Enabled(st, ch)
    ensures Step(st, ch).Fine? ==> Base(Step(st, ch).state)
    ensures Step(st, ch).Faulty? ==>
              ch.Task? && ch.outcome.Return? && st.current[Top(st).circuit].None?
  {
    match ch
    case Start(c, s, d) =>
    case Task(Return(s, d)) =>
    case Task(Fail(_, _)) =>
    case Task(Wait(s, d, fd, bag, armed)) => WaitBase(st, Wait(s, d, fd, bag, armed));
    case Poll(ready) => PollBase(st, ready);
    case Dispatch => DispatchBase(st);
  }

  // ---------- programs that obey the rule ----------

  lemma PushOnStack(stack: seq<Frame>, f: Frame)
    ensures forall c: nat :: OnStack(stack + [f], c) <==> OnStack(stack, c) || c == f.circuit
  {
    forall c: nat ensures OnStack(stack + [f], c) <==> OnStack(stack, c) || c == f.circuit {
      var more := stack + [f];
      if OnStack(stack, c) {
        var i :| 0 <= i < |stack| && stack[i].circuit == c;
        assert more[i].circuit == c;
      }
      assert more[|stack|] == f;
    }
  }

  lemma PopOffStack(st: State)
    requires StackOk(st) && st.stack != []
    ensures forall c: nat :: OnStack(Pop(st).stack, c) <==> OnStack(st.stack, c) && c != Top(st).circuit
    ensures OnStack(st.stack, Top(st).circuit)
    ensures StackOk(Pop(st))
  {
    var n := |st.stack| - 1;
    assert st.stack == Pop(st).stack + [Top(st)];
    PushOnStack(Pop(st).stack, Top(st));
    assert st.stack[n] == Top(st);
  }

  lemma StartKeeps(st: State, c: nat, s: Ptr, d: Ptr)
    requires Inv(st) && c < |st.rings| && st.current[c].None?
    ensures Owned(RunA(st, c, s, d).state)
  {
    var st' := RunA(st, c, s, d).state;
    assert !OnStack(st.stack, c) && c !in st.parked;
    PushOnStack(st.stack, Frame(c, s, d));
    assert StackOk(st');
  }

  lemma ReturnKeeps(st: State, s: Ptr, d: Ptr)
    requires Inv(st) && st.stack != []
    ensures ReturnA(st, s, d).Fine? && Owned(ReturnA(st, s, d).state)
  {
    PopOffStack(st);
    PushOnStack(Pop(st).stack, Frame(Top(st).circuit, s, d));
  }

  lemma ErrorKeeps(st: State)
    requires Inv(st) && st.stack != []
    ensures Owned(ErrorA(st).state)
  {
    PopOffStack(st);
    assert Top(st).circuit !in st.parked;
  }

  lemma WaitClaims(st: State, o: Outcome)
    requires Inv(st) && st.stack != [] && o.Wait? && o.bag !in st.table.heap
    requires Top(st).circuit !in st.parked
    ensures ClaimsOk(WaitA(st, o).state)
  {
    hide StackOk, CurrentOk, ParkedOk, BagTable.TableOk, BagTable.Remember;
    var st' := WaitA(st, o).state;
    forall fd <- st'.table.armed ensures Outstanding(st', st'.table.armed[fd]) {
      if fd in st.table.armed {
        assert Outstanding(st, st.table.armed[fd]);
      }
    }
    forall i | 0 <= i < |st'.pending| ensures Outstanding(st', st'.pending[i].bag) {
      assert Outstanding(st, st.pending[i].bag);
    }
  }

  lemma WaitParked(st: State, o: Outcome)
    requires Inv(st) && st.stack != [] && o.Wait? && o.bag !in st.table.heap
    ensures ParkedOk(WaitA(st, o).state)
  {
    hide StackOk, CurrentOk, ClaimsOk, KernelOk, BagTable.TableOk, BagTable.Remember;
  }

  lemma WaitKeeps(st: State, o: Outcome)
    requires Inv(st) && st.stack != [] && o.Wait? && o.bag !in st.table.heap
    ensures Owned(WaitA(st, o).state)
  {
    PopOffStack(st);
    WaitClaims(st, o);
    WaitParked(st, o);
  }

  lemma PollKeeps(st: State, ready: seq<Ready>)
    requires Inv(st) && Enabled(st, Poll(ready))
    ensures Owned(TakeBatch(st, ready))
  {
    var st' := TakeBatch(st, ready);
    assert forall a :: Outstanding(st, a) ==> Outstanding(st', a);
  }

  lemma DispatchClaims(st: State)
    requires Inv(st) && st.pending != []
    ensures HandleEvent(st).Fine? && ClaimsOk(HandleEvent(st).state)
  {
    hide StackOk, CurrentOk, ParkedOk;
    var a := st.pending[0].bag;
    assert Outstanding(st, a);
    FreeBagKeeps(st.table, a);
    hide BagTable.TableOk, BagTable.FreeBag;
    var st' := HandleEvent(st).state;
    forall fd <- st'.table.armed ensures Outstanding(st', st'.table.armed[fd]) {
      assert Outstanding(st, st.table.armed[fd]);
    }
    forall i | 0 <= i < |st'.pending| ensures Outstanding(st', st'.pending[i].bag) {
      assert st'.pending[i] == st.pending[i + 1] && Outstanding(st, st.pending[i + 1].bag);
    }
  }

  lemma DispatchParked(st: State)
    requires Inv(st) && st.pending != []
    ensures HandleEvent(st).Fine? && ParkedOk(HandleEvent(st).state)
  {
    hide StackOk, CurrentOk;
    var a := st.pending[0].bag;
    assert Outstanding(st, a);
    FreeBagKeeps(st.table, a);
    hide BagTable.TableOk, BagTable.FreeBag;
    var st' := HandleEvent(st).state;
    forall c <- st'.parked ensures st'.parked[c] in st'.table.heap && st'.table.heap[st'.parked[c]].circuit == c {
      assert st.table.heap[st.parked[c]].circuit == c;
    }
  }

  lemma DispatchKeeps(st: State)
    requires Inv(st) && st.pending != [] && st.stack == []
    ensures HandleEvent(st).Fine? && Owned(HandleEvent(st).state)
  {
    var a := st.pending[0].bag;
    assert Outstanding(st, a);
    var bag := st.table.heap[a];
    DispatchClaims(st);
    DispatchParked(st);
    PushOnStack(st.stack, Frame(bag.circuit, bag.state, bag.data));
    assert st.current[bag.circuit].Some?;
  }

  /** Every enabled step of a program that obeys the rule is free of faults and keeps the invariant. */
  lemma StepKeeps(st: State, ch: Choice)
    requires Inv(st) && Enabled(st, ch) && Disciplined(st, ch)
    ensures Safe(Step(st, ch))
  {
    BatchLiveness(st, ch);
    match ch
    case Start(c, s, d) => StartKeeps(st, c, s, d);
    case Task(Return(s, d)) => ReturnKeeps(st, s, d);
    case Task(Fail(_, _)) => ErrorKeeps(st);
    case Task(Wait(s, d, fd, bag, armed)) => WaitKeeps(st, Wait(s, d, fd, bag, armed));
    case Poll(ready) => PollKeeps(st, ready);
    case Dispatch => DispatchKeeps(st);
  }
}
