/**
 Why a program must not start a circuit whose `current` is not NULL: `current` belongs to the circuit, not
 to the activation. What goes wrong depends on what the circuit is doing. If it has a task in progress, NULL
 may be dereferenced; if it waits and has two or more elements, the wait may resume at the wrong one.
 */
module Guard {
  import opened CTypes
  import opened Options
  import opened Rings
  import opened BagTable
  import opened Machine
  import opened Invariant
  import opened Runs
  import opened Resumption

  // ---------- a circuit with a task in progress ----------

  /** The rule without its second half: a circuit may be started while it waits, but not while it runs. */
  predicate Calm(st: State, ch: Choice) {
    ch.Start? ==> !OnStack(st.stack, ch.circuit)
  }

  predicate AllCalm(st: State, chs: seq<Choice>)
    requires InRange(st)
    decreases |chs|
  {
    chs != [] && Enabled(st, chs[0]) ==>
      && Calm(st, chs[0])
      && (var r := Step(st, chs[0]); r.Fine? ==> AllCalm(r.state, chs[1..]))
  }

  /** The tasks in progress belong to different circuits, whose `current` is set. */
  predicate FramesOk(st: State) {
    && (forall i, j :: 0 <= i < j < |st.stack| ==> st.stack[i].circuit != st.stack[j].circuit)
    && (forall f <- st.stack :: f.circuit < |st.current| && st.current[f.circuit].Some?)
  }

  lemma CalmFrames(st: State, ch: Choice)
    requires InRange(st) && FramesOk(st) && Enabled(st, ch) && Calm(st, ch) && Step(st, ch).Fine?
    ensures FramesOk(Step(st, ch).state)
  {
    hide BagTable.NewBag, BagTable.FreeBag;
    if st.stack != [] {
      assert Top(st) in st.stack;
    }
  }

  lemma CalmStep(st: State, ch: Choice)
    requires Base(st) && FramesOk(st) && Enabled(st, ch) && Calm(st, ch)
    ensures Step(st, ch).Fine? && Base(Step(st, ch).state) && FramesOk(Step(st, ch).state)
  {
    BatchLiveness(st, ch);
    if st.stack != [] {
      assert Top(st) in st.stack;
    }
    CalmFrames(st, ch);
    hide Machine.Step, Machine.Base;
  }

  /** No run in which only circuits without a task in progress are started ever crashes. */
  lemma {:induction false} CalmNeverFaults(st: State, chs: seq<Choice>)
    requires Base(st) && FramesOk(st) && AllCalm(st, chs)
    ensures !Play(st, chs).Crash?
    decreases |chs|
  {
    if chs != [] && Enabled(st, chs[0]) {
      CalmStep(st, chs[0]);
      CalmNeverFaults(Step(st, chs[0]).state, chs[1..]);
    }
  }

  /** The run starts only circuits without a task in progress, and dereferences NULL at its end. */
  predicate CrashesCalmly(st: State, chs: seq<Choice>)
    requires InRange(st)
  {
    AllCalm(st, chs) && Play(st, chs).Crash? && Play(st, chs).fault == NullCurrent
  }

  lemma CrashesCons(st: State, ch: Choice, rest: seq<Choice>)
    requires InRange(st) && Enabled(st, ch) && Calm(st, ch) && Step(st, ch).Fine?
    requires CrashesCalmly(Step(st, ch).state, rest)
    ensures CrashesCalmly(st, [ch] + rest)
  {
    PlayCons(st, ch, rest);
    assert ([ch] + rest)[1..] == rest;
  }

  /** k tasks fail, and the one below them returns. */
  function FailThenReturn(k: nat, s: Ptr, d: Ptr): seq<Choice> {
    if k == 0 then [Task(Return(s, d))] else [Task(Fail(s, d))] + FailThenReturn(k - 1, s, d)
  }

  lemma {:induction false} ReturnsThroughNull(st: State, k: nat, s: Ptr, d: Ptr)
    requires InRange(st) && k < |st.stack| && st.current[st.stack[|st.stack| - 1 - k].circuit].None?
    ensures CrashesCalmly(st, FailThenReturn(k, s, d))
    decreases k
  {
    if k > 0 {
      ReturnsThroughNull(ErrorA(st).state, k - 1, s, d);
      hide AllCalm, Runs.Play;
      CrashesCons(st, Task(Fail(s, d)), FailThenReturn(k - 1, s, d));
    }
  }

  lemma RestartFails(st: State, c: nat, s: Ptr, d: Ptr)
    requires InRange(st) && c < |st.rings|
    ensures ErrorA(RunA(st, c, s, d).state).state == st.(current := st.current[c := None])
  {
    assert Pop(RunA(st, c, s, d).state).stack == st.stack;
  }

  /** A circuit with a task in progress is started again: if that activation fails, and the tasks above the
      earlier one do, the earlier one returns through a NULL `current`. */
  lemma RestartOfRunningFaults(st: State, j: nat, s: Ptr, d: Ptr, s': Ptr, d': Ptr)
    requires InRange(st) && j < |st.stack|
    ensures CrashesCalmly(RunA(st, st.stack[j].circuit, s, d).state, FailThenReturn(|st.stack| - j, s', d'))
  {
    var restarted := RunA(st, st.stack[j].circuit, s, d).state;
    RestartFails(st, st.stack[j].circuit, s, d);
    ReturnsThroughNull(ErrorA(restarted).state, |st.stack| - j - 1, s', d');
    CrashesCons(restarted, Task(Fail(s', d')), FailThenReturn(|st.stack| - j - 1, s', d'));
  }

  /** Exactly when a start endangers the program: after it, a program that again starts only circuits without
      a task in progress can crash iff the circuit had one. */
  lemma StartFaultsExactly(st: State, c: nat, s: Ptr, d: Ptr)
    requires Base(st) && FramesOk(st) && c < |st.rings|
    ensures (exists chs :: CrashesCalmly(RunA(st, c, s, d).state, chs)) <==> OnStack(st.stack, c)
  {
    var next := RunA(st, c, s, d).state;
    if OnStack(st.stack, c) {
      var j :| 0 <= j < |st.stack| && st.stack[j].circuit == c;
      RestartOfRunningFaults(st, j, s, d, s, d);
    } else {
      CalmStep(st, Start(c, s, d));
      forall chs ensures !CrashesCalmly(next, chs) {
        if CrashesCalmly(next, chs) {
          CalmNeverFaults(next, chs);
        }
      }
    }
  }

  /** The smallest instance: a task of a one-element circuit starts its own circuit again, and that
      activation fails. */
  lemma ReentrantStartFaults()
    ensures InRange(Boot([Ring(1, None)]))
    ensures var st1 := RunA(Boot([Ring(1, None)]), 0, 0, 0).state;
            var st2 := RunA(st1, 0, 0, 0).state;
            Step(ErrorA(st2).state, Task(Return(0, 0))) == Faulty(NullCurrent)
  {
  }

  // ---------- a circuit that waits ----------

  /** The event of bag a is in the batch, and no hang-up. */
  predicate InBatch(st: State, a: Addr) {
    exists i :: 0 <= i < |st.pending| && st.pending[i] == Event(a, false, false)
  }

  /** Bag a is armed, and no hang-up in the batch will disarm its descriptor. */
  predicate Armed(st: State, a: Addr) {
    && a in st.table.heap
    && st.table.heap[a].fd in st.table.armed && st.table.armed[st.table.heap[a].fd] == a
    && (forall i :: 0 <= i < |st.pending| && st.pending[i].bag in st.table.heap ==>
          st.pending[i].hup || st.pending[i].err ==> st.table.heap[st.pending[i].bag].fd != st.table.heap[a].fd)
  }

  /** Bag b is remembered, and still will be after the batch. */
  predicate Outlasts(st: State, b: Addr) {
    b in Remembered(st.table) && forall i :: 0 <= i < |st.pending| ==> st.pending[i].bag != b
  }

  predicate InKernel(st: State, a: Addr, b: Addr) {
    Armed(st, a) && Outlasts(st, b)
  }

  /** What makes sure that the event of the bag that circuit c waits with can still come: it is in the batch, or
      the bag is armed and the loop polls again, because some remembered bag outlasts the batch or because the
      circuit, restarted at its head, finds room for one of its own. (That tasks of other circuits may wait
      again and so keep the loop polling is not considered.) Between rounds with a non-zero counter this says
      no more than that the bag is armed. */
  predicate Deliverable(st: State, c: nat)
    requires c in st.parked && c < |st.current|
  {
    var a := st.parked[c];
    || InBatch(st, a)
    || (Armed(st, a) && exists b <- Remembered(st.table) :: Outlasts(st, b))
    || (Armed(st, a) && st.current[c] == Some(0) && st.table.waiting < MAX_EVENTS)
  }

  /** Circuit c has no task in progress, and bag a is its own; no other event in the batch is for c. */
  predicate Quiet(st: State, c: nat, a: Addr) {
    && Base(st) && c < |st.rings|
    && a in st.table.heap && st.table.heap[a].circuit == c
    && !OnStack(st.stack, c)
    && (forall i :: 0 <= i < |st.pending| && st.pending[i].bag != a ==>
          st.table.heap[st.pending[i].bag].circuit != c)
  }

  predicate StartsNothing(chs: seq<Choice>) {
    forall ch <- chs :: !ch.Start?
  }

  /** The run starts nothing, and ends where the event of bag a, no hang-up, is the next to be handled; the
      bag and the circuit's `current` are as they were. */
  predicate BringsEvent(st: State, chs: seq<Choice>, c: nat, a: Addr)
    requires InRange(st) && c < |st.current| && a in st.table.heap
  {
    && StartsNothing(chs) && Unhandled(st, chs, a)
    && Play(st, chs).End?
    && var now := Play(st, chs).state;
       && now.stack == [] && now.pending != [] && now.pending[0] == Event(a, false, false)
       && a in now.table.heap && now.table.heap[a] == st.table.heap[a]
       && |now.current| == |st.current| && now.current[c] == st.current[c]
  }

  lemma BringsCons(st: State, ch: Choice, rest: seq<Choice>, c: nat, a: Addr)
    requires InRange(st) && c < |st.current| && a in st.table.heap
    requires Enabled(st, ch) && !ch.Start? && !(ch.Dispatch? && st.pending[0].bag == a) && Step(st, ch).Fine?
    requires var st' := Step(st, ch).state;
             && |st'.current| == |st.current| && st'.current[c] == st.current[c]
             && a in st'.table.heap && st'.table.heap[a] == st.table.heap[a]
             && BringsEvent(st', rest, c, a)
    ensures BringsEvent(st, [ch] + rest, c, a)
  {
    PlayCons(st, ch, rest);
    UnhandledCons(st, ch, rest, a);
  }

  lemma FailOther(st: State, c: nat, a: Addr, b: Addr)
    requires Quiet(st, c, a) && st.stack != []
    ensures Quiet(ErrorA(st).state, c, a) && ErrorA(st).state.current[c] == st.current[c]
    ensures InBatch(st, a) ==> InBatch(ErrorA(st).state, a)
    ensures InKernel(st, a, b) ==> InKernel(ErrorA(st).state, a, b)
  {
    BatchLiveness(st, Task(Fail(0, 0)));
    assert Top(st).circuit != c;
  }

  lemma DispatchOther(st: State, c: nat, a: Addr, b: Addr)
    requires Quiet(st, c, a) && st.stack == [] && st.pending != [] && st.pending[0].bag != a
    ensures HandleEvent(st).Fine?
    ensures var st' := HandleEvent(st).state;
            && Quiet(st', c, a) && st'.current[c] == st.current[c] && st'.table.heap[a] == st.table.heap[a]
            && (InBatch(st, a) ==> InBatch(st', a))
            && (InKernel(st, a, b) ==> InKernel(st', a, b))
  {
    DispatchBase(st);
    FreeBagKeeps(st.table, st.pending[0].bag);
    var st' := HandleEvent(st).state;
    assert forall i :: 0 <= i < |st'.pending| ==> st'.pending[i] == st.pending[i + 1];
    if InBatch(st, a) {
      var i :| 0 <= i < |st.pending| && st.pending[i] == Event(a, false, false);
      assert st'.pending[i - 1] == Event(a, false, false);
    }
  }

  lemma PollIt(st: State, c: nat, a: Addr, b: Addr)
    requires Quiet(st, c, a) && st.stack == [] && st.pending == [] && InKernel(st, a, b)
    ensures BringsEvent(st, [Poll([Ready(st.table.heap[a].fd, false, false)])], c, a)
  {
    var poll := Poll([Ready(st.table.heap[a].fd, false, false)]);
    WaitingCountsRemembered(st.table);
    assert Remembered(st.table) != {};
    assert Step(st, poll).state.pending == [Event(a, false, false)];
    PlayCons(st, poll, []);
    UnhandledCons(st, poll, [], a);
  }

  /** The environment can bring the event about: the tasks in progress fail, the other events of the batch are
      handled, their tasks fail, and epoll_wait reports the descriptor. */
  lemma {:induction false} Delivery(st: State, c: nat, a: Addr, b: Addr) returns (chs: seq<Choice>)
    requires Quiet(st, c, a) && (InBatch(st, a) || InKernel(st, a, b))
    ensures BringsEvent(st, chs, c, a)
    decreases |st.pending|, |st.stack|
  {
    if st.stack != [] {
      FailOther(st, c, a, b);
      var rest := Delivery(ErrorA(st).state, c, a, b);
      BringsCons(st, Task(Fail(0, 0)), rest, c, a);
      chs := [Task(Fail(0, 0))] + rest;
    } else if st.pending == [] {
      PollIt(st, c, a, b);
      chs := [Poll([Ready(st.table.heap[a].fd, false, false)])];
    } else if st.pending[0].bag == a {
      BatchEvent(st, a, b);
      chs := [];
    } else {
      DispatchOther(st, c, a, b);
      var rest := Delivery(HandleEvent(st).state, c, a, b);
      BringsCons(st, Dispatch, rest, c, a);
      chs := [Dispatch] + rest;
    }
  }

  lemma BatchEvent(st: State, a: Addr, b: Addr)
    requires Base(st) && (InBatch(st, a) || InKernel(st, a, b)) && st.pending != [] && st.pending[0].bag == a
    ensures st.pending[0] == Event(a, false, false)
  {
    if InBatch(st, a) {
      var i :| 0 <= i < |st.pending| && st.pending[i] == Event(a, false, false);
      assert i == 0;
    }
  }

  /** The run leaves the event of the wait that circuit c is in at the start of it unhandled. After the run that
      event is the next one; it runs an element of c with the arguments of the wait, but not the element that
      waited. */
  predicate Misresumes(st: State, c: nat, chs: seq<Choice>)
    requires InRange(st) && c < |st.current| && c in st.parked && st.parked[c] in st.table.heap
  {
    && Play(st, chs).End? && Unhandled(st, chs, st.parked[c])
    && var now, bag := Play(st, chs).state, st.table.heap[st.parked[c]];
       && Enabled(now, Dispatch) && now.pending[0].bag == st.parked[c]
       && Step(now, Dispatch).Fine? && Step(now, Dispatch).ran.Some?
       && var e := Step(now, Dispatch).ran.value;
          e.circuit == c && e.state == bag.state && e.data == bag.data && Some(e.element) != st.current[c]
  }

  /** Restarted at an element that is not the head, the circuit fails: the earlier wait is misled to the head. */
  lemma MisledToHead(st: State, c: nat, s: Ptr, d: Ptr, a: Addr, b: Addr)
    requires Inv(st) && c in st.parked && st.parked[c] == a && (InBatch(st, a) || InKernel(st, a, b))
    ensures c < |st.rings|
    ensures var st2 := ErrorA(RunA(st, c, s, d).state).state;
            && Quiet(st2, c, a) && (InBatch(st2, a) || InKernel(st2, a, b))
            && st2.current == st.current[c := None] && st2.table == st.table
  {
    var st2 := ErrorA(RunA(st, c, s, d).state).state;
    assert st2.stack == st.stack && st2.pending == st.pending;
    forall i | 0 <= i < |st.pending| && st.pending[i].bag != a ensures st.table.heap[st.pending[i].bag].circuit != c {
      assert Outstanding(st, st.pending[i].bag);
    }
  }

  lemma FreeAddress(heap: map<Addr, Bag>) returns (a: Addr)
    ensures a !in heap
  {
    a := Above(heap.Keys);
  }

  lemma {:induction false} Above(s: set<Addr>) returns (n: Addr)
    ensures forall x <- s :: x < n
    decreases s
  {
    if s == {} {
      n := 0;
    } else {
      var x :| x in s;
      n := Above(s - {x});
      n := if x < n then n else x + 1;
      assert forall y <- s :: y == x || y in s - {x};
    }
  }

  /** Restarted at the head, the circuit returns once and waits: the earlier wait is misled to the element
      after the head. */
  function Moved(st: State, c: nat, s: Ptr, d: Ptr, fd: Fd, a: Addr): State
    requires c < |st.current|
  {
    st.(current := st.current[c := Some(1)], parked := st.parked[c := a],
        table := ArmBag(NewBag(st.table, a, Bag(fd, c, s, d)), fd, a))
  }

  lemma MoveSteps(st: State, c: nat, s: Ptr, d: Ptr, fd: Fd, a: Addr)
    requires InRange(st) && c < |st.rings| && st.current[c] == Some(0) && st.rings[c].size >= 2 && a !in st.table.heap
    ensures var st1 := Step(st, Start(c, s, d)).state;
            && Enabled(st1, Task(Return(s, d))) && Step(st1, Task(Return(s, d))).Fine?
            && var st2, wait := Step(st1, Task(Return(s, d))).state, Task(Wait(s, d, fd, a, true));
               Enabled(st2, wait) && Step(st2, wait).Fine? && Step(st2, wait).state == Moved(st, c, s, d, fd, a)
  {
    var st1 := Step(st, Start(c, s, d)).state;
    assert st1 == st.(current := st.current[c := Some(0)], stack := st.stack + [Frame(c, s, d)]);
    assert Pop(st1).stack == st.stack;
    var st2 := Step(st1, Task(Return(s, d))).state;
    assert st2 == st.(current := st.current[c := Some(1)], stack := st.stack + [Frame(c, s, d)]);
    assert Pop(st2).stack == st.stack;
  }

  lemma MovedQuiet(st: State, c: nat, s: Ptr, d: Ptr, fd2: Fd, a2: Addr, a: Addr)
    requires Inv(st) && c in st.parked && st.parked[c] == a
    requires st.rings[c].size >= 2 && a2 !in st.table.heap
    ensures c < |st.current| && Quiet(Moved(st, c, s, d, fd2, a2), c, a)
    ensures Moved(st, c, s, d, fd2, a2).table.heap[a] == st.table.heap[a]
  {
    NewBagKeeps(st.table, a2, Bag(fd2, c, s, d));
    hide BagTable.NewBag, BagTable.TableOk;
    forall i | 0 <= i < |st.pending| && st.pending[i].bag != a ensures st.table.heap[st.pending[i].bag].circuit != c {
      assert Outstanding(st, st.pending[i].bag);
    }
  }

  lemma MovedDeliverable(st: State, c: nat, s: Ptr, d: Ptr, fd2: Fd, a2: Addr, a: Addr, b: Addr)
    requires Base(st) && c < |st.current| && a in st.table.heap && a2 !in st.table.heap && fd2 != st.table.heap[a].fd
    requires InBatch(st, a) || (Armed(st, a) && (Outlasts(st, b) || (b == a2 && st.table.waiting < MAX_EVENTS)))
    ensures var st3 := Moved(st, c, s, d, fd2, a2); InBatch(st3, a) || InKernel(st3, a, b)
  {
    NewBagKeeps(st.table, a2, Bag(fd2, c, s, d));
    hide BagTable.NewBag, BagTable.TableOk, BagTable.Remembered;
    var t := NewBag(st.table, a2, Bag(fd2, c, s, d));
    assert Remembered(ArmBag(t, fd2, a2)) == Remembered(t);
  }

  /** The event of c's wait, no hang-up, is the next to be handled, and c's `current` is not where the wait
      was made. */
  predicate WaitMisled(st: State, c: nat, now: State)
    requires Inv(st) && c in st.parked
  {
    var a := st.parked[c];
    && now.stack == [] && now.pending != [] && now.pending[0] == Event(a, false, false)
    && a in now.table.heap && now.table.heap[a] == st.table.heap[a]
    && |now.current| == |st.current| && now.current[c] != st.current[c]
    && (now.current[c].Some? || st.current[c] != Some(0))
  }

  /** The run ends in `now`, and does not handle an event of bag a. */
  predicate LeadsTo(st: State, chs: seq<Choice>, a: Addr, now: State)
    requires InRange(st)
  {
    Unhandled(st, chs, a) && Play(st, chs).End? && Play(st, chs).state == now
  }

  lemma LeadsCons(st: State, ch: Choice, rest: seq<Choice>, a: Addr, now: State)
    requires InRange(st) && Enabled(st, ch) && !ch.Dispatch?
    requires Step(st, ch).Fine? && LeadsTo(Step(st, ch).state, rest, a, now)
    ensures LeadsTo(st, [ch] + rest, a, now)
  {
    PlayCons(st, ch, rest);
    UnhandledCons(st, ch, rest, a);
  }

  lemma ResumesElsewhere(st: State, c: nat, chs: seq<Choice>, now: State)
    requires Inv(st) && c in st.parked && LeadsTo(st, chs, st.parked[c], now) && WaitMisled(st, c, now)
    ensures Misresumes(st, c, chs)
  {
    hide Runs.Play, Runs.Unhandled;
  }

  lemma MisledAfter(st: State, c: nat, misled: State, chs: seq<Choice>)
    requires Inv(st) && c in st.parked && Quiet(misled, c, st.parked[c])
    requires |misled.current| == |st.current| && BringsEvent(misled, chs, c, st.parked[c])
    requires misled.table.heap[st.parked[c]] == st.table.heap[st.parked[c]]
    requires misled.current[c] != st.current[c] && (misled.current[c].Some? || st.current[c] != Some(0))
    ensures LeadsTo(misled, chs, st.parked[c], Play(misled, chs).state) && WaitMisled(st, c, Play(misled, chs).state)
  {
    hide Runs.Play, Runs.Unhandled, Machine.Base;
  }

  /** The choices that move a restarted circuit on. */
  function MoveOn(s: Ptr, d: Ptr, fd: Fd, a: Addr, chs: seq<Choice>): (r: seq<Choice>)
    ensures StartsNothing(chs) ==> StartsNothing(r)
  {
    [Task(Return(s, d))] + ([Task(Wait(s, d, fd, a, true))] + chs)
  }

  lemma MovesOn(st: State, c: nat, s: Ptr, d: Ptr, fd: Fd, a: Addr, chs: seq<Choice>, waited: Addr, now: State)
    requires InRange(st) && c < |st.rings| && st.current[c] == Some(0) && st.rings[c].size >= 2 && a !in st.table.heap
    requires InRange(Moved(st, c, s, d, fd, a)) && LeadsTo(Moved(st, c, s, d, fd, a), chs, waited, now)
    ensures LeadsTo(st, [Start(c, s, d)] + MoveOn(s, d, fd, a, chs), waited, now)
  {
    MoveSteps(st, c, s, d, fd, a);
    hide LeadsTo, Machine.Step, Moved;
    var st1, back, wait := Step(st, Start(c, s, d)).state, Task(Return(s, d)), Task(Wait(s, d, fd, a, true));
    LeadsCons(Step(st1, back).state, wait, chs, waited, now);
    LeadsCons(st1, back, [wait] + chs, waited, now);
    LeadsCons(st, Start(c, s, d), [back] + ([wait] + chs), waited, now);
  }

  lemma {:induction false} RestartAtHead(st: State, c: nat, s: Ptr, d: Ptr) returns (rest: seq<Choice>, now: State)
    requires Inv(st) && c in st.parked && Deliverable(st, c) && st.rings[c].size >= 2
    requires st.current[c] == Some(0)
    ensures StartsNothing(rest)
    ensures LeadsTo(st, [Start(c, s, d)] + rest, st.parked[c], now) && WaitMisled(st, c, now)
  {
    var a := st.parked[c];
    var a2 := FreeAddress(st.table.heap);
    var fd2 := st.table.heap[a].fd + 1;
    var b := a2;
    if !InBatch(st, a) && st.table.waiting == MAX_EVENTS {
      b :| b in Remembered(st.table) && Outlasts(st, b);
    }
    MovedQuiet(st, c, s, d, fd2, a2, a);
    MovedDeliverable(st, c, s, d, fd2, a2, a, b);
    hide InBatch, InKernel, Armed, Outlasts, Deliverable, MoveOn, Runs.Play, Runs.Unhandled, Machine.KernelOk,
      Machine.Owned, BagTable.TableOk;
    var moved := Moved(st, c, s, d, fd2, a2);
    var chs := Delivery(moved, c, a, b);
    now := Play(moved, chs).state;
    MisledAfter(st, c, moved, chs);
    rest := MoveOn(s, d, fd2, a2, chs);
    MovesOn(st, c, s, d, fd2, a2, chs, a, now);
  }

  lemma {:induction false} RestartElsewhere(st: State, c: nat, s: Ptr, d: Ptr) returns (rest: seq<Choice>, now: State)
    requires Inv(st) && c in st.parked && Deliverable(st, c) && st.current[c] != Some(0)
    ensures StartsNothing(rest)
    ensures LeadsTo(st, [Start(c, s, d)] + rest, st.parked[c], now) && WaitMisled(st, c, now)
  {
    var a := st.parked[c];
    var b := a;
    if !InBatch(st, a) {
      b :| b in Remembered(st.table) && Outlasts(st, b);
    }
    var st1 := Step(st, Start(c, s, d)).state;
    MisledToHead(st, c, s, d, a, b);
    assert Enabled(st1, Task(Fail(s, d))) && st.current[c].Some?;
    var failed := Step(st1, Task(Fail(s, d))).state;
    hide Machine.Step, Machine.Owned, Machine.Base, InBatch, InKernel, Armed, Outlasts, Deliverable, Runs.Play,
      Runs.Unhandled;
    var chs := Delivery(failed, c, a, b);
    now := Play(failed, chs).state;
    MisledAfter(st, c, failed, chs);
    LeadsCons(st1, Task(Fail(s, d)), chs, a, now);
    rest := [Task(Fail(s, d))] + chs;
    LeadsCons(st, Start(c, s, d), rest, a, now);
  }

  /** A waiting circuit of two or more elements is started again, whatever runs or is pending. Then, with no
      further start, its earlier wait can come to resume at an element that did not ask for it. */
  lemma {:induction false} RestartOfWaitingMisresumes(st: State, c: nat, s: Ptr, d: Ptr) returns (rest: seq<Choice>)
    requires Inv(st) && c in st.parked && Deliverable(st, c) && st.rings[c].size >= 2
    ensures StartsNothing(rest)
    ensures Misresumes(st, c, [Start(c, s, d)] + rest)
  {
    var now;
    if st.current[c] == Some(0) {
      rest, now := RestartAtHead(st, c, s, d);
    } else {
      rest, now := RestartElsewhere(st, c, s, d);
    }
    ResumesElsewhere(st, c, [Start(c, s, d)] + rest, now);
  }

  lemma {:induction false} PlayRings(st: State, chs: seq<Choice>)
    requires InRange(st)
    ensures Play(st, chs).End? ==> Play(st, chs).state.rings == st.rings
    decreases |chs|
  {
    if chs != [] && Enabled(st, chs[0]) && Step(st, chs[0]).Fine? {
      PlayRings(Step(st, chs[0]).state, chs[1..]);
    }
  }

  lemma ResumedElement(now: State)
    requires InRange(now) && Enabled(now, Dispatch) && Step(now, Dispatch).Fine? && Step(now, Dispatch).ran.Some?
    ensures var e := Step(now, Dispatch).ran.value;
            e.circuit < |now.rings| && e.element < now.rings[e.circuit].size
  {
  }

  /** A wait of a one-element circuit resumes at its element, whatever any program does. */
  lemma {:induction false} OneElementResumes(st: State, c: nat, chs: seq<Choice>)
    requires Inv(st) && c in st.parked && st.rings[c].size == 1
    ensures !Misresumes(st, c, chs)
  {
    assert st.current[c] == Some(0);
    if Misresumes(st, c, chs) {
      PlayRings(st, chs);
      ResumedElement(Play(st, chs).state);
      hide Machine.Step, Machine.Enabled, Machine.Inv, Machine.InRange, Runs.Play, Runs.Unhandled;
      assert false;
    }
  }

  /** No run of a program that obeys the rule misdirects a wait. */
  lemma {:induction false} GoodRunsResume(st: State, c: nat, chs: seq<Choice>)
    requires GoodRun(st, chs) && c in st.parked
    ensures !Misresumes(st, c, chs)
  {
    if Misresumes(st, c, chs) {
      var a := st.parked[c];
      assert st.current[c].Some?;
      WaitResumes(st, chs, c, st.current[c].value, a, st.table.heap[a]);
      assert false;
    }
  }

  /** Exactly which waiting circuits must not be started: the ones of two or more elements. Only for them can
      the start, with no further one, misdirect the wait. */
  lemma {:induction false} RestartMisresumesExactly(st: State, c: nat, s: Ptr, d: Ptr)
    requires Inv(st) && c in st.parked && Deliverable(st, c)
    ensures (exists rest :: StartsNothing(rest) && Misresumes(st, c, [Start(c, s, d)] + rest)) <==>
            st.rings[c].size >= 2
  {
    if st.rings[c].size >= 2 {
      var rest := RestartOfWaitingMisresumes(st, c, s, d);
    } else {
      forall rest ensures !Misresumes(st, c, [Start(c, s, d)] + rest) {
        OneElementResumes(st, c, [Start(c, s, d)] + rest);
      }
    }
  }
}
