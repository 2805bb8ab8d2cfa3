/**
 What leaving the event loop through its guard means when the table of 16 bags may overflow: a bag made
 while the table is full is not counted, so the counter can be 0 although its circuit still waits.
 */
module Overflow {
  import opened Options
  import opened Rings
  import opened BagTable
  import opened Machine
  import opened Invariant
  import opened Runs
  import opened Accounting
  import opened LoopExit

  // ---------- who still waits ----------

  /** The live bags that the table does not know. */
  function Unremembered(t: Table): set<Addr> {
    t.heap.Keys - Remembered(t)
  }

  function StepDropped(st: State, ch: Choice): set<Addr> {
    match ch
    case Task(Wait(_, _, _, a, _)) => if None in st.table.slots then {} else {a}
    case _ => {}
  }

  /** The bags made while the table was full. */
  function DroppedBags(st: State, chs: seq<Choice>): set<Addr>
    requires InRange(st)
    decreases |chs|
  {
    if chs == [] || !Enabled(st, chs[0]) || Step(st, chs[0]).Faulty? then {}
    else StepDropped(st, chs[0]) + DroppedBags(Step(st, chs[0]).state, chs[1..])
  }

  lemma StepDrops(st: State, ch: Choice)
    requires Base(st) && Enabled(st, ch) && Step(st, ch).Fine?
    ensures Base(Step(st, ch).state)
    ensures Unremembered(Step(st, ch).state.table) == Unremembered(st.table) + StepDropped(st, ch)
  {
    BatchLiveness(st, ch);
    match ch
    case Task(Wait(s, d, fd, a, armed)) =>
      NewBagKeeps(st.table, a, Bag(fd, Top(st).circuit, s, d));
      FullMeansUsed(st.table.slots);
    case Dispatch =>
      FreeBagKeeps(st.table, st.pending[0].bag);
    case _ =>
  }

  /** In every run of every program the live bags that the table does not know are those it had no room for. */
  lemma {:induction false} UnrememberedAreDropped(st: State, chs: seq<Choice>)
    requires Base(st) && Play(st, chs).End?
    ensures Base(Play(st, chs).state)
    ensures Unremembered(Play(st, chs).state.table) == Unremembered(st.table) + DroppedBags(st, chs)
    decreases |chs|
  {
    if chs != [] {
      StepDrops(st, chs[0]);
      UnrememberedAreDropped(Step(st, chs[0]).state, chs[1..]);
    }
  }

  /** Between rounds with a zero counter a circuit still waits iff it has a bag that the table did not take. */
  lemma ZeroCounterWaiters(st: State, c: nat)
    requires Inv(st) && BetweenRounds(st) && st.table.waiting == 0 && c < |st.rings|
    ensures st.current[c].Some? <==> c in st.parked && st.parked[c] in Unremembered(st.table)
  {
    WaitingCountsRemembered(st.table);
    assert Remembered(st.table) == {};
  }

  /** Who is left behind, exactly: when a run of a program that obeys the rule leaves the loop through a zero
      counter, the circuits that still wait are those whose last wait was made while the table was full. */
  lemma {:induction false} LeftBehind(rings: seq<Ring>, chs: seq<Choice>, c: nat)
    requires forall k :: 0 <= k < |rings| ==> rings[k].Valid()
    requires GoodRun(Boot(rings), chs) && c < |rings|
    requires BetweenRounds(RunEnd(Boot(rings), chs)) && RunEnd(Boot(rings), chs).table.waiting == 0
    ensures var end := RunEnd(Boot(rings), chs);
            && |end.current| == |rings|
            && (end.current[c].Some? <==> c in end.parked && end.parked[c] in DroppedBags(Boot(rings), chs))
  {
    var st := Boot(rings);
    RunSafe(st, chs);
    RingsStay(st, chs);
    UnrememberedAreDropped(st, chs);
    assert Unremembered(st.table) == {};
    ZeroCounterWaiters(RunEnd(st, chs), c);
  }

  lemma {:induction false} RingsStay(st: State, chs: seq<Choice>)
    requires GoodRun(st, chs)
    ensures RunEnd(st, chs).rings == st.rings
    decreases |chs|
  {
    if chs != [] {
      RunHead(st, chs);
      RingsStay(Step(st, chs[0]).state, chs[1..]);
    }
  }

  // ---------- at most 16 circuits ----------

  /** No more bags than circuits that wait with them. */
  lemma {:induction false} FewWaiters(bags: set<Addr>, circuits: set<nat>, parked: map<nat, Addr>)
    requires forall a <- bags :: exists c :: c in circuits && c in parked && parked[c] == a
    ensures |bags| <= |circuits|
    decreases circuits
  {
    if circuits == {} {
      assert bags == {};
    } else {
      var c :| c in circuits;
      var bags' := if c in parked then bags - {parked[c]} else bags;
      assert |bags| <= |bags'| + 1 by {
        if c in parked && parked[c] in bags {
          assert bags == bags' + {parked[c]};
        } else {
          assert bags' == bags;
        }
      }
      forall a <- bags' ensures exists k :: k in circuits - {c} && k in parked && parked[k] == a {
        var k :| k in circuits && k in parked && parked[k] == a;
        assert k in circuits - {c};
      }
      FewWaiters(bags', circuits - {c}, parked);
    }
  }

  function Below(n: nat): (s: set<nat>)
    ensures |s| == n && forall c: nat :: c in s <==> c < n
  {
    if n == 0 then {} else Below(n - 1) + {n - 1}
  }

  /** While no remembered bag is stranded, a task that waits finds room if there are at most 16 circuits. */
  lemma RoomForAll(st: State)
    requires Inv(st) && st.stack != [] && |st.rings| <= MAX_EVENTS
    requires forall a <- Remembered(st.table) :: !Stranded(st, a)
    ensures st.table.waiting < MAX_EVENTS
  {
    var me := Top(st).circuit;
    var others := Below(|st.rings|) - {me};
    assert me !in st.parked && me in Below(|st.rings|);
    forall a <- Remembered(st.table) ensures exists c :: c in others && c in st.parked && st.parked[c] == a {
      assert Outstanding(st, a);
      var c := st.table.heap[a].circuit;
      assert c in others && c in st.parked && st.parked[c] == a;
    }
    FewWaiters(Remembered(st.table), others, st.parked);
    WaitingCountsRemembered(st.table);
  }

  /** A run of at most 16 circuits that gets to a zero counter never found the table full. */
  lemma {:induction false} NeverFull(st: State, chs: seq<Choice>)
    requires GoodRun(st, chs) && |st.rings| <= MAX_EVENTS && RunEnd(st, chs).table.waiting == 0
    ensures DroppedBags(st, chs) == {}
    decreases |chs|
  {
    if chs != [] {
      RunHead(st, chs);
      NeverFull(Step(st, chs[0]).state, chs[1..]);
      if chs[0].Task? && chs[0].outcome.Wait? {
        RunSafe(st, chs);
        forall a <- Remembered(st.table) ensures !Stranded(st, a) {
          if Stranded(st, a) {
            StrandedForever(st, chs, a);
          }
        }
        RoomForAll(st);
        FullMeansUsed(st.table.slots);
      }
    }
  }

  // ---------- more than 16 circuits ----------

  function Drain(n: nat): seq<Choice> {
    if n == 0 then [] else [Dispatch] + Drain(n - 1)
  }

  /** The batch consists of hang-ups and holds all remembered bags. */
  predicate LastBatch(st: State) {
    && st.stack == []
    && (forall i :: 0 <= i < |st.pending| ==> st.pending[i].hup)
    && (forall i :: 0 <= i < |st.pending| ==> st.pending[i].bag in Remembered(st.table))
    && (forall a <- Remembered(st.table) :: IsPending(st, a))
  }

  /** Circuit c waits with a bag that the table does not know. */
  predicate WaitsUncounted(st: State, c: nat) {
    c in st.parked && c < |st.current| && st.current[c].Some? && st.parked[c] in Unremembered(st.table)
  }

  /** The bag circuit c waits with is armed, on a descriptor that no pending event is for. */
  predicate StillArmed(st: State, c: nat) {
    && c in st.parked && st.parked[c] in st.table.heap
    && var fd := st.table.heap[st.parked[c]].fd;
       && fd in st.table.armed && st.table.armed[fd] == st.parked[c]
       && forall i :: 0 <= i < |st.pending| && st.pending[i].bag in st.table.heap ==>
            st.table.heap[st.pending[i].bag].fd != fd
  }

  lemma HangUpBatch(st: State)
    requires Inv(st) && LastBatch(st) && st.pending != []
    ensures Safe(HandleEvent(st)) && LastBatch(HandleEvent(st).state)
    ensures |HandleEvent(st).state.pending| == |st.pending| - 1
  {
    StepKeeps(st, Dispatch);
    FreeBagKeeps(st.table, st.pending[0].bag);
    hide Machine.Inv, BagTable.FreeBag, BagTable.Remembered;
    var st' := HandleEvent(st).state;
    assert forall i :: 0 <= i < |st'.pending| ==> st'.pending[i] == st.pending[i + 1];
    forall b <- Remembered(st'.table) ensures IsPending(st', b) {
      assert IsPending(st, b);
      var i :| 0 <= i < |st.pending| && st.pending[i].bag == b;
      assert st'.pending[i - 1].bag == b;
    }
  }

  lemma HangUpOther(st: State, c: nat)
    requires Inv(st) && LastBatch(st) && st.pending != [] && WaitsUncounted(st, c)
    ensures HandleEvent(st).Fine? && WaitsUncounted(HandleEvent(st).state, c)
    ensures StillArmed(st, c) ==> StillArmed(HandleEvent(st).state, c)
  {
    var a := st.pending[0].bag;
    assert Outstanding(st, a);
    FreeBagKeeps(st.table, a);
    hide Machine.Owned, BagTable.TableOk, BagTable.FreeBag, BagTable.Remembered;
    var st' := HandleEvent(st).state;
    assert forall i :: 0 <= i < |st'.pending| ==> st'.pending[i] == st.pending[i + 1];
  }

  /** Once the batch is used up the counter is 0, and the circuit still waits. */
  lemma {:induction false} UncountedLeftBehind(st: State, c: nat)
    requires Inv(st) && LastBatch(st) && WaitsUncounted(st, c)
    ensures GoodRun(st, Drain(|st.pending|))
    ensures var end := RunEnd(st, Drain(|st.pending|));
            && BetweenRounds(end) && end.table.waiting == 0
            && WaitsUncounted(end, c) && (StillArmed(st, c) ==> StillArmed(end, c))
    decreases |st.pending|
  {
    if st.pending == [] {
      WaitingCountsRemembered(st.table);
      assert Remembered(st.table) == {};
    } else {
      HangUpBatch(st);
      HangUpOther(st, c);
      UncountedLeftBehind(HandleEvent(st).state, c);
      RunCons(st, Dispatch, Drain(|st.pending| - 1));
    }
  }

  /** Bags 0, 1, ..., k - 1 are live, each armed on its own descriptor; the table has taken the first 16. */
  ghost predicate CrowdBags(t: Table, k: nat) {
    && (forall a: Addr :: a in t.heap <==> a < k)
    && (forall a :: 0 <= a < k ==> t.heap[a] == Bag(a, a, 0, 0))
    && (forall fd :: 0 <= fd < k ==> fd in t.armed && t.armed[fd] == fd)
    && (forall a: Addr :: a in Remembered(t) <==> a < k && a < MAX_EVENTS)
    && t.waiting == if k < MAX_EVENTS then k else MAX_EVENTS
  }

  /** Circuits 0, 1, ..., k - 1 wait with these bags. */
  ghost predicate Crowd(st: State, k: nat) {
    && |st.rings| > MAX_EVENTS && BetweenRounds(st) && |st.current| == |st.rings|
    && (forall c :: 0 <= c < k ==> c in st.parked && st.parked[c] == c)
    && (forall c :: k <= c < |st.current| ==> st.current[c].None?)
    && CrowdBags(st.table, k)
  }

  lemma OneMoreBag(t: Table, k: nat)
    requires TableOk(t) && CrowdBags(t, k) && k <= MAX_EVENTS
    ensures CrowdBags(ArmBag(NewBag(t, k, Bag(k, k, 0, 0)), k, k), k + 1)
  {
    NewBagKeeps(t, k, Bag(k, k, 0, 0));
    var t' := NewBag(t, k, Bag(k, k, 0, 0));
    assert Remembered(ArmBag(t', k, k)) == Remembered(t');
    hide BagTable.NewBag, BagTable.TableOk, BagTable.Remembered;
  }

  /** All of the first 16 descriptors hang up. */
  function AllHangUp(): (ready: seq<Ready>)
    ensures |ready| == MAX_EVENTS && forall i :: 0 <= i < MAX_EVENTS ==> ready[i] == Ready(i, true, false)
  {
    seq(MAX_EVENTS, i => Ready(i, true, false))
  }

  /** Circuit k, until now idle, waits with bag k on descriptor k. */
  function WithOneMore(st: State, k: nat): State
    requires k < |st.current|
  {
    st.(current := st.current[k := Some(0)], parked := st.parked[k := k],
        table := ArmBag(NewBag(st.table, k, Bag(k, k, 0, 0)), k, k))
  }

  lemma OneMoreSteps(st: State, k: nat)
    requires Inv(st) && Crowd(st, k) && k <= MAX_EVENTS
    ensures Enabled(st, Start(k, 0, 0)) && Disciplined(st, Start(k, 0, 0)) && Safe(Step(st, Start(k, 0, 0)))
    ensures var st1, wait := Step(st, Start(k, 0, 0)).state, Task(Wait(0, 0, k, k, true));
            Enabled(st1, wait) && Safe(Step(st1, wait)) && Step(st1, wait).state == WithOneMore(st, k)
  {
    StepKeeps(st, Start(k, 0, 0));
    var st1 := Step(st, Start(k, 0, 0)).state;
    assert st1 == st.(stack := [Frame(k, 0, 0)], current := st.current[k := Some(0)]);
    StepKeeps(st1, Task(Wait(0, 0, k, k, true)));
    hide Machine.Inv, BagTable.NewBag, BagTable.ArmBag;
  }

  lemma OneMoreWaits(st: State, k: nat)
    requires Inv(st) && Crowd(st, k) && k <= MAX_EVENTS
    ensures Crowd(WithOneMore(st, k), k + 1)
  {
    OneMoreBag(st.table, k);
  }

  lemma CrowdHangsUp(st: State)
    requires Inv(st) && Crowd(st, MAX_EVENTS + 1)
    ensures var poll := Poll(AllHangUp());
            && Enabled(st, poll) && Safe(Step(st, poll))
            && LastBatch(Step(st, poll).state) && |Step(st, poll).state.pending| == MAX_EVENTS
            && WaitsUncounted(Step(st, poll).state, MAX_EVENTS) && StillArmed(Step(st, poll).state, MAX_EVENTS)
  {
    var poll := Poll(AllHangUp());
    StepKeeps(st, poll);
    var st' := Step(st, poll).state;
    assert forall i :: 0 <= i < MAX_EVENTS ==> st'.pending[i] == Event(i, true, false);
    forall a <- Remembered(st'.table) ensures IsPending(st', a) {
      assert st'.pending[a].bag == a;
    }
    assert MAX_EVENTS !in ReadyFds(AllHangUp());
  }

  /** The run ends between rounds with a zero counter while circuit 16 waits, its descriptor armed. */
  ghost predicate EndsEarly(st: State, chs: seq<Choice>) {
    && GoodRun(st, chs)
    && BetweenRounds(RunEnd(st, chs)) && RunEnd(st, chs).table.waiting == 0
    && WaitsUncounted(RunEnd(st, chs), MAX_EVENTS) && StillArmed(RunEnd(st, chs), MAX_EVENTS)
  }

  lemma EndsEarlyCons(st: State, ch: Choice, rest: seq<Choice>)
    requires Inv(st) && Enabled(st, ch) && Disciplined(st, ch)
    requires Safe(Step(st, ch)) && EndsEarly(Step(st, ch).state, rest)
    ensures EndsEarly(st, [ch] + rest)
  {
    hide BetweenRounds, WaitsUncounted, StillArmed;
    RunCons(st, ch, rest);
    hide Runs.GoodRun, Machine.Inv, Machine.Step, Machine.Enabled, Machine.Disciplined;
  }

  lemma HangUpEndsEarly(st: State)
    requires Inv(st) && Crowd(st, MAX_EVENTS + 1)
    ensures EndsEarly(st, [Poll(AllHangUp())] + Drain(MAX_EVENTS))
  {
    CrowdHangsUp(st);
    UncountedLeftBehind(Step(st, Poll(AllHangUp())).state, MAX_EVENTS);
    EndsEarlyCons(st, Poll(AllHangUp()), Drain(MAX_EVENTS));
  }

  /** The circuits from k to 16 come and wait; then the first 16 hang up in one batch. */
  lemma {:induction false} CrowdEndsEarly(st: State, k: nat) returns (chs: seq<Choice>)
    requires Inv(st) && Crowd(st, k) && k <= MAX_EVENTS + 1
    ensures EndsEarly(st, chs)
    decreases MAX_EVENTS + 1 - k
  {
    if k == MAX_EVENTS + 1 {
      HangUpEndsEarly(st);
      chs := [Poll(AllHangUp())] + Drain(MAX_EVENTS);
    } else {
      OneMoreSteps(st, k);
      OneMoreWaits(st, k);
      var st1, wait := Step(st, Start(k, 0, 0)).state, Task(Wait(0, 0, k, k, true));
      chs := CrowdEndsEarly(Step(st1, wait).state, k + 1);
      EndsEarlyCons(st1, wait, chs);
      EndsEarlyCons(st, Start(k, 0, 0), [wait] + chs);
      chs := [Start(k, 0, 0)] + ([wait] + chs);
    }
  }

  /** The other way in which the guard is wrong: with more than 16 circuits of any shape, a program that
      obeys the rule can leave the loop through a zero counter while a circuit still waits, its descriptor
      armed and its bag live. */
  lemma {:induction false} LeavesWhileWaiting(rings: seq<Ring>) returns (chs: seq<Choice>)
    requires |rings| > MAX_EVENTS && forall c :: 0 <= c < |rings| ==> rings[c].Valid()
    ensures EndsEarly(Boot(rings), chs)
  {
    BootInv(rings);
    NewTableOk();
    assert Remembered(Boot(rings).table) == {};
    chs := CrowdEndsEarly(Boot(rings), 0);
  }

  /** The run gets between rounds with a zero counter, where the loop ends, and somebody still waits. */
  ghost predicate Abandons(rings: seq<Ring>, chs: seq<Choice>) {
    && GoodRun(Boot(rings), chs)
    && var end := RunEnd(Boot(rings), chs);
       && BetweenRounds(end) && end.table.waiting == 0
       && exists c :: 0 <= c < |end.current| && end.current[c].Some?
  }

  /** Leaving through a zero counter is safe exactly for programs of at most 16 circuits: then, whatever
      arming fails and whoever shares descriptors, nobody waits any more; with more, somebody may. */
  lemma {:induction false} ExitSafeExactly(rings: seq<Ring>)
    requires forall c :: 0 <= c < |rings| ==> rings[c].Valid()
    ensures (exists chs :: Abandons(rings, chs)) <==> |rings| > 16
  {
    if |rings| > MAX_EVENTS {
      var chs := LeavesWhileWaiting(rings);
      assert Abandons(rings, chs);
    } else {
      forall chs ensures !Abandons(rings, chs) {
        if Abandons(rings, chs) {
          NobodyAbandoned(rings, chs);
        }
      }
    }
  }

  lemma NobodyAbandoned(rings: seq<Ring>, chs: seq<Choice>)
    requires |rings| <= MAX_EVENTS && forall c :: 0 <= c < |rings| ==> rings[c].Valid()
    requires GoodRun(Boot(rings), chs)
    requires BetweenRounds(RunEnd(Boot(rings), chs)) && RunEnd(Boot(rings), chs).table.waiting == 0
    ensures forall c :: 0 <= c < |RunEnd(Boot(rings), chs).current| ==> RunEnd(Boot(rings), chs).current[c].None?
  {
    var end := RunEnd(Boot(rings), chs);
    NeverFull(Boot(rings), chs);
    RingsStay(Boot(rings), chs);
    forall c | 0 <= c < |end.current| ensures end.current[c].None? {
      LeftBehind(rings, chs, c);
    }
  }
}
