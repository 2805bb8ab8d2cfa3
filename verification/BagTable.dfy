/**
 The waiting list of the event loop (meloop/ev.c): bags, the 16-slot table that remembers them, its
 separately kept counter, and which bag each armed file descriptor reports.

 A pointer to a bag is an address; `heap` holds the bags that malloc has handed out and free has not
 taken back. malloc may reuse the address of a freed bag, so an address alone proves nothing.
 */
module BagTable {
  import opened CTypes
  import opened Options

  type Addr = nat
  type Fd = int

  const MAX_EVENTS: nat := 16

  /** What waitA keeps until the file descriptor is ready. `circuit` numbers the waiting circuit. */
  datatype Bag = Bag(fd: Fd, circuit: nat, state: Ptr, data: Ptr)

  datatype Table = Table(heap: map<Addr, Bag>, slots: seq<Option<Addr>>, waiting: int, armed: map<Fd, Addr>)

  /** The table meloop_ev_init leaves: no bag anywhere. */
  function NewTable(): Table {
    Table(map[], seq(MAX_EVENTS, i => None), 0, map[])
  }

  /** First slot that holds x. */
  function FindSlot(slots: seq<Option<Addr>>, x: Option<Addr>): (r: Option<nat>)
    ensures r.Some? ==> r.value < |slots| && slots[r.value] == x && x !in slots[..r.value]
    ensures r.None? ==> x !in slots
  {
    if slots == [] then None
    else if slots[0] == x then Some(0)
    else
      var rest := FindSlot(slots[1..], x);
      if rest.None? then None else Some(1 + rest.value)
  }

  lemma {:induction false} FindSlotIs(slots: seq<Option<Addr>>, x: Option<Addr>, i: nat)
    requires i < |slots| && slots[i] == x && forall j :: 0 <= j < i ==> slots[j] != x
    ensures FindSlot(slots, x) == Some(i)
  {
    if i > 0 {
      FindSlotIs(slots[1..], x, i - 1);
    }
  }

  // ---------- the operations ----------

  /** bags_remember: the first free slot, if there is one. */
  function Remember(t: Table, a: Addr): (r: Table)
    ensures r.heap == t.heap && r.armed == t.armed
  {
    match FindSlot(t.slots, None)
    case None => t
    case Some(i) => t.(slots := t.slots[i := Some(a)], waiting := t.waiting + 1)
  }

  /** meloop_bag_new with malloc answering a. A full table is ignored. */
  function NewBag(t: Table, a: Addr, bag: Bag): (r: Table)
    ensures r.heap == t.heap[a := bag] && r.armed == t.armed
  {
    Remember(t.(heap := t.heap[a := bag]), a)
  }

  /** meloop_bag_free: a bag that is not in the table is left alone. */
  function FreeBag(t: Table, a: Addr): Table {
    match FindSlot(t.slots, Some(a))
    case None => t
    case Some(i) => t.(heap := t.heap - {a}, slots := t.slots[i := None], waiting := t.waiting - 1)
  }

  /** A file descriptor reports to one bag only: arming it again replaces the earlier one. */
  function ArmBag(t: Table, fd: Fd, a: Addr): Table {
    t.(armed := t.armed[fd := a])
  }

  function DisarmAll(t: Table, fds: set<Fd>): Table {
    t.(armed := t.armed - fds)
  }

  // ---------- what they keep ----------

  function Remembered(t: Table): set<Addr> {
    set x | x in t.slots && x.Some? :: x.value
  }

  predicate DistinctSlots(slots: seq<Option<Addr>>) {
    forall i, j :: 0 <= i < j < |slots| && slots[i].Some? ==> slots[i] != slots[j]
  }

  function Used(slots: seq<Option<Addr>>): (n: nat)
    ensures n <= |slots|
  {
    if slots == [] then 0 else (if slots[0].Some? then 1 else 0) + Used(slots[1..])
  }

  /** Counter agreement: the counter tells the number of used slots, which hold distinct live bags. */
  predicate TableOk(t: Table) {
    && |t.slots| == MAX_EVENTS
    && t.waiting == Used(t.slots)
    && DistinctSlots(t.slots)
    && Remembered(t) <= t.heap.Keys
  }

  lemma NewTableOk()
    ensures TableOk(NewTable())
  {
    EmptyMeansUnused(NewTable().slots);
  }

  lemma {:induction false} UsedUpdate(slots: seq<Option<Addr>>, i: nat, x: Option<Addr>)
    requires i < |slots|
    ensures Used(slots[i := x]) ==
            Used(slots) - (if slots[i].Some? then 1 else 0) + (if x.Some? then 1 else 0)
  {
    if i == 0 {
      assert slots[i := x][1..] == slots[1..];
    } else {
      UsedUpdate(slots[1..], i - 1, x);
      assert slots[i := x][1..] == slots[1..][i - 1 := x];
    }
  }

  lemma {:induction false} FullMeansUsed(slots: seq<Option<Addr>>)
    ensures None !in slots <==> Used(slots) == |slots|
  {
    if slots != [] {
      FullMeansUsed(slots[1..]);
    }
  }

  lemma {:induction false} EmptyMeansUnused(slots: seq<Option<Addr>>)
    ensures (forall i :: 0 <= i < |slots| ==> slots[i].None?) <==> Used(slots) == 0
  {
    if slots != [] {
      EmptyMeansUnused(slots[1..]);
      assert forall i :: 1 <= i < |slots| ==> slots[i] == slots[1..][i - 1];
    }
  }

  /** The counter is the number of remembered bags. */
  lemma {:induction false} UsedIsCardinality(slots: seq<Option<Addr>>)
    requires DistinctSlots(slots)
    ensures |set x | x in slots && x.Some? :: x.value| == Used(slots)
  {
    var all := set x | x in slots && x.Some? :: x.value;
    if slots == [] {
      assert all == {};
    } else {
      var tail := slots[1..];
      UsedIsCardinality(tail);
      var rest := set x | x in tail && x.Some? :: x.value;
      if slots[0].Some? {
        assert slots[0] !in tail;
        assert all == rest + {slots[0].value};
      } else {
        assert all == rest;
      }
    }
  }

  lemma WaitingCountsRemembered(t: Table)
    requires TableOk(t)
    ensures t.waiting == |Remembered(t)|
  {
    UsedIsCardinality(t.slots);
  }

  /** bags_remember fails iff the counter says 16. */
  lemma RememberFailsWhenFull(t: Table)
    requires TableOk(t)
    ensures FindSlot(t.slots, None).None? <==> t.waiting == 16
  {
    FullMeansUsed(t.slots);
  }

  /** A new bag is live and, unless 16 bags were remembered already, remembered. */
  lemma NewBagKeeps(t: Table, a: Addr, bag: Bag)
    requires TableOk(t) && a !in t.heap
    ensures var t' := NewBag(t, a, bag);
            && TableOk(t')
            && t'.heap == t.heap[a := bag] && t'.armed == t.armed
            && Remembered(t') == (if t.waiting < MAX_EVENTS then Remembered(t) + {a} else Remembered(t))
            && t'.waiting == (if t.waiting < MAX_EVENTS then t.waiting + 1 else t.waiting)
  {
    RememberFailsWhenFull(t);
    var t' := NewBag(t, a, bag);
    assert Some(a) !in t.slots;
    match FindSlot(t.slots, None) {
      case None =>
      case Some(i) =>
        UsedUpdate(t.slots, i, Some(a));
        assert t'.slots[i] == Some(a);
        forall x | x in Remembered(t) ensures x in Remembered(t') {
          var k :| 0 <= k < |t.slots| && t.slots[k] == Some(x);
          assert t'.slots[k] == Some(x);
        }
    }
  }

  /** Freeing gives back exactly a remembered bag, and forgets it. */
  lemma FreeBagKeeps(t: Table, a: Addr)
    requires TableOk(t)
    ensures var t' := FreeBag(t, a);
            && TableOk(t')
            && t'.armed == t.armed
            && t'.heap == (if a in Remembered(t) then t.heap - {a} else t.heap)
            && Remembered(t') == Remembered(t) - {a}
            && t'.waiting == (if a in Remembered(t) then t.waiting - 1 else t.waiting)
  {
    var t' := FreeBag(t, a);
    match FindSlot(t.slots, Some(a)) {
      case None =>
        assert a !in Remembered(t);
      case Some(i) =>
        assert a in Remembered(t);
        UsedUpdate(t.slots, i, None);
        forall x | x in Remembered(t) && x != a ensures x in Remembered(t') {
          var k :| 0 <= k < |t.slots| && t.slots[k] == Some(x);
          assert t'.slots[k] == Some(x);
        }
        assert Some(a) !in t'.slots;
    }
  }

  lemma NewBagCounts(t: Table, a: Addr, bag: Bag)
    requires TableOk(t) && a !in t.heap
    ensures |NewBag(t, a, bag).heap| == |t.heap| + 1
    ensures NewBag(t, a, bag).waiting == t.waiting + if None in t.slots then 1 else 0
    ensures None !in t.slots <==> t.waiting == MAX_EVENTS
  {
    NewBagKeeps(t, a, bag);
    FullMeansUsed(t.slots);
    assert NewBag(t, a, bag).heap.Keys == t.heap.Keys + {a};
  }

  lemma FreeBagCounts(t: Table, a: Addr)
    requires TableOk(t)
    ensures |FreeBag(t, a).heap| == |t.heap| - if Some(a) in t.slots then 1 else 0
    ensures FreeBag(t, a).waiting == t.waiting - if Some(a) in t.slots then 1 else 0
  {
    FreeBagKeeps(t, a);
    assert a in Remembered(t) <==> Some(a) in t.slots;
    if a in Remembered(t) {
      assert t.heap.Keys == FreeBag(t, a).heap.Keys + {a};
    }
  }

  // ---------- ev.c itself ----------

  /** The kernel's answer to an epoll_ctl call. */
  datatype Ctl = Done | NoEntry | Refused

  class Ev {
    const slots: array<Option<Addr>>
    var waiting: int
    var heap: map<Addr, Bag>
    var armed: map<Fd, Addr>

    ghost function T(): Table
      reads this, slots
    {
      Table(heap, slots[..], waiting, armed)
    }

    /** meloop_ev_init */
    constructor ()
      ensures T() == NewTable() && fresh(slots)
    {
      slots := new Option<Addr>[MAX_EVENTS](i => None);
      waiting, heap, armed := 0, map[], map[];
      new;
      assert slots[..] == NewTable().slots;
    }

    method BagsRemember(a: Addr) returns (ret: int)
      requires slots.Length == MAX_EVENTS
      modifies this`waiting, slots
      ensures T() == Remember(old(T()), a)
      ensures ret == match FindSlot(old(slots[..]), None) { case Some(i) => i case None => ERR }
    {
      var i := 0;
      while i < MAX_EVENTS
        invariant 0 <= i <= MAX_EVENTS
        invariant T() == old(T())
        invariant forall j :: 0 <= j < i ==> slots[j] != None
      {
        if slots[i] == None {
          FindSlotIs(slots[..], None, i);
          slots[i] := Some(a);
          waiting := waiting + 1;
          assert slots[..] == old(slots[..])[i := Some(a)];
          return i;
        }
        i := i + 1;
      }
      assert None !in slots[..];
      return ERR;
    }

    /** Free a bag that the table remembers. */
    method BagFree(a: Addr)
      requires slots.Length == MAX_EVENTS
      modifies this`waiting, this`heap, slots
      ensures T() == FreeBag(old(T()), a)
    {
      var i := 0;
      while i < MAX_EVENTS
        invariant 0 <= i <= MAX_EVENTS
        invariant T() == old(T())
        invariant forall j :: 0 <= j < i ==> slots[j] != Some(a)
      {
        if slots[i] == Some(a) {
          FindSlotIs(slots[..], Some(a), i);
          heap := heap - {a};
          slots[i] := None;
          waiting := waiting - 1;
          assert slots[..] == old(slots[..])[i := None];
          return;
        }
        i := i + 1;
      }
      assert Some(a) !in slots[..];
    }

    /** Free all remembered bags. The counter stays what it was, so it agrees with the emptied table
        afterwards only if it was 0. */
    method BagsFreeAll()
      requires TableOk(T())
      modifies this`heap, slots
      ensures heap == old(heap) - Remembered(old(T()))
      ensures forall i :: 0 <= i < MAX_EVENTS ==> slots[i] == None
      ensures waiting == old(waiting) && armed == old(armed)
      ensures TableOk(T()) <==> old(waiting) == 0
    {
      ghost var t := T();
      ghost var seen: set<Addr> := {};
      var i := 0;
      while i < MAX_EVENTS
        invariant 0 <= i <= MAX_EVENTS
        invariant forall j :: 0 <= j < i ==> slots[j] == None
        invariant forall j :: i <= j < MAX_EVENTS ==> slots[j] == t.slots[j]
        invariant seen == set x | x in t.slots[..i] && x.Some? :: x.value
        invariant heap == t.heap - seen && seen <= t.heap.Keys
      {
        assert t.slots[..i + 1] == t.slots[..i] + [t.slots[i]];
        var bag := slots[i];
        if bag.Some? {
          assert bag.value in Remembered(t);
          seen := seen + {bag.value};
          heap := heap - {bag.value};
          slots[i] := None;
        }
        i := i + 1;
      }
      assert t.slots[..i] == t.slots;
      EmptyMeansUnused(slots[..]);
    }

    /** malloc answers a. */
    method BagNew(a: Addr, fd: Fd, c: nat, s: Ptr, data: Ptr)
      requires slots.Length == MAX_EVENTS && a !in heap
      modifies this`waiting, this`heap, slots
      ensures T() == NewBag(old(T()), a, Bag(fd, c, s, data))
    {
      heap := heap[a := Bag(fd, c, s, data)];
      var _ := BagsRemember(a);
    }

    /** Modify the registration of the bag's file descriptor, or add it where there is none. */
    method Arm(a: Addr, mod: Ctl, add: Ctl) returns (ret: int)
      requires a in heap
      modifies this`armed
      ensures ret == if mod.Done? || (mod.NoEntry? && add.Done?) then OK else ERR
      ensures T() == if ret == OK then ArmBag(old(T()), heap[a].fd, a) else old(T())
    {
      if mod != Done {
        if mod == NoEntry {
          if add != Done {
            return ERR;
          }
        } else {
          return ERR;
        }
      }
      armed := armed[heap[a].fd := a];
      return OK;
    }

    method Dearm(fd: Fd)
      modifies this`armed
      ensures T() == DisarmAll(old(T()), {fd})
    {
      armed := armed - {fd};
    }

    /** Non-zero while bags are remembered. */
    function More(): (n: int)
      reads this
    {
      waiting
    }
  }
}
