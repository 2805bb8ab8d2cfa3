/**
 Linked elements in memory (meloop/arrow.c): the heap a circuit really is, the walks over it, and the
 calls that rewire or dispose of it in place.
 */
module Elements {
  import opened CTypes
  import opened Options
  import opened Rings
  import opened Shapes

  class Element {
    const run: Ptr
    const priv: Ptr
    var last: bool
    var next: Element?
    // The memory of this element has not been given back to the allocator.
    ghost var live: bool

    /** malloc and the initialisation block of appendA: a one-element open circuit. */
    constructor (run: Ptr, priv: Ptr)
      ensures this.run == run && this.priv == priv
      ensures last && next == null && live
    {
      this.run, this.priv := run, priv;
      last, next, live := true, null, true;
    }
  }

  /** free(e). Freeing twice violates the precondition. */
  method Free(e: Element)
    requires e.live
    modifies e`live
    ensures !e.live
  {
    e.live := false;
  }

  ghost function Final(sh: Shape<Element>): (e: Element)
    requires |sh.cells| > 0
    ensures e in sh.cells
  {
    sh.cells[|sh.cells| - 1]
  }

  /** The `next` pointers in memory realise the shape, which is all that the walks look at. */
  ghost predicate Linked(sh: Shape<Element>)
    reads sh.cells
  {
    && Proper(sh)
    && (forall e <- sh.cells :: e.live)
    && (forall i :: 0 <= i < |sh.cells| - 1 ==> sh.cells[i].next == sh.cells[i + 1])
    && Final(sh).next == if sh.entry.None? then null else sh.cells[sh.entry.value]
  }

  /** The well-formed circuit: linked, and exactly the final element carries the `last` flag. */
  ghost predicate IsCircuit(sh: Shape<Element>)
    reads sh.cells
  {
    && Linked(sh)
    && (forall i :: 0 <= i < |sh.cells| ==> (sh.cells[i].last <==> i == |sh.cells| - 1))
  }

  // ---------- walks, and when they end ----------

  ghost predicate ClosedUnderNext(region: set<Element>)
    reads region
  {
    forall e <- region :: e.next == null || e.next in region
  }

  /** The element a walking loop has reached after k moves; null once it fell off the end. */
  ghost function Walk(region: set<Element>, e: Element, k: nat): (w: Element?)
    requires e in region && ClosedUnderNext(region)
    reads region
    ensures w == null || w in region
  {
    if k == 0 then e
    else
      var before := Walk(region, e, k - 1);
      if before == null then null else before.next
  }

  /** Some element on the walk from e has a NULL next: the first exit test of the walking loops. */
  ghost predicate MeetsEnd(region: set<Element>, e: Element)
    requires e in region && ClosedUnderNext(region)
    reads region
  {
    exists k: nat :: var w := Walk(region, e, k); w != null && w.next == null
  }

  /** Some element on the walk from e leads back to e: the second exit test. */
  ghost predicate MeetsStart(region: set<Element>, e: Element)
    requires e in region && ClosedUnderNext(region)
    reads region
  {
    exists k: nat :: var w := Walk(region, e, k); w != null && w.next == e
  }

  ghost function Region(sh: Shape<Element>): set<Element> {
    set e | e in sh.cells
  }

  lemma LinkedRegion(sh: Shape<Element>)
    requires Linked(sh)
    ensures ClosedUnderNext(Region(sh)) && sh.cells[0] in Region(sh)
  {
    forall e <- Region(sh) ensures e.next == null || e.next in Region(sh) {
      var i :| 0 <= i < |sh.cells| && sh.cells[i] == e;
      if i == |sh.cells| - 1 {
        assert e == Final(sh);
      } else {
        assert e.next == sh.cells[i + 1];
      }
    }
  }

  /** The k-th element of the memory walk is the k-th element of the ring walk. */
  lemma {:induction false} WalkIsVisit(sh: Shape<Element>, region: set<Element>, k: nat)
    requires Linked(sh) && Region(sh) <= region && ClosedUnderNext(region)
    ensures Walk(region, sh.cells[0], k) ==
            match Visit(RingOf(sh), k) { case None => null case Some(i) => sh.cells[i] }
  {
    if k > 0 {
      WalkIsVisit(sh, region, k - 1);
      var at := Visit(RingOf(sh), k - 1);
      if at.Some? && at.value == |sh.cells| - 1 {
        assert sh.cells[at.value] == Final(sh);
      }
    }
  }

  lemma NextInRing(sh: Shape<Element>, i: nat)
    requires Linked(sh) && i < |sh.cells|
    ensures sh.cells[i].next ==
            match RingOf(sh).Next(i) { case None => null case Some(j) => sh.cells[j] }
  {
    if i == |sh.cells| - 1 {
      assert sh.cells[i] == Final(sh);
    }
  }

  /** Exact meaning of the two exit tests on any linked circuit; a proper lasso never meets either. */
  lemma ExitTests(sh: Shape<Element>, region: set<Element>)
    requires Linked(sh) && Region(sh) <= region && ClosedUnderNext(region)
    ensures MeetsEnd(region, sh.cells[0]) <==> Open(sh)
    ensures MeetsStart(region, sh.cells[0]) <==> FullCycle(sh)
  {
    var e, n, ring := sh.cells[0], |sh.cells|, RingOf(sh);
    VisitClosedForm(ring, n - 1);
    WalkIsVisit(sh, region, n - 1);
    NextInRing(sh, n - 1);
    assert Walk(region, e, n - 1) == sh.cells[n - 1];
    forall k: nat | Walk(region, e, k) != null
      ensures Walk(region, e, k).next == null ==> Open(sh)
      ensures Walk(region, e, k).next == e ==> FullCycle(sh)
    {
      WalkIsVisit(sh, region, k);
      NextInRing(sh, Visit(ring, k).value);
    }
  }

  /** Whatever the pointers of a finite closed piece of memory look like, the elements reachable from
      any e form an open chain, a full cycle or a lasso. */
  lemma {:induction false} OrbitExists(region: set<Element>, e: Element, prefix: seq<Element>)
    returns (sh: Shape<Element>)
    requires ClosedUnderNext(region) && forall x <- region :: x.live
    requires |prefix| > 0 && prefix[0] == e && Distinct(prefix) && forall x <- prefix :: x in region
    requires forall i :: 0 <= i < |prefix| - 1 ==> prefix[i].next == prefix[i + 1]
    ensures Linked(sh) && sh.cells[0] == e && Region(sh) <= region
    decreases region - (set x | x in prefix)
  {
    var end := prefix[|prefix| - 1].next;
    if end == null {
      sh := Shape(prefix, None);
    } else if end in prefix {
      var p :| 0 <= p < |prefix| && prefix[p] == end;
      sh := Shape(prefix, Some(p));
    } else {
      assert end in region - (set x | x in prefix);
      assert end !in region - (set x | x in prefix + [end]);
      sh := OrbitExists(region, e, prefix + [end]);
    }
  }

  /** On any closed piece of memory, with no invariant at all: a walking loop started at e ends iff
      e's chain ends or leads back to e itself, and never does both. */
  lemma WalkEndsExactly(region: set<Element>, e: Element) returns (sh: Shape<Element>)
    requires ClosedUnderNext(region) && e in region && forall x <- region :: x.live
    ensures Linked(sh) && sh.cells[0] == e && Region(sh) <= region
    ensures MeetsEnd(region, e) || MeetsStart(region, e) <==> !Lasso(sh)
    ensures !(MeetsEnd(region, e) && MeetsStart(region, e))
  {
    sh := OrbitExists(region, e, [e]);
    ExitTests(sh, region);
  }

  /** A circuit walked from an inner element. */
  lemma LinkedFrom(sh: Shape<Element>, i: nat)
    requires Linked(sh) && i < |sh.cells|
    ensures Linked(From(sh, i)) && From(sh, i).cells[0] == sh.cells[i]
    ensures sh.entry.None? ==> Final(From(sh, i)) == Final(sh)
  {
    FromProper(sh, i);
    if sh.entry.Some? && sh.entry.value < i {
      LinkedTurned(sh, i);
    } else {
      LinkedSuffix(sh, i);
    }
  }

  lemma LinkedSuffix(sh: Shape<Element>, i: nat)
    requires Linked(sh) && i < |sh.cells| && Proper(From(sh, i))
    requires sh.entry.None? || i <= sh.entry.value
    ensures Linked(From(sh, i)) && Final(From(sh, i)) == Final(sh)
  {
  }

  lemma LinkedTurned(sh: Shape<Element>, i: nat)
    requires Linked(sh) && i < |sh.cells| && Proper(From(sh, i))
    requires sh.entry.Some? && sh.entry.value < i
    ensures Linked(From(sh, i))
  {
    var f := From(sh, i);
    forall k | 0 <= k < |f.cells| - 1 ensures f.cells[k].next == f.cells[k + 1] {
      TurnedLink(sh, i, k);
    }
    assert Final(f) == sh.cells[i - 1];
  }

  /** Started inside its cycle, a walk passes the final element and goes on at the entry. */
  lemma TurnedLink(sh: Shape<Element>, i: nat, k: nat)
    requires Linked(sh) && i < |sh.cells|
    requires sh.entry.Some? && sh.entry.value < i && k + 1 < |From(sh, i).cells|
    ensures From(sh, i).cells[k].next == From(sh, i).cells[k + 1]
  {
    var f, n, p := From(sh, i), |sh.cells|, sh.entry.value;
    if k < n - i - 1 {
      assert f.cells[k] == sh.cells[i + k] && f.cells[k + 1] == sh.cells[i + k + 1];
    } else if k == n - i - 1 {
      assert f.cells[k] == Final(sh) && f.cells[k + 1] == sh.cells[p];
    } else {
      var at := p + k - (n - i);
      assert f.cells[k] == sh.cells[at] && f.cells[k + 1] == sh.cells[at + 1];
    }
  }

  // ---------- bindA ----------

  /** The walk from e once `cut` has been made to lead to `to`: what the second loop of bindA sees. */
  ghost function WalkRewired(region: set<Element>, cut: Element, to: Element, e: Element, k: nat): (w: Element?)
    requires e in region && to in region && ClosedUnderNext(region)
    reads region
    ensures w == null || w in region
  {
    if k == 0 then e
    else
      var before := WalkRewired(region, cut, to, e, k - 1);
      if before == null then null else if before == cut then to else before.next
  }

  /** Some element on that walk passes one of the exit tests. */
  ghost predicate RewiredEnds(region: set<Element>, cut: Element, to: Element, e: Element)
    requires e in region && to in region && ClosedUnderNext(region)
    reads region
  {
    exists k: nat ::
      var w := WalkRewired(region, cut, to, e, k);
      w != null && var next := if w == cut then to else w.next; next == null || next == e
  }

  /** The loops of bindA(head of a, head of b) both end. When a is closed, its final element leads to b by
      the time the second loop walks, which matters if the two circuits share elements. */
  ghost predicate BindEnds(a: Shape<Element>, b: Shape<Element>)
    requires Linked(a) && Linked(b)
    requires ClosedUnderNext(Region(a)) && ClosedUnderNext(Region(b))
    reads a.cells, b.cells
  {
    var e1, e2 := a.cells[0], b.cells[0];
    || MeetsEnd(Region(a), e1)
    || (MeetsStart(Region(a), e1) && RewiredEnds(Region(a) + Region(b), Final(a), e2, e2))
  }

  /** An element of a full cycle brings the rest of the cycle with it. */
  lemma {:induction false} SharedToFinal(a: Shape<Element>, b: Shape<Element>, i: nat)
    requires Linked(a) && Linked(b) && ClosedUnderNext(Region(b))
    requires i < |a.cells| && a.cells[i] in b.cells
    ensures Final(a) in b.cells
    decreases |a.cells| - i
  {
    if i < |a.cells| - 1 {
      assert a.cells[i] in Region(b) && a.cells[i].next == a.cells[i + 1];
      SharedToFinal(a, b, i + 1);
    }
  }

  /** Up to the rewired element nothing has changed. */
  lemma {:induction false} RewiredPrefix(b: Shape<Element>, region: set<Element>, cut: Element, k: nat)
    requires Linked(b) && Region(b) <= region && ClosedUnderNext(region) && k < |b.cells|
    requires cut !in b.cells[..k]
    ensures WalkRewired(region, cut, b.cells[0], b.cells[0], k) == b.cells[k]
  {
    if k > 0 {
      RewiredPrefix(b, region, cut, k - 1);
      assert b.cells[k - 1] in b.cells[..k];
    }
  }

  /** A walk that never comes to the rewired element is the old walk. */
  lemma {:induction false} RewiredElsewhere(b: Shape<Element>, region: set<Element>, cut: Element, k: nat)
    requires Linked(b) && Region(b) <= region && ClosedUnderNext(region) && cut !in b.cells
    ensures WalkRewired(region, cut, b.cells[0], b.cells[0], k) == Walk(region, b.cells[0], k)
    ensures Walk(region, b.cells[0], k) != cut
  {
    WalkIsVisit(b, region, k);
    if k > 0 {
      RewiredElsewhere(b, region, cut, k - 1);
    }
  }

  lemma DisjointSecondWalk(b: Shape<Element>, region: set<Element>, cut: Element)
    requires Linked(b) && Region(b) <= region && ClosedUnderNext(region) && cut !in b.cells
    ensures RewiredEnds(region, cut, b.cells[0], b.cells[0]) <==> !Lasso(b)
  {
    var e := b.cells[0];
    ExitTests(b, region);
    forall k: nat
      ensures WalkRewired(region, cut, e, e, k) == Walk(region, e, k) && Walk(region, e, k) != cut
    {
      RewiredElsewhere(b, region, cut, k);
    }
  }

  lemma SharedSecondWalk(b: Shape<Element>, region: set<Element>, cut: Element)
    requires Linked(b) && Region(b) <= region && ClosedUnderNext(region) && cut in b.cells
    ensures RewiredEnds(region, cut, b.cells[0], b.cells[0])
  {
    var k :| 0 <= k < |b.cells| && b.cells[k] == cut;
    RewiredPrefix(b, region, cut, k);
  }

  /** Exact termination domain of bindA, for any two circuits: e1 is open, or e1 is a full cycle and e2 is
      no proper lasso or shares an element with it. */
  lemma BindEndsExactly(a: Shape<Element>, b: Shape<Element>)
    requires Linked(a) && Linked(b)
    requires ClosedUnderNext(Region(a)) && ClosedUnderNext(Region(b))
    ensures BindEnds(a, b) <==> Open(a) || (FullCycle(a) && (!Lasso(b) || !Disjoint(a.cells, b.cells)))
    ensures Disjoint(a.cells, b.cells) ==> (BindEnds(a, b) <==> Bind(a, b).Some?)
  {
    var region := Region(a) + Region(b);
    ExitTests(a, Region(a));
    if Disjoint(a.cells, b.cells) {
      DisjointSecondWalk(b, region, Final(a));
    } else {
      var i :| 0 <= i < |a.cells| && a.cells[i] in b.cells;
      SharedToFinal(a, b, i);
      SharedSecondWalk(b, region, Final(a));
    }
  }

  /** The second loop of bindA finds its end at the final element of a itself. */
  ghost predicate Overlaps(a: Shape<Element>, b: Shape<Element>) {
    !Open(a) && !Disjoint(a.cells, b.cells)
  }

  /** What bindA writes. The final element of a loses its flag and leads to b; when a was closed the final
      element of b leads back to a. When a was closed and b shares elements with it, both writes go to the
      final element of a, so that only its flag is different in the end. Nothing else changes. */
  twostate predicate BindWrites(a: Shape<Element>, b: Shape<Element>)
    requires |a.cells| > 0 && |b.cells| > 0
    reads a.cells, b.cells
  {
    && !Final(a).last
    && Final(a).next == (if Overlaps(a, b) then a.cells[0] else b.cells[0])
    && (!Open(a) && !Overlaps(a, b) ==> Final(b).next == a.cells[0])
    && (Open(a) || Overlaps(a, b) ==> Final(b) != Final(a) ==> Final(b).next == old(Final(b).next))
    && (Final(b) != Final(a) ==> Final(b).last == old(Final(b).last))
    && (forall e <- a.cells + b.cells :: e.live == old(e.live))
    && (forall e <- a.cells + b.cells :: e != Final(a) && e != Final(b) ==>
          e.next == old(e.next) && e.last == old(e.last))
  }

  /** Consecutive live cells follow each other. */
  ghost predicate Chained(cells: seq<Element>)
    reads cells
  {
    && (forall e <- cells :: e.live)
    && (forall i :: 0 <= i < |cells| - 1 ==> cells[i].next == cells[i + 1])
  }

  /** Memory in which a's chain leads into b's, and b's end where the bound circuit says, holds the
      bound circuit. */
  lemma BoundLinks(a: Shape<Element>, b: Shape<Element>)
    requires Proper(a) && Proper(b) && Disjoint(a.cells, b.cells) && Bind(a, b).Some?
    requires Chained(a.cells) && Chained(b.cells)
    requires Final(a).next == b.cells[0]
    requires Final(b).next == if !Open(a) then a.cells[0] else if Open(b) then null else b.cells[b.entry.value]
    ensures Linked(Bind(a, b).value)
  {
    BindProper(a, b);
    var r := Bind(a, b).value;
    var n1, n := |a.cells|, |r.cells|;
    forall i | 0 <= i < n - 1 ensures r.cells[i].next == r.cells[i + 1] {
      assert r.cells[i] == if i < n1 then a.cells[i] else b.cells[i - n1];
    }
  }

  /** The final cell of b carries the only flag of the bound circuit. */
  lemma BoundFlags(a: Shape<Element>, b: Shape<Element>)
    requires |a.cells| > 0 && |b.cells| > 0 && Bind(a, b).Some? && Linked(Bind(a, b).value)
    requires forall e <- a.cells :: !e.last
    requires forall i :: 0 <= i < |b.cells| ==> (b.cells[i].last <==> i == |b.cells| - 1)
    ensures IsCircuit(Bind(a, b).value)
  {
    var r := Bind(a, b).value;
    var n1, n := |a.cells|, |r.cells|;
    forall i | 0 <= i < n ensures r.cells[i].last <==> i == n - 1 {
      assert r.cells[i] == if i < n1 then a.cells[i] else b.cells[i - n1];
    }
  }

  /**
   Bind the circuit that starts at e2 behind the one that starts at e1.

   Requires only that its loops end; the `last` flags need not be right, and the circuits may share elements.
   */
  method BindA(e1: Element, e2: Element, ghost a: Shape<Element>, ghost b: Shape<Element>)
    requires Linked(a) && a.cells[0] == e1
    requires Linked(b) && b.cells[0] == e2
    requires ClosedUnderNext(Region(a)) && ClosedUnderNext(Region(b)) && BindEnds(a, b)
    modifies Final(a), Final(b)
    ensures BindWrites(a, b)
    ensures Disjoint(a.cells, b.cells) ==> Bind(a, b).Some? && Linked(Bind(a, b).value)
    ensures old(IsCircuit(a) && IsCircuit(b)) && Disjoint(a.cells, b.cells) ==> IsCircuit(Bind(a, b).value)
    ensures Overlaps(a, b) ==> Linked(a) && Linked(b) && !IsCircuit(a)
  {
    BindEndsExactly(a, b);
    hide BindEnds;
    Rewire(e1, e2, a, b);
    hide ClosedUnderNext, Overlaps;
    if Disjoint(a.cells, b.cells) {
      assert Chained(a.cells);
      assert Chained(b.cells);
      BoundLinks(a, b);
      if old(IsCircuit(a) && IsCircuit(b)) {
        BoundFlags(a, b);
      }
    }
  }

  /** The second walk of bindA: the first element that leads nowhere, or back to e2, is made to lead to e1. */
  method CloseOnto(e1: Element, e2: Element, ghost walked: seq<Element>, ghost end: Element)
    requires |walked| > 0 && walked[0] == e2 && walked[|walked| - 1] == end
    requires forall j :: 0 <= j < |walked| - 1 ==> walked[j].next == walked[j + 1]
    requires forall j :: 0 < j < |walked| ==> walked[j] != e2
    requires end.next == null || end.next == e2
    modifies end`next
    ensures end.next == e1
  {
    var e2last := e2;
    ghost var j := 0;
    while true
      invariant 0 <= j < |walked| && e2last == walked[j]
      invariant unchanged(walked)
      decreases |walked| - j
    {
      assert j < |walked| - 1 ==> e2last.next == walked[j + 1];
      if e2last.next == null || e2last.next == e2 {
        e2last.next := e1;
        return;
      }
      e2last := e2last.next;
      j := j + 1;
    }
  }

  /** The first walk of bindA; where e1 is closed, the second one follows. */
  method Rewire(e1: Element, e2: Element, ghost a: Shape<Element>, ghost b: Shape<Element>)
    requires Linked(a) && a.cells[0] == e1
    requires Linked(b) && b.cells[0] == e2 && ClosedUnderNext(Region(b))
    requires Open(a) || (FullCycle(a) && (!Lasso(b) || Overlaps(a, b)))
    modifies Final(a), Final(b)
    ensures BindWrites(a, b)
    ensures Overlaps(a, b) ==> Linked(a) && Linked(b)
  {
    ghost var n1, n2 := |a.cells|, EndOfSecondWalk(a, b) + 1;
    assert !Open(a) && !Overlaps(a, b) ==> Final(a) != Final(b);
    hide Overlaps, EndOfSecondWalk, ClosedUnderNext;
    var e1last := e1;
    ghost var i := 0;
    while true
      invariant 0 <= i < n1 && e1last == a.cells[i]
      invariant unchanged(a.cells) && unchanged(b.cells)
      decreases n1 - i
    {
      if i < n1 - 1 {
        assert e1last.next == a.cells[i + 1] && a.cells[0] != a.cells[i + 1];
      } else {
        assert e1last == Final(a);
      }
      // Open circuit
      if e1last.next == null {
        e1last.next := e2;
        e1last.last := false;
        return;
      }
      // Closed circuit
      if e1last.next == e1 {
        assert i == n1 - 1;
        e1last.next := e2;
        e1last.last := false;
        CloseOnto(e1, e2, b.cells[..n2], b.cells[n2 - 1]);
        return;
      }
      e1last := e1last.next;
      i := i + 1;
    }
  }

  /** Where the second loop of bindA stops: at the final element of b, or at that of a if it comes there. */
  ghost function EndOfSecondWalk(a: Shape<Element>, b: Shape<Element>): (j: nat)
    requires Linked(a) && Linked(b) && ClosedUnderNext(Region(b))
    reads a.cells, b.cells
    ensures j < |b.cells|
    ensures !Open(a) ==> forall k :: 0 <= k < j ==> b.cells[k] != Final(a)
    ensures b.cells[j] == if Overlaps(a, b) then Final(a) else Final(b)
  {
    if Overlaps(a, b) then
      var i :| 0 <= i < |a.cells| && a.cells[i] in b.cells;
      SharedToFinal(a, b, i);
      var j :| 0 <= j < |b.cells| && b.cells[j] == Final(a);
      j
    else
      |b.cells| - 1
  }

  /** bindA on the heads of two disjoint circuits. */
  method BindHeads(e1: Element, e2: Element, ghost a: Shape<Element>, ghost b: Shape<Element>)
    requires IsCircuit(a) && a.cells[0] == e1 && IsCircuit(b) && b.cells[0] == e2
    requires Disjoint(a.cells, b.cells) && Bind(a, b).Some?
    modifies Final(a), Final(b)
    ensures IsCircuit(Bind(a, b).value)
  {
    LinkedRegion(a);
    LinkedRegion(b);
    BindEndsExactly(a, b);
    BindA(e1, e2, a, b);
  }

  /** Closing a circuit by bindA(last, first) links it like loopA does, but takes away the flag that
      disposal stops at; loopA sets it. */
  method CloseByBind(ghost sh: Shape<Element>, first: Element, last: Element)
    requires IsCircuit(sh) && Open(sh) && first == sh.cells[0] && last == Final(sh)
    modifies last
    ensures Linked(Shape(sh.cells, Some(0))) && !IsCircuit(Shape(sh.cells, Some(0)))
    ensures forall e <- sh.cells :: !e.last
  {
    ghost var n := |sh.cells|;
    ghost var tip := From(sh, n - 1);
    LinkedFrom(sh, n - 1);
    assert tip.cells == [last];
    LinkedRegion(tip);
    LinkedRegion(sh);
    BindEndsExactly(tip, sh);
    BindA(last, first, tip, sh);
    assert last == sh.cells[n - 1];
    assert forall i :: 0 <= i < n - 1 ==> sh.cells[i] != last;
    assert !Shape(sh.cells, Some(0)).cells[n - 1].last;
  }

  // ---------- loopA ----------

  /** loopA on element i returns: exactly when the walk that starts there ends. */
  lemma LoopEndsExactly(sh: Shape<Element>, i: nat)
    requires Linked(sh) && i < |sh.cells|
    ensures ClosedUnderNext(Region(sh)) && sh.cells[i] in Region(sh)
    ensures MeetsEnd(Region(sh), sh.cells[i]) <==> Loop(sh, i).Looped?
    ensures MeetsStart(Region(sh), sh.cells[i]) <==> Loop(sh, i).AlreadyClosed?
    ensures !MeetsEnd(Region(sh), sh.cells[i]) && !MeetsStart(Region(sh), sh.cells[i]) <==> Loop(sh, i).Endless?
  {
    LinkedRegion(sh);
    LinkedFrom(sh, i);
    FromProper(sh, i);
    ExitTests(From(sh, i), Region(sh));
  }

  /**
   Close an open circuit so that its end leads to e, its i-th element. On an element of an existing
   cycle, wherever that is, nothing changes and the answer is ERR.
   */
  method LoopA(e: Element, ghost sh: Shape<Element>, ghost i: nat) returns (ret: int)
    requires Linked(sh) && i < |sh.cells| && sh.cells[i] == e
    requires ClosedUnderNext(Region(sh)) && (MeetsEnd(Region(sh), e) || MeetsStart(Region(sh), e))
    modifies if Open(sh) then {Final(sh)} else {}
    ensures Loop(sh, i).Looped? || Loop(sh, i).AlreadyClosed?
    ensures ret == if Loop(sh, i).Looped? then OK else ERR
    ensures Loop(sh, i).Looped? ==>
              && Final(sh).next == e && Final(sh).last && Final(sh).live
              && Linked(Loop(sh, i).shape)
              && (old(IsCircuit(sh)) ==> IsCircuit(Loop(sh, i).shape))
  {
    LoopEndsExactly(sh, i);
    LinkedFrom(sh, i);
    ghost var f := From(sh, i);
    ghost var n := |f.cells|;
    var first, last := e, e;
    ghost var k := 0;
    while true
      invariant 0 <= k < n && last == f.cells[k] && first == f.cells[0]
      invariant Linked(f)
      invariant unchanged(sh.cells)
      decreases n - k
    {
      if k < n - 1 {
        assert last.next == f.cells[k + 1] && f.cells[0] != f.cells[k + 1];
      } else {
        assert last == Final(f);
      }
      if last.next == null {
        assert last == Final(sh);
        last.next := first;
        last.last := true;
        assert Linked(Loop(sh, i).shape);
        return OK;
      }
      if last.next == first {
        return ERR;
      }
      last := last.next;
      k := k + 1;
    }
  }

  // ---------- freeE ----------

  /** How many elements freeE gives back, walking elements with these flags; None if it goes on to
      read an element it has already freed. `open` tells whether the final `next` is NULL. */
  function Disposed(flags: seq<bool>, open: bool): (d: Option<nat>)
    ensures d.Some? ==> d.value <= |flags|
  {
    if flags == [] then
      (if open then Some(0) else None)
    else if flags[0] then
      Some(1)
    else
      var rest := Disposed(flags[1..], open);
      if rest.None? then None else Some(1 + rest.value)
  }

  /** Disposal is complete, every element freed and none read after that, iff no inner element is
      flagged and the final one either is flagged or has no successor. */
  lemma {:induction false} DisposalExact(flags: seq<bool>, open: bool)
    requires flags != []
    ensures Disposed(flags, open) == Some(|flags|)
       <==> (forall i :: 0 <= i < |flags| - 1 ==> !flags[i]) && (open || flags[|flags| - 1])
    ensures Disposed(flags, open).None? <==> !open && forall i :: 0 <= i < |flags| ==> !flags[i]
  {
    if |flags| > 1 && !flags[0] {
      DisposalExact(flags[1..], open);
      assert forall i :: 1 <= i < |flags| ==> flags[1..][i - 1] == flags[i];
    }
  }

  /** `flags` lists the `last` flags of the cells. */
  ghost predicate Flagged(cells: seq<Element>, flags: seq<bool>)
    reads cells
  {
    |flags| == |cells| && forall i :: 0 <= i < |cells| ==> cells[i].last == flags[i]
  }

  /**
   Free the elements from e on, until the first one flagged `last`.

   `freed` counts the calls of free, each of which needs a live element. `cells` are the distinct
   elements still ahead, with their flags; the final one leads to NULL if `open`, and otherwise to some
   element that may be gone by then.
   */
  method FreeE(e: Element?, ghost cells: seq<Element>, ghost flags: seq<bool>, ghost open: bool)
    returns (ghost freed: nat)
    requires Distinct(cells) && Chained(cells) && Flagged(cells, flags)
    requires cells != [] ==> e == cells[0] && (open <==> cells[|cells| - 1].next == null)
    requires cells == [] ==> open && e == null
    requires Disposed(flags, open).Some?
    modifies cells`live
    ensures Disposed(flags, open) == Some(freed)
    ensures forall i :: 0 <= i < |cells| ==> (cells[i].live <==> freed <= i)
    decreases |cells|
  {
    if e == null {
      return 0;
    }
    var last := e.last;
    var next := e.next;
    Free(e);
    if last {
      // Disposition completed.
      return 1;
    }
    ghost var tail := cells[1..];
    DisposalStep(flags, open);
    assert forall i :: 0 <= i < |tail| ==> tail[i] == cells[i + 1];
    ghost var gone := FreeE(next, tail, flags[1..], open);
    assert forall i :: 1 <= i < |cells| ==> cells[i] == tail[i - 1];
    freed := 1 + gone;
  }

  /** One unflagged element further. */
  lemma DisposalStep(flags: seq<bool>, open: bool)
    requires flags != [] && !flags[0] && Disposed(flags, open).Some?
    ensures Disposed(flags[1..], open).Some?
    ensures Disposed(flags, open).value == 1 + Disposed(flags[1..], open).value
    ensures flags[1..] == [] ==> open
  {
  }
}
