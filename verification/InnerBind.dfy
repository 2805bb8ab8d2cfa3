/**
 bindA on elements that need not be the heads of their circuits (meloop/arrow.c): the circuit that results, as
 seen from the first head, its flags, and what disposal makes of them.
 */
module InnerBind {
  import opened Options
  import opened Shapes
  import opened Elements

  /** Where the second circuit is put into the first one when it is bound at element i: behind the end, or, on
      the cycle but not at its entry, before element i. */
  function Seam<T>(a: Shape<T>, i: nat): (q: nat)
    requires Proper(a) && i < |a.cells|
    ensures 0 < q <= |a.cells|
  {
    if a.entry.Some? && a.entry.value < i then i else |a.cells|
  }

  /** The circuit that starts at the head of a once element j of b is bound behind element i of a. */
  function Whole<T>(a: Shape<T>, i: nat, b: Shape<T>, j: nat): Shape<T>
    requires Proper(a) && i < |a.cells| && Proper(b) && j < |b.cells|
  {
    var q, t := Seam(a, i), From(b, j);
    Shape(a.cells[..q] + t.cells + a.cells[q..],
          if !Open(a) then a.entry else if Open(b) then None else Some(|a.cells| + t.entry.value))
  }

  /** Which elements of it carry the `last` flag: the final one of b and, if that went before element i, the
      final one of a as well. */
  function FlagsAfter<T>(a: Shape<T>, i: nat, b: Shape<T>, j: nat): (flags: seq<bool>)
    requires Proper(a) && i < |a.cells| && Proper(b) && j < |b.cells|
    ensures |flags| == |Whole(a, i, b, j).cells|
  {
    var q, n := Seam(a, i), |Whole(a, i, b, j).cells|;
    seq(n, k => k == q + |b.cells| - 1 - j || (q < |a.cells| && k == n - 1))
  }

  /** Both elements are well chosen: the first is no inner element of a cycle, and the second is not behind the
      entry of one. */
  predicate WellChosen<T>(a: Shape<T>, i: nat, b: Shape<T>, j: nat) {
    (Open(a) || i == a.entry.value) && (Open(b) || j <= b.entry.value)
  }

  lemma WholeProper<T>(a: Shape<T>, i: nat, b: Shape<T>, j: nat)
    requires Proper(a) && i < |a.cells| && Proper(b) && j < |b.cells| && Disjoint(a.cells, b.cells)
    ensures Proper(Whole(a, i, b, j))
  {
    FromProper(b, j);
    var q, t := Seam(a, i), From(b, j);
    DistinctJoin(a.cells[..q], t.cells);
    DistinctJoin(a.cells[..q] + t.cells, a.cells[q..]);
  }

  lemma DistinctJoin<T>(x: seq<T>, y: seq<T>)
    requires Distinct(x) && Distinct(y) && Disjoint(x, y)
    ensures Distinct(x + y)
  {
  }

  lemma {:induction false} FirstFlagStops(flags: seq<bool>, open: bool, k: nat)
    requires k < |flags| && flags[k] && forall i :: 0 <= i < k ==> !flags[i]
    ensures Disposed(flags, open) == Some(k + 1)
  {
    if k > 0 {
      FirstFlagStops(flags[1..], open, k - 1);
    }
  }

  /** Disposal stops behind the final element of b, wherever that has got to. Nothing is leaked iff the elements
      were well chosen. */
  lemma {:induction false} DisposalAfter<T>(a: Shape<T>, i: nat, b: Shape<T>, j: nat)
    requires Proper(a) && i < |a.cells| && Proper(b) && j < |b.cells| && Bind(From(a, i), From(b, j)).Some?
    ensures var flags, open := FlagsAfter(a, i, b, j), Open(Whole(a, i, b, j));
            && Disposed(flags, open) == Some(Seam(a, i) + |b.cells| - j)
            && (Disposed(flags, open) == Some(|flags|) <==> WellChosen(a, i, b, j))
  {
    FromProper(a, i);
    FirstFlagStops(FlagsAfter(a, i, b, j), Open(Whole(a, i, b, j)), Seam(a, i) + |b.cells| - 1 - j);
  }

  /** The smallest leaks: element 1 of a two-element cycle is bound to, or is bound. Two of three elements are
      freed. */
  lemma InnerElementsLeak()
    ensures var pair, one := Shape([0, 1], Some(0)), Shape([2], None);
            && Disposed(FlagsAfter(pair, 1, one, 0), false) == Some(2) && |FlagsAfter(pair, 1, one, 0)| == 3
            && Disposed(FlagsAfter(one, 0, pair, 1), false) == Some(2) && |FlagsAfter(one, 0, pair, 1)| == 3
  {
    DisposalAfter(Shape([0, 1], Some(0)), 1, Shape([2], None), 0);
    DisposalAfter(Shape([2], None), 0, Shape([0, 1], Some(0)), 1);
  }

  // ---------- in memory ----------

  lemma ChainedJoin(x: seq<Element>, y: seq<Element>)
    requires Chained(x) && Chained(y) && x != [] && y != [] && x[|x| - 1].next == y[0]
    ensures Chained(x + y)
  {
  }

  /** Chains that lead into each other, and back where the shape says, hold the whole circuit. */
  lemma WholeLinked(a: Shape<Element>, i: nat, b: Shape<Element>, j: nat)
    requires Proper(a) && i < |a.cells| && Proper(b) && j < |b.cells| && Proper(Whole(a, i, b, j))
    requires Proper(From(b, j))
    requires var q, t := Seam(a, i), From(b, j);
             && Chained(a.cells[..q]) && Chained(t.cells) && Chained(a.cells[q..])
             && a.cells[q - 1].next == t.cells[0]
             && (q < |a.cells| ==> Final(t).next == a.cells[q] && Final(a).next == a.cells[a.entry.value])
             && (q == |a.cells| ==>
                   Final(t).next == if !Open(a) then a.cells[a.entry.value]
                                    else if Open(t) then null else t.cells[t.entry.value])
    ensures Linked(Whole(a, i, b, j))
  {
    var q, t, w := Seam(a, i), From(b, j), Whole(a, i, b, j);
    ChainedJoin(a.cells[..q], t.cells);
    if q < |a.cells| {
      ChainedJoin(a.cells[..q] + t.cells, a.cells[q..]);
      assert Final(w) == Final(a);
    } else {
      assert w.cells == a.cells[..q] + t.cells;
      assert Final(w) == Final(t);
    }
  }

  lemma FlagsOfWhole(a: Shape<Element>, i: nat, b: Shape<Element>, j: nat)
    requires Proper(a) && i < |a.cells| && Proper(b) && j < |b.cells|
    requires var q := Seam(a, i);
             && !a.cells[q - 1].last
             && forall k :: 0 <= k < |a.cells| && k != q - 1 ==> (a.cells[k].last <==> k == |a.cells| - 1)
    requires forall k :: 0 <= k < |b.cells| ==> (b.cells[k].last <==> k == |b.cells| - 1)
    ensures Flagged(Whole(a, i, b, j).cells, FlagsAfter(a, i, b, j))
  {
    var q, t, w := Seam(a, i), From(b, j), Whole(a, i, b, j);
    forall k | 0 <= k < |w.cells| ensures w.cells[k].last == FlagsAfter(a, i, b, j)[k] {
      assert w.cells[k] == if k < q then a.cells[k]
                           else if k < q + |t.cells| then t.cells[k - q] else a.cells[k - |t.cells|];
      if q <= k < q + |t.cells| {
        assert t.cells[k - q] == if k - q < |b.cells| - j then b.cells[j + k - q]
                                 else b.cells[b.entry.value + (k - q) - (|b.cells| - j)];
      }
    }
  }

  lemma FlagsMakeCircuit(a: Shape<Element>, i: nat, b: Shape<Element>, j: nat)
    requires Proper(a) && i < |a.cells| && Proper(b) && j < |b.cells| && Bind(From(a, i), From(b, j)).Some?
    requires Linked(Whole(a, i, b, j)) && Flagged(Whole(a, i, b, j).cells, FlagsAfter(a, i, b, j))
    ensures IsCircuit(Whole(a, i, b, j)) <==> WellChosen(a, i, b, j)
  {
    FromProper(a, i);
    var flags, w := FlagsAfter(a, i, b, j), Whole(a, i, b, j);
    assert flags[Seam(a, i) + |b.cells| - 1 - j];
    assert w.cells[Seam(a, i) + |b.cells| - 1 - j].last;
  }

  lemma FinalFrom<T>(a: Shape<T>, i: nat)
    requires Proper(a) && i < |a.cells| && !Lasso(From(a, i))
    ensures |From(a, i).cells| > 0 && From(a, i).cells[|From(a, i).cells| - 1] == a.cells[Seam(a, i) - 1]
  {
  }

  lemma DisjointFrom<T>(a: Shape<T>, i: nat, b: Shape<T>, j: nat)
    requires Proper(a) && i < |a.cells| && Proper(b) && j < |b.cells| && Disjoint(a.cells, b.cells)
    ensures Disjoint(From(a, i).cells, From(b, j).cells)
  {
    FromProper(a, i);
    FromProper(b, j);
    var x, y := From(a, i).cells, From(b, j).cells;
    hide From;
    forall k, l | 0 <= k < |x| && 0 <= l < |y| ensures x[k] != y[l] {
      assert x[k] in a.cells && y[l] in b.cells;
    }
  }

  /** The walks that bindA does from the two elements. */
  lemma Walks(a: Shape<Element>, i: nat, b: Shape<Element>, j: nat)
    requires Linked(a) && i < |a.cells| && Linked(b) && j < |b.cells|
    requires Disjoint(a.cells, b.cells) && Bind(From(a, i), From(b, j)).Some?
    ensures var f, t := From(a, i), From(b, j);
            && Linked(f) && Linked(t) && f.cells[0] == a.cells[i] && t.cells[0] == b.cells[j]
            && ClosedUnderNext(Region(f)) && ClosedUnderNext(Region(t)) && BindEnds(f, t)
            && Disjoint(f.cells, t.cells) && (Open(f) <==> Open(a))
            && Final(f) == a.cells[Seam(a, i) - 1]
  {
    LinkedFrom(a, i);
    LinkedFrom(b, j);
    FromProper(a, i);
    FinalFrom(a, i);
    DisjointFrom(a, i, b, j);
    hide Shapes.From, Shapes.Disjoint, Elements.BindEnds;
    LinkedRegion(From(a, i));
    LinkedRegion(From(b, j));
    hide Elements.Linked, Elements.ClosedUnderNext, Elements.Region;
    BindEndsExactly(From(a, i), From(b, j));
  }

  /** What bindA writes, told of the whole circuits: the element before the seam, and the end of the second walk. */
  method BindParts(e1: Element, e2: Element,
                   ghost a: Shape<Element>, ghost i: nat, ghost b: Shape<Element>, ghost j: nat)
    requires Linked(a) && i < |a.cells| && a.cells[i] == e1
    requires Linked(b) && j < |b.cells| && b.cells[j] == e2
    requires Disjoint(a.cells, b.cells) && Bind(From(a, i), From(b, j)).Some?
    requires Proper(From(b, j))
    modifies a.cells[Seam(a, i) - 1], Final(From(b, j))
    ensures Linked(Bind(From(a, i), From(b, j)).value)
    ensures var cut := a.cells[Seam(a, i) - 1]; cut.live && !cut.last && cut.next == e2
    ensures var end := Final(From(b, j));
            end.live && end.last == old(end.last) && end.next == if Open(a) then old(end.next) else e1
  {
    Walks(a, i, b, j);
    BindA(e1, e2, From(a, i), From(b, j));
  }

  /** A chain all of whose elements but the final one are as they were is still a chain. */
  twostate lemma StillChained(cells: seq<Element>)
    requires old(Chained(cells))
    requires forall k :: 0 <= k < |cells| - 1 ==> unchanged(cells[k])
    requires cells != [] ==> cells[|cells| - 1].live
    ensures Chained(cells)
  {
  }

  lemma Pieces(a: Shape<Element>, i: nat, b: Shape<Element>, j: nat)
    requires Linked(a) && i < |a.cells| && Linked(b) && j < |b.cells| && Disjoint(a.cells, b.cells)
    requires Linked(From(b, j))
    ensures var q, t := Seam(a, i), From(b, j);
            && Chained(a.cells[..q]) && Chained(a.cells[q..]) && Chained(t.cells)
            && (forall k :: 0 <= k < |a.cells| ==> a.cells[k] !in t.cells)
            && (forall k :: 0 <= k < |a.cells| && k != q - 1 ==> a.cells[k] != a.cells[q - 1])
            && (forall k :: 0 <= k < |t.cells| - 1 ==> t.cells[k] != Final(t))
  {
    FromProper(b, j);
  }

  /** The three pieces stay chains, and are led into each other. */
  method BindWhole(e1: Element, e2: Element,
                   ghost a: Shape<Element>, ghost i: nat, ghost b: Shape<Element>, ghost j: nat)
    requires Linked(a) && i < |a.cells| && a.cells[i] == e1
    requires Linked(b) && j < |b.cells| && b.cells[j] == e2
    requires Disjoint(a.cells, b.cells) && Bind(From(a, i), From(b, j)).Some?
    requires Linked(From(b, j)) && Proper(Whole(a, i, b, j))
    modifies a.cells[Seam(a, i) - 1], Final(From(b, j))
    ensures Linked(Bind(From(a, i), From(b, j)).value) && Linked(Whole(a, i, b, j))
    ensures !a.cells[Seam(a, i) - 1].last && Final(From(b, j)).last == old(Final(From(b, j)).last)
  {
    ghost var q, t := Seam(a, i), From(b, j);
    FromProper(a, i);
    FromProper(b, j);
    Pieces(a, i, b, j);
    BindParts(e1, e2, a, i, b, j);
    hide Shapes.From, Shapes.Bind, Shapes.Disjoint, Shapes.Distinct;
    StillChained(a.cells[..q]);
    StillChained(a.cells[q..]);
    StillChained(t.cells);
    WholeLinked(a, i, b, j);
  }

  /** bindA on any element of each of two disjoint well-formed circuits. The result is well-formed iff both
      elements are well chosen; otherwise freeC leaks (DisposalAfter). */
  method BindAt(e1: Element, e2: Element, ghost a: Shape<Element>, ghost i: nat, ghost b: Shape<Element>, ghost j: nat)
    requires IsCircuit(a) && i < |a.cells| && a.cells[i] == e1
    requires IsCircuit(b) && j < |b.cells| && b.cells[j] == e2
    requires Disjoint(a.cells, b.cells) && Bind(From(a, i), From(b, j)).Some?
    modifies a.cells, b.cells
    ensures Linked(Bind(From(a, i), From(b, j)).value)
    ensures Linked(Whole(a, i, b, j)) && Flagged(Whole(a, i, b, j).cells, FlagsAfter(a, i, b, j))
    ensures IsCircuit(Whole(a, i, b, j)) <==> WellChosen(a, i, b, j)
  {
    LinkedFrom(b, j);
    FromProper(b, j);
    WholeProper(a, i, b, j);
    BindWhole(e1, e2, a, i, b, j);
    FlagsOfWhole(a, i, b, j);
    FlagsMakeCircuit(a, i, b, j);
  }

  /** freeC on the result frees the elements up to the final one of b, and them only. */
  method FreeWhole(e: Element, ghost a: Shape<Element>, ghost i: nat, ghost b: Shape<Element>, ghost j: nat)
    returns (ghost freed: nat)
    requires Proper(a) && i < |a.cells| && Proper(b) && j < |b.cells| && Bind(From(a, i), From(b, j)).Some?
    requires Linked(Whole(a, i, b, j)) && Flagged(Whole(a, i, b, j).cells, FlagsAfter(a, i, b, j))
    requires e == Whole(a, i, b, j).cells[0]
    modifies Whole(a, i, b, j).cells`live
    ensures freed == Seam(a, i) + |b.cells| - j
    ensures var cells := Whole(a, i, b, j).cells; forall k :: 0 <= k < |cells| ==> (cells[k].live <==> freed <= k)
    ensures freed == |Whole(a, i, b, j).cells| <==> WellChosen(a, i, b, j)
  {
    DisposalAfter(a, i, b, j);
    ghost var w := Whole(a, i, b, j);
    assert Chained(w.cells) && Distinct(w.cells);
    freed := FreeE(e, w.cells, FlagsAfter(a, i, b, j), Open(w));
  }
}
