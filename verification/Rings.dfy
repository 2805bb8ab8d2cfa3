/**
 The order in which a circuit is walked, with elements named by their position.

 A circuit of `size` elements is walked 0, 1, 2, ... until its final element.
 From there the walk ends (`entry` is None: an open circuit), or goes on at position `entry`:
 0 for a full cycle, a larger position for a lasso.
 */
module Rings {
  import opened Options

  datatype Ring = Ring(size: nat, entry: Option<nat>) {
    predicate Valid() {
      0 < size && (entry.Some? ==> entry.value < size)
    }

    /** Position of the element that the `next` pointer of element `i` leads to. */
    function Next(i: nat): (r: Option<nat>)
      requires Valid() && i < size
      ensures r.Some? ==> r.value < size
    {
      if i + 1 < size then Some(i + 1) else entry
    }
  }

  /** The element reached after following `next` k times from the head; None once the walk has ended. */
  function Visit(r: Ring, k: nat): (v: Option<nat>)
    requires r.Valid()
    ensures v.Some? ==> v.value < r.size
  {
    if k == 0 then
      Some(0)
    else
      match Visit(r, k - 1)
      case None => None
      case Some(i) => r.Next(i)
  }

  /** Closed form of the walk: straight through once, then round the cycle for ever. */
  lemma {:induction false} VisitClosedForm(r: Ring, k: nat)
    requires r.Valid()
    ensures k < r.size ==> Visit(r, k) == Some(k)
    ensures k >= r.size && r.entry.None? ==> Visit(r, k) == None
    ensures k >= r.size && r.entry.Some? ==>
              var p := r.entry.value;
              Visit(r, k) == Some(p + (k - p) % (r.size - p))
  {
    if k > 0 {
      VisitClosedForm(r, k - 1);
      if r.entry.Some? && k >= r.size {
        EntryStep(r, k);
      }
    }
  }

  lemma EntryStep(r: Ring, k: nat)
    requires r.Valid() && r.entry.Some? && k >= r.size
    requires var p := r.entry.value;
             Visit(r, k - 1) == Some(if k == r.size then k - 1 else p + (k - 1 - p) % (r.size - p))
    ensures var p := r.entry.value; Visit(r, k) == Some(p + (k - p) % (r.size - p))
  {
    var p := r.entry.value;
    ModStep(k - p, r.size - p);
    if k == r.size {
      DivModUnique(k - 1 - p, r.size - p, 0, k - 1 - p);
    }
  }

  /** Remainder and quotient of a successor. */
  lemma ModStep(x: nat, m: nat)
    requires 0 < x && 0 < m
    ensures x % m == if (x - 1) % m == m - 1 then 0 else (x - 1) % m + 1
    ensures x / m == if (x - 1) % m == m - 1 then (x - 1) / m + 1 else (x - 1) / m
  {
    var q, s := (x - 1) / m, (x - 1) % m;
    assert x - 1 == q * m + s;
    if s == m - 1 {
      assert x == (q + 1) * m;
      DivModUnique(x, m, q + 1, 0);
    } else {
      DivModUnique(x, m, q, s + 1);
    }
  }

  lemma DivModUnique(x: nat, m: nat, q: nat, s: nat)
    requires 0 < m && s < m && x == q * m + s
    ensures x / m == q && x % m == s
  {
    var q', s' := x / m, x % m;
    assert (q - q') * m == q * m - q' * m == s' - s;
    if q' < q {
      AtLeastOnce(q - q', m);
    } else if q < q' {
      assert (q' - q) * m == -((q - q') * m);
      AtLeastOnce(q' - q, m);
    }
  }

  lemma AtLeastOnce(a: nat, m: nat)
    requires 0 < a
    ensures a * m >= m
  {
    assert a * m == (a - 1) * m + m;
  }

  /** How often element i is among the first k elements of the walk. */
  function Executions(r: Ring, i: nat, k: nat): nat
    requires r.Valid()
  {
    if k == 0 then 0
    else Executions(r, i, k - 1) + if Visit(r, k - 1) == Some(i) then 1 else 0
  }

  /** Exact execution counts: the tail runs once, and the cycle is shared out as evenly as possible. */
  lemma {:induction false} ExecutionsClosedForm(r: Ring, i: nat, k: nat)
    requires r.Valid() && i < r.size
    ensures (r.entry.None? || i < r.entry.value) ==> Executions(r, i, k) == if i < k then 1 else 0
    ensures r.entry.Some? && r.entry.value <= i ==>
              var p := r.entry.value;
              Executions(r, i, k) ==
              if k <= p then 0
              else (k - p) / (r.size - p) + if i - p < (k - p) % (r.size - p) then 1 else 0
  {
    if k > 0 {
      ExecutionsClosedForm(r, i, k - 1);
      VisitClosedForm(r, k - 1);
      if r.entry.Some? && r.entry.value <= i {
        CycleStep(r, i, k);
      }
    }
  }

  lemma CycleStep(r: Ring, i: nat, k: nat)
    requires r.Valid() && i < r.size && r.entry.Some? && r.entry.value <= i && 0 < k
    requires var p := r.entry.value;
             Executions(r, i, k - 1) ==
             if k - 1 <= p then 0
             else (k - 1 - p) / (r.size - p) + if i - p < (k - 1 - p) % (r.size - p) then 1 else 0
    ensures var p := r.entry.value;
            Executions(r, i, k) ==
            if k <= p then 0
            else (k - p) / (r.size - p) + if i - p < (k - p) % (r.size - p) then 1 else 0
  {
    var p := r.entry.value;
    var m := r.size - p;
    VisitClosedForm(r, k - 1);
    if k > p {
      ModStep(k - p, m);
      if k - 1 < r.size {
        DivModUnique(k - 1 - p, m, 0, k - 1 - p);
      }
    }
  }

  /** In a full cycle no element is ever more than one execution ahead of another; in a lasso this
      holds among the elements of the cycle. */
  lemma {:induction false} FairCycle(r: Ring, i: nat, j: nat, k: nat)
    requires r.Valid() && r.entry.Some?
    requires r.entry.value <= i < r.size && r.entry.value <= j < r.size
    ensures -1 <= Executions(r, i, k) - Executions(r, j, k) <= 1
  {
    ExecutionsClosedForm(r, i, k);
    ExecutionsClosedForm(r, j, k);
  }
}
