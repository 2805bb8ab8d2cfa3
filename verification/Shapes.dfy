/**
 Circuits as values: which elements, in which order, and where the final one leads.

 A shape says nothing about pointers; module Elements says when linked cells in memory realise one.
 Operations whose C loop never ends are None.
 */
module Shapes {
  import opened Options
  import opened Rings

  datatype Shape<T> = Shape(cells: seq<T>, entry: Option<nat>)

  /** No circuit yet: the `nets` pointer of a new circuit is NULL. */
  function Empty<T>(): Shape<T> {
    Shape([], None)
  }

  predicate Distinct<T(==)>(s: seq<T>) {
    forall i, j :: 0 <= i < j < |s| ==> s[i] != s[j]
  }

  predicate Disjoint<T(==)>(s: seq<T>, t: seq<T>) {
    forall i, j :: 0 <= i < |s| && 0 <= j < |t| ==> s[i] != t[j]
  }

  predicate Proper<T(==)>(sh: Shape<T>) {
    |sh.cells| > 0 && Distinct(sh.cells) && (sh.entry.Some? ==> sh.entry.value < |sh.cells|)
  }

  predicate Open<T>(sh: Shape<T>) { sh.entry.None? }

  predicate FullCycle<T>(sh: Shape<T>) { sh.entry == Some(0) }

  predicate Lasso<T>(sh: Shape<T>) { sh.entry.Some? && sh.entry.value > 0 }

  function RingOf<T(==)>(sh: Shape<T>): (r: Ring)
    requires Proper(sh)
    ensures r.Valid()
  {
    Ring(|sh.cells|, sh.entry)
  }

  // ---------- binding ----------

  /** The circuit that bindA(first of a, first of b) leaves behind; None when its loops never end. */
  function Bind<T>(a: Shape<T>, b: Shape<T>): (r: Option<Shape<T>>) {
    if Open(a) then
      Some(Shape(a.cells + b.cells,
                 if b.entry.None? then None else Some(|a.cells| + b.entry.value)))
    else if FullCycle(a) && !Lasso(b) then
      Some(Shape(a.cells + b.cells, Some(0)))
    else
      None
  }

  /** Binding disjoint circuits yields a circuit: the four diagrams, and nothing but them. */
  lemma BindProper<T>(a: Shape<T>, b: Shape<T>)
    requires Proper(a) && Proper(b) && Disjoint(a.cells, b.cells)
    ensures Bind(a, b).None? <==> Lasso(a) || (FullCycle(a) && Lasso(b))
    ensures Bind(a, b).Some? ==>
              var r := Bind(a, b).value;
              && Proper(r)
              && (Open(r) <==> Open(a) && Open(b))
              && (FullCycle(r) <==> FullCycle(a))
              && (Lasso(r) <==> Open(a) && !Open(b))
  {
  }

  function ThenBind<T>(a: Option<Shape<T>>, b: Option<Shape<T>>): Option<Shape<T>> {
    if a.Some? && b.Some? then Bind(a.value, b.value) else None
  }

  /** bind(bind(a, b), c). */
  function BindLeft<T>(a: Shape<T>, b: Shape<T>, c: Shape<T>): Option<Shape<T>> {
    ThenBind(Bind(a, b), Some(c))
  }

  /** bind(a, bind(b, c)). */
  function BindRight<T>(a: Shape<T>, b: Shape<T>, c: Shape<T>): Option<Shape<T>> {
    ThenBind(Some(a), Bind(b, c))
  }

  /** Binding is associative wherever both groupings end: same order, same entry, same flags. */
  lemma BindAssociative<T>(a: Shape<T>, b: Shape<T>, c: Shape<T>)
    requires Proper(a) && Proper(b) && Proper(c)
    requires BindLeft(a, b, c).Some? && BindRight(a, b, c).Some?
    ensures BindLeft(a, b, c) == BindRight(a, b, c)
  {
    assert a.cells + b.cells + c.cells == a.cells + (b.cells + c.cells);
  }

  /** Exactly when the two groupings agree, both ending or neither. They part in two families only:
      an open circuit before a full cycle before no lasso (only the right grouping ends), and
      a full cycle before an open circuit before a full cycle (only the left grouping ends). */
  lemma BindGroupingsAgree<T>(a: Shape<T>, b: Shape<T>, c: Shape<T>)
    requires Proper(a) && Proper(b) && Proper(c)
    ensures BindLeft(a, b, c) == BindRight(a, b, c)
       <==> !(Open(a) && FullCycle(b) && !Lasso(c)) && !(FullCycle(a) && Open(b) && FullCycle(c))
  {
    assert a.cells + b.cells + c.cells == a.cells + (b.cells + c.cells);
  }

  // ---------- walking from an inner element ----------

  /** The circuit as seen from element i: what a walk that starts there passes through. */
  function From<T>(sh: Shape<T>, i: nat): Shape<T>
    requires i < |sh.cells| && (sh.entry.Some? ==> sh.entry.value < |sh.cells|)
  {
    if sh.entry.None? then
      Shape(sh.cells[i..], None)
    else if i <= sh.entry.value then
      Shape(sh.cells[i..], Some(sh.entry.value - i))
    else
      Shape(sh.cells[i..] + sh.cells[sh.entry.value..i], Some(0))
  }

  lemma FromProper<T>(sh: Shape<T>, i: nat)
    requires Proper(sh) && i < |sh.cells|
    ensures Proper(From(sh, i)) && From(sh, i).cells[0] == sh.cells[i]
    ensures Open(From(sh, i)) <==> Open(sh)
    ensures Lasso(From(sh, i)) <==> sh.entry.Some? && i < sh.entry.value
    ensures forall x <- From(sh, i).cells :: x in sh.cells
  {
  }

  // ---------- looping ----------

  datatype LoopResult<T> = Looped(shape: Shape<T>) | AlreadyClosed | Endless

  /** What loopA on element i does: close an open circuit there, refuse on the cycle of a closed
      circuit, and walk for ever when started on the tail of a lasso. */
  function Loop<T>(sh: Shape<T>, i: nat): LoopResult<T> {
    if Open(sh) then Looped(Shape(sh.cells, Some(i)))
    else if sh.entry.value <= i then AlreadyClosed
    else Endless
  }

  // ---------- building a circuit ----------

  /** One construction call: appendA of a new element, or loopA on the i-th appended element. */
  datatype Op<T> = Append(x: T) | LoopAt(i: nat)

  function Perform<T>(sh: Shape<T>, op: Op<T>): Option<Shape<T>> {
    match op
    case Append(x) =>
      if sh.cells == [] then Some(Shape([x], None)) else Bind(sh, Shape([x], None))
    case LoopAt(i) =>
      match Loop(sh, i)
      case Looped(closed) => Some(closed)
      case AlreadyClosed => Some(sh)
      case Endless => None
  }

  /** All calls in order; None as soon as one never returns. */
  function Build<T>(ops: seq<Op<T>>): Option<Shape<T>> {
    if ops == [] then
      Some(Empty())
    else
      var before := Build(ops[..|ops| - 1]);
      if before.None? then None else Perform(before.value, ops[|ops| - 1])
  }

  /** The appended elements, in order. */
  function Appended<T>(ops: seq<Op<T>>): seq<T> {
    if ops == [] then []
    else Appended(ops[..|ops| - 1]) +
         match ops[|ops| - 1] { case Append(x) => [x] case LoopAt(_) => [] }
  }

  /** Every loopA is given an element that exists by then. */
  predicate Callable<T>(ops: seq<Op<T>>) {
    forall k :: 0 <= k < |ops| && ops[k].LoopAt? ==> ops[k].i < |Appended(ops[..k])|
  }

  /** Where the first loopA closes the circuit, if there is one. */
  function ClosedAt<T>(ops: seq<Op<T>>): Option<nat> {
    if ops == [] then None
    else
      var before := ClosedAt(ops[..|ops| - 1]);
      if before.Some? then before
      else match ops[|ops| - 1] { case Append(_) => None case LoopAt(i) => Some(i) }
  }

  /** The circuit is not closed on an inner element before the k-th call. */
  predicate NoLassoBefore<T>(ops: seq<Op<T>>, k: nat)
    requires k <= |ops|
  {
    ClosedAt(ops[..k]).None? || ClosedAt(ops[..k]) == Some(0)
  }

  /** The calls that return: an append to anything but a lasso, and a loop anywhere but on its tail. */
  predicate Returns<T>(ops: seq<Op<T>>, k: nat)
    requires k < |ops|
  {
    match ops[k]
    case Append(_) => NoLassoBefore(ops, k)
    case LoopAt(i) => ClosedAt(ops[..k]).None? || ClosedAt(ops[..k]).value <= i
  }

  predicate AllReturn<T>(ops: seq<Op<T>>) {
    forall k :: 0 <= k < |ops| ==> Returns(ops, k)
  }

  lemma DropLastCall<T>(ops: seq<Op<T>>)
    requires ops != []
    ensures AllReturn(ops) <==> AllReturn(ops[..|ops| - 1]) && Returns(ops, |ops| - 1)
    ensures Callable(ops) ==> Callable(ops[..|ops| - 1])
  {
    var init := ops[..|ops| - 1];
    assert forall k :: 0 <= k <= |init| ==> init[..k] == ops[..k];
    assert forall k :: 0 <= k < |init| ==> (Returns(init, k) <==> Returns(ops, k));
    if Callable(ops) {
      forall k | 0 <= k < |init| && init[k].LoopAt?
        ensures init[k].i < |Appended(init[..k])|
      {
        assert ops[k].LoopAt?;
      }
    }
  }

  /** Meaning of any construction sequence: it ends iff each of its calls returns, and then the
      circuit holds the appended elements in order, closed where the first loopA closed it. */
  lemma {:induction false} BuildMeaning<T>(ops: seq<Op<T>>)
    requires Callable(ops)
    ensures Build(ops).Some? <==> AllReturn(ops)
    ensures Build(ops).Some? ==> Build(ops).value == Shape(Appended(ops), ClosedAt(ops))
    ensures ClosedAt(ops).Some? ==> ClosedAt(ops).value < |Appended(ops)|
  {
    if ops != [] {
      DropLastCall(ops);
      BuildMeaning(ops[..|ops| - 1]);
      LastCall(ops);
    }
  }

  lemma LastCall<T>(ops: seq<Op<T>>)
    requires ops != [] && Callable(ops)
    requires var init := ops[..|ops| - 1];
             && (Build(init).Some? ==> Build(init).value == Shape(Appended(init), ClosedAt(init)))
             && (ClosedAt(init).Some? ==> ClosedAt(init).value < |Appended(init)|)
    ensures var init := ops[..|ops| - 1];
            Build(ops).Some? <==> Build(init).Some? && Returns(ops, |ops| - 1)
    ensures Build(ops).Some? ==> Build(ops).value == Shape(Appended(ops), ClosedAt(ops))
    ensures ClosedAt(ops).Some? ==> ClosedAt(ops).value < |Appended(ops)|
  {
    var init := ops[..|ops| - 1];
    var op := ops[|ops| - 1];
    if op.LoopAt? {
      assert op.i < |Appended(init)|;
      assert Appended(ops) == Appended(init);
    } else {
      assert Appended(ops) == Appended(init) + [op.x];
    }
  }

  predicate HeadLoops<T>(ops: seq<Op<T>>) {
    forall k :: 0 <= k < |ops| && ops[k].LoopAt? ==> ops[k].i == 0
  }

  lemma {:induction false} HeadClosure<T>(ops: seq<Op<T>>)
    requires HeadLoops(ops)
    ensures ClosedAt(ops).None? || ClosedAt(ops) == Some(0)
    ensures ClosedAt(ops).Some? <==> exists k :: 0 <= k < |ops| && ops[k].LoopAt?
  {
    if ops != [] {
      var init := ops[..|ops| - 1];
      HeadClosure(init);
      if ClosedAt(init).Some? {
        var k :| 0 <= k < |init| && init[k].LoopAt?;
        assert ops[k].LoopAt?;
      }
    }
  }

  /** Append and loop commute: two head-level construction sequences with the same appends build the
      same circuit, wherever and however often loopA on the head occurs in them. */
  lemma {:induction false} AppendLoopCommute<T>(p: seq<Op<T>>, q: seq<Op<T>>)
    requires Callable(p) && Callable(q) && HeadLoops(p) && HeadLoops(q)
    requires Appended(p) == Appended(q)
    requires (exists k :: 0 <= k < |p| && p[k].LoopAt?) <==> (exists k :: 0 <= k < |q| && q[k].LoopAt?)
    ensures Build(p).Some? && Build(p) == Build(q)
    ensures Build(p).value.cells == Appended(p)
    ensures FullCycle(Build(p).value) <==> exists k :: 0 <= k < |p| && p[k].LoopAt?
  {
    HeadBuilds(p);
    HeadBuilds(q);
  }

  lemma {:induction false} HeadBuilds<T>(p: seq<Op<T>>)
    requires Callable(p) && HeadLoops(p)
    ensures Build(p) == Some(Shape(Appended(p), ClosedAt(p)))
    ensures ClosedAt(p) == if exists k :: 0 <= k < |p| && p[k].LoopAt? then Some(0) else None
  {
    HeadClosure(p);
    BuildMeaning(p);
    forall k | 0 <= k < |p| ensures Returns(p, k) {
      HeadClosure(p[..k]);
    }
    assert AllReturn(p);
  }

  /** Every construction that ends leaves a proper circuit, provided the allocator never hands out
      the same element twice. */
  lemma {:induction false} BuildProper<T>(ops: seq<Op<T>>)
    requires Callable(ops) && Build(ops).Some? && Appended(ops) != [] && Distinct(Appended(ops))
    ensures Proper(Build(ops).value)
  {
    BuildMeaning(ops);
  }
}
