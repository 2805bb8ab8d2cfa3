/**
 The circuit record (meloop/arrow.c, struct circuitS): building it call by call, moving its `current`
 pointer, and disposing of it.
 */
module Circuits {
  import opened CTypes
  import opened Options
  import opened Shapes
  import opened Elements

  class CircuitS {
    const hasErr: bool
    var current: Element?
    var nets: Element?
    // The circuit that `nets` starts, and the position in it that `current` points to.
    ghost var shape: Shape<Element>
    ghost var at: Option<nat>

    ghost predicate Valid()
      reads this, shape.cells
    {
      && (nets == null ==> shape == Empty())
      && (nets != null ==> IsCircuit(shape) && nets == shape.cells[0])
      && (at.None? ==> current == null)
      && (at.Some? ==> at.value < |shape.cells| && current == shape.cells[at.value])
    }

    /** newC */
    constructor (hasErr: bool)
      ensures Valid() && shape == Empty() && at == None && this.hasErr == hasErr
    {
      this.hasErr := hasErr;
      current, nets := null, null;
      shape, at := Empty(), None;
    }

    /** Make an element and bind it to the circuit. On a lasso the call would never return. */
    method AppendA(run: Ptr, priv: Ptr) returns (e2: Element)
      requires Valid() && !Lasso(shape)
      modifies this`nets, this`shape, shape.cells
      ensures Valid() && current == old(current) && at == old(at)
      ensures fresh(e2) && e2.run == run && e2.priv == priv
      ensures Some(shape) == Perform(old(shape), Append(e2))
    {
      e2 := new Element(run, priv);
      ghost var one := Shape([e2], None);
      if nets == null {
        nets := e2;
        shape := one;
      } else {
        BindHeads(nets, e2, shape, one);
        shape := Bind(shape, one).value;
      }
    }

    /** loopA on the circuit's i-th element. On the tail of a lasso the call would never return. */
    method CloseAt(e: Element, ghost i: nat) returns (ret: int)
      requires Valid() && i < |shape.cells| && shape.cells[i] == e && !Loop(shape, i).Endless?
      modifies this`shape, if Open(shape) then {Final(shape)} else {}
      ensures Valid() && current == old(current) && at == old(at) && nets == old(nets)
      ensures Some(shape) == Perform(old(shape), LoopAt(i))
      ensures ret == if Open(old(shape)) then OK else ERR
    {
      LoopEndsExactly(shape, i);
      ret := LoopA(e, shape, i);
      if Open(shape) {
        shape := Loop(shape, i).shape;
      }
    }

    /** runA up to the call of the element's task: the element that runs next. */
    method Enter() returns (e: Element)
      requires Valid() && nets != null
      modifies this`current, this`at
      ensures Valid() && nets == old(nets) && shape == old(shape)
      ensures at == Some(if old(at).None? then 0 else old(at).value) && e == shape.cells[at.value]
    {
      if current == null {
        current := nets;
        at := Some(0);
      }
      e := current;
    }

    /** returnA up to the call of the next task; null when the circuit has been run through. */
    method Advance() returns (e: Element?)
      requires Valid() && current != null
      modifies this`current, this`at
      ensures Valid() && nets == old(nets) && shape == old(shape)
      ensures at == RingOf(shape).Next(old(at).value)
      ensures e == if at.None? then null else shape.cells[at.value]
    {
      var curr := current;
      NextInRing(shape, at.value);
      at := RingOf(shape).Next(at.value);
      current := curr.next;
      if curr.next == null {
        return null;
      }
      e := current;
    }

    /** errorA: tell the callback, if there is one, and forget the current element. */
    method Stop() returns (called: bool)
      requires Valid()
      modifies this`current, this`at
      ensures Valid() && at == None && nets == old(nets) && shape == old(shape)
      ensures called == hasErr
    {
      called := hasErr;
      current := null;
      at := None;
    }
  }

  /** bindA on the heads of two circuits. From then on all elements belong to the first one: it alone is to
      be disposed of. */
  method BindC(c1: CircuitS, c2: CircuitS)
    requires c1.Valid() && c2.Valid() && c1 != c2 && c1.nets != null && c2.nets != null
    requires Disjoint(c1.shape.cells, c2.shape.cells) && Bind(c1.shape, c2.shape).Some?
    modifies c1`shape, Final(c1.shape), Final(c2.shape)
    ensures c1.Valid() && Some(c1.shape) == old(Bind(c1.shape, c2.shape))
    ensures c1.at == old(c1.at) && c1.current == old(c1.current) && c1.nets == old(c1.nets)
  {
    BindHeads(c1.nets, c2.nets, c1.shape, c2.shape);
    c1.shape := Bind(c1.shape, c2.shape).value;
  }

  /** Dispose of a circuit: every element is freed exactly once, whatever its shape. */
  method FreeC(c: CircuitS?) returns (ghost freed: nat)
    requires c != null ==> c.Valid()
    modifies if c == null then {} else Region(c.shape)`live
    ensures c != null ==> freed == |c.shape.cells|
    ensures c != null ==> forall e <- c.shape.cells :: !e.live
  {
    if c == null {
      return 0;
    }
    ghost var cells, open := c.shape.cells, Open(c.shape);
    ghost var flags := LastOnly(|cells|);
    if cells != [] {
      DisposalExact(flags, open);
    }
    freed := FreeE(c.nets, cells, flags, open);
  }

  /** The flags of a well-formed circuit of n elements. */
  function LastOnly(n: nat): (flags: seq<bool>)
    ensures |flags| == n && forall i :: 0 <= i < n ==> (flags[i] <==> i == n - 1)
  {
    seq(n, i => i == n - 1)
  }
}
