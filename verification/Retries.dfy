/**
 What a circuit executes on its own, once the retries of waiting elements are left out, and the trace law:
 a circuit whose tasks return runs its elements in ring order.
 */
module Retries {
  import opened CTypes
  import opened Options
  import opened Rings
  import opened Machine
  import opened Runs
  import opened Refinement

  /** The inputs of a circuit whose waits block instead of going through the event loop. */
  function Erase(xs: seq<Input>): seq<Input> {
    if xs == [] then []
    else
      (match xs[0]
       case Park(_, _) => []
       case Resume => []
       case Abort => [Quit]
       case _ => [xs[0]]) + Erase(xs[1..])
  }

  /** The executions that are not retries. */
  function Fresh(log: seq<Visited>): seq<Visited> {
    if log == [] then []
    else (if log[0].retry then [] else [log[0]]) + Fresh(log[1..])
  }

  /** The circuit never waits, but otherwise is at the same element. */
  predicate SameSpot(waits: Solo, blocks: Solo) {
    || (waits.Idle? && blocks.Idle?)
    || (!waits.Idle? && blocks.Running? && waits.element == blocks.element)
  }

  /** Leaving out the retries, a circuit executes what it would if every wait simply blocked, element by
      element and argument by argument, and it ends at the same spot. */
  lemma {:induction false} RetriesOnly(r: Ring, waits: Solo, blocks: Solo, xs: seq<Input>)
    requires SoloOk(r, waits) && SoloOk(r, blocks) && SameSpot(waits, blocks) && Alone(r, waits, xs).Course?
    ensures var w, b := Alone(r, waits, xs), Alone(r, blocks, Erase(xs));
            b.Course? && b.log == Fresh(w.log) && SameSpot(w.end, b.end)
    decreases |xs|
  {
    if xs != [] {
      var (waits', ran) := SoloStep(r, waits, xs[0]);
      var rest := Erase(xs[1..]);
      FreshListed(ran, Alone(r, waits', xs[1..]).log);
      match xs[0] {
        case Park(s, d) =>
          RetriesOnly(r, waits', blocks, xs[1..]);
          assert Erase(xs) == rest;
        case Resume =>
          RetriesOnly(r, waits', blocks, xs[1..]);
          assert Erase(xs) == rest;
        case Abort =>
          RetriesOnly(r, waits', Idle, xs[1..]);
          AloneCons(r, blocks, Quit, rest);
          assert Erase(xs) == [Quit] + rest;
        case _ =>
          var blocks' := SoloStep(r, blocks, xs[0]).0;
          RetriesOnly(r, waits', blocks', xs[1..]);
          AloneCons(r, blocks, xs[0], rest);
          assert Erase(xs) == [xs[0]] + rest;
      }
    }
  }

  lemma FreshListed(ran: Option<Visited>, tail: seq<Visited>)
    ensures Fresh(Listed(ran) + tail) ==
            (if ran.Some? && !ran.value.retry then [ran.value] else []) + Fresh(tail)
  {
    if ran.Some? {
      assert ([ran.value] + tail)[1..] == tail;
    } else {
      assert Listed(ran) + tail == tail;
    }
  }

  /** All inputs after the start are returns, waits and resumptions. */
  predicate NoFailure(xs: seq<Input>) {
    forall i :: 0 <= i < |xs| ==> xs[i].Next? || xs[i].Park? || xs[i].Resume?
  }

  /** Running or waiting at the k-th element of the ring walk. */
  predicate AtVisit(r: Ring, solo: Solo, k: nat)
    requires r.Valid()
  {
    !solo.Idle? && Visit(r, k) == Some(solo.element)
  }

  /** The log follows the ring walk from its k-th element on. */
  predicate Follows(r: Ring, log: seq<Visited>, k: nat)
    requires r.Valid()
  {
    forall j :: 0 <= j < |log| ==> Visit(r, k + j) == Some(log[j].element)
  }

  lemma FollowsCons(r: Ring, v: Visited, log: seq<Visited>, k: nat)
    requires r.Valid() && Visit(r, k) == Some(v.element) && Follows(r, log, k + 1)
    ensures Follows(r, [v] + log, k)
  {
    forall j | 0 <= j < |[v] + log| ensures Visit(r, k + j) == Some(([v] + log)[j].element) {
      if j > 0 {
        assert Visit(r, k + 1 + (j - 1)) == Some(log[j - 1].element);
      }
    }
  }

  /** Where the circuit is after l fresh executions beyond the k-th element of the walk. */
  predicate EndsAt(r: Ring, e: Solo, k: nat, l: nat)
    requires r.Valid()
  {
    AtVisit(r, e, k + l) || (e.Idle? && Visit(r, k + l) != None && Visit(r, k + l + 1) == None)
  }

  /** One input that is no failure: the walk goes on by one element, pauses, or ends. */
  lemma OneInput(r: Ring, solo: Solo, xs: seq<Input>, k: nat)
    requires SoloOk(r, solo) && xs != [] && Alone(r, solo, xs).Course? && NoFailure(xs) && AtVisit(r, solo, k)
    ensures NoFailure(xs[1..])
    ensures var (solo', ran) := SoloStep(r, solo, xs[0]);
            var rest := Alone(r, solo', xs[1..]);
            && rest.Course? && Alone(r, solo, xs).end == rest.end
            && Fresh(Alone(r, solo, xs).log) ==
               (if ran.Some? && !ran.value.retry then [ran.value] else []) + Fresh(rest.log)
            && (if solo'.Idle? then
                  xs[1..] == [] && ran.None? && Visit(r, k + 1) == None
                else if ran.Some? && !ran.value.retry then
                  AtVisit(r, solo', k + 1) && Visit(r, k + 1) == Some(ran.value.element)
                else
                  AtVisit(r, solo', k))
  {
    var (solo', ran) := SoloStep(r, solo, xs[0]);
    FreshListed(ran, Alone(r, solo', xs[1..]).log);
    assert Visit(r, k + 1) == r.Next(solo.element);
  }

  /** From the k-th element of the walk on, further fresh executions follow the walk. */
  lemma {:induction false} WalkFrom(r: Ring, solo: Solo, xs: seq<Input>, k: nat)
    requires SoloOk(r, solo) && Alone(r, solo, xs).Course? && NoFailure(xs) && AtVisit(r, solo, k)
    ensures var a := Alone(r, solo, xs);
            Follows(r, Fresh(a.log), k + 1) && EndsAt(r, a.end, k, |Fresh(a.log)|)
    decreases |xs|
  {
    if xs != [] {
      OneInput(r, solo, xs, k);
      hide Alone, SoloStep, Fresh, Visit;
      var (solo', ran) := SoloStep(r, solo, xs[0]);
      if !solo'.Idle? {
        if ran.Some? && !ran.value.retry {
          WalkFrom(r, solo', xs[1..], k + 1);
          FollowsCons(r, ran.value, Fresh(Alone(r, solo', xs[1..]).log), k + 1);
        } else {
          WalkFrom(r, solo', xs[1..], k);
        }
      }
    }
  }

  /**
   Trace law: of a circuit that is started and whose tasks all return, with any number of waits in
   between, the j-th fresh execution is the j-th element of the ring walk. A closed circuit never ends; an
   open one ends exactly at the return of its final element, every element having run once.
   */
  lemma {:induction false} TraceLaw(r: Ring, s: Ptr, d: Ptr, xs: seq<Input>)
    requires r.Valid() && Alone(r, Idle, [Go(s, d)] + xs).Course? && NoFailure(xs)
    ensures var a := Alone(r, Idle, [Go(s, d)] + xs);
            && Follows(r, Fresh(a.log), 0)
            && (a.end.Idle? <==> r.entry.None? && Nexts(xs) == r.size)
            && (a.end.Idle? ==> |Fresh(a.log)| == r.size)
  {
    var start, first := Running(0, s, d), Visited(0, s, d, false);
    AloneCons(r, Idle, Go(s, d), xs);
    var rest := Alone(r, start, xs);
    FreshListed(Some(first), rest.log);
    WalkFrom(r, start, xs, 0);
    FollowsCons(r, first, Fresh(rest.log), 0);
    CountNexts(r, start, xs);
    EndOfWalk(r, rest.end, |Fresh(rest.log)|);
  }

  /** The arguments handed on by the start and by the returns, in order. */
  function HandedOn(xs: seq<Input>): seq<(Ptr, Ptr)> {
    if xs == [] then [] else HandedBy(xs[0]) + HandedOn(xs[1..])
  }

  function HandedBy(x: Input): seq<(Ptr, Ptr)> {
    if x.Go? || x.Next? then [(x.state, x.data)] else []
  }

  /** The arguments the tasks are called with. */
  function CalledWith(log: seq<Visited>): seq<(Ptr, Ptr)> {
    if log == [] then [] else [(log[0].state, log[0].data)] + CalledWith(log[1..])
  }

  /** One input hands on as much as it executes, unless it ends the circuit. */
  lemma OneHandsOn(r: Ring, solo: Solo, xs: seq<Input>)
    requires SoloOk(r, solo) && xs != [] && Accepts(solo, xs[0]) && NoFailure(xs)
    ensures NoFailure(xs[1..])
    ensures var (solo', ran) := SoloStep(r, solo, xs[0]);
            var first := if ran.Some? && !ran.value.retry then [ran.value] else [];
            CalledWith(first) == if solo'.Idle? then [] else HandedBy(xs[0])
  {
    var (solo', ran) := SoloStep(r, solo, xs[0]);
    if ran.Some? && !ran.value.retry {
      assert [ran.value][1..] == [];
    }
  }

  lemma CalledWithConcat(x: seq<Visited>, y: seq<Visited>)
    requires |x| <= 1
    ensures CalledWith(x + y) == CalledWith(x) + CalledWith(y)
  {
    if x == [] {
      assert x + y == y;
    } else {
      assert (x + y)[1..] == y && x[1..] == [];
    }
  }

  /** Each fresh execution of a circuit gets the arguments of the return before it. */
  lemma {:induction false} ArgumentsFrom(r: Ring, solo: Solo, xs: seq<Input>)
    requires SoloOk(r, solo) && Alone(r, solo, xs).Course? && NoFailure(xs)
    ensures CalledWith(Fresh(Alone(r, solo, xs).log)) <= HandedOn(xs)
    decreases |xs|
  {
    if xs != [] {
      OneHandsOn(r, solo, xs);
      var (solo', ran) := SoloStep(r, solo, xs[0]);
      var first := if ran.Some? && !ran.value.retry then [ran.value] else [];
      FreshListed(ran, Alone(r, solo', xs[1..]).log);
      CalledWithConcat(first, Fresh(Alone(r, solo', xs[1..]).log));
      if solo'.Idle? {
        NothingWhenIdle(r, xs[1..]);
      } else {
        hide SoloStep, Fresh, CalledWith, HandedOn;
        ArgumentsFrom(r, solo', xs[1..]);
      }
    }
  }

  lemma NothingWhenIdle(r: Ring, xs: seq<Input>)
    requires r.Valid() && Alone(r, Idle, xs).Course? && NoFailure(xs)
    ensures xs == []
  {
  }

  /** Argument law: the first task gets what the circuit is started with, and each further one what the task
      before it returned. */
  lemma {:induction false} ArgumentLaw(r: Ring, s: Ptr, d: Ptr, xs: seq<Input>)
    requires r.Valid() && Alone(r, Idle, [Go(s, d)] + xs).Course? && NoFailure(xs)
    ensures var log := Fresh(Alone(r, Idle, [Go(s, d)] + xs).log);
            && CalledWith(log) <= [(s, d)] + HandedOn(xs)
            && CalledWith(log) != [] && CalledWith(log)[0] == (s, d)
  {
    var first := Visited(0, s, d, false);
    AloneCons(r, Idle, Go(s, d), xs);
    var rest := Alone(r, Running(0, s, d), xs);
    FreshListed(Some(first), rest.log);
    ArgumentsFrom(r, Running(0, s, d), xs);
    assert ([first] + Fresh(rest.log))[1..] == Fresh(rest.log);
  }

  lemma EndOfWalk(r: Ring, e: Solo, l: nat)
    requires r.Valid() && EndsAt(r, e, 0, l)
    ensures e.Idle? ==> r.entry.None? && l + 1 == r.size
    ensures !e.Idle? && r.entry.None? ==> l < r.size
  {
    VisitClosedForm(r, l);
    VisitClosedForm(r, l + 1);
  }

  function Nexts(xs: seq<Input>): nat {
    if xs == [] then 0 else (if xs[0].Next? then 1 else 0) + Nexts(xs[1..])
  }

  /** Every return but the one that ends the circuit executes one more element. */
  lemma {:induction false} CountNexts(r: Ring, solo: Solo, xs: seq<Input>)
    requires SoloOk(r, solo) && Alone(r, solo, xs).Course? && NoFailure(xs)
    ensures Nexts(xs) == |Fresh(Alone(r, solo, xs).log)| +
                         if Alone(r, solo, xs).end.Idle? && !solo.Idle? then 1 else 0
    decreases |xs|
  {
    if xs != [] {
      var (solo', ran) := SoloStep(r, solo, xs[0]);
      FreshListed(ran, Alone(r, solo', xs[1..]).log);
      assert NoFailure(xs[1..]);
      CountNexts(r, solo', xs[1..]);
    }
  }

  /** How often element i is in the log. */
  function Occurrences(log: seq<Visited>, i: nat): nat {
    if log == [] then 0
    else Occurrences(log[..|log| - 1], i) + if log[|log| - 1].element == i then 1 else 0
  }

  lemma {:induction false} LogCounts(r: Ring, log: seq<Visited>, i: nat)
    requires r.Valid() && Follows(r, log, 0)
    ensures Occurrences(log, i) == Executions(r, i, |log|)
    decreases |log|
  {
    if log != [] {
      var n := |log| - 1;
      assert Visit(r, 0 + n) == Some(log[n].element);
      assert Follows(r, log[..n], 0);
      LogCounts(r, log[..n], i);
    }
  }

  // ---------- in the event loop ----------

  /** Retries aside, a circuit started in the event loop executes what it would alone with blocking waits. */
  lemma {:induction false} RunsAsIfAlone(st: State, chs: seq<Choice>, c: nat)
    requires GoodRun(st, chs) && c < |st.rings| && View(st, c) == Idle
    ensures var alone := Alone(st.rings[c], Idle, Erase(Inputs(st, chs, c)));
            alone.Course? && alone.log == Fresh(Within(st, chs, c).log)
  {
    Interleaving(st, chs, c);
    RetriesOnly(st.rings[c], Idle, Idle, Inputs(st, chs, c));
  }

  /** The trace law inside the event loop, whatever else runs there. */
  lemma {:induction false} LoopTraceLaw(st: State, chs: seq<Choice>, c: nat, s: Ptr, d: Ptr, xs: seq<Input>)
    requires GoodRun(st, chs) && c < |st.rings| && View(st, c) == Idle
    requires Inputs(st, chs, c) == [Go(s, d)] + xs && NoFailure(xs)
    ensures var r, w := st.rings[c], Within(st, chs, c);
            Follows(r, Fresh(w.log), 0) && (w.end.Idle? <==> r.entry.None? && Nexts(xs) == r.size)
  {
    Interleaving(st, chs, c);
    TraceLaw(st.rings[c], s, d, xs);
  }

  /** The argument law inside the event loop. */
  lemma {:induction false} LoopArgumentLaw(st: State, chs: seq<Choice>, c: nat, s: Ptr, d: Ptr, xs: seq<Input>)
    requires GoodRun(st, chs) && c < |st.rings| && View(st, c) == Idle
    requires Inputs(st, chs, c) == [Go(s, d)] + xs && NoFailure(xs)
    ensures var called := CalledWith(Fresh(Within(st, chs, c).log));
            called <= [(s, d)] + HandedOn(xs) && called != [] && called[0] == (s, d)
  {
    Interleaving(st, chs, c);
    ArgumentLaw(st.rings[c], s, d, xs);
  }

  /** Fairness inside the event loop: on the cycle of a circuit, no element is ever more than one execution
      ahead of another, retries aside. */
  lemma {:induction false} LoopFairness(st: State, chs: seq<Choice>, c: nat, s: Ptr, d: Ptr, xs: seq<Input>,
                                        i: nat, j: nat)
    requires GoodRun(st, chs) && c < |st.rings| && View(st, c) == Idle
    requires Inputs(st, chs, c) == [Go(s, d)] + xs && NoFailure(xs)
    requires var r := st.rings[c];
             r.Valid() && r.entry.Some? && r.entry.value <= i < r.size && r.entry.value <= j < r.size
    ensures var log := Fresh(Within(st, chs, c).log);
            -1 <= Occurrences(log, i) - Occurrences(log, j) <= 1
  {
    LoopTraceLaw(st, chs, c, s, d, xs);
    var log := Fresh(Within(st, chs, c).log);
    LogCounts(st.rings[c], log, i);
    LogCounts(st.rings[c], log, j);
    FairCycle(st.rings[c], i, j, |log|);
  }
}
