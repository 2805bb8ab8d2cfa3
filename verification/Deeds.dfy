/**
 What a run does that shows outside the loop: the tasks it calls, the descriptors the loop closes, and the
 circuits that fail, which is where their error callbacks are called.
 */
module Deeds {
  import opened CTypes
  import opened Options
  import opened BagTable
  import opened Machine
  import opened Invariant
  import opened Runs
  import opened Refinement

  datatype Deed =
    | Entered(exec: Exec)                           // a task is called
    | Closed(fd: Fd)                                // the loop closes a descriptor
    | Failed(circuit: nat, state: Ptr, data: Ptr)   // errorA, with what it hands to the error callback

  function Calls(r: Result): seq<Deed>
    requires r.Fine?
  {
    if r.ran.Some? then [Entered(r.ran.value)] else []
  }

  function StepDeeds(st: State, ch: Choice): seq<Deed>
    requires InRange(st) && Enabled(st, ch) && Step(st, ch).Fine?
  {
    match ch
    case Task(Fail(s, d)) => [Failed(Top(st).circuit, s, d)]
    case Task(Wait(s, d, _, _, armed)) => if armed then [] else [Failed(Top(st).circuit, s, d)]
    case Dispatch =>
      var ev := st.pending[0];
      var bag := st.table.heap[ev.bag];
      if ev.hup || ev.err then [Closed(bag.fd), Failed(bag.circuit, bag.state, bag.data)]
      else Calls(Step(st, ch))
    case _ => Calls(Step(st, ch))
  }

  /** Everything a run does, in order. */
  ghost function RunDeeds(st: State, chs: seq<Choice>): seq<Deed>
    requires GoodRun(st, chs)
    decreases |chs|
  {
    if chs == [] then []
    else
      RunHead(st, chs);
      StepDeeds(st, chs[0]) + RunDeeds(Step(st, chs[0]).state, chs[1..])
  }

  lemma {:induction false} DeedsCons(st: State, ch: Choice, rest: seq<Choice>)
    requires Inv(st) && Enabled(st, ch) && Disciplined(st, ch)
    requires Safe(Step(st, ch)) && GoodRun(Step(st, ch).state, rest)
    ensures GoodRun(st, [ch] + rest)
    ensures RunDeeds(st, [ch] + rest) == StepDeeds(st, ch) + RunDeeds(Step(st, ch).state, rest)
  {
    RunCons(st, ch, rest);
    assert ([ch] + rest)[1..] == rest;
  }

  // ---------- the parts ----------

  /** The executions. */
  function EntriesIn(deeds: seq<Deed>): seq<Exec> {
    if deeds == [] then []
    else (if deeds[0].Entered? then [deeds[0].exec] else []) + EntriesIn(deeds[1..])
  }

  /** The descriptors closed. */
  function ClosedIn(deeds: seq<Deed>): seq<Fd> {
    if deeds == [] then []
    else (if deeds[0].Closed? then [deeds[0].fd] else []) + ClosedIn(deeds[1..])
  }

  /** How often circuit c fails. */
  function FailuresIn(deeds: seq<Deed>, c: nat): nat {
    if deeds == [] then 0
    else (if deeds[0].Failed? && deeds[0].circuit == c then 1 else 0) + FailuresIn(deeds[1..], c)
  }

  lemma Regroup<T>(x: seq<T>, y: seq<T>, z: seq<T>)
    ensures (x + y) + z == x + (y + z)
  {
  }

  lemma {:induction false} EntriesOfConcat(x: seq<Deed>, y: seq<Deed>)
    ensures EntriesIn(x + y) == EntriesIn(x) + EntriesIn(y)
  {
    if x == [] {
      assert x + y == y;
    } else {
      EntriesOfConcat(x[1..], y);
      assert (x + y)[1..] == x[1..] + y && (x + y)[0] == x[0];
      Regroup(if x[0].Entered? then [x[0].exec] else [], EntriesIn(x[1..]), EntriesIn(y));
    }
  }

  lemma {:induction false} ClosedOfConcat(x: seq<Deed>, y: seq<Deed>)
    ensures ClosedIn(x + y) == ClosedIn(x) + ClosedIn(y)
  {
    if x == [] {
      assert x + y == y;
    } else {
      ClosedOfConcat(x[1..], y);
      assert (x + y)[1..] == x[1..] + y && (x + y)[0] == x[0];
      Regroup(if x[0].Closed? then [x[0].fd] else [], ClosedIn(x[1..]), ClosedIn(y));
    }
  }

  lemma {:induction false} FailuresOfConcat(x: seq<Deed>, y: seq<Deed>, c: nat)
    ensures FailuresIn(x + y, c) == FailuresIn(x, c) + FailuresIn(y, c)
  {
    if x == [] {
      assert x + y == y;
    } else {
      FailuresOfConcat(x[1..], y, c);
      assert (x + y)[1..] == x[1..] + y;
    }
  }

  /** What the run of the machine logs are the executions among its deeds. */
  lemma {:induction false} DeedsLog(st: State, chs: seq<Choice>)
    requires GoodRun(st, chs)
    ensures EntriesIn(RunDeeds(st, chs)) == RunLog(st, chs)
    decreases |chs|
  {
    if chs != [] {
      RunHead(st, chs);
      var next := Step(st, chs[0]).state;
      DeedsLog(next, chs[1..]);
      StepEntries(st, chs[0]);
      EntriesOfConcat(StepDeeds(st, chs[0]), RunDeeds(next, chs[1..]));
    }
  }

  lemma StepEntries(st: State, ch: Choice)
    requires InRange(st) && Enabled(st, ch) && Step(st, ch).Fine?
    ensures EntriesIn(StepDeeds(st, ch)) == Ran(Step(st, ch))
  {
    var deeds := StepDeeds(st, ch);
    if |deeds| == 2 {
      EntriesOfConcat([deeds[0]], [deeds[1]]);
      assert deeds == [deeds[0]] + [deeds[1]];
    }
  }

  /** The descriptors whose hang-ups the run handles, in order. */
  ghost function HungUp(st: State, chs: seq<Choice>): seq<Fd>
    requires GoodRun(st, chs)
    decreases |chs|
  {
    if chs == [] then []
    else
      RunHead(st, chs);
      (if chs[0].Dispatch? && (st.pending[0].hup || st.pending[0].err) then [st.table.heap[st.pending[0].bag].fd]
       else []) + HungUp(Step(st, chs[0]).state, chs[1..])
  }

  /** The loop closes exactly the descriptors that hang up, in that order. */
  lemma {:induction false} ClosesHangUps(st: State, chs: seq<Choice>)
    requires GoodRun(st, chs)
    ensures ClosedIn(RunDeeds(st, chs)) == HungUp(st, chs)
    decreases |chs|
  {
    if chs != [] {
      RunHead(st, chs);
      var next := Step(st, chs[0]).state;
      ClosesHangUps(next, chs[1..]);
      StepCloses(st, chs[0]);
      ClosedOfConcat(StepDeeds(st, chs[0]), RunDeeds(next, chs[1..]));
    }
  }

  lemma StepCloses(st: State, ch: Choice)
    requires InRange(st) && Enabled(st, ch) && Step(st, ch).Fine?
    ensures ClosedIn(StepDeeds(st, ch)) ==
            if ch.Dispatch? && (st.pending[0].hup || st.pending[0].err) then [st.table.heap[st.pending[0].bag].fd]
            else []
  {
    var deeds := StepDeeds(st, ch);
    if |deeds| == 2 {
      ClosedOfConcat([deeds[0]], [deeds[1]]);
      assert deeds == [deeds[0]] + [deeds[1]];
    }
  }

  /** How often a circuit is told to end by an error, alone: its task fails or cannot arm, or its wait ends in a
      hang-up. */
  function Endings(xs: seq<Input>): nat {
    if xs == [] then 0 else (if xs[0].Quit? || xs[0].Abort? then 1 else 0) + Endings(xs[1..])
  }

  /** errorA is called for a circuit exactly as often as the circuit ends by an error. */
  lemma {:induction false} FailsAsAlone(st: State, chs: seq<Choice>, c: nat)
    requires GoodRun(st, chs)
    ensures FailuresIn(RunDeeds(st, chs), c) == Endings(Inputs(st, chs, c))
    decreases |chs|
  {
    if chs != [] {
      RunHead(st, chs);
      var next, x := Step(st, chs[0]).state, InputOf(st, chs[0], c);
      FailsAsAlone(next, chs[1..], c);
      StepFails(st, chs[0], c);
      FailuresOfConcat(StepDeeds(st, chs[0]), RunDeeds(next, chs[1..]), c);
      EndingsGiven(x, Inputs(next, chs[1..], c));
    }
  }

  lemma EndingsGiven(x: Option<Input>, rest: seq<Input>)
    ensures Endings(Given(x) + rest) == (if x.Some? && (x.value.Quit? || x.value.Abort?) then 1 else 0) + Endings(rest)
  {
    if x.Some? {
      assert (Given(x) + rest)[1..] == rest;
    } else {
      assert Given(x) + rest == rest;
    }
  }

  lemma StepFails(st: State, ch: Choice, c: nat)
    requires Inv(st) && Enabled(st, ch) && Step(st, ch).Fine?
    ensures FailuresIn(StepDeeds(st, ch), c) ==
            match InputOf(st, ch, c) { case None => 0 case Some(x) => if x.Quit? || x.Abort? then 1 else 0 }
  {
    var deeds := StepDeeds(st, ch);
    if |deeds| == 2 {
      FailuresOfConcat([deeds[0]], [deeds[1]], c);
      assert deeds == [deeds[0]] + [deeds[1]];
    }
  }
}
