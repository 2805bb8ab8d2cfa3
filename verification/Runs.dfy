/** Whole runs of the machine: any sequence of choices that the environment can make one after the other. */
module Runs {
  import opened Options
  import opened BagTable
  import opened Machine
  import opened Invariant

  /** How a run goes: a choice is not possible, or there is a fault, or the run gets to its end. `log`
      lists everything it executed. */
  datatype Played = Impossible | Crash(fault: Fault, log: seq<Exec>) | End(state: State, log: seq<Exec>)

  /** What a step executes. */
  function Ran(r: Result): seq<Exec>
    requires r.Fine?
  {
    if r.ran.Some? then [r.ran.value] else []
  }

  function Logged(first: seq<Exec>, rest: Played): Played {
    match rest
    case Impossible => Impossible
    case Crash(fault, log) => Crash(fault, first + log)
    case End(state, log) => End(state, first + log)
  }

  function Play(st: State, chs: seq<Choice>): (p: Played)
    requires InRange(st)
    ensures p.End? ==> InRange(p.state)
    decreases |chs|
  {
    if chs == [] then
      End(st, [])
    else if !Enabled(st, chs[0]) then
      Impossible
    else
      match Step(st, chs[0])
      case Faulty(fault) => Crash(fault, [])
      case Fine(next, ran) => Logged(Ran(Fine(next, ran)), Play(next, chs[1..]))
  }

  lemma PlayCons(st: State, ch: Choice, rest: seq<Choice>)
    requires InRange(st) && Enabled(st, ch) && Step(st, ch).Fine?
    ensures Play(st, [ch] + rest) == Logged(Ran(Step(st, ch)), Play(Step(st, ch).state, rest))
  {
    assert ([ch] + rest)[1..] == rest;
  }

  /** Batch liveness over whole runs of every program, whether it obeys the rule or not: no run ever follows a
      dead bag pointer, so that the only crash is a return through a NULL `current`. */
  lemma {:induction false} RunLiveness(st: State, chs: seq<Choice>)
    requires Base(st)
    ensures Play(st, chs).Crash? ==> Play(st, chs).fault == NullCurrent
    ensures Play(st, chs).End? ==> Base(Play(st, chs).state)
    decreases |chs|
  {
    if chs != [] && Enabled(st, chs[0]) {
      BatchLiveness(st, chs[0]);
      if Step(st, chs[0]).Fine? {
        RunLiveness(Step(st, chs[0]).state, chs[1..]);
      }
    }
  }

  /** The run does not handle an event of bag a. */
  predicate Unhandled(st: State, chs: seq<Choice>, a: Addr)
    requires InRange(st)
    decreases |chs|
  {
    chs != [] && Enabled(st, chs[0]) ==>
      && !(chs[0].Dispatch? && st.pending[0].bag == a)
      && (var r := Step(st, chs[0]); r.Fine? ==> Unhandled(r.state, chs[1..], a))
  }

  lemma UnhandledCons(st: State, ch: Choice, rest: seq<Choice>, a: Addr)
    requires InRange(st) && Enabled(st, ch) && !(ch.Dispatch? && st.pending[0].bag == a)
    requires Step(st, ch).Fine? && Unhandled(Step(st, ch).state, rest, a)
    ensures Unhandled(st, [ch] + rest, a)
  {
    assert ([ch] + rest)[1..] == rest;
  }

  /** The program starts circuits only while their `current` is NULL. */
  predicate Obeys(st: State, chs: seq<Choice>)
    requires InRange(st)
    decreases |chs|
  {
    chs != [] && Enabled(st, chs[0]) ==>
      && Disciplined(st, chs[0])
      && (var r := Step(st, chs[0]); r.Fine? ==> Obeys(r.state, chs[1..]))
  }

  /** A possible run of a program that obeys the rule. */
  predicate GoodRun(st: State, chs: seq<Choice>) {
    Inv(st) && Play(st, chs) != Impossible && Obeys(st, chs)
  }

  lemma {:induction false} FirstStep(st: State, chs: seq<Choice>)
    requires GoodRun(st, chs) && chs != []
    ensures Enabled(st, chs[0]) && Disciplined(st, chs[0]) && Safe(Step(st, chs[0]))
    ensures GoodRun(Step(st, chs[0]).state, chs[1..])
    ensures Play(st, chs) == Logged(Ran(Step(st, chs[0])), Play(Step(st, chs[0]).state, chs[1..]))
  {
    StepKeeps(st, chs[0]);
  }

  /** Safety of whole runs: no fault ever, whatever the environment does, and the invariant at the end
      (hence, runs being closed under prefixes, in every state on the way). */
  lemma {:induction false} RunSafe(st: State, chs: seq<Choice>)
    requires GoodRun(st, chs)
    ensures Play(st, chs).End? && Inv(Play(st, chs).state)
    decreases |chs|
  {
    if chs != [] {
      FirstStep(st, chs);
      RunSafe(Step(st, chs[0]).state, chs[1..]);
    }
  }

  /** The state a run of a program that obeys the rule leads to. */
  ghost function RunEnd(st: State, chs: seq<Choice>): (f: State)
    requires GoodRun(st, chs)
    ensures Inv(f)
  {
    RunSafe(st, chs);
    Play(st, chs).state
  }

  /** All that the run executes, in order. */
  ghost function RunLog(st: State, chs: seq<Choice>): seq<Exec>
    requires GoodRun(st, chs)
  {
    RunSafe(st, chs);
    Play(st, chs).log
  }

  lemma {:induction false} RunHead(st: State, chs: seq<Choice>)
    requires GoodRun(st, chs) && chs != []
    ensures Enabled(st, chs[0]) && Disciplined(st, chs[0]) && Safe(Step(st, chs[0]))
    ensures GoodRun(Step(st, chs[0]).state, chs[1..])
    ensures RunEnd(st, chs) == RunEnd(Step(st, chs[0]).state, chs[1..])
    ensures RunLog(st, chs) == Ran(Step(st, chs[0])) + RunLog(Step(st, chs[0]).state, chs[1..])
  {
    FirstStep(st, chs);
    RunSafe(st, chs);
    RunSafe(Step(st, chs[0]).state, chs[1..]);
  }

  lemma {:induction false} RunCons(st: State, ch: Choice, rest: seq<Choice>)
    requires Inv(st) && Enabled(st, ch) && Disciplined(st, ch)
    requires Safe(Step(st, ch)) && GoodRun(Step(st, ch).state, rest)
    ensures GoodRun(st, [ch] + rest) && RunEnd(st, [ch] + rest) == RunEnd(Step(st, ch).state, rest)
    ensures RunLog(st, [ch] + rest) == Ran(Step(st, ch)) + RunLog(Step(st, ch).state, rest)
  {
    RunSafe(Step(st, ch).state, rest);
    PlayCons(st, ch, rest);
    assert ([ch] + rest)[1..] == rest;
  }
}
