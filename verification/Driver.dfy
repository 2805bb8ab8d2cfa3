/**
 What meloop_io_loop does, without its nested loops and calls: whatever is innermost goes on first.

 The environment is a script of answers, consumed one by one: what the running task does, or what
 epoll_wait reports. A script that is used up, or an answer that cannot be, stands for failure.
 */
module Driver {
  import opened CTypes
  import opened BagTable
  import opened Machine
  import opened Invariant
  import opened Runs
  import opened Refinement
  import opened Deeds
  import opened LoopExit
  import opened Overflow

  datatype Answer =
    | Does(outcome: Outcome)                         // the call the running task makes
    | Starts(circuit: nat, state: Ptr, data: Ptr)    // the running task starts an idle circuit, and goes on
    | Reports(ready: seq<Ready>)                     // epoll_wait; nothing ready is a time-out
    | StatusStops                                    // *status asks the loop to stop

  function Rest(script: seq<Answer>): (r: seq<Answer>)
    ensures |r| <= |script|
  {
    if script == [] then [] else script[1..]
  }

  /** What the running task does next. */
  function TaskChoice(st: State, script: seq<Answer>): (ch: Choice)
    requires InRange(st) && st.stack != []
    ensures Enabled(st, ch) && Disciplined(st, ch)
    ensures script == [] ==> ch == Task(Fail(Top(st).state, Top(st).data))
  {
    var fail := Task(Fail(Top(st).state, Top(st).data));
    if script == [] then fail
    else
      match script[0]
      case Does(o) => if Enabled(st, Task(o)) then Task(o) else fail
      case Starts(c, s, d) => if c < |st.rings| && st.current[c].None? then Start(c, s, d) else fail
      case _ => fail
  }

  predicate Stops(script: seq<Answer>) {
    script != [] && script[0].StatusStops?
  }

  predicate TimesOut(script: seq<Answer>) {
    script != [] && script[0] == Reports([])
  }

  /** epoll_wait reports some armed descriptors. */
  predicate Delivers(st: State, script: seq<Answer>) {
    script != [] && script[0].Reports? && Enabled(st, Poll(script[0].ready))
  }

  datatype Exit = ByStatus | NoBags | TimedOut | PollFailed

  /** Where the loop ends, which answers are left, and why; and all that it has done by then, in order. */
  datatype Driven = Driven(state: State, script: seq<Answer>, exit: Exit, log: seq<Deed>)

  /** What meloop_io_loop returns. */
  function Ret(exit: Exit): int {
    if exit == PollFailed then ERR else OK
  }

  /** The loop, from any state on and with what it has done so far: tasks in progress first, then the rest of
      the batch, then the guard and the next batch. */
  ghost function Drive(st: State, script: seq<Answer>, log: seq<Deed>): (r: Driven)
    requires Inv(st)
    ensures Inv(r.state) && r.state.stack == [] && r.state.pending == []
    ensures r.exit == ByStatus ==> Stops(r.script)
    ensures r.exit == NoBags ==> r.state.table.waiting == 0
    ensures r.exit == TimedOut || r.exit == PollFailed ==> r.state.table.waiting != 0
    decreases |script|, |st.pending|, |st.stack|
  {
    if st.stack != [] then
      var ch := TaskChoice(st, script);
      StepKeeps(st, ch);
      Drive(Step(st, ch).state, Rest(script), log + StepDeeds(st, ch))
    else if st.pending != [] then
      StepKeeps(st, Dispatch);
      Drive(Step(st, Dispatch).state, script, log + StepDeeds(st, Dispatch))
    else if Stops(script) then
      Driven(st, script, ByStatus, log)
    else if st.table.waiting == 0 then
      Driven(st, script, NoBags, log)
    else if Delivers(st, script) then
      StepKeeps(st, Poll(script[0].ready));
      Drive(TakeBatch(st, script[0].ready), Rest(script), log)
    else
      Driven(st, Rest(script), if TimesOut(script) then TimedOut else PollFailed, log)
  }

  /** What the loop answers between rounds: 0 when *status asks to stop, when no bag is remembered and when
      epoll_wait times out; -1 when epoll_wait fails. In each case it leaves everything as it is. */
  lemma AnswerBetweenRounds(st: State, script: seq<Answer>, log: seq<Deed>)
    requires Inv(st) && st.stack == [] && st.pending == []
    ensures var d := Drive(st, script, log);
            && (script != [] && script[0] == StatusStops ==>
                  Ret(d.exit) == 0 && (d.state, d.script, d.log) == (st, script, log))
            && (st.table.waiting == 0 ==> Ret(d.exit) == 0 && (d.state, d.script, d.log) == (st, script, log))
            && (st.table.waiting != 0 && script != [] && script[0] == Reports([]) ==>
                  Ret(d.exit) == 0 && (d.state, d.script, d.log) == (st, script[1..], log))
            && (st.table.waiting != 0 && script == [] ==>
                  Ret(d.exit) == -1 && (d.state, d.script, d.log) == (st, [], log))
            && (st.table.waiting != 0 && script != [] && script[0] != StatusStops && script[0] != Reports([]) &&
                !(script[0].Reports? && Enabled(st, Poll(script[0].ready))) ==>
                  Ret(d.exit) == -1 && (d.state, d.script, d.log) == (st, script[1..], log))
  {
  }

  /** The run ends in `end`, and what it does takes the log from `log` to `all`. */
  ghost predicate DoneBy(st: State, chs: seq<Choice>, end: State, log: seq<Deed>, all: seq<Deed>) {
    GoodRun(st, chs) && RunEnd(st, chs) == end && all == log + RunDeeds(st, chs)
  }

  lemma DoneByCons(st: State, ch: Choice, rest: seq<Choice>, end: State, log: seq<Deed>, all: seq<Deed>)
    requires Inv(st) && Enabled(st, ch) && Disciplined(st, ch) && Safe(Step(st, ch))
    requires DoneBy(Step(st, ch).state, rest, end, log + StepDeeds(st, ch), all)
    ensures DoneBy(st, [ch] + rest, end, log, all)
  {
    RunCons(st, ch, rest);
    DeedsCons(st, ch, rest);
    hide Machine.Step, Machine.Base, Machine.Owned, Machine.Enabled, Deeds.StepDeeds;
    Regroup(log, StepDeeds(st, ch), RunDeeds(Step(st, ch).state, rest));
  }

  lemma DoneByNothing(st: State, log: seq<Deed>)
    requires Inv(st)
    ensures DoneBy(st, [], st, log, log)
  {
    assert log + [] == log;
  }

  lemma PollDoesNothing(st: State, ch: Choice, log: seq<Deed>)
    requires InRange(st) && Enabled(st, ch) && ch.Poll?
    ensures log + StepDeeds(st, ch) == log
  {
  }

  /** Whatever the environment answers, the loop's doing is a run of a program that obeys the rule, deed by
      deed: no fault, and everything proved of such runs holds of it. */
  lemma {:induction false} DriveRuns(st: State, script: seq<Answer>, log: seq<Deed>) returns (chs: seq<Choice>)
    requires Inv(st)
    ensures DoneBy(st, chs, Drive(st, script, log).state, log, Drive(st, script, log).log)
    decreases |script|, |st.pending|, |st.stack|
  {
    var d := Drive(st, script, log);
    hide Machine.KernelOk, Machine.Owned, BagTable.TableOk, Deeds.StepDeeds;
    if st.stack != [] {
      var ch := TaskChoice(st, script);
      StepKeeps(st, ch);
      chs := DriveRuns(Step(st, ch).state, Rest(script), log + StepDeeds(st, ch));
      DoneByCons(st, ch, chs, d.state, log, d.log);
      chs := [ch] + chs;
    } else if st.pending != [] {
      StepKeeps(st, Dispatch);
      chs := DriveRuns(Step(st, Dispatch).state, script, log + StepDeeds(st, Dispatch));
      DoneByCons(st, Dispatch, chs, d.state, log, d.log);
      chs := [Dispatch] + chs;
    } else if !(Stops(script) || st.table.waiting == 0) && Delivers(st, script) {
      var poll := Poll(script[0].ready);
      StepKeeps(st, poll);
      PollDoesNothing(st, poll, log);
      chs := DriveRuns(Step(st, poll).state, Rest(script), log);
      DoneByCons(st, poll, chs, d.state, log, d.log);
      chs := [poll] + chs;
    } else {
      DoneByNothing(st, log);
      chs := [];
    }
  }

  /** The loop, started in st with nothing done yet, does what this run does: it gets to the same state, having
      called the same tasks, closed the same descriptors and failed the same circuits, with the same arguments
      in the same order. */
  ghost predicate IsRunOf(st: State, script: seq<Answer>, chs: seq<Choice>)
    requires Inv(st)
  {
    && GoodRun(st, chs)
    && RunEnd(st, chs) == Drive(st, script, []).state
    && RunDeeds(st, chs) == Drive(st, script, []).log
  }

  /** Every whole run of the event loop is a run of the machine. */
  lemma {:induction false} LoopIsRun(st: State, script: seq<Answer>)
    requires Inv(st)
    ensures exists chs :: IsRunOf(st, script, chs)
  {
    var chs := DriveRuns(st, script, []);
    assert IsRunOf(st, script, chs);
  }

  /** Circuits are started from within tasks only. */
  predicate Nested(st: State, chs: seq<Choice>)
    requires InRange(st)
    decreases |chs|
  {
    chs != [] && Enabled(st, chs[0]) ==>
      && (chs[0].Start? ==> st.stack != [])
      && (var r := Step(st, chs[0]); r.Fine? ==> Nested(r.state, chs[1..]))
  }

  /** The answer that asks the loop for this choice. Handling an event takes none. */
  function AnswerFor(ch: Choice): seq<Answer> {
    match ch
    case Start(c, s, d) => [Starts(c, s, d)]
    case Task(o) => [Does(o)]
    case Poll(ready) => [Reports(ready)]
    case Dispatch => []
  }

  function AnswersFor(chs: seq<Choice>): seq<Answer> {
    if chs == [] then [] else AnswerFor(chs[0]) + AnswersFor(chs[1..])
  }

  /** Conversely the loop does every run: given the answers for it, and then asked by *status to stop, it does
      exactly that run, and ends where the run ends. */
  lemma {:induction false} EveryRunIsDriven(st: State, chs: seq<Choice>, log: seq<Deed>)
    requires GoodRun(st, chs) && Nested(st, chs) && BetweenRounds(RunEnd(st, chs))
    ensures Drive(st, AnswersFor(chs) + [StatusStops], log) ==
            Driven(RunEnd(st, chs), [StatusStops], ByStatus, log + RunDeeds(st, chs))
    decreases |chs|
  {
    if chs == [] {
      assert AnswersFor(chs) + [StatusStops] == [StatusStops] && log + RunDeeds(st, chs) == log;
    } else {
      RunHead(st, chs);
      var next, left := Step(st, chs[0]).state, AnswersFor(chs[1..]) + [StatusStops];
      EveryRunIsDriven(next, chs[1..], log + StepDeeds(st, chs[0]));
      DriveDoes(st, chs[0], left, log);
      Regroup(AnswerFor(chs[0]), AnswersFor(chs[1..]), [StatusStops]);
      hide Drive, Machine.Step, Machine.Base, Machine.Owned, Deeds.StepDeeds;
      Regroup(log, StepDeeds(st, chs[0]), RunDeeds(next, chs[1..]));
    }
  }

  lemma DriveDoes(st: State, ch: Choice, left: seq<Answer>, log: seq<Deed>)
    requires Inv(st) && Enabled(st, ch) && Disciplined(st, ch) && Safe(Step(st, ch))
    requires ch.Start? ==> st.stack != []
    ensures Drive(st, AnswerFor(ch) + left, log) == Drive(Step(st, ch).state, left, log + StepDeeds(st, ch))
  {
    if ch.Dispatch? {
      assert AnswerFor(ch) + left == left;
    } else {
      var script := AnswerFor(ch) + left;
      assert AnswerFor(ch) == [script[0]];
      assert script == [script[0]] + left && Rest(script) == left;
      if ch.Poll? {
        assert log + StepDeeds(st, ch) == log;
      } else {
        assert TaskChoice(st, script) == ch;
      }
    }
  }

  /** Interleaving refinement of the event loop itself: what the loop executes of a circuit is what the circuit
      executes alone, and the loop leaves it where it ends alone. */
  lemma {:induction false} LoopRefines(st: State, script: seq<Answer>, chs: seq<Choice>, c: nat)
    requires Inv(st) && IsRunOf(st, script, chs) && c < |st.rings|
    ensures var alone, d := Alone(st.rings[c], View(st, c), Inputs(st, chs, c)), Drive(st, script, []);
            && alone.Course? && c < |d.state.rings|
            && OnlyOf(EntriesIn(d.log), c) == Executed(alone.log, c)
            && View(d.state, c) == alone.end
            && FailuresIn(d.log, c) == Endings(Inputs(st, chs, c))
  {
    Interleaving(st, chs, c);
    WithinEnd(st, chs, c);
    WithinLog(st, chs, c);
    DeedsLog(st, chs);
    FailsAsAlone(st, chs, c);
  }

  ghost predicate ClosesHungUp(st: State, chs: seq<Choice>)
    requires GoodRun(st, chs)
  {
    ClosedIn(RunDeeds(st, chs)) == HungUp(st, chs)
  }

  /** Some run gets from st to `end` with these deeds, and the descriptors closed are the ones that hung up. */
  ghost predicate IsLoopRun(st: State, end: State, log: seq<Deed>, all: seq<Deed>) {
    exists chs :: DoneBy(st, chs, end, log, all) && ClosesHungUp(st, chs)
  }

  lemma {:induction false} DriveCloses(st: State, script: seq<Answer>, log: seq<Deed>)
    requires Inv(st)
    ensures IsLoopRun(st, Drive(st, script, log).state, log, Drive(st, script, log).log)
  {
    var chs := DriveRuns(st, script, log);
    ClosesHangUps(st, chs);
    assert ClosesHungUp(st, chs);
  }

  /** The loop closes exactly the descriptors whose hang-ups it handles, in that order. */
  lemma {:induction false} LoopCloses(st: State, script: seq<Answer>, chs: seq<Choice>)
    requires Inv(st) && IsRunOf(st, script, chs)
    ensures ClosedIn(Drive(st, script, []).log) == HungUp(st, chs)
  {
    ClosesHangUps(st, chs);
  }

  /** When the loop ends because no bag is remembered, and its doing waited exclusively, no circuit waits. */
  lemma {:induction false} NobodyWaitsAfter(st: State, script: seq<Answer>, chs: seq<Choice>)
    requires GoodRun(st, chs) && RunEnd(st, chs) == Drive(st, script, []).state
    requires Bijective(st) && AllExclusive(st, chs) && Drive(st, script, []).exit == NoBags
    ensures var end := Drive(st, script, []).state;
            end.table.armed == map[] && forall c :: 0 <= c < |end.rings| ==> end.current[c].None?
  {
    RunBijective(st, chs);
    GuardMeaning(Drive(st, script, []).state);
  }

  /** At most 16 circuits need no exclusiveness: whatever arming fails and whoever shares descriptors, when
      the loop ends because no bag is remembered, no circuit waits. */
  lemma {:induction false} FewCircuitsNoneWaits(st: State, script: seq<Answer>)
    requires Inv(st) && |st.rings| <= 16 && Unremembered(st.table) == {}
    requires Drive(st, script, []).exit == NoBags
    ensures var end := Drive(st, script, []).state; forall c :: 0 <= c < |end.rings| ==> end.current[c].None?
  {
    var chs := DriveRuns(st, script, []);
    RunSafe(st, chs);
    NeverFull(st, chs);
    UnrememberedAreDropped(st, chs);
    var end := Drive(st, script, []).state;
    forall c | 0 <= c < |end.rings| ensures end.current[c].None? {
      ZeroCounterWaiters(end, c);
    }
  }
}
