/** Timer tasks (meloop/timer.c) over a kernel timer that counts expirations until they are read. */
module Timers {
  import opened CTypes
  import opened Options

  const NS: int := 1_000_000_000
  const IDLE: int := 0
  const WAITING: int := 1

  /** Division of C: the quotient is rounded toward zero. */
  function Quotient(a: int, b: int): int
    requires b > 0
  {
    if a >= 0 then a / b else -((-a) / b)
  }

  /** The % of C: the remainder has the sign of the dividend. */
  function Remainder(a: int, b: int): int
    requires b > 0
  {
    a - Quotient(a, b) * b
  }

  /** The interval split into seconds and nanoseconds loses nothing, and is one that the kernel takes
      exactly when the interval is not negative. */
  lemma IntervalSplit(interval: int)
    ensures var sec, nsec := Quotient(interval, NS), Remainder(interval, NS);
            && sec * NS + nsec == interval
            && -NS < nsec < NS
            && (0 <= interval <==> 0 <= sec && 0 <= nsec)
  {
    if interval < 0 {
      var q, r := (-interval) / NS, (-interval) % NS;
      assert -interval == q * NS + r;
    }
  }

  /** What read(2) on the timer answers: the expirations since the last read, EAGAIN if none, or an error. */
  datatype TickAnswer = Ticks(res: nat) | TickAgain | TickEof | TickBroken

  class TimerS {
    var fd: int
    var status: int

    constructor ()
      ensures fd == -1 && status == IDLE
    {
      fd, status := -1, IDLE;
    }

    /** Create a timer and start it with the interval; the kernel answers newFd and accepted. `closed` tells
        whether the new descriptor was closed again; the record keeps its number all the same. */
    method TimerOpenA(interval: int, newFd: int, accepted: bool)
      returns (call: Call, sec: int, nsec: int, closed: bool)
      modifies this
      ensures sec * 1_000_000_000 + nsec == interval
      ensures 0 <= interval <==> 0 <= sec && 0 <= nsec < 1_000_000_000
      ensures call == if newFd >= 0 && accepted then Returned else Errored
      ensures closed <==> newFd >= 0 && !accepted
      ensures newFd < 0 ==> fd == old(fd)
      ensures newFd >= 0 ==> fd == newFd
      ensures call == Returned ==> status == IDLE
      ensures call != Returned ==> status == old(status)
    {
      IntervalSplit(interval);
      sec := Quotient(interval, NS);
      nsec := Remainder(interval, NS);
      if newFd < 0 {
        return Errored, sec, nsec, false;
      }
      fd := newFd;
      if !accepted {
        return Errored, sec, nsec, true;
      }
      status := IDLE;
      return Returned, sec, nsec, false;
    }

    /** The first time, wait; after that, read the expirations and return once for them. */
    method TimerSleepA(answer: TickAnswer, armed: bool) returns (call: Call)
      modifies this`status
      ensures status == if old(status) == IDLE then WAITING else old(status)
      ensures call == Returned <==> old(status) != IDLE && answer.Ticks?
      ensures call == Waited <==> armed && (old(status) == IDLE || answer == TickAgain)
      ensures call == Errored <==>
                if old(status) == IDLE then !armed
                else answer == TickEof || answer == TickBroken || (answer == TickAgain && !armed)
      ensures (call, status) == Sleeping(old(status), answer, armed)
    {
      if status == IDLE {
        call := if armed then Waited else Errored;
        status := WAITING;
        return;
      }
      match answer
      case TickEof => return Errored;
      case TickAgain => return if armed then Waited else Errored;
      case TickBroken => return Errored;
      case Ticks(_) => return Returned;
    }
  }

  /** timersleepA: the call and the new status. */
  function Sleeping(status: int, answer: TickAnswer, armed: bool): (Call, int) {
    if status == IDLE then (if armed then Waited else Errored, WAITING)
    else
      (match answer
       case Ticks(_) => Returned
       case TickAgain => if armed then Waited else Errored
       case TickEof => Errored
       case TickBroken => Errored,
       status)
  }

  // ---------- runs ----------

  /** A timer since it was opened: what the kernel counts, and the history of what was read, of how often the
      task returned, and of its first call. */
  datatype Timer = Timer(status: int, pending: nat, expired: nat, got: nat, returned: nat, first: Option<Call>)

  datatype Tick = Expire | Sleep(answer: TickAnswer, armed: bool)

  /** timeropenA has returned, and timersleepA has not run yet. */
  predicate JustOpened(t: Timer) {
    t.status == IDLE && t.pending == t.expired && t.got == 0 && t.returned == 0 && t.first.None?
  }

  /** A read answers all pending expirations, and EAGAIN only when there are none. */
  predicate CanTick(t: Timer, x: Tick) {
    match x
    case Expire => true
    case Sleep(Ticks(res), _) => t.status != IDLE ==> res == t.pending > 0
    case Sleep(TickAgain, _) => t.status != IDLE ==> t.pending == 0
    case Sleep(_, _) => true
  }

  function TickStep(t: Timer, x: Tick): Timer {
    match x
    case Expire => t.(pending := t.pending + 1, expired := t.expired + 1)
    case Sleep(answer, armed) =>
      var (call, status) := Sleeping(t.status, answer, armed);
      var t' := t.(status := status,
                   returned := if call == Returned then t.returned + 1 else t.returned,
                   first := if t.first.None? then Some(call) else t.first);
      if t.status != IDLE && answer.Ticks? then t'.(pending := 0, got := t.got + answer.res) else t'
  }

  predicate TickRun(t: Timer, xs: seq<Tick>)
    decreases |xs|
  {
    xs == [] || (CanTick(t, xs[0]) && TickRun(TickStep(t, xs[0]), xs[1..]))
  }

  function TickEnd(t: Timer, xs: seq<Tick>): Timer
    decreases |xs|
  {
    if xs == [] then t else TickEnd(TickStep(t, xs[0]), xs[1..])
  }

  /** The read succeeds. The very first call only waits, and reads nothing. */
  predicate Reads(t: Timer, x: Tick) {
    t.status != IDLE && x.Sleep? && x.answer.Ticks?
  }

  /** How many reads succeed in a run. */
  function ReadsIn(t: Timer, xs: seq<Tick>): nat
    decreases |xs|
  {
    if xs == [] then 0 else (if Reads(t, xs[0]) then 1 else 0) + ReadsIn(TickStep(t, xs[0]), xs[1..])
  }

  /** The task returns once for every successful read, and for nothing else. */
  lemma {:induction false} ReturnsPerRead(t: Timer, xs: seq<Tick>)
    ensures TickEnd(t, xs).returned == t.returned + ReadsIn(t, xs)
    decreases |xs|
  {
    if xs != [] {
      ReturnsPerRead(TickStep(t, xs[0]), xs[1..]);
    }
  }

  predicate TimerInv(t: Timer) {
    && t.expired == t.got + t.pending
    && t.returned <= t.got
    && (t.status == IDLE <==> t.first.None?)
    && (t.status == IDLE ==> t.returned == 0)
    && t.first != Some(Returned)
  }

  lemma TickKeeps(t: Timer, x: Tick)
    requires TimerInv(t) && CanTick(t, x)
    ensures TimerInv(TickStep(t, x))
  {
  }

  lemma {:induction false} TickRunKeeps(t: Timer, xs: seq<Tick>)
    requires TimerInv(t) && TickRun(t, xs)
    ensures TimerInv(TickEnd(t, xs))
    decreases |xs|
  {
    if xs != [] {
      TickKeeps(t, xs[0]);
      TickRunKeeps(TickStep(t, xs[0]), xs[1..]);
    }
  }

  /** Over every run of a timer: the expirations read and the pending ones add up to all expirations; the
      sleep task has returned once per successful read, so at most once per expiration read; and its first
      call is no return: it waits, or fails to arm. */
  lemma {:induction false} TimerConservation(start: Timer, xs: seq<Tick>)
    requires JustOpened(start) && TickRun(start, xs)
    ensures var t := TickEnd(start, xs);
            && t.got + t.pending == t.expired
            && t.returned == ReadsIn(start, xs) <= t.got
            && (t.returned > 0 ==> t.first.Some? && t.first != Some(Returned))
  {
    TickRunKeeps(start, xs);
    ReturnsPerRead(start, xs);
  }
}
