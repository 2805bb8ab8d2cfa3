/** Reading and writing tasks (meloop/io.c), and the stream that a read-write loop of them carries. */
module FileIo {
  import opened CTypes
  import opened Options
  import opened Rings
  import opened Machine
  import opened Runs
  import opened Refinement

  // ---------- the system calls ----------

  /** What read(2) answers; no bytes mean the end of the file. */
  datatype ReadAnswer = Bytes(bytes: seq<Byte>) | ReadAgain | ReadBroken

  /** What write(2) answers; it may accept fewer bytes than offered. */
  datatype WriteAnswer = Accepted(count: nat) | WriteAgain | WriteBroken

  /** read into a buffer */
  method Read(blob: array<Byte>, answer: ReadAnswer) returns (size: int)
    requires answer.Bytes? ==> |answer.bytes| <= blob.Length
    modifies blob
    ensures size == if answer.Bytes? then |answer.bytes| else -1
    ensures size >= 0 ==> blob[..size] == answer.bytes
    ensures forall k :: 0 <= k < blob.Length && k >= size ==> blob[k] == old(blob[k])
  {
    if !answer.Bytes? {
      return -1;
    }
    var i := 0;
    while i < |answer.bytes|
      invariant 0 <= i <= |answer.bytes|
      invariant forall k :: 0 <= k < i ==> blob[k] == answer.bytes[k]
      invariant forall k :: i <= k < blob.Length ==> blob[k] == old(blob[k])
    {
      blob[i] := answer.bytes[i];
      i := i + 1;
    }
    return |answer.bytes|;
  }

  // ---------- the tasks ----------

  class FileS {
    const blob: array<Byte>
    var size: nat

    constructor (blob: array<Byte>)
      ensures this.blob == blob && size == 0
    {
      this.blob := blob;
      size := 0;
    }

    ghost predicate Valid()
      reads this
    {
      size <= blob.Length
    }

    /** The chunk between a read and the write after it. */
    ghost function Chunk(): seq<Byte>
      requires Valid()
      reads this, blob
    {
      blob[..size]
    }

    /** Read a chunk. Nothing changes unless bytes arrive; then they are the chunk, and the task returns. No bytes
        are the end of the file, an error. `armed` tells whether waitA can arm the descriptor. */
    method ReadA(readsize: nat, answer: ReadAnswer, armed: bool) returns (call: Call)
      requires Valid() && readsize <= blob.Length && (answer.Bytes? ==> |answer.bytes| <= readsize)
      modifies this, blob
      ensures Valid()
      ensures call == Returned <==> answer.Bytes? && answer.bytes != []
      ensures call == Waited <==> answer == ReadAgain && armed
      ensures call == Errored <==> answer == Bytes([]) || answer == ReadBroken || (answer == ReadAgain && !armed)
      ensures Chunk() == if call == Returned then answer.bytes else old(Chunk())
      ensures (call, Chunk()) == Reading(old(Chunk()), answer, armed)
      ensures forall k :: 0 <= k < blob.Length && (k >= size || call != Returned) ==> blob[k] == old(blob[k])
      ensures call != Returned ==> size == old(size)
    {
      var n := Read(blob, answer);
      assert n <= 0 ==> blob[..size] == old(blob[..size]);
      // End of file
      if n == 0 {
        return Errored;
      }
      if n < 0 {
        if answer == ReadAgain {
          return if armed then Waited else Errored;
        }
        return Errored;
      }
      size := n;
      return Returned;
    }

    /** Write the chunk, once: a short write is not continued. */
    method WriteA(answer: WriteAnswer, armed: bool) returns (call: Call, sent: seq<Byte>)
      requires Valid() && (answer.Accepted? ==> answer.count <= size)
      ensures call == Returned <==> answer.Accepted?
      ensures call == Waited <==> answer == WriteAgain && armed
      ensures call == Errored <==> answer == WriteBroken || (answer == WriteAgain && !armed)
      ensures sent == if answer.Accepted? then Chunk()[..answer.count] else []
      ensures (call, sent) == Writing(Chunk(), answer, armed)
    {
      sent := [];
      if !answer.Accepted? {
        if answer == WriteAgain {
          call := if armed then Waited else Errored;
        } else {
          call := Errored;
        }
        return;
      }
      sent := blob[..answer.count];
      call := Returned;
      assert sent == Chunk()[..answer.count];
    }
  }

  /** readA on the chunk. */
  function Reading(chunk: seq<Byte>, answer: ReadAnswer, armed: bool): (Call, seq<Byte>) {
    if answer.Bytes? && answer.bytes != [] then (Returned, answer.bytes)
    else (if answer == ReadAgain && armed then Waited else Errored, chunk)
  }

  /** writeA: the call, and what has gone out. */
  function Writing(chunk: seq<Byte>, answer: WriteAnswer, armed: bool): (Call, seq<Byte>)
    requires answer.Accepted? ==> answer.count <= |chunk|
  {
    if answer.Accepted? then (Returned, chunk[..answer.count])
    else (if answer == WriteAgain && armed then Waited else Errored, [])
  }

  // ---------- the read-write loop ----------

  const READ: nat := 0
  const WRITE: nat := 1

  /** readA, then writeA, and again. */
  const ECHO: Ring := Ring(2, Some(0))

  /** The circuit on its own with its chunk, and the history: all bytes read and all bytes written; the
      chunks as they were read, and the part of each that was sent. */
  datatype Echo = Echo(solo: Solo, chunk: seq<Byte>, input: seq<Byte>, output: seq<Byte>,
                       chunks: seq<seq<Byte>>, sent: seq<seq<Byte>>)

  datatype EchoChoice = ReadGets(r: ReadAnswer, armed: bool) | WriteGets(w: WriteAnswer, armed: bool) | Wake | HangUp

  function InitEcho(s: Ptr, d: Ptr): Echo {
    Echo(SoloStep(ECHO, Idle, Go(s, d)).0, [], [], [], [], [])
  }

  /** What a task's call means to its circuit. */
  function InputFor(call: Call, s: Ptr, d: Ptr): Input {
    match call
    case Returned => Next(s, d)
    case Waited => Park(s, d)
    case Errored => Quit
  }

  predicate EchoCan(e: Echo, ch: EchoChoice) {
    && SoloOk(ECHO, e.solo)
    && match ch
       case ReadGets(_, _) => e.solo.Running? && e.solo.element == READ
       case WriteGets(w, _) =>
         e.solo.Running? && e.solo.element == WRITE && (w.Accepted? ==> w.count <= |e.chunk|)
       case Wake => e.solo.Waiting?
       case HangUp => e.solo.Waiting?
  }

  function EchoStep(e: Echo, ch: EchoChoice): (e': Echo)
    requires EchoCan(e, ch)
    ensures SoloOk(ECHO, e'.solo)
  {
    match ch
    case ReadGets(r, armed) =>
      var (call, chunk) := Reading(e.chunk, r, armed);
      var solo := SoloStep(ECHO, e.solo, InputFor(call, e.solo.state, e.solo.data)).0;
      if call != Returned then e.(solo := solo)
      else e.(solo := solo, chunk := chunk, input := e.input + chunk, chunks := e.chunks + [chunk])
    case WriteGets(w, armed) =>
      var (call, out) := Writing(e.chunk, w, armed);
      var solo := SoloStep(ECHO, e.solo, InputFor(call, e.solo.state, e.solo.data)).0;
      if call != Returned then e.(solo := solo)
      else e.(solo := solo, output := e.output + out, sent := e.sent + [out])
    case Wake => e.(solo := SoloStep(ECHO, e.solo, Resume).0)
    case HangUp => e.(solo := SoloStep(ECHO, e.solo, Abort).0)
  }

  /** A read: the chunk goes on to be written; or the element waits, where it is; or the loop is over. */
  lemma AfterRead(e: Echo, r: ReadAnswer, armed: bool)
    requires EchoCan(e, ReadGets(r, armed))
    ensures var next := EchoStep(e, ReadGets(r, armed));
            && (next.solo == Idle <==> r == Bytes([]) || r == ReadBroken || (r == ReadAgain && !armed))
            && (next.solo.Waiting? <==> r == ReadAgain && armed)
            && (next.solo.Waiting? ==> next.solo == Waiting(READ, e.solo.state, e.solo.data))
            && (next.solo.Running? ==>
                  && next.solo == Running(WRITE, e.solo.state, e.solo.data)
                  && next.chunk == r.bytes && next.input == e.input + r.bytes && next.output == e.output)
            && (!next.solo.Running? ==> (next.chunk, next.input, next.output) == (e.chunk, e.input, e.output))
  {
  }

  /** A write: what was accepted is out, and reading goes on; or the element waits, with its chunk; or the loop
      is over. */
  lemma AfterWrite(e: Echo, w: WriteAnswer, armed: bool)
    requires EchoCan(e, WriteGets(w, armed))
    ensures var next := EchoStep(e, WriteGets(w, armed));
            && (next.solo == Idle <==> w == WriteBroken || (w == WriteAgain && !armed))
            && (next.solo.Waiting? <==> w == WriteAgain && armed)
            && (next.solo.Waiting? ==> next.solo == Waiting(WRITE, e.solo.state, e.solo.data))
            && (next.solo.Running? ==>
                  && next.solo == Running(READ, e.solo.state, e.solo.data)
                  && next.output == e.output + e.chunk[..w.count] && next.input == e.input)
            && (!next.solo.Running? ==> (next.chunk, next.input, next.output) == (e.chunk, e.input, e.output))
  {
  }

  /** A wait: the event re-enters the same element with the same chunk, and a hang-up ends the loop. */
  lemma AfterWait(e: Echo)
    requires EchoCan(e, Wake)
    ensures EchoStep(e, Wake) == e.(solo := Running(e.solo.element, e.solo.state, e.solo.data))
    ensures EchoStep(e, HangUp) == e.(solo := Idle)
  {
  }

  predicate EchoRun(e: Echo, chs: seq<EchoChoice>)
    decreases |chs|
  {
    chs == [] || (EchoCan(e, chs[0]) && EchoRun(EchoStep(e, chs[0]), chs[1..]))
  }

  function EchoEnd(e: Echo, chs: seq<EchoChoice>): Echo
    requires EchoRun(e, chs)
    decreases |chs|
  {
    if chs == [] then e else EchoEnd(EchoStep(e, chs[0]), chs[1..])
  }

  /** What ends the loop: the end of the file, a broken call, a failed arming, or a hang-up. */
  predicate Ends(ch: EchoChoice) {
    || ch.HangUp?
    || (ch.ReadGets? && (ch.r == Bytes([]) || ch.r == ReadBroken || (ch.r == ReadAgain && !ch.armed)))
    || (ch.WriteGets? && (ch.w == WriteBroken || (ch.w == WriteAgain && !ch.armed)))
  }

  /** The loop is over exactly when one of these has happened, and then it was the last thing to happen. */
  lemma {:induction false} OverExactly(e: Echo, chs: seq<EchoChoice>)
    requires EchoRun(e, chs) && SoloOk(ECHO, e.solo) && e.solo != Idle
    ensures EchoEnd(e, chs).solo == Idle <==> exists i :: 0 <= i < |chs| && Ends(chs[i])
    ensures forall i :: 0 <= i < |chs| - 1 ==> !Ends(chs[i])
    decreases |chs|
  {
    if chs != [] {
      OverAfter(e, chs[0]);
      var next := EchoStep(e, chs[0]);
      if next.solo == Idle {
        assert chs[1..] == [];
      } else {
        OverExactly(next, chs[1..]);
        assert forall i :: 1 <= i < |chs| ==> chs[i] == chs[1..][i - 1];
      }
    }
  }

  lemma OverAfter(e: Echo, ch: EchoChoice)
    requires EchoCan(e, ch)
    ensures EchoStep(e, ch).solo == Idle <==> Ends(ch)
  {
  }

  /** EAGAIN loses nothing: however often a write is told to wait, the whole chunk is offered again. */
  function Retried(n: nat): seq<EchoChoice> {
    if n == 0 then [] else [WriteGets(WriteAgain, true), Wake] + Retried(n - 1)
  }

  lemma {:induction false} EagainRetries(e: Echo, n: nat)
    requires SoloOk(ECHO, e.solo) && e.solo.Running? && e.solo.element == WRITE
    ensures EchoRun(e, Retried(n)) && EchoEnd(e, Retried(n)) == e
  {
    if n > 0 {
      var again, rest := WriteGets(WriteAgain, true), Retried(n - 1);
      var waits := EchoStep(e, again);
      AfterWrite(e, WriteAgain, true);
      AfterWait(waits);
      EagainRetries(e, n - 1);
      assert EchoStep(waits, Wake) == e;
      assert Retried(n)[1..] == [Wake] + rest && ([Wake] + rest)[1..] == rest;
    }
  }

  /** The chunk that is read but not yet written. */
  function InFlight(e: Echo): seq<Byte> {
    if !e.solo.Idle? && e.solo.element == WRITE then e.chunk else []
  }

  /** Of every chunk but the one in flight a prefix was sent, in order. */
  predicate PrefixesSent(e: Echo) {
    && |e.chunks| == |e.sent| + (if !e.solo.Idle? && e.solo.element == WRITE then 1 else 0)
    && (forall i :: 0 <= i < |e.sent| ==> e.sent[i] <= e.chunks[i])
    && (!e.solo.Idle? && e.solo.element == WRITE ==> e.chunk == e.chunks[|e.chunks| - 1])
  }

  /** The write accepts all it is offered. */
  predicate FullWrite(e: Echo, ch: EchoChoice) {
    ch.WriteGets? && ch.w.Accepted? ==> ch.w.count == |e.chunk|
  }

  predicate AllFull(e: Echo, chs: seq<EchoChoice>)
    requires EchoRun(e, chs)
    decreases |chs|
  {
    chs == [] || (FullWrite(e, chs[0]) && AllFull(EchoStep(e, chs[0]), chs[1..]))
  }

  /** Whatever is short, delayed or retried: what has gone out is a prefix of each chunk read, in order,
      until the first error. */
  lemma {:induction false} PrefixLaw(e: Echo, chs: seq<EchoChoice>)
    requires EchoRun(e, chs) && PrefixesSent(e) && !EchoEnd(e, chs).solo.Idle?
    ensures PrefixesSent(EchoEnd(e, chs))
    decreases |chs|
  {
    if chs != [] {
      PrefixLaw(EchoStep(e, chs[0]), chs[1..]);
    }
  }

  lemma StepConserves(e: Echo, ch: EchoChoice)
    requires EchoCan(e, ch) && FullWrite(e, ch) && e.output + InFlight(e) == e.input
    requires !EchoStep(e, ch).solo.Idle?
    ensures EchoStep(e, ch).output + InFlight(EchoStep(e, ch)) == EchoStep(e, ch).input
  {
    var next := EchoStep(e, ch);
    if ch.WriteGets? && ch.w.Accepted? {
      assert e.chunk[..|e.chunk|] == e.chunk;
      assert next.output + InFlight(next) == next.output;
    } else if ch.ReadGets? && next.solo.Running? && next.solo.element == WRITE {
      assert e.output + InFlight(e) == e.output;
    }
  }

  /** Stream conservation: when every write accepts all it is offered, then in every state before an error
      the bytes written, followed by the chunk in flight, are the bytes read, whatever EAGAIN pattern. */
  lemma {:induction false} StreamConservation(e: Echo, chs: seq<EchoChoice>)
    requires EchoRun(e, chs) && AllFull(e, chs) && !EchoEnd(e, chs).solo.Idle?
    requires e.output + InFlight(e) == e.input
    ensures var end := EchoEnd(e, chs); end.output + InFlight(end) == end.input
    decreases |chs|
  {
    if chs != [] {
      var next := EchoStep(e, chs[0]);
      if !next.solo.Idle? {
        StepConserves(e, chs[0]);
        StreamConservation(next, chs[1..]);
      }
    }
  }

  /** Bytes of the chunk that the write did not accept. They are never offered again. */
  function LostBy(e: Echo, ch: EchoChoice): nat
    requires EchoCan(e, ch)
  {
    if ch.WriteGets? && ch.w.Accepted? then |e.chunk| - ch.w.count else 0
  }

  function Lost(e: Echo, chs: seq<EchoChoice>): nat
    requires EchoRun(e, chs)
    decreases |chs|
  {
    if chs == [] then 0 else LostBy(e, chs[0]) + Lost(EchoStep(e, chs[0]), chs[1..])
  }

  lemma {:induction false} NothingLost(e: Echo, chs: seq<EchoChoice>)
    requires EchoRun(e, chs)
    ensures Lost(e, chs) == 0 <==> AllFull(e, chs)
    decreases |chs|
  {
    if chs != [] {
      NothingLost(EchoStep(e, chs[0]), chs[1..]);
    }
  }

  /** Bytes that were read, are not in flight and have not been written. */
  function Missing(e: Echo): int {
    |e.input| - |e.output| - |InFlight(e)|
  }

  /** Loss law: before an error, exactly what the writes did not accept is missing. */
  lemma {:induction false} LossLaw(e: Echo, chs: seq<EchoChoice>)
    requires EchoRun(e, chs) && !EchoEnd(e, chs).solo.Idle?
    ensures Missing(EchoEnd(e, chs)) == Missing(e) + Lost(e, chs)
    decreases |chs|
  {
    if chs != [] {
      var next := EchoStep(e, chs[0]);
      LossLaw(next, chs[1..]);
      assert !next.solo.Idle?;
      assert Missing(next) == Missing(e) + LostBy(e, chs[0]);
    }
  }

  /** Exactly when the stream is conserved: the bytes written, followed by the chunk in flight, are the
      bytes read iff every write accepted all it was offered. */
  lemma {:induction false} ConservedIffFull(e: Echo, chs: seq<EchoChoice>)
    requires EchoRun(e, chs) && !EchoEnd(e, chs).solo.Idle?
    requires e.output + InFlight(e) == e.input
    ensures var end := EchoEnd(e, chs); end.output + InFlight(end) == end.input <==> AllFull(e, chs)
    ensures var end := EchoEnd(e, chs); |end.input| == |end.output| + |InFlight(end)| + Lost(e, chs)
  {
    LossLaw(e, chs);
    NothingLost(e, chs);
    assert |e.output + InFlight(e)| == |e.output| + |InFlight(e)|;
    if AllFull(e, chs) {
      StreamConservation(e, chs);
    }
  }

  function Concat(parts: seq<seq<Byte>>): seq<Byte> {
    if parts == [] then [] else Concat(parts[..|parts| - 1]) + parts[|parts| - 1]
  }

  lemma ConcatSnoc(parts: seq<seq<Byte>>, part: seq<Byte>)
    ensures Concat(parts + [part]) == Concat(parts) + part
  {
    assert (parts + [part])[..|parts|] == parts;
  }

  /** The chunks make up the bytes read, and the parts that were sent make up the bytes written. */
  predicate HistoryOk(e: Echo) {
    e.input == Concat(e.chunks) && e.output == Concat(e.sent)
  }

  lemma {:induction false} HistoryLaw(e: Echo, chs: seq<EchoChoice>)
    requires EchoRun(e, chs) && HistoryOk(e)
    ensures HistoryOk(EchoEnd(e, chs))
    decreases |chs|
  {
    if chs != [] {
      var next := EchoStep(e, chs[0]);
      if next.chunks != e.chunks {
        ConcatSnoc(e.chunks, next.chunk);
      }
      if next.sent != e.sent {
        ConcatSnoc(e.sent, next.sent[|e.sent|]);
      }
      HistoryLaw(next, chs[1..]);
    }
  }

  /** What holds of a run of the loop before an error: the history and the prefixes, how much is missing, and
      when nothing is. */
  predicate StreamLaws(e: Echo, chs: seq<EchoChoice>)
    requires EchoRun(e, chs)
  {
    var end := EchoEnd(e, chs);
    && HistoryOk(end) && PrefixesSent(end)
    && |end.input| == |end.output| + |InFlight(end)| + Lost(e, chs)
    && (end.output + InFlight(end) == end.input <==> AllFull(e, chs))
  }

  /** From the start of the circuit. */
  lemma {:induction false} EchoLaws(s: Ptr, d: Ptr, chs: seq<EchoChoice>)
    requires EchoRun(InitEcho(s, d), chs) && !EchoEnd(InitEcho(s, d), chs).solo.Idle?
    ensures StreamLaws(InitEcho(s, d), chs)
  {
    HistoryLaw(InitEcho(s, d), chs);
    PrefixLaw(InitEcho(s, d), chs);
    ConservedIffFull(InitEcho(s, d), chs);
  }

  /** The shortest run that loses bytes: a chunk is read, and its write is short. */
  lemma ShortWriteLoses(bytes: seq<Byte>, n: nat)
    requires n < |bytes|
    ensures var chs := [ReadGets(Bytes(bytes), true), WriteGets(Accepted(n), true)];
            && EchoRun(InitEcho(0, 0), chs)
            && EchoEnd(InitEcho(0, 0), chs).input == bytes
            && EchoEnd(InitEcho(0, 0), chs).output == bytes[..n]
            && InFlight(EchoEnd(InitEcho(0, 0), chs)) == []
  {
    var e := InitEcho(0, 0);
    var chs := [ReadGets(Bytes(bytes), true), WriteGets(Accepted(n), true)];
    var e1 := EchoStep(e, chs[0]);
    var e2 := EchoStep(e1, chs[1]);
    assert chs[1..] == [chs[1]] && chs[1..][1..] == [];
    assert EchoEnd(e1, chs[1..]) == e2;
  }

  // ---------- inside the event loop ----------

  /** What a choice means to the circuit. */
  function EchoInput(e: Echo, ch: EchoChoice): Refinement.Input
    requires EchoCan(e, ch)
  {
    match ch
    case ReadGets(r, armed) => InputFor(Reading(e.chunk, r, armed).0, e.solo.state, e.solo.data)
    case WriteGets(w, armed) => InputFor(Writing(e.chunk, w, armed).0, e.solo.state, e.solo.data)
    case Wake => Resume
    case HangUp => Abort
  }

  function EchoInputs(e: Echo, chs: seq<EchoChoice>): seq<Refinement.Input>
    requires EchoRun(e, chs)
    decreases |chs|
  {
    if chs == [] then [] else [EchoInput(e, chs[0])] + EchoInputs(EchoStep(e, chs[0]), chs[1..])
  }

  lemma {:induction false} EchoIsSolo(e: Echo, chs: seq<EchoChoice>)
    requires SoloOk(ECHO, e.solo) && EchoRun(e, chs)
    ensures Alone(ECHO, e.solo, EchoInputs(e, chs)).Course?
    ensures Alone(ECHO, e.solo, EchoInputs(e, chs)).end == EchoEnd(e, chs).solo
    decreases |chs|
  {
    if chs != [] {
      EchoIsSolo(EchoStep(e, chs[0]), chs[1..]);
      AloneCons(ECHO, e.solo, EchoInput(e, chs[0]), EchoInputs(EchoStep(e, chs[0]), chs[1..]));
    }
  }

  /** The laws hold of a read-write circuit among any other circuits of the event loop: if its tasks do what
      the choices say, the loop leaves it where its own run leaves it, and the laws hold there. */
  lemma {:induction false} EchoInTheLoop(st: State, run: seq<Choice>, c: nat, e: Echo, chs: seq<EchoChoice>)
    requires GoodRun(st, run) && c < |st.rings| && st.rings[c] == ECHO
    requires View(st, c) == e.solo && EchoRun(e, chs) && Inputs(st, run, c) == EchoInputs(e, chs)
    requires HistoryOk(e) && PrefixesSent(e) && e.output + InFlight(e) == e.input
    ensures Within(st, run, c).end == EchoEnd(e, chs).solo
    ensures !EchoEnd(e, chs).solo.Idle? ==> StreamLaws(e, chs)
  {
    Interleaving(st, run, c);
    EchoIsSolo(e, chs);
    if !EchoEnd(e, chs).solo.Idle? {
      HistoryLaw(e, chs);
      PrefixLaw(e, chs);
      ConservedIffFull(e, chs);
    }
  }
}
