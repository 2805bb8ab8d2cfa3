# meloop, verified

meloop is a monadic event loop: a *circuit* is a chain of elements, each with a task; a task hands on with
`returnA`, gives up with `errorA`, or parks its circuit with `waitA` until a file descriptor is ready; the event
loop then resumes the circuit. This project models the three layers on which that rests and proves what holds
of them for all circuits, all programs and everything the kernel may answer.

**Circuits in memory** (`Rings`, `Shapes`, `Elements`, `InnerBind`, `Circuits`). Elements are objects whose `next` and `last`
fields `bindA`, `loopA`, `appendA` and `freeC` change in place. A *shape* (elements in order, and where the final
one leads) says what linked elements amount to: an open chain, a full cycle, or a lasso (a tail into a cycle).
The walking loops are verified as loops; when they end is stated by following `next` through memory, and proved
exactly, also for memory with no invariant at all. `freeE` stops at flags, so what it frees is computed from the
flags, and proved complete exactly for well-formed flags.

**The interpreter and the event loop** (`BagTable`, `Machine`, `Invariant`, `Runs`, `Refinement`, `Retries`,
`Deeds`, `Resumption`, `Guard`, `Accounting`, `LoopExit`, `Overflow`). A small-step machine over values: `current` of each
circuit, the malloc heap of bags with addresses that malloc may reuse, the 16 slots and their counter, the armed descriptors,
the rest of the current batch, and the tasks in progress (a task may start other circuits). What the source
cannot decide is a choice of the environment. Dereferencing a dead bag or a NULL `current` is a fault of a step,
so its absence is a theorem.

**The code** (`Driver`, `IoLoop`, and the classes of the modules above). The nested loops and mutually recursive
calls of `meloop_io_loop`, `runA`, `returnA`, `errorA` and `waitA` are methods on circuits, an array of slots and a
counter. They are proved against `Drive`, a flat description of the loop that also logs the tasks called, the
descriptors closed and the circuits failed; its log and its end are proved to be those of a run of the machine, and
every run of the machine to be one that the loop does. What the loop answers, closes and calls back is stated in terms
of memory, the kernel's answers and the calls of `epoll_wait` as well.

**Tasks** (`FileIo`, `Timers`, `Randoms`): `readA` and `writeA` and the stream that a loop of them carries, the timer's
expirations, and the in-place encoding of random bytes.

The main results, which the table below marks with **Main**, are these. Each circuit runs in the event loop exactly
as it would alone, in the order of its ring, and an armed wait resumes the very element with its very arguments;
what is reported with a hang-up or error flag fails instead, with these arguments, and is closed.
The one rule a program must obey is checkable at the call: start a circuit only while its `current` is NULL. What
each half of the rule is worth is exact: starting a running circuit can crash the program, starting a waiting one
cannot; starting a waiting one can misdirect its wait iff it has two or more elements. Memory safety of batches
needs no rule at all. The walks of `bindA` and `loopA` end on exactly the stated memory, freeing is complete for exactly
the stated flags, and a read-write loop conserves its stream iff no write is short. The loop's guard can abandon a
waiting circuit iff there are more circuits than table slots.

## Findings

- `current` belongs to the circuit, not to an activation. A start of a circuit with a task in progress can end in a
  NULL dereference, and no other start can (`Guard.StartFaultsExactly`). A start of a waiting circuit can make the
  earlier wait resume at the wrong element iff the circuit has two or more (`Guard.RestartMisresumesExactly`); without a
  forbidden start none ever does (`Guard.GoodRunsResume`).
  `examples/echoserver.c:87` starts its worker once per client.
- `appendA` on a lasso and `loopA` on the tail of a lasso never return. `bindA` returns iff the first circuit is open,
  or it is a full cycle and the second is no lasso or shares elements with it; in the last case all it achieves is to
  clear a flag (`Elements.BindEndsExactly`, `Elements.BindA`, `Elements.LoopEndsExactly`, `Shapes.BuildMeaning`).
- The comment on `loopA` promises 1 for a closed circuit; the code returns -1. It also calls `loopA` sugar for
  `bindA(last, first)`: that links the same way, but clears the flag disposal depends on (`Elements.CloseByBind`).
- `bindA` on inner elements can leave a circuit that `freeC` leaks. It leaves a well-formed one iff the first element is
  on an open circuit or is the element its cycle is entered at, and the second one is on an open circuit or not behind
  the entry of its cycle. Otherwise `freeC` stops at the final element of the second circuit
  (`InnerBind.BindAt`, `InnerBind.DisposalAfter`). The smallest leaks have element 1 of a two-element cycle as the
  first argument, or as the second one (`InnerBind.InnerElementsLeak`).
- When arming fails, `waitA` leaves its bag remembered, and the loop's guard stays true for ever
  (`Accounting.ArmingFailureStrands`, `Accounting.StrandedForever`).
- A bag that did not fit the table is never freed (`Accounting.DroppedForever`), nor is it counted, so that the loop
  can return while a circuit waits with it: 17 circuits wait, and 16 of them hang up (`Overflow.LeavesWhileWaiting`).
  This needs more than 16 circuits (`Overflow.ExitSafeExactly`), and those left behind are exactly the circuits whose
  last wait found the table full (`Overflow.LeftBehind`).
- `meloop_bags_freeall` leaves the counter as it was (`BagTable.Ev.BagsFreeAll`).
- A short write loses the rest of its chunk: what is missing from the output is the sum of what the writes did not
  accept, so that the stream is conserved iff every write was full (`FileIo.ConservedIffFull`; the shortest lossy run
  is `FileIo.ShortWriteLoses`).

## Model

| member | source | states |
|---|---|---|
| Rings.VisitClosedForm | meloop/arrow.c:219-230 | **Main.** the k-th element run is s[k] for k < n, then s[p + (k-p) mod (n-p)]; an open circuit ends after n |
| Rings.ExecutionsClosedForm | meloop/arrow.c:219-230 | **Main.** exact number of executions of each element among the first k |
| Rings.FairCycle | meloop/arrow.c:219-230 | on a cycle, execution counts never differ by more than one |
| Shapes.BindProper | meloop/arrow.c:123-139 | the four diagrams of bindA on disjoint circuits, and exactly when it has a result |
| Shapes.BindAssociative | meloop/arrow.c:140-176 | **Main.** both groupings of three circuits give the same elements, entry and flags where both end |
| Shapes.BindGroupingsAgree | meloop/arrow.c:140-176 | **Main.** exactly which mixes of open, cyclic and lasso operands make the groupings differ |
| Shapes.BuildMeaning | meloop/arrow.c:69-91 | **Main.** any sequence of appendA and loopA calls ends iff each call meets a stated condition on the earlier calls, and then holds the appends in order, closed where the first loopA closed it |
| Shapes.AppendLoopCommute | meloop/arrow.c:197-216 | wherever loopA on the head occurs among the appends, the same cycle results |
| Shapes.BuildProper | meloop/arrow.c:69-91 | every construction that ends yields distinct elements and a valid entry |
| Elements.Element.constructor | meloop/arrow.c:70-81 | a new element is a one-element open circuit |
| Elements.WalkIsVisit | meloop/arrow.c:145-175 | following next pointers through memory visits the elements in ring order |
| Elements.ExitTests | meloop/arrow.c:147-171 | the NULL test is met iff the circuit is open, the back-to-start test iff it is a full cycle |
| Elements.OrbitExists | meloop/arrow.c:145-175 | the elements reachable in any finite memory form a chain, a cycle or a lasso |
| Elements.WalkEndsExactly | meloop/arrow.c:145-175 | **Main.** in any finite memory a walking loop ends iff it did not start on the tail of a lasso |
| Elements.LinkedFrom | meloop/arrow.c:197-216 | a circuit seen from an inner element is again a linked circuit, with the stated entry |
| Elements.BindEndsExactly | meloop/arrow.c:145-175 | **Main.** bindA ends iff e1 is open, or e1 is a full cycle and e2 is no proper lasso or shares an element with it; for disjoint operands that is where the bound circuit is defined |
| Elements.SharedToFinal | meloop/arrow.c:156-171 | circuits that share an element of a full cycle share its final element, where the second walk of bindA stops |
| Elements.CloseOnto | meloop/arrow.c:159-171 | the second walk makes the first element that leads nowhere, or back to e2, lead to e1 |
| Elements.BoundLinks | meloop/arrow.c:148-164 | the pointers bindA leaves behind realise the bound circuit |
| Elements.BoundFlags | meloop/arrow.c:150-158 | the flags bindA leaves behind mark exactly the final element |
| Elements.Rewire | meloop/arrow.c:140-176 | the nested walks write the final next of e1, its flag, and for a closed e1 the next of the element where the second walk stops, and nothing else, also when the operands share elements |
| Elements.BindA | meloop/arrow.c:140-176 | **Main.** on disjoint circuits the result is the bound circuit, well-formed if both were; a closed e1 that shares elements with e2 keeps all its links and loses its flag |
| Elements.BindHeads | meloop/arrow.c:140-176 | bindA on the heads of two disjoint well-formed circuits yields the bound well-formed circuit |
| Elements.CloseByBind | meloop/arrow.c:182-183 | bindA(last, first) closes the links but leaves no flag |
| Elements.LoopEndsExactly | meloop/arrow.c:201-215 | **Main.** loopA on element i closes iff open, refuses iff i is on the cycle, never returns iff i is on a lasso's tail |
| Elements.LoopA | meloop/arrow.c:197-216 | **Main.** OK and a lasso entered at i for an open circuit; ERR and nothing changed on a cycle |
| Elements.DisposalExact | meloop/arrow.c:94-110 | **Main.** freeE frees everything and reads nothing freed iff only the final element may be flagged, and is when closed |
| Elements.FreeE | meloop/arrow.c:94-110 | **Main.** frees, once each, exactly the elements up to the first flag |
| InnerBind.BindAt | meloop/arrow.c:140-176 | **Main.** bindA on any element of each of two disjoint well-formed circuits: links and flags of the result, which is well-formed iff the first element is no inner element of a cycle and the second is not behind the entry of one |
| InnerBind.DisposalAfter | meloop/arrow.c:94-110 | **Main.** disposal of the result stops behind the final element of the second circuit, and is complete iff the two elements were chosen so |
| InnerBind.InnerElementsLeak | meloop/arrow.c:94-110 | two smallest inputs for which an element is leaked |
| InnerBind.FreeWhole | meloop/arrow.c:94-121 | freeing the result frees exactly those elements |
| InnerBind.WholeProper | meloop/arrow.c:140-176 | the circuit bound at inner elements has distinct elements and a valid entry |
| Circuits.CircuitS.constructor | meloop/arrow.c:44-55 | a new circuit is empty and idle |
| Circuits.CircuitS.AppendA | meloop/arrow.c:69-91 | one construction step in memory, keeping the circuit well-formed |
| Circuits.CircuitS.CloseAt | meloop/arrow.c:197-216 | one loopA step in memory, keeping the circuit well-formed |
| Circuits.CircuitS.Enter | meloop/arrow.c:258-264 | goes on at current, or at the head when current is NULL |
| Circuits.CircuitS.Advance | meloop/arrow.c:219-230 | current moves to the next element of the ring, or becomes NULL at an open end |
| Circuits.CircuitS.Stop | meloop/arrow.c:251-254 | the callback is called if set, and current becomes NULL |
| Circuits.BindC | meloop/arrow.c:140-176 | binding one circuit behind another keeps the first a valid circuit of both |
| Circuits.FreeC | meloop/arrow.c:113-121 | every element of a circuit of any shape is freed exactly once |
| BagTable.UsedIsCardinality | meloop/ev.c:22-35 | the number of used slots is the number of distinct bags in them |
| BagTable.WaitingCountsRemembered | meloop/ev.c:144-147 | the counter is the number of remembered bags |
| BagTable.RememberFailsWhenFull | meloop/ev.c:34 | bags_remember fails iff the counter is 16 |
| BagTable.NewBagKeeps | meloop/ev.c:72-86 | counter agreement is kept; the bag is live, and remembered unless the table was full |
| BagTable.FreeBagKeeps | meloop/ev.c:38-50 | counter agreement is kept; exactly a remembered bag is freed and forgotten |
| BagTable.Ev.constructor | meloop/ev.c:100-101 | the table starts empty |
| BagTable.Ev.BagsRemember | meloop/ev.c:22-35 | the loop takes the first free slot, or answers ERR |
| BagTable.Ev.BagFree | meloop/ev.c:38-50 | the loop frees the bag of the first matching slot, or does nothing |
| BagTable.Ev.BagsFreeAll | meloop/ev.c:53-69 | all remembered bags freed; the counter agrees afterwards only if it was 0 |
| BagTable.Ev.BagNew | meloop/ev.c:72-86 | a filled-in bag, remembered if there is room |
| BagTable.Ev.Arm | meloop/ev.c:111-132 | modify, or add on ENOENT; the descriptor then reports this bag only |
| BagTable.Ev.Dearm | meloop/ev.c:135-141 | the descriptor reports no bag |
| Machine.BootInv | meloop/ev.c:100-101 | the invariant holds at the start |
| Invariant.BatchLiveness | meloop/io.c:108-130 | **Main.** in every program every ev.data.ptr is live and of one arming only; the only possible fault is a return through a NULL current |
| Invariant.StepKeeps | meloop/io.c:94-131 | **Main.** every step of a program that obeys the rule is free of faults and keeps the invariant |
| Runs.RunSafe | meloop/io.c:94-131 | **Main.** the same over whole runs |
| Runs.RunLiveness | meloop/io.c:108-130 | **Main.** no run of any program, obeying the rule or not, follows a dead bag pointer; the only crash is a return through a NULL current |
| Deeds.DeedsLog | meloop/arrow.c:219-264 | the executions among the deeds of a run are its log |
| Deeds.ClosesHangUps | meloop/io.c:117-126 | a run closes exactly the descriptors whose hang-ups it handles, in that order |
| Deeds.FailsAsAlone | meloop/arrow.c:232-255 | errorA is called for a circuit exactly as often as the circuit, seen alone, ends by an error |
| Refinement.StepSimulates | meloop/arrow.c:219-264 | each step is one solo step of one circuit and nothing to any other |
| Refinement.Interleaving | meloop/io.c:94-131 | **Main.** each circuit's executed elements, states and data in any run equal those of its solo run, as does its final state |
| Refinement.WithinEnd | meloop/arrow.c:219-264 | where a run leaves a circuit is read off current, the task in progress or the bag at its end |
| Refinement.WithinLog | meloop/arrow.c:219-264 | what a run executes of a circuit is the part of its log that is about the circuit |
| Retries.RetriesOnly | meloop/io.c:13-20 | leaving out retries gives the run with blocking waits |
| Retries.TraceLaw | meloop/arrow.c:219-230 | the fresh executions follow the ring; the circuit ends exactly at the return of an open circuit's final element |
| Retries.ArgumentLaw | meloop/arrow.c:219-264 | the first task gets what the circuit is started with, each further one what the task before it returned |
| Retries.RunsAsIfAlone | meloop/io.c:94-131 | **Main.** interleaving refinement up to retries |
| Retries.LoopTraceLaw | meloop/io.c:94-131 | **Main.** the trace law inside the event loop |
| Retries.LoopArgumentLaw | meloop/io.c:94-131 | the argument law inside the event loop |
| Retries.LogCounts | meloop/arrow.c:219-230 | an element occurs in the log as often as in the ring walk |
| Retries.LoopFairness | meloop/io.c:94-131 | **Main.** no element of a cycle gets ahead of another by more than one fresh execution |
| Resumption.WaitResumes | meloop/io.c:108-129 | a waiting circuit's event runs the element it waits at with the arguments in its bag, however long the wait lasted |
| Resumption.FaithfulResumption | meloop/io.c:108-129 | **Main.** the event of an armed wait runs exactly the waiting element with the state and data given to waitA, whatever happened in between; a hang-up runs nothing |
| Resumption.BatchIsReport | meloop/io.c:108-110 | the batch holds, descriptor by descriptor, the bag armed there and the flags reported |
| Resumption.ReportedEvent | meloop/io.c:108-129 | **Main.** a reported descriptor is, whenever its event gets handled, closed and disarmed and its circuit failed with the arguments of its wait iff EPOLLRDHUP or EPOLLERR was reported; otherwise the waiting element runs |
| Resumption.FaithfulToReport | meloop/io.c:108-129 | **Main.** the same from waitA over the report to the handling, with the arguments of waitA |
| Guard.RestartOfRunningFaults | meloop/arrow.c:221-222 | any restart of a circuit with a task in progress, at any nesting depth, is followed by a run without further such restarts that dereferences NULL |
| Guard.CalmNeverFaults | meloop/arrow.c:219-230 | a program that never starts a circuit with a task in progress never dereferences NULL, even if it starts waiting ones |
| Guard.StartFaultsExactly | meloop/arrow.c:221-222 | **Main.** a start can be followed by a crash, though no further running circuit is started, iff its circuit had a task in progress |
| Guard.RestartOfWaitingMisresumes | meloop/arrow.c:258-264 | **Main.** any restart of a waiting circuit of two or more elements is followed by a run without further starts, in which the wait is not handled, and after which its event resumes another element; required is that the event is in the batch, or that its bag is armed and a remembered bag, perhaps one the circuit makes itself, keeps the loop polling |
| Guard.OneElementResumes | meloop/arrow.c:258-264 | a wait of a one-element circuit resumes at its element in every run of every program |
| Guard.GoodRunsResume | meloop/arrow.c:258-264 | no run of a program that obeys the rule misdirects a wait |
| Guard.RestartMisresumesExactly | meloop/arrow.c:258-264 | **Main.** a restart of a waiting circuit can, with no further start, misdirect its wait iff the circuit has two or more elements |
| Guard.ReentrantStartFaults | meloop/arrow.c:221-222 | the smallest such program |
| Accounting.RunAccounting | meloop/ev.c:22-50 | live bags and counter change by bags made, freed and dropped, over every run |
| Accounting.BagAccounting | meloop/ev.c:72-86 | **Main.** bags made = freed + remembered + dropped, from the start of every run |
| Accounting.NothingDropped | meloop/ev.c:84 | nothing is dropped while no more than 16 bags are live |
| Accounting.StrandedForever | meloop/io.c:94-95 | **Main.** a remembered bag that nothing points to keeps the loop's guard true for ever |
| Accounting.ArmingFailureStrands | meloop/io.c:13-20 | waitA strands its bag exactly when arming fails |
| Accounting.StrandsExactly | meloop/ev.c:111-141 | a step of any program strands a live bag iff arming the new bag failed, its descriptor was armed for someone else, a hang-up dearmed its descriptor, or its event was handled though the table did not know it |
| Accounting.SharingStrands | meloop/ev.c:115-122 | arming a descriptor in use strands the earlier bag |
| Accounting.DroppedForever | meloop/ev.c:38-50 | a bag the full table did not take is never freed |
| LoopExit.StepBijective | meloop/io.c:94-131 | exclusive waits keep live, remembered and tracked bags the same |
| LoopExit.GuardMeaning | meloop/io.c:94-95 | between rounds, remembered bags and armed descriptors correspond one to one, and the counter is 0 iff no circuit waits |
| LoopExit.LoopExitMeaning | meloop/io.c:94-131 | **Main.** the same at the end of every run from the start |
| LoopExit.GuardAfterArmingFailure | meloop/io.c:13-20 | after a failed arming the counter is 1 although nobody waits |
| Overflow.UnrememberedAreDropped | meloop/ev.c:72-86 | in every run of every program, the live bags that the table does not know are exactly those made while it was full |
| Overflow.ZeroCounterWaiters | meloop/io.c:94-95 | between rounds with a zero counter, a circuit still waits iff the table did not take its bag |
| Overflow.LeftBehind | meloop/io.c:94-95 | **Main.** when a run leaves through a zero counter, the circuits that still wait are exactly those whose last wait was made while the table was full |
| Overflow.NeverFull | meloop/ev.c:22-35 | a run of at most 16 circuits that gets to a zero counter never found the table full, whatever arming failed and whoever shared descriptors |
| Overflow.UncountedLeftBehind | meloop/io.c:108-129 | when the remembered bags hang up in one batch, the counter gets to 0 although a circuit with an unremembered bag waits, still armed |
| Overflow.LeavesWhileWaiting | meloop/io.c:94-131 | with more than 16 circuits of any shape, a run from the start leaves through a zero counter while a circuit waits |
| Overflow.ExitSafeExactly | meloop/io.c:94-95 | **Main.** some run can leave through a zero counter while a circuit waits iff there are more than 16 circuits |
| Driver.LoopIsRun | meloop/io.c:94-131 | **Main.** whatever the environment answers, some run of the machine calls the same tasks, closes the same descriptors and fails the same circuits, with the same arguments in the same order as the loop, and ends where it ends |
| Driver.EveryRunIsDriven | meloop/io.c:94-131 | **Main.** conversely, given the answers for any run whose starts are made by tasks, the loop does exactly that run |
| Driver.AnswerBetweenRounds | meloop/io.c:94-106 | 0 when asked to stop, when no bag is left and at a time-out, -1 when epoll_wait fails, nothing else being changed |
| Driver.LoopRefines | meloop/io.c:94-131 | **Main.** what the loop executes of each circuit, and where it leaves it, is what the circuit does alone |
| Driver.LoopCloses | meloop/io.c:117-126 | the loop closes exactly the descriptors whose hang-ups it handles, in order |
| Driver.NobodyWaitsAfter | meloop/io.c:94-95 | when the loop ends for want of bags after exclusive waits, no circuit waits |
| Driver.FewCircuitsNoneWaits | meloop/io.c:94-95 | **Main.** with at most 16 circuits and whatever the environment answers, nobody waits when the loop ends for want of bags |
| IoLoop.Reactor.constructor | meloop/io.c:69-71 | built, idle circuits and an empty table are the machine's start |
| IoLoop.Reactor.WaitA | meloop/io.c:13-20 | a bag with the arguments, the descriptor armed, or the circuit failed with its callback and the bag left |
| IoLoop.Reactor.RunTask | meloop/arrow.c:219-264 | what a task that fails or waits adds to the log; in all, what the flat description does until the task is over |
| IoLoop.Reactor.CallTask | meloop/arrow.c:219-230 | the task of the element that current points to is logged with its arguments where it is called |
| IoLoop.Reactor.ReturnA | meloop/arrow.c:219-230 | does what the machine does from the return on until the task is over |
| IoLoop.Reactor.RunA | meloop/arrow.c:258-264 | does what the machine does from the start on until the task is over |
| IoLoop.Reactor.ErrorA | meloop/arrow.c:232-255 | the callback of the circuit is called with these arguments iff there is one, and current of this circuit alone becomes NULL |
| IoLoop.Reactor.EvWait | meloop/ev.c:150-153 | events are the reported descriptors in order with the bags armed there and both flags, and exactly these descriptors are disarmed; 0 at a time-out, -1 at a failure, with nothing changed |
| IoLoop.Reactor.HandleOne | meloop/io.c:109-129 | a hang-up or error closes exactly the bag's descriptor and calls the callback, if any, with the bag's arguments; any other event runs the waiting element, and nothing is closed |
| IoLoop.Reactor.HangUp | meloop/io.c:117-126 | the descriptor is disarmed and closed, and the circuit fails with the arguments it waited with |
| IoLoop.Reactor.MeloopIoLoop | meloop/io.c:81-134 | **Main.** answers 0 at once when asked to stop or out of bags, 0 after a time-out, -1 iff the last epoll_wait failed; state, answers left and log are those of the flat description, hence of a run, and the descriptors closed are those that hung up in it |
| FileIo.FileS.ReadA | meloop/io.c:41-66 | returns with the bytes read as the chunk iff there are any, waits iff EAGAIN and armed, fails otherwise, also at the end of the file, and then changes nothing |
| FileIo.FileS.WriteA | meloop/io.c:23-38 | returns with the accepted prefix sent, even if short; waits iff EAGAIN and armed, fails otherwise, and then sends nothing |
| FileIo.AfterRead | meloop/io.c:41-66 | where each answer to a read leaves the read-write loop, its chunk and its streams |
| FileIo.AfterWrite | meloop/io.c:23-38 | the same for a write |
| FileIo.AfterWait | meloop/io.c:108-129 | a wait ends at the same element with the same chunk, or the loop is over |
| FileIo.OverExactly | meloop/io.c:23-66 | the loop is over iff an end of file, a broken call, a failed arming or a hang-up has happened, which then was last |
| FileIo.EagainRetries | meloop/io.c:28-31 | any number of EAGAIN answers to a write leaves the loop offering the same chunk |
| FileIo.HistoryLaw | meloop/io.c:23-66 | the chunks make up the bytes read, the accepted parts the bytes written |
| FileIo.PrefixLaw | meloop/io.c:23-66 | **Main.** before an error, of every chunk read a prefix has gone out, in order |
| FileIo.StreamConservation | meloop/io.c:23-66 | with full writes, bytes written and the chunk in flight are the bytes read, for any EAGAIN pattern |
| FileIo.LossLaw | meloop/io.c:23-66 | before an error, the bytes read that are neither written nor in flight are as many as the writes did not accept |
| FileIo.ConservedIffFull | meloop/io.c:23-66 | **Main.** from any conserved state on, the stream is conserved iff every write accepted all it was offered |
| FileIo.EchoLaws | examples/echoserver.c:103-105 | the laws from the start of a read-write loop: history, prefixes, the exact loss, and conservation iff all writes are full |
| FileIo.ShortWriteLoses | meloop/io.c:27-37 | the shortest lossy run: one chunk read, one short write |
| FileIo.EchoIsSolo | meloop/arrow.c:219-230 | the read-write loop is a circuit in the sense of the refinement |
| FileIo.EchoInTheLoop | meloop/io.c:94-131 | **Main.** the same laws hold of it among any other circuits |
| Timers.IntervalSplit | meloop/timer.c:20-21 | C's / and % split the interval without loss, validly iff it is not negative |
| Timers.TimerS.TimerOpenA | meloop/timer.c:16-42 | descriptor, status, call and whether the new descriptor is closed again, for each answer of the kernel |
| Timers.TimerS.TimerSleepA | meloop/timer.c:45-78 | the first time, waits or fails to arm; after that returns iff the read succeeds, waits iff EAGAIN and armed, and fails otherwise |
| Timers.ReturnsPerRead | meloop/timer.c:45-78 | over any run, the task returns exactly once per successful read |
| Timers.TickKeeps | meloop/timer.c:45-78 | the timer's invariant is kept by every expiration and every execution of the task |
| Timers.TimerConservation | meloop/timer.c:45-78 | **Main.** read plus pending expirations are all expirations, one return per successful read and so at most one per expiration, and never a return first |
| Randoms.SignednessIsIrrelevant | meloop/random.c:54-55 | signed and unsigned char give the same letter |
| Randoms.RandEncA | meloop/random.c:49-58 | every byte becomes its letter in place, the rest of the buffer is untouched |

## Left out

- RestartOfWaitingMisresumes: a wait whose event can come only because tasks of other circuits wait again and keep the loop polling is not covered.
- RandEncA: sizes above INT_MAX overflow the loop variable in the source and are excluded.
- System calls: epoll, read, write, close and timerfd answer as the environment chooses, within what their manual pages allow. A closed descriptor's number may be reused at once.
- Closing descriptors by tasks and callbacks: the machine closes a descriptor only at a hang-up. A task or callback that closes one that another circuit has armed would strand that circuit's bag, and the correspondence of bags and descriptors in LoopExit.GuardMeaning would no longer hold.
- What tasks compute, and the contents behind state and data pointers, except for the buffers of readA, writeA and randencA.
- Error callbacks that call back into a circuit, stack depth (returnA and freeE recurse once per element), and malloc failure, which ends the process.
- A task that makes none or several of the calls returnA, errorA, waitA. meloop/tcp.c, whose connectA returns twice on its synchronous path, is not part of this model.
- runA on a circuit without elements, which dereferences NULL: circuits that run have at least one element.
- Unbounded runs appear as all their finite prefixes: the script of environment answers is finite, and an exhausted script answers with failure.
- meloop_ev_init returning early when called again, and meloop_ev_deinit.
- meloop_priv_ptr, free of the circuit record itself, message formatting in errorA, and the unused fork elements.
- meloop/pipe.c repeats readA and writeA with two descriptors; meloop/tls.c, meloop/openssl_helpers.c, meloop/tuntap.c, meloop/addr.c and meloop/logging.c are plumbing around code that cannot be seen.
- randopenA and randreadA: device access; the error test of randreadA is on an unsigned size.
