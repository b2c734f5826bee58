# A verified model of LearnWeb's core

LearnWeb is a C++ server framework built on fibers. This project models six parts of it in Dafny
and proves what they promise, for all inputs and all runs.

**Scheduler and event manager** (`Tasks`, `EventTable`, `Scheduler`, `IoManager`, `World`,
`Invariants`, `Wakes`, `FiberSafety`, `QueueSafety`, `StartSafety`, `TableSafety`, `Theorems`,
`Transitions`, `Callbacks`, `Reports`, `Registrations`, `Exits`, `Scenarios`, `Crossing`, `Race`,
`Sections`).
N workers run `Scheduler::run` over one task list.
Fibers move through INIT, EXEC, HOLD, READY, TERM and EXCEPT, park in the READ and WRITE slots of
descriptors or in timers, and come back to the list. `World` is the interleaving: a state with a
program counter per worker, a `Step` for each atomic action, and runs that are sequences of enabled
steps. `Invariants` is the inductive invariant, the `*Safety` modules show that every step keeps it,
and `Theorems`, `Transitions`, `Callbacks`, `Reports`, `Registrations` and `Exits` say what that means for
whole runs.
`Scenarios`, `Crossing` and `Race` hold the runs that show where a promise ends. Two classes,
`Scheduler` and `IOManager`, are the same critical sections as imperative code, and `Sections` shows
that the steps of the interleaving add up to them.

The interleaving takes these premises about the code that fibers run. A fiber arranges a wake-up
for itself only while it runs and only when none is under way. It calls `YieldToHold` only after
arranging one, and `YieldToReady` only with none under way. `epoll_wait` reports, for a watched
descriptor, some of the watched events, or both on an error or a hang-up; between the report and the
descriptor's lock the other workers go on, and a report whose assertion fails ends the run. A callback may
return whether or not a wake-up for the fiber it ran in is under way. The worker then resets that
fiber for the next callback, and the history field `recycled` records the resets that happened with a
wake-up under way. The results about fibers hold as long as that record is empty.

**ByteArray** (`Flat`, `ByteArray`, `BlockSizes`, `Codec`, `TypedArray`). A chain of equal blocks
with a cursor refines a flat byte sequence with a position. On top of it sit fixed-width integers in
either byte order, base-128 varints, the zigzag pair and length-prefixed strings.

**TimerManager** (`Timers`, `TimerManager`). A set ordered by a deadline that changes, with cancel,
refresh, reset, expiry, clock rollover and the bit that limits notifications. Arithmetic is on
unsigned 64-bit words.

**Hooked input and output** (`HookedIo`). The rounds of one `do_io` call with a time-out timer per round
and the `cancelled` flag that all of them share.

**LogFormatter::init** (`LogPattern`). The pattern parser, against a printer that it inverts.

**IPv6 text** (`Ipv6Text`). `IPv6Address::insert`, against the reading rule of section 2.2 of RFC 4291.

`Wrappers`, `Sequences` and `Search` hold what several parts share.

Nine properties one might expect are false of the code. Each has a failing input or run, and its
exact condition.

- A callback fiber kept for reuse is not always clean. A callback that returns with a wake-up for its
  own fiber under way has its fiber reset all the same; two workers can then be at that fiber and the
  assertion of `swapIn` fails (`Scenarios.CallbackFiberCollides`). The fiber a callback ran in is reusable
  after the reset, whatever happens in between, exactly when the callback leaves no wake-up for it
  (`Callbacks.CallbackFiberReusable`).
- `stopping()` can be true and then false again without new work: a worker gives up its active count
  before it puts a READY fiber back (`Theorems.StopWindowReachable`). With nothing registered and no
  timers it is final exactly when no worker is in that window (`Theorems.StopIsFinal`).
- Unpinned callbacks are dequeued in the order they were scheduled, but need not start in it
  (`Crossing.StartsOutOfOrder`). All runs of N workers start them in order exactly when N is one
  (`Crossing.StartsInOrder`), and a start is in turn exactly when no worker still holds an earlier one
  (`Theorems.StartInTurn`).
- Two readiness events and a cancel can fail the assertion of `triggerEvent`: a report names exactly what
  is registered, another worker cancels one of the two events before the first gets to the lock
  (`Race.StaleReportFails`). A report on its way fails exactly when it names both events and one of them
  is registered when the lock is taken (`Reports.ReportOutcome`). So does a hang-up on a descriptor with
  only a reader (`IoManager.HangUpOnReader`, `IoManager.IOManager.Deliver`).
- The time-out of one round of a hooked call can fail a later round, whose own time-out never expired
  (`HookedIo.LateTimeOutHappens`): exactly when `timer->cancel()` came too late in that round
  (`HookedIo.LateTimeOut`).
- A hooked call with a time-out can wait without one (`HookedIo.TimeOutLost`): exactly when the flag was
  set and `cancelEvent` called before the event was registered (`HookedIo.TimeOutArrives`).
- A list of values does not always come back (`TypedArray.EmptyTextCrashes`): the last read
  dereferences a null cursor exactly when the last value is an empty string and the bytes fill the last
  block (`TypedArray.RoundTrip`).
- A string does not always come back whole (`TypedArray.LongTextLost`): it does exactly when its length
  fits its length field and it is not an empty string whose field ends at the end of the last block
  (`TypedArray.TextRoundTrip`).
- `writeInt32/64` then `readInt32/64` loses -1 (`Codec.MinusOneLost`): it gives a number back exactly
  when the number is not negative, because the zigzag encoder's parameter is unsigned
  (`Codec.SignedVarintRoundTrip`).

## Model

| member | source | states |
|---|---|---|
| Scheduling.Scheduler.ScheduleNoLock | skt/scheduler/scheduler.h:63-71 | a task goes to the end under the next number with the thread it was given, a null task nowhere; the answer is whether the list was empty |
| Scheduling.Scheduler.ScheduleRange | skt/scheduler/scheduler.h:39-51 | all tasks of the range are appended in order and unpinned, each at the place the number of tasks before it says, and moved out of the caller's slots |
| Scheduling.EntryOfJob | skt/scheduler/scheduler.h:39-51 | where each task of a range stands among the new entries, and what its entry is |
| Scheduling.Scheduler.TakeTask | skt/scheduler/scheduler.cpp:148-172 | takes the first entry that is not another thread's and not a running fiber, keeps the others in order, counts it as active; exactly when other threads are to be woken; if none is taken, each entry is another thread's or a running fiber |
| EventTable.Grown | skt/iomanager/iomanager.cpp:82-91 | growth keeps every context, adds empty ones, and covers the descriptor asked for |
| EventTable.AddAccepted | skt/iomanager/iomanager.cpp:113-119 | on an unlocked descriptor `addEvent` issues ADD exactly when the kernel does not watch it, so it is accepted |
| EventTable.DropAccepted | skt/iomanager/iomanager.cpp:155-161 | dropping registered bits issues MOD or DEL on a watched descriptor only, and leaves the kernel watching exactly the other bits |
| EventTable.ArmedKeeps | skt/iomanager/iomanager.cpp:127-140 | after `addEvent` slots match bits, the count matches the bits, the kernel matches; the slot was empty before; nothing else moved |
| EventTable.ClearedKeeps | skt/iomanager/iomanager.cpp:32-43 | `triggerEvent` with its decrement keeps slots, bits and count matching and touches one slot |
| EventTable.DeletedKeeps | skt/iomanager/iomanager.cpp:142-174 | `delEvent` keeps slots, bits, count and kernel matching |
| EventTable.FlushedKeeps | skt/iomanager/iomanager.cpp:207-243 | a whole cancel or delivery empties exactly the slots it names and keeps slots, bits, count and kernel matching |
| EventTable.FlushedBits | skt/iomanager/iomanager.cpp:233-240 | the bits left are the old ones without those named, the count falls by their number |
| IoManager.IOManager.AddEvent | skt/iomanager/iomanager.cpp:93-140 | keeps the table valid; grows it to one and a half times the descriptor when that is past the end; returns 0 exactly when the kernel does not refuse for a reason of its own, then the named slot, and no other, holds the waiter and the kernel watches the new bits; the slot assertion holds |
| IoManager.IOManager.Trigger | skt/iomanager/iomanager.cpp:32-43 | clears the bit, empties the slot, appends exactly the waiter that was in it |
| IoManager.IOManager.TryTrigger | skt/iomanager/iomanager.cpp:32-43 | the assertion holds exactly when the bit is set; otherwise nothing changes |
| IoManager.IOManager.DelEvent | skt/iomanager/iomanager.cpp:142-174 | true exactly when the bit was set and the kernel agreed; then bit and waiter are gone and nothing is queued |
| IoManager.IOManager.Flush | skt/iomanager/iomanager.cpp:216-241 | drops a set of bits: the kernel first, then the waiters, READ before WRITE, each queued once |
| IoManager.IOManager.CancelEvent | skt/iomanager/iomanager.cpp:176-205 | true exactly when the bit was set and the kernel agreed; then its waiter, and nothing else, is queued unpinned |
| IoManager.IOManager.CancelAll | skt/iomanager/iomanager.cpp:207-243 | ends with no bit set and every waiter queued, READ's first; the count falls by the number of bits |
| IoManager.IOManager.Fire | skt/iomanager/iomanager.cpp:341-348 | READ then WRITE, as far as the assertions hold: everything is triggered exactly when all of it is registered, otherwise only a registered READ |
| IoManager.IOManager.Notify | skt/iomanager/iomanager.cpp:326-348 | after the mask: the kernel call, then the triggers; refused, delivered or failing exactly by the kernel and the registered bits, with the state each leaves |
| IoManager.IOManager.Deliver | skt/iomanager/iomanager.cpp:312-348 | EPOLLIN, EPOLLERR and EPOLLHUP stand for READ, EPOLLOUT, EPOLLERR and EPOLLHUP for WRITE; ignored, refused, delivered or failing exactly by overlap with and containment in the registered events and by the kernel; delivered: the READ waiter, then the WRITE waiter of the reported events are queued unpinned and their slots emptied; failing: the kernel has forgotten the descriptor, and a lone reader is queued while a lone writer stays in its slot unwatched |
| IoManager.HangUpOnReader | skt/iomanager/iomanager.cpp:315-348 | one reader registered and a hang-up reported: the reader is queued, then the assertion fails |
| Sections.SoloScan | skt/scheduler/scheduler.cpp:148-172 | a scan that no one interrupts takes the first takeable entry, as TakeTask does |
| Sections.SoloSection | skt/iomanager/iomanager.cpp:207-243 | cancel and delivery steps that no one interrupts leave the table that Flush leaves, every waiter queued in order, the descriptor unlocked |
| Wakes.StepDelta | skt/scheduler/scheduler.cpp:144-226 | every step leaves all wake-ups in place or moves, makes or destroys exactly one |
| FiberSafety.FirstWake | skt/fiber/fiber.cpp:113-125 | a step makes a wake-up only for a fiber that has none |
| FiberSafety.HandNotExec | skt/scheduler/scheduler.cpp:160-163 | a dequeued fiber is not running |
| FiberSafety.FiberStep | skt/scheduler/scheduler.cpp:177-205 | every step keeps, unless it resets a callback fiber with a wake-up under way: one wake-up a fiber, one worker a fiber, states that match where the workers are, callback fibers that are clean |
| FiberSafety.NothingRecycled | skt/scheduler/scheduler.cpp:200-201 | while the last callback of every fiber left no wake-up for it, no step resets a callback fiber with one |
| QueueSafety.QueueStep | skt/scheduler/scheduler.cpp:146-172 | every step keeps the list in order of scheduling, loses and repeats no entry, respects pins and dequeues unpinned callbacks first-in first-out |
| StartSafety.StartStep | skt/scheduler/scheduler.cpp:186-194 | every step keeps: a callback starts once, on the worker that took it, each worker starting its unpinned ones in order |
| QueueSafety.CountStep | skt/scheduler/scheduler.cpp:167-221 | every step keeps the two counters equal to the workers they count |
| TableSafety.TableStepKeeps | skt/iomanager/iomanager.cpp:93-243 | every step keeps slots, bits, pending count, kernel set and descriptor locks consistent |
| TableSafety.RegStep | skt/iomanager/iomanager.cpp:93-243 | every step keeps each registration at exactly one place |
| Theorems.RunInv | skt/scheduler/scheduler.cpp:132-228 | the invariant holds in every state of every run, its fiber part while no callback fiber was reset with a wake-up under way |
| Theorems.ResumedByOneWorker | skt/fiber/fiber.cpp:166-173 | while none was so reset: from the dequeue of a fiber until its state is settled no other worker is at it, none dequeues it unless it has ended, and the assertion of `swapIn` never fails |
| Theorems.NotDequeuedWhileLeaving | skt/scheduler/scheduler.cpp:160-183 | while none was so reset: a fiber queued before it finished switching out stays EXEC, so no worker may take it, until HOLD is written |
| Theorems.AtMostOneWake | skt/iomanager/iomanager.cpp:131-138 | while none was so reset: no fiber has two wake-ups under way, in list, slot, timer, callback or hand |
| Theorems.ResumedOwesNothing | skt/hook/hook.cpp:129-146 | while none was so reset: a resumed fiber has no registration and no wake-up left, so the retry of `do_io` may register again |
| Theorems.NoLostWake | skt/scheduler/scheduler.cpp:178-205 | while none was so reset: a parked or requeued fiber has a wake-up under way unless it was deleted or cancelled; an EXEC fiber has a worker |
| Callbacks.CallbackFiberReusable | skt/scheduler/scheduler.cpp:186-205 | at the end of a callback: on every way on to its worker's reset the fiber comes out INIT with nothing to do and no wake-up under way, if and only if the callback leaves no wake-up for it |
| Callbacks.TidyEndIsSafe | skt/scheduler/scheduler.cpp:195-205 | after a callback that leaves no wake-up no interleaving up to the reset makes the fiber anything but reusable |
| Callbacks.UntidyEndRecycles | skt/scheduler/scheduler.cpp:195-205 | after one that leaves a wake-up its worker alone goes on to reset the fiber with the wake-up under way |
| Callbacks.KeptFiberClean | skt/scheduler/scheduler.cpp:186-188 | while none was so reset: a kept callback fiber is INIT with nothing under way and nobody at it, so `Fiber::reset` never meets a parked one |
| Callbacks.TidyCallbacksSuffice | skt/scheduler/scheduler.cpp:186-205 | if every callback ends with no wake-up under way for its own fiber, none is ever reset with one |
| Scenarios.CallbackFiberCollides | skt/scheduler/scheduler.cpp:186-205 | a run of two workers in which a callback returns with its own wake-up queued, its fiber is recycled, both workers are at it and the assertion of `swapIn` is about to fail |
| Theorems.DispatchFaithful | skt/scheduler/scheduler.cpp:148-172 | over whole runs no entry is lost or taken twice, pins are respected, skipped entries keep their order, unpinned callbacks are dequeued in order |
| Transitions.AppendedBy | skt/scheduler/scheduler.h:25-71 | for every step of every run, whether it appends and exactly what: `schedule` the task with the thread it was given, requeues, timers and events the fiber, callback or waiter concerned, unpinned, READ's waiter before WRITE's |
| Transitions.PinHonoured | skt/scheduler/scheduler.cpp:152-156 | a task scheduled for a thread is only ever dequeued by that thread; one put back by the scheduler, a timer or an event has no pin |
| Transitions.FiberEdges | skt/fiber/fiber.cpp:113-212 | while none was so reset: a fiber's state changes only from INIT, HOLD or READY to EXEC by `swapIn`, from EXEC to READY by `YieldToReady`, to TERM by returning, to EXCEPT by throwing, to HOLD by its worker after it parked, and from TERM or EXCEPT to INIT by the reset of a callback fiber |
| Transitions.NewFibers | skt/scheduler/scheduler.cpp:186-191 | a fiber comes into being INIT, only by a call that schedules a new one or for a callback on a worker that keeps none |
| Transitions.FiberLands | skt/scheduler/scheduler.cpp:177-205 | the state in which each of these steps leaves the fiber |
| Transitions.AbandonedBecause | skt/iomanager/iomanager.cpp:142-174 | a fiber counts as having lost its wake-up only if `delEvent`, a timer's cancel or the end of a callback destroyed one |
| Theorems.StartsFaithful | skt/scheduler/scheduler.cpp:186-194 | a callback starts at most once, on the worker that took it; each worker starts its unpinned ones in scheduling order; a dequeued one is started or still held |
| Theorems.StartInTurn | skt/scheduler/scheduler.cpp:186-194 | a callback starts after all unpinned ones scheduled before it if and only if no worker still holds an earlier one that it dequeued and did not start |
| Theorems.OneWorkerInOrder | skt/scheduler/scheduler.cpp:186-194 | one worker starts all unpinned callbacks in scheduling order |
| Crossing.StartsInOrder | skt/scheduler/scheduler.cpp:132-228 | all runs of N workers start unpinned callbacks in scheduling order if and only if N is one |
| Crossing.StartsOutOfOrder | skt/scheduler/scheduler.cpp:186-194 | for every number of workers above one, a run in which the later of two unpinned callbacks starts first |
| Theorems.ActiveCountExact | skt/scheduler/scheduler.cpp:167-209 | the active count is the number of workers holding a dequeued task, on all branches |
| Theorems.StoppingMeansReturned | skt/scheduler/scheduler.cpp:234-237 | `stopping()` implies that every task ever queued was taken and gave control back |
| Transitions.StoppingExactly | skt/scheduler/scheduler.cpp:69-90 | `stopping()` holds if and only if `stop` was called, every task ever queued was dequeued and no worker still has one |
| Theorems.RequeueUndoesStop | skt/scheduler/scheduler.cpp:179-181 | from any stopping state with a READY fiber about to be requeued the workers reach a state that is not stopping |
| Theorems.StopIsFinal | skt/scheduler/scheduler.cpp:234-237 | with nothing registered and no timers, `stopping()` stays true under all worker steps if and only if no worker is about to requeue |
| Theorems.StopWindowReachable | skt/scheduler/scheduler.cpp:179-181 | a concrete run that reaches that window |
| Exits.ExitedAfterStopping | skt/iomanager/iomanager.cpp:250-282 | a worker leaves `run` only after its idle fiber ended, which it does only after seeing that there was no timer, later that nothing was pending, and later that `Scheduler::stopping()` held |
| Exits.OnlyForeignLeft | skt/scheduler/scheduler.cpp:146-216 | when the last worker leaves, every entry still listed is pinned to a thread other than it, and it stays so until something is posted |
| Theorems.RegistrationOutcome | skt/iomanager/iomanager.cpp:93-243 | each registration is armed once, or became exactly one queue entry, or was deleted; never two, never none |
| Registrations.SlotStep | skt/iomanager/iomanager.cpp:93-243 | a step leaves an armed slot as it is, or queues its waiter, or is the `delEvent` that names it |
| Registrations.RegistrationFate | skt/hook/hook.cpp:119-141 | however readiness, cancels and time-outs race, a registration stays armed until its own waiter is appended once or `delEvent` names it |
| Theorems.TableConsistent | skt/iomanager/iomanager.cpp:106-243 | in every run the pending count is the number of set bits, a slot is empty exactly when its bit is clear, the kernel mirrors unlocked descriptors |
| Theorems.KernelNeverRefuses | skt/iomanager/iomanager.cpp:113-119 | in every run ADD is issued for absent and MOD or DEL for present descriptors only |
| Theorems.TriggersRegistered | skt/iomanager/iomanager.cpp:32-34 | once a cancel or a delivery has begun its triggers, each event it still has to trigger is registered, with a waiter in its slot, whatever the others do |
| Reports.ReportOutcome | skt/iomanager/iomanager.cpp:310-348 | in every run a report held by a worker that gets to the lock is ignored exactly when it names nothing registered, delivered exactly when all it names is registered, and fails the assertion of `triggerEvent` exactly when it names both events and one of them is registered |
| Reports.SingleReportsNeverFail | skt/iomanager/iomanager.cpp:315-348 | a run whose reports name one event each never fails that assertion |
| Race.StaleReportFails | skt/iomanager/iomanager.cpp:176-348 | a run of two workers without error or hang-up: a report that names exactly the registered events is overtaken by a cancel of one of them, and the assertion fails |
| ByteArrays.ByteArray.constructor | skt/bytearray/bytearray.cpp:32-41 | one block, position and size zero, big-endian |
| ByteArrays.ByteArray.SetEndian | skt/bytearray/bytearray.cpp:56-62 | sets the stored order and nothing else |
| ByteArrays.ByteArray.Grow | skt/bytearray/bytearray.cpp:510-525 | appends that many fresh blocks, keeps the old ones and their bytes, returns the first |
| ByteArrays.ByteArray.AddCapacity | skt/bytearray/bytearray.cpp:501-530 | room for the bytes with the fewest blocks that suffice; content kept; the cursor is right again if it was null |
| ByteArrays.ByteArray.CursorMoves | skt/bytearray/bytearray.cpp:359-375 | which block the next byte is in after part of a block |
| ByteArrays.ByteArray.WriteBlocks | skt/bytearray/bytearray.cpp:354-376 | the copying loop overwrites exactly the bytes from the position on and leaves the cursor in block position/base |
| ByteArrays.ByteArray.Write | skt/bytearray/bytearray.cpp:348-381 | overwrites or extends the flat sequence, moves the position past the bytes, keeps the structure valid, grows minimally |
| ByteArrays.ByteArray.ReadBlocks | skt/bytearray/bytearray.cpp:388-409 | the reading loop returns exactly the slice and ends in the right block |
| ByteArrays.ByteArray.Read | skt/bytearray/bytearray.cpp:383-410 | the slice at the position; out of range exactly when it passes the size; null cursor exactly for an empty read at capacity; only success moves the position |
| ByteArrays.ByteArray.ToString | skt/bytearray/bytearray.cpp:532-540 | everything from the position to the size, moving nothing |
| ByteArrays.ByteArray.SetPosition | skt/bytearray/bytearray.cpp:443-459 | refused exactly past the capacity; sets position, raises size, keeps bytes, puts the cursor in block position/base or null at capacity |
| ByteArrays.ByteArray.Seek | skt/bytearray/bytearray.cpp:451-458 | the walk ends at block v/base, or null at capacity |
| ByteArrays.ByteArray.Clear | skt/bytearray/bytearray.cpp:335-346 | back to the first block, empty |
| ByteArrays.ByteArray.GetWriteBuffers | skt/bytearray/bytearray.cpp:624-652 | the vectors are exactly the next n bytes in order, block by block; position, size and content unchanged |
| ByteArrays.ByteArray.Collect | skt/bytearray/bytearray.cpp:631-650 | the loop yields one vector a block, the first from the offset, each but the last to the end of its block, of the length asked for in all |
| ByteArrays.ByteArray.Scatter | skt/bytearray/bytearray.cpp:624-652 | filling the vectors overwrites exactly the bytes from the position on |
| ByteArrays.ByteArray.ReceiveInto | skt/bytearray/bytearray.cpp:443-459 | filling k of len bytes and seeking to position + k has the effect of writing them |
| BlockSizes.Perform | skt/bytearray/bytearray.cpp:348-410 | each operation answers and changes as the flat array does |
| BlockSizes.PerformAll | skt/bytearray/bytearray.cpp:348-410 | so does every run |
| BlockSizes.SameForAnyBlockSize | skt/bytearray/bytearray.cpp:32-41 | the same run on two base sizes gives the same answers, position and bytes |
| BlockSizes.PerformAny | skt/bytearray/bytearray.cpp:335-459 | writes, reads, seeks up to the capacity, clears and received bytes each follow the flat array, empty reads at the capacity crashing |
| BlockSizes.RunAny | skt/bytearray/bytearray.cpp:335-459 | so does every run of them on one array |
| Codec.ByteswapTwice | skt/endian/endian.h:11-24 | swapping twice gives the number back |
| Codec.WireOrder | skt/bytearray/bytearray.cpp:64-112 | whatever the host's order, stored byte k is digit k of base 256, counted from the low end in a little-endian array and from the high end in a big-endian one |
| Codec.ReadOrder | skt/bytearray/bytearray.cpp:218-250 | a read gives the sum of the bytes times the powers of 256 of their places in the chosen order, whatever the host's |
| Codec.FixedRoundTrip | skt/bytearray/bytearray.cpp:64-112 | any host reads what any host wrote |
| Codec.TwosComplement | skt/bytearray/bytearray.cpp:72-104 | the unsigned image of a signed number is the number modulo 2 to the width, and the signed reading of an image is the one number in range congruent to it |
| Codec.VarintDigit | skt/bytearray/bytearray.cpp:143-152 | byte k of an encoding is digit k of base 128 from the low end, with the top bit set on all but the last |
| Codec.DecodeMeans | skt/bytearray/bytearray.cpp:257-287 | what any bytes decode to: the seven-bit groups up to the first byte below 0x80 or up to the width, summed lowest first and cut to the width; out of bytes exactly when they end before that |
| Codec.VarintLength | skt/bytearray/bytearray.cpp:143-152 | the encoding is as long as base 128 needs and no longer |
| Codec.VarintRoundTrip | skt/bytearray/bytearray.cpp:257-269 | decoding an encoding followed by any bytes gives the number and takes exactly the encoding |
| Codec.VarintShortest | skt/bytearray/bytearray.cpp:275-287 | no shorter byte string decodes to the same number |
| Codec.VarintWidths | skt/bytearray/bytearray.cpp:143-167 | at most 5 bytes for 32 bits, 10 for 64: the local buffers suffice |
| Codec.ZigzagRoundTrip | skt/bytearray/bytearray.cpp:114-137 | a number survives the pair if and only if it is not negative; a negative one loses its sign bit |
| Codec.ZigzagProper | skt/bytearray/bytearray.cpp:114-137 | the decoder inverts the zigzag code on every number; the encoder computes that code exactly for the numbers that are not negative |
| Codec.SignedVarintRoundTrip | skt/bytearray/bytearray.cpp:139-167 | `writeInt` then `readInt` takes exactly the bytes written and gives the number back if and only if it is not negative |
| Codec.MinusOneLost | skt/bytearray/bytearray.cpp:115-141 | -1 written with `writeInt32` comes back as 2147483647 |
| TypedArray.WriteFixed | skt/bytearray/bytearray.cpp:64-112 | writes the base-256 digits of the number, lowest first when little-endian, highest first when big-endian |
| TypedArray.VarintBytes | skt/bytearray/bytearray.cpp:143-152 | the loop fills the buffer with the encoding |
| TypedArray.WriteVarint | skt/bytearray/bytearray.cpp:143-167 | writes the encoding: base-128 digits, lowest first, the top bit on all but the last |
| TypedArray.WriteText | skt/bytearray/bytearray.cpp:183-196 | writes the digits of the length cut to its field, then the bytes |
| TypedArray.ReadFixed | skt/bytearray/bytearray.cpp:207-250 | the sum of the next bytes times the powers of 256 of their places in the stored order, or out of range |
| TypedArray.ReadVarint | skt/bytearray/bytearray.cpp:257-287 | what decoding the rest gives; running out leaves the position at the end |
| TypedArray.ReadText | skt/bytearray/bytearray.cpp:303-325 | that many bytes after the length, out of range, or the null cursor, each exactly when |
| TypedArray.TextRoundTrip | skt/bytearray/bytearray.cpp:183-325 | any string at any position of any array, written and read back: cut to what its field can hold, null cursor exactly for the empty string whose field ends at the end of the last block, whole if and only if it fits and is not that |
| TypedArray.LongTextLost | skt/bytearray/bytearray.cpp:183-186 | 65536 bytes written with a 16-bit length come back as none |
| TypedArray.WriteItem | skt/bytearray/bytearray.cpp:64-196 | writing a value appends its encoding |
| TypedArray.ReadItem | skt/bytearray/bytearray.cpp:207-325 | reading where an encoding stands gives the value back and moves past it |
| TypedArray.RoundTrip | skt/bytearray/bytearray.cpp:64-325 | any list of values written, rewound and read comes back with nothing unread, for every base size and order; it crashes if and only if the last value is an empty string that ends on a block boundary |
| TypedArray.EmptyTextCrashes | skt/bytearray/bytearray.cpp:303-309 | an empty string alone in an array of 2-byte blocks crashes the read |
| Timers.FindFinds | skt/timer/timer.cpp:5-22 | in a sorted set the search by the present key meets every member |
| Timers.InsertSorted | skt/timer/timer.cpp:180-182 | insertion keeps the order and adds exactly the timer |
| Timers.WordArithmetic | skt/timer/timer.cpp:24-32 | sums and differences wrap around at 2 to the 64 |
| Timers.RolledOverMeans | skt/timer/timer.cpp:195 | on 64-bit readings: more than an hour back, or any step back within the first hour, where the subtraction wraps |
| Timers.ExpireExact | skt/timer/timer.cpp:141-178 | exactly the timers due (all on rollover) are handed out, in set order, each once; exactly the others and the recurring ones stay, these at now + interval; the rest are spent |
| Timers.RunConsistent | skt/timer/timer.cpp:36-191 | in every run a timer is in the set exactly when its callback is there, and the set is in order |
| Timers.SearchNeverMisses | skt/timer/timer.cpp:36-87 | in every run `cancel` never erases the end of the set, and `refresh` and `reset` fail exactly on dead timers |
| Timers.StepHistory | skt/timer/timer.cpp:36-178 | a spent or cancelled callback never comes back and is not handed out |
| Timers.OneShotOnce | skt/timer/timer.cpp:164-177 | a one-shot callback is handed out at most once |
| Timers.NeverAfterCancel | skt/timer/timer.cpp:36-45 | no callback is handed out after a cancel of its timer |
| Timers.NoNoticeNoEarlier | skt/timer/timer.cpp:47-87 | a step that does not notify never moves the earliest deadline forward, although `refresh` and re-arming never notify |
| Timers.NoLostWakeUp | skt/timer/timer.cpp:125-139 | if the earliest deadline is ever before the one `getNextTimer` saw, a notification came in between |
| TimerManagers.TimerManager.Enter | skt/timer/timer.cpp:180-191 | the set gains exactly this timer and stays in order; a notice exactly when it comes before all others and none was sent since `getNextTimer` |
| TimerManagers.TimerManager.AddTimer | skt/timer/timer.cpp:98-110 | the set gains the new timer at now + interval with its callback and kind; notifies like an insertion |
| TimerManagers.TimerManager.Cancel | skt/timer/timer.cpp:36-45 | true exactly when the callback was there; then it and its place in the set are gone and nothing else changed |
| TimerManagers.TimerManager.Refresh | skt/timer/timer.cpp:47-60 | true exactly when live; then the deadline is now + interval; the set has the same members and no notice is sent |
| TimerManagers.TimerManager.Reset | skt/timer/timer.cpp:62-87 | true exactly when live or nothing to change; then the deadline is the new interval after now or after the old start, notifying like an insertion |
| TimerManagers.TimerManager.GetNextTimer | skt/timer/timer.cpp:125-139 | exactly the wait until the earliest of all deadlines, zero when it has passed, none without timers; notifications are open again and nothing else changed |
| TimerManagers.TimerManager.DetectClockRollover | skt/timer/timer.cpp:193-200 | true exactly when the reading is more than an hour before the last one, or before it at all within the first hour; the reading is remembered |
| TimerManagers.TimerManager.ListExpiredCb | skt/timer/timer.cpp:141-178 | returns the callbacks of exactly the due timers, in the order of the set; a recurring one is at now + interval and stays in the set, a one-shot one has no callback and leaves it, every other timer is as it was |
| TimerManagers.TimerManager.DueIterator | skt/timer/timer.cpp:159-163 | lower bound and the walk over equal keys end past the last due timer, whatever the probe's address |
| TimerManagers.TimerManager.Rearm | skt/timer/timer.cpp:167-177 | the loop collects the callbacks and re-arms or spends each timer |
| HookedIo.TimesOutIff | skt/hook/hook.cpp:105-147 | a call returns ETIMEDOUT if and only if it comes back from a wait after a time-out of that or an earlier round has run; without a time-out on the descriptor never |
| HookedIo.EndsBecause | skt/hook/hook.cpp:107-151 | each result of a call and exactly what brings it about: the operation went through, it failed, the event could not be registered, or a late check of the flag |
| HookedIo.LateTimeOut | skt/hook/hook.cpp:116-147 | back from a round with the flag clear, the time-out of that round can fail a later one if and only if `timer->cancel()` came too late for it |
| HookedIo.StrikesNextRound | skt/hook/hook.cpp:116-147 | how it does: the next round registers and waits, the old time-out runs, the call returns ETIMEDOUT and the new timer never expired |
| HookedIo.LateTimeOutHappens | skt/hook/hook.cpp:116-147 | a run that gets there: the descriptor becomes ready just as the time-out expires |
| HookedIo.TimeOutArrives | skt/hook/hook.cpp:116-135 | time-outs alone can end a wait if and only if the flag is clear or its setter has not yet called `cancelEvent` |
| HookedIo.TimeOutLost | skt/hook/hook.cpp:116-135 | a run in which the time-out runs before the event is registered, and the wait that follows has none |
| LogPattern.ScanDirective | skt/log/log.cpp:443-479 | the inner loop finds name, format and end of a directive, or that the format is not closed; it always moves on |
| LogPattern.InitPieces | skt/log/log.cpp:429-496 | the outer loop ends on every pattern with the pieces of the grammar |
| LogPattern.InitItems | skt/log/log.cpp:514-528 | unknown names become error text and set the error flag |
| LogPattern.Init | skt/log/log.cpp:425-530 | the items and the error flag of the pattern |
| LogPattern.DirectiveMeans | skt/log/log.cpp:443-525 | text, a directive with or without a format, text: a field and no error exactly when the name is one of m, p, r, c, t, n, d, f, l, T, F, N; otherwise the error text with the name, and the error flag |
| LogPattern.UnclosedMeans | skt/log/log.cpp:484-496 | a format that is not closed: the pattern error text first, then the directive as literal text joined to the text before it, and the error flag |
| LogPattern.PercentMeans | skt/log/log.cpp:435-441 | two percent signs are one in the literal text |
| LogPattern.DefaultPattern | skt/log/log.cpp:97-99 | the pattern of a new logger gives its twenty-two items and no error |
| LogPattern.PrintThenParse | skt/log/log.cpp:425-530 | parsing the printed form of any canonical item list gives that list without error |
| LogPattern.ErrorFreeIsCanonical | skt/log/log.cpp:425-530 | every pattern that parses without error gives a canonical list, and means what its printed form means |
| Ipv6Text.WordsAreGroups | skt/address/address.cpp:385-399 | swapped host words are the groups of the address, zero exactly together, on any host |
| Ipv6Text.InsertGroups | skt/address/address.cpp:387-403 | the loop prints the groups with the first run of zeros as a double colon |
| Ipv6Text.Insert | skt/address/address.cpp:383-407 | from the network-order bytes on any host: the address in brackets, then the port; reading the text gives back the eight groups 256 * high byte + low byte and the port |
| Ipv6Text.HexDigit | skt/address/address.cpp:399 | a group is printed in lower-case base-16 digits, highest first |
| Ipv6Text.DecimalDigit | skt/address/address.cpp:405 | the port in base-10 digits, highest first |
| Ipv6Text.NoLeadingZero | skt/address/address.cpp:399-405 | neither with a leading zero, but for zero itself |
| Ipv6Text.AtMostOneDouble | skt/address/address.cpp:387-403 | the text has a double colon exactly when some group is zero, and at one place only |
| Ipv6Text.ExpandCompressed | skt/address/address.cpp:383-407 | reading the text by section 2.2 of RFC 4291 gives back exactly the eight groups, for every address |
| Ipv6Text.ReadAddressBack | skt/address/address.cpp:383-407 | the bracketed text and decimal port determine the eight groups and the port |

## Left out

- Context switching, `epoll_wait`, locks, thread-local variables and clocks: each is an atomic step, a program counter that stands for a held lock, or a parameter. A kernel call that fails for a reason of its own is the parameter `refuse` of the `IOManager` methods; in the interleaving such a call is no step.
- `Fiber` as an object updated in place: the interleaving keeps fibers as values with a state and what they will do; `call`, `back`, stacks and destructors are not modelled.
- The text of `do_io`: its registration, parking, resumption and time-out are the steps WaitEvent, YieldToHold, SwapIn and Cancel. Its rounds, timers and `cancelled` flag are the subject of `HookedIo`, one call at a time; what it asks before the first try (hook switched off, unknown, closed or non-blocking descriptor) and a `delEvent` by someone else during the wait are not modelled there.
- The unlocked gap between look-up and growth in `addEvent` is one step.
- `listExpiredCb` inside `idle`: expired timers are queued one per step there; the exact list is the subject of `Timers` and `TimerManager`. Recurring timers carry no wake-ups in the interleaving.
- All liveness.
- A delivery that fails is one step in the interleaving and ends the run; what it leaves behind is the subject of `IoManager.IOManager.Deliver`.
- `tickle`, its pipe, and the start and stop of threads.
- Timers.NoLostWakeUp: assumes a clock that never goes back, sums that stay within a word, and no rollover, as the promise does.
- Timer addresses are never used twice in a run.
- The number of new blocks is the exact ceiling; the original takes it in `double`, which differs above 2 to the 53rd. Sizes do not wrap.
- `getReadBuffers` (its loop compares with the original total), the positional `read` from outside the current block, `writeToFile` and `readFromFile`, `toHexString`.
- Float, double and `StringVint` round trips: writer and reader use different encodings.
- BlockSizes.SameForAnyBlockSize: covers seeks within the size and non-empty reads; beyond those the block size shows, and BlockSizes.RunAny says what a run on one array does.
- IPv4, masks, prefixes and address look-up; the log sinks, levels and formatting of events.
- The generated HTTP and URI machines, HTTP session, connection and pool, sockets, streams, servlets, configuration, environment, daemon: input and output around the parts above, or easy members.
