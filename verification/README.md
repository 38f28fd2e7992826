# Verified models of the LinuxProCamp driver exercises

Dafny models of the parts of this repository in which state and interleaving are hard to get right,
with machine-checked proofs about every run of them.

* **The transfer pipeline of HW12.** `send_data2.c` cuts a file into chunks and hands each to the
  driver through a mailbox in shared memory; a polling worker moves chunks into a circular buffer;
  any number of blocking readers drain it. `PlatDummy.dfy` and `Sender.dfy` are the code of one party
  at a time, in place on arrays; `Pipeline.dfy` is all parties together as a step system of memory
  accesses, lock operations and wait-queue operations. A step without the mutex makes at most one access
  to memory that another party may be using; a step under the mutex may join accesses of which others
  can see only one: `WStore` reads a mailbox byte, stores it in the buffer and increments the write
  index, and only the index is looked at without the mutex. Both use the ring functions
  of `Ring.dfy`; `PipelinePoll.dfy` and `PipelineRead.dfy` show that the steps of the worker, the sender
  and a reader, run alone, add up to what their code does in one call.
  `PipelineSafety.dfy` holds the invariant, `PipelineTheorems.dfy` what every reachable state satisfies,
  `PipelineProgress.dfy` when a transfer can finish, `PipelineFairness.dfy`
  that every fair run does, `PipelineFairRuns.dfy` that there are fair runs.
* **The event ring of HW9.** `EventRing.dfy` is the ring of slots filled and rotated by a timer
  callback and zeroed by an interrupt callback; `EventRuns.dfy` is every interleaving of the two.
* **The button and LED driver of HW16 and its program.** `Hw3Device.dfy` is the state under the
  spinlock, `Hw3System.dfy` interrupt handler, readers, writers, pollers and ioctl callers together,
  `Hw3Calls.dfy` single steps, whole read calls and the origin of every event of a history,
  `Hw3App.dfy` the program as the driver's only client.
* **The counting threads of HW10** in `MutexCounter.dfy`.

`dafny verify dfyconfig.toml` checks everything.

## Main results

1. HW12, safety: whatever the interleaving, delivered bytes, ring, mailbox and unsent bytes always add
   up to the file, in order (`Conservation`); every chunk enters the ring exactly once
   (`ExactlyOnce`); the system refines a byte pipe (`RefinesFifo`); no reader sleeps on data without a
   wake-up on its way (`NoLostWakeup`). A read hands out exactly the front of the stream, as much as was
   asked for or lies in one piece (`UndisturbedRead`), and over every run never more than its caller
   asked for (`NobodyGetsMoreThanAsked`).
2. HW12, completion: a fair run delivers the whole file if and only if the first chunk,
   `min(length, M)` bytes, is at most `N - 1` long, and otherwise delivers nothing at all
   (`FairRunDeliversIff`); fair runs exist (`FairRunsExist`). Without any assumption about fairness, if
   the first chunk fits and there is a reader, completion stays reachable from every reachable state
   (`CompletionStaysReachable`). With the sizes
   in the repository, 512 and 4096, a file of 512 bytes or more never arrives (`RepositorySizes`).
3. HW12, overrun: `plat_dummy_write` has no space check; what it does to the stream when it overruns
   the reader is stated exactly (`PlatDummy.Write`).
4. HW9: the ring is a bounded queue and no event number is lost, repeated or reordered except those
   refused while all slots are full; an event can still be reported as "no filled slot", exactly when the
   low 32 bits of its clock reading are zero (`SilentEvents`, `SilentEventHappens`); past the int range
   the order breaks, and exactly when is stated too (`WrapBreaksOrder`, `WrapIsReachable`).
5. HW16: the LED is a fold of the history, reads coalesce interrupts, and the program's cached LED
   state agrees with the driver's at every loop head. The button does not always work again after the
   program: once the hand-over has gone through, it does if and only if all twenty polls reported data and
   the last ioctl went through (`ExitState`). One timeout is enough to lose it
   (`FailedPollLeavesButtonDead`), and so is a failing last ioctl, with exit status 0
   (`StatusZeroEitherWay`).
6. HW16: SETLED does not always hand back what it set; when it does is stated exactly, for every
   interference between its two sections (`SetLedEcho`, `EchoDiffers`). The histories these results speak
   of are what happened, step by step (`HistoryIsWhatHappened`); a read waits, fails or takes exactly as
   its call and the device demand (`TestStep`, `BlockingReadWaits`, `NonblockingReadFails`).
7. HW10: the log is 1, 2, 3 and so on (`LogCountsUp`), and every such log happens, whichever threads take
   the turns (`EveryLogHappens`).

## What is assumed

* Memory is sequentially consistent; a section under a spinlock and the wake-up of a whole wait queue
  are one step each.
* HW12: one sender; at the start the flag is clear and no worker run is in progress; the delayed work
  item never runs concurrently with itself; `copy_to_user` and `copy_from_user` succeed or change
  nothing. N (buffer), M (mailbox), the number of readers and the order in which the unlocked wait
  condition loads the two indices are parameters.
* HW12, liveness only: the scheduler and the mutex are strongly fair to every process, signals and
  failing copies cease at some point, and at least one reader keeps asking for at least one byte.
* HW9: the ring has at least one slot, and the timer callback does not run concurrently with itself.
  Promises about numbers hold for the first 2^31 - 1 ticks, the range of the int counter. The module
  as written stops its timer after 15 ticks (HW9/spinlock.c:64, 95), so its own counter never gets that
  far; `WrapBreaksOrder` is about the timer without that countdown.
* HW16: runs start after probe has returned, with no interrupt taken during probe; the handler does
  not interrupt itself. The program's GETLED call succeeds, and nobody else uses the driver meanwhile;
  both of its KERN_CONTROL calls may fail.
* HW10: promises hold as long as the int counter has not wrapped.

## Where the code and its documentation differ

* HW12/platform_test.c:22 gives the size register the range 0..4095; the sender writes up to 4096
  (HW12/send_data2.c:124-129) and the worker accepts it (HW12/platform_test.c:209-210). The model
  follows the code.
* HW16/module3/hw3.c:89 speaks of a newline from `echo`; the code reads ten bytes whatever the count
  and looks only at the first. The model follows the code.

## From source to steps

| source | steps |
|---|---|
| HW12/send_data2.c:119-131 | `Pipeline.SenderApply`: `SStart` 119, `STest` 120, `SPoll` 121, `SCopy` 124-128, `SSize` 129, `SFlag` 130 |
| HW12/platform_test.c:198-230 | `Pipeline.WorkerApply`: `WIdle` 198-200, `WLock` 202, `WSize` 206-210, `WCheck` 212-214, `WGiveUp` 215, `WStore` 219-220 and 226, `WWrap` 222-223, `WWake` 227, `WClear` 229-230 |
| HW12/platform_test.c:83-115 | `Pipeline.ReaderGo`: `WantLock` 83 and 94, `Test` 88, `EmptyUnlock` 89, `WaitFast` to `Dequeue` 91 with the two loads of each test apart (`WaitFast` and `WaitFastThen`, `WaitCheck` and `WaitCheckThen`), `CopyOut` 100-105, `FaultUnlock` 106, `Advance` 109, `WrapRp` 110-111, `Unlock` 112 |
| HW9/spinlock.c:68-93, 103-135 | `EventRuns.Apply`: `Tick` 68-69, `FillFirst` 79-93, `Interrupt` 109-125 |
| HW16/module3/hw3.c:53-65, 95-100, 113-116, 128-150, 176-185 | `Hw3System.Apply`; of an ioctl caller, `CallSetLed` 132-135, `FallThrough` and `CallGetLed` 139-141 |
| HW16/module3/hw3-app.c:33-75 | `Hw3App.Apply`: `HandOver` 33-37, `Snapshot` 39, `LoopHead` 43, `Polling` 45-56, `Reading` 58, `Handling` 65-68, `Writing` 69, `LoopEnd` 43, `Restore` 73-75 (`RestoreFails` when line 74 fails) |
| HW10/threads.c:18-27 | `MutexCounter.Apply`: `LoopTest` 18, `WantLock` 21, `Load` and `Store` 22, `Print` 23, `Unlock` 25 |

## Model

| member | source | states |
|---|---|---|
| PlatDummyDevice.PlatDummy.constructor | HW12/platform_test.c:236-241 | a new device has an empty stream and a clear flag |
| PlatDummyDevice.PlatDummy.InitDataBuffer | HW12/platform_test.c:236-241 | resetting both indices empties the stream |
| PlatDummyDevice.PlatDummy.FreeSpace | HW12/platform_test.c:71-76 | free space and stream length add up to the buffer size less one |
| PlatDummyDevice.PlatDummy.Read | HW12/platform_test.c:78-116 | which outcome occurs when; a copying read hands out and removes exactly a prefix of the stream, as long as the count and the contiguous run allow; every other outcome changes nothing |
| PlatDummyDevice.PlatDummy.TakeOut | HW12/platform_test.c:97-111 | the copying end of a read: what is handed out and what remains are the old stream, and the length handed out is exact |
| PlatDummyDevice.PlatDummy.Write | HW12/platform_test.c:117-143 | exact total contract: the data up to the end of the buffer is appended if one slot stays free, else the oldest bytes, one bufferful, vanish from stream and data together |
| PlatDummyDevice.PlatDummy.PutByte | HW12/platform_test.c:220-223 | one turn of the copy loop appends one byte, wrapped or not |
| PlatDummyDevice.PlatDummy.AppendMailbox | HW12/platform_test.c:219-224 | the copy loop appends exactly the first `count` mailbox bytes |
| PlatDummyDevice.PlatDummy.Work | HW12/platform_test.c:184-234 | all or nothing: the first min(size, M) mailbox bytes are appended, bit 0 of the flag register cleared and its other bits kept, if and only if bit 0 is set, the lock is granted and they fit; otherwise nothing changes |
| PlatDummyDevice.PollTwice | HW12/platform_test.c:198-233 | a chunk is taken by at most one of two polls, and whichever takes it leaves the ready bit clear |
| Ring.SpaceAccounting | HW12/platform_test.c:71-76 | used plus free is the size less one; equal indices mean empty, never full |
| Ring.StoreAppends | HW12/platform_test.c:220 | a store at the write index followed by the increment appends the byte |
| Ring.WrapWriteKeeps | HW12/platform_test.c:222-223 | wrapping the write index keeps the stream |
| Ring.RemovesPrefix | HW12/platform_test.c:109-111 | moving the read index by any `k` within the contiguous run, with its wrap, removes exactly the first `k` bytes, the ones at the old index |
| Ring.ReadRemovesPrefix | HW12/platform_test.c:100-111 | what a read hands out and what it leaves are the old stream; it hands out something when the count is not 0 |
| Ring.TwoReadsDrain | HW12/platform_test.c:100-111 | two reads of at least the buffer size return everything in order; one is enough exactly when the data does not wrap |
| Ring.WriteExact | HW12/platform_test.c:127-135 | the bytes laid down and the moved index give exactly the stream promised for a write, overrun included |
| Sender.ChunksSpellFile | HW12/send_data2.c:120-129 | the chunks spell the file, none is empty, all but the last are full |
| Sender.Mailbox.CopyIn | HW12/send_data2.c:126 | the data area begins with the chunk afterwards |
| Sender.Mailbox.PublishChunk | HW12/send_data2.c:124-130 | one turn publishes exactly the next min(length left, M) bytes |
| Sender.PublishingKeepsChunks | HW12/send_data2.c:120-130 | published chunks and the chunks of the rest always make up the chunking of the file |
| Sender.Mailbox.SendFile | HW12/send_data2.c:119-131 | the sending loop publishes exactly the chunks of the file, in order, after the chunks already taken; a chunk pending at entry is lost, because line 119 clears the flag |
| PipelinePoll.UndisturbedPoll | HW12/platform_test.c:184-234 | the worker's single steps, run without interference, do what `Work` does in one call: the whole chunk is appended, the flag cleared and everybody woken if a chunk is pending and fits, else the state is as before |
| PipelinePoll.InterruptedPoll | HW12/platform_test.c:200-203 | a poll interrupted at the mutex has changed nothing |
| PipelinePoll.UndisturbedSend | HW12/send_data2.c:120-130 | the sender's single steps, run without interference, do what `PublishChunk` does: the mailbox holds exactly the next min(length left, M) bytes, READY is set, nothing else has changed |
| PipelinePoll.SenderStarts | HW12/send_data2.c:119-120 | the flag is clear after line 119 whatever it was; the loop is over at once exactly for an empty file |
| PipelineRead.UndisturbedRead | HW12/platform_test.c:83-112 | on a ring that is not empty, a call for `want` bytes run without interference hands out exactly the front of the stream, `want` bytes or the contiguous run, whichever is smaller, takes just these off the stream and leaves everything else as it was |
| PipelineRead.WaitingReadCompletes | HW12/platform_test.c:88-112 | the same from every place of the wait loop |
| PipelineRead.EmptyReadSleeps | HW12/platform_test.c:83-91 | on an empty ring the reader ends up on the wait queue, asleep, and nothing else changes |
| PipelineRead.InterruptedAtMutex | HW12/platform_test.c:83-84 | a signal at the mutex ends the call with nothing changed |
| PipelineRead.InterruptedAsleep | HW12/platform_test.c:91-92 | a signal during sleep on an empty ring ends the call, off the queue, with nothing else changed |
| PipelineRead.FaultedRead | HW12/platform_test.c:105-108 | a failing copy ends the call with the ring as before and nothing handed out |
| PipelineRead.NobodyGetsMoreThanAsked | HW12/platform_test.c:97-112 | over every run, each slice was handed out by a step of its reader and is at most as long as that reader's last call asked for, non-empty if it asked for anything |
| PipelineSafety.SenderKeeps | HW12/send_data2.c:119-131 | every step of the sender keeps the pipeline invariant |
| PipelineSafety.WorkerKeeps | HW12/platform_test.c:198-231 | every step of the worker keeps it |
| PipelineSafety.ReaderKeeps | HW12/platform_test.c:83-115 | every step of every reader keeps it, interrupted and failing ones included |
| PipelineSafety.ReachableInv | HW12/platform_test.c:78-231 | mutual exclusion, index bounds, mailbox ownership, stream accounting and sleep safety hold in every reachable state |
| PipelineTheorems.Conservation | HW12/send_data2.c:119-131 | delivered bytes, ring, chunk in the mailbox and unsent bytes are the file, in every reachable state |
| PipelineTheorems.MailboxOwnership | HW12/send_data2.c:121-130 | while READY is set, data area and size register stand still, and only the worker's last step clears it |
| PipelineTheorems.ExactlyOnce | HW12/platform_test.c:198-231 | published and accepted chunks are prefixes of the chunking of the file, at most one apart; everything that ever entered the ring is the accepted chunks plus the copied part of the current one |
| PipelineTheorems.ReadersGetDisjointPieces | HW12/platform_test.c:97-112 | slices handed to readers lie back to back in the file in lock order, within what was asked for, non-empty if anything was asked for |
| PipelineTheorems.LeavesWaitLoopWithData | HW12/platform_test.c:88-103 | a reader past its wait loop holds the mutex and sees a non-empty ring |
| PipelineTheorems.NoLostWakeup | HW12/platform_test.c:88-96 | a queued sleeper and a non-empty ring imply that the worker's wake-up is still to come, although the two loads of the wait condition are separate steps without the mutex |
| PipelineTheorems.SpaceAccountingAlways | HW12/platform_test.c:71-76 | whenever the mutex is free the indices are in range and used plus free is N - 1 |
| PipelineTheorems.CountersMoveAlone | HW12/platform_test.c:198-231 | a step moves at most one of the three stream positions, never backwards |
| PipelineTheorems.RefinesFifo | HW12/send_data2.c:119-131 | every step of the system is a step, or none, of an abstract byte pipe |
| PipelineTheorems.RefinesFifoInitially | HW12/send_data2.c:119-120 | at the start the abstract pipe holds the whole file unsent |
| PipelineProgress.WeightNeverGrows | HW12/platform_test.c:209-217 | the weighted number of bytes still to travel never grows and shrinks exactly when bytes move |
| PipelineProgress.SomethingHelps | HW12/platform_test.c:83-112 | if the first chunk fits and there is a reader: in every state short of completion some process has a step that moves bytes or comes closer to it |
| PipelineProgress.CompletionStaysReachable | HW12/platform_test.c:198-231 | if the first chunk fits and there is a reader: from every reachable state, whatever happened before, the transfer can still be completed |
| PipelineProgress.NothingIsEverDelivered | HW12/platform_test.c:212-217 | if the first chunk does not fit, no reachable state has delivered a byte |
| PipelineProgress.OversizedChunkStaysPending | HW12/platform_test.c:212-217 | a pending chunk longer than N - 1 is never accepted |
| PipelineProgress.CompletesIff | HW12/send_data2.c:120-131 | a transfer can complete if and only if the file is empty, or somebody reads and the first chunk is at most N - 1 long |
| PipelineProgress.RepositorySizes | HW12/platform_test.h:6 | with N = 512 and M = 4096 exactly the files shorter than 512 bytes can arrive |
| PipelineFairness.FreeAfter | HW12/platform_test.c:83-112 | in a fair run the mutex is free again and again |
| PipelineFairness.WakeComes | HW12/platform_test.c:219-227 | in a fair run a pending wake-up is executed |
| PipelineFairness.QuietMeansAsleep | HW12/platform_test.c:88-96 | a reader that never moves again in a fair run is asleep on the wait queue |
| PipelineFairness.FullRingMoves | HW12/platform_test.c:88-112 | once bytes stop moving in a fair run, the ring is empty |
| PipelineFairness.FairRunDelivers | HW12/platform_test.c:78-231 | every fair run delivers the whole file if its first chunk fits |
| PipelineFairRuns.SettlesFrom | HW12/platform_test.c:83-112 | once everything is delivered, sender and worker come to rest and the reader falls asleep on the empty ring |
| PipelineFairRuns.FairRunsExist | HW12/platform_test.c:78-231 | for every configuration with a reader and a first chunk that fits, there is a fair run |
| PipelineFairness.FairRunDeliversIff | HW12/platform_test.c:209-217 | a fair run delivers the file if and only if its first chunk fits, and not a byte otherwise |
| EventRing.FillPushes | HW9/spinlock.c:80-92 | fill-and-rotate keeps the shape and is a push on a bounded queue |
| EventRing.ZeroPops | HW9/spinlock.c:111-124 | zeroing the first filled slot keeps the shape and is a pop |
| EventRing.EventList.constructor | HW9/spinlock.c:150-168 | as many slots as allocations succeeded, all empty |
| EventRing.EventList.Tick | HW9/spinlock.c:68-69 | the counter stays an int and goes up by one modulo 2^32; the stored time is the int with the low 32 bits of the clock reading |
| EventRing.EventList.FillFirst | HW9/spinlock.c:79-93 | the locked part fills and rotates, or reports an overflow exactly when no slot is free at the head |
| EventRing.EventList.IrqSimulation | HW9/spinlock.c:109-125 | the walk takes out and zeroes the first filled slot, or finds none |
| EventRuns.RingKeepsShape | HW9/spinlock.c:68-93 | in every reachable state: no slot lost, a block of empty slots, then strictly increasing numbers |
| EventRuns.EventsArePartitioned | HW9/spinlock.c:68-135 | consumed, queued and dropped numbers partition those offered; consumed and queued ones increase strictly; times belong to their numbers |
| EventRuns.RefinesBoundedQueue | HW9/spinlock.c:68-125 | every step is a push, a pop, a drop at capacity or nothing on a bounded first-in first-out queue |
| EventRuns.SilentEvents | HW9/spinlock.c:126-135 | a consumed event carries time 0, and so is reported as absent, exactly when the low 32 bits of its clock reading are zero |
| EventRuns.SilentEventHappens | HW9/spinlock.c:126-135 | a run of three steps in which event 1 is taken out with time 0 |
| EventRuns.WrapBreaksOrder | HW9/spinlock.c:68-93 | after tick 2^31 the events are still in order if and only if it found no free slot or nothing entered before it |
| EventRuns.WrapIsReachable | HW9/spinlock.c:68-93 | for every number of slots some run, without the countdown, gets there and breaks the order |
| Hw3Device.SprintfWriteRoundTrip | HW16/module3/hw3.c:85-99 | printing a value and writing it sets the LED to that value, from every state, if and only if it is 0 or 1 |
| Hw3Device.DigitsSpell | HW16/module3/hw3-app.c:68 | the digits printed are digits and stand for the value printed |
| Hw3Device.Hw3.BtnIsr | HW16/module3/hw3.c:176-183 | the handler's critical section changes the whole device state as specified |
| Hw3Device.Hw3.Read | HW16/module3/hw3.c:53-71 | which outcome occurs when; data is consumed exactly when it was ready, even if the copy fails |
| Hw3Device.Hw3.WriteBuffer | HW16/module3/hw3.c:85-102 | a buffer is refused exactly when it does not begin with a digit, and then, or if it is unreadable, nothing changes; otherwise LED and LED line are off for '0' and on for every other digit |
| Hw3Device.Hw3.Ioctl | HW16/module3/hw3.c:127-157 | results and state of all four commands for every argument; SETLED can change the LED and still fail |
| Hw3System.StepKeeps | HW16/module3/hw3.c:53-185 | every step of handler, readers, writers, pollers and ioctl callers keeps the invariant |
| Hw3System.NoLostWakeup | HW16/module3/hw3.c:54-61 | a queued sleeper and ready data imply that the handler's wake-up is still to come |
| Hw3System.EventCoalescing | HW16/module3/hw3.c:63-65 | data is ready exactly when an interrupt followed the last consuming read; reads never outnumber interrupts |
| Hw3System.ReadsTakeLatest | HW16/module3/hw3.c:63-65 | a consuming read takes the level of the latest interrupt, which nobody took before |
| Hw3System.AgainAfterPollIn | HW16/module3/hw3.c:53-57 | after POLLIN a read fails with -EAGAIN only if somebody took the data in between |
| Hw3System.FirstReadAfterPollInConsumes | HW16/module3/hw3.c:113-116 | the first read after POLLIN consumes, so a sole reader never sees -EAGAIN |
| Hw3System.LedIsFoldOfHistory | HW16/module3/hw3.c:176-183 | LED line and `led_on` equal the value last set xor the parity of the presses since, counted while kernel control was on |
| Hw3System.HandsBackCurrentLed | HW16/module3/hw3.c:138-143 | GETLED and SETLED hand back the LED as the history up to their reading section says it is |
| Hw3System.SetLedEcho | HW16/module3/hw3.c:128-143 | whatever happens between its two sections, SETLED hands back what it set if and only if the last value set by then, xor the parity of the presses since under kernel control, is that value |
| Hw3System.EchoDiffers | HW16/module3/hw3.c:132-141 | a press, or another client's write, between the sections makes SETLED of 1 hand back 0 |
| Hw3Calls.WriteStep | HW16/module3/hw3.c:89-100 | in every reachable state a write is logged and sets the LED to whether its first character is another digit than 0; without a digit nothing changes |
| Hw3Calls.InterruptStep | HW16/module3/hw3.c:176-183 | in every reachable state the handler stores the level, marks data ready and toggles the LED exactly on a press while the history says kernel control is on |
| Hw3Calls.IoctlSteps | HW16/module3/hw3.c:132-150 | control and LED become 1 for every argument but 0; GETLED and the read-back of SETLED report the LED line |
| Hw3Calls.PollStep | HW16/module3/hw3.c:113-116 | a poll logs POLLIN if and only if an interrupt followed the last consuming read, and changes nothing |
| Hw3Calls.TestStep | HW16/module3/hw3.c:53-65 | the locked test consumes if data is ready, fails with -EAGAIN if not and the call is non-blocking, else waits with nothing changed |
| Hw3Calls.ReadTakes | HW16/module3/hw3.c:54-72 | with data ready a read under way, wherever it waits, takes the level and is over |
| Hw3Calls.BlockingReadWaits | HW16/module3/hw3.c:53-65 | a blocking read on a quiet device sleeps with nothing changed; the next interrupt and its wake-up let it take that interrupt's level |
| Hw3Calls.NonblockingReadFails | HW16/module3/hw3.c:53-57 | a non-blocking read on a quiet device fails with -EAGAIN and changes nothing |
| Hw3Calls.SignalEndsSleep | HW16/module3/hw3.c:58-59 | a signal ends the sleep and the call, with nothing else changed |
| Hw3Calls.HistoryIsWhatHappened | HW16/module3/hw3.c:53-185 | over every run: each event was logged by a step of its kind with the same argument, in order; no interrupt, accepted write or ioctl is missing; -EAGAIN belongs to a non-blocking call and only blocking calls wait |
| Hw3App.CacheCoherence | HW16/module3/hw3-app.c:33-71 | at every loop head the cached LED equals the driver's, and is the snapshot xor the parity of the releases read |
| Hw3App.ReadAfterPollSucceeds | HW16/module3/hw3-app.c:53-65 | the read after POLLIN always returns data, so no stale buffer is acted upon |
| Hw3App.ExitState | HW16/module3/hw3-app.c:33-79 | for every run that ends: kernel control is as it was if the hand-over failed, else back on if and only if all twenty polls reported data and the last ioctl did not fail, and with control off the button has no effect; the exit status is 1 before the first read, what the last read returned after it, and 0 after all twenty |
| Hw3App.ReadsLastLevel | HW16/module3/hw3-app.c:45-58 | a read takes the level of the last interrupt before it |
| Hw3App.PressTurn | HW16/module3/hw3-app.c:43-71 | a turn during which the button is pressed leaves the LED and its cached state |
| Hw3App.ReleaseTurn | HW16/module3/hw3-app.c:43-71 | a turn during which the button is released toggles both |
| Hw3App.PressAndRelease | HW16/module3/hw3-app.c:43-71 | over a press and a release the LED changes once |
| Hw3App.FailedPollLeavesButtonDead | HW16/module3/hw3-app.c:46-56 | runs with one timeout or failed poll after which a press no longer changes the LED, though it did before |
| Hw3App.RefusedHandOver | HW16/module3/hw3-app.c:34-37 | a run in which the hand-over is refused leaves the device as it was, with status 1 |
| Hw3App.StatusZeroEitherWay | HW16/module3/hw3-app.c:73-75 | runs that end with status 0, one with control back on and one with it off because the last ioctl failed |
| MutexCounter.MutualExclusion | HW10/threads.c:21-25 | two threads are never inside the locked section together |
| MutexCounter.LogCountsUp | HW10/threads.c:18-27 | the log is exactly 1, 2, 3 and so on; the counter is the sum of all increments |
| MutexCounter.Turn | HW10/threads.c:18-26 | a turn without interference counts by one, prints the new value, and leaves the mutex free and every thread where it was |
| MutexCounter.Turns | HW10/threads.c:18-26 | the threads may take turns in any order: the log counts on, and each thread's count is the number of its turns |
| MutexCounter.EveryLogHappens | HW10/threads.c:18-26 | every log 1 to n within the int range is reached, for every distribution of the turns |
| MutexCounter.StoppedStays | HW10/threads.c:18 | a thread told to stop never runs again and has changed nothing else |

## Left out

- HW8: page rounding, the pattern loop and the page lookup; one-line arithmetic without interleaving.
- HW11: the same mailbox idea as HW12 with a worker that only prints.
- HW1 to HW7, HW13 to HW15, sharedLibraries: small demos and unmodified samples.
- Registration, probe and remove, character device dispatch, memory mapping, polling interval: calls into kernel interfaces without an invariant of their own.
- `plat_dummy_write` in the end-to-end runs: it neither checks for space nor wakes readers, so it has its own contract instead.
- PlatDummyDevice.PlatDummy.Read: the wait loop is not run inside the method, which reports `Sleeps`; waiting and waking are steps of the pipeline system, and whole calls are in `PipelineRead`.
- Sender.Mailbox.SendFile: the busy wait is replaced by what ends it, the worker taking the chunk; the interleaved busy wait is `SPoll` in the pipeline system.
- Hw3Device.Hw3.Ioctl: run without interference; what happens between the two sections of SETLED is in `Hw3System`, where `SetLedEcho` is about every interference.
- The timer deadlines and countdowns of HW9: callbacks are interleaved freely and for as long as they like instead.
- The program of HW16 and the threads of HW10 appear only as steps over values, not as methods: every statement of theirs is a point where something else may happen.
- Printing, actual time, and the weak memory ordering of the hardware.
