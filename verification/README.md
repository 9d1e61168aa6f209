# Verification of the STBx25xx transport demultiplexer driver

This project models the driver of the STBx25xx transport demultiplexer and of the clip and playback
devices beside it, and proves what the driver is for: data that the hardware writes into shared
memory stays intact until the application gives it back, filters live in one hardware list that is
rewritten in place and always stays whole, and buffers lose, repeat and reorder nothing.

## How the model is laid out

Code that changes state in place is a class whose methods have the branches, loops and errors of the
C functions. Each is specified by functions and predicates on values, and the main results are lemmas
about those, or contracts of the methods themselves.

| modules | what they model |
|---|---|
| `Ring`, `QueueModel`, `QueueSafety`, `QueueRuns`, `QueueProgress`, `QueueDelivery`, `QueueLimits`, `DramQueue` | a channel's queue in DRAM: locks released in any order, stall recovery, what the hardware gets back, the driver's deliveries, hardware steps, runs of all of them |
| `FilterGrid`, `FilterSplice`, `FilterErase`, `FilterHardware` | the doubly linked list of filter blocks, laid out column by column, its insertion and its deletion |
| `FilterTables`, `FilterSteps`, `FilterMoves`, `FilterRules`, `FilterPool` | filters, channel tables and block ownership, with deletion and freeing put off |
| `FilterMatch`, `FilterCheck`, `TableWalk`, `SectionLocks` | comparing a section in software and in hardware, deciding which filters it is for, walking a delivery, and locking what it holds while hardware and application go on |
| `CircularBuffer`, `SectionBuffer`, `DemuxCallbacks`, `SectionDelivery` | copying from the queue into a filter's buffer, reading it, and the whole way of a section into the buffers of its filters |
| `ClipPool`, `ClipDevice`, `AudioWriter` | the pool of audio segments, the clip device, and a user's write cut into clips |
| `PvrPlayback` | the two halves of the playback buffer and the piece that waits |
| `ClockRecovery` | one reference interrupt, and the drift over many |
| `InterruptRegistry`, `InterruptMasks` | callbacks, their dispatch, and the masks in hardware |
| `Channels` | allocating, disabling and freeing a channel, over the filter pool, the queues and the interrupts |

`Demux` in `Channels` holds the filter pool and the interrupts and keeps one queue value per channel;
it reaches the filter and interrupt code through the methods proved elsewhere, so freeing a channel is
proved over the real pool operations.

The queue is covered in three layers. `QueueRuns` has steps on the queue alone and says which of them
are safe. `QueueDelivery` adds the driver's own account of what it has read, and derives from it that
what it locks was delivered. `SectionLocks` adds the table loop, reading record lengths from a memory
that the hardware goes on writing to. Each layer's runs are proved to be runs of the layer below, so the
main result, that a locked byte keeps its value until it is given back, holds for section channels and
for stream channels alike. `QueueProgress` is the other half: what is given back is really handed to the
hardware again, and a stall ends.

What the code computes on bits and bytes is tied to what it means by definitions that share nothing with
the code: equality under a mask, binary digits of a number, bits set in both of two words, the true time
of a clock.

## What the model takes for granted

- A step is atomic: what the driver does under its mutex or in a critical section is one step, and
  hardware writes, user calls and interrupts come in any order between steps.
- The hardware writes less than the room between its write pointer and the read pointer. What it
  writes is arbitrary.
- Addresses are offsets in the queue memory (queue address 0 on the bus), because
  `xp_osi_queue.c:272-278` compares a 24-bit index with a whole address. Queue memory is
  made of whole 4096-byte blocks, as allocation makes it.
- A delivery's start is below the queue's end; the start is made canonical at `xp_osi_queue.c:2884`.
- What the hardware delivers on a section channel is a whole number of records (`SectionLocks.HasRecords`).
- For the safety of runs, applications give whole regions back. `UnlockData` itself is specified for
  any region, held or not, whole or in part.
- A filter's data and mask, where they are given, are as long as the filter.
- Memory allocation succeeds.
- A blocking wait either ends with what it waited for or is interrupted. What happens meanwhile is a
  parameter.

## Where the code does not keep a promise

The model does what the code does. Where a promise fails, the project shows a concrete case and says
exactly when the promise holds.

- Recovery takes a queue whose last lock ends where the first begins for an empty one
  (`xp_osi_queue.c:434`), and the pointers it sets can meet, which the hardware reads as an empty ring.
  It keeps the locks safe if and only if neither happens (`QueueSafety.RecoverySafeIff`,
  `QueueLimits.RestartMeetsReadPointerIff`). Stream deliveries lead to both (`QueueLimits.StreamRun`,
  `QueueLimits.UnalignedRun`); section deliveries lead to neither (`SectionLocks.HarmlessAllowed`).
- Read pointer errors are handled between deliveries. But if one leaves the queue stalled, the callback
  for a section of the next delivery may release a region and so recover the queue; that moves the hardware
  while the driver goes on with the old records (`QueueLimits.MidDeliveryRun`,
  `QueueLimits.RecoveryMidDelivery`, `QueueLimits.StaleRecordMisplacesLockPointer`). A record may still be locked if and only if it lies behind
  every lock and before the next delivery (`QueueSafety.LockSafeIff`), and the place noted at
  `xp_osi_queue.c:1415` is right if and only if the hardware was put exactly there
  (`QueueLimits.StaleDeliveryIff`).
- When 16 regions are held, the next is refused, but the driver treats it as processed
  (`QueueLimits.LockTakenIff`).
- `check_filters` compares a slot number with a number of filters (`xp_osi_filte.c:1390`), and its
  skip decision for a short section is left over from an earlier bit (1444-1458). A wanted bit
  survives exactly under the condition of `FilterCheck.WantedSurvivesIff`.
- `delete_filter` passes a block number where a filter number is expected (`xp_osi_filte.c:1298`).
  Which other filter is disabled by a removal, and when, is `FilterRules.StrayIff`; the contracts of
  the pool and of `Channels.Demux.Free` carry it, and `FilterPool.StrayExample` shows one.
- `xp_osi_filter_free_channel` clears its table even when a removal is put off, and then leaves
  filters that no table names. It keeps the pool sound if and only if nothing is put off
  (`FilterPool.FilterPool.FreeChannel`); freeing a channel disables it first, so nothing is.
- A section or a piece of a stream that no filter takes is never given back to the queue
  (`DemuxCallbacks.SectionCallback`, `DemuxCallbacks.StreamCallback`).
- Taken by itself, the copy into a filter's buffer puts the write index of a fresh buffer out of step
  when it is asked to copy nothing and the buffer's size does not divide 2^32 (`CircularBuffer.AdvanceInStep`).
  The driver does not ask for that: deliveries are never empty (`QueueDelivery.StreamDelivery`).
- The block count of a filter is computed in 16 bits. For lengths from 65532 on it can wrap to zero, and
  then a filter without blocks is allocated; exactly when is `FilterRules.NoBlocksIff`.
- The end-of-stream flag stays on a recycled audio segment (`AudioWriter.EndFlagReturns`).
- A change of playback mode is harmless if and only if nothing waits or the new unit divides what
  waits (`PvrPlayback.Playback.SetMode`), and a flush gives up the piece that waits.
- The clock's step is cut to 16 bits before it is clamped, and can go the wrong way
  (`ClockRecovery.WrongWay`); it does not if and only if the condition of `ClockRecovery.StepTakenIff`
  holds of the step in numbers without a width. A repeated reference divides by zero
  (`ClockRecovery.DivisionUndefined`, `ClockRecovery.DivisionDefined`). A reference that changes while it
  is read leaves a critical section open (`ClockRecovery.TornNeverLeaves`).
- The comment at `xp_osi_inter.c:98-102` promises that callbacks are called in the order of their
  registration. A registration takes the last free slot, so this holds exactly under the condition of
  `InterruptRegistry.CallOrderIff` for a new table and `InterruptRegistry.CalledLastIff` for any
  (`InterruptMasks.CallOrder` is a case).
- A registration without valid bits is counted for good once its slot is taken over: the count stays
  right if and only if no registration goes into a slot that still holds a callback
  (`InterruptRegistry.NotifyTable.AddMask`; `InterruptMasks.EmptyMaskLingers` is a case).
- Freeing a channel's registrations does not rewrite the queue mask; exactly the bits it alone had
  asked for stay enabled (`InterruptMasks.Interrupts.ChannelFree`).
- The number of available bucket channels ignores that there may be only one
  (`Channels.Demux.GetAvailable` and `Channels.Demux.Allocate`).

## Model

| member | source | states |
|---|---|---|
| `DramQueue.DramQueue.UpdateReadPointer` | docs/stbx25xx-driver/demux/xp_osi_queue.c:244-328 | the whole new queue state: the address rounded down to 256, the queue end instead of the base, and the stall cleared |
| `DramQueue.DramQueue.LargestGap` | docs/stbx25xx-driver/demux/xp_osi_queue.c:420-488 | the in-place scan finds the gap that LargestGapIsLargest shows to be largest |
| `DramQueue.DramQueue.ProcessReadPointer` | docs/stbx25xx-driver/demux/xp_osi_queue.c:338-636 | the whole new queue state of a recovery, whose safety RecoverySafeIff and whose effect RecoveryHandsOver decide |
| `DramQueue.DramQueue.Find` | docs/stbx25xx-driver/demux/xp_osi_queue.c:682-696 | the search stops at the first record that agrees with either end of the region |
| `DramQueue.DramQueue.Remove` | docs/stbx25xx-driver/demux/xp_osi_queue.c:720-734 | closing the hole in the array removes one record and keeps the order of the others |
| `DramQueue.DramQueue.UnlockData` | docs/stbx25xx-driver/demux/xp_osi_queue.c:646-840 | the whole new queue state and the status, for every region, held or not, whole or in part; what it comes to for the hardware is ReleaseHandsOver |
| `DramQueue.DramQueue.UnlockLength` | docs/stbx25xx-driver/demux/xp_osi_queue.c:2720-2908 | the same for a region given by start and length, with the address and length errors; `Channels.Demux.UnlockData` puts the checks of channel and queue in front |
| `DramQueue.DramQueue.Slot` | docs/stbx25xx-driver/demux/xp_osi_queue.c:2454-2468 | the place of a new record is before the first that starts above it |
| `DramQueue.DramQueue.InsertBefore` | docs/stbx25xx-driver/demux/xp_osi_queue.c:2480-2508 | moving records up and writing the hole inserts exactly one record |
| `DramQueue.DramQueue.LockData` | docs/stbx25xx-driver/demux/xp_osi_queue.c:2328-2540 | the whole new queue state of a lock or a skip, with the refusal when 16 regions are held |
| `DramQueue.DramQueue.UnlockRange` | docs/stbx25xx-driver/demux/xp_osi_queue.c:2594-2658 | exactly the records first to last of a sorted list are gone, whether locks touch or not and whatever recovery does in between |
| `DramQueue.DramQueue.ReadPointerInterrupt` | docs/stbx25xx-driver/demux/xp_osi_queue.c:1435-1519 | a read pointer error marks the queue stalled and recovers it |
| `DramQueue.DramQueue.StreamData` | docs/stbx25xx-driver/demux/xp_osi_queue.c:1202-1415 | a stream delivery: everything from the address read from to the start of the next packet is locked, and the next delivery is read from its end |
| `QueueSafety.InsertKeepsLaid` | docs/stbx25xx-driver/demux/xp_osi_queue.c:2436-2510 | the list stays sorted and disjoint with only the last record across the wrap |
| `QueueSafety.LockKeepsSafe` | docs/stbx25xx-driver/demux/xp_osi_queue.c:2328-2540 | locking a region that was delivered, or that lies in the free stretch behind the frontier, keeps the lock pointer first and the hardware window free of locks, wherever the locks begin and end |
| `QueueSafety.LockSafeIff` | docs/stbx25xx-driver/demux/xp_osi_queue.c:2328-2540 | while the list has room, locking a region keeps the queue safe if and only if the region lies behind every lock and before the next delivery |
| `QueueSafety.SkipKeepsSafe` | docs/stbx25xx-driver/demux/xp_osi_queue.c:2516-2530 | so does skipping one, which moves the read pointer only when nothing is held |
| `QueueSafety.SkipSafeIff` | docs/stbx25xx-driver/demux/xp_osi_queue.c:2516-2530 | skipping is safe if and only if the region ends behind all locks and before the next delivery, or, with no lock, not in the packet being written nor so close in front of it that rounding takes the read pointer behind it |
| `QueueSafety.UnlockRemovesExactly` | docs/stbx25xx-driver/demux/xp_osi_queue.c:2720-2908 | start and length find the held region again, across the wrap too, and only that record goes |
| `QueueSafety.UnlockFirstKeepsSafe` | docs/stbx25xx-driver/demux/xp_osi_queue.c:762-840 | releasing the first region moves the lock pointer to the next one in ring order, so the window grows over free bytes only |
| `QueueSafety.ReleaseOtherKeepsSafe` | docs/stbx25xx-driver/demux/xp_osi_queue.c:646-840 | releasing any other region, without recovery, leaves the window as it was |
| `QueueSafety.ReadPointerRounds` | docs/stbx25xx-driver/demux/xp_osi_queue.c:244-328 | the pointer written is a 256-byte boundary of the ring and never the base address |
| `QueueSafety.LargestGapIsLargest` | docs/stbx25xx-driver/demux/xp_osi_queue.c:420-488 | the gap chosen is one of the gaps between neighbouring locks, and none is larger |
| `QueueSafety.FirstOfLargest` | docs/stbx25xx-driver/demux/xp_osi_queue.c:434-488 | of gaps of the same size the scan takes the one it meets first, the one behind the last lock coming before the others |
| `QueueSafety.GapSizeExact` | docs/stbx25xx-driver/demux/xp_osi_queue.c:434-448 | the size computed for a gap is its true size unless the last lock ends where the first begins, when it is the whole ring instead of nothing |
| `QueueSafety.RecoveryPicksLargestGap` | docs/stbx25xx-driver/demux/xp_osi_queue.c:420-488 | in true ring distances: the chosen gap is a largest one and ends at a lock |
| `QueueSafety.RestartInsideGap` | docs/stbx25xx-driver/demux/xp_osi_queue.c:536-632 | in any gap of 256 bytes the new write and read pointers are aligned and delimit a part of it, and exactly when they meet |
| `QueueSafety.WordsRecoverable` | docs/stbx25xx-driver/demux/xp_osi_queue.c:338-636 | locks that start on words and do not touch can always be recovered |
| `QueueSafety.RecoverySafeIff` | docs/stbx25xx-driver/demux/xp_osi_queue.c:338-636 | for every safe queue: recovery keeps it safe if and only if the last lock does not end where the first begins and the new pointers do not meet |
| `QueueSafety.TouchingLocksAreOverrun` | docs/stbx25xx-driver/demux/xp_osi_queue.c:434-440 | when they touch, the hardware is restarted on the first byte of a lock with the whole ring as room |
| `QueueRuns.StepKeepsSafe` | docs/stbx25xx-driver/demux/xp_osi_queue.c:244-2908 | every step of hardware, demux thread and application keeps the queue safe; locks may touch, and only a recovery of a queue that cannot be recovered is excluded |
| `QueueRuns.RunKeepsSafe` | docs/stbx25xx-driver/demux/xp_osi_queue.c:244-2908 | after any run, every locked byte lies beyond the room the hardware has left |
| `QueueRuns.LockedBytesSurvive` | docs/stbx25xx-driver/demux/xp_osi_queue.c:244-2908 | over any run, on section and on stream channels, a byte of a locked region keeps its value until the region is released |
| `QueueRuns.UnlockSafeIff` | docs/stbx25xx-driver/demux/xp_osi_queue.c:2594-2658 | releasing record k, in any order, keeps the queue safe if and only if the queue can be recovered where the release recovers it |
| `QueueRuns.UnlockRangeRemovesRange` | docs/stbx25xx-driver/demux/xp_osi_queue.c:2594-2658 | the loop from last to first removes exactly that index range, also of locks that touch |
| `QueueRuns.UnlockRangeKeepsSafe` | docs/stbx25xx-driver/demux/xp_osi_queue.c:2594-2658 | and it keeps the queue safe when every recovery on the way finds a queue that can be recovered |
| `QueueRuns.FaultSafeIff` | docs/stbx25xx-driver/demux/xp_osi_queue.c:1475-1485 | a read pointer error is survived if and only if the queue can be recovered |
| `QueueRuns.StepKeepsUnread` | docs/stbx25xx-driver/demux/xp_osi_queue.c:1124-1425 | a delivered byte that was not looked at yet keeps its value as well |
| `QueueProgress.ReleaseHandsOver` | docs/stbx25xx-driver/demux/xp_osi_queue.c:760-840 | releasing the first lock of any safe queue, stalled or not, ends the stall and lets the hardware go on up to the frontier, or up to the next lock in ring order, within 255 bytes; the room does not shrink |
| `QueueProgress.RecoveryHandsOver` | docs/stbx25xx-driver/demux/xp_osi_queue.c:338-636 | a recovery ends a stall if and only if nothing is held or some gap has 256 bytes: the hardware goes on up to the frontier, or from the start of the gap up to the lock that ends it; without such a gap nothing changes |
| `QueueProgress.SkipHandsOver` | docs/stbx25xx-driver/demux/xp_osi_queue.c:2516-2530 | a skip lets the hardware go on up to its end when nothing is held, and otherwise leaves it alone |
| `QueueProgress.LockLeavesHardware` | docs/stbx25xx-driver/demux/xp_osi_queue.c:2382-2510 | a lock enters its region, moves the frontier, and changes nothing for the hardware |
| `QueueProgress.PartialRelease` | docs/stbx25xx-driver/demux/xp_osi_queue.c:646-745 | releasing a part at an end of a held region takes exactly the bytes of the part out of it and leaves the other records as they are |
| `QueueProgress.PartHandsOver` | docs/stbx25xx-driver/demux/xp_osi_queue.c:720-834 | releasing a part that begins with the first locked byte lets the hardware go on up to the part's end; any other part leaves it alone, or recovers a stalled queue |
| `QueueProgress.ReleaseFails` | docs/stbx25xx-driver/demux/xp_osi_queue.c:2790-2898 | exactly when a release by start and length is refused, with what, and that nothing changes then |
| `QueueProgress.ResetEmpties` | docs/stbx25xx-driver/demux/xp_osi_queue.c:1925-1961 | after a reset nothing is held and the whole ring is room for the hardware |
| `QueueDelivery.StepAllowed` | docs/stbx25xx-driver/demux/xp_osi_queue.c:1202-1415 | what the driver locks or skips of a delivery has been delivered, by its own bookkeeping of where it reads from |
| `QueueDelivery.StepKeepsReady` | docs/stbx25xx-driver/demux/xp_osi_queue.c:1202-1415 | frontier, address read from and start of the next packet stay in this order, through recoveries between deliveries and any step that does not move the hardware during one |
| `QueueDelivery.DriverRunIsAllowed` | docs/stbx25xx-driver/demux/xp_osi_queue.c:1124-1425 | any run of deliveries, releases, hardware steps and recoveries is a run that keeps the queue safe |
| `QueueDelivery.DriverKeepsLockedBytes` | docs/stbx25xx-driver/demux/xp_osi_queue.c:1124-1425 | so over any such run a locked byte keeps its value until its region is released |
| `QueueDelivery.StreamDelivery` | docs/stbx25xx-driver/demux/xp_osi_queue.c:1385-1415 | a stream delivery is never empty, is locked as a whole where the one before it ended, and the next begins at its end |
| `QueueDelivery.StreamTakesIff` | docs/stbx25xx-driver/demux/xp_osi_queue.c:1228-1260 | a stream's interrupt takes something exactly when the next packet starts elsewhere than was read to |
| `QueueLimits.StreamRun` | docs/stbx25xx-driver/demux/xp_osi_queue.c:1124-1425 | a run of the driver from a reset queue, of back-to-back stream deliveries, that makes last and first lock touch |
| `QueueLimits.StreamRecoveryOverrunsLock` | docs/stbx25xx-driver/demux/xp_osi_queue.c:434-440 | in that state recovery passes over 3328 free bytes and restarts on a locked one |
| `QueueLimits.RestartMeetsReadPointerIff` | docs/stbx25xx-driver/demux/xp_osi_queue.c:536-632 | exactly when the restarted write pointer lies on the new read pointer, in any gap of 256 bytes |
| `QueueLimits.UnalignedRun` | docs/stbx25xx-driver/demux/xp_osi_queue.c:1385-1415 | a run from a reset queue with a stream lock that starts off a word boundary |
| `QueueLimits.UnalignedLockLosesWindow` | docs/stbx25xx-driver/demux/xp_osi_queue.c:536-632 | in the state of that run a recovery makes the pointers meet |
| `QueueLimits.StalledRun` | docs/stbx25xx-driver/demux/xp_osi_queue.c:1475-1485 | a run from a reset queue to a read pointer error that finds no gap of 256 bytes, so the queue stays stalled |
| `QueueLimits.MidDeliveryRun` | docs/stbx25xx-driver/demux/xp_osi_queue.c:1124-1425 | a run from a reset queue in which a queue that stayed stalled gets another delivery, of which one section is locked and the next not looked at |
| `QueueLimits.RecoveryMidDelivery` | docs/stbx25xx-driver/demux/xp_osi_queue.c:720-834 | a release from the callback then recovers the stalled queue and moves hardware and frontier into the gap it leaves |
| `QueueLimits.StaleRecordMisplacesLockPointer` | docs/stbx25xx-driver/demux/xp_osi_queue.c:1385-1415 | locking the next section leaves the lock pointer on the wrong region, and the next delivery is read from a place that makes it contain a lock |
| `QueueLimits.StaleDeliveryIff` | docs/stbx25xx-driver/demux/xp_osi_queue.c:1415-1415 | after a recovery that moves the hardware nothing of the old delivery counts as delivered, and its end is a place to go on from if and only if the hardware was put exactly there |
| `QueueLimits.LockTakenIff` | docs/stbx25xx-driver/demux/xp_osi_queue.c:2382-2432 | a region is locked if and only if fewer than 16 are; refused or not, the frontier passes it |
| `FilterGrid.MergeIsAdd` | docs/stbx25xx-driver/demux/xp_osi_filte.c:842-1006 | appending block k of a filter to column k, for every k, is the layout of all the filters together |
| `FilterGrid.ColumnOfConcat` | docs/stbx25xx-driver/demux/xp_osi_filte.c:842-1006 | column k of two groups of filters is the one group's column followed by the other's |
| `FilterSplice.SpliceKeepsChain` | docs/stbx25xx-driver/demux/xp_osi_filte.c:475-545 | linking one block into the middle, or a list behind the end, gives one closed list with mutually inverse links |
| `FilterSplice.StageInside` | docs/stbx25xx-driver/demux/xp_osi_filte.c:970-998 | the backward walk passes a block inside a column without changing anything |
| `FilterSplice.StageAtEnd` | docs/stbx25xx-driver/demux/xp_osi_filte.c:970-998 | at the end of a column it puts the filter's block behind it; behind the last column it puts the rest of the filter, a column each |
| `FilterSplice.WalkChain` | docs/stbx25xx-driver/demux/xp_osi_filte.c:970-998 | each pass of the backward walk keeps one closed list in the order of its stage |
| `FilterHardware.FilterHardware.InitFilterLinks` | docs/stbx25xx-driver/demux/xp_osi_filte.c:421-465 | the blocks become a closed list of their own, each ending a column; no other block changes |
| `FilterHardware.FilterHardware.LinkBehind` | docs/stbx25xx-driver/demux/xp_osi_filte.c:475-545 | the five link fields it rewrites, and nothing else |
| `FilterHardware.FilterHardware.FindLastCommonColumn` | docs/stbx25xx-driver/demux/xp_osi_filte.c:928-960 | the forward walk ends at the last block of the last column that list and filter have in common |
| `FilterHardware.FilterHardware.WalkBack` | docs/stbx25xx-driver/demux/xp_osi_filte.c:970-998 | the backward walk ends, with every column extended |
| `FilterHardware.FilterHardware.Add` | docs/stbx25xx-driver/demux/xp_osi_filte.c:842-1006 | the channel's list is the layout of its old filters and the new one, for every mix of lengths; other blocks are untouched |
| `FilterErase.EraseStep` | docs/stbx25xx-driver/demux/xp_osi_filte.c:1082-1124 | unlinking block i takes exactly that block out of column i |
| `FilterErase.UnlinkMiddle` | docs/stbx25xx-driver/demux/xp_osi_filte.c:1082-1124 | unlinking a block with two neighbours leaves a closed list, its end-of-column bit passing to the block before |
| `FilterErase.UnlinkTail` | docs/stbx25xx-driver/demux/xp_osi_filte.c:1082-1156 | unlinking the last block and closing behind it leaves a closed list |
| `FilterErase.UnlinkHead` | docs/stbx25xx-driver/demux/xp_osi_filte.c:1044-1078 | dropping the head leaves a closed list that begins with the second block |
| `FilterHardware.FilterHardware.Delete` | docs/stbx25xx-driver/demux/xp_osi_filte.c:1016-1164 | for any filter of a channel with two or more, the list is the layout of the other filters in their order; other blocks are untouched |
| `FilterHardware.FilterHardware.AddAndRemove` | docs/stbx25xx-driver/demux/xp_osi_filte.c:842-1164 | a filter added to a channel with filters, taken off and linked on its own leaves every block of the table as it was |
| `FilterHardware.FilterHardware.UnlinkBlock` | docs/stbx25xx-driver/demux/xp_osi_filte.c:1082-1124 | one pass of the deletion loop |
| `FilterRules.FirstFreeCount` | docs/stbx25xx-driver/demux/xp_osi_filte.c:321-387 | n blocks can be reserved if and only if n are free |
| `FilterRules.FirstFreeAscends` | docs/stbx25xx-driver/demux/xp_osi_filte.c:321-387 | the blocks reserved are free, different, and the lowest first |
| `FilterPool.FilterPool.ReserveBlocks` | docs/stbx25xx-driver/demux/xp_osi_filte.c:321-387 | all or nothing: on failure no block has changed |
| `FilterPool.FilterPool.Allocate` | docs/stbx25xx-driver/demux/xp_osi_filte.c:2479-2725 | for every length the driver computes some blocks for: exactly when it fails and with what; on success a new filter in the lowest free place owns the first free blocks, as many as its length needs, linked on their own |
| `FilterRules.NoBlocksIff` | docs/stbx25xx-driver/demux/xp_osi_filte.c:2635-2659 | the lengths whose block count wraps to zero in 16 bits |
| `FilterRules.DriverCountIs` | docs/stbx25xx-driver/demux/xp_osi_filte.c:2635-2659 | a block count that can be met is the one the filter's length needs, although it is computed in 16 bits |
| `FilterMatch.BlockCountIs` | docs/stbx25xx-driver/demux/xp_osi_filte.c:2635-2659 | the blocks a filter needs are the fewest that have room for all its bytes that are compared |
| `FilterPool.FilterPool.Set` | docs/stbx25xx-driver/demux/xp_osi_filte.c:3795-3983 | the errors in their order, missing data among them; then the data are the first bytes given and the mask the first bytes given or all bits, an unused filter is defined, exactly an enabled one asks for the software comparison from then on, and nothing else changes |
| `FilterPool.FilterPool.Control` | docs/stbx25xx-driver/demux/xp_osi_filte.c:2775-2935 | the errors in their order; only the one filter's state changes, to the one asked for |
| `FilterRules.RefusalsMean` | docs/stbx25xx-driver/demux/xp_osi_filte.c:2214-3403 | for every allocated filter, each error of control, add, delete and free exactly when its condition holds |
| `FilterPool.FilterPool.AddToChannel` | docs/stbx25xx-driver/demux/xp_osi_filte.c:2214-2431 | the errors in their order; the filter joins the end of the channel's list in the first unused slot, or nothing changes |
| `FilterPool.FilterPool.FindFilter` | docs/stbx25xx-driver/demux/xp_osi_filte.c:1212-1262 | the slot found is the filter's match id, and none is found exactly for a filter of another channel |
| `FilterPool.FilterPool.DeleteFilter` | docs/stbx25xx-driver/demux/xp_osi_filte.c:1272-1340 | the filter leaves list and table and stands alone; others keep their order and their state, but for the one whose number is the first block of a channel's only filter, which is disabled |
| `FilterPool.FilterPool.DeleteFromChannel` | docs/stbx25xx-driver/demux/xp_osi_filte.c:3011-3261 | the errors in their order, put off or carried out at once, what a refused removal has changed all the same, and which other filter is disabled |
| `FilterPool.FilterPool.FreeFilter` | docs/stbx25xx-driver/demux/xp_osi_filte.c:1174-1202 | exactly the filter's blocks become free |
| `FilterPool.FilterPool.Free` | docs/stbx25xx-driver/demux/xp_osi_filte.c:3311-3403 | at once, or put off while a removal is pending; every other filter is untouched |
| `FilterPool.FilterPool.ProcessPending` | docs/stbx25xx-driver/demux/xp_osi_filte.c:1706-1790 | every removal put off on the channel is carried out, frees free, deletes delete, no other channel's list changes; one other filter is disabled exactly when all filters of the channel were waiting: the one named by the first block of the last of them |
| `FilterPool.FilterPool.FreeChannel` | docs/stbx25xx-driver/demux/xp_osi_filte.c:3447-3525 | the pool stays sound if and only if no filter of the channel is or has to be put off; any other filter keeps its blocks with no table naming it; which filter outside the channel is disabled, and when |
| `FilterMoves.Attach` | docs/stbx25xx-driver/demux/xp_osi_filte.c:2387-2405 | joining keeps blocks, owners, lists and tables consistent over all channels |
| `FilterMoves.Detach` | docs/stbx25xx-driver/demux/xp_osi_filte.c:1272-1340 | so does leaving |
| `FilterMoves.Release` | docs/stbx25xx-driver/demux/xp_osi_filte.c:1174-1202 | so does freeing a filter that is on no list |
| `FilterMoves.Reserve` | docs/stbx25xx-driver/demux/xp_osi_filte.c:2593-2683 | so does allocating one |
| `FilterMoves.Restate` | docs/stbx25xx-driver/demux/xp_osi_filte.c:2775-2935 | so does any change of one filter that leaves its blocks and whereabouts alone |
| `FilterRules.StrayDisable` | docs/stbx25xx-driver/demux/xp_osi_filte.c:1294-1302 | the disable hits the filter with that number and keeps the pool sound |
| `FilterRules.StrayIff` | docs/stbx25xx-driver/demux/xp_osi_filte.c:1294-1302 | removing a filter changes another one if and only if it was the channel's only filter and its first block has the number of an enabled filter that is not being freed; that one is disabled |
| `FilterPool.StrayExample` | docs/stbx25xx-driver/demux/xp_osi_filte.c:1294-1302 | three filters, of which removing one from channel 0 disables one on channel 1 |
| `FilterRules.BlocksPartition` | docs/stbx25xx-driver/demux/xp_osi_filte.c:321-411 | a block is in use exactly when some filter has it, and then only one |
| `FilterRules.ListedBlocksInUse` | docs/stbx25xx-driver/demux/xp_osi_filte.c:1174-1340 | a block on a channel's list is in use and belongs to a filter of that channel, whatever is pending |
| `FilterRules.CountedFilters` | docs/stbx25xx-driver/demux/xp_osi_filte.c:1326-1338 | wInuse is the number of filters on the channel |
| `FilterRules.SlotOf` | docs/stbx25xx-driver/demux/xp_osi_filte.c:1212-1262 | a table names an attached filter in its own slot or not at all |
| `FilterMatch.MatchOnRing` | docs/stbx25xx-driver/demux/xp_osi_filte.c:649-705 | the loop on the ring, with its wrap, decides whether the section's bytes but for its length field equal the filter's under the mask, as far as both go |
| `FilterMatch.SectionHitIff` | docs/stbx25xx-driver/demux/xp_osi_filte.c:685-689 | no differing bit under the mask is equality of what the mask leaves |
| `FilterMatch.AgreeIff` | docs/stbx25xx-driver/demux/xp_osi_filte.c:685-689 | the same for one byte; under a mask of all bits it is being equal |
| `FilterMatch.DefinedHitIff` | docs/stbx25xx-driver/demux/xp_osi_filte.c:3795-3983 | after data and mask were set, a section hits exactly when each byte compared is the one given, in the bits of the mask given or in all |
| `FilterMatch.FilterWords.Set` | docs/stbx25xx-driver/demux/xp_osi_filte.c:715-832 | exactly the filter's blocks are written, one word each: byte 0, then 3, 4, .., then padding that is masked off |
| `FilterMatch.PackedHit` | docs/stbx25xx-driver/demux/xp_osi_filte.c:715-832 | for sections of every length: the masked comparison of those words is equality of the bytes under the mask, as filter_match decides it, and for a shorter section also of what follows it |
| `FilterMatch.PackedByteHit` | docs/stbx25xx-driver/demux/xp_osi_filte.c:715-832 | position n of the words compares one byte of the section or of what follows it, or nothing |
| `FilterCheck.Checker.CheckFilters` | docs/stbx25xx-driver/demux/xp_osi_filte.c:1350-1532 | the surviving bits by their reference definition, and exactly which filters are confirmed |
| `FilterCheck.SurvivorsWanted` | docs/stbx25xx-driver/demux/xp_osi_filte.c:1350-1532 | a surviving bit belongs to an enabled filter that has no reason to refuse the section |
| `FilterCheck.WantedSurvivesIff` | docs/stbx25xx-driver/demux/xp_osi_filte.c:1390-1458 | exactly when such a filter's bit survives: its slot is below the number of filters, and a short section does not follow a drop |
| `FilterCheck.InheritedIff` | docs/stbx25xx-driver/demux/xp_osi_filte.c:1444-1458 | the skip decision a short section takes over, in terms of earlier bits |
| `FilterCheck.ShortSection` | docs/stbx25xx-driver/demux/xp_osi_filte.c:1444-1458 | of the two settings for short sections the channel's own decides, the default only where the channel has none; a miss drops the bit, anything else takes over the last decision |
| `FilterCheck.SoftUntilHit` | docs/stbx25xx-driver/demux/xp_osi_filte.c:1462-1500 | an enabled filter asks for the software comparison until exactly the first section that reaches it and hits |
| `FilterCheck.SparseSlotDropped` | docs/stbx25xx-driver/demux/xp_osi_filte.c:1390-1396 | with slot 0 vacated, the one filter left in slot 1 gets nothing |
| `FilterCheck.PoolUsable` | docs/stbx25xx-driver/demux/xp_osi_filte.c:1350-1532 | the tables of a sound pool meet what the check needs |
| `TableWalk.Walker.ProcessTables` | docs/stbx25xx-driver/demux/xp_osi_filte.c:1802-2092 | every record of the region is reported once, in order, with its true start, end and length on the ring, the binary digits of its match word, and the filters' answer |
| `TableWalk.WalkContinues` | docs/stbx25xx-driver/demux/xp_osi_filte.c:1904-1906 | the loop stops exactly at the end address and never because of its guard on wraps |
| `TableWalk.WalkMoves` | docs/stbx25xx-driver/demux/xp_osi_filte.c:2036-2056 | one pass arrives at the next record |
| `TableWalk.StepPositions` | docs/stbx25xx-driver/demux/xp_osi_filte.c:1940-2056 | the wrapped start, end and next address in words, with at most one pass of the ring's end in all |
| `TableWalk.RecordAt` | docs/stbx25xx-driver/demux/xp_osi_filte.c:1904-1946 | match word, section and length bytes of a record are found where the loop looks for them |
| `TableWalk.MatchBitsIs` | docs/stbx25xx-driver/demux/xp_osi_filte.c:1376-1380 | bit i of the match word is the digit of 2^(31 - i) in the number its four bytes are, the most significant first |
| `TableWalk.SectionLengthIs` | docs/stbx25xx-driver/demux/xp_osi_filte.c:1904-1936 | the length is the 12-bit field, whatever stands in the four bits in front of it |
| `SectionLocks.LookFindsRecord` | docs/stbx25xx-driver/demux/xp_osi_filte.c:1904-1946 | the record the loop reads from memory is the next one, whatever the hardware has written since the delivery began |
| `SectionLocks.LookTakesPart` | docs/stbx25xx-driver/demux/xp_osi_filte.c:2036-2076 | the region it locks or skips is a part of the delivery, word aligned and not at the frontier |
| `SectionLocks.LookIsVisit` | docs/stbx25xx-driver/demux/xp_osi_filte.c:1940-1986 | it is the region that the walk over memory that stands still reports |
| `SectionLocks.LookLocksIff` | docs/stbx25xx-driver/demux/xp_osi_filte.c:2066-2076 | a section is locked if and only if the filters want it and the list has room; earlier locks stay |
| `SectionLocks.LoopSeesAll` | docs/stbx25xx-driver/demux/xp_osi_filte.c:1904-1906 | the loop ends exactly when it has seen every record of the delivery |
| `SectionLocks.HarmlessAllowed` | docs/stbx25xx-driver/demux/xp_osi_queue.c:338-636 | on a section channel every recovery finds a queue that can be recovered, so hardware and application may do anything |
| `SectionLocks.RecordsStay` | docs/stbx25xx-driver/demux/xp_osi_filte.c:1802-2092 | records still to be looked at are not overwritten |
| `SectionLocks.StepKeepsGood` | docs/stbx25xx-driver/demux/xp_osi_filte.c:1802-2092 | every pass of the loop, and whatever happens between two of them, keeps what the next one needs |
| `SectionLocks.SectionRunIsDriverRun` | docs/stbx25xx-driver/demux/xp_osi_filte.c:1802-2092 | any number of section deliveries, with releases and hardware steps between their records, is a run of the driver |
| `SectionLocks.RecordsArrive` | docs/stbx25xx-driver/demux/xp_osi_filte.c:1802-2092 | records the hardware writes and delivers are ones the loop can be given |
| `SectionLocks.SectionSurvives` | docs/stbx25xx-driver/demux/xp_osi_filte.c:1802-2092 | a wanted section stays in memory as it was delivered until it is given back, over any number of further deliveries |
| `CircularBuffer.Buffer.constructor` | docs/stbx25xx-driver/demux/xp_osd_drv.c:983-986 | the buffer after a reset is empty and in step |
| `CircularBuffer.Buffer.CopyPieces` | docs/stbx25xx-driver/demux/xp_osd_drv.c:205-226 | in each of the five cases the bytes of the queue region are laid down behind the write index, and nothing else changes |
| `CircularBuffer.Buffer.CopyBothWrap` | docs/stbx25xx-driver/demux/xp_osd_drv.c:205-217 | the three cases in which both rings wrap |
| `CircularBuffer.Buffer.CopyFromQueue` | docs/stbx25xx-driver/demux/xp_osd_drv.c:180-234 | the unread bytes are the old ones followed by the new ones; the indices stay in step unless nothing at all is copied first into a buffer whose size does not divide 2^32 |
| `CircularBuffer.Buffer.AppendFromQueue` | docs/stbx25xx-driver/demux/xp_osd_drv.c:343-353 | so are they after the bytewise loop |
| `CircularBuffer.Buffer.ReadBytes` | docs/stbx25xx-driver/demux/xp_osd_drv.c:2331-2358 | a stream read returns the oldest bytes, as many as asked for or there are, and keeps the rest |
| `CircularBuffer.AdvanceInStep` | docs/stbx25xx-driver/demux/xp_osd_drv.c:231-232 | exactly when the write index stays in step, from -1 on |
| `CircularBuffer.PlacedAppends` | docs/stbx25xx-driver/demux/xp_osd_drv.c:180-234 | bytes laid down behind the unread ones are appended to them and overwrite none |
| `CircularBuffer.EmptyCopyBreaks` | docs/stbx25xx-driver/demux/xp_osd_drv.c:231-232 | the function taken by itself: a buffer of three bytes that an empty copy puts out of step |
| `SectionBuffer.SectionFilter.Accept` | docs/stbx25xx-driver/demux/xp_osd_drv.c:337-355 | a section is kept whole, or dropped when it would fill the buffer |
| `SectionBuffer.SectionFilter.Read` | docs/stbx25xx-driver/demux/xp_osd_drv.c:2286-2323 | a read returns exactly the oldest section, or refuses and changes nothing |
| `SectionBuffer.RunIsFifo` | docs/stbx25xx-driver/demux/xp_osd_drv.c:283-362 | over any run, what was read and what is left is what was there and what found room, in order |
| `SectionBuffer.NeverFull` | docs/stbx25xx-driver/demux/xp_osd_drv.c:337-355 | over any run at least one byte of the buffer stays free |
| `SectionBuffer.KeptIff` | docs/stbx25xx-driver/demux/xp_osd_drv.c:337-355 | a section is dropped exactly when the buffer would be full with it |
| `SectionBuffer.RefusedReadChangesNothing` | docs/stbx25xx-driver/demux/xp_osd_drv.c:2303-2308 | after a read with too little room the next one still gets the same section |
| `DemuxCallbacks.SectionCallback` | docs/stbx25xx-driver/demux/xp_osd_drv.c:239-369 | every matching filter, and no other, gets the section; its region is given back once if any filter matched and otherwise never |
| `DemuxCallbacks.StreamCallback` | docs/stbx25xx-driver/demux/xp_osd_drv.c:374-443 | the first filter on the channel takes the data whole or not at all; the region is given back once unless no filter is on the channel |
| `DemuxCallbacks.FindMatches` | docs/stbx25xx-driver/demux/xp_osd_drv.c:266-277 | the matches are the filters of the channel whose bits are all set |
| `DemuxCallbacks.MatchedIff` | docs/stbx25xx-driver/demux/xp_osd_drv.c:266-271 | the test is that the filter's word is all there in the section's |
| `SectionDelivery.Receiver.Pass` | docs/stbx25xx-driver/demux/xp_osi_filte.c:1904-2076 | one pass over a delivery with filters and callback: the section is locked if and only if filters still want it and the list has room, and every filter whose bits are left gets exactly the section the hardware delivered, the others nothing |
| `SectionDelivery.SlotGets` | docs/stbx25xx-driver/demux/xp_osd_drv.c:1134-1138 | the filter in slot i of its channel gets a section exactly when the digit of 2^(31 - i) is in the match word and, where the software looks again, the filter wants the section and is not dropped by the slot test or an inherited skip |
| `SectionDelivery.ReceivedIsSection` | docs/stbx25xx-driver/demux/xp_osd_drv.c:283-362 | what the callback puts into a buffer is the section as it was in memory |
| `SectionDelivery.CallbackGivesBack` | docs/stbx25xx-driver/demux/xp_osd_drv.c:364-367 | the release the callback makes, from start and length as it was told them, takes exactly the region locked for the section off the queue, whatever was locked and released meanwhile |
| `SectionDelivery.LaterReceived` | docs/stbx25xx-driver/demux/xp_osd_drv.c:283-362 | so it is at any later time before the section is given back, after any number of further deliveries |
| `ClipDevice.ClipDevice.constructor` | docs/stbx25xx-driver/clip/clip.c:6-87 | all segments are empty and every segment offset occurs once |
| `ClipDevice.ClipDevice.GetBufferWait` | docs/stbx25xx-driver/clip/clip.c:105-124 | the first empty segment, behind those given back meanwhile, goes to the caller, or the wait ended with none |
| `ClipDevice.ClipDevice.GetBufferNoWait` | docs/stbx25xx-driver/clip/clip.c:127-147 | it succeeds exactly when a segment is empty, and never waits |
| `ClipDevice.ClipDevice.Write` | docs/stbx25xx-driver/clip/clip.c:176-189 | a clip that fits its segment is queued behind the others; the queue is never full |
| `ClipDevice.ClipDevice.WriteAndStart` | docs/stbx25xx-driver/clip/clip.c:161-174 | a clip that is accepted is also started |
| `ClipDevice.ClipDevice.HardwareWrite` | docs/stbx25xx-driver/clip/clip.c:192-229 | the loop ends, having given the device the next clips in order, as many as it has room for |
| `ClipDevice.ClipDevice.Start` | docs/stbx25xx-driver/clip/clip.c:232-241 | playing if anything is queued, stopped otherwise |
| `ClipDevice.ClipDevice.ClipDone` | docs/stbx25xx-driver/clip/clip.c:261-290 | the first clip's segment is empty again, the counters go up by one, and no clamp or full queue interferes |
| `ClipDevice.ClipDevice.Stop` | docs/stbx25xx-driver/clip/clip.c:244-252 | everything queued is dropped; clips the device had not been given are lost |
| `ClipDevice.TakeBalanced` | docs/stbx25xx-driver/clip/clip.c:105-124 | taking a segment keeps every segment in exactly one place |
| `ClipDevice.DoneBalanced` | docs/stbx25xx-driver/clip/clip.c:261-290 | so does giving one back, and the free queue has room for it |
| `ClipDevice.GiveInOrder` | docs/stbx25xx-driver/clip/clip.c:205-222 | the bytes given to the device stay the submitted ones, each clip once, in order |
| `ClipDevice.FillInOrder` | docs/stbx25xx-driver/aud/aud_osd.c:49-67 | filling a segment one holds changes no clip that is queued |
| `ClipPool.SegmentsApart` | docs/stbx25xx-driver/clip/clip.c:66-73 | different segments do not overlap |
| `ClipPool.CountLeft` | docs/stbx25xx-driver/clip/clip.c:66-73 | empty, queued and held segments add up to all of them |
| `AudioWriter.AudioWriter.EndStream` | docs/stbx25xx-driver/aud/aud_osd.c:41-46 | the end of the stream is noted |
| `AudioWriter.AudioWriter.Fill` | docs/stbx25xx-driver/aud/aud_osd.c:49-67 | the bytes become one more clip |
| `AudioWriter.AudioWriter.WriteNext` | docs/stbx25xx-driver/aud/aud_osd.c:70-123 | one piece is written into the first empty segment, behind those given back during the wait, with the end-of-stream flag exactly if it was asked for on the last piece or left on that segment |
| `AudioWriter.AudioWriter.Write` | docs/stbx25xx-driver/aud/aud_osd.c:70-123 | the clips written are a cut of the accepted prefix, whose length is returned; less is accepted only when no segment is empty |
| `AudioWriter.EndFlagReturns` | docs/stbx25xx-driver/aud/aud_osd.c:105-113 | a segment used for the end of a stream marks its next use as one, too |
| `PvrPlayback.Playback.Write` | docs/stbx25xx-driver/demux/pvr_osd.c:312-402 | misaligned lengths are refused; otherwise everything written since the flush is sent, except for one piece that waits |
| `PvrPlayback.Playback.NextPiece` | docs/stbx25xx-driver/demux/pvr_osd.c:339-399 | the piece that waited is programmed exactly, in 16 bits, and sent while the new one goes into the other half |
| `PvrPlayback.Playback.CopyWhileSending` | docs/stbx25xx-driver/demux/pvr_osd.c:381-399 | the copy does not touch what is being sent |
| `PvrPlayback.Playback.SetMode` | docs/stbx25xx-driver/demux/pvr_osd.c:198-201 | a change of mode is harmless if and only if nothing waits or the new unit divides what waits |
| `PvrPlayback.Playback.Flush` | docs/stbx25xx-driver/demux/pvr_osd.c:218-225 | a flush gives up exactly the piece that waits |
| `PvrPlayback.ExactCount` | docs/stbx25xx-driver/demux/pvr_osd.c:361-368 | the count programmed for aligned bytes is exact and fits the register |
| `ClockRecovery.ClockDriver.PcrInterrupt` | docs/stbx25xx-driver/demux/xp_osi_clk.c:235-487 | the whole new state for every reading of the registers, whose parts the lemmas below explain |
| `ClockRecovery.ClockDriver.SetPid` | docs/stbx25xx-driver/demux/xp_osi_clk.c:690-708 | a new reference restarts the count |
| `ClockRecovery.OffsetIsTrue` | docs/stbx25xx-driver/demux/xp_osi_clk.c:326-352 | the algorithm runs exactly when the clocks agree in the upper ten bits of their 33-bit bases, and then the offset it takes is the true one in 27 MHz ticks |
| `ClockRecovery.ErrorsReload` | docs/stbx25xx-driver/demux/xp_osi_clk.c:350-380 | of any number of errors in a row each second one asks for a load, and none moves the PWM |
| `ClockRecovery.ThresholdIff` | docs/stbx25xx-driver/demux/xp_osi_clk.c:402-430 | the threshold is up after two runs, whatever was between them, exactly when both differences were small |
| `ClockRecovery.LimitSinceLoad` | docs/stbx25xx-driver/demux/xp_osi_clk.c:312-324 | the limit is 100 for exactly the first ten references since a load, and 50 from then on |
| `ClockRecovery.TornNeverLeaves` | docs/stbx25xx-driver/demux/xp_osi_clk.c:300-306 | over any run, as many critical sections are entered and not left as references changed between two reads |
| `ClockRecovery.QuotientTowardZero` | docs/stbx25xx-driver/demux/xp_osi_clk.c:392-392 | division as the processor does it, toward zero, for all signs |
| `ClockRecovery.ClampNearest` | docs/stbx25xx-driver/demux/xp_osi_clk.c:438-459 | the clamp takes the step to the nearest one within the limit |
| `ClockRecovery.PwmSaturates` | docs/stbx25xx-driver/demux/xp_osi_clk.c:461-485 | for every register value, the update is an addition of signed 12-bit numbers that stops at the ends |
| `ClockRecovery.UnsignedShift` | docs/stbx25xx-driver/demux/xp_osi_clk.c:397-399 | shifting the offset as an unsigned number comes to the same as dividing it, once cut to 16 bits |
| `ClockRecovery.AdjustmentIs` | docs/stbx25xx-driver/demux/xp_osi_clk.c:389-399 | for all tick counts: what the driver computes through its 16- and 32-bit conversions is drift times rate and offset, each over 16 and in numbers without a width, cut to 16 bits once |
| `ClockRecovery.StepTakenIff` | docs/stbx25xx-driver/demux/xp_osi_clk.c:389-459 | for every sane state and every interrupt that runs the algorithm: the PWM goes where the wanted step should take it if and only if the step fits 16 bits, or what is left of it reaches the same limit or the end of the PWM range |
| `ClockRecovery.WrongWay` | docs/stbx25xx-driver/demux/xp_osi_clk.c:389-459 | two interrupts from the start of the driver, the second with the reference 60000 ticks ahead: 41250 steps up are wanted and the PWM goes down by the limit |
| `ClockRecovery.DivisionDefined` | docs/stbx25xx-driver/demux/xp_osi_clk.c:389-399 | no division by zero matters unless a reference repeats the last one |
| `ClockRecovery.DivisionUndefined` | docs/stbx25xx-driver/demux/xp_osi_clk.c:389-399 | a repeated reference leaves the direction of the step to the quotient of a division by zero |
| `ClockRecovery.StepBound` | docs/stbx25xx-driver/demux/xp_osi_clk.c:438-486 | one interrupt moves the PWM by no more than its clamp, and only if the algorithm runs |
| `ClockRecovery.PwmDrift` | docs/stbx25xx-driver/demux/xp_osi_clk.c:312-486 | over any n runs since a load, at most 100 for each of the first ten and 50 for each other |
| `ClockRecovery.LoadRestarts` | docs/stbx25xx-driver/demux/xp_osi_clk.c:312-324 | an STC load restarts the count |
| `ClockRecovery.TicksFit` | docs/stbx25xx-driver/demux/xp_osi_clk.c:336-340 | the tick count of a reading is at most 2516582611 |
| `InterruptRegistry.NotifyTable.AddMask` | docs/stbx25xx-driver/demux/xp_osi_inter.c:610-734 | duplicates and a full table are refused; otherwise the last free slot is used, or slot 0 of a new table; the count moves away from the callbacks held if and only if the slot taken still holds one |
| `InterruptRegistry.NotifyTable.DeleteMask` | docs/stbx25xx-driver/demux/xp_osi_inter.c:744-792 | exactly the one entry goes and the count with it |
| `InterruptRegistry.NotifyTable.Reset` | docs/stbx25xx-driver/demux/xp_osi_inter.c:802-824 | the table is gone |
| `InterruptRegistry.NotifyTable.Dispatch` | docs/stbx25xx-driver/demux/xp_osi_inter.c:915-937 | the loop with its early exit calls the callbacks whose mask shares a bit with the interrupt, and no others, once each entry, in table order |
| `InterruptRegistry.MeetsIff` | docs/stbx25xx-driver/demux/xp_osi_inter.c:915-937 | two words meet if and only if some bit is set in both |
| `InterruptRegistry.SingleBitsMeet` | docs/stbx25xx-driver/demux/xp_osi_inter.c:915-937 | bits i and j meet if and only if they are the same bit |
| `InterruptRegistry.WantedIff` | docs/stbx25xx-driver/demux/xp_osi_inter.c:915-937 | a callback is called if and only if an entry has it for a bit of the interrupt |
| `InterruptRegistry.HitsAreOccupied` | docs/stbx25xx-driver/demux/xp_osi_inter.c:915-937 | no interrupt meets more entries than are occupied, and when all met ones are behind, none is left to call |
| `InterruptRegistry.OccupiedIsHeld` | docs/stbx25xx-driver/demux/xp_osi_inter.c:610-792 | occupied slots never exceed registered ones and equal them while no empty mask was added |
| `InterruptRegistry.UnionMeets` | docs/stbx25xx-driver/demux/xp_osi_inter.c:1980-1990 | the union of the masks meets exactly what one of them meets |
| `InterruptRegistry.UnionBit` | docs/stbx25xx-driver/demux/xp_osi_inter.c:1980-1990 | a bit is in the union if and only if somebody asks for it |
| `InterruptRegistry.SlotsTaken` | docs/stbx25xx-driver/demux/xp_osi_inter.c:610-734 | up to ten registrations in a new table take slot 0 and then the slots from the last down |
| `InterruptRegistry.CallOrderIff` | docs/stbx25xx-driver/demux/xp_osi_inter.c:98-102 | they are called in order of registration if and only if those met behind the first read the same backwards; for different callbacks, if and only if at most one of those is met |
| `InterruptRegistry.CalledLastIff` | docs/stbx25xx-driver/demux/xp_osi_inter.c:644-650 | in any table a new registration is called last if and only if no other callback in a higher slot is called for the same interrupt |
| `InterruptMasks.Interrupts.Notify` | docs/stbx25xx-driver/demux/xp_osi_inter.c:1886-2030 | after every change the primary mask is the union of the registered masks and the bits that are always on, bit by bit: let through if and only if always on or asked for |
| `InterruptMasks.Interrupts.ChannelNotify` | docs/stbx25xx-driver/demux/xp_osi_inter.c:1625-1830 | after every change a bit is in the queue mask if and only if some table asks for it, audio and video masks are those of their own tables; the channel may interrupt from its first registration until its last is deleted |
| `InterruptMasks.Interrupts.ChannelFree` | docs/stbx25xx-driver/demux/xp_osi_inter.c:1487-1525 | the channel's table is gone and the mask register is not rewritten: afterwards it lets bits through for nobody if and only if the channel alone had asked for them |
| `InterruptMasks.PrimaryMaskMeets` | docs/stbx25xx-driver/demux/xp_osi_inter.c:1976-2018 | a primary interrupt is let through exactly when it is always on or somebody asked for it |
| `InterruptMasks.UnionAllMeets` | docs/stbx25xx-driver/demux/xp_osi_inter.c:1761-1780 | a queue interrupt is let through exactly when some table asks for it |
| `InterruptMasks.UnionAllBit` | docs/stbx25xx-driver/demux/xp_osi_inter.c:1761-1780 | the same for a single bit |
| `InterruptMasks.StaleBitsIff` | docs/stbx25xx-driver/demux/xp_osi_inter.c:1487-1525 | the same on tables |
| `InterruptMasks.CallOrder` | docs/stbx25xx-driver/demux/xp_osi_inter.c:98-102 | three callbacks registered in order are called first, third, second |
| `InterruptMasks.EmptyMaskLingers` | docs/stbx25xx-driver/demux/xp_osi_inter.c:636-730 | a registration without valid bits is counted for good once its slot is taken over |
| `Channels.Demux.Allocate` | docs/stbx25xx-driver/demux/xp_osi_chann.c:307-399 | it succeeds exactly when a channel of the kind is unused, and for a bucket when there is none yet; the highest such channel is taken |
| `Channels.Demux.GetAvailable` | docs/stbx25xx-driver/demux/xp_osi_chann.c:578-617 | the number of unused channels of the kind, also for a bucket when one exists already |
| `Channels.Demux.Disable` | docs/stbx25xx-driver/demux/xp_osi_chann.c:430-517 | the channel is disabled and everything put off on it is carried out |
| `Channels.Demux.ResetQueue` | docs/stbx25xx-driver/demux/xp_osi_queue.c:1925-1961 | nothing is locked any more, and frontier, hardware and reading start at the bottom of the same ring |
| `Channels.Demux.DisableQueue` | docs/stbx25xx-driver/demux/xp_osi_queue.c:1873-1909 | a defined queue is disabled and what was put off on it carried out |
| `Channels.Demux.AllocateQueue` | docs/stbx25xx-driver/demux/xp_osi_queue.c:1587-1737 | a channel in use without a queue gets one of the least number of whole 4096-byte blocks that hold it, empty and disabled |
| `Channels.Demux.FreeQueue` | docs/stbx25xx-driver/demux/xp_osi_queue.c:2027-2110 | the memory of a defined queue goes back once, and an undefined one frees nothing |
| `Channels.Demux.UnlockData` | docs/stbx25xx-driver/demux/xp_osi_queue.c:2744-2908 | a release on a channel: the errors of channel and queue first, then the ring's own; only that queue changes |
| `Channels.Demux.Free` | docs/stbx25xx-driver/demux/xp_osi_chann.c:539-573 | filters, registrations, queue memory and bucket are given back, each once; no other channel's queue, list or table changes; if the channel had filters, exactly the filter named by the first block of the last to go is disabled |
| `Channels.Demux.RemoveFilter` | docs/stbx25xx-driver/demux/xp_osi_filte.c:3195-3249 | a removal waits exactly when channel and queue run and the hardware is inside a section; which other filter is disabled |
| `Channels.AllGoneAfter` | docs/stbx25xx-driver/demux/xp_osi_filte.c:3447-3525 | after disabling, no filter of the channel is in the way of freeing it: each is free, or its owner's again if only its deletion was pending; and which other filter is hit |

## Left out

- Registers: each is a field or an array; bit positions, the register address map and the DRAM copy of filter blocks are not modelled, so list claims are about the software links.
- Negative matching: polarity bytes are stored and written by the code but read by no comparison in software; the hardware's use of them is not modelled.
- Error and statistics counters.
- Critical sections as flag values; they are the boundaries of atomic steps. One is entered and not left when the reference changes between two reads of its register (`xp_osi_clk.c:300-306`).
- Failing allocations, and the Vesta variants of the masks and filters.
- The transport stream bypass, the channel change and audio/video synchronisation handshakes, descrambling, EEPROM, tuner, the table parsers for program information, and the status page.
- ioctl, poll, mmap, open and release, signals and faults of copies from and to user memory; the ioctls that change state in a modelled component are in.
- The scheduling of `xp_osi_filter_process_section_change`; what it carries out, `ProcessPending`, is modelled.
- QueueRuns.LockedBytesSurvive: covers releases of whole regions; a partial release is specified by `UnlockData` but not covered by the safety of runs.
- QueueDelivery.StepKeepsReady: a recovery that moves the hardware in the middle of a delivery is not a step of these runs, because the order it states is then lost unless the condition of `QueueLimits.StaleDeliveryIff` holds. The runs of `QueueRuns` do contain it, as long as what is locked afterwards meets the condition of `QueueSafety.LockSafeIff`.
- DramQueue.DramQueue.UnlockRange: the list is sorted and disjoint, as every lock that may be taken and every release leaves it; index ranges of other lists are not covered.
- TableWalk.Walker.ProcessTables: covers regions that are a whole number of records, as the hardware delivers them; a delivery that fills the ring to its last byte reads as an empty one.
- FilterPool.FilterPool.Allocate: lengths for which the driver computes no block at all (`FilterRules.NoBlocksIff`); what a filter without blocks does to block 0 is not modelled.
- FilterPool.FilterPool.Set: polarity bytes, and writing past the driver's arrays of 64 bytes for longer filters.
- Channels.Demux.Free: keeps each channel's queue as the value that the class in `DramQueue` refines, so aliasing of queue objects is not captured there.
- Filters without a buffer of their own, which only wake a reader.
- Buffers over 2 GiB, whose indices would not fit the driver's integers.
- Status, video and audio interrupt levels beyond their masks; a callback that registers or removes another one while a dispatch runs.
- The playback path that maps user memory instead of copying it.
- `xp_osi_clk_get_current_stc`, whose mask drops a bit of the time it reports.
