# The xtc event runtime's scheduling layer, modelled and proved in Dafny

This project models the scheduling core of the xtc event runtime and the queues
its benches compare it with, and proves what that code is there to guarantee.

* **Protocols between threads** are transition systems. Every atomic load, store,
  exchange and compare-and-swap of the C code is one step; any number of tasks,
  loops, wakers, thieves, producers and timers take steps in any order. Theorems
  are about every state of every run. Memory is sequentially consistent. What an
  operation does is also said from its call to its return, of the arguments of the
  action that made the call, whatever other threads do in between.
* **Single-owner code** (heaps, sifts, lanes, buckets, selections) is written as
  Dafny code on arrays and fields, and each method is proved against a function
  or an abstract value of its input, about which the properties are then proved.

| files | what they model |
|---|---|
| `TaskSched`, `TaskHolders`, `TaskDelivery`, `TaskPinned`, `TaskWitness` | waking, parking, queueing, stealing and running tasks: who holds a task, which wakes are delivered, and the two ways a wake can be lost |
| `TaskVerdicts`, `TaskCalls` | what becomes of a task's verdict, what pays for each of its runs, and wakes and spawns from call to return |
| `TaskPool`, `TaskPoolBound`, `PoolCalls` | recycling of task structs, the bound on how many a loop retains, exactly when the bound its comment gives holds, and spawns and returns from call to end |
| `Deque`, `DequeOps` | the bounded work-stealing deque, and its operations from call to return |
| `InboxSleep`, `InboxCalls`, `StealSleep`, `StealCalls` | the two handshakes that decide when a blocked loop must be nudged, and their operations from call to return |
| `TimerRefs`, `TimerFires`, `TimerCalls` | firing, cancelling and releasing timers across threads; when a timer fires; and arming, cancelling, releasing and sweeping from call to return |
| `HeapSeq`, `TimerHeap`, `TimerHeapRuns`, `SwapHeap` | the timer heap: hole-moving sifts, back-pointers, sweeping, growth, and its equality with the swapping heap it replaced |
| `LaneGuard`, `LaneShares`, `RunLanes` | the run queues: bounded bypass around any user policy, weighted virtual runtime, the pops |
| `CoroGuard`, `CoroFlow` | the preemption guard around coroutine switches, and where a fiber's own code goes under it |
| `KvOrder`, `TopKStream`, `QuickSelect`, `TopKBuffer`, `BucketHeap` | five ways to select the top K, all equal to the first K of the sort |
| `RadixHeap`, `Wheel`, `QuickLayers`, `QuickHandles`, `QuickCounts`, `QuickHeap`, `QuickRuns` | bucket priority queues against a plain multiset |
| `Tally`, `ArraySeq`, `FlatSeq`, `SlotBuckets`, `Bits`, `Wrappers` | counting over parties, array moves, contents of buckets, bits and masks, options |

Statements of the repository that do not hold as written, and where the model
says exactly when they do:

* A wake is not always followed by a run: a party that saw an earlier park can
  take the latch of a later wake (`TaskWitness`). The step that loses it is
  `TaskDelivery.LosesWake`, and without stale parties every wake is delivered
  (`TaskDelivery.Delivery`); for pinned tasks only stale wakers matter
  (`TaskPinned.PinnedDelivery`).
* The retention bound at src/evt/task.c:62-68 (peak live count, plus the local cap,
  plus one) leaves out what is in use without being a live task: spawns that hold a
  struct or have found the spares empty and not yet allocated, and structs of tasks
  that finished on another loop and are not yet drained. Call these pending. For
  every cap, the bound holds in all runs with at most d pending if and only if d is
  at most 1 (`TaskPoolBound.CommentExactly`). Stalled spawns alone, or one spawner
  and structs handed back to a busy owner, exceed it by any amount
  (`TaskPoolBound.StalledSpawns`, `TaskPoolBound.HandedBack`). Counted from the peak
  in use, pending included, it always holds and without the extra one
  (`TaskPool.Retention`).
* The scheduler does not always see no proc once the guard is clear: at the one
  instruction that takes the pointer back it still sees the proc of the fiber it
  came back from, if that was one (`CoroGuard.StaleProc`, `CoroGuard.ProcRight`).
* The wheel is not always at most one tick late (bench/bench_timerq.c:1040): a
  clock that goes back can withhold a timer that came late (`Wheel.ClockBack`). A
  pop returns a timer exactly when some timer's tick and the current one are past
  (`Wheel.PopExact`), which with a clock that never goes back leaves no timer a
  whole tick overdue (`Wheel.NeverWithheld`).
* The comment at src/inc/coro_preempt.h:193-197 says the trampoline clears the
  guard before it yields; the code keeps it raised until the yield resumes, and
  the model follows the code.

## Model

| member | source | states |
|---|---|---|
| `TaskHolders.StepHeld` | src/evt/task.c:582-677 | every atomic step of a waker, spawner, runner or thief keeps: SCHEDULED or RUNNING means exactly one holder, PARKED or DONE none |
| `TaskHolders.RunHeld` | src/inc/loop_int.h:205-213 | the holder counts hold in every state of every run, for any number of tasks, loops and threads |
| `TaskHolders.RunOnOneLoop` | src/evt/loop.c:932-1217 | a task a loop is running is run by no other loop and is in no queue |
| `TaskHolders.QueuedOnce` | src/evt/loop.c:159-318 | a task is in at most one queue, once, and in none while a thread is about to queue it, so one link field is enough |
| `TaskDelivery.StepFollows` | src/evt/loop.c:1153-1217 | over one step a latch on a parked task keeps its watcher, and a wake on its way stays so if and only if the step is not the losing one |
| `TaskDelivery.AlwaysWatched` | src/evt/task.c:582-596 | in every reachable state a PARKED task with wake_pending set has a waker or a runner obliged to look |
| `TaskDelivery.AlwaysPromised` | src/evt/task.c:582-596 | in a run without a losing step every wake since the last run start is still on its way |
| `TaskDelivery.SettledParked` | src/evt/loop.c:1158-1217 | a parked task nobody is busy with has no latch, and if a wake since its last start was not followed by a run, some earlier step was the losing one |
| `TaskDelivery.Delivery` | src/evt/task.c:582-596 | with no waker and no loop stale between seeing a park and taking the latch, every wake of any task, migratable ones included, is followed by another run |
| `TaskPinned.AlwaysAtHome` | src/evt/task.c:534-565 | a pinned task is only ever queued, run, parked and woken on its home loop, since a waker names a loop the task has run on or its home |
| `TaskPinned.RecheckIsAlone` | src/evt/loop.c:1203-1217 | a loop re-checking the latch of a pinned task does not race a run of it |
| `TaskPinned.PinnedDelivery` | src/evt/loop.c:1153-1217 | with no waker stale between its state load and its exchange, every wake of a pinned task is followed by another run |
| `TaskWitness.StaleWaker` | src/evt/task.c:590-596 | a run in which a stale waker takes the latch of another wake of a pinned task, the named losing step, and the task stays parked with that wake issued |
| `TaskWitness.StaleLoop` | src/evt/loop.c:1203-1217 | a run in which, with no waker ever stale, the loop that parked a migratable task takes the latch of a later wake, the named losing step, and the task stays parked |
| `TaskVerdicts.ReschedWaits` | src/evt/loop.c:1153-1157 | a task that returns RESCHED is SCHEDULED and ready exactly once in every later state until a loop starts it |
| `TaskVerdicts.DoneBySaying` | src/evt/loop.c:1092-1152 | over one step of any run a task becomes DONE if and only if its function returned DONE at it |
| `TaskVerdicts.DoneIsOver` | src/evt/loop.c:1092-1152 | after that it stays DONE and no loop runs it or has it queued, before its struct is spawned anew |
| `TaskVerdicts.StartsArePaid` | src/evt/task.c:582-596 | in every run a task has been started at most once for each wake, each spawn and each RESCHED of it, and the starts still on their way come on top |
| `TaskVerdicts.RanIsRecord` | src/evt/task.c:534-565 | the loops a wake may name are exactly those that have started the task, besides its home |
| `TaskCalls.WakeDone` | src/evt/task.c:582-677 | a wake through a loop that returns has queued the task there at its last step, or nothing, the task then not being PARKED or its latch taken by another |
| `TaskCalls.SpawnDone` | src/evt/task.c:437-530 | a spawn that returns has cleared a latch of the struct's former life and queued the task on its home loop at its last step, or, refused, put the struct back on a spare list |
| `TaskCalls.DoneIsKept` | src/evt/loop.c:1105-1152 | unless a loop left it to finalization, the struct of a DONE task is with the one loop about to recycle it, on a free list or being spawned |
| `TaskCalls.ForsakenForGood` | src/evt/loop.c:1105-1152 | a struct left to finalization is never spawned again |
| `TaskPool.StepGood` | src/evt/task.c:75-119 | the spinlock admits one thread at a time, what it read of the spares is current, and the free lists never hold more than the local cap |
| `TaskPool.StepConserves` | src/evt/task.c:92-166 | the number of structs changes only by what the allocator hands out and what goes back to it, refused foreign spawns included |
| `TaskPool.RefusedGiven` | src/evt/task.c:496-512 | whatever other threads do meanwhile, a type-stable struct whose spawn is refused its inbox slot reaches the spares, exactly once, before its thread is done |
| `TaskPool.StepOwned` | src/evt/task.c:149-166 | structs owned or about to be allocated grow only at a failed look at the spares, where all of them are in use or on the free lists |
| `TaskPool.Retention` | src/evt/task.c:53-69 | in every run, for any mix of home and foreign spawns, admitted or refused, the structs of each pinned-ness never exceed the peak number in use plus the local cap |
| `TaskPoolBound.LiveBound` | src/evt/task.c:53-69 | in every run with at most d structs pending, spawns included, the structs of each pinned-ness never exceed the peak of live tasks plus the local cap plus d |
| `TaskPoolBound.CommentExactly` | src/evt/task.c:62-68 | for every local cap, peak live plus cap plus one bounds the structs in every run with at most d pending if and only if d is at most 1 |
| `TaskPoolBound.TwoPending` | src/evt/task.c:62-68 | for every cap a run with never more than two pending that exceeds that bound |
| `TaskPoolBound.StalledSpawns` | src/evt/task.c:92-119 | for every n and local cap a run with nothing handed back and at most one live task that leaves n structs |
| `TaskPoolBound.HandedBack` | src/evt/task.c:376-414 | for every n and local cap a run with at most one spawn under way and one live task that leaves n structs, handed back and not drained |
| `PoolCalls.SpawnDone` | src/evt/task.c:106-166 | a spawn that is over has made one task live, with a struct off the free list, off the spares, or from the allocator only after it found these empty; or there was no memory; or it was refused and has freed the struct or given it to the spares |
| `PoolCalls.PutDone` | src/evt/task.c:131-146 | a struct the owner puts away ends on its free list, or on the spares exactly when it found the lists at their cap |
| `PoolCalls.BackLedger` | src/evt/task.c:376-414 | each struct handed back is taken off the stack once and recycled once, or still on its way |
| `Deque.RingMasks` | src/inc/deque.h:36-54 | for every power of two as capacity, the slot an index names is the bitwise and of the index with the mask |
| `Deque.StepRefines` | src/inc/deque.h:71-168 | every step of owner or thief does to the abstract sequence what its effect says: append, drop last, drop first, or nothing |
| `Deque.StepConserves` | src/inc/deque.h:71-168 | pushes of an item equal its returns, plus the one a pop holds, plus its occurrences in the deque |
| `Deque.RunConserves` | src/inc/deque.h:71-168 | in every run each pushed item is returned to exactly one consumer or is still there |
| `Deque.RunRefines` | src/inc/deque.h:129-168 | in every run a successful steal or take returns the oldest item and a pop the newest, even if the slot was read before later pushes |
| `Deque.RunHonest` | src/inc/deque.h:71-124 | an operation of the owner comes back empty only when the deque is empty, and a push is refused only when it is full |
| `DequeOps.PushDone` | src/inc/deque.h:71-87 | a push of v that returns has appended v at its last step, or the deque was full and it has touched nothing |
| `DequeOps.PopDone` | src/inc/deque.h:96-124 | a pop that returns has taken the newest item off at one of its steps and returned it at its last, or has touched nothing, the deque having been empty |
| `DequeOps.TakeDone` | src/inc/deque.h:158-168 | a take that returns has removed and returned the oldest item at its last step, or has touched nothing, the deque being empty |
| `DequeOps.StealDone` | src/inc/deque.h:129-147 | a steal that returns has removed and returned the oldest item at its last step, or has touched nothing, top having moved since its load or there being at most the item a pop is after |
| `DequeOps.TakeStep` | src/inc/deque.h:158-168 | a round of a take fails only if top has moved since its load or the deque is empty |
| `DequeOps.OwnerWaitFree` | src/inc/deque.h:71-124 | a push takes at most three steps after its call and a pop at most five, whatever others do |
| `DequeOps.StealWaitFree` | src/inc/deque.h:129-147 | a steal takes at most three steps after its first load |
| `InboxSleep.StepKeeps` | src/evt/loop.c:144-218 | the handshake's invariant survives every step of producers and owner, failed wakeup writes included |
| `InboxSleep.NeverStranded` | src/evt/loop.c:1356-1365 | an owner blocked with a non-empty inbox has a wakeup pending or a producer on its way to writing one, unless a write has failed |
| `InboxSleep.FlagNeverLost` | src/evt/loop.c:159-189 | failed writes or not, a blocked owner's flag is up, or a wakeup is pending or being written, or the flag is being restored |
| `InboxCalls.NothingLost` | src/evt/loop.c:140-318 | the pushes of each kind among the actions equal what the drains took plus what is on that stack |
| `InboxCalls.PushDone` | src/evt/loop.c:159-190 | a push that returns found the owner's flag down, or took it and then wrote the wakeup or, failing that, set the flag again |
| `InboxCalls.SleepDone` | src/evt/loop.c:192-218 | an owner that announces its sleep blocks having then found the publish stack and after it the wake stack empty; else it has found work and withdrawn its flag |
| `InboxCalls.AwakeFlagDown` | src/evt/loop.c:210-218 | whenever the owner is awake again its flag is down |
| `InboxCalls.BellLedger` | src/evt/loop.c:186-189 | every wakeup written is consumed by a poll, once, or still pending |
| `StealSleep.StepShares` | src/evt/exec.c:595-618 | n_mig_loops moves with the loops' shares: live loops less pending up-edges plus pending down-edges |
| `StealSleep.NeverNegative` | src/evt/exec.c:595-618 | the counter is never negative, and at zero every loop with live unpinned tasks has an up-edge pending |
| `StealSleep.StepKeeps` | src/evt/exec.c:565-618 | the whole invariant survives every spawn, completion, scan, recheck and poll step |
| `StealSleep.RunKeeps` | src/evt/task.c:478-519 | the equation holds in every reachable state |
| `StealSleep.NeverStranded` | src/evt/exec.c:565-593 | a loop blocked without a time limit while a peer has a live unpinned task has a wakeup pending or being written, or that peer's scan still to reach it |
| `StealCalls.SpawnDone` | src/evt/exec.c:595-618 | a spawn is counted on its loop at once and published at its last step; the first live one has before that raised the count of loops and found every peer's flag down or written its wakeup |
| `StealCalls.FinishBegins` | src/evt/exec.c:595-618 | a completion is taken off its loop's counts at once, and its thread has more to do exactly if it was the loop's last |
| `StealCalls.FinishDone` | src/evt/exec.c:595-618 | the completion that leaves a loop without live unpinned tasks lowers the count of loops before its thread goes on |
| `StealCalls.BlockDone` | src/evt/exec.c:565-593 | a loop whose first look found no such task raises its flag, looks again, and blocks without a limit if and only if there is still none |
| `StealCalls.PollEnds` | src/evt/exec.c:565-593 | a poll that returns, or is not made after all, leaves its loop awake, and no wakeup is lost but those it consumed |
| `StealCalls.BellLedger` | src/evt/exec.c:565-618 | every wakeup written is consumed by a poll, once, or still pending |
| `TimerRefs.StepRefs` | src/evt/timer.c:164-177 | every step of drain, cancel, sweep, arm and release keeps each node's count equal to the references that exist |
| `TimerRefs.StepFires` | src/evt/timer.c:261-280 | every step keeps the fire-once rules of each node |
| `TimerRefs.StepKeeps` | src/evt/loop.c:843-923 | the whole invariant of nodes, slots and threads survives every step, also that of a fiber preempted in the middle of a call and resumed on another thread |
| `TimerRefs.MigrateKeeps` | src/evt/task.c:745-791 | a fiber that has pushed its park timer and not yet stored the slot, or is in a cancel or a release, takes what it holds to the thread it moves to |
| `TimerRefs.NoUseAfterFree` | src/evt/task.c:774-791 | whatever a thread is working on, the heap holds, a handle or a slot names is live, with an allocator that reuses nodes |
| `TimerRefs.CountIsExact` | src/evt/timer.c:164-177 | a live node's count is its heap and other reference, each dropped once, and exactly one thread frees it |
| `TimerRefs.FiresAtMostOnce` | src/evt/loop.c:843-923 | a timer fires at most once, never if a cancel returned 1, and the drain never finds a popped timer cancelled |
| `TimerRefs.WonStaysUnfired` | src/evt/timer.c:353-380 | once a cancel has won, no later step fires that node |
| `TimerRefs.NeverOverReleased` | src/evt/timer.c:164-170 | the guard against a count already at zero is never needed |
| `TimerFires.StepFate` | src/evt/loop.c:843-923 | every step keeps: a pending timer is in its heap or about to be, a claimed one has fired or one drain is about to fire it |
| `TimerFires.ClaimedFires` | src/evt/loop.c:853-878 | a live timer moved to fired that no drain has popped or is about to pop has fired once |
| `TimerFires.GoneOnceSettled` | src/evt/loop.c:843-923 | once its heap reference is gone a timer has fired exactly once, unless a cancel of it has won, and then not at all |
| `TimerFires.FreedOnceSettled` | src/evt/timer.c:164-177 | an armed timer is not freed before that |
| `TimerFires.FiresOnlyWhenDue` | src/evt/timer.c:261-280 | a timer fires only in a drain that found it due and has been at it since |
| `TimerFires.DrainDone` | src/evt/loop.c:843-923 | a drain that picks a timer leaves it as it was, not being due, or does not let go before it has fired or been won by a cancel; and of a park timer it fired it has cleared the task's slot where it named it |
| `TimerCalls.ArmDone` | src/evt/task.c:700-766 | an arming call that returns has freed the node, the heap not growing, or pushed it on the heap of the thread that armed it, with the handle or the task's slot naming it, wherever its fiber has moved meanwhile |
| `TimerCalls.CancelDone` | src/evt/timer.c:353-380 | a cancel that returns was decided at one of its steps: lost, the timer being pending no more; or won, marked, and taken off the heap if that is the heap of the thread it had come to |
| `TimerCalls.SlotDone` | src/evt/task.c:774-791 | a cancel of a task's park timer that returns has also given the slot's reference back, once |
| `TimerCalls.ReleaseDone` | src/evt/timer.c:164-177 | a release of a handle that returns has given its reference back at one step |
| `TimerCalls.SweepDone` | src/evt/timer.c:203-221 | a sweep takes a timer off the heap exactly if its look found it cancelled |
| `HeapSeq.SwapUpOrders` | bench/bench_timerq.c:247-257 | the upward sift restores heap order from a heap broken only at one entry and its parent |
| `HeapSeq.SwapDownOrders` | bench/bench_timerq.c:259-273 | the downward sift restores heap order from any level on |
| `HeapSeq.RootLeast` | bench/bench_timerq.c:308-315 | the root is a minimum |
| `HeapSeq.PushCorrect` | bench/bench_timerq.c:275-287 | a push keeps heap order and adds exactly the new entry |
| `HeapSeq.RemoveCorrect` | bench/bench_timerq.c:289-306 | removing any index keeps heap order and takes out exactly that entry |
| `HeapSeq.SweepCorrect` | src/evt/timer.c:203-221 | dropping the cancelled entries and rebuilding gives a heap of exactly the others |
| `TimerHeap.HoleUp` | src/evt/timer.c:56-71 | one move of the hole upward leaves the array and back-pointers the swapping sift would |
| `TimerHeap.HoleDown` | src/evt/timer.c:73-91 | the hole takes the child the swapping sift would exchange, ties included |
| `TimerHeap.IdxRemoveLinks` | src/evt/timer.c:188-200 | after a removal every slot's node points back at it and no other node points anywhere |
| `TimerHeap.IdxSweepLinks` | src/evt/timer.c:203-221 | the same after a sweep |
| `TimerHeap.Timers.SiftUp` | src/evt/timer.c:56-71 | the array equals the one the swapping sift leaves |
| `TimerHeap.Timers.SiftDown` | src/evt/timer.c:73-91 | the array equals the one the swapping sift leaves |
| `TimerHeap.Timers.RemoveAt` | src/evt/timer.c:188-200 | keeps heap order, back-pointers and slot keys, and is the reference heap's removal |
| `TimerHeap.Timers.SweepCancelled` | src/evt/timer.c:203-221 | keeps heap order, back-pointers and slot keys, and drops exactly the cancelled nodes |
| `TimerHeap.Timers.Grow` | src/evt/timer.c:96-108 | 8 slots, then doubling, with the contents moved |
| `TimerHeap.Timers.MakeRoom` | src/evt/timer.c:120-131 | a full array is swept first and grows only if still more than half full; an allocation failure leaves it swept |
| `TimerHeap.Timers.Arm` | src/evt/timer.c:116-142 | arming is the abstract operation, error path included |
| `TimerHeap.Timers.Cancel` | src/evt/timer.c:353-380 | a cancel on the owner's thread wins exactly if the timer is in the heap and unmarked, and takes it out |
| `TimerHeap.Timers.PopDue` | src/evt/timer.c:261-280 | discards cancelled roots and pops the root if it is due |
| `TimerHeap.Timers.NextDeadline` | src/evt/timer.c:282-291 | discards cancelled roots and reports the root's deadline, -1 for none |
| `TimerHeapRuns.StepRefines` | src/evt/timer.c:116-291 | every operation keeps heap order and is the operation of a plain multiset of live timers; a pop returns a minimum if due, else nothing |
| `TimerHeapRuns.RunRefines` | src/evt/timer.c:116-291 | the same at every step of every run |
| `TimerHeapRuns.NextIsLeast` | src/evt/timer.c:282-291 | what the look-ahead reports is the least live deadline, and -1 exactly when no timer is live |
| `TimerHeapRuns.RunCapacity` | src/evt/timer.c:120-131 | in every run the capacity never exceeds max(8, 4 * the peak number of uncancelled timers) |
| `SwapHeap.Bin.Up` | bench/bench_timerq.c:247-257 | the swapping code leaves the reference array and sound back-pointers |
| `SwapHeap.Bin.Down` | bench/bench_timerq.c:259-273 | the same downward |
| `SwapHeap.Bin.RemoveAt` | bench/bench_timerq.c:289-306 | the reference removal |
| `SwapHeap.HeapifyIdle` | src/evt/timer.c:219-220 | rebuilding a heap that is in order changes nothing |
| `SwapHeap.SameRun` | bench/bench_timerq.c:235-447 | for every sequence of operations, equal deadlines included, the runtime's heap and the swapping heap hold the same array after every operation and pop the same timers in the same order |
| `SwapHeap.ReplayOurs` | src/evt/timer.c:116-280 | the runtime's code computes the arrays and pops of the run of its heap |
| `SwapHeap.ReplayTheirs` | bench/bench_timerq.c:235-324 | the swapping code computes the arrays and pops of the run of its heap |
| `SwapHeap.Replay` | bench/bench_timerq.c:235-447 | the code of both heaps, run over any sequence of operations, computes those arrays and pops, and they are equal |
| `LaneGuard.ForcedIsOldest` | src/evt/sched.c:194-211 | the guard insists on the first ready lane with the largest counter at or over the limit, if any |
| `LaneGuard.ServiceKeepsAt` | src/evt/sched.c:236-249 | after a service at most K - 1 - j lanes are at or above max_bypass + j |
| `LaneGuard.RoundKeeps` | src/evt/sched.c:184-263 | select, service and the refresh after the run, or a selection after which thieves left nothing to pop, keep that bound at every level |
| `LaneGuard.NeverBypassedMore` | src/evt/sched.c:184-249 | in every run, for any policy and any thieves, empty dispatches included, no counter exceeds max_bypass + K - 2 |
| `LaneGuard.ServedSoon` | src/evt/sched.c:184-249 | over any stretch in which a ready lane waits, fewer than max_bypass + K - 1 services are made |
| `LaneShares.PickIsLeast` | src/evt/loop.c:681-700 | the pick is the first ready lane of least virtual runtime |
| `LaneShares.GapStays` | src/evt/loop.c:1038-1078 | for two lanes ready at every pick the gap never exceeds the larger of the starting gap and one accrual of theirs, whatever other lanes run and for how long |
| `LaneShares.AccrualNear` | src/evt/loop.c:1063-1076 | how much the reciprocal and the shift truncate |
| `LaneShares.AlwaysAdvances` | src/evt/loop.c:1046-1066 | for every number of shares a class may have, every run advances its lane's virtual time by at least its cost, a run of no time by a minimum quantum, absent 64-bit wrap |
| `LaneShares.RunsFollowShares` | src/evt/loop.c:666-715 | with equal costs of the two lanes' own runs their run counts follow the shares within an explicit error, absent 64-bit wrap of their times |
| `LaneShares.Seed` | src/evt/loop.c:784-799 | a new class starts at the least virtual runtime of the classes there are, the first at 0 |
| `RunLanes.RunQueue.Enqueue` | src/evt/loop.c:564-629 | a task tagged with a class of the loop joins the back of that class's queue and nothing else changes; any other leaves the class queues alone and joins the deque or the FIFO |
| `RunLanes.RunQueue.DefaultPop` | src/evt/loop.c:644-661 | takes the oldest of the FIFO or of the deque, alternating, a task with no class's tag, and comes back empty only when both are |
| `RunLanes.RunQueue.LeastVruntime` | src/evt/loop.c:681-700 | the loop computes the pick |
| `RunLanes.RunQueue.QueuePop` | src/evt/loop.c:666-715 | takes the oldest task of the picked lane, which has that lane's tag, or nothing if that was the default lane and thieves emptied it |
| `RunLanes.RunQueue.Select` | src/evt/sched.c:184-233 | resets lanes that are not ready; the lane is the oldest at the limit if there is one, else the policy's answer if that is ready, else none |
| `RunLanes.RunQueue.Fallback` | src/evt/loop.c:741-755 | finds a task if any class has one, whatever thieves do, and in the lane of the ordinary pick at that moment |
| `RunLanes.RunQueue.PolicyPop` | src/evt/loop.c:720-755 | serves the lane the guard insists on, else the policy's if ready, unless that is the default lane and was emptied; with no ready answer the ordinary pick; never hides class work behind idle |
| `RunLanes.RunQueue.Service` | src/evt/sched.c:235-249 | the served and the empty lanes restart, every other ready lane counts one more, saturating |
| `RunLanes.RunQueue.Ran` | src/evt/sched.c:251-261 | lanes that drained lose their age |
| `RunLanes.RunQueue.Dispatch` | src/evt/loop.c:1002-1009 | every dispatch, empty or not, is a round of the guard over the queues as they were, counts one run of the lane whose tag the task has and from which it was taken, and keeps the counting bound |
| `RunLanes.RunQueue.RanBounded` | src/evt/sched.c:251-261 | the end of a run keeps the counting bound |
| `RunLanes.RunQueue.constructor` | src/evt/loop.c:764-799 | a new queue has zero counters and virtual times and meets the counting bound |
| `RunLanes.RunQueue.FairTurn` | src/evt/loop.c:1038-1078 | a dispatch without a policy is a turn of the fair pick, with the run charged to the lane it came from |
| `CoroGuard.StepGood` | src/evt/coro_fctx.c:292-394 | every instruction of scheduler and fiber code and every tick keeps cursor, guard, proc pointer and stack consistent |
| `CoroGuard.RedirectSafe` | src/inc/coro_preempt.h:203-206 | in every run, guard clear and cursor set means the thread executes on the cursor's own stack |
| `CoroGuard.ProcRight` | src/evt/coro_fctx.c:631-685 | once the guard is clear a fiber sees its own proc; the scheduler sees none if and only if it is not at the instruction that takes the pointer back, or the fiber it came back from was no proc; and it accepts no redirect |
| `CoroGuard.OneStack` | src/evt/coro_fctx.c:356-378 | no fiber executes on two threads, given that a loop only runs a task no other loop runs; `TaskHolders.RunOnOneLoop` proves that of the scheduler |
| `CoroGuard.GuardIsFlag` | src/inc/coro_preempt.h:203-242 | a redirect is never armed over one whose registers are not saved |
| `CoroGuard.StepInvisible` | src/inc/coro_preempt.h:203-242 | a tick, and every step of a fiber in the trampoline, on whichever thread, leaves the fiber's own code where it was |
| `CoroGuard.RedirectReturns` | src/inc/coro_preempt.h:203-242 | a redirected fiber goes back to the very place the tick interrupted, the tail of a yield included, however often it is preempted again and wherever it is resumed |
| `CoroGuard.NeverNested` | src/inc/coro_preempt.h:222-226 | with the safe-point check redirects never nest: every trampoline returns to the fiber's own function |
| `CoroGuard.StaleProc` | src/evt/coro_fctx.c:382-394 | a run that reaches that one instruction with the guard clear and the old proc still named |
| `CoroFlow.StepGoes` | src/evt/coro_fctx.c:292-394 | over one step a fiber's own code moves to its next place exactly at its own instructions, to a yield or its end exactly at a yield or return of its own, and nowhere otherwise |
| `CoroFlow.YieldDone` | src/evt/coro_fctx.c:654-685 | a yield suspends the fiber, and when it is over, on whichever thread and however often preempted, the function that called it goes on |
| `CoroFlow.EndsByReturning` | src/evt/coro_fctx.c:292-318 | in every run a fiber is past its function, under any trampolines, if and only if its function has returned |
| `CoroFlow.OwnIsLast` | src/evt/coro_fctx.c:631-685 | a fiber is the proc it last became, whatever threads it has run on |
| `CoroFlow.AcceptedWhere` | src/inc/coro_preempt.h:203-242 | a tick is accepted exactly on a fiber in its function, at either end of a yield or at its end, with the guard clear |
| `CoroFlow.RedirectSuspends` | src/inc/coro_preempt.h:203-242 | an accepted tick makes its fiber give up the thread: until suspended it is on its way there and nowhere else |
| `CoroFlow.TrampolineEnds` | src/inc/coro_preempt.h:203-242 | every instruction of a fiber in the trampoline brings it one closer to the interrupted place |
| `KvOrder.LowestUnique` | bench/bench_topk.c:75-88 | the K lowest of a set of entries are one set |
| `KvOrder.IsTopK` | bench/bench_topk.c:466-476 | an increasing sequence of the K lowest entries is the first K of the full sort |
| `TopKStream.TopkRepl` | bench/bench_topk.c:98-114 | replacing the worst returns the first K of the sort, K = 0 included |
| `TopKStream.Rise` | bench/bench_topk.c:124-129 | the upward sift keeps the max-heap and adds the entry |
| `TopKStream.Sink` | bench/bench_topk.c:131-138 | the downward sift keeps the max-heap with the root replaced |
| `TopKStream.TopkBh` | bench/bench_topk.c:117-142 | the bounded heap returns the first K of the sort, K = 0 included |
| `TopKStream.TopkSort` | bench/bench_topk.c:466-476 | the reference returns the first K of the sort |
| `QuickSelect.Hoare` | bench/bench_topk.c:163-173 | the partition permutes its stretch and splits it around the pivot, both sides non-empty |
| `QuickSelect.SelHoare` | bench/bench_topk.c:158-176 | for any pivots the first k slots hold the k lowest, and the rest is a permutation |
| `QuickSelect.PartScalar` | bench/bench_topk.c:182-193 | both outputs are the two filtered sequences in order, also when one lies over the input |
| `QuickSelect.Round` | bench/bench_topk.c:299-315 | one round keeps the side of the rank, splitting the pivot off when nothing is less |
| `QuickSelect.SelPart` | bench/bench_topk.c:293-318 | the first k slots hold the k lowest, stale copies beyond them notwithstanding |
| `TopKBuffer.CoverLowest` | bench/bench_topk.c:347-371 | the K lowest of a covering buffer are the K lowest of everything seen |
| `TopKBuffer.ThresholdSkips` | bench/bench_topk.c:346-356 | a later arrival at or over the threshold has K entries below it |
| `TopKBuffer.TopkQs` | bench/bench_topk.c:321-382 | the 2K buffer with its threshold filter and either cut returns the first K of the sort |
| `BucketHeap.Buckets.Push` | bench/bench_topk.c:397-403 | keeps the bucket and pivot order and adds the entry |
| `BucketHeap.Buckets.Pop` | bench/bench_topk.c:405-436 | returns and removes the minimum, keeping the order |
| `BucketHeap.TopkSqh` | bench/bench_topk.c:438-463 | pushing all and popping K returns the first K of the sort |
| `RadixHeap.DiffIsLength` | bench/bench_timerq.c:866-871 | the length of the exclusive or of two keys is how often both must be halved to become equal |
| `RadixHeap.LowerBucket` | bench/bench_timerq.c:858-871 | lower buckets hold lower keys |
| `RadixHeap.SameFalls` | bench/bench_timerq.c:946-954 | entries of the bucket that last moves into land strictly lower |
| `RadixHeap.BucketFits` | bench/bench_timerq.c:866-882 | a 63-bit key lands in one of the first 64 buckets, so the 64-bit mask has a bit for it |
| `RadixHeap.Radix.Push` | bench/bench_timerq.c:896-904 | adds the entry and keeps the cached minimum |
| `RadixHeap.Radix.Cancel` | bench/bench_timerq.c:906-917 | removes the entry and forgets the cached minimum when it may have gone |
| `RadixHeap.Radix.MinAbove` | bench/bench_timerq.c:920-934 | the cached or recomputed minimum above bucket 0 |
| `RadixHeap.Radix.Deal` | bench/bench_timerq.c:946-956 | keeps the contents, moves last up, and every entry lands in a lower bucket |
| `RadixHeap.Radix.PopDue` | bench/bench_timerq.c:937-967 | only a due entry; at a clock not behind last, nothing if and only if nothing is due; while nothing is below last a minimum if due, with nothing below last afterwards |
| `RadixHeap.Radix.Next` | bench/bench_timerq.c:969-979 | -1 exactly when empty; the least key while nothing is below last; else last itself |
| `RadixHeap.AlwaysLeast` | bench/bench_timerq.c:852-857 | in every run no push of which is below last, with cancels anywhere, each pop returns a minimum if due, else nothing |
| `RadixHeap.TimelyNotBelow` | bench/bench_timerq.c:852-857 | pushes no earlier than the clock readings before them are never below last |
| `RadixHeap.Replay` | bench/bench_timerq.c:896-967 | the code run over any operations is such a run |
| `Wheel.LevelIsDigit` | bench/bench_timerq.c:999-1002 | the level from the highest differing bit is the highest differing base-64 digit |
| `Wheel.CascadeFalls` | bench/bench_timerq.c:1068-1080 | a cascaded timer is not before its slot's start and lands on a strictly lower level |
| `Wheel.CascadeFits` | bench/bench_timerq.c:1068-1080 | the timers of other slots are still where the moved current tick wants them |
| `Wheel.StartEarliest` | bench/bench_timerq.c:1062-1067 | the lowest slot's start is no later than any timer above level 0 |
| `Wheel.Timers.Insert` | bench/bench_timerq.c:992-1007 | the timer goes to its level and slot |
| `Wheel.Timers.Cancel` | bench/bench_timerq.c:1028-1037 | removes the timer |
| `Wheel.Timers.Cascade` | bench/bench_timerq.c:1068-1080 | keeps the contents and empties the slot into lower levels |
| `Wheel.Timers.PopDue` | bench/bench_timerq.c:1041-1081 | returns a timer released first, if its release tick is past, and moves the current tick to it; else nothing, passing no timer |
| `Wheel.PopExact` | bench/bench_timerq.c:1040-1081 | a pop never returns a timer before its deadline, and returns one if and only if some timer's tick and the current one are both past |
| `Wheel.NeverWithheld` | bench/bench_timerq.c:1040-1081 | in every run, a pop at a clock not behind any earlier one comes back empty only if no timer is a whole tick overdue |
| `Wheel.ClockBack` | bench/bench_timerq.c:992-1007 | a run in which the clock goes back and a timer overdue by two ticks is withheld |
| `Wheel.Replay` | bench/bench_timerq.c:992-1081 | the code run over any operations is such a run |
| `Wheel.NextExact` | bench/bench_timerq.c:1084-1102 | no timer is released before the lowest used slot starts, and with one in the current block of 64 ticks, one is released exactly then |
| `Wheel.Timers.Next` | bench/bench_timerq.c:1084-1102 | -1 exactly when empty; else no timer is released before it, and with one in the current block it is exactly when the first is |
| `Wheel.Timers.PopNext` | bench/bench_timerq.c:1041-1102 | a pop at that time returns a timer or moves the current tick forward, so sleeping until then always makes progress |
| `QuickLayers.DropLayers` | bench/bench_timerq.c:1262-1273 | dropping a bucket with its pivot keeps the order |
| `QuickLayers.SplitLayers` | bench/bench_timerq.c:1381-1424 | splitting the bottom bucket keeps the order |
| `QuickLayers.SweptLive` | bench/bench_timerq.c:1451-1467 | compacting every bucket leaves exactly the timers not cancelled |
| `QuickHandles.SplitHandles` | bench/bench_timerq.c:1388-1409 | a split rewrites the handle of every entry of the bucket and of no other |
| `QuickHandles.CutHandles` | bench/bench_timerq.c:1262-1273 | a handle survives the dropping of other buckets, since bucket ids are stable |
| `QuickHandles.TakenHandles` | bench/bench_timerq.c:1275-1287 | the entry that fills a gap gets its new position, and every other handle stands |
| `QuickHeap.Queue.Push` | bench/bench_timerq.c:1247-1259 | keeps order and handles and adds the timer |
| `QuickHeap.Queue.RemoveAt` | bench/bench_timerq.c:1275-1294 | keeps order and handles, takes out exactly that entry and drops an emptied bucket |
| `QuickHeap.Queue.Partition` | bench/bench_timerq.c:1353-1427 | keeps contents, order and handles, and a split leaves a smaller bottom bucket |
| `QuickHeap.Queue.BottomMin` | bench/bench_timerq.c:1430-1448 | finds a minimum of everything, -1 only when empty |
| `QuickHeap.Queue.Sweep` | bench/bench_timerq.c:1451-1473 | drops exactly the cancelled entries and the buckets they emptied |
| `QuickHeap.Queue.CancelEager` | bench/bench_timerq.c:1476-1484 | finds the timer through its handle and takes out exactly it |
| `QuickHeap.Queue.CancelLazy` | bench/bench_timerq.c:1485-1490 | marks the timer and leaves the other live ones, sweeping or not; the counters equal what they count, and afterwards no more than 32 or than the live ones are marked |
| `QuickHeap.Queue.PopDue` | bench/bench_timerq.c:1493-1516 | a minimum live timer if due, else nothing; only cancelled entries go besides |
| `QuickHeap.Queue.Next` | bench/bench_timerq.c:1519-1539 | the least live deadline, -1 when there is none |
| `QuickCounts.TallySweeps` | bench/bench_timerq.c:1451-1473 | a sweep leaves no marked entry to count and the live count as it was |
| `QuickCounts.TallyMarks` | bench/bench_timerq.c:1485-1490 | marking a live timer moves one from the live count to the marked one |
| `QuickRuns.Replay` | bench/bench_timerq.c:1247-1539 | the code run over any starts, stops, pops and looks is a run on a plain multiset of live timers: a pop returns a minimum if due, else nothing, a look the least deadline; with eager cancels every entry is a live timer's |

## Left out

- Weak memory: all protocols are proved for sequentially consistent steps; the acquire, release and relaxed orders of the C code are not modelled.
- I/O backends, polling internals and fd registries: a poll is a step that returns when a wakeup is pending or at any other moment.
- Assembly context switches, signal frames and vector-state saving: a switch is one transfer of control. Which addresses are safe points is a hypothesis of `CoroGuard.NeverNested`; the other theorems hold without it.
- Nested loop runs inside a coroutine, and the ucontext and Windows-fiber variants of the coroutine file.
- AVX2 and AVX-512 partitions and filters; the scalar versions carry the properties.
- Simulator fault injection, buggify branches and the simulator's late timer re-arm.
- The 4-ary and 8-ary heaps of the timer bench, and its other queues (pairing heap, skip list, calendar queue and the like).
- Creation of run classes during a run, apart from the seed: the number of lanes is fixed, so a task's tag always names the lane it was popped from. Statistics counters, batch hints and `batch_next`, which only feed a policy's choice, are left out.
- Loop finalization, supervisors, procs, mailboxes, channels and the rest of the runtime above the scheduler.
- Random pivot choice is any choice, the allocator answers any way, libc's qsort is modelled by its contract, and a user policy may answer anything.
- Timer nodes' reference counts are the subject of `TimerRefs`; the heap's methods in `TimerHeap` do not repeat them. A cancel from another thread acts between heap operations there, which loses nothing since each node's mark is read once.
- TopKStream.TopkRepl: for K = 0 and some input the output needs one slot, which the source reads and may write; the same for TopKStream.TopkBh.
