# A verified model of the runtime's core

This project models the single-threaded async runtime's core in Dafny and proves what each part
promises. Five parts are modelled.

* **Lifecycle of a spawned future.** One machine word packs five flags and a reference count and
  decides when a future is polled or dropped, when an output is taken, when a runnable is queued
  and when memory is released. `TaskFlags` states every transition on the unpacked view,
  `TaskState` proves that the packed word of `src/task/state.rs` implements it bit by bit,
  `TaskLifecycle` turns the transitions into a step system in which user code may act at every
  point where it gets control, and `RawTask` proves that the operations of `src/task/raw.rs`,
  `join.rs` and `header.rs` take exactly those steps. `TaskHistory` and
  `TaskEffects` say what the flags, the holders, the future and the output owe to the steps taken,
  flag by flag and quantity by quantity. `TaskSafety`, `TaskLeaks`, `TaskCoherence`, `TaskAwaiter`,
  `TaskReclaim`, `TaskCancel` and `TaskHandleDrop` prove properties of all runs of the step system,
  and `TaskWitnesses` exhibits a run for every property that fails.
* **Intrusive doubly linked list** with a draining filter (`LinkedList`), on pointers.
* **Timer wheel level** (`TimerLevel`): 64 of those lists, an occupancy word, and the deadline
  search by rotation, trailing zeros and masks; `TimerRun` empties a level slot by slot.
* **Layout arithmetic** (`TaskLayout`): wrapping and checked word arithmetic against the
  mathematical layout.
* **Executor loop** (`LocalQueue`, `Executor`) and **owned slices** (`Slices`).

Words are natural numbers below 2^64 (`MachineWord`); the bitwise operators are defined bit by bit,
so every relation between them and arithmetic is a proved lemma.

## How user code is modelled

The future, its destructor, the awaiter's waker and the destructor of an output are arbitrary: at
each such point any sequence of handle and waker steps may happen (poll, drop or cancel the handle;
clone, wake or drop a waker), mixed with anything that queues the runnables of other futures. The
run of a future is proved from every state that `TaskCoherence.RunIsCoherentOrLeaking` shows to be
reached. Debug assertions do not stop a transition; whether one fails is recorded. An abort on counter overflow ends the run; `unreachable!` ends the handle drop and leaves
the word unchanged. A second runnable never starts inside a run, because only the executor's loop
runs them.

## Where the code does not do what its comments say

Each point is a lemma with the exact condition, and each failure is reached: those of the lifecycle by
a run from a freshly spawned future in `TaskWitnesses`, those of the timer wheel by a level in
`TimerWitnesses`, that of the executor by a turn of a fresh one.

* `set_state` is documented to set the state and keep the count. It masks the word instead: for
  every word and every requested state the count is lost and no flag is newly set
  (`TaskState.MaskAnyState`), so the comment is true if and only if there is no count to keep and
  the requested flags are set already (`TaskState.MaskKeepsCountExactly`). A handle that is the last
  reference to an idle future therefore queues an unclosed runnable with one reference too many,
  and the memory is never released (`TaskWitnesses.IdleDropLeaks`).
* After any run whatsoever, dropping the handle leaves a future that can still be dropped and its
  memory released if and only if it never cancelled an idle future and the drop finds an unread
  output, or the last reference to a closed future that has been polled, or an open future with a
  runnable or a run in progress (`TaskHandleDrop.HandleDropExactly`). Otherwise: after the output
  was taken while a waker is held (`TaskWitnesses.TakenOutputDropPanics`), and after cancelling a
  running future (`TaskWitnesses.CancelThenDropPanics`), the drop reaches `unreachable!`; an idle
  future whose wakers outlive the handle is closed and later released without being dropped
  (`TaskWitnesses.WakerOutlivesHandle`); and a future that was never started is released without
  being dropped, cancelled or not (`TaskWitnesses.UnstartedDrop`, `TaskWitnesses.UnstartedCancel`).
* Starting a future does not set `SCHEDULED`, although the comments say a scheduled reference and
  the flag go together. Between the handle's first poll and the first run, dropping the handle
  fails a debug assertion (`TaskReclaim.CleanAssertions`, `TaskWitnesses.EarlyDropAsserts`), and
  cancelling queues a second runnable, so that the future is dropped twice
  (`TaskCancel.CancelFirstRunnable`, `TaskWitnesses.EarlyCancelDropsTwice`). Cancelling drops the
  future exactly once if and only if a poll has begun (`TaskCancel.CancelDropsOnceExactly`).
* Cancelling a future that the word shows as idle, which includes the time between the handle's
  first poll and the first run, counts the reference of its runnable twice, so the memory is never
  released (`TaskCancel.CancelReleasesExactly`, `TaskWitnesses.IdleCancelLeaks`).
* Over every run, memory is released exactly when the last holder goes and none of the three leaking
  steps was taken (`TaskLeaks.ReleasedExactly`).
* Releasing the memory does not drop the awaiter slot. After any run that released it, a waker is
  lost there if and only if the future had been polled and was not dropped
  (`TaskAwaiter.AwaiterLostExactly`, `TaskWitnesses.WakerOutlivesHandle`).
* Polling the handle of a cancelled future after its future is gone fails a debug assertion, though
  the comments describe that poll as the regular one (`TaskCoherence.AssertionsExactly`,
  `TaskWitnesses.PollAfterCancelAsserts`).
* On clean runs, a released future has been dropped once if it was started and not at all if it was
  not (`TaskReclaim.CountedAndReclaimed`, `TaskWitnesses.UnstartedDrop`).
* If the current slot of a wheel level is occupied, the deadline found is a whole rotation away and
  other occupied slots are passed over (`TimerLevel.DeadlineIsLeastExactly`,
  `TimerLevel.NoTimerMissedExactly`, `TimerWitnesses.PassedOverSlot`,
  `TimerWitnesses.PassedOverTimer`).
* Removing a timer that is in no list sets the bit of the list of its time, and fails the debug
  assertion, exactly if that list is empty (`TimerLevel.Level.RemoveEntry`,
  `TimerWitnesses.StrayRemoval`).
* The assertion that only the top level adds a rotation to a deadline fails on a lower level, with
  all timers in the 63 slots after the current one, exactly if none of them is due before the end of
  the rotation (`TimerLevel.TopLevelAssertionExactly`, `TimerWitnesses.LowerLevelAddsRotation`).
* The executor waits for the driver with the root flag set exactly if the root future woke itself
  during its own last poll and the queue is empty (`Executor.LocalExecutor.Turn`,
  `Executor.YieldingRootWaits`).

## Model

| member | source | states |
|---|---|---|
| TaskState.WordShape | src/task/state.rs:11-60 | the five flags are the five lowest bits, the count starts above them, and the abort bound is the highest bit |
| TaskState.PackUnpack | src/task/state.rs:11-65 | unpacking a word into five flags and a count loses nothing |
| TaskState.UnpackPack | src/task/state.rs:11-65 | every choice of flags and count is the view of a word |
| TaskState.SetFlags | src/task/state.rs:165-204 | setting flag bits changes exactly those flags and never the count |
| TaskState.ClearFlags | src/task/state.rs:161-192 | clearing with an inverted mask changes exactly those flags and never the count |
| TaskState.TestFlags | src/task/state.rs:157-200 | the mask test is true exactly if all flags of the mask are set |
| TaskState.RefCountBits | src/task/state.rs:206-208 | the shifted mask is the count of the view |
| TaskState.AddRef | src/task/state.rs:138-144 | adding one reference disturbs no flag and does not wrap below the maximum |
| TaskState.SubRef | src/task/state.rs:146-150 | subtracting one reference disturbs no flag; a count of zero wraps to the maximum |
| TaskState.MaskState | src/task/state.rs:210-213 | with `SCHEDULED` and `CLOSED` requested, every word loses its count and keeps of those two flags only what was set already |
| TaskState.MaskAnyState | src/task/state.rs:210-213 | for every word and every requested state: only requested flags that were set survive, and no count |
| TaskState.MaskKeepsCountExactly | src/task/state.rs:210-213 | the comment's promise (state set, count kept) holds if and only if the count is zero and the requested flags are set already |
| TaskState.Snapshot.IncrRef | src/task/state.rs:138-144 | aborts exactly at the maximal count, otherwise adds one |
| TaskState.Snapshot.SetState | src/task/state.rs:210-213 | the masking of any word by any state seen on the unpacked view |
| TaskState.Snapshot.SetScheduledClosed | src/task/state.rs:375-381 | the call in the handle drop and the waker drop: nothing newly set, count lost |
| TaskState.State.TransitionToRunning | src/task/state.rs:255-267 | the word transition commutes with unpacking, action and debug assertion included |
| TaskState.State.TransitionToIdle | src/task/state.rs:270-286 | the same for the end of a pending poll |
| TaskState.State.TransitionToScheduled | src/task/state.rs:289-308 | the same for a wake |
| TaskState.State.TransitionToCompleted | src/task/state.rs:311-328 | the same for completion |
| TaskState.State.TransitionToClosed | src/task/state.rs:330-353 | the same for cancellation, with the overflow abort |
| TaskState.State.DropJoinHandle | src/task/state.rs:355-406 | the same for all arms of the handle drop, including the unreachable one |
| TaskState.State.PollJoinHandle | src/task/state.rs:409-443 | the same for the handle poll |
| TaskState.State.IncrRef | src/task/state.rs:454-465 | aborts exactly if the word exceeded the signed maximum; otherwise adds one reference without wrapping |
| TaskState.State.DropWakerRef | src/task/state.rs:478-502 | the same for a waker drop, with the masked state |
| TaskState.State.DecrRef | src/task/state.rs:515-526 | the same for the end of a run's reference |
| TaskSafety.StepIsAccounted | src/task/raw.rs:264-413 | every step keeps the count at or above the number of holders; references nobody holds appear in three named steps only |
| TaskSafety.NeverFreedWhileHeld | src/task/raw.rs:399-454 | on every run whatsoever memory is released at most once and never while anyone holds it |
| TaskSafety.NeverTouchedAfterFree | src/task/raw.rs:399-454 | after the release nobody can take a step any more |
| TaskSafety.LeftoverIsNeverFreed | src/task/state.rs:515-526 | one reference too many keeps the memory for good, in every continuation |
| TaskSafety.NoPollAfterClose | src/task/raw.rs:323-336 | once closed, always closed, and no further poll begins |
| TaskHistory.FlagsAreHistory | src/task/state.rs:255-443 | after any run: still to be started iff the handle was never polled, completed iff an output was written, closed iff a step closed it, scheduled iff a wake has not been used up |
| TaskHistory.RecordedStep | src/task/state.rs:255-443 | which steps set and clear each flag, and that no other does |
| TaskHistory.RunUsesUpWake | src/task/state.rs:255-267 | beginning a run uses up the wake, so that only a later one requeues the future |
| TaskEffects.StepEffects | src/task/raw.rs:108-454 | which steps take and release each reference, queue a runnable, move the run on, poll and drop the future, write and read the output, panic or abort |
| TaskEffects.WhoMayAct | src/task/raw.rs:96-101 | who holds the future may take exactly the steps of its kind of reference |
| TaskLeaks.ReleasedExactly | src/task/raw.rs:399-454 | after any run the count is the number of holders plus the references left behind on the way; memory is released if and only if both are zero |
| TaskLeaks.HandleSeesLeaks | src/task/state.rs:330-353 | while the handle exists a reference is left over if and only if it cancelled a future that the word showed as idle |
| TaskCoherence.StepIsCoherent | src/task/state.rs:255-443 | every step but one keeps flags, queue, run stage, future, output and awaiter consistent |
| TaskCoherence.ExclusionOverRuns | src/task/raw.rs:289-397 | at most one runnable, none during a run; the future is dropped at most once and not polled afterwards; an output is written and read at most once |
| TaskCoherence.RunIsCoherentOrLeaking | src/task/state.rs:255-443 | after any run whatsoever the consistency holds, or a reference is left over that keeps the memory for good |
| TaskCoherence.WakeIsHonoured | src/task/raw.rs:120-131 | a wake of an open, incomplete future leaves it queued, or running with SCHEDULED set |
| TaskCoherence.NoWakeupLost | src/task/raw.rs:120-131 | on every run after a wake of an open, incomplete future it has been polled again, is closed or completed, or still has its runnable or, while running, the flag that requeues it |
| TaskCoherence.WaitingStep | src/task/header.rs:58-73 | a waiting handle stops waiting only by its own act or by being woken |
| TaskCoherence.JoinIsNeverForgotten | src/task/join.rs:52-81 | by the time of completion or closing, the waker of the last pending handle poll has been woken; until then the awaiter slot holds it |
| TaskCoherence.AssertionsExactly | src/task/state.rs:255-443 | which debug assertions can fail in any step, exactly: one in the handle drop, one in the handle poll |
| TaskAwaiter.AwaiterLostExactly | src/task/raw.rs:439-454 | after any run that released the memory, a waker is still stored in the awaiter slot if and only if the future was polled and not dropped |
| TaskAwaiter.NotifiesExactly | src/task/header.rs:58-81 | the stored awaiter is woken exactly by completion, by the end of a closed run, by a cancellation that takes effect and by another waker's ready poll; pending polls store theirs |
| TaskAwaiter.CancelWakesAwaiter | src/task/join.rs:39-45 | a cancellation that takes effect empties the awaiter slot and wakes what was stored |
| TaskReclaim.StepIsClean | src/task/state.rs:355-406 | clean steps keep the count equal to the number of holders |
| TaskReclaim.CountedAndReclaimed | src/task/raw.rs:289-413 | on every clean run the count is the number of holders, memory goes exactly with the last one, the future has then been dropped once if started and not at all if unstarted, its output consumed once, and the awaiter slot is empty |
| TaskReclaim.LastWakerFindsTaskClosed | src/task/state.rs:481-495 | on clean runs the last waker always finds the word closed and releases the memory |
| TaskReclaim.CleanAssertions | src/task/state.rs:389-395 | on clean runs a debug assertion fails exactly if the handle is dropped before the first run |
| TaskReclaim.OrderlyRunHasNoFault | src/task/state.rs:355-443 | on every orderly run no debug assertion fails and `unreachable!` is not reached |
| TaskReclaim.Drain | src/task/raw.rs:178-200 | a closed or completed future without surplus references can always be brought to its release |
| TaskCancel.CancelStopsTask | src/task/join.rs:31-50 | after cancelling a future that was polled before: no further poll, at most one runnable, and dropped exactly once when quiescent, in every continuation |
| TaskCancel.CancelThenAwait | src/executor/task.rs:17-20 | cancelling and awaiting waits for the stop: a poll of the handle, also from within the run, is ready if and only if nothing is queued and no poll is in progress, and the future's drop has begun by then |
| TaskCancel.CancelDropsOnceExactly | src/task/state.rs:330-353 | that a poll has begun is necessary as well as sufficient |
| TaskCancel.CancelFirstRunnable | src/task/state.rs:340-345 | cancelling before the first run queues a second runnable and drops the future twice |
| TaskCancel.CancelReleasesExactly | src/task/state.rs:340-345 | after any run, memory is never released after a cancellation if and only if the word shows an idle future, now or at an earlier cancellation |
| TaskHandleDrop.HandleDropExactly | src/task/join.rs:92-122 | after any run, dropping the handle leaves a reclaimable future if and only if it never cancelled an idle one and it is one of three drops |
| TaskHandleDrop.GoodDropReclaims | src/task/state.rs:375-401 | each of the three drops has a continuation that drops the future once and releases the memory |
| TaskHandleDrop.BadDropLeaks | src/task/state.rs:375-401 | after any other handle drop no continuation releases the memory with the future dropped |
| TaskWitnesses.UnstartedDrop | src/task/state.rs:358-361 | the memory of an unstarted future is released with the future in place |
| TaskWitnesses.IdleDropLeaks | src/task/state.rs:375-381 | the handle of an idle future, dropped as last reference, leaves one reference too many for good |
| TaskWitnesses.TakenOutputDropPanics | src/task/state.rs:396-401 | dropping the handle after the output was taken while a waker is held reaches `unreachable!` |
| TaskWitnesses.WakerOutlivesHandle | src/task/state.rs:389-395 | a waker that outlives the handle of an idle future: a failed assertion, then memory released with the future in place and the awaiter's waker lost |
| TaskWitnesses.EarlyDropAsserts | src/task/state.rs:389-395 | dropping the handle before the first run fails the assertion |
| TaskWitnesses.UnstartedCancel | src/task/state.rs:333-336 | a cancelled unstarted future is never dropped although its memory is released |
| TaskWitnesses.EarlyCancelDropsTwice | src/task/state.rs:340-345 | cancelling before the first run: two drops and memory kept for good |
| TaskWitnesses.IdleCancelLeaks | src/task/state.rs:340-345 | cancelling an idle future keeps the memory for good |
| TaskWitnesses.PollAfterCancelAsserts | src/task/state.rs:418-422 | polling the handle after a cancelled future is gone fails the assertion |
| TaskWitnesses.CancelThenDropPanics | src/task/state.rs:396-401 | dropping the handle after cancelling a running future reaches `unreachable!` |
| RawTask.Header.Notify | src/task/header.rs:58-73 | takes the awaiter and wakes it unless it is the caller's waker |
| RawTask.Header.Register | src/task/header.rs:78-81 | the new waker replaces the stored one |
| RawTask.RawTask.constructor | src/task/task_impl.rs:52-61 | spawning yields the initial state and queues nothing |
| RawTask.RawTask.CloneWaker | src/task/raw.rs:108-118 | refines the clone step |
| RawTask.RawTask.Schedule | src/task/raw.rs:264-287 | one more reference and one runnable, in front when yielding and behind otherwise; the guard waker leaves no trace |
| RawTask.RawTask.PushRunnable | src/executor/scheduler.rs:8-14 | scheduling goes to the back, yielding to the front |
| RawTask.RawTask.DoWake | src/task/raw.rs:120-131 | refines the wake step; a runnable it submits enters behind and nothing else in the queue moves |
| RawTask.RawTask.WakeByValOnce | src/task/raw.rs:156-165 | refines wake followed by drop, touching live memory only; a runnable enters behind |
| RawTask.RawTask.WakeByRefOnce | src/task/raw.rs:168-176 | refines the wake step; a runnable enters behind |
| RawTask.RawTask.DropWaker | src/task/raw.rs:184-200 | refines the waker drop; a runnable enters behind |
| RawTask.RawTask.DropTask | src/task/raw.rs:403-413 | refines the end of a run |
| RawTask.RawTask.PollInner | src/task/join.rs:52-81 | refines the handle poll; pending exactly if the caller's waker is owed a wake, ready with output exactly if the output was read; the runnable enters in front exactly if the poll starts the future |
| RawTask.RawTask.CancelHandle | src/task/join.rs:31-50 | refines the cancellation; a runnable enters behind |
| RawTask.RawTask.DropJoinHandle | src/task/join.rs:92-122 | refines the handle drop; a runnable enters behind |
| RawTask.RawTask.PopAndRun | src/task/raw.rs:289-397 | a whole run, with arbitrary user code at each point, takes exactly the steps of the step system; it reschedules exactly if its poll was pending, user code woke it during that poll and nobody closed it; the queue is the rest of the old one with the pushes of others in order and the rescheduled runnable behind those of the poll |
| RawTask.RunOrder | src/task/raw.rs:289-397 | a run goes to its end, in one of four orders: destructor after the last poll and before the notification, the run's reference last |
| RawTask.RawTask.FinishReady | src/task/raw.rs:351-373 | refines the path of a ready poll; only others' runnables are queued |
| RawTask.RawTask.FinishPending | src/task/raw.rs:374-394 | refines the path of a pending poll; a rescheduled runnable enters behind |
| RawTask.RawTask.CloseRun | src/task/raw.rs:325-336 | refines the path that drops a closed future; only others' runnables are queued |
| RawTask.RawTask.UserCode | src/task/raw.rs:96-101 | any legal sequence of handle and waker operations, mixed with pushes of other runnables, refines the same steps, and the queue is theirs in order |
| LocalQueue.Queue.Push | src/executor/queue.rs:37-39 | appends behind |
| LocalQueue.Queue.PushFront | src/executor/queue.rs:41-43 | inserts in front |
| LocalQueue.Queue.Pop | src/executor/queue.rs:45-47 | takes from the front; nothing exactly if empty |
| LinkedList.LinkedList.PushFront | src/utils/linked_list.rs:127-146 | the pointers stay well linked and the node is the new head |
| LinkedList.LinkedList.PopBack | src/utils/linked_list.rs:150-166 | removes exactly the last node and clears its pointers |
| LinkedList.LinkedList.IsEmpty | src/utils/linked_list.rs:169-176 | true exactly for the empty list |
| LinkedList.LinkedList.Last | src/utils/linked_list.rs:218-221 | the last node, if any |
| LinkedList.LinkedList.Remove | src/utils/linked_list.rs:184-216 | takes out exactly a contained node and clears its pointers; a clean foreign node changes nothing and yields None |
| LinkedList.ChainsAgree | src/utils/linked_list.rs:72-107 | following `next` from the head and `prev` from the tail visits the same nodes in opposite order |
| LinkedList.MatchingPartitions | src/utils/linked_list.rs:268-280 | every node is either drained or kept, once |
| LinkedList.MatchingByValue | src/utils/linked_list.rs:268-280 | with a verdict that depends on the value alone, exactly the nodes with accepted values are drained |
| LinkedList.DrainFilter.constructor | src/utils/linked_list.rs:248-258 | the walk starts at the head with everything unvisited |
| LinkedList.DrainFilter.Next | src/utils/linked_list.rs:268-280 | stops at the first accepted node, or at the end with nothing accepted; the list is then the kept nodes followed by the unvisited ones |
| LinkedList.DrainFilter.Collect | src/utils/linked_list.rs:261-281 | draining to the end yields exactly the accepted nodes in order and leaves exactly the others in order |
| TimerLevel.LevelMaxIsHighest | src/time/driver/wheel/level.rs:246-252 | the levels modelled are exactly those whose range fits in a word |
| TimerLevel.SlotForIsDivision | src/time/driver/wheel/level.rs:255-257 | the shift form of the slot equals the division form |
| TimerLevel.LevelStartIsRounding | src/time/driver/wheel/level.rs:146-148 | masking the low bits rounds down to the rotation's start |
| TimerLevel.SearchIsScan | src/time/driver/wheel/level.rs:192-204 | rotate, trailing zeros and modulus find the slot of a linear cyclic scan, despite the truncated rotation amount |
| TimerLevel.DeadlineValue | src/time/driver/wheel/level.rs:143-171 | the deadline is the start of the slot found; a rotation is added exactly if the slot is current or lies in the next rotation |
| TimerLevel.DeadlineWithinRotation | src/time/driver/wheel/level.rs:140-183 | the deadline lies after `now`, at most one rotation away |
| TimerLevel.DeadlineIsDue | src/time/driver/wheel/level.rs:132-190 | the deadline is the start of an occupied slot after `now`, the one in the result |
| TimerLevel.DeadlineIsLeastExactly | src/time/driver/wheel/level.rs:132-190 | it is the earliest such start if and only if the current slot is empty or the only occupied one |
| TimerLevel.Level.constructor | src/time/driver/wheel/level.rs:43-128 | 64 empty lists and a clear word |
| TimerLevel.Level.AddEntry | src/time/driver/wheel/level.rs:206-212 | the timer becomes head of the list of its own slot, nothing else moves, and the occupancy invariant holds |
| TimerLevel.Level.RemoveEntry | src/time/driver/wheel/level.rs:214-225 | a contained timer leaves its list and the bit follows emptiness; a stray one changes nothing, except that an empty list of its time gets its bit set and the debug assertion fails |
| TimerLevel.Level.TakeSlot | src/time/driver/wheel/level.rs:227-231 | the slot's list is handed over whole and replaced by an empty one |
| TimerLevel.NoTimerMissed | src/time/driver/wheel/level.rs:132-231 | with all timers in the 63 slots after the current one, the deadline is not later than any timer, and its slot holds exactly those due in its interval |
| TimerLevel.NoTimerMissedExactly | src/time/driver/wheel/level.rs:151-171 | with timers up to a rotation ahead, none is missed if and only if the current slot is empty or the only occupied one |
| TimerLevel.WindowAdvances | src/time/driver/wheel/level.rs:132-190 | after a slot is processed the remaining timers satisfy the same condition at the new instant |
| TimerLevel.AssertionExactly | src/time/driver/wheel/level.rs:151-171 | on a lower level the assertion about the top level holds if and only if the slot found lies behind the current one in the same rotation |
| TimerLevel.TopLevelAssertionExactly | src/time/driver/wheel/level.rs:151-171 | with all timers in the 63 slots after the current one it holds on a lower level if and only if some timer is due before the rotation ends |
| TimerRun.FireNext | src/time/driver/wheel/level.rs:132-231 | one search and hand-over yields the whole list of the slot due next, and all timers left are due in later slots |
| TimerRun.FireAll | src/time/driver/wheel/level.rs:132-231 | alternating the two empties the level: every non-empty list once, in increasing deadlines, each timer due within the slot starting at its deadline |
| TimerWitnesses.PassedOverSlot | src/time/driver/wheel/level.rs:151-171 | a word on which the deadline found comes after the start of another occupied slot |
| TimerWitnesses.PassedOverTimer | src/time/driver/wheel/level.rs:151-171 | a level with two timers on which the deadline found comes after one of them |
| TimerWitnesses.LowerLevelAddsRotation | src/time/driver/wheel/level.rs:151-171 | an instant and a word on which the assertion fails on the lower of two levels |
| TimerWitnesses.LastSlotAddsRotation | src/time/driver/wheel/level.rs:151-171 | in the last slot of a rotation it fails on every lower level that has a timer |
| TimerWitnesses.StrayRemoval | src/time/driver/wheel/level.rs:214-225 | removing a timer from an empty level breaks the agreement of word and lists |
| TaskLayout.PaddingIsExact | src/task/utils.rs:112-116 | the wrapped padding is what rounding up adds, or makes the next addition overflow |
| TaskLayout.RoundUpIsLeast | src/task/utils.rs:107-116 | rounding up gives the least multiple not below |
| TaskLayout.IsPow2Exactly | src/task/utils.rs:95-101 | the test for powers of two accepts exactly the powers of two |
| TaskLayout.ExtendExactly | src/task/utils.rs:88-105 | succeeds if and only if the mathematical layout fits in a word; the offset is then the least aligned one |
| TaskLayout.ExtendRefuses | src/task/utils.rs:95-101 | an alignment that is no power of two is refused |
| TaskLayout.PartsFit | src/task/raw.rs:63-88 | header, scheduler and shared region are disjoint, each as early as possible, and the layout ends with the region |
| TaskLayout.PartsAligned | src/task/raw.rs:63-88 | every part is aligned for every aligned base address |
| TaskLayout.TaskLayoutExactly | src/task/raw.rs:63-88 | the layout exists if and only if the parts, each at its least offset and padded at the end, fit in a word |
| Executor.LocalExecutor.ShouldPoll | src/task/waker_fn.rs:22-24 | reads and clears the root flag |
| Executor.LocalExecutor.RunBatch | src/executor/executor.rs:85-95 | the loop computes the batch of the specification, for arbitrary effects of the runs |
| Executor.LocalExecutor.Turn | src/executor/executor.rs:84-111 | the root is polled exactly if it was woken; the executor waits only with an empty queue, and then the flag is set exactly if the root woke itself in that poll |
| Executor.YieldingRootWaits | src/task/yield_now.rs:10-18 | a root that yields once, with nothing queued, leaves the executor waiting with the root flag set |
| Executor.BatchKeepsOrder | src/executor/executor.rs:86-95 | the initial entries run in order and none is lost or repeated |
| Executor.BatchIsFair | src/executor/executor.rs:86-95 | at most 2n+1 runs, and all n initial entries run if at most n+1 entries are pushed to the front |
| Executor.BatchConserves | src/executor/executor.rs:86-95 | what ran and what is left is what was queued and what the runs pushed, each entry as often |
| Executor.BatchWakesExactly | src/executor/executor.rs:86-95 | the batch wakes the root exactly if one of its runs does |
| Executor.PushedInOrder | src/executor/scheduler.rs:8-14 | front pushes end up in front, the last first, and back pushes behind in order |
| Executor.FairnessBoundIsTight | src/executor/executor.rs:86-95 | with n+2 entries pushed to the front an initial entry can be left over |
| Slices.NestingIsOneSlice | src/buf/slice.rs:89-119 | nesting to any depth shows the bytes of one slice with summed offsets |
| Slices.Buf.NewSlice | src/buf/slice.rs:27-32 | a slice exists exactly under the three asserted conditions; it is then well formed and shows the bytes from `begin` on, up to `end` |
| Slices.Buf.SetInit | src/buf/slice.rs:126-128 | the initialised length becomes `pos` if and only if `pos` does not exceed the capacity of the view, which it becomes otherwise |
| Slices.Buf.Write | src/buf/slice.rs:99-105 | a write through a view changes exactly one byte, at the summed offset |

## Left out

- Several futures at once: the step system follows one, and what others do to it appears as steps of user code; wakers of others are identities.
- User code inside a custom scheduler's `schedule`: pushing the runnable is one atomic step.
- The panic guard in `run`, `Task::drop`, the legacy `State::cancel` and `run_right_away`.
- Allocation, vtables, pointer casts and pinning: memory is a ghost record of being live or released.
- The closure of a draining filter has a state of its own but does not change the value of a node.
- The other levels of the wheel and the driver that moves timers between them are not part of this model: one level from 0 to 9, whose range fits in a word, at instants whose next rotation does not overflow; the number of levels is a parameter of the assertion about the top one.
- The timer's cached instant does not change while the timer is in a level.
- The executor's outer loop, the driver's `submit` and `park`, and the io_uring driver.
- Building a slice from a range, and `SliceMut`, which repeats `Slice`.
- Debugging, thread identities and string forms of the state.
