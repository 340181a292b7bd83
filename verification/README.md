# Verified model of frankenlibc's stateful core

frankenlibc runs the rump kernel as an ordinary program on bare platforms. This project models the
parts of it that hold state and interleave, and proves what they keep over every run:

- **The cooperative scheduler** (`franken/thread/thread.c`): threads, wait queues, mutexes, condition
  variables, join and exit. `SchedModel` is a transition system whose steps are the calls a running
  thread can make, external wakes, and the scheduler's own choice and resumption of a thread. A `Run` is
  any sequence of enabled steps from the initial state. `SchedInvariant` proves what every step keeps;
  `SchedFairness`, `SchedMutex`, `SchedWaits`, `SchedLifecycle`, `SchedCalls` (what every call comes to) and
  `SchedTimes` (deadlines) prove the properties of whole runs. `Scheduler` is the code itself: a class with
  the source's globals, whose methods, loops included, are proved equal to the transitions. `Clock` is the
  deterministic platform's clock that `Schedule` idles on.
- **The allocator** (`franken/malloc/malloc.c` over `platform/qemu-arm/mmap.c`): a byte array, in which
  headers and free-list links are real bytes. `Placement` is the bucket search and the address arithmetic,
  `HeapModel` the heap invariant and its transitions, `Malloc` the routines on the array. A caller sees
  the heap as `Contents`: the usable bytes of every live payload.
- **The system call proxy** (`librumpuser/sysproxy.c`): `Frames` is the length-prefixed splitter that
  serves as the reference, `FrameReader` the incremental reader on a socket that delivers what it likes
  and the dispatch of frames with the buffer handling of every branch, `Buffers` the record of who has to
  free each buffer, `FrameSender` the scatter-gather sender on a socket that accepts what it likes,
  `SendLock` the send lock under any interleaving together with what it protects, and `RoundTrip` joins
  sender, lock and receiver. `WorkerPool` is the worker threads and the work list, `Clients` and
  `ClientRuns` the client table: slots, reference counts, disconnects and response waiters;
  `ClientProgress` proves what its steps achieve. The classes `Connection`, `Pool` and, in `ClientServer`,
  `Server` are the code of lock, pool and table: each has a `Perform` that carries out any event as the
  transition system says.
- **The commpage clock** (`platform/darwin/gettimeofday.c`): 64.64 fixed point on machine words.

Concurrency is modelled as steps: one step is what happens while a mutex is held, or, in the scheduler, up
to the next switch. Wakeups may be spurious, signals wake an arbitrary sleeper, reads and writes are cut
anywhere, a clock reading passed to `Choose` is arbitrary. Integers are unbounded; where a machine width
matters the remainder is written out. Values from outside (time, socket behaviour, failing allocations,
failing thread creation) are parameters or fields that the proofs know nothing about.

Where the code and its comments or evident intention differ, the code is followed:

- `dosend()` sets ENOTCONN for EPIPE and then overwrites it, so EPIPE is what comes back.
- `schedulework()` never increments `retries`, so it gives up only when no worker exists: `ScheduleWork`.
- A frame of class ERROR never reaches `kickwaiter()`; the main loop answers it as malformed.
- The main loop leaves `maxidx` alone when no client at all is left, so it is an upper bound only.
- `aligned_alloc()` does not check its size sum, nor `calloc()` its product. `FitsExactlyWhenNoWrap` and
  `StaysInBlockExactly` are the exact conditions for the size and for the place of the payload, the
  contract of `Calloc` that for the product; `WrappedRequest`, `PlacedOutside` and `WrappedProduct` are
  inputs for which they fail.
- Not every buffer is freed. A second response to a request overwrites the pointer to the first one, a
  disconnect in the middle of a body zeroes the pointer to it, and a waiter that leaves with an error does
  not free its answer. `ServeConnection` and `Leave` state exactly when that happens; `TwoResponses`,
  `LostResponse` and `HalfRead` are inputs.
- A failed `mmap()` has still rounded the base of free memory up.
- The loop that would re-read the commpage ends in an unconditional `break`; the stamp is read once.
- The microseconds drop the low half of the fraction first, so they can be one less than the exact
  value: `MicrosAreTight` says when, `OneLessHappens` gives an input.

## Model

| member | source | states |
|---|---|---|
| SchedModel.FirstReadyIn | franken/thread/thread.c:203-218 | the scan stops at the first thread that is runnable or whose deadline has passed, and only there |
| SchedModel.FindWanted | franken/thread/thread.c:324-329 | the search of the join queue finds the first waiter for the thread, or none |
| SchedInvariant.WakeKeeps | franken/thread/thread.c:454-461 | waking a thread, at any time, keeps the invariant: run and exited lists disjoint and duplicate-free, `onlist` equal to queue membership, nobody on two queues, joiner and target in agreement |
| SchedInvariant.WakeupOneKeeps | franken/thread/thread.c:572-582 | so does waking the first waiter of a queue |
| SchedInvariant.WakeupAllKeeps | franken/thread/thread.c:584-594 | so does waking all of them |
| SchedInvariant.WaitOnKeeps | franken/thread/thread.c:544-558 | so does the beginning of `wait()` |
| SchedInvariant.FinishWaitKeeps | franken/thread/thread.c:559-570 | so does its end, after a wakeup, a timeout or both |
| SchedInvariant.CreateKeeps | franken/thread/thread.c:253-290 | so does creating a thread |
| SchedInvariant.JoinKeeps | franken/thread/thread.c:348-372 | so does joining, whether the target has arrived or not |
| SchedInvariant.ExitKeeps | franken/thread/thread.c:314-346 | so does exiting, at the gate and past it |
| SchedInvariant.GateKeeps | franken/thread/thread.c:320-333 | arriving at the gate wakes the joiner, so nobody sleeps on a thread that has arrived |
| SchedInvariant.ChooseKeeps | franken/thread/thread.c:190-238 | so does choosing, switching and reaping |
| SchedInvariant.ResumeKeeps | franken/thread/thread.c:544-570 | so does carrying on inside the call a thread was parked in |
| SchedInvariant.LeaveKeeps | franken/thread/thread.c:656-665 | so does leaving a mutex |
| SchedInvariant.StepKeeps | franken/thread/thread.c:190-665 | every enabled step keeps the invariant |
| SchedInvariant.RunKeeps | franken/thread/thread.c:190-665 | the invariant holds in every state of every run |
| SchedFairness.StepAdvances | franken/thread/thread.c:203-218 | in any step a runnable thread that is not chosen stays runnable and listed, and a choice of another brings it one place forward |
| SchedFairness.StaysInLine | franken/thread/thread.c:190-227 | over any stretch of a run in which it is not chosen its place drops with every choice |
| SchedFairness.BoundedBypass | franken/thread/thread.c:190-227 | in every run a runnable thread at place k is chosen before more than k choices are made, whatever creates, exits, wakes and timeouts happen in between |
| SchedMutex.MutexStep | franken/thread/thread.c:617-665 | what each step does to each mutex: only an entry increases the count, only an exit decreases it, and only at zero is the owner cleared |
| SchedMutex.CountIsOwnersDepth | franken/thread/thread.c:617-665 | in every run where only holders leave, the count is the nesting depth of the owner, counted from the history, and every other lwp has depth zero |
| SchedMutex.MutualExclusion | franken/thread/thread.c:617-665 | no two lwps hold a mutex |
| SchedMutex.CvWaitReturnsHolding | franken/thread/thread.c:847-912 | a condition wait that returns holds its mutex, whether signalled or timed out |
| SchedMutex.NoLostWakeup | franken/thread/thread.c:544-594 | whenever a mutex is free and has sleepers, some thread taken off its queue is runnable and about to retry, also with barging and spurious wakes |
| SchedMutex.FewChoicesWhileFree | franken/thread/thread.c:190-227 | while nobody takes such a mutex the scheduler makes at most one choice for each listed thread |
| SchedMutex.FreeMutexIsTaken | franken/thread/thread.c:617-628 | a free mutex with sleepers is taken by somebody within that many choices |
| SchedWaits.StepTurns | franken/thread/thread.c:544-594 | in any step exactly the threads removed by a wakeup become pending, exactly those that return 0 cease to be, and what is left of the queue keeps its order |
| SchedWaits.OneReturnForEachWakeup | franken/thread/thread.c:544-594 | in every run removals of a thread from a queue by wakeups equal its returns of 0, plus one if it has not resumed yet |
| SchedWaits.TimeoutLeavesQueue | franken/thread/thread.c:559-570 | a wait that returns ETIMEDOUT was still on its queue and leaves every queue |
| SchedWaits.StepMovesUp | franken/thread/thread.c:572-594 | a waiter moves up by at least the number of removals and is never overtaken |
| SchedWaits.FirstInFirstOut | franken/thread/thread.c:572-594 | in every run a waiter at place k has seen at most k removals while it stays |
| SchedLifecycle.StepFollows | franken/thread/thread.c:314-372 | how any step may change a thread's must-join and joined marks and its frame |
| SchedLifecycle.ArrivedMeansExited | franken/thread/thread.c:314-333 | a thread marked joined has called `exit_thread()` earlier in the run |
| SchedLifecycle.JoinReturnsAfterExit | franken/thread/thread.c:348-372 | `join_thread()` returns only after the target called `exit_thread()` |
| SchedLifecycle.NeverBothBlocked | franken/thread/thread.c:314-372 | joiner and target are never both blocked on each other |
| SchedLifecycle.LeavesOnlyAfterJoin | franken/thread/thread.c:335-339 | a joinable thread leaves the run list only after a join of it has returned |
| SchedLifecycle.FreedOnceAndForAll | franken/thread/thread.c:229-237 | a freed thread is never again current, listed, waiting or freed |
| SchedLifecycle.FreedExactly | franken/thread/thread.c:229-237 | a thread is freed in exactly the steps in which one that has run before is switched to while it is on the exited list |
| SchedCalls.EnterEnds | franken/thread/thread.c:617-628 | a call of `mutex_enter()`, the first attempt or one after a wait, returns with the mutex one level deeper and owned by the caller if it was free or the caller's own, and otherwise leaves the mutex alone and the thread blocked in its queue; it never returns without the mutex |
| SchedCalls.TryEnterEnds | franken/thread/thread.c:642-654 | `mutex_tryenter()` always returns, with the mutex exactly if it was free or the caller's own |
| SchedCalls.WaitBlocks | franken/thread/thread.c:544-558 | a wait puts its thread last in the queue, blocked until its deadline, with one level less of its mutex |
| SchedCalls.WaitReturns | franken/thread/thread.c:559-570 | a resumed wait without a mutex to take again returns to its caller |
| SchedCalls.RemovedRuns | franken/thread/thread.c:572-594 | in every run, whoever a wakeup takes off a queue is on the run list and runnable |
| SchedCalls.WokenRuns | franken/thread/thread.c:454-461 | a wake by name puts any listed thread that is not running in line |
| SchedCalls.CreatedRuns | franken/thread/thread.c:253-290 | a new thread is in line behind all others, joinable as asked, and the creator goes on |
| SchedCalls.YieldGivesWay | franken/thread/thread.c:190-238 | a thread that yields stays in line and the scheduler chooses |
| SchedCalls.JoinEnds | franken/thread/thread.c:348-372 | `join_thread()` returns exactly if the target has arrived, and then the target is in line and no longer to be joined; otherwise the caller is blocked and on record as the one that waits for it |
| SchedCalls.ExitEnds | franken/thread/thread.c:314-346 | `exit_thread()` never returns: a joinable thread is blocked at the gate with its joiner in line, another is off the run list and on the exited list |
| SchedCalls.NeverComesBack | franken/thread/thread.c:335-346 | in every run a thread that has exited is never listed, chosen or running again |
| SchedCalls.LwpIsLastSet | franken/thread/thread.c:172-177 | in every run the lwp of a thread is what that thread has set last, and none at first |
| SchedTimes.SleepBlocks | franken/thread/thread.c:374-408 | a sleep leaves its thread listed and blocked until the deadline, and the scheduler chooses |
| SchedTimes.StepAlone | franken/thread/thread.c:190-665 | no step changes a listed thread that is not running, except that it may become runnable; one in a sleep or wait does so only by name or through its queue |
| SchedTimes.PlaceStep | franken/thread/thread.c:203-218 | a thread whose deadline has passed comes one place forward with every choice of another and never goes back |
| SchedTimes.ChosenRuns | franken/thread/thread.c:203-227 | a chosen thread runs, without a deadline any more, and is marked as timed out exactly if its deadline is what made it ready |
| SchedTimes.NotBeforeDeadline | franken/thread/thread.c:374-408 | in every run a sleeping or waiting thread that nobody wakes stays blocked, and is chosen only when the clock has reached its deadline |
| SchedTimes.SoonAfterDeadline | franken/thread/thread.c:203-218 | in every run, from the moment the clock has reached its deadline, such a thread at place k is chosen before more than k choices are made |
| Clock.DeterministicClock.GetTime | platform/deterministic/clock_gettime.c:6-25 | a reading advances the clock by one millisecond, keeps it normalised and returns it; a null pointer is EFAULT and changes nothing |
| Clock.DeterministicClock.NanoSleep | platform/deterministic/clock_nanosleep.c:6-27 | a sleep advances the clock by exactly the request, with the carry |
| Scheduler.Globals.constructor | franken/thread/thread.c:491-508 | the initial state of the transition system |
| Scheduler.Globals.Wake | franken/thread/thread.c:454-461 | is the transition |
| Scheduler.Globals.Suspend | franken/thread/thread.c:463-489 | the running thread parks in the given frame |
| Scheduler.Globals.SleepUntil | franken/thread/thread.c:374-408 | blocks the running thread with a deadline |
| Scheduler.Globals.WaitBegin | franken/thread/thread.c:544-558 | `wait()` up to the switch is the transition |
| Scheduler.Globals.WaitEnd | franken/thread/thread.c:559-570 | `wait()` after the switch is the transition; the result is 0 exactly if a wakeup took the waiter off |
| Scheduler.Globals.WakeupOne | franken/thread/thread.c:572-582 | is the transition |
| Scheduler.Globals.WakeupAll | franken/thread/thread.c:584-594 | the loop is the transition |
| Scheduler.Globals.MutexTryEnter | franken/thread/thread.c:642-654 | is the transition; succeeds exactly if the mutex is free or the caller's own |
| Scheduler.Globals.MutexEnter | franken/thread/thread.c:617-628 | is the transition, whose outcomes `SchedCalls.EnterEnds` states |
| Scheduler.Globals.MutexExit | franken/thread/thread.c:656-665 | is the transition |
| Scheduler.Globals.CreateThread | franken/thread/thread.c:253-290 | is the transition |
| Scheduler.Globals.JoinThread | franken/thread/thread.c:348-372 | is the transition |
| Scheduler.Globals.WakeJoiner | franken/thread/thread.c:324-329 | the search loop wakes the first waiter for the thread, if any |
| Scheduler.Globals.ExitThread | franken/thread/thread.c:314-346 | is the transition |
| Scheduler.Globals.Resume | franken/thread/thread.c:544-570 | is the transition |
| Scheduler.Globals.Take | franken/thread/thread.c:204-216 | marks a timeout, wakes, and moves the thread to the end of the list |
| Scheduler.Globals.Scan | franken/thread/thread.c:203-218 | the loop finds the first ready thread, or the earliest deadline within the next millisecond |
| Scheduler.Globals.ReapExited | franken/thread/thread.c:229-237 | the loop frees every exited thread but the given one |
| Scheduler.Globals.SwitchTo | franken/thread/thread.c:226-237 | switching and what follows on the new thread's stack |
| Scheduler.Globals.TryOnce | franken/thread/thread.c:198-220 | one turn of the loop either is the choice at that reading or changes nothing |
| Scheduler.Globals.Schedule | franken/thread/thread.c:190-238 | within `turns` turns of the loop: it returns if some thread is runnable or has a deadline they reach, and otherwise changes nothing and goes on; it never returns when no thread is runnable or has a deadline; the result is the choice at the last reading; every sleep is normalised and in (0, 1 ms]; the choice overshoots the first moment at which a thread is ready by at most 1 ms, so with earliest deadline W not before the clock W <= tm <= W + 1 ms |
| Scheduler.Globals.ScheduleReturns | franken/thread/thread.c:190-238 | the loop ends, with the choice, whenever some thread is ready at some time, at most 1 ms after it |
| Scheduler.Perform | franken/thread/thread.c:190-665 | the code carries out every event as the transition system says and keeps the invariant |
| Scheduler.Idle | franken/thread/thread.c:221-223 | the sleep requested is normalised, exactly the time to the wakeup, and the clock advances by it |
| Scheduler.ReturnsExactlyWhen | franken/thread/thread.c:203-218 | a clock reading at which the scan finds a thread exists if and only if a thread is runnable or has a deadline |
| Scheduler.PicksExpired | franken/thread/thread.c:203-218 | with no thread runnable, the one chosen has a deadline that has passed and is not before the earliest |
| Scheduler.ChooseInParts | franken/thread/thread.c:190-238 | the choice is scanning, then switching, then reaping |
| Placement.PageBucket | franken/malloc/malloc.c:196-220 | the loop finds the bucket whose blocks are pages |
| Placement.FindBucket | franken/malloc/malloc.c:236-253 | from either starting point, in a 32-bit counter, the search ends at the smallest bucket that fits, or fails exactly above 2 GiB |
| Placement.SmallestIsUnique | franken/malloc/malloc.c:236-253 | there is only one smallest bucket |
| Placement.PayloadPlaced | franken/malloc/malloc.c:268-279 | the payload is aligned, has room for its header below, and ends inside the block |
| Placement.FitsExactlyWhenNoWrap | franken/malloc/malloc.c:230-279 | a request fits its block if and only if `nbytes + align` is below 2^64 |
| Placement.WrappedRequest | franken/malloc/malloc.c:230-253 | a request that does not fit the block it gets |
| Placement.StaysInBlockExactly | franken/malloc/malloc.c:230-279 | the payload begins inside its block, wherever that lies, if and only if the sum does not wrap, or the alignment is at most 32, or the wrapped sum is more than half of it |
| Placement.PlacedOutside | franken/malloc/malloc.c:230-279 | an aligned request whose payload would begin past the end of its block |
| Placement.WrappedBlock | franken/malloc/malloc.c:230-279 | with the default alignment every request whose sum wraps gets a block with 16 usable bytes |
| Placement.WrappedProduct | franken/malloc/malloc.c:309-321 | a product that wraps to nothing and is granted the smallest block |
| HeapModel.WriteKeeps | franken/malloc/malloc.c:184-295 | a store by the owner of a payload keeps the heap invariant and changes that payload only |
| HeapModel.GrantKeeps | franken/malloc/malloc.c:255-294 | taking the first free block and writing its header keeps the invariant, adds one payload and changes no other |
| HeapModel.ReleaseKeeps | franken/malloc/malloc.c:382-430 | returning a block keeps the invariant and removes one payload only |
| HeapModel.ExtendKeeps | franken/malloc/malloc.c:348-380 | carving new blocks keeps the invariant and every payload |
| HeapModel.BaseMoves | platform/qemu-arm/mmap.c:25-40 | rounding the base up, even without success, keeps the invariant and every payload |
| HeapModel.PayloadsAreSafe | franken/malloc/malloc.c:184-430 | live payloads are inside the arena, pairwise disjoint and clear of all headers |
| HeapModel.LinksAreSafe | franken/malloc/malloc.c:184-430 | every free-list link lies outside every live payload |
| HeapModel.Conservation | franken/malloc/malloc.c:184-430 | per bucket the blocks carved are those free plus those live |
| Malloc.Allocator.constructor | platform/qemu-arm/mmap.c:6-11 | an empty heap with the whole arena to carve satisfies the invariant |
| Malloc.Allocator.MMap | platform/qemu-arm/mmap.c:13-48 | memory at the base rounded up to the alignment, if the arena has room for it; on failure only the rounding remains; arguments that are not supported change nothing |
| Malloc.Allocator.Geometry | franken/malloc/malloc.c:348-366 | how many blocks of what size the new memory makes: exactly as much as it is |
| Malloc.Allocator.WriteLinks | franken/malloc/malloc.c:367-379 | the loop chains the new blocks in memory and touches nothing else |
| Malloc.Allocator.MoreCore | franken/malloc/malloc.c:348-380 | an empty bucket is refilled if and only if the arena has room for a page and for a block from the next page on; the contents do not change |
| Malloc.Allocator.Hand | franken/malloc/malloc.c:255-294 | the first block of a bucket is handed out |
| Malloc.Allocator.AlignedAlloc | franken/malloc/malloc.c:184-295 | it fails if and only if the alignment is bad, the request is above 2 GiB, or its bucket has no free block and the arena no room for one; success adds one aligned payload and changes no other, and it has the size asked for if and only if the sum does not wrap; failure changes neither contents nor free lists |
| Malloc.Allocator.Malloc | franken/malloc/malloc.c:323-328 | the same with an alignment of 16, for every size: it fails exactly when memory is exhausted |
| Malloc.Allocator.PosixMemalign | franken/malloc/malloc.c:297-307 | the same; the pointer is stored on success only |
| Malloc.Allocator.Calloc | franken/malloc/malloc.c:309-321 | it fails exactly when memory for the product modulo 2^64 is exhausted; otherwise the new payload begins with that many zeros, and has room for the product if and only if it does not wrap |
| Malloc.Allocator.Free | franken/malloc/malloc.c:382-430 | removes the payload, found through its header bytes, and changes no other; null, and an address without the magic byte, are ignored |
| Malloc.Allocator.Usable | franken/malloc/malloc.c:452-460 | the header bytes give the usable size |
| Malloc.Allocator.Realloc | franken/malloc/malloc.c:438-470 | a payload that is large enough stays where it is; otherwise the call fails exactly when memory is exhausted; success keeps every usable byte, and makes room if and only if the sum does not wrap; failure changes nothing, no other payload changes in any case, a size of zero frees |
| Malloc.NoSignBit | franken/malloc/malloc.c:459-459 | in this arena the int shift is exact |
| Frames.SplitIsWhole | librumpuser/sysproxy.c:583-658 | the reference splitter loses nothing: the frames and the rest are the stream, every frame is one, the rest is partial or malformed |
| Frames.SplitAppend | librumpuser/sysproxy.c:583-658 | splitting in two portions is splitting at once |
| Frames.SplitFlatten | librumpuser/sysproxy.c:583-658 | a sequence of frames written one after the other splits into itself |
| Buffers.PassedKeeps | librumpuser/sysproxy.c:356-370 | freeing the latest buffer, or handing it to a worker, keeps every other buffer with its owner; none is lost unless this one is |
| Buffers.OnRecord | librumpuser/sysproxy.c:539-571 | a waiter has one buffer on record exactly if it holds an answer with a body |
| Buffers.KickKeeps | librumpuser/sysproxy.c:556-570 | replacing the answer of a waiter keeps the record exact and loses one buffer if and only if the waiter held one |
| Buffers.TwoResponses | librumpuser/sysproxy.c:556-570 | two responses with bodies to one request, before its waiter looks, lose one buffer |
| FrameReader.Reader.ReadHeader | librumpuser/sysproxy.c:591-628 | the header part appends what was read and tells partial, complete, malformed, out of memory and lost apart |
| FrameReader.Reader.ReadBody | librumpuser/sysproxy.c:630-657 | so does the body part |
| FrameReader.Reader.ReadFrame | librumpuser/sysproxy.c:583-658 | one call, which goes on to the body when the header is complete; a disconnect means that the socket said so, that the length is malformed or that memory ran out |
| FrameReader.Reader.ResetBuf | librumpuser/sysproxy.c:356-362 | the reader is at offset 0 without a buffer, and its buffer and no other has the new owner |
| FrameReader.Reader.FreeBuf | librumpuser/sysproxy.c:364-370 | the reader is clear, and its buffer is freed, once, if it has one |
| FrameReader.Reader.KickWaiter | librumpuser/sysproxy.c:539-571 | the first waiter in the queue with the number of the frame gets the body; without one the body is freed; a buffer is lost if and only if that waiter already held an answer with a body |
| FrameReader.Reader.ScheduleWork | librumpuser/sysproxy.c:1738-1761 | the request is given up, with TRYAGAIN, if and only if malloc fails while no worker exists, however often it fails otherwise; else header and body become work |
| FrameReader.Reader.IntroduceFork | librumpuser/sysproxy.c:1834-1901 | all five exits of a fork handshake free the buffer, with the reply and the shutdown of each; it succeeds exactly with a record of the right size, a known token, no cancellation and a successful fork |
| FrameReader.Reader.Introduce | librumpuser/sysproxy.c:1803-1916 | all exits of a handshake free the buffer, and send the one reply, or shut down, that `ForkVerdict` and `NewVerdict` list; the client becomes RUNNING exactly if it is welcome |
| FrameReader.Reader.Prefork | librumpuser/sysproxy.c:1919-1972 | all exits of a prefork request free the buffer and send the one reply of `PreforkVerdict` |
| FrameReader.Reader.Dispatch | librumpuser/sysproxy.c:2105-2123 | on every path of the switch and of what it calls the reader ends at offset 0 with no buffer; the buffer was freed once, or belongs to the one waiter or worker that the class, number, type and state say; another one is lost if and only if a response overwrites an answer; a frame that is no response and no work gets the reply, by its number, and the shutdown that `Judged` gives for it |
| FrameReader.NobodyLeftWaiting | librumpuser/sysproxy.c:1796-2022 | a request that does not become work is answered or its connection is shut down; a first request is told success if and only if it is welcome, and shut down otherwise; a running client is shut down only for a second handshake or for forking during an exec |
| FrameReader.Reader.HandleReq | librumpuser/sysproxy.c:1796-2022 | branch by branch: which requests become work, what the others are answered and whether the connection is shut down, when the client becomes RUNNING or enters an exec; the buffer is freed on every branch that does not hand it to a worker |
| FrameReader.Reader.Round | librumpuser/sysproxy.c:2097-2123 | one round: a complete frame is what had arrived and what was read now, and it is dispatched; otherwise nothing is |
| FrameReader.Reader.Pump | librumpuser/sysproxy.c:2091-2123 | however reads are cut, with EAGAIN in between, the frames dispatched are exactly those of the reference splitter on the bytes consumed; the waiters are those that these frames leave; the new work is a subsequence of them; the buffers lost are as many as responses that overwrite an answer; it stops only for a broken socket, a malformed length or lack of memory, and then holds a buffer if and only if the socket broke behind a complete header; otherwise it has read at least once for every round |
| FrameReader.Reader.HandleDisco | librumpuser/sysproxy.c:1391-1423 | the waiters are woken and the fields are zeroed without freeing: number, exec mark and header are reset, and the buffer being read into, if there is one, is lost |
| FrameReader.Reader.ServeConnection | librumpuser/sysproxy.c:1391-2123 | over a whole connection the buffers lost are one for every response that overwrites an answer, and one more if and only if the stream breaks off behind the header of a frame that is not complete; every other buffer is freed, with a worker, or with the waiter that holds it |
| FrameReader.HalfRead | librumpuser/sysproxy.c:612-657 | such a stream: a header that announces one byte more |
| FrameReader.Reader.PutWait | librumpuser/sysproxy.c:481-492 | a waiter joins the queue with the next number and without a buffer, and the number is used up |
| FrameReader.Reader.Leave | librumpuser/sysproxy.c:981-1003 | a waiter that leaves has its buffer freed, or loses it if and only if it holds one and the send failed or the client is gone |
| FrameSender.Advance | librumpuser/sysproxy.c:453-468 | the adjusted vector is what is left of the bytes, and it is empty exactly when nothing is |
| FrameSender.DoSend | librumpuser/sysproxy.c:410-479 | terminates; it fails if and only if a call is refused for good, which is then the last one, with its errno, or ENOTCONN for a send of nothing; when told to try again it polls before it sends; on success all of the vector is on the wire, on failure a proper prefix |
| FrameSender.HeaderReadsBack | librumpuser/sysproxy.c:1264-1285 | header fields are read back as written, whatever follows |
| FrameSender.VectorIsFrame | librumpuser/sysproxy.c:1264-1285 | a header that counts itself and the buffers behind it makes them one frame |
| SendLock.Connection.LockTurn | librumpuser/sysproxy.c:372-381 | a thread has to wait if and only if another one is sending, and if it does not it is the only one that is; the invariant is kept |
| SendLock.Connection.Unlock | librumpuser/sysproxy.c:392-399 | after the holder unlocks nobody is sending and no sleeper is left un-notified |
| SendLock.Connection.Perform | librumpuser/sysproxy.c:372-479 | the code carries out every event as the transition system says and keeps the invariant |
| SendLock.LockStep | librumpuser/sysproxy.c:372-399 | every step keeps: at most one sender, FREE if and only if there is none, and un-notified sleepers only while WANTED |
| SendLock.WireStep | librumpuser/sysproxy.c:410-479 | until a send fails half-way the wire is whole frames and a prefix of the holder's |
| SendLock.RunKeeps | librumpuser/sysproxy.c:372-408 | both hold in every state of every run |
| SendLock.OneSender | librumpuser/sysproxy.c:372-381 | no two threads are sending |
| SendLock.LockEnds | librumpuser/sysproxy.c:372-391 | a thread that comes to the lock, or comes back to it, gets it if and only if nobody is sending, and sleeps otherwise |
| SendLock.NoStrandedSleeper | librumpuser/sysproxy.c:392-399 | a thread sleeps un-notified only while another is sending and the status is WANTED, so that the unlock will wake it |
| SendLock.ReceiverSeesMessages | librumpuser/sysproxy.c:410-658 | unless a send failed half-way, the reference splitter on the wire yields the messages sent, in the order their senders finished, for any interleaving and any short writes |
| SendLock.EmitTwice | librumpuser/sysproxy.c:428-471 | two sends in a row are one of their total: how writes are cut does not matter |
| SendLock.EmitCommutes | librumpuser/sysproxy.c:372-471 | a send by the holder commutes with the steps that other threads can make meanwhile |
| SendLock.PortionsGather | librumpuser/sysproxy.c:372-471 | however a send is cut into portions, and whatever others do between them, the outcome is that of their steps followed by one send of everything |
| RoundTrip.SplitPrefix | librumpuser/sysproxy.c:583-658 | the frames of a prefix of a stream are a prefix of its frames |
| RoundTrip.SendAndReceive | librumpuser/sysproxy.c:410-658 | a message sent by `dosend()` under any short writes and read by the main loop under any short reads is dispatched, and nothing else is, exactly if all of it was consumed, which takes a successful send; number, class, type, argument and payload are those sent, and the waiters are those it leaves |
| RoundTrip.LostResponse | librumpuser/sysproxy.c:556-570 | concrete frames that lose a buffer |
| RoundTrip.SendLocked | librumpuser/sysproxy.c:1288-1290 | `dosend()` by the holder of the lock and the unlock are steps of the lock, ending in success if and only if everything is on the wire |
| RoundTrip.InterleavedSend | librumpuser/sysproxy.c:1288-1290 | the same when other threads come and wait between the portions of the send |
| RoundTrip.ReceiveRun | librumpuser/sysproxy.c:372-658 | for any run of senders under the lock, what the main loop of the other end dispatches is a beginning of the messages in the order sent, and all of them once the wire is consumed and nobody is sending |
| WorkerPool.Pool.ScheduleWork | librumpuser/sysproxy.c:1762-1783 | it is the step and keeps the invariant, so that every queued piece has a ready worker unless the pool is full or a creation has failed; some worker is then on its way to the list, unless there is none, which takes a failed creation or a limit of zero |
| WorkerPool.Pool.Top | librumpuser/sysproxy.c:1586-1605 | a worker retires if and only if as many as may are idle beyond the queued work, and then every queued piece has a woken worker besides; it sleeps only if nothing is queued, and otherwise takes the oldest piece |
| WorkerPool.Pool.Idle | librumpuser/sysproxy.c:1594-1605 | it sleeps only if all work given was taken, and otherwise takes the oldest piece |
| WorkerPool.Pool.WokenTurn | librumpuser/sysproxy.c:1594-1605 | the same for a worker that was woken; it is the step and keeps the invariant |
| WorkerPool.Pool.Perform | librumpuser/sysproxy.c:1577-1783 | the code carries out every event as the transition system says and keeps the invariant |
| WorkerPool.StepKeeps | librumpuser/sysproxy.c:1577-1783 | every step keeps the counters exact, at least min(nwork, idleworker) workers woken, and a ready worker for every queued piece unless the pool is full or a creation has failed |
| WorkerPool.RunKeeps | librumpuser/sysproxy.c:1577-1783 | that holds in every state of every run |
| WorkerPool.CountersAreExact | librumpuser/sysproxy.c:1577-1783 | `nwork` is the length of the list, `nworker` the number of workers and within its limit, `idleworker` the number of idle ones and within its limit; work is neither lost nor repeated nor reordered |
| WorkerPool.NoStrandedWork | librumpuser/sysproxy.c:1586-1605 | while work is queued some worker will look at the list without another signal, unless there is no worker, which takes a failed thread creation or a limit of zero |
| WorkerPool.OneWorkerEach | librumpuser/sysproxy.c:1762-1783 | in every run each queued piece of work has a worker of its own that is idle, woken or about to look, unless the pool is full or a thread creation has failed |
| WorkerPool.DoneIsReady | librumpuser/sysproxy.c:1605-1619 | a worker that has finished a job is one of these |
| WorkerPool.RetiringIsSafe | librumpuser/sysproxy.c:1587-1591 | a worker retires only if every queued piece of work has a woken worker besides, and as many workers remain as may idle |
| WorkerPool.OldestFirst | librumpuser/sysproxy.c:1600-1603 | work is picked up in the order it was scheduled |
| Clients.FirstFree | librumpuser/sysproxy.c:1479-1483 | the search finds the first slot without a polled descriptor in state NEW |
| Clients.Highest | librumpuser/sysproxy.c:2064-2071 | the search finds the highest polled slot |
| Clients.KickIs | librumpuser/sysproxy.c:539-571 | the first waiter with the number, and no other, gets the data and is woken; without one nothing changes |
| Clients.FindWaiter | librumpuser/sysproxy.c:545-549 | the loop finds the first waiter with the number, or none |
| ClientServer.Server.HandleConn | librumpuser/sysproxy.c:1443-1506 | the loop and the main loop's bookkeeping are the transition |
| ClientServer.Server.Collect | librumpuser/sysproxy.c:2060-2076 | the nested loops are the transition |
| ClientServer.Server.KickWaiter | librumpuser/sysproxy.c:539-571 | the loop is the transition |
| ClientServer.Server.HandleDisco | librumpuser/sysproxy.c:1391-1409 | the state changes and the loop that wakes all waiters are the transition |
| ClientServer.Server.CloseSlot | librumpuser/sysproxy.c:1384-1386 | the slot is free, at count zero, with no work and no waiter; it is the step and keeps the invariant |
| ClientServer.Server.PutWait | librumpuser/sysproxy.c:481-492 | the thread waits for the number returned, and no other thread of a connected client does |
| ClientServer.Server.FinishJob | librumpuser/sysproxy.c:1359-1372 | the worker has to close the slot if and only if the client is disconnected and it was the last to work for it |
| ClientServer.Server.Look | librumpuser/sysproxy.c:981-1003 | the wait is over if and only if the response has come or the client is dying, and then the waiter is off the queue; otherwise it sleeps |
| ClientServer.Server.constructor | librumpuser/sysproxy.c:2034-2046 | the initial state of the transition system |
| ClientServer.Server.Perform | librumpuser/sysproxy.c:1350-2142 | the code carries out every event of any thread as the transition system says and keeps the invariant |
| ClientRuns.CountedStep | librumpuser/sysproxy.c:1350-1423 | every step at a slot keeps its count and its descriptor in agreement with who uses it |
| ClientRuns.WaitsStep | librumpuser/sysproxy.c:481-581 | every step at a slot keeps its queue: one entry for a thread, ascending numbers, no sleeper with an answer or a dead client |
| ClientRuns.StepKeeps | librumpuser/sysproxy.c:1350-2142 | every step of any thread keeps the invariant of the whole table |
| ClientRuns.RunKeeps | librumpuser/sysproxy.c:1350-2142 | it holds in every state of every run |
| ClientRuns.SlotFound | librumpuser/sysproxy.c:1479-1494 | while the count of descriptors is below MAXCLI the search finds a slot |
| ClientRuns.RefcountIsExact | librumpuser/sysproxy.c:1350-1423 | in every run the count of a client is one for its connection plus one for every piece of work queued or running |
| ClientRuns.NeverAborts | librumpuser/sysproxy.c:2034-2142 | in every run `nfds` is the listening socket, every occupied slot and the disconnects not yet collected, and never passes MAXCLI, no accept aborts, and every polled descriptor has an index up to `maxidx`, which is below MAXCLI |
| ClientRuns.PollsNoMore | librumpuser/sysproxy.c:2062-2076 | once disconnects are collected `maxidx` is the highest polled client, unless none is left |
| ClientRuns.ReuseIsSafe | librumpuser/sysproxy.c:1479-1501 | a new connection gets a slot with no reference, no work, no waiter and no thread still closing it, and begins as NEW with one reference |
| ClientRuns.CloseIsLast | librumpuser/sysproxy.c:1359-1389 | a descriptor is closed only at count zero, with no work and an empty queue |
| ClientRuns.ClosedOnce | librumpuser/sysproxy.c:1384-1388 | between two closes of a slot it was connected anew |
| ClientRuns.NumbersAreDistinct | librumpuser/sysproxy.c:481-492 | while a client is connected its pending request numbers are distinct and below the next one |
| ClientRuns.GivenByResponse | librumpuser/sysproxy.c:539-571 | data at a waiter is the body of a complete response frame with its number, dispatched from its client while it was waiting |
| ClientRuns.ResponseMatches | librumpuser/sysproxy.c:981-1003 | `waitresp()` succeeds only with the body of such a frame; dispatching one changes the queue as `KickWaiter` of the reader does |
| ClientRuns.NobodySleepsThrough | librumpuser/sysproxy.c:981-993 | a thread sleeps only while its client is connected and its response has not come |
| ClientRuns.DyingLasts | librumpuser/sysproxy.c:1359-1423 | while a job lasts its disconnected client stays DYING |
| ClientRuns.DisconnectReleases | librumpuser/sysproxy.c:981-1003 | after a disconnect a waiter that looks is through, with ENOTCONN, and off the queue, whatever happened in between |
| ClientProgress.ResponseArrives | librumpuser/sysproxy.c:539-571 | in every run a response to a pending request is stored with its waiter, and the waiter is awake |
| ClientProgress.GivenStaysAt | librumpuser/sysproxy.c:481-571 | a stored answer stays through every step, while its waiter does, until another response with the number |
| ClientProgress.ResponseIsReceived | librumpuser/sysproxy.c:539-1003 | in every run a waiter that looks while its client is connected succeeds with the body of the last response to its request, whatever happened in between |
| ClientProgress.FailedSendLeaves | librumpuser/sysproxy.c:529-537 | a thread whose send failed is off the queue |
| ClientProgress.LookEnds | librumpuser/sysproxy.c:981-1003 | a waiter that looks goes to sleep if its client is connected and no response has come, and otherwise leaves the queue |
| ClientProgress.IntroducedFirst | librumpuser/sysproxy.c:1796-1916 | in every run a RUNNING client has completed a handshake, and has been RUNNING ever since |
| ClientProgress.JobsAreOutstanding | librumpuser/sysproxy.c:1350-1389 | in every run the jobs of a client are exactly those submitted for it and not finished |
| ClientProgress.NumbersGrow | librumpuser/sysproxy.c:481-492 | over a connection every number given out is larger than all before it |
| ClientProgress.HandshakeRuns | librumpuser/sysproxy.c:1904-1916 | after its handshake a client can be given work |
| ClientProgress.MainReturns | librumpuser/sysproxy.c:1391-1423 | in every run a disconnect under way can be finished, in two steps that nothing prevents, and closes the descriptor exactly if no job is left |
| ClientProgress.DescriptorsComeBack | librumpuser/sysproxy.c:2060-2076 | in every run, once all threads that closed a descriptor have said so and the main loop has looked, `nfds` is one more than the number of clients |
| Commpage.CarryIsExact | platform/darwin/gettimeofday.c:19-94 | the high word, the low word and the carry together are the sum |
| Commpage.DeltaIs | platform/darwin/gettimeofday.c:76-81 | the ticks since the stamp for a reading after it, and nearly 2^64 for one before it |
| Commpage.GetTimeOfDay | platform/darwin/gettimeofday.c:73-107 | fails exactly for a zero stamp or a second or more of ticks; the seconds are the exact ones as a long, the microseconds those of the exact fraction |
| Commpage.SecondsExactWhenTheyFit | platform/darwin/gettimeofday.c:82-94 | the seconds are exact if and only if they are below 2^63 |
| Commpage.MicrosAreTight | platform/darwin/gettimeofday.c:96-101 | below a million; the exact value rounded down, or one less if and only if the dropped half would have carried |
| Commpage.OneLessHappens | platform/darwin/gettimeofday.c:96-101 | an input where it is one less |
| Commpage.ReadingIsTight | platform/darwin/gettimeofday.c:76-101 | the whole reading against the exact time, with the same bound |
| Commpage.NeverBackwards | platform/darwin/gettimeofday.c:76-101 | later ticks never give an earlier time |

## Left out

- Reader-writer locks: writer entry looks at the owner only, so exclusion does not hold as written.
- Liveness of condition variables: re-entering the mutex aborts when it is taken, and such a step is not enabled here.
- Two joiners of one thread: one joiner for a joinable thread is demanded of the caller.
- `wait()` with a zero timeout, which aborts, and the rump kernel upcalls around blocking calls.
- Malloc.Allocator.AlignedAlloc: demands the exact condition of `StaysInBlockExactly`; without it the code writes a header outside the block it took.
- Malloc.Allocator.PosixMemalign: the same demand.
- Malloc.Allocator.Calloc: demands that the product modulo 2^64 is not within 16 of 2^64; there the code clears that many bytes of a block with 16, see `WrappedBlock`.
- Malloc.Allocator.Realloc: demands, for a size within 16 of 2^64, that the old payload has at most 16 bytes; otherwise the code copies more into a block with 16, see `WrappedBlock`. The sign bit of the int shift is not reached, because the arena is 128 MiB.
- Malloc.Allocator.Free: an address that is not live but has the magic byte in front of it is not covered; the code does not detect it.
- The allocator's statistics, range checks and its built-in exerciser; headers are laid out as on a 64-bit platform.
- The page size is a power of two between 32 and 2 GiB.
- ClientRuns.NumbersAreDistinct: request numbers are unbounded, so the wrap of the 64-bit counter is not modelled.
- ClientRuns.RefcountIsExact: does not cover server shutdown, which releases a client twice.
- FrameReader.Reader.Introduce: does not model that a guest handshake terminates its text in place, one past the end of the body, and through a null pointer for a frame without a body; such a client is RUNNING here.
- Draining of threads before an exec, the comparison of prefork tokens, the text of handshakes, banners, URL parsing and socket setup; forking and token lookup are answers of the environment.
- SendLock.OneSender: covers a connection up to its disconnect, where the lock status is cleared under whoever holds it.
- FrameSender.DoSend: does not model the lwp switches around it, which the error path skips.
- The work of a queued job is not told apart from that of a running one in `ClientRuns`: any job may send and wait, which only adds behaviours.
- Aligned memory mapping on other platforms, file descriptor initialisation, context switching, virtual network code, sandboxes and the small libc functions.
