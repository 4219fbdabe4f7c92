# A verified model of the libsimplenet runtime

libsimplenet runs C++ coroutines on one of two event loops that implement the same `scheduler` interface: one on
edge-triggered epoll, one on io_uring. This project models the runtime and proves what it is for.

- `Coroutines`, `CoroutineInvariant`, `CoroutineTheorems`, `ReadyQueue`: tasks, continuations, waits and results as one
  abstract scheduler, a state machine over coroutine handles. Its invariant is kept by every step, and what follows from
  it is stated for every sequence of steps: no deadlock, exactly-once wakeup, a first-in first-out queue, exact
  counters, frame lifetime.
- `Scheduler`: the state both loops share (ready queue, results, roots), each method proved to perform one step.
- `WaiterTable`: the map from descriptors to registrations, the waits it stands for, the counters and the cached
  earliest deadline with its dirty bit; the skipping expiry against a full scan in any order.
- `EpollKernel`, `EpollLoop`: the kernel's interest set with edge-pending flags, and the epoll loop as a class. Every
  method is proved to be steps of the abstract scheduler while masks agree and no edge is lost.
- `UringRing`, `UringLoop`: submission queue, outstanding one-shot polls and completion queue, and the io_uring loop as
  a class with its tokens. Same abstract steps, plus: no poll is stranded and no stale completion wakes a later waiter.
- `Blocking`, `Slices`, `TimedIo`: how long the loops and the timed operations wait.
- `StopProtocol`: every interleaving of stop() calls with either loop.
- `WriteQueue`: the queued writer, byte for byte.
- `Endpoint`: reading and printing of `host:port`.

Both loops refine the one abstract scheduler: `Valid()` of a loop says that its scheduler state is reachable, so the
theorems hold in every state of either loop, and `Run` says that the whole run is a run of the abstract scheduler.
`Leads(s, t, n)` counts the coroutines resumed on the way, one per turn of the inner loop, and `Program` says what one of
them does with its turn; so what a loop does in an iteration is pinned turn by turn: who is resumed, what it calls, which
waits time out, and which ones the kernel's report ends. `Run` hands out the iterations as `laps`, each beginning where
the one before has ended; `ReadyIsTold`, `CompletionIsTold` and `LapTells` say what that means for a coroutine that waits.

The environment is a parameter. A `Turn` gives the clock reading, what the resumed coroutine does, which kernel calls
fail and with what, what becomes ready or completes meanwhile, and whether some thread calls stop(); results are for
every sequence of turns. `Paused` means that the turns given are used up. `fault` arguments are errno values of a kernel
call, 0 for none. Iteration over an unordered map takes the entries in an arbitrary order.

Where a property fails, the exact condition is proved:

- `StopProtocol.StopIsNotLostIffWatched`: no stop() is lost if and only if run() starts with the poll of
  its wake descriptor queued, outstanding or completed, which is always so with epoll.
  `SecondRunLosesStop` shows an io_uring loop that is stopped, run again and then loses one.
- `WriteQueue.OnTimeIffOneSlice` and `NeverEarlyIffOneMillisecond`: flush passes on the timeout of a single write, which
  lasts at most 100 ms, so it gives up on time to the millisecond if and only if its own timeout is at most 100 ms (or nothing
  is queued), and never early at all if and only if that is at most 1 ms. An
  ETIMEDOUT of the stream itself is passed on whenever it comes.
- `WriteQueue.QueuedWriter.GracefulShutdown`: the write side is closed with nothing pending if and only if no byte was
  offered between the end of the flush and the shutdown.
- `Endpoint.ParseThenPrint`: an accepted text is printed unchanged if and only if its port has no leading zeros.

`dafny verify dfyconfig.toml` checks the whole project.

## Model

| member | source | states |
|---|---|---|
| `CoroutineInvariant.CreateKeeps` | include/simplenet/runtime/task.hpp:135-141 | calling a coroutine function (a new frame, suspended before its first step, possibly at the address of a destroyed one) keeps the whole invariant |
| `CoroutineInvariant.DropKeeps` | include/simplenet/runtime/task.hpp:203-207 | destroying a task that was never started keeps the invariant; the frame is destroyed exactly once |
| `CoroutineInvariant.SpawnKeeps` | include/simplenet/runtime/event_loop.hpp:52-62 | spawn keeps the invariant: the active count is again the number of unfinished roots, and the root is queued once |
| `CoroutineInvariant.ResumeKeeps` | src/runtime/event_loop.cpp:73-82 | resuming the front of the ready queue keeps the invariant in all three cases: first start, end of a wait (its result is consumed), end of an awaited child (its frame is destroyed) |
| `CoroutineInvariant.AwaitKeeps` | include/simplenet/runtime/task.hpp:239-258 | co_await of a task keeps the invariant: the child is queued once, continues its parent, and starts later than it |
| `CoroutineInvariant.ArmKeeps` | src/runtime/io_ops.cpp:42-62 | suspending on a descriptor keeps the invariant: the handle is held by exactly one armed registration |
| `CoroutineInvariant.ImmediateKeeps` | src/runtime/event_loop.cpp:218-223 | a wait without time left keeps the invariant: resolved and queued on the spot, never armed |
| `CoroutineInvariant.FinishKeeps` | include/simplenet/runtime/task.hpp:103-123 | the final awaiter keeps the invariant: a root is counted down once, a continuation queued once, only now that its child is done |
| `CoroutineInvariant.ReapKeeps` | src/runtime/event_loop.cpp:467-476 | destroying a finished root keeps the invariant; no frame is destroyed twice |
| `CoroutineInvariant.ResolveKeeps` | src/runtime/event_loop.cpp:423-449 | readiness, completion or timeout of an armed wait keeps the invariant: one result, one entry in the queue, no longer armed |
| `CoroutineInvariant.RunKeepsInv` | include/simplenet/runtime/task.hpp:103-277 | the invariant holds after every sequence of steps of the protocol |
| `CoroutineTheorems.ChainEndsArmed` | include/simplenet/runtime/task.hpp:239-258 | with nothing running and nothing queued, the await chain of every unfinished coroutine is finite and ends at one armed on a descriptor |
| `CoroutineTheorems.IdleHasWaiter` | src/runtime/event_loop.cpp:96-103 | idle with unfinished roots implies an armed waiter: the condition for EDEADLK is never met |
| `CoroutineTheorems.NoDeadlock` | src/runtime/uring_event_loop.cpp:105-112 | the same over every run of the protocol from the start |
| `CoroutineTheorems.FinishedHasNoWaiter` | src/runtime/event_loop.cpp:97-99 | the converse: idle without unfinished roots implies that nothing is armed, so run() ends |
| `CoroutineTheorems.RootOf` | include/simplenet/runtime/task.hpp:112-120 | following continuations from any unfinished coroutine reaches an unfinished tracked root |
| `CoroutineTheorems.CanAlwaysFinish` | src/runtime/event_loop.cpp:170-174 | when a coroutine returns its continuation is a live frame, and a root is still counted: the guard of the decrement never changes the result |
| `CoroutineTheorems.CanAlwaysResume` | src/runtime/event_loop.cpp:73-81 | the front of the ready queue is never null, destroyed or done |
| `CoroutineTheorems.CanAlwaysResolve` | src/runtime/event_loop.cpp:329-336 | every armed registration names a live coroutine suspended on exactly that descriptor and direction |
| `CoroutineTheorems.WokeMore` | src/runtime/event_loop.cpp:329-390 | waking some waits and then others is waking all of them in that order: queue, results and armed set follow, and it is the run of exactly those resolutions |
| `CoroutineTheorems.ExactlyOnceWakeup` | src/runtime/event_loop.cpp:190-223 | over every run each armed wait gets at most one result and one wakeup, consumes only that result, and stays armed until then |
| `CoroutineTheorems.ResultsAreUnconsumed` | src/runtime/event_loop.cpp:196-204 | the keys of wait_results_ are exactly the handles with a result written and not yet consumed |
| `CoroutineTheorems.HistoryGrows` | src/runtime/event_loop.cpp:190-205 | no later step rewrites or takes back what happened to a wait |
| `CoroutineTheorems.WaitEndsByResolve` | src/runtime/io_ops.cpp:64-73 | a suspended wait ends only by a resolution of its own key, and the status stored is the one that resolution brought |
| `CoroutineTheorems.AwaitEndsByFinish` | include/simplenet/runtime/task.hpp:112-120 | a parent stops awaiting only when its child finishes, and is then queued for that child |
| `CoroutineTheorems.HeldHandlesAreLive` | include/simplenet/runtime/task.hpp:203-277 | every handle in the ready queue or armed names a live, unfinished frame and is in one such place only; frames created minus destroyed are those allocated |
| `CoroutineTheorems.LeadsInTurn` | src/runtime/event_loop.cpp:73-89 | after n resumes the first n of the queue have had their turn, the others have moved up in order; an empty queue means that everybody has |
| `CoroutineTheorems.NothingAllocated` | src/runtime/event_loop.cpp:467-476 | an idle loop with no root left to run or to reap has no root and no frame left but those of tasks never started: nothing leaks |
| `CoroutineTheorems.WokeTells` | src/runtime/event_loop.cpp:425-426 | a wait that is resolved is told that very status, once, and the record says so for its handle and key |
| `CoroutineTheorems.ToldForGood` | src/runtime/event_loop.cpp:190-205 | what a coroutine was told stays so over every further run |
| `ReadyQueue.StepIsFifo` | src/runtime/event_loop.cpp:163-168 | every step but a resume only appends to the ready queue, exactly whom it makes ready; a resume takes exactly the front |
| `ReadyQueue.QueueIsFifo` | src/runtime/event_loop.cpp:73-75 | first in, first out over every run: what was queued at first and since is what was resumed, in that order, followed by what is queued still |
| `ReadyQueue.ResumedInTurn` | include/simplenet/runtime/task.hpp:250-253 | whoever is at position i of the queue is resumed by exactly the (i+1)-th resume, so a child just awaited overtakes nobody |
| `SchedulerCore.ArmedIsSuspended` | src/runtime/event_loop.cpp:225-247 | arming makes the running coroutine wait for exactly this key with its own timeout error, and it is due exactly when the timeout has passed since the clock reading |
| `SchedulerCore.SpentIsAnswered` | src/runtime/event_loop.cpp:218-223 | a timeout that is not positive queues the coroutine with its timeout error and arms nothing |
| `SchedulerCore.DueAreTold` | src/runtime/event_loop.cpp:329-362 | every wait that was due is over and its coroutine told the timeout error it asked for |
| `SchedulerCore.PerformedLeads` | src/runtime/io_ops.cpp:42-62 | whatever a running coroutine calls is one step of the state machine or none, and resumes nobody |
| `SchedulerCore.Scheduler.Spawn` | include/simplenet/runtime/event_loop.hpp:52-62 | performs the spawn step; an empty task changes nothing |
| `SchedulerCore.Scheduler.ConsumeWaitResult` | src/runtime/event_loop.cpp:190-205 | EINVAL for a null handle, success if there is no result, otherwise the stored result, which is erased |
| `SchedulerCore.Scheduler.FrontIsStale` | src/runtime/event_loop.cpp:77-79 | the test for a null or finished front never succeeds |
| `SchedulerCore.Scheduler.ResumeFront` | src/runtime/event_loop.cpp:74-81 | performs the resume step; a resumed wait is told the result stored for it |
| `SchedulerCore.Scheduler.AwaitTask` | include/simplenet/runtime/task.hpp:239-258 | performs the await step; the child joins the end of the queue (`ReadyQueue.StepIsFifo`) |
| `SchedulerCore.Scheduler.Finish` | include/simplenet/runtime/task.hpp:103-123 | performs the final-awaiter step, including the saturating decrement |
| `SchedulerCore.Scheduler.CleanupCompletedRoots` | src/runtime/event_loop.cpp:467-476 | a sequence of reap steps after which no finished root is left; queue, waits and counts are untouched |
| `SchedulerCore.Scheduler.NothingLeft` | src/runtime/event_loop.cpp:96-103 | with nothing running or queued: done exactly if no root and no wait is left, otherwise a wait is armed; the EDEADLK branch is unreachable, in both loops |
| `SchedulerCore.Scheduler.SuspendOn` | src/runtime/io_ops.cpp:42-62 | performs the arming step |
| `SchedulerCore.Scheduler.TimeOutAtOnce` | src/runtime/event_loop.cpp:218-223 | performs the immediate-timeout step |
| `SchedulerCore.Scheduler.Wake` | src/runtime/event_loop.cpp:423-426 | performs the resolution step |
| `SchedulerCore.Scheduler.Act` | include/simplenet/runtime/task.hpp:239-258 | a call of a running coroutine that concerns tasks is exactly its step of the state machine, or nothing if it cannot be made |
| `SchedulerCore.Scheduler.ReapRoots` | src/runtime/event_loop.cpp:467-476 | destroying finished roots resumes nobody and leaves queue, waits and counts alone; no finished root is left |
| `SchedulerCore.Scheduler.NoFrameIsLeft` | src/runtime/event_loop.cpp:137-137 | a loop that is done and has reaped its roots has no root and no frame left but those of tasks never started |
| `WaiterTable.FillRegistration` | src/runtime/event_loop.cpp:225-233 | filling a registration of a slot arms exactly that wait and no other |
| `WaiterTable.ClearRegistration` | src/runtime/event_loop.cpp:431-431 | clearing a registration disarms exactly that wait |
| `WaiterTable.ArmCounts` | src/runtime/event_loop.cpp:237-247 | the two counters after arming are again the numbers of armed and of timed waits |
| `WaiterTable.DisarmCounts` | src/runtime/event_loop.cpp:338-345 | and after disarming; both are positive before, so the guards never change the result |
| `WaiterTable.SkipExpiresNothing` | src/runtime/event_loop.cpp:320-324 | if the cached deadline lies ahead, a scan of all slots would expire nothing |
| `WaiterTable.DueWhenTimeIsUp` | src/runtime/event_loop.cpp:234-236 | a wait armed at a clock reading with T ms is due at a later one if and only if T ms lie between them; without a timeout never |
| `WaiterTable.LowerBoundAfterArm` | src/runtime/event_loop.cpp:234-245 | the cached deadline stays at most every armed deadline when a wait is armed, and also if the arming is rolled back |
| `WaiterTable.ScanStep` | src/runtime/event_loop.cpp:329-390 | one more slot, in any order: what was due there is gone and the running minimum is the earliest deadline left among the slots seen |
| `WaiterTable.ScanEnd` | src/runtime/event_loop.cpp:392-397 | once every slot was seen, exactly the due waits are gone and the minimum is the earliest armed deadline |
| `WaiterTable.DisarmKeepsCache` | src/runtime/uring_event_loop.cpp:493-496 | disarming keeps an exact cache exact unless the wait had a deadline, and then the cache is marked dirty |
| `Blocking.TimespecIsExact` | src/uring/reactor.cpp:17-32 | seconds and nanoseconds add up to the timeout and form a legal timespec |
| `Blocking.BoundedBlocking` | src/runtime/event_loop.cpp:105-123 | the limit that reaches the kernel is unlimited only without timed waits and otherwise at most the time left to every armed deadline; both backends compute the same limit |
| `Blocking.BlocksAlmostUntilDeadline` | src/runtime/uring_event_loop.cpp:114-129 | unless clamped, the limit is less than a millisecond short of the deadline |
| `Blocking.LimitIsThatOfTheDeadline` | src/runtime/event_loop.cpp:105-123 | no limit without a cached deadline, zero once it has passed, otherwise the time left to it in whole milliseconds up to the largest C int; the same in both backends |
| `EpollKernel.Ctl` | src/epoll/reactor.cpp:98-120 | ADD needs an unwatched descriptor, MOD a watched one; removing an unwatched one succeeds; a failure changes nothing |
| `EpollLoop.ChangeKeepsEdges` | src/runtime/event_loop.cpp:13-17 | readiness may change at any moment without an armed, ready direction losing its event |
| `EpollLoop.DeliveryKeepsEdges` | src/epoll/reactor.cpp:75-90 | delivering an event moves it from the kernel to the batch and loses nothing |
| `EpollLoop.SettlingKeepsEdges` | src/runtime/event_loop.cpp:451-460 | after registrations are cleared, updating the interest or erasing the slot keeps masks equal and loses no edge |
| `EpollLoop.ArmingKeepsEdges` | src/runtime/event_loop.cpp:268-311 | arming always needs a different mask (never the skip branch), ADD or MOD is the legal call, and afterwards no edge is lost |
| `EpollLoop.SettleStatus` | src/runtime/event_loop.cpp:296-310 | after registrations are cleared the call is a legal MOD or DEL, also after failed runs: never EEXIST or ENOENT |
| `EpollLoop.ArmStatus` | src/runtime/event_loop.cpp:283-310 | the answer to an arming call: on a healthy loop success exactly without a fault, EEXIST only for the wake descriptor |
| `EpollLoop.SettlingKeepsEnrolled` | src/runtime/event_loop.cpp:451-460 | whether the call succeeds or not, every slot in use keeps a mask and every slot with a mask is watched |
| `EpollLoop.ForgetServed` | src/runtime/event_loop.cpp:421-449 | once the waiters it concerns are served, dropping an event loses no edge |
| `EpollLoop.ReadyMaskConcerns` | src/runtime/event_loop.cpp:13-17 | errors and hang-ups are for both directions, input and a peer's shutdown for readers only, output for writers only |
| `EpollLoop.ReadyKeysAreConcerned` | src/runtime/event_loop.cpp:421-449 | the waits an event ends are exactly the armed ones on its descriptor that its flags are for |
| `EpollLoop.TakeOneMore` | src/epoll/reactor.cpp:75-90 | a wait reports distinct descriptors with a pending event, each with what is ready of what is watched, all of them below 64; exactly those events are no longer pending |
| `EpollLoop.ReadyIsReported` | src/runtime/event_loop.cpp:122-126 | an armed direction that is ready on a descriptor the kernel looks at is reported, if there is room |
| `EpollLoop.WokenAreServed` | src/runtime/event_loop.cpp:128-133 | after a batch every wait that some event is for has ended with success and is queued, and every other wait is armed as before |
| `EpollLoop.BegunForGood` | src/runtime/event_loop.cpp:66-135 | what the first iteration does to the waits is not taken back by the rest of a run |
| `EpollLoop.LapTells` | src/runtime/event_loop.cpp:66-135 | over a whole run: whoever an iteration has timed out, or served after its wait, is told so in every later state, once and for all |
| `EpollLoop.ReadyIsTold` | src/runtime/event_loop.cpp:122-133 | no lost wakeup, told from the outside: if the readiness changes since an iteration began leave a descriptor ready for a wait that is armed when a healthy loop goes to wait, and the kernel looks at it and has room, the wait is told success |
| `EpollLoop.EventLoop.constructor` | src/runtime/event_loop.cpp:23-46 | a new loop is valid and watches only its wake descriptor |
| `EpollLoop.EventLoop.CountersAreExact` | include/simplenet/runtime/event_loop.hpp:118-120 | pending, timed and active counts are the numbers of armed waits, timed waits and unfinished roots in every valid state |
| `EpollLoop.EventLoop.DeadlineIsCached` | src/runtime/event_loop.cpp:238-241 | the cached deadline is set and at most every armed deadline |
| `EpollLoop.EventLoop.MasksAgree` | src/runtime/event_loop.cpp:268-311 | registered mask, needed mask and the kernel's mask are equal, and nothing else is watched but the wake descriptor; the mask is edge-triggered with errors and hang-ups, and has input and output exactly if a reader or a writer is armed |
| `EpollLoop.EventLoop.ReadyWaitHasAnEvent` | src/runtime/event_loop.cpp:421-449 | no lost edge: an armed direction that is ready has an undelivered event despite edge triggering |
| `EpollLoop.EventLoop.RefreshInterest` | src/runtime/event_loop.cpp:268-311 | succeeds or fails as the kernel answers the ADD, MOD or DEL the slot has to make; on success mask and kernel are updated as computed, on failure nothing changes |
| `EpollLoop.EventLoop.SettleSlot` | src/runtime/event_loop.cpp:364-375 | kernel and slot agree again and an empty slot is gone; the only error is one the kernel reported for this call, and then nothing has changed |
| `EpollLoop.EventLoop.ExpireSlot` | src/runtime/event_loop.cpp:330-362 | exactly the due registrations of the slot are timed out with their own errors, readable first |
| `EpollLoop.EventLoop.ScanSlots` | src/runtime/event_loop.cpp:326-397 | without a loop error exactly the due waits are gone and the result is the earliest deadline left; a loop error is one the kernel reported for a slot |
| `EpollLoop.EventLoop.ProcessExpiredWaiters` | src/runtime/event_loop.cpp:313-398 | whether it scans or skips, exactly the waits a scan of all slots would expire are timed out, none due is left, and the cache is exact; if none is due neither kernel nor scheduler change |
| `EpollLoop.EventLoop.TryEnter` | src/runtime/event_loop.cpp:232-248 | the wait is entered and counted; success means one legal kernel call, and on a healthy loop it succeeds exactly if that call does not fail |
| `EpollLoop.EventLoop.Withdraw` | src/runtime/event_loop.cpp:249-262 | the rollback restores the table, the counters and the validity of the loop |
| `EpollLoop.EventLoop.ArmWaiter` | src/runtime/event_loop.cpp:207-266 | each case with its result: the setup error, EBADF, EBUSY; a spent timeout queues the coroutine with its timeout error; otherwise, on a healthy loop, armed by one legal ADD or MOD exactly if the kernel call does not fail, its error if it does, EEXIST for the wake descriptor; an armed wait has this handle and timeout error and is due exactly T ms after the clock reading; every error leaves scheduler, kernel and table alone |
| `EpollLoop.EventLoop.ServeEvent` | src/runtime/event_loop.cpp:421-460 | the matching waiters are told success in order, masks and edges stay right without this event |
| `EpollLoop.EventLoop.ProcessReadyEvent` | src/runtime/event_loop.cpp:409-461 | exactly the armed waits on its descriptor that the flags of the event are for end with success, readers first; events of the wake descriptor or of no slot change nothing; only an error of the kernel call ends the run, with its code |
| `EpollLoop.EventLoop.ChooseTimeout` | src/runtime/event_loop.cpp:105-123 | the limit never exceeds the time left to an armed deadline and is that of the cached deadline to the millisecond |
| `EpollLoop.EventLoop.Wait` | src/runtime/event_loop.cpp:122-126 | is entered only within the limit; reports the pending events among the descriptors picked, all of them below 64, and takes exactly those from the kernel |
| `EpollLoop.EventLoop.Perform` | src/runtime/io_ops.cpp:42-62 | a call of a running coroutine is exactly its step: an armed wait with its deadline, a spent one told at once, a task created, dropped, spawned or awaited; a wait is refused only for a failed kernel call, a key in use or the wake descriptor |
| `EpollLoop.EventLoop.ResumeNext` | src/runtime/event_loop.cpp:81-81 | the front of the queue is resumed and makes the calls of its script one by one until it suspends, or all of them and then returns; it asks for a stop exactly if it called stop() |
| `EpollLoop.EventLoop.LetTimePass` | src/runtime/event_loop.cpp:145-161 | readiness changes reach the kernel, and a stop() of another thread sets the flag |
| `EpollLoop.EventLoop.ResumeAndExpire` | src/runtime/event_loop.cpp:73-89 | the front coroutine runs its script, finished roots are reaped, then exactly what is due times out; the stop flag is set exactly if this turn asked for it; without a loop error the loop stays healthy |
| `EpollLoop.EventLoop.DrainReadyQueue` | src/runtime/event_loop.cpp:73-89 | resumes one coroutine a turn, in queue order, until the queue is empty, a stop is requested or the turns are used up; after a turn with a stop() it ends at once; what was due at the last clock reading has timed out; without a loop error the loop stays healthy |
| `EpollLoop.EventLoop.BlockAndServe` | src/runtime/event_loop.cpp:105-133 | blocks within the limit; the kernel reports what it has pending, and without a loop error every armed wait that some event is for is told success and queued, every other one left armed; the loop stays healthy |
| `EpollLoop.EventLoop.ReadyWaitIsReported` | src/runtime/event_loop.cpp:122-133 | on a healthy loop a wait that is ready is in that batch if the kernel looks at its descriptor and the batch is not full |
| `EpollLoop.EventLoop.WaitsArePoised` | src/runtime/event_loop.cpp:421-449 | a healthy loop with no batch in hand has an event pending for every armed wait that is ready, and its flags will say so |
| `EpollLoop.EventLoop.ExpireAndDrain` | src/runtime/event_loop.cpp:67-89 | everything due at the first clock reading is told its timeout error, then the queue is worked off in order; with nothing due or queued nothing happens |
| `EpollLoop.EventLoop.BlockTurn` | src/runtime/event_loop.cpp:124-133 | an error of the wait is returned as it is, without effect; otherwise the batch is served |
| `EpollLoop.EventLoop.WaitOrLeave` | src/runtime/event_loop.cpp:91-134 | with the queue worked off: leaves if stopped or done, waits otherwise, and must wait if something is armed and the wait does not fail |
| `EpollLoop.EventLoop.IdleTurn` | src/runtime/event_loop.cpp:96-134 | leaves when the work is done, otherwise blocks in a turn of its own and serves its batch; it has to if something is armed and the wait does not fail; without a loop error the loop stays healthy |
| `EpollLoop.EventLoop.Iterate` | src/runtime/event_loop.cpp:66-135 | what is due is told its timeout error, one coroutine is resumed per turn in queue order, and a loop that then is idle serves what the kernel reports from just that state; what is ready there is what the environment has made ready, and on a healthy loop every armed wait that is ready has its event pending; an iteration with nothing due or queued goes to wait as it is; nothing due is left; leaves only when stopped or done, stops only if asked; its errors are the kernel's |
| `EpollLoop.EventLoop.Reset` | src/runtime/event_loop.cpp:61-64 | an unprocessed batch of an earlier run is dropped; then edges are no longer claimed |
| `EpollLoop.EventLoop.Loop` | src/runtime/event_loop.cpp:66-135 | the iterations follow one another without a gap, each as `Iterate` says, from the state at the start to that in which the loop is left |
| `EpollLoop.EventLoop.Run` | src/runtime/event_loop.cpp:56-143 | for every environment and any earlier run: the whole run is a run of the abstract scheduler, a normal return means stopped or nothing left - then no root and no frame is left either -, the stop flag is set only if a turn or a coroutine asked for it, and every error is that of the setup or one the kernel reported in some turn, so a run without a fault never fails; the run is a sequence of such iterations, each beginning where the one before has ended; waits due at the first clock reading are told so, and a loop that has to block tells every wait the kernel reports; without a loop error a healthy loop is still healthy afterwards, so masks agree and no edge is lost |
| `UringRing.SubmitKeeps` | src/uring/reactor.cpp:99-109 | a submit loses no poll and no token changes owner |
| `UringRing.LastIsOutstanding` | src/uring/reactor.cpp:99-109 | the poll queued last is outstanding after the submit |
| `UringRing.PushKeeps` | src/runtime/uring_event_loop.cpp:292-310 | queueing an entry, submitting a full queue first, loses no poll |
| `UringRing.ArmKeeps` | src/runtime/uring_event_loop.cpp:269-272 | a new poll with a new token is pending afterwards, on its descriptor and direction and for its arming, and all others still are |
| `UringRing.PendingIsOwn` | src/uring/reactor.cpp:61-78 | what is pending under a token in use is the very poll the token stands for: descriptor, direction and arming |
| `UringRing.ReleaseKeeps` | src/runtime/uring_event_loop.cpp:393-395 | what still carries a released token belongs to nobody |
| `UringRing.CollectKeeps` | src/uring/reactor.cpp:142-165 | collecting completions into the batch loses none |
| `UringRing.DropBatch` | src/runtime/uring_event_loop.cpp:141-146 | dropping the rest of a batch strands at most the polls it completes |
| `UringRing.NewTokenIsUnseen` | src/runtime/uring_event_loop.cpp:508-525 | a token not handed out before is on no entry, poll or completion |
| `UringLoop.FillKeepsTokens` | src/runtime/uring_event_loop.cpp:252-269 | in-flight tokens and armed registrations stay in bijection when a wait is entered |
| `UringLoop.ClearKeepsTokens` | src/runtime/uring_event_loop.cpp:383-395 | and when one is released |
| `UringLoop.StepAhead` | src/runtime/uring_event_loop.cpp:510-515 | counting on skips only zero, wraps to one and does not overshoot a free value |
| `UringLoop.FreeToken` | src/runtime/uring_event_loop.cpp:521-523 | with fewer values used than there are, one is free |
| `UringLoop.TokensAreLeft` | src/runtime/uring_event_loop.cpp:521-523 | until the counter wraps fewer tokens are in flight than were handed out, so there is one to be had |
| `UringLoop.AnswersMore` | src/runtime/uring_event_loop.cpp:464-506 | one more completion of a batch: the first with its token speaks for its wait, later ones for nobody |
| `UringLoop.AnsweredAreServed` | src/runtime/uring_event_loop.cpp:141-146 | after a batch every wait that a completion speaks for is over and queued, told success for a result that is not negative and the errno otherwise; every other wait is armed as before |
| `UringLoop.BegunForGood` | src/runtime/uring_event_loop.cpp:75-148 | what the first iteration does to the waits is not taken back by the rest of a run |
| `UringLoop.LapTells` | src/runtime/uring_event_loop.cpp:75-148 | over a whole run: whoever an iteration has timed out, or served after its wait, is told so in every later state, once and for all |
| `UringLoop.CompletionIsTold` | src/runtime/uring_event_loop.cpp:131-146 | no lost completion: one that is among the oldest the wait asks for, once all is submitted, and the first with a token in flight, ends its wait with the outcome of the poll |
| `UringLoop.UringEventLoop.constructor` | src/runtime/uring_event_loop.cpp:23-55 | a new loop is valid and the poll of its wake descriptor is pending |
| `UringLoop.UringEventLoop.CountersAreExact` | src/runtime/uring_event_loop.cpp:499-501 | pending, timed and active counts are the numbers of armed waits, timed waits and unfinished roots in every valid state |
| `UringLoop.UringEventLoop.DeadlineIsCached` | src/runtime/uring_event_loop.cpp:256-266 | the cached deadline is set and at most every armed deadline |
| `UringLoop.UringEventLoop.EveryWaitHasAToken` | src/runtime/uring_event_loop.cpp:252-269 | every armed wait holds exactly one in-flight token, non-zero and its own |
| `UringLoop.UringEventLoop.EveryTokenHasAWait` | src/runtime/uring_event_loop.cpp:465-483 | every in-flight token belongs to an armed wait |
| `UringLoop.UringEventLoop.EveryWaitHasAPoll` | src/runtime/uring_event_loop.cpp:131-136 | no stranded poll: a poll on the descriptor and direction of every armed wait is queued, outstanding, completed or in the batch, unless an earlier run dropped its completion with a batch; unsubmitted entries imply the pending flag |
| `UringLoop.UringEventLoop.NotWrappedYet` | src/runtime/uring_event_loop.cpp:508-515 | the token counter has not wrapped while fewer than 2^64 - 2 tokens were taken for waits; until then tokens are simply numbered |
| `UringLoop.UringEventLoop.WakePollIsPending` | src/runtime/uring_event_loop.cpp:444-462 | the poll of the wake descriptor is pending as well, unless a stopped run did not renew it |
| `UringLoop.UringEventLoop.ServeCompletion` | src/runtime/uring_event_loop.cpp:141-146 | the batch so far and this completion: exactly the waits whose tokens were in flight have been told the outcome of the first completion with their token, and those tokens are gone |
| `UringLoop.UringEventLoop.AllocateToken` | src/runtime/uring_event_loop.cpp:508-525 | terminates with the first non-zero value not in flight, counting cyclically; the counter stays non-zero; wrapping is recorded exactly |
| `UringLoop.UringEventLoop.FlushSubmissions` | src/runtime/uring_event_loop.cpp:337-349 | on success nothing is unsubmitted; an error is the kernel's and changes nothing |
| `UringLoop.UringEventLoop.QueueEntry` | src/runtime/uring_event_loop.cpp:292-335 | the entry is queued, after a submit if the queue was full; the only error is a failed submit, so EBUSY never comes out |
| `UringLoop.UringEventLoop.QueuePollAdd` | src/runtime/uring_event_loop.cpp:292-310 | EINVAL for token 0 or a negative descriptor; otherwise the poll is queued or the submit failed with this very error |
| `UringLoop.UringEventLoop.QueuePollRemove` | src/runtime/uring_event_loop.cpp:312-335 | the removal is queued unless the submit fails; token 0 is ignored |
| `UringLoop.UringEventLoop.ExpireRegistration` | src/runtime/uring_event_loop.cpp:368-401 | a due wait is timed out with its own error, its token dropped and the removal of its poll queued; others are untouched; a loop error is the submit's |
| `UringLoop.UringEventLoop.ScanSlots` | src/runtime/uring_event_loop.cpp:364-425 | without a loop error exactly the due waits are gone and the result is the earliest deadline left |
| `UringLoop.UringEventLoop.ProcessExpiredWaiters` | src/runtime/uring_event_loop.cpp:351-426 | whether it scans or skips, exactly the waits a scan of all slots would expire are timed out, none due is left, and the cache is exact; if none is due neither ring nor scheduler change |
| `UringLoop.UringEventLoop.QueueNewPoll` | src/runtime/uring_event_loop.cpp:268-274 | the token is in flight and a poll on this descriptor and direction is queued under it, or both are as before |
| `UringLoop.UringEventLoop.TakeToken` | src/runtime/uring_event_loop.cpp:508-525 | the token is on nothing in the ring; it is the next number, and the counter wraps only after 2^64 - 2 of them |
| `UringLoop.UringEventLoop.TryEnter` | src/runtime/uring_event_loop.cpp:252-272 | a new token nobody has seen; on success the wait owns it and the poll queued is on this descriptor and direction, on failure ring and in-flight map are as before |
| `UringLoop.UringEventLoop.Withdraw` | src/runtime/uring_event_loop.cpp:273-287 | the rollback restores the table, the counters and the validity of the loop |
| `UringLoop.UringEventLoop.ArmWaiter` | src/runtime/uring_event_loop.cpp:225-290 | each error case with its code and without effect on the abstract scheduler, the ring or the in-flight map; a spent timeout queues the coroutine with its timeout error; an armed wait has this handle and timeout error and is due exactly T ms after the clock reading; beyond those it fails only with the error of a submit; on success the request queued is for this descriptor and direction under the wait's token; at most one token is taken |
| `UringLoop.UringEventLoop.RenewWakePoll` | src/runtime/uring_event_loop.cpp:448-460 | on success the poll of the wake descriptor is outstanding and nothing unsubmitted; the only error is a submit's, and then the poll stays queued |
| `UringLoop.UringEventLoop.Rearm` | src/runtime/uring_event_loop.cpp:444-462 | afterwards the poll of the wake descriptor is outstanding or a stop is requested; a loop error is the submit's |
| `UringLoop.UringEventLoop.Complete` | src/runtime/uring_event_loop.cpp:465-506 | the two fallback returns for a missing slot or a changed token are unreachable; the token is given up and the wait told success, or the errno if the poll's result is negative |
| `UringLoop.UringEventLoop.ProcessCompletion` | src/runtime/uring_event_loop.cpp:437-506 | a token in flight ends exactly its wait, whose coroutine is queued and told success for a result that is not negative and the errno -result otherwise; anything else changes nothing; until the counter wraps the wait resumed is the one whose arming queued that very poll, on its descriptor and direction; the wake poll is lost only if a stop is requested; a loop error is the submit's |
| `UringLoop.UringEventLoop.ChooseTimeout` | src/runtime/uring_event_loop.cpp:114-129 | the limit never exceeds the time left to an armed deadline and is that of the cached deadline to the millisecond |
| `UringLoop.UringEventLoop.Wait` | src/runtime/uring_event_loop.cpp:131-136 | is entered only with nothing unsubmitted and within the limit; collects the oldest completions in order, all of them if neither 64 nor the number asked for is exceeded |
| `UringLoop.UringEventLoop.Perform` | src/runtime/io_ops.cpp:42-62 | a call of a running coroutine is exactly its step: an armed wait with its deadline, a spent one told at once, a task created, dropped, spawned or awaited; until the token counter wraps a wait is refused only for a failed submit or a key in use |
| `UringLoop.UringEventLoop.ResumeNext` | src/runtime/uring_event_loop.cpp:90-90 | the front of the queue is resumed and makes the calls of its script one by one until it suspends, or all of them and then returns; it asks for a stop exactly if it called stop() |
| `UringLoop.UringEventLoop.LetTimePass` | src/runtime/uring_event_loop.cpp:163-179 | polls that fire are completed, and a stop() of another thread sets the flag |
| `UringLoop.UringEventLoop.ResumeAndExpire` | src/runtime/uring_event_loop.cpp:82-98 | the front coroutine runs its script, finished roots are reaped, then exactly what is due times out; the stop flag is set exactly if this turn asked for it; without a loop error the loop stays healthy |
| `UringLoop.UringEventLoop.DrainReadyQueue` | src/runtime/uring_event_loop.cpp:82-98 | resumes one coroutine a turn, in queue order, until the queue is empty, a stop is requested or the turns are used up; after a turn with a stop() it ends at once; what was due at the last clock reading has timed out; without a loop error the loop stays healthy |
| `UringLoop.UringEventLoop.BlockAndServe` | src/runtime/uring_event_loop.cpp:114-146 | submits everything before it blocks, then collects the oldest completions of that ring; without a loop error every one whose token is in flight ends its wait with the outcome of the poll, and every other wait is left armed; it fails only for a submit or a wait that does; the loop stays healthy |
| `UringLoop.UringEventLoop.ServeBatch` | src/runtime/uring_event_loop.cpp:141-146 | every completion of the batch is served up to a loop error, which is the submit's |
| `UringLoop.UringEventLoop.ExpireAndDrain` | src/runtime/uring_event_loop.cpp:76-98 | everything due at the first clock reading is told its timeout error, then the queue is worked off in order; with nothing due or queued nothing happens |
| `UringLoop.UringEventLoop.WaitOrLeave` | src/runtime/uring_event_loop.cpp:100-147 | with the queue worked off: leaves if stopped or done, submits and waits otherwise, and must wait if something is armed and neither fails |
| `UringLoop.UringEventLoop.IdleTurn` | src/runtime/uring_event_loop.cpp:105-147 | leaves when the work is done, otherwise submits and blocks in a turn of its own and serves its batch; it has to if something is armed and neither submit nor wait fails; without a loop error the loop stays healthy |
| `UringLoop.UringEventLoop.Iterate` | src/runtime/uring_event_loop.cpp:75-148 | what is due is told its timeout error, one coroutine is resumed per turn in queue order, and a loop that then is idle submits, waits and serves what it collects from just that state; completions not collected stay first in the queue; an iteration with nothing due or queued goes to wait as it is; nothing due is left; leaves only when stopped or done, stops only if asked; its errors are the kernel's |
| `UringLoop.UringEventLoop.Reset` | src/runtime/uring_event_loop.cpp:70-73 | the tokens of an unprocessed batch of an earlier run are exactly those whose polls are given up for lost |
| `UringLoop.UringEventLoop.Loop` | src/runtime/uring_event_loop.cpp:75-148 | the iterations follow one another without a gap, each as `Iterate` says, from the state at the start to that in which the loop is left |
| `UringLoop.UringEventLoop.WindUp` | src/runtime/uring_event_loop.cpp:150-160 | after the loop nothing stays unsubmitted unless a submit fails, which is then reported |
| `UringLoop.UringEventLoop.Run` | src/runtime/uring_event_loop.cpp:65-161 | for every environment and any earlier run: the whole run is a run of the abstract scheduler, a normal return means stopped or nothing left - then no root and no frame is left either -, the stop flag is set only if a turn or a coroutine asked for it, every error is that of the setup or one the kernel reported in some turn or in the last submit, so a run without a fault never fails; the run is a sequence of such iterations, each beginning where the one before has ended; waits due at the first clock reading are told so, and a loop that has to block tells every wait whose completion it collects; unless stopped it loses no poll; without a loop error a healthy loop stays healthy; it takes at most one token per call of a coroutine, so the counter does not wrap while the calls so far stay below 2^64 - 2 |
| `StopProtocol.RunKeepsInv` | src/runtime/uring_event_loop.cpp:437-462 | the flag, the counter and the wake poll stay consistent in every interleaving |
| `StopProtocol.StopIsNotLost` | src/runtime/event_loop.cpp:145-161 | for every interleaving of any number of stop() calls with a loop whose wake source is watched: blocked after a completed stop() implies that the kernel is bound to end the wait |
| `StopProtocol.StopIsNotLostIffWatched` | src/runtime/uring_event_loop.cpp:131-179 | that holds of a run if and only if it starts with the poll of its wake descriptor queued, outstanding or completed (epoll: always) |
| `StopProtocol.StoppedRunEndsUnwatched` | src/runtime/uring_event_loop.cpp:444-448 | from any blocked and stopped state an io_uring run can exit with its wake poll not renewed |
| `StopProtocol.SecondRunLosesStop` | src/runtime/uring_event_loop.cpp:65-179 | a whole story: started with its wake poll armed, stopped, exited, run again, and now a completed stop() leaves it blocked for good |
| `StopProtocol.WakeStaysReady` | src/runtime/event_loop.cpp:400-407 | while the loop is blocked nothing takes the wake event away |
| `StopProtocol.FlaggedLoopRunsDown` | src/runtime/event_loop.cpp:66-135 | once the flag is set the loop takes a bounded number of further steps, however other threads interleave |
| `StopProtocol.StoppedLoopExits` | src/runtime/uring_event_loop.cpp:75-148 | after a completed stop() the loop has exited or has a step to take - at a wait the kernel owes it, at once or when the poll fires - and takes at most 264 more |
| `WriteQueue.EnqueueKeeps` | src/runtime/write_queue.cpp:37-61 | enqueueing appends exactly the accepted bytes to what is pending and leaves the front chunk alone |
| `WriteQueue.SettleKeeps` | src/runtime/write_queue.cpp:100-106 | a partial drain moves exactly the written prefix from pending to sent |
| `WriteQueue.Conservation` | src/runtime/write_queue.cpp:37-110 | over every run, at every suspension: accepted = sent ++ pending, what the kernel has is a prefix of what was accepted, nothing is ever taken back, queued bytes never exceed the high mark plus the largest chunk |
| `WriteQueue.RefusedIffActive` | src/runtime/write_queue.cpp:43-50 | on a valid stream a non-empty chunk is refused if and only if backpressure is active |
| `WriteQueue.SwitchesAtTheMarks` | src/runtime/write_queue.cpp:53-57 | backpressure starts with an accepted chunk if and only if that reaches the high mark and ends with a counted write if and only if that comes down to the low mark; nothing else switches it |
| `WriteQueue.OnAtTheLowMark` | src/runtime/write_queue.cpp:139-143 | over every run: backpressure is on at or below the low mark only where the two marks are one and the queue is exactly at them |
| `WriteQueue.FlushConserves` | src/runtime/write_queue.cpp:63-110 | for any partial writes and any enqueues in between, every return conserves the bytes; success means empty queue, offset 0, no backpressure, everything accepted is sent |
| `WriteQueue.RoundCounts` | src/runtime/write_queue.cpp:100-105 | a round adds exactly the bytes its write reports to what was sent, from the front of the queue, whatever is enqueued meanwhile |
| `WriteQueue.FlushEndsAs` | src/runtime/write_queue.cpp:71-99 | flush fails with a code or gives up if and only if it gets to a round with that cause: a cancelled token, the error of the write, a write of nothing (EPIPE), or the time; every round before moved bytes and left some |
| `WriteQueue.GivesUpAfterASlice` | src/runtime/write_queue.cpp:85-95 | when flush gives up for lack of time its deadline has passed, or one slice since a clock reading before it; the write inside is the timed write with its own rounds |
| `WriteQueue.OnTimeIffOneSlice` | src/runtime/write_queue.cpp:75-95 | flush never gives up for lack of time a millisecond or more before its deadline, in any run, if and only if nothing is queued or its timeout is at most 100 ms |
| `WriteQueue.NeverEarlyIffOneMillisecond` | src/runtime/write_queue.cpp:85-95 | it never gives up for lack of time early at all if and only if nothing is queued or its timeout is at most 1 ms, because the slice is cut to whole milliseconds |
| `WriteQueue.StalledGivesUp` | src/runtime/write_queue.cpp:91-95 | the witness: a write that stalls for its slice makes flush give up at the end of that slice |
| `WriteQueue.LateChunksStayPending` | src/runtime/write_queue.cpp:115-120 | after a flush the queue stays empty if and only if no byte is offered before the write side is closed |
| `WriteQueue.QueuedWriter.constructor` | src/runtime/write_queue.cpp:15-24 | a low mark of 0 becomes 1, a high mark below the low one becomes the low one, others stay; the queue is empty and backpressure off |
| `WriteQueue.QueuedWriter.Enqueue` | src/runtime/write_queue.cpp:37-61 | EBADF on an invalid stream, EWOULDBLOCK exactly under backpressure, otherwise accepted with the new state reported: on exactly if the high mark is reached |
| `WriteQueue.QueuedWriter.Account` | src/runtime/write_queue.cpp:100-106 | counts a write, drops a finished chunk and releases backpressure exactly if the queue has come down to the low mark |
| `WriteQueue.QueuedWriter.Flush` | src/runtime/write_queue.cpp:63-110 | is the flush function step by step; a negative timeout is EINVAL without effect |
| `WriteQueue.QueuedWriter.GracefulShutdown` | src/runtime/write_queue.cpp:112-125 | everything accepted before the flush returned is sent before the write side is closed; nothing is pending then if and only if no byte was offered in between |
| `Slices.SliceFits` | src/runtime/io_ops.cpp:262-267 | a slice is at least 1 ms, at most the cap and overshoots the time left by less than 1 ms |
| `TimedIo.SlicesAreShort` | src/runtime/io_ops.cpp:322-330 | every slice lies in 1..20 ms: the time left in whole milliseconds, at least 1, or 20 if that is more |
| `TimedIo.TimedOutWaitsAreBounded` | src/runtime/io_ops.cpp:301-336 | a call with timeout T ms makes at most T timed-out waits, and at most T / 20 + 2 |
| `TimedIo.OwnTimeoutIsNotEarly` | src/runtime/io_ops.cpp:317-320 | its own ETIMEDOUT comes from a clock reading at or past the deadline, and every transfer up to then would have blocked |
| `TimedIo.TransferEndsAs` | src/runtime/io_ops.cpp:301-336 | each result if and only if the first round that does not go on has that cause: the bytes moved, the error of the transfer or of the wait, the cancelled token, or the deadline |
| `TimedIo.TransferWithTimeout` | src/runtime/io_ops.cpp:294-380 | is that loop step by step; a negative timeout is EINVAL |
| `TimedIo.TimerIsArmed` | src/runtime/io_ops.cpp:269-273 | the timer is never set to zero, which would disarm it |
| `TimedIo.SleepIsNotEarly` | src/runtime/io_ops.cpp:252-291 | a sleep succeeds if and only if some round finds the deadline passed before anything goes wrong |
| `TimedIo.SleepEndsAs` | src/runtime/io_ops.cpp:252-291 | each result if and only if the first round that does not doze has that cause: the token, the deadline, or an error of setting, waiting for or reading the timer, in that order |
| `TimedIo.Sleep` | src/runtime/io_ops.cpp:236-292 | cancellation first, then a non-positive duration succeeds at once, then the loop; each round sets the timer once, to the time left in whole milliseconds, 1 to 20 of them |
| `Endpoint.ParsePort` | src/runtime/resolver.cpp:177-186 | the value of the digits if at most 65535, for text of any length; the 32-bit accumulator never wraps |
| `Endpoint.ParseIpv4Endpoint` | src/runtime/resolver.cpp:167-194 | is the parse function below |
| `Endpoint.LastColonIs` | src/runtime/resolver.cpp:168-168 | the colon found is the last one |
| `Endpoint.AcceptedTexts` | src/runtime/resolver.cpp:167-194 | whatever inet_pton accepts: a text is accepted as host and port if and only if it is a non-empty host that inet_pton accepts up to its first NUL, a colon, and digits of that value up to 65535 |
| `Endpoint.NoEmptyHost` | src/runtime/resolver.cpp:188-191 | dotted decimal refuses a host of which C sees nothing |
| `Endpoint.DecimalIsRead` | src/runtime/resolver.cpp:196-198 | a printed number is read back as itself and has no leading zero |
| `Endpoint.PrintThenParse` | src/runtime/resolver.cpp:196-198 | parse(format(e)) = e if and only if the host of e is valid, whatever inet_pton accepts |
| `Endpoint.ParsePrintParse` | src/runtime/resolver.cpp:167-198 | every accepted text, also one with a NUL in its host, means the same after printing and parsing again |
| `Endpoint.ParseThenPrint` | src/runtime/resolver.cpp:196-198 | it is printed unchanged if and only if its port had no leading zeros |

## Left out

- System calls, epoll and io_uring internals: they appear only as the contracts of `EpollKernel` and `UringRing`. A
  successful submit takes the whole queue, the completion queue does not overflow, an edge is queued when readiness
  rises or a mask is set, a removed poll completes with ECANCELED. A peek
  that fails inside `wait`, dropping completions already read, is not modelled.
- Descriptors closed or reused behind the loop's back, and awaitables that are not the library's own.
- After a failed kernel call in the loop itself (`healthy` is false) masks, edges and the exact deadline cache are no
  longer claimed: an empty slot may remain and the rest of the batch is dropped. What still holds is claimed: every slot
  in use is watched, so a later run fails only with an error the kernel reports.
- EpollLoop.EventLoop.Run: termination is not claimed, since it depends on the coroutines.
- UringLoop.UringEventLoop.Run: termination is not claimed; polls whose completions an earlier run dropped after a loop error stay lost (`lost`), as in the source.
- UringLoop.UringEventLoop.ProcessCompletion: that a completion belongs to the arming it resumes is claimed until the 64-bit token counter wraps, because the search for a free token looks only at tokens in flight.
- UringLoop.UringEventLoop.ArmWaiter: assumes fewer than 2^64 - 1 tokens in flight; with all of them in flight the search for a free token would not end.
- UringLoop.UringEventLoop.AllocateToken: the same assumption.
- UringLoop.UringEventLoop.constructor: assumes a queue depth of at least 1 and a wake descriptor that is not negative unless the setup failed, and models a failure of the setup only as the error that run() and arm_waiter report.
- StopProtocol: sequentially consistent interleavings; memory orders of the atomics are not modelled. A stop() begun before run() clears the flag is not covered, because run() clears it.
- C++ exceptions in tasks, results of tasks, and tasks awaited without a scheduler (resumed in place).
- Destruction of a loop with unfinished coroutines, and tasks destroyed while suspended.
- UringLoop.UringEventLoop.Perform: with all 2^64 - 1 tokens in flight, where the search for a token would not end, the model makes no call.
- Frames are values in the scheduler's map rather than separate heap objects; a destroyed handle may be used again for a new frame.
- Overflow of 64-bit clock values and of `size_t` byte counts.
- WriteQueue.QueuedWriter.Flush: one flush at a time, as the source requires; moving a writer is not modelled.
- TimedIo.Sleep: all sleeps of a thread share one timer descriptor; a second sleeper appears as a wait that fails with EBUSY.
- `async_accept`, `async_connect`, `async_read_exact`, `async_write_all` and the untimed waits: short loops over what is modelled here.
- The resolver thread, `getaddrinfo` and the mapping of its errors: a foreign call and I/O plumbing.
- `Endpoint`: the address that `inet_pton` computes is not used by the source, so only its verdict is modelled, as a
  parameter. `DottedDecimal` is the verdict of section 6.3 of RFC 3493, which allows leading zeros in an octet; the usual
  Linux C libraries refuse them.
- src/blocking, src/nonblocking, src/core, the engine facade and the I/O context: thin wrappers and forwarding.
