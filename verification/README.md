# Proofs about a reactor network library

A Dafny model of the parts of the library that are hard to get right: the event loop's cross-thread
functor queue, the thread pool's bounded queue, the timer queue, the two pollers, the byte buffer
and the output side of a TCP connection built on it, and the calendar arithmetic of `Date`.

`dafny verify dfyconfig.toml` checks the project.

## How it is laid out

| file | what it holds |
|---|---|
| `WakeupProtocol.dfy`, `EventLoop.dfy` | the loop and its wakeups as a step relation over one loop thread and any number of others; the `EventLoop` class |
| `PoolMonitor.dfy`, `ThreadPool.dfy` | the monitor with two conditions, single notifies, barging and spurious wakeups; the `ThreadPool` class |
| `SortedEntries.dfy`, `TimerModel.dfy`, `TimerProperties.dfy`, `TimerQueue.dfy` | the timer queue in small steps, with reusable addresses and callbacks that add and cancel; the `TimerQueue` class |
| `PollerModel.dfy`, `Pollers.dfy` | both pollers and the interest map they implement; the `Channel`, `PollPoller` and `EPollPoller` classes |
| `ByteBuffer.dfy`, `IntegerCodec.dfy`, `Buffer.dfy` | the buffer against a byte queue, its space, its integers; the `Buffer` class |
| `ConnectionModel.dfy`, `TcpConnection.dfy` | the output queue and the half-close; the `TcpConnection` class over `Buffer` and `Channel` |
| `JulianDate.dfy` | both day-number conversions against the leap-year rule |
| `Numbers.dfy` | the maximum of two numbers |

The stateful components come in two forms. A value with a step function and `Run` over a list of
actions carries the invariants and the statements about whole runs. A class with the program's
fields carries the methods, proved against the value. `EventLoop`, `ThreadPool` and `TimerQueue`
keep a ghost trace, and their `Ok()` says that the fields are what `Run` of that trace gives, so
everything proved of runs holds of the object after every method; methods that can be interrupted
let other threads take arbitrary steps between their critical sections. `Buffer`, `PollPoller`,
`EPollPoller` and `TcpConnection` keep no trace: their `Ok()` is the invariant, and each method
says which step of the value it takes.

The logs that the statements about runs speak of (what was pushed, queued, accepted, written) are tied
to functions of the list of actions, so that a step that forgets its argument fails them.

A step is one critical section, one system call or one write to a flag. What the operating system
chooses (when poll returns, how much write takes, which waiter a notify wakes, what the allocator
returns) is an argument or an action, and is quantified over.

## What the code does that its reader may not expect

Each of these is proved of the code as it stands; where an operation meets its promise only under a
condition, the theorem gives that condition exactly.

* A functor queued by the loop thread while it is not inside `loop()` gets no wakeup and can be slept on
  (`PushOutsideLoopIsSleptOn`), until the next pass swaps it out (`UnwokenMeansUnswapped`). A `quit()`
  lasts until `loop()` is next entered (`QuitLastsUntilEntry`), so one before `loop()` is forgotten, and
  one inside it is honoured (`QuitIsHonoured`).
* A pool with a bounded queue whose tasks call `run()` can block all its workers (`SelfBlockedPool`);
  with an unbounded queue, or if no task calls `run()`, it never stalls with work left
  (`StallsOnlyWhenDone`). `stop()` leaves no task for sure only if no more are queued than workers are
  already past their test of `M_running` and nobody is inside `run()` (`StopLeavesNothing`); with nobody
  inside it leaves exactly the excess (`StopLeavesExactly`).
* A cancel that overtakes its own timer's `addTimerInLoop` is lost, and that is the only cancel that is
  (`CancelIsFinalExactly`).
* `PollPoller::updateChannel` (src/PollPoller.cpp:89-96) never makes a negated `pfd.fd` positive again,
  so a channel that is disabled and enabled again is not polled. The model keeps that, and
  `PollersWatchTheSame` says when it shows. `removeChannel` keeps the old index, and its assertion at
  line 110 fails for a channel that was never disabled while registered (`WhereAssertionsDiffer`,
  `RemovedCannotReturn`, `UndisabledCannotLeave`).
* `TcpConnection::handleWrite` calls `retrieveAll()` where `retrieve(n)` is meant (src/TcpConnection.cpp:324),
  so a partial write drops the rest. `ConnectionModel` takes either as a policy, and `StreamIntegrity`
  says that the stream survives exactly with the second, or without partial writes. The class has the first.
* `peekInt64` is declared `int32_t` (include/Buffer.h:279); `appendInt16` and `prependInt16` use variables
  wider than 16 bits (lines 218 and 336), and `prependInt16` pushes all four bytes. `ReadBack`,
  `CodecRoundTrip` and `PrependRoundTrip` take the types written or those meant, and either byte
  order, and say which values survive: with the types meant, all of them.
* `resetTimerfd` never arms for less than 100 microseconds (src/TimerQueue.cpp:30-33), so a timerfd
  may be set for up to 100 microseconds after it was armed, and no later (`ArmIsInTime`, `OverdueHasFired`). `reset` does not arm for times at
  or before 1970 (line 214), which starves such timers exactly when no callback has armed for them
  (`NeverStarved`), and never with a clock past 1970 (`NotStarvedAfter1970`).
* `startRead` on a connection not yet established or already closed turns reading on, and an end of
  file then fails the assertion of `handleClose` (`CloseAssertionHolds`).
* `shrink` builds a buffer of the default size first, so that size enters the space bound after a shrink.
* The date conversions are inverse from -4800-03-01 on and no earlier. Before it the day numbers still
  count days, but for the ends of some Februaries (`DayCountStep`). `weekDay` can be negative below
  day number -1.

Where the text does not compile, the token that is obviously meant is modelled: `M_looping` at
src/EventLoop.cpp:88, `==` at include/Channel.h:71 and src/TcpConnection.cpp:201, `M_timers` at
src/TimerQueue.cpp:209, the second statement of src/TimerQueue.cpp:35-37 dropped, the `activeChannels`
argument at src/PollPoller.cpp:60 and src/EPollPoller.cpp:92, `M_buffer` at include/Buffer.h:391.
`hostToNetwork8`, which nothing defines, is the identity.

## Model

| member | source | states |
|---|---|---|
| WakeupProtocol.DoKeepsInv | src/EventLoop.cpp:84-153 | Every step of every thread (push, eventfd write, quit, poll return, swap, run, end of pass) keeps the protocol invariant: each pushed functor is in exactly one place in lock order, a push the loop could sleep on has its wakeup on its way, and the calling flag is true exactly during a pass |
| WakeupProtocol.RunKeepsInv | src/EventLoop.cpp:84-153 | The invariant holds after any interleaving of any number of threads |
| WakeupProtocol.NoLostWakeup | src/EventLoop.cpp:142-153 | In every interleaving, unless a loop-thread push made outside loop() is still unswapped: whenever the loop is at poll, or past a swap and heading back to it, with functors pending, the eventfd is readable or some thread stands between its push and its write |
| WakeupProtocol.UnwokenMeansUnswapped | src/EventLoop.cpp:149-152 | The mark that excuses a missing wakeup is set if and only if the loop thread pushed while not inside loop() and no pass has swapped since |
| WakeupProtocol.SleepsOnlyWhenDone | src/EventLoop.cpp:92-112 | If the loop is blocked in poll with nobody about to write the eventfd, no quit is outstanding, and every functor ever pushed has been executed if and only if no outside push is still unswapped |
| WakeupProtocol.PushOutsideLoopIsSleptOn | src/EventLoop.cpp:149-152 | From every quiet state outside loop(), a queueInLoop in the loop thread followed by loop() is slept on with the functor pending, so the restriction is needed |
| WakeupProtocol.QuitLastsUntilEntry | src/EventLoop.cpp:88-128 | In every interleaving the quit flag is set if and only if quit() was called, in any thread, and loop() has not been entered since |
| WakeupProtocol.QuitBeforeLoopIsLost | src/EventLoop.cpp:88-89 | So a quit() from another thread that completes before loop() is entered is forgotten: the loop goes on to poll |
| WakeupProtocol.LoopStepGetsOut | src/EventLoop.cpp:92-128 | In every state inside loop() with the flag set and its wakeup written, the next step of the loop thread is possible without a poll timeout and strictly shortens the way out |
| WakeupProtocol.QuitIsHonoured | src/EventLoop.cpp:84-128 | Progress: from every such state the loop thread alone leaves loop(), in a bounded number of steps, getting out of poll by the eventfd only |
| WakeupProtocol.QuitIsHonouredSoon | src/EventLoop.cpp:84-153 | Whatever goes on: once the flag is set, in any interleaving that has not left loop() yet the loop thread has taken at most the steps it had ahead of it and one for each push made meanwhile, timeouts of poll included |
| WakeupProtocol.QuitIsNotStuck | src/EventLoop.cpp:92-128 | In every such state the next step of the loop thread is possible, or a thread that set the flag has yet to write its wakeup |
| WakeupProtocol.PassesComplete | src/EventLoop.cpp:236-249 | In every interleaving, once a pass has ended everything pushed before it began is executed, in every state outside a pass from then on |
| WakeupProtocol.OwersStandBeforeWakeup | src/EventLoop.cpp:118-153 | After any interleaving the threads that owe a wakeup are exactly those whose own latest call has got past its push or flag write and not its wakeup; every other thread may call |
| WakeupProtocol.HistoryIsPushes | src/EventLoop.cpp:142-147 | After any interleaving the history is exactly what the calls of queueInLoop handed over, read off the list of actions in lock order |
| WakeupProtocol.CounterIsSignals | src/EventLoop.cpp:216-234 | The eventfd counts exactly the wakeups written since it was last read, up to its maximum |
| WakeupProtocol.ExactlyOnceInOrder | src/EventLoop.cpp:236-249 | After any interleaving, executed ++ rest of the batch ++ pending is what the calls of queueInLoop handed over, in lock order |
| WakeupProtocol.PassRunsSnapshot | src/EventLoop.cpp:236-249 | A doPendingFunctors pass runs a fixed finite list: whatever is pushed meanwhile, executed ++ batch stays what had been pushed by the swap, and a pass that ends has executed exactly that |
| WakeupProtocol.LoopStepGetsCloser | src/EventLoop.cpp:92-112 | In every undisturbed state inside loop() with work left, the next step of the loop thread is possible without a poll timeout and strictly shortens the way to having run everything |
| WakeupProtocol.Drains | src/EventLoop.cpp:84-116 | Progress: from every such state the loop thread alone executes everything pushed so far, in a bounded number of steps, getting out of poll by the eventfd only |
| WakeupProtocol.DrainsSoon | src/EventLoop.cpp:84-153 | Whatever goes on: in any interleaving that stays in loop(), until everything pushed by its start is executed the loop thread takes at most a number of steps fixed at that start and one for each push of its own; pushes of other threads do not delay it |
| WakeupProtocol.WorkIsNotStuck | src/EventLoop.cpp:92-153 | In every state inside loop() with work left and no outside push unswapped the next step of the loop thread is possible, or a thread that pushed has yet to write its wakeup |
| EventLoopClass.EventLoop.constructor | src/EventLoop.cpp:45-58 | A new loop is in the initial state of the protocol |
| EventLoopClass.EventLoop.Wakeup | src/EventLoop.cpp:216-224 | The eventfd is readable afterwards, even when the counter is at its maximum |
| EventLoopClass.EventLoop.PushFrom | src/EventLoop.cpp:142-147 | The locked push of another thread appends its functor to the queue and the history, as one step of the protocol, and leaves the loop thread's own state alone |
| EventLoopClass.EventLoop.SetQuitFrom | src/EventLoop.cpp:118-120 | The flag write of quit() in another thread is one step of the protocol |
| EventLoopClass.EventLoop.WakeFrom | src/EventLoop.cpp:149-152 | The wakeup that follows a push is one step of the protocol, and leaves the eventfd readable |
| EventLoopClass.EventLoop.WakeQuitFrom | src/EventLoop.cpp:124-127 | The wakeup that follows a quit likewise |
| EventLoopClass.EventLoop.QuitOwn | src/EventLoop.cpp:118-128 | quit() in the loop thread sets the flag and writes nothing |
| EventLoopClass.EventLoop.Perform | src/EventLoop.cpp:118-153 | User code in the loop thread makes exactly its calls, in order, whatever other threads do in between |
| EventLoopClass.EventLoop.PushOwn | src/EventLoop.cpp:142-149 | The loop thread's own push appends to the history, and is followed by a wakeup if and only if functors are being called |
| EventLoopClass.EventLoop.QueueInLoop | src/EventLoop.cpp:142-153 | queueInLoop in the loop thread, other threads running in between, keeps the object in a state of some run and appends to the history |
| EventLoopClass.EventLoop.HandleRead | src/EventLoop.cpp:226-234 | Reading the eventfd empties it, and runs before the swap of the same iteration |
| EventLoopClass.EventLoop.SwapOut | src/EventLoop.cpp:240-243 | The local vector gets exactly the functors pushed and not yet executed, and the queue is empty |
| EventLoopClass.EventLoop.DoPendingFunctors | src/EventLoop.cpp:236-249 | Runs everything pushed before the call and nothing pushed after its swap, and clears the flag; what it calls is exactly the bodies of the functors it ran, in order, other threads interleaved |
| EventLoopClass.EventLoop.Test | src/EventLoop.cpp:92-92 | The loop is left exactly when the quit flag is set |
| EventLoopClass.EventLoop.HandleEvents | src/EventLoop.cpp:94-110 | From poll to the end of the handlers, with other threads stepping between any two steps: the handlers make exactly their calls, nothing pushed is lost and no pending functor is run |
| EventLoopClass.EventLoop.Loop | src/EventLoop.cpp:84-116 | For all poll results, user code and interleavings: each iteration makes the calls of its handlers and then of the functors it runs, in one pass listed by its place in the trace, and everything pushed before that pass began is executed on either exit; where the thread would block asleep no quit is outstanding, and everything is executed if and only if no outside push is still unswapped |
| PoolMonitor.DoKeepsInv | src/ThreadPool.cpp:65-111 | Every critical section, notify, spurious wakeup and stop keeps the monitor invariant, under barging |
| PoolMonitor.RunKeepsInv | src/ThreadPool.cpp:65-111 | The invariant holds after any interleaving |
| PoolMonitor.ProduceKeepsNotify | src/ThreadPool.cpp:65-84 | One notify per pushed task is enough: no sleeping worker is needed for a task that has no woken worker of its own |
| PoolMonitor.ConsumeKeepsNotify | src/ThreadPool.cpp:86-105 | One notify per popped task is enough, dually, for sleeping producers and free slots |
| PoolMonitor.HistoryIsQueued | src/ThreadPool.cpp:65-84 | After any interleaving the history is exactly the tasks of the calls of run() that found workers and room, read off the list of actions |
| PoolMonitor.TasksLeaveInOrder | src/ThreadPool.cpp:65-105 | Over every run: taken ++ queued is exactly those tasks (FIFO, each once), and the queue never exceeds its maximum |
| PoolMonitor.CallersKeepTheirTask | src/ThreadPool.cpp:73-80 | Over every run a caller waiting inside run() still holds the task of its own latest try |
| PoolMonitor.WaitMayEnd | src/ThreadPool.cpp:74-93 | Any wait may end without a notify, and the thread can then try again |
| PoolMonitor.SleepersAreNotNeeded | src/ThreadPool.cpp:74-102 | Over every run: an unsignalled sleeping worker implies queue size <= signalled workers, an unsignalled sleeping producer implies free slots <= signalled producers, so sleepers on both sides imply somebody is signalled |
| PoolMonitor.StallsOnlyWhenDoneOrSelfBlocked | src/ThreadPool.cpp:65-128 | While running with a worker, the pool can stop moving in exactly two ways: all tasks taken and nobody inside run(), or every worker itself blocked in run() on a full queue |
| PoolMonitor.StallsOnlyWhenDone | src/ThreadPool.cpp:65-128 | What a caller can do: with an unbounded queue, or if no task calls run(), the running pool stalls only when all tasks are taken and nobody is inside run() |
| PoolMonitor.WorkersStayOutside | src/ThreadPool.cpp:113-128 | In a run in which no task calls run(), no worker ever waits inside it |
| PoolMonitor.SelfBlockedPool | src/ThreadPool.cpp:74-77 | Otherwise it can happen: every pool with a bounded queue and any workers has a run at whose end all of them are blocked in run() on a full queue |
| PoolMonitor.WorkerStepGetsCloser | src/ThreadPool.cpp:86-128 | While tasks are queued, the next step of a worker that neither waits nor is inside run() is possible and strictly shortens the way to an empty queue |
| PoolMonitor.WorkersDrain | src/ThreadPool.cpp:86-128 | Progress: from every state of a running pool with a worker outside run(), the workers alone take every queued task, in at most three steps each |
| PoolMonitor.StopWakesAllWorkers | src/ThreadPool.cpp:45-52 | After stop() no worker is left asleep, in any interleaving |
| PoolMonitor.StoppedRun | src/ThreadPool.cpp:45-128 | After stop(), in any interleaving: the queued tasks in excess of the workers already past the M_running test never become fewer, and stay as many unless a task is queued; nor does the excess of queued tasks and callers inside run() together; and without new calls nobody comes to be inside run() |
| PoolMonitor.StopLeavesExactly | src/ThreadPool.cpp:45-128 | A stopped run that ends with nothing able to move leaves at least the excess of queued tasks over the workers past the test, and exactly it if nobody is inside run() or calls it anew, or if nothing more is queued; it leaves some task whenever the queued tasks and the callers inside run() outnumber those workers; and it leaves a producer asleep only on a full queue |
| PoolMonitor.StopLeavesNothing | src/ThreadPool.cpp:45-128 | What a caller can know at stop(): no run without new calls that ends with nothing able to move, callers inside run() resuming or not, leaves a task if and only if no more tasks are queued than workers are past the test and nobody is inside run() |
| PoolMonitor.LateWorkersFirst | src/ThreadPool.cpp:74-128 | From every stopped state some run without new calls ends with nothing able to move, and it leaves a task if anybody was inside run() |
| PoolMonitor.StopLeavesTasksAndProducers | src/ThreadPool.cpp:45-57 | An example of both: a task left in the queue and a producer asleep on M_notFull for good |
| ThreadPoolClass.ThreadPool.constructor | src/ThreadPool.cpp:26-43 | A started pool of given workers is in the start state of the monitor |
| ThreadPoolClass.ThreadPool.IsFull | src/ThreadPool.cpp:107-111 | True exactly when the monitor counts the queue as full; a maximum of 0 means unbounded |
| ThreadPoolClass.ThreadPool.PushAndNotify | src/ThreadPool.cpp:80-82 | Appends the task and moves one sleeping worker, if there is one, to woken |
| ThreadPoolClass.ThreadPool.Run | src/ThreadPool.cpp:65-84 | run() with its wait loop, other threads interleaved at each wait: the task is executed inline, is the latest new entry of the queue's history, or its caller is still asleep, and the object stays in a state of some run |
| ThreadPoolClass.ThreadPool.PopAndNotify | src/ThreadPool.cpp:95-103 | Takes the front of the queue and wakes a sleeping producer, if there is one and the queue is bounded |
| ThreadPoolClass.ThreadPool.Take | src/ThreadPool.cpp:86-105 | take() with its wait loop: a task that is the latest new entry of what was taken, nothing only once stopped with an empty queue, or still asleep |
| ThreadPoolClass.ThreadPool.TestRunning | src/ThreadPool.cpp:121-121 | The worker goes on to take() if and only if the pool is running |
| ThreadPoolClass.ThreadPool.FinishTask | src/ThreadPool.cpp:124-128 | After its task the worker is back at the test |
| ThreadPoolClass.ThreadPool.RunInThread | src/ThreadPool.cpp:113-128 | Over any number of rounds and interleavings the worker executes exactly the tasks its own take() calls return, in order, and leaves only once the pool has stopped |
| ThreadPoolClass.ThreadPool.Stop | src/ThreadPool.cpp:45-52 | Clears the flag and wakes all workers asleep on M_notEmpty |
| SortedEntries.LowerBoundSplits | src/TimerQueue.cpp:173-176 | In an ordered set no entry from lower_bound on is less than the sentry, while all before it are |
| SortedEntries.Insert | src/TimerQueue.cpp:232-236 | The set then holds the new entry and what it held, and nothing else |
| SortedEntries.InsertSorted | src/TimerQueue.cpp:226-236 | Insertion keeps the set strictly ordered by (time, address), and the new entry becomes the first exactly when it precedes the old first: what earliestChanged reports, but for a tie in time |
| SortedEntries.EraseSorted | src/TimerQueue.cpp:135-136 | Erasure keeps the order and removes exactly the named entry, so it finds one when it is there |
| TimerModel.TimespecExact | src/TimerQueue.cpp:26-45 | The timespec is normal, equals the remaining time to the microsecond, is at least 100us and so never disarms the timerfd |
| TimerModel.AddOwned | src/TimerQueue.cpp:116-125 | addTimerInLoop finds the timer in neither set (both assertions hold) and moves it from queued to indexed |
| TimerModel.CancelOwned | src/TimerQueue.cpp:127-145 | cancelInLoop erases from both sets or neither (n == 1 holds), frees only a live timer, and keeps ownership |
| TimerModel.CollectSplits | src/TimerQueue.cpp:170-176 | With the sentry (now, UINTPTR_MAX) the entries before lower_bound are those with expiration <= now and the others are > now, so the assertion at line 174 holds |
| TimerModel.CollectOwned | src/TimerQueue.cpp:168-188 | getExpired moves the same timers out of both sets, and each of them stays owned, by the batch |
| TimerModel.ResetOwned | src/TimerQueue.cpp:190-207 | Restarting or freeing the first timer of the rest of a batch touches only a live timer and keeps ownership of all others |
| TimerModel.RestartsLater | src/Timer.cpp:5-15 | A restarted periodic timer expires no earlier than the time it is restarted from |
| TimerModel.ArmIsInTime | src/TimerQueue.cpp:26-71 | Arming is never early, and in time if and only if the expiration is at least 100us away |
| TimerModel.EndReadArms | src/TimerQueue.cpp:209-217 | After reset both sets agree, and the timerfd is armed for the earliest timer if and only if reset did not decline to arm for one at or before 1970 that no callback had armed for; a batch collected after 1970 never declines so |
| TimerModel.DoKeepsInv | src/TimerQueue.cpp:116-246 | Every step (clock, add from any thread, addTimerInLoop, cancel, collect, one callback, finish) keeps ownership, index agreement, the armed timerfd and the log of callbacks |
| TimerProperties.SizesAgree | src/TimerQueue.cpp:130-144 | The size assertions hold: M_timers and M_activeTimers have the same size whenever they hold the same timers |
| TimerProperties.EveryTimerHasOneOwner | src/TimerQueue.cpp:116-246 | In every state of every run, callbacks that add and cancel included: both sets hold the same live timers, each keyed by its current expiration and sequence, and every live timer is in exactly one of queued, indexed, current batch |
| TimerProperties.StepStarves | src/TimerQueue.cpp:116-218 | From a state that is not starved, a step starves a timer if and only if it is the end of a batch at which reset declines to arm |
| TimerProperties.NeverStarved | src/TimerQueue.cpp:116-218 | Over every run, from any clock: between batches M_timers is always empty or the timerfd armed or fired-unread for a time no later than the earliest expiration, or 100us after it was armed, if and only if no batch ended with reset declining to arm |
| TimerProperties.OverdueHasFired | src/TimerQueue.cpp:116-218 | So, once any timer is overdue and 100us have passed since the timerfd was armed, its descriptor has fired |
| TimerProperties.NotStarvedAfter1970 | src/TimerQueue.cpp:147-218 | In every run whose batches are collected after 1970 reset never declines so and no timer is starved |
| TimerProperties.StarvedBefore1970 | src/TimerQueue.cpp:209-217 | Before 1970 it happens: from any clock at least 100us earlier, a periodic timer due at once is starved after its first batch |
| TimerProperties.BatchIsExact | src/TimerQueue.cpp:168-188 | A batch is exactly the timers with expiration <= now, in nondecreasing time order, and all that stay are later |
| TimerProperties.BatchIsFixed | src/TimerQueue.cpp:153-162 | No action of a callback, not even adding a timer already due, changes the running batch |
| TimerProperties.PostedAsAsked | src/TimerQueue.cpp:102-109 | addTimer in another thread stores the time, interval and repetition asked for, under a number nobody had, and leaves all other timers alone |
| TimerProperties.AddedAsAsked | src/TimerQueue.cpp:102-125 | addTimer in the loop thread does so too and indexes the timer |
| TimerProperties.PostedWaitsForItsTurn | src/TimerQueue.cpp:106-108 | Over every run a timer handed over stays as it was added, queued, until its addTimerInLoop runs |
| TimerProperties.PostedIsAdded | src/TimerQueue.cpp:116-119 | addTimerInLoop indexes it as it was added |
| TimerProperties.WaitingStep | src/TimerQueue.cpp:127-218 | Of all steps only its own cancel, and a batch collected when it is due, take a timer out of the two sets or run it |
| TimerProperties.WaitsUntilDue | src/TimerQueue.cpp:127-218 | So over every run without its cancel a timer waits unchanged and does not run until a batch is collected at or after its expiration |
| TimerProperties.DueIsCollected | src/TimerQueue.cpp:168-188 | Such a batch collects it |
| TimerProperties.AddedIsCollectedWhenDue | src/TimerQueue.cpp:102-188 | A timer added for a time and not cancelled is collected by the first batch at or after that time and does not run before |
| TimerProperties.CollectedIsRun | src/TimerQueue.cpp:157-162 | A batch that ends has run the callback of every timer it collected |
| TimerProperties.CollectedStays | src/TimerQueue.cpp:157-163 | Until then its timers stay alive and as they were |
| TimerProperties.AddedRearms | src/TimerQueue.cpp:118-124 | Adding re-arms the timerfd, for that timer, if and only if it is due strictly before all others |
| TimerProperties.FinishRearms | src/TimerQueue.cpp:209-217 | The end of a batch re-arms it for the earliest timer, if that one is due after 1970, and else leaves it |
| TimerProperties.ResetOutcome | src/TimerQueue.cpp:190-207 | Over a whole batch: exactly the periodic, uncancelled timers are restarted from now, all others in it are freed, and timers outside it are as they were |
| TimerProperties.BatchOutcome | src/TimerQueue.cpp:190-218 | At the end of a batch a restarted timer is back in both sets, its expiration not earlier than before and strictly later for an interval of at least 1us; every other timer of the batch is gone |
| TimerProperties.CancelIsFinalUnlessQueued | src/TimerQueue.cpp:127-145 | Cancelling an issued id leaves its timer gone, or doomed to go with the current batch, if and only if it is not still waiting for its own addTimerInLoop |
| TimerProperties.LostCancelRuns | src/TimerQueue.cpp:127-145 | If it is still waiting, the cancel is lost: from every such state some continuation runs the timer in the next batch |
| TimerProperties.CancelIsFinalExactly | src/TimerQueue.cpp:127-165 | So over all continuations: cancelling an issued id is final, but for the occurrence already collected, if and only if its timer is not still waiting for its addTimerInLoop |
| TimerProperties.CancelIsPrecise | src/TimerQueue.cpp:131-143 | A cancel leaves every timer with another (address, sequence) as it was, place and fate included, so a stale id with a reused address does nothing |
| TimerProperties.DoomLasts | src/TimerQueue.cpp:127-207 | A doomed timer stays doomed through every step and is gone by the end of the batch, so it cannot be restarted or reused under its number |
| TimerProperties.CancelIsFinal | src/TimerQueue.cpp:127-165 | Over every run after the cancel of an added timer, no later batch runs it; at most its already collected occurrence in the current batch does, once |
| TimerQueueClass.TimerQueue.constructor | src/TimerQueue.cpp:77-88 | A new queue is in the initial state of the model |
| TimerQueueClass.TimerQueue.ResetTimerfd | src/TimerQueue.cpp:58-71 | Arms the timerfd for the given time or 100us from now, whichever is later |
| TimerQueueClass.TimerQueue.InsertIndexes | src/TimerQueue.cpp:220-246 | Both sets take the timer, and the result says whether it is the new earliest |
| TimerQueueClass.TimerQueue.Post | include/Timer.h:14-22 | The new timer holds what was asked for, under a sequence number nobody had, so that (address, sequence) names it alone although addresses are reused |
| TimerQueueClass.TimerQueue.AddTimerInLoop | src/TimerQueue.cpp:116-125 | Indexes the timer and re-arms the timerfd if and only if it is the new earliest |
| TimerQueueClass.TimerQueue.AddTimer | src/TimerQueue.cpp:102-109 | addTimer in the loop thread leaves the timer indexed, holding what was asked for, and returns an id that names it |
| TimerQueueClass.TimerQueue.CancelTimer | src/TimerQueue.cpp:127-145 | Exactly the named timer is freed if it is indexed, and else its id is noted while callbacks run; the size assertions hold |
| TimerQueueClass.TimerQueue.GetExpired | src/TimerQueue.cpp:168-188 | Returns the due prefix of M_timers and removes it from both sets; every entry returned is live |
| TimerQueueClass.TimerQueue.EraseActives | src/TimerQueue.cpp:178-184 | The loop erases exactly the batch from M_activeTimers, each erase finding its element |
| TimerQueueClass.TimerQueue.Reset | src/TimerQueue.cpp:190-218 | The loop and the re-arming compute the specified outcome of the whole batch |
| TimerQueueClass.TimerQueue.CollectBatch | src/TimerQueue.cpp:147-155 | handleRead up to its loop is one collect step of the model |
| TimerQueueClass.TimerQueue.FireNext | src/TimerQueue.cpp:158-162 | Each callback is started on a live timer and logged under its sequence number |
| TimerQueueClass.TimerQueue.DrainTimerfd | src/TimerQueue.cpp:47-56 | A timerfd that has fired is unarmed after the read, any other stays |
| TimerQueueClass.TimerQueue.FinishBatch | src/TimerQueue.cpp:163-166 | handleRead after its loop is one finish step, and starves a timer if and only if reset declines to arm |
| TimerQueueClass.TimerQueue.Callback | src/TimerQueue.cpp:158-162 | A callback takes exactly the steps of its script, each as one step of the model |
| TimerQueueClass.TimerQueue.HandleRead | src/TimerQueue.cpp:147-166 | For all contents and clocks, all callback scripts, and whatever other threads and the clock do before the first callback: the trace is one collection, then each callback of the batch with its script, then the end; a timer is starved afterwards only if the batch was collected, and that timer is due, at or before 1970 |
| PollerModel.PollAssertsExactly | src/PollPoller.cpp:65-112 | In every good state each assertion of updateChannel and removeChannel holds exactly when the caller's own sequence of calls was proper (first update of a free descriptor, else registered; removal only after a disable while registered) |
| PollerModel.PollRemoveKeepsInv | src/PollPoller.cpp:100-128 | Swap-remove re-points exactly the moved channel, whether or not its slot is negated, and keeps the array and the map in agreement |
| PollerModel.PollDoKeepsInv | src/PollPoller.cpp:65-128 | Every allowed update and removal keeps the agreement |
| PollerModel.SlotsAndChannelsAreOneToOne | src/PollPoller.cpp:65-128 | In every good state Channel.index is a bijection from M_channels onto the positions of M_pollfds, each slot's fd is fd or -fd-1 with the channel's mask, and decoded descriptors are pairwise distinct |
| PollerModel.EpollDoKeepsInv | src/EPollPoller.cpp:96-180 | Every operation the assertions let through keeps the kernel set equal to the mapped channels with index kAdded and their masks, and the kernel never refuses its epoll_ctl: ADD hits only absent descriptors, MOD and DEL only present ones |
| PollerModel.EpollAssertsExactly | src/EPollPoller.cpp:96-150 | In every good state the assertions hold exactly when the channel is registered or its descriptor free (update), or registered with an empty mask (removal) |
| PollerModel.EpollImplementsView | src/EPollPoller.cpp:96-157 | EPollPoller does to the abstract map of masks and registrations what the caller asked |
| PollerModel.EpollWatchesWanted | src/EPollPoller.cpp:96-180 | What epoll watches is exactly what the callers want watched |
| PollerModel.PollImplementsView | src/PollPoller.cpp:65-128 | PollPoller does the same to the abstract map |
| PollerModel.PollWatchesWantedUnlessIgnored | src/PollPoller.cpp:65-128 | What poll watches is what the callers want, less the registered descriptors whose slot is negated |
| PollerModel.IgnoredMeansDisabled | src/PollPoller.cpp:89-96 | A slot is negated exactly from the first update to no events while registered until the removal: nothing ever makes it positive again |
| PollerModel.BothDo | src/PollPoller.cpp:65-128 | The same call keeps the two pollers in agreement, and what passes PollPoller's assertions passes EPollPoller's |
| PollerModel.PollersWatchTheSame | src/PollPoller.cpp:65-128 | For every sequence of calls PollPoller allows, it watches what EPollPoller watches less the descriptors once disabled; the two agree if and only if none of those is enabled again |
| PollerModel.ReenabledIsNotPolled | src/PollPoller.cpp:89-96 | Disabling and re-enabling any registered channel is allowed, and leaves it watched by epoll and not by poll |
| PollerModel.WhereAssertionsDiffer | src/PollPoller.cpp:69-110 | Of what EPollPoller accepts, PollPoller's assertions accept an update if and only if the index is negative or the channel registered, and a removal if and only if the channel was disabled while registered |
| PollerModel.RemovedCannotReturn | src/PollPoller.cpp:82-128 | Both happen: any registered channel, disabled and removed as it should be, is accepted again by EPollPoller and fails the assertions of PollPoller, which kept its index |
| PollerModel.UndisabledCannotLeave | src/PollPoller.cpp:100-110 | And any channel first added with no events can be removed from EPollPoller and fails the assertions of PollPoller |
| PollerClasses.Channel.EnableWriting | include/Channel.h:86-90 | Sets the write bit, changes no other |
| PollerClasses.Channel.DisableReading | include/Channel.h:80-84 | Clears both read bits, changes no other |
| PollerClasses.Channel.EnableReading | include/Channel.h:74-78 | Sets both read bits, changes no other |
| PollerClasses.Channel.DisableWriting | include/Channel.h:92-96 | Clears the write bit, changes no other |
| PollerClasses.Channel.DisableAll | include/Channel.h:98-102 | No event is left, which is what isNoneEvent tests |
| PollerClasses.PollPoller.UpdateChannel | src/PollPoller.cpp:65-98 | Appends a slot or edits it in place, with every assertion discharged |
| PollerClasses.PollPoller.SetEvents | src/PollPoller.cpp:65-98 | A channel's mask setter followed by update() keeps the agreement |
| PollerClasses.PollPoller.RemoveChannel | src/PollPoller.cpp:100-128 | Swap-remove in place refines the specified removal |
| PollerClasses.PollPoller.FillActiveChannels | src/PollPoller.cpp:46-63 | Stopping early at numEvents loses nothing: all reported channels are listed once, in slot order, with their revents, and each lookup succeeds |
| PollerClasses.EPollPoller.Ctl | src/EPollPoller.cpp:159-180 | epoll_ctl succeeds and changes the one interest |
| PollerClasses.EPollPoller.UpdateChannel | src/EPollPoller.cpp:96-136 | The three-way branch on the index refines the specified update |
| PollerClasses.EPollPoller.SetEvents | src/EPollPoller.cpp:96-136 | A channel's mask setter followed by update() keeps the kernel in step |
| PollerClasses.EPollPoller.RemoveChannel | src/EPollPoller.cpp:138-157 | Removal refines the specified one and keeps the kernel in step |
| PollerClasses.EPollPoller.FillActiveChannels | src/EPollPoller.cpp:44-94 | Each reported data.ptr is a registered channel of its own descriptor, gets its revents, and the event list grows whenever it was filled |
| ByteBuffer.EnsureWritableKeeps | include/Buffer.h:163-170 | Compaction and growth leave the contents unchanged and make the room asked for |
| ByteBuffer.AppendAppends | include/Buffer.h:151-156 | append adds exactly its bytes at the end, across compaction and growth |
| ByteBuffer.PrependPrepends | include/Buffer.h:348-354 | prepend adds exactly its bytes at the front |
| ByteBuffer.ShrinkKeeps | include/Buffer.h:356-362 | shrink keeps the contents and leaves the reserve asked for |
| ByteBuffer.ReadFdAppends | src/Buffer.cpp:12-40 | readFd appends exactly the bytes read, whether they fit the first area or spill into the second |
| ByteBuffer.DoRefinesQueue | include/Buffer.h:87-192 | Every operation keeps reader <= writer <= size and does to the readable bytes what a plain queue does |
| ByteBuffer.RunRefinesQueue | include/Buffer.h:87-402 | Over any sequence of operations the readable bytes equal the abstract queue |
| ByteBuffer.SpaceBound | include/Buffer.h:387-402 | Over any run the vector never exceeds the larger of its starting size and 2 * (peak readable + requested) + 8, although growth does not compact first; shrink brings in the default size |
| ByteBuffer.FrontRoom | include/Buffer.h:87-131 | Only prepending uses up the room in front, beyond what is less than the eight bytes kept for it, and emptying or shrinking the buffer restores these |
| ByteBuffer.RoomInFront | include/Buffer.h:87-402 | So over any run of a buffer with its eight bytes in front, eight bytes in all can be prepended |
| ByteBuffer.LineIsFound | include/Buffer.h:55-67 | For a line without a line end, even one ending in a carriage return, findCRLF and retrieveUntil frame exactly that line and leave what follows |
| IntegerCodec.NarrowAppend | include/Buffer.h:198-229 | The bytes append writes are the big-endian form of the value on either host, except that, with the types written, appendInt16 writes two zero bytes on a big-endian host because its variable is 64 bits wide |
| IntegerCodec.BigByte | include/Buffer.h:198-229 | Byte by byte, the big-endian form is the two's complement digits of the number, highest first |
| IntegerCodec.AppendedByte | include/Buffer.h:198-229 | The i-th byte append writes is the i-th digit of the value in network byte order, but for that exception |
| IntegerCodec.WidePrepend | include/Buffer.h:325-346 | The bytes prepend writes are the big-endian form, except that, with the types written, prependInt16 writes four |
| IntegerCodec.PeekOfBig | include/Buffer.h:279-320 | peek decodes the big-endian form on either host, except that, with the types written, peekInt64 keeps 32 bits only |
| IntegerCodec.ReadBack | include/Buffer.h:198-320 | Reading back an appended value always gives it with the types meant; with those written, if and only if a 64-bit value fits 32 bits and a 16-bit one is 0 or the host little-endian |
| IntegerCodec.ReadAllEncoded | include/Buffer.h:235-273 | The matching reads consume exactly the encoded integers, each equal to its original if and only if that one is faithful in this build |
| IntegerCodec.CodecRoundTrip | include/Buffer.h:198-320 | For any list of integers appended to any buffer, across compactions, the reads give the list back if and only if all are faithful in this build (with the types meant, always), and leave the rest of the buffer unchanged |
| IntegerCodec.PrependRoundTrip | include/Buffer.h:325-354 | Prepending and reading is the identity on value and contents; with the types written, 8 and 32 bits keep both, and 16 never the contents, and the value if and only if the host is little-endian or it is 0 |
| BufferClass.Buffer.constructor | include/Buffer.h:18-26 | An empty buffer laid out with 8 prependable and initialSize writable bytes |
| BufferClass.Buffer.Swap | include/Buffer.h:28-33 | The two buffers exchange contents and layout |
| BufferClass.Buffer.MakeSpace | include/Buffer.h:387-402 | The in-place move or growth, the assertion at line 395 included |
| BufferClass.Buffer.EnsureWritableBytes | include/Buffer.h:163-170 | Contents unchanged and the room asked for available |
| BufferClass.Buffer.Append | include/Buffer.h:151-156 | Contents become old contents ++ data |
| BufferClass.Buffer.Prepend | include/Buffer.h:348-354 | Contents become data ++ old contents |
| BufferClass.Buffer.Retrieve | include/Buffer.h:87-98 | Exactly the first len bytes leave; an emptied buffer has its eight bytes in front again |
| BufferClass.Buffer.RetrieveAll | include/Buffer.h:127-131 | The buffer is empty with eight bytes in front |
| BufferClass.Buffer.RetrieveAsString | include/Buffer.h:133-139 | The result and what stays concatenate to the old contents |
| BufferClass.Buffer.RetrieveUntil | include/Buffer.h:100-105 | Exactly the bytes before the position leave |
| BufferClass.Buffer.Unwrite | include/Buffer.h:188-192 | Exactly the last len bytes leave |
| BufferClass.Buffer.Shrink | include/Buffer.h:356-362 | Contents unchanged, through the temporary buffer and swap |
| BufferClass.Buffer.FindCrlf | include/Buffer.h:55-67 | Finds the first line end at or after the start, or says there is none |
| BufferClass.Buffer.ReadFd | src/Buffer.cpp:12-40 | The bytes read are appended; on an error the contents stay and errno is saved |
| BufferClass.Buffer.AppendInt | include/Buffer.h:198-229 | Contents gain the encoding of the value |
| BufferClass.Buffer.ReadInt | include/Buffer.h:235-273 | The decoded value, and exactly its bytes leave |
| BufferClass.Buffer.PrependInt | include/Buffer.h:325-346 | Contents gain the prepended encoding in front |
| ConnectionModel.SendKeepsInv | src/TcpConnection.cpp:124-178 | sendInLoop keeps the gate and the stream for every outcome of write(2) |
| ConnectionModel.WriteKeepsInv | src/TcpConnection.cpp:314-348 | handleWrite keeps the gate and the stream for every outcome of write(2), with retrieveAll() and with retrieve(n) |
| ConnectionModel.RunKeepsInv | src/TcpConnection.cpp:84-362 | The gate, the half-close order and the stream hold after any sequence of calls and events |
| ConnectionModel.OutputGate | src/TcpConnection.cpp:124-348 | Over every run, until it is disconnected the channel waits for writability if and only if M_outputBuffer is not empty |
| ConnectionModel.StateFollowsCalls | src/TcpConnection.cpp:84-362 | Over every run the state, the channel's read bit and M_reading are what the list of calls and events says, whatever is written |
| ConnectionModel.LogsFollowCalls | src/TcpConnection.cpp:124-348 | Over every run the accepted bytes are the messages sent while connected, less those that met a fault with nothing waiting before them, and the bytes written are what the kernel took of each write |
| ConnectionModel.StreamIntegrity | src/TcpConnection.cpp:314-342 | Over every run, bytes written ++ output buffer equals those accepted messages if and only if handleWrite retrieves only what was written or no writable event took a part of the buffer |
| ConnectionModel.PartialWriteDrops | src/TcpConnection.cpp:319-325 | It happens: every message whose first write is refused and whose second is partial loses the rest |
| ConnectionModel.HalfCloseIsLast | src/TcpConnection.cpp:180-196 | shutdownWrite runs only on an empty output buffer, after every accepted byte that was not dropped, and no byte is written after it |
| ConnectionModel.ShutdownIsHonoured | src/TcpConnection.cpp:180-196 | Over every run in which shutdown() was called while connected, until the connection is closed it is half-closed if and only if nothing waits: at once, or when the output drains |
| ConnectionModel.CompleteMeansDrained | src/TcpConnection.cpp:328-331 | A write-complete callback is queued only when nothing waits |
| ConnectionModel.CallbacksExactly | src/TcpConnection.cpp:142-170 | A call or event hands the loop exactly the callbacks due to it: write-complete when the kernel took the last byte, high-water when the mark is crossed upward, and no others |
| ConnectionModel.HighWaterExactly | src/TcpConnection.cpp:164-170 | A high-water callback is queued exactly when a send lifts the waiting output from below the mark to it or above |
| ConnectionModel.CloseAssertionHolds | src/TcpConnection.cpp:302-354 | An end of file always finds the connection open, as handleClose asserts, in exactly the runs that never call startRead before the connection is established or after it is closed |
| TcpConnectionClass.TcpConnection.constructor | src/TcpConnection.cpp:29-56 | A new connection is in the initial state |
| TcpConnectionClass.TcpConnection.ConnectEstablished | src/TcpConnection.cpp:282-291 | One establish step: connected and reading |
| TcpConnectionClass.TcpConnection.Send | src/TcpConnection.cpp:84-98 | Refused without effect unless connected; else exactly the message is accepted unless it met a fault with nothing waiting, and exactly what the kernel took is written |
| TcpConnectionClass.TcpConnection.SendInLoop | src/TcpConnection.cpp:124-178 | On a real buffer and channel: bytes written ++ buffer grow by exactly the accepted message |
| TcpConnectionClass.TcpConnection.Shutdown | src/TcpConnection.cpp:180-187 | A connected connection is disconnecting, and half-closed at once if and only if nothing waits; any other stays as it is |
| TcpConnectionClass.TcpConnection.ShutdownInLoop | src/TcpConnection.cpp:189-196 | Half-closes exactly when the channel is not writing |
| TcpConnectionClass.TcpConnection.ForceClose | src/TcpConnection.cpp:198-206 | A connected or disconnecting connection is disconnecting, with a close queued |
| TcpConnectionClass.TcpConnection.ForceCloseInLoop | src/TcpConnection.cpp:219-227 | One close step, or none when already disconnected |
| TcpConnectionClass.TcpConnection.HandleClose | src/TcpConnection.cpp:350-362 | Disconnected, with no event left on the channel |
| TcpConnectionClass.TcpConnection.HandleRead | src/TcpConnection.cpp:293-312 | In any state the bytes read join the input buffer and an error changes nothing; end of file closes, given the assertion of handleClose |
| TcpConnectionClass.TcpConnection.StartReadInLoop | src/TcpConnection.cpp:257-265 | Reading, in both the flag and the channel |
| TcpConnectionClass.TcpConnection.StopReadInLoop | src/TcpConnection.cpp:272-280 | Not reading, in both the flag and the channel |
| TcpConnectionClass.TcpConnection.HandleWrite | src/TcpConnection.cpp:314-348 | One writable step with the retrieveAll() of line 324, on a real buffer and channel: exactly what the kernel took is written, the write-complete callback is queued, and a disconnecting connection is half-closed |
| JulianDate.DateRoundTrip | src/Date.cpp:8-30 | getYearMonthDay(getJulianDayNumber(d)) == d for a valid date d if and only if d is -4800-03-01 or later |
| JulianDate.EpochIsTight | src/Date.cpp:8-15 | 29 February -4800 and the next day have the same day number |
| JulianDate.JdnRoundTrip | src/Date.cpp:17-30 | getYearMonthDay(j) is a valid date if and only if j >= -32044, and then converts back to j |
| JulianDate.DayCountStep | src/Date.cpp:8-15 | For every valid date the calendar successor, under the 4/100/400 leap rule, has a day number exactly one larger if and only if the date is not the last of a February of -4800 or earlier where exactly one of its year and the year before is a leap year; there it is 0 or 2 larger |
| JulianDate.ClosedFormIsCalendar | src/Date.cpp:8-30 | n calendar days after the epoch, counted page by page, both closed forms give that date and that number |
| JulianDate.MoreDaysIsLater | include/Date.h:90-93 | More days after the epoch is a lexicographically later date |
| JulianDate.OrderIsCalendarOrder | include/Date.h:90-98 | For all valid dates, operator< is the (year, month, day) order and operator== is equality of dates, but for 29 February and 1 March of such a leap year, which share a day number |
| JulianDate.WeekDayRange | include/Date.h:76-79 | weekDay, with C++'s truncating remainder, lies in 0..6 if and only if the day number is at least -1 or one below a multiple of 7 |
| JulianDate.WeekDayAdvances | include/Date.h:76-79 | For every valid date the weekday moves on by one modulo 7 with the calendar if and only if the day number moves on by one, and exactly by one step of 0..6 from day number -1 on |
| JulianDate.UnixEpochIsThursday | src/Date.cpp:33-33 | 1 January 1970 has day number 2440588 and is a Thursday |
| JulianDate.OverflowBound | src/Date.cpp:17-30 | From the epoch on, getYearMonthDay stays within 32-bit int if and only if the day number is at most 536838867 |
| JulianDate.RoundTripFits | src/Date.cpp:8-30 | No 32-bit overflow either way for every day number in that range |

## Left out

- Sockets, acceptors, connectors, addresses and the logger: system calls and plumbing; read, readv, write, poll, epoll_wait and epoll_ctl are arguments or actions within their documented contracts.
- Reference counts, weak pointers and `Channel::tie`: callbacks are data, and a connection lives as long as it is used.
- `TcpConnection::connectDestroyed`: declared without a definition; server and client teardown with it.
- `send`, `shutdown` and `forceClose` from other threads: their state tests are not atomic; all callers are in the loop thread. `forceCloseWithDelay` is a timer plus `forceClose`.
- `send(Buffer*)`: the same send followed by `retrieveAll` of the argument.
- Bytes that `sendInLoop` discards after EPIPE or ECONNRESET count as not accepted, so the stream statements are about messages not lost to such an error.
- `handleError` and the connection, message and close callbacks: user code, no effect on the modelled state.
- Thread start-up and join in the pool: the workers are a fixed set; exceptions out of tasks end the process.
- Fairness: progress of the loop thread is a bound on its own steps and the absence of stuck states; for the pool it is the states in which nothing can move.
- `runInLoop` in the loop thread calls its argument directly: that is user code of the loop thread in the model.
- The assertions of `EventLoop::removeChannel` about the active list, and the destructors.
- Floating-point intervals and clock jumps: times are integer microseconds on one nondecreasing clock; a positive interval may truncate to zero.
- Two event loops, `EventLoopThreadPool`, `BlockingQueue`, `Atomic`: easy, or covered by the pool.
- epoll_ctl on a descriptor closed while still registered.
- `findEOL` (memchr) and formatting of dates and timestamps.
- PollerClasses.PollPoller.FillActiveChannels: takes what poll wrote as an argument, and assumes that poll reports nothing for a negative descriptor, as POSIX says.
- PollerClasses.EPollPoller.FillActiveChannels: assumes epoll_wait reports distinct members of the interest set, no more than asked for.
- PollerClasses.EPollPoller.Ctl: the log and the abort on failure are left out, since it is proved not to fail.
- Integer widths other than those of `Date` and the buffer's integers: sizes, sequence numbers and timestamps are unbounded.
- The vectors, deques, maps and sets of the standard library are sequences, maps and sets; capacity and iterator invalidation are not modelled.
