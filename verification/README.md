# Verification of the thread pool, the semaphores and the signal queues

This project models the concurrent and the linked parts of the repository in
Dafny and proves what they promise, on every schedule.

* `PoolModel.dfy` is `BS::thread_pool` as a transition system: any number of
  workers, of clients inside `detach_task` or a splitter, of threads inside
  `wait()`, and one thread that constructs, resets or destroys the pool. A step
  is one critical section of `tasks_mutex`, one action between two of them, or
  the delivery of one notification. `notify_one` wakes any sleeping worker, and
  spurious wake-ups are allowed. A run is a list of enabled steps.
* `PoolCounts`, `PoolHistory`, `PoolOrder`, `PoolCalls` and `PoolLifecycle` prove
  invariants of every step; `PoolSafety` and `PoolReset` draw the conclusions for
  every run.
* `PoolRules`, `PoolWakeup`, `PoolCompletion` and `PoolWitness` say exactly under
  which rules for the calls of clients no wake-up is lost and every call completes,
  with a run that fails for each rule, for every number of threads. What threads
  inside the pool do is never restricted. `PoolProgress` proves that every run
  without new calls is bounded, from every reachable state and without rules, and
  that under the rules it ends with everything done.
* `Blocks`, `PoolLoops` and `PoolFutures` treat the splitters: the arithmetic of
  the block bounds in the index type, the end-to-end statement that a parallel
  loop visits what the sequential loop visits, and the results of `get()`.
* `ThreadPool.dfy` is the class itself, function by function: constructor,
  `worker`, `wait`, `wait_for`, `detach_task`, the splitters, `pause`, `unpause`,
  `purge`, `reset`, the destructor and `multi_future::get`. Its critical sections
  are the source's own statements, and between two of them all other threads may
  do whatever the protocol allows (`Others`). The class invariant is that some run
  from construction reaches the state of the object, so every theorem about
  reachable states is true of every object. `PoolThreads` proves what a thread can
  rely on between its critical sections, `PoolContracts` what the functions promise.
* `CountingSemaphore.dfy`, `SignalQueue.dfy` and `SemProbe.dfy` treat the
  semaphore polyfill (section 32.7 [thread.sema] of ISO C++20), the linked lists
  of `psignals.c`, and `sem_getvalue` (IEEE Std 1003.1-2008).

Environment: `hardware_concurrency()` is a parameter of the configuration. A task
is the client call it belongs to and an index range; it ends normally or by an
exception at one of its indices. Which worker a notification wakes, which of
several tasks of equal priority is taken, when a timed wait expires, and every
interleaving are arbitrary. Methods that can block take a number `patience`: how
often they look again before the caller stops watching them; a result says
whether they have returned by then.

## What turned out not to hold

* `reset()` is documented to let the new threads execute the tasks that were
  queued before it (`BS_thread_pool.hpp:1532`). On a pause-enabled pool that is
  not paused, line 1577 restores `paused` without a notification, so a queued task
  can be stranded for ever (`PoolWitness.ResetStrandsTask`). Wake-ups are kept
  exactly when pausing is disabled or an unpaused pool is never reset
  (`PoolWitness.WakeupsKeptExactlyWhen`).
* `wait()` can sleep for ever on a predicate that is true in four ways. Somebody
  purges or pauses meanwhile. A second thread is inside `wait()`, where `reset` and
  the destructor wait too, because the first one to leave clears the shared flag
  `waiting`. Or somebody unpauses the pool while a reset is in progress that found
  it paused: a client that enters `wait()` after that sleeps until all is done, but
  line 1577 pauses the pool again and notifies nobody
  (`PoolWitness.UnpauseStrandsWaiter`). Completion wake-ups are kept exactly when
  clients do none of the four (`PoolWitness.CompletionsKeptExactlyWhen`).
* So calls need not complete. Wherever the threads of the pool come to rest
  everything that clients asked for is done, exactly when clients keep those rules
  and the one on `reset`, and no task waits for its own pool, unless that is
  rejected (`PoolWitness.CompletesExactlyWhen`).
* `get_tasks_running()` is documented as the number of tasks being executed
  (`BS_thread_pool.hpp:1456`); it also counts workers that are starting or have
  just finished a task. `PoolWitness.CounterOvercounts` is a reachable state where
  it is the number of threads and nothing runs; `PoolSafety.CounterAccounting` says exactly when the
  two agree, and by `PoolSafety.WaitPostcondition` they do when `wait()` returns.
* The semaphore limits the number of accessors (`BS_thread_pool.hpp:2228`) only if
  threads release what they hold: exactly then the units held never exceed the
  initial value (`CountingSemaphore.ExclusionExactlyWhen`).
* The constructor of `blocks` names a member `total_size` that the class does not
  have (`BS_thread_pool.hpp:493-501`); the model reads it as the local of line 492.
* `sem_getvalue` changes the count while it runs. A report is always exact only if
  no two such calls overlap (`SemProbe.ReportsExactExactlyWhen`); an available unit
  is never refused by `sem_trywait` only if nobody tries during such a call
  (`SemProbe.RefusedExactlyWhen`); and no unit is lost only if nobody posts at the
  maximum (`SemProbe.NothingLostExactlyWhen`). Each is an equivalence for every
  initial value.
* `pid_array_add` and `signalqueue_add` keep a list headed exactly when they are
  called on its head (`SignalQueue.Add`); `SignalQueue.LosesHead` builds a list of
  two nodes on which a call on the second one breaks it.

## Model

| member | source | states |
|---|---|---|
| PoolCounts.KeepControl | BS_thread_pool.hpp:1887-1940 | Every step of every thread keeps the phase discipline: workers are unborn only while being created, stop only while `workers_running` is false, none sleeps after the `notify_all` of `destroy_threads`, all have stopped before new ones are created, and the controlling thread is a waiter exactly while it is inside `wait()`. |
| PoolCounts.KeepCount | BS_thread_pool.hpp:1902-1908 | Every step keeps `tasks_running` equal to the number of workers that are not initialized, run a task, or have not decremented it yet, also across generations of different size. |
| PoolHistory.KeepConserve | BS_thread_pool.hpp:2014-2039 | Every step keeps submitted = queued + running + finished + purged as multisets, started = running + finished, and outcomes for exactly the finished tasks. |
| PoolOrder.KeepOrder | BS_thread_pool.hpp:1963-1972 | Every step keeps the start order: FIFO without priorities; with them no started task overtook one whose own priority is higher and that was already submitted. |
| PoolOrder.OrderTakePriority | BS_thread_pool.hpp:305-308 | Taking any queued task whose priority is at least that of every other one keeps that no started task overtook a queued or later started one of higher priority that was already submitted. |
| PoolCalls.KeepCalls | BS_thread_pool.hpp:1338-1346 | Every step keeps that the tasks a splitter call has submitted are a prefix of its blocks, in order, whatever is submitted in between. |
| PoolLifecycle.KeepLog | BS_thread_pool.hpp:1995-2044 | Every step keeps the exact count of runs of `init_func` and `cleanup_func` for every worker of every generation. |
| PoolLifecycle.KeepHost | BS_thread_pool.hpp:1789-1795 | Every step keeps that a task inside `wait()` still occupies its worker, and that there is none with the deadlock checks. |
| PoolSafety.Reachable | BS_thread_pool.hpp:1281-1284 | All invariants hold in every state that any run from construction reaches, for every configuration and number of threads. |
| PoolSafety.CounterAccounting | BS_thread_pool.hpp:2003 | The decrement of `tasks_running` never underflows; the counter is 0 once a generation has stopped; it equals the number of tasks being executed exactly when no worker is starting or about to decrement. |
| PoolSafety.ExactlyOnce | BS_thread_pool.hpp:1417-1427 | In every reachable state each submitted task is in exactly one place, once; no task is started twice; no unsubmitted task is anywhere. |
| PoolSafety.OutcomeOnce | BS_thread_pool.hpp:1734-1764 | A task that returns had no outcome before, so its promise is fulfilled exactly once, with a value or an exception. |
| PoolSafety.WaitPostcondition | BS_thread_pool.hpp:1787-1807 | When `wait()` returns nothing is running and `tasks_running` is the number of running tasks, 0; unless the pool is paused every task submitted before is finished or purged, once; the wait changes neither queue nor history. |
| PoolSafety.PurgeDiscards | BS_thread_pool.hpp:1522-1529 | `purge` discards exactly the queued tasks: no later run starts any of them, and the running ones stay. |
| PoolSafety.StartOrder | BS_thread_pool.hpp:1417-1427 | Without priorities the start log followed by the queue is in submission order, and is the whole submission order if nothing was purged; with priorities no started task has a lower priority than one that was already submitted then and was started later or is still queued. |
| PoolSafety.PrioritiesFall | BS_thread_pool.hpp:2083 | With priorities, of two tasks started between the same two submissions the later one does not have the higher priority. |
| PoolSafety.InitOnce | BS_thread_pool.hpp:1995-1999 | Each worker of each generation runs `init_func` exactly once and before it reaches its loop, and has run `cleanup_func` exactly once when its generation is over. |
| PoolSafety.SelfWaitForever | BS_thread_pool.hpp:1789-1806 | A task that enters `wait()` on its own pool stays there in every later state, and the predicate it waits for is false in all of them. |
| PoolSafety.SelfWaitRejected | BS_thread_pool.hpp:1789-1795 | The call throws and leaves the pool untouched exactly when the deadlock checks are enabled; otherwise the task becomes such a waiter. |
| PoolReset.FrozenRun | BS_thread_pool.hpp:2014-2023 | While the pool is paused or stopping no task starts, and absent a purge the queue is the old queue followed by the tasks submitted since. |
| PoolReset.PauseHolds | BS_thread_pool.hpp:1513-1520 | After `pause`, until somebody unpauses, no task starts, absent a purge the queue only grows, and `wait()` waits for the running tasks only. |
| PoolReset.PausedOnRequest | BS_thread_pool.hpp:2063 | The pool begins unpaused: in every reachable state that is paused somebody has called `pause` or `reset` before. |
| PoolReset.ResetKeepsQueue | BS_thread_pool.hpp:1567-1583 | A reset of a pause-enabled pool with no concurrent unpause starts no task, keeps the queue, restores `paused`, and leaves a new generation of the determined size. |
| PoolReset.OldWorkersGone | BS_thread_pool.hpp:1938-1939 | When new workers are created all old ones have stopped, each after its cleanup, and `tasks_running` is 0. |
| PoolReset.StopsOnlyAfterWait | BS_thread_pool.hpp:1293-1303 | On every run from an idle pool to a state in which `workers_running` is false there is a state, inside a call of `reset` or the destructor, in which nothing runs and, unless the pool is paused, nothing is queued; every task submitted before it is then finished or purged in the end, and every task started before it has finished. |
| PoolReset.StoppingDiscardsNothing | BS_thread_pool.hpp:1931-1940 | After `workers_running` is false no further task starts, no queued task is discarded, and after the `notify_all` no worker is asleep. |
| PoolWakeup.WakeStep | BS_thread_pool.hpp:1417-1427 | If unpaused pools with pausing are not reset, every step keeps that each queued task has a pending or delivered wake-up whenever some worker sleeps. |
| PoolCompletion.DoneStep | BS_thread_pool.hpp:2002-2013 | If clients keep the rules (one thread waits at a time, nobody pauses or purges meanwhile, nobody unpauses a pool that a reset will pause again), every step of every thread, the end of a reset included, keeps that nobody sleeps untold on a true predicate of `wait()`. |
| PoolWitness.ResetStrandsTask | BS_thread_pool.hpp:1572-1577 | For every number of threads before and after: a run in which a reset of an unpaused pool ends with a task that was queued before it, an unpaused pool, and no thread of the pool able to move. |
| PoolWitness.WakeupsKeptExactlyWhen | BS_thread_pool.hpp:1567-1583 | For every number of threads: task wake-ups are kept in all reachable states if and only if pausing is disabled or unpaused pools are never reset. |
| PoolWitness.NeverIdleWithWork | BS_thread_pool.hpp:2014-2027 | Under that rule an unpaused running pool with all workers asleep and no wake-up in flight has an empty queue. |
| PoolWitness.PurgeStrandsWaiter | BS_thread_pool.hpp:1525-1529 | A run in which a purge leaves a waiter asleep for ever on a true predicate. |
| PoolWitness.PauseStrandsWaiter | BS_thread_pool.hpp:1516-1520 | A run in which a pause does so. |
| PoolWitness.UnpauseStrandsWaiter | BS_thread_pool.hpp:1572-1577 | A run in which the pool is paused, reset, and unpaused during the reset, a client then enters `wait()` as the only waiter, and the end of the reset makes its predicate true and leaves it asleep for ever. |
| PoolWitness.SecondWaiterStrands | BS_thread_pool.hpp:1806 | A run in which the first of two waiters to leave clears `waiting` and so strands the second. |
| PoolWitness.CompletionsKeptExactlyWhen | BS_thread_pool.hpp:1787-1807 | For every number of threads: completion wake-ups are kept in all reachable states if and only if nobody purges, pauses or enters `wait()` while someone is inside it, and nobody unpauses a pool that a reset in progress will pause again. |
| PoolProgress.InternalFalls | BS_thread_pool.hpp:2000-2040 | In every reachable state, with any number of threads inside `wait()`, every step that a thread inside the pool takes by itself, and the expiry of a timed wait, lower one natural-number measure of the whole pool. |
| PoolProgress.BoundedRuns | BS_thread_pool.hpp:2000-2040 | From every reachable state, whatever clients did before: without new client calls a run, in which timed waits may expire at any time, has at most that many steps, plus a constant for each spurious wake-up. |
| PoolProgress.JoinBounded | BS_thread_pool.hpp:1938-1939 | While workers are joined, every worker step lowers a sum of ranks that nothing raises, whatever clients do. |
| PoolProgress.JoinCanMove | BS_thread_pool.hpp:1938-1939 | The next `join` returns or the worker it waits for can take a step, unless that worker's task waits for its own pool. |
| PoolProgress.QuiescentIsSettled | BS_thread_pool.hpp:1787-1807 | Where no thread inside the pool can move, every `detach`, `wait()`, reset and destruction has completed and, unless paused, every task is finished or purged. |
| PoolProgress.EveryCallCompletes | BS_thread_pool.hpp:1981-1988 | Both together for every state reachable under the rules: runs without new calls are bounded and end with everything done. |
| PoolProgress.ComesToRest | BS_thread_pool.hpp:1995-2044 | From every reachable state the threads of the pool can go on until none of them can move. |
| PoolProgress.CanSettle | BS_thread_pool.hpp:1995-2044 | From every state reachable under the rules they can, by themselves, bring the pool to where everything is done. |
| PoolProgress.UnpauseResumes | BS_thread_pool.hpp:1769-1780 | After `unpause` on an idle pool reached under the rules, its threads can by themselves bring it to where every submitted task is finished or purged. |
| PoolWitness.SelfWaitStrands | BS_thread_pool.hpp:1787-1807 | Without the deadlock checks, for every number of threads, a run that ends with a task waiting for its own pool and nothing able to move. |
| PoolWitness.CompletesExactlyWhen | BS_thread_pool.hpp:1787-1807 | For every number of threads, in all reachable states: wherever the threads come to rest everything asked of the pool is done, if and only if clients keep the rules: unpaused pools with pausing are not reset, a pool that a reset will pause again is not unpaused, nobody purges, pauses or enters `wait()` while someone is inside it, and tasks do not wait for their own pool unless that is rejected. |
| PoolWitness.CounterOvercounts | BS_thread_pool.hpp:1456-1464 | For every number of threads: a reachable state after construction in which `tasks_running` is that number although no task is being executed. |
| Blocks.OffsetStep | BS_thread_pool.hpp:494-496 | Consecutive blocks are contiguous and non-empty; sizes differ by at most one, larger ones first. |
| Blocks.OffsetEnds | BS_thread_pool.hpp:514-517 | The blocks start at the first index and end at the last one. |
| Blocks.CastOfSum | BS_thread_pool.hpp:535-538 | In an 8- or 16-bit index type adding truncated summands and truncating again gives the exact bound. |
| Blocks.DefinedExactlyWhen | BS_thread_pool.hpp:492 | The subtraction of the constructor is defined for every range of a narrow or unsigned type, and for 32- and 64-bit signed types exactly when the length fits; the length is then exact. |
| Blocks.StartExact | BS_thread_pool.hpp:535-538 | Whenever it is defined, `start(block)` computed with wrapping and truncating casts is the mathematical bound, for 8, 16, 32 and 64 bits, signed and unsigned. |
| Blocks.Blocks.constructor | BS_thread_pool.hpp:488-506 | For a non-empty range there are at least 1, at most as many blocks as requested and at most as many as indices, and one of the two bounds is met; otherwise there is none; the branch for a zero block size is unreachable. |
| Blocks.Blocks.Start | BS_thread_pool.hpp:535-538 | The first index of a block is the mathematical one. |
| Blocks.Blocks.End | BS_thread_pool.hpp:514-517 | A block ends where the next one starts, the last one at the end of the range. |
| Blocks.CommonTypeExactlyWhen | BS_thread_pool.hpp:1130-1164 | The common index type holds all values of both types exactly when they are not a signed type and the unsigned 64-bit one; it is then the narrowest such type, signed if one of the two is; for such a pair it is the unsigned 64-bit type. |
| Blocks.CastWraps | BS_thread_pool.hpp:1332-1335 | A conversion to an index type gives a value of the type that differs by a multiple of the number of its values. |
| Blocks.CommonCastExactlyWhen | BS_thread_pool.hpp:1332-1335 | The cast of an index to the common type keeps it, except exactly a negative index of such a pair. |
| PoolLoops.LoopJobsTile | BS_thread_pool.hpp:1361-1377 | A loop is cut into at most as many tasks as requested and as indices, meeting one of the two bounds; they have the given call and priority, are contiguous and non-empty from the first index to the last, and their sizes differ by at most one and do not grow. |
| PoolLoops.SequenceJobsTile | BS_thread_pool.hpp:1392-1407 | A sequence is cut into one task for each index, in order, with the given call and priority. |
| PoolLoops.OwnedMonotone | BS_thread_pool.hpp:1361-1377 | The indices that a set of tasks covers do not depend on the order in which they ran. |
| PoolLoops.LoopAtMostOnce | BS_thread_pool.hpp:1361-1377 | In every reachable state, with purges and exceptions, a loop was applied to each index at most once and to no index outside its range. |
| PoolLoops.LoopRefinesSequential | BS_thread_pool.hpp:1330-1407 | After the splitter and a `wait()` on an unpaused pool, if no task of the splitter was purged, completed and skipped indices make up the range; the completed ones are those of the sequential loop if and only if no task of the loop threw. |
| PoolLoops.LoopStopsWhereThrown | BS_thread_pool.hpp:1361-1377 | Under the same conditions, for each index and the task that covers it: the index was completed, once, exactly if the task did not throw, or threw at a higher index. |
| PoolLoops.DetachedLoopExactlyOnce | BS_thread_pool.hpp:1330-1407 | For `detach_loop`, `detach_blocks` and `detach_sequence` with a function that does not throw: every index exactly once on every schedule, whatever other clients do. |
| PoolFutures.GetMeans | BS_thread_pool.hpp:349-365 | What `get()` gives is all values in order; or, for the first future that is not ready with a value, it blocks there, reports its broken promise, or rethrows its exception. |
| PoolFutures.GetDetermined | BS_thread_pool.hpp:349-365 | This determines the result. |
| PoolFutures.IdsMatchJobs | BS_thread_pool.hpp:1628-1638 | The futures of a call are those of exactly its tasks, in submission order, each once. |
| PoolFutures.FutureMeans | BS_thread_pool.hpp:1721-1767 | In every state that meets the invariant: the future of a finished task is ready with its outcome, that of a purged task is broken, that of a queued or running task is pending; every submitted task is one of these. |
| PoolFutures.FutureStays | BS_thread_pool.hpp:1721-1767 | A future that is ready or broken stays as it is on every run. |
| PoolFutures.ReadOneByOne | BS_thread_pool.hpp:349-365 | Reading each future in some state of a run, as `get()` does while the pool works, gives what reading all of them in its last state gives. |
| PoolFutures.ResultsIndependentOfSchedule | BS_thread_pool.hpp:1621-1641 | For pure functions and no purged task of the call, `get()` on the result of a splitter, reading each future at any point of the run, blocks, or gives the values of all tasks in submission order, or the exception of the first task that throws: what running the tasks one after the other gives. |
| PoolFutures.GetDoesNotBlock | BS_thread_pool.hpp:1725-1767 | After a `wait()` on an unpaused pool `get()` does not block, also for tasks that threw. |
| PoolThreads.OthersKeep | BS_thread_pool.hpp:1417-1427 | Between two critical sections a thread finds what it left, on every run of the others: its call, its notification, its place as a waiter, its worker, or its phase. |
| ThreadPoolClass.ThreadPool.TestDone | BS_thread_pool.hpp:1799-1805 | The two branches compute the predicate of `wait()`. |
| ThreadPoolClass.ThreadPool.ChooseTask | BS_thread_pool.hpp:1963-1972 | Without priorities `pop_task` takes the front of the queue; with them, a task whose priority is at least that of every queued one. |
| ThreadPoolClass.ThreadPool.WorkerTop | BS_thread_pool.hpp:2002-2027 | The critical section of the worker's loop is the protocol's step: decrement, notify waiters, then sleep, leave, or take a task. |
| ThreadPoolClass.ThreadPool.WorkerWakes | BS_thread_pool.hpp:2014-2027 | So is its continuation after a wake-up. |
| ThreadPoolClass.ThreadPool.AwaitWork | BS_thread_pool.hpp:2002-2027 | From the top of the loop, through any number of sleeps with other threads between them, to a task or the `break`; the worker ends no task meanwhile. |
| ThreadPoolClass.ThreadPool.RunTask | BS_thread_pool.hpp:2028-2039 | The task of the worker ends, with the outcome the task function gives and none before, and no other one; a task that is still inside `wait()` on its own pool keeps the worker. |
| ThreadPoolClass.ThreadPool.RunWorker | BS_thread_pool.hpp:1995-2044 | The thread function ends exactly the tasks it returns, in order, each once and with the right outcome, also if tasks wait for their own pool; when it is over `init_func` and `cleanup_func` were called once. |
| ThreadPoolClass.ThreadPool.EnterWait | BS_thread_pool.hpp:1797-1806 | `wait()` returns at once exactly when the predicate holds, and goes to sleep otherwise. |
| ThreadPoolClass.ThreadPool.RetestWait | BS_thread_pool.hpp:1797-1806 | A woken waiter returns exactly when the predicate holds. |
| ThreadPoolClass.ThreadPool.Wait | BS_thread_pool.hpp:1787-1807 | Throws exactly from a task with the deadlock checks; when it returns nothing is running and, unless paused, every task submitted so far, those before the call included, is finished or purged; otherwise it is still a waiter. |
| ThreadPoolClass.ThreadPool.WaitFor | BS_thread_pool.hpp:1819-1840 | The result is true exactly if the predicate holds on return, and then the promise of `wait()` is met; in either case nobody is left waiting under that name. |
| ThreadPoolClass.ThreadPool.CreateThreads | BS_thread_pool.hpp:1887-1925 | On return all threads of a new generation exist: as many as requested, or by default the hardware threads, or 1 if their number is unknown. |
| ThreadPoolClass.ThreadPool.DestroyThreads | BS_thread_pool.hpp:1931-1940 | On return all threads have stopped after one initialization and one cleanup each, the counter is 0, no task was started and, absent a purge, none was discarded. |
| ThreadPoolClass.ThreadPool.constructor | BS_thread_pool.hpp:1281-1284 | The object is idle with that number of threads, in a reachable state. |
| ThreadPoolClass.ThreadPool.ResetPool | BS_thread_pool.hpp:1979-1988 | `wait`, `destroy_threads` and `create_threads` leave a new generation of that size; the run passes a state in which the promise of `wait()` was met. |
| ThreadPoolClass.ThreadPool.Reset | BS_thread_pool.hpp:1567-1583 | The threads are replaced by the requested number, the old ones after their cleanup, and after a state inside the call in which the promise of `wait()` was met: the tasks started before have finished and, without pausing, all tasks submitted before are finished or purged; `paused` is what it was; with pausing enabled and nobody unpausing, no task starts and, absent a purge, the queue is the old one and what was submitted meanwhile. |
| ThreadPoolClass.ThreadPool.Destroy | BS_thread_pool.hpp:1295-1310 | On return all threads have stopped after their cleanup. The run passes a state inside the call in which the promise of `wait()` was met, and no task was started after it; so tasks started before the call have finished, and all tasks submitted before are finished or purged, unless the pool was paused in that state. |
| ThreadPoolClass.ThreadPool.Unpause | BS_thread_pool.hpp:1773-1780 | Its critical section clears `paused`; whatever others do between it and the notification, on return no worker is asleep. |
| ThreadPoolClass.ThreadPool.Purge | BS_thread_pool.hpp:1525-1529 | On return every task is running, finished or purged, once, and those that were queued are purged and were never started. |
| ThreadPoolClass.ThreadPool.NotifyOne | BS_thread_pool.hpp:1426 | If some worker sleeps, one that did is notified and no other changes; otherwise none changes. |
| ThreadPoolClass.ThreadPool.DetachTask | BS_thread_pool.hpp:1417-1427 | The task is submitted right after those submitted before, and the notification is made, whatever others do between the two. |
| ThreadPoolClass.ThreadPool.DetachLoop | BS_thread_pool.hpp:1361-1377 | Whatever other threads do between its critical sections, the splitter returns after a run of the protocol; the log of submitted tasks then holds, for this call, at most as many tasks as requested and as indices, meeting one of the two bounds, contiguous and non-empty over the range in its index type, with the given priority and of even sizes; the default number of blocks is the number of threads and is not 0. |
| ThreadPoolClass.ThreadPool.DetachSequence | BS_thread_pool.hpp:1392-1407 | Likewise, with one task for each index in the log, in order and with the given priority. |
| ThreadPoolClass.ThreadPool.Get | BS_thread_pool.hpp:349-365 | Waiting for each future in turn while the pool works, it returns what all of them say when it returns: all values in order; or, for the first future without a value, it rethrows its exception, reports its broken promise, or is still blocked there. |
| CountingSemaphore.SemaphoreInvariant | BS_thread_pool.hpp:2265-2348 | On every interleaving the counter is initial + released - acquired, stays in [0, max], and a thread asleep un-notified implies a counter of 0 or a pending notification. |
| CountingSemaphore.HoldersExclude | BS_thread_pool.hpp:2228 | On every run of threads that release only what they hold, the counter is the initial value less the units held, which never exceed it; with an initial value of 1 at most one thread is inside. |
| CountingSemaphore.ExclusionExactlyWhen | BS_thread_pool.hpp:2228 | For every initial value the units held never exceed it if and only if threads release only what they hold (or the maximum is 0). |
| CountingSemaphore.AcquirersServed | BS_thread_pool.hpp:2281-2288 | Without new calls runs are bounded, also with expiring timed acquires and spurious wake-ups, and where they end nobody waits unless the counter is 0. |
| CountingSemaphore.Semaphore.AcquireOrSleep | BS_thread_pool.hpp:2265-2274 | `acquire` takes one unit from the counter, for its caller, exactly when the counter is positive, and otherwise sleeps. |
| CountingSemaphore.Semaphore.Wakes | BS_thread_pool.hpp:2268-2273 | So does its continuation after a wake-up. |
| CountingSemaphore.Semaphore.Acquire | BS_thread_pool.hpp:2265-2274 | Through any number of sleeps and any steps of others: on return the caller holds exactly one unit more, until then exactly what it held. |
| CountingSemaphore.Semaphore.TryAcquireFor | BS_thread_pool.hpp:2315-2326 | The caller holds one unit more exactly if the result is true, and it is false only if there was no unit at the end. |
| CountingSemaphore.Semaphore.TryAcquire | BS_thread_pool.hpp:2295-2304 | Takes one unit from the counter exactly when there is one. |
| CountingSemaphore.Semaphore.TimesOut | BS_thread_pool.hpp:2315-2326 | A timed acquire whose time is up takes a unit exactly when there is one, and leaves. |
| CountingSemaphore.Semaphore.Release | BS_thread_pool.hpp:2281-2288 | Its critical section adds the units to the counter; whatever others do between it and the notification, on return nobody is left asleep untold, and a disciplined caller holds that many units less. |
| SignalQueue.Node.constructor | psignals.c:10-20 | A new node has no neighbours and names the given node, or itself, as the first one. |
| SignalQueue.Add | psignals.c:86-95 | From any node of any well-linked list the walk ends at the tail and appends there; the result is acyclic with `next` and `prev` mutually inverse, its values are the old ones and the new one, and all nodes name the head as first exactly when they did before and the call was made on the head. |
| SignalQueue.AddEach | psignals.c:86-95 | A series of calls on one node appends all values in order; the list is headed afterwards exactly when it was before and the node is its head, or nothing was added. |
| SignalQueue.LosesHead | psignals.c:23-30 | A list of two nodes that agree about the first one, to which a call on the second adds a node that does not. |
| SignalQueue.FirstIsHead | psignals.c:33-35 | `pid_array_is_first` holds exactly at the head. |
| SignalQueue.ReadForward | psignals.h:111-114 | Following `next` from the head reads the values in insertion order. |
| SignalQueue.ReadBackward | psignals.h:111-114 | Following `prev` from the tail reads them in reverse. |
| SignalQueue.ChainUnique | psignals.h:111-114 | The links determine the list of nodes. |
| SignalQueue.Signal.AddReceiver | psignals.c:66-71 | Refuses a null signal; otherwise appends the receiver in call order to a list that keeps its head. |
| SemProbe.KernelCount | semaphore.c:224-244 | On every interleaving the kernel count stays in [0, max] and is initial + posts - acquisitions - probes in flight - units lost. |
| SemProbe.ReportExactlyWhen | semaphore.c:228-239 | On every run a successful report is the users' value (initial + posts - acquisitions - lost) minus the other probes in flight, and exact if and only if there are none. |
| SemProbe.ReportsExactExactlyWhen | semaphore.c:228-239 | For every initial value: all reports in all reachable states are exact if and only if nobody calls `sem_getvalue` while somebody is inside it (or the maximum is 0). |
| SemProbe.ProbeCausesRefusal | semaphore.c:108-125 | From every initial value, a reachable state in which `sem_trywait` is refused although the users' value is 1. |
| SemProbe.RefusedExactlyWhen | semaphore.c:108-125 | For every initial value: no reachable refusal at a positive users' value if and only if nobody tries to acquire while somebody is inside `sem_getvalue` (or the maximum is 0). |
| SemProbe.NothingLostExactlyWhen | semaphore.c:230-232 | For every initial value: no give-back ever fails if and only if nobody posts at the maximal users' value (or the maximum is 0). |
| SemProbe.Semaphore.TryWait | semaphore.c:108-125 | Null gives `EINVAL`; otherwise the users have one unit less, or it fails with `EAGAIN` and changes nothing, exactly when all of their units are with probes. |
| SemProbe.Semaphore.Post | semaphore.c:202-214 | Null gives `EINVAL`; otherwise the users have one unit more, or it fails with `EINVAL` and changes nothing, exactly when the units that are not with probes are the maximum. |
| SemProbe.Semaphore.GetValue | semaphore.c:224-244 | With other threads between its two kernel calls, it reports the users' value at the second one minus the other probes in flight, or fails exactly when the count has reached the maximum, and then the users have one unit less. |

## Left out

- Stopping through `std::stop_token`: the model uses the `workers_running` form of the same source.
- `wait_for` and `wait_until` clocks: the expiry of a timed wait is an arbitrary step.
- `wait()` called from an initialization or cleanup function, and `reset` or destruction called from a task.
- Concurrent calls of `reset` and the destructor: the source does not synchronize them.
- Fairness: instead of it, runs without new calls are proved finite.
- Memory allocation failure, `std::queue`, `std::priority_queue`, `std::promise` and the condition variables are taken to be correct.
- `multi_future::wait`, `ready_count` and `valid`, and a second `get()` on futures already consumed.
- Native extensions, thread names, `synced_stream`, `version`: OS calls and I/O.
- PoolProgress.EveryCallCompletes: that everything is done holds under the rules only; `PoolWitness.CompletesExactlyWhen` shows that none of them can be dropped. Of a destroyed pool it says that all threads have stopped, not that clients still using it were served.
- ThreadPoolClass.ThreadPool.Others: stands for the steps of the other threads; the class does not contain their code.
- ThreadPoolClass.ThreadPool.Wait: `patience` bounds the rounds of every method that can block, also of `Reset`, `Destroy`, `RunWorker`, `Get` and of the semaphore's `Acquire`; that the source returns eventually is proved of the protocol, not of these methods.
- CountingSemaphore.Semaphore.Release: the update is not negative and the counter does not exceed the maximum, as section 32.7.3 of ISO C++20 expects of the caller.
- SignalQueue.Node.IsFirst: the source's test of a null argument also reads it, so only existing nodes are modelled.
- `sem_init`, `sem_open`, `sem_destroy`, time conversion: thin wrappers; blocking in `sem_wait` is a step that is not enabled on a count of 0.
- `signal_new`, `mutex.c`, `semaphore_type.c`, `semaphore.cpp`, `truth.c`, `parampack.c`, `ptime.c`, `systime.c`, `psync.c` and the scheduler are not part of this model.
