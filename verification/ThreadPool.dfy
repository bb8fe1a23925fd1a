/** The class `thread_pool`, function by function.  Its critical sections are
    written as the source writes them and are steps of the protocol; between two
    of them `Others` lets all other threads do whatever the protocol allows.
    `Valid` says that the object is in a state that some run from construction
    reaches, so what is proved of the reachable states is true of every object.

    Functions that can block take a number `patience`: how often they look again
    before the caller stops watching them. */
module ThreadPoolClass {
  import opened PoolModel
  import opened PoolCounts
  import opened PoolHistory
  import opened PoolCalls
  import opened PoolSafety
  import opened PoolReset
  import opened PoolLoops
  import opened PoolFutures
  import opened PoolThreads
  import opened PoolContracts
  import Blocks

  class ThreadPool {
    const cfg: Config
    var tasks: seq<nat>
    var tasksRunning: int
    var paused: bool
    var waiting: bool
    var workersRunning: bool
    /** `threads`, and where each of them is. */
    var threads: seq<Pc>
    /** The state of the two condition variables. */
    var pendingOne: nat
    var pendingAll: nat
    var waiters: map<nat, Waiter>
    /** The client calls in progress, the controlling thread, and the history. */
    var calls: seq<Call>
    var ctl: Control
    var hist: History

    function View(): Pool
      reads this
    {
      Pool(cfg, tasks, tasksRunning, paused, waiting, workersRunning, threads, pendingOne, pendingAll,
           waiters, calls, ctl, hist)
    }

    ghost predicate Valid()
      reads this
    {
      Reached(View())
    }

    /** Whatever all other threads do between two critical sections of `me`: any run
        in which `me` itself does not move.  It finds what it left behind. */
    method Others(ghost me: Actor) returns (ghost run: seq<Step>)
      requires Valid() && At(me, View())
      modifies this
      ensures Valid() && Ran(old(View()), run, View()) && ByOthers(me, old(View()), run)
      ensures At(me, View()) && Stays(me, old(View()), View())
    {
      run := [];
      ReachedInv(View());
      OthersKeep(me, View(), run);
    }

    // ---------- The predicates of the condition variables ----------

    /** The predicate of `wait()`, as the two branches of the source. */
    method TestDone() returns (b: bool)
      ensures b == WaitDone(View())
      ensures b <==> tasksRunning == 0 && (tasks == [] || (cfg.pause && paused))
    {
      if cfg.pause {
        b := tasksRunning == 0 && (paused || |tasks| == 0);
      } else {
        b := tasksRunning == 0 && |tasks| == 0;
      }
    }

    /** The predicate of a worker. */
    method TestReady() returns (b: bool)
      ensures b == WorkReady(View())
      ensures b <==> !workersRunning || (tasks != [] && !(cfg.pause && paused))
    {
      if cfg.pause {
        b := !(paused || |tasks| == 0) || !workersRunning;
      } else {
        b := |tasks| != 0 || !workersRunning;
      }
    }

    /** The position `pop_task` takes: the front, or one of maximal priority. */
    method ChooseTask() returns (pick: nat)
      requires tasks != [] && forall q :: 0 <= q < |tasks| ==> tasks[q] < |hist.submitted|
      ensures pick < |tasks| && (!cfg.priority ==> pick == 0)
      ensures cfg.priority ==>
        forall q :: 0 <= q < |tasks| ==> hist.submitted[tasks[q]].priority <= hist.submitted[tasks[pick]].priority
      ensures PickOk(View(), pick)
    {
      pick := 0;
      if cfg.priority {
        var q := 1;
        while q < |tasks|
          invariant 1 <= q <= |tasks| && pick < q
          invariant forall j :: 0 <= j < q ==>
            hist.submitted[tasks[j]].priority <= hist.submitted[tasks[pick]].priority
        {
          if hist.submitted[tasks[pick]].priority < hist.submitted[tasks[q]].priority { pick := q; }
          q := q + 1;
        }
      }
    }

    // ---------- Notifications ----------

    /** `tasks_done_cv.notify_all()`. */
    method NotifyDone()
      modifies this`waiters
      ensures waiters == NotifyWaiters(old(waiters))
    {
      waiters := NotifyWaiters(waiters);
    }

    /** `task_available_cv.notify_all()`: every sleeping worker is woken. */
    method WakeWorkers()
      modifies this`threads
      ensures threads == WakeAll(old(threads)) && None(threads, Asleep)
    {
      var i := 0;
      while i < |threads|
        invariant i <= |threads| == |old(threads)|
        invariant forall j :: 0 <= j < i ==> threads[j] == WakePc(old(threads)[j])
        invariant forall j :: i <= j < |threads| ==> threads[j] == old(threads)[j]
      {
        if threads[i] == Asleep { threads := threads[i := Notified]; }
        i := i + 1;
      }
    }

    /** `task_available_cv.notify_one()`: some sleeping worker, if there is one. */
    method NotifyOne() returns (ghost w: nat)
      requires Valid() && pendingOne > 0
      modifies this
      ensures Valid() && ClientEnabled(old(View()), PoolModel.NotifyOne(w))
      ensures View() == ApplyClient(old(View()), PoolModel.NotifyOne(w)) && pendingOne == old(pendingOne) - 1
      ensures if None(old(threads), Asleep) then threads == old(threads)
              else w < |old(threads)| && old(threads)[w] == Asleep && threads == old(threads)[w := Notified]
    {
      var i := 0;
      while i < |threads| && threads[i] != Asleep
        invariant i <= |threads|
        invariant forall j :: 0 <= j < i ==> threads[j] != Asleep
      {
        i := i + 1;
      }
      w := i;
      pendingOne := pendingOne - 1;
      if i < |threads| { threads := threads[i := Notified]; }
      Stepped(old(View()), Client(PoolModel.NotifyOne(w)));
    }

    // ---------- The worker ----------

    /** `pop_task` and `++tasks_running`. */
    method TakeTask(i: nat, pick: nat)
      requires i < |threads| && pick < |tasks|
      modifies this
      ensures View() == Take(old(View()), i, pick)
      ensures threads == old(threads)[i := Running(old(tasks)[pick])] && tasksRunning == old(tasksRunning) + 1
      ensures tasks == old(tasks)[..pick] + old(tasks)[pick + 1..]
      ensures hist.started == old(hist.started) + [old(tasks)[pick]]
      ensures hist.startedAt == old(hist.startedAt) + [|old(hist.submitted)|]
    {
      var id := tasks[pick];
      tasks := tasks[..pick] + tasks[pick + 1..];
      tasksRunning := tasksRunning + 1;
      threads := threads[i := Running(id)];
      hist := hist.(started := hist.started + [id], startedAt := hist.startedAt + [|hist.submitted|]);
    }

    /** From the test of the predicate of `task_available_cv` to the sleep, the
        `break`, or the unlock before the task. */
    method AwaitTask(i: nat) returns (pick: nat)
      requires i < |threads| && forall q :: 0 <= q < |tasks| ==> tasks[q] < |hist.submitted|
      modifies this
      ensures !QueueBlocked(old(View())) ==> PickOk(old(View()), pick)
      ensures View() == TestPredicate(old(View()), i, pick)
    {
      pick := 0;
      if |tasks| != 0 { pick := ChooseTask(); }
      var ready := TestReady();
      if !ready {
        threads := threads[i := Asleep];
      } else if !workersRunning {
        threads := threads[i := Leaving];
      } else {
        TakeTask(i, pick);
      }
    }

    /** The critical section at the top of the worker's loop. */
    method WorkerTop(i: nat) returns (pick: nat)
      requires Valid() && i < |threads| && threads[i] == LoopTop
      modifies this
      ensures Valid() && WorkerEnabled(old(View()), i, Top(pick))
      ensures View() == ApplyWorker(old(View()), i, Top(pick))
    {
      ghost var before := View();
      QueueBounded(before);
      tasksRunning := tasksRunning - 1;
      var done := TestDone();
      if waiting && done { NotifyDone(); }
      assert View() == Decrement(before);
      pick := AwaitTask(i);
      TopStep(before, i, pick);
    }

    /** A notified worker has the mutex again. */
    method WorkerWakes(i: nat) returns (pick: nat)
      requires Valid() && i < |threads| && threads[i] == Notified
      modifies this
      ensures Valid() && WorkerEnabled(old(View()), i, Resume(pick))
      ensures View() == ApplyWorker(old(View()), i, Resume(pick))
    {
      QueueBounded(View());
      pick := AwaitTask(i);
      Stepped(old(View()), Work(i, Resume(pick)));
    }

    /** `init_func(i)`, `cleanup_func(i)`, and the end of a task. */
    method CallInit(i: nat)
      requires Valid() && i < |threads| && threads[i] == Spawned
      modifies this
      ensures Valid() && View() == ApplyWorker(old(View()), i, RunInit)
    {
      InitStep(View(), i);
      threads := threads[i := LoopTop];
      hist := hist.(inits := hist.inits + multiset{(|hist.sizes|, i)});
    }

    method CallCleanup(i: nat)
      requires Valid() && i < |threads| && threads[i] == Leaving
      modifies this
      ensures Valid() && View() == ApplyWorker(old(View()), i, RunCleanup)
    {
      CleanupStep(View(), i);
      threads := threads[i := Stopped];
      hist := hist.(cleanups := hist.cleanups + multiset{(|hist.sizes|, i)});
    }

    method EndTask(i: nat, outcome: Outcome)
      requires Valid() && WorkerEnabled(View(), i, Return(outcome))
      modifies this
      ensures Valid() && View() == ApplyWorker(old(View()), i, Return(outcome))
    {
      ReturnStep(View(), i, outcome);
      var id := threads[i].id;
      threads := threads[i := LoopTop];
      hist := hist.(finished := hist.finished + [id], outcomes := hist.outcomes[id := outcome]);
    }

    /** `task()` */
    method TaskOutcome(i: nat, task: Job -> Outcome) returns (outcome: Outcome)
      requires Valid() && i < |threads| && threads[i].Running?
      requires forall job: Job :: OutcomeOk(job, task(job))
      ensures threads[i].id < |hist.submitted| && outcome == task(hist.submitted[threads[i].id])
      ensures OutcomeOk(hist.submitted[threads[i].id], outcome)
    {
      NotBefore(View(), i);
      outcome := task(hist.submitted[threads[i].id]);
    }

    /** From the top of the loop to the next task or the `break`, sleeping and waking
        as often as needed; `ready` is false if the worker is still asleep. */
    method AwaitWork(i: nat, patience: nat) returns (ready: bool, ghost run: seq<Step>)
      requires Valid() && i < |threads| && threads[i] == LoopTop
      modifies this
      ensures Valid() && Did(i, old(View()), run, View(), [])
      ensures i < |threads| && |hist.sizes| == |old(hist.sizes)|
      ensures if ready then threads[i].Running? || threads[i] == Leaving
              else threads[i] == Asleep || threads[i] == Notified
    {
      ghost var start := View();
      var pick := WorkerTop(i);
      run := [Work(i, Top(pick))];
      DidStep(i, start, Work(i, Top(pick)));
      WorkerBusy(start, i, Top(pick));
      var rounds := patience;
      while (threads[i] == Asleep || threads[i] == Notified) && rounds > 0
        invariant Valid() && Did(i, start, run, View(), [])
        invariant i < |threads| && |hist.sizes| == |start.hist.sizes| && Waking(threads[i])
      {
        rounds := rounds - 1;
        ghost var before, more := View(), [];
        more := SleepOnTask(i);
        DidConcat(i, start, run, before, [], more, View(), []);
        run := run + more;
      }
      ready := !(threads[i] == Asleep || threads[i] == Notified);
    }

    /** One sleep in `task_available_cv.wait`. */
    method SleepOnTask(i: nat) returns (ghost run: seq<Step>)
      requires Valid() && i < |threads| && (threads[i] == Asleep || threads[i] == Notified)
      modifies this
      ensures Valid() && Did(i, old(View()), run, View(), [])
      ensures i < |threads| && |hist.sizes| == |old(hist.sizes)| && Waking(threads[i])
    {
      ghost var start := View();
      run := Others(Worker(i));
      OthersEndNothing(i, start, run);
      if threads[i] == Notified {
        ghost var before := View();
        var pick := WorkerWakes(i);
        DidThen(i, start, run, before, [], Work(i, Resume(pick)));
        WorkerBusy(before, i, Resume(pick));
        run := run + [Work(i, Resume(pick))];
      }
    }

    method NextWork(i: nat, patience: nat) returns (ready: bool, ghost run: seq<Step>)
      requires Valid() && i < |threads| && threads[i] == LoopTop
      modifies this
      ensures Valid() && Did(i, old(View()), run, View(), [])
      ensures i < |threads| && |hist.sizes| == |old(hist.sizes)|
      ensures if ready then threads[i].Running? || threads[i] == Leaving
              else threads[i] == Asleep || threads[i] == Notified
    {
      ghost var start := View();
      run := Others(Worker(i));
      OthersEndNothing(i, start, run);
      ghost var before, more := View(), [];
      ready, more := AwaitWork(i, patience);
      DidConcat(i, start, run, before, [], more, View(), []);
      run := run + more;
    }

    /** The task of worker `i` runs, while other threads do, and ends, by returning
        or by an exception that the worker swallows.  It may call `wait()` and
        `wait_for()` on its own pool; `ended` is false if it is still inside. */
    method RunTask(i: nat, task: Job -> Outcome, patience: nat) returns (ended: bool, id: nat, ghost run: seq<Step>)
      requires Valid() && i < |threads| && threads[i].Running?
      requires forall job: Job :: OutcomeOk(job, task(job))
      modifies this
      ensures Valid() && Did(i, old(View()), run, View(), if ended then [id] else [])
      ensures i < |threads| && |hist.sizes| == |old(hist.sizes)|
      ensures old(threads)[i] == Running(id) && id !in old(hist.outcomes)
      ensures if ended then threads[i] == LoopTop else threads[i] == Running(id) && Hosting(View(), i)
      ensures ended ==>
        id < |hist.submitted| && id in hist.outcomes && hist.outcomes[id] == task(hist.submitted[id])
    {
      ghost var start := View();
      NotBefore(start, i);
      id := threads[i].id;
      run := TaskRuns(i, patience);
      ended := !Hosting(View(), i);
      if ended {
        ghost var before := View();
        var outcome := TaskOutcome(i, task);
        EndTask(i, outcome);
        DidThen(i, start, run, before, [], Work(i, Return(outcome)));
        run := run + [Work(i, Return(outcome))];
      }
    }

    /** While the task runs: it and the other threads do whatever they do, until it is
        not inside `wait()`, or `patience` is over. */
    method TaskRuns(i: nat, patience: nat) returns (ghost run: seq<Step>)
      requires Valid() && i < |threads| && threads[i].Running?
      modifies this
      ensures Valid() && Did(i, old(View()), run, View(), [])
      ensures i < |threads| && |hist.sizes| == |old(hist.sizes)| && threads[i] == old(threads)[i]
    {
      ghost var start := View();
      run := Others(Worker(i));
      OthersEndNothing(i, start, run);
      var rounds := patience;
      while Hosting(View(), i) && rounds > 0
        invariant Valid() && Did(i, start, run, View(), [])
        invariant i < |threads| && |hist.sizes| == |start.hist.sizes| && threads[i] == start.workers[i]
      {
        rounds := rounds - 1;
        ghost var before := View();
        ghost var more := Others(Worker(i));
        OthersEndNothing(i, before, more);
        DidConcat(i, start, run, before, [], more, View(), []);
        run := run + more;
      }
    }

    /** One iteration of the worker's loop, and after the `break` its cleanup. */
    method WorkOnce(i: nat, task: Job -> Outcome, ghost ran: seq<nat>, patience: nat)
      returns (busy: bool, now: seq<nat>, ghost run: seq<Step>)
      requires Valid() && i < |threads| && threads[i] == LoopTop && RanAs(ran, task, hist)
      requires forall job: Job :: OutcomeOk(job, task(job))
      modifies this
      ensures Valid() && Did(i, old(View()), run, View(), now)
      ensures i < |threads| && |hist.sizes| == |old(hist.sizes)|
      ensures busy <==> threads[i] == LoopTop
      ensures RanAs(ran + now, task, hist)
    {
      ghost var start := View();
      var ready;
      ready, run := NextWork(i, patience);
      ghost var before, more := View(), [];
      RanStays(ran, task, start, run);
      busy, now := false, [];
      assert ran + now == ran;
      if ready && threads[i] == Leaving {
        CallCleanup(i);
        DidThen(i, start, run, before, [], Work(i, RunCleanup));
        run := run + [Work(i, RunCleanup)];
      } else if ready {
        var id;
        busy, id, more := RunTask(i, task, patience);
        RanStays(ran, task, before, more);
        if busy {
          now := [id];
          RanMore(ran, task, before.hist, hist, id);
        }
        DidConcat(i, start, run, before, [], more, View(), now);
        run := run + more;
      }
    }

    /** `worker(i)`: the whole thread function, as long as `patience` lasts.  `ran` are
        the tasks that the worker has ended, in order: each once, and with the
        outcome that `task` gives; when the function has ended, `init_func` and
        `cleanup_func` were called once.  Tasks may wait for their own pool; the
        worker is stuck in one that never leaves `wait()`. */
    method RunWorker(i: nat, task: Job -> Outcome, patience: nat)
      returns (ended: bool, ran: seq<nat>, ghost run: seq<Step>)
      requires Valid() && i < |threads| && threads[i] == Spawned
      requires forall job: Job :: OutcomeOk(job, task(job))
      modifies this
      ensures Valid() && Did(i, old(View()), run, View(), ran)
      ensures i < |threads| && |hist.sizes| == |old(hist.sizes)|
      ensures ended <==> threads[i] == Stopped
      ensures ended ==> hist.inits[(|hist.sizes|, i)] == 1 && hist.cleanups[(|hist.sizes|, i)] == 1
      ensures RanAs(ran, task, hist)
    {
      ghost var start := View();
      CallInit(i);
      DidStep(i, start, Work(i, RunInit));
      run := [Work(i, RunInit)];
      ran := [];
      var rounds, busy := patience, true;
      while rounds > 0 && busy
        invariant Valid() && Did(i, start, run, View(), ran)
        invariant i < |threads| && |hist.sizes| == |start.hist.sizes|
        invariant busy <==> threads[i] == LoopTop
        invariant RanAs(ran, task, hist)
      {
        rounds := rounds - 1;
        ghost var before, more := View(), [];
        var now;
        busy, now, more := WorkOnce(i, task, ran, patience);
        DidConcat(i, start, run, before, ran, more, View(), now);
        run, ran := run + more, ran + now;
      }
      ended := threads[i] == Stopped;
      if ended { CleanedUp(View(), i); }
    }

    // ---------- wait() ----------

    /** The critical section of `wait()` up to its return or its first sleep. */
    method LockAndTest(k: nat, timed: bool, host: Host)
      requires k !in waiters
      modifies this
      ensures View() == BeginWait(old(View()), k, Waiter(false, timed, host))
    {
      waiting := true;
      var done := TestDone();
      if done {
        waiting := false;
        ctl := Returned(ctl, host);
      } else {
        waiters := waiters[k := Waiter(false, timed, host)];
        if host == ByController && ctl.Active? { ctl := ctl.(phase := InWait(k)); }
      }
    }

    method EnterWait(k: nat, timed: bool, host: Host) returns (returned: bool)
      requires Valid() && WaitEnabled(View(), k, Enter(timed, host)) && !(cfg.deadlockChecks && host.ByTask?)
      modifies this
      ensures Valid() && View() == ApplyWait(old(View()), k, Enter(timed, host))
      ensures returned == WaitDone(old(View()))
      ensures if returned then k !in waiters && WaitDone(View()) else At(Sleeper(k), View()) && waiters[k].host == host
      ensures !returned ==> waiters[k].timed == timed
    {
      LockAndTest(k, timed, host);
      returned := k !in waiters;
      Stepped(old(View()), PoolModel.Wait(k, Enter(timed, host)));
    }

    /** A notified waiter has the mutex again. */
    method RetestWait(k: nat) returns (returned: bool)
      requires Valid() && WaitEnabled(View(), k, Retest)
      modifies this
      ensures Valid() && View() == ApplyWait(old(View()), k, Retest)
      ensures returned == WaitDone(old(View()))
    {
      returned := TestDone();
      if returned {
        waiting := false;
        ctl := Returned(ctl, waiters[k].host);
        waiters := waiters - {k};
      } else {
        waiters := waiters[k := waiters[k].(notified := false)];
      }
      Stepped(old(View()), PoolModel.Wait(k, Retest));
    }

    /** The time is up: the predicate is tested a last time. */
    method GiveUp(k: nat) returns (status: bool)
      requires Valid() && WaitEnabled(View(), k, Expire) && waiters[k].host != ByController
      modifies this
      ensures Valid() && View() == ApplyWait(old(View()), k, Expire) && k !in waiters
      ensures status == WaitDone(View())
    {
      status := TestDone();
      waiting := false;
      waiters := waiters - {k};
      Stepped(old(View()), PoolModel.Wait(k, Expire));
    }

    /** One sleep inside `wait()`. */
    method SleepOnce(k: nat) returns (returned: bool, ghost run: seq<Step>)
      requires Valid() && k in waiters && waiters[k].host != ByController
      modifies this
      ensures Valid() && Ran(old(View()), run, View())
      ensures if returned then k !in waiters && WaitDone(View()) else Stays(Sleeper(k), old(View()), View())
    {
      ghost var start := View();
      run := Others(Sleeper(k));
      returned := false;
      if waiters[k].notified {
        ghost var before := View();
        returned := RetestWait(k);
        Retested(before, k);
        RunThen(start, run, before, PoolModel.Wait(k, Retest));
        run := run + [PoolModel.Wait(k, Retest)];
      }
    }

    /** From the first sleep inside `wait()` to its return. */
    method SleepUntilDone(k: nat, patience: nat) returns (returned: bool, ghost run: seq<Step>)
      requires Valid() && k in waiters && waiters[k].host != ByController
      modifies this
      ensures Valid() && Ran(old(View()), run, View())
      ensures if returned then k !in waiters && WaitDone(View()) else Stays(Sleeper(k), old(View()), View())
    {
      ghost var start := View();
      StaysReflexive(Sleeper(k), start);
      returned, run := false, [];
      var rounds := patience;
      while rounds > 0 && !returned
        invariant Valid() && Ran(start, run, View())
        invariant if returned then k !in waiters && WaitDone(View()) else Stays(Sleeper(k), start, View())
      {
        rounds := rounds - 1;
        ghost var before, more := View(), [];
        returned, more := SleepOnce(k);
        RunConcat(start, run, before, more, View());
        run := run + more;
      }
    }

    /** `wait()`: it throws, exactly if it is called from a task and the deadlock
        checks are enabled; or it returns when nothing is running and, unless the
        pool is paused, all tasks submitted so far are done; or it is still asleep. */
    method Wait(k: nat, host: Host, patience: nat) returns (threw: bool, returned: bool, ghost run: seq<Step>)
      requires Valid() && WaitEnabled(View(), k, Enter(false, host))
      modifies this
      ensures Valid() && Ran(old(View()), run, View())
      ensures threw <==> cfg.deadlockChecks && host.ByTask?
      ensures threw ==> !returned && View() == old(View())
      ensures returned ==> k !in waiters && Completed(View()) && old(hist.submitted) <= hist.submitted
      ensures !threw && !returned ==> k in waiters && waiters[k].host == host
      ensures !threw && WaitDone(old(View())) ==> returned
    {
      ghost var start := View();
      if cfg.deadlockChecks && host.ByTask? {
        return true, false, [];
      }
      threw := false;
      returned := EnterWait(k, false, host);
      run := [PoolModel.Wait(k, Enter(false, host))];
      RunOne(start, PoolModel.Wait(k, Enter(false, host)));
      if !returned {
        ghost var before, more := View(), [];
        returned, more := SleepUntilDone(k, patience);
        RunConcat(start, run, before, more, View());
        run := run + more;
      }
      if returned {
        WaitCompletes(View());
        SubmittedGrows(start, run);
      }
    }

    /** `wait_for()` and `wait_until()`; the time is up after `patience` rounds.  The
        result is true exactly if the predicate holds when it returns. */
    method WaitFor(k: nat, host: Host, patience: nat) returns (threw: bool, status: bool, ghost run: seq<Step>)
      requires Valid() && WaitEnabled(View(), k, Enter(true, host))
      modifies this
      ensures Valid() && Ran(old(View()), run, View()) && k !in waiters
      ensures threw <==> cfg.deadlockChecks && host.ByTask?
      ensures threw ==> View() == old(View())
      ensures !threw ==> (status <==> WaitDone(View())) && (status ==> Completed(View()))
    {
      ghost var start := View();
      if cfg.deadlockChecks && host.ByTask? {
        return true, false, [];
      }
      threw := false;
      status := EnterWait(k, true, host);
      run := [PoolModel.Wait(k, Enter(true, host))];
      RunOne(start, PoolModel.Wait(k, Enter(true, host)));
      if !status {
        ghost var before, more := View(), [];
        status, more := SleepOrGiveUp(k, patience);
        RunConcat(start, run, before, more, View());
        run := run + more;
      }
      if status { WaitCompletes(View()); }
    }

    method SleepOrGiveUp(k: nat, patience: nat) returns (status: bool, ghost run: seq<Step>)
      requires Valid() && k in waiters && waiters[k].timed && waiters[k].host != ByController
      modifies this
      ensures Valid() && Ran(old(View()), run, View()) && k !in waiters && (status <==> WaitDone(View()))
    {
      ghost var start := View();
      status, run := SleepUntilDone(k, patience);
      if !status {
        ghost var before := View();
        status := GiveUp(k);
        RunThen(start, run, before, PoolModel.Wait(k, Expire));
        run := run + [PoolModel.Wait(k, Expire)];
      }
    }

    // ---------- Creating the threads ----------

    /** The critical section of `create_threads`, with the assignments before it. */
    method StartGeneration(ghost k: nat)
      requires Valid() && ctl.Active? && ctl.phase == Create && k !in waiters
      modifies this
      ensures Valid() && View() == ControlStep(old(View()), k) && At(Controller(k), View())
    {
      PhaseStep(View(), k);
      var count := DetermineThreadCount(ctl.n, cfg.hardware);
      threads := seq(count, j => Unborn);
      tasksRunning, workersRunning := count, true;
      ctl, hist := ctl.(phase := Spawn(0)), hist.(sizes := hist.sizes + [count]);
    }

    /** `threads[i] = thread_t(...)` */
    method SpawnThread(i: nat, ghost k: nat)
      requires Valid() && ctl.Active? && ctl.phase == Spawn(i) && i < |threads| && k !in waiters
      modifies this
      ensures Valid() && View() == ControlStep(old(View()), k) && At(Controller(k), View())
    {
      PhaseStep(View(), k);
      threads, ctl := threads[i := Spawned], ctl.(phase := Spawn(i + 1));
    }

    /** The last thread exists. */
    method EndSpawning(ghost k: nat)
      requires Valid() && ctl.Active? && ctl.phase == Spawn(|threads|)
      modifies this
      ensures Valid() && View() == ControlStep(old(View()), k) && None(threads, Unborn)
    {
      ctl := if ctl.goal == Goal.Reset && cfg.pause then ctl.(phase := Restore) else Idle;
      Stepped(old(View()), Control(k));
      AllBorn(View());
    }

    method SpawnAndYield(i: nat, ghost k: nat) returns (ghost run: seq<Step>)
      requires Valid() && ctl.Active? && ctl.phase == Spawn(i) && i < |threads| && k !in waiters
      modifies this
      ensures Valid() && SpawnedTo(old(View()), run, View(), i + 1) && At(Controller(k), View()) && k !in waiters
    {
      ghost var start := View();
      SpawnThread(i, k);
      ControlOne(start, k);
      ghost var before := View();
      ghost var others := Others(Controller(k));
      OthersBeforeRestore(k, before, others);
      SteeredOn(start, [Control(k)], before, others, View());
      run := [Control(k)] + others;
    }

    /** The loop of `create_threads`. */
    method SpawnAll(ghost k: nat) returns (ghost run: seq<Step>)
      requires Valid() && ctl.Active? && ctl.phase == Spawn(0) && At(Controller(k), View()) && k !in waiters
      modifies this
      ensures Valid() && SpawnedTo(old(View()), run, View(), |old(threads)|)
    {
      ghost var start := View();
      run := [];
      var i, count := 0, |threads|;
      while i < count
        invariant Valid() && k !in waiters && SpawnedTo(start, run, View(), i) && i <= count == |threads|
      {
        ghost var before, more := View(), [];
        more := SpawnAndYield(i, k);
        SpawnedOneMore(start, run, before, i, more, View());
        run := run + more;
        i := i + 1;
      }
    }

    /** `create_threads`: a new generation of the determined size, all of whose
        threads exist when it returns. */
    method CreateThreads(ghost k: nat) returns (ghost run: seq<Step>)
      requires Valid() && ctl.Active? && ctl.phase == Create && k !in waiters
      modifies this
      ensures Valid() && Ran(old(View()), run, View()) && BeforeRestore(old(View()), run)
      ensures |threads| == DetermineThreadCount(old(ctl).n, cfg.hardware) && None(threads, Unborn)
      ensures |threads| == if old(ctl).n > 0 then old(ctl).n else if cfg.hardware > 0 then cfg.hardware else 1
      ensures workersRunning && hist.sizes == old(hist.sizes) + [|threads|]
      ensures ctl == (if old(ctl).goal == Goal.Reset && cfg.pause then old(ctl).(phase := Restore) else Idle)
    {
      ghost var start := View();
      StartGeneration(k);
      run := [Control(k)];
      ControlOne(start, k);
      ghost var before, more := View(), [];
      more := SpawnAll(k);
      SteeredOn(start, run, before, more, View());
      run := run + more;
      ghost var last := View();
      EndSpawning(k);
      ControlThen(start, run, last, k);
      run := run + [Control(k)];
    }

    // ---------- Destroying the threads ----------

    /** The critical section of `destroy_threads`. */
    method ClearRunning(ghost k: nat)
      requires Valid() && ctl.Active? && ctl.phase == StopFlag && k !in waiters
      modifies this
      ensures Valid() && View() == ControlStep(old(View()), k) && At(Controller(k), View())
    {
      PhaseStep(View(), k);
      workersRunning, ctl := false, ctl.(phase := StopNotify);
    }

    /** The `notify_all` of `destroy_threads`. */
    method NotifyStopping(ghost k: nat)
      requires Valid() && ctl.Active? && ctl.phase == StopNotify && k !in waiters
      modifies this
      ensures Valid() && View() == ControlStep(old(View()), k) && At(Controller(k), View())
    {
      PhaseStep(View(), k);
      WakeWorkers();
      ctl := ctl.(phase := Join(0));
    }

    /** `threads[i].join()` returns; after the last one the threads are destroyed. */
    method JoinThread(i: nat, ghost k: nat)
      requires Valid() && ctl.Active? && ctl.phase == Join(i) && i < |threads| && threads[i] == Stopped && k !in waiters
      modifies this
      ensures Valid() && View() == ControlStep(old(View()), k) && At(Controller(k), View())
    {
      PhaseStep(View(), k);
      ctl := ctl.(phase := Join(i + 1));
    }

    method EndJoining(ghost k: nat)
      requires Valid() && ctl.Active? && ctl.phase == Join(|threads|)
      modifies this
      ensures Valid() && View() == ControlStep(old(View()), k)
      ensures All(threads, Stopped) && tasksRunning == 0 && AllCleanedUp(View())
    {
      AllStopped(View());
      ctl := if ctl.goal == Goal.Destroy then Dead else ctl.(phase := Create);
      Stepped(old(View()), Control(k));
    }

    /** Both, with other threads between them. */
    method StopWorkers(ghost k: nat) returns (ghost run: seq<Step>)
      requires Valid() && ctl.Active? && ctl.phase == StopFlag && k !in waiters
      modifies this
      ensures Valid() && HoldingBack(old(View()), run, View()) && At(Controller(k), View()) && k !in waiters
      ensures ctl == old(ctl).(phase := Join(0)) && hist.sizes == old(hist.sizes) && |threads| == |old(threads)|
    {
      ghost var start := View();
      NothingYet(start);
      ClearRunning(k);
      StopTook(start, [], start, k);
      run := [] + [Control(k)];
      ghost var before := View();
      ghost var others := Others(Controller(k));
      StopFollowed(start, run, before, k, others, View());
      run := run + others;
      before := View();
      NotifyStopping(k);
      StopTook(start, run, before, k);
      run := run + [Control(k)];
    }

    /** Joining worker `i`: it has stopped, or `patience` is over. */
    method AwaitStopped(i: nat, ghost k: nat, ghost start: Pool, ghost past: seq<Step>, patience: nat)
      returns (stopped: bool, ghost run: seq<Step>)
      requires Valid() && HoldingBack(start, past, View()) && past != [] && At(Controller(k), View()) && k !in waiters
      requires ctl.phase == Join(i) && i < |threads|
      modifies this
      ensures Valid() && HoldingBack(start, run, View()) && run != [] && At(Controller(k), View()) && k !in waiters
      ensures ctl == (if stopped then old(ctl).(phase := Join(i + 1)) else old(ctl))
      ensures hist.sizes == old(hist.sizes) && |threads| == |old(threads)|
    {
      run := past;
      var rounds := patience;
      while threads[i] != Stopped && rounds > 0
        invariant Valid() && HoldingBack(start, run, View()) && run != [] && At(Controller(k), View()) && k !in waiters
        invariant ctl == old(ctl) && hist.sizes == old(hist.sizes) && |threads| == |old(threads)|
      {
        rounds := rounds - 1;
        ghost var before := View();
        ghost var others := Others(Controller(k));
        StopFollowed(start, run, before, k, others, View());
        run := run + others;
      }
      stopped := threads[i] == Stopped;
      if stopped {
        ghost var before := View();
        JoinThread(i, k);
        StopTook(start, run, before, k);
        run := run + [Control(k)];
      }
    }

    /** The loop of `destroy_threads`. */
    method JoinAll(ghost k: nat, ghost start: Pool, ghost past: seq<Step>, patience: nat)
      returns (done: bool, ghost run: seq<Step>)
      requires Valid() && HoldingBack(start, past, View()) && past != [] && At(Controller(k), View()) && k !in waiters
      requires ctl.phase == Join(0)
      modifies this
      ensures Valid() && HoldingBack(start, run, View()) && run != [] && k !in waiters
      ensures ctl.Active? && if done then ctl == old(ctl).(phase := Join(|threads|)) else ctl.phase.Join?
      ensures hist.sizes == old(hist.sizes) && |threads| == |old(threads)|
    {
      ghost var before := View();
      run, done := past, true;
      var i := 0;
      while i < |threads| && done
        invariant Valid() && HoldingBack(start, run, View()) && run != [] && At(Controller(k), View()) && k !in waiters
        invariant i <= |threads| == |before.workers| && ctl == before.ctl.(phase := Join(i))
        invariant hist.sizes == before.hist.sizes
        decreases |threads| - i, done
      {
        done, run := AwaitStopped(i, k, start, run, patience);
        if done { i := i + 1; }
      }
    }

    /** `destroy_threads`: when all threads are joined, all of them have stopped after
        their cleanup, no task was started meanwhile, and none was discarded. */
    method DestroyThreads(ghost k: nat, patience: nat) returns (done: bool, ghost run: seq<Step>)
      requires Valid() && ctl.Active? && ctl.phase == StopFlag && k !in waiters
      modifies this
      ensures Valid() && Ran(old(View()), run, View()) && BeforeRestore(old(View()), run) && k !in waiters
      ensures hist.started == old(hist.started) && (NoPurge(run) ==> Held(old(View()), View()))
      ensures hist.sizes == old(hist.sizes) && |threads| == |old(threads)|
      ensures done ==> !workersRunning && All(threads, Stopped) && tasksRunning == 0 && AllCleanedUp(View())
      ensures done ==> ctl == if old(ctl).goal == Goal.Destroy then Dead else old(ctl).(phase := Create)
      ensures !done ==> ctl.Active? && ctl.phase.Join?
    {
      ghost var start := View();
      run := StopWorkers(k);
      done, run := JoinAll(k, start, run, patience);
      if done {
        ghost var before := View();
        EndJoining(k);
        StopTook(start, run, before, k);
        run := run + [Control(k)];
      }
    }

    // ---------- The constructor, reset() and the destructor ----------

    constructor (cfg: Config, n: nat)
      ensures Valid() && ctl == Idle && workersRunning && None(threads, Unborn)
      ensures this.cfg == cfg && hist.sizes == [|threads|]
      ensures |threads| == if n > 0 then n else if cfg.hardware > 0 then cfg.hardware else 1
    {
      this.cfg := cfg;
      tasks, tasksRunning, paused, waiting, workersRunning, threads := [], 0, false, false, false, [];
      pendingOne, pendingAll, waiters, calls := 0, 0, map[], [];
      ctl := Active(Construct, n, Create, false);
      hist := History([], [], [], [], map[], multiset{}, [], multiset{}, multiset{});
      new;
      assert Ran(Init(cfg, n), [], View());
      ghost var run := CreateThreads(0);
    }

    /** The controlling thread enters `wait()`. */
    method EnterAsController(k: nat) returns (returned: bool)
      requires Valid() && ctl.Active? && ctl.phase == PreWait && k !in waiters
      modifies this
      ensures Valid() && View() == ControlStep(old(View()), k)
      ensures if returned then k !in waiters && WaitDone(View()) && ctl == old(ctl).(phase := StopFlag)
              else At(Controller(k), View()) && ctl == old(ctl).(phase := InWait(k))
    {
      LockAndTest(k, false, ByController);
      returned := k !in waiters;
      Stepped(old(View()), Control(k));
    }

    /** One sleep of the controlling thread inside `wait()`. */
    method ControllerSleeps(k: nat) returns (returned: bool, ghost run: seq<Step>)
      requires Valid() && At(Controller(k), View()) && ctl.phase == InWait(k)
      modifies this
      ensures Valid() && Steered(old(View()), run, View())
      ensures hist.sizes == old(hist.sizes) && |threads| == |old(threads)|
      ensures if returned then k !in waiters && WaitDone(View()) && ctl == old(ctl).(phase := StopFlag)
              else At(Controller(k), View()) && ctl == old(ctl)
    {
      ghost var start := View();
      run := Others(Controller(k));
      OthersBeforeRestore(k, start, run);
      returned := false;
      ControllerInside(View(), k);
      if waiters[k].notified {
        ghost var before := View();
        returned := RetestWait(k);
        ControllerRetested(before, k);
        OwnStep(start, run, before, PoolModel.Wait(k, Retest));
        run := run + [PoolModel.Wait(k, Retest)];
      }
    }

    /** The `wait()` of the controlling thread, after whatever other threads do
        before it locks the mutex. */
    method WaitForAll(k: nat, patience: nat) returns (returned: bool, ghost run: seq<Step>)
      requires Valid() && ctl.Active? && ctl.phase == PreWait && k !in waiters
      modifies this
      ensures Valid() && Steered(old(View()), run, View())
      ensures hist.sizes == old(hist.sizes) && |threads| == |old(threads)|
      ensures returned ==> ctl == old(ctl).(phase := StopFlag) && k !in waiters && Completed(View())
      ensures !returned ==> ctl.Active?
    {
      ghost var start := View();
      returned, run := StartWaiting(k);
      var rounds := patience;
      while rounds > 0 && !returned
        invariant Valid() && Steered(start, run, View())
        invariant hist.sizes == start.hist.sizes && |threads| == |start.workers|
        invariant if returned then k !in waiters && WaitDone(View()) && ctl == start.ctl.(phase := StopFlag)
                  else At(Controller(k), View()) && ctl == start.ctl.(phase := InWait(k))
      {
        rounds := rounds - 1;
        ghost var before, more := View(), [];
        returned, more := ControllerSleeps(k);
        SteeredOn(start, run, before, more, View());
        run := run + more;
      }
      if returned { WaitCompletes(View()); }
    }

    method StartWaiting(k: nat) returns (returned: bool, ghost run: seq<Step>)
      requires Valid() && ctl.Active? && ctl.phase == PreWait && k !in waiters
      modifies this
      ensures Valid() && Steered(old(View()), run, View())
      ensures hist.sizes == old(hist.sizes) && |threads| == |old(threads)|
      ensures if returned then k !in waiters && WaitDone(View()) && ctl == old(ctl).(phase := StopFlag)
              else At(Controller(k), View()) && ctl == old(ctl).(phase := InWait(k))
    {
      ghost var start := View();
      run := Others(Controller(k));
      OthersBeforeRestore(k, start, run);
      ghost var before := View();
      returned := EnterAsController(k);
      ControlThen(start, run, before, k);
      run := run + [Control(k)];
    }

    /** `reset_pool`: `wait()`, `destroy_threads` and `create_threads`.  The run passes
        the state `waited` in which `wait()` returned, after `m` steps. */
    method ResetPool(k: nat, patience: nat) returns (done: bool, ghost run: seq<Step>, ghost m: nat, ghost waited: Pool)
      requires Valid() && ctl.Active? && ctl.goal == Goal.Reset && ctl.phase == PreWait && k !in waiters
      modifies this
      ensures Valid() && Steered(old(View()), run, View())
      ensures done ==> ctl == if cfg.pause then old(ctl).(phase := Restore) else Idle
      ensures done ==>
        |threads| == if old(ctl).n > 0 then old(ctl).n else if cfg.hardware > 0 then cfg.hardware else 1
      ensures done ==> workersRunning && hist.sizes == old(hist.sizes) + [|threads|]
      ensures done ==> m <= |run| && Ran(old(View()), run[..m], waited) && Ran(waited, run[m..], View())
      ensures done ==> Completed(waited)
      ensures !done ==> ctl.Active?
    {
      ghost var start := View();
      done, run := WaitForAll(k, patience);
      waited, m := View(), |run|;
      if done {
        ghost var first, more := run, [];
        done, more := ReplaceThreads(k, patience);
        SteeredOn(start, first, waited, more, View());
        run := first + more;
        assert run[..m] == first && run[m..] == more;
      }
    }

    /** `destroy_threads` and `create_threads`. */
    method ReplaceThreads(k: nat, patience: nat) returns (done: bool, ghost run: seq<Step>)
      requires Valid() && ctl.Active? && ctl.goal == Goal.Reset && ctl.phase == StopFlag && k !in waiters
      modifies this
      ensures Valid() && Steered(old(View()), run, View())
      ensures done ==> ctl == if cfg.pause then old(ctl).(phase := Restore) else Idle
      ensures done ==>
        |threads| == if old(ctl).n > 0 then old(ctl).n else if cfg.hardware > 0 then cfg.hardware else 1
      ensures done ==> workersRunning && hist.sizes == old(hist.sizes) + [|threads|]
      ensures !done ==> ctl.Active?
    {
      ghost var start := View();
      done, run := DestroyThreads(k, patience);
      if done {
        ghost var before, more := View(), [];
        more := CreateThreads(k);
        SteeredOn(start, run, before, more, View());
        run := run + more;
      }
    }

    /** The first and the last critical section of `reset`. */
    method BeginReset(n: nat)
      requires Valid() && ctl == Idle
      modifies this
      ensures Valid() && View() == StartReset(old(View()), n) && ClientEnabled(old(View()), PoolModel.BeginReset(n))
    {
      ResetStep(View(), n);
      var wasPaused := cfg.pause && paused;
      if cfg.pause { paused := true; }
      ctl := Active(Goal.Reset, n, PreWait, wasPaused);
    }

    method RestorePaused(ghost k: nat)
      requires Valid() && ctl.Active? && ctl.phase == Restore
      modifies this
      ensures Valid() && View() == ControlStep(old(View()), k)
    {
      paused, ctl := ctl.wasPaused, Idle;
      Stepped(old(View()), Control(k));
    }

    /** `reset(n)`: the threads are replaced by `n` new ones, `paused` is what it was,
        and the old threads have run their cleanup, after a `wait()`: the tasks that
        were running have finished, and without pausing every task submitted before
        the call is finished or purged.  On a pause-enabled pool that nobody unpauses
        meanwhile no task is started, and absent a purge the queue is the old one
        followed by the tasks submitted meanwhile. */
    method Reset(k: nat, n: nat, patience: nat)
      returns (done: bool, ghost run: seq<Step>, ghost m: nat, ghost waited: Pool)
      requires Valid() && ctl == Idle && k !in waiters
      modifies this
      ensures Valid() && Ran(old(View()), run, View())
      ensures done ==> ctl == Idle && workersRunning && paused == old(paused)
      ensures done ==> |threads| == if n > 0 then n else if cfg.hardware > 0 then cfg.hardware else 1
      ensures done ==> hist.sizes == old(hist.sizes) + [|threads|] && CleanedUpBefore(old(View()), View())
      ensures done ==> 0 < m <= |run| && run[0] == Client(PoolModel.BeginReset(n)) && Completed(waited)
      ensures done ==> Ran(old(View()), run[..m], waited) && Ran(waited, run[m..], View())
      ensures done ==> forall id :: id in old(hist.started) ==> id in hist.finished
      ensures done && !cfg.pause ==>
        forall id: nat :: id < |old(hist.submitted)| ==> multiset(hist.finished)[id] + hist.purged[id] == 1
      ensures done && cfg.pause && NoUnpause(run) ==>
        hist.started == old(hist.started) && (NoPurge(run) ==> Held(old(View()), View()))
      ensures !done ==> ctl.Active?
    {
      ghost var start := View();
      BeginReset(n);
      RunOne(start, Client(PoolModel.BeginReset(n)));
      ghost var begun, mid, last := View(), [], [];
      done, mid, m, waited := ResetPool(k, patience);
      if done {
        ghost var before := View();
        last := EndReset(start, n, mid, k);
        ThroughReset(start, Client(PoolModel.BeginReset(n)), mid, m, waited, before, last, View());
        run, m := [Client(PoolModel.BeginReset(n))] + mid + last, m + 1;
        OldGeneration(start, View());
      } else {
        RunConcat(start, [Client(PoolModel.BeginReset(n))], begun, mid, View());
        run := [Client(PoolModel.BeginReset(n))] + mid;
      }
    }

    /** The end of `reset`, which began in the state `start`. */
    method EndReset(ghost start: Pool, ghost n: nat, ghost mid: seq<Step>, ghost k: nat) returns (ghost last: seq<Step>)
      requires Reached(start) && start.ctl == Idle && Valid() && Steered(StartReset(start, n), mid, View())
      requires if cfg.pause then ctl == Active(Goal.Reset, n, Restore, start.paused) else ctl == Idle
      requires cfg == start.cfg
      modifies this
      ensures Valid() && Ran(old(View()), last, View())
      ensures ctl == Idle && paused == start.paused
      ensures workersRunning == old(workersRunning) && threads == old(threads) && hist == old(hist)
      ensures var run := [Client(PoolModel.BeginReset(n))] + mid + last;
        cfg.pause && NoUnpause(run) ==>
          hist.started == start.hist.started && (NoPurge(run) ==> Held(start, View()))
    {
      ghost var before := View();
      last := [];
      if cfg.pause {
        RestorePaused(k);
        RunOne(before, Control(k));
        last := [Control(k)];
        ResetKept(start, n, mid, before, k, [Client(PoolModel.BeginReset(n))] + mid + last);
      }
      NeverPaused(start);
      NeverPaused(View());
    }

    /** The destructor: when it is over, all threads have stopped after their cleanup;
        the run passed a state `waited`, after the beginning of the call, in which
        the pool had come to rest as `wait()` promises.  So the tasks that were
        running have finished, and unless the pool was paused every task submitted
        before is finished or purged. */
    method Destroy(k: nat, patience: nat) returns (done: bool, ghost run: seq<Step>, ghost m: nat, ghost waited: Pool)
      requires Valid() && ctl == Idle && k !in waiters
      modifies this
      ensures Valid() && Ran(old(View()), run, View())
      ensures done ==> ctl == Dead && !workersRunning && All(threads, Stopped) && tasksRunning == 0
      ensures done ==> hist.sizes == old(hist.sizes) && AllCleanedUp(View())
      ensures done ==> 0 < m <= |run| && run[0] == Client(BeginDestroy)
      ensures done ==> Ran(old(View()), run[..m], waited) && Ran(waited, run[m..], View())
      ensures done ==> Completed(waited) && hist.started == waited.hist.started
      ensures done ==> old(hist.submitted) <= waited.hist.submitted
      ensures done && !waited.paused ==>
        forall id: nat :: id < |waited.hist.submitted| ==> multiset(hist.finished)[id] + hist.purged[id] == 1
      ensures done && !cfg.pause ==>
        forall id: nat :: id < |old(hist.submitted)| ==> multiset(hist.finished)[id] + hist.purged[id] == 1
      ensures done ==> forall id :: id in old(hist.started) ==> id in hist.finished
      ensures !done ==> ctl.Active?
    {
      ghost var start := View();
      BeginDestroying();
      RunOne(start, Client(BeginDestroy));
      ghost var begun, more := View(), [];
      done, more := WaitForAll(k, patience);
      RunConcat(start, [Client(BeginDestroy)], begun, more, View());
      ghost var first := [Client(BeginDestroy)] + more;
      run, m, waited := first, |first|, View();
      if done {
        done, more := DestroyThreads(k, patience);
        RunConcat(start, first, waited, more, View());
        run := first + more;
        assert run[..m] == first && run[m..] == more;
        WaitedFor(start, first, waited, more, View());
      }
    }

    method BeginDestroying()
      requires Valid() && ctl == Idle
      modifies this
      ensures Valid() && View() == ApplyClient(old(View()), BeginDestroy)
    {
      Stepped(View(), Client(BeginDestroy));
      ctl := Active(Goal.Destroy, 0, PreWait, false);
    }

    // ---------- pause, unpause, purge ----------

    /** `pause`: from now on `wait()` waits for the running tasks only. */
    method Pause()
      requires Valid() && cfg.pause && ctl != Dead
      modifies this
      ensures Valid() && View() == ApplyClient(old(View()), PoolModel.Pause) && paused
      ensures WaitDone(View()) <==> tasksRunning == 0
    {
      Stepped(View(), Client(PoolModel.Pause));
      paused := true;
    }

    /** The critical section of `unpause`. */
    method ClearPaused()
      requires Valid() && cfg.pause && ctl != Dead
      modifies this
      ensures Valid() && View() == ApplyClient(old(View()), PoolModel.Unpause)
    {
      UnpauseStep(View());
      paused, pendingAll := false, pendingAll + 1;
    }

    /** The delivery of a `task_available_cv.notify_all()`. */
    method NotifyAllWorkers()
      requires Valid() && pendingAll > 0
      modifies this
      ensures Valid() && View() == ApplyClient(old(View()), NotifyAll) && None(threads, Asleep)
    {
      NotifyAllStep(View());
      pendingAll := pendingAll - 1;
      WakeWorkers();
    }

    /** `unpause`, with other threads between its critical section and its
        `notify_all`: when it returns no worker is asleep. */
    method Unpause() returns (ghost run: seq<Step>)
      requires Valid() && cfg.pause && ctl != Dead
      modifies this
      ensures Valid() && Ran(old(View()), run, View())
      ensures |run| >= 2 && run[0] == Client(PoolModel.Unpause) && run[|run| - 1] == Client(NotifyAll)
      ensures PoolModel.Valid(old(View()), run[..1]) && !Final(old(View()), run[..1]).paused
      ensures None(threads, Asleep)
    {
      ghost var start := View();
      ClearPaused();
      RunOne(start, Client(PoolModel.Unpause));
      ghost var before := View();
      ghost var others := Others(Announcer);
      ghost var last := View();
      NotifyAllWorkers();
      StepOthersStep(start, Client(PoolModel.Unpause), before, others, last, Client(NotifyAll), View());
      run := [Client(PoolModel.Unpause)] + others + [Client(NotifyAll)];
      assert run[..1] == [Client(PoolModel.Unpause)];
    }

    /** `tasks = {}` */
    method DropQueue()
      requires Valid() && ctl != Dead
      modifies this
      ensures Valid() && View() == ApplyClient(old(View()), PoolModel.Purge)
    {
      PurgeStep(View());
      hist := hist.(purged := hist.purged + multiset(tasks));
      tasks := [];
    }

    /** `purge`: the queued tasks are discarded and have never been started; every
        other task is running, finished or was purged before. */
    method Purge()
      requires Valid() && ctl != Dead
      modifies this
      ensures Valid() && View() == ApplyClient(old(View()), PoolModel.Purge)
      ensures forall id: nat :: id in old(tasks) ==> hist.purged[id] == 1 && id !in hist.started
      ensures forall id: nat :: id < |hist.submitted| ==>
        RunningIds(threads)[id] + multiset(hist.finished)[id] + hist.purged[id] == 1
    {
      PurgedAll(View());
      DropQueue();
    }

    // ---------- detach_task and the splitters ----------

    /** The critical section of `detach_task`. */
    method Append(c: nat, job: Job)
      requires Valid() && !Destroying(ctl)
      requires ClientEnabled(View(), DetachNext(c)) && job == calls[c].jobs[calls[c].next]
      modifies this
      ensures Valid() && View() == Detach(old(View()), c) && At(Notifier(c), View())
    {
      AppendStep(View(), c);
      tasks, pendingOne := tasks + [|hist.submitted|], pendingOne + 1;
      hist := hist.(submitted := hist.submitted + [job]);
      calls := calls[c := calls[c].(next := calls[c].next + 1)];
    }

    /** `detach_task`, with other threads between its critical section and its
        `notify_one`: the task is submitted, right after those submitted before. */
    method DetachTask(c: nat, job: Job) returns (ghost run: seq<Step>)
      requires Valid() && !Destroying(ctl) && ClientEnabled(View(), DetachNext(c))
      requires job == calls[c].jobs[calls[c].next]
      modifies this
      ensures Valid() && Ran(old(View()), run, View()) && At(Caller(c), View())
      ensures calls[c] == old(calls[c]).(next := old(calls[c]).next + 1)
      ensures old(hist.submitted) + [job] <= hist.submitted
      ensures |run| >= 2 && run[|run| - 1].Client? && run[|run| - 1].op.NotifyOne?
    {
      ghost var start := View();
      AppendStep(start, c);
      Append(c, job);
      ghost var middle := View();
      ghost var others := Others(Notifier(c));
      SubmittedGrows(middle, others);
      ghost var before := View();
      ghost var w := NotifyOne();
      StepOthersStep(start, Client(DetachNext(c)), middle, others, before, Client(PoolModel.NotifyOne(w)), View());
      run := [Client(DetachNext(c))] + others + [Client(PoolModel.NotifyOne(w))];
    }

    method BeginCall(jobs: seq<Job>) returns (c: nat)
      requires Valid() && !Destroying(ctl) && ClientEnabled(View(), PoolModel.BeginCall(jobs))
      modifies this
      ensures Valid() && View() == ApplyClient(old(View()), PoolModel.BeginCall(jobs))
      ensures c == |old(calls)| && At(Caller(c), View())
    {
      Stepped(View(), Client(PoolModel.BeginCall(jobs)));
      c := |calls|;
      calls := calls + [Call(jobs, 0)];
    }

    /** `detach_loop` and `detach_blocks`: whatever the other threads do meanwhile,
        it returns after a run of the protocol in which it has submitted exactly
        the blocks of the range: as many as requested, but not more than indices,
        contiguous, and of sizes that differ by at most one and do not grow.  The
        number of threads, by default the number of blocks, is not 0. */
    method DetachLoop(t1: Blocks.IntType, t2: Blocks.IntType, firstIndex: int, indexAfterLast: int, numBlocks: nat,
        priority: Priority) returns (c: nat, ghost run: seq<Step>)
      requires Valid() && !Destroying(ctl) && !(ctl.Active? && ctl.goal == Goal.Construct)
      requires t1.Valid() && t2.Valid() && t1.Has(firstIndex) && t2.Has(indexAfterLast)
      requires var t := Blocks.CommonType(t1, t2);
        t.Cast(indexAfterLast) > t.Cast(firstIndex) ==> Blocks.Defined(t, t.Cast(firstIndex), t.Cast(indexAfterLast))
      modifies this
      ensures Valid() && Ran(old(View()), run, View())
      ensures c < |calls| && calls[c].next == |calls[c].jobs| && old(threads) != []
      ensures var t := Blocks.CommonType(t1, t2);
        JobsOf(hist.submitted, c) == calls[c].jobs ==
          LoopJobs(c, priority, t.Cast(firstIndex), t.Cast(indexAfterLast),
                   if numBlocks != 0 then numBlocks else |old(threads)|)
      ensures var t := Blocks.CommonType(t1, t2);
        var first, last := t.Cast(firstIndex), t.Cast(indexAfterLast);
        var num := if numBlocks != 0 then numBlocks else |old(threads)|;
        var jobs := JobsOf(hist.submitted, c);
        && (first >= last ==> jobs == [])
        && (first < last ==>
              && 1 <= |jobs| <= num && |jobs| <= last - first && (|jobs| == num || |jobs| == last - first)
              && jobs[0].lo == first && jobs[|jobs| - 1].hi == last)
        && (forall j :: 0 <= j < |jobs| ==>
              jobs[j].call == c && jobs[j].priority == priority && jobs[j].lo < jobs[j].hi)
        && (forall j :: 0 <= j < |jobs| - 1 ==> jobs[j].hi == jobs[j + 1].lo)
        && (forall i, j :: 0 <= i <= j < |jobs| ==>
              0 <= (jobs[i].hi - jobs[i].lo) - (jobs[j].hi - jobs[j].lo) <= 1)
    {
      SomeThread(View());
      Blocks.CommonBounds(t1, t2, firstIndex, indexAfterLast);
      var t := Blocks.CommonType(t1, t2);
      var num := if numBlocks != 0 then numBlocks else |threads|;
      c, run := SubmitRange(t, t.Cast(firstIndex), t.Cast(indexAfterLast), num, priority);
    }

    /** `detach_loop` and `detach_blocks`, with the bounds in the common index type. */
    method SubmitRange(t: Blocks.IntType, first: int, last: int, num: nat, priority: Priority)
      returns (c: nat, ghost run: seq<Step>)
      requires Valid() && !Destroying(ctl) && num >= 1
      requires t.Valid() && t.Has(first) && t.Has(last) && (last > first ==> Blocks.Defined(t, first, last))
      modifies this
      ensures Valid() && Ran(old(View()), run, View())
      ensures c < |calls| && calls[c].next == |calls[c].jobs|
      ensures JobsOf(hist.submitted, c) == calls[c].jobs == LoopJobs(c, priority, first, last, num)
      ensures var jobs := JobsOf(hist.submitted, c);
        && (first >= last ==> jobs == [])
        && (first < last ==>
              && 1 <= |jobs| <= num && |jobs| <= last - first && (|jobs| == num || |jobs| == last - first)
              && jobs[0].lo == first && jobs[|jobs| - 1].hi == last)
        && (forall j :: 0 <= j < |jobs| ==>
              jobs[j].call == c && jobs[j].priority == priority && jobs[j].lo < jobs[j].hi)
        && (forall j :: 0 <= j < |jobs| - 1 ==> jobs[j].hi == jobs[j + 1].lo)
        && (forall i, j :: 0 <= i <= j < |jobs| ==>
              0 <= (jobs[i].hi - jobs[i].lo) - (jobs[j].hi - jobs[j].lo) <= 1)
    {
      c, run := SubmitAll(t, first, last, num, priority);
      LoopJobsTile(c, priority, first, last, num);
    }

    method SubmitAll(t: Blocks.IntType, first: int, last: int, num: nat, priority: Priority)
      returns (c: nat, ghost run: seq<Step>)
      requires Valid() && !Destroying(ctl) && num >= 1
      requires t.Valid() && t.Has(first) && t.Has(last) && (last > first ==> Blocks.Defined(t, first, last))
      modifies this
      ensures Valid() && Ran(old(View()), run, View())
      ensures c < |calls| && calls[c].next == |calls[c].jobs|
      ensures JobsOf(hist.submitted, c) == calls[c].jobs == LoopJobs(c, priority, first, last, num)
    {
      ghost var start := View();
      var jobs := LoopJobs(|calls|, priority, first, last, num);
      LoopJobsNamed(|calls|, priority, first, last, num);
      c := BeginCall(jobs);
      run := [Client(PoolModel.BeginCall(jobs))];
      RunOne(start, run[0]);
      if last > first {
        var blks := new Blocks.Blocks(t, first, last, num);
        run := SubmitBlocks(c, blks, priority, num, start, run);
      }
      SubmittedAll(View(), c);
    }

    /** The loop of `detach_loop` over the blocks. */
    method SubmitBlocks(c: nat, blks: Blocks.Blocks, priority: Priority, ghost num: nat,
        ghost start: Pool, ghost run: seq<Step>)
      returns (ghost longer: seq<Step>)
      requires num >= 1 && blks.Valid() && blks.first < blks.last
      requires blks.numBlocks == Blocks.Smaller(num, blks.last - blks.first)
      requires Valid() && At(Caller(c), View())
      requires calls[c] == Call(LoopJobs(c, priority, blks.first, blks.last, num), 0)
      requires Ran(start, run, View())
      modifies this
      ensures At(Caller(c), View()) && calls[c] == old(calls[c]).(next := |old(calls[c]).jobs|)
      ensures Valid() && Ran(start, longer, View())
    {
      longer := run;
      ghost var jobs := calls[c].jobs;
      var blk := 0;
      while blk < blks.numBlocks
        invariant blks.Valid() && blks.numBlocks == old(blks.numBlocks) == |jobs| && blk <= |jobs|
        invariant Valid() && At(Caller(c), View()) && calls[c] == Call(jobs, blk)
        invariant Ran(start, longer, View())
      {
        var job := Job(c, blks.Start(blk).value, blks.End(blk).value, priority);
        longer := DetachAndYield(c, job, start, longer);
        blk := blk + 1;
      }
    }

    /** `detach_sequence`, likewise: one task for every index of the range. */
    method DetachSequence(t1: Blocks.IntType, t2: Blocks.IntType, firstIndex: int, indexAfterLast: int,
        priority: Priority)
      returns (c: nat, ghost run: seq<Step>)
      requires Valid() && !Destroying(ctl)
      requires t1.Valid() && t2.Valid() && t1.Has(firstIndex) && t2.Has(indexAfterLast)
      modifies this
      ensures Valid() && Ran(old(View()), run, View())
      ensures c < |calls| && calls[c].next == |calls[c].jobs|
      ensures var t := Blocks.CommonType(t1, t2);
        JobsOf(hist.submitted, c) == calls[c].jobs ==
          SequenceJobs(c, priority, t.Cast(firstIndex), t.Cast(indexAfterLast))
      ensures var t := Blocks.CommonType(t1, t2);
        var first, last := t.Cast(firstIndex), t.Cast(indexAfterLast);
        var jobs := JobsOf(hist.submitted, c);
        && |jobs| == (if first < last then last - first else 0)
        && (forall j :: 0 <= j < |jobs| ==>
              && jobs[j].call == c && jobs[j].priority == priority
              && jobs[j].lo == first + j && jobs[j].hi == first + j + 1)
    {
      var t := Blocks.CommonType(t1, t2);
      c, run := SubmitEach(t.Cast(firstIndex), t.Cast(indexAfterLast), priority);
      SequenceJobsTile(c, priority, t.Cast(firstIndex), t.Cast(indexAfterLast));
    }

    /** `detach_sequence`, with the bounds in the common index type. */
    method SubmitEach(first: int, last: int, priority: Priority) returns (c: nat, ghost run: seq<Step>)
      requires Valid() && !Destroying(ctl)
      modifies this
      ensures Valid() && Ran(old(View()), run, View())
      ensures c < |calls| && calls[c].next == |calls[c].jobs|
      ensures JobsOf(hist.submitted, c) == calls[c].jobs == SequenceJobs(c, priority, first, last)
    {
      ghost var start := View();
      var jobs := SequenceJobs(|calls|, priority, first, last);
      SequenceJobsTile(|calls|, priority, first, last);
      c := BeginCall(jobs);
      run := [Client(PoolModel.BeginCall(jobs))];
      RunOne(start, run[0]);
      if last > first {
        var i := first;
        while i < last
          invariant first <= i <= last
          invariant Valid() && At(Caller(c), View()) && calls[c] == Call(jobs, i - first)
          invariant Ran(start, run, View())
        {
          run := DetachAndYield(c, Job(c, i, i + 1, priority), start, run);
          i := i + 1;
        }
      }
      SubmittedAll(View(), c);
    }

    /** One `detach_task` of a call, and whatever the other threads do until the
        next one; the run so far is extended by both. */
    method DetachAndYield(c: nat, job: Job, ghost start: Pool, ghost run: seq<Step>) returns (ghost longer: seq<Step>)
      requires Valid() && !Destroying(ctl) && ClientEnabled(View(), DetachNext(c))
      requires job == calls[c].jobs[calls[c].next]
      requires Ran(start, run, View())
      modifies this
      ensures Valid() && At(Caller(c), View())
      ensures calls[c] == old(calls[c]).(next := old(calls[c]).next + 1)
      ensures Ran(start, longer, View())
    {
      ghost var before := View();
      ghost var more := DetachTask(c, job);
      RunConcat(start, run, before, more, View());
      ghost var middle := View();
      ghost var others := Others(Caller(c));
      RunConcat(start, run + more, middle, others, View());
      longer := run + more + others;
    }

    // ---------- The futures of a call ----------

    /** `multi_future::get()` on the futures of call `c`: it waits for each of them in
        turn while the pool works, and gives what all of them say when it returns:
        all values, or what the first future without a value, number `at`, makes of
        the result.  It is blocked at one that is not ready when the `patience` is
        over. */
    method Get(c: nat, patience: nat) returns (r: GetResult, ghost run: seq<Step>, ghost at: nat)
      requires Valid() && c < |calls| && calls[c].next == |calls[c].jobs|
      modifies this
      ensures Valid() && Ran(old(View()), run, View())
      ensures c < |calls| && calls[c] == old(calls)[c] && |FuturesOf(hist, c)| == |calls[c].jobs|
      ensures GetSpec(FuturesOf(hist, c), r) && at <= |calls[c].jobs|
      ensures forall j :: 0 <= j < at ==> FuturesOf(hist, c)[j].Ready? && FuturesOf(hist, c)[j].outcome.Value?
      ensures at == |calls[c].jobs| ==>
        r.Values? && |r.vs| == at && forall j :: 0 <= j < at ==> r.vs[j] == FuturesOf(hist, c)[j].outcome.v
      ensures at < |calls[c].jobs| ==>
        match FuturesOf(hist, c)[at]
        case Pending => r == BlockedAt(at)
        case Broken => r == BrokenPromise(at)
        case Ready(o) => o.Thrown? && r == Rethrown(o.e)
    {
      ghost var start := View();
      run := [];
      FuturesCount(start, c);
      var results := [];
      var k, n := 0, |calls[c].jobs|;
      while k < n
        invariant Valid() && Ran(start, run, View()) && c < |calls| && calls[c] == start.calls[c]
        invariant k <= n == |FuturesOf(hist, c)| && |results| == k
        invariant ValuesSoFar(FuturesOf(hist, c), results)
      {
        ghost var before, more := View(), [];
        var future;
        future, more := NextFuture(c, k, results, patience);
        RunConcat(start, run, before, more, View());
        run := run + more;
        if !HasValue(future) {
          r := Failure(future, k);
          StopsAt(FuturesOf(hist, c), k, r);
          at := k;
          return;
        }
        results := results + [future.outcome.v];
        k := k + 1;
      }
      r, at := Values(results), n;
    }

    /** What `future.get()` does if there is no value. */
    method Failure(future: Future, k: nat) returns (r: GetResult)
      requires !HasValue(future)
      ensures StopsWith(future, k, r)
    {
      match future
      case Pending => r := BlockedAt(k);
      case Broken => r := BrokenPromise(k);
      case Ready(o) => r := Rethrown(o.e);
    }

    /** The next future, while the ones read before keep their values. */
    method NextFuture(c: nat, k: nat, results: seq<int>, patience: nat) returns (future: Future, ghost run: seq<Step>)
      requires Valid() && c < |calls| && k < |FuturesOf(hist, c)| == calls[c].next
      requires |results| == k && ValuesSoFar(FuturesOf(hist, c), results)
      modifies this
      ensures Valid() && Ran(old(View()), run, View())
      ensures c < |calls| && calls[c] == old(calls)[c] && |FuturesOf(hist, c)| == calls[c].next
      ensures ValuesSoFar(FuturesOf(hist, c), results) && future == FuturesOf(hist, c)[k]
    {
      ghost var start := View();
      future, run := AwaitFuture(c, k, patience);
      FuturesCount(View(), c);
      ValuesStay(start, run, c, results);
    }

    /** `future.get()` on the `k`-th future of call `c`, up to its result. */
    method AwaitFuture(c: nat, k: nat, patience: nat) returns (future: Future, ghost run: seq<Step>)
      requires Valid() && c < |calls| && k < |FuturesOf(hist, c)|
      modifies this
      ensures Valid() && Ran(old(View()), run, View())
      ensures Stays(Reader(c), old(View()), View())
      ensures k < |FuturesOf(hist, c)| && future == FuturesOf(hist, c)[k]
    {
      ghost var start := View();
      StaysReflexive(Reader(c), start);
      run := [];
      var rounds := patience;
      while FuturesOf(hist, c)[k].Pending? && rounds > 0
        invariant Valid() && Ran(start, run, View()) && Stays(Reader(c), start, View())
        invariant k < |FuturesOf(hist, c)|
      {
        rounds := rounds - 1;
        ghost var before := View();
        ghost var others := Others(Reader(c));
        RunConcat(start, run, before, others, View());
        FutureLives(before, others, c, k);
        run := run + others;
      }
      future := FuturesOf(hist, c)[k];
    }
  }
}
