/** What holds in every reachable state of the pool, for every configuration,
    every number of workers and clients, and every schedule. */
module PoolSafety {
  import opened PoolModel
  import opened PoolCounts
  import opened PoolHistory
  import opened PoolOrder
  import opened PoolCalls
  import opened PoolLifecycle

  ghost predicate Inv(s: Pool) {
    && ControlInv(s) && CountInv(s) && ConserveInv(s) && OrderInv(s)
    && CallInv(s) && LogInv(s) && HostInv(s)
  }

  lemma InitInv(cfg: Config, n: nat)
    ensures Inv(Init(cfg, n))
  {
  }

  lemma KeepInv(s: Pool, step: Step)
    requires Inv(s) && Enabled(s, step)
    ensures Inv(Apply(s, step))
  {
    KeepControl(s, step);
    KeepCount(s, step);
    KeepConserve(s, step);
    KeepOrder(s, step);
    KeepCalls(s, step);
    KeepLog(s, step);
    KeepHost(s, step);
  }

  lemma {:induction false} RunInv(s: Pool, steps: seq<Step>)
    requires Inv(s) && Valid(s, steps)
    ensures Inv(Final(s, steps))
    decreases |steps|
  {
    if steps == [] {
    } else {
      KeepInv(s, steps[0]);
      RunInv(Apply(s, steps[0]), steps[1..]);
    }
  }

  /** The invariant holds in every state that a run from construction reaches. */
  lemma Reachable(cfg: Config, n: nat, steps: seq<Step>)
    requires Valid(Init(cfg, n), steps)
    ensures Inv(Final(Init(cfg, n), steps))
  {
    InitInv(cfg, n);
    RunInv(Init(cfg, n), steps);
  }

  /** Some run from construction reaches `s`. */
  ghost predicate Reached(s: Pool) {
    exists n: nat, steps :: Ran(Init(s.cfg, n), steps, s)
  }

  lemma ReachedInv(s: Pool)
    requires Reached(s)
    ensures Inv(s)
  {
    var n: nat, steps :| Ran(Init(s.cfg, n), steps, s);
    Reachable(s.cfg, n, steps);
  }

  lemma ReachedOn(s: Pool, steps: seq<Step>, t: Pool)
    requires Reached(s) && Ran(s, steps, t)
    ensures Reached(t)
  {
    var n: nat, past :| Ran(Init(s.cfg, n), past, s);
    RunConcat(Init(s.cfg, n), past, s, steps, t);
    ConfigKept(s, steps);
  }

  lemma {:induction false} ConfigKept(s: Pool, steps: seq<Step>)
    requires Valid(s, steps)
    ensures Final(s, steps).cfg == s.cfg
    decreases |steps|
  {
    if steps == [] {
    } else {
      ConfigStep(s, steps[0]);
      ConfigKept(Apply(s, steps[0]), steps[1..]);
    }
  }

  lemma ConfigStep(s: Pool, step: Step)
    requires Enabled(s, step)
    ensures Apply(s, step).cfg == s.cfg
  {
    match step
    case Client(op) =>
    case Wait(k, op) => WaitEffect(s, k, op);
    case Work(i, op) => var q := WorkerEffect(s, i, op);
    case Control(k) => ControlEffect(s, k);
  }

  // ---------- tasks_running ----------

  /** Workers that are counted although they run no task. */
  function Pending(p: Pc): nat {
    if p == Unborn || p == Spawned || p == LoopTop then 1 else 0
  }

  lemma {:induction false} CountedSplit(ws: seq<Pc>)
    ensures Sum(Counted, ws) == Sum(Pending, ws) + |RunningIds(ws)|
  {
    if ws == [] {
    } else {
      CountedSplit(ws[..|ws| - 1]);
    }
  }

  /** `tasks_running` counts the workers that are not initialized, run a task, or
      have not decremented it yet.  So the decrement never underflows, the
      counter is 0 once a generation has stopped, and `get_tasks_running()` is
      the number of tasks being executed exactly when every worker has reached
      its loop's wait. */
  lemma CounterAccounting(cfg: Config, n: nat, steps: seq<Step>)
    requires Valid(Init(cfg, n), steps)
    ensures var s := Final(Init(cfg, n), steps);
      && s.tasksRunning == Sum(Counted, s.workers)
      && s.tasksRunning >= |RunningIds(s.workers)|
      && (forall i :: 0 <= i < |s.workers| && s.workers[i] == LoopTop ==> s.tasksRunning >= 1)
      && (All(s.workers, Stopped) ==> s.tasksRunning == 0)
      && (s.tasksRunning == |RunningIds(s.workers)| <==>
            None(s.workers, Unborn) && None(s.workers, Spawned) && None(s.workers, LoopTop))
  {
    Reachable(cfg, n, steps);
    Accounting(Final(Init(cfg, n), steps).workers);
  }

  lemma Accounting(ws: seq<Pc>)
    ensures Sum(Counted, ws) >= |RunningIds(ws)|
    ensures forall i :: 0 <= i < |ws| && ws[i] == LoopTop ==> Sum(Counted, ws) >= 1
    ensures All(ws, Stopped) ==> Sum(Counted, ws) == 0
    ensures Sum(Counted, ws) == |RunningIds(ws)| <==> None(ws, Unborn) && None(ws, Spawned) && None(ws, LoopTop)
  {
    CountedSplit(ws);
    SumZero(Counted, ws);
    SumZero(Pending, ws);
    if !(None(ws, Unborn) && None(ws, Spawned) && None(ws, LoopTop)) {
      var i :| 0 <= i < |ws| && (ws[i] == Unborn || ws[i] == Spawned || ws[i] == LoopTop);
      assert Pending(ws[i]) == 1;
    }
  }

  // ---------- Conservation ----------

  /** Every submitted task is in exactly one place, once: in the queue, in one
      worker, in the finished log, or purged.  No unsubmitted task is anywhere. */
  lemma ExactlyOnce(cfg: Config, n: nat, steps: seq<Step>, id: nat)
    requires Valid(Init(cfg, n), steps)
    ensures var s := Final(Init(cfg, n), steps);
      multiset(s.tasks)[id] + RunningIds(s.workers)[id] + multiset(s.hist.finished)[id] + s.hist.purged[id]
        == if id < |s.hist.submitted| then 1 else 0
    ensures var s := Final(Init(cfg, n), steps);
      multiset(s.hist.started)[id] <= 1
  {
    Reachable(cfg, n, steps);
    OneEach(Final(Init(cfg, n), steps), id);
  }

  lemma {:induction false} UptoOnce(n: nat, id: nat)
    ensures multiset(Upto(n))[id] == if id < n then 1 else 0
  {
    if n == 0 {
    } else {
      assert Upto(n) == Upto(n - 1) + [n - 1];
      UptoOnce(n - 1, id);
    }
  }

  lemma OneEach(s: Pool, id: nat)
    requires ConserveInv(s)
    ensures multiset(s.tasks)[id] + RunningIds(s.workers)[id] + multiset(s.hist.finished)[id] + s.hist.purged[id]
        == if id < |s.hist.submitted| then 1 else 0
    ensures multiset(s.hist.started)[id] <= 1
  {
    UptoOnce(|s.hist.submitted|, id);
    assert (multiset(s.tasks) + RunningIds(s.workers) + multiset(s.hist.finished) + s.hist.purged)[id]
        == multiset(Upto(|s.hist.submitted|))[id];
    assert multiset(s.hist.started)[id] == (RunningIds(s.workers) + multiset(s.hist.finished))[id];
  }

  lemma RunningHas(ws: seq<Pc>, i: nat)
    requires i < |ws| && ws[i].Running?
    ensures RunningIds(ws)[ws[i].id] >= 1
  {
    var id := ws[i].id;
    RunningUpdate(ws, i, LoopTop);
    assert RunningIds(ws[i := LoopTop]) + multiset{id} == RunningIds(ws);
    assert (RunningIds(ws[i := LoopTop]) + multiset{id})[id] >= 1;
  }

  lemma RunningOnce(s: Pool, i: nat)
    requires Inv(s) && i < |s.workers| && s.workers[i].Running?
    ensures s.workers[i].id < |s.hist.submitted| && s.workers[i].id !in s.hist.outcomes
  {
    var id := s.workers[i].id;
    RunningHas(s.workers, i);
    OneEach(s, id);
    assert multiset(s.hist.finished)[id] == 0;
  }

  /** A task that returns had no outcome before: its promise is fulfilled once. */
  lemma OutcomeOnce(s: Pool, i: nat, o: Outcome)
    requires Inv(s) && Enabled(s, Work(i, Return(o)))
    ensures var id := s.workers[i].id;
      && id < |s.hist.submitted| && id !in s.hist.outcomes
      && Apply(s, Work(i, Return(o))).hist.outcomes == s.hist.outcomes[id := o]
  {
    RunningOnce(s, i);
  }

  // ---------- wait() ----------

  lemma NothingRunning(s: Pool)
    requires Inv(s) && s.tasksRunning == 0
    ensures RunningIds(s.workers) == multiset{}
  {
    SumZero(Counted, s.workers);
    forall j | 0 <= j < |s.workers| ensures !s.workers[j].Running? {
      assert Counted(s.workers[j]) == 0;
    }
    RunningNone(s.workers);
  }

  /** What `wait()` promises when it returns: nothing is running; and unless the
      pool is paused, nothing is queued and every task is finished or purged. */
  ghost predicate Completed(s: Pool) {
    && s.tasksRunning == 0 && RunningIds(s.workers) == multiset{}
    && (!s.paused ==>
          && s.tasks == []
          && forall id: nat :: id < |s.hist.submitted| ==> multiset(s.hist.finished)[id] + s.hist.purged[id] == 1)
  }

  lemma DoneCompletes(s: Pool)
    requires Inv(s) && WaitDone(s)
    ensures Completed(s)
  {
    NothingRunning(s);
    forall id: nat | id < |s.hist.submitted| && s.tasks == []
      ensures multiset(s.hist.finished)[id] + s.hist.purged[id] == 1
    {
      OneEach(s, id);
    }
  }

  /** A step on which some `wait()` returns because its predicate holds. */
  predicate WaitReturns(s: Pool, step: Step) {
    && Enabled(s, step) && WaitDone(s)
    && match step
       case Wait(_, Enter(_, host)) => !(s.cfg.deadlockChecks && host.ByTask?)
       case Wait(_, Retest) => true
       case Wait(_, Expire) => true
       case Control(_) => s.ctl.phase == PreWait
       case _ => false
  }

  /** When `wait()` returns, nothing is running and `tasks_running` says so; unless
      the pool is paused, every task submitted before is finished or purged,
      exactly once.  The wait itself changes neither the queue nor the history. */
  lemma WaitPostcondition(cfg: Config, n: nat, steps: seq<Step>, step: Step)
    requires Valid(Init(cfg, n), steps)
    requires WaitReturns(Final(Init(cfg, n), steps), step)
    ensures var s := Final(Init(cfg, n), steps);
      && RunningIds(s.workers) == multiset{}
      && Apply(s, step).tasksRunning == |RunningIds(Apply(s, step).workers)| == 0
      && Apply(s, step).tasks == s.tasks && Apply(s, step).hist == s.hist
      && (!s.paused ==>
            && s.tasks == []
            && forall id: nat :: id < |s.hist.submitted| ==> multiset(s.hist.finished)[id] + s.hist.purged[id] == 1)
  {
    Reachable(cfg, n, steps);
    DoneCompletes(Final(Init(cfg, n), steps));
  }

  // ---------- purge() ----------

  lemma PurgedGrows(s: Pool, step: Step)
    requires Enabled(s, step)
    ensures s.hist.purged <= Apply(s, step).hist.purged
  {
    match step
    case Client(op) =>
    case Wait(k, op) => WaitEffect(s, k, op);
    case Work(i, op) => var q := WorkerEffect(s, i, op);
    case Control(k) => ControlEffect(s, k);
  }

  lemma {:induction false} PurgedStays(s: Pool, steps: seq<Step>)
    requires Inv(s) && Valid(s, steps)
    ensures Inv(Final(s, steps)) && s.hist.purged <= Final(s, steps).hist.purged
    decreases |steps|
  {
    if steps == [] {
    } else {
      KeepInv(s, steps[0]);
      PurgedGrows(s, steps[0]);
      PurgedStays(Apply(s, steps[0]), steps[1..]);
    }
  }

  /** A purge discards the tasks that are queued: no later run starts any of them.
      It discards no other one, and the tasks that are running stay. */
  lemma PurgeDiscards(s: Pool, steps: seq<Step>, id: nat)
    requires Inv(s) && ClientEnabled(s, Purge) && Valid(ApplyClient(s, Purge), steps)
    ensures id in s.tasks ==> id !in Final(ApplyClient(s, Purge), steps).hist.started
    ensures id in s.tasks <==> ApplyClient(s, Purge).hist.purged[id] > s.hist.purged[id]
    ensures RunningIds(ApplyClient(s, Purge).workers) == RunningIds(s.workers)
  {
    var t := ApplyClient(s, Purge);
    KeepInv(s, Client(Purge));
    PurgedStays(t, steps);
    OneEach(Final(t, steps), id);
    assert t.hist.purged[id] == s.hist.purged[id] + multiset(s.tasks)[id];
    var u := Final(t, steps);
    assert multiset(u.hist.started)[id] == (RunningIds(u.workers) + multiset(u.hist.finished))[id];
  }

  // ---------- The logs grow ----------

  /** Nothing that happened is forgotten. */
  ghost predicate Grown(h: History, g: History) {
    && h.submitted <= g.submitted && h.started <= g.started && h.finished <= g.finished && h.purged <= g.purged
  }

  lemma GrowsWork(s: Pool, i: nat, step: WorkerStep)
    requires WorkerEnabled(s, i, step)
    ensures Grown(s.hist, ApplyWorker(s, i, step).hist)
  {
    var q := WorkerEffect(s, i, step);
    match step
    case Top(pick) => GrowsTest(Decrement(s), i, pick);
    case Resume(pick) => GrowsTest(s, i, pick);
    case _ =>
  }

  lemma GrowsTest(s: Pool, i: nat, pick: nat)
    requires i < |s.workers| && (!QueueBlocked(s) ==> pick < |s.tasks|)
    ensures Grown(s.hist, TestPredicate(s, i, pick).hist)
  {
  }

  lemma GrowsClient(s: Pool, step: ClientStep)
    requires ClientEnabled(s, step)
    ensures Grown(s.hist, ApplyClient(s, step).hist)
  {
  }

  lemma {:induction false} LogsGrow(s: Pool, steps: seq<Step>)
    requires Valid(s, steps)
    ensures Grown(s.hist, Final(s, steps).hist)
    decreases |steps|
  {
    if steps == [] {
    } else {
      match steps[0] {
        case Client(op) => GrowsClient(s, op);
        case Wait(k, op) => WaitEffect(s, k, op);
        case Work(i, op) => GrowsWork(s, i, op);
        case Control(k) => ControlEffect(s, k);
      }
      LogsGrow(Apply(s, steps[0]), steps[1..]);
    }
  }

  /** What was complete stays complete. */
  lemma StaysComplete(u: Pool, steps: seq<Step>, t: Pool)
    requires Inv(u) && Ran(u, steps, t) && Completed(u)
    ensures !u.paused ==>
        forall id: nat :: id < |u.hist.submitted| ==> multiset(t.hist.finished)[id] + t.hist.purged[id] == 1
    ensures forall id :: id in u.hist.started ==> id in t.hist.finished
  {
    LogsGrow(u, steps);
    RunInv(u, steps);
    forall id: nat | id < |u.hist.submitted| && !u.paused
      ensures multiset(t.hist.finished)[id] + t.hist.purged[id] == 1
    {
      OneEach(t, id);
      PrefixCounts(u.hist.finished, t.hist.finished, id);
    }
    forall id | id in u.hist.started ensures id in t.hist.finished {
      assert id in multiset(u.hist.started);
    }
  }

  lemma PrefixCounts(a: seq<nat>, b: seq<nat>, id: nat)
    requires a <= b
    ensures multiset(a)[id] <= multiset(b)[id]
  {
    assert b == a + b[|a|..];
  }

  // ---------- Start order ----------

  /** Without priorities tasks start in submission order, and nothing is skipped
      unless it was purged; with priorities no task overtakes one of higher
      priority that was already submitted when it started: neither one that was
      started later nor one that is still queued. */
  lemma StartOrder(cfg: Config, n: nat, steps: seq<Step>, s: Pool)
    requires Ran(Init(cfg, n), steps, s)
    ensures |s.hist.startedAt| == |s.hist.started|
    ensures forall i :: 0 <= i < |s.hist.started| ==> s.hist.started[i] < s.hist.startedAt[i] <= |s.hist.submitted|
    ensures forall q :: 0 <= q < |s.tasks| ==> s.tasks[q] < |s.hist.submitted|
    ensures !cfg.priority ==>
        forall i, j :: 0 <= i < j < |s.hist.started + s.tasks| ==>
          (s.hist.started + s.tasks)[i] < (s.hist.started + s.tasks)[j]
    ensures !cfg.priority && s.hist.purged == multiset{} ==> s.hist.started + s.tasks == Upto(|s.hist.submitted|)
    ensures cfg.priority ==>
        forall i, j :: 0 <= i < j < |s.hist.started| && s.hist.started[j] < s.hist.startedAt[i] ==>
          s.hist.submitted[s.hist.started[j]].priority <= s.hist.submitted[s.hist.started[i]].priority
    ensures cfg.priority ==>
        forall i, q :: 0 <= i < |s.hist.started| && 0 <= q < |s.tasks| && s.tasks[q] < s.hist.startedAt[i] ==>
          s.hist.submitted[s.tasks[q]].priority <= s.hist.submitted[s.hist.started[i]].priority
  {
    Reachable(cfg, n, steps);
    ConfigKept(Init(cfg, n), steps);
  }

  /** Between two submissions the started priorities do not increase. */
  lemma PrioritiesFall(cfg: Config, n: nat, steps: seq<Step>, s: Pool, i: nat, j: nat)
    requires Ran(Init(cfg, n), steps, s) && cfg.priority
    requires i < j < |s.hist.started| && j < |s.hist.startedAt| && s.hist.startedAt[i] == s.hist.startedAt[j]
    ensures s.hist.started[i] < |s.hist.submitted| && s.hist.started[j] < |s.hist.submitted|
    ensures s.hist.submitted[s.hist.started[j]].priority <= s.hist.submitted[s.hist.started[i]].priority
  {
    StartOrder(cfg, n, steps, s);
  }

  // ---------- init_func and cleanup_func ----------

  /** In every reachable state a worker that has passed its initialization has
      run `init_func` exactly once, and no other worker of its generation has
      run it on its behalf; workers of earlier generations have run both
      functions exactly once and are gone. */
  lemma InitOnce(cfg: Config, n: nat, steps: seq<Step>, g: nat, i: nat)
    requires Valid(Init(cfg, n), steps)
    ensures var s := Final(Init(cfg, n), steps);
      && s.hist.inits[(g, i)] <= 1 && s.hist.cleanups[(g, i)] <= s.hist.inits[(g, i)]
      && (i < |s.workers| && s.workers[i] != Unborn && s.workers[i] != Spawned ==>
            s.hist.inits[(|s.hist.sizes|, i)] == 1)
      && (1 <= g < |s.hist.sizes| && i < s.hist.sizes[g - 1] ==>
            s.hist.inits[(g, i)] == 1 && s.hist.cleanups[(g, i)] == 1)
  {
    Reachable(cfg, n, steps);
    var s := Final(Init(cfg, n), steps);
    assert s.hist.inits[(g, i)] == InitsDue(s.hist.sizes, s.workers, g, i);
    assert s.hist.cleanups[(g, i)] == CleanupsDue(s.hist.sizes, s.workers, g, i);
    assert s.hist.inits[(|s.hist.sizes|, i)] == InitsDue(s.hist.sizes, s.workers, |s.hist.sizes|, i);
  }

  // ---------- A task that waits for its own pool ----------

  lemma SelfWaitBlocked(s: Pool, k: nat)
    requires Inv(s) && k in s.waiters && s.waiters[k].host.ByTask?
    ensures !WaitDone(s)
  {
    SumZero(Counted, s.workers);
    assert Counted(s.workers[s.waiters[k].host.i]) == 1;
  }

  lemma SelfWaitOther(s: Pool, k': nat, step: WaitStep, k: nat)
    requires Inv(s) && WaitEnabled(s, k', step) && k in s.waiters && s.waiters[k].host.ByTask? && !s.waiters[k].timed
    requires !WaitDone(s)
    ensures var t := ApplyWait(s, k', step);
      k in t.waiters && t.waiters[k].host == s.waiters[k].host && !t.waiters[k].timed
  {
  }

  lemma SelfWaitControl(s: Pool, k': nat, k: nat)
    requires ControlEnabled(s, k') && k in s.waiters && !WaitDone(s)
    ensures var t := ControlStep(s, k'); k in t.waiters && t.waiters[k] == s.waiters[k]
  {
  }

  lemma ClientWaiters(s: Pool, step: ClientStep)
    requires ClientEnabled(s, step)
    ensures ApplyClient(s, step).waiters == s.waiters
  {
  }

  lemma SelfWaitStep(s: Pool, step: Step, k: nat)
    requires Inv(s) && Enabled(s, step) && k in s.waiters && s.waiters[k].host.ByTask? && !s.waiters[k].timed
    ensures var t := Apply(s, step);
      k in t.waiters && t.waiters[k].host == s.waiters[k].host && !t.waiters[k].timed
  {
    SelfWaitBlocked(s, k);
    match step
    case Client(op) => ClientWaiters(s, op);
    case Wait(k', op) => SelfWaitOther(s, k', op, k);
    case Work(i, op) => var q := WorkerEffect(s, i, op);
    case Control(k') => SelfWaitControl(s, k', k);
  }

  /** A task that enters `wait()` on its own pool stays there in every state that
      follows, and the predicate it waits for is false in all of them. */
  lemma {:induction false} SelfWaitForever(s: Pool, steps: seq<Step>, k: nat)
    requires Inv(s) && Valid(s, steps) && k in s.waiters && s.waiters[k].host.ByTask? && !s.waiters[k].timed
    ensures var t := Final(s, steps);
      k in t.waiters && t.waiters[k].host == s.waiters[k].host && !WaitDone(t)
    decreases |steps|
  {
    if steps == [] {
      SelfWaitBlocked(s, k);
    } else {
      KeepInv(s, steps[0]);
      SelfWaitStep(s, steps[0], k);
      SelfWaitForever(Apply(s, steps[0]), steps[1..], k);
    }
  }

  /** With `wait_deadlock_checks` the call throws without touching the pool, and
      no reachable state has a task waiting for its own pool; without it, entering
      makes the task such a waiter. */
  lemma SelfWaitRejected(s: Pool, k: nat, timed: bool, i: nat)
    requires Inv(s) && Enabled(s, Wait(k, Enter(timed, ByTask(i))))
    ensures var t := Apply(s, Wait(k, Enter(timed, ByTask(i))));
      && (s.cfg.deadlockChecks <==> t == s)
      && (s.cfg.deadlockChecks <==> !Hosting(t, i))
  {
    SumZero(Counted, s.workers);
    assert Counted(s.workers[i]) == 1;
    var t := Apply(s, Wait(k, Enter(timed, ByTask(i))));
    if !s.cfg.deadlockChecks { assert t.waiters[k].host == ByTask(i); }
  }
}
