/** What the functions of the pool promise, about the states and runs of the
    protocol: the lemmas from which the methods of `ThreadPool` are proved. */
module PoolContracts {
  import opened PoolModel
  import opened PoolCounts
  import opened PoolHistory
  import opened PoolCalls
  import opened PoolSafety
  import opened PoolReset
  import opened PoolFutures
  import opened PoolThreads

  // ---------- wait() ----------

  lemma WaitCompletes(s: Pool)
    requires Reached(s) && WaitDone(s)
    ensures Completed(s)
  {
    ReachedInv(s);
    DoneCompletes(s);
  }

  /** A run from `s` through a state `u` in which `wait()` returned: what was
      submitted before that is finished or purged in the end, unless the pool was
      paused then, and what was started before the run has finished. */
  lemma WaitedFor(s: Pool, a: seq<Step>, u: Pool, b: seq<Step>, t: Pool)
    requires Reached(s) && Ran(s, a, u) && Ran(u, b, t) && Completed(u)
    ensures s.hist.submitted <= u.hist.submitted
    ensures !u.paused ==>
        forall id: nat :: id < |u.hist.submitted| ==> multiset(t.hist.finished)[id] + t.hist.purged[id] == 1
    ensures !s.cfg.pause ==>
        forall id: nat :: id < |s.hist.submitted| ==> multiset(t.hist.finished)[id] + t.hist.purged[id] == 1
    ensures forall id :: id in s.hist.started ==> id in t.hist.finished
  {
    ReachedOn(s, a, u);
    ReachedInv(u);
    ConfigKept(s, a);
    LogsGrow(s, a);
    StaysComplete(u, b, t);
  }

  /** The run of a function that begins with one step, passes `u`, and may end with
      one more part. */
  lemma ThroughWait(s: Pool, first: Step, mid: seq<Step>, m: nat, u: Pool, t: Pool, last: seq<Step>, v: Pool)
    requires Enabled(s, first) && m <= |mid| && Ran(Apply(s, first), mid[..m], u) && Ran(u, mid[m..], t)
    requires Ran(t, last, v)
    ensures var run := [first] + mid + last;
      Ran(s, run, v) && m + 1 <= |run| && Ran(s, run[..m + 1], u) && Ran(u, run[m + 1..], v)
  {
    var run := [first] + mid + last;
    RunOne(s, first);
    RunConcat(s, [first], Apply(s, first), mid[..m], u);
    RunConcat(u, mid[m..], t, last, v);
    assert run[..m + 1] == [first] + mid[..m] && run[m + 1..] == mid[m..] + last;
    RunConcat(s, run[..m + 1], u, run[m + 1..], v);
    assert run[..m + 1] + run[m + 1..] == run;
  }

  /** Both, for a run through the state `u`. */
  lemma ThroughReset(s: Pool, first: Step, mid: seq<Step>, m: nat, u: Pool, t: Pool, last: seq<Step>, v: Pool)
    requires Reached(s) && Enabled(s, first) && m <= |mid| && Completed(u)
    requires Ran(Apply(s, first), mid[..m], u) && Ran(u, mid[m..], t) && Ran(t, last, v)
    ensures var run := [first] + mid + last;
      Ran(s, run, v) && m + 1 <= |run| && Ran(s, run[..m + 1], u) && Ran(u, run[m + 1..], v)
    ensures !s.cfg.pause ==>
        forall id: nat :: id < |s.hist.submitted| ==> multiset(v.hist.finished)[id] + v.hist.purged[id] == 1
    ensures forall id :: id in s.hist.started ==> id in v.hist.finished
  {
    var run := [first] + mid + last;
    ThroughWait(s, first, mid, m, u, t, last, v);
    WaitedFor(s, run[..m + 1], u, run[m + 1..], v);
  }

  /** Every worker of the current generation has been initialized and cleaned up once. */
  ghost predicate AllCleanedUp(s: Pool) {
    forall i: nat :: i < |s.workers| ==>
      s.hist.inits[(|s.hist.sizes|, i)] == 1 && s.hist.cleanups[(|s.hist.sizes|, i)] == 1
  }

  // ---------- Steps that the class takes ----------

  lemma Follows(s: Pool, step: Step)
    requires Reached(s) && Enabled(s, step)
    ensures Reached(Apply(s, step))
  {
    Stepped(s, step);
  }

  lemma AppendStep(s: Pool, c: nat)
    requires Reached(s) && !Destroying(s.ctl) && ClientEnabled(s, DetachNext(c))
    ensures ApplyClient(s, DetachNext(c)) == Detach(s, c) && Reached(Detach(s, c)) && At(Notifier(c), Detach(s, c))
  {
    Follows(s, Client(DetachNext(c)));
  }

  lemma TopStep(s: Pool, i: nat, pick: nat)
    requires Reached(s) && WorkerEnabled(s, i, Top(pick))
    ensures ApplyWorker(s, i, Top(pick)) == TestPredicate(Decrement(s), i, pick)
    ensures Reached(TestPredicate(Decrement(s), i, pick))
  {
    Follows(s, Work(i, Top(pick)));
  }

  lemma UnpauseStep(s: Pool)
    requires Reached(s) && ClientEnabled(s, Unpause)
    ensures Reached(s.(paused := false, pendingAll := s.pendingAll + 1))
    ensures ApplyClient(s, Unpause) == s.(paused := false, pendingAll := s.pendingAll + 1)
  {
    Follows(s, Client(Unpause));
  }

  lemma NotifyAllStep(s: Pool)
    requires Reached(s) && s.pendingAll > 0
    ensures Reached(s.(pendingAll := s.pendingAll - 1, workers := WakeAll(s.workers)))
    ensures ApplyClient(s, NotifyAll) == s.(pendingAll := s.pendingAll - 1, workers := WakeAll(s.workers))
  {
    Follows(s, Client(NotifyAll));
  }

  lemma PurgeStep(s: Pool)
    requires Reached(s) && s.ctl != Dead
    ensures var t := s.(tasks := [], hist := s.hist.(purged := s.hist.purged + multiset(s.tasks)));
      ApplyClient(s, Purge) == t && Reached(t)
  {
    Follows(s, Client(Purge));
  }

  lemma ResetStep(s: Pool, n: nat)
    requires Reached(s) && s.ctl == Idle
    ensures ApplyClient(s, BeginReset(n)) == StartReset(s, n) && Reached(StartReset(s, n))
    ensures s.cfg.pause || !s.paused
  {
    Follows(s, Client(BeginReset(n)));
    ReachedInv(s);
  }

  lemma InitStep(s: Pool, i: nat)
    requires Reached(s) && WorkerEnabled(s, i, RunInit)
    ensures var t := s.(workers := s.workers[i := LoopTop],
                        hist := s.hist.(inits := s.hist.inits + multiset{(|s.hist.sizes|, i)}));
      ApplyWorker(s, i, RunInit) == t && Reached(t)
  {
    Follows(s, Work(i, RunInit));
  }

  lemma CleanupStep(s: Pool, i: nat)
    requires Reached(s) && WorkerEnabled(s, i, RunCleanup)
    ensures var t := s.(workers := s.workers[i := Stopped],
                        hist := s.hist.(cleanups := s.hist.cleanups + multiset{(|s.hist.sizes|, i)}));
      ApplyWorker(s, i, RunCleanup) == t && Reached(t)
  {
    Follows(s, Work(i, RunCleanup));
  }

  lemma ReturnStep(s: Pool, i: nat, o: Outcome)
    requires Reached(s) && WorkerEnabled(s, i, Return(o))
    ensures var id := s.workers[i].id;
      var t := s.(workers := s.workers[i := LoopTop],
                  hist := s.hist.(finished := s.hist.finished + [id], outcomes := s.hist.outcomes[id := o]));
      ApplyWorker(s, i, Return(o)) == t && Reached(t)
  {
    Follows(s, Work(i, Return(o)));
  }

  // ---------- The worker ----------

  /** Where a worker is while it waits for work, and after it. */
  predicate Waking(p: Pc) {
    p == Asleep || p == Notified || p.Running? || p == Leaving
  }

  /** A worker that leaves the mutex sleeps, leaves, or has a task. */
  lemma WorkerBusy(s: Pool, i: nat, step: PoolModel.WorkerStep)
    requires Reached(s) && WorkerEnabled(s, i, step) && (step.Top? || step.Resume?)
    ensures var t := ApplyWorker(s, i, step);
      i < |t.workers| && Waking(t.workers[i]) && t.hist.sizes == s.hist.sizes
  {
    var q := WorkerEffect(s, i, step);
  }

  /** What is queued was submitted. */
  lemma QueueBounded(s: Pool)
    requires Reached(s)
    ensures forall q :: 0 <= q < |s.tasks| ==> s.tasks[q] < |s.hist.submitted|
  {
    ReachedInv(s);
  }

  /** A running task was submitted and has no outcome yet. */
  lemma NotBefore(s: Pool, i: nat)
    requires Reached(s) && i < |s.workers| && s.workers[i].Running?
    ensures s.workers[i].id < |s.hist.submitted| && s.workers[i].id !in s.hist.outcomes
  {
    ReachedInv(s);
    RunningOnce(s, i);
  }

  /** The tasks `ran` are different ones, and ended as `task` says. */
  ghost predicate RanAs(ran: seq<nat>, task: Job -> Outcome, h: History) {
    && (forall j, k :: 0 <= j < k < |ran| ==> ran[j] != ran[k])
    && forall j :: 0 <= j < |ran| ==>
         ran[j] < |h.submitted| && ran[j] in h.outcomes && h.outcomes[ran[j]] == task(h.submitted[ran[j]])
  }

  lemma RanMore(ran: seq<nat>, task: Job -> Outcome, before: History, h: History, id: nat)
    requires RanAs(ran, task, before) && id !in before.outcomes && RanAs(ran, task, h)
    requires id < |h.submitted| && id in h.outcomes && h.outcomes[id] == task(h.submitted[id])
    ensures RanAs(ran + [id], task, h)
  {
  }

  lemma RanStays(ran: seq<nat>, task: Job -> Outcome, s: Pool, steps: seq<Step>)
    requires Reached(s) && PoolModel.Valid(s, steps) && RanAs(ran, task, s.hist)
    ensures RanAs(ran, task, Final(s, steps).hist)
  {
    ReachedInv(s);
    forall j | 0 <= j < |ran| ensures Kept(s.hist, Final(s, steps).hist, ran[j]) {
      FutureStays(s, steps, ran[j]);
    }
  }

  lemma CleanedUp(s: Pool, i: nat)
    requires Reached(s) && i < |s.workers| && s.workers[i] == Stopped
    ensures s.hist.inits[(|s.hist.sizes|, i)] == 1 && s.hist.cleanups[(|s.hist.sizes|, i)] == 1
  {
    ReachedInv(s);
  }

  /** The step is the end of a task of worker `i`. */
  predicate Ends(i: nat, step: Step) {
    step.Work? && step.i == i && step.kop.Return?
  }

  /** The tasks that worker `i` ends in the run, in order. */
  ghost function EndedBy(i: nat, s: Pool, steps: seq<Step>): seq<nat>
    requires PoolModel.Valid(s, steps)
    decreases |steps|
  {
    if steps == [] then []
    else (if Ends(i, steps[0]) then [s.workers[i].id] else []) + EndedBy(i, Apply(s, steps[0]), steps[1..])
  }

  /** `steps` leads from `s` to `t`, and the tasks that worker `i` ends are `ids`. */
  ghost predicate Did(i: nat, s: Pool, steps: seq<Step>, t: Pool, ids: seq<nat>) {
    Ran(s, steps, t) && EndedBy(i, s, steps) == ids
  }

  lemma {:induction false} DidConcat(i: nat, s: Pool, a: seq<Step>, t: Pool, ids: seq<nat>, b: seq<Step>, u: Pool,
      more: seq<nat>)
    requires Did(i, s, a, t, ids) && Did(i, t, b, u, more)
    ensures Did(i, s, a + b, u, ids + more)
    decreases |a|
  {
    RunConcat(s, a, t, b, u);
    if a == [] {
      assert a + b == b && ids + more == more;
    } else {
      assert (a + b)[0] == a[0] && (a + b)[1..] == a[1..] + b;
      var rest := EndedBy(i, Apply(s, a[0]), a[1..]);
      DidConcat(i, Apply(s, a[0]), a[1..], t, rest, b, u, more);
      var first := if Ends(i, a[0]) then [s.workers[i].id] else [];
      assert (first + rest) + more == first + (rest + more);
    }
  }

  lemma DidStep(i: nat, s: Pool, step: Step)
    requires Enabled(s, step)
    ensures Did(i, s, [step], Apply(s, step), if Ends(i, step) then [s.workers[i].id] else [])
  {
    RunOne(s, step);
    assert [step][0] == step && [step][1..] == [];
    assert EndedBy(i, Apply(s, step), []) == [];
  }

  lemma DidThen(i: nat, s: Pool, a: seq<Step>, t: Pool, ids: seq<nat>, step: Step)
    requires Did(i, s, a, t, ids) && Enabled(t, step)
    ensures Did(i, s, a + [step], Apply(t, step), ids + (if Ends(i, step) then [t.workers[i].id] else []))
  {
    DidStep(i, t, step);
    DidConcat(i, s, a, t, ids, [step], Apply(t, step), if Ends(i, step) then [t.workers[i].id] else []);
  }

  lemma {:induction false} OthersEndNothing(i: nat, s: Pool, steps: seq<Step>)
    requires PoolModel.Valid(s, steps) && ByOthers(Worker(i), s, steps)
    ensures EndedBy(i, s, steps) == []
    decreases |steps|
  {
    if steps == [] {
    } else {
      OthersEndNothing(i, Apply(s, steps[0]), steps[1..]);
    }
  }

  // ---------- The controlling thread ----------

  /** A step of the controlling thread from one phase to the next one. */
  lemma PhaseStep(s: Pool, k: nat)
    requires Reached(s) && ControlEnabled(s, k) && k !in s.waiters
    requires s.ctl.phase == Create || (s.ctl.phase.Spawn? && s.ctl.phase.next < |s.workers|)
      || s.ctl.phase == StopFlag || s.ctl.phase == StopNotify || (s.ctl.phase.Join? && s.ctl.phase.next < |s.workers|)
    ensures Reached(ControlStep(s, k)) && At(Controller(k), ControlStep(s, k))
  {
    Follows(s, Control(k));
  }

  /** `run` leads from `s` to `t` without restoring `paused`. */
  ghost predicate Steered(s: Pool, run: seq<Step>, t: Pool) {
    Ran(s, run, t) && BeforeRestore(s, run)
  }

  lemma SteeredOn(s: Pool, a: seq<Step>, t: Pool, b: seq<Step>, u: Pool)
    requires Steered(s, a, t) && Steered(t, b, u)
    ensures Steered(s, a + b, u)
  {
    BeforeRestoreConcat(s, a, t, b, u);
  }

  lemma OwnStep(s: Pool, run: seq<Step>, t: Pool, step: Step)
    requires Steered(s, run, t) && Enabled(t, step) && !(step.Control? && t.ctl.phase == Restore)
    ensures Steered(s, run + [step], Apply(t, step))
  {
    RunOne(t, step);
    assert [step][0] == step && [step][1..] == [];
    assert BeforeRestore(Apply(t, step), []);
    SteeredOn(s, run, t, [step], Apply(t, step));
  }

  lemma ControlThen(s: Pool, run: seq<Step>, t: Pool, k: nat)
    requires Steered(s, run, t) && ControlEnabled(t, k) && t.ctl.phase != Restore
    ensures Steered(s, run + [Control(k)], ControlStep(t, k))
  {
    OwnStep(s, run, t, Control(k));
  }

  lemma ControlOne(s: Pool, k: nat)
    requires ControlEnabled(s, k) && s.ctl.phase != Restore
    ensures Steered(s, [Control(k)], ControlStep(s, k))
  {
    assert Steered(s, [], s);
    ControlThen(s, [], s, k);
    assert [] + [Control(k)] == [Control(k)];
  }

  /** From `start`, where the threads are counted, `i` of them have been created. */
  ghost predicate SpawnedTo(start: Pool, run: seq<Step>, s: Pool, i: nat) {
    && Steered(start, run, s) && start.ctl.Active?
    && s.ctl == start.ctl.(phase := Spawn(i)) && i <= |s.workers| == |start.workers|
    && s.workersRunning == start.workersRunning && s.hist.sizes == start.hist.sizes
  }

  lemma SpawnedOneMore(start: Pool, run: seq<Step>, s: Pool, i: nat, more: seq<Step>, t: Pool)
    requires SpawnedTo(start, run, s, i) && i < |s.workers| && SpawnedTo(s, more, t, i + 1)
    ensures SpawnedTo(start, run + more, t, i + 1)
  {
    SteeredOn(start, run, s, more, t);
  }

  lemma Retested(s: Pool, k: nat)
    requires WaitEnabled(s, k, Retest) && s.waiters[k].host != ByController
    ensures var t := ApplyWait(s, k, Retest);
      if WaitDone(s) then k !in t.waiters && WaitDone(t) else Stays(Sleeper(k), s, t)
  {
  }

  /** The controlling thread is a waiter while it is inside `wait()`. */
  lemma ControllerInside(s: Pool, k: nat)
    requires Reached(s) && s.ctl.Active? && s.ctl.phase == InWait(k)
    ensures k in s.waiters && s.waiters[k].host == ByController
  {
    ReachedInv(s);
  }

  lemma ControllerRetested(s: Pool, k: nat)
    requires Reached(s) && s.ctl.Active? && s.ctl.phase == InWait(k) && WaitEnabled(s, k, Retest)
    ensures var t := ApplyWait(s, k, Retest);
      && t.hist.sizes == s.hist.sizes && |t.workers| == |s.workers|
      && if WaitDone(s) then k !in t.waiters && WaitDone(t) && t.ctl == s.ctl.(phase := StopFlag)
         else At(Controller(k), t) && t.ctl == s.ctl
  {
    ControllerInside(s, k);
    WaitEffect(s, k, Retest);
  }

  lemma AllBorn(s: Pool)
    requires Reached(s) && !(s.ctl.Active? && s.ctl.phase.Spawn?)
    ensures None(s.workers, Unborn)
  {
    ReachedInv(s);
  }

  /** While the workers are being stopped, no task is started and none discarded. */
  ghost predicate HoldingBack(start: Pool, run: seq<Step>, s: Pool) {
    && Steered(start, run, s) && Reached(s)
    && (run != [] ==> !s.workersRunning)
    && s.hist.started == start.hist.started && (NoPurge(run) ==> Held(start, s))
  }

  lemma NothingYet(s: Pool)
    requires Reached(s)
    ensures HoldingBack(s, [], s)
  {
    assert Steered(s, [], s);
    assert s.tasks + Upto(|s.hist.submitted|)[|s.hist.submitted|..] == s.tasks;
  }

  lemma HeldSame(start: Pool, s: Pool, t: Pool)
    requires Held(start, s)
    requires t.hist.started == s.hist.started && t.tasks == s.tasks && t.hist.submitted == s.hist.submitted
    ensures Held(start, t)
  {
  }

  lemma NoPurgeParts(a: seq<Step>, b: seq<Step>)
    requires NoPurge(a + b)
    ensures NoPurge(a) && NoPurge(b)
  {
    forall j | 0 <= j < |a| ensures a[j] != Client(Purge) { assert (a + b)[j] == a[j]; }
    forall j | 0 <= j < |b| ensures b[j] != Client(Purge) { assert (a + b)[|a| + j] == b[j]; }
  }

  lemma StopTook(start: Pool, run: seq<Step>, s: Pool, k: nat)
    requires HoldingBack(start, run, s) && ControlEnabled(s, k)
    requires s.ctl.phase == StopFlag || s.ctl.phase == StopNotify || s.ctl.phase.Join?
    requires run == [] ==> s.ctl.phase == StopFlag
    ensures HoldingBack(start, run + [Control(k)], ControlStep(s, k))
  {
    Follows(s, Control(k));
    ControlThen(start, run, s, k);
    ControlEffect(s, k);
    StillStopped(s, k);
    if NoPurge(run + [Control(k)]) {
      NoPurgeParts(run, [Control(k)]);
      HeldSame(start, s, ControlStep(s, k));
    }
  }

  lemma StillStopped(s: Pool, k: nat)
    requires ControlEnabled(s, k) && (s.ctl.phase == StopFlag || s.ctl.phase == StopNotify || s.ctl.phase.Join?)
    requires s.workersRunning ==> s.ctl.phase == StopFlag
    ensures !ControlStep(s, k).workersRunning
  {
  }

  lemma StopFollowed(start: Pool, run: seq<Step>, s: Pool, k: nat, others: seq<Step>, t: Pool)
    requires HoldingBack(start, run, s) && run != [] && At(Controller(k), s)
    requires Ran(s, others, t) && ByOthers(Controller(k), s, others) && t.workersRunning == s.workersRunning
    ensures HoldingBack(start, run + others, t)
  {
    OthersBeforeRestore(k, s, others);
    SteeredOn(start, run, s, others, t);
    ReachedOn(s, others, t);
    ReachedInv(s);
    OthersFrozen(k, s, others);
    FrozenRun(s, others);
    if NoPurge(run + others) {
      NoPurgeParts(run, others);
      HeldTransitive(start, s, t);
    }
  }

  /** All threads are joined. */
  lemma AllStopped(s: Pool)
    requires Reached(s) && s.ctl.Active? && s.ctl.phase == Join(|s.workers|)
    ensures All(s.workers, Stopped) && s.tasksRunning == 0 && AllCleanedUp(s)
  {
    ReachedInv(s);
    SumZero(Counted, s.workers);
    forall i: nat | i < |s.workers|
      ensures s.hist.inits[(|s.hist.sizes|, i)] == 1 && s.hist.cleanups[(|s.hist.sizes|, i)] == 1
    {
      CleanedUp(s, i);
    }
  }

  lemma ResetKept(s: Pool, n: nat, mid: seq<Step>, t: Pool, k: nat, run: seq<Step>)
    requires Reached(s) && s.cfg.pause && s.ctl == Idle && Steered(StartReset(s, n), mid, t)
    requires t.ctl.Active? && t.ctl.phase == Restore
    requires run == [Client(BeginReset(n))] + mid + [Control(k)]
    ensures NoUnpause(run) ==>
        var u := ControlStep(t, k);
        u.hist.started == s.hist.started && (NoPurge(run) ==> Held(s, u))
  {
    ReachedInv(s);
    assert forall j :: 0 <= j < |mid| ==> run[j + 1] == mid[j];
    if NoUnpause(run) {
      ResetKeepsQueue(s, n, mid, k);
    }
  }

  /** Without pausing `paused` is false. */
  lemma NeverPaused(s: Pool)
    requires Reached(s)
    ensures !s.cfg.pause ==> !s.paused
  {
    ReachedInv(s);
  }

  /** The threads that `s` had are the previous generation in `t`: each of them was
      initialized and cleaned up once. */
  ghost predicate CleanedUpBefore(s: Pool, t: Pool) {
    forall i: nat :: i < |s.workers| ==>
      t.hist.inits[(|s.hist.sizes|, i)] == 1 && t.hist.cleanups[(|s.hist.sizes|, i)] == 1
  }

  lemma OldGeneration(s: Pool, t: Pool)
    requires Reached(s) && Reached(t) && s.hist.sizes < t.hist.sizes
    ensures CleanedUpBefore(s, t)
  {
    ReachedInv(s);
    ReachedInv(t);
  }

  // ---------- Purged tasks ----------

  lemma PurgedAll(s: Pool)
    requires Reached(s) && ClientEnabled(s, Purge)
    ensures var t := ApplyClient(s, Purge);
      && (forall id: nat :: id < |t.hist.submitted| ==>
            RunningIds(t.workers)[id] + multiset(t.hist.finished)[id] + t.hist.purged[id] == 1)
      && (forall id: nat :: id in s.tasks ==> t.hist.purged[id] == 1 && id !in t.hist.started)
  {
    ReachedInv(s);
    forall id: nat
      ensures var t := ApplyClient(s, Purge);
        && (id < |t.hist.submitted| ==>
              RunningIds(t.workers)[id] + multiset(t.hist.finished)[id] + t.hist.purged[id] == 1)
        && (id in s.tasks ==> t.hist.purged[id] == 1 && id !in t.hist.started)
    {
      PurgedOne(s, id);
    }
  }

  lemma PurgedOne(s: Pool, id: nat)
    requires Inv(s) && ClientEnabled(s, Purge)
    ensures var t := ApplyClient(s, Purge);
      && (id < |t.hist.submitted| ==>
            RunningIds(t.workers)[id] + multiset(t.hist.finished)[id] + t.hist.purged[id] == 1)
      && (id in s.tasks ==> t.hist.purged[id] == 1 && id !in t.hist.started)
  {
    var t := ApplyClient(s, Purge);
    KeepInv(s, Client(Purge));
    OneEach(s, id);
    OneEach(t, id);
    assert t.hist.purged[id] == s.hist.purged[id] + multiset(s.tasks)[id];
    assert multiset(t.hist.started)[id] == (RunningIds(t.workers) + multiset(t.hist.finished))[id];
  }

  // ---------- The splitters ----------

  /** Once construction is over the pool has a thread: `thread_count` is not 0. */
  lemma SomeThread(s: Pool)
    requires Reached(s) && !(s.ctl.Active? && s.ctl.goal == Construct)
    ensures s.workers != []
  {
    ReachedInv(s);
  }

  /** What a call has announced and submitted is in the log of submitted tasks. */
  lemma SubmittedAll(s: Pool, c: nat)
    requires Reached(s) && c < |s.calls| && s.calls[c].next == |s.calls[c].jobs|
    ensures JobsOf(s.hist.submitted, c) == s.calls[c].jobs
  {
    ReachedInv(s);
    assert CallOk(s.hist.submitted, c, s.calls[c]);
  }

  // ---------- Futures ----------

  lemma FuturesCount(s: Pool, c: nat)
    requires Reached(s) && c < |s.calls|
    ensures |FuturesOf(s.hist, c)| == s.calls[c].next
  {
    ReachedInv(s);
    IdsMatchJobs(s.hist.submitted, c);
    assert CallOk(s.hist.submitted, c, s.calls[c]);
  }

  ghost predicate ValuesSoFar(fs: seq<Future>, vs: seq<int>) {
    |vs| <= |fs| && forall j :: 0 <= j < |vs| ==> HasValue(fs[j]) && vs[j] == fs[j].outcome.v
  }

  lemma ValuesStay(s: Pool, steps: seq<Step>, c: nat, vs: seq<int>)
    requires Reached(s) && PoolModel.Valid(s, steps) && ValuesSoFar(FuturesOf(s.hist, c), vs)
    requires |vs| <= |FuturesOf(Final(s, steps).hist, c)|
    ensures ValuesSoFar(FuturesOf(Final(s, steps).hist, c), vs)
  {
    ReachedInv(s);
    forall j | 0 <= j < |vs| ensures FuturesOf(Final(s, steps).hist, c)[j] == FuturesOf(s.hist, c)[j] {
      CallFutureStays(s, steps, c, j);
    }
  }

  lemma FutureLives(s: Pool, steps: seq<Step>, c: nat, k: nat)
    requires Reached(s) && PoolModel.Valid(s, steps) && k < |FuturesOf(s.hist, c)|
    ensures k < |FuturesOf(Final(s, steps).hist, c)|
  {
    ReachedInv(s);
    CallFutureStays(s, steps, c, k);
  }

  lemma StopsAt(fs: seq<Future>, k: nat, r: GetResult)
    requires k < |fs| && !HasValue(fs[k]) && forall j :: 0 <= j < k ==> HasValue(fs[j])
    requires StopsWith(fs[k], k, r)
    ensures GetSpec(fs, r)
  {
  }

  lemma SubmittedGrows(s: Pool, steps: seq<Step>)
    requires Reached(s) && PoolModel.Valid(s, steps)
    ensures s.hist.submitted <= Final(s, steps).hist.submitted
  {
    ReachedInv(s);
    FutureStays(s, steps, 0);
  }
}
