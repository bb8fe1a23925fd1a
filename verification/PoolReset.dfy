/** Resetting and destroying the pool: while the workers are held back, by a
    pause or because they are stopping, no task starts and none is lost. */
module PoolReset {
  import opened PoolModel
  import opened PoolCounts
  import opened PoolHistory
  import opened PoolSafety

  /** A state in which no worker can take a task. */
  predicate Frozen(s: Pool) {
    (s.cfg.pause && s.paused) || !s.workersRunning
  }

  ghost predicate AllFrozen(s: Pool, steps: seq<Step>)
    requires Valid(s, steps)
    decreases |steps|
  {
    steps == [] || (Frozen(s) && AllFrozen(Apply(s, steps[0]), steps[1..]))
  }

  predicate NoPurge(steps: seq<Step>) {
    forall j :: 0 <= j < |steps| ==> steps[j] != Client(Purge)
  }

  /** `t` has started what `s` has started, and queues what `s` queued followed by
      the tasks submitted since. */
  ghost predicate Held(s: Pool, t: Pool) {
    && t.hist.started == s.hist.started
    && |s.hist.submitted| <= |t.hist.submitted|
    && t.tasks == s.tasks + Upto(|t.hist.submitted|)[|s.hist.submitted|..]
  }

  lemma HeldTransitive(s: Pool, t: Pool, u: Pool)
    requires Held(s, t) && Held(t, u)
    ensures Held(s, u)
  {
    var a, b, c := |s.hist.submitted|, |t.hist.submitted|, |u.hist.submitted|;
    assert Upto(c)[a..] == Upto(b)[a..] + Upto(c)[b..];
  }

  lemma FrozenWork(s: Pool, i: nat, step: WorkerStep)
    requires Frozen(s) && WorkerEnabled(s, i, step)
    ensures var t := ApplyWorker(s, i, step);
      t.hist.started == s.hist.started && t.tasks == s.tasks && t.hist.submitted == s.hist.submitted
  {
  }

  lemma FrozenClient(s: Pool, step: ClientStep)
    requires ClientEnabled(s, step)
    ensures ApplyClient(s, step).hist.started == s.hist.started
    ensures step != Purge ==> Held(s, ApplyClient(s, step))
  {
    var n := |s.hist.submitted|;
    assert Upto(n + 1)[n..] == [n];
    assert s.tasks + Upto(n)[n..] == s.tasks;
  }

  lemma FrozenStep(s: Pool, step: Step)
    requires Frozen(s) && Enabled(s, step)
    ensures Apply(s, step).hist.started == s.hist.started
    ensures step != Client(Purge) ==> Held(s, Apply(s, step))
  {
    match step
    case Client(op) => FrozenClient(s, op);
    case Wait(k, op) => WaitEffect(s, k, op);
    case Work(i, op) => FrozenWork(s, i, op);
    case Control(k) => ControlEffect(s, k);
  }

  lemma {:induction false} FrozenRun(s: Pool, steps: seq<Step>)
    requires Valid(s, steps) && AllFrozen(s, steps)
    ensures Final(s, steps).hist.started == s.hist.started
    ensures NoPurge(steps) ==> Held(s, Final(s, steps))
    decreases |steps|
  {
    if steps == [] {
      assert s.tasks + Upto(|s.hist.submitted|)[|s.hist.submitted|..] == s.tasks;
    } else {
      var t := Apply(s, steps[0]);
      FrozenStep(s, steps[0]);
      FrozenRun(t, steps[1..]);
      if NoPurge(steps) {
        assert forall j :: 0 <= j < |steps[1..]| ==> steps[1..][j] == steps[j + 1];
        HeldTransitive(s, t, Final(t, steps[1..]));
      }
    }
  }

  // ---------- pause() ----------

  /** The step clears `paused`: `unpause`, or the end of a reset of a pool that was
      not paused. */
  predicate Unpauses(s: Pool, step: Step) {
    step == Client(Unpause) || (step.Control? && s.ctl.Active? && s.ctl.phase == Restore && !s.ctl.wasPaused)
  }

  ghost predicate NeverUnpaused(s: Pool, steps: seq<Step>)
    requires Valid(s, steps)
    decreases |steps|
  {
    steps == [] || (!Unpauses(s, steps[0]) && NeverUnpaused(Apply(s, steps[0]), steps[1..]))
  }

  lemma PausedStep(s: Pool, step: Step)
    requires s.cfg.pause && s.paused && Enabled(s, step) && !Unpauses(s, step)
    ensures Apply(s, step).cfg.pause && Apply(s, step).paused
  {
    match step
    case Client(op) =>
    case Wait(k, op) => WaitEffect(s, k, op);
    case Work(i, op) => var q := WorkerEffect(s, i, op);
    case Control(k) => ControlEffect(s, k);
  }

  lemma {:induction false} PausedRun(s: Pool, steps: seq<Step>)
    requires s.cfg.pause && s.paused && Valid(s, steps) && NeverUnpaused(s, steps)
    ensures AllFrozen(s, steps) && Final(s, steps).cfg.pause && Final(s, steps).paused
    decreases |steps|
  {
    if steps == [] {
    } else {
      PausedStep(s, steps[0]);
      PausedRun(Apply(s, steps[0]), steps[1..]);
    }
  }

  /** A step that asks for a paused pool. */
  predicate AsksForPause(step: Step) {
    step.Client? && (step.op.Pause? || step.op.BeginReset?)
  }

  predicate Unasked(s: Pool) {
    !s.paused && (s.ctl.Active? ==> s.ctl.goal != Goal.Reset && !s.ctl.wasPaused)
  }

  lemma UnaskedStep(s: Pool, step: Step)
    requires Unasked(s) && Enabled(s, step) && !AsksForPause(step)
    ensures Unasked(Apply(s, step))
  {
    match step
    case Client(op) =>
    case Wait(k, op) => WaitEffect(s, k, op);
    case Work(i, op) => var q := WorkerEffect(s, i, op);
    case Control(k) => ControlEffect(s, k);
  }

  lemma {:induction false} UnaskedRun(s: Pool, steps: seq<Step>)
    requires Unasked(s) && Valid(s, steps) && forall j :: 0 <= j < |steps| ==> !AsksForPause(steps[j])
    ensures Unasked(Final(s, steps))
    decreases |steps|
  {
    if steps == [] {
    } else {
      UnaskedStep(s, steps[0]);
      UnaskedRun(Apply(s, steps[0]), steps[1..]);
    }
  }

  /** A pool begins unpaused, and is paused only if somebody has paused or reset it. */
  lemma PausedOnRequest(cfg: Config, n: nat, steps: seq<Step>, s: Pool)
    requires Ran(Init(cfg, n), steps, s) && s.paused
    ensures exists j :: 0 <= j < |steps| && steps[j].Client? && (steps[j].op.Pause? || steps[j].op.BeginReset?)
  {
    if forall j :: 0 <= j < |steps| ==> !AsksForPause(steps[j]) {
      UnaskedRun(Init(cfg, n), steps);
      assert false;
    }
  }

  /** After `pause()`, until somebody unpauses the pool: no task starts, absent a
      purge the queue only grows, and `wait()` waits for the running tasks only. */
  lemma PauseHolds(s: Pool, steps: seq<Step>)
    requires ClientEnabled(s, Pause)
    requires Valid(ApplyClient(s, Pause), steps) && NeverUnpaused(ApplyClient(s, Pause), steps)
    ensures var t := Final(ApplyClient(s, Pause), steps);
      && t.hist.started == s.hist.started
      && (NoPurge(steps) ==> Held(s, t))
      && (WaitDone(t) <==> t.tasksRunning == 0)
  {
    PausedRun(ApplyClient(s, Pause), steps);
    FrozenRun(ApplyClient(s, Pause), steps);
  }

  // ---------- reset() on a pool with pausing enabled ----------

  /** The threads a generation made by a reset to `n` threads must have. */
  function ResetSize(s: Pool, n: nat): nat {
    DetermineThreadCount(n, s.cfg.hardware)
  }

  ghost predicate Resetting(s: Pool, n: nat, wasPaused: bool, sizes: seq<nat>) {
    && s.cfg.pause && s.paused
    && s.ctl.Active? && s.ctl.goal == Reset && s.ctl.n == n && s.ctl.wasPaused == wasPaused
    && s.hist.sizes == sizes + (if s.ctl.phase.Spawn? || s.ctl.phase.Restore? then [ResetSize(s, n)] else [])
  }

  predicate NoUnpause(steps: seq<Step>) {
    forall j :: 0 <= j < |steps| ==> steps[j] != Client(Unpause)
  }

  /** No step of the run restores `paused` at the end of a reset. */
  ghost predicate BeforeRestore(s: Pool, steps: seq<Step>)
    requires Valid(s, steps)
    decreases |steps|
  {
    steps == [] ||
    (&& !(steps[0].Control? && s.ctl.Active? && s.ctl.phase == Restore)
     && BeforeRestore(Apply(s, steps[0]), steps[1..]))
  }

  lemma {:induction false} BeforeRestoreConcat(s: Pool, a: seq<Step>, t: Pool, b: seq<Step>, u: Pool)
    requires Ran(s, a, t) && Ran(t, b, u) && BeforeRestore(s, a) && BeforeRestore(t, b)
    ensures Ran(s, a + b, u) && BeforeRestore(s, a + b)
    decreases |a|
  {
    if a == [] {
      assert a + b == b;
    } else {
      assert (a + b)[0] == a[0] && (a + b)[1..] == a[1..] + b;
      BeforeRestoreConcat(Apply(s, a[0]), a[1..], t, b, u);
    }
  }

  /** A run inside a reset: nobody unpauses, and `paused` is not restored yet. */
  ghost predicate Within(s: Pool, steps: seq<Step>)
    requires Valid(s, steps)
  {
    NoUnpause(steps) && BeforeRestore(s, steps)
  }

  lemma WithinTail(s: Pool, steps: seq<Step>)
    requires steps != [] && Valid(s, steps) && Within(s, steps)
    ensures steps[0] != Client(Unpause) && !(steps[0].Control? && s.ctl.Active? && s.ctl.phase == Restore)
    ensures Within(Apply(s, steps[0]), steps[1..])
  {
    assert forall j :: 0 <= j < |steps[1..]| ==> steps[1..][j] == steps[j + 1];
  }

  lemma ResettingStep(s: Pool, step: Step, n: nat, wasPaused: bool, sizes: seq<nat>)
    requires Inv(s) && Resetting(s, n, wasPaused, sizes) && Enabled(s, step)
    requires step != Client(Unpause) && !(step.Control? && s.ctl.phase == Restore)
    ensures Resetting(Apply(s, step), n, wasPaused, sizes)
  {
    match step
    case Client(op) => ResettingClient(s, op, n, wasPaused, sizes);
    case Wait(k, op) => ResettingWait(s, k, op, n, wasPaused, sizes);
    case Work(i, op) => var q := WorkerEffect(s, i, op);
    case Control(k) => ResettingControl(s, k, n, wasPaused, sizes);
  }

  lemma ResettingClient(s: Pool, step: ClientStep, n: nat, wasPaused: bool, sizes: seq<nat>)
    requires Resetting(s, n, wasPaused, sizes) && ClientEnabled(s, step) && step != Unpause
    ensures Resetting(ApplyClient(s, step), n, wasPaused, sizes)
  {
  }

  /** A waiter moves the controlling thread from its `wait()` at most. */
  lemma ResettingCtl(s: Pool, k: nat, step: WaitStep)
    requires ControlInv(s) && s.ctl.Active? && WaitEnabled(s, k, step)
    ensures ApplyWait(s, k, step).ctl == s.ctl
      || (s.ctl.phase.InWait? && ApplyWait(s, k, step).ctl == s.ctl.(phase := StopFlag))
  {
  }

  lemma ResettingWait(s: Pool, k: nat, step: WaitStep, n: nat, wasPaused: bool, sizes: seq<nat>)
    requires Inv(s) && Resetting(s, n, wasPaused, sizes) && WaitEnabled(s, k, step)
    ensures Resetting(ApplyWait(s, k, step), n, wasPaused, sizes)
  {
    WaitEffect(s, k, step);
    ResettingCtl(s, k, step);
  }

  lemma ResettingCreate(s: Pool, n: nat, wasPaused: bool, sizes: seq<nat>)
    requires Resetting(s, n, wasPaused, sizes) && s.ctl.phase == Create
    ensures Resetting(CreateWorkers(s), n, wasPaused, sizes)
  {
  }

  lemma ResettingSpawn(s: Pool, k: nat, n: nat, wasPaused: bool, sizes: seq<nat>)
    requires Resetting(s, n, wasPaused, sizes) && s.ctl.phase.Spawn?
    ensures Resetting(ControlStep(s, k), n, wasPaused, sizes)
  {
  }

  lemma ResettingControl(s: Pool, k: nat, n: nat, wasPaused: bool, sizes: seq<nat>)
    requires Resetting(s, n, wasPaused, sizes) && ControlEnabled(s, k) && s.ctl.phase != Restore
    ensures Resetting(ControlStep(s, k), n, wasPaused, sizes)
  {
    if s.ctl.phase == Create {
      ResettingCreate(s, n, wasPaused, sizes);
    } else if s.ctl.phase.Spawn? {
      ResettingSpawn(s, k, n, wasPaused, sizes);
    }
  }

  lemma {:induction false} ResettingRun(s: Pool, steps: seq<Step>, n: nat, wasPaused: bool, sizes: seq<nat>)
    requires Inv(s) && Resetting(s, n, wasPaused, sizes) && Valid(s, steps) && Within(s, steps)
    ensures AllFrozen(s, steps) && Inv(Final(s, steps)) && Resetting(Final(s, steps), n, wasPaused, sizes)
    decreases |steps|
  {
    if steps == [] {
    } else {
      WithinTail(s, steps);
      KeepInv(s, steps[0]);
      ResettingStep(s, steps[0], n, wasPaused, sizes);
      ResettingRun(Apply(s, steps[0]), steps[1..], n, wasPaused, sizes);
    }
  }

  /** A reset of a pause-enabled pool during which nobody unpauses: from the
      moment it pauses the pool until it restores `paused`, no task starts; absent
      a purge the queue afterwards is the old queue followed by the tasks
      submitted meanwhile; `paused` is what it was; and the new generation has
      the requested number of threads. */
  lemma ResetKeepsQueue(s: Pool, n: nat, mid: seq<Step>, k: nat)
    requires Inv(s) && s.cfg.pause && s.ctl == Idle
    requires Valid(StartReset(s, n), mid) && Within(StartReset(s, n), mid)
    requires Final(StartReset(s, n), mid).ctl.Active? && Final(StartReset(s, n), mid).ctl.phase == Restore
    ensures ControlEnabled(Final(StartReset(s, n), mid), k)
    ensures var u := ControlStep(Final(StartReset(s, n), mid), k);
      && u.ctl == Idle && u.paused == s.paused
      && u.hist.started == s.hist.started
      && (NoPurge(mid) ==> Held(s, u))
      && u.hist.sizes == s.hist.sizes + [|u.workers|] && |u.workers| == ResetSize(s, n)
  {
    var t := StartReset(s, n);
    assert ClientEnabled(s, BeginReset(n)) && Apply(s, Client(BeginReset(n))) == t;
    KeepInv(s, Client(BeginReset(n)));
    ResettingRun(t, mid, n, s.paused, s.hist.sizes);
    FrozenRun(t, mid);
    ConfigKept(t, mid);
  }

  /** When a new generation of workers is created, every worker of the old one
      has stopped, after running `cleanup_func`. */
  lemma OldWorkersGone(s: Pool)
    requires Inv(s) && s.ctl.Active? && s.ctl.phase == Create
    ensures All(s.workers, Stopped) && s.tasksRunning == 0
    ensures forall i: nat :: i < |s.workers| ==> s.hist.cleanups[(|s.hist.sizes|, i)] == 1
  {
    SumZero(Counted, s.workers);
  }

  // ---------- wait() before the workers are stopped ----------

  predicate Built(ctl: Control) {
    !(ctl.Active? && ctl.goal == Construct)
  }

  /** A reset or the destructor has left its `wait()`. */
  predicate PastWait(ctl: Control) {
    ctl == Dead || (ctl.Active? && ctl.goal != Construct && ctl.phase != PreWait && !ctl.phase.InWait?)
  }

  lemma LeavesDone(s: Pool, k: nat, step: WaitStep)
    requires ControlInv(s) && WaitEnabled(s, k, step) && Built(s.ctl)
    ensures var t := ApplyWait(s, k, step);
      && Built(t.ctl) && (!PastWait(s.ctl) && PastWait(t.ctl) ==> WaitDone(t) && t.ctl.Active?)
  {
  }

  lemma BuiltControl(s: Pool, k: nat)
    requires ControlEnabled(s, k) && Built(s.ctl)
    ensures Built(ControlStep(s, k).ctl)
  {
  }

  lemma PassesDone(s: Pool, k: nat)
    requires ControlEnabled(s, k) && Built(s.ctl) && !PastWait(s.ctl)
    ensures PastWait(ControlStep(s, k).ctl) ==> WaitDone(ControlStep(s, k)) && ControlStep(s, k).ctl.Active?
  {
    assert s.ctl.phase == PreWait;
  }

  lemma WaitFirst(s: Pool, step: Step)
    requires Inv(s) && Enabled(s, step) && Built(s.ctl)
    ensures var t := Apply(s, step);
      && Built(t.ctl) && (!PastWait(s.ctl) && PastWait(t.ctl) ==> WaitDone(t) && t.ctl.Active?)
  {
    match step
    case Client(op) =>
    case Wait(k, op) => LeavesDone(s, k, op);
    case Work(i, op) => var q := WorkerEffect(s, i, op);
    case Control(k) =>
      BuiltControl(s, k);
      if !PastWait(s.ctl) { PassesDone(s, k); }
  }

  lemma WaitOrder(s: Pool, step: Step)
    requires Reached(s) && Enabled(s, step) && Built(s.ctl) && !PastWait(s.ctl)
    ensures var t := Apply(s, step);
      && Reached(t) && Built(t.ctl)
      && (PastWait(t.ctl) ==> WaitDone(t) && t.ctl.Active? && t.ctl.goal != Construct)
  {
    ReachedInv(s);
    WaitFirst(s, step);
    RunOne(s, step);
    ReachedOn(s, [step], Apply(s, step));
  }

  lemma {:induction false} PassesWait(s: Pool, steps: seq<Step>, t: Pool) returns (m: nat, u: Pool)
    requires Reached(s) && Built(s.ctl) && !PastWait(s.ctl) && Ran(s, steps, t) && PastWait(t.ctl)
    ensures m <= |steps| && Ran(s, steps[..m], u) && Ran(u, steps[m..], t)
    ensures Reached(u) && WaitDone(u) && u.ctl.Active? && u.ctl.goal != Construct
    decreases |steps|
  {
    var next := Apply(s, steps[0]);
    WaitOrder(s, steps[0]);
    if PastWait(next.ctl) {
      m, u := 1, next;
      RunOne(s, steps[0]);
      assert steps[..1] == [steps[0]];
    } else {
      m, u := PassesWait(next, steps[1..], t);
      OneBefore(s, steps, m, u, t);
      m := m + 1;
    }
  }

  lemma OneBefore(s: Pool, steps: seq<Step>, m: nat, u: Pool, t: Pool)
    requires steps != [] && Enabled(s, steps[0]) && m <= |steps| - 1
    requires Ran(Apply(s, steps[0]), steps[1..][..m], u) && Ran(u, steps[1..][m..], t)
    ensures Ran(s, steps[..m + 1], u) && Ran(u, steps[m + 1..], t)
  {
    assert steps[..m + 1][0] == steps[0] && steps[..m + 1][1..] == steps[1..][..m];
    assert steps[m + 1..] == steps[1..][m..];
  }

  lemma {:induction false} StaysBuilt(s: Pool, steps: seq<Step>)
    requires Inv(s) && Built(s.ctl) && Valid(s, steps)
    ensures Built(Final(s, steps).ctl)
    decreases |steps|
  {
    if steps == [] {
    } else {
      KeepInv(s, steps[0]);
      WaitFirst(s, steps[0]);
      StaysBuilt(Apply(s, steps[0]), steps[1..]);
    }
  }

  /** The workers are told to stop only after a `wait()`: on every run from an idle
      pool to a state in which `workers_running` is false there is a state, after a
      call of `reset` or of the destructor, with nothing running and, unless the
      pool is paused, every task submitted so far finished or purged.  They are so
      in the end too, and every task that had been started has finished. */
  lemma StopsOnlyAfterWait(cfg: Config, n: nat, past: seq<Step>, s: Pool, steps: seq<Step>, t: Pool)
      returns (m: nat, u: Pool)
    requires Ran(Init(cfg, n), past, s) && s.ctl == Idle && Ran(s, steps, t) && !t.workersRunning
    ensures m <= |steps| && Ran(s, steps[..m], u) && Ran(u, steps[m..], t)
    ensures u.ctl.Active? && (u.ctl.goal == Goal.Reset || u.ctl.goal == Goal.Destroy)
    ensures s.hist.submitted <= u.hist.submitted
    ensures u.tasksRunning == 0 && RunningIds(u.workers) == multiset{}
    ensures !u.paused ==> u.tasks == []
    ensures !u.paused ==>
        forall id: nat :: id < |u.hist.submitted| ==> multiset(t.hist.finished)[id] + t.hist.purged[id] == 1
    ensures forall id :: id in u.hist.started ==> id in t.hist.finished
  {
    Reachable(cfg, n, past);
    ConfigKept(Init(cfg, n), past);
    RunInv(s, steps);
    StaysBuilt(s, steps);
    m, u := PassesWait(s, steps, t);
    ReachedInv(u);
    DoneCompletes(u);
    LogsGrow(s, steps[..m]);
    StaysComplete(u, steps[m..], t);
  }

  // ---------- Stopping the workers ----------

  /** A run on which no new generation is created. */
  ghost predicate Stopping(s: Pool, steps: seq<Step>)
    requires Valid(s, steps)
    decreases |steps|
  {
    steps == [] ||
    (!(steps[0].Control? && s.ctl.Active? && s.ctl.phase == Create) && Stopping(Apply(s, steps[0]), steps[1..]))
  }

  lemma StoppingStep(s: Pool, step: Step)
    requires Inv(s) && !s.workersRunning && Enabled(s, step)
    requires !(step.Control? && s.ctl.Active? && s.ctl.phase == Create)
    ensures !Apply(s, step).workersRunning
  {
    match step
    case Client(op) =>
    case Wait(k, op) => WaitEffect(s, k, op);
    case Work(i, op) => var q := WorkerEffect(s, i, op);
    case Control(k) =>
  }

  lemma {:induction false} StoppingRun(s: Pool, steps: seq<Step>)
    requires Inv(s) && !s.workersRunning && Valid(s, steps) && Stopping(s, steps)
    ensures AllFrozen(s, steps) && !Final(s, steps).workersRunning
    decreases |steps|
  {
    if steps == [] {
    } else {
      KeepInv(s, steps[0]);
      StoppingStep(s, steps[0]);
      StoppingRun(Apply(s, steps[0]), steps[1..]);
    }
  }

  /** Once `workers_running` is false no further task starts until a new generation
      is created, stopping discards no queued task, and after the `notify_all` of
      `destroy_threads` no worker is asleep. */
  lemma StoppingDiscardsNothing(s: Pool, steps: seq<Step>)
    requires Inv(s) && !s.workersRunning && Valid(s, steps) && Stopping(s, steps)
    ensures var t := Final(s, steps);
      && t.hist.started == s.hist.started
      && (NoPurge(steps) ==> Held(s, t))
      && (t.ctl.Active? && t.ctl.phase.Join? ==> None(t.workers, Asleep))
  {
    StoppingRun(s, steps);
    FrozenRun(s, steps);
    RunInv(s, steps);
  }
}
