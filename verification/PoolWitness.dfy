/** Exactly when the wake-ups are kept and every call completes: the rules of
    `PoolWakeup` and `PoolCompletion` are sufficient, and for each of them, every
    configuration and every number of threads there is a run that breaks the
    property without it. */
module PoolWitness {
  import opened PoolModel
  import opened PoolCounts
  import opened PoolHistory
  import opened PoolSafety
  import opened PoolReset
  import opened PoolRules
  import opened PoolWakeup
  import opened PoolCompletion
  import opened PoolProgress

  // ---------- What the rules keep ----------

  lemma {:induction false} WakeRun(r: Rules, s: Pool, steps: seq<Step>)
    requires Inv(s) && WakeInv(s) && Valid(s, steps) && Follows(r, s, steps) && (s.cfg.pause ==> !r.resetUnpaused)
    ensures WakeInv(Final(s, steps))
    decreases |steps|
  {
    if steps == [] {
    } else {
      KeepInv(s, steps[0]);
      WakeStep(r, s, steps[0]);
      ConfigStep(s, steps[0]);
      WakeRun(r, Apply(s, steps[0]), steps[1..]);
    }
  }

  lemma {:induction false} DoneRun(r: Rules, s: Pool, steps: seq<Step>)
    requires Inv(s) && DoneInv(s) && Valid(s, steps) && Follows(r, s, steps) && Quiet(r, s.cfg)
    ensures DoneInv(Final(s, steps))
    decreases |steps|
  {
    if steps == [] {
    } else {
      KeepInv(s, steps[0]);
      DoneStep(r, s, steps[0]);
      ConfigStep(s, steps[0]);
      DoneRun(r, Apply(s, steps[0]), steps[1..]);
    }
  }

  lemma {:induction false} NoSelfWaitRun(r: Rules, s: Pool, steps: seq<Step>)
    requires NoSelfWaits(s.waiters) && Valid(s, steps) && Follows(r, s, steps) && !r.selfWait
    requires Inv(s)
    ensures NoSelfWaits(Final(s, steps).waiters)
    decreases |steps|
  {
    if steps == [] {
    } else {
      KeepInv(s, steps[0]);
      NoSelfWait(r, s, steps[0]);
      NoSelfWaitRun(r, Apply(s, steps[0]), steps[1..]);
    }
  }

  lemma ReachedInvariant(r: Rules, cfg: Config, n: nat, s: Pool)
    requires ReachedUnder(r, cfg, n, s)
    ensures Inv(s) && s.cfg == cfg
    ensures (cfg.pause ==> !r.resetUnpaused) ==> WakeInv(s)
    ensures Quiet(r, cfg) ==> DoneInv(s)
    ensures !r.selfWait ==> NoSelfWaits(s.waiters)
  {
    var steps :| Ran(Init(cfg, n), steps, s) && Follows(r, Init(cfg, n), steps);
    GoodInit(cfg, n);
    Reachable(cfg, n, steps);
    ConfigKept(Init(cfg, n), steps);
    if cfg.pause ==> !r.resetUnpaused { WakeRun(r, Init(cfg, n), steps); }
    if Quiet(r, cfg) { DoneRun(r, Init(cfg, n), steps); }
    if !r.selfWait { NoSelfWaitRun(r, Init(cfg, n), steps); }
  }

  /** The threads of the pool go on by themselves until none can move. */
  lemma GoesOn(r: Rules, cfg: Config, n: nat, hold: bool, s: Pool) returns (steps: seq<Step>, t: Pool)
    requires ReachedUnder(r, cfg, n, s)
    ensures Ran(s, steps, t) && Inside(hold, s, steps) && Still(hold, t) && ReachedUnder(r, cfg, n, t)
  {
    ReachedInvariant(r, cfg, n, s);
    steps := ComesToRest(hold, s);
    t := Final(s, steps);
    InsideUndisturbed(hold, s, steps);
    UndisturbedFollows(r, s, steps);
    ExtendRun(r, cfg, n, s, steps, t);
  }

  // ---------- A pool that has just been constructed ----------

  /** Nothing has been asked of the pool but to construct it. */
  ghost predicate Fresh(s: Pool) {
    && !s.paused && !s.waiting && s.calls == [] && s.hist.submitted == [] && s.waiters == map[]
    && (s.ctl == Idle || (s.ctl.Active? && s.ctl.goal == Construct))
  }

  lemma FreshControl(s: Pool, k: nat)
    requires ControlInv(s) && Fresh(s) && ControlEnabled(s, k)
    ensures Fresh(ControlStep(s, k))
  {
  }

  lemma FreshStep(s: Pool, step: Step)
    requires Inv(s) && Fresh(s) && Enabled(s, step) && Internal(step)
    ensures Fresh(Apply(s, step))
  {
    match step
    case Client(op) =>
    case Wait(k, op) =>
    case Work(i, op) => var q := WorkerEffect(s, i, op);
    case Control(k) => FreshControl(s, k);
  }

  lemma {:induction false} FreshRun(s: Pool, steps: seq<Step>)
    requires Inv(s) && Fresh(s) && Valid(s, steps) && Inside(false, s, steps)
    ensures Fresh(Final(s, steps))
    decreases |steps|
  {
    if steps == [] {
    } else {
      KeepInv(s, steps[0]);
      FreshStep(s, steps[0]);
      FreshRun(Apply(s, steps[0]), steps[1..]);
    }
  }

  /** All its threads sleep on an empty queue. */
  ghost predicate Booted(s: Pool) {
    && Fresh(s) && s.ctl == Idle && s.tasks == [] && s.tasksRunning == 0 && s.pendingOne == 0 && s.pendingAll == 0
    && s.workersRunning && s.workers != [] && All(s.workers, Asleep)
  }

  lemma Boot(r: Rules, cfg: Config, n: nat) returns (b: Pool)
    ensures ReachedUnder(r, cfg, n, b) && Booted(b) && b.cfg == cfg
  {
    Start(r, cfg, n);
    GoodInit(cfg, n);
    var steps;
    steps, b := GoesOn(r, cfg, n, false, Init(cfg, n));
    FreshRun(Init(cfg, n), steps);
    ReachedInvariant(r, cfg, n, b);
    ControlFinished(b);
    NobodyRuns(false, b);
    NothingPending(false, b);
  }

  /** Construction goes on until it is over. */
  lemma ControlFinished(b: Pool)
    requires Inv(b) && Fresh(b) && Quiescent(b)
    ensures b.ctl == Idle
  {
    assert !Enabled(b, Control(0));
  }

  const JOB := Job(0, 0, 1, 0)
  const SLEEPER := Waiter(false, false, ByClient)
  const WOKEN := Waiter(true, false, ByClient)

  /** A client has submitted the first task of `jobs`; its wake-up is pending. */
  function Queued(b: Pool, jobs: seq<Job>): Pool
    requires jobs != []
  {
    b.(tasks := [0], pendingOne := 1, calls := [Call(jobs, 1)], hist := b.hist.(submitted := [jobs[0]]))
  }

  lemma RunQueued(r: Rules, cfg: Config, n: nat, b: Pool, jobs: seq<Job>)
    requires ReachedUnder(r, cfg, n, b) && Booted(b)
    requires jobs == [JOB] || jobs == [JOB, JOB]
    ensures ReachedUnder(r, cfg, n, Queued(b, jobs))
  {
    Extend(r, cfg, n, b, Client(BeginCall(jobs)));
    var s := b.(calls := [Call(jobs, 0)]);
    assert ApplyClient(b, BeginCall(jobs)) == s;
    Extend(r, cfg, n, s, Client(DetachNext(0)));
    assert Detach(s, 0) == Queued(b, jobs);
  }

  // ---------- reset() on a pause-enabled pool ----------

  lemma {:induction false} InsideReset(s: Pool, steps: seq<Step>)
    requires Valid(s, steps) && Inside(true, s, steps)
    ensures Within(s, steps) && NoPurge(steps)
    decreases |steps|
  {
    if steps == [] {
    } else {
      InsideReset(Apply(s, steps[0]), steps[1..]);
      assert forall j :: 1 <= j < |steps| ==> steps[j] == steps[1..][j - 1];
    }
  }

  /** All that the state before the end of a reset must be for the witnesses. */
  ghost predicate Replaced(s: Pool, u: Pool, m: nat) {
    && AtRestore(u) && u.ctl.wasPaused == s.paused && u.paused && u.waiters == map[] && CallsDone(u)
    && u.workersRunning && u.workers != [] && All(u.workers, Asleep) && u.tasksRunning == 0
    && u.pendingOne == 0 && u.pendingAll == 0 && |u.workers| == DetermineThreadCount(m, u.cfg.hardware)
    && (s.tasks != [] ==> u.tasks != [])
  }

  /** At rest before the end of the reset. */
  lemma AtRestOfReset(u: Pool)
    requires Inv(u) && DoneInv(u) && NoSelfWaits(u.waiters) && Still(true, u)
    requires u.cfg.pause && u.paused && u.ctl.Active?
    ensures AtRestore(u) && u.waiters == map[] && CallsDone(u) && u.pendingOne == 0 && u.pendingAll == 0
    ensures u.workersRunning && u.workers != [] && All(u.workers, Asleep) && u.tasksRunning == 0
  {
    ControlResting(true, u);
    NobodyRuns(true, u);
    NothingPending(true, u);
    NobodyLeft(u.waiters);
  }

  /** What a run inside a reset keeps. */
  lemma ResetHolds(s: Pool, m: nat, steps: seq<Step>, u: Pool)
    requires Inv(StartReset(s, m)) && s.cfg.pause && Ran(StartReset(s, m), steps, u)
    requires Inside(true, StartReset(s, m), steps)
    ensures u.cfg.pause && u.paused && u.ctl.Active? && u.ctl.wasPaused == s.paused
    ensures Resetting(u, m, s.paused, s.hist.sizes) && Inv(u)
    ensures s.tasks != [] ==> u.tasks != []
  {
    var begun := StartReset(s, m);
    InsideReset(begun, steps);
    ResettingRun(begun, steps, m, s.paused, s.hist.sizes);
    FrozenRun(begun, steps);
  }

  lemma BeginsReset(r: Rules, cfg: Config, n: nat, s: Pool, m: nat)
    requires cfg.pause && ReachedUnder(r, cfg, n, s)
    requires s.ctl == Idle && s.waiters == map[] && (r.resetUnpaused || s.paused)
    ensures ReachedUnder(r, cfg, n, StartReset(s, m)) && Inv(StartReset(s, m)) && s.cfg == cfg
  {
    ReachedInvariant(r, cfg, n, s);
    Extend(r, cfg, n, s, Client(BeginReset(m)));
    assert ApplyClient(s, BeginReset(m)) == StartReset(s, m);
    ReachedInvariant(r, cfg, n, StartReset(s, m));
  }

  /** A reset to `m` threads, which all sleep before it restores `paused`. */
  lemma RunReset(r: Rules, cfg: Config, n: nat, s: Pool, m: nat) returns (u: Pool)
    requires cfg.pause && Quiet(r, cfg) && !r.selfWait && ReachedUnder(r, cfg, n, s)
    requires s.ctl == Idle && s.waiters == map[] && (r.resetUnpaused || s.paused)
    ensures ReachedUnder(r, cfg, n, u) && u.cfg == cfg && Replaced(s, u, m)
  {
    BeginsReset(r, cfg, n, s, m);
    var steps;
    steps, u := GoesOn(r, cfg, n, true, StartReset(s, m));
    ReachedInvariant(r, cfg, n, u);
    ResetHolds(s, m, steps, u);
    AtRestOfReset(u);
    NewSize(s, u, m);
  }

  /** Before its end a reset has made the generation of the determined size. */
  lemma NewSize(s: Pool, u: Pool, m: nat)
    requires Inv(u) && AtRestore(u) && Resetting(u, m, s.paused, s.hist.sizes)
    ensures |u.workers| == DetermineThreadCount(m, u.cfg.hardware)
  {
  }

  /** An unpaused pool at rest with a task in its queue. */
  ghost predicate Stranded(r: Rules, cfg: Config, n: nat, s: Pool) {
    ReachedUnder(r, cfg, n, s) && Quiescent(s) && s.ctl == Idle && !s.paused && s.tasks != [] && !WorkConserving(s)
  }

  lemma NobodyMoves(s: Pool)
    requires All(s.workers, Asleep) && s.pendingOne == 0 && s.pendingAll == 0 && s.ctl == Idle && CallsDone(s)
    requires s.waiters == map[]
    ensures Quiescent(s)
  {
  }

  lemma TasksUnseen(s: Pool)
    requires s.workersRunning && s.workers != [] && All(s.workers, Asleep) && !s.paused && s.tasks != []
    requires s.pendingOne == 0 && s.pendingAll == 0
    ensures !WorkConserving(s)
  {
    SumZero(AsleepOne, s.workers);
    SumZero(NotifiedOne, s.workers);
    assert AsleepOne(s.workers[0]) == 1;
  }

  /** Resetting an unpaused pause-enabled pool, of any number of threads to any
      number, can strand a task that was queued before the reset: nothing in the
      pool will ever move to run it. */
  lemma ResetStrandsTask(r: Rules, cfg: Config, n: nat, m: nat) returns (s: Pool)
    requires cfg.pause && r.resetUnpaused
    ensures Stranded(r, cfg, n, s) && |s.workers| == DetermineThreadCount(m, cfg.hardware)
  {
    var q := NONE.(resetUnpaused := true);
    var b := Boot(q, cfg, n);
    RunQueued(q, cfg, n, b, [JOB]);
    var u := RunReset(q, cfg, n, Queued(b, [JOB]), m);
    Extend(q, cfg, n, u, Control(0));
    s := u.(paused := false, ctl := Idle);
    assert ControlStep(u, 0) == s;
    NobodyMoves(s);
    TasksUnseen(s);
    ReachedMore(r, q, cfg, n, s);
  }

  const NONE := Rules(false, false, false, false, false, false)

  /** Task wake-ups are kept in every reachable state, for any number of threads,
      exactly when pausing is disabled or an unpaused pool is never reset. */
  lemma WakeupsKeptExactlyWhen(r: Rules, cfg: Config, n: nat)
    ensures (forall s :: ReachedUnder(r, cfg, n, s) ==> WorkConserving(s)) <==> (!cfg.pause || !r.resetUnpaused)
  {
    if !cfg.pause || !r.resetUnpaused {
      forall s | ReachedUnder(r, cfg, n, s) ensures WorkConserving(s) {
        ReachedInvariant(r, cfg, n, s);
      }
    } else {
      var s := ResetStrandsTask(r, cfg, n, 0);
      assert ReachedUnder(r, cfg, n, s) && !WorkConserving(s);
    }
  }

  /** Without such resets, queued work never sits in an unpaused pool with every
      worker asleep and no wake-up in flight. */
  lemma NeverIdleWithWork(r: Rules, cfg: Config, n: nat, s: Pool)
    requires ReachedUnder(r, cfg, n, s) && (!cfg.pause || !r.resetUnpaused)
    requires s.workersRunning && !s.paused && All(s.workers, Asleep) && s.pendingOne == 0 && s.pendingAll == 0
    ensures s.tasks == []
  {
    ReachedInvariant(r, cfg, n, s);
    if s.tasks != [] { TasksUnseen(s); }
  }

  // ---------- Waiters that are never told ----------

  /** A waiter that sleeps for ever although its predicate is true. */
  ghost predicate Stuck(r: Rules, cfg: Config, n: nat, s: Pool) {
    ReachedUnder(r, cfg, n, s) && Quiescent(s) && s.ctl == Idle && WaitDone(s) && !CompletionSignalled(s)
  }

  /** Waiter `k` sleeps, and nobody inside the pool will ever tell it: its predicate
      is true already, or `waiting` is false. */
  ghost predicate Lost(s: Pool, k: nat) {
    && s.ctl == Idle && CallsDone(s) && k in s.waiters && !s.waiters[k].notified
    && (WaitDone(s) || !s.waiting)
  }

  lemma LostClient(s: Pool, step: ClientStep, k: nat)
    requires Lost(s, k) && ClientEnabled(s, step) && Internal(Client(step))
    ensures Lost(ApplyClient(s, step), k)
  {
  }

  lemma LostWork(s: Pool, i: nat, step: WorkerStep, k: nat)
    requires Inv(s) && Lost(s, k) && WorkerEnabled(s, i, step) && !step.Spurious?
    ensures Lost(ApplyWorker(s, i, step), k)
  {
    var q := WorkerEffect(s, i, step);
    SumUpdate(Counted, s.workers, i, q);
    match step
    case Top(pick) => LostTop(s, i, pick, k);
    case Resume(pick) =>
    case _ =>
  }

  /** Nobody notifies the waiters while `waiting` is false. */
  lemma LostTop(s: Pool, i: nat, pick: nat, k: nat)
    requires Lost(s, k) && !s.waiting && WorkerEnabled(s, i, Top(pick))
    ensures Lost(ApplyWorker(s, i, Top(pick)), k)
  {
    assert Decrement(s).waiters == s.waiters;
  }

  lemma LostStep(s: Pool, step: Step, k: nat)
    requires Inv(s) && Lost(s, k) && Enabled(s, step) && Internal(step)
    ensures Lost(Apply(s, step), k)
  {
    match step
    case Client(op) => LostClient(s, op, k);
    case Wait(k', op) => assert k' != k;
    case Work(i, op) => LostWork(s, i, op, k);
    case Control(k') =>
  }

  lemma {:induction false} LostRun(s: Pool, steps: seq<Step>, k: nat)
    requires Inv(s) && Lost(s, k) && Valid(s, steps) && Inside(false, s, steps)
    ensures Lost(Final(s, steps), k)
    decreases |steps|
  {
    if steps == [] {
    } else {
      KeepInv(s, steps[0]);
      LostStep(s, steps[0], k);
      LostRun(Apply(s, steps[0]), steps[1..], k);
    }
  }

  /** The threads of the pool come to rest without telling a lost waiter. */
  lemma LostIsStuck(r: Rules, q: Rules, cfg: Config, n: nat, s: Pool, k: nat) returns (t: Pool)
    requires ReachedUnder(q, cfg, n, s) && Lost(s, k) && Includes(r, q) && !q.resetUnpaused && !q.selfWait
    ensures Stuck(r, cfg, n, t)
  {
    ReachedInvariant(q, cfg, n, s);
    var steps;
    steps, t := GoesOn(q, cfg, n, false, s);
    LostRun(s, steps, k);
    ReachedInvariant(q, cfg, n, t);
    NobodyRuns(false, t);
    NothingQueued(false, t);
    ReachedMore(r, q, cfg, n, t);
  }

  /** A task is queued, and a client sleeps in `wait()`. */
  function OneWaiting(b: Pool): Pool {
    Queued(b, [JOB]).(waiting := true, waiters := map[0 := SLEEPER])
  }

  lemma RunOneWaiting(q: Rules, cfg: Config, n: nat) returns (b: Pool)
    ensures Booted(b) && b.cfg == cfg && ReachedUnder(q, cfg, n, OneWaiting(b))
  {
    b := Boot(q, cfg, n);
    RunQueued(q, cfg, n, b, [JOB]);
    var s := Queued(b, [JOB]);
    Extend(q, cfg, n, s, Wait(0, Enter(false, ByClient)));
    assert ApplyWait(s, 0, Enter(false, ByClient)) == OneWaiting(b);
  }

  lemma PurgeStrandsWaiter(r: Rules, cfg: Config, n: nat) returns (t: Pool)
    requires r.purgeWhileWaiting
    ensures Stuck(r, cfg, n, t)
  {
    var q := NONE.(purgeWhileWaiting := true);
    var b := RunOneWaiting(q, cfg, n);
    Extend(q, cfg, n, OneWaiting(b), Client(Purge));
    t := LostIsStuck(r, q, cfg, n, ApplyClient(OneWaiting(b), Purge), 0);
  }

  lemma PauseStrandsWaiter(r: Rules, cfg: Config, n: nat) returns (t: Pool)
    requires cfg.pause && r.pauseWhileWaiting
    ensures Stuck(r, cfg, n, t)
  {
    var q := NONE.(pauseWhileWaiting := true);
    var b := RunOneWaiting(q, cfg, n);
    Extend(q, cfg, n, OneWaiting(b), Client(Pause));
    t := LostIsStuck(r, q, cfg, n, ApplyClient(OneWaiting(b), Pause), 0);
  }

  // ---------- A reset that pauses the pool again ----------

  /** A pool is paused, a task is submitted, and a reset to `m` threads is about to
      restore `paused`. */
  lemma RunPausedReset(cfg: Config, n: nat, m: nat) returns (s: Pool, u: Pool)
    requires cfg.pause
    ensures ReachedUnder(NONE, cfg, n, u) && u.cfg == cfg
    ensures s.paused && s.tasks != [] && Replaced(s, u, m)
  {
    var b := Boot(NONE, cfg, n);
    RunQueued(NONE, cfg, n, b, [JOB]);
    Extend(NONE, cfg, n, Queued(b, [JOB]), Client(Pause));
    s := ApplyClient(Queued(b, [JOB]), Pause);
    u := RunReset(NONE, cfg, n, s, m);
  }

  /** Unpausing a pool during a reset that found it paused can strand the only
      waiter: it enters after the unpausing, and the end of the reset makes its
      predicate true without telling it. */
  lemma UnpauseStrandsWaiter(r: Rules, cfg: Config, n: nat, m: nat) returns (t: Pool)
    requires cfg.pause && r.unpauseDuringReset
    ensures Stuck(r, cfg, n, t)
  {
    var q := NONE.(unpauseDuringReset := true);
    var s, u := RunPausedReset(cfg, n, m);
    ReachedMore(q, NONE, cfg, n, u);
    Extend(q, cfg, n, u, Client(Unpause));
    var u1 := u.(paused := false, pendingAll := 1);
    assert ApplyClient(u, Unpause) == u1;
    Extend(q, cfg, n, u1, Client(NotifyAll));
    var u2 := u1.(pendingAll := 0, workers := WakeAll(u.workers));
    assert ApplyClient(u1, NotifyAll) == u2;
    Extend(q, cfg, n, u2, Wait(0, Enter(false, ByClient)));
    var u3 := u2.(waiting := true, waiters := map[0 := SLEEPER]);
    assert ApplyWait(u2, 0, Enter(false, ByClient)) == u3;
    Extend(q, cfg, n, u3, Control(0));
    var u4 := u3.(paused := true, ctl := Idle);
    assert ControlStep(u3, 0) == u4;
    t := LostIsStuck(r, q, cfg, n, u4, 0);
  }

  // ---------- Two waiters ----------

  /** The history after a worker took task `id`. */
  function TookIt(h: History, id: nat): History {
    h.(started := h.started + [id], startedAt := h.startedAt + [|h.submitted|])
  }

  function DidIt(h: History, id: nat): History {
    TookIt(h, id).(finished := h.finished + [id], outcomes := h.outcomes[id := Value(0)])
  }

  /** One worker has taken task `id`, the only queued one. */
  function Taken(s: Pool, id: nat): Pool
    requires s.workers != []
  {
    s.(pendingOne := 0, tasks := [], tasksRunning := 1, workers := s.workers[0 := Running(id)],
       hist := TookIt(s.hist, id))
  }

  /** A worker sleeps, and a task and its wake-up are pending. */
  ghost predicate OneToDo(s: Pool, id: nat) {
    && s.workers != [] && s.workers[0] == Asleep && s.workersRunning && !s.paused
    && s.tasksRunning == 0 && s.pendingOne == 1 && s.tasks == [id]
  }

  /** Worker 0 is told of the task and takes it. */
  lemma TakesOnly(r: Rules, cfg: Config, n: nat, s: Pool, id: nat)
    requires ReachedUnder(r, cfg, n, s) && OneToDo(s, id)
    ensures ReachedUnder(r, cfg, n, Taken(s, id))
  {
    Extend(r, cfg, n, s, Client(NotifyOne(0)));
    var t := s.(pendingOne := 0, workers := s.workers[0 := Notified]);
    assert ApplyClient(s, NotifyOne(0)) == t;
    Extend(r, cfg, n, t, Work(0, Resume(0)));
    assert TestPredicate(t, 0, 0) == Taken(s, id);
  }

  /** Worker 0 runs the task and sleeps again; it tells the waiters if `waiting`. */
  lemma RunsOnly(r: Rules, cfg: Config, n: nat, s: Pool, id: nat)
    requires ReachedUnder(r, cfg, n, s) && OneToDo(s, id) && s.waiting && NoSelfWaits(s.waiters)
    ensures ReachedUnder(r, cfg, n, s.(pendingOne := 0, tasks := [], hist := DidIt(s.hist, id),
                                       waiters := NotifyWaiters(s.waiters)))
  {
    TakesOnly(r, cfg, n, s, id);
    var u := Taken(s, id);
    assert !Hosting(u, 0);
    Extend(r, cfg, n, u, Work(0, Return(Value(0))));
    var v := u.(workers := s.workers[0 := LoopTop], hist := DidIt(s.hist, id));
    assert ApplyWorker(u, 0, Return(Value(0))) == v;
    GoesBack(r, cfg, n, v);
    assert v.workers[0 := Asleep] == s.workers;
  }

  lemma GoesBack(r: Rules, cfg: Config, n: nat, v: Pool)
    requires ReachedUnder(r, cfg, n, v) && v.workers != [] && v.workers[0] == LoopTop && v.workersRunning
    requires v.tasksRunning == 1 && v.tasks == [] && v.waiting
    ensures ReachedUnder(r, cfg, n, v.(tasksRunning := 0, workers := v.workers[0 := Asleep],
                                       waiters := NotifyWaiters(v.waiters)))
  {
    Extend(r, cfg, n, v, Work(0, Top(0)));
    assert Decrement(v) == v.(tasksRunning := 0, waiters := NotifyWaiters(v.waiters));
  }

  /** Two clients sleep in `wait()`; one of the call's two tasks is queued. */
  function TwoWaiting(b: Pool): Pool {
    Queued(b, [JOB, JOB]).(waiting := true, waiters := map[0 := SLEEPER, 1 := SLEEPER])
  }

  lemma RunTwoWaiting(q: Rules, cfg: Config, n: nat) returns (b: Pool)
    requires q.manyWaiters
    ensures Booted(b) && b.cfg == cfg && ReachedUnder(q, cfg, n, TwoWaiting(b))
  {
    b := Boot(q, cfg, n);
    RunQueued(q, cfg, n, b, [JOB, JOB]);
    var s := Queued(b, [JOB, JOB]);
    Extend(q, cfg, n, s, Wait(0, Enter(false, ByClient)));
    var t := s.(waiting := true, waiters := map[0 := SLEEPER]);
    assert ApplyWait(s, 0, Enter(false, ByClient)) == t;
    Extend(q, cfg, n, t, Wait(1, Enter(false, ByClient)));
    assert ApplyWait(t, 1, Enter(false, ByClient)) == TwoWaiting(b);
  }

  /** The first task has run, and both waiters have been told. */
  function BothTold(b: Pool): Pool {
    TwoWaiting(b).(pendingOne := 0, tasks := [], hist := DidIt(TwoWaiting(b).hist, 0),
                   waiters := map[0 := WOKEN, 1 := WOKEN])
  }

  /** The first waiter to leave clears `waiting` for the second one too; that one
      finds the second task in the queue and sleeps again, untold for ever. */
  lemma SecondWaiterStrands(r: Rules, cfg: Config, n: nat) returns (t: Pool)
    requires r.manyWaiters
    ensures Stuck(r, cfg, n, t)
  {
    var q := NONE.(manyWaiters := true);
    var b := RunTwoWaiting(q, cfg, n);
    RunsOnly(q, cfg, n, TwoWaiting(b), 0);
    assert NotifyWaiters(TwoWaiting(b).waiters) == BothTold(b).waiters;
    assert ReachedUnder(q, cfg, n, BothTold(b));
    FirstLeaves(q, cfg, n, b);
    var s := LeftBehind(b);
    Extend(q, cfg, n, s, Wait(1, Retest));
    var u := s.(waiters := map[1 := SLEEPER]);
    assert ApplyWait(s, 1, Retest) == u;
    t := LostIsStuck(r, q, cfg, n, u, 1);
  }

  /** The first waiter has left, and the second task has been submitted. */
  function LeftBehind(b: Pool): Pool {
    BothTold(b).(waiting := false, waiters := map[1 := WOKEN], tasks := [1], pendingOne := 1,
                 calls := [Call([JOB, JOB], 2)], hist := BothTold(b).hist.(submitted := [JOB, JOB]))
  }

  lemma FirstLeaves(q: Rules, cfg: Config, n: nat, b: Pool)
    requires Booted(b) && ReachedUnder(q, cfg, n, BothTold(b))
    ensures ReachedUnder(q, cfg, n, LeftBehind(b))
  {
    Extend(q, cfg, n, BothTold(b), Wait(0, Retest));
    var s := BothTold(b).(waiting := false, waiters := map[1 := WOKEN]);
    assert ApplyWait(BothTold(b), 0, Retest) == s;
    Extend(q, cfg, n, s, Client(DetachNext(0)));
    assert Detach(s, 0) == LeftBehind(b);
  }

  lemma SomebodyStuck(r: Rules, cfg: Config, n: nat) returns (t: Pool)
    requires !Quiet(r, cfg)
    ensures Stuck(r, cfg, n, t)
  {
    if r.purgeWhileWaiting {
      t := PurgeStrandsWaiter(r, cfg, n);
    } else if r.manyWaiters {
      t := SecondWaiterStrands(r, cfg, n);
    } else if r.pauseWhileWaiting {
      t := PauseStrandsWaiter(r, cfg, n);
    } else {
      t := UnpauseStrandsWaiter(r, cfg, n, 0);
    }
  }

  /** Completion wake-ups are kept in every reachable state, for any number of
      threads, exactly when nobody purges, pauses or enters `wait()` while someone
      is inside it, and nobody unpauses a pool that a reset will pause again. */
  lemma CompletionsKeptExactlyWhen(r: Rules, cfg: Config, n: nat)
    ensures (forall s :: ReachedUnder(r, cfg, n, s) ==> CompletionSignalled(s)) <==> Quiet(r, cfg)
  {
    if Quiet(r, cfg) {
      forall s | ReachedUnder(r, cfg, n, s) ensures CompletionSignalled(s) {
        ReachedInvariant(r, cfg, n, s);
      }
    } else {
      var s := SomebodyStuck(r, cfg, n);
      assert ReachedUnder(r, cfg, n, s) && !CompletionSignalled(s);
    }
  }

  // ---------- A task that waits for its own pool ----------

  /** A worker runs a task that is inside `wait()`, and the others sleep. */
  function SelfWaiting(b: Pool): Pool
    requires b.workers != []
  {
    Taken(Queued(b, [JOB]), 0).(waiting := true, waiters := map[0 := Waiter(false, false, ByTask(0))])
  }

  /** Without the deadlock checks such a task waits for itself for ever, and nothing
      in the pool can move. */
  lemma SelfWaitStrands(r: Rules, cfg: Config, n: nat) returns (s: Pool)
    requires r.selfWait && !cfg.deadlockChecks
    ensures ReachedUnder(r, cfg, n, s) && Quiescent(s) && !Settled(s)
  {
    var b := Boot(r, cfg, n);
    RunQueued(r, cfg, n, b, [JOB]);
    TakesOnly(r, cfg, n, Queued(b, [JOB]), 0);
    var t := Taken(Queued(b, [JOB]), 0);
    Extend(r, cfg, n, t, Wait(0, Enter(false, ByTask(0))));
    s := SelfWaiting(b);
    assert ApplyWait(t, 0, Enter(false, ByTask(0))) == s;
    SelfWaitStill(b);
  }

  lemma SelfWaitStill(b: Pool)
    requires Booted(b)
    ensures Quiescent(SelfWaiting(b))
  {
    var s := SelfWaiting(b);
    assert s.waiters[0].host == ByTask(0);
    assert Hosting(s, 0);
  }

  // ---------- Every call completes exactly when ----------

  ghost predicate AllComplete(r: Rules, cfg: Config, n: nat) {
    forall s :: ReachedUnder(r, cfg, n, s) && Quiescent(s) ==> Settled(s)
  }

  lemma StrandedIncomplete(r: Rules, cfg: Config, n: nat, s: Pool)
    requires Stranded(r, cfg, n, s)
    ensures !Settled(s)
  {
    ReachedInvariant(r, cfg, n, s);
    var id := s.tasks[0];
    OneEach(s, id);
    assert multiset(s.tasks)[id] >= 1;
    assert multiset(s.hist.finished)[id] + s.hist.purged[id] == 0;
  }

  /** Wherever the threads of the pool come to rest everything that clients asked for
      is done, in all reachable states and for any number of threads, exactly when
      clients keep the rules: unpaused pools with pausing are not reset, a pool that
      a reset will pause again is not unpaused, nobody purges, pauses or enters
      `wait()` while someone is inside it, and no task waits for its own pool unless
      that is rejected. */
  lemma CompletesExactlyWhen(r: Rules, cfg: Config, n: nat)
    ensures AllComplete(r, cfg, n) <==> Sound(r, cfg)
  {
    if Sound(r, cfg) {
      forall s | ReachedUnder(r, cfg, n, s) && Quiescent(s) ensures Settled(s) {
        GoodReached(r, cfg, n, s);
        QuiescentIsSettled(s);
      }
    } else if cfg.pause && r.resetUnpaused {
      var s := ResetStrandsTask(r, cfg, n, 0);
      StrandedIncomplete(r, cfg, n, s);
    } else if r.selfWait && !cfg.deadlockChecks {
      var s := SelfWaitStrands(r, cfg, n);
    } else {
      var s := SomebodyStuck(r, cfg, n);
      assert ReachedUnder(r, cfg, n, s) && Quiescent(s) && s.waiters != map[];
    }
  }

  // ---------- The number of running tasks ----------

  /** The first `j` of the pool's threads exist, and nothing else has happened. */
  function Hatching(cfg: Config, n: nat, j: nat): Pool {
    var count := DetermineThreadCount(n, cfg.hardware);
    Init(cfg, n).(tasksRunning := count, workersRunning := true,
                  workers := seq(count, i => if i < j then Spawned else Unborn),
                  ctl := Active(Construct, n, Spawn(j), false), hist := Init(cfg, n).hist.(sizes := [count]))
  }

  lemma {:induction false} Hatch(r: Rules, cfg: Config, n: nat, j: nat)
    requires j <= DetermineThreadCount(n, cfg.hardware)
    ensures ReachedUnder(r, cfg, n, Hatching(cfg, n, j))
  {
    if j == 0 {
      Start(r, cfg, n);
      Extend(r, cfg, n, Init(cfg, n), Control(0));
      assert ControlStep(Init(cfg, n), 0) == Hatching(cfg, n, 0);
    } else {
      var s := Hatching(cfg, n, j - 1);
      Hatch(r, cfg, n, j - 1);
      Extend(r, cfg, n, s, Control(0));
      assert s.workers[j - 1 := Spawned] == Hatching(cfg, n, j).workers;
      assert ControlStep(s, 0) == Hatching(cfg, n, j);
    }
  }

  /** The constructor has returned, and no thread has called `init_func` yet. */
  function Hatched(cfg: Config, n: nat): Pool {
    Hatching(cfg, n, DetermineThreadCount(n, cfg.hardware)).(ctl := Idle)
  }

  /** `get_tasks_running()` can report as many tasks as there are threads although
      none is being executed: workers that are about to start are counted. */
  lemma CounterOvercounts(r: Rules, cfg: Config, n: nat)
    ensures ReachedUnder(r, cfg, n, Hatched(cfg, n))
    ensures Hatched(cfg, n).ctl == Idle && Hatched(cfg, n).tasksRunning == DetermineThreadCount(n, cfg.hardware) >= 1
    ensures RunningIds(Hatched(cfg, n).workers) == multiset{}
  {
    var count := DetermineThreadCount(n, cfg.hardware);
    Hatch(r, cfg, n, count);
    Extend(r, cfg, n, Hatching(cfg, n, count), Control(0));
    assert ControlStep(Hatching(cfg, n, count), 0) == Hatched(cfg, n);
    RunningNone(Hatched(cfg, n).workers);
  }
}
