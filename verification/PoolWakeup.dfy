/** No task wake-up is lost. */
module PoolWakeup {
  import opened PoolModel
  import opened PoolCounts
  import opened PoolSafety
  import opened PoolRules

  /** If the pool is unpaused and running, no `notify_all` is pending, and some
      worker sleeps un-notified, then every queued task has a wake-up of its own
      on the way: a pending `notify_one` or a worker that was notified. */
  ghost predicate WorkConserving(s: Pool) {
    s.workersRunning && !s.paused && s.pendingAll == 0 && Sum(AsleepOne, s.workers) > 0 ==>
      |s.tasks| <= s.pendingOne + Sum(NotifiedOne, s.workers)
  }

  /** The reset in progress, if any, will not unpause the pool. */
  ghost predicate ResetStaysPaused(cfg: Config, ctl: Control) {
    cfg.pause && ctl.Active? && ctl.goal == Reset ==> ctl.wasPaused
  }

  ghost predicate WakeInv(s: Pool) {
    WorkConserving(s) && ResetStaysPaused(s.cfg, s.ctl)
  }

  lemma TestTasks(s: Pool, i: nat, pick: nat)
    requires i < |s.workers| && (!QueueBlocked(s) ==> pick < |s.tasks|)
    ensures var t := TestPredicate(s, i, pick);
      && |t.tasks| == |s.tasks| - (if t.workers[i].Running? then 1 else 0)
      && (t.workers[i] == Asleep ==> QueueBlocked(s))
      && (!t.workers[i].Running? ==> t.tasks == s.tasks)
  {
  }

  lemma WorkTasks(s: Pool, i: nat, step: WorkerStep)
    requires WorkerEnabled(s, i, step)
    ensures var t := ApplyWorker(s, i, step);
      && |t.tasks| == |s.tasks| - (if t.workers[i].Running? then 1 else 0)
      && (t.workers[i] == Asleep ==> QueueBlocked(s))
      && (!t.workers[i].Running? ==> t.tasks == s.tasks)
  {
    match step
    case Top(pick) =>
      DecrementEffect(s);
      TestTasks(Decrement(s), i, pick);
    case Resume(pick) => TestTasks(s, i, pick);
    case _ =>
  }

  lemma WakeWork(s: Pool, i: nat, step: WorkerStep)
    requires WakeInv(s) && WorkerEnabled(s, i, step)
    ensures WakeInv(ApplyWorker(s, i, step))
  {
    var q := WorkerEffect(s, i, step);
    WorkTasks(s, i, step);
    SumUpdate(NotifiedOne, s.workers, i, q);
    SumUpdate(AsleepOne, s.workers, i, q);
  }

  lemma WakeNotifyOne(s: Pool, w: nat)
    requires WakeInv(s) && ClientEnabled(s, NotifyOne(w))
    ensures WakeInv(ApplyClient(s, NotifyOne(w)))
  {
    if IsAsleep(s, w) {
      SumUpdate(NotifiedOne, s.workers, w, Notified);
      SumUpdate(AsleepOne, s.workers, w, Notified);
    } else {
      SumZero(AsleepOne, s.workers);
    }
  }

  lemma NobodyAsleep(ws: seq<Pc>)
    ensures Sum(AsleepOne, WakeAll(ws)) == 0
  {
    SumZero(AsleepOne, WakeAll(ws));
  }

  lemma WakeClient(r: Rules, s: Pool, step: ClientStep)
    requires WakeInv(s) && ClientEnabled(s, step) && Allowed(r, s, Client(step)) && (s.cfg.pause ==> !r.resetUnpaused)
    ensures WakeInv(ApplyClient(s, step))
  {
    match step
    case NotifyOne(w) => WakeNotifyOne(s, w);
    case NotifyAll => NobodyAsleep(s.workers);
    case _ =>
  }

  lemma WakeWait(s: Pool, k: nat, step: WaitStep)
    requires WakeInv(s) && WaitEnabled(s, k, step)
    ensures WakeInv(ApplyWait(s, k, step))
  {
    WaitEffect(s, k, step);
  }

  lemma WakeSpawn(s: Pool, k: nat)
    requires Inv(s) && WakeInv(s) && s.ctl.Active? && s.ctl.phase.Spawn?
    ensures WakeInv(ControlStep(s, k))
  {
    var j := s.ctl.phase.next;
    if j < |s.workers| {
      SumUpdate(NotifiedOne, s.workers, j, Spawned);
      SumUpdate(AsleepOne, s.workers, j, Spawned);
    }
  }

  lemma WakeStopNotify(s: Pool, k: nat)
    requires WakeInv(s) && ControlEnabled(s, k) && s.ctl.phase == StopNotify
    ensures WakeInv(ControlStep(s, k))
  {
    NobodyAsleep(s.workers);
  }

  lemma WakeCreate(s: Pool, k: nat)
    requires WakeInv(s) && ControlEnabled(s, k) && s.ctl.phase == Create
    ensures WakeInv(ControlStep(s, k))
  {
    SumZero(AsleepOne, CreateWorkers(s).workers);
  }

  lemma WakeRest(s: Pool, k: nat)
    requires ControlInv(s) && WakeInv(s) && ControlEnabled(s, k)
    requires s.ctl.phase != StopNotify && s.ctl.phase != Create && !s.ctl.phase.Spawn?
    ensures WakeInv(ControlStep(s, k))
  {
  }

  lemma WakeControl(s: Pool, k: nat)
    requires Inv(s) && WakeInv(s) && ControlEnabled(s, k)
    ensures WakeInv(ControlStep(s, k))
  {
    match s.ctl.phase
    case StopNotify => WakeStopNotify(s, k);
    case Create => WakeCreate(s, k);
    case Spawn(j) => WakeSpawn(s, k);
    case _ => WakeRest(s, k);
  }

  lemma WakeStep(r: Rules, s: Pool, step: Step)
    requires Inv(s) && WakeInv(s) && Enabled(s, step) && Allowed(r, s, step) && (s.cfg.pause ==> !r.resetUnpaused)
    ensures WakeInv(Apply(s, step))
  {
    match step
    case Client(op) => WakeClient(r, s, op);
    case Wait(k, op) => WakeWait(s, k, op);
    case Work(i, op) => WakeWork(s, i, op);
    case Control(k) => WakeControl(s, k);
  }
}
