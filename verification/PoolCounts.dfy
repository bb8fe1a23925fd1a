/** What every run keeps about the workers, the controlling thread and the
    counter `tasks_running`. */
module PoolCounts {
  import opened PoolModel

  // ---------- Weighted counts over the workers ----------

  function Sum(f: Pc -> nat, ws: seq<Pc>): nat {
    if ws == [] then 0 else Sum(f, ws[..|ws| - 1]) + f(ws[|ws| - 1])
  }

  lemma {:induction false} SumUpdate(f: Pc -> nat, ws: seq<Pc>, i: nat, p: Pc)
    requires i < |ws|
    ensures Sum(f, ws[i := p]) == Sum(f, ws) - f(ws[i]) + f(p)
    ensures f(ws[i]) <= Sum(f, ws)
  {
    var n := |ws| - 1;
    if i < n {
      assert ws[i := p][..n] == ws[..n][i := p];
      SumUpdate(f, ws[..n], i, p);
    } else {
      assert ws[i := p][..n] == ws[..n];
    }
  }

  /** Counts of two worker arrays that differ pointwise by a third weight. */
  lemma {:induction false} SumPointwise(f: Pc -> nat, g: Pc -> nat, ws: seq<Pc>, vs: seq<Pc>)
    requires |vs| == |ws| && forall j :: 0 <= j < |ws| ==> f(vs[j]) == f(ws[j]) + g(ws[j])
    ensures Sum(f, vs) == Sum(f, ws) + Sum(g, ws)
  {
    if ws == [] {
    } else {
      var n := |ws| - 1;
      SumPointwise(f, g, ws[..n], vs[..n]);
    }
  }

  lemma {:induction false} SumConstant(f: Pc -> nat, ws: seq<Pc>, c: nat)
    requires forall j :: 0 <= j < |ws| ==> f(ws[j]) == c
    ensures Sum(f, ws) == c * |ws|
  {
    if ws == [] {
    } else {
      SumConstant(f, ws[..|ws| - 1], c);
    }
  }

  /** A count is zero exactly when nothing has a weight. */
  lemma {:induction false} SumZero(f: Pc -> nat, ws: seq<Pc>)
    ensures Sum(f, ws) == 0 <==> forall j :: 0 <= j < |ws| ==> f(ws[j]) == 0
  {
    if ws == [] {
    } else {
      SumZero(f, ws[..|ws| - 1]);
    }
  }

  /** The workers that `tasks_running` counts: not initialized yet, running a
      task, or returned from one without having decremented the counter. */
  function Counted(p: Pc): nat {
    if p == Unborn || p == Spawned || p == LoopTop || p.Running? then 1 else 0
  }

  function NotifiedOne(p: Pc): nat {
    if p == Notified then 1 else 0
  }

  function AsleepOne(p: Pc): nat {
    if p == Asleep then 1 else 0
  }

  // ---------- The controlling thread and the workers ----------

  ghost predicate All(ws: seq<Pc>, p: Pc) {
    forall j :: 0 <= j < |ws| ==> ws[j] == p
  }

  ghost predicate None(ws: seq<Pc>, p: Pc) {
    forall j :: 0 <= j < |ws| ==> ws[j] != p
  }

  /** What the phase of the controlling thread says about the workers. */
  ghost predicate PhaseInv(pause: bool, ctl: Control, workers: seq<Pc>, workersRunning: bool) {
    match ctl
    case Idle => workersRunning
    case Dead => !workersRunning && All(workers, Stopped)
    case Active(goal, _, phase, wasPaused) =>
      && (wasPaused ==> pause)
      && (goal == Construct ==> phase == Create || phase.Spawn?)
      && match phase
         case Create => !workersRunning && All(workers, Stopped)
         case StopNotify => !workersRunning
         case Join(k) =>
           && !workersRunning && k <= |workers| && None(workers, Asleep)
           && forall j :: 0 <= j < k ==> workers[j] == Stopped
         case Spawn(k) =>
           && workersRunning && k <= |workers|
           && forall j :: 0 <= j < |workers| ==> (workers[j] == Unborn <==> k <= j)
         case Restore => workersRunning && pause && goal == Reset
         case _ => workersRunning
  }

  ghost predicate LifeInv(pause: bool, ctl: Control, workers: seq<Pc>, workersRunning: bool) {
    && PhaseInv(pause, ctl, workers, workersRunning)
    && (workersRunning ==> None(workers, Leaving) && None(workers, Stopped))
    && (!(ctl.Active? && ctl.phase.Spawn?) ==> None(workers, Unborn))
    && (workers == [] ==> ctl.Active? && ctl.goal == Construct && ctl.phase == Create)
  }

  predicate ControllerAt(ctl: Control, k: nat) {
    ctl.Active? && ctl.phase == InWait(k)
  }

  /** The controlling thread is inside `wait()` exactly when it is a waiter. */
  ghost predicate ControllerWaits(ctl: Control, waiters: map<nat, Waiter>) {
    && (ctl.Active? && ctl.phase.InWait? ==> ctl.phase.k in waiters)
    && forall k :: k in waiters ==>
         && (waiters[k].host == ByController <==> ControllerAt(ctl, k))
         && (waiters[k].host == ByController ==> !waiters[k].timed)
  }

  ghost predicate ControlInv(s: Pool) {
    && (!s.cfg.pause ==> !s.paused)
    && LifeInv(s.cfg.pause, s.ctl, s.workers, s.workersRunning)
    && ControllerWaits(s.ctl, s.waiters)
  }

  /** The moves a worker makes, given `workers_running`. */
  ghost predicate Move(p: Pc, q: Pc, workersRunning: bool) {
    match p
    case Spawned => q == LoopTop
    case LoopTop => if workersRunning then q == Asleep || q.Running? else q == Leaving
    case Notified => if workersRunning then q == Asleep || q.Running? else q == Leaving
    case Asleep => q == Notified
    case Running(_) => q == LoopTop
    case Leaving => q == Stopped
    case _ => false
  }

  ghost predicate SameButWorkers(s: Pool, t: Pool) {
    && t.cfg == s.cfg && t.paused == s.paused && t.workersRunning == s.workersRunning
    && t.ctl == s.ctl && t.waiting == s.waiting
    && t.pendingOne == s.pendingOne && t.pendingAll == s.pendingAll && t.calls == s.calls
    && t.waiters.Keys == s.waiters.Keys
    && (forall k :: k in s.waiters ==>
          t.waiters[k].host == s.waiters[k].host && t.waiters[k].timed == s.waiters[k].timed)
    && t.hist.submitted == s.hist.submitted && t.hist.purged == s.hist.purged && t.hist.sizes == s.hist.sizes
  }

  lemma DecrementEffect(s: Pool)
    ensures var t := Decrement(s);
      && SameButWorkers(s, t) && t.workers == s.workers && t.tasks == s.tasks && t.hist == s.hist
      && t.tasksRunning == s.tasksRunning - 1
  {
  }

  lemma TestEffect(s: Pool, i: nat, pick: nat) returns (q: Pc)
    requires i < |s.workers| && (!QueueBlocked(s) ==> pick < |s.tasks|)
    ensures var t := TestPredicate(s, i, pick);
      && SameButWorkers(s, t) && t.waiters == s.waiters && t.workers == s.workers[i := q]
      && (if s.workersRunning then q == Asleep || q.Running? else q == Leaving)
      && t.tasksRunning == s.tasksRunning + (if q.Running? then 1 else 0)
  {
    q := TestPredicate(s, i, pick).workers[i];
  }

  /** A step of a waiter leaves the queue, the workers and the history alone. */
  ghost predicate SameButWaiters(s: Pool, t: Pool) {
    && t.cfg == s.cfg && t.tasks == s.tasks && t.tasksRunning == s.tasksRunning && t.paused == s.paused
    && t.workersRunning == s.workersRunning && t.workers == s.workers
    && t.pendingOne == s.pendingOne && t.pendingAll == s.pendingAll && t.calls == s.calls && t.hist == s.hist
  }

  lemma WaitEffect(s: Pool, k: nat, step: WaitStep)
    requires WaitEnabled(s, k, step)
    ensures SameButWaiters(s, ApplyWait(s, k, step))
  {
  }

  /** The controlling thread never touches the queue or the tasks' history. */
  ghost predicate SameHistory(h: History, g: History) {
    && g.submitted == h.submitted && g.started == h.started && g.startedAt == h.startedAt
    && g.finished == h.finished && g.outcomes == h.outcomes && g.purged == h.purged
  }

  ghost predicate ControlFrame(s: Pool, t: Pool) {
    && t.cfg == s.cfg && t.tasks == s.tasks && SameHistory(s.hist, t.hist)
    && t.pendingOne == s.pendingOne && t.pendingAll == s.pendingAll && t.calls == s.calls
  }

  lemma ControlEffect(s: Pool, k: nat)
    requires ControlEnabled(s, k)
    ensures ControlFrame(s, ControlStep(s, k))
  {
    if s.ctl.phase.Join? {
      ControlEffectJoin(s, k);
    } else if s.ctl.phase.Spawn? {
      ControlEffectSpawn(s, k);
    }
  }

  lemma ControlEffectJoin(s: Pool, k: nat)
    requires ControlEnabled(s, k) && s.ctl.phase.Join?
    ensures ControlFrame(s, ControlStep(s, k))
  {
  }

  lemma ControlEffectSpawn(s: Pool, k: nat)
    requires ControlEnabled(s, k) && s.ctl.phase.Spawn?
    ensures ControlFrame(s, ControlStep(s, k))
  {
  }

  /** Any step of a worker moves that worker only. */
  lemma WorkerEffect(s: Pool, i: nat, step: WorkerStep) returns (q: Pc)
    requires WorkerEnabled(s, i, step)
    ensures var t := ApplyWorker(s, i, step);
      && SameButWorkers(s, t)
      && t.workers == s.workers[i := q] && Move(s.workers[i], q, s.workersRunning)
      && t.tasksRunning == s.tasksRunning - (if s.workers[i] == LoopTop then 1 else 0) + (if q.Running? then 1 else 0)
  {
    match step
    case Top(pick) =>
      DecrementEffect(s);
      q := TestEffect(Decrement(s), i, pick);
    case Resume(pick) =>
      q := TestEffect(s, i, pick);
    case _ =>
      q := ApplyWorker(s, i, step).workers[i];
  }

  lemma KeepControl(s: Pool, step: Step)
    requires ControlInv(s) && Enabled(s, step)
    ensures ControlInv(Apply(s, step))
  {
    match step
    case Client(op) =>
      if op.NotifyOne? || op.NotifyAll? { KeepLifeNotify(s, op); } else { KeepControlClient(s, op); }
    case Wait(k, op) => KeepControlWait(s, k, op);
    case Work(i, op) =>
      var q := WorkerEffect(s, i, op);
      KeepLifeMove(s, i, q);
    case Control(k) =>
      match s.ctl.phase
      case PreWait => KeepBegin(s, k, Waiter(false, false, ByController));
      case Create => KeepLifeCreate(s);
      case Spawn(_) => KeepLifeSpawn(s, k);
      case _ => KeepLifeControl(s, k);
  }

  lemma KeepLifeNotify(s: Pool, step: ClientStep)
    requires ControlInv(s) && ClientEnabled(s, step) && (step.NotifyOne? || step.NotifyAll?)
    ensures ControlInv(ApplyClient(s, step))
  {
  }

  lemma KeepControlClient(s: Pool, step: ClientStep)
    requires ControlInv(s) && ClientEnabled(s, step) && !step.NotifyOne? && !step.NotifyAll?
    ensures ControlInv(ApplyClient(s, step))
  {
  }

  lemma KeepControlWait(s: Pool, k: nat, step: WaitStep)
    requires ControlInv(s) && WaitEnabled(s, k, step)
    ensures ControlInv(ApplyWait(s, k, step))
  {
    match step
    case Enter(timed, host) => KeepBegin(s, k, Waiter(false, timed, host));
    case Retest => KeepLeave(s, k);
    case Expire => KeepLeave(s, k);
    case WakeSpuriously =>
  }

  lemma KeepBegin(s: Pool, k: nat, w: Waiter)
    requires ControlInv(s) && k !in s.waiters
    requires w.host == ByController ==> !w.timed && s.ctl.Active? && s.ctl.phase == PreWait
    ensures ControlInv(BeginWait(s, k, w))
  {
  }

  lemma KeepLeave(s: Pool, k: nat)
    requires ControlInv(s) && k in s.waiters
    ensures ControlInv(LeaveWait(s, k))
  {
  }

  lemma KeepLifeMove(s: Pool, i: nat, q: Pc)
    requires LifeInv(s.cfg.pause, s.ctl, s.workers, s.workersRunning)
    requires i < |s.workers| && Move(s.workers[i], q, s.workersRunning)
    ensures LifeInv(s.cfg.pause, s.ctl, s.workers[i := q], s.workersRunning)
  {
  }

  lemma KeepLifeControl(s: Pool, k: nat)
    requires ControlInv(s) && ControlEnabled(s, k)
    requires s.ctl.phase.StopFlag? || s.ctl.phase.StopNotify? || s.ctl.phase.Join? || s.ctl.phase.Restore?
    ensures ControlInv(ControlStep(s, k))
  {
  }

  lemma KeepLifeCreate(s: Pool)
    requires ControlInv(s) && s.ctl.Active? && s.ctl.phase == Create
    ensures ControlInv(CreateWorkers(s))
  {
  }

  lemma KeepLifeSpawn(s: Pool, k: nat)
    requires ControlInv(s) && s.ctl.Active? && s.ctl.phase.Spawn?
    ensures ControlInv(ControlStep(s, k))
  {
    var j := s.ctl.phase.next;
    if j < |s.workers| { SpawnOne(s, j); }
  }

  lemma SpawnOne(s: Pool, j: nat)
    requires LifeInv(s.cfg.pause, s.ctl, s.workers, s.workersRunning)
    requires s.ctl.Active? && s.ctl.phase == Spawn(j) && j < |s.workers|
    ensures LifeInv(s.cfg.pause, s.ctl.(phase := Spawn(j + 1)), s.workers[j := Spawned], s.workersRunning)
  {
  }

  /** The accounting of `tasks_running`. */
  ghost predicate CountInv(s: Pool) {
    s.tasksRunning == Sum(Counted, s.workers)
  }

  lemma KeepCount(s: Pool, step: Step)
    requires ControlInv(s) && CountInv(s) && Enabled(s, step)
    ensures CountInv(Apply(s, step))
  {
    match step
    case Client(op) => KeepCountClient(s, op);
    case Wait(k, op) =>
    case Work(i, op) => KeepCountWork(s, i, op);
    case Control(k) => KeepCountControl(s, k);
  }

  lemma KeepCountWork(s: Pool, i: nat, step: WorkerStep)
    requires CountInv(s) && WorkerEnabled(s, i, step)
    ensures CountInv(ApplyWorker(s, i, step))
  {
    var q := WorkerEffect(s, i, step);
    SumUpdate(Counted, s.workers, i, q);
  }

  lemma KeepCountClient(s: Pool, step: ClientStep)
    requires CountInv(s) && ClientEnabled(s, step)
    ensures CountInv(ApplyClient(s, step))
  {
    if step.NotifyOne? && IsAsleep(s, step.w) {
      SumUpdate(Counted, s.workers, step.w, Notified);
    } else if step.NotifyAll? {
      CountWakeAll(s.workers);
    }
  }

  lemma CountWakeAll(ws: seq<Pc>)
    ensures Sum(Counted, WakeAll(ws)) == Sum(Counted, ws)
  {
    SumPointwise(Counted, Zero, ws, WakeAll(ws));
    SumConstant(Zero, ws, 0);
  }

  function Zero(p: Pc): nat { 0 }

  lemma KeepCountControl(s: Pool, k: nat)
    requires ControlInv(s) && CountInv(s) && ControlEnabled(s, k)
    ensures CountInv(ControlStep(s, k))
  {
    match s.ctl.phase
    case StopNotify => CountWakeAll(s.workers);
    case Create => SumConstant(Counted, CreateWorkers(s).workers, 1);
    case Spawn(j) => if j < |s.workers| { SumUpdate(Counted, s.workers, j, Spawned); }
    case _ =>
  }
}
