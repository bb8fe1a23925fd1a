/** No completion wake-up of `wait()` is lost, provided one thread waits at a time,
    nobody pauses or purges meanwhile, and nobody unpauses a pool that a reset
    will pause again. */
module PoolCompletion {
  import opened PoolModel
  import opened PoolCounts
  import opened PoolSafety
  import opened PoolRules

  /** Nobody sleeps inside `wait()`, un-notified, on a predicate that is true. */
  ghost predicate CompletionSignalled(s: Pool) {
    WaitDone(s) ==> forall k :: k in s.waiters ==> s.waiters[k].notified
  }

  ghost predicate OneWaiter(waiters: map<nat, Waiter>) {
    forall k, k' :: k in waiters && k' in waiters ==> k == k'
  }

  /** Nobody is inside `wait()` when the controlling thread enters it, and a reset
      that found the pool paused finds it paused when it ends. */
  ghost predicate ControlDone(s: Pool) {
    && (AboutToWait(s.ctl) ==> s.waiters == map[])
    && (Repauses(s.ctl) ==> s.paused)
  }

  ghost predicate DoneInv(s: Pool) {
    && CompletionSignalled(s) && OneWaiter(s.waiters) && (s.waiters != map[] ==> s.waiting) && ControlDone(s)
  }

  lemma DoneTest(s: Pool, i: nat, pick: nat)
    requires DoneInv(s) && s.tasksRunning >= 0
    requires i < |s.workers| && (!QueueBlocked(s) ==> pick < |s.tasks|)
    ensures DoneInv(TestPredicate(s, i, pick))
  {
  }

  lemma DoneDecrement(s: Pool)
    requires DoneInv(s)
    ensures DoneInv(Decrement(s))
  {
  }

  lemma DoneWork(s: Pool, i: nat, step: WorkerStep)
    requires Inv(s) && DoneInv(s) && WorkerEnabled(s, i, step)
    ensures DoneInv(ApplyWorker(s, i, step))
  {
    match step
    case Top(pick) =>
      SumUpdate(Counted, s.workers, i, Asleep);
      DecrementEffect(s);
      DoneDecrement(s);
      DoneTest(Decrement(s), i, pick);
    case Resume(pick) => DoneTest(s, i, pick);
    case _ =>
  }

  /** The rules that keep completion wake-ups. */
  predicate Quiet(r: Rules, cfg: Config) {
    && !r.purgeWhileWaiting && !r.manyWaiters
    && (cfg.pause ==> !r.pauseWhileWaiting && !r.unpauseDuringReset)
  }

  lemma DoneClient(r: Rules, s: Pool, step: ClientStep)
    requires DoneInv(s) && (s.cfg.pause || !s.paused)
    requires ClientEnabled(s, step) && Allowed(r, s, Client(step)) && Quiet(r, s.cfg)
    ensures DoneInv(ApplyClient(s, step))
  {
  }

  lemma DoneWait(r: Rules, s: Pool, k: nat, step: WaitStep)
    requires DoneInv(s) && WaitEnabled(s, k, step) && Allowed(r, s, Wait(k, step)) && Quiet(r, s.cfg)
    ensures DoneInv(ApplyWait(s, k, step))
  {
    match step
    case Enter(timed, host) =>
    case Retest => if WaitDone(s) { DoneLeave(s, k); }
    case Expire => DoneLeave(s, k);
    case WakeSpuriously =>
  }

  lemma DoneLeave(s: Pool, k: nat)
    requires DoneInv(s) && k in s.waiters
    ensures DoneInv(LeaveWait(s, k)) && LeaveWait(s, k).waiters == map[]
  {
    assert forall k' :: k' in s.waiters ==> k' == k;
  }

  /** What `wait()` reads is the same in both states. */
  ghost predicate DoneSame(s: Pool, t: Pool) {
    && t.cfg == s.cfg && t.tasks == s.tasks && t.tasksRunning == s.tasksRunning && t.paused == s.paused
    && t.waiting == s.waiting && t.waiters == s.waiters
    && (AboutToWait(t.ctl) ==> AboutToWait(s.ctl)) && (Repauses(t.ctl) ==> Repauses(s.ctl))
  }

  lemma DoneFrame(s: Pool, t: Pool)
    requires DoneInv(s) && DoneSame(s, t)
    ensures DoneInv(t)
  {
  }

  lemma DoneBegin(s: Pool, k: nat, w: Waiter)
    requires DoneInv(s) && AboutToWait(s.ctl) && w.host == ByController
    ensures DoneInv(BeginWait(s, k, w))
  {
  }

  lemma DoneCreate(s: Pool)
    requires DoneInv(s) && s.ctl.Active?
    ensures DoneInv(CreateWorkers(s))
  {
  }

  /** The end of a reset pauses no waiter: if it sets `paused`, it was set. */
  lemma DoneRestore(s: Pool, k: nat)
    requires ControlInv(s) && DoneInv(s) && s.ctl.Active? && s.ctl.phase == Restore
    ensures DoneInv(ControlStep(s, k))
  {
  }

  lemma SameWhileWorkersChange(s: Pool, k: nat)
    requires ControlEnabled(s, k)
    requires s.ctl.phase.StopFlag? || s.ctl.phase.StopNotify? || s.ctl.phase.Join? || s.ctl.phase.Spawn?
    ensures DoneSame(s, ControlStep(s, k))
  {
    match s.ctl.phase
    case Join(_) => ControlEffectJoin(s, k);
    case Spawn(_) => ControlEffectSpawn(s, k);
    case _ =>
  }

  lemma DoneControl(s: Pool, k: nat)
    requires ControlInv(s) && DoneInv(s) && ControlEnabled(s, k)
    ensures DoneInv(ControlStep(s, k))
  {
    if s.ctl.phase == PreWait {
      DoneBegin(s, k, Waiter(false, false, ByController));
    } else if s.ctl.phase == Create {
      DoneCreate(s);
    } else if s.ctl.phase == Restore {
      DoneRestore(s, k);
    } else {
      SameWhileWorkersChange(s, k);
      DoneFrame(s, ControlStep(s, k));
    }
  }

  lemma DoneStep(r: Rules, s: Pool, step: Step)
    requires Inv(s) && DoneInv(s) && Enabled(s, step) && Allowed(r, s, step) && Quiet(r, s.cfg)
    ensures DoneInv(Apply(s, step))
  {
    match step
    case Client(op) => DoneClient(r, s, op);
    case Wait(k, op) => DoneWait(r, s, k, op);
    case Work(i, op) => DoneWork(s, i, op);
    case Control(k) => DoneControl(s, k);
  }
}
