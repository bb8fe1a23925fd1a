/** Generations of workers: initialization, cleanup, and tasks that wait for
    their own pool. */
module PoolLifecycle {
  import opened PoolModel
  import opened PoolCounts

  // ---------- init_func and cleanup_func ----------

  /** How often worker `i` of generation `g` must have run `init_func`. */
  function InitsDue(sizes: seq<nat>, workers: seq<Pc>, g: nat, i: nat): nat {
    if g == |sizes| then
      (if i < |workers| && workers[i] != Unborn && workers[i] != Spawned then 1 else 0)
    else if 1 <= g < |sizes| && i < sizes[g - 1] then 1 else 0
  }

  function CleanupsDue(sizes: seq<nat>, workers: seq<Pc>, g: nat, i: nat): nat {
    if g == |sizes| then
      (if i < |workers| && workers[i] == Stopped then 1 else 0)
    else if 1 <= g < |sizes| && i < sizes[g - 1] then 1 else 0
  }

  ghost predicate Logged(workers: seq<Pc>, sizes: seq<nat>, inits: multiset<(nat, nat)>,
      cleanups: multiset<(nat, nat)>)
  {
    && |workers| == (if sizes == [] then 0 else sizes[|sizes| - 1])
    && (forall g: nat, i: nat :: inits[(g, i)] == InitsDue(sizes, workers, g, i))
    && (forall g: nat, i: nat :: cleanups[(g, i)] == CleanupsDue(sizes, workers, g, i))
  }

  ghost predicate LogInv(s: Pool) {
    Logged(s.workers, s.hist.sizes, s.hist.inits, s.hist.cleanups)
  }

  lemma LogClient(s: Pool, step: ClientStep)
    requires LogInv(s) && ClientEnabled(s, step)
    ensures LogInv(ApplyClient(s, step))
  {
  }

  lemma LogMove(workers: seq<Pc>, sizes: seq<nat>, inits: multiset<(nat, nat)>, cleanups: multiset<(nat, nat)>,
      i: nat, q: Pc, running: bool)
    requires Logged(workers, sizes, inits, cleanups)
    requires i < |workers| && Move(workers[i], q, running)
    ensures Logged(workers[i := q], sizes,
        inits + (if workers[i] == Spawned then multiset{(|sizes|, i)} else multiset{}),
        cleanups + (if workers[i] == Leaving then multiset{(|sizes|, i)} else multiset{}))
  {
  }

  lemma LogWork(s: Pool, i: nat, step: WorkerStep)
    requires LogInv(s) && WorkerEnabled(s, i, step)
    ensures LogInv(ApplyWorker(s, i, step))
  {
    var q := WorkerEffect(s, i, step);
    LogMove(s.workers, s.hist.sizes, s.hist.inits, s.hist.cleanups, i, q, s.workersRunning);
    LogEffect(s, i, step);
  }

  lemma LogEffect(s: Pool, i: nat, step: WorkerStep)
    requires WorkerEnabled(s, i, step)
    ensures var t := ApplyWorker(s, i, step);
      && t.hist.inits == s.hist.inits + (if s.workers[i] == Spawned then multiset{(|s.hist.sizes|, i)} else multiset{})
      && t.hist.cleanups == s.hist.cleanups
           + (if s.workers[i] == Leaving then multiset{(|s.hist.sizes|, i)} else multiset{})
  {
  }

  lemma LogCreate(s: Pool)
    requires LogInv(s) && All(s.workers, Stopped) && s.ctl.Active?
    ensures LogInv(CreateWorkers(s))
  {
  }

  lemma LogControl(s: Pool, k: nat)
    requires ControlInv(s) && LogInv(s) && ControlEnabled(s, k)
    ensures LogInv(ControlStep(s, k))
  {
    match s.ctl.phase
    case Create => LogCreate(s);
    case _ =>
  }

  lemma KeepLog(s: Pool, step: Step)
    requires ControlInv(s) && LogInv(s) && Enabled(s, step)
    ensures LogInv(Apply(s, step))
  {
    match step
    case Client(op) => LogClient(s, op);
    case Wait(k, op) => WaitEffect(s, k, op);
    case Work(i, op) => LogWork(s, i, op);
    case Control(k) => LogControl(s, k);
  }

  // ---------- Tasks that wait for their own pool ----------

  ghost predicate Hosted(workers: seq<Pc>, waiters: map<nat, Waiter>) {
    forall k :: k in waiters && waiters[k].host.ByTask? ==>
      waiters[k].host.i < |workers| && workers[waiters[k].host.i].Running?
  }

  /** A task inside `wait()` keeps its worker; with the deadlock checks there is
      no such task. */
  ghost predicate HostInv(s: Pool) {
    && Hosted(s.workers, s.waiters)
    && (s.cfg.deadlockChecks ==> forall k :: k in s.waiters ==> !s.waiters[k].host.ByTask?)
  }

  lemma HostWork(s: Pool, i: nat, step: WorkerStep)
    requires HostInv(s) && WorkerEnabled(s, i, step)
    ensures HostInv(ApplyWorker(s, i, step))
  {
    var q := WorkerEffect(s, i, step);
    if s.workers[i].Running? {
      assert step.Return? && !Hosting(s, i);
    }
  }

  lemma HostControl(s: Pool, k: nat)
    requires ControlInv(s) && HostInv(s) && ControlEnabled(s, k)
    ensures HostInv(ControlStep(s, k))
  {
    match s.ctl.phase
    case PreWait =>
    case Create => HostCreate(s);
    case Spawn(j) =>
    case StopNotify =>
    case _ =>
  }

  lemma HostCreate(s: Pool)
    requires HostInv(s) && All(s.workers, Stopped) && s.ctl.Active?
    ensures HostInv(CreateWorkers(s))
  {
    forall k | k in s.waiters ensures !s.waiters[k].host.ByTask? {
      if s.waiters[k].host.ByTask? { assert false; }
    }
  }

  lemma KeepHost(s: Pool, step: Step)
    requires ControlInv(s) && HostInv(s) && Enabled(s, step)
    ensures HostInv(Apply(s, step))
  {
    match step
    case Client(op) => HostClient(s, op);
    case Wait(k, op) => HostWait(s, k, op);
    case Work(i, op) => HostWork(s, i, op);
    case Control(k) => HostControl(s, k);
  }

  lemma HostClient(s: Pool, step: ClientStep)
    requires HostInv(s) && ClientEnabled(s, step)
    ensures HostInv(ApplyClient(s, step))
  {
  }

  lemma HostWait(s: Pool, k: nat, step: WaitStep)
    requires HostInv(s) && WaitEnabled(s, k, step)
    ensures HostInv(ApplyWait(s, k, step))
  {
  }
}
