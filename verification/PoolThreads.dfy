/** What a thread that is inside a call of the pool can rely on, whatever all
    other threads do between two of its critical sections. */
module PoolThreads {
  import opened PoolModel
  import opened PoolCounts
  import opened PoolSafety
  import opened PoolReset

  /** Where a thread is between two critical sections:
      Caller       in the splitter call `c`
      Notifier     likewise, and it still has to call `notify_one`
      Reader       reading the futures that call `c` returned
      Announcer    in `unpause`, and it still has to call `notify_all`
      Sleeper      asleep in `wait()` under the name `k`
      Worker       in the thread function of worker `i`; what its task does with the
                   pool, waiting for it included, counts as done by others
      Controller   constructing, resetting or destroying the pool; its name is `k` */
  datatype Actor =
    | Caller(c: nat)
    | Notifier(c: nat)
    | Reader(c: nat)
    | Announcer
    | Sleeper(k: nat)
    | Worker(i: nat)
    | Controller(k: nat)

  predicate Destroying(ctl: Control) {
    ctl == Dead || (ctl.Active? && ctl.goal == Destroy)
  }

  /** A step of the thread `k` itself; waking up, in contrast, happens to it. */
  predicate MovesWaiter(step: Step, k: nat) {
    step.Wait? && step.k == k && !step.wop.WakeSpuriously?
  }

  /** The steps that other threads may take: all but those of the thread itself and
      the notification that it owes; and nobody destroys a pool while a client is
      still submitting tasks to it. */
  predicate MayTake(me: Actor, s: Pool, step: Step) {
    match me
    case Caller(c) => step != Client(DetachNext(c)) && step != Client(BeginDestroy)
    case Notifier(c) =>
      && step != Client(DetachNext(c)) && step != Client(BeginDestroy)
      && (step.Client? && step.op.NotifyOne? ==> s.pendingOne > 1)
    case Reader(c) => step != Client(DetachNext(c))
    case Announcer => step == Client(NotifyAll) ==> s.pendingAll > 1
    case Sleeper(k) => !MovesWaiter(step, k)
    case Worker(i) => !(step.Work? && step.i == i && !step.kop.Spurious?)
    case Controller(k) => !step.Control? && !MovesWaiter(step, k)
  }

  ghost predicate ByOthers(me: Actor, s: Pool, steps: seq<Step>)
    requires Valid(s, steps)
    decreases |steps|
  {
    steps == [] || (MayTake(me, s, steps[0]) && ByOthers(me, Apply(s, steps[0]), steps[1..]))
  }

  /** Where the thread can be. */
  ghost predicate At(me: Actor, s: Pool) {
    match me
    case Caller(c) => !Destroying(s.ctl) && c < |s.calls|
    case Notifier(c) => !Destroying(s.ctl) && c < |s.calls| && s.pendingOne > 0
    case Reader(c) => c < |s.calls|
    case Announcer => s.pendingAll > 0
    case Sleeper(k) => k in s.waiters
    case Worker(i) => i < |s.workers| && s.workers[i] != Unborn && s.workers[i] != Stopped
    case Controller(k) =>
      s.ctl.Active? && (k in s.waiters ==> ControllerAt(s.ctl, k)) && (s.ctl.phase.InWait? ==> s.ctl.phase.k == k)
  }

  /** What stays as the thread left it. */
  ghost predicate Stays(me: Actor, s: Pool, t: Pool) {
    && t.cfg == s.cfg
    && match me
       case Caller(c) => c < |s.calls| && c < |t.calls| && t.calls[c] == s.calls[c]
       case Notifier(c) => c < |s.calls| && c < |t.calls| && t.calls[c] == s.calls[c]
       case Reader(c) => c < |s.calls| && c < |t.calls| && t.calls[c] == s.calls[c]
       case Announcer => true
       case Sleeper(k) =>
         && k in s.waiters && k in t.waiters
         && t.waiters[k].host == s.waiters[k].host && t.waiters[k].timed == s.waiters[k].timed
       case Worker(i) =>
         && i < |s.workers| && i < |t.workers| && |t.hist.sizes| == |s.hist.sizes|
         && (t.workers[i] == s.workers[i] || (s.workers[i] == Asleep && t.workers[i] == Notified))
       case Controller(k) =>
         && t.ctl == s.ctl && (k in t.waiters <==> k in s.waiters)
         && |t.workers| == |s.workers| && t.hist.sizes == s.hist.sizes && t.workersRunning == s.workersRunning
  }

  lemma StaysReflexive(me: Actor, s: Pool)
    requires At(me, s)
    ensures Stays(me, s, s)
  {
  }

  lemma StaysTransitive(me: Actor, s: Pool, t: Pool, u: Pool)
    requires Stays(me, s, t) && Stays(me, t, u)
    ensures Stays(me, s, u)
  {
  }

  // ---------- One step of another thread ----------

  lemma CallerClient(me: Actor, s: Pool, step: ClientStep)
    requires me.Caller? || me.Notifier?
    requires At(me, s) && ClientEnabled(s, step) && MayTake(me, s, Client(step))
    ensures At(me, ApplyClient(s, step)) && Stays(me, s, ApplyClient(s, step))
  {
  }

  lemma NotDestroyedWait(s: Pool, k: nat, step: WaitStep)
    requires WaitEnabled(s, k, step) && !Destroying(s.ctl)
    ensures !Destroying(ApplyWait(s, k, step).ctl)
  {
  }

  lemma NotDestroyedControl(s: Pool, k: nat)
    requires ControlEnabled(s, k) && !Destroying(s.ctl)
    ensures !Destroying(ControlStep(s, k).ctl)
  {
  }

  lemma CallerStep(me: Actor, s: Pool, step: Step)
    requires me.Caller? || me.Notifier?
    requires At(me, s) && Enabled(s, step) && MayTake(me, s, step)
    ensures At(me, Apply(s, step)) && Stays(me, s, Apply(s, step))
  {
    ConfigStep(s, step);
    match step
    case Client(op) => CallerClient(me, s, op);
    case Wait(k, op) =>
      WaitEffect(s, k, op);
      NotDestroyedWait(s, k, op);
    case Work(i, op) => var q := WorkerEffect(s, i, op);
    case Control(k) =>
      ControlEffect(s, k);
      NotDestroyedControl(s, k);
  }

  lemma ReaderClient(c: nat, s: Pool, step: ClientStep)
    requires c < |s.calls| && ClientEnabled(s, step) && step != DetachNext(c)
    ensures var t := ApplyClient(s, step); t.cfg == s.cfg && c < |t.calls| && t.calls[c] == s.calls[c]
  {
  }

  lemma ReaderStep(c: nat, s: Pool, step: Step)
    requires At(Reader(c), s) && Enabled(s, step) && MayTake(Reader(c), s, step)
    ensures At(Reader(c), Apply(s, step)) && Stays(Reader(c), s, Apply(s, step))
  {
    match step
    case Client(op) => ReaderClient(c, s, op);
    case Wait(k, op) => WaitEffect(s, k, op);
    case Work(i, op) => var q := WorkerEffect(s, i, op);
    case Control(k) => ControlEffect(s, k);
  }

  lemma AnnouncerClient(s: Pool, step: ClientStep)
    requires s.pendingAll > 0 && ClientEnabled(s, step) && (step == NotifyAll ==> s.pendingAll > 1)
    ensures ApplyClient(s, step).cfg == s.cfg && ApplyClient(s, step).pendingAll > 0
  {
  }

  lemma AnnouncerStep(s: Pool, step: Step)
    requires At(Announcer, s) && Enabled(s, step) && MayTake(Announcer, s, step)
    ensures At(Announcer, Apply(s, step)) && Stays(Announcer, s, Apply(s, step))
  {
    match step
    case Client(op) => AnnouncerClient(s, op);
    case Wait(k, op) => WaitEffect(s, k, op);
    case Work(i, op) => var q := WorkerEffect(s, i, op);
    case Control(k) => ControlEffect(s, k);
  }

  lemma SleeperStep(k: nat, s: Pool, step: Step)
    requires At(Sleeper(k), s) && Enabled(s, step) && MayTake(Sleeper(k), s, step)
    ensures At(Sleeper(k), Apply(s, step)) && Stays(Sleeper(k), s, Apply(s, step))
  {
    ConfigStep(s, step);
    match step
    case Client(op) => ClientWaiters(s, op);
    case Wait(k', op) => SleeperWait(k, s, k', op);
    case Work(i, op) => var q := WorkerEffect(s, i, op);
    case Control(k') => SleeperControl(k, s, k');
  }

  lemma SleeperWait(k: nat, s: Pool, k': nat, step: WaitStep)
    requires k in s.waiters && WaitEnabled(s, k', step) && (k == k' ==> step.WakeSpuriously?)
    ensures var t := ApplyWait(s, k', step);
      k in t.waiters && t.waiters[k].host == s.waiters[k].host && t.waiters[k].timed == s.waiters[k].timed
  {
  }

  lemma SleeperControl(k: nat, s: Pool, k': nat)
    requires k in s.waiters && ControlEnabled(s, k')
    ensures var t := ControlStep(s, k'); k in t.waiters && t.waiters[k] == s.waiters[k]
  {
  }

  lemma WorkerClient(i: nat, s: Pool, step: ClientStep)
    requires At(Worker(i), s) && ClientEnabled(s, step)
    ensures At(Worker(i), ApplyClient(s, step)) && Stays(Worker(i), s, ApplyClient(s, step))
  {
  }

  lemma WorkerWait(i: nat, s: Pool, k: nat, step: WaitStep)
    requires At(Worker(i), s) && WaitEnabled(s, k, step)
    ensures At(Worker(i), ApplyWait(s, k, step)) && Stays(Worker(i), s, ApplyWait(s, k, step))
  {
    WaitEffect(s, k, step);
  }

  lemma WorkerWork(i: nat, s: Pool, j: nat, step: PoolModel.WorkerStep)
    requires At(Worker(i), s) && WorkerEnabled(s, j, step) && (i == j ==> step.Spurious?)
    ensures At(Worker(i), ApplyWorker(s, j, step)) && Stays(Worker(i), s, ApplyWorker(s, j, step))
  {
    var q := WorkerEffect(s, j, step);
  }

  lemma WorkerControl(i: nat, s: Pool, k: nat)
    requires Inv(s) && At(Worker(i), s) && ControlEnabled(s, k)
    ensures At(Worker(i), ControlStep(s, k)) && Stays(Worker(i), s, ControlStep(s, k))
  {
    assert s.ctl.phase != Create;
  }

  lemma WorkerStep(i: nat, s: Pool, step: Step)
    requires Inv(s) && At(Worker(i), s) && Enabled(s, step) && MayTake(Worker(i), s, step)
    ensures At(Worker(i), Apply(s, step)) && Stays(Worker(i), s, Apply(s, step))
  {
    match step
    case Client(op) => WorkerClient(i, s, op);
    case Wait(k, op) => WorkerWait(i, s, k, op);
    case Work(j, op) => WorkerWork(i, s, j, op);
    case Control(k) => WorkerControl(i, s, k);
  }

  lemma ControllerClient(k: nat, s: Pool, step: ClientStep)
    requires At(Controller(k), s) && ClientEnabled(s, step)
    ensures At(Controller(k), ApplyClient(s, step)) && Stays(Controller(k), s, ApplyClient(s, step))
  {
  }

  lemma ControllerWork(k: nat, s: Pool, i: nat, step: PoolModel.WorkerStep)
    requires At(Controller(k), s) && WorkerEnabled(s, i, step)
    ensures At(Controller(k), ApplyWorker(s, i, step)) && Stays(Controller(k), s, ApplyWorker(s, i, step))
  {
    var q := WorkerEffect(s, i, step);
  }

  lemma ControllerWait(k: nat, s: Pool, k': nat, step: WaitStep)
    requires Inv(s) && At(Controller(k), s) && WaitEnabled(s, k', step) && (k == k' ==> step.WakeSpuriously?)
    ensures At(Controller(k), ApplyWait(s, k', step)) && Stays(Controller(k), s, ApplyWait(s, k', step))
  {
    WaitEffect(s, k', step);
  }

  lemma ControllerStep(k: nat, s: Pool, step: Step)
    requires Inv(s) && At(Controller(k), s) && Enabled(s, step) && MayTake(Controller(k), s, step)
    ensures At(Controller(k), Apply(s, step)) && Stays(Controller(k), s, Apply(s, step))
  {
    match step
    case Client(op) => ControllerClient(k, s, op);
    case Wait(k', op) => ControllerWait(k, s, k', op);
    case Work(i, op) => ControllerWork(k, s, i, op);
  }

  lemma OtherStep(me: Actor, s: Pool, step: Step)
    requires Inv(s) && At(me, s) && Enabled(s, step) && MayTake(me, s, step)
    ensures At(me, Apply(s, step)) && Stays(me, s, Apply(s, step))
  {
    match me
    case Caller(c) => CallerStep(me, s, step);
    case Notifier(c) => CallerStep(me, s, step);
    case Reader(c) => ReaderStep(c, s, step);
    case Announcer => AnnouncerStep(s, step);
    case Sleeper(k) => SleeperStep(k, s, step);
    case Worker(i) => WorkerStep(i, s, step);
    case Controller(k) => ControllerStep(k, s, step);
  }

  /** A thread finds what it left behind, after any run of the others. */
  lemma {:induction false} OthersKeep(me: Actor, s: Pool, steps: seq<Step>)
    requires Inv(s) && At(me, s) && Valid(s, steps) && ByOthers(me, s, steps)
    ensures At(me, Final(s, steps)) && Stays(me, s, Final(s, steps))
    decreases |steps|
  {
    if steps == [] {
      StaysReflexive(me, s);
    } else {
      var t := Apply(s, steps[0]);
      KeepInv(s, steps[0]);
      OtherStep(me, s, steps[0]);
      OthersKeep(me, t, steps[1..]);
      StaysTransitive(me, s, t, Final(t, steps[1..]));
    }
  }

  // ---------- The controlling thread ----------

  /** The others never restore `paused` at the end of a reset. */
  lemma {:induction false} OthersBeforeRestore(k: nat, s: Pool, steps: seq<Step>)
    requires Valid(s, steps) && ByOthers(Controller(k), s, steps)
    ensures BeforeRestore(s, steps)
    decreases |steps|
  {
    if steps == [] {
    } else {
      OthersBeforeRestore(k, Apply(s, steps[0]), steps[1..]);
    }
  }

  /** Only the controlling thread lets the workers run again. */
  lemma {:induction false} OthersFrozen(k: nat, s: Pool, steps: seq<Step>)
    requires Inv(s) && At(Controller(k), s) && Valid(s, steps) && ByOthers(Controller(k), s, steps)
    requires !s.workersRunning
    ensures AllFrozen(s, steps)
    decreases |steps|
  {
    if steps == [] {
    } else {
      KeepInv(s, steps[0]);
      ControllerStep(k, s, steps[0]);
      OthersFrozen(k, Apply(s, steps[0]), steps[1..]);
    }
  }

  // ---------- Growing a run ----------

  lemma Stepped(s: Pool, step: Step)
    requires Reached(s) && Enabled(s, step)
    ensures Reached(Apply(s, step)) && Inv(Apply(s, step))
  {
    RunOne(s, step);
    ReachedOn(s, [step], Apply(s, step));
    ReachedInv(Apply(s, step));
  }

  /** One function of the pool: its critical section, a run of the others, and its
      notification. */
  lemma StepOthersStep(s: Pool, first: Step, t: Pool, others: seq<Step>, u: Pool, last: Step, v: Pool)
    requires Enabled(s, first) && Apply(s, first) == t && Ran(t, others, u) && Enabled(u, last) && Apply(u, last) == v
    ensures Ran(s, [first] + others + [last], v)
  {
    RunOne(s, first);
    RunConcat(s, [first], t, others, u);
    RunThen(s, [first] + others, u, last);
  }
}
