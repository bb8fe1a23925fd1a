/** The protocol of `BS::thread_pool` as a transition system.

    One step is one critical section of `tasks_mutex`, one action between two
    critical sections (a task returning, an initialization function running), or
    one delivery of a notification.  `detach_task`, `unpause` and
    `destroy_threads` notify after they have unlocked the mutex, so each of them
    leaves a pending notification behind that is delivered by a later step. */
module PoolModel {

  type Priority = p: int | -128 <= p <= 127

  /** The option flags of the pool's template parameter, and the value that
      `hardware_concurrency()` reports. */
  datatype Config = Config(priority: bool, pause: bool, deadlockChecks: bool, hardware: nat)

  /** A task: the client call that submitted it and the index range it covers.
      A task given to `detach_task` directly covers the single index 0. */
  datatype Job = Job(call: nat, lo: int, hi: int, priority: Priority)

  /** A client inside `detach_task` or one of the splitters: the tasks it submits
      in order, and how many of them it has submitted so far.  Calls are named by
      the order in which they began. */
  datatype Call = Call(jobs: seq<Job>, next: nat)

  /** How a task ended.  A task that throws does so at one of its indices. */
  datatype Outcome = Value(v: int) | Thrown(e: int, at: int)

  /** Where a worker is:
      Unborn    counted in `tasks_running`, but its thread is not created yet
      Spawned   created; `init_func` has not run
      LoopTop   about to lock the mutex and decrement `tasks_running`
      Asleep    blocked in `task_available_cv`, not notified
      Notified  woken, has not reacquired the mutex
      Running   executing a task
      Leaving   has left the loop; `cleanup_func` has not run
      Stopped   its thread function has returned */
  datatype Pc = Unborn | Spawned | LoopTop | Asleep | Notified | Running(id: nat) | Leaving | Stopped

  /** Who called `wait()`: a client thread, the thread that resets or destroys
      the pool, or the task that a worker of this pool is running. */
  datatype Host = ByClient | ByController | ByTask(i: nat)

  datatype Waiter = Waiter(notified: bool, timed: bool, host: Host)

  datatype Goal = Construct | Reset | Destroy

  datatype Phase =
    | PreWait | InWait(k: nat) | StopFlag | StopNotify
    | Join(next: nat) | Create | Spawn(next: nat) | Restore

  /** The one thread that constructs, resets or destroys the pool. */
  datatype Control =
    | Idle
    | Dead
    | Active(goal: Goal, n: nat, phase: Phase, wasPaused: bool)

  /** What has happened so far.  A task is named by its position in `submitted`.
      `startedAt[i]` is the length of `submitted` when `started[i]` was taken.
      `sizes` holds the thread count of every generation of workers; a worker is
      named by the number of its generation, from 1, and its index. */
  datatype History = History(
    submitted: seq<Job>,
    started: seq<nat>,
    startedAt: seq<nat>,
    finished: seq<nat>,
    outcomes: map<nat, Outcome>,
    purged: multiset<nat>,
    sizes: seq<nat>,
    inits: multiset<(nat, nat)>,
    cleanups: multiset<(nat, nat)>)

  datatype Pool = Pool(
    cfg: Config,
    tasks: seq<nat>,
    tasksRunning: int,
    paused: bool,
    waiting: bool,
    workersRunning: bool,
    workers: seq<Pc>,
    pendingOne: nat,
    pendingAll: nat,
    waiters: map<nat, Waiter>,
    calls: seq<Call>,
    ctl: Control,
    hist: History)

  /** What client threads do.  `w` is the worker that `notify_one` wakes. */
  datatype ClientStep =
    | BeginCall(jobs: seq<Job>)
    | DetachNext(c: nat)
    | NotifyOne(w: nat)
    | Pause
    | Unpause
    | NotifyAll
    | Purge
    | BeginReset(n: nat)
    | BeginDestroy

  /** What a thread inside `wait()`, `wait_for()` or `wait_until()` does. */
  datatype WaitStep =
    | Enter(timed: bool, host: Host)
    | Retest
    | Expire
    | WakeSpuriously

  /** What a worker does.  `pick` is the queue position that `pop_task` takes. */
  datatype WorkerStep =
    | RunInit
    | Top(pick: nat)
    | Resume(pick: nat)
    | Return(outcome: Outcome)
    | RunCleanup
    | Spurious

  /** One step of a client, of waiter `k`, of worker `i`, or of the controlling
      thread (which enters `wait()` under the key `k`). */
  datatype Step =
    | Client(op: ClientStep)
    | Wait(k: nat, wop: WaitStep)
    | Work(i: nat, kop: WorkerStep)
    | Control(k: nat)

  // ---------- The predicates of the two condition variables ----------

  predicate QueueBlocked(s: Pool) {
    if s.cfg.pause then s.paused || s.tasks == [] else s.tasks == []
  }

  /** The predicate of `wait()`. */
  predicate WaitDone(s: Pool) {
    s.tasksRunning == 0 && QueueBlocked(s)
  }

  /** The predicate on which a worker stops waiting. */
  predicate WorkReady(s: Pool) {
    !QueueBlocked(s) || !s.workersRunning
  }

  /** The positions `pop_task` may take: the front of a `std::queue`, or any
      element of maximal priority of a `std::priority_queue`. */
  predicate PickOk(s: Pool, pick: nat) {
    && pick < |s.tasks|
    && (if s.cfg.priority
        then forall q :: 0 <= q < |s.tasks| && s.tasks[q] < |s.hist.submitted| && s.tasks[pick] < |s.hist.submitted| ==>
               s.hist.submitted[s.tasks[q]].priority <= s.hist.submitted[s.tasks[pick]].priority
        else pick == 0)
  }

  function DetermineThreadCount(n: nat, hardware: nat): (count: nat)
    ensures n > 0 ==> count == n
    ensures n == 0 && hardware > 0 ==> count == hardware
    ensures n == 0 && hardware == 0 ==> count == 1
  {
    if n > 0 then n else if hardware > 0 then hardware else 1
  }

  // ---------- Workers ----------

  function WakePc(p: Pc): Pc {
    if p == Asleep then Notified else p
  }

  function WakeAll(ws: seq<Pc>): (r: seq<Pc>)
    ensures |r| == |ws|
    ensures forall j :: 0 <= j < |ws| ==> r[j] == WakePc(ws[j])
  {
    seq(|ws|, j requires 0 <= j < |ws| => WakePc(ws[j]))
  }

  function NotifyWaiters(ws: map<nat, Waiter>): (r: map<nat, Waiter>)
    ensures r.Keys == ws.Keys
    ensures forall k :: k in ws ==> r[k] == ws[k].(notified := true)
  {
    map k | k in ws :: ws[k].(notified := true)
  }

  /** `pop_task` and `++tasks_running`. */
  function Take(s: Pool, i: nat, pick: nat): Pool
    requires i < |s.workers| && pick < |s.tasks|
  {
    var id := s.tasks[pick];
    s.(tasks := s.tasks[..pick] + s.tasks[pick + 1..],
       tasksRunning := s.tasksRunning + 1,
       workers := s.workers[i := Running(id)],
       hist := s.hist.(started := s.hist.started + [id],
                       startedAt := s.hist.startedAt + [|s.hist.submitted|]))
  }

  /** A worker that holds the mutex tests its predicate: it sleeps, leaves the
      loop, or takes a task. */
  function TestPredicate(s: Pool, i: nat, pick: nat): Pool
    requires i < |s.workers|
    requires !QueueBlocked(s) ==> pick < |s.tasks|
  {
    if !WorkReady(s) then s.(workers := s.workers[i := Asleep])
    else if !s.workersRunning then s.(workers := s.workers[i := Leaving])
    else Take(s, i, pick)
  }

  /** `--tasks_running`, and the notification of `tasks_done_cv`. */
  function Decrement(s: Pool): Pool {
    var s1 := s.(tasksRunning := s.tasksRunning - 1);
    if s1.waiting && WaitDone(s1) then s1.(waiters := NotifyWaiters(s1.waiters)) else s1
  }

  // ---------- Clients ----------

  /** The critical section of `detach_task`. */
  function Detach(s: Pool, c: nat): Pool
    requires c < |s.calls| && s.calls[c].next < |s.calls[c].jobs|
  {
    var call := s.calls[c];
    s.(tasks := s.tasks + [|s.hist.submitted|],
       pendingOne := s.pendingOne + 1,
       calls := s.calls[c := call.(next := call.next + 1)],
       hist := s.hist.(submitted := s.hist.submitted + [call.jobs[call.next]]))
  }

  function DeliverOne(s: Pool, w: nat): Pool
    requires s.pendingOne > 0
  {
    var s1 := s.(pendingOne := s.pendingOne - 1);
    if w < |s.workers| && s.workers[w] == Asleep then s1.(workers := s.workers[w := Notified]) else s1
  }

  function Returned(ctl: Control, host: Host): Control {
    if host == ByController && ctl.Active? then ctl.(phase := StopFlag) else ctl
  }

  /** The start of `wait()`: it returns at once, or the caller goes to sleep. */
  function BeginWait(s: Pool, k: nat, w: Waiter): Pool {
    if WaitDone(s) then s.(waiting := false, ctl := Returned(s.ctl, w.host))
    else s.(waiting := true,
            waiters := s.waiters[k := w],
            ctl := if w.host == ByController && s.ctl.Active? then s.ctl.(phase := InWait(k)) else s.ctl)
  }

  function LeaveWait(s: Pool, k: nat): Pool
    requires k in s.waiters
  {
    s.(waiting := false, waiters := s.waiters - {k}, ctl := Returned(s.ctl, s.waiters[k].host))
  }

  // ---------- The thread that constructs, resets or destroys the pool ----------

  function StartReset(s: Pool, n: nat): Pool {
    if s.cfg.pause then s.(paused := true, ctl := Active(Reset, n, PreWait, s.paused))
    else s.(ctl := Active(Reset, n, PreWait, false))
  }

  function CreateWorkers(s: Pool): Pool
    requires s.ctl.Active?
  {
    var count := DetermineThreadCount(s.ctl.n, s.cfg.hardware);
    s.(tasksRunning := count,
       workersRunning := true,
       workers := seq(count, j => Unborn),
       ctl := s.ctl.(phase := Spawn(0)),
       hist := s.hist.(sizes := s.hist.sizes + [count]))
  }

  predicate ControlEnabled(s: Pool, k: nat) {
    s.ctl.Active? &&
    match s.ctl.phase
    case PreWait => k !in s.waiters
    case InWait(_) => false
    case Join(j) => j < |s.workers| ==> s.workers[j] == Stopped
    case _ => true
  }

  function ControlStep(s: Pool, k: nat): Pool
    requires ControlEnabled(s, k)
  {
    match s.ctl.phase
    case PreWait => BeginWait(s, k, Waiter(false, false, ByController))
    case StopFlag => s.(workersRunning := false, ctl := s.ctl.(phase := StopNotify))
    case StopNotify => s.(workers := WakeAll(s.workers), ctl := s.ctl.(phase := Join(0)))
    case Join(j) =>
      if j < |s.workers| then s.(ctl := s.ctl.(phase := Join(j + 1)))
      else if s.ctl.goal == Destroy then s.(ctl := Dead)
      else s.(ctl := s.ctl.(phase := Create))
    case Create => CreateWorkers(s)
    case Spawn(j) =>
      if j < |s.workers| then s.(workers := s.workers[j := Spawned], ctl := s.ctl.(phase := Spawn(j + 1)))
      else if s.ctl.goal == Reset && s.cfg.pause then s.(ctl := s.ctl.(phase := Restore))
      else s.(ctl := Idle)
    case Restore => s.(paused := s.ctl.wasPaused, ctl := Idle)
  }

  // ---------- Steps ----------

  predicate Hosting(s: Pool, i: nat) {
    exists k :: k in s.waiters && s.waiters[k].host == ByTask(i)
  }

  predicate IsAsleep(s: Pool, i: nat) {
    i < |s.workers| && s.workers[i] == Asleep
  }

  predicate OutcomeOk(j: Job, o: Outcome) {
    o.Thrown? ==> j.lo <= o.at < j.hi
  }

  predicate ClientEnabled(s: Pool, step: ClientStep) {
    match step
    case BeginCall(jobs) =>
      && s.ctl != Dead
      && forall j :: 0 <= j < |jobs| ==> jobs[j].call == |s.calls| && jobs[j].lo < jobs[j].hi
    case DetachNext(c) => s.ctl != Dead && c < |s.calls| && s.calls[c].next < |s.calls[c].jobs|
    case NotifyOne(w) =>
      s.pendingOne > 0 && (IsAsleep(s, w) || forall j :: 0 <= j < |s.workers| ==> s.workers[j] != Asleep)
    case Pause => s.cfg.pause && s.ctl != Dead
    case Unpause => s.cfg.pause && s.ctl != Dead
    case NotifyAll => s.pendingAll > 0
    case Purge => s.ctl != Dead
    case BeginReset(n) => s.ctl == Idle
    case BeginDestroy => s.ctl == Idle
  }

  function ApplyClient(s: Pool, step: ClientStep): Pool
    requires ClientEnabled(s, step)
  {
    match step
    case BeginCall(jobs) => s.(calls := s.calls + [Call(jobs, 0)])
    case DetachNext(c) => Detach(s, c)
    case NotifyOne(w) => DeliverOne(s, w)
    case Pause => s.(paused := true)
    case Unpause => s.(paused := false, pendingAll := s.pendingAll + 1)
    case NotifyAll => s.(pendingAll := s.pendingAll - 1, workers := WakeAll(s.workers))
    case Purge => s.(tasks := [], hist := s.hist.(purged := s.hist.purged + multiset(s.tasks)))
    case BeginReset(n) => StartReset(s, n)
    case BeginDestroy => s.(ctl := Active(Destroy, 0, PreWait, false))
  }

  predicate WaitEnabled(s: Pool, k: nat, step: WaitStep) {
    match step
    case Enter(_, host) =>
      && s.ctl != Dead && k !in s.waiters && host != ByController
      && (host.ByTask? ==> host.i < |s.workers| && s.workers[host.i].Running? && !Hosting(s, host.i))
    case Retest => k in s.waiters && s.waiters[k].notified
    case Expire => k in s.waiters && s.waiters[k].timed
    case WakeSpuriously => k in s.waiters && !s.waiters[k].notified
  }

  function ApplyWait(s: Pool, k: nat, step: WaitStep): Pool
    requires WaitEnabled(s, k, step)
  {
    match step
    case Enter(timed, host) =>
      // The optional deadlock check throws before the mutex is locked.
      if s.cfg.deadlockChecks && host.ByTask? then s else BeginWait(s, k, Waiter(false, timed, host))
    case Retest =>
      if WaitDone(s) then LeaveWait(s, k)
      else s.(waiters := s.waiters[k := s.waiters[k].(notified := false)])
    case Expire => LeaveWait(s, k)
    case WakeSpuriously => s.(waiters := s.waiters[k := s.waiters[k].(notified := true)])
  }

  predicate WorkerEnabled(s: Pool, i: nat, step: WorkerStep) {
    && i < |s.workers|
    && var p := s.workers[i];
       match step
       case RunInit => p == Spawned
       case Top(pick) => p == LoopTop && (!QueueBlocked(s) ==> PickOk(s, pick))
       case Resume(pick) => p == Notified && (!QueueBlocked(s) ==> PickOk(s, pick))
       case Return(o) =>
         && p.Running? && !Hosting(s, i)
         && (p.id < |s.hist.submitted| ==> OutcomeOk(s.hist.submitted[p.id], o))
       case RunCleanup => p == Leaving
       case Spurious => p == Asleep
  }

  function ApplyWorker(s: Pool, i: nat, step: WorkerStep): Pool
    requires WorkerEnabled(s, i, step)
  {
    match step
    case RunInit =>
      s.(workers := s.workers[i := LoopTop],
         hist := s.hist.(inits := s.hist.inits + multiset{(|s.hist.sizes|, i)}))
    case Top(pick) => TestPredicate(Decrement(s), i, pick)
    case Resume(pick) => TestPredicate(s, i, pick)
    case Return(o) =>
      var id := s.workers[i].id;
      s.(workers := s.workers[i := LoopTop],
         hist := s.hist.(finished := s.hist.finished + [id], outcomes := s.hist.outcomes[id := o]))
    case RunCleanup =>
      s.(workers := s.workers[i := Stopped],
         hist := s.hist.(cleanups := s.hist.cleanups + multiset{(|s.hist.sizes|, i)}))
    case Spurious => s.(workers := s.workers[i := Notified])
  }

  predicate Enabled(s: Pool, step: Step) {
    match step
    case Client(op) => ClientEnabled(s, op)
    case Wait(k, op) => WaitEnabled(s, k, op)
    case Work(i, op) => WorkerEnabled(s, i, op)
    case Control(k) => ControlEnabled(s, k)
  }

  function Apply(s: Pool, step: Step): Pool
    requires Enabled(s, step)
  {
    match step
    case Client(op) => ApplyClient(s, op)
    case Wait(k, op) => ApplyWait(s, k, op)
    case Work(i, op) => ApplyWorker(s, i, op)
    case Control(k) => ControlStep(s, k)
  }

  /** A pool whose constructor is about to create its `n` threads. */
  function Init(cfg: Config, n: nat): Pool {
    Pool(cfg, [], 0, false, false, false, [], 0, 0, map[], [],
         Active(Construct, n, Create, false),
         History([], [], [], [], map[], multiset{}, [], multiset{}, multiset{}))
  }

  // ---------- Runs ----------

  predicate Valid(s: Pool, steps: seq<Step>)
    decreases |steps|
  {
    steps == [] || (Enabled(s, steps[0]) && Valid(Apply(s, steps[0]), steps[1..]))
  }

  function Final(s: Pool, steps: seq<Step>): Pool
    requires Valid(s, steps)
    decreases |steps|
  {
    if steps == [] then s else Final(Apply(s, steps[0]), steps[1..])
  }

  /** The run `steps` leads from `s` to `t`. */
  ghost predicate Ran(s: Pool, steps: seq<Step>, t: Pool) {
    Valid(s, steps) && Final(s, steps) == t
  }

  lemma RunOne(s: Pool, step: Step)
    requires Enabled(s, step)
    ensures Ran(s, [step], Apply(s, step))
  {
    var t := Apply(s, step);
    assert [step][0] == step && [step][1..] == [];
    assert Ran(t, [], t);
  }

  lemma {:induction false} RunConcat(s: Pool, a: seq<Step>, t: Pool, b: seq<Step>, u: Pool)
    requires Ran(s, a, t) && Ran(t, b, u)
    ensures Ran(s, a + b, u)
    decreases |a|
  {
    if a == [] {
      assert a + b == b;
    } else {
      assert (a + b)[0] == a[0] && (a + b)[1..] == a[1..] + b;
      RunConcat(Apply(s, a[0]), a[1..], t, b, u);
    }
  }

  lemma {:induction false} RunSplit(s: Pool, steps: seq<Step>, m: nat)
    requires Valid(s, steps) && m <= |steps|
    ensures Valid(s, steps[..m]) && Ran(Final(s, steps[..m]), steps[m..], Final(s, steps))
    decreases |steps|
  {
    if m == 0 {
      assert steps[..m] == [] && steps[m..] == steps;
    } else {
      assert steps[..m][0] == steps[0] && steps[..m][1..] == steps[1..][..m - 1] && steps[m..] == steps[1..][m - 1..];
      RunSplit(Apply(s, steps[0]), steps[1..], m - 1);
    }
  }

  lemma RunThen(s: Pool, a: seq<Step>, t: Pool, step: Step)
    requires Ran(s, a, t) && Enabled(t, step)
    ensures Ran(s, a + [step], Apply(t, step))
  {
    RunOne(t, step);
    RunConcat(s, a, t, [step], Apply(t, step));
  }
}
