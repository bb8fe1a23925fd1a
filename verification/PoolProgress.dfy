/** The pool never runs in circles: without new client calls it takes boundedly
    many steps from every reachable state.  Under the rules it never gets stuck
    either: where it stops, everything that was asked of it is done. */
module PoolProgress {
  import opened PoolModel
  import opened PoolCounts
  import opened PoolOrder
  import opened PoolSafety
  import opened PoolRules
  import opened PoolWakeup
  import opened PoolCompletion

  /** The steps that threads already inside the pool take by themselves.  Tasks
      are taken to terminate, so a task's return is one of them. */
  predicate Internal(step: Step) {
    match step
    case Client(op) => op.DetachNext? || op.NotifyOne? || op.NotifyAll?
    case Wait(_, op) => op.Retest?
    case Work(_, op) => !op.Spurious?
    case Control(_) => true
  }

  predicate IsSpurious(step: Step) {
    match step
    case Wait(_, op) => op.WakeSpuriously?
    case Work(_, op) => op.Spurious?
    case _ => false
  }

  /** The time of a timed wait is up. */
  predicate IsExpiry(step: Step) {
    step.Wait? && step.wop.Expire?
  }

  // ---------- The measure ----------

  function Rank(p: Pc): nat {
    match p
    case Unborn => 4
    case Spawned => 3
    case LoopTop => 2
    case Asleep => 1
    case Notified => 2
    case Running(_) => 3
    case Leaving => 1
    case Stopped => 0
  }

  function JobsLeft(calls: seq<Call>): nat {
    if calls == [] then 0
    else
      var call := calls[|calls| - 1];
      JobsLeft(calls[..|calls| - 1]) + (if call.next < |call.jobs| then |call.jobs| - call.next else 0)
  }

  lemma {:induction false} JobsLeftNext(calls: seq<Call>, c: nat)
    requires c < |calls| && calls[c].next < |calls[c].jobs|
    ensures JobsLeft(calls[c := calls[c].(next := calls[c].next + 1)]) == JobsLeft(calls) - 1
  {
    var n := |calls| - 1;
    var after := calls[c := calls[c].(next := calls[c].next + 1)];
    if c < n {
      assert after[..n] == calls[..n][c := calls[c].(next := calls[c].next + 1)];
      JobsLeftNext(calls[..n], c);
    } else {
      assert after[..n] == calls[..n];
    }
  }

  /** The size of the next generation, while one is still to be created. */
  function Target(ctl: Control, hardware: nat): nat {
    if ctl.Active? && !ctl.phase.Spawn? && !ctl.phase.Restore? then DetermineThreadCount(ctl.n, hardware) else 0
  }

  function ControlRank(ctl: Control, workers: nat, hardware: nat): nat {
    if !ctl.Active? then 0
    else
      var create := 4 * Target(ctl, hardware) + 3;
      match ctl.phase
      case PreWait => create + 2 * workers + 5
      case InWait(_) => create + 2 * workers + 4
      case StopFlag => create + 2 * workers + 3
      case StopNotify => create + 2 * workers + 2
      case Join(k) => create + 1 + (if k < workers then workers - k else 0)
      case Create => create
      case Spawn(_) => 2
      case Restore => 1
  }

  /** What one pending `notify_all` may still cost. */
  function Crowd(s: Pool): nat {
    |s.workers| + Target(s.ctl, s.cfg.hardware) + 1
  }

  function WorkLeft(s: Pool): nat {
    Sum(Rank, s.workers) + 2 * |s.tasks| + 2 * s.pendingOne + 5 * JobsLeft(s.calls)
      + Crowd(s) * s.pendingAll + ControlRank(s.ctl, |s.workers|, s.cfg.hardware)
  }

  ghost function NotifiedKeys(waiters: map<nat, Waiter>): set<nat> {
    set k | k in waiters && waiters[k].notified
  }

  /** How many threads are inside `wait()`, or are a reset or destructor about to be. */
  ghost function Room(s: Pool): nat {
    |s.waiters.Keys| + (if AboutToWait(s.ctl) then 1 else 0)
  }

  /** What is left to do inside the pool: each unit of work can wake everyone who
      waits, a woken waiter can look again, and a waiter can give up. */
  ghost function Measure(s: Pool): nat {
    WorkLeft(s) * (Room(s) + 1) + |NotifiedKeys(s.waiters)| + |s.waiters.Keys|
  }

  // ---------- Internal steps decrease the measure ----------

  lemma RankWakeAll(ws: seq<Pc>)
    ensures Sum(Rank, WakeAll(ws)) <= Sum(Rank, ws) + |ws|
  {
    SumPointwise(Rank, AsleepOne, ws, WakeAll(ws));
    AtMostAll(ws);
  }

  lemma {:induction false} AtMostAll(ws: seq<Pc>)
    ensures Sum(AsleepOne, ws) <= |ws|
  {
    if ws == [] {
    } else {
      AtMostAll(ws[..|ws| - 1]);
    }
  }

  lemma CrowdTimes(a: nat, b: nat, k: nat)
    requires a <= b
    ensures a * k <= b * k
    ensures k > 0 ==> b * (k - 1) == b * k - b
  {
  }

  lemma FallsClient(s: Pool, step: ClientStep)
    requires ClientEnabled(s, step) && (step.DetachNext? || step.NotifyOne? || step.NotifyAll?)
    ensures WorkLeft(ApplyClient(s, step)) < WorkLeft(s)
    ensures ApplyClient(s, step).waiters == s.waiters
  {
    match step
    case DetachNext(c) => JobsLeftNext(s.calls, c);
    case NotifyOne(w) => if IsAsleep(s, w) { SumUpdate(Rank, s.workers, w, Notified); }
    case NotifyAll =>
      RankWakeAll(s.workers);
      CrowdTimes(Crowd(s), Crowd(s), s.pendingAll);
  }

  lemma FallsWork(s: Pool, i: nat, step: WorkerStep)
    requires WorkerEnabled(s, i, step) && !step.Spurious?
    ensures WorkLeft(ApplyWorker(s, i, step)) < WorkLeft(s)
  {
    var q := WorkerEffect(s, i, step);
    WorkTasks(s, i, step);
    SumUpdate(Rank, s.workers, i, q);
    CrowdWork(s, i, step);
  }

  lemma CrowdWork(s: Pool, i: nat, step: WorkerStep)
    requires WorkerEnabled(s, i, step)
    ensures Crowd(ApplyWorker(s, i, step)) == Crowd(s)
  {
    var q := WorkerEffect(s, i, step);
  }

  /** The part of the measure that steps of the controlling thread change. */
  function ControlLeft(s: Pool): nat {
    Sum(Rank, s.workers) + ControlRank(s.ctl, |s.workers|, s.cfg.hardware)
  }

  lemma FallsSpawn(s: Pool, k: nat)
    requires Inv(s) && ControlEnabled(s, k) && s.ctl.phase.Spawn?
    ensures Crowd(ControlStep(s, k)) <= Crowd(s) && ControlLeft(ControlStep(s, k)) < ControlLeft(s)
  {
    var j := s.ctl.phase.next;
    if j < |s.workers| { SumUpdate(Rank, s.workers, j, Spawned); }
  }

  lemma FallsJoin(s: Pool, k: nat)
    requires ControlEnabled(s, k) && s.ctl.phase.Join?
    ensures Crowd(ControlStep(s, k)) <= Crowd(s) && ControlLeft(ControlStep(s, k)) < ControlLeft(s)
  {
  }

  lemma FallsCreate(s: Pool)
    requires Inv(s) && s.ctl.Active? && s.ctl.phase == Create
    ensures Crowd(CreateWorkers(s)) <= Crowd(s) && ControlLeft(CreateWorkers(s)) < ControlLeft(s)
  {
    SumConstant(Rank, CreateWorkers(s).workers, 4);
  }

  lemma FallsStopNotify(s: Pool, k: nat)
    requires ControlEnabled(s, k) && s.ctl.phase.StopNotify?
    ensures Crowd(ControlStep(s, k)) <= Crowd(s) && ControlLeft(ControlStep(s, k)) < ControlLeft(s)
  {
    RankWakeAll(s.workers);
  }

  lemma FallsPlain(s: Pool, k: nat)
    requires ControlEnabled(s, k) && (s.ctl.phase.PreWait? || s.ctl.phase.StopFlag? || s.ctl.phase.Restore?)
    ensures Crowd(ControlStep(s, k)) <= Crowd(s) && ControlLeft(ControlStep(s, k)) < ControlLeft(s)
  {
  }

  lemma FallsControlParts(s: Pool, k: nat)
    requires Inv(s) && ControlEnabled(s, k)
    ensures Crowd(ControlStep(s, k)) <= Crowd(s) && ControlLeft(ControlStep(s, k)) < ControlLeft(s)
  {
    match s.ctl.phase
    case StopNotify => FallsStopNotify(s, k);
    case Create => FallsCreate(s);
    case Spawn(j) => FallsSpawn(s, k);
    case Join(j) => FallsJoin(s, k);
    case _ => FallsPlain(s, k);
  }

  lemma FallsControl(s: Pool, k: nat)
    requires Inv(s) && ControlEnabled(s, k)
    ensures WorkLeft(ControlStep(s, k)) < WorkLeft(s)
  {
    var t := ControlStep(s, k);
    ControlEffect(s, k);
    FallsControlParts(s, k);
    CrowdTimes(Crowd(t), Crowd(s), s.pendingAll);
  }

  // ---------- The waiters ----------

  lemma SubsetSize(a: set<nat>, b: set<nat>)
    requires a <= b
    ensures |a| <= |b|
    ensures a != b ==> |a| < |b|
  {
    assert b == a + (b - a);
    assert |b| == |a| + |b - a|;
    if a != b { var x :| x in b - a; }
  }

  lemma NotifiedAtMost(waiters: map<nat, Waiter>)
    ensures |NotifiedKeys(waiters)| <= |waiters.Keys|
  {
    SubsetSize(NotifiedKeys(waiters), waiters.Keys);
  }

  lemma Product(w: nat, c: nat, v: nat, d: nat)
    requires v < w && d <= c
    ensures v * (d + 1) + c + 1 <= w * (c + 1)
  {
    assert v * (d + 1) <= v * (c + 1);
    assert v * (c + 1) <= (w - 1) * (c + 1);
  }

  lemma ProductAtMost(w: nat, c: nat, v: nat, d: nat)
    requires v <= w && d <= c
    ensures v * (d + 1) <= w * (c + 1)
  {
    assert v * (d + 1) <= v * (c + 1);
    assert v * (c + 1) <= w * (c + 1);
  }

  /** A step that does some of the work, even if it wakes everyone. */
  lemma WorkFalls(s: Pool, t: Pool)
    requires WorkLeft(t) < WorkLeft(s) && Room(t) <= Room(s)
    requires |NotifiedKeys(t.waiters)| + |t.waiters.Keys| <= |NotifiedKeys(s.waiters)| + |s.waiters.Keys| + Room(s)
    ensures Measure(t) < Measure(s)
  {
    Product(WorkLeft(s), Room(s), WorkLeft(t), Room(t));
  }

  /** A step of a waiter that leaves, or goes back to sleep. */
  lemma WaitFalls(s: Pool, t: Pool)
    requires WorkLeft(t) <= WorkLeft(s) && Room(t) <= Room(s)
    requires |NotifiedKeys(t.waiters)| + |t.waiters.Keys| < |NotifiedKeys(s.waiters)| + |s.waiters.Keys|
    ensures Measure(t) < Measure(s)
  {
    ProductAtMost(WorkLeft(s), Room(s), WorkLeft(t), Room(t));
  }

  /** Leaving `wait()` takes the controlling thread to the next phase at most. */
  lemma LeaveWork(s: Pool, k: nat)
    requires ControlInv(s) && k in s.waiters
    ensures WorkLeft(LeaveWait(s, k)) <= WorkLeft(s) && Room(LeaveWait(s, k)) <= Room(s) - 1
  {
    var t := LeaveWait(s, k);
    assert t.waiters.Keys == s.waiters.Keys - {k};
    CrowdTimes(Crowd(t), Crowd(s), s.pendingAll);
  }

  lemma LeaveFalls(s: Pool, k: nat)
    requires ControlInv(s) && k in s.waiters
    ensures Measure(LeaveWait(s, k)) < Measure(s) && Room(LeaveWait(s, k)) <= Room(s)
  {
    var t := LeaveWait(s, k);
    LeaveWork(s, k);
    assert t.waiters.Keys == s.waiters.Keys - {k};
    SubsetSize(NotifiedKeys(t.waiters), NotifiedKeys(s.waiters));
    WaitFalls(s, t);
  }

  lemma SleepFalls(s: Pool, k: nat)
    requires WaitEnabled(s, k, Retest) && !WaitDone(s)
    ensures Measure(ApplyWait(s, k, Retest)) < Measure(s) && Room(ApplyWait(s, k, Retest)) == Room(s)
  {
    var t := ApplyWait(s, k, Retest);
    assert t.waiters.Keys == s.waiters.Keys;
    assert k in NotifiedKeys(s.waiters) && k !in NotifiedKeys(t.waiters);
    SubsetSize(NotifiedKeys(t.waiters), NotifiedKeys(s.waiters));
    WaitFalls(s, t);
  }

  lemma ClientFalls(s: Pool, step: ClientStep)
    requires ClientEnabled(s, step) && Internal(Client(step))
    ensures Measure(ApplyClient(s, step)) < Measure(s) && Room(ApplyClient(s, step)) == Room(s)
  {
    FallsClient(s, step);
    WorkFalls(s, ApplyClient(s, step));
  }

  lemma WorkerFalls(s: Pool, i: nat, step: WorkerStep)
    requires WorkerEnabled(s, i, step) && !step.Spurious?
    ensures Measure(ApplyWorker(s, i, step)) < Measure(s) && Room(ApplyWorker(s, i, step)) == Room(s)
  {
    var t := ApplyWorker(s, i, step);
    FallsWork(s, i, step);
    var q := WorkerEffect(s, i, step);
    NotifiedAtMost(t.waiters);
    WorkFalls(s, t);
  }

  lemma BeginWaiters(s: Pool, k: nat, w: Waiter)
    requires AboutToWait(s.ctl) && k !in s.waiters && w.host == ByController && !w.notified
    ensures var t := BeginWait(s, k, w);
      && Room(t) <= Room(s) && NotifiedKeys(t.waiters) == NotifiedKeys(s.waiters)
      && |t.waiters.Keys| <= |s.waiters.Keys| + 1
  {
    var t := BeginWait(s, k, w);
    if !WaitDone(s) { assert t.waiters.Keys == s.waiters.Keys + {k}; }
  }

  lemma PreWaitWaiters(s: Pool, k: nat)
    requires ControlEnabled(s, k) && s.ctl.phase == PreWait
    ensures var t := ControlStep(s, k);
      && Room(t) <= Room(s) && NotifiedKeys(t.waiters) == NotifiedKeys(s.waiters)
      && |t.waiters.Keys| <= |s.waiters.Keys| + 1
  {
    BeginWaiters(s, k, Waiter(false, false, ByController));
  }

  lemma OtherPhaseWaiters(s: Pool, k: nat)
    requires ControlEnabled(s, k) && s.ctl.phase != PreWait
    ensures ControlStep(s, k).waiters == s.waiters && !AboutToWait(ControlStep(s, k).ctl)
  {
  }

  lemma ControlFalls(s: Pool, k: nat)
    requires Inv(s) && ControlEnabled(s, k)
    ensures Measure(ControlStep(s, k)) < Measure(s) && Room(ControlStep(s, k)) <= Room(s)
  {
    FallsControl(s, k);
    if s.ctl.phase == PreWait { PreWaitWaiters(s, k); } else { OtherPhaseWaiters(s, k); }
    WorkFalls(s, ControlStep(s, k));
  }

  /** Every step that a thread inside the pool takes by itself, and the expiry of a
      timed wait, lower the measure, in every reachable state. */
  lemma InternalFalls(s: Pool, step: Step)
    requires Inv(s) && Enabled(s, step) && (Internal(step) || IsExpiry(step))
    ensures Measure(Apply(s, step)) < Measure(s) && Room(Apply(s, step)) <= Room(s)
  {
    match step
    case Client(op) => ClientFalls(s, op);
    case Wait(k, op) => if op.Retest? && !WaitDone(s) { SleepFalls(s, k); } else { LeaveFalls(s, k); }
    case Work(i, op) => WorkerFalls(s, i, op);
    case Control(k) => ControlFalls(s, k);
  }

  lemma SpuriousWork(s: Pool, i: nat)
    requires WorkerEnabled(s, i, Spurious)
    ensures var t := ApplyWorker(s, i, Spurious); Measure(t) == Measure(s) + Room(s) + 1 && Room(t) == Room(s)
  {
    SumUpdate(Rank, s.workers, i, Notified);
    CrowdWork(s, i, Spurious);
    assert WorkLeft(ApplyWorker(s, i, Spurious)) == WorkLeft(s) + 1;
    Distribute(WorkLeft(s), Room(s) + 1);
  }

  lemma Distribute(w: nat, c: nat)
    ensures (w + 1) * c == w * c + c
  {
  }

  lemma SpuriousWait(s: Pool, k: nat)
    requires WaitEnabled(s, k, WakeSpuriously)
    ensures var t := ApplyWait(s, k, WakeSpuriously); Measure(t) <= Measure(s) + 1 && Room(t) == Room(s)
  {
    WaitEffect(s, k, WakeSpuriously);
    var t := ApplyWait(s, k, WakeSpuriously);
    assert t.waiters.Keys == s.waiters.Keys;
    assert NotifiedKeys(t.waiters) == NotifiedKeys(s.waiters) + {k};
  }

  /** A spurious wake-up adds one unit of work at most. */
  lemma SpuriousAdds(s: Pool, step: Step)
    requires Enabled(s, step) && IsSpurious(step)
    ensures Measure(Apply(s, step)) <= Measure(s) + Room(s) + 1 && Room(Apply(s, step)) == Room(s)
  {
    match step
    case Wait(k, op) => SpuriousWait(s, k);
    case Work(i, op) => SpuriousWork(s, i);
    case _ =>
  }

  function CountSpurious(steps: seq<Step>): nat {
    if steps == [] then 0 else (if IsSpurious(steps[0]) then 1 else 0) + CountSpurious(steps[1..])
  }

  /** A run without new calls of clients. */
  predicate Undisturbed(steps: seq<Step>) {
    forall j :: 0 <= j < |steps| ==> Internal(steps[j]) || IsExpiry(steps[j]) || IsSpurious(steps[j])
  }

  /** The rules under which every call completes: those that keep the wake-ups of
      tasks and of waiters, and no task waits for its own pool unless that is
      rejected. */
  predicate Sound(r: Rules, cfg: Config) {
    (cfg.pause ==> !r.resetUnpaused) && Quiet(r, cfg) && (r.selfWait ==> cfg.deadlockChecks)
  }

  ghost predicate NoSelfWaits(waiters: map<nat, Waiter>) {
    forall k :: k in waiters ==> !waiters[k].host.ByTask?
  }

  ghost predicate Good(s: Pool) {
    Inv(s) && WakeInv(s) && DoneInv(s) && NoSelfWaits(s.waiters)
  }

  lemma GoodStep(r: Rules, s: Pool, step: Step)
    requires Good(s) && Enabled(s, step) && Allowed(r, s, step) && Sound(r, s.cfg)
    ensures Good(Apply(s, step)) && Apply(s, step).cfg == s.cfg
  {
    KeepInv(s, step);
    WakeStep(r, s, step);
    DoneStep(r, s, step);
    ConfigStep(s, step);
    if !s.cfg.deadlockChecks { NoSelfWait(r, s, step); }
  }

  lemma NoSelfWait(r: Rules, s: Pool, step: Step)
    requires Enabled(s, step) && Allowed(r, s, step) && !r.selfWait && NoSelfWaits(s.waiters)
    ensures NoSelfWaits(Apply(s, step).waiters)
  {
    match step
    case Client(op) =>
    case Wait(k, op) => NoSelfWaiter(r, s, k, op);
    case Work(i, op) => var q := WorkerEffect(s, i, op);
    case Control(k) => NoSelfWaitControl(s, k);
  }

  lemma NoSelfWaitControl(s: Pool, k: nat)
    requires ControlEnabled(s, k) && NoSelfWaits(s.waiters)
    ensures NoSelfWaits(ControlStep(s, k).waiters)
  {
  }

  lemma NoSelfWaiter(r: Rules, s: Pool, k: nat, step: WaitStep)
    requires WaitEnabled(s, k, step) && Allowed(r, s, Wait(k, step)) && !r.selfWait && NoSelfWaits(s.waiters)
    ensures NoSelfWaits(ApplyWait(s, k, step).waiters)
  {
  }

  lemma {:induction false} GoodRun(r: Rules, s: Pool, steps: seq<Step>)
    requires Good(s) && Valid(s, steps) && Follows(r, s, steps) && Sound(r, s.cfg)
    ensures Good(Final(s, steps))
    decreases |steps|
  {
    if steps == [] {
    } else {
      GoodStep(r, s, steps[0]);
      GoodRun(r, Apply(s, steps[0]), steps[1..]);
    }
  }

  lemma GoodInit(cfg: Config, n: nat)
    ensures Good(Init(cfg, n))
  {
    InitInv(cfg, n);
    assert Sum(AsleepOne, []) == 0;
  }

  /** Every state reachable under the rules is good. */
  lemma GoodReached(r: Rules, cfg: Config, n: nat, s: Pool)
    requires ReachedUnder(r, cfg, n, s) && Sound(r, cfg)
    ensures Good(s) && s.cfg == cfg
  {
    var steps :| Ran(Init(cfg, n), steps, s) && Follows(r, Init(cfg, n), steps);
    GoodInit(cfg, n);
    GoodRun(r, Init(cfg, n), steps);
    ConfigKept(Init(cfg, n), steps);
  }

  lemma UndisturbedTail(steps: seq<Step>)
    requires Undisturbed(steps) && steps != []
    ensures (Internal(steps[0]) || IsExpiry(steps[0]) || IsSpurious(steps[0])) && Undisturbed(steps[1..])
    ensures CountSpurious(steps) == (if IsSpurious(steps[0]) then 1 else 0) + CountSpurious(steps[1..])
  {
    assert forall j :: 0 <= j < |steps[1..]| ==> steps[1..][j] == steps[j + 1];
  }

  lemma StepBound(s: Pool, step: Step, c: nat)
    requires Inv(s) && Enabled(s, step) && (Internal(step) || IsExpiry(step) || IsSpurious(step))
    requires Room(s) + 2 <= c
    ensures var t := Apply(s, step);
      Inv(t) && Room(t) + 2 <= c && Measure(t) + 1 <= Measure(s) + (if IsSpurious(step) then c else 0)
  {
    KeepInv(s, step);
    if IsSpurious(step) { SpuriousAdds(s, step); } else { InternalFalls(s, step); }
  }

  /** `c` for every spurious wake-up. */
  function SpuriousCost(steps: seq<Step>, c: nat): nat {
    if steps == [] then 0 else (if IsSpurious(steps[0]) then c else 0) + SpuriousCost(steps[1..], c)
  }

  lemma {:induction false} CostIs(steps: seq<Step>, c: nat)
    ensures SpuriousCost(steps, c) == c * CountSpurious(steps)
    decreases |steps|
  {
    if steps == [] {
    } else {
      CostIs(steps[1..], c);
      OneMore(c, if IsSpurious(steps[0]) then 1 else 0, CountSpurious(steps[1..]));
    }
  }

  lemma OneMore(c: nat, a: nat, b: nat)
    ensures c * (a + b) == c * a + c * b
  {
  }

  /** From every state that satisfies the invariant, with any number of threads
      inside `wait()`: without new client calls a run, with timed waits expiring
      at any time, has at most `Measure` steps, plus a constant for every
      spurious wake-up. */
  lemma {:induction false} BoundedBy(s: Pool, steps: seq<Step>, c: nat)
    requires Inv(s) && Valid(s, steps) && Undisturbed(steps) && Room(s) + 2 <= c
    ensures |steps| <= Measure(s) + SpuriousCost(steps, c)
    decreases |steps|
  {
    if steps == [] {
    } else {
      UndisturbedTail(steps);
      StepBound(s, steps[0], c);
      BoundedBy(Apply(s, steps[0]), steps[1..], c);
    }
  }

  /** Every run without new client calls is bounded, from every reachable state and
      whatever clients did before. */
  lemma BoundedRuns(cfg: Config, n: nat, past: seq<Step>, s: Pool, steps: seq<Step>)
    requires Ran(Init(cfg, n), past, s) && Valid(s, steps) && Undisturbed(steps)
    ensures |steps| <= Measure(s) + (Room(s) + 2) * CountSpurious(steps)
  {
    Reachable(cfg, n, past);
    BoundedBy(s, steps, Room(s) + 2);
    CostIs(steps, Room(s) + 2);
  }

  // ---------- Joining the workers ----------

  ghost predicate Joining(s: Pool) {
    s.ctl.Active? && s.ctl.phase.Join?
  }

  lemma JoinStep(s: Pool, step: Step)
    requires Inv(s) && Joining(s) && Enabled(s, step) && Joining(Apply(s, step))
    ensures var t := Apply(s, step);
      Sum(Rank, t.workers) <= Sum(Rank, s.workers) - (if step.Work? then 1 else 0)
  {
    match step
    case Client(op) => JoinClient(s, op);
    case Wait(k, op) => WaitEffect(s, k, op);
    case Work(i, op) => JoinWork(s, i, op);
    case Control(k) => assert ControlStep(s, k).workers == s.workers;
  }

  lemma JoinWork(s: Pool, i: nat, step: WorkerStep)
    requires !s.workersRunning && None(s.workers, Asleep) && WorkerEnabled(s, i, step)
    ensures Sum(Rank, ApplyWorker(s, i, step).workers) <= Sum(Rank, s.workers) - 1
  {
    var q := WorkerEffect(s, i, step);
    SumUpdate(Rank, s.workers, i, q);
  }

  lemma JoinClient(s: Pool, step: ClientStep)
    requires Joining(s) && None(s.workers, Asleep) && ClientEnabled(s, step)
    ensures ApplyClient(s, step).workers == s.workers
  {
    if step.NotifyAll? { assert WakeAll(s.workers) == s.workers; }
  }

  function CountWork(steps: seq<Step>): nat {
    if steps == [] then 0 else (if steps[0].Work? then 1 else 0) + CountWork(steps[1..])
  }

  ghost predicate JoiningThroughout(s: Pool, steps: seq<Step>)
    requires Valid(s, steps)
    decreases |steps|
  {
    Joining(s) && (steps == [] || JoiningThroughout(Apply(s, steps[0]), steps[1..]))
  }

  /** While the workers are being joined, every step of a worker lowers the sum of
      the ranks, and nothing raises it, whatever clients do: so there are at most
      three steps of each worker. */
  lemma {:induction false} JoinBounded(s: Pool, steps: seq<Step>)
    requires Inv(s) && Valid(s, steps) && JoiningThroughout(s, steps)
    ensures CountWork(steps) + Sum(Rank, Final(s, steps).workers) <= Sum(Rank, s.workers)
    decreases |steps|
  {
    if steps == [] {
    } else {
      KeepInv(s, steps[0]);
      JoinStep(s, steps[0]);
      JoinBounded(Apply(s, steps[0]), steps[1..]);
    }
  }

  /** The next `join` returns, or the worker it waits for can take a step, unless
      that worker's task is inside `wait()` on its own pool. */
  lemma JoinCanMove(s: Pool) returns (step: Step)
    requires Inv(s) && Joining(s)
    requires s.ctl.phase.next < |s.workers| ==> !Hosting(s, s.ctl.phase.next)
    ensures Enabled(s, step)
    ensures step == Control(0) || (step.Work? && step.i == s.ctl.phase.next)
  {
    var j := s.ctl.phase.next;
    if j == |s.workers| || s.workers[j] == Stopped {
      step := Control(0);
    } else {
      var move := WorkerMoves(s, j);
      step := Work(j, move);
    }
  }

  // ---------- Where no internal step is possible, everything is done ----------

  /** The controlling thread is about to restore `paused`. */
  predicate AtRestore(s: Pool) {
    s.ctl.Active? && s.ctl.phase == Restore
  }

  /** No thread inside the pool can move by itself; with `hold` the controlling
      thread may be held back where it restores `paused`. */
  ghost predicate Still(hold: bool, s: Pool) {
    forall step :: Internal(step) && Enabled(s, step) ==> hold && step.Control? && AtRestore(s)
  }

  ghost predicate Quiescent(s: Pool) {
    Still(false, s)
  }

  lemma {:induction false} MaximalPick(submitted: seq<Job>, q: seq<nat>) returns (m: nat)
    requires q != [] && Bounded(q, |submitted|)
    ensures m < |q| && forall j :: 0 <= j < |q| ==> submitted[q[j]].priority <= submitted[q[m]].priority
  {
    if |q| == 1 {
      m := 0;
    } else {
      m := MaximalPick(submitted, q[..|q| - 1]);
      if submitted[q[m]].priority < submitted[q[|q| - 1]].priority { m := |q| - 1; }
    }
  }

  /** `pop_task` can always choose when the queue is not empty. */
  lemma SomePick(s: Pool) returns (pick: nat)
    requires OrderInv(s)
    ensures !QueueBlocked(s) ==> PickOk(s, pick)
  {
    pick := 0;
    if !QueueBlocked(s) && s.cfg.priority {
      pick := MaximalPick(s.hist.submitted, s.tasks);
    }
  }

  /** Where a worker waits for somebody else. */
  predicate Resting(p: Pc) {
    p == Unborn || p == Asleep || p == Stopped
  }

  lemma WorkerMoves(s: Pool, i: nat) returns (step: WorkerStep)
    requires Inv(s) && i < |s.workers| && !Resting(s.workers[i]) && !Hosting(s, i)
    ensures Enabled(s, Work(i, step)) && Internal(Work(i, step))
  {
    var pick := SomePick(s);
    match s.workers[i]
    case Spawned => step := RunInit;
    case LoopTop => step := Top(pick);
    case Notified => step := Resume(pick);
    case Leaving => step := RunCleanup;
    case Running(id) => step := Return(Value(0));
    case _ => assert false;
  }

  lemma WorkersResting(hold: bool, s: Pool, i: nat)
    requires Inv(s) && NoSelfWaits(s.waiters) && Still(hold, s) && i < |s.workers|
    ensures Resting(s.workers[i])
  {
    if !Resting(s.workers[i]) {
      var step := WorkerMoves(s, i);
      assert false;
    }
  }

  lemma SomeNotify(s: Pool) returns (step: Step)
    requires s.pendingOne > 0
    ensures step.Client? && Enabled(s, step) && Internal(step)
  {
    step := Client(NotifyOne(0));
    if w :| 0 <= w < |s.workers| && s.workers[w] == Asleep {
      step := Client(NotifyOne(w));
    }
  }

  ghost predicate CallsDone(s: Pool) {
    forall c :: 0 <= c < |s.calls| ==> s.calls[c].next == |s.calls[c].jobs|
  }

  lemma NothingPending(hold: bool, s: Pool)
    requires Inv(s) && Still(hold, s)
    ensures s.pendingOne == 0 && s.pendingAll == 0
    ensures forall k :: k in s.waiters ==> !s.waiters[k].notified
    ensures s.ctl != Dead ==> CallsDone(s)
  {
    assert !Enabled(s, Client(NotifyAll));
    if s.pendingOne > 0 {
      var step := SomeNotify(s);
      assert false;
    }
    forall k | k in s.waiters ensures !s.waiters[k].notified {
      assert Enabled(s, Wait(k, Retest)) <==> s.waiters[k].notified;
    }
    forall c | 0 <= c < |s.calls| && s.ctl != Dead ensures s.calls[c].next == |s.calls[c].jobs| {
      assert CallOkAt(s, c);
      assert Enabled(s, Client(DetachNext(c))) <==> s.calls[c].next < |s.calls[c].jobs|;
    }
  }

  ghost predicate CallOkAt(s: Pool, c: nat) {
    c < |s.calls| && s.calls[c].next <= |s.calls[c].jobs|
  }

  /** A worker that is being joined and rests has stopped. */
  lemma JoinReady(hold: bool, s: Pool)
    requires Inv(s) && NoSelfWaits(s.waiters) && Still(hold, s) && Joining(s) && s.ctl.phase.next < |s.workers|
    ensures s.workers[s.ctl.phase.next] == Stopped
  {
    WorkersResting(hold, s, s.ctl.phase.next);
  }

  lemma ControlMoves(s: Pool)
    requires s.ctl.Active? && !s.ctl.phase.InWait?
    requires AboutToWait(s.ctl) ==> s.waiters == map[]
    requires s.ctl.phase.Join? && s.ctl.phase.next < |s.workers| ==> s.workers[s.ctl.phase.next] == Stopped
    ensures Enabled(s, Control(0)) && Internal(Control(0))
  {
  }

  /** At rest the controlling thread is done, inside `wait()`, or held back. */
  lemma ControlResting(hold: bool, s: Pool)
    requires Inv(s) && DoneInv(s) && NoSelfWaits(s.waiters) && Still(hold, s) && s.ctl.Active?
    ensures s.ctl.phase.InWait? || (hold && AtRestore(s))
  {
    if !s.ctl.phase.InWait? && !(hold && AtRestore(s)) {
      if Joining(s) && s.ctl.phase.next < |s.workers| { JoinReady(hold, s); }
      ControlMoves(s);
      assert false;
    }
  }

  lemma NobodyRuns(hold: bool, s: Pool)
    requires Inv(s) && NoSelfWaits(s.waiters) && Still(hold, s) && !Spawning(s)
    ensures s.tasksRunning == 0
    ensures s.workersRunning ==> s.workers != [] && All(s.workers, Asleep)
  {
    forall i | 0 <= i < |s.workers|
      ensures Counted(s.workers[i]) == 0 && (s.workersRunning ==> s.workers[i] == Asleep)
    {
      WorkersResting(hold, s, i);
    }
    SumZero(Counted, s.workers);
  }

  /** Where the wake-ups of tasks are kept, an unpaused pool at rest is empty. */
  lemma NothingQueued(hold: bool, s: Pool)
    requires Inv(s) && WakeInv(s) && NoSelfWaits(s.waiters) && Still(hold, s) && !Spawning(s)
    ensures s.workersRunning && !s.paused ==> s.tasks == []
  {
    NobodyRuns(hold, s);
    NothingPending(hold, s);
    if s.workersRunning {
      SumZero(NotifiedOne, s.workers);
      SumZero(AsleepOne, s.workers);
      assert AsleepOne(s.workers[0]) == 1;
    }
  }

  predicate Spawning(s: Pool) {
    s.ctl.Active? && s.ctl.phase.Spawn?
  }

  /** Everything the clients asked for is done: no reset, construction or
      destruction is in progress; unless the pool was destroyed, every call of
      `detach_task` or a splitter has submitted all its tasks, every `wait()` has
      returned, all workers sleep, and unless the pool is paused every submitted
      task is finished or purged. */
  ghost predicate Settled(s: Pool) {
    && (s.ctl == Idle || s.ctl == Dead)
    && s.pendingOne == 0 && s.pendingAll == 0 && s.tasksRunning == 0
    && (s.ctl == Dead ==> All(s.workers, Stopped))
    && (s.ctl == Idle ==>
          && s.waiters == map[] && All(s.workers, Asleep)
          && (forall c :: 0 <= c < |s.calls| ==> s.calls[c].next == |s.calls[c].jobs|)
          && (!s.paused ==> forall id: nat :: id < |s.hist.submitted| ==>
                multiset(s.hist.finished)[id] + s.hist.purged[id] == 1))
  }

  lemma NobodyLeft(waiters: map<nat, Waiter>)
    requires forall k :: k in waiters ==> waiters[k].notified
    requires forall k :: k in waiters ==> !waiters[k].notified
    ensures waiters == map[]
  {
    if k :| k in waiters {
      assert false;
    }
  }

  lemma NoWaiters(s: Pool)
    requires Good(s) && Quiescent(s) && s.workersRunning && !Spawning(s)
    ensures s.waiters == map[]
  {
    NobodyRuns(false, s);
    NothingQueued(false, s);
    NothingPending(false, s);
    NobodyLeft(s.waiters);
  }

  /** Where no thread of the pool can move by itself, everything is settled. */
  lemma QuiescentIsSettled(s: Pool)
    requires Good(s) && Quiescent(s)
    ensures Settled(s)
  {
    if s.ctl.Active? { ControlResting(false, s); }
    NobodyRuns(false, s);
    NothingPending(false, s);
    if s.workersRunning {
      NoWaiters(s);
      NothingQueued(false, s);
      NothingRunning(s);
      forall id: nat | id < |s.hist.submitted| && !s.paused
        ensures multiset(s.hist.finished)[id] + s.hist.purged[id] == 1
      {
        OneEach(s, id);
      }
    }
  }

  /** From every state reachable under the rules: every run without new client
      calls is finite, with an explicit bound, and where it cannot continue every
      call has completed and every task has been run. */
  lemma EveryCallCompletes(r: Rules, cfg: Config, n: nat, s: Pool, steps: seq<Step>)
    requires ReachedUnder(r, cfg, n, s) && Sound(r, cfg)
    requires Valid(s, steps) && Undisturbed(steps)
    ensures |steps| <= Measure(s) + (Room(s) + 2) * CountSpurious(steps)
    ensures Quiescent(Final(s, steps)) ==> Settled(Final(s, steps))
  {
    GoodReached(r, cfg, n, s);
    BoundedBy(s, steps, Room(s) + 2);
    CostIs(steps, Room(s) + 2);
    UndisturbedFollows(r, s, steps);
    GoodRun(r, s, steps);
    if Quiescent(Final(s, steps)) { QuiescentIsSettled(Final(s, steps)); }
  }

  /** No rule restricts a run without new client calls. */
  lemma {:induction false} UndisturbedFollows(r: Rules, s: Pool, steps: seq<Step>)
    requires Valid(s, steps) && Undisturbed(steps)
    ensures Follows(r, s, steps)
    decreases |steps|
  {
    if steps == [] {
    } else {
      UndisturbedTail(steps);
      UndisturbedFollows(r, Apply(s, steps[0]), steps[1..]);
    }
  }

  // ---------- Coming to rest ----------

  /** A run of internal steps; with `hold` none of them restores `paused`. */
  ghost predicate Inside(hold: bool, s: Pool, steps: seq<Step>)
    requires Valid(s, steps)
    decreases |steps|
  {
    steps == [] ||
    (&& Internal(steps[0]) && !(hold && steps[0].Control? && AtRestore(s))
     && Inside(hold, Apply(s, steps[0]), steps[1..]))
  }

  lemma {:induction false} InsideUndisturbed(hold: bool, s: Pool, steps: seq<Step>)
    requires Valid(s, steps) && Inside(hold, s, steps)
    ensures Undisturbed(steps) && forall j :: 0 <= j < |steps| ==> Internal(steps[j])
    decreases |steps|
  {
    if steps == [] {
    } else {
      InsideUndisturbed(hold, Apply(s, steps[0]), steps[1..]);
      assert forall j :: 1 <= j < |steps| ==> steps[j] == steps[1..][j - 1];
    }
  }

  /** From every state the threads of the pool can go on until none of them can move. */
  lemma {:induction false} ComesToRest(hold: bool, s: Pool) returns (steps: seq<Step>)
    requires Inv(s)
    ensures Valid(s, steps) && Inside(hold, s, steps) && Still(hold, Final(s, steps))
    decreases Measure(s)
  {
    if Still(hold, s) {
      steps := [];
    } else {
      var step :| Internal(step) && Enabled(s, step) && !(hold && step.Control? && AtRestore(s));
      KeepInv(s, step);
      InternalFalls(s, step);
      var rest := ComesToRest(hold, Apply(s, step));
      steps := [step] + rest;
      assert steps[0] == step && steps[1..] == rest;
    }
  }

  /** From every state reachable under the rules they can bring the pool to where
      everything is settled, by themselves. */
  lemma CanSettle(r: Rules, cfg: Config, n: nat, s: Pool) returns (steps: seq<Step>)
    requires ReachedUnder(r, cfg, n, s) && Sound(r, cfg)
    ensures Valid(s, steps) && Settled(Final(s, steps))
    ensures forall j :: 0 <= j < |steps| ==> Internal(steps[j])
  {
    GoodReached(r, cfg, n, s);
    steps := ComesToRest(false, s);
    InsideUndisturbed(false, s, steps);
    UndisturbedFollows(r, s, steps);
    GoodRun(r, s, steps);
    QuiescentIsSettled(Final(s, steps));
  }

  // ---------- unpause() ----------

  lemma IdleStep(s: Pool, step: Step)
    requires s.ctl == Idle && Enabled(s, step) && Internal(step)
    ensures Apply(s, step).ctl == Idle && Apply(s, step).paused == s.paused
  {
    match step
    case Client(op) =>
    case Wait(k, op) => WaitEffect(s, k, op);
    case Work(i, op) => var q := WorkerEffect(s, i, op);
    case Control(k) =>
  }

  lemma {:induction false} IdleRun(s: Pool, steps: seq<Step>)
    requires s.ctl == Idle && Valid(s, steps) && Inside(false, s, steps)
    ensures Final(s, steps).ctl == Idle && Final(s, steps).paused == s.paused
    decreases |steps|
  {
    if steps == [] {
    } else {
      IdleStep(s, steps[0]);
      IdleRun(Apply(s, steps[0]), steps[1..]);
    }
  }

  /** After an unpause the workers execute the tasks again: by their own steps they
      bring the pool to where every submitted task is finished or purged. */
  lemma UnpauseResumes(r: Rules, cfg: Config, n: nat, s: Pool) returns (steps: seq<Step>, t: Pool)
    requires ReachedUnder(r, cfg, n, s) && Sound(r, cfg) && cfg.pause && s.ctl == Idle
    ensures Enabled(s, Client(Unpause)) && Ran(Apply(s, Client(Unpause)), steps, t)
    ensures forall j :: 0 <= j < |steps| ==> Internal(steps[j])
    ensures forall id: nat :: id < |t.hist.submitted| ==> multiset(t.hist.finished)[id] + t.hist.purged[id] == 1
    ensures |s.hist.submitted| <= |t.hist.submitted|
  {
    GoodReached(r, cfg, n, s);
    var u := Apply(s, Client(Unpause));
    GoodStep(r, s, Client(Unpause));
    steps := ComesToRest(false, u);
    t := Final(u, steps);
    InsideUndisturbed(false, u, steps);
    UndisturbedFollows(r, u, steps);
    GoodRun(r, u, steps);
    IdleRun(u, steps);
    QuiescentIsSettled(t);
    LogsGrow(u, steps);
  }
}
