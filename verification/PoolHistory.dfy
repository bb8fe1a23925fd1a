/** Task conservation: every submitted task is in exactly one place, and the
    places are the queue, a worker, the finished log and the purged tasks. */
module PoolHistory {
  import opened PoolModel
  import opened PoolCounts

  function Upto(n: nat): (r: seq<nat>)
    ensures |r| == n && forall j :: 0 <= j < n ==> r[j] == j
  {
    seq(n, j => j)
  }

  /** The tasks that workers are executing. */
  function RunningIds(ws: seq<Pc>): multiset<nat> {
    if ws == [] then multiset{} else RunningIds(ws[..|ws| - 1]) + IdOf(ws[|ws| - 1])
  }

  function IdOf(p: Pc): multiset<nat> {
    if p.Running? then multiset{p.id} else multiset{}
  }

  lemma {:induction false} RunningUpdate(ws: seq<Pc>, i: nat, p: Pc)
    requires i < |ws|
    ensures RunningIds(ws[i := p]) + IdOf(ws[i]) == RunningIds(ws) + IdOf(p)
  {
    var init, last := ws[..|ws| - 1], ws[|ws| - 1];
    if i < |init| {
      assert ws[i := p] == init[i := p] + [last] && ws == init + [last];
      RunningUpdate(init, i, p);
      RunningSnoc(init, last);
      RunningSnoc(init[i := p], last);
      RunningShift(RunningIds(init), RunningIds(init[i := p]), IdOf(ws[i]), IdOf(p), IdOf(last));
    } else {
      assert ws[i := p] == init + [p];
      RunningSnoc(init, p);
    }
  }

  lemma RunningSnoc(ws: seq<Pc>, p: Pc)
    ensures RunningIds(ws + [p]) == RunningIds(ws) + IdOf(p)
  {
    assert (ws + [p])[..|ws|] == ws;
  }

  lemma RunningShift(a: multiset<nat>, b: multiset<nat>, x: multiset<nat>, y: multiset<nat>, z: multiset<nat>)
    requires b + x == a + y
    ensures (b + z) + x == (a + z) + y
  {
    assert (b + z) + x == (b + x) + z;
    assert (a + z) + y == (a + y) + z;
  }

  /** A move between two places where no task is held. */
  lemma RunningMove(ws: seq<Pc>, i: nat, p: Pc)
    requires i < |ws| && !ws[i].Running? && !p.Running?
    ensures RunningIds(ws[i := p]) == RunningIds(ws)
  {
    RunningSame(ws, ws[i := p]);
  }

  lemma {:induction false} RunningSame(ws: seq<Pc>, vs: seq<Pc>)
    requires |vs| == |ws| && forall j :: 0 <= j < |ws| ==> IdOf(vs[j]) == IdOf(ws[j])
    ensures RunningIds(vs) == RunningIds(ws)
  {
    if ws == [] {
    } else {
      var n := |ws| - 1;
      RunningSame(ws[..n], vs[..n]);
    }
  }

  lemma {:induction false} RunningNone(ws: seq<Pc>)
    requires forall j :: 0 <= j < |ws| ==> !ws[j].Running?
    ensures RunningIds(ws) == multiset{}
  {
    if ws == [] {
    } else {
      RunningNone(ws[..|ws| - 1]);
    }
  }

  // ---------- Conservation ----------

  ghost predicate Conserved(tasks: multiset<nat>, running: multiset<nat>, finished: multiset<nat>,
      purged: multiset<nat>, submitted: nat)
  {
    tasks + running + finished + purged == multiset(Upto(submitted))
  }

  ghost predicate Recorded(finished: seq<nat>, outcomes: map<nat, Outcome>) {
    forall id :: id in outcomes <==> id in finished
  }

  /** submitted = queued + running + finished + purged, as multisets; the started
      tasks are those running or finished; exactly the finished ones have an
      outcome. */
  ghost predicate ConserveInv(s: Pool) {
    && Conserved(multiset(s.tasks), RunningIds(s.workers), multiset(s.hist.finished), s.hist.purged, |s.hist.submitted|)
    && multiset(s.hist.started) == RunningIds(s.workers) + multiset(s.hist.finished)
    && Recorded(s.hist.finished, s.hist.outcomes)
  }

  lemma RemoveAt(q: seq<nat>, k: nat)
    requires k < |q|
    ensures multiset(q) == multiset(q[..k] + q[k + 1..]) + multiset{q[k]}
  {
    assert q == q[..k] + [q[k]] + q[k + 1..];
  }

  lemma KeepTake(s: Pool, i: nat, pick: nat)
    requires ConserveInv(s) && i < |s.workers| && !s.workers[i].Running? && pick < |s.tasks|
    ensures ConserveInv(Take(s, i, pick))
  {
    RemoveAt(s.tasks, pick);
    var id := s.tasks[pick];
    RunningUpdate(s.workers, i, Running(id));
    assert RunningIds(s.workers[i := Running(id)]) == RunningIds(s.workers) + multiset{id};
    assert multiset(s.hist.started + [id]) == multiset(s.hist.started) + multiset{id};
  }

  lemma KeepTest(s: Pool, i: nat, pick: nat)
    requires ConserveInv(s) && i < |s.workers| && !s.workers[i].Running?
    requires !QueueBlocked(s) ==> pick < |s.tasks|
    ensures ConserveInv(TestPredicate(s, i, pick))
  {
    if WorkReady(s) && s.workersRunning {
      KeepTake(s, i, pick);
    } else {
      RunningMove(s.workers, i, Asleep);
      RunningMove(s.workers, i, Leaving);
    }
  }

  lemma KeepDecrement(s: Pool)
    requires ConserveInv(s)
    ensures ConserveInv(Decrement(s))
  {
    DecrementEffect(s);
  }

  lemma KeepReturn(s: Pool, i: nat, o: Outcome)
    requires ConserveInv(s) && WorkerEnabled(s, i, Return(o))
    ensures ConserveInv(ApplyWorker(s, i, Return(o)))
  {
    RunningUpdate(s.workers, i, LoopTop);
    var id := s.workers[i].id;
    var run := RunningIds(s.workers[i := LoopTop]);
    assert run + multiset{id} == RunningIds(s.workers);
    assert multiset(s.hist.finished + [id]) == multiset(s.hist.finished) + multiset{id};
    MoveAcross(multiset(s.tasks), run, multiset(s.hist.finished), s.hist.purged, multiset{id});
  }

  /** A task that moves from the running to the finished ones changes no sum. */
  lemma MoveAcross(tasks: multiset<nat>, run: multiset<nat>, finished: multiset<nat>, purged: multiset<nat>,
      x: multiset<nat>)
    ensures tasks + (run + x) + finished + purged == tasks + run + (finished + x) + purged
    ensures (run + x) + finished == run + (finished + x)
  {
  }

  lemma KeepConserveWork(s: Pool, i: nat, step: WorkerStep)
    requires ConserveInv(s) && WorkerEnabled(s, i, step)
    ensures ConserveInv(ApplyWorker(s, i, step))
  {
    match step
    case Top(pick) =>
      DecrementEffect(s);
      KeepDecrement(s);
      KeepTest(Decrement(s), i, pick);
    case Resume(pick) => KeepTest(s, i, pick);
    case Return(o) => KeepReturn(s, i, o);
    case RunInit => RunningMove(s.workers, i, LoopTop);
    case RunCleanup => RunningMove(s.workers, i, Stopped);
    case Spurious => RunningMove(s.workers, i, Notified);
  }

  lemma KeepDetach(s: Pool, c: nat)
    requires ConserveInv(s) && c < |s.calls| && s.calls[c].next < |s.calls[c].jobs|
    ensures ConserveInv(Detach(s, c))
  {
    var n := |s.hist.submitted|;
    assert Upto(n + 1) == Upto(n) + [n];
    assert multiset(s.tasks + [n]) == multiset(s.tasks) + multiset{n};
  }

  lemma KeepConserveClient(s: Pool, step: ClientStep)
    requires ConserveInv(s) && ClientEnabled(s, step)
    ensures ConserveInv(ApplyClient(s, step))
  {
    match step
    case DetachNext(c) => KeepDetach(s, c);
    case NotifyOne(w) => if IsAsleep(s, w) { RunningMove(s.workers, w, Notified); }
    case NotifyAll => RunningSame(s.workers, WakeAll(s.workers));
    case _ =>
  }

  /** The invariant reads the queue, the workers and the history only. */
  lemma ConserveFrame(s: Pool, t: Pool)
    requires ConserveInv(s) && t.tasks == s.tasks && RunningIds(t.workers) == RunningIds(s.workers)
    requires SameHistory(s.hist, t.hist)
    ensures ConserveInv(t)
  {
  }

  lemma RunningCreate(s: Pool)
    requires All(s.workers, Stopped) && s.ctl.Active?
    ensures RunningIds(CreateWorkers(s).workers) == RunningIds(s.workers)
  {
    RunningNone(s.workers);
    RunningNone(CreateWorkers(s).workers);
  }

  lemma RunningControl(s: Pool, k: nat)
    requires ControlEnabled(s, k) && LifeInv(s.cfg.pause, s.ctl, s.workers, s.workersRunning)
    ensures RunningIds(ControlStep(s, k).workers) == RunningIds(s.workers)
  {
    match s.ctl.phase
    case StopNotify => RunningSame(s.workers, WakeAll(s.workers));
    case Create => RunningCreate(s);
    case Spawn(j) => RunningSpawn(s, k);
    case Join(j) => assert ControlStep(s, k).workers == s.workers;
    case _ =>
  }

  lemma RunningSpawn(s: Pool, k: nat)
    requires ControlEnabled(s, k) && s.ctl.phase.Spawn? && LifeInv(s.cfg.pause, s.ctl, s.workers, s.workersRunning)
    ensures RunningIds(ControlStep(s, k).workers) == RunningIds(s.workers)
  {
    var j := s.ctl.phase.next;
    if j < |s.workers| {
      assert s.workers[j] == Unborn;
      RunningMove(s.workers, j, Spawned);
    }
  }

  lemma KeepConserveControl(s: Pool, k: nat)
    requires ControlInv(s) && ConserveInv(s) && ControlEnabled(s, k)
    ensures ConserveInv(ControlStep(s, k))
  {
    RunningControl(s, k);
    ControlEffect(s, k);
    ConserveFrame(s, ControlStep(s, k));
  }

  lemma KeepConserveWait(s: Pool, k: nat, step: WaitStep)
    requires ConserveInv(s) && WaitEnabled(s, k, step)
    ensures ConserveInv(ApplyWait(s, k, step))
  {
    WaitEffect(s, k, step);
    ConserveFrame(s, ApplyWait(s, k, step));
  }

  lemma KeepConserve(s: Pool, step: Step)
    requires ControlInv(s) && ConserveInv(s) && Enabled(s, step)
    ensures ConserveInv(Apply(s, step))
  {
    match step
    case Client(op) => KeepConserveClient(s, op);
    case Wait(k, op) => KeepConserveWait(s, k, op);
    case Work(i, op) => KeepConserveWork(s, i, op);
    case Control(k) => KeepConserveControl(s, k);
  }
}
