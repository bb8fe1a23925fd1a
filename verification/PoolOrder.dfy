/** The order in which tasks are started. */
module PoolOrder {
  import opened PoolModel
  import opened PoolCounts
  import opened PoolHistory

  ghost predicate Increasing(q: seq<nat>) {
    forall i, j :: 0 <= i < j < |q| ==> q[i] < q[j]
  }

  ghost predicate Bounded(q: seq<nat>, n: nat) {
    forall i :: 0 <= i < |q| ==> q[i] < n
  }

  /** No started task overtook one of higher priority that was already submitted:
      neither one started later nor one still in the queue. */
  ghost predicate NoOvertaking(submitted: seq<Job>, started: seq<nat>, startedAt: seq<nat>, tasks: seq<nat>)
    requires |startedAt| == |started|
  {
    && Bounded(started, |submitted|) && Bounded(tasks, |submitted|)
    && (forall i, j :: 0 <= i < j < |started| && started[j] < startedAt[i] ==>
          submitted[started[j]].priority <= submitted[started[i]].priority)
    && (forall i, q :: 0 <= i < |started| && 0 <= q < |tasks| && tasks[q] < startedAt[i] ==>
          submitted[tasks[q]].priority <= submitted[started[i]].priority)
  }

  ghost predicate Ordered(priority: bool, tasks: seq<nat>, submitted: seq<Job>, started: seq<nat>, startedAt: seq<nat>,
      purged: multiset<nat>)
  {
    && |startedAt| == |started|
    && (forall i :: 0 <= i < |startedAt| ==> started[i] < startedAt[i] <= |submitted|)
    && Bounded(started, |submitted|) && Bounded(tasks, |submitted|)
    && (priority ==> NoOvertaking(submitted, started, startedAt, tasks))
    && (!priority ==> Increasing(started + tasks))
    && (!priority && purged == multiset{} ==> started + tasks == Upto(|submitted|))
  }

  ghost predicate OrderInv(s: Pool) {
    Ordered(s.cfg.priority, s.tasks, s.hist.submitted, s.hist.started, s.hist.startedAt, s.hist.purged)
  }

  lemma OrderFrame(s: Pool, t: Pool)
    requires OrderInv(s) && t.cfg == s.cfg && t.tasks == s.tasks && SameHistory(s.hist, t.hist)
    ensures OrderInv(t)
  {
  }

  lemma OrderTake(s: Pool, i: nat, pick: nat)
    requires OrderInv(s) && i < |s.workers| && PickOk(s, pick)
    ensures OrderInv(Take(s, i, pick))
  {
    var id := s.tasks[pick];
    var tasks := s.tasks[..pick] + s.tasks[pick + 1..];
    if s.cfg.priority {
      OrderTakePriority(s.hist.submitted, s.hist.started, s.hist.startedAt, s.tasks, pick);
    } else {
      assert (s.hist.started + [id]) + tasks == s.hist.started + s.tasks;
    }
  }

  lemma OrderTakePriority(submitted: seq<Job>, started: seq<nat>, startedAt: seq<nat>, tasks: seq<nat>, pick: nat)
    requires |startedAt| == |started| && NoOvertaking(submitted, started, startedAt, tasks)
    requires pick < |tasks|
    requires forall q :: 0 <= q < |tasks| ==> submitted[tasks[q]].priority <= submitted[tasks[pick]].priority
    ensures NoOvertaking(submitted, started + [tasks[pick]], startedAt + [|submitted|],
                         tasks[..pick] + tasks[pick + 1..])
  {
    var rest := tasks[..pick] + tasks[pick + 1..];
    forall q | 0 <= q < |rest|
      ensures exists q' :: 0 <= q' < |tasks| && rest[q] == tasks[q']
    {
      assert rest[q] == tasks[if q < pick then q else q + 1];
    }
  }

  lemma OrderTest(s: Pool, i: nat, pick: nat)
    requires OrderInv(s) && i < |s.workers| && (!QueueBlocked(s) ==> PickOk(s, pick))
    ensures OrderInv(TestPredicate(s, i, pick))
  {
    if WorkReady(s) && s.workersRunning {
      OrderTake(s, i, pick);
    }
  }

  lemma OrderWork(s: Pool, i: nat, step: WorkerStep)
    requires OrderInv(s) && WorkerEnabled(s, i, step)
    ensures OrderInv(ApplyWorker(s, i, step))
  {
    match step
    case Top(pick) =>
      DecrementEffect(s);
      OrderFrame(s, Decrement(s));
      OrderTest(Decrement(s), i, pick);
    case Resume(pick) => OrderTest(s, i, pick);
    case _ =>
  }

  lemma OrderDetach(s: Pool, c: nat)
    requires OrderInv(s) && c < |s.calls| && s.calls[c].next < |s.calls[c].jobs|
    ensures OrderInv(Detach(s, c))
  {
    var n := |s.hist.submitted|;
    assert s.hist.started + (s.tasks + [n]) == (s.hist.started + s.tasks) + [n];
    assert Upto(n + 1) == Upto(n) + [n];
  }

  lemma OrderClient(s: Pool, step: ClientStep)
    requires OrderInv(s) && ClientEnabled(s, step)
    ensures OrderInv(ApplyClient(s, step))
  {
    match step
    case DetachNext(c) => OrderDetach(s, c);
    case Purge => OrderPurge(s);
    case _ => OrderFrame(s, ApplyClient(s, step));
  }

  lemma OrderPurge(s: Pool)
    requires OrderInv(s) && ClientEnabled(s, Purge)
    ensures OrderInv(ApplyClient(s, Purge))
  {
    assert s.hist.started + [] == (s.hist.started + s.tasks)[..|s.hist.started|];
    assert s.tasks != [] ==> s.tasks[0] in multiset(s.tasks);
    assert s.hist.purged <= s.hist.purged + multiset(s.tasks);
  }

  lemma KeepOrder(s: Pool, step: Step)
    requires OrderInv(s) && Enabled(s, step)
    ensures OrderInv(Apply(s, step))
  {
    match step
    case Client(op) => OrderClient(s, op);
    case Wait(k, op) =>
      WaitEffect(s, k, op);
      OrderFrame(s, ApplyWait(s, k, op));
    case Work(i, op) => OrderWork(s, i, op);
    case Control(k) =>
      ControlEffect(s, k);
      OrderFrame(s, ControlStep(s, k));
  }
}
