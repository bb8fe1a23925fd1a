/** The results of submitted tasks do not depend on the schedule. */
module PoolFutures {
  import opened PoolModel
  import opened PoolCounts
  import opened PoolHistory
  import opened PoolCalls
  import opened PoolSafety
  import opened PoolLoops

  /** A future: not ready, ready with a value or an exception, or broken because
      its task was purged. */
  datatype Future = Pending | Ready(outcome: Outcome) | Broken

  /** What `multi_future::get()` does: it returns all values, rethrows the first
      exception, reports a broken promise, or blocks at the k-th future. */
  datatype GetResult = Values(vs: seq<int>) | Rethrown(e: int) | BrokenPromise(k: nat) | BlockedAt(k: nat)

  predicate HasValue(f: Future) {
    f.Ready? && f.outcome.Value?
  }

  /** What the first future without a value makes of the result. */
  ghost predicate StopsWith(f: Future, k: nat, r: GetResult) {
    match f
    case Pending => r == BlockedAt(k)
    case Broken => r == BrokenPromise(k)
    case Ready(o) => o.Thrown? && r == Rethrown(o.e)
  }

  /** The specification of `get()`: it depends on the first future without a
      value only, and without one it is all the values in order. */
  ghost predicate GetSpec(fs: seq<Future>, r: GetResult) {
    if forall j :: 0 <= j < |fs| ==> HasValue(fs[j]) then
      r.Values? && |r.vs| == |fs| && forall j :: 0 <= j < |fs| ==> fs[j] == Ready(Value(r.vs[j]))
    else
      exists k :: 0 <= k < |fs| && !HasValue(fs[k]) && (forall j :: 0 <= j < k ==> HasValue(fs[j]))
        && StopsWith(fs[k], k, r)
  }

  /** What it means, case by case: all values; or for the first future that is not
      ready with a value, blocking there, a broken promise, or its exception. */
  lemma GetMeans(fs: seq<Future>, r: GetResult, k: nat)
    requires GetSpec(fs, r) && k <= |fs| && forall j :: 0 <= j < k ==> fs[j].Ready? && fs[j].outcome.Value?
    ensures k == |fs| ==> r.Values? && |r.vs| == |fs| && forall j :: 0 <= j < |fs| ==> fs[j].outcome.v == r.vs[j]
    ensures k < |fs| && fs[k] == Pending ==> r == BlockedAt(k)
    ensures k < |fs| && fs[k] == Broken ==> r == BrokenPromise(k)
    ensures k < |fs| && fs[k].Ready? && fs[k].outcome.Thrown? ==> r == Rethrown(fs[k].outcome.e)
  {
  }

  /** The specification determines the result. */
  lemma GetDetermined(fs: seq<Future>, r: GetResult, r': GetResult)
    requires GetSpec(fs, r) && GetSpec(fs, r')
    ensures r == r'
  {
    if r.Values? && r'.Values? {
      assert forall j :: 0 <= j < |fs| ==> fs[j] == Ready(Value(r.vs[j])) && fs[j] == Ready(Value(r'.vs[j]));
      assert r.vs == r'.vs;
    } else if exists j :: 0 <= j < |fs| && !HasValue(fs[j]) {
      var k :| 0 <= k < |fs| && !HasValue(fs[k]) && (forall j :: 0 <= j < k ==> HasValue(fs[j]))
        && StopsWith(fs[k], k, r);
      GetMeans(fs, r', k);
    }
  }

  // ---------- The futures of a call ----------

  /** The tasks of call `c`, in submission order. */
  function IdsOf(submitted: seq<Job>, c: nat): seq<nat> {
    if submitted == [] then []
    else
      var n := |submitted| - 1;
      IdsOf(submitted[..n], c) + (if submitted[n].call == c then [n] else [])
  }

  /** The positions of the jobs of call `c`, and these jobs. */
  ghost predicate Matches(submitted: seq<Job>, c: nat, ids: seq<nat>, jobs: seq<Job>) {
    && |ids| == |jobs|
    && (forall k :: 0 <= k < |ids| ==> ids[k] < |submitted| && submitted[ids[k]] == jobs[k])
    && (forall j, k :: 0 <= j < k < |ids| ==> ids[j] < ids[k])
    && (forall id: nat :: id in ids <==> id < |submitted| && submitted[id].call == c)
  }

  lemma MatchesMore(submitted: seq<Job>, job: Job, c: nat, ids: seq<nat>, jobs: seq<Job>)
    requires Matches(submitted, c, ids, jobs)
    ensures if job.call == c then Matches(submitted + [job], c, ids + [|submitted|], jobs + [job])
            else Matches(submitted + [job], c, ids, jobs)
  {
  }

  lemma {:induction false} AllMatch(submitted: seq<Job>, c: nat)
    ensures Matches(submitted, c, IdsOf(submitted, c), JobsOf(submitted, c))
  {
    if submitted == [] {
    } else {
      var n := |submitted| - 1;
      var init := submitted[..n];
      assert submitted == init + [submitted[n]];
      AllMatch(init, c);
      MatchesMore(init, submitted[n], c, IdsOf(init, c), JobsOf(init, c));
      assert IdsOf(init, c) + [] == IdsOf(init, c) && JobsOf(init, c) + [] == JobsOf(init, c);
    }
  }

  /** They are exactly the positions of the call's tasks, in increasing order. */
  lemma IdsMatchJobs(submitted: seq<Job>, c: nat)
    ensures |IdsOf(submitted, c)| == |JobsOf(submitted, c)|
    ensures forall k :: 0 <= k < |IdsOf(submitted, c)| ==>
        IdsOf(submitted, c)[k] < |submitted| && submitted[IdsOf(submitted, c)[k]] == JobsOf(submitted, c)[k]
    ensures forall j, k :: 0 <= j < k < |IdsOf(submitted, c)| ==> IdsOf(submitted, c)[j] < IdsOf(submitted, c)[k]
    ensures forall id: nat :: id in IdsOf(submitted, c) <==> id < |submitted| && submitted[id].call == c
  {
    AllMatch(submitted, c);
  }

  function FutureOf(h: History, id: nat): Future {
    if id in h.outcomes then Ready(h.outcomes[id]) else if id in h.purged then Broken else Pending
  }

  /** The futures in the `multi_future` that call `c` returns. */
  function FuturesOf(h: History, c: nat): seq<Future> {
    var ids := IdsOf(h.submitted, c);
    seq(|ids|, k requires 0 <= k < |ids| => FutureOf(h, ids[k]))
  }

  /** A submitted task's future is ready with its outcome once it has finished,
      broken once it was purged, and pending while it is queued or running. */
  lemma FutureMeans(s: Pool, id: nat)
    requires Inv(s) && id < |s.hist.submitted|
    ensures id in s.hist.finished ==> id in s.hist.outcomes && FutureOf(s.hist, id) == Ready(s.hist.outcomes[id])
    ensures id in s.hist.purged ==> FutureOf(s.hist, id) == Broken
    ensures id in s.tasks || id in RunningIds(s.workers) ==> FutureOf(s.hist, id) == Pending
    ensures id in s.hist.finished || id in s.hist.purged || id in s.tasks || id in RunningIds(s.workers)
  {
    OneEach(s, id);
    assert id in s.hist.finished <==> multiset(s.hist.finished)[id] > 0;
    assert id in s.tasks <==> multiset(s.tasks)[id] > 0;
  }

  lemma {:induction false} IdsGrow(submitted: seq<Job>, longer: seq<Job>, c: nat)
    requires submitted <= longer
    ensures IdsOf(submitted, c) <= IdsOf(longer, c)
    decreases |longer|
  {
    if |longer| == |submitted| {
      assert longer == submitted;
    } else {
      IdsGrow(submitted, longer[..|longer| - 1], c);
    }
  }

  // ---------- Futures do not change once they are ready ----------

  lemma PurgeKeeps(s: Pool, id: nat)
    requires ClientEnabled(s, Purge) && !FutureOf(s.hist, id).Pending?
    ensures FutureOf(ApplyClient(s, Purge).hist, id) == FutureOf(s.hist, id)
  {
    assert id in s.hist.purged ==> id in s.hist.purged + multiset(s.tasks);
  }

  lemma ReturnKeeps(s: Pool, i: nat, o: Outcome, id: nat)
    requires Inv(s) && WorkerEnabled(s, i, Return(o)) && !FutureOf(s.hist, id).Pending?
    ensures FutureOf(ApplyWorker(s, i, Return(o)).hist, id) == FutureOf(s.hist, id)
  {
    OutcomeOnce(s, i, o);
    RunningHas(s.workers, i);
    OneEach(s, s.workers[i].id);
  }

  /** Between the two histories the future did not change, unless it was pending. */
  ghost predicate Kept(h: History, g: History, id: nat) {
    && h.submitted <= g.submitted
    && (!FutureOf(h, id).Pending? ==> FutureOf(g, id) == FutureOf(h, id))
  }

  lemma KeptSame(h: History, g: History, id: nat)
    requires g.submitted == h.submitted && g.outcomes == h.outcomes && g.purged == h.purged
    ensures Kept(h, g, id)
  {
  }

  lemma FutureClient(s: Pool, step: ClientStep, id: nat)
    requires ClientEnabled(s, step)
    ensures Kept(s.hist, ApplyClient(s, step).hist, id)
  {
    match step
    case Purge => if !FutureOf(s.hist, id).Pending? { PurgeKeeps(s, id); }
    case DetachNext(c) =>
    case _ => KeptSame(s.hist, ApplyClient(s, step).hist, id);
  }

  lemma TestOutcomes(s: Pool, i: nat, pick: nat)
    requires i < |s.workers| && (!QueueBlocked(s) ==> pick < |s.tasks|)
    ensures TestPredicate(s, i, pick).hist.outcomes == s.hist.outcomes
  {
  }

  lemma WorkOutcomes(s: Pool, i: nat, step: WorkerStep)
    requires WorkerEnabled(s, i, step) && !step.Return?
    ensures ApplyWorker(s, i, step).hist.outcomes == s.hist.outcomes
  {
    match step
    case Top(pick) => TestOutcomes(Decrement(s), i, pick);
    case Resume(pick) => TestOutcomes(s, i, pick);
    case _ =>
  }

  lemma FutureWork(s: Pool, i: nat, step: WorkerStep, id: nat)
    requires Inv(s) && WorkerEnabled(s, i, step)
    ensures Kept(s.hist, ApplyWorker(s, i, step).hist, id)
  {
    if step.Return? {
      if !FutureOf(s.hist, id).Pending? { ReturnKeeps(s, i, step.outcome, id); }
    } else {
      var q := WorkerEffect(s, i, step);
      WorkOutcomes(s, i, step);
      KeptSame(s.hist, ApplyWorker(s, i, step).hist, id);
    }
  }

  lemma FutureStep(s: Pool, step: Step, id: nat)
    requires Inv(s) && Enabled(s, step)
    ensures Kept(s.hist, Apply(s, step).hist, id)
  {
    match step
    case Client(op) => FutureClient(s, op, id);
    case Wait(k, op) => WaitEffect(s, k, op);
    case Work(i, op) => FutureWork(s, i, op, id);
    case Control(k) =>
      ControlEffect(s, k);
      KeptSame(s.hist, ControlStep(s, k).hist, id);
  }

  /** A future that is ready or broken stays as it is on every run. */
  lemma {:induction false} FutureStays(s: Pool, steps: seq<Step>, id: nat)
    requires Inv(s) && Valid(s, steps)
    ensures Kept(s.hist, Final(s, steps).hist, id)
    decreases |steps|
  {
    if steps == [] {
    } else {
      KeepInv(s, steps[0]);
      FutureStep(s, steps[0], id);
      FutureStays(Apply(s, steps[0]), steps[1..], id);
    }
  }

  lemma CallFutureStays(s: Pool, steps: seq<Step>, c: nat, k: nat)
    requires Inv(s) && Valid(s, steps) && k < |FuturesOf(s.hist, c)|
    ensures var later := FuturesOf(Final(s, steps).hist, c);
      && k < |later| && (!FuturesOf(s.hist, c)[k].Pending? ==> later[k] == FuturesOf(s.hist, c)[k])
  {
    var ids := IdsOf(s.hist.submitted, c);
    FutureStays(s, steps, ids[k]);
    IdsGrow(s.hist.submitted, Final(s, steps).hist.submitted, c);
  }

  /** `f` is what the `k`-th future of call `c` was in some state of the run. */
  ghost predicate SeenAt(s: Pool, steps: seq<Step>, c: nat, k: nat, f: Future) {
    exists m: nat :: m <= |steps| && Valid(s, steps[..m]) && SeenIn(Final(s, steps[..m]), c, k, f)
  }

  ghost predicate SeenIn(t: Pool, c: nat, k: nat, f: Future) {
    k < |FuturesOf(t.hist, c)| && f == FuturesOf(t.hist, c)[k]
  }

  lemma SeenStays(s: Pool, steps: seq<Step>, c: nat, k: nat, f: Future)
    requires Inv(s) && Valid(s, steps) && SeenAt(s, steps, c, k, f)
    ensures var last := FuturesOf(Final(s, steps).hist, c);
      k < |last| && (!f.Pending? ==> last[k] == f)
  {
    var m: nat :| m <= |steps| && Valid(s, steps[..m]) && SeenIn(Final(s, steps[..m]), c, k, f);
    RunSplit(s, steps, m);
    RunInv(s, steps[..m]);
    CallFutureStays(Final(s, steps[..m]), steps[m..], c, k);
  }

  /** Reading the futures one after the other while the pool works gives what
      reading all of them at the end gives. */
  lemma ReadOneByOne(s: Pool, steps: seq<Step>, c: nat, seen: seq<Future>, r: GetResult)
    requires Inv(s) && Valid(s, steps) && |seen| == |FuturesOf(Final(s, steps).hist, c)|
    requires forall k :: 0 <= k < |seen| ==> SeenAt(s, steps, c, k, seen[k])
    requires GetSpec(seen, r) && !r.BlockedAt?
    ensures GetSpec(FuturesOf(Final(s, steps).hist, c), r)
  {
    var last := FuturesOf(Final(s, steps).hist, c);
    forall k | 0 <= k < |seen| && !seen[k].Pending? ensures last[k] == seen[k] {
      SeenStays(s, steps, c, k, seen[k]);
    }
    SameGet(seen, last, r);
  }

  /** Two lists that agree wherever the first is not pending give the same result. */
  lemma SameGet(fs: seq<Future>, gs: seq<Future>, r: GetResult)
    requires |fs| == |gs| && GetSpec(fs, r) && !r.BlockedAt?
    requires forall k :: 0 <= k < |fs| && !fs[k].Pending? ==> fs[k] == gs[k]
    ensures GetSpec(gs, r)
  {
    if exists j :: 0 <= j < |fs| && !HasValue(fs[j]) {
      var k :| 0 <= k < |fs| && !HasValue(fs[k]) && (forall j :: 0 <= j < k ==> HasValue(fs[j]))
        && StopsWith(fs[k], k, r);
      assert !fs[k].Pending? && gs[k] == fs[k];
      assert forall j :: 0 <= j < k ==> HasValue(fs[j]) && gs[j] == fs[j];
    } else {
      assert forall j :: 0 <= j < |gs| ==> HasValue(fs[j]) && gs[j] == fs[j];
    }
  }

  // ---------- Pure functions ----------

  /** Every recorded outcome is the one that `f` gives for the task. */
  ghost predicate PureSoFar(f: Job -> Outcome, h: History) {
    forall id :: id in h.outcomes && id < |h.submitted| ==> h.outcomes[id] == f(h.submitted[id])
  }

  /** A run in which every task that returns behaves as `f` says. */
  ghost predicate PureRun(f: Job -> Outcome, s: Pool, steps: seq<Step>)
    requires Valid(s, steps)
    decreases |steps|
  {
    steps == [] ||
    (&& (steps[0].Work? && steps[0].kop.Return? && s.workers[steps[0].i].id < |s.hist.submitted| ==>
           steps[0].kop.outcome == f(s.hist.submitted[s.workers[steps[0].i].id]))
     && PureRun(f, Apply(s, steps[0]), steps[1..]))
  }

  lemma PureDetach(f: Job -> Outcome, s: Pool, c: nat)
    requires Inv(s) && PureSoFar(f, s.hist) && ClientEnabled(s, DetachNext(c))
    ensures PureSoFar(f, Detach(s, c).hist)
  {
    OneEach(s, |s.hist.submitted|);
    assert |s.hist.submitted| !in s.hist.finished;
  }

  lemma PureClient(f: Job -> Outcome, s: Pool, step: ClientStep)
    requires Inv(s) && PureSoFar(f, s.hist) && ClientEnabled(s, step)
    ensures PureSoFar(f, ApplyClient(s, step).hist)
  {
    match step
    case DetachNext(c) => PureDetach(f, s, c);
    case _ =>
  }

  lemma PureWork(f: Job -> Outcome, s: Pool, i: nat, step: WorkerStep)
    requires PureSoFar(f, s.hist) && WorkerEnabled(s, i, step)
    requires step.Return? && s.workers[i].id < |s.hist.submitted| ==>
        step.outcome == f(s.hist.submitted[s.workers[i].id])
    ensures PureSoFar(f, ApplyWorker(s, i, step).hist)
  {
    match step
    case Return(o) =>
    case _ => var q := WorkerEffect(s, i, step);
  }

  lemma {:induction false} PureKept(f: Job -> Outcome, s: Pool, steps: seq<Step>)
    requires Inv(s) && PureSoFar(f, s.hist) && Valid(s, steps) && PureRun(f, s, steps)
    ensures PureSoFar(f, Final(s, steps).hist)
    decreases |steps|
  {
    if steps == [] {
    } else {
      var step := steps[0];
      KeepInv(s, step);
      match step {
        case Client(op) => PureClient(f, s, op);
        case Wait(k, op) => WaitEffect(s, k, op);
        case Work(i, op) => PureWork(f, s, i, op);
        case Control(k) => ControlEffect(s, k);
      }
      PureKept(f, Apply(s, step), steps[1..]);
    }
  }

  /** What the same tasks give when they are run one after the other. */
  function Sequential(f: Job -> Outcome, jobs: seq<Job>): seq<Future> {
    seq(|jobs|, k requires 0 <= k < |jobs| => Ready(f(jobs[k])))
  }

  /** Run one after the other, the tasks give all their values, or the exception of
      the first one that throws. */
  lemma SequentialMeans(f: Job -> Outcome, jobs: seq<Job>, r: GetResult)
    requires GetSpec(Sequential(f, jobs), r)
    ensures r.Values? || r.Rethrown?
    ensures r.Values? ==> |r.vs| == |jobs| && forall j :: 0 <= j < |jobs| ==> f(jobs[j]) == Value(r.vs[j])
    ensures r.Rethrown? ==>
        exists k :: 0 <= k < |jobs| && f(jobs[k]).Thrown? && f(jobs[k]).e == r.e
          && forall j :: 0 <= j < k ==> f(jobs[j]).Value?
  {
    var fs := Sequential(f, jobs);
    if exists j :: 0 <= j < |fs| && !HasValue(fs[j]) {
      var k :| 0 <= k < |fs| && !HasValue(fs[k]) && (forall j :: 0 <= j < k ==> HasValue(fs[j]))
        && StopsWith(fs[k], k, r);
      assert forall j :: 0 <= j < k ==> HasValue(fs[j]) && fs[j] == Ready(f(jobs[j]));
    } else {
      assert forall j :: 0 <= j < |fs| ==> HasValue(fs[j]) && fs[j] == Ready(f(jobs[j]));
    }
  }

  lemma FuturesArePure(f: Job -> Outcome, s: Pool, c: nat)
    requires Inv(s) && PureSoFar(f, s.hist) && c < |s.calls| && NonePurged(s.hist, c)
    ensures var fs := FuturesOf(s.hist, c);
      && |fs| == s.calls[c].next <= |s.calls[c].jobs|
      && (forall k :: 0 <= k < |fs| && !fs[k].Pending? ==> fs[k] == Ready(f(s.calls[c].jobs[k])))
  {
    IdsMatchJobs(s.hist.submitted, c);
    var ids := IdsOf(s.hist.submitted, c);
    forall k | 0 <= k < |ids| ensures Belongs(s.hist.submitted, ids[k], c) && ids[k] !in s.hist.purged {
      assert CallOk(s.hist.submitted, c, s.calls[c]);
    }
  }

  lemma PureReached(cfg: Config, n: nat, steps: seq<Step>, s: Pool, f: Job -> Outcome)
    requires Ran(Init(cfg, n), steps, s) && PureRun(f, Init(cfg, n), steps)
    ensures Inv(Init(cfg, n)) && Inv(s) && PureSoFar(f, s.hist)
  {
    InitInv(cfg, n);
    RunInv(Init(cfg, n), steps);
    PureKept(f, Init(cfg, n), steps);
  }

  /** In one state: what `get()` gives is what the tasks give one after the other. */
  lemma PureGet(f: Job -> Outcome, s: Pool, c: nat, r: GetResult)
    requires Inv(s) && PureSoFar(f, s.hist) && c < |s.calls| && NonePurged(s.hist, c)
    requires s.calls[c].next == |s.calls[c].jobs|
    requires GetSpec(FuturesOf(s.hist, c), r) && !r.BlockedAt?
    ensures GetSpec(Sequential(f, s.calls[c].jobs), r)
  {
    FuturesArePure(f, s, c);
    SameGet(FuturesOf(s.hist, c), Sequential(f, s.calls[c].jobs), r);
  }

  /** In every run of pure tasks in which no task of a splitter was purged, `get()`
      on its result, which reads each future in some state of the run, either
      blocks or gives exactly what running the tasks one after the other gives:
      the values in submission order, or the first exception. */
  lemma ResultsIndependentOfSchedule(cfg: Config, n: nat, steps: seq<Step>, s: Pool, f: Job -> Outcome, c: nat,
      seen: seq<Future>, r: GetResult)
    requires Ran(Init(cfg, n), steps, s) && PureRun(f, Init(cfg, n), steps)
    requires c < |s.calls| && s.calls[c].next == |s.calls[c].jobs| == |seen|
    requires NonePurged(s.hist, c)
    requires forall k :: 0 <= k < |seen| ==> SeenAt(Init(cfg, n), steps, c, k, seen[k])
    requires GetSpec(seen, r)
    ensures r.BlockedAt? || GetSpec(Sequential(f, s.calls[c].jobs), r)
    ensures !r.BrokenPromise?
    ensures var jobs := s.calls[c].jobs;
      && (r.Values? ==> |r.vs| == |jobs| && forall j :: 0 <= j < |jobs| ==> f(jobs[j]) == Value(r.vs[j]))
      && (r.Rethrown? ==>
            exists k :: 0 <= k < |jobs| && f(jobs[k]).Thrown? && f(jobs[k]).e == r.e
              && forall j :: 0 <= j < k ==> f(jobs[j]).Value?)
  {
    PureReached(cfg, n, steps, s, f);
    if !r.BlockedAt? {
      FuturesArePure(f, s, c);
      ReadOneByOne(Init(cfg, n), steps, c, seen, r);
      PureGet(f, s, c, r);
      SequentialMeans(f, s.calls[c].jobs, r);
    }
  }

  lemma NonePending(h: History, c: nat)
    requires Recorded(h.finished, h.outcomes)
    requires forall id: nat :: id < |h.submitted| ==> multiset(h.finished)[id] + h.purged[id] == 1
    ensures forall k :: 0 <= k < |FuturesOf(h, c)| ==> !FuturesOf(h, c)[k].Pending?
  {
    IdsMatchJobs(h.submitted, c);
    var ids := IdsOf(h.submitted, c);
    forall k | 0 <= k < |ids| ensures !FutureOf(h, ids[k]).Pending? {
      assert multiset(h.finished)[ids[k]] + h.purged[ids[k]] == 1;
      assert ids[k] in h.finished || ids[k] in h.purged;
    }
  }

  /** After a `wait()` that returned on an unpaused pool, `get()` does not block on
      any task submitted before it. */
  lemma GetDoesNotBlock(cfg: Config, n: nat, steps: seq<Step>, s: Pool, step: Step, c: nat, r: GetResult)
    requires Ran(Init(cfg, n), steps, s)
    requires WaitReturns(s, step) && !s.paused
    requires GetSpec(FuturesOf(s.hist, c), r)
    ensures !r.BlockedAt?
  {
    WaitPostcondition(cfg, n, steps, step);
    Reachable(cfg, n, steps);
    NonePending(s.hist, c);
  }
}
