/** The parallel loop does what the sequential loop does. */
module PoolLoops {
  import opened PoolModel
  import opened PoolCounts
  import opened PoolHistory
  import opened PoolCalls
  import opened PoolSafety
  import Blocks

  // ---------- The tasks of the splitters ----------

  /** The task for block `b` of `n`. */
  function BlockJob(c: nat, priority: Priority, first: int, total: nat, n: nat, b: nat): Job
    requires n > 0
  {
    Job(c, first + Blocks.Offset(total, n, b), first + Blocks.Offset(total, n, b + 1), priority)
  }

  /** The tasks that `detach_blocks` and `detach_loop` submit. */
  function LoopJobs(c: nat, priority: Priority, first: int, last: int, num: nat): seq<Job>
    requires num >= 1
  {
    if first < last then
      var n := Blocks.Smaller(num, last - first);
      seq(n, b requires 0 <= b < n => BlockJob(c, priority, first, last - first, n, b))
    else []
  }

  /** The tasks that `detach_sequence` submits. */
  function SequenceJobs(c: nat, priority: Priority, first: int, last: int): seq<Job> {
    if first < last then
      seq(last - first, i requires 0 <= i < last - first => Job(c, first + i, first + i + 1, priority))
    else []
  }

  /** Contiguous non-empty ranges from `first` to `last`. */
  ghost predicate Tiles(jobs: seq<Job>, first: int, last: int) {
    && (jobs == [] <==> first >= last)
    && (jobs != [] ==> jobs[0].lo == first && jobs[|jobs| - 1].hi == last)
    && (forall j :: 0 <= j < |jobs| ==> jobs[j].lo < jobs[j].hi)
    && (forall j :: 0 <= j < |jobs| - 1 ==> jobs[j].hi == jobs[j + 1].lo)
  }

  /** A loop is cut into exactly min(requested, total) contiguous non-empty blocks
      that cover the range; their sizes differ by at most one and do not grow. */
  lemma LoopJobsTile(c: nat, priority: Priority, first: int, last: int, num: nat)
    requires num >= 1
    ensures var jobs := LoopJobs(c, priority, first, last, num);
      && Tiles(jobs, first, last)
      && (first >= last ==> jobs == [])
      && (first < last ==>
            && 1 <= |jobs| <= num && |jobs| <= last - first && (|jobs| == num || |jobs| == last - first)
            && jobs[0].lo == first && jobs[|jobs| - 1].hi == last)
      && (forall j :: 0 <= j < |jobs| ==> jobs[j].call == c && jobs[j].priority == priority && jobs[j].lo < jobs[j].hi)
      && (forall j :: 0 <= j < |jobs| - 1 ==> jobs[j].hi == jobs[j + 1].lo)
      && (forall i, j :: 0 <= i <= j < |jobs| ==>
            0 <= (jobs[i].hi - jobs[i].lo) - (jobs[j].hi - jobs[j].lo) <= 1)
  {
    if first < last {
      var n := Blocks.Smaller(num, last - first);
      var jobs := LoopJobs(c, priority, first, last, num);
      LoopBlocks(c, priority, first, last, n, jobs);
      EvenSizes(jobs, (last - first) / n, (last - first) % n);
    }
  }

  /** The blocks belong to the call and are not empty. */
  lemma LoopJobsNamed(c: nat, priority: Priority, first: int, last: int, num: nat)
    requires num >= 1
    ensures forall j :: 0 <= j < |LoopJobs(c, priority, first, last, num)| ==>
        var job := LoopJobs(c, priority, first, last, num)[j]; job.call == c && job.lo < job.hi
    ensures first >= last ==> LoopJobs(c, priority, first, last, num) == []
  {
    LoopJobsTile(c, priority, first, last, num);
  }

  lemma LoopBlocks(c: nat, priority: Priority, first: int, last: int, n: nat, jobs: seq<Job>)
    requires 0 < n <= last - first && |jobs| == n
    requires forall b :: 0 <= b < n ==> jobs[b] == BlockJob(c, priority, first, last - first, n, b)
    ensures jobs[0].lo == first && jobs[n - 1].hi == last
    ensures forall b :: 0 <= b < n ==> jobs[b].call == c && jobs[b].priority == priority
    ensures forall b :: 0 <= b < n ==> SizedBlock(jobs[b], (last - first) / n, (last - first) % n, b)
    ensures forall b :: 0 <= b < n - 1 ==> jobs[b].hi == jobs[b + 1].lo
  {
    var total: nat := last - first;
    Blocks.OffsetEnds(total, n);
    forall b | 0 <= b < n ensures SizedBlock(jobs[b], total / n, total % n, b) {
      Blocks.OffsetStep(total, n, b);
    }
  }

  lemma EvenSizes(jobs: seq<Job>, size: nat, larger: nat)
    requires forall b :: 0 <= b < |jobs| ==> SizedBlock(jobs[b], size, larger, b)
    ensures forall b :: 0 <= b < |jobs| ==> jobs[b].lo < jobs[b].hi
    ensures forall i, j :: 0 <= i <= j < |jobs| ==>
        0 <= (jobs[i].hi - jobs[i].lo) - (jobs[j].hi - jobs[j].lo) <= 1
  {
  }

  /** Block `b` is not empty; it has the given size, or one more if it is one of the
      first, `larger` ones. */
  ghost predicate SizedBlock(job: Job, size: nat, larger: nat, b: nat) {
    job.hi - job.lo == size + (if b < larger then 1 else 0) && job.lo < job.hi
  }

  /** A sequence is cut into its single indices. */
  lemma SequenceJobsTile(c: nat, priority: Priority, first: int, last: int)
    ensures var jobs := SequenceJobs(c, priority, first, last);
      && Tiles(jobs, first, last)
      && |jobs| == (if first < last then last - first else 0)
      && (forall j :: 0 <= j < |jobs| ==>
            && jobs[j].call == c && jobs[j].priority == priority
            && jobs[j].lo == first + j && jobs[j].hi == first + j + 1)
  {
  }

  // ---------- Indices ----------

  function Span(lo: int, hi: int): multiset<int>
    decreases hi - lo
  {
    if lo >= hi then multiset{} else Span(lo, hi - 1) + multiset{hi - 1}
  }

  /** Each index of the range once, and no other. */
  lemma {:induction false} SpanOnce(lo: int, hi: int, x: int)
    ensures Span(lo, hi)[x] == if lo <= x < hi then 1 else 0
    decreases hi - lo
  {
    if lo >= hi {
    } else {
      SpanOnce(lo, hi - 1, x);
    }
  }

  lemma {:induction false} SpanJoin(lo: int, mid: int, hi: int)
    requires lo <= mid <= hi
    ensures Span(lo, mid) + Span(mid, hi) == Span(lo, hi)
    decreases hi - mid
  {
    if mid == hi {
    } else {
      SpanJoin(lo, mid, hi - 1);
      assert Span(lo, mid) + (Span(mid, hi - 1) + multiset{hi - 1})
          == (Span(lo, mid) + Span(mid, hi - 1)) + multiset{hi - 1};
    }
  }

  function TotalSpan(jobs: seq<Job>): multiset<int> {
    if jobs == [] then multiset{}
    else TotalSpan(jobs[..|jobs| - 1]) + Span(jobs[|jobs| - 1].lo, jobs[|jobs| - 1].hi)
  }

  lemma {:induction false} TilesCover(jobs: seq<Job>, first: int, last: int)
    requires Tiles(jobs, first, last)
    ensures TotalSpan(jobs) == Span(first, last)
  {
    if jobs == [] {
    } else {
      var n := |jobs| - 1;
      var init := jobs[..n];
      var mid := jobs[n].lo;
      if n == 0 {
        assert TotalSpan(init) == multiset{};
      } else {
        assert init[n - 1].hi == mid;
        TilesOrdered(jobs, first, last, n);
        TilesCover(init, first, mid);
        SpanJoin(first, mid, last);
      }
    }
  }

  lemma {:induction false} TilesOrdered(jobs: seq<Job>, first: int, last: int, j: nat)
    requires Tiles(jobs, first, last) && j < |jobs|
    ensures first <= jobs[j].lo && (j > 0 ==> first < jobs[j].lo) && jobs[j].hi <= last
    decreases |jobs|
  {
    TilesLow(jobs, first, last, j);
    TilesHigh(jobs, first, last, j);
  }

  lemma {:induction false} TilesLow(jobs: seq<Job>, first: int, last: int, j: nat)
    requires Tiles(jobs, first, last) && j < |jobs|
    ensures first <= jobs[j].lo && (j > 0 ==> first < jobs[j].lo)
  {
    if j == 0 {
    } else {
      TilesLow(jobs, first, last, j - 1);
    }
  }

  lemma {:induction false} TilesHigh(jobs: seq<Job>, first: int, last: int, j: nat)
    requires Tiles(jobs, first, last) && j < |jobs|
    ensures jobs[j].hi <= last
    decreases |jobs| - j
  {
    if j == |jobs| - 1 {
    } else {
      TilesHigh(jobs, first, last, j + 1);
    }
  }

  // ---------- What the finished tasks of a call did ----------

  /** The indices to which a finished task applied the loop function to the end. */
  function Covered(job: Job, o: Outcome): multiset<int> {
    match o
    case Value(_) => Span(job.lo, job.hi)
    case Thrown(_, at) => Span(job.lo, at)
  }

  /** The indices of a task that threw which were not completed. */
  function Missed(job: Job, o: Outcome): multiset<int> {
    match o
    case Value(_) => multiset{}
    case Thrown(_, at) => Span(at, job.hi)
  }

  function OutcomeOf(outcomes: map<nat, Outcome>, id: nat): Outcome {
    if id in outcomes then outcomes[id] else Value(0)
  }

  predicate Belongs(submitted: seq<Job>, id: nat, c: nat) {
    id < |submitted| && submitted[id].call == c
  }

  /** All indices to which the tasks `ids` of call `c` applied the function. */
  function Applied(h: History, ids: seq<nat>, c: nat): multiset<int> {
    if ids == [] then multiset{}
    else
      var id := ids[|ids| - 1];
      Applied(h, ids[..|ids| - 1], c)
        + (if Belongs(h.submitted, id, c) then Covered(h.submitted[id], OutcomeOf(h.outcomes, id)) else multiset{})
  }

  function Skipped(h: History, ids: seq<nat>, c: nat): multiset<int> {
    if ids == [] then multiset{}
    else
      var id := ids[|ids| - 1];
      Skipped(h, ids[..|ids| - 1], c)
        + MissedBy(h, id, c)
  }

  function JobSpan(submitted: seq<Job>, id: nat, c: nat): multiset<int> {
    if Belongs(submitted, id, c) then Span(submitted[id].lo, submitted[id].hi) else multiset{}
  }

  function Owned(submitted: seq<Job>, ids: seq<nat>, c: nat): multiset<int> {
    if ids == [] then multiset{}
    else Owned(submitted, ids[..|ids| - 1], c) + JobSpan(submitted, ids[|ids| - 1], c)
  }

  ghost predicate OutcomesOk(h: History) {
    forall id :: id in h.outcomes && id < |h.submitted| ==> OutcomeOk(h.submitted[id], h.outcomes[id])
  }

  lemma SplitOne(job: Job, o: Outcome)
    requires job.lo < job.hi && OutcomeOk(job, o)
    ensures Covered(job, o) + Missed(job, o) == Span(job.lo, job.hi)
    ensures Missed(job, o) == multiset{} <==> o.Value?
  {
    if o.Thrown? {
      SpanJoin(job.lo, o.at, job.hi);
      SpanOnce(o.at, job.hi, o.at);
    }
  }

  lemma Regroup(a: multiset<int>, b: multiset<int>, x: multiset<int>, y: multiset<int>)
    ensures (a + x) + (b + y) == (a + b) + (x + y)
  {
  }

  /** Applied and skipped indices make up the ranges of the tasks. */
  lemma {:induction false} AppliedSplit(h: History, ids: seq<nat>, c: nat)
    requires OutcomesOk(h) && forall j :: 0 <= j < |h.submitted| ==> h.submitted[j].lo < h.submitted[j].hi
    ensures Applied(h, ids, c) + Skipped(h, ids, c) == Owned(h.submitted, ids, c)
  {
    if ids == [] {
    } else {
      var n := |ids| - 1;
      var id := ids[n];
      AppliedSplit(h, ids[..n], c);
      if Belongs(h.submitted, id, c) {
        var o := OutcomeOf(h.outcomes, id);
        SplitOne(h.submitted[id], o);
        Regroup(Applied(h, ids[..n], c), Skipped(h, ids[..n], c),
                Covered(h.submitted[id], o), Missed(h.submitted[id], o));
      }
    }
  }

  ghost predicate NoneThrew(h: History, ids: seq<nat>, c: nat) {
    forall j :: 0 <= j < |ids| && Belongs(h.submitted, ids[j], c) ==> OutcomeOf(h.outcomes, ids[j]).Value?
  }

  lemma NoneThrewLast(h: History, ids: seq<nat>, c: nat)
    requires ids != []
    ensures NoneThrew(h, ids, c) <==>
        NoneThrew(h, ids[..|ids| - 1], c)
        && (Belongs(h.submitted, ids[|ids| - 1], c) ==> OutcomeOf(h.outcomes, ids[|ids| - 1]).Value?)
  {
    assert forall j :: 0 <= j < |ids| - 1 ==> ids[..|ids| - 1][j] == ids[j];
  }

  function MissedBy(h: History, id: nat, c: nat): multiset<int> {
    if Belongs(h.submitted, id, c) then Missed(h.submitted[id], OutcomeOf(h.outcomes, id)) else multiset{}
  }

  /** Nothing is skipped exactly when no task of the call threw. */
  lemma {:induction false} SkippedNone(h: History, ids: seq<nat>, c: nat)
    requires OutcomesOk(h) && forall j :: 0 <= j < |h.submitted| ==> h.submitted[j].lo < h.submitted[j].hi
    ensures Skipped(h, ids, c) == multiset{} <==> NoneThrew(h, ids, c)
  {
    if ids == [] {
    } else {
      var n := |ids| - 1;
      var id := ids[n];
      SkippedNone(h, ids[..n], c);
      NoneOfBoth(Skipped(h, ids[..n], c), MissedBy(h, id, c));
      if Belongs(h.submitted, id, c) {
        SplitOne(h.submitted[id], OutcomeOf(h.outcomes, id));
      }
      NoneThrewLast(h, ids, c);
    }
  }

  lemma NoneOfBoth(a: multiset<int>, b: multiset<int>)
    ensures a + b == multiset{} <==> a == multiset{} && b == multiset{}
  {
    assert |a + b| == |a| + |b|;
  }

  // ---------- The order of the tasks does not matter ----------

  lemma Regroup3(a: multiset<int>, b: multiset<int>, x: multiset<int>)
    ensures (a + b) + x == a + (b + x)
  {
  }

  lemma OwnedSnoc(submitted: seq<Job>, q: seq<nat>, id: nat, c: nat)
    ensures Owned(submitted, q + [id], c) == Owned(submitted, q, c) + JobSpan(submitted, id, c)
  {
    assert (q + [id])[..|q|] == q;
  }

  lemma {:induction false} OwnedAppend(submitted: seq<Job>, a: seq<nat>, b: seq<nat>, c: nat)
    ensures Owned(submitted, a + b, c) == Owned(submitted, a, c) + Owned(submitted, b, c)
  {
    if b == [] {
      assert a + b == a;
    } else {
      var init, id := b[..|b| - 1], b[|b| - 1];
      assert b == init + [id] && a + b == (a + init) + [id];
      OwnedAppend(submitted, a, init, c);
      OwnedSnoc(submitted, a + init, id, c);
      OwnedSnoc(submitted, init, id, c);
      Regroup3(Owned(submitted, a, c), Owned(submitted, init, c), JobSpan(submitted, id, c));
    }
  }

  lemma OwnedRemove(submitted: seq<Job>, b: seq<nat>, k: nat, c: nat)
    requires k < |b|
    ensures Owned(submitted, b, c) == Owned(submitted, b[..k] + b[k + 1..], c) + JobSpan(submitted, b[k], c)
  {
    var pre, post := b[..k], b[k + 1..];
    assert b == (pre + [b[k]]) + post;
    OwnedAppend(submitted, pre + [b[k]], post, c);
    OwnedAppend(submitted, pre, post, c);
    OwnedSnoc(submitted, pre, b[k], c);
    var x, y, z := Owned(submitted, pre, c), JobSpan(submitted, b[k], c), Owned(submitted, post, c);
    assert (x + y) + z == (x + z) + y;
  }

  /** Fewer tasks own fewer indices, whatever their order; only the tasks of the
      call count. */
  lemma {:induction false} OwnedMonotone(submitted: seq<Job>, a: seq<nat>, b: seq<nat>, c: nat)
    requires forall id :: Belongs(submitted, id, c) ==> multiset(a)[id] <= multiset(b)[id]
    ensures Owned(submitted, a, c) <= Owned(submitted, b, c)
  {
    if a == [] {
    } else {
      var n := |a| - 1;
      var id := a[n];
      assert a == a[..n] + [id];
      assert multiset(a) == multiset(a[..n]) + multiset{id};
      if Belongs(submitted, id, c) {
        assert id in multiset(b);
        var k :| 0 <= k < |b| && b[k] == id;
        RemoveAt(b, k);
        OwnedMonotone(submitted, a[..n], b[..k] + b[k + 1..], c);
        OwnedRemove(submitted, b, k, c);
      } else {
        OwnedMonotone(submitted, a[..n], b, c);
      }
    }
  }

  lemma TotalSpanAppend(jobs: seq<Job>, job: Job)
    ensures TotalSpan(jobs + [job]) == TotalSpan(jobs) + Span(job.lo, job.hi)
  {
    assert (jobs + [job])[..|jobs|] == jobs;
  }

  lemma OwnedNext(submitted: seq<Job>, n: nat, c: nat)
    requires 0 < n <= |submitted|
    ensures Owned(submitted, Upto(n), c) == Owned(submitted, Upto(n - 1), c) + JobSpan(submitted, n - 1, c)
  {
    assert Upto(n) == Upto(n - 1) + [n - 1];
    OwnedSnoc(submitted, Upto(n - 1), n - 1, c);
  }

  lemma JobsNext(submitted: seq<Job>, n: nat, c: nat)
    requires 0 < n <= |submitted|
    ensures TotalSpan(JobsOf(submitted[..n], c))
        == TotalSpan(JobsOf(submitted[..n - 1], c)) + JobSpan(submitted, n - 1, c)
  {
    var job := submitted[n - 1];
    var jobs := JobsOf(submitted[..n - 1], c);
    assert submitted[..n] == submitted[..n - 1] + [job];
    JobsOfAppend(submitted[..n - 1], job, c);
    if job.call == c {
      TotalSpanAppend(jobs, job);
    } else {
      assert jobs + [] == jobs;
    }
  }

  /** All tasks together own the ranges of the call's tasks. */
  lemma {:induction false} OwnedAll(submitted: seq<Job>, n: nat, c: nat)
    requires n <= |submitted|
    ensures Owned(submitted, Upto(n), c) == TotalSpan(JobsOf(submitted[..n], c))
  {
    if n == 0 {
    } else {
      OwnedAll(submitted, n - 1, c);
      OwnedNext(submitted, n, c);
      JobsNext(submitted, n, c);
    }
  }

  lemma {:induction false} TotalSpanPrefix(jobs: seq<Job>, n: nat)
    requires n <= |jobs|
    ensures TotalSpan(jobs[..n]) <= TotalSpan(jobs)
    decreases |jobs| - n
  {
    if n < |jobs| {
      assert jobs[..n + 1] == jobs[..n] + [jobs[n]];
      TotalSpanAppend(jobs[..n], jobs[n]);
      TotalSpanPrefix(jobs, n + 1);
    } else {
      assert jobs[..n] == jobs;
    }
  }

  // ---------- Recorded outcomes ----------

  lemma OutcomeStep(s: Pool, step: Step)
    requires Inv(s) && OutcomesOk(s.hist) && Enabled(s, step)
    ensures OutcomesOk(Apply(s, step).hist)
  {
    match step
    case Client(op) => OutcomeClient(s, op);
    case Wait(k, op) => WaitEffect(s, k, op);
    case Work(i, op) => OutcomeWork(s, i, op);
    case Control(k) => ControlEffect(s, k);
  }

  lemma OutcomeClient(s: Pool, step: ClientStep)
    requires Inv(s) && OutcomesOk(s.hist) && ClientEnabled(s, step)
    ensures OutcomesOk(ApplyClient(s, step).hist)
  {
    match step
    case DetachNext(c) =>
      var id := |s.hist.submitted|;
      OneEach(s, id);
      assert id !in s.hist.finished;
    case _ =>
  }

  lemma OutcomeWork(s: Pool, i: nat, step: WorkerStep)
    requires OutcomesOk(s.hist) && WorkerEnabled(s, i, step)
    ensures OutcomesOk(ApplyWorker(s, i, step).hist)
  {
    match step
    case Return(o) =>
    case _ => var q := WorkerEffect(s, i, step);
  }

  lemma {:induction false} OutcomeRun(s: Pool, steps: seq<Step>)
    requires Inv(s) && OutcomesOk(s.hist) && Valid(s, steps)
    ensures OutcomesOk(Final(s, steps).hist)
    decreases |steps|
  {
    if steps == [] {
    } else {
      KeepInv(s, steps[0]);
      OutcomeStep(s, steps[0]);
      OutcomeRun(Apply(s, steps[0]), steps[1..]);
    }
  }

  // ---------- The parallel loop ----------

  /** No task of call `c` was purged. */
  ghost predicate NonePurged(h: History, c: nat) {
    forall id :: id in h.purged ==> !Belongs(h.submitted, id, c)
  }

  /** Every task of call `c` has finished, once. */
  ghost predicate AllFinished(h: History, c: nat) {
    forall id :: Belongs(h.submitted, id, c) ==> multiset(h.finished)[id] == 1
  }

  lemma Conservation(s: Pool, c: nat)
    requires Inv(s) && c < |s.calls|
    ensures Owned(s.hist.submitted, s.hist.finished, c) <= TotalSpan(s.calls[c].jobs[..s.calls[c].next])
    ensures AllFinished(s.hist, c) ==>
        Owned(s.hist.submitted, s.hist.finished, c) == TotalSpan(s.calls[c].jobs[..s.calls[c].next])
  {
    var n := |s.hist.submitted|;
    assert s.hist.submitted[..n] == s.hist.submitted;
    OwnedAll(s.hist.submitted, n, c);
    forall id: nat ensures multiset(s.hist.finished)[id] <= multiset(Upto(n))[id] == if id < n then 1 else 0 {
      OneEach(s, id);
      UptoOnce(n, id);
    }
    OwnedMonotone(s.hist.submitted, s.hist.finished, Upto(n), c);
    if AllFinished(s.hist, c) {
      OwnedMonotone(s.hist.submitted, Upto(n), s.hist.finished, c);
    }
  }

  lemma OutcomesReached(cfg: Config, n: nat, steps: seq<Step>, s: Pool)
    requires Ran(Init(cfg, n), steps, s)
    ensures Inv(s) && OutcomesOk(s.hist)
  {
    InitInv(cfg, n);
    RunInv(Init(cfg, n), steps);
    OutcomeRun(Init(cfg, n), steps);
  }

  /** In every reachable state, whatever the schedule, and even with purges and
      exceptions, the finished tasks of a loop have been applied to each index of
      its range at most once and to no other index. */
  lemma LoopAtMostOnce(cfg: Config, n: nat, steps: seq<Step>, s: Pool, c: nat, first: int, last: int, x: int)
    requires Ran(Init(cfg, n), steps, s)
    requires c < |s.calls| && Tiles(s.calls[c].jobs, first, last)
    ensures Applied(s.hist, s.hist.finished, c)[x] <= if first <= x < last then 1 else 0
  {
    OutcomesReached(cfg, n, steps, s);
    AtMostOnce(s, c, first, last, x);
  }

  lemma AtMostOnce(s: Pool, c: nat, first: int, last: int, x: int)
    requires Inv(s) && OutcomesOk(s.hist) && c < |s.calls| && Tiles(s.calls[c].jobs, first, last)
    ensures Applied(s.hist, s.hist.finished, c)[x] <= if first <= x < last then 1 else 0
  {
    var h := s.hist;
    AppliedSplit(h, h.finished, c);
    assert Applied(h, h.finished, c) <= Owned(h.submitted, h.finished, c);
    Conservation(s, c);
    TotalSpanPrefix(s.calls[c].jobs, s.calls[c].next);
    TilesCover(s.calls[c].jobs, first, last);
    SpanOnce(first, last, x);
    assert Applied(h, h.finished, c)[x] <= Span(first, last)[x];
  }

  /** Once a splitter has returned and then a `wait()` returns on an unpaused pool,
      and no task of the splitter was purged, every index of the range has been
      visited: completed or, in a block that threw, skipped.  The multiset of
      completed indices is that of the sequential loop exactly when no task of
      the loop threw. */
  lemma LoopRefinesSequential(cfg: Config, n: nat, steps: seq<Step>, s: Pool, step: Step, c: nat, first: int, last: int)
    requires Ran(Init(cfg, n), steps, s)
    requires WaitReturns(s, step) && !s.paused
    requires c < |s.calls| && s.calls[c].next == |s.calls[c].jobs| && Tiles(s.calls[c].jobs, first, last)
    requires NonePurged(s.hist, c)
    ensures var h := Apply(s, step).hist;
      && Applied(h, h.finished, c) + Skipped(h, h.finished, c) == Span(first, last)
      && (Applied(h, h.finished, c) == Span(first, last) <==> NoneThrew(h, h.finished, c))
  {
    WaitPostcondition(cfg, n, steps, step);
    OutcomesReached(cfg, n, steps, s);
    forall id | Belongs(s.hist.submitted, id, c) ensures multiset(s.hist.finished)[id] == 1 {
      assert id !in s.hist.purged;
    }
    LoopDone(s, c, first, last);
  }

  /** `detach_loop`, `detach_blocks` or `detach_sequence`, then `wait()`, with a
      function that does not throw: every index of [first, last) exactly once and
      no other index, on every schedule, whatever other clients do. */
  lemma DetachedLoopExactlyOnce(cfg: Config, n: nat, steps: seq<Step>, s: Pool, step: Step, c: nat,
      p: Priority, first: int, last: int, num: nat, x: int)
    requires Ran(Init(cfg, n), steps, s) && num >= 1
    requires WaitReturns(s, step) && !s.paused
    requires c < |s.calls| && s.calls[c].next == |s.calls[c].jobs|
    requires s.calls[c].jobs == LoopJobs(c, p, first, last, num) || s.calls[c].jobs == SequenceJobs(c, p, first, last)
    requires NonePurged(s.hist, c) && NoneThrew(s.hist, s.hist.finished, c)
    ensures var h := Apply(s, step).hist;
      Applied(h, h.finished, c)[x] == if first <= x < last then 1 else 0
  {
    LoopJobsTile(c, p, first, last, num);
    SequenceJobsTile(c, p, first, last);
    WaitPostcondition(cfg, n, steps, step);
    LoopRefinesSequential(cfg, n, steps, s, step, c, first, last);
    SpanOnce(first, last, x);
  }

  lemma LoopDone(s: Pool, c: nat, first: int, last: int)
    requires Inv(s) && OutcomesOk(s.hist) && AllFinished(s.hist, c)
    requires c < |s.calls| && s.calls[c].next == |s.calls[c].jobs| && Tiles(s.calls[c].jobs, first, last)
    ensures var h := s.hist;
      && Applied(h, h.finished, c) + Skipped(h, h.finished, c) == Span(first, last)
      && (Applied(h, h.finished, c) == Span(first, last) <==> NoneThrew(h, h.finished, c))
  {
    var h := s.hist;
    AppliedSplit(h, h.finished, c);
    SkippedNone(h, h.finished, c);
    Conservation(s, c);
    assert s.calls[c].jobs[..s.calls[c].next] == s.calls[c].jobs;
    TilesCover(s.calls[c].jobs, first, last);
    NothingMissing(Applied(h, h.finished, c), Skipped(h, h.finished, c));
  }

  /** A finished task did to its indices what its outcome says. */
  lemma {:induction false} PartOf(h: History, ids: seq<nat>, c: nat, id: nat)
    requires Belongs(h.submitted, id, c) && id in ids
    ensures Covered(h.submitted[id], OutcomeOf(h.outcomes, id)) <= Applied(h, ids, c)
    ensures Missed(h.submitted[id], OutcomeOf(h.outcomes, id)) <= Skipped(h, ids, c)
  {
    if ids == [] {
    } else {
      var n := |ids| - 1;
      assert ids == ids[..n] + [ids[n]];
      if ids[n] != id { PartOf(h, ids[..n], c, id); }
    }
  }

  lemma PartAt(s: Pool, c: nat, first: int, last: int, id: nat, x: int)
    requires Inv(s) && OutcomesOk(s.hist) && AllFinished(s.hist, c)
    requires c < |s.calls| && s.calls[c].next == |s.calls[c].jobs| && Tiles(s.calls[c].jobs, first, last)
    requires Belongs(s.hist.submitted, id, c) && s.hist.submitted[id].lo <= x < s.hist.submitted[id].hi
    ensures id in s.hist.outcomes && first <= x < last
    ensures Applied(s.hist, s.hist.finished, c)[x]
        == if s.hist.outcomes[id].Value? || x < s.hist.outcomes[id].at then 1 else 0
  {
    var h := s.hist;
    LoopDone(s, c, first, last);
    assert multiset(h.finished)[id] == 1;
    assert id in h.finished;
    PartOf(h, h.finished, c, id);
    SpanOnce(first, last, x);
    assert (Applied(h, h.finished, c) + Skipped(h, h.finished, c))[x] == Span(first, last)[x];
    PartHas(h.submitted[id], h.outcomes[id], x);
  }

  /** The indices of a task below the one where it threw are completed, the others
      are not. */
  lemma PartHas(job: Job, o: Outcome, x: int)
    requires job.lo <= x < job.hi && OutcomeOk(job, o)
    ensures Covered(job, o)[x] == if o.Value? || x < o.at then 1 else 0
    ensures Missed(job, o)[x] == if o.Value? || x < o.at then 0 else 1
  {
    SpanOnce(job.lo, job.hi, x);
    if o.Thrown? {
      SpanOnce(job.lo, o.at, x);
      SpanOnce(o.at, job.hi, x);
    }
  }

  /** Under the same conditions, for each index and the task that covers it: the
      index was completed, once, exactly if the task threw at no index up to it. */
  lemma LoopStopsWhereThrown(cfg: Config, n: nat, steps: seq<Step>, s: Pool, step: Step, c: nat, first: int, last: int,
      id: nat, x: int)
    requires Ran(Init(cfg, n), steps, s)
    requires WaitReturns(s, step) && !s.paused
    requires c < |s.calls| && s.calls[c].next == |s.calls[c].jobs| && Tiles(s.calls[c].jobs, first, last)
    requires NonePurged(s.hist, c)
    requires id < |s.hist.submitted| && s.hist.submitted[id].call == c
    requires s.hist.submitted[id].lo <= x < s.hist.submitted[id].hi
    ensures id in s.hist.outcomes && first <= x < last
    ensures Applied(s.hist, s.hist.finished, c)[x]
        == if s.hist.outcomes[id].Value? || x < s.hist.outcomes[id].at then 1 else 0
  {
    WaitPostcondition(cfg, n, steps, step);
    OutcomesReached(cfg, n, steps, s);
    forall i | Belongs(s.hist.submitted, i, c) ensures multiset(s.hist.finished)[i] == 1 {
      assert i !in s.hist.purged;
    }
    PartAt(s, c, first, last, id, x);
  }

  lemma NothingMissing(a: multiset<int>, b: multiset<int>)
    ensures a == a + b <==> b == multiset{}
  {
    if a == a + b {
      assert |a + b| == |a| + |b|;
    }
  }
}
