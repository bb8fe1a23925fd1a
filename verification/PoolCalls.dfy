/** What a client call has submitted so far. */
module PoolCalls {
  import opened PoolModel
  import opened PoolCounts

  /** The tasks in `submitted` that call `c` submitted, in order. */
  function JobsOf(submitted: seq<Job>, c: nat): seq<Job> {
    if submitted == [] then []
    else
      var n := |submitted| - 1;
      JobsOf(submitted[..n], c) + (if submitted[n].call == c then [submitted[n]] else [])
  }

  lemma JobsOfAppend(submitted: seq<Job>, job: Job, c: nat)
    ensures JobsOf(submitted + [job], c) == JobsOf(submitted, c) + (if job.call == c then [job] else [])
  {
    assert (submitted + [job])[..|submitted|] == submitted;
  }

  ghost predicate CallOk(submitted: seq<Job>, c: nat, call: Call) {
    && call.next <= |call.jobs|
    && JobsOf(submitted, c) == call.jobs[..call.next]
    && forall j :: 0 <= j < |call.jobs| ==> call.jobs[j].call == c && call.jobs[j].lo < call.jobs[j].hi
  }

  ghost predicate CallsOk(submitted: seq<Job>, calls: seq<Call>) {
    && (forall c :: 0 <= c < |calls| ==> CallOk(submitted, c, calls[c]))
    && (forall c: nat :: c >= |calls| ==> JobsOf(submitted, c) == [])
    && forall j :: 0 <= j < |submitted| ==> submitted[j].lo < submitted[j].hi
  }

  ghost predicate CallInv(s: Pool) {
    CallsOk(s.hist.submitted, s.calls)
  }

  lemma CallDetach(s: Pool, c: nat)
    requires CallInv(s) && c < |s.calls| && s.calls[c].next < |s.calls[c].jobs|
    ensures CallInv(Detach(s, c))
  {
    var call := s.calls[c];
    var job := call.jobs[call.next];
    assert call.jobs[..call.next + 1] == call.jobs[..call.next] + [job];
    forall d: nat ensures JobsOf(s.hist.submitted + [job], d) ==
        JobsOf(s.hist.submitted, d) + (if job.call == d then [job] else [])
    {
      JobsOfAppend(s.hist.submitted, job, d);
    }
  }

  lemma CallClient(s: Pool, step: ClientStep)
    requires CallInv(s) && ClientEnabled(s, step)
    ensures CallInv(ApplyClient(s, step))
  {
    match step
    case DetachNext(c) => CallDetach(s, c);
    case BeginCall(jobs) => CallBegin(s, jobs);
    case _ =>
  }

  lemma CallBegin(s: Pool, jobs: seq<Job>)
    requires CallInv(s) && ClientEnabled(s, BeginCall(jobs))
    ensures CallInv(s.(calls := s.calls + [Call(jobs, 0)]))
  {
  }

  lemma KeepCalls(s: Pool, step: Step)
    requires CallInv(s) && Enabled(s, step)
    ensures CallInv(Apply(s, step))
  {
    match step
    case Client(op) => CallClient(s, op);
    case Wait(k, op) => WaitEffect(s, k, op);
    case Work(i, op) => var q := WorkerEffect(s, i, op);
    case Control(k) => ControlEffect(s, k);
  }
}
