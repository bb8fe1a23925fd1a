/** `semaphore.c`: `sem_getvalue` takes a unit of the kernel semaphore and gives
    it back, while other threads wait, try to wait, and post. */
module SemProbe {

  /** The kernel object and its history.  `probes` are the calls of `sem_getvalue`
      between their two kernel calls; `lost` counts the units that such a call
      could not give back. */
  datatype Kernel = Kernel(max: nat, initial: nat, count: nat, probes: set<nat>, posts: nat, acquisitions: nat,
                           lost: nat)

  datatype Step =
    | Acquire          // sem_wait, or sem_trywait that succeeds
    | Refuse           // sem_trywait that fails with EAGAIN
    | Post             // sem_post that succeeds
    | PostRefused      // sem_post at the maximum
    | ProbeTake(k: nat)
    | ProbeEmpty       // sem_getvalue on a count of 0
    | ProbeGive(k: nat)

  predicate Enabled(s: Kernel, step: Step) {
    match step
    case Acquire => s.count > 0
    case Refuse => s.count == 0
    case Post => s.count < s.max
    case PostRefused => s.count == s.max
    case ProbeTake(k) => s.count > 0 && k !in s.probes
    case ProbeEmpty => s.count == 0
    case ProbeGive(k) => k in s.probes
  }

  function Apply(s: Kernel, step: Step): Kernel
    requires Enabled(s, step)
  {
    match step
    case Acquire => s.(count := s.count - 1, acquisitions := s.acquisitions + 1)
    case Post => s.(count := s.count + 1, posts := s.posts + 1)
    case ProbeTake(k) => s.(count := s.count - 1, probes := s.probes + {k})
    case ProbeGive(k) =>
      if s.count == s.max then s.(probes := s.probes - {k}, lost := s.lost + 1)
      else s.(probes := s.probes - {k}, count := s.count + 1)
    case _ => s
  }

  /** The value of the semaphore as its users count it: what it started with and
      what was posted, less what was acquired and what was lost.  It does not
      mention the probes. */
  function UserValue(s: Kernel): int {
    s.initial + s.posts - s.acquisitions - s.lost
  }

  /** What `sem_getvalue` reports when the step ends it successfully. */
  predicate Reports(s: Kernel, step: Step) {
    step.ProbeEmpty? || (step.ProbeGive? && s.count < s.max)
  }

  function Report(s: Kernel, step: Step): nat {
    if step.ProbeEmpty? then 0 else s.count + 1
  }

  /** The probes of other callers that are in flight when the step ends this one. */
  function Others(s: Kernel, step: Step): set<nat> {
    if step.ProbeGive? then s.probes - {step.k} else s.probes
  }

  function Init(max: nat, value: nat): Kernel {
    Kernel(max, value, value, {}, 0, 0, 0)
  }

  predicate Valid(s: Kernel, steps: seq<Step>)
    decreases |steps|
  {
    steps == [] || (Enabled(s, steps[0]) && Valid(Apply(s, steps[0]), steps[1..]))
  }

  function Final(s: Kernel, steps: seq<Step>): Kernel
    requires Valid(s, steps)
    decreases |steps|
  {
    if steps == [] then s else Final(Apply(s, steps[0]), steps[1..])
  }

  /** The run `steps` leads from `s` to `t`. */
  ghost predicate Ran(s: Kernel, steps: seq<Step>, t: Kernel) {
    Valid(s, steps) && Final(s, steps) == t
  }

  // ---------- Conservation ----------

  ghost predicate Balanced(s: Kernel) {
    s.count <= s.max && s.count + |s.probes| + s.lost == s.initial + s.posts - s.acquisitions
  }

  lemma KeepBalance(s: Kernel, step: Step)
    requires Balanced(s) && Enabled(s, step)
    ensures Balanced(Apply(s, step)) && Apply(s, step).initial == s.initial && Apply(s, step).max == s.max
  {
  }

  lemma {:induction false} RunBalance(s: Kernel, steps: seq<Step>)
    requires Balanced(s) && Valid(s, steps)
    ensures Balanced(Final(s, steps)) && Final(s, steps).initial == s.initial && Final(s, steps).max == s.max
    decreases |steps|
  {
    if steps == [] {
    } else {
      KeepBalance(s, steps[0]);
      RunBalance(Apply(s, steps[0]), steps[1..]);
    }
  }

  /** On every interleaving: the kernel count stays in [0, max] and is the initial
      value plus the posts, minus the acquisitions, the probes in flight and the
      units that probes could not give back. */
  lemma KernelCount(max: nat, value: nat, steps: seq<Step>)
    requires value <= max && Valid(Init(max, value), steps)
    ensures var s := Final(Init(max, value), steps);
      0 <= s.count <= max && s.count == value + s.posts - s.acquisitions - |s.probes| - s.lost
  {
    RunBalance(Init(max, value), steps);
  }

  // ---------- Rules for the callers ----------

  /** Each flag permits what it names:
      postAtMax      posting when the users' value is at the maximum
      tryDuringProbe trying to acquire while somebody is inside `sem_getvalue`
      manyProbes     calling `sem_getvalue` while somebody is inside it */
  datatype Rules = Rules(postAtMax: bool, tryDuringProbe: bool, manyProbes: bool)

  predicate Allowed(r: Rules, s: Kernel, step: Step) {
    match step
    case Post => r.postAtMax || UserValue(s) < s.max
    case Acquire => r.tryDuringProbe || s.probes == {}
    case Refuse => r.tryDuringProbe || s.probes == {}
    case ProbeTake(_) => r.manyProbes || s.probes == {}
    case ProbeEmpty => r.manyProbes || s.probes == {}
    case _ => true
  }

  ghost predicate Follows(r: Rules, s: Kernel, steps: seq<Step>)
    requires Valid(s, steps)
    decreases |steps|
  {
    steps == [] || (Allowed(r, s, steps[0]) && Follows(r, Apply(s, steps[0]), steps[1..]))
  }

  /** A state that some run from the initial value `value` reaches under the rules. */
  ghost predicate Reached(r: Rules, max: nat, value: nat, s: Kernel) {
    exists steps :: Ran(Init(max, value), steps, s) && Follows(r, Init(max, value), steps)
  }

  lemma {:induction false} FollowsThen(r: Rules, s: Kernel, steps: seq<Step>, step: Step)
    requires Valid(s, steps) && Follows(r, s, steps)
    requires Enabled(Final(s, steps), step) && Allowed(r, Final(s, steps), step)
    ensures Valid(s, steps + [step]) && Follows(r, s, steps + [step])
    ensures Final(s, steps + [step]) == Apply(Final(s, steps), step)
    decreases |steps|
  {
    var longer := steps + [step];
    if steps == [] {
      assert longer[0] == step && longer[1..] == [];
      assert Valid(Apply(s, step), longer[1..]);
    } else {
      assert longer[0] == steps[0] && longer[1..] == steps[1..] + [step];
      FollowsThen(r, Apply(s, steps[0]), steps[1..], step);
    }
  }

  lemma Start(r: Rules, max: nat, value: nat)
    ensures Reached(r, max, value, Init(max, value))
  {
    assert Ran(Init(max, value), [], Init(max, value)) && Follows(r, Init(max, value), []);
  }

  lemma Extend(r: Rules, max: nat, value: nat, s: Kernel, step: Step)
    requires Reached(r, max, value, s) && Enabled(s, step) && Allowed(r, s, step)
    ensures Reached(r, max, value, Apply(s, step))
  {
    var steps :| Ran(Init(max, value), steps, s) && Follows(r, Init(max, value), steps);
    FollowsThen(r, Init(max, value), steps, step);
  }

  lemma ReachedBalanced(r: Rules, max: nat, value: nat, s: Kernel)
    requires value <= max && Reached(r, max, value, s)
    ensures Balanced(s) && s.max == max && s.initial == value
  {
    var steps :| Ran(Init(max, value), steps, s) && Follows(r, Init(max, value), steps);
    RunBalance(Init(max, value), steps);
  }

  // ---------- Reports ----------

  /** On every run: a successful report is the users' value minus the other probes
      then in flight, so it is exact exactly when there are none. */
  lemma ReportExactlyWhen(max: nat, value: nat, steps: seq<Step>, step: Step)
    requires value <= max && Valid(Init(max, value), steps)
    requires Enabled(Final(Init(max, value), steps), step) && Reports(Final(Init(max, value), steps), step)
    ensures var s := Final(Init(max, value), steps);
      && Report(s, step) == UserValue(s) - |Others(s, step)|
      && (Report(s, step) == UserValue(s) <==> Others(s, step) == {})
      && UserValue(Apply(s, step)) == UserValue(s)
  {
    RunBalance(Init(max, value), steps);
    ReportAt(Final(Init(max, value), steps), step);
  }

  lemma ReportAt(s: Kernel, step: Step)
    requires Balanced(s) && Enabled(s, step) && Reports(s, step)
    ensures Report(s, step) == UserValue(s) - |Others(s, step)|
    ensures Report(s, step) == UserValue(s) <==> Others(s, step) == {}
    ensures UserValue(Apply(s, step)) == UserValue(s)
  {
  }

  ghost predicate AlwaysExact(r: Rules, max: nat, value: nat) {
    forall s, step :: Reached(r, max, value, s) && Enabled(s, step) && Allowed(r, s, step) && Reports(s, step) ==>
      Report(s, step) == UserValue(s)
  }

  /** At most one probe is in flight. */
  lemma {:induction false} OneProbe(r: Rules, s: Kernel, steps: seq<Step>)
    requires !r.manyProbes && Valid(s, steps) && Follows(r, s, steps) && |s.probes| <= 1
    ensures |Final(s, steps).probes| <= 1
    decreases |steps|
  {
    if steps == [] {
    } else {
      OneProbe(r, Apply(s, steps[0]), steps[1..]);
    }
  }

  lemma LastProbe(probes: set<nat>, k: nat)
    requires |probes| <= 1 && k in probes
    ensures probes - {k} == {}
  {
    assert |probes - {k}| == |probes| - 1;
  }

  /** From every initial value a state is reached with units and no probes: the
      initial one, or after a post the one with a single unit. */
  lemma SomeUnit(r: Rules, max: nat, value: nat) returns (s: Kernel)
    requires value <= max && max > 0
    ensures Reached(r, max, value, s) && s.max == max && s.probes == {} && s.lost == 0
    ensures s.count == UserValue(s) == if value == 0 then 1 else value
  {
    Start(r, max, value);
    s := Init(max, value);
    if value == 0 {
      Extend(r, max, value, s, Post);
      s := Apply(s, Post);
    }
  }

  /** Two probes at once: with one unit the second reports 0, with more the first to
      end reports one unit too few. */
  lemma SecondProbeReportsLess(r: Rules, max: nat, value: nat)
    requires r.manyProbes && value <= max && max > 0
    ensures !AlwaysExact(r, max, value)
  {
    var s := SomeUnit(r, max, value);
    Extend(r, max, value, s, ProbeTake(0));
    var t := Apply(s, ProbeTake(0));
    if t.count == 0 {
      assert Enabled(t, ProbeEmpty) && Allowed(r, t, ProbeEmpty) && Reports(t, ProbeEmpty);
      assert Report(t, ProbeEmpty) != UserValue(t);
    } else {
      Extend(r, max, value, t, ProbeTake(1));
      var u := Apply(t, ProbeTake(1));
      assert Enabled(u, ProbeGive(1)) && Allowed(r, u, ProbeGive(1)) && Reports(u, ProbeGive(1));
      assert Report(u, ProbeGive(1)) != UserValue(u);
    }
  }

  /** From every initial value: all reports are exact, exactly when nobody calls
      `sem_getvalue` while somebody is inside it (or the maximum is 0). */
  lemma ReportsExactExactlyWhen(r: Rules, max: nat, value: nat)
    requires value <= max
    ensures AlwaysExact(r, max, value) <==> !r.manyProbes || max == 0
  {
    if r.manyProbes && max > 0 {
      SecondProbeReportsLess(r, max, value);
    } else {
      forall s, step | Reached(r, max, value, s) && Enabled(s, step) && Allowed(r, s, step) && Reports(s, step)
        ensures Report(s, step) == UserValue(s)
      {
        ReachedBalanced(r, max, value, s);
        ReportAt(s, step);
        if max == 0 { EmptyReached(r, value, s); } else { OneReached(r, max, value, s); }
        if step.ProbeGive? { LastProbe(s.probes, step.k); }
      }
    }
  }

  lemma OneReached(r: Rules, max: nat, value: nat, s: Kernel)
    requires !r.manyProbes && Reached(r, max, value, s)
    ensures |s.probes| <= 1
  {
    var steps :| Ran(Init(max, value), steps, s) && Follows(r, Init(max, value), steps);
    OneProbe(r, Init(max, value), steps);
  }

  lemma EmptyReached(r: Rules, value: nat, s: Kernel)
    requires value == 0 && Reached(r, 0, value, s)
    ensures s.count == 0 && s.probes == {} && s.lost == 0
  {
    var steps :| Ran(Init(0, value), steps, s) && Follows(r, Init(0, value), steps);
    EmptyStays(Init(0, 0), steps);
  }

  lemma {:induction false} EmptyStays(s: Kernel, steps: seq<Step>)
    requires s.max == 0 && s.count == 0 && s.probes == {} && s.lost == 0 && Valid(s, steps)
    ensures var t := Final(s, steps); t.count == 0 && t.probes == {} && t.lost == 0
    decreases |steps|
  {
    if steps == [] {
    } else {
      EmptyStays(Apply(s, steps[0]), steps[1..]);
    }
  }

  // ---------- Refusals ----------

  /** No `sem_trywait` is refused while its users' count says that there is a unit. */
  ghost predicate NeverRefusedInVain(r: Rules, max: nat, value: nat) {
    forall s :: Reached(r, max, value, s) && Enabled(s, Refuse) && Allowed(r, s, Refuse) ==> UserValue(s) <= 0
  }

  /** All units but one are acquired. */
  lemma {:induction false} Drain(r: Rules, max: nat, value: nat, s: Kernel) returns (t: Kernel)
    requires Reached(r, max, value, s) && s.probes == {} && s.lost == 0 && s.count >= 1 && UserValue(s) == s.count
    ensures Reached(r, max, value, t) && t.probes == {} && t.count == 1 && UserValue(t) == 1
    decreases s.count
  {
    if s.count == 1 {
      t := s;
    } else {
      Extend(r, max, value, s, Acquire);
      t := Drain(r, max, value, Apply(s, Acquire));
    }
  }

  /** The only unit is in the hands of a probe, and a `sem_trywait` is refused. */
  lemma ProbeCausesRefusal(r: Rules, max: nat, value: nat) returns (s: Kernel)
    requires r.tryDuringProbe && value <= max && max > 0
    ensures Reached(r, max, value, s) && Enabled(s, Refuse) && Allowed(r, s, Refuse) && UserValue(s) == 1
  {
    var unit := SomeUnit(r, max, value);
    var last := Drain(r, max, value, unit);
    Extend(r, max, value, last, ProbeTake(0));
    s := Apply(last, ProbeTake(0));
  }

  /** From every initial value: an available unit is never refused, exactly when nobody
      tries to acquire while somebody is inside `sem_getvalue` (or the maximum is 0). */
  lemma RefusedExactlyWhen(r: Rules, max: nat, value: nat)
    requires value <= max
    ensures NeverRefusedInVain(r, max, value) <==> !r.tryDuringProbe || max == 0
  {
    if r.tryDuringProbe && max > 0 {
      var s := ProbeCausesRefusal(r, max, value);
      assert !NeverRefusedInVain(r, max, value);
    } else {
      forall s | Reached(r, max, value, s) && Enabled(s, Refuse) && Allowed(r, s, Refuse)
        ensures UserValue(s) <= 0
      {
        ReachedBalanced(r, max, value, s);
        if max == 0 { EmptyReached(r, value, s); }
      }
    }
  }

  // ---------- Units lost by probes ----------

  lemma {:induction false} NothingLost(r: Rules, s: Kernel, steps: seq<Step>)
    requires !r.postAtMax && Valid(s, steps) && Follows(r, s, steps)
    requires Balanced(s) && UserValue(s) <= s.max && s.lost == 0
    ensures Final(s, steps).lost == 0
    decreases |steps|
  {
    if steps == [] {
    } else {
      KeepBalance(s, steps[0]);
      NothingLost(r, Apply(s, steps[0]), steps[1..]);
    }
  }

  ghost predicate NeverLoses(r: Rules, max: nat, value: nat) {
    forall s :: Reached(r, max, value, s) ==> s.lost == 0
  }

  /** The semaphore is posted until it is full. */
  lemma {:induction false} Fill(r: Rules, max: nat, value: nat, s: Kernel) returns (t: Kernel)
    requires Reached(r, max, value, s) && s.probes == {} && s.lost == 0 && s.max == max
    requires UserValue(s) == s.count <= max
    ensures Reached(r, max, value, t) && t.probes == {} && t.lost == 0 && t.max == max && t.count == max
    decreases max - s.count
  {
    if s.count == max {
      t := s;
    } else {
      Extend(r, max, value, s, Post);
      t := Fill(r, max, value, Apply(s, Post));
    }
  }

  /** With a full semaphore, a post during a probe takes the place of the unit that
      the probe holds: the post succeeds and the give-back fails. */
  lemma PostCausesLoss(r: Rules, max: nat, value: nat) returns (s: Kernel)
    requires r.postAtMax && value <= max && max > 0
    ensures Reached(r, max, value, s) && s.lost == 1
  {
    Start(r, max, value);
    var full := Fill(r, max, value, Init(max, value));
    Extend(r, max, value, full, ProbeTake(0));
    var taken := Apply(full, ProbeTake(0));
    Extend(r, max, value, taken, Post);
    var posted := Apply(taken, Post);
    Extend(r, max, value, posted, ProbeGive(0));
    s := Apply(posted, ProbeGive(0));
  }

  /** From every initial value: no unit is ever lost, exactly when nobody posts at the
      maximal users' value (or the maximum is 0 and no probe can take a unit). */
  lemma NothingLostExactlyWhen(r: Rules, max: nat, value: nat)
    requires value <= max
    ensures NeverLoses(r, max, value) <==> !r.postAtMax || max == 0
  {
    if r.postAtMax && max > 0 {
      var s := PostCausesLoss(r, max, value);
      assert !NeverLoses(r, max, value);
    } else {
      forall s | Reached(r, max, value, s) ensures s.lost == 0 {
        if max == 0 {
          EmptyReached(r, value, s);
        } else {
          var steps :| Ran(Init(max, value), steps, s) && Follows(r, Init(max, value), steps);
          NothingLost(r, Init(max, value), steps);
        }
      }
    }
  }

  // ---------- The functions of semaphore.c ----------

  datatype Errno = EINVAL | EAGAIN
  datatype Code = Ok | Failed(errno: Errno)

  class Semaphore {
    var kernel: Kernel

    ghost predicate Valid()
      reads this
    {
      Balanced(kernel)
    }

    constructor (max: nat, value: nat)
      requires value <= max
      ensures Valid() && kernel == Init(max, value) && UserValue(kernel) == value
    {
      kernel := Init(max, value);
    }

    /** `sem_trywait`: null is refused.  Otherwise it takes one of the users' units, or
        fails with `EAGAIN`, exactly when all of them are with probes. */
    static method TryWait(sem: Semaphore?) returns (code: Code)
      requires sem != null ==> sem.Valid()
      modifies sem
      ensures sem == null <==> code == Failed(EINVAL)
      ensures sem != null ==>
          && sem.Valid() && sem.kernel.probes == old(sem.kernel).probes && sem.kernel.lost == old(sem.kernel).lost
          && (code == Failed(EAGAIN) <==> UserValue(old(sem.kernel)) == |old(sem.kernel).probes|)
          && (code == Ok || code == Failed(EAGAIN))
          && UserValue(sem.kernel) == UserValue(old(sem.kernel)) - (if code == Ok then 1 else 0)
      ensures code == Ok ==> sem != null && old(sem.kernel).count > 0 && sem.kernel == Apply(old(sem.kernel), Acquire)
      ensures code == Failed(EAGAIN) ==> sem != null && sem.kernel == old(sem.kernel)
    {
      if sem == null {
        return Failed(EINVAL);
      }
      var kernel := sem.kernel;
      if kernel.count > 0 {
        sem.kernel := kernel.(count := kernel.count - 1, acquisitions := kernel.acquisitions + 1);
        return Ok;
      }
      return Failed(EAGAIN);
    }

    /** `sem_post`: null is refused.  Otherwise the users have one unit more, or the
        kernel refuses, exactly when the units that are not with probes are `max`. */
    static method Post(sem: Semaphore?) returns (code: Code)
      requires sem != null ==> sem.Valid()
      modifies sem
      ensures sem == null ==> code == Failed(EINVAL)
      ensures sem != null ==>
          && sem.Valid() && sem.kernel.probes == old(sem.kernel).probes && sem.kernel.lost == old(sem.kernel).lost
          && (code == Failed(EINVAL) <==>
                UserValue(old(sem.kernel)) - |old(sem.kernel).probes| == old(sem.kernel).max)
          && (code == Ok || code == Failed(EINVAL))
          && UserValue(sem.kernel) == UserValue(old(sem.kernel)) + (if code == Ok then 1 else 0)
      ensures code == Ok ==>
          sem != null && old(sem.kernel).count < old(sem.kernel).max && sem.kernel == Apply(old(sem.kernel), Step.Post)
      ensures sem != null && code == Failed(EINVAL) ==> sem.kernel == old(sem.kernel)
    {
      if sem == null {
        return Failed(EINVAL);
      }
      var kernel := sem.kernel;
      if kernel.count == kernel.max {
        return Failed(EINVAL);
      }
      sem.kernel := kernel.(count := kernel.count + 1, posts := kernel.posts + 1);
      return Ok;
    }

    /** Whatever other threads do between the two kernel calls of probe `k`. */
    method Yield(k: nat) returns (ghost run: seq<Step>)
      requires Valid() && k in kernel.probes
      modifies this
      ensures Valid() && Ran(old(kernel), run, kernel)
      ensures forall j :: 0 <= j < |run| ==> run[j] != ProbeGive(k)
    {
      run := [];
    }

    /** `sem_getvalue` under interference.  On a count of 0 it reports 0 at once.
        Otherwise it takes a unit, other threads run, and `at` is the state of its
        second kernel call: it gives the unit back and reports the users' value
        minus the other probes in flight, or it fails, exactly when the count has
        reached the maximum, and then the users have one unit less. */
    method GetValue(k: nat) returns (code: Code, value: nat, ghost at: Kernel, ghost run: seq<Step>)
      requires Valid() && k !in kernel.probes
      modifies this
      ensures Valid() && k !in kernel.probes
      ensures old(kernel).count == 0 ==> code == Ok && at == kernel == old(kernel)
      ensures old(kernel).count > 0 ==>
          && Ran(Apply(old(kernel), ProbeTake(k)), run, at) && Enabled(at, ProbeGive(k))
          && kernel == Apply(at, ProbeGive(k))
      ensures code == Ok || code == Failed(EINVAL)
      ensures code == Ok ==> value == UserValue(at) - |at.probes - {k}| && UserValue(kernel) == UserValue(at)
      ensures code == Failed(EINVAL) <==> old(kernel).count > 0 && at.count == at.max
      ensures code == Failed(EINVAL) ==> UserValue(kernel) == UserValue(at) - 1
    {
      value, at, run := 0, kernel, [];
      if kernel.count == 0 {
        assert at.probes - {k} == at.probes;
        code := Ok;
        return;
      }
      kernel := Apply(kernel, ProbeTake(k));
      ghost var taken := kernel;
      run := Yield(k);
      InFlight(taken, k, run);
      at := kernel;
      var previous := kernel.count;
      kernel := Apply(kernel, ProbeGive(k));
      KeepBalance(at, ProbeGive(k));
      if previous == kernel.max {
        code := Failed(EINVAL);
        return;
      }
      ReportAt(at, ProbeGive(k));
      value := previous + 1;
      code := Ok;
    }
  }

  lemma {:induction false} InFlight(s: Kernel, k: nat, run: seq<Step>)
    requires Valid(s, run) && k in s.probes
    requires forall j :: 0 <= j < |run| ==> run[j] != ProbeGive(k)
    ensures k in Final(s, run).probes
    decreases |run|
  {
    if run == [] {
    } else {
      assert run[0] != ProbeGive(k);
      assert forall j :: 0 <= j < |run[1..]| ==> run[1..][j] == run[j + 1];
      InFlight(Apply(s, run[0]), k, run[1..]);
    }
  }
}
