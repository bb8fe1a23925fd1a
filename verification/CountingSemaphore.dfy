/** The class `counting_semaphore`, the polyfill of `std::counting_semaphore`
    (section 32.7 [thread.sema] of ISO C++20), as a monitor protocol and as a
    class whose critical sections are its steps. */
module CountingSemaphore {

  datatype Waiter = Waiter(notified: bool, timed: bool)

  /** `release` notifies after it has unlocked the mutex: `pendingAll` counts the
      calls of `notify_all` that are still to be made.  `holders` is the history
      of who holds what: it has one entry for every unit that a thread acquired
      and has not released. */
  datatype Sem = Sem(max: nat, initial: nat, counter: int, waiters: map<nat, Waiter>, pendingAll: nat,
                     released: nat, acquired: nat, holders: multiset<nat>)

  /** Steps of thread `k`, and the delivery of a notification. */
  datatype Step =
    | Acquire(k: nat, timed: bool)
    | Retest(k: nat)
    | Expire(k: nat)
    | WakeSpuriously(k: nat)
    | TryAcquire(k: nat)
    | Release(k: nat, update: nat)
    | NotifyAll

  /** A thread inside `acquire` makes no other call; `release` expects that the
      counter does not exceed the maximum. */
  predicate Enabled(s: Sem, step: Step) {
    match step
    case Acquire(k, _) => k !in s.waiters
    case Retest(k) => k in s.waiters && s.waiters[k].notified
    case Expire(k) => k in s.waiters && s.waiters[k].timed
    case WakeSpuriously(k) => k in s.waiters && !s.waiters[k].notified
    case TryAcquire(k) => k !in s.waiters
    case Release(k, update) => k !in s.waiters && s.counter + update <= s.max
    case NotifyAll => s.pendingAll > 0
  }

  function Decrement(s: Sem, k: nat): Sem {
    s.(counter := s.counter - 1, acquired := s.acquired + 1, holders := s.holders + multiset{k})
  }

  /** What `k` holds after it has released `update` units. */
  function Drop(holders: multiset<nat>, k: nat, update: nat): multiset<nat> {
    holders[k := if holders[k] > update then holders[k] - update else 0]
  }

  function Apply(s: Sem, step: Step): Sem
    requires Enabled(s, step)
  {
    match step
    case Acquire(k, timed) =>
      if s.counter > 0 then Decrement(s, k) else s.(waiters := s.waiters[k := Waiter(false, timed)])
    case Retest(k) =>
      if s.counter > 0 then Decrement(s, k).(waiters := s.waiters - {k})
      else s.(waiters := s.waiters[k := s.waiters[k].(notified := false)])
    case Expire(k) =>
      if s.counter > 0 then Decrement(s, k).(waiters := s.waiters - {k}) else s.(waiters := s.waiters - {k})
    case WakeSpuriously(k) => s.(waiters := s.waiters[k := s.waiters[k].(notified := true)])
    case TryAcquire(k) => if s.counter > 0 then Decrement(s, k) else s
    case Release(k, update) =>
      s.(counter := s.counter + update, released := s.released + update, pendingAll := s.pendingAll + 1,
         holders := Drop(s.holders, k, update))
    case NotifyAll => s.(pendingAll := s.pendingAll - 1, waiters := WakeAll(s.waiters))
  }

  function WakeAll(waiters: map<nat, Waiter>): map<nat, Waiter> {
    map k | k in waiters :: waiters[k].(notified := true)
  }

  function Init(max: nat, desired: nat): Sem {
    Sem(max, desired, desired, map[], 0, 0, 0, multiset{})
  }

  predicate Valid(s: Sem, steps: seq<Step>)
    decreases |steps|
  {
    steps == [] || (Enabled(s, steps[0]) && Valid(Apply(s, steps[0]), steps[1..]))
  }

  function Final(s: Sem, steps: seq<Step>): Sem
    requires Valid(s, steps)
    decreases |steps|
  {
    if steps == [] then s else Final(Apply(s, steps[0]), steps[1..])
  }

  /** The run `steps` leads from `s` to `t`. */
  ghost predicate Ran(s: Sem, steps: seq<Step>, t: Sem) {
    Valid(s, steps) && Final(s, steps) == t
  }

  lemma RanStep(s: Sem, step: Step)
    requires Enabled(s, step)
    ensures Ran(s, [step], Apply(s, step))
  {
    assert [step][0] == step && [step][1..] == [];
    assert Ran(Apply(s, step), [], Apply(s, step));
  }

  lemma {:induction false} RanConcat(s: Sem, a: seq<Step>, t: Sem, b: seq<Step>, u: Sem)
    requires Ran(s, a, t) && Ran(t, b, u)
    ensures Ran(s, a + b, u)
    decreases |a|
  {
    if a == [] {
      assert a + b == b;
    } else {
      assert (a + b)[0] == a[0] && (a + b)[1..] == a[1..] + b;
      RanConcat(Apply(s, a[0]), a[1..], t, b, u);
    }
  }

  lemma RanThen(s: Sem, a: seq<Step>, t: Sem, step: Step)
    requires Ran(s, a, t) && Enabled(t, step)
    ensures Ran(s, a + [step], Apply(t, step))
  {
    RanStep(t, step);
    RanConcat(s, a, t, [step], Apply(t, step));
  }

  // ---------- Conservation and wake-ups ----------

  ghost predicate Balanced(s: Sem) {
    s.counter == s.initial + s.released - s.acquired && 0 <= s.counter <= s.max
  }

  ghost predicate SleepsUnnotified(waiters: map<nat, Waiter>) {
    exists k :: k in waiters && !waiters[k].notified
  }

  /** A thread that sleeps un-notified has nothing to take, or will be notified. */
  ghost predicate Woken(s: Sem) {
    SleepsUnnotified(s.waiters) ==> s.counter == 0 || s.pendingAll > 0
  }

  lemma KeepInv(s: Sem, step: Step)
    requires Balanced(s) && Woken(s) && Enabled(s, step)
    ensures Balanced(Apply(s, step)) && Woken(Apply(s, step))
    ensures Apply(s, step).initial == s.initial && Apply(s, step).max == s.max
  {
  }

  lemma {:induction false} RunInv(s: Sem, steps: seq<Step>)
    requires Balanced(s) && Woken(s) && Valid(s, steps)
    ensures Balanced(Final(s, steps)) && Woken(Final(s, steps))
    ensures Final(s, steps).initial == s.initial && Final(s, steps).max == s.max
    decreases |steps|
  {
    if steps == [] {
    } else {
      KeepInv(s, steps[0]);
      RunInv(Apply(s, steps[0]), steps[1..]);
    }
  }

  /** On every interleaving: the counter is the initial value plus what was released
      minus what was acquired and stays between 0 and the maximum; a thread that
      sleeps un-notified although the counter is positive will be notified. */
  lemma SemaphoreInvariant(max: nat, desired: nat, steps: seq<Step>)
    requires desired <= max && Valid(Init(max, desired), steps)
    ensures var s := Final(Init(max, desired), steps);
      && s.counter == desired + s.released - s.acquired
      && 0 <= s.counter <= max
      && (SleepsUnnotified(s.waiters) ==> s.counter == 0 || s.pendingAll > 0)
  {
    RunInv(Init(max, desired), steps);
  }

  // ---------- Mutual exclusion ----------

  /** A thread releases only units that it holds. */
  predicate Disciplined(s: Sem, step: Step) {
    step.Release? ==> step.update <= s.holders[step.k]
  }

  /** A run in which all threads are disciplined, unless `free` permits otherwise. */
  ghost predicate Follows(free: bool, s: Sem, steps: seq<Step>)
    requires Valid(s, steps)
    decreases |steps|
  {
    steps == [] || ((free || Disciplined(s, steps[0])) && Follows(free, Apply(s, steps[0]), steps[1..]))
  }

  lemma KeepHolders(s: Sem, step: Step)
    requires Enabled(s, step) && Disciplined(s, step) && |s.holders| + s.counter == s.initial
    ensures |Apply(s, step).holders| + Apply(s, step).counter == s.initial
  {
  }

  lemma {:induction false} HoldersRun(s: Sem, steps: seq<Step>)
    requires Valid(s, steps) && Follows(false, s, steps)
    requires Balanced(s) && Woken(s) && |s.holders| + s.counter == s.initial
    ensures var t := Final(s, steps); |t.holders| + t.counter == s.initial && t.counter >= 0
    decreases |steps|
  {
    if steps == [] {
    } else {
      KeepInv(s, steps[0]);
      KeepHolders(s, steps[0]);
      HoldersRun(Apply(s, steps[0]), steps[1..]);
    }
  }

  /** On every run of threads that release only what they hold: the counter is
      exactly what the threads inside leave of the initial value, so no more than
      that many units are held; with an initial value of 1 no two threads are
      inside at once, and no thread is inside twice. */
  lemma HoldersExclude(max: nat, desired: nat, steps: seq<Step>)
    requires desired <= max && Valid(Init(max, desired), steps) && Follows(false, Init(max, desired), steps)
    ensures var s := Final(Init(max, desired), steps);
      && |s.holders| + s.counter == desired && |s.holders| <= desired
      && (desired == 1 ==> forall j, k :: j in s.holders && k in s.holders ==> j == k && s.holders[k] == 1)
  {
    HoldersRun(Init(max, desired), steps);
    var s := Final(Init(max, desired), steps);
    forall j, k | j in s.holders && k in s.holders && desired == 1 ensures j == k && s.holders[k] == 1 {
      AtMostOne(s.holders, j, k);
    }
  }

  lemma AtMostOne(holders: multiset<nat>, j: nat, k: nat)
    requires |holders| <= 1 && j in holders && k in holders
    ensures j == k && holders[k] == 1
  {
    var rest := holders - multiset{k};
    assert holders == rest + multiset{k};
    assert |holders| == |rest| + 1;
    assert rest[j] == 0 && rest[k] == 0;
  }

  /** All units are taken by as many threads, one outsider releases a unit that it
      does not hold, and one more thread gets in. */
  function TooManyRun(desired: nat): seq<Step> {
    TakeEach(0, desired) + [Release(desired, 1), TryAcquire(desired)]
  }

  function TakeEach(lo: nat, hi: nat): seq<Step>
    decreases hi - lo
  {
    if lo >= hi then [] else [TryAcquire(lo)] + TakeEach(lo + 1, hi)
  }

  /** The threads `lo` to `hi` take one unit each. */
  lemma {:induction false} EachTakes(s: Sem, lo: nat, hi: nat)
    requires lo <= hi && s.counter == hi - lo && s.waiters == map[] && forall k :: k >= lo ==> k !in s.holders
    ensures Valid(s, TakeEach(lo, hi))
    ensures var t := Final(s, TakeEach(lo, hi));
      && t.counter == 0 && t.waiters == map[] && t.max == s.max && |t.holders| == |s.holders| + (hi - lo)
      && forall k :: k >= hi ==> k !in t.holders
    ensures Follows(true, s, TakeEach(lo, hi))
    decreases hi - lo
  {
    if lo == hi {
    } else {
      var steps := TakeEach(lo, hi);
      assert steps[0] == TryAcquire(lo) && steps[1..] == TakeEach(lo + 1, hi);
      EachTakes(Apply(s, TryAcquire(lo)), lo + 1, hi);
    }
  }

  lemma {:induction false} FreeFollows(s: Sem, steps: seq<Step>)
    requires Valid(s, steps)
    ensures Follows(true, s, steps)
    decreases |steps|
  {
    if steps == [] {
    } else {
      FreeFollows(Apply(s, steps[0]), steps[1..]);
    }
  }

  lemma TooMany(max: nat, desired: nat)
    requires desired <= max && max > 0
    ensures Valid(Init(max, desired), TooManyRun(desired))
    ensures Follows(true, Init(max, desired), TooManyRun(desired))
    ensures |Final(Init(max, desired), TooManyRun(desired)).holders| == desired + 1
  {
    var s := Init(max, desired);
    EachTakes(s, 0, desired);
    var t := Final(s, TakeEach(0, desired));
    var u := Apply(t, Release(desired, 1));
    assert u.holders == t.holders;
    RanStep(t, Release(desired, 1));
    RanStep(u, TryAcquire(desired));
    RanConcat(t, [Release(desired, 1)], u, [TryAcquire(desired)], Apply(u, TryAcquire(desired)));
    assert [Release(desired, 1)] + [TryAcquire(desired)] == [Release(desired, 1), TryAcquire(desired)];
    RanConcat(s, TakeEach(0, desired), t, [Release(desired, 1), TryAcquire(desired)], Apply(u, TryAcquire(desired)));
    FreeFollows(s, TooManyRun(desired));
  }

  ghost predicate NeverTooMany(free: bool, max: nat, desired: nat) {
    forall steps :: Valid(Init(max, desired), steps) && Follows(free, Init(max, desired), steps) ==>
      |Final(Init(max, desired), steps).holders| <= desired
  }

  lemma {:induction false} NobodyEnters(s: Sem, steps: seq<Step>)
    requires s.max == 0 && s.counter == 0 && s.holders == multiset{} && Valid(s, steps)
    ensures Final(s, steps).holders == multiset{}
    decreases |steps|
  {
    if steps == [] {
    } else {
      assert Apply(s, steps[0]).holders == multiset{};
      NobodyEnters(Apply(s, steps[0]), steps[1..]);
    }
  }

  /** For every initial value: the units held never exceed it on any run, exactly
      when threads release only what they hold (or the maximum is 0). */
  lemma ExclusionExactlyWhen(free: bool, max: nat, desired: nat)
    requires desired <= max
    ensures NeverTooMany(free, max, desired) <==> !free || max == 0
  {
    if !free {
      forall steps | Valid(Init(max, desired), steps) && Follows(false, Init(max, desired), steps)
        ensures |Final(Init(max, desired), steps).holders| <= desired
      {
        HoldersExclude(max, desired, steps);
      }
    } else if max == 0 {
      forall steps | Valid(Init(0, 0), steps) ensures |Final(Init(0, 0), steps).holders| <= 0 {
        NobodyEnters(Init(0, 0), steps);
      }
    } else {
      TooMany(max, desired);
    }
  }

  // ---------- Everyone who can acquire does ----------

  /** What threads inside the semaphore do by themselves. */
  predicate Internal(step: Step) {
    step.NotifyAll? || step.Retest?
  }

  /** No new calls: internal steps, timed acquires whose time is up, and spurious
      wake-ups. */
  predicate Undisturbed(steps: seq<Step>) {
    forall j :: 0 <= j < |steps| ==> Internal(steps[j]) || steps[j].Expire? || steps[j].WakeSpuriously?
  }

  function CountSpurious(steps: seq<Step>): nat {
    if steps == [] then 0 else (if steps[0].WakeSpuriously? then 1 else 0) + CountSpurious(steps[1..])
  }

  function NotifiedKeys(s: Sem): set<nat> {
    set k | k in s.waiters && s.waiters[k].notified
  }

  /** What is left to do without new calls. */
  function Measure(s: Sem): nat {
    s.pendingAll * (|s.waiters.Keys| + 1) + |NotifiedKeys(s)| + |s.waiters.Keys|
  }

  lemma SubsetSize(a: set<nat>, b: set<nat>)
    requires a <= b
    ensures |a| <= |b|
    ensures a != b ==> |a| < |b|
  {
    assert b == a + (b - a);
    assert |b| == |a| + |b - a|;
    if a != b { var x :| x in b - a; }
  }

  lemma Times(p: nat, a: nat, b: nat)
    requires a <= b
    ensures p * a <= p * b
    ensures p > 0 ==> (p - 1) * b + b == p * b
  {
  }

  /** A waiter leaves, or goes back to sleep. */
  lemma WaiterFalls(s: Sem, k: nat, step: Step)
    requires Enabled(s, step) && (step == Retest(k) || step == Expire(k))
    ensures Measure(Apply(s, step)) < Measure(s)
  {
    var t := Apply(s, step);
    assert t.waiters.Keys == s.waiters.Keys || t.waiters.Keys == s.waiters.Keys - {k};
    SubsetSize(t.waiters.Keys, s.waiters.Keys);
    assert NotifiedKeys(t) <= NotifiedKeys(s) && k !in NotifiedKeys(t);
    SubsetSize(NotifiedKeys(t), NotifiedKeys(s));
    Times(s.pendingAll, |t.waiters.Keys| + 1, |s.waiters.Keys| + 1);
  }

  lemma NotifyFalls(s: Sem)
    requires s.pendingAll > 0
    ensures Measure(Apply(s, NotifyAll)) < Measure(s)
  {
    var t := Apply(s, NotifyAll);
    assert t.waiters.Keys == s.waiters.Keys && NotifiedKeys(t) <= t.waiters.Keys;
    SubsetSize(NotifiedKeys(t), t.waiters.Keys);
    Times(s.pendingAll, |s.waiters.Keys| + 1, |s.waiters.Keys| + 1);
  }

  lemma SpuriousAddsOne(s: Sem, k: nat)
    requires Enabled(s, WakeSpuriously(k))
    ensures Measure(Apply(s, WakeSpuriously(k))) == Measure(s) + 1
  {
    var t := Apply(s, WakeSpuriously(k));
    assert t.waiters.Keys == s.waiters.Keys;
    assert NotifiedKeys(t) == NotifiedKeys(s) + {k};
  }

  lemma StepBound(s: Sem, step: Step)
    requires Enabled(s, step) && (Internal(step) || step.Expire? || step.WakeSpuriously?)
    ensures Measure(Apply(s, step)) + 1 <= Measure(s) + (if step.WakeSpuriously? then 2 else 0)
  {
    match step
    case NotifyAll => NotifyFalls(s);
    case WakeSpuriously(k) => SpuriousAddsOne(s, k);
    case Retest(k) => WaiterFalls(s, k, step);
    case Expire(k) => WaiterFalls(s, k, step);
  }

  /** Without new calls a run takes at most `Measure` steps, plus two for every
      spurious wake-up. */
  lemma {:induction false} BoundedRuns(s: Sem, steps: seq<Step>)
    requires Valid(s, steps) && Undisturbed(steps)
    ensures |steps| <= Measure(s) + 2 * CountSpurious(steps)
    decreases |steps|
  {
    if steps == [] {
    } else {
      StepBound(s, steps[0]);
      assert forall j :: 0 <= j < |steps[1..]| ==> steps[1..][j] == steps[j + 1];
      BoundedRuns(Apply(s, steps[0]), steps[1..]);
    }
  }

  /** After a release, every blocked thread is eventually unblocked as far as the
      counter allows: a run without new calls is bounded, also if timed acquires
      give up meanwhile, and where it cannot continue nobody waits unless the
      counter is 0. */
  lemma AcquirersServed(max: nat, desired: nat, past: seq<Step>, steps: seq<Step>)
    requires desired <= max && Valid(Init(max, desired), past)
    requires Valid(Final(Init(max, desired), past), steps) && Undisturbed(steps)
    ensures |steps| <= Measure(Final(Init(max, desired), past)) + 2 * CountSpurious(steps)
    ensures var s := Final(Final(Init(max, desired), past), steps);
      (forall step :: Internal(step) ==> !Enabled(s, step)) ==> s.waiters == map[] || s.counter == 0
  {
    RunInv(Init(max, desired), past);
    RunInv(Final(Init(max, desired), past), steps);
    BoundedRuns(Final(Init(max, desired), past), steps);
    var s := Final(Final(Init(max, desired), past), steps);
    if (forall step :: Internal(step) ==> !Enabled(s, step)) && s.waiters != map[] {
      assert !Enabled(s, NotifyAll);
      var k :| k in s.waiters;
      assert !Enabled(s, Retest(k));
    }
  }

  // ---------- Interference ----------

  /** What all other threads may do while thread `k` is inside a call: anything
      but a call of `k`; `k` may be notified, and may wake spuriously.  With `owes`
      the delivery of the notification that `k` still has to make is left to it. */
  predicate MayTake(k: nat, owes: bool, s: Sem, step: Step) {
    match step
    case NotifyAll => owes ==> s.pendingAll > 1
    case WakeSpuriously(_) => true
    case _ => step.k != k
  }

  ghost predicate ByOthers(k: nat, owes: bool, s: Sem, steps: seq<Step>)
    requires Valid(s, steps)
    decreases |steps|
  {
    steps == [] || (MayTake(k, owes, s, steps[0]) && ByOthers(k, owes, Apply(s, steps[0]), steps[1..]))
  }

  /** What thread `k` can rely on. */
  ghost predicate Stays(k: nat, owes: bool, s: Sem, t: Sem) {
    && t.max == s.max && t.holders[k] == s.holders[k]
    && (k in t.waiters <==> k in s.waiters) && (k in s.waiters ==> t.waiters[k].timed == s.waiters[k].timed)
    && (owes && s.pendingAll > 0 ==> t.pendingAll > 0)
  }

  lemma {:induction false} OthersKeep(k: nat, owes: bool, s: Sem, steps: seq<Step>)
    requires Valid(s, steps) && ByOthers(k, owes, s, steps)
    ensures Stays(k, owes, s, Final(s, steps))
    decreases |steps|
  {
    if steps == [] {
    } else {
      OthersKeep(k, owes, Apply(s, steps[0]), steps[1..]);
    }
  }

  // ---------- The class ----------

  class Semaphore {
    const max: nat
    ghost const initial: nat
    var counter: int
    /** The state of the condition variable. */
    var waiters: map<nat, Waiter>
    var pendingAll: nat
    /** The history. */
    ghost var released: nat
    ghost var acquired: nat
    ghost var holders: multiset<nat>

    ghost function View(): Sem
      reads this
    {
      Sem(max, initial, counter, waiters, pendingAll, released, acquired, holders)
    }

    /** Every state of an object is reached by a run of the protocol. */
    ghost predicate Valid()
      reads this
    {
      initial <= max && exists steps :: Ran(Init(max, initial), steps, View())
    }

    ghost method Happened(before: Sem, steps: seq<Step>)
      requires initial <= max && exists past :: Ran(Init(max, initial), past, before)
      requires Ran(before, steps, View())
      ensures Valid() && Balanced(View()) && Woken(View())
    {
      var past :| Ran(Init(max, initial), past, before);
      RanConcat(Init(max, initial), past, before, steps, View());
      RunInv(Init(max, initial), past + steps);
    }

    constructor (max: nat, desired: nat)
      requires desired <= max
      ensures Valid() && View() == Init(max, desired) && counter == desired && this.max == max
    {
      this.max, this.initial, this.counter := max, desired, desired;
      waiters, pendingAll, released, acquired, holders := map[], 0, 0, 0, multiset{};
      new;
      assert Ran(Init(max, desired), [], View());
    }

    /** Whatever all other threads do between two critical sections of thread `k`. */
    method Others(k: nat, ghost owes: bool) returns (ghost run: seq<Step>)
      requires Valid()
      modifies this
      ensures Valid() && Ran(old(View()), run, View()) && ByOthers(k, owes, old(View()), run)
    {
      run := [];
      Happened(View(), run);
    }

    /** `--counter` by thread `k`. */
    method Take(k: nat)
      modifies this`counter, this`acquired, this`holders
      ensures View() == Decrement(old(View()), k)
    {
      counter := counter - 1;
      acquired := acquired + 1;
      holders := holders + multiset{k};
    }

    /** `acquire`, or a timed form, up to its return or its first sleep. */
    method AcquireOrSleep(k: nat, timed: bool) returns (done: bool)
      requires Valid() && Enabled(View(), Step.Acquire(k, timed))
      modifies this
      ensures Valid() && View() == Apply(old(View()), Step.Acquire(k, timed)) && (done <==> old(counter) > 0)
      ensures counter == old(counter) - (if done then 1 else 0)
      ensures holders[k] == old(holders)[k] + (if done then 1 else 0)
    {
      done := counter > 0;
      if done {
        Take(k);
      } else {
        waiters := waiters[k := Waiter(false, timed)];
      }
      RanStep(old(View()), Step.Acquire(k, timed));
      Happened(old(View()), [Step.Acquire(k, timed)]);
    }

    /** A notified thread has the mutex again. */
    method Wakes(k: nat) returns (done: bool)
      requires Valid() && Enabled(View(), Retest(k))
      modifies this
      ensures Valid() && View() == Apply(old(View()), Retest(k)) && (done <==> old(counter) > 0)
      ensures counter == old(counter) - (if done then 1 else 0)
      ensures holders[k] == old(holders)[k] + (if done then 1 else 0)
    {
      done := counter > 0;
      if done {
        Take(k);
        waiters := waiters - {k};
      } else {
        waiters := waiters[k := waiters[k].(notified := false)];
      }
      RanStep(old(View()), Retest(k));
      Happened(old(View()), [Retest(k)]);
    }

    /** The end of `try_acquire_for` and `try_acquire_until` when the time is up. */
    method TimesOut(k: nat) returns (ok: bool)
      requires Valid() && Enabled(View(), Expire(k))
      modifies this
      ensures Valid() && View() == Apply(old(View()), Expire(k)) && (ok <==> old(counter) > 0)
      ensures counter == old(counter) - (if ok then 1 else 0)
      ensures holders[k] == old(holders)[k] + (if ok then 1 else 0)
      ensures !ok ==> counter == 0
    {
      ok := counter > 0;
      waiters := waiters - {k};
      if ok {
        Take(k);
      }
      RanStep(old(View()), Expire(k));
      Happened(old(View()), [Expire(k)]);
    }

    /** From the first sleep to the return, or as long as `patience` lasts.  Between
        its critical sections other threads run arbitrarily. */
    method Sleep(k: nat, patience: nat) returns (done: bool, ghost run: seq<Step>)
      requires Valid() && k in waiters
      modifies this
      ensures Valid() && Ran(old(View()), run, View())
      ensures done ==> k !in waiters && holders[k] == old(holders)[k] + 1
      ensures !done ==> k in waiters && waiters[k].timed == old(waiters)[k].timed && holders[k] == old(holders)[k]
    {
      done, run := false, [];
      ghost var start := View();
      var rounds := patience;
      while rounds > 0 && !done
        invariant Valid() && Ran(start, run, View())
        invariant done ==> k !in waiters && holders[k] == start.holders[k] + 1
        invariant !done ==> k in waiters && waiters[k].timed == start.waiters[k].timed && holders[k] == start.holders[k]
      {
        rounds := rounds - 1;
        ghost var before := View();
        ghost var others := Others(k, false);
        OthersKeep(k, false, before, others);
        RanConcat(start, run, before, others, View());
        run := run + others;
        if waiters[k].notified {
          ghost var middle := View();
          done := Wakes(k);
          RanThen(start, run, middle, Retest(k));
          run := run + [Retest(k)];
        }
      }
    }

    method Begin(k: nat, timed: bool) returns (done: bool, ghost run: seq<Step>)
      requires Valid() && k !in waiters
      modifies this
      ensures Valid() && Ran(old(View()), run, View()) && (done <==> old(counter) > 0)
      ensures run == [Step.Acquire(k, timed)]
      ensures done ==> k !in waiters && holders[k] == old(holders)[k] + 1
      ensures !done ==> k in waiters && waiters[k].timed == timed && holders[k] == old(holders)[k]
    {
      done := AcquireOrSleep(k, timed);
      run := [Step.Acquire(k, timed)];
      RanStep(old(View()), run[0]);
    }

    /** `acquire`: it returns with one more unit held by the caller, or is still
        asleep when the `patience` to watch it is over. */
    method Acquire(k: nat, patience: nat) returns (done: bool, ghost run: seq<Step>)
      requires Valid() && k !in waiters
      modifies this
      ensures Valid() && Ran(old(View()), run, View()) && run != [] && run[0] == Step.Acquire(k, false)
      ensures done ==> k !in waiters && holders[k] == old(holders)[k] + 1
      ensures !done ==> k in waiters && holders[k] == old(holders)[k]
      ensures old(counter) > 0 ==> done
    {
      done, run := Begin(k, false);
      if !done {
        ghost var middle, first := View(), run;
        ghost var rest;
        done, rest := Sleep(k, patience);
        RanConcat(old(View()), first, middle, rest, View());
        run := first + rest;
      }
    }

    /** `try_acquire_for` and `try_acquire_until`; the time is up after `patience`
        rounds.  It returns true exactly if the caller holds one more unit, and
        false only if there was none at the end. */
    method TryAcquireFor(k: nat, patience: nat) returns (ok: bool, ghost run: seq<Step>)
      requires Valid() && k !in waiters
      modifies this
      ensures Valid() && Ran(old(View()), run, View()) && k !in waiters
      ensures run != [] && run[0] == Step.Acquire(k, true)
      ensures holders[k] == old(holders)[k] + (if ok then 1 else 0)
      ensures !ok ==> counter == 0
      ensures old(counter) > 0 ==> ok
    {
      ok, run := Begin(k, true);
      if !ok {
        ghost var middle, first := View(), run;
        ghost var rest;
        ok, rest := Sleep(k, patience);
        RanConcat(old(View()), first, middle, rest, View());
        run := first + rest;
        if !ok {
          ghost var last := View();
          ok := TimesOut(k);
          RanThen(old(View()), run, last, Expire(k));
          run := run + [Expire(k)];
        }
      }
    }

    /** `try_acquire` never blocks. */
    method TryAcquire(k: nat) returns (ok: bool)
      requires Valid() && k !in waiters
      modifies this
      ensures Valid() && View() == Apply(old(View()), Step.TryAcquire(k)) && (ok <==> old(counter) > 0)
      ensures counter == old(counter) - (if ok then 1 else 0)
      ensures holders[k] == old(holders)[k] + (if ok then 1 else 0)
    {
      ok := counter > 0;
      if ok {
        Take(k);
      }
      RanStep(old(View()), Step.TryAcquire(k));
      Happened(old(View()), [Step.TryAcquire(k)]);
    }

    /** The critical section of `release`. */
    method AddUnits(k: nat, update: nat)
      requires Valid() && Enabled(View(), Step.Release(k, update))
      modifies this
      ensures Valid() && View() == Apply(old(View()), Step.Release(k, update))
      ensures Ran(old(View()), [Step.Release(k, update)], View()) && counter == old(counter) + update
    {
      counter := counter + update;
      released, holders, pendingAll := released + update, Drop(holders, k, update), pendingAll + 1;
      RanStep(old(View()), Step.Release(k, update));
      Happened(old(View()), [Step.Release(k, update)]);
    }

    /** `cv.notify_all()`. */
    method NotifyAllWaiters()
      requires Valid() && pendingAll > 0
      modifies this
      ensures Valid() && View() == Apply(old(View()), NotifyAll) && !SleepsUnnotified(waiters)
    {
      pendingAll, waiters := pendingAll - 1, WakeAll(waiters);
      RanStep(old(View()), NotifyAll);
      Happened(old(View()), [NotifyAll]);
    }

    /** `release`, with other threads between its critical section and its
        notification: when it returns nobody is left asleep without having been
        told, and a disciplined caller holds `update` units less. */
    method Release(k: nat, update: nat) returns (ghost run: seq<Step>)
      requires Valid() && k !in waiters && counter + update <= max
      modifies this
      ensures Valid() && Ran(old(View()), run, View())
      ensures |run| >= 2 && run[0] == Step.Release(k, update) && run[|run| - 1] == NotifyAll
      ensures Apply(old(View()), Step.Release(k, update)).counter == old(counter) + update
      ensures !SleepsUnnotified(waiters)
      ensures update <= old(holders)[k] ==> holders[k] == old(holders)[k] - update
    {
      AddUnits(k, update);
      ghost var middle := View();
      run := [Step.Release(k, update)];
      ghost var others := Others(k, true);
      OthersKeep(k, true, middle, others);
      RanConcat(old(View()), run, middle, others, View());
      run := run + others;
      ghost var last := View();
      NotifyAllWaiters();
      RanThen(old(View()), run, last, NotifyAll);
      run := run + [NotifyAll];
    }
  }
}
