/** Rules that the clients of a pool may follow, and runs that follow them. */
module PoolRules {
  import opened PoolModel

  /** Each flag permits calls of clients:
      resetUnpaused      resetting a pause-enabled pool that is not paused
      unpauseDuringReset unpausing while a reset is in progress that will pause
                         the pool again
      purgeWhileWaiting  purging while someone is inside `wait()`
      pauseWhileWaiting  pausing while someone is inside `wait()`
      manyWaiters        having two threads inside `wait()` at once; as `reset` and
                         the destructor wait too, also calling them while someone
                         is inside it, and entering it before they have done so
      selfWait           entering `wait()` from a task of the same pool */
  datatype Rules = Rules(resetUnpaused: bool, unpauseDuringReset: bool, purgeWhileWaiting: bool,
                         pauseWhileWaiting: bool, manyWaiters: bool, selfWait: bool)

  /** A call of `pause`, or of `reset`, pauses the pool under a waiter. */
  predicate PausesWaiter(s: Pool) {
    s.cfg.pause && !s.paused && s.waiters != map[]
  }

  /** A reset is in progress that found the pool paused. */
  predicate Repauses(ctl: Control) {
    ctl.Active? && ctl.goal == Reset && ctl.wasPaused
  }

  /** A reset or the destructor has been called and has not entered `wait()` yet. */
  predicate AboutToWait(ctl: Control) {
    ctl.Active? && ctl.phase == PreWait
  }

  /** `wait()` throws at once. */
  predicate Rejected(cfg: Config, host: Host) {
    cfg.deadlockChecks && host.ByTask?
  }

  /** The rules restrict calls of clients only; what the threads inside the pool do
      is never forbidden. */
  predicate Allowed(r: Rules, s: Pool, step: Step) {
    match step
    case Client(Purge) => r.purgeWhileWaiting || s.waiters == map[]
    case Client(Pause) => r.pauseWhileWaiting || !PausesWaiter(s)
    case Client(Unpause) => r.unpauseDuringReset || !Repauses(s.ctl)
    case Client(BeginReset(_)) =>
      && (r.resetUnpaused || s.paused || !s.cfg.pause)
      && (r.pauseWhileWaiting || !PausesWaiter(s))
      && (r.manyWaiters || s.waiters == map[])
    case Client(BeginDestroy) => r.manyWaiters || s.waiters == map[]
    case Wait(_, Enter(_, host)) =>
      || Rejected(s.cfg, host)
      || (&& (r.manyWaiters || (s.waiters == map[] && !AboutToWait(s.ctl)))
          && (r.selfWait || !host.ByTask?))
    case _ => true
  }

  ghost predicate Follows(r: Rules, s: Pool, steps: seq<Step>)
    requires Valid(s, steps)
    decreases |steps|
  {
    steps == [] || (Allowed(r, s, steps[0]) && Follows(r, Apply(s, steps[0]), steps[1..]))
  }

  lemma {:induction false} FollowsConcat(r: Rules, s: Pool, a: seq<Step>, b: seq<Step>)
    requires Valid(s, a) && Valid(Final(s, a), b) && Follows(r, s, a) && Follows(r, Final(s, a), b)
    ensures Valid(s, a + b) && Final(s, a + b) == Final(Final(s, a), b) && Follows(r, s, a + b)
    decreases |a|
  {
    if a == [] {
      assert a + b == b;
    } else {
      assert (a + b)[0] == a[0] && (a + b)[1..] == a[1..] + b;
      FollowsConcat(r, Apply(s, a[0]), a[1..], b);
    }
  }

  /** A state that some run reaches under the rules from the construction of a pool
      with `n` threads. */
  ghost predicate ReachedUnder(r: Rules, cfg: Config, n: nat, s: Pool) {
    exists steps :: Ran(Init(cfg, n), steps, s) && Follows(r, Init(cfg, n), steps)
  }

  lemma Start(r: Rules, cfg: Config, n: nat)
    ensures ReachedUnder(r, cfg, n, Init(cfg, n))
  {
    assert Ran(Init(cfg, n), [], Init(cfg, n)) && Follows(r, Init(cfg, n), []);
  }

  lemma ExtendRun(r: Rules, cfg: Config, n: nat, s: Pool, steps: seq<Step>, t: Pool)
    requires ReachedUnder(r, cfg, n, s) && Ran(s, steps, t) && Follows(r, s, steps)
    ensures ReachedUnder(r, cfg, n, t)
  {
    var past :| Ran(Init(cfg, n), past, s) && Follows(r, Init(cfg, n), past);
    FollowsConcat(r, Init(cfg, n), past, steps);
  }

  lemma Extend(r: Rules, cfg: Config, n: nat, s: Pool, step: Step)
    requires ReachedUnder(r, cfg, n, s) && Enabled(s, step) && Allowed(r, s, step)
    ensures ReachedUnder(r, cfg, n, Apply(s, step))
  {
    RunOne(s, step);
    assert [step][0] == step && [step][1..] == [];
    assert Follows(r, Apply(s, step), []);
    ExtendRun(r, cfg, n, s, [step], Apply(s, step));
  }

  /** `r` permits whatever `q` permits. */
  predicate Includes(r: Rules, q: Rules) {
    && (q.resetUnpaused ==> r.resetUnpaused) && (q.unpauseDuringReset ==> r.unpauseDuringReset)
    && (q.purgeWhileWaiting ==> r.purgeWhileWaiting) && (q.pauseWhileWaiting ==> r.pauseWhileWaiting)
    && (q.manyWaiters ==> r.manyWaiters) && (q.selfWait ==> r.selfWait)
  }

  lemma {:induction false} FollowsMore(r: Rules, q: Rules, s: Pool, steps: seq<Step>)
    requires Includes(r, q) && Valid(s, steps) && Follows(q, s, steps)
    ensures Follows(r, s, steps)
    decreases |steps|
  {
    if steps == [] {
    } else {
      FollowsMore(r, q, Apply(s, steps[0]), steps[1..]);
    }
  }

  lemma ReachedMore(r: Rules, q: Rules, cfg: Config, n: nat, s: Pool)
    requires Includes(r, q) && ReachedUnder(q, cfg, n, s)
    ensures ReachedUnder(r, cfg, n, s)
  {
    var steps :| Ran(Init(cfg, n), steps, s) && Follows(q, Init(cfg, n), steps);
    FollowsMore(r, q, Init(cfg, n), steps);
  }
}
