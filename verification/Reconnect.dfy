/** The two reconnect loops: go/internal/client/reconnect.go and
    web/src/net/reconnect.js. */
module Reconnect {
  import opened Wrappers
  import opened Positional

  // ---- When a loop gives up ----

  /** How many attempts at the end of the history were unhealthy in a row. */
  function Streak(health: seq<bool>): nat {
    if health == [] || health[|health| - 1] then 0 else Streak(health[..|health| - 1]) + 1
  }

  /** The attempts i - limit + 1 .. i were all unhealthy. */
  ghost predicate RunOfFailures(health: seq<bool>, limit: nat, i: nat) {
    limit <= i + 1 <= |health| && forall k :: i + 1 - limit <= k <= i ==> !health[k]
  }

  /** Attempt i completes the first run of `limit` consecutive unhealthy attempts. */
  ghost predicate CompletesFirstRun(health: seq<bool>, limit: nat, i: nat) {
    RunOfFailures(health, limit, i) && forall j :: 0 <= j < i ==> !RunOfFailures(health, limit, j)
  }

  ghost predicate NoRun(health: seq<bool>, limit: nat) {
    forall i: nat :: i < |health| ==> !RunOfFailures(health, limit, i)
  }

  lemma {:induction false} StreakBounds(health: seq<bool>)
    ensures Streak(health) <= |health|
    ensures forall k :: |health| - Streak(health) <= k < |health| ==> !health[k]
    ensures Streak(health) < |health| ==> health[|health| - 1 - Streak(health)]
    decreases |health|
  {
    if health != [] && !health[|health| - 1] { StreakBounds(health[..|health| - 1]); }
  }

  lemma StreakIsRun(health: seq<bool>, limit: nat)
    requires health != [] && limit > 0
    ensures Streak(health) >= limit <==> RunOfFailures(health, limit, |health| - 1)
  {
    StreakBounds(health);
  }

  lemma RunInPrefix(a: seq<bool>, b: seq<bool>, limit: nat, i: nat)
    requires a <= b && i < |a|
    ensures RunOfFailures(a, limit, i) <==> RunOfFailures(b, limit, i)
  {
  }

  /** Appending one attempt that leaves the streak below the limit adds no run. */
  lemma NoRunExtends(health: seq<bool>, limit: nat, h: bool)
    requires limit > 0 && NoRun(health, limit) && Streak(health + [h]) < limit
    ensures NoRun(health + [h], limit)
  {
    var t := health + [h];
    StreakIsRun(t, limit);
    forall i: nat | i < |t| ensures !RunOfFailures(t, limit, i) {
      if i < |health| { RunInPrefix(health, t, limit, i); }
    }
  }

  lemma RunCompletes(health: seq<bool>, limit: nat, h: bool)
    requires limit > 0 && NoRun(health, limit) && Streak(health + [h]) >= limit
    ensures CompletesFirstRun(health + [h], limit, |health|)
  {
    var t := health + [h];
    StreakIsRun(t, limit);
    forall j: nat | j < |health| ensures !RunOfFailures(t, limit, j) { RunInPrefix(health, t, limit, j); }
  }

  lemma StreakAppend(health: seq<bool>, h: bool)
    ensures Streak(health + [h]) == if h then 0 else Streak(health) + 1
  {
    var t := health + [h];
    assert t[..|t| - 1] == health;
  }

  // ---- The Go loop ----

  datatype Policy = Policy(base: int, cap: int, maxFailures: int, minHealthy: int)

  function Defaults(p: Policy): (q: Policy)
    ensures q.base > 0 && q.cap > 0 && q.maxFailures > 0 && q.minHealthy > 0
  {
    Policy(if p.base <= 0 then 1_000_000_000 else p.base, if p.cap <= 0 then 15_000_000_000 else p.cap,
           if p.maxFailures <= 0 then 7 else p.maxFailures, if p.minHealthy <= 0 then 5_000_000_000 else p.minHealthy)
  }

  /** A policy left at zero means one second, fifteen seconds, seven failures and five
      seconds; a field that is set is kept. */
  lemma DefaultsFillIn(p: Policy)
    ensures Defaults(Policy(0, 0, 0, 0)) == Policy(1_000_000_000, 15_000_000_000, 7, 5_000_000_000)
    ensures p.base > 0 && p.cap > 0 && p.maxFailures > 0 && p.minHealthy > 0 ==> Defaults(p) == p
    ensures forall f: int :: f <= 0 ==> Defaults(p.(maxFailures := f)) == Defaults(p).(maxFailures := 7)
  {
  }

  /** The delay before retry number k of an outage: doubling from base, capped. */
  function Delay(p: Policy, k: nat): int
    requires k >= 1 && p.base > 0
  {
    var d := p.base * Pow(2, k - 1);
    if p.base > p.cap then p.base else if d < p.cap then d else p.cap
  }

  /** What the environment does in one iteration. */
  datatype Attempt = Attempt(cancelledFirst: bool, dialed: bool, cancelledInDial: bool,
                             hardError: bool, cancelledInRun: bool, uptime: int, cancelledInSleep: bool)

  datatype End = GaveUp(failures: nat) | Cancelled | HardError | StillRunning

  /** The iteration ends the loop for a reason other than the failure budget. */
  predicate Stops(a: Attempt) {
    a.cancelledFirst || a.cancelledInDial || (a.dialed && (a.cancelledInRun || a.hardError))
  }

  /** The context was cancelled before the dial, in it, or in the session. */
  predicate WasCancelled(a: Attempt) {
    a.cancelledFirst || a.cancelledInDial || (a.dialed && a.cancelledInRun)
  }

  predicate FailedHard(a: Attempt) { !WasCancelled(a) && a.dialed && a.hardError }

  predicate StopsWith(a: Attempt, end: End) {
    (end == Cancelled && WasCancelled(a)) || (end == HardError && FailedHard(a))
  }

  /** A session that ran long enough; a dial error or a flap is unhealthy. */
  predicate Healthy(a: Attempt, p: Policy) { a.dialed && a.uptime >= p.minHealthy }

  ghost function Health(attempts: seq<Attempt>, p: Policy): (h: seq<bool>)
    ensures |h| == |attempts| && forall i :: 0 <= i < |h| ==> h[i] == Healthy(attempts[i], p)
  {
    seq(|attempts|, i requires 0 <= i < |attempts| => Healthy(attempts[i], p))
  }

  /** Each of the `limit` attempts up to i failed to dial or was up for less than minHealthy. */
  ghost predicate FailedRun(attempts: seq<Attempt>, minHealthy: int, limit: int, i: int) {
    && 0 <= limit <= i + 1 <= |attempts|
    && forall k :: i + 1 - limit <= k <= i ==> !attempts[k].dialed || attempts[k].uptime < minHealthy
  }

  /** Attempt i is the k-th in a row to fail. */
  ghost predicate FailureNumber(attempts: seq<Attempt>, minHealthy: int, i: int, k: int) {
    && k > 0 && FailedRun(attempts, minHealthy, k, i)
    && (k <= i ==> attempts[i - k].dialed && attempts[i - k].uptime >= minHealthy)
  }

  lemma FailedRunIs(p: Policy, attempts: seq<Attempt>, limit: nat, i: nat)
    requires i < |attempts|
    ensures RunOfFailures(Health(attempts, p), limit, i) <==> FailedRun(attempts, p.minHealthy, limit, i)
  {
    var h := Health(attempts, p);
    if RunOfFailures(h, limit, i) {
      forall k | i + 1 - limit <= k <= i ensures !attempts[k].dialed || attempts[k].uptime < p.minHealthy {
        assert !h[k];
      }
    }
    if FailedRun(attempts, p.minHealthy, limit, i) {
      forall k | i + 1 - limit <= k <= i ensures !h[k] {
      }
    }
  }

  /** No `limit` attempts in a row among the first `at` failed. */
  ghost predicate NeverFailed(attempts: seq<Attempt>, minHealthy: int, limit: int, at: int) {
    forall i :: 0 <= i < at ==> !FailedRun(attempts, minHealthy, limit, i)
  }

  lemma FailedInPrefix(attempts: seq<Attempt>, at: nat, minHealthy: int, limit: int, i: int)
    requires 0 <= i < at <= |attempts|
    ensures FailedRun(attempts[..at], minHealthy, limit, i) <==> FailedRun(attempts, minHealthy, limit, i)
  {
    forall k | 0 <= k < at ensures attempts[..at][k] == attempts[k] {
    }
  }

  lemma NoRunIs(p: Policy, attempts: seq<Attempt>, at: nat)
    requires at <= |attempts| && p.maxFailures > 0
    requires NoRun(Health(attempts[..at], p), p.maxFailures)
    ensures NeverFailed(attempts, p.minHealthy, p.maxFailures, at)
  {
    forall i | 0 <= i < at ensures !FailedRun(attempts, p.minHealthy, p.maxFailures, i) {
      FailedInPrefix(attempts, at, p.minHealthy, p.maxFailures, i);
      FailedRunIs(p, attempts[..at], p.maxFailures, i);
    }
  }

  lemma FirstRunIs(p: Policy, attempts: seq<Attempt>, at: nat)
    requires at < |attempts| && p.maxFailures > 0
    requires CompletesFirstRun(Health(attempts[..at + 1], p), p.maxFailures, at)
    ensures FailedRun(attempts, p.minHealthy, p.maxFailures, at)
  {
    FailedRunIs(p, attempts[..at + 1], p.maxFailures, at);
  }

  lemma StreakIs(p: Policy, attempts: seq<Attempt>, i: nat, k: nat)
    requires i < |attempts| && FailureNumber(attempts, p.minHealthy, i, k)
    ensures Streak(Health(attempts[..i + 1], p)) == k && !Healthy(attempts[i], p)
  {
    var h := Health(attempts[..i + 1], p);
    StreakBounds(h);
    assert forall j :: i + 1 - k <= j <= i ==> !h[j];
    assert k <= i ==> h[i - k];
  }

  /** The k-th failure in a row slept the k-th delay, anything else not at all. */
  ghost predicate SleptByCount(p: Policy, attempts: seq<Attempt>, slept: seq<int>)
    requires p.base > 0
  {
    && |slept| <= |attempts|
    && (forall i :: 0 <= i < |slept| && attempts[i].dialed && attempts[i].uptime >= p.minHealthy ==> slept[i] == 0)
    && forall i, k :: 0 <= i < |slept| && FailureNumber(attempts, p.minHealthy, i, k) ==> slept[i] == Delay(p, k)
  }

  lemma SleptIs(p: Policy, attempts: seq<Attempt>, slept: seq<int>)
    requires p.base > 0 && |slept| <= |attempts| && SleptRight(p, attempts, slept)
    ensures SleptByCount(p, attempts, slept)
  {
    forall i, k | 0 <= i < |slept| && FailureNumber(attempts, p.minHealthy, i, k) ensures slept[i] == Delay(p, k) {
      StreakIs(p, attempts, i, k);
    }
  }

  /** Doubled, but not past the cap; a delay already past it stays. */
  function Bumped(backoff: int, cap: int): int {
    if backoff < cap then (if backoff * 2 > cap then cap else backoff * 2) else backoff
  }

  lemma DelayDoubles(p: Policy, k: nat)
    requires k >= 1 && p.base > 0
    ensures Delay(p, k + 1) == Bumped(Delay(p, k), p.cap)
  {
    var x := Pow(2, k - 1);
    assert Pow(2, k) == 2 * x;
    assert p.base * (2 * x) == (p.base * x) * 2;
    assert p.base * x >= p.base by { MulMonotone(p.base, p.base, 1, x); }
  }

  /** The backoff variable before retry number k, as the loop moves it. */
  function Backoff(p: Policy, k: nat): int
    requires k >= 1
  {
    if k == 1 then p.base else Bumped(Backoff(p, k - 1), p.cap)
  }

  /** Moving the variable step by step gives the closed form. */
  lemma {:induction false} BackoffIsDelay(p: Policy, k: nat)
    requires k >= 1 && p.base > 0
    ensures Backoff(p, k) == Delay(p, k)
    decreases k
  {
    if k == 1 {
      assert Pow(2, 0) == 1 && p.base * 1 == p.base;
    } else {
      BackoffIsDelay(p, k - 1);
      DelayDoubles(p, k - 1);
    }
  }

  /** The counters of one run of the loop. `slept` has one entry per finished
      iteration: the delay it slept, or 0. */
  datatype Trace = Trace(dials: nat, cleanups: nat, slept: seq<int>)

  /** Every finished iteration slept exactly what its place in the outage demands. */
  ghost predicate SleptRight(p: Policy, attempts: seq<Attempt>, slept: seq<int>)
    requires |slept| <= |attempts| && p.base > 0
  {
    forall i :: 0 <= i < |slept| ==>
      slept[i] == if Healthy(attempts[i], p) then 0 else SleepAt(p, attempts, i)
  }

  ghost function SleepAt(p: Policy, attempts: seq<Attempt>, i: nat): int
    requires i < |attempts| && p.base > 0
  {
    var k := Streak(Health(attempts[..i + 1], p));
    if k == 0 then 0 else Delay(p, k)
  }

  /** The same in terms of the backoff variable. */
  ghost predicate SleptBackoff(p: Policy, attempts: seq<Attempt>, slept: seq<int>)
    requires |slept| <= |attempts|
  {
    forall i :: 0 <= i < |slept| ==>
      slept[i] == if Healthy(attempts[i], p) then 0 else BackoffAt(p, attempts, i)
  }

  ghost function BackoffAt(p: Policy, attempts: seq<Attempt>, i: nat): int
    requires i < |attempts|
  {
    var k := Streak(Health(attempts[..i + 1], p));
    if k == 0 then 0 else Backoff(p, k)
  }

  lemma SleptAsPromised(p: Policy, attempts: seq<Attempt>, slept: seq<int>)
    requires |slept| <= |attempts| && p.base > 0 && SleptBackoff(p, attempts, slept)
    ensures SleptRight(p, attempts, slept)
  {
    forall i | 0 <= i < |slept| ensures BackoffAt(p, attempts, i) == SleepAt(p, attempts, i) {
      var k := Streak(Health(attempts[..i + 1], p));
      if k >= 1 { BackoffIsDelay(p, k); }
    }
  }

  /** What the loop knows before attempt `at`. */
  ghost predicate Looping(p: Policy, attempts: seq<Attempt>, at: nat, failures: nat, backoff: int, slept: seq<int>) {
    && p.base > 0 && p.maxFailures > 0
    && |slept| == at <= |attempts|
    && failures == Streak(Health(attempts[..at], p)) < p.maxFailures
    && backoff == Backoff(p, failures + 1)
    && NoRun(Health(attempts[..at], p), p.maxFailures)
    && SleptBackoff(p, attempts, slept)
  }

  /** Why the loop ended at attempt `at`. */
  ghost predicate EndsRight(p: Policy, attempts: seq<Attempt>, end: End, at: nat) {
    match end
    case StillRunning => at == |attempts|
    case GaveUp(n) => at < |attempts| && n == p.maxFailures && !Stops(attempts[at])
                      && CompletesFirstRun(Health(attempts[..at + 1], p), p.maxFailures, at)
    case HardError => at < |attempts| && FailedHard(attempts[at])
    case Cancelled => at < |attempts| && (WasCancelled(attempts[at]) || attempts[at].cancelledInSleep)
  }

  lemma HealthSnoc(p: Policy, attempts: seq<Attempt>, at: nat)
    requires at < |attempts|
    ensures Health(attempts[..at + 1], p) == Health(attempts[..at], p) + [Healthy(attempts[at], p)]
    ensures Streak(Health(attempts[..at + 1], p)) ==
            if Healthy(attempts[at], p) then 0 else Streak(Health(attempts[..at], p)) + 1
  {
    assert Health(attempts[..at + 1], p) == Health(attempts[..at], p) + [Healthy(attempts[at], p)];
    StreakAppend(Health(attempts[..at], p), Healthy(attempts[at], p));
  }

  lemma AfterHealthy(p: Policy, attempts: seq<Attempt>, at: nat, failures: nat, backoff: int, slept: seq<int>)
    requires Looping(p, attempts, at, failures, backoff, slept)
    requires at < |attempts| && Healthy(attempts[at], p)
    ensures Looping(p, attempts, at + 1, 0, p.base, slept + [0])
  {
    HealthSnoc(p, attempts, at);
    NoRunExtends(Health(attempts[..at], p), p.maxFailures, true);
  }

  lemma SleptNext(p: Policy, attempts: seq<Attempt>, at: nat, failures: nat, backoff: int, slept: seq<int>)
    requires Looping(p, attempts, at, failures, backoff, slept)
    requires at < |attempts| && !Healthy(attempts[at], p)
    ensures SleptBackoff(p, attempts, slept + [backoff])
  {
    HealthSnoc(p, attempts, at);
  }

  lemma AfterFailure(p: Policy, attempts: seq<Attempt>, at: nat, failures: nat, backoff: int, slept: seq<int>)
    requires Looping(p, attempts, at, failures, backoff, slept)
    requires at < |attempts| && !Healthy(attempts[at], p) && failures + 1 < p.maxFailures
    ensures SleptBackoff(p, attempts, slept + [backoff])
    ensures Looping(p, attempts, at + 1, failures + 1, Bumped(backoff, p.cap), slept + [backoff])
  {
    HealthSnoc(p, attempts, at);
    NoRunExtends(Health(attempts[..at], p), p.maxFailures, false);
    SleptNext(p, attempts, at, failures, backoff, slept);
  }

  lemma StartLooping(p: Policy, attempts: seq<Attempt>)
    requires p.base > 0 && p.maxFailures > 0
    ensures Looping(p, attempts, 0, 0, p.base, [])
  {
  }

  lemma LastStraw(p: Policy, attempts: seq<Attempt>, at: nat, failures: nat, backoff: int, slept: seq<int>)
    requires Looping(p, attempts, at, failures, backoff, slept)
    requires at < |attempts| && !Healthy(attempts[at], p) && failures + 1 >= p.maxFailures
    requires !Stops(attempts[at])
    ensures EndsRight(p, attempts, GaveUp(failures + 1), at)
  {
    HealthSnoc(p, attempts, at);
    RunCompletes(Health(attempts[..at], p), p.maxFailures, false);
  }

  /** One iteration up to the failure count: a dial that succeeded is cleaned up on every way out. */
  method DialAndRun(a: Attempt, p: Policy, before: Trace) returns (stop: Option<End>, healthy: bool, t: Trace)
    ensures t.dials == before.dials + (if !a.cancelledFirst && a.dialed then 1 else 0)
    ensures t.cleanups - before.cleanups == t.dials - before.dials && t.slept == before.slept
    ensures stop.Some? <==> Stops(a)
    ensures stop.Some? ==> StopsWith(a, stop.value)
    ensures stop.None? ==> (healthy <==> Healthy(a, p))
  {
    t, healthy := before, false;
    if a.cancelledFirst {
      return Some(Cancelled), false, t;
    }
    if a.dialed { t := t.(dials := t.dials + 1); }
    if a.cancelledInDial {
      if a.dialed { t := t.(cleanups := t.cleanups + 1); }
      return Some(Cancelled), false, t;
    }
    if a.dialed {
      t := t.(cleanups := t.cleanups + 1);
      if a.cancelledInRun {
        return Some(Cancelled), false, t;
      }
      if a.hardError {
        return Some(HardError), false, t;
      }
      healthy := a.uptime >= p.minHealthy;
    }
    return None, healthy, t;
  }

  method BumpBackoff(backoff: int, cap: int) returns (next: int)
    ensures next == Bumped(backoff, cap)
  {
    next := backoff;
    if next < cap {
      next := next * 2;
      if next > cap {
        next := cap;
      }
    }
  }

  method ReconnectLoop(policy: Policy, attempts: seq<Attempt>) returns (end: End, at: nat, t: Trace)
    ensures at <= |attempts| && t.cleanups == t.dials
    ensures forall i :: 0 <= i < at ==> !Stops(attempts[i])
    ensures NoRun(Health(attempts[..at], Defaults(policy)), Defaults(policy).maxFailures)
    ensures |t.slept| == (if at < |attempts| && end == Cancelled && !Stops(attempts[at]) then at + 1 else at)
    ensures SleptRight(Defaults(policy), attempts, t.slept)
    ensures EndsRight(Defaults(policy), attempts, end, at)
    ensures var p := Defaults(policy);
            && NeverFailed(attempts, p.minHealthy, p.maxFailures, at)
            && (end.GaveUp? ==> FailedRun(attempts, p.minHealthy, p.maxFailures, at))
            && SleptByCount(p, attempts, t.slept)
  {
    var p := Defaults(policy);
    end, at, t := LoopWith(p, attempts);
    SleptAsPromised(p, attempts, t.slept);
    NoRunIs(p, attempts, at);
    if end.GaveUp? { FirstRunIs(p, attempts, at); }
    SleptIs(p, attempts, t.slept);
  }

  /** Everything the loop promises when it ends at attempt `at`. */
  ghost predicate Ended(p: Policy, attempts: seq<Attempt>, end: End, at: nat, t: Trace) {
    && p.base > 0 && p.maxFailures > 0 && at <= |attempts| && t.cleanups == t.dials
    && (forall i :: 0 <= i < at ==> !Stops(attempts[i]))
    && NoRun(Health(attempts[..at], p), p.maxFailures)
    && |t.slept| == (if at < |attempts| && end == Cancelled && !Stops(attempts[at]) then at + 1 else at)
    && SleptBackoff(p, attempts, t.slept)
    && EndsRight(p, attempts, end, at)
  }

  /** The loop is before attempt `at` with nothing left open. */
  ghost predicate Ready(p: Policy, attempts: seq<Attempt>, at: nat, failures: nat, backoff: int, t: Trace) {
    && Looping(p, attempts, at, failures, backoff, t.slept)
    && t.cleanups == t.dials && forall i :: 0 <= i < at ==> !Stops(attempts[i])
  }

  lemma EndsStopped(p: Policy, attempts: seq<Attempt>, at: nat, failures: nat, backoff: int, t: Trace, end: End)
    requires Ready(p, attempts, at, failures, backoff, t) && at < |attempts| && StopsWith(attempts[at], end)
    ensures Ended(p, attempts, end, at, t)
  {
  }

  lemma EndsGivenUp(p: Policy, attempts: seq<Attempt>, at: nat, failures: nat, backoff: int, t: Trace)
    requires Ready(p, attempts, at, failures, backoff, t) && at < |attempts| && !Stops(attempts[at])
    requires !Healthy(attempts[at], p) && failures + 1 >= p.maxFailures
    ensures Ended(p, attempts, GaveUp(failures + 1), at, t)
  {
    LastStraw(p, attempts, at, failures, backoff, t.slept);
  }

  lemma EndsInSleep(p: Policy, attempts: seq<Attempt>, at: nat, failures: nat, backoff: int, t: Trace)
    requires Ready(p, attempts, at, failures, backoff, t) && at < |attempts| && !Stops(attempts[at])
    requires !Healthy(attempts[at], p) && failures + 1 < p.maxFailures && attempts[at].cancelledInSleep
    ensures Ended(p, attempts, Cancelled, at, t.(slept := t.slept + [backoff]))
  {
    AfterFailure(p, attempts, at, failures, backoff, t.slept);
  }

  lemma EndsRunning(p: Policy, attempts: seq<Attempt>, at: nat, failures: nat, backoff: int, t: Trace)
    requires Ready(p, attempts, at, failures, backoff, t) && at == |attempts|
    ensures Ended(p, attempts, StillRunning, at, t)
  {
  }

  lemma ReadyAfterHealthy(p: Policy, attempts: seq<Attempt>, at: nat, failures: nat, backoff: int, t: Trace)
    requires Ready(p, attempts, at, failures, backoff, t) && at < |attempts| && !Stops(attempts[at])
    requires Healthy(attempts[at], p)
    ensures Ready(p, attempts, at + 1, 0, p.base, t.(slept := t.slept + [0]))
  {
    AfterHealthy(p, attempts, at, failures, backoff, t.slept);
  }

  lemma ReadyAfterFailure(p: Policy, attempts: seq<Attempt>, at: nat, failures: nat, backoff: int, t: Trace)
    requires Ready(p, attempts, at, failures, backoff, t) && at < |attempts| && !Stops(attempts[at])
    requires !Healthy(attempts[at], p) && failures + 1 < p.maxFailures
    ensures Ready(p, attempts, at + 1, failures + 1, Bumped(backoff, p.cap), t.(slept := t.slept + [backoff]))
  {
    AfterFailure(p, attempts, at, failures, backoff, t.slept);
  }

  method LoopWith(p: Policy, attempts: seq<Attempt>) returns (end: End, at: nat, t: Trace)
    requires p.base > 0 && p.maxFailures > 0
    ensures Ended(p, attempts, end, at, t)
  {
    var backoff, failures := p.base, 0;
    t := Trace(0, 0, []);
    at := 0;
    StartLooping(p, attempts);
    while at < |attempts|
      invariant Ready(p, attempts, at, failures, backoff, t)
    {
      var stop, healthy;
      stop, healthy, t := DialAndRun(attempts[at], p, t);
      assert Ready(p, attempts, at, failures, backoff, t);
      if stop.Some? {
        EndsStopped(p, attempts, at, failures, backoff, t, stop.value);
        return stop.value, at, t;
      }
      if healthy {
        ReadyAfterHealthy(p, attempts, at, failures, backoff, t);
        failures, backoff := 0, p.base;
        t := t.(slept := t.slept + [0]);
        at := at + 1;
        continue;
      }
      if failures + 1 >= p.maxFailures {
        EndsGivenUp(p, attempts, at, failures, backoff, t);
        return GaveUp(failures + 1), at, t;
      }
      if attempts[at].cancelledInSleep {
        EndsInSleep(p, attempts, at, failures, backoff, t);
        return Cancelled, at, t.(slept := t.slept + [backoff]);
      }
      ReadyAfterFailure(p, attempts, at, failures, backoff, t);
      t := t.(slept := t.slept + [backoff]);
      failures := failures + 1;
      backoff := BumpBackoff(backoff, p.cap);
      at := at + 1;
    }
    EndsRunning(p, attempts, at, failures, backoff, t);
    end := StillRunning;
  }

  /** The k-th consecutive failure waits min(cap, base * 2^(k-1)), or base when that is
      past the cap already. */
  lemma DelayIsCappedDoubling(p: Policy, k: nat)
    requires k >= 1 && 0 < p.base
    ensures p.base <= p.cap ==> Delay(p, k) <= p.cap && Delay(p, k) <= p.base * Pow(2, k - 1)
    ensures p.base <= p.cap ==> Delay(p, k) == p.cap || Delay(p, k) == p.base * Pow(2, k - 1)
    ensures p.base > p.cap ==> Delay(p, k) == p.base
    ensures Delay(p, k) <= Delay(p, k + 1)
  {
    DelayDoubles(p, k);
  }

  // ---- The JavaScript loop ----

  /** One connectOnce: rejected, or resolved after being live for `uptime` if onConnected
      fired. stop() may have been called by then, or in the sleep that follows. */
  datatype Connect = Connect(rejected: bool, connected: bool, uptime: int, stopped: bool, stoppedInSleep: bool)

  predicate HealthyDrop(c: Connect, minHealthyMs: int) { !c.rejected && c.connected && c.uptime >= minHealthyMs }

  ghost function DropHealth(cs: seq<Connect>, minHealthyMs: int): (h: seq<bool>)
    ensures |h| == |cs| && forall i :: 0 <= i < |h| ==> h[i] == HealthyDrop(cs[i], minHealthyMs)
  {
    seq(|cs|, i requires 0 <= i < |cs| => HealthyDrop(cs[i], minHealthyMs))
  }

  lemma DropHealthSnoc(cs: seq<Connect>, minHealthyMs: int, at: nat)
    requires at < |cs|
    ensures DropHealth(cs[..at + 1], minHealthyMs) ==
        DropHealth(cs[..at], minHealthyMs) + [HealthyDrop(cs[at], minHealthyMs)]
    ensures Streak(DropHealth(cs[..at + 1], minHealthyMs))
         == if HealthyDrop(cs[at], minHealthyMs) then 0 else Streak(DropHealth(cs[..at], minHealthyMs)) + 1
  {
    var h := DropHealth(cs[..at], minHealthyMs);
    assert DropHealth(cs[..at + 1], minHealthyMs) == h + [HealthyDrop(cs[at], minHealthyMs)];
    StreakAppend(h, HealthyDrop(cs[at], minHealthyMs));
  }

  /** Each of the `limit` attempts up to i was rejected, never went live, or dropped early. */
  ghost predicate DroppedRun(cs: seq<Connect>, minHealthyMs: int, limit: int, i: int) {
    && 0 <= limit <= i + 1 <= |cs|
    && forall k :: i + 1 - limit <= k <= i ==> cs[k].rejected || !cs[k].connected || cs[k].uptime < minHealthyMs
  }

  lemma DroppedRunIs(cs: seq<Connect>, minHealthyMs: int, limit: nat, i: nat)
    requires i < |cs|
    ensures RunOfFailures(DropHealth(cs, minHealthyMs), limit, i) <==> DroppedRun(cs, minHealthyMs, limit, i)
  {
    var h := DropHealth(cs, minHealthyMs);
    if RunOfFailures(h, limit, i) {
      forall k | i + 1 - limit <= k <= i ensures cs[k].rejected || !cs[k].connected || cs[k].uptime < minHealthyMs {
        assert !h[k];
      }
    }
    if DroppedRun(cs, minHealthyMs, limit, i) {
      forall k | i + 1 - limit <= k <= i ensures !h[k] {
      }
    }
  }

  /** No `limit` attempts in a row among the first `at` dropped. */
  ghost predicate NeverDropped(cs: seq<Connect>, minHealthyMs: int, limit: int, at: int) {
    forall i :: 0 <= i < at ==> !DroppedRun(cs, minHealthyMs, limit, i)
  }

  lemma DroppedInPrefix(cs: seq<Connect>, at: nat, minHealthyMs: int, limit: int, i: int)
    requires 0 <= i < at <= |cs|
    ensures DroppedRun(cs[..at], minHealthyMs, limit, i) <==> DroppedRun(cs, minHealthyMs, limit, i)
  {
    forall k | 0 <= k < at ensures cs[..at][k] == cs[k] {
    }
  }

  lemma NoDropIs(cs: seq<Connect>, minHealthyMs: int, limit: nat, at: nat)
    requires at <= |cs| && limit > 0 && NoRun(DropHealth(cs[..at], minHealthyMs), limit)
    ensures NeverDropped(cs, minHealthyMs, limit, at)
  {
    forall i | 0 <= i < at ensures !DroppedRun(cs, minHealthyMs, limit, i) {
      DroppedInPrefix(cs, at, minHealthyMs, limit, i);
      DroppedRunIs(cs[..at], minHealthyMs, limit, i);
    }
  }

  lemma FirstDropIs(cs: seq<Connect>, minHealthyMs: int, limit: nat, at: nat)
    requires at < |cs| && limit > 0 && CompletesFirstRun(DropHealth(cs[..at + 1], minHealthyMs), limit, at)
    ensures DroppedRun(cs, minHealthyMs, limit, at)
  {
    DroppedRunIs(cs[..at + 1], minHealthyMs, limit, at);
  }

  /** What the loop knows before connection attempt `at`. */
  ghost predicate Dropping(cs: seq<Connect>, minHealthyMs: int, limit: nat, at: nat, failures: nat,
                           backoffs: seq<nat>) {
    && |backoffs| == at <= |cs|
    && failures == Streak(DropHealth(cs[..at], minHealthyMs)) < limit
    && NoRun(DropHealth(cs[..at], minHealthyMs), limit)
    && forall i :: 0 <= i < at ==> backoffs[i] == Streak(DropHealth(cs[..i + 1], minHealthyMs))
  }

  lemma AfterDrop(cs: seq<Connect>, minHealthyMs: int, limit: nat, at: nat, was: nat, failures: nat, backoffs: seq<nat>)
    requires Dropping(cs, minHealthyMs, limit, at, was, backoffs) && at < |cs|
    requires failures == if HealthyDrop(cs[at], minHealthyMs) then 0 else was + 1
    ensures failures < limit ==> Dropping(cs, minHealthyMs, limit, at + 1, failures, backoffs + [failures])
    ensures failures >= limit ==>
        failures == limit && CompletesFirstRun(DropHealth(cs[..at + 1], minHealthyMs), limit, at)
  {
    DropHealthSnoc(cs, minHealthyMs, at);
    if failures < limit {
      NoRunExtends(DropHealth(cs[..at], minHealthyMs), limit, HealthyDrop(cs[at], minHealthyMs));
    } else {
      RunCompletes(DropHealth(cs[..at], minHealthyMs), limit, HealthyDrop(cs[at], minHealthyMs));
    }
  }

  datatype JsEnd = Parked(failures: nat) | Stopped | Connecting

  /** runSession up to the first park, stop, or the end of the script; `backoffs`
      are the arguments backoffFor was called with. */
  method RunSession(cs: seq<Connect>, maxAttempts: int, minHealthyMs: int)
      returns (end: JsEnd, at: nat, backoffs: seq<nat>)
    ensures at <= |cs| && |backoffs| == (if end.Stopped? && at < |cs| && !cs[at].stopped then at + 1 else at)
    ensures forall i :: 0 <= i < |backoffs| ==> i < |cs| && backoffs[i] == Streak(DropHealth(cs[..i + 1], minHealthyMs))
    ensures forall i :: 0 <= i < at ==> !cs[i].stopped && !cs[i].stoppedInSleep
    ensures end.Connecting? <==> at == |cs|
    ensures end.Stopped? ==> cs[at].stopped || cs[at].stoppedInSleep
    ensures at < |cs| && cs[at].stopped ==> end.Stopped?
    ensures maxAttempts > 0 ==> NoRun(DropHealth(cs[..at], minHealthyMs), maxAttempts)
    ensures maxAttempts > 0 && end.Parked? ==>
              end.failures == maxAttempts && CompletesFirstRun(DropHealth(cs[..at + 1], minHealthyMs), maxAttempts, at)
    ensures maxAttempts <= 0 ==> at == 0 && (|cs| > 0 && !cs[0].stopped ==> end.Parked?)
    ensures maxAttempts > 0 ==> NeverDropped(cs, minHealthyMs, maxAttempts, at)
    ensures maxAttempts > 0 && end.Parked? ==> DroppedRun(cs, minHealthyMs, maxAttempts, at)
  {
    end, at, backoffs := SessionLoop(cs, maxAttempts, minHealthyMs);
    if maxAttempts > 0 {
      NoDropIs(cs, minHealthyMs, maxAttempts, at);
      if end.Parked? { FirstDropIs(cs, minHealthyMs, maxAttempts, at); }
    }
  }

  method SessionLoop(cs: seq<Connect>, maxAttempts: int, minHealthyMs: int)
      returns (end: JsEnd, at: nat, backoffs: seq<nat>)
    ensures at <= |cs| && |backoffs| == (if end.Stopped? && at < |cs| && !cs[at].stopped then at + 1 else at)
    ensures forall i :: 0 <= i < |backoffs| ==> i < |cs| && backoffs[i] == Streak(DropHealth(cs[..i + 1], minHealthyMs))
    ensures forall i :: 0 <= i < at ==> !cs[i].stopped && !cs[i].stoppedInSleep
    ensures end.Connecting? <==> at == |cs|
    ensures end.Stopped? ==> cs[at].stopped || cs[at].stoppedInSleep
    ensures at < |cs| && cs[at].stopped ==> end.Stopped?
    ensures maxAttempts > 0 ==> NoRun(DropHealth(cs[..at], minHealthyMs), maxAttempts)
    ensures maxAttempts > 0 && end.Parked? ==>
              end.failures == maxAttempts && CompletesFirstRun(DropHealth(cs[..at + 1], minHealthyMs), maxAttempts, at)
    ensures maxAttempts <= 0 ==> at == 0 && (|cs| > 0 && !cs[0].stopped ==> end.Parked?)
  {
    var failures := 0;
    at, backoffs := 0, [];
    while at < |cs|
      invariant at <= |cs| && forall i :: 0 <= i < at ==> !cs[i].stopped && !cs[i].stoppedInSleep
      invariant maxAttempts > 0 ==> Dropping(cs, minHealthyMs, maxAttempts, at, failures, backoffs)
      invariant maxAttempts <= 0 ==> at == 0 && backoffs == []
    {
      var c := cs[at];
      ghost var was := failures;
      if c.rejected {
        failures := failures + 1;
      } else if c.connected && c.uptime >= minHealthyMs {
        failures := 0;
      } else {
        failures := failures + 1;
      }
      if c.stopped {
        return Stopped, at, backoffs;
      }
      if maxAttempts > 0 {
        AfterDrop(cs, minHealthyMs, maxAttempts, at, was, failures, backoffs);
      }
      if failures >= maxAttempts {
        return Parked(failures), at, backoffs;
      }
      backoffs := backoffs + [failures];
      if c.stoppedInSleep {
        return Stopped, at, backoffs;
      }
      at := at + 1;
    }
    end := Connecting;
  }

  /** A park at `at` completes the first run of failures since attempt `from`; without a
      positive limit every attempt parks. */
  ghost predicate ParksAt(cs: seq<Connect>, maxAttempts: int, minHealthyMs: int, from: nat, at: int) {
    && from <= at < |cs|
    && (maxAttempts > 0 ==> CompletesFirstRun(DropHealth(cs[from..at + 1], minHealthyMs), maxAttempts, at - from))
    && (maxAttempts <= 0 ==> at == from)
  }

  /** Every park starts the count afresh: the first run is looked for after the park before. */
  ghost predicate ParksRight(cs: seq<Connect>, maxAttempts: int, minHealthyMs: int, parks: seq<nat>) {
    forall k :: 0 <= k < |parks| ==>
        ParksAt(cs, maxAttempts, minHealthyMs, if k == 0 then 0 else parks[k - 1] + 1, parks[k])
  }

  /** The whole of runSession: after a park retryNow, if it comes, starts clean. `retries` is
      how often it comes before the session is stopped. */
  method RunWithRetries(cs: seq<Connect>, maxAttempts: int, minHealthyMs: int, retries: nat)
      returns (end: JsEnd, parks: seq<nat>)
    ensures ParksRight(cs, maxAttempts, minHealthyMs, parks)
    ensures end.Parked? ==> |parks| == retries + 1
    ensures !end.Parked? ==> |parks| <= retries
  {
    var from := 0;
    parks := [];
    while true
      invariant |parks| <= retries && from <= |cs|
      invariant from == if parks == [] then 0 else parks[|parks| - 1] + 1
      invariant ParksRight(cs, maxAttempts, minHealthyMs, parks)
      decreases retries - |parks|
    {
      var at, backoffs;
      end, at, backoffs := RunSession(cs[from..], maxAttempts, minHealthyMs);
      if !end.Parked? {
        return;
      }
      assert cs[from..][..at + 1] == cs[from..from + at + 1];
      assert ParksAt(cs, maxAttempts, minHealthyMs, from, from + at);
      parks := parks + [from + at];
      if |parks| > retries {
        return;
      }
      from := from + at + 1;
    }
  }

  /** Both loops on attempts of equal health and with equal limits, nobody stopping either:
      both give up, and at the same attempt, or neither does. */
  method RunBothLoops(policy: Policy, attempts: seq<Attempt>, cs: seq<Connect>, maxAttempts: int, minHealthyMs: int)
    returns (end: End, i: nat, jsEnd: JsEnd, j: nat)
    requires |attempts| == |cs| && maxAttempts == Defaults(policy).maxFailures
    requires forall k :: 0 <= k < |attempts| ==> !Stops(attempts[k]) && !attempts[k].cancelledInSleep
    requires forall k :: 0 <= k < |cs| ==> !cs[k].stopped && !cs[k].stoppedInSleep
    requires forall k :: 0 <= k < |cs| ==> Healthy(attempts[k], Defaults(policy)) == HealthyDrop(cs[k], minHealthyMs)
    ensures i == j
    ensures end.GaveUp? <==> jsEnd.Parked?
    ensures end.GaveUp? ==> end.failures == jsEnd.failures == maxAttempts
    ensures !end.GaveUp? ==> end.StillRunning? && jsEnd.Connecting? && i == |attempts|
  {
    var p := Defaults(policy);
    var t, backoffs;
    end, i, t := ReconnectLoop(policy, attempts);
    jsEnd, j, backoffs := RunSession(cs, maxAttempts, minHealthyMs);
    ghost var h := Health(attempts, p);
    assert h == DropHealth(cs, minHealthyMs);
    if end.GaveUp? {
      SameStart(h, Health(attempts[..i + 1], p), maxAttempts, i);
      FirstRunSplits(h, maxAttempts, i, j);
    }
    if jsEnd.Parked? {
      SameStart(h, DropHealth(cs[..j + 1], minHealthyMs), maxAttempts, j);
      FirstRunSplits(h, maxAttempts, j, i);
    }
    assert h[..j] == DropHealth(cs[..j], minHealthyMs) && h[..i] == Health(attempts[..i], p);
  }

  lemma SameStart(health: seq<bool>, start: seq<bool>, limit: nat, i: nat)
    requires start <= health && |start| == i + 1 && CompletesFirstRun(start, limit, i)
    ensures CompletesFirstRun(health, limit, i)
  {
    forall k: nat | k <= i ensures RunOfFailures(start, limit, k) <==> RunOfFailures(health, limit, k) {
      RunInPrefix(start, health, limit, k);
    }
  }

  /** The first run of failures is one point, and there is none before it and one after it. */
  lemma FirstRunSplits(health: seq<bool>, limit: nat, i: nat, j: nat)
    requires CompletesFirstRun(health, limit, i)
    ensures CompletesFirstRun(health, limit, j) ==> j == i
    ensures j <= |health| ==> (NoRun(health[..j], limit) <==> j <= i)
  {
    if j <= |health| {
      if j <= i {
        forall k: nat | k < j
          ensures !RunOfFailures(health[..j], limit, k)
        {
          RunInPrefix(health[..j], health, limit, k);
        }
      } else {
        RunInPrefix(health[..j], health, limit, i);
      }
    }
  }
}
