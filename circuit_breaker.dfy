/** The circuit breaker (src/utils/circuitBreaker.ts): a three-state machine
    with a failure counter, a success counter and the time at which an open
    breaker next lets a request through. The clock is a parameter: each
    operation that reads `Date.now()` takes the current time `now` in
    milliseconds.

    Each operation is specified by a function on a snapshot of the breaker's
    mutable fields; the lemmas about runs of operations are stated over those
    functions, and each method of the class is proved to update its fields as
    its function says. */
module CircuitBreakers {
  import opened Wrappers

  datatype BreakerState = Closed | Open | HalfOpen

  /** `CircuitBreakerOptions`: every option may be left out. */
  datatype Options = Options(failureThreshold: Option<int>, successThreshold: Option<int>, cooldownPeriodMs: Option<int>)

  /** The configuration a breaker is built with. */
  datatype Config = Config(failureThreshold: int, successThreshold: int, cooldownPeriodMs: int)

  /** The breaker's mutable fields at one moment. */
  datatype Snapshot = Snapshot(state: BreakerState, failureCount: int, successCount: int, nextTry: int)

  const DefaultFailureThreshold := 5
  const DefaultSuccessThreshold := 2
  const DefaultCooldownPeriodMs := 30000

  /** `opts?.x ?? default` for each option. */
  function ConfigOf(opts: Option<Options>): (c: Config)
    ensures opts.None? ==> c == Config(DefaultFailureThreshold, DefaultSuccessThreshold, DefaultCooldownPeriodMs)
    ensures opts.Some? && opts.value.failureThreshold.Some? ==> c.failureThreshold == opts.value.failureThreshold.value
    ensures opts.Some? && opts.value.failureThreshold.None? ==> c.failureThreshold == DefaultFailureThreshold
    ensures opts.Some? && opts.value.successThreshold.Some? ==> c.successThreshold == opts.value.successThreshold.value
    ensures opts.Some? && opts.value.successThreshold.None? ==> c.successThreshold == DefaultSuccessThreshold
    ensures opts.Some? && opts.value.cooldownPeriodMs.Some? ==> c.cooldownPeriodMs == opts.value.cooldownPeriodMs.value
    ensures opts.Some? && opts.value.cooldownPeriodMs.None? ==> c.cooldownPeriodMs == DefaultCooldownPeriodMs
  {
    match opts
    case None => Config(DefaultFailureThreshold, DefaultSuccessThreshold, DefaultCooldownPeriodMs)
    case Some(o) =>
      Config(
        match o.failureThreshold case Some(n) => n case None => DefaultFailureThreshold,
        match o.successThreshold case Some(n) => n case None => DefaultSuccessThreshold,
        match o.cooldownPeriodMs case Some(n) => n case None => DefaultCooldownPeriodMs)
  }

  /** A new breaker: closed, no counts, `nextTry` at 0. */
  const Initial := Snapshot(Closed, 0, 0, 0)

  /** The invariant every public operation keeps once both thresholds are at
      least 1: each counter stays below its threshold, and only a half-open
      breaker counts successes. */
  predicate Inv(c: Config, s: Snapshot)
  {
    0 <= s.failureCount < c.failureThreshold
    && 0 <= s.successCount < c.successThreshold
    && (s.state != HalfOpen ==> s.successCount == 0)
  }

  /** The answer of `allowRequest`: refused only while open and before
      `nextTry`. */
  function Allowed(s: Snapshot, now: int): (allowed: bool)
    ensures !allowed <==> s.state == Open && now < s.nextTry
  {
    match s.state
    case Open => now >= s.nextTry
    case _ => true
  }

  /** The fields after `allowRequest`: an open breaker whose cooldown is over
      turns half-open; nothing else changes. */
  function AfterAllow(c: Config, s: Snapshot, now: int): (r: Snapshot)
    ensures s.state == Open && now >= s.nextTry ==> r == s.(state := HalfOpen)
    ensures !(s.state == Open && now >= s.nextTry) ==> r == s
    ensures Inv(c, s) ==> Inv(c, r)
  {
    if s.state == Open && now >= s.nextTry then s.(state := HalfOpen) else s
  }

  /** `resetCounts()` */
  function WithCountsReset(s: Snapshot): (r: Snapshot)
    ensures r.failureCount == 0 && r.successCount == 0
    ensures r.state == s.state && r.nextTry == s.nextTry
  {
    s.(failureCount := 0, successCount := 0)
  }

  /** `open()`: open until `now` plus the cooldown, counts reset. */
  function Opened(c: Config, s: Snapshot, now: int): (r: Snapshot)
    ensures r == Snapshot(Open, 0, 0, now + c.cooldownPeriodMs)
  {
    WithCountsReset(s.(state := Open, nextTry := now + c.cooldownPeriodMs))
  }

  /** `close()`: closed, counts reset, `nextTry` kept. */
  function ClosedFrom(s: Snapshot): (r: Snapshot)
    ensures r == Snapshot(Closed, 0, 0, s.nextTry)
  {
    WithCountsReset(s.(state := Closed))
  }

  /** The fields after `recordSuccess`. */
  function AfterSuccess(c: Config, s: Snapshot): (r: Snapshot)
    ensures s.state != HalfOpen ==> r == WithCountsReset(s)
    ensures s.state == HalfOpen && s.successCount + 1 >= c.successThreshold ==> r == Snapshot(Closed, 0, 0, s.nextTry)
    ensures s.state == HalfOpen && s.successCount + 1 < c.successThreshold ==> r == s.(successCount := s.successCount + 1)
    ensures Inv(c, s) ==> Inv(c, r)
  {
    if s.state == HalfOpen then
      var counted := s.(successCount := s.successCount + 1);
      if counted.successCount >= c.successThreshold then ClosedFrom(counted) else counted
    else
      WithCountsReset(s)
  }

  /** The fields after `recordFailure` at time `now`: the failure is counted
      in every state, and the breaker opens when it was half-open or the count
      reaches the threshold. */
  function AfterFailure(c: Config, s: Snapshot, now: int): (r: Snapshot)
    ensures s.state == HalfOpen || s.failureCount + 1 >= c.failureThreshold ==> r == Snapshot(Open, 0, 0, now + c.cooldownPeriodMs)
    ensures !(s.state == HalfOpen || s.failureCount + 1 >= c.failureThreshold) ==> r == s.(failureCount := s.failureCount + 1)
    ensures Inv(c, s) ==> Inv(c, r)
  {
    var counted := s.(failureCount := s.failureCount + 1);
    if s.state == HalfOpen || counted.failureCount >= c.failureThreshold then Opened(c, counted, now) else counted
  }

  /** A run of `recordFailure` calls at the given times. */
  function Failures(c: Config, s: Snapshot, times: seq<int>): Snapshot
    decreases |times|
  {
    if times == [] then s else Failures(c, AfterFailure(c, s, times[0]), times[1..])
  }

  /** A run of `n` `recordSuccess` calls. */
  function Successes(c: Config, s: Snapshot, n: nat): Snapshot
    decreases n
  {
    if n == 0 then s else Successes(c, AfterSuccess(c, s), n - 1)
  }

  /** From a closed breaker with `k` failures counted, fewer failures than it
      takes to reach the threshold only count. */
  lemma {:induction false} FailuresBelowThreshold(c: Config, k: int, nextTry: int, times: seq<int>)
    requires 0 <= k && k + |times| < c.failureThreshold
    ensures Failures(c, Snapshot(Closed, k, 0, nextTry), times) == Snapshot(Closed, k + |times|, 0, nextTry)
    decreases |times|
  {
    if times != [] {
      FailuresBelowThreshold(c, k + 1, nextTry, times[1..]);
    }
  }

  /** From a closed breaker with `k` failures counted, exactly the failures
      that reach the threshold open it, until the last one's time plus the
      cooldown, with both counters reset. */
  lemma {:induction false} FailuresReachingThreshold(c: Config, k: int, nextTry: int, times: seq<int>)
    requires 0 <= k && |times| >= 1 && k + |times| == c.failureThreshold
    ensures Failures(c, Snapshot(Closed, k, 0, nextTry), times) == Snapshot(Open, 0, 0, times[|times| - 1] + c.cooldownPeriodMs)
    decreases |times|
  {
    if |times| > 1 {
      FailuresReachingThreshold(c, k + 1, nextTry, times[1..]);
    }
  }

  /** From a half-open breaker with `k` successes counted, fewer successes
      than it takes to reach the threshold only count. */
  lemma {:induction false} SuccessesBelowThreshold(c: Config, s: Snapshot, n: nat)
    requires s.state == HalfOpen && 0 <= s.successCount && s.successCount + n < c.successThreshold
    ensures Successes(c, s, n) == s.(successCount := s.successCount + n)
    decreases n
  {
    if n > 0 {
      SuccessesBelowThreshold(c, s.(successCount := s.successCount + 1), n - 1);
    }
  }

  /** From a half-open breaker, the successes that reach the threshold close
      it with both counters reset. */
  lemma {:induction false} SuccessesReachingThreshold(c: Config, s: Snapshot, n: nat)
    requires s.state == HalfOpen && 0 <= s.successCount && n >= 1 && s.successCount + n == c.successThreshold
    ensures Successes(c, s, n) == Snapshot(Closed, 0, 0, s.nextTry)
    decreases n
  {
    if n > 1 {
      SuccessesReachingThreshold(c, s.(successCount := s.successCount + 1), n - 1);
    }
  }

  /** A half-open breaker lets every request through: it does not limit the
      number of probes. */
  lemma HalfOpenAdmitsAll(c: Config, s: Snapshot, now: int)
    requires s.state == HalfOpen
    ensures Allowed(s, now) && AfterAllow(c, s, now) == s
  {
  }

  /** The life of a fresh breaker: `failureThreshold` failures, the last at
      time `t`, open it; requests are refused before `t + cooldown` and the
      first one from then on is let through as a half-open probe; a failed
      probe at `t2` opens the breaker again, and it refuses requests until
      `t2 + cooldown`. */
  lemma OpenProbeReopen(c: Config, times: seq<int>, early: int, late: int, t2: int)
    requires c.failureThreshold >= 1 && c.cooldownPeriodMs > 0
    requires |times| == c.failureThreshold
    requires early < times[|times| - 1] + c.cooldownPeriodMs <= late
    ensures var tripped := Failures(c, Initial, times);
      && tripped.state == Open
      && !Allowed(tripped, early) && AfterAllow(c, tripped, early) == tripped
      && Allowed(tripped, late)
      && var probing := AfterAllow(c, tripped, late);
         probing.state == HalfOpen
         && var reopened := AfterFailure(c, probing, t2);
            reopened == Snapshot(Open, 0, 0, t2 + c.cooldownPeriodMs) && !Allowed(reopened, t2)
  {
    FailuresReachingThreshold(c, 0, 0, times);
  }

  /** A half-open breaker that sees `successThreshold` successes in a row is
      closed again with both counters at 0. */
  lemma RecoveryCloses(c: Config, s: Snapshot)
    requires s.state == HalfOpen && s.successCount == 0 && c.successThreshold >= 1
    ensures Successes(c, s, c.successThreshold) == Snapshot(Closed, 0, 0, s.nextTry)
  {
    SuccessesReachingThreshold(c, s, c.successThreshold);
  }

  /** The breaker object; its thresholds and cooldown are fixed at
      construction. */
  class CircuitBreaker {
    const failureThreshold: int
    const successThreshold: int
    const cooldownPeriodMs: int

    var state: BreakerState
    var failureCount: int
    var successCount: int
    var nextTry: int

    function Configuration(): Config
    {
      Config(failureThreshold, successThreshold, cooldownPeriodMs)
    }

    function Current(): Snapshot
      reads this
    {
      Snapshot(state, failureCount, successCount, nextTry)
    }

    ghost predicate Valid()
      reads this
    {
      Inv(Configuration(), Current())
    }

    /** `new CircuitBreaker(opts?)`: the options or their defaults; a breaker
        whose thresholds are at least 1 starts valid. */
    constructor (opts: Option<Options>)
      ensures Configuration() == ConfigOf(opts)
      ensures Current() == Initial
      ensures failureThreshold >= 1 && successThreshold >= 1 ==> Valid()
    {
      var c := ConfigOf(opts);
      failureThreshold := c.failureThreshold;
      successThreshold := c.successThreshold;
      cooldownPeriodMs := c.cooldownPeriodMs;
      state := Closed;
      failureCount := 0;
      successCount := 0;
      nextTry := 0;
    }

    /** `allowRequest()` at time `now`. */
    method AllowRequest(now: int) returns (allowed: bool)
      modifies this
      ensures allowed == Allowed(old(Current()), now)
      ensures Current() == AfterAllow(Configuration(), old(Current()), now)
      ensures old(Valid()) ==> Valid()
    {
      if state == Open {
        if now >= nextTry {
          state := HalfOpen;
          return true;
        }
        return false;
      }
      return true;
    }

    /** `recordSuccess()` */
    method RecordSuccess()
      modifies this
      ensures Current() == AfterSuccess(Configuration(), old(Current()))
      ensures old(Valid()) ==> Valid()
    {
      if state == HalfOpen {
        successCount := successCount + 1;
        if successCount >= successThreshold {
          CloseBreaker();
        }
      } else {
        ResetCounts();
      }
    }

    /** `recordFailure()` at time `now`. */
    method RecordFailure(now: int)
      modifies this
      ensures Current() == AfterFailure(Configuration(), old(Current()), now)
      ensures old(Valid()) ==> Valid()
    {
      failureCount := failureCount + 1;
      if state == HalfOpen || failureCount >= failureThreshold {
        OpenBreaker(now);
      }
    }

    /** `open()` at time `now`. */
    method OpenBreaker(now: int)
      modifies this
      ensures Current() == Opened(Configuration(), old(Current()), now)
    {
      state := Open;
      nextTry := now + cooldownPeriodMs;
      ResetCounts();
    }

    /** `close()` */
    method CloseBreaker()
      modifies this
      ensures Current() == ClosedFrom(old(Current()))
    {
      state := Closed;
      ResetCounts();
    }

    /** `resetCounts()` */
    method ResetCounts()
      modifies this
      ensures Current() == WithCountsReset(old(Current()))
    {
      failureCount := 0;
      successCount := 0;
    }
  }
}
