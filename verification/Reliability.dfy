/** Retry, circuit breaker and rate limiter, composed (app/infrastructure/tooling/policy.py). */
module Reliability {
  import opened Wrappers

  datatype DomainError = DomainError(message: string, retryable: bool)

  // Unexpected stands for every exception that is not a DomainError, timeouts included.
  datatype Outcome = Returned | Failed(error: DomainError) | Unexpected

  const CIRCUIT_OPEN := DomainError("circuit_open", true)
  const UNEXPECTED := DomainError("unexpected provider failure", true)

  type Duration = x: real | x >= 0.0
  type Fraction = x: real | 0.0 <= x < 1.0

  datatype Reply = Reply(outcome: Outcome, takes: Duration)

  /** The outside: the vendor's replies, what passes between clock readings, and the random
      numbers. */
  datatype Oracle = Oracle(reply: nat -> Reply, gap: nat -> Duration, late: nat -> Duration, roll: nat -> Fraction)

  datatype Retry = Retry(retries: int, backoffBase: real, maxBackoff: real, jitter: bool)

  datatype Settings = Settings(
    retry: Option<Retry>, threshold: Option<int>, perSecond: Option<real>, timeout: Option<real>)

  datatype Event = Called(outcome: Outcome) | WasReset

  /** The fields of the three components, and what has been observed from outside: vendor calls
      and resets, limiter slots granted, and retry sleeps asked for. */
  datatype State = State(
    attempts: int, failures: int, open: bool, last: real, now: real,
    log: seq<Event>, slots: seq<real>, sleeps: seq<real>)

  function Opening(now: real): State {
    State(0, 0, false, 0.0, now, [], [], [])
  }

  // ----- One run, as a function of the state ----------------------------------------------

  function Guarded(timeout: Option<real>, reply: Reply): Outcome {
    if timeout.Some? && timeout.value != 0.0 && reply.takes > timeout.value then Unexpected else reply.outcome
  }

  /** When the k-th slot is granted: the limiter waits out its interval, never less. */
  function SlotTime(perSecond: real, oracle: Oracle, k: nat, last: real, now: real): real
    requires perSecond > 0.0
  {
    var reached := now + oracle.gap(k);
    var wait := last + 1.0 / perSecond - reached;
    (if wait > 0.0 then reached + wait else reached) + oracle.late(k)
  }

  function Acquired(perSecond: Option<real>, oracle: Oracle, s: State): State {
    if perSecond.None? || perSecond.value <= 0.0 then s
    else
      var slot := SlotTime(perSecond.value, oracle, |s.slots|, s.last, s.now);
      s.(now := slot, last := slot, slots := s.slots + [slot])
  }

  function LimitedCall(cfg: Settings, oracle: Oracle, s: State): (State, Outcome) {
    var acquired := Acquired(cfg.perSecond, oracle, s);
    var outcome := Guarded(cfg.timeout, oracle.reply(|s.log|));
    (acquired.(log := acquired.log + [Called(outcome)]), outcome)
  }

  function Observed(threshold: int, s: State, outcome: Outcome): State {
    match outcome
    case Returned => s.(failures := 0)
    case Failed(_) => s.(failures := s.failures + 1, open := s.open || s.failures + 1 >= threshold)
    case Unexpected => s
  }

  function CoreCall(cfg: Settings, oracle: Oracle, s: State): (r: (State, Outcome))
    ensures r.0.attempts == s.attempts
  {
    match cfg.threshold
    case None => LimitedCall(cfg, oracle, s)
    case Some(threshold) =>
      if s.open then (s, Failed(CIRCUIT_OPEN))
      else
        var (after, outcome) := LimitedCall(cfg, oracle, s);
        (Observed(threshold, after, outcome), outcome)
  }

  function Pow2(n: nat): (r: nat)
    ensures r >= 1
  {
    if n == 0 then 1 else 2 * Pow2(n - 1)
  }

  function Capped(retry: Retry, attempt: nat): real
    requires attempt >= 1
  {
    var doubled := retry.backoffBase * Pow2(attempt - 1) as real;
    if retry.maxBackoff < doubled then retry.maxBackoff else doubled
  }

  function Jittered(backoff: real, roll: Fraction): real {
    backoff * (0.5 + roll)
  }

  function Backoff(retry: Retry, attempt: nat, roll: Fraction): real
    requires attempt >= 1
  {
    if retry.jitter then Jittered(Capped(retry, attempt), roll) else Capped(retry, attempt)
  }

  function Slept(retry: Retry, oracle: Oracle, s: State): State
    requires s.attempts >= 1
  {
    s.(sleeps := s.sleeps + [Backoff(retry, s.attempts, oracle.roll(|s.sleeps|))])
  }

  /** The retry loop, entered with some attempts already made. */
  function Attempts(cfg: Settings, oracle: Oracle, s: State): (State, Outcome)
    requires cfg.retry.Some? && s.attempts >= 0
    decreases cfg.retry.value.retries - s.attempts
  {
    var (after, outcome) := CoreCall(cfg, oracle, s.(attempts := s.attempts + 1));
    match outcome
    case Returned => (after, outcome)
    case Unexpected => (after, Failed(UNEXPECTED))
    case Failed(error) =>
      if !error.retryable || after.attempts >= cfg.retry.value.retries then (after, outcome)
      else Attempts(cfg, oracle, Slept(cfg.retry.value, oracle, after))
  }

  function FullRun(cfg: Settings, oracle: Oracle, s: State): (State, Outcome) {
    if cfg.retry.None? then CoreCall(cfg, oracle, s) else Attempts(cfg, oracle, s.(attempts := 0))
  }

  function AfterReset(s: State): State {
    s.(open := false, failures := 0, log := s.log + [WasReset])
  }

  datatype Op = RunOnce | Reset

  function After(cfg: Settings, oracle: Oracle, s: State, op: Op): State {
    if op == RunOnce then FullRun(cfg, oracle, s).0 else AfterReset(s)
  }

  function Runs(cfg: Settings, oracle: Oracle, s: State, ops: seq<Op>): State {
    if ops == [] then s else After(cfg, oracle, Runs(cfg, oracle, s, ops[..|ops| - 1]), ops[|ops| - 1])
  }

  // ----- The components ---------------------------------------------------------------

  class World {
    const oracle: Oracle
    var now: real
    var log: seq<Event>
    var slots: seq<real>
    var sleeps: seq<real>

    constructor (oracle: Oracle, now: real)
      ensures this.oracle == oracle && this.now == now && log == [] && slots == [] && sleeps == []
    {
      this.oracle, this.now, log, slots, sleeps := oracle, now, [], [], [];
    }

    method Sleep(seconds: real)
      modifies this`sleeps
      ensures sleeps == old(sleeps) + [seconds]
    {
      sleeps := sleeps + [seconds];
    }

    method CallVendor(timeout: Option<real>) returns (outcome: Outcome)
      modifies this`log
      ensures outcome == Guarded(timeout, oracle.reply(|old(log)|)) && log == old(log) + [Called(outcome)]
    {
      outcome := Guarded(timeout, oracle.reply(|log|));
      log := log + [Called(outcome)];
    }
  }

  class RateLimiter {
    const perSecond: real
    var last: real

    constructor (perSecond: real)
      ensures this.perSecond == perSecond && last == 0.0
    {
      this.perSecond, last := perSecond, 0.0;
    }

    method Acquire(world: World)
      modifies this`last, world`now, world`slots
      ensures perSecond <= 0.0 ==> last == old(last) && world.now == old(world.now) && world.slots == old(world.slots)
      ensures perSecond > 0.0 ==>
                && last == world.now == SlotTime(perSecond, world.oracle, |old(world.slots)|, old(last), old(world.now))
                && world.slots == old(world.slots) + [last]
    {
      if perSecond <= 0.0 {
        return;
      }
      var k := |world.slots|;
      var now := world.now + world.oracle.gap(k);
      var wait := last + 1.0 / perSecond - now;
      if wait > 0.0 {
        now := now + wait;
      }
      world.now := now + world.oracle.late(k);
      last := world.now;
      world.slots := world.slots + [last];
    }
  }

  class CircuitBreaker {
    const failureThreshold: int
    var failures: int
    var open: bool

    constructor (failureThreshold: int)
      ensures this.failureThreshold == failureThreshold && failures == 0 && !open
    {
      this.failureThreshold, failures, open := failureThreshold, 0, false;
    }

    /** Guards the limited call of a policy. */
    method Run(policy: Policy, world: World) returns (outcome: Outcome)
      requires policy.breaker == this
      modifies this, policy.limiter, world
      ensures (policy.StateOf(world), outcome) == CoreCall(policy.Config(), world.oracle, old(policy.StateOf(world)))
    {
      if open {
        return Failed(CIRCUIT_OPEN);
      }
      outcome := policy.Limited(world);
      if outcome.Returned? {
        failures := 0;
      } else if outcome.Failed? {
        failures := failures + 1;
        if failures >= failureThreshold {
          open := true;
        }
      }
    }

    method Reset(world: World)
      modifies this, world`log
      ensures !open && failures == 0 && world.log == old(world.log) + [WasReset]
    {
      open, failures := false, 0;
      world.log := world.log + [WasReset];
    }
  }

  class RetryPolicy {
    const settings: Retry
    var attempts: int

    constructor (settings: Retry)
      ensures this.settings == settings && attempts == 0
    {
      this.settings, attempts := settings, 0;
    }

    /** Retries the core call of a policy. */
    method Run(policy: Policy, world: World) returns (outcome: Outcome)
      requires policy.retry == this
      modifies this, policy.breaker, policy.limiter, world
      ensures (policy.StateOf(world), outcome) == FullRun(policy.Config(), world.oracle, old(policy.StateOf(world)))
    {
      hide CoreCall, Backoff;
      attempts := 0;
      ghost var cfg, start := policy.Config(), policy.StateOf(world);
      while true
        invariant attempts >= 0 && policy.StateOf(world).attempts == attempts
        invariant Attempts(cfg, world.oracle, policy.StateOf(world)) == Attempts(cfg, world.oracle, start)
        decreases settings.retries - attempts
      {
        attempts := attempts + 1;
        outcome := policy.Core(world);
        match outcome {
          case Returned => return;
          case Unexpected => return Failed(UNEXPECTED);
          case Failed(error) =>
            if !error.retryable || attempts >= settings.retries {
              return;
            }
            Sleep(world, attempts);
        }
      }
    }

    method Sleep(world: World, attempt: nat)
      requires attempt >= 1
      modifies world`sleeps
      ensures world.sleeps == old(world.sleeps) + [Backoff(settings, attempt, world.oracle.roll(|old(world.sleeps)|))]
    {
      var backoff := Capped(settings, attempt);
      if settings.jitter {
        backoff := Jittered(backoff, world.oracle.roll(|world.sleeps|));
      }
      world.Sleep(backoff);
    }
  }

  class Policy {
    const retry: RetryPolicy?
    const breaker: CircuitBreaker?
    const limiter: RateLimiter?
    const timeout: Option<real>

    constructor (retry: RetryPolicy?, breaker: CircuitBreaker?, limiter: RateLimiter?, timeout: Option<real>)
      ensures this.retry == retry && this.breaker == breaker && this.limiter == limiter && this.timeout == timeout
    {
      this.retry, this.breaker, this.limiter, this.timeout := retry, breaker, limiter, timeout;
    }

    ghost function Config(): Settings {
      Settings(if retry == null then None else Some(retry.settings),
               if breaker == null then None else Some(breaker.failureThreshold),
               if limiter == null then None else Some(limiter.perSecond),
               timeout)
    }

    ghost function StateOf(world: World): State
      reads retry, breaker, limiter, world
    {
      State(if retry == null then 0 else retry.attempts,
            if breaker == null then 0 else breaker.failures,
            breaker != null && breaker.open,
            if limiter == null then 0.0 else limiter.last,
            world.now, world.log, world.slots, world.sleeps)
    }

    method Limited(world: World) returns (outcome: Outcome)
      modifies limiter, world
      ensures (StateOf(world), outcome) == LimitedCall(Config(), world.oracle, old(StateOf(world)))
    {
      if limiter != null {
        limiter.Acquire(world);
      }
      outcome := world.CallVendor(timeout);
    }

    method Core(world: World) returns (outcome: Outcome)
      modifies breaker, limiter, world
      ensures (StateOf(world), outcome) == CoreCall(Config(), world.oracle, old(StateOf(world)))
    {
      if breaker == null {
        outcome := Limited(world);
      } else {
        outcome := breaker.Run(this, world);
      }
    }

    method Run(world: World) returns (outcome: Outcome)
      modifies retry, breaker, limiter, world
      ensures (StateOf(world), outcome) == FullRun(Config(), world.oracle, old(StateOf(world)))
    {
      if retry == null {
        outcome := Core(world);
      } else {
        outcome := retry.Run(this, world);
      }
    }
  }
}
