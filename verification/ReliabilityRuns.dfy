/** What the composed reliability policy guarantees over whole sequential runs. */
module ReliabilityRuns {
  import opened Wrappers
  import opened Reals
  import opened Reliability

  // ----- What the log of vendor calls says --------------------------------------------

  /** Domain errors since the last success or reset; other exceptions do not count. */
  function Trailing(log: seq<Event>): nat {
    if log == [] then 0
    else
      match log[|log| - 1]
      case WasReset => 0
      case Called(Returned) => 0
      case Called(Failed(_)) => Trailing(log[..|log| - 1]) + 1
      case Called(Unexpected) => Trailing(log[..|log| - 1])
  }

  function Count(log: seq<Event>, chosen: Event -> bool): nat {
    if log == [] then 0 else Count(log[..|log| - 1], chosen) + if chosen(log[|log| - 1]) then 1 else 0
  }

  predicate IsCall(e: Event) {
    e.Called?
  }

  predicate IsSuccess(e: Event) {
    e == Called(Returned)
  }

  predicate IsDomainError(e: Event) {
    e.Called? && e.outcome.Failed?
  }

  predicate IsReset(e: Event) {
    e == WasReset
  }

  /** A threshold below 1 acts like 1. */
  function Limit(threshold: int): nat {
    if threshold >= 1 then threshold else 1
  }

  /** The vendor was called only while fewer than the limit of domain errors had piled up. */
  predicate ClosedAtCalls(log: seq<Event>, limit: nat) {
    forall k :: 0 <= k < |log| && log[k].Called? ==> Trailing(log[..k]) < limit
  }

  lemma LogNext(log: seq<Event>, e: Event)
    ensures Trailing(log + [e]) ==
            match e
            case WasReset => 0
            case Called(Returned) => 0
            case Called(Failed(_)) => Trailing(log) + 1
            case Called(Unexpected) => Trailing(log)
    ensures forall chosen :: Count(log + [e], chosen) == Count(log, chosen) + if chosen(e) then 1 else 0
  {
    assert (log + [e])[..|log|] == log;
  }

  lemma ClosedNext(log: seq<Event>, e: Event, limit: nat)
    requires ClosedAtCalls(log, limit) && (e.Called? ==> Trailing(log) < limit)
    ensures ClosedAtCalls(log + [e], limit)
  {
    hide Trailing;
    assert forall k :: 0 <= k <= |log| ==> (log + [e])[..k] == log[..k];
    assert log[..|log|] == log;
  }

  /** Domain errors that successes and resets have paid for. */
  function Budget(limit: nat, successes: nat, resets: nat): int {
    (limit - 1) * successes + limit * resets
  }

  lemma BudgetNext(limit: nat, successes: nat, resets: nat)
    ensures Budget(limit, successes + 1, resets) == Budget(limit, successes, resets) + limit - 1
    ensures Budget(limit, successes, resets + 1) == Budget(limit, successes, resets) + limit
  {}

  lemma ClosedBefore(log: seq<Event>, limit: nat)
    requires log != [] && ClosedAtCalls(log, limit)
    ensures ClosedAtCalls(log[..|log| - 1], limit)
    ensures log[|log| - 1].Called? ==> Trailing(log[..|log| - 1]) < limit
  {
    hide Trailing;
    assert forall k :: 0 <= k < |log| - 1 ==> log[..|log| - 1][..k] == log[..k];
  }

  /** At most limit - 1 errors per success, limit per reset, and those still trailing. */
  lemma {:induction false} ErrorsAmortised(log: seq<Event>, limit: nat)
    requires limit >= 1 && ClosedAtCalls(log, limit)
    ensures Trailing(log) <= limit
    ensures Count(log, IsDomainError) <= Budget(limit, Count(log, IsSuccess), Count(log, IsReset)) + Trailing(log)
  {
    if log == [] {
      assert Budget(limit, 0, 0) == 0;
    } else {
      var front, e := log[..|log| - 1], log[|log| - 1];
      ClosedBefore(log, limit);
      ErrorsAmortised(front, limit);
      BudgetNext(limit, Count(front, IsSuccess), Count(front, IsReset));
      hide Budget;
    }
  }

  // ----- What every step keeps ----------------------------------------------------------

  /** Slots are at least one interval apart, and the limiter remembers the latest. */
  predicate Spaced(perSecond: real, s: State)
    requires perSecond > 0.0
  {
    && (forall j :: 1 <= j < |s.slots| ==> s.slots[j] - s.slots[j - 1] >= 1.0 / perSecond)
    && (s.slots != [] ==> s.last == s.now == s.slots[|s.slots| - 1])
  }

  predicate Limiting(cfg: Settings) {
    cfg.perSecond.Some? && cfg.perSecond.value > 0.0
  }

  /** The breaker's fields read off the log. */
  predicate BreakerKnows(threshold: int, s: State) {
    && s.failures == Trailing(s.log) && (s.open <==> Trailing(s.log) >= Limit(threshold))
    && ClosedAtCalls(s.log, Limit(threshold))
  }

  /** One limiter slot per vendor call. */
  predicate LimiterKnows(cfg: Settings, s: State) {
    && |s.slots| == (if Limiting(cfg) then Count(s.log, IsCall) else 0)
    && (Limiting(cfg) ==> Spaced(cfg.perSecond.value, s))
  }

  predicate Knows(cfg: Settings, s: State) {
    (cfg.threshold.Some? ==> BreakerKnows(cfg.threshold.value, s)) && LimiterKnows(cfg, s)
  }

  /** A slot comes one interval after the last one or at once, whichever is later. */
  lemma SlotLate(perSecond: real, oracle: Oracle, k: nat, last: real, now: real)
    requires perSecond > 0.0
    ensures var slot, due := SlotTime(perSecond, oracle, k, last, now) - oracle.late(k), last + 1.0 / perSecond;
            slot >= due && slot >= now + oracle.gap(k) && (slot == due || slot == now + oracle.gap(k))
  {}

  /** A fresh limiter takes its last slot to be at instant 0, so the first slot comes at once
      unless the clock still stands before one interval. */
  lemma FirstSlot(cfg: Settings, oracle: Oracle, now: real)
    requires Limiting(cfg)
    ensures var slots, interval := LimitedCall(cfg, oracle, Opening(now)).0.slots, 1.0 / cfg.perSecond.value;
            slots == [oracle.late(0) + if now + oracle.gap(0) >= interval then now + oracle.gap(0) else interval]
  {}

  lemma AcquiredSpaced(perSecond: real, oracle: Oracle, s: State)
    requires perSecond > 0.0 && Spaced(perSecond, s)
    ensures Spaced(perSecond, Acquired(Some(perSecond), oracle, s))
  {
    SlotLate(perSecond, oracle, |s.slots|, s.last, s.now);
    hide SlotTime;
  }

  lemma SpacedSame(perSecond: real, s: State, s': State)
    requires perSecond > 0.0 && Spaced(perSecond, s) && s'.slots == s.slots && s'.last == s.last && s'.now == s.now
    ensures Spaced(perSecond, s')
  {}

  lemma LimitedKeeps(cfg: Settings, oracle: Oracle, s: State)
    requires LimiterKnows(cfg, s)
    ensures LimiterKnows(cfg, LimitedCall(cfg, oracle, s).0)
  {
    hide SlotTime, Spaced, Count, Guarded;
    if Limiting(cfg) {
      AcquiredSpaced(cfg.perSecond.value, oracle, s);
      LogNext(s.log, Called(Guarded(cfg.timeout, oracle.reply(|s.log|))));
      SpacedSame(cfg.perSecond.value, Acquired(cfg.perSecond, oracle, s), LimitedCall(cfg, oracle, s).0);
    }
  }

  lemma ObservedKeeps(threshold: int, s: State, after: State, outcome: Outcome)
    requires BreakerKnows(threshold, s) && !s.open
    requires after.failures == s.failures && after.open == s.open && after.log == s.log + [Called(outcome)]
    ensures BreakerKnows(threshold, Observed(threshold, after, outcome))
  {
    LogNext(s.log, Called(outcome));
    ClosedNext(s.log, Called(outcome), Limit(threshold));
    hide Trailing, ClosedAtCalls;
  }

  lemma LimiterSame(cfg: Settings, s: State, s': State)
    requires LimiterKnows(cfg, s) && s'.slots == s.slots && s'.last == s.last && s'.now == s.now && s'.log == s.log
    ensures LimiterKnows(cfg, s')
  {}

  lemma CoreKeeps(cfg: Settings, oracle: Oracle, s: State)
    requires Knows(cfg, s)
    ensures Knows(cfg, CoreCall(cfg, oracle, s).0)
  {
    LimitedKeeps(cfg, oracle, s);
    var (after, outcome) := LimitedCall(cfg, oracle, s);
    assert after.failures == s.failures && after.open == s.open && after.log == s.log + [Called(outcome)];
    hide LimitedCall, Count, BreakerKnows;
    if cfg.threshold.Some? && !s.open {
      ObservedKeeps(cfg.threshold.value, s, after, outcome);
      LimiterSame(cfg, after, Observed(cfg.threshold.value, after, outcome));
    }
  }

  /** The core call ended in a retryable error and attempts are left. */
  predicate Retries(cfg: Settings, mid: State, outcome: Outcome)
    requires cfg.retry.Some?
  {
    outcome.Failed? && outcome.error.retryable && mid.attempts < cfg.retry.value.retries
  }

  lemma AttemptsOnce(cfg: Settings, oracle: Oracle, s: State)
    requires cfg.retry.Some? && s.attempts >= 0
    ensures var (mid, outcome) := CoreCall(cfg, oracle, s.(attempts := s.attempts + 1));
            && mid.attempts == s.attempts + 1
            && Attempts(cfg, oracle, s)
               == (if Retries(cfg, mid, outcome) then Attempts(cfg, oracle, Slept(cfg.retry.value, oracle, mid))
                   else (mid, if outcome.Unexpected? then Failed(UNEXPECTED) else outcome))
  {
    hide CoreCall, Backoff;
  }

  lemma KnowsSame(cfg: Settings, s: State, attempts: int, sleeps: seq<real>)
    requires Knows(cfg, s)
    ensures Knows(cfg, s.(attempts := attempts, sleeps := sleeps))
  {
    hide Trailing, Count, ClosedAtCalls;
  }

  lemma {:induction false} AttemptsKeep(cfg: Settings, oracle: Oracle, s: State)
    requires Knows(cfg, s) && cfg.retry.Some? && s.attempts >= 0
    ensures Knows(cfg, Attempts(cfg, oracle, s).0)
    decreases cfg.retry.value.retries - s.attempts
  {
    hide CoreCall, Attempts, Knows, Backoff;
    AttemptsOnce(cfg, oracle, s);
    KnowsSame(cfg, s, s.attempts + 1, s.sleeps);
    CoreKeeps(cfg, oracle, s.(attempts := s.attempts + 1));
    var (mid, outcome) := CoreCall(cfg, oracle, s.(attempts := s.attempts + 1));
    if Retries(cfg, mid, outcome) {
      var rest := Slept(cfg.retry.value, oracle, mid);
      KnowsSame(cfg, mid, mid.attempts, rest.sleeps);
      AttemptsKeep(cfg, oracle, rest);
    }
  }

  lemma AfterKeeps(cfg: Settings, oracle: Oracle, s: State, op: Op)
    requires Knows(cfg, s)
    ensures Knows(cfg, After(cfg, oracle, s, op))
  {
    if op == Reset {
      LogNext(s.log, WasReset);
      if cfg.threshold.Some? {
        ClosedNext(s.log, WasReset, Limit(cfg.threshold.value));
      }
    } else if cfg.retry.None? {
      CoreKeeps(cfg, oracle, s);
    } else {
      AttemptsKeep(cfg, oracle, s.(attempts := 0));
    }
  }

  lemma {:induction false} RunsKeep(cfg: Settings, oracle: Oracle, now: real, ops: seq<Op>)
    ensures Knows(cfg, Runs(cfg, oracle, Opening(now), ops))
  {
    if ops == [] {
    } else {
      var front, op := ops[..|ops| - 1], ops[|ops| - 1];
      RunsKeep(cfg, oracle, now, front);
      AfterKeeps(cfg, oracle, Runs(cfg, oracle, Opening(now), front), op);
    }
  }

  // ----- The breaker over whole runs ------------------------------------------------------

  /** Over any sequence of runs and resets, the vendor calls ending in a domain error number at
      most limit - 1 per success, and one limit per reset and for the end. */
  lemma DomainErrorsBounded(cfg: Settings, oracle: Oracle, now: real, ops: seq<Op>)
    requires cfg.threshold.Some?
    ensures var log, limit := Runs(cfg, oracle, Opening(now), ops).log, Limit(cfg.threshold.value);
            Count(log, IsDomainError) <= (limit - 1) * Count(log, IsSuccess) + limit * (Count(log, IsReset) + 1)
  {
    RunsKeep(cfg, oracle, now, ops);
    var log, limit := Runs(cfg, oracle, Opening(now), ops).log, Limit(cfg.threshold.value);
    ErrorsAmortised(log, limit);
    hide Runs, Count, Trailing, ClosedAtCalls, LimiterKnows;
    BudgetNext(limit, Count(log, IsSuccess), Count(log, IsReset));
  }

  // The bound is attained: limit - 1 errors before each success, and limit errors at the end.

  /** Errors since the last success, after k calls of that pattern. */
  function Phase(limit: nat, k: nat): (r: nat)
    ensures limit >= 1 ==> r < limit
  {
    if k == 0 || Phase(limit, k - 1) + 1 >= limit then 0 else Phase(limit, k - 1) + 1
  }

  /** Successes after k calls of that pattern. */
  function Rounds(limit: nat, k: nat): nat {
    if k == 0 then 0 else Rounds(limit, k - 1) + if Phase(limit, k - 1) + 1 >= limit then 1 else 0
  }

  function Answer(limit: nat, successes: nat, k: nat): Outcome {
    if Phase(limit, k) + 1 >= limit && Rounds(limit, k) < successes then Returned else Failed(CIRCUIT_OPEN)
  }

  function Alternating(limit: nat, successes: nat): Oracle {
    Oracle((k: nat) => Reply(Answer(limit, successes, k), 0.0), _ => 0.0, _ => 0.0, _ => 0.0)
  }

  function BreakerOnly(limit: nat): Settings {
    Settings(None, Some(limit), None, None)
  }

  function RunTimes(n: nat): (ops: seq<Op>)
    ensures |ops| == n
  {
    if n == 0 then [] else RunTimes(n - 1) + [RunOnce]
  }

  function AfterCalls(limit: nat, successes: nat, k: nat): State {
    Runs(BreakerOnly(limit), Alternating(limit, successes), Opening(0.0), RunTimes(k))
  }

  lemma NextCall(limit: nat, successes: nat, k: nat)
    requires |AfterCalls(limit, successes, k).log| == k && !AfterCalls(limit, successes, k).open
    ensures var s, answer := AfterCalls(limit, successes, k), Answer(limit, successes, k);
            AfterCalls(limit, successes, k + 1) == Observed(limit, s.(log := s.log + [Called(answer)]), answer)
  {
    assert RunTimes(k + 1)[..k] == RunTimes(k);
    hide Answer, Observed;
  }

  predicate InPattern(s: State, k: nat, phase: nat, rounds: nat) {
    && |s.log| == k && !s.open && s.failures == phase
    && Count(s.log, IsDomainError) + rounds == k
    && Count(s.log, IsSuccess) == rounds && Count(s.log, IsReset) == 0
  }

  lemma PatternStep(limit: nat, s: State, k: nat, phase: nat, rounds: nat, answer: Outcome)
    requires InPattern(s, k, phase, rounds) && (answer.Returned? || (answer.Failed? && phase + 1 < limit))
    ensures InPattern(Observed(limit, s.(log := s.log + [Called(answer)]), answer), k + 1,
                      if answer.Returned? then 0 else phase + 1, if answer.Returned? then rounds + 1 else rounds)
  {
    LogNext(s.log, Called(answer));
    hide Count, Trailing;
  }

  lemma PatternStarts(limit: nat, successes: nat)
    ensures InPattern(AfterCalls(limit, successes, 0), 0, Phase(limit, 0), Rounds(limit, 0))
  {}

  lemma NextInPattern(limit: nat, successes: nat, k: nat)
    requires InPattern(AfterCalls(limit, successes, k), k, Phase(limit, k), Rounds(limit, k))
    ensures var s, answer := AfterCalls(limit, successes, k), Answer(limit, successes, k);
            AfterCalls(limit, successes, k + 1) == Observed(limit, s.(log := s.log + [Called(answer)]), answer)
  {
    hide AfterCalls, Count, Observed, Answer;
    NextCall(limit, successes, k);
  }

  lemma AnswerFits(limit: nat, successes: nat, k: nat)
    requires limit >= 1 && Rounds(limit, k + 1) <= successes
    ensures var answer := Answer(limit, successes, k);
            && (answer.Returned? || (answer.Failed? && Phase(limit, k) + 1 < limit))
            && Phase(limit, k + 1) == (if answer.Returned? then 0 else Phase(limit, k) + 1)
            && Rounds(limit, k + 1) == (if answer.Returned? then Rounds(limit, k) + 1 else Rounds(limit, k))
  {}

  /** While fewer successes than asked for have come, or the last round is not yet over. */
  lemma {:induction false} PatternRuns(limit: nat, successes: nat, k: nat)
    requires limit >= 1 && Rounds(limit, k) <= successes
    ensures InPattern(AfterCalls(limit, successes, k), k, Phase(limit, k), Rounds(limit, k))
  {
    hide AfterCalls, InPattern, Observed, Answer;
    if k == 0 {
      PatternStarts(limit, successes);
    } else {
      PatternRuns(limit, successes, k - 1);
      NextInPattern(limit, successes, k - 1);
      AnswerFits(limit, successes, k - 1);
      PatternStep(limit, AfterCalls(limit, successes, k - 1), k - 1, Phase(limit, k - 1), Rounds(limit, k - 1),
                  Answer(limit, successes, k - 1));
    }
  }

  lemma {:induction false} Climb(limit: nat, k: nat, j: nat)
    requires Phase(limit, k) == 0 && j < limit
    ensures Phase(limit, k + j) == j && Rounds(limit, k + j) == Rounds(limit, k)
    decreases j
  {
    if j == 0 {
    } else {
      Climb(limit, k, j - 1);
    }
  }

  /** The last call of a round, and its number. */
  lemma {:induction false} EndOfRound(limit: nat, rounds: nat) returns (k: nat)
    requires limit >= 1
    ensures Rounds(limit, k) == rounds && Phase(limit, k) == limit - 1
    ensures k == rounds * (limit - 1) + rounds + limit - 1
    decreases rounds
  {
    if rounds == 0 {
      k := limit - 1;
      Climb(limit, 0, limit - 1);
    } else {
      var before := EndOfRound(limit, rounds - 1);
      k := before + 1 + (limit - 1);
      Climb(limit, before + 1, limit - 1);
      assert rounds * (limit - 1) == (rounds - 1) * (limit - 1) + (limit - 1);
    }
  }

  lemma LastRound(limit: nat, successes: nat, k: nat)
    requires limit >= 1 && Rounds(limit, k) == successes && Phase(limit, k) == limit - 1
    ensures var log := AfterCalls(limit, successes, k + 1).log;
            Count(log, IsSuccess) == successes && Count(log, IsDomainError) + successes == k + 1
  {
    hide AfterCalls, Count, Trailing;
    PatternRuns(limit, successes, k);
    NextCall(limit, successes, k);
    LogNext(AfterCalls(limit, successes, k).log, Called(Answer(limit, successes, k)));
  }

  lemma {:induction false} NoResets(n: nat)
    ensures Reset !in RunTimes(n)
  {
    if n == 0 {
    } else {
      NoResets(n - 1);
    }
  }

  /** No smaller bound holds: for every threshold and every number of successes, some vendor
      and number of runs without a reset bring about exactly that many domain errors. */
  lemma DomainErrorsBoundAttained(limit: nat, successes: nat) returns (oracle: Oracle, ops: seq<Op>)
    requires limit >= 1
    ensures Reset !in ops
    ensures var log := Runs(BreakerOnly(limit), oracle, Opening(0.0), ops).log;
            Count(log, IsSuccess) == successes && Count(log, IsDomainError) == successes * (limit - 1) + limit
  {
    hide Runs, Count, RunTimes;
    var k := EndOfRound(limit, successes);
    LastRound(limit, successes, k);
    oracle, ops := Alternating(limit, successes), RunTimes(k + 1);
    NoResets(k + 1);
  }

  /** The breaker is open exactly when the limit of domain errors has passed since the last
      success or reset, and vendor calls are made, with one limiter slot each, only while it is
      closed. */
  lemma OpenExactly(cfg: Settings, oracle: Oracle, now: real, ops: seq<Op>)
    requires cfg.threshold.Some?
    ensures var s := Runs(cfg, oracle, Opening(now), ops);
            && (s.open <==> Trailing(s.log) >= Limit(cfg.threshold.value))
            && ClosedAtCalls(s.log, Limit(cfg.threshold.value))
            && |s.slots| == (if Limiting(cfg) then Count(s.log, IsCall) else 0)
  {
    RunsKeep(cfg, oracle, now, ops);
  }

  /** Once open, a run calls no vendor and takes no slot, and it fails with circuit_open. */
  lemma {:induction false} OpenAttempts(cfg: Settings, oracle: Oracle, s: State)
    requires cfg.threshold.Some? && cfg.retry.Some? && s.open && s.attempts >= 0
    ensures var (after, outcome) := Attempts(cfg, oracle, s);
            && outcome == Failed(CIRCUIT_OPEN)
            && after == s.(attempts := after.attempts, sleeps := after.sleeps)
    decreases cfg.retry.value.retries - s.attempts
  {
    var retry, started := cfg.retry.value, s.(attempts := s.attempts + 1);
    hide Backoff;
    if started.attempts < retry.retries {
      OpenAttempts(cfg, oracle, Slept(retry, oracle, started));
    }
  }

  lemma OpenRun(cfg: Settings, oracle: Oracle, s: State)
    requires cfg.threshold.Some? && s.open
    ensures var (after, outcome) := FullRun(cfg, oracle, s);
            && outcome == Failed(CIRCUIT_OPEN)
            && after == s.(attempts := after.attempts, sleeps := after.sleeps)
  {
    if cfg.retry.Some? {
      OpenAttempts(cfg, oracle, s.(attempts := 0));
    }
  }

  /** So from then on, until a reset, nothing reaches the vendor. */
  lemma {:induction false} OpenStaysSilent(cfg: Settings, oracle: Oracle, s: State, ops: seq<Op>)
    requires cfg.threshold.Some? && s.open && Reset !in ops
    ensures var after := Runs(cfg, oracle, s, ops);
            after.open && after.log == s.log && after.slots == s.slots && after.failures == s.failures
  {
    if ops == [] {
    } else {
      var front := ops[..|ops| - 1];
      OpenStaysSilent(cfg, oracle, s, front);
      assert ops[|ops| - 1] in ops;
      OpenRun(cfg, oracle, Runs(cfg, oracle, s, front));
    }
  }

  // ----- The limiter over whole runs ------------------------------------------------------

  lemma OneSlotMore(x: real, y: real, n: int, perSecond: real)
    requires perSecond > 0.0 && n as real <= x * perSecond && y >= 1.0 / perSecond
    ensures (n + 1) as real <= (x + y) * perSecond
  {
    ProductMonotone(1.0 / perSecond, y, perSecond);
    QuotientTimes(1.0, perSecond);
    Distribute(perSecond, x, y);
  }

  lemma {:induction false} SpacedFar(perSecond: real, s: State, i: nat, j: nat)
    requires perSecond > 0.0 && Spaced(perSecond, s) && i <= j < |s.slots|
    ensures (j - i) as real <= (s.slots[j] - s.slots[i]) * perSecond
    decreases j
  {
    if i < j {
      SpacedFar(perSecond, s, i, j - 1);
      var x, y := s.slots[j - 1] - s.slots[i], s.slots[j] - s.slots[j - 1];
      assert y >= 1.0 / perSecond && x + y == s.slots[j] - s.slots[i];
      OneSlotMore(x, y, j - 1 - i, perSecond);
    }
  }

  /** Slots i to j take at least (j - i) / per_second, over any number of runs and resets. */
  lemma RateLimited(cfg: Settings, oracle: Oracle, now: real, ops: seq<Op>, i: nat, j: nat)
    requires Limiting(cfg) && i <= j < |Runs(cfg, oracle, Opening(now), ops).slots|
    ensures var slots := Runs(cfg, oracle, Opening(now), ops).slots;
            (j - i) as real <= (slots[j] - slots[i]) * cfg.perSecond.value
  {
    RunsKeep(cfg, oracle, now, ops);
    hide Runs, BreakerKnows, Count;
    SpacedFar(cfg.perSecond.value, Runs(cfg, oracle, Opening(now), ops), i, j);
  }

  // ----- One run of the retry loop --------------------------------------------------------

  /** Attempts still to come in a run, at least one. */
  function AttemptsLeft(retries: int, attempts: int): nat {
    if retries - attempts >= 1 then retries - attempts else 1
  }

  predicate RetryableFailure(e: Event) {
    e.Called? && e.outcome.Failed? && e.outcome.error.retryable
  }

  lemma CoreAdds(cfg: Settings, oracle: Oracle, s: State)
    ensures var (after, outcome) := CoreCall(cfg, oracle, s);
            && after.sleeps == s.sleeps
            && (after.log == s.log + [Called(outcome)] || (after.log == s.log && outcome == Failed(CIRCUIT_OPEN)))
            && (cfg.threshold.None? ==> after.log == s.log + [Called(Guarded(cfg.timeout, oracle.reply(|s.log|)))])
  {}

  /** What a run leaves behind, from a state with some attempts already made. */
  predicate RunShape(retries: int, s: State, after: State, outcome: Outcome) {
    && s.log <= after.log && |after.log| - |s.log| <= AttemptsLeft(retries, s.attempts)
    && s.sleeps <= after.sleeps && |after.sleeps| - |s.sleeps| < AttemptsLeft(retries, s.attempts)
    && s.attempts < after.attempts <= s.attempts + AttemptsLeft(retries, s.attempts)
    && (forall k :: |s.log| <= k < |after.log| - 1 ==> RetryableFailure(after.log[k]))
    && (outcome.Returned? <==> |after.log| > |s.log| && after.log[|after.log| - 1] == Called(Returned))
    && (outcome.Failed? ==>
          || after.attempts >= retries
          || (|after.log| > |s.log| && after.log[|after.log| - 1] == Called(Unexpected))
          || (|after.log| > |s.log| && after.log[|after.log| - 1] == Called(outcome) && !outcome.error.retryable))
    && !outcome.Unexpected?
    && (outcome.Failed? ==>
          || outcome.error == DomainError("circuit_open", true)
          || (|after.log| > |s.log| && after.log[|after.log| - 1] == Called(outcome))
          || (|after.log| > |s.log| && after.log[|after.log| - 1] == Called(Unexpected)
              && outcome.error == DomainError("unexpected provider failure", true)))
  }

  lemma ShapeExtends(retries: int, s: State, mid: State, rest: State, after: State, final: Outcome, outcome: Outcome)
    requires mid.log == s.log + [Called(outcome)] || mid.log == s.log
    requires mid.sleeps == s.sleeps && mid.attempts == s.attempts + 1 < retries && RetryableFailure(Called(outcome))
    requires rest == mid.(sleeps := rest.sleeps) && |rest.sleeps| == |s.sleeps| + 1 && s.sleeps <= rest.sleeps
    requires RunShape(retries, rest, after, final)
    ensures RunShape(retries, s, after, final)
  {
    forall k | |s.log| <= k < |after.log| - 1 ensures RetryableFailure(after.log[k]) {
      if k < |mid.log| {
        assert mid.log[k] == after.log[k];
      }
    }
    if |after.log| == |mid.log| > |s.log| {
      assert after.log == mid.log;
    }
  }

  lemma {:induction false} AttemptsShape(cfg: Settings, oracle: Oracle, s: State)
    requires cfg.retry.Some? && s.attempts >= 0
    ensures var (after, outcome) := Attempts(cfg, oracle, s);
            RunShape(cfg.retry.value.retries, s, after, outcome)
    decreases cfg.retry.value.retries - s.attempts
  {
    hide CoreCall, Attempts, Backoff;
    AttemptsOnce(cfg, oracle, s);
    CoreAdds(cfg, oracle, s.(attempts := s.attempts + 1));
    var (mid, outcome) := CoreCall(cfg, oracle, s.(attempts := s.attempts + 1));
    if Retries(cfg, mid, outcome) {
      var rest := Slept(cfg.retry.value, oracle, mid);
      AttemptsShape(cfg, oracle, rest);
      ShapeExtends(cfg.retry.value.retries, s, mid, rest, Attempts(cfg, oracle, s).0, Attempts(cfg, oracle, s).1, outcome);
    }
  }

  /** A run makes at most max(1, retries) attempts and sleeps between them only; all but
      its last call failed retryably; it succeeds exactly if its last call did, and it gives up
      only when attempts run out, on a non-retryable error or on an unexpected one. */
  lemma RetryRunShape(cfg: Settings, oracle: Oracle, s: State)
    requires cfg.retry.Some?
    ensures var (after, outcome) := FullRun(cfg, oracle, s);
            RunShape(cfg.retry.value.retries, s.(attempts := 0), after, outcome)
  {
    AttemptsShape(cfg, oracle, s.(attempts := 0));
  }

  /** The vendor's reply k comes before any timeout that is set; one of 0 is not. */
  predicate InTime(cfg: Settings, oracle: Oracle, k: nat) {
    cfg.timeout.None? || cfg.timeout.value == 0.0 || oracle.reply(k).takes <= cfg.timeout.value
  }

  /** What a call sees of reply k. */
  function ReplyAt(cfg: Settings, oracle: Oracle, k: nat): Outcome {
    if InTime(cfg, oracle, k) then oracle.reply(k).outcome else Unexpected
  }

  lemma GuardedIsReply(cfg: Settings, oracle: Oracle, k: nat)
    ensures Guarded(cfg.timeout, oracle.reply(k)) == ReplyAt(cfg, oracle, k)
  {}

  /** Every call recorded in the log from position n on is the vendor's reply at its place, or
      an unexpected failure if that came too late. */
  predicate LogTells(cfg: Settings, oracle: Oracle, log: seq<Event>, n: nat) {
    forall k :: n <= k < |log| && log[k].Called? ==>
      log[k].outcome == if InTime(cfg, oracle, k) then oracle.reply(k).outcome else Unexpected
  }

  lemma CoreTells(cfg: Settings, oracle: Oracle, s: State)
    ensures s.log <= CoreCall(cfg, oracle, s).0.log && LogTells(cfg, oracle, CoreCall(cfg, oracle, s).0.log, |s.log|)
  {
    GuardedIsReply(cfg, oracle, |s.log|);
  }

  lemma {:induction false} AttemptsTell(cfg: Settings, oracle: Oracle, s: State)
    requires cfg.retry.Some? && s.attempts >= 0
    ensures s.log <= Attempts(cfg, oracle, s).0.log && LogTells(cfg, oracle, Attempts(cfg, oracle, s).0.log, |s.log|)
    decreases cfg.retry.value.retries - s.attempts
  {
    hide CoreCall, Attempts, Backoff, InTime;
    AttemptsOnce(cfg, oracle, s);
    CoreTells(cfg, oracle, s.(attempts := s.attempts + 1));
    var (mid, outcome) := CoreCall(cfg, oracle, s.(attempts := s.attempts + 1));
    if Retries(cfg, mid, outcome) {
      AttemptsTell(cfg, oracle, Slept(cfg.retry.value, oracle, mid));
    }
  }

  /** In every sequence of runs and resets, a reply that comes after the timeout is never taken
      for one that came, and one in time is never lost. */
  lemma {:induction false} RunsTell(cfg: Settings, oracle: Oracle, now: real, ops: seq<Op>)
    ensures LogTells(cfg, oracle, Runs(cfg, oracle, Opening(now), ops).log, 0)
  {
    if ops == [] {
    } else {
      var front, op := ops[..|ops| - 1], ops[|ops| - 1];
      RunsTell(cfg, oracle, now, front);
      var s := Runs(cfg, oracle, Opening(now), front);
      assert Runs(cfg, oracle, Opening(now), ops) == After(cfg, oracle, s, op);
      hide CoreCall, Attempts, InTime, Runs;
      if op == RunOnce {
        if cfg.retry.None? {
          CoreTells(cfg, oracle, s);
        } else {
          AttemptsTell(cfg, oracle, s.(attempts := 0));
        }
      }
    }
  }

  lemma ClosedCallAdds(cfg: Settings, oracle: Oracle, s: State)
    requires cfg.threshold.None? || !s.open
    ensures s.log < CoreCall(cfg, oracle, s).0.log
  {
    hide Guarded, SlotTime;
  }

  /** Unless the breaker is open, a run reaches the vendor. */
  lemma ClosedRunCalls(cfg: Settings, oracle: Oracle, s: State)
    requires cfg.threshold.None? || !s.open
    ensures s.log < FullRun(cfg, oracle, s).0.log
  {
    hide CoreCall, Attempts, LogTells, Backoff;
    if cfg.retry.None? {
      ClosedCallAdds(cfg, oracle, s);
    } else {
      var (mid, outcome) := CoreCall(cfg, oracle, s.(attempts := 1));
      ClosedCallAdds(cfg, oracle, s.(attempts := 1));
      AttemptsOnce(cfg, oracle, s.(attempts := 0));
      if Retries(cfg, mid, outcome) {
        AttemptsTell(cfg, oracle, Slept(cfg.retry.value, oracle, mid));
      }
    }
  }

  /** A reset is recorded, and the run that follows it reaches the vendor, whatever came before. */
  lemma ResetServesAgain(cfg: Settings, oracle: Oracle, s: State, ops: seq<Op>)
    ensures var reset := Runs(cfg, oracle, s, ops + [Reset]);
            && reset.log == Runs(cfg, oracle, s, ops).log + [WasReset]
            && reset.log < Runs(cfg, oracle, s, ops + [Reset, RunOnce]).log
  {
    var before := Runs(cfg, oracle, s, ops);
    assert (ops + [Reset])[..|ops|] == ops;
    assert (ops + [Reset, RunOnce])[..|ops| + 1] == ops + [Reset];
    ClosedRunCalls(cfg, oracle, AfterReset(before));
    hide FullRun;
  }

  /** The vendor's reply k is a success in time, and from the first one on only retryable
      failures in time precede it. */
  predicate SucceedsAt(cfg: Settings, oracle: Oracle, first: nat, k: nat) {
    && InTime(cfg, oracle, k) && oracle.reply(k).outcome.Returned?
    && forall j :: first <= j < k ==> InTime(cfg, oracle, j) && RetryableFailure(Called(oracle.reply(j).outcome))
  }

  /** The breaker, if any, is open exactly from its limit of failures on. */
  predicate BreakerFits(cfg: Settings, s: State) {
    cfg.threshold.Some? ==> s.failures >= 0 && (s.open <==> s.failures >= Limit(cfg.threshold.value))
  }

  /** How many vendor calls the attempts left can still make if all of them fail retryably. */
  function CallsLeft(cfg: Settings, s: State): int
    requires cfg.retry.Some?
  {
    var left := AttemptsLeft(cfg.retry.value.retries, s.attempts);
    if cfg.threshold.None? then left
    else if s.open then 0
    else if left < Limit(cfg.threshold.value) - s.failures then left
    else Limit(cfg.threshold.value) - s.failures
  }

  /** A core call that is let through makes one vendor call, and a domain error counts. */
  lemma CoreCounts(cfg: Settings, oracle: Oracle, s: State)
    requires cfg.threshold.Some? ==> !s.open
    requires BreakerFits(cfg, s)
    ensures var (mid, outcome) := CoreCall(cfg, oracle, s);
            && outcome == ReplyAt(cfg, oracle, |s.log|) && |mid.log| == |s.log| + 1
            && BreakerFits(cfg, mid)
            && (cfg.threshold.Some? && outcome.Failed? ==> mid.failures == s.failures + 1)
  {
    GuardedIsReply(cfg, oracle, |s.log|);
    hide Guarded, InTime;
  }

  lemma {:induction false} AttemptsSucceedIff(cfg: Settings, oracle: Oracle, s: State)
    requires cfg.retry.Some? && s.attempts >= 0 && BreakerFits(cfg, s)
    ensures Attempts(cfg, oracle, s).1.Returned? <==>
            exists k :: 0 <= k - |s.log| < CallsLeft(cfg, s) && SucceedsAt(cfg, oracle, |s.log|, k)
    decreases cfg.retry.value.retries - s.attempts
  {
    if cfg.threshold.Some? && s.open {
      OpenAttempts(cfg, oracle, s);
    } else {
      var started, n, next := s.(attempts := s.attempts + 1), |s.log|, |s.log| + 1;
      hide CoreCall, Attempts, Backoff, Guarded, InTime;
      AttemptsOnce(cfg, oracle, s);
      CoreCounts(cfg, oracle, started);
      var (mid, outcome) := CoreCall(cfg, oracle, started);
      forall k | n <= k
        ensures SucceedsAt(cfg, oracle, n, k) <==>
                if k == n then outcome.Returned? else RetryableFailure(Called(outcome)) && SucceedsAt(cfg, oracle, next, k)
      {}
      hide SucceedsAt;
      if outcome.Returned? {
        assert SucceedsAt(cfg, oracle, n, n);
      } else if Retries(cfg, mid, outcome) {
        AttemptsSucceedIff(cfg, oracle, Slept(cfg.retry.value, oracle, mid));
      }
    }
  }

  /** A run succeeds exactly when one of the vendor's next replies is a success that only
      retryable failures precede: of the next max(1, retries) ones without a breaker, of none
      with an open one, and else of as many as the breaker still lets fail, if that is fewer. */
  lemma RetrySucceedsIff(cfg: Settings, oracle: Oracle, s: State)
    requires cfg.retry.Some? && BreakerFits(cfg, s)
    ensures FullRun(cfg, oracle, s).1.Returned? <==>
            exists k :: 0 <= k - |s.log| < CallsLeft(cfg, s.(attempts := 0)) && SucceedsAt(cfg, oracle, |s.log|, k)
  {
    AttemptsSucceedIff(cfg, oracle, s.(attempts := 0));
  }

  /** After any sequence of runs and resets, whatever the policy is composed of. */
  lemma LaterRunSucceedsIff(cfg: Settings, oracle: Oracle, now: real, ops: seq<Op>)
    requires cfg.retry.Some?
    ensures var s := Runs(cfg, oracle, Opening(now), ops);
            FullRun(cfg, oracle, s).1.Returned? <==>
            exists k :: 0 <= k - |s.log| < CallsLeft(cfg, s.(attempts := 0)) && SucceedsAt(cfg, oracle, |s.log|, k)
  {
    RunsKeep(cfg, oracle, now, ops);
    hide Runs, FullRun, Trailing, ClosedAtCalls, LimiterKnows;
    RetrySucceedsIff(cfg, oracle, Runs(cfg, oracle, Opening(now), ops));
  }

  // ----- How long one run sleeps ----------------------------------------------------------

  function Total(sleeps: seq<real>): real {
    if sleeps == [] then 0.0 else Total(sleeps[..|sleeps| - 1]) + sleeps[|sleeps| - 1]
  }

  function Factor(retry: Retry): real {
    if retry.jitter then 1.5 else 1.0
  }

  lemma TotalNext(sleeps: seq<real>, x: real)
    ensures Total(sleeps + [x]) == Total(sleeps) + x
  {
    assert (sleeps + [x])[..|sleeps|] == sleeps;
  }

  lemma JitteredBound(backoff: real, roll: Fraction, bound: real)
    requires 0.0 <= backoff <= bound
    ensures Jittered(backoff, roll) <= 1.5 * bound
  {
    ProductMonotone(0.5 + roll, 1.5, backoff);
  }

  /** Backoff a doubles the base a - 1 times. */
  function Doubled(retry: Retry, times: nat): real {
    retry.backoffBase * Pow2(times) as real
  }

  predicate NonNegative(retry: Retry) {
    retry.backoffBase >= 0.0 && retry.maxBackoff >= 0.0
  }

  lemma BackoffBound(retry: Retry, attempt: nat, roll: Fraction)
    requires attempt >= 1 && NonNegative(retry)
    ensures Backoff(retry, attempt, roll) <= Factor(retry) * retry.maxBackoff
    ensures Backoff(retry, attempt, roll) <= Factor(retry) * Doubled(retry, attempt - 1)
  {
    ProductNonNegative(retry.backoffBase, Pow2(attempt - 1) as real);
    assert 0.0 <= Capped(retry, attempt) <= Doubled(retry, attempt - 1) && Capped(retry, attempt) <= retry.maxBackoff;
    hide Capped, Pow2, Doubled, Jittered;
    if retry.jitter {
      JitteredBound(Capped(retry, attempt), roll, retry.maxBackoff);
      JitteredBound(Capped(retry, attempt), roll, Doubled(retry, attempt - 1));
    }
  }

  /** n sleeps at the cap. */
  function CappedTotal(retry: Retry, n: int): real {
    Factor(retry) * retry.maxBackoff * n as real
  }

  /** Sleeps that double, from the a-th power of 2 up to before the b-th. */
  function DoubledTotal(retry: Retry, a: nat, b: nat): real {
    Factor(retry) * retry.backoffBase * (Pow2(b) - Pow2(a)) as real
  }

  lemma CappedTotalNext(retry: Retry, n: nat)
    requires NonNegative(retry)
    ensures CappedTotal(retry, n + 1) == CappedTotal(retry, n) + Factor(retry) * retry.maxBackoff
    ensures CappedTotal(retry, n) >= 0.0 && CappedTotal(retry, n + 1) >= 0.0
  {
    Distribute(Factor(retry) * retry.maxBackoff, n as real, 1.0);
    ProductNonNegative(Factor(retry), retry.maxBackoff);
    ProductNonNegative(Factor(retry) * retry.maxBackoff, n as real);
  }

  lemma Regroup(f: real, x: real, power: real, rest: real)
    ensures f * x * (power + rest) == f * (x * power) + f * x * rest
  {}

  lemma {:induction false} PowersGrow(a: nat, b: nat)
    requires a <= b
    ensures Pow2(a) <= Pow2(b)
    decreases b
  {
    if a < b {
      PowersGrow(a, b - 1);
    }
  }

  lemma DoubledTotalNext(retry: Retry, a: nat, b: nat)
    requires a < b && NonNegative(retry)
    ensures DoubledTotal(retry, a, b) == Factor(retry) * Doubled(retry, a) + DoubledTotal(retry, a + 1, b)
    ensures DoubledTotal(retry, a, b) >= 0.0
  {
    PowersGrow(a, b);
    var rest := (Pow2(b) - Pow2(a + 1)) as real;
    assert (Pow2(b) - Pow2(a)) as real == Pow2(a) as real + rest;
    assert Factor(retry) >= 0.0;
    hide Pow2, Factor;
    Regroup(Factor(retry), retry.backoffBase, Pow2(a) as real, rest);
    ProductNonNegative(Factor(retry), retry.backoffBase);
    ProductNonNegative(Factor(retry) * retry.backoffBase, Pow2(a) as real + rest);
  }

  lemma CoreSleepsNot(cfg: Settings, oracle: Oracle, s: State)
    ensures CoreCall(cfg, oracle, s).0.sleeps == s.sleeps
  {}

  lemma NothingLeft(retry: Retry, n: nat)
    ensures CappedTotal(retry, 0) == 0.0 && DoubledTotal(retry, n, n) == 0.0
  {}

  /** One sleep of at most x and y, then the rest. */
  lemma SleepThenRest(retry: Retry, attempts: nat, before: seq<real>, x: real, after: seq<real>)
    requires NonNegative(retry) && attempts + 1 < retry.retries
    requires x <= Factor(retry) * retry.maxBackoff && x <= Factor(retry) * Doubled(retry, attempts)
    requires Total(after) - Total(before + [x]) <= CappedTotal(retry, retry.retries - 2 - attempts)
    requires Total(after) - Total(before + [x]) <= DoubledTotal(retry, attempts + 1, retry.retries - 1)
    ensures Total(after) - Total(before) <= CappedTotal(retry, retry.retries - 1 - attempts)
    ensures Total(after) - Total(before) <= DoubledTotal(retry, attempts, retry.retries - 1)
  {
    CappedTotalNext(retry, retry.retries - 2 - attempts);
    DoubledTotalNext(retry, attempts, retry.retries - 1);
    TotalNext(before, x);
    hide Doubled, Factor, Total, CappedTotal, DoubledTotal;
  }

  /** Bounds on the sleep still to come once some attempts have been made. */
  lemma {:induction false} SleepsLeft(cfg: Settings, oracle: Oracle, s: State)
    requires cfg.retry.Some? && 0 <= s.attempts < cfg.retry.value.retries && NonNegative(cfg.retry.value)
    ensures var retry, after := cfg.retry.value, Attempts(cfg, oracle, s).0;
            && Total(after.sleeps) - Total(s.sleeps) <= CappedTotal(retry, retry.retries - 1 - s.attempts)
            && Total(after.sleeps) - Total(s.sleeps) <= DoubledTotal(retry, s.attempts, retry.retries - 1)
    decreases cfg.retry.value.retries - s.attempts
  {
    hide CoreCall, Attempts, Backoff, Doubled, Factor, Total, CappedTotal, DoubledTotal;
    var retry, n := cfg.retry.value, cfg.retry.value.retries - 1;
    AttemptsOnce(cfg, oracle, s);
    CoreSleepsNot(cfg, oracle, s.(attempts := s.attempts + 1));
    var (mid, outcome) := CoreCall(cfg, oracle, s.(attempts := s.attempts + 1));
    if Retries(cfg, mid, outcome) {
      var x := Backoff(retry, mid.attempts, oracle.roll(|mid.sleeps|));
      SleepsLeft(cfg, oracle, Slept(retry, oracle, mid));
      BackoffBound(retry, mid.attempts, oracle.roll(|mid.sleeps|));
      SleepThenRest(retry, s.attempts, s.sleeps, x, Attempts(cfg, oracle, s).0.sleeps);
    } else if s.attempts < n {
      CappedTotalNext(retry, n - s.attempts - 1);
      DoubledTotalNext(retry, s.attempts, n);
    } else {
      NothingLeft(retry, n);
    }
  }

  /** The sleep after a retryable failure is the backoff of that attempt. */
  lemma {:induction false} SleepsAreBackoffs(cfg: Settings, oracle: Oracle, s: State, k: nat)
    requires cfg.retry.Some? && s.attempts >= 0 && |s.sleeps| <= k < |Attempts(cfg, oracle, s).0.sleeps|
    ensures s.sleeps <= Attempts(cfg, oracle, s).0.sleeps
    ensures Attempts(cfg, oracle, s).0.sleeps[k]
         == Backoff(cfg.retry.value, s.attempts + k - |s.sleeps| + 1, oracle.roll(k))
    decreases cfg.retry.value.retries - s.attempts
  {
    AttemptsShape(cfg, oracle, s);
    hide CoreCall, Attempts, Backoff, AttemptsLeft;
    AttemptsOnce(cfg, oracle, s);
    CoreSleepsNot(cfg, oracle, s.(attempts := s.attempts + 1));
    var (mid, outcome) := CoreCall(cfg, oracle, s.(attempts := s.attempts + 1));
    if Retries(cfg, mid, outcome) {
      var rest := Slept(cfg.retry.value, oracle, mid);
      if k > |s.sleeps| {
        SleepsAreBackoffs(cfg, oracle, rest, k);
      } else {
        AttemptsShape(cfg, oracle, rest);
        assert Attempts(cfg, oracle, s).0.sleeps[k] == rest.sleeps[k];
      }
    }
  }

  lemma JitterRange(backoff: real, roll: Fraction)
    requires backoff >= 0.0
    ensures 0.5 * backoff <= Jittered(backoff, roll) <= 1.5 * backoff
  {
    ProductMonotone(0.5, 0.5 + roll, backoff);
    ProductMonotone(0.5 + roll, 1.5, backoff);
  }

  /** The n-th sleep of a run lasts half to one and a half times base doubled n - 1 times,
      capped at max_backoff; without jitter it is that exactly. */
  lemma SleepSchedule(cfg: Settings, oracle: Oracle, s: State, n: nat)
    requires cfg.retry.Some? && NonNegative(cfg.retry.value)
    requires 1 <= n <= |FullRun(cfg, oracle, s).0.sleeps| - |s.sleeps|
    ensures var retry, x := cfg.retry.value, FullRun(cfg, oracle, s).0.sleeps[|s.sleeps| + n - 1];
            var capped := if retry.maxBackoff < Doubled(retry, n - 1) then retry.maxBackoff else Doubled(retry, n - 1);
            if retry.jitter then 0.5 * capped <= x <= 1.5 * capped else x == capped
  {
    hide Attempts, Jittered, Pow2;
    var retry, k := cfg.retry.value, |s.sleeps| + n - 1;
    SleepsAreBackoffs(cfg, oracle, s.(attempts := 0), k);
    ProductNonNegative(retry.backoffBase, Pow2(n - 1) as real);
    JitterRange(Capped(retry, n), oracle.roll(k));
  }

  /** With R >= 1 retries, a run sleeps in total at most 1.5 (1 without jitter) times the lesser
      of (R - 1) * max_backoff and base * (2^(R - 1) - 1). */
  lemma SleepBounded(cfg: Settings, oracle: Oracle, s: State)
    requires cfg.retry.Some? && cfg.retry.value.retries >= 1 && NonNegative(cfg.retry.value)
    ensures var retry, after := cfg.retry.value, FullRun(cfg, oracle, s).0;
            && Total(after.sleeps) - Total(s.sleeps) <= Factor(retry) * retry.maxBackoff * (retry.retries - 1) as real
            && Total(after.sleeps) - Total(s.sleeps) <= Factor(retry) * retry.backoffBase * (Pow2(retry.retries - 1) - 1) as real
  {
    hide Attempts, Total, Factor;
    SleepsLeft(cfg, oracle, s.(attempts := 0));
    assert Pow2(0) == 1;
  }
}
