/** The improve-until-plateau loop (app/workers/runner.py). */
module Plateau {
  import opened Wrappers

  datatype LoopConfig = LoopConfig(maxStaleRounds: int, maxRounds: Option<int>)

  /** The fields of the loop. */
  datatype Loop = Loop(best: Option<real>, stale: int, rounds: nat)

  const FRESH := Loop(None, 0, 0)

  // What the step answers in each round, None if it raises; and whether a stop has been
  // requested by the time the loop looks, after so many rounds.
  type Steps = nat -> Option<real>
  type Stops = nat -> bool

  /** A failed round counts as the best so far, or 0. */
  function MetricOf(best: Option<real>, answer: Option<real>): real {
    match answer
    case Some(metric) => metric
    case None => if best.Some? then best.value else 0.0
  }

  function Recorded(s: Loop, metric: real): Loop {
    if s.best.None? || metric > s.best.value then Loop(Some(metric), 0, s.rounds)
    else Loop(s.best, s.stale + 1, s.rounds)
  }

  function OneRound(s: Loop, steps: Steps): Loop {
    Recorded(s.(rounds := s.rounds + 1), MetricOf(s.best, steps(s.rounds + 1)))
  }

  /** The state after k more rounds. */
  function After(s: Loop, steps: Steps, k: nat): Loop {
    if k == 0 then s else OneRound(After(s, steps, k - 1), steps)
  }

  predicate MaxRoundsReached(config: LoopConfig, rounds: nat) {
    config.maxRounds.Some? && rounds >= config.maxRounds.value
  }

  /** After k rounds of a call there is another: no stop, no round limit, and no plateau found
      at the end of the last round. */
  predicate GoesOn(config: LoopConfig, s: Loop, steps: Steps, stops: Stops, k: nat) {
    var now := After(s, steps, k);
    !stops(now.rounds) && !MaxRoundsReached(config, now.rounds) && (k == 0 || now.stale < config.maxStaleRounds)
  }

  ghost predicate Ends(config: LoopConfig, s: Loop, steps: Steps, stops: Stops) {
    exists k :: !GoesOn(config, s, steps, stops, k)
  }

  class ImproveUntilPlateau {
    const config: LoopConfig
    var best: Option<real>
    var stale: int
    var rounds: nat

    constructor (config: LoopConfig)
      ensures this.config == config && State() == FRESH
    {
      this.config, best, stale, rounds := config, None, 0, 0;
    }

    ghost function State(): Loop
      reads this
    {
      Loop(best, stale, rounds)
    }

    method RunRound(steps: Steps) returns (metric: real)
      modifies this`rounds
      ensures rounds == old(rounds) + 1 && metric == MetricOf(best, steps(rounds))
    {
      rounds := rounds + 1;
      var answer := steps(rounds);
      if answer.Some? {
        metric := answer.value;
      } else {
        metric := if best.Some? then best.value else 0.0;
      }
    }

    method Record(metric: real)
      modifies this`best, this`stale
      ensures State() == Recorded(old(State()), metric)
    {
      if best.None? || metric > best.value {
        best, stale := Some(metric), 0;
      } else {
        stale := stale + 1;
      }
    }

    /** Runs until the first moment at which the loop does not go on. Whether there is one is up
        to the step; nothing else in the source forces an end. */
    method RunForever(steps: Steps, stops: Stops) returns (total: nat)
      requires Ends(config, State(), steps, stops)
      modifies this
      ensures total == rounds >= old(rounds)
      ensures State() == After(old(State()), steps, rounds - old(rounds))
      ensures !GoesOn(config, old(State()), steps, stops, rounds - old(rounds))
      ensures forall k :: 0 <= k < rounds - old(rounds) ==> GoesOn(config, old(State()), steps, stops, k)
    {
      hide MetricOf, Recorded;
      ghost var start := State();
      ghost var end: nat :| !GoesOn(config, start, steps, stops, end);
      ghost var k: nat := 0;
      while !stops(rounds) && !(config.maxRounds.Some? && rounds >= config.maxRounds.value)
        invariant rounds == start.rounds + k && State() == After(start, steps, k)
        invariant k > 0 ==> stale < config.maxStaleRounds
        invariant k <= end && forall j :: 0 <= j < k ==> GoesOn(config, start, steps, stops, j)
        decreases end - k
      {
        assert GoesOn(config, start, steps, stops, k);
        var metric := RunRound(steps);
        Record(metric);
        k := k + 1;
        if stale >= config.maxStaleRounds {
          break;
        }
      }
      return rounds;
    }
  }

  // ----- The best so far, and what a stale count means --------------------------------------

  /** The metric recorded in each of the first k rounds, substitutes included. */
  function Metrics(steps: Steps, k: nat): (metrics: seq<real>)
    ensures |metrics| == k
  {
    if k == 0 then []
    else Metrics(steps, k - 1) + [MetricOf(After(FRESH, steps, k - 1).best, steps(k))]
  }

  predicate IsMax(metrics: seq<real>, best: real) {
    best in metrics && forall i :: 0 <= i < |metrics| ==> metrics[i] <= best
  }

  /** best is the maximum of all metrics, and stale counts the rounds since its first occurrence. */
  predicate Tracks(s: Loop, metrics: seq<real>) {
    && s.rounds == |metrics| && (s.best.None? <==> metrics == []) && (metrics == [] ==> s.stale == 0)
    && (metrics != [] ==>
          && 0 <= s.stale < |metrics| && metrics[|metrics| - 1 - s.stale] == s.best.value
          && (forall i :: 0 <= i < |metrics| ==> metrics[i] <= s.best.value)
          && (forall i :: 0 <= i < |metrics| - 1 - s.stale ==> metrics[i] < s.best.value))
  }

  lemma TracksNext(s: Loop, metrics: seq<real>, steps: Steps)
    requires Tracks(s, metrics)
    ensures Tracks(OneRound(s, steps), metrics + [MetricOf(s.best, steps(s.rounds + 1))])
  {}

  lemma {:induction false} AfterTracks(steps: Steps, k: nat)
    ensures Tracks(After(FRESH, steps, k), Metrics(steps, k))
  {
    if k == 0 {
    } else {
      AfterTracks(steps, k - 1);
      TracksNext(After(FRESH, steps, k - 1), Metrics(steps, k - 1), steps);
    }
  }

  /** After any number of rounds the best is the maximum of the recorded metrics; and when the
      loop has found a plateau, none of the last max_stale_rounds metrics beats the best of the
      rounds before them. */
  lemma {:induction false} BestIsMaximum(steps: Steps, k: nat, staleRounds: nat)
    requires k > 0 && After(FRESH, steps, k).stale >= staleRounds
    ensures var metrics, best := Metrics(steps, k), After(FRESH, steps, k).best;
            && best.Some? && IsMax(metrics, best.value)
            && staleRounds < k && IsMax(metrics[..k - staleRounds], best.value)
  {
    AfterTracks(steps, k);
    var s, metrics := After(FRESH, steps, k), Metrics(steps, k);
    hide After, Metrics;
    var first := k - 1 - s.stale;
    assert metrics[first] == s.best.value && metrics[..k - staleRounds][first] == s.best.value;
  }

  /** The metric recorded in a round is what the step answered; a failed round counts as the best
      of the rounds before, or 0 if it is the first. So it never promotes, but for the first. */
  lemma RecordedMetric(steps: Steps, k: nat, i: nat)
    requires i < k
    ensures Metrics(steps, k)[i] == match steps(i + 1)
                                    case Some(metric) => metric
                                    case None => if i == 0 then 0.0 else After(FRESH, steps, i).best.value
    ensures steps(i + 1).None? && i > 0 ==>
              && After(FRESH, steps, i + 1).best == After(FRESH, steps, i).best
              && After(FRESH, steps, i + 1).stale == After(FRESH, steps, i).stale + 1
    ensures steps(i + 1).None? && i == 0 ==> After(FRESH, steps, 1) == Loop(Some(0.0), 0, 1)
    decreases k
  {
    AfterTracks(steps, i);
    assert After(FRESH, steps, i + 1) == OneRound(After(FRESH, steps, i), steps);
    if i < k - 1 {
      RecordedMetric(steps, k - 1, i);
    }
  }

  /** Some metric before position n is at least the i-th. */
  predicate Matched(metrics: seq<real>, n: nat, i: nat)
    requires n <= |metrics| && i < |metrics|
  {
    exists j :: 0 <= j < n && metrics[j] >= metrics[i]
  }

  /** No metric from position n on beats all the n before it. */
  predicate NoneBeats(metrics: seq<real>, n: nat)
    requires n <= |metrics|
  {
    forall i :: n <= i < |metrics| ==> Matched(metrics, n, i)
  }

  lemma StaleCounts(s: Loop, metrics: seq<real>, n: nat)
    requires Tracks(s, metrics) && 0 < n <= |metrics|
    ensures s.stale >= |metrics| - n <==> NoneBeats(metrics, n)
  {
    var first := |metrics| - 1 - s.stale;
    if s.stale >= |metrics| - n {
      forall i | n <= i < |metrics| ensures Matched(metrics, n, i) {
        assert metrics[first] >= metrics[i];
      }
    } else {
      assert !Matched(metrics, n, first);
    }
  }

  /** The loop has counted the rounds from n on as stale exactly if none of them beats all the
      n rounds before. */
  lemma StaleIff(steps: Steps, k: nat, n: nat)
    requires 0 < n <= k
    ensures After(FRESH, steps, k).stale >= k - n <==> NoneBeats(Metrics(steps, k), n)
  {
    AfterTracks(steps, k);
    StaleCounts(After(FRESH, steps, k), Metrics(steps, k), n);
  }

  // ----- How long it runs --------------------------------------------------------------------

  function Promotions(steps: Steps, k: nat): nat {
    if k == 0 then 0
    else Promotions(steps, k - 1) + if After(FRESH, steps, k).stale == 0 then 1 else 0
  }

  function UpTo(values: set<real>, best: real): set<real> {
    set v | v in values && v <= best
  }

  predicate Within(metrics: seq<real>, values: set<real>) {
    forall i :: 0 <= i < |metrics| ==> metrics[i] in values
  }

  lemma WithinBefore(steps: Steps, k: nat, values: set<real>)
    requires k > 0 && Within(Metrics(steps, k), values)
    ensures Within(Metrics(steps, k - 1), values)
    ensures MetricOf(After(FRESH, steps, k - 1).best, steps(k)) in values
  {
    var front, metrics := Metrics(steps, k - 1), Metrics(steps, k);
    assert metrics == front + [metrics[k - 1]];
    assert forall i :: 0 <= i < k - 1 ==> metrics[i] == front[i];
  }

  lemma FirstUpTo(values: set<real>, y: real)
    requires y in values
    ensures |UpTo(values, y)| >= 1
  {
    assert y in UpTo(values, y);
  }

  lemma Subset(a: set<real>, b: set<real>)
    requires a <= b
    ensures |a| <= |b|
  {
    assert b == a + (b - a);
  }

  lemma MoreUpTo(values: set<real>, x: real, y: real)
    requires x < y && y in values
    ensures |UpTo(values, x)| + 1 <= |UpTo(values, y)|
  {
    Subset(UpTo(values, x) + {y}, UpTo(values, y));
    assert y !in UpTo(values, x);
  }

  /** Each promotion uses up a value, for the best only grows. */
  lemma {:induction false} PromotionsBounded(steps: Steps, k: nat, values: set<real>)
    requires Within(Metrics(steps, k), values)
    ensures k > 0 ==> After(FRESH, steps, k).best.Some?
    ensures k > 0 ==> Promotions(steps, k) <= |UpTo(values, After(FRESH, steps, k).best.value)|
  {
    if k == 0 {
    } else {
      WithinBefore(steps, k, values);
      PromotionsBounded(steps, k - 1, values);
      AfterTracks(steps, k - 1);
      var before, now := After(FRESH, steps, k - 1), After(FRESH, steps, k);
      assert now == Recorded(before.(rounds := k), MetricOf(before.best, steps(k)));
      assert Promotions(steps, k) == Promotions(steps, k - 1) + if now.stale == 0 then 1 else 0;
      hide Within, Metrics, After, Promotions, UpTo, MetricOf;
      if k == 1 {
        FirstUpTo(values, now.best.value);
      } else if now.stale == 0 {
        MoreUpTo(values, before.best.value, now.best.value);
      }
    }
  }

  function Worth(promotions: nat, staleRounds: int): int {
    if staleRounds <= 0 then 0 else promotions * staleRounds
  }

  lemma WorthNext(promotions: nat, staleRounds: int)
    requires promotions >= 1
    ensures Worth(promotions, staleRounds) == Worth(promotions - 1, staleRounds) + if staleRounds <= 0 then 0 else staleRounds
  {}

  lemma {:induction false} WorthGrows(a: nat, b: nat, staleRounds: int)
    requires a <= b
    ensures 0 <= Worth(a, staleRounds) <= Worth(b, staleRounds)
    decreases b
  {
    if a < b {
      WorthGrows(a, b - 1, staleRounds);
      WorthNext(b, staleRounds);
    }
  }

  lemma {:induction false} RoundsAdd(s: Loop, steps: Steps, k: nat)
    ensures After(s, steps, k).rounds == s.rounds + k
  {
    if k == 0 {
    } else {
      RoundsAdd(s, steps, k - 1);
    }
  }

  /** A later call carries on where earlier ones, of r rounds in all, have left the loop. */
  lemma {:induction false} AfterAdds(steps: Steps, r: nat, k: nat)
    ensures After(After(FRESH, steps, r), steps, k) == After(FRESH, steps, r + k)
  {
    if k == 0 {
    } else {
      AfterAdds(steps, r, k - 1);
    }
  }

  /** A call of the loop after r rounds has gone on for k more. */
  predicate RanOn(config: LoopConfig, steps: Steps, stops: Stops, r: nat, k: nat) {
    forall j :: 0 <= j < k ==> GoesOn(config, After(FRESH, steps, r), steps, stops, j)
  }

  lemma {:induction false} PromotedOnce(steps: Steps, k: nat)
    ensures k > 0 ==> Promotions(steps, k) >= 1
  {
    if k <= 1 {
    } else {
      PromotedOnce(steps, k - 1);
    }
  }

  /** Rounds are promotions and stale rounds, fewer than the limit before each promotion. */
  lemma {:induction false} RoundsCounted(config: LoopConfig, steps: Steps, stops: Stops, r: nat, k: nat)
    requires k > 0 && RanOn(config, steps, stops, r, k)
    ensures Promotions(steps, r + k) >= 1 && After(FRESH, steps, r + k).stale >= 0
    ensures k > 1 ==> config.maxStaleRounds >= 1
    ensures k - 1 <= Worth(Promotions(steps, r + k) - 1, config.maxStaleRounds) + After(FRESH, steps, r + k).stale
  {
    PromotedOnce(steps, r + k);
    AfterTracks(steps, r + k);
    hide Metrics;
    if k == 1 {
      WorthGrows(0, Promotions(steps, r + k) - 1, config.maxStaleRounds);
    } else {
      var before, now := After(FRESH, steps, r + k - 1), After(FRESH, steps, r + k);
      assert Promotions(steps, r + k) == Promotions(steps, r + k - 1) + if now.stale == 0 then 1 else 0;
      assert now.stale == 0 || now.stale == before.stale + 1;
      AfterAdds(steps, r, k - 1);
      assert GoesOn(config, After(FRESH, steps, r), steps, stops, k - 1);
      assert before.stale < config.maxStaleRounds;
      hide Worth, Promotions, After, GoesOn, Tracks;
      RoundsCounted(config, steps, stops, r, k - 1);
      WorthNext(Promotions(steps, r + k - 1), config.maxStaleRounds);
    }
  }

  /** If the metrics, substitutes included, take at most V values, every call of the loop, first
      or later, runs at most V * max(max_stale_rounds, 0) + 1 rounds, whatever stops it. */
  lemma RoundsBounded(config: LoopConfig, steps: Steps, stops: Stops, r: nat, k: nat, values: set<real>)
    requires RanOn(config, steps, stops, r, k) && Within(Metrics(steps, r + k), values)
    ensures k <= Worth(|values|, config.maxStaleRounds) + 1
  {
    WorthGrows(0, |values|, config.maxStaleRounds);
    if k > 1 {
      RoundsCounted(config, steps, stops, r, k);
      RoundsCounted(config, steps, stops, r, k - 1);
      PromotionsBounded(steps, r + k, values);
      Subset(UpTo(values, After(FRESH, steps, r + k).best.value), values);
      assert GoesOn(config, After(FRESH, steps, r), steps, stops, k - 1);
      AfterAdds(steps, r, k - 1);
      WorthNext(Promotions(steps, r + k), config.maxStaleRounds);
      WorthGrows(Promotions(steps, r + k), |values|, config.maxStaleRounds);
    }
  }

  // ----- When it ends ------------------------------------------------------------------------

  /** After n rounds come m that do not beat them. */
  predicate PlateauAfter(steps: Steps, n: nat, m: nat) {
    n > 0 && NoneBeats(Metrics(steps, n + m), n)
  }

  lemma StopsThere(config: LoopConfig, steps: Steps, stops: Stops, r: nat, k: nat)
    ensures GoesOn(config, After(FRESH, steps, r), steps, stops, k) <==>
            && !stops(r + k) && !MaxRoundsReached(config, r + k)
            && (k == 0 || After(FRESH, steps, r + k).stale < config.maxStaleRounds)
  {
    AfterAdds(steps, r, k);
    RoundsAdd(FRESH, steps, r + k);
  }

  /** After a round, the loop has found its plateau exactly if the last m metrics are one. */
  lemma PlateauFound(steps: Steps, k: nat, limit: int, m: nat)
    requires k > 0 && m == if limit < 0 then 0 else limit
    ensures After(FRESH, steps, k).stale >= limit <==> k > m && PlateauAfter(steps, k - m, m)
  {
    AfterTracks(steps, k);
    if k > m {
      StaleIff(steps, k, k - m);
    }
    hide NoneBeats, After, Metrics;
  }

  lemma EndsIfLimited(config: LoopConfig, s: Loop, steps: Steps, stops: Stops)
    requires config.maxRounds.Some?
    ensures Ends(config, s, steps, stops)
  {
    var k: nat := if config.maxRounds.value > s.rounds then config.maxRounds.value - s.rounds else 0;
    RoundsAdd(s, steps, k);
    assert !GoesOn(config, s, steps, stops, k);
  }

  /** A call of the loop, first or later, ends exactly if rounds are limited, a stop is
      requested, or some round of it completes a stretch of max_stale_rounds metrics that do
      not beat the ones before. */
  lemma EndsIff(config: LoopConfig, steps: Steps, stops: Stops, r: nat, m: nat)
    requires m == if config.maxStaleRounds < 0 then 0 else config.maxStaleRounds
    ensures Ends(config, After(FRESH, steps, r), steps, stops) <==>
            || config.maxRounds.Some?
            || (exists k :: k >= r && stops(k))
            || (exists n: nat :: n + m > r && PlateauAfter(steps, n, m))
  {
    hide GoesOn, NoneBeats, After;
    var s := After(FRESH, steps, r);
    if config.maxRounds.Some? {
      EndsIfLimited(config, s, steps, stops);
    } else if k :| k >= r && stops(k) {
      StopsThere(config, steps, stops, r, k - r);
    } else if n: nat :| n + m > r && PlateauAfter(steps, n, m) {
      var k: nat := n + m - r;
      StopsThere(config, steps, stops, r, k);
      PlateauFound(steps, r + k, config.maxStaleRounds, m);
    } else {
      forall end: nat ensures GoesOn(config, s, steps, stops, end) {
        StopsThere(config, steps, stops, r, end);
        if end > 0 {
          PlateauFound(steps, r + end, config.maxStaleRounds, m);
        }
      }
    }
  }

  /** So it ends if the metrics come from a finite set, or if the number of rounds is limited. */
  lemma EndsIfFinite(config: LoopConfig, steps: Steps, stops: Stops, r: nat, values: set<real>)
    requires forall k :: Within(Metrics(steps, k), values)
    ensures Ends(config, After(FRESH, steps, r), steps, stops)
  {
    var k := Worth(|values|, config.maxStaleRounds) + 2;
    WorthGrows(0, |values|, config.maxStaleRounds);
    if RanOn(config, steps, stops, r, k) {
      RoundsBounded(config, steps, stops, r, k, values);
    }
  }

  /** Metrics that grow from round to round keep it going for ever. */
  lemma {:induction false} GrowingGoesOn(config: LoopConfig, steps: Steps, stops: Stops, k: nat)
    requires config.maxStaleRounds >= 1 && config.maxRounds.None? && forall n :: !stops(n)
    requires forall n :: n >= 1 ==> steps(n).Some?
    requires forall i, j :: 1 <= i < j ==> steps(i).value < steps(j).value
    ensures GoesOn(config, FRESH, steps, stops, k)
    ensures k > 0 ==> After(FRESH, steps, k) == Loop(steps(k), 0, k)
  {
    if k == 0 {
    } else {
      GrowingGoesOn(config, steps, stops, k - 1);
    }
  }
}
