/** BacktestEngine.run and walk_forward: the 30-candle guard and the fold windows. */
module WalkForward {
  import opened Wrappers
  import opened Reals
  import opened Backtest
  import opened BacktestMoney

  const MIN_CANDLES: nat := 30

  // The stored candles of the configured symbol and timeframe, the feature computer and the
  // registered strategies.
  datatype Engine<!F> = Engine(
    candles: seq<Candle>, compute: seq<Candle> -> seq<F>, strategies: map<string, Strategy<F>>)

  datatype Completed = Completed(symbol: string, strategyId: string, tradeCount: nat, totalReturnPct: real)

  predicate Within(c: Candle, start: real, end: real) {
    start <= c.openedAt <= end
  }

  /** The store's range query: both ends inclusive, order kept. */
  function InWindow(candles: seq<Candle>, start: real, end: real): seq<Candle> {
    if candles == [] then []
    else
      var front, last := candles[..|candles| - 1], candles[|candles| - 1];
      InWindow(front, start, end) + if Within(last, start, end) then [last] else []
  }

  /** Outer Failure: the source raises. Inner Failure: it answers an error. */
  function RunOutcome<F>(engine: Engine<F>, config: Config): Result<Result<Report, string>, string> {
    if config.strategyId !in engine.strategies then Failure("unknown strategy: " + config.strategyId)
    else
      var candles := InWindow(engine.candles, config.start, config.end);
      if |candles| < MIN_CANDLES then Success(Failure("not enough candles for backtest"))
      else
        var report :- Simulated(config, candles, engine.compute(candles), engine.strategies[config.strategyId]);
        Success(Success(report))
  }

  method Run<F>(engine: Engine<F>, config: Config)
    returns (outcome: Result<Result<Report, string>, string>, published: seq<Completed>)
    ensures outcome == RunOutcome(engine, config)
    ensures published == if outcome.Success? && outcome.value.Success?
                         then [Completed(config.symbol, config.strategyId, outcome.value.value.tradeCount,
                                         outcome.value.value.totalReturnPct)]
                         else []
  {
    published := [];
    if config.strategyId !in engine.strategies {
      return Failure("unknown strategy: " + config.strategyId), published;
    }
    var candles := InWindow(engine.candles, config.start, config.end);
    if |candles| < MIN_CANDLES {
      return Success(Failure("not enough candles for backtest")), published;
    }
    var result := Simulate(config, candles, engine.compute(candles), engine.strategies[config.strategyId]);
    if result.Failure? {
      return Failure(result.error), published;
    }
    var report := result.value;
    published := [Completed(config.symbol, config.strategyId, report.tradeCount, report.totalReturnPct)];
    outcome := Success(Success(report));
  }

  // ----- What a run sees ------------------------------------------------------------

  lemma {:induction false} InWindowConcat(a: seq<Candle>, b: seq<Candle>, start: real, end: real)
    ensures InWindow(a + b, start, end) == InWindow(a, start, end) + InWindow(b, start, end)
  {
    if b == [] {
      assert a + b == a;
    } else {
      var n := |b| - 1;
      InWindowConcat(a, b[..n], start, end);
      assert a + b == a + b[..n] + [b[n]];
      assert (a + b)[..|a| + n] == a + b[..n];
    }
  }

  /** A candle is in the window exactly if it opened from start to end, both included. */
  lemma InWindowOne(c: Candle, start: real, end: real)
    ensures InWindow([c], start, end) == if start <= c.openedAt && c.openedAt <= end then [c] else []
  {
    assert [c][..0] == [];
  }

  /** The positions of the candles that opened from start to end, both included. */
  function Inside(candles: seq<Candle>, start: real, end: real): set<nat> {
    set i: nat | i < |candles| && start <= candles[i].openedAt && candles[i].openedAt <= end
  }

  /** The range query keeps exactly those candles, each as often as it is stored; their order
      stays, since it works on a list piece by piece. */
  lemma {:induction false} InWindowExactly(candles: seq<Candle>, start: real, end: real, c: Candle)
    ensures multiset(InWindow(candles, start, end))[c]
         == if start <= c.openedAt && c.openedAt <= end then multiset(candles)[c] else 0
  {
    if candles == [] {
    } else {
      var n := |candles| - 1;
      InWindowExactly(candles[..n], start, end, c);
      assert candles == candles[..n] + [candles[n]];
    }
  }

  lemma InsideNext(candles: seq<Candle>, c: Candle, start: real, end: real)
    ensures |Inside(candles + [c], start, end)|
         == |Inside(candles, start, end)| + if start <= c.openedAt && c.openedAt <= end then 1 else 0
  {
    var all, n := candles + [c], |candles|;
    assert Inside(all, start, end)
        == Inside(candles, start, end) + if start <= c.openedAt && c.openedAt <= end then {n} else {};
  }

  lemma NothingInside(start: real, end: real)
    ensures Inside([], start, end) == {}
  {}

  /** The number of stored candles in the inclusive window of a fold. */
  function CountIn(candles: seq<Candle>, start: real, end: real): nat {
    |InWindow(candles, start, end)|
  }

  lemma {:induction false} CountIsInside(candles: seq<Candle>, start: real, end: real)
    ensures CountIn(candles, start, end) == |Inside(candles, start, end)|
  {
    hide Inside;
    if candles == [] {
      assert Inside(candles, start, end) == {} by {
        NothingInside(start, end);
      }
    } else {
      var n := |candles| - 1;
      CountIsInside(candles[..n], start, end);
      InsideNext(candles[..n], candles[n], start, end);
      assert candles == candles[..n] + [candles[n]];
    }
  }

  /** A run does not see candles outside its range: storing one more, or one less, anywhere
      changes nothing. */
  lemma OutsideCandlesDoNotMatter<F>(engine: Engine<F>, config: Config, a: seq<Candle>, c: Candle, b: seq<Candle>)
    requires engine.candles == a + [c] + b && !(config.start <= c.openedAt && c.openedAt <= config.end)
    ensures RunOutcome(engine, config) == RunOutcome(engine.(candles := a + b), config)
  {
    InWindowConcat(a + [c], b, config.start, config.end);
    InWindowConcat(a, [c], config.start, config.end);
    InWindowConcat(a, b, config.start, config.end);
    InWindowOne(c, config.start, config.end);
    assert InWindow([c], config.start, config.end) == [];
    hide Simulated, InWindow;
    assert InWindow(a + [c] + b, config.start, config.end) == InWindow(a + b, config.start, config.end);
  }

  /** A run is refused below 30 candles in its range, and else simulates all of them. */
  lemma RunNeedsThirty<F>(engine: Engine<F>, config: Config)
    requires config.strategyId in engine.strategies
    ensures var window := InWindow(engine.candles, config.start, config.end);
            if |window| < 30 then RunOutcome(engine, config) == Success(Failure("not enough candles for backtest"))
            else match Simulated(config, window, engine.compute(window), engine.strategies[config.strategyId])
                 case Success(report) => RunOutcome(engine, config) == Success(Success(report))
                 case Failure(error) => RunOutcome(engine, config) == Failure(error)
  {
    hide Simulated;
  }

  // ----- A run that ends long ---------------------------------------------------------

  function AlwaysBuy(candles: seq<Candle>, features: seq<int>): Result<string, string> {
    Success("BUY")
  }

  function TenAt(i: nat): Candle {
    Candle(i as real, 10.0)
  }

  /** Thirty stored candles that close at 10, and a strategy that always buys. */
  function FlatMarket(): Engine<int> {
    Engine(seq(30, i requires 0 <= i < 30 => TenAt(i)), candles => [], map["s" := AlwaysBuy])
  }

  lemma {:induction false} BuysThroughout(candles: seq<Candle>, features: seq<int>, n: nat)
    requires n <= |candles|
    ensures Directions(AlwaysBuy, candles, features, n).Success?
    ensures forall i :: 0 <= i < n ==> Directions(AlwaysBuy, candles, features, n).value[i] == Buy
  {
    if n == 0 {
    } else {
      BuysThroughout(candles, features, n - 1);
    }
  }

  lemma {:induction false} AllWithin(candles: seq<Candle>, start: real, end: real)
    requires forall i :: 0 <= i < |candles| ==> Within(candles[i], start, end)
    ensures InWindow(candles, start, end) == candles
  {
    if candles == [] {
    } else {
      AllWithin(candles[..|candles| - 1], start, end);
      assert candles == candles[..|candles| - 1] + [candles[|candles| - 1]];
    }
  }

  /** A run the engine accepts and reports wrongly: 30 candles at 10, one position bought for
      100 without fee and never sold, a final capital of 200. */
  lemma OpenRunReportsTwice(config: Config)
    requires config == Config("BTC/USDT", "s", 0.0, 29.0, 100.0, 0.0, None)
    ensures var outcome := RunOutcome(FlatMarket(), config);
            && outcome.Success? && outcome.value.Success?
            && outcome.value.value.finalCapital == 200.0 && outcome.value.value.totalReturnPct == 100.0
            && outcome.value.value.winRatePct == 0.0
  {
    var engine := FlatMarket();
    AllWithin(engine.candles, config.start, config.end);
    BuysThroughout(engine.candles, [], 30);
    var bars := Bars(engine.candles, Directions(AlwaysBuy, engine.candles, [], 30).value);
    assert BuysAtTen(bars);
    hide Directions, ReportOf, InWindow;
    FinalCapitalCountsOpenPositionTwice(config, bars);
  }

  // ----- Fold windows -------------------------------------------------------------

  function StepOf(config: Config, folds: nat): real
    requires folds > 0
  {
    (config.end - config.start) / folds as real
  }

  function FoldConfig(config: Config, folds: nat, fold: nat): Config
    requires folds > 0
  {
    var from := config.start + StepOf(config, folds) * fold as real;
    var seed := match config.seed case None => 0 case Some(s) => s;
    config.(start := from, end := from + StepOf(config, folds), seed := Some(seed + fold))
  }

  predicate LargeEnough<F>(engine: Engine<F>, config: Config) {
    CountIn(engine.candles, config.start, config.end) >= MIN_CANDLES
  }

  /** The folds below n whose window holds enough candles, in order. */
  function LargeFolds<F>(engine: Engine<F>, config: Config, folds: nat, n: nat): seq<nat>
    requires 0 < folds && n <= folds
  {
    if n == 0 then []
    else LargeFolds(engine, config, folds, n - 1)
           + if LargeEnough(engine, FoldConfig(config, folds, n - 1)) then [n - 1] else []
  }

  predicate Raises<F>(engine: Engine<F>, config: Config) {
    RunOutcome(engine, config).Failure?
  }

  /** The report of fold i is the simulation of its window. */
  predicate IsReportOf<F>(engine: Engine<F>, config: Config, report: Report) {
    RunOutcome(engine, config) == Success(Success(report))
  }

  /** `kept` holds the reports of exactly the large folds below n, in fold order. */
  predicate ReportsOf<F>(engine: Engine<F>, config: Config, folds: nat, n: nat, kept: seq<Report>)
    requires 0 < folds && n <= folds
  {
    var large := LargeFolds(engine, config, folds, n);
    && |kept| == |large|
    && forall j :: 0 <= j < |large| ==> IsReportOf(engine, FoldConfig(config, folds, large[j]), kept[j])
  }

  lemma AnswersIfLarge<F>(engine: Engine<F>, config: Config)
    requires !Raises(engine, config)
    ensures RunOutcome(engine, config).value.Success? <==> LargeEnough(engine, config)
  {
    hide Simulated;
  }

  /** A fold keeps everything but the window and the seed, which it numbers from the
      configured one, or 0. */
  lemma FoldIdentity(config: Config, folds: nat, fold: nat)
    requires folds > 0
    ensures var f := FoldConfig(config, folds, fold);
            && f == config.(start := f.start, end := f.end, seed := f.seed)
            && f.seed == Some(fold + if config.seed.Some? then config.seed.value else 0)
  {}

  /** Results are the reports of exactly the folds with at least 30 candles, in fold order,
      unless a fold raises, in which case the first such fold's error escapes. */
  method RunFolds<F>(engine: Engine<F>, config: Config, folds: int)
    returns (results: Result<seq<Report>, string>, published: seq<Completed>)
    ensures folds == 0 ==> results == Failure("division by zero")
    ensures folds < 0 ==> results == Success([])
    ensures folds > 0 && results.Success? ==>
              && (forall i: nat :: i < folds ==> !Raises(engine, FoldConfig(config, folds, i)))
              && ReportsOf(engine, config, folds, folds, results.value)
    ensures results.Success? ==>
              && |published| == |results.value|
              && forall j :: 0 <= j < |published| ==>
                   published[j] == Completed(config.symbol, config.strategyId, results.value[j].tradeCount,
                                             results.value[j].totalReturnPct)
    ensures folds > 0 && results.Failure? ==>
              exists i: nat ::
                && i < folds && RunOutcome(engine, FoldConfig(config, folds, i)) == Failure(results.error)
                && forall j: nat :: j < i ==> !Raises(engine, FoldConfig(config, folds, j))
  {
    published := [];
    if folds == 0 {
      return Failure("division by zero"), published;
    }
    if folds < 0 {
      return Success([]), published;
    }
    var kept: seq<Report> := [];
    for fold := 0 to folds
      invariant forall i: nat :: i < fold ==> !Raises(engine, FoldConfig(config, folds, i))
      invariant ReportsOf(engine, config, folds, fold, kept)
      invariant |published| == |kept|
      invariant forall j :: 0 <= j < |kept| ==>
                  published[j] == Completed(config.symbol, config.strategyId, kept[j].tradeCount, kept[j].totalReturnPct)
    {
      hide RunOutcome, FoldConfig, LargeEnough;
      FoldIdentity(config, folds, fold);
      var outcome, events := Run(engine, FoldConfig(config, folds, fold));
      published := published + events;
      if outcome.Failure? {
        return Failure(outcome.error), published;
      }
      AnswersIfLarge(engine, FoldConfig(config, folds, fold));
      if outcome.value.Success? {
        kept := kept + [outcome.value.value];
      }
    }
    results := Success(kept);
  }

  /** The i-th instant dividing [start, end] into equal folds. */
  function Boundary(config: Config, folds: nat, i: nat): real
    requires folds > 0
  {
    config.start + StepOf(config, folds) * i as real
  }

  /** Windows run from boundary to boundary, from start to end. */
  lemma WindowEnds(config: Config, folds: nat, i: nat)
    requires folds > 0
    ensures FoldConfig(config, folds, i).start == Boundary(config, folds, i)
    ensures FoldConfig(config, folds, i).end == Boundary(config, folds, i + 1)
    ensures Boundary(config, folds, 0) == config.start
    ensures Boundary(config, folds, folds) == config.end
  {
    var step := StepOf(config, folds);
    QuotientTimes(config.end - config.start, folds as real);
    assert step * folds as real == config.end - config.start;
    OneMore(step, i);
    assert step * 0 as real == 0.0;
    hide StepOf;
  }

  lemma BoundariesIncrease(config: Config, folds: nat, i: nat, j: nat)
    requires folds > 0 && config.start < config.end && i < j
    ensures Boundary(config, folds, i) < Boundary(config, folds, j)
  {
    QuotientPositive(config.end - config.start, folds as real);
    ProductPositive(StepOf(config, folds), (j - i) as real);
    hide StepOf;
    Distribute(StepOf(config, folds), i as real, (j - i) as real);
  }

  predicate InFold(config: Config, folds: nat, i: nat, t: real)
    requires folds > 0
  {
    Boundary(config, folds, i) <= t <= Boundary(config, folds, i + 1)
  }

  lemma {:induction false} SomeFoldHolds(config: Config, folds: nat, n: nat, t: real) returns (i: nat)
    requires folds > 0 && 0 < n && Boundary(config, folds, 0) <= t <= Boundary(config, folds, n)
    ensures i < n && InFold(config, folds, i, t)
  {
    if n == 1 || t >= Boundary(config, folds, n - 1) {
      i := n - 1;
    } else {
      i := SomeFoldHolds(config, folds, n - 1, t);
    }
  }

  /** The windows cover [start, end] and nothing else; two different windows share an instant
      only when they are consecutive, and then exactly their common boundary. */
  lemma FoldsCover(config: Config, folds: nat, t: real)
    requires folds > 0 && config.start < config.end
    ensures config.start <= t <= config.end <==> exists i: nat :: i < folds && InFold(config, folds, i, t)
    ensures forall i: nat, j: nat :: i < j < folds && InFold(config, folds, i, t) && InFold(config, folds, j, t)
              ==> j == i + 1 && t == Boundary(config, folds, j)
    ensures forall j: nat :: 0 < j < folds && t == Boundary(config, folds, j)
              ==> InFold(config, folds, j - 1, t) && InFold(config, folds, j, t)
  {
    WindowEnds(config, folds, 0);
    hide Boundary;
    if config.start <= t <= config.end {
      var i := SomeFoldHolds(config, folds, folds, t);
    }
    forall i: nat | i < folds && InFold(config, folds, i, t) ensures config.start <= t <= config.end {
      if i > 0 {
        BoundariesIncrease(config, folds, 0, i);
      }
      if i + 1 < folds {
        BoundariesIncrease(config, folds, i + 1, folds);
      }
    }
    forall i: nat, j: nat | i < j < folds && InFold(config, folds, i, t) && InFold(config, folds, j, t)
      ensures j == i + 1 && t == Boundary(config, folds, j)
    {
      if i + 1 < j {
        BoundariesIncrease(config, folds, i + 1, j);
      }
    }
    forall j: nat | 0 < j < folds && t == Boundary(config, folds, j)
      ensures InFold(config, folds, j - 1, t) && InFold(config, folds, j, t)
    {
      BoundariesIncrease(config, folds, j - 1, j);
      BoundariesIncrease(config, folds, j, j + 1);
    }
  }

  // ----- Counting candles over the folds ------------------------------------------

  lemma {:induction false} CountSplits(candles: seq<Candle>, a: real, b: real, c: real)
    requires a <= b <= c
    ensures CountIn(candles, a, b) + CountIn(candles, b, c) == CountIn(candles, a, c) + CountIn(candles, b, b)
  {
    if candles == [] {
    } else {
      CountSplits(candles[..|candles| - 1], a, b, c);
    }
  }

  /** Candles counted fold by fold over the first n folds. */
  function FoldTotal(candles: seq<Candle>, config: Config, folds: nat, n: nat): nat
    requires 0 < folds && n <= folds
  {
    if n == 0 then 0
    else FoldTotal(candles, config, folds, n - 1)
           + CountIn(candles, FoldConfig(config, folds, n - 1).start, FoldConfig(config, folds, n - 1).end)
  }

  /** Candles lying exactly on the boundaries 1 to n - 1. */
  function OnBoundaries(candles: seq<Candle>, config: Config, folds: nat, n: nat): nat
    requires 0 < folds
  {
    if n <= 1 then 0
    else OnBoundaries(candles, config, folds, n - 1)
           + CountIn(candles, Boundary(config, folds, n - 1), Boundary(config, folds, n - 1))
  }

  lemma {:induction false} FirstFoldsCount(candles: seq<Candle>, config: Config, folds: nat, n: nat)
    requires 0 < n <= folds && config.start < config.end
    ensures FoldTotal(candles, config, folds, n)
         == CountIn(candles, config.start, Boundary(config, folds, n)) + OnBoundaries(candles, config, folds, n)
  {
    WindowEnds(config, folds, n - 1);
    if n > 1 {
      FirstFoldsCount(candles, config, folds, n - 1);
      BoundariesIncrease(config, folds, 0, n - 1);
      BoundariesIncrease(config, folds, n - 1, n);
      CountSplits(candles, config.start, Boundary(config, folds, n - 1), Boundary(config, folds, n));
    } else {
      assert FoldTotal(candles, config, folds, 0) == 0;
    }
  }

  /** The fold counts sum to the whole range plus the candles on interior boundaries, which
      are counted twice. */
  lemma FoldCountsSum(candles: seq<Candle>, config: Config, folds: nat)
    requires folds > 0 && config.start < config.end
    ensures FoldTotal(candles, config, folds, folds)
         == CountIn(candles, config.start, config.end) + OnBoundaries(candles, config, folds, folds)
  {
    FirstFoldsCount(candles, config, folds, folds);
    WindowEnds(config, folds, folds);
  }
}
