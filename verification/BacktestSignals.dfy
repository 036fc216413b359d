/** Which signals act: positions, spans of trades and redundant signals. */
module BacktestSignals {
  import opened Wrappers
  import opened Backtest
  import opened Reals

  function DirectionsOf(bars: seq<Bar>): seq<Direction> {
    seq(|bars|, i requires 0 <= i < |bars| => bars[i].direction)
  }

  /** The last direction that is not HOLD; HOLD if there is none. */
  function LastSignal(ds: seq<Direction>): Direction {
    if ds == [] then Hold
    else if ds[|ds| - 1] != Hold then ds[|ds| - 1]
    else LastSignal(ds[..|ds| - 1])
  }

  /** A run is long exactly when its last signal is BUY, whatever the prices. */
  lemma {:induction false} LongIffLastSignalBuys(config: Config, openedAt: real, bars: seq<Bar>)
    ensures Fold(config, Start(config, openedAt), bars).long <==> LastSignal(DirectionsOf(bars)) == Buy
  {
    if bars == [] {
    } else {
      var n := |bars| - 1;
      LongIffLastSignalBuys(config, openedAt, bars[..n]);
      assert DirectionsOf(bars)[..n] == DirectionsOf(bars[..n]);
      hide Marked;
    }
  }

  // ----- Redundant signals ----------------------------------------------------

  predicate Redundant(previous: Direction, d: Direction) {
    (d == Buy && previous == Buy) || (d == Sell && previous != Buy)
  }

  /** Every BUY while long and every SELL while flat becomes HOLD. */
  function Normalise(ds: seq<Direction>): (r: seq<Direction>)
    ensures |r| == |ds|
  {
    if ds == [] then []
    else
      var front, d := ds[..|ds| - 1], ds[|ds| - 1];
      Normalise(front) + [if Redundant(LastSignal(front), d) then Hold else d]
  }

  function Signals(ds: seq<Direction>): seq<Direction> {
    if ds == [] then []
    else Signals(ds[..|ds| - 1]) + if ds[|ds| - 1] == Hold then [] else [ds[|ds| - 1]]
  }

  predicate Alternates(signals: seq<Direction>) {
    forall i :: 0 <= i < |signals| ==> signals[i] == if i % 2 == 0 then Buy else Sell
  }

  lemma {:induction false} NormaliseAlternates(ds: seq<Direction>)
    ensures Alternates(Signals(Normalise(ds)))
    ensures LastSignal(Normalise(ds)) == Buy <==> LastSignal(ds) == Buy
    ensures LastSignal(ds) == Buy <==> |Signals(Normalise(ds))| % 2 == 1
  {
    if ds == [] {
    } else {
      var front, r := ds[..|ds| - 1], Normalise(ds);
      NormaliseAlternates(front);
      assert r[..|r| - 1] == Normalise(front);
    }
  }

  lemma {:induction false} NormaliseIdempotent(ds: seq<Direction>)
    ensures Normalise(Normalise(ds)) == Normalise(ds)
  {
    if ds == [] {
    } else {
      var front, r := ds[..|ds| - 1], Normalise(ds);
      NormaliseIdempotent(front);
      NormaliseAlternates(front);
      assert r[..|r| - 1] == Normalise(front);
    }
  }

  lemma {:induction false} NormaliseKeepsAccount(config: Config, openedAt: real, candles: seq<Candle>, ds: seq<Direction>)
    requires |candles| == |ds|
    ensures Fold(config, Start(config, openedAt), Bars(candles, Normalise(ds)))
         == Fold(config, Start(config, openedAt), Bars(candles, ds))
  {
    if ds == [] {
    } else {
      var n := |ds| - 1;
      var kept, plain := Bars(candles, Normalise(ds)), Bars(candles, ds);
      NormaliseKeepsAccount(config, openedAt, candles[..n], ds[..n]);
      assert kept[..n] == Bars(candles[..n], Normalise(ds[..n]));
      assert plain[..n] == Bars(candles[..n], ds[..n]);
      LongIffLastSignalBuys(config, openedAt, plain[..n]);
      assert DirectionsOf(plain[..n]) == ds[..n];
      hide Marked, ClosingTrade, Gross;
    }
  }

  /** Removing the redundant signals changes nothing a simulation reports. */
  lemma {:induction false} NormalisePreservesReport(config: Config, candles: seq<Candle>, ds: seq<Direction>)
    requires |candles| == |ds| && candles != []
    ensures ReportOf(config, Bars(candles, Normalise(ds))) == ReportOf(config, Bars(candles, ds))
  {
    hide Fold, Summary, Normalise;
    var kept, plain := Bars(candles, Normalise(ds)), Bars(candles, ds);
    NormaliseKeepsAccount(config, candles[0].openedAt, candles, ds);
    assert Final(config, kept) == Final(config, plain);
    assert LastCandle(kept) == LastCandle(plain);
  }

  // ----- Spans of trades --------------------------------------------------------

  datatype Span = Span(entry: nat, exit: nat)
  datatype Legs = Legs(closed: seq<Span>, open: Option<nat>)

  /** The candles on which positions are opened and closed. */
  function LegsOf(ds: seq<Direction>): Legs {
    if ds == [] then Legs([], None)
    else
      var n := |ds| - 1;
      var legs := LegsOf(ds[..n]);
      match legs.open
      case None => if ds[n] == Buy then legs.(open := Some(n)) else legs
      case Some(entry) => if ds[n] == Sell then Legs(legs.closed + [Span(entry, n)], None) else legs
  }

  /** No d in ds[from..to]. */
  predicate Free(ds: seq<Direction>, from: nat, to: nat, d: Direction) {
    forall i :: from <= i < to && i < |ds| ==> ds[i] != d
  }

  /** Where the search for the k-th entry starts. */
  function SearchFrom(legs: Legs, k: nat): nat
    requires k <= |legs.closed|
  {
    if k == 0 then 0 else legs.closed[k - 1].exit + 1
  }

  /** The k-th entry is the first BUY after the previous exit, its exit the first SELL after it. */
  predicate FirstPair(ds: seq<Direction>, legs: Legs, k: nat)
    requires k < |legs.closed|
  {
    var from, s := SearchFrom(legs, k), legs.closed[k];
    && from <= s.entry < s.exit < |ds|
    && ds[s.entry] == Buy && Free(ds, from, s.entry, Buy)
    && ds[s.exit] == Sell && Free(ds, s.entry + 1, s.exit, Sell)
  }

  /** After the last exit: no BUY, or a first BUY with no SELL after it. */
  predicate LastLeg(ds: seq<Direction>, legs: Legs) {
    var from := SearchFrom(legs, |legs.closed|);
    match legs.open
    case None => from <= |ds| && Free(ds, from, |ds|, Buy)
    case Some(entry) =>
      && from <= entry < |ds| && ds[entry] == Buy && Free(ds, from, entry, Buy)
      && Free(ds, entry + 1, |ds|, Sell)
  }

  predicate FirstSignals(ds: seq<Direction>, legs: Legs) {
    (forall k :: 0 <= k < |legs.closed| ==> FirstPair(ds, legs, k)) && LastLeg(ds, legs)
  }

  lemma FirstPairExtends(ds: seq<Direction>, before: Legs, legs: Legs, k: nat)
    requires ds != [] && k < |before.closed| <= |legs.closed| && before.closed == legs.closed[..|before.closed|]
    requires FirstPair(ds[..|ds| - 1], before, k)
    ensures FirstPair(ds, legs, k)
  {
    assert legs.closed[k] == before.closed[k];
    assert SearchFrom(legs, k) == SearchFrom(before, k);
  }

  lemma LastLegExtends(ds: seq<Direction>, before: Legs, legs: Legs)
    requires ds != [] && LastLeg(ds[..|ds| - 1], before)
    requires var n := |ds| - 1;
             match before.open
             case None => legs == if ds[n] == Buy then before.(open := Some(n)) else before
             case Some(entry) => legs == if ds[n] == Sell then Legs(before.closed + [Span(entry, n)], None) else before
    ensures LastLeg(ds, legs)
    ensures |legs.closed| > |before.closed| ==> FirstPair(ds, legs, |before.closed|)
  {
    assert SearchFrom(legs, |before.closed|) == SearchFrom(before, |before.closed|);
  }

  lemma {:induction false} LegsAreFirstSignals(ds: seq<Direction>)
    ensures FirstSignals(ds, LegsOf(ds))
    ensures 2 * |LegsOf(ds).closed| + (if LegsOf(ds).open.Some? then 1 else 0) <= |ds|
  {
    if ds == [] {
    } else {
      var n := |ds| - 1;
      var before, legs := LegsOf(ds[..n]), LegsOf(ds);
      LegsAreFirstSignals(ds[..n]);
      hide LegsOf, Free;
      forall k | 0 <= k < |before.closed| ensures FirstPair(ds, legs, k) {
        FirstPairExtends(ds, before, legs, k);
      }
      LastLegExtends(ds, before, legs);
    }
  }

  predicate TradeOn(t: Trade, bars: seq<Bar>, entry: nat, exit: nat)
    requires entry < |bars| && exit < |bars|
  {
    && t.openedAt == bars[entry].candle.openedAt && t.entry == bars[entry].candle.close
    && t.closedAt == bars[exit].candle.openedAt && t.exit == bars[exit].candle.close
  }

  /** The account's trades and open entry are those of the legs. */
  predicate Follows(a: Account, bars: seq<Bar>, legs: Legs) {
    && |a.trades| == |legs.closed|
    && (forall k :: 0 <= k < |a.trades| ==>
          && legs.closed[k].entry < |bars| && legs.closed[k].exit < |bars|
          && TradeOn(a.trades[k], bars, legs.closed[k].entry, legs.closed[k].exit))
    && a.long == legs.open.Some?
    && (a.long ==>
          && legs.open.value < |bars|
          && a.entryAt == bars[legs.open.value].candle.openedAt
          && a.entryPrice == bars[legs.open.value].candle.close)
  }

  lemma MarkedKeepsTrades(a: Account, close: real)
    ensures Marked(a, close) == a.(peak := Marked(a, close).peak, maxDd := Marked(a, close).maxDd)
  {}

  lemma {:induction false} AccountFollowsLegs(config: Config, openedAt: real, bars: seq<Bar>)
    ensures Follows(Fold(config, Start(config, openedAt), bars), bars, LegsOf(DirectionsOf(bars)))
  {
    if bars == [] {
    } else {
      var n := |bars| - 1;
      AccountFollowsLegs(config, openedAt, bars[..n]);
      assert DirectionsOf(bars)[..n] == DirectionsOf(bars[..n]);
      hide Gross, Pnl, Marked;
      MarkedKeepsTrades(Act(config, Fold(config, Start(config, openedAt), bars[..n]), bars[n]), bars[n].candle.close);
    }
  }

  /** Trades run in disjoint, ordered index spans: each enters on the first BUY after the
      previous exit and leaves on the first SELL after its entry, or on the last candle. */
  lemma TradeStructure(config: Config, bars: seq<Bar>)
    requires bars != []
    ensures var legs, trades := LegsOf(DirectionsOf(bars)), AllTrades(config, Final(config, bars), LastCandle(bars));
            && FirstSignals(DirectionsOf(bars), legs)
            && Follows(Final(config, bars), bars, legs)
            && (forall k :: 0 <= k < |legs.closed| ==>
                  k < |trades| && TradeOn(trades[k], bars, legs.closed[k].entry, legs.closed[k].exit))
            && |trades| == |legs.closed| + (if legs.open.Some? then 1 else 0)
            && (legs.open.Some? ==> TradeOn(trades[|legs.closed|], bars, legs.open.value, |bars| - 1))
            && 2 * |trades| <= |bars| + 1
  {
    LegsAreFirstSignals(DirectionsOf(bars));
    AccountFollowsLegs(config, bars[0].candle.openedAt, bars);
    hide Fold, LegsOf, Gross, Pnl;
  }

  // ----- What the strategy is asked, and what its answers do -----------------------------

  /** What the strategy answers on candle i, shown all candles and features up to it. */
  function AnswerAt<F>(strategy: Strategy<F>, candles: seq<Candle>, features: seq<F>, i: nat): Result<string, string>
    requires i < |candles|
  {
    strategy(candles[..i + 1], if i + 1 <= |features| then features[..i + 1] else features)
  }

  /** BUY and SELL are taken at their word, every other answer is a HOLD. */
  predicate BarOf<F>(strategy: Strategy<F>, candles: seq<Candle>, features: seq<F>, bar: Bar, i: nat)
    requires i < |candles|
  {
    var answer := AnswerAt(strategy, candles, features, i);
    && bar.candle == candles[i] && answer.Success?
    && (bar.direction == Buy <==> answer.value == "BUY") && (bar.direction == Sell <==> answer.value == "SELL")
  }

  /** Candle i is the first one on which the strategy answers an error. */
  predicate FailsFirst<F>(strategy: Strategy<F>, candles: seq<Candle>, features: seq<F>, i: nat, error: string)
    requires i < |candles|
  {
    && AnswerAt(strategy, candles, features, i) == Failure(error)
    && forall j :: 0 <= j < i ==> AnswerAt(strategy, candles, features, j).Success?
  }

  /** The directions of the first n candles, or the first error, are the strategy's answers. */
  ghost predicate Follow<F>(strategy: Strategy<F>, candles: seq<Candle>, features: seq<F>, n: nat, ds: Result<seq<Direction>, string>)
    requires n <= |candles| && (ds.Success? ==> |ds.value| == n)
  {
    match ds
    case Success(ds) => forall i :: 0 <= i < n ==> BarOf(strategy, candles, features, Bar(candles[i], ds[i]), i)
    case Failure(error) => exists i: nat :: i < n && FailsFirst(strategy, candles, features, i, error)
  }

  lemma OneMoreAnswer<F>(strategy: Strategy<F>, candles: seq<Candle>, features: seq<F>, n: nat, ds: seq<Direction>)
    requires n < |candles| && |ds| == n && Follow(strategy, candles, features, n, Success(ds))
    ensures var answer := AnswerAt(strategy, candles, features, n);
            if answer.Success? then Follow(strategy, candles, features, n + 1, Success(ds + [DirectionOf(answer.value)]))
            else Follow(strategy, candles, features, n + 1, Failure(answer.error))
  {
    var answer := AnswerAt(strategy, candles, features, n);
    hide AnswerAt;
    if answer.Success? {
      assert BarOf(strategy, candles, features, Bar(candles[n], DirectionOf(answer.value)), n);
    } else {
      forall i | 0 <= i < n ensures AnswerAt(strategy, candles, features, i).Success? {
        assert BarOf(strategy, candles, features, Bar(candles[i], ds[i]), i);
      }
      assert FailsFirst(strategy, candles, features, n, answer.error);
    }
  }

  lemma StillFails<F>(strategy: Strategy<F>, candles: seq<Candle>, features: seq<F>, n: nat, error: string)
    requires n < |candles| && Follow(strategy, candles, features, n, Failure(error))
    ensures Follow(strategy, candles, features, n + 1, Failure(error))
  {
    hide FailsFirst;
  }

  lemma DirectionsNext<F>(strategy: Strategy<F>, candles: seq<Candle>, features: seq<F>, n: nat)
    requires n < |candles|
    ensures Directions(strategy, candles, features, n + 1)
         == match Directions(strategy, candles, features, n)
            case Failure(error) => Failure(error)
            case Success(ds) =>
              match AnswerAt(strategy, candles, features, n)
              case Failure(error) => Failure(error)
              case Success(signal) => Success(ds + [DirectionOf(signal)])
  {}

  lemma {:induction false} DirectionsAnswer<F>(strategy: Strategy<F>, candles: seq<Candle>, features: seq<F>, n: nat)
    requires n <= |candles|
    ensures Follow(strategy, candles, features, n, Directions(strategy, candles, features, n))
  {
    if n == 0 {
    } else {
      hide Follow, Directions, AnswerAt;
      DirectionsAnswer(strategy, candles, features, n - 1);
      DirectionsNext(strategy, candles, features, n - 1);
      match Directions(strategy, candles, features, n - 1) {
        case Success(ds) => OneMoreAnswer(strategy, candles, features, n - 1, ds);
        case Failure(error) => StillFails(strategy, candles, features, n - 1, error);
      }
    }
  }

  /** On candle i the strategy is shown all candles and features up to it and no later ones. A
      simulation reports what its answers do, or raises the first error among them. */
  lemma SimulationFollowsAnswers<F>(config: Config, candles: seq<Candle>, features: seq<F>, strategy: Strategy<F>)
    requires candles != []
    ensures match Simulated(config, candles, features, strategy)
            case Success(report) =>
              exists bars ::
                && |bars| == |candles| && report == ReportOf(config, bars)
                && forall i :: 0 <= i < |candles| ==> BarOf(strategy, candles, features, bars[i], i)
            case Failure(error) => exists i: nat :: i < |candles| && FailsFirst(strategy, candles, features, i, error)
  {
    DirectionsAnswer(strategy, candles, features, |candles|);
    var directions := Directions(strategy, candles, features, |candles|);
    hide Directions, ReportOf, BarOf, FailsFirst;
    if directions.Success? {
      var bars := Bars(candles, directions.value);
      assert forall i :: 0 <= i < |candles| ==> BarOf(strategy, candles, features, bars[i], i);
      assert |bars| == |candles|;
    }
  }

  // ----- The figures of the report --------------------------------------------------------

  function Winners(trades: seq<Trade>): set<nat> {
    set i: nat | i < |trades| && trades[i].pnl > 0.0
  }

  lemma {:induction false} WinsAreWinners(trades: seq<Trade>)
    ensures Wins(trades) == |Winners(trades)|
  {
    if trades == [] {
    } else {
      var n := |trades| - 1;
      WinsAreWinners(trades[..n]);
      assert Winners(trades) == Winners(trades[..n]) + if trades[n].pnl > 0.0 then {n} else {};
    }
  }

  /** The trade count and win rate are those of all trades, the forced close included; the
      return is the gain over the initial capital in percent. */
  lemma ReportFigures(config: Config, bars: seq<Bar>)
    requires bars != []
    ensures var r := ReportOf(config, bars);
            && r.config == config && r.initialCapital == config.initialCapital
            && r.trades == AllTrades(config, Final(config, bars), LastCandle(bars)) && r.tradeCount == |r.trades|
            && r.winRatePct * |r.trades| as real == |Winners(r.trades)| as real * 100.0
            && (r.trades == [] ==> r.winRatePct == 0.0)
            && (if config.initialCapital == 0.0 then r.totalReturnPct == r.finalCapital * 100.0
                else config.initialCapital * r.totalReturnPct == (r.finalCapital - config.initialCapital) * 100.0)
  {
    hide Fold, AllTrades, FinalCapital;
    var r := ReportOf(config, bars);
    WinsAreWinners(r.trades);
    hide Wins, Winners;
    if r.trades != [] {
      QuotientTimes(Wins(r.trades) as real, |r.trades| as real);
      assert r.winRatePct * |r.trades| as real == Wins(r.trades) as real / |r.trades| as real * |r.trades| as real * 100.0;
    }
    QuotientTimes(r.finalCapital - config.initialCapital, if config.initialCapital == 0.0 then 1.0 else config.initialCapital);
  }

  /** Every trade is a long one in the configured symbol. */
  lemma {:induction false} TradesAreLong(config: Config, openedAt: real, bars: seq<Bar>)
    ensures forall t :: t in Fold(config, Start(config, openedAt), bars).trades ==> t.symbol == config.symbol && t.side == "long"
  {
    if bars == [] {
    } else {
      var n := |bars| - 1;
      TradesAreLong(config, openedAt, bars[..n]);
      hide Gross, Pnl, Marked;
      MarkedKeepsTrades(Act(config, Fold(config, Start(config, openedAt), bars[..n]), bars[n]), bars[n].candle.close);
    }
  }
}
