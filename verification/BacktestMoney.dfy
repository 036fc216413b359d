/** Where the money of a simulation goes: compounding, fees, and the final capital. */
module BacktestMoney {
  import opened Reals
  import opened Backtest
  import opened BacktestSignals

  predicate Priced(trades: seq<Trade>) {
    forall i :: 0 <= i < |trades| ==> trades[i].entry > 0.0 && trades[i].exit > 0.0
  }

  /** What a trade multiplies the capital by. */
  function Factor(t: Trade, feePct: real): real
    requires t.entry > 0.0
  {
    t.exit / t.entry * (1.0 - feePct)
  }

  function Growth(trades: seq<Trade>, feePct: real): real
    requires Priced(trades)
  {
    if trades == [] then 1.0
    else Growth(trades[..|trades| - 1], feePct) * Factor(trades[|trades| - 1], feePct)
  }

  function SumPnl(trades: seq<Trade>): real {
    if trades == [] then 0.0 else SumPnl(trades[..|trades| - 1]) + trades[|trades| - 1].pnl
  }

  /** Value moved by price alone. */
  function Move(t: Trade): real {
    t.quantity * (t.exit - t.entry)
  }

  function SumMove(trades: seq<Trade>): real {
    if trades == [] then 0.0 else SumMove(trades[..|trades| - 1]) + Move(trades[|trades| - 1])
  }

  /** Capital at cost: the cash when flat, the entry notional when long. */
  function Stake(a: Account): real {
    if a.long then a.quantity * a.entryPrice else a.capital
  }

  predicate TradeOf(t: Trade, feePct: real) {
    && t.entry > 0.0 && t.exit > 0.0
    && t.pnl == Pnl(t.quantity, t.entry, t.exit, feePct)
  }

  predicate TradesOf(trades: seq<Trade>, feePct: real) {
    forall i :: 0 <= i < |trades| ==> TradeOf(trades[i], feePct)
  }

  /** The money invariant of the loop. */
  predicate Reconciles(config: Config, a: Account) {
    && (if a.long then a.capital == 0.0 && a.entryPrice > 0.0 else a.quantity == 0.0)
    && TradesOf(a.trades, config.feePct)
    && Stake(a) == config.initialCapital * Growth(a.trades, config.feePct)
    && SumPnl(a.trades) - (Stake(a) - config.initialCapital) == config.feePct * SumMove(a.trades)
  }

  lemma GrossIsStakeTimesFactor(quantity: real, entry: real, exit: real, feePct: real)
    requires entry > 0.0
    ensures Gross(quantity, exit, feePct) == quantity * entry * (exit / entry * (1.0 - feePct))
  {
    QuotientTimes(exit, entry);
    var keep := 1.0 - feePct;
    assert quantity * entry * (exit / entry * keep) == quantity * (exit / entry * entry) * keep;
  }

  lemma FeeOnMove(quantity: real, entry: real, exit: real, feePct: real)
    ensures Pnl(quantity, entry, exit, feePct) - (Gross(quantity, exit, feePct) - quantity * entry)
         == feePct * (quantity * (exit - entry))
  {}

  lemma AppendTrade(trades: seq<Trade>, t: Trade, feePct: real)
    requires TradesOf(trades, feePct) && TradeOf(t, feePct)
    ensures TradesOf(trades + [t], feePct)
    ensures Growth(trades + [t], feePct) == Growth(trades, feePct) * Factor(t, feePct)
    ensures SumPnl(trades + [t]) == SumPnl(trades) + t.pnl
    ensures SumMove(trades + [t]) == SumMove(trades) + Move(t)
  {
    assert (trades + [t])[..|trades|] == trades;
    hide Factor, Pnl, Move;
  }

  lemma Compound(x: real, growth: real, stake: real, factor: real)
    requires stake == x * growth
    ensures stake * factor == x * (growth * factor)
  {}

  /** The two facts one closing trade contributes. */
  lemma ClosingTradeFacts(config: Config, a: Account, c: Candle)
    requires a.long && a.entryPrice > 0.0
    ensures TradeOf(ClosingTrade(config, a, c), config.feePct)
    ensures Gross(a.quantity, c.close, config.feePct) == Stake(a) * Factor(ClosingTrade(config, a, c), config.feePct)
    ensures ClosingTrade(config, a, c).pnl - (Gross(a.quantity, c.close, config.feePct) - Stake(a))
         == config.feePct * Move(ClosingTrade(config, a, c))
  {
    GrossIsStakeTimesFactor(a.quantity, a.entryPrice, c.close, config.feePct);
    FeeOnMove(a.quantity, a.entryPrice, c.close, config.feePct);
    hide Gross, Pnl;
  }

  /** Closing a long account multiplies its stake by the trade's factor, and the reported
      profit overstates the change by the fee on the price move. */
  lemma ClosingReconciles(config: Config, a: Account, c: Candle)
    requires a.long && Reconciles(config, a)
    ensures TradesOf(a.trades + [ClosingTrade(config, a, c)], config.feePct)
    ensures Gross(a.quantity, c.close, config.feePct)
         == config.initialCapital * Growth(a.trades + [ClosingTrade(config, a, c)], config.feePct)
    ensures SumPnl(a.trades + [ClosingTrade(config, a, c)])
              - (Gross(a.quantity, c.close, config.feePct) - config.initialCapital)
         == config.feePct * SumMove(a.trades + [ClosingTrade(config, a, c)])
  {
    hide Gross, Factor, Move, Stake, ClosingTrade, Growth, SumPnl, SumMove;
    var t, fee := ClosingTrade(config, a, c), config.feePct;
    ClosingTradeFacts(config, a, c);
    AppendTrade(a.trades, t, fee);
    Compound(config.initialCapital, Growth(a.trades, fee), Stake(a), Factor(t, fee));
    Distribute(fee, SumMove(a.trades), Move(t));
  }

  lemma MarkedReconciles(config: Config, a: Account, close: real)
    requires Reconciles(config, a)
    ensures Reconciles(config, Marked(a, close))
  {
    hide Marked, Growth, SumPnl, SumMove, TradesOf;
    MarkedKeepsTrades(a, close);
  }

  lemma ActReconciles(config: Config, a: Account, bar: Bar)
    requires Reconciles(config, a)
    ensures Reconciles(config, Act(config, a, bar))
  {
    hide Gross, Pnl, Growth, SumPnl, SumMove;
    if a.long && bar.direction == Sell {
      ClosingReconciles(config, a, bar.candle);
    } else if !a.long && bar.direction == Buy {
      QuotientTimes(a.capital, bar.candle.close);
    }
  }

  lemma {:induction false} RunReconciles(config: Config, openedAt: real, bars: seq<Bar>)
    ensures Reconciles(config, Fold(config, Start(config, openedAt), bars))
  {
    if bars == [] {
    } else {
      var n := |bars| - 1;
      var before := Fold(config, Start(config, openedAt), bars[..n]);
      RunReconciles(config, openedAt, bars[..n]);
      ActReconciles(config, before, bars[n]);
      hide Act, Marked, Reconciles;
      MarkedReconciles(config, Act(config, before, bars[n]), bars[n].candle.close);
    }
  }

  /** For every price and signal sequence: capital after the last close is the initial
      capital compounded over the trades, and the reported profits exceed the capital gained
      by exactly the fee on the price moves. */
  lemma Reconciliation(config: Config, bars: seq<Bar>)
    requires bars != []
    ensures var a, last := Final(config, bars), LastCandle(bars);
            var trades, closed := AllTrades(config, a, last), ClosedCapital(config, a, last);
            && TradesOf(trades, config.feePct)
            && closed == config.initialCapital * Growth(trades, config.feePct)
            && SumPnl(trades) - (closed - config.initialCapital) == config.feePct * SumMove(trades)
  {
    hide Fold, Gross, Pnl, Growth, SumPnl, SumMove;
    RunReconciles(config, bars[0].candle.openedAt, bars);
    if Final(config, bars).long {
      ClosingReconciles(config, Final(config, bars), LastCandle(bars));
    }
  }

  // ----- The final capital as written -------------------------------------------

  lemma TradeFactorPositive(t: Trade, feePct: real)
    requires t.entry > 0.0 && t.exit > 0.0 && feePct < 1.0
    ensures Factor(t, feePct) > 0.0
  {
    QuotientPositive(t.exit, t.entry);
    ProductPositive(t.exit / t.entry, 1.0 - feePct);
  }

  lemma {:induction false} GrowthPositive(trades: seq<Trade>, feePct: real)
    requires Priced(trades) && feePct < 1.0
    ensures Growth(trades, feePct) > 0.0
  {
    if trades == [] {
    } else {
      var t := trades[|trades| - 1];
      GrowthPositive(trades[..|trades| - 1], feePct);
      TradeFactorPositive(t, feePct);
      hide Factor;
      ProductPositive(Growth(trades[..|trades| - 1], feePct), Factor(t, feePct));
    }
  }

  lemma StakePositive(config: Config, a: Account)
    requires Reconciles(config, a) && config.initialCapital > 0.0 && config.feePct < 1.0
    ensures Stake(a) > 0.0
    ensures a.long ==> a.quantity > 0.0
  {
    GrowthPositive(a.trades, config.feePct);
    ProductPositive(config.initialCapital, Growth(a.trades, config.feePct));
    if a.long {
      FactorPositive(a.quantity, a.entryPrice);
    }
  }

  lemma GrossOfNotional(quantity: real, price: real, feePct: real)
    ensures Gross(quantity, price, feePct) == quantity * price * (1.0 - feePct)
  {}

  /** The reported final capital is the reconciled one exactly when the last signal is not
      BUY. After a last BUY the open quantity is valued twice: the excess is its exit
      notional, which is the reconciled capital divided by 1 - fee. */
  lemma FinalCapitalReconcilesIff(config: Config, bars: seq<Bar>)
    requires bars != [] && config.initialCapital > 0.0 && config.feePct < 1.0
    ensures var report, last := ReportOf(config, bars), LastCandle(bars);
            var closed := ClosedCapital(config, Final(config, bars), last);
            && (report.finalCapital == closed <==> LastSignal(DirectionsOf(bars)) != Buy)
            && (LastSignal(DirectionsOf(bars)) == Buy ==>
                  && report.finalCapital - closed == Final(config, bars).quantity * last.close
                  && (report.finalCapital - closed) * (1.0 - config.feePct) == closed
                  && report.finalCapital > closed)
  {
    hide Fold, Reconciles, WinRate, AllTrades, TotalReturn, Gross, Stake;
    var a, last := Final(config, bars), LastCandle(bars);
    RunReconciles(config, bars[0].candle.openedAt, bars);
    LongIffLastSignalBuys(config, bars[0].candle.openedAt, bars);
    StakePositive(config, a);
    if a.long {
      ProductPositive(a.quantity, last.close);
      GrossOfNotional(a.quantity, last.close, config.feePct);
    }
  }

  /** Buys all along at a close that stays at 10. */
  predicate BuysAtTen(bars: seq<Bar>) {
    forall i :: 0 <= i < |bars| ==> bars[i].candle.close == 10.0 && bars[i].direction == Buy
  }

  lemma {:induction false} BuysOnce(config: Config, openedAt: real, bars: seq<Bar>)
    requires config.initialCapital == 100.0 && BuysAtTen(bars) && bars != []
    ensures Fold(config, Start(config, openedAt), bars)
         == Account(true, bars[0].candle.openedAt, 10.0, 0.0, 10.0, [], 100.0, 0.0)
  {
    var n, start := |bars| - 1, Start(config, openedAt);
    var front := bars[..n];
    var bought := Account(true, bars[0].candle.openedAt, 10.0, 0.0, 10.0, [], 100.0, 0.0);
    assert Fold(config, start, bars) == Step(config, Fold(config, start, front), bars[n]);
    assert Marked(bought, 10.0) == bought;
    if n == 0 {
      assert Fold(config, start, front) == start;
      assert Act(config, start, bars[0]) == bought;
    } else {
      BuysOnce(config, openedAt, front);
      assert Act(config, bought, bars[n]) == bought;
    }
  }

  /** Buying at a close that stays at 10, without fee: 100 is reported as 200, a gain of 100%
      with no win, however many candles there are. */
  lemma FinalCapitalCountsOpenPositionTwice(config: Config, bars: seq<Bar>)
    requires config.initialCapital == 100.0 && config.feePct == 0.0 && BuysAtTen(bars) && bars != []
    ensures ClosedCapital(config, Final(config, bars), LastCandle(bars)) == 100.0
    ensures ReportOf(config, bars).finalCapital == 200.0
    ensures ReportOf(config, bars).totalReturnPct == 100.0
    ensures ReportOf(config, bars).winRatePct == 0.0
  {
    BuysOnce(config, bars[0].candle.openedAt, bars);
    hide Fold;
    var t := ClosingTrade(config, Final(config, bars), LastCandle(bars));
    assert t.pnl == 0.0;
    assert [] + [t] == [t] && [t][..0] == [];
    assert Wins([t]) == 0;
  }

  // ----- Winning trades ---------------------------------------------------------

  predicate Sized(trades: seq<Trade>) {
    forall i :: 0 <= i < |trades| ==> trades[i].quantity > 0.0
  }

  lemma {:induction false} RunTradesAreSized(config: Config, openedAt: real, bars: seq<Bar>)
    requires config.initialCapital > 0.0 && config.feePct < 1.0
    ensures Sized(Fold(config, Start(config, openedAt), bars).trades)
  {
    if bars == [] {
    } else {
      var n := |bars| - 1;
      var before := Fold(config, Start(config, openedAt), bars[..n]);
      RunTradesAreSized(config, openedAt, bars[..n]);
      RunReconciles(config, openedAt, bars[..n]);
      hide Marked, Reconciles, Gross, Pnl;
      StakePositive(config, before);
      MarkedKeepsTrades(Act(config, before, bars[n]), bars[n].candle.close);
    }
  }

  lemma QuotientAbove(x: real, y: real, keep: real, factor: real)
    requires x > 0.0 && y > 0.0 && factor == x / y * keep && factor > 1.0
    ensures x * keep > y
  {
    QuotientTimes(x, y);
    ProductPositive(factor - 1.0, y);
    assert factor * y == x / y * y * keep;
  }

  /** A trade reports a profit exactly when the exit beats the entry by more than the fee. */
  lemma PnlSign(t: Trade, feePct: real)
    requires TradeOf(t, feePct) && t.quantity > 0.0
    ensures t.pnl > 0.0 <==> t.exit > t.entry * (1.0 + feePct)
  {
    var excess := t.exit - t.entry * (1.0 + feePct);
    assert t.pnl == excess * t.quantity;
    if excess > 0.0 {
      ProductPositive(excess, t.quantity);
    } else if t.pnl > 0.0 {
      FactorPositive(excess, t.quantity);
    }
  }

  lemma ExitBeatsBothFees(entry: real, exit: real, feePct: real)
    requires entry > 0.0 && exit > 0.0 && 0.0 <= feePct < 1.0 && exit * (1.0 - feePct) > entry
    ensures exit > entry * (1.0 + feePct)
  {
    ProductNonNegative(feePct, exit);
    ProductNonNegative(feePct, exit - entry);
  }

  /** A trade that grows the capital reports a profit. */
  lemma GrowingTradeWins(t: Trade, feePct: real)
    requires TradeOf(t, feePct) && t.quantity > 0.0 && 0.0 <= feePct < 1.0
    requires Factor(t, feePct) > 1.0
    ensures t.pnl > 0.0
  {
    PnlSign(t, feePct);
    hide Pnl;
    QuotientAbove(t.exit, t.entry, 1.0 - feePct, Factor(t, feePct));
    ExitBeatsBothFees(t.entry, t.exit, feePct);
  }

  lemma ProductAtMostOne(x: real, y: real)
    requires 0.0 <= x <= 1.0 && 0.0 <= y <= 1.0
    ensures x * y <= 1.0
  {
    ProductNonNegative(x, 1.0 - y);
  }

  /** Compounded growth above one needs a growing trade, which then counts as a win. */
  lemma {:induction false} GrowthNeedsWin(trades: seq<Trade>, feePct: real)
    requires TradesOf(trades, feePct) && Sized(trades) && 0.0 <= feePct < 1.0
    requires Growth(trades, feePct) > 1.0
    ensures Wins(trades) > 0
  {
    var front, t := trades[..|trades| - 1], trades[|trades| - 1];
    if Growth(front, feePct) > 1.0 {
      GrowthNeedsWin(front, feePct);
    } else {
      GrowthPositive(front, feePct);
      TradeFactorPositive(t, feePct);
      if Factor(t, feePct) <= 1.0 {
        ProductAtMostOne(Growth(front, feePct), Factor(t, feePct));
      } else {
        GrowingTradeWins(t, feePct);
      }
    }
  }

  lemma GrowthAboveOne(initial: real, growth: real, closed: real)
    requires initial > 0.0 && closed == initial * growth && closed > initial
    ensures growth > 1.0
  {
    FactorPositive(growth - 1.0, initial);
  }

  lemma ReturnSign(initial: real, final: real)
    requires initial > 0.0
    ensures TotalReturn(initial, final) > 0.0 <==> final > initial
  {
    var gain := (final - initial) / initial;
    assert gain * initial == final - initial;
    if gain > 0.0 {
      ProductPositive(gain, initial);
    }
  }

  lemma WinRatePositive(trades: seq<Trade>)
    requires Wins(trades) > 0
    ensures WinRate(trades) > 0.0
  {
    QuotientPositive(Wins(trades) as real, |trades| as real);
  }

  /** A run whose capital after the last close exceeds the initial capital has a positive win
      rate; so has one reported with a positive return, provided its last signal is not BUY. */
  lemma {:induction false} GainNeedsWin(config: Config, bars: seq<Bar>)
    requires bars != [] && config.initialCapital > 0.0 && 0.0 <= config.feePct < 1.0
    ensures ClosedCapital(config, Final(config, bars), LastCandle(bars)) > config.initialCapital
            ==> ReportOf(config, bars).winRatePct > 0.0
    ensures ReportOf(config, bars).totalReturnPct > 0.0 && LastSignal(DirectionsOf(bars)) != Buy
            ==> ReportOf(config, bars).winRatePct > 0.0
  {
    hide Fold, Gross, Pnl, Growth, Reconciles, Wins, TotalReturn, Stake, Signals;
    var a, last := Final(config, bars), LastCandle(bars);
    var trades, closed := AllTrades(config, a, last), ClosedCapital(config, a, last);
    Reconciliation(config, bars);
    RunReconciles(config, bars[0].candle.openedAt, bars);
    StakePositive(config, a);
    RunTradesAreSized(config, bars[0].candle.openedAt, bars);
    FinalCapitalReconcilesIff(config, bars);
    assert Sized(trades);
    ReturnSign(config.initialCapital, FinalCapital(config, a, last));
    hide ClosedCapital, AllTrades, FinalCapital;
    if closed > config.initialCapital {
      GrowthAboveOne(config.initialCapital, Growth(trades, config.feePct), closed);
      GrowthNeedsWin(trades, config.feePct);
      WinRatePositive(trades);
    }
  }
}
