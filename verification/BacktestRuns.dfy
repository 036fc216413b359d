/** Properties of pairs of simulations: no look-ahead, and scaling of capital or prices. */
module BacktestRuns {
  import opened Wrappers
  import opened Reals
  import opened Backtest
  import opened BacktestMoney

  // ----- No look-ahead ----------------------------------------------------------

  /** The loop state after the first k candles, or the error that stopped it. */
  function AccountAfter<F>(config: Config, strategy: Strategy<F>, candles: seq<Candle>, features: seq<F>, k: nat): Result<Account, string>
    requires 0 < k <= |candles|
  {
    var directions :- Directions(strategy, candles, features, k);
    Success(Fold(config, Start(config, candles[0].openedAt), Bars(candles[..k], directions)))
  }

  lemma ClipOfClip<T>(s: seq<T>, i: nat, k: nat)
    requires i <= k
    ensures Clip(Clip(s, k), i) == Clip(s, i)
  {}

  lemma {:induction false} DirectionsSeeOnlyPrefix<F>(
    strategy: Strategy<F>, c1: seq<Candle>, f1: seq<F>, c2: seq<Candle>, f2: seq<F>, k: nat, i: nat)
    requires i <= k <= |c1| && k <= |c2|
    requires c1[..k] == c2[..k] && Clip(f1, k) == Clip(f2, k)
    ensures Directions(strategy, c1, f1, i) == Directions(strategy, c2, f2, i)
  {
    if i == 0 {
    } else {
      DirectionsSeeOnlyPrefix(strategy, c1, f1, c2, f2, k, i - 1);
      assert c1[..i] == c1[..k][..i] == c2[..i];
      ClipOfClip(f1, i, k);
      ClipOfClip(f2, i, k);
    }
  }

  /** Simulations that agree on the first k candles and features are in the same state, or
      have failed with the same error, after step k: later data cannot have been used. */
  lemma NoLookAhead<F>(
    config: Config, strategy: Strategy<F>, c1: seq<Candle>, f1: seq<F>, c2: seq<Candle>, f2: seq<F>, k: nat)
    requires 0 < k <= |c1| && k <= |c2|
    requires c1[..k] == c2[..k] && Clip(f1, k) == Clip(f2, k)
    ensures AccountAfter(config, strategy, c1, f1, k) == AccountAfter(config, strategy, c2, f2, k)
  {
    DirectionsSeeOnlyPrefix(strategy, c1, f1, c2, f2, k, k);
    assert c1[0] == c1[..k][0] == c2[0];
  }

  lemma WorstOnlyGrows(a: Account, close: real)
    ensures a.maxDd <= Marked(a, close).maxDd && a.peak <= Marked(a, close).peak
  {}

  lemma {:induction false} FoldExtends(config: Config, start: Account, bars: seq<Bar>, k: nat)
    requires k <= |bars|
    ensures var early, late := Fold(config, start, bars[..k]), Fold(config, start, bars);
            && early.trades <= late.trades && early.maxDd <= late.maxDd && early.peak <= late.peak
  {
    if k == |bars| {
      assert bars[..k] == bars;
    } else {
      assert bars[..|bars| - 1][..k] == bars[..k];
      FoldExtends(config, start, bars[..|bars| - 1], k);
      hide WorstDrawdown, Gross, Pnl;
      WorstOnlyGrows(Act(config, Fold(config, start, bars[..|bars| - 1]), bars[|bars| - 1]), bars[|bars| - 1].candle.close);
    }
  }

  /** Trades closed by step k open the report of every extension, and its drawdown is no smaller. */
  lemma ReportExtendsPrefix<F>(config: Config, strategy: Strategy<F>, candles: seq<Candle>, features: seq<F>, k: nat)
    requires 0 < k <= |candles| && Simulated(config, candles, features, strategy).Success?
    ensures AccountAfter(config, strategy, candles, features, k).Success?
    ensures var early := AccountAfter(config, strategy, candles, features, k).value;
            var report := Simulated(config, candles, features, strategy).value;
            early.trades <= report.trades && early.maxDd <= report.maxDrawdownPct
  {
    var n := |candles|;
    var directions := Directions(strategy, candles, features, n).value;
    DirectionsPrefix(strategy, candles, features, k, n);
    BarsPrefix(candles, directions, k);
    FoldExtends(config, Start(config, candles[0].openedAt), Bars(candles, directions), k);
    hide Fold, Directions, WinRate, TotalReturn, FinalCapital;
  }

  // ----- Scaling the initial capital ------------------------------------------

  function ScaleTrade(t: Trade, k: real): Trade {
    t.(quantity := t.quantity * k, pnl := t.pnl * k)
  }

  function ScaleTrades(trades: seq<Trade>, k: real): seq<Trade> {
    seq(|trades|, i requires 0 <= i < |trades| => ScaleTrade(trades[i], k))
  }

  function ScaleAccount(a: Account, k: real): Account {
    a.(capital := a.capital * k, quantity := a.quantity * k, trades := ScaleTrades(a.trades, k), peak := a.peak * k)
  }

  function ScaleConfig(config: Config, k: real): Config {
    config.(initialCapital := config.initialCapital * k)
  }

  function ScaleReport(r: Report, k: real): Report {
    r.(config := ScaleConfig(r.config, k), initialCapital := r.initialCapital * k,
       finalCapital := r.finalCapital * k, trades := ScaleTrades(r.trades, k))
  }

  lemma ScaleQuotient(x: real, k: real, y: real)
    requires y != 0.0
    ensures x * k / y == x / y * k
  {
    QuotientTimes(x, y);
    QuotientTimes(x * k, y);
    Cancel(x * k / y, x / y * k, y);
  }

  lemma ScaledQuotient(x: real, y: real, k: real)
    requires y != 0.0 && k != 0.0
    ensures y * k != 0.0 && x * k / (y * k) == x / y
  {
    QuotientTimes(x, y);
    QuotientTimes(x * k, y * k);
    Cancel(x * k / (y * k), x / y, y * k);
  }

  lemma ScaleClosing(quantity: real, scaled: real, entry: real, exit: real, feePct: real, k: real)
    requires scaled == quantity * k
    ensures Gross(scaled, exit, feePct) == Gross(quantity, exit, feePct) * k
    ensures Pnl(scaled, entry, exit, feePct) == Pnl(quantity, entry, exit, feePct) * k
  {}

  lemma ScaleClosingTrade(config: Config, a: Account, c: Candle, k: real)
    ensures ScaleTrades(a.trades + [ClosingTrade(config, a, c)], k)
         == ScaleTrades(a.trades, k) + [ClosingTrade(ScaleConfig(config, k), ScaleAccount(a, k), c)]
    ensures Gross(ScaleAccount(a, k).quantity, c.close, config.feePct) == Gross(a.quantity, c.close, config.feePct) * k
  {
    ScaleClosing(a.quantity, ScaleAccount(a, k).quantity, a.entryPrice, c.close, config.feePct, k);
    hide Gross, Pnl;
    assert ScaleTrade(ClosingTrade(config, a, c), k) == ClosingTrade(ScaleConfig(config, k), ScaleAccount(a, k), c);
    hide ClosingTrade, ScaleTrade;
  }

  lemma ScaleAct(config: Config, a: Account, bar: Bar, k: real)
    ensures Act(ScaleConfig(config, k), ScaleAccount(a, k), bar) == ScaleAccount(Act(config, a, bar), k)
  {
    ScaleQuotient(a.capital, k, bar.candle.close);
    ScaleClosingTrade(config, a, bar.candle, k);
    hide ClosingTrade, ScaleTrades, Gross;
  }

  lemma ScaleOrder(x: real, y: real, k: real)
    requires k > 0.0
    ensures x < y <==> x * k < y * k
  {
    if x < y {
      ProductPositive(y - x, k);
    } else {
      ProductMonotone(y, x, k);
    }
  }

  lemma ScalePeak(peak: real, mark: real, peak': real, mark': real, k: real)
    requires k > 0.0 && peak' == peak * k && mark' == mark * k
    ensures Max(peak', mark') == Max(peak, mark) * k
  {
    ScaleOrder(peak, mark, k);
  }

  lemma ScaleDrawdown(peak: real, mark: real, k: real)
    requires peak > 0.0 && k > 0.0 && peak * k > 0.0
    ensures Drawdown(peak * k, mark * k) == Drawdown(peak, mark)
  {
    ScaledQuotient(peak - mark, peak, k);
    assert (peak - mark) * k == peak * k - mark * k;
  }

  lemma ScaleWorst(maxDd: real, peak: real, mark: real, peak': real, mark': real, k: real)
    requires k > 0.0 && peak' == peak * k && mark' == mark * k
    ensures WorstDrawdown(maxDd, peak', mark') == WorstDrawdown(maxDd, peak, mark)
  {
    ScaleOrder(0.0, peak, k);
    if peak > 0.0 {
      ScaleDrawdown(peak, mark, k);
    }
    hide Drawdown;
  }

  lemma ScaleMark(a: Account, close: real, k: real)
    ensures Mark(ScaleAccount(a, k), close) == Mark(a, close) * k
  {}

  lemma ScaleMarked(a: Account, close: real, k: real)
    requires k > 0.0
    ensures Marked(ScaleAccount(a, k), close) == ScaleAccount(Marked(a, close), k)
  {
    hide Mark, Max, WorstDrawdown, ScaleTrades;
    var b := ScaleAccount(a, k);
    var mark, mark' := Mark(a, close), Mark(b, close);
    ScaleMark(a, close, k);
    ScalePeak(a.peak, mark, b.peak, mark', k);
    ScaleWorst(a.maxDd, Max(a.peak, mark), mark, Max(b.peak, mark'), mark', k);
  }

  lemma {:induction false} ScaleFold(config: Config, openedAt: real, bars: seq<Bar>, k: real)
    requires k > 0.0
    ensures Fold(ScaleConfig(config, k), Start(ScaleConfig(config, k), openedAt), bars)
         == ScaleAccount(Fold(config, Start(config, openedAt), bars), k)
  {
    if bars == [] {
    } else {
      var n := |bars| - 1;
      var before := Fold(config, Start(config, openedAt), bars[..n]);
      ScaleFold(config, openedAt, bars[..n], k);
      ScaleAct(config, before, bars[n], k);
      ScaleMarked(Act(config, before, bars[n]), bars[n].candle.close, k);
      hide Act, Marked;
    }
  }

  lemma {:induction false} ScaleWins(trades: seq<Trade>, k: real)
    requires k > 0.0
    ensures Wins(ScaleTrades(trades, k)) == Wins(trades)
  {
    if trades == [] {
    } else {
      var n := |trades| - 1;
      assert ScaleTrades(trades, k)[..n] == ScaleTrades(trades[..n], k);
      ScaleWins(trades[..n], k);
      ScaleOrder(0.0, trades[n].pnl, k);
    }
  }

  lemma ScaleReturn(initial: real, final: real, initial': real, final': real, k: real)
    requires k > 0.0 && (initial == 0.0 ==> final == 0.0)
    requires initial' == initial * k && final' == final * k
    ensures TotalReturn(initial', final') == TotalReturn(initial, final)
  {
    if initial != 0.0 {
      ScaledQuotient(final - initial, initial, k);
      assert (final - initial) * k == final * k - initial * k;
    }
  }

  lemma NothingFromNothing(config: Config, bars: seq<Bar>)
    requires bars != [] && config.initialCapital == 0.0
    ensures FinalCapital(config, Final(config, bars), LastCandle(bars)) == 0.0
  {
    var a := Final(config, bars);
    RunReconciles(config, bars[0].candle.openedAt, bars);
    assert Stake(a) == 0.0;
    if a.long {
      Cancel(a.quantity, 0.0, a.entryPrice);
    }
  }

  lemma ScaleFinalCapital(config: Config, a: Account, last: Candle, k: real)
    ensures FinalCapital(ScaleConfig(config, k), ScaleAccount(a, k), last) == FinalCapital(config, a, last) * k
  {
    ScaleClosing(a.quantity, ScaleAccount(a, k).quantity, a.entryPrice, last.close, config.feePct, k);
    hide Gross, Pnl;
    assert ScaleAccount(a, k).quantity * last.close == a.quantity * last.close * k;
    Distribute(k, ClosedCapital(config, a, last), a.quantity * last.close);
  }

  lemma ScaleWinRate(trades: seq<Trade>, k: real)
    requires k > 0.0
    ensures |ScaleTrades(trades, k)| == |trades|
    ensures WinRate(ScaleTrades(trades, k)) == WinRate(trades)
  {
    ScaleWins(trades, k);
  }

  lemma ScaleSummary(config: Config, a: Account, last: Candle, k: real)
    requires k > 0.0 && (config.initialCapital == 0.0 ==> FinalCapital(config, a, last) == 0.0)
    ensures Summary(ScaleConfig(config, k), ScaleAccount(a, k), last) == ScaleReport(Summary(config, a, last), k)
  {
    hide TotalReturn, Gross, ScaleTrades, FinalCapital, WinRate;
    var trades := AllTrades(config, a, last);
    ScaleClosingTrade(config, a, last, k);
    assert AllTrades(ScaleConfig(config, k), ScaleAccount(a, k), last) == ScaleTrades(trades, k);
    hide ClosingTrade, AllTrades;
    ScaleFinalCapital(config, a, last, k);
    ScaleWinRate(trades, k);
    ScaleReturn(config.initialCapital, FinalCapital(config, a, last), ScaleConfig(config, k).initialCapital,
                FinalCapital(ScaleConfig(config, k), ScaleAccount(a, k), last), k);
  }

  /** Multiplying the initial capital by k scales every amount of money and quantity by k and
      leaves return, drawdown, win rate and trade count fixed. */
  lemma CapitalScaling(config: Config, bars: seq<Bar>, k: real)
    requires bars != [] && k > 0.0
    ensures ReportOf(ScaleConfig(config, k), bars) == ScaleReport(ReportOf(config, bars), k)
  {
    hide Fold, Summary;
    ScaleFold(config, bars[0].candle.openedAt, bars, k);
    assert Final(ScaleConfig(config, k), bars) == ScaleAccount(Final(config, bars), k);
    if config.initialCapital == 0.0 {
      NothingFromNothing(config, bars);
    }
    ScaleSummary(config, Final(config, bars), LastCandle(bars), k);
  }

  // ----- Scaling the prices -------------------------------------------------------

  function RepriceBar(bar: Bar, c: real): Bar
    requires c > 0.0
  {
    ProductPositive(bar.candle.close, c);
    bar.(candle := bar.candle.(close := bar.candle.close * c))
  }

  function RepriceBars(bars: seq<Bar>, c: real): seq<Bar>
    requires c > 0.0
  {
    seq(|bars|, i requires 0 <= i < |bars| => RepriceBar(bars[i], c))
  }

  function RepriceTrade(t: Trade, c: real): Trade
    requires c > 0.0
  {
    t.(entry := t.entry * c, exit := t.exit * c, quantity := t.quantity / c)
  }

  function RepriceTrades(trades: seq<Trade>, c: real): seq<Trade>
    requires c > 0.0
  {
    seq(|trades|, i requires 0 <= i < |trades| => RepriceTrade(trades[i], c))
  }

  function RepriceAccount(a: Account, c: real): Account
    requires c > 0.0
  {
    a.(entryPrice := a.entryPrice * c, quantity := a.quantity / c, trades := RepriceTrades(a.trades, c))
  }

  function RepriceReport(r: Report, c: real): Report
    requires c > 0.0
  {
    r.(trades := RepriceTrades(r.trades, c))
  }

  lemma RepriceProduct(x: real, y: real, c: real)
    requires c != 0.0
    ensures x / c * (y * c) == x * y
  {
    QuotientTimes(x, c);
    assert x / c * (y * c) == x / c * c * y;
  }

  lemma RepriceOpenValue(quantity: real, close: real, quantity': real, close': real, c: real)
    requires c != 0.0 && quantity' == quantity / c && close' == close * c
    ensures quantity' * close' == quantity * close
  {
    RepriceProduct(quantity, close, c);
  }

  lemma RepriceQuotient(x: real, y: real, c: real)
    requires y > 0.0 && c > 0.0
    ensures y * c > 0.0 && x / (y * c) == x / y / c
  {
    ProductPositive(y, c);
    QuotientTimes(x, y);
    QuotientTimes(x / y, c);
    QuotientTimes(x, y * c);
    assert x / y / c * (y * c) == x / y / c * c * y;
    Cancel(x / (y * c), x / y / c, y * c);
  }

  lemma RepriceClosing(quantity: real, entry: real, exit: real, feePct: real, c: real)
    requires c > 0.0
    ensures Gross(quantity / c, exit * c, feePct) == Gross(quantity, exit, feePct)
    ensures Pnl(quantity / c, entry * c, exit * c, feePct) == Pnl(quantity, entry, exit, feePct)
  {
    RepriceProduct(quantity, exit, c);
    RepriceProduct(quantity, entry, c);
    var q := quantity / c;
    assert Gross(q, exit * c, feePct) == q * (exit * c) * (1.0 - feePct);
    assert Pnl(q, entry * c, exit * c, feePct) == q * (exit * c) - q * (entry * c) - q * (entry * c) * feePct;
    assert Pnl(quantity, entry, exit, feePct) == quantity * exit - quantity * entry - quantity * entry * feePct;
  }

  lemma RepriceClosingTrade(config: Config, a: Account, bar: Bar, c: real)
    requires c > 0.0
    ensures RepriceTrades(a.trades + [ClosingTrade(config, a, bar.candle)], c)
         == RepriceTrades(a.trades, c) + [ClosingTrade(config, RepriceAccount(a, c), RepriceBar(bar, c).candle)]
    ensures Gross(a.quantity / c, bar.candle.close * c, config.feePct) == Gross(a.quantity, bar.candle.close, config.feePct)
  {
    RepriceClosing(a.quantity, a.entryPrice, bar.candle.close, config.feePct, c);
    hide Gross, Pnl;
    assert RepriceTrade(ClosingTrade(config, a, bar.candle), c)
        == ClosingTrade(config, RepriceAccount(a, c), RepriceBar(bar, c).candle);
    hide ClosingTrade, RepriceTrade;
  }

  lemma RepriceAct(config: Config, a: Account, bar: Bar, c: real)
    requires c > 0.0
    ensures Act(config, RepriceAccount(a, c), RepriceBar(bar, c)) == RepriceAccount(Act(config, a, bar), c)
  {
    RepriceQuotient(a.capital, bar.candle.close, c);
    RepriceClosingTrade(config, a, bar, c);
    hide ClosingTrade, RepriceTrades, Gross;
  }

  lemma RepriceMarked(a: Account, bar: Bar, c: real)
    requires c > 0.0
    ensures Marked(RepriceAccount(a, c), RepriceBar(bar, c).candle.close)
         == RepriceAccount(Marked(a, bar.candle.close), c)
  {
    RepriceProduct(a.quantity, bar.candle.close, c);
    assert Mark(RepriceAccount(a, c), RepriceBar(bar, c).candle.close) == Mark(a, bar.candle.close);
    hide Mark, WorstDrawdown, RepriceTrades;
  }

  lemma {:induction false} RepriceFold(config: Config, openedAt: real, bars: seq<Bar>, c: real)
    requires c > 0.0
    ensures Fold(config, Start(config, openedAt), RepriceBars(bars, c))
         == RepriceAccount(Fold(config, Start(config, openedAt), bars), c)
  {
    if bars == [] {
      var start := Start(config, openedAt);
      assert RepriceAccount(start, c) == start;
    } else {
      hide Act, Marked, RepriceAccount;
      var n := |bars| - 1;
      var before := Fold(config, Start(config, openedAt), bars[..n]);
      assert RepriceBars(bars, c)[..n] == RepriceBars(bars[..n], c);
      assert RepriceBars(bars, c)[n] == RepriceBar(bars[n], c) && |RepriceBars(bars, c)| == n + 1;
      hide RepriceBars;
      RepriceFold(config, openedAt, bars[..n], c);
      RepriceAct(config, before, bars[n], c);
      RepriceMarked(Act(config, before, bars[n]), bars[n], c);
    }
  }

  lemma {:induction false} RepriceWins(trades: seq<Trade>, c: real)
    requires c > 0.0
    ensures Wins(RepriceTrades(trades, c)) == Wins(trades)
  {
    if trades == [] {
    } else {
      var n := |trades| - 1;
      assert RepriceTrades(trades, c)[..n] == RepriceTrades(trades[..n], c);
      RepriceWins(trades[..n], c);
    }
  }

  lemma RepriceSale(quantity: real, exit: real, quantity': real, exit': real, feePct: real, c: real)
    requires c > 0.0 && quantity' == quantity / c && exit' == exit * c
    ensures Gross(quantity', exit', feePct) == Gross(quantity, exit, feePct)
  {
    RepriceOpenValue(quantity, exit, quantity', exit', c);
  }

  lemma RepriceFinalCapital(config: Config, a: Account, bar: Bar, c: real)
    requires c > 0.0
    ensures FinalCapital(config, RepriceAccount(a, c), RepriceBar(bar, c).candle) == FinalCapital(config, a, bar.candle)
  {
    var b, last := RepriceAccount(a, c), RepriceBar(bar, c).candle;
    RepriceSale(a.quantity, bar.candle.close, b.quantity, last.close, config.feePct, c);
    RepriceOpenValue(a.quantity, bar.candle.close, b.quantity, last.close, c);
    hide Gross;
  }

  lemma RepriceWinRate(trades: seq<Trade>, c: real)
    requires c > 0.0
    ensures |RepriceTrades(trades, c)| == |trades|
    ensures WinRate(RepriceTrades(trades, c)) == WinRate(trades)
  {
    RepriceWins(trades, c);
  }

  lemma RepriceSummary(config: Config, a: Account, bar: Bar, c: real)
    requires c > 0.0
    ensures Summary(config, RepriceAccount(a, c), RepriceBar(bar, c).candle)
         == RepriceReport(Summary(config, a, bar.candle), c)
  {
    hide TotalReturn, Gross, RepriceTrades, WinRate;
    RepriceClosingTrade(config, a, bar, c);
    var trades, last := AllTrades(config, a, bar.candle), RepriceBar(bar, c).candle;
    assert AllTrades(config, RepriceAccount(a, c), last) == RepriceTrades(trades, c);
    RepriceFinalCapital(config, a, bar, c);
    hide AllTrades, FinalCapital, ClosingTrade;
    RepriceWinRate(trades, c);
  }

  /** Multiplying every close by c, signals held fixed, changes only the units of prices and
      quantities: money, return, drawdown, win rate and trade count stay. */
  lemma {:induction false} PriceScaling(config: Config, bars: seq<Bar>, c: real)
    requires bars != [] && c > 0.0
    ensures ReportOf(config, RepriceBars(bars, c)) == RepriceReport(ReportOf(config, bars), c)
  {
    hide Fold, Summary;
    RepriceFold(config, bars[0].candle.openedAt, bars, c);
    assert Final(config, RepriceBars(bars, c)) == RepriceAccount(Final(config, bars), c);
    RepriceSummary(config, Final(config, bars), bars[|bars| - 1], c);
  }
}
