/** The walk-through simulator of app/modules/backtest/application/engine.py. */
module Backtest {
  import opened Wrappers

  // Prices are exact and positive; instants are exact seconds.
  type Price = p: real | p > 0.0 witness 1.0

  datatype Direction = Buy | Sell | Hold

  datatype Candle = Candle(openedAt: real, close: Price)

  datatype Config = Config(
    symbol: string, strategyId: string, start: real, end: real,
    initialCapital: real, feePct: real, seed: Option<int>)

  datatype Trade = Trade(
    symbol: string, openedAt: real, closedAt: real, side: string,
    entry: real, exit: real, quantity: real, pnl: real)

  datatype Report = Report(
    config: Config, trades: seq<Trade>, initialCapital: real, finalCapital: real,
    totalReturnPct: real, maxDrawdownPct: real, winRatePct: real, tradeCount: nat)

  /** One step of the simulation: a candle and the direction chosen on it. */
  datatype Bar = Bar(candle: Candle, direction: Direction)

  /** The variables the loop carries from candle to candle. */
  datatype Account = Account(
    long: bool, entryAt: real, entryPrice: real, capital: real, quantity: real,
    trades: seq<Trade>, peak: real, maxDd: real)

  // A strategy sees a prefix of the candles and features and answers a signal or an error.
  type Strategy<!F> = (seq<Candle>, seq<F>) -> Result<string, string>

  function Max(x: real, y: real): real {
    if y > x then y else x
  }

  // ----- Directions -----------------------------------------------------------

  function DirectionOf(signal: string): Direction {
    if signal == "BUY" then Buy else if signal == "SELL" then Sell else Hold
  }

  /** `s[:n]` as the source slices it: past the end, the whole sequence. */
  function Clip<T>(s: seq<T>, n: nat): seq<T> {
    if n <= |s| then s[..n] else s
  }

  /** The directions of the first n candles, or the error of the first failing evaluation. */
  function Directions<F>(strategy: Strategy<F>, candles: seq<Candle>, features: seq<F>, n: nat): (r: Result<seq<Direction>, string>)
    requires n <= |candles|
    ensures r.Success? ==> |r.value| == n
  {
    if n == 0 then Success([])
    else
      var earlier :- Directions(strategy, candles, features, n - 1);
      var signal :- strategy(candles[..n], Clip(features, n));
      Success(earlier + [DirectionOf(signal)])
  }

  function Bars(candles: seq<Candle>, directions: seq<Direction>): seq<Bar>
    requires |candles| == |directions|
  {
    seq(|candles|, i requires 0 <= i < |candles| => Bar(candles[i], directions[i]))
  }

  // ----- The fold over the candles --------------------------------------------

  function Start(config: Config, openedAt: real): Account {
    Account(false, openedAt, 0.0, config.initialCapital, 0.0, [], config.initialCapital, 0.0)
  }

  /** Proceeds of a sale: the fee is charged on the exit notional. */
  function Gross(quantity: real, exit: real, feePct: real): real {
    quantity * exit * (1.0 - feePct)
  }

  /** Reported profit of a trade: the fee is charged on the entry notional. */
  function Pnl(quantity: real, entry: real, exit: real, feePct: real): real {
    (exit - entry) * quantity - entry * quantity * feePct
  }

  function ClosingTrade(config: Config, a: Account, c: Candle): Trade {
    Trade(config.symbol, a.entryAt, c.openedAt, "long", a.entryPrice, c.close, a.quantity,
          Pnl(a.quantity, a.entryPrice, c.close, config.feePct))
  }

  /** Open on BUY when flat, close on SELL when long, otherwise do nothing. */
  function Act(config: Config, a: Account, bar: Bar): Account {
    var c := bar.candle;
    if !a.long && bar.direction == Buy then
      a.(long := true, entryAt := c.openedAt, entryPrice := c.close, quantity := a.capital / c.close, capital := 0.0)
    else if a.long && bar.direction == Sell then
      a.(trades := a.trades + [ClosingTrade(config, a, c)], capital := Gross(a.quantity, c.close, config.feePct), quantity := 0.0, long := false)
    else a
  }

  function Mark(a: Account, close: real): real {
    if a.long then a.capital + a.quantity * close else a.capital
  }

  function Drawdown(peak: real, mark: real): real
    requires peak > 0.0
  {
    (peak - mark) / peak * 100.0
  }

  function WorstDrawdown(maxDd: real, peak: real, mark: real): real {
    if peak > 0.0 then Max(maxDd, Drawdown(peak, mark)) else maxDd
  }

  function Marked(a: Account, close: real): Account {
    var mark := Mark(a, close);
    var peak := Max(a.peak, mark);
    a.(peak := peak, maxDd := WorstDrawdown(a.maxDd, peak, mark))
  }

  function Step(config: Config, a: Account, bar: Bar): Account {
    Marked(Act(config, a, bar), bar.candle.close)
  }

  function Fold(config: Config, start: Account, bars: seq<Bar>): Account {
    if bars == [] then start
    else Step(config, Fold(config, start, bars[..|bars| - 1]), bars[|bars| - 1])
  }

  /** The account after the last candle, before the forced close. */
  function Final(config: Config, bars: seq<Bar>): Account
    requires bars != []
  {
    Fold(config, Start(config, bars[0].candle.openedAt), bars)
  }

  // ----- The report -------------------------------------------------------------

  function LastCandle(bars: seq<Bar>): Candle
    requires bars != []
  {
    bars[|bars| - 1].candle
  }

  /** Trades including the forced close of a position still open on the last candle. */
  function AllTrades(config: Config, a: Account, last: Candle): seq<Trade> {
    if a.long then a.trades + [ClosingTrade(config, a, last)] else a.trades
  }

  /** Capital once the last position, if any, has been closed. */
  function ClosedCapital(config: Config, a: Account, last: Candle): real {
    if a.long then Gross(a.quantity, last.close, config.feePct) else a.capital
  }

  /** As written, the forced close leaves position and quantity set, so the quantity is
      valued a second time here. */
  function FinalCapital(config: Config, a: Account, last: Candle): real {
    ClosedCapital(config, a, last) + if a.long then a.quantity * last.close else 0.0
  }

  function Wins(trades: seq<Trade>): nat {
    if trades == [] then 0
    else Wins(trades[..|trades| - 1]) + if trades[|trades| - 1].pnl > 0.0 then 1 else 0
  }

  function WinRate(trades: seq<Trade>): real {
    if trades == [] then 0.0 else Wins(trades) as real / |trades| as real * 100.0
  }

  function TotalReturn(initial: real, final: real): real {
    (final - initial) / (if initial == 0.0 then 1.0 else initial) * 100.0
  }

  function Summary(config: Config, a: Account, last: Candle): Report {
    var trades, final := AllTrades(config, a, last), FinalCapital(config, a, last);
    Report(config, trades, config.initialCapital, final, TotalReturn(config.initialCapital, final),
           a.maxDd, WinRate(trades), |trades|)
  }

  function ReportOf(config: Config, bars: seq<Bar>): Report
    requires bars != []
  {
    Summary(config, Final(config, bars), LastCandle(bars))
  }

  /** What a simulation answers: the error of the first failing evaluation, or the report. */
  function Simulated<F>(config: Config, candles: seq<Candle>, features: seq<F>, strategy: Strategy<F>): Result<Report, string>
    requires candles != []
  {
    var directions :- Directions(strategy, candles, features, |candles|);
    Success(ReportOf(config, Bars(candles, directions)))
  }

  lemma {:induction false} DirectionsPrefix<F>(strategy: Strategy<F>, candles: seq<Candle>, features: seq<F>, i: nat, n: nat)
    requires i <= n <= |candles|
    ensures Directions(strategy, candles, features, n).Success? ==>
              && Directions(strategy, candles, features, i).Success?
              && Directions(strategy, candles, features, i).value == Directions(strategy, candles, features, n).value[..i]
    ensures Directions(strategy, candles, features, i).Failure? ==>
              Directions(strategy, candles, features, n) == Directions(strategy, candles, features, i)
  {
    if i < n {
      DirectionsPrefix(strategy, candles, features, i, n - 1);
    }
  }

  lemma BarsPrefix(candles: seq<Candle>, directions: seq<Direction>, n: nat)
    requires |candles| == |directions| && n <= |candles|
    ensures Bars(candles[..n], directions[..n]) == Bars(candles, directions)[..n]
  {}

  lemma FoldNext(config: Config, candles: seq<Candle>, earlier: seq<Direction>, i: nat, d: Direction)
    requires i == |earlier| < |candles|
    ensures Fold(config, Start(config, candles[0].openedAt), Bars(candles[..i + 1], earlier + [d]))
         == Step(config, Fold(config, Start(config, candles[0].openedAt), Bars(candles[..i], earlier)), Bar(candles[i], d))
  {
    assert Bars(candles[..i + 1], earlier + [d])[..i] == Bars(candles[..i], earlier);
  }

  /** The body of the source's loop after the strategy has answered. */
  method OnCandle(config: Config, a: Account, candle: Candle, direction: Direction) returns (next: Account)
    ensures next == Step(config, a, Bar(candle, direction))
  {
    hide Gross, Pnl, Drawdown;
    next := a;
    if !a.long && direction == Buy {
      next := next.(long := true, entryAt := candle.openedAt, entryPrice := candle.close);
      next := next.(quantity := a.capital / candle.close, capital := 0.0);
    } else if a.long && direction == Sell {
      var exit := candle.close;
      var gross := Gross(a.quantity, exit, config.feePct);
      var pnl := Pnl(a.quantity, a.entryPrice, exit, config.feePct);
      var trade := Trade(config.symbol, a.entryAt, candle.openedAt, "long", a.entryPrice, exit, a.quantity, pnl);
      next := next.(trades := a.trades + [trade]);
      next := next.(capital := gross, quantity := 0.0, long := false);
    }
    assert next == Act(config, a, Bar(candle, direction));
    var mark := if next.long then next.capital + next.quantity * candle.close else next.capital;
    assert mark == Mark(next, candle.close);
    hide Mark;
    next := next.(peak := Max(a.peak, mark));
    if next.peak > 0.0 {
      next := next.(maxDd := Max(a.maxDd, Drawdown(next.peak, mark)));
    }
  }

  /** The source's loop over the candles. */
  method Walk<F>(config: Config, candles: seq<Candle>, features: seq<F>, strategy: Strategy<F>)
    returns (result: Result<Account, string>)
    requires candles != []
    ensures result == match Directions(strategy, candles, features, |candles|)
                      case Failure(e) => Failure(e)
                      case Success(ds) => Success(Final(config, Bars(candles, ds)))
  {
    var account := Start(config, candles[0].openedAt);
    ghost var directions: seq<Direction> := [];
    assert Fold(config, account, Bars(candles[..0], [])) == account;
    hide Fold;
    for i := 0 to |candles|
      invariant Directions(strategy, candles, features, i) == Success(directions)
      invariant account == Fold(config, Start(config, candles[0].openedAt), Bars(candles[..i], directions))
    {
      var answer := strategy(candles[..i + 1], Clip(features, i + 1));
      if answer.Failure? {
        DirectionsPrefix(strategy, candles, features, i + 1, |candles|);
        return Failure(answer.error);
      }
      var direction := DirectionOf(answer.value);
      FoldNext(config, candles, directions, i, direction);
      directions := directions + [direction];
      account := OnCandle(config, account, candles[i], direction);
    }
    assert candles[..|candles|] == candles;
    result := Success(account);
  }

  method CountWins(trades: seq<Trade>) returns (wins: nat)
    ensures wins == Wins(trades)
  {
    wins := 0;
    for i := 0 to |trades|
      invariant wins == Wins(trades[..i])
    {
      assert trades[..i + 1][..i] == trades[..i];
      if trades[i].pnl > 0.0 {
        wins := wins + 1;
      }
    }
    assert trades[..|trades|] == trades;
  }

  /** The forced close and the summary statistics. */
  method Summarise(config: Config, a: Account, last: Candle) returns (report: Report)
    ensures report == Summary(config, a, last)
  {
    hide Gross, Pnl;
    var trades, capital := a.trades, a.capital;
    if a.long {
      var gross := Gross(a.quantity, last.close, config.feePct);
      var pnl := Pnl(a.quantity, a.entryPrice, last.close, config.feePct);
      trades := trades + [Trade(config.symbol, a.entryAt, last.openedAt, "long", a.entryPrice, last.close, a.quantity, pnl)];
      capital := gross;
    }
    var finalCapital := if a.long then capital + a.quantity * last.close else capital;
    var base := if config.initialCapital == 0.0 then 1.0 else config.initialCapital;
    var totalReturn := (finalCapital - config.initialCapital) / base * 100.0;
    var wins := CountWins(trades);
    var winRate := if trades == [] then 0.0 else wins as real / |trades| as real * 100.0;
    report := Report(config, trades, config.initialCapital, finalCapital, totalReturn, a.maxDd, winRate, |trades|);
  }

  method Simulate<F>(config: Config, candles: seq<Candle>, features: seq<F>, strategy: Strategy<F>)
    returns (result: Result<Report, string>)
    requires candles != []
    ensures result == Simulated(config, candles, features, strategy)
  {
    var account := Walk(config, candles, features, strategy);
    if account.Failure? {
      return Failure(account.error);
    }
    var report := Summarise(config, account.value, candles[|candles| - 1]);
    result := Success(report);
  }
}
