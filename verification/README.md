# Verified model of the trading platform's core

A Dafny model of the parts of the repository whose correctness is not visible in any single
function: the backtest simulator, average-cost position accounting, order placement
(sequential and interleaved), the risk gate, the reliability policy of the provider adapters,
the Redis outbox with its publisher, the improve-until-plateau worker, and the removal of
duplicate candles. `dafny verify dfyconfig.toml` checks all of it.

Amounts and prices are exact reals and instants are exact seconds. Code that changes state step
by step is modelled by classes and loops, each proved equal to a function of its inputs or of
the old state; the properties are then proved about those functions, for all inputs and all runs.

| file | models |
|---|---|
| `Wrappers.dfy`, `Reals.dfy` | option and result types; elementary facts about reals |
| `Portfolio.dfy` | `Position.apply_fill` over arbitrary fill histories |
| `Backtest.dfy` | the simulation loop, the forced close and the summary |
| `BacktestSignals.dfy`, `BacktestMoney.dfy`, `BacktestDrawdown.dfy`, `BacktestRuns.dfy` | which signals act, where the money goes, the drawdown, pairs of runs |
| `WalkForward.dfy` | the 30-candle guard and the fold windows |
| `Risk.dfy` | the risk service and the trading adapter in front of it |
| `Orders.dfy`, `PlaceOrder.dfy`, `OrderRuns.dfy` | the order lifecycle, one `execute`, sequential runs of it |
| `ConcurrentOrders.dfy`, `ConcurrentRuns.dfy`, `SoloCalls.dfy`, `LostUpdates.dfy`, `SerialOrders.dfy` | interleaved runs of it; the gate, the event log and the answers; what a call answers and a call on its own; what position writes lose; serial sections |
| `Reliability.dfy`, `ReliabilityRuns.dfy`, `RetryInterleaving.dfy` | retry, breaker and limiter composed; whole sequential runs; coroutines sharing one retry counter |
| `Outbox.dfy`, `OutboxRuns.dfy`, `OutboxDrain.dfy` | the outbox and publisher; what is delivered; order, repeats and stored format |
| `Plateau.dfy` | the improve-until-plateau loop |
| `Candles.dfy` | sorting and removing duplicate candles |

## Where the code does not do what it promises

The model follows the code; each of these is a theorem.

- A run that ends long reports its open position twice: the forced close sets the capital but
  leaves position and quantity set (engine.py:124-126). The reported final capital is the
  reconciled one if and only if the last signal other than HOLD is not BUY
  (`FinalCapitalReconcilesIff`); 30 candles at a constant close and a strategy that always buys
  turn 100 into a reported 200 (`OpenRunReportsTwice`).
- The fee in a trade's reported profit is charged on the entry, the fee in the capital on the
  exit (engine.py:85-86), so reported profits exceed the capital gained by exactly the fee on the
  price moves (`Reconciliation`).
- The average of an open position is not always the cost over the quantity of the fills that
  extended it since it was last flat or flipped (`ForgettingClosesFails`): it is so exactly until
  a fill adds, at another price than the average, to a position that has been partly closed
  (`AverageOfBuiltIff`). What holds always is that each partial close takes its share of every
  lot (`AverageIsCostOfLots`).
- Under a nonnegative position limit, an approved order stays within it if and only if equity is
  positive (`AuthorisedBoundIff`). With equity 0 the exposure counts as 100%, so a limit of 1 or
  more lets any order through and a smaller one none (`ZeroEquityIff`,
  `ZeroEquityAuthorisesAnything`). The order route refuses an equity of 0 or
  less (schemas.py:19); `execute` and the adapter accept it.
- The adapter reports a daily loss of 0, so the drawdown limit never has an effect on orders, and
  the daily-loss limit has none unless it is negative, when it refuses them all
  (`DailyLossLimitIsInert`).
- The risk service calls itself fail-closed, but a breach refuses an order only when
  `failed_closed` is false (services.py:68). Some breaching order can be approved if and only if
  `failed_closed` is set and some limit is negative (`BreachApprovedIff`, `BreachApproved`); with
  positive equity, as the order route asks, none is (`NoBreachOnPositiveEquity`).
- Concurrent `execute` calls on one symbol can lose position updates (`LostUpdateReachable`). If
  every write was computed from the position it replaced, nothing is lost (`FreshWritesReplay`);
  for a symbol traded on one side only, the position is right if and only if that is so
  (`OneSidedIff`). Serial sections from order save to position save are enough
  (`SerialSectionsAgree`).
- Coroutines that share a `RetryPolicy` reset each other's counter: one coroutine can make
  1 + n * (retries - 1) vendor calls, and never more (`CallsBounded`, `CallsBoundAttained`).
- `append` stores the bare fields of an event while the reader expects an envelope, so events
  without a field named `type`, which all events of the application are, are never delivered
  (`DumpDecodesIff`, `UntypedNeverDelivered`).
- `sync` counts what it fetched after it has removed duplicates. Its summary is true if and only
  if nothing had to be removed (`SummaryTrueIff`, `RepeatNotReported`).

## Model

| member | source | states |
|---|---|---|
| Portfolio.ReplayAccepts | app/modules/trading/domain/portfolio.py:25-26 | a history is accepted if and only if every fill has quantity > 0 and price > 0; the symbol never changes |
| Portfolio.PartialClose | app/modules/trading/domain/portfolio.py:41-54 | an opposite fill smaller than the position keeps the average and moves realized profit by its own size times the gain per unit, signed for a short |
| Portfolio.CloseOrFlip | app/modules/trading/domain/portfolio.py:41-61 | a larger or equal one realizes the gain on the whole position and holds what lies beyond zero at its own price |
| Portfolio.OpenOrAdd | app/modules/trading/domain/portfolio.py:32-39 | any other fill adds its quantity and its cost and realizes nothing |
| Portfolio.ExtendedConserves | app/modules/trading/domain/portfolio.py:32-39 | opening or adding changes realized profit minus cost of the open quantity by minus the fill's signed notional |
| Portfolio.ReducedConserves | app/modules/trading/domain/portfolio.py:41-61 | so do partial close, full close and flip, long or short |
| Portfolio.LedgerConservation | app/modules/trading/domain/portfolio.py:18-61 | after any history from any position, quantity is the sum of signed quantities and realized profit is minus the cash spent plus the cost of what is still held |
| Portfolio.LedgerFromEmpty | app/modules/trading/domain/portfolio.py:18-61 | the same from the empty position, with nothing carried over |
| Portfolio.ProfitOrderIndependent | app/modules/trading/domain/portfolio.py:18-61 | realized plus unrealized profit at every mark is the same for all permutations of the fills, and so is realized profit when the history ends flat |
| Portfolio.AverageWithinPrices | app/modules/trading/domain/portfolio.py:32-61 | a flat position has average 0, an open one an average within the range of the prices traded |
| Portfolio.AverageIsCostOfLots | app/modules/trading/domain/portfolio.py:18-61 | over every history from empty, the average of an open position is the cost over the quantity of the lots it holds: each extending fill brings one, a partial close takes its share of each, a flip leaves the part beyond zero |
| Portfolio.AverageOfBuiltIff | app/modules/trading/domain/portfolio.py:18-61 | throughout a history the average is cost over quantity of all fills that extended the position since it was last flat or flipped, if and only if no fill adds, at a price other than the average, to a position that has been partly closed |
| Portfolio.ForgettingClosesFails | app/modules/trading/domain/portfolio.py:32-54 | buy 2 at 10, sell 1, buy 1 at 20: the average is 15, while the fills that extended the position cost 40 for 3 |
| Portfolio.SplitInTwo | app/modules/trading/domain/portfolio.py:28-61 | two same-side, same-price fills act like one of their total, even when the split lands on or straddles zero |
| Portfolio.FillSplitting | app/modules/trading/domain/portfolio.py:28-61 | the same for any list of pieces, anywhere in a history, with identical final position or error |
| Portfolio.Mirroring | app/modules/trading/domain/portfolio.py:28-61 | swapping buys and sells throughout negates quantity and realized profit and keeps the average |
| Backtest.OnCandle | app/modules/backtest/application/engine.py:77-106 | one pass through the loop body computes one step of the fold: open, close or nothing, then mark, peak and drawdown |
| Backtest.Walk | app/modules/backtest/application/engine.py:64-106 | the loop over the candles ends in the fold over all bars, or in the error of the first failing evaluation |
| Backtest.Summarise | app/modules/backtest/application/engine.py:108-140 | the forced close and the statistics, with the open quantity valued again as written |
| Backtest.Simulate | app/modules/backtest/application/engine.py:61-140 | the simulation answers the report of the whole fold or the first evaluation error |
| Backtest.CountWins | app/modules/backtest/application/engine.py:129 | counts the trades with positive reported profit |
| Backtest.DirectionsPrefix | app/modules/backtest/application/engine.py:73-75 | the directions of a prefix are a prefix of the directions, and an error in a prefix is the error of the run |
| BacktestSignals.LongIffLastSignalBuys | app/modules/backtest/application/engine.py:77-101 | a run is long if and only if its last signal other than HOLD is BUY, whatever the prices |
| BacktestSignals.NormaliseAlternates | app/modules/backtest/application/engine.py:77-101 | turning every BUY while long and SELL while flat into HOLD leaves strictly alternating signals that start with BUY |
| BacktestSignals.NormaliseIdempotent | app/modules/backtest/application/engine.py:77-101 | doing so twice is doing so once |
| BacktestSignals.NormalisePreservesReport | app/modules/backtest/application/engine.py:61-140 | and it changes nothing that a simulation reports |
| BacktestSignals.TradeStructure | app/modules/backtest/application/engine.py:77-101 | trades enter on the first BUY after the previous exit and leave on the first SELL after that, or on the last candle; their index spans are disjoint and ordered, and twice their number is at most n + 1 |
| BacktestSignals.TradesAreLong | app/modules/backtest/application/engine.py:87-98 | every trade is long and in the configured symbol |
| BacktestSignals.SimulationFollowsAnswers | app/modules/backtest/application/engine.py:73-75 | on candle i the strategy is shown exactly the candles and features up to i; a simulation is that of its answers, BUY and SELL as such and all else as HOLD, or raises the first error among them |
| BacktestSignals.ReportFigures | app/modules/backtest/application/engine.py:126-140 | trade count and win rate are those of all trades, the forced close included, and the return is the gain over the initial capital in percent |
| BacktestMoney.RunReconciles | app/modules/backtest/application/engine.py:64-106 | at every candle, capital at cost is the initial capital compounded over the closed trades, and reported profits exceed the change by the fee on the price moves |
| BacktestMoney.Reconciliation | app/modules/backtest/application/engine.py:77-124 | the same after the last close, the forced one included: capital is initial times the product of exit/entry * (1 - fee), and the excess of the profit sum is exactly fee * sum(quantity * (exit - entry)) |
| BacktestMoney.FinalCapitalReconcilesIff | app/modules/backtest/application/engine.py:108-126 | the reported final capital is that capital if and only if the last signal is not BUY; otherwise it exceeds it by quantity times the last close |
| BacktestMoney.FinalCapitalCountsOpenPositionTwice | app/modules/backtest/application/engine.py:124-126 | buying at a constant close without fee, on any number of candles: 100 is reported as 200, a 100% return with no winning trade |
| BacktestMoney.PnlSign | app/modules/backtest/application/engine.py:86 | a trade reports a profit if and only if the exit beats the entry by more than the fee |
| BacktestMoney.GrowingTradeWins | app/modules/backtest/application/engine.py:85-86 | a trade that grows the capital reports a profit |
| BacktestMoney.GainNeedsWin | app/modules/backtest/application/engine.py:108-130 | a run whose capital after the last close exceeds the initial capital has a positive win rate |
| BacktestDrawdown.DrawdownInvariant | app/modules/backtest/application/engine.py:70-106 | peak and drawdown carried by the loop are the maximum mark and the worst loss between any two marks so far |
| BacktestDrawdown.DrawdownRefinement | app/modules/backtest/application/engine.py:70-106 | the reported drawdown is the maximum over all pairs a <= b of the percentage lost from mark a to mark b, initial capital included, and lies in [0, 100); a mark is cash plus quantity times the close of its candle |
| BacktestDrawdown.MarksAreLiquidationValues | app/modules/backtest/application/engine.py:103 | each mark is what closing at that candle would leave, but for the exit fee |
| BacktestRuns.NoLookAhead | app/modules/backtest/application/engine.py:73-106 | runs that agree on the first k candles and features are in the same state, or failed with the same error, after step k |
| BacktestRuns.ReportExtendsPrefix | app/modules/backtest/application/engine.py:73-140 | trades closed by step k open the trade list of every extension, and the drawdown never gets smaller |
| BacktestRuns.CapitalScaling | app/modules/backtest/application/engine.py:61-140 | multiplying the initial capital by k > 0 scales money and quantities by k and leaves return, drawdown, win rate and trade count fixed |
| BacktestRuns.PriceScaling | app/modules/backtest/application/engine.py:61-140 | multiplying all closes by c > 0, signals fixed, leaves every amount of money and every statistic fixed |
| WalkForward.Run | app/modules/backtest/application/engine.py:42-59 | raises on an unknown strategy, answers an error below 30 candles, else simulates and publishes one completion event with the report's figures |
| WalkForward.InWindowExactly | app/infrastructure/stores/clickhouse/candle_store.py:47-54 | the range query keeps exactly the stored candles with start <= opened_at <= end, each as often as stored |
| WalkForward.InWindowConcat | app/infrastructure/stores/clickhouse/candle_store.py:47-54 | and in their order, for it works piece by piece |
| WalkForward.OutsideCandlesDoNotMatter | app/modules/backtest/application/engine.py:42-59 | storing one more candle outside [start, end], or one less, changes no outcome of a run |
| WalkForward.RunNeedsThirty | app/modules/backtest/application/engine.py:47-50 | a run with fewer than 30 candles in its range is refused, and any other simulates all of them with the features computed from them |
| WalkForward.RunFolds | app/modules/backtest/application/engine.py:151-162 | results are the reports of exactly the folds with at least 30 candles, in order, one event each; the first raising fold's error escapes, and 0 folds divide by zero |
| WalkForward.OpenRunReportsTwice | app/modules/backtest/application/engine.py:42-59 | such a run gets past the 30-candle guard: 30 stored candles, a strategy that always buys, and a final capital of 200 for 100 |
| WalkForward.WindowEnds | app/modules/backtest/application/engine.py:153-158 | fold windows run from boundary to boundary, the first from the start and the last to the end |
| WalkForward.FoldIdentity | app/modules/backtest/application/engine.py:156-158 | a fold keeps fee, capital and all else but the window and the seed, which is the configured one, or 0, plus its number |
| WalkForward.FoldsCover | app/modules/backtest/application/engine.py:153-158 | for start < end the windows cover [start, end] and nothing else, and two of them share an instant only if consecutive, exactly their common boundary |
| WalkForward.FoldCountsSum | app/infrastructure/stores/clickhouse/candle_store.py:47-54 | with the inclusive range query the fold counts sum to the whole-range count plus the candles lying on interior boundaries |
| Risk.RiskService.SetProfile | app/modules/risk/application/services.py:26-28 | stores and answers the profile |
| Risk.RiskService.SetKillSwitch | app/modules/risk/application/services.py:54-59 | stores the switch and publishes one event when it is turned on |
| Risk.RiskService.BreachNotify | app/modules/risk/application/services.py:61-69 | publishes exactly on a breach of 1.5 times a limit and refuses unless failed_closed is set |
| Risk.RiskService.CheckOrder | app/modules/risk/application/services.py:30-52 | the decision and everything published are those of the ordered checks |
| Risk.RiskServiceAdapter.Authorise | app/modules/trading/infrastructure/risk.py:12-29 | passes notional/equity, or 1 for zero equity, and a daily loss of 0 |
| Risk.ApprovedIff | app/modules/risk/application/services.py:30-52 | with nonnegative limits an order is approved if and only if the switch is off, both limits hold and it needs no forbidden leverage |
| Risk.ReasonGiven | app/modules/risk/application/services.py:30-52 | the first check that fails gives the reason, in the order switch, leverage, position, daily loss, posture |
| Risk.BreachWithinLimits | app/modules/risk/application/services.py:61-69 | an order within both limits breaches the posture if and only if it uses less than 1.5 times the magnitude of a negative limit |
| Risk.NeverNotifiesIff | app/modules/risk/application/services.py:61-69 | checking an order can publish a breach if and only if some limit is negative |
| Risk.BreachApprovedIff | app/modules/risk/application/services.py:50-69 | some order that breaches the posture is approved if and only if failed_closed is set and some limit is negative |
| Risk.BreachApproved | app/modules/risk/application/services.py:50-69 | one such order, asked through the adapter: limit -1, equity -80, notional 100 |
| Risk.NoBreachOnPositiveEquity | app/modules/trading/infrastructure/risk.py:12-29 | an order of positive notional and equity is never approved in breach of the posture, whatever the profile |
| Risk.ApprovalMonotone | app/modules/risk/application/services.py:30-52 | approval survives lower exposure, lower loss and looser limits, whatever their signs |
| Risk.AuthorisedBoundIff | app/modules/trading/infrastructure/risk.py:12-29 | an approved order of positive notional is, under a nonnegative limit, within limit times equity if and only if equity is positive, and then within equity unless leverage is allowed; under a negative limit equity is negative and the bound is met with equality or not at all |
| Risk.RefusedBeyond | app/modules/trading/infrastructure/risk.py:12-29 | with positive equity, a notional beyond the limit times equity, or beyond equity without leverage, is refused |
| Risk.ZeroEquityIff | app/modules/trading/infrastructure/risk.py:21 | with zero equity any notional is approved if the position limit is at least 1, the daily-loss limit not negative and the switch off, and none otherwise |
| Risk.ZeroEquityAuthorisesAnything | app/modules/trading/infrastructure/risk.py:21 | with zero equity and a limit of 1 any notional is approved |
| Risk.DailyLossLimitIsInert | app/modules/trading/infrastructure/risk.py:22-28 | through the adapter the drawdown limit changes no decision, the daily-loss limit none among nonnegative values, and a negative daily-loss limit refuses every order |
| Orders.CreatedIsSound | app/modules/trading/domain/entities/order.py:30-60 | a created order is pending, with positive terms, an upper-case symbol and a non-blank client id |
| Orders.UpperMeaning | app/modules/trading/domain/entities/order.py:51 | upper-casing turns each small letter into its capital and leaves all else |
| Orders.Lifecycle | app/modules/trading/domain/entities/order.py:62-72 | whatever fills and rejections are attempted, an order keeps its terms and its soundness, and once filled or rejected it never changes again |
| PlaceOrder.PlaceOrderService.GetByClientOrderId | app/modules/trading/application/services/place_order.py:31 | finds the stored order of a client id |
| PlaceOrder.PlaceOrderService.Book | app/modules/trading/application/services/place_order.py:56-77 | saves the order, updates its position if it is filled, then publishes one event |
| PlaceOrder.PlaceOrderService.Execute | app/modules/trading/application/services/place_order.py:30-77 | answer and new stores are those of lookup, gate, create, submit and book in that order |
| PlaceOrder.FindMeaning | app/modules/trading/application/services/place_order.py:31-33 | the lookup answers a stored order with that client id, or none if there is none |
| PlaceOrder.PositionIgnoresCase | app/modules/trading/infrastructure/repositories/postgres.py:26-34 | a stored position is found whatever the case of the symbol asked for |
| OrderRuns.RunsStayConsistent | app/modules/trading/application/services/place_order.py:30-77 | after every run of commands, gateway outcomes, switch and profile changes, each symbol's position is the replay of its filled orders in acceptance order, client ids are distinct, and exactly one event announces each order |
| OrderRuns.OnlyGatewaysRaise | app/modules/trading/application/services/place_order.py:56-77 | position accounting never raises in such a run; an exception escapes only from the gateway |
| OrderRuns.StoredProfitIgnoresOrder | app/modules/trading/application/services/place_order.py:58-68 | two runs with the same filled orders of a symbol, in any order, agree on its open quantity and on total profit at every mark |
| OrderRuns.PlaceStores | app/modules/trading/application/services/place_order.py:30-77 | a command stores at most one order, with the terms it asked for and only if the gate let it through; its answer is that order or the one already stored |
| OrderRuns.StoredIff | app/modules/trading/application/services/place_order.py:30-77 | a command is stored if and only if its client id is new, the gate approves quantity times price, its fields are well formed and the gateway hands the order back; it is stored with its own terms and the gateway outcome, at the executed price if filled |
| OrderRuns.RefusedAnswers | app/modules/trading/application/services/place_order.py:40-54 | every other new command is answered the gate reason, the first error of its fields, or the error of its gateway |
| OrderRuns.BeyondLimitStoresNothing | app/modules/trading/application/services/place_order.py:35-41 | a new command with positive equity and quantity times price beyond the limit, or with the switch on, stores nothing and is refused |
| OrderRuns.FillMovesPosition | app/modules/trading/application/services/place_order.py:58-68 | a fill moves the position of its symbol, and no other, by the side and quantity of the command at the executed price; what is not filled moves none |
| OrderRuns.AcceptedForever | app/modules/trading/application/services/place_order.py:31-33 | once accepted, every later command with the same client id gets the same order and changes nothing |
| OrderRuns.RepeatsAreInvisible | app/modules/trading/application/services/place_order.py:31-33 | deleting all commands whose client id was already accepted leaves the final state unchanged |
| OrderRuns.OrdersPassedTheGate | app/modules/trading/application/services/place_order.py:35-56 | every order stored in a run was placed with the kill switch off and approved under the profile then in force; with positive equity its quantity times requested price is within limit times equity, and within equity without leverage |
| OrderRuns.LastSetIsInForce | app/modules/risk/application/services.py:18-59 | in every run the switch and the profile in force are the last ones set, or the defaults |
| OrderRuns.ActivationsTrigger | app/modules/risk/application/services.py:54-59 | in every run each activation of the switch, and nothing else, publishes a trigger, in order and with its reason |
| ConcurrentOrders.RunsAreTidy | app/modules/trading/application/services/place_order.py:30-77 | in every interleaving every call's own order is sound, stored once saved, and written at most once |
| ConcurrentOrders.AtMostOncePerClientId | migrations/versions/02_trading_orders.py:36 | in every interleaving at most one order is stored and at most one position is written per client id |
| ConcurrentRuns.StoredOrdersWereAuthorised | app/modules/trading/application/services/place_order.py:35-56 | in every interleaving every stored order carries the terms of the command of a call and was approved at the authorise step of that call, with the switch off; if equity was positive, its quantity times requested price is within the limits then in force |
| ConcurrentRuns.RunsAnnounce | app/modules/trading/application/services/place_order.py:70-77 | in every interleaving a call that has stored an order and completed has announced it exactly once, no other call has announced anything, and every event reports a stored order |
| ConcurrentRuns.RunsAnswerStored | app/modules/trading/application/services/place_order.py:30-77 | in every interleaving an order that a call answers is stored and has its client id, so all calls of one client id answer the same order |
| ConcurrentRuns.RepeatAnswersAtOnce | app/modules/trading/application/services/place_order.py:31-33 | a call that starts when an order of its client id is stored answers that order and changes nothing |
| SoloCalls.RunsAnswerOwn | app/modules/trading/application/services/place_order.py:56-77 | in every interleaving a call that has stored an order and completed answers that order |
| SoloCalls.RaisesExplained | app/modules/trading/application/services/place_order.py:30-77 | in every interleaving a call raises only if its gateway crashed, or an order of another call with its client id is stored |
| SoloCalls.LateSaveRaises | migrations/versions/02_trading_orders.py:36 | a call that comes to save after such an order raises and leaves everything else as it is |
| SoloCalls.SoloCallIsPlace | app/modules/trading/application/services/place_order.py:30-77 | from every state an interleaving can reach, a call that runs alone from start to end has the answer and leaves the stores of the sequential execute, but for the number of its order |
| LostUpdates.RunsBalance | app/modules/trading/application/services/place_order.py:56-68 | in every interleaving every filled order stored is either written to its position or still between its two saves |
| LostUpdates.LostUpdatesExactly | app/modules/trading/application/services/place_order.py:58-68 | when no call is between its two saves on a symbol, its quantity and cost basis are those of all its filled orders less the net of what stale writes overwrote, so each is right if and only if that net is zero |
| LostUpdates.FreshWritesReplay | app/modules/trading/application/services/place_order.py:58-68 | in every interleaving, if every write of a symbol was computed from the position it replaced, its whole stored position is the replay of the fills written |
| LostUpdates.OneSidedIff | app/modules/trading/application/services/place_order.py:58-68 | for a symbol traded on one side only, with no call in its section, the position never holds more than all its filled orders, and as much if and only if every write was fresh |
| LostUpdates.SecondWriteDropsFirst | app/modules/trading/application/services/place_order.py:59-68 | of two calls that read the same position, the second write drops exactly the first one's fill |
| LostUpdates.LostUpdateReachable | app/modules/trading/application/services/place_order.py:30-77 | two interleaved buys of 1, both filled and stored, can leave a position of 1 |
| SerialOrders.SerialSectionsAgree | app/modules/trading/application/services/place_order.py:56-68 | if the sections between the two saves are serial per symbol, positions are the replay of the filled orders whenever none is open |
| Reliability.RateLimiter.Acquire | app/infrastructure/tooling/policy.py:54-61 | grants a slot one interval after the last or at once, whichever is later, and does nothing for a rate of 0 or less |
| Reliability.CircuitBreaker.Run | app/infrastructure/tooling/policy.py:70-81 | fails without calling when open; else counts domain errors, forgets them on success, opens at the threshold |
| Reliability.CircuitBreaker.Reset | app/infrastructure/tooling/policy.py:83-85 | closes the breaker and forgets its failures |
| Reliability.RetryPolicy.Run | app/infrastructure/tooling/policy.py:29-40 | the loop computes the recursive retry, whatever the core call does |
| Reliability.RetryPolicy.Sleep | app/infrastructure/tooling/policy.py:42-46 | asks for the doubled, capped and jittered backoff of the attempt |
| Reliability.Policy.Run | app/infrastructure/tooling/policy.py:97-118 | the composition of retry, breaker, limiter and timeout, each optional, state of all three included |
| ReliabilityRuns.DomainErrorsBounded | app/infrastructure/tooling/policy.py:70-85 | over any sequence of runs and resets, vendor calls ending in a domain error number at most (T - 1) per success plus T per reset and T more, for a threshold T (below 1 it acts like 1) |
| ReliabilityRuns.DomainErrorsBoundAttained | app/infrastructure/tooling/policy.py:70-81 | no smaller bound holds: for every threshold and number of successes some vendor brings about exactly that many domain errors without a reset |
| ReliabilityRuns.OpenExactly | app/infrastructure/tooling/policy.py:70-81 | the breaker is open if and only if T domain errors have passed since the last success or reset, other exceptions not counting; every vendor call was made with it closed and took one limiter slot |
| ReliabilityRuns.OpenStaysSilent | app/infrastructure/tooling/policy.py:71-72 | once open, no run calls the vendor or takes a slot until a reset |
| ReliabilityRuns.OpenRun | app/infrastructure/tooling/policy.py:71-72 | and every run fails with circuit_open |
| ReliabilityRuns.ResetServesAgain | app/infrastructure/tooling/policy.py:83-85 | a reset lets the next run reach the vendor, whatever came before |
| ReliabilityRuns.RateLimited | app/infrastructure/tooling/policy.py:54-61 | over any sequence of runs, slots i to j take at least (j - i) / per_second |
| ReliabilityRuns.SlotLate | app/infrastructure/tooling/policy.py:57-61 | a slot is the later of one interval after the last slot and now |
| ReliabilityRuns.FirstSlot | app/infrastructure/tooling/policy.py:49-61 | the first slot comes at once, unless the clock still stands before one interval |
| ReliabilityRuns.RetryRunShape | app/infrastructure/tooling/policy.py:29-40 | a run makes at most max(1, retries) attempts, with at most one vendor call each, all calls but the last failing retryably; it succeeds if and only if the last one did, gives up only without attempts left, on a non-retryable or on an unexpected error, and raises circuit_open, the last error, or the provider failure that wraps an unexpected one |
| ReliabilityRuns.RunsTell | app/infrastructure/tooling/policy.py:101-104 | over any sequence of runs and resets each vendor call is seen as the reply at its place if that came within a nonzero timeout or none is set, and as an unexpected failure otherwise |
| ReliabilityRuns.RetrySucceedsIff | app/infrastructure/tooling/policy.py:29-40 | a run succeeds if and only if one of the next replies of the vendor is a success in time, preceded by retryable failures in time only, among max(1, retries) without a breaker, none with an open one, else at most as many as the breaker still lets fail |
| ReliabilityRuns.LaterRunSucceedsIff | app/infrastructure/tooling/policy.py:29-118 | the same for the next run after any sequence of runs and resets, whatever the policy is composed of |
| ReliabilityRuns.SleepSchedule | app/infrastructure/tooling/policy.py:42-46 | the n-th sleep of a run lasts half to one and a half times min(base * 2^(n - 1), max_backoff) |
| ReliabilityRuns.SleepBounded | app/infrastructure/tooling/policy.py:42-46 | for R >= 1 retries a run sleeps at most 1.5 times the lesser of (R - 1) * max_backoff and base * (2^(R - 1) - 1) in all |
| RetryInterleaving.StepDescends | app/infrastructure/tooling/policy.py:29-46 | every step of every coroutine lowers a rank of unstarted coroutines, raises left before the limit, and weights that swap once it is reached |
| RetryInterleaving.EveryInterleavingEnds | app/infrastructure/tooling/policy.py:29-46 | so every interleaving of n coroutines sharing one policy, whatever the vendor replies, is at most an explicit number of steps long |
| RetryInterleaving.StuckOnlyWhenFinished | app/infrastructure/tooling/policy.py:29-46 | an interleaving that cannot continue has finished every coroutine |
| RetryInterleaving.CallsBounded | app/infrastructure/tooling/policy.py:30-38 | with n coroutines each makes at most 1 + n * (retries - 1) vendor calls |
| RetryInterleaving.CallsBoundAttained | app/infrastructure/tooling/policy.py:30-38 | for every n and retries some interleaving reaches that number, so the limit of one run does not hold |
| RetryInterleaving.SoloMatches | app/infrastructure/tooling/policy.py:29-40 | alone, a coroutine has the counter, outcome and number of calls of the sequential loop |
| OutboxStore.RedisOutbox.Append | app/infrastructure/capability/outbox/redis_outbox.py:24-28 | stores the bare fields under the event's id and appends the id |
| OutboxStore.RedisOutbox.MarkDispatched | app/infrastructure/capability/outbox/redis_outbox.py:30-31 | adds the id to the done set |
| OutboxStore.RedisOutbox.FirstUndispatched | app/infrastructure/capability/outbox/redis_outbox.py:34-42 | the first loop, break included, selects the first limit ids that are not done (a limit below 1 still looks at one id) |
| OutboxStore.RedisOutbox.Load | app/infrastructure/capability/outbox/redis_outbox.py:43-57 | the second loop loads those that have a payload that decodes, in order, and skips the others |
| OutboxStore.RedisOutbox.NextUndispatched | app/infrastructure/capability/outbox/redis_outbox.py:33-57 | both together |
| OutboxStore.OutboxPublisher.DispatchPending | app/core/messaging/outbox.py:36-48 | publishes and marks one after the other, carrying on after failures; the answer and the counter grow by the number of completed deliveries |
| OutboxRuns.RunsAccounted | app/core/messaging/outbox.py:36-48 | in every run, whatever fails, every pending id has a payload and an id is done if and only if its event was published and the mark after it went through |
| OutboxRuns.SelectsFirst | app/infrastructure/capability/outbox/redis_outbox.py:33-42 | a pending id that is not done is selected if and only if fewer than limit such entries precede it |
| OutboxRuns.SelectsOldest | app/infrastructure/capability/outbox/redis_outbox.py:33-42 | a limit below 1 selects the oldest entry if it is not done, and nothing else |
| OutboxRuns.LimitOrBatchSize | app/core/messaging/outbox.py:37 | the publisher asks for the limit given, or for its batch size if none or 0 is |
| OutboxRuns.DeliveredIff | app/infrastructure/capability/outbox/redis_outbox.py:33-57 | with a working bus and no appends, an entry is eventually delivered if and only if it decodes and fewer than limit entries that do not decode precede it undone; and then within one round more than undone entries precede it |
| OutboxDrain.DrainsInOrder | app/core/messaging/outbox.py:36-48 | if all entries decode, n rounds publish exactly the first n * limit entries, once each and in append order, so the outbox is empty if and only if n * limit has reached their number |
| OutboxDrain.RepeatsAreFailedMarks | app/core/messaging/outbox.py:39-45 | with ids appended once, in every run an id is published and marked at most once, and every other publication of it is one whose mark failed |
| OutboxDrain.EnvelopeRoundTrip | app/infrastructure/capability/outbox/redis_outbox.py:48-54 | an envelope of the type name and the dump of an event reads back as the event, every field kept |
| OutboxDrain.DumpDecodesIff | app/infrastructure/capability/outbox/redis_outbox.py:26-54 | what append stores decodes if and only if the event has a field type that names a class accepting the event's own data field |
| OutboxDrain.UntypedNeverDelivered | app/infrastructure/capability/outbox/redis_outbox.py:24-57 | so in no run of appends of events without such a field is anything published or marked |
| Plateau.ImproveUntilPlateau.RunRound | app/workers/runner.py:92-101 | counts the round; a failed one yields the best so far, or 0 |
| Plateau.ImproveUntilPlateau.Record | app/workers/runner.py:103-117 | promotes a strictly better metric, else counts a stale round |
| Plateau.RecordedMetric | app/workers/runner.py:92-117 | each metric is what the step answered; a failed round counts as the best before it, or 0 in the first round, so it never promotes after the first |
| Plateau.ImproveUntilPlateau.RunForever | app/workers/runner.py:76-90 | runs exactly until the first moment of stop request, round limit or plateau, and answers the number of rounds |
| Plateau.BestIsMaximum | app/workers/runner.py:92-117 | the best is the maximum of all recorded metrics, and on a plateau none of the last max_stale_rounds metrics beats the best before them |
| Plateau.StaleIff | app/workers/runner.py:103-117 | the rounds after the n-th are all counted as stale if and only if each is matched by some metric among the first n |
| Plateau.RoundsBounded | app/workers/runner.py:76-90 | if the metrics, substitutes included, take at most V values, every call, first or later, runs at most V * max(max_stale_rounds, 0) + 1 rounds |
| Plateau.EndsIff | app/workers/runner.py:76-90 | a call, first or later, ends if and only if rounds are limited, a stop is requested, or some round of it completes max_stale_rounds metrics that do not beat the ones before |
| Plateau.EndsIfFinite | app/workers/runner.py:76-90 | so it ends if the metrics come from a finite set |
| Plateau.EndsIfLimited | app/workers/runner.py:119-121 | and it ends if the number of rounds is limited |
| Plateau.GrowingGoesOn | app/workers/runner.py:76-90 | with metrics that grow from round to round and neither limit nor stop it goes on for ever |
| Candles.SortUnique | app/modules/marketdata/infrastructure/providers/exchange/binance/adapter.py:71-80 | the loop over the stably sorted candles keeps the first of each whole second |
| Candles.Dedupe | app/modules/marketdata/application/services.py:98-106 | the loop keeps the first candle of each symbol, timeframe and whole second |
| Candles.WholeSecondMeaning | app/modules/marketdata/infrastructure/providers/exchange/binance/adapter.py:76 | the whole second is the instant with its fraction cut off, toward zero |
| Candles.SameKeyIff | app/modules/marketdata/application/services.py:102 | two candles are duplicates if and only if symbol, timeframe and whole second agree |
| Candles.Sync | app/modules/marketdata/application/services.py:46-83 | passes on source errors, publishes the candles without duplicates once, and reports counts taken after duplicates were removed |
| Candles.UniqueKeepsFirsts | app/modules/marketdata/application/services.py:98-106 | exactly the candles at first occurrences of their keys are kept, in order |
| Candles.UniqueIdempotent | app/modules/marketdata/application/services.py:98-106 | removing duplicates twice is removing them once |
| Candles.SortedFacts | app/modules/marketdata/infrastructure/providers/exchange/binance/adapter.py:75 | the sort rearranges, orders, and keeps the order of simultaneous candles |
| Candles.SortUniqueFacts | app/modules/marketdata/infrastructure/providers/exchange/binance/adapter.py:71-80 | the result has strictly increasing whole seconds, exactly those fetched, and for each the first of the candles that opened earliest in it |
| Candles.ArrivalOrderIrrelevant | app/modules/marketdata/infrastructure/providers/exchange/binance/adapter.py:71-80 | the result does not depend on the order in which candles of different instants arrived |
| Candles.SecondDedupeIdle | app/modules/marketdata/application/services.py:60 | on one symbol and timeframe, the service's own removal finds nothing left to remove |
| Candles.RepeatsDoNotShow | app/modules/marketdata/application/services.py:60-82 | appending repeats of fetched candles changes neither the candles kept nor the summary |
| Candles.SummaryTrueIff | app/modules/marketdata/application/services.py:60-82 | the reported duplicates are the fetched candles that were not appended, and the fetched count is true, if and only if no two fetched candles have the same key |
| Candles.RepeatNotReported | app/modules/marketdata/application/services.py:60-82 | one candle fetched twice and stored once is reported as 1 fetched, 1 appended, no duplicate |

## Left out

- Rounding: `Decimal` context precision, the `Numeric(38, 18)` columns, floats and microseconds are replaced by exact reals; overflow and NaN do not occur in the model.
- Closes are positive by type, as the simulator's division by the entry price needs; zero or negative closes are not modelled.
- Walk-forward over an empty or reversed range (start >= end): the windows are modelled, the cover and count theorems assume start < end.
- CreatedIsSound: upper-casing and stripping cover ASCII only, while the source uses Unicode text.
- Order ids are the order's place in the store, or the call's number when interleaved, instead of random UUIDs; column lengths are not modelled.
- SoloCallIsPlace: says nothing of risk events, which the interleaved model does not keep.
- Two concurrent first positions of one symbol: the database may refuse the second insert, while the model lets it overwrite, like an update.
- Failures of the order store, the position store and the event publisher, crashes between the two saves, and submitting an order to the gateway exactly once: the code gives no guarantee there.
- RunForever: asks that the loop end, for the loop is modelled as one that does; `EndsIff` says exactly when, and `GrowingGoesOn` gives runs that do not. The wait between rounds and its cancellation are left out.
- RateLimited: sequential runs only; coroutines that acquire at the same time read the same last slot. A sleep is taken to last at least as long as asked.
- CallsBounded: the interleaving of coroutines models the shared retry counter; breaker and limiter under interleaving are not modelled.
- A timeout of 0 means none, as in the source; a negative one fails the call, but the model still counts the vendor call as begun. Cancellation is not modelled.
- DeliveredIff: a limit of at least 1 and events that decode to their own id; an envelope without an id, which the source would give a fresh random one on each read, is not modelled. A failed mark is taken not to have reached Redis.
- DrainsInOrder: ids appended once and a batch limit of at least 1, without concurrent publishers.
- JSON text is modelled as a value of texts and objects; parsing, and numbers or lists inside fields, are left out.
- Symbol normalisation, exchange clients, database and Redis access, HTTP routes, settings and logging are I/O and wiring.
- The built-in strategies always hold, so a strategy is an arbitrary function of the candles and features seen so far; the pandas indicators are not modelled.
- Authentication, provider error tables and the provider registry: thin lookups and foreign cryptography, not modelled.
- `app/modules/trading/domain/entities.py` and `application/services/apply_fill.py` duplicate the order entity and the position update.
