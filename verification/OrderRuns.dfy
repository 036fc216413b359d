/** Whole sequential runs of the order desk. */
module OrderRuns {
  import opened Wrappers
  import opened Orders
  import opened Risk
  import opened PlaceOrder
  import P = Portfolio

  datatype Op =
    | Execute(command: Command, now: real, gateway: Gateway)
    | SetSwitch(active: bool, reason: Option<string>)
    | SetProfile(profile: RiskProfile)

  const OPENING := Desk([], map[], [], DEFAULT_SWITCH, DEFAULT_PROFILE, [])

  function After(desk: Desk, op: Op): Desk {
    match op
    case Execute(c, now, gateway) => Place(desk, c, now, gateway).0
    case SetSwitch(active, reason) =>
      desk.(switch := KillSwitch(active, reason),
            riskEvents := desk.riskEvents + if active then [KillSwitchTriggered(ReasonOr(reason, "manual"))] else [])
    case SetProfile(profile) => desk.(profile := profile)
  }

  function Run(desk: Desk, ops: seq<Op>): Desk {
    if ops == [] then desk else After(Run(desk, ops[..|ops| - 1]), ops[|ops| - 1])
  }

  /** The fills of a symbol's filled orders, in acceptance order. */
  function FillsOf(orders: seq<TradeOrder>, symbol: string): seq<P.Fill> {
    if orders == [] then []
    else
      var front, last := orders[..|orders| - 1], orders[|orders| - 1];
      FillsOf(front, symbol) + if IsFilled(last) && last.symbol == symbol then [FillOf(last)] else []
  }

  /** The stored position of a symbol is the replay of these fills; none is stored before the first. */
  predicate StoredIs(positions: map<string, P.Position>, symbol: string, fills: seq<P.Fill>) {
    if symbol in positions then P.Replay(P.Empty(symbol), fills) == Success(positions[symbol]) else fills == []
  }

  predicate Agrees(orders: seq<TradeOrder>, positions: map<string, P.Position>, symbol: string) {
    StoredIs(positions, symbol, FillsOf(orders, symbol))
  }

  predicate DistinctIds(orders: seq<TradeOrder>) {
    forall i, j :: 0 <= i < j < |orders| ==> orders[i].clientOrderId != orders[j].clientOrderId
  }

  /** One event per stored order, in order, reporting it. */
  predicate Announced(orders: seq<TradeOrder>, events: seq<OrderEvent>) {
    && |events| == |orders|
    && forall i :: 0 <= i < |orders| ==> events[i] == OrderStateChanged(orders[i].id, orders[i].status, orders[i].symbol)
  }

  ghost predicate Consistent(desk: Desk) {
    && DistinctIds(desk.orders)
    && (forall i :: 0 <= i < |desk.orders| ==> Sound(desk.orders[i]) && desk.orders[i].id == i)
    && (forall symbol :: Agrees(desk.orders, desk.positions, symbol))
    && Announced(desk.orders, desk.events)
  }

  lemma SubmittedIsSound(order: TradeOrder, gateway: Gateway)
    requires Sound(order) && order.status == Pending
    ensures Submitted(order, gateway).Ok? ==>
              && Sound(Submitted(order, gateway).order)
              && Submitted(order, gateway).order.clientOrderId == order.clientOrderId
              && Submitted(order, gateway).order.id == order.id
  {}

  lemma ReplayOne(p: P.Position, fills: seq<P.Fill>, f: P.Fill)
    ensures P.Replay(p, fills + [f]) == match P.Replay(p, fills)
                                        case Success(q) => P.ApplyFill(q, f)
                                        case Failure(e) => P.Replay(p, fills)
  {
    assert (fills + [f])[..|fills|] == fills;
  }

  lemma PositionIsReplay(desk: Desk, symbol: string)
    requires Agrees(desk.orders, desk.positions, symbol) && Upper(symbol) == symbol
    ensures P.Replay(P.Empty(symbol), FillsOf(desk.orders, symbol)) == Success(PositionOf(desk.positions, symbol))
    ensures PositionOf(desk.positions, symbol).symbol == symbol
  {
    P.ReplayAccepts(P.Empty(symbol), FillsOf(desk.orders, symbol));
  }

  lemma FillsOfNext(orders: seq<TradeOrder>, order: TradeOrder, symbol: string)
    ensures FillsOf(orders + [order], symbol) ==
            if IsFilled(order) && order.symbol == symbol then FillsOf(orders, symbol) + [FillOf(order)]
            else FillsOf(orders, symbol)
  {
    assert (orders + [order])[..|orders|] == orders;
  }

  lemma StoredThenApplied(positions: map<string, P.Position>, symbol: string, fills: seq<P.Fill>, f: P.Fill)
    requires StoredIs(positions, symbol, fills) && Upper(symbol) == symbol && P.ValidFill(f)
    ensures StoredIs(positions[symbol := P.Apply(PositionOf(positions, symbol), f)], symbol, fills + [f])
  {
    hide P.Apply;
    ReplayOne(P.Empty(symbol), fills, f);
  }

  /** A sound fill is always accepted, and the position stored is the longer replay. */
  lemma BookedFill(desk: Desk, order: TradeOrder)
    requires Agrees(desk.orders, desk.positions, order.symbol) && Sound(order) && IsFilled(order)
    ensures var result := P.ApplyFill(PositionOf(desk.positions, order.symbol), FillOf(order));
            && result.Success? && result.value.symbol == order.symbol
            && P.Replay(P.Empty(order.symbol), FillsOf(desk.orders + [order], order.symbol)) == result
  {
    hide P.Apply;
    var fills, f := FillsOf(desk.orders, order.symbol), FillOf(order);
    PositionIsReplay(desk, order.symbol);
    FillsOfNext(desk.orders, order, order.symbol);
    ReplayOne(P.Empty(order.symbol), fills, f);
    P.ReplayAccepts(P.Empty(order.symbol), fills + [f]);
  }

  lemma BookedAgrees(desk: Desk, order: TradeOrder, s: string)
    requires Agrees(desk.orders, desk.positions, order.symbol) && Agrees(desk.orders, desk.positions, s)
    requires Sound(order)
    ensures Booked(desk, order).1 == Ok(order)
    ensures Agrees(Booked(desk, order).0.orders, Booked(desk, order).0.positions, s)
  {
    if IsFilled(order) {
      BookedFill(desk, order);
    }
    hide P.Replay, P.ApplyFill, FillsOf, PositionOf;
    FillsOfNext(desk.orders, order, s);
  }

  lemma BookedStores(desk: Desk, order: TradeOrder)
    ensures Booked(desk, order).0.orders == desk.orders + [order]
    ensures Booked(desk, order).1.Ok? ==>
              && Booked(desk, order).1.order == order
              && Booked(desk, order).0.events == desk.events + [OrderStateChanged(order.id, order.status, order.symbol)]
  {
    hide P.ApplyFill, PositionOf;
  }

  /** Booking a sound order never raises and keeps the desk consistent. */
  lemma BookedConsistent(desk: Desk, order: TradeOrder)
    requires Consistent(desk) && Sound(order) && order.id == |desk.orders|
    requires Find(desk.orders, order.clientOrderId).None?
    ensures Consistent(Booked(desk, order).0) && Booked(desk, order).1 == Ok(order)
  {
    hide Agrees, Sound, Find, Booked;
    FindMeaning(desk.orders, order.clientOrderId);
    var after := Booked(desk, order).0;
    BookedStores(desk, order);
    assert Agrees(desk.orders, desk.positions, order.symbol);
    BookedAgrees(desk, order, order.symbol);
    forall s ensures Agrees(after.orders, after.positions, s) {
      assert Agrees(desk.orders, desk.positions, s);
      BookedAgrees(desk, order, s);
    }
  }

  lemma PlaceConsistent(desk: Desk, c: Command, now: real, gateway: Gateway)
    requires Consistent(desk)
    ensures Consistent(Place(desk, c, now, gateway).0)
    ensures Place(desk, c, now, gateway).1.Raised? ==> gateway.Crashes?
    ensures desk.orders <= Place(desk, c, now, gateway).0.orders
  {
    var checked := desk.(riskEvents := desk.riskEvents
      + BreachesPublished(desk.switch, desk.profile, c.symbol, NotionalOf(c), c.equity));
    assert Consistent(checked);
    CreatedIsSound(|desk.orders|, c.symbol, c.side, c.quantity, c.price, c.clientOrderId, now);
    var order := Create(|desk.orders|, c.symbol, c.side, c.quantity, c.price, c.clientOrderId, now);
    hide Consistent, Booked, Sound, Authorised, BreachesPublished;
    if Find(desk.orders, c.clientOrderId).None? && order.Success? {
      SubmittedIsSound(order.value, gateway);
      var answer := Submitted(order.value, gateway);
      if answer.Ok? {
        BookedConsistent(checked, answer.order);
      }
    }
  }

  /** After every run of commands, gateway outcomes, switch toggles and profile changes each
      symbol's stored position is the replay of its filled orders in acceptance order, orders
      have distinct client ids, and exactly one event announces each. */
  lemma {:induction false} RunsStayConsistent(ops: seq<Op>)
    ensures Consistent(Run(OPENING, ops))
  {
    if ops == [] {
    } else {
      var before, op := Run(OPENING, ops[..|ops| - 1]), ops[|ops| - 1];
      RunsStayConsistent(ops[..|ops| - 1]);
      if op.Execute? {
        PlaceConsistent(before, op.command, op.now, op.gateway);
        hide Place, Consistent;
      }
    }
  }

  /** In every run, execute lets an exception out only when the gateway does: position
      accounting never refuses a fill. */
  lemma OnlyGatewaysRaise(ops: seq<Op>, c: Command, now: real, gateway: Gateway)
    ensures Place(Run(OPENING, ops), c, now, gateway).1.Raised? ==> gateway.Crashes?
  {
    RunsStayConsistent(ops);
    PlaceConsistent(Run(OPENING, ops), c, now, gateway);
  }

  /** Two runs whose filled orders for a symbol are the same, in any order, agree on its open
      quantity and on its total profit at every mark. */
  lemma {:induction false} StoredProfitIgnoresOrder(a: seq<Op>, b: seq<Op>, symbol: string, mark: real)
    requires Upper(symbol) == symbol
    requires multiset(FillsOf(Run(OPENING, a).orders, symbol)) == multiset(FillsOf(Run(OPENING, b).orders, symbol))
    ensures var p, q := PositionOf(Run(OPENING, a).positions, symbol), PositionOf(Run(OPENING, b).positions, symbol);
            p.quantity == q.quantity && P.ProfitAt(p, mark) == P.ProfitAt(q, mark)
  {
    hide P.Replay, P.ProfitAt;
    RunsStayConsistent(a);
    RunsStayConsistent(b);
    assert Agrees(Run(OPENING, a).orders, Run(OPENING, a).positions, symbol);
    assert Agrees(Run(OPENING, b).orders, Run(OPENING, b).positions, symbol);
    PositionIsReplay(Run(OPENING, a), symbol);
    PositionIsReplay(Run(OPENING, b), symbol);
    P.ProfitOrderIndependent(P.Empty(symbol), FillsOf(Run(OPENING, a).orders, symbol),
                             FillsOf(Run(OPENING, b).orders, symbol), mark);
  }

  // ----- What one command stores -------------------------------------------------------

  /** What an order is worth at its requested price. */
  function OrderValue(order: TradeOrder): real {
    order.quantity * order.requestedPrice
  }

  /** The order stored for c on the desk `before`: approved with the switch off under the profile
      in force, and quantity times requested price within the position limit exactly when equity
      was positive. */
  predicate LetThrough(before: Desk, c: Command, order: TradeOrder) {
    var notional, profile := OrderValue(order), before.profile;
    && order.clientOrderId == c.clientOrderId && order.symbol == Upper(c.symbol) && order.side == c.side
    && order.quantity == c.quantity && order.requestedPrice == c.price
    && !before.switch.active
    && Authorised(before.switch, profile, notional, c.equity).approved
    && (c.equity > 0.0 ==> WithinLimits(notional, profile, c.equity))
    && (profile.maxPositionPct >= 0.0 && c.equity <= 0.0 ==> !WithinPosition(notional, profile, c.equity))
  }

  lemma CreatedTerms(id: nat, c: Command, now: real)
    requires Create(id, c.symbol, c.side, c.quantity, c.price, c.clientOrderId, now).Success?
    ensures c.quantity > 0.0 && c.price > 0.0
    ensures Terms(Create(id, c.symbol, c.side, c.quantity, c.price, c.clientOrderId, now).value)
         == TradeOrder(id, Upper(c.symbol), c.side, c.quantity, Pending, c.price, None, c.clientOrderId, now, None)
  {}

  lemma TermsDetermine(order: TradeOrder, id: nat, c: Command, now: real)
    requires Terms(order) == TradeOrder(id, Upper(c.symbol), c.side, c.quantity, Pending, c.price, None, c.clientOrderId, now, None)
    ensures order.clientOrderId == c.clientOrderId && order.symbol == Upper(c.symbol) && order.side == c.side
    ensures order.quantity == c.quantity && order.requestedPrice == c.price
  {}

  lemma SubmittedTerms(order: TradeOrder, gateway: Gateway)
    ensures Submitted(order, gateway).Ok? ==> Terms(Submitted(order, gateway).order) == Terms(order)
  {}

  lemma NotionalIsProduct(c: Command, quantity: real, price: real)
    requires quantity == c.quantity && price == c.price
    ensures NotionalOf(c) == quantity * price
    ensures quantity > 0.0 && price > 0.0 ==> NotionalOf(c) > 0.0
  {}

  lemma GateBound(desk: Desk, c: Command)
    requires NotionalOf(c) > 0.0
    requires Authorised(desk.switch, desk.profile, NotionalOf(c), c.equity).approved
    ensures !desk.switch.active
    ensures c.equity > 0.0 ==> WithinLimits(NotionalOf(c), desk.profile, c.equity)
    ensures desk.profile.maxPositionPct >= 0.0 && c.equity <= 0.0 ==> !WithinPosition(NotionalOf(c), desk.profile, c.equity)
  {
    hide NotionalOf, PositionPct;
    AuthorisedBoundIff(desk.switch, desk.profile, NotionalOf(c), c.equity);
  }

  lemma PassesAs(before: Desk, c: Command, order: TradeOrder)
    requires order.clientOrderId == c.clientOrderId && order.symbol == Upper(c.symbol) && order.side == c.side
    requires order.quantity == c.quantity > 0.0 && order.requestedPrice == c.price > 0.0
    requires Authorised(before.switch, before.profile, NotionalOf(c), c.equity).approved
    ensures LetThrough(before, c, order)
  {
    NotionalIsProduct(c, order.quantity, order.requestedPrice);
    assert NotionalOf(c) == OrderValue(order);
    hide OrderValue, NotionalOf, Authorised, Upper, WithinLimits, WithinPosition;
    GateBound(before, c);
  }

  /** A command stores at most one order, which it asked for and the gate let through; its
      answer is that order or the one already stored under its client id. */
  lemma PlaceStores(desk: Desk, c: Command, now: real, gateway: Gateway)
    ensures var after, answer := Place(desk, c, now, gateway).0, Place(desk, c, now, gateway).1;
            && desk.orders <= after.orders && |after.orders| <= |desk.orders| + 1
            && (after.orders != desk.orders ==>
                  && Find(desk.orders, c.clientOrderId).None?
                  && LetThrough(desk, c, after.orders[|desk.orders|])
                  && (answer.Ok? ==> answer.order == after.orders[|desk.orders|]))
            && (after.orders == desk.orders && answer.Ok? ==>
                  Find(desk.orders, c.clientOrderId) == Some(answer.order))
  {
    var checked := desk.(riskEvents := desk.riskEvents
      + BreachesPublished(desk.switch, desk.profile, c.symbol, NotionalOf(c), c.equity));
    var order := Create(|desk.orders|, c.symbol, c.side, c.quantity, c.price, c.clientOrderId, now);
    hide NotionalOf, Authorised, BreachesPublished, Booked, Submitted, Find, Create, Terms, LetThrough, OrderValue;
    if order.Success? {
      CreatedTerms(|desk.orders|, c, now);
      SubmittedTerms(order.value, gateway);
      var answer := Submitted(order.value, gateway);
      if answer.Ok? {
        TermsDetermine(answer.order, |desk.orders|, c, now);
        BookedStores(checked, answer.order);
        if Authorised(desk.switch, desk.profile, NotionalOf(c), c.equity).approved {
          PassesAs(desk, c, answer.order);
        }
      }
    }
  }

  /** What the source asks of a new command's fields. */
  predicate WellFormed(c: Command) {
    c.quantity > 0.0 && c.price > 0.0 && !Blank(c.symbol) && !Blank(c.clientOrderId)
  }

  /** The gateway hands an order back. */
  predicate Returns(gateway: Gateway) {
    gateway.Leaves? || gateway.Rejects? || (gateway.FillsAt? && gateway.price > 0.0)
  }

  /** The order a new command leads to. */
  function Outcome(id: nat, c: Command, now: real, gateway: Gateway): TradeOrder
    requires Returns(gateway)
  {
    var pending := TradeOrder(id, Upper(c.symbol), c.side, c.quantity, Pending, c.price, None, c.clientOrderId, now, None);
    match gateway
    case FillsAt(price) => pending.(status := Filled, executedPrice := Some(price))
    case Rejects(reason) => pending.(status := Rejected, rejectionReason := Some(reason))
    case _ => pending
  }

  lemma SubmittedIff(id: nat, c: Command, now: real, gateway: Gateway)
    ensures var created := Create(id, c.symbol, c.side, c.quantity, c.price, c.clientOrderId, now);
            && (created.Success? <==> WellFormed(c))
            && (created.Success? ==>
                  if Returns(gateway) then Submitted(created.value, gateway) == Ok(Outcome(id, c, now, gateway))
                  else !Submitted(created.value, gateway).Ok?)
  {
    hide Upper, Blank;
  }

  /** A command is stored exactly if its client id is new, the gate approves its quantity times
      price, its fields are well formed and the gateway hands the order back; and then it is stored
      with its own terms and the gateway's outcome, which is also the answer. */
  lemma StoredIff(desk: Desk, c: Command, now: real, gateway: Gateway, notional: real)
    requires notional == c.quantity * c.price
    ensures var (after, answer) := Place(desk, c, now, gateway);
            if Find(desk.orders, c.clientOrderId).None? && WellFormed(c) && Returns(gateway)
               && Authorised(desk.switch, desk.profile, notional, c.equity).approved
            then after.orders == desk.orders + [Outcome(|desk.orders|, c, now, gateway)]
                 && (answer.Ok? ==> answer == Ok(Outcome(|desk.orders|, c, now, gateway)))
            else after.orders == desk.orders
                 && (Find(desk.orders, c.clientOrderId).None? ==> !answer.Ok?)
  {
    var checked := desk.(riskEvents := desk.riskEvents
      + BreachesPublished(desk.switch, desk.profile, c.symbol, NotionalOf(c), c.equity));
    assert notional == NotionalOf(c);
    SubmittedIff(|desk.orders|, c, now, gateway);
    hide NotionalOf, Authorised, BreachesPublished, Booked, Submitted, Find, Create, Outcome, WellFormed, Returns;
    if Returns(gateway) {
      BookedStores(checked, Outcome(|desk.orders|, c, now, gateway));
    }
  }

  /** What a new command that is not stored is answered: the gate's reason, what is wrong with
      its fields, or what the gateway said; only a crash of the gateway raises. */
  lemma RefusedAnswers(desk: Desk, c: Command, now: real, gateway: Gateway, decision: Decision)
    requires Find(desk.orders, c.clientOrderId).None?
    requires decision == Authorised(desk.switch, desk.profile, NotionalOf(c), c.equity)
    ensures var answer := Place(desk, c, now, gateway).1;
            if !decision.approved then answer == Err("risk_rejected:" + decision.reason)
            else if c.quantity <= 0.0 then answer == Err("quantity must be positive")
            else if c.price <= 0.0 then answer == Err("requested_price must be positive")
            else if Blank(c.symbol) then answer == Err("symbol must not be empty")
            else if Blank(c.clientOrderId) then answer == Err("client_order_id must not be empty")
            else match gateway
                 case FillsAt(price) => price <= 0.0 ==> answer == Err("executed_price must be positive")
                 case Fails(message) => answer == Err(message)
                 case Crashes(message) => answer == Raised(message)
                 case _ => true
  {
    hide NotionalOf, Authorised, BreachesPublished, Booked, Find, Blank, Upper;
  }

  lemma ApplyKeepsSymbol(p: P.Position, f: P.Fill)
    requires P.ValidFill(f)
    ensures P.Apply(p, f).symbol == p.symbol
  {}

  lemma BookedMoves(desk: Desk, order: TradeOrder)
    requires Upper(order.symbol) == order.symbol && PositionOf(desk.positions, order.symbol).symbol == order.symbol
    requires IsFilled(order) ==> P.ValidFill(FillOf(order))
    ensures Booked(desk, order).0.positions
         == if IsFilled(order) then desk.positions[order.symbol := P.Apply(PositionOf(desk.positions, order.symbol), FillOf(order))]
            else desk.positions
  {
    hide Upper, PositionOf;
    if IsFilled(order) {
      ApplyKeepsSymbol(PositionOf(desk.positions, order.symbol), FillOf(order));
    }
    hide P.Apply;
  }

  /** A fill moves the position of the order's symbol, and no other, by its side, quantity and
      executed price; an order that is not filled moves none. */
  lemma FillMovesPosition(desk: Desk, c: Command, now: real, gateway: Gateway)
    requires Consistent(desk) && Place(desk, c, now, gateway).0.orders != desk.orders
    ensures var after, symbol := Place(desk, c, now, gateway).0, Upper(c.symbol);
            var held := if symbol in desk.positions then desk.positions[symbol] else P.Position(symbol, 0.0, 0.0, 0.0);
            match gateway
            case FillsAt(price) =>
              var fill := P.Fill(if c.side == Buy then "buy" else "sell", c.quantity, price);
              && P.ValidFill(fill) && after.positions == desk.positions[symbol := P.Apply(held, fill)]
            case _ => after.positions == desk.positions
  {
    var order, symbol := Outcome(|desk.orders|, c, now, if Returns(gateway) then gateway else Leaves), Upper(c.symbol);
    var checked := desk.(riskEvents := desk.riskEvents
      + BreachesPublished(desk.switch, desk.profile, c.symbol, NotionalOf(c), c.equity));
    SubmittedIff(|desk.orders|, c, now, gateway);
    UpperIdempotent(c.symbol);
    assert Agrees(desk.orders, desk.positions, symbol);
    PositionIsReplay(desk, symbol);
    hide NotionalOf, Authorised, BreachesPublished, Submitted, Find, Create, Consistent, Blank, P.Apply, P.Replay, Agrees, Upper;
    assert Place(desk, c, now, gateway).0 == Booked(checked, order).0;
    BookedMoves(checked, order);
  }

  /** A new command beyond the limit on quantity times price stores nothing and is refused. */
  lemma BeyondLimitStoresNothing(desk: Desk, c: Command, now: real, gateway: Gateway, notional: real)
    requires Find(desk.orders, c.clientOrderId).None? && c.equity > 0.0 && notional == c.quantity * c.price
    requires desk.switch.active || !WithinLimits(notional, desk.profile, c.equity)
    ensures Place(desk, c, now, gateway).0.orders == desk.orders && !Place(desk, c, now, gateway).1.Ok?
  {
    StoredIff(desk, c, now, gateway, notional);
    if desk.switch.active {
      ReasonGiven(desk.switch, desk.profile, 0.0, PositionPct(notional, c.equity));
    } else {
      RefusedBeyond(desk.switch, desk.profile, notional, c.equity);
    }
    hide Place, Decide, PositionPct, Find;
  }

  // ----- Idempotence ----------------------------------------------------------------

  lemma {:induction false} RunConcat(desk: Desk, a: seq<Op>, b: seq<Op>)
    ensures Run(desk, a + b) == Run(Run(desk, a), b)
  {
    if b == [] {
      assert a + b == a;
    } else {
      assert (a + b)[..|a + b| - 1] == a + b[..|b| - 1];
      RunConcat(desk, a, b[..|b| - 1]);
    }
  }

  lemma {:induction false} OrdersOnlyGrow(desk: Desk, ops: seq<Op>)
    ensures desk.orders <= Run(desk, ops).orders
  {
    if ops == [] {
    } else {
      var front, op := ops[..|ops| - 1], ops[|ops| - 1];
      OrdersOnlyGrow(desk, front);
      if op.Execute? {
        PlaceStores(Run(desk, front), op.command, op.now, op.gateway);
      }
      hide Place;
    }
  }

  lemma PlaceFound(desk: Desk, c: Command, now: real, gateway: Gateway)
    requires Find(desk.orders, c.clientOrderId).Some?
    ensures Place(desk, c, now, gateway) == (desk, Ok(Find(desk.orders, c.clientOrderId).value))
  {}

  lemma AcceptedIsFound(desk: Desk, c: Command, now: real, gateway: Gateway)
    requires Place(desk, c, now, gateway).1.Ok?
    ensures var first := Place(desk, c, now, gateway);
            Find(first.0.orders, c.clientOrderId) == Some(first.1.order)
  {
    var first := Place(desk, c, now, gateway);
    PlaceStores(desk, c, now, gateway);
    hide Place;
    if first.0.orders != desk.orders {
      assert first.0.orders == desk.orders + [first.1.order];
      assert (desk.orders + [first.1.order])[..|desk.orders|] == desk.orders;
    }
  }

  /** Once a command is accepted, every later command with its client id answers the same
      order and changes nothing, whatever it asks for and whatever happened in between. */
  lemma {:induction false} AcceptedForever(desk: Desk, c: Command, now: real, gateway: Gateway, ops: seq<Op>,
                        again: Command, later: real, gateway': Gateway)
    requires again.clientOrderId == c.clientOrderId
    requires Place(desk, c, now, gateway).1.Ok?
    ensures var first := Place(desk, c, now, gateway);
            Place(Run(first.0, ops), again, later, gateway') == (Run(first.0, ops), first.1)
  {
    var first := Place(desk, c, now, gateway);
    AcceptedIsFound(desk, c, now, gateway);
    hide Place, Find;
    OrdersOnlyGrow(first.0, ops);
    var final := Run(first.0, ops);
    FindExtends(first.0.orders, final.orders[|first.0.orders|..], c.clientOrderId);
    assert first.0.orders + final.orders[|first.0.orders|..] == final.orders;
    PlaceFound(final, again, later, gateway');
  }

  /** The run without the commands whose client id was already accepted when they arrived. */
  function Pruned(desk: Desk, ops: seq<Op>): seq<Op> {
    if ops == [] then []
    else
      var front, op := ops[..|ops| - 1], ops[|ops| - 1];
      if op.Execute? && Find(Run(desk, front).orders, op.command.clientOrderId).Some? then Pruned(desk, front)
      else Pruned(desk, front) + [op]
  }

  /** Deleting repeated commands changes nothing, risk events included, and leaves no repeats. */
  lemma {:induction false} RepeatsAreInvisible(desk: Desk, ops: seq<Op>)
    ensures Run(desk, Pruned(desk, ops)) == Run(desk, ops)
    ensures Pruned(desk, Pruned(desk, ops)) == Pruned(desk, ops)
  {
    if ops == [] {
    } else {
      var front, op := ops[..|ops| - 1], ops[|ops| - 1];
      RepeatsAreInvisible(desk, front);
      assert (Pruned(desk, front) + [op])[..|Pruned(desk, front)|] == Pruned(desk, front);
      hide Create, Submitted, Authorised, BreachesPublished, Booked;
    }
  }

  // ----- The risk gate over runs -------------------------------------------------------

  /** ops[i] is the command that stored order j of the run, and the gate let it through. */
  predicate StoredUnderGate(ops: seq<Op>, i: nat, order: TradeOrder, j: nat)
    requires i < |ops|
  {
    var before := Run(OPENING, ops[..i]);
    ops[i].Execute? && |before.orders| == j && LetThrough(before, ops[i].command, order)
  }

  /** Every order stored in a run was let through by the gate when it was placed. */
  lemma {:induction false} OrdersPassedTheGate(ops: seq<Op>, j: nat) returns (i: nat)
    requires j < |Run(OPENING, ops).orders|
    ensures i < |ops| && StoredUnderGate(ops, i, Run(OPENING, ops).orders[j], j)
  {
    hide Place, LetThrough;
    var n := |ops| - 1;
    var front, op := ops[..n], ops[n];
    var before := Run(OPENING, front);
    if op.Execute? {
      PlaceStores(before, op.command, op.now, op.gateway);
    }
    if j < |before.orders| {
      i := OrdersPassedTheGate(front, j);
      assert front[..i] == ops[..i];
    } else {
      i := n;
    }
  }

  lemma PlaceKeepsGate(desk: Desk, c: Command, now: real, gateway: Gateway)
    ensures var after := Place(desk, c, now, gateway).0;
            && after.switch == desk.switch && after.profile == desk.profile
            && (after.riskEvents == desk.riskEvents ||
                after.riskEvents == desk.riskEvents + [RiskBreached(c.symbol, "posture_breach")])
  {
    hide Notifies, NotionalOf, Authorised, Create, Submitted, Find, P.ApplyFill, PositionOf;
  }

  lemma AfterSets(desk: Desk, op: Op)
    ensures After(desk, op).switch == if op.SetSwitch? then KillSwitch(op.active, op.reason) else desk.switch
    ensures After(desk, op).profile == if op.SetProfile? then op.profile else desk.profile
  {
    if op.Execute? {
      PlaceKeepsGate(desk, op.command, op.now, op.gateway);
    }
    hide Place;
  }

  /** In every run the switch and the profile in force are the last ones set, or the defaults. */
  lemma {:induction false} LastSetIsInForce(ops: seq<Op>, k: nat)
    requires k < |ops|
    ensures ops[k].SetSwitch? && (forall j :: k < j < |ops| ==> !ops[j].SetSwitch?) ==>
              Run(OPENING, ops).switch == KillSwitch(ops[k].active, ops[k].reason)
    ensures ops[k].SetProfile? && (forall j :: k < j < |ops| ==> !ops[j].SetProfile?) ==>
              Run(OPENING, ops).profile == ops[k].profile
    ensures (forall j :: 0 <= j < |ops| ==> !ops[j].SetSwitch?) ==> Run(OPENING, ops).switch == KillSwitch(false, None)
    ensures (forall j :: 0 <= j < |ops| ==> !ops[j].SetProfile?) ==>
              Run(OPENING, ops).profile == RiskProfile(0.10, 0.02, 0.15, false, true)
  {
    hide After;
    var n := |ops| - 1;
    var front, op := ops[..n], ops[n];
    assert forall j :: 0 <= j < n ==> front[j] == ops[j];
    AfterSets(Run(OPENING, front), op);
    if n == 0 {
      assert Run(OPENING, front) == OPENING;
    } else {
      LastSetIsInForce(front, if k < n then k else 0);
    }
  }

  /** The reasons of the triggers among the risk events. */
  function Triggers(events: seq<RiskEvent>): seq<string> {
    if events == [] then []
    else
      var front, last := events[..|events| - 1], events[|events| - 1];
      Triggers(front) + if last.KillSwitchTriggered? then [last.reason] else []
  }

  /** The reason an activation of the switch gives, "manual" for an empty or absent one. */
  function ReasonsOf(op: Op): seq<string> {
    if op.SetSwitch? && op.active
    then [if op.reason.Some? && op.reason.value != "" then op.reason.value else "manual"]
    else []
  }

  function Activations(ops: seq<Op>): seq<string> {
    if ops == [] then [] else Activations(ops[..|ops| - 1]) + ReasonsOf(ops[|ops| - 1])
  }

  lemma TriggersNext(events: seq<RiskEvent>, e: RiskEvent)
    ensures Triggers(events + [e]) == Triggers(events) + if e.KillSwitchTriggered? then [e.reason] else []
  {
    assert (events + [e])[..|events|] == events;
  }

  lemma AfterTriggers(desk: Desk, op: Op)
    ensures Triggers(After(desk, op).riskEvents) == Triggers(desk.riskEvents) + ReasonsOf(op)
  {
    assert desk.riskEvents + [] == desk.riskEvents;
    hide Place, Triggers;
    match op {
      case Execute(c, now, gateway) =>
        PlaceKeepsGate(desk, c, now, gateway);
        TriggersNext(desk.riskEvents, RiskBreached(c.symbol, "posture_breach"));
      case SetSwitch(active, reason) =>
        TriggersNext(desk.riskEvents, KillSwitchTriggered(ReasonOr(reason, "manual")));
      case SetProfile(_) =>
    }
  }

  /** In every run each activation of the switch, and nothing else, publishes a trigger, in order. */
  lemma {:induction false} ActivationsTrigger(ops: seq<Op>)
    ensures Triggers(Run(OPENING, ops).riskEvents) == Activations(ops)
  {
    if ops == [] {
      assert Run(OPENING, ops) == OPENING;
    } else {
      hide After, ReasonsOf;
      ActivationsTrigger(ops[..|ops| - 1]);
      AfterTriggers(Run(OPENING, ops[..|ops| - 1]), ops[|ops| - 1]);
    }
  }
}
