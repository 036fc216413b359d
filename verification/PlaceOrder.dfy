/** PlaceOrderService.execute, run sequentially (app/modules/trading/application/services/place_order.py). */
module PlaceOrder {
  import opened Wrappers
  import opened Orders
  import opened Risk
  import P = Portfolio

  datatype Command = Command(
    symbol: string, side: Side, quantity: real, price: real, clientOrderId: string, equity: real)

  function NotionalOf(c: Command): real {
    c.quantity * c.price
  }

  // What the order gateway does with a pending order. Caught errors are ValueError and
  // RuntimeError; any other exception escapes from execute.
  datatype Gateway = FillsAt(price: real) | Leaves | Rejects(reason: string) | Fails(message: string) | Crashes(message: string)

  datatype Answer = Ok(order: TradeOrder) | Err(message: string) | Raised(message: string)

  datatype OrderEvent = OrderStateChanged(orderId: nat, status: Status, symbol: string)

  /** The stores the service works on. */
  datatype Desk = Desk(
    orders: seq<TradeOrder>, positions: map<string, P.Position>, events: seq<OrderEvent>,
    switch: KillSwitch, profile: RiskProfile, riskEvents: seq<RiskEvent>)

  function Find(orders: seq<TradeOrder>, clientOrderId: string): Option<TradeOrder> {
    if orders == [] then None
    else
      var earlier := Find(orders[..|orders| - 1], clientOrderId);
      if earlier.Some? then earlier
      else if orders[|orders| - 1].clientOrderId == clientOrderId then Some(orders[|orders| - 1])
      else None
  }

  function Submitted(order: TradeOrder, gateway: Gateway): Answer {
    match gateway
    case FillsAt(price) => (match Fill(order, price) case Success(o) => Ok(o) case Failure(m) => Err(m))
    case Leaves => Ok(order)
    case Rejects(reason) => (match Reject(order, reason) case Success(o) => Ok(o) case Failure(m) => Err(m))
    case Fails(message) => Err(message)
    case Crashes(message) => Raised(message)
  }

  /** The stored position of a symbol, or the empty one. */
  function PositionOf(positions: map<string, P.Position>, symbol: string): P.Position {
    if Upper(symbol) in positions then positions[Upper(symbol)] else P.Empty(symbol)
  }

  function FillOf(order: TradeOrder): P.Fill
    requires order.executedPrice.Some?
  {
    P.Fill(order.side.Value(), order.quantity, order.executedPrice.value)
  }

  predicate IsFilled(order: TradeOrder) {
    order.status == Filled && order.executedPrice.Some?
  }

  /** Everything after the order has been saved. */
  function Booked(desk: Desk, order: TradeOrder): (Desk, Answer) {
    var saved := desk.(orders := desk.orders + [order]);
    var event := OrderStateChanged(order.id, order.status, order.symbol);
    if IsFilled(order) then
      match P.ApplyFill(PositionOf(desk.positions, order.symbol), FillOf(order))
      case Failure(message) => (saved, Raised(message))
      case Success(p) =>
        (saved.(positions := desk.positions[Upper(p.symbol) := p], events := desk.events + [event]), Ok(order))
    else (saved.(events := desk.events + [event]), Ok(order))
  }

  /** One call of execute. The new order's id is its place in the order store. */
  function Place(desk: Desk, c: Command, now: real, gateway: Gateway): (Desk, Answer) {
    match Find(desk.orders, c.clientOrderId)
    case Some(existing) => (desk, Ok(existing))
    case None =>
      var notional := NotionalOf(c);
      var decision := Authorised(desk.switch, desk.profile, notional, c.equity);
      var checked := desk.(riskEvents := desk.riskEvents
        + BreachesPublished(desk.switch, desk.profile, c.symbol, notional, c.equity));
      if !decision.approved then (checked, Err("risk_rejected:" + decision.reason))
      else
        match Create(|desk.orders|, c.symbol, c.side, c.quantity, c.price, c.clientOrderId, now)
        case Failure(message) => (checked, Err(message))
        case Success(order) =>
          match Submitted(order, gateway)
          case Ok(submitted) => Booked(checked, submitted)
          case answer => (checked, answer)
  }

  lemma {:induction false} FindExtends(a: seq<TradeOrder>, b: seq<TradeOrder>, clientOrderId: string)
    ensures Find(a, clientOrderId).Some? ==> Find(a + b, clientOrderId) == Find(a, clientOrderId)
  {
    if b == [] {
      assert a + b == a;
    } else {
      assert (a + b)[..|a + b| - 1] == a + b[..|b| - 1];
      FindExtends(a, b[..|b| - 1], clientOrderId);
    }
  }

  /** The service over its repositories and publisher. */
  class PlaceOrderService {
    const riskGate: RiskServiceAdapter
    var orders: seq<TradeOrder>
    var positions: map<string, P.Position>
    var events: seq<OrderEvent>

    function View(): Desk
      reads this, riskGate.service
    {
      Desk(orders, positions, events, riskGate.service.switch, riskGate.service.profile, riskGate.service.published)
    }

    constructor (riskGate: RiskServiceAdapter)
      ensures this.riskGate == riskGate && orders == [] && positions == map[] && events == []
    {
      this.riskGate := riskGate;
      orders, positions, events := [], map[], [];
    }

    method GetByClientOrderId(clientOrderId: string) returns (found: Option<TradeOrder>)
      ensures found == Find(orders, clientOrderId)
    {
      for i := 0 to |orders|
        invariant Find(orders[..i], clientOrderId).None?
      {
        assert orders[..i + 1][..i] == orders[..i];
        if orders[i].clientOrderId == clientOrderId {
          FindExtends(orders[..i + 1], orders[i + 1..], clientOrderId);
          assert orders[..i + 1] + orders[i + 1..] == orders;
          return Some(orders[i]);
        }
      }
      assert orders[..|orders|] == orders;
      return None;
    }

    /** Save the order, update its position, publish the event. */
    method Book(submitted: TradeOrder) returns (answer: Answer)
      modifies this
      ensures (View(), answer) == Booked(old(View()), submitted)
    {
      hide P.ApplyFill;
      orders := orders + [submitted];
      if submitted.status == Filled && submitted.executedPrice.Some? {
        var position := PositionOf(positions, submitted.symbol);
        var updated := P.ApplyFill(position, FillOf(submitted));
        if updated.Failure? {
          return Raised(updated.error);
        }
        positions := positions[Upper(updated.value.symbol) := updated.value];
      }
      events := events + [OrderStateChanged(submitted.id, submitted.status, submitted.symbol)];
      return Ok(submitted);
    }

    method Execute(c: Command, now: real, gateway: Gateway) returns (answer: Answer)
      modifies this, riskGate.service`published
      ensures (View(), answer) == Place(old(View()), c, now, gateway)
    {
      hide NotionalOf, Authorised, BreachesPublished, Create, Submitted, Booked, Find;
      var existing := GetByClientOrderId(c.clientOrderId);
      if existing.Some? {
        return Ok(existing.value);
      }
      var notional := NotionalOf(c);
      var allowed, reason := riskGate.Authorise(c.symbol, notional, c.equity);
      if !allowed {
        return Err("risk_rejected:" + reason);
      }
      var order := Create(|orders|, c.symbol, c.side, c.quantity, c.price, c.clientOrderId, now);
      if order.Failure? {
        return Err(order.error);
      }
      var submission := Submitted(order.value, gateway);
      if !submission.Ok? {
        return submission;
      }
      answer := Book(submission.order);
    }
  }

  lemma {:induction false} FindMeaning(orders: seq<TradeOrder>, clientOrderId: string)
    ensures match Find(orders, clientOrderId)
            case None => forall i :: 0 <= i < |orders| ==> orders[i].clientOrderId != clientOrderId
            case Some(o) => o in orders && o.clientOrderId == clientOrderId
  {
    if orders == [] {
    } else {
      FindMeaning(orders[..|orders| - 1], clientOrderId);
    }
  }

  /** A stored position is found whatever the case of the symbol asked for. */
  lemma PositionIgnoresCase(positions: map<string, P.Position>, symbol: string, position: P.Position)
    ensures PositionOf(positions[Upper(symbol) := position], symbol) == position
  {}
}
