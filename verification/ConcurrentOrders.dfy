/** Concurrent calls of PlaceOrderService.execute, interleaved at its awaits. */
module ConcurrentOrders {
  import opened Wrappers
  import opened Orders
  import opened Risk
  import opened PlaceOrder
  import opened OrderRuns
  import P = Portfolio

  /** Where a call of execute is suspended. */
  datatype Phase =
    | Idle
    | LookedUp
    | Allowed
    | Placed(order: TradeOrder)
    | Saved(order: TradeOrder)
    | HasRead(order: TradeOrder, base: P.Position)
    | Settled(order: TradeOrder)
    | Done(answer: Answer)

  datatype Call = Call(command: Command, phase: Phase)

  /** A position write: the order applied, the position it was computed from, and the one it
      replaced. */
  datatype Write = Write(order: TradeOrder, base: P.Position, current: P.Position)

  datatype World = World(
    calls: seq<Call>, orders: seq<TradeOrder>, positions: map<string, P.Position>,
    events: seq<OrderEvent>, writes: seq<Write>)

  /** What the rest of the world answers during one step: the switch and profile then stored,
      the clock and the gateway. */
  datatype Choice = Choice(switch: KillSwitch, profile: RiskProfile, now: real, gateway: Gateway)

  datatype Turn = Turn(call: nat, choice: Choice)

  function Opening(commands: seq<Command>): World {
    World(seq(|commands|, i requires 0 <= i < |commands| => Call(commands[i], Idle)), [], map[], [], [])
  }

  function Moved(w: World, i: nat, phase: Phase): World
    requires i < |w.calls|
  {
    w.(calls := w.calls[i := w.calls[i].(phase := phase)])
  }

  function EventOf(order: TradeOrder): OrderEvent {
    OrderStateChanged(order.id, order.status, order.symbol)
  }

  /** Runs call i up to its next await. Order ids are unique per call; the order table's unique
      key refuses a second order with the same client id. */
  function Next(w: World, i: nat, choice: Choice): World
    requires i < |w.calls|
  {
    var c := w.calls[i].command;
    match w.calls[i].phase
    case Idle =>
      (match Find(w.orders, c.clientOrderId)
       case Some(existing) => Moved(w, i, Done(Ok(existing)))
       case None => Moved(w, i, LookedUp))
    case LookedUp =>
      var decision := Authorised(choice.switch, choice.profile, NotionalOf(c), c.equity);
      Moved(w, i, if decision.approved then Allowed else Done(Err("risk_rejected:" + decision.reason)))
    case Allowed =>
      (match Create(i, c.symbol, c.side, c.quantity, c.price, c.clientOrderId, choice.now)
       case Failure(message) => Moved(w, i, Done(Err(message)))
       case Success(order) =>
         match Submitted(order, choice.gateway)
         case Ok(submitted) => Moved(w, i, Placed(submitted))
         case answer => Moved(w, i, Done(answer)))
    case Placed(order) =>
      if Find(w.orders, order.clientOrderId).Some? then Moved(w, i, Done(Raised("unique constraint")))
      else Moved(w.(orders := w.orders + [order]), i, if IsFilled(order) then Saved(order) else Settled(order))
    case Saved(order) => Moved(w, i, HasRead(order, PositionOf(w.positions, order.symbol)))
    case HasRead(order, base) =>
      if !IsFilled(order) then w
      else
        (match P.ApplyFill(base, FillOf(order))
         case Failure(message) => Moved(w, i, Done(Raised(message)))
         case Success(p) =>
           Moved(w.(positions := w.positions[Upper(p.symbol) := p],
                    writes := w.writes + [Write(order, base, PositionOf(w.positions, order.symbol))]),
                 i, Settled(order)))
    case Settled(order) =>
      Moved(w.(events := w.events + [EventOf(order)]), i, Done(Ok(order)))
    case Done(_) => w
  }

  function Step(w: World, turn: Turn): World {
    if turn.call < |w.calls| then Next(w, turn.call, turn.choice) else w
  }

  function Interleaved(w: World, turns: seq<Turn>): World {
    if turns == [] then w else Step(Interleaved(w, turns[..|turns| - 1]), turns[|turns| - 1])
  }

  /** The order a call has saved and not yet put into its position, if any. */
  predicate InSection(call: Call) {
    call.phase.Saved? || call.phase.HasRead?
  }

  predicate InSectionOf(call: Call, symbol: string) {
    InSection(call) && call.phase.order.symbol == symbol
  }

  /** No call is between saving an order of the symbol and writing its position. */
  predicate Closed(w: World, symbol: string) {
    forall j :: 0 <= j < |w.calls| ==> !InSectionOf(w.calls[j], symbol)
  }

  // ----- At most one order and one position write per client id ------------------------

  predicate DistinctOrders(orders: seq<TradeOrder>) {
    forall i, j :: 0 <= i < j < |orders| ==>
      orders[i].clientOrderId != orders[j].clientOrderId && orders[i].id != orders[j].id
  }

  predicate DistinctWrites(writes: seq<Write>) {
    forall i, j :: 0 <= i < j < |writes| ==> writes[i].order.id != writes[j].order.id
  }

  /** A call's own order carries the call's number and is sound; it is stored from Saved on. */
  predicate CallKnows(w: World, i: nat)
    requires i < |w.calls|
  {
    match w.calls[i].phase
    case Placed(o) => o.id == i && Sound(o)
    case Saved(o) => o.id == i && Sound(o) && IsFilled(o) && o in w.orders
    case HasRead(o, base) => o.id == i && Sound(o) && IsFilled(o) && o in w.orders && base.symbol == o.symbol
    case Settled(o) => o.id == i && o in w.orders
    case _ => true
  }

  /** Calls that have not saved an order own none, and calls still in their section no write. */
  predicate Fresh(w: World, i: nat)
    requires i < |w.calls|
  {
    var phase := w.calls[i].phase;
    && (phase.Idle? || phase.LookedUp? || phase.Allowed? || phase.Placed? ==>
          forall k :: 0 <= k < |w.orders| ==> w.orders[k].id != i)
    && (!phase.Settled? && !phase.Done? ==>
          forall k :: 0 <= k < |w.writes| ==> w.writes[k].order.id != i)
  }

  predicate Tidy(w: World) {
    && DistinctOrders(w.orders) && DistinctWrites(w.writes)
    && (forall k :: 0 <= k < |w.writes| ==> w.writes[k].order in w.orders && IsFilled(w.writes[k].order))
    && (forall k :: 0 <= k < |w.orders| ==> Sound(w.orders[k]) && w.orders[k].id < |w.calls|)
    && (forall i :: 0 <= i < |w.calls| ==> CallKnows(w, i) && Fresh(w, i))
    && (forall symbol :: symbol in w.positions ==> w.positions[symbol].symbol == symbol)
  }

  /** A step changes call i and appends at most one order and one write, both of call i. */
  lemma TidyAfter(w: World, w': World, i: nat)
    requires Tidy(w) && i < |w.calls| && |w'.calls| == |w.calls|
    requires forall j :: 0 <= j < |w.calls| && j != i ==> w'.calls[j] == w.calls[j]
    requires w'.orders == w.orders ||
             (|w'.orders| == |w.orders| + 1 && w'.orders[..|w.orders|] == w.orders
              && w'.orders[|w.orders|].id == i && Sound(w'.orders[|w.orders|]))
    requires DistinctOrders(w'.orders)
    requires w'.writes == w.writes ||
             (|w'.writes| == |w.writes| + 1 && w'.writes[..|w.writes|] == w.writes
              && var o := w'.writes[|w.writes|].order; o.id == i && o in w'.orders && IsFilled(o))
    requires DistinctWrites(w'.writes)
    requires CallKnows(w', i) && Fresh(w', i)
    requires forall symbol :: symbol in w'.positions ==> w'.positions[symbol].symbol == symbol
    ensures Tidy(w')
  {
    hide Sound;
    forall o | o in w.orders ensures o in w'.orders {
      var k :| 0 <= k < |w.orders| && w.orders[k] == o;
      assert w'.orders[k] == w'.orders[..|w.orders|][k];
    }
    forall k | 0 <= k < |w.orders| ensures w'.orders[k] == w.orders[k] {
      assert w'.orders[k] == w'.orders[..|w.orders|][k];
    }
    forall k | 0 <= k < |w.writes| ensures w'.writes[k] == w.writes[k] {
      assert w'.writes[k] == w'.writes[..|w.writes|][k];
    }
    forall j | 0 <= j < |w.calls| ensures CallKnows(w', j) && Fresh(w', j) {
      if j != i {
        assert CallKnows(w, j) && Fresh(w, j);
      }
    }
  }

  lemma SavingIsTidy(w: World, i: nat, choice: Choice)
    requires Tidy(w) && i < |w.calls| && w.calls[i].phase.Placed?
    ensures Tidy(Next(w, i, choice))
  {
    assert CallKnows(w, i) && Fresh(w, i);
    var w' := Next(w, i, choice);
    FindMeaning(w.orders, w.calls[i].phase.order.clientOrderId);
    hide Find, Sound;
    if w'.orders != w.orders {
      assert w'.orders[|w.orders|] in w'.orders;
    }
    TidyAfter(w, w', i);
  }

  lemma KeepsSymbol(p: P.Position, f: P.Fill)
    requires P.ApplyFill(p, f).Success?
    ensures P.ApplyFill(p, f).value.symbol == p.symbol
  {}

  lemma WritingIsTidy(w: World, i: nat, choice: Choice)
    requires Tidy(w) && i < |w.calls| && w.calls[i].phase.HasRead?
    ensures Tidy(Next(w, i, choice))
    ensures Next(w, i, choice).calls[i].phase.Settled?
  {
    assert CallKnows(w, i) && Fresh(w, i);
    var w' := Next(w, i, choice);
    hide P.Apply, P.Extended, P.Reduced;
    var order, base := w.calls[i].phase.order, w.calls[i].phase.base;
    KeepsSymbol(base, FillOf(order));
    assert Upper(order.symbol) == order.symbol;
    hide Sound, P.ApplyFill;
    TidyAfter(w, w', i);
  }

  lemma NextIsTidy(w: World, i: nat, choice: Choice)
    requires Tidy(w) && i < |w.calls|
    ensures Tidy(Next(w, i, choice)) && |Next(w, i, choice).calls| == |w.calls|
  {
    assert CallKnows(w, i) && Fresh(w, i);
    var phase, c, w' := w.calls[i].phase, w.calls[i].command, Next(w, i, choice);
    if phase.Placed? {
      SavingIsTidy(w, i, choice);
    } else if phase.HasRead? {
      WritingIsTidy(w, i, choice);
    } else {
      if phase.Allowed? {
        var order := Create(i, c.symbol, c.side, c.quantity, c.price, c.clientOrderId, choice.now);
        CreatedIsSound(i, c.symbol, c.side, c.quantity, c.price, c.clientOrderId, choice.now);
        if order.Success? {
          SubmittedIsSound(order.value, choice.gateway);
        }
      }
      hide Find, Sound, Create, Submitted, Authorised;
      TidyAfter(w, w', i);
    }
  }

  lemma {:induction false} RunsAreTidy(commands: seq<Command>, turns: seq<Turn>)
    ensures Tidy(Interleaved(Opening(commands), turns))
    ensures |Interleaved(Opening(commands), turns).calls| == |commands|
  {
    if turns == [] {
    } else {
      var front, turn := turns[..|turns| - 1], turns[|turns| - 1];
      RunsAreTidy(commands, front);
      var w := Interleaved(Opening(commands), front);
      if turn.call < |w.calls| {
        NextIsTidy(w, turn.call, turn.choice);
        hide Tidy, Next;
      }
    }
  }

  /** In every interleaving of every finite set of calls, at most one order is stored and at
      most one position write happens per client id, and only filled stored orders are written. */
  lemma AtMostOncePerClientId(commands: seq<Command>, turns: seq<Turn>)
    ensures var w := Interleaved(Opening(commands), turns);
            && (forall i, j :: 0 <= i < j < |w.orders| ==> w.orders[i].clientOrderId != w.orders[j].clientOrderId)
            && (forall i, j :: 0 <= i < j < |w.writes| ==>
                  w.writes[i].order.clientOrderId != w.writes[j].order.clientOrderId)
            && (forall k :: 0 <= k < |w.writes| ==> w.writes[k].order in w.orders && IsFilled(w.writes[k].order))
  {
    RunsAreTidy(commands, turns);
    var w := Interleaved(Opening(commands), turns);
    hide Interleaved, Sound;
    forall i, j | 0 <= i < j < |w.writes|
      ensures w.writes[i].order.clientOrderId != w.writes[j].order.clientOrderId
    {
      assert w.writes[i].order in w.orders && w.writes[j].order in w.orders;
      var a :| 0 <= a < |w.orders| && w.orders[a] == w.writes[i].order;
      var b :| 0 <= b < |w.orders| && w.orders[b] == w.writes[j].order;
      assert a != b;
    }
  }

  // ----- What a step changes -----------------------------------------------------------

  /** Only saving an order and writing a position touch the stores the other calls read. */
  lemma OtherSteps(w: World, i: nat, choice: Choice)
    requires i < |w.calls| && !w.calls[i].phase.Placed? && !w.calls[i].phase.HasRead?
    ensures var w' := Next(w, i, choice);
            && w'.orders == w.orders && w'.positions == w.positions && w'.writes == w.writes
            && |w'.calls| == |w.calls| && w'.calls == w.calls[i := w'.calls[i]]
            && (if w.calls[i].phase.Settled?
                then w'.calls[i].phase.Done? && w'.events == w.events + [EventOf(w.calls[i].phase.order)]
                else w'.events == w.events)
            && (w.calls[i].phase.Done? ==> w' == w)
            && (if w.calls[i].phase.Saved?
                then w'.calls[i].phase == HasRead(w.calls[i].phase.order, PositionOf(w.positions, w.calls[i].phase.order.symbol))
                else !InSection(w'.calls[i]))
  {}

  function WriteOf(w: World, order: TradeOrder, base: P.Position): Write {
    Write(order, base, PositionOf(w.positions, order.symbol))
  }

  lemma WriteStep(w: World, i: nat, choice: Choice)
    requires i < |w.calls| && w.calls[i].phase.HasRead?
    requires var o := w.calls[i].phase.order; IsFilled(o) && Sound(o) && w.calls[i].phase.base.symbol == o.symbol
    ensures var w', o, base := Next(w, i, choice), w.calls[i].phase.order, w.calls[i].phase.base;
            && w'.orders == w.orders && w'.events == w.events
            && w'.calls == w.calls[i := w.calls[i].(phase := Settled(o))]
            && w'.writes == w.writes + [WriteOf(w, o, base)]
            && P.ValidFill(FillOf(o))
            && w'.positions == w.positions[o.symbol := P.Apply(base, FillOf(o))]
  {
    KeepsSymbol(w.calls[i].phase.base, FillOf(w.calls[i].phase.order));
    hide P.Apply, PositionOf;
  }

  lemma SaveStep(w: World, i: nat, choice: Choice)
    requires i < |w.calls| && w.calls[i].phase.Placed?
    ensures var w', o := Next(w, i, choice), w.calls[i].phase.order;
            && w'.positions == w.positions && w'.writes == w.writes && w'.events == w.events
            && |w'.calls| == |w.calls| && w'.calls == w.calls[i := w'.calls[i]]
            && w'.calls[i].command == w.calls[i].command
            && ((w'.orders == w.orders && w'.calls[i].phase.Done?) ||
                (w'.orders == w.orders + [o]
                 && w'.calls[i].phase == if IsFilled(o) then Saved(o) else Settled(o)))
  {
    hide Find;
  }

  lemma InterleavedNext(w: World, turns: seq<Turn>, turn: Turn)
    ensures Interleaved(w, turns + [turn]) == Step(Interleaved(w, turns), turn)
  {
    assert (turns + [turn])[..|turns|] == turns;
  }
}
