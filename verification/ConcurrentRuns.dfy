/** What every interleaving keeps of the gate and of the event log. */
module ConcurrentRuns {
  import opened Wrappers
  import opened Orders
  import opened Risk
  import opened PlaceOrder
  import opened OrderRuns
  import opened ConcurrentOrders
  import P = Portfolio

  // ----- Every stored order passed the gate ----------------------------------------------

  predicate Approves(c: Command, choice: Choice) {
    Authorised(choice.switch, choice.profile, NotionalOf(c), c.equity).approved
  }

  /** In turn k the call was at its authorise step and got through, by the switch and profile
      stored at that moment. */
  predicate AuthorisedIn(commands: seq<Command>, turns: seq<Turn>, k: nat)
    requires k < |turns|
  {
    var w, i := Interleaved(Opening(commands), turns[..k]), turns[k].call;
    i < |w.calls| && i < |commands| && w.calls[i].phase.LookedUp? && Approves(commands[i], turns[k].choice)
  }

  /** The calls that have got through. */
  function Passed(commands: seq<Command>, turns: seq<Turn>): set<nat> {
    if turns == [] then {}
    else
      var k := |turns| - 1;
      Passed(commands, turns[..k]) + if AuthorisedIn(commands, turns, k) then {turns[k].call} else {}
  }

  /** The order carries the terms of the command. */
  predicate Matches(order: TradeOrder, c: Command) {
    && order.clientOrderId == c.clientOrderId && order.symbol == Upper(c.symbol) && order.side == c.side
    && order.quantity == c.quantity && order.requestedPrice == c.price
  }

  predicate CallCleared(call: Call, i: nat, passed: set<nat>) {
    match call.phase
    case Allowed => i in passed
    case Placed(o) => i in passed && Matches(o, call.command)
    case _ => true
  }

  predicate Cleared(w: World, commands: seq<Command>, passed: set<nat>) {
    && |w.calls| == |commands|
    && (forall i :: 0 <= i < |w.calls| ==> w.calls[i].command == commands[i] && CallCleared(w.calls[i], i, passed))
    && (forall k :: 0 <= k < |w.orders| ==>
          w.orders[k].id < |commands| && w.orders[k].id in passed && Matches(w.orders[k], commands[w.orders[k].id]))
  }

  lemma CreatedMatches(id: nat, c: Command, choice: Choice)
    ensures var order := Create(id, c.symbol, c.side, c.quantity, c.price, c.clientOrderId, choice.now);
            order.Success? && Submitted(order.value, choice.gateway).Ok? ==>
              Matches(Submitted(order.value, choice.gateway).order, c)
  {
    hide Upper, Blank;
  }

  /** How a step moves its call towards the order. */
  lemma MoveCleared(w: World, i: nat, choice: Choice, passed: set<nat>)
    requires i < |w.calls| && CallCleared(w.calls[i], i, passed)
    ensures var call := Next(w, i, choice).calls[i];
            && call.command == w.calls[i].command
            && CallCleared(call, i, passed + if w.calls[i].phase.LookedUp? && Approves(call.command, choice) then {i} else {})
  {
    CreatedMatches(i, w.calls[i].command, choice);
    hide Create, Submitted, Matches, Authorised, NotionalOf, Find, P.ApplyFill, PositionOf;
  }

  lemma WriteAfterRead(w: World, i: nat, choice: Choice)
    requires Tidy(w) && i < |w.calls| && w.calls[i].phase.HasRead?
    ensures var w' := Next(w, i, choice);
            && w'.orders == w.orders && w'.events == w.events
            && w'.calls == w.calls[i := w.calls[i].(phase := Settled(w.calls[i].phase.order))]
  {
    assert CallKnows(w, i);
    hide Next, P.Apply, PositionOf;
    WriteStep(w, i, choice);
  }

  lemma NextCleared(w: World, commands: seq<Command>, i: nat, choice: Choice, passed: set<nat>, more: set<nat>)
    requires Tidy(w) && i < |w.calls| && Cleared(w, commands, passed)
    requires more == if w.calls[i].phase.LookedUp? && Approves(commands[i], choice) then {i} else {}
    ensures Cleared(Next(w, i, choice), commands, passed + more)
  {
    assert CallKnows(w, i);
    var w', phase := Next(w, i, choice), w.calls[i].phase;
    MoveCleared(w, i, choice, passed);
    hide Next, Tidy, Matches, Approves, Sound, P.Apply, PositionOf;
    if phase.Placed? {
      SaveStep(w, i, choice);
    } else if phase.HasRead? {
      WriteAfterRead(w, i, choice);
    } else {
      OtherSteps(w, i, choice);
    }
  }

  lemma {:induction false} RunsAreCleared(commands: seq<Command>, turns: seq<Turn>)
    ensures Cleared(Interleaved(Opening(commands), turns), commands, Passed(commands, turns))
  {
    if turns == [] {
    } else {
      var front, turn := turns[..|turns| - 1], turns[|turns| - 1];
      RunsAreCleared(commands, front);
      RunsAreTidy(commands, front);
      var w, passed := Interleaved(Opening(commands), front), Passed(commands, front);
      hide Tidy, Cleared, Next, Approves;
      if turn.call < |w.calls| {
        var more := if w.calls[turn.call].phase.LookedUp? && Approves(commands[turn.call], turn.choice) then {turn.call} else {};
        NextCleared(w, commands, turn.call, turn.choice, passed, more);
        assert Passed(commands, turns) == passed + more;
      }
    }
  }

  lemma {:induction false} PassedIn(commands: seq<Command>, turns: seq<Turn>, i: nat) returns (k: nat)
    requires i in Passed(commands, turns)
    ensures k < |turns| && turns[k].call == i && AuthorisedIn(commands, turns, k)
  {
    var n := |turns| - 1;
    if AuthorisedIn(commands, turns, n) && turns[n].call == i {
      k := n;
    } else {
      k := PassedIn(commands, turns[..n], i);
      assert turns[..n][..k] == turns[..k];
    }
  }

  lemma ApprovedWithin(order: TradeOrder, c: Command, choice: Choice)
    requires Matches(order, c) && Sound(order) && Approves(c, choice)
    ensures !choice.switch.active
    ensures c.equity > 0.0 ==> WithinLimits(OrderValue(order), choice.profile, c.equity)
  {
    NotionalIsProduct(c, order.quantity, order.requestedPrice);
    assert NotionalOf(c) == OrderValue(order);
    hide NotionalOf, OrderValue, PositionPct, Upper, Blank;
    AuthorisedBoundIff(choice.switch, choice.profile, NotionalOf(c), c.equity);
  }

  lemma StoredFacts(w: World, commands: seq<Command>, passed: set<nat>, j: nat)
    requires Tidy(w) && Cleared(w, commands, passed) && j < |w.orders|
    ensures var order := w.orders[j];
            Sound(order) && order.id < |commands| && order.id in passed && Matches(order, commands[order.id])
  {}

  /** In every interleaving, every stored order is that of a call, with the terms of its
      command, and was approved at that call's own authorise step, with the kill switch off and,
      if equity was positive, quantity times requested price within the limits then in force. */
  lemma StoredOrdersWereAuthorised(commands: seq<Command>, turns: seq<Turn>, j: nat) returns (k: nat)
    requires j < |Interleaved(Opening(commands), turns).orders|
    ensures var order := Interleaved(Opening(commands), turns).orders[j];
            && order.id < |commands| && Matches(order, commands[order.id])
            && k < |turns| && turns[k].call == order.id && AuthorisedIn(commands, turns, k)
            && !turns[k].choice.switch.active
            && (commands[order.id].equity > 0.0 ==>
                  WithinLimits(OrderValue(order), turns[k].choice.profile, commands[order.id].equity))
  {
    hide Tidy, Cleared, Matches, WithinLimits, OrderValue, Approves, Sound;
    RunsAreCleared(commands, turns);
    RunsAreTidy(commands, turns);
    StoredFacts(Interleaved(Opening(commands), turns), commands, Passed(commands, turns), j);
    var order := Interleaved(Opening(commands), turns).orders[j];
    k := PassedIn(commands, turns, order.id);
    ApprovedWithin(order, commands[order.id], turns[k].choice);
  }

  // ----- Every completed order is announced once --------------------------------------------

  function EventsOf(events: seq<OrderEvent>, id: nat): nat {
    if events == [] then 0
    else EventsOf(events[..|events| - 1], id) + if events[|events| - 1].orderId == id then 1 else 0
  }

  lemma EventsNext(events: seq<OrderEvent>, e: OrderEvent, id: nat)
    ensures EventsOf(events + [e], id) == EventsOf(events, id) + if e.orderId == id then 1 else 0
  {
    assert (events + [e])[..|events|] == events;
  }

  predicate Stored(orders: seq<TradeOrder>, id: nat) {
    exists k :: 0 <= k < |orders| && orders[k].id == id
  }

  /** One event for a call that has stored an order and completed, none for any other. */
  predicate AnnouncedOnce(w: World) {
    forall i :: 0 <= i < |w.calls| ==>
      EventsOf(w.events, i) == if w.calls[i].phase.Done? && Stored(w.orders, i) then 1 else 0
  }

  predicate Reported(orders: seq<TradeOrder>, e: OrderEvent) {
    exists k :: 0 <= k < |orders| && e == EventOf(orders[k])
  }

  /** Every event reports a stored order. */
  predicate Reports(w: World) {
    forall k :: 0 <= k < |w.events| ==> Reported(w.orders, w.events[k])
  }

  lemma ReportedStill(orders: seq<TradeOrder>, o: TradeOrder, e: OrderEvent)
    requires Reported(orders, e)
    ensures Reported(orders + [o], e)
  {
    var k :| 0 <= k < |orders| && e == EventOf(orders[k]);
    assert (orders + [o])[k] == orders[k];
  }

  lemma StoredNext(orders: seq<TradeOrder>, o: TradeOrder, id: nat)
    ensures Stored(orders + [o], id) <==> Stored(orders, id) || o.id == id
  {
    var all := orders + [o];
    assert all[|orders|] == o;
    if k :| 0 <= k < |orders| && orders[k].id == id {
      assert all[k] == orders[k];
    }
  }

  lemma NextAnnounces(w: World, i: nat, choice: Choice)
    requires Tidy(w) && i < |w.calls| && AnnouncedOnce(w)
    ensures AnnouncedOnce(Next(w, i, choice))
  {
    assert CallKnows(w, i) && Fresh(w, i);
    var w', phase := Next(w, i, choice), w.calls[i].phase;
    assert phase.Settled? ==> Stored(w.orders, i);
    assert phase.Idle? || phase.LookedUp? || phase.Allowed? || phase.Placed? ==> !Stored(w.orders, i);
    hide Next, Tidy, EventsOf, Stored, Sound, P.Apply, PositionOf;
    if phase.Placed? {
      SaveStep(w, i, choice);
      forall j | 0 <= j < |w.calls|
        ensures EventsOf(w'.events, j) == if w'.calls[j].phase.Done? && Stored(w'.orders, j) then 1 else 0
      {
        StoredNext(w.orders, phase.order, j);
      }
    } else if phase.HasRead? {
      WriteAfterRead(w, i, choice);
    } else {
      OtherSteps(w, i, choice);
      if phase.Settled? {
        forall j | 0 <= j < |w.calls|
          ensures EventsOf(w'.events, j) == if w'.calls[j].phase.Done? && Stored(w'.orders, j) then 1 else 0
        {
          EventsNext(w.events, EventOf(phase.order), j);
        }
      }
    }
  }

  lemma NextReports(w: World, i: nat, choice: Choice)
    requires Tidy(w) && i < |w.calls| && Reports(w)
    ensures Reports(Next(w, i, choice))
  {
    assert CallKnows(w, i);
    var w', phase := Next(w, i, choice), w.calls[i].phase;
    assert phase.Settled? ==> Reported(w.orders, EventOf(phase.order));
    hide Next, Tidy, Sound, Reported, P.Apply, PositionOf;
    if phase.Placed? {
      SaveStep(w, i, choice);
      forall k | 0 <= k < |w'.events| ensures Reported(w'.orders, w'.events[k]) {
        ReportedStill(w.orders, phase.order, w.events[k]);
      }
    } else if phase.HasRead? {
      WriteAfterRead(w, i, choice);
    } else {
      OtherSteps(w, i, choice);
    }
  }

  /** In every interleaving each call that has stored an order and completed has announced it
      exactly once, no other call has announced anything, and every event reports a stored order. */
  lemma {:induction false} RunsAnnounce(commands: seq<Command>, turns: seq<Turn>)
    ensures AnnouncedOnce(Interleaved(Opening(commands), turns)) && Reports(Interleaved(Opening(commands), turns))
  {
    if turns == [] {
    } else {
      var front, turn := turns[..|turns| - 1], turns[|turns| - 1];
      RunsAnnounce(commands, front);
      RunsAreTidy(commands, front);
      var w := Interleaved(Opening(commands), front);
      hide Tidy, AnnouncedOnce, Reports, Next;
      if turn.call < |w.calls| {
        NextAnnounces(w, turn.call, turn.choice);
        NextReports(w, turn.call, turn.choice);
      }
    }
  }

  // ----- What a call answers ----------------------------------------------------------------

  /** A call that has completed with an order answers a stored one of its own client id. */
  predicate AnswersStored(w: World) {
    forall i :: 0 <= i < |w.calls| && w.calls[i].phase.Done? && w.calls[i].phase.answer.Ok? ==>
      w.calls[i].phase.answer.order in w.orders
      && w.calls[i].phase.answer.order.clientOrderId == w.calls[i].command.clientOrderId
  }

  lemma OrdersStay(w: World, i: nat, choice: Choice)
    requires Tidy(w) && i < |w.calls|
    ensures w.orders <= Next(w, i, choice).orders
    ensures |Next(w, i, choice).calls| == |w.calls|
    ensures forall j :: 0 <= j < |w.calls| && j != i ==> Next(w, i, choice).calls[j] == w.calls[j]
  {
    assert CallKnows(w, i);
    hide Next, Tidy, Sound, P.Apply, PositionOf;
    if w.calls[i].phase.Placed? {
      SaveStep(w, i, choice);
    } else if w.calls[i].phase.HasRead? {
      WriteAfterRead(w, i, choice);
    } else {
      OtherSteps(w, i, choice);
    }
  }

  /** The only steps that complete a call with an order are the first lookup and the last step. */
  lemma CompletesWith(w: World, i: nat, choice: Choice)
    requires Tidy(w) && i < |w.calls| && !w.calls[i].phase.Done?
    ensures var call, phase := Next(w, i, choice).calls[i], w.calls[i].phase;
            && call.command == w.calls[i].command
            && (call.phase.Done? && call.phase.answer.Ok? ==>
                  || (phase.Idle? && Find(w.orders, call.command.clientOrderId) == Some(call.phase.answer.order))
                  || (phase.Settled? && call.phase.answer.order == phase.order))
            && (phase.Idle? && Find(w.orders, call.command.clientOrderId).Some? ==> call.phase.Done? && call.phase.answer.Ok?)
  {
    assert CallKnows(w, i);
    hide Create, Authorised, NotionalOf, Find, P.ApplyFill, PositionOf, Tidy, Sound;
  }

  lemma NextAnswers(w: World, commands: seq<Command>, passed: set<nat>, i: nat, choice: Choice)
    requires Tidy(w) && i < |w.calls| && Cleared(w, commands, passed) && AnswersStored(w)
    ensures AnswersStored(Next(w, i, choice))
  {
    assert CallKnows(w, i);
    var w', phase := Next(w, i, choice), w.calls[i].phase;
    assert phase.Settled? ==> phase.order.clientOrderId == w.calls[i].command.clientOrderId;
    FindMeaning(w.orders, w.calls[i].command.clientOrderId);
    OrdersStay(w, i, choice);
    if phase.Done? {
      OtherSteps(w, i, choice);
    } else {
      CompletesWith(w, i, choice);
    }
    hide Next, Tidy, Cleared, Find, Sound;
    forall o | o in w.orders ensures o in w'.orders {
      var k :| 0 <= k < |w.orders| && w.orders[k] == o;
      assert w'.orders[k] == o;
    }
  }

  /** In every interleaving, whatever a call answers as its order is stored and has its client
      id; since client ids are distinct, all calls of one client id answer the same order. */
  lemma {:induction false} RunsAnswerStored(commands: seq<Command>, turns: seq<Turn>)
    ensures AnswersStored(Interleaved(Opening(commands), turns))
  {
    if turns == [] {
    } else {
      var front, turn := turns[..|turns| - 1], turns[|turns| - 1];
      RunsAnswerStored(commands, front);
      RunsAreTidy(commands, front);
      RunsAreCleared(commands, front);
      var w := Interleaved(Opening(commands), front);
      hide Tidy, AnswersStored, Cleared, Next, Passed;
      if turn.call < |w.calls| {
        NextAnswers(w, commands, Passed(commands, front), turn.call, turn.choice);
      }
    }
  }

  /** A call that starts when an order of its client id is stored answers that order at once. */
  lemma RepeatAnswersAtOnce(w: World, i: nat, choice: Choice, k: nat)
    requires Tidy(w) && i < |w.calls| && w.calls[i].phase.Idle? && k < |w.orders|
    requires w.orders[k].clientOrderId == w.calls[i].command.clientOrderId
    ensures Next(w, i, choice) == w.(calls := w.calls[i := w.calls[i].(phase := Done(Ok(w.orders[k])))])
  {
    FindMeaning(w.orders, w.calls[i].command.clientOrderId);
    hide Find, Create, Submitted, Authorised, P.ApplyFill;
  }
}
