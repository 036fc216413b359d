/** How a call of execute ends among other calls, and on its own. */
module SoloCalls {
  import opened Wrappers
  import opened Orders
  import opened Risk
  import opened PlaceOrder
  import opened OrderRuns
  import opened ConcurrentOrders
  import opened ConcurrentRuns
  import P = Portfolio

  // ----- The owner of a stored order answers it -------------------------------------------

  /** A completed call that has stored an order answers that order. */
  predicate OwnersAnswer(w: World) {
    forall i, k :: 0 <= i < |w.calls| && 0 <= k < |w.orders| && w.calls[i].phase.Done? && w.orders[k].id == i ==>
      w.calls[i].phase.answer == Ok(w.orders[k])
  }

  /** Saving an order is the first time the call owns one, and its last step answers it. */
  lemma CompletesOwn(w: World, i: nat, choice: Choice)
    requires Tidy(w) && i < |w.calls| && !w.calls[i].phase.Done?
    ensures Next(w, i, choice).calls[i].phase.Done? ==>
              && Next(w, i, choice).orders == w.orders
              && forall k :: 0 <= k < |w.orders| && w.orders[k].id == i ==>
                   Next(w, i, choice).calls[i].phase.answer == Ok(w.orders[k])
  {
    assert CallKnows(w, i) && Fresh(w, i);
    if w.calls[i].phase.HasRead? {
      WriteAfterRead(w, i, choice);
    } else if w.calls[i].phase.Settled? {
      hide Sound;
    } else {
      hide Create, Submitted, Authorised, NotionalOf, Find, P.ApplyFill, PositionOf, Sound;
    }
  }

  lemma NextOrders(w: World, i: nat, choice: Choice)
    requires Tidy(w) && i < |w.calls|
    ensures var w' := Next(w, i, choice);
            w'.orders == w.orders || (!w'.calls[i].phase.Done? && exists o: TradeOrder :: o.id == i && w'.orders == w.orders + [o])
  {
    assert CallKnows(w, i);
    hide Next, Tidy, Sound, P.Apply, PositionOf;
    if w.calls[i].phase.Placed? {
      SaveStep(w, i, choice);
    } else if w.calls[i].phase.HasRead? {
      WriteAfterRead(w, i, choice);
    } else {
      OtherSteps(w, i, choice);
    }
  }

  lemma NextOwners(w: World, i: nat, choice: Choice)
    requires Tidy(w) && i < |w.calls| && OwnersAnswer(w)
    ensures OwnersAnswer(Next(w, i, choice))
  {
    assert Fresh(w, i) && CallKnows(w, i);
    var w' := Next(w, i, choice);
    OrdersStay(w, i, choice);
    if w.calls[i].phase.Done? {
      OtherSteps(w, i, choice);
    } else {
      CompletesOwn(w, i, choice);
    }
    if w.calls[i].phase.Placed? {
      SaveStep(w, i, choice);
    }
    NextOrders(w, i, choice);
    hide Next, Tidy, Sound, CallKnows, Fresh;
  }

  /** In every interleaving a call that has stored an order and completed answers that order. */
  lemma {:induction false} RunsAnswerOwn(commands: seq<Command>, turns: seq<Turn>)
    ensures OwnersAnswer(Interleaved(Opening(commands), turns))
  {
    if turns == [] {
    } else {
      var front, turn := turns[..|turns| - 1], turns[|turns| - 1];
      RunsAnswerOwn(commands, front);
      RunsAreTidy(commands, front);
      var w := Interleaved(Opening(commands), front);
      hide Tidy, OwnersAnswer, Next;
      if turn.call < |w.calls| {
        NextOwners(w, turn.call, turn.choice);
      }
    }
  }

  // ----- What makes a call raise ---------------------------------------------------------------

  /** Some turn of the call met a gateway that crashes with the message. */
  predicate Crashed(turns: seq<Turn>, i: nat, message: string) {
    exists k :: 0 <= k < |turns| && turns[k].call == i && turns[k].choice.gateway == Crashes(message)
  }

  /** An order of the client id is stored that is not call i's own. */
  predicate Overtaken(w: World, i: nat, clientOrderId: string) {
    exists k :: 0 <= k < |w.orders| && w.orders[k].clientOrderId == clientOrderId && w.orders[k].id != i
  }

  /** A call raises only with its gateway, or because another has stored an order of its client id. */
  predicate RaiseExplained(w: World, turns: seq<Turn>, i: nat)
    requires i < |w.calls|
  {
    w.calls[i].phase.Done? && w.calls[i].phase.answer.Raised? ==>
      || Crashed(turns, i, w.calls[i].phase.answer.message)
      || (w.calls[i].phase.answer.message == "unique constraint" && Overtaken(w, i, w.calls[i].command.clientOrderId))
  }

  lemma RaisesWith(w: World, i: nat, choice: Choice)
    requires Tidy(w) && i < |w.calls| && !w.calls[i].phase.Done?
    ensures var phase := Next(w, i, choice).calls[i].phase;
            && Next(w, i, choice).calls[i].command == w.calls[i].command
            && (phase.Done? && phase.answer.Raised? ==>
                  || choice.gateway == Crashes(phase.answer.message)
                  || (w.calls[i].phase.Placed? && phase.answer.message == "unique constraint"
                      && Find(w.orders, w.calls[i].phase.order.clientOrderId).Some?))
  {
    assert CallKnows(w, i);
    if w.calls[i].phase.HasRead? {
      WriteAfterRead(w, i, choice);
    } else {
      hide Create, Fill, Reject, Authorised, NotionalOf, Find, P.ApplyFill, PositionOf, Sound;
    }
  }

  lemma OvertakenStays(w: World, w': World, i: nat, clientOrderId: string)
    requires w.orders <= w'.orders && Overtaken(w, i, clientOrderId)
    ensures Overtaken(w', i, clientOrderId)
  {
    var k :| 0 <= k < |w.orders| && w.orders[k].clientOrderId == clientOrderId && w.orders[k].id != i;
    assert w'.orders[k] == w.orders[k];
  }

  lemma FoundOvertakes(w: World, i: nat)
    requires Tidy(w) && i < |w.calls| && w.calls[i].phase.Placed?
    requires Find(w.orders, w.calls[i].phase.order.clientOrderId).Some?
    ensures Overtaken(w, i, w.calls[i].phase.order.clientOrderId)
  {
    assert Fresh(w, i);
    FindMeaning(w.orders, w.calls[i].phase.order.clientOrderId);
    hide Find, Sound;
  }

  lemma CrashedStays(turns: seq<Turn>, turn: Turn, i: nat, message: string)
    ensures Crashed(turns, i, message) ==> Crashed(turns + [turn], i, message)
    ensures turn.call == i && turn.choice.gateway == Crashes(message) ==> Crashed(turns + [turn], i, message)
  {
    var all := turns + [turn];
    assert all[|turns|] == turn;
    if k :| 0 <= k < |turns| && turns[k].call == i && turns[k].choice.gateway == Crashes(message) {
      assert all[k] == turns[k];
    }
  }

  lemma SameCallExplained(w: World, w': World, turns: seq<Turn>, turn: Turn, j: nat)
    requires j < |w.calls| == |w'.calls| && w'.calls[j] == w.calls[j] && w.orders <= w'.orders
    requires RaiseExplained(w, turns, j)
    ensures RaiseExplained(w', turns + [turn], j)
  {
    hide Crashed, Overtaken;
    var phase := w.calls[j].phase;
    if phase.Done? && phase.answer.Raised? {
      CrashedStays(turns, turn, j, phase.answer.message);
      if Overtaken(w, j, w.calls[j].command.clientOrderId) {
        OvertakenStays(w, w', j, w.calls[j].command.clientOrderId);
      }
    }
  }

  lemma OwnCallExplained(w: World, commands: seq<Command>, passed: set<nat>, turns: seq<Turn>, i: nat, choice: Choice)
    requires Tidy(w) && Cleared(w, commands, passed) && i < |w.calls| && !w.calls[i].phase.Done?
    ensures |Next(w, i, choice).calls| == |w.calls| && RaiseExplained(Next(w, i, choice), turns + [Turn(i, choice)], i)
  {
    assert CallCleared(w.calls[i], i, passed);
    assert w.calls[i].phase.Placed? ==> w.calls[i].phase.order.clientOrderId == w.calls[i].command.clientOrderId;
    var w', phase := Next(w, i, choice), Next(w, i, choice).calls[i].phase;
    hide Next, Tidy, Cleared, CallCleared, Crashed, Overtaken, Find;
    OrdersStay(w, i, choice);
    RaisesWith(w, i, choice);
    if phase.Done? && phase.answer.Raised? {
      CrashedStays(turns, Turn(i, choice), i, phase.answer.message);
      if choice.gateway != Crashes(phase.answer.message) {
        FoundOvertakes(w, i);
        OvertakenStays(w, w', i, w.calls[i].command.clientOrderId);
      }
    }
  }

  /** In every interleaving a call raises only if its gateway crashed, or if it came too late to
      save: an order of another call with its client id is stored. */
  lemma {:induction false} RaisesExplained(commands: seq<Command>, turns: seq<Turn>, j: nat)
    requires j < |commands|
    ensures |Interleaved(Opening(commands), turns).calls| == |commands|
    ensures RaiseExplained(Interleaved(Opening(commands), turns), turns, j)
  {
    if turns == [] {
    } else {
      var front, turn := turns[..|turns| - 1], turns[|turns| - 1];
      assert turns == front + [turn];
      RaisesExplained(commands, front, j);
      RunsAreTidy(commands, front);
      RunsAreCleared(commands, front);
      var w, i := Interleaved(Opening(commands), front), turn.call;
      hide Tidy, Cleared, RaiseExplained, Passed, Next;
      if i >= |w.calls| {
        SameCallExplained(w, w, front, turn, j);
      } else if i == j && !w.calls[i].phase.Done? {
        OwnCallExplained(w, commands, Passed(commands, front), front, i, turn.choice);
      } else {
        OrdersStay(w, i, turn.choice);
        if i == j {
          OtherSteps(w, i, turn.choice);
        }
        SameCallExplained(w, Next(w, i, turn.choice), front, turn, j);
      }
    }
  }

  /** A call that comes to save when an order of its client id is stored raises and leaves
      everything else as it is. */
  lemma LateSaveRaises(w: World, i: nat, choice: Choice, k: nat)
    requires i < |w.calls| && w.calls[i].phase.Placed? && k < |w.orders|
    requires w.orders[k].clientOrderId == w.calls[i].phase.order.clientOrderId
    ensures Next(w, i, choice) == w.(calls := w.calls[i := w.calls[i].(phase := Done(Raised("unique constraint")))])
  {
    FindMeaning(w.orders, w.calls[i].phase.order.clientOrderId);
    hide Find;
  }

  // ----- A call on its own ----------------------------------------------------------------------

  /** n turns of one call with no other in between. */
  function Alone(w: World, i: nat, choice: Choice, n: nat): World
    requires i < |w.calls|
    decreases n
  {
    if n == 0 then w
    else
      var w' := Next(w, i, choice);
      if i < |w'.calls| then Alone(w', i, choice, n - 1) else w'
  }

  function DeskOf(w: World, choice: Choice): Desk {
    Desk(w.orders, w.positions, w.events, choice.switch, choice.profile, [])
  }

  /** The call has completed with the answer and left the stores as on the desk. */
  predicate Shows(w: World, i: nat, desk: Desk, answer: Answer) {
    && w.orders == desk.orders && w.positions == desk.positions && w.events == desk.events
    && i < |w.calls| && w.calls[i].phase == Done(answer)
  }

  lemma {:induction false} DoneStays(w: World, i: nat, choice: Choice, n: nat)
    requires i < |w.calls| && w.calls[i].phase.Done?
    ensures Alone(w, i, choice, n) == w
  {
    if n > 0 {
      DoneStays(w, i, choice, n - 1);
    }
  }

  lemma FromSettled(w: World, i: nat, choice: Choice, n: nat)
    requires i < |w.calls| && w.calls[i].phase.Settled? && n >= 1
    ensures var o := w.calls[i].phase.order;
            Shows(Alone(w, i, choice, n), i, DeskOf(w, choice).(events := w.events + [EventOf(o)]), Ok(o))
  {
    DoneStays(Next(w, i, choice), i, choice, n - 1);
  }

  lemma FromRead(w: World, i: nat, choice: Choice, n: nat)
    requires i < |w.calls| && w.calls[i].phase.HasRead? && n >= 2
    requires var o := w.calls[i].phase.order; IsFilled(o) && Sound(o) && w.calls[i].phase.base.symbol == o.symbol
    ensures var o, base := w.calls[i].phase.order, w.calls[i].phase.base;
            && P.ValidFill(FillOf(o))
            && Shows(Alone(w, i, choice, n), i,
                     DeskOf(w, choice).(positions := w.positions[o.symbol := P.Apply(base, FillOf(o))],
                                        events := w.events + [EventOf(o)]), Ok(o))
  {
    WriteStep(w, i, choice);
    hide Next, P.Apply, Sound, FillOf;
    FromSettled(Next(w, i, choice), i, choice, n - 1);
  }

  predicate WellNamed(positions: map<string, P.Position>) {
    forall symbol :: symbol in positions ==> positions[symbol].symbol == symbol
  }

  /** From its save on, a call does what booking does. */
  lemma FromPlaced(w: World, i: nat, choice: Choice, n: nat)
    requires i < |w.calls| && w.calls[i].phase.Placed? && n >= 4 && WellNamed(w.positions)
    requires var o := w.calls[i].phase.order; Sound(o) && Find(w.orders, o.clientOrderId).None?
    ensures var (desk, answer) := Booked(DeskOf(w, choice), w.calls[i].phase.order);
            Shows(Alone(w, i, choice, n), i, desk, answer)
  {
    var o, w1 := w.calls[i].phase.order, Next(w, i, choice);
    if IsFilled(o) {
      var base := PositionOf(w.positions, o.symbol);
      KeepsSymbol(base, FillOf(o));
      hide P.Apply;
      var w2 := Next(w1, i, choice);
      FromRead(w2, i, choice, n - 2);
    } else {
      FromSettled(w1, i, choice, n - 1);
    }
  }

  /** The pending order of a command, given the number, and what its gateway makes of it. */
  function Asked(id: nat, c: Command, choice: Choice): Answer {
    match Create(id, c.symbol, c.side, c.quantity, c.price, c.clientOrderId, choice.now)
    case Failure(message) => Err(message)
    case Success(order) => Submitted(order, choice.gateway)
  }

  lemma AskedRenumbered(c: Command, choice: Choice, n: nat, i: nat)
    ensures Asked(i, c, choice) == match Asked(n, c, choice) case Ok(o) => Ok(o.(id := i)) case other => other
  {
    hide Upper, Blank;
  }

  lemma AskedIsSound(id: nat, c: Command, choice: Choice)
    ensures Asked(id, c, choice).Ok? ==>
              Sound(Asked(id, c, choice).order) && Asked(id, c, choice).order.clientOrderId == c.clientOrderId
  {
    CreatedIsSound(id, c.symbol, c.side, c.quantity, c.price, c.clientOrderId, choice.now);
    hide Upper, Blank;
  }

  lemma FromAllowed(w: World, i: nat, choice: Choice, n: nat)
    requires i < |w.calls| && w.calls[i].phase.Allowed? && n >= 5 && WellNamed(w.positions)
    requires Find(w.orders, w.calls[i].command.clientOrderId).None?
    ensures match Asked(i, w.calls[i].command, choice)
            case Ok(o) =>
              Shows(Alone(w, i, choice, n), i, Booked(DeskOf(w, choice), o).0, Booked(DeskOf(w, choice), o).1)
            case other => Shows(Alone(w, i, choice, n), i, DeskOf(w, choice), other)
  {
    AskedIsSound(i, w.calls[i].command, choice);
    var asked, w1 := Asked(i, w.calls[i].command, choice), Next(w, i, choice);
    assert w1 == Moved(w, i, if asked.Ok? then Placed(asked.order) else Done(asked));
    hide Next, Asked, Find, Sound, Booked;
    if asked.Ok? {
      FromPlaced(w1, i, choice, n - 1);
    } else {
      DoneStays(w1, i, choice, n - 1);
    }
  }

  lemma BookedRenumbered(desk: Desk, desk': Desk, o: TradeOrder, i: nat)
    requires desk' == desk.(riskEvents := desk'.riskEvents) && Sound(o) && WellNamed(desk.positions)
    ensures var (after, answer) := Booked(desk, o);
            && after.orders == desk.orders + [o] && answer == Ok(o)
            && Booked(desk', o.(id := i)) ==
               (after.(orders := desk.orders + [o.(id := i)], events := desk.events + [EventOf(o.(id := i))],
                       riskEvents := desk'.riskEvents), Ok(o.(id := i)))
  {
    if IsFilled(o) {
      KeepsSymbol(PositionOf(desk.positions, o.symbol), FillOf(o));
    }
    hide P.Apply, PositionOf;
  }

  /** Call i has ended in w' with the answer of execute on the stores of w and has left the same
      stores, only that a new order is numbered by its call. */
  predicate EndsAsPlace(w: World, w': World, i: nat, choice: Choice)
    requires i < |w.calls|
  {
    var (after, answer) := Place(DeskOf(w, choice), w.calls[i].command, choice.now, choice.gateway);
    if after.orders == w.orders then Shows(w', i, after, answer)
    else
      && |after.orders| == |w.orders| + 1
      && var o := after.orders[|w.orders|].(id := i);
         Shows(w', i, after.(orders := w.orders + [o], events := w.events + [EventOf(o)]), Ok(o))
  }

  lemma AloneIsPlace(w: World, i: nat, choice: Choice, n: nat)
    requires i < |w.calls| && w.calls[i].phase.Idle? && n >= 7 && WellNamed(w.positions)
    ensures EndsAsPlace(w, Alone(w, i, choice, n), i, choice)
  {
    var c, desk, w1 := w.calls[i].command, DeskOf(w, choice), Next(w, i, choice);
    var decision := Authorised(choice.switch, choice.profile, NotionalOf(c), c.equity);
    var checked := desk.(riskEvents := BreachesPublished(choice.switch, choice.profile, c.symbol, NotionalOf(c), c.equity));
    var asked := Asked(|w.orders|, c, choice);
    if Find(w.orders, c.clientOrderId).Some? {
      DoneStays(w1, i, choice, n - 1);
    } else {
      var w2 := Next(w1, i, choice);
      if !decision.approved {
        DoneStays(w2, i, choice, n - 2);
      } else {
        FromAllowed(w2, i, choice, n - 2);
        AskedRenumbered(c, choice, |w.orders|, i);
        AskedIsSound(|w.orders|, c, choice);
        if asked.Ok? {
          BookedRenumbered(checked, desk, asked.order, i);
        }
      }
    }
  }

  lemma {:induction false} NextAfterAlone(w: World, i: nat, choice: Choice, n: nat)
    requires i < |w.calls|
    ensures |Alone(w, i, choice, n).calls| == |w.calls|
    ensures Alone(w, i, choice, n + 1) == Next(Alone(w, i, choice, n), i, choice)
    decreases n
  {
    assert |Next(w, i, choice).calls| == |w.calls|;
    hide Next;
    if n == 0 {
      assert Alone(Next(w, i, choice), i, choice, 0) == Next(w, i, choice);
    } else {
      NextAfterAlone(Next(w, i, choice), i, choice, n - 1);
    }
  }

  function Repeated(turn: Turn, n: nat): (turns: seq<Turn>)
    ensures |turns| == n
  {
    seq(n, _ => turn)
  }

  lemma {:induction false} AloneIsInterleaved(w: World, before: seq<Turn>, i: nat, choice: Choice, n: nat)
    requires i < |Interleaved(w, before).calls|
    ensures Interleaved(w, before + Repeated(Turn(i, choice), n)) == Alone(Interleaved(w, before), i, choice, n)
  {
    hide Next;
    if n == 0 {
      assert before + Repeated(Turn(i, choice), 0) == before;
    } else {
      var turn, turns := Turn(i, choice), before + Repeated(Turn(i, choice), n - 1);
      AloneIsInterleaved(w, before, i, choice, n - 1);
      NextAfterAlone(Interleaved(w, before), i, choice, n - 1);
      assert before + Repeated(turn, n) == turns + [turn];
      InterleavedNext(w, turns, turn);
    }
  }

  predicate NotStarted(w: World, i: nat) {
    i < |w.calls| && w.calls[i].phase.Idle?
  }

  /** In every interleaving, a call that runs from its start to its end with no other call in
      between, seven turns at most, does what the sequential execute does. */
  lemma SoloCallIsPlace(commands: seq<Command>, before: seq<Turn>, i: nat, choice: Choice, n: nat)
    requires n >= 7 && NotStarted(Interleaved(Opening(commands), before), i)
    ensures EndsAsPlace(Interleaved(Opening(commands), before),
                        Interleaved(Opening(commands), before + Repeated(Turn(i, choice), n)), i, choice)
  {
    RunsAreTidy(commands, before);
    var w := Interleaved(Opening(commands), before);
    hide Interleaved, EndsAsPlace;
    AloneIsInterleaved(Opening(commands), before, i, choice, n);
    AloneIsPlace(w, i, choice, n);
  }
}
