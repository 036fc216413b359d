/** Concurrent calls whose sections from order save to position save are serial per symbol. */
module SerialOrders {
  import opened Orders
  import opened PlaceOrder
  import opened OrderRuns
  import opened ConcurrentOrders
  import P = Portfolio

  // ----- Serial sections give the sequential result -------------------------------------

  /** The turn does not save a filled order while another call is between save and write on
      the same symbol. */
  predicate SerialTurn(w: World, turn: Turn) {
    turn.call < |w.calls| && w.calls[turn.call].phase.Placed? && IsFilled(w.calls[turn.call].phase.order) ==>
      Closed(w, w.calls[turn.call].phase.order.symbol)
  }

  predicate Serial(w: World, turns: seq<Turn>) {
    forall k :: 0 <= k < |turns| ==> SerialTurn(Interleaved(w, turns[..k]), turns[k])
  }

  /** Call j's section: its order is the symbol's last fill and what it read is still stored. */
  predicate Owns(w: World, j: nat, symbol: string)
    requires j < |w.calls| && InSectionOf(w.calls[j], symbol) && IsFilled(w.calls[j].phase.order)
  {
    var fills, phase := FillsOf(w.orders, symbol), w.calls[j].phase;
    && fills != [] && fills[|fills| - 1] == FillOf(phase.order)
    && StoredIs(w.positions, symbol, fills[..|fills| - 1])
    && (phase.HasRead? ==> phase.base == PositionOf(w.positions, symbol))
  }

  predicate SerialState(w: World, symbol: string) {
    && (forall j :: 0 <= j < |w.calls| && InSectionOf(w.calls[j], symbol) ==>
          IsFilled(w.calls[j].phase.order) && Owns(w, j, symbol))
    && (forall i, j :: 0 <= i < j < |w.calls| ==> !(InSectionOf(w.calls[i], symbol) && InSectionOf(w.calls[j], symbol)))
    && (Closed(w, symbol) ==> Agrees(w.orders, w.positions, symbol))
  }

  predicate SamePosition(w: World, w': World, symbol: string) {
    (symbol in w.positions <==> symbol in w'.positions)
    && (symbol in w.positions ==> w'.positions[symbol] == w.positions[symbol])
    && PositionOf(w'.positions, symbol) == PositionOf(w.positions, symbol)
  }

  /** A step of a call that is outside the symbol's section before and after. */
  lemma SerialElsewhere(w: World, w': World, i: nat, symbol: string)
    requires SerialState(w, symbol) && i < |w.calls| == |w'.calls| && w'.calls == w.calls[i := w'.calls[i]]
    requires !InSectionOf(w.calls[i], symbol) && !InSectionOf(w'.calls[i], symbol)
    requires FillsOf(w'.orders, symbol) == FillsOf(w.orders, symbol) && SamePosition(w, w', symbol)
    ensures SerialState(w', symbol)
  {
    hide FillsOf, P.Replay, PositionOf, FillOf, Upper, IsFilled;
    forall j | 0 <= j < |w'.calls| && InSectionOf(w'.calls[j], symbol)
      ensures IsFilled(w'.calls[j].phase.order) && Owns(w', j, symbol)
    {
      assert w'.calls[j] == w.calls[j] && Owns(w, j, symbol);
    }
    forall j | 0 <= j < |w.calls| && InSectionOf(w.calls[j], symbol) ensures InSectionOf(w'.calls[j], symbol) {}
  }

  /** Saving a filled order opens the symbol's section, which was free. */
  lemma SectionOpens(w: World, w': World, i: nat, order: TradeOrder)
    requires SerialState(w, order.symbol) && i < |w.calls| == |w'.calls| && w'.calls == w.calls[i := w'.calls[i]]
    requires Closed(w, order.symbol)
    requires IsFilled(order) && w'.calls[i].phase == Saved(order) && w'.positions == w.positions
    requires FillsOf(w'.orders, order.symbol) == FillsOf(w.orders, order.symbol) + [FillOf(order)]
    ensures SerialState(w', order.symbol)
  {
    hide FillsOf, P.Replay, PositionOf, FillOf;
    assert InSectionOf(w'.calls[i], order.symbol) && Owns(w', i, order.symbol);
  }

  lemma SaveSerial(w: World, i: nat, choice: Choice, symbol: string)
    requires i < |w.calls| && w.calls[i].phase.Placed? && SerialTurn(w, Turn(i, choice)) && SerialState(w, symbol)
    ensures SerialState(Next(w, i, choice), symbol)
  {
    var w', order := Next(w, i, choice), w.calls[i].phase.order;
    hide Next, P.Replay, FillsOf, PositionOf, FillOf, SerialState;
    SaveStep(w, i, choice);
    FillsOfNext(w.orders, order, symbol);
    if w'.orders != w.orders && IsFilled(order) && order.symbol == symbol {
      SectionOpens(w, w', i, order);
    } else {
      SerialElsewhere(w, w', i, symbol);
    }
  }

  /** The only call in the symbol's section writes what it read plus its fill, and leaves. */
  lemma SectionCloses(w: World, w': World, i: nat, order: TradeOrder)
    requires SerialState(w, order.symbol) && i < |w.calls| == |w'.calls| && w'.calls == w.calls[i := w'.calls[i]]
    requires w.calls[i].phase.HasRead? && w.calls[i].phase.order == order && !InSection(w'.calls[i])
    requires IsFilled(order) && P.ValidFill(FillOf(order)) && Upper(order.symbol) == order.symbol
    requires w'.orders == w.orders
    requires w'.positions == w.positions[order.symbol := P.Apply(w.calls[i].phase.base, FillOf(order))]
    ensures SerialState(w', order.symbol)
  {
    hide FillsOf, P.Replay, P.Apply, PositionOf, FillOf, P.ValidFill;
    var fills := FillsOf(w.orders, order.symbol);
    assert InSectionOf(w.calls[i], order.symbol) && Owns(w, i, order.symbol);
    StoredThenApplied(w.positions, order.symbol, fills[..|fills| - 1], FillOf(order));
    assert fills[..|fills| - 1] + [FillOf(order)] == fills;
  }

  lemma WriteSerial(w: World, i: nat, choice: Choice, symbol: string)
    requires Tidy(w) && i < |w.calls| && w.calls[i].phase.HasRead? && SerialState(w, symbol)
    requires Upper(symbol) == symbol
    ensures SerialState(Next(w, i, choice), symbol)
  {
    assert CallKnows(w, i);
    var w', order := Next(w, i, choice), w.calls[i].phase.order;
    hide Next, Tidy, P.Replay, FillsOf, P.Apply, FillOf, P.ValidFill, SerialState;
    WriteStep(w, i, choice);
    if order.symbol == symbol {
      SectionCloses(w, w', i, order);
    } else {
      SerialElsewhere(w, w', i, symbol);
    }
  }

  lemma OtherSerial(w: World, i: nat, choice: Choice, symbol: string)
    requires i < |w.calls| && !w.calls[i].phase.Placed? && !w.calls[i].phase.HasRead? && SerialState(w, symbol)
    ensures SerialState(Next(w, i, choice), symbol)
  {
    var w' := Next(w, i, choice);
    hide Next, P.Replay, FillsOf, PositionOf, FillOf;
    OtherSteps(w, i, choice);
    forall j | 0 <= j < |w.calls|
      ensures InSectionOf(w'.calls[j], symbol) <==> InSectionOf(w.calls[j], symbol)
    {}
    forall j | 0 <= j < |w'.calls| && InSectionOf(w'.calls[j], symbol)
      ensures IsFilled(w'.calls[j].phase.order) && Owns(w', j, symbol)
    {
      assert Owns(w, j, symbol);
    }
  }

  lemma OpeningSerial(commands: seq<Command>, symbol: string)
    ensures SerialState(Opening(commands), symbol)
  {}

  lemma {:induction false} SerialRunsKeepState(commands: seq<Command>, turns: seq<Turn>, symbol: string)
    requires Serial(Opening(commands), turns) && Upper(symbol) == symbol
    ensures SerialState(Interleaved(Opening(commands), turns), symbol)
  {
    hide Tidy, SerialState, Next;
    if turns == [] {
      OpeningSerial(commands, symbol);
    } else {
      var n := |turns| - 1;
      var front, turn := turns[..n], turns[n];
      assert forall k :: 0 <= k < n ==> front[..k] == turns[..k];
      SerialRunsKeepState(commands, front, symbol);
      RunsAreTidy(commands, front);
      var w := Interleaved(Opening(commands), front);
      assert SerialTurn(w, turn);
      if turn.call < |w.calls| {
        if w.calls[turn.call].phase.Placed? {
          SaveSerial(w, turn.call, turn.choice, symbol);
        } else if w.calls[turn.call].phase.HasRead? {
          WriteSerial(w, turn.call, turn.choice, symbol);
        } else {
          OtherSerial(w, turn.call, turn.choice, symbol);
        }
      }
    }
  }

  /** If the sections from order save to position save are serial per symbol, then whenever
      none is open on a symbol its stored position is the replay of its filled orders. */
  lemma {:induction false} SerialSectionsAgree(commands: seq<Command>, turns: seq<Turn>, symbol: string)
    requires Serial(Opening(commands), turns) && Upper(symbol) == symbol
    requires Closed(Interleaved(Opening(commands), turns), symbol)
    ensures Agrees(Interleaved(Opening(commands), turns).orders, Interleaved(Opening(commands), turns).positions, symbol)
  {
    SerialRunsKeepState(commands, turns, symbol);
    hide Interleaved, FillsOf, P.Replay;
  }
}
