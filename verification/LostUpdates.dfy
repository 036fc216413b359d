/** What concurrent position writes lose, and when they lose nothing. */
module LostUpdates {
  import opened Wrappers
  import opened Orders
  import opened Risk
  import opened PlaceOrder
  import opened OrderRuns
  import opened ConcurrentOrders
  import P = Portfolio

  // ----- The net of what was lost -------------------------------------------------------

  /** The orders put into positions, in write order. */
  function Written(writes: seq<Write>): seq<TradeOrder> {
    seq(|writes|, i requires 0 <= i < |writes| => writes[i].order)
  }

  /** Total of a measure that writes of a symbol dropped because the position they replaced
      was no longer the one they had read. */
  function Lost(writes: seq<Write>, symbol: string, measure: P.Position -> real): real {
    if writes == [] then 0.0
    else
      var last := writes[|writes| - 1];
      Lost(writes[..|writes| - 1], symbol, measure)
        + if last.order.symbol == symbol then measure(last.current) - measure(last.base) else 0.0
  }

  function Quantity(p: P.Position): real {
    p.quantity
  }

  /** Stored quantity and basis are those of all fills written, less what was lost. */
  predicate Accounts(positions: map<string, P.Position>, writes: seq<Write>, symbol: string) {
    var p, fills := PositionOf(positions, symbol), FillsOf(Written(writes), symbol);
    && p.quantity == P.Sum(fills, P.Signed) - Lost(writes, symbol, Quantity)
    && P.Basis(p) == -P.Sum(fills, P.Notional) - Lost(writes, symbol, P.Basis)
  }

  lemma SumNext(fills: seq<P.Fill>, f: P.Fill, amount: P.Fill -> real)
    ensures P.Sum(fills + [f], amount) == P.Sum(fills, amount) + amount(f)
  {
    assert (fills + [f])[..|fills|] == fills;
  }

  lemma ApplyMoves(p: P.Position, f: P.Fill)
    requires P.ValidFill(f)
    ensures P.Apply(p, f).quantity == p.quantity + P.Signed(f)
    ensures P.Basis(P.Apply(p, f)) == P.Basis(p) - P.Notional(f)
    ensures P.Apply(p, f).symbol == p.symbol
  {
    hide P.Basis, P.Notional;
    if P.Extends(p, f) {
      P.ExtendedConserves(p, f);
    } else {
      P.ReducedConserves(p, f);
    }
  }

  lemma LostNext(writes: seq<Write>, last: Write, symbol: string, measure: P.Position -> real)
    ensures Lost(writes + [last], symbol, measure) ==
            Lost(writes, symbol, measure)
              + if last.order.symbol == symbol then measure(last.current) - measure(last.base) else 0.0
  {
    assert (writes + [last])[..|writes|] == writes;
  }

  /** One write moves the stored position by its fill, less what it overwrote. */
  lemma WriteAccounts(positions: map<string, P.Position>, writes: seq<Write>, last: Write, symbol: string)
    requires Accounts(positions, writes, symbol) && Upper(symbol) == symbol
    requires IsFilled(last.order) && P.ValidFill(FillOf(last.order)) && Upper(last.order.symbol) == last.order.symbol
    requires last.current == PositionOf(positions, last.order.symbol)
    ensures Accounts(positions[last.order.symbol := P.Apply(last.base, FillOf(last.order))], writes + [last], symbol)
  {
    hide P.Apply, P.Basis, P.Sum, Lost, FillsOf, P.Notional, P.Signed, P.ValidFill;
    var f := FillOf(last.order);
    assert Written(writes + [last]) == Written(writes) + [last.order];
    FillsOfNext(Written(writes), last.order, symbol);
    LostNext(writes, last, symbol, Quantity);
    LostNext(writes, last, symbol, P.Basis);
    if last.order.symbol == symbol {
      ApplyMoves(last.base, f);
      SumNext(FillsOf(Written(writes), symbol), f, P.Signed);
      SumNext(FillsOf(Written(writes), symbol), f, P.Notional);
    }
  }

  lemma NextAccounts(w: World, i: nat, choice: Choice, symbol: string)
    requires Tidy(w) && i < |w.calls| && Upper(symbol) == symbol && Accounts(w.positions, w.writes, symbol)
    ensures Accounts(Next(w, i, choice).positions, Next(w, i, choice).writes, symbol)
  {
    assert CallKnows(w, i);
    hide Tidy, Accounts, Next, P.Apply, PositionOf;
    var phase := w.calls[i].phase;
    if phase.Placed? {
      SaveStep(w, i, choice);
    } else if phase.HasRead? {
      WriteStep(w, i, choice);
      WriteAccounts(w.positions, w.writes, WriteOf(w, phase.order, phase.base), symbol);
    } else {
      OtherSteps(w, i, choice);
    }
  }

  lemma {:induction false} RunsAccount(commands: seq<Command>, turns: seq<Turn>, symbol: string)
    requires Upper(symbol) == symbol
    ensures Accounts(Interleaved(Opening(commands), turns).positions, Interleaved(Opening(commands), turns).writes, symbol)
  {
    if turns == [] {
    } else {
      var front, turn := turns[..|turns| - 1], turns[|turns| - 1];
      RunsAccount(commands, front, symbol);
      RunsAreTidy(commands, front);
      var w := Interleaved(Opening(commands), front);
      hide Tidy, Accounts, Next;
      if turn.call < |w.calls| {
        NextAccounts(w, turn.call, turn.choice, symbol);
      }
    }
  }

  // Orders saved, orders written, and orders in between.

  function FilledAmount(order: TradeOrder, symbol: string, amount: P.Fill -> real): real {
    if IsFilled(order) && order.symbol == symbol then amount(FillOf(order)) else 0.0
  }

  /** What a call has saved and not yet written, counted for one symbol. */
  function PendingOf(call: Call, symbol: string, amount: P.Fill -> real): real {
    if InSection(call) then FilledAmount(call.phase.order, symbol, amount) else 0.0
  }

  function Pending(calls: seq<Call>, symbol: string, amount: P.Fill -> real): real {
    if calls == [] then 0.0
    else Pending(calls[..|calls| - 1], symbol, amount) + PendingOf(calls[|calls| - 1], symbol, amount)
  }

  lemma {:induction false} PendingMoved(calls: seq<Call>, i: nat, call: Call, symbol: string, amount: P.Fill -> real)
    requires i < |calls|
    ensures Pending(calls[i := call], symbol, amount)
         == Pending(calls, symbol, amount) - PendingOf(calls[i], symbol, amount) + PendingOf(call, symbol, amount)
  {
    var n := |calls| - 1;
    if i < n {
      assert calls[i := call][..n] == calls[..n][i := call];
      PendingMoved(calls[..n], i, call, symbol, amount);
    } else {
      assert calls[i := call][..n] == calls[..n];
    }
  }

  /** Every filled order stored is written or still pending. */
  predicate Balanced(w: World, symbol: string, amount: P.Fill -> real) {
    P.Sum(FillsOf(w.orders, symbol), amount)
      == P.Sum(FillsOf(Written(w.writes), symbol), amount) + Pending(w.calls, symbol, amount)
  }

  /** What one more order adds to a symbol's total. */
  lemma TotalNext(orders: seq<TradeOrder>, order: TradeOrder, symbol: string, amount: P.Fill -> real)
    ensures P.Sum(FillsOf(orders + [order], symbol), amount)
         == P.Sum(FillsOf(orders, symbol), amount) + FilledAmount(order, symbol, amount)
  {
    hide FillsOf, P.Sum;
    FillsOfNext(orders, order, symbol);
    if IsFilled(order) {
      SumNext(FillsOf(orders, symbol), FillOf(order), amount);
    }
  }

  lemma SaveBalanced(w: World, i: nat, choice: Choice, symbol: string, amount: P.Fill -> real)
    requires i < |w.calls| && w.calls[i].phase.Placed? && Balanced(w, symbol, amount)
    ensures Balanced(Next(w, i, choice), symbol, amount)
  {
    var w', order := Next(w, i, choice), w.calls[i].phase.order;
    hide Next, Pending, FillsOf, P.Sum, Written;
    SaveStep(w, i, choice);
    PendingMoved(w.calls, i, w'.calls[i], symbol, amount);
    TotalNext(w.orders, order, symbol, amount);
  }

  lemma WriteMoves(w: World, w': World, i: nat, last: Write, symbol: string, amount: P.Fill -> real)
    requires i < |w.calls| && w.calls[i].phase == HasRead(last.order, last.base) && Balanced(w, symbol, amount)
    requires w'.orders == w.orders && w'.writes == w.writes + [last]
    requires w'.calls == w.calls[i := w.calls[i].(phase := Settled(last.order))]
    ensures Balanced(w', symbol, amount)
  {
    assert Written(w'.writes) == Written(w.writes) + [last.order];
    hide Pending, FillsOf, P.Sum, Written, FilledAmount;
    PendingMoved(w.calls, i, w'.calls[i], symbol, amount);
    TotalNext(Written(w.writes), last.order, symbol, amount);
  }

  lemma WriteBalanced(w: World, i: nat, choice: Choice, symbol: string, amount: P.Fill -> real)
    requires Tidy(w) && i < |w.calls| && w.calls[i].phase.HasRead? && Balanced(w, symbol, amount)
    ensures Balanced(Next(w, i, choice), symbol, amount)
  {
    assert CallKnows(w, i);
    var order, base := w.calls[i].phase.order, w.calls[i].phase.base;
    hide Next, Tidy, Balanced, P.Apply, PositionOf;
    WriteStep(w, i, choice);
    hide Sound;
    WriteMoves(w, Next(w, i, choice), i, WriteOf(w, order, base), symbol, amount);
  }

  lemma NextBalanced(w: World, i: nat, choice: Choice, symbol: string, amount: P.Fill -> real)
    requires Tidy(w) && i < |w.calls| && Balanced(w, symbol, amount)
    ensures Balanced(Next(w, i, choice), symbol, amount)
  {
    hide Tidy, Next, Pending, FillsOf, P.Sum, PositionOf, FillOf, Written;
    if w.calls[i].phase.Placed? {
      SaveBalanced(w, i, choice, symbol, amount);
    } else if w.calls[i].phase.HasRead? {
      WriteBalanced(w, i, choice, symbol, amount);
    } else {
      OtherSteps(w, i, choice);
      PendingMoved(w.calls, i, Next(w, i, choice).calls[i], symbol, amount);
    }
  }

  lemma {:induction false} NothingPending(calls: seq<Call>, symbol: string, amount: P.Fill -> real)
    requires forall i :: 0 <= i < |calls| ==> !InSectionOf(calls[i], symbol)
    ensures Pending(calls, symbol, amount) == 0.0
  {
    if calls == [] {
    } else {
      NothingPending(calls[..|calls| - 1], symbol, amount);
    }
  }

  lemma {:induction false} RunsBalance(commands: seq<Command>, turns: seq<Turn>, symbol: string, amount: P.Fill -> real)
    ensures Balanced(Interleaved(Opening(commands), turns), symbol, amount)
  {
    if turns == [] {
      NothingPending(Opening(commands).calls, symbol, amount);
    } else {
      var front, turn := turns[..|turns| - 1], turns[|turns| - 1];
      RunsBalance(commands, front, symbol, amount);
      RunsAreTidy(commands, front);
      var w := Interleaved(Opening(commands), front);
      hide Tidy, Balanced, Next;
      if turn.call < |w.calls| {
        NextBalanced(w, turn.call, turn.choice, symbol, amount);
      }
    }
  }

  /** When no call is between saving an order of the symbol and writing its position, quantity
      and basis are those of all its filled orders less the net of what stale writes overwrote;
      so each is right exactly if that net is zero. */
  lemma {:induction false} LostUpdatesExactly(commands: seq<Command>, turns: seq<Turn>, symbol: string)
    requires Upper(symbol) == symbol && Closed(Interleaved(Opening(commands), turns), symbol)
    ensures var w := Interleaved(Opening(commands), turns);
            var p, fills := PositionOf(w.positions, symbol), FillsOf(w.orders, symbol);
            && p.quantity == P.Sum(fills, P.Signed) - Lost(w.writes, symbol, Quantity)
            && P.Basis(p) == -P.Sum(fills, P.Notional) - Lost(w.writes, symbol, P.Basis)
            && (p.quantity == P.Sum(fills, P.Signed) <==> Lost(w.writes, symbol, Quantity) == 0.0)
            && (P.Basis(p) == -P.Sum(fills, P.Notional) <==> Lost(w.writes, symbol, P.Basis) == 0.0)
  {
    var w := Interleaved(Opening(commands), turns);
    RunsAccount(commands, turns, symbol);
    RunsBalance(commands, turns, symbol, P.Signed);
    RunsBalance(commands, turns, symbol, P.Notional);
    NothingPending(w.calls, symbol, P.Signed);
    NothingPending(w.calls, symbol, P.Notional);
    hide Interleaved, FillsOf, P.Sum, Lost, Pending, P.Basis, PositionOf;
  }

  // ----- Fresh writes ------------------------------------------------------------------

  /** Every write of the symbol was computed from the position it replaced. */
  predicate AllFresh(writes: seq<Write>, symbol: string) {
    forall k :: 0 <= k < |writes| && writes[k].order.symbol == symbol ==> writes[k].base == writes[k].current
  }

  lemma AllFreshNext(writes: seq<Write>, last: Write, symbol: string)
    ensures AllFresh(writes + [last], symbol) <==>
            AllFresh(writes, symbol) && (last.order.symbol == symbol ==> last.base == last.current)
  {
    var all := writes + [last];
    if AllFresh(all, symbol) {
      assert all[|writes|] == last;
      forall k | 0 <= k < |writes| && writes[k].order.symbol == symbol ensures writes[k].base == writes[k].current {
        assert all[k] == writes[k];
      }
    }
  }

  predicate ReplaysIfFresh(positions: map<string, P.Position>, writes: seq<Write>, symbol: string) {
    AllFresh(writes, symbol) ==> StoredIs(positions, symbol, FillsOf(Written(writes), symbol))
  }

  lemma WriteReplays(positions: map<string, P.Position>, writes: seq<Write>, last: Write, symbol: string)
    requires ReplaysIfFresh(positions, writes, symbol) && Upper(symbol) == symbol
    requires IsFilled(last.order) && P.ValidFill(FillOf(last.order)) && Upper(last.order.symbol) == last.order.symbol
    requires last.current == PositionOf(positions, last.order.symbol)
    ensures ReplaysIfFresh(positions[last.order.symbol := P.Apply(last.base, FillOf(last.order))], writes + [last], symbol)
  {
    hide P.Apply, P.Replay, FillsOf, PositionOf, FillOf, P.ValidFill, AllFresh;
    AllFreshNext(writes, last, symbol);
    assert Written(writes + [last]) == Written(writes) + [last.order];
    hide Written;
    FillsOfNext(Written(writes), last.order, symbol);
    if last.order.symbol == symbol && AllFresh(writes + [last], symbol) {
      StoredThenApplied(positions, symbol, FillsOf(Written(writes), symbol), FillOf(last.order));
    }
  }

  lemma NextReplays(w: World, i: nat, choice: Choice, symbol: string)
    requires Tidy(w) && i < |w.calls| && Upper(symbol) == symbol && ReplaysIfFresh(w.positions, w.writes, symbol)
    ensures ReplaysIfFresh(Next(w, i, choice).positions, Next(w, i, choice).writes, symbol)
  {
    assert CallKnows(w, i);
    hide Tidy, ReplaysIfFresh, Next, P.Apply, PositionOf;
    var phase := w.calls[i].phase;
    if phase.Placed? {
      SaveStep(w, i, choice);
    } else if phase.HasRead? {
      WriteStep(w, i, choice);
      WriteReplays(w.positions, w.writes, WriteOf(w, phase.order, phase.base), symbol);
    } else {
      OtherSteps(w, i, choice);
    }
  }

  /** In every interleaving: if every write of the symbol was fresh, its whole stored position
      is the replay of the fills written, in write order. */
  lemma {:induction false} FreshWritesReplay(commands: seq<Command>, turns: seq<Turn>, symbol: string)
    requires Upper(symbol) == symbol
    ensures ReplaysIfFresh(Interleaved(Opening(commands), turns).positions, Interleaved(Opening(commands), turns).writes, symbol)
  {
    if turns == [] {
    } else {
      var front, turn := turns[..|turns| - 1], turns[|turns| - 1];
      FreshWritesReplay(commands, front, symbol);
      RunsAreTidy(commands, front);
      var w := Interleaved(Opening(commands), front);
      hide Tidy, ReplaysIfFresh, Next;
      if turn.call < |w.calls| {
        NextReplays(w, turn.call, turn.choice, symbol);
      }
    }
  }

  // ----- Symbols traded on one side ------------------------------------------------------

  predicate OneSided(orders: seq<TradeOrder>, symbol: string, side: Side) {
    forall k :: 0 <= k < |orders| && IsFilled(orders[k]) && orders[k].symbol == symbol ==> orders[k].side == side
  }

  /** The quantity held in the direction of a side. */
  function Held(p: P.Position, side: Side): real {
    if side == Buy then p.quantity else -p.quantity
  }

  function Size(f: P.Fill): real {
    f.quantity
  }

  /** The quantity written so far for a symbol. */
  function WrittenSize(writes: seq<Write>, symbol: string): real {
    P.Sum(FillsOf(Written(writes), symbol), Size)
  }

  /** A position read by a call is the stored one, or holds less than has been written since. */
  predicate ReadTrails(call: Call, stored: P.Position, total: real, symbol: string, side: Side) {
    call.phase.HasRead? && call.phase.order.symbol == symbol ==>
      Held(call.phase.base, side) <= total && (call.phase.base == stored || Held(call.phase.base, side) < total)
  }

  /** The stored position never holds more than was written, and as much only if no write was stale. */
  predicate Trails(w: World, symbol: string, side: Side) {
    var p, total := PositionOf(w.positions, symbol), WrittenSize(w.writes, symbol);
    && Held(p, side) <= total
    && (Held(p, side) == total ==> AllFresh(w.writes, symbol))
    && forall j :: 0 <= j < |w.calls| ==> ReadTrails(w.calls[j], p, total, symbol, side)
  }

  lemma WrittenSizeNext(writes: seq<Write>, last: Write, symbol: string)
    ensures WrittenSize(writes + [last], symbol)
         == WrittenSize(writes, symbol) + FilledAmount(last.order, symbol, Size)
  {
    assert Written(writes + [last]) == Written(writes) + [last.order];
    hide FillsOf, P.Sum, Written;
    TotalNext(Written(writes), last.order, symbol, Size);
  }

  lemma WriteTrails(w: World, w': World, i: nat, symbol: string, side: Side)
    requires Trails(w, symbol, side) && i < |w.calls| && w.calls[i].phase.HasRead? && Upper(symbol) == symbol
    requires var o := w.calls[i].phase.order;
             && IsFilled(o) && P.ValidFill(FillOf(o)) && Upper(o.symbol) == o.symbol && (o.symbol == symbol ==> o.side == side)
    requires var o, base := w.calls[i].phase.order, w.calls[i].phase.base;
             && w'.calls == w.calls[i := w.calls[i].(phase := Settled(o))]
             && w'.writes == w.writes + [WriteOf(w, o, base)]
             && w'.positions == w.positions[o.symbol := P.Apply(base, FillOf(o))]
    ensures Trails(w', symbol, side)
  {
    hide P.Apply, FillsOf, P.Sum, AllFresh, WrittenSize;
    var o, base := w.calls[i].phase.order, w.calls[i].phase.base;
    AllFreshNext(w.writes, WriteOf(w, o, base), symbol);
    WrittenSizeNext(w.writes, WriteOf(w, o, base), symbol);
    ApplyMoves(base, FillOf(o));
    assert ReadTrails(w.calls[i], PositionOf(w.positions, symbol), WrittenSize(w.writes, symbol), symbol, side);
    forall j | 0 <= j < |w'.calls|
      ensures ReadTrails(w'.calls[j], PositionOf(w'.positions, symbol), WrittenSize(w'.writes, symbol), symbol, side)
    {
      if j != i {
        assert ReadTrails(w.calls[j], PositionOf(w.positions, symbol), WrittenSize(w.writes, symbol), symbol, side);
      }
    }
  }

  /** A step that neither writes nor changes what other calls have read. */
  lemma TrailsElsewhere(w: World, w': World, i: nat, symbol: string, side: Side)
    requires Trails(w, symbol, side) && i < |w.calls| == |w'.calls| && w'.calls == w.calls[i := w'.calls[i]]
    requires w'.positions == w.positions && w'.writes == w.writes
    requires w'.calls[i].phase.HasRead? && w'.calls[i].phase.order.symbol == symbol ==>
               w'.calls[i].phase.base == PositionOf(w.positions, symbol)
    ensures Trails(w', symbol, side)
  {
    hide PositionOf, AllFresh, WrittenSize, Held;
    forall j | 0 <= j < |w'.calls|
      ensures ReadTrails(w'.calls[j], PositionOf(w'.positions, symbol), WrittenSize(w'.writes, symbol), symbol, side)
    {
      if j != i {
        assert ReadTrails(w.calls[j], PositionOf(w.positions, symbol), WrittenSize(w.writes, symbol), symbol, side);
      }
    }
  }

  lemma NextTrails(w: World, i: nat, choice: Choice, symbol: string, side: Side)
    requires Tidy(w) && i < |w.calls| && Upper(symbol) == symbol && Trails(w, symbol, side)
    requires OneSided(Written(Next(w, i, choice).writes), symbol, side)
    ensures Trails(Next(w, i, choice), symbol, side)
  {
    assert CallKnows(w, i);
    var w', phase := Next(w, i, choice), w.calls[i].phase;
    hide Tidy, Trails, Next, P.Apply, PositionOf;
    if phase.Placed? {
      SaveStep(w, i, choice);
      TrailsElsewhere(w, w', i, symbol, side);
    } else if phase.HasRead? {
      WriteStep(w, i, choice);
      assert Written(w'.writes)[|w.writes|] == phase.order;
      WriteTrails(w, w', i, symbol, side);
    } else {
      OtherSteps(w, i, choice);
      TrailsElsewhere(w, w', i, symbol, side);
    }
  }

  lemma WritesOnlyGrow(w: World, turn: Turn)
    requires Tidy(w)
    ensures w.writes <= Step(w, turn).writes
  {
    if turn.call < |w.calls| {
      assert CallKnows(w, turn.call);
      hide Tidy, Next, P.Apply, PositionOf;
      if w.calls[turn.call].phase.Placed? {
        SaveStep(w, turn.call, turn.choice);
      } else if w.calls[turn.call].phase.HasRead? {
        WriteStep(w, turn.call, turn.choice);
      } else {
        OtherSteps(w, turn.call, turn.choice);
      }
    }
  }

  lemma OneSidedBefore(writes: seq<Write>, more: seq<Write>, symbol: string, side: Side)
    requires writes <= more && OneSided(Written(more), symbol, side)
    ensures OneSided(Written(writes), symbol, side)
  {
    forall k | 0 <= k < |writes| && IsFilled(writes[k].order) && writes[k].order.symbol == symbol
      ensures writes[k].order.side == side
    {
      assert Written(more)[k] == writes[k].order;
    }
  }

  lemma {:induction false} RunsTrail(commands: seq<Command>, turns: seq<Turn>, symbol: string, side: Side)
    requires Upper(symbol) == symbol && OneSided(Written(Interleaved(Opening(commands), turns).writes), symbol, side)
    ensures Trails(Interleaved(Opening(commands), turns), symbol, side)
  {
    if turns == [] {
    } else {
      var front, turn := turns[..|turns| - 1], turns[|turns| - 1];
      var w := Interleaved(Opening(commands), front);
      assert Interleaved(Opening(commands), turns) == Step(w, turn);
      RunsAreTidy(commands, front);
      WritesOnlyGrow(w, turn);
      hide Tidy, Trails, Next, Interleaved, OneSided;
      OneSidedBefore(w.writes, Step(w, turn).writes, symbol, side);
      RunsTrail(commands, front, symbol, side);
      if turn.call < |w.calls| {
        NextTrails(w, turn.call, turn.choice, symbol, side);
      }
    }
  }

  lemma {:induction false} NothingLost(writes: seq<Write>, symbol: string, measure: P.Position -> real)
    requires AllFresh(writes, symbol)
    ensures Lost(writes, symbol, measure) == 0.0
  {
    if writes == [] {
    } else {
      NothingLost(writes[..|writes| - 1], symbol, measure);
    }
  }

  lemma {:induction false} OneSidedSum(orders: seq<TradeOrder>, symbol: string, side: Side)
    requires OneSided(orders, symbol, side)
    ensures P.Sum(FillsOf(orders, symbol), P.Signed)
         == if side == Buy then P.Sum(FillsOf(orders, symbol), Size) else -P.Sum(FillsOf(orders, symbol), Size)
  {
    if orders == [] {
    } else {
      var front, last := orders[..|orders| - 1], orders[|orders| - 1];
      assert orders == front + [last];
      OneSidedSum(front, symbol, side);
      TotalNext(front, last, symbol, P.Signed);
      TotalNext(front, last, symbol, Size);
      hide FillsOf, P.Sum;
    }
  }

  lemma WrittenAreStored(w: World, symbol: string, side: Side)
    requires Tidy(w) && OneSided(w.orders, symbol, side)
    ensures OneSided(Written(w.writes), symbol, side)
  {
    forall k | 0 <= k < |w.writes| && w.writes[k].order.symbol == symbol ensures w.writes[k].order.side == side {
      assert w.writes[k].order in w.orders && IsFilled(w.writes[k].order);
    }
  }

  /** For a symbol traded on one side only, once no call is in its section: the stored position
      never holds more than all its filled orders, and holds as much exactly if every write of
      the symbol was fresh. */
  lemma OneSidedIff(commands: seq<Command>, turns: seq<Turn>, symbol: string, side: Side)
    requires Upper(symbol) == symbol && Closed(Interleaved(Opening(commands), turns), symbol)
    requires OneSided(Interleaved(Opening(commands), turns).orders, symbol, side)
    ensures var w := Interleaved(Opening(commands), turns);
            var held, total := Held(PositionOf(w.positions, symbol), side), P.Sum(FillsOf(w.orders, symbol), Size);
            held <= total && (held == total <==> AllFresh(w.writes, symbol))
  {
    var w := Interleaved(Opening(commands), turns);
    RunsAreTidy(commands, turns);
    WrittenAreStored(w, symbol, side);
    RunsTrail(commands, turns, symbol, side);
    RunsBalance(commands, turns, symbol, Size);
    NothingPending(w.calls, symbol, Size);
    RunsAccount(commands, turns, symbol);
    OneSidedSum(Written(w.writes), symbol, side);
    if AllFresh(w.writes, symbol) {
      NothingLost(w.writes, symbol, Quantity);
    }
    hide Interleaved, Tidy, FillsOf, P.Sum, Lost, Pending, P.Basis, PositionOf, AllFresh, Written;
  }

  // ----- A lost update -----------------------------------------------------------------

  /** Two calls that have read the same position: the second write drops exactly the first
      one's fill, whatever the fills are. */
  lemma SecondWriteDropsFirst(w: World, i: nat, j: nat, first: Choice, second: Choice)
    requires Tidy(w) && i < |w.calls| && j < |w.calls| && i != j
    requires w.calls[i].phase.HasRead? && w.calls[j].phase.HasRead?
    requires w.calls[i].phase.order.symbol == w.calls[j].phase.order.symbol
    requires IsFilled(w.calls[i].phase.order) && IsFilled(w.calls[j].phase.order)
    requires P.ValidFill(FillOf(w.calls[j].phase.order))
    requires w.calls[i].phase.base == w.calls[j].phase.base == PositionOf(w.positions, w.calls[i].phase.order.symbol)
    ensures var symbol, f := w.calls[i].phase.order.symbol, P.Signed(FillOf(w.calls[i].phase.order));
            var w' := Next(Next(w, i, first), j, second);
            && PositionOf(w'.positions, symbol) == P.Apply(w.calls[j].phase.base, FillOf(w.calls[j].phase.order))
            && Lost(w'.writes, symbol, Quantity) == Lost(w.writes, symbol, Quantity) + f
  {
    assert CallKnows(w, i) && CallKnows(w, j);
    var a, b, base := w.calls[i].phase.order, w.calls[j].phase.order, w.calls[i].phase.base;
    var mid := Next(w, i, first);
    WriteStep(w, i, first);
    ApplyMoves(base, FillOf(a));
    assert mid.calls[j] == w.calls[j];
    WriteStep(mid, j, second);
    hide Next, Tidy, Sound, P.Apply, FillOf;
    LostNext(w.writes, WriteOf(w, a, base), a.symbol, Quantity);
    LostNext(mid.writes, WriteOf(mid, b, base), a.symbol, Quantity);
  }

  // A buy of 1 at 1 that the gateway fills at 1.
  const CHOICE := Choice(DEFAULT_SWITCH, DEFAULT_PROFILE, 0.0, FillsAt(1.0))

  function BuyOne(clientOrderId: string): Command {
    Command("A", Buy, 1.0, 1.0, clientOrderId, 100.0)
  }

  function Bought(id: nat, clientOrderId: string): TradeOrder {
    TradeOrder(id, "A", Buy, 1.0, Filled, 1.0, Some(1.0), clientOrderId, 0.0, None)
  }

  function Five(w: World, u: Turn): World {
    Step(Step(Step(Step(Step(w, u), u), u), u), u)
  }

  lemma InterleavedFive(w: World, turns: seq<Turn>, u: Turn)
    ensures Interleaved(w, turns + [u, u, u, u, u]) == Five(Interleaved(w, turns), u)
  {
    hide Step;
    InterleavedNext(w, turns, u);
    InterleavedNext(w, turns + [u], u);
    InterleavedNext(w, turns + [u] + [u], u);
    InterleavedNext(w, turns + [u] + [u] + [u], u);
    InterleavedNext(w, turns + [u] + [u] + [u] + [u], u);
    assert turns + [u, u, u, u, u] == turns + [u] + [u] + [u] + [u] + [u];
  }

  /** An authorised call whose order fills at once has read its position after five steps. */
  lemma ReadsInFiveSteps(w: World, i: nat, c: Command, t: Choice, order: TradeOrder)
    requires i < |w.calls| && w.calls[i] == Call(c, Idle) && Find(w.orders, c.clientOrderId).None?
    requires Authorised(t.switch, t.profile, NotionalOf(c), c.equity).approved
    requires Create(i, c.symbol, c.side, c.quantity, c.price, c.clientOrderId, t.now).Success?
    requires Submitted(Create(i, c.symbol, c.side, c.quantity, c.price, c.clientOrderId, t.now).value, t.gateway) == Ok(order)
    requires IsFilled(order) && order.clientOrderId == c.clientOrderId
    ensures Five(w, Turn(i, t))
         == w.(orders := w.orders + [order],
               calls := w.calls[i := Call(c, HasRead(order, PositionOf(w.positions, order.symbol)))])
  {
    hide Authorised, Create, Submitted, Find, PositionOf, NotionalOf;
    var w1 := Moved(w, i, LookedUp);
    assert Next(w, i, t) == w1;
    var w2 := Moved(w1, i, Allowed);
    assert Next(w1, i, t) == w2;
    var w3 := Moved(w2, i, Placed(order));
    assert Next(w2, i, t) == w3;
    var w4 := Moved(w3.(orders := w.orders + [order]), i, Saved(order));
    assert Next(w3, i, t) == w4;
  }

  lemma BuyReads(w: World, i: nat, clientOrderId: string)
    requires i < |w.calls| && w.calls[i] == Call(BuyOne(clientOrderId), Idle) && Find(w.orders, clientOrderId).None?
    requires !Blank(clientOrderId) && w.positions == map[]
    ensures Five(w, Turn(i, CHOICE))
         == w.(orders := w.orders + [Bought(i, clientOrderId)],
               calls := w.calls[i := Call(BuyOne(clientOrderId), HasRead(Bought(i, clientOrderId), P.Empty("A")))])
  {
    hide Five, Find;
    assert Upper("A") == "A" && !Space("A"[0]);
    hide Blank, Upper;
    ReadsInFiveSteps(w, i, BuyOne(clientOrderId), CHOICE, Bought(i, clientOrderId));
  }

  /** The world once both calls have read the still empty position. */
  function BothRead(): World {
    World([Call(BuyOne("1"), HasRead(Bought(0, "1"), P.Empty("A"))), Call(BuyOne("2"), HasRead(Bought(1, "2"), P.Empty("A")))],
          [Bought(0, "1"), Bought(1, "2")], map[], [], [])
  }

  lemma SecondIsNew()
    ensures Find([Bought(0, "1")], "2").None?
  {
    assert [Bought(0, "1")][..0] == [] && "1"[0] != "2"[0];
  }

  lemma BothCallsRead(w: World)
    requires w == Opening([BuyOne("1"), BuyOne("2")])
    ensures Five(Five(w, Turn(0, CHOICE)), Turn(1, CHOICE)) == BothRead()
  {
    hide Five, BuyOne, Bought;
    assert !Space("1"[0]) && !Space("2"[0]);
    BuyReads(w, 0, "1");
    assert [] + [Bought(0, "1")] == [Bought(0, "1")];
    var w5 := Five(w, Turn(0, CHOICE));
    assert w5.calls[1] == Call(BuyOne("2"), Idle) && w5.orders == [Bought(0, "1")];
    SecondIsNew();
    BuyReads(w5, 1, "2");
    assert [Bought(0, "1")] + [Bought(1, "2")] == [Bought(0, "1"), Bought(1, "2")];
  }

  /** Both then write 1, the second over the first. */
  lemma BothWrite(w: World)
    requires w == BothRead()
    ensures var w' := Step(Step(w, Turn(0, CHOICE)), Turn(1, CHOICE));
            && Closed(w', "A") && w'.orders == w.orders
            && w'.positions == map["A" := P.Position("A", 1.0, 1.0, 0.0)]
  {
    assert Upper("A") == "A" && Sound(Bought(0, "1")) && Sound(Bought(1, "2")) by {
      assert !Space("1"[0]) && !Space("2"[0]);
    }
    hide Upper, Sound, PositionOf;
    assert P.Apply(P.Empty("A"), FillOf(Bought(0, "1"))) == P.Position("A", 1.0, 1.0, 0.0);
    assert P.Apply(P.Empty("A"), FillOf(Bought(1, "2"))) == P.Position("A", 1.0, 1.0, 0.0);
    hide P.Apply;
    WriteStep(w, 0, CHOICE);
    WriteStep(Next(w, 0, CHOICE), 1, CHOICE);
    hide Next;
  }

  lemma TwoBuys(a: TradeOrder, b: TradeOrder)
    requires IsFilled(a) && IsFilled(b) && a.symbol == b.symbol && a.side == b.side == Buy
    ensures P.Sum(FillsOf([a, b], a.symbol), P.Signed) == a.quantity + b.quantity
  {
    FillsOfNext([], a, a.symbol);
    FillsOfNext([a], b, a.symbol);
    assert [] + [a] == [a] && [a] + [b] == [a, b];
    SumNext([], FillOf(a), P.Signed);
    SumNext([FillOf(a)], FillOf(b), P.Signed);
    assert [] + [FillOf(a)] == [FillOf(a)];
  }

  /** Ten turns in which each call in turn runs up to its position write. */
  function TenTurns(): seq<Turn> {
    var u, v := Turn(0, CHOICE), Turn(1, CHOICE);
    [] + [u, u, u, u, u] + [v, v, v, v, v]
  }

  lemma TenTurnsRead(w: World)
    requires w == Opening([BuyOne("1"), BuyOne("2")])
    ensures Interleaved(w, TenTurns()) == BothRead()
  {
    var u, v := Turn(0, CHOICE), Turn(1, CHOICE);
    assert Interleaved(w, []) == w;
    hide Interleaved, Step, Five, Opening, BothRead;
    InterleavedFive(w, [], u);
    InterleavedFive(w, [] + [u, u, u, u, u], v);
    BothCallsRead(w);
  }

  predicate LosesABuy(w: World) {
    && Closed(w, "A") && |w.orders| == 2 && IsFilled(w.orders[0]) && IsFilled(w.orders[1])
    && PositionOf(w.positions, "A").quantity == 1.0 && P.Sum(FillsOf(w.orders, "A"), P.Signed) == 2.0
  }

  lemma SettledIsALoss(w: World)
    requires Closed(w, "A") && w.orders == BothRead().orders && w.positions == map["A" := P.Position("A", 1.0, 1.0, 0.0)]
    ensures LosesABuy(w)
  {
    TwoBuys(Bought(0, "1"), Bought(1, "2"));
    hide FillsOf, P.Sum, Closed;
    assert Upper("A") == "A";
  }

  /** Such an interleaving is reachable: two buys of 1, both filled and stored, leave 1. */
  lemma LostUpdateReachable(turns: seq<Turn>)
    requires turns == TenTurns() + [Turn(0, CHOICE)] + [Turn(1, CHOICE)]
    ensures LosesABuy(Interleaved(Opening([BuyOne("1"), BuyOne("2")]), turns))
  {
    var w := Opening([BuyOne("1"), BuyOne("2")]);
    hide Interleaved, Step, Opening, BothRead, LosesABuy, TenTurns, Closed;
    TenTurnsRead(w);
    InterleavedNext(w, TenTurns(), Turn(0, CHOICE));
    InterleavedNext(w, TenTurns() + [Turn(0, CHOICE)], Turn(1, CHOICE));
    BothWrite(BothRead());
    SettledIsALoss(Interleaved(w, turns));
  }
}
