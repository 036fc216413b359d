/** Average-cost position accounting (app/modules/trading/domain/portfolio.py). */
module Portfolio {
  import opened Wrappers
  import opened Reals

  datatype Position = Position(symbol: string, quantity: real, average: real, realized: real)

  // The source compares the side with "buy" only: every other string sells.
  datatype Fill = Fill(side: string, quantity: real, price: real)

  function Empty(symbol: string): Position {
    Position(symbol, 0.0, 0.0, 0.0)
  }

  function Abs(x: real): real {
    if x < 0.0 then -x else x
  }

  function Min(x: real, y: real): real {
    if y < x then y else x
  }

  predicate ValidFill(f: Fill) {
    f.quantity > 0.0 && f.price > 0.0
  }

  function Signed(f: Fill): real {
    if f.side == "buy" then f.quantity else -f.quantity
  }

  /** A fill on a flat position or on the side already held. */
  predicate Extends(p: Position, f: Fill) {
    || p.quantity == 0.0
    || (p.quantity > 0.0 && Signed(f) > 0.0)
    || (p.quantity < 0.0 && Signed(f) < 0.0)
  }

  function Extended(p: Position, f: Fill): Position
    requires ValidFill(f) && Extends(p, f)
  {
    var cost := Abs(p.quantity) * p.average + f.quantity * f.price;
    var total := p.quantity + Signed(f);
    Position(p.symbol, total, cost / Abs(total), p.realized)
  }

  /** Partial close, full close or flip. */
  function Reduced(p: Position, f: Fill): Position
    requires ValidFill(f)
  {
    var held := p.quantity;
    var closed := Min(Abs(held), f.quantity);
    var perUnit := if held < 0.0 then -(f.price - p.average) else f.price - p.average;
    var remaining := held + Signed(f);
    var average :=
      if remaining == 0.0 then 0.0
      else if (held > 0.0 && remaining > 0.0) || (held < 0.0 && remaining < 0.0) then p.average
      else f.price;
    Position(p.symbol, remaining, average, p.realized + closed * perUnit)
  }

  /** The new position after a fill that passed the positivity check. */
  function Apply(p: Position, f: Fill): Position
    requires ValidFill(f)
  {
    if Extends(p, f) then Extended(p, f) else Reduced(p, f)
  }

  function ApplyFill(p: Position, f: Fill): Result<Position, string> {
    if !ValidFill(f) then Failure("fill quantity and price must be positive")
    else Success(Apply(p, f))
  }

  /** A fill history applied in order; stops at the first fill that raises. */
  function Replay(p: Position, fills: seq<Fill>): Result<Position, string> {
    if fills == [] then Success(p)
    else
      var q :- Replay(p, fills[..|fills| - 1]);
      ApplyFill(q, fills[|fills| - 1])
  }

  /** The sum of a per-fill amount over a history. */
  function Sum(fills: seq<Fill>, amount: Fill -> real): real {
    if fills == [] then 0.0
    else Sum(fills[..|fills| - 1], amount) + amount(fills[|fills| - 1])
  }

  /** Signed cash value of a fill: positive when buying. */
  function Notional(f: Fill): real {
    Signed(f) * f.price
  }

  /** Realized profit minus the cost of the open quantity: the net cash a history has returned. */
  function Basis(p: Position): real {
    p.realized - p.quantity * p.average
  }

  /** Realized plus unrealized profit with the open quantity valued at `mark`. */
  function ProfitAt(p: Position, mark: real): real {
    p.realized + p.quantity * (mark - p.average)
  }

  lemma {:induction false} ReplayConcat(p: Position, a: seq<Fill>, b: seq<Fill>)
    ensures Replay(p, a + b) == match Replay(p, a)
                                case Success(q) => Replay(q, b)
                                case Failure(e) => Failure(e)
  {
    if b == [] {
      assert a + b == a;
    } else {
      assert (a + b)[..|a + b| - 1] == a + b[..|b| - 1];
      ReplayConcat(p, a, b[..|b| - 1]);
    }
  }

  /** A history is accepted exactly when each of its fills is; the symbol never changes. */
  lemma {:induction false} ReplayAccepts(p: Position, fills: seq<Fill>)
    ensures Replay(p, fills).Success? <==>
              forall i :: 0 <= i < |fills| ==> fills[i].quantity > 0.0 && fills[i].price > 0.0
    ensures Replay(p, fills).Success? ==> Replay(p, fills).value.symbol == p.symbol
  {
    if fills == [] {
    } else {
      var front := fills[..|fills| - 1];
      ReplayAccepts(p, front);
      assert forall i :: 0 <= i < |front| ==> front[i] == fills[i];
    }
  }

  // ----- What one fill does -------------------------------------------------

  predicate Opposite(p: Position, f: Fill) {
    (p.quantity > 0.0 && f.side != "buy") || (p.quantity < 0.0 && f.side == "buy")
  }

  /** Profit per unit closed at a price. */
  function GainAt(p: Position, price: real): real {
    if p.quantity > 0.0 then price - p.average else p.average - price
  }

  /** An opposite fill smaller than the position keeps the average of the rest and realizes the
      gain on its own quantity alone. */
  lemma PartialClose(p: Position, f: Fill)
    requires ValidFill(f) && Opposite(p, f) && f.quantity < Abs(p.quantity)
    ensures Apply(p, f) == p.(quantity := if p.quantity > 0.0 then p.quantity - f.quantity else p.quantity + f.quantity,
                              realized := p.realized + f.quantity * GainAt(p, f.price))
  {
    assert Min(Abs(p.quantity), f.quantity) == f.quantity;
  }

  /** A larger or equal one realizes the gain on the whole position; what lies beyond is held at
      the fill's price. */
  lemma CloseOrFlip(p: Position, f: Fill)
    requires ValidFill(f) && Opposite(p, f) && f.quantity >= Abs(p.quantity)
    ensures var beyond := f.quantity - Abs(p.quantity);
            Apply(p, f) == Position(p.symbol, if f.side == "buy" then beyond else -beyond,
                                    if beyond == 0.0 then 0.0 else f.price,
                                    p.realized + Abs(p.quantity) * GainAt(p, f.price))
  {
    assert Min(Abs(p.quantity), f.quantity) == Abs(p.quantity);
  }

  /** Any other fill adds its quantity and its cost and realizes nothing. */
  lemma OpenOrAdd(p: Position, f: Fill)
    requires ValidFill(f) && !Opposite(p, f)
    ensures var q := Apply(p, f);
            && q.quantity == (if f.side == "buy" then p.quantity + f.quantity else p.quantity - f.quantity)
            && Abs(q.quantity) == Abs(p.quantity) + f.quantity && q.realized == p.realized
            && Abs(q.quantity) * q.average == Abs(p.quantity) * p.average + f.quantity * f.price
  {
    QuotientTimes(Abs(p.quantity) * p.average + f.quantity * f.price, Abs(p.quantity + Signed(f)));
  }

  // ----- Ledger conservation ------------------------------------------------

  lemma ExtendedConserves(p: Position, f: Fill)
    requires ValidFill(f) && Extends(p, f)
    ensures Basis(Extended(p, f)) == Basis(p) - Notional(f)
  {
    var cost := Abs(p.quantity) * p.average + f.quantity * f.price;
    var total := p.quantity + Signed(f);
    var q := Extended(p, f);
    QuotientTimes(cost, Abs(total));
    assert q.average * Abs(total) == cost;
    if total > 0.0 {
      assert q.quantity * q.average == p.quantity * p.average + Notional(f);
    } else {
      assert q.quantity * q.average == -(q.average * Abs(total));
      assert cost == -(p.quantity * p.average) - Notional(f);
    }
  }

  lemma ReducedConserves(p: Position, f: Fill)
    requires ValidFill(f) && !Extends(p, f)
    ensures Basis(Reduced(p, f)) == Basis(p) - Notional(f)
  {
    var q := Reduced(p, f);
    if f.quantity < Abs(p.quantity) {
      assert q.realized == p.realized - Signed(f) * (f.price - p.average);
    } else {
      assert q.realized == p.realized + p.quantity * (f.price - p.average);
      assert q.quantity * q.average == q.quantity * f.price;
    }
  }

  /** Realized profit is minus the cash spent plus the cost of what is still held, for
      every history from every starting position: adds, partial closes, closes and flips. */
  lemma {:induction false} LedgerConservation(p: Position, fills: seq<Fill>)
    requires Replay(p, fills).Success?
    ensures Replay(p, fills).value.quantity == p.quantity + Sum(fills, Signed)
    ensures Basis(Replay(p, fills).value) == Basis(p) - Sum(fills, Notional)
  {
    if fills == [] {
    } else {
      hide Basis, Notional;
      var front, last := fills[..|fills| - 1], fills[|fills| - 1];
      LedgerConservation(p, front);
      var q := Replay(p, front).value;
      if Extends(q, last) {
        ExtendedConserves(q, last);
      } else {
        ReducedConserves(q, last);
      }
    }
  }

  /** From empty, written out. */
  lemma LedgerFromEmpty(symbol: string, fills: seq<Fill>)
    requires Replay(Empty(symbol), fills).Success?
    ensures var p := Replay(Empty(symbol), fills).value;
            && p.symbol == symbol && p.quantity == Sum(fills, Signed)
            && p.realized == -Sum(fills, Notional) + p.quantity * p.average
  {
    ReplayAccepts(Empty(symbol), fills);
    LedgerConservation(Empty(symbol), fills);
  }

  lemma {:induction false} SumRemove(fills: seq<Fill>, i: nat, amount: Fill -> real)
    requires i < |fills|
    ensures Sum(fills, amount) == Sum(fills[..i] + fills[i + 1..], amount) + amount(fills[i])
  {
    var n := |fills| - 1;
    if i == n {
      assert fills[..i] + fills[i + 1..] == fills[..n];
    } else {
      var rest := fills[..i] + fills[i + 1..];
      assert rest[..|rest| - 1] == fills[..n][..i] + fills[..n][i + 1..];
      SumRemove(fills[..n], i, amount);
    }
  }

  lemma RemoveAt(b: seq<Fill>, i: nat)
    requires i < |b|
    ensures multiset(b) == multiset(b[..i] + b[i + 1..]) + multiset{b[i]}
  {
    assert b == b[..i] + ([b[i]] + b[i + 1..]);
  }

  lemma WithoutLast(a: seq<Fill>, b: seq<Fill>) returns (i: nat)
    requires multiset(a) == multiset(b) && a != []
    ensures i < |b| && b[i] == a[|a| - 1]
    ensures multiset(a[..|a| - 1]) == multiset(b[..i] + b[i + 1..])
  {
    var n := |a| - 1;
    assert a[n] in multiset(b);
    i :| 0 <= i < |b| && b[i] == a[n];
    RemoveAt(a, n);
    assert a[..n] + a[n + 1..] == a[..n];
    RemoveAt(b, i);
    assert multiset(a[..n]) == multiset(a) - multiset{a[n]};
    assert multiset(b[..i] + b[i + 1..]) == multiset(b) - multiset{a[n]};
  }

  lemma {:induction false} SumPermutation(a: seq<Fill>, b: seq<Fill>, amount: Fill -> real)
    requires multiset(a) == multiset(b)
    ensures Sum(a, amount) == Sum(b, amount)
  {
    if a == [] {
      assert |multiset(b)| == 0;
    } else {
      var n := |a| - 1;
      var i := WithoutLast(a, b);
      SumPermutation(a[..n], b[..i] + b[i + 1..], amount);
      SumRemove(b, i, amount);
    }
  }

  lemma PermutationAccepted(p: Position, a: seq<Fill>, b: seq<Fill>)
    requires multiset(a) == multiset(b) && Replay(p, a).Success?
    ensures Replay(p, b).Success?
  {
    hide Apply, Replay;
    ReplayAccepts(p, a);
    ReplayAccepts(p, b);
    forall i | 0 <= i < |b| ensures ValidFill(b[i]) {
      assert b[i] in multiset(a);
    }
  }

  lemma RealizedWhenFlat(p: Position)
    requires p.quantity == 0.0
    ensures p.realized == Basis(p)
  {}

  lemma ProfitFromBasis(p: Position, mark: real)
    ensures ProfitAt(p, mark) == Basis(p) + p.quantity * mark
  {}

  /** Total profit at any mark does not depend on the order of the fills, and neither
      does realized profit when the history ends flat. */
  lemma ProfitOrderIndependent(p: Position, a: seq<Fill>, b: seq<Fill>, mark: real)
    requires multiset(a) == multiset(b)
    requires Replay(p, a).Success?
    ensures Replay(p, b).Success?
    ensures ProfitAt(Replay(p, a).value, mark) == ProfitAt(Replay(p, b).value, mark)
    ensures Replay(p, a).value.quantity == Replay(p, b).value.quantity
    ensures Replay(p, a).value.quantity == 0.0
        ==> Replay(p, a).value.realized == Replay(p, b).value.realized
  {
    hide Apply, Replay, Basis, ProfitAt, Sum;
    PermutationAccepted(p, a, b);
    LedgerConservation(p, a);
    LedgerConservation(p, b);
    SumPermutation(a, b, Signed);
    SumPermutation(a, b, Notional);
    ProfitFromBasis(Replay(p, a).value, mark);
    ProfitFromBasis(Replay(p, b).value, mark);
    if Replay(p, a).value.quantity == 0.0 {
      RealizedWhenFlat(Replay(p, a).value);
      RealizedWhenFlat(Replay(p, b).value);
    }
  }

  // ----- The average entry price ----------------------------------------------

  /** A weighted average is at least any lower bound of its two values. */
  lemma WeightedAverageAtLeast(w1: real, v1: real, w2: real, v2: real, lo: real)
    requires w1 >= 0.0 && w2 > 0.0 && lo <= v2 && (w1 != 0.0 ==> lo <= v1)
    ensures (w1 * v1 + w2 * v2) / (w1 + w2) >= lo
  {
    var excess := w1 * (v1 - lo) + w2 * (v2 - lo);
    if w1 != 0.0 {
      ProductNonNegative(w1, v1 - lo);
    }
    ProductNonNegative(w2, v2 - lo);
    QuotientNonNegative(excess, w1 + w2);
    assert w1 * v1 + w2 * v2 == excess + lo * (w1 + w2);
    assert (w1 * v1 + w2 * v2) / (w1 + w2) == excess / (w1 + w2) + lo;
  }

  lemma WeightedAverageNegated(w1: real, v1: real, w2: real, v2: real)
    requires w1 >= 0.0 && w2 > 0.0
    ensures (w1 * -v1 + w2 * -v2) / (w1 + w2) == -((w1 * v1 + w2 * v2) / (w1 + w2))
  {
    assert w1 * -v1 + w2 * -v2 == -(w1 * v1 + w2 * v2);
  }

  predicate PricedWithin(p: Position, lo: real, hi: real) {
    if p.quantity == 0.0 then p.average == 0.0 else lo <= p.average <= hi
  }

  lemma ExtendedPricedWithin(p: Position, f: Fill, lo: real, hi: real)
    requires ValidFill(f) && Extends(p, f) && lo <= f.price <= hi && PricedWithin(p, lo, hi)
    ensures PricedWithin(Extended(p, f), lo, hi)
  {
    var size := Abs(p.quantity);
    WeightedAverageAtLeast(size, p.average, f.quantity, f.price, lo);
    WeightedAverageAtLeast(size, -p.average, f.quantity, -f.price, -hi);
    WeightedAverageNegated(size, p.average, f.quantity, f.price);
    assert Abs(p.quantity + Signed(f)) == size + f.quantity;
  }

  /** A flat position has average 0; an open one averages within the range of prices traded. */
  lemma {:induction false} AverageWithinPrices(symbol: string, fills: seq<Fill>, lo: real, hi: real)
    requires Replay(Empty(symbol), fills).Success?
    requires forall i :: 0 <= i < |fills| ==> lo <= fills[i].price <= hi
    ensures PricedWithin(Replay(Empty(symbol), fills).value, lo, hi)
  {
    if fills == [] {
    } else {
      var front := fills[..|fills| - 1];
      AverageWithinPrices(symbol, front, lo, hi);
      var p, last := Replay(Empty(symbol), front).value, fills[|fills| - 1];
      if Extends(p, last) {
        ExtendedPricedWithin(p, last, lo, hi);
      }
    }
  }

  /** A quantity held, and what it was bought or sold at. */
  datatype Lot = Lot(quantity: real, price: real)

  function LotsQuantity(lots: seq<Lot>): real {
    if lots == [] then 0.0 else LotsQuantity(lots[..|lots| - 1]) + lots[|lots| - 1].quantity
  }

  function LotsCost(lots: seq<Lot>): real {
    if lots == [] then 0.0
    else LotsCost(lots[..|lots| - 1]) + lots[|lots| - 1].quantity * lots[|lots| - 1].price
  }

  function Share(lot: Lot, factor: real): Lot {
    lot.(quantity := lot.quantity * factor)
  }

  function Shrunk(lots: seq<Lot>, factor: real): seq<Lot> {
    seq(|lots|, i requires 0 <= i < |lots| => Share(lots[i], factor))
  }

  /** The lots still held after a history: every fill in the direction held brings one, a
      partial close takes its share of each, a flip starts over with what lies beyond zero. */
  function Lots(fills: seq<Fill>): seq<Lot> {
    if fills == [] then []
    else
      var front, f := fills[..|fills| - 1], fills[|fills| - 1];
      var held := Sum(front, Signed);
      var after := held + Signed(f);
      if after == 0.0 then []
      else if held == 0.0 || (held > 0.0) == (f.side == "buy") then Lots(front) + [Lot(f.quantity, f.price)]
      else if (after > 0.0) == (held > 0.0) then Shrunk(Lots(front), after / held)
      else [Lot(Abs(after), f.price)]
  }

  lemma LotsNext(lots: seq<Lot>, lot: Lot)
    ensures LotsQuantity(lots + [lot]) == LotsQuantity(lots) + lot.quantity
    ensures LotsCost(lots + [lot]) == LotsCost(lots) + lot.quantity * lot.price
  {
    assert (lots + [lot])[..|lots|] == lots;
  }

  lemma ShrinkSum(x: real, y: real, sum: real, factor: real, x': real, y': real)
    requires sum == x + y && x' == x * factor && y' == y * factor
    ensures x' + y' == sum * factor
  {}

  lemma ShrinkCost(lot: Lot, factor: real)
    ensures Share(lot, factor).quantity * Share(lot, factor).price == lot.quantity * lot.price * factor
  {
    assert lot.quantity * factor * lot.price == lot.quantity * lot.price * factor;
  }

  lemma ShrunkNext(lots: seq<Lot>, last: Lot, factor: real)
    ensures Shrunk(lots + [last], factor) == Shrunk(lots, factor) + [Share(last, factor)]
  {
    hide Share;
  }

  lemma ShrunkTotalsNext(lots: seq<Lot>, shrunk: seq<Lot>, last: Lot, factor: real)
    requires LotsQuantity(shrunk) == LotsQuantity(lots) * factor && LotsCost(shrunk) == LotsCost(lots) * factor
    ensures LotsQuantity(shrunk + [Share(last, factor)]) == LotsQuantity(lots + [last]) * factor
    ensures LotsCost(shrunk + [Share(last, factor)]) == LotsCost(lots + [last]) * factor
  {
    hide LotsQuantity, LotsCost;
    LotsNext(lots, last);
    LotsNext(shrunk, Share(last, factor));
    ShrinkSum(LotsQuantity(lots), last.quantity, LotsQuantity(lots + [last]), factor,
              LotsQuantity(shrunk), Share(last, factor).quantity);
    ShrinkCost(last, factor);
    ShrinkSum(LotsCost(lots), last.quantity * last.price, LotsCost(lots + [last]), factor,
              LotsCost(shrunk), Share(last, factor).quantity * Share(last, factor).price);
  }

  lemma {:induction false} ShrunkTotals(lots: seq<Lot>, factor: real)
    ensures LotsQuantity(Shrunk(lots, factor)) == LotsQuantity(lots) * factor
    ensures LotsCost(Shrunk(lots, factor)) == LotsCost(lots) * factor
  {
    if lots == [] {
    } else {
      hide LotsQuantity, LotsCost, Shrunk, Share;
      var front, last := lots[..|lots| - 1], lots[|lots| - 1];
      assert lots == front + [last];
      ShrunkTotals(front, factor);
      ShrunkNext(front, last, factor);
      ShrunkTotalsNext(front, Shrunk(front, factor), last, factor);
    }
  }

  /** The lots are what the position holds, at the cost its average stands for. */
  predicate Holds(p: Position, lots: seq<Lot>) {
    && LotsQuantity(lots) == Abs(p.quantity) && LotsCost(lots) == Abs(p.quantity) * p.average
    && (p.quantity == 0.0 ==> lots == [])
  }

  lemma ShareLeft(held: real, after: real, average: real)
    requires held != 0.0 && after != 0.0 && (after > 0.0) == (held > 0.0)
    ensures Abs(held) * (after / held) == Abs(after)
    ensures Abs(held) * average * (after / held) == Abs(after) * average
  {
    QuotientTimes(after, held);
    var share := after / held;
    assert Abs(held) * share == Abs(after);
    assert Abs(held) * average * share == Abs(held) * share * average;
  }

  lemma NoLots()
    ensures LotsQuantity([]) == 0.0 && LotsCost([]) == 0.0
  {}

  lemma FillHolds(p: Position, lots: seq<Lot>, f: Fill)
    requires ValidFill(f) && Holds(p, lots)
    ensures var after := p.quantity + Signed(f);
            Holds(Apply(p, f),
                  if after == 0.0 then []
                  else if p.quantity == 0.0 || (p.quantity > 0.0) == (f.side == "buy") then lots + [Lot(f.quantity, f.price)]
                  else if (after > 0.0) == (p.quantity > 0.0) then Shrunk(lots, after / p.quantity)
                  else [Lot(Abs(after), f.price)])
  {
    var after := p.quantity + Signed(f);
    hide Extended, Reduced, LotsQuantity, LotsCost, Shrunk;
    if after == 0.0 {
      CloseOrFlip(p, f);
      NoLots();
    } else if !Opposite(p, f) {
      OpenOrAdd(p, f);
      LotsNext(lots, Lot(f.quantity, f.price));
    } else if f.quantity < Abs(p.quantity) {
      PartialClose(p, f);
      ShareLeft(p.quantity, after, p.average);
      ShrunkTotals(lots, after / p.quantity);
    } else {
      CloseOrFlip(p, f);
      NoLots();
      LotsNext([], Lot(Abs(after), f.price));
      assert [] + [Lot(Abs(after), f.price)] == [Lot(Abs(after), f.price)];
    }
  }

  lemma AverageOfCost(cost: real, size: real, average: real)
    requires size > 0.0 && cost == size * average
    ensures average == cost / size
  {
    QuotientTimes(cost, size);
    assert average * size == size * average;
    Cancel(cost / size, average, size);
  }

  lemma AverageFromLots(p: Position, lots: seq<Lot>)
    requires Holds(p, lots)
    ensures LotsQuantity(lots) == Abs(p.quantity)
    ensures if p.quantity == 0.0 then lots == [] else p.average == LotsCost(lots) / LotsQuantity(lots)
  {
    if p.quantity != 0.0 {
      AverageOfCost(LotsCost(lots), Abs(p.quantity), p.average);
    }
  }

  lemma FlatAverage(p: Position, f: Fill)
    requires ValidFill(f) && Apply(p, f).quantity == 0.0
    ensures Apply(p, f).average == 0.0
  {
    CloseOrFlip(p, f);
  }

  /** After every history from empty, the position holds exactly its lots: the average of an
      open position is their cost over their quantity. */
  lemma {:induction false} AverageIsCostOfLots(symbol: string, fills: seq<Fill>)
    requires Replay(Empty(symbol), fills).Success?
    ensures var p, lots := Replay(Empty(symbol), fills).value, Lots(fills);
            && LotsQuantity(lots) == Abs(p.quantity)
            && (if p.quantity == 0.0 then lots == [] && p.average == 0.0
                else p.average == LotsCost(lots) / LotsQuantity(lots))
    ensures Holds(Replay(Empty(symbol), fills).value, Lots(fills))
  {
    if fills == [] {
    } else {
      var front, f := fills[..|fills| - 1], fills[|fills| - 1];
      AverageIsCostOfLots(symbol, front);
      LedgerConservation(Empty(symbol), front);
      var p := Replay(Empty(symbol), front).value;
      FillHolds(p, Lots(front), f);
      hide Holds, LotsQuantity, LotsCost, Shrunk;
      AverageFromLots(Apply(p, f), Lots(fills));
      if Apply(p, f).quantity == 0.0 {
        FlatAverage(p, f);
      }
    }
  }

  /** What was bought or sold in the direction held, partial closes forgotten, does not give the
      average: buy 2 at 10, sell 1, buy 1 at 20 averages 15, not 40 / 3. */
  lemma ForgettingClosesFails(fills: seq<Fill>)
    requires fills == [Fill("buy", 2.0, 10.0), Fill("sell", 1.0, 10.0), Fill("buy", 1.0, 20.0)]
    ensures Replay(Empty("A"), fills) == Success(Position("A", 2.0, 15.0, 0.0))
  {
    assert fills[..2][..1][..0] == [];
    assert Replay(Empty("A"), fills[..1]) == Success(Position("A", 2.0, 10.0, 0.0)) by {
      assert fills[..1][..0] == [];
    }
    assert Replay(Empty("A"), fills[..2]) == Success(Position("A", 1.0, 10.0, 0.0)) by {
      assert fills[..2][..1] == fills[..1];
    }
  }

  lemma AverageMoves(held: real, size: real, quantity: real, average: real, price: real, next: real)
    requires held > 0.0 && size >= held && quantity > 0.0
    requires (held + quantity) * next == held * average + quantity * price
    ensures next * (size + quantity) == average * size + quantity * price <==> size == held || price == average
  {
    assert next * (size + quantity) - (average * size + quantity * price) == (next - average) * (size - held);
    assert (next - average) * (held + quantity) == (price - average) * quantity;
    if next == average {
      assert (price - average) * quantity == 0.0;
    }
    if price == average {
      Cancel(next, average, held + quantity);
    }
  }

  /** The next fill in the direction held keeps such an average right exactly if nothing has been
      closed, or the fill is at the average. */
  lemma ForgettingClosesIff(p: Position, f: Fill, size: real, cost: real)
    requires ValidFill(f) && p.quantity != 0.0 && !Opposite(p, f)
    requires size >= Abs(p.quantity) && p.average * size == cost
    ensures Apply(p, f).average * (size + f.quantity) == cost + f.quantity * f.price <==>
            size == Abs(p.quantity) || f.price == p.average
  {
    OpenOrAdd(p, f);
    hide Apply;
    AverageMoves(Abs(p.quantity), size, f.quantity, p.average, f.price, Apply(p, f).average);
  }

  /** A fill in the direction held brings a lot, a flip starts over with what lies beyond zero,
      and a partial close is forgotten. */
  function WithFill(held: real, lots: seq<Lot>, f: Fill): seq<Lot> {
    var after := held + Signed(f);
    if after == 0.0 then []
    else if held == 0.0 || (held > 0.0) == (f.side == "buy") then lots + [Lot(f.quantity, f.price)]
    else if (after > 0.0) == (held > 0.0) then lots
    else [Lot(Abs(after), f.price)]
  }

  /** The fills that built the position since it was last flat or flipped. */
  function Built(fills: seq<Fill>): seq<Lot> {
    if fills == [] then []
    else
      var front := fills[..|fills| - 1];
      WithFill(Sum(front, Signed), Built(front), fills[|fills| - 1])
  }

  /** An open position averages the cost of these lots over their quantity. */
  predicate AveragesBuilt(p: Position, lots: seq<Lot>) {
    p.quantity != 0.0 ==> p.average * LotsQuantity(lots) == LotsCost(lots)
  }

  /** The fill closes, opens, meets a position from which nothing has been closed, or is at the
      average. */
  predicate Harmless(p: Position, lots: seq<Lot>, f: Fill) {
    Opposite(p, f) || p.quantity == 0.0 || LotsQuantity(lots) == Abs(p.quantity) || f.price == p.average
  }

  /** What the lots built have of a position, closes or not. */
  predicate Covers(p: Position, lots: seq<Lot>) {
    LotsQuantity(lots) >= Abs(p.quantity) && (p.quantity == 0.0 ==> lots == [])
  }

  lemma AddBuilds(p: Position, q: Position, lots: seq<Lot>, f: Fill)
    requires ValidFill(f) && Covers(p, lots) && AveragesBuilt(p, lots) && !Opposite(p, f) && q == Apply(p, f)
    ensures Covers(q, lots + [Lot(f.quantity, f.price)])
    ensures AveragesBuilt(q, lots + [Lot(f.quantity, f.price)]) <==> Harmless(p, lots, f)
  {
    hide Apply, LotsQuantity, LotsCost;
    NoLots();
    OpenOrAdd(p, f);
    LotsNext(lots, Lot(f.quantity, f.price));
    if p.quantity == 0.0 {
      Cancel(q.average, f.price, f.quantity);
    } else {
      ForgettingClosesIff(p, f, LotsQuantity(lots), LotsCost(lots));
    }
  }

  lemma OneLot(lot: Lot)
    ensures LotsQuantity([lot]) == lot.quantity && LotsCost([lot]) == lot.quantity * lot.price
  {
    LotsNext([], lot);
    assert [] + [lot] == [lot];
  }

  lemma FillBuilds(p: Position, q: Position, lots: seq<Lot>, f: Fill)
    requires ValidFill(f) && Covers(p, lots) && AveragesBuilt(p, lots) && q == Apply(p, f)
    ensures Covers(q, WithFill(p.quantity, lots, f))
    ensures AveragesBuilt(q, WithFill(p.quantity, lots, f)) <==> Harmless(p, lots, f)
  {
    hide Apply, LotsQuantity, LotsCost;
    NoLots();
    if !Opposite(p, f) {
      AddBuilds(p, q, lots, f);
      hide Covers, AveragesBuilt, Harmless;
    } else if f.quantity < Abs(p.quantity) {
      PartialClose(p, f);
    } else {
      CloseOrFlip(p, f);
      OneLot(Lot(q.quantity, f.price));
      OneLot(Lot(-q.quantity, f.price));
    }
  }

  /** What the position is after k fills, none of which has raised. */
  function PositionAt(symbol: string, fills: seq<Fill>, k: nat): Position
    requires k <= |fills| && Replay(Empty(symbol), fills).Success?
  {
    ReplayAccepts(Empty(symbol), fills);
    ReplayAccepts(Empty(symbol), fills[..k]);
    Replay(Empty(symbol), fills[..k]).value
  }

  /** After k fills the average is the cost of the fills that built the position over their quantity. */
  predicate BuiltAt(symbol: string, fills: seq<Fill>, k: nat)
    requires k <= |fills| && Replay(Empty(symbol), fills).Success?
  {
    AveragesBuilt(PositionAt(symbol, fills, k), Built(fills[..k]))
  }

  predicate HarmlessAt(symbol: string, fills: seq<Fill>, k: nat)
    requires k < |fills| && Replay(Empty(symbol), fills).Success?
  {
    Harmless(PositionAt(symbol, fills, k), Built(fills[..k]), fills[k])
  }

  lemma ReplayNext(p: Position, fills: seq<Fill>, k: nat)
    requires k < |fills| && Replay(p, fills[..k]).Success?
    ensures Replay(p, fills[..k + 1]) == ApplyFill(Replay(p, fills[..k]).value, fills[k])
  {
    hide ApplyFill;
    assert fills[..k + 1][..k] == fills[..k] && fills[..k + 1][k] == fills[k];
  }

  lemma NextPosition(symbol: string, fills: seq<Fill>, k: nat)
    requires k < |fills| && Replay(Empty(symbol), fills).Success?
    ensures ValidFill(fills[k])
    ensures PositionAt(symbol, fills, k + 1) == Apply(PositionAt(symbol, fills, k), fills[k])
  {
    hide Replay, Apply;
    ReplayAccepts(Empty(symbol), fills);
    ReplayAccepts(Empty(symbol), fills[..k]);
    ReplayNext(Empty(symbol), fills, k);
  }

  lemma PositionQuantity(symbol: string, fills: seq<Fill>, k: nat)
    requires k <= |fills| && Replay(Empty(symbol), fills).Success?
    ensures PositionAt(symbol, fills, k).quantity == Sum(fills[..k], Signed)
  {
    hide Replay, Sum;
    ReplayAccepts(Empty(symbol), fills);
    ReplayAccepts(Empty(symbol), fills[..k]);
    LedgerFromEmpty(symbol, fills[..k]);
  }

  lemma NextBuilt(symbol: string, fills: seq<Fill>, k: nat)
    requires k < |fills| && Replay(Empty(symbol), fills).Success?
    ensures Built(fills[..k + 1]) == WithFill(PositionAt(symbol, fills, k).quantity, Built(fills[..k]), fills[k])
  {
    hide WithFill, PositionAt, Sum, Replay;
    PositionQuantity(symbol, fills, k);
    assert fills[..k + 1][..k] == fills[..k];
  }

  predicate AllBuilt(symbol: string, fills: seq<Fill>, n: nat)
    requires n <= |fills| && Replay(Empty(symbol), fills).Success?
  {
    forall k: nat :: k <= n ==> BuiltAt(symbol, fills, k)
  }

  predicate AllHarmless(symbol: string, fills: seq<Fill>, n: nat)
    requires n <= |fills| && Replay(Empty(symbol), fills).Success?
  {
    forall k: nat :: k < n ==> HarmlessAt(symbol, fills, k)
  }

  lemma OneMoreFill(symbol: string, fills: seq<Fill>, n: nat)
    requires n < |fills| && Replay(Empty(symbol), fills).Success? && BuiltAt(symbol, fills, n)
    requires Covers(PositionAt(symbol, fills, n), Built(fills[..n]))
    ensures BuiltAt(symbol, fills, n + 1) <==> HarmlessAt(symbol, fills, n)
    ensures Covers(PositionAt(symbol, fills, n + 1), Built(fills[..n + 1]))
  {
    hide Replay, Built, PositionAt, Apply, Covers, Harmless, AveragesBuilt, WithFill;
    NextPosition(symbol, fills, n);
    NextBuilt(symbol, fills, n);
    FillBuilds(PositionAt(symbol, fills, n), PositionAt(symbol, fills, n + 1), Built(fills[..n]), fills[n]);
  }

  lemma NothingBuilt(symbol: string, fills: seq<Fill>)
    requires Replay(Empty(symbol), fills).Success?
    ensures BuiltAt(symbol, fills, 0) && Covers(PositionAt(symbol, fills, 0), Built(fills[..0]))
  {
    hide Apply;
    NoLots();
    assert fills[..0] == [];
    assert Replay(Empty(symbol), []) == Success(Empty(symbol));
    hide Replay;
  }

  /** Throughout a history the average is the cost of the fills that built the position over their
      quantity, exactly if every fill is harmless: none adds, at a price other than the average, to
      a position that has been partly closed. */
  lemma {:induction false} AverageOfBuiltIff(symbol: string, fills: seq<Fill>, n: nat)
    requires n <= |fills| && Replay(Empty(symbol), fills).Success?
    ensures AllBuilt(symbol, fills, n) <==> AllHarmless(symbol, fills, n)
    ensures AllBuilt(symbol, fills, n) ==> Covers(PositionAt(symbol, fills, n), Built(fills[..n]))
  {
    hide Replay, Built, PositionAt, BuiltAt, HarmlessAt, Covers;
    if n == 0 {
      NothingBuilt(symbol, fills);
    } else {
      AverageOfBuiltIff(symbol, fills, n - 1);
      if AllBuilt(symbol, fills, n - 1) {
        OneMoreFill(symbol, fills, n - 1);
      }
    }
  }

  // ----- Fill splitting -------------------------------------------------------

  lemma AverageOfAverage(q0: real, a0: real, q1: real, q2: real, price: real)
    requires q0 >= 0.0 && q1 > 0.0 && q2 > 0.0
    ensures ((q0 + q1) * ((q0 * a0 + q1 * price) / (q0 + q1)) + q2 * price) / (q0 + q1 + q2)
         == (q0 * a0 + (q1 + q2) * price) / (q0 + q1 + q2)
  {
    QuotientTimes(q0 * a0 + q1 * price, q0 + q1);
    assert q1 * price + q2 * price == (q1 + q2) * price;
  }

  lemma UnchangedAverage(q0: real, q1: real, price: real)
    requires q0 >= 0.0 && q1 > 0.0
    ensures (q0 * price + q1 * price) / (q0 + q1) == price
  {
    assert q0 * price + q1 * price == price * (q0 + q1);
  }

  lemma SplitWhileAdding(p: Position, side: string, q1: real, q2: real, price: real)
    requires q1 > 0.0 && q2 > 0.0 && price > 0.0 && Extends(p, Fill(side, q1, price))
    ensures Apply(Apply(p, Fill(side, q1, price)), Fill(side, q2, price)) == Apply(p, Fill(side, q1 + q2, price))
  {
    hide Reduced;
    AverageOfAverage(Abs(p.quantity), p.average, q1, q2, price);
    var mid := Extended(p, Fill(side, q1, price));
    assert Abs(mid.quantity) == Abs(p.quantity) + q1;
  }

  lemma FlipThenAdd(mid: Position, f: Fill, over: real, q2: real, price: real)
    requires ValidFill(f) && f.quantity == q2 && f.price == price && Extends(mid, f)
    requires Abs(mid.quantity) == over && (over != 0.0 ==> mid.average == price)
    ensures Extended(mid, f) == Position(mid.symbol, mid.quantity + Signed(f), price, mid.realized)
  {
    hide Reduced, Apply;
    UnchangedAverage(over, q2, price);
    assert Abs(mid.quantity + Signed(f)) == over + q2;
    assert Abs(mid.quantity) * mid.average == over * price;
    assert Extended(mid, f).average == (over * price + q2 * price) / (over + q2);
  }

  /** The first piece closes the position exactly or flips it; the second adds to the flip. */
  lemma SplitAfterClose(p: Position, side: string, q1: real, q2: real, price: real)
    requires q1 > 0.0 && q2 > 0.0 && price > 0.0 && Abs(p.quantity) <= q1
    requires !Extends(p, Fill(side, q1, price))
    ensures Apply(Apply(p, Fill(side, q1, price)), Fill(side, q2, price)) == Apply(p, Fill(side, q1 + q2, price))
  {
    var size := Abs(p.quantity);
    var mid := Reduced(p, Fill(side, q1, price));
    assert Abs(mid.quantity) == q1 - size;
    var whole := Reduced(p, Fill(side, q1 + q2, price));
    assert Min(size, q1) == size == Min(size, q1 + q2);
    assert mid.realized == whole.realized;
    hide Extended, Reduced;
    FlipThenAdd(mid, Fill(side, q2, price), q1 - size, q2, price);
  }

  /** The second piece closes further, closes exactly, or flips the position. */
  lemma SplitAfterPartialClose(p: Position, side: string, q1: real, q2: real, price: real)
    requires q1 > 0.0 && q2 > 0.0 && price > 0.0 && q1 < Abs(p.quantity)
    requires p.quantity > 0.0 <==> Signed(Fill(side, q1, price)) < 0.0
    ensures Apply(Apply(p, Fill(side, q1, price)), Fill(side, q2, price)) == Apply(p, Fill(side, q1 + q2, price))
  {
    var size := Abs(p.quantity);
    var perUnit := if p.quantity < 0.0 then -(price - p.average) else price - p.average;
    var c := Min(size - q1, q2);
    assert Min(size, q1 + q2) == q1 + c;
    assert q1 * perUnit + c * perUnit == (q1 + c) * perUnit;
  }

  lemma {:induction false} SplitInTwo(p: Position, side: string, q1: real, q2: real, price: real)
    requires q1 > 0.0 && q2 > 0.0 && price > 0.0
    ensures Apply(Apply(p, Fill(side, q1, price)), Fill(side, q2, price)) == Apply(p, Fill(side, q1 + q2, price))
  {
    hide Extended, Reduced;
    if Extends(p, Fill(side, q1, price)) {
      SplitWhileAdding(p, side, q1, q2, price);
    } else if q1 < Abs(p.quantity) {
      SplitAfterPartialClose(p, side, q1, q2, price);
    } else {
      SplitAfterClose(p, side, q1, q2, price);
    }
  }

  /** Total quantity of a list of fills. */
  function Total(pieces: seq<Fill>): real {
    Sum(pieces, (f: Fill) => f.quantity)
  }

  predicate SameTrade(pieces: seq<Fill>, side: string, price: real) {
    forall i :: 0 <= i < |pieces| ==> pieces[i].side == side && pieces[i].price == price && pieces[i].quantity > 0.0
  }

  lemma {:induction false} SplitFromAnywhere(p: Position, pieces: seq<Fill>, side: string, price: real)
    requires pieces != [] && price > 0.0 && SameTrade(pieces, side, price)
    ensures Total(pieces) > 0.0
    ensures Replay(p, pieces) == Success(Apply(p, Fill(side, Total(pieces), price)))
  {
    var n := |pieces| - 1;
    var front, last := pieces[..n], pieces[n];
    if n == 0 {
      assert Total(front) == 0.0;
      assert Replay(p, front) == Success(p);
      assert last == Fill(side, Total(pieces), price);
    } else {
      SplitFromAnywhere(p, front, side, price);
      assert Total(pieces) == Total(front) + last.quantity;
      SplitInTwo(p, side, Total(front), last.quantity, price);
      assert last == Fill(side, last.quantity, price);
    }
  }

  /** Replacing one fill anywhere in a history by same-side, same-price pieces of the same
      total leaves the final position, or the error, identical. */
  lemma FillSplitting(p: Position, before: seq<Fill>, pieces: seq<Fill>, after: seq<Fill>, side: string, price: real)
    requires pieces != [] && price > 0.0 && SameTrade(pieces, side, price)
    ensures Replay(p, before + pieces + after) == Replay(p, before + [Fill(side, Total(pieces), price)] + after)
  {
    var whole := [Fill(side, Total(pieces), price)];
    ReplayConcat(p, before + pieces, after);
    ReplayConcat(p, before + whole, after);
    ReplayConcat(p, before, pieces);
    ReplayConcat(p, before, whole);
    if Replay(p, before).Success? {
      var q := Replay(p, before).value;
      SplitFromAnywhere(q, pieces, side, price);
      assert Replay(q, whole[..0]) == Success(q);
    }
  }

  // ----- Mirroring --------------------------------------------------------------

  function MirrorFill(f: Fill): Fill {
    f.(side := if f.side == "buy" then "sell" else "buy")
  }

  function MirrorPosition(p: Position): Position {
    p.(quantity := -p.quantity, realized := -p.realized)
  }

  function MirrorFills(fills: seq<Fill>): seq<Fill> {
    seq(|fills|, i requires 0 <= i < |fills| => MirrorFill(fills[i]))
  }

  lemma MirrorApply(p: Position, f: Fill)
    requires ValidFill(f)
    ensures Apply(MirrorPosition(p), MirrorFill(f)) == MirrorPosition(Apply(p, f))
  {
    if !Extends(p, f) {
      var closed := Min(Abs(p.quantity), f.quantity);
      var gain := f.price - p.average;
      assert closed * -gain == -(closed * gain);
    } else {
      var q := MirrorPosition(p);
      assert Abs(q.quantity) * q.average == Abs(p.quantity) * p.average;
      assert Abs(q.quantity + Signed(MirrorFill(f))) == Abs(p.quantity + Signed(f));
    }
  }

  /** Long and short are symmetric over whole histories. */
  lemma {:induction false} Mirroring(p: Position, fills: seq<Fill>)
    ensures Replay(MirrorPosition(p), MirrorFills(fills)) == match Replay(p, fills)
                                                             case Success(q) => Success(MirrorPosition(q))
                                                             case Failure(e) => Failure(e)
  {
    if fills == [] {
    } else {
      var n := |fills| - 1;
      assert MirrorFills(fills)[..n] == MirrorFills(fills[..n]);
      Mirroring(p, fills[..n]);
      if Replay(p, fills[..n]).Success? && ValidFill(fills[n]) {
        MirrorApply(Replay(p, fills[..n]).value, fills[n]);
      }
    }
  }
}
