/** The order lifecycle: app/modules/trading/domain/entities/order.py. */
module Orders {
  import opened Wrappers

  datatype Side = Buy | Sell {
    function Value(): string {
      if Buy? then "buy" else "sell"
    }
  }

  datatype Status = Pending | Filled | Rejected

  datatype TradeOrder = TradeOrder(
    id: nat, symbol: string, side: Side, quantity: real, status: Status, requestedPrice: real,
    executedPrice: Option<real>, clientOrderId: string, createdAt: real, rejectionReason: Option<string>)

  // ASCII only: the source uppercases and strips Unicode text.
  function UpperChar(c: char): char {
    if 'a' <= c <= 'z' then c - 'a' + 'A' else c
  }

  function Upper(s: string): (r: string)
    ensures |r| == |s|
  {
    seq(|s|, i requires 0 <= i < |s| => UpperChar(s[i]))
  }

  predicate Space(c: char) {
    c == ' ' || '\t' <= c <= '\r' || '\U{1c}' <= c <= '\U{1f}'
  }

  /** `not s.strip()` */
  predicate Blank(s: string) {
    forall i :: 0 <= i < |s| ==> Space(s[i])
  }

  /** Letters lose their case and nothing else changes. */
  lemma UpperMeaning(s: string, i: nat)
    requires i < |s|
    ensures !('a' <= Upper(s)[i] <= 'z')
    ensures Upper(s)[i] != s[i] ==> 'A' <= Upper(s)[i] <= 'Z' && s[i] as int - Upper(s)[i] as int == 32
  {}

  lemma UpperIdempotent(s: string)
    ensures Upper(Upper(s)) == Upper(s)
  {}

  function Create(id: nat, symbol: string, side: Side, quantity: real, price: real, clientOrderId: string, now: real): Result<TradeOrder, string> {
    if quantity <= 0.0 then Failure("quantity must be positive")
    else if price <= 0.0 then Failure("requested_price must be positive")
    else if Blank(symbol) then Failure("symbol must not be empty")
    else if Blank(clientOrderId) then Failure("client_order_id must not be empty")
    else Success(TradeOrder(id, Upper(symbol), side, quantity, Pending, price, None, clientOrderId, now, None))
  }

  function Fill(order: TradeOrder, executedPrice: real): Result<TradeOrder, string> {
    if order.status != Pending then Failure("only pending orders can be filled")
    else if executedPrice <= 0.0 then Failure("executed_price must be positive")
    else Success(order.(status := Filled, executedPrice := Some(executedPrice)))
  }

  function Reject(order: TradeOrder, reason: string): Result<TradeOrder, string> {
    if order.status != Pending then Failure("only pending orders can be rejected")
    else Success(order.(status := Rejected, rejectionReason := Some(reason)))
  }

  /** What holds of every order the lifecycle can produce. */
  predicate Sound(order: TradeOrder) {
    && order.quantity > 0.0 && order.requestedPrice > 0.0
    && Upper(order.symbol) == order.symbol && !Blank(order.clientOrderId)
    && (order.status == Filled <==> order.executedPrice.Some?)
    && (order.executedPrice.Some? ==> order.executedPrice.value > 0.0)
    && (order.status == Rejected <==> order.rejectionReason.Some?)
  }

  datatype Change = FillAt(price: real) | RejectFor(reason: string)

  function Changed(order: TradeOrder, change: Change): Result<TradeOrder, string> {
    match change
    case FillAt(price) => Fill(order, price)
    case RejectFor(reason) => Reject(order, reason)
  }

  /** Attempts in order; a refused attempt raises and leaves the order as it was. */
  function Attempted(order: TradeOrder, changes: seq<Change>): TradeOrder {
    if changes == [] then order
    else
      var before := Attempted(order, changes[..|changes| - 1]);
      match Changed(before, changes[|changes| - 1])
      case Success(after) => after
      case Failure(_) => before
  }

  /** The terms an order was created with. */
  function Terms(order: TradeOrder): TradeOrder {
    order.(status := Pending, executedPrice := None, rejectionReason := None)
  }

  lemma ChangeKeepsSound(order: TradeOrder, change: Change)
    requires Sound(order) && Changed(order, change).Success?
    ensures order.status == Pending && Changed(order, change).value.status != Pending
    ensures Sound(Changed(order, change).value) && Terms(Changed(order, change).value) == Terms(order)
  {}

  /** Whatever is attempted, an order stays sound and keeps its terms; once filled or rejected
      it never changes again. */
  lemma {:induction false} Lifecycle(order: TradeOrder, changes: seq<Change>, k: nat)
    requires Sound(order) && k <= |changes|
    ensures Sound(Attempted(order, changes)) && Terms(Attempted(order, changes)) == Terms(order)
    ensures Attempted(order, changes[..k]).status != Pending ==>
              Attempted(order, changes) == Attempted(order, changes[..k])
  {
    if changes != [] {
      hide Changed, Sound, Terms;
      var n := |changes| - 1;
      var front, before := changes[..n], Attempted(order, changes[..n]);
      if k == n + 1 {
        assert changes[..k] == changes;
        Lifecycle(order, front, n);
      } else {
        assert front[..k] == changes[..k];
        Lifecycle(order, front, k);
      }
      if Changed(before, changes[n]).Success? {
        ChangeKeepsSound(before, changes[n]);
      }
    } else {
      assert changes[..k] == [];
    }
  }

  lemma CreatedIsSound(id: nat, symbol: string, side: Side, quantity: real, price: real, clientOrderId: string, now: real)
    ensures Create(id, symbol, side, quantity, price, clientOrderId, now).Success? ==>
              && Sound(Create(id, symbol, side, quantity, price, clientOrderId, now).value)
              && Create(id, symbol, side, quantity, price, clientOrderId, now).value.status == Pending
  {
    UpperIdempotent(symbol);
  }
}
