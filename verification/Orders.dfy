/** Orders: the immutable picture of an order (also a row of the orders table) and the
    mutable object the engine fills and cancels in place. */
module Orders {
  import opened Base

  type OrderId = nat
  type UserId = nat

  datatype Side = Buy | Sell

  datatype OrderType = Limit | Market

  datatype Status = Open | PartiallyFilled | Filled | Cancelled

  datatype OrderError = InvalidQuantity | FillExceedsRemaining

  /** One order as a value. `price` is None exactly when PriceCents is nil. */
  datatype OrderRow = OrderRow(
    id: OrderId, user: UserId, side: Side, typ: OrderType, price: Option<int>,
    quantity: int, filled: int, status: Status)
  {
    function Remaining(): int {
      quantity - filled
    }

    predicate Done() {
      status.Filled? || status.Cancelled?
    }

    /** Fields that no operation of the engine or the repository ever changes. */
    predicate SameTerms(that: OrderRow) {
      id == that.id && user == that.user && side == that.side && typ == that.typ
      && price == that.price && quantity == that.quantity
    }

    /** The terms the placement service lets through. */
    predicate ValidTerms() {
      quantity > 0 && (typ.Limit? <==> price.Some?) && (price.Some? ==> price.value > 0)
    }

    /** Filled quantity in range and status in step with it. */
    predicate Coherent() {
      0 <= filled <= quantity
      && (status.Open? ==> filled == 0 < quantity)
      && (status.PartiallyFilled? ==> 0 < filled < quantity)
      && (status.Filled? <==> filled == quantity)
    }

    predicate Valid() {
      ValidTerms() && Coherent()
    }

    predicate Live() {
      status.Open? || status.PartiallyFilled?
    }
  }

  /** The price in cents; a MARKET order has none and counts as zero. */
  function CentsOf(price: Option<int>): int {
    if price.Some? then price.value else 0
  }

  function FillError(r: OrderRow, qty: int): (err: Option<OrderError>)
    ensures err == None <==> 0 < qty <= r.quantity - r.filled
    ensures err.Some? ==> err.value == if qty <= 0 then InvalidQuantity else FillExceedsRemaining
  {
    if qty <= 0 then Some(InvalidQuantity)
    else if qty > r.Remaining() then Some(FillExceedsRemaining)
    else None
  }

  /** The order after `Fill(qty)`; a refused fill leaves it as it was. */
  function FillRow(r: OrderRow, qty: int): (f: OrderRow)
    ensures f.SameTerms(r)
    ensures 0 < qty <= r.Remaining() ==> f.Remaining() == r.Remaining() - qty
    ensures !(0 < qty <= r.Remaining()) ==> f == r
    ensures r.Valid() && !r.Done() ==> f.Valid() && (f.Done() <==> f.Remaining() == 0)
  {
    if FillError(r, qty).Some? then r
    else
      var filled := r.filled + qty;
      r.(filled := filled, status := if filled == r.quantity then Filled else PartiallyFilled)
  }

  /** The order after `Cancel()`. */
  function CancelRow(r: OrderRow): (c: OrderRow)
    ensures c.SameTerms(r) && c.filled == r.filled && c.Done()
    ensures r.Done() ==> c == r
    ensures r.Valid() ==> c.Valid()
  {
    if r.Done() then r else r.(status := Cancelled)
  }

  class Order {
    const id: OrderId
    const user: UserId
    const side: Side
    const typ: OrderType
    const price: Option<int>
    const quantity: int
    var filledQuantity: int
    var status: Status

    constructor (terms: OrderRow)
      ensures Row() == terms
    {
      id, user, side, typ := terms.id, terms.user, terms.side, terms.typ;
      price, quantity := terms.price, terms.quantity;
      filledQuantity, status := terms.filled, terms.status;
    }

    function Row(): (r: OrderRow)
      reads this
      ensures r.id == id && r.user == user && r.side == side && r.typ == typ
      ensures r.price == price && r.quantity == quantity
    {
      OrderRow(id, user, side, typ, price, quantity, filledQuantity, status)
    }

    function Remaining(): (n: int)
      reads this
      ensures n == Row().Remaining()
    {
      quantity - filledQuantity
    }

    function IsDone(): (b: bool)
      reads this
      ensures b == Row().Done()
    {
      status.Filled? || status.Cancelled?
    }

    method Fill(qty: int) returns (err: Option<OrderError>)
      modifies this
      ensures err == FillError(old(Row()), qty)
      ensures Row() == FillRow(old(Row()), qty)
    {
      if qty <= 0 {
        return Some(InvalidQuantity);
      }
      if qty > Remaining() {
        return Some(FillExceedsRemaining);
      }
      filledQuantity := filledQuantity + qty;
      if Remaining() == 0 {
        status := Filled;
      } else {
        status := PartiallyFilled;
      }
      return None;
    }

    method Cancel()
      modifies this
      ensures Row() == CancelRow(old(Row()))
    {
      if IsDone() {
        return;
      }
      status := Cancelled;
    }
  }
}
