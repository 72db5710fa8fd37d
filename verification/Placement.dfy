/** Placing and cancelling orders at the API: validation, reservation, and the rows written. */
module Placement {
  import opened Base
  import opened Orders
  import opened Wallets
  import opened Settlement
  import opened Conservation
  import opened Ledger

  /** A side or type string that is neither of the known two arrives as None. */
  datatype PlaceInput = PlaceInput(
    user: UserId, side: Option<Side>, typ: Option<OrderType>, price: Option<int>, quantity: int)

  datatype PlaceError =
    | UserNotFound | WalletNotFound | InsufficientBalance | InvalidQuantity | InvalidOrderRequest

  function Validate(i: PlaceInput): Option<PlaceError> {
    if i.quantity <= 0 then Some(PlaceError.InvalidQuantity)
    else if i.side == Some(Buy) && i.typ == Some(Limit) then
      if i.price.None? || i.price.value <= 0 then Some(InvalidOrderRequest)
      else if i.price.value > MAX_INT64 / i.quantity then Some(InvalidOrderRequest)
      else None
    else if i.side == Some(Sell) && i.typ == Some(Limit) then
      if i.price.None? || i.price.value <= 0 then Some(InvalidOrderRequest) else None
    else if i.side.Some? && i.typ == Some(Market) then
      if i.price.Some? then Some(InvalidOrderRequest) else None
    else Some(InvalidOrderRequest)
  }

  function Placed(i: PlaceInput, id: OrderId): OrderRow
    requires i.side.Some? && i.typ.Some?
  {
    OrderRow(id, i.user, i.side.value, i.typ.value, i.price, i.quantity, 0, Open)
  }

  /** Accepted requests are exactly the orders with valid terms whose BUY LIMIT cost fits an
      int64. The division in the check loses nothing. */
  lemma ValidateAccepts(i: PlaceInput, id: OrderId)
    ensures Validate(i).None? <==>
      && i.side.Some? && i.typ.Some? && Placed(i, id).ValidTerms()
      && (i.side == Some(Buy) && i.typ == Some(Limit) ==> i.price.value * i.quantity <= MAX_INT64)
  {
    if i.quantity > 0 && i.price.Some? && i.price.value > 0 {
      FloorBound(i.price.value, i.quantity, MAX_INT64);
    }
    assert i.side.Some? ==> i.side.value.Buy? || i.side.value.Sell?;
    assert i.typ.Some? ==> i.typ.value.Limit? || i.typ.value.Market?;
  }

  lemma FloorBound(p: int, q: int, max: int)
    requires p > 0 && q > 0 && max > 0
    ensures p <= max / q <==> p * q <= max
  {
    var d := max / q;
    assert d * q <= max < (d + 1) * q;
    if p <= d {
      ProductMono(p, d, q);
    } else {
      ProductMono(d + 1, p, q);
    }
  }

  function Reserve(w: Balances, r: OrderRow): WalletResult
    requires r.typ.Limit? ==> r.price.Some?
  {
    if r.side.Buy? && r.typ.Limit? then ReserveBrl(w, r.price.value * r.quantity)
    else if r.side.Sell? then ReserveVib(w, r.quantity)
    else Ok(w)
  }

  /** What a placement does to the tables; None when it is refused and nothing changes. */
  function Place(t: Tables, users: set<UserId>, i: PlaceInput, id: OrderId): (Option<Tables>, Option<PlaceError>) {
    if Validate(i).Some? then (None, Validate(i))
    else if i.user !in users then (None, Some(UserNotFound))
    else if i.user !in t.wallets then (None, Some(WalletNotFound))
    else
      var r := Placed(i, id);
      match Reserve(t.wallets[i.user], r)
      case Err(_) => (None, Some(InsufficientBalance))
      case Ok(w) => (Some(t.(wallets := t.wallets[i.user := w], orders := t.orders[id := r])), None)
  }

  /** A request that can be an order: a positive quantity, a price exactly if it is a LIMIT order, then positive,
      and a BUY LIMIT cost that fits an int64. */
  predicate Requestable(i: PlaceInput) {
    && i.quantity > 0 && i.side.Some? && i.typ.Some?
    && (i.typ == Some(Limit) ==> i.price.Some? && i.price.value > 0)
    && (i.typ == Some(Market) ==> i.price == None)
    && (i.typ == Some(Limit) && i.side == Some(Buy) ==> i.price.value * i.quantity <= MAX_INT64)
  }

  /** What is free covers the request: the cost of a BUY LIMIT, the quantity of a SELL. */
  predicate Affords(w: Balances, i: PlaceInput)
    requires Requestable(i)
  {
    && (i.side == Some(Buy) && i.typ == Some(Limit) ==> i.price.value * i.quantity <= w.brl - w.reservedBrl)
    && (i.side == Some(Sell) ==> i.quantity <= w.vib - w.reservedVib)
  }

  /** The reply to a request, by the first of the conditions that does not hold. */
  lemma PlaceReply(t: Tables, users: set<UserId>, i: PlaceInput, id: OrderId)
    ensures Place(t, users, i, id).1 == Some(PlaceError.InvalidQuantity) <==> i.quantity <= 0
    ensures Place(t, users, i, id).1 == Some(InvalidOrderRequest) <==> i.quantity > 0 && !Requestable(i)
    ensures Place(t, users, i, id).1 == Some(UserNotFound) <==> Requestable(i) && i.user !in users
    ensures Place(t, users, i, id).1 == Some(WalletNotFound) <==>
      Requestable(i) && i.user in users && i.user !in t.wallets
    ensures Place(t, users, i, id).1 == Some(InsufficientBalance) <==>
      Requestable(i) && i.user in users && i.user in t.wallets && !Affords(t.wallets[i.user], i)
    ensures Place(t, users, i, id).0.Some? <==>
      Requestable(i) && i.user in users && i.user in t.wallets && Affords(t.wallets[i.user], i)
    ensures Place(t, users, i, id).1 == None <==> Place(t, users, i, id).0.Some?
  {
    hide Reserve;
    RequestableIff(i);
    if Requestable(i) && i.user in t.wallets {
      ReserveOutcome(t.wallets[i.user], i, id);
    }
  }

  lemma RequestableIff(i: PlaceInput)
    ensures Validate(i).None? <==> Requestable(i)
    ensures Validate(i) == Some(PlaceError.InvalidQuantity) <==> i.quantity <= 0
    ensures Validate(i).Some? ==> Validate(i).value.InvalidQuantity? || Validate(i).value.InvalidOrderRequest?
  {
    ValidateAccepts(i, 0);
  }

  /** What a request takes: a BUY LIMIT moves its cost from the BRL balance to the reservation, a SELL its
      quantity from the Vibranium balance, and a BUY MARKET takes nothing. */
  predicate Takes(i: PlaceInput, w: Balances, w': Balances)
    requires Requestable(i)
  {
    var brl := if i.side == Some(Buy) && i.typ == Some(Limit) then i.price.value * i.quantity else 0;
    var vib := if i.side == Some(Sell) then i.quantity else 0;
    && w'.brl == w.brl - brl && w'.reservedBrl == w.reservedBrl + brl
    && w'.vib == w.vib - vib && w'.reservedVib == w.reservedVib + vib
  }

  lemma ReserveOutcome(w: Balances, i: PlaceInput, id: OrderId)
    requires Requestable(i)
    ensures Reserve(w, Placed(i, id)).Ok? <==> Affords(w, i)
    ensures Reserve(w, Placed(i, id)).Ok? ==> Takes(i, w, Reserve(w, Placed(i, id)).w)
  {
    if i.side == Some(Buy) && i.typ == Some(Limit) {
      assert i.price.value * i.quantity > 0;
    }
  }

  /** The row of a request: its user, side, type, price and quantity, nothing filled, OPEN. */
  predicate RowAsked(i: PlaceInput, id: OrderId, r: OrderRow) {
    && r.id == id && r.user == i.user && i.side == Some(r.side) && i.typ == Some(r.typ)
    && r.price == i.price && r.quantity == i.quantity && r.filled == 0 && r.status.Open?
  }

  /** The event of a request says the same. */
  predicate EventAsked(i: PlaceInput, id: OrderId, e: Event) {
    && e.NewOrder? && e.id == id && e.user == i.user && i.side == Some(e.side) && i.typ == Some(e.typ)
    && e.price == i.price && e.quantity == i.quantity
  }

  /** An accepted placement adds the row of the request and takes what the request takes from its user's wallet.
      The event carries the same order. Nothing else changes. */
  lemma PlaceOutcome(t: Tables, users: set<UserId>, i: PlaceInput, id: OrderId)
    requires Place(t, users, i, id).0.Some?
    ensures Requestable(i) && i.user in t.wallets
    ensures
      var t' := Place(t, users, i, id).0.value;
      && id in t'.orders && RowAsked(i, id, t'.orders[id]) && EventAsked(i, id, PlacedEvent(t'.orders[id]))
      && i.user in t'.wallets && Takes(i, t.wallets[i.user], t'.wallets[i.user])
      && t' == t.(orders := t.orders[id := t'.orders[id]], wallets := t.wallets[i.user := t'.wallets[i.user]])
  {
    hide Reserve, Takes;
    PlaceReply(t, users, i, id);
    ReserveOutcome(t.wallets[i.user], i, id);
  }

  /** The NEW_ORDER event of a placed order; the matcher rebuilds the same order from it. */
  function PlacedEvent(r: OrderRow): (e: Event)
    ensures e.NewOrder? && (r.filled == 0 && r.status.Open? ==> Arriving(e) == r)
  {
    NewOrder(r.id, r.user, r.side, r.typ, r.price, r.quantity)
  }

  lemma PlaceConserves(t: Tables, users: set<UserId>, i: PlaceInput, id: OrderId)
    requires Place(t, users, i, id).0.Some?
    ensures Conserves(t.wallets, Place(t, users, i, id).0.value.wallets)
  {
    OneWallet(t.wallets, i.user, Reserve(t.wallets[i.user], Placed(i, id)).w);
  }

  lemma ReserveIsExact(w: Balances, r: OrderRow)
    requires r.ValidTerms() && r.filled == 0 && r.status.Open? && Reserve(w, r).Ok?
    ensures Reserve(w, r).w.reservedBrl == w.reservedBrl + BrlNeed(r)
    ensures Reserve(w, r).w.reservedVib == w.reservedVib + VibNeed(r)
    ensures w.NonNegative() ==> Reserve(w, r).w.NonNegative()
  {
    assert r.Remaining() == r.quantity;
  }

  /** A placement reserves exactly what the new order needs. */
  lemma PlaceKeepsSound(t: Tables, users: set<UserId>, i: PlaceInput, id: OrderId)
    requires Sound(t.wallets, t.orders) && id !in t.orders && Place(t, users, i, id).0.Some?
    ensures
      var t' := Place(t, users, i, id).0.value;
      Sound(t'.wallets, t'.orders)
  {
    hide Reserve, BrlNeed, VibNeed, Validate, RowsOk, AllNonNegative;
    ValidateAccepts(i, id);
    var r := Placed(i, id);
    var t' := Place(t, users, i, id).0.value;
    ReserveIsExact(t.wallets[i.user], r);
    NewRowOk(t, r, t'.wallets[i.user]);
    forall u | u in t'.wallets
      ensures t'.wallets[u].reservedBrl == Total(t'.orders, BrlNeedOf(u))
      ensures t'.wallets[u].reservedVib == Total(t'.orders, VibNeedOf(u))
    {
      TotalUpdate(t.orders, BrlNeedOf(u), id, r);
      TotalUpdate(t.orders, VibNeedOf(u), id, r);
    }
  }

  lemma NewRowOk(t: Tables, r: OrderRow, w: Balances)
    requires RowsOk(t.wallets, t.orders) && AllNonNegative(t.wallets)
    requires r.user in t.wallets && r.Valid() && (t.wallets[r.user].NonNegative() ==> w.NonNegative())
    ensures RowsOk(t.wallets[r.user := w], t.orders[r.id := r]) && AllNonNegative(t.wallets[r.user := w])
  {
  }

  // ---------- cancel requests ----------

  datatype CancelReply =
    | OrderNotFound
    | Forbidden
    | AlreadyTerminal(status: Status)
    | CancelQueued

  /** Ownership first, then the terminal check; only a live order is queued for cancelling. */
  function CancelRequest(orders: OrderTable, id: OrderId, requester: UserId): CancelReply {
    if id !in orders then OrderNotFound
    else if orders[id].user != requester then Forbidden
    else if orders[id].Done() then AlreadyTerminal(orders[id].status)
    else CancelQueued
  }

  /** Nobody but the owner gets a cancel queued, and only for a live order; the reply says why not. */
  lemma CancelReplyIff(orders: OrderTable, id: OrderId, requester: UserId)
    ensures CancelRequest(orders, id, requester) == OrderNotFound <==> id !in orders
    ensures CancelRequest(orders, id, requester) == Forbidden <==> id in orders && orders[id].user != requester
    ensures CancelRequest(orders, id, requester).AlreadyTerminal? <==>
      id in orders && orders[id].user == requester && (orders[id].status.Filled? || orders[id].status.Cancelled?)
    ensures CancelRequest(orders, id, requester).AlreadyTerminal? ==>
      CancelRequest(orders, id, requester).status == orders[id].status
    ensures CancelRequest(orders, id, requester) == CancelQueued <==>
      id in orders && orders[id].user == requester && (orders[id].status.Open? || orders[id].status.PartiallyFilled?)
  {
  }
}
