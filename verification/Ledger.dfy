/** Reservations are exact: what a wallet has reserved is what its live orders still need. */
module Ledger {
  import opened Base
  import opened Orders
  import opened Wallets
  import opened PriorityBook
  import opened Matching
  import opened PriceTime
  import opened Settlement
  import opened Conservation

  /** BRL a BUY LIMIT order still needs. */
  function BrlNeed(r: OrderRow): int {
    if r.side.Buy? && r.typ.Limit? && r.price.Some? && r.Live() then r.price.value * r.Remaining() else 0
  }

  /** Vibranium a SELL order still needs. */
  function VibNeed(r: OrderRow): int {
    if r.side.Sell? && r.Live() then r.Remaining() else 0
  }

  ghost function BrlNeedOf(u: UserId): OrderRow -> int {
    (r: OrderRow) => if r.user == u then BrlNeed(r) else 0
  }

  ghost function VibNeedOf(u: UserId): OrderRow -> int {
    (r: OrderRow) => if r.user == u then VibNeed(r) else 0
  }

  /** Every user's reserved BRL and Vibranium are the sums of what that user's live orders,
      queued or resting, still need. */
  ghost predicate Exact(ws: WalletTable, orders: OrderTable) {
    forall u :: u in ws ==>
      && ws[u].reservedBrl == Total(orders, BrlNeedOf(u))
      && ws[u].reservedVib == Total(orders, VibNeedOf(u))
  }

  predicate RowsOk(ws: WalletTable, orders: OrderTable) {
    forall id :: id in orders ==> orders[id].id == id && orders[id].Valid() && orders[id].user in ws
  }

  ghost predicate Sound(ws: WalletTable, orders: OrderTable) {
    RowsOk(ws, orders) && AllNonNegative(ws) && Exact(ws, orders)
  }

  lemma Product(a: int, b: int)
    requires a >= 0 && b >= 0
    ensures a * b >= 0
  {
  }

  lemma ProductMono(a: int, b: int, c: int)
    requires a <= b && c >= 0
    ensures a * c <= b * c
  {
  }

  lemma NeedsNonNegative(r: OrderRow)
    requires r.Valid()
    ensures BrlNeed(r) >= 0 && VibNeed(r) >= 0
  {
    if r.price.Some? { Product(r.price.value, r.Remaining()); }
  }

  /** A live order's needs are covered by its owner's reservation. */
  lemma Covered(ws: WalletTable, orders: OrderTable, id: OrderId)
    requires Sound(ws, orders) && id in orders
    ensures ws[orders[id].user].reservedBrl >= BrlNeed(orders[id])
    ensures ws[orders[id].user].reservedVib >= VibNeed(orders[id])
  {
    var u := orders[id].user;
    forall j | j in orders ensures BrlNeedOf(u)(orders[j]) >= 0 && VibNeedOf(u)(orders[j]) >= 0 {
      NeedsNonNegative(orders[j]);
    }
    TotalBounds(orders, BrlNeedOf(u), id);
    TotalBounds(orders, VibNeedOf(u), id);
  }

  /** Replacing one row moves the owner's needs by the difference and nobody else's. */
  lemma RowChange(orders: OrderTable, r: OrderRow, u: UserId)
    requires r.id in orders && orders[r.id].user == r.user
    ensures Total(orders[r.id := r], BrlNeedOf(u)) ==
      Total(orders, BrlNeedOf(u)) + (if u == r.user then BrlNeed(r) - BrlNeed(orders[r.id]) else 0)
    ensures Total(orders[r.id := r], VibNeedOf(u)) ==
      Total(orders, VibNeedOf(u)) + (if u == r.user then VibNeed(r) - VibNeed(orders[r.id]) else 0)
  {
    TotalUpdate(orders, BrlNeedOf(u), r.id, r);
    TotalUpdate(orders, VibNeedOf(u), r.id, r);
  }

  /** A fill lowers the order's needs by exactly the filled part. */
  lemma FillNeeds(r: OrderRow, qty: int)
    requires LiveRow(r) && 0 < qty <= r.Remaining()
    ensures BrlNeed(FillRow(r, qty)) == BrlNeed(r) - (if r.side.Buy? && r.typ.Limit? then r.price.value * qty else 0)
    ensures VibNeed(FillRow(r, qty)) == VibNeed(r) - (if r.side.Sell? then qty else 0)
    ensures r.side.Sell? ==> VibNeed(r) >= qty
    ensures r.side.Buy? && r.typ.Limit? ==> BrlNeed(r) >= r.price.value * qty
  {
    if r.price.Some? {
      var p := r.price.value;
      assert p * (r.Remaining() - qty) == p * r.Remaining() - p * qty;
      Product(p, r.Remaining() - qty);
    }
  }

  // ---------- one trade ----------

  /** A trade of `taker` with `maker` at the maker's price, both live rows of the table. */
  predicate TradeReady(ws: WalletTable, orders: OrderTable, taker: OrderRow, maker: OrderRow, qty: int) {
    && taker.id in orders && orders[taker.id] == taker && maker.id in orders && orders[maker.id] == maker
    && LiveRow(taker) && LiveRow(maker) && maker.typ.Limit? && maker.side == Opposite(taker.side)
    && 0 < qty <= taker.Remaining() && qty <= maker.Remaining()
    && WithinLimit(taker, maker.price.value)
    && taker.user in ws && maker.user in ws
    && (IsBuyMarket(taker) ==> maker.price.value * qty <= ws[taker.user].brl)
  }

  function BuyerRow(taker: OrderRow, maker: OrderRow): OrderRow {
    if taker.side.Buy? then taker else maker
  }

  function SellerRow(taker: OrderRow, maker: OrderRow): OrderRow {
    if taker.side.Buy? then maker else taker
  }

  /** The payment goes through, and takes from the reservation exactly what the buyer's order
      no longer needs: limit price times quantity, with the improvement back in the balance. */
  lemma PayExactly(w: Balances, taker: OrderRow, maker: OrderRow, qty: int)
    requires LiveRow(taker) && LiveRow(maker) && maker.typ.Limit? && maker.side == Opposite(taker.side)
    requires 0 < qty && WithinLimit(taker, maker.price.value)
    requires IsBuyMarket(taker) ==> maker.price.value * qty <= w.brl
    requires
      var b := BuyerRow(taker, maker);
      b.typ.Limit? ==> w.reservedBrl >= b.price.value * qty
    ensures
      var t := TradeOf(taker, maker, maker.price.value, qty);
      var b := BuyerRow(taker, maker);
      && Pay(w, taker, t).Ok?
      && Pay(w, taker, t).w.reservedBrl == w.reservedBrl - (if b.typ.Limit? then b.price.value * qty else 0)
      && Pay(w, taker, t).w.reservedVib == w.reservedVib
      && (IsBuyMarket(taker) ==> Pay(w, taker, t).w.brl == w.brl - maker.price.value * qty)
  {
    var p := maker.price.value;
    if taker.side.Buy? && taker.typ.Limit? {
      var l := taker.price.value;
      assert (l - p) * qty == l * qty - p * qty;
      ProductMono(p, l, qty);
    }
  }

  function AfterFill(orders: OrderTable, taker: OrderRow, maker: OrderRow, qty: int): OrderTable {
    orders[maker.id := FillRow(maker, qty)][taker.id := FillRow(taker, qty)]
  }

  lemma {:induction false} AfterFillNeeds(orders: OrderTable, taker: OrderRow, maker: OrderRow, qty: int, u: UserId)
    requires taker.id in orders && orders[taker.id] == taker && maker.id in orders && orders[maker.id] == maker
    requires LiveRow(taker) && LiveRow(maker) && maker.typ.Limit? && maker.side == Opposite(taker.side)
    requires 0 < qty <= taker.Remaining() && qty <= maker.Remaining()
    ensures
      var b := BuyerRow(taker, maker);
      Total(AfterFill(orders, taker, maker, qty), BrlNeedOf(u)) == Total(orders, BrlNeedOf(u)) -
        (if u == b.user && b.typ.Limit? then b.price.value * qty else 0)
    ensures
      Total(AfterFill(orders, taker, maker, qty), VibNeedOf(u)) == Total(orders, VibNeedOf(u)) -
        (if u == SellerRow(taker, maker).user then qty else 0)
  {
    FillNeeds(taker, qty);
    FillNeeds(maker, qty);
    RowChange(orders, FillRow(maker, qty), u);
    RowChange(orders[maker.id := FillRow(maker, qty)], FillRow(taker, qty), u);
  }

  lemma AfterFillRows(ws: WalletTable, ws': WalletTable, orders: OrderTable, taker: OrderRow, maker: OrderRow, qty: int)
    requires RowsOk(ws, orders) && ws'.Keys == ws.Keys && TradeReady(ws, orders, taker, maker, qty)
    ensures RowsOk(ws', AfterFill(orders, taker, maker, qty))
  {
  }

  /** The seller's delivery goes through as well. */
  lemma TradeSettles(ws: WalletTable, orders: OrderTable, taker: OrderRow, maker: OrderRow, qty: int)
    requires Sound(ws, orders) && TradeReady(ws, orders, taker, maker, qty)
    ensures
      var t := TradeOf(taker, maker, maker.price.value, qty);
      var b, s := BuyerRow(taker, maker), SellerRow(taker, maker);
      && Settle(ws, taker, t).Some?
      && var ws' := Settle(ws, taker, t).value;
         && ws'.Keys == ws.Keys
         && (forall u :: u in ws ==>
              && ws'[u].reservedBrl ==
                ws[u].reservedBrl - (if u == b.user && b.typ.Limit? then b.price.value * qty else 0)
              && ws'[u].reservedVib == ws[u].reservedVib - (if u == s.user then qty else 0))
         && (IsBuyMarket(taker) ==> ws'[taker.user].brl >= ws[taker.user].brl - maker.price.value * qty)
  {
    hide Pay, FillRow;
    var b, s := BuyerRow(taker, maker), SellerRow(taker, maker);
    Covered(ws, orders, b.id);
    Covered(ws, orders, s.id);
    FillNeeds(b, qty);
    FillNeeds(s, qty);
    PayExactly(ws[b.user], taker, maker, qty);
    Product(maker.price.value, qty);
  }

  /** One trade: settlement succeeds and reservations are exact again once both rows show it. */
  lemma TradeKeepsSound(ws: WalletTable, orders: OrderTable, taker: OrderRow, maker: OrderRow, qty: int)
    requires Sound(ws, orders) && TradeReady(ws, orders, taker, maker, qty)
    ensures
      var t := TradeOf(taker, maker, maker.price.value, qty);
      && Settle(ws, taker, t).Some?
      && Sound(Settle(ws, taker, t).value, AfterFill(orders, taker, maker, qty))
      && (IsBuyMarket(taker) ==>
           Settle(ws, taker, t).value[taker.user].brl >= ws[taker.user].brl - maker.price.value * qty)
  {
    hide BrlNeed, VibNeed, Pay, Settle, FillRow, TradeOf, AfterFill, RowsOk, AllNonNegative;
    var t := TradeOf(taker, maker, maker.price.value, qty);
    TradeSettles(ws, orders, taker, maker, qty);
    SettleConserves(ws, taker, t);
    var ws' := Settle(ws, taker, t).value;
    AfterFillRows(ws, ws', orders, taker, maker, qty);
    forall u | u in ws'
      ensures ws'[u].reservedBrl == Total(AfterFill(orders, taker, maker, qty), BrlNeedOf(u))
      ensures ws'[u].reservedVib == Total(AfterFill(orders, taker, maker, qty), VibNeedOf(u))
    {
      AfterFillNeeds(orders, taker, maker, qty, u);
    }
  }

  /** A live order that ends in CANCELLED needs nothing any more; giving its reservation back
      keeps the ledger exact. */
  lemma ReleaseKeepsSound(ws: WalletTable, orders: OrderTable, r: OrderRow, w: Balances)
    requires Sound(ws, orders) && r.id in orders && orders[r.id] == r && LiveRow(r)
    requires w.NonNegative()
    requires w.reservedBrl == ws[r.user].reservedBrl - BrlNeed(r)
    requires w.reservedVib == ws[r.user].reservedVib - VibNeed(r)
    ensures Sound(ws[r.user := w], orders[r.id := CancelRow(r)])
  {
    var orders' := orders[r.id := CancelRow(r)];
    forall u | u in ws
      ensures ws[r.user := w][u].reservedBrl == Total(orders', BrlNeedOf(u))
      ensures ws[r.user := w][u].reservedVib == Total(orders', VibNeedOf(u))
    {
      RowChange(orders, CancelRow(r), u);
    }
  }

  /** Cancelling a live LIMIT order: its reservation covers the refund, the refund succeeds, and the
      ledger is exact again. */
  lemma RefundKeepsSound(ws: WalletTable, orders: OrderTable, r: OrderRow)
    requires Sound(ws, orders) && r.id in orders && orders[r.id] == r && LiveRow(r) && r.typ.Limit?
    ensures r.price.Some? && r.user in ws && Refund(ws[r.user], r).Ok?
    ensures Sound(ws[r.user := Refund(ws[r.user], r).w], orders[r.id := CancelRow(r)])
  {
    Covered(ws, orders, r.id);
    Product(r.price.value, r.Remaining());
    ProductMono(1, r.price.value, r.Remaining());
    ReleaseKeepsSound(ws, orders, r, Refund(ws[r.user], r).w);
  }

  /** Cancelling what is left of a MARKET order: a SELL's reservation covers the release, a BUY needs
      none, and the ledger is exact again. */
  lemma RemainderKeepsSound(ws: WalletTable, orders: OrderTable, r: OrderRow)
    requires Sound(ws, orders) && r.id in orders && orders[r.id] == r && LiveRow(r) && r.typ.Market?
    ensures ReleaseRemainder(ws, r, r.Remaining()).Some?
    ensures Sound(ReleaseRemainder(ws, r, r.Remaining()).value, orders[r.id := CancelRow(r)])
  {
    Covered(ws, orders, r.id);
    ReleaseKeepsSound(ws, orders, r, if r.side.Sell? then ReleaseVib(ws[r.user], r.Remaining()).w else ws[r.user]);
    assert ws[r.user := ws[r.user]] == ws;
  }
}
