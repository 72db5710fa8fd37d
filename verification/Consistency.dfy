/** What the tables and the book agree on between entries, and why applying a NEW_ORDER or
    CANCEL_ORDER entry to agreeing tables and book succeeds and keeps the agreement. */
module Consistency {
  import opened Base
  import opened Orders
  import opened PriorityBook
  import opened Matching
  import opened PriceTime
  import opened BookContents
  import opened Settlement
  import opened Conservation
  import opened Ledger

  // ---------- the agreement ----------

  /** What should rest on the book under this id: the row, if its NEW_ORDER has been applied
      and it is a live LIMIT order. */
  function Resting(orders: OrderTable, entered: set<OrderId>, id: OrderId): Option<OrderRow> {
    if id in orders && id in entered && orders[id].typ.Limit? && orders[id].Live()
    then Some(orders[id]) else None
  }

  ghost predicate View(b: Book, orders: OrderTable, entered: set<OrderId>) {
    forall id :: Lookup(b, id) == Resting(orders, entered, id)
  }

  predicate Concerns(t: Trade, r: OrderRow) {
    if r.side.Buy? then t.buyOrder == r.id else t.sellOrder == r.id
  }

  /** The quantity the trade history attributes to an order. */
  function Executed(ts: seq<Trade>, r: OrderRow): int {
    if ts == [] then 0
    else Executed(ts[..|ts| - 1], r) + (if Concerns(ts[|ts| - 1], r) then ts[|ts| - 1].quantity else 0)
  }

  predicate FillsMatchTrades(orders: OrderTable, ts: seq<Trade>) {
    forall id :: id in orders ==> orders[id].filled == Executed(ts, orders[id])
  }

  /** An order not yet seen by the matcher is as it was placed; a MARKET order that has been
      seen is finished. */
  predicate Lifecycle(orders: OrderTable, entered: set<OrderId>) {
    && entered <= orders.Keys
    && (forall id :: id in orders && id !in entered ==> orders[id].status.Open?)
    && (forall id :: id in entered && orders[id].typ.Market? ==> orders[id].Done())
  }

  /** The part of the agreement that concerns the tables alone. */
  ghost predicate TablesOk(t: Tables) {
    && Sound(t.wallets, t.orders)
    && FillsMatchTrades(t.orders, t.trades)
    && Lifecycle(t.orders, t.entered)
    && OrdersExist(t.orders, t.trades)
  }

  ghost predicate BookAgrees(t: Tables, b: Book) {
    Healthy(b) && Uncrossed(b) && View(b, t.orders, t.entered)
  }

  ghost predicate Consistent(t: Tables, b: Book) {
    TablesOk(t) && BookAgrees(t, b)
  }

  /** The NEW_ORDER event is the first for its order, whose row was written at placement. */
  predicate FirstArrival(t: Tables, e: Event) {
    e.NewOrder? && e.id in t.orders && e.id !in t.entered && t.orders[e.id] == Arriving(e)
  }

  // ---------- trade history ----------

  lemma {:induction false} ExecutedConcat(ts: seq<Trade>, us: seq<Trade>, r: OrderRow)
    ensures Executed(ts + us, r) == Executed(ts, r) + Executed(us, r)
    decreases |us|
  {
    if us == [] {
      assert ts + us == ts;
    } else {
      ExecutedConcat(ts, us[..|us| - 1], r);
      assert (ts + us)[..|ts + us| - 1] == ts + us[..|us| - 1];
    }
  }

  lemma {:induction false} ExecutedSnoc(ts: seq<Trade>, t: Trade, r: OrderRow)
    ensures Executed(ts + [t], r) == Executed(ts, r) + if Concerns(t, r) then t.quantity else 0
  {
    assert (ts + [t])[..|ts|] == ts;
  }

  lemma {:induction false} ExecutedSameTerms(ts: seq<Trade>, r: OrderRow, r': OrderRow)
    requires r.SameTerms(r')
    ensures Executed(ts, r) == Executed(ts, r')
  {
    if ts != [] { ExecutedSameTerms(ts[..|ts| - 1], r, r'); }
  }

  // ---------- during the matching loop ----------

  /** The orders table as it will read once the makers touched so far and the taker are written. */
  function Projected(orders: OrderTable, s: State): OrderTable {
    UpdateOrders(orders, s.makers)[s.incoming.id := s.incoming]
  }

  predicate SameRows(orders: OrderTable, orders': OrderTable) {
    orders'.Keys == orders.Keys && forall id :: id in orders ==> orders'[id].SameTerms(orders[id])
  }

  /** All trades so far settle, leaving wallets `ws` that are exact for the projected rows. */
  ghost predicate LoopMoney(t: Tables, o: OrderRow, s: State, ws: WalletTable, orders: OrderTable)
    requires o.typ.Limit? ==> o.price.Some?
  {
    && SettleAll(t.wallets, o, s.trades) == Some(ws) && ws.Keys == t.wallets.Keys
    && Sound(ws, orders)
    && IsBuyMarket(o) == s.funds.Some?
    && (IsBuyMarket(o) ==> o.user in ws && s.funds.value <= ws[o.user].brl)
  }

  /** The projected rows have the table's terms and agree with the trade history. */
  ghost predicate LoopRows(t: Tables, s: State, orders: OrderTable) {
    && orders == Projected(t.orders, s) && SameRows(t.orders, orders)
    && OrdersExist(t.orders, s.trades)
    && FillsMatchTrades(orders, t.trades + s.trades)
  }

  ghost predicate InLoop(t: Tables, o: OrderRow, s: State, ws: WalletTable, orders: OrderTable)
    requires o.typ.Limit? ==> o.price.Some?
  {
    && o.id !in t.entered && s.incoming.SameTerms(o)
    && LoopMoney(t, o, s, ws, orders)
    && LoopRows(t, s, orders)
    && View(s.book, orders, t.entered)
    && Untouched(t, o.id, orders)
  }

  /** Rows that are finished, or whose NEW_ORDER is still to come, are left alone. */
  predicate Untouched(t: Tables, taker: OrderId, orders: OrderTable) {
    forall id :: id in t.orders && id != taker && (id !in t.entered || t.orders[id].Done()) ==>
      id in orders && orders[id] == t.orders[id]
  }

  lemma {:induction false} UpdateOrdersSameRows(orders: OrderTable, es: seq<Entry>)
    ensures SameRows(orders, UpdateOrders(orders, es))
  {
    if es != [] { UpdateOrdersSameRows(orders, es[..|es| - 1]); }
  }

  /** One more maker and the taker written on top of what is already projected. */
  lemma ProjectTrade(orders: OrderTable, s: State, s': State, maker: OrderRow, maker': OrderRow, token: nat)
    requires s'.makers == s.makers + [Entry(token, maker')] && s'.incoming.SameTerms(s.incoming)
    requires maker'.SameTerms(maker) && maker.id != s.incoming.id
    requires maker.id in Projected(orders, s) && Projected(orders, s)[maker.id] == maker
    ensures Projected(orders, s') == Projected(orders, s)[maker.id := maker'][s'.incoming.id := s'.incoming]
  {
    UpdateOrdersSnoc(orders, s.makers, Entry(token, maker'));
    var before := UpdateOrders(orders, s.makers);
    assert before[maker.id] == maker;
    assert before[maker.id].(filled := maker'.filled, status := maker'.status) == maker';
  }

  lemma FillsAfterTrade(orders: OrderTable, ts: seq<Trade>, taker: OrderRow, maker: OrderRow, price: int, qty: int)
    requires FillsMatchTrades(orders, ts)
    requires forall id :: id in orders ==> orders[id].id == id
    requires taker.id in orders && orders[taker.id] == taker && maker.id in orders && orders[maker.id] == maker
    requires maker.side == Opposite(taker.side) && 0 < qty <= taker.Remaining() && qty <= maker.Remaining()
    ensures FillsMatchTrades(AfterFill(orders, taker, maker, qty), ts + [TradeOf(taker, maker, price, qty)])
  {
    var orders' := AfterFill(orders, taker, maker, qty);
    var t := TradeOf(taker, maker, price, qty);
    forall id | id in orders' ensures orders'[id].filled == Executed(ts + [t], orders'[id]) {
      ExecutedSameTerms(ts, orders[id], orders'[id]);
      ExecutedSnoc(ts, t, orders'[id]);
    }
  }

  lemma ViewAfterTrade(s: State, orders: OrderTable, entered: set<OrderId>, qty: int)
    requires Healthy(s.book) && s.Opp() != [] && View(s.book, orders, entered)
    requires 0 < qty <= s.Opp()[0].row.Remaining()
    requires s.incoming.id !in entered
    ensures View(Execute(s, qty).book, AfterFill(orders, s.incoming, s.Opp()[0].row, qty), entered)
  {
    hide Execute, WellFormed, Unique;
    var m := s.Opp()[0].row;
    EntryIsLookup(s.book, Opposite(s.incoming.side), 0);
    assert LiveRow(s.book.Queue(Opposite(s.incoming.side))[0].row);
    assert Lookup(s.book, m.id) == Resting(orders, entered, m.id);
    forall id
      ensures Lookup(Execute(s, qty).book, id) == Resting(AfterFill(orders, s.incoming, m, qty), entered, id)
    {
      ExecuteContents(s, qty, id);
      assert Lookup(s.book, id) == Resting(orders, entered, id);
    }
  }

  /** The front maker and the taker are rows the ledger lemma applies to. */
  lemma TradeIsReady(t: Tables, o: OrderRow, s: State, ws: WalletTable, orders: OrderTable, qty: int)
    requires o.typ.Limit? ==> o.price.Some?
    requires InLoop(t, o, s, ws, orders) && Healthy(s.book) && GoodTrade(s, qty)
    ensures TradeReady(ws, orders, s.incoming, s.Opp()[0].row, qty)
    ensures s.Opp()[0].row.id != o.id && s.Opp()[0].row.id in t.entered
  {
    var m := s.Opp()[0].row;
    EntryIsLookup(s.book, Opposite(s.incoming.side), 0);
    assert Lookup(s.book, m.id) == Resting(orders, t.entered, m.id);
    assert orders[s.incoming.id] == s.incoming;
    if IsBuyMarket(o) {
      assert qty * m.price.value == m.price.value * qty;
    }
  }

  /** One more trade settles too, and leaves the reservations exact. */
  lemma TradeMoney(t: Tables, o: OrderRow, s: State, ws: WalletTable, orders: OrderTable, qty: int)
    requires (o.typ.Limit? ==> o.price.Some?) && s.incoming.SameTerms(o) && s.Opp() != []
    requires LoopMoney(t, o, s, ws, orders) && TradeReady(ws, orders, s.incoming, s.Opp()[0].row, qty)
    ensures
      var m := s.Opp()[0].row;
      var paid := Settle(ws, s.incoming, TradeOf(s.incoming, m, m.price.value, qty));
      paid.Some? && LoopMoney(t, o, Execute(s, qty), paid.value, AfterFill(orders, s.incoming, m, qty))
  {
    hide WellFormed, Sound, Settle, AfterFill;
    var m := s.Opp()[0].row;
    var tr := TradeOf(s.incoming, m, m.price.value, qty);
    TradeKeepsSound(ws, orders, s.incoming, m, qty);
    SettleConserves(ws, s.incoming, tr);
    SettleSameTerms(ws, s.incoming, o, tr);
    SettleAllSnoc(t.wallets, o, s.trades, tr);
    assert qty * m.price.value == m.price.value * qty;
  }

  /** What a trade with the front maker does to the taker, the trades and the makers. */
  lemma TradeParts(s: State, qty: int)
    requires s.incoming.typ.Limit? ==> s.incoming.price.Some?
    requires GoodTrade(s, qty)
    ensures
      var m := s.Opp()[0];
      && Execute(s, qty).incoming == FillRow(s.incoming, qty)
      && Execute(s, qty).trades == s.trades + [TradeOf(s.incoming, m.row, m.Price(), qty)]
      && Execute(s, qty).makers == s.makers + [Entry(m.token, FillRow(m.row, qty))]
      && m.row.price == Some(m.Price()) && m.row.side == Opposite(s.incoming.side)
      && 0 < qty <= s.incoming.Remaining() && qty <= m.row.Remaining()
  {
  }

  lemma FilledRowsSame(base: OrderTable, orders: OrderTable, taker: OrderRow, maker: OrderRow, qty: int)
    requires SameRows(base, orders) && taker.id in orders && orders[taker.id] == taker && maker.id in orders
      && orders[maker.id] == maker
    ensures SameRows(base, AfterFill(orders, taker, maker, qty))
  {
  }

  lemma OneMoreExists(orders: OrderTable, ts: seq<Trade>, taker: OrderRow, maker: OrderRow, price: int, qty: int)
    requires OrdersExist(orders, ts) && taker.id in orders && maker.id in orders
    ensures OrdersExist(orders, ts + [TradeOf(taker, maker, price, qty)])
  {
    var us := ts + [TradeOf(taker, maker, price, qty)];
    assert forall i :: 0 <= i < |us| ==> us[i] == if i < |ts| then ts[i] else TradeOf(taker, maker, price, qty);
  }

  /** One more trade shows in the projected rows and in the history alike. */
  lemma TradeRows(t: Tables, s: State, ws: WalletTable, orders: OrderTable, qty: int)
    requires s.incoming.typ.Limit? ==> s.incoming.price.Some?
    requires LoopRows(t, s, orders) && GoodTrade(s, qty)
    requires RowsOk(ws, orders) && TradeReady(ws, orders, s.incoming, s.Opp()[0].row, qty)
    ensures LoopRows(t, Execute(s, qty), AfterFill(orders, s.incoming, s.Opp()[0].row, qty))
  {
    hide Execute, FillRow, FillsMatchTrades, Projected, OrdersExist, TradeOf, LiveRow, WithinLimit, RestsOn;
    var m := s.Opp()[0];
    var s' := Execute(s, qty);
    var tr := TradeOf(s.incoming, m.row, m.Price(), qty);
    TradeParts(s, qty);
    ProjectTrade(t.orders, s, s', m.row, FillRow(m.row, qty), m.token);
    assert (t.trades + s.trades) + [tr] == t.trades + s'.trades;
    FilledRowsSame(t.orders, orders, s.incoming, m.row, qty);
    OneMoreExists(t.orders, s.trades, s.incoming, m.row, m.Price(), qty);
    FillsAfterTrade(orders, t.trades + s.trades, s.incoming, m.row, m.Price(), qty);
  }

  lemma TradeInLoop(t: Tables, o: OrderRow, s: State, ws: WalletTable, orders: OrderTable, qty: int)
    requires o.typ.Limit? ==> o.price.Some?
    requires InLoop(t, o, s, ws, orders) && Healthy(s.book) && GoodTrade(s, qty)
    ensures
      var m := s.Opp()[0].row;
      var paid := Settle(ws, s.incoming, TradeOf(s.incoming, m, m.price.value, qty));
      paid.Some? && InLoop(t, o, Execute(s, qty), paid.value, AfterFill(orders, s.incoming, m, qty))
  {
    TradeIsReady(t, o, s, ws, orders, qty);
    TradeMoney(t, o, s, ws, orders, qty);
    TradeRows(t, s, ws, orders, qty);
    ViewAfterTrade(s, orders, t.entered, qty);
    TradeLeavesAlone(t, orders, s.incoming, s.Opp()[0].row, qty);
  }

  lemma TradeLeavesAlone(t: Tables, orders: OrderTable, taker: OrderRow, maker: OrderRow, qty: int)
    requires Untouched(t, taker.id, orders)
    requires maker.id in t.entered && maker.id in orders && orders[maker.id] == maker && maker.Live()
    ensures Untouched(t, taker.id, AfterFill(orders, taker, maker, qty))
  {
  }

  /** Settlement looks at the taker's terms only. */
  lemma SettleSameTerms(ws: WalletTable, r: OrderRow, o: OrderRow, t: Trade)
    requires r.SameTerms(o) && (o.typ.Limit? ==> o.price.Some?)
    ensures Settle(ws, r, t) == Settle(ws, o, t)
  {
  }

  lemma {:induction false} LoopInLoop(t: Tables, o: OrderRow, s0: State, s: State, ws: WalletTable, orders: OrderTable)
    returns (ws': WalletTable, orders': OrderTable)
    requires o.typ.Limit? ==> o.price.Some?
    requires Startable(s0) && Progress(s0, s) && InLoop(t, o, s, ws, orders)
    ensures InLoop(t, o, Loop(s), ws', orders')
    decreases s.incoming.Remaining(), Debt(s)
  {
    if Step(s).None? {
      return ws, orders;
    }
    StepRunnable(s);
    StepDecreases(s);
    StepProgress(s0, s);
    var qty := NextTrade(s0, s);
    TradeInLoop(t, o, s, ws, orders, qty);
    var m := s.Opp()[0];
    ws' := Settle(ws, s.incoming, TradeOf(s.incoming, m.row, m.row.price.value, qty)).value;
    orders' := AfterFill(orders, s.incoming, m.row, qty);
    ws', orders' := LoopInLoop(t, o, s0, Step(s).value, ws', orders');
  }

  // ---------- a NEW_ORDER entry ----------

  function StartOf(t: Tables, b: Book, o: OrderRow): State
    requires IsBuyMarket(o) ==> o.user in t.wallets
  {
    Start(b, o, FundsOf(t.wallets, o))
  }

  /** The taker's funds are at or below minus the best ask: the one case that fails. */
  predicate PoisonedArrival(t: Tables, b: Book, e: Event)
    requires e.NewOrder?
  {
    && e.side.Buy? && e.typ.Market? && e.quantity > 0 && e.user in t.wallets && b.asks != []
    && t.wallets[e.user].brl - t.wallets[e.user].reservedBrl <= -b.asks[0].Price()
  }

  lemma ArrivalStarts(t: Tables, b: Book, e: Event)
    requires Consistent(t, b) && FirstArrival(t, e) && !PoisonedArrival(t, b, e)
    ensures
      var o := Arriving(e);
      && o.user in t.wallets && o.id !in b.locations && ValidEvent(e) && LiveRow(o)
      && Startable(StartOf(t, b, o))
      && InLoop(t, o, StartOf(t, b, o), t.wallets, t.orders)
  {
    var o := Arriving(e);
    assert t.orders[e.id] == o && o.Valid();
    assert Lookup(b, o.id) == Resting(t.orders, t.entered, o.id) == None;
    if o.id in b.locations { LookupFinds(b, o.id); }
    var s0 := StartOf(t, b, o);
    assert Projected(t.orders, s0) == t.orders;
    assert t.trades + s0.trades == t.trades;
    assert t.wallets[o.user].NonNegative();
  }

  /** The row written for the taker at the end. */
  lemma FinalRow(t: Tables, s: State, orders: OrderTable, r: OrderRow)
    requires LoopRows(t, s, orders) && r.SameTerms(s.incoming) && s.incoming.id in t.orders
    requires s.incoming.SameTerms(t.orders[s.incoming.id])
    ensures UpdateOrder(UpdateOrders(t.orders, s.makers), r) == orders[r.id := r]
  {
    var written := UpdateOrders(t.orders, s.makers);
    UpdateOrdersSameRows(t.orders, s.makers);
    assert written[r.id].SameTerms(r);
    assert written[r.id].(filled := r.filled, status := r.status) == r;
  }

  /** Changing only the status of a row leaves the trade accounts alone. */
  lemma FillsAfterCancel(orders: OrderTable, ts: seq<Trade>, r: OrderRow)
    requires FillsMatchTrades(orders, ts) && r.id in orders && orders[r.id] == r
    ensures FillsMatchTrades(orders[r.id := CancelRow(r)], ts)
  {
    ExecutedSameTerms(ts, r, CancelRow(r));
  }

  /** The taker's state when the loop is left. */
  predicate TakerDone(s: State) {
    s.incoming.Valid() && (s.incoming.Done() <==> s.incoming.Remaining() == 0)
  }

  /** The money side of finishing. */
  lemma FinishMoney(t: Tables, o: OrderRow, s: State, ws: WalletTable, orders: OrderTable)
    requires Runnable(s) && (o.typ.Limit? ==> o.price.Some?) && s.incoming.SameTerms(o) && TakerDone(s)
    requires LoopMoney(t, o, s, ws, orders) && o.id in orders && orders[o.id] == s.incoming
    ensures
      var m := Finish(s);
      var released := ReleaseRemainder(ws, o, m.cancelledQuantity);
      && released.Some? && released.value.Keys == ws.Keys
      && Sound(released.value, orders[o.id := m.state.incoming])
  {
    var r := s.incoming;
    var m := Finish(s);
    if r.Remaining() > 0 && r.typ.Market? {
      RemainderKeepsSound(ws, orders, r);
      assert ReleaseRemainder(ws, o, r.Remaining()) == ReleaseRemainder(ws, r, r.Remaining());
    } else {
      assert orders[o.id := r] == orders;
    }
  }

  /** The book side of finishing: the taker rests exactly when its row says so. */
  lemma FinishView(o: OrderRow, s: State, orders: OrderTable, entered: set<OrderId>)
    requires Runnable(s) && TakerDone(s) && s.incoming.SameTerms(o) && o.id !in entered
    requires View(s.book, orders, entered) && o.id in orders && orders[o.id] == s.incoming
    ensures
      var m := Finish(s);
      View(m.state.book, orders[o.id := m.state.incoming], entered + {o.id})
  {
    var m := Finish(s);
    forall id
      ensures Lookup(m.state.book, id) == Resting(orders[o.id := m.state.incoming], entered + {o.id}, id)
    {
      assert Lookup(s.book, id) == Resting(orders, entered, id);
      if m.rested {
        AddRestingContents(s.book, s.incoming, id);
      }
    }
  }

  lemma FinishLifecycle(t: Tables, o: OrderRow, s: State, orders: OrderTable)
    requires Runnable(s) && TakerDone(s) && s.incoming.SameTerms(o)
    requires Lifecycle(t.orders, t.entered) && SameRows(t.orders, orders) && Untouched(t, o.id, orders)
    requires o.id in t.orders && orders[o.id] == s.incoming
    ensures Lifecycle(orders[o.id := Finish(s).state.incoming], t.entered + {o.id})
  {
  }

  lemma FinishFills(t: Tables, s: State, orders: OrderTable)
    requires Runnable(s) && LoopRows(t, s, orders) && s.incoming.id in orders && orders[s.incoming.id] == s.incoming
    ensures FillsMatchTrades(orders[s.incoming.id := Finish(s).state.incoming], t.trades + s.trades)
  {
    if Finish(s).state.incoming == s.incoming {
      assert orders[s.incoming.id := s.incoming] == orders;
    } else {
      FillsAfterCancel(orders, t.trades + s.trades, s.incoming);
    }
  }

  /** The orders table once the makers and the finished taker are written. */
  function FinalOrders(t: Tables, s: State): OrderTable
    requires Runnable(s)
  {
    UpdateOrder(UpdateOrders(t.orders, s.makers), Finish(s).state.incoming)
  }

  predicate Finishing(t: Tables, o: OrderRow, s: State) {
    && Runnable(s) && (o.typ.Limit? ==> o.price.Some?) && TakerDone(s) && s.incoming.SameTerms(o)
    && o.id in t.orders && t.orders[o.id].SameTerms(o)
  }

  lemma FinalOrdersAre(t: Tables, o: OrderRow, s: State, orders: OrderTable)
    requires Finishing(t, o, s) && LoopRows(t, s, orders)
    ensures FinalOrders(t, s) == orders[o.id := Finish(s).state.incoming] && orders[o.id] == s.incoming
  {
    FinalRow(t, s, orders, Finish(s).state.incoming);
  }

  ghost predicate FinalTablesOk(t: Tables, o: OrderRow, s: State, ws: WalletTable)
    requires Runnable(s)
  {
    var orders := FinalOrders(t, s);
    && ReleaseRemainder(ws, o, Finish(s).cancelledQuantity).Some?
    && Sound(ReleaseRemainder(ws, o, Finish(s).cancelledQuantity).value, orders)
    && FillsMatchTrades(orders, t.trades + s.trades)
    && Lifecycle(orders, t.entered + {o.id})
    && View(Finish(s).state.book, orders, t.entered + {o.id})
  }

  /** Everything about the tables after finishing. */
  lemma FinishTables(t: Tables, o: OrderRow, s: State, ws: WalletTable, orders: OrderTable)
    requires Finishing(t, o, s) && Lifecycle(t.orders, t.entered) && InLoop(t, o, s, ws, orders)
    ensures FinalTablesOk(t, o, s, ws)
  {
    FinalOrdersAre(t, o, s, orders);
    FinishMoney(t, o, s, ws, orders);
    FinishView(o, s, orders, t.entered);
    FinishLifecycle(t, o, s, orders);
    FinishFills(t, s, orders);
  }

  lemma FinishLeavesAlone(t: Tables, o: OrderRow, s: State, ws: WalletTable, orders: OrderTable)
    requires Finishing(t, o, s) && InLoop(t, o, s, ws, orders)
    ensures Untouched(t, o.id, FinalOrders(t, s)) && FinalOrders(t, s).Keys == t.orders.Keys
  {
    FinalOrdersAre(t, o, s, orders);
  }

  /** The loop's end state for a first, unpoisoned arrival settles, and is ready to finish. */
  lemma ArrivalLoop(t: Tables, b: Book, e: Event) returns (s: State, ws: WalletTable, orders: OrderTable)
    requires Consistent(t, b) && FirstArrival(t, e) && !PoisonedArrival(t, b, e)
    ensures ValidEvent(e) && Arriving(e).user in t.wallets && Runnable(StartOf(t, b, Arriving(e)))
    ensures s == Loop(StartOf(t, b, Arriving(e))) && Finishing(t, Arriving(e), s)
    ensures InLoop(t, Arriving(e), s, ws, orders)
  {
    var o := Arriving(e);
    ArrivalStarts(t, b, e);
    var s0 := StartOf(t, b, o);
    StartProgress(s0);
    LoopProgress(s0, s0);
    ws, orders := LoopInLoop(t, o, s0, s0, t.wallets, t.orders);
    s := Loop(s0);
  }

  function FinalTables(t: Tables, o: OrderRow, s: State, ws: WalletTable): Tables
    requires Runnable(s) && ReleaseRemainder(ws, o, Finish(s).cancelledQuantity).Some?
  {
    t.(wallets := ReleaseRemainder(ws, o, Finish(s).cancelledQuantity).value,
       orders := FinalOrders(t, s), trades := t.trades + s.trades, entered := t.entered + {o.id})
  }

  lemma ApplyNewIs(t: Tables, b: Book, e: Event, s: State, ws: WalletTable)
    requires WellFormed(b) && e.NewOrder? && ValidEvent(e) && Arriving(e).user in t.wallets
    requires Runnable(StartOf(t, b, Arriving(e))) && s == Loop(StartOf(t, b, Arriving(e))) && Runnable(s)
    requires SettleAll(t.wallets, Arriving(e), s.trades) == Some(ws) && OrdersExist(t.orders, s.trades)
    requires ReleaseRemainder(ws, Arriving(e), Finish(s).cancelledQuantity).Some?
    ensures ApplyNew(t, b, e) == Applied(FinalTables(t, Arriving(e), s, ws), Finish(s).state.book)
  {
  }

  lemma FinalTablesSound(t: Tables, o: OrderRow, s: State, ws: WalletTable)
    requires Runnable(s) && FinalTablesOk(t, o, s, ws)
    requires OrdersExist(t.orders, t.trades) && OrdersExist(t.orders, s.trades)
    requires FinalOrders(t, s).Keys == t.orders.Keys
    ensures TablesOk(FinalTables(t, o, s, ws))
  {
    hide Sound, FillsMatchTrades, FinalOrders, Finish, ReleaseRemainder, OrdersExist;
    AllExist(t.orders, FinalOrders(t, s), t.trades, s.trades);
  }

  lemma AllExist(orders: OrderTable, orders': OrderTable, ts: seq<Trade>, us: seq<Trade>)
    requires OrdersExist(orders, ts) && OrdersExist(orders, us) && orders'.Keys == orders.Keys
    ensures OrdersExist(orders', ts + us)
  {
    assert forall i :: 0 <= i < |ts + us| ==> (ts + us)[i] == if i < |ts| then ts[i] else us[i - |ts|];
  }

  /** A first NEW_ORDER that is not poisoned is applied, and afterwards the tables and the book
      agree again: reservations exact, fills equal to trades, book equal to the live rows. */
  lemma NewKeepsConsistent(t: Tables, b: Book, e: Event)
    requires Consistent(t, b) && FirstArrival(t, e) && !PoisonedArrival(t, b, e)
    ensures ValidEvent(e)
    ensures ApplyNew(t, b, e).Applied?
    ensures TablesOk(ApplyNew(t, b, e).tables) && BookAgrees(ApplyNew(t, b, e).tables, ApplyNew(t, b, e).book)
    ensures Untouched(t, e.id, ApplyNew(t, b, e).tables.orders)
  {
    var o := Arriving(e);
    var s, ws, orders := ArrivalLoop(t, b, e);
    FinishTables(t, o, s, ws, orders);
    FinishLeavesAlone(t, o, s, ws, orders);
    ApplyNewIs(t, b, e, s, ws);
    FinalTablesSound(t, o, s, ws);
    ArrivalBook(t, b, e);
  }

  lemma ArrivalBook(t: Tables, b: Book, e: Event)
    requires Consistent(t, b) && FirstArrival(t, e) && !PoisonedArrival(t, b, e)
    ensures Arriving(e).user in t.wallets && Runnable(StartOf(t, b, Arriving(e)))
    ensures Healthy(Match(b, Arriving(e), FundsOf(t.wallets, Arriving(e))).state.book)
    ensures Uncrossed(Match(b, Arriving(e), FundsOf(t.wallets, Arriving(e))).state.book)
  {
    ArrivalStarts(t, b, e);
    MatchKeepsBook(b, Arriving(e), FundsOf(t.wallets, Arriving(e)));
  }
}
