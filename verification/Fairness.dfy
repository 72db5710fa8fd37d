/** What every recorded trade is, and what all of them together do to a user's balances, in every run. */
module Fairness {
  import opened Base
  import opened Orders
  import opened Wallets
  import opened PriorityBook
  import opened Matching
  import opened PriceTime
  import opened Settlement
  import opened Conservation
  import opened Consistency
  import opened Entries
  import opened Terms
  import opened Placement
  import opened Exchange
  import opened Safety

  // ---------- one trade ----------

  /** Between a BUY order of the buyer and a SELL order of the seller, not above the limit of the first, not
      below the limit of the second, and at the limit of one of them. */
  predicate Agreed(orders: OrderTable, t: Trade) {
    && t.buyOrder in orders && t.sellOrder in orders
    && var b, s := orders[t.buyOrder], orders[t.sellOrder];
    && b.side.Buy? && b.user == t.buyer && s.side.Sell? && s.user == t.seller
    && (b.typ.Limit? ==> b.price.Some? && t.price <= b.price.value)
    && (s.typ.Limit? ==> s.price.Some? && t.price >= s.price.value)
    && (b.price == Some(t.price) || s.price == Some(t.price))
  }

  predicate AllAgreed(orders: OrderTable, ts: seq<Trade>) {
    forall i :: 0 <= i < |ts| ==> Agreed(orders, ts[i])
  }

  predicate AllPositive(ts: seq<Trade>) {
    forall i :: 0 <= i < |ts| ==> ts[i].quantity > 0 && ts[i].price > 0
  }

  lemma SameRowsAgree(orders: OrderTable, orders': OrderTable, ts: seq<Trade>)
    requires SameRows(orders, orders') && AllAgreed(orders, ts)
    ensures AllAgreed(orders', ts)
  {
    forall i | 0 <= i < |ts| ensures Agreed(orders', ts[i]) {
      assert Agreed(orders, ts[i]);
    }
  }

  /** Even on a book that has lost touch with the tables. */
  lemma StepAgreed(orders: OrderTable, s: State)
    requires Runnable(s) && Step(s).Some? && BookKnown(orders, s.book) && RowKnown(orders, s.incoming)
    requires AllAgreed(orders, s.trades)
    ensures AllAgreed(orders, Step(s).value.trades)
  {
    var m := s.Opp()[0];
    assert RestsOn(Opposite(s.incoming.side), m.row) && RowKnown(orders, m.row);
    var qty := Quantity(s.incoming, m.row, s.funds, m.Price());
    assert Agreed(orders, TradeOf(s.incoming, m.row, m.Price(), qty));
  }

  lemma {:induction false} LoopAgreed(orders: OrderTable, s: State)
    requires Runnable(s) && BookKnown(orders, s.book) && QueueKnown(orders, s.makers) && RowKnown(orders, s.incoming)
    requires AllAgreed(orders, s.trades)
    ensures AllAgreed(orders, Loop(s).trades)
    decreases s.incoming.Remaining(), Debt(s)
  {
    hide BookKnown, AllAgreed, Execute;
    if Step(s).Some? {
      StepRunnable(s);
      StepDecreases(s);
      StepAgreed(orders, s);
      ExecuteKnown(orders, s, Quantity(s.incoming, s.Opp()[0].row, s.funds, s.Opp()[0].Price()));
      LoopAgreed(orders, Step(s).value);
    }
  }

  /** In prices: whatever the book, a LIMIT taker never trades beyond its limit. */
  lemma {:induction false} NeverBeyondTheLimit(s: State, i: nat)
    requires Runnable(s) && s.trades == [] && s.incoming.typ.Limit? && i < |Loop(s).trades|
    ensures s.incoming.side.Buy? ==> Loop(s).trades[i].price <= s.incoming.price.value
    ensures s.incoming.side.Sell? ==> Loop(s).trades[i].price >= s.incoming.price.value
  {
    LoopWithinLimit(s, s, i);
  }

  lemma {:induction false} LoopWithinLimit(s0: State, s: State, i: nat)
    requires Runnable(s) && s.incoming.SameTerms(s0.incoming) && i < |Loop(s).trades|
    requires forall j :: 0 <= j < |s.trades| ==> WithinLimit(s0.incoming, s.trades[j].price)
    ensures WithinLimit(s0.incoming, Loop(s).trades[i].price)
    decreases s.incoming.Remaining(), Debt(s)
  {
    if Step(s).Some? {
      StepRunnable(s);
      StepDecreases(s);
      LoopWithinLimit(s0, Step(s).value, i);
    }
  }

  // ---------- a user's account ----------

  /** What the trades bring a user in BRL, and what they cost. */
  function BrlFrom(ts: seq<Trade>, u: UserId): int {
    if ts == [] then 0
    else
      var t := ts[|ts| - 1];
      BrlFrom(ts[..|ts| - 1], u) + (if t.seller == u then t.price * t.quantity else 0)
        - (if t.buyer == u then t.price * t.quantity else 0)
  }

  /** What they bring in Vibranium. */
  function VibFrom(ts: seq<Trade>, u: UserId): int {
    if ts == [] then 0
    else
      var t := ts[|ts| - 1];
      VibFrom(ts[..|ts| - 1], u) + (if t.buyer == u then t.quantity else 0)
        - (if t.seller == u then t.quantity else 0)
  }

  lemma {:induction false} FromConcat(ts: seq<Trade>, us: seq<Trade>, u: UserId)
    ensures BrlFrom(ts + us, u) == BrlFrom(ts, u) + BrlFrom(us, u)
    ensures VibFrom(ts + us, u) == VibFrom(ts, u) + VibFrom(us, u)
    decreases |us|
  {
    if us == [] {
      assert ts + us == ts;
    } else {
      var pre := us[..|us| - 1];
      FromConcat(ts, pre, u);
      assert (ts + us)[..|ts + us| - 1] == ts + pre;
    }
  }

  /** These wallets are the others after the trades, with everything reserved or not counted in. */
  predicate MovedBy(ws: WalletTable, ws': WalletTable, ts: seq<Trade>) {
    ws'.Keys == ws.Keys && forall u :: u in ws ==>
      && ws'[u].brl + ws'[u].reservedBrl == ws[u].brl + ws[u].reservedBrl + BrlFrom(ts, u)
      && ws'[u].vib + ws'[u].reservedVib == ws[u].vib + ws[u].reservedVib + VibFrom(ts, u)
  }

  lemma {:induction false} NothingMoved(ws: WalletTable)
    ensures MovedBy(ws, ws, [])
  {
  }

  lemma MovedFurther(ws: WalletTable, mid: WalletTable, ws': WalletTable, ts: seq<Trade>, us: seq<Trade>)
    requires MovedBy(ws, mid, ts) && MovedBy(mid, ws', us)
    ensures MovedBy(ws, ws', ts + us)
  {
    forall u | u in ws
      ensures BrlFrom(ts + us, u) == BrlFrom(ts, u) + BrlFrom(us, u)
      ensures VibFrom(ts + us, u) == VibFrom(ts, u) + VibFrom(us, u)
    {
      FromConcat(ts, us, u);
    }
  }

  /** A change within one wallet. */
  lemma {:induction false} OneMoves(ws: WalletTable, u: UserId, w: Balances)
    requires u in ws && w.AllBrl() == ws[u].AllBrl() && w.AllVib() == ws[u].AllVib()
    ensures MovedBy(ws, ws[u := w], [])
  {
    NothingMoved(ws);
  }

  lemma FromOne(t: Trade, u: UserId)
    ensures
      BrlFrom([t], u) ==
      (if t.seller == u then t.price * t.quantity else 0) - (if t.buyer == u then t.price * t.quantity else 0)
    ensures VibFrom([t], u) == (if t.buyer == u then t.quantity else 0) - (if t.seller == u then t.quantity else 0)
  {
    assert [t][..0] == [] && BrlFrom([], u) == 0 == VibFrom([], u);
  }

  lemma {:induction false} SettleMoves(ws: WalletTable, o: OrderRow, t: Trade)
    requires (o.typ.Limit? ==> o.price.Some?) && Settle(ws, o, t).Some?
    ensures MovedBy(ws, Settle(ws, o, t).value, [t])
  {
    hide BrlFrom, VibFrom;
    PayMoves(ws[t.buyer], o, t);
    var ws' := Settle(ws, o, t).value;
    forall u | u in ws
      ensures ws'[u].AllBrl() == ws[u].AllBrl() + BrlFrom([t], u) && ws'[u].AllVib() == ws[u].AllVib() + VibFrom([t], u)
    {
      FromOne(t, u);
    }
  }

  lemma {:induction false} SettleAllMoves(ws: WalletTable, o: OrderRow, ts: seq<Trade>)
    requires (o.typ.Limit? ==> o.price.Some?) && SettleAll(ws, o, ts).Some?
    ensures MovedBy(ws, SettleAll(ws, o, ts).value, ts)
    decreases |ts|
  {
    hide Settle, MovedBy;
    if ts == [] {
      NothingMoved(ws);
    } else {
      var n := |ts| - 1;
      var mid := SettleAll(ws, o, ts[..n]).value;
      SettleAllMoves(ws, o, ts[..n]);
      SettleMoves(mid, o, ts[n]);
      MovedFurther(ws, mid, SettleAll(ws, o, ts).value, ts[..n], [ts[n]]);
      assert ts[..n] + [ts[n]] == ts;
    }
  }

  // ---------- an entry ----------

  /** The tables have had trades added to them, each agreed between its orders, and the wallets are those
      before after these trades. */
  predicate Traded(t: Tables, t': Tables) {
    && |t.trades| <= |t'.trades| && t'.trades[..|t.trades|] == t.trades
    && var ts := t'.trades[|t.trades|..];
       AllPositive(ts) && AllAgreed(t.orders, ts) && MovedBy(t.wallets, t'.wallets, ts)
  }

  lemma TradedBy(t: Tables, t': Tables, ts: seq<Trade>)
    requires t'.trades == t.trades + ts && AllPositive(ts) && AllAgreed(t.orders, ts)
    requires MovedBy(t.wallets, t'.wallets, ts)
    ensures Traded(t, t')
  {
    assert t'.trades[|t.trades|..] == ts;
  }

  lemma TradedFurther(t: Tables, mid: Tables, t': Tables)
    requires Traded(t, mid) && Traded(mid, t') && SameRows(t.orders, mid.orders)
    ensures Traded(t, t')
  {
    hide MovedBy, AllAgreed, SameRows;
    var ts, us := mid.trades[|t.trades|..], t'.trades[|mid.trades|..];
    assert t'.trades == t.trades + (ts + us);
    MovedFurther(t.wallets, mid.wallets, t'.wallets, ts, us);
    SameRowsBack(t.orders, mid.orders, us);
    BothAgreed(t.orders, ts, us);
    TradedBy(t, t', ts + us);
  }

  lemma BothAgreed(orders: OrderTable, ts: seq<Trade>, us: seq<Trade>)
    requires AllAgreed(orders, ts) && AllAgreed(orders, us)
    ensures AllAgreed(orders, ts + us)
  {
  }

  lemma SameRowsBack(orders: OrderTable, orders': OrderTable, ts: seq<Trade>)
    requires SameRows(orders, orders') && AllAgreed(orders', ts)
    ensures AllAgreed(orders, ts)
  {
    SameRowsAgree(orders', orders, ts);
  }

  lemma NothingTraded(t: Tables, t': Tables)
    requires t'.trades == t.trades && MovedBy(t.wallets, t'.wallets, [])
    ensures Traded(t, t')
  {
    assert t'.trades == t.trades + [];
    TradedBy(t, t', []);
  }

  lemma NewTraded(t: Tables, b: Book, e: Event)
    requires WellFormed(b) && BookKnown(t.orders, b) && e.NewOrder? && ValidEvent(e) && RowKnown(t.orders, Arriving(e))
    requires ApplyNew(t, b, e).Applied?
    ensures Traded(t, ApplyNew(t, b, e).tables)
  {
    hide BookKnown, RowKnown, AllAgreed, MovedBy, WellFormed;
    var o := Arriving(e);
    var s0 := Start(b, o, FundsOf(t.wallets, o));
    var m := Match(b, o, FundsOf(t.wallets, o));
    var ts := m.state.trades;
    LoopRunnable(s0);
    NoneAgreed(t.orders, s0);
    LoopAgreed(t.orders, s0);
    var ws := SettleAll(t.wallets, o, ts).value;
    forall i | 0 <= i < |ts| ensures ts[i].quantity > 0 && ts[i].price > 0 {
      SettledArePositive(t.wallets, o, ts, i);
    }
    SettleAllMoves(t.wallets, o, ts);
    ReleaseMoves(ws, o, m.cancelledQuantity);
    var ws' := ReleaseRemainder(ws, o, m.cancelledQuantity).value;
    MovedFurther(t.wallets, ws, ws', ts, []);
    assert ts + [] == ts;
    TradedBy(t, ApplyNew(t, b, e).tables, ts);
  }

  lemma NoneAgreed(orders: OrderTable, s: State)
    requires s.trades == [] && s.makers == []
    ensures AllAgreed(orders, s.trades) && QueueKnown(orders, s.makers)
  {
  }

  lemma ReleaseMoves(ws: WalletTable, o: OrderRow, cancelled: int)
    requires ReleaseRemainder(ws, o, cancelled).Some?
    ensures MovedBy(ws, ReleaseRemainder(ws, o, cancelled).value, [])
  {
    if cancelled > 0 && o.side.Sell? {
      OneMoves(ws, o.user, ReleaseVib(ws[o.user], cancelled).w);
    } else {
      NothingMoved(ws);
    }
  }

  lemma CancelTraded(t: Tables, b: Book, id: OrderId)
    requires WellFormed(b) && ApplyCancel(t, b, id).Applied?
    ensures Traded(t, ApplyCancel(t, b, id).tables)
  {
    hide MovedBy;
    NothingMoved(t.wallets);
    if id in b.locations {
      LookupFinds(b, id);
      var r := Lookup(b, id).value;
      OneMoves(t.wallets, r.user, Refund(t.wallets[r.user], r).w);
    }
    NothingTraded(t, ApplyCancel(t, b, id).tables);
  }

  lemma EntryTraded(t: Tables, b: Book, m: Message)
    requires WellFormed(b) && BookKnown(t.orders, b) && EventKnown(t.orders, m.event) && ValidEvent(m.event)
    requires ApplyEntry(t, b, m).Applied?
    ensures Traded(t, ApplyEntry(t, b, m).tables)
  {
    hide BookKnown, WellFormed, ApplyNew, ApplyCancel, MovedBy;
    NothingMoved(t.wallets);
    if m.entry in t.processed {
      NothingTraded(t, t);
    } else {
      match m.event
      case NewOrder(_, _, _, _, _, _) => NewTraded(Mark(t, m.entry), b, m.event);
      case CancelOrder(id) => CancelTraded(Mark(t, m.entry), b, id);
      case Skipped => NothingTraded(t, Mark(t, m.entry));
    }
  }

  lemma {:induction false} BatchTraded(t: Tables, b: Book, ms: seq<Message>)
    requires WellFormed(b) && BookKnown(t.orders, b) && RowsInRange(t.orders) && MessagesKnown(t.orders, ms)
      && ValidMessages(ms)
    requires ApplyBatch(t, b, ms).Applied?
    ensures Traded(t, ApplyBatch(t, b, ms).tables)
    decreases |ms|
  {
    hide BookKnown, WellFormed, ApplyEntry, Traded, EventKnown, SameRows, RowsInRange, MovedBy;
    if ms == [] {
      NothingMoved(t.wallets);
      NothingTraded(t, t);
    } else {
      var n := |ms| - 1;
      var r := ApplyBatch(t, b, ms[..n]);
      BatchTraded(t, b, ms[..n]);
      BatchKept(t, b, ms[..n]);
      SameRowsKnown(t.orders, r.tables.orders, r.book);
      SameRowsEvent(t.orders, r.tables.orders, ms[n].event);
      EntryTraded(r.tables, r.book, ms[n]);
      TradedFurther(t, r.tables, ApplyEntry(r.tables, r.book, ms[n]).tables);
    }
  }

  // ---------- whole runs ----------

  predicate TradesFair(s0: System, s: System) {
    AllPositive(s.tables.trades) && AllAgreed(s.tables.orders, s.tables.trades)
      && MovedBy(s0.tables.wallets, s.tables.wallets, s.tables.trades)
  }

  lemma TradedStaysFair(s0: System, t: Tables, t': Tables)
    requires AllPositive(t.trades) && AllAgreed(t.orders, t.trades) && MovedBy(s0.tables.wallets, t.wallets, t.trades)
    requires Traded(t, t') && SameRows(t.orders, t'.orders)
    ensures AllPositive(t'.trades) && AllAgreed(t'.orders, t'.trades)
      && MovedBy(s0.tables.wallets, t'.wallets, t'.trades)
  {
    hide AllAgreed, MovedBy, SameRows;
    var ts := t'.trades[|t.trades|..];
    assert t'.trades == t.trades + ts;
    BothAgreed(t.orders, t.trades, ts);
    SameRowsAgree(t.orders, t'.orders, t'.trades);
    MovedFurther(s0.tables.wallets, t.wallets, t'.wallets, t.trades, ts);
  }

  lemma CommitFair(s0: System, s: System, batch: seq<nat>)
    requires Shape(s) && TradesFair(s0, s) && CanApply(s, batch)
    requires ApplyBatch(s.tables, s.book, Messages(s, batch)).Applied?
    ensures TradesFair(s0, s.(tables := ApplyBatch(s.tables, s.book, Messages(s, batch)).tables))
  {
    hide AllAgreed, MovedBy, Traded, BookKnown, WellFormed, ApplyBatch, RowsInRange, SameRows, EventKnown;
    MessagesAreKnown(s, batch);
    BatchTraded(s.tables, s.book, Messages(s, batch));
    BatchKept(s.tables, s.book, Messages(s, batch));
    TradedStaysFair(s0, s.tables, ApplyBatch(s.tables, s.book, Messages(s, batch)).tables);
  }

  lemma PlaceFair(s0: System, s: System, input: PlaceInput, id: OrderId)
    requires TradesFair(s0, s) && id !in s.tables.orders && Place(s.tables, s.users, input, id).0.Some?
    ensures TradesFair(s0, s.(tables := Place(s.tables, s.users, input, id).0.value))
  {
    var t, t' := s.tables, Place(s.tables, s.users, input, id).0.value;
    assert t'.trades == t.trades;
    forall i | 0 <= i < |t.trades| ensures Agreed(t'.orders, t.trades[i]) {
      assert Agreed(t.orders, t.trades[i]);
    }
    OneMoves(t.wallets, input.user, t'.wallets[input.user]);
    MovedFurther(s0.tables.wallets, t.wallets, t'.wallets, t.trades, []);
    assert t.trades + [] == t.trades;
  }

  lemma {:induction false} StepFair(s0: System, s: System, step: Action)
    requires Shape(s) && TradesFair(s0, s) && Enabled(s, step)
    ensures TradesFair(s0, Next(s, step))
  {
    hide TradesFair, Shape, ApplyBatch, Place, WellFormed;
    match step
    case PlaceOrder(input, id, _) =>
      if Place(s.tables, s.users, input, id).0.Some? {
        PlaceFair(s0, s, input, id);
        SameTablesFair(s0, s.(tables := Place(s.tables, s.users, input, id).0.value), Next(s, step));
      }
    case Commit(batch) =>
      CommitFair(s0, s, batch);
      SameTablesFair(s0, s.(tables := ApplyBatch(s.tables, s.book, Messages(s, batch)).tables), Next(s, step));
    case CommitReplyLost(batch) =>
      CommitFair(s0, s, batch);
      SameTablesFair(s0, s.(tables := ApplyBatch(s.tables, s.book, Messages(s, batch)).tables), Next(s, step));
    case _ => SameTablesFair(s0, s, Next(s, step));
  }

  lemma SameTablesFair(s0: System, s: System, s': System)
    requires TradesFair(s0, s) && s'.tables == s.tables
    ensures TradesFair(s0, s')
  {
  }

  lemma {:induction false} RunIsFair(s0: System, steps: seq<Action>)
    requires Initial(s0) && After(s0, steps).Some?
    ensures TradesFair(s0, After(s0, steps).value)
    decreases |steps|
  {
    hide MovedBy, Shape, Next, Enabled;
    if steps == [] {
      NothingMoved(s0.tables.wallets);
    } else {
      var n := |steps| - 1;
      RunIsFair(s0, steps[..n]);
      EveryRunIsSafe(s0, steps[..n]);
      StepFair(s0, After(s0, steps[..n]).value, steps[n]);
    }
  }

  /** In every run each recorded trade is for a positive quantity and price, between a BUY order of its buyer
      and a SELL order of its seller, within the limits of both and at the limit of one of them. */
  lemma {:induction false} EveryTradeIsFair(s0: System, steps: seq<Action>, i: nat)
    requires Initial(s0) && After(s0, steps).Some? && i < |After(s0, steps).value.tables.trades|
    ensures
      var orders := After(s0, steps).value.tables.orders;
      var t := After(s0, steps).value.tables.trades[i];
      && t.quantity > 0 && t.price > 0 && t.buyOrder in orders && t.sellOrder in orders
      && var b, s := orders[t.buyOrder], orders[t.sellOrder];
      && b.side.Buy? && b.user == t.buyer && s.side.Sell? && s.user == t.seller
      && (b.typ.Limit? ==> b.price.Some? && t.price <= b.price.value)
      && (s.typ.Limit? ==> s.price.Some? && t.price >= s.price.value)
      && (b.price == Some(t.price) || s.price == Some(t.price))
  {
    RunIsFair(s0, steps);
    assert Agreed(After(s0, steps).value.tables.orders, After(s0, steps).value.tables.trades[i]);
  }

  /** In every run what a user holds, reserved or not, is what the user began with, changed by the user's
      recorded purchases and sales and by nothing else. */
  lemma {:induction false} HoldingsAreTrades(s0: System, steps: seq<Action>, u: UserId)
    requires Initial(s0) && After(s0, steps).Some? && u in s0.tables.wallets
    ensures
      var t := After(s0, steps).value.tables;
      var w0 := s0.tables.wallets[u];
      && u in t.wallets
      && t.wallets[u].brl + t.wallets[u].reservedBrl == w0.brl + BrlFrom(t.trades, u)
      && t.wallets[u].vib + t.wallets[u].reservedVib == w0.vib + VibFrom(t.trades, u)
  {
    RunIsFair(s0, steps);
  }
}
