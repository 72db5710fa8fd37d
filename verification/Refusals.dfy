/** Exactly when a stream entry is refused, on whatever book a run has come to: a NEW_ORDER when it is a poisoned
    BUY MARKET or its trades take more from somebody than is reserved, a cancel when its refund is not
    covered. */
module Refusals {
  import opened Base
  import opened Orders
  import opened Wallets
  import opened PriorityBook
  import opened Matching
  import opened PriceTime
  import opened BookContents
  import opened Settlement
  import opened Conservation
  import opened Ledger
  import opened Consistency
  import opened Entries
  import opened Terms
  import opened Exchange
  import opened Safety

  // ---------- what trades take out of reservations ----------

  /** The units a user sells. */
  function Sold(ts: seq<Trade>, u: UserId): int {
    if ts == [] then 0 else Sold(ts[..|ts| - 1], u) + if ts[|ts| - 1].seller == u then ts[|ts| - 1].quantity else 0
  }

  /** The money a trade takes out of the buyer's reservation: at the limit of an incoming BUY LIMIT, whose
      improvement is given back, and at the price of the trade for a resting one. */
  function OwedFor(o: OrderRow, t: Trade): int
    requires o.typ.Limit? ==> o.price.Some?
  {
    (if o.side.Buy? && o.typ.Limit? then o.price.value else t.price) * t.quantity
  }

  function Owed(o: OrderRow, ts: seq<Trade>, u: UserId): int
    requires o.typ.Limit? ==> o.price.Some?
  {
    if ts == [] then 0 else Owed(o, ts[..|ts| - 1], u) + if ts[|ts| - 1].buyer == u then OwedFor(o, ts[|ts| - 1]) else 0
  }

  /** A trade as the engine makes it for anything but a poisoned taker. */
  predicate Proper(o: OrderRow, t: Trade)
    requires o.typ.Limit? ==> o.price.Some?
  {
    && t.price > 0 && t.quantity > 0
    && (o.side.Buy? && o.typ.Limit? ==> t.price <= o.price.value)
    && (IsBuyMarket(o) ==> t.buyer == o.user)
  }

  predicate AllProper(ws: WalletTable, o: OrderRow, ts: seq<Trade>)
    requires o.typ.Limit? ==> o.price.Some?
  {
    forall i :: 0 <= i < |ts| ==> Proper(o, ts[i]) && ts[i].buyer in ws && ts[i].seller in ws
  }

  lemma PayOkIff(w: Balances, o: OrderRow, t: Trade)
    requires (o.typ.Limit? ==> o.price.Some?) && Proper(o, t)
    ensures Pay(w, o, t).Ok? <==>
      if IsBuyMarket(o) then t.price * t.quantity <= w.brl else OwedFor(o, t) <= w.reservedBrl
    ensures Pay(w, o, t).Ok? ==>
      var w' := Pay(w, o, t).w;
      && w'.reservedVib == w.reservedVib
      && w'.reservedBrl == w.reservedBrl - (if IsBuyMarket(o) then 0 else OwedFor(o, t))
      && (IsBuyMarket(o) ==> w'.brl == w.brl - t.price * t.quantity)
  {
    if o.side.Buy? && o.typ.Limit? {
      var l := o.price.value;
      assert (l - t.price) * t.quantity == l * t.quantity - t.price * t.quantity;
      ProductMono(t.price, l, t.quantity);
    }
  }

  /** One trade settles if and only if both sides are covered, and takes that much. */
  lemma SettleIff(ws: WalletTable, o: OrderRow, t: Trade)
    requires (o.typ.Limit? ==> o.price.Some?) && Proper(o, t) && t.buyer in ws && t.seller in ws
    ensures Settle(ws, o, t).Some? <==>
      && (if IsBuyMarket(o) then t.price * t.quantity <= ws[t.buyer].brl else OwedFor(o, t) <= ws[t.buyer].reservedBrl)
      && t.quantity <= ws[t.seller].reservedVib
    ensures Settle(ws, o, t).Some? ==>
      var ws' := Settle(ws, o, t).value;
      && ws'.Keys == ws.Keys
      && (forall u :: u in ws ==> ws'[u].reservedVib == ws[u].reservedVib - if t.seller == u then t.quantity else 0)
      && (forall u :: u in ws ==>
            ws'[u].reservedBrl == ws[u].reservedBrl - if t.buyer == u && !IsBuyMarket(o) then OwedFor(o, t) else 0)
      && (IsBuyMarket(o) ==> ws'[o.user].brl >= ws[o.user].brl - t.price * t.quantity)
  {
    hide Pay, OwedFor;
    PayOkIff(ws[t.buyer], o, t);
    Product(t.price, t.quantity);
  }

  /** Nobody is overdrawn by these trades. */
  predicate Within(ws: WalletTable, o: OrderRow, ts: seq<Trade>)
    requires o.typ.Limit? ==> o.price.Some?
  {
    forall u :: u in ws ==>
      Sold(ts, u) <= ws[u].reservedVib && (!IsBuyMarket(o) ==> Owed(o, ts, u) <= ws[u].reservedBrl)
  }

  /** What has been taken. */
  predicate Charged(ws: WalletTable, o: OrderRow, ts: seq<Trade>, ws': WalletTable)
    requires o.typ.Limit? ==> o.price.Some?
  {
    && ws'.Keys == ws.Keys
    && (forall u :: u in ws ==> ws'[u].reservedVib == ws[u].reservedVib - Sold(ts, u))
    && (!IsBuyMarket(o) ==> forall u :: u in ws ==> ws'[u].reservedBrl == ws[u].reservedBrl - Owed(o, ts, u))
    && (IsBuyMarket(o) && o.user in ws ==> ws'[o.user].brl >= ws[o.user].brl - Cost(ts))
  }

  lemma OwedPositive(o: OrderRow, t: Trade)
    requires (o.typ.Limit? ==> o.price.Some?) && Proper(o, t)
    ensures OwedFor(o, t) > 0 && t.price * t.quantity > 0
  {
  }

  /** One more trade after those that have been settled. */
  lemma OneMore(ws: WalletTable, o: OrderRow, ts: seq<Trade>, mid: WalletTable)
    requires (o.typ.Limit? ==> o.price.Some?) && ts != [] && Proper(o, ts[|ts| - 1])
    requires ts[|ts| - 1].buyer in ws && ts[|ts| - 1].seller in ws
    requires Within(ws, o, ts[..|ts| - 1]) && Charged(ws, o, ts[..|ts| - 1], mid)
    requires IsBuyMarket(o) ==> o.user in ws && Cost(ts) <= ws[o.user].brl
    ensures Settle(mid, o, ts[|ts| - 1]).Some? <==> Within(ws, o, ts)
  {
    hide Settle, OwedFor;
    var pre, t := ts[..|ts| - 1], ts[|ts| - 1];
    SettleIff(mid, o, t);
    if Settle(mid, o, t).Some? {
      forall u | u in ws ensures Sold(ts, u) <= ws[u].reservedVib
        && (!IsBuyMarket(o) ==> Owed(o, ts, u) <= ws[u].reservedBrl)
      {
        assert Sold(pre, u) <= ws[u].reservedVib;
      }
    } else {
      assert mid[t.seller].reservedVib == ws[t.seller].reservedVib - Sold(pre, t.seller);
      assert Sold(ts, t.seller) > ws[t.seller].reservedVib
        || (!IsBuyMarket(o) && Owed(o, ts, t.buyer) > ws[t.buyer].reservedBrl);
    }
  }

  lemma OneMoreTaken(ws: WalletTable, o: OrderRow, ts: seq<Trade>, mid: WalletTable)
    requires (o.typ.Limit? ==> o.price.Some?) && ts != [] && Proper(o, ts[|ts| - 1])
    requires ts[|ts| - 1].buyer in ws && ts[|ts| - 1].seller in ws
    requires Charged(ws, o, ts[..|ts| - 1], mid) && Settle(mid, o, ts[|ts| - 1]).Some?
    ensures Charged(ws, o, ts, Settle(mid, o, ts[|ts| - 1]).value)
  {
    hide Settle, OwedFor;
    SettleIff(mid, o, ts[|ts| - 1]);
  }

  /** The trades of a match settle if and only if nobody is overdrawn: the order in which they come does not
      matter. */
  lemma {:induction false} SettleAllIff(ws: WalletTable, o: OrderRow, ts: seq<Trade>)
    requires (o.typ.Limit? ==> o.price.Some?) && AllProper(ws, o, ts) && AllNonNegative(ws)
    requires IsBuyMarket(o) ==> o.user in ws && Cost(ts) <= ws[o.user].brl
    ensures SettleAll(ws, o, ts).Some? <==> Within(ws, o, ts)
    ensures SettleAll(ws, o, ts).Some? ==> Charged(ws, o, ts, SettleAll(ws, o, ts).value)
    decreases |ts|
  {
    hide Settle, OwedFor, Proper, Within, Charged, AllNonNegative, Sold, Owed;
    if ts == [] {
      NothingTaken(ws, o);
    } else {
      var pre, t := ts[..|ts| - 1], ts[|ts| - 1];
      assert Proper(o, t) && t.buyer in ws && t.seller in ws;
      OwedPositive(o, t);
      assert t.quantity * t.price > 0;
      SettleAllIff(ws, o, pre);
      MoreTaken(ws, o, ts);
      if SettleAll(ws, o, pre).Some? {
        OneMore(ws, o, ts, SettleAll(ws, o, pre).value);
        if Settle(SettleAll(ws, o, pre).value, o, t).Some? { OneMoreTaken(ws, o, ts, SettleAll(ws, o, pre).value); }
      }
    }
  }

  lemma NothingTaken(ws: WalletTable, o: OrderRow)
    requires (o.typ.Limit? ==> o.price.Some?) && AllNonNegative(ws)
    ensures Within(ws, o, []) && Charged(ws, o, [], ws)
  {
  }

  lemma MoreTaken(ws: WalletTable, o: OrderRow, ts: seq<Trade>)
    requires (o.typ.Limit? ==> o.price.Some?) && ts != [] && Proper(o, ts[|ts| - 1])
    ensures Within(ws, o, ts) ==> Within(ws, o, ts[..|ts| - 1])
  {
    OwedPositive(o, ts[|ts| - 1]);
  }

  // ---------- the trades of a match ----------

  /** Every order belongs to somebody with a wallet. */
  predicate Owned(ws: WalletTable, orders: OrderTable) {
    forall id :: id in orders ==> orders[id].user in ws
  }

  /** Where the loop is with a taker that is not poisoned: `funds0` less what has been spent. */
  predicate Walking(ws: WalletTable, s: State, funds0: int)
    requires s.incoming.typ.Limit? ==> s.incoming.price.Some?
  {
    && s.incoming.user in ws && AllProper(ws, s.incoming, s.trades)
    && (IsBuyMarket(s.incoming) ==>
          s.funds == Some(funds0 - Cost(s.trades)) && if s.trades == [] then !Poisoned(s) else s.funds.value >= 0)
  }

  /** The next trade is proper, and paid for out of funds that are not negative. */
  lemma NextIsProper(ws: WalletTable, orders: OrderTable, s: State, funds0: int)
    requires Runnable(s) && BookKnown(orders, s.book) && Owned(ws, orders) && Walking(ws, s, funds0) && Step(s).Some?
    ensures s.Opp() != [] && s.Opp()[0].Price() > 0
    ensures
      var m := s.Opp()[0];
      var qty := Quantity(s.incoming, m.row, s.funds, m.Price());
      var t := TradeOf(s.incoming, m.row, m.Price(), qty);
      && Step(s) == Some(Execute(s, qty)) && Proper(s.incoming, t) && t.buyer in ws && t.seller in ws
      && (IsBuyMarket(s.incoming) ==> s.funds.value - qty * m.Price() >= 0)
  {
    hide WellFormed, BookKnown;
    var m := s.Opp()[0];
    FrontIsKnown(orders, s);
    var qty := Quantity(s.incoming, m.row, s.funds, m.Price());
    if IsBuyMarket(s.incoming) {
      var a := TruncDiv(s.funds.value, m.Price());
      if s.funds.value >= 0 {
        assert qty * m.Price() <= a * m.Price() by { assert qty <= a; }
      }
    }
  }

  lemma FrontIsKnown(orders: OrderTable, s: State)
    requires Runnable(s) && BookKnown(orders, s.book) && s.Opp() != []
    ensures s.Opp()[0].Price() > 0 && s.Opp()[0].row.Remaining() >= 0
    ensures s.Opp()[0].row.id in orders && s.Opp()[0].row.user == orders[s.Opp()[0].row.id].user
  {
    assert QueueKnown(orders, s.Opp());
    assert RestsOn(Opposite(s.incoming.side), s.Opp()[0].row);
    assert RowKnown(orders, s.Opp()[0].row);
  }

  lemma WalksOn(ws: WalletTable, s: State, funds0: int, qty: int)
    requires (s.incoming.typ.Limit? ==> s.incoming.price.Some?) && Walking(ws, s, funds0) && s.Opp() != []
    requires
      var m := s.Opp()[0];
      var t := TradeOf(s.incoming, m.row, m.Price(), qty);
      && Proper(s.incoming, t) && t.buyer in ws && t.seller in ws
      && (IsBuyMarket(s.incoming) ==> s.funds.value - qty * m.Price() >= 0)
    ensures (Execute(s, qty).incoming.typ.Limit? ==> Execute(s, qty).incoming.price.Some?)
      && Walking(ws, Execute(s, qty), funds0)
  {
    hide RemoveFront, Touch;
    var m := s.Opp()[0];
    VolumeSnoc(s.trades, TradeOf(s.incoming, m.row, m.Price(), qty));
    assert Execute(s, qty).incoming.SameTerms(s.incoming);
  }

  /** On every book of known orders. */
  lemma {:induction false} LoopIsProper(ws: WalletTable, orders: OrderTable, s: State, funds0: int)
    requires Runnable(s) && BookKnown(orders, s.book) && QueueKnown(orders, s.makers) && Owned(ws, orders)
      && Walking(ws, s, funds0)
    ensures (Loop(s).incoming.typ.Limit? ==> Loop(s).incoming.price.Some?) && Walking(ws, Loop(s), funds0)
    ensures Loop(s).incoming.SameTerms(s.incoming)
    decreases s.incoming.Remaining(), Debt(s)
  {
    hide WellFormed, BookKnown, QueueKnown, Walking, Owned, Execute, Proper;
    if Step(s).Some? {
      NextIsProper(ws, orders, s, funds0);
      StepRunnable(s);
      StepDecreases(s);
      var qty := Quantity(s.incoming, s.Opp()[0].row, s.funds, s.Opp()[0].Price());
      ExecuteKnown(orders, s, qty);
      WalksOn(ws, s, funds0, qty);
      LoopIsProper(ws, orders, Step(s).value, funds0);
    }
  }

  // ---------- one entry ----------

  /** What the trades and the cancelled remainder of a SELL take from this wallet is more than it has reserved. */
  predicate Overdraws(w: Balances, o: OrderRow, m: MatchResult, u: UserId)
    requires o.typ.Limit? ==> o.price.Some?
  {
    || Sold(m.state.trades, u) + (if o.side.Sell? && u == o.user then m.cancelledQuantity else 0) > w.reservedVib
    || (!IsBuyMarket(o) && Owed(o, m.state.trades, u) > w.reservedBrl)
  }

  predicate NewOverdrawn(t: Tables, b: Book, e: Event)
    requires WellFormed(b) && e.NewOrder? && ValidEvent(e)
  {
    var o := Arriving(e);
    || PoisonedArrival(t, b, e)
    || ((IsBuyMarket(o) ==> o.user in t.wallets) &&
        exists u :: u in t.wallets && Overdraws(t.wallets[u], o, Match(b, o, FundsOf(t.wallets, o)), u))
  }

  /** A cancel's refund is more than is reserved, or nothing at all. */
  predicate CancelOverdrawn(t: Tables, b: Book, id: OrderId)
    requires WellFormed(b)
  {
    id in b.locations &&
    (LookupFinds(b, id);
     var r := Lookup(b, id).value;
     r.user in t.wallets &&
     (|| r.Remaining() == 0
      || if r.side.Buy? then r.price.value * r.Remaining() > t.wallets[r.user].reservedBrl
         else r.Remaining() > t.wallets[r.user].reservedVib))
  }

  /** An entry that takes what is not there. */
  predicate Overdrawn(t: Tables, b: Book, m: Message) {
    WellFormed(b) && ValidEvent(m.event) && m.entry !in t.processed &&
    match m.event
    case NewOrder(_, _, _, _, _, _) => NewOverdrawn(t, b, m.event)
    case CancelOrder(id) => CancelOverdrawn(t, b, id)
    case Skipped => false
  }

  /** What the matcher works on in every run. */
  predicate Known(t: Tables, b: Book) {
    WellFormed(b) && BookKnown(t.orders, b) && AllNonNegative(t.wallets) && Owned(t.wallets, t.orders)
  }

  lemma StartWalks(t: Tables, b: Book, e: Event)
    requires Known(t, b) && e.NewOrder? && ValidEvent(e) && EventKnown(t.orders, e) && !PoisonedArrival(t, b, e)
    ensures Arriving(e).user in t.wallets
    ensures
      var s := StartOf(t, b, Arriving(e));
      Runnable(s) && Walking(t.wallets, s, if s.funds.Some? then s.funds.value else 0)
  {
    assert t.orders[e.id].user in t.wallets;
  }

  /** The trades of an arrival that is not poisoned are proper, and its funds cover them. */
  lemma ArrivalIsProper(t: Tables, b: Book, e: Event)
    requires Known(t, b) && e.NewOrder? && ValidEvent(e) && EventKnown(t.orders, e) && !PoisonedArrival(t, b, e)
    ensures Arriving(e).user in t.wallets
    ensures
      var o := Arriving(e);
      var ts := Match(b, o, FundsOf(t.wallets, o)).state.trades;
      AllProper(t.wallets, o, ts) && (IsBuyMarket(o) ==> Cost(ts) <= t.wallets[o.user].brl)
  {
    hide WellFormed, BookKnown, Proper, Owned;
    var o := Arriving(e);
    StartWalks(t, b, e);
    var s0 := StartOf(t, b, o);
    var funds0 := if s0.funds.Some? then s0.funds.value else 0;
    LoopIsProper(t.wallets, t.orders, s0, funds0);
    SameTermsProper(t.wallets, o, Loop(s0).incoming, Loop(s0).trades);
    assert t.wallets[o.user].NonNegative();
    assert Match(b, o, FundsOf(t.wallets, o)).state.trades == Loop(s0).trades;
  }

  lemma SameTermsProper(ws: WalletTable, o: OrderRow, o': OrderRow, ts: seq<Trade>)
    requires o'.SameTerms(o) && (o.typ.Limit? ==> o.price.Some?)
    ensures AllProper(ws, o', ts) <==> AllProper(ws, o, ts)
  {
    assert forall t: Trade :: Proper(o', t) <==> Proper(o, t);
  }

  lemma {:induction false} TradesOfKnown(t: Tables, b: Book, e: Event)
    requires Known(t, b) && e.NewOrder? && ValidEvent(e) && EventKnown(t.orders, e) && Arriving(e).user in t.wallets
    ensures OrdersExist(t.orders, Match(b, Arriving(e), FundsOf(t.wallets, Arriving(e))).state.trades)
  {
    hide WellFormed, BookKnown, QueueKnown;
    var o := Arriving(e);
    assert QueueKnown(t.orders, []) by { NoMakers(t.orders); }
    LoopTradesExist(t.orders, StartOf(t, b, o));
  }

  lemma NoMakers(orders: OrderTable)
    ensures QueueKnown(orders, [])
  {
  }

  lemma {:induction false} LoopTradesExist(orders: OrderTable, s: State)
    requires Runnable(s) && BookKnown(orders, s.book) && QueueKnown(orders, s.makers) && s.incoming.id in orders
    requires OrdersExist(orders, s.trades)
    ensures OrdersExist(orders, Loop(s).trades)
    decreases s.incoming.Remaining(), Debt(s)
  {
    hide WellFormed, BookKnown, QueueKnown;
    if Step(s).Some? {
      FrontIsKnown(orders, s);
      StepRunnable(s);
      StepDecreases(s);
      var qty := Quantity(s.incoming, s.Opp()[0].row, s.funds, s.Opp()[0].Price());
      ExecuteKnown(orders, s, qty);
      LoopTradesExist(orders, Step(s).value);
    }
  }

  /** The remainder of a SELL on the settled wallets. */
  lemma RemainderIff(ws: WalletTable, o: OrderRow, ts: seq<Trade>, ws': WalletTable, cancelled: int)
    requires (o.typ.Limit? ==> o.price.Some?) && Charged(ws, o, ts, ws') && o.user in ws && cancelled >= 0
    ensures ReleaseRemainder(ws', o, cancelled).Some? <==>
      (o.side.Sell? ==> cancelled == 0 || Sold(ts, o.user) + cancelled <= ws[o.user].reservedVib)
  {
  }

  lemma WithinIff(ws: WalletTable, o: OrderRow, m: MatchResult)
    requires (o.typ.Limit? ==> o.price.Some?) && o.user in ws && m.cancelledQuantity >= 0
    ensures (exists u :: u in ws && Overdraws(ws[u], o, m, u)) <==>
      || !Within(ws, o, m.state.trades)
      || (o.side.Sell? && Sold(m.state.trades, o.user) + m.cancelledQuantity > ws[o.user].reservedVib)
  {
    hide Sold, Owed;
    if o.side.Sell? && Sold(m.state.trades, o.user) + m.cancelledQuantity > ws[o.user].reservedVib {
      assert Overdraws(ws[o.user], o, m, o.user);
    }
    if !Within(ws, o, m.state.trades) {
      var u :| u in ws && !(Sold(m.state.trades, u) <= ws[u].reservedVib
        && (!IsBuyMarket(o) ==> Owed(o, m.state.trades, u) <= ws[u].reservedBrl));
      assert Overdraws(ws[u], o, m, u);
    }
  }

  /** A NEW_ORDER fails in exactly two cases, on whatever book: it is poisoned, or what its trades and its
      remainder take from some user is more than that user has reserved. */
  lemma NewRefusedIff(t: Tables, b: Book, e: Event)
    requires Known(t, b) && e.NewOrder? && ValidEvent(e) && EventKnown(t.orders, e)
    ensures ApplyNew(t, b, e).Failed? <==> NewOverdrawn(t, b, e)
  {
    hide WellFormed, BookKnown, Match, SettleAll, UpdateOrders, Within, Charged, Overdraws, AllProper, OrdersExist,
      ReleaseRemainder, Poisoned;
    hide Owned, AllNonNegative;
    var o := Arriving(e);
    if PoisonedArrival(t, b, e) {
      PoisonFails(t, b, e);
    } else {
      ArrivalIsProper(t, b, e);
      var m := Match(b, o, FundsOf(t.wallets, o));
      NothingNegative(b, o, FundsOf(t.wallets, o));
      SettleAllIff(t.wallets, o, m.state.trades);
      TradesOfKnown(t, b, e);
      WithinIff(t.wallets, o, m);
      if SettleAll(t.wallets, o, m.state.trades).Some? {
        RemainderIff(t.wallets, o, m.state.trades, SettleAll(t.wallets, o, m.state.trades).value, m.cancelledQuantity);
        SoldWithin(t.wallets, o, m.state.trades);
      }
    }
  }

  lemma SoldWithin(ws: WalletTable, o: OrderRow, ts: seq<Trade>)
    requires (o.typ.Limit? ==> o.price.Some?) && Within(ws, o, ts) && o.user in ws
    ensures Sold(ts, o.user) <= ws[o.user].reservedVib
  {
  }

  lemma NothingNegative(b: Book, o: OrderRow, funds: Option<int>)
    requires Runnable(Start(b, o, funds))
    ensures Match(b, o, funds).cancelledQuantity >= 0
  {
    LoopRunnable(Start(b, o, funds));
  }

  lemma CancelRefusedIff(t: Tables, b: Book, id: OrderId)
    requires Known(t, b)
    ensures ApplyCancel(t, b, id).Failed? <==> CancelOverdrawn(t, b, id)
  {
    hide WellFormed, Lookup, Cancel;
    if id in b.locations {
      LookupFinds(b, id);
      OwnerKnown(t, b, id);
      var r := Lookup(b, id).value;
      Product(r.price.value, r.Remaining());
      if r.Remaining() > 0 { ProductMono(1, r.Remaining(), r.price.value); }
    }
  }

  lemma OwnerKnown(t: Tables, b: Book, id: OrderId)
    requires Known(t, b) && Lookup(b, id).Some?
    ensures Lookup(b, id).value.user in t.wallets
  {
    var k := LookupIsEntry(b, id);
    assert RowKnown(t.orders, b.Queue(b.locations[id].side)[k].row);
  }

  /** Exactly when an entry is refused, in every state a run can reach. */
  lemma EntryRefusedIff(t: Tables, b: Book, m: Message)
    requires Known(t, b) && ValidEvent(m.event) && EventKnown(t.orders, m.event)
    ensures ApplyEntry(t, b, m).Failed? <==> Overdrawn(t, b, m)
  {
    hide WellFormed, BookKnown, NewOverdrawn, CancelOverdrawn, ApplyNew, ApplyCancel, EventKnown;
    if m.entry !in t.processed {
      match m.event
      case NewOrder(_, _, _, _, _, _) =>
        NewRefusedIff(t, b, m.event);
        NewMarked(t, b, m.event, m.entry);
      case CancelOrder(id) =>
        CancelRefusedIff(t, b, id);
        CancelMarked(t, b, id, m.entry);
      case Skipped =>
    }
  }

  /** Entry `p` of a batch takes what is not there when its turn comes. */
  predicate OverdrawnAt(t: Tables, b: Book, ms: seq<Message>, p: nat)
    requires WellFormed(b) && ValidMessages(ms) && p < |ms|
  {
    var r := ApplyBatch(t, b, ms[..p]);
    r.Applied? && Overdrawn(r.tables, r.book, ms[p])
  }

  /** And so for batches. */
  lemma {:induction false} BatchRefusedIff(t: Tables, b: Book, ms: seq<Message>)
    requires Known(t, b) && RowsInRange(t.orders) && ValidMessages(ms) && MessagesKnown(t.orders, ms)
    ensures ApplyBatch(t, b, ms).Failed? <==> exists p :: 0 <= p < |ms| && OverdrawnAt(t, b, ms, p)
    decreases |ms|
  {
    hide ApplyEntry, Overdrawn, Known, RowsInRange, WellFormed, EventKnown;
    assert WellFormed(b) by { KnownBook(t, b); }
    if ms != [] {
      var n := |ms| - 1;
      var pre, m := ms[..n], ms[n];
      BatchRefusedIff(t, b, pre);
      forall p | 0 <= p < n ensures OverdrawnAt(t, b, pre, p) <==> OverdrawnAt(t, b, ms, p) {
        assert pre[..p] == ms[..p] && pre[p] == ms[p];
      }
      if ApplyBatch(t, b, pre).Applied? {
        var r := ApplyBatch(t, b, pre);
        BatchLeavesKnown(t, b, pre, m);
        EntryRefusedIff(r.tables, r.book, m);
        assert OverdrawnAt(t, b, ms, n) <==> Overdrawn(r.tables, r.book, m);
      } else {
        var p :| 0 <= p < n && OverdrawnAt(t, b, pre, p);
        assert OverdrawnAt(t, b, ms, p);
      }
    }
  }

  lemma KnownBook(t: Tables, b: Book)
    requires Known(t, b)
    ensures WellFormed(b)
  {
  }

  lemma BatchLeavesKnown(t: Tables, b: Book, ms: seq<Message>, m: Message)
    requires Known(t, b) && RowsInRange(t.orders) && ValidMessages(ms) && MessagesKnown(t.orders, ms)
      && EventKnown(t.orders, m.event)
    requires ApplyBatch(t, b, ms).Applied?
    ensures
      var r := ApplyBatch(t, b, ms);
      Known(r.tables, r.book) && EventKnown(r.tables.orders, m.event)
  {
    hide ApplyBatch, WellFormed, BookKnown, RowsInRange, AllNonNegative, EventKnown;
    BatchKept(t, b, ms);
    BatchConserves(t, b, ms);
    var r := ApplyBatch(t, b, ms);
    SameRowsKnown(t.orders, r.tables.orders, r.book);
    SameRowsEvent(t.orders, r.tables.orders, m.event);
  }

  // ---------- in every run ----------

  lemma NextOwned(s: System, a: Action)
    requires Shape(s) && Owned(s.tables.wallets, s.tables.orders) && Enabled(s, a)
    ensures Owned(Next(s, a).tables.wallets, Next(s, a).tables.orders)
  {
    NextConserves(s, a);
    match a
    case Commit(batch) => BatchOwned(s, batch);
    case CommitReplyLost(batch) => BatchOwned(s, batch);
    case _ =>
  }

  lemma BatchOwned(s: System, batch: seq<nat>)
    requires Shape(s) && Owned(s.tables.wallets, s.tables.orders) && CanApply(s, batch)
    requires ApplyBatch(s.tables, s.book, Messages(s, batch)).Applied?
    ensures
      var t := ApplyBatch(s.tables, s.book, Messages(s, batch)).tables;
      Owned(t.wallets, t.orders)
  {
    MessagesAreKnown(s, batch);
    BatchKept(s.tables, s.book, Messages(s, batch));
    BatchConserves(s.tables, s.book, Messages(s, batch));
  }

  lemma {:induction false} RunIsKnown(s0: System, steps: seq<Action>)
    requires Initial(s0) && After(s0, steps).Some?
    ensures Known(After(s0, steps).value.tables, After(s0, steps).value.book)
    decreases |steps|
  {
    hide Owned, Enabled, Next;
    EveryRunIsSafe(s0, steps);
    if steps == [] {
      assert Owned(s0.tables.wallets, s0.tables.orders) by { NobodyOwns(s0); }
    } else {
      RunIsKnown(s0, steps[..|steps| - 1]);
      EveryRunIsSafe(s0, steps[..|steps| - 1]);
      NextOwned(After(s0, steps[..|steps| - 1]).value, steps[|steps| - 1]);
    }
  }

  lemma NobodyOwns(s0: System)
    requires Initial(s0)
    ensures Owned(s0.tables.wallets, s0.tables.orders)
  {
  }

  /** In every run whatsoever, duplicated orders, dirty and early rebuilt books included. */
  lemma {:induction false} RunRefusesIff(s0: System, steps: seq<Action>, entry: nat)
    requires Initial(s0) && After(s0, steps).Some? && entry < |After(s0, steps).value.stream|
    ensures
      var s := After(s0, steps).value;
      var m := Message(entry, EventAt(s, entry));
      && WellFormed(s.book) && ValidEvent(m.event)
      && (ApplyEntry(s.tables, s.book, m).Failed? <==> Overdrawn(s.tables, s.book, m))
  {
    hide Overdrawn, Known, WellFormed;
    var s := After(s0, steps).value;
    EveryRunIsSafe(s0, steps);
    RunIsKnown(s0, steps);
    assert EventKnown(s.tables.orders, s.outbox[s.stream[entry]].event);
    EntryRefusedIff(s.tables, s.book, Message(entry, EventAt(s, entry)));
  }
}
