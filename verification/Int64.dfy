/** The Go code computes in int64; the model computes in integers. What each operation computes, and exactly when
    all of it fits: one sum can leave the range, the credit of a buyer's units. */
module Int64 {
  import opened Base
  import opened Orders
  import opened Wallets
  import opened PriorityBook
  import opened Matching
  import opened BookContents
  import opened Settlement
  import opened Conservation
  import opened Ledger
  import opened Consistency
  import opened Terms
  import opened Placement

  // ---------- what is computed where ----------

  /** Terms that came in as int64 values and passed the service's check. */
  predicate TermsFit(r: OrderRow) {
    && InInt64(r.quantity) && (r.price.Some? ==> InInt64(r.price.value))
    && (r.side.Buy? && r.price.Some? ==> InInt64(r.price.value * r.quantity))
  }

  /** AvailableBRLCents, AvailableVibranium, and the reservation at placement. */
  predicate ReserveFits(w: Balances, r: OrderRow) {
    && InInt64(w.brl - w.reservedBrl) && InInt64(w.vib - w.reservedVib)
    && (r.side.Buy? && r.price.Some? && Reserve(w, r).Ok? ==>
          InInt64(w.brl - r.price.value * r.quantity) && InInt64(w.reservedBrl + r.price.value * r.quantity))
    && (r.side.Sell? && ReserveVib(w, r.quantity).Ok? ==>
          InInt64(w.vib - r.quantity) && InInt64(w.reservedVib + r.quantity))
  }

  /** One iteration of the engine: remainders, the affordable quotient, the cost, the new funds,
      and the new filled quantities. */
  predicate MatchStepFits(s: State)
    requires Runnable(s)
  {
    InInt64(s.incoming.quantity - s.incoming.filled) &&
    (s.Opp() != [] ==>
      var m := s.Opp()[0];
      && InInt64(m.row.quantity - m.row.filled)
      && (Step(s).Some? ==>
           (assert RestsOn(Opposite(s.incoming.side), m.row);
            var qty := Quantity(s.incoming, m.row, s.funds, m.Price());
            && InInt64(qty)
            && (IsBuyMarket(s.incoming) && s.funds.Some? ==>
                  && InInt64(TruncDiv(s.funds.value, m.Price()))
                  && InInt64(qty * m.Price()) && InInt64(s.funds.value - qty * m.Price()))
            && (qty > 0 ==> InInt64(s.incoming.filled + qty) && InInt64(m.row.filled + qty)))))
  }

  /** Every iteration of the matching loop from this state on. */
  ghost predicate MatchFits(s: State)
    requires Runnable(s)
    decreases s.incoming.Remaining(), Debt(s)
  {
    MatchStepFits(s) &&
    (Step(s).Some? ==> (StepRunnable(s); StepDecreases(s); MatchFits(Step(s).value)))
  }

  /** The buyer's side of a trade, as far as it is computed: the cost, then the new balances if it is
      covered, then for an incoming BUY LIMIT the improvement and, if there is one to release, the
      balances after that. */
  predicate PayFits(w: Balances, o: OrderRow, t: Trade)
    requires o.typ.Limit? ==> o.price.Some?
  {
    var cost := t.price * t.quantity;
    && InInt64(cost)
    && (IsBuyMarket(o) && cost <= w.brl ==> InInt64(w.brl - cost) && InInt64(w.vib + t.quantity))
    && (!IsBuyMarket(o) && cost <= w.reservedBrl ==>
          && InInt64(w.reservedBrl - cost) && InInt64(w.vib + t.quantity)
          && (o.side.Buy? && o.typ.Limit? ==>
                var gain := (o.price.value - t.price) * t.quantity;
                && InInt64(o.price.value - t.price) && InInt64(gain)
                && (0 < gain <= w.reservedBrl - cost ==>
                  InInt64(w.reservedBrl - cost - gain) && InInt64(w.brl + gain))))
  }

  /** Settling one trade, as far as it is computed: a price or quantity that is not positive is
      refused at sight, the buyer comes first, and the seller's side is reached only if it succeeds. */
  predicate SettleFits(ws: WalletTable, o: OrderRow, t: Trade)
    requires o.typ.Limit? ==> o.price.Some?
  {
    t.buyer in ws && t.seller in ws && t.price > 0 && t.quantity > 0 ==>
      && PayFits(ws[t.buyer], o, t)
      && (Pay(ws[t.buyer], o, t).Ok? ==>
            var s := ws[t.buyer := Pay(ws[t.buyer], o, t).w][t.seller];
            t.quantity <= s.reservedVib ==>
              InInt64(s.reservedVib - t.quantity) && InInt64(s.brl + t.price * t.quantity))
  }

  /** All trades of a match, each on the wallets the earlier ones left. */
  predicate SettlesFit(ws: WalletTable, o: OrderRow, ts: seq<Trade>)
    requires o.typ.Limit? ==> o.price.Some?
  {
    forall i :: 0 <= i < |ts| && SettleAll(ws, o, ts[..i]).Some? ==>
      SettleFits(SettleAll(ws, o, ts[..i]).value, o, ts[i])
  }

  /** Giving back what is left of a SELL MARKET on the settled wallets. */
  predicate RemainderFits(ws: WalletTable, o: OrderRow, cancelled: int) {
    cancelled > 0 && o.side.Sell? && o.user in ws && cancelled <= ws[o.user].reservedVib ==>
      InInt64(ws[o.user].reservedVib - cancelled) && InInt64(ws[o.user].vib + cancelled)
  }

  /** A NEW_ORDER entry: the available funds, the matching, the settlement, the remainder. */
  ghost predicate NewFits(t: Tables, b: Book, e: Event)
    requires WellFormed(b) && e.NewOrder? && ValidEvent(e)
  {
    var o := Arriving(e);
    (IsBuyMarket(o) ==> o.user in t.wallets) ==>
      && (IsBuyMarket(o) ==> InInt64(t.wallets[o.user].AvailableBrl()))
      && MatchFits(StartOf(t, b, o))
      && var m := Match(b, o, FundsOf(t.wallets, o));
         && SettlesFit(t.wallets, o, m.state.trades)
         && (SettleAll(t.wallets, o, m.state.trades).Some? ==>
               RemainderFits(SettleAll(t.wallets, o, m.state.trades).value, o, m.cancelledQuantity))
  }

  /** Cancelling a resting order: the remainder, its cost, and the refund if the reservation covers
      it. */
  predicate RefundFits(w: Balances, r: OrderRow)
    requires r.price.Some?
  {
    && InInt64(r.quantity - r.filled)
    && (r.side.Buy? ==>
          var cost := r.price.value * r.Remaining();
          InInt64(cost) && (0 < cost <= w.reservedBrl ==> InInt64(w.reservedBrl - cost) && InInt64(w.brl + cost)))
    && (r.side.Sell? && 0 < r.Remaining() <= w.reservedVib ==>
          InInt64(w.reservedVib - r.Remaining()) && InInt64(w.vib + r.Remaining()))
  }

  predicate CancelFits(t: Tables, b: Book, id: OrderId)
    requires WellFormed(b)
  {
    id in b.locations ==>
      (LookupFinds(b, id);
       var r := Lookup(b, id).value;
       r.user in t.wallets ==> RefundFits(t.wallets[r.user], r))
  }

  /** Everything a stream entry makes the matcher compute, whether it succeeds or not. */
  ghost predicate EntryFits(t: Tables, b: Book, m: Message)
    requires WellFormed(b) && ValidEvent(m.event)
  {
    m.entry !in t.processed ==>
      match m.event
      case NewOrder(_, _, _, _, _, _) => NewFits(t, b, m.event)
      case CancelOrder(id) => CancelFits(t, b, id)
      case Skipped => true
  }

  /** Every entry of a batch that is reached, on the tables and the book the earlier ones left. */
  ghost predicate BatchFits(t: Tables, b: Book, ms: seq<Message>)
    requires WellFormed(b) && ValidMessages(ms)
  {
    forall i :: 0 <= i < |ms| && ApplyBatch(t, b, ms[..i]).Applied? ==>
      EntryFits(ApplyBatch(t, b, ms[..i]).tables, ApplyBatch(t, b, ms[..i]).book, ms[i])
  }

  // ---------- bounds ----------

  ghost predicate TotalsFit(ws: WalletTable) {
    TotalBrl(ws) <= MAX_INT64 && TotalVib(ws) <= MAX_INT64
  }

  lemma WalletBound(ws: WalletTable, u: UserId)
    requires AllNonNegative(ws) && u in ws
    ensures 0 <= ws[u].AllBrl() <= TotalBrl(ws) && 0 <= ws[u].AllVib() <= TotalVib(ws)
  {
    assert forall j :: j in ws ==> BrlOf()(ws[j]) >= 0 && VibOf()(ws[j]) >= 0;
    TotalBounds(ws, BrlOf(), u);
    TotalBounds(ws, VibOf(), u);
  }

  lemma ReservationFits(ws: WalletTable, u: UserId, r: OrderRow)
    requires AllNonNegative(ws) && TotalsFit(ws) && u in ws && r.ValidTerms()
    ensures ReserveFits(ws[u], r)
  {
    WalletBound(ws, u);
  }

  /** Matching arithmetic fits on every book, healthy or not. */
  lemma MatchStepInRange(s: State)
    requires Runnable(s) && InInt64(s.incoming.quantity)
    requires s.funds.Some? ==> InInt64(s.funds.value)
    requires s.Opp() != [] ==> InInt64(s.Opp()[0].row.quantity) && InInt64(s.Opp()[0].Price())
    ensures MatchStepFits(s)
    ensures Step(s).Some? && Step(s).value.funds.Some? ==> InInt64(Step(s).value.funds.value)
  {
    if Step(s).Some? {
      var m := s.Opp()[0];
      assert RestsOn(Opposite(s.incoming.side), m.row);
      if IsBuyMarket(s.incoming) && s.funds.Some? {
        QuotientInRange(s.funds.value, m.Price(), Min(s.incoming.Remaining(), m.row.Remaining()));
      }
    }
  }

  lemma QuotientInRange(funds: int, price: int, q: int)
    requires price > 0 && InInt64(funds) && 0 <= q && InInt64(q)
    ensures
      var a := TruncDiv(funds, price);
      var qty := Min(a, q);
      InInt64(a) && InInt64(qty) && InInt64(qty * price) && InInt64(funds - qty * price)
  {
    var a := TruncDiv(funds, price);
    var qty := Min(a, q);
    if funds >= 0 {
      Product(qty, price);
      ProductMono(qty, a, price);
      ProductMono(1, price, a);
    } else {
      ProductMono(a, 0, price);
      ProductMono(1, price, -a);
      assert (-a) * price == -(a * price);
    }
  }

  // ---------- matching ----------

  predicate RowsFit(orders: OrderTable) {
    forall id :: id in orders ==> TermsFit(orders[id])
  }

  /** Rows of known orders carry int64 terms. */
  lemma KnownFits(orders: OrderTable, q: seq<Entry>, i: nat)
    requires QueueKnown(orders, q) && RowsFit(orders) && i < |q|
    ensures InInt64(q[i].row.quantity) && InInt64(q[i].Price())
  {
    assert RowKnown(orders, q[i].row) && TermsFit(orders[q[i].row.id]);
  }

  /** The matching loop fits whatever the book has come to, as long as its orders are rows of the
      table, and whatever the funds. */
  lemma {:induction false} MatchInRange(orders: OrderTable, s: State)
    requires Runnable(s) && BookKnown(orders, s.book) && QueueKnown(orders, s.makers) && RowsFit(orders)
    requires InInt64(s.incoming.quantity) && (s.funds.Some? ==> InInt64(s.funds.value))
    ensures MatchFits(s)
    decreases s.incoming.Remaining(), Debt(s)
  {
    hide MatchStepFits, QueueKnown, RowsFit, WellFormed, Execute;
    assert QueueKnown(orders, s.Opp());
    if s.Opp() != [] { KnownFits(orders, s.Opp(), 0); }
    MatchStepInRange(s);
    if Step(s).Some? {
      StepRunnable(s);
      StepDecreases(s);
      StepIsExecute(s);
      ExecuteKnown(orders, s, Quantity(s.incoming, s.Opp()[0].row, s.funds, s.Opp()[0].Price()));
      MatchInRange(orders, Step(s).value);
    }
  }

  lemma StepIsExecute(s: State)
    requires Runnable(s) && Step(s).Some?
    ensures s.Opp() != [] && s.Opp()[0].Price() > 0
    ensures Step(s).value == Execute(s, Quantity(s.incoming, s.Opp()[0].row, s.funds, s.Opp()[0].Price()))
  {
    assert RestsOn(Opposite(s.incoming.side), s.Opp()[0].row);
  }

  // ---------- the one sum that can overflow ----------

  /** The buyer has the money for the trade: in the balance for a BUY MARKET, reserved for any other. */
  predicate CanPay(w: Balances, o: OrderRow, t: Trade) {
    t.price * t.quantity <= if IsBuyMarket(o) then w.brl else w.reservedBrl
  }

  /** The buyer is credited before the seller's reservation is looked at, and the units fit. */
  predicate CreditFits(ws: WalletTable, o: OrderRow, t: Trade) {
    t.buyer in ws && t.seller in ws && t.price > 0 && t.quantity > 0 && CanPay(ws[t.buyer], o, t) ==>
      ws[t.buyer].vib + t.quantity <= MAX_INT64
  }

  /** The same of every trade whose predecessors settle. */
  predicate CreditsFit(ws: WalletTable, o: OrderRow, ts: seq<Trade>)
    requires o.typ.Limit? ==> o.price.Some?
  {
    forall i :: 0 <= i < |ts| && SettleAll(ws, o, ts[..i]).Some? ==>
      CreditFits(SettleAll(ws, o, ts[..i]).value, o, ts[i])
  }

  /** The trades an arriving order makes. */
  function TradesOf(t: Tables, b: Book, o: OrderRow): seq<Trade>
    requires WellFormed(b) && o.ValidTerms() && 0 <= o.filled <= o.quantity && (IsBuyMarket(o) ==> o.user in t.wallets)
  {
    Match(b, o, FundsOf(t.wallets, o)).state.trades
  }

  /** Everything a stream entry credits to buyers. */
  predicate EntryCreditsFit(t: Tables, b: Book, m: Message)
    requires WellFormed(b) && ValidEvent(m.event)
  {
    m.entry !in t.processed && m.event.NewOrder? && (IsBuyMarket(Arriving(m.event)) ==> m.event.user in t.wallets) ==>
      CreditsFit(t.wallets, Arriving(m.event), TradesOf(t, b, Arriving(m.event)))
  }

  // ---------- the trades of a match ----------

  /** A cost that fits, and so does what a BUY LIMIT taker has reserved for the trade. */
  predicate TradeFits(o: OrderRow, t: Trade)
    requires o.typ.Limit? ==> o.price.Some?
  {
    t.price > 0 &&
    (t.quantity > 0 ==>
       && InInt64(t.quantity) && InInt64(t.price * t.quantity)
       && (o.side.Buy? && o.typ.Limit? ==> t.price <= o.price.value && InInt64(o.price.value * t.quantity)))
  }

  predicate TradesFit(o: OrderRow, ts: seq<Trade>)
    requires o.typ.Limit? ==> o.price.Some?
  {
    forall i :: 0 <= i < |ts| ==> TradeFits(o, ts[i])
  }

  /** The cost of a part is within that of the whole. */
  lemma CostWithin(price: int, limit: int, qty: int, whole: int)
    requires 0 < price <= limit && 0 < qty <= whole && limit * whole <= MAX_INT64
    ensures 0 <= price * qty <= limit * qty <= MAX_INT64
  {
    ProductMono(qty, whole, limit);
    ProductMono(price, limit, qty);
    Product(price, qty);
  }

  /** The order at the front, as the table knows it. */
  lemma FrontKnown(orders: OrderTable, s: State)
    requires Runnable(s) && BookKnown(orders, s.book) && RowsFit(orders) && s.Opp() != []
    ensures
      var m := s.Opp()[0];
      && m.row.side == Opposite(s.incoming.side) && m.row.price == Some(m.Price()) && m.Price() > 0
      && TermsFit(m.row) && 0 <= m.row.filled && m.row.id in orders && m.row.SameTerms(orders[m.row.id])
  {
    var m := s.Opp()[0];
    assert QueueKnown(orders, s.Opp());
    assert RestsOn(Opposite(s.incoming.side), m.row);
    assert RowKnown(orders, m.row) && TermsFit(orders[m.row.id]);
  }

  /** The next trade of the loop. */
  lemma NextTradeFits(orders: OrderTable, s: State)
    requires Runnable(s) && BookKnown(orders, s.book) && RowsFit(orders) && TermsFit(s.incoming) && Step(s).Some?
    requires (s.funds.Some? ==> InInt64(s.funds.value)) && (IsBuyMarket(s.incoming) ==> s.funds.Some?)
    ensures s.Opp() != [] && s.Opp()[0].Price() > 0
    ensures
      var m := s.Opp()[0];
      TradeFits(s.incoming, TradeOf(s.incoming, m.row, m.Price(), Quantity(s.incoming, m.row, s.funds, m.Price())))
  {
    hide WellFormed, RowsFit, BookKnown;
    StepIsExecute(s);
    FrontKnown(orders, s);
    MatchStepInRange(s);
    var m := s.Opp()[0];
    var qty := Quantity(s.incoming, m.row, s.funds, m.Price());
    if qty > 0 && s.incoming.side.Sell? {
      CostWithin(m.Price(), m.Price(), qty, m.row.quantity);
    } else if qty > 0 && s.incoming.typ.Limit? {
      CostWithin(m.Price(), s.incoming.price.value, qty, s.incoming.quantity);
    }
  }

  lemma SnocFits(o: OrderRow, ts: seq<Trade>, t: Trade)
    requires (o.typ.Limit? ==> o.price.Some?) && TradesFit(o, ts) && TradeFits(o, t)
    ensures TradesFit(o, ts + [t])
  {
  }

  /** All trades of the loop, on every book of known orders. */
  lemma {:induction false} LoopTradesFit(orders: OrderTable, s: State)
    requires Runnable(s) && BookKnown(orders, s.book) && QueueKnown(orders, s.makers) && RowsFit(orders)
      && TermsFit(s.incoming)
    requires (s.funds.Some? ==> InInt64(s.funds.value)) && (IsBuyMarket(s.incoming) ==> s.funds.Some?)
    requires TradesFit(s.incoming, s.trades)
    ensures TradesFit(s.incoming, Loop(s).trades)
    decreases s.incoming.Remaining(), Debt(s)
  {
    hide QueueKnown, RowsFit, WellFormed, TradeFits, TradesFit;
    if Step(s).Some? {
      NextTradeFits(orders, s);
      FundsInRange(orders, s);
      StepRunnable(s);
      StepDecreases(s);
      StepIsExecute(s);
      var m := s.Opp()[0];
      var qty := Quantity(s.incoming, m.row, s.funds, m.Price());
      ExecuteKnown(orders, s, qty);
      SnocFits(s.incoming, s.trades, TradeOf(s.incoming, m.row, m.Price(), qty));
      SameTermsFit(s.incoming, Step(s).value.incoming, Step(s).value.trades);
      LoopTradesFit(orders, Step(s).value);
      SameTermsFit(s.incoming, Step(s).value.incoming, Loop(s).trades);
    }
  }

  lemma FundsInRange(orders: OrderTable, s: State)
    requires Runnable(s) && BookKnown(orders, s.book) && RowsFit(orders) && TermsFit(s.incoming) && Step(s).Some?
    requires s.funds.Some? ==> InInt64(s.funds.value)
    ensures Step(s).value.funds.Some? ==> s.funds.Some? && InInt64(Step(s).value.funds.value)
    ensures s.funds.Some? ==> Step(s).value.funds.Some?
    ensures Step(s).value.incoming.SameTerms(s.incoming)
  {
    hide WellFormed, RowsFit, BookKnown;
    StepIsExecute(s);
    FrontKnown(orders, s);
    MatchStepInRange(s);
  }

  lemma SameTermsFit(o: OrderRow, o': OrderRow, ts: seq<Trade>)
    requires o.SameTerms(o') && (o.typ.Limit? ==> o.price.Some?)
    ensures TradesFit(o, ts) <==> TradesFit(o', ts)
    ensures TermsFit(o) <==> TermsFit(o')
  {
    assert forall t: Trade :: TradeFits(o, t) <==> TradeFits(o', t);
  }

  // ---------- settling ----------

  /** The buyer's side of a trade fits if and only if the credit does. */
  lemma PayFitsIff(w: Balances, o: OrderRow, t: Trade)
    requires o.ValidTerms() && (o.price.Some? ==> InInt64(o.price.value)) && TradeFits(o, t) && t.quantity > 0
    requires w.NonNegative() && w.AllBrl() <= MAX_INT64 && w.AllVib() <= MAX_INT64
    ensures PayFits(w, o, t) <==> (CanPay(w, o, t) ==> w.vib + t.quantity <= MAX_INT64)
  {
    var cost := t.price * t.quantity;
    Product(t.price, t.quantity);
    if o.side.Buy? && o.typ.Limit? {
      var l := o.price.value;
      assert (l - t.price) * t.quantity == l * t.quantity - cost;
      ProductMono(t.price, l, t.quantity);
    }
  }

  /** The seller's side of a trade that settles fits. */
  lemma SellFits(ws: WalletTable, o: OrderRow, t: Trade)
    requires (o.typ.Limit? ==> o.price.Some?) && AllNonNegative(ws) && TotalsFit(ws) && Settle(ws, o, t).Some?
    ensures
      var s := ws[t.buyer := Pay(ws[t.buyer], o, t).w][t.seller];
      InInt64(s.reservedVib - t.quantity) && InInt64(s.brl + t.price * t.quantity)
  {
    var ws' := Settle(ws, o, t).value;
    SettleConserves(ws, o, t);
    WalletBound(ws', t.seller);
    assert ws'[t.seller].NonNegative();
    assert ws'[t.seller].brl == ws[t.buyer := Pay(ws[t.buyer], o, t).w][t.seller].brl + t.price * t.quantity;
  }

  /** Settling a trade fits if and only if the credit does, whether it succeeds or not. */
  lemma SettleFitsIff(ws: WalletTable, o: OrderRow, t: Trade)
    requires o.ValidTerms() && (o.price.Some? ==> InInt64(o.price.value)) && TradeFits(o, t)
    requires AllNonNegative(ws) && TotalsFit(ws)
    ensures SettleFits(ws, o, t) <==> CreditFits(ws, o, t)
  {
    hide PayFits, CanPay, TradeFits;
    if t.buyer in ws && t.seller in ws && t.price > 0 && t.quantity > 0 {
      WalletBound(ws, t.buyer);
      assert ws[t.buyer].NonNegative();
      PayFitsIff(ws[t.buyer], o, t);
      if Settle(ws, o, t).Some? { SellFits(ws, o, t); }
    }
  }

  lemma {:induction false} SettlesFitIff(ws: WalletTable, o: OrderRow, ts: seq<Trade>)
    requires o.ValidTerms() && (o.price.Some? ==> InInt64(o.price.value)) && TradesFit(o, ts)
    requires AllNonNegative(ws) && TotalsFit(ws)
    ensures SettlesFit(ws, o, ts) <==> CreditsFit(ws, o, ts)
  {
    hide SettleFits, CreditFits, TradeFits;
    forall i | 0 <= i < |ts| && SettleAll(ws, o, ts[..i]).Some?
      ensures SettleFits(SettleAll(ws, o, ts[..i]).value, o, ts[i]) <==>
        CreditFits(SettleAll(ws, o, ts[..i]).value, o, ts[i])
    {
      SettleAllConserves(ws, o, ts[..i]);
      SettleFitsIff(SettleAll(ws, o, ts[..i]).value, o, ts[i]);
    }
  }

  lemma ReleasedInRange(ws: WalletTable, o: OrderRow, cancelled: int)
    requires AllNonNegative(ws) && TotalsFit(ws)
    ensures RemainderFits(ws, o, cancelled)
  {
    if cancelled > 0 && o.side.Sell? && o.user in ws {
      WalletBound(ws, o.user);
    }
  }

  // ---------- one entry ----------

  /** A NEW_ORDER up to settlement. */
  lemma MatchedInRange(t: Tables, b: Book, e: Event)
    requires WellFormed(b) && BookKnown(t.orders, b) && RowsFit(t.orders) && e.NewOrder? && ValidEvent(e)
    requires EventKnown(t.orders, e) && AllNonNegative(t.wallets) && TotalsFit(t.wallets)
    requires IsBuyMarket(Arriving(e)) ==> e.user in t.wallets
    ensures TermsFit(Arriving(e)) && MatchFits(StartOf(t, b, Arriving(e)))
    ensures TradesFit(Arriving(e), TradesOf(t, b, Arriving(e)))
    ensures IsBuyMarket(Arriving(e)) ==> InInt64(t.wallets[e.user].AvailableBrl())
  {
    hide WellFormed, MatchFits, BookKnown, TradeFits;
    var o := Arriving(e);
    assert TermsFit(t.orders[o.id]);
    if IsBuyMarket(o) {
      WalletBound(t.wallets, o.user);
    }
    MatchInRange(t.orders, StartOf(t, b, o));
    LoopTradesFit(t.orders, StartOf(t, b, o));
  }

  lemma {:induction false} NewFitsIff(t: Tables, b: Book, e: Event)
    requires WellFormed(b) && BookKnown(t.orders, b) && RowsFit(t.orders) && e.NewOrder? && ValidEvent(e)
    requires EventKnown(t.orders, e) && AllNonNegative(t.wallets) && TotalsFit(t.wallets)
    requires IsBuyMarket(Arriving(e)) ==> e.user in t.wallets
    ensures NewFits(t, b, e) <==> CreditsFit(t.wallets, Arriving(e), TradesOf(t, b, Arriving(e)))
  {
    hide WellFormed, MatchFits, BookKnown, RowsFit, SettlesFit, RemainderFits, Match, AllNonNegative, EventKnown,
      TradesFit, CreditsFit;
    var o := Arriving(e);
    MatchedInRange(t, b, e);
    var m := Match(b, o, FundsOf(t.wallets, o));
    SettlesFitIff(t.wallets, o, m.state.trades);
    if SettleAll(t.wallets, o, m.state.trades).Some? {
      SettleAllConserves(t.wallets, o, m.state.trades);
      ReleasedInRange(SettleAll(t.wallets, o, m.state.trades).value, o, m.cancelledQuantity);
    }
  }

  /** A cancel always fits, refused refunds included. */
  lemma CancelInRange(t: Tables, b: Book, id: OrderId)
    requires WellFormed(b) && BookKnown(t.orders, b) && RowsFit(t.orders)
    requires AllNonNegative(t.wallets) && TotalsFit(t.wallets)
    ensures CancelFits(t, b, id)
  {
    if id in b.locations {
      hide WellFormed, Cancel, RefundFits, BookKnown, RowsFit, AllNonNegative, Refund, Lookup;
      LookupFinds(b, id);
      var k := LookupIsEntry(b, id);
      var r := Lookup(b, id).value;
      KnownRow(t.orders, b, b.locations[id].side, k);
      if r.user in t.wallets {
        WalletBound(t.wallets, r.user);
        NonNegativeAt(t.wallets, r.user);
        RefundInRange(t.wallets[r.user], r);
      }
    }
  }

  lemma NonNegativeAt(ws: WalletTable, u: UserId)
    requires AllNonNegative(ws) && u in ws
    ensures ws[u].NonNegative()
  {
  }

  lemma KnownRow(orders: OrderTable, b: Book, side: Side, k: nat)
    requires BookKnown(orders, b) && RowsFit(orders) && k < |b.Queue(side)|
    ensures
      var r := b.Queue(side)[k].row;
      0 <= r.filled <= r.quantity && TermsFit(r)
  {
    assert RowKnown(orders, b.Queue(side)[k].row);
    assert TermsFit(orders[b.Queue(side)[k].row.id]);
  }

  lemma RefundInRange(w: Balances, r: OrderRow)
    requires r.price.Some? && r.price.value > 0 && 0 <= r.filled <= r.quantity && TermsFit(r)
    requires w.NonNegative() && w.AllBrl() <= MAX_INT64 && w.AllVib() <= MAX_INT64
    ensures RefundFits(w, r)
  {
    if r.side.Buy? {
      Product(r.price.value, r.Remaining());
      ProductMono(r.Remaining(), r.quantity, r.price.value);
    }
  }

  // ---------- batches on ranged states ----------

  /** What a state hands to the matcher: known orders and int64 terms and totals. */
  ghost predicate Ranged(t: Tables, b: Book) {
    && WellFormed(b) && BookKnown(t.orders, b) && RowsInRange(t.orders) && RowsFit(t.orders)
    && AllNonNegative(t.wallets) && TotalsFit(t.wallets)
  }

  lemma SameRowsFit(orders: OrderTable, orders': OrderTable)
    requires RowsFit(orders) && SameRows(orders, orders')
    ensures RowsFit(orders')
  {
  }

  lemma {:induction false} BatchStaysRanged(t: Tables, b: Book, ms: seq<Message>)
    requires Ranged(t, b) && MessagesKnown(t.orders, ms) && ValidMessages(ms) && ApplyBatch(t, b, ms).Applied?
    ensures Ranged(ApplyBatch(t, b, ms).tables, ApplyBatch(t, b, ms).book)
    ensures SameRows(t.orders, ApplyBatch(t, b, ms).tables.orders)
  {
    hide ApplyBatch, WellFormed, RowsFit, RowsInRange, BookKnown;
    var r := ApplyBatch(t, b, ms);
    BatchKept(t, b, ms);
    BatchConserves(t, b, ms);
    SameRowsFit(t.orders, r.tables.orders);
    SameRowsKnown(t.orders, r.tables.orders, r.book);
  }

  /** Entry `i` of a batch finds ranged tables and book, and its event known. */
  lemma {:induction false} PrefixIsRanged(t: Tables, b: Book, ms: seq<Message>, i: nat)
    requires Ranged(t, b) && MessagesKnown(t.orders, ms) && ValidMessages(ms) && i < |ms|
      && ApplyBatch(t, b, ms[..i]).Applied?
    ensures Ranged(ApplyBatch(t, b, ms[..i]).tables, ApplyBatch(t, b, ms[..i]).book)
    ensures EventKnown(ApplyBatch(t, b, ms[..i]).tables.orders, ms[i].event) && ValidEvent(ms[i].event)
  {
    hide EventKnown, ApplyBatch, WellFormed, RowsFit, RowsInRange, BookKnown;
    assert forall j :: 0 <= j < i ==> ms[..i][j] == ms[j];
    assert EventKnown(t.orders, ms[i].event);
    BatchStaysRanged(t, b, ms[..i]);
    SameRowsEvent(t.orders, ApplyBatch(t, b, ms[..i]).tables.orders, ms[i].event);
  }

  lemma {:induction false} PrefixApplies(t: Tables, b: Book, ms: seq<Message>, n: nat)
    requires WellFormed(b) && ValidMessages(ms) && ApplyBatch(t, b, ms).Applied? && n <= |ms|
    ensures ApplyBatch(t, b, ms[..n]).Applied?
    decreases |ms|
  {
    if n == |ms| {
      assert ms[..n] == ms;
    } else {
      assert ms[..|ms| - 1][..n] == ms[..n];
      PrefixApplies(t, b, ms[..|ms| - 1], n);
    }
  }

  /** Exactly when an entry fits, whatever the book has come to and whether it succeeds or fails: the only
      sum that can leave int64 is the credit of a buyer's units. */
  lemma EntryFitsIff(t: Tables, b: Book, m: Message)
    requires Ranged(t, b) && EventKnown(t.orders, m.event) && ValidEvent(m.event)
    ensures EntryFits(t, b, m) <==> EntryCreditsFit(t, b, m)
  {
    hide WellFormed, NewFits, CancelFits, BookKnown, RowsFit, EventKnown, CreditsFit, TradesOf;
    if m.entry !in t.processed {
      match m.event
      case NewOrder(_, _, _, _, _, _) =>
        if IsBuyMarket(Arriving(m.event)) ==> m.event.user in t.wallets {
          NewFitsIff(t, b, m.event);
        } else {
          UnknownBuyer(t, b, m.event);
        }
      case CancelOrder(id) => CancelInRange(t, b, id);
      case Skipped =>
    }
  }

  lemma UnknownBuyer(t: Tables, b: Book, e: Event)
    requires WellFormed(b) && e.NewOrder? && ValidEvent(e) && IsBuyMarket(Arriving(e)) && e.user !in t.wallets
    ensures NewFits(t, b, e)
  {
  }

  /** All credits of the entries of a batch that are reached. */
  predicate BatchCreditsFit(t: Tables, b: Book, ms: seq<Message>)
    requires WellFormed(b) && ValidMessages(ms)
  {
    forall i :: 0 <= i < |ms| && ApplyBatch(t, b, ms[..i]).Applied? ==>
      EntryCreditsFit(ApplyBatch(t, b, ms[..i]).tables, ApplyBatch(t, b, ms[..i]).book, ms[i])
  }

  lemma {:induction false} BatchFitsIff(t: Tables, b: Book, ms: seq<Message>)
    requires Ranged(t, b) && MessagesKnown(t.orders, ms) && ValidMessages(ms)
    ensures BatchFits(t, b, ms) <==> BatchCreditsFit(t, b, ms)
  {
    hide EntryFits, EntryCreditsFit, ApplyEntry, ApplyBatch, Ranged, EventKnown, WellFormed;
    assert WellFormed(b) by { RangedBook(t, b); }
    forall i | 0 <= i < |ms| && ApplyBatch(t, b, ms[..i]).Applied?
      ensures
        var r := ApplyBatch(t, b, ms[..i]);
        EntryFits(r.tables, r.book, ms[i]) <==> EntryCreditsFit(r.tables, r.book, ms[i])
    {
      PrefixIsRanged(t, b, ms, i);
      EntryFitsIff(ApplyBatch(t, b, ms[..i]).tables, ApplyBatch(t, b, ms[..i]).book, ms[i]);
    }
  }

  lemma RangedBook(t: Tables, b: Book)
    requires Ranged(t, b)
    ensures WellFormed(b)
  {
  }

  // ---------- when the credits fit ----------

  /** What settles fits: the buyer's units come out of the total. */
  lemma {:induction false} SettledCreditsFit(ws: WalletTable, o: OrderRow, ts: seq<Trade>)
    requires (o.typ.Limit? ==> o.price.Some?) && AllNonNegative(ws) && TotalsFit(ws) && SettleAll(ws, o, ts).Some?
    ensures CreditsFit(ws, o, ts)
  {
    hide CreditFits, Settle;
    forall i | 0 <= i < |ts| && SettleAll(ws, o, ts[..i]).Some?
      ensures CreditFits(SettleAll(ws, o, ts[..i]).value, o, ts[i])
    {
      PrefixSettles(ws, o, ts, i + 1);
      assert ts[..i + 1][..i] == ts[..i];
      SettleAllConserves(ws, o, ts[..i]);
      SettledCreditFits(SettleAll(ws, o, ts[..i]).value, o, ts[i]);
    }
  }

  lemma SettledCreditFits(ws: WalletTable, o: OrderRow, t: Trade)
    requires (o.typ.Limit? ==> o.price.Some?) && AllNonNegative(ws) && TotalsFit(ws) && Settle(ws, o, t).Some?
    ensures CreditFits(ws, o, t)
  {
    var ws' := Settle(ws, o, t).value;
    SettleConserves(ws, o, t);
    WalletBound(ws, t.buyer);
    WalletBound(ws', t.buyer);
    PayMoves(ws[t.buyer], o, t);
    PayKeepsUnits(ws[t.buyer], o, t);
  }

  lemma PayKeepsUnits(w: Balances, o: OrderRow, t: Trade)
    requires (o.typ.Limit? ==> o.price.Some?) && Pay(w, o, t).Ok?
    ensures Pay(w, o, t).w.vib == w.vib + t.quantity && Pay(w, o, t).w.reservedVib == w.reservedVib
  {
  }

  lemma {:induction false} PrefixSettles(ws: WalletTable, o: OrderRow, ts: seq<Trade>, n: nat)
    requires (o.typ.Limit? ==> o.price.Some?) && SettleAll(ws, o, ts).Some? && n <= |ts|
    ensures SettleAll(ws, o, ts[..n]).Some?
    decreases |ts|
  {
    if n == |ts| {
      assert ts[..n] == ts;
    } else {
      assert ts[..|ts| - 1][..n] == ts[..n];
      PrefixSettles(ws, o, ts[..|ts| - 1], n);
    }
  }

  /** So an entry that succeeds fits. */
  lemma AppliedCreditsFit(t: Tables, b: Book, m: Message)
    requires Ranged(t, b) && ValidEvent(m.event) && ApplyEntry(t, b, m).Applied?
    ensures EntryCreditsFit(t, b, m)
  {
    hide WellFormed, Match, CreditsFit, BookKnown, RowsFit, RowsInRange;
    if m.entry !in t.processed && m.event.NewOrder? {
      NewMarked(t, b, m.event, m.entry);
      AppliedSettles(t, b, m.event);
      SettledCreditsFit(t.wallets, Arriving(m.event), TradesOf(t, b, Arriving(m.event)));
    }
  }

  lemma AppliedSettles(t: Tables, b: Book, e: Event)
    requires WellFormed(b) && e.NewOrder? && ValidEvent(e) && ApplyNew(t, b, e).Applied?
    ensures IsBuyMarket(Arriving(e)) ==> e.user in t.wallets
    ensures SettleAll(t.wallets, Arriving(e), TradesOf(t, b, Arriving(e))).Some?
  {
  }

  /** No trade sells more than this. */
  predicate SalesWithin(ts: seq<Trade>, units: int) {
    forall i :: 0 <= i < |ts| ==> ts[i].quantity <= units
  }

  /** Nor does a SELL order of the table. */
  predicate OffersWithin(orders: OrderTable, units: int) {
    forall id :: id in orders && orders[id].side.Sell? ==> orders[id].quantity <= units
  }

  /** One of two orders that trade is a SELL. */
  lemma {:induction false} LoopSalesWithin(orders: OrderTable, s: State, units: int)
    requires Runnable(s) && BookKnown(orders, s.book) && QueueKnown(orders, s.makers) && RowsFit(orders)
    requires OffersWithin(orders, units) && (s.incoming.side.Sell? ==> s.incoming.quantity <= units)
    requires SalesWithin(s.trades, units)
    ensures SalesWithin(Loop(s).trades, units)
    decreases s.incoming.Remaining(), Debt(s)
  {
    hide QueueKnown, RowsFit, WellFormed, BookKnown;
    if Step(s).Some? {
      StepRunnable(s);
      StepDecreases(s);
      StepIsExecute(s);
      FrontKnown(orders, s);
      var m := s.Opp()[0];
      var qty := Quantity(s.incoming, m.row, s.funds, m.Price());
      assert qty <= units by { assert qty <= m.row.Remaining() && qty <= s.incoming.Remaining(); }
      ExecuteKnown(orders, s, qty);
      LoopSalesWithin(orders, Step(s).value, units);
    }
  }

  /** If twice the units there are fit, then so does every credit, of a failing settlement as well. */
  lemma {:induction false} SmallCreditsFit(ws: WalletTable, o: OrderRow, ts: seq<Trade>)
    requires (o.typ.Limit? ==> o.price.Some?) && AllNonNegative(ws) && 2 * TotalVib(ws) <= MAX_INT64
    requires SalesWithin(ts, TotalVib(ws))
    ensures CreditsFit(ws, o, ts)
  {
    hide Settle, CanPay;
    forall i | 0 <= i < |ts| && SettleAll(ws, o, ts[..i]).Some?
      ensures CreditFits(SettleAll(ws, o, ts[..i]).value, o, ts[i])
    {
      SettleAllConserves(ws, o, ts[..i]);
      var ws' := SettleAll(ws, o, ts[..i]).value;
      if ts[i].buyer in ws' { WalletBound(ws', ts[i].buyer); }
    }
  }

  lemma SmallEntryFits(t: Tables, b: Book, m: Message)
    requires Ranged(t, b) && EventKnown(t.orders, m.event) && ValidEvent(m.event)
    requires OffersWithin(t.orders, TotalVib(t.wallets)) && 2 * TotalVib(t.wallets) <= MAX_INT64
    ensures EntryCreditsFit(t, b, m)
  {
    hide WellFormed, CreditsFit, BookKnown, RowsFit, RowsInRange;
    if m.event.NewOrder? && (IsBuyMarket(Arriving(m.event)) ==> m.event.user in t.wallets) {
      LoopSalesWithin(t.orders, StartOf(t, b, Arriving(m.event)), TotalVib(t.wallets));
      SmallCreditsFit(t.wallets, Arriving(m.event), TradesOf(t, b, Arriving(m.event)));
    }
  }
}
