/** Where the matcher's promises end: what exactly goes wrong outside a disciplined run, and the
    condition that rules it out. */
module Boundaries {
  import opened Base
  import opened Orders
  import opened Wallets
  import opened PriorityBook
  import opened Matching
  import opened PriceTime
  import opened BookContents
  import opened Settlement
  import opened Consistency
  import opened Entries

  // ---------- available funds ----------

  /** A reservation lowers the available amount, BRL or Vibranium, twice, so it stays at or above zero exactly
      when twice the amount was available. */
  lemma ReservingCountsTwice(w: Balances, amount: int)
    ensures ReserveBrl(w, amount).Ok? ==>
      var w' := ReserveBrl(w, amount).w;
      && w'.AvailableBrl() == w.brl - w.reservedBrl - 2 * amount && w'.AvailableVib() == w.vib - w.reservedVib
      && (w'.AvailableBrl() >= 0 <==> 2 * amount <= w.brl - w.reservedBrl)
    ensures ReserveVib(w, amount).Ok? ==>
      var w' := ReserveVib(w, amount).w;
      && w'.AvailableVib() == w.vib - w.reservedVib - 2 * amount && w'.AvailableBrl() == w.brl - w.reservedBrl
      && (w'.AvailableVib() >= 0 <==> 2 * amount <= w.vib - w.reservedVib)
  {
  }

  /** Every trade of a match has a positive quantity exactly when the taker is not a BUY MARKET whose
      funds are at or below minus the best ask. */
  lemma TradesArePositiveIff(b: Book, o: OrderRow, funds: Option<int>)
    requires Healthy(b) && LiveRow(o)
    ensures Runnable(Start(b, o, funds))
    ensures
      (forall i :: 0 <= i < |Match(b, o, funds).state.trades| ==> Match(b, o, funds).state.trades[i].quantity > 0)
      <==> !Poisoned(Start(b, o, funds))
  {
    hide WellFormed, Unique, Step;
    var s0 := Start(b, o, funds);
    if Poisoned(s0) {
      PoisonedMatch(b, o, funds.value);
      assert Match(b, o, funds).state.trades[0].quantity < 0;
    } else {
      MatchIsPriceTimeWalk(s0);
      var s := Loop(s0);
      forall i | 0 <= i < |s.trades| ensures s.trades[i].quantity > 0 {
        assert TradedWith(s0, s, i);
      }
    }
  }

  /** It does happen: a wallet of 100 with one reservation of 90 has -80 available, and on every book whose
      best ask is at 10 a market order for one unit then makes one trade, with that ask, of minus eight units. */
  lemma NegativeTrade(w: Balances, b: Book, taker: OrderRow)
    requires ReserveBrl(Balances(100, 0, 0, 0), 90) == Ok(w)
    requires Healthy(b) && b.asks != [] && b.asks[0].Price() == 10
    requires LiveRow(taker) && IsBuyMarket(taker) && taker.Remaining() == 1
    ensures w.AvailableBrl() == -80
    ensures MatchesAs(b, taker, -80, [TradeOf(taker, b.asks[0].row, 10, -8)])
  {
    hide MatchesAs, Healthy, TradeOf;
    EightyShort(b, taker);
  }

  lemma EightyShort(b: Book, taker: OrderRow)
    requires Healthy(b) && b.asks != [] && b.asks[0].Price() == 10
    requires LiveRow(taker) && IsBuyMarket(taker) && taker.Remaining() == 1
    ensures MatchesAs(b, taker, -80, [TradeOf(taker, b.asks[0].row, 10, -8)])
  {
    hide MatchesAs, WellFormed, Unique;
    PoisonedTrades(b, taker, -80);
    EightTens(-80, 10);
  }

  lemma EightTens(funds: int, price: int)
    requires funds == -80 && price == 10
    ensures TruncDiv(funds, price) == -8
  {
  }

  lemma PoisonedTrades(b: Book, o: OrderRow, funds: int)
    requires Healthy(b) && LiveRow(o) && Poisoned(Start(b, o, Some(funds))) && b.asks != [] && b.asks[0].Price() > 0
    ensures MatchesAs(b, o, funds,
      [TradeOf(o, b.asks[0].row, b.asks[0].Price(), TruncDiv(funds, b.asks[0].Price()))])
  {
    PoisonedMatch(b, o, funds);
  }

  /** The order can be matched with these funds, and these are its trades. */
  predicate MatchesAs(b: Book, o: OrderRow, funds: int, trades: seq<Trade>) {
    Runnable(Start(b, o, Some(funds))) && Match(b, o, Some(funds)).state.trades == trades
  }

  lemma PoisonedMatch(b: Book, o: OrderRow, funds: int)
    requires Healthy(b) && LiveRow(o) && Poisoned(Start(b, o, Some(funds)))
    ensures Runnable(Start(b, o, Some(funds))) && b.asks[0].Price() > 0
    ensures
      Match(b, o, Some(funds)).state.trades ==
        [TradeOf(o, b.asks[0].row, b.asks[0].Price(), TruncDiv(funds, b.asks[0].Price()))]
  {
    hide WellFormed, Unique;
    var s0 := Start(b, o, Some(funds));
    assert LiveRow(b.Queue(Sell)[0].row);
    PoisonedOnce(s0);
    LoopRunnable(s0);
    LoopOfTwo(s0);
  }

  lemma OneAsk(b: Book, ask: OrderRow)
    requires Healthy(b) && b.asks == [] && LiveRow(ask) && ask.side.Sell? && ask.typ.Limit? && ask.id !in b.locations
    ensures Healthy(AddResting(b, ask)) && AddResting(b, ask).asks == [Entry(b.next, ask)]
      && AddResting(b, ask).bids == b.bids
  {
    AddRestingHealthy(b, ask);
  }

  // ---------- two orders that meet exactly ----------

  /** A LIMIT order that meets one order of exactly its size: one trade, and both are off the book. */
  lemma MeetsEqual(b: Book, o: OrderRow)
    requires Healthy(b) && LiveRow(o) && o.typ.Limit? && |b.Queue(Opposite(o.side))| == 1
    requires
      var m := b.Queue(Opposite(o.side))[0];
      WithinLimit(o, m.Price()) && o.Remaining() == m.row.Remaining()
    ensures Runnable(Start(b, o, None))
    ensures
      var other := b.Queue(Opposite(o.side))[0];
      var m := Match(b, o, None);
      && m.state.trades == [TradeOf(o, other.row, other.Price(), o.Remaining())] && m.cancelledQuantity == 0
      && !m.rested
      && m.state.makers == [Entry(other.token, FillRow(other.row, o.Remaining()))]
      && m.state.incoming == FillRow(o, o.Remaining())
      && m.state.book == b.WithQueue(Opposite(o.side), []).(locations := b.locations - {other.row.id})
      && Healthy(m.state.book)
  {
    hide WellFormed, Unique;
    var s0 := Start(b, o, None);
    var other := s0.Opp()[0];
    assert LiveRow(b.Queue(Opposite(o.side))[0].row);
    FrontIsPriced(b, Opposite(o.side));
    assert Quantity(o, other.row, None, other.Price()) == o.Remaining();
    ExecuteBook(s0, o.Remaining());
    assert AfterTrade(s0.Opp(), o.Remaining()) == [];
    var filled := Entry(other.token, FillRow(other.row, o.Remaining()));
    assert Touch([], filled) == [filled];
    assert Step(s0) == Some(Execute(s0, o.Remaining()));
    StepRunnable(s0);
    LoopOfTwo(s0);
  }

  lemma FrontIsPriced(b: Book, side: Side)
    requires Healthy(b) && b.Queue(side) != []
    ensures b.Queue(side)[0].Price() > 0
  {
    assert SideOk(side, b.Queue(side), b.next);
    assert RestsOn(side, b.Queue(side)[0].row);
  }

  /** The wallets once the buyer has paid for a trade out of its reservation and the seller has delivered. */
  function Exchanged(ws: WalletTable, t: Trade): WalletTable
    requires t.buyer in ws && t.seller in ws
  {
    var w := ws[t.buyer];
    var paid := ws[t.buyer := w.(reservedBrl := w.reservedBrl - t.price * t.quantity, vib := w.vib + t.quantity)];
    var v := paid[t.seller];
    paid[t.seller := v.(reservedVib := v.reservedVib - t.quantity, brl := v.brl + t.price * t.quantity)]
  }

  /** Such an entry with both orders at one price, and their users not necessarily different: it is applied
      if and only if both reservations cover the trade. */
  lemma MeetsApplied(t: Tables, b: Book, e: Event)
    requires Healthy(b) && e.NewOrder? && ValidEvent(e) && e.typ.Limit? && |b.Queue(Opposite(e.side))| == 1
    requires
      var other := b.Queue(Opposite(e.side))[0].row;
      && other.price == e.price && other.Remaining() == e.quantity
      && e.user in t.wallets && other.user in t.wallets && e.id in t.orders && other.id in t.orders
    ensures
      var other, r := b.Queue(Opposite(e.side))[0].row, ApplyNew(t, b, e);
      var tr := TradeOf(Arriving(e), other, e.price.value, e.quantity);
      && r.book == b.WithQueue(Opposite(e.side), []).(locations := b.locations - {other.id}) && Healthy(r.book)
      && (r.Applied? <==>
            && tr.price * tr.quantity <= t.wallets[tr.buyer].reservedBrl
            && tr.quantity <= t.wallets[tr.seller].reservedVib)
      && (r.Applied? ==>
            && r.tables.wallets == Exchanged(t.wallets, tr) && r.tables.trades == t.trades + [tr]
            && r.tables.orders.Keys == t.orders.Keys && r.tables.processed == t.processed
            && r.tables.entered == t.entered + {e.id}
            && r.tables.orders ==
              UpdateOrder(UpdateOrder(t.orders, FillRow(other, e.quantity)), FillRow(Arriving(e), e.quantity)))
  {
    hide WellFormed, Unique, Match, FillRow, UpdateOrders, Exchanged;
    var o := Arriving(e);
    MeetsEqual(b, o);
    FrontIsPriced(b, Opposite(e.side));
    var other := b.Queue(Opposite(e.side))[0];
    var tr := TradeOf(o, other.row, other.Price(), o.quantity);
    OneSettled(t.wallets, o, tr);
    UpdateOrdersSameRows(t.orders, Match(b, o, None).state.makers);
    OneUpdated(t.orders, Match(b, o, None).state.makers[0]);
  }

  lemma {:induction false} OneUpdated(orders: OrderTable, e: Entry)
    ensures UpdateOrders(orders, [e]) == UpdateOrder(orders, e.row)
  {
    assert [] + [e] == [e];
    UpdateOrdersSnoc(orders, [], e);
  }

  lemma {:induction false} OneSettled(ws: WalletTable, o: OrderRow, tr: Trade)
    requires o.typ.Limit? && o.price == Some(tr.price) && tr.price > 0 && tr.quantity > 0
    requires tr.buyer in ws && tr.seller in ws
    ensures
      SettleAll(ws, o, [tr]) ==
      if tr.price * tr.quantity <= ws[tr.buyer].reservedBrl && tr.quantity <= ws[tr.seller].reservedVib
      then Some(Exchanged(ws, tr)) else None
  {
    assert [tr] == [] + [tr];
    SettleAllSnoc(ws, o, [], tr);
    assert (o.price.value - tr.price) * tr.quantity == 0;
  }

  lemma RestingMore(b: Book, r: OrderRow)
    requires r.price.Some?
    ensures AddResting(b, r).Queue(Opposite(r.side)) == b.Queue(Opposite(r.side)) && r.id in AddResting(b, r).locations
  {
  }

  /** With nobody acceptable on the other side a LIMIT order just rests. */
  lemma RestsUnmatched(t: Tables, b: Book, e: Event)
    requires WellFormed(b) && e.NewOrder? && ValidEvent(e) && e.typ.Limit?
    requires b.Queue(Opposite(e.side)) == [] || !WithinLimit(Arriving(e), b.Queue(Opposite(e.side))[0].Price())
    ensures ApplyNew(t, b, e).Applied? && ApplyNew(t, b, e).book == AddResting(b, Arriving(e))
    ensures ApplyNew(t, b, e).tables.processed == t.processed && ApplyNew(t, b, e).tables.wallets == t.wallets
    ensures ApplyNew(t, b, e).tables.orders == UpdateOrder(t.orders, Arriving(e))
      && ApplyNew(t, b, e).tables.trades == t.trades
    ensures ApplyNew(t, b, e).tables.entered == t.entered + {e.id}
  {
    var o := Arriving(e);
    var s0 := Start(b, o, None);
    assert Step(s0) == None;
    assert Loop(s0) == s0;
    assert SettleAll(t.wallets, o, []) == Some(t.wallets);
  }
}
