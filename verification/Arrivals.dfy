/** What a NEW_ORDER entry does, in prices, quantities and wallet balances: what it may spend and at which
    prices, and why an order can be left with a remainder. */
module Arrivals {
  import opened Base
  import opened Orders
  import opened PriorityBook
  import opened Matching
  import opened PriceTime
  import opened Settlement
  import opened Consistency
  import opened Terms
  import opened Exchange
  import opened Safety
  import opened CleanRuns

  function Max(a: int, b: int): int {
    if a < b then b else a
  }

  /** The trades that a log has and a shorter one has not. */
  function Since(ts: seq<Trade>, us: seq<Trade>): seq<Trade> {
    if |ts| <= |us| then us[|ts|..] else []
  }

  /** Trades of an arriving order: each for a positive quantity, with the order on its own side, and never
      worse than its limit. */
  predicate FillsOf(e: Event, ts: seq<Trade>)
    requires e.NewOrder?
  {
    forall i :: 0 <= i < |ts| ==>
      && ts[i].quantity > 0
      && (e.side.Buy? ==> ts[i].buyOrder == e.id && ts[i].buyer == e.user)
      && (e.side.Sell? ==> ts[i].sellOrder == e.id && ts[i].seller == e.user)
      && (e.typ.Limit? && e.price.Some? && e.side.Buy? ==> ts[i].price <= e.price.value)
      && (e.typ.Limit? && e.price.Some? && e.side.Sell? ==> ts[i].price >= e.price.value)
  }

  /** The best prices first: a buyer's trades go up in price and a seller's down, and nobody left on the other side
      offers a better price than any of them. */
  predicate BestFirst(e: Event, ts: seq<Trade>, others: seq<Entry>)
    requires e.NewOrder?
  {
    && (forall i, j :: 0 <= i < j < |ts| ==>
         if e.side.Buy? then ts[i].price <= ts[j].price else ts[i].price >= ts[j].price)
    && (forall i, k :: 0 <= i < |ts| && 0 <= k < |others| ==>
         if e.side.Buy? then ts[i].price <= others[k].Price() else ts[i].price >= others[k].Price())
  }

  /** The reasons for which an arriving order can be left with a remainder, when it has spent `cost` out of
      `free`: nobody is left on the other side, the next order there is beyond the limit, or one more unit
      cannot be paid. */
  predicate NoMore(e: Event, others: seq<Entry>, free: int, cost: int)
    requires e.NewOrder?
  {
    || others == []
    || (e.typ.Limit? && e.price.Some? && e.side.Buy? && others[0].Price() > e.price.value)
    || (e.typ.Limit? && e.price.Some? && e.side.Sell? && others[0].Price() < e.price.value)
    || (e.typ.Market? && e.side.Buy? && free - cost < others[0].Price())
  }

  /** How the row of an arriving order reads in the end. A remainder of a LIMIT order stays open, one of a
      MARKET order is cancelled. */
  predicate RowAfter(e: Event, r: OrderRow, volume: int)
    requires e.NewOrder?
  {
    && r.filled == volume <= e.quantity
    && (volume == e.quantity ==> r.status.Filled?)
    && (volume < e.quantity && e.typ.Market? ==> r.status.Cancelled?)
    && (volume < e.quantity && e.typ.Limit? ==> r.status == if volume == 0 then Open else PartiallyFilled)
  }

  lemma WalkTrades(e: Event, s0: State, s: State)
    requires e.NewOrder? && s0.incoming == Arriving(e) && Arriving(e).ValidTerms()
    requires Walked(s0, s)
    ensures FillsOf(e, s.trades)
  {
    forall i | 0 <= i < |s.trades|
      ensures s.trades[i].quantity > 0 && WithinLimit(s0.incoming, s.trades[i].price)
      ensures s.trades[i] == TradeOf(s0.incoming, s0.Opp()[i].row, s.trades[i].price, s.trades[i].quantity)
    {
      assert TradedWith(s0, s, i);
    }
  }

  /** Whoever buys finds the cheapest offer first, and whoever sells the highest bid. */
  lemma QueueOrder(b: Book, taker: Side, i: nat, j: nat)
    requires WellFormed(b) && i <= j < |b.Queue(Opposite(taker))|
    ensures
      var q := b.Queue(Opposite(taker));
      if taker.Buy? then q[i].Price() <= q[j].Price() else q[i].Price() >= q[j].Price()
  {
    assert SideOk(Opposite(taker), b.Queue(Opposite(taker)), b.next);
  }

  lemma WalkPrices(s0: State, s: State, i: nat)
    requires s0.incoming.typ.Limit? ==> s0.incoming.price.Some?
    requires Walked(s0, s) && i < |s.trades|
    ensures s.trades[i].price == s0.Opp()[i].Price() && s.makers[i].Price() == s0.Opp()[i].Price()
  {
    assert TradedWith(s0, s, i);
  }

  /** What is left of the other side comes from its last used place on. */
  lemma WalkRest(s0: State, s: State, k: nat) returns (j: nat)
    requires s0.incoming.typ.Limit? ==> s0.incoming.price.Some?
    requires Walked(s0, s) && k < |s.Opp()|
    ensures |s.trades| <= j + 1 && j < |s0.Opp()| && s.Opp()[k].Price() == s0.Opp()[j].Price()
  {
    hide TradedWith;
    var n := |s.trades|;
    j := if LastPartial(s) then n - 1 + k else n + k;
    if LastPartial(s) {
      WalkPrices(s0, s, n - 1);
    }
  }

  lemma WalkOrder(e: Event, s0: State, s: State)
    requires e.NewOrder? && s0.incoming == Arriving(e) && Arriving(e).ValidTerms()
    requires WellFormed(s0.book) && Walked(s0, s)
    ensures BestFirst(e, s.trades, s.Opp())
  {
    hide WellFormed, Walked;
    var ts, others := s.trades, s.Opp();
    forall i, j | 0 <= i < j < |ts|
      ensures if e.side.Buy? then ts[i].price <= ts[j].price else ts[i].price >= ts[j].price
    {
      WalkPrices(s0, s, i);
      WalkPrices(s0, s, j);
      WalkWithin(s0, s);
      QueueOrder(s0.book, e.side, i, j);
    }
    forall i, k | 0 <= i < |ts| && 0 <= k < |others|
      ensures if e.side.Buy? then ts[i].price <= others[k].Price() else ts[i].price >= others[k].Price()
    {
      WalkPrices(s0, s, i);
      var j := WalkRest(s0, s, k);
      QueueOrder(s0.book, e.side, i, j);
    }
  }

  lemma WalkWithin(s0: State, s: State)
    requires s0.incoming.typ.Limit? ==> s0.incoming.price.Some?
    requires Walked(s0, s)
    ensures |s.trades| <= |s0.Opp()|
  {
  }

  lemma {:induction false} NoTrades()
    ensures Volume([]) == 0 && Cost([]) == 0
  {
  }

  lemma WalkSpends(e: Event, s0: State, s: State, free: int)
    requires e.NewOrder? && s0.incoming == Arriving(e) && s.incoming.SameTerms(s0.incoming)
    requires TakerAccounts(s0, s) && Exhausted(s) && (IsBuyMarket(s0.incoming) ==> s0.funds == Some(free))
    ensures s.incoming.filled == Volume(s.trades)
    ensures IsBuyMarket(s0.incoming) ==> Cost(s.trades) <= Max(0, free)
    ensures s.incoming.Remaining() > 0 ==> NoMore(e, s.Opp(), free, Cost(s.trades))
  {
    NoTrades();
  }

  lemma FinishKeeps(s: State)
    requires Runnable(s)
    ensures Finish(s).state.trades == s.trades && Finish(s).state.Opp() == s.Opp()
    ensures Finish(s).state.incoming.SameTerms(s.incoming) && Finish(s).state.incoming.filled == s.incoming.filled
  {
  }

  /** The end state of the loop is written to the tables. */
  lemma ArrivalWritten(t: Tables, b: Book, e: Event) returns (s: State)
    requires Consistent(t, b) && FirstArrival(t, e) && !PoisonedArrival(t, b, e)
    ensures ValidEvent(e) && e.user in t.wallets && Startable(StartOf(t, b, Arriving(e)))
    ensures Runnable(StartOf(t, b, Arriving(e))) && s == Loop(StartOf(t, b, Arriving(e))) && Runnable(s)
    ensures
      var r := ApplyNew(t, b, e);
      && r.Applied? && r.tables.trades == t.trades + s.trades && r.book == Finish(s).state.book
      && e.id in r.tables.orders && r.tables.orders[e.id] == Finish(s).state.incoming
  {
    hide WellFormed, Runnable, Healthy;
    var o := Arriving(e);
    var ws, orders;
    s, ws, orders := ArrivalLoop(t, b, e);
    FinishTables(t, o, s, ws, orders);
    ApplyNewIs(t, b, e, s, ws);
    ArrivalStarts(t, b, e);
    FinalOrdersAre(t, o, s, orders);
  }

  lemma RowWritten(e: Event, s0: State, s: State)
    requires e.NewOrder? && s0.incoming == Arriving(e) && Runnable(s) && TakerAccounts(s0, s)
    ensures RowAfter(e, Finish(s).state.incoming, Volume(s.trades))
  {
    NoTrades();
  }

  /** The outcome of an arriving order, in prices, quantities and balances. Its trades are of positive quantity and
      within its limit, and take the best prices there are. A BUY MARKET spends no more than the balance less the
      reservation, and nothing if that is negative. The order is filled by its trades, and is left with a
      remainder only if nobody is left on the other side, the next order there is beyond its limit, or the next
      unit costs more than the BUY MARKET has left. */
  predicate Arrived(t: Tables, e: Event, r: Outcome)
    requires e.NewOrder? && e.user in t.wallets
  {
    && r.Applied?
    && var ts := Since(t.trades, r.tables.trades);
       var others := r.book.Queue(Opposite(e.side));
       var free := t.wallets[e.user].brl - t.wallets[e.user].reservedBrl;
    && r.tables.trades == t.trades + ts && FillsOf(e, ts) && BestFirst(e, ts, others)
    && (e.side.Buy? && e.typ.Market? ==> Cost(ts) <= Max(0, free))
    && e.id in r.tables.orders && RowAfter(e, r.tables.orders[e.id], Volume(ts))
    && (Volume(ts) < e.quantity ==> NoMore(e, others, free, Cost(ts)))
  }

  /** This is what becomes of every first NEW_ORDER that is not poisoned. */
  lemma ArrivalOutcome(t: Tables, b: Book, e: Event)
    requires Consistent(t, b) && FirstArrival(t, e) && !PoisonedArrival(t, b, e)
    ensures ValidEvent(e) && e.user in t.wallets && Arrived(t, e, ApplyNew(t, b, e))
  {
    hide WellFormed, Walked, TakerAccounts, Exhausted, NoMore, FillsOf, BestFirst, Runnable, Healthy, Consistent,
      ApplyNew, RowAfter;
    var s := ArrivalWritten(t, b, e);
    var s0 := StartOf(t, b, Arriving(e));
    MatchIsPriceTimeWalk(s0);
    WalkTrades(e, s0, s);
    WalkOrder(e, s0, s);
    WalkSpends(e, s0, s, t.wallets[e.user].brl - t.wallets[e.user].reservedBrl);
    RowWritten(e, s0, s);
    FinishKeeps(s);
    assert (t.trades + s.trades)[|t.trades|..] == s.trades;
  }

  /** In every disciplined run with a book that agrees, so does an unprocessed NEW_ORDER entry, unless it is a BUY
      MARKET with balance less reservation at or below minus the best ask. */
  lemma {:induction false} EveryArrival(s0: System, steps: seq<Action>, entry: nat)
    requires Initial(s0) && DisciplinedRun(s0, steps) && After(s0, steps).Some?
    requires Trusted(After(s0, steps).value) && entry < |After(s0, steps).value.stream|
    requires
      var s := After(s0, steps).value;
      && entry !in s.tables.processed && EventAt(s, entry).NewOrder?
      && !PoisonedArrival(s.tables, s.book, EventAt(s, entry))
    ensures
      var s := After(s0, steps).value;
      var e := EventAt(s, entry);
      && WellFormed(s.book) && ValidEvent(e) && e.user in s.tables.wallets
      && Arrived(s.tables, e, ApplyEntry(s.tables, s.book, Message(entry, e)))
  {
    hide ApplyNew, WellFormed, FillsOf, BestFirst, RowAfter, NoMore, PoisonedArrival;
    CleanRunsStayClean(s0, steps);
    EntryArrives(After(s0, steps).value, entry);
  }

  lemma PoisonUnmarked(t: Tables, b: Book, e: Event, entry: nat)
    requires e.NewOrder?
    ensures PoisonedArrival(Mark(t, entry), b, e) <==> PoisonedArrival(t, b, e)
  {
  }

  lemma ArrivedUnmarked(t: Tables, e: Event, r: Outcome, entry: nat)
    requires e.NewOrder? && e.user in t.wallets && Arrived(Mark(t, entry), e, r)
    ensures Arrived(t, e, r)
  {
  }

  lemma EntryArrives(s: System, entry: nat)
    requires Clean(s) && Trusted(s) && entry < |s.stream| && entry !in s.tables.processed
    requires EventAt(s, entry).NewOrder? && !PoisonedArrival(s.tables, s.book, EventAt(s, entry))
    ensures
      var e := EventAt(s, entry);
      && WellFormed(s.book) && ValidEvent(e) && e.user in s.tables.wallets
      && Arrived(s.tables, e, ApplyEntry(s.tables, s.book, Message(entry, e)))
  {
    hide ApplyNew, ApplyCancel, WellFormed, Arrived, BookKnown, RowsInRange, DeliveryOk, EnteredOk, NewOnce,
      OneCopyEach, Healthy, View, TablesOk, RowsUncrossed, PoisonedArrival;
    var e := EventAt(s, entry);
    assert EventKnown(s.tables.orders, s.outbox[s.stream[entry]].event);
    IsFirstArrival(s, s.tables, entry);
    MarkConsistent(s.tables, s.book, entry);
    PoisonUnmarked(s.tables, s.book, e, entry);
    ArrivalOutcome(Mark(s.tables, entry), s.book, e);
    ArrivedUnmarked(s.tables, e, ApplyNew(Mark(s.tables, entry), s.book, e), entry);
  }
}
