/** The matching engine on the live book: the loop of Match with its in-place fills, proved to
    compute what Matching.Match says for every book, order and value of the funds. */
module Engine {
  import opened Base
  import opened Orders
  import opened PriorityBook
  import opened Matching
  import opened LevelHeaps
  import opened ElementQueues
  import opened OrderBooks

  ghost function StateOf(book: OrderBook, incoming: Order, funds: Option<int>, trades: seq<Trade>,
                         touched: seq<Element>): State
    reads book.Repr(), book.Resting(), incoming, OrdersOf(touched)
  {
    State(book.View(), incoming.Row(), funds, trades, Entries(touched))
  }

  /** The level and maker are those at the front of the opposite side. */
  ghost predicate Front(book: OrderBook, incoming: Order, lvl: Level, maker: Order)
    reads book.Repr()
  {
    var q := book.Plan().Queue(Opposite(incoming.side));
    && q != [] && lvl in book.SideOf(Opposite(incoming.side)).heap.levels
    && lvl.priceCents == q[0].Price() && maker == q[0].order
  }

  /** Fills both orders in place. */
  method FillOrders(book: OrderBook, incoming: Order, lvl: Level, maker: Order, qty: int)
    requires book.Valid() && incoming !in book.Resting() && Front(book, incoming, lvl, maker)
    modifies maker, incoming
    ensures book.Valid() && book.Plan() == old(book.Plan()) && book.Repr() == old(book.Repr())
      && Front(book, incoming, lvl, maker)
    ensures incoming.Row() == FillRow(old(incoming.Row()), qty) && maker.Row() == FillRow(old(maker.Row()), qty)
    ensures book.View() == WithHeadFilled(old(book.View()), Opposite(incoming.side), qty)
  {
    hide Image, LayoutOk, RestWhereTheyMay, SideValid, FillRow, WithHeadFilled;
    ghost var l := book.Plan();
    ghost var side := Opposite(incoming.side);
    book.HeadIsAlone(side);
    book.OrdersApart(l.Resting() + {incoming});
    var _ := incoming.Fill(qty);
    var _ := maker.Fill(qty);
    HeadRows(HeadFill(l, side, qty));
    HeadFilled(HeadFill(l, side, qty));
  }

  /** Fills both orders and takes a used-up maker off the book. */
  method FillBoth(book: OrderBook, incoming: Order, lvl: Level, maker: Order, qty: int)
    requires book.Valid() && incoming !in book.Resting() && Front(book, incoming, lvl, maker)
    modifies book.Repr(), maker, incoming
    ensures book.Valid() && incoming !in book.Resting() && book.Resting() <= old(book.Resting())
    ensures book.Repr() <= old(book.Repr()) && QueuesWithin(book.Plan(), old(book.Plan()))
    ensures incoming.Row() == FillRow(old(incoming.Row()), qty) && maker.Row() == FillRow(old(maker.Row()), qty)
    ensures book.View() ==
      (var b := WithHeadFilled(old(book.View()), Opposite(incoming.side), qty);
       if FillRow(old(maker.Row()), qty).Remaining() == 0
       then RemoveFront(b, maker.id, Opposite(incoming.side), lvl.priceCents) else b)
  {
    hide Image, LayoutOk, RestWhereTheyMay, SideValid, FillRow, WithHeadFilled, RemoveFront;
    FillOrders(book, incoming, lvl, maker, qty);
    book.OrdersApart({maker, incoming});
    if maker.Remaining() == 0 {
      book.RemoveFront(maker, Opposite(incoming.side), lvl);
    }
  }

  // ---------- the makers touched so far ----------

  predicate AllFrom(es: seq<Element>, pool: seq<Element>) {
    forall i :: 0 <= i < |es| ==> es[i] in pool
  }

  lemma SameElement(pool: seq<Element>, x: Element, y: Element)
    requires DistinctElements(pool) && x in pool && y in pool
    ensures (x.token == y.token <==> x == y) && (x.order == y.order <==> x == y)
  {
    var i :| 0 <= i < |pool| && pool[i] == x;
    var j :| 0 <= j < |pool| && pool[j] == y;
    assert i != j ==> pool[i].token != pool[j].token && pool[i].order != pool[j].order;
  }

  /** Element `e` being filled, after `touched`; all come from one queue of distinct elements. */
  datatype Touching = Touching(touched: seq<Element>, e: Element, pool: seq<Element>)

  /** A fill shows wherever the maker has been noted before. */
  twostate lemma TouchedNow(t: Touching)
    requires DistinctElements(t.pool)
    requires AllFrom(t.touched, t.pool)
    requires t.e in t.pool
    requires forall i :: 0 <= i < |t.touched| && t.touched[i].order != t.e.order ==> unchanged(t.touched[i].order)
    ensures Entries(t.touched + [t.e]) == Touch(old(Entries(t.touched)), Entry(t.e.token, t.e.order.Row()))
  {
    var es := Entries(t.touched + [t.e]);
    var r := Touch(old(Entries(t.touched)), Entry(t.e.token, t.e.order.Row()));
    forall i | 0 <= i < |es| ensures es[i] == r[i] {
      if i < |t.touched| {
        SameElement(t.pool, t.touched[i], t.e);
      }
    }
  }

  // ---------- one iteration ----------

  ghost predicate Ready(book: OrderBook, incoming: Order, touched: seq<Element>, pool: seq<Element>)
    reads book.Repr(), book.Resting(), incoming
  {
    && book.Valid() && incoming !in book.Resting() && incoming !in OrdersOf(pool)
    && DistinctElements(pool) && AllFrom(touched, pool) && AllFrom(book.Plan().Queue(Opposite(incoming.side)), pool)
  }

  lemma QueueIsOpp(book: OrderBook, incoming: Order, funds: Option<int>, trades: seq<Trade>, touched: seq<Element>)
    requires book.Valid()
    ensures StateOf(book, incoming, funds, trades, touched).Opp() == Entries(book.Plan().Queue(Opposite(incoming.side)))
    ensures WellFormed(book.View())
  {
    book.ViewWellFormed();
  }

  predicate MakersAre(makers: seq<Order>, touched: seq<Element>) {
    |makers| == |touched| && forall i :: 0 <= i < |makers| ==> makers[i] == touched[i].order
  }

  /** The parts of the state after a trade with the front maker. */
  lemma ExecuteParts(s: State, qty: int)
    requires s.Opp() != []
    ensures
      var side := Opposite(s.incoming.side);
      var m := s.Opp()[0];
      var b := WithHeadFilled(s.book, side, qty);
      Execute(s, qty) == State(
        if FillRow(m.row, qty).Remaining() == 0 then RemoveFront(b, m.row.id, side, m.Price()) else b,
        FillRow(s.incoming, qty),
        if IsBuyMarket(s.incoming) && s.funds.Some? then Some(s.funds.value - qty * m.Price()) else s.funds,
        s.trades + [TradeOf(s.incoming, m.row, m.Price(), qty)],
        Touch(s.makers, Entry(m.token, FillRow(m.row, qty))))
  {
  }

  /** The decisions of one iteration: a level, its front order and a quantity to trade, or no
      level when the loop is to be left. */
  method Decide(book: OrderBook, incoming: Order, funds: Option<int>, ghost trades: seq<Trade>,
                ghost touched: seq<Element>)
    returns (lvl: Level?, maker: Order?, qty: int)
    requires book.Valid() && Runnable(StateOf(book, incoming, funds, trades, touched)) && incoming.Remaining() > 0
    ensures lvl == null ==> Step(StateOf(book, incoming, funds, trades, touched)) == None
    ensures lvl != null ==>
      && StateOf(book, incoming, funds, trades, touched).Opp() != []
      && Step(StateOf(book, incoming, funds, trades, touched)) ==
        Some(Execute(StateOf(book, incoming, funds, trades, touched), qty))
      && maker != null && Front(book, incoming, lvl, maker)
  {
    hide Image, LayoutOk, RestWhereTheyMay, SideValid, FillRow, Touch, Execute;
    ghost var s := StateOf(book, incoming, funds, trades, touched);
    QueueIsOpp(book, incoming, funds, trades, touched);
    maker, qty := null, 0;
    lvl := book.BestOpposite(incoming.side);
    book.BestIsFront(incoming.side);
    if lvl == null {
      return;
    }
    assert RestsOn(Opposite(incoming.side), s.Opp()[0].row);
    if incoming.typ.Limit? {
      if incoming.side.Buy? && incoming.price.value < lvl.priceCents {
        return null, null, 0;
      }
      if incoming.side.Sell? && incoming.price.value > lvl.priceCents {
        return null, null, 0;
      }
    }
    maker := lvl.FrontOrder();
    qty := Min(incoming.Remaining(), maker.Remaining());
    if incoming.side.Buy? && incoming.typ.Market? && funds.Some? {
      var affordableQty := TruncDiv(funds.value, lvl.priceCents);
      if affordableQty < qty {
        qty := affordableQty;
      }
    }
    if qty == 0 {
      return null, null, 0;
    }
  }

  /** FillBoth, seen from the list of touched makers. */
  method FillNoted(book: OrderBook, incoming: Order, lvl: Level, maker: Order, qty: int,
                   ghost touched: seq<Element>, ghost pool: seq<Element>)
    requires Ready(book, incoming, touched, pool) && Front(book, incoming, lvl, maker)
    modifies book.Repr(), maker, incoming
    ensures Ready(book, incoming, touched + [old(book.Plan().Queue(Opposite(incoming.side)))[0]], pool)
    ensures book.Resting() <= old(book.Resting()) && book.Repr() <= old(book.Repr())
    ensures incoming.Row() == FillRow(old(incoming.Row()), qty)
    ensures book.View() ==
      (var b := WithHeadFilled(old(book.View()), Opposite(incoming.side), qty);
       if FillRow(old(maker.Row()), qty).Remaining() == 0
       then RemoveFront(b, maker.id, Opposite(incoming.side), lvl.priceCents) else b)
    ensures
      var head := old(book.Plan().Queue(Opposite(incoming.side)))[0];
      Entries(touched + [head]) == Touch(old(Entries(touched)), Entry(head.token, FillRow(old(maker.Row()), qty)))
  {
    hide Image, LayoutOk, RestWhereTheyMay, SideValid, FillRow, Touch, AllFrom, QueuesWithin, DistinctElements,
      WithHeadFilled, RemoveFront;
    ghost var l := book.Plan();
    ghost var head := l.Queue(Opposite(incoming.side))[0];
    PoolGrows(l.Queue(Opposite(incoming.side)), touched, pool);
    TouchedApart(touched, pool, incoming);
    book.OrdersApart(OrdersOf(touched));
    FillBoth(book, incoming, lvl, maker, qty);
    TouchedNow(Touching(touched, head, pool));
    PoolHolds(book.Plan(), l, Opposite(incoming.side), pool);
  }

  /** Trades with the front maker and notes the trade and the maker. */
  method TradeOnce(book: OrderBook, incoming: Order, funds: Option<int>, trades: seq<Trade>, makers: seq<Order>,
                   lvl: Level, maker: Order, matchQty: int, ghost touched: seq<Element>, ghost pool: seq<Element>)
    returns (funds': Option<int>, trades': seq<Trade>, makers': seq<Order>, ghost touched': seq<Element>)
    requires Ready(book, incoming, touched, pool) && MakersAre(makers, touched) && Front(book, incoming, lvl, maker)
    requires StateOf(book, incoming, funds, trades, touched).Opp() != []
    modifies book.Repr(), book.Resting(), incoming
    ensures Ready(book, incoming, touched', pool) && MakersAre(makers', touched')
    ensures book.Repr() <= old(book.Repr()) && book.Resting() <= old(book.Resting())
    ensures StateOf(book, incoming, funds', trades', touched') ==
      Execute(old(StateOf(book, incoming, funds, trades, touched)), matchQty)
  {
    hide Image, LayoutOk, RestWhereTheyMay, SideValid, FillRow, WellFormed, Touch, Execute, Ready, WithHeadFilled,
      TradeOf, RemoveFront;
    funds' := funds;
    ghost var s := StateOf(book, incoming, funds, trades, touched);
    HeadRow(book, incoming, lvl, maker, funds, trades, touched, pool);
    ExecuteParts(s, matchQty);
    trades' := trades + [TradeOf(incoming.Row(), maker.Row(), lvl.priceCents, matchQty)];
    if incoming.side.Buy? && incoming.typ.Market? && funds.Some? {
      funds' := Some(funds.value - matchQty * lvl.priceCents);
    }
    makers' := makers + [maker];
    touched' := touched + [book.Plan().Queue(Opposite(incoming.side))[0]];
    FillNoted(book, incoming, lvl, maker, matchQty, touched, pool);
  }

  lemma HeadRow(book: OrderBook, incoming: Order, lvl: Level, maker: Order, funds: Option<int>, trades: seq<Trade>,
                touched: seq<Element>, pool: seq<Element>)
    requires Ready(book, incoming, touched, pool) && Front(book, incoming, lvl, maker)
    ensures maker in book.Resting() && book.Plan().Queue(Opposite(incoming.side)) != []
    ensures
      var s := StateOf(book, incoming, funds, trades, touched);
      s.Opp() != [] && s.Opp()[0] == Entry(book.Plan().Queue(Opposite(incoming.side))[0].token, maker.Row())
      && s.Opp()[0].Price() == lvl.priceCents
  {
    QueueIsOpp(book, incoming, funds, trades, touched);
    book.HeadIsAlone(Opposite(incoming.side));
  }

  /** One iteration of the loop; `done` when the loop is left. */
  method MatchOnce(book: OrderBook, incoming: Order, funds: Option<int>, trades: seq<Trade>, makers: seq<Order>,
                   ghost touched: seq<Element>, ghost pool: seq<Element>)
    returns (done: bool, funds': Option<int>, trades': seq<Trade>, makers': seq<Order>, ghost touched': seq<Element>)
    requires Ready(book, incoming, touched, pool) && MakersAre(makers, touched)
    requires Runnable(StateOf(book, incoming, funds, trades, touched)) && incoming.Remaining() > 0
    modifies book.Repr(), book.Resting(), incoming
    ensures Ready(book, incoming, touched', pool) && MakersAre(makers', touched')
    ensures book.Repr() <= old(book.Repr()) && book.Resting() <= old(book.Resting())
    ensures done ==> Step(old(StateOf(book, incoming, funds, trades, touched))) == None
    ensures done ==>
      StateOf(book, incoming, funds', trades', touched') == old(StateOf(book, incoming, funds, trades, touched))
    ensures !done ==>
      Step(old(StateOf(book, incoming, funds, trades, touched))) ==
      Some(StateOf(book, incoming, funds', trades', touched'))
  {
    hide Image, LayoutOk, RestWhereTheyMay, SideValid, FillRow, WellFormed, Touch, Execute, Step, AllFrom, QueuesWithin,
      DistinctElements;
    funds', trades', makers', touched', done := funds, trades, makers, touched, true;
    ghost var s := StateOf(book, incoming, funds, trades, touched);
    var lvl, maker, matchQty := Decide(book, incoming, funds, trades, touched);
    assert StateOf(book, incoming, funds, trades, touched) == s;
    if lvl != null {
      done := false;
      funds', trades', makers', touched' :=
        TradeOnce(book, incoming, funds, trades, makers, lvl, maker, matchQty, touched, pool);
    }
  }

  lemma PoolGrows(q: seq<Element>, touched: seq<Element>, pool: seq<Element>)
    requires q != [] && AllFrom(q, pool) && AllFrom(touched, pool)
    ensures q[0] in pool && AllFrom(touched + [q[0]], pool)
  {
  }

  lemma TouchedApart(touched: seq<Element>, pool: seq<Element>, incoming: Order)
    requires AllFrom(touched, pool) && incoming !in OrdersOf(pool)
    ensures forall i :: 0 <= i < |touched| ==> touched[i].order != incoming && touched[i].order in OrdersOf(touched)
  {
    forall i | 0 <= i < |touched| ensures touched[i].order != incoming {
      var k :| 0 <= k < |pool| && pool[k] == touched[i];
      assert pool[k].order in OrdersOf(pool);
    }
  }

  lemma PoolHolds(l': Layout, l: Layout, side: Side, pool: seq<Element>)
    requires QueuesWithin(l', l) && AllFrom(l.Queue(side), pool)
    ensures AllFrom(l'.Queue(side), pool)
  {
    forall i | 0 <= i < |l'.Queue(side)| ensures l'.Queue(side)[i] in pool {
      assert l'.Queue(side)[i] in l.Queue(side);
    }
  }

  // ---------- the loop ----------

  /** The state is the given one, up to the heap that realises it. */
  lemma StartReady(book: OrderBook, incoming: Order, funds: Option<int>)
    requires book.Valid() && incoming !in book.Resting()
    requires incoming.Row().ValidTerms() && 0 <= incoming.filledQuantity <= incoming.quantity
    ensures Ready(book, incoming, [], book.Plan().Queue(Opposite(incoming.side)))
    ensures StateOf(book, incoming, funds, [], []) == Start(book.View(), incoming.Row(), funds)
    ensures Runnable(Start(book.View(), incoming.Row(), funds))
  {
    book.ViewWellFormed();
    assert Entries([]) == [];
  }

  /** Runs the loop of Match to its end. */
  method Walk(book: OrderBook, incoming: Order, availableFunds: Option<int>)
    returns (trades: seq<Trade>, makers: seq<Order>, funds: Option<int>, ghost touched: seq<Element>)
    requires book.Valid() && incoming !in book.Resting()
    requires incoming.Row().ValidTerms() && 0 <= incoming.filledQuantity <= incoming.quantity
    modifies book.Repr(), book.Resting(), incoming
    ensures book.Valid() && incoming !in book.Resting()
    ensures book.Repr() <= old(book.Repr()) && book.Resting() <= old(book.Resting())
    ensures MakersAre(makers, touched) && OrdersOf(touched) <= old(book.Resting())
    ensures Runnable(old(Start(book.View(), incoming.Row(), availableFunds)))
    ensures StateOf(book, incoming, funds, trades, touched) ==
      Loop(old(Start(book.View(), incoming.Row(), availableFunds)))
  {
    hide Image, LayoutOk, RestWhereTheyMay, SideValid, WellFormed, Step, Entries;
    trades, makers, funds, touched := [], [], availableFunds, [];
    ghost var pool := book.Plan().Queue(Opposite(incoming.side));
    ghost var s0 := Start(book.View(), incoming.Row(), availableFunds);
    StartReady(book, incoming, availableFunds);
    ghost var s := s0;
    while incoming.Remaining() > 0
      invariant Ready(book, incoming, touched, pool) && MakersAre(makers, touched)
      invariant book.Repr() <= old(book.Repr()) && book.Resting() <= old(book.Resting())
      invariant s == StateOf(book, incoming, funds, trades, touched) && Runnable(s) && Loop(s) == Loop(s0)
      decreases s.incoming.Remaining(), Debt(s)
    {
      var done;
      LoopUnfolds(s);
      done, funds, trades, makers, touched := MatchOnce(book, incoming, funds, trades, makers, touched, pool);
      if done {
        break;
      }
      s := StateOf(book, incoming, funds, trades, touched);
    }
    LoopEnds(s);
    TouchedRest(touched, pool);
  }

  lemma {:induction false} LoopUnfolds(s: State)
    requires Runnable(s)
    ensures Step(s).Some? ==>
      var s' := Step(s).value;
      && Runnable(s') && Loop(s) == Loop(s')
      && (s'.incoming.Remaining() < s.incoming.Remaining()
          || (s'.incoming.Remaining() == s.incoming.Remaining() && Debt(s') < Debt(s)))
    ensures Step(s).None? ==> Loop(s) == s
  {
    if Step(s).Some? {
      StepRunnable(s);
      StepDecreases(s);
    }
  }

  lemma {:induction false} LoopEnds(s: State)
    requires Runnable(s)
    ensures s.incoming.Remaining() <= 0 || Step(s).None? ==> Loop(s) == s
  {
  }

  lemma TouchedRest(touched: seq<Element>, pool: seq<Element>)
    requires AllFrom(touched, pool)
    ensures OrdersOf(touched) <= OrdersOf(pool)
  {
    forall i | 0 <= i < |touched| ensures touched[i].order in OrdersOf(pool) {
      var k :| 0 <= k < |pool| && pool[k] == touched[i];
      assert pool[k].order in OrdersOf(pool);
    }
  }

  /** What becomes of a remainder: a LIMIT order rests, a MARKET order is cancelled. The makers noted so far are
      not touched. */
  method Leave(book: OrderBook, incoming: Order, ghost touched: seq<Element>)
    returns (rested: bool, cancelledQuantity: int)
    requires book.Valid() && incoming !in book.Resting() && incoming !in OrdersOf(touched)
    requires incoming.Row().ValidTerms() && 0 <= incoming.filledQuantity <= incoming.quantity
    modifies book.Repr(), book.Resting(), incoming
    ensures book.Valid() && fresh(book.Repr() - old(book.Repr())) && book.Resting() <= old(book.Resting()) + {incoming}
    ensures rested == (old(incoming.Row()).Remaining() > 0 && incoming.typ.Limit?)
    ensures book.View() == if rested then PriorityBook.AddResting(old(book.View()), old(incoming.Row()))
      else old(book.View())
    ensures
      var open := old(incoming.Row()).Remaining() > 0 && incoming.typ.Market?;
      && incoming.Row() == (if open then CancelRow(old(incoming.Row())) else old(incoming.Row()))
      && cancelledQuantity == if open then old(incoming.Row()).Remaining() else 0
    ensures Entries(touched) == old(Entries(touched))
  {
    hide Image, LayoutOk, RestWhereTheyMay, SideValid, WellFormed, PriorityBook.AddResting;
    rested, cancelledQuantity := false, 0;
    book.OrdersApart(OrdersOf(touched) + book.Resting() + {incoming});
    assert forall i :: 0 <= i < |touched| ==> touched[i].order in OrdersOf(touched);
    if incoming.Remaining() > 0 {
      if incoming.typ.Limit? {
        book.AddResting(incoming);
        rested := true;
      } else {
        cancelledQuantity := incoming.Remaining();
        incoming.Cancel();
      }
    }
  }

  /** Price-time priority matching of an incoming order against the book, with the makers filled in
      place, a LIMIT remainder resting and a MARKET remainder cancelled. */
  method Match(book: OrderBook, incoming: Order, availableBuyerFundsCents: Option<int>)
    returns (trades: seq<Trade>, makers: seq<Order>, funds: Option<int>, rested: bool, cancelledQuantity: int,
             ghost touched: seq<Element>)
    requires book.Valid() && incoming !in book.Resting()
    requires incoming.Row().ValidTerms() && 0 <= incoming.filledQuantity <= incoming.quantity
    modifies book.Repr(), book.Resting(), incoming
    ensures book.Valid() && fresh(book.Repr() - old(book.Repr())) && book.Resting() <= old(book.Resting()) + {incoming}
    ensures MakersAre(makers, touched) && OrdersOf(touched) <= old(book.Resting())
    ensures Runnable(old(Start(book.View(), incoming.Row(), availableBuyerFundsCents)))
    ensures MatchResult(StateOf(book, incoming, funds, trades, touched), rested, cancelledQuantity) ==
      Matching.Match(old(book.View()), old(incoming.Row()), availableBuyerFundsCents)
  {
    hide Image, LayoutOk, RestWhereTheyMay, SideValid, WellFormed, Step, Entries, Loop, PriorityBook.AddResting,
      MakersAre;
    ghost var s0 := Start(book.View(), incoming.Row(), availableBuyerFundsCents);
    trades, makers, funds, touched := Walk(book, incoming, availableBuyerFundsCents);
    LoopRunnable(s0);
    rested, cancelledQuantity := Leave(book, incoming, touched);
  }
}
