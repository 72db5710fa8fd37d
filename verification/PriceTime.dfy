/** Matching on a healthy book is the greedy walk in price-time priority. */
module PriceTime {
  import opened Base
  import opened Orders
  import opened PriorityBook
  import opened Matching

  /** The book the matcher means to keep: no id twice, and every resting order live. */
  predicate Healthy(b: Book) {
    && WellFormed(b)
    && Unique(b)
    && (forall side, i :: 0 <= i < |b.Queue(side)| ==> LiveRow(b.Queue(side)[i].row))
  }

  predicate LiveRow(r: OrderRow) {
    r.Valid() && r.Live()
  }

  function Volume(ts: seq<Trade>): int {
    if ts == [] then 0 else Volume(ts[..|ts| - 1]) + ts[|ts| - 1].quantity
  }

  function Cost(ts: seq<Trade>): int {
    if ts == [] then 0 else Cost(ts[..|ts| - 1]) + ts[|ts| - 1].quantity * ts[|ts| - 1].price
  }

  lemma {:induction false} VolumeSnoc(ts: seq<Trade>, t: Trade)
    ensures Volume(ts + [t]) == Volume(ts) + t.quantity
    ensures Cost(ts + [t]) == Cost(ts) + t.quantity * t.price
  {
    assert (ts + [t])[..|ts|] == ts;
  }

  /** The one input on which the engine emits a trade of negative quantity: a BUY MARKET whose
      funds are at or below minus the best ask. */
  predicate Poisoned(s: State) {
    IsBuyMarket(s.incoming) && s.funds.Some? && s.Opp() != [] && s.incoming.Remaining() > 0
    && s.funds.value <= -s.Opp()[0].Price()
  }

  predicate Startable(s0: State) {
    && Healthy(s0.book)
    && LiveRow(s0.incoming)
    && s0.trades == [] && s0.makers == []
    && !Poisoned(s0)
  }

  // ---------- single-step facts about a healthy book ----------

  /** The front order's id points at the front. */
  lemma HeadIsPointedAt(b: Book, side: Side)
    requires Unique(b) && b.Queue(side) != []
    ensures
      var e := b.Queue(side)[0];
      e.row.id in b.locations && b.locations[e.row.id] == Location(side, e.Price(), e.token)
    ensures Without(b.Queue(side), b.Queue(side)[0].token) == b.Queue(side)[1..]
  {
    assert IndexOf(b.Queue(side), b.Queue(side)[0].token) == 0;
  }

  lemma TailUnique(b: Book, b': Book, side: Side)
    requires WellFormed(b) && Unique(b) && b.Queue(side) != []
    requires b' == b.WithQueue(side, b.Queue(side)[1..]).(locations := b.locations - {b.Queue(side)[0].row.id})
    ensures Unique(b')
  {
    hide LocationsOk, RestsOn, Sorted;
    assert SideOk(side, b.Queue(side), b.next);
    var e := b.Queue(side)[0];
    forall sd, i | 0 <= i < |b'.Queue(sd)|
      ensures b'.Queue(sd)[i].row.id in b'.locations
      ensures b'.locations[b'.Queue(sd)[i].row.id] == Location(sd, b'.Queue(sd)[i].Price(), b'.Queue(sd)[i].token)
    {
      var j := if sd == side then i + 1 else i;
      var f := b.Queue(sd)[j];
      assert b'.Queue(sd)[i] == f;
      assert b.locations[f.row.id] == Location(sd, f.Price(), f.token)
        && b.locations[e.row.id] == Location(side, e.Price(), e.token);
    }
  }

  lemma RemoveHead(b: Book, side: Side)
    requires WellFormed(b) && Unique(b) && b.Queue(side) != []
    ensures
      var q := b.Queue(side);
      var b' := RemoveFront(b, q[0].row.id, side, q[0].Price());
      && b' == b.WithQueue(side, q[1..]).(locations := b.locations - {q[0].row.id})
      && Unique(b')
  {
    hide WellFormed, Unique, Without;
    HeadIsPointedAt(b, side);
    TailUnique(b, RemoveFront(b, b.Queue(side)[0].row.id, side, b.Queue(side)[0].Price()), side);
  }

  lemma FillHeadHealthy(b: Book, side: Side, qty: int)
    requires Healthy(b) && b.Queue(side) != []
    requires 0 < qty < b.Queue(side)[0].row.Remaining()
    ensures
      var q := b.Queue(side);
      Healthy(b.WithQueue(side, [Entry(q[0].token, FillRow(q[0].row, qty))] + q[1..]))
  {
    hide WellFormed;
    var q := b.Queue(side);
    var maker := Entry(q[0].token, FillRow(q[0].row, qty));
    var b' := b.WithQueue(side, [maker] + q[1..]);
    HeadFillKeepsBook(b, side, qty);
    forall sd, i | 0 <= i < |b'.Queue(sd)|
      ensures LiveRow(b'.Queue(sd)[i].row)
      ensures b'.Queue(sd)[i].row.id in b'.locations
      ensures b'.locations[b'.Queue(sd)[i].row.id] == Location(sd, b'.Queue(sd)[i].Price(), b'.Queue(sd)[i].token)
    {
      var e := b.Queue(sd)[i];
      assert LiveRow(e.row) && b.locations[e.row.id] == Location(sd, e.Price(), e.token);
    }
  }

  lemma FillHeadUnique(b: Book, side: Side, qty: int)
    requires WellFormed(b) && Unique(b) && b.Queue(side) != []
    ensures
      var q := b.Queue(side);
      Unique(b.WithQueue(side, [Entry(q[0].token, FillRow(q[0].row, qty))] + q[1..]))
  {
    var q := b.Queue(side);
    var maker := Entry(q[0].token, FillRow(q[0].row, qty));
    var b' := b.WithQueue(side, [maker] + q[1..]);
    forall sd, i | 0 <= i < |b'.Queue(sd)|
      ensures b'.Queue(sd)[i].row.id in b'.locations
      ensures b'.locations[b'.Queue(sd)[i].row.id] == Location(sd, b'.Queue(sd)[i].Price(), b'.Queue(sd)[i].token)
    {
      var e := b.Queue(sd)[i];
      assert b.locations[e.row.id] == Location(sd, e.Price(), e.token);
    }
  }

  /** A maker that is used up leaves the book and takes nothing else with it. */
  lemma ConsumeHead(b: Book, side: Side)
    requires Healthy(b) && b.Queue(side) != []
    ensures
      var q := b.Queue(side);
      var mid := b.WithQueue(side, [Entry(q[0].token, FillRow(q[0].row, q[0].row.Remaining()))] + q[1..]);
      var b' := RemoveFront(mid, q[0].row.id, side, q[0].Price());
      && b' == b.WithQueue(side, q[1..]).(locations := b.locations - {q[0].row.id})
      && Healthy(b')
  {
    var q := b.Queue(side);
    var maker := Entry(q[0].token, FillRow(q[0].row, q[0].row.Remaining()));
    var mid := b.WithQueue(side, [maker] + q[1..]);
    HeadFillKeepsBook(b, side, q[0].row.Remaining());
    FillHeadUnique(b, side, q[0].row.Remaining());
    RemoveHead(mid, side);
    RemoveFrontWellFormed(mid, maker.row.id, side, maker.Price());
    var b' := RemoveFront(mid, maker.row.id, side, maker.Price());
    assert mid.Queue(side)[1..] == q[1..];
    forall sd, i | 0 <= i < |b'.Queue(sd)| ensures LiveRow(b'.Queue(sd)[i].row) {
      var j := if sd == side then i + 1 else i;
      assert b'.Queue(sd)[i] == b.Queue(sd)[j];
    }
  }

  /** The front of the queue after a trade: the maker updated in place, or gone. */
  function AfterTrade(q: seq<Entry>, qty: int): seq<Entry>
    requires q != []
  {
    (if qty == q[0].row.Remaining() then [] else [Entry(q[0].token, FillRow(q[0].row, qty))]) + q[1..]
  }

  lemma ExecuteBook(s: State, qty: int)
    requires Healthy(s.book) && s.Opp() != []
    requires 0 < qty <= s.Opp()[0].row.Remaining()
    ensures Healthy(Execute(s, qty).book)
    ensures Execute(s, qty).book == s.book.WithQueue(Opposite(s.incoming.side), AfterTrade(s.Opp(), qty)).(
        locations := s.book.locations - (if qty == s.Opp()[0].row.Remaining() then {s.Opp()[0].row.id} else {}))
  {
    hide WellFormed, Unique, FillRow;
    var side := Opposite(s.incoming.side);
    if qty < s.Opp()[0].row.Remaining() {
      FillHeadHealthy(s.book, side, qty);
    } else {
      ConsumeHead(s.book, side);
    }
  }

  // ---------- the walk ----------

  /** The last trade so far left its maker with something to sell or buy. */
  predicate LastPartial(s: State) {
    |s.makers| > 0 && s.makers[|s.makers| - 1].row.Remaining() > 0
  }

  /** A LIMIT order never buys above its limit and never sells below it. */
  predicate WithinLimit(o: OrderRow, price: int) {
    && (o.typ.Limit? && o.side.Buy? ==> o.price.Some? && price <= o.price.value)
    && (o.typ.Limit? && o.side.Sell? ==> o.price.Some? && price >= o.price.value)
  }

  /** Trade number `i` is with the i-th maker of the original queue, at that maker's price. */
  predicate TradedWith(s0: State, s: State, i: nat)
    requires i < |s.trades| && i < |s0.Opp()| && i < |s.makers|
    requires s0.incoming.typ.Limit? ==> s0.incoming.price.Some?
  {
    var m := s0.Opp()[i];
    var t := s.trades[i];
    && t == TradeOf(s0.incoming, m.row, m.Price(), t.quantity)
    && WithinLimit(s0.incoming, m.Price())
    && 0 < t.quantity <= m.row.Remaining()
    && (i < |s.trades| - 1 ==> t.quantity == m.row.Remaining())
    && s.makers[i] == Entry(m.token, FillRow(m.row, t.quantity))
  }

  predicate Walked(s0: State, s: State)
    requires s0.incoming.typ.Limit? ==> s0.incoming.price.Some?
  {
    var n := |s.trades|;
    && n <= |s0.Opp()| && |s.makers| == n
    && (forall i :: 0 <= i < n ==> TradedWith(s0, s, i))
    && s.Opp() == (if LastPartial(s) then [s.makers[n - 1]] else []) + s0.Opp()[n..]
    && s.book.Queue(s0.incoming.side) == s0.book.Queue(s0.incoming.side)
  }

  predicate TakerAccounts(s0: State, s: State) {
    && s.incoming.SameTerms(s0.incoming)
    && s.incoming.Valid() && (s.incoming.Done() <==> s.incoming.Remaining() == 0)
    && s.incoming.filled == s0.incoming.filled + Volume(s.trades)
    && (s.trades == [] ==> s.incoming == s0.incoming)
    && s.funds ==
       (if IsBuyMarket(s0.incoming) && s0.funds.Some? then Some(s0.funds.value - Cost(s.trades)) else s0.funds)
    && (IsBuyMarket(s0.incoming) && s.funds.Some? && s.trades != [] ==> s.funds.value >= 0)
  }

  /** After a partial fill of a maker the taker is done or cannot afford one more unit. */
  predicate Stalled(s0: State, s: State)
    requires |s.trades| <= |s0.Opp()|
  {
    LastPartial(s) && |s.trades| > 0 ==>
      || s.incoming.Remaining() == 0
      || (IsBuyMarket(s.incoming) && s.funds.Some? && s.funds.value < s0.Opp()[|s.trades| - 1].Price())
  }

  predicate Progress(s0: State, s: State)
    requires s0.incoming.typ.Limit? ==> s0.incoming.price.Some?
  {
    && Runnable(s) && Healthy(s.book) && s.book.next == s0.book.next
    && Walked(s0, s)
    && TakerAccounts(s0, s)
    && Stalled(s0, s)
  }

  /** The quantity when funds, if they matter, are not negative. */
  lemma QuantityFacts(taker: OrderRow, maker: OrderRow, funds: Option<int>, price: int)
    requires price > 0 && taker.Remaining() > 0 && maker.Remaining() > 0
    requires IsBuyMarket(taker) && funds.Some? ==> funds.value >= 0
    ensures
      var qty := Quantity(taker, maker, funds, price);
      && 0 <= qty <= maker.Remaining() && qty <= taker.Remaining()
      && (IsBuyMarket(taker) && funds.Some? ==> 0 <= funds.value - qty * price)
      && (qty == maker.Remaining() || qty == taker.Remaining()
          || (IsBuyMarket(taker) && funds.Some? && funds.value - qty * price < price))
  {
    if IsBuyMarket(taker) && funds.Some? {
      var a := TruncDiv(funds.value, price);
      var qty := Quantity(taker, maker, funds, price);
      assert qty * price <= a * price by { assert qty <= a; }
    }
  }

  /** Funds below one unit in either direction buy nothing. */
  lemma NothingAffordable(taker: OrderRow, maker: OrderRow, funds: int, price: int)
    requires price > 0 && taker.Remaining() > 0 && maker.Remaining() > 0
    requires IsBuyMarket(taker) && -price < funds < price
    ensures Quantity(taker, maker, Some(funds), price) == 0
  {
    var a := TruncDiv(funds, price);
    assert a == 0;
  }

  /** A further step means the last maker was used up, and that a live maker is next. */
  lemma StepIsNext(s0: State, s: State)
    requires Startable(s0) && Progress(s0, s) && Step(s).Some?
    ensures !LastPartial(s) && |s.trades| < |s0.Opp()| && s.Opp() == s0.Opp()[|s.trades|..]
    ensures s.Opp() != [] && LiveRow(s.Opp()[0].row) && s.Opp()[0].Price() > 0
    ensures IsBuyMarket(s.incoming) && s.funds.Some? ==> s.funds.value >= 0
  {
    var m := s.Opp()[0];
    var n := |s.trades|;
    assert LiveRow(s.book.Queue(Opposite(s.incoming.side))[0].row);
    if IsBuyMarket(s.incoming) && s.funds.Some? {
      if LastPartial(s) {
        assert TradedWith(s0, s, n - 1);
        NothingAffordable(s.incoming, m.row, s.funds.value, m.Price());
        assert false;
      }
      if s.funds.value < 0 {
        assert s.Opp() == s0.Opp();
        NothingAffordable(s.incoming, m.row, s.funds.value, m.Price());
        assert false;
      }
    }
  }

  /** The next trade: of positive quantity, within what both orders and the funds allow, with a
      live maker that has not been touched before. */
  predicate GoodTrade(s: State, qty: int)
    requires s.incoming.typ.Limit? ==> s.incoming.price.Some?
  {
    && s.Opp() != [] && LiveRow(s.Opp()[0].row) && RestsOn(Opposite(s.incoming.side), s.Opp()[0].row)
    && LiveRow(s.incoming) && WithinLimit(s.incoming, s.Opp()[0].Price())
    && 0 < qty <= s.incoming.Remaining() && qty <= s.Opp()[0].row.Remaining()
    && (IsBuyMarket(s.incoming) && s.funds.Some? ==> 0 <= s.funds.value - qty * s.Opp()[0].Price())
    && Execute(s, qty).makers == s.makers + [Entry(s.Opp()[0].token, FillRow(s.Opp()[0].row, qty))]
  }

  lemma NextTrade(s0: State, s: State) returns (qty: int)
    requires Startable(s0) && Progress(s0, s) && Step(s).Some?
    ensures GoodTrade(s, qty) && Step(s).value == Execute(s, qty) && Healthy(s.book)
  {
    StepIsNext(s0, s);
    var m := s.Opp()[0];
    qty := Quantity(s.incoming, m.row, s.funds, m.Price());
    QuantityFacts(s.incoming, m.row, s.funds, m.Price());
    FreshMaker(s0, s, qty);
  }

  lemma StepProgress(s0: State, s: State)
    requires Startable(s0) && Progress(s0, s) && Step(s).Some?
    ensures Progress(s0, Step(s).value)
    ensures |Step(s).value.trades| == |s.trades| + 1
  {
    hide WellFormed, Unique;
    StepIsNext(s0, s);
    var m := s.Opp()[0];
    var qty := Quantity(s.incoming, m.row, s.funds, m.Price());
    QuantityFacts(s.incoming, m.row, s.funds, m.Price());
    StepRunnable(s);
    ExecuteBook(s, qty);
    FreshMaker(s0, s, qty);
    StepWalked(s0, s, qty);
    StepAccounts(s0, s, qty);
  }

  /** The next maker has not been touched before. */
  lemma FreshMaker(s0: State, s: State, qty: int)
    requires Startable(s0) && Walked(s0, s)
    requires |s.trades| < |s0.Opp()| && s.Opp() != [] && s.Opp()[0] == s0.Opp()[|s.trades|]
    ensures Execute(s, qty).makers == s.makers + [Entry(s.Opp()[0].token, FillRow(s.Opp()[0].row, qty))]
  {
    var m := s.Opp()[0];
    assert SideOk(Opposite(s0.incoming.side), s0.Opp(), s0.book.next);
    forall i | 0 <= i < |s.makers| ensures s.makers[i].token != m.token {
      assert TradedWith(s0, s, i);
    }
    var maker := Entry(m.token, FillRow(m.row, qty));
    assert Touch(s.makers, maker) == s.makers + [maker];
  }

  lemma StepAccounts(s0: State, s: State, qty: int)
    requires TakerAccounts(s0, s) && s.Opp() != [] && s.incoming.Remaining() > 0
    requires 0 < qty <= s.incoming.Remaining()
    requires IsBuyMarket(s.incoming) && s.funds.Some? ==> 0 <= s.funds.value - qty * s.Opp()[0].Price()
    ensures TakerAccounts(s0, Execute(s, qty))
  {
    var m := s.Opp()[0];
    VolumeSnoc(s.trades, TradeOf(s.incoming, m.row, m.Price(), qty));
  }

  /** The trades before a trade are as they were: their makers are used up. */
  lemma TradedStays(s0: State, s: State, s': State, i: nat)
    requires s0.incoming.typ.Limit? ==> s0.incoming.price.Some?
    requires i < |s.trades| <= |s0.Opp()| && |s.makers| == |s.trades| && TradedWith(s0, s, i) && !LastPartial(s)
    requires |s'.trades| == |s.trades| + 1 && s'.trades[..|s.trades|] == s.trades
    requires |s'.makers| == |s.makers| + 1 && s'.makers[..|s.makers|] == s.makers
    ensures TradedWith(s0, s', i)
  {
    hide WithinLimit, TradeOf;
    assert s'.trades[i] == s.trades[i] && s'.makers[i] == s.makers[i];
    if i == |s.trades| - 1 {
      assert s.makers[i].row.Remaining() <= 0;
    }
  }

  lemma StepWalked(s0: State, s: State, qty: int)
    requires s0.incoming.typ.Limit? ==> s0.incoming.price.Some?
    requires Walked(s0, s) && !LastPartial(s) && s.incoming.SameTerms(s0.incoming)
    requires s.Opp() != [] && |s.trades| < |s0.Opp()| && s.Opp() == s0.Opp()[|s.trades|..]
    requires WithinLimit(s.incoming, s.Opp()[0].Price())
    requires 0 < qty <= s.Opp()[0].row.Remaining()
    requires Execute(s, qty).makers == s.makers + [Entry(s.Opp()[0].token, FillRow(s.Opp()[0].row, qty))]
    requires Execute(s, qty).book.Queue(s.incoming.side) == s.book.Queue(s.incoming.side)
    requires Execute(s, qty).Opp() == AfterTrade(s.Opp(), qty)
    ensures Walked(s0, Execute(s, qty))
  {
    hide WithinLimit, TradedWith, RemoveFront;
    var n := |s.trades|;
    var s' := Execute(s, qty);
    var m := s0.Opp()[n];
    assert m == s.Opp()[0];
    assert s'.trades == s.trades + [TradeOf(s.incoming, m.row, m.Price(), qty)];
    forall i | 0 <= i < n + 1 ensures TradedWith(s0, s', i) {
      if i < n {
        TradedStays(s0, s, s', i);
      } else {
        TradedNext(s0, s, s', qty);
      }
    }
    assert s.Opp()[1..] == s0.Opp()[n + 1..];
    assert s'.Opp() == (if LastPartial(s') then [s'.makers[n]] else []) + s0.Opp()[n + 1..];
  }

  lemma TradedNext(s0: State, s: State, s': State, qty: int)
    requires s0.incoming.typ.Limit? ==> s0.incoming.price.Some?
    requires s.incoming.SameTerms(s0.incoming) && |s.trades| < |s0.Opp()| && |s.makers| == |s.trades|
    requires
      var m := s0.Opp()[|s.trades|];
      && WithinLimit(s.incoming, m.Price()) && 0 < qty <= m.row.Remaining()
      && s'.trades == s.trades + [TradeOf(s.incoming, m.row, m.Price(), qty)]
      && s'.makers == s.makers + [Entry(m.token, FillRow(m.row, qty))]
    ensures TradedWith(s0, s', |s.trades|)
  {
    hide FillRow;
  }

  lemma {:induction false} LoopProgress(s0: State, s: State)
    requires Startable(s0) && Progress(s0, s)
    ensures Progress(s0, Loop(s)) && Step(Loop(s)) == None
    decreases s.incoming.Remaining(), Debt(s)
  {
    if Step(s).Some? {
      StepRunnable(s);
      StepDecreases(s);
      StepProgress(s0, s);
      LoopProgress(s0, Step(s).value);
    }
  }

  lemma StartProgress(s0: State)
    requires Startable(s0)
    ensures Progress(s0, s0)
  {
    assert s0.Opp()[0..] == s0.Opp();
  }

  /** Why the loop was left. */
  predicate Exhausted(s: State)
    requires s.incoming.typ.Limit? ==> s.incoming.price.Some?
  {
    || s.incoming.Remaining() == 0
    || s.Opp() == []
    || !WithinLimit(s.incoming, s.Opp()[0].Price())
    || (IsBuyMarket(s.incoming) && s.funds.Some? && s.funds.value < s.Opp()[0].Price())
  }

  /** Main result on matching. From a healthy book, and unless the taker is poisoned, the trades
      are with a prefix of the opposite queue in price-time order, each maker once and at its own
      price, all but the last used up; what the taker gained and spent is the sum of the trades;
      and the loop stops only when the taker is done, nobody acceptable is left, or one more unit
      is not affordable. */
  lemma {:induction false} MatchIsPriceTimeWalk(s0: State)
    requires Startable(s0)
    ensures Runnable(s0)
    ensures Walked(s0, Loop(s0))
    ensures TakerAccounts(s0, Loop(s0))
    ensures Exhausted(Loop(s0))
    ensures Healthy(Loop(s0).book)
  {
    StartProgress(s0);
    LoopProgress(s0, s0);
    var s := Loop(s0);
    if s.incoming.Remaining() > 0 && s.Opp() != [] && WithinLimit(s.incoming, s.Opp()[0].Price()) {
      var m := s.Opp()[0];
      assert LiveRow(s.book.Queue(Opposite(s.incoming.side))[0].row);
      assert Quantity(s.incoming, m.row, s.funds, m.Price()) == 0;
      assert IsBuyMarket(s.incoming) && s.funds.Some?;
      var a := TruncDiv(s.funds.value, m.Price());
      assert a == 0;
    }
  }
}
