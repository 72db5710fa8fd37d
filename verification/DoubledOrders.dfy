/** One order at two places of the book: how it gets there, and what comes of it. */
module DoubledOrders {
  import opened Base
  import opened Orders
  import opened PriorityBook
  import opened Matching
  import opened PriceTime
  import opened BookContents
  import opened Settlement
  import opened Consistency
  import opened Recovery
  import opened Boundaries

  // ---------- how it gets there ----------

  /** The element an id points at is still there after another order has come to rest. */
  lemma PointedAt(b: Book, r: OrderRow) returns (side: Side, j: nat)
    requires WellFormed(b) && RestsOn(r.side, r) && r.id in b.locations
    ensures j < |AddResting(b, r).Queue(side)| && AddResting(b, r).Queue(side)[j].row.id == r.id
    ensures AddResting(b, r).Queue(side)[j].token < b.next
  {
    hide Insert, SideOk;
    var loc := b.locations[r.id];
    side := loc.side;
    var q := b.Queue(side);
    assert PointsInto(q, r.id, loc);
    TokenBelow(b, r.id);
    if side == r.side {
      InsertKeepsPointers(r.side, q, Entry(b.next, r), r.id, loc);
    }
    var q' := AddResting(b, r).Queue(side);
    assert PointsInto(q', r.id, loc);
    j :| 0 <= j < |q'| && q'[j].token == loc.token && q'[j].row.id == r.id;
  }

  lemma TokenBelow(b: Book, id: OrderId)
    requires WellFormed(b) && id in b.locations
    ensures b.locations[id].token < b.next
  {
    var q := b.Queue(b.locations[id].side);
    assert PointsInto(q, id, b.locations[id]) && SideOk(b.locations[id].side, q, b.next);
  }

  /** Resting an order keeps every id at one place exactly when its id is not on the book yet. */
  lemma RestsOnceIff(b: Book, r: OrderRow)
    requires Healthy(b) && LiveRow(r) && r.typ.Limit?
    ensures Unique(AddResting(b, r)) <==> r.id !in b.locations
  {
    hide WellFormed, Insert;
    if r.id !in b.locations {
      AddRestingHealthy(b, r);
    } else {
      var side, j := PointedAt(b, r);
      assert AddResting(b, r).locations[r.id].token == b.next;
    }
  }

  /** The state in which the loop ends for a LIMIT order. */
  function Ended(b: Book, o: OrderRow): State
    requires Healthy(b) && LiveRow(o)
  {
    Loop(Start(b, o, None))
  }

  /** It is healthy, nobody who is left there would trade with the remainder, and the taker's side of the book
      is as it was. */
  lemma EndedWell(b: Book, o: OrderRow)
    requires Healthy(b) && LiveRow(o) && o.typ.Limit?
    ensures
      var s := Ended(b, o);
      && Healthy(s.book) && Runnable(s) && Step(s) == None && s.incoming.SameTerms(o) && s.incoming.id == o.id
      && s.book.Queue(o.side) == b.Queue(o.side) && s.book.locations.Keys <= b.locations.Keys
      && (s.incoming.Remaining() > 0 ==> LiveRow(s.incoming))
      && Match(b, o, None) == Finish(s) && (Match(b, o, None).rested <==> s.incoming.Remaining() > 0)
      && (s.incoming.Remaining() > 0 ==> s.Opp() == [] || !WithinLimit(o, s.Opp()[0].Price()))
  {
    hide WellFormed, Unique;
    var s0 := Start(b, o, None);
    MatchIsPriceTimeWalk(s0);
    LoopRunnable(s0);
    LoopLocations(s0);
  }

  /** The rest of an order whose id is on its own side of the book already. */
  lemma RestsBeside(b: Book, o: OrderRow)
    requires Healthy(b) && LiveRow(o) && o.typ.Limit?
    requires o.id in b.locations && b.locations[o.id].side == o.side
    ensures
      var m := Match(b, o, None);
      && Runnable(Start(b, o, None)) && (Unique(m.state.book) <==> !m.rested)
      && (!m.rested ==> Lookup(m.state.book, o.id) == Lookup(b, o.id))
  {
    hide WellFormed, Unique, AddResting, Lookup;
    EndedWell(b, o);
    var s := Ended(b, o);
    var k := PlaceOf(b, o.id);
    StillThere(b, s.book, o.side, k);
    if s.incoming.Remaining() > 0 {
      RestsOnceIff(s.book, s.incoming);
    }
  }

  lemma PlaceOf(b: Book, id: OrderId) returns (k: nat)
    requires Healthy(b) && id in b.locations
    ensures k < |b.Queue(b.locations[id].side)| && b.Queue(b.locations[id].side)[k].row.id == id
  {
    hide Unique, Lookup;
    LookupFinds(b, id);
    k := LookupIsEntry(b, id);
  }

  /** An entry of a side that is the same in both books. */
  lemma StillThere(b: Book, b': Book, side: Side, k: nat)
    requires Healthy(b) && Healthy(b') && b'.Queue(side) == b.Queue(side) && k < |b.Queue(side)|
    ensures b.Queue(side)[k].row.id in b'.locations
    ensures Lookup(b', b.Queue(side)[k].row.id) == Lookup(b, b.Queue(side)[k].row.id)
  {
    EntryIsLookup(b, side, k);
    EntryIsLookup(b', side, k);
    assert b'.locations[b.Queue(side)[k].row.id].side == side;
  }

  /** A placed order whose NEW_ORDER entry the matcher has yet to see is put on a rebuilt book all the same.
      Its entry then finds it there: what is left of the order rests a second time, and if nothing is left the
      first copy stays, as if nothing had been sold. */
  lemma {:induction false} RebuildThenReprocess(t: Tables, created: map<OrderId, int>, rows: seq<OrderRow>, e: Event)
    requires Listing(t.orders, created, rows) && e.NewOrder? && ValidEvent(e) && e.typ.Limit?
    requires forall j :: j in t.orders ==> t.orders[j].id == j && t.orders[j].Valid()
    requires e.id in t.orders && t.orders[e.id] == Arriving(e)
    ensures Healthy(Recover(rows)) && Runnable(Start(Recover(rows), Arriving(e), None))
    ensures
      var m := Match(Recover(rows), Arriving(e), None);
      && ApplyNew(t, Recover(rows), e).book == m.state.book
      && (Unique(m.state.book) <==> !m.rested)
      && (!m.rested ==> Lookup(m.state.book, e.id) == Some(Arriving(e)))
  {
    hide Recover, WellFormed, Unique, Listing, Lookup, Match;
    RecoveredContents(t.orders, created, rows, e.id);
    LookupSide(Recover(rows), e.id);
    RestsBeside(Recover(rows), Arriving(e));
  }

  lemma LookupSide(b: Book, id: OrderId)
    requires WellFormed(b) && Lookup(b, id).Some?
    ensures id in b.locations && b.locations[id].side == Lookup(b, id).value.side
  {
    LookupFinds(b, id);
  }

  /** A row published twice under two entry ids is applied twice: the guard knows entries, not orders. If the
      first copy has come to rest, the second always applies, trades with nobody, rests beside it, and has the
      row read as unfilled again. If the first was filled, the second is on the book once at most. */
  lemma {:induction false} DuplicateEntryAppliesTwice(t: Tables, b: Book, e: Event, first: nat, second: nat)
    requires Healthy(b) && e.NewOrder? && ValidEvent(e) && e.typ.Limit? && e.id !in b.locations
    requires first != second && first !in t.processed && second !in t.processed
    requires ApplyEntry(t, b, Message(first, e)).Applied?
    ensures Runnable(Start(b, Arriving(e), None))
    ensures
      var m := Match(b, Arriving(e), None);
      var r := ApplyEntry(t, b, Message(first, e));
      var r' := ApplyEntry(r.tables, r.book, Message(second, e));
      && (m.rested ==> r'.Applied? && r'.book == AddResting(r.book, Arriving(e)) && r'.tables.trades == r.tables.trades)
      && (m.rested && e.id in t.orders ==> e.id in r'.tables.orders && r'.tables.orders[e.id].filled == 0)
      && (Unique(r'.book) <==> !m.rested)
  {
    hide WellFormed, Unique, Match, AddResting, ApplyNew;
    var o := Arriving(e);
    EndedWell(b, o);
    FirstComesToRest(Mark(t, first), b, e);
    var r := ApplyEntry(t, b, Message(first, e));
    assert second !in r.tables.processed;
    if Match(b, o, None).rested {
      RestsAgain(Mark(r.tables, second), b, r.book, e);
    } else {
      SecondIsFirst(Mark(r.tables, second), r.book, e);
    }
  }

  predicate RemainderRests(b: Book, o: OrderRow, b': Book)
    requires Healthy(b) && LiveRow(o)
  {
    var s := Ended(b, o);
    s.incoming.Remaining() > 0 && s.incoming.price.Some? && b' == AddResting(s.book, s.incoming)
  }

  lemma FirstComesToRest(t: Tables, b: Book, e: Event)
    requires Healthy(b) && e.NewOrder? && ValidEvent(e) && e.typ.Limit? && e.id !in b.locations
      && ApplyNew(t, b, e).Applied?
    ensures LiveRow(Arriving(e)) && Runnable(Start(b, Arriving(e), None))
    ensures
      var m := Match(b, Arriving(e), None);
      var r := ApplyNew(t, b, e);
      && r.book == m.state.book && Healthy(r.book) && r.tables.processed == t.processed
      && r.tables.orders.Keys == t.orders.Keys
      && (m.rested ==> RemainderRests(b, Arriving(e), r.book))
      && (!m.rested ==> e.id !in r.book.locations)
  {
    hide WellFormed, Unique, AddResting, Match, ApplyNew;
    AppliedNew(t, b, e);
    CopyRests(b, Arriving(e));
  }

  lemma AppliedNew(t: Tables, b: Book, e: Event)
    requires WellFormed(b) && e.NewOrder? && ValidEvent(e) && e.typ.Limit? && ApplyNew(t, b, e).Applied?
    ensures
      var r := ApplyNew(t, b, e);
      && r.book == Match(b, Arriving(e), None).state.book && r.tables.processed == t.processed
      && r.tables.orders.Keys == t.orders.Keys
  {
    hide WellFormed, Match, SettleAll, ReleaseRemainder, UpdateOrders;
    UpdateOrdersSameRows(t.orders, Match(b, Arriving(e), None).state.makers);
  }

  /** What the matching of a fresh LIMIT order leaves on the book. */
  lemma CopyRests(b: Book, o: OrderRow)
    requires Healthy(b) && LiveRow(o) && o.typ.Limit? && o.id !in b.locations
    ensures
      var m := Match(b, o, None);
      && Healthy(m.state.book)
      && (m.rested ==> RemainderRests(b, o, m.state.book))
      && (!m.rested ==> o.id !in m.state.book.locations)
  {
    hide WellFormed, Unique, AddResting, Loop, Step;
    EndedWell(b, o);
    var s := Ended(b, o);
    if s.incoming.Remaining() > 0 { AddRestingHealthy(s.book, s.incoming); }
  }

  /** The second copy meets nobody: the first has taken all there was. */
  lemma RestsAgain(t: Tables, b: Book, b': Book, e: Event)
    requires Healthy(b) && e.NewOrder? && ValidEvent(e) && e.typ.Limit? && Healthy(b')
    requires RemainderRests(b, Arriving(e), b')
    ensures ApplyNew(t, b', e).Applied? && ApplyNew(t, b', e).book == AddResting(b', Arriving(e))
    ensures ApplyNew(t, b', e).tables.trades == t.trades
      && ApplyNew(t, b', e).tables.orders == UpdateOrder(t.orders, Arriving(e))
    ensures !Unique(ApplyNew(t, b', e).book)
  {
    hide WellFormed, Unique, AddResting;
    var o := Arriving(e);
    EndedWell(b, o);
    var s := Ended(b, o);
    RestingMore(s.book, s.incoming);
    RestsUnmatched(t, b', e);
    RestsOnceIff(b', o);
  }

  lemma SecondIsFirst(t: Tables, b: Book, e: Event)
    requires Healthy(b) && e.NewOrder? && ValidEvent(e) && e.typ.Limit? && e.id !in b.locations
    ensures Unique(ApplyNew(t, b, e).book)
  {
    hide WellFormed, Unique, Match, SettleAll, ReleaseRemainder, UpdateOrders;
    CopyRests(b, Arriving(e));
  }

  // ---------- what comes of it ----------

  /** The front of a side has nothing left. */
  predicate DeadFront(q: seq<Entry>) {
    q != [] && q[0].row.Remaining() == 0
  }

  /** Such a front is passed by nobody: an order that meets it trades nothing, and the front stays. The one
      exception is a BUY MARKET whose funds are at or below minus its price. */
  lemma DeadFrontBlocks(b: Book, o: OrderRow, funds: Option<int>)
    requires Runnable(Start(b, o, funds)) && DeadFront(b.Queue(Opposite(o.side))) && !Poisoned(Start(b, o, funds))
    ensures Match(b, o, funds).state.trades == []
    ensures Match(b, o, funds).state.book.Queue(Opposite(o.side)) == b.Queue(Opposite(o.side))
  {
    hide WellFormed;
    var s0 := Start(b, o, funds);
    StopsAtDeadFront(s0);
    if o.typ.Limit? && o.Remaining() > 0 { RestingMore(b, o); }
  }

  lemma {:induction false} StopsAtDeadFront(s: State)
    requires Runnable(s) && DeadFront(s.Opp()) && !Poisoned(s)
    ensures Step(s) == None && Loop(s) == s
  {
    var m := s.Opp()[0];
    assert RestsOn(Opposite(s.incoming.side), m.row);
    if IsBuyMarket(s.incoming) && s.funds.Some? && s.funds.value < 0 {
      var a := TruncDiv(s.funds.value, m.Price());
      assert s.incoming.Remaining() > 0 ==> a == 0;
    }
  }

  /** The id of the front points at another order of the same level. */
  predicate Doubled(b: Book, side: Side) {
    b.Queue(side) != [] &&
    var front := b.Queue(side)[0];
    && front.row.id in b.locations && b.locations[front.row.id].side == side
    && b.locations[front.row.id].price == front.Price() && b.locations[front.row.id].token != front.token
  }

  /** An order that rests a second time is doubled in this sense as soon as it is its turn: the older copy comes
      first, and the id points at the newer one. */
  lemma RestingAgainDoubles(b: Book, o: OrderRow)
    requires Healthy(b) && LiveRow(o) && o.typ.Limit? && Lookup(b, o.id).Some? && Lookup(b, o.id).value.SameTerms(o)
    requires AddResting(b, o).Queue(o.side)[0].row.id == o.id
    ensures Doubled(AddResting(b, o), o.side)
  {
    hide Unique, LocationsOk, DistinctTokens, Lookup;
    var k := LookupIsEntry(b, o.id);
    LookupFinds(b, o.id);
    var q := b.Queue(o.side);
    var j := JoinAt(o.side, q, o.price.value);
    assert SideOk(o.side, q, b.next) && q[k].Price() == o.price.value;
    assert j > k;
    assert AddResting(b, o).Queue(o.side)[0] == q[0];
    assert q[0].Price() == o.price.value by { SameIdSamePrice(b, o.side, o.id, 0, k); }
  }

  lemma SameIdSamePrice(b: Book, side: Side, id: OrderId, i: nat, k: nat)
    requires Healthy(b) && i < |b.Queue(side)| && k < |b.Queue(side)|
    requires b.Queue(side)[i].row.id == id && b.Queue(side)[k].row.id == id
    ensures b.Queue(side)[i].Price() == b.Queue(side)[k].Price()
  {
    hide WellFormed;
    assert b.locations[b.Queue(side)[i].row.id].price == b.Queue(side)[i].Price();
    assert b.locations[b.Queue(side)[k].row.id].price == b.Queue(side)[k].Price();
  }

  /** A doubled order is not sold twice. The taker that uses up the first copy takes the other one off the book,
      and the first stays at the front with nothing left: the taker's match ends there, and no later one gets
      past it. */
  lemma {:induction false} DoubledOrderBlocks(s: State)
    requires Runnable(s) && Doubled(s.book, Opposite(s.incoming.side)) && Step(s).Some?
    requires s.Opp()[0].Price() > 0
    requires Quantity(s.incoming, s.Opp()[0].row, s.funds, s.Opp()[0].Price()) == s.Opp()[0].row.Remaining() > 0
    ensures
      var m := s.Opp()[0];
      && Loop(s).trades == s.trades + [TradeOf(s.incoming, m.row, m.Price(), m.row.Remaining())]
      && DeadFront(Loop(s).Opp()) && Loop(s).Opp()[0].token == m.token && m.row.id !in Loop(s).book.locations
      && Loop(s).Opp() == Without([Entry(m.token, FillRow(m.row, m.row.Remaining()))] + s.Opp()[1..],
        s.book.locations[m.row.id].token)
  {
    var m := s.Opp()[0];
    var qty := m.row.Remaining();
    var s' := Execute(s, qty);
    assert Step(s) == Some(s');
    var loc := s.book.locations[m.row.id];
    var q := [Entry(m.token, FillRow(m.row, qty))] + s.Opp()[1..];
    assert s'.Opp() == Without(q, loc.token);
    assert IndexOf(q, loc.token) > 0;
    StepRunnable(s);
    StepDecreases(s);
    FundsLast(s, qty);
    StopsAtDeadFront(s');
  }

  lemma FundsLast(s: State, qty: int)
    requires s.Opp() != [] && s.Opp()[0].Price() > 0 && qty > 0
      && Quantity(s.incoming, s.Opp()[0].row, s.funds, s.Opp()[0].Price()) == qty
    ensures IsBuyMarket(s.incoming) && s.funds.Some? ==> Execute(s, qty).funds.value >= 0
  {
    if IsBuyMarket(s.incoming) && s.funds.Some? {
      var p := s.Opp()[0].Price();
      var a := TruncDiv(s.funds.value, p);
      assert qty * p <= a * p by { assert qty <= a; }
    }
  }
}
