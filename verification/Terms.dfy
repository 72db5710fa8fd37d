/** Whatever the matcher does, even on a book that has lost touch with the tables, every order it
    handles keeps the terms of its row, and filled quantities stay within bounds. */
module Terms {
  import opened Base
  import opened Orders
  import opened PriorityBook
  import opened Matching
  import opened Settlement
  import opened Consistency

  predicate RowKnown(orders: OrderTable, r: OrderRow) {
    r.id in orders && r.SameTerms(orders[r.id]) && 0 <= r.filled <= r.quantity
  }

  predicate QueueKnown(orders: OrderTable, q: seq<Entry>) {
    forall i :: 0 <= i < |q| ==> RowKnown(orders, q[i].row)
  }

  predicate BookKnown(orders: OrderTable, b: Book) {
    QueueKnown(orders, b.bids) && QueueKnown(orders, b.asks)
  }

  predicate RowsInRange(orders: OrderTable) {
    forall id :: id in orders ==>
      orders[id].id == id && orders[id].ValidTerms() && 0 <= orders[id].filled <= orders[id].quantity
  }

  lemma WithoutKnown(orders: OrderTable, q: seq<Entry>, token: nat)
    requires QueueKnown(orders, q)
    ensures QueueKnown(orders, Without(q, token))
  {
  }

  lemma InsertKnown(orders: OrderTable, side: Side, q: seq<Entry>, e: Entry)
    requires QueueKnown(orders, q) && RowKnown(orders, e.row)
    ensures QueueKnown(orders, Insert(side, q, e))
  {
  }

  lemma RemoveFrontKnown(orders: OrderTable, b: Book, id: OrderId, side: Side, price: int)
    requires BookKnown(orders, b)
    ensures BookKnown(orders, RemoveFront(b, id, side, price))
  {
    if id in b.locations {
      WithoutKnown(orders, b.Queue(side), b.locations[id].token);
    }
  }

  lemma ExecuteKnown(orders: OrderTable, s: State, qty: int)
    requires BookKnown(orders, s.book) && QueueKnown(orders, s.makers) && s.Opp() != []
    ensures BookKnown(orders, Execute(s, qty).book) && QueueKnown(orders, Execute(s, qty).makers)
  {
    var opp := s.Opp();
    var side := Opposite(s.incoming.side);
    var maker := Entry(opp[0].token, FillRow(opp[0].row, qty));
    assert RowKnown(orders, opp[0].row);
    var b := s.book.WithQueue(side, [maker] + opp[1..]);
    assert QueueKnown(orders, [maker] + opp[1..]);
    RemoveFrontKnown(orders, b, maker.row.id, side, opp[0].Price());
  }

  lemma {:induction false} LoopKnown(orders: OrderTable, s: State)
    requires Runnable(s) && BookKnown(orders, s.book) && QueueKnown(orders, s.makers)
    ensures BookKnown(orders, Loop(s).book) && QueueKnown(orders, Loop(s).makers)
    decreases s.incoming.Remaining(), Debt(s)
  {
    if Step(s).Some? {
      StepRunnable(s);
      StepDecreases(s);
      ExecuteKnown(orders, s, Quantity(s.incoming, s.Opp()[0].row, s.funds, s.Opp()[0].Price()));
      LoopKnown(orders, Step(s).value);
    }
  }

  lemma MatchKnown(orders: OrderTable, b: Book, o: OrderRow, funds: Option<int>)
    requires Runnable(Start(b, o, funds)) && BookKnown(orders, b) && RowKnown(orders, o)
    ensures
      var m := Match(b, o, funds).state;
      BookKnown(orders, m.book) && QueueKnown(orders, m.makers) && RowKnown(orders, m.incoming)
  {
    var s := Start(b, o, funds);
    LoopRunnable(s);
    LoopKnown(orders, s);
    var s' := Loop(s);
    if s'.incoming.Remaining() > 0 && o.typ.Limit? {
      InsertKnown(orders, o.side, s'.book.Queue(o.side), Entry(s'.book.next, s'.incoming));
    }
  }

  lemma UpdateInRange(orders: OrderTable, orders': OrderTable, r: OrderRow)
    requires RowsInRange(orders') && SameRows(orders, orders') && RowKnown(orders, r)
    ensures RowsInRange(UpdateOrder(orders', r)) && SameRows(orders, UpdateOrder(orders', r))
  {
  }

  lemma {:induction false} UpdatesInRange(orders: OrderTable, es: seq<Entry>)
    requires RowsInRange(orders) && QueueKnown(orders, es)
    ensures RowsInRange(UpdateOrders(orders, es)) && SameRows(orders, UpdateOrders(orders, es))
    decreases |es|
  {
    if es != [] {
      UpdatesInRange(orders, es[..|es| - 1]);
      UpdateInRange(orders, UpdateOrders(orders, es[..|es| - 1]), es[|es| - 1].row);
    }
  }

  /** Rows keep their terms and their ranges, and so does every order on the book. */
  predicate Kept(orders: OrderTable, r: Outcome) {
    BookKnown(orders, r.book) && (r.Applied? ==> RowsInRange(r.tables.orders) && SameRows(orders, r.tables.orders))
  }

  lemma NewKept(t: Tables, b: Book, e: Event)
    requires WellFormed(b) && BookKnown(t.orders, b) && RowsInRange(t.orders)
    requires e.NewOrder? && ValidEvent(e) && RowKnown(t.orders, Arriving(e))
    ensures Kept(t.orders, ApplyNew(t, b, e))
  {
    var o := Arriving(e);
    if IsBuyMarket(o) ==> o.user in t.wallets {
      var funds := FundsOf(t.wallets, o);
      MatchKnown(t.orders, b, o, funds);
      var m := Match(b, o, funds).state;
      UpdatesInRange(t.orders, m.makers);
      UpdateInRange(t.orders, UpdateOrders(t.orders, m.makers), m.incoming);
    }
  }

  lemma CancelKept(t: Tables, b: Book, id: OrderId)
    requires WellFormed(b) && BookKnown(t.orders, b) && RowsInRange(t.orders)
    ensures Kept(t.orders, ApplyCancel(t, b, id))
  {
    if id in b.locations {
      LookupFinds(b, id);
      var r := Lookup(b, id).value;
      RemoveFrontKnown(t.orders, b, id, b.locations[id].side, b.locations[id].price);
      assert QueueKnown(t.orders, b.Queue(b.locations[id].side));
      assert RowKnown(t.orders, r);
      UpdateInRange(t.orders, t.orders, CancelRow(r));
    }
  }

  lemma SameRowsKnown(orders: OrderTable, orders': OrderTable, b: Book)
    requires SameRows(orders, orders')
    ensures BookKnown(orders', b) <==> BookKnown(orders, b)
  {
    forall r: OrderRow ensures RowKnown(orders, r) <==> RowKnown(orders', r) {
    }
  }

  predicate EventKnown(orders: OrderTable, e: Event) {
    e.NewOrder? ==> RowKnown(orders, Arriving(e)) && Arriving(e).ValidTerms()
  }

  lemma SameRowsEvent(orders: OrderTable, orders': OrderTable, e: Event)
    requires SameRows(orders, orders') && EventKnown(orders, e)
    ensures EventKnown(orders', e)
  {
  }

  lemma EntryKept(t: Tables, b: Book, m: Message)
    requires WellFormed(b) && BookKnown(t.orders, b) && RowsInRange(t.orders) && EventKnown(t.orders, m.event)
    ensures ValidEvent(m.event) && Kept(t.orders, ApplyEntry(t, b, m))
  {
    if m.entry !in t.processed {
      match m.event
      case NewOrder(_, _, _, _, _, _) => NewKept(Mark(t, m.entry), b, m.event);
      case CancelOrder(id) => CancelKept(Mark(t, m.entry), b, id);
      case Skipped =>
    }
  }

  predicate MessagesKnown(orders: OrderTable, ms: seq<Message>) {
    forall i :: 0 <= i < |ms| ==> EventKnown(orders, ms[i].event)
  }

  lemma {:induction false} BatchKept(t: Tables, b: Book, ms: seq<Message>)
    requires WellFormed(b) && BookKnown(t.orders, b) && RowsInRange(t.orders) && MessagesKnown(t.orders, ms)
    ensures ValidMessages(ms) && Kept(t.orders, ApplyBatch(t, b, ms))
    decreases |ms|
  {
    if ms != [] {
      var pre := ms[..|ms| - 1];
      var m := ms[|ms| - 1];
      assert EventKnown(t.orders, m.event);
      assert MessagesKnown(t.orders, pre);
      BatchKept(t, b, pre);
      var r := ApplyBatch(t, b, pre);
      if r.Applied? {
        SameRowsKnown(t.orders, r.tables.orders, r.book);
        EntryKept(r.tables, r.book, m);
        SameRowsKnown(t.orders, r.tables.orders, ApplyEntry(r.tables, r.book, m).book);
      }
    }
  }
}
