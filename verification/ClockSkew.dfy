/** Creation times need not follow arrival: the API stamps an order when it places it, the relay decides
    when it arrives. A disciplined run after which a rebuild puts two orders of one price the other way
    round. */
module ClockSkew {
  import opened Base
  import opened Orders
  import opened PriorityBook
  import opened PriceTime
  import opened Settlement
  import opened Placement
  import opened Consistency
  import opened Recovery
  import opened Exchange
  import opened CleanRuns
  import opened Histories
  import opened RoundTrip
  import opened Boundaries

  /** A SELL of one unit, as user 1 places it. */
  function OneUnit(id: OrderId, price: int): OrderRow {
    LimitRow(id, 1, Sell, price, 1)
  }

  /** One user with some units and an empty exchange. */
  predicate OneSeller(s: System) {
    Initial(s) && 1 in s.users && 1 in s.tables.wallets && s.tables.wallets[1].vib >= 4
  }

  /** Order 1 placed with a later stamp than order 2. */
  lemma TwoOffers(s0: System, price: int) returns (steps: seq<Action>, s: System)
    requires OneSeller(s0) && price > 0
    ensures After(s0, steps) == Some(s) && DisciplinedRun(s0, steps)
    ensures s.tables.orders == map[1 := OneUnit(1, price), 2 := OneUnit(2, price)] && s.created == map[1 := 2, 2 := 1]
    ensures s == s0.(tables := s0.tables.(wallets := s.tables.wallets, orders := s.tables.orders), created := s.created,
      outbox := s.outbox)
    ensures s.outbox == [OutboxRow(PlacedEvent(OneUnit(1, price)), false),
      OutboxRow(PlacedEvent(OneUnit(2, price)), false)]
  {
    hide Place, DisciplinedRun, After, Enabled, Next;
    var a1, a2 := PlaceOrder(Limited(1, Sell, price, 1), 1, 2), PlaceOrder(Limited(1, Sell, price, 1), 2, 1);
    assert After(s0, []) == Some(s0) && DisciplinedRun(s0, []) by { Nothing(s0); }
    LimitPlaced(s0, 1, 1, Sell, price, 1, 2);
    StepOn(s0, [], s0, a1);
    var s1 := Next(s0, a1);
    LimitPlaced(s1, 2, 1, Sell, price, 1, 1);
    StepOn(s0, [] + [a1], s1, a2);
    steps := [] + [a1] + [a2];
    s := Next(s1, a2);
  }

  /** And both on their way to the matcher, in the order of their placement. */
  lemma Underway(s0: System, price: int) returns (steps: seq<Action>, s: System)
    requires OneSeller(s0) && price > 0
    ensures After(s0, steps) == Some(s) && DisciplinedRun(s0, steps)
    ensures s.tables.orders == map[1 := OneUnit(1, price), 2 := OneUnit(2, price)] && s.created == map[1 := 2, 2 := 1]
    ensures s.tables.processed == {} && s.tables.entered == {} && s.book == EMPTY_BOOK && !s.dirty && s.control.Idle?
    ensures s.stream == [0, 1] && |s.outbox| == 2 && s.outbox[0].event == PlacedEvent(OneUnit(1, price))
      && s.outbox[1].event == PlacedEvent(OneUnit(2, price))
    ensures s.pending == {0, 1}
  {
    hide Place, DisciplinedRun, After, Listing, Recover, ApplyBatch;
    var past, s2 := TwoOffers(s0, price);
    StepOn(s0, past, s2, Publish(0));
    var s3 := Next(s2, Publish(0));
    StepOn(s0, past + [Publish(0)], s3, Publish(1));
    var s4 := Next(s3, Publish(1));
    StepOn(s0, past + [Publish(0)] + [Publish(1)], s4, Deliver(2));
    steps := past + [Publish(0)] + [Publish(1)] + [Deliver(2)];
    s := Next(s4, Deliver(2));
  }

  /** What the matcher makes of the two entries. */
  lemma BothRest(t: Tables, price: int) returns (r: Outcome)
    requires price > 0 && t.orders == map[1 := OneUnit(1, price), 2 := OneUnit(2, price)] && t.processed == {}
      && t.entered == {}
    ensures
      var ms := [Message(0, PlacedEvent(OneUnit(1, price))), Message(1, PlacedEvent(OneUnit(2, price)))];
      ValidMessages(ms) && r == ApplyBatch(t, EMPTY_BOOK, ms)
    ensures r.Applied? && r.tables.orders == t.orders && r.tables.entered == {1, 2}
    ensures r.book.asks == [Entry(0, OneUnit(1, price)), Entry(1, OneUnit(2, price))] && r.book.bids == []
  {
    hide ApplyBatch, ApplyNew, WellFormed, Unique;
    var ms := [Message(0, PlacedEvent(OneUnit(1, price))), Message(1, PlacedEvent(OneUnit(2, price)))];
    EmptyIsHealthy();
    RestsUnmatched(Mark(t, 0), EMPTY_BOOK, ms[0].event);
    OneAsk(EMPTY_BOOK, OneUnit(1, price));
    var r0 := ApplyEntry(t, EMPTY_BOOK, ms[0]);
    RestsUnmatched(Mark(r0.tables, 1), r0.book, ms[1].event);
    r := ApplyEntry(r0.tables, r0.book, ms[1]);
    SecondAsk(r0.book, price);
    TwoEntries(t, EMPTY_BOOK, ms);
  }

  lemma SecondAsk(b: Book, price: int)
    requires b.asks == [Entry(0, OneUnit(1, price))] && b.next == 1
    ensures AddResting(b, OneUnit(2, price)).asks == [Entry(0, OneUnit(1, price)), Entry(1, OneUnit(2, price))]
    ensures AddResting(b, OneUnit(2, price)).bids == b.bids
  {
    assert JoinAt(Sell, b.asks, price) == 1;
  }

  /** After this run the matcher has seen every open order and the book is clean, yet the listing of the
      open orders, oldest stamp first, has the two the other way round, and so has a rebuilt book. */
  lemma RebuildCanReorder(s0: System, price: int) returns (steps: seq<Action>, rows: seq<OrderRow>)
    requires OneSeller(s0) && price > 0
    ensures DisciplinedRun(s0, steps) && After(s0, steps).Some?
    ensures
      var s := After(s0, steps).value;
      && !s.dirty && Quiescent(s.tables) && Listing(s.tables.orders, s.created, rows)
      && !CreatedAsQueued(s.book, s.created) && !ListedAsQueued(s.book, rows) && !SameQueues(Recover(rows), s.book)
  {
    hide DisciplinedRun, After, ApplyBatch, WellFormed, Recover;
    var past, s := Underway(s0, price);
    var r := BothRest(s.tables, price);
    EmptyIsHealthy();
    assert Messages(s, [0, 1]) ==
      [Message(0, PlacedEvent(OneUnit(1, price))), Message(1, PlacedEvent(OneUnit(2, price)))];
    StepOn(s0, past, s, Commit([0, 1]));
    steps := past + [Commit([0, 1])];
    rows := [OneUnit(2, price), OneUnit(1, price)];
    var s' := Next(s, Commit([0, 1]));
    Reordered(s', rows, price);
    NotSame(s0, steps, s', rows);
  }

  lemma Reordered(s: System, rows: seq<OrderRow>, price: int)
    requires rows == [OneUnit(2, price), OneUnit(1, price)]
    requires s.book.asks == [Entry(0, OneUnit(1, price)), Entry(1, OneUnit(2, price))]
    requires s.tables.orders == map[1 := OneUnit(1, price), 2 := OneUnit(2, price)] && s.created == map[1 := 2, 2 := 1]
    ensures Listing(s.tables.orders, s.created, rows) && !ListedAsQueued(s.book, rows)
      && !CreatedAsQueued(s.book, s.created)
  {
    assert OneUnit(1, price) == rows[1] && OneUnit(2, price) == rows[0];
    assert Position(rows, 2) == 0 && Position(rows, 1) == 1;
    var q := s.book.Queue(Sell);
    assert q[0].Price() == q[1].Price();
  }

  lemma {:induction false} NotSame(s0: System, steps: seq<Action>, s: System, rows: seq<OrderRow>)
    requires Initial(s0) && DisciplinedRun(s0, steps) && After(s0, steps) == Some(s) && !s.dirty && Quiescent(s.tables)
    requires Listing(s.tables.orders, s.created, rows) && !ListedAsQueued(s.book, rows)
    ensures !SameQueues(Recover(rows), s.book)
  {
    hide ListedAsQueued, SameQueues, Listing;
    CleanRunsStayClean(s0, steps);
    SeenIsOpen(s);
    RebuildIsExactIff(s.tables.orders, s.created, rows, s.book);
  }

  lemma SeenIsOpen(s: System)
    requires Clean(s) && !s.dirty && Quiescent(s.tables)
    ensures Healthy(s.book) && forall id :: Lookup(s.book, id) == OpenLimit(s.tables.orders, id)
    ensures forall j :: j in s.tables.orders ==> s.tables.orders[j].id == j && s.tables.orders[j].Valid()
  {
    forall id ensures Lookup(s.book, id) == OpenLimit(s.tables.orders, id) {
      assert Lookup(s.book, id) == Resting(s.tables.orders, s.tables.entered, id);
    }
  }
}
