/** Rebuilding the book from the tables gives the live book back, queue for queue, exactly when the
    rows of each price come in the order in which they queue. */
module RoundTrip {
  import opened Orders
  import opened PriorityBook
  import opened PriceTime
  import opened BookContents
  import opened Settlement
  import opened Consistency
  import opened Recovery
  import opened Exchange
  import opened CleanRuns

  function Rows(q: seq<Entry>): (rs: seq<OrderRow>)
    ensures |rs| == |q| && forall i :: 0 <= i < |q| ==> rs[i] == q[i].row
  {
    seq(|q|, i requires 0 <= i < |q| => q[i].row)
  }

  /** The two books hold the same orders in the same places of the same queues. */
  predicate SameQueues(a: Book, b: Book) {
    Rows(a.bids) == Rows(b.bids) && Rows(a.asks) == Rows(b.asks)
  }

  function Position(rows: seq<OrderRow>, id: OrderId): (k: nat)
    ensures k <= |rows| && (k < |rows| ==> rows[k].id == id)
    ensures forall i :: 0 <= i < k ==> rows[i].id != id
  {
    if rows == [] || rows[0].id == id then 0 else 1 + Position(rows[1..], id)
  }

  /** Priority on a side: the better price, and at one price the earlier place in the listing. */
  predicate Before(rows: seq<OrderRow>, side: Side, a: OrderRow, b: OrderRow) {
    Ahead(side, CentsOf(a.price), CentsOf(b.price))
      || (CentsOf(a.price) == CentsOf(b.price) && Position(rows, a.id) < Position(rows, b.id))
  }

  predicate InOrder(rows: seq<OrderRow>, side: Side, xs: seq<OrderRow>) {
    forall i, j :: 0 <= i < j < |xs| ==> Before(rows, side, xs[i], xs[j])
  }

  /** At each price the listing has the orders in the order in which they queue. */
  predicate ListedAsQueued(b: Book, rows: seq<OrderRow>) {
    forall side, i, j :: 0 <= i < j < |b.Queue(side)| && b.Queue(side)[i].Price() == b.Queue(side)[j].Price() ==>
      Position(rows, b.Queue(side)[i].row.id) < Position(rows, b.Queue(side)[j].row.id)
  }

  // ---------- one order, one sequence ----------

  /** Two lists in the same strict order with the same members are the same list. */
  lemma {:induction false} SameMembersSameOrder(rows: seq<OrderRow>, side: Side, xs: seq<OrderRow>, ys: seq<OrderRow>)
    requires InOrder(rows, side, xs) && InOrder(rows, side, ys) && forall r :: r in xs <==> r in ys
    ensures xs == ys
    decreases |xs|
  {
    EmptyTogether(xs, ys);
    if xs != [] {
      assert xs[0] in ys;
      var j :| 0 <= j < |ys| && ys[j] == xs[0];
      assert ys[0] in xs;
      var i :| 0 <= i < |xs| && xs[i] == ys[0];
      assert j == 0 || Before(rows, side, ys[0], ys[j]);
      assert i == 0 || Before(rows, side, xs[0], xs[i]);
      TailMembers(rows, side, xs, ys);
      TailMembers(rows, side, ys, xs);
      SameMembersSameOrder(rows, side, xs[1..], ys[1..]);
      assert xs == [xs[0]] + xs[1..] && ys == [ys[0]] + ys[1..];
    }
  }

  lemma EmptyTogether(xs: seq<OrderRow>, ys: seq<OrderRow>)
    requires forall r :: r in xs <==> r in ys
    ensures xs == [] <==> ys == []
  {
    if xs != [] { assert xs[0] in ys; }
    if ys != [] { assert ys[0] in xs; }
  }

  lemma TailMembers(rows: seq<OrderRow>, side: Side, xs: seq<OrderRow>, ys: seq<OrderRow>)
    requires xs != [] && ys != [] && xs[0] == ys[0] && InOrder(rows, side, xs) && forall r :: r in xs ==> r in ys
    ensures forall r :: r in xs[1..] ==> r in ys[1..]
  {
    forall r | r in xs[1..] ensures r in ys[1..] {
      var i :| 0 <= i < |xs[1..]| && xs[1..][i] == r;
      assert Before(rows, side, xs[0], xs[i + 1]);
      assert r in ys;
      var j :| 0 <= j < |ys| && ys[j] == r;
      assert j > 0 && ys[1..][j - 1] == r;
    }
  }

  // ---------- a rebuilt book queues in listing order ----------

  predicate DistinctIds(rows: seq<OrderRow>) {
    forall i, j :: 0 <= i < j < |rows| ==> rows[i].id != rows[j].id
  }

  lemma {:induction false} PositionAppend(rows: seq<OrderRow>, r: OrderRow, id: OrderId)
    ensures Position(rows + [r], id) ==
      if Position(rows, id) < |rows| then Position(rows, id) else if r.id == id then |rows| else |rows| + 1
    decreases |rows|
  {
    if rows == [] {
      assert Position([r][1..], id) == 0;
    } else {
      assert (rows + [r])[1..] == rows[1..] + [r];
      PositionAppend(rows[1..], r, id);
    }
  }

  lemma {:induction false} PositionOfMember(rows: seq<OrderRow>, r: OrderRow)
    requires r in rows
    ensures Position(rows, r.id) < |rows|
  {
    var i :| 0 <= i < |rows| && rows[i] == r;
  }

  lemma {:induction false} InsertInOrder(rows: seq<OrderRow>, side: Side, q: seq<Entry>, e: Entry)
    requires e.row.price.Some? && Sorted(side, q) && InOrder(rows, side, Rows(q))
    requires forall i :: 0 <= i < |q| ==> q[i].row.price.Some? && Position(rows, q[i].row.id) < Position(rows, e.row.id)
    ensures InOrder(rows, side, Rows(Insert(side, q, e)))
  {
    var k := JoinAt(side, q, e.Price());
    var q' := Insert(side, q, e);
    assert forall i :: 0 <= i < |q'| ==> q'[i] == if i < k then q[i] else if i == k then e else q[i - 1];
    var xs := Rows(q');
    forall i, j | 0 <= i < j < |xs| ensures Before(rows, side, xs[i], xs[j]) {
      if i != k && j != k {
        var i0, j0 := if i < k then i else i - 1, if j < k then j else j - 1;
        assert Before(rows, side, Rows(q)[i0], Rows(q)[j0]);
      } else if i == k && j > k + 1 {
        assert !Ahead(side, q[j - 1].Price(), q[k].Price());
      }
    }
  }

  lemma InsertMembers(rows: seq<OrderRow>, side: Side, q: seq<Entry>, e: Entry)
    requires e.row in rows && forall i :: 0 <= i < |q| ==> q[i].row in rows
    ensures forall i :: 0 <= i < |Insert(side, q, e)| ==> Insert(side, q, e)[i].row in rows
  {
  }

  lemma QueueIsSorted(b: Book, side: Side)
    requires Healthy(b)
    ensures Sorted(side, b.Queue(side)) && forall i :: 0 <= i < |b.Queue(side)| ==> b.Queue(side)[i].row.price.Some?
  {
    assert SideOk(side, b.Queue(side), b.next);
    assert forall i :: 0 <= i < |b.Queue(side)| ==> RestsOn(side, b.Queue(side)[i].row);
  }

  lemma {:induction false} RecoverInOrder(rows: seq<OrderRow>, side: Side)
    requires DistinctIds(rows) && forall i :: 0 <= i < |rows| ==> LiveRow(rows[i])
    ensures InOrder(rows, side, Rows(Recover(rows).Queue(side)))
    ensures forall i :: 0 <= i < |Recover(rows).Queue(side)| ==> Recover(rows).Queue(side)[i].row in rows
    decreases |rows|
  {
    hide Healthy, Before;
    if rows != [] {
      var pre, r := rows[..|rows| - 1], rows[|rows| - 1];
      assert rows == pre + [r];
      RecoverInOrder(pre, side);
      RecoverContents(pre, 0);
      QueueIsSorted(Recover(pre), side);
      var q := Recover(pre).Queue(side);
      KeptInOrder(pre, r, side, Rows(q));
      if r.typ.Limit? && r.side == side {
        PositionAppend(pre, r, r.id);
        forall i | 0 <= i < |q| ensures q[i].row.price.Some? && Position(rows, q[i].row.id) < |pre| {
          assert Rows(q)[i] == q[i].row;
        }
        InsertInOrder(rows, side, q, Entry(Recover(pre).next, r));
        InsertMembers(rows, side, q, Entry(Recover(pre).next, r));
      }
    }
  }

  lemma {:induction false} KeptInOrder(pre: seq<OrderRow>, r: OrderRow, side: Side, xs: seq<OrderRow>)
    requires InOrder(pre, side, xs) && forall i :: 0 <= i < |xs| ==> xs[i] in pre
    ensures InOrder(pre + [r], side, xs)
    ensures forall i :: 0 <= i < |xs| ==> xs[i] in pre + [r] && Position(pre + [r], xs[i].id) < |pre|
  {
    forall i | 0 <= i < |xs| ensures Position(pre + [r], xs[i].id) == Position(pre, xs[i].id) < |pre| {
      PositionOfMember(pre, xs[i]);
      PositionAppend(pre, r, xs[i].id);
    }
    forall i, j | 0 <= i < j < |xs| ensures Before(pre + [r], side, xs[i], xs[j]) {
      assert Before(pre, side, xs[i], xs[j]);
    }
  }

  // ---------- the round trip ----------

  lemma EntryMoves(a: Book, b: Book, side: Side, i: nat)
    requires Healthy(a) && Healthy(b) && i < |a.Queue(side)|
    requires Lookup(a, a.Queue(side)[i].row.id) == Lookup(b, a.Queue(side)[i].row.id)
    ensures a.Queue(side)[i].row in Rows(b.Queue(side))
  {
    hide Unique, LocationsOk;
    var r := a.Queue(side)[i].row;
    EntryIsLookup(a, side, i);
    var k := LookupIsEntry(b, r.id);
    SidesTell(b, b.locations[r.id].side, k);
    SidesTell(a, side, i);
    assert Rows(b.Queue(side))[k] == r;
  }

  lemma SidesTell(b: Book, side: Side, i: nat)
    requires Healthy(b) && i < |b.Queue(side)|
    ensures b.Queue(side)[i].row.side == side
  {
    assert SideOk(side, b.Queue(side), b.next);
    assert RestsOn(side, b.Queue(side)[i].row);
  }

  lemma SameMembers(a: Book, b: Book, side: Side)
    requires Healthy(a) && Healthy(b) && forall id :: Lookup(a, id) == Lookup(b, id)
    ensures forall r :: r in Rows(a.Queue(side)) ==> r in Rows(b.Queue(side))
  {
    hide Healthy, Lookup;
    forall r | r in Rows(a.Queue(side)) ensures r in Rows(b.Queue(side)) {
      var i :| 0 <= i < |a.Queue(side)| && a.Queue(side)[i].row == r;
      assert Lookup(a, r.id) == Lookup(b, r.id);
      EntryMoves(a, b, side, i);
    }
  }

  lemma {:induction false} ListedInOrder(b: Book, rows: seq<OrderRow>, side: Side)
    requires WellFormed(b)
    ensures InOrder(rows, side, Rows(b.Queue(side))) <==>
      forall i, j :: 0 <= i < j < |b.Queue(side)| && b.Queue(side)[i].Price() == b.Queue(side)[j].Price() ==>
        Position(rows, b.Queue(side)[i].row.id) < Position(rows, b.Queue(side)[j].row.id)
  {
    var q := b.Queue(side);
    assert SideOk(side, q, b.next);
    var xs := Rows(q);
    forall i, j | 0 <= i < j < |q|
      ensures Before(rows, side, xs[i], xs[j]) <==>
        (q[i].Price() == q[j].Price() ==> Position(rows, q[i].row.id) < Position(rows, q[j].row.id))
    {
      assert !Ahead(side, q[j].Price(), q[i].Price()) && CentsOf(xs[i].price) == q[i].Price()
        && CentsOf(xs[j].price) == q[j].Price();
    }
  }

  /** The rebuilt book is the live one, level by level and in FIFO order, if and only if the listing
      has the orders of each price in the order in which they queue. */
  lemma {:induction false} RebuildIsExactIff(orders: OrderTable, created: map<OrderId, int>, rows: seq<OrderRow>,
                                             b: Book)
    requires Listing(orders, created, rows) && forall j :: j in orders ==> orders[j].id == j && orders[j].Valid()
    requires Healthy(b) && forall id :: Lookup(b, id) == OpenLimit(orders, id)
    ensures SameQueues(Recover(rows), b) <==> ListedAsQueued(b, rows)
  {
    var a := Recover(rows);
    RecoveredContents(orders, created, rows, 0);
    forall id ensures Lookup(a, id) == Lookup(b, id) {
      RecoveredContents(orders, created, rows, id);
    }
    forall i | 0 <= i < |rows| ensures LiveRow(rows[i]) {
      assert orders[rows[i].id] == rows[i];
    }
    forall side ensures Rows(a.Queue(side)) == Rows(b.Queue(side)) <==> InOrder(rows, side, Rows(b.Queue(side))) {
      RecoverInOrder(rows, side);
      SameMembers(a, b, side);
      SameMembers(b, a, side);
      if InOrder(rows, side, Rows(b.Queue(side))) {
        SameMembersSameOrder(rows, side, Rows(a.Queue(side)), Rows(b.Queue(side)));
      }
    }
    ListedInOrder(b, rows, Buy);
    ListedInOrder(b, rows, Sell);
    assert a.Queue(Buy) == a.bids && a.Queue(Sell) == a.asks && b.Queue(Buy) == b.bids && b.Queue(Sell) == b.asks;
    ListedSides(b, rows);
  }

  lemma ListedSides(b: Book, rows: seq<OrderRow>)
    requires WellFormed(b)
    ensures ListedAsQueued(b, rows) <==> InOrder(rows, Buy, Rows(b.bids)) && InOrder(rows, Sell, Rows(b.asks))
  {
    ListedInOrder(b, rows, Buy);
    ListedInOrder(b, rows, Sell);
    assert b.Queue(Buy) == b.bids && b.Queue(Sell) == b.asks;
  }

  /** Orders that queue at one price were created in that order. */
  predicate CreatedAsQueued(b: Book, created: map<OrderId, int>) {
    forall side, i, j :: 0 <= i < j < |b.Queue(side)| && b.Queue(side)[i].Price() == b.Queue(side)[j].Price() ==>
      var x, y := b.Queue(side)[i].row.id, b.Queue(side)[j].row.id;
      x in created && y in created && created[x] < created[y]
  }

  lemma CreatedIsListed(orders: OrderTable, created: map<OrderId, int>, rows: seq<OrderRow>, b: Book)
    requires Listing(orders, created, rows) && CreatedAsQueued(b, created)
    requires Healthy(b) && forall id :: Lookup(b, id) == OpenLimit(orders, id)
    ensures ListedAsQueued(b, rows)
  {
    hide WellFormed, Unique;
    forall side, i, j | 0 <= i < j < |b.Queue(side)| && b.Queue(side)[i].Price() == b.Queue(side)[j].Price()
      ensures Position(rows, b.Queue(side)[i].row.id) < Position(rows, b.Queue(side)[j].row.id)
    {
      var x, y := b.Queue(side)[i].row, b.Queue(side)[j].row;
      EntryIsLookup(b, side, i);
      EntryIsLookup(b, side, j);
      assert x in rows && y in rows;
      ListedPair(orders, created, rows, x, y);
    }
  }

  lemma {:induction false} ListedPair(orders: OrderTable, created: map<OrderId, int>, rows: seq<OrderRow>, x: OrderRow,
                                      y: OrderRow)
    requires Listing(orders, created, rows) && x in rows && y in rows
    requires x.id in created && y.id in created && created[x.id] < created[y.id]
    ensures Position(rows, x.id) < Position(rows, y.id)
  {
    PositionOfMember(rows, x);
    PositionOfMember(rows, y);
  }

  /** In every disciplined run: whenever the matcher has seen every open LIMIT order and creation
      times follow arrival at each price, rebuilding the book from the tables gives it back. */
  lemma {:induction false} RebuildGivesTheBookBack(s0: System, steps: seq<Action>, rows: seq<OrderRow>)
    requires Initial(s0) && DisciplinedRun(s0, steps) && After(s0, steps).Some?
    requires
      var s := After(s0, steps).value;
      && Trusted(s) && Quiescent(s.tables) && Listing(s.tables.orders, s.created, rows)
      && CreatedAsQueued(s.book, s.created)
    ensures SameQueues(Recover(rows), After(s0, steps).value.book)
  {
    var s := After(s0, steps).value;
    CleanRunsStayClean(s0, steps);
    assert BookAgrees(s.tables, s.book) && TablesOk(s.tables);
    forall id ensures Lookup(s.book, id) == OpenLimit(s.tables.orders, id) {
      assert Lookup(s.book, id) == Resting(s.tables.orders, s.tables.entered, id);
    }
    CreatedIsListed(s.tables.orders, s.created, rows, s.book);
    RebuildIsExactIff(s.tables.orders, s.created, rows, s.book);
  }
}
