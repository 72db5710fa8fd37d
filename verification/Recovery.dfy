/** Rebuilding the book from the orders table. */
module Recovery {
  import opened Base
  import opened Orders
  import opened PriorityBook
  import opened PriceTime
  import opened BookContents
  import opened Settlement

  /** The rows still OPEN or PARTIALLY_FILLED, each once, oldest first. Rows created at the same
      instant may come in either order. */
  predicate Listing(orders: OrderTable, created: map<OrderId, int>, rows: seq<OrderRow>) {
    && (forall i :: 0 <= i < |rows| ==> rows[i].id in orders && orders[rows[i].id] == rows[i] && rows[i].Live())
    && (forall i, j :: 0 <= i < j < |rows| ==> rows[i].id != rows[j].id)
    && (forall id :: id in orders && orders[id].Live() ==> orders[id] in rows)
    && (forall i, j :: 0 <= i < j < |rows| && rows[i].id in created && rows[j].id in created ==>
          created[rows[i].id] <= created[rows[j].id])
  }

  /** Every listed LIMIT order is added in turn; MARKET orders are passed over. */
  function Recover(rows: seq<OrderRow>): Book {
    if rows == [] then EMPTY_BOOK
    else
      var b := Recover(rows[..|rows| - 1]);
      var r := rows[|rows| - 1];
      if r.typ.Limit? && r.price.Some? then AddResting(b, r) else b
  }

  predicate Restable(r: OrderRow) {
    r.typ.Limit? ==> RestsOn(r.side, r)
  }

  lemma {:induction false} RecoverWellFormed(rows: seq<OrderRow>)
    requires forall i :: 0 <= i < |rows| ==> Restable(rows[i])
    ensures WellFormed(Recover(rows))
    decreases |rows|
  {
    if rows != [] {
      var r := rows[|rows| - 1];
      RecoverWellFormed(rows[..|rows| - 1]);
      assert Restable(r);
      if r.typ.Limit? {
        AddRestingWellFormed(Recover(rows[..|rows| - 1]), r);
      }
    }
  }

  lemma AddOne(b: Book, r: OrderRow, id: OrderId)
    requires Healthy(b) && LiveRow(r) && r.typ.Limit? && r.id !in b.locations
    ensures Healthy(AddResting(b, r))
    ensures Lookup(AddResting(b, r), id) == if id == r.id then Some(r) else Lookup(b, id)
  {
    AddRestingHealthy(b, r);
    AddRestingContents(b, r, id);
  }

  lemma Absent(b: Book, rows: seq<OrderRow>, id: OrderId)
    requires Healthy(b) && (Lookup(b, id).Some? ==> Lookup(b, id).value in rows && Lookup(b, id).value.id == id)
    requires forall i :: 0 <= i < |rows| ==> rows[i].id != id
    ensures id !in b.locations
  {
    hide Lookup;
    if id in b.locations { LookupFinds(b, id); }
  }

  /** What an id looks up in a rebuilt book: its row, if it was listed and is a LIMIT order. */
  lemma {:induction false} RecoverContents(rows: seq<OrderRow>, id: OrderId)
    requires forall i :: 0 <= i < |rows| ==> LiveRow(rows[i])
    requires forall i, j :: 0 <= i < j < |rows| ==> rows[i].id != rows[j].id
    ensures Healthy(Recover(rows))
    ensures Lookup(Recover(rows), id).Some? ==>
      Lookup(Recover(rows), id).value in rows && Lookup(Recover(rows), id).value.id == id
        && Lookup(Recover(rows), id).value.typ.Limit?
    ensures forall i :: 0 <= i < |rows| && rows[i].typ.Limit? && rows[i].id == id ==>
      Lookup(Recover(rows), id) == Some(rows[i])
    decreases |rows|
  {
    hide WellFormed, Unique, AddResting;
    if rows == [] {
      EmptyIsHealthy();
    } else {
      var pre := rows[..|rows| - 1];
      var r := rows[|rows| - 1];
      RecoverContents(pre, id);
      RecoverContents(pre, r.id);
      if r.typ.Limit? {
        Absent(Recover(pre), pre, r.id);
        AddOne(Recover(pre), r, id);
      }
    }
  }

  lemma EmptyIsHealthy()
    ensures Healthy(EMPTY_BOOK)
  {
  }

  /** The live LIMIT rows of the table, seen or not. */
  function OpenLimit(orders: OrderTable, id: OrderId): Option<OrderRow> {
    if id in orders && orders[id].typ.Limit? && orders[id].Live() then Some(orders[id]) else None
  }

  /** A rebuilt book holds exactly the table's live LIMIT rows, whichever order ties came in. */
  lemma {:induction false} RecoveredContents(orders: OrderTable, created: map<OrderId, int>, rows: seq<OrderRow>,
                                             id: OrderId)
    requires Listing(orders, created, rows)
    requires forall j :: j in orders ==> orders[j].id == j && orders[j].Valid()
    ensures Healthy(Recover(rows))
    ensures Lookup(Recover(rows), id) == OpenLimit(orders, id)
  {
    forall i | 0 <= i < |rows| ensures LiveRow(rows[i]) {
      assert orders[rows[i].id] == rows[i];
    }
    RecoverContents(rows, id);
    if id in orders && orders[id].Live() {
      var k :| 0 <= k < |rows| && rows[k] == orders[id];
    }
  }
}
