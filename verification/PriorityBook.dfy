/** The order book as two lists in price-time priority: best price first, and first come
    first served within a price. Every list element carries the number of the insertion
    that created it, and `locations` maps an order id to the element last inserted for it,
    so that an id that rests twice behaves here as it does in the Go book. */
module PriorityBook {
  import opened Base
  import opened Orders

  datatype Entry = Entry(token: nat, row: OrderRow)
  {
    function Price(): int {
      CentsOf(row.price)
    }
  }

  datatype Location = Location(side: Side, price: int, token: nat)

  datatype Book = Book(bids: seq<Entry>, asks: seq<Entry>, locations: map<OrderId, Location>, next: nat)
  {
    function Queue(side: Side): seq<Entry> {
      if side.Buy? then bids else asks
    }

    function WithQueue(side: Side, q: seq<Entry>): Book {
      if side.Buy? then this.(bids := q) else this.(asks := q)
    }
  }

  const EMPTY_BOOK := Book([], [], map[], 0)

  function Opposite(side: Side): Side {
    if side.Buy? then Sell else Buy
  }

  /** A price that is strictly better than another for orders resting on `side`. */
  predicate Ahead(side: Side, p: int, q: int) {
    if side.Buy? then p > q else p < q
  }

  predicate Sorted(side: Side, q: seq<Entry>) {
    forall i, j :: 0 <= i < j < |q| ==> !Ahead(side, q[j].Price(), q[i].Price())
  }

  predicate DistinctTokens(q: seq<Entry>) {
    forall i, j :: 0 <= i < j < |q| ==> q[i].token != q[j].token
  }

  predicate RestsOn(side: Side, r: OrderRow) {
    r.side == side && r.typ.Limit? && r.ValidTerms() && 0 <= r.filled <= r.quantity
  }

  predicate SideOk(side: Side, q: seq<Entry>, next: nat) {
    && Sorted(side, q)
    && DistinctTokens(q)
    && (forall i :: 0 <= i < |q| ==> RestsOn(side, q[i].row) && q[i].token < next)
  }

  /** `loc` points at an element of `q` that holds an order with this id. */
  predicate PointsInto(q: seq<Entry>, id: OrderId, loc: Location) {
    exists i :: 0 <= i < |q| && q[i].token == loc.token && q[i].row.id == id && q[i].Price() == loc.price
  }

  predicate LocationsOk(b: Book) {
    forall id :: id in b.locations ==> PointsInto(b.Queue(b.locations[id].side), id, b.locations[id])
  }

  predicate WellFormed(b: Book) {
    && SideOk(Buy, b.bids, b.next)
    && SideOk(Sell, b.asks, b.next)
    && LocationsOk(b)
  }

  /** Every element is the one its id points at: no id rests twice. */
  predicate Unique(b: Book) {
    forall side, i :: 0 <= i < |b.Queue(side)| ==>
      var e := b.Queue(side)[i];
      e.row.id in b.locations && b.locations[e.row.id] == Location(side, e.Price(), e.token)
  }

  // ---------- operations ----------

  /** Where an order of price `p` joins: behind every order at least as good. */
  function JoinAt(side: Side, q: seq<Entry>, p: int): (k: nat)
    ensures k <= |q|
    ensures forall i :: 0 <= i < k ==> !Ahead(side, p, q[i].Price())
    ensures k < |q| ==> Ahead(side, p, q[k].Price())
  {
    if q == [] || Ahead(side, p, q[0].Price()) then 0 else 1 + JoinAt(side, q[1..], p)
  }

  function Insert(side: Side, q: seq<Entry>, e: Entry): seq<Entry> {
    var k := JoinAt(side, q, e.Price());
    q[..k] + [e] + q[k..]
  }

  /** The position of the element with this token, or |q| if there is none. */
  function IndexOf(q: seq<Entry>, token: nat): (k: nat)
    ensures k <= |q|
    ensures k < |q| ==> q[k].token == token
    ensures forall i :: 0 <= i < k ==> q[i].token != token
  {
    if q == [] || q[0].token == token then 0 else 1 + IndexOf(q[1..], token)
  }

  function Without(q: seq<Entry>, token: nat): seq<Entry> {
    var k := IndexOf(q, token);
    if k < |q| then q[..k] + q[k + 1..] else q
  }

  function AddResting(b: Book, r: OrderRow): Book
    requires r.price.Some?
  {
    var q := Insert(r.side, b.Queue(r.side), Entry(b.next, r));
    b.WithQueue(r.side, q).(
      locations := b.locations[r.id := Location(r.side, r.price.value, b.next)],
      next := b.next + 1)
  }

  /** Takes order `id` off the level (`side`, `price`). The element removed is the one the id
      points at, and only if it sits on that level; the id is forgotten in any case. */
  function RemoveFront(b: Book, id: OrderId, side: Side, price: int): Book {
    if id !in b.locations then b
    else
      var loc := b.locations[id];
      var q := b.Queue(side);
      var q' := if loc.side == side && loc.price == price then Without(q, loc.token) else q;
      b.WithQueue(side, q').(locations := b.locations - {id})
  }

  /** The order an id points at. */
  function Lookup(b: Book, id: OrderId): Option<OrderRow> {
    if id !in b.locations then None
    else
      var loc := b.locations[id];
      var q := b.Queue(loc.side);
      var k := IndexOf(q, loc.token);
      if k < |q| then Some(q[k].row) else None
  }

  function Cancel(b: Book, id: OrderId): Book {
    if id !in b.locations then b
    else RemoveFront(b, id, b.locations[id].side, b.locations[id].price)
  }

  // ---------- every operation keeps the book well formed ----------

  lemma InsertKeepsSide(side: Side, q: seq<Entry>, e: Entry, next: nat)
    requires SideOk(side, q, next) && RestsOn(side, e.row) && e.token == next
    ensures SideOk(side, Insert(side, q, e), next + 1)
  {
    var k := JoinAt(side, q, e.Price());
    var r := Insert(side, q, e);
    forall i, j | 0 <= i < j < |r|
      ensures !Ahead(side, r[j].Price(), r[i].Price()) && r[i].token != r[j].token
    {
      if k < |q| {
        assert j > k ==> !Ahead(side, q[j - 1].Price(), q[k].Price());
      }
    }
    assert forall i :: 0 <= i < |r| ==> r[i] == if i < k then q[i] else if i == k then e else q[i - 1];
  }

  lemma InsertKeepsPointers(side: Side, q: seq<Entry>, e: Entry, id: OrderId, loc: Location)
    requires PointsInto(q, id, loc)
    ensures PointsInto(Insert(side, q, e), id, loc)
  {
    var k := JoinAt(side, q, e.Price());
    var i :| 0 <= i < |q| && q[i].token == loc.token && q[i].row.id == id && q[i].Price() == loc.price;
    var j := if i < k then i else i + 1;
    assert Insert(side, q, e)[j] == q[i];
  }

  lemma AddRestingWellFormed(b: Book, r: OrderRow)
    requires WellFormed(b) && RestsOn(r.side, r)
    ensures WellFormed(AddResting(b, r))
  {
    var e := Entry(b.next, r);
    var q := b.Queue(r.side);
    var b' := AddResting(b, r);
    InsertKeepsSide(r.side, q, e, b.next);
    forall id | id in b'.locations
      ensures PointsInto(b'.Queue(b'.locations[id].side), id, b'.locations[id])
    {
      if id == r.id {
        assert Insert(r.side, q, e)[JoinAt(r.side, q, e.Price())] == e;
      } else {
        assert PointsInto(b.Queue(b.locations[id].side), id, b.locations[id]);
        if b.locations[id].side == r.side {
          InsertKeepsPointers(r.side, q, e, id, b.locations[id]);
        }
      }
    }
  }

  lemma WithoutKeepsSide(side: Side, q: seq<Entry>, token: nat, next: nat)
    requires SideOk(side, q, next)
    ensures SideOk(side, Without(q, token), next)
  {
    var k := IndexOf(q, token);
    var r := Without(q, token);
    assert k < |q| ==> forall i :: 0 <= i < |r| ==> r[i] == if i < k then q[i] else q[i + 1];
  }

  lemma WithoutKeepsPointers(q: seq<Entry>, token: nat, id: OrderId, loc: Location)
    requires PointsInto(q, id, loc) && loc.token != token
    ensures PointsInto(Without(q, token), id, loc)
  {
    var k := IndexOf(q, token);
    var i :| 0 <= i < |q| && q[i].token == loc.token && q[i].row.id == id && q[i].Price() == loc.price;
    var j := if i < k then i else i - 1;
    if k < |q| {
      assert Without(q, token)[j] == q[i];
    }
  }

  /** Two ids never point at the same element. */
  lemma PointersDiffer(b: Book, id1: OrderId, id2: OrderId)
    requires WellFormed(b)
    requires id1 in b.locations && id2 in b.locations && id1 != id2
    requires b.locations[id1].side == b.locations[id2].side
    ensures b.locations[id1].token != b.locations[id2].token
  {
    var q := b.Queue(b.locations[id1].side);
    assert PointsInto(q, id1, b.locations[id1]) && PointsInto(q, id2, b.locations[id2]);
  }

  lemma RemoveFrontWellFormed(b: Book, id: OrderId, side: Side, price: int)
    requires WellFormed(b)
    ensures WellFormed(RemoveFront(b, id, side, price))
  {
    if id in b.locations && b.locations[id].side == side && b.locations[id].price == price {
      var token := b.locations[id].token;
      var b' := RemoveFront(b, id, side, price);
      WithoutKeepsSide(side, b.Queue(side), token, b.next);
      forall j | j in b'.locations
        ensures PointsInto(b'.Queue(b'.locations[j].side), j, b'.locations[j])
      {
        assert PointsInto(b.Queue(b.locations[j].side), j, b.locations[j]);
        if b.locations[j].side == side {
          PointersDiffer(b, id, j);
          WithoutKeepsPointers(b.Queue(side), token, j, b.locations[j]);
        }
      }
    } else if id in b.locations {
      assert RemoveFront(b, id, side, price) == b.(locations := b.locations - {id});
    }
  }

  lemma CancelWellFormed(b: Book, id: OrderId)
    requires WellFormed(b)
    ensures WellFormed(Cancel(b, id))
  {
    if id in b.locations {
      RemoveFrontWellFormed(b, id, b.locations[id].side, b.locations[id].price);
    }
  }

  /** In a well-formed book an id that is present leads to an order with that id, resting on
      the recorded side at the recorded price. */
  lemma LookupFinds(b: Book, id: OrderId)
    requires WellFormed(b) && id in b.locations
    ensures Lookup(b, id).Some?
    ensures Lookup(b, id).value.id == id
    ensures Lookup(b, id).value.price == Some(b.locations[id].price)
    ensures RestsOn(b.locations[id].side, Lookup(b, id).value)
  {
    var loc := b.locations[id];
    var q := b.Queue(loc.side);
    assert PointsInto(q, id, loc);
    var k := IndexOf(q, loc.token);
    assert k < |q|;
  }
}
