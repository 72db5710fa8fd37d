/** The in-memory book of the matcher: per side a heap of price levels, a map from price to level
    and a FIFO list per level, and one map from order id to the order's place. It refines the
    priority lists of PriorityBook under every operation. */
module OrderBooks {
  import opened Base
  import opened Orders
  import opened PriorityBook
  import opened LevelHeaps
  import opened ElementQueues

  /** Where an order rests: its side, its level and its list element. */
  datatype Spot = Spot(side: Side, lvl: Level, elem: Element)

  /** The price map is exactly the heap's levels. */
  ghost predicate Mapped(h: LevelHeap, idx: map<int, Level>)
    reads h
  {
    && (forall p :: p in idx ==> idx[p] in h.levels && idx[p].priceCents == p)
    && (forall l :: l in h.levels ==> l.priceCents in idx && idx[l.priceCents] == l)
  }

  /** The FIFO lists of the levels are exactly the queue split by price. */
  ghost predicate Split(h: LevelHeap, q: seq<Element>)
    reads h, h.Elements()
  {
    forall l :: l in h.levels ==> l.orders == AtPrice(q, l.priceCents)
  }

  /** No level is empty, with one exception while it is being filled or emptied. */
  ghost predicate NoneEmpty(h: LevelHeap, but: Level?)
    reads h, h.Elements()
  {
    forall l :: l in h.levels && l != but ==> l.orders != []
  }

  ghost predicate SideValid(h: LevelHeap, idx: map<int, Level>, q: seq<Element>)
    reads h, h.Elements()
  {
    && h.Valid() && Mapped(h, idx) && Split(h, q) && NoneEmpty(h, null)
    && (forall i :: 0 <= i < |q| ==> q[i].Price() in idx)
    && QueueValid(h.side, q)
  }

  predicate QueueValid(side: Side, q: seq<Element>) {
    && SortedElements(side, q) && DistinctElements(q)
    && (forall i :: 0 <= i < |q| ==> q[i].order.side == side && q[i].order.typ.Limit? && q[i].order.price.Some?)
  }

  /** The position at which an element of price `p` joins the queue. */
  predicate Joins(side: Side, q: seq<Element>, p: int, k: nat) {
    && k <= |q|
    && (forall i :: 0 <= i < k ==> !Ahead(side, p, q[i].Price()))
    && (forall i :: k <= i < |q| ==> Ahead(side, p, q[i].Price()))
  }

  lemma JoinExists(side: Side, q: seq<Element>, p: int) returns (k: nat)
    requires SortedElements(side, q)
    ensures Joins(side, q, p, k)
  {
    k := 0;
    while k < |q| && !Ahead(side, p, q[k].Price())
      invariant k <= |q| && forall i :: 0 <= i < k ==> !Ahead(side, p, q[i].Price())
    {
      k := k + 1;
    }
  }

  lemma {:induction false} JoinIsJoinAt(side: Side, q: seq<Element>, p: int, k: nat)
    requires Joins(side, q, p, k)
    ensures JoinAt(side, Entries(q), p) == k
  {
    var j := JoinAt(side, Entries(q), p);
    var es := Entries(q);
    assert j < |q| ==> Ahead(side, p, es[j].Price()) && Ahead(side, p, q[j].Price());
    assert forall i :: 0 <= i < j ==> !Ahead(side, p, es[i].Price()) && es[i].Price() == q[i].Price();
    assert forall i :: 0 <= i < j ==> !Ahead(side, p, q[i].Price());
    assert k < |q| ==> Ahead(side, p, q[k].Price());
  }

  lemma InsertionValid(side: Side, q: seq<Element>, k: nat, e: Element)
    requires QueueValid(side, q) && Joins(side, q, e.Price(), k)
    requires e.order.side == side && e.order.typ.Limit? && e.order.price.Some?
    requires forall i :: 0 <= i < |q| ==> q[i].token != e.token && q[i].order != e.order
    ensures QueueValid(side, Insertion(q, k, e))
  {
    var r := Insertion(q, k, e);
    assert forall i :: 0 <= i < |r| ==> r[i] == if i < k then q[i] else if i == k then e else q[i - 1];
  }

  lemma RemovalValid(side: Side, q: seq<Element>, k: nat)
    requires QueueValid(side, q) && k < |q|
    ensures QueueValid(side, Removal(q, k))
  {
    var r := Removal(q, k);
    assert forall i :: 0 <= i < |r| ==> r[i] == if i < k then q[i] else q[i + 1];
  }

  /** What Book.heapAndIndex pairs up: the heap of one side and its price map. */
  class BookSide {
    const heap: LevelHeap
    var byPrice: map<int, Level>
    ghost var queue: seq<Element>

    ghost predicate Valid()
      reads this, heap, heap.Elements()
    {
      SideValid(heap, byPrice, queue)
    }

    constructor (side: Side)
      ensures Valid() && heap.side == side && heap.levels == [] && byPrice == map[] && queue == [] && fresh(heap)
    {
      heap := new LevelHeap(side);
      byPrice := map[];
      queue := [];
    }

    function Peek(): Level?
      reads this, heap
    {
      if |heap.levels| == 0 then null else heap.levels[0]
    }

    /** The root is the best level and, at its front, the first order of the side. */
    lemma PeekIsBest()
      requires Valid()
      ensures Peek() == null <==> queue == []
      ensures Peek() != null ==>
        && Peek() in heap.levels && Peek().orders != []
        && Peek().orders[0] == queue[0] && Peek().priceCents == queue[0].Price()
    {
      assert queue != [] ==> |heap.levels| > 0 by {
        if queue != [] { assert byPrice[queue[0].Price()] in heap.levels; }
      }
      if |heap.levels| > 0 {
        var lvl := heap.levels[0];
        forall i | 0 <= i < |queue| ensures !Ahead(heap.side, queue[i].Price(), lvl.priceCents) {
          var l := byPrice[queue[i].Price()];
          var k :| 0 <= k < |heap.levels| && heap.levels[k] == l;
          RootIsBest(heap.side, heap.levels, k);
        }
        FrontOfQueue(heap.side, queue, lvl.priceCents);
        AtPriceMember(queue, lvl.priceCents, lvl.orders[0]);
      }
    }

    /** The level for a price, created and pushed onto the heap if there is none yet. */
    method LevelFor(p: int) returns (lvl: Level)
      requires Valid()
      modifies `byPrice, heap`levels, heap.Elements()`index
      ensures heap.Valid() && Mapped(heap, byPrice) && Split(heap, queue) && NoneEmpty(heap, lvl)
      ensures lvl in heap.levels && lvl.priceCents == p
      ensures byPrice == old(byPrice)[p := lvl] && (p in old(byPrice) ==> lvl == old(byPrice)[p])
      ensures fresh(heap.Elements() - old(heap.Elements()))
    {
      if p in byPrice {
        return byPrice[p];
      }
      lvl := new Level(p);
      byPrice := byPrice[p := lvl];
      heap.Push(lvl);
      AtPriceNone(queue, p);
    }

    /** Queues an element at the back of its price level. */
    method Add(e: Element, ghost k: nat) returns (lvl: Level)
      requires Valid() && Joins(heap.side, queue, e.Price(), k)
      requires e.order.side == heap.side && e.order.typ.Limit? && e.order.price.Some?
      requires forall i :: 0 <= i < |queue| ==> queue[i].token != e.token && queue[i].order != e.order
      modifies this, heap, heap.Elements()
      ensures Valid() && queue == Insertion(old(queue), k, e)
      ensures e.Price() in byPrice && byPrice[e.Price()] == lvl
      ensures forall p :: p in old(byPrice) ==> p in byPrice && byPrice[p] == old(byPrice)[p]
      ensures fresh(heap.Elements() - old(heap.Elements()))
    {
      hide QueueValid, Insertion, AtPrice;
      ghost var q, idx := queue, byPrice;
      lvl := LevelFor(e.order.price.value);
      lvl.orders := lvl.orders + [e];
      InsertionValid(heap.side, q, k, e);
      InsertionPrices(q, k, e, idx, byPrice);
      SplitGrows(heap, byPrice, q, k, e, lvl);
      queue := Insertion(q, k, e);
      assert NoneEmpty(heap, null);
    }

    /** Takes a level that has become empty off the heap and out of the price map. */
    method Prune(lvl: Level)
      requires heap.Valid() && Mapped(heap, byPrice) && Split(heap, queue) && NoneEmpty(heap, lvl)
      requires QueueValid(heap.side, queue) && lvl in heap.levels
      requires forall i :: 0 <= i < |queue| ==> queue[i].Price() in byPrice
      modifies `byPrice, heap`levels, heap.Elements()`index
      ensures Valid() && byPrice.Keys <= old(byPrice).Keys && forall p :: p in byPrice ==> byPrice[p] == old(byPrice)[p]
      ensures heap.Elements() <= old(heap.Elements())
    {
      if |lvl.orders| == 0 {
        byPrice := byPrice - {lvl.priceCents};
        forall i | 0 <= i < |queue| ensures queue[i].Price() != lvl.priceCents {
          AtPriceMember(queue, lvl.priceCents, queue[i]);
        }
        var _ := heap.Remove(lvl.index);
      }
    }

    /** Drops an element from a level if it is there, and the level with it if that was the last. */
    method Drop(lvl: Level, e: Element, ghost k: nat)
      requires Valid() && lvl in heap.levels
      requires if k < |queue| then queue[k] == e && lvl.priceCents == e.Price() else e !in lvl.orders
      modifies this, heap, heap.Elements()
      ensures Valid() && queue == Removed(old(queue), k)
      ensures byPrice.Keys <= old(byPrice).Keys && forall p :: p in byPrice ==> byPrice[p] == old(byPrice)[p]
      ensures heap.Elements() <= old(heap.Elements())
    {
      ghost var q := queue;
      if e !in lvl.orders { RemoveAbsent(lvl.orders, e); }
      lvl.orders := Remove(lvl.orders, e);
      queue := Removed(q, k);
      if k < |q| {
        RemovalValid(heap.side, q, k);
        forall l | l in heap.levels ensures l.orders == AtPrice(queue, l.priceCents) {
          AtPriceRemove(q, k, l.priceCents);
        }
      }
      assert Split(heap, queue);
      Prune(lvl);
    }
  }

  /** With the element at the back of its level, the levels split the longer queue. */
  lemma {:induction false} SplitGrows(h: LevelHeap, idx: map<int, Level>, q: seq<Element>, k: nat, e: Element,
                                      lvl: Level)
    requires Mapped(h, idx) && lvl in h.levels && lvl.priceCents == e.Price()
    requires k <= |q| && forall i :: k <= i < |q| ==> q[i].Price() != e.Price()
    requires lvl.orders == AtPrice(q, e.Price()) + [e]
    requires forall l :: l in h.levels && l != lvl ==> l.orders == AtPrice(q, l.priceCents)
    ensures Split(h, Insertion(q, k, e))
  {
    forall l | l in h.levels ensures l.orders == AtPrice(Insertion(q, k, e), l.priceCents) {
      AtPriceInsert(q, k, e, l.priceCents);
    }
  }

  function Removed(q: seq<Element>, k: nat): seq<Element> {
    if k < |q| then Removal(q, k) else q
  }

  lemma InsertionPrices(q: seq<Element>, k: nat, e: Element, idx: map<int, Level>, idx': map<int, Level>)
    requires k <= |q| && (forall i :: 0 <= i < |q| ==> q[i].Price() in idx) && idx.Keys <= idx'.Keys
      && e.Price() in idx'
    ensures forall i :: 0 <= i < |Insertion(q, k, e)| ==> Insertion(q, k, e)[i].Price() in idx'
  {
    var q' := Insertion(q, k, e);
    assert forall i :: 0 <= i < |q'| ==> q'[i] == if i < k then q[i] else if i == k then e else q[i - 1];
  }

  predicate TokensBelow(q: seq<Element>, n: nat) {
    forall i :: 0 <= i < |q| ==> q[i].token < n
  }

  /** The book's maps and queues, apart from the heaps and lists that realise them. */
  datatype Layout = Layout(
    bidQueue: seq<Element>, askQueue: seq<Element>, bidIndex: map<int, Level>, askIndex: map<int, Level>,
    locations: map<OrderId, Spot>, next: nat)
  {
    function Queue(side: Side): seq<Element> {
      if side.Buy? then bidQueue else askQueue
    }

    function Index(side: Side): map<int, Level> {
      if side.Buy? then bidIndex else askIndex
    }

    ghost function Resting(): set<Order> {
      OrdersOf(bidQueue) + OrdersOf(askQueue)
    }
  }

  /** The place recorded for an id is a live one, and holds an order with that id. */
  predicate SpotOk(l: Layout, id: OrderId, s: Spot) {
    && s.elem in l.Queue(s.side) && s.elem.order.id == id
    && s.elem.Price() in l.Index(s.side) && s.lvl == l.Index(s.side)[s.elem.Price()]
  }

  ghost predicate LayoutOk(l: Layout) {
    && OrdersOf(l.bidQueue) !! OrdersOf(l.askQueue)
    && TokensBelow(l.bidQueue, l.next) && TokensBelow(l.askQueue, l.next)
    && (forall id :: id in l.locations ==> SpotOk(l, id, l.locations[id]))
  }

  /** Every resting order may rest where it does. */
  ghost predicate RestWhereTheyMay(l: Layout)
    reads l.Resting()
  {
    forall side, i :: 0 <= i < |l.Queue(side)| ==>
      l.Queue(side)[i].order in l.Resting() && RestsOn(side, l.Queue(side)[i].order.Row())
  }

  ghost function Places(locations: map<OrderId, Spot>): map<OrderId, Location> {
    map id | id in locations :: Location(locations[id].side, locations[id].elem.Price(), locations[id].elem.token)
  }

  /** The book as two lists in price-time priority. */
  ghost function Image(l: Layout): Book
    reads l.Resting()
  {
    assert OrdersOf(l.bidQueue) <= l.Resting() && OrdersOf(l.askQueue) <= l.Resting();
    Book(Entries(l.bidQueue), Entries(l.askQueue), Places(l.locations), l.next)
  }

  lemma ImageWellFormed(l: Layout)
    requires LayoutOk(l) && RestWhereTheyMay(l) && QueueValid(Buy, l.bidQueue) && QueueValid(Sell, l.askQueue)
    ensures WellFormed(Image(l))
  {
    hide RestsOn, Ahead;
    var b := Image(l);
    assert RestsAll(Buy, Entries(l.bidQueue)) && RestsAll(Sell, Entries(l.askQueue)) by {
      assert forall i :: 0 <= i < |l.bidQueue| ==> l.Queue(Buy)[i] == l.bidQueue[i];
      assert forall i :: 0 <= i < |l.askQueue| ==> l.Queue(Sell)[i] == l.askQueue[i];
    }
    forall id | id in b.locations ensures PointsInto(b.Queue(b.locations[id].side), id, b.locations[id]) {
      var s := l.locations[id];
      assert SpotOk(l, id, s);
      var k :| 0 <= k < |l.Queue(s.side)| && l.Queue(s.side)[k] == s.elem;
      assert b.Queue(s.side)[k] == Entry(s.elem.token, s.elem.order.Row());
    }
  }

  predicate RestsAll(side: Side, es: seq<Entry>) {
    forall i :: 0 <= i < |es| ==> RestsOn(side, es[i].row)
  }

  // ---------- adding, on layouts ----------

  /** `l'` is `l` with element `e` queued at position `k` of its side, on level `lvl`. */
  predicate Grown(l: Layout, l': Layout, side: Side, k: nat, e: Element, lvl: Level) {
    && k <= |l.Queue(side)| && l'.Queue(side) == Insertion(l.Queue(side), k, e)
    && l'.Queue(Opposite(side)) == l.Queue(Opposite(side)) && l'.Index(Opposite(side)) == l.Index(Opposite(side))
    && (forall p :: p in l.Index(side) ==> p in l'.Index(side) && l'.Index(side)[p] == l.Index(side)[p])
    && e.Price() in l'.Index(side) && l'.Index(side)[e.Price()] == lvl
  }

  predicate Added(l: Layout, l': Layout, side: Side, k: nat, e: Element, lvl: Level) {
    && Grown(l, l', side, k, e, lvl)
    && l'.locations == l.locations[e.order.id := Spot(side, lvl, e)]
    && e.token == l.next && l'.next == l.next + 1
  }

  lemma AddedOrders(q: seq<Element>, k: nat, e: Element, n: nat)
    requires k <= |q| && TokensBelow(q, n) && e.token == n
    ensures OrdersOf(Insertion(q, k, e)) == OrdersOf(q) + {e.order}
    ensures forall x :: x in Insertion(q, k, e) <==> x in q || x == e
    ensures TokensBelow(Insertion(q, k, e), n + 1)
  {
    var r := Insertion(q, k, e);
    assert forall i :: 0 <= i < |r| ==> r[i] == if i < k then q[i] else if i == k then e else q[i - 1];
    assert forall i :: 0 <= i < |q| ==> q[i] == r[if i < k then i else i + 1];
    assert r[k] == e;
  }

  /** A new token and an order not on the book differ from everything queued. */
  lemma FreshElement(l: Layout, e: Element)
    requires LayoutOk(l) && e.token == l.next && e.order !in l.Resting()
    ensures
      var q := l.Queue(e.order.side);
      forall i :: 0 <= i < |q| ==> q[i].token != e.token && q[i].order != e.order
  {
    var q := l.Queue(e.order.side);
    forall i | 0 <= i < |q| ensures q[i].token != e.token && q[i].order != e.order {
      assert q[i].order in OrdersOf(q);
    }
  }

  lemma AddedLayout(l: Layout, l': Layout, side: Side, k: nat, e: Element, lvl: Level)
    requires LayoutOk(l) && Added(l, l', side, k, e, lvl) && e.order !in l.Resting()
    ensures LayoutOk(l') && l'.Resting() == l.Resting() + {e.order}
  {
    AddedOrders(l.Queue(side), k, e, l.next);
    forall id | id in l'.locations ensures SpotOk(l', id, l'.locations[id]) {
      if id != e.order.id { assert SpotOk(l, id, l.locations[id]); }
    }
  }

  lemma AddedRows(l: Layout, l': Layout, side: Side, k: nat, e: Element, lvl: Level)
    requires RestWhereTheyMay(l) && Added(l, l', side, k, e, lvl) && RestsOn(side, e.order.Row())
    ensures RestWhereTheyMay(l')
  {
    forall sd, i | 0 <= i < |l'.Queue(sd)|
      ensures l'.Queue(sd)[i].order in l'.Resting() && RestsOn(sd, l'.Queue(sd)[i].order.Row())
    {
      if sd == side && i == k {
        assert l'.Queue(sd)[i] == e;
      } else {
        var j := if sd == side && i > k then i - 1 else i;
        assert l'.Queue(sd)[i] == l.Queue(sd)[j];
        assert RestsOn(sd, l.Queue(sd)[j].order.Row());
      }
      assert l'.Queue(sd)[i].order in OrdersOf(l'.Queue(sd));
    }
  }

  lemma AddedImage(l: Layout, l': Layout, side: Side, k: nat, e: Element, lvl: Level)
    requires Added(l, l', side, k, e, lvl) && Joins(side, l.Queue(side), e.Price(), k)
    requires e.order.side == side && e.order.price.Some?
    ensures Image(l') == AddResting(Image(l), e.order.Row())
  {
    JoinIsJoinAt(side, l.Queue(side), e.Price(), k);
    EntriesInsertion(l.Queue(side), k, e);
    assert Places(l'.locations) == Places(l.locations)[e.order.id := Location(side, e.Price(), e.token)];
  }

  // ---------- removing, on layouts ----------

  /** `mid` is `l` without the element at position `k` of a side, if there is one. */
  predicate Shrunk(l: Layout, mid: Layout, side: Side, k: nat) {
    && mid.Queue(side) == Removed(l.Queue(side), k)
    && mid.Queue(Opposite(side)) == l.Queue(Opposite(side)) && mid.Index(Opposite(side)) == l.Index(Opposite(side))
    && mid.Index(side).Keys <= l.Index(side).Keys
    && (forall p :: p in mid.Index(side) ==> mid.Index(side)[p] == l.Index(side)[p])
    && (forall i :: 0 <= i < |mid.Queue(side)| ==> mid.Queue(side)[i].Price() in mid.Index(side))
    && mid.locations == l.locations && mid.next == l.next
  }

  /** `k` is where the element recorded for `id` stands, if that is on this side and price. */
  ghost predicate Locates(l: Layout, id: OrderId, side: Side, price: int, k: nat) {
    id in l.locations &&
    var spot := l.locations[id];
    if spot.side == side && spot.elem.Price() == price
    then k < |l.Queue(side)| && l.Queue(side)[k] == spot.elem else k == |l.Queue(side)|
  }

  predicate QueuesWithin(l': Layout, l: Layout) {
    (forall e :: e in l'.bidQueue ==> e in l.bidQueue) && (forall e :: e in l'.askQueue ==> e in l.askQueue)
  }

  function Forgot(mid: Layout, id: OrderId): Layout {
    mid.(locations := mid.locations - {id})
  }

  lemma TakenElements(q: seq<Element>, k: nat)
    ensures OrdersOf(Removed(q, k)) <= OrdersOf(q)
    ensures forall n :: TokensBelow(q, n) ==> TokensBelow(Removed(q, k), n)
    ensures forall e :: e in q && (k < |q| ==> e != q[k]) ==> e in Removed(q, k)
    ensures forall e :: e in Removed(q, k) ==> e in q
  {
    var r := Removed(q, k);
    if k < |q| {
      assert forall i :: 0 <= i < |r| ==> r[i] == q[if i < k then i else i + 1];
      forall e | e in q && e != q[k] ensures e in r {
        var i :| 0 <= i < |q| && q[i] == e;
        assert r[if i < k then i else i - 1] == e;
      }
    }
  }

  lemma ForgotLayout(l: Layout, mid: Layout, id: OrderId, side: Side, price: int, k: nat)
    requires LayoutOk(l) && Shrunk(l, mid, side, k) && Locates(l, id, side, price, k)
    ensures LayoutOk(Forgot(mid, id)) && Forgot(mid, id).Resting() <= l.Resting()
    ensures QueuesWithin(Forgot(mid, id), l)
  {
    var l' := Forgot(mid, id);
    TakenElements(l.Queue(side), k);
    forall j | j in l'.locations ensures SpotOk(l', j, l'.locations[j]) {
      var s := l.locations[j];
      assert SpotOk(l, j, s) && SpotOk(l, id, l.locations[id]);
      if s.side == side {
        assert s.elem in mid.Queue(side);
        var i :| 0 <= i < |mid.Queue(side)| && mid.Queue(side)[i] == s.elem;
      }
    }
  }

  /** An element found where it was recorded takes its order off the book for good. */
  lemma TakenIsGone(l: Layout, mid: Layout, id: OrderId, side: Side, price: int, k: nat)
    requires LayoutOk(l) && Shrunk(l, mid, side, k) && Locates(l, id, side, price, k) && DistinctElements(l.Queue(side))
    ensures
      var s := l.locations[id];
      s.side == side && s.elem.Price() == price ==> s.elem.order !in Forgot(mid, id).Resting()
  {
    var q := l.Queue(side);
    if k < |q| {
      assert q[k].order in OrdersOf(q);
      var r := Removed(q, k);
      forall i | 0 <= i < |r| ensures r[i].order != q[k].order {
        assert r[i] == q[if i < k then i else i + 1];
      }
    }
  }

  lemma ForgotRows(l: Layout, mid: Layout, id: OrderId, side: Side, k: nat)
    requires RestWhereTheyMay(l) && Shrunk(l, mid, side, k)
    ensures RestWhereTheyMay(Forgot(mid, id))
  {
    var l' := Forgot(mid, id);
    forall sd, i | 0 <= i < |l'.Queue(sd)|
      ensures l'.Queue(sd)[i].order in l'.Resting() && RestsOn(sd, l'.Queue(sd)[i].order.Row())
    {
      var j := if sd == side && k < |l.Queue(side)| && i >= k then i + 1 else i;
      assert l'.Queue(sd)[i] == l.Queue(sd)[j];
      assert RestsOn(sd, l.Queue(sd)[j].order.Row());
      assert l'.Queue(sd)[i].order in OrdersOf(l'.Queue(sd));
    }
  }

  lemma IndexOfElement(q: seq<Element>, k: nat)
    requires DistinctElements(q) && k < |q|
    ensures IndexOf(Entries(q), q[k].token) == k
  {
    var j := IndexOf(Entries(q), q[k].token);
    assert Entries(q)[k].token == q[k].token;
    assert j < |q| && q[j].token == Entries(q)[j].token;
  }

  lemma ForgotImage(l: Layout, mid: Layout, id: OrderId, side: Side, price: int, k: nat)
    requires Shrunk(l, mid, side, k) && Locates(l, id, side, price, k) && DistinctElements(l.Queue(side))
    ensures Image(Forgot(mid, id)) == RemoveFront(Image(l), id, side, price)
  {
    var q := l.Queue(side);
    if k < |q| {
      IndexOfElement(q, k);
      EntriesRemoval(q, k);
    }
    assert Places(l.locations - {id}) == Places(l.locations) - {id};
    assert Image(l).Queue(side) == Entries(q) && Image(l).locations == Places(l.locations);
  }

  /** The picture of a layout changes only if one of its orders does. */
  twostate lemma SameImage(l: Layout)
    requires forall o :: o in l.Resting() ==> unchanged(o)
    ensures Image(l) == old(Image(l)) && RestWhereTheyMay(l) == old(RestWhereTheyMay(l))
  {
  }

  function WithHeadFilled(b: Book, side: Side, qty: int): Book {
    var q := b.Queue(side);
    if q == [] then b else b.WithQueue(side, [Entry(q[0].token, FillRow(q[0].row, qty))] + q[1..])
  }

  /** The first order of a side of a layout being filled with a quantity. */
  datatype HeadFill = HeadFill(l: Layout, side: Side, qty: int)
  {
    function Head(): Order
      requires l.Queue(side) != []
    {
      l.Queue(side)[0].order
    }
  }

  /** All orders on the book but the first of this side are as they were. */
  twostate predicate OthersUnchanged(f: HeadFill)
    reads f.l.Resting()
  {
    && (forall i :: 1 <= i < |f.l.Queue(f.side)| ==>
          f.l.Queue(f.side)[i].order in f.l.Resting() && unchanged(f.l.Queue(f.side)[i].order))
    && (forall i :: 0 <= i < |f.l.Queue(Opposite(f.side))| ==>
          f.l.Queue(Opposite(f.side))[i].order in f.l.Resting() && unchanged(f.l.Queue(Opposite(f.side))[i].order))
  }

  /** Filling the first order of a side changes the picture at that place only. */
  twostate lemma HeadFilled(f: HeadFill)
    requires f.l.Queue(f.side) != []
    requires OthersUnchanged(f)
    requires f.Head().Row() == FillRow(old(f.Head().Row()), f.qty)
    ensures Image(f.l) == WithHeadFilled(old(Image(f.l)), f.side, f.qty)
  {
    var q := f.l.Queue(f.side);
    assert Entries(f.l.Queue(Opposite(f.side))) == old(Entries(f.l.Queue(Opposite(f.side))));
    assert Entries(q) == [Entry(q[0].token, f.Head().Row())] + old(Entries(q))[1..];
  }

  twostate lemma HeadRows(f: HeadFill)
    requires old(RestWhereTheyMay(f.l))
    requires f.l.Queue(f.side) != []
    requires OthersUnchanged(f)
    requires f.Head().Row() == FillRow(old(f.Head().Row()), f.qty)
    ensures RestWhereTheyMay(f.l)
  {
    var l := f.l;
    forall sd, i | 0 <= i < |l.Queue(sd)|
      ensures l.Queue(sd)[i].order in l.Resting() && RestsOn(sd, l.Queue(sd)[i].order.Row())
    {
      assert old(RestsOn(sd, l.Queue(sd)[i].order.Row()));
      assert sd == f.side || sd == Opposite(f.side);
    }
  }

  /** The first order of a side is at no other place of the book. */
  lemma OneSideOnlyOrder(l: Layout, side: Side)
    requires LayoutOk(l) && l.Queue(side) != [] && DistinctElements(l.Queue(side))
    ensures forall i :: 1 <= i < |l.Queue(side)| ==>
      l.Queue(side)[i].order in l.Resting() && l.Queue(side)[i].order != l.Queue(side)[0].order
    ensures forall i :: 0 <= i < |l.Queue(Opposite(side))| ==>
      l.Queue(Opposite(side))[i].order in l.Resting() && l.Queue(Opposite(side))[i].order != l.Queue(side)[0].order
  {
    forall sd, i | 0 <= i < |l.Queue(sd)| ensures l.Queue(sd)[i].order in OrdersOf(l.Queue(sd)) {
    }
  }

  class OrderBook {
    const bids: BookSide
    const asks: BookSide
    var locations: map<OrderId, Spot>
    var nextToken: nat

    function SideOf(side: Side): BookSide {
      if side.Buy? then bids else asks
    }

    ghost function Plan(): Layout
      reads this, bids, asks
    {
      Layout(bids.queue, asks.queue, bids.byPrice, asks.byPrice, locations, nextToken)
    }

    ghost function Levels(): set<Level>
      reads bids.heap, asks.heap
    {
      bids.heap.Elements() + asks.heap.Elements()
    }

    /** The objects the two sides are made of, but for the orders. */
    ghost function SideRepr(): set<object>
      reads bids.heap, asks.heap
    {
      {bids, asks, bids.heap, asks.heap} + Levels()
    }

    ghost function Repr(): set<object>
      reads bids.heap, asks.heap
    {
      {this} + SideRepr()
    }

    /** The orders on the book. */
    ghost function Resting(): set<Order>
      reads this, bids, asks
    {
      Plan().Resting()
    }

    /** Two separate sides, each with its heap in order. */
    ghost predicate Sides()
      reads SideRepr()
    {
      && bids != asks && bids.heap != asks.heap && bids.heap.side == Buy && asks.heap.side == Sell
      && bids.heap.Elements() !! asks.heap.Elements() && bids.Valid() && asks.Valid()
    }

    ghost predicate Valid()
      reads Repr(), Resting()
    {
      Sides() && LayoutOk(Plan()) && RestWhereTheyMay(Plan())
    }

    ghost function View(): Book
      reads Repr(), Resting()
    {
      Image(Plan())
    }

    constructor ()
      ensures Valid() && View() == EMPTY_BOOK && Resting() == {} && fresh(Repr())
    {
      bids := new BookSide(Buy);
      asks := new BookSide(Sell);
      locations, nextToken := map[], 0;
    }

    lemma ViewWellFormed()
      requires Valid()
      ensures WellFormed(View())
    {
      ImageWellFormed(Plan());
    }

    function BestOpposite(incoming: Side): Level?
      reads bids, asks, bids.heap, asks.heap
    {
      SideOf(Opposite(incoming)).Peek()
    }

    /** The best opposite level holds, at its front, the first order of the opposite queue. */
    lemma BestIsFront(incoming: Side)
      requires Sides()
      ensures BestOpposite(incoming) == null <==> Plan().Queue(Opposite(incoming)) == []
      ensures BestOpposite(incoming) != null ==>
        && BestOpposite(incoming) in SideOf(Opposite(incoming)).heap.levels && BestOpposite(incoming).orders != []
        && BestOpposite(incoming).orders[0] == Plan().Queue(Opposite(incoming))[0]
        && BestOpposite(incoming).priceCents == Plan().Queue(Opposite(incoming))[0].Price()
    {
      SideOf(Opposite(incoming)).PeekIsBest();
    }

    /** The heap, level and price-map part of adding an order. */
    method Enqueue(e: Element, ghost k: nat) returns (lvl: Level)
      requires Sides() && Joins(e.order.side, Plan().Queue(e.order.side), e.Price(), k)
      requires e.order.typ.Limit? && e.order.price.Some? && e.token == nextToken
      requires LayoutOk(Plan()) && e.order !in Resting()
      modifies SideRepr()
      ensures Sides() && fresh(SideRepr() - old(SideRepr()))
      ensures Grown(old(Plan()), Plan(), e.order.side, k, e, lvl)
    {
      hide SideValid, LayoutOk;
      FreshElement(Plan(), e);
      lvl := SideOf(e.order.side).Add(e, k);
    }

    /** An order joins its price level at the back. */
    method AddResting(o: Order)
      requires Valid() && o !in Resting() && RestsOn(o.side, o.Row())
      modifies Repr()
      ensures Valid() && View() == PriorityBook.AddResting(old(View()), o.Row())
      ensures Resting() == old(Resting()) + {o} && fresh(Repr() - old(Repr()))
    {
      hide SideValid, LayoutOk, RestWhereTheyMay, Image, Grown;
      var e := Element(nextToken, o);
      ghost var l := Plan();
      ghost var k := JoinPosition(o.side, e.Price());
      OrdersApart(l.Resting() + {o});
      var lvl := Enqueue(e, k);
      ghost var mid := Plan();
      SameImage(l);
      AddedAll(l, mid, o.side, k, e, lvl);
      locations := locations[o.id := Spot(o.side, lvl, e)];
      nextToken := nextToken + 1;
      assert Plan() == Filed(mid, o.side, e, lvl);
    }

    /** Where to find what `removeFront` is to take off this level. */
    lemma Locate(id: OrderId, side: Side, lvl: Level) returns (k: nat)
      requires Sides() && LayoutOk(Plan()) && id in locations && lvl in SideOf(side).heap.levels
      ensures Locates(Plan(), id, side, lvl.priceCents, k)
      ensures k == |Plan().Queue(side)| ==> locations[id].elem !in lvl.orders
      ensures DistinctElements(Plan().Queue(side))
    {
      var spot := locations[id];
      var q := Plan().Queue(side);
      assert SpotOk(Plan(), id, spot);
      AtPriceMember(q, lvl.priceCents, spot.elem);
      if spot.side == side && spot.elem.Price() == lvl.priceCents {
        k :| 0 <= k < |q| && q[k] == spot.elem;
      } else {
        k := |q|;
        OneSideOnly(Plan(), spot.elem, spot.side);
      }
    }

    /** Removes an order from a level and prunes the level if it becomes empty. */
    method RemoveFront(o: Order, side: Side, lvl: Level)
      requires Valid() && lvl in SideOf(side).heap.levels
      modifies Repr()
      ensures Valid() && View() == PriorityBook.RemoveFront(old(View()), o.id, side, lvl.priceCents)
      ensures Resting() <= old(Resting()) && Repr() <= old(Repr()) && QueuesWithin(Plan(), old(Plan()))
      ensures o.id in old(locations) ==>
        var s := old(locations)[o.id];
        s.side == side && s.elem.Price() == lvl.priceCents ==> s.elem.order !in Resting()
    {
      hide SideValid, LayoutOk, RestWhereTheyMay, Image, Removed, Locates, Shrunk;
      if o.id !in locations {
        AbsentIsNoop(o.id, side, lvl.priceCents);
        return;
      }
      var loc := locations[o.id];
      ghost var l := Plan();
      ghost var k := Locate(o.id, side, lvl);
      OrdersApart(l.Resting());
      Dequeue(o.id, side, lvl, k);
      ghost var mid := Plan();
      SameImage(l);
      ForgotLayout(l, mid, o.id, side, lvl.priceCents, k);
      TakenIsGone(l, mid, o.id, side, lvl.priceCents, k);
      ForgotRows(l, mid, o.id, side, k);
      ForgotImage(l, mid, o.id, side, lvl.priceCents, k);
      locations := locations - {o.id};
      assert Plan() == Forgot(mid, o.id);
    }

    /** The heap, level and price-map part of removing an order. */
    method Dequeue(id: OrderId, side: Side, lvl: Level, ghost k: nat)
      requires Sides() && lvl in SideOf(side).heap.levels && Locates(Plan(), id, side, lvl.priceCents, k)
      requires k == |Plan().Queue(side)| ==> locations[id].elem !in lvl.orders
      modifies SideRepr()
      ensures Sides() && SideRepr() <= old(SideRepr())
      ensures Shrunk(old(Plan()), Plan(), side, k)
    {
      hide SideValid;
      SideOf(side).Drop(lvl, locations[id].elem, k);
      PricesMapped(side);
    }

    lemma PricesMapped(side: Side)
      requires Sides()
      ensures forall i :: 0 <= i < |Plan().Queue(side)| ==> Plan().Queue(side)[i].Price() in Plan().Index(side)
    {
    }

    lemma AbsentIsNoop(id: OrderId, side: Side, price: int)
      requires id !in locations
      ensures PriorityBook.RemoveFront(View(), id, side, price) == View()
    {
    }

    /** Takes a resting order off the book by id; null if the id is not on it. */
    method Cancel(id: OrderId) returns (o: Order?)
      requires Valid()
      modifies Repr()
      ensures Valid() && View() == PriorityBook.Cancel(old(View()), id)
      ensures Resting() <= old(Resting()) && Repr() <= old(Repr())
      ensures o == null <==> id !in old(locations)
      ensures o != null ==>
        o in old(Resting()) && o !in Resting() && Lookup(old(View()), id) == Some(old(o.Row())) && o.id == id
    {
      if id !in locations {
        return null;
      }
      var loc := locations[id];
      o := loc.elem.order;
      SpotIsLookup(id);
      RemoveFront(o, loc.side, loc.lvl);
    }

    lemma SpotIsLookup(id: OrderId)
      requires Valid() && id in locations
      ensures
        var s := locations[id];
        && s.elem.order in Resting() && s.elem.order.id == id && s.lvl in SideOf(s.side).heap.levels
        && s.lvl.priceCents == s.elem.Price() == View().locations[id].price && View().locations[id].side == s.side
        && Lookup(View(), id) == Some(s.elem.order.Row())
    {
      var s := locations[id];
      var q := Plan().Queue(s.side);
      assert SpotOk(Plan(), id, s);
      var k :| 0 <= k < |q| && q[k] == s.elem;
      assert s.elem.order in OrdersOf(q);
      IndexOfElement(q, k);
      assert View().Queue(s.side) == Entries(q);
    }

    /** The first order of a side is at no other place of the book. */
    lemma HeadIsAlone(side: Side)
      requires Sides() && LayoutOk(Plan()) && Plan().Queue(side) != []
      ensures Plan().Queue(side)[0].order in Resting()
      ensures forall i :: 1 <= i < |Plan().Queue(side)| ==>
        Plan().Queue(side)[i].order in Resting() && Plan().Queue(side)[i].order != Plan().Queue(side)[0].order
      ensures forall i :: 0 <= i < |Plan().Queue(Opposite(side))| ==>
        Plan().Queue(Opposite(side))[i].order in Resting()
          && Plan().Queue(Opposite(side))[i].order != Plan().Queue(side)[0].order
    {
      OneSideOnlyOrder(Plan(), side);
      assert Plan().Queue(side)[0].order in OrdersOf(Plan().Queue(side));
    }

    lemma JoinPosition(side: Side, p: int) returns (k: nat)
      requires Sides()
      ensures Joins(side, Plan().Queue(side), p, k)
    {
      k := JoinExists(side, Plan().Queue(side), p);
    }

    /** Orders are none of the objects the book is made of. */
    lemma OrdersApart(os: set<Order>)
      ensures forall o :: o in os ==> o !in Repr()
    {
    }
  }

  lemma OneSideOnly(l: Layout, e: Element, side: Side)
    requires LayoutOk(l) && e in l.Queue(side)
    ensures e !in l.Queue(Opposite(side))
  {
    assert e.order in OrdersOf(l.Queue(side));
    assert forall x :: x in l.Queue(Opposite(side)) ==> x.order in OrdersOf(l.Queue(Opposite(side)));
  }

  /** A layout with a place and a fresh token noted for the element just queued. */
  function Filed(mid: Layout, side: Side, e: Element, lvl: Level): Layout {
    mid.(locations := mid.locations[e.order.id := Spot(side, lvl, e)], next := mid.next + 1)
  }

  lemma AddedAll(l: Layout, mid: Layout, side: Side, k: nat, e: Element, lvl: Level)
    requires LayoutOk(l) && RestWhereTheyMay(l) && Grown(l, mid, side, k, e, lvl) && e.order !in l.Resting()
    requires mid.locations == l.locations && mid.next == l.next == e.token
    requires Joins(side, l.Queue(side), e.Price(), k) && RestsOn(side, e.order.Row())
    ensures
      var l' := Filed(mid, side, e, lvl);
      && LayoutOk(l') && RestWhereTheyMay(l') && l'.Resting() == l.Resting() + {e.order}
      && Image(l') == AddResting(Image(l), e.order.Row())
  {
    var l' := Filed(mid, side, e, lvl);
    assert Added(l, l', side, k, e, lvl);
    AddedLayout(l, l', side, k, e, lvl);
    AddedRows(l, l', side, k, e, lvl);
    AddedImage(l, l', side, k, e, lvl);
  }
}
