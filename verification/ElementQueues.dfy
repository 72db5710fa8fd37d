/** List elements in priority order, split by price: how the FIFO lists of the levels make up the
    queue of a side. */
module ElementQueues {
  import opened Orders
  import opened PriorityBook
  import opened LevelHeaps

  /** The elements at one price, in queue order. */
  function AtPrice(q: seq<Element>, p: int): seq<Element> {
    if q == [] then []
    else (if q[0].Price() == p then [q[0]] else []) + AtPrice(q[1..], p)
  }

  lemma {:induction false} AtPriceConcat(a: seq<Element>, b: seq<Element>, p: int)
    ensures AtPrice(a + b, p) == AtPrice(a, p) + AtPrice(b, p)
  {
    if a == [] {
      assert a + b == b;
    } else {
      AtPriceConcat(a[1..], b, p);
      assert (a + b)[0] == a[0] && (a + b)[1..] == a[1..] + b;
      var head := if a[0].Price() == p then [a[0]] else [];
      assert head + (AtPrice(a[1..], p) + AtPrice(b, p)) == (head + AtPrice(a[1..], p)) + AtPrice(b, p);
    }
  }

  lemma {:induction false} AtPriceNone(q: seq<Element>, p: int)
    requires forall i :: 0 <= i < |q| ==> q[i].Price() != p
    ensures AtPrice(q, p) == []
  {
    if q != [] { AtPriceNone(q[1..], p); }
  }

  /** An element at price `p` of the queue is in the level of that price, and only such are. */
  lemma {:induction false} AtPriceMember(q: seq<Element>, p: int, e: Element)
    ensures e in AtPrice(q, p) <==> e in q && e.Price() == p
  {
    if q != [] {
      AtPriceMember(q[1..], p, e);
      assert e in q <==> e == q[0] || e in q[1..];
    }
  }

  predicate SortedElements(side: Side, q: seq<Element>) {
    forall i, j :: 0 <= i < j < |q| ==> !Ahead(side, q[j].Price(), q[i].Price())
  }

  predicate DistinctElements(q: seq<Element>) {
    forall i, j :: 0 <= i < j < |q| ==> q[i].token != q[j].token && q[i].order != q[j].order
  }

  function Insertion(q: seq<Element>, k: nat, e: Element): seq<Element>
    requires k <= |q|
  {
    q[..k] + [e] + q[k..]
  }

  function Removal(q: seq<Element>, k: nat): seq<Element>
    requires k < |q|
  {
    q[..k] + q[k + 1..]
  }

  lemma {:induction false} AtPriceInsert(q: seq<Element>, k: nat, e: Element, p: int)
    requires k <= |q| && forall i :: k <= i < |q| ==> q[i].Price() != e.Price()
    ensures AtPrice(Insertion(q, k, e), p) == AtPrice(q, p) + if p == e.Price() then [e] else []
  {
    AtPriceConcat(q[..k] + [e], q[k..], p);
    AtPriceConcat(q[..k], [e], p);
    AtPriceConcat(q[..k], q[k..], p);
    assert q[..k] + q[k..] == q;
    if p == e.Price() { AtPriceNone(q[k..], p); }
  }

  /** list.List.Remove: drops the element if the list has it. */
  function Remove(os: seq<Element>, e: Element): seq<Element> {
    if os == [] then [] else if os[0] == e then os[1..] else [os[0]] + Remove(os[1..], e)
  }

  lemma {:induction false} RemoveAbsent(os: seq<Element>, e: Element)
    requires e !in os
    ensures Remove(os, e) == os
  {
    if os != [] { RemoveAbsent(os[1..], e); }
  }

  lemma {:induction false} RemoveMiddle(a: seq<Element>, e: Element, b: seq<Element>)
    requires e !in a
    ensures Remove(a + [e] + b, e) == a + b
  {
    if a == [] {
      assert a + [e] + b == [e] + b;
      assert a + b == b;
    } else {
      RemoveMiddle(a[1..], e, b);
      assert (a + [e] + b)[1..] == a[1..] + [e] + b;
      assert a + b == [a[0]] + (a[1..] + b);
    }
  }

  /** Taking an element out of the queue takes it out of its level and no other. */
  lemma {:induction false} AtPriceRemove(q: seq<Element>, k: nat, p: int)
    requires k < |q| && DistinctElements(q)
    ensures AtPrice(Removal(q, k), p) == if p == q[k].Price() then Remove(AtPrice(q, p), q[k]) else AtPrice(q, p)
  {
    var a, e, b := q[..k], q[k], q[k + 1..];
    assert q == a + [e] + b;
    AtPriceConcat(a + [e], b, p);
    AtPriceConcat(a, [e], p);
    AtPriceConcat(a, b, p);
    assert AtPrice([e], p) == if p == e.Price() then [e] else [];
    if p == e.Price() {
      assert e !in a by { assert forall i :: 0 <= i < k ==> a[i] == q[i] && q[i].token != q[k].token; }
      AtPriceMember(a, p, e);
      RemoveMiddle(AtPrice(a, p), e, AtPrice(b, p));
    }
  }

  /** The first element of a sorted queue is the first of the best level. */
  lemma {:induction false} FrontOfQueue(side: Side, q: seq<Element>, p: int)
    requires SortedElements(side, q) && AtPrice(q, p) != []
    requires forall i :: 0 <= i < |q| ==> !Ahead(side, q[i].Price(), p)
    ensures q != [] && q[0] == AtPrice(q, p)[0]
  {
    AtPriceMember(q, p, AtPrice(q, p)[0]);
    var k :| 0 <= k < |q| && q[k] == AtPrice(q, p)[0];
    assert k > 0 ==> !Ahead(side, q[k].Price(), q[0].Price());
    assert q[0].Price() == p;
  }

  // ---------- elements as entries of the abstract book ----------

  ghost function OrdersOf(q: seq<Element>): set<Order> {
    set i | 0 <= i < |q| :: q[i].order
  }

  ghost function Entries(q: seq<Element>): (es: seq<Entry>)
    reads OrdersOf(q)
    ensures |es| == |q|
    ensures forall i :: 0 <= i < |q| ==> es[i] == Entry(q[i].token, q[i].order.Row())
    ensures forall i :: 0 <= i < |q| ==> es[i].Price() == q[i].Price()
  {
    seq(|q|, i requires 0 <= i < |q| reads OrdersOf(q) => Entry(q[i].token, q[i].order.Row()))
  }

  lemma EntriesInsertion(q: seq<Element>, k: nat, e: Element)
    requires k <= |q|
    ensures Entries(Insertion(q, k, e)) == Entries(q)[..k] + [Entry(e.token, e.order.Row())] + Entries(q)[k..]
  {
  }

  lemma EntriesRemoval(q: seq<Element>, k: nat)
    requires k < |q|
    ensures Entries(Removal(q, k)) == Entries(q)[..k] + Entries(q)[k + 1..]
  {
  }
}
