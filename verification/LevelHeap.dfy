/** Price levels and the binary heap that orders them, with the sift-up and sift-down of Go's
    container/heap and the back-index each level keeps of its own position. */
module LevelHeaps {
  import opened Orders
  import opened PriorityBook

  /** An element of a level's FIFO list; `token` is its identity. */
  datatype Element = Element(token: nat, order: Order)
  {
    function Price(): int {
      CentsOf(order.price)
    }
  }

  class Level {
    const priceCents: int
    var orders: seq<Element>
    var index: int

    constructor (priceCents: int)
      ensures this.priceCents == priceCents && orders == []
    {
      this.priceCents := priceCents;
      orders := [];
      index := 0;
    }

    /** The oldest order at this level, or null if there is none. */
    function FrontOrder(): (o: Order?)
      reads this
      ensures o == null <==> orders == []
      ensures o != null ==> o == orders[0].order
    {
      if |orders| == 0 then null else orders[0].order
    }
  }

  function Parent(c: nat): nat {
    if c == 0 then 0 else (c - 1) / 2
  }

  /** The level at `c` is not better than the one at `p`. */
  predicate Below(side: Side, ls: seq<Level>, c: nat, p: nat) {
    c < |ls| && p < |ls| && !Ahead(side, ls[c].priceCents, ls[p].priceCents)
  }

  /** Heap order between every position below `n` and its parent. */
  predicate HeapOrdered(side: Side, ls: seq<Level>, n: nat) {
    forall c: nat :: 1 <= c < n ==> Below(side, ls, c, Parent(c))
  }

  /** Heap order but for position `hole` and its parent, with the hole's children already below
      that parent: what sift-up repairs. */
  predicate UpHole(side: Side, ls: seq<Level>, n: nat, hole: nat) {
    && (forall c: nat :: 1 <= c < n && c != hole ==> Below(side, ls, c, Parent(c)))
    && (forall c: nat :: 1 <= c < n && Parent(c) == hole && hole > 0 ==> Below(side, ls, c, Parent(hole)))
  }

  /** Heap order but for position `i` and its children, and, while nothing has moved, but for
      `from` and its parent: what sift-down repairs. */
  predicate DownHole(side: Side, ls: seq<Level>, n: nat, from: nat, i: nat) {
    && (forall c: nat :: 1 <= c < n && Parent(c) != i && (c != from || from < i) ==> Below(side, ls, c, Parent(c)))
    && (forall c: nat :: 1 <= c < n && Parent(c) == i && i > 0 ==> Below(side, ls, c, Parent(i)))
  }

  function Swapped(ls: seq<Level>, i: nat, j: nat): seq<Level>
    requires i < |ls| && j < |ls|
  {
    ls[i := ls[j]][j := ls[i]]
  }

  lemma SwapUp(side: Side, ls: seq<Level>, n: nat, j: nat)
    requires 0 < j < n <= |ls| && UpHole(side, ls, n, j)
    requires Ahead(side, ls[j].priceCents, ls[Parent(j)].priceCents)
    ensures UpHole(side, Swapped(ls, Parent(j), j), n, Parent(j))
  {
    var i := Parent(j);
    var r := Swapped(ls, i, j);
    forall c: nat | 1 <= c < n && c != i ensures Below(side, r, c, Parent(c)) {
      if c != j { assert Below(side, ls, c, Parent(c)); }
      if Parent(c) == j { assert Below(side, ls, c, i); }
    }
    forall c: nat | 1 <= c < n && Parent(c) == i && i > 0 ensures Below(side, r, c, Parent(i)) {
      assert Below(side, ls, i, Parent(i));
      if c != j { assert Below(side, ls, c, i); }
    }
  }

  /** Moving the better child up. */
  lemma SwapDown(side: Side, ls: seq<Level>, n: nat, from: nat, i: nat, j: nat)
    requires from <= i < j < n <= |ls| && Parent(j) == i && DownHole(side, ls, n, from, i)
    requires Ahead(side, ls[j].priceCents, ls[i].priceCents)
    requires forall c: nat :: 1 <= c < n && Parent(c) == i ==> Below(side, ls, c, j)
    ensures DownHole(side, Swapped(ls, i, j), n, from, j)
  {
    var r := Swapped(ls, i, j);
    forall c: nat | 1 <= c < n && Parent(c) != j && (c != from || from < j)
      ensures Below(side, r, c, Parent(c))
    {
      if Parent(c) == i {
        assert Below(side, ls, c, j);
      } else if c == i {
        assert i > 0 ==> Below(side, ls, j, Parent(i));
      } else {
        assert Below(side, ls, c, Parent(c));
      }
    }
    forall c: nat | 1 <= c < n && Parent(c) == j ensures Below(side, r, c, i) {
      assert Below(side, ls, c, Parent(c));
    }
  }

  /** The better child of `i`, the left one on a tie. */
  function BetterChild(side: Side, ls: seq<Level>, n: nat, i: nat): (j: nat)
    requires n <= |ls| && 2 * i + 1 < n
    ensures i < j < n && Parent(j) == i
    ensures forall c: nat :: 1 <= c < n && Parent(c) == i ==> Below(side, ls, c, j)
  {
    var j1 := 2 * i + 1;
    var j2 := j1 + 1;
    var j := if j2 < n && Ahead(side, ls[j2].priceCents, ls[j1].priceCents) then j2 else j1;
    assert forall c: nat :: 1 <= c < n && Parent(c) == i ==> c == j1 || c == j2;
    j
  }

  /** Sift-down stops at `i`: no child, or none better. */
  predicate Settled(side: Side, ls: seq<Level>, n: nat, i: nat)
    requires n <= |ls| && i < n
  {
    2 * i + 1 >= n || !Ahead(side, ls[BetterChild(side, ls, n, i)].priceCents, ls[i].priceCents)
  }

  /** Where sift-down stops, the hole is closed. */
  lemma DownStops(side: Side, ls: seq<Level>, n: nat, from: nat, i: nat)
    requires from <= i < n <= |ls| && DownHole(side, ls, n, from, i) && Settled(side, ls, n, i)
    ensures i > from ==> HeapOrdered(side, ls, n)
    ensures i == from ==> UpHole(side, ls, n, from)
  {
    forall c: nat | 1 <= c < n && (c != from || i > from) ensures Below(side, ls, c, Parent(c)) {
      if Parent(c) == i { assert Below(side, ls, c, BetterChild(side, ls, n, i)); }
    }
  }

  lemma SwapKeepsMembers(ls: seq<Level>, i: nat, j: nat)
    requires i < |ls| && j < |ls|
    ensures forall l :: l in Swapped(ls, i, j) <==> l in ls
  {
    var r := Swapped(ls, i, j);
    forall l | l in ls ensures l in r {
      var k :| 0 <= k < |ls| && ls[k] == l;
      assert r[if k == i then j else if k == j then i else k] == l;
    }
  }

  /** The root of a heap is at least as good as every level. */
  lemma {:induction false} RootIsBest(side: Side, ls: seq<Level>, k: nat)
    requires HeapOrdered(side, ls, |ls|) && k < |ls|
    ensures Below(side, ls, k, 0)
  {
    if k > 0 {
      RootIsBest(side, ls, Parent(k));
      assert Below(side, ls, k, Parent(k));
    }
  }

  class LevelHeap {
    const side: Side
    var levels: seq<Level>

    constructor (side: Side)
      ensures this.side == side && levels == []
    {
      this.side := side;
      levels := [];
    }

    ghost function Elements(): set<Level>
      reads this
    {
      set l | l in levels
    }

    /** Every level knows its position; in particular no level occurs twice. */
    ghost predicate Indexed()
      reads this, Elements()`index
    {
      forall i :: 0 <= i < |levels| ==> levels[i].index == i
    }

    ghost predicate Valid()
      reads this, Elements()`index
    {
      Indexed() && HeapOrdered(side, levels, |levels|)
    }

    function Less(i: nat, j: nat): bool
      requires i < |levels| && j < |levels|
      reads this
    {
      Ahead(side, levels[i].priceCents, levels[j].priceCents)
    }

    method Swap(i: nat, j: nat)
      requires i < |levels| && j < |levels| && Indexed()
      modifies this`levels, {levels[i], levels[j]}`index
      ensures levels == Swapped(old(levels), i, j) && Indexed()
    {
      levels := levels[i := levels[j]][j := levels[i]];
      levels[i].index := i;
      levels[j].index := j;
    }

    /** Sift-up; during a removal the last position is already out of play, hence `n`. */
    method Up(start: nat, ghost n: nat)
      requires start < n <= |levels| && Indexed() && UpHole(side, levels, n, start)
      modifies this`levels, Elements()`index
      ensures Indexed() && |levels| == old(|levels|) && levels[n..] == old(levels)[n..]
      ensures HeapOrdered(side, levels, n)
      ensures forall l :: l in levels <==> l in old(levels)
    {
      var j: nat := start;
      while true
        invariant j < n <= |levels| == old(|levels|)
        invariant Indexed() && UpHole(side, levels, n, j) && levels[n..] == old(levels)[n..]
        invariant forall l :: l in levels <==> l in old(levels)
        decreases j
      {
        var i := Parent(j);
        if i == j || !Less(j, i) {
          break;
        }
        SwapUp(side, levels, n, j);
        SwapKeepsMembers(levels, i, j);
        Swap(i, j);
        j := i;
      }
    }

    method Down(from: nat, n: nat) returns (moved: bool)
      requires from < n <= |levels| && Indexed() && DownHole(side, levels, n, from, from)
      modifies this`levels, Elements()`index
      ensures Indexed() && |levels| == old(|levels|) && levels[n..] == old(levels)[n..]
      ensures forall l :: l in levels <==> l in old(levels)
      ensures moved ==> HeapOrdered(side, levels, n)
      ensures !moved ==> levels == old(levels) && UpHole(side, levels, n, from)
    {
      var i := from;
      while true
        invariant from <= i < n <= |levels| == old(|levels|)
        invariant Indexed() && DownHole(side, levels, n, from, i)
        invariant levels[n..] == old(levels)[n..] && (i == from ==> levels == old(levels))
        invariant forall l :: l in levels <==> l in old(levels)
        decreases n - i
      {
        if 2 * i + 1 >= n {
          break;
        }
        var j := BetterChild(side, levels, n, i);
        if !Less(j, i) {
          break;
        }
        SwapDown(side, levels, n, from, i, j);
        SwapKeepsMembers(levels, i, j);
        Swap(i, j);
        i := j;
      }
      DownStops(side, levels, n, from, i);
      moved := i > from;
    }

    /** heap.Push */
    method Push(lvl: Level)
      requires Valid() && lvl !in levels
      modifies this`levels, Elements()`index, lvl`index
      ensures Valid() && |levels| == old(|levels|) + 1
      ensures forall l :: l in levels <==> l in old(levels) || l == lvl
    {
      lvl.index := |levels|;
      levels := levels + [lvl];
      Up(|levels| - 1, |levels|);
    }

    /** heap.Remove at a level's own index */
    method Remove(i: nat) returns (removed: Level)
      requires Valid() && i < |levels|
      modifies this`levels, Elements()`index
      ensures Valid() && |levels| == old(|levels|) - 1 && removed == old(levels)[i]
      ensures forall l :: l in levels <==> l in old(levels) && l != removed
    {
      var n := |levels| - 1;
      if n != i {
        SwapKeepsMembers(levels, i, n);
        Swap(i, n);
        var moved := Down(i, n);
        if !moved {
          Up(i, n);
        }
      }
      removed := levels[n];
      assert forall l :: l in levels[..n] <==> l in levels && l != removed;
      levels := levels[..n];
    }
  }
}
