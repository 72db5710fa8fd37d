/** A healthy book seen as a table from order id to resting order, how each operation changes
    that table, and why the two sides never cross. */
module BookContents {
  import opened Base
  import opened Orders
  import opened PriorityBook
  import opened Matching
  import opened PriceTime

  lemma EntryLookup(b: Book, id: OrderId, k: nat)
    requires WellFormed(b) && id in b.locations
    requires k < |b.Queue(b.locations[id].side)| && b.Queue(b.locations[id].side)[k].token == b.locations[id].token
    ensures Lookup(b, id) == Some(b.Queue(b.locations[id].side)[k].row)
  {
    var q := b.Queue(b.locations[id].side);
    assert SideOk(b.locations[id].side, q, b.next);
    assert IndexOf(q, b.locations[id].token) == k;
  }

  /** Every element of a healthy book is what its id looks up. */
  lemma EntryIsLookup(b: Book, side: Side, k: nat)
    requires WellFormed(b) && Unique(b) && k < |b.Queue(side)|
    ensures Lookup(b, b.Queue(side)[k].row.id) == Some(b.Queue(side)[k].row)
  {
    var e := b.Queue(side)[k];
    assert b.locations[e.row.id] == Location(side, e.Price(), e.token);
    EntryLookup(b, e.row.id, k);
  }

  /** And what an id looks up is an element of the book. */
  lemma LookupIsEntry(b: Book, id: OrderId) returns (k: nat)
    requires WellFormed(b) && Lookup(b, id).Some?
    ensures id in b.locations && k < |b.Queue(b.locations[id].side)|
    ensures b.Queue(b.locations[id].side)[k].token == b.locations[id].token
    ensures b.Queue(b.locations[id].side)[k].row == Lookup(b, id).value && Lookup(b, id).value.id == id
  {
    var q := b.Queue(b.locations[id].side);
    k := IndexOf(q, b.locations[id].token);
    LookupFinds(b, id);
  }

  // ---------- AddResting ----------

  lemma AddRestingHealthy(b: Book, r: OrderRow)
    requires Healthy(b) && LiveRow(r) && r.typ.Limit? && r.id !in b.locations
    ensures Healthy(AddResting(b, r))
  {
    hide WellFormed;
    AddRestingWellFormed(b, r);
    var b' := AddResting(b, r);
    var p := JoinAt(r.side, b.Queue(r.side), r.price.value);
    forall side, i | 0 <= i < |b'.Queue(side)|
      ensures LiveRow(b'.Queue(side)[i].row)
      ensures b'.Queue(side)[i].row.id in b'.locations
      ensures b'.locations[b'.Queue(side)[i].row.id] ==
        Location(side, b'.Queue(side)[i].Price(), b'.Queue(side)[i].token)
    {
      if side == r.side && i == p {
        assert b'.Queue(side)[i] == Entry(b.next, r);
      } else {
        var j := if side == r.side && i > p then i - 1 else i;
        var e := b.Queue(side)[j];
        assert b'.Queue(side)[i] == e;
        assert LiveRow(e.row) && b.locations[e.row.id] == Location(side, e.Price(), e.token);
      }
    }
  }

  lemma AddRestingContents(b: Book, r: OrderRow, id: OrderId)
    requires WellFormed(b) && RestsOn(r.side, r)
    ensures Lookup(AddResting(b, r), id) == if id == r.id then Some(r) else Lookup(b, id)
  {
    hide WellFormed;
    AddRestingWellFormed(b, r);
    var b' := AddResting(b, r);
    var q := b.Queue(r.side);
    var p := JoinAt(r.side, q, r.price.value);
    if id == r.id {
      assert b'.Queue(r.side)[p] == Entry(b.next, r);
      EntryLookup(b', id, p);
    } else if id in b.locations {
      LookupFinds(b, id);
      var k := LookupIsEntry(b, id);
      if b.locations[id].side == r.side {
        var j := if k < p then k else k + 1;
        assert b'.Queue(r.side)[j] == q[k];
        EntryLookup(b', id, j);
      }
    }
  }

  // ---------- Cancel ----------

  lemma CancelIsWithout(b: Book, id: OrderId)
    requires WellFormed(b) && id in b.locations
    ensures
      var loc := b.locations[id];
      var q := b.Queue(loc.side);
      var p := IndexOf(q, loc.token);
      p < |q| && Cancel(b, id) == b.WithQueue(loc.side, q[..p] + q[p + 1..]).(locations := b.locations - {id})
  {
    hide SideOk, WellFormed;
    LookupFinds(b, id);
  }

  /** An element that survives a cancel is one that was there and is not the cancelled one. */
  lemma CancelEntry(b: Book, id: OrderId, side: Side, i: nat) returns (j: nat)
    requires WellFormed(b) && Unique(b) && id in b.locations
    requires i < |Cancel(b, id).Queue(side)|
    ensures j < |b.Queue(side)| && Cancel(b, id).Queue(side)[i] == b.Queue(side)[j]
    ensures b.Queue(side)[j].row.id != id
  {
    hide Cancel, LocationsOk, IndexOf;
    CancelIsWithout(b, id);
    var loc := b.locations[id];
    var p := IndexOf(b.Queue(loc.side), loc.token);
    j := if side == loc.side && i >= p then i + 1 else i;
    OtherElement(b, id, side, j);
  }

  lemma OtherElement(b: Book, id: OrderId, side: Side, j: nat)
    requires SideOk(side, b.Queue(side), b.next) && Unique(b) && id in b.locations && j < |b.Queue(side)|
    requires side == b.locations[id].side ==> j != IndexOf(b.Queue(side), b.locations[id].token)
    ensures b.Queue(side)[j].row.id != id
  {
    var e := b.Queue(side)[j];
    assert b.locations[e.row.id] == Location(side, e.Price(), e.token);
  }

  lemma CancelHealthy(b: Book, id: OrderId)
    requires Healthy(b)
    ensures Healthy(Cancel(b, id))
  {
    if id in b.locations {
      CancelWellFormed(b, id);
      var b' := Cancel(b, id);
      forall side, i | 0 <= i < |b'.Queue(side)|
        ensures LiveRow(b'.Queue(side)[i].row)
        ensures b'.Queue(side)[i].row.id in b'.locations
        ensures b'.locations[b'.Queue(side)[i].row.id] ==
          Location(side, b'.Queue(side)[i].Price(), b'.Queue(side)[i].token)
      {
        var j := CancelEntry(b, id, side, i);
        var e := b.Queue(side)[j];
        assert LiveRow(e.row) && b.locations[e.row.id] == Location(side, e.Price(), e.token);
      }
    }
  }

  lemma CancelContents(b: Book, id: OrderId, j: OrderId)
    requires WellFormed(b)
    ensures Lookup(Cancel(b, id), j) == if j == id then None else Lookup(b, j)
  {
    if id in b.locations && j != id && j in b.locations {
      LookupFinds(b, j);
      var k := LookupIsEntry(b, j);
      CancelIsWithout(b, id);
      if b.locations[j].side == b.locations[id].side {
        SurvivesCancel(b, id, j, k);
      }
    }
  }

  lemma SurvivesCancel(b: Book, id: OrderId, j: OrderId, k: nat)
    requires WellFormed(b) && id in b.locations && j in b.locations && id != j
    requires b.locations[j].side == b.locations[id].side
    requires k < |b.Queue(b.locations[j].side)| && b.Queue(b.locations[j].side)[k].token == b.locations[j].token
    ensures Lookup(Cancel(b, id), j) == Some(b.Queue(b.locations[j].side)[k].row)
  {
    hide WellFormed, Lookup, Cancel;
    PointersDiffer(b, id, j);
    CancelIsWithout(b, id);
    CancelWellFormed(b, id);
    var q := b.Queue(b.locations[id].side);
    var p := IndexOf(q, b.locations[id].token);
    var i := if k < p then k else k - 1;
    assert Cancel(b, id).Queue(b.locations[id].side)[i] == q[k];
    EntryLookup(Cancel(b, id), j, i);
  }

  // ---------- one trade ----------

  /** A trade with the front maker changes the contents at the maker's id only. */
  lemma ExecuteContents(s: State, qty: int, id: OrderId)
    requires Healthy(s.book) && s.Opp() != []
    requires 0 < qty <= s.Opp()[0].row.Remaining()
    ensures
      var m := s.Opp()[0].row;
      Lookup(Execute(s, qty).book, id) ==
        if id != m.id then Lookup(s.book, id)
        else if qty == m.Remaining() then None else Some(FillRow(m, qty))
  {
    hide WellFormed, FillRow, Unique;
    ExecuteBook(s, qty);
    var side := Opposite(s.incoming.side);
    var m := s.Opp()[0];
    var b' := Execute(s, qty).book;
    EntryIsLookup(s.book, side, 0);
    if id == m.row.id {
      if qty < m.row.Remaining() {
        EntryIsLookup(b', side, 0);
      }
    } else if id in s.book.locations {
      LookupFinds(s.book, id);
      var k := LookupIsEntry(s.book, id);
      if s.book.locations[id].side == side {
        assert k > 0;
        var j := if qty == m.row.Remaining() then k - 1 else k;
        assert b'.Queue(side)[j] == s.Opp()[k];
        EntryLookup(b', id, j);
      }
    }
  }

  // ---------- the sides do not cross ----------

  /** Every bid is below every ask. */
  predicate Uncrossed(b: Book) {
    forall i, j :: 0 <= i < |b.bids| && 0 <= j < |b.asks| ==> b.bids[i].Price() < b.asks[j].Price()
  }

  /** A queue whose prices are among another's. */
  predicate PricesWithin(q': seq<Entry>, q: seq<Entry>) {
    forall i :: 0 <= i < |q'| ==> PriceIn(q'[i].Price(), q)
  }

  predicate PriceIn(p: int, q: seq<Entry>) {
    exists j :: 0 <= j < |q| && q[j].Price() == p
  }

  lemma UncrossedWithin(b: Book, b': Book, side: Side)
    requires Uncrossed(b) && b'.Queue(Opposite(side)) == b.Queue(Opposite(side))
    requires PricesWithin(b'.Queue(side), b.Queue(side))
    ensures Uncrossed(b')
  {
    forall i, j | 0 <= i < |b'.bids| && 0 <= j < |b'.asks|
      ensures b'.bids[i].Price() < b'.asks[j].Price()
    {
      var k := if side.Buy? then i else j;
      assert PriceIn(b'.Queue(side)[k].Price(), b.Queue(side));
    }
  }

  lemma CancelUncrossed(b: Book, id: OrderId)
    requires WellFormed(b) && Uncrossed(b)
    ensures Uncrossed(Cancel(b, id))
  {
    hide WellFormed, IndexOf;
    if id in b.locations {
      CancelIsWithout(b, id);
      var loc := b.locations[id];
      var q := b.Queue(loc.side);
      var p := IndexOf(q, loc.token);
      var q' := Cancel(b, id).Queue(loc.side);
      forall i | 0 <= i < |q'| ensures PriceIn(q'[i].Price(), q) {
        var j := if i < p then i else i + 1;
        assert q'[i] == q[j];
      }
      UncrossedWithin(b, Cancel(b, id), loc.side);
    }
  }

  /** Walking the opposite side leaves prices that were there before. */
  lemma WalkUncrossed(s0: State, s: State)
    requires s0.incoming.typ.Limit? ==> s0.incoming.price.Some?
    requires s.incoming.side == s0.incoming.side
    requires Uncrossed(s0.book) && Walked(s0, s)
    ensures Uncrossed(s.book)
  {
    var n := |s.trades|;
    var q, q' := s0.Opp(), s.Opp();
    forall i | 0 <= i < |q'| ensures PriceIn(q'[i].Price(), q) {
      if LastPartial(s) {
        assert TradedWith(s0, s, n - 1);
        assert q[n - 1 + i].Price() == q'[i].Price();
      } else {
        assert q[n + i] == q'[i];
      }
    }
    UncrossedWithin(s0.book, s.book, Opposite(s0.incoming.side));
  }

  /** An order that rests does so strictly short of the best price on the other side. */
  lemma RestUncrossed(s: State)
    requires WellFormed(s.book) && Uncrossed(s.book) && LiveRow(s.incoming) && s.incoming.typ.Limit?
    requires s.Opp() == [] || !WithinLimit(s.incoming, s.Opp()[0].Price())
    ensures Uncrossed(AddResting(s.book, s.incoming))
  {
    hide JoinAt;
    var r := s.incoming;
    var opp := s.Opp();
    var q := s.book.Queue(r.side);
    var p := JoinAt(r.side, q, r.price.value);
    var b' := AddResting(s.book, r);
    assert Sorted(Opposite(r.side), opp);
    forall i, j | 0 <= i < |b'.bids| && 0 <= j < |b'.asks|
      ensures b'.bids[i].Price() < b'.asks[j].Price()
    {
      var k := if r.side.Buy? then i else j;
      if k == p {
        assert b'.Queue(r.side)[k] == Entry(s.book.next, r);
      } else {
        assert b'.Queue(r.side)[k] == q[if k < p then k else k - 1];
      }
    }
  }

  /** Matching a live order with a fresh id keeps the book healthy and uncrossed. */
  lemma MatchKeepsBook(b: Book, r: OrderRow, funds: Option<int>)
    requires Startable(Start(b, r, funds)) && Uncrossed(b) && r.id !in b.locations
    ensures Runnable(Start(b, r, funds))
    ensures Healthy(Match(b, r, funds).state.book)
    ensures Uncrossed(Match(b, r, funds).state.book)
  {
    var s0 := Start(b, r, funds);
    MatchIsPriceTimeWalk(s0);
    var s := Loop(s0);
    WalkUncrossed(s0, s);
    if s.incoming.Remaining() > 0 && r.typ.Limit? {
      LoopLocations(s0);
      AddRestingHealthy(s.book, s.incoming);
      RestUncrossed(s);
    }
  }

  /** The loop adds no id to the book. */
  lemma {:induction false} LoopLocations(s: State)
    requires Runnable(s)
    ensures Loop(s).book.locations.Keys <= s.book.locations.Keys
    decreases s.incoming.Remaining(), Debt(s)
  {
    if Step(s).Some? {
      StepRunnable(s);
      StepDecreases(s);
      LoopLocations(Step(s).value);
      assert Step(s).value.book.locations.Keys <= s.book.locations.Keys;
    }
  }
}
