/** Rebuilding the book cannot be noticed. Insertion numbers are all that tells a rebuilt book from the live
    one, and nothing the matcher does depends on them: two books that differ in their numbers only go on alike
    through whatever comes, disciplined or not. */
module Transparency {
  import opened Base
  import opened Orders
  import opened PriorityBook
  import opened Matching
  import opened PriceTime
  import opened BookContents
  import opened Settlement
  import opened Consistency
  import opened Recovery
  import opened Exchange
  import opened Safety
  import opened CleanRuns
  import opened RoundTrip

  // ---------- books that differ in their insertion numbers ----------

  /** For each side, what the numbers of one book are called in the other. */
  datatype Renaming = Renaming(bids: map<nat, nat>, asks: map<nat, nat>)
  {
    function On(side: Side): map<nat, nat> {
      if side.Buy? then bids else asks
    }

    function With(side: Side, m: map<nat, nat>): Renaming {
      if side.Buy? then this.(bids := m) else this.(asks := m)
    }
  }

  /** One name for each number, from the numbers that have been given out. */
  predicate Naming(m: map<nat, nat>, n: nat, n': nat) {
    && (forall x, y :: x in m && y in m && m[x] == m[y] ==> x == y)
    && (forall x :: x in m ==> x < n && m[x] < n')
  }

  /** The same orders in the same places. */
  predicate Alike(m: map<nat, nat>, p: seq<Entry>, q: seq<Entry>) {
    |p| == |q| && forall i :: 0 <= i < |p| ==> p[i].token in m && q[i] == Entry(m[p[i].token], p[i].row)
  }

  predicate SameSpot(f: Renaming, l: Location, k: Location) {
    k.side == l.side && k.price == l.price && l.token in f.On(l.side) && k.token == f.On(l.side)[l.token]
  }

  predicate SameBook(f: Renaming, a: Book, b: Book) {
    && Alike(f.bids, a.bids, b.bids) && Alike(f.asks, a.asks, b.asks)
    && Naming(f.bids, a.next, b.next) && Naming(f.asks, a.next, b.next)
    && a.locations.Keys == b.locations.Keys
    && forall id :: id in a.locations ==> SameSpot(f, a.locations[id], b.locations[id])
  }

  lemma SameSide(f: Renaming, a: Book, b: Book, side: Side)
    requires SameBook(f, a, b)
    ensures Alike(f.On(side), a.Queue(side), b.Queue(side)) && Naming(f.On(side), a.next, b.next)
  {
  }

  // ---------- operations on them ----------

  lemma {:induction false} IndexAlike(m: map<nat, nat>, p: seq<Entry>, q: seq<Entry>, n: nat, n': nat, token: nat)
    requires Alike(m, p, q) && Naming(m, n, n') && token in m
    ensures IndexOf(q, m[token]) == IndexOf(p, token)
    decreases |p|
  {
    if p != [] && p[0].token != token {
      assert q[0].token != m[token];
      IndexAlike(m, p[1..], q[1..], n, n', token);
    }
  }

  lemma WithoutAlike(m: map<nat, nat>, p: seq<Entry>, q: seq<Entry>, n: nat, n': nat, token: nat)
    requires Alike(m, p, q) && Naming(m, n, n') && token in m
    ensures Alike(m, Without(p, token), Without(q, m[token]))
  {
    IndexAlike(m, p, q, n, n', token);
    var k := IndexOf(p, token);
    var x, y := Without(p, token), Without(q, m[token]);
    forall i | 0 <= i < |x| ensures x[i].token in m && y[i] == Entry(m[x[i].token], x[i].row) {
      var j := if k < |p| && i >= k then i + 1 else i;
      assert x[i] == p[j] && y[i] == q[j];
    }
  }

  lemma JoinAlike(m: map<nat, nat>, side: Side, p: seq<Entry>, q: seq<Entry>, price: int)
    requires Alike(m, p, q)
    ensures JoinAt(side, p, price) == JoinAt(side, q, price)
  {
    assert forall i :: 0 <= i < |p| ==> p[i].Price() == q[i].Price();
  }

  lemma AlikeMore(m: map<nat, nat>, p: seq<Entry>, q: seq<Entry>, n: nat, n': nat)
    requires Alike(m, p, q) && Naming(m, n, n')
    ensures Alike(m[n := n'], p, q)
  {
  }

  lemma InsertAlike(m: map<nat, nat>, side: Side, p: seq<Entry>, q: seq<Entry>, e: Entry, e': Entry)
    requires Alike(m, p, q) && e.token in m && e' == Entry(m[e.token], e.row)
    ensures Alike(m, Insert(side, p, e), Insert(side, q, e'))
  {
    JoinAlike(m, side, p, q, e.Price());
    var k := JoinAt(side, p, e.Price());
    var x, y := Insert(side, p, e), Insert(side, q, e');
    forall i | 0 <= i < |x| ensures x[i].token in m && y[i] == Entry(m[x[i].token], x[i].row) {
      assert x[i] == if i < k then p[i] else if i == k then e else p[i - 1];
      assert y[i] == if i < k then q[i] else if i == k then e' else q[i - 1];
    }
  }

  /** The next numbers name each other. */
  function Renamed(f: Renaming, side: Side, n: nat, n': nat): Renaming {
    f.With(side, f.On(side)[n := n'])
  }

  lemma RestQueues(f: Renaming, a: Book, b: Book, r: OrderRow, side: Side)
    requires SameBook(f, a, b) && r.price.Some?
    ensures
      var g := Renamed(f, r.side, a.next, b.next);
      && Alike(g.On(side), AddResting(a, r).Queue(side), AddResting(b, r).Queue(side))
      && Naming(g.On(side), a.next + 1, b.next + 1)
  {
    hide Insert, Naming, Alike;
    var m := f.On(side);
    SameSide(f, a, b, side);
    NamesMore(m, a.next, b.next);
    NamesLater(m, a.next, b.next);
    if side == r.side {
      AlikeMore(m, a.Queue(side), b.Queue(side), a.next, b.next);
      InsertAlike(m[a.next := b.next], side, a.Queue(side), b.Queue(side), Entry(a.next, r), Entry(b.next, r));
    }
  }

  lemma SpotKept(f: Renaming, side: Side, n: nat, n': nat, l: Location, k: Location)
    requires SameSpot(f, l, k) && Naming(f.On(side), n, n')
    ensures SameSpot(Renamed(f, side, n, n'), l, k)
  {
  }

  lemma RestSpots(f: Renaming, a: Book, b: Book, r: OrderRow, id: OrderId)
    requires SameBook(f, a, b) && r.price.Some? && id in AddResting(a, r).locations
    ensures id in AddResting(b, r).locations
    ensures SameSpot(Renamed(f, r.side, a.next, b.next), AddResting(a, r).locations[id], AddResting(b, r).locations[id])
  {
    hide Insert, Alike, Naming;
    SameSide(f, a, b, r.side);
    if id != r.id {
      SpotKept(f, r.side, a.next, b.next, a.locations[id], b.locations[id]);
    }
  }

  lemma RestAlike(f: Renaming, a: Book, b: Book, r: OrderRow) returns (g: Renaming)
    requires SameBook(f, a, b) && r.price.Some?
    ensures SameBook(g, AddResting(a, r), AddResting(b, r))
  {
    hide Insert, Naming, Alike, SameSpot, Renamed;
    g := Renamed(f, r.side, a.next, b.next);
    RestQueues(f, a, b, r, Buy);
    RestQueues(f, a, b, r, Sell);
    forall id | id in AddResting(a, r).locations
      ensures id in AddResting(b, r).locations && SameSpot(g, AddResting(a, r).locations[id],
        AddResting(b, r).locations[id])
    {
      RestSpots(f, a, b, r, id);
    }
  }

  lemma NamesMore(m: map<nat, nat>, n: nat, n': nat)
    requires Naming(m, n, n')
    ensures Naming(m[n := n'], n + 1, n' + 1)
  {
  }

  lemma NamesLater(m: map<nat, nat>, n: nat, n': nat)
    requires Naming(m, n, n')
    ensures Naming(m, n + 1, n' + 1)
  {
  }

  lemma RemoveAlike(f: Renaming, a: Book, b: Book, id: OrderId, side: Side, price: int)
    requires SameBook(f, a, b)
    ensures SameBook(f, RemoveFront(a, id, side, price), RemoveFront(b, id, side, price))
  {
    hide Without;
    if id in a.locations {
      var l := a.locations[id];
      SameSide(f, a, b, side);
      if l.side == side && l.price == price {
        WithoutAlike(f.On(side), a.Queue(side), b.Queue(side), a.next, b.next, l.token);
      }
    }
  }

  lemma CancelAlike(f: Renaming, a: Book, b: Book, id: OrderId)
    requires SameBook(f, a, b)
    ensures SameBook(f, Cancel(a, id), Cancel(b, id)) && Lookup(a, id) == Lookup(b, id)
  {
    hide RemoveFront;
    if id in a.locations {
      var l := a.locations[id];
      RemoveAlike(f, a, b, id, l.side, l.price);
      SameSide(f, a, b, l.side);
      IndexAlike(f.On(l.side), a.Queue(l.side), b.Queue(l.side), a.next, b.next, l.token);
    }
  }

  // ---------- matching ----------

  /** Two runs of the loop that have gone alike. */
  predicate Twins(f: Renaming, s: State, r: State) {
    && SameBook(f, s.book, r.book) && s.incoming == r.incoming && s.funds == r.funds && s.trades == r.trades
    && Alike(f.On(Opposite(s.incoming.side)), s.makers, r.makers)
  }

  lemma TouchAlike(m: map<nat, nat>, p: seq<Entry>, q: seq<Entry>, n: nat, n': nat, e: Entry, e': Entry)
    requires Alike(m, p, q) && Naming(m, n, n') && e.token in m && e' == Entry(m[e.token], e.row)
    ensures Alike(m, Touch(p, e), Touch(q, e'))
  {
    assert forall i :: 0 <= i < |p| ==> (q[i].token == e'.token <==> p[i].token == e.token);
  }

  lemma HeadAlike(f: Renaming, a: Book, b: Book, side: Side, qty: int)
    requires SameBook(f, a, b) && a.Queue(side) != [] && b.Queue(side) != []
    ensures
      var p, q := a.Queue(side), b.Queue(side);
      SameBook(f, a.WithQueue(side, [Entry(p[0].token, FillRow(p[0].row, qty))] + p[1..]),
        b.WithQueue(side, [Entry(q[0].token, FillRow(q[0].row, qty))] + q[1..]))
  {
    hide FillRow;
    SameSide(f, a, b, side);
  }

  lemma ExecuteAlike(f: Renaming, s: State, r: State, qty: int)
    requires Twins(f, s, r) && s.Opp() != [] && r.Opp() != []
    ensures Twins(f, Execute(s, qty), Execute(r, qty))
  {
    hide FillRow, Touch, RemoveFront;
    var side := Opposite(s.incoming.side);
    var p, q := s.Opp(), r.Opp();
    SameSide(f, s.book, r.book, side);
    HeadAlike(f, s.book, r.book, side, qty);
    var e, e' := Entry(p[0].token, FillRow(p[0].row, qty)), Entry(q[0].token, FillRow(q[0].row, qty));
    TouchAlike(f.On(side), s.makers, r.makers, s.book.next, r.book.next, e, e');
    RemoveAlike(f, s.book.WithQueue(side, [e] + p[1..]), r.book.WithQueue(side, [e'] + q[1..]), e.row.id, side,
      p[0].Price());
    SameIncoming(s.incoming, qty);
  }

  lemma SameIncoming(r: OrderRow, qty: int)
    ensures FillRow(r, qty).side == r.side
  {
  }

  lemma StepAlike(f: Renaming, s: State, r: State)
    requires Runnable(s) && Runnable(r) && Twins(f, s, r)
    ensures Step(s).Some? <==> Step(r).Some?
    ensures Step(s).Some? ==> Twins(f, Step(s).value, Step(r).value)
  {
    hide Execute;
    var side := Opposite(s.incoming.side);
    SameSide(f, s.book, r.book, side);
    if s.Opp() != [] {
      assert s.Opp()[0].row == r.Opp()[0].row && s.Opp()[0].Price() == r.Opp()[0].Price();
      assert RestsOn(side, s.Opp()[0].row);
      ExecuteAlike(f, s, r, Quantity(s.incoming, s.Opp()[0].row, s.funds, s.Opp()[0].Price()));
    }
  }

  lemma {:induction false} LoopAlike(f: Renaming, s: State, r: State)
    requires Runnable(s) && Runnable(r) && Twins(f, s, r)
    ensures Twins(f, Loop(s), Loop(r))
    decreases s.incoming.Remaining(), Debt(s)
  {
    hide Twins, Step, WellFormed;
    StepAlike(f, s, r);
    if Step(s).Some? {
      StepRunnable(s);
      StepRunnable(r);
      StepDecreases(s);
      LoopAlike(f, Step(s).value, Step(r).value);
    }
  }

  /** Two books that differ in their numbers only, whatever has happened to them, match every order alike: the same
      trades, makers, funds and remainder, and again such books. */
  lemma {:induction false} SameMatch(f: Renaming, a: Book, b: Book, o: OrderRow, funds: Option<int>)
    returns (g: Renaming)
    requires SameBook(f, a, b) && Runnable(Start(a, o, funds)) && Runnable(Start(b, o, funds))
    ensures
      var x, y := Match(a, o, funds), Match(b, o, funds);
      && SameBook(g, x.state.book, y.state.book) && Rows(x.state.makers) == Rows(y.state.makers)
      && y == x.(state := x.state.(book := y.state.book, makers := y.state.makers))
  {
    hide Step, WellFormed, AddResting, SameBook;
    var s0, r0 := Start(a, o, funds), Start(b, o, funds);
    LoopAlike(f, s0, r0);
    LoopRunnable(s0);
    LoopRunnable(r0);
    var s, r := Loop(s0), Loop(r0);
    g := f;
    if s.incoming.Remaining() > 0 && s.incoming.typ.Limit? {
      g := RestAlike(f, s.book, r.book, s.incoming);
    }
  }

  // ---------- entries and batches ----------

  /** The same tables or an error on both, and in either case books that differ in their numbers only. */
  predicate SameOutcome(f: Renaming, x: Outcome, y: Outcome) {
    SameBook(f, x.book, y.book) && if x.Applied? then y.Applied? && x.tables == y.tables else y.Failed?
  }

  lemma {:induction false} SameUpdates(orders: OrderTable, es: seq<Entry>, fs: seq<Entry>)
    requires Rows(es) == Rows(fs)
    ensures UpdateOrders(orders, es) == UpdateOrders(orders, fs)
    decreases |es|
  {
    assert |es| == |Rows(es)| == |Rows(fs)| == |fs|;
    if es != [] {
      var n := |es| - 1;
      assert Rows(es)[n] == es[n].row && Rows(fs)[n] == fs[n].row;
      assert Rows(es[..n]) == Rows(es)[..n] && Rows(fs[..n]) == Rows(fs)[..n];
      SameUpdates(orders, es[..n], fs[..n]);
    }
  }

  lemma SameNew(f: Renaming, t: Tables, a: Book, b: Book, e: Event) returns (g: Renaming)
    requires WellFormed(a) && WellFormed(b) && SameBook(f, a, b) && e.NewOrder? && ValidEvent(e)
    ensures SameOutcome(g, ApplyNew(t, a, e), ApplyNew(t, b, e))
  {
    hide Match, WellFormed, SameBook, SettleAll, ReleaseRemainder, OrdersExist, UpdateOrders, UpdateOrder;
    var o := Arriving(e);
    g := f;
    if !(IsBuyMarket(o) && o.user !in t.wallets) {
      var funds := FundsOf(t.wallets, o);
      g := SameMatch(f, a, b, o, funds);
      SameUpdates(t.orders, Match(a, o, funds).state.makers, Match(b, o, funds).state.makers);
    }
  }

  lemma SameCancel(f: Renaming, t: Tables, a: Book, b: Book, id: OrderId)
    requires WellFormed(a) && WellFormed(b) && SameBook(f, a, b)
    ensures SameOutcome(f, ApplyCancel(t, a, id), ApplyCancel(t, b, id))
  {
    hide WellFormed, Cancel, Lookup, Refund;
    CancelAlike(f, a, b, id);
    CancelWellFormed(a, id);
    CancelWellFormed(b, id);
    if id in a.locations {
      LookupFinds(a, id);
      LookupFinds(b, id);
    }
  }

  lemma SameEntry(f: Renaming, t: Tables, a: Book, b: Book, m: Message) returns (g: Renaming)
    requires WellFormed(a) && WellFormed(b) && SameBook(f, a, b) && ValidEvent(m.event)
    ensures SameOutcome(g, ApplyEntry(t, a, m), ApplyEntry(t, b, m))
  {
    hide ApplyNew, ApplyCancel, WellFormed, SameBook;
    g := f;
    if m.entry !in t.processed {
      match m.event
      case NewOrder(_, _, _, _, _, _) => g := SameNew(f, Mark(t, m.entry), a, b, m.event);
      case CancelOrder(id) => SameCancel(f, Mark(t, m.entry), a, b, id);
      case Skipped =>
    }
  }

  /** Any batch, on any tables, succeeds or fails alike on both. */
  lemma {:induction false} SameBatch(f: Renaming, t: Tables, a: Book, b: Book, ms: seq<Message>) returns (g: Renaming)
    requires WellFormed(a) && WellFormed(b) && SameBook(f, a, b) && ValidMessages(ms)
    ensures SameOutcome(g, ApplyBatch(t, a, ms), ApplyBatch(t, b, ms))
    decreases |ms|
  {
    hide ApplyEntry, WellFormed, SameBook;
    g := f;
    if ms != [] {
      var pre, m := ms[..|ms| - 1], ms[|ms| - 1];
      g := SameBatch(f, t, a, b, pre);
      var x, y := ApplyBatch(t, a, pre), ApplyBatch(t, b, pre);
      if x.Applied? { g := SameEntry(g, x.tables, x.book, y.book, m); }
    }
  }

  // ---------- runs ----------

  /** Two states of the exchange that differ in the insertion numbers on their books. */
  ghost predicate Twin(f: Renaming, s: System, r: System) {
    Shape(s) && Shape(r) && r == s.(book := r.book) && SameBook(f, s.book, r.book)
  }

  lemma SameMessages(s: System, r: System, batch: seq<nat>)
    requires r == s.(book := r.book)
    ensures Messages(r, batch) == Messages(s, batch) && (Readable(r, batch) <==> Readable(s, batch))
  {
    assert forall i :: EventAt(r, i) == EventAt(s, i);
  }

  lemma {:induction false} SelfSame(b: Book) returns (f: Renaming)
    requires WellFormed(b)
    ensures SameBook(f, b, b)
  {
    f := Renaming(Numbers(b.bids, b.bids), Numbers(b.asks, b.asks));
    SideNames(b, b, Buy);
    SideNames(b, b, Sell);
    forall id | id in b.locations ensures SameSpot(f, b.locations[id], b.locations[id]) {
      assert PointsInto(b.Queue(b.locations[id].side), id, b.locations[id]);
    }
  }

  /** What the number at each place is called at the same place of the other queue. */
  function Numbers(p: seq<Entry>, q: seq<Entry>): map<nat, nat>
    requires |p| == |q| && DistinctTokens(p)
  {
    map i | 0 <= i < |p| :: p[i].token := q[i].token
  }

  lemma NumbersAlike(p: seq<Entry>, q: seq<Entry>)
    requires DistinctTokens(p) && Rows(p) == Rows(q)
    ensures |p| == |q| && Alike(Numbers(p, q), p, q)
  {
    assert |Rows(p)| == |Rows(q)|;
    forall i | 0 <= i < |p| ensures q[i].row == p[i].row {
      assert Rows(p)[i] == Rows(q)[i];
    }
  }

  lemma TokenAt(p: seq<Entry>, q: seq<Entry>, x: nat) returns (i: nat)
    requires DistinctTokens(p) && |p| == |q| && x in Numbers(p, q)
    ensures i < |p| && p[i].token == x && Numbers(p, q)[x] == q[i].token
  {
    i :| 0 <= i < |p| && p[i].token == x;
  }

  lemma SamePlace(q: seq<Entry>, i: nat, j: nat)
    requires DistinctTokens(q) && i < |q| && j < |q| && q[i].token == q[j].token
    ensures i == j
  {
  }

  lemma NumbersName(p: seq<Entry>, q: seq<Entry>, n: nat, n': nat)
    requires DistinctTokens(p) && DistinctTokens(q) && |p| == |q|
    requires forall i :: 0 <= i < |p| ==> p[i].token < n && q[i].token < n'
    ensures Naming(Numbers(p, q), n, n')
  {
    hide DistinctTokens;
    var m := Numbers(p, q);
    forall x, y | x in m && y in m && m[x] == m[y] ensures x == y {
      var i := TokenAt(p, q, x);
      var j := TokenAt(p, q, y);
      SamePlace(q, i, j);
    }
    forall x | x in m ensures x < n && m[x] < n' {
      var i := TokenAt(p, q, x);
    }
  }

  lemma SideNames(a: Book, b: Book, side: Side)
    requires WellFormed(a) && WellFormed(b) && Rows(a.Queue(side)) == Rows(b.Queue(side))
    ensures |a.Queue(side)| == |b.Queue(side)| && DistinctTokens(a.Queue(side))
    ensures Alike(Numbers(a.Queue(side), b.Queue(side)), a.Queue(side), b.Queue(side))
    ensures Naming(Numbers(a.Queue(side), b.Queue(side)), a.next, b.next)
  {
    hide Numbers, Naming, Alike, LocationsOk, Sorted, DistinctTokens;
    var p, q := a.Queue(side), b.Queue(side);
    assert SideOk(side, p, a.next) && SideOk(side, q, b.next);
    NumbersAlike(p, q);
    NumbersName(p, q, a.next, b.next);
  }

  /** Healthy books with the same queues differ in their numbers only. */
  lemma {:induction false} QueuesTell(a: Book, b: Book) returns (f: Renaming)
    requires Healthy(a) && Healthy(b) && SameQueues(a, b) && forall id :: Lookup(a, id) == Lookup(b, id)
    ensures SameBook(f, a, b)
  {
    hide WellFormed, Unique, Naming, Alike, DistinctTokens, Numbers, Lookup, SameSpot;
    SideNames(a, b, Buy);
    SideNames(a, b, Sell);
    f := Renaming(Numbers(a.bids, b.bids), Numbers(a.asks, b.asks));
    forall id ensures id in a.locations <==> id in b.locations {
      assert Lookup(a, id) == Lookup(b, id);
      KnownIds(a, id);
      KnownIds(b, id);
    }
    assert forall side :: Alike(f.On(side), a.Queue(side), b.Queue(side));
    forall id | id in a.locations ensures SameSpot(f, a.locations[id], b.locations[id]) {
      SpotTold(f, a, b, id);
    }
  }

  lemma KnownIds(b: Book, id: OrderId)
    requires WellFormed(b)
    ensures id in b.locations <==> Lookup(b, id).Some?
  {
    if id in b.locations { LookupFinds(b, id); }
  }

  lemma SpotTold(f: Renaming, a: Book, b: Book, id: OrderId)
    requires Healthy(a) && Healthy(b) && id in a.locations && id in b.locations
    requires forall side :: Alike(f.On(side), a.Queue(side), b.Queue(side))
    ensures SameSpot(f, a.locations[id], b.locations[id])
  {
    var l := a.locations[id];
    var p, q := a.Queue(l.side), b.Queue(l.side);
    assert PointsInto(p, id, l);
    var i :| 0 <= i < |p| && p[i].token == l.token && p[i].row.id == id && p[i].Price() == l.price;
    assert Alike(f.On(l.side), p, q);
    assert q[i].row == p[i].row && q[i].Price() == p[i].Price();
    assert b.locations[q[i].row.id] == Location(l.side, q[i].Price(), q[i].token);
  }

  lemma TwinWellFormed(f: Renaming, s: System, r: System)
    requires Twin(f, s, r)
    ensures WellFormed(s.book) && WellFormed(r.book) && r == s.(book := r.book) && SameBook(f, s.book, r.book)
  {
  }

  lemma TwinEnabled(f: Renaming, s: System, r: System, a: Action)
    requires Twin(f, s, r)
    ensures Enabled(s, a) <==> Enabled(r, a)
  {
    hide ApplyBatch, Twin, WellFormed, Listing, SameBook;
    TwinWellFormed(f, s, r);
    match a
    case Commit(batch) => TwinApplies(f, s, r, batch);
    case CommitReplyLost(batch) => TwinApplies(f, s, r, batch);
    case Abort(batch, reached) =>
      SameMessages(s, r, batch);
      if reached <= |batch| { SameMessages(s, r, batch[..reached]); }
    case _ =>
  }

  lemma TwinApplies(f: Renaming, s: System, r: System, batch: seq<nat>)
    requires WellFormed(s.book) && WellFormed(r.book) && r == s.(book := r.book) && SameBook(f, s.book, r.book)
    ensures Messages(r, batch) == Messages(s, batch) && (CanApply(s, batch) <==> CanApply(r, batch))
    ensures CanApply(s, batch) ==>
      (ApplyBatch(s.tables, s.book, Messages(s, batch)).Applied? <==>
        ApplyBatch(r.tables, r.book, Messages(r, batch)).Applied?)
  {
    hide ApplyBatch, WellFormed, SameBook;
    SameMessages(s, r, batch);
    if CanApply(s, batch) { var _ := SameBatch(f, s.tables, s.book, r.book, Messages(s, batch)); }
  }

  lemma TwinNext(f: Renaming, s: System, r: System, a: Action) returns (g: Renaming)
    requires Twin(f, s, r) && Enabled(s, a) && Enabled(r, a)
    ensures Twin(g, Next(s, a), Next(r, a))
  {
    hide Shape, SameBook, ApplyBatch, Next, Enabled;
    NextShape(s, a);
    NextShape(r, a);
    g := TwinBooks(f, s, r, a);
  }

  lemma TwinBooks(f: Renaming, s: System, r: System, a: Action) returns (g: Renaming)
    requires Twin(f, s, r) && Enabled(s, a) && Enabled(r, a)
    ensures Next(r, a) == Next(s, a).(book := Next(r, a).book) && SameBook(g, Next(s, a).book, Next(r, a).book)
  {
    hide ApplyBatch, Twin, WellFormed, Listing, SameBook, Recover;
    TwinWellFormed(f, s, r);
    g := f;
    match a
    case Commit(batch) => g := TwinBatch(f, s, r, batch);
    case CommitReplyLost(batch) => g := TwinBatch(f, s, r, batch);
    case Abort(batch, reached) => g := TwinBatch(f, s, r, batch[..reached]);
    case Resync(rows) => g := TwinRebuilt(f, s, r, rows);
    case Restart(rows) => g := TwinRebuilt(f, s, r, rows);
    case _ =>
  }

  lemma TwinBatch(f: Renaming, s: System, r: System, batch: seq<nat>) returns (g: Renaming)
    requires WellFormed(s.book) && WellFormed(r.book) && r == s.(book := r.book) && SameBook(f, s.book, r.book)
    requires ValidMessages(Messages(s, batch))
    ensures Messages(r, batch) == Messages(s, batch)
    ensures SameOutcome(g, ApplyBatch(s.tables, s.book, Messages(s, batch)),
      ApplyBatch(r.tables, r.book, Messages(s, batch)))
  {
    hide ApplyBatch, WellFormed, SameBook;
    SameMessages(s, r, batch);
    g := SameBatch(f, s.tables, s.book, r.book, Messages(s, batch));
  }

  lemma TwinRebuilt(f: Renaming, s: System, r: System, rows: seq<OrderRow>) returns (g: Renaming)
    requires Twin(f, s, r) && Listing(s.tables.orders, s.created, rows)
    ensures SameBook(g, Recover(rows), Recover(rows))
  {
    RecoverKnown(s.tables.orders, rows);
    g := SelfSame(Recover(rows));
  }

  /** From two such states the same runs are possible, and they end in two such states. */
  lemma {:induction false} TwinRuns(f: Renaming, s: System, r: System, steps: seq<Action>) returns (g: Renaming)
    requires Twin(f, s, r)
    ensures After(s, steps).Some? <==> After(r, steps).Some?
    ensures After(s, steps).Some? ==> Twin(g, After(s, steps).value, After(r, steps).value)
    decreases |steps|
  {
    hide Twin, Enabled, Next;
    g := f;
    if steps != [] {
      var pre, a := steps[..|steps| - 1], steps[|steps| - 1];
      g := TwinRuns(f, s, r, pre);
      if After(s, pre).Some? {
        var x, y := After(s, pre).value, After(r, pre).value;
        TwinEnabled(g, x, y, a);
        if Enabled(x, a) { g := TwinNext(g, x, y, a); }
      }
    }
  }

  /** What can be seen of a book: its queues, and which order an id stands for. */
  ghost predicate LooksTheSame(a: Book, b: Book) {
    SameQueues(a, b) && forall id :: Lookup(a, id) == Lookup(b, id)
  }

  lemma SameBookLooksTheSame(f: Renaming, a: Book, b: Book)
    requires SameBook(f, a, b)
    ensures LooksTheSame(a, b)
  {
    hide Cancel;
    forall id ensures Lookup(a, id) == Lookup(b, id) {
      CancelAlike(f, a, b, id);
    }
    assert Rows(a.bids) == Rows(b.bids) && Rows(a.asks) == Rows(b.asks);
  }

  /** In every disciplined run, a rebuild at a moment when the matcher has seen every open LIMIT order and the
      listing follows the queues cannot be told from no rebuild by anything that comes after it, whatever that is:
      the same steps are possible, the tables and all else come out the same, and so does all that can be seen
      of the book. */
  lemma {:induction false} RebuildIsInvisible(s0: System, past: seq<Action>, rows: seq<OrderRow>, more: seq<Action>)
    requires Initial(s0) && DisciplinedRun(s0, past) && After(s0, past).Some?
    requires
      var s := After(s0, past).value;
      && Trusted(s) && s.control.Idle? && Quiescent(s.tables) && Listing(s.tables.orders, s.created, rows)
      && ListedAsQueued(s.book, rows)
    ensures
      var s := After(s0, past).value.(dirty := false);
      Enabled(s, Resync(rows)) && After(Next(s, Resync(rows)), more).Some? == After(s, more).Some?
    ensures
      var s := After(s0, past).value.(dirty := false);
      After(s, more).Some? ==>
        var x, y := After(s, more).value, After(Next(s, Resync(rows)), more).value;
        y == x.(book := y.book) && LooksTheSame(x.book, y.book)
  {
    hide Clean, DisciplinedRun, Listing, ListedAsQueued, Recover, Quiescent, SameBook, After, LooksTheSame;
    CleanRunsStayClean(s0, past);
    var s := After(s0, past).value.(dirty := false);
    var r := Next(s, Resync(rows));
    var f := RebuiltTwin(After(s0, past).value, rows);
    var g := TwinRuns(f, s, r, more);
    if After(s, more).Some? {
      SameBookLooksTheSame(g, After(s, more).value.book, After(r, more).value.book);
    }
  }

  lemma {:induction false} RebuiltTwin(s: System, rows: seq<OrderRow>) returns (f: Renaming)
    requires Clean(s) && Trusted(s) && s.control.Idle? && Quiescent(s.tables)
    requires Listing(s.tables.orders, s.created, rows) && ListedAsQueued(s.book, rows)
    ensures Twin(f, s.(dirty := false), s.(dirty := false, book := Recover(rows)))
  {
    hide Listing, ListedAsQueued, Recover, FillsMatchTrades, Lifecycle, Uncrossed, Lookup, OrdersExist;
    var t, b := s.tables, Recover(rows);
    assert BookAgrees(t, s.book);
    RebuiltBookAgrees(t, s.created, rows);
    forall id ensures Lookup(s.book, id) == OpenLimit(t.orders, id) && Lookup(s.book, id) == Lookup(b, id) {
      assert Lookup(s.book, id) == Resting(t.orders, t.entered, id) == Lookup(b, id);
    }
    RebuildIsExactIff(t.orders, s.created, rows, s.book);
    RecoverKnown(t.orders, rows) by { ListingRows(t.orders, s.created, rows); }
    f := QueuesTell(s.book, b);
  }

  lemma ListingRows(orders: OrderTable, created: map<OrderId, int>, rows: seq<OrderRow>)
    requires Listing(orders, created, rows)
    ensures forall i :: 0 <= i < |rows| ==> rows[i].id in orders && orders[rows[i].id] == rows[i]
  {
  }
}
