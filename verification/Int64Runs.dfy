/** Int64 over whole runs: what placements compute always fits, what the matcher computes fits in disciplined
    runs and in every batch that commits, and in all other batches as long as twice the units there are
    fit. That bound is exact. */
module Int64Runs {
  import opened Base
  import opened Orders
  import opened Wallets
  import opened PriorityBook
  import opened PriceTime
  import opened Matching
  import opened Settlement
  import opened Conservation
  import opened Ledger
  import opened Consistency
  import opened Entries
  import opened Terms
  import opened Placement
  import opened Recovery
  import opened Exchange
  import opened Safety
  import opened CleanRuns
  import opened Guarantees
  import opened Boundaries
  import opened Histories
  import opened Int64

  // ---------- whole runs ----------

  /** Requests carry int64 values, by their type. */
  predicate InputFits(a: Action) {
    a.PlaceOrder? ==> InInt64(a.input.quantity) && (a.input.price.Some? ==> InInt64(a.input.price.value))
  }

  predicate InputsFit(steps: seq<Action>) {
    forall i :: 0 <= i < |steps| ==> InputFits(steps[i])
  }

  lemma PlacedFits(i: PlaceInput, id: OrderId)
    requires Validate(i).None? && InInt64(i.quantity) && (i.price.Some? ==> InInt64(i.price.value))
    ensures i.side.Some? && i.typ.Some? && TermsFit(Placed(i, id)) && Placed(i, id).ValidTerms()
  {
    ValidateAccepts(i, id);
    if i.price.Some? { Product(i.price.value, i.quantity); }
  }

  lemma NextRowsFit(s: System, a: Action)
    requires Shape(s) && Enabled(s, a) && RowsFit(s.tables.orders) && InputFits(a)
    ensures RowsFit(Next(s, a).tables.orders)
  {
    match a
    case PlaceOrder(input, id, _) =>
      if Place(s.tables, s.users, input, id).0.Some? { PlacedFits(input, id); }
    case Commit(batch) => BatchRowsFit(s, batch);
    case CommitReplyLost(batch) => BatchRowsFit(s, batch);
    case _ =>
  }

  lemma BatchRowsFit(s: System, batch: seq<nat>)
    requires Shape(s) && CanApply(s, batch) && RowsFit(s.tables.orders)
    requires ApplyBatch(s.tables, s.book, Messages(s, batch)).Applied?
    ensures RowsFit(ApplyBatch(s.tables, s.book, Messages(s, batch)).tables.orders)
  {
    MessagesAreKnown(s, batch);
    BatchKept(s.tables, s.book, Messages(s, batch));
  }

  lemma {:induction false} RunRowsFit(s0: System, steps: seq<Action>)
    requires Initial(s0) && After(s0, steps).Some? && InputsFit(steps)
    ensures RowsFit(After(s0, steps).value.tables.orders)
    decreases |steps|
  {
    if steps != [] {
      var pre := steps[..|steps| - 1];
      RunRowsFit(s0, pre);
      EveryRunIsSafe(s0, pre);
      assert InputFits(steps[|steps| - 1]);
      NextRowsFit(After(s0, pre).value, steps[|steps| - 1]);
    }
  }

  lemma {:induction false} RunIsRanged(s0: System, steps: seq<Action>)
    requires Initial(s0) && After(s0, steps).Some? && InputsFit(steps) && TotalsFit(s0.tables.wallets)
    ensures Ranged(After(s0, steps).value.tables, After(s0, steps).value.book)
    ensures StreamOk(After(s0, steps).value) && EventsKnown(After(s0, steps).value)
  {
    EveryRunIsSafe(s0, steps);
    RunRowsFit(s0, steps);
  }

  // ---------- placements ----------

  /** Int64 safety of placements, in every run whatsoever: if the initial totals fit an int64, then
      so do the totals, all order terms, and whatever the next accepted placement computes. */
  lemma {:induction false} PlacementNeverOverflows(s0: System, steps: seq<Action>, i: PlaceInput, id: OrderId)
    requires Initial(s0) && After(s0, steps).Some? && InputsFit(steps) && TotalsFit(s0.tables.wallets)
    requires Validate(i).None? && InputFits(PlaceOrder(i, id, 0)) && i.user in After(s0, steps).value.tables.wallets
    ensures TotalsFit(After(s0, steps).value.tables.wallets)
    ensures i.side.Some? && i.typ.Some? && TermsFit(Placed(i, id)) && Placed(i, id).ValidTerms()
    ensures ReserveFits(After(s0, steps).value.tables.wallets[i.user], Placed(i, id))
  {
    EveryRunIsSafe(s0, steps);
    PlacedFits(i, id);
    ReservationFits(After(s0, steps).value.tables.wallets, i.user, Placed(i, id));
  }

  // ---------- batches that commit ----------

  /** Int64 safety of everything that is ever committed, in every run whatsoever, duplicated orders and
      dirty books included. */
  lemma {:induction false} CommittedNeverOverflows(s0: System, steps: seq<Action>, batch: seq<nat>)
    requires Initial(s0) && After(s0, steps).Some? && InputsFit(steps) && TotalsFit(s0.tables.wallets)
    requires CanApply(After(s0, steps).value, batch)
    requires
      var s := After(s0, steps).value;
      ApplyBatch(s.tables, s.book, Messages(s, batch)).Applied?
    ensures
      var s := After(s0, steps).value;
      BatchFits(s.tables, s.book, Messages(s, batch))
  {
    hide Ranged, BatchFits, ApplyBatch;
    var s := After(s0, steps).value;
    RunIsRanged(s0, steps);
    MessagesAreKnown(s, batch);
    BatchFitsIff(s.tables, s.book, Messages(s, batch));
    AppliedBatchCredits(s.tables, s.book, Messages(s, batch));
  }

  lemma {:induction false} AppliedBatchCredits(t: Tables, b: Book, ms: seq<Message>)
    requires Ranged(t, b) && MessagesKnown(t.orders, ms) && ValidMessages(ms) && WellFormed(b)
      && ApplyBatch(t, b, ms).Applied?
    ensures BatchCreditsFit(t, b, ms)
  {
    hide EntryCreditsFit, ApplyEntry, Ranged;
    forall i | 0 <= i < |ms| && ApplyBatch(t, b, ms[..i]).Applied?
      ensures EntryCreditsFit(ApplyBatch(t, b, ms[..i]).tables, ApplyBatch(t, b, ms[..i]).book, ms[i])
    {
      PrefixIsRanged(t, b, ms, i);
      PrefixApplies(t, b, ms, i + 1);
      assert ms[..i + 1][..i] == ms[..i];
      AppliedCreditsFit(ApplyBatch(t, b, ms[..i]).tables, ApplyBatch(t, b, ms[..i]).book, ms[i]);
    }
  }

  // ---------- disciplined runs ----------

  /** A poisoned entry credits nobody: its one trade is refused by its sign. */
  lemma PoisonedCreditsFit(t: Tables, b: Book, m: Message)
    requires Healthy(b) && m.event.NewOrder? && ValidEvent(m.event) && PoisonedArrival(t, b, m.event)
    ensures EntryCreditsFit(t, b, m)
  {
    hide WellFormed, Unique, Match, Poisoned;
    PoisonedOutcome(t, b, m.event);
  }

  /** On agreeing tables and book every entry fits, the failing kind included. */
  lemma CleanEntryCredits(s: System, t: Tables, b: Book, m: Message)
    requires EnteredOk(s, t) && Consistent(t, b) && Ranged(t, b)
    requires m.entry < |s.stream| && m.event == EventAt(s, m.entry) && EventKnown(t.orders, m.event)
      && ValidEvent(m.event)
    ensures EntryCreditsFit(t, b, m)
  {
    hide EntryCreditsFit, WellFormed, Unique, EventKnown, RowsFit, BookKnown, View, Sound, FillsMatchTrades;
    EntryFails(s, t, b, m);
    if ApplyEntry(t, b, m).Failed? {
      PoisonedCreditsFit(t, b, m);
    } else {
      AppliedCreditsFit(t, b, m);
    }
  }

  lemma CleanBatchCredits(s: System, ms: seq<Message>)
    requires Clean(s) && Trusted(s) && Ranged(s.tables, s.book) && FromStream(s, ms) && ValidMessages(ms)
      && MessagesKnown(s.tables.orders, ms)
    ensures BatchCreditsFit(s.tables, s.book, ms)
  {
    hide EntryCreditsFit, Ranged, ApplyBatch, WellFormed, EventKnown, Consistent, EnteredOk, OneCopyEach, NewOnce,
      TablesOk, BookAgrees;
    assert Consistent(s.tables, s.book) by { CleanIsConsistent(s); }
    forall i | 0 <= i < |ms| && ApplyBatch(s.tables, s.book, ms[..i]).Applied?
      ensures EntryCreditsFit(ApplyBatch(s.tables, s.book, ms[..i]).tables, ApplyBatch(s.tables, s.book, ms[..i]).book,
        ms[i])
    {
      PrefixIsRanged(s.tables, s.book, ms, i);
      assert forall j :: 0 <= j < i ==> ms[..i][j] == ms[j];
      BatchIsClean(s, s.tables, s.book, ms[..i]);
      CleanEntryCredits(s, ApplyBatch(s.tables, s.book, ms[..i]).tables, ApplyBatch(s.tables, s.book, ms[..i]).book,
        ms[i]);
    }
  }

  lemma MessagesFromStream(s: System, batch: seq<nat>)
    requires Readable(s, batch)
    ensures FromStream(s, Messages(s, batch))
  {
  }

  /** Int64 safety of the matcher in every disciplined run: whatever batch is tried on a book that
      agrees with the tables, every entry it reaches is matched, settled and refunded within int64, the
      entry it fails at included. */
  lemma {:induction false} MatcherNeverOverflows(s0: System, steps: seq<Action>, batch: seq<nat>)
    requires Initial(s0) && DisciplinedRun(s0, steps) && After(s0, steps).Some? && InputsFit(steps)
    requires TotalsFit(s0.tables.wallets)
    requires Trusted(After(s0, steps).value) && CanApply(After(s0, steps).value, batch)
    ensures
      var s := After(s0, steps).value;
      BatchFits(s.tables, s.book, Messages(s, batch))
  {
    hide Ranged, BatchFits;
    var s := After(s0, steps).value;
    RunIsRanged(s0, steps);
    CleanRunsStayClean(s0, steps);
    MessagesAreKnown(s, batch);
    MessagesFromStream(s, batch);
    BatchFitsIff(s.tables, s.book, Messages(s, batch));
    CleanBatchCredits(s, Messages(s, batch));
  }

  // ---------- every batch of every run ----------

  /** A SELL is placed with its units reserved, so it offers no more than there are. */
  lemma {:induction false} RunOffersWithin(s0: System, steps: seq<Action>)
    requires Initial(s0) && After(s0, steps).Some?
    ensures OffersWithin(After(s0, steps).value.tables.orders, TotalVib(s0.tables.wallets))
    decreases |steps|
  {
    hide Safe, Enabled, Next, OffersWithin;
    if steps == [] {
      NoOffers(s0);
    } else {
      var pre := steps[..|steps| - 1];
      RunOffersWithin(s0, pre);
      EveryRunIsSafe(s0, pre);
      NextOffersWithin(s0, After(s0, pre).value, steps[|steps| - 1]);
    }
  }

  lemma NoOffers(s0: System)
    requires Initial(s0)
    ensures OffersWithin(s0.tables.orders, TotalVib(s0.tables.wallets))
  {
  }

  lemma NextOffersWithin(s0: System, s: System, a: Action)
    requires Safe(s0, s) && Enabled(s, a) && OffersWithin(s.tables.orders, TotalVib(s0.tables.wallets))
    ensures OffersWithin(Next(s, a).tables.orders, TotalVib(s0.tables.wallets))
  {
    match a
    case PlaceOrder(input, id, _) =>
      if Place(s.tables, s.users, input, id).0.Some? {
        ValidateAccepts(input, id);
        WalletBound(s.tables.wallets, input.user);
        assert s.tables.wallets[input.user].NonNegative();
      }
    case Commit(batch) => BatchOffersWithin(s, batch, TotalVib(s0.tables.wallets));
    case CommitReplyLost(batch) => BatchOffersWithin(s, batch, TotalVib(s0.tables.wallets));
    case _ =>
  }

  lemma BatchOffersWithin(s: System, batch: seq<nat>, units: int)
    requires Shape(s) && CanApply(s, batch) && OffersWithin(s.tables.orders, units)
    requires ApplyBatch(s.tables, s.book, Messages(s, batch)).Applied?
    ensures OffersWithin(ApplyBatch(s.tables, s.book, Messages(s, batch)).tables.orders, units)
  {
    MessagesAreKnown(s, batch);
    BatchKept(s.tables, s.book, Messages(s, batch));
  }

  lemma {:induction false} SmallBatchCredits(t: Tables, b: Book, ms: seq<Message>)
    requires Ranged(t, b) && MessagesKnown(t.orders, ms) && ValidMessages(ms) && WellFormed(b)
    requires OffersWithin(t.orders, TotalVib(t.wallets)) && 2 * TotalVib(t.wallets) <= MAX_INT64
    ensures BatchCreditsFit(t, b, ms)
  {
    hide EntryCreditsFit, ApplyEntry, Ranged, ApplyBatch;
    forall i | 0 <= i < |ms| && ApplyBatch(t, b, ms[..i]).Applied?
      ensures EntryCreditsFit(ApplyBatch(t, b, ms[..i]).tables, ApplyBatch(t, b, ms[..i]).book, ms[i])
    {
      var r := ApplyBatch(t, b, ms[..i]);
      PrefixIsRanged(t, b, ms, i);
      BatchConserves(t, b, ms[..i]);
      BatchStaysRanged(t, b, ms[..i]);
      SameOffersWithin(t.orders, r.tables.orders, TotalVib(t.wallets));
      SmallEntryFits(r.tables, r.book, ms[i]);
    }
  }

  lemma SameOffersWithin(orders: OrderTable, orders': OrderTable, units: int)
    requires OffersWithin(orders, units) && SameRows(orders, orders')
    ensures OffersWithin(orders', units)
  {
  }

  /** A batch tried at the end of a run with int64 requests and int64 money. */
  ghost predicate Tried(s0: System, steps: seq<Action>, batch: seq<nat>) {
    && Initial(s0) && After(s0, steps).Some? && InputsFit(steps) && TotalBrl(s0.tables.wallets) <= MAX_INT64
    && CanApply(After(s0, steps).value, batch)
  }

  ghost predicate FitsAtEnd(s0: System, steps: seq<Action>, batch: seq<nat>)
    requires Tried(s0, steps, batch)
  {
    var s := After(s0, steps).value;
    BatchFits(s.tables, s.book, Messages(s, batch))
  }

  /** If twice the units there are fit, then everything that any batch computes at the end of any run fits,
      whatever has been published twice and whatever the book has come to. */
  lemma {:induction false} EveryBatchFits(s0: System, steps: seq<Action>, batch: seq<nat>)
    requires Tried(s0, steps, batch) && 2 * TotalVib(s0.tables.wallets) <= MAX_INT64
    ensures FitsAtEnd(s0, steps, batch)
  {
    hide Ranged, BatchFits, ApplyBatch, After;
    var s := After(s0, steps).value;
    RunIsRanged(s0, steps);
    EveryRunIsSafe(s0, steps);
    RunOffersWithin(s0, steps);
    MessagesAreKnown(s, batch);
    BatchFitsIff(s.tables, s.book, Messages(s, batch));
    SmallBatchCredits(s.tables, s.book, Messages(s, batch));
  }

  // ---------- the bound is exact ----------

  /** Orders of user 1 for `q` units at one cent. */
  function OneCent(id: OrderId, side: Side, q: int): OrderRow {
    LimitRow(id, 1, side, 1, q)
  }

  /** A SELL and a BUY of it, both entries new. */
  function SaleAt(entry: nat, bid: OrderId, q: int): seq<Message> {
    [Message(entry, PlacedEvent(OneCent(1, Sell, q))), Message(entry + 1, PlacedEvent(OneCent(bid, Buy, q)))]
  }

  /** The SELL comes to rest on an empty book. */
  lemma OfferRests(t: Tables, b: Book, entry: nat, q: int) returns (r: Outcome)
    requires q > 0 && Healthy(b) && b.asks == b.bids == [] && b.locations == map[] && entry !in t.processed
    ensures r == ApplyEntry(t, b, SaleAt(entry, 2, q)[0]) && r.Applied? && Healthy(r.book)
    ensures r.book.asks == [Entry(b.next, OneCent(1, Sell, q))] && r.book.bids == [] && r.book.locations.Keys == {1}
    ensures r.tables.wallets == t.wallets && r.tables.processed == t.processed + {entry}
    ensures r.tables.orders.Keys == t.orders.Keys
  {
    hide ApplyNew, WellFormed, Unique;
    var m := SaleAt(entry, 2, q)[0];
    RestsUnmatched(Mark(t, entry), b, m.event);
    OneAsk(b, OneCent(1, Sell, q));
    r := ApplyEntry(t, b, m);
    assert r.book == AddResting(b, OneCent(1, Sell, q));
  }

  /** And is sold to the BUY, if both reservations last. */
  lemma OfferTaken(t: Tables, b: Book, entry: nat, bid: OrderId, q: int) returns (r: Outcome)
    requires q > 0 && Healthy(b) && |b.asks| == 1 && b.asks[0].row == OneCent(1, Sell, q) && b.bids == []
      && b.locations.Keys == {1}
    requires entry + 1 !in t.processed && 1 in t.wallets && {1, bid} <= t.orders.Keys
    requires t.wallets[1].reservedBrl >= q && t.wallets[1].reservedVib >= q
    ensures r == ApplyEntry(t, b, SaleAt(entry, bid, q)[1]) && r.Applied? && Healthy(r.book)
    ensures r.book.asks == r.book.bids == [] && r.book.locations == map[]
    ensures
      var w := t.wallets[1];
      r.tables.wallets == t.wallets[1 := Balances(w.brl + q, w.reservedBrl - q, w.vib + q, w.reservedVib - q)]
    ensures r.tables.orders.Keys == t.orders.Keys && r.tables.processed == t.processed + {entry + 1}
  {
    hide ApplyNew, WellFormed, Unique, UpdateOrder, FillRow;
    var m := SaleAt(entry, bid, q)[1];
    MeetsApplied(Mark(t, entry + 1), b, m.event);
    r := ApplyEntry(t, b, m);
  }

  /** What a user sells to itself. */
  lemma SoldOnce(t: Tables, q: int) returns (r: Outcome)
    requires q > 0 && t.wallets == map[1 := Balances(0, q, 0, q)] && t.orders.Keys == {1, 2} && t.processed == {}
    ensures ValidMessages(SaleAt(0, 2, q)) && r == ApplyBatch(t, EMPTY_BOOK, SaleAt(0, 2, q)) && r.Applied?
    ensures r.tables.wallets == map[1 := Balances(q, 0, q, 0)] && r.tables.orders.Keys == {1, 2}
      && r.tables.processed == {0, 1}
    ensures Healthy(r.book) && r.book.asks == r.book.bids == [] && r.book.locations == map[]
  {
    hide ApplyEntry, ApplyBatch, WellFormed, Unique;
    EmptyIsHealthy();
    var r0 := OfferRests(t, EMPTY_BOOK, 0, q);
    r := OfferTaken(r0.tables, r0.book, 0, 2, q);
    TwoEntries(t, EMPTY_BOOK, SaleAt(0, 2, q));
  }

  /** The SELL once more, under another entry id, and a second BUY of the same user. */
  lemma {:induction false} SoldTwiceIff(t: Tables, b: Book, q: int)
    requires q > 0 && t.wallets == map[1 := Balances(0, q, q, 0)] && t.orders.Keys == {1, 2, 3} && t.processed == {0, 1}
    requires Healthy(b) && b.asks == b.bids == [] && b.locations == map[]
    ensures ValidMessages(SaleAt(2, 3, q)) && (BatchCreditsFit(t, b, SaleAt(2, 3, q)) <==> 2 * q <= MAX_INT64)
  {
    hide ApplyEntry, ApplyBatch, WellFormed, Unique, CreditsFit, Match;
    var ms := SaleAt(2, 3, q);
    var r := OfferRests(t, b, 2, q);
    TwoEntries(t, b, ms);
    RestsWithoutTrade(t, b, ms[0]);
    assert EntryCreditsFit(t, b, ms[0]);
    MeetsEqual(r.book, OneCent(3, Buy, q));
    var tr := TradeOf(OneCent(3, Buy, q), r.book.asks[0].row, 1, q);
    assert TradesOf(r.tables, r.book, OneCent(3, Buy, q)) == [tr];
    OneCredit(r.tables.wallets, OneCent(3, Buy, q), tr);
    assert EntryCreditsFit(r.tables, r.book, ms[1]) <==> 2 * q <= MAX_INT64;
  }

  lemma RestsWithoutTrade(t: Tables, b: Book, m: Message)
    requires WellFormed(b) && m.event.NewOrder? && ValidEvent(m.event) && m.event.typ.Limit?
      && b.Queue(Opposite(m.event.side)) == []
    ensures EntryCreditsFit(t, b, m)
  {
    var s0 := Start(b, Arriving(m.event), None);
    assert Step(s0) == None;
    assert Loop(s0) == s0;
  }

  lemma OneCredit(ws: WalletTable, o: OrderRow, tr: Trade)
    requires (o.typ.Limit? ==> o.price.Some?) && !IsBuyMarket(o) && tr.price > 0 && tr.quantity > 0
    requires tr.buyer in ws && tr.seller in ws && tr.price * tr.quantity <= ws[tr.buyer].reservedBrl
    ensures CreditsFit(ws, o, [tr]) <==> ws[tr.buyer].vib + tr.quantity <= MAX_INT64
  {
    assert [tr][..0] == [] && [tr][0] == tr;
    assert SettleAll(ws, o, []) == Some(ws);
    assert CreditFits(ws, o, tr) <==> ws[tr.buyer].vib + tr.quantity <= MAX_INT64;
  }

  /** A run so far, with int64 requests. */
  predicate Comes(s0: System, steps: seq<Action>, s: System) {
    After(s0, steps) == Some(s) && InputsFit(steps)
  }

  lemma {:induction false} ComesOn(s0: System, steps: seq<Action>, s: System, a: Action)
    requires Comes(s0, steps, s) && Enabled(s, a) && InputFits(a)
    ensures Comes(s0, steps + [a], Next(s, a))
  {
    StepOn(s0, steps, s, a);
  }

  /** One user with `q` cents and `q` units. */
  function OneUser(q: int): System {
    Opening(map[1 := Balances(q, 0, q, 0)])
  }

  lemma OneUserTotals(q: int)
    ensures TotalBrl(OneUser(q).tables.wallets) == q && TotalVib(OneUser(q).tables.wallets) == q
  {
    var none: WalletTable := map[];
    assert OneUser(q).tables.wallets == none[1 := Balances(q, 0, q, 0)];
    TotalUpdate(none, BrlOf(), 1, Balances(q, 0, q, 0));
    TotalUpdate(none, VibOf(), 1, Balances(q, 0, q, 0));
  }

  /** The user offers all its units and bids for them. */
  lemma SaleRequested(q: int) returns (steps: seq<Action>, s: System)
    requires 0 < q <= MAX_INT64
    ensures Comes(OneUser(q), steps, s) && s.users == {1} && s.book == EMPTY_BOOK && !s.dirty && s.control.Idle?
    ensures s.tables.wallets == map[1 := Balances(0, q, 0, q)] && s.tables.orders.Keys == {1, 2}
      && s.tables.processed == {}
    ensures s.outbox == [OutboxRow(PlacedEvent(OneCent(1, Sell, q)), false),
      OutboxRow(PlacedEvent(OneCent(2, Buy, q)), false)]
    ensures s.stream == [] && s.delivered == 0 && s.pending == {}
  {
    hide After, Enabled, Next;
    var s0 := OneUser(q);
    var a1, a2 := PlaceOrder(Limited(1, Sell, 1, q), 1, 0), PlaceOrder(Limited(1, Buy, 1, q), 2, 0);
    Nothing(s0);
    LimitPlaced(s0, 1, 1, Sell, 1, q, 0);
    ComesOn(s0, [], s0, a1);
    var s1 := Next(s0, a1);
    LimitPlaced(s1, 2, 1, Buy, 1, q, 0);
    ComesOn(s0, [] + [a1], s1, a2);
    steps, s := [] + [a1] + [a2], Next(s1, a2);
  }

  /** The relay appends the SELL, loses its mark, appends the BUY, and appends the SELL again. */
  lemma SalePublishedTwice(q: int) returns (steps: seq<Action>, s: System)
    requires 0 < q <= MAX_INT64
    ensures Comes(OneUser(q), steps, s) && s.users == {1} && s.book == EMPTY_BOOK && !s.dirty && s.control.Idle?
    ensures s.tables.wallets == map[1 := Balances(0, q, 0, q)] && s.tables.orders.Keys == {1, 2}
      && s.tables.processed == {}
    ensures s.outbox == [OutboxRow(PlacedEvent(OneCent(1, Sell, q)), true),
      OutboxRow(PlacedEvent(OneCent(2, Buy, q)), true)]
    ensures s.stream == [0, 1, 0] && s.delivered == 3 && s.pending == {0, 1, 2}
  {
    hide Place, After, Listing, Recover, ApplyBatch, Comes;
    var past, s1 := SaleRequested(q);
    var s0 := OneUser(q);
    ComesOn(s0, past, s1, PublishUnmarked(0));
    var s2 := Next(s1, PublishUnmarked(0));
    ComesOn(s0, past + [PublishUnmarked(0)], s2, Publish(1));
    var s3 := Next(s2, Publish(1));
    ComesOn(s0, past + [PublishUnmarked(0)] + [Publish(1)], s3, Publish(0));
    var s4 := Next(s3, Publish(0));
    ComesOn(s0, past + [PublishUnmarked(0)] + [Publish(1)] + [Publish(0)], s4, Deliver(3));
    steps := past + [PublishUnmarked(0)] + [Publish(1)] + [Publish(0)] + [Deliver(3)];
    s := Next(s4, Deliver(3));
  }

  /** The first two entries are committed and acknowledged. */
  lemma SaleCommitted(q: int) returns (steps: seq<Action>, s: System)
    requires 0 < q <= MAX_INT64
    ensures Comes(OneUser(q), steps, s) && s.users == {1} && !s.dirty && s.control.Idle?
    ensures s.tables.wallets == map[1 := Balances(q, 0, q, 0)] && s.tables.orders.Keys == {1, 2}
      && s.tables.processed == {0, 1}
    ensures s.outbox == [OutboxRow(PlacedEvent(OneCent(1, Sell, q)), true),
      OutboxRow(PlacedEvent(OneCent(2, Buy, q)), true)]
    ensures s.stream == [0, 1, 0] && s.delivered == 3 && s.pending == {2}
    ensures Healthy(s.book) && s.book.asks == s.book.bids == [] && s.book.locations == map[]
  {
    hide Place, After, Listing, Recover, ApplyBatch, Comes, WellFormed, Unique;
    var past, s1 := SalePublishedTwice(q);
    var s0 := OneUser(q);
    var r := SoldOnce(s1.tables, q);
    EmptyIsHealthy();
    assert Messages(s1, [0, 1]) == SaleAt(0, 2, q);
    ComesOn(s0, past, s1, Commit([0, 1]));
    var s2 := Next(s1, Commit([0, 1]));
    ComesOn(s0, past + [Commit([0, 1])], s2, Ack);
    steps := past + [Commit([0, 1])] + [Ack];
    s := Next(s2, Ack);
    assert Elements([0, 1]) == {0, 1} by { assert [0, 1][0] == 0 && [0, 1][1] == 1; }
  }

  /** With the money back the user bids again, and the second BUY follows the second copy of the SELL. */
  lemma SoldToOneself(q: int) returns (steps: seq<Action>)
    requires 0 < q <= MAX_INT64
    ensures Tried(OneUser(q), steps, [2, 3]) && (FitsAtEnd(OneUser(q), steps, [2, 3]) <==> 2 * q <= MAX_INT64)
  {
    hide Place, After, Listing, Recover, ApplyBatch, WellFormed, Unique, BatchFits, BatchCreditsFit;
    var past, s1 := SaleCommitted(q);
    var s0 := OneUser(q);
    var a := PlaceOrder(Limited(1, Buy, 1, q), 3, 0);
    LimitPlaced(s1, 3, 1, Buy, 1, q, 0);
    ComesOn(s0, past, s1, a);
    var s2 := Next(s1, a);
    ComesOn(s0, past + [a], s2, Publish(2));
    var s3 := Next(s2, Publish(2));
    ComesOn(s0, past + [a] + [Publish(2)], s3, Deliver(1));
    var s := Next(s3, Deliver(1));
    steps := past + [a] + [Publish(2)] + [Deliver(1)];
    assert s.stream == [0, 1, 0, 2];
    assert Messages(s, [2, 3]) == SaleAt(2, 3, q);
    SoldTwiceIff(s.tables, s.book, q);
    OneUserTotals(q);
    TriedFits(s0, steps, s, [2, 3]);
  }

  lemma TriedFits(s0: System, steps: seq<Action>, s: System, batch: seq<nat>)
    requires Initial(s0) && Comes(s0, steps, s) && TotalsFit(s0.tables.wallets) && CanApply(s, batch)
    ensures BatchFits(s.tables, s.book, Messages(s, batch)) <==> BatchCreditsFit(s.tables, s.book, Messages(s, batch))
  {
    hide Ranged, BatchFits, BatchCreditsFit, After;
    RunIsRanged(s0, steps);
    MessagesAreKnown(s, batch);
    BatchFitsIff(s.tables, s.book, Messages(s, batch));
  }

  /** Every batch of every run with this many units fits. */
  ghost predicate AlwaysFits(units: int) {
    forall s0: System, steps: seq<Action>, batch: seq<nat> ::
      Tried(s0, steps, batch) && TotalVib(s0.tables.wallets) == units ==> FitsAtEnd(s0, steps, batch)
  }

  /** The exact limit of the exchange: with int64 money and int64 units, every batch of every run stays within
      int64 if and only if twice the units do. Beyond that a SELL that is published twice is credited to its
      second buyer before the seller's reservation is found empty. */
  lemma {:induction false} TwiceTheUnitsIff(units: int)
    requires 0 <= units <= MAX_INT64
    ensures AlwaysFits(units) <==> 2 * units <= MAX_INT64
  {
    hide Tried, FitsAtEnd;
    if 2 * units <= MAX_INT64 {
      forall s0: System, steps: seq<Action>, batch: seq<nat> | Tried(s0, steps, batch)
        && TotalVib(s0.tables.wallets) == units
        ensures FitsAtEnd(s0, steps, batch)
      {
        EveryBatchFits(s0, steps, batch);
      }
    } else {
      var steps := SoldToOneself(units);
      OneUserTotals(units);
      assert Tried(OneUser(units), steps, [2, 3]) && !FitsAtEnd(OneUser(units), steps, [2, 3]);
    }
  }
}
