/** What holds in every run that avoids three things: a second copy of a NEW_ORDER in the stream, a batch
    committed on a book that does not agree with the tables, and rebuilding the book while an open LIMIT
    order has not been seen by the matcher. Failures, lost replies, marks and acks, copies of cancel
    requests, redelivery, crashes and rebuilds are allowed. */
module CleanRuns {
  import opened Base
  import opened Orders
  import opened PriorityBook
  import opened Matching
  import opened PriceTime
  import opened BookContents
  import opened Settlement
  import opened Ledger
  import opened Consistency
  import opened Entries
  import opened Terms
  import opened Placement
  import opened Recovery
  import opened Exchange
  import opened Safety

  /** The matcher has seen every open LIMIT order. */
  predicate Quiescent(t: Tables) {
    forall id :: id in t.orders && t.orders[id].typ.Limit? && t.orders[id].Live() ==> id in t.entered
  }

  /** Appending row `k` gives no order a second NEW_ORDER entry. */
  predicate FirstCopy(s: System, k: nat) {
    k < |s.outbox| && s.outbox[k].event.NewOrder? ==> k !in s.stream
  }

  /** The book may be known to be dirty, as after a lost reply, and agree all the same. */
  ghost predicate Trusted(s: System) {
    s.dirty ==> BookAgrees(s.tables, s.book)
  }

  ghost predicate Disciplined(s: System, step: Action) {
    match step
    case Publish(k) => FirstCopy(s, k)
    case PublishUnmarked(k) => FirstCopy(s, k)
    case Commit(_) => Trusted(s)
    case CommitReplyLost(_) => Trusted(s)
    case Resync(_) => Quiescent(s.tables)
    case Restart(_) => Quiescent(s.tables)
    case _ => true
  }

  ghost predicate DisciplinedRun(s0: System, steps: seq<Action>) {
    steps == [] ||
    (DisciplinedRun(s0, steps[..|steps| - 1]) && After(s0, steps[..|steps| - 1]).Some?
     && Disciplined(After(s0, steps[..|steps| - 1]).value, steps[|steps| - 1]))
  }

  // ---------- prices of live rows do not cross ----------

  /** No bid the matcher has seen reaches an ask it has seen. */
  predicate RowsUncrossed(orders: OrderTable, entered: set<OrderId>) {
    forall i, j :: i in orders && j in orders
      && Resting(orders, entered, i).Some? && Resting(orders, entered, j).Some?
      && orders[i].side.Buy? && orders[j].side.Sell? && orders[i].price.Some? && orders[j].price.Some?
      ==> orders[i].price.value < orders[j].price.value
  }

  lemma BookUncrossesRows(t: Tables, b: Book)
    requires BookAgrees(t, b)
    ensures RowsUncrossed(t.orders, t.entered)
  {
    forall i, j | i in t.orders && j in t.orders
      && Resting(t.orders, t.entered, i).Some? && Resting(t.orders, t.entered, j).Some?
      && t.orders[i].side.Buy? && t.orders[j].side.Sell? && t.orders[i].price.Some? && t.orders[j].price.Some?
      ensures t.orders[i].price.value < t.orders[j].price.value
    {
      var k := EntryOf(t, b, i);
      var l := EntryOf(t, b, j);
      assert b.bids[k].Price() < b.asks[l].Price();
    }
  }

  lemma EntryOf(t: Tables, b: Book, id: OrderId) returns (k: nat)
    requires WellFormed(b) && View(b, t.orders, t.entered) && Resting(t.orders, t.entered, id).Some?
    ensures k < |b.Queue(t.orders[id].side)| && b.Queue(t.orders[id].side)[k].row == t.orders[id]
  {
    hide Sorted, DistinctTokens, LocationsOk;
    assert Lookup(b, id) == Resting(t.orders, t.entered, id);
    k := LookupIsEntry(b, id);
    assert SideOk(b.locations[id].side, b.Queue(b.locations[id].side), b.next);
  }

  /** A book rebuilt when the matcher has seen every open LIMIT order agrees with the tables. */
  lemma {:induction false} RebuiltBookAgrees(t: Tables, created: map<OrderId, int>, rows: seq<OrderRow>)
    requires TablesOk(t) && RowsUncrossed(t.orders, t.entered) && Quiescent(t)
    requires Listing(t.orders, created, rows)
    ensures BookAgrees(t, Recover(rows))
  {
    hide Unique;
    var b := Recover(rows);
    RecoveredContents(t.orders, created, rows, 0);
    forall id ensures Lookup(b, id) == Resting(t.orders, t.entered, id) {
      RecoveredContents(t.orders, created, rows, id);
    }
    forall i, j | 0 <= i < |b.bids| && 0 <= j < |b.asks| ensures b.bids[i].Price() < b.asks[j].Price() {
      RestingPrice(t, b, Buy, i);
      RestingPrice(t, b, Sell, j);
    }
  }

  /** Having seen every open LIMIT order is also necessary: the rebuild puts the others on the book
      as well. */
  lemma {:induction false} RebuildAgreesIff(t: Tables, created: map<OrderId, int>, rows: seq<OrderRow>)
    requires TablesOk(t) && RowsUncrossed(t.orders, t.entered) && Listing(t.orders, created, rows)
    ensures BookAgrees(t, Recover(rows)) <==> Quiescent(t)
  {
    hide Healthy, Listing, Uncrossed, Lookup, RowsUncrossed, FillsMatchTrades, Lifecycle, OrdersExist, Recover;
    if Quiescent(t) {
      RebuiltBookAgrees(t, created, rows);
    } else {
      var id :| id in t.orders && t.orders[id].typ.Limit? && t.orders[id].Live() && id !in t.entered;
      RecoveredContents(t.orders, created, rows, id);
      assert Lookup(Recover(rows), id) != Resting(t.orders, t.entered, id);
    }
  }

  lemma RestingPrice(t: Tables, b: Book, side: Side, k: nat)
    requires Healthy(b) && View(b, t.orders, t.entered) && k < |b.Queue(side)|
    ensures
      var r := b.Queue(side)[k].row;
      && r.id in t.orders && t.orders[r.id] == r && r.side == side && r.price == Some(b.Queue(side)[k].Price())
      && Resting(t.orders, t.entered, r.id).Some?
  {
    EntryIsLookup(b, side, k);
    assert Lookup(b, b.Queue(side)[k].row.id) == Resting(t.orders, t.entered, b.Queue(side)[k].row.id);
    assert SideOk(side, b.Queue(side), b.next);
  }

  // ---------- each NEW_ORDER reaches the stream once ----------

  /** A row of the outbox that is a NEW_ORDER is in the stream at most once. */
  predicate OneCopyEach(s: System) {
    forall i, j :: 0 <= i < j < |s.stream| && s.stream[i] == s.stream[j] ==> !EventAt(s, i).NewOrder?
  }

  predicate NewOnce(outbox: seq<OutboxRow>) {
    forall k, l :: 0 <= k < l < |outbox| && outbox[k].event.NewOrder? && outbox[l].event.NewOrder? ==>
      outbox[k].event.id != outbox[l].event.id
  }

  /** An order has entered the matcher exactly when its stream entry has been processed; one that is not
      in the stream has not. */
  predicate EnteredOk(s: System, t: Tables) {
    && (forall i :: 0 <= i < |s.stream| && EventAt(s, i).NewOrder? ==>
          (i in t.processed <==> EventAt(s, i).id in t.entered))
    && (forall k :: 0 <= k < |s.outbox| && k !in s.stream && s.outbox[k].event.NewOrder? ==>
          s.outbox[k].event.id !in t.entered)
  }

  /** Distinct stream entries never carry a NEW_ORDER for the same order. */
  lemma EntriesDiffer(s: System, i: nat, j: nat)
    requires OneCopyEach(s) && NewOnce(s.outbox) && i < |s.stream| && j < |s.stream| && i != j
    requires EventAt(s, i).NewOrder? && EventAt(s, j).NewOrder?
    ensures EventAt(s, i).id != EventAt(s, j).id
  {
    var k, l := if i < j then i else j, if i < j then j else i;
    assert s.stream[k] != s.stream[l];
  }

  // ---------- one entry ----------

  lemma IsFirstArrival(s: System, t: Tables, entry: nat)
    requires TablesOk(t) && EnteredOk(s, t) && entry < |s.stream| && entry !in t.processed
    requires EventAt(s, entry).NewOrder? && EventKnown(t.orders, EventAt(s, entry))
    ensures FirstArrival(Mark(t, entry), EventAt(s, entry))
  {
    var e := EventAt(s, entry);
    assert e.id !in t.entered;
    var r := t.orders[e.id];
    assert r.Valid() && r.status.Open?;
    assert r == Arriving(e);
  }

  lemma MarkConsistent(t: Tables, b: Book, entry: nat)
    requires Consistent(t, b)
    ensures Consistent(Mark(t, entry), b)
  {
  }

  /** Rows that were finished before are as they were. */
  predicate FinishedKept(orders: OrderTable, orders': OrderTable) {
    forall id :: id in orders && orders[id].Done() ==> id in orders' && orders'[id] == orders[id]
  }

  lemma EnteredAfterNew(s: System, t: Tables, entry: nat, t': Tables)
    requires OneCopyEach(s) && NewOnce(s.outbox) && EnteredOk(s, t)
    requires entry < |s.stream| && entry !in t.processed && EventAt(s, entry).NewOrder?
    requires t'.processed == t.processed + {entry} && t'.entered == t.entered + {EventAt(s, entry).id}
    ensures EnteredOk(s, t')
  {
    forall i | 0 <= i < |s.stream| && EventAt(s, i).NewOrder?
      ensures i in t'.processed <==> EventAt(s, i).id in t'.entered
    {
      if i != entry { EntriesDiffer(s, i, entry); }
    }
    forall k | 0 <= k < |s.outbox| && k !in s.stream && s.outbox[k].event.NewOrder?
      ensures s.outbox[k].event.id !in t'.entered
    {
      assert s.stream[entry] != k;
    }
  }

  lemma NewIsClean(s: System, t: Tables, b: Book, entry: nat)
    requires OneCopyEach(s) && NewOnce(s.outbox) && EnteredOk(s, t) && Consistent(t, b)
    requires entry < |s.stream| && entry !in t.processed && EventAt(s, entry).NewOrder?
    requires EventKnown(t.orders, EventAt(s, entry)) && ValidEvent(EventAt(s, entry))
    requires ApplyNew(Mark(t, entry), b, EventAt(s, entry)).Applied?
    ensures
      var r := ApplyNew(Mark(t, entry), b, EventAt(s, entry));
      Consistent(r.tables, r.book) && EnteredOk(s, r.tables) && FinishedKept(t.orders, r.tables.orders)
  {
    var t1 := Mark(t, entry);
    var e := EventAt(s, entry);
    IsFirstArrival(s, t, entry);
    MarkConsistent(t, b, entry);
    NewSucceedsIff(t1, b, e);
    NewKeepsConsistent(t1, b, e);
    EnteredAfterNew(s, t, entry, ApplyNew(t1, b, e).tables);
  }

  lemma CancelIsClean(s: System, t: Tables, b: Book, entry: nat, id: OrderId)
    requires EnteredOk(s, t) && Consistent(t, b)
    requires entry < |s.stream| && EventAt(s, entry) == CancelOrder(id)
    ensures
      var r := ApplyCancel(Mark(t, entry), b, id);
      && r.Applied? && Consistent(r.tables, r.book) && EnteredOk(s, r.tables) && FinishedKept(t.orders, r.tables.orders)
  {
    MarkConsistent(t, b, entry);
    CancelKeepsConsistent(Mark(t, entry), b, id);
  }

  lemma EntryIsClean(s: System, t: Tables, b: Book, m: Message)
    requires OneCopyEach(s) && NewOnce(s.outbox) && EnteredOk(s, t) && Consistent(t, b)
    requires m.entry < |s.stream| && m.event == EventAt(s, m.entry) && EventKnown(t.orders, m.event)
      && ValidEvent(m.event)
    requires ApplyEntry(t, b, m).Applied?
    ensures
      var r := ApplyEntry(t, b, m);
      Consistent(r.tables, r.book) && EnteredOk(s, r.tables) && FinishedKept(t.orders, r.tables.orders)
  {
    if m.entry !in t.processed {
      match m.event
      case NewOrder(_, _, _, _, _, _) => NewIsClean(s, t, b, m.entry);
      case CancelOrder(id) => CancelIsClean(s, t, b, m.entry, id);
      case Skipped => MarkConsistent(t, b, m.entry);
    }
  }

  // ---------- a batch ----------

  predicate FromStream(s: System, ms: seq<Message>) {
    forall i :: 0 <= i < |ms| ==> ms[i].entry < |s.stream| && ms[i].event == EventAt(s, ms[i].entry)
  }

  lemma {:induction false} BatchIsClean(s: System, t: Tables, b: Book, ms: seq<Message>)
    requires OneCopyEach(s) && NewOnce(s.outbox) && EnteredOk(s, t) && Consistent(t, b)
    requires BookKnown(t.orders, b) && RowsInRange(t.orders) && MessagesKnown(t.orders, ms) && FromStream(s, ms)
      && ValidMessages(ms)
    requires ApplyBatch(t, b, ms).Applied?
    ensures
      var r := ApplyBatch(t, b, ms);
      Consistent(r.tables, r.book) && EnteredOk(s, r.tables) && FinishedKept(t.orders, r.tables.orders)
    decreases |ms|
  {
    if ms != [] {
      var pre := ms[..|ms| - 1];
      var m := ms[|ms| - 1];
      BatchIsClean(s, t, b, pre);
      BatchKept(t, b, pre);
      var r := ApplyBatch(t, b, pre);
      assert EventKnown(t.orders, m.event);
      EntryIsClean(s, r.tables, r.book, m);
    }
  }

  // ---------- whole runs ----------

  /** Sound tables, and a book that agrees with them unless it is known not to. */
  ghost predicate BooksClean(s: System) {
    && TablesOk(s.tables) && RowsUncrossed(s.tables.orders, s.tables.entered)
    && (!s.dirty ==> BookAgrees(s.tables, s.book))
  }

  predicate StreamClean(s: System) {
    OneCopyEach(s) && NewOnce(s.outbox) && EnteredOk(s, s.tables)
  }

  ghost predicate Clean(s: System) {
    Shape(s) && DeliveryOk(s) && BooksClean(s) && StreamClean(s)
  }

  lemma CleanIsConsistent(s: System)
    requires Clean(s) && Trusted(s)
    ensures Consistent(s.tables, s.book)
  {
  }

  lemma CommitIsClean(s: System, batch: seq<nat>)
    requires Clean(s) && Trusted(s) && CanApply(s, batch)
    requires ApplyBatch(s.tables, s.book, Messages(s, batch)).Applied?
    ensures
      var r := ApplyBatch(s.tables, s.book, Messages(s, batch));
      && Consistent(r.tables, r.book) && EnteredOk(s, r.tables)
      && RowsUncrossed(r.tables.orders, r.tables.entered) && FinishedKept(s.tables.orders, r.tables.orders)
  {
    MessagesAreKnown(s, batch);
    BatchIsClean(s, s.tables, s.book, Messages(s, batch));
    var r := ApplyBatch(s.tables, s.book, Messages(s, batch));
    BookUncrossesRows(r.tables, r.book);
  }

  lemma {:induction false} NotExecuted(orders: OrderTable, ts: seq<Trade>, r: OrderRow)
    requires OrdersExist(orders, ts) && r.id !in orders
    ensures Executed(ts, r) == 0
    decreases |ts|
  {
    if ts != [] { NotExecuted(orders, ts[..|ts| - 1], r); }
  }

  lemma PlaceFills(t: Tables, users: set<UserId>, i: PlaceInput, id: OrderId)
    requires FillsMatchTrades(t.orders, t.trades) && OrdersExist(t.orders, t.trades)
    requires id !in t.orders && Place(t, users, i, id).0.Some?
    ensures FillsMatchTrades(Place(t, users, i, id).0.value.orders, t.trades)
  {
    NotExecuted(t.orders, t.trades, Placed(i, id));
  }

  /** A placement adds one row that nobody has traded with and that the matcher has not seen. */
  lemma PlaceTables(t: Tables, users: set<UserId>, i: PlaceInput, id: OrderId)
    requires TablesOk(t) && id !in t.orders && Place(t, users, i, id).0.Some?
    ensures TablesOk(Place(t, users, i, id).0.value)
  {
    hide Sound, FillsMatchTrades, Lifecycle, OrdersExist, Place;
    PlaceKeepsSound(t, users, i, id);
    PlaceFills(t, users, i, id);
    PlaceLifecycle(t, users, i, id);
  }

  lemma PlaceLifecycle(t: Tables, users: set<UserId>, i: PlaceInput, id: OrderId)
    requires Lifecycle(t.orders, t.entered) && OrdersExist(t.orders, t.trades) && id !in t.orders
    requires Place(t, users, i, id).0.Some?
    ensures
      var t' := Place(t, users, i, id).0.value;
      t'.trades == t.trades && Lifecycle(t'.orders, t'.entered) && OrdersExist(t'.orders, t'.trades)
  {
    hide Reserve, Validate;
    assert i.side.Some? && i.typ.Some? by { ValidateAccepts(i, id); }
  }

  lemma PlaceBooks(s: System, s': System, id: OrderId)
    requires BooksClean(s) && TablesOk(s'.tables) && id !in s.tables.orders && id in s'.tables.orders
    requires s'.tables.orders == s.tables.orders[id := s'.tables.orders[id]] && s'.tables.entered == s.tables.entered
    requires s'.book == s.book && s'.dirty == s.dirty
    ensures BooksClean(s')
  {
    hide Sound, Healthy;
    assert id !in s.tables.entered;
    NewRowUncrossed(s.tables.orders, s'.tables.orders, s.tables.entered, id);
    if !s.dirty {
      assert s'.tables.orders - {id} == s.tables.orders - {id};
      ViewSurvivesPlacement(s, s', id);
    }
  }

  lemma NewRowUncrossed(orders: OrderTable, orders': OrderTable, entered: set<OrderId>, id: OrderId)
    requires RowsUncrossed(orders, entered) && id !in entered && id in orders' && orders' == orders[id := orders'[id]]
    ensures RowsUncrossed(orders', entered)
  {
    assert forall j :: j in orders' && j != id ==> j in orders && orders'[j] == orders[j];
  }

  lemma ViewSurvivesPlacement(s: System, s': System, id: OrderId)
    requires View(s.book, s.tables.orders, s.tables.entered) && s'.book == s.book
      && s'.tables.entered == s.tables.entered
    requires id !in s.tables.entered && s'.tables.orders - {id} == s.tables.orders - {id}
    ensures View(s'.book, s'.tables.orders, s'.tables.entered)
  {
    forall j ensures Lookup(s'.book, j) == Resting(s'.tables.orders, s'.tables.entered, j) {
      assert Lookup(s.book, j) == Resting(s.tables.orders, s.tables.entered, j);
      if j != id {
        assert j in s.tables.orders <==> j in s.tables.orders - {id};
        assert j in s'.tables.orders <==> j in s'.tables.orders - {id};
      }
    }
  }

  /** The outbox grew by one row, and a NEW_ORDER in it is for a new order. */
  predicate OneRowMore(s: System, s': System) {
    && s'.stream == s.stream && |s'.outbox| == |s.outbox| + 1 && s'.outbox[..|s.outbox|] == s.outbox
    && s'.tables.processed == s.tables.processed && s'.tables.entered == s.tables.entered
    && var row := s'.outbox[|s.outbox|];
       row.event.NewOrder? ==> row.event.id !in s.tables.orders && row.event.id !in s.tables.entered
  }

  lemma OutboxGrows(s: System, s': System)
    requires StreamOk(s) && EventsKnown(s) && StreamClean(s) && OneRowMore(s, s')
    ensures StreamClean(s')
  {
    var n := |s.outbox|;
    assert forall k :: 0 <= k < n ==> s'.outbox[k] == s.outbox[k];
    forall k | 0 <= k < n && s.outbox[k].event.NewOrder? && s'.outbox[n].event.NewOrder?
      ensures s.outbox[k].event.id != s'.outbox[n].event.id
    {
      assert EventKnown(s.tables.orders, s.outbox[k].event);
    }
    forall i | 0 <= i < |s.stream| ensures EventAt(s', i) == EventAt(s, i) {
    }
  }

  lemma PlaceRow(s: System, input: PlaceInput, id: OrderId, now: int)
    requires Lifecycle(s.tables.orders, s.tables.entered)
    requires Enabled(s, PlaceOrder(input, id, now)) && Place(s.tables, s.users, input, id).0.Some?
    ensures OneRowMore(s, Next(s, PlaceOrder(input, id, now)))
  {
  }

  lemma PlaceIsClean(s: System, input: PlaceInput, id: OrderId, now: int)
    requires Clean(s) && Enabled(s, PlaceOrder(input, id, now))
    ensures Clean(Next(s, PlaceOrder(input, id, now)))
  {
    var step := PlaceOrder(input, id, now);
    NextShape(s, step);
    NextDelivery(s, step);
    if Place(s.tables, s.users, input, id).0.Some? {
      PlaceTables(s.tables, s.users, input, id);
      PlaceBooks(s, Next(s, step), id);
      PlaceRow(s, input, id, now);
      OutboxGrows(s, Next(s, step));
    }
  }

  lemma CancelRequestIsClean(s: System, id: OrderId, requester: UserId)
    requires Clean(s)
    ensures Clean(Next(s, RequestCancel(id, requester)))
  {
    var step := RequestCancel(id, requester);
    NextShape(s, step);
    NextDelivery(s, step);
    if CancelRequest(s.tables.orders, id, requester).CancelQueued? {
      assert OneRowMore(s, Next(s, step));
      OutboxGrows(s, Next(s, step));
    }
  }

  /** Row `k` was appended to the stream; its mark is all that may have changed in the outbox. */
  predicate Appended(s: System, s': System, k: nat) {
    && k < |s.outbox| && s'.stream == s.stream + [k] && |s'.outbox| == |s.outbox|
    && (forall l :: 0 <= l < |s.outbox| ==> s'.outbox[l].event == s.outbox[l].event)
    && s'.tables == s.tables
  }

  lemma AppendStream(s: System, s': System, k: nat)
    requires StreamOk(s) && StreamClean(s) && Appended(s, s', k) && FirstCopy(s, k)
      && |s.stream| !in s.tables.processed
    ensures StreamClean(s')
  {
    var n := |s.stream|;
    forall i | 0 <= i < n ensures EventAt(s', i) == EventAt(s, i) && s'.stream[i] == s.stream[i] {
    }
    assert EventAt(s', n) == s.outbox[k].event;
    forall i, j | 0 <= i < j < |s'.stream| && s'.stream[i] == s'.stream[j] ensures !EventAt(s', i).NewOrder? {
      if j == n { assert s.stream[i] == k; }
    }
    forall l | 0 <= l < |s'.outbox| && l !in s'.stream && s'.outbox[l].event.NewOrder?
      ensures s'.outbox[l].event.id !in s.tables.entered
    {
      assert l !in s.stream;
    }
    assert n in s.tables.processed <==> EventAt(s', n).NewOrder? && EventAt(s', n).id in s.tables.entered;
  }

  lemma PublishIsClean(s: System, step: Action)
    requires Clean(s) && Enabled(s, step) && Disciplined(s, step) && (step.Publish? || step.PublishUnmarked?)
    ensures Clean(Next(s, step))
  {
    hide ApplyBatch, TablesOk, BookAgrees, RowsUncrossed, StreamClean;
    NextShape(s, step);
    NextDelivery(s, step);
    assert |s.stream| !in Fresh(0, s.delivered);
    AppendStream(s, Next(s, step), step.row);
  }

  lemma MatcherIsClean(s: System, step: Action)
    requires Clean(s) && Enabled(s, step) && Disciplined(s, step) && (step.Commit? || step.CommitReplyLost?)
    ensures Clean(Next(s, step)) && FinishedKept(s.tables.orders, Next(s, step).tables.orders)
    ensures Trusted(Next(s, step))
  {
    NextShape(s, step);
    NextDelivery(s, step);
    CommitIsClean(s, step.batch);
    var s' := Next(s, step);
    assert forall i :: EventAt(s', i) == EventAt(s, i);
  }

  /** Every disciplined step keeps the agreement and leaves finished rows alone. */
  lemma NextIsClean(s: System, step: Action)
    requires Clean(s) && Enabled(s, step) && Disciplined(s, step)
    ensures Clean(Next(s, step))
  {
    hide Clean, Next, ApplyBatch;
    match step
    case PlaceOrder(input, id, now) => PlaceIsClean(s, input, id, now);
    case RequestCancel(id, requester) => CancelRequestIsClean(s, id, requester);
    case Publish(_) => PublishIsClean(s, step);
    case PublishUnmarked(_) => PublishIsClean(s, step);
    case Commit(_) => MatcherIsClean(s, step);
    case CommitReplyLost(_) => MatcherIsClean(s, step);
    case _ => QuietIsClean(s, step);
  }

  lemma NextKeepsFinished(s: System, step: Action)
    requires Clean(s) && Enabled(s, step) && Disciplined(s, step)
    ensures FinishedKept(s.tables.orders, Next(s, step).tables.orders)
  {
    hide Clean, Next, FinishedKept;
    match step
    case Commit(_) => MatcherIsClean(s, step);
    case CommitReplyLost(_) => MatcherIsClean(s, step);
    case _ => OthersKeepRows(s, step);
  }

  lemma OthersKeepRows(s: System, step: Action)
    requires Enabled(s, step) && !step.Commit? && !step.CommitReplyLost?
    ensures FinishedKept(s.tables.orders, Next(s, step).tables.orders)
  {
  }

  /** Steps that leave the tables, the outbox and the stream alone. */
  lemma QuietIsClean(s: System, step: Action)
    requires Clean(s) && Enabled(s, step) && Disciplined(s, step)
    requires step.Deliver? || step.Abort? || step.Ack? || step.AckLost? || step.Resync? || step.Restart?
    ensures Clean(Next(s, step)) && Next(s, step).tables == s.tables
  {
    NextShape(s, step);
    NextDelivery(s, step);
    var s' := Next(s, step);
    assert forall i :: EventAt(s', i) == EventAt(s, i);
    if step.Resync? || step.Restart? {
      RebuiltBookAgrees(s.tables, s.created, step.rows);
    }
  }

  lemma InitialClean(s0: System)
    requires Initial(s0)
    ensures Clean(s0)
  {
    forall id ensures Lookup(s0.book, id) == Resting(s0.tables.orders, s0.tables.entered, id) {
    }
  }

  /** Disciplined steps lead from clean states to clean states. */
  lemma {:induction false} CleanStaysClean(s: System, steps: seq<Action>)
    requires Clean(s) && DisciplinedRun(s, steps) && After(s, steps).Some?
    ensures Clean(After(s, steps).value)
    decreases |steps|
  {
    hide Clean, Disciplined, Enabled, Next;
    if steps != [] {
      CleanStaysClean(s, steps[..|steps| - 1]);
      NextIsClean(After(s, steps[..|steps| - 1]).value, steps[|steps| - 1]);
    }
  }

  /** In every disciplined run the tables are sound, and the book, unless known to be dirty, is
      exactly the live LIMIT rows the matcher has seen. */
  lemma {:induction false} CleanRunsStayClean(s0: System, steps: seq<Action>)
    requires Initial(s0) && DisciplinedRun(s0, steps) && After(s0, steps).Some?
    ensures Clean(After(s0, steps).value)
  {
    InitialClean(s0);
    CleanStaysClean(s0, steps);
  }
}
