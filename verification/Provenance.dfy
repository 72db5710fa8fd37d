/** Where orders, events and cancellations come from, in every run: from a request of the user they are of. */
module Provenance {
  import opened Base
  import opened Orders
  import opened PriorityBook
  import opened Matching
  import opened Settlement
  import opened Consistency
  import opened Terms
  import opened Placement
  import opened Recovery
  import opened Exchange
  import opened Safety

  // ---------- orders and events ----------

  /** Rows are never lost, and keep their terms. */
  lemma RowsStay(s: System, step: Action)
    requires Shape(s) && Enabled(s, step)
    ensures forall id :: id in s.tables.orders ==>
      id in Next(s, step).tables.orders && Next(s, step).tables.orders[id].SameTerms(s.tables.orders[id])
  {
    hide BookKnown, WellFormed, ApplyBatch, RowsInRange;
    match step
    case PlaceOrder(input, id, _) =>
      if Place(s.tables, s.users, input, id).0.Some? {
        PlaceOutcome(s.tables, s.users, input, id);
      }
    case Commit(batch) =>
      MessagesAreKnown(s, batch);
      BatchKept(s.tables, s.book, Messages(s, batch));
    case CommitReplyLost(batch) =>
      MessagesAreKnown(s, batch);
      BatchKept(s.tables, s.book, Messages(s, batch));
    case _ =>
  }

  /** Only a placement adds an order, and the order is the one it asks for. */
  lemma RowsComeFromPlacements(s: System, step: Action, id: OrderId)
    requires Shape(s) && Enabled(s, step) && id !in s.tables.orders && id in Next(s, step).tables.orders
    ensures step.PlaceOrder? && step.id == id && RowAsked(step.input, id, Next(s, step).tables.orders[id])
    ensures id in Next(s, step).created && Next(s, step).created[id] == step.now
  {
    hide BookKnown, WellFormed, ApplyBatch, RowsInRange;
    match step
    case PlaceOrder(input, other, _) =>
      if Place(s.tables, s.users, input, other).0.Some? {
        PlaceOutcome(s.tables, s.users, input, other);
      }
    case Commit(batch) =>
      MessagesAreKnown(s, batch);
      BatchKept(s.tables, s.book, Messages(s, batch));
    case CommitReplyLost(batch) =>
      MessagesAreKnown(s, batch);
      BatchKept(s.tables, s.book, Messages(s, batch));
    case _ =>
  }

  lemma CreationStays(s: System, step: Action, id: OrderId)
    requires Enabled(s, step) && id in s.tables.orders && id in s.created
    ensures id in Next(s, step).created && Next(s, step).created[id] == s.created[id]
  {
  }

  /** Every order of a run was asked for by one of its placements: its user, side, type, price and quantity are
      those of the request, and so is its time of creation. */
  lemma {:induction false} EveryOrderWasPlaced(s0: System, steps: seq<Action>, id: OrderId) returns (n: nat)
    requires Initial(s0) && After(s0, steps).Some? && id in After(s0, steps).value.tables.orders
    ensures n < |steps| && steps[n].PlaceOrder? && steps[n].id == id
    ensures
      var r, i := After(s0, steps).value.tables.orders[id], steps[n].input;
      && r.user == i.user && Some(r.side) == i.side && Some(r.typ) == i.typ && r.price == i.price
      && r.quantity == i.quantity
    ensures id in After(s0, steps).value.created && After(s0, steps).value.created[id] == steps[n].now
    decreases |steps|
  {
    hide Shape, Next, Enabled;
    var last := |steps| - 1;
    var s := After(s0, steps[..last]).value;
    EveryRunIsSafe(s0, steps[..last]);
    if id in s.tables.orders {
      n := EveryOrderWasPlaced(s0, steps[..last], id);
      RowsStay(s, steps[last]);
      CreationStays(s, steps[last], id);
    } else {
      n := last;
      RowsComeFromPlacements(s, steps[last], id);
    }
  }

  /** This step has asked for this event: a placement for an order of its own terms, or a cancel request by the
      owner of an order that was live. */
  predicate AskedFor(s: System, step: Action, e: Event) {
    match e
    case NewOrder(id, _, _, _, _, _) => step.PlaceOrder? && step.id == id && EventAsked(step.input, id, e)
    case CancelOrder(id) =>
      && step.RequestCancel? && step.target == id && id in s.tables.orders
      && step.requester == s.tables.orders[id].user && s.tables.orders[id].Live()
    case Skipped => false
  }

  lemma EventsComeFromRequests(s: System, step: Action, k: nat)
    requires Enabled(s, step) && k < |Next(s, step).outbox|
    ensures k < |s.outbox| ==> Next(s, step).outbox[k].event == s.outbox[k].event
    ensures k >= |s.outbox| ==> AskedFor(s, step, Next(s, step).outbox[k].event)
  {
    hide ApplyBatch, WellFormed, Place, CancelRequest, EventAsked;
    match step
    case PlaceOrder(input, id, _) =>
      if Place(s.tables, s.users, input, id).0.Some? {
        PlaceOutcome(s.tables, s.users, input, id);
      }
    case RequestCancel(id, requester) => CancelReplyIff(s.tables.orders, id, requester);
    case _ =>
  }

  /** Every event in the outbox was asked for by one step of the run. */
  lemma {:induction false} EveryEventWasAskedFor(s0: System, steps: seq<Action>, k: nat) returns (n: nat)
    requires Initial(s0) && After(s0, steps).Some? && k < |After(s0, steps).value.outbox|
    ensures n < |steps| && After(s0, steps[..n]).Some?
    ensures AskedFor(After(s0, steps[..n]).value, steps[n], After(s0, steps).value.outbox[k].event)
    decreases |steps|
  {
    hide Next, Enabled, AskedFor;
    var last := |steps| - 1;
    var s := After(s0, steps[..last]).value;
    EventsComeFromRequests(s, steps[last], k);
    if k < |s.outbox| {
      n := EveryEventWasAskedFor(s0, steps[..last], k);
      assert steps[..last][..n] == steps[..n];
    } else {
      n := last;
    }
  }

  // ---------- cancellations ----------

  predicate NoneCancelled(q: seq<Entry>) {
    forall i :: 0 <= i < |q| ==> !q[i].row.status.Cancelled?
  }

  /** No order on the book is a cancelled one. */
  predicate BookUncancelled(b: Book) {
    NoneCancelled(b.bids) && NoneCancelled(b.asks)
  }

  lemma RemoveUncancelled(b: Book, id: OrderId, side: Side, price: int)
    requires BookUncancelled(b)
    ensures BookUncancelled(RemoveFront(b, id, side, price))
  {
  }

  lemma StepUncancelled(s: State)
    requires Runnable(s) && Step(s).Some?
    requires BookUncancelled(s.book) && NoneCancelled(s.makers) && !s.incoming.status.Cancelled?
    ensures
      var s' := Step(s).value;
      BookUncancelled(s'.book) && NoneCancelled(s'.makers) && !s'.incoming.status.Cancelled?
  {
    hide RemoveFront;
    var m := s.Opp()[0];
    assert RestsOn(Opposite(s.incoming.side), m.row);
    var qty := Quantity(s.incoming, m.row, s.funds, m.Price());
    var side := Opposite(s.incoming.side);
    var maker := Entry(m.token, FillRow(m.row, qty));
    assert !m.row.status.Cancelled?;
    var b := s.book.WithQueue(side, [maker] + s.Opp()[1..]);
    RemoveUncancelled(b, maker.row.id, side, m.Price());
  }

  lemma {:induction false} LoopUncancelled(s: State)
    requires Runnable(s)
    requires BookUncancelled(s.book) && NoneCancelled(s.makers) && !s.incoming.status.Cancelled?
    ensures
      var s' := Loop(s);
      BookUncancelled(s'.book) && NoneCancelled(s'.makers) && !s'.incoming.status.Cancelled?
    decreases s.incoming.Remaining(), Debt(s)
  {
    hide Step, BookUncancelled, NoneCancelled;
    if Step(s).Some? {
      StepRunnable(s);
      StepDecreases(s);
      StepUncancelled(s);
      LoopUncancelled(Step(s).value);
    }
  }

  lemma MatchUncancelled(b: Book, o: OrderRow, funds: Option<int>)
    requires Runnable(Start(b, o, funds)) && BookUncancelled(b) && !o.status.Cancelled?
    ensures
      var s := Match(b, o, funds).state;
      && BookUncancelled(s.book) && NoneCancelled(s.makers) && s.incoming.SameTerms(o)
      && (o.typ.Limit? ==> !s.incoming.status.Cancelled?)
  {
    hide WellFormed, Loop;
    LoopRunnable(Start(b, o, funds));
    LoopUncancelled(Start(b, o, funds));
  }

  /** LIMIT orders that read CANCELLED did so before, or one of the entries is a cancel of theirs. */
  predicate CancelledBy(orders: OrderTable, orders': OrderTable, ms: seq<Message>) {
    forall id :: id in orders' && orders'[id].typ.Limit? && orders'[id].status.Cancelled? ==>
      (id in orders && orders[id].status.Cancelled?) || Cancels(ms, id)
  }

  predicate Cancels(ms: seq<Message>, id: OrderId) {
    exists i :: 0 <= i < |ms| && ms[i].event == CancelOrder(id)
  }

  lemma {:induction false} UpdatesUncancelled(orders: OrderTable, es: seq<Entry>, id: OrderId)
    requires NoneCancelled(es) && id in UpdateOrders(orders, es) && UpdateOrders(orders, es)[id].status.Cancelled?
    ensures id in orders && orders[id].status.Cancelled?
    decreases |es|
  {
    if es != [] {
      UpdatesUncancelled(orders, es[..|es| - 1], id);
    }
  }

  lemma NewCancels(t: Tables, b: Book, e: Event)
    requires WellFormed(b) && e.NewOrder? && ValidEvent(e) && BookUncancelled(b) && RowKnown(t.orders, Arriving(e))
    ensures BookUncancelled(ApplyNew(t, b, e).book)
    ensures ApplyNew(t, b, e).Applied? ==> CancelledBy(t.orders, ApplyNew(t, b, e).tables.orders, [])
  {
    hide WellFormed, Match, BookUncancelled;
    var o := Arriving(e);
    if IsBuyMarket(o) ==> o.user in t.wallets {
      var s := Match(b, o, FundsOf(t.wallets, o)).state;
      MatchUncancelled(b, o, FundsOf(t.wallets, o));
      var written := UpdateOrders(t.orders, s.makers);
      UpdateOrdersSameRows(t.orders, s.makers);
      forall id | id in written && written[id].status.Cancelled?
        ensures id in t.orders && t.orders[id].status.Cancelled?
      {
        UpdatesUncancelled(t.orders, s.makers, id);
      }
    }
  }

  lemma CancelCancels(t: Tables, b: Book, m: Message, id: OrderId)
    requires WellFormed(b) && BookUncancelled(b) && m.event == CancelOrder(id)
    ensures BookUncancelled(ApplyCancel(t, b, id).book)
    ensures ApplyCancel(t, b, id).Applied? ==> CancelledBy(t.orders, ApplyCancel(t, b, id).tables.orders, [m])
  {
    hide WellFormed, RemoveFront, BookUncancelled;
    assert [m][0].event == CancelOrder(id);
    assert Cancels([m], id);
    if id in b.locations {
      LookupFinds(b, id);
      RemoveUncancelled(b, id, b.locations[id].side, b.locations[id].price);
    }
  }

  lemma EntryCancels(t: Tables, b: Book, m: Message)
    requires WellFormed(b) && BookUncancelled(b) && EventKnown(t.orders, m.event) && ValidEvent(m.event)
    ensures BookUncancelled(ApplyEntry(t, b, m).book)
    ensures ApplyEntry(t, b, m).Applied? ==> CancelledBy(t.orders, ApplyEntry(t, b, m).tables.orders, [m])
  {
    hide WellFormed, ApplyNew, ApplyCancel, BookUncancelled;
    if m.entry !in t.processed {
      match m.event
      case NewOrder(_, _, _, _, _, _) => NewCancels(Mark(t, m.entry), b, m.event);
      case CancelOrder(id) => CancelCancels(Mark(t, m.entry), b, m, id);
      case Skipped =>
    }
  }

  lemma CancelledFurther(orders: OrderTable, mid: OrderTable, orders': OrderTable, ms: seq<Message>, m: Message)
    requires CancelledBy(orders, mid, ms) && CancelledBy(mid, orders', [m]) && SameRows(mid, orders')
    ensures CancelledBy(orders, orders', ms + [m])
  {
    forall id | id in orders' && orders'[id].typ.Limit? && orders'[id].status.Cancelled?
      ensures (id in orders && orders[id].status.Cancelled?) || Cancels(ms + [m], id)
    {
      if Cancels([m], id) {
        assert (ms + [m])[|ms|].event == CancelOrder(id);
      } else if Cancels(ms, id) {
        var i :| 0 <= i < |ms| && ms[i].event == CancelOrder(id);
        assert (ms + [m])[i].event == CancelOrder(id);
      }
    }
  }

  lemma {:induction false} BatchCancels(t: Tables, b: Book, ms: seq<Message>)
    requires WellFormed(b) && BookKnown(t.orders, b) && RowsInRange(t.orders) && MessagesKnown(t.orders, ms)
      && ValidMessages(ms) && BookUncancelled(b)
    ensures BookUncancelled(ApplyBatch(t, b, ms).book)
    ensures ApplyBatch(t, b, ms).Applied? ==> CancelledBy(t.orders, ApplyBatch(t, b, ms).tables.orders, ms)
    decreases |ms|
  {
    hide BookKnown, WellFormed, ApplyEntry, EventKnown, RowsInRange, BookUncancelled;
    if ms != [] {
      var n := |ms| - 1;
      var r := ApplyBatch(t, b, ms[..n]);
      BatchCancels(t, b, ms[..n]);
      BatchKept(t, b, ms[..n]);
      if r.Applied? {
        SameRowsKnown(t.orders, r.tables.orders, r.book);
        SameRowsEvent(t.orders, r.tables.orders, ms[n].event);
        EntryCancels(r.tables, r.book, ms[n]);
        EntryKept(r.tables, r.book, ms[n]);
        if ApplyEntry(r.tables, r.book, ms[n]).Applied? {
          var r' := ApplyEntry(r.tables, r.book, ms[n]);
          CancelledFurther(t.orders, r.tables.orders, r'.tables.orders, ms[..n], ms[n]);
          assert ms[..n] + [ms[n]] == ms;
        }
      }
    }
  }

  predicate Asked(outbox: seq<OutboxRow>, id: OrderId) {
    exists k :: 0 <= k < |outbox| && outbox[k].event == CancelOrder(id)
  }

  /** A cancelled LIMIT order has a cancel in the outbox, and is not on the book. */
  predicate CancelsAsked(s: System) {
    && BookUncancelled(s.book)
    && forall id :: id in s.tables.orders && s.tables.orders[id].typ.Limit? && s.tables.orders[id].status.Cancelled? ==>
      Asked(s.outbox, id)
  }

  lemma AskedStays(s: System, step: Action, id: OrderId)
    requires Enabled(s, step) && Asked(s.outbox, id)
    ensures Asked(Next(s, step).outbox, id)
  {
    hide ApplyBatch, WellFormed, Place, CancelRequest;
    var k :| 0 <= k < |s.outbox| && s.outbox[k].event == CancelOrder(id);
    assert |s.outbox| <= |Next(s, step).outbox|;
    EventsComeFromRequests(s, step, k);
    assert Next(s, step).outbox[k].event == CancelOrder(id);
  }

  lemma BatchAsked(s: System, batch: seq<nat>, id: OrderId)
    requires Cancels(Messages(s, batch), id)
    ensures Asked(s.outbox, id)
  {
    var ms := Messages(s, batch);
    var i :| 0 <= i < |ms| && ms[i].event == CancelOrder(id);
    assert s.outbox[s.stream[batch[i]]].event == CancelOrder(id);
  }

  lemma {:induction false} RecoverUncancelled(rows: seq<OrderRow>)
    requires forall i :: 0 <= i < |rows| ==> rows[i].Live()
    ensures BookUncancelled(Recover(rows))
    decreases |rows|
  {
    if rows != [] {
      RecoverUncancelled(rows[..|rows| - 1]);
    }
  }

  lemma BookStaysUncancelled(s: System, step: Action)
    requires Shape(s) && Enabled(s, step) && BookUncancelled(s.book)
    ensures BookUncancelled(Next(s, step).book)
  {
    hide ApplyBatch, WellFormed, BookUncancelled, BookKnown, RowsInRange, EventKnown;
    match step
    case Commit(batch) =>
      MessagesAreKnown(s, batch);
      BatchCancels(s.tables, s.book, Messages(s, batch));
    case CommitReplyLost(batch) =>
      MessagesAreKnown(s, batch);
      BatchCancels(s.tables, s.book, Messages(s, batch));
    case Abort(batch, reached) =>
      MessagesAreKnown(s, batch[..reached]);
      BatchCancels(s.tables, s.book, Messages(s, batch[..reached]));
    case Resync(rows) => RecoverUncancelled(rows);
    case Restart(rows) => RecoverUncancelled(rows);
    case _ =>
  }

  /** A LIMIT order newly cancelled by a step has a cancel in the outbox. */
  lemma StepAsked(s: System, step: Action, id: OrderId)
    requires Shape(s) && Enabled(s, step) && CancelsAsked(s)
    requires id in Next(s, step).tables.orders && Next(s, step).tables.orders[id].typ.Limit?
      && Next(s, step).tables.orders[id].status.Cancelled?
    ensures Asked(s.outbox, id)
  {
    hide ApplyBatch, WellFormed, BookUncancelled, BookKnown, RowsInRange, EventKnown, Place, Asked, Cancels;
    match step
    case PlaceOrder(input, other, _) =>
      if Place(s.tables, s.users, input, other).0.Some? {
        PlaceOutcome(s.tables, s.users, input, other);
      }
    case Commit(batch) => CommitAsked(s, batch, id);
    case CommitReplyLost(batch) => CommitAsked(s, batch, id);
    case _ =>
  }

  lemma CommitAsked(s: System, batch: seq<nat>, id: OrderId)
    requires Shape(s) && CancelsAsked(s) && CanApply(s, batch)
    requires ApplyBatch(s.tables, s.book, Messages(s, batch)).Applied?
    requires
      var orders := ApplyBatch(s.tables, s.book, Messages(s, batch)).tables.orders;
      id in orders && orders[id].typ.Limit? && orders[id].status.Cancelled?
    ensures Asked(s.outbox, id)
  {
    hide ApplyBatch, WellFormed, BookUncancelled, BookKnown, RowsInRange, EventKnown, Asked, Cancels;
    MessagesAreKnown(s, batch);
    BatchCancels(s.tables, s.book, Messages(s, batch));
    BatchKept(s.tables, s.book, Messages(s, batch));
    if Cancels(Messages(s, batch), id) {
      BatchAsked(s, batch, id);
    }
  }

  lemma {:induction false} CancelsWereAsked(s0: System, steps: seq<Action>)
    requires Initial(s0) && After(s0, steps).Some?
    ensures CancelsAsked(After(s0, steps).value)
    decreases |steps|
  {
    hide Next, Enabled, Shape, Asked, BookUncancelled;
    if steps == [] {
      EmptyUncancelled();
    } else {
      var last := |steps| - 1;
      var s := After(s0, steps[..last]).value;
      CancelsWereAsked(s0, steps[..last]);
      EveryRunIsSafe(s0, steps[..last]);
      BookStaysUncancelled(s, steps[last]);
      var s' := Next(s, steps[last]);
      forall id | id in s'.tables.orders && s'.tables.orders[id].typ.Limit? && s'.tables.orders[id].status.Cancelled?
        ensures Asked(s'.outbox, id)
      {
        StepAsked(s, steps[last], id);
        AskedStays(s, steps[last], id);
      }
    }
  }

  lemma EmptyUncancelled()
    ensures BookUncancelled(EMPTY_BOOK)
  {
  }

  /** In every run a LIMIT order that is cancelled was live when its own user asked for that. */
  lemma {:induction false} OnlyTheOwnerCancels(s0: System, steps: seq<Action>, id: OrderId) returns (n: nat)
    requires Initial(s0) && After(s0, steps).Some? && id in After(s0, steps).value.tables.orders
    requires
      var r := After(s0, steps).value.tables.orders[id];
      r.typ.Limit? && r.status.Cancelled?
    ensures n < |steps| && steps[n] == RequestCancel(id, After(s0, steps).value.tables.orders[id].user)
    ensures After(s0, steps[..n]).Some? && id in After(s0, steps[..n]).value.tables.orders
    ensures After(s0, steps[..n]).value.tables.orders[id].Live()
  {
    CancelsWereAsked(s0, steps);
    var s := After(s0, steps).value;
    var k :| 0 <= k < |s.outbox| && s.outbox[k].event == CancelOrder(id);
    n := EveryEventWasAskedFor(s0, steps, k);
    TermsStay(s0, steps, n, id);
  }

  /** A row keeps its terms to the end of the run. */
  lemma {:induction false} TermsStay(s0: System, steps: seq<Action>, n: nat, id: OrderId)
    requires Initial(s0) && After(s0, steps).Some? && n <= |steps| && After(s0, steps[..n]).Some?
    requires id in After(s0, steps[..n]).value.tables.orders
    ensures id in After(s0, steps).value.tables.orders
    ensures After(s0, steps).value.tables.orders[id].SameTerms(After(s0, steps[..n]).value.tables.orders[id])
    decreases |steps|
  {
    hide Next, Enabled, Shape;
    if n == |steps| {
      assert steps[..n] == steps;
    } else {
      var last := |steps| - 1;
      assert steps[..last][..n] == steps[..n];
      TermsStay(s0, steps[..last], n, id);
      EveryRunIsSafe(s0, steps[..last]);
      RowsStay(After(s0, steps[..last]).value, steps[last]);
    }
  }
}
