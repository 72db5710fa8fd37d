/** What holds in every run whatsoever: any interleaving of placements, cancels, duplicate
    publications, deliveries, aborted or unacknowledged commits, lost acks, resyncs and crashes. */
module Safety {
  import opened Orders
  import opened PriorityBook
  import opened Settlement
  import opened Conservation
  import opened Consistency
  import opened Terms
  import opened Placement
  import opened Recovery
  import opened Exchange

  // ---------- shape ----------

  predicate StreamOk(s: System) {
    && s.delivered <= |s.stream|
    && (forall i :: 0 <= i < |s.stream| ==> s.stream[i] < |s.outbox|)
  }

  predicate EventsKnown(s: System) {
    forall k :: 0 <= k < |s.outbox| ==> EventKnown(s.tables.orders, s.outbox[k].event)
  }

  predicate Shape(s: System) {
    && StreamOk(s) && EventsKnown(s)
    && WellFormed(s.book) && RowsInRange(s.tables.orders) && BookKnown(s.tables.orders, s.book)
  }

  lemma MessagesAreKnown(s: System, batch: seq<nat>)
    requires StreamOk(s) && EventsKnown(s)
    ensures MessagesKnown(s.tables.orders, Messages(s, batch))
  {
    var ms := Messages(s, batch);
    forall i | 0 <= i < |ms| ensures EventKnown(s.tables.orders, ms[i].event) {
      if batch[i] < |s.stream| {
        assert EventKnown(s.tables.orders, s.outbox[s.stream[batch[i]]].event);
      }
    }
  }

  lemma MatcherShape(s: System, batch: seq<nat>)
    requires Shape(s) && ValidMessages(Messages(s, batch))
    ensures
      var r := ApplyBatch(s.tables, s.book, Messages(s, batch));
      && Shape(s.(book := r.book))
      && (r.Applied? ==> Shape(s.(book := r.book, tables := r.tables)))
  {
    MessagesAreKnown(s, batch);
    BatchKept(s.tables, s.book, Messages(s, batch));
    var r := ApplyBatch(s.tables, s.book, Messages(s, batch));
    if r.Applied? {
      SameRowsKnown(s.tables.orders, r.tables.orders, r.book);
      EventsStayKnown(s, r.tables.orders);
    }
  }

  lemma EventsStayKnown(s: System, orders: OrderTable)
    requires EventsKnown(s) && SameRows(s.tables.orders, orders)
    ensures forall k :: 0 <= k < |s.outbox| ==> EventKnown(orders, s.outbox[k].event)
  {
    forall k | 0 <= k < |s.outbox| ensures EventKnown(orders, s.outbox[k].event) {
      assert EventKnown(s.tables.orders, s.outbox[k].event);
    }
  }

  lemma PlaceShape(s: System, input: PlaceInput, id: OrderId, now: int)
    requires Shape(s) && Enabled(s, PlaceOrder(input, id, now))
    ensures Shape(Next(s, PlaceOrder(input, id, now)))
  {
    var placed := Place(s.tables, s.users, input, id).0;
    if placed.Some? {
      ValidateAccepts(input, id);
      var s' := Next(s, PlaceOrder(input, id, now));
      forall r: OrderRow | RowKnown(s.tables.orders, r) ensures RowKnown(s'.tables.orders, r) {
      }
      forall k | 0 <= k < |s'.outbox| ensures EventKnown(s'.tables.orders, s'.outbox[k].event) {
        if k < |s.outbox| {
          assert EventKnown(s.tables.orders, s.outbox[k].event);
        }
      }
    }
  }

  lemma {:induction false} RecoverKnown(orders: OrderTable, rows: seq<OrderRow>)
    requires RowsInRange(orders)
    requires forall i :: 0 <= i < |rows| ==> rows[i].id in orders && orders[rows[i].id] == rows[i]
    ensures WellFormed(Recover(rows)) && BookKnown(orders, Recover(rows))
    decreases |rows|
  {
    RecoverWellFormed(rows);
    if rows != [] {
      var r := rows[|rows| - 1];
      RecoverKnown(orders, rows[..|rows| - 1]);
      var b := Recover(rows[..|rows| - 1]);
      if r.typ.Limit? && r.price.Some? {
        InsertKnown(orders, r.side, b.Queue(r.side), Entry(b.next, r));
      }
    }
  }

  lemma NextShape(s: System, step: Action)
    requires Shape(s) && Enabled(s, step)
    ensures Shape(Next(s, step))
  {
    match step
    case PlaceOrder(input, id, now) => PlaceShape(s, input, id, now);
    case RequestCancel(_, _) =>
    case Publish(k) =>
    case PublishUnmarked(k) =>
    case Deliver(_) =>
    case Commit(batch) => MatcherShape(s, batch);
    case CommitReplyLost(batch) => MatcherShape(s, batch);
    case Abort(batch, reached) => MatcherShape(s, batch[..reached]);
    case Ack =>
    case AckLost =>
    case Resync(rows) => RecoverKnown(s.tables.orders, rows);
    case Restart(rows) => RecoverKnown(s.tables.orders, rows);
  }

  // ---------- money ----------

  lemma NextConserves(s: System, step: Action)
    requires Shape(s) && Enabled(s, step)
    ensures Conserves(s.tables.wallets, Next(s, step).tables.wallets)
  {
    match step
    case PlaceOrder(input, id, _) =>
      if Place(s.tables, s.users, input, id).0.Some? {
        PlaceConserves(s.tables, s.users, input, id);
      }
    case Commit(batch) => BatchConserves(s.tables, s.book, Messages(s, batch));
    case CommitReplyLost(batch) => BatchConserves(s.tables, s.book, Messages(s, batch));
    case _ =>
  }

  // ---------- at most once ----------

  predicate Distinct(log: seq<nat>) {
    forall i, j :: 0 <= i < j < |log| ==> log[i] != log[j]
  }

  /** The log of applied entries repeats nothing and is exactly the processed table. */
  predicate LogOk(t: Tables) {
    Distinct(t.applied) && Elements(t.applied) == t.processed
  }

  lemma MarkLog(t: Tables, entry: nat)
    requires LogOk(t) && entry !in t.processed
    ensures LogOk(Mark(t, entry))
  {
    var log := t.applied + [entry];
    forall i, j | 0 <= i < j < |log| ensures log[i] != log[j] {
      if j == |t.applied| { assert t.applied[i] in Elements(t.applied); }
    }
    assert Elements(log) == Elements(t.applied) + {entry} by {
      assert forall i :: 0 <= i < |t.applied| ==> log[i] == t.applied[i];
      assert log[|t.applied|] == entry;
    }
  }

  lemma EntryLog(t: Tables, b: Book, m: Message)
    requires WellFormed(b) && ValidEvent(m.event) && LogOk(t) && ApplyEntry(t, b, m).Applied?
    ensures
      var t' := ApplyEntry(t, b, m).tables;
      LogOk(t') && t'.processed == t.processed + {m.entry} && t.applied <= t'.applied
  {
    if m.entry !in t.processed { MarkLog(t, m.entry); }
  }

  /** A committed batch applies each of its entries that was not processed yet exactly once, and
      leaves all of them processed. */
  lemma {:induction false} BatchLog(t: Tables, b: Book, ms: seq<Message>)
    requires WellFormed(b) && ValidMessages(ms) && LogOk(t) && ApplyBatch(t, b, ms).Applied?
    ensures
      var t' := ApplyBatch(t, b, ms).tables;
      LogOk(t') && t'.processed == t.processed + EntriesOf(ms) && t.applied <= t'.applied
    decreases |ms|
  {
    hide WellFormed, ApplyEntry;
    if ms != [] {
      var pre := ms[..|ms| - 1];
      var m := ms[|ms| - 1];
      BatchLog(t, b, pre);
      EntryLog(ApplyBatch(t, b, pre).tables, ApplyBatch(t, b, pre).book, m);
      EntriesOfSnoc(pre, m);
      assert ms == pre + [m];
    }
  }

  lemma EntriesOfSnoc(ms: seq<Message>, m: Message)
    ensures EntriesOf(ms + [m]) == EntriesOf(ms) + {m.entry}
  {
    assert (ms + [m])[|ms|] == m;
    assert forall i :: 0 <= i < |ms| ==> (ms + [m])[i] == ms[i];
  }

  function EntriesOf(ms: seq<Message>): set<nat> {
    set i | 0 <= i < |ms| :: ms[i].entry
  }

  lemma EntriesOfMessages(s: System, batch: seq<nat>)
    ensures EntriesOf(Messages(s, batch)) == Elements(batch)
  {
    var ms := Messages(s, batch);
    forall i | 0 <= i < |batch| ensures batch[i] in EntriesOf(ms) && ms[i].entry in Elements(batch) {
      assert ms[i].entry == batch[i];
    }
  }

  /** Acknowledged entries are committed; a delivered entry is acknowledged or still pending. */
  predicate DeliveryOk(s: System) {
    && LogOk(s.tables)
    && s.acked <= s.tables.processed
    && s.pending + s.acked == Fresh(0, s.delivered)
    && s.tables.processed <= Fresh(0, s.delivered)
    && (s.control.Holding? ==>
      Elements(s.control.batch) <= s.tables.processed && Elements(s.control.batch) <= Fresh(0, s.delivered))
  }

  lemma NextDelivery(s: System, step: Action)
    requires StreamOk(s) && DeliveryOk(s) && Enabled(s, step)
    ensures DeliveryOk(Next(s, step))
    ensures s.tables.applied <= Next(s, step).tables.applied
  {
    match step
    case Commit(batch) => CommitLog(s, batch);
    case CommitReplyLost(batch) => CommitLog(s, batch);
    case Deliver(n) =>
      assert Fresh(0, s.delivered) + Fresh(s.delivered, n) == Fresh(0, s.delivered + n);
      assert Next(s, step).pending + s.acked == (s.pending + s.acked) + Fresh(s.delivered, n);
    case Ack =>
      assert Next(s, step).pending + Next(s, step).acked == s.pending + s.acked;
    case _ =>
  }

  lemma CommitLog(s: System, batch: seq<nat>)
    requires DeliveryOk(s) && CanApply(s, batch) && ApplyBatch(s.tables, s.book, Messages(s, batch)).Applied?
    ensures
      var t := ApplyBatch(s.tables, s.book, Messages(s, batch)).tables;
      && LogOk(t) && t.processed == s.tables.processed + Elements(batch) && s.tables.applied <= t.applied
      && Elements(batch) <= Fresh(0, s.delivered)
  {
    BatchLog(s.tables, s.book, Messages(s, batch));
    EntriesOfMessages(s, batch);
    forall e | e in Elements(batch) ensures e in s.pending {
    }
  }

  // ---------- whole runs ----------

  ghost predicate Safe(s0: System, s: System) {
    Shape(s) && DeliveryOk(s) && Conserves(s0.tables.wallets, s.tables.wallets) && AllNonNegative(s.tables.wallets)
  }

  lemma InitialSafe(s0: System)
    requires Initial(s0)
    ensures Safe(s0, s0)
  {
  }

  /** Safety of every run. From funded wallets, whatever happens: total BRL and total Vibranium
      never change, no balance is ever negative, the effects of each stream entry are committed at
      most once, acknowledged entries are committed, and no delivered entry is lost. */
  lemma {:induction false} EveryRunIsSafe(s0: System, steps: seq<Action>)
    requires Initial(s0) && After(s0, steps).Some?
    ensures Safe(s0, After(s0, steps).value)
    decreases |steps|
  {
    if steps == [] {
      InitialSafe(s0);
    } else {
      EveryRunIsSafe(s0, steps[..|steps| - 1]);
      var s := After(s0, steps[..|steps| - 1]).value;
      var step := steps[|steps| - 1];
      NextShape(s, step);
      NextConserves(s, step);
      NextDelivery(s, step);
    }
  }

  /** A delivered entry is processed or still in the pending list, so it will be retried. */
  lemma {:induction false} NoEntryIsLost(s0: System, steps: seq<Action>, entry: nat)
    requires Initial(s0) && After(s0, steps).Some? && entry < After(s0, steps).value.delivered
    ensures entry in After(s0, steps).value.tables.processed || entry in After(s0, steps).value.pending
  {
    EveryRunIsSafe(s0, steps);
    assert entry in Fresh(0, After(s0, steps).value.delivered);
  }
}
