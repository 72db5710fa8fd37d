/** What users of the exchange can rely on in every disciplined run. */
module Guarantees {
  import opened Base
  import opened Orders
  import opened PriorityBook
  import opened PriceTime
  import opened BookContents
  import opened Settlement
  import opened Ledger
  import opened Consistency
  import opened Entries
  import opened Terms
  import opened Exchange
  import opened Safety
  import opened CleanRuns

  /** Reserved BRL is the sum of limit price times remaining quantity over the user's live BUY
      LIMIT orders, queued or resting; reserved Vibranium the sum of remaining over live SELLs. */
  lemma {:induction false} ReservationsAreExact(s0: System, steps: seq<Action>, u: UserId)
    requires Initial(s0) && DisciplinedRun(s0, steps) && After(s0, steps).Some?
    requires u in After(s0, steps).value.tables.wallets
    ensures
      var t := After(s0, steps).value.tables;
      && t.wallets[u].reservedBrl == Total(t.orders, BrlNeedOf(u))
      && t.wallets[u].reservedVib == Total(t.orders, VibNeedOf(u))
  {
    CleanRunsStayClean(s0, steps);
  }

  /** The book is a derived view: what rests under an id is the row itself, exactly when the row
      is a live LIMIT order whose NEW_ORDER has been applied, and bids stay below asks. */
  lemma {:induction false} BookIsDerivedView(s0: System, steps: seq<Action>, id: OrderId)
    requires Initial(s0) && DisciplinedRun(s0, steps) && After(s0, steps).Some?
    requires !After(s0, steps).value.dirty
    ensures
      var s := After(s0, steps).value;
      && Lookup(s.book, id) == Resting(s.tables.orders, s.tables.entered, id)
      && Healthy(s.book) && Uncrossed(s.book)
  {
    CleanRunsStayClean(s0, steps);
  }

  /** The orders the matcher is said to have seen are those whose NEW_ORDER entry is processed. */
  lemma {:induction false} SeenMeansProcessed(s0: System, steps: seq<Action>, entry: nat)
    requires Initial(s0) && DisciplinedRun(s0, steps) && After(s0, steps).Some?
    requires entry < |After(s0, steps).value.stream| && EventAt(After(s0, steps).value, entry).NewOrder?
    ensures
      var s := After(s0, steps).value;
      entry in s.tables.processed <==> EventAt(s, entry).id in s.tables.entered
  {
    CleanRunsStayClean(s0, steps);
  }

  /** Filled quantity is the sum of the recorded trades, within the order, and FILLED means full. */
  lemma {:induction false} FillsAreAccounted(s0: System, steps: seq<Action>, id: OrderId)
    requires Initial(s0) && DisciplinedRun(s0, steps) && After(s0, steps).Some?
    requires id in After(s0, steps).value.tables.orders
    ensures
      var t := After(s0, steps).value.tables;
      var r := t.orders[id];
      r.filled == Executed(t.trades, r) && 0 <= r.filled <= r.quantity && (r.status.Filled? <==> r.filled == r.quantity)
  {
    CleanRunsStayClean(s0, steps);
    assert After(s0, steps).value.tables.orders[id].Valid();
  }

  /** FILLED and CANCELLED are final: a row that is finished at some point of the run reads the
      same at the end. */
  lemma {:induction false} FinishedForever(s0: System, steps: seq<Action>, n: nat, id: OrderId)
    requires Initial(s0) && n <= |steps| && DisciplinedRun(s0, steps) && After(s0, steps).Some?
      && After(s0, steps[..n]).Some?
    requires id in After(s0, steps[..n]).value.tables.orders && After(s0, steps[..n]).value.tables.orders[id].Done()
    ensures id in After(s0, steps).value.tables.orders
    ensures After(s0, steps).value.tables.orders[id] == After(s0, steps[..n]).value.tables.orders[id]
    decreases |steps|
  {
    if n < |steps| {
      var pre := steps[..|steps| - 1];
      assert pre[..n] == steps[..n];
      FinishedForever(s0, pre, n, id);
      CleanRunsStayClean(s0, pre);
      NextKeepsFinished(After(s0, pre).value, steps[|steps| - 1]);
    } else {
      assert steps[..n] == steps;
    }
  }

  /** Once an order is finished, any further cancel event for it changes nothing, so however many
      are queued its remainder is released once. */
  lemma {:induction false} LaterCancelsDoNothing(s0: System, steps: seq<Action>, n: nat, id: OrderId)
    requires Initial(s0) && n <= |steps| && DisciplinedRun(s0, steps) && After(s0, steps).Some?
      && After(s0, steps[..n]).Some?
    requires Trusted(After(s0, steps).value)
    requires id in After(s0, steps[..n]).value.tables.orders && After(s0, steps[..n]).value.tables.orders[id].Done()
    ensures
      var s := After(s0, steps).value;
      WellFormed(s.book) && ApplyCancel(s.tables, s.book, id) == Applied(s.tables, s.book)
  {
    FinishedForever(s0, steps, n, id);
    CleanRunsStayClean(s0, steps);
    CancelOutcome(After(s0, steps).value.tables, After(s0, steps).value.book, id);
  }

  /** In a disciplined run with a book that agrees, applying any stream entry fails in exactly one case:
      the entry is the unprocessed NEW_ORDER of a BUY MARKET whose available funds are at or below
      minus the best ask. No other settlement, release or trade record can go wrong. */
  lemma {:induction false} MatcherFailsOnlyWhenPoisoned(s0: System, steps: seq<Action>, entry: nat)
    requires Initial(s0) && DisciplinedRun(s0, steps) && After(s0, steps).Some?
    requires Trusted(After(s0, steps).value) && entry < |After(s0, steps).value.stream|
    ensures
      var s := After(s0, steps).value;
      var e := EventAt(s, entry);
      && WellFormed(s.book) && ValidEvent(e)
      && (ApplyEntry(s.tables, s.book, Message(entry, e)).Failed? <==> Poisons(s.tables, s.book, Message(entry, e)))
  {
    CleanRunsStayClean(s0, steps);
    var s := After(s0, steps).value;
    EntryFailsIff(s, entry);
  }

  lemma EntryFailsIff(s: System, entry: nat)
    requires Clean(s) && Trusted(s) && entry < |s.stream|
    ensures ValidEvent(EventAt(s, entry))
    ensures ApplyEntry(s.tables, s.book, Message(entry, EventAt(s, entry))).Failed? <==>
      Poisons(s.tables, s.book, Message(entry, EventAt(s, entry)))
  {
    assert EventKnown(s.tables.orders, s.outbox[s.stream[entry]].event);
    EntryFails(s, s.tables, s.book, Message(entry, EventAt(s, entry)));
  }

  /** The one kind of entry that fails: a NEW_ORDER of a BUY MARKET, not processed yet, whose available
      funds are at or below minus the best ask. */
  predicate Poisons(t: Tables, b: Book, m: Message) {
    m.entry !in t.processed && m.event.NewOrder? && PoisonedArrival(t, b, m.event)
  }

  /** On agreeing tables and book an entry of the stream fails if and only if it is of that kind, and
      then it leaves the book as it was. */
  lemma EntryFails(s: System, t: Tables, b: Book, m: Message)
    requires EnteredOk(s, t) && Consistent(t, b)
    requires m.entry < |s.stream| && m.event == EventAt(s, m.entry) && EventKnown(t.orders, m.event)
      && ValidEvent(m.event)
    ensures ApplyEntry(t, b, m).Failed? <==> Poisons(t, b, m)
    ensures ApplyEntry(t, b, m).Failed? ==> ApplyEntry(t, b, m).book == b
  {
    hide ApplyNew, ApplyCancel, WellFormed, Unique, FillsMatchTrades, View, EventKnown;
    if m.entry !in t.processed {
      var t' := Mark(t, m.entry);
      MarkConsistent(t, b, m.entry);
      match m.event
      case NewOrder(_, _, _, _, _, _) =>
        IsFirstArrival(s, t, m.entry);
        NewSucceedsIff(t', b, m.event);
        assert PoisonedArrival(t', b, m.event) <==> PoisonedArrival(t, b, m.event);
        if PoisonedArrival(t', b, m.event) { PoisonedOutcome(t', b, m.event); }
      case CancelOrder(id) => CancelKeepsConsistent(t', b, id);
      case Skipped =>
    }
  }

  /** Entry `p` of a batch is of the failing kind when its turn comes. */
  predicate PoisonsAt(t: Tables, b: Book, ms: seq<Message>, p: nat)
    requires WellFormed(b) && ValidMessages(ms) && p < |ms|
  {
    var r := ApplyBatch(t, b, ms[..p]);
    r.Applied? && Poisons(r.tables, r.book, ms[p])
  }

  /** A batch of entries of the stream fails if and only if one of them is of the failing kind when its
      turn comes. */
  lemma {:induction false} BatchFailsIff(s: System, t: Tables, b: Book, ms: seq<Message>)
    requires OneCopyEach(s) && NewOnce(s.outbox) && EnteredOk(s, t) && Consistent(t, b)
    requires BookKnown(t.orders, b) && RowsInRange(t.orders) && MessagesKnown(t.orders, ms) && FromStream(s, ms)
      && ValidMessages(ms)
    ensures ApplyBatch(t, b, ms).Failed? <==> exists p :: 0 <= p < |ms| && PoisonsAt(t, b, ms, p)
    decreases |ms|
  {
    hide ApplyEntry, Poisons, OneCopyEach, NewOnce, EnteredOk, BookKnown, RowsInRange, WellFormed, EventKnown,
      TablesOk, Unique, View;
    if ms != [] {
      var n := |ms| - 1;
      var pre := ms[..n];
      BatchFailsIff(s, t, b, pre);
      forall p | 0 <= p < n ensures PoisonsAt(t, b, pre, p) <==> PoisonsAt(t, b, ms, p) {
        assert pre[..p] == ms[..p] && pre[p] == ms[p];
      }
      if ApplyBatch(t, b, pre).Applied? {
        LastFails(s, t, b, ms);
      } else {
        var p :| 0 <= p < n && PoisonsAt(t, b, pre, p);
        assert PoisonsAt(t, b, ms, p);
      }
    }
  }

  lemma {:induction false} LastFails(s: System, t: Tables, b: Book, ms: seq<Message>)
    requires OneCopyEach(s) && NewOnce(s.outbox) && EnteredOk(s, t) && Consistent(t, b) && ms != []
    requires BookKnown(t.orders, b) && RowsInRange(t.orders) && MessagesKnown(t.orders, ms) && FromStream(s, ms)
      && ValidMessages(ms)
    requires ApplyBatch(t, b, ms[..|ms| - 1]).Applied?
    ensures ApplyBatch(t, b, ms).Failed? <==> PoisonsAt(t, b, ms, |ms| - 1)
  {
    hide ApplyEntry, Poisons, BookKnown, RowsInRange, WellFormed, EventKnown, OneCopyEach, NewOnce;
    var pre := ms[..|ms| - 1];
    var m := ms[|ms| - 1];
    assert EventKnown(t.orders, m.event);
    BatchIsClean(s, t, b, pre);
    BatchKept(t, b, pre);
    var r := ApplyBatch(t, b, pre);
    SameRowsEvent(t.orders, r.tables.orders, m.event);
    EntryFails(s, r.tables, r.book, m);
  }
  // ---------- when the flag is raised for nothing ----------

  /** The live LIMIT rows the matcher has seen are the same. */
  ghost predicate SameLiveRows(t: Tables, t': Tables) {
    forall id :: Resting(t.orders, t.entered, id) == Resting(t'.orders, t'.entered, id)
  }

  /** A batch of the stream goes through, or it goes through up to an entry that fails and leaves the book
      as it is. */
  lemma {:induction false} BatchGoesThrough(s: System, t: Tables, b: Book, ms: seq<Message>) returns (p: nat)
    requires OneCopyEach(s) && NewOnce(s.outbox) && EnteredOk(s, t) && Consistent(t, b)
    requires BookKnown(t.orders, b) && RowsInRange(t.orders) && MessagesKnown(t.orders, ms) && FromStream(s, ms)
      && ValidMessages(ms)
    ensures p <= |ms| && (p < |ms| ==> PoisonsAt(t, b, ms, p))
    ensures
      var r := ApplyBatch(t, b, ms[..p]);
      r.Applied? && ApplyBatch(t, b, ms).book == r.book && Consistent(r.tables, r.book)
  {
    hide ApplyEntry, Poisons, OneCopyEach, NewOnce, EnteredOk, BookKnown, RowsInRange, WellFormed, EventKnown, TablesOk,
      Unique, View, Uncrossed;
    BatchFailsIff(s, t, b, ms);
    if ApplyBatch(t, b, ms).Applied? {
      p := |ms|;
      assert ms[..p] == ms;
    } else {
      p :| 0 <= p < |ms| && PoisonsAt(t, b, ms, p);
      var r := ApplyBatch(t, b, ms[..p]);
      BatchIsClean(s, t, b, ms[..p]);
      BatchKept(t, b, ms[..p]);
      SameRowsEvent(t.orders, r.tables.orders, ms[p].event);
      EntryFails(s, r.tables, r.book, ms[p]);
      BatchSnoc(t, b, ms, p);
      BatchStops(t, b, ms, p + 1);
    }
    BatchIsClean(s, t, b, ms[..p]);
  }

  /** A batch rolled back raises the flag in any case. The book still agrees with the tables if and only if the
      entries that had gone through when it ended would have left the live LIMIT rows as they are. */
  lemma {:induction false} AbortAgreesIff(s: System, batch: seq<nat>, reached: nat) returns (p: nat)
    requires Clean(s) && Trusted(s) && Enabled(s, Abort(batch, reached))
    ensures p <= reached && ValidMessages(Messages(s, batch)[..p])
    ensures p < reached ==> PoisonsAt(s.tables, s.book, Messages(s, batch), p)
    ensures
      var r := ApplyBatch(s.tables, s.book, Messages(s, batch)[..p]);
      r.Applied? && (BookAgrees(s.tables, Next(s, Abort(batch, reached)).book) <==> SameLiveRows(s.tables, r.tables))
  {
    hide ApplyEntry, ApplyBatch, BookKnown, RowsInRange, WellFormed, OneCopyEach, NewOnce, EnteredOk, TablesOk, Poisons,
      Healthy, Uncrossed, Lookup;
    var all, ms := Messages(s, batch), Messages(s, batch[..reached]);
    assert ms == all[..reached];
    MessagesAreKnown(s, batch[..reached]);
    p := BatchGoesThrough(s, s.tables, s.book, ms);
    assert ms[..p] == all[..p];
    var r := ApplyBatch(s.tables, s.book, ms[..p]);
    assert View(r.book, r.tables.orders, r.tables.entered);
  }
}
