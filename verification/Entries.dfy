/** Exactly when a stream entry applied to agreeing tables and book fails, and what a cancel does. */
module Entries {
  import opened Base
  import opened Orders
  import opened PriorityBook
  import opened Matching
  import opened PriceTime
  import opened BookContents
  import opened Settlement
  import opened Ledger
  import opened Consistency

  // ---------- the one failing NEW_ORDER ----------

  lemma {:induction false} LoopKeepsTrades(s: State)
    requires Runnable(s)
    ensures s.trades <= Loop(s).trades
    decreases s.incoming.Remaining(), Debt(s)
  {
    if Step(s).Some? {
      StepRunnable(s);
      StepDecreases(s);
      LoopKeepsTrades(Step(s).value);
    }
  }

  lemma {:induction false} SettledArePositive(ws: WalletTable, o: OrderRow, ts: seq<Trade>, i: nat)
    requires (o.typ.Limit? ==> o.price.Some?) && SettleAll(ws, o, ts).Some? && i < |ts|
    ensures ts[i].quantity > 0 && ts[i].price > 0
    decreases |ts|
  {
    if i < |ts| - 1 {
      SettledArePositive(ws, o, ts[..|ts| - 1], i);
    }
  }

  /** With funds at or below minus the best ask, the first trade has a negative quantity. */
  lemma PoisonedStep(s: State)
    requires Runnable(s) && Poisoned(s) && s.trades == []
    ensures Step(s).Some? && |Step(s).value.trades| == 1 && Step(s).value.trades[0].quantity < 0
  {
    var m := s.Opp()[0];
    assert RestsOn(Opposite(s.incoming.side), m.row);
    var a := TruncDiv(s.funds.value, m.Price());
    assert a <= -1;
  }

  /** The state after the one trade of a poisoned taker: the fills are refused, and the funds come
      up to between minus the best ask and zero. */
  function AfterPoison(s: State): State
    requires s.Opp() != [] && s.funds.Some? && s.Opp()[0].Price() > 0
  {
    var m := s.Opp()[0];
    var qty := TruncDiv(s.funds.value, m.Price());
    s.(funds := Some(s.funds.value - qty * m.Price()),
       trades := s.trades + [TradeOf(s.incoming, m.row, m.Price(), qty)],
       makers := Touch(s.makers, m))
  }

  /** A poisoned taker makes exactly one trade, and it changes neither order nor the book. */
  lemma PoisonedOnce(s: State)
    requires Runnable(s) && Poisoned(s) && s.Opp()[0].row.Remaining() > 0
    ensures s.Opp()[0].Price() > 0 && TruncDiv(s.funds.value, s.Opp()[0].Price()) < 0
    ensures Step(s) == Some(AfterPoison(s))
    ensures Runnable(AfterPoison(s)) && Step(AfterPoison(s)) == None
  {
    var m := s.Opp()[0];
    var side := Opposite(s.incoming.side);
    assert RestsOn(side, m.row);
    var qty := TruncDiv(s.funds.value, m.Price());
    assert qty <= -1;
    assert [m] + s.Opp()[1..] == s.Opp();
    assert s.book.WithQueue(side, s.Opp()) == s.book;
    assert Quantity(s.incoming, m.row, s.funds, m.Price()) == qty;
    assert FillRow(m.row, qty) == m.row && FillRow(s.incoming, qty) == s.incoming;
    NothingAffordable(s.incoming, m.row, s.funds.value - qty * m.Price(), m.Price());
  }

  /** What becomes of a poisoned arrival: one trade of minus as many units as it takes to bring the
      funds above minus the best ask, nothing filled, the whole order cancelled in memory, the book as it
      was, and the entry an error. */
  lemma PoisonedOutcome(t: Tables, b: Book, e: Event)
    requires Healthy(b) && e.NewOrder? && ValidEvent(e) && PoisonedArrival(t, b, e)
    ensures ApplyNew(t, b, e) == Failed(b)
    ensures
      var o := Arriving(e);
      var funds := t.wallets[o.user].AvailableBrl();
      var ask := b.asks[0];
      && b.asks != [] && ask.Price() > 0 && TruncDiv(funds, ask.Price()) < 0 && Runnable(StartOf(t, b, o))
      && var m := Match(b, o, Some(funds));
         && m.state.book == b && m.state.incoming == CancelRow(o) && m.cancelledQuantity == o.quantity && !m.rested
         && m.state.trades == [TradeOf(o, ask.row, ask.Price(), TruncDiv(funds, ask.Price()))]
  {
    hide WellFormed, Unique;
    var o := Arriving(e);
    var s0 := StartOf(t, b, o);
    assert LiveRow(b.Queue(Sell)[0].row);
    PoisonedOnce(s0);
    LoopRunnable(s0);
    LoopOfTwo(s0);
    assert s0.trades == [];
    var trades := Loop(s0).trades;
    assert |trades| == 1 && trades[0].quantity < 0;
    if SettleAll(t.wallets, o, trades).Some? {
      SettledArePositive(t.wallets, o, trades, 0);
    }
  }

  lemma {:induction false} LoopOfTwo(s: State)
    requires Runnable(s) && Step(s).Some? && Runnable(Step(s).value) && Step(Step(s).value) == None
    ensures Loop(s) == Step(s).value
  {
    StepRunnable(s);
    StepDecreases(s);
  }

  /** On any well-formed book a poisoned arrival is an error. */
  lemma PoisonFails(t: Tables, b: Book, e: Event)
    requires WellFormed(b) && e.NewOrder? && ValidEvent(e) && PoisonedArrival(t, b, e)
    ensures ApplyNew(t, b, e).Failed?
  {
    var o := Arriving(e);
    var s0 := StartOf(t, b, o);
    PoisonedStep(s0);
    StepRunnable(s0);
    StepDecreases(s0);
    LoopKeepsTrades(Step(s0).value);
    var s := Loop(s0);
    if SettleAll(t.wallets, o, s.trades).Some? {
      SettledArePositive(t.wallets, o, s.trades, 0);
    }
  }

  /** The matcher's settle, release and trade-record calls all succeed for a NEW_ORDER exactly
      when the order is not a BUY MARKET whose available funds are at or below minus the best ask. */
  lemma NewSucceedsIff(t: Tables, b: Book, e: Event)
    requires Consistent(t, b) && FirstArrival(t, e)
    ensures ValidEvent(e)
    ensures ApplyNew(t, b, e).Applied? <==> !PoisonedArrival(t, b, e)
  {
    assert t.orders[e.id].Valid();
    if PoisonedArrival(t, b, e) {
      PoisonFails(t, b, e);
    } else {
      NewKeepsConsistent(t, b, e);
    }
  }

  // ---------- cancels ----------

  /** The order's row is a live LIMIT row the matcher has seen: the only cancel with an effect. */
  predicate Cancellable(t: Tables, id: OrderId) {
    Resting(t.orders, t.entered, id).Some?
  }

  lemma CancelView(t: Tables, b: Book, id: OrderId)
    requires BookAgrees(t, b) && Cancellable(t, id)
    ensures View(Cancel(b, id), t.orders[id := CancelRow(t.orders[id])], t.entered)
  {
    hide Cancel, Lookup, WellFormed;
    forall j
      ensures Lookup(Cancel(b, id), j) == Resting(t.orders[id := CancelRow(t.orders[id])], t.entered, j)
    {
      CancelContents(b, id, j);
      assert Lookup(b, j) == Resting(t.orders, t.entered, j);
    }
  }

  /** The refund is positive and covered by the reservation. */
  lemma RefundOk(t: Tables, id: OrderId)
    requires Sound(t.wallets, t.orders) && Cancellable(t, id)
    ensures
      var r := t.orders[id];
      r.id == id && LiveRow(r) && r.price.Some? && r.user in t.wallets && Refund(t.wallets[r.user], r).Ok?
  {
    RefundKeepsSound(t.wallets, t.orders, t.orders[id]);
  }

  /** A cancel of an order that does not rest changes nothing; a cancel of one that does gives
      its owner exactly what the order still needed and marks the row. It never fails. */
  lemma CancelOutcome(t: Tables, b: Book, id: OrderId)
    requires Consistent(t, b)
    ensures !Cancellable(t, id) ==> ApplyCancel(t, b, id) == Applied(t, b)
    ensures Cancellable(t, id) ==>
      var r := t.orders[id];
      && r.user in t.wallets
      && Refund(t.wallets[r.user], r).Ok?
      && ApplyCancel(t, b, id) == Applied(
           t.(wallets := t.wallets[r.user := Refund(t.wallets[r.user], r).w], orders := t.orders[id := CancelRow(r)]),
           Cancel(b, id))
  {
    assert Lookup(b, id) == Resting(t.orders, t.entered, id);
    if Cancellable(t, id) {
      RefundOk(t, id);
      var r := t.orders[id];
      assert t.orders[id].(filled := CancelRow(r).filled, status := CancelRow(r).status) == CancelRow(r);
    } else if id in b.locations {
      LookupFinds(b, id);
    }
  }

  function CancelledTables(t: Tables, id: OrderId): Tables
    requires Cancellable(t, id) && t.orders[id].user in t.wallets && t.orders[id].price.Some?
  {
    var r := t.orders[id];
    t.(wallets := t.wallets[r.user := Refund(t.wallets[r.user], r).After(t.wallets[r.user])],
       orders := t.orders[id := CancelRow(r)])
  }

  lemma CancelTables(t: Tables, id: OrderId)
    requires TablesOk(t) && Cancellable(t, id) && t.orders[id].price.Some? && t.orders[id].user in t.wallets
    requires Refund(t.wallets[t.orders[id].user], t.orders[id]).Ok?
    ensures TablesOk(CancelledTables(t, id))
  {
    var r := t.orders[id];
    RefundKeepsSound(t.wallets, t.orders, r);
    FillsAfterCancel(t.orders, t.trades, r);
  }

  lemma CancelKeepsConsistent(t: Tables, b: Book, id: OrderId)
    requires Consistent(t, b)
    ensures ApplyCancel(t, b, id).Applied?
    ensures TablesOk(ApplyCancel(t, b, id).tables)
      && BookAgrees(ApplyCancel(t, b, id).tables, ApplyCancel(t, b, id).book)
    ensures forall j :: j in t.orders && (j != id || t.orders[j].Done()) ==>
      j in ApplyCancel(t, b, id).tables.orders && ApplyCancel(t, b, id).tables.orders[j] == t.orders[j]
  {
    hide WellFormed, ApplyCancel, Cancel, View, Refund, Sound, FillsMatchTrades, Uncrossed;
    CancelOutcome(t, b, id);
    if Cancellable(t, id) {
      RefundOk(t, id);
      CancelTables(t, id);
      CancelView(t, b, id);
      CancelHealthy(b, id);
      CancelUncrossed(b, id);
    }
  }
}
