/** The matcher's consume loop: a batch applied in one transaction on the live book and the wallet
    cache, commit, acknowledgement, and the drain of the pending list. */
module Matchers {
  import opened Base
  import opened Orders
  import opened Wallets
  import opened PriorityBook
  import opened Matching
  import opened Settlement
  import opened LevelHeaps
  import opened ElementQueues
  import opened OrderBooks
  import opened Engine
  import opened WalletCaches

  /** An open transaction: the tables as written so far, and the wallets cached so far. */
  datatype Tx = Tx(tables: Tables, cache: Cache)

  ghost predicate TxOk(tx: Tx) {
    CacheOk(tx.tables.wallets, tx.cache)
  }

  /** The tables the transaction stands for. */
  ghost function Content(tx: Tx): Tables
    reads Objects(tx.cache)
  {
    tx.tables.(wallets := Effective(tx.tables.wallets, tx.cache))
  }

  /** UPDATE of every touched maker's row. */
  method WriteMakers(orders: OrderTable, makers: seq<Order>, ghost es: seq<Entry>) returns (orders': OrderTable)
    requires |makers| == |es| && forall i :: 0 <= i < |makers| ==> makers[i].Row() == es[i].row
    ensures orders' == UpdateOrders(orders, es)
  {
    orders' := orders;
    for i := 0 to |makers|
      invariant orders' == UpdateOrders(orders, es[..i])
    {
      assert es[..i + 1][..i] == es[..i];
      orders' := UpdateOrder(orders', makers[i].Row());
    }
    assert es[..|makers|] == es;
  }

  /** What the matching engine is given as funds. */
  method FundsFor(tx: Tx, o: Order) returns (ok: bool, funds: Option<int>, tx': Tx)
    requires TxOk(tx)
    ensures TxOk(tx') && fresh(Objects(tx'.cache) - Objects(tx.cache)) && Content(tx') == Content(tx)
      && tx'.tables == tx.tables
    ensures ok <==> (IsBuyMarket(o.Row()) ==> o.user in Content(tx).wallets)
    ensures ok ==> funds == FundsOf(Content(tx).wallets, o.Row())
  {
    tx', funds := tx, None;
    if o.side.Buy? && o.typ.Market? {
      var w, cache := LoadWallet(tx.tables.wallets, tx.cache, o.user);
      tx' := tx.(cache := cache);
      if w == null {
        return false, None, tx';
      }
      funds := Some(w.AvailableBrlCents());
    }
    ok := true;
  }

  /** Gives back what a cancelled SELL MARKET remainder had reserved. */
  method ReleaseFor(tx: Tx, o: Order, cancelled: int) returns (ok: bool, tx': Tx)
    requires TxOk(tx)
    modifies Objects(tx.cache)
    ensures TxOk(tx') && fresh(Objects(tx'.cache) - Objects(tx.cache))
    ensures ok <==> ReleaseRemainder(old(Content(tx)).wallets, o.Row(), cancelled).Some?
    ensures tx'.tables == tx.tables
    ensures ok ==> Content(tx').wallets == ReleaseRemainder(old(Content(tx)).wallets, o.Row(), cancelled).value
  {
    tx' := tx;
    if cancelled > 0 && o.side.Sell? {
      var w, cache := LoadWallet(tx.tables.wallets, tx.cache, o.user);
      tx' := tx.(cache := cache);
      if w == null {
        return false, tx';
      }
      label Loaded:
      var err := w.ReleaseVibraniumReservation(cancelled);
      OneWrite@Loaded((tx.tables.wallets, cache, o.user));
      return err.None?, tx';
    }
    ok := true;
  }

  /** The database part of a NEW_ORDER entry after matching: settlement of every trade, the trade
      rows, the makers' rows, a cancelled remainder, and the order's own row. */
  method Record(tx: Tx, o: Order, trades: seq<Trade>, makers: seq<Order>, cancelled: int, ghost touched: seq<Element>)
    returns (ok: bool, tx': Tx)
    requires TxOk(tx) && MakersAre(makers, touched) && (o.typ.Limit? ==> o.price.Some?)
    modifies Objects(tx.cache)
    ensures TxOk(tx') && fresh(Objects(tx'.cache) - Objects(tx.cache))
    ensures Recorded(old(Content(tx)), old(o.Row()), trades, old(Entries(touched)), cancelled) ==
      if ok then Some(Content(tx')) else None
  {
    ghost var es, t0, r := Entries(touched), Content(tx), o.Row();
    var settled, cache := SettleTrades(tx.tables.wallets, tx.cache, o, trades);
    tx' := tx.(cache := cache);
    if !settled || !OrdersExist(tx.tables.orders, trades) {
      return false, tx';
    }
    assert Entries(touched) == es && o.Row() == r;
    var orders := WriteMakers(tx.tables.orders, makers, es);
    ok, tx' := ReleaseFor(tx', o, cancelled);
    assert o.Row() == r;
    var t := tx.tables;
    ghost var ws := Content(tx').wallets;
    tx' := tx'.(tables := t.(orders := UpdateOrder(orders, o.Row()), trades := t.trades + trades,
      entered := t.entered + {o.id}));
    assert Content(tx').wallets == ws;
  }

  /** Settlement looks at the taker's terms only, which matching does not change. */
  lemma {:induction false} SettleAllSameTerms(ws: WalletTable, r: OrderRow, o: OrderRow, ts: seq<Trade>)
    requires r.SameTerms(o) && (o.typ.Limit? ==> o.price.Some?)
    ensures SettleAll(ws, r, ts) == SettleAll(ws, o, ts)
    decreases |ts|
  {
    if ts != [] { SettleAllSameTerms(ws, r, o, ts[..|ts| - 1]); }
  }

  /** Applying a NEW_ORDER event, put together from matching and recording. */
  lemma ApplyNewParts(t: Tables, b: Book, e: Event)
    requires WellFormed(b) && e.NewOrder? && ValidEvent(e)
    requires IsBuyMarket(Arriving(e)) ==> e.user in t.wallets
    ensures Runnable(Start(b, Arriving(e), FundsOf(t.wallets, Arriving(e))))
    ensures Matching.Match(b, Arriving(e), FundsOf(t.wallets, Arriving(e))).state.incoming.SameTerms(Arriving(e))
    ensures
      var m := Matching.Match(b, Arriving(e), FundsOf(t.wallets, Arriving(e)));
      var after := Recorded(t, m.state.incoming, m.state.trades, m.state.makers, m.cancelledQuantity);
      ApplyNew(t, b, e) == if after.Some? then Applied(after.value, m.state.book) else Failed(m.state.book)
  {
    hide WellFormed, UpdateOrders, Loop, OrdersExist;
    var o := Arriving(e);
    var s0 := Start(b, o, FundsOf(t.wallets, o));
    LoopRunnable(s0);
    var m := Matching.Match(b, o, FundsOf(t.wallets, o));
    SettleAllSameTerms(t.wallets, m.state.incoming, o, m.state.trades);
  }

  /** Builds the order, reads the funds if they matter, and matches. */
  method MatchArrival(book: OrderBook, tx: Tx, e: Event)
    returns (ok: bool, tx': Tx, o: Order, trades: seq<Trade>, makers: seq<Order>, cancelled: int,
      ghost touched: seq<Element>)
    requires book.Valid() && TxOk(tx) && e.NewOrder? && ValidEvent(e)
    modifies book.Repr(), book.Resting()
    ensures book.Valid() && fresh(book.Repr() - old(book.Repr())) && fresh(book.Resting() - old(book.Resting()))
      && fresh(o)
    ensures TxOk(tx') && fresh(Objects(tx'.cache) - Objects(tx.cache)) && Content(tx') == old(Content(tx))
      && tx'.tables == tx.tables
    ensures WellFormed(old(book.View())) && ok == (IsBuyMarket(Arriving(e)) ==> e.user in old(Content(tx)).wallets)
    ensures !ok ==> book.View() == old(book.View())
    ensures ok ==>
      MakersAre(makers, touched) &&
      Runnable(Start(old(book.View()), Arriving(e), FundsOf(Content(tx').wallets, Arriving(e))))
    ensures ok ==>
      var m := Matching.Match(old(book.View()), Arriving(e), FundsOf(Content(tx').wallets, Arriving(e)));
      && book.View() == m.state.book && o.Row() == m.state.incoming && trades == m.state.trades
      && Entries(touched) == m.state.makers && cancelled == m.cancelledQuantity
  {
    hide OrderBook.Valid, OrderBook.View, OrderBook.Repr, OrderBook.Resting, WellFormed, Matching.Match, MakersAre,
      Effective, Runnable;
    ghost var repr, resting := Footprint(book);
    o := new Order(Arriving(e));
    trades, makers, cancelled, touched := [], [], 0, [];
    var funds;
    ok, funds, tx' := FundsBeside(book, tx, o);
    if ok {
      trades, makers, cancelled, touched := MatchBeside(book, tx', o, funds);
      ghost var repr', resting' := Footprint(book);
    }
  }

  /** Reading the funds leaves the book alone. */
  method FundsBeside(book: OrderBook, tx: Tx, o: Order) returns (ok: bool, funds: Option<int>, tx': Tx)
    requires book.Valid() && TxOk(tx)
    ensures book.Valid() && book.View() == old(book.View()) && book.Repr() == old(book.Repr())
      && book.Resting() == old(book.Resting())
    ensures TxOk(tx') && fresh(Objects(tx'.cache) - Objects(tx.cache)) && Content(tx') == old(Content(tx))
      && tx'.tables == tx.tables
    ensures ok <==> (IsBuyMarket(o.Row()) ==> o.user in Content(tx').wallets)
    ensures ok ==> funds == FundsOf(Content(tx').wallets, o.Row())
    ensures WellFormed(book.View()) && o.Row() == old(o.Row())
  {
    hide Image, LayoutOk, RestWhereTheyMay, SideValid, WellFormed, Effective;
    book.ViewWellFormed();
    WalletsApart(book, Objects(tx.cache), book.Resting());
    ok, funds, tx' := FundsFor(tx, o);
  }

  /** Matching leaves the wallets alone. */
  method MatchBeside(book: OrderBook, tx: Tx, o: Order, funds: Option<int>)
    returns (trades: seq<Trade>, makers: seq<Order>, cancelled: int, ghost touched: seq<Element>)
    requires book.Valid() && o !in book.Resting() && o.Row().ValidTerms() && 0 <= o.filledQuantity <= o.quantity
    modifies book.Repr(), book.Resting(), o
    ensures book.Valid() && fresh(book.Repr() - old(book.Repr())) && book.Resting() <= old(book.Resting()) + {o}
    ensures Content(tx) == old(Content(tx)) && MakersAre(makers, touched)
    ensures Runnable(old(Start(book.View(), o.Row(), funds)))
    ensures
      var m := Matching.Match(old(book.View()), old(o.Row()), funds);
      && book.View() == m.state.book && o.Row() == m.state.incoming && trades == m.state.trades
      && Entries(touched) == m.state.makers && cancelled == m.cancelledQuantity
  {
    hide OrderBook.Valid, OrderBook.View, WellFormed, Matching.Match, MakersAre, Runnable;
    WalletsApart(book, Objects(tx.cache), book.Resting() + {o});
    ghost var t := Content(tx);
    var left, rested;
    trades, makers, left, rested, cancelled, touched := Engine.Match(book, o, funds);
    assert Content(tx) == t;
  }

  /** Recording leaves the book alone. */
  method RecordBeside(book: OrderBook, tx: Tx, o: Order, trades: seq<Trade>, makers: seq<Order>, cancelled: int,
                      ghost touched: seq<Element>)
    returns (ok: bool, tx': Tx)
    requires book.Valid() && TxOk(tx) && MakersAre(makers, touched) && (o.typ.Limit? ==> o.price.Some?)
    modifies Objects(tx.cache)
    ensures book.Valid() && book.View() == old(book.View()) && book.Repr() == old(book.Repr())
      && book.Resting() == old(book.Resting())
    ensures TxOk(tx') && fresh(Objects(tx'.cache) - Objects(tx.cache))
    ensures Recorded(old(Content(tx)), old(o.Row()), trades, old(Entries(touched)), cancelled) ==
      if ok then Some(Content(tx')) else None
  {
    hide Image, LayoutOk, RestWhereTheyMay, SideValid, WellFormed, SettleAll, ReleaseRemainder, UpdateOrders,
      UpdateOrder, OrdersExist, Effective, MakersAre;
    WalletsApart(book, Objects(tx.cache), book.Resting());
    ok, tx' := Record(tx, o, trades, makers, cancelled, touched);
  }

  /** The tables after a matched NEW_ORDER entry has been recorded; None when a write fails. */
  ghost function Recorded(t: Tables, r: OrderRow, trades: seq<Trade>, makers: seq<Entry>,
                          cancelled: int): Option<Tables>
    requires r.typ.Limit? ==> r.price.Some?
  {
    var ws := SettleAll(t.wallets, r, trades);
    if ws.Some? && OrdersExist(t.orders, trades) && ReleaseRemainder(ws.value, r, cancelled).Some?
    then Some(t.(
           wallets := ReleaseRemainder(ws.value, r, cancelled).value,
           orders := UpdateOrder(UpdateOrders(t.orders, makers), r),
           trades := t.trades + trades, entered := t.entered + {r.id}))
    else None
  }

  /** A NEW_ORDER entry. With `cut`, the connection fails between the matching and the last write. */
  method ApplyNewOrder(book: OrderBook, tx: Tx, e: Event, cut: bool) returns (ok: bool, tx': Tx)
    requires book.Valid() && TxOk(tx) && e.NewOrder? && ValidEvent(e)
    modifies book.Repr(), book.Resting(), Objects(tx.cache)
    ensures book.Valid() && fresh(book.Repr() - old(book.Repr())) && fresh(book.Resting() - old(book.Resting()))
    ensures TxOk(tx') && fresh(Objects(tx'.cache) - Objects(tx.cache))
    ensures WellFormed(old(book.View()))
    ensures ok <==> !cut && ApplyNew(old(Content(tx)), old(book.View()), e).Applied?
    ensures book.View() == ApplyNew(old(Content(tx)), old(book.View()), e).book
    ensures ok ==> Content(tx') == ApplyNew(old(Content(tx)), old(book.View()), e).tables
  {
    hide Image, LayoutOk, RestWhereTheyMay, SideValid, WellFormed, Matching.Match, UpdateOrders, UpdateOrder, SettleAll,
      ReleaseRemainder, OrdersExist, ApplyNew, Effective, Recorded, MakersAre;
    ghost var t, b := Content(tx), book.View();
    var o, trades, makers, cancelled;
    ghost var touched;
    ok, tx', o, trades, makers, cancelled, touched := MatchArrival(book, tx, e);
    if !ok {
      NoWallet(t, b, e);
      return;
    }
    ApplyNewParts(t, b, e);
    if cut {
      return false, tx';
    }
    ok, tx' := RecordBeside(book, tx', o, trades, makers, cancelled, touched);
  }

  lemma NoWallet(t: Tables, b: Book, e: Event)
    requires WellFormed(b) && e.NewOrder? && ValidEvent(e)
    requires IsBuyMarket(Arriving(e)) && e.user !in t.wallets
    ensures ApplyNew(t, b, e) == Failed(b)
  {
  }

  /** Wallets are neither parts of the book nor orders. */
  lemma WalletsApart(book: OrderBook, ws: set<Wallet>, os: set<Order>)
    ensures forall w :: w in ws ==> w !in book.Repr()
    ensures forall w, o :: w in ws && o in os ==> w as object != o as object
  {
  }

  // ---------- CANCEL_ORDER ----------

  /** Gives a cancelled order's owner the reservation back. */
  method RefundFor(tx: Tx, removed: Order, remaining: int) returns (ok: bool, tx': Tx)
    requires TxOk(tx) && removed.price.Some? && remaining == removed.Remaining()
    modifies Objects(tx.cache)
    ensures TxOk(tx') && fresh(Objects(tx'.cache) - Objects(tx.cache)) && tx'.tables == tx.tables
    ensures ok <==>
      removed.user in old(Content(tx)).wallets &&
      Refund(old(Content(tx)).wallets[removed.user], old(removed.Row())).Ok?
    ensures ok ==> Content(tx') == old(Content(tx)).(
      wallets := old(Content(tx)).wallets[removed.user := Refund(old(Content(tx)).wallets[removed.user],
        old(removed.Row())).w])
  {
    var w, cache := LoadWallet(tx.tables.wallets, tx.cache, removed.user);
    tx' := tx.(cache := cache);
    if w == null {
      return false, tx';
    }
    label Loaded:
    var err;
    if removed.side.Buy? {
      err := w.ReleaseBRLReservation(removed.price.value * remaining);
    } else {
      err := w.ReleaseVibraniumReservation(remaining);
    }
    ok := err.None?;
    OneWrite@Loaded((tx.tables.wallets, cache, removed.user));
  }

  /** A refund, and the row it goes with, leave the book alone. */
  method RefundBeside(book: OrderBook, tx: Tx, removed: Order, remaining: int) returns (ok: bool, tx': Tx)
    requires book.Valid() && TxOk(tx) && removed.price.Some? && remaining == removed.Remaining()
    modifies Objects(tx.cache)
    ensures book.Valid() && book.View() == old(book.View()) && book.Repr() == old(book.Repr())
      && book.Resting() == old(book.Resting())
    ensures TxOk(tx') && fresh(Objects(tx'.cache) - Objects(tx.cache)) && removed.Row() == old(removed.Row())
    ensures RefundedTo(old(Content(tx)), old(removed.Row())) == if ok then Some(Content(tx')) else None
  {
    hide Image, LayoutOk, RestWhereTheyMay, SideValid, WellFormed, UpdateOrder, Effective;
    WalletsApart(book, Objects(tx.cache), book.Resting() + {removed});
    ghost var r := removed.Row();
    ok, tx' := RefundFor(tx, removed, remaining);
    if ok {
      ghost var ws := Content(tx').wallets;
      tx' := tx'.(tables := tx'.tables.(orders := UpdateOrder(tx'.tables.orders, removed.Row())));
      assert Content(tx').wallets == ws;
    }
  }

  /** The tables after a resting order has been cancelled; None when its owner cannot be refunded. */
  ghost function RefundedTo(t: Tables, r: OrderRow): Option<Tables>
    requires r.price.Some?
  {
    if r.user in t.wallets && Refund(t.wallets[r.user], r).Ok?
    then Some(t.(wallets := t.wallets[r.user := Refund(t.wallets[r.user], r).w], orders := UpdateOrder(t.orders, r)))
    else None
  }

  lemma ApplyCancelParts(t: Tables, b: Book, id: OrderId)
    requires WellFormed(b)
    ensures id !in b.locations ==> ApplyCancel(t, b, id) == Applied(t, b)
    ensures id in b.locations ==> Lookup(b, id).Some? && Lookup(b, id).value.price.Some?
    ensures id in b.locations ==>
      var after := RefundedTo(t, CancelRow(Lookup(b, id).value));
      ApplyCancel(t, b, id) == if after.Some? then Applied(after.value, Cancel(b, id)) else Failed(Cancel(b, id))
  {
    hide WellFormed, Cancel, Lookup, Refund, UpdateOrder;
    if id in b.locations {
      LookupFinds(b, id);
      var r := Lookup(b, id).value;
      if r.user in t.wallets {
        RefundOfCancelled(t.wallets[r.user], r);
      }
    }
  }

  lemma RefundOfCancelled(w: Balances, r: OrderRow)
    requires r.price.Some?
    ensures CancelRow(r).price == r.price && CancelRow(r).user == r.user && Refund(w, CancelRow(r)) == Refund(w, r)
  {
    assert CancelRow(r).Remaining() == r.Remaining();
  }

  /** Takes an order off the book and marks it cancelled. */
  method TakeOff(book: OrderBook, id: OrderId) returns (removed: Order?, remaining: int)
    requires book.Valid()
    modifies book.Repr(), book.Resting()
    ensures book.Valid() && book.Repr() <= old(book.Repr()) && book.Resting() <= old(book.Resting())
    ensures WellFormed(old(book.View())) && book.View() == Cancel(old(book.View()), id)
    ensures removed == null <==> id !in old(book.View()).locations
    ensures removed != null ==>
      && Lookup(old(book.View()), id).Some? && removed.Row() == CancelRow(Lookup(old(book.View()), id).value)
      && remaining == removed.Remaining()
  {
    hide Image, LayoutOk, RestWhereTheyMay, SideValid, WellFormed, Cancel, CancelRow;
    book.ViewWellFormed();
    LocatedIds(book);
    remaining := 0;
    removed := book.Cancel(id);
    if removed != null {
      book.OrdersApart({removed});
      remaining := removed.Remaining();
      removed.Cancel();
    }
  }

  lemma LocatedIds(book: OrderBook)
    ensures book.View().locations.Keys == book.locations.Keys
  {
  }

  /** A CANCEL_ORDER entry, with the connection failing after the book has been changed if `cut`. */
  method ApplyCancelOrder(book: OrderBook, tx: Tx, id: OrderId, cut: bool) returns (ok: bool, tx': Tx)
    requires book.Valid() && TxOk(tx)
    modifies book.Repr(), book.Resting(), Objects(tx.cache)
    ensures book.Valid() && fresh(book.Repr() - old(book.Repr())) && fresh(book.Resting() - old(book.Resting()))
    ensures TxOk(tx') && fresh(Objects(tx'.cache) - Objects(tx.cache))
    ensures WellFormed(old(book.View()))
    ensures ok <==> !cut && ApplyCancel(old(Content(tx)), old(book.View()), id).Applied?
    ensures book.View() == ApplyCancel(old(Content(tx)), old(book.View()), id).book
    ensures ok ==> Content(tx') == ApplyCancel(old(Content(tx)), old(book.View()), id).tables
  {
    hide Image, LayoutOk, RestWhereTheyMay, SideValid, WellFormed, ApplyCancel, Effective, Cancel, RefundedTo, Lookup;
    ghost var t, b := Content(tx), book.View();
    WalletsApart(book, Objects(tx.cache), book.Resting());
    var removed, remaining := TakeOff(book, id);
    assert Content(tx) == t;
    ApplyCancelParts(t, b, id);
    if removed == null {
      CancelAbsent(b, id);
      return !cut, tx;
    }
    if cut {
      return false, tx;
    }
    ok, tx' := RefundBeside(book, tx, removed, remaining);
  }

  lemma CancelAbsent(b: Book, id: OrderId)
    requires id !in b.locations
    ensures Cancel(b, id) == b
  {
  }

  // ---------- a batch ----------

  /** One entry under the idempotency guard, with the connection failing on the way if `cut`. */
  method ApplyOne(book: OrderBook, tx: Tx, m: Message, cut: bool) returns (ok: bool, tx': Tx)
    requires book.Valid() && TxOk(tx) && ValidEvent(m.event)
    modifies book.Repr(), book.Resting(), Objects(tx.cache)
    ensures book.Valid() && fresh(book.Repr() - old(book.Repr())) && fresh(book.Resting() - old(book.Resting()))
    ensures TxOk(tx') && fresh(Objects(tx'.cache) - Objects(tx.cache))
    ensures WellFormed(old(book.View()))
    ensures ok <==> !cut && ApplyEntry(old(Content(tx)), old(book.View()), m).Applied?
    ensures book.View() == ApplyEntry(old(Content(tx)), old(book.View()), m).book
    ensures ok ==> Content(tx') == ApplyEntry(old(Content(tx)), old(book.View()), m).tables
  {
    hide Image, LayoutOk, RestWhereTheyMay, SideValid, WellFormed, ApplyNew, ApplyCancel, Effective;
    book.ViewWellFormed();
    if m.entry in tx.tables.processed {
      return !cut, tx;
    }
    tx' := tx.(tables := Mark(tx.tables, m.entry));
    assert Content(tx') == Mark(Content(tx), m.entry);
    match m.event
    case NewOrder(_, _, _, _, _, _) => ok, tx' := ApplyNewOrder(book, tx', m.event, cut);
    case CancelOrder(id) => ok, tx' := ApplyCancelOrder(book, tx', id, cut);
    case Skipped => ok := !cut;
  }

  /** What the database answers to COMMIT. A lost reply hides a commit that took place. */
  datatype CommitReply = Committed | Refused | ReplyLost

  /** Where in a batch the connection to the database fails: nowhere, before an entry (or, at the end,
      before the wallets are written), or while an entry is being written. */
  datatype Stop = Nowhere | Before(entry: nat) | Within(entry: nat)

  predicate Stops(n: nat, stop: Stop) {
    match stop
    case Nowhere => false
    case Before(i) => i <= n
    case Within(i) => i < n
  }

  /** The entries of a batch that touch the book. */
  function Reached(ms: seq<Message>, stop: Stop): (r: seq<Message>)
    ensures r <= ms && (!Stops(|ms|, stop) ==> r == ms)
  {
    match stop
    case Nowhere => ms
    case Before(i) => if i < |ms| then ms[..i] else ms
    case Within(i) => if i < |ms| then ms[..i + 1] else ms
  }

  /** Entries in turn until one fails or the connection does. */
  method ApplyAll(book: OrderBook, t: Tables, ms: seq<Message>, stop: Stop) returns (ok: bool, tx: Tx)
    requires book.Valid() && ValidMessages(ms)
    modifies book.Repr(), book.Resting()
    ensures book.Valid() && fresh(book.Repr() - old(book.Repr())) && fresh(book.Resting() - old(book.Resting()))
    ensures TxOk(tx) && fresh(Objects(tx.cache)) && WellFormed(old(book.View()))
    ensures ok <==> !Stops(|ms|, stop) && ApplyBatch(t, old(book.View()), ms).Applied?
    ensures book.View() == ApplyBatch(t, old(book.View()), Reached(ms, stop)).book
    ensures ok ==> Content(tx) == ApplyBatch(t, old(book.View()), ms).tables
  {
    hide WellFormed, ApplyEntry, ApplyBatch, OrderBook.Valid, OrderBook.View, OrderBook.Repr, OrderBook.Resting, TxOk,
      Content, Objects;
    ghost var b, reached := book.View(), Reached(ms, stop);
    book.ViewWellFormed();
    ok, tx := true, Tx(t, map[]);
    EmptyTx(t, b);
    ghost var repr, resting := Footprint(book);
    ghost var repr0, resting0, cached := repr, resting, {};
    for i := 0 to |ms|
      invariant book.Valid() && repr == book.Repr() && resting == book.Resting() && cached == Objects(tx.cache)
      invariant fresh(repr - repr0) && fresh(resting - resting0)
      invariant TxOk(tx) && fresh(cached) && ok
      invariant ApplyBatch(t, b, ms[..i]) == Applied(Content(tx), book.View())
      invariant forall j :: 0 <= j < i ==> stop != Before(j) && stop != Within(j)
    {
      if stop == Before(i) {
        ok := false;
        return;
      }
      BatchSnoc(t, b, ms, i);
      ok, tx := ApplyOne(book, tx, ms[i], stop == Within(i));
      ghost var repr', resting' := Footprint(book);
      assert repr' - repr0 <= (repr' - repr) + (repr - repr0);
      assert resting' - resting0 <= (resting' - resting) + (resting - resting0);
      ghost var cached' := Cached(tx.cache);
      assert cached' <= (cached' - cached) + cached;
      repr, resting, cached := repr', resting', cached';
      if !ok {
        if stop != Within(i) {
          assert reached[..i + 1] == ms[..i + 1];
          BatchStops(t, b, reached, i + 1);
          BatchStops(t, b, ms, i + 1);
        }
        return;
      }
    }
    assert ms[..|ms|] == ms;
    ok := stop != Before(|ms|);
  }

  lemma Footprint(book: OrderBook) returns (repr: set<object>, resting: set<Order>)
    ensures repr == book.Repr() && resting == book.Resting()
  {
    repr, resting := book.Repr(), book.Resting();
  }

  lemma Cached(cache: Cache) returns (objects: set<Wallet>)
    ensures objects == Objects(cache)
  {
    objects := Objects(cache);
  }

  lemma {:induction false} EmptyTx(t: Tables, b: Book)
    requires WellFormed(b)
    ensures ApplyBatch(t, b, []) == Applied(t, b)
    ensures TxOk(Tx(t, map[])) && Objects(map[]) == {} && Content(Tx(t, map[])) == t
  {
  }

  /** Writing the wallets back leaves the book alone. */
  method FlushBeside(book: OrderBook, tx: Tx) returns (t: Tables)
    requires book.Valid() && TxOk(tx)
    ensures book.Valid() && book.View() == old(book.View()) && book.Repr() == old(book.Repr())
      && book.Resting() == old(book.Resting())
    ensures t == Content(tx) == old(Content(tx))
  {
    hide Image, LayoutOk, RestWhereTheyMay, SideValid, WellFormed;
    WalletsApart(book, Objects(tx.cache), book.Resting());
    var ws := Flush(tx.tables.wallets, tx.cache);
    t := tx.tables.(wallets := ws);
  }

  /** A batch in one transaction. The connection may fail anywhere on the way, and the COMMIT is
      answered as given. The database is left with all of the batch or none of it; the book keeps what
      the entries that touched it did to it. */
  method RunBatch(book: OrderBook, t: Tables, ms: seq<Message>, stop: Stop, reply: CommitReply)
    returns (err: bool, t': Tables)
    requires book.Valid() && ValidMessages(ms)
    modifies book.Repr(), book.Resting()
    ensures book.Valid() && fresh(book.Repr() - old(book.Repr())) && fresh(book.Resting() - old(book.Resting()))
    ensures WellFormed(old(book.View()))
    ensures book.View() == ApplyBatch(t, old(book.View()), Reached(ms, stop)).book
    ensures stop.Before? && stop.entry < |ms| ==> book.View() == ApplyBatch(t, old(book.View()), ms[..stop.entry]).book
    ensures stop.Within? && stop.entry < |ms| ==>
      book.View() == ApplyBatch(t, old(book.View()), ms[..stop.entry + 1]).book
    ensures !err <==> !Stops(|ms|, stop) && reply.Committed? && ApplyBatch(t, old(book.View()), ms).Applied?
    ensures
      var r := ApplyBatch(t, old(book.View()), ms);
      t' == if !Stops(|ms|, stop) && !reply.Refused? && r.Applied? then r.tables else t
  {
    hide WellFormed, ApplyBatch, OrderBook.Valid, OrderBook.View, OrderBook.Repr, OrderBook.Resting, TxOk, Content,
      Objects;
    var ok, tx := ApplyAll(book, t, ms, stop);
    if !ok {
      return true, t;
    }
    var written := FlushBeside(book, tx);
    match reply
    case Committed => return false, written;
    case Refused => return true, t;
    case ReplyLost => return true, written;
  }
}
