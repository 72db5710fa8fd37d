/** No operation of the matcher creates or destroys money or Vibranium, whatever the book looks
    like, and no balance goes below zero. */
module Conservation {
  import opened Base
  import opened Orders
  import opened Wallets
  import opened PriorityBook
  import opened Matching
  import opened Settlement

  ghost function BrlOf(): Balances -> int { (w: Balances) => w.AllBrl() }
  ghost function VibOf(): Balances -> int { (w: Balances) => w.AllVib() }

  ghost function TotalBrl(ws: WalletTable): int { Total(ws, BrlOf()) }
  ghost function TotalVib(ws: WalletTable): int { Total(ws, VibOf()) }

  predicate AllNonNegative(ws: WalletTable) {
    forall u :: u in ws ==> ws[u].NonNegative()
  }

  /** Same wallets, same totals, and non-negative balances stay so. */
  ghost predicate Conserves(ws: WalletTable, ws': WalletTable) {
    && ws'.Keys == ws.Keys
    && TotalBrl(ws') == TotalBrl(ws)
    && TotalVib(ws') == TotalVib(ws)
    && (AllNonNegative(ws) ==> AllNonNegative(ws'))
  }

  lemma WriteWallet(ws: WalletTable, u: UserId, w: Balances)
    requires u in ws
    ensures TotalBrl(ws[u := w]) == TotalBrl(ws) + w.AllBrl() - ws[u].AllBrl()
    ensures TotalVib(ws[u := w]) == TotalVib(ws) + w.AllVib() - ws[u].AllVib()
  {
    TotalUpdate(ws, BrlOf(), u, w);
    TotalUpdate(ws, VibOf(), u, w);
  }

  /** A change within one wallet. */
  lemma OneWallet(ws: WalletTable, u: UserId, w: Balances)
    requires u in ws && w.AllBrl() == ws[u].AllBrl() && w.AllVib() == ws[u].AllVib()
    requires ws[u].NonNegative() ==> w.NonNegative()
    ensures Conserves(ws, ws[u := w])
  {
    WriteWallet(ws, u, w);
  }

  /** What the buyer's payment takes out of and puts into the buyer's wallet. */
  lemma PayMoves(w: Balances, o: OrderRow, t: Trade)
    requires o.typ.Limit? ==> o.price.Some?
    requires Pay(w, o, t).Ok?
    ensures
      var w' := Pay(w, o, t).w;
      && w'.AllBrl() == w.AllBrl() - t.price * t.quantity
      && w'.AllVib() == w.AllVib() + t.quantity
      && (w.NonNegative() ==> w'.NonNegative())
  {
  }

  lemma SettleConserves(ws: WalletTable, o: OrderRow, t: Trade)
    requires o.typ.Limit? ==> o.price.Some?
    requires Settle(ws, o, t).Some?
    ensures Conserves(ws, Settle(ws, o, t).value)
  {
    PayMoves(ws[t.buyer], o, t);
    var buyer := Pay(ws[t.buyer], o, t).w;
    var ws1 := ws[t.buyer := buyer];
    var seller := SettleSell(ws1[t.seller], t.price, t.quantity).w;
    WriteWallet(ws, t.buyer, buyer);
    WriteWallet(ws1, t.seller, seller);
  }

  lemma {:induction false} SettleAllConserves(ws: WalletTable, o: OrderRow, ts: seq<Trade>)
    requires o.typ.Limit? ==> o.price.Some?
    requires SettleAll(ws, o, ts).Some?
    ensures Conserves(ws, SettleAll(ws, o, ts).value)
    decreases |ts|
  {
    if ts != [] {
      SettleAllConserves(ws, o, ts[..|ts| - 1]);
      SettleConserves(SettleAll(ws, o, ts[..|ts| - 1]).value, o, ts[|ts| - 1]);
    }
  }

  lemma NewConserves(t: Tables, b: Book, e: Event)
    requires WellFormed(b) && e.NewOrder? && ValidEvent(e)
    requires ApplyNew(t, b, e).Applied?
    ensures Conserves(t.wallets, ApplyNew(t, b, e).tables.wallets)
  {
    var o := Arriving(e);
    var m := Match(b, o, FundsOf(t.wallets, o));
    SettleAllConserves(t.wallets, o, m.state.trades);
    var ws := SettleAll(t.wallets, o, m.state.trades).value;
    if m.cancelledQuantity > 0 && o.side.Sell? {
      OneWallet(ws, o.user, ReleaseVib(ws[o.user], m.cancelledQuantity).w);
    }
  }

  lemma CancelConserves(t: Tables, b: Book, id: OrderId)
    requires WellFormed(b)
    requires ApplyCancel(t, b, id).Applied?
    ensures Conserves(t.wallets, ApplyCancel(t, b, id).tables.wallets)
  {
    if id in b.locations {
      LookupFinds(b, id);
      var r := Lookup(b, id).value;
      OneWallet(t.wallets, r.user, Refund(t.wallets[r.user], r).w);
    }
  }

  /** A committed batch conserves both totals, for every book and every sequence of entries. */
  lemma {:induction false} BatchConserves(t: Tables, b: Book, ms: seq<Message>)
    requires WellFormed(b) && ValidMessages(ms)
    requires ApplyBatch(t, b, ms).Applied?
    ensures Conserves(t.wallets, ApplyBatch(t, b, ms).tables.wallets)
    decreases |ms|
  {
    if ms != [] {
      var m := ms[|ms| - 1];
      BatchConserves(t, b, ms[..|ms| - 1]);
      var mid := ApplyBatch(t, b, ms[..|ms| - 1]);
      var t' := Mark(mid.tables, m.entry);
      if m.entry !in mid.tables.processed {
        match m.event
        case NewOrder(_, _, _, _, _, _) => NewConserves(t', mid.book, m.event);
        case CancelOrder(id) => CancelConserves(t', mid.book, id);
        case Skipped =>
      }
    }
  }
}
