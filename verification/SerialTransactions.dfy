/** The transactions of the exchange as users of the wallet row locks: what a placement and a matcher batch
    change, one wallet at a time, and that committing them under locks is the atomic step that the
    exchange's state machine takes. */
module SerialTransactions {
  import opened Orders
  import opened Wallets
  import opened PriorityBook
  import opened Matching
  import opened Settlement
  import opened Placement
  import opened WalletCaches
  import Locks = RowLocks

  // ---------- the changes, as one transaction makes them ----------

  ghost function ReservingFor(r: OrderRow): Balances -> Balances
    requires r.typ.Limit? ==> r.price.Some?
  {
    w => Reserve(w, r).After(w)
  }

  ghost function Paying(o: OrderRow, t: Trade): Balances -> Balances
    requires o.typ.Limit? ==> o.price.Some?
  {
    w => Pay(w, o, t).After(w)
  }

  ghost function Selling(t: Trade): Balances -> Balances {
    w => SettleSell(w, t.price, t.quantity).After(w)
  }

  ghost function Releasing(n: int): Balances -> Balances {
    w => ReleaseVib(w, n).After(w)
  }

  ghost function Refunding(r: OrderRow): Balances -> Balances
    requires r.price.Some?
  {
    w => Refund(w, r).After(w)
  }

  /** A placement locks the owner's wallet and reserves what the order needs. */
  ghost function PlaceChanges(r: OrderRow): seq<Locks.Change>
    requires r.typ.Limit? ==> r.price.Some?
  {
    [Locks.Change(r.user, ReservingFor(r))]
  }

  ghost function TradeChanges(o: OrderRow, t: Trade): seq<Locks.Change>
    requires o.typ.Limit? ==> o.price.Some?
  {
    [Locks.Change(t.buyer, Paying(o, t)), Locks.Change(t.seller, Selling(t))]
  }

  ghost function TradesChanges(o: OrderRow, ts: seq<Trade>): seq<Locks.Change>
    requires o.typ.Limit? ==> o.price.Some?
  {
    if ts == [] then [] else TradesChanges(o, ts[..|ts| - 1]) + TradeChanges(o, ts[|ts| - 1])
  }

  /** An entry of a batch, from the tables and the book it finds. */
  ghost function EntryChanges(t: Tables, b: Book, m: Message): seq<Locks.Change>
    requires WellFormed(b) && ValidEvent(m.event)
  {
    if m.entry in t.processed then []
    else
      match m.event
      case NewOrder(_, _, _, _, _, _) => NewChanges(t, b, m.event)
      case CancelOrder(id) =>
        if id !in b.locations then []
        else
          LookupFinds(b, id);
          var r := Lookup(b, id).value;
          [Locks.Change(r.user, Refunding(r))]
      case Skipped => []
  }

  ghost function NewChanges(t: Tables, b: Book, e: Event): seq<Locks.Change>
    requires WellFormed(b) && e.NewOrder? && ValidEvent(e)
  {
    var o := Arriving(e);
    if IsBuyMarket(o) && o.user !in t.wallets then []
    else
      var m := Match(b, o, FundsOf(t.wallets, o));
      TradesChanges(o, m.state.trades) +
      if m.cancelledQuantity > 0 && o.side.Sell? then [Locks.Change(o.user, Releasing(m.cancelledQuantity))] else []
  }

  ghost function BatchChanges(t: Tables, b: Book, ms: seq<Message>): seq<Locks.Change>
    requires WellFormed(b) && ValidMessages(ms)
  {
    if ms == [] then []
    else
      var pre := ms[..|ms| - 1];
      var r := ApplyBatch(t, b, pre);
      BatchChanges(t, b, pre) + if r.Applied? then EntryChanges(r.tables, r.book, ms[|ms| - 1]) else []
  }

  // ---------- replaying them is what the exchange does ----------

  lemma {:induction false} ReplayOne(ws: WalletTable, c: Locks.Change)
    ensures Locks.Replay(ws, [c]) == if c.user in ws then ws[c.user := c.op(ws[c.user])] else ws
  {
    assert [] + [c] == [c];
    Locks.ReplaySnoc(ws, [], c);
  }

  /** The wallets after an accepted placement. */
  lemma PlacementIsReplay(t: Tables, users: set<UserId>, i: PlaceInput, id: OrderId)
    requires Place(t, users, i, id).0.Some?
    ensures i.side.Some? && i.typ.Some? && (Placed(i, id).typ.Limit? ==> Placed(i, id).price.Some?)
    ensures Locks.Replay(t.wallets, PlaceChanges(Placed(i, id))) == Place(t, users, i, id).0.value.wallets
  {
    ValidateAccepts(i, id);
    ReplayOne(t.wallets, PlaceChanges(Placed(i, id))[0]);
  }

  lemma {:induction false} SettleIsReplay(ws: WalletTable, o: OrderRow, t: Trade)
    requires (o.typ.Limit? ==> o.price.Some?) && Settle(ws, o, t).Some?
    ensures Locks.Replay(ws, TradeChanges(o, t)) == Settle(ws, o, t).value
  {
    var cs := TradeChanges(o, t);
    ReplayOne(ws, cs[0]);
    assert cs == [cs[0]] + [cs[1]];
    Locks.ReplaySnoc(ws, [cs[0]], cs[1]);
  }

  lemma {:induction false} SettleAllIsReplay(ws: WalletTable, o: OrderRow, ts: seq<Trade>)
    requires (o.typ.Limit? ==> o.price.Some?) && SettleAll(ws, o, ts).Some?
    ensures Locks.Replay(ws, TradesChanges(o, ts)) == SettleAll(ws, o, ts).value
    decreases |ts|
  {
    hide Settle, TradeChanges;
    if ts != [] {
      var pre := ts[..|ts| - 1];
      SettleAllIsReplay(ws, o, pre);
      SettleIsReplay(SettleAll(ws, o, pre).value, o, ts[|ts| - 1]);
      Locks.ReplayConcat(ws, TradesChanges(o, pre), TradeChanges(o, ts[|ts| - 1]));
    }
  }

  lemma NewIsReplay(t: Tables, b: Book, e: Event)
    requires WellFormed(b) && e.NewOrder? && ValidEvent(e) && ApplyNew(t, b, e).Applied?
    ensures Locks.Replay(t.wallets, NewChanges(t, b, e)) == ApplyNew(t, b, e).tables.wallets
  {
    hide WellFormed, Match, TradesChanges, SettleAll, UpdateOrders, UpdateOrder;
    var o := Arriving(e);
    var m := Match(b, o, FundsOf(t.wallets, o));
    SettleAllIsReplay(t.wallets, o, m.state.trades);
    var cs := TradesChanges(o, m.state.trades);
    if m.cancelledQuantity > 0 && o.side.Sell? {
      Locks.ReplaySnoc(t.wallets, cs, Locks.Change(o.user, Releasing(m.cancelledQuantity)));
    } else {
      assert cs + [] == cs;
    }
  }

  lemma CancelIsReplay(t: Tables, b: Book, id: OrderId)
    requires WellFormed(b) && ApplyCancel(t, b, id).Applied? && id in b.locations
    ensures Lookup(b, id).Some? && Lookup(b, id).value.price.Some?
    ensures
      var r := Lookup(b, id).value;
      Locks.Replay(t.wallets, [Locks.Change(r.user, Refunding(r))]) == ApplyCancel(t, b, id).tables.wallets
  {
    hide WellFormed, Cancel;
    LookupFinds(b, id);
    var r := Lookup(b, id).value;
    ReplayOne(t.wallets, Locks.Change(r.user, Refunding(r)));
  }

  lemma EntryIsReplay(t: Tables, b: Book, m: Message)
    requires WellFormed(b) && ValidEvent(m.event) && ApplyEntry(t, b, m).Applied?
    ensures Locks.Replay(t.wallets, EntryChanges(t, b, m)) == ApplyEntry(t, b, m).tables.wallets
  {
    hide WellFormed, ApplyNew, ApplyCancel, NewChanges, Cancel;
    if m.entry !in t.processed {
      var t' := Mark(t, m.entry);
      match m.event
      case NewOrder(_, _, _, _, _, _) =>
        NewIsReplay(t', b, m.event);
        SameNewChanges(t, b, m.event, m.entry);
      case CancelOrder(id) =>
        if id in b.locations { CancelIsReplay(t', b, id); } else { AbsentCancel(t', b, id); }
      case Skipped =>
    }
  }

  lemma SameNewChanges(t: Tables, b: Book, e: Event, entry: nat)
    requires WellFormed(b) && e.NewOrder? && ValidEvent(e)
    ensures NewChanges(Mark(t, entry), b, e) == NewChanges(t, b, e)
  {
  }

  lemma AbsentCancel(t: Tables, b: Book, id: OrderId)
    requires WellFormed(b) && id !in b.locations
    ensures ApplyCancel(t, b, id) == Applied(t, b)
  {
  }

  /** The wallets after a batch that applies. */
  lemma {:induction false} BatchIsReplay(t: Tables, b: Book, ms: seq<Message>)
    requires WellFormed(b) && ValidMessages(ms) && ApplyBatch(t, b, ms).Applied?
    ensures Locks.Replay(t.wallets, BatchChanges(t, b, ms)) == ApplyBatch(t, b, ms).tables.wallets
    decreases |ms|
  {
    hide WellFormed, ApplyEntry, EntryChanges;
    if ms != [] {
      var pre, m := ms[..|ms| - 1], ms[|ms| - 1];
      BatchIsReplay(t, b, pre);
      var r := ApplyBatch(t, b, pre);
      EntryIsReplay(r.tables, r.book, m);
      Locks.ReplayConcat(t.wallets, BatchChanges(t, b, pre), EntryChanges(r.tables, r.book, m));
    }
  }

  // ---------- rows under locks ----------

  /** A row that a transaction has locked stays as it read it until the transaction ends, so what it has
      decided on its rows holds when it commits. */
  lemma LockedRowIsStable(s: Locks.Store, a: Locks.Act, tx: nat, u: UserId)
    requires Locks.Isolated(s) && Locks.Can(s, a) && s.Locks(tx, u)
    requires a != Locks.Commit(tx) && a != Locks.Rollback(tx)
    ensures Locks.Do(s, a).Locks(tx, u) && u in s.table && u in Locks.Do(s, a).table
      && Locks.Do(s, a).table[u] == s.table[u]
  {
    assert Locks.UpToDate(s, tx);
    if a.Commit? {
      assert s.Locks(a.tx, u) ==> a.tx == tx;
    }
  }

  /** The matcher's wallet cache is a transaction's set of copies, and flushing it is writing them back. This
      stands alone: it says that the copies of the lock machine are what the cache of the Go code holds. */
  lemma CacheIsCopies(ws: WalletTable, cache: Cache)
    requires CacheOk(ws, cache)
    ensures Effective(ws, cache) == Locks.Written(ws, map u | u in cache :: cache[u].Value())
  {
  }

  // ---------- a batch looks at no wallet it does not lock ----------

  /** The two tables are the same as far as these users go. */
  predicate Agree(ws: WalletTable, vs: WalletTable, us: set<UserId>) {
    forall u :: u in us ==> (u in ws <==> u in vs) && (u in ws ==> ws[u] == vs[u])
  }

  function TradeUsers(ts: seq<Trade>): set<UserId> {
    if ts == [] then {} else TradeUsers(ts[..|ts| - 1]) + {ts[|ts| - 1].buyer, ts[|ts| - 1].seller}
  }

  /** The wallets an entry locks: those of its trades, that of a BUY MARKET's owner, of the owner of a
      cancelled SELL remainder, or of the order it cancels. */
  function EntryUsers(t: Tables, b: Book, m: Message): set<UserId>
    requires WellFormed(b) && ValidEvent(m.event)
  {
    if m.entry in t.processed then {}
    else
      match m.event
      case NewOrder(_, user, _, _, _, _) =>
        var o := Arriving(m.event);
        if IsBuyMarket(o) && user !in t.wallets then {user}
        else
          var r := Match(b, o, FundsOf(t.wallets, o));
          TradeUsers(r.state.trades) +
          if IsBuyMarket(o) || (r.cancelledQuantity > 0 && o.side.Sell?) then {user} else {}
      case CancelOrder(id) =>
        if id !in b.locations then {} else (LookupFinds(b, id); {Lookup(b, id).value.user})
      case Skipped => {}
  }

  function BatchUsers(t: Tables, b: Book, ms: seq<Message>): set<UserId>
    requires WellFormed(b) && ValidMessages(ms)
  {
    if ms == [] then {}
    else
      var r := ApplyBatch(t, b, ms[..|ms| - 1]);
      BatchUsers(t, b, ms[..|ms| - 1]) + if r.Applied? then EntryUsers(r.tables, r.book, ms[|ms| - 1]) else {}
  }

  lemma SettleLocal(ws: WalletTable, vs: WalletTable, o: OrderRow, t: Trade, us: set<UserId>)
    requires (o.typ.Limit? ==> o.price.Some?) && Agree(ws, vs, us) && {t.buyer, t.seller} <= us
    ensures Settle(ws, o, t).Some? <==> Settle(vs, o, t).Some?
    ensures Settle(ws, o, t).Some? ==> Agree(Settle(ws, o, t).value, Settle(vs, o, t).value, us)
  {
    hide Pay;
    assert t.buyer in us && t.seller in us;
  }

  lemma {:induction false} SettleAllLocal(ws: WalletTable, vs: WalletTable, o: OrderRow, ts: seq<Trade>,
                                          us: set<UserId>)
    requires (o.typ.Limit? ==> o.price.Some?) && Agree(ws, vs, us) && TradeUsers(ts) <= us
    ensures SettleAll(ws, o, ts).Some? <==> SettleAll(vs, o, ts).Some?
    ensures SettleAll(ws, o, ts).Some? ==> Agree(SettleAll(ws, o, ts).value, SettleAll(vs, o, ts).value, us)
    decreases |ts|
  {
    hide Settle, Agree;
    if ts != [] {
      var pre, last := ts[..|ts| - 1], ts[|ts| - 1];
      assert TradeUsers(pre) <= us && {last.buyer, last.seller} <= us;
      SettleAllLocal(ws, vs, o, pre, us);
      if SettleAll(ws, o, pre).Some? {
        SettleLocal(SettleAll(ws, o, pre).value, SettleAll(vs, o, pre).value, o, last, us);
      }
    }
  }

  lemma RemainderLocal(ws: WalletTable, vs: WalletTable, o: OrderRow, n: int, us: set<UserId>)
    requires Agree(ws, vs, us) && (n > 0 && o.side.Sell? ==> o.user in us)
    ensures ReleaseRemainder(ws, o, n).Some? <==> ReleaseRemainder(vs, o, n).Some?
    ensures ReleaseRemainder(ws, o, n).Some? ==>
      Agree(ReleaseRemainder(ws, o, n).value, ReleaseRemainder(vs, o, n).value, us)
  {
  }

  /** The same outcome, but for wallets that nothing was read from. */
  predicate SameButWallets(x: Outcome, y: Outcome, us: set<UserId>) {
    x.book == y.book && if x.Applied?
    then y.Applied? && y.tables == x.tables.(wallets := y.tables.wallets)
      && Agree(x.tables.wallets, y.tables.wallets, us)
    else y.Failed?
  }

  lemma NewLocal(t: Tables, vs: WalletTable, b: Book, m: Message, us: set<UserId>)
    requires WellFormed(b) && ValidEvent(m.event) && m.event.NewOrder? && m.entry !in t.processed
    requires Agree(t.wallets, vs, us) && EntryUsers(t, b, m) <= us
    ensures SameButWallets(ApplyNew(t, b, m.event), ApplyNew(t.(wallets := vs), b, m.event), us)
    ensures NewChanges(t, b, m.event) == NewChanges(t.(wallets := vs), b, m.event)
  {
    hide Match, SettleAll, ReleaseRemainder, UpdateOrders, UpdateOrder, OrdersExist, WellFormed, TradesChanges;
    var o := Arriving(m.event);
    assert IsBuyMarket(o) ==> o.user in us;
    if !(IsBuyMarket(o) && o.user !in t.wallets) {
      assert FundsOf(t.wallets, o) == FundsOf(vs, o);
      var r := Match(b, o, FundsOf(t.wallets, o));
      SettleAllLocal(t.wallets, vs, o, r.state.trades, us);
      if SettleAll(t.wallets, o, r.state.trades).Some? {
        RemainderLocal(SettleAll(t.wallets, o, r.state.trades).value, SettleAll(vs, o, r.state.trades).value, o,
          r.cancelledQuantity, us);
      }
    }
  }

  lemma CancelLocal(t: Tables, vs: WalletTable, b: Book, id: OrderId, us: set<UserId>)
    requires WellFormed(b) && Agree(t.wallets, vs, us)
    requires id in b.locations ==> Lookup(b, id).Some? && Lookup(b, id).value.user in us
    ensures SameButWallets(ApplyCancel(t, b, id), ApplyCancel(t.(wallets := vs), b, id), us)
  {
    hide WellFormed, Cancel, UpdateOrder, Refund, Lookup;
  }

  lemma UsersLocal(t: Tables, vs: WalletTable, b: Book, m: Message, us: set<UserId>)
    requires WellFormed(b) && ValidEvent(m.event) && Agree(t.wallets, vs, us) && EntryUsers(t, b, m) <= us
    ensures EntryUsers(t, b, m) == EntryUsers(t.(wallets := vs), b, m)
  {
    hide Match, WellFormed, TradeUsers;
    if m.entry !in t.processed && m.event.NewOrder? {
      var o := Arriving(m.event);
      if IsBuyMarket(o) { assert o.user in us; }
    }
  }

  lemma EntryLocal(t: Tables, vs: WalletTable, b: Book, m: Message, us: set<UserId>)
    requires WellFormed(b) && ValidEvent(m.event) && Agree(t.wallets, vs, us) && EntryUsers(t, b, m) <= us
    ensures SameButWallets(ApplyEntry(t, b, m), ApplyEntry(t.(wallets := vs), b, m), us)
    ensures EntryChanges(t, b, m) == EntryChanges(t.(wallets := vs), b, m)
    ensures EntryUsers(t, b, m) == EntryUsers(t.(wallets := vs), b, m)
  {
    hide WellFormed, ApplyNew, ApplyCancel, NewChanges, Match, TradeUsers, Agree;
    UsersLocal(t, vs, b, m, us);
    if m.entry !in t.processed {
      var t' := Mark(t, m.entry);
      assert Mark(t.(wallets := vs), m.entry) == t'.(wallets := vs);
      match m.event
      case NewOrder(_, _, _, _, _, _) =>
        NewLocal(t, vs, b, m, us);
        NewMarked(t, b, m.event, m.entry);
        NewMarked(t.(wallets := vs), b, m.event, m.entry);
      case CancelOrder(id) =>
        if id in b.locations { LookupFinds(b, id); }
        CancelLocal(t', vs, b, id, us);
      case Skipped =>
    }
  }

  /** A batch reads and changes only wallets it locks: on tables that agree on those, it makes the same
      changes, succeeds or fails alike, and leaves the same rows and book. */
  lemma {:induction false} BatchLocal(t: Tables, vs: WalletTable, b: Book, ms: seq<Message>, us: set<UserId>)
    requires WellFormed(b) && ValidMessages(ms) && Agree(t.wallets, vs, us) && BatchUsers(t, b, ms) <= us
    ensures SameButWallets(ApplyBatch(t, b, ms), ApplyBatch(t.(wallets := vs), b, ms), us)
    ensures BatchChanges(t, b, ms) == BatchChanges(t.(wallets := vs), b, ms)
    ensures BatchUsers(t, b, ms) == BatchUsers(t.(wallets := vs), b, ms)
    decreases |ms|
  {
    hide WellFormed, ApplyEntry, EntryChanges, EntryUsers, Agree;
    if ms != [] {
      var pre, m := ms[..|ms| - 1], ms[|ms| - 1];
      BatchLocal(t, vs, b, pre, us);
      var x, y := ApplyBatch(t, b, pre), ApplyBatch(t.(wallets := vs), b, pre);
      if x.Applied? {
        EntryLocal(x.tables, y.tables.wallets, x.book, m, us);
      }
    }
  }
}
