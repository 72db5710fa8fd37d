/** The per-batch wallet cache: each wallet is read once, changed as an object, and written back
    once at the end. Its effect is that of applying every operation to the table directly. */
module WalletCaches {
  import opened Base
  import opened Orders
  import opened Wallets
  import opened Matching
  import opened Settlement

  type Cache = map<UserId, Wallet>

  /** Every cached wallet belongs to the user it is cached under and to a row of the table. */
  predicate CacheOk(ws: WalletTable, cache: Cache) {
    forall u :: u in cache ==> u in ws && cache[u].userId == u
  }

  ghost function Objects(cache: Cache): set<Wallet> {
    set u | u in cache :: cache[u]
  }

  /** The table with the cached changes in place. */
  ghost function Effective(ws: WalletTable, cache: Cache): WalletTable
    reads Objects(cache)
  {
    map u | u in ws :: if u in cache then cache[u].Value() else ws[u]
  }

  /** A read under SELECT ... FOR UPDATE, once per wallet and batch. */
  method LoadWallet(ws: WalletTable, cache: Cache, u: UserId) returns (w: Wallet?, cache': Cache)
    requires CacheOk(ws, cache)
    ensures CacheOk(ws, cache') && fresh(Objects(cache') - Objects(cache)) && cache.Keys <= cache'.Keys
    ensures Effective(ws, cache') == Effective(ws, cache)
    ensures w == null <==> u !in ws
    ensures w != null ==> u in cache' && w == cache'[u] && w.Value() == Effective(ws, cache)[u]
    ensures forall v :: v in cache ==> cache'[v] == cache[v]
  {
    if u in cache {
      return cache[u], cache;
    }
    if u !in ws {
      return null, cache;
    }
    w := new Wallet(u, ws[u]);
    cache' := cache[u := w];
  }

  /** Changing one cached wallet changes the effective table at its user only. */
  twostate lemma OneWrite(c: (WalletTable, Cache, UserId))
    requires CacheOk(c.0, c.1)
    requires c.2 in c.1
    requires forall u :: u in c.1 && u != c.2 ==> unchanged(c.1[u])
    ensures Effective(c.0, c.1) == old(Effective(c.0, c.1))[c.2 := c.1[c.2].Value()]
  {
  }

  /** The buyer's and the seller's side of one trade, on cached wallets that may be the same one. */
  method SettleTrade(ws: WalletTable, cache: Cache, o: Order, t: Trade) returns (ok: bool, cache': Cache)
    requires CacheOk(ws, cache) && (o.typ.Limit? ==> o.price.Some?)
    modifies Objects(cache)
    ensures CacheOk(ws, cache') && fresh(Objects(cache') - Objects(cache))
    ensures ok <==> Settle(old(Effective(ws, cache)), o.Row(), t).Some?
    ensures ok ==> Effective(ws, cache') == Settle(old(Effective(ws, cache)), o.Row(), t).value
  {
    hide SettleSell;
    ghost var before := Effective(ws, cache);
    var buyer, seller;
    buyer, cache' := LoadWallet(ws, cache, t.buyer);
    if buyer == null {
      return false, cache';
    }
    seller, cache' := LoadWallet(ws, cache', t.seller);
    if seller == null {
      return false, cache';
    }
    label Loaded:
    ok := PayFor(buyer, o, t);
    if !ok {
      return;
    }
    OneWrite@Loaded((ws, cache', t.buyer));
    label Paid:
    var err := seller.SettleSellFill(t.price, t.quantity);
    if err.Some? {
      return false, cache';
    }
    OneWrite@Paid((ws, cache', t.seller));
  }

  /** The buyer pays, and an incoming BUY LIMIT is refunded the improvement. */
  method PayFor(buyer: Wallet, o: Order, t: Trade) returns (ok: bool)
    requires o.typ.Limit? ==> o.price.Some?
    modifies buyer
    ensures ok <==> Pay(old(buyer.Value()), o.Row(), t).Ok?
    ensures ok ==> buyer.Value() == Pay(old(buyer.Value()), o.Row(), t).w
  {
    if o.side.Buy? && o.typ.Market? {
      var err := buyer.SettleBuyMarketFill(t.price, t.quantity);
      return err.None?;
    }
    var err := buyer.SettleBuyLimitFill(t.price, t.quantity);
    if err.Some? {
      return false;
    }
    if o.side.Buy? && o.typ.Limit? {
      var improvement := (o.price.value - t.price) * t.quantity;
      if improvement > 0 {
        err := buyer.ReleaseBRLReservation(improvement);
        return err.None?;
      }
    }
    return true;
  }

  method SettleTrades(ws: WalletTable, cache: Cache, o: Order, ts: seq<Trade>) returns (ok: bool, cache': Cache)
    requires CacheOk(ws, cache) && (o.typ.Limit? ==> o.price.Some?)
    modifies Objects(cache)
    ensures CacheOk(ws, cache') && fresh(Objects(cache') - Objects(cache))
    ensures ok <==> SettleAll(old(Effective(ws, cache)), o.Row(), ts).Some?
    ensures ok ==> Effective(ws, cache') == SettleAll(old(Effective(ws, cache)), o.Row(), ts).value
  {
    ghost var before := Effective(ws, cache);
    cache' := cache;
    ok := true;
    for i := 0 to |ts|
      invariant CacheOk(ws, cache') && fresh(Objects(cache') - Objects(cache))
      invariant SettleAll(before, o.Row(), ts[..i]) == Some(Effective(ws, cache'))
    {
      assert ts[..i + 1][..i] == ts[..i];
      assert ts[..i + 1][i] == ts[i];
      ok, cache' := SettleTrade(ws, cache', o, ts[i]);
      if !ok {
        FailedStaysFailed(before, o.Row(), ts, i + 1);
        return;
      }
    }
    assert ts[..|ts|] == ts;
  }

  lemma {:induction false} FailedStaysFailed(ws: WalletTable, o: OrderRow, ts: seq<Trade>, n: nat)
    requires (o.typ.Limit? ==> o.price.Some?) && n <= |ts| && SettleAll(ws, o, ts[..n]).None?
    ensures SettleAll(ws, o, ts).None?
    decreases |ts|
  {
    if n == |ts| {
      assert ts[..n] == ts;
    } else {
      assert ts[..|ts| - 1][..n] == ts[..n];
      FailedStaysFailed(ws, o, ts[..|ts| - 1], n);
    }
  }

  /** The single write per wallet at the end of a batch. */
  method Flush(ws: WalletTable, cache: Cache) returns (ws': WalletTable)
    requires CacheOk(ws, cache)
    ensures ws' == Effective(ws, cache)
  {
    ws' := ws;
    var left := cache.Keys;
    while left != {}
      invariant left <= cache.Keys && ws'.Keys == ws.Keys
      invariant forall u :: u in ws ==> ws'[u] == if u in cache && u !in left then cache[u].Value() else ws[u]
      decreases left
    {
      var u :| u in left;
      ws' := ws'[u := cache[u].Value()];
      left := left - {u};
    }
  }
}
