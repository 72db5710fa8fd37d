/** Wallet rows under SELECT ... FOR UPDATE: transactions of the API and of the matcher interleave,
    each keeps the rows it has read locked until it ends, and writes them back when it commits. */
module RowLocks {
  import opened Base
  import opened Orders
  import opened Wallets
  import opened Settlement

  /** A change to one wallet, whatever it is. */
  datatype Change = Change(user: UserId, op: Balances -> Balances)

  /** A transaction's copies of the rows it has locked, and the changes it has made to them. */
  datatype Work = Work(copies: WalletTable, changes: seq<Change>)

  /** `log` is history: the changes of the committed transactions, in commit order. */
  datatype Store = Store(table: WalletTable, active: map<nat, Work>, log: seq<Change>)
  {
    predicate Locks(tx: nat, u: UserId) {
      tx in active && u in active[tx].copies
    }
  }

  datatype Act =
    | Begin(tx: nat)
    | Lock(tx: nat, user: UserId)
    | Apply(tx: nat, change: Change)
    | Commit(tx: nat)
    | Rollback(tx: nat)   // an error, a crash or a deadlock

  /** A lock waits until no other transaction has the row. */
  predicate Can(s: Store, a: Act) {
    match a
    case Begin(tx) => tx !in s.active
    case Lock(tx, u) => tx in s.active && u in s.table && forall other :: other in s.active ==> !s.Locks(other, u)
    case Apply(tx, c) => s.Locks(tx, c.user)
    case Commit(tx) => tx in s.active
    case Rollback(tx) => tx in s.active
  }

  /** The table with a transaction's copies written over it. */
  function Written(table: WalletTable, copies: WalletTable): WalletTable {
    map u | u in table :: if u in copies then copies[u] else table[u]
  }

  function Do(s: Store, a: Act): Store
    requires Can(s, a)
  {
    match a
    case Begin(tx) => s.(active := s.active[tx := Work(map[], [])])
    case Lock(tx, u) =>
      s.(active := s.active[tx := s.active[tx].(copies := s.active[tx].copies[u := s.table[u]])])
    case Apply(tx, c) =>
      var w := s.active[tx];
      s.(active := s.active[tx := Work(w.copies[c.user := c.op(w.copies[c.user])], w.changes + [c])])
    case Commit(tx) =>
      Store(Written(s.table, s.active[tx].copies), s.active - {tx}, s.log + s.active[tx].changes)
    case Rollback(tx) => s.(active := s.active - {tx})
  }

  function Run(s0: Store, acts: seq<Act>): Option<Store> {
    if acts == [] then Some(s0)
    else
      var s := Run(s0, acts[..|acts| - 1]);
      if s.Some? && Can(s.value, acts[|acts| - 1]) then Some(Do(s.value, acts[|acts| - 1])) else None
  }

  /** The changes made one after the other to the table itself. */
  function Replay(table: WalletTable, cs: seq<Change>): (r: WalletTable)
    ensures r.Keys == table.Keys
  {
    if cs == [] then table
    else
      var t := Replay(table, cs[..|cs| - 1]);
      var c := cs[|cs| - 1];
      if c.user in t then t[c.user := c.op(t[c.user])] else t
  }

  lemma {:induction false} ReplaySnoc(table: WalletTable, cs: seq<Change>, c: Change)
    ensures Replay(table, cs + [c]) ==
      var t := Replay(table, cs);
      if c.user in t then t[c.user := c.op(t[c.user])] else t
  {
    assert (cs + [c])[..|cs|] == cs;
  }

  lemma {:induction false} ReplayConcat(table: WalletTable, xs: seq<Change>, ys: seq<Change>)
    ensures Replay(table, xs + ys) == Replay(Replay(table, xs), ys)
    decreases |ys|
  {
    if ys == [] {
      assert xs + ys == xs;
    } else {
      var pre := ys[..|ys| - 1];
      assert xs + ys == (xs + pre) + [ys[|ys| - 1]];
      ReplayConcat(table, xs, pre);
      ReplaySnoc(table, xs + pre, ys[|ys| - 1]);
    }
  }

  /** A transaction's copies are its changes made to the rows as they are in the table now. */
  predicate UpToDate(s: Store, tx: nat)
    requires tx in s.active
  {
    var w := s.active[tx];
    && w.copies.Keys <= s.table.Keys
    && (forall i :: 0 <= i < |w.changes| ==> w.changes[i].user in w.copies)
    && (forall u :: u in w.copies ==> w.copies[u] == Replay(s.table, w.changes)[u])
  }

  ghost predicate Exclusive(s: Store) {
    forall x, y, u :: x in s.active && y in s.active && s.Locks(x, u) && s.Locks(y, u) ==> x == y
  }

  ghost predicate Isolated(s: Store) {
    Exclusive(s) && forall tx :: tx in s.active ==> UpToDate(s, tx)
  }

  /** Replaying changes touches only the rows they name, and looks only at those. */
  lemma {:induction false} ReplayLocal(t1: WalletTable, t2: WalletTable, cs: seq<Change>, u: UserId)
    requires u in t1 && u in t2 && t1[u] == t2[u]
    ensures Replay(t1, cs)[u] == Replay(t2, cs)[u]
    decreases |cs|
  {
    if cs != [] { ReplayLocal(t1, t2, cs[..|cs| - 1], u); }
  }

  lemma {:induction false} ReplayOthers(t: WalletTable, cs: seq<Change>, u: UserId)
    requires u in t && forall i :: 0 <= i < |cs| ==> cs[i].user != u
    ensures Replay(t, cs)[u] == t[u]
    decreases |cs|
  {
    if cs != [] { ReplayOthers(t, cs[..|cs| - 1], u); }
  }

  /** Committing writes what replaying the transaction's changes on the current table gives. */
  lemma CommitIsReplay(s: Store, tx: nat)
    requires tx in s.active && UpToDate(s, tx)
    ensures Written(s.table, s.active[tx].copies) == Replay(s.table, s.active[tx].changes)
  {
    var w := s.active[tx];
    forall u | u in s.table ensures Written(s.table, w.copies)[u] == Replay(s.table, w.changes)[u] {
      if u !in w.copies {
        ReplayOthers(s.table, w.changes, u);
      }
    }
  }

  lemma DoKeepsConsistent(s: Store, a: Act)
    requires Isolated(s) && Can(s, a)
    ensures Isolated(Do(s, a))
  {
    var s' := Do(s, a);
    forall x, y, u | x in s'.active && y in s'.active && s'.Locks(x, u) && s'.Locks(y, u) ensures x == y {
      assert x in s.active && s.Locks(x, u) ==> !(a.Lock? && a.user == u);
      assert y in s.active && s.Locks(y, u) ==> !(a.Lock? && a.user == u);
    }
    forall tx | tx in s'.active ensures UpToDate(s', tx) {
      if a.Begin? && a.tx == tx {
        assert s'.active[tx] == Work(map[], []);
      } else if a.Lock? && a.tx == tx {
        LockIsFresh(s, tx, a.user);
      } else if a.Apply? && a.tx == tx {
        assert UpToDate(s, tx);
        ReplaySnoc(s.table, s.active[tx].changes, a.change);
      } else if a.Commit? {
        OtherStaysFresh(s, a.tx, tx);
      } else {
        assert UpToDate(s, tx);
      }
    }
  }

  lemma LockIsFresh(s: Store, tx: nat, u: UserId)
    requires Isolated(s) && Can(s, Lock(tx, u))
    ensures UpToDate(Do(s, Lock(tx, u)), tx)
  {
    assert UpToDate(s, tx) && !s.Locks(tx, u);
    ReplayOthers(s.table, s.active[tx].changes, u);
  }

  lemma OtherStaysFresh(s: Store, done: nat, tx: nat)
    requires Isolated(s) && done in s.active && tx in s.active && tx != done
    ensures UpToDate(Do(s, Commit(done)), tx)
  {
    var s' := Do(s, Commit(done));
    assert UpToDate(s, tx);
    forall u | u in s.active[tx].copies ensures s.active[tx].copies[u] == Replay(s'.table, s.active[tx].changes)[u] {
      assert s.Locks(tx, u) && !s.Locks(done, u);
      ReplayLocal(s.table, s'.table, s.active[tx].changes, u);
    }
  }

  /** No interleaving loses an update: in every run the table is what the committed transactions'
      changes, made one transaction after the other in commit order, make of the initial table. */
  lemma {:induction false} EveryRunIsSerial(table: WalletTable, acts: seq<Act>)
    requires Run(Store(table, map[], []), acts).Some?
    ensures
      var s := Run(Store(table, map[], []), acts).value;
      && s.table == Replay(table, s.log) && Isolated(s)
    decreases |acts|
  {
    if acts != [] {
      var s0 := Store(table, map[], []);
      var pre, a := acts[..|acts| - 1], acts[|acts| - 1];
      EveryRunIsSerial(table, pre);
      var s := Run(s0, pre).value;
      DoKeepsConsistent(s, a);
      if a.Commit? {
        CommitIsReplay(s, a.tx);
        ReplayConcat(table, s.log, s.active[a.tx].changes);
      }
    }
  }

  /** What a transaction has read and changed is, when it commits, what it would have read and
      changed running alone after the transactions committed before it. */
  lemma {:induction false} ReadsAreSerial(table: WalletTable, acts: seq<Act>, tx: nat, u: UserId)
    requires Run(Store(table, map[], []), acts).Some?
    requires tx in Run(Store(table, map[], []), acts).value.active
    requires u in Run(Store(table, map[], []), acts).value.active[tx].copies
    ensures
      var s := Run(Store(table, map[], []), acts).value;
      u in table && s.active[tx].copies[u] == Replay(table, s.log + s.active[tx].changes)[u]
  {
    EveryRunIsSerial(table, acts);
    var s := Run(Store(table, map[], []), acts).value;
    assert UpToDate(s, tx);
    ReplayConcat(table, s.log, s.active[tx].changes);
  }
}
