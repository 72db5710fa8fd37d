/** Placements and matcher batches as the database runs them: transactions that lock wallet rows when they come to
    them, work on their own copies, see what others have committed to the orders table meanwhile, and
    interleave in any way. Their commits are the atomic steps of the exchange. */
module Interleavings {
  import opened Base
  import opened Orders
  import opened PriorityBook
  import opened Matching
  import opened BookContents
  import opened Settlement
  import opened Terms
  import opened Placement
  import opened Exchange
  import opened Safety
  import opened Refusals
  import opened SerialTransactions
  import opened Histories

  // ---------- an order row that a batch knows nothing of ----------

  function Beside(t: Tables, id: OrderId, r: OrderRow): Tables {
    t.(orders := t.orders[id := r])
  }

  function OutcomeBeside(x: Outcome, id: OrderId, r: OrderRow): Outcome {
    match x
    case Applied(t, b) => Applied(Beside(t, id, r), b)
    case Failed(b) => Failed(b)
  }

  lemma UpdateBeside(orders: OrderTable, id: OrderId, r: OrderRow, row: OrderRow)
    requires row.id != id
    ensures UpdateOrder(orders[id := r], row) == UpdateOrder(orders, row)[id := r]
  {
  }

  lemma {:induction false} UpdatesBeside(orders: OrderTable, id: OrderId, r: OrderRow, es: seq<Entry>)
    requires forall i :: 0 <= i < |es| ==> es[i].row.id != id
    ensures UpdateOrders(orders[id := r], es) == UpdateOrders(orders, es)[id := r]
    decreases |es|
  {
    if es != [] {
      UpdatesBeside(orders, id, r, es[..|es| - 1]);
      UpdateBeside(UpdateOrders(orders, es[..|es| - 1]), id, r, es[|es| - 1].row);
    }
  }

  /** What a match touches is known. */
  lemma MatchIsKnown(t: Tables, b: Book, e: Event)
    requires WellFormed(b) && BookKnown(t.orders, b) && e.NewOrder? && ValidEvent(e) && EventKnown(t.orders, e)
    requires IsBuyMarket(Arriving(e)) ==> e.user in t.wallets
    ensures
      var s := Match(b, Arriving(e), FundsOf(t.wallets, Arriving(e))).state;
      OrdersExist(t.orders, s.trades) && QueueKnown(t.orders, s.makers) && s.incoming.id == e.id
  {
    hide WellFormed, BookKnown;
    var o := Arriving(e);
    var s0 := Start(b, o, FundsOf(t.wallets, o));
    MatchKnown(t.orders, b, o, FundsOf(t.wallets, o));
    LoopTradesExist(t.orders, s0);
    LoopRunnable(s0);
  }

  lemma NewBeside(t: Tables, b: Book, e: Event, id: OrderId, r: OrderRow)
    requires WellFormed(b) && BookKnown(t.orders, b) && e.NewOrder? && ValidEvent(e) && EventKnown(t.orders, e)
      && id !in t.orders
    ensures ApplyNew(Beside(t, id, r), b, e) == OutcomeBeside(ApplyNew(t, b, e), id, r)
  {
    hide WellFormed, BookKnown, Match, SettleAll, ReleaseRemainder, UpdateOrders, UpdateOrder;
    var o := Arriving(e);
    if IsBuyMarket(o) ==> o.user in t.wallets {
      MatchIsKnown(t, b, e);
      var s := Match(b, o, FundsOf(t.wallets, o)).state;
      assert forall i :: 0 <= i < |s.makers| ==> RowKnown(t.orders, s.makers[i].row);
      UpdatesBeside(t.orders, id, r, s.makers);
      UpdateBeside(UpdateOrders(t.orders, s.makers), id, r, s.incoming);
    }
  }

  lemma CancelBeside(t: Tables, b: Book, target: OrderId, id: OrderId, r: OrderRow)
    requires WellFormed(b) && BookKnown(t.orders, b) && id !in t.orders
    ensures ApplyCancel(Beside(t, id, r), b, target) == OutcomeBeside(ApplyCancel(t, b, target), id, r)
  {
    hide WellFormed, Cancel, Lookup, Refund;
    if target in b.locations {
      LookupFinds(b, target);
      var k := LookupIsEntry(b, target);
      assert RowKnown(t.orders, b.Queue(b.locations[target].side)[k].row);
      UpdateBeside(t.orders, id, r, CancelRow(Lookup(b, target).value));
    }
  }

  lemma EntryBeside(t: Tables, b: Book, m: Message, id: OrderId, r: OrderRow)
    requires WellFormed(b) && BookKnown(t.orders, b) && EventKnown(t.orders, m.event) && ValidEvent(m.event)
      && id !in t.orders
    ensures ApplyEntry(Beside(t, id, r), b, m) == OutcomeBeside(ApplyEntry(t, b, m), id, r)
    ensures EntryChanges(Beside(t, id, r), b, m) == EntryChanges(t, b, m)
      && EntryUsers(Beside(t, id, r), b, m) == EntryUsers(t, b, m)
  {
    hide WellFormed, BookKnown, ApplyNew, ApplyCancel, Match;
    if m.entry !in t.processed {
      var t' := Mark(t, m.entry);
      assert Mark(Beside(t, id, r), m.entry) == Beside(t', id, r);
      match m.event
      case NewOrder(_, _, _, _, _, _) => NewBeside(t', b, m.event, id, r);
      case CancelOrder(target) => CancelBeside(t', b, target, id, r);
      case Skipped =>
    }
  }

  /** Rows placed meanwhile make no difference to a batch. */
  lemma {:induction false} BatchBeside(t: Tables, b: Book, ms: seq<Message>, id: OrderId, r: OrderRow)
    requires WellFormed(b) && BookKnown(t.orders, b) && RowsInRange(t.orders) && MessagesKnown(t.orders, ms)
      && ValidMessages(ms)
    requires id !in t.orders
    ensures ApplyBatch(Beside(t, id, r), b, ms) == OutcomeBeside(ApplyBatch(t, b, ms), id, r)
    ensures BatchChanges(Beside(t, id, r), b, ms) == BatchChanges(t, b, ms)
      && BatchUsers(Beside(t, id, r), b, ms) == BatchUsers(t, b, ms)
    decreases |ms|
  {
    hide WellFormed, BookKnown, RowsInRange, EventKnown, ApplyEntry, EntryChanges, EntryUsers;
    if ms != [] {
      var pre, m := ms[..|ms| - 1], ms[|ms| - 1];
      assert EventKnown(t.orders, m.event);
      BatchBeside(t, b, pre, id, r);
      BatchKept(t, b, pre);
      var x := ApplyBatch(t, b, pre);
      if x.Applied? {
        SameRowsKnown(t.orders, x.tables.orders, x.book);
        SameRowsEvent(t.orders, x.tables.orders, m.event);
        EntryBeside(x.tables, x.book, m, id, r);
      }
    }
  }

  // ---------- changes in a row ----------

  predicate AllLocked(s: Locks.Store, tx: nat, cs: seq<Locks.Change>) {
    tx in s.active && forall i :: 0 <= i < |cs| ==> cs[i].user in s.active[tx].copies
  }

  /** A transaction makes these changes to its copies. */
  function Worked(s: Locks.Store, tx: nat, cs: seq<Locks.Change>): Locks.Store
    requires AllLocked(s, tx, cs)
  {
    var w := s.active[tx];
    s.(active := s.active[tx := Locks.Work(Locks.Replay(w.copies, cs), w.changes + cs)])
  }

  /** One after the other, that is what the lock machine allows. */
  lemma {:induction false} WorkedIsRun(s: Locks.Store, tx: nat, cs: seq<Locks.Change>)
    requires AllLocked(s, tx, cs) && Locks.Isolated(s)
    ensures Locks.Isolated(Worked(s, tx, cs))
    ensures Locks.Run(s, seq(|cs|, i requires 0 <= i < |cs| => Locks.Apply(tx, cs[i]))) == Some(Worked(s, tx, cs))
    decreases |cs|
  {
    hide Locks.Isolated;
    var acts := seq(|cs|, i requires 0 <= i < |cs| => Locks.Apply(tx, cs[i]));
    if cs == [] {
      assert Worked(s, tx, cs) == s by { NoWork(s, tx); }
    } else {
      var pre, c := cs[..|cs| - 1], cs[|cs| - 1];
      WorkedIsRun(s, tx, pre);
      assert acts[..|acts| - 1] == seq(|pre|, i requires 0 <= i < |pre| => Locks.Apply(tx, pre[i]));
      var mid := Worked(s, tx, pre);
      assert Locks.Can(mid, Locks.Apply(tx, c));
      assert s.active[tx].changes + pre + [c] == s.active[tx].changes + cs;
      assert Locks.Do(mid, Locks.Apply(tx, c)) == Worked(s, tx, cs);
      Locks.DoKeepsConsistent(mid, Locks.Apply(tx, c));
    }
  }

  lemma NoWork(s: Locks.Store, tx: nat)
    requires tx in s.active
    ensures Worked(s, tx, []) == s
  {
    assert s.active[tx].changes + [] == s.active[tx].changes;
  }

  /** An entry that applies changes no wallet that is not there. */
  lemma ChangesHaveWallets(t: Tables, b: Book, m: Message)
    requires WellFormed(b) && ValidEvent(m.event) && ApplyEntry(t, b, m).Applied?
    ensures forall i :: 0 <= i < |EntryChanges(t, b, m)| ==> EntryChanges(t, b, m)[i].user in t.wallets
  {
    hide WellFormed, Match, SettleAll, TradesChanges, Cancel, Lookup, Refund;
    if m.entry !in t.processed {
      match m.event
      case NewOrder(_, _, _, _, _, _) =>
        var o := Arriving(m.event);
        NewMarked(t, b, m.event, m.entry);
        SettledHaveWallets(t.wallets, o, Match(b, o, FundsOf(t.wallets, o)).state.trades);
      case CancelOrder(id) => CancelMarked(t, b, id, m.entry);
      case Skipped =>
    }
  }

  lemma {:induction false} SettledHaveWallets(ws: WalletTable, o: OrderRow, ts: seq<Trade>)
    requires (o.typ.Limit? ==> o.price.Some?) && SettleAll(ws, o, ts).Some?
    ensures forall i :: 0 <= i < |TradesChanges(o, ts)| ==> TradesChanges(o, ts)[i].user in ws
    ensures SettleAll(ws, o, ts).value.Keys == ws.Keys
    decreases |ts|
  {
    hide Settle, TradeChanges;
    if ts != [] {
      var n := |ts| - 1;
      SettledHaveWallets(ws, o, ts[..n]);
      OneSettledHasWallets(SettleAll(ws, o, ts[..n]).value, o, ts[n]);
    }
  }

  lemma OneSettledHasWallets(ws: WalletTable, o: OrderRow, t: Trade)
    requires (o.typ.Limit? ==> o.price.Some?) && Settle(ws, o, t).Some?
    ensures forall i :: 0 <= i < |TradeChanges(o, t)| ==> TradeChanges(o, t)[i].user in ws
    ensures Settle(ws, o, t).value.Keys == ws.Keys
  {
    hide Pay;
  }

  // ---------- the machine ----------

  /** A placement until it has reserved and after; a batch with the entries it has done, its own view of the tables
      other than the wallets, and the book in memory. */
  datatype Job =
    | Placing(input: PlaceInput, id: OrderId, now: int, reserved: bool)
    | Batching(batch: seq<nat>, done: nat, failed: bool, view: Tables, book: Book)

  /** `sys` is what has been committed, and the matcher's state at the last step of its own; `matcher` is the
      transaction of its batch, if one is open. */
  datatype Db = Db(store: Locks.Store, sys: System, jobs: map<nat, Job>, matcher: Option<nat>)

  datatype Act =
    | BeginPlacing(tx: nat, input: PlaceInput, id: OrderId, now: int)
    | BeginBatch(tx: nat, batch: seq<nat>)
    | LockRow(tx: nat, user: UserId)
    | Reserving(tx: nat)
    | CommitPlacing(tx: nat)
    | GiveUp(tx: nat)                       // a placement is refused, or its transaction fails
    | ApplyNext(tx: nat)
    | CommitBatch(tx: nat, replyLost: bool)
    | AbortBatch(tx: nat, within: bool)     // an entry failed, or the transaction did, perhaps within an entry
    | Other(action: Action)

  /** Actions that are no transaction of these two kinds; those of the matcher wait for its batch to end. */
  predicate IsOther(a: Action) {
    !a.PlaceOrder? && !a.Commit? && !a.CommitReplyLost? && !a.Abort?
  }

  predicate OfMatcher(a: Action) {
    a.Deliver? || a.Ack? || a.AckLost? || a.Resync? || a.Restart?
  }

  /** The tables as the batch sees them: its own copies of the wallets it has locked, and its view of the rest. */
  function Seen(s: Locks.Store, tx: nat, j: Job): Tables
    requires tx in s.active && j.Batching?
  {
    j.view.(wallets := s.active[tx].copies)
  }

  function NextMessage(sys: System, j: Job): Message
    requires j.Batching? && j.done < |j.batch|
  {
    Message(j.batch[j.done], EventAt(sys, j.batch[j.done]))
  }

  predicate Can(d: Db, a: Act) {
    match a
    case BeginPlacing(tx, _, _, _) => tx !in d.jobs && tx !in d.store.active
    case BeginBatch(tx, batch) => tx !in d.jobs && tx !in d.store.active && d.matcher.None? && CanApply(d.sys, batch)
    case LockRow(tx, u) => tx in d.jobs && Locks.Can(d.store, Locks.Lock(tx, u))
    case Reserving(tx) =>
      tx in d.jobs && d.jobs[tx].Placing? && !d.jobs[tx].reserved && tx in d.store.active &&
      var i := d.jobs[tx].input;
      && Validate(i).None? && i.user in d.sys.users && i.side.Some? && i.typ.Some?
      && i.user in d.store.active[tx].copies
      && (Placed(i, d.jobs[tx].id).typ.Limit? ==> Placed(i, d.jobs[tx].id).price.Some?)
      && Reserve(d.store.active[tx].copies[i.user], Placed(i, d.jobs[tx].id)).Ok?
    case CommitPlacing(tx) =>
      && tx in d.jobs && d.jobs[tx].Placing? && d.jobs[tx].reserved && tx in d.store.active
      && d.jobs[tx].id !in d.sys.tables.orders
      && d.jobs[tx].input.side.Some? && d.jobs[tx].input.typ.Some?
    case GiveUp(tx) => tx in d.jobs && d.jobs[tx].Placing? && tx in d.store.active
    case ApplyNext(tx) =>
      tx in d.jobs && d.jobs[tx].Batching? && tx in d.store.active && HasNext(d, tx) &&
      var j := d.jobs[tx];
      HasLocked(d.store, tx, EntryUsers(Seen(d.store, tx, j), j.book, NextMessage(d.sys, j)))
    case CommitBatch(tx, _) =>
      tx in d.jobs && d.jobs[tx].Batching? && tx in d.store.active && !d.jobs[tx].failed
        && d.jobs[tx].done == |d.jobs[tx].batch|
    case AbortBatch(tx, within) =>
      tx in d.jobs && d.jobs[tx].Batching? && tx in d.store.active &&
      (within ==> HasNext(d, tx) && HasLocked(d.store, tx, FundsUser(NextMessage(d.sys, d.jobs[tx]).event)))
    case Other(x) => IsOther(x) && (OfMatcher(x) ==> d.matcher.None?) && Enabled(d.sys, x)
  }

  /** No entry of the batch has failed, and there is one more. */
  predicate HasNext(d: Db, tx: nat)
    requires tx in d.jobs && d.jobs[tx].Batching?
  {
    var j := d.jobs[tx];
    !j.failed && j.done < |j.batch| && WellFormed(j.book) && ValidEvent(NextMessage(d.sys, j).event)
  }

  /** The wallet that is read before the matching. */
  function FundsUser(e: Event): set<UserId> {
    if e.NewOrder? && IsBuyMarket(Arriving(e)) then {e.user} else {}
  }

  /** All these rows are locked, but for users without one. */
  predicate HasLocked(s: Locks.Store, tx: nat, us: set<UserId>)
    requires tx in s.active
  {
    forall u :: u in us ==> u in s.active[tx].copies || u !in s.table
  }

  /** A batch sees the rows that are committed meanwhile. */
  function ViewsBeside(jobs: map<nat, Job>, id: OrderId, r: OrderRow): map<nat, Job> {
    map tx | tx in jobs :: if jobs[tx].Batching? then jobs[tx].(view := Beside(jobs[tx].view, id, r)) else jobs[tx]
  }

  ghost function Do(d: Db, a: Act): Db
    requires Can(d, a)
  {
    match a
    case BeginPlacing(tx, i, id, now) =>
      d.(store := Locks.Do(d.store, Locks.Begin(tx)), jobs := d.jobs[tx := Placing(i, id, now, false)])
    case BeginBatch(tx, batch) =>
      d.(store := Locks.Do(d.store, Locks.Begin(tx)), matcher := Some(tx),
         jobs := d.jobs[tx := Batching(batch, 0, false, d.sys.tables, d.sys.book)])
    case LockRow(tx, u) => d.(store := Locks.Do(d.store, Locks.Lock(tx, u)))
    case Reserving(tx) =>
      var j := d.jobs[tx];
      d.(store := Worked(d.store, tx, PlaceChanges(Placed(j.input, j.id))), jobs := d.jobs[tx := j.(reserved := true)])
    case CommitPlacing(tx) => AfterPlacing(d, tx)
    case GiveUp(tx) => d.(store := Locks.Do(d.store, Locks.Rollback(tx)), jobs := d.jobs - {tx})
    case ApplyNext(tx) => AfterEntry(d, tx)
    case CommitBatch(tx, replyLost) =>
      var j := d.jobs[tx];
      var store := Locks.Do(d.store, Locks.Commit(tx));
      var sys := d.sys.(tables := j.view.(wallets := store.table), book := j.book);
      Db(store, if replyLost then sys.(dirty := true) else sys.(control := Holding(j.batch)), d.jobs - {tx}, None)
    case AbortBatch(tx, within) =>
      Db(Locks.Do(d.store, Locks.Rollback(tx)), d.sys.(book := LeftBook(d, tx, within), dirty := true), d.jobs - {tx},
        None)
    case Other(x) => d.(sys := Next(d.sys, x))
  }

  /** The book in memory when a batch is rolled back: an entry that was under way has been matched. */
  function LeftBook(d: Db, tx: nat, within: bool): Book
    requires Can(d, AbortBatch(tx, within))
  {
    var j := d.jobs[tx];
    if within then ApplyEntry(Seen(d.store, tx, j), j.book, NextMessage(d.sys, j)).book else j.book
  }

  ghost function AfterPlacing(d: Db, tx: nat): Db
    requires Can(d, CommitPlacing(tx))
  {
    var j := d.jobs[tx];
    var store := Locks.Do(d.store, Locks.Commit(tx));
    var r := Placed(j.input, j.id);
    Db(store,
       d.sys.(tables := d.sys.tables.(wallets := store.table, orders := d.sys.tables.orders[j.id := r]),
              created := d.sys.created[j.id := j.now], outbox := d.sys.outbox + [OutboxRow(PlacedEvent(r), false)]),
       ViewsBeside(d.jobs - {tx}, j.id, r), d.matcher)
  }

  /** The next entry of a batch, on what the batch sees. Only if it applies are its changes made. */
  ghost function AfterEntry(d: Db, tx: nat): Db
    requires Can(d, ApplyNext(tx))
  {
    var j := d.jobs[tx];
    var m := NextMessage(d.sys, j);
    var t := Seen(d.store, tx, j);
    match ApplyEntry(t, j.book, m)
    case Failed(b) => d.(jobs := d.jobs[tx := j.(done := j.done + 1, failed := true, book := b)])
    case Applied(t', b) =>
      ChangesHaveWallets(t, j.book, m);
      Db(Worked(d.store, tx, EntryChanges(t, j.book, m)), d.sys,
        d.jobs[tx := Batching(j.batch, j.done + 1, false, t', b)], d.matcher)
  }

  ghost function Run(d0: Db, acts: seq<Act>): Option<Db> {
    if acts == [] then Some(d0)
    else
      var d := Run(d0, acts[..|acts| - 1]);
      if d.Some? && Can(d.value, acts[|acts| - 1]) then Some(Do(d.value, acts[|acts| - 1])) else None
  }

  function Idling(s0: System): Db {
    Db(Locks.Store(s0.tables.wallets, map[], []), s0, map[], None)
  }

  // ---------- what holds between the steps ----------

  ghost predicate Tied(d: Db) {
    && d.store.table == d.sys.tables.wallets && Locks.Isolated(d.store) && d.jobs.Keys == d.store.active.Keys
    && (d.matcher.Some? ==> d.matcher.value in d.jobs)
    && (forall tx :: tx in d.jobs ==> (d.jobs[tx].Batching? <==> d.matcher == Some(tx)))
  }

  /** A placement has reserved what its order needs, and could do so on the table as it is. */
  ghost predicate PlacingOk(d: Db, tx: nat)
    requires tx in d.jobs && tx in d.store.active && d.jobs[tx].Placing?
  {
    var i, w := d.jobs[tx].input, d.store.active[tx];
    if !d.jobs[tx].reserved then w.changes == []
    else
      && Validate(i).None? && i.user in d.sys.users && i.side.Some? && i.typ.Some?
      && i.user in w.copies && i.user in d.store.table
      && var r := Placed(i, d.jobs[tx].id);
         && (r.typ.Limit? ==> r.price.Some?) && w.changes == PlaceChanges(r) && Reserve(d.store.table[i.user], r).Ok?
  }

  /** The first entries of a batch. */
  function DoneMessages(sys: System, j: Job): seq<Message>
    requires j.Batching? && j.done <= |j.batch|
  {
    Messages(sys, j.batch)[..j.done]
  }

  /** A batch has done what its first entries would do on the tables as they are. */
  ghost predicate BatchOk(d: Db, tx: nat)
    requires tx in d.jobs && tx in d.store.active && d.jobs[tx].Batching?
  {
    var j := d.jobs[tx];
    && CanApply(d.sys, j.batch) && j.done <= |j.batch| && ValidMessages(DoneMessages(d.sys, j))
    && var r := ApplyBatch(d.sys.tables, d.sys.book, DoneMessages(d.sys, j));
       && r.book == j.book && (j.failed <==> r.Failed?)
       && HasLocked(d.store, tx, BatchUsers(d.sys.tables, d.sys.book, DoneMessages(d.sys, j)))
       && (r.Applied? ==>
             && r.tables == j.view.(wallets := r.tables.wallets)
             && d.store.active[tx].changes == BatchChanges(d.sys.tables, d.sys.book, DoneMessages(d.sys, j)))
  }

  ghost predicate JobOk(d: Db, tx: nat)
    requires tx in d.jobs && tx in d.store.active
  {
    if d.jobs[tx].Placing? then PlacingOk(d, tx) else BatchOk(d, tx)
  }

  ghost predicate InStep(d: Db) {
    Tied(d) && forall tx :: tx in d.jobs ==> JobOk(d, tx)
  }

  /** A transaction that the step was not made by: it has its locks and its changes, and the rows it has locked are
      as they were. */
  ghost predicate Waits(d: Db, d': Db, tx: nat) {
    && tx in d.jobs && tx in d.store.active && tx in d'.jobs && tx in d'.store.active
    && d'.store.active[tx] == d.store.active[tx] && d'.store.table.Keys == d.store.table.Keys
    && d'.sys.users == d.sys.users
    && forall u :: u in d.store.active[tx].copies && u in d.store.table ==> d'.store.table[u] == d.store.table[u]
  }

  lemma PlacingWaits(d: Db, d': Db, tx: nat)
    requires Waits(d, d', tx) && d.jobs[tx].Placing? && PlacingOk(d, tx) && d'.jobs[tx] == d.jobs[tx]
    ensures PlacingOk(d', tx)
  {
  }

  /** Nothing that the batch goes by has changed. */
  predicate SameGround(sys: System, sys': System, batch: seq<nat>) {
    && sys'.tables == sys.tables && sys'.book == sys.book
    && CanApply(sys', batch) && Messages(sys', batch) == Messages(sys, batch)
  }

  lemma BatchWaits(d: Db, d': Db, tx: nat)
    requires Waits(d, d', tx) && d.jobs[tx].Batching? && BatchOk(d, tx) && d'.jobs[tx] == d.jobs[tx]
    requires SameGround(d.sys, d'.sys, d.jobs[tx].batch)
    ensures BatchOk(d', tx)
  {
    hide ApplyBatch, BatchChanges, BatchUsers, WellFormed, CanApply, Messages;
  }

  // ---------- locking, reserving, giving up ----------

  /** Another transaction's step leaves a waiting one alone. */
  lemma OthersWait(d: Db, a: Locks.Act, tx: nat)
    requires Tied(d) && Locks.Can(d.store, a) && a.tx != tx && tx in d.jobs
    ensures
      var s' := Locks.Do(d.store, a);
      && tx in s'.active && s'.active[tx] == d.store.active[tx] && s'.table.Keys == d.store.table.Keys
      && forall u :: u in d.store.active[tx].copies && u in d.store.table ==> s'.table[u] == d.store.table[u]
  {
    forall u | u in d.store.active[tx].copies && u in d.store.table
      ensures Locks.Do(d.store, a).table[u] == d.store.table[u]
    {
      LockedRowIsStable(d.store, a, tx, u);
    }
  }

  lemma BeginKeepsStep(d: Db, a: Act)
    requires InStep(d) && Can(d, a) && (a.BeginPlacing? || a.BeginBatch?)
    ensures InStep(Do(d, a)) && Do(d, a).sys == d.sys
  {
    hide ApplyBatch, BatchChanges, BatchUsers, WellFormed, CanApply, Locks.Isolated;
    var d' := Do(d, a);
    var tx := a.tx;
    Locks.DoKeepsConsistent(d.store, Locks.Begin(tx));
    forall x | x in d'.jobs ensures JobOk(d', x) {
      if x == tx {
        if a.BeginBatch? { EmptyIsOk(d', tx); }
      } else {
        assert JobOk(d, x);
        if d.jobs[x].Batching? { BatchWaits(d, d', x); } else { PlacingWaits(d, d', x); }
      }
    }
  }

  lemma {:induction false} EmptyIsOk(d: Db, tx: nat)
    requires tx in d.jobs && tx in d.store.active && d.store.active[tx].changes == []
    requires d.jobs[tx].Batching? && CanApply(d.sys, d.jobs[tx].batch)
    requires d.jobs[tx] == Batching(d.jobs[tx].batch, 0, false, d.sys.tables, d.sys.book)
    ensures BatchOk(d, tx)
  {
    hide WellFormed;
    assert DoneMessages(d.sys, d.jobs[tx]) == [];
  }

  /** A lock adds one copy, and nothing else changes. */
  lemma LockKeepsStep(d: Db, tx: nat, u: UserId)
    requires InStep(d) && Can(d, LockRow(tx, u))
    ensures InStep(Do(d, LockRow(tx, u))) && Do(d, LockRow(tx, u)).sys == d.sys
  {
    hide ApplyBatch, BatchChanges, BatchUsers, WellFormed, CanApply, Locks.Isolated;
    var d' := Do(d, LockRow(tx, u));
    Locks.DoKeepsConsistent(d.store, Locks.Lock(tx, u));
    forall x | x in d'.jobs ensures JobOk(d', x) {
      assert JobOk(d, x);
      if x != tx {
        if d.jobs[x].Batching? { BatchWaits(d, d', x); } else { PlacingWaits(d, d', x); }
      }
    }
  }

  lemma GiveUpKeepsStep(d: Db, tx: nat)
    requires InStep(d) && Can(d, GiveUp(tx))
    ensures InStep(Do(d, GiveUp(tx))) && Do(d, GiveUp(tx)).sys == d.sys
  {
    hide ApplyBatch, BatchChanges, BatchUsers, WellFormed, CanApply, Locks.Isolated;
    var d' := Do(d, GiveUp(tx));
    Locks.DoKeepsConsistent(d.store, Locks.Rollback(tx));
    forall x | x in d'.jobs ensures JobOk(d', x) {
      assert JobOk(d, x);
      if d.jobs[x].Batching? { BatchWaits(d, d', x); } else { PlacingWaits(d, d', x); }
    }
  }

  /** An unchanged copy is the row of the table. */
  lemma {:induction false} UnchangedCopy(s: Locks.Store, tx: nat, u: UserId)
    requires Locks.Isolated(s) && tx in s.active && s.active[tx].changes == [] && u in s.active[tx].copies
    ensures u in s.table && s.active[tx].copies[u] == s.table[u]
  {
    assert Locks.UpToDate(s, tx);
  }

  lemma ReservingKeepsStep(d: Db, tx: nat)
    requires InStep(d) && Can(d, Reserving(tx))
    ensures InStep(Do(d, Reserving(tx))) && Do(d, Reserving(tx)).sys == d.sys
  {
    hide ApplyBatch, BatchChanges, BatchUsers, WellFormed, CanApply, Locks.Isolated, Reserve;
    var d' := Do(d, Reserving(tx));
    var j := d.jobs[tx];
    assert JobOk(d, tx);
    UnchangedCopy(d.store, tx, j.input.user);
    WorkedIsRun(d.store, tx, PlaceChanges(Placed(j.input, j.id)));
    forall x | x in d'.jobs ensures JobOk(d', x) {
      assert JobOk(d, x);
      if x == tx {
        assert [] + PlaceChanges(Placed(j.input, j.id)) == PlaceChanges(Placed(j.input, j.id));
      } else if d.jobs[x].Batching? {
        BatchWaits(d, d', x);
      } else {
        PlacingWaits(d, d', x);
      }
    }
  }

  // ---------- a placement commits ----------

  /** What the commit of a placement leaves in the wallets, and that it is the exchange's placement. */
  lemma CommittedPlacing(d: Db, tx: nat)
    requires Tied(d) && Can(d, CommitPlacing(tx)) && PlacingOk(d, tx)
    ensures
      var j := d.jobs[tx];
      var a := PlaceOrder(j.input, j.id, j.now);
      Enabled(d.sys, a) && Next(d.sys, a) == Do(d, CommitPlacing(tx)).sys
  {
    var j := d.jobs[tx];
    assert Place(d.sys.tables, d.sys.users, j.input, j.id).0.Some?;
    PlacementIsReplay(d.sys.tables, d.sys.users, j.input, j.id);
    assert Locks.UpToDate(d.store, tx);
    Locks.CommitIsReplay(d.store, tx);
  }

  /** The open batch goes by the new tables as it did by the old: no wallet it has locked has changed, and it knows
      nothing of the new order. */
  lemma BatchBesidePlacing(d: Db, tx: nat, x: nat)
    requires InStep(d) && Shape(d.sys) && Can(d, CommitPlacing(tx)) && x in d.jobs && d.jobs[x].Batching?
    ensures x in Do(d, CommitPlacing(tx)).jobs && x in Do(d, CommitPlacing(tx)).store.active
    ensures Do(d, CommitPlacing(tx)).jobs[x].Batching? && BatchOk(Do(d, CommitPlacing(tx)), x)
  {
    hide ApplyBatch, BatchChanges, BatchUsers, WellFormed, RowsInRange, BookKnown, Locks.Isolated, EventKnown, Agree;
    var d', j := Do(d, CommitPlacing(tx)), d.jobs[x];
    assert JobOk(d, x);
    OthersWait(d, Locks.Commit(tx), x);
    var t, b, ms := d.sys.tables, d.sys.book, DoneMessages(d.sys, j);
    var id, r := d.jobs[tx].id, Placed(d.jobs[tx].input, d.jobs[tx].id);
    MessagesStay(d.sys, d'.sys, j.batch);
    assert MessagesKnown(t.orders, ms) by {
      MessagesAreKnown(d.sys, j.batch);
      KnownPrefix(t.orders, Messages(d.sys, j.batch), j.done);
    }
    var ws := d'.store.table;
    CopiesInTable(d.store, x);
    assert Agree(t.wallets, ws, BatchUsers(t, b, ms)) by { LockedAgree(d, d', x, BatchUsers(t, b, ms)); }
    BatchLocal(t, ws, b, ms, BatchUsers(t, b, ms));
    BatchBeside(t.(wallets := ws), b, ms, id, r);
    assert d'.sys.tables == Beside(t.(wallets := ws), id, r);
  }

  /** What is locked by one transaction is not changed by the commit of another. */
  lemma LockedAgree(d: Db, d': Db, x: nat, us: set<UserId>)
    requires x in d.store.active && HasLocked(d.store, x, us) && d'.store.table.Keys == d.store.table.Keys
    requires d.store.active[x].copies.Keys <= d.store.table.Keys
    requires forall u :: u in d.store.active[x].copies && u in d.store.table ==> d'.store.table[u] == d.store.table[u]
    ensures Agree(d.store.table, d'.store.table, us)
  {
  }

  lemma CopiesInTable(s: Locks.Store, tx: nat)
    requires Locks.Isolated(s) && tx in s.active
    ensures s.active[tx].copies.Keys <= s.table.Keys
  {
    assert Locks.UpToDate(s, tx);
  }

  lemma KnownPrefix(orders: OrderTable, ms: seq<Message>, n: nat)
    requires MessagesKnown(orders, ms) && n <= |ms|
    ensures MessagesKnown(orders, ms[..n])
  {
  }

  /** Entries keep their content as stream and outbox grow. */
  lemma MessagesStay(sys: System, sys': System, batch: seq<nat>)
    requires CanApply(sys, batch) && sys'.book == sys.book && sys'.control == sys.control && sys'.pending == sys.pending
    requires sys.stream <= sys'.stream && |sys.outbox| <= |sys'.outbox|
    requires forall k :: 0 <= k < |sys.outbox| ==> sys'.outbox[k].event == sys.outbox[k].event
    ensures Messages(sys', batch) == Messages(sys, batch) && CanApply(sys', batch)
  {
    hide WellFormed;
    forall i | 0 <= i < |batch| ensures EventAt(sys', batch[i]) == EventAt(sys, batch[i]) {
      assert sys'.stream[batch[i]] == sys.stream[batch[i]];
    }
  }

  lemma CommitPlacingKeepsStep(d: Db, tx: nat)
    requires InStep(d) && Shape(d.sys) && Can(d, CommitPlacing(tx))
    ensures InStep(Do(d, CommitPlacing(tx)))
  {
    hide ApplyBatch, BatchOk, WellFormed, CanApply, Locks.Isolated, Reserve;
    var d' := Do(d, CommitPlacing(tx));
    Locks.DoKeepsConsistent(d.store, Locks.Commit(tx));
    forall x | x in d'.jobs ensures JobOk(d', x) {
      assert JobOk(d, x);
      if d.jobs[x].Batching? {
        BatchBesidePlacing(d, tx, x);
      } else {
        OthersWait(d, Locks.Commit(tx), x);
        PlacingWaits(d, d', x);
      }
    }
  }

  // ---------- the next entry of a batch ----------

  /** What the batch sees of the wallets it has locked is what its entries so far have made of them. */
  lemma CopiesAreCurrent(d: Db, tx: nat)
    requires InStep(d) && tx in d.jobs && d.jobs[tx].Batching? && !d.jobs[tx].failed
    ensures BatchOk(d, tx)
    ensures
      var r := ApplyBatch(d.sys.tables, d.sys.book, DoneMessages(d.sys, d.jobs[tx]));
      var copies := d.store.active[tx].copies;
      && r.Applied? && r.tables.wallets.Keys == d.store.table.Keys && copies.Keys <= d.store.table.Keys
      && (forall u :: u in copies ==> copies[u] == r.tables.wallets[u])
      && r.tables == Seen(d.store, tx, d.jobs[tx]).(wallets := r.tables.wallets)
  {
    hide ApplyBatch, BatchChanges, BatchUsers, WellFormed;
    assert JobOk(d, tx);
    BatchIsReplay(d.sys.tables, d.sys.book, DoneMessages(d.sys, d.jobs[tx]));
    assert Locks.UpToDate(d.store, tx);
  }

  /** The entry on what the batch sees, and on the whole tables. */
  lemma EntryOnBoth(d: Db, tx: nat) returns (x: Outcome, y: Outcome, t: Tables, us: set<UserId>)
    requires InStep(d) && Can(d, ApplyNext(tx))
    ensures
      var j := d.jobs[tx];
      var m := NextMessage(d.sys, j);
      var r := ApplyBatch(d.sys.tables, d.sys.book, DoneMessages(d.sys, j));
      && BatchOk(d, tx) && r.Applied? && r.book == j.book && t == Seen(d.store, tx, j)
      && x == ApplyEntry(t, j.book, m) && y == ApplyEntry(r.tables, j.book, m)
      && us == EntryUsers(r.tables, j.book, m) && us == EntryUsers(t, j.book, m)
      && EntryChanges(t, j.book, m) == EntryChanges(r.tables, j.book, m)
      && SameButWallets(x, y, us)
  {
    hide ApplyBatch, ApplyEntry, EntryChanges, EntryUsers, WellFormed;
    var j := d.jobs[tx];
    var m := NextMessage(d.sys, j);
    CopiesAreCurrent(d, tx);
    var r := ApplyBatch(d.sys.tables, d.sys.book, DoneMessages(d.sys, j));
    t := Seen(d.store, tx, j);
    us := EntryUsers(t, j.book, m);
    assert r.tables == t.(wallets := r.tables.wallets);
    assert Agree(t.wallets, r.tables.wallets, us);
    EntryLocal(t, r.tables.wallets, j.book, m, us);
    x, y := ApplyEntry(t, j.book, m), ApplyEntry(r.tables, j.book, m);
  }

  /** The first entries with one more. */
  lemma {:induction false} OneMoreDone(d: Db, tx: nat, j': Job)
    requires tx in d.jobs && tx in d.store.active && d.jobs[tx].Batching? && HasNext(d, tx) && BatchOk(d, tx)
    requires j'.Batching? && j'.batch == d.jobs[tx].batch && j'.done == d.jobs[tx].done + 1
    ensures
      var j := d.jobs[tx];
      var t, b, ms, m := d.sys.tables, d.sys.book, DoneMessages(d.sys, j), NextMessage(d.sys, j);
      var ms' := DoneMessages(d.sys, j');
      && ms' == ms + [m] && ValidMessages(ms')
      && var r := ApplyBatch(t, b, ms);
         && (r.Applied? ==>
               && ApplyBatch(t, b, ms') == ApplyEntry(r.tables, r.book, m)
               && BatchChanges(t, b, ms') == BatchChanges(t, b, ms) + EntryChanges(r.tables, r.book, m)
               && BatchUsers(t, b, ms') == BatchUsers(t, b, ms) + EntryUsers(r.tables, r.book, m))
  {
    hide ApplyEntry, EntryChanges, EntryUsers, WellFormed;
    var ms, m := DoneMessages(d.sys, d.jobs[tx]), NextMessage(d.sys, d.jobs[tx]);
    assert (ms + [m])[..|ms|] == ms;
  }

  /** A refused entry. */
  lemma FailedEntryKeepsStep(d: Db, tx: nat)
    requires InStep(d) && Can(d, ApplyNext(tx))
      && ApplyEntry(Seen(d.store, tx, d.jobs[tx]), d.jobs[tx].book, NextMessage(d.sys, d.jobs[tx])).Failed?
    ensures BatchOk(Do(d, ApplyNext(tx)), tx)
  {
    hide ApplyBatch, ApplyEntry, BatchChanges, BatchUsers, EntryUsers, EntryChanges, WellFormed, CanApply,
      Locks.Isolated, Messages;
    var d' := Do(d, ApplyNext(tx));
    var x, y, t, us := EntryOnBoth(d, tx);
    OneMoreDone(d, tx, d'.jobs[tx]);
  }

  /** An entry that applies. */
  lemma AppliedEntryKeepsStep(d: Db, tx: nat)
    requires InStep(d) && Can(d, ApplyNext(tx))
      && ApplyEntry(Seen(d.store, tx, d.jobs[tx]), d.jobs[tx].book, NextMessage(d.sys, d.jobs[tx])).Applied?
    ensures Locks.Isolated(Do(d, ApplyNext(tx)).store) && BatchOk(Do(d, ApplyNext(tx)), tx)
  {
    hide ApplyBatch, ApplyEntry, BatchChanges, BatchUsers, EntryUsers, EntryChanges, WellFormed, CanApply,
      Locks.Isolated, Messages;
    var d', j, m := Do(d, ApplyNext(tx)), d.jobs[tx], NextMessage(d.sys, d.jobs[tx]);
    var x, y, t, us := EntryOnBoth(d, tx);
    OneMoreDone(d, tx, d'.jobs[tx]);
    ChangesHaveWallets(t, j.book, m);
    WorkedIsRun(d.store, tx, EntryChanges(t, j.book, m));
    SameCopies(d.store, tx, EntryChanges(t, j.book, m));
  }

  lemma SameCopies(s: Locks.Store, tx: nat, cs: seq<Locks.Change>)
    requires AllLocked(s, tx, cs)
    ensures Worked(s, tx, cs).active[tx].copies.Keys == s.active[tx].copies.Keys
  {
  }

  lemma ApplyNextKeepsStep(d: Db, tx: nat)
    requires InStep(d) && Can(d, ApplyNext(tx))
    ensures InStep(Do(d, ApplyNext(tx))) && Do(d, ApplyNext(tx)).sys == d.sys
  {
    hide ApplyBatch, ApplyEntry, EntryUsers, EntryChanges, BatchOk, WellFormed, CanApply, Locks.Isolated;
    var d' := Do(d, ApplyNext(tx));
    if ApplyEntry(Seen(d.store, tx, d.jobs[tx]), d.jobs[tx].book, NextMessage(d.sys, d.jobs[tx])).Failed? {
      FailedEntryKeepsStep(d, tx);
    } else {
      AppliedEntryKeepsStep(d, tx);
    }
    forall x | x in d'.jobs ensures JobOk(d', x) {
      assert JobOk(d, x);
      if x != tx { PlacingWaits(d, d', x); }
    }
  }

  // ---------- a batch ends ----------

  /** Committing a batch is the exchange's commit. */
  lemma CommittedBatch(d: Db, tx: nat, replyLost: bool)
    requires InStep(d) && Can(d, CommitBatch(tx, replyLost))
    ensures
      var a := if replyLost then CommitReplyLost(d.jobs[tx].batch) else Commit(d.jobs[tx].batch);
      Enabled(d.sys, a) && Next(d.sys, a) == Do(d, CommitBatch(tx, replyLost)).sys
  {
    hide ApplyBatch, BatchChanges, BatchUsers, WellFormed;
    CopiesAreCurrent(d, tx);
    var ms := Messages(d.sys, d.jobs[tx].batch);
    assert ms[..|ms|] == ms;
    BatchIsReplay(d.sys.tables, d.sys.book, ms);
    assert Locks.UpToDate(d.store, tx);
    Locks.CommitIsReplay(d.store, tx);
  }

  /** What an entry does to the book depends on no wallet but the one that is read before the matching. */
  lemma BookByFunds(t: Tables, vs: WalletTable, b: Book, m: Message)
    requires WellFormed(b) && ValidEvent(m.event) && Agree(t.wallets, vs, FundsUser(m.event))
    ensures ApplyEntry(t, b, m).book == ApplyEntry(t.(wallets := vs), b, m).book
  {
    hide WellFormed, Match, SettleAll, ReleaseRemainder, Refund, Cancel, Lookup, UpdateOrders;
    if m.entry !in t.processed && m.event.NewOrder? && IsBuyMarket(Arriving(m.event)) {
      assert m.event.user in FundsUser(m.event);
    }
  }

  /** Where a batch is rolled back, within the entry after those that are done or not. */
  function ReachedBy(j: Job, within: bool): nat
    requires j.Batching?
  {
    if within then j.done + 1 else j.done
  }

  /** Rolling one back is the exchange's abort: the tables stay, the book keeps what it has come to. */
  lemma AbortedBatch(d: Db, tx: nat, within: bool)
    requires InStep(d) && Can(d, AbortBatch(tx, within))
    ensures
      var a := Abort(d.jobs[tx].batch, ReachedBy(d.jobs[tx], within));
      Enabled(d.sys, a) && Next(d.sys, a) == Do(d, AbortBatch(tx, within)).sys
  {
    hide ApplyBatch, BatchChanges, BatchUsers, WellFormed, ApplyEntry, Messages, Locks.Isolated;
    var j := d.jobs[tx];
    assert JobOk(d, tx);
    MessagesPrefix(d.sys, j.batch, j.done);
    if within {
      MessagesPrefix(d.sys, j.batch, j.done + 1);
      AbortedWithin(d, tx);
    }
  }

  lemma MessagesPrefix(sys: System, batch: seq<nat>, n: nat)
    requires n <= |batch|
    ensures |Messages(sys, batch)| == |batch| && Messages(sys, batch[..n]) == Messages(sys, batch)[..n]
  {
  }

  /** The book after the entry that was under way. */
  lemma AbortedWithin(d: Db, tx: nat)
    requires InStep(d) && Can(d, AbortBatch(tx, true)) && BatchOk(d, tx)
    ensures
      var ms := DoneMessages(d.sys, d.jobs[tx].(done := d.jobs[tx].done + 1));
      ValidMessages(ms) && ApplyBatch(d.sys.tables, d.sys.book, ms).book == LeftBook(d, tx, true)
  {
    hide ApplyBatch, BatchChanges, BatchUsers, WellFormed, ApplyEntry, Messages, Locks.Isolated;
    var j := d.jobs[tx];
    CopiesAreCurrent(d, tx);
    var r := ApplyBatch(d.sys.tables, d.sys.book, DoneMessages(d.sys, j));
    BookByFunds(Seen(d.store, tx, j), r.tables.wallets, j.book, NextMessage(d.sys, j));
    OneMoreDone(d, tx, j.(done := j.done + 1));
  }

  lemma BatchEndKeepsStep(d: Db, a: Act)
    requires InStep(d) && Can(d, a) && (a.CommitBatch? || a.AbortBatch?)
    ensures InStep(Do(d, a))
  {
    hide ApplyBatch, BatchOk, WellFormed, CanApply, Locks.Isolated, Reserve;
    var d' := Do(d, a);
    var end := if a.CommitBatch? then Locks.Commit(a.tx) else Locks.Rollback(a.tx);
    Locks.DoKeepsConsistent(d.store, end);
    forall x | x in d'.jobs ensures JobOk(d', x) {
      assert JobOk(d, x);
      OthersWait(d, end, x);
      PlacingWaits(d, d', x);
    }
  }

  // ---------- everything else ----------

  lemma OtherKeepsTables(s: System, a: Action)
    requires Enabled(s, a) && IsOther(a)
    ensures Next(s, a).tables == s.tables && Next(s, a).users == s.users
    ensures !OfMatcher(a) ==>
      var s' := Next(s, a);
      && s'.book == s.book && s'.control == s.control && s'.pending == s.pending && s.stream <= s'.stream
      && |s.outbox| <= |s'.outbox|
      && forall k :: 0 <= k < |s.outbox| ==> s'.outbox[k].event == s.outbox[k].event
  {
  }

  lemma OtherKeepsStep(d: Db, a: Action)
    requires InStep(d) && Can(d, Other(a))
    ensures InStep(Do(d, Other(a)))
  {
    hide ApplyBatch, BatchOk, WellFormed, CanApply, Locks.Isolated, Enabled, Next, Reserve, Messages;
    var d' := Do(d, Other(a));
    OtherKeepsTables(d.sys, a);
    forall x | x in d'.jobs ensures JobOk(d', x) {
      assert JobOk(d, x);
      if d.jobs[x].Batching? {
        OtherBesideBatch(d, d', a, x);
      } else {
        PlacingWaits(d, d', x);
      }
    }
  }

  lemma OtherBesideBatch(d: Db, d': Db, a: Action, x: nat)
    requires InStep(d) && Enabled(d.sys, a) && IsOther(a) && !OfMatcher(a) && d' == d.(sys := Next(d.sys, a))
    requires x in d.jobs && x in d.store.active && d.jobs[x].Batching?
    ensures BatchOk(d', x)
  {
    hide BatchOk, CanApply, Messages, Locks.Isolated, Enabled, Next, JobOk;
    BatchIsOk(d, x);
    OtherKeepsTables(d.sys, a);
    MessagesStay(d.sys, d'.sys, d.jobs[x].batch);
    BatchWaits(d, d', x);
  }

  lemma BatchIsOk(d: Db, tx: nat)
    requires InStep(d) && tx in d.jobs && d.jobs[tx].Batching?
    ensures tx in d.store.active && BatchOk(d, tx) && CanApply(d.sys, d.jobs[tx].batch)
  {
    assert JobOk(d, tx);
  }

  // ---------- whole runs ----------

  /** The step of the exchange that this is, if it is one. */
  function StepOf(d: Db, a: Act): seq<Action>
    requires Can(d, a)
  {
    match a
    case CommitPlacing(tx) => [PlaceOrder(d.jobs[tx].input, d.jobs[tx].id, d.jobs[tx].now)]
    case CommitBatch(tx, replyLost) =>
      [if replyLost then CommitReplyLost(d.jobs[tx].batch) else Commit(d.jobs[tx].batch)]
    case AbortBatch(tx, within) => [Abort(d.jobs[tx].batch, ReachedBy(d.jobs[tx], within))]
    case Other(x) => [x]
    case _ => []
  }

  /** Commits and aborts, and the actions that are no such transactions. */
  ghost function StepsOf(d0: Db, acts: seq<Act>): seq<Action>
    requires Run(d0, acts).Some?
  {
    if acts == [] then []
    else StepsOf(d0, acts[..|acts| - 1]) + StepOf(Run(d0, acts[..|acts| - 1]).value, acts[|acts| - 1])
  }

  lemma ActIsStep(d: Db, a: Act)
    requires InStep(d) && Shape(d.sys) && Can(d, a)
    ensures InStep(Do(d, a))
    ensures
      var steps := StepOf(d, a);
      if steps == [] then Do(d, a).sys == d.sys
      else |steps| == 1 && Enabled(d.sys, steps[0]) && Next(d.sys, steps[0]) == Do(d, a).sys
  {
    hide InStep, Enabled, Next, JobOk, Shape;
    match a
    case BeginPlacing(_, _, _, _) => BeginKeepsStep(d, a);
    case BeginBatch(_, _) => BeginKeepsStep(d, a);
    case LockRow(tx, u) => LockKeepsStep(d, tx, u);
    case Reserving(tx) => ReservingKeepsStep(d, tx);
    case CommitPlacing(tx) => CommitPlacingKeepsStep(d, tx); PlacingIsOk(d, tx); CommittedPlacing(d, tx);
    case GiveUp(tx) => GiveUpKeepsStep(d, tx);
    case ApplyNext(tx) => ApplyNextKeepsStep(d, tx);
    case CommitBatch(tx, replyLost) => BatchEndKeepsStep(d, a); CommittedBatch(d, tx, replyLost);
    case AbortBatch(tx, within) => BatchEndKeepsStep(d, a); AbortedBatch(d, tx, within);
    case Other(x) => OtherKeepsStep(d, x);
  }

  lemma PlacingIsOk(d: Db, tx: nat)
    requires InStep(d) && tx in d.jobs && d.jobs[tx].Placing?
    ensures Tied(d) && tx in d.store.active && PlacingOk(d, tx)
  {
    assert JobOk(d, tx);
  }

  /** Any interleaving of placements and batches that lock the wallets they come to, with everything else in
      between, is a run of the exchange: every transaction is one step, taken when it commits or is rolled
      back. */
  lemma {:induction false} InterleavingIsRun(s0: System, acts: seq<Act>)
    requires Initial(s0) && Run(Idling(s0), acts).Some?
    ensures InStep(Run(Idling(s0), acts).value)
    ensures After(s0, StepsOf(Idling(s0), acts)) == Some(Run(Idling(s0), acts).value.sys)
    decreases |acts|
  {
    hide InStep, Can, Do, StepOf, Shape, Enabled, Next;
    if acts == [] {
      IdlingKeepsStep(s0);
    } else {
      var pre, a := acts[..|acts| - 1], acts[|acts| - 1];
      InterleavingIsRun(s0, pre);
      var d, steps := Run(Idling(s0), pre).value, StepsOf(Idling(s0), pre);
      assert Shape(d.sys) by { EveryRunIsSafe(s0, steps); }
      ActIsStep(d, a);
      if StepOf(d, a) == [] {
        assert steps + [] == steps;
      } else {
        assert StepOf(d, a) == [StepOf(d, a)[0]];
        StepOn(s0, steps, d.sys, StepOf(d, a)[0]);
      }
    }
  }

  lemma {:induction false} IdlingKeepsStep(s0: System)
    requires Initial(s0)
    ensures InStep(Idling(s0)) && After(s0, []) == Some(s0)
  {
  }

  /** So whatever has been committed under locks is safe. */
  lemma {:induction false} InterleavingStaysSafe(s0: System, acts: seq<Act>)
    requires Initial(s0) && Run(Idling(s0), acts).Some?
    ensures Safe(s0, Run(Idling(s0), acts).value.sys)
      && Run(Idling(s0), acts).value.store.table == Run(Idling(s0), acts).value.sys.tables.wallets
  {
    hide Safe;
    InterleavingIsRun(s0, acts);
    EveryRunIsSafe(s0, StepsOf(Idling(s0), acts));
  }
}
