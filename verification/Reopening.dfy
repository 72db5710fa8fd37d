/** Which rows an entry writes, and when it writes one that is finished. */
module Reopening {
  import opened Base
  import opened Orders
  import opened Wallets
  import opened PriorityBook
  import opened Matching
  import opened PriceTime
  import opened Settlement
  import opened Placement
  import opened Recovery
  import opened Exchange
  import opened Safety
  import opened CleanRuns
  import opened Boundaries
  import opened Matchers
  import opened ConsumerLoop
  import opened LoopRuns
  import opened DirtyRuns
  import opened StuckLists

  // ---------- the rows an entry may write ----------

  /** An order with this id stands in the queue. */
  predicate Stands(q: seq<Entry>, id: OrderId) {
    exists i :: 0 <= i < |q| && q[i].row.id == id
  }

  lemma WithoutStands(q: seq<Entry>, token: nat, id: OrderId)
    ensures Stands(Without(q, token), id) ==> Stands(q, id)
  {
    var k := IndexOf(q, token);
    var r := Without(q, token);
    if i :| 0 <= i < |r| && r[i].row.id == id {
      assert q[if k < |q| && i >= k then i + 1 else i].row.id == id;
    }
  }

  lemma RemoveStands(b: Book, id: OrderId, side: Side, price: int, other: OrderId)
    ensures Stands(RemoveFront(b, id, side, price).Queue(side), other) ==> Stands(b.Queue(side), other)
  {
    if id in b.locations { WithoutStands(b.Queue(side), b.locations[id].token, other); }
  }

  lemma TouchStands(makers: seq<Entry>, e: Entry, id: OrderId)
    ensures Stands(Touch(makers, e), id) ==> Stands(makers, id) || e.row.id == id
  {
    var r := Touch(makers, e);
    if i :| 0 <= i < |r| && r[i].row.id == id {
      if i < |makers| && r[i] == makers[i] { assert makers[i].row.id == id; }
    }
  }

  /** The makers of a step stood on the other side, and nobody joins them there. */
  lemma ExecuteStands(s: State, qty: int, id: OrderId)
    requires s.Opp() != []
    ensures Execute(s, qty).incoming.side == s.incoming.side
    ensures Stands(Execute(s, qty).Opp(), id) ==> Stands(s.Opp(), id)
    ensures Stands(Execute(s, qty).makers, id) ==> Stands(s.makers, id) || Stands(s.Opp(), id)
  {
    hide RemoveFront, Touch, FillRow;
    var opp, side := s.Opp(), Opposite(s.incoming.side);
    var maker := Entry(opp[0].token, FillRow(opp[0].row, qty));
    assert FillRow(s.incoming, qty).SameTerms(s.incoming) && maker.row.SameTerms(opp[0].row);
    assert opp[0].row.id == id ==> Stands(opp, id);
    TouchStands(s.makers, maker, id);
    var q := [maker] + opp[1..];
    if i :| 0 <= i < |q| && q[i].row.id == id { assert opp[i].row.id == id; }
    RemoveStands(s.book.WithQueue(side, q), maker.row.id, side, opp[0].Price(), id);
  }

  lemma {:induction false} LoopStands(s: State, id: OrderId)
    requires Runnable(s)
    ensures Stands(Loop(s).makers, id) ==> Stands(s.makers, id) || Stands(s.Opp(), id)
    decreases s.incoming.Remaining(), Debt(s)
  {
    hide Execute, Stands, WellFormed, Quantity, Accepts;
    if Step(s).Some? {
      StepRunnable(s);
      StepDecreases(s);
      var qty := StepQuantity(s);
      ExecuteStands(s, qty, id);
      LoopStands(Step(s).value, id);
    }
  }

  lemma StepQuantity(s: State) returns (qty: int)
    requires Runnable(s) && Step(s).Some?
    ensures s.Opp() != [] && Step(s).value == Execute(s, qty)
  {
    hide Execute;
    qty := Quantity(s.incoming, s.Opp()[0].row, s.funds, s.Opp()[0].Price());
  }

  lemma {:induction false} UpdatesLeave(orders: OrderTable, es: seq<Entry>, id: OrderId)
    requires !Stands(es, id)
    ensures UpdateOrders(orders, es).Keys == orders.Keys
    ensures id in orders ==> UpdateOrders(orders, es)[id] == orders[id]
    decreases |es|
  {
    if es != [] {
      var n := |es| - 1;
      assert !Stands(es[..n], id) by {
        forall i | 0 <= i < n ensures es[..n][i].row.id != id {
          assert es[i].row.id != id;
        }
      }
      UpdatesLeave(orders, es[..n], id);
      assert es[n].row.id != id;
    }
  }

  lemma {:induction false} UpdatesKeys(orders: OrderTable, es: seq<Entry>)
    ensures UpdateOrders(orders, es).Keys == orders.Keys
    decreases |es|
  {
    if es != [] { UpdatesKeys(orders, es[..|es| - 1]); }
  }

  /** Whose row an entry may write: that of the order itself, of an order standing on the other side when a
      NEW_ORDER comes, or of the order a cancel finds on the book. */
  predicate MayWrite(t: Tables, b: Book, m: Message, id: OrderId) {
    m.entry !in t.processed &&
    match m.event
    case NewOrder(_, _, _, _, _, _) => m.event.id == id || Stands(b.Queue(Opposite(m.event.side)), id)
    case CancelOrder(target) => target == id && id in b.locations
    case Skipped => false
  }

  lemma NewLeaves(t: Tables, b: Book, e: Event, id: OrderId)
    requires WellFormed(b) && e.NewOrder? && ValidEvent(e) && ApplyNew(t, b, e).Applied? && id in t.orders
    ensures id in ApplyNew(t, b, e).tables.orders
    ensures e.id != id && !Stands(b.Queue(Opposite(e.side)), id) ==> ApplyNew(t, b, e).tables.orders[id] == t.orders[id]
  {
    hide Loop, WellFormed, SettleAll, ReleaseRemainder, OrdersExist, UpdateOrders, AddResting, Stands;
    var o := Arriving(e);
    var s0 := Start(b, o, FundsOf(t.wallets, o));
    LoopRunnable(s0);
    LoopStands(s0, id);
    assert !Stands([], id) by { NobodyStands(id); }
    var makers := Match(b, o, FundsOf(t.wallets, o)).state.makers;
    assert makers == Loop(s0).makers;
    UpdatesKeys(t.orders, makers);
    if !Stands(makers, id) { UpdatesLeave(t.orders, makers, id); }
  }

  lemma NobodyStands(id: OrderId)
    ensures !Stands([], id)
  {
  }

  lemma CancelLeaves(t: Tables, b: Book, target: OrderId, id: OrderId)
    requires WellFormed(b) && ApplyCancel(t, b, target).Applied? && id in t.orders
    ensures id in ApplyCancel(t, b, target).tables.orders
    ensures target != id || id !in b.locations ==> ApplyCancel(t, b, target).tables.orders[id] == t.orders[id]
  {
    hide WellFormed, Refund;
    if target in b.locations { LookupFinds(b, target); }
  }

  /** An entry leaves every other row as it is. */
  lemma EntryLeaves(t: Tables, b: Book, m: Message, id: OrderId)
    requires WellFormed(b) && ValidEvent(m.event) && ApplyEntry(t, b, m).Applied? && id in t.orders
    ensures id in ApplyEntry(t, b, m).tables.orders
    ensures !MayWrite(t, b, m, id) ==> ApplyEntry(t, b, m).tables.orders[id] == t.orders[id]
  {
    hide ApplyNew, ApplyCancel, WellFormed, Stands;
    if m.entry !in t.processed {
      match m.event
      case NewOrder(_, _, _, _, _, _) => NewLeaves(Mark(t, m.entry), b, m.event, id);
      case CancelOrder(target) => CancelLeaves(Mark(t, m.entry), b, target, id);
      case Skipped =>
    }
  }

  /** Entry `p` of a batch may write the row when its turn comes. */
  predicate MayWriteAt(t: Tables, b: Book, ms: seq<Message>, p: nat, id: OrderId)
    requires WellFormed(b) && ValidMessages(ms) && p < |ms|
  {
    var r := ApplyBatch(t, b, ms[..p]);
    r.Applied? && MayWrite(r.tables, r.book, ms[p], id)
  }

  lemma {:induction false} BatchLeaves(t: Tables, b: Book, ms: seq<Message>, id: OrderId)
    requires WellFormed(b) && ValidMessages(ms) && ApplyBatch(t, b, ms).Applied? && id in t.orders
    ensures id in ApplyBatch(t, b, ms).tables.orders
    ensures (forall p :: 0 <= p < |ms| ==> !MayWriteAt(t, b, ms, p, id)) ==>
      ApplyBatch(t, b, ms).tables.orders[id] == t.orders[id]
    decreases |ms|
  {
    hide ApplyEntry, WellFormed, MayWrite;
    if ms != [] {
      var n := |ms| - 1;
      var pre := ms[..n];
      BatchLeaves(t, b, pre, id);
      EntryLeaves(ApplyBatch(t, b, pre).tables, ApplyBatch(t, b, pre).book, ms[n], id);
      if forall p :: 0 <= p < |ms| ==> !MayWriteAt(t, b, ms, p, id) {
        forall p | 0 <= p < n ensures !MayWriteAt(t, b, pre, p, id) {
          assert pre[..p] == ms[..p] && pre[p] == ms[p];
          assert !MayWriteAt(t, b, ms, p, id);
        }
        assert !MayWriteAt(t, b, ms, n, id);
      }
    }
  }

  /** In any state whatsoever: a step that changes a row, finished or not, commits a batch with an entry that is
      the unprocessed NEW_ORDER of that order or finds the order on the book. */
  lemma StepLeaves(s: System, step: Action, id: OrderId)
    requires Enabled(s, step) && id in s.tables.orders && id in Next(s, step).tables.orders
    requires Next(s, step).tables.orders[id] != s.tables.orders[id]
    ensures (step.Commit? || step.CommitReplyLost?) && WellFormed(s.book) && ValidMessages(Messages(s, step.batch))
    ensures
      var ms := Messages(s, step.batch);
      exists p :: 0 <= p < |ms| && MayWriteAt(s.tables, s.book, ms, p, id)
  {
    hide ApplyBatch, WellFormed, MayWriteAt;
    match step
    case Commit(batch) => BatchLeaves(s.tables, s.book, Messages(s, batch), id);
    case CommitReplyLost(batch) => BatchLeaves(s.tables, s.book, Messages(s, batch), id);
    case PlaceOrder(input, other, _) => PlacedBeside(s, input, other, id);
    case _ =>
  }

  lemma PlacedBeside(s: System, input: PlaceInput, other: OrderId, id: OrderId)
    requires other !in s.tables.orders && id in s.tables.orders && Place(s.tables, s.users, input, other).0.Some?
    ensures Place(s.tables, s.users, input, other).0.value.orders[id] == s.tables.orders[id]
  {
  }

  // ---------- a finished order whose NEW_ORDER comes ----------

  /** A valid order that is done exactly when nothing remains. */
  predicate InProgress(r: OrderRow) {
    r.Valid() && (r.Done() <==> r.Remaining() == 0)
  }

  lemma {:induction false} LoopInProgress(s: State)
    requires Runnable(s) && InProgress(s.incoming)
    ensures InProgress(Loop(s).incoming)
    decreases s.incoming.Remaining(), Debt(s)
  {
    hide WellFormed;
    if Step(s).Some? {
      StepRunnable(s);
      StepDecreases(s);
      var qty := StepQuantity(s);
      assert InProgress(FillRow(s.incoming, qty));
      LoopInProgress(Step(s).value);
    }
  }

  /** The order as the match leaves it. */
  function Matched(t: Tables, b: Book, e: Event): OrderRow
    requires WellFormed(b) && e.NewOrder? && ValidEvent(e) && (IsBuyMarket(Arriving(e)) ==> e.user in t.wallets)
  {
    Match(b, Arriving(e), FundsOf(t.wallets, Arriving(e))).state.incoming
  }

  /** If the NEW_ORDER of a finished order is applied, its row stays as it is if and only if the order comes to its end
      once more, with the same quantity filled. A LIMIT order does so only if it was filled and is filled again. */
  lemma {:induction false} ReappliedKeepsRowIff(t: Tables, b: Book, e: Event)
    requires WellFormed(b) && e.NewOrder? && ValidEvent(e) && ApplyNew(t, b, e).Applied?
    requires e.id in t.orders && t.orders[e.id].Valid() && t.orders[e.id].Done()
      && t.orders[e.id].SameTerms(Arriving(e))
    ensures IsBuyMarket(Arriving(e)) ==> e.user in t.wallets
    ensures e.id in ApplyNew(t, b, e).tables.orders
    ensures ApplyNew(t, b, e).tables.orders[e.id] == t.orders[e.id] <==>
      Matched(t, b, e).Done() && Matched(t, b, e).filled == t.orders[e.id].filled
    ensures e.typ.Limit? ==>
      (Matched(t, b, e).Done() && Matched(t, b, e).filled == t.orders[e.id].filled <==>
        t.orders[e.id].status.Filled? && Matched(t, b, e).Remaining() == 0)
  {
    hide Loop, WellFormed, SettleAll, ReleaseRemainder, OrdersExist, UpdateOrders, AddResting;
    var o := Arriving(e);
    var s0 := Start(b, o, FundsOf(t.wallets, o));
    LoopRunnable(s0);
    LoopInProgress(s0);
    UpdatesKeys(t.orders, Loop(s0).makers);
    UpdatesKeepTerms(t.orders, Loop(s0).makers, e.id);
    var r := Matched(t, b, e);
    assert r.Valid() && r.SameTerms(o);
  }

  lemma {:induction false} UpdatesKeepTerms(orders: OrderTable, es: seq<Entry>, id: OrderId)
    requires id in orders
    ensures id in UpdateOrders(orders, es) && UpdateOrders(orders, es)[id].SameTerms(orders[id])
    decreases |es|
  {
    if es != [] { UpdatesKeepTerms(orders, es[..|es| - 1], id); }
  }
  // ---------- it happens ----------

  function Calmly(k: nat): Round {
    Answered(Committed)
  }

  /** A read fails, and in the recovery nothing does. The rebuild is given these rows. */
  function Recovering(rows: seq<OrderRow>): World {
    World([], Round([], false, true, Nowhere, Committed, Acked), Retry([], rows, 0, 1, Calmly))
  }

  /** Two such turns: the first finds both orders open, the second none. */
  function TwoRecoveries(p: int, q: int): seq<World> {
    [Recovering([Ask(p, q), Bid(p, q)]), Recovering([])]
  }

  /** What the SELL alone makes of the two: it takes the bid, whose own entry is still to come. */
  lemma SellTakesBid(b: Book, p: int, q: int) returns (r: Outcome)
    requires Affordable(p, q) && Crossed(b, p, q)
    ensures r == ApplyEntry(TwoOpen(p, q), b, Both(p, q)[0]) && r.Applied? && Healthy(r.book)
    ensures r.tables.wallets == map[1 := Balances(p * q, 0, 0, 0), 2 := Balances(0, 0, q, 0)]
    ensures r.tables.orders.Keys == {1, 2} && r.tables.orders[1].status.Filled? && r.tables.orders[2].status.Filled?
    ensures r.tables.orders[2] == Bid(p, q).(filled := q, status := Filled) && r.tables.processed == {0}
    ensures !WellFormed(r.book) || ApplyEntry(r.tables, r.book, Both(p, q)[1]).Failed?
  {
    hide ApplyNew, WellFormed, Unique;
    var t, ms := TwoOpen(p, q), Both(p, q);
    MeetsApplied(Mark(t, 0), b, ms[0].event);
    r := ApplyEntry(t, b, ms[0]);
    assert r.tables.wallets[2].reservedBrl == 0;
    MeetsApplied(Mark(r.tables, 1), r.book, ms[1].event);
  }
  /** The first turn commits the SELL. The BUY, next in line, is refused. */
  lemma {:induction false} FirstTurn(cfg: Config, s: LoopState, p: int, q: int) returns (s1: LoopState)
    requires Affordable(p, q) && Stuck(s, p, q) && cfg.size == 1
    ensures TwoRecoveries(p, q)[0].Valid()
    ensures
      var w := TwoRecoveries(p, q)[0];
      Turn(cfg, s, w.fetched, w.fetch, w.retry) == (s1, false)
    ensures s1.Valid() && s1.dirty && s1.created == STAMPS && s1.pending == [Both(p, q)[1]] && SoldOut(s1.tables, p, q)
  {
    hide WellFormed, Unique, ApplyEntry, Crossed;
    var w, rows := TwoRecoveries(p, q)[0], [Ask(p, q), Bid(p, q)];
    var m0, m1 := Both(p, q)[0], Both(p, q)[1];
    BothListed(p, q);
    RebuildCrosses(rows, p, q);
    assert s.pending + [] == s.pending && Both(p, q) == [m0] + [m1];
    MeanwhileNone(cfg.users, s);
    var s0 := Rebuilt(cfg, s, w.retry);
    var r := SellTakesBid(s0.book, p, q);
    OneEntry(s0.tables, s0.book, m0);
    MeanwhileNone(cfg.users, s0);
    assert ReadPending(s0.pending, 1) == [m0];
    var mid := s0.(tables := r.tables, book := r.book, pending := [m1]);
    FirstOfTwo(m0, m1);
    assert Process(cfg, s0, [m0], Calmly(0)) == (mid, false);
    MeanwhileNone(cfg.users, mid);
    OneEntry(mid.tables, mid.book, m1);
    assert ReadPending(mid.pending, 1) == [m1];
    s1 := Process(cfg, mid, [m1], Calmly(1)).0;
    assert Process(cfg, mid, [m1], Calmly(1)) == (s1, true);
    assert Reclaim(cfg, mid, Calmly, 1) == (s1, true);
    assert Reclaim(cfg, s0, Calmly, 0) == (s1, true);
  }

  lemma FirstOfTwo(x: Message, y: Message)
    requires x.entry != y.entry
    ensures Unacked([x] + [y], [x]) == [y]
  {
    assert ([x] + [y])[1..] == [y] && [y][1..] == [];
    assert ConsumerLoop.Names([x], x.entry) by { assert [x][0].entry == x.entry; }
    assert Unacked([y], [x]) == [y];
  }

  /** Both orders are filled, the reservation of the buyer is spent, and its entry is not processed. */
  predicate SoldOut(t: Tables, p: int, q: int) {
    && t.wallets == map[1 := Balances(p * q, 0, 0, 0), 2 := Balances(0, 0, q, 0)]
    && t.orders.Keys == {1, 2} && t.orders[1].status.Filled?
    && t.orders[2] == Bid(p, q).(filled := q, status := Filled) && 1 !in t.processed
  }

  /** The second turn rebuilds an empty book, and on it the BUY is applied: it is open again, with nothing filled. */
  lemma {:induction false} SecondTurn(cfg: Config, s: LoopState, p: int, q: int) returns (s2: LoopState)
    requires Affordable(p, q) && cfg.size == 1 && s.dirty && s.created == STAMPS && s.pending == [Both(p, q)[1]]
      && SoldOut(s.tables, p, q)
    ensures s.Valid() ==>
      var w := TwoRecoveries(p, q)[1];
      w.Valid() && Turn(cfg, s, w.fetched, w.fetch, w.retry) == (s2, false)
    ensures !s2.dirty && s2.pending == [] && s2.tables.wallets == s.tables.wallets
    ensures 2 in s2.tables.orders && s2.tables.orders[2] == Bid(p, q)
  {
    hide WellFormed, Unique, ApplyNew, AddResting;
    var w, m := TwoRecoveries(p, q)[1], Both(p, q)[1];
    assert s.pending + [] == s.pending;
    MeanwhileNone(cfg.users, s);
    EmptyIsHealthy();
    var s0 := s.(book := EMPTY_BOOK, dirty := false);
    RestsUnmatched(Mark(s.tables, 1), EMPTY_BOOK, m.event);
    OneEntry(s0.tables, s0.book, m);
    var r := ApplyEntry(s0.tables, s0.book, m);
    MeanwhileNone(cfg.users, s0);
    assert ReadPending(s0.pending, 1) == [m];
    s2 := s0.(tables := r.tables, book := r.book, pending := []);
    assert Names([m], m.entry) by { assert [m][0].entry == m.entry; }
    assert Unacked([m], [m]) == [] by { assert [m][1..] == []; }
    assert Process(cfg, s0, [m], Calmly(0)) == (s2, false);
    assert Reclaim(cfg, s2, Calmly, 1) == (s2, false);
    assert Reclaim(cfg, s0, Calmly, 0) == (s2, false);
    if s.Valid() {
      assert Rebuilt(cfg, s, w.retry) == s0;
    }
  }
  /** Nothing is fetched, and the listing is the one given. */
  lemma RecoveringMet(cfg: Config, sys: System, s: LoopState, rows: seq<OrderRow>)
    requires s.Valid() && AllRestable(rows) && sys.delivered <= |sys.stream|
    requires Listing(s.tables.orders, s.created, rows)
    ensures Recovering(rows).Valid() && Met(cfg, sys, s, Recovering(rows))
  {
    hide WellFormed, Listing;
    assert s.pending + [] == s.pending;
    MeanwhileNone(cfg.users, s);
  }

  lemma BothMet(cfg: Config, sys: System, s: LoopState, p: int, q: int) returns (s1: LoopState)
    requires Affordable(p, q) && Stuck(s, p, q) && cfg.size == 1
    requires cfg.users == sys.users && Matches(sys, s) && sys.delivered <= |sys.stream|
    ensures ValidWorlds(TwoRecoveries(p, q)) && AllMet(cfg, sys, s, TwoRecoveries(p, q))
    ensures
      var w := TwoRecoveries(p, q)[0];
      Turn(cfg, s, w.fetched, w.fetch, w.retry) == (s1, false)
    ensures s1.Valid() && s1.dirty && s1.created == STAMPS && s1.pending == [Both(p, q)[1]] && SoldOut(s1.tables, p, q)
  {
    hide Turn, WellFormed, Matches, Met, Listing, SoldOut, To, TurnSteps;
    var ws := TwoRecoveries(p, q);
    s1 := FirstTurn(cfg, s, p, q);
    BothListed(p, q);
    RecoveringMet(cfg, sys, s, [Ask(p, q), Bid(p, q)]);
    var mid := ReadFailureTurn(cfg, sys, s, ws[0]);
    NoneListed(s1.tables, p, q);
    RecoveringMet(cfg, mid, s1, []);
    AllMetTwo(cfg, sys, s, ws, mid, s1);
  }

  lemma NoneListed(t: Tables, p: int, q: int)
    requires SoldOut(t, p, q)
    ensures Listing(t.orders, STAMPS, [])
  {
  }

  /** An order that is filled can be open again. A disciplined run leaves the matcher with two orders that cross, both
      entries pending and the book dirty. The first turn after it, with a batch size of one, fills both orders. The
      second, which rebuilds an empty book, applies the BUY: its row is open again with nothing filled, and its owner
      has nothing reserved. */
  lemma {:induction false} FinishedOrderReopens(p: int, q: int)
    returns (past: seq<Action>, sys: System, s: LoopState)
    requires Affordable(p, q)
    ensures Initial(TwoFunded(p, q)) && DisciplinedRun(TwoFunded(p, q), past)
      && After(TwoFunded(p, q), past) == Some(sys)
    ensures Matches(sys, s) && Stuck(s, p, q)
    ensures
      var s0, cfg, ws := TwoFunded(p, q), Config({1, 2}, 1), TwoRecoveries(p, q);
      && cfg.users == sys.users && ValidWorlds(ws) && AllMet(cfg, sys, s, ws)
      && var one, two := past + TurnSteps(cfg, sys, s, ws[0]), past + TurnsSteps(cfg, sys, s, ws);
      && one <= two && After(s0, one).Some? && After(s0, two).Some?
      && var t1, t2 := After(s0, one).value.tables, After(s0, two).value.tables;
      && 2 in t1.orders && t1.orders[2] == Bid(p, q).(filled := q, status := Filled)
      && 2 in t2.orders && t2.orders[2] == Bid(p, q)
      && t2.wallets == t1.wallets && 2 in t2.wallets && t2.wallets[2].reservedBrl == 0
  {
    hide After, DisciplinedRun, Turns, TurnsSteps, TurnSteps, Leads, AllMet, Turn, WellFormed, Matches, Stuck, To;
    var s0, cfg, ws := TwoFunded(p, q), Config({1, 2}, 1), TwoRecoveries(p, q);
    past, sys, s := GetsStuck(p, q);
    RunsOnStream(s0, past, sys);
    var s1 := BothMet(cfg, sys, s, p, q);
    var s2 := SecondTurn(cfg, s1, p, q);
    TwoInTurn(cfg, s, ws);
    FirstMet(cfg, sys, s, ws);
    var mid := TurnIsRun(cfg, sys, s, ws[0]);
    var last := TurnsAreRun(cfg, sys, s, ws);
    LeadsAfter(sys, TurnSteps(cfg, sys, s, ws[0]), mid);
    LeadsAfter(sys, TurnsSteps(cfg, sys, s, ws), last);
    AfterConcat(s0, past, TurnSteps(cfg, sys, s, ws[0]));
    AfterConcat(s0, past, TurnsSteps(cfg, sys, s, ws));
    FirstSteps(cfg, sys, s, ws);
    SameTables(mid, s1);
    SameTables(last, s2);
  }

  lemma {:induction false} RunsOnStream(s0: System, past: seq<Action>, sys: System)
    requires Initial(s0) && After(s0, past) == Some(sys)
    ensures sys.delivered <= |sys.stream|
  {
    EveryRunIsSafe(s0, past);
  }

  lemma FirstMet(cfg: Config, sys: System, s: LoopState, ws: seq<World>)
    requires s.Valid() && ValidWorlds(ws) && ws != [] && AllMet(cfg, sys, s, ws)
    ensures ws[0].Valid() && Met(cfg, sys, s, ws[0])
  {
  }

  lemma FirstSteps(cfg: Config, sys: System, s: LoopState, ws: seq<World>)
    requires s.Valid() && ValidWorlds(ws) && ws != []
    ensures ws[0].Valid() && TurnSteps(cfg, sys, s, ws[0]) <= TurnsSteps(cfg, sys, s, ws)
  {
    hide TurnSteps, Turn, WellFormed;
  }

  lemma SameTables(sys: System, s: LoopState)
    requires Matches(sys, s)
    ensures sys.tables == s.tables
  {
  }
}
