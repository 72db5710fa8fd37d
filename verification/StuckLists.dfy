/** Pending lists that are never drained: which they are, and a run that ends with one. */
module StuckLists {
  import opened Base
  import opened Orders
  import opened PriorityBook
  import opened PriceTime
  import opened BookContents
  import opened Settlement
  import opened Terms
  import opened Placement
  import opened Recovery
  import opened Exchange
  import opened Safety
  import opened CleanRuns
  import opened Refusals
  import opened Boundaries
  import opened Histories
  import opened Matchers
  import opened ConsumerLoop
  import opened LoopRuns
  import opened DirtyRecovery
  import opened DirtyRuns

  // ---------- while nothing new comes in ----------

  /** Nothing new comes in. */
  ghost predicate Quiet(w: World) {
    w.fetched == [] && w.fetch.others == [] && w.retry.others == [] && forall k: nat :: w.retry.rounds(k).others == []
  }

  /** The rebuilds of these turns list the open orders. */
  predicate ListsAlways(cfg: Config, s: LoopState, ws: seq<World>)
    requires s.Valid() && ValidWorlds(ws)
    decreases |ws|
  {
    ws == [] ||
    (FirstWorld(ws);
     ListsOpen(cfg, FailedTurn(cfg, s, ws[0]), ws[0].retry) &&
     var (s', err) := Turn(cfg, s, ws[0].fetched, ws[0].fetch, ws[0].retry);
     (err || ListsAlways(cfg, s', ws[1..])))
  }

  /** Turns in which nothing new comes in, whatever else happens in them. */
  ghost predicate QuietTurns(cfg: Config, s: LoopState, ws: seq<World>)
    requires s.Valid()
  {
    ValidWorlds(ws) && ListsAlways(cfg, s, ws) && forall i :: 0 <= i < |ws| ==> Quiet(ws[i])
  }

  /** A listing of the open orders that a rebuild may be given. */
  predicate Lists(s: LoopState, rows: seq<OrderRow>) {
    Listing(s.tables.orders, s.created, rows) && AllRestable(rows)
  }

  /** The first batch of a drain fails on the book rebuilt from these rows. */
  predicate FailsOn(cfg: Config, s: LoopState, rows: seq<OrderRow>)
    requires s.Valid() && AllRestable(rows)
  {
    RecoverWellFormed(rows);
    FirstIsValid(cfg, s);
    ApplyBatch(s.tables, Recover(rows), ReadPending(s.pending, cfg.size)).Failed?
  }

  lemma FirstIsValid(cfg: Config, s: LoopState)
    requires s.Valid()
    ensures ValidMessages(ReadPending(s.pending, cfg.size))
  {
  }

  /** It fails on every book that a rebuild can give. */
  ghost predicate Hopeless(cfg: Config, s: LoopState)
    requires s.Valid()
  {
    forall rows :: Lists(s, rows) ==> FailsOn(cfg, s, rows)
  }

  /** The book is known to be dirty, or it has been rebuilt and not used. */
  ghost predicate Waiting(s: LoopState) {
    s.dirty || exists rows :: Lists(s, rows) && s.book == Recover(rows)
  }

  /** The same work is still to be done. */
  predicate SameWork(s: LoopState, s': LoopState) {
    s'.tables == s.tables && s'.created == s.created && s'.pending == s.pending
  }

  lemma SameHopes(cfg: Config, s: LoopState, s': LoopState)
    requires s.Valid() && s'.Valid() && SameWork(s, s')
    ensures Hopeless(cfg, s') <==> Hopeless(cfg, s)
  {
    hide Listing, WellFormed, ApplyBatch;
    assert forall rows :: Lists(s', rows) <==> Lists(s, rows);
    assert forall rows :: AllRestable(rows) ==> (FailsOn(cfg, s', rows) <==> FailsOn(cfg, s, rows));
  }

  lemma DrainSticks(cfg: Config, s: LoopState, rounds: nat -> Round)
    requires s.Valid() && Hopeless(cfg, s) && Waiting(s) && !s.dirty && s.pending != [] && rounds(0).others == []
    ensures
      var s' := Reclaim(cfg, s, rounds, 0).0;
      SameWork(s, s') && Waiting(s')
  {
    hide ApplyBatch, WellFormed, Listing, Recover;
    MeanwhileNone(cfg.users, s);
    var rows :| Lists(s, rows) && s.book == Recover(rows);
    assert FailsOn(cfg, s, rows);
    if !Runs(rounds(0)) {
      assert Reclaim(cfg, s, rounds, 0).0 == s;
    } else {
      var ms := ReadPending(s.pending, cfg.size);
      assert Process(cfg, s, ms, rounds(0)).1;
      assert Reclaim(cfg, s, rounds, 0).0 == Process(cfg, s, ms, rounds(0)).0;
    }
  }

  lemma RebuiltWaits(cfg: Config, s: LoopState, r: Retry)
    requires s.Valid() && Waiting(s) && AllRestable(r.rows) && ListsOpen(cfg, s, r) && r.others == []
    requires !(s.dirty && r.patience <= r.attempts)
    ensures SameWork(s, Rebuilt(cfg, s, r)) && Waiting(Rebuilt(cfg, s, r)) && !Rebuilt(cfg, s, r).dirty
  {
    hide WellFormed, Listing, Recover;
    MeanwhileNone(cfg.users, s);
    var s' := Rebuilt(cfg, s, r);
    if s.dirty {
      assert Lists(s', r.rows) && s'.book == Recover(r.rows);
    } else {
      var rows :| Lists(s, rows) && s.book == Recover(rows);
      assert Lists(s', rows) && s'.book == Recover(rows);
    }
  }

  lemma RecoverySticks(cfg: Config, s: LoopState, r: Retry)
    requires s.Valid() && Hopeless(cfg, s) && Waiting(s) && s.pending != [] && AllRestable(r.rows)
      && ListsOpen(cfg, s, r)
    requires r.others == [] && forall k: nat :: r.rounds(k).others == []
    ensures
      var s' := RecoverAfterFailure(cfg, s, r).0;
      SameWork(s, s') && Waiting(s')
  {
    hide WellFormed, Reclaim, Listing, Hopeless, Rebuilt, Waiting;
    MeanwhileNone(cfg.users, s);
    if !(s.dirty && r.patience <= r.attempts) {
      RebuiltWaits(cfg, s, r);
      SameHopes(cfg, s, Rebuilt(cfg, s, r));
      DrainSticks(cfg, Rebuilt(cfg, s, r), r.rounds);
    }
  }

  /** Then no number of turns, whatever fails in them, changes anything. */
  lemma {:induction false} HopelessSticks(cfg: Config, s: LoopState, ws: seq<World>)
    requires s.Valid() && Hopeless(cfg, s) && Waiting(s) && s.pending != [] && QuietTurns(cfg, s, ws)
    ensures SameWork(s, Turns(cfg, s, ws).0)
    decreases |ws|
  {
    hide WellFormed, RecoverAfterFailure, ListsOpen, Listing, Hopeless, Waiting;
    if ws != [] {
      FirstWorld(ws);
      var w := ws[0];
      assert Quiet(w);
      assert s.pending + [] == s.pending;
      if w.fetch.readFails && !w.fetch.cancelled { RecoverySticks(cfg, s, w.retry); }
      var (s', err) := Turn(cfg, s, w.fetched, w.fetch, w.retry);
      if !err {
        assert forall i :: 0 <= i < |ws| - 1 ==> ws[1..][i] == ws[i + 1];
        SameHopes(cfg, s, s');
        HopelessSticks(cfg, s', ws[1..]);
      }
    }
  }

  // ---------- and if there is hope ----------

  /** The drain does its first batch and is then told to stop. */
  function OneBatch(k: nat): Round {
    Round([], k > 0, false, Nowhere, Committed, Acked)
  }

  /** A read fails, and the recovery is given these rows. */
  function Retrying(rows: seq<OrderRow>): World {
    World([], Round([], false, true, Nowhere, Committed, Acked), Retry([], rows, 0, 1, OneBatch))
  }

  lemma FirstBatchDrains(cfg: Config, s: LoopState)
    requires s.Valid() && DistinctEntries(s.pending) && s.pending != []
    requires Applying(s, ReadPending(s.pending, cfg.size)).Some?
    ensures Reclaim(cfg, s, OneBatch, 0).0.pending == s.pending[|ReadPending(s.pending, cfg.size)|..]
  {
    hide ApplyBatch, WellFormed;
    MeanwhileNone(cfg.users, s);
    ReadThenAck(s.pending, cfg.size);
    var ms := ReadPending(s.pending, cfg.size);
    assert !Process(cfg, s, ms, OneBatch(0)).1;
    var s' := Process(cfg, s, ms, OneBatch(0)).0;
    assert Reclaim(cfg, s', OneBatch, 1).0 == s';
  }

  lemma {:induction false} HopeDrains(cfg: Config, s: LoopState, rows: seq<OrderRow>)
    requires s.Valid() && s.dirty && DistinctEntries(s.pending) && s.pending != [] && Lists(s, rows)
    requires !FailsOn(cfg, s, rows)
    ensures QuietTurns(cfg, s, [Retrying(rows)])
    ensures Turns(cfg, s, [Retrying(rows)]).0.pending == s.pending[|ReadPending(s.pending, cfg.size)|..]
  {
    hide WellFormed, Reclaim, Listing, ApplyBatch, Recover;
    var w := Retrying(rows);
    assert s.pending + [] == s.pending;
    MeanwhileNone(cfg.users, s);
    var s0 := Rebuilt(cfg, s, w.retry);
    FirstBatchDrains(cfg, s0);
    var (s', err) := Turn(cfg, s, w.fetched, w.fetch, w.retry);
    assert [w][1..] == [];
    assert ListsAlways(cfg, s', []) && Turns(cfg, s', []) == (s', false);
    assert w.Valid() && Quiet(w) && ListsOpen(cfg, FailedTurn(cfg, s, w), w.retry);
  }

  /** Nothing of the list is ever drained, as long as nothing new comes in and whatever fails or does not, if and
      only if its first batch fails on every book that a rebuild can give. */
  lemma {:induction false} StuckIff(cfg: Config, s: LoopState)
    requires s.Valid() && s.dirty && DistinctEntries(s.pending) && s.pending != []
    ensures (forall ws :: QuietTurns(cfg, s, ws) ==> Turns(cfg, s, ws).0.pending == s.pending) <==> Hopeless(cfg, s)
  {
    hide WellFormed, ListsAlways, FailsOn, Turns, Quiet, ValidWorlds;
    if Hopeless(cfg, s) {
      forall ws | QuietTurns(cfg, s, ws) ensures Turns(cfg, s, ws).0.pending == s.pending {
        HopelessSticks(cfg, s, ws);
      }
    } else {
      var rows :| Lists(s, rows) && !FailsOn(cfg, s, rows);
      HopeDrains(cfg, s, rows);
      var n := |ReadPending(s.pending, cfg.size)|;
      assert |s.pending[n..]| < |s.pending|;
    }
  }
  /** An entry of the first batch takes what is not there when its turn comes on the book rebuilt from these rows. */
  predicate OverdrawnOn(cfg: Config, s: LoopState, rows: seq<OrderRow>)
    requires s.Valid() && AllRestable(rows)
  {
    RecoverWellFormed(rows);
    FirstIsValid(cfg, s);
    var ms := ReadPending(s.pending, cfg.size);
    exists p :: 0 <= p < |ms| && OverdrawnAt(s.tables, Recover(rows), ms, p)
  }

  /** In every run: a list is stuck for good if and only if on every book that a rebuild can give an entry of its
      first batch takes what is not there. */
  lemma {:induction false} StuckForeverIff(s0: System, past: seq<Action>, cfg: Config, s: LoopState)
    requires Initial(s0) && After(s0, past).Some? && Matches(After(s0, past).value, s)
    requires s.Valid() && s.dirty && DistinctEntries(s.pending) && s.pending != []
    ensures (forall ws :: QuietTurns(cfg, s, ws) ==> Turns(cfg, s, ws).0.pending == s.pending) <==>
      forall rows :: Lists(s, rows) ==> OverdrawnOn(cfg, s, rows)
  {
    hide WellFormed, QuietTurns, Turns, FailsOn, OverdrawnOn, Matches, Listing;
    StuckIff(cfg, s);
    forall rows | Lists(s, rows) ensures FailsOn(cfg, s, rows) <==> OverdrawnOn(cfg, s, rows) {
      RefusedOn(s0, past, cfg, s, rows);
    }
  }

  lemma {:induction false} RefusedOn(s0: System, past: seq<Action>, cfg: Config, s: LoopState, rows: seq<OrderRow>)
    requires Initial(s0) && After(s0, past).Some? && Matches(After(s0, past).value, s) && s.Valid() && Lists(s, rows)
    ensures FailsOn(cfg, s, rows) <==> OverdrawnOn(cfg, s, rows)
  {
    hide ApplyBatch, WellFormed, OverdrawnAt, Owned, BookKnown, EventKnown, Recover;
    var sys := After(s0, past).value;
    var ms := ReadPending(s.pending, cfg.size);
    EveryRunIsSafe(s0, past);
    RunIsKnown(s0, past);
    PartFromStream(sys, s.pending, ms);
    KnownMessages(sys, ms);
    RecoverKnown(s.tables.orders, rows);
    RecoverWellFormed(rows);
    FirstIsValid(cfg, s);
    BatchRefusedIff(s.tables, Recover(rows), ms);
  }

  // ---------- two orders that cross ----------

  /** The book a rebuild makes of the two: one bid and one ask at one price. */
  predicate Crossed(b: Book, p: int, q: int) {
    Healthy(b) && |b.asks| == 1 && b.asks[0].row == Ask(p, q) && |b.bids| == 1 && b.bids[0].row == Bid(p, q)
  }

  /** Both entries are pending and unprocessed, and the book is dirty. */
  predicate Stuck(s: LoopState, p: int, q: int) {
    s.tables == TwoOpen(p, q) && s.created == STAMPS && s.pending == Both(p, q) && s.Valid() && s.dirty
  }

  /** The listing has the two rows, the older first. */
  lemma ListsBoth(rows: seq<OrderRow>, p: int, q: int)
    requires Listing(TwoOpen(p, q).orders, STAMPS, rows)
    ensures rows == [Ask(p, q), Bid(p, q)]
  {
    hide Listing;
    var i, j := ListsEach(rows, p, q);
    AtMostTwo(rows);
  }

  lemma ListsEach(rows: seq<OrderRow>, p: int, q: int) returns (i: nat, j: nat)
    requires Listing(TwoOpen(p, q).orders, STAMPS, rows)
    ensures i < j < |rows| && rows[i] == Ask(p, q) && rows[j] == Bid(p, q)
    ensures forall k :: 0 <= k < |rows| ==> rows[k].id == 1 || rows[k].id == 2
    ensures forall k, l :: 0 <= k < l < |rows| ==> rows[k].id != rows[l].id
  {
    var orders := TwoOpen(p, q).orders;
    assert orders[1] in rows && orders[2] in rows;
    i :| 0 <= i < |rows| && rows[i] == orders[1];
    j :| 0 <= j < |rows| && rows[j] == orders[2];
    forall k | 0 <= k < |rows| ensures rows[k].id == 1 || rows[k].id == 2 {
      assert rows[k].id in orders;
    }
  }

  function IdAt(rows: seq<OrderRow>, k: nat): nat {
    if k < |rows| then rows[k].id else 0
  }

  lemma AtMostTwo(rows: seq<OrderRow>)
    requires forall k :: 0 <= k < |rows| ==> rows[k].id == 1 || rows[k].id == 2
    requires forall k, l :: 0 <= k < l < |rows| ==> rows[k].id != rows[l].id
    ensures |rows| <= 2
  {
    var x, y, z := IdAt(rows, 0), IdAt(rows, 1), IdAt(rows, 2);
  }

  lemma RebuildCrosses(rows: seq<OrderRow>, p: int, q: int)
    requires Affordable(p, q) && rows == [Ask(p, q), Bid(p, q)]
    ensures Crossed(Recover(rows), p, q)
  {
    hide WellFormed, Unique;
    EmptyIsHealthy();
    assert rows[..1] == [Ask(p, q)] && rows[..1][..0] == [];
    var b := AddResting(EMPTY_BOOK, Ask(p, q));
    OneAsk(EMPTY_BOOK, Ask(p, q));
    assert Recover(rows[..1][..0]) == EMPTY_BOOK;
    assert Recover(rows[..1]) == b;
    AddRestingHealthy(b, Bid(p, q));
    assert Recover(rows) == AddResting(b, Bid(p, q));
  }

  /** On such a book the SELL takes the bid, and the BUY then meets the copy of the SELL: its reservation is used
      up already. */
  lemma CrossedFails(b: Book, p: int, q: int)
    requires Affordable(p, q) && Crossed(b, p, q)
    ensures ValidMessages(Both(p, q)) && ApplyBatch(TwoOpen(p, q), b, Both(p, q)).Failed?
  {
    hide ApplyNew, ApplyBatch, WellFormed, Unique, FillRow;
    var t, ms := TwoOpen(p, q), Both(p, q);
    MeetsApplied(Mark(t, 0), b, ms[0].event);
    var r := ApplyEntry(t, b, ms[0]);
    assert r.tables.wallets[2].reservedBrl == 0;
    MeetsApplied(Mark(r.tables, 1), r.book, ms[1].event);
    assert ApplyEntry(r.tables, r.book, ms[1]).Failed?;
    TwoEntries(t, b, ms);
  }

  /** With the SELL alone in the batch it goes through. */
  lemma CrossedApplies(b: Book, p: int, q: int)
    requires Affordable(p, q) && Crossed(b, p, q)
    ensures ValidMessages(Both(p, q)[..1]) && ApplyBatch(TwoOpen(p, q), b, Both(p, q)[..1]).Applied?
  {
    hide ApplyNew, WellFormed, Unique, FillRow;
    var t, m := TwoOpen(p, q), Both(p, q)[0];
    MeetsApplied(Mark(t, 0), b, m.event);
    OneEntry(t, b, m);
    assert Both(p, q)[..1] == [m];
  }

  lemma BothListed(p: int, q: int)
    requires Affordable(p, q)
    ensures Listing(TwoOpen(p, q).orders, STAMPS, [Ask(p, q), Bid(p, q)]) && AllRestable([Ask(p, q), Bid(p, q)])
  {
    var rows := [Ask(p, q), Bid(p, q)];
    assert rows[0] == Ask(p, q) && rows[1] == Bid(p, q);
  }

  /** Two orders of one price and quantity that cross, both still to be seen by the matcher, are stuck for good
      exactly when both entries are read in one batch: the rebuilt book has both, the SELL takes the bid, and
      the BUY meets the copy of the SELL with its reservation used up. */
  lemma {:induction false} CrossingOrdersStick(cfg: Config, s: LoopState, p: int, q: int)
    requires Affordable(p, q) && Stuck(s, p, q)
    ensures DistinctEntries(s.pending)
    ensures (forall ws :: QuietTurns(cfg, s, ws) ==> Turns(cfg, s, ws).0.pending == s.pending) <==> cfg.size != 1
  {
    hide WellFormed, QuietTurns, Turns, Crossed, Listing, ApplyBatch, Recover;
    StuckIff(cfg, s);
    var rows := [Ask(p, q), Bid(p, q)];
    BothListed(p, q);
    RebuildCrosses(rows, p, q);
    if cfg.size != 1 {
      forall rs | Lists(s, rs) ensures FailsOn(cfg, s, rs) {
        ListsBoth(rs, p, q);
        CrossedFails(Recover(rs), p, q);
      }
    } else {
      CrossedApplies(Recover(rows), p, q);
      assert Lists(s, rows) && !FailsOn(cfg, s, rows);
    }
  }

  /** A disciplined run that leads there: the connection fails under the batch of the two. */
  lemma {:induction false} GetsStuck(p: int, q: int) returns (past: seq<Action>, sys: System, s: LoopState)
    requires Affordable(p, q)
    ensures Initial(TwoFunded(p, q)) && DisciplinedRun(TwoFunded(p, q), past)
      && After(TwoFunded(p, q), past) == Some(sys)
    ensures Matches(sys, s) && Stuck(s, p, q) && s.Valid() && sys.users == {1, 2}
  {
    hide After, DisciplinedRun, Matches, Stuck, Next, Enabled;
    var steps, sys0 := OnTheWay(p, q, 2);
    Broken(sys0, p, q);
    var a := Abort([0, 1], 0);
    StepOn(TwoFunded(p, q), steps, sys0, a);
    past, sys := steps + [a], Next(sys0, a);
    s := LoopState(TwoOpen(p, q), STAMPS, EMPTY_BOOK, true, Both(p, q));
  }

  lemma Broken(sys: System, p: int, q: int)
    requires Affordable(p, q) && sys.tables == TwoOpen(p, q) && sys.created == STAMPS && sys.book == EMPTY_BOOK
      && sys.control.Idle?
    requires sys.outbox == [OutboxRow(PlacedEvent(Ask(p, q)), true), OutboxRow(PlacedEvent(Bid(p, q)), true)]
    requires sys.stream == [0, 1] && sys.pending == Fresh(0, 2)
    ensures Enabled(sys, Abort([0, 1], 0))
    ensures
      var s := LoopState(TwoOpen(p, q), STAMPS, EMPTY_BOOK, true, Both(p, q));
      Matches(Next(sys, Abort([0, 1], 0)), s) && Stuck(s, p, q) && Next(sys, Abort([0, 1], 0)).users == sys.users
  {
    hide ApplyBatch, WellFormed;
    EmptyIsHealthy();
    assert [0, 1][..0] == [] && Messages(sys, []) == [];
    EmptyBatch(sys.tables, sys.book);
    var ms := Both(p, q);
    assert Messages(sys, [0, 1]) == ms;
    assert EntriesOf(ms) == {0, 1} by { assert ms[0].entry == 0 && ms[1].entry == 1; }
  }
}
