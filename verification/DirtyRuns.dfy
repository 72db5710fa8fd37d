/** What comes of a recovery that goes on with a dirty book, at the end of a real run: a trade with an order
    whose entry is still pending. */
module DirtyRuns {
  import opened Base
  import opened Orders
  import opened Wallets
  import opened PriorityBook
  import opened Matching
  import opened PriceTime
  import opened Settlement
  import opened Consistency
  import opened Placement
  import opened Recovery
  import opened Exchange
  import opened Safety
  import opened CleanRuns
  import opened Boundaries
  import opened Histories
  import opened Matchers
  import opened ConsumerLoop
  import opened LoopRuns

  // ---------- two orders that meet, on their way to the matcher ----------

  function Ask(p: int, q: int): OrderRow {
    LimitRow(1, 1, Sell, p, q)
  }

  function Bid(p: int, q: int): OrderRow {
    LimitRow(2, 2, Buy, p, q)
  }

  function Both(p: int, q: int): seq<Message> {
    [Message(0, PlacedEvent(Ask(p, q))), Message(1, PlacedEvent(Bid(p, q)))]
  }

  /** The tables with both placed and neither seen. */
  function TwoOpen(p: int, q: int): Tables {
    Tables(map[1 := Balances(0, 0, 0, q), 2 := Balances(0, p * q, 0, 0)], map[1 := Ask(p, q), 2 := Bid(p, q)], [], {},
      [], {})
  }

  const STAMPS: map<OrderId, int> := map[1 := 0, 2 := 1]

  /** A seller with `q` units and a buyer with the money for them. */
  function TwoFunded(p: int, q: int): System {
    Opening(map[1 := Balances(0, 0, q, 0), 2 := Balances(p * q, 0, 0, 0)])
  }

  predicate Affordable(p: int, q: int) {
    0 < p && 0 < q && 0 < p * q <= MAX_INT64
  }

  /** Both placed, published, and the first `n` of them delivered. */
  lemma OnTheWay(p: int, q: int, n: nat) returns (steps: seq<Action>, sys: System)
    requires Affordable(p, q) && n <= 2
    ensures Initial(TwoFunded(p, q)) && After(TwoFunded(p, q), steps) == Some(sys)
      && DisciplinedRun(TwoFunded(p, q), steps)
    ensures sys.tables == TwoOpen(p, q) && sys.created == STAMPS && sys.users == {1, 2}
    ensures sys.book == EMPTY_BOOK && !sys.dirty && sys.control.Idle?
    ensures sys.outbox == [OutboxRow(PlacedEvent(Ask(p, q)), true), OutboxRow(PlacedEvent(Bid(p, q)), true)]
    ensures sys.stream == [0, 1] && sys.delivered == n && sys.pending == Fresh(0, n)
  {
    hide Place, After, DisciplinedRun, Listing, Recover, ApplyBatch;
    var s0 := TwoFunded(p, q);
    var past, s2 := BothPlaced(p, q);
    StepOn(s0, past, s2, Publish(0));
    var s3 := Next(s2, Publish(0));
    StepOn(s0, past + [Publish(0)], s3, Publish(1));
    var s4 := Next(s3, Publish(1));
    StepOn(s0, past + [Publish(0)] + [Publish(1)], s4, Deliver(n));
    steps := past + [Publish(0)] + [Publish(1)] + [Deliver(n)];
    sys := Next(s4, Deliver(n));
  }

  lemma BothPlaced(p: int, q: int) returns (steps: seq<Action>, sys: System)
    requires Affordable(p, q)
    ensures After(TwoFunded(p, q), steps) == Some(sys) && DisciplinedRun(TwoFunded(p, q), steps)
    ensures sys.tables == TwoOpen(p, q) && sys.created == STAMPS
    ensures sys == TwoFunded(p, q).(tables := sys.tables, created := sys.created, outbox := sys.outbox)
    ensures sys.outbox == [OutboxRow(PlacedEvent(Ask(p, q)), false), OutboxRow(PlacedEvent(Bid(p, q)), false)]
  {
    hide After, DisciplinedRun, Enabled, Next;
    var s0 := TwoFunded(p, q);
    var a1, a2 := PlaceOrder(Limited(1, Sell, p, q), 1, 0), PlaceOrder(Limited(2, Buy, p, q), 2, 1);
    Nothing(s0);
    var s1 := AskPlaced(p, q);
    StepOn(s0, [], s0, a1);
    sys := BidPlaced(s1, p, q);
    StepOn(s0, [] + [a1], s1, a2);
    steps := [] + [a1] + [a2];
  }

  lemma AskPlaced(p: int, q: int) returns (s: System)
    requires Affordable(p, q)
    ensures Enabled(TwoFunded(p, q), PlaceOrder(Limited(1, Sell, p, q), 1, 0))
    ensures s == Next(TwoFunded(p, q), PlaceOrder(Limited(1, Sell, p, q), 1, 0))
    ensures s == TwoFunded(p, q).(tables := s.tables, created := map[1 := 0],
      outbox := [OutboxRow(PlacedEvent(Ask(p, q)), false)])
    ensures s.tables ==
      Tables(map[1 := Balances(0, 0, 0, q), 2 := Balances(p * q, 0, 0, 0)], map[1 := Ask(p, q)], [], {}, [], {})
  {
    hide Enabled, Next;
    LimitPlaced(TwoFunded(p, q), 1, 1, Sell, p, q, 0);
    s := Next(TwoFunded(p, q), PlaceOrder(Limited(1, Sell, p, q), 1, 0));
  }

  lemma BidPlaced(s: System, p: int, q: int) returns (s': System)
    requires Affordable(p, q) && s.users == {1, 2} && s.created == map[1 := 0]
    requires s.tables ==
      Tables(map[1 := Balances(0, 0, 0, q), 2 := Balances(p * q, 0, 0, 0)], map[1 := Ask(p, q)], [], {}, [], {})
    ensures Enabled(s, PlaceOrder(Limited(2, Buy, p, q), 2, 1))
      && s' == Next(s, PlaceOrder(Limited(2, Buy, p, q), 2, 1))
    ensures s' == s.(tables := TwoOpen(p, q), created := STAMPS,
      outbox := s.outbox + [OutboxRow(PlacedEvent(Bid(p, q)), false)])
  {
    hide Enabled, Next;
    LimitPlaced(s, 2, 2, Buy, p, q, 1);
    s' := Next(s, PlaceOrder(Limited(2, Buy, p, q), 2, 1));
  }

  // ---------- a trade with what is left over ----------

  /** A round whose COMMIT is answered as given, and in which nothing else happens. */
  function Answered(reply: CommitReply): Round {
    Round([], false, false, Nowhere, reply, Acked)
  }

  /** Two turns: the read of new entries fails, and the COMMIT of the drain that follows is refused; then the BUY
      is fetched, and its COMMIT is confirmed. */
  function TwoTurns(p: int, q: int): seq<World> {
    [World([], Round([], false, true, Nowhere, Committed, Acked), Retry([], [], 0, 1, (k: nat) => Answered(Refused))),
     World([Both(p, q)[1]], Answered(Committed), Retry([], [], 0, 0, (k: nat) => Answered(Refused)))]
  }

  /** The SELL is applied in a drain whose COMMIT is refused, and recovery passes over that. */
  lemma RefusedDrain(cfg: Config, s: LoopState, m: Message, r: Retry)
    requires s.book == EMPTY_BOOK && !s.dirty && s.pending == [m] && m.entry !in s.tables.processed
    requires ValidEvent(m.event) && m.event.NewOrder? && m.event.typ.Limit? && AllRestable(r.rows)
    requires r.others == [] && r.rounds(0) == Answered(Refused)
    ensures s.Valid()
    ensures RecoverAfterFailure(cfg, s, r) ==
      (s.(book := AddResting(EMPTY_BOOK, Arriving(m.event)), dirty := true), false)
  {
    hide ApplyNew, AddResting, WellFormed, Unique;
    EmptyIsHealthy();
    RestsUnmatched(Mark(s.tables, m.entry), EMPTY_BOOK, m.event);
    OneEntry(s.tables, EMPTY_BOOK, m);
    MeanwhileNone(cfg.users, s);
    assert ReadPending(s.pending, cfg.size) == s.pending;
  }

  /** The next turn commits a trade of the BUY with the order left on the book, whose own entry is still
      pending. The tables are then no tables of a disciplined run. */
  lemma TradesWithLeftover(cfg: Config, s: LoopState, p: int, q: int, r: Retry)
    requires Affordable(p, q) && s.tables == TwoOpen(p, q) && s.book == AddResting(EMPTY_BOOK, Ask(p, q)) && s.dirty
    requires s.pending == Both(p, q)[..1] && AllRestable(r.rows)
    ensures s.Valid() && ValidMessages(Both(p, q))
    ensures
      var (s', err) := Turn(cfg, s, [Both(p, q)[1]], Answered(Committed), r);
      && !err && s'.dirty && s'.pending == s.pending && 0 !in s'.tables.processed
      && s'.tables.trades == [TradeOf(Bid(p, q), Ask(p, q), p, q)] && !TablesOk(s'.tables)
  {
    hide ApplyNew, AddResting, WellFormed, Unique, FillRow, TablesOk;
    EmptyIsHealthy();
    OneAsk(EMPTY_BOOK, Ask(p, q));
    var m := Both(p, q)[1];
    MeetsApplied(Mark(s.tables, 1), s.book, m.event);
    OneEntry(s.tables, s.book, m);
    var s1 := s.(pending := s.pending + [m]);
    MeanwhileNone(cfg.users, s1);
    OneOfTwo(Both(p, q)[0], m);
    var t' := ApplyNew(Mark(s.tables, 1), s.book, m.event).tables;
    FilledUnseen(s.tables, t', Ask(p, q), Bid(p, q));
    assert ApplyEntry(s.tables, s.book, m).tables == t';
  }

  lemma OneOfTwo(x: Message, y: Message)
    requires x.entry != y.entry
    ensures Unacked([x] + [y], [y]) == [x]
  {
    assert ([x] + [y])[1..] == [y] && [y][1..] == [];
    assert Names([y], y.entry) by { assert [y][0].entry == y.entry; }
    assert Unacked([y], [y]) == [];
  }

  lemma FilledUnseen(t: Tables, t': Tables, ask: OrderRow, bid: OrderRow)
    requires ask.id in t.orders && t.orders[ask.id] == ask && ask.id !in t.entered && ask.id != bid.id
    requires LiveRow(ask) && ask.quantity == ask.Remaining() == bid.quantity
    requires t'.orders == UpdateOrder(UpdateOrder(t.orders, FillRow(ask, bid.quantity)), FillRow(bid, bid.quantity))
    requires t'.entered == t.entered + {bid.id}
    ensures !TablesOk(t')
  {
    assert t'.orders[ask.id].filled == ask.quantity && t'.orders[ask.id].status.Filled?;
    assert !Lifecycle(t'.orders, t'.entered);
  }

  /** What the two turns make of it. */
  lemma TwoTurnsTrade(cfg: Config, s: LoopState, p: int, q: int)
    requires Affordable(p, q) && s.tables == TwoOpen(p, q) && s.book == EMPTY_BOOK && !s.dirty
      && s.pending == Both(p, q)[..1]
    ensures s.Valid() && ValidWorlds(TwoTurns(p, q))
    ensures
      var (s', err) := Turns(cfg, s, TwoTurns(p, q));
      && !err && s'.dirty && s'.pending == s.pending && 0 !in s'.tables.processed
      && s'.tables.trades == [TradeOf(Bid(p, q), Ask(p, q), p, q)] && !TablesOk(s'.tables)
    ensures
      var w := TwoTurns(p, q)[0];
      Turn(cfg, s, w.fetched, w.fetch, w.retry) == (s.(book := AddResting(EMPTY_BOOK, Ask(p, q)), dirty := true), false)
  {
    hide AddResting, WellFormed, RecoverAfterFailure, TablesOk;
    var ws := TwoTurns(p, q);
    assert s.pending + [] == s.pending;
    RefusedDrain(cfg, s, Both(p, q)[0], ws[0].retry);
    var s1 := RecoverAfterFailure(cfg, s, ws[0].retry).0;
    TradesWithLeftover(cfg, s1, p, q, ws[1].retry);
    assert ws[1..] == [ws[1]] && ws[1..][1..] == [];
    TwoInTurn(cfg, s, ws);
  }

  lemma {:induction false} TwoInTurn(cfg: Config, s: LoopState, ws: seq<World>)
    requires s.Valid() && ValidWorlds(ws) && |ws| == 2
    ensures
      var (s1, err1) := Turn(cfg, s, ws[0].fetched, ws[0].fetch, ws[0].retry);
      Turns(cfg, s, ws) == if err1 then (s1, true) else Turn(cfg, s1, ws[1].fetched, ws[1].fetch, ws[1].retry)
  {
    hide Turn, WellFormed, World.Valid;
    FirstWorld(ws);
    assert ws[1..] == [ws[1]] && ws[1..][1..] == [];
    FirstWorld(ws[1..]);
    var (s1, err1) := Turn(cfg, s, ws[0].fetched, ws[0].fetch, ws[0].retry);
    if !err1 {
      var (s2, err2) := Turn(cfg, s1, ws[1].fetched, ws[1].fetch, ws[1].retry);
      assert Turns(cfg, s2, []) == (s2, false);
      assert Turns(cfg, s1, ws[1..]) == (s2, err2);
    }
  }

  /** It does happen. A disciplined run has a matcher with an empty clean book and the entry of a SELL pending.
      It recovers from a failed read, the COMMIT of its drain is refused, and it goes on with the SELL on its
      book. The next turn commits a trade with it. */
  lemma {:induction false} GoesOnDirty(p: int, q: int, size: nat) returns (past: seq<Action>, sys: System, s: LoopState)
    requires Affordable(p, q)
    ensures Initial(TwoFunded(p, q)) && DisciplinedRun(TwoFunded(p, q), past)
      && After(TwoFunded(p, q), past) == Some(sys)
    ensures Matches(sys, s) && s.Valid() && !s.dirty && s.pending == Both(p, q)[..1] && 0 !in s.tables.processed
    ensures
      var cfg, ws := Config({1, 2}, size), TwoTurns(p, q);
      var steps := past + TurnsSteps(cfg, sys, s, ws);
      var (s', err) := Turns(cfg, s, ws);
      && cfg.users == sys.users && ValidWorlds(ws) && AllMet(cfg, sys, s, ws)
      && After(TwoFunded(p, q), steps).Some? && Matches(After(TwoFunded(p, q), steps).value, s')
      && !err && s'.dirty && s'.pending == s.pending && 0 !in s'.tables.processed
      && s'.tables.trades == [TradeOf(Bid(p, q), Ask(p, q), p, q)] && !TablesOk(s'.tables)
  {
    hide After, DisciplinedRun, Turns, TurnsSteps, Leads, AllMet, TablesOk, Turn, WellFormed;
    past, sys := OnTheWay(p, q, 1);
    s := LoopState(TwoOpen(p, q), STAMPS, EMPTY_BOOK, false, Both(p, q)[..1]);
    var cfg, ws := Config({1, 2}, size), TwoTurns(p, q);
    assert Matches(sys, s) by { OneDelivered(p, q, sys, s); }
    TwoTurnsTrade(cfg, s, p, q);
    TwoMet(cfg, sys, s, p, q);
    var sys' := TurnsAreRun(cfg, sys, s, ws);
    LeadsUsers(sys, TurnsSteps(cfg, sys, s, ws), sys');
    AfterConcat(TwoFunded(p, q), past, TurnsSteps(cfg, sys, s, ws));
    assert After(sys, TurnsSteps(cfg, sys, s, ws)) == Some(sys') by {
      LeadsAfter(sys, TurnsSteps(cfg, sys, s, ws), sys');
    }
  }

  lemma LeadsAfter(sys: System, steps: seq<Action>, sys': System)
    requires Leads(sys, steps, sys')
    ensures After(sys, steps) == Some(sys')
  {
  }

  lemma OneDelivered(p: int, q: int, sys: System, s: LoopState)
    requires s == LoopState(TwoOpen(p, q), STAMPS, EMPTY_BOOK, false, Both(p, q)[..1])
    requires sys.tables == s.tables && sys.created == s.created && sys.book == s.book && !sys.dirty && sys.control.Idle?
    requires sys.outbox == [OutboxRow(PlacedEvent(Ask(p, q)), true), OutboxRow(PlacedEvent(Bid(p, q)), true)]
    requires sys.stream == [0, 1] && sys.pending == Fresh(0, 1)
    ensures Matches(sys, s)
  {
    assert EntriesOf(s.pending) == {0} by { assert s.pending[0].entry == 0; }
  }

  /** Both worlds are ones the loop can meet there. */
  lemma TwoMet(cfg: Config, sys: System, s: LoopState, p: int, q: int)
    requires Affordable(p, q) && cfg.users == sys.users && Matches(sys, s)
    requires s == LoopState(TwoOpen(p, q), STAMPS, EMPTY_BOOK, false, Both(p, q)[..1])
    requires sys.outbox == [OutboxRow(PlacedEvent(Ask(p, q)), true), OutboxRow(PlacedEvent(Bid(p, q)), true)]
    requires sys.stream == [0, 1] && sys.delivered == 1
    ensures s.Valid() && ValidWorlds(TwoTurns(p, q)) && AllMet(cfg, sys, s, TwoTurns(p, q))
  {
    hide Turn, WellFormed, Matches, Leads, To, TurnSteps, RecoverAfterFailure, Met;
    var ws := TwoTurns(p, q);
    TwoTurnsTrade(cfg, s, p, q);
    var w := ws[0];
    var s1 := Turn(cfg, s, w.fetched, w.fetch, w.retry).0;
    assert Met(cfg, sys, s, w) by { ReadFailureMet(cfg, sys, s, w); }
    var mid := ReadFailureTurn(cfg, sys, s, w);
    assert Met(cfg, mid, s1, ws[1]) by { BuyMet(cfg, sys, mid, s1, p, q); }
    assert ws[1..] == [ws[1]] && ws[1..][1..] == [];
    AllMetTwo(cfg, sys, s, ws, mid, s1);
  }

  lemma ReadFailureMet(cfg: Config, sys: System, s: LoopState, w: World)
    requires s.Valid() && w.Valid() && w.fetched == [] && w.fetch.readFails && !s.dirty && sys.delivered <= |sys.stream|
    ensures Met(cfg, sys, s, w)
  {
  }

  lemma ReadFailureTurn(cfg: Config, sys: System, s: LoopState, w: World) returns (sys': System)
    requires cfg.users == sys.users && Matches(sys, s) && s.Valid() && w.Valid() && Met(cfg, sys, s, w)
    requires w.fetch.readFails && !w.fetch.cancelled && w.fetched == []
    ensures To(sys, TurnSteps(cfg, sys, s, w)) == sys' && Extends(sys, sys') && sys'.delivered == sys.delivered
  {
    hide WellFormed, Matches, RecoverySteps, Extends, ListsOpen, After;
    sys' := LostReadIsRun(cfg, sys, s, w);
    LeadsUsers(sys, TurnSteps(cfg, sys, s, w), sys');
  }

  /** The BUY is next in the stream, and nothing is rebuilt in its turn. */
  lemma BuyMet(cfg: Config, sys: System, mid: System, s: LoopState, p: int, q: int)
    requires s.Valid() && Extends(sys, mid) && mid.delivered == sys.delivered == 1 && sys.stream == [0, 1]
      && ValidWorlds(TwoTurns(p, q))
    requires sys.outbox == [OutboxRow(PlacedEvent(Ask(p, q)), true), OutboxRow(PlacedEvent(Bid(p, q)), true)]
    ensures Met(cfg, mid, s, TwoTurns(p, q)[1])
  {
    hide Process, WellFormed;
    assert mid.stream[1] == sys.stream[1];
    assert mid.outbox[1].event == sys.outbox[1].event;
  }

  lemma {:induction false} AllMetTwo(cfg: Config, sys: System, s: LoopState, ws: seq<World>, mid: System, s1: LoopState)
    requires s.Valid() && ValidWorlds(ws) && |ws| == 2 && Met(cfg, sys, s, ws[0])
    requires mid == To(sys, TurnSteps(cfg, sys, s, ws[0])) && s1.Valid() && Met(cfg, mid, s1, ws[1])
    requires Turn(cfg, s, ws[0].fetched, ws[0].fetch, ws[0].retry) == (s1, false)
    ensures AllMet(cfg, sys, s, ws)
  {
    hide Turn, WellFormed, World.Valid, Met, TurnSteps, To;
    FirstWorld(ws);
    assert ws[1..] == [ws[1]] && ws[1..][1..] == [];
    FirstWorld(ws[1..]);
    var s2 := Turn(cfg, s1, ws[1].fetched, ws[1].fetch, ws[1].retry).0;
    assert AllMet(cfg, To(mid, TurnSteps(cfg, mid, s1, ws[1])), s2, ws[1..][1..]);
    assert AllMet(cfg, mid, s1, ws[1..]);
  }
}
