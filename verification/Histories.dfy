/** Building concrete runs of the exchange, one step at a time. */
module Histories {
  import opened Base
  import opened Orders
  import opened PriorityBook
  import opened Settlement
  import opened Placement
  import opened Exchange
  import opened CleanRuns

  lemma {:induction false} StepOn(s0: System, steps: seq<Action>, s: System, a: Action)
    requires After(s0, steps) == Some(s) && Enabled(s, a)
    ensures After(s0, steps + [a]) == Some(Next(s, a))
    ensures DisciplinedRun(s0, steps) && Disciplined(s, a) ==> DisciplinedRun(s0, steps + [a])
  {
    assert (steps + [a])[..|steps|] == steps;
  }

  lemma {:induction false} Nothing(s: System)
    ensures After(s, []) == Some(s) && DisciplinedRun(s, [])
  {
  }

  /** Funded wallets and nothing else. */
  function Opening(ws: WalletTable): System {
    System(Tables(ws, map[], [], {}, [], {}), ws.Keys, map[], [], [], 0, {}, {}, EMPTY_BOOK, false, Idle)
  }

  /** A LIMIT request. */
  function Limited(user: UserId, side: Side, price: int, quantity: int): PlaceInput {
    PlaceInput(user, Some(side), Some(Limit), Some(price), quantity)
  }

  function LimitRow(id: OrderId, user: UserId, side: Side, price: int, quantity: int): OrderRow {
    OrderRow(id, user, side, Limit, Some(price), quantity, 0, Open)
  }

  /** An accepted LIMIT order: the reservation, the row, the stamp and the outbox row. */
  lemma LimitPlaced(s: System, id: OrderId, user: UserId, side: Side, price: int, quantity: int, now: int)
    requires price > 0 && quantity > 0 && user in s.users && user in s.tables.wallets && id !in s.tables.orders
    requires side.Buy? ==> price * quantity <= MAX_INT64 && price * quantity <= s.tables.wallets[user].AvailableBrl()
    requires side.Sell? ==> quantity <= s.tables.wallets[user].AvailableVib()
    ensures Enabled(s, PlaceOrder(Limited(user, side, price, quantity), id, now))
    ensures
      var w, c := s.tables.wallets[user], price * quantity;
      var w' := if side.Buy? then w.(brl := w.brl - c, reservedBrl := w.reservedBrl + c)
                else w.(vib := w.vib - quantity, reservedVib := w.reservedVib + quantity);
      var r := LimitRow(id, user, side, price, quantity);
      Next(s, PlaceOrder(Limited(user, side, price, quantity), id, now)) == s.(
        tables := s.tables.(wallets := s.tables.wallets[user := w'], orders := s.tables.orders[id := r]),
        created := s.created[id := now], outbox := s.outbox + [OutboxRow(PlacedEvent(r), false)])
  {
    ValidateAccepts(Limited(user, side, price, quantity), id);
    assert price * quantity > 0;
  }
}
