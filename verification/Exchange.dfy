/** The whole pipeline as one state machine: API transactions, the outbox relay, the stream with
    its pending list, and the matcher with its tables, book and failure modes. */
module Exchange {
  import opened Base
  import opened Orders
  import opened PriorityBook
  import opened Settlement
  import opened Placement
  import opened Recovery

  datatype OutboxRow = OutboxRow(event: Event, published: bool)

  /** Between a committed batch and its acknowledgement the matcher holds the batch. */
  datatype Control = Idle | Holding(batch: seq<nat>)

  /** Stream entry `i` carries the payload of outbox row `stream[i]`. Entries below `delivered`
      have been handed to the consumer; `pending` is its pending entries list. */
  datatype System = System(
    tables: Tables, users: set<UserId>, created: map<OrderId, int>, outbox: seq<OutboxRow>,
    stream: seq<nat>, delivered: nat, pending: set<nat>, acked: set<nat>,
    book: Book, dirty: bool, control: Control)

  datatype Action =
    | PlaceOrder(input: PlaceInput, id: OrderId, now: int)
    | RequestCancel(target: OrderId, requester: UserId)
    | Publish(row: nat)              // appended to the stream and marked, committed
    | PublishUnmarked(row: nat)      // appended to the stream, then the commit failed
    | Deliver(count: nat)
    | Commit(batch: seq<nat>)
    | CommitReplyLost(batch: seq<nat>)
    | Abort(batch: seq<nat>, reached: nat)  // rolled back after `reached` entries touched the book
    | Ack
    | AckLost
    | Resync(rows: seq<OrderRow>)
    | Restart(rows: seq<OrderRow>)   // crash, then boot with a rebuilt book

  predicate Readable(s: System, batch: seq<nat>) {
    forall i :: 0 <= i < |batch| ==> batch[i] in s.pending && batch[i] < |s.stream| && s.stream[batch[i]] < |s.outbox|
  }

  function EventAt(s: System, entry: nat): Event {
    if entry < |s.stream| && s.stream[entry] < |s.outbox| then s.outbox[s.stream[entry]].event else Skipped
  }

  function Messages(s: System, batch: seq<nat>): seq<Message> {
    seq(|batch|, i requires 0 <= i < |batch| => Message(batch[i], EventAt(s, batch[i])))
  }

  /** The matcher may run this batch: it is idle, and the batch was read from the pending list. */
  predicate CanApply(s: System, batch: seq<nat>) {
    s.control.Idle? && Readable(s, batch) && WellFormed(s.book) && ValidMessages(Messages(s, batch))
  }

  predicate Enabled(s: System, step: Action) {
    match step
    case PlaceOrder(_, id, _) => id !in s.tables.orders
    case RequestCancel(_, _) => true
    case Publish(k) => k < |s.outbox| && !s.outbox[k].published
    case PublishUnmarked(k) => k < |s.outbox| && !s.outbox[k].published
    case Deliver(n) => s.delivered + n <= |s.stream|
    case Commit(batch) => CanApply(s, batch) && ApplyBatch(s.tables, s.book, Messages(s, batch)).Applied?
    case CommitReplyLost(batch) => CanApply(s, batch) && ApplyBatch(s.tables, s.book, Messages(s, batch)).Applied?
    case Abort(batch, reached) => CanApply(s, batch) && reached <= |batch|
      && ValidMessages(Messages(s, batch[..reached]))
    case Ack => s.control.Holding?
    case AckLost => s.control.Holding?
    case Resync(rows) => s.control.Idle? && Listing(s.tables.orders, s.created, rows)
    case Restart(rows) => Listing(s.tables.orders, s.created, rows)
  }

  function Elements(batch: seq<nat>): set<nat> {
    set i | 0 <= i < |batch| :: batch[i]
  }

  /** The entries from `from` on, `count` of them. */
  function Fresh(from: nat, count: nat): (r: set<nat>)
    ensures forall i :: i in r <==> from <= i < from + count
  {
    if count == 0 then {} else Fresh(from, count - 1) + {from + count - 1}
  }

  function Next(s: System, step: Action): System
    requires Enabled(s, step)
  {
    match step
    case PlaceOrder(input, id, now) =>
      var placed := Place(s.tables, s.users, input, id).0;
      if placed.None? then s
      else s.(tables := placed.value, created := s.created[id := now],
              outbox := s.outbox + [OutboxRow(PlacedEvent(placed.value.orders[id]), false)])
    case RequestCancel(id, requester) =>
      if CancelRequest(s.tables.orders, id, requester).CancelQueued?
      then s.(outbox := s.outbox + [OutboxRow(CancelOrder(id), false)]) else s
    case Publish(k) =>
      s.(stream := s.stream + [k], outbox := s.outbox[k := s.outbox[k].(published := true)])
    case PublishUnmarked(k) =>
      s.(stream := s.stream + [k])
    case Deliver(n) =>
      s.(pending := s.pending + Fresh(s.delivered, n), delivered := s.delivered + n)
    case Commit(batch) =>
      var r := ApplyBatch(s.tables, s.book, Messages(s, batch));
      s.(tables := r.tables, book := r.book, control := Holding(batch))
    case CommitReplyLost(batch) =>
      var r := ApplyBatch(s.tables, s.book, Messages(s, batch));
      s.(tables := r.tables, book := r.book, dirty := true)
    case Abort(batch, reached) =>
      s.(book := ApplyBatch(s.tables, s.book, Messages(s, batch[..reached])).book, dirty := true)
    case Ack =>
      s.(pending := s.pending - Elements(s.control.batch), acked := s.acked + Elements(s.control.batch),
        control := Idle)
    case AckLost =>
      s.(control := Idle)
    case Resync(rows) =>
      s.(book := Recover(rows), dirty := false)
    case Restart(rows) =>
      s.(book := Recover(rows), dirty := false, control := Idle)
  }

  /** The state after a sequence of steps, or None if one of them was not possible. */
  function After(s0: System, steps: seq<Action>): Option<System> {
    if steps == [] then Some(s0)
    else
      var s := After(s0, steps[..|steps| - 1]);
      if s.Some? && Enabled(s.value, steps[|steps| - 1])
      then Some(Next(s.value, steps[|steps| - 1])) else None
  }

  /** Funded wallets and nothing else. */
  predicate Initial(s: System) {
    && s.tables.orders == map[] && s.tables.trades == [] && s.tables.processed == {}
    && s.tables.applied == [] && s.tables.entered == {}
    && (forall u :: u in s.tables.wallets ==>
          s.tables.wallets[u].NonNegative() && s.tables.wallets[u].reservedBrl == 0
            && s.tables.wallets[u].reservedVib == 0)
    && s.created == map[] && s.outbox == [] && s.stream == [] && s.delivered == 0
    && s.pending == {} && s.acked == {} && s.book == EMPTY_BOOK && !s.dirty && s.control == Idle
  }
}
