/** The tables of the exchange and what one stream entry does to them: matching, settlement
    of every trade, and the order and trade rows written, all or nothing per batch. */
module Settlement {
  import opened Base
  import opened Orders
  import opened Wallets
  import opened PriorityBook
  import opened Matching

  type WalletTable = map<UserId, Balances>
  type OrderTable = map<OrderId, OrderRow>

  /** The payload of a stream entry. `Skipped` is a malformed or unknown one. */
  datatype Event =
    | NewOrder(id: OrderId, user: UserId, side: Side, typ: OrderType, price: Option<int>, quantity: int)
    | CancelOrder(target: OrderId)
    | Skipped

  datatype Message = Message(entry: nat, event: Event)

  /** `applied` and `entered` are history: the entries whose effects have been applied, in
      order, and the orders whose NEW_ORDER entry is among them. */
  datatype Tables = Tables(
    wallets: WalletTable, orders: OrderTable, trades: seq<Trade>, processed: set<nat>,
    applied: seq<nat>, entered: set<OrderId>)

  /** The outcome of applying entries: new tables, or an error that discards the transaction.
      The in-memory book is changed either way. */
  datatype Outcome = Applied(tables: Tables, book: Book) | Failed(book: Book)

  /** The order object the matcher builds from a NEW_ORDER event. */
  function Arriving(e: Event): OrderRow
    requires e.NewOrder?
  {
    OrderRow(e.id, e.user, e.side, e.typ, e.price, e.quantity, 0, Open)
  }

  predicate ValidEvent(e: Event) {
    e.NewOrder? ==> Arriving(e).ValidTerms()
  }

  // ---------- wallets ----------

  /** The buyer's side of one trade of incoming order `o`. A BUY MARKET pays from the balance.
      Any other buyer pays from the reservation, and an incoming BUY LIMIT gets the difference
      to its own price back. */
  function Pay(w: Balances, o: OrderRow, t: Trade): WalletResult
    requires o.typ.Limit? ==> o.price.Some?
  {
    if IsBuyMarket(o) then SettleBuyMarket(w, t.price, t.quantity)
    else
      match SettleBuyLimit(w, t.price, t.quantity)
      case Err(e) => Err(e)
      case Ok(paid) =>
        var improvement := if o.side.Buy? && o.typ.Limit? then (o.price.value - t.price) * t.quantity else 0;
        if improvement > 0 then ReleaseBrl(paid, improvement) else Ok(paid)
  }

  /** Buyer first, then seller, each on the balances the previous operation left. */
  function Settle(ws: WalletTable, o: OrderRow, t: Trade): Option<WalletTable>
    requires o.typ.Limit? ==> o.price.Some?
  {
    if t.buyer !in ws || t.seller !in ws then None
    else
      match Pay(ws[t.buyer], o, t)
      case Err(_) => None
      case Ok(buyer) =>
        var ws' := ws[t.buyer := buyer];
        match SettleSell(ws'[t.seller], t.price, t.quantity)
        case Err(_) => None
        case Ok(seller) => Some(ws'[t.seller := seller])
  }

  function SettleAll(ws: WalletTable, o: OrderRow, ts: seq<Trade>): Option<WalletTable>
    requires o.typ.Limit? ==> o.price.Some?
  {
    if ts == [] then Some(ws)
    else
      match SettleAll(ws, o, ts[..|ts| - 1])
      case None => None
      case Some(ws') => Settle(ws', o, ts[|ts| - 1])
  }

  lemma {:induction false} SettleAllSnoc(ws: WalletTable, o: OrderRow, ts: seq<Trade>, t: Trade)
    requires o.typ.Limit? ==> o.price.Some?
    ensures SettleAll(ws, o, ts + [t]) ==
      match SettleAll(ws, o, ts) case None => None case Some(ws') => Settle(ws', o, t)
  {
    assert (ts + [t])[..|ts|] == ts;
  }

  // ---------- order rows ----------

  /** UPDATE of filled quantity and status by id; a missing row is not an error. */
  function UpdateOrder(orders: OrderTable, r: OrderRow): OrderTable {
    if r.id in orders then orders[r.id := orders[r.id].(filled := r.filled, status := r.status)] else orders
  }

  function UpdateOrders(orders: OrderTable, es: seq<Entry>): OrderTable {
    if es == [] then orders
    else UpdateOrder(UpdateOrders(orders, es[..|es| - 1]), es[|es| - 1].row)
  }

  lemma {:induction false} UpdateOrdersSnoc(orders: OrderTable, es: seq<Entry>, e: Entry)
    ensures UpdateOrders(orders, es + [e]) == UpdateOrder(UpdateOrders(orders, es), e.row)
  {
    assert (es + [e])[..|es|] == es;
  }

  /** The trades table references existing orders. */
  predicate OrdersExist(orders: OrderTable, ts: seq<Trade>) {
    forall i :: 0 <= i < |ts| ==> ts[i].buyOrder in orders && ts[i].sellOrder in orders
  }

  // ---------- one entry ----------

  function FundsOf(ws: WalletTable, o: OrderRow): Option<int>
    requires IsBuyMarket(o) ==> o.user in ws
  {
    if IsBuyMarket(o) then Some(ws[o.user].AvailableBrl()) else None
  }

  /** A cancelled SELL remainder gives its reservation back. */
  function ReleaseRemainder(ws: WalletTable, o: OrderRow, cancelled: int): Option<WalletTable> {
    if cancelled > 0 && o.side.Sell? then
      if o.user !in ws then None
      else
        match ReleaseVib(ws[o.user], cancelled)
        case Err(_) => None
        case Ok(w) => Some(ws[o.user := w])
    else Some(ws)
  }

  function ApplyNew(t: Tables, b: Book, e: Event): (r: Outcome)
    requires WellFormed(b) && e.NewOrder? && ValidEvent(e)
    ensures WellFormed(r.book)
  {
    var o := Arriving(e);
    if IsBuyMarket(o) && o.user !in t.wallets then Failed(b)
    else
      var funds := FundsOf(t.wallets, o);
      var m := Match(b, o, funds);
      MatchWellFormed(b, o, funds);
      match SettleAll(t.wallets, o, m.state.trades)
      case None => Failed(m.state.book)
      case Some(ws) =>
        if !OrdersExist(t.orders, m.state.trades) then Failed(m.state.book)
        else
          match ReleaseRemainder(ws, o, m.cancelledQuantity)
          case None => Failed(m.state.book)
          case Some(ws') =>
            Applied(
              t.(wallets := ws',
                 orders := UpdateOrder(UpdateOrders(t.orders, m.state.makers), m.state.incoming),
                 trades := t.trades + m.state.trades,
                 entered := t.entered + {e.id}),
              m.state.book)
  }

  /** What a cancelled order's owner gets back. */
  function Refund(w: Balances, r: OrderRow): WalletResult
    requires r.price.Some?
  {
    if r.side.Buy? then ReleaseBrl(w, r.price.value * r.Remaining()) else ReleaseVib(w, r.Remaining())
  }

  function ApplyCancel(t: Tables, b: Book, id: OrderId): (r: Outcome)
    requires WellFormed(b)
    ensures WellFormed(r.book)
  {
    CancelWellFormed(b, id);
    if id !in b.locations then Applied(t, b)
    else
      LookupFinds(b, id);
      var removed := Lookup(b, id).value;
      var b' := Cancel(b, id);
      if removed.user !in t.wallets then Failed(b')
      else
        match Refund(t.wallets[removed.user], removed)
        case Err(_) => Failed(b')
        case Ok(w) =>
          Applied(
            t.(wallets := t.wallets[removed.user := w], orders := UpdateOrder(t.orders, CancelRow(removed))),
            b')
  }

  function Mark(t: Tables, entry: nat): Tables {
    t.(processed := t.processed + {entry}, applied := t.applied + [entry])
  }

  /** One entry under the idempotency guard. */
  function ApplyEntry(t: Tables, b: Book, m: Message): (r: Outcome)
    requires WellFormed(b) && ValidEvent(m.event)
    ensures WellFormed(r.book)
  {
    if m.entry in t.processed then Applied(t, b)
    else
      var t' := Mark(t, m.entry);
      match m.event
      case NewOrder(_, _, _, _, _, _) => ApplyNew(t', b, m.event)
      case CancelOrder(id) => ApplyCancel(t', b, id)
      case Skipped => Applied(t', b)
  }

  predicate ValidMessages(ms: seq<Message>) {
    forall i :: 0 <= i < |ms| ==> ValidEvent(ms[i].event)
  }

  /** A batch: entries in order, and the first error ends it. */
  function ApplyBatch(t: Tables, b: Book, ms: seq<Message>): (r: Outcome)
    requires WellFormed(b) && ValidMessages(ms)
    ensures WellFormed(r.book)
  {
    if ms == [] then Applied(t, b)
    else
      match ApplyBatch(t, b, ms[..|ms| - 1])
      case Failed(b') => Failed(b')
      case Applied(t', b') => ApplyEntry(t', b', ms[|ms| - 1])
  }

  // ---------- batches, entry by entry ----------

  lemma {:induction false} BatchStops(t: Tables, b: Book, ms: seq<Message>, n: nat)
    requires WellFormed(b) && ValidMessages(ms) && n <= |ms| && ApplyBatch(t, b, ms[..n]).Failed?
    ensures ApplyBatch(t, b, ms) == ApplyBatch(t, b, ms[..n])
    decreases |ms|
  {
    if n == |ms| {
      assert ms[..n] == ms;
    } else {
      assert ms[..|ms| - 1][..n] == ms[..n];
      BatchStops(t, b, ms[..|ms| - 1], n);
    }
  }

  lemma {:induction false} BatchSnoc(t: Tables, b: Book, ms: seq<Message>, i: nat)
    requires WellFormed(b) && ValidMessages(ms) && i < |ms|
    ensures ApplyBatch(t, b, ms[..i + 1]) ==
      match ApplyBatch(t, b, ms[..i])
      case Failed(b') => Failed(b')
      case Applied(t', b') => ApplyEntry(t', b', ms[i])
  {
    assert ms[..i + 1][..i] == ms[..i];
  }

  lemma {:induction false} EmptyBatch(t: Tables, b: Book)
    requires WellFormed(b)
    ensures ApplyBatch(t, b, []) == Applied(t, b)
  {
  }

  lemma {:induction false} OneEntry(t: Tables, b: Book, m: Message)
    requires WellFormed(b) && ValidEvent(m.event)
    ensures ValidMessages([m]) && ApplyBatch(t, b, [m]) == ApplyEntry(t, b, m)
  {
    hide ApplyEntry, WellFormed;
    EmptyBatch(t, b);
    assert [m][..0] == [];
  }

  lemma {:induction false} TwoEntries(t: Tables, b: Book, ms: seq<Message>)
    requires WellFormed(b) && ValidMessages(ms) && |ms| == 2
    ensures ApplyBatch(t, b, ms[..0]) == Applied(t, b) && ApplyBatch(t, b, ms[..1]) == ApplyEntry(t, b, ms[0])
    ensures
      var r := ApplyEntry(t, b, ms[0]);
      ApplyBatch(t, b, ms) == if r.Applied? then ApplyEntry(r.tables, r.book, ms[1]) else r
  {
    hide ApplyEntry, WellFormed;
    EmptyBatch(t, b);
    assert ms[..0] == [] && ms[..2] == ms;
    BatchSnoc(t, b, ms, 0);
    if ApplyEntry(t, b, ms[0]).Applied? {
      BatchSnoc(t, b, ms, 1);
    } else {
      assert ms[..2][..1] == ms[..1];
    }
  }

  // ---------- the log makes no difference ----------

  /** What has been logged before has no influence on what an entry does. */
  lemma NewMarked(t: Tables, b: Book, e: Event, entry: nat)
    requires WellFormed(b) && e.NewOrder? && ValidEvent(e)
    ensures
      var x, y := ApplyNew(Mark(t, entry), b, e), ApplyNew(t, b, e);
      x == if y.Applied? then Applied(Mark(y.tables, entry), y.book) else y
  {
  }

  lemma CancelMarked(t: Tables, b: Book, id: OrderId, entry: nat)
    requires WellFormed(b)
    ensures
      var x, y := ApplyCancel(Mark(t, entry), b, id), ApplyCancel(t, b, id);
      x == if y.Applied? then Applied(Mark(y.tables, entry), y.book) else y
  {
  }
}
