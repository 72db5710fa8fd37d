/** The two API services: placing an order and asking for its cancellation, each one transaction on
    the tables and the outbox. */
module OrderServices {
  import opened Base
  import opened Orders
  import opened Wallets
  import opened Settlement
  import opened Placement
  import opened Exchange

  class OrderService {
    const users: set<UserId>
    var tables: Tables
    var created: map<OrderId, int>
    var outbox: seq<OutboxRow>

    constructor (users: set<UserId>, tables: Tables)
      ensures this.users == users && this.tables == tables && created == map[] && outbox == []
    {
      this.users, this.tables, created, outbox := users, tables, map[], [];
    }

    /** The part of the system this service sees is the given system's. */
    predicate Sees(s: System)
      reads this
    {
      s.tables == tables && s.users == users && s.created == created && s.outbox == outbox
    }

    /** Reserves what the order needs on the owner's wallet object. */
    method ReserveFor(w: Wallet, o: Order) returns (ok: bool)
      requires o.typ.Limit? ==> o.price.Some?
      modifies w
      ensures ok == Reserve(old(w.Value()), o.Row()).Ok?
      ensures ok ==> w.Value() == Reserve(old(w.Value()), o.Row()).w
    {
      if o.side.Buy? && o.typ.Limit? {
        var err := w.ReserveBRL(o.price.value * o.quantity);
        return err.None?;
      } else if o.side.Sell? {
        var err := w.ReserveVibranium(o.quantity);
        return err.None?;
      }
      return true;
    }

    /** Reserves, inserts the order row and queues its event, all or nothing: after a commit the
        service's part of the system is what the machine's PlaceOrder step makes of it. */
    method PlaceOrder(i: PlaceInput, id: OrderId, now: int, commits: bool, ghost s: System)
      returns (placed: bool, err: Option<PlaceError>)
      requires Sees(s) && id !in tables.orders
      modifies this
      ensures placed ==> Sees(Next(s, Action.PlaceOrder(i, id, now))) && err == None
      ensures !placed ==> tables == old(tables) && outbox == old(outbox) && created == old(created)
      ensures placed <==> commits && Place(old(tables), users, i, id).0.Some?
      ensures err == Place(old(tables), users, i, id).1
      ensures err.None? <==>
        Requestable(i) && i.user in users && i.user in old(tables).wallets && Affords(old(tables).wallets[i.user], i)
      ensures placed ==>
        && tables.orders.Keys == old(tables).orders.Keys + {id} && RowAsked(i, id, tables.orders[id])
        && tables.wallets.Keys == old(tables).wallets.Keys
        && Takes(i, old(tables).wallets[i.user], tables.wallets[i.user])
        && created == old(created)[id := now]
        && |outbox| == |old(outbox)| + 1 && outbox[..|old(outbox)|] == old(outbox)
        && EventAsked(i, id, outbox[|old(outbox)|].event) && !outbox[|old(outbox)|].published
    {
      PlaceReply(tables, users, i, id);
      err := Validate(i);
      if err.Some? {
        return false, err;
      }
      ValidateAccepts(i, id);
      if i.user !in users {
        return false, Some(UserNotFound);
      }
      if i.user !in tables.wallets {
        return false, Some(WalletNotFound);
      }
      var w := new Wallet(i.user, tables.wallets[i.user]);
      var o := new Order(Placed(i, id));
      var ok := ReserveFor(w, o);
      if !ok {
        return false, Some(InsufficientBalance);
      }
      if !commits {
        return false, None;
      }
      PlaceOutcome(tables, users, i, id);
      tables := tables.(orders := tables.orders[id := o.Row()], wallets := tables.wallets[i.user := w.Value()]);
      created := created[id := now];
      outbox := outbox + [OutboxRow(PlacedEvent(o.Row()), false)];
      return true, None;
    }

    /** Checks ownership and status, and queues a cancel event for a live order. */
    method RequestCancel(id: OrderId, requester: UserId, commits: bool, ghost s: System)
      returns (reply: CancelReply, done: bool)
      requires Sees(s)
      modifies this
      ensures reply == CancelRequest(old(tables).orders, id, requester)
      ensures tables == old(tables) && created == old(created)
      ensures reply == OrderNotFound <==> id !in tables.orders
      ensures reply == Forbidden <==> id in tables.orders && tables.orders[id].user != requester
      ensures outbox ==
        if done && id in tables.orders && tables.orders[id].user == requester && tables.orders[id].Live()
        then old(outbox) + [OutboxRow(CancelOrder(id), false)] else old(outbox)
      ensures done ==> Sees(Next(s, Action.RequestCancel(id, requester)))
      ensures !done ==> outbox == old(outbox) && reply.CancelQueued? && !commits
    {
      if id !in tables.orders {
        return OrderNotFound, true;
      }
      var o := new Order(tables.orders[id]);
      if o.user != requester {
        return Forbidden, true;
      }
      if o.IsDone() {
        return AlreadyTerminal(o.status), true;
      }
      if !commits {
        return CancelQueued, false;
      }
      outbox := outbox + [OutboxRow(CancelOrder(id), false)];
      return CancelQueued, true;
    }
  }
}
