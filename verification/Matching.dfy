/** What matching one incoming order computes, as a loop of explicit steps over values.
    Each step is one iteration of the engine's loop, dropped fill errors included. */
module Matching {
  import opened Base
  import opened Orders
  import opened PriorityBook

  datatype Trade = Trade(
    buyOrder: OrderId, sellOrder: OrderId, buyer: UserId, seller: UserId, price: int, quantity: int)

  /** The loop's variables. `makers` are the touched makers in order; they are shared with
      the book in Go's Match, so a later fill of the same element shows in all of them. */
  datatype State = State(
    book: Book, incoming: OrderRow, funds: Option<int>, trades: seq<Trade>, makers: seq<Entry>)
  {
    function Opp(): seq<Entry> {
      book.Queue(Opposite(incoming.side))
    }
  }

  datatype MatchResult = MatchResult(state: State, rested: bool, cancelledQuantity: int)

  predicate IsBuyMarket(r: OrderRow) {
    r.side.Buy? && r.typ.Market?
  }

  /** A LIMIT taker accepts this price; a MARKET taker accepts any. */
  predicate Accepts(r: OrderRow, price: int)
    requires r.typ.Limit? ==> r.price.Some?
  {
    r.typ.Limit? ==> if r.side.Buy? then r.price.value >= price else r.price.value <= price
  }

  function Quantity(incoming: OrderRow, maker: OrderRow, funds: Option<int>, price: int): int
    requires price > 0
  {
    var q := Min(incoming.Remaining(), maker.Remaining());
    if IsBuyMarket(incoming) && funds.Some? then Min(TruncDiv(funds.value, price), q) else q
  }

  function TradeOf(incoming: OrderRow, maker: OrderRow, price: int, qty: int): Trade {
    if incoming.side.Buy?
    then Trade(incoming.id, maker.id, incoming.user, maker.user, price, qty)
    else Trade(maker.id, incoming.id, maker.user, incoming.user, price, qty)
  }

  function Touch(makers: seq<Entry>, e: Entry): seq<Entry> {
    seq(|makers|, i requires 0 <= i < |makers| => if makers[i].token == e.token then e else makers[i]) + [e]
  }

  /** The state is one the loop can be in: a well-formed book and a taker with room. */
  predicate Runnable(s: State) {
    && WellFormed(s.book)
    && s.incoming.ValidTerms()
    && 0 <= s.incoming.filled <= s.incoming.quantity
  }

  /** Spend `qty` at the front maker. */
  function Execute(s: State, qty: int): State
    requires s.Opp() != []
  {
    var opp := s.Opp();
    var side := Opposite(s.incoming.side);
    var price := opp[0].Price();
    var maker := Entry(opp[0].token, FillRow(opp[0].row, qty));
    var book := s.book.WithQueue(side, [maker] + opp[1..]);
    State(
      if maker.row.Remaining() == 0 then RemoveFront(book, maker.row.id, side, price) else book,
      FillRow(s.incoming, qty),
      if IsBuyMarket(s.incoming) && s.funds.Some? then Some(s.funds.value - qty * price) else s.funds,
      s.trades + [TradeOf(s.incoming, opp[0].row, price, qty)],
      Touch(s.makers, maker))
  }

  /** One iteration of the loop, or None when the loop is left. */
  function Step(s: State): Option<State>
    requires Runnable(s)
  {
    var opp := s.Opp();
    if s.incoming.Remaining() <= 0 || opp == [] then None
    else
      assert RestsOn(Opposite(s.incoming.side), opp[0].row);
      if !Accepts(s.incoming, opp[0].Price()) then None
      else
        var qty := Quantity(s.incoming, opp[0].row, s.funds, opp[0].Price());
        if qty == 0 then None else Some(Execute(s, qty))
  }

  // ---------- the loop goes on in well-formed states and ends ----------

  lemma HeadFillKeepsSide(side: Side, q: seq<Entry>, qty: int, next: nat)
    requires SideOk(side, q, next) && q != []
    ensures SideOk(side, [Entry(q[0].token, FillRow(q[0].row, qty))] + q[1..], next)
  {
    var q' := [Entry(q[0].token, FillRow(q[0].row, qty))] + q[1..];
    assert forall i :: 0 <= i < |q| ==> q'[i].token == q[i].token && q'[i].Price() == q[i].Price();
  }

  lemma HeadFillKeepsBook(b: Book, side: Side, qty: int)
    requires WellFormed(b) && b.Queue(side) != []
    ensures
      var q := b.Queue(side);
      WellFormed(b.WithQueue(side, [Entry(q[0].token, FillRow(q[0].row, qty))] + q[1..]))
  {
    hide SideOk;
    var q := b.Queue(side);
    var q' := [Entry(q[0].token, FillRow(q[0].row, qty))] + q[1..];
    var b' := b.WithQueue(side, q');
    HeadFillKeepsSide(side, q, qty, b.next);
    forall id | id in b'.locations
      ensures PointsInto(b'.Queue(b'.locations[id].side), id, b'.locations[id])
    {
      assert PointsInto(b.Queue(b.locations[id].side), id, b.locations[id]);
      if b.locations[id].side == side {
        var i :| 0 <= i < |q| && q[i].token == b.locations[id].token && q[i].row.id == id
          && q[i].Price() == b.locations[id].price;
        assert q'[i].token == q[i].token && q'[i].row.id == q[i].row.id && q'[i].Price() == q[i].Price();
      }
    }
  }

  lemma StepRunnable(s: State)
    requires Runnable(s) && Step(s).Some?
    ensures Runnable(Step(s).value)
    ensures Step(s).value.incoming.SameTerms(s.incoming)
  {
    var opp := s.Opp();
    var side := Opposite(s.incoming.side);
    var qty := Quantity(s.incoming, opp[0].row, s.funds, opp[0].Price());
    var maker := Entry(opp[0].token, FillRow(opp[0].row, qty));
    HeadFillKeepsBook(s.book, side, qty);
    RemoveFrontWellFormed(s.book.WithQueue(side, [maker] + opp[1..]), maker.row.id, side, opp[0].Price());
  }

  /** Below zero, funds move toward zero by what a trade of negative quantity gives back. */
  function Debt(s: State): nat {
    if s.funds.Some? && s.funds.value < 0 then -s.funds.value else 0
  }

  /** Every iteration lowers the taker's remaining quantity or, at the same remaining
      quantity, the debt: the loop ends for every value of the funds. */
  lemma StepDecreases(s: State)
    requires Runnable(s) && Step(s).Some?
    ensures
      var s' := Step(s).value;
      s'.incoming.Remaining() >= 0 &&
      (s'.incoming.Remaining() < s.incoming.Remaining()
       || (s'.incoming.Remaining() == s.incoming.Remaining() && Debt(s') < Debt(s)))
  {
    var opp := s.Opp();
    var maker := opp[0].row;
    assert RestsOn(Opposite(s.incoming.side), maker);
    var price := opp[0].Price();
    var qty := Quantity(s.incoming, maker, s.funds, price);
    if qty < 0 {
      // only a truncated negative quotient can get here
      assert qty == TruncDiv(s.funds.value, price);
      assert s.funds.value < 0 && s.funds.value - qty * price <= 0;
      assert qty * price < 0 by { assert qty * price <= (-1) * price; }
    }
  }

  function Loop(s: State): State
    requires Runnable(s)
    decreases s.incoming.Remaining(), Debt(s)
  {
    match Step(s)
    case None => s
    case Some(s') =>
      StepRunnable(s);
      StepDecreases(s);
      Loop(s')
  }

  /** What happens to a remainder: a LIMIT order rests, a MARKET order is cancelled. */
  function Finish(s: State): MatchResult
    requires Runnable(s)
  {
    if s.incoming.Remaining() > 0 then
      if s.incoming.typ.Limit?
      then MatchResult(s.(book := AddResting(s.book, s.incoming)), true, 0)
      else MatchResult(s.(incoming := CancelRow(s.incoming)), false, s.incoming.Remaining())
    else MatchResult(s, false, 0)
  }

  function Start(book: Book, incoming: OrderRow, funds: Option<int>): State {
    State(book, incoming, funds, [], [])
  }

  lemma {:induction false} LoopRunnable(s: State)
    requires Runnable(s)
    ensures Runnable(Loop(s)) && Step(Loop(s)) == None
    ensures Loop(s).incoming.SameTerms(s.incoming)
    decreases s.incoming.Remaining(), Debt(s)
  {
    if Step(s).Some? {
      StepRunnable(s);
      StepDecreases(s);
      LoopRunnable(Step(s).value);
    }
  }

  function Match(book: Book, incoming: OrderRow, funds: Option<int>): MatchResult
    requires Runnable(Start(book, incoming, funds))
  {
    LoopRunnable(Start(book, incoming, funds));
    Finish(Loop(Start(book, incoming, funds)))
  }

  lemma MatchWellFormed(book: Book, incoming: OrderRow, funds: Option<int>)
    requires Runnable(Start(book, incoming, funds))
    ensures WellFormed(Match(book, incoming, funds).state.book)
  {
    var s := Start(book, incoming, funds);
    LoopRunnable(s);
    if Loop(s).incoming.Remaining() > 0 && incoming.typ.Limit? {
      AddRestingWellFormed(Loop(s).book, Loop(s).incoming);
    }
  }
}
