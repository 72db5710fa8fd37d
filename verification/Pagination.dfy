/** Keyset pagination of the trades table: newest first, one extra row fetched to learn whether
    there is another page, and a cursor that names the last row of the page. */
module Pagination {
  import opened Base
  import opened Orders

  datatype TradeRow = TradeRow(
    id: int, buyOrder: OrderId, sellOrder: OrderId, buyer: UserId, seller: UserId, price: int, quantity: int,
      executedAt: int)
  {
    function Key(): SortKey {
      SortKey(executedAt, id)
    }

    /** What building the trade object demands of a row. */
    predicate Readable() {
      price > 0 && quantity > 0
    }
  }

  datatype SortKey = SortKey(at: int, id: int)

  predicate Earlier(a: SortKey, b: SortKey) {
    a.at < b.at || (a.at == b.at && a.id < b.id)
  }

  /** An absent user or order means no filter on it; the cursor is text from an earlier page, or
      empty. */
  datatype TradeFilter = TradeFilter(user: Option<UserId>, order: Option<OrderId>, limit: int, cursor: string)

  /** The text form of cursors. */
  datatype Codec = Codec(enc: SortKey -> string, dec: string -> Option<SortKey>)

  ghost predicate RoundTrips(c: Codec) {
    forall k :: c.enc(k) != "" && c.dec(c.enc(k)) == Some(k)
  }

  datatype Reply = Page(trades: seq<TradeRow>, next: string) | InvalidCursor | Unreadable

  // ---------- the query ----------

  datatype Condition = ByUser(user: UserId) | ByOrder(order: OrderId) | After(key: SortKey)
  {
    predicate Admits(r: TradeRow) {
      match this
      case ByUser(u) => r.buyer == u || r.seller == u
      case ByOrder(o) => r.buyOrder == o || r.sellOrder == o
      case After(k) => Earlier(r.Key(), k)
    }
  }

  predicate AllAdmit(cs: seq<Condition>, r: TradeRow) {
    forall i :: 0 <= i < |cs| ==> cs[i].Admits(r)
  }

  function Slot(r: TradeRow, xs: seq<TradeRow>): seq<TradeRow> {
    if xs == [] || Earlier(xs[0].Key(), r.Key()) then [r] + xs else [xs[0]] + Slot(r, xs[1..])
  }

  /** ORDER BY executed_at DESC, id DESC. */
  function Arrange(table: seq<TradeRow>): seq<TradeRow> {
    if table == [] then [] else Slot(table[0], Arrange(table[1..]))
  }

  function Select(xs: seq<TradeRow>, cs: seq<Condition>): seq<TradeRow> {
    if xs == [] then []
    else if AllAdmit(cs, xs[0]) then [xs[0]] + Select(xs[1..], cs) else Select(xs[1..], cs)
  }

  function Query(table: seq<TradeRow>, cs: seq<Condition>, n: nat): seq<TradeRow> {
    var xs := Select(Arrange(table), cs);
    if n < |xs| then xs[..n] else xs
  }

  // ---------- the listing is sorted and complete ----------

  predicate Descending(xs: seq<TradeRow>) {
    forall i, j :: 0 <= i < j < |xs| ==> Earlier(xs[j].Key(), xs[i].Key())
  }

  predicate DistinctTradeIds(xs: seq<TradeRow>) {
    forall i, j :: 0 <= i < j < |xs| ==> xs[i].id != xs[j].id
  }

  lemma {:induction false} PlaceMembers(r: TradeRow, xs: seq<TradeRow>)
    ensures multiset(Slot(r, xs)) == multiset{r} + multiset(xs)
    decreases |xs|
  {
    if xs != [] && !Earlier(xs[0].Key(), r.Key()) {
      PlaceMembers(r, xs[1..]);
      assert xs == [xs[0]] + xs[1..];
    }
  }

  lemma {:induction false} PlaceDescending(r: TradeRow, xs: seq<TradeRow>)
    requires Descending(xs) && forall i :: 0 <= i < |xs| ==> xs[i].id != r.id
    ensures Descending(Slot(r, xs))
    decreases |xs|
  {
    if xs != [] && !Earlier(xs[0].Key(), r.Key()) {
      PlaceDescending(r, xs[1..]);
      PlaceMembers(r, xs[1..]);
      var ys := Slot(r, xs[1..]);
      forall j | 0 <= j < |ys| ensures Earlier(ys[j].Key(), xs[0].Key()) {
        assert ys[j] in multiset(ys);
        assert ys[j] == r || ys[j] in xs[1..];
      }
    }
  }

  /** The listing has the table's rows, each as often as the table, newest first. */
  lemma {:induction false} ArrangeSorts(table: seq<TradeRow>)
    requires DistinctTradeIds(table)
    ensures Descending(Arrange(table)) && multiset(Arrange(table)) == multiset(table)
    decreases |table|
  {
    if table != [] {
      var rest := table[1..];
      ArrangeSorts(rest);
      var xs := Arrange(rest);
      assert table == [table[0]] + rest;
      forall i | 0 <= i < |xs| ensures xs[i].id != table[0].id {
        assert xs[i] in multiset(xs);
        assert xs[i] in rest;
      }
      PlaceDescending(table[0], xs);
      PlaceMembers(table[0], xs);
    }
  }

  lemma {:induction false} SelectMembers(xs: seq<TradeRow>, cs: seq<Condition>)
    requires Descending(xs)
    ensures Descending(Select(xs, cs))
    ensures forall r :: r in Select(xs, cs) <==> r in xs && AllAdmit(cs, r)
    decreases |xs|
  {
    if xs != [] {
      SelectMembers(xs[1..], cs);
      var ys := Select(xs[1..], cs);
      assert xs == [xs[0]] + xs[1..];
      forall j | 0 <= j < |ys| ensures Earlier(ys[j].Key(), xs[0].Key()) {
        assert ys[j] in xs[1..];
      }
    }
  }

  /** A further condition selects from what the others have selected. */
  lemma {:induction false} SelectTwice(xs: seq<TradeRow>, cs: seq<Condition>, c: Condition)
    ensures Select(xs, cs + [c]) == Select(Select(xs, cs), [c])
    decreases |xs|
  {
    if xs != [] {
      SelectTwice(xs[1..], cs, c);
      assert AllAdmit(cs + [c], xs[0]) <==> AllAdmit(cs, xs[0]) && c.Admits(xs[0]) by {
        if AllAdmit(cs + [c], xs[0]) {
          assert forall i :: 0 <= i < |cs| ==> (cs + [c])[i] == cs[i];
          assert (cs + [c])[|cs|] == c;
        }
      }
      assert AllAdmit([c], xs[0]) <==> c.Admits(xs[0]) by {
        assert [c][0] == c;
      }
    }
  }

  /** Rows after a key are a last part of a listing. */
  lemma {:induction false} AfterIsSuffix(xs: seq<TradeRow>, k: SortKey) returns (i: nat)
    requires Descending(xs)
    ensures i <= |xs| && Select(xs, [After(k)]) == xs[i..]
    ensures forall j :: 0 <= j < |xs| ==> (Earlier(xs[j].Key(), k) <==> i <= j)
    decreases |xs|
  {
    i := 0;
    if xs != [] {
      assert [After(k)][0] == After(k);
      var n := AfterIsSuffix(xs[1..], k);
      if !Earlier(xs[0].Key(), k) {
        i := n + 1;
        assert xs[i..] == xs[1..][n..];
      } else {
        assert forall j :: 0 < j < |xs| ==> Earlier(xs[j].Key(), xs[0].Key());
        assert |xs| > 1 ==> Earlier(xs[1..][0].Key(), k);
      }
    }
  }

  // ---------- a page ----------

  /** Limits outside 1 to 200 become 50. */
  function PageSize(limit: int): (n: nat)
    ensures 1 <= n <= 200 && (1 <= limit <= 200 ==> n == limit) && (limit < 1 || 200 < limit ==> n == 50)
  {
    if limit <= 0 || limit > 200 then 50 else limit
  }

  function Filters(f: TradeFilter): seq<Condition> {
    (if f.user.Some? then [ByUser(f.user.value)] else []) + (if f.order.Some? then [ByOrder(f.order.value)] else [])
  }

  /** What a filter asks for: trades in which the user, if one is named, bought or sold, and the order, if one is
      named, was bought or sold with. */
  predicate Wanted(f: TradeFilter, r: TradeRow) {
    && (f.user.Some? ==> r.buyer == f.user.value || r.seller == f.user.value)
    && (f.order.Some? ==> r.buyOrder == f.order.value || r.sellOrder == f.order.value)
  }

  lemma FiltersAdmit(f: TradeFilter, r: TradeRow)
    ensures AllAdmit(Filters(f), r) <==> Wanted(f, r)
  {
    var cs := Filters(f);
    if f.user.Some? {
      assert cs[0] == ByUser(f.user.value);
    }
    if f.order.Some? {
      assert cs[|cs| - 1] == ByOrder(f.order.value);
    }
  }

  /** Later trades before earlier ones, and among those of one instant larger ids before smaller ones. */
  predicate NewestFirst(xs: seq<TradeRow>) {
    forall i, j :: 0 <= i < j < |xs| ==>
      xs[j].executedAt < xs[i].executedAt || (xs[j].executedAt == xs[i].executedAt && xs[j].id < xs[i].id)
  }

  predicate AllReadable(xs: seq<TradeRow>) {
    forall i :: 0 <= i < |xs| ==> xs[i].Readable()
  }

  /** The trades the filter asks for, newest first, from the cursor on. None if it is not one. */
  function LeftOver(table: seq<TradeRow>, f: TradeFilter, c: Codec): Option<seq<TradeRow>> {
    var all := Select(Arrange(table), Filters(f));
    if f.cursor == "" then Some(all)
    else
      match c.dec(f.cursor)
      case None => None
      case Some(k) => Some(Select(all, [After(k)]))
  }

  /** One page of what remains, and a cursor exactly when the page is not the last. */
  function PageOf(rest: seq<TradeRow>, n: nat, c: Codec): Reply
    requires n > 0
  {
    var shown := if |rest| > n then rest[..n] else rest;
    if !AllReadable(shown) then Unreadable
    else Page(shown, if |rest| > n then c.enc(rest[n - 1].Key()) else "")
  }

  /** The WHERE clause, or None when the cursor is not one. */
  method Conditions(f: TradeFilter, c: Codec) returns (conditions: Option<seq<Condition>>)
    ensures conditions.None? <==> f.cursor != "" && c.dec(f.cursor).None?
    ensures conditions.Some? ==>
      conditions.value == Filters(f) + if f.cursor == "" then [] else [After(c.dec(f.cursor).value)]
  {
    var cs: seq<Condition> := [];
    if f.user.Some? {
      cs := cs + [ByUser(f.user.value)];
    }
    if f.order.Some? {
      cs := cs + [ByOrder(f.order.value)];
    }
    if f.cursor != "" {
      var key := c.dec(f.cursor);
      if key.None? {
        return None;
      }
      cs := cs + [After(key.value)];
    }
    return Some(cs);
  }

  method ToTrades(rows: seq<TradeRow>) returns (out: Option<seq<TradeRow>>)
    ensures out == if AllReadable(rows) then Some(rows) else None
  {
    var trades: seq<TradeRow> := [];
    for i := 0 to |rows|
      invariant trades == rows[..i] && AllReadable(trades)
    {
      if rows[i].price <= 0 || rows[i].quantity <= 0 {
        assert !rows[i].Readable();
        return None;
      }
      trades := trades + [rows[i]];
    }
    assert rows[..|rows|] == rows;
    return Some(trades);
  }

  lemma NoCursor(table: seq<TradeRow>, f: TradeFilter, c: Codec)
    ensures LeftOver(table, f, c).None? <==> f.cursor != "" && c.dec(f.cursor).None?
  {
  }

  lemma {:induction false} ConditionsSelect(table: seq<TradeRow>, f: TradeFilter, c: Codec, cs: seq<Condition>)
    requires f.cursor == "" || c.dec(f.cursor).Some?
    requires cs == Filters(f) + if f.cursor == "" then [] else [After(c.dec(f.cursor).value)]
    ensures LeftOver(table, f, c) == Some(Select(Arrange(table), cs))
    ensures forall n: nat ::
      var xs := Select(Arrange(table), cs);
      Query(table, cs, n) == if n < |xs| then xs[..n] else xs
  {
    if f.cursor != "" {
      SelectTwice(Arrange(table), Filters(f), After(c.dec(f.cursor).value));
    } else {
      assert cs == Filters(f);
    }
  }

  /** A page: no more trades than asked for, all of them wanted, newest first. */
  predicate WantedPage(table: seq<TradeRow>, f: TradeFilter, trades: seq<TradeRow>) {
    && |trades| <= PageSize(f.limit) && NewestFirst(trades)
    && forall r :: r in trades ==> r in table && Wanted(f, r) && r.Readable()
  }

  lemma {:induction false} PageIsWanted(table: seq<TradeRow>, f: TradeFilter, c: Codec)
    ensures DistinctTradeIds(table) && LeftOver(table, f, c).Some? ==>
      var page := PageOf(LeftOver(table, f, c).value, PageSize(f.limit), c);
      page.Page? ==> WantedPage(table, f, page.trades)
  {
    hide Select, Arrange;
    if !DistinctTradeIds(table) || LeftOver(table, f, c).None? {
      return;
    }
    var xs := Arrange(table);
    var all := Select(xs, Filters(f));
    ArrangeSorts(table);
    SelectMembers(xs, Filters(f));
    if f.cursor != "" {
      SelectMembers(all, [After(c.dec(f.cursor).value)]);
    }
    forall r ensures (r in xs <==> r in table) && (AllAdmit(Filters(f), r) <==> Wanted(f, r)) {
      assert r in multiset(xs) <==> r in multiset(table);
      FiltersAdmit(f, r);
    }
  }

  /** Builds the conditions, queries for one row more than a page, and turns the rows into trades. */
  method ListPaginated(table: seq<TradeRow>, f: TradeFilter, c: Codec) returns (reply: Reply)
    ensures LeftOver(table, f, c).None? ==> reply == InvalidCursor
    ensures LeftOver(table, f, c).Some? ==> reply == PageOf(LeftOver(table, f, c).value, PageSize(f.limit), c)
    ensures DistinctTradeIds(table) && reply.Page? ==> WantedPage(table, f, reply.trades)
  {
    hide Select, Arrange, Filters, AllReadable, WantedPage, DistinctTradeIds, Query, LeftOver;
    PageIsWanted(table, f, c);
    var limit := f.limit;
    if limit <= 0 || limit > 200 {
      limit := 50;
    }
    var conditions := Conditions(f, c);
    NoCursor(table, f, c);
    if conditions.None? {
      return InvalidCursor;
    }
    ConditionsSelect(table, f, c, conditions.value);
    ghost var rest := LeftOver(table, f, c).value;
    var rows := Query(table, conditions.value, limit + 1);
    var hasMore := |rows| > limit;
    if hasMore {
      rows := rows[..limit];
    }
    assert rows == if |rest| > limit then rest[..limit] else rest;
    var out := ToTrades(rows);
    if out.None? {
      return Unreadable;
    }
    var nextCursor := "";
    if hasMore && |out.value| > 0 {
      nextCursor := c.enc(out.value[|out.value| - 1].Key());
    }
    return Page(out.value, nextCursor);
  }

  // ---------- following the cursors ----------

  /** The cursor of a page leads to what is left after it. */
  lemma NextCursorContinues(table: seq<TradeRow>, f: TradeFilter, c: Codec)
    requires DistinctTradeIds(table) && RoundTrips(c) && LeftOver(table, f, c).Some?
    ensures
      var rest := LeftOver(table, f, c).value;
      var n := PageSize(f.limit);
      |rest| > n ==> LeftOver(table, f.(cursor := c.enc(rest[n - 1].Key())), c) == Some(rest[n..])
  {
    hide Select, Arrange, AllAdmit;
    var all := Select(Arrange(table), Filters(f));
    ArrangeSorts(table);
    SelectMembers(Arrange(table), Filters(f));
    var i: nat := 0;
    if f.cursor != "" {
      i := AfterIsSuffix(all, c.dec(f.cursor).value);
    }
    if |LeftOver(table, f, c).value| > PageSize(f.limit) {
      RestAfter(all, i, PageSize(f.limit));
    }
  }

  /** What comes after row `i + n - 1` of a listing. */
  lemma {:induction false} RestAfter(all: seq<TradeRow>, i: nat, n: nat)
    requires Descending(all) && 0 < n && i + n < |all|
    ensures Select(all, [After(all[i..][n - 1].Key())]) == all[i..][n..]
  {
    hide Select;
    var last := all[i + n - 1];
    var j := AfterIsSuffix(all, last.Key());
    assert !Earlier(all[i + n - 1].Key(), last.Key()) && Earlier(all[i + n].Key(), last.Key());
    assert all[j..] == all[i..][n..];
  }

  /** All pages from a cursor on, one after the other; None if one of them is an error. */
  ghost function AllPages(table: seq<TradeRow>, f: TradeFilter, c: Codec): Option<seq<TradeRow>>
    requires DistinctTradeIds(table) && RoundTrips(c)
    decreases if LeftOver(table, f, c).Some? then |LeftOver(table, f, c).value| else 0
  {
    if LeftOver(table, f, c).None? then None
    else
      match PageOf(LeftOver(table, f, c).value, PageSize(f.limit), c)
      case Page(trades, next) =>
        if next == "" then Some(trades)
        else
          NextCursorContinues(table, f, c);
          var more := AllPages(table, f.(cursor := next), c);
          if more.None? then None else Some(trades + more.value)
      case _ => None
  }

  lemma SoundParts(xs: seq<TradeRow>, n: nat)
    requires n <= |xs|
    ensures AllReadable(xs) <==> AllReadable(xs[..n]) && AllReadable(xs[n..])
  {
    assert forall i :: 0 <= i < |xs| ==> xs[i] == if i < n then xs[..n][i] else xs[n..][i - n];
    assert forall i :: 0 <= i < |xs| - n ==> xs[n..][i] == xs[i + n];
  }

  /** What AllPages does with the page at hand. */
  lemma PageThenMore(table: seq<TradeRow>, f: TradeFilter, c: Codec, rest: seq<TradeRow>, n: nat,
                     more: Option<seq<TradeRow>>)
    requires DistinctTradeIds(table) && RoundTrips(c) && LeftOver(table, f, c) == Some(rest) && n == PageSize(f.limit)
    requires |rest| > n ==> more == AllPages(table, f.(cursor := c.enc(rest[n - 1].Key())), c)
    ensures AllPages(table, f, c) ==
      if |rest| <= n then if AllReadable(rest) then Some(rest) else None
      else if AllReadable(rest[..n]) && more.Some? then Some(rest[..n] + more.value) else None
  {
    hide LeftOver;
  }

  /** Following the cursors ends and yields what remains, if every row on the way can be read. */
  lemma {:induction false} PagesAreTheRest(table: seq<TradeRow>, f: TradeFilter, c: Codec)
    requires DistinctTradeIds(table) && RoundTrips(c) && LeftOver(table, f, c).Some?
    ensures
      var rest := LeftOver(table, f, c).value;
      AllPages(table, f, c) == if AllReadable(rest) then Some(rest) else None
    decreases |LeftOver(table, f, c).value|
  {
    hide LeftOver, AllPages, AllReadable;
    var rest := LeftOver(table, f, c).value;
    var n := PageSize(f.limit);
    if |rest| > n {
      NextCursorContinues(table, f, c);
      var next := f.(cursor := c.enc(rest[n - 1].Key()));
      PagesAreTheRest(table, next, c);
      assert rest == rest[..n] + rest[n..];
      SoundParts(rest, n);
      PageThenMore(table, f, c, rest, n, AllPages(table, next, c));
    } else {
      PageThenMore(table, f, c, rest, n, None);
    }
  }

  /** For every filter and limit, following the cursors from the start ends, and the pages put
      together are the trades the filter asks for, each once, newest first. The one thing that can
      stop it is a row that is no trade. */
  lemma {:induction false} PaginationIsComplete(table: seq<TradeRow>, f: TradeFilter, c: Codec)
    requires DistinctTradeIds(table) && RoundTrips(c) && f.cursor == ""
    ensures AllPages(table, f, c).Some? <==> forall r :: r in table && Wanted(f, r) ==> r.Readable()
    ensures AllPages(table, f, c).Some? ==>
      var pages := AllPages(table, f, c).value;
      && NewestFirst(pages) && (forall r :: r in pages <==> r in table && Wanted(f, r))
      && (forall i, j :: 0 <= i < j < |pages| ==> pages[i] != pages[j])
  {
    hide Select, Arrange, AllPages;
    var all := Select(Arrange(table), Filters(f));
    ArrangeSorts(table);
    SelectMembers(Arrange(table), Filters(f));
    forall r ensures r in all <==> r in table && Wanted(f, r) {
      assert r in multiset(Arrange(table)) <==> r in multiset(table);
      FiltersAdmit(f, r);
    }
    assert AllReadable(all) <==> forall r :: r in all ==> r.Readable();
    PagesAreTheRest(table, f, c);
  }
}
