/** The matcher's loop object: it owns the live book and the dirty flag, commits batches to the
    tables, and keeps its pending list on the stream. */
module MatcherLoops {
  import opened Orders
  import opened PriorityBook
  import opened Settlement
  import opened Placement
  import opened Recovery
  import opened OrderBooks
  import opened Matchers
  import opened ConsumerLoop

  /** Rebuilds a book from the open orders, in the order given; MARKET orders are passed over. */
  method RecoverBook(rows: seq<OrderRow>) returns (book: OrderBook)
    requires AllRestable(rows)
    ensures book.Valid() && fresh(book.Repr()) && fresh(book.Resting())
    ensures book.View() == Recover(rows)
  {
    hide OrderBook.Valid, OrderBook.View, OrderBook.Repr, OrderBook.Resting, PriorityBook.AddResting;
    book := new OrderBook();
    ghost var repr, resting := Footprint(book);
    for i := 0 to |rows|
      invariant book.Valid() && repr == book.Repr() && resting == book.Resting() && fresh(repr) && fresh(resting)
      invariant book.View() == Recover(rows[..i])
    {
      assert rows[..i + 1][..i] == rows[..i] && Restable(rows[i]);
      if rows[i].typ.Limit? {
        var o := new Order(rows[i]);
        book.AddResting(o);
        repr, resting := Footprint(book);
      }
    }
    assert rows[..|rows|] == rows;
  }

  /** The acknowledgement of a batch at the stream. */
  method Ack(pending: seq<Message>, ms: seq<Message>) returns (left: seq<Message>)
    ensures left == Unacked(pending, ms)
  {
    left := [];
    var i := |pending|;
    while i > 0
      invariant 0 <= i <= |pending| && left == Unacked(pending[i..], ms)
    {
      i := i - 1;
      assert pending[i..][1..] == pending[i + 1..];
      if !Names(ms, pending[i].entry) {
        left := [pending[i]] + left;
      }
    }
    assert pending[0..] == pending;
  }

  lemma ProcessShrinks(cfg: Config, s: LoopState, ms: seq<Message>, f: Round)
    requires s.Valid() && ms <= s.pending && ms != []
    ensures ValidMessages(ms) && (!Process(cfg, s, ms, f).1 ==> |Process(cfg, s, ms, f).0.pending| < |s.pending|)
  {
  }

  class MatcherLoop {
    var book: OrderBook
    var bookDirty: bool
    var tables: Tables
    var created: map<OrderId, int>
    var pending: seq<Message>
    const cfg: Config

    ghost function Frame(): set<object>
      reads this, book, book.bids, book.asks, book.bids.heap, book.asks.heap
    {
      {this} + book.Repr() + book.Resting()
    }

    ghost predicate Valid()
      reads Frame()
    {
      book.Valid() && ValidMessages(pending)
    }

    ghost function State(): LoopState
      reads Frame()
    {
      LoopState(tables, created, book.View(), bookDirty, pending)
    }

    constructor (book: OrderBook, tables: Tables, created: map<OrderId, int>, pending: seq<Message>, cfg: Config)
      requires book.Valid() && ValidMessages(pending)
      ensures Valid() && State() == LoopState(tables, created, book.View(), false, pending) && this.book == book
        && this.cfg == cfg
    {
      this.book, this.bookDirty, this.tables, this.created, this.pending, this.cfg :=
        book, false, tables, created, pending, cfg;
    }

    /** The loop is no part of a book, and no order. */
    lemma Apart(b: OrderBook)
      ensures this !in b.Repr() && forall o :: o in b.Resting() ==> o as object != this
    {
    }

    lemma StateValid()
      requires Valid()
      ensures State().Valid()
    {
      book.ViewWellFormed();
    }

    lemma Fields() returns (frame: set<object>)
      ensures frame == Frame() && this in frame
      ensures State().pending == pending && State().dirty == bookDirty
    {
      frame := Frame();
    }

    /** The requests others have committed since the loop last looked at the tables. */
    method Observe(others: seq<Request>)
      requires Valid()
      modifies this
      ensures Valid() && Frame() == old(Frame()) && State() == Meanwhile(cfg.users, old(State()), others)
    {
      hide OrderBook.Valid, OrderBook.View, OrderBook.Repr, OrderBook.Resting, WellFormed;
      Apart(book);
      var t: Tables, c: map<OrderId, int>, rest := tables, created, others;
      ghost var s0 := State();
      while rest != []
        invariant Meanwhile(cfg.users, s0, others) == Meanwhile(cfg.users, s0.(tables := t, created := c), rest)
        decreases |rest|
      {
        if rest[0].Placing? {
          var placed := Place(t, cfg.users, rest[0].input, rest[0].id).0;
          if rest[0].id !in t.orders && placed.Some? {
            t, c := placed.value, c[rest[0].id := rest[0].now];
          }
        }
        rest := rest[1..];
      }
      tables, created := t, c;
    }

    /** Runs a batch and takes note of what it committed. */
    method CommitBatch(ms: seq<Message>, f: Round) returns (failed: bool)
      requires Valid() && ValidMessages(ms)
      modifies Frame()
      ensures Valid() && fresh(Frame() - old(Frame())) && old(State().Valid())
      ensures
        var s := old(State());
        var r := ApplyBatch(s.tables, s.book, ms);
        var b := ApplyBatch(s.tables, s.book, Reached(ms, f.stop)).book;
        && (failed <==> Breaks(f, |ms|) || r.Failed?)
        && State() == s.(
             book := b,
             tables := if !Stops(|ms|, f.stop) && !f.reply.Refused? && r.Applied? then r.tables else s.tables)
    {
      hide OrderBook.Valid, OrderBook.View, OrderBook.Repr, OrderBook.Resting, ApplyBatch, WellFormed, ValidMessages;
      StateValid();
      Apart(book);
      ghost var repr, resting := Footprint(book);
      var t;
      failed, t := RunBatch(book, tables, ms, f.stop, f.reply);
      ghost var repr', resting' := Footprint(book);
      assert Frame() - old(Frame()) <= (repr' - repr) + (resting' - resting);
      Apart(book);
      tables := t;
    }

    method Note(dirty: bool, left: seq<Message>)
      requires Valid() && ValidMessages(left)
      modifies this
      ensures Valid() && Frame() == old(Frame()) && State() == old(State()).(dirty := dirty, pending := left)
    {
      hide OrderBook.Valid, OrderBook.View, OrderBook.Repr, OrderBook.Resting;
      Apart(book);
      bookDirty, pending := dirty, left;
    }

    /** Applies a batch and acknowledges it only after it is committed. */
    method ProcessMessages(ms: seq<Message>, f: Round) returns (n: nat, err: bool)
      requires Valid() && ValidMessages(ms)
      modifies Frame()
      ensures Valid() && fresh(Frame() - old(Frame())) && old(State().Valid())
      ensures State() == Process(cfg, old(State()), ms, f).0 && err == Process(cfg, old(State()), ms, f).1
      ensures n > 0 ==> n == |ms|
    {
      hide MatcherLoop.Valid, MatcherLoop.State, MatcherLoop.Frame, ApplyBatch, WellFormed, ValidMessages, Meanwhile;
      StateValid();
      if |ms| == 0 {
        return 0, false;
      }
      ghost var frame0 := Fields();
      Observe(f.others);
      var failed := CommitBatch(ms, f);
      StateValid();
      ghost var frame := Fields();
      if failed {
        Note(true, pending);
        return 0, true;
      }
      if f.ack.NotAcked? {
        return |ms|, true;
      }
      var left := Ack(pending, ms);
      Note(bookDirty, left);
      return |ms|, !f.ack.Acked?;
    }

    /** Drains the pending list. It ends whatever the rounds bring. */
    method ReclaimPending(rounds: nat -> Round) returns (err: bool)
      requires Valid()
      modifies Frame()
      ensures Valid() && fresh(Frame() - old(Frame())) && old(State().Valid())
      ensures State() == Reclaim(cfg, old(State()), rounds, 0).0 && err == Reclaim(cfg, old(State()), rounds, 0).1
    {
      hide MatcherLoop.Valid, MatcherLoop.State, MatcherLoop.Frame, ApplyBatch, WellFormed, ValidMessages, Process;
      StateValid();
      ghost var s0 := State();
      ghost var frame := Fields();
      ghost var frame0 := frame;
      var k := 0;
      while true
        invariant Valid() && frame == Frame() && this in frame && fresh(frame - frame0) && State().Valid()
          && State().pending == pending
        invariant Reclaim(cfg, s0, rounds, 0) == Reclaim(cfg, State(), rounds, k)
        decreases |pending|
      {
        if !Runs(rounds(k)) {
          return true;
        }
        var msgs := ReadPending(pending, cfg.size);
        if |msgs| == 0 {
          return false;
        }
        ProcessShrinks(cfg, State(), msgs, rounds(k));
        var n, failed := ProcessMessages(msgs, rounds(k));
        ghost var frame' := Fields();
        assert frame' - frame0 <= (frame' - frame) + (frame - frame0);
        frame := frame';
        if failed {
          return true;
        }
        StateValid();
        k := k + 1;
      }
    }

    /** Replaces the book by one rebuilt from the tables. */
    method ResyncBook(rows: seq<OrderRow>)
      requires Valid() && AllRestable(rows)
      modifies this
      ensures Valid() && fresh(Frame() - {this})
      ensures State() == old(State()).(book := Recover(rows))
    {
      hide OrderBook.Valid, OrderBook.View, OrderBook.Repr, OrderBook.Resting, Recover, AllRestable;
      book := RecoverBook(rows);
      Apart(book);
    }

    /** Rebuilds a dirty book before anything else, then drains the pending list. */
    method RecoverAfterFailure(r: Retry) returns (err: bool)
      requires Valid() && AllRestable(r.rows)
      modifies Frame()
      ensures Valid() && fresh(Frame() - old(Frame())) && old(State().Valid())
      ensures State() == ConsumerLoop.RecoverAfterFailure(cfg, old(State()), r).0
      ensures err == ConsumerLoop.RecoverAfterFailure(cfg, old(State()), r).1
    {
      hide MatcherLoop.Frame, MatcherLoop.Valid, MatcherLoop.State, Reclaim, Recover, WellFormed, Meanwhile;
      StateValid();
      ghost var frame0 := Fields();
      Observe(r.others);
      ghost var s0 := State();
      ghost var frame := Fields();
      var tries := 0;
      while bookDirty
        invariant Valid() && frame == Frame() && this in frame && fresh(frame - frame0) && State().dirty == bookDirty
        invariant if bookDirty then State() == s0 && tries <= r.attempts && (tries > 0 ==> tries <= r.patience)
                  else State() == if s0.dirty then s0.(book := Recover(r.rows), dirty := false) else s0
        invariant !bookDirty && s0.dirty ==> r.attempts < r.patience
        decreases if bookDirty then 1 + r.attempts - tries else 0
      {
        if tries >= r.patience {
          return true;
        }
        if tries < r.attempts {
          tries := tries + 1;
          continue;
        }
        ResyncBook(r.rows);
        StateValid();
        frame := Fields();
        Note(false, pending);
        frame := Fields();
      }
      var _ := ReclaimPending(r.rounds);
      ghost var frame' := Fields();
      assert frame' - frame0 <= (frame' - frame) + (frame - frame0);
      return false;
    }

    /** One turn of Run's loop. */
    method RunTurn(w: World) returns (err: bool)
      requires Valid() && w.Valid()
      modifies Frame()
      ensures Valid() && fresh(Frame() - old(Frame())) && old(State().Valid())
      ensures
        && State() == Turn(cfg, old(State()), w.fetched, w.fetch, w.retry).0
        && err == Turn(cfg, old(State()), w.fetched, w.fetch, w.retry).1
    {
      hide MatcherLoop.Frame, MatcherLoop.Valid, MatcherLoop.State, Process, ConsumerLoop.RecoverAfterFailure,
        WellFormed;
      StateValid();
      ghost var frame0 := Fields();
      if w.fetch.cancelled {
        return true;
      }
      Note(bookDirty, pending + w.fetched);
      var failed := w.fetch.readFails;
      if !failed {
        var n, failure := ProcessMessages(w.fetched, w.fetch);
        failed := failure;
      }
      ghost var frame := Fields();
      err := false;
      if failed {
        err := RecoverAfterFailure(w.retry);
        ghost var frame' := Fields();
        assert frame' - frame0 <= (frame' - frame) + (frame - frame0);
      }
    }

    /** Drains what a crash has left pending, then turns until told to stop. */
    method Run(boot: nat -> Round, ws: seq<World>) returns (err: bool)
      requires Valid() && ValidWorlds(ws)
      modifies Frame()
      ensures Valid() && fresh(Frame() - old(Frame())) && old(State().Valid())
      ensures State() == ConsumerLoop.Run(cfg, old(State()), boot, ws).0
        && err == ConsumerLoop.Run(cfg, old(State()), boot, ws).1
    {
      hide MatcherLoop.Frame, MatcherLoop.Valid, MatcherLoop.State, Turn, Reclaim, WellFormed, World.Valid;
      StateValid();
      ghost var frame0 := Fields();
      err := ReclaimPending(boot);
      if err {
        return;
      }
      StateValid();
      ghost var s0 := State();
      ghost var frame := Fields();
      for i := 0 to |ws|
        invariant Valid() && frame == Frame() && this in frame && fresh(frame - frame0) && State().Valid() && !err
        invariant ValidWorlds(ws[i..]) && Turns(cfg, s0, ws) == Turns(cfg, State(), ws[i..])
      {
        assert ws[i..][0] == ws[i] && ws[i..][1..] == ws[i + 1..];
        err := RunTurn(ws[i]);
        ghost var frame' := Fields();
        assert frame' - frame0 <= (frame' - frame) + (frame - frame0);
        frame := frame';
        if err {
          return;
        }
        StateValid();
      }
    }
  }
}
