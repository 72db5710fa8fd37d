/** The consume loop around a batch: apply then acknowledge, drain the pending list, rebuild the
    book after a failure, and go on, while the API and the relay go about their business. */
module ConsumerLoop {
  import opened Base
  import opened Orders
  import opened PriorityBook
  import opened Settlement
  import opened Placement
  import opened Recovery
  import opened Matchers

  /** What the loop works on: the committed tables with the creation times of the orders, its book,
      the dirty flag, and its pending entries list in entry order. */
  datatype LoopState = LoopState(tables: Tables, created: map<OrderId, int>, book: Book, dirty: bool,
                                 pending: seq<Message>)
  {
    predicate Valid() {
      WellFormed(book) && ValidMessages(pending)
    }
  }

  /** The users of the exchange and the batch size, which is unbounded if zero. */
  datatype Config = Config(users: set<UserId>, size: nat)

  // ---------- what others do meanwhile ----------

  /** A transaction of the API, or a publication by the relay, which may lose its mark. */
  datatype Request =
    | Placing(input: PlaceInput, id: OrderId, now: int)
    | Cancelling(target: OrderId, requester: UserId)
    | Relaying(row: nat, marked: bool)

  /** Of these only a placement that is accepted changes the tables the loop works on. */
  function AfterRequest(users: set<UserId>, s: LoopState, r: Request): LoopState {
    match r
    case Placing(input, id, now) =>
      var placed := Place(s.tables, users, input, id).0;
      if id !in s.tables.orders && placed.Some? then s.(tables := placed.value, created := s.created[id := now]) else s
    case _ => s
  }

  function Meanwhile(users: set<UserId>, s: LoopState, rs: seq<Request>): (s': LoopState)
    ensures s'.book == s.book && s'.dirty == s.dirty && s'.pending == s.pending
    decreases |rs|
  {
    if rs == [] then s else Meanwhile(users, AfterRequest(users, s, rs[0]), rs[1..])
  }

  /** The relay is not at work. */
  predicate Offline(rs: seq<Request>) {
    forall i :: 0 <= i < |rs| ==> !rs[i].Relaying?
  }

  /** The requests without the publications. They leave the loop's tables as they are. */
  function Unrelayed(rs: seq<Request>): (r: seq<Request>)
    ensures Offline(r)
  {
    if rs == [] then [] else (if rs[0].Relaying? then [] else [rs[0]]) + Unrelayed(rs[1..])
  }

  lemma {:induction false} MeanwhileUnrelayed(users: set<UserId>, s: LoopState, rs: seq<Request>)
    ensures Meanwhile(users, s, Unrelayed(rs)) == Meanwhile(users, s, rs)
    decreases |rs|
  {
    hide Place;
    if rs != [] {
      var rest := Unrelayed(rs[1..]);
      MeanwhileUnrelayed(users, AfterRequest(users, s, rs[0]), rs[1..]);
      if rs[0].Relaying? {
        assert [] + rest == rest;
      } else {
        assert ([rs[0]] + rest)[1..] == rest;
      }
    }
  }

  // ---------- a batch ----------

  /** What the outside world does in one round of reading, applying and acknowledging. The requests
      of `others` are the ones committed since the last round, in the order in which the row locks put
      them before the batch. */
  datatype Round = Round(others: seq<Request>, cancelled: bool, readFails: bool, stop: Stop, reply: CommitReply,
                         ack: AckReply)

  /** What becomes of an acknowledgement: it is done and confirmed, it is not done, or it is done and the
      reply is lost. */
  datatype AckReply = Acked | NotAcked | AckUnheard

  /** The round gets as far as trying its batch. */
  predicate Runs(f: Round) {
    !f.cancelled && !f.readFails
  }

  /** The connection fails under a batch of `n` entries, or its COMMIT is not confirmed. */
  predicate Breaks(f: Round, n: nat) {
    Stops(n, f.stop) || !f.reply.Committed?
  }

  /** Nothing outside fails in a round with a batch of `n` entries. */
  predicate Calm(f: Round, n: nat) {
    Runs(f) && !Breaks(f, n) && f.ack.Acked?
  }

  predicate Names(ms: seq<Message>, entry: nat) {
    exists i :: 0 <= i < |ms| && ms[i].entry == entry
  }

  /** The pending list once the entries of `ms` are acknowledged. */
  function Unacked(pending: seq<Message>, ms: seq<Message>): (r: seq<Message>)
    ensures ValidMessages(pending) ==> ValidMessages(r)
    ensures |r| <= |pending|
    ensures pending != [] && ms != [] && pending[0].entry == ms[0].entry ==> |r| < |pending|
    ensures forall m :: m in r ==> m in pending
  {
    if pending == [] then []
    else
      var rest := Unacked(pending[1..], ms);
      if Names(ms, pending[0].entry) then rest else [pending[0]] + rest
  }

  predicate DistinctEntries(ms: seq<Message>) {
    forall i, j :: 0 <= i < j < |ms| ==> ms[i].entry != ms[j].entry
  }

  /** Applies a batch and acknowledges it once it is committed; true with an error. */
  function Process(cfg: Config, s: LoopState, ms: seq<Message>, f: Round): (r: (LoopState, bool))
    requires s.Valid() && ValidMessages(ms)
    ensures r.0.Valid()
  {
    if ms == [] then (s, false)
    else
      var s0 := Meanwhile(cfg.users, s, f.others);
      var r := ApplyBatch(s0.tables, s0.book, ms);
      var b := ApplyBatch(s0.tables, s0.book, Reached(ms, f.stop)).book;
      var through := !Stops(|ms|, f.stop) && r.Applied?;
      var s1 := s0.(book := b, tables := if through && !f.reply.Refused? then r.tables else s0.tables);
      if !through || !f.reply.Committed? then (s1.(dirty := true), true)
      else (s1.(pending := if f.ack.NotAcked? then s.pending else Unacked(s.pending, ms)), !f.ack.Acked?)
  }

  /** Up to `size` entries from the front of the pending list; zero stands for no bound. */
  function ReadPending(pending: seq<Message>, size: nat): (ms: seq<Message>)
    ensures ms <= pending && (ms == [] <==> pending == [])
    ensures ms == pending || (0 < size == |ms| < |pending|)
    ensures 0 < size ==> |ms| <= size
  {
    if 0 < size < |pending| then pending[..size] else pending
  }

  /** Reads and processes the pending list until it is empty or something fails. */
  function Reclaim(cfg: Config, s: LoopState, rounds: nat -> Round, k: nat): (r: (LoopState, bool))
    requires s.Valid()
    ensures r.0.Valid()
    decreases |s.pending|
  {
    if !Runs(rounds(k)) then (s, true)
    else
      var ms := ReadPending(s.pending, cfg.size);
      if ms == [] then (s, false)
      else
        var (s', err) := Process(cfg, s, ms, rounds(k));
        if err then (s', true) else Reclaim(cfg, s', rounds, k + 1)
  }

  // ---------- batches in a row ----------

  /** A batch is the first part of it followed by the rest. */
  lemma {:induction false} BatchConcat(t: Tables, b: Book, ms: seq<Message>, n: nat)
    requires WellFormed(b) && ValidMessages(ms) && n <= |ms| && ApplyBatch(t, b, ms[..n]).Applied?
    ensures
      var r := ApplyBatch(t, b, ms[..n]);
      ApplyBatch(t, b, ms) == ApplyBatch(r.tables, r.book, ms[n..])
    decreases |ms|
  {
    if n == |ms| {
      assert ms[..n] == ms && ms[n..] == [];
    } else {
      var pre := ms[..|ms| - 1];
      assert pre[..n] == ms[..n];
      assert ms[n..][..|ms[n..]| - 1] == pre[n..];
      BatchConcat(t, b, pre, n);
    }
  }

  /** Entries already processed pass through without effect. */
  lemma {:induction false} RepeatsPass(t: Tables, b: Book, ms: seq<Message>)
    requires WellFormed(b) && ValidMessages(ms) && forall i :: 0 <= i < |ms| ==> ms[i].entry in t.processed
    ensures ApplyBatch(t, b, ms) == Applied(t, b)
    decreases |ms|
  {
    if ms != [] { RepeatsPass(t, b, ms[..|ms| - 1]); }
  }

  /** Acknowledging the front of a list of distinct entries leaves the rest. */
  lemma {:induction false} UnackedFront(pending: seq<Message>, ms: seq<Message>, n: nat)
    requires DistinctEntries(pending) && n <= |pending|
    requires forall i :: 0 <= i < |pending| ==> (Names(ms, pending[i].entry) <==> i < n)
    ensures Unacked(pending, ms) == pending[n..]
    decreases |pending|
  {
    if pending != [] {
      var rest := pending[1..];
      assert forall i :: 0 <= i < |rest| ==> rest[i] == pending[i + 1];
      UnackedFront(rest, ms, if n > 0 then n - 1 else 0);
      assert n > 0 ==> pending[n..] == rest[n - 1..];
      assert Names(ms, pending[0].entry) <==> 0 < n;
      assert n == 0 ==> pending[n..] == [pending[0]] + rest;
    }
  }

  lemma {:induction false} ReadThenAck(pending: seq<Message>, size: nat)
    requires DistinctEntries(pending)
    ensures Unacked(pending, ReadPending(pending, size)) == pending[|ReadPending(pending, size)|..]
  {
    var ms := ReadPending(pending, size);
    forall i | 0 <= i < |pending| ensures Names(ms, pending[i].entry) <==> i < |ms| {
      if i < |ms| {
        assert ms[i].entry == pending[i].entry;
      }
    }
    UnackedFront(pending, ms, |ms|);
  }

  // ---------- what draining achieves ----------

  /** The state after a first part of a batch, if it applies. */
  function Applying(s: LoopState, ms: seq<Message>): (r: Option<LoopState>)
    requires s.Valid() && ValidMessages(ms)
    ensures r.Some? ==> r.value.Valid() && r.value.pending == s.pending && r.value.dirty == s.dirty
  {
    match ApplyBatch(s.tables, s.book, ms)
    case Failed(_) => None
    case Applied(t, b) => Some(s.(tables := t, book := b))
  }

  /** The state once the next batch, with the requests before it, is applied and acknowledged; None if
      one of its entries fails. */
  function Through(cfg: Config, s: LoopState, f: Round): (r: Option<LoopState>)
    requires s.Valid()
    ensures r.Some? ==> r.value.Valid() && r.value.dirty == s.dirty
    ensures r.Some? ==> |r.value.pending| == |s.pending| - |ReadPending(s.pending, cfg.size)|
  {
    var ms := ReadPending(s.pending, cfg.size);
    match Applying(Meanwhile(cfg.users, s, f.others), ms)
    case None => None
    case Some(s') => Some(s'.(pending := s.pending[|ms|..]))
  }

  /** The first `n` pending entries in one go: round after round, each with the requests that came
      before it, and with no regard to failures outside. None if an entry fails. The pending list is
      left without them. */
  function Pass(cfg: Config, s: LoopState, rounds: nat -> Round, k: nat, n: nat): Option<LoopState>
    requires s.Valid() && n <= |s.pending|
    decreases |s.pending|
  {
    if n == 0 then Some(s)
    else
      var ms := ReadPending(s.pending, cfg.size);
      var c := if n < |ms| then n else |ms|;
      match Applying(Meanwhile(cfg.users, s, rounds(k).others), ms[..c])
      case None => None
      case Some(s') => Pass(cfg, s'.(pending := s.pending[c..]), rounds, k + 1, n - c)
  }

  /** A drain from `s` that has acknowledged the first `acked` entries and applied as many as `r` has
      ends in `s'`: the tables are those of `r` with the requests `last` of the round that failed. Without
      an error all is acknowledged, there is nothing else, and the book has followed. */
  predicate DrainedTo(users: set<UserId>, s: LoopState, r: LoopState, s': LoopState, err: bool, acked: nat,
                      last: seq<Request>)
  {
    && acked <= |s.pending| && s'.pending == s.pending[acked..]
    && var u := Meanwhile(users, r, last);
    && s'.tables == u.tables && s'.created == u.created
    && (!err ==> acked == |s.pending| && s'.dirty == s.dirty && last == [])
    && (!err || !s'.dirty ==> s'.book == u.book)
  }

  predicate Drained(cfg: Config, s: LoopState, rounds: nat -> Round, k: nat, s': LoopState, err: bool,
                    acked: nat, applied: nat, last: seq<Request>)
    requires s.Valid()
  {
    && acked <= applied <= |s.pending|
    && var r := Pass(cfg, s, rounds, k, applied);
    && r.Some? && DrainedTo(cfg.users, s, r.value, s', err, acked, last)
  }

  lemma {:induction false} PassNone(cfg: Config, s: LoopState, rounds: nat -> Round, k: nat)
    requires s.Valid()
    ensures Pass(cfg, s, rounds, k, 0) == Some(s) && s.pending[0..] == s.pending
  {
  }

  lemma PassStep(cfg: Config, s: LoopState, rounds: nat -> Round, k: nat, n: nat)
    requires s.Valid() && 0 < n <= |s.pending|
    ensures
      var ms := ReadPending(s.pending, cfg.size);
      var c := if n < |ms| then n else |ms|;
      var r := Applying(Meanwhile(cfg.users, s, rounds(k).others), ms[..c]);
      Pass(cfg, s, rounds, k, n) ==
        if r.None? then None else Pass(cfg, r.value.(pending := s.pending[c..]), rounds, k + 1, n - c)
  {
    hide ApplyBatch, WellFormed, Meanwhile, Applying;
  }

  /** A pass over one whole batch. */
  lemma {:induction false} PassOne(cfg: Config, s: LoopState, rounds: nat -> Round, k: nat)
    requires s.Valid() && s.pending != []
    ensures Pass(cfg, s, rounds, k, |ReadPending(s.pending, cfg.size)|) == Through(cfg, s, rounds(k))
  {
    hide ApplyBatch, WellFormed, Meanwhile, Applying, Pass, Through;
    PassMore(cfg, s, rounds, k, |ReadPending(s.pending, cfg.size)|);
    if Through(cfg, s, rounds(k)).Some? {
      PassNone(cfg, Through(cfg, s, rounds(k)).value, rounds, k + 1);
    }
  }

  lemma ThroughLeaves(cfg: Config, s: LoopState, f: Round)
    requires s.Valid() && Through(cfg, s, f).Some?
    ensures Through(cfg, s, f).value.pending == s.pending[|ReadPending(s.pending, cfg.size)|..]
  {
  }

  /** A pass goes on from where its first batch ends. */
  lemma PassMore(cfg: Config, s: LoopState, rounds: nat -> Round, k: nat, n: nat)
    requires s.Valid() && s.pending != [] && |ReadPending(s.pending, cfg.size)| <= n <= |s.pending|
    ensures
      var r := Through(cfg, s, rounds(k));
      Pass(cfg, s, rounds, k, n) ==
        if r.None? then None
        else Pass(cfg, r.value, rounds, k + 1, n - |ReadPending(s.pending, cfg.size)|)
  {
    hide ApplyBatch, WellFormed, Meanwhile, Applying, Pass;
    var ms := ReadPending(s.pending, cfg.size);
    assert ms[..|ms|] == ms;
    PassStep(cfg, s, rounds, k, n);
  }

  /** A batch that fails or is not acknowledged ends the drain; the others are one batch further. */
  lemma ProcessDrains(cfg: Config, s: LoopState, rounds: nat -> Round, k: nat)
    returns (acked: nat, applied: nat, last: seq<Request>)
    requires s.Valid() && DistinctEntries(s.pending) && s.pending != []
    ensures
      var ms := ReadPending(s.pending, cfg.size);
      var (s', err) := Process(cfg, s, ms, rounds(k));
      && (err ==> Drained(cfg, s, rounds, k, s', true, acked, applied, last))
      && (!err ==> Through(cfg, s, rounds(k)) == Some(s'))
  {
    hide ApplyBatch, WellFormed, Meanwhile;
    var ms := ReadPending(s.pending, cfg.size);
    ReadThenAck(s.pending, cfg.size);
    PassNone(cfg, s, rounds, k);
    PassOne(cfg, s, rounds, k);
    acked := 0;
    assert s.pending[0..] == s.pending;
    var s0 := Meanwhile(cfg.users, s, rounds(k).others);
    if !Stops(|ms|, rounds(k).stop) && ApplyBatch(s0.tables, s0.book, ms).Applied? && !rounds(k).reply.Refused? {
      applied, last := |ms|, [];
      if rounds(k).reply.Committed? && rounds(k).ack.AckUnheard? { acked := |ms|; }
    } else {
      applied, last := 0, rounds(k).others;
    }
    MeanwhileNone(cfg.users, Process(cfg, s, ms, rounds(k)).0);
    if Pass(cfg, s, rounds, k, |ms|).Some? {
      MeanwhileNone(cfg.users, Pass(cfg, s, rounds, k, |ms|).value);
    }
  }

  lemma {:induction false} MeanwhileNone(users: set<UserId>, s: LoopState)
    ensures Meanwhile(users, s, []) == s
  {
  }

  lemma DrainedFurther(cfg: Config, s: LoopState, rounds: nat -> Round, k: nat, mid: LoopState, s': LoopState,
                       err: bool,
                       acked: nat, applied: nat, last: seq<Request>)
    requires s.Valid() && s.pending != [] && Through(cfg, s, rounds(k)) == Some(mid)
    requires mid.Valid() && Drained(cfg, mid, rounds, k + 1, s', err, acked, applied, last)
    ensures
      var n := |ReadPending(s.pending, cfg.size)|;
      Drained(cfg, s, rounds, k, s', err, n + acked, n + applied, last)
  {
    hide Pass, Meanwhile, DrainedTo, Through, ReadPending, ApplyBatch, WellFormed;
    var n := |ReadPending(s.pending, cfg.size)|;
    ThroughLeaves(cfg, s, rounds(k));
    PassMore(cfg, s, rounds, k, n + applied);
    ToFurther(cfg.users, s, n, mid, Pass(cfg, mid, rounds, k + 1, applied).value, s', err, acked, last);
  }

  lemma ToFurther(users: set<UserId>, s: LoopState, n: nat, mid: LoopState, r: LoopState, s': LoopState, err: bool,
                  acked: nat, last: seq<Request>)
    requires n <= |s.pending| && mid.pending == s.pending[n..] && mid.dirty == s.dirty
    requires DrainedTo(users, mid, r, s', err, acked, last)
    ensures DrainedTo(users, s, r, s', err, n + acked, last)
  {
    assert mid.pending[acked..] == s.pending[n + acked..];
  }

  lemma DrainedNone(cfg: Config, s: LoopState, rounds: nat -> Round, k: nat, err: bool)
    requires s.Valid() && (err || s.pending == [])
    ensures Drained(cfg, s, rounds, k, s, err, 0, 0, [])
  {
    PassNone(cfg, s, rounds, k);
    MeanwhileNone(cfg.users, s);
  }

  /** A drain that reports success has emptied the list, and has done to the tables and the book
      what its entries do when passed over once, with the requests that came in between and nothing
      else. A drain that fails has done so for a first part of the list, at least the part it
      acknowledged. */
  lemma {:induction false} ReclaimIsOnePass(cfg: Config, s: LoopState, rounds: nat -> Round, k: nat)
    returns (acked: nat, applied: nat, last: seq<Request>)
    requires s.Valid() && DistinctEntries(s.pending)
    ensures Drained(cfg, s, rounds, k, Reclaim(cfg, s, rounds, k).0, Reclaim(cfg, s, rounds, k).1, acked, applied, last)
    decreases |s.pending|
  {
    hide Drained, Process, ApplyBatch, WellFormed, Applying, Meanwhile;
    var ms := ReadPending(s.pending, cfg.size);
    if !Runs(rounds(k)) || ms == [] {
      acked, applied, last := 0, 0, [];
      DrainedNone(cfg, s, rounds, k, !Runs(rounds(k)));
      return;
    }
    acked, applied, last := ProcessDrains(cfg, s, rounds, k);
    var (s', err) := Process(cfg, s, ms, rounds(k));
    if !err {
      acked, applied, last := ReclaimIsOnePass(cfg, s', rounds, k + 1);
      DrainedFurther(cfg, s, rounds, k, s', Reclaim(cfg, s', rounds, k + 1).0, Reclaim(cfg, s', rounds, k + 1).1, acked,
        applied, last);
      acked, applied := |ms| + acked, |ms| + applied;
    }
  }

  /** When nobody else is at work, a pass is one batch of the entries. */
  lemma {:induction false} QuietPassIsOneBatch(cfg: Config, s: LoopState, rounds: nat -> Round, k: nat, n: nat)
    requires s.Valid() && n <= |s.pending| && forall i :: k <= i ==> rounds(i).others == []
    ensures ValidMessages(s.pending[..n])
    ensures
      var r := Applying(s, s.pending[..n]);
      Pass(cfg, s, rounds, k, n) == if r.None? then None else Some(r.value.(pending := s.pending[n..]))
    decreases |s.pending|
  {
    hide ApplyBatch, WellFormed, Meanwhile, Pass;
    if n == 0 {
      EmptyBatch(s.tables, s.book);
      PassNone(cfg, s, rounds, k);
      assert s.pending[..0] == [];
      return;
    }
    var ms := ReadPending(s.pending, cfg.size);
    var c := if n < |ms| then n else |ms|;
    assert ms[..c] == s.pending[..n][..c];
    assert rounds(k).others == [];
    MeanwhileNone(cfg.users, s);
    PassStep(cfg, s, rounds, k, n);
    QuietStep(s, s.pending[..n], c);
    if Applying(s, ms[..c]).Some? {
      var s' := Applying(s, ms[..c]).value.(pending := s.pending[c..]);
      QuietPassIsOneBatch(cfg, s', rounds, k + 1, n - c);
      assert s.pending[..n][c..] == s'.pending[..n - c] && s'.pending[n - c..] == s.pending[n..];
    }
  }

  /** A batch is its first part and then the rest, on states. */
  lemma QuietStep(s: LoopState, ms: seq<Message>, c: nat)
    requires s.Valid() && ValidMessages(ms) && c <= |ms|
    ensures Applying(s, ms[..c]).None? ==> Applying(s, ms).None?
    ensures Applying(s, ms[..c]).Some? ==>
      var s1 := Applying(s, ms[..c]).value;
      Applying(s, ms) == Applying(s1, ms[c..])
  {
    hide ApplyBatch, WellFormed;
    if ApplyBatch(s.tables, s.book, ms[..c]).Failed? {
      BatchStops(s.tables, s.book, ms, c);
    } else {
      BatchConcat(s.tables, s.book, ms, c);
    }
  }

  /** With no failure outside and entries that all apply, the drain succeeds. */
  lemma {:induction false} SmoothReclaimSucceeds(cfg: Config, s: LoopState, rounds: nat -> Round, k: nat)
    requires s.Valid() && DistinctEntries(s.pending)
    requires forall i: nat, n: nat :: k <= i && n <= |s.pending| ==> Calm(rounds(i), n)
    requires Pass(cfg, s, rounds, k, |s.pending|).Some?
    ensures !Reclaim(cfg, s, rounds, k).1 && Reclaim(cfg, s, rounds, k).0.pending == []
    decreases |s.pending|
  {
    hide ApplyBatch, WellFormed, Meanwhile, Pass;
    var ms := ReadPending(s.pending, cfg.size);
    assert Calm(rounds(k), |ms|);
    if ms != [] {
      PassMore(cfg, s, rounds, k, |s.pending|);
      ReadThenAck(s.pending, cfg.size);
      SmoothReclaimSucceeds(cfg, Process(cfg, s, ms, rounds(k)).0, rounds, k + 1);
    }
  }

  // ---------- after a failure ----------

  predicate AllRestable(rows: seq<OrderRow>) {
    forall i :: 0 <= i < |rows| ==> Restable(rows[i])
  }

  /** How a recovery goes: the requests that come before the rebuild, the rows the rebuild reads after
      `attempts` failing tries, unless the process is told to stop after `patience` tries, and the
      rounds of the drain that follows. */
  datatype Retry = Retry(others: seq<Request>, rows: seq<OrderRow>, attempts: nat, patience: nat, rounds: nat -> Round)

  /** The state the drain of a recovery starts from. */
  function Rebuilt(cfg: Config, s: LoopState, r: Retry): (s': LoopState)
    requires s.Valid() && AllRestable(r.rows)
    ensures s'.Valid() && !s'.dirty && s'.pending == s.pending
  {
    RecoverWellFormed(r.rows);
    var s0 := Meanwhile(cfg.users, s, r.others);
    if s.dirty then s0.(book := Recover(r.rows), dirty := false) else s0
  }

  /** Rebuilds a dirty book, however many tries it takes, and only then drains the pending list. An
      error of the drain is not reported. */
  function RecoverAfterFailure(cfg: Config, s: LoopState, r: Retry): (res: (LoopState, bool))
    requires s.Valid() && AllRestable(r.rows)
    ensures res.0.Valid()
  {
    if s.dirty && r.patience <= r.attempts then (Meanwhile(cfg.users, s, r.others), true)
    else (Reclaim(cfg, Rebuilt(cfg, s, r), r.rounds, 0).0, false)
  }

  /** One turn of the main loop: fetch new entries, process them, recover from an error. A read may fail
      after it has made entries pending: its reply is lost then. */
  function Turn(cfg: Config, s: LoopState, fetched: seq<Message>, f: Round, r: Retry): (res: (LoopState, bool))
    requires s.Valid() && ValidMessages(fetched) && AllRestable(r.rows)
    ensures res.0.Valid()
  {
    if f.cancelled then (s, true)
    else
      var s1 := s.(pending := s.pending + fetched);
      if f.readFails then RecoverAfterFailure(cfg, s1, r)
      else
        var (s', err) := Process(cfg, s1, fetched, f);
        if err then RecoverAfterFailure(cfg, s', r) else (s', false)
  }

  /** What a turn is given by the outside world: the entries its read makes pending, how the read and the batch
      go, and how a recovery would. */
  datatype World = World(fetched: seq<Message>, fetch: Round, retry: Retry)
  {
    predicate Valid() {
      ValidMessages(fetched) && AllRestable(retry.rows)
    }
  }

  predicate ValidWorlds(ws: seq<World>) {
    forall i :: 0 <= i < |ws| ==> ws[i].Valid()
  }

  /** Turn after turn until one is told to stop. */
  function Turns(cfg: Config, s: LoopState, ws: seq<World>): (res: (LoopState, bool))
    requires s.Valid() && ValidWorlds(ws)
    ensures res.0.Valid()
    decreases |ws|
  {
    if ws == [] then (s, false)
    else
      assert ws[0].Valid() && forall i :: 1 <= i < |ws| ==> ws[i].Valid();
      var (s', err) := Turn(cfg, s, ws[0].fetched, ws[0].fetch, ws[0].retry);
      if err then (s', true) else Turns(cfg, s', ws[1..])
  }

  /** The whole life of the loop so far: the drain at boot, then turns. */
  function Run(cfg: Config, s: LoopState, boot: nat -> Round, ws: seq<World>): (res: (LoopState, bool))
    requires s.Valid() && ValidWorlds(ws)
    ensures res.0.Valid()
  {
    var (s', err) := Reclaim(cfg, s, boot, 0);
    if err then (s', true) else Turns(cfg, s', ws)
  }

  /** A recovery that goes on has drained from a clean book. It leaves the list empty and the book
      clean if the drain reports no error; otherwise an error of the drain has been passed over. */
  lemma RecoveryOutcome(cfg: Config, s: LoopState, r: Retry) returns (acked: nat, applied: nat, last: seq<Request>)
    requires s.Valid() && AllRestable(r.rows) && DistinctEntries(s.pending)
    ensures RecoverAfterFailure(cfg, s, r).1 <==> s.dirty && r.patience <= r.attempts
    ensures !RecoverAfterFailure(cfg, s, r).1 ==>
      var s0 := Rebuilt(cfg, s, r);
      var (s', err) := Reclaim(cfg, s0, r.rounds, 0);
      && RecoverAfterFailure(cfg, s, r).0 == s' && !s0.dirty
      && Drained(cfg, s0, r.rounds, 0, s', err, acked, applied, last)
      && (!err ==> !s'.dirty && s'.pending == [])
  {
    acked, applied, last := 0, 0, [];
    if !(s.dirty && r.patience <= r.attempts) {
      acked, applied, last := ReclaimIsOnePass(cfg, Rebuilt(cfg, s, r), r.rounds, 0);
    }
  }

  /** Acknowledging the end of a list of distinct entries leaves what is before it. */
  lemma {:induction false} UnackedBack(pending: seq<Message>, ms: seq<Message>, n: nat)
    requires n <= |pending|
    requires forall i :: 0 <= i < |pending| ==> (Names(ms, pending[i].entry) <==> n <= i)
    ensures Unacked(pending, ms) == pending[..n]
    decreases |pending|
  {
    hide Names;
    if pending != [] {
      var rest := pending[1..];
      assert forall i :: 0 <= i < |rest| ==> rest[i] == pending[i + 1];
      UnackedBack(rest, ms, if n > 0 then n - 1 else 0);
      assert Names(ms, pending[0].entry) <==> n == 0;
      assert n > 0 ==> pending[..n] == [pending[0]] + rest[..n - 1];
    }
  }

  lemma {:induction false} FetchedThenAcked(pending: seq<Message>, fetched: seq<Message>)
    requires DistinctEntries(pending + fetched)
    ensures Unacked(pending + fetched, fetched) == pending
  {
    var all := pending + fetched;
    forall i | 0 <= i < |all| ensures Names(fetched, all[i].entry) <==> |pending| <= i {
      if |pending| <= i {
        assert fetched[i - |pending|].entry == all[i].entry;
      } else {
        assert forall j :: 0 <= j < |fetched| ==> fetched[j] == all[|pending| + j];
      }
    }
    UnackedBack(all, fetched, |pending|);
    assert all[..|pending|] == pending;
  }

  /** A turn in which nothing fails applies what it has read and acknowledges it. What was pending before is
      pending still. */
  lemma {:induction false} CalmTurnApplies(cfg: Config, s: LoopState, fetched: seq<Message>, f: Round, r: Retry)
    requires s.Valid() && ValidMessages(fetched) && AllRestable(r.rows) && DistinctEntries(s.pending + fetched)
    requires fetched != [] && Calm(f, |fetched|) && Applying(Meanwhile(cfg.users, s, f.others), fetched).Some?
    ensures Turn(cfg, s, fetched, f, r) == (Applying(Meanwhile(cfg.users, s, f.others), fetched).value, false)
  {
    hide ApplyBatch, WellFormed, Meanwhile;
    FetchedThenAcked(s.pending, fetched);
    MeanwhileAlike(cfg.users, s, s.(pending := s.pending + fetched), f.others);
  }

  /** The requests do not look at the pending list. */
  lemma {:induction false} MeanwhileAlike(users: set<UserId>, s: LoopState, s': LoopState, rs: seq<Request>)
    requires s' == s.(pending := s'.pending)
    ensures Meanwhile(users, s', rs) == Meanwhile(users, s, rs).(pending := s'.pending)
    decreases |rs|
  {
    hide Place;
    if rs != [] {
      MeanwhileAlike(users, AfterRequest(users, s, rs[0]), AfterRequest(users, s', rs[0]), rs[1..]);
    }
  }

  /** The state in which a turn hands over to the recovery: its read or its batch has failed. */
  function Troubled(cfg: Config, s: LoopState, fetched: seq<Message>, f: Round): (r: Option<LoopState>)
    requires s.Valid() && ValidMessages(fetched)
    ensures r.Some? ==> r.value.Valid()
  {
    var s1 := s.(pending := s.pending + fetched);
    if f.readFails then Some(s1)
    else
      var (s', err) := Process(cfg, s1, fetched, f);
      if err then Some(s') else None
  }

  /** A turn in trouble recovers: unless it is told to stop first, and if its drain reports no error, it ends
      with nothing pending and a clean book. */
  lemma {:induction false} TroubledTurnRecovers(cfg: Config, s: LoopState, fetched: seq<Message>, f: Round, r: Retry)
    requires s.Valid() && ValidMessages(fetched) && AllRestable(r.rows) && !f.cancelled
    requires Troubled(cfg, s, fetched, f).Some?
    requires
      var s' := Troubled(cfg, s, fetched, f).value;
      DistinctEntries(s'.pending) && !(s'.dirty && r.patience <= r.attempts)
        && !Reclaim(cfg, Rebuilt(cfg, s', r), r.rounds, 0).1
    ensures
      var (s', err) := Turn(cfg, s, fetched, f, r);
      !err && s'.pending == [] && !s'.dirty
  {
    hide ApplyBatch, WellFormed, Meanwhile, Process;
    var acked, applied, last := RecoveryOutcome(cfg, Troubled(cfg, s, fetched, f).value, r);
  }

  /** The loop begins with a drain: if that goes through, nothing is pending before the first turn. */
  lemma {:induction false} BootDrains(cfg: Config, s: LoopState, boot: nat -> Round)
    requires s.Valid() && DistinctEntries(s.pending) && !Reclaim(cfg, s, boot, 0).1
    ensures !Run(cfg, s, boot, []).1 && Run(cfg, s, boot, []).0.pending == []
  {
    hide Reclaim;
    var acked, applied, last := ReclaimIsOnePass(cfg, s, boot, 0);
  }

  /** Turn after turn: what the first turns leave behind, the next one starts from. */
  lemma {:induction false} TurnsGoOn(cfg: Config, s: LoopState, ws: seq<World>, w: World)
    requires s.Valid() && ValidWorlds(ws) && w.Valid()
    ensures ValidWorlds(ws + [w])
    ensures
      var (s', stopped) := Turns(cfg, s, ws);
      Turns(cfg, s, ws + [w]) == if stopped then (s', true) else Turn(cfg, s', w.fetched, w.fetch, w.retry)
    decreases |ws|
  {
    hide Turn, LoopState.Valid;
    if ws == [] {
      assert [] + [w] == [w] && [w][1..] == [];
    } else {
      assert ws[0].Valid() && forall i :: 1 <= i < |ws| ==> ws[i].Valid();
      var (s', err) := Turn(cfg, s, ws[0].fetched, ws[0].fetch, ws[0].retry);
      assert (ws + [w])[1..] == ws[1..] + [w];
      if !err { TurnsGoOn(cfg, s', ws[1..], w); }
    }
  }
}
