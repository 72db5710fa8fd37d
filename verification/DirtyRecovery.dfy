/** When recovery lets the matcher go on with a book it knows to be dirty. */
module DirtyRecovery {
  import opened Base
  import opened PriorityBook
  import opened Settlement
  import opened Conservation
  import opened Consistency
  import opened Terms
  import opened Exchange
  import opened Safety
  import opened CleanRuns
  import opened Guarantees
  import opened Refusals
  import opened Matchers
  import opened ConsumerLoop
  import opened LoopRuns

  // ---------- the entries of a drain, and its rounds ----------

  /** The state the pending entry `p` finds when its turn comes, if all before it apply. */
  function Reaching(cfg: Config, s: LoopState, rounds: nat -> Round, k: nat, p: nat): Option<LoopState>
    requires s.Valid() && p < |s.pending|
    decreases |s.pending|
  {
    var ms := ReadPending(s.pending, cfg.size);
    if p < |ms| then Applying(Meanwhile(cfg.users, s, rounds(k).others), ms[..p])
    else
      match Through(cfg, s, rounds(k))
      case None => None
      case Some(s') => Reaching(cfg, s', rounds, k + 1, p - |ms|)
  }

  /** What is the matter with an entry, in the state it finds. */
  type Flaw = (Tables, Book, Message) -> bool

  /** The pending entry `p` has this flaw at its turn. */
  predicate FlawedTurn(cfg: Config, s: LoopState, rounds: nat -> Round, k: nat, p: nat, flaw: Flaw)
    requires s.Valid() && p < |s.pending|
  {
    var r := Reaching(cfg, s, rounds, k, p);
    r.Some? && flaw(r.value.tables, r.value.book, s.pending[p])
  }

  /** The entries a round takes, but for the last round. */
  function Width(cfg: Config, s: LoopState): nat {
    if cfg.size > 0 then cfg.size else |s.pending|
  }

  /** The first entry of round `j`, and how many it takes. */
  function First(cfg: Config, s: LoopState, j: nat): nat {
    j * Width(cfg, s)
  }

  function Taking(cfg: Config, s: LoopState, j: nat): nat {
    var rest := |s.pending| - First(cfg, s, j);
    if rest <= 0 then 0 else if rest < Width(cfg, s) then rest else Width(cfg, s)
  }

  predicate CalmBefore(cfg: Config, s: LoopState, rounds: nat -> Round, k: nat, j: nat) {
    forall i: nat :: i < j ==> Calm(rounds(k + i), Taking(cfg, s, i))
  }

  predicate FlawIn(cfg: Config, s: LoopState, rounds: nat -> Round, k: nat, from: nat, n: nat, flaw: Flaw)
    requires s.Valid() && from + n <= |s.pending|
  {
    exists p: nat :: from <= p < from + n && FlawedTurn(cfg, s, rounds, k, p, flaw)
  }

  /** Round `j` is reached, with nothing failing outside and no flawed entry before it, and in it the
      connection fails, the COMMIT is not confirmed, or an entry is flawed. */
  predicate TroubleIn(cfg: Config, s: LoopState, rounds: nat -> Round, k: nat, j: nat, flaw: Flaw)
    requires s.Valid()
  {
    var from, n := First(cfg, s, j), Taking(cfg, s, j);
    && from < |s.pending| && Runs(rounds(k + j)) && CalmBefore(cfg, s, rounds, k, j)
    && !FlawIn(cfg, s, rounds, k, 0, from, flaw)
    && (Breaks(rounds(k + j), n) || FlawIn(cfg, s, rounds, k, from, n, flaw))
  }

  ghost predicate Trouble(cfg: Config, s: LoopState, rounds: nat -> Round, k: nat, flaw: Flaw)
    requires s.Valid()
  {
    exists j: nat :: TroubleIn(cfg, s, rounds, k, j, flaw)
  }

  /** The flaw that ends a drain, whatever the reason. */
  predicate Fails(t: Tables, b: Book, m: Message) {
    WellFormed(b) && ValidEvent(m.event) && ApplyEntry(t, b, m).Failed?
  }

  // ---------- one round ----------

  /** A batch fails if and only if one of its entries does, after those before it have applied. */
  lemma {:induction false} BatchFailsAt(t: Tables, b: Book, ms: seq<Message>)
    requires WellFormed(b) && ValidMessages(ms)
    ensures ApplyBatch(t, b, ms).Failed? <==> exists p :: 0 <= p < |ms| && EntryFailsAt(t, b, ms, p)
    decreases |ms|
  {
    hide ApplyEntry, WellFormed;
    if ms != [] {
      var n := |ms| - 1;
      var pre := ms[..n];
      BatchFailsAt(t, b, pre);
      forall p | 0 <= p < n ensures EntryFailsAt(t, b, pre, p) <==> EntryFailsAt(t, b, ms, p) {
        assert pre[..p] == ms[..p] && pre[p] == ms[p];
      }
      if ApplyBatch(t, b, pre).Failed? {
        var p :| 0 <= p < n && EntryFailsAt(t, b, pre, p);
        assert EntryFailsAt(t, b, ms, p);
      } else {
        assert EntryFailsAt(t, b, ms, n) <==> ApplyBatch(t, b, ms).Failed?;
      }
    }
  }

  predicate EntryFailsAt(t: Tables, b: Book, ms: seq<Message>, p: nat)
    requires WellFormed(b) && ValidMessages(ms) && p < |ms|
  {
    var r := ApplyBatch(t, b, ms[..p]);
    r.Applied? && Fails(r.tables, r.book, ms[p])
  }

  lemma {:induction false} FirstFailsIff(cfg: Config, s: LoopState, rounds: nat -> Round, k: nat)
    requires s.Valid()
    ensures Through(cfg, s, rounds(k)).None? <==>
      FlawIn(cfg, s, rounds, k, 0, |ReadPending(s.pending, cfg.size)|, Fails)
  {
    hide ApplyBatch, WellFormed, Fails, Meanwhile;
    var ms := ReadPending(s.pending, cfg.size);
    var s0 := Meanwhile(cfg.users, s, rounds(k).others);
    BatchFailsAt(s0.tables, s0.book, ms);
    forall p: nat | p < |ms|
      ensures EntryFailsAt(s0.tables, s0.book, ms, p) <==> FlawedTurn(cfg, s, rounds, k, p, Fails)
    {
      assert ms[p] == s.pending[p];
    }
    if Through(cfg, s, rounds(k)).None? {
      var p :| 0 <= p < |ms| && EntryFailsAt(s0.tables, s0.book, ms, p);
      assert FlawedTurn(cfg, s, rounds, k, p, Fails);
    }
    if FlawIn(cfg, s, rounds, k, 0, |ms|, Fails) {
      var p: nat :| p < |ms| && FlawedTurn(cfg, s, rounds, k, p, Fails);
      assert EntryFailsAt(s0.tables, s0.book, ms, p);
    }
  }

  /** What one round makes of a clean state. */
  lemma FirstRound(cfg: Config, s: LoopState, f: Round)
    requires s.Valid() && s.pending != [] && DistinctEntries(s.pending)
    ensures
      var ms := ReadPending(s.pending, cfg.size);
      var (s', err) := Process(cfg, s, ms, f);
      && (Breaks(f, |ms|) || Through(cfg, s, f).None? ==> err && s'.dirty)
      && (!Breaks(f, |ms|) && Through(cfg, s, f).Some? ==>
            && s'.dirty == s.dirty && err == !f.ack.Acked?
            && (!err ==> Through(cfg, s, f) == Some(s')))
  {
    hide ApplyBatch, WellFormed, Meanwhile;
    ReadThenAck(s.pending, cfg.size);
  }

  // ---------- shifting by one round ----------

  lemma ShiftedTurn(cfg: Config, s: LoopState, rounds: nat -> Round, k: nat, s': LoopState, p: nat, flaw: Flaw)
    requires s.Valid() && Through(cfg, s, rounds(k)) == Some(s') && p < |s'.pending|
    ensures
      var n := |ReadPending(s.pending, cfg.size)|;
      FlawedTurn(cfg, s, rounds, k, n + p, flaw) <==> FlawedTurn(cfg, s', rounds, k + 1, p, flaw)
  {
    hide Through, Applying, Meanwhile, Poisons;
    ThroughLeaves(cfg, s, rounds(k));
  }

  lemma ShiftedRound(cfg: Config, s: LoopState, rounds: nat -> Round, k: nat, s': LoopState, j: nat)
    requires s.Valid() && Through(cfg, s, rounds(k)) == Some(s') && s'.pending != []
    ensures First(cfg, s, j + 1) == |ReadPending(s.pending, cfg.size)| + First(cfg, s', j)
    ensures Taking(cfg, s, j + 1) == Taking(cfg, s', j) && Taking(cfg, s, 0) == |ReadPending(s.pending, cfg.size)|
  {
    hide Through;
    ThroughLeaves(cfg, s, rounds(k));
    assert (j + 1) * cfg.size == j * cfg.size + cfg.size;
  }

  lemma ShiftedFlaw(cfg: Config, s: LoopState, rounds: nat -> Round, k: nat, s': LoopState, from: nat, n: nat,
                    flaw: Flaw)
    requires s.Valid() && Through(cfg, s, rounds(k)) == Some(s') && from + n <= |s'.pending|
    ensures
      FlawIn(cfg, s, rounds, k, |ReadPending(s.pending, cfg.size)| + from, n, flaw) <==>
        FlawIn(cfg, s', rounds, k + 1, from, n, flaw)
  {
    hide Through, FlawedTurn;
    var w, l := |ReadPending(s.pending, cfg.size)|, k + 1;
    ThroughLeaves(cfg, s, rounds(k));
    forall p: nat | p < |s'.pending|
      ensures FlawedTurn(cfg, s, rounds, k, w + p, flaw) <==> FlawedTurn(cfg, s', rounds, l, p, flaw)
    {
      ShiftedTurn(cfg, s, rounds, k, s', p, flaw);
    }
    if FlawIn(cfg, s, rounds, k, w + from, n, flaw) {
      var p: nat :| w + from <= p < w + from + n && FlawedTurn(cfg, s, rounds, k, p, flaw);
      assert FlawedTurn(cfg, s', rounds, l, p - w, flaw) <==> FlawedTurn(cfg, s, rounds, k, w + (p - w), flaw);
    }
    if FlawIn(cfg, s', rounds, l, from, n, flaw) {
      var p: nat :| from <= p < from + n && FlawedTurn(cfg, s', rounds, l, p, flaw);
      assert FlawedTurn(cfg, s, rounds, k, w + p, flaw);
    }
  }

  lemma FlawSplits(cfg: Config, s: LoopState, rounds: nat -> Round, k: nat, w: nat, n: nat, flaw: Flaw)
    requires s.Valid() && w + n <= |s.pending|
    ensures FlawIn(cfg, s, rounds, k, 0, w + n, flaw) <==>
      FlawIn(cfg, s, rounds, k, 0, w, flaw) || FlawIn(cfg, s, rounds, k, w, n, flaw)
  {
    hide FlawedTurn;
  }

  lemma ShiftedCalm(cfg: Config, s: LoopState, rounds: nat -> Round, k: nat, s': LoopState, j: nat)
    requires s.Valid() && Through(cfg, s, rounds(k)) == Some(s') && s'.pending != []
    ensures
      CalmBefore(cfg, s, rounds, k, j + 1) <==>
        Calm(rounds(k), |ReadPending(s.pending, cfg.size)|) && CalmBefore(cfg, s', rounds, k + 1, j)
  {
    hide Through, Taking, Calm;
    ShiftedRound(cfg, s, rounds, k, s', 0);
    forall i: nat | i < j
      ensures Calm(rounds(k + (i + 1)), Taking(cfg, s, i + 1)) <==> Calm(rounds(k + 1 + i), Taking(cfg, s', i))
    {
      ShiftedRound(cfg, s, rounds, k, s', i);
    }
    if Calm(rounds(k), |ReadPending(s.pending, cfg.size)|) && CalmBefore(cfg, s', rounds, k + 1, j) {
      forall i: nat | i < j + 1 ensures Calm(rounds(k + i), Taking(cfg, s, i)) {
        if i > 0 { assert Calm(rounds(k + 1 + (i - 1)), Taking(cfg, s', i - 1)); }
      }
    }
    if CalmBefore(cfg, s, rounds, k, j + 1) {
      assert Calm(rounds(k + 0), Taking(cfg, s, 0));
    }
  }

  /** Once the first round has gone well, trouble is in round `j + 1` if it is in round `j` of the rest. */
  lemma ShiftedTrouble(cfg: Config, s: LoopState, rounds: nat -> Round, k: nat, s': LoopState, j: nat, flaw: Flaw)
    requires s.Valid() && Through(cfg, s, rounds(k)) == Some(s') && s'.pending != []
    requires Calm(rounds(k), |ReadPending(s.pending, cfg.size)|)
    requires !FlawIn(cfg, s, rounds, k, 0, |ReadPending(s.pending, cfg.size)|, flaw)
    ensures TroubleIn(cfg, s, rounds, k, j + 1, flaw) <==> TroubleIn(cfg, s', rounds, k + 1, j, flaw)
  {
    hide Through, FlawedTurn, First, Taking, Calm, Breaks, Runs, FlawIn, CalmBefore;
    var w := |ReadPending(s.pending, cfg.size)|;
    ThroughLeaves(cfg, s, rounds(k));
    ShiftedRound(cfg, s, rounds, k, s', j);
    ShiftedCalm(cfg, s, rounds, k, s', j);
    var from, n := First(cfg, s', j), Taking(cfg, s', j);
    if from < |s'.pending| {
      TakingFits(cfg, s', j);
      FlawSplits(cfg, s, rounds, k, w, from, flaw);
      ShiftedFlaw(cfg, s, rounds, k, s', 0, from, flaw);
      ShiftedFlaw(cfg, s, rounds, k, s', from, n, flaw);
      assert k + (j + 1) == k + 1 + j;
    }
  }

  lemma TakingFits(cfg: Config, s: LoopState, j: nat)
    requires First(cfg, s, j) < |s.pending|
    ensures First(cfg, s, j) + Taking(cfg, s, j) <= |s.pending|
  {
  }

  // ---------- the drain ----------

  /** Trouble in the first round: nothing has gone before it. */
  lemma TroubleNow(cfg: Config, s: LoopState, rounds: nat -> Round, k: nat, flaw: Flaw)
    requires s.Valid() && s.pending != []
    ensures
      var n := |ReadPending(s.pending, cfg.size)|;
      TroubleIn(cfg, s, rounds, k, 0, flaw) <==>
        Runs(rounds(k)) && (Breaks(rounds(k), n) || FlawIn(cfg, s, rounds, k, 0, n, flaw))
  {
    hide FlawedTurn, Breaks, Runs, Calm;
    assert First(cfg, s, 0) == 0 && Taking(cfg, s, 0) == |ReadPending(s.pending, cfg.size)|;
    assert k + 0 == k;
  }

  /** Trouble later needs a calm first round without a flaw. */
  lemma TroubleLater(cfg: Config, s: LoopState, rounds: nat -> Round, k: nat, j: nat, flaw: Flaw)
    requires s.Valid() && s.pending != [] && TroubleIn(cfg, s, rounds, k, j, flaw) && j > 0
    ensures
      var n := |ReadPending(s.pending, cfg.size)|;
      Calm(rounds(k), n) && !FlawIn(cfg, s, rounds, k, 0, n, flaw) && n < |s.pending|
  {
    hide FlawedTurn, Breaks, Runs, Calm;
    var n := |ReadPending(s.pending, cfg.size)|;
    assert Calm(rounds(k + 0), Taking(cfg, s, 0));
    assert j * Width(cfg, s) >= Width(cfg, s);
    assert Taking(cfg, s, 0) == n <= First(cfg, s, j) && n <= Width(cfg, s);
    FlawSplits(cfg, s, rounds, k, n, First(cfg, s, j) - n, flaw);
  }

  /** A drain from a state that is not dirty leaves the book dirty if and only if there is trouble in one of its
      rounds. */
  lemma {:induction false} DrainLeavesDirtyIff(cfg: Config, s: LoopState, rounds: nat -> Round, k: nat)
    requires s.Valid() && !s.dirty && DistinctEntries(s.pending)
    ensures Reclaim(cfg, s, rounds, k).0.dirty <==> Trouble(cfg, s, rounds, k, Fails)
    decreases |s.pending|
  {
    hide Process, Through, FlawedTurn, TroubleIn, Calm, Breaks, ApplyBatch, WellFormed;
    var ms := ReadPending(s.pending, cfg.size);
    if ms == [] {
      NoTrouble(cfg, s, rounds, k, Fails);
      return;
    }
    TroubleNow(cfg, s, rounds, k, Fails);
    FirstFailsIff(cfg, s, rounds, k);
    FirstRound(cfg, s, rounds(k));
    CalmParts(rounds(k), |ms|);
    forall j: nat | TroubleIn(cfg, s, rounds, k, j, Fails) && j > 0
      ensures Calm(rounds(k), |ms|) && Through(cfg, s, rounds(k)).Some?
    {
      TroubleLater(cfg, s, rounds, k, j, Fails);
    }
    if Calm(rounds(k), |ms|) && Through(cfg, s, rounds(k)).Some? {
      var s' := Through(cfg, s, rounds(k)).value;
      ThroughLeaves(cfg, s, rounds(k));
      DrainLeavesDirtyIff(cfg, s', rounds, k + 1);
      TroubleOfRest(cfg, s, rounds, k, s', Fails);
    }
  }

  /** Two flaws that come to the same at every turn make for the same trouble. */
  lemma SameTrouble(cfg: Config, s: LoopState, rounds: nat -> Round, k: nat, x: Flaw, y: Flaw)
    requires s.Valid()
    requires forall p: nat :: p < |s.pending| ==>
      (FlawedTurn(cfg, s, rounds, k, p, x) <==> FlawedTurn(cfg, s, rounds, k, p, y))
    ensures Trouble(cfg, s, rounds, k, x) <==> Trouble(cfg, s, rounds, k, y)
  {
    hide FlawedTurn, First, Taking, CalmBefore, Breaks, Runs;
    forall from: nat, n: nat | from + n <= |s.pending|
      ensures FlawIn(cfg, s, rounds, k, from, n, x) <==> FlawIn(cfg, s, rounds, k, from, n, y)
    {
      if FlawIn(cfg, s, rounds, k, from, n, x) {
        var p: nat :| from <= p < from + n && FlawedTurn(cfg, s, rounds, k, p, x);
        assert FlawedTurn(cfg, s, rounds, k, p, y);
      }
      if FlawIn(cfg, s, rounds, k, from, n, y) {
        var p: nat :| from <= p < from + n && FlawedTurn(cfg, s, rounds, k, p, y);
        assert FlawedTurn(cfg, s, rounds, k, p, x);
      }
    }
    forall j: nat ensures TroubleIn(cfg, s, rounds, k, j, x) <==> TroubleIn(cfg, s, rounds, k, j, y) {
      if First(cfg, s, j) < |s.pending| { TakingFits(cfg, s, j); }
    }
  }

  lemma CalmParts(f: Round, n: nat)
    ensures Calm(f, n) <==> Runs(f) && !Breaks(f, n) && f.ack.Acked?
  {
  }

  lemma NoTrouble(cfg: Config, s: LoopState, rounds: nat -> Round, k: nat, flaw: Flaw)
    requires s.Valid() && s.pending == []
    ensures !Trouble(cfg, s, rounds, k, flaw)
  {
    forall j: nat ensures !TroubleIn(cfg, s, rounds, k, j, flaw) {
      assert j * Width(cfg, s) >= 0;
    }
  }

  lemma TroubleOfRest(cfg: Config, s: LoopState, rounds: nat -> Round, k: nat, s': LoopState, flaw: Flaw)
    requires s.Valid() && s.pending != [] && Through(cfg, s, rounds(k)) == Some(s')
    requires Calm(rounds(k), |ReadPending(s.pending, cfg.size)|)
    requires !FlawIn(cfg, s, rounds, k, 0, |ReadPending(s.pending, cfg.size)|, flaw)
    ensures Trouble(cfg, s, rounds, k, flaw) <==> Trouble(cfg, s', rounds, k + 1, flaw)
  {
    hide TroubleIn, Through, FlawIn, Calm, Breaks;
    ThroughLeaves(cfg, s, rounds(k));
    TroubleNow(cfg, s, rounds, k, flaw);
    CalmParts(rounds(k), |ReadPending(s.pending, cfg.size)|);
    if s'.pending == [] {
      NoTrouble(cfg, s', rounds, k + 1, flaw);
      forall j: nat | j > 0 ensures !TroubleIn(cfg, s, rounds, k, j, flaw) {
        if TroubleIn(cfg, s, rounds, k, j, flaw) { TroubleLater(cfg, s, rounds, k, j, flaw); }
      }
    } else {
      var l := k + 1;
      forall j: nat ensures TroubleIn(cfg, s, rounds, k, j + 1, flaw) <==> TroubleIn(cfg, s', rounds, l, j, flaw) {
        ShiftedTrouble(cfg, s, rounds, k, s', j, flaw);
      }
      if j: nat :| TroubleIn(cfg, s, rounds, k, j, flaw) {
        assert TroubleIn(cfg, s', rounds, l, j - 1, flaw) <==> TroubleIn(cfg, s, rounds, k, (j - 1) + 1, flaw);
      }
    }
  }

  // ---------- every turn of the drain is a point of a run ----------

  /** The round with the same placements and cancels in which nothing fails. */
  function Smooth(f: Round): Round {
    Round(Unrelayed(f.others), false, false, Nowhere, Committed, Acked)
  }

  lemma SmoothGoesThrough(cfg: Config, s: LoopState, f: Round)
    requires s.Valid() && s.pending != [] && DistinctEntries(s.pending) && Through(cfg, s, f).Some?
    ensures Process(cfg, s, ReadPending(s.pending, cfg.size), Smooth(f)) == (Through(cfg, s, f).value, false)
  {
    hide Process, ApplyBatch, WellFormed, Meanwhile;
    MeanwhileUnrelayed(cfg.users, s, f.others);
    FirstRound(cfg, s, Smooth(f));
  }

  /** The state an entry finds at its turn is that of a run, with the entries before it in its batch applied.
      The run leaves out the publications of the meantime. */
  lemma {:induction false} TurnInRun(cfg: Config, sys: System, s: LoopState, rounds: nat -> Round, k: nat, p: nat)
    returns (steps: seq<Action>, sys': System, s': LoopState, ms: seq<Message>)
    requires cfg.users == sys.users && Matches(sys, s) && s.Valid() && !s.dirty && DistinctEntries(s.pending)
    requires p < |s.pending| && Reaching(cfg, s, rounds, k, p).Some?
    ensures Leads(sys, steps, sys') && Matches(sys', s') && s'.Valid() && !s'.dirty
    ensures SingleCopies(sys) ==> SingleCopies(sys') && DisciplinedRun(sys, steps)
    ensures ms + [s.pending[p]] <= s'.pending && ValidMessages(ms)
    ensures Reaching(cfg, s, rounds, k, p) == Applying(s', ms)
    decreases |s.pending|
  {
    hide Leads, DisciplinedRun, Matches, Process, ApplyBatch, WellFormed, Through, ProcessSteps, RequestSteps,
      Meanwhile, Applying, OneCopyEach, StreamOk;
    ms := ReadPending(s.pending, cfg.size);
    if p < |ms| {
      var rs := Unrelayed(rounds(k).others);
      MeanwhileUnrelayed(cfg.users, s, rounds(k).others);
      sys' := RequestsAreRun(sys, s, rs);
      steps, s' := RequestSteps(sys, rs), Meanwhile(cfg.users, s, rs);
      ms := ms[..p];
    } else {
      var f := Smooth(rounds(k));
      SmoothGoesThrough(cfg, s, rounds(k));
      ThroughLeaves(cfg, s, rounds(k));
      assert !sys.dirty by { MatchesDirty(sys, s); }
      var mid := ProcessIsRun(cfg, sys, s, ms, f);
      LeadsUsers(sys, ProcessSteps(cfg, sys, s, ms, f), mid);
      var more;
      var n := |ms|;
      more, sys', s', ms := TurnInRun(cfg, mid, Through(cfg, s, rounds(k)).value, rounds, k + 1, p - n);
      var these := ReadPending(s.pending, cfg.size);
      steps := ProcessSteps(cfg, sys, s, these, f) + more;
      LeadsFurther(sys, ProcessSteps(cfg, sys, s, these, f), mid, more, sys');
    }
  }

  lemma MatchesDirty(sys: System, s: LoopState)
    requires Matches(sys, s)
    ensures sys.dirty == s.dirty
  {
  }

  /** What the entries before one of a batch leave is again known, and so is the entry. */
  lemma {:induction false} KnownAfter(sys: System, s: LoopState, ms: seq<Message>, m: Message)
    requires Shape(sys) && Known(sys.tables, sys.book) && Matches(sys, s) && ms + [m] <= s.pending && s.Valid()
    requires ValidMessages(ms) && ApplyBatch(s.tables, s.book, ms).Applied?
    ensures
      var r := ApplyBatch(s.tables, s.book, ms);
      Known(r.tables, r.book) && EventKnown(r.tables.orders, m.event)
  {
    hide ApplyBatch, WellFormed, BookKnown, RowsInRange, Owned, AllNonNegative, EventKnown;
    var all := ms + [m];
    PartFromStream(sys, s.pending, all);
    KnownMessages(sys, all);
    assert forall i :: 0 <= i < |ms| ==> all[i] == ms[i];
    assert all[|ms|] == m;
    BatchLeavesKnown(s.tables, s.book, ms, m);
  }

  lemma PartFromStream(sys: System, pending: seq<Message>, ms: seq<Message>)
    requires AllFromStream(sys, pending) && ms <= pending
    ensures AllFromStream(sys, ms)
  {
    assert forall i :: 0 <= i < |ms| ==> ms[i] == pending[i];
  }

  lemma KnownMessages(sys: System, ms: seq<Message>)
    requires Shape(sys) && AllFromStream(sys, ms)
    ensures MessagesKnown(sys.tables.orders, ms)
  {
    forall i | 0 <= i < |ms| ensures EventKnown(sys.tables.orders, ms[i].event) {
      assert EventKnown(sys.tables.orders, sys.outbox[sys.stream[ms[i].entry]].event);
    }
  }

  /** In every run an entry fails at its turn if and only if it takes what is not there. */
  lemma {:induction false} TurnFailsIff(s0: System, past: seq<Action>, cfg: Config, sys: System, s: LoopState,
                                        rounds: nat -> Round, k: nat, p: nat)
    requires Initial(s0) && After(s0, past) == Some(sys) && cfg.users == sys.users && Matches(sys, s)
    requires s.Valid() && !s.dirty && DistinctEntries(s.pending) && p < |s.pending|
    ensures FlawedTurn(cfg, s, rounds, k, p, Fails) <==> FlawedTurn(cfg, s, rounds, k, p, Overdrawn)
  {
    hide Matches, ApplyBatch, ApplyEntry, WellFormed, Known, Shape, Overdrawn, DisciplinedRun;
    if Reaching(cfg, s, rounds, k, p).Some? {
      var steps, sys', s', ms := TurnInRun(cfg, sys, s, rounds, k, p);
      AfterConcat(s0, past, steps);
      EveryRunIsSafe(s0, past + steps);
      RunIsKnown(s0, past + steps);
      KnownAfter(sys', s', ms, s.pending[p]);
      var r := ApplyBatch(s'.tables, s'.book, ms);
      EntryRefusedIff(r.tables, r.book, s.pending[p]);
    }
  }

  /** In disciplined ones, if and only if it is a poisoned NEW_ORDER. */
  lemma {:induction false} CleanTurnFailsIff(s0: System, past: seq<Action>, cfg: Config, sys: System, s: LoopState,
                                             rounds: nat -> Round, k: nat, p: nat)
    requires Initial(s0) && DisciplinedRun(s0, past) && After(s0, past) == Some(sys) && cfg.users == sys.users
      && Matches(sys, s)
    requires s.Valid() && !s.dirty && DistinctEntries(s.pending) && p < |s.pending|
    ensures FlawedTurn(cfg, s, rounds, k, p, Fails) <==> FlawedTurn(cfg, s, rounds, k, p, Poisons)
  {
    hide Matches, ApplyBatch, ApplyEntry, WellFormed, Clean, Poisons, DisciplinedRun;
    if Reaching(cfg, s, rounds, k, p).Some? {
      var steps, sys', s', ms := TurnInRun(cfg, sys, s, rounds, k, p);
      AfterConcat(s0, past, steps);
      CleanRunsStayClean(s0, past);
      CleanIsSingle(sys);
      DisciplinedConcat(s0, past, steps);
      CleanRunsStayClean(s0, past + steps);
      CleanFails(sys', s', ms, s.pending[p]);
    }
  }

  lemma {:induction false} CleanFails(sys: System, s: LoopState, ms: seq<Message>, m: Message)
    requires Clean(sys) && Matches(sys, s) && !s.dirty && s.Valid() && ms + [m] <= s.pending
    requires ValidMessages(ms) && ApplyBatch(s.tables, s.book, ms).Applied?
    ensures
      var r := ApplyBatch(s.tables, s.book, ms);
      Fails(r.tables, r.book, m) <==> Poisons(r.tables, r.book, m)
  {
    hide ApplyBatch, ApplyEntry, WellFormed, Consistent, EventKnown, Poisons, EnteredOk, OneCopyEach, NewOnce;
    var all := ms + [m];
    PartFromStream(sys, s.pending, all);
    KnownMessages(sys, all);
    assert forall i :: 0 <= i < |ms| ==> all[i] == ms[i];
    assert all[|ms|] == m;
    CleanIsConsistent(sys);
    BatchIsClean(sys, s.tables, s.book, ms);
    BatchKept(s.tables, s.book, ms);
    var r := ApplyBatch(s.tables, s.book, ms);
    SameRowsEvent(s.tables.orders, r.tables.orders, m.event);
    EntryFails(sys, r.tables, r.book, m);
  }

  lemma CleanIsSingle(sys: System)
    requires Clean(sys)
    ensures SingleCopies(sys)
  {
  }

  // ---------- the recovery ----------

  /** In every run whatsoever, early rebuilds, duplicated orders and dirty books included: a recovery lets the
      loop go on with a dirty book if and only if there is trouble in a round of its drain. The round is
      reached, and in it the connection fails, the COMMIT is not confirmed, or a pending entry takes what is
      not there: it is a poisoned BUY MARKET, its trades and its remainder need more than somebody has
      reserved, or it is a cancel whose refund is not covered. */
  lemma {:induction false} RecoveryLeavesDirtyIff(s0: System, past: seq<Action>, cfg: Config, s: LoopState, r: Retry)
    requires Initial(s0) && After(s0, past).Some?
    requires Matches(After(s0, past).value, s) && cfg.users == After(s0, past).value.users
    requires s.Valid() && AllRestable(r.rows) && ListsOpen(cfg, s, r) && DistinctEntries(s.pending)
    requires !RecoverAfterFailure(cfg, s, r).1
    ensures RecoverAfterFailure(cfg, s, r).0.dirty <==> Trouble(cfg, Rebuilt(cfg, s, r), r.rounds, 0, Overdrawn)
  {
    hide Matches, Reclaim, Rebuilt, Trouble, ListsOpen, WellFormed, FlawedTurn, DisciplinedRun;
    var sys := After(s0, past).value;
    var s1 := Rebuilt(cfg, s, r);
    var sys1 := RebuiltIsRun(cfg, sys, s, r);
    LeadsUsers(sys, RebuildSteps(sys, s, r), sys1);
    AfterConcat(s0, past, RebuildSteps(sys, s, r));
    DrainLeavesDirtyIff(cfg, s1, r.rounds, 0);
    forall p: nat | p < |s1.pending|
      ensures FlawedTurn(cfg, s1, r.rounds, 0, p, Fails) <==> FlawedTurn(cfg, s1, r.rounds, 0, p, Overdrawn)
    {
      TurnFailsIff(s0, past + RebuildSteps(sys, s, r), cfg, sys1, s1, r.rounds, 0, p);
    }
    SameTrouble(cfg, s1, r.rounds, 0, Fails, Overdrawn);
  }

  lemma RebuiltUnrelayed(cfg: Config, s: LoopState, r: Retry)
    requires s.Valid() && AllRestable(r.rows)
    ensures
      var r' := r.(others := Unrelayed(r.others));
      && Rebuilt(cfg, s, r') == Rebuilt(cfg, s, r)
      && (ListsOpen(cfg, s, r') <==> ListsOpen(cfg, s, r))
      && (RebuildsQuietly(cfg, s, r') <==> RebuildsQuietly(cfg, s, r))
  {
    hide Meanwhile, Quiescent, WellFormed;
    MeanwhileUnrelayed(cfg.users, s, r.others);
  }

  /** In a disciplined run, after a rebuild that is not too early, only a poisoned entry does that. */
  lemma {:induction false} GoesOnDirtyIff(s0: System, past: seq<Action>, cfg: Config, s: LoopState, r: Retry)
    requires Initial(s0) && DisciplinedRun(s0, past) && After(s0, past).Some?
    requires Matches(After(s0, past).value, s) && cfg.users == After(s0, past).value.users
    requires s.Valid() && AllRestable(r.rows) && ListsOpen(cfg, s, r) && RebuildsQuietly(cfg, s, r)
      && DistinctEntries(s.pending)
    requires !RecoverAfterFailure(cfg, s, r).1
    ensures RecoverAfterFailure(cfg, s, r).0.dirty <==> Trouble(cfg, Rebuilt(cfg, s, r), r.rounds, 0, Poisons)
  {
    hide Matches, Reclaim, Rebuilt, Trouble, ListsOpen, RebuildsQuietly, WellFormed, FlawedTurn, DisciplinedRun, Clean,
      RebuildSteps, Unrelayed, OneCopyEach, StreamOk;
    var sys := After(s0, past).value;
    var s1 := Rebuilt(cfg, s, r);
    var r' := r.(others := Unrelayed(r.others));
    RebuiltUnrelayed(cfg, s, r);
    var sys1 := RebuiltIsRun(cfg, sys, s, r');
    var steps := RebuildSteps(sys, s, r');
    CleanRunsStayClean(s0, past);
    CleanIsSingle(sys);
    LeadsUsers(sys, steps, sys1);
    AfterConcat(s0, past, steps);
    DisciplinedConcat(s0, past, steps);
    DrainLeavesDirtyIff(cfg, s1, r.rounds, 0);
    forall p: nat | p < |s1.pending|
      ensures FlawedTurn(cfg, s1, r.rounds, 0, p, Fails) <==> FlawedTurn(cfg, s1, r.rounds, 0, p, Poisons)
    {
      CleanTurnFailsIff(s0, past + steps, cfg, sys1, s1, r.rounds, 0, p);
    }
    SameTrouble(cfg, s1, r.rounds, 0, Fails, Poisons);
  }

  /** As long as the stream holds the NEW_ORDER of a LIMIT order that is not processed, any rebuild is too
      early. A failed batch with such an entry is retried on a book that already has the order. */
  lemma {:induction false} UnprocessedLimitMakesRebuildEarly(s0: System, steps: seq<Action>, entry: nat)
    requires Initial(s0) && DisciplinedRun(s0, steps) && After(s0, steps).Some?
    requires entry < |After(s0, steps).value.stream| && entry !in After(s0, steps).value.tables.processed
    requires
      var e := EventAt(After(s0, steps).value, entry);
      e.NewOrder? && e.typ.Limit?
    ensures !Quiescent(After(s0, steps).value.tables)
  {
    var s := After(s0, steps).value;
    CleanRunsStayClean(s0, steps);
    assert EventKnown(s.tables.orders, s.outbox[s.stream[entry]].event);
    IsFirstArrival(s, s.tables, entry);
  }
}
