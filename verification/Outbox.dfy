/** The outbox relay: any number of publishers move rows of the outbox table to the stream, each row
    under its own lock and in its own transaction, and the append to the stream is not part of it. */
module Outbox {
  import opened Base

  /** Where a publisher is: between cycles, reading a batch with all its rows locked, about to take the next
      candidate, holding the lock of a row it has not appended yet, or holding the lock of one it has. */
  datatype Phase =
    | Resting
    | Fetching(batch: seq<nat>)
    | Going(todo: seq<nat>)
    | Locked(row: nat, todo: seq<nat>)
    | Appended(row: nat, todo: seq<nat>)
  {
    predicate Holds(id: nat) {
      ((Locked? || Appended?) && row == id) || (Fetching? && id in batch)
    }
  }

  /** `inserted` lists the row ids in the order in which they became visible. Publishers not in
      `phases` are between cycles. */
  datatype Relay = Relay(inserted: seq<nat>, published: set<nat>, stream: seq<nat>, phases: map<nat, Phase>)
  {
    function PhaseOf(p: nat): Phase {
      if p in phases then phases[p] else Resting
    }

    predicate HeldBy(id: nat, p: nat) {
      p in phases && phases[p].Holds(id)
    }

    predicate Held(id: nat) {
      exists p :: p in phases && HeldBy(id, p)
    }

    function With(p: nat, ph: Phase): Relay {
      this.(phases := phases[p := ph])
    }
  }

  datatype Move =
    | Insert(id: nat)
    | Fetch(p: nat, batch: seq<nat>, limit: nat)
    | Release(p: nat)           // the read is over, and its locks are given up
    | TakeNext(p: nat)          // lock the next candidate, or pass over it
    | Append(p: nat)
    | AppendFails(p: nat)       // nothing reached the stream
    | AppendReplyLost(p: nat)   // it did, and the publisher was not told
    | Mark(p: nat)              // marked and committed
    | MarkReplyLost(p: nat)     // marked and committed, and the publisher was not told
    | MarkFails(p: nat)         // rolled back
    | Crash(p: nat)

  /** A row a fetch may return: visible, not marked, and not locked. */
  predicate Eligible(s: Relay, id: nat) {
    id in s.inserted && id !in s.published && !s.Held(id)
  }

  predicate Ascending(xs: seq<nat>) {
    forall i, j :: 0 <= i < j < |xs| ==> xs[i] < xs[j]
  }

  /** The `limit` smallest eligible ids, in order. */
  predicate IsBatch(s: Relay, batch: seq<nat>, limit: nat) {
    && |batch| <= limit && Ascending(batch)
    && (forall i :: 0 <= i < |batch| ==> Eligible(s, batch[i]))
    && (forall id :: id in s.inserted && Eligible(s, id) && id !in batch ==>
      |batch| == limit && forall i :: 0 <= i < |batch| ==> batch[i] < id)
  }

  predicate Can(s: Relay, m: Move) {
    match m
    case Insert(id) => id !in s.inserted
    case Fetch(p, batch, limit) => s.PhaseOf(p).Resting? && IsBatch(s, batch, limit)
    case Release(p) => s.PhaseOf(p).Fetching?
    case TakeNext(p) => s.PhaseOf(p).Going? && s.PhaseOf(p).todo != []
    case Append(p) => s.PhaseOf(p).Locked?
    case AppendFails(p) => s.PhaseOf(p).Locked?
    case AppendReplyLost(p) => s.PhaseOf(p).Locked?
    case Mark(p) => s.PhaseOf(p).Appended?
    case MarkReplyLost(p) => s.PhaseOf(p).Appended?
    case MarkFails(p) => s.PhaseOf(p).Appended?
    case Crash(p) => true
  }

  /** A cycle ends when no candidate is left. */
  function Onward(todo: seq<nat>): Phase {
    if todo == [] then Resting else Going(todo)
  }

  function Do(s: Relay, m: Move): Relay
    requires Can(s, m)
  {
    match m
    case Insert(id) => s.(inserted := s.inserted + [id])
    case Fetch(p, batch, _) => s.With(p, Fetching(batch))
    case Release(p) => s.With(p, Onward(s.PhaseOf(p).batch))
    case TakeNext(p) =>
      var todo := s.PhaseOf(p).todo;
      if todo[0] in s.published || s.Held(todo[0]) then s.With(p, Onward(todo[1..]))
      else s.With(p, Locked(todo[0], todo[1..]))
    case Append(p) =>
      var ph := s.PhaseOf(p);
      s.With(p, Appended(ph.row, ph.todo)).(stream := s.stream + [ph.row])
    case AppendFails(p) => s.With(p, Resting)
    case AppendReplyLost(p) => s.With(p, Resting).(stream := s.stream + [s.PhaseOf(p).row])
    case Mark(p) =>
      var ph := s.PhaseOf(p);
      s.With(p, Onward(ph.todo)).(published := s.published + {ph.row})
    case MarkReplyLost(p) => s.With(p, Resting).(published := s.published + {s.PhaseOf(p).row})
    case MarkFails(p) => s.With(p, Resting)
    case Crash(p) => s.With(p, Resting)
  }

  /** The row that this move leaves in the stream without its mark. */
  function Stranded(s: Relay, m: Move): Option<nat>
    requires Can(s, m)
  {
    match m
    case AppendReplyLost(p) => Some(s.PhaseOf(p).row)
    case MarkFails(p) => Some(s.PhaseOf(p).row)
    case Crash(p) => if s.PhaseOf(p).Appended? then Some(s.PhaseOf(p).row) else None
    case _ => None
  }

  function Run(s0: Relay, ms: seq<Move>): Option<Relay> {
    if ms == [] then Some(s0)
    else
      var s := Run(s0, ms[..|ms| - 1]);
      if s.Some? && Can(s.value, ms[|ms| - 1]) then Some(Do(s.value, ms[|ms| - 1])) else None
  }

  /** How often a run stranded this row. */
  function Strandings(s0: Relay, ms: seq<Move>, id: nat): nat
    requires Run(s0, ms).Some?
  {
    if ms == [] then 0
    else
      var s := Run(s0, ms[..|ms| - 1]).value;
      Strandings(s0, ms[..|ms| - 1], id) + if Stranded(s, ms[|ms| - 1]) == Some(id) then 1 else 0
  }

  const START := Relay([], {}, [], map[])

  // ---------- locks ----------

  /** A row is locked by one publisher at most, and not while it is marked. */
  ghost predicate LocksOk(s: Relay) {
    && (forall p, q, id :: s.HeldBy(id, p) && s.HeldBy(id, q) ==> p == q)
    && (forall p, id :: s.HeldBy(id, p) ==> id !in s.published)
  }

  lemma DoKeepsLocks(s: Relay, m: Move)
    requires LocksOk(s) && Can(s, m)
    ensures LocksOk(Do(s, m))
  {
    var s' := Do(s, m);
    if m.TakeNext? {
      var id := s.PhaseOf(m.p).todo[0];
      assert forall q :: s.HeldBy(id, q) ==> s.Held(id);
    }
    forall p, q, id | s'.HeldBy(id, p) && s'.HeldBy(id, q) ensures p == q {
      assert p !in s.phases || s'.phases[p] != s.phases[p] || s.HeldBy(id, p);
      assert q !in s.phases || s'.phases[q] != s.phases[q] || s.HeldBy(id, q);
      if m.Append? {
        assert s.HeldBy(s.PhaseOf(m.p).row, m.p);
      }
    }
    forall p, id | s'.HeldBy(id, p) ensures id !in s'.published {
      assert p !in s.phases || s'.phases[p] != s.phases[p] || s.HeldBy(id, p);
      if m.Mark? || m.MarkReplyLost? || m.Append? {
        assert s.HeldBy(s.PhaseOf(m.p).row, m.p);
      }
    }
  }

  // ---------- how often a row is in the stream ----------

  ghost predicate InFlight(s: Relay, id: nat) {
    exists p :: s.HeldBy(id, p) && s.PhaseOf(p).Appended?
  }

  function Copies(stream: seq<nat>, id: nat): nat {
    if stream == [] then 0 else Copies(stream[..|stream| - 1], id) + if stream[|stream| - 1] == id then 1 else 0
  }

  lemma {:induction false} CopiesAppend(stream: seq<nat>, x: nat, id: nat)
    ensures Copies(stream + [x], id) == Copies(stream, id) + if x == id then 1 else 0
  {
    assert (stream + [x])[..|stream|] == stream;
  }

  /** Marked, or appended and about to be. */
  ghost function Accounted(s: Relay, id: nat): nat {
    (if id in s.published then 1 else 0) + (if InFlight(s, id) then 1 else 0)
  }

  lemma FlightAfter(s: Relay, m: Move, id: nat)
    requires LocksOk(s) && Can(s, m)
    ensures InFlight(Do(s, m), id) <==>
      || (m.Append? && s.PhaseOf(m.p).row == id)
      || (InFlight(s, id) && !((m.Mark? || m.MarkReplyLost? || m.MarkFails? || m.Crash?) && s.HeldBy(id, m.p)))
  {
    var s' := Do(s, m);
    if InFlight(s', id) {
      var p :| s'.HeldBy(id, p) && s'.PhaseOf(p).Appended?;
      if !(m.Append? && m.p == p) {
        assert s.HeldBy(id, p) && s.PhaseOf(p).Appended?;
      }
    }
    if InFlight(s, id) {
      var p :| s.HeldBy(id, p) && s.PhaseOf(p).Appended?;
      if m.Insert? || m.p != p {
        assert s'.HeldBy(id, p) && s'.PhaseOf(p).Appended?;
      }
    }
    if m.Append? && s.PhaseOf(m.p).row == id {
      assert s'.HeldBy(id, m.p) && s'.PhaseOf(m.p).Appended?;
    }
  }

  lemma {:induction false} StreamAfter(s: Relay, m: Move, id: nat)
    requires Can(s, m)
    ensures
      Copies(Do(s, m).stream, id) ==
      Copies(s.stream, id) + if (m.Append? || m.AppendReplyLost?) && s.PhaseOf(m.p).row == id then 1 else 0
  {
    hide Copies;
    if m.Append? || m.AppendReplyLost? {
      CopiesAppend(s.stream, s.PhaseOf(m.p).row, id);
    }
  }

  lemma MarksAfter(s: Relay, m: Move, id: nat)
    requires Can(s, m)
    ensures id in Do(s, m).published <==>
      id in s.published || ((m.Mark? || m.MarkReplyLost?) && s.PhaseOf(m.p).row == id)
  {
  }

  /** Where a publisher is tells what it holds. */
  lemma HolderKnows(s: Relay, p: nat, id: nat)
    requires LocksOk(s) && (s.PhaseOf(p).Locked? || s.PhaseOf(p).Appended?)
    ensures s.HeldBy(id, p) <==> s.PhaseOf(p).row == id
    ensures s.PhaseOf(p).row !in s.published
    ensures s.PhaseOf(p).Appended? && s.PhaseOf(p).row == id ==> InFlight(s, id)
    ensures s.PhaseOf(p).Locked? && s.PhaseOf(p).row == id ==> !InFlight(s, id)
  {
    assert s.HeldBy(s.PhaseOf(p).row, p);
  }

  lemma {:induction false} StepCopies(s: Relay, m: Move, id: nat)
    requires LocksOk(s) && Can(s, m)
    ensures
      Copies(Do(s, m).stream, id) - Copies(s.stream, id) ==
      Accounted(Do(s, m), id) - Accounted(s, id) + if Stranded(s, m) == Some(id) then 1 else 0
  {
    hide Copies, InFlight, Do, LocksOk;
    FlightAfter(s, m, id);
    StreamAfter(s, m, id);
    MarksAfter(s, m, id);
    if !m.Insert? && (s.PhaseOf(m.p).Locked? || s.PhaseOf(m.p).Appended?) {
      HolderKnows(s, m.p, id);
    } else if m.Crash? {
      IdleHoldsNothing(s, m.p, id);
    }
  }

  lemma IdleHoldsNothing(s: Relay, p: nat, id: nat)
    requires LocksOk(s) && !s.PhaseOf(p).Appended?
    ensures s.HeldBy(id, p) ==> !InFlight(s, id)
  {
  }

  lemma {:induction false} RunKeepsLocks(ms: seq<Move>)
    requires Run(START, ms).Some?
    ensures LocksOk(Run(START, ms).value)
    decreases |ms|
  {
    if ms != [] {
      RunKeepsLocks(ms[..|ms| - 1]);
      DoKeepsLocks(Run(START, ms[..|ms| - 1]).value, ms[|ms| - 1]);
    }
  }

  /** In every run, with any number of publishers and failures anywhere: the copies of a row in the
      stream are one for its mark, one if it is just being published, and one for every time it was
      appended and its mark lost. */
  lemma {:induction false} EveryCopyIsAccounted(ms: seq<Move>, id: nat)
    requires Run(START, ms).Some?
    ensures Copies(Run(START, ms).value.stream, id) == Accounted(Run(START, ms).value, id) + Strandings(START, ms, id)
    ensures !(id in Run(START, ms).value.published && InFlight(Run(START, ms).value, id))
    decreases |ms|
  {
    RunKeepsLocks(ms);
    if ms == [] {
      assert !InFlight(START, id);
    } else {
      var pre := ms[..|ms| - 1];
      EveryCopyIsAccounted(pre, id);
      RunKeepsLocks(pre);
      StepCopies(Run(START, pre).value, ms[|ms| - 1], id);
    }
  }

  lemma {:induction false} CopiesMember(stream: seq<nat>, id: nat)
    ensures Copies(stream, id) > 0 <==> id in stream
    decreases |stream|
  {
    if stream != [] {
      CopiesMember(stream[..|stream| - 1], id);
      assert stream == stream[..|stream| - 1] + [stream[|stream| - 1]];
    }
  }

  /** A marked row is in the stream, and a row is there at most once as long as no commit after an
      append, and no reply to one, is lost. */
  lemma {:induction false} PublishedOnceUnlessStranded(ms: seq<Move>, id: nat)
    requires Run(START, ms).Some?
    ensures id in Run(START, ms).value.published ==> id in Run(START, ms).value.stream
    ensures Strandings(START, ms, id) == 0 ==> Copies(Run(START, ms).value.stream, id) <= 1
    ensures id in Run(START, ms).value.published ==>
      (Copies(Run(START, ms).value.stream, id) == 1 <==> Strandings(START, ms, id) == 0)
  {
    EveryCopyIsAccounted(ms, id);
    CopiesMember(Run(START, ms).value.stream, id);
  }

  // ---------- one publisher ----------

  /** The only publisher is `p`, rows become visible in id order, and nothing is stranded. */
  predicate SoloMove(s: Relay, p: nat, m: Move)
    requires Can(s, m)
  {
    match m
    case Insert(id) => forall i :: 0 <= i < |s.inserted| ==> s.inserted[i] < id
    case _ => m.p == p && Stranded(s, m).None?
  }

  predicate SoloRun(p: nat, ms: seq<Move>) {
    ms == [] ||
    (SoloRun(p, ms[..|ms| - 1]) && Run(START, ms[..|ms| - 1]).Some?
      && Can(Run(START, ms[..|ms| - 1]).value, ms[|ms| - 1])
     && SoloMove(Run(START, ms[..|ms| - 1]).value, p, ms[|ms| - 1]))
  }

  /** What a publisher still has before it, the row it has locked included. */
  function InHand(ph: Phase): seq<nat> {
    match ph
    case Resting => []
    case Fetching(batch) => batch
    case Going(todo) => todo
    case Locked(row, todo) => [row] + todo
    case Appended(row, todo) => [row] + todo
  }

  function Members(xs: seq<nat>): set<nat> {
    set i | 0 <= i < |xs| :: xs[i]
  }

  /** The first `n` rows are published, in order and nothing else; the publisher works on the next. */
  predicate InLine(s: Relay, p: nat, n: nat) {
    && Ascending(s.inserted) && s.phases.Keys <= {p} && n <= |s.inserted|
    && s.published == Members(s.inserted[..n])
    && InHand(s.PhaseOf(p)) <= s.inserted[n..]
    && s.stream == s.inserted[..if s.PhaseOf(p).Appended? then n + 1 else n]
  }

  lemma MemberOfPrefix(xs: seq<nat>, n: nat, k: nat)
    requires Ascending(xs) && n <= |xs| && k < |xs|
    ensures xs[k] in Members(xs[..n]) <==> k < n
  {
    if k < n {
      assert xs[..n][k] == xs[k];
    } else {
      forall i | 0 <= i < n ensures xs[..n][i] != xs[k] {
        assert xs[i] < xs[k];
      }
    }
  }

  lemma EligibleIsUnpublished(s: Relay, p: nat, n: nat, k: nat)
    requires InLine(s, p, n) && s.PhaseOf(p).Resting? && k < |s.inserted|
    ensures Eligible(s, s.inserted[k]) <==> n <= k
  {
    assert !s.Held(s.inserted[k]);
    MemberOfPrefix(s.inserted, n, k);
  }

  predicate From(xs: seq<nat>, n: nat, x: nat) {
    exists k :: n <= k < |xs| && xs[k] == x
  }

  predicate AllLess(batch: seq<nat>, x: nat) {
    forall i :: 0 <= i < |batch| ==> batch[i] < x
  }

  /** Eligible rows only, and every row passed over comes later. */
  predicate TakesNext(xs: seq<nat>, n: nat, batch: seq<nat>) {
    && Ascending(xs) && Ascending(batch) && n <= |xs|
    && (forall i :: 0 <= i < |batch| ==> From(xs, n, batch[i]))
    && (forall k :: n <= k < |xs| ==> xs[k] in batch || AllLess(batch, xs[k]))
  }

  lemma {:induction false} NextInLine(xs: seq<nat>, n: nat, batch: seq<nat>, i: nat)
    requires TakesNext(xs, n, batch) && i < |batch|
    ensures n + i < |xs| && batch[i] == xs[n + i]
    decreases i
  {
    if i > 0 {
      NextInLine(xs, n, batch, i - 1);
    }
    assert From(xs, n, batch[i]);
    var k :| n <= k < |xs| && xs[k] == batch[i];
    AtLeast(xs, n, batch, i, k);
    NextIsInBatch(batch, xs[n + i], i + 1);
  }

  lemma AtLeast(xs: seq<nat>, n: nat, batch: seq<nat>, i: nat, k: nat)
    requires Ascending(xs) && Ascending(batch) && i < |batch| && n <= k < |xs| && xs[k] == batch[i]
    requires i > 0 ==> n + i - 1 < |xs| && batch[i - 1] == xs[n + i - 1]
    ensures n + i <= k && xs[n + i] <= batch[i] && (i > 0 ==> batch[i - 1] < xs[n + i])
  {
    if i > 0 {
      assert batch[i - 1] < batch[i];
      assert forall j :: 0 <= j <= n + i - 1 ==> xs[j] <= xs[n + i - 1];
    }
    assert forall j :: 0 <= j < k ==> xs[j] < xs[k];
  }

  /** A fetch returns the next rows of the line. */
  lemma FetchIsNext(s: Relay, p: nat, n: nat, batch: seq<nat>, limit: nat)
    requires InLine(s, p, n) && s.PhaseOf(p).Resting? && IsBatch(s, batch, limit)
    ensures batch <= s.inserted[n..]
  {
    FetchTakesNext(s, p, n, batch, limit);
    if batch != [] {
      NextInLine(s.inserted, n, batch, |batch| - 1);
    }
    forall i | 0 <= i < |batch| ensures batch[i] == s.inserted[n..][i] {
      NextInLine(s.inserted, n, batch, i);
    }
  }

  lemma FetchTakesNext(s: Relay, p: nat, n: nat, batch: seq<nat>, limit: nat)
    requires InLine(s, p, n) && s.PhaseOf(p).Resting? && IsBatch(s, batch, limit)
    ensures TakesNext(s.inserted, n, batch)
  {
    hide Eligible;
    forall i | 0 <= i < |batch| ensures From(s.inserted, n, batch[i]) {
      assert Eligible(s, batch[i]);
      EligibleIsFrom(s, p, n, batch[i]);
    }
    forall k | n <= k < |s.inserted| ensures s.inserted[k] in batch || AllLess(batch, s.inserted[k]) {
      EligibleIsUnpublished(s, p, n, k);
    }
  }

  lemma EligibleIsFrom(s: Relay, p: nat, n: nat, id: nat)
    requires InLine(s, p, n) && s.PhaseOf(p).Resting? && Eligible(s, id)
    ensures From(s.inserted, n, id)
  {
    var k :| 0 <= k < |s.inserted| && s.inserted[k] == id;
    EligibleIsUnpublished(s, p, n, k);
  }

  lemma NextIsInBatch(batch: seq<nat>, id: nat, i: nat)
    requires 0 < i <= |batch| && Ascending(batch) && id <= batch[i - 1] && (i > 1 ==> batch[i - 2] < id)
    requires id in batch || AllLess(batch, id)
    ensures batch[i - 1] == id
  {
    assert forall j :: i - 1 < j < |batch| ==> batch[i - 1] < batch[j];
    assert forall j :: 0 <= j < i - 1 ==> batch[j] <= batch[i - 2];
    if id in batch {
      var j :| 0 <= j < |batch| && batch[j] == id;
    }
  }

  lemma InsertKeepsLine(s: Relay, p: nat, n: nat, id: nat)
    requires InLine(s, p, n) && forall i :: 0 <= i < |s.inserted| ==> s.inserted[i] < id
    ensures InLine(s.(inserted := s.inserted + [id]), p, n)
  {
    var ys := s.inserted + [id];
    assert ys[..n] == s.inserted[..n] && ys[n..] == s.inserted[n..] + [id];
    if s.PhaseOf(p).Appended? {
      assert |InHand(s.PhaseOf(p))| > 0;
      assert ys[..n + 1] == s.inserted[..n + 1];
    }
  }

  lemma TakeKeepsLine(s: Relay, p: nat, n: nat)
    requires InLine(s, p, n) && Can(s, TakeNext(p))
    ensures InLine(Do(s, TakeNext(p)), p, n)
  {
    var todo := s.PhaseOf(p).todo;
    assert todo == [todo[0]] + todo[1..];
    assert todo[0] == s.inserted[n..][0] == s.inserted[n];
    NotHeld(s, p, todo[0]);
    MemberOfPrefix(s.inserted, n, n);
  }

  lemma AppendKeepsLine(s: Relay, p: nat, n: nat)
    requires InLine(s, p, n) && s.PhaseOf(p).Locked?
    ensures InLine(Do(s, Append(p)), p, n)
  {
    assert s.inserted[n] == s.inserted[n..][0] == ([s.PhaseOf(p).row] + s.PhaseOf(p).todo)[0];
    assert s.inserted[..n + 1] == s.inserted[..n] + [s.inserted[n]];
  }

  lemma SoloKeepsLine(s: Relay, p: nat, n: nat, m: Move) returns (n': nat)
    requires InLine(s, p, n) && Can(s, m) && SoloMove(s, p, m)
    ensures InLine(Do(s, m), p, n')
  {
    n' := n;
    match m
    case Insert(id) => InsertKeepsLine(s, p, n, id);
    case Fetch(_, batch, limit) =>
      FetchIsNext(s, p, n, batch, limit);
    case TakeNext(_) => TakeKeepsLine(s, p, n);
    case Append(_) => AppendKeepsLine(s, p, n);
    case Mark(_) => n' := n + 1; MarkedLine(s, p, n);
    case MarkReplyLost(_) => n' := n + 1; MarkedLine(s, p, n);
    case _ =>
  }

  lemma NotHeld(s: Relay, p: nat, id: nat)
    requires s.phases.Keys <= {p} && s.PhaseOf(p).Going?
    ensures !s.Held(id)
  {
  }

  lemma MarkedLine(s: Relay, p: nat, n: nat)
    requires InLine(s, p, n) && s.PhaseOf(p).Appended?
    ensures n < |s.inserted| && s.PhaseOf(p).row == s.inserted[n] && s.PhaseOf(p).todo <= s.inserted[n + 1..]
    ensures Members(s.inserted[..n + 1]) == s.published + {s.inserted[n]}
  {
    var ph := s.PhaseOf(p);
    assert s.inserted[n] == s.inserted[n..][0] == ([ph.row] + ph.todo)[0];
    assert ph.todo == ([ph.row] + ph.todo)[1..];
    assert s.inserted[n..][1..] == s.inserted[n + 1..];
    var xs := s.inserted[..n + 1];
    assert xs == s.inserted[..n] + [s.inserted[n]];
    forall i | 0 <= i < n ensures s.inserted[..n][i] in Members(xs) {
      assert xs[i] == s.inserted[..n][i];
    }
    assert xs[n] in Members(xs);
  }

  /** With one publisher, rows visible in id order and no stranding, the stream is the table's rows
      in id order up to the last published one, or to the one just being published. */
  lemma {:induction false} SinglePublisherKeepsOrder(ms: seq<Move>, p: nat) returns (n: nat)
    requires Run(START, ms).Some? && SoloRun(p, ms)
    ensures
      var s := Run(START, ms).value;
      && Ascending(s.inserted) && n <= |s.inserted| && s.published == Members(s.inserted[..n])
      && n <= |s.stream| <= |s.inserted| && s.stream == s.inserted[..|s.stream|]
      && (|s.stream| == n || (|s.stream| == n + 1 && s.PhaseOf(p).Appended?))
    decreases |ms|
  {
    n := LineIsKept(ms, p);
    assert Run(START, ms).value.PhaseOf(p).Appended? ==> n < |Run(START, ms).value.inserted|;
  }

  lemma {:induction false} LineIsKept(ms: seq<Move>, p: nat) returns (n: nat)
    requires Run(START, ms).Some? && SoloRun(p, ms)
    ensures InLine(Run(START, ms).value, p, n)
    decreases |ms|
  {
    n := 0;
    if ms != [] {
      n := LineIsKept(ms[..|ms| - 1], p);
      n := SoloKeepsLine(Run(START, ms[..|ms| - 1]).value, p, n, ms[|ms| - 1]);
    }
  }

  // ---------- one publisher's code, with the others at work ----------

  lemma {:induction false} RunConcat(s: Relay, xs: seq<Move>, ys: seq<Move>)
    requires Run(s, xs).Some?
    ensures Run(s, xs + ys) == Run(Run(s, xs).value, ys)
    decreases |ys|
  {
    if ys == [] {
      assert xs + ys == xs;
    } else {
      var pre := ys[..|ys| - 1];
      assert (xs + ys)[..|xs + ys| - 1] == xs + pre;
      RunConcat(s, xs, pre);
    }
  }

  predicate ByOther(me: nat, m: Move) {
    m.Insert? || m.p != me
  }

  /** A publisher's own moves in a run, in order. */
  function Own(me: nat, ms: seq<Move>): seq<Move> {
    if ms == [] then []
    else
      var pre := Own(me, ms[..|ms| - 1]);
      if ByOther(me, ms[|ms| - 1]) then pre else pre + [ms[|ms| - 1]]
  }

  lemma {:induction false} OwnConcat(me: nat, xs: seq<Move>, ys: seq<Move>)
    ensures Own(me, xs + ys) == Own(me, xs) + Own(me, ys)
    decreases |ys|
  {
    if ys == [] {
      assert xs + ys == xs;
    } else {
      var pre := ys[..|ys| - 1];
      assert (xs + ys)[..|xs + ys| - 1] == xs + pre;
      OwnConcat(me, xs, pre);
    }
  }

  /** A run leads from one state to another, and with it goes what one publisher has done. */
  predicate MovesLead(me: nat, s: Relay, ms: seq<Move>, s': Relay, own: seq<Move>) {
    Run(s, ms) == Some(s') && Own(me, ms) == own
  }

  lemma MovesLeadFurther(me: nat, s: Relay, xs: seq<Move>, mid: Relay, own: seq<Move>, ys: seq<Move>, s': Relay,
                     more: seq<Move>)
    requires MovesLead(me, s, xs, mid, own) && MovesLead(me, mid, ys, s', more)
    ensures MovesLead(me, s, xs + ys, s', own + more)
  {
    RunConcat(s, xs, ys);
    OwnConcat(me, xs, ys);
  }

  lemma LeadsOne(me: nat, s: Relay, m: Move)
    requires Can(s, m) && !ByOther(me, m)
    ensures MovesLead(me, s, [m], Do(s, m), [m])
  {
    hide Do, Can;
    assert [m][..0] == [] && Run(s, []) == Some(s) && Own(me, []) == [];
  }

  /** Marks and stream entries stay. */
  lemma {:induction false} NothingIsTakenBack(s: Relay, ms: seq<Move>)
    requires Run(s, ms).Some?
    ensures s.published <= Run(s, ms).value.published && s.stream <= Run(s, ms).value.stream
    decreases |ms|
  {
    if ms != [] { NothingIsTakenBack(s, ms[..|ms| - 1]); }
  }

  /** How the attempt at one candidate goes, as far as it depends on the connections. */
  datatype Fate = Fine | LockError | AppendError | AppendLost | MarkError | MarkLost

  /** The moves once a row is locked, by the fate of the attempt. */
  function OnceLocked(me: nat, fate: Fate): seq<Move> {
    match fate
    case AppendError => [AppendFails(me)]
    case AppendLost => [AppendReplyLost(me)]
    case MarkError => [Append(me), MarkFails(me)]
    case MarkLost => [Append(me), MarkReplyLost(me)]
    case _ => [Append(me), Mark(me)]
  }

  /** The moves of an attempt, by its fate and by whether the row could be locked at all. */
  function Attempt(me: nat, fate: Fate, locked: bool): seq<Move> {
    if fate.LockError? then [Crash(me)]
    else if !locked then [TakeNext(me)]
    else [TakeNext(me)] + OnceLocked(me, fate)
  }

  /** Rows this publisher has appended, marked and committed: no row twice, and each is in the stream and
      stays marked. */
  predicate Delivered(s: Relay, done: seq<nat>) {
    && (forall i :: 0 <= i < |done| ==> done[i] in s.published && done[i] in s.stream)
    && (forall i, j :: 0 <= i < j < |done| ==> done[i] != done[j])
  }

  /** A candidate that can be locked when its turn comes: nobody has marked it or holds it. */
  predicate Free(s: Relay, id: nat) {
    id !in s.published && !s.Held(id)
  }

  /** At this moment of a run the publisher turns to its next candidate. */
  predicate IsTurn(me: nat, s0: Relay, ms: seq<Move>, k: nat) {
    k < |ms| && ms[k] == TakeNext(me) && Run(s0, ms[..k]).Some?
  }

  predicate AreTurns(me: nat, s0: Relay, ms: seq<Move>, turns: seq<nat>) {
    Ascending(turns) && forall i :: 0 <= i < |turns| ==> IsTurn(me, s0, ms, turns[i])
  }

  /** The candidates, in order, that were free at their turns. */
  function FreeAtTurn(me: nat, s0: Relay, ms: seq<Move>, batch: seq<nat>, turns: seq<nat>): seq<nat>
    requires AreTurns(me, s0, ms, turns) && |turns| <= |batch|
  {
    if turns == [] then []
    else
      var n := |turns| - 1;
      FreeAtTurn(me, s0, ms, batch, turns[..n])
        + if Free(Run(s0, ms[..turns[n]]).value, batch[n]) then [batch[n]] else []
  }

  lemma IsTurnStays(me: nat, s0: Relay, ms: seq<Move>, more: seq<Move>, k: nat)
    requires IsTurn(me, s0, ms, k)
    ensures IsTurn(me, s0, ms + more, k) && (ms + more)[..k] == ms[..k]
  {
    assert (ms + more)[..k] == ms[..k];
  }

  /** A longer run has the same turns so far. */
  lemma {:induction false} TurnsStay(me: nat, s0: Relay, ms: seq<Move>, more: seq<Move>, batch: seq<nat>,
                                     turns: seq<nat>)
    requires AreTurns(me, s0, ms, turns) && |turns| <= |batch|
    ensures AreTurns(me, s0, ms + more, turns)
    ensures FreeAtTurn(me, s0, ms + more, batch, turns) == FreeAtTurn(me, s0, ms, batch, turns)
    decreases |turns|
  {
    hide Run, Free;
    forall i | 0 <= i < |turns| ensures IsTurn(me, s0, ms + more, turns[i]) {
      hide IsTurn;
      IsTurnStays(me, s0, ms, more, turns[i]);
    }
    if turns != [] {
      TurnsStay(me, s0, ms, more, batch, turns[..|turns| - 1]);
      IsTurnStays(me, s0, ms, more, turns[|turns| - 1]);
    }
  }

  /** The candidates read at this moment of a run are the first eligible rows then. */
  predicate ReadAt(s: Relay, ms: seq<Move>, k: int, batch: seq<nat>, limit: nat) {
    0 <= k <= |ms| && Run(s, ms[..k]).Some? && IsBatch(Run(s, ms[..k]).value, batch, limit)
  }

  /** At this moment of a run a publisher turns to a candidate, and that is when it is found free or not. */
  predicate TurnsAt(me: nat, s: Relay, ms: seq<Move>, turn: int, id: nat, free: bool) {
    && 0 <= turn < |ms| && ms[turn] == TakeNext(me)
    && Run(s, ms[..turn]).Some? && free == Free(Run(s, ms[..turn]).value, id)
  }

  lemma TurnBegins(me: nat, s0: Relay, ms: seq<Move>, mid: Relay, more: seq<Move>, n: nat, id: nat, free: bool)
    requires Run(s0, ms) == Some(mid) && TurnsAt(me, mid, more, n, id, free)
    ensures IsTurn(me, s0, ms + more, |ms| + n)
    ensures Free(Run(s0, (ms + more)[..|ms| + n]).value, id) == free
  {
    hide Run, Free;
    RunConcat(s0, ms, more[..n]);
    assert (ms + more)[..|ms| + n] == ms + more[..n];
  }

  lemma TurnsSnoc(me: nat, s0: Relay, ms: seq<Move>, batch: seq<nat>, turns: seq<nat>, k: nat)
    requires AreTurns(me, s0, ms, turns) && IsTurn(me, s0, ms, k) && |turns| < |batch|
    requires forall i :: 0 <= i < |turns| ==> turns[i] < k
    ensures AreTurns(me, s0, ms, turns + [k])
    ensures FreeAtTurn(me, s0, ms, batch, turns + [k]) ==
      FreeAtTurn(me, s0, ms, batch, turns)
        + if Free(Run(s0, ms[..k]).value, batch[|turns|]) then [batch[|turns|]] else []
  {
    hide Run, Free;
    assert (turns + [k])[..|turns|] == turns;
  }

  /** One more turn. */
  lemma NextTurn(me: nat, s0: Relay, ms: seq<Move>, mid: Relay, more: seq<Move>, n: nat, batch: seq<nat>,
                 turns: seq<nat>, free: bool)
    requires AreTurns(me, s0, ms, turns) && |turns| < |batch| && Run(s0, ms) == Some(mid)
    requires TurnsAt(me, mid, more, n, batch[|turns|], free)
    ensures AreTurns(me, s0, ms + more, turns + [|ms| + n])
    ensures FreeAtTurn(me, s0, ms + more, batch, turns + [|ms| + n]) ==
      FreeAtTurn(me, s0, ms, batch, turns) + if free then [batch[|turns|]] else []
  {
    hide Run, Free, TurnsAt, FreeAtTurn, Ascending;
    TurnsStay(me, s0, ms, more, batch, turns);
    TurnBegins(me, s0, ms, mid, more, n, batch[|turns|], free);
    forall i | 0 <= i < |turns| ensures turns[i] < |ms| {
      assert IsTurn(me, s0, ms, turns[i]);
    }
    TurnsSnoc(me, s0, ms + more, batch, turns, |ms| + n);
  }

  /** Every attempt goes well. */
  predicate AllFine(fates: seq<Fate>) {
    forall i :: 0 <= i < |fates| ==> fates[i].Fine?
  }

  /** These rows, and nothing else, have come to the stream and are marked. */
  function Relayed(s: Relay, rows: seq<nat>, me: nat, ph: Phase): Relay {
    Relay(s.inserted, s.published + Members(rows), s.stream + rows, s.phases[me := ph])
  }

  /** The database's answer to the fetch: whatever the state, the first eligible rows. */
  ghost predicate Selects(select: (Relay, nat) -> seq<nat>) {
    forall s: Relay, n: nat :: IsBatch(s, select(s, n), n)
  }

  lemma {:induction false} Smallest(e: set<nat>) returns (m: nat)
    requires e != {}
    ensures m in e && forall x :: x in e ==> m <= x
    decreases |e|
  {
    m :| m in e;
    if e - {m} != {} {
      var r := Smallest(e - {m});
      assert forall x :: x in e && x != m ==> x in e - {m};
      m := if r < m then r else m;
    }
  }

  lemma {:induction false} FirstOf(e: set<nat>, n: nat) returns (batch: seq<nat>)
    ensures |batch| <= n && Ascending(batch) && forall i :: 0 <= i < |batch| ==> batch[i] in e
    ensures forall id :: id in e && id !in batch ==> |batch| == n && forall i :: 0 <= i < |batch| ==> batch[i] < id
    decreases n
  {
    batch := [];
    if n > 0 && e != {} {
      var m := Smallest(e);
      var rest := FirstOf(e - {m}, n - 1);
      batch := [m] + rest;
      forall id | id in e && id !in batch ensures |batch| == n && forall i :: 0 <= i < |batch| ==> batch[i] < id {
        assert id != m by { assert batch[0] == m; }
        assert id !in rest by { assert forall i :: 0 <= i < |rest| ==> batch[i + 1] == rest[i]; }
      }
    }
  }

  /** There is always such an answer to give. */
  lemma BatchExists(s: Relay, limit: nat) returns (batch: seq<nat>)
    ensures IsBatch(s, batch, limit)
  {
    var eligible := set id | id in s.inserted && Eligible(s, id);
    batch := FirstOf(eligible, limit);
  }

  ghost function FirstBatch(s: Relay, limit: nat): seq<nat> {
    if exists batch :: IsBatch(s, batch, limit) then (var batch :| IsBatch(s, batch, limit); batch) else []
  }

  /** So the database can keep to it. */
  lemma SelectsExists()
    ensures exists select: (Relay, nat) -> seq<nat> :: Selects(select)
  {
    var select := (s: Relay, limit: nat) => FirstBatch(s, limit);
    forall s: Relay, limit: nat ensures IsBatch(s, select(s, limit), limit) {
      var batch := BatchExists(s, limit);
    }
    assert Selects(select);
  }

  /** A publisher and the table and stream it shares with the others. Between any two of its own moves
      the others make theirs, which are given from outside. */
  class Publisher {
    const me: nat
    const others: nat -> seq<Move>
    const select: (Relay, nat) -> seq<nat>
    var relay: Relay
    var clock: nat

    /** Nobody else is at work. */
    ghost predicate Alone() {
      forall k :: others(k) == []
    }

    /** Everybody else's moves, as far as they are possible. */
    method Interfere() returns (ghost trace: seq<Move>)
      modifies this
      ensures Alone() ==> relay == old(relay)
      ensures MovesLead(me, old(relay), trace, relay, []) && relay.PhaseOf(me) == old(relay.PhaseOf(me))
    {
      var ms := others(clock);
      ghost var s0 := relay;
      trace := [];
      for i := 0 to |ms|
        invariant MovesLead(me, s0, trace, relay, []) && relay.PhaseOf(me) == s0.PhaseOf(me)
        invariant ms == [] ==> relay == s0
      {
        if ByOther(me, ms[i]) && Can(relay, ms[i]) {
          OtherMove(me, relay, ms[i]);
          MovesLeadFurther(me, s0, trace, relay, [], [ms[i]], Do(relay, ms[i]), []);
          trace := trace + [ms[i]];
          relay := Do(relay, ms[i]);
        }
      }
      clock := clock + 1;
    }

    /** One move of this publisher, after the others have made theirs. */
    method Make(m: Move) returns (ghost trace: seq<Move>)
      requires !ByOther(me, m) && (m.TakeNext? ==> relay.PhaseOf(me).Going? && relay.PhaseOf(me).todo != [])
      requires (m.Append? || m.AppendFails? || m.AppendReplyLost? ==> relay.PhaseOf(me).Locked?) && !m.Fetch?
      requires (m.Mark? || m.MarkFails? || m.MarkReplyLost? ==> relay.PhaseOf(me).Appended?)
        && (m.Release? ==> relay.PhaseOf(me).Fetching?)
      modifies this
      ensures MovesLead(me, old(relay), trace, relay, [m]) && trace != [] && trace[|trace| - 1] == m
      ensures MadeFrom(m, old(relay), trace[..|trace| - 1], relay)
      ensures Alone() ==> Can(old(relay), m) && relay == Do(old(relay), m)
    {
      ghost var s0 := relay;
      trace := Interfere();
      ghost var mid := relay;
      LeadsOne(me, mid, m);
      MovesLeadFurther(me, s0, trace, mid, [], [m], Do(mid, m), [m]);
      relay := Do(relay, m);
      assert (trace + [m])[..|trace|] == trace;
      trace := trace + [m];
    }

    /** The move was made in a state in which this publisher was where it had been. */
    ghost predicate MadeFrom(m: Move, before: Relay, between: seq<Move>, after: Relay) {
      var mid := Run(before, between);
      mid.Some? && mid.value.PhaseOf(me) == before.PhaseOf(me) && Can(mid.value, m) && after == Do(mid.value, m)
    }

    /** Appends the locked row, marks it, and commits. */
    method AppendAndMark(fate: Fate) returns (ghost trace: seq<Move>)
      requires relay.PhaseOf(me).Locked? && !fate.LockError?
      modifies this
      ensures MovesLead(me, old(relay), trace, relay, OnceLocked(me, fate))
      ensures relay.PhaseOf(me) == if fate.Fine? then Onward(old(relay.PhaseOf(me).todo)) else Resting
      ensures fate.Fine? ==> old(relay.PhaseOf(me).row) in relay.published && old(relay.PhaseOf(me).row) in relay.stream
      ensures Alone() && fate.Fine? ==>
        relay == Relayed(old(relay), [old(relay.PhaseOf(me).row)], me, Onward(old(relay.PhaseOf(me).todo)))
    {
      ghost var s0, id := relay, relay.PhaseOf(me).row;
      if fate.AppendError? {
        trace := Make(AppendFails(me));
        return;
      }
      if fate.AppendLost? {
        trace := Make(AppendReplyLost(me));
        return;
      }
      trace := Make(Append(me));
      ghost var s1 := relay;
      assert s1.stream[|s1.stream| - 1] == id;
      var last := if fate.MarkError? then MarkFails(me) else if fate.MarkLost? then MarkReplyLost(me) else Mark(me);
      ghost var more := Make(last);
      MovesLeadFurther(me, s0, trace, s1, [Append(me)], more, relay, [last]);
      StreamKeeps(s1, more, relay, |s1.stream| - 1);
      trace := trace + more;
      assert [Append(me)] + [last] == OnceLocked(me, fate);
    }

    /** Locks the candidate if it is still unpublished and free, appends it, marks it, commits. The moves are
        those of the attempt, with anything the others do in between. */
    method PublishAndMarkOne(fate: Fate)
      returns (ok: bool, err: bool, ghost trace: seq<Move>, ghost locked: bool, ghost turn: int)
      requires relay.PhaseOf(me).Going? && relay.PhaseOf(me).todo != []
      modifies this
      ensures MovesLead(me, old(relay), trace, relay, Attempt(me, fate, locked))
      ensures err <==> fate.LockError? || (locked && !fate.Fine?)
      ensures ok <==> locked && fate.Fine?
      ensures relay.PhaseOf(me) == if err then Resting else Onward(old(relay.PhaseOf(me).todo)[1..])
      ensures
        var id := old(relay.PhaseOf(me).todo)[0];
        ok ==> id in relay.published && id in relay.stream && id !in old(relay.published)
      ensures !fate.LockError? ==> TurnsAt(me, old(relay), trace, turn, old(relay.PhaseOf(me).todo)[0], locked)
      ensures
        var todo := old(relay.PhaseOf(me).todo);
        Alone() && fate.Fine? && Free(old(relay), todo[0]) ==>
        ok && relay == Relayed(old(relay), todo[..1], me, Onward(todo[1..]))
    {
      ghost var s0 := relay;
      if fate.LockError? {
        trace := Make(Crash(me));
        return false, true, trace, false, 0;
      }
      trace := Make(TakeNext(me));
      turn := |trace| - 1;
      ghost var before := trace[..turn];
      if !relay.PhaseOf(me).Locked? {
        return false, false, trace, false, turn;
      }
      ghost var s1 := relay;
      TakenIsNew(me, s0, trace, s1);
      ghost var more := AppendAndMark(fate);
      MovesLeadFurther(me, s0, trace, s1, [TakeNext(me)], more, relay, OnceLocked(me, fate));
      assert (trace + more)[..turn] == before;
      return fate.Fine?, !fate.Fine?, trace + more, true, turn;
    }

    /** The query for candidates: the first eligible rows, all locked. */
    method Select(limit: nat) returns (ghost trace: seq<Move>, ghost batch: seq<nat>)
      requires relay.PhaseOf(me).Resting? && Selects(select)
      modifies this
      ensures MovesLead(me, old(relay), trace, relay, [Fetch(me, batch, limit)]) && trace != []
      ensures relay.PhaseOf(me) == Fetching(batch) && ReadAt(old(relay), trace, |trace| - 1, batch, limit)
      ensures Alone() ==> IsBatch(old(relay), batch, limit) && relay == old(relay).With(me, Fetching(batch))
    {
      ghost var s0 := relay;
      trace := Interfere();
      batch := select(relay, limit);
      ghost var mid, m := relay, Fetch(me, batch, limit);
      LeadsOne(me, mid, m);
      MovesLeadFurther(me, s0, trace, mid, [], [m], Do(mid, m), [m]);
      relay := Do(relay, Fetch(me, select(relay, limit), limit));
      assert (trace + [m])[..|trace|] == trace;
      trace := trace + [m];
    }

    /** Reads the first eligible rows, which it locks for the time of the read. */
    method FetchBatch(limit: nat, fails: bool) returns (n: nat, ghost c: Cycle, ghost fetched: nat)
      requires relay.PhaseOf(me).Resting? && Selects(select)
      modifies this
      ensures Cycling(me, c) && c.start == old(relay) && c.now == relay && c.turns == [] == c.done && c.err == fails
      ensures n == |c.batch| <= limit && ReadAt(old(relay), c.trace, fetched, c.batch, limit)
      ensures relay.PhaseOf(me) == if fails then Resting else Onward(c.batch)
      ensures Alone() ==> IsBatch(old(relay), c.batch, limit)
      ensures Alone() && !fails ==> relay == Relayed(old(relay), [], me, Onward(c.batch))
    {
      hide Run, Own, Marks, Failures, FreeAtTurn, AreTurns, IsBatch, Free, Relayed, Delivered, Cycling;
      ghost var s0 := relay;
      ghost var trace, batch := Select(limit);
      fetched := |trace| - 1;
      n := |relay.PhaseOf(me).batch|;
      var last := if fails then Crash(me) else Release(me);
      ghost var s1 := relay;
      ghost var more := Make(last);
      c := CycleBegins(me, s0, trace, s1, Fetch(me, batch, limit), more, relay, last);
      ReadBefore(s0, trace, fetched, batch, limit, more);
      RelayedNone(s0, me, batch);
    }

    /** One cycle: reads a batch under its locks, gives them up, and tries one candidate after the other until
        there is none left or one fails. The batch is of the first eligible rows when it was read. A cycle without
        an error has tried every candidate, and the rows done are those that were free at their turns. The count
        is of the marks it has made, each of an event that was not published before and is in the stream now.
        With nobody else at work and no failure, that is the whole batch, appended in order, and nothing else. */
    method PublishOnce(limit: nat, fetchFails: bool, fates: seq<Fate>)
      returns (count: nat, err: bool, ghost trace: seq<Move>, ghost done: seq<nat>, ghost batch: seq<nat>,
               ghost fetched: nat, ghost turns: seq<nat>)
      requires relay.PhaseOf(me).Resting? && Selects(select) && |fates| >= limit
      modifies this
      ensures Run(old(relay), trace) == Some(relay) && relay.PhaseOf(me).Resting?
      ensures count == |done| == Marks(Own(me, trace)) && Delivered(relay, done)
      ensures forall i :: 0 <= i < |done| ==> done[i] !in old(relay.published)
      ensures Failures(Own(me, trace)) == if err then 1 else 0
      ensures ReadAt(old(relay), trace, fetched, batch, limit)
      ensures AreTurns(me, old(relay), trace, turns) && |turns| <= |batch| && (!err ==> |turns| == |batch|)
      ensures done == FreeAtTurn(me, old(relay), trace, batch, turns)
      ensures Alone() && !fetchFails && AllFine(fates) ==>
        !err && done == batch && IsBatch(old(relay), batch, limit)
        && relay == Relayed(old(relay), batch, me, Resting)
    {
      hide Run, Own, Marks, Failures, Attempt, FreeAtTurn, AreTurns, IsBatch, Free, Relayed, Delivered, Cycling;
      ghost var s0 := relay;
      var n;
      ghost var c, more;
      n, c, fetched := FetchBatch(limit, fetchFails);
      batch := c.batch;
      ghost var read, smooth := c.trace, Alone() && !fetchFails && AllFine(fates);
      var k := 0;
      count, err := 0, fetchFails;
      while relay.PhaseOf(me).Going?
        invariant Cycling(me, c) && c.start == s0 && c.batch == batch && c.now == relay && c.err == err
        invariant k <= n && count == |c.done| && read <= c.trace
        invariant relay.PhaseOf(me) == if err then Resting else Onward(batch[k..])
        invariant !err ==> |c.turns| == k
        invariant smooth ==> !err && c.done == batch[..k] && relay == Relayed(s0, batch[..k], me, Onward(batch[k..]))
        decreases n - k
      {
        if smooth {
          StillFree(s0, me, batch, k, limit);
          RelayedOne(s0, me, batch, k);
        }
        var ok, failed;
        ghost var locked, turn;
        ok, failed, more, locked, turn := PublishAndMarkOne(fates[k]);
        c := CycleGoesOn(me, c, more, relay, fates[k], locked, turn);
        count, err, k := if ok then count + 1 else count, failed, k + 1;
      }
      trace, done, turns := c.trace, c.done, c.turns;
      ReadBefore(s0, read, fetched, batch, limit, trace[|read|..]);
      assert trace == read + trace[|read|..];
      CycleOutcome(me, c);
      assert batch[..|batch|] == batch;
    }
  }

  /** A cycle so far: what has been made of which batch, this publisher's own moves among it, the rows done, the
      turns taken, and whether it has failed. */
  datatype Cycle = Cycle(start: Relay, batch: seq<nat>, trace: seq<Move>, now: Relay, own: seq<Move>, done: seq<nat>,
                         turns: seq<nat>, err: bool)

  predicate Cycling(me: nat, c: Cycle) {
    && MovesLead(me, c.start, c.trace, c.now, c.own)
    && |c.done| == Marks(c.own) && Failures(c.own) == (if c.err then 1 else 0)
    && Delivered(c.now, c.done) && (forall i :: 0 <= i < |c.done| ==> c.done[i] !in c.start.published)
    && |c.turns| <= |c.batch| && AreTurns(me, c.start, c.trace, c.turns)
    && c.done == FreeAtTurn(me, c.start, c.trace, c.batch, c.turns)
  }

  lemma CycleBegins(me: nat, s0: Relay, ms: seq<Move>, mid: Relay, m: Move, more: seq<Move>, s: Relay, last: Move)
    returns (c: Cycle)
    requires m.Fetch? && (last.Release? || last.Crash?)
    requires MovesLead(me, s0, ms, mid, [m]) && MovesLead(me, mid, more, s, [last])
    ensures Cycling(me, c) && c == Cycle(s0, m.batch, ms + more, s, [m] + [last], [], [], last.Crash?)
  {
    MovesLeadFurther(me, s0, ms, mid, [m], more, s, [last]);
    CountTwo(m, last);
    NoTurns(me, s0, ms + more, m.batch);
    c := Cycle(s0, m.batch, ms + more, s, [m] + [last], [], [], last.Crash?);
  }

  /** One candidate further. */
  lemma CycleGoesOn(me: nat, c: Cycle, more: seq<Move>, s: Relay, fate: Fate, locked: bool, turn: int)
    returns (c': Cycle)
    requires Cycling(me, c) && !c.err && |c.turns| < |c.batch|
    requires MovesLead(me, c.now, more, s, Attempt(me, fate, locked))
    requires
      var id := c.batch[|c.turns|];
      && (!fate.LockError? ==> TurnsAt(me, c.now, more, turn, id, locked))
      && (!fate.LockError? && locked && fate.Fine? ==> id in s.published && id in s.stream && id !in c.now.published)
    ensures c.trace <= c'.trace
    ensures
      var id := c.batch[|c.turns|];
      var err := fate.LockError? || (locked && !fate.Fine?);
      && Cycling(me, c')
      && c' == Cycle(c.start, c.batch, c.trace + more, s, c.own + Attempt(me, fate, locked),
                     c.done + (if !err && locked then [id] else []),
                     c.turns + (if err then [] else [|c.trace| + turn]), err)
  {
    hide Run, Own, Marks, Failures, Attempt, FreeAtTurn, AreTurns, Free, TurnsAt;
    var id := c.batch[|c.turns|];
    var err := fate.LockError? || (locked && !fate.Fine?);
    MovesLeadFurther(me, c.start, c.trace, c.now, c.own, more, s, Attempt(me, fate, locked));
    AttemptCounts(me, c.own, fate, locked);
    NothingIsTakenBack(c.start, c.trace);
    DeliveredStays(c.now, more, s, c.done);
    TurnsStay(me, c.start, c.trace, more, c.batch, c.turns);
    if !err {
      assert TurnsAt(me, c.now, more, turn, id, locked);
      TurnIsMoment(me, c.now, more, turn, id, locked);
      NextTurn(me, c.start, c.trace, c.now, more, turn, c.batch, c.turns, locked);
    } else {
      assert c.done + [] == c.done && c.turns + [] == c.turns;
    }
    c' := Cycle(c.start, c.batch, c.trace + more, s, c.own + Attempt(me, fate, locked),
                c.done + (if !err && locked then [id] else []),
                c.turns + (if err then [] else [|c.trace| + turn]), err);
  }

  lemma TurnIsMoment(me: nat, s: Relay, ms: seq<Move>, turn: int, id: nat, free: bool)
    requires TurnsAt(me, s, ms, turn, id, free)
    ensures 0 <= turn
  {
  }

  lemma CycleOutcome(me: nat, c: Cycle)
    requires Cycling(me, c)
    ensures Run(c.start, c.trace) == Some(c.now) && |c.done| == Marks(Own(me, c.trace)) && Delivered(c.now, c.done)
    ensures forall i :: 0 <= i < |c.done| ==> c.done[i] !in c.start.published
    ensures Failures(Own(me, c.trace)) == if c.err then 1 else 0
    ensures AreTurns(me, c.start, c.trace, c.turns) && |c.turns| <= |c.batch|
    ensures c.done == FreeAtTurn(me, c.start, c.trace, c.batch, c.turns)
  {
  }

  lemma ReadBefore(s: Relay, ms: seq<Move>, k: nat, batch: seq<nat>, limit: nat, more: seq<Move>)
    requires ReadAt(s, ms, k, batch, limit)
    ensures ReadAt(s, ms + more, k, batch, limit) && |batch| <= limit
  {
    assert (ms + more)[..k] == ms[..k];
  }

  lemma NoTurns(me: nat, s0: Relay, ms: seq<Move>, batch: seq<nat>)
    ensures AreTurns(me, s0, ms, []) && FreeAtTurn(me, s0, ms, batch, []) == []
  {
  }

  lemma RelayedNone(s: Relay, me: nat, batch: seq<nat>)
    ensures s.With(me, Fetching(batch)).With(me, Onward(batch)) == Relayed(s, [], me, Onward(batch))
  {
    assert s.stream + [] == s.stream && s.published + Members([]) == s.published;
    assert s.phases[me := Fetching(batch)][me := Onward(batch)] == s.phases[me := Onward(batch)];
  }

  /** A row of the batch stays free while the rows before it are moved and nobody else is at work. */
  lemma StillFree(s: Relay, me: nat, batch: seq<nat>, k: nat, limit: nat)
    requires s.PhaseOf(me).Resting? && IsBatch(s, batch, limit) && k < |batch|
    ensures Free(Relayed(s, batch[..k], me, Onward(batch[k..])), batch[k])
  {
    var s' := Relayed(s, batch[..k], me, Onward(batch[k..]));
    assert Eligible(s, batch[k]);
    forall p | p in s'.phases ensures !s'.HeldBy(batch[k], p) {
      if p != me { assert !s.HeldBy(batch[k], p); }
    }
  }

  lemma RelayedOne(s: Relay, me: nat, batch: seq<nat>, k: nat)
    requires k < |batch|
    ensures
      Relayed(Relayed(s, batch[..k], me, Onward(batch[k..])), batch[k..][..1], me, Onward(batch[k..][1..])) ==
      Relayed(s, batch[..k + 1], me, Onward(batch[k + 1..]))
    ensures batch[..k] + [batch[k]] == batch[..k + 1]
  {
    var a, b := batch[..k], batch[k..][..1];
    assert a + b == batch[..k + 1] && batch[k..][1..] == batch[k + 1..] && b == [batch[k]];
    assert (s.stream + a) + b == s.stream + (a + b);
    forall x ensures x in Members(a) + Members(b) <==> x in Members(a + b) {
      if x in Members(a + b) {
        var i :| 0 <= i < |a + b| && (a + b)[i] == x;
        assert x == if i < |a| then a[i] else b[i - |a|];
      }
      if x in Members(a) { var i :| 0 <= i < |a| && a[i] == x; assert (a + b)[i] == x; }
      if x in Members(b) { assert (a + b)[|a|] == x; }
    }
    assert s.published + Members(a) + Members(b) == s.published + Members(a + b);
  }

  predicate IsFailure(m: Move) {
    m.AppendFails? || m.AppendReplyLost? || m.MarkFails? || m.MarkReplyLost? || m.Crash?
  }

  /** The marks made with a confirmed commit, and the failures, among a publisher's moves. */
  function Marks(ms: seq<Move>): nat {
    if ms == [] then 0 else Marks(ms[..|ms| - 1]) + if ms[|ms| - 1].Mark? then 1 else 0
  }

  function Failures(ms: seq<Move>): nat {
    if ms == [] then 0 else Failures(ms[..|ms| - 1]) + if IsFailure(ms[|ms| - 1]) then 1 else 0
  }

  lemma {:induction false} CountSnoc(ms: seq<Move>, m: Move)
    ensures Marks(ms + [m]) == Marks(ms) + if m.Mark? then 1 else 0
    ensures Failures(ms + [m]) == Failures(ms) + if IsFailure(m) then 1 else 0
  {
    assert (ms + [m])[..|ms|] == ms;
  }

  lemma CountTwo(x: Move, y: Move)
    ensures Marks([x] + [y]) == (if x.Mark? then 1 else 0) + if y.Mark? then 1 else 0
    ensures Failures([x] + [y]) == (if IsFailure(x) then 1 else 0) + if IsFailure(y) then 1 else 0
  {
    CountSnoc([], x);
    assert [] + [x] == [x];
    CountSnoc([x], y);
  }

  lemma {:induction false} CountConcat(xs: seq<Move>, ys: seq<Move>)
    ensures Marks(xs + ys) == Marks(xs) + Marks(ys) && Failures(xs + ys) == Failures(xs) + Failures(ys)
    decreases |ys|
  {
    if ys == [] {
      assert xs + ys == xs;
    } else {
      var pre, m := ys[..|ys| - 1], ys[|ys| - 1];
      assert xs + ys == (xs + pre) + [m] && ys == pre + [m];
      CountConcat(xs, pre);
      CountSnoc(xs + pre, m);
    }
  }

  lemma CountOne(m: Move)
    ensures Marks([m]) == (if m.Mark? then 1 else 0) && Failures([m]) == if IsFailure(m) then 1 else 0
  {
    assert [m][..0] == [];
  }

  /** What an attempt adds to the counts. */
  lemma {:induction false} AttemptCounts(me: nat, own: seq<Move>, fate: Fate, locked: bool)
    ensures
      var all := own + Attempt(me, fate, locked);
      && Marks(all) == Marks(own) + (if locked && fate.Fine? then 1 else 0)
      && Failures(all) == Failures(own) + (if fate.LockError? || (locked && !fate.Fine?) then 1 else 0)
  {
    hide Marks, Failures;
    CountConcat(own, Attempt(me, fate, locked));
    if fate.LockError? {
      CountOne(Crash(me));
    } else {
      CountOne(TakeNext(me));
      if locked {
        CountConcat([TakeNext(me)], OnceLocked(me, fate));
        OnceCounts(me, fate);
      }
    }
  }

  lemma OnceCounts(me: nat, fate: Fate)
    requires !fate.LockError?
    ensures Marks(OnceLocked(me, fate)) == (if fate.Fine? then 1 else 0)
      && Failures(OnceLocked(me, fate)) == if fate.Fine? then 0 else 1
  {
    hide Marks, Failures;
    match fate
    case AppendError => CountOne(AppendFails(me));
    case AppendLost => CountOne(AppendReplyLost(me));
    case MarkError =>
      CountTwo(Append(me), MarkFails(me));
      assert [Append(me)] + [MarkFails(me)] == OnceLocked(me, fate);
    case MarkLost =>
      CountTwo(Append(me), MarkReplyLost(me));
      assert [Append(me)] + [MarkReplyLost(me)] == OnceLocked(me, fate);
    case Fine => CountTwo(Append(me), Mark(me)); assert [Append(me)] + [Mark(me)] == OnceLocked(me, fate);
    case LockError =>
  }

  lemma {:induction false} DeliveredStays(s: Relay, ms: seq<Move>, s': Relay, done: seq<nat>)
    requires Delivered(s, done) && Run(s, ms) == Some(s')
    ensures Delivered(s', done)
  {
    NothingIsTakenBack(s, ms);
    forall i | 0 <= i < |done| ensures done[i] in s'.stream {
      var k :| 0 <= k < |s.stream| && s.stream[k] == done[i];
      assert s'.stream[k] == done[i];
    }
  }

  lemma {:induction false} StreamKeeps(s: Relay, ms: seq<Move>, s': Relay, k: nat)
    requires Run(s, ms) == Some(s') && k < |s.stream|
    ensures s.stream[k] in s'.stream
  {
    NothingIsTakenBack(s, ms);
    assert s'.stream[k] == s.stream[k];
  }

  lemma OtherMove(me: nat, s: Relay, m: Move)
    requires ByOther(me, m) && Can(s, m)
    ensures Do(s, m).PhaseOf(me) == s.PhaseOf(me) && MovesLead(me, s, [m], Do(s, m), [])
  {
    assert [m][..0] == [] && Run(s, []) == Some(s) && Own(me, []) == [];
  }

  /** A row that gets locked is unpublished until then. */
  lemma {:induction false} TakenIsNew(me: nat, s: Relay, ms: seq<Move>, s': Relay)
    requires Run(s, ms) == Some(s') && ms != [] && ms[|ms| - 1] == TakeNext(me) && s'.PhaseOf(me).Locked?
    ensures s'.PhaseOf(me).row !in s.published
  {
    NothingIsTakenBack(s, ms[..|ms| - 1]);
  }
}
