/** The relay inside the exchange: any number of publishers, each append and each mark a step of its own, with
    the API and the matcher at work in between. The moment of a publication is its append. */
module Publishing {
  import opened Base
  import opened Settlement
  import opened Placement
  import opened Recovery
  import opened Exchange
  import opened Safety
  import opened CleanRuns
  import opened Histories
  import Relays = Outbox

  /** Row `k` of the outbox has the id `relay.inserted[k]`. */
  datatype Pipeline = Pipeline(relay: Relays.Relay, sys: System)

  /** A publisher's move, or an action of the rest of the exchange; `id` is that of the outbox row it adds, if it
      adds one. */
  datatype Deed = Moves(move: Relays.Move) | Acts(action: Action, id: nat)

  function RowOf(ids: seq<nat>, id: nat): (k: nat)
    ensures k <= |ids| && (k < |ids| ==> ids[k] == id) && (k < |ids| <==> id in ids)
  {
    if ids == [] then 0 else if ids[0] == id then 0 else 1 + RowOf(ids[1..], id)
  }

  predicate Possible(j: Pipeline, d: Deed) {
    match d
    case Moves(m) => !m.Insert? && Relays.Can(j.relay, m)
    case Acts(a, id) => !a.Publish? && !a.PublishUnmarked? && Enabled(j.sys, a) && id !in j.relay.inserted
  }

  /** What a move does to the stream and the outbox. */
  function Moved(j: Pipeline, m: Relays.Move): System
    requires Relays.Can(j.relay, m)
  {
    var s := j.sys;
    if m.Append? || m.AppendReplyLost? then s.(stream := s.stream + [RowOf(j.relay.inserted, j.relay.PhaseOf(m.p).row)])
    else if m.Mark? || m.MarkReplyLost? then
      var k := RowOf(j.relay.inserted, j.relay.PhaseOf(m.p).row);
      if k < |s.outbox| then s.(outbox := s.outbox[k := s.outbox[k].(published := true)]) else s
    else s
  }

  function Made(j: Pipeline, d: Deed): Pipeline
    requires Possible(j, d)
  {
    match d
    case Moves(m) => Pipeline(Relays.Do(j.relay, m), Moved(j, m))
    case Acts(a, id) =>
      var s := Next(j.sys, a);
      Pipeline(if |s.outbox| > |j.sys.outbox| then Relays.Do(j.relay, Relays.Insert(id)) else j.relay, s)
  }

  function Run(s0: System, ds: seq<Deed>): Option<Pipeline> {
    if ds == [] then Some(Pipeline(Relays.START, s0))
    else
      var j := Run(s0, ds[..|ds| - 1]);
      if j.Some? && Possible(j.value, ds[|ds| - 1]) then Some(Made(j.value, ds[|ds| - 1])) else None
  }

  // ---------- relay and exchange agree ----------

  /** The relay's table is the outbox, row by row. */
  predicate RowsCoupled(r: Relays.Relay, outbox: seq<OutboxRow>) {
    && |r.inserted| == |outbox|
    && (forall k, l :: 0 <= k < l < |r.inserted| ==> r.inserted[k] != r.inserted[l])
    && (forall k :: 0 <= k < |outbox| ==> (outbox[k].published <==> r.inserted[k] in r.published))
    && (forall id :: id in r.published ==> id in r.inserted)
  }

  /** What publishers work on is in it. */
  predicate WorkKnown(r: Relays.Relay) {
    forall p :: p in r.phases ==> forall id :: id in Relays.InHand(r.phases[p]) ==> id in r.inserted
  }

  ghost predicate Coupled(j: Pipeline) {
    RowsCoupled(j.relay, j.sys.outbox) && Relays.LocksOk(j.relay) && WorkKnown(j.relay)
  }

  lemma HeldIsRow(j: Pipeline, p: nat)
    requires Coupled(j) && (j.relay.PhaseOf(p).Locked? || j.relay.PhaseOf(p).Appended?)
    ensures
      var k := RowOf(j.relay.inserted, j.relay.PhaseOf(p).row);
      k < |j.sys.outbox| && j.relay.inserted[k] == j.relay.PhaseOf(p).row && !j.sys.outbox[k].published
  {
    var row := j.relay.PhaseOf(p).row;
    assert Relays.InHand(j.relay.phases[p])[0] == row;
    assert j.relay.HeldBy(row, p);
  }

  lemma AheadKept(s: Relays.Relay, m: Relays.Move, p: nat, id: nat)
    requires Relays.Can(s, m) && p in Relays.Do(s, m).phases && id in Relays.InHand(Relays.Do(s, m).phases[p])
    ensures (p in s.phases && id in Relays.InHand(s.phases[p])) || id in s.inserted
  {
  }

  lemma MoveKeepsRows(j: Pipeline, m: Relays.Move)
    requires Coupled(j) && Possible(j, Moves(m))
    ensures RowsCoupled(Relays.Do(j.relay, m), Moved(j, m).outbox)
  {
    hide Relays.LocksOk, WorkKnown;
    if m.Mark? || m.MarkReplyLost? { HeldIsRow(j, m.p); }
  }

  lemma MoveKeepsWork(s: Relays.Relay, m: Relays.Move)
    requires WorkKnown(s) && Relays.Can(s, m)
    ensures WorkKnown(Relays.Do(s, m))
  {
    hide Relays.InHand, Relays.Can, Relays.Do;
    var s' := Relays.Do(s, m);
    InsertedKept(s, m);
    forall p, id | p in s'.phases && id in Relays.InHand(s'.phases[p]) ensures id in s'.inserted {
      AheadKept(s, m, p, id);
    }
  }

  lemma InsertedKept(s: Relays.Relay, m: Relays.Move)
    requires Relays.Can(s, m)
    ensures forall id :: id in s.inserted ==> id in Relays.Do(s, m).inserted
  {
  }

  lemma MoveKeepsCoupled(j: Pipeline, m: Relays.Move)
    requires Coupled(j) && Possible(j, Moves(m))
    ensures Coupled(Made(j, Moves(m)))
  {
    hide Relays.LocksOk, WorkKnown, RowsCoupled, Relays.Do, Moved;
    MoveKeepsRows(j, m);
    Relays.DoKeepsLocks(j.relay, m);
    MoveKeepsWork(j.relay, m);
  }

  /** What the rest of the exchange does to the outbox: at most one row more, not published. */
  lemma ActGrows(s: System, a: Action)
    requires Enabled(s, a) && !a.Publish? && !a.PublishUnmarked?
    ensures Next(s, a).outbox == s.outbox
      || (|Next(s, a).outbox| == |s.outbox| + 1 && Next(s, a).outbox[..|s.outbox|] == s.outbox
                                              && !Next(s, a).outbox[|s.outbox|].published)
    ensures Next(s, a).stream == s.stream
  {
  }

  lemma ActKeepsCoupled(j: Pipeline, a: Action, id: nat)
    requires Coupled(j) && Possible(j, Acts(a, id))
    ensures Coupled(Made(j, Acts(a, id)))
  {
    hide Relays.LocksOk, Relays.InHand, Enabled, Next;
    ActGrows(j.sys, a);
    var j' := Made(j, Acts(a, id));
    if |j'.sys.outbox| > |j.sys.outbox| {
      Relays.DoKeepsLocks(j.relay, Relays.Insert(id));
      assert forall k :: 0 <= k < |j.sys.outbox| ==> j'.sys.outbox[k] == j'.sys.outbox[..|j.sys.outbox|][k];
    }
  }

  lemma {:induction false} RunKeepsCoupled(s0: System, ds: seq<Deed>)
    requires Initial(s0) && Run(s0, ds).Some?
    ensures Coupled(Run(s0, ds).value)
    decreases |ds|
  {
    hide Coupled, Made;
    if ds == [] {
      StartIsCoupled(s0);
    } else {
      var j, d := Run(s0, ds[..|ds| - 1]).value, ds[|ds| - 1];
      RunKeepsCoupled(s0, ds[..|ds| - 1]);
      match d
      case Moves(m) => MoveKeepsCoupled(j, m);
      case Acts(a, id) => ActKeepsCoupled(j, a, id);
    }
  }

  lemma StartIsCoupled(s0: System)
    requires Initial(s0)
    ensures Coupled(Pipeline(Relays.START, s0))
  {
  }

  // ---------- the moment of a publication is its append ----------

  /** A row that one of these publishers has appended and is about to mark. */
  ghost predicate Flying(s: Relays.Relay, ps: set<nat>, id: nat) {
    exists p :: p in ps && s.PhaseOf(p).Appended? && s.PhaseOf(p).row == id
  }

  /** The exchange with the rows marked already that these publishers are about to mark. */
  ghost function Foreseen(j: Pipeline, ps: set<nat>): System
    requires |j.relay.inserted| == |j.sys.outbox|
  {
    j.sys.(outbox := seq(|j.sys.outbox|, k requires 0 <= k < |j.sys.outbox| =>
      OutboxRow(j.sys.outbox[k].event, j.sys.outbox[k].published || Flying(j.relay, ps, j.relay.inserted[k]))))
  }

  /** Two states that differ in the marks at most. */
  predicate SameButMarks(s: System, s': System) {
    && s' == s.(outbox := s'.outbox) && |s'.outbox| == |s.outbox|
    && forall k :: 0 <= k < |s.outbox| ==> s'.outbox[k].event == s.outbox[k].event
  }

  lemma MarksUnread(s: System, s': System, batch: seq<nat>)
    requires SameButMarks(s, s')
    ensures Messages(s', batch) == Messages(s, batch) && (CanApply(s', batch) <==> CanApply(s, batch))
  {
    forall i | 0 <= i < |batch| ensures EventAt(s', batch[i]) == EventAt(s, batch[i]) {
    }
  }

  /** Only the relay looks at the marks. */
  lemma ActsAlike(s: System, s': System, a: Action)
    requires SameButMarks(s, s') && !a.Publish? && !a.PublishUnmarked?
    ensures Enabled(s', a) <==> Enabled(s, a)
    ensures Disciplined(s', a) <==> Disciplined(s, a)
    ensures Enabled(s, a) ==> Next(s', a) == Next(s, a).(outbox := s'.outbox + Next(s, a).outbox[|s.outbox|..])
  {
    hide Place, ApplyBatch, Recover, Listing, Messages, CanApply, Quiescent;
    assert s'.outbox + [] == s'.outbox;
    match a
    case Commit(batch) => MarksUnread(s, s', batch);
    case CommitReplyLost(batch) => MarksUnread(s, s', batch);
    case Abort(batch, reached) =>
      MarksUnread(s, s', batch);
      if reached <= |batch| { MarksUnread(s, s', batch[..reached]); }
    case _ =>
  }

  lemma ForeseenIsSame(j: Pipeline, ps: set<nat>)
    requires |j.relay.inserted| == |j.sys.outbox|
    ensures SameButMarks(j.sys, Foreseen(j, ps))
  {
  }

  /** An action of the rest takes the foreseen state to the foreseen state. */
  lemma ActForeseen(j: Pipeline, ps: set<nat>, a: Action, id: nat)
    requires Coupled(j) && Possible(j, Acts(a, id)) && Coupled(Made(j, Acts(a, id)))
    ensures Enabled(Foreseen(j, ps), a) && Next(Foreseen(j, ps), a) == Foreseen(Made(j, Acts(a, id)), ps)
    ensures Disciplined(j.sys, a) ==> Disciplined(Foreseen(j, ps), a)
  {
    hide Enabled, Next, Disciplined;
    var s, j' := j.sys, Made(j, Acts(a, id));
    ForeseenIsSame(j, ps);
    ActsAlike(s, Foreseen(j, ps), a);
    ActGrows(s, a);
    var next := Next(Foreseen(j, ps), a);
    assert next.outbox == Foreseen(j', ps).outbox by { OutboxForeseen(j, ps, a, id); }
  }

  lemma OutboxForeseen(j: Pipeline, ps: set<nat>, a: Action, id: nat)
    requires Coupled(j) && Possible(j, Acts(a, id)) && Coupled(Made(j, Acts(a, id)))
    ensures Foreseen(Made(j, Acts(a, id)), ps).outbox ==
      Foreseen(j, ps).outbox + Next(j.sys, a).outbox[|j.sys.outbox|..]
  {
    hide Enabled, Next, Relays.LocksOk;
    var s, j' := j.sys, Made(j, Acts(a, id));
    ActGrows(s, a);
    var n := |s.outbox|;
    assert j'.relay.phases == j.relay.phases;
    forall p | p in ps && j.relay.PhaseOf(p).Appended? ensures j.relay.PhaseOf(p).row in j.relay.inserted {
      HeldIsRow(j, p);
    }
    forall k | 0 <= k < n ensures Foreseen(j', ps).outbox[k] == Foreseen(j, ps).outbox[k] {
      assert j'.sys.outbox[k] == j'.sys.outbox[..n][k];
      assert Flying(j'.relay, ps, j.relay.inserted[k]) <==> Flying(j.relay, ps, j.relay.inserted[k]);
    }
    if |j'.sys.outbox| > n {
      assert j'.relay.inserted[n] == id;
      assert !Flying(j'.relay, ps, id);
    }
  }

  // ---------- a publisher's moves ----------

  /** The step of the exchange that this move is, if it is one. */
  function PublicationOf(j: Pipeline, m: Relays.Move, ps: set<nat>): seq<Action>
    requires Relays.Can(j.relay, m)
  {
    if m.Append? || m.AppendReplyLost? then
      var k := RowOf(j.relay.inserted, j.relay.PhaseOf(m.p).row);
      [if m.Append? && m.p in ps then Publish(k) else PublishUnmarked(k)]
    else []
  }

  /** Who has to be foreseen to mark before the move, if these are after it. */
  function Foreknown(m: Relays.Move, ps: set<nat>): set<nat> {
    match m
    case Mark(p) => ps + {p}
    case MarkReplyLost(p) => ps + {p}
    case MarkFails(p) => ps - {p}
    case Crash(p) => ps - {p}
    case _ => ps
  }

  /** A move that is no append changes nothing that is foreseen. */
  lemma MoveForeseen(j: Pipeline, m: Relays.Move, ps: set<nat>)
    requires Coupled(j) && Possible(j, Moves(m)) && !m.Append? && !m.AppendReplyLost?
    ensures |Made(j, Moves(m)).relay.inserted| == |Made(j, Moves(m)).sys.outbox|
    ensures Foreseen(j, Foreknown(m, ps)) == Foreseen(Made(j, Moves(m)), ps)
  {
    hide Relays.LocksOk, WorkKnown, RowsCoupled, Flying, Relays.Can, Foreknown;
    var j' := Made(j, Moves(m));
    SameTable(j, m);
    forall k | 0 <= k < |j.sys.outbox|
      ensures j.sys.outbox[k].published || Flying(j.relay, Foreknown(m, ps), j.relay.inserted[k]) <==>
        j'.sys.outbox[k].published || Flying(j'.relay, ps, j.relay.inserted[k])
    {
      FlyingAfter(j, m, ps, j.relay.inserted[k]);
    }
    assert Foreseen(j, Foreknown(m, ps)).outbox == Foreseen(j', ps).outbox;
  }

  /** The same rows, and but for a mark the same marks. */
  lemma SameTable(j: Pipeline, m: Relays.Move)
    requires Coupled(j) && Possible(j, Moves(m)) && !m.Append? && !m.AppendReplyLost?
    ensures |j.relay.inserted| == |j.sys.outbox|
    ensures
      var j' := Made(j, Moves(m));
      && j'.relay.inserted == j.relay.inserted && j'.sys == j.sys.(outbox := j'.sys.outbox)
      && |j'.sys.outbox| == |j.sys.outbox|
      && forall k :: 0 <= k < |j.sys.outbox| ==>
           && j'.sys.outbox[k].event == j.sys.outbox[k].event
           && (j'.sys.outbox[k].published <==>
                 j.sys.outbox[k].published
                   || ((m.Mark? || m.MarkReplyLost?) && j.relay.PhaseOf(m.p).row == j.relay.inserted[k]))
  {
    hide Relays.LocksOk, WorkKnown;
    if m.Mark? || m.MarkReplyLost? { HeldIsRow(j, m.p); }
  }

  lemma FlyingAfter(j: Pipeline, m: Relays.Move, ps: set<nat>, id: nat)
    requires Possible(j, Moves(m)) && !m.Append? && !m.AppendReplyLost?
    ensures Flying(j.relay, Foreknown(m, ps), id) <==>
      Flying(Made(j, Moves(m)).relay, ps, id) || ((m.Mark? || m.MarkReplyLost?) && j.relay.PhaseOf(m.p).row == id)
  {
    var r, r', qs := j.relay, Made(j, Moves(m)).relay, Foreknown(m, ps);
    assert forall p :: p != m.p ==> r'.PhaseOf(p) == r.PhaseOf(p);
    if Flying(r, qs, id) {
      var p :| p in qs && r.PhaseOf(p).Appended? && r.PhaseOf(p).row == id;
      if p != m.p { assert p in ps && r'.PhaseOf(p).Appended? && r'.PhaseOf(p).row == id; }
    }
    if Flying(r', ps, id) {
      var p :| p in ps && r'.PhaseOf(p).Appended? && r'.PhaseOf(p).row == id;
      assert p != m.p;
      assert p in qs && r.PhaseOf(p).Appended? && r.PhaseOf(p).row == id;
    }
    if (m.Mark? || m.MarkReplyLost?) && r.PhaseOf(m.p).row == id {
      assert m.p in qs && r.PhaseOf(m.p).Appended?;
    }
  }

  /** The move, if it is an append, gives no order a second NEW_ORDER entry. */
  predicate AppendsOnce(j: Pipeline, m: Relays.Move)
    requires Relays.Can(j.relay, m)
  {
    m.Append? || m.AppendReplyLost? ==> FirstCopy(j.sys, RowOf(j.relay.inserted, j.relay.PhaseOf(m.p).row))
  }

  /** An append is a publication, with the mark if it is foreseen. */
  lemma AppendForeseen(j: Pipeline, m: Relays.Move, ps: set<nat>)
    requires Coupled(j) && Possible(j, Moves(m)) && (m.Append? || m.AppendReplyLost?)
    ensures |Made(j, Moves(m)).relay.inserted| == |Made(j, Moves(m)).sys.outbox|
    ensures
      var a := PublicationOf(j, m, ps)[0];
      && Enabled(Foreseen(j, ps), a) && Next(Foreseen(j, ps), a) == Foreseen(Made(j, Moves(m)), ps)
      && (Disciplined(Foreseen(j, ps), a) <==> AppendsOnce(j, m))
  {
    hide Relays.LocksOk;
    var j', r := Made(j, Moves(m)), j.relay;
    HeldIsRow(j, m.p);
    var k := RowOf(r.inserted, r.PhaseOf(m.p).row);
    forall id ensures Flying(j'.relay, ps, id) <==>
      Flying(r, ps, id) || (m.Append? && m.p in ps && r.PhaseOf(m.p).row == id)
    {
      FlyingAppended(j, m, ps, id);
    }
    NotFlying(j, m.p, ps);
    assert Next(Foreseen(j, ps), PublicationOf(j, m, ps)[0]).outbox == Foreseen(j', ps).outbox by {
      forall l | 0 <= l < |j.sys.outbox| && l != k ensures r.inserted[l] != r.PhaseOf(m.p).row {
      }
    }
  }

  lemma FlyingAppended(j: Pipeline, m: Relays.Move, ps: set<nat>, id: nat)
    requires Possible(j, Moves(m)) && (m.Append? || m.AppendReplyLost?)
    ensures Flying(Made(j, Moves(m)).relay, ps, id) <==>
      Flying(j.relay, ps, id) || (m.Append? && m.p in ps && j.relay.PhaseOf(m.p).row == id)
  {
    var r, r' := j.relay, Made(j, Moves(m)).relay;
    assert forall p :: p != m.p ==> r'.PhaseOf(p) == r.PhaseOf(p);
    if Flying(r, ps, id) {
      var p :| p in ps && r.PhaseOf(p).Appended? && r.PhaseOf(p).row == id;
      assert p in ps && r'.PhaseOf(p).Appended? && r'.PhaseOf(p).row == id;
    }
    if m.Append? && m.p in ps && r.PhaseOf(m.p).row == id {
      assert m.p in ps && r'.PhaseOf(m.p).Appended? && r'.PhaseOf(m.p).row == id;
    }
  }

  /** A row that is locked and not yet appended is not about to be marked. */
  lemma NotFlying(j: Pipeline, p: nat, ps: set<nat>)
    requires Coupled(j) && j.relay.PhaseOf(p).Locked?
    ensures !Flying(j.relay, ps, j.relay.PhaseOf(p).row)
  {
    var r, row := j.relay, j.relay.PhaseOf(p).row;
    assert r.HeldBy(row, p);
    if Flying(r, ps, row) {
      var q :| q in ps && r.PhaseOf(q).Appended? && r.PhaseOf(q).row == row;
      assert r.HeldBy(row, q);
    }
  }

  // ---------- whole runs ----------

  /** No NEW_ORDER is appended a second time, and the rest of the exchange is disciplined. Other rows may be, and
      marks may be lost. */
  ghost predicate Sure(s0: System, ds: seq<Deed>)
    requires Run(s0, ds).Some?
  {
    ds == [] ||
    (Sure(s0, ds[..|ds| - 1]) &&
     var j := Run(s0, ds[..|ds| - 1]).value;
     match ds[|ds| - 1]
     case Moves(m) => AppendsOnce(j, m)
     case Acts(a, _) => Disciplined(j.sys, a))
  }

  /** Every run of the pipeline, with any number of publishers and failures anywhere, is a run of the exchange, in
      which each append is a publication: with its mark if the publisher goes on to make it, without if not.
      Publishers still about to mark may be taken either way. If no NEW_ORDER is appended twice and the rest is
      disciplined, so is that run. */
  lemma {:induction false} PipelineIsRun(s0: System, ds: seq<Deed>, ps: set<nat>) returns (steps: seq<Action>)
    requires Initial(s0) && Run(s0, ds).Some?
    ensures Coupled(Run(s0, ds).value) && After(s0, steps) == Some(Foreseen(Run(s0, ds).value, ps))
    ensures Sure(s0, ds) ==> DisciplinedRun(s0, steps)
    decreases |ds|
  {
    hide Coupled, Foreseen, Made, Enabled, Next, Disciplined, DisciplinedRun, AppendsOnce, After;
    RunKeepsCoupled(s0, ds);
    if ds == [] {
      steps := [];
      NothingForeseen(s0, ps);
    } else {
      var pre, d := ds[..|ds| - 1], ds[|ds| - 1];
      var j := Run(s0, pre).value;
      RunKeepsCoupled(s0, pre);
      assert |j.relay.inserted| == |j.sys.outbox| by { CoupledSizes(j); }
      match d
      case Moves(m) =>
        steps := PipelineIsRun(s0, pre, Foreknown(m, ps));
        if m.Append? || m.AppendReplyLost? {
          AppendForeseen(j, m, ps);
          var a := PublicationOf(j, m, ps)[0];
          StepOn(s0, steps, Foreseen(j, ps), a);
          steps := steps + [a];
        } else {
          MoveForeseen(j, m, ps);
        }
      case Acts(a, id) =>
        steps := PipelineIsRun(s0, pre, ps);
        ActForeseen(j, ps, a, id);
        StepOn(s0, steps, Foreseen(j, ps), a);
        steps := steps + [a];
    }
  }

  lemma CoupledSizes(j: Pipeline)
    requires Coupled(j)
    ensures |j.relay.inserted| == |j.sys.outbox|
  {
  }

  lemma NothingForeseen(s0: System, ps: set<nat>)
    requires Initial(s0)
    ensures |Relays.START.inserted| == |s0.outbox|
    ensures After(s0, []) == Some(Foreseen(Pipeline(Relays.START, s0), ps)) && DisciplinedRun(s0, [])
  {
    assert Foreseen(Pipeline(Relays.START, s0), ps).outbox == s0.outbox;
  }

  /** So what holds in every run of the exchange holds with its real relay at work. */
  lemma {:induction false} PipelineStaysSafe(s0: System, ds: seq<Deed>)
    requires Initial(s0) && Run(s0, ds).Some?
    ensures Safe(s0, Run(s0, ds).value.sys)
  {
    hide Safe, After, Coupled, Foreseen;
    var steps := PipelineIsRun(s0, ds, {});
    NobodyForeseen(Run(s0, ds).value);
    EveryRunIsSafe(s0, steps);
  }

  lemma NobodyForeseen(j: Pipeline)
    requires Coupled(j)
    ensures Foreseen(j, {}) == j.sys
  {
    assert Foreseen(j, {}).outbox == j.sys.outbox;
  }

  /** And what holds in the disciplined ones, as long as no NEW_ORDER is appended twice. */
  lemma {:induction false} SurePipelineStaysClean(s0: System, ds: seq<Deed>)
    requires Initial(s0) && Run(s0, ds).Some? && Sure(s0, ds)
    ensures Clean(Run(s0, ds).value.sys)
  {
    hide After, Coupled, DisciplinedRun, Clean, Foreseen, Sure, Run;
    var steps := PipelineIsRun(s0, ds, {});
    NobodyForeseen(Run(s0, ds).value);
    CleanRunsStayClean(s0, steps);
  }

  /** The moves of the relay in such a run, insertions included. */
  function RelayMoves(s0: System, ds: seq<Deed>): seq<Relays.Move>
    requires Run(s0, ds).Some?
  {
    if ds == [] then []
    else
      var pre := ds[..|ds| - 1];
      var j := Run(s0, pre).value;
      RelayMoves(s0, pre) +
      match ds[|ds| - 1]
      case Moves(m) => [m]
      case Acts(a, id) => if |Next(j.sys, a).outbox| > |j.sys.outbox| then [Relays.Insert(id)] else []
  }

  /** They are a run of the relay, so what holds of its stream holds here. */
  lemma {:induction false} RelayIsRun(s0: System, ds: seq<Deed>)
    requires Run(s0, ds).Some?
    ensures Relays.Run(Relays.START, RelayMoves(s0, ds)) == Some(Run(s0, ds).value.relay)
    decreases |ds|
  {
    hide Relays.Can, Relays.Do, Enabled, Next;
    if ds != [] {
      var pre := ds[..|ds| - 1];
      RelayIsRun(s0, pre);
      var ms := RelayMoves(s0, pre);
      match ds[|ds| - 1]
      case Moves(m) => assert (ms + [m])[..|ms|] == ms;
      case Acts(a, id) =>
        assert (ms + [Relays.Insert(id)])[..|ms|] == ms;
        assert ms + [] == ms;
        InsertPossible(Run(s0, pre).value, id);
    }
  }

  lemma InsertPossible(j: Pipeline, id: nat)
    requires id !in j.relay.inserted
    ensures Relays.Can(j.relay, Relays.Insert(id))
  {
  }
}
