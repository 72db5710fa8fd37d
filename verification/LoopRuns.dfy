/** The consume loop takes only steps of the exchange's state machine, whatever the API and the relay do
    in between. What holds of every run of the machine holds of the loop, and when it neither starts a
    turn on a dirty book nor rebuilds too early, and no NEW_ORDER comes into the stream twice, so does
    what holds of the disciplined runs. */
module LoopRuns {
  import opened Base
  import opened Orders
  import opened PriorityBook
  import opened Settlement
  import opened Recovery
  import opened Exchange
  import opened Safety
  import opened CleanRuns
  import opened Matchers
  import opened ConsumerLoop

  function Batch(ms: seq<Message>): seq<nat> {
    seq(|ms|, i requires 0 <= i < |ms| => ms[i].entry)
  }

  /** The system as the idle loop sees it. */
  predicate Matches(sys: System, s: LoopState) {
    && sys.tables == s.tables && sys.created == s.created && sys.book == s.book && sys.dirty == s.dirty
    && sys.control.Idle?
    && sys.pending == EntriesOf(s.pending) && AllFromStream(sys, s.pending)
  }

  predicate AllFromStream(sys: System, ms: seq<Message>) {
    FromStream(sys, ms) && forall i :: 0 <= i < |ms| ==> sys.stream[ms[i].entry] < |sys.outbox|
  }

  /** Nothing that has been published or queued changes its content. */
  predicate Extends(sys: System, sys': System) {
    && sys'.users == sys.users && sys.stream <= sys'.stream && |sys.outbox| <= |sys'.outbox|
    && forall k :: 0 <= k < |sys.outbox| ==> sys'.outbox[k].event == sys.outbox[k].event
  }

  /** The steps lead from one state to the other. */
  predicate Leads(sys: System, steps: seq<Action>, sys': System) {
    After(sys, steps) == Some(sys') && Extends(sys, sys')
  }

  lemma {:induction false} AfterConcat(sys: System, xs: seq<Action>, ys: seq<Action>)
    requires After(sys, xs).Some?
    ensures After(sys, xs + ys) == After(After(sys, xs).value, ys)
    decreases |ys|
  {
    if ys == [] {
      assert xs + ys == xs;
    } else {
      var pre := ys[..|ys| - 1];
      assert (xs + ys)[..|xs + ys| - 1] == xs + pre;
      AfterConcat(sys, xs, pre);
    }
  }

  lemma {:induction false} DisciplinedConcat(sys: System, xs: seq<Action>, ys: seq<Action>)
    requires After(sys, xs).Some? && DisciplinedRun(sys, xs) && DisciplinedRun(After(sys, xs).value, ys)
    ensures DisciplinedRun(sys, xs + ys)
    decreases |ys|
  {
    hide Disciplined, Enabled, Next;
    if ys == [] {
      assert xs + ys == xs;
    } else {
      var pre := ys[..|ys| - 1];
      assert (xs + ys)[..|xs + ys| - 1] == xs + pre;
      DisciplinedConcat(sys, xs, pre);
      AfterConcat(sys, xs, pre);
    }
  }

  lemma {:induction false} LeadsFurther(sys: System, xs: seq<Action>, mid: System, ys: seq<Action>, sys': System)
    requires Leads(sys, xs, mid) && Leads(mid, ys, sys')
    ensures Leads(sys, xs + ys, sys')
    ensures DisciplinedRun(sys, xs) && DisciplinedRun(mid, ys) ==> DisciplinedRun(sys, xs + ys)
    ensures OneCopyEach(sys') ==> OneCopyEach(mid)
  {
    hide After, DisciplinedRun;
    AfterConcat(sys, xs, ys);
    CopiesBefore(mid, sys');
    if DisciplinedRun(sys, xs) && DisciplinedRun(mid, ys) { DisciplinedConcat(sys, xs, ys); }
  }

  /** Two copies of a NEW_ORDER in the stream stay there. */
  lemma CopiesBefore(sys: System, sys': System)
    requires Extends(sys, sys')
    ensures OneCopyEach(sys') ==> OneCopyEach(sys)
  {
    forall i, j | 0 <= i < j < |sys.stream| && sys.stream[i] == sys.stream[j] && EventAt(sys, i).NewOrder?
      ensures sys'.stream[i] == sys'.stream[j] && EventAt(sys', i) == EventAt(sys, i)
    {
    }
  }

  lemma {:induction false} OneStep(sys: System, a: Action)
    requires Enabled(sys, a)
    ensures After(sys, [a]) == Some(Next(sys, a))
    ensures Disciplined(sys, a) ==> DisciplinedRun(sys, [a])
  {
    assert [a][..0] == [];
    assert After(sys, []) == Some(sys) && DisciplinedRun(sys, []);
  }

  lemma {:induction false} NoSteps(sys: System)
    ensures Leads(sys, [], sys) && DisciplinedRun(sys, [])
  {
  }

  lemma {:induction false} UnackedEntries(pending: seq<Message>, ms: seq<Message>)
    ensures EntriesOf(Unacked(pending, ms)) == EntriesOf(pending) - EntriesOf(ms)
    decreases |pending|
  {
    if pending != [] {
      var rest := pending[1..];
      UnackedEntries(rest, ms);
      assert EntriesOf(pending) == {pending[0].entry} + EntriesOf(rest) by { EntriesCons(pending); }
      assert Names(ms, pending[0].entry) <==> pending[0].entry in EntriesOf(ms);
      if !Names(ms, pending[0].entry) {
        EntriesCons([pending[0]] + Unacked(rest, ms));
        assert ([pending[0]] + Unacked(rest, ms))[1..] == Unacked(rest, ms);
      }
    }
  }

  lemma EntriesCons(ms: seq<Message>)
    requires ms != []
    ensures EntriesOf(ms) == {ms[0].entry} + EntriesOf(ms[1..])
  {
    forall i | 0 <= i < |ms| ensures ms[i].entry in {ms[0].entry} + EntriesOf(ms[1..]) {
      if i > 0 {
        assert ms[1..][i - 1] == ms[i];
      }
    }
  }

  lemma StaysFromStream(sys: System, sys': System, ms: seq<Message>)
    requires Extends(sys, sys') && AllFromStream(sys, ms)
    ensures AllFromStream(sys', ms)
  {
    forall i | 0 <= i < |ms|
      ensures EventAt(sys', ms[i].entry) == EventAt(sys, ms[i].entry) && sys'.stream[ms[i].entry] < |sys'.outbox|
    {
      assert sys'.stream[ms[i].entry] == sys.stream[ms[i].entry];
    }
  }

  // ---------- what others do meanwhile ----------

  function ActionOf(r: Request): Action {
    match r
    case Placing(input, id, now) => PlaceOrder(input, id, now)
    case Cancelling(target, requester) => RequestCancel(target, requester)
    case Relaying(row, marked) => if marked then Publish(row) else PublishUnmarked(row)
  }

  /** The requests as steps of the machine; one that is not possible, such as a row already published,
      is no step. */
  function RequestSteps(sys: System, rs: seq<Request>): seq<Action>
    decreases |rs|
  {
    if rs == [] then []
    else if Enabled(sys, ActionOf(rs[0])) then [ActionOf(rs[0])] + RequestSteps(Next(sys, ActionOf(rs[0])), rs[1..])
    else RequestSteps(sys, rs[1..])
  }

  /** A stream of outbox rows with no NEW_ORDER twice. */
  predicate SingleCopies(sys: System) {
    StreamOk(sys) && OneCopyEach(sys)
  }

  lemma RequestMatches(sys: System, s: LoopState, r: Request)
    requires Matches(sys, s)
    ensures
      var sys' := if Enabled(sys, ActionOf(r)) then Next(sys, ActionOf(r)) else sys;
      Matches(sys', AfterRequest(sys.users, s, r)) && Extends(sys, sys') && sys'.delivered == sys.delivered
    ensures
      var sys' := if Enabled(sys, ActionOf(r)) then Next(sys, ActionOf(r)) else sys;
      && (Enabled(sys, ActionOf(r)) && OneCopyEach(sys') ==> Disciplined(sys, ActionOf(r)))
      && (!r.Relaying? && SingleCopies(sys) ==> SingleCopies(sys'))
  {
    var sys' := if Enabled(sys, ActionOf(r)) then Next(sys, ActionOf(r)) else sys;
    if r.Relaying? && Enabled(sys, ActionOf(r)) && !FirstCopy(sys, r.row) {
      var i :| 0 <= i < |sys.stream| && sys.stream[i] == r.row;
      assert sys'.stream[i] == sys'.stream[|sys.stream|] && EventAt(sys', i).NewOrder?;
    }
    StaysFromStream(sys, sys', s.pending);
    if !r.Relaying? && SingleCopies(sys) {
      assert forall i :: 0 <= i < |sys.stream| ==> EventAt(sys', i) == EventAt(sys, i);
    }
  }

  lemma {:induction false} RequestsAreRun(sys: System, s: LoopState, rs: seq<Request>) returns (sys': System)
    requires Matches(sys, s)
    ensures Leads(sys, RequestSteps(sys, rs), sys')
    ensures OneCopyEach(sys') ==> DisciplinedRun(sys, RequestSteps(sys, rs))
    ensures Offline(rs) && SingleCopies(sys) ==> SingleCopies(sys')
    ensures Matches(sys', Meanwhile(sys.users, s, rs)) && sys'.delivered == sys.delivered
    decreases |rs|
  {
    hide Matches, Extends, Disciplined, Enabled, Next, After, DisciplinedRun, AfterRequest, Leads, SingleCopies,
      OneCopyEach;
    NoSteps(sys);
    sys' := sys;
    if rs != [] {
      var a := ActionOf(rs[0]);
      RequestMatches(sys, s, rs[0]);
      assert Offline(rs) ==> Offline(rs[1..]) && !rs[0].Relaying?;
      var s1 := AfterRequest(sys.users, s, rs[0]);
      if Enabled(sys, a) {
        var mid := Next(sys, a);
        SameUsers(sys, mid);
        OneStep(sys, a);
        OneLeads(sys, a);
        sys' := RequestsAreRun(mid, s1, rs[1..]);
        LeadsFurther(sys, [a], mid, RequestSteps(mid, rs[1..]), sys');
      } else {
        sys' := RequestsAreRun(sys, s1, rs[1..]);
      }
    }
  }

  lemma SameUsers(sys: System, sys': System)
    requires Extends(sys, sys')
    ensures sys'.users == sys.users
  {
  }

  lemma OneLeads(sys: System, a: Action)
    requires Enabled(sys, a) && Extends(sys, Next(sys, a))
    ensures Leads(sys, [a], Next(sys, a))
  {
    OneStep(sys, a);
  }

  // ---------- a batch ----------

  /** A batch of messages from the pending list can be run by the machine. */
  lemma BatchReadable(sys: System, s: LoopState, ms: seq<Message>)
    requires Matches(sys, s) && s.Valid() && forall i :: 0 <= i < |ms| ==> ms[i] in s.pending
    ensures Messages(sys, Batch(ms)) == ms && Elements(Batch(ms)) == EntriesOf(ms) && ValidMessages(ms)
    ensures CanApply(sys, Batch(ms))
  {
    hide WellFormed, ValidEvent;
    var batch := Batch(ms);
    forall i | 0 <= i < |ms|
      ensures EventAt(sys, ms[i].entry) == ms[i].event && ms[i].entry in sys.pending && ValidEvent(ms[i].event)
      ensures ms[i].entry < |sys.stream| && sys.stream[ms[i].entry] < |sys.outbox|
    {
      var j :| 0 <= j < |s.pending| && s.pending[j] == ms[i];
    }
    assert forall i :: 0 <= i < |ms| ==> batch[i] == ms[i].entry;
    forall i | 0 <= i < |ms| ensures Messages(sys, batch)[i] == ms[i] {
    }
  }

  /** The steps of one processed batch, from the state the requests before it have left. */
  function BatchSteps(s: LoopState, ms: seq<Message>, f: Round): seq<Action>
    requires s.Valid() && ValidMessages(ms)
  {
    if Stops(|ms|, f.stop) then [Abort(Batch(ms), |Reached(ms, f.stop)|)]
    else if ApplyBatch(s.tables, s.book, ms).Failed? || f.reply.Refused? then [Abort(Batch(ms), |ms|)]
    else if f.reply.ReplyLost? then [CommitReplyLost(Batch(ms))]
    else [Commit(Batch(ms)), if f.ack.NotAcked? then AckLost else Ack]
  }

  lemma AbortMatches(sys: System, s: LoopState, ms: seq<Message>, reach: nat)
    requires Matches(sys, s) && s.Valid() && reach <= |ms| && forall i :: 0 <= i < |ms| ==> ms[i] in s.pending
    ensures ValidMessages(ms[..reach]) && Enabled(sys, Abort(Batch(ms), reach))
    ensures Next(sys, Abort(Batch(ms), reach)) ==
      sys.(book := ApplyBatch(s.tables, s.book, ms[..reach]).book, dirty := true)
    ensures Disciplined(sys, Abort(Batch(ms), reach))
  {
    hide ApplyBatch, WellFormed;
    BatchReadable(sys, s, ms);
    assert Batch(ms)[..reach] == Batch(ms[..reach]);
    BatchReadable(sys, s, ms[..reach]);
  }

  lemma {:induction false} CommitMatches(sys: System, s: LoopState, ms: seq<Message>, ackFails: bool)
    requires Matches(sys, s) && s.Valid() && forall i :: 0 <= i < |ms| ==> ms[i] in s.pending
    requires ValidMessages(ms) && ApplyBatch(s.tables, s.book, ms).Applied?
    ensures
      var r := ApplyBatch(s.tables, s.book, ms);
      var sys' := sys.(tables := r.tables, book := r.book);
      var two := [Commit(Batch(ms)), if ackFails then AckLost else Ack];
      && Enabled(sys, CommitReplyLost(Batch(ms))) && Next(sys, CommitReplyLost(Batch(ms))) == sys'.(dirty := true)
      && After(sys, two) ==
         Some(if ackFails then sys'
           else sys'.(pending := sys.pending - EntriesOf(ms), acked := sys.acked + EntriesOf(ms)))
      && (!sys.dirty ==> DisciplinedRun(sys, two) && Disciplined(sys, CommitReplyLost(Batch(ms))))
  {
    hide ApplyBatch, WellFormed;
    BatchReadable(sys, s, ms);
    var c, a := Commit(Batch(ms)), if ackFails then AckLost else Ack;
    OneStep(sys, c);
    OneStep(Next(sys, c), a);
    AfterConcat(sys, [c], [a]);
    assert [c] + [a] == [c, a];
    if !sys.dirty { DisciplinedConcat(sys, [c], [a]); }
  }

  lemma AbortIsRun(cfg: Config, sys: System, s: LoopState, ms: seq<Message>, f: Round) returns (sys': System)
    requires Matches(sys, s) && s.Valid() && ValidMessages(ms) && ms != [] && forall i :: 0 <= i < |ms| ==>
      ms[i] in s.pending
    requires Stops(|ms|, f.stop) || ApplyBatch(s.tables, s.book, ms).Failed? || f.reply.Refused?
    ensures Leads(sys, BatchSteps(s, ms, f), sys') && Matches(sys', Process(cfg, s, ms, f.(others := [])).0)
    ensures sys'.delivered == sys.delivered && sys'.stream == sys.stream && sys'.outbox == sys.outbox
    ensures DisciplinedRun(sys, BatchSteps(s, ms, f))
  {
    hide ApplyBatch, WellFormed, Next, Enabled, After, EntriesOf, ValidEvent, DisciplinedRun, Disciplined,
      AllFromStream;
    MeanwhileNone(cfg.users, s);
    var reach := |Reached(ms, f.stop)|;
    assert ms[..reach] == Reached(ms, f.stop);
    AbortMatches(sys, s, ms, reach);
    OneStep(sys, Abort(Batch(ms), reach));
    sys' := Next(sys, Abort(Batch(ms), reach));
    StaysFromStream(sys, sys', s.pending);
  }

  lemma CommitIsRun(cfg: Config, sys: System, s: LoopState, ms: seq<Message>, f: Round) returns (sys': System)
    requires Matches(sys, s) && s.Valid() && ValidMessages(ms) && ms != [] && forall i :: 0 <= i < |ms| ==>
      ms[i] in s.pending
    requires !Stops(|ms|, f.stop) && ApplyBatch(s.tables, s.book, ms).Applied? && !f.reply.Refused?
    ensures Leads(sys, BatchSteps(s, ms, f), sys') && Matches(sys', Process(cfg, s, ms, f.(others := [])).0)
    ensures sys'.delivered == sys.delivered && sys'.stream == sys.stream && sys'.outbox == sys.outbox
    ensures !sys.dirty ==> DisciplinedRun(sys, BatchSteps(s, ms, f))
  {
    hide ApplyBatch, WellFormed, Next, Enabled, After, EntriesOf, ValidEvent, DisciplinedRun, Disciplined,
      AllFromStream, Unacked;
    MeanwhileNone(cfg.users, s);
    CommitMatches(sys, s, ms, f.ack.NotAcked?);
    OneStep(sys, CommitReplyLost(Batch(ms)));
    sys' := After(sys, BatchSteps(s, ms, f)).value;
    UnackedEntries(s.pending, ms);
    UnackedFrom(sys, s.pending, ms);
    StaysFromStream(sys, sys', Process(cfg, s, ms, f.(others := [])).0.pending);
  }

  /** A batch is one or two steps. On a clean book they are disciplined. */
  lemma BatchIsRun(cfg: Config, sys: System, s: LoopState, ms: seq<Message>, f: Round) returns (sys': System)
    requires Matches(sys, s) && s.Valid() && ValidMessages(ms) && ms != [] && forall i :: 0 <= i < |ms| ==>
      ms[i] in s.pending
    ensures Leads(sys, BatchSteps(s, ms, f), sys') && Matches(sys', Process(cfg, s, ms, f.(others := [])).0)
    ensures sys'.delivered == sys.delivered && sys'.stream == sys.stream && sys'.outbox == sys.outbox
    ensures !sys.dirty ==> DisciplinedRun(sys, BatchSteps(s, ms, f))
  {
    hide Leads, Matches, DisciplinedRun, Process, BatchSteps, ApplyBatch, WellFormed;
    if Stops(|ms|, f.stop) || ApplyBatch(s.tables, s.book, ms).Failed? || f.reply.Refused? {
      sys' := AbortIsRun(cfg, sys, s, ms, f);
    } else {
      sys' := CommitIsRun(cfg, sys, s, ms, f);
    }
  }

  lemma {:induction false} UnackedFrom(sys: System, pending: seq<Message>, ms: seq<Message>)
    requires AllFromStream(sys, pending)
    ensures AllFromStream(sys, Unacked(pending, ms))
  {
    var r := Unacked(pending, ms);
    forall i | 0 <= i < |r|
      ensures r[i].entry < |sys.stream| && r[i].event == EventAt(sys, r[i].entry)
        && sys.stream[r[i].entry] < |sys.outbox|
    {
      assert r[i] in pending;
    }
  }

  lemma {:induction false} ProcessSplits(cfg: Config, s: LoopState, ms: seq<Message>, f: Round)
    requires s.Valid() && ValidMessages(ms) && ms != []
    ensures Process(cfg, s, ms, f) == Process(cfg, Meanwhile(cfg.users, s, f.others), ms, f.(others := []))
  {
    hide ApplyBatch, WellFormed, Meanwhile;
    MeanwhileNone(cfg.users, Meanwhile(cfg.users, s, f.others));
  }

  /** Where steps that are possible lead. */
  function To(sys: System, steps: seq<Action>): System {
    if After(sys, steps).Some? then After(sys, steps).value else sys
  }

  function ProcessSteps(cfg: Config, sys: System, s: LoopState, ms: seq<Message>, f: Round): seq<Action>
    requires s.Valid() && ValidMessages(ms)
  {
    if ms == [] then []
    else RequestSteps(sys, f.others) + BatchSteps(Meanwhile(cfg.users, s, f.others), ms, f)
  }

  /** A processed batch, with the requests before it, is a run of the machine. */
  lemma ProcessIsRun(cfg: Config, sys: System, s: LoopState, ms: seq<Message>, f: Round) returns (sys': System)
    requires cfg.users == sys.users && Matches(sys, s) && s.Valid() && ValidMessages(ms)
    requires forall i :: 0 <= i < |ms| ==> ms[i] in s.pending
    ensures Leads(sys, ProcessSteps(cfg, sys, s, ms, f), sys') && Matches(sys', Process(cfg, s, ms, f).0)
    ensures sys'.delivered == sys.delivered
      && (!sys.dirty && OneCopyEach(sys') ==> DisciplinedRun(sys, ProcessSteps(cfg, sys, s, ms, f)))
    ensures Offline(f.others) && SingleCopies(sys) ==> SingleCopies(sys')
  {
    hide ApplyBatch, WellFormed, Leads, DisciplinedRun, Meanwhile, BatchSteps, RequestSteps;
    NoSteps(sys);
    sys' := sys;
    if ms != [] {
      var mid := RequestsAreRun(sys, s, f.others);
      ProcessSplits(cfg, s, ms, f);
      var s0 := Meanwhile(cfg.users, s, f.others);
      sys' := BatchIsRun(cfg, mid, s0, ms, f);
      LeadsFurther(sys, RequestSteps(sys, f.others), mid, BatchSteps(s0, ms, f), sys');
      if SingleCopies(mid) {
        assert forall i :: EventAt(sys', i) == EventAt(mid, i);
      }
    }
  }

  // ---------- the drain, the recovery, the turn, the run ----------

  function ReclaimSteps(cfg: Config, sys: System, s: LoopState, rounds: nat -> Round, k: nat): seq<Action>
    requires s.Valid()
    decreases |s.pending|
  {
    var ms := ReadPending(s.pending, cfg.size);
    if !Runs(rounds(k)) || ms == [] then []
    else
      var steps := ProcessSteps(cfg, sys, s, ms, rounds(k));
      var (s', err) := Process(cfg, s, ms, rounds(k));
      if err then steps else steps + ReclaimSteps(cfg, To(sys, steps), s', rounds, k + 1)
  }

  /** A drain is a run of the machine, disciplined if it starts from a clean book: the first batch that
      leaves the book dirty ends it. */
  lemma {:induction false} ReclaimIsRun(cfg: Config, sys: System, s: LoopState, rounds: nat -> Round, k: nat)
    returns (sys': System)
    requires cfg.users == sys.users && Matches(sys, s) && s.Valid()
    ensures Leads(sys, ReclaimSteps(cfg, sys, s, rounds, k), sys') && Matches(sys', Reclaim(cfg, s, rounds, k).0)
    ensures sys'.delivered == sys.delivered
      && (!sys.dirty && OneCopyEach(sys') ==> DisciplinedRun(sys, ReclaimSteps(cfg, sys, s, rounds, k)))
    decreases |s.pending|
  {
    hide Leads, ApplyBatch, WellFormed, DisciplinedRun, AllFromStream, EntriesOf, Process, Extends, ProcessSteps, To;
    var ms := ReadPending(s.pending, cfg.size);
    if !Runs(rounds(k)) || ms == [] {
      sys' := sys;
      NoSteps(sys);
      return;
    }
    var steps := ProcessSteps(cfg, sys, s, ms, rounds(k));
    sys' := ProcessIsRun(cfg, sys, s, ms, rounds(k));
    ProcessStaysClean(cfg, s, ms, rounds(k));
    LeadsUsers(sys, steps, sys');
    if !Process(cfg, s, ms, rounds(k)).1 {
      var mid := sys';
      sys' := ReclaimIsRun(cfg, mid, Process(cfg, s, ms, rounds(k)).0, rounds, k + 1);
      LeadsFurther(sys, steps, mid, ReclaimSteps(cfg, mid, Process(cfg, s, ms, rounds(k)).0, rounds, k + 1), sys');
    }
  }

  lemma ProcessStaysClean(cfg: Config, s: LoopState, ms: seq<Message>, f: Round)
    requires s.Valid() && ValidMessages(ms)
    ensures !Process(cfg, s, ms, f).1 ==> Process(cfg, s, ms, f).0.dirty == s.dirty
    ensures ms <= s.pending && ms != [] && !Process(cfg, s, ms, f).1 ==>
      |Process(cfg, s, ms, f).0.pending| < |s.pending|
  {
  }

  lemma LeadsUsers(sys: System, steps: seq<Action>, sys': System)
    requires Leads(sys, steps, sys')
    ensures sys'.users == sys.users && Extends(sys, sys') && To(sys, steps) == sys'
  {
  }

  /** The rebuild, if there is one, lists the open orders of that moment. */
  predicate ListsOpen(cfg: Config, s: LoopState, r: Retry) {
    s.dirty && r.attempts < r.patience ==>
      var s0 := Meanwhile(cfg.users, s, r.others);
      Listing(s0.tables.orders, s0.created, r.rows)
  }

  /** The rebuild, if there is one, comes when the matcher has seen every open LIMIT order. */
  predicate RebuildsQuietly(cfg: Config, s: LoopState, r: Retry) {
    s.dirty && r.attempts < r.patience ==> Quiescent(Meanwhile(cfg.users, s, r.others).tables)
  }

  function RebuildSteps(sys: System, s: LoopState, r: Retry): seq<Action> {
    RequestSteps(sys, r.others) + if s.dirty && r.attempts < r.patience then [Resync(r.rows)] else []
  }

  lemma RebuiltIsRun(cfg: Config, sys: System, s: LoopState, r: Retry) returns (sys': System)
    requires cfg.users == sys.users && Matches(sys, s) && s.Valid() && AllRestable(r.rows) && ListsOpen(cfg, s, r)
    requires !(s.dirty && r.patience <= r.attempts)
    ensures Leads(sys, RebuildSteps(sys, s, r), sys') && Matches(sys', Rebuilt(cfg, s, r))
      && sys'.delivered == sys.delivered
    ensures RebuildsQuietly(cfg, s, r) && OneCopyEach(sys') ==> DisciplinedRun(sys, RebuildSteps(sys, s, r))
    ensures Offline(r.others) && SingleCopies(sys) ==> SingleCopies(sys')
  {
    hide Leads, WellFormed, DisciplinedRun, Meanwhile, RequestSteps, Listing, Recover, Quiescent, EntriesOf;
    sys' := RequestsAreRun(sys, s, r.others);
    var steps := RequestSteps(sys, r.others);
    assert steps + [] == steps;
    if s.dirty {
      var mid := sys';
      ResyncLeads(mid, r.rows);
      sys' := Next(mid, Resync(r.rows));
      StaysFromStream(mid, sys', s.pending);
      LeadsFurther(sys, steps, mid, [Resync(r.rows)], sys');
      if SingleCopies(mid) {
        assert forall i :: EventAt(sys', i) == EventAt(mid, i);
      }
    }
  }

  lemma {:induction false} ResyncLeads(sys: System, rows: seq<OrderRow>)
    requires sys.control.Idle? && Listing(sys.tables.orders, sys.created, rows)
    ensures Leads(sys, [Resync(rows)], Next(sys, Resync(rows)))
    ensures Next(sys, Resync(rows)) == sys.(book := Recover(rows), dirty := false)
    ensures Quiescent(sys.tables) ==> DisciplinedRun(sys, [Resync(rows)])
  {
    OneStep(sys, Resync(rows));
  }

  function RecoverySteps(cfg: Config, sys: System, s: LoopState, r: Retry): seq<Action>
    requires s.Valid() && AllRestable(r.rows)
  {
    var steps := RebuildSteps(sys, s, r);
    if s.dirty && r.patience <= r.attempts then steps
    else steps + ReclaimSteps(cfg, To(sys, steps), Rebuilt(cfg, s, r), r.rounds, 0)
  }

  /** A recovery is a run of the machine, whatever the drain meets. */
  lemma RecoveryIsRun(cfg: Config, sys: System, s: LoopState, r: Retry) returns (sys': System)
    requires cfg.users == sys.users && Matches(sys, s) && s.Valid() && AllRestable(r.rows) && ListsOpen(cfg, s, r)
    ensures Leads(sys, RecoverySteps(cfg, sys, s, r), sys') && Matches(sys', RecoverAfterFailure(cfg, s, r).0)
    ensures sys'.delivered == sys.delivered
    ensures RebuildsQuietly(cfg, s, r) && OneCopyEach(sys') ==> DisciplinedRun(sys, RecoverySteps(cfg, sys, s, r))
  {
    hide Leads, ApplyBatch, WellFormed, Reclaim, DisciplinedRun, Rebuilt, Meanwhile, RequestSteps, AllFromStream,
      EntriesOf, ListsOpen, RebuildsQuietly, To, ReclaimSteps;
    if s.dirty && r.patience <= r.attempts {
      sys' := RequestsAreRun(sys, s, r.others);
      assert RequestSteps(sys, r.others) + [] == RequestSteps(sys, r.others);
    } else {
      var mid := RebuiltIsRun(cfg, sys, s, r);
      LeadsUsers(sys, RebuildSteps(sys, s, r), mid);
      sys' := ReclaimIsRun(cfg, mid, Rebuilt(cfg, s, r), r.rounds, 0);
      LeadsFurther(sys, RebuildSteps(sys, s, r), mid, ReclaimSteps(cfg, mid, Rebuilt(cfg, s, r), r.rounds, 0), sys');
    }
  }

  /** The next entries of the stream, as messages. */
  predicate Fetches(sys: System, fetched: seq<Message>) {
    && sys.delivered + |fetched| <= |sys.stream| && AllFromStream(sys, fetched)
    && forall i :: 0 <= i < |fetched| ==> fetched[i].entry == sys.delivered + i
  }

  lemma {:induction false} DeliverMatches(sys: System, s: LoopState, fetched: seq<Message>)
    requires Matches(sys, s) && Fetches(sys, fetched)
    ensures Enabled(sys, Deliver(|fetched|)) && Leads(sys, [Deliver(|fetched|)], Next(sys, Deliver(|fetched|)))
    ensures DisciplinedRun(sys, [Deliver(|fetched|)]) && Next(sys, Deliver(|fetched|)).dirty == sys.dirty
    ensures Matches(Next(sys, Deliver(|fetched|)), s.(pending := s.pending + fetched))
  {
    var sys' := Next(sys, Deliver(|fetched|));
    OneStep(sys, Deliver(|fetched|));
    var all := s.pending + fetched;
    BothFromStream(sys, s.pending, fetched);
    StaysFromStream(sys, sys', all);
    forall e ensures e in EntriesOf(all) <==> e in sys'.pending {
      if e in EntriesOf(s.pending) {
        var i :| 0 <= i < |s.pending| && s.pending[i].entry == e;
        assert all[i].entry == e;
      }
      if sys.delivered <= e < sys.delivered + |fetched| {
        assert all[|s.pending| + (e - sys.delivered)].entry == e;
      }
    }
  }

  lemma BothFromStream(sys: System, xs: seq<Message>, ys: seq<Message>)
    requires AllFromStream(sys, xs) && AllFromStream(sys, ys)
    ensures AllFromStream(sys, xs + ys)
  {
    var all := xs + ys;
    assert forall i :: 0 <= i < |all| ==> all[i] == if i < |xs| then xs[i] else ys[i - |xs|];
  }

  /** What a turn that fails hands to the recovery. If the read has failed, what it had made pending by then
      is all that was fetched. */
  function FailedTurn(cfg: Config, s: LoopState, w: World): LoopState
    requires s.Valid() && w.Valid()
  {
    var s1 := s.(pending := s.pending + w.fetched);
    if w.fetch.readFails then s1 else Process(cfg, s1, w.fetched, w.fetch).0
  }

  /** The world is one the loop can meet in this state: what is fetched comes next in the stream, and a
      rebuild lists the open orders of its moment. */
  predicate Met(cfg: Config, sys: System, s: LoopState, w: World)
    requires s.Valid() && w.Valid()
  {
    Fetches(sys, w.fetched) && ListsOpen(cfg, FailedTurn(cfg, s, w), w.retry)
  }

  /** A turn that starts on a clean book and does not rebuild too early. */
  predicate Careful(cfg: Config, s: LoopState, w: World)
    requires s.Valid() && w.Valid()
  {
    !s.dirty && RebuildsQuietly(cfg, FailedTurn(cfg, s, w), w.retry)
  }

  function FetchSteps(cfg: Config, sys: System, s: LoopState, w: World): seq<Action>
    requires s.Valid() && w.Valid()
  {
    var deliver := [Deliver(|w.fetched|)];
    deliver + ProcessSteps(cfg, To(sys, deliver), s.(pending := s.pending + w.fetched), w.fetched, w.fetch)
  }

  function TurnSteps(cfg: Config, sys: System, s: LoopState, w: World): seq<Action>
    requires s.Valid() && w.Valid()
  {
    if w.fetch.cancelled then []
    else if w.fetch.readFails then
      var deliver := [Deliver(|w.fetched|)];
      deliver + RecoverySteps(cfg, To(sys, deliver), s.(pending := s.pending + w.fetched), w.retry)
    else
      var steps := FetchSteps(cfg, sys, s, w);
      var (s', err) := Process(cfg, s.(pending := s.pending + w.fetched), w.fetched, w.fetch);
      if err then steps + RecoverySteps(cfg, To(sys, steps), s', w.retry) else steps
  }

  /** Fetching new entries and processing them. */
  lemma FetchIsRun(cfg: Config, sys: System, s: LoopState, w: World) returns (sys': System)
    requires cfg.users == sys.users && Matches(sys, s) && s.Valid() && w.Valid() && Fetches(sys, w.fetched)
    ensures Leads(sys, FetchSteps(cfg, sys, s, w), sys')
    ensures Matches(sys', Process(cfg, s.(pending := s.pending + w.fetched), w.fetched, w.fetch).0)
    ensures !sys.dirty && OneCopyEach(sys') ==> DisciplinedRun(sys, FetchSteps(cfg, sys, s, w))
  {
    hide Leads, ApplyBatch, WellFormed, Process, DisciplinedRun, AllFromStream, EntriesOf, Extends, ProcessSteps, To;
    var s1 := s.(pending := s.pending + w.fetched);
    var mid := Next(sys, Deliver(|w.fetched|));
    DeliverMatches(sys, s, w.fetched);
    LeadsUsers(sys, [Deliver(|w.fetched|)], mid);
    assert forall i :: 0 <= i < |w.fetched| ==> s1.pending[|s.pending| + i] == w.fetched[i];
    sys' := ProcessIsRun(cfg, mid, s1, w.fetched, w.fetch);
    LeadsFurther(sys, [Deliver(|w.fetched|)], mid, ProcessSteps(cfg, mid, s1, w.fetched, w.fetch), sys');
  }

  /** A read that fails, with what it had made pending, and the recovery. */
  lemma LostReadIsRun(cfg: Config, sys: System, s: LoopState, w: World) returns (sys': System)
    requires cfg.users == sys.users && Matches(sys, s) && s.Valid() && w.Valid() && Fetches(sys, w.fetched)
    requires ListsOpen(cfg, s.(pending := s.pending + w.fetched), w.retry)
    ensures
      var deliver, s1 := [Deliver(|w.fetched|)], s.(pending := s.pending + w.fetched);
      && Leads(sys, deliver + RecoverySteps(cfg, To(sys, deliver), s1, w.retry), sys')
      && Matches(sys', RecoverAfterFailure(cfg, s1, w.retry).0) && sys'.delivered == sys.delivered + |w.fetched|
      && (RebuildsQuietly(cfg, s1, w.retry) && OneCopyEach(sys') ==>
            DisciplinedRun(sys, deliver + RecoverySteps(cfg, To(sys, deliver), s1, w.retry)))
  {
    hide Leads, ApplyBatch, WellFormed, Process, DisciplinedRun, RecoverAfterFailure, AllFromStream, EntriesOf,
      ListsOpen, RebuildsQuietly, Extends, RecoverySteps, To;
    var s1 := s.(pending := s.pending + w.fetched);
    var deliver, mid := [Deliver(|w.fetched|)], Next(sys, Deliver(|w.fetched|));
    DeliverMatches(sys, s, w.fetched);
    LeadsUsers(sys, deliver, mid);
    sys' := RecoveryIsRun(cfg, mid, s1, w.retry);
    LeadsFurther(sys, deliver, mid, RecoverySteps(cfg, mid, s1, w.retry), sys');
  }

  /** Every turn of the main loop is a run of the machine. A careful one is disciplined as long as no NEW_ORDER
      has come into the stream twice. */
  lemma TurnIsRun(cfg: Config, sys: System, s: LoopState, w: World) returns (sys': System)
    requires cfg.users == sys.users && Matches(sys, s) && s.Valid() && w.Valid() && Met(cfg, sys, s, w)
    ensures Leads(sys, TurnSteps(cfg, sys, s, w), sys') && Matches(sys', Turn(cfg, s, w.fetched, w.fetch, w.retry).0)
    ensures Careful(cfg, s, w) && OneCopyEach(sys') ==> DisciplinedRun(sys, TurnSteps(cfg, sys, s, w))
  {
    hide Leads, ApplyBatch, WellFormed, Process, DisciplinedRun, RecoverAfterFailure, AllFromStream, EntriesOf,
      ListsOpen, RebuildsQuietly, Extends, FetchSteps, RecoverySteps, To;
    NoSteps(sys);
    if w.fetch.cancelled {
      sys' := sys;
    } else if w.fetch.readFails {
      sys' := LostReadIsRun(cfg, sys, s, w);
    } else {
      sys' := FetchIsRun(cfg, sys, s, w);
      var s1 := s.(pending := s.pending + w.fetched);
      if Process(cfg, s1, w.fetched, w.fetch).1 {
        var mid, s2 := sys', Process(cfg, s1, w.fetched, w.fetch).0;
        LeadsUsers(sys, FetchSteps(cfg, sys, s, w), mid);
        sys' := RecoveryIsRun(cfg, mid, s2, w.retry);
        LeadsFurther(sys, FetchSteps(cfg, sys, s, w), mid, RecoverySteps(cfg, mid, s2, w.retry), sys');
      }
    }
  }

  // ---------- the whole loop ----------

  function TurnsSteps(cfg: Config, sys: System, s: LoopState, ws: seq<World>): seq<Action>
    requires s.Valid() && ValidWorlds(ws)
    decreases |ws|
  {
    if ws == [] then []
    else
      assert ws[0].Valid() && ValidWorlds(ws[1..]) by { FirstWorld(ws); }
      var steps := TurnSteps(cfg, sys, s, ws[0]);
      var (s', err) := Turn(cfg, s, ws[0].fetched, ws[0].fetch, ws[0].retry);
      if err then steps else steps + TurnsSteps(cfg, To(sys, steps), s', ws[1..])
  }

  lemma FirstWorld(ws: seq<World>)
    requires ValidWorlds(ws) && ws != []
    ensures ws[0].Valid() && ValidWorlds(ws[1..])
  {
    assert forall i :: 0 <= i < |ws| - 1 ==> ws[1..][i] == ws[i + 1] && ws[i + 1].Valid();
  }

  /** The worlds are ones the loop can meet, turn after turn. */
  predicate AllMet(cfg: Config, sys: System, s: LoopState, ws: seq<World>)
    requires s.Valid() && ValidWorlds(ws)
    decreases |ws|
  {
    ws == [] ||
    (FirstWorld(ws);
     Met(cfg, sys, s, ws[0]) &&
     var (s', err) := Turn(cfg, s, ws[0].fetched, ws[0].fetch, ws[0].retry);
     (err || AllMet(cfg, To(sys, TurnSteps(cfg, sys, s, ws[0])), s', ws[1..])))
  }

  /** Every turn starts on a clean book and rebuilds, if at all, when the matcher has seen every open
      LIMIT order. */
  predicate AllCareful(cfg: Config, s: LoopState, ws: seq<World>)
    requires s.Valid() && ValidWorlds(ws)
    decreases |ws|
  {
    ws == [] ||
    (FirstWorld(ws);
     Careful(cfg, s, ws[0]) &&
     var (s', err) := Turn(cfg, s, ws[0].fetched, ws[0].fetch, ws[0].retry);
     (err || AllCareful(cfg, s', ws[1..])))
  }

  lemma {:induction false} TurnsAreRun(cfg: Config, sys: System, s: LoopState, ws: seq<World>) returns (sys': System)
    requires cfg.users == sys.users && Matches(sys, s) && s.Valid() && ValidWorlds(ws) && AllMet(cfg, sys, s, ws)
    ensures Leads(sys, TurnsSteps(cfg, sys, s, ws), sys') && Matches(sys', Turns(cfg, s, ws).0)
    ensures AllCareful(cfg, s, ws) && OneCopyEach(sys') ==> DisciplinedRun(sys, TurnsSteps(cfg, sys, s, ws))
    decreases |ws|
  {
    hide Leads, Matches, Met, Careful, WellFormed, Turn, DisciplinedRun, Extends, TurnSteps, To, World.Valid,
      ValidWorlds;
    NoSteps(sys);
    sys' := sys;
    if ws != [] {
      FirstWorld(ws);
      var w := ws[0];
      sys' := TurnIsRun(cfg, sys, s, w);
      var (s1, err) := Turn(cfg, s, w.fetched, w.fetch, w.retry);
      LeadsUsers(sys, TurnSteps(cfg, sys, s, w), sys');
      if !err {
        var mid := sys';
        sys' := TurnsAreRun(cfg, mid, s1, ws[1..]);
        LeadsFurther(sys, TurnSteps(cfg, sys, s, w), mid, TurnsSteps(cfg, mid, s1, ws[1..]), sys');
      }
    }
  }

  function RunSteps(cfg: Config, sys: System, s: LoopState, boot: nat -> Round, ws: seq<World>): seq<Action>
    requires s.Valid() && ValidWorlds(ws)
  {
    var steps := ReclaimSteps(cfg, sys, s, boot, 0);
    var (s', err) := Reclaim(cfg, s, boot, 0);
    if err then steps else steps + TurnsSteps(cfg, To(sys, steps), s', ws)
  }

  predicate RunMet(cfg: Config, sys: System, s: LoopState, boot: nat -> Round, ws: seq<World>)
    requires s.Valid() && ValidWorlds(ws)
  {
    var (s', err) := Reclaim(cfg, s, boot, 0);
    err || AllMet(cfg, To(sys, ReclaimSteps(cfg, sys, s, boot, 0)), s', ws)
  }

  predicate RunCareful(cfg: Config, s: LoopState, boot: nat -> Round, ws: seq<World>)
    requires s.Valid() && ValidWorlds(ws)
  {
    !s.dirty && var (s', err) := Reclaim(cfg, s, boot, 0); (err || AllCareful(cfg, s', ws))
  }

  /** The whole life of the loop, from the drain at boot on and through any number of turns, with placements,
      cancel requests and publications between its own transactions, is a run of the machine. If every
      turn is careful and no NEW_ORDER is in the stream twice at the end, it is a disciplined one. */
  lemma LoopIsRun(cfg: Config, sys: System, s: LoopState, boot: nat -> Round, ws: seq<World>) returns (sys': System)
    requires cfg.users == sys.users && Matches(sys, s) && s.Valid() && ValidWorlds(ws) && RunMet(cfg, sys, s, boot, ws)
    ensures Leads(sys, RunSteps(cfg, sys, s, boot, ws), sys') && Matches(sys', Run(cfg, s, boot, ws).0)
    ensures RunCareful(cfg, s, boot, ws) && OneCopyEach(sys') ==> DisciplinedRun(sys, RunSteps(cfg, sys, s, boot, ws))
  {
    hide Leads, WellFormed, Turns, DisciplinedRun, Extends, TurnsSteps, ReclaimSteps, Reclaim, To, AllMet, AllCareful,
      ValidWorlds, AllFromStream, EntriesOf;
    sys' := ReclaimIsRun(cfg, sys, s, boot, 0);
    var (s1, err) := Reclaim(cfg, s, boot, 0);
    var steps := ReclaimSteps(cfg, sys, s, boot, 0);
    LeadsUsers(sys, steps, sys');
    if !err {
      var mid := sys';
      sys' := TurnsAreRun(cfg, mid, s1, ws);
      LeadsFurther(sys, steps, mid, TurnsSteps(cfg, mid, s1, ws), sys');
    }
  }

  /** So whatever the loop goes through from any reachable state leaves a safe state. */
  lemma {:induction false} LoopStaysSafe(s0: System, past: seq<Action>, cfg: Config, s: LoopState, boot: nat -> Round,
                                         ws: seq<World>)
    requires Initial(s0) && After(s0, past).Some? && Matches(After(s0, past).value, s)
      && cfg.users == After(s0, past).value.users
    requires s.Valid() && ValidWorlds(ws) && RunMet(cfg, After(s0, past).value, s, boot, ws)
    ensures
      var steps := past + RunSteps(cfg, After(s0, past).value, s, boot, ws);
      After(s0, steps).Some? && Safe(s0, After(s0, steps).value)
        && Matches(After(s0, steps).value, Run(cfg, s, boot, ws).0)
  {
    hide Matches, RunMet, Run, RunSteps, Safe, ValidWorlds, WellFormed, ValidMessages;
    var sys := After(s0, past).value;
    var sys' := LoopIsRun(cfg, sys, s, boot, ws);
    AfterConcat(s0, past, RunSteps(cfg, sys, s, boot, ws));
    EveryRunIsSafe(s0, past + RunSteps(cfg, sys, s, boot, ws));
  }

  /** And a careful loop stays within the disciplined runs as long as the relay has put no NEW_ORDER into the
      stream twice, so everything that holds of them holds after it: exact reservations, fills that equal
      the trades, a clean book that is the live rows seen. */
  lemma {:induction false} CarefulLoopStaysClean(s0: System, past: seq<Action>, cfg: Config, s: LoopState,
                                                 boot: nat -> Round, ws: seq<World>)
    requires Initial(s0) && DisciplinedRun(s0, past) && After(s0, past).Some?
    requires Matches(After(s0, past).value, s) && cfg.users == After(s0, past).value.users
    requires s.Valid() && ValidWorlds(ws) && RunMet(cfg, After(s0, past).value, s, boot, ws)
      && RunCareful(cfg, s, boot, ws)
    ensures
      var steps := past + RunSteps(cfg, After(s0, past).value, s, boot, ws);
      && After(s0, steps).Some? && Matches(After(s0, steps).value, Run(cfg, s, boot, ws).0)
      && (OneCopyEach(After(s0, steps).value) ==> DisciplinedRun(s0, steps) && Clean(After(s0, steps).value))
  {
    hide Matches, RunMet, Run, RunSteps, RunCareful, Clean, ValidWorlds, WellFormed, ValidMessages, DisciplinedRun,
      OneCopyEach;
    var sys := After(s0, past).value;
    var sys' := LoopIsRun(cfg, sys, s, boot, ws);
    AfterConcat(s0, past, RunSteps(cfg, sys, s, boot, ws));
    if OneCopyEach(sys') {
      DisciplinedConcat(s0, past, RunSteps(cfg, sys, s, boot, ws));
      CleanRunsStayClean(s0, past + RunSteps(cfg, sys, s, boot, ws));
    }
  }
}
