/** What the journal promises its callers over whole runs, read off the legal history. */
module JournalGuarantees {
  import opened Basics
  import opened PeerTypes
  import opened JournalIndex
  import opened JournalHistory
  import opened JournalSpec
  import opened JournalInvariant
  import opened JournalRuns

  // ------------------------------------------------ outcomes and the history

  lemma AppendDurable(j: JournalState, e: Entry, now: nat, io: AppendIo)
    ensures var (j', ok) := Append(j, e, now, io); j'.durable == if ok then j.durable + [e] else j.durable
  {
    hide CompactedFile, Apply, Prune;
  }

  /** A positive answer to a delivery is backed by the history: Accepted writes the message down, and Duplicate finds
      the same payload already written down. Any other answer writes nothing. */
  lemma AcceptOutcome(j: JournalState, from: Endpoint, id: MessageId, payload: Bytes, now: nat, io: AppendIo)
    requires Inv(j, now)
    ensures var r := AcceptStep(j, from, id, payload, now, io);
            var k, known := Key(from, id), Replay(j.durable).inbound;
            match r.out
            case Accepted =>
              && |r.j.durable| == |j.durable| + 1 && j.durable < r.j.durable
              && Receives(r.j.durable[|j.durable|], k)
              && r.j.durable[|j.durable|].hash == PayloadHash(payload) && r.j.durable[|j.durable|].ts == now
            case Duplicate => j.durable < r.j.durable && k in known && known[k].hash == PayloadHash(payload)
            case _ => r.j.durable == j.durable
  {
    hide Inv, Append, Replay;
    var k, hash := Key(from, id), PayloadHash(payload);
    KnownInbound(j, now, k);
    AppendDurable(j, NewEntry(j, DuplicateSuppressed, id, hash, now).(peer := Some(from)), now, io);
    AppendDurable(j, NewEntry(j, ReceivedPeer, id, hash, now).(payload := Some(payload), peer := Some(from)), now, io);
  }

  /** What the index holds of a key, the history holds too. */
  lemma KnownInbound(j: JournalState, now: nat, k: Key)
    requires Inv(j, now)
    ensures k in j.ix.inbound ==> k in Replay(j.durable).inbound && Replay(j.durable).inbound[k].hash == j.ix.inbound[k].hash
  {
    hide Inv, Replay;
    IndexFacts(j, now);
  }

  /** History only grows. */
  lemma StepDurablePrefix(j: JournalState, op: Op, now: nat)
    ensures j.durable <= Step(j, op, now).j.durable
  {
    if op.Restart? {
      hide CompactedFile, Apply, Prune, Replay, HighWater;
    } else {
      hide Step, EntryWritten;
      StepWrites(j, op, now);
    }
  }

  lemma {:induction false} RunDurablePrefix(j: JournalState, ops: seq<Timed>, n: nat)
    requires n <= |ops|
    ensures Run(j, ops[..n]).durable <= Run(j, ops).durable
  {
    hide Step;
    if n == |ops| {
      assert ops[..n] == ops;
    } else {
      var front, last := ops[..|ops| - 1], ops[|ops| - 1];
      assert front[..n] == ops[..n];
      RunDurablePrefix(j, front, n);
      StepDurablePrefix(Run(j, front), last.op, last.now);
    }
  }

  // ------------------------------------------------- at most once, per journal

  ghost predicate AnswersAccepted(limits: Limits, ops: seq<Timed>, i: nat, from: Endpoint, id: MessageId) {
    && i < |ops| && ops[i].op.Accept? && ops[i].op.from == from && ops[i].op.id == id
    && Step(Run(InitialState(limits), ops[..i]), ops[i].op, ops[i].now).out == Accepted
  }

  lemma AcceptedPosition(limits: Limits, ops: seq<Timed>, i: nat, from: Endpoint, id: MessageId) returns (p: nat)
    requires InOrder(0, ops) && AnswersAccepted(limits, ops, i, from, id)
    ensures var j := Run(InitialState(limits), ops);
            && p == |Run(InitialState(limits), ops[..i]).durable| < |j.durable|
            && Receives(j.durable[p], Key(from, id)) && j.durable[p].ts == ops[i].now
            && j.durable[p].hash == PayloadHash(ops[i].op.payload)
            && p + 1 == |Run(InitialState(limits), ops[..i + 1]).durable|
  {
    hide Inv, AcceptStep;
    var init := InitialState(limits);
    var before := Run(init, ops[..i]);
    p := |before.durable|;
    ReachableInv(before, limits, ops[..i]);
    LaterInv(before, EndTime(0, ops[..i]), ops[i].now);
    AcceptOutcome(before, from, id, ops[i].op.payload, ops[i].now, ops[i].op.io);
    assert ops[..i + 1][..i] == ops[..i];
    RunDurablePrefix(init, ops, i + 1);
  }

  lemma {:induction false} DurableLengthGrows(j: JournalState, ops: seq<Timed>, m: nat, n: nat)
    requires m <= n <= |ops|
    ensures |Run(j, ops[..m]).durable| <= |Run(j, ops[..n]).durable|
  {
    assert ops[..n][..m] == ops[..m];
    RunDurablePrefix(j, ops[..n], m);
  }

  /** Between two Accepted answers for one key, restarts or not, the key was consumed, and the second
      answer comes at least the retention time after that consumption. */
  lemma AcceptedAgainOnlyAfterRetention(limits: Limits, ops: seq<Timed>, a: nat, b: nat, from: Endpoint, id: MessageId)
    returns (c: nat)
    requires InOrder(0, ops) && a < b
    requires AnswersAccepted(limits, ops, a, from, id)
    requires AnswersAccepted(limits, ops, b, from, id)
    ensures var j := Run(InitialState(limits), ops);
            && |Run(InitialState(limits), ops[..a + 1]).durable| <= c < |Run(InitialState(limits), ops[..b]).durable| <= |j.durable|
            && Consumes(j.durable[c], Key(from, id))
            && ops[a].now <= j.durable[c].ts && j.durable[c].ts + limits.retention <= ops[b].now
  {
    hide Inv, Step, Run;
    var j := Run(InitialState(limits), ops);
    var p := AcceptedPosition(limits, ops, a, from, id);
    var q := AcceptedPosition(limits, ops, b, from, id);
    DurableLengthGrows(InitialState(limits), ops, a + 1, b);
    ReachableInv(j, limits, ops);
    HistoryFacts(j, EndTime(0, ops));
    c := AcceptancesAreSpaced(j.durable, Key(from, id), p, q, limits.retention);
  }

  /** Once a message has been accepted, a delivery of its id with another payload gets a positive answer, Accepted or
      Duplicate, only if the key was consumed in between and the retention time has passed since. */
  lemma DifferingPayloadNotAcknowledged(limits: Limits, ops: seq<Timed>, a: nat, b: nat, from: Endpoint, id: MessageId) returns (c: nat)
    requires InOrder(0, ops) && a < b < |ops| && AnswersAccepted(limits, ops, a, from, id)
    requires ops[b].op.Accept? && ops[b].op.from == from && ops[b].op.id == id && ops[b].op.payload != ops[a].op.payload
    requires var out := Step(Run(InitialState(limits), ops[..b]), ops[b].op, ops[b].now).out; out == Accepted || out == Duplicate
    ensures var es := Run(InitialState(limits), ops[..b]).durable;
            && |Run(InitialState(limits), ops[..a + 1]).durable| <= c < |es|
            && Consumes(es[c], Key(from, id)) && es[c].ts + limits.retention <= ops[b].now
  {
    hide Inv, Run, AcceptStep, AnswersAccepted, Replay, LegalHistory;
    var init, before, op := InitialState(limits), Run(InitialState(limits), ops[..b]), ops[b].op;
    AcceptedBefore(limits, ops, a, b, from, id);
    var p := AcceptedPosition(limits, ops[..b], a, from, id);
    assert ops[..b][..a] == ops[..a] && ops[..b][..a + 1] == ops[..a + 1];
    ReachableInv(before, limits, ops[..b]);
    LaterInv(before, EndTime(0, ops[..b]), ops[b].now);
    HistoryFacts(before, ops[b].now);
    AcceptOutcome(before, from, id, op.payload, ops[b].now, op.io);
    if Step(before, op, ops[b].now).out == Accepted {
      AcceptedNow(limits, ops, b, from, id);
      c := AcceptedAgainOnlyAfterRetention(limits, ops, a, b, from, id);
      RunDurablePrefix(init, ops, b);
    } else {
      var q, c' := TraceInbound(before.durable, Key(from, id), limits.retention);
      c := AcceptancesAreSpaced(before.durable, Key(from, id), p, q, limits.retention);
      DurableNotAfter(before, ops[b].now, q);
    }
  }

  lemma AcceptedBefore(limits: Limits, ops: seq<Timed>, a: nat, b: nat, from: Endpoint, id: MessageId)
    requires a < b < |ops| && AnswersAccepted(limits, ops, a, from, id)
    ensures AnswersAccepted(limits, ops[..b], a, from, id)
  {
    hide Step;
    assert ops[..b][..a] == ops[..a];
  }

  lemma AcceptedNow(limits: Limits, ops: seq<Timed>, b: nat, from: Endpoint, id: MessageId)
    requires b < |ops| && ops[b].op.Accept? && ops[b].op.from == from && ops[b].op.id == id
    requires Step(Run(InitialState(limits), ops[..b]), ops[b].op, ops[b].now).out == Accepted
    ensures AnswersAccepted(limits, ops, b, from, id)
  {
    hide Step;
  }

  lemma DurableNotAfter(j: JournalState, now: nat, i: nat)
    requires Inv(j, now) && i < |j.durable|
    ensures j.durable[i].ts <= now
  {
    hide Replay, LegalHistory, MinusStale, LiveTotalsExact, QuotasHold, TornOk, SeqAtMost;
  }

  lemma HistoryFacts(j: JournalState, now: nat)
    requires Inv(j, now)
    ensures LegalHistory(j.durable, j.limits.retention) && TsSorted(j.durable) && SeqSorted(j.durable) && EntriesOk(j.durable)
  {
  }

  // --------------------------------------------------------- nothing is lost

  /** A queued message stays queued, with its payload, peer and enqueue time, until a terminal record is written for it:
      no compaction, failed write or restart loses it. */
  lemma QueuedNeverLost(j: JournalState, limits: Limits, ops: seq<Timed>, i: nat, id: MessageId)
    requires Reachable(j, limits, ops)
    requires i < |j.durable| && Enqueues(j.durable[i], id)
    requires forall n | i < n < |j.durable| :: !Finishes(j.durable[n], id)
    ensures id in j.ix.outbound
    ensures var r, e := j.ix.outbound[id], j.durable[i];
            && r.state.Queued? && r.hash == e.hash && r.peer == e.peer.value
            && r.payload == e.payload && r.queuedAt == QueuedRecord(e).queuedAt
  {
    hide Inv, Run, Replay;
    var now, es := EndTime(0, ops), j.durable;
    ReachableInv(j, limits, ops);
    IndexFacts(j, now);
    HistoryFacts(j, now);
    EnqueuedStays(es, id, i, limits.retention);
    var q, t := TraceOutbound(es, id, limits.retention);
    if i < q {
      var t' := EnqueuesAreSpaced(es, id, i, q, limits.retention);
      assert false;
    }
    assert q == i;
    var full := Replay(es).outbound[id];
    assert full.state.Queued?;
    assert Durable(j.ix.outbound[id]) == Durable(full);
    assert EntryOk(es[i]) && OutboundOk(full);
  }

  /** An accepted message stays in the inbox with its payload and sequence number until it is consumed. */
  lemma UnconsumedNeverLost(j: JournalState, limits: Limits, ops: seq<Timed>, i: nat, k: Key)
    requires Reachable(j, limits, ops)
    requires i < |j.durable| && Receives(j.durable[i], k)
    requires forall n | i < n < |j.durable| :: !Consumes(j.durable[n], k)
    ensures IsLive(j.ix.inbound, k)
    ensures var r, e := j.ix.inbound[k], j.durable[i]; r.seqNo == e.seqNo && r.hash == e.hash && r.payload == e.payload
  {
    hide Inv, Run, Replay;
    var now, es := EndTime(0, ops), j.durable;
    ReachableInv(j, limits, ops);
    IndexFacts(j, now);
    HistoryFacts(j, now);
    ReceivedStays(es, k, i, limits.retention);
    var p, c := TraceInbound(es, k, limits.retention);
    if i < p {
      var c' := AcceptancesAreSpaced(es, k, i, p, limits.retention);
      assert false;
    }
    assert p == i;
  }

  // ------------------------------------------------------ one step at a time

  /** `e` was made durable, or left torn, or nothing was written. */
  ghost predicate Wrote(j: JournalState, j': JournalState, e: Entry) {
    || (j'.durable == j.durable + [e] && (j'.torn == j.torn || j'.torn.None?))
    || (j'.durable == j.durable && (j'.torn == j.torn || j'.torn == Some(e)))
  }

  lemma AppendWrites(j: JournalState, e: Entry, now: nat, io: AppendIo)
    ensures Wrote(j, Append(j, e, now, io).0, e)
  {
    hide CompactedFile, Apply, Prune;
  }

  /** The record an operation writes if it writes one. */
  ghost function EntryWritten(j: JournalState, op: Op, now: nat): Entry {
    match op
    case Enqueue(id, payload, peer, addr, lease, io) =>
      var e := NewEntry(j, if id in j.ix.outbound then AddressUpdated else QueuedLocal, id, PayloadHash(payload), now)
        .(peer := Some(peer), addr := Some(addr));
      if id in j.ix.outbound then e else e.(payload := Some(payload), queuedAt := Some(now))
    case Finish(id, how, reason, io) =>
      if id !in j.ix.outbound then NewEntry(j, Checkpoint, id, NoDigest, now) else
      var r := j.ix.outbound[id];
      NewEntry(j, how, id, r.hash, now).(peer := Some(r.peer), queuedAt := Some(r.queuedAt), reason := reason)
    case Accept(from, id, payload, io) =>
      var e := NewEntry(j, if Key(from, id) in j.ix.inbound then DuplicateSuppressed else ReceivedPeer, id, PayloadHash(payload), now)
        .(peer := Some(from));
      if Key(from, id) in j.ix.inbound then e else e.(payload := Some(payload))
    case Consume(from, id, io) =>
      if Key(from, id) !in j.ix.inbound then NewEntry(j, Checkpoint, id, NoDigest, now) else
      NewEntry(j, Consumed, id, j.ix.inbound[Key(from, id)].hash, now).(peer := Some(from))
    case _ => NewEntry(j, Checkpoint, [], NoDigest, now)
  }

  /** A step other than a restart writes at most one record, and which one can be told beforehand. */
  lemma StepWrites(j: JournalState, op: Op, now: nat)
    requires !op.Restart?
    ensures Wrote(j, Step(j, op, now).j, EntryWritten(j, op, now))
  {
    hide Append, QueuedSizes;
    var e := EntryWritten(j, op, now);
    match op
    case Enqueue(id, payload, peer, addr, lease, io) =>
      AppendWrites(j, e, now, io);
      if id in j.ix.outbound {
        var r := j.ix.outbound[id];
        var j1 := WithOutbound(j, id, r.(nextAttempt := lease, payload := if r.payload.None? then Some(payload) else r.payload));
        AppendWrites(j1, e, now, io);
      }
    case Finish(id, how, reason, io) => AppendWrites(j, e, now, io);
    case Accept(from, id, payload, io) => AppendWrites(j, e, now, io);
    case Consume(from, id, io) => AppendWrites(j, e, now, io);
    case _ =>
  }

  lemma RestartWrites(j: JournalState, survives: bool, now: nat)
    ensures var j' := Step(j, Restart(survives), now).j;
            j'.durable == j.durable + SurvivingTail(j, survives) && j'.torn.None?
  {
    hide CompactedFile, Prune, Replay, HighWater;
  }

  /** What is written or left torn after a step is old, or is the one record of that step. */
  lemma WrittenByStep(j: JournalState, op: Op, now: nat, e: Entry)
    ensures var j' := Step(j, op, now).j;
            (e in j'.durable || j'.torn == Some(e)) ==>
              e in j.durable || j.torn == Some(e) || (!op.Restart? && e == EntryWritten(j, op, now))
  {
    hide Step, EntryWritten;
    if op.Restart? {
      RestartWrites(j, op.survives, now);
    } else {
      StepWrites(j, op, now);
    }
  }
}
