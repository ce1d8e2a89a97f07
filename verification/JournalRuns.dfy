/** Every operation keeps the invariant, so it holds after every run from an empty journal. */
module JournalRuns {
  import opened Basics
  import opened PeerTypes
  import opened JournalIndex
  import opened JournalHistory
  import opened JournalSnapshot
  import opened JournalSpec
  import opened JournalInvariant
  import opened MapSums

  // --------------------------------------------------------------- appending

  /** A record the journal may write next. */
  ghost predicate Writable(j: JournalState, e: Entry, now: nat) {
    && e.seqNo == j.nextSeq && e.ts == now && EntryOk(e) && EntryNotAfter(e, now)
    && Legal(Replay(j.durable), e, j.limits.retention)
    && RoomFor(j.limits, Replay(j.durable), e)
  }

  lemma LogOkSnoc(es: seq<Entry>, e: Entry)
    requires LogOk(es) && HighWater(es) < e.seqNo && EntryOk(e)
    ensures LogOk(es + [e]) && HighWater(es + [e]) == e.seqNo
  {
    SortedSnoc(es, e);
  }

  /** Both logs grow by one record, and the replays of both stay related. */
  lemma GrowLogs(j: JournalState, e: Entry, now: nat)
    requires Inv(j, now) && HighWater(j.file) < e.seqNo && EntryOk(e) && EntryNotAfter(e, now) && TsAtMost(j.durable, e.ts)
    requires Legal(Replay(j.durable), e, j.limits.retention)
    ensures LogOk(j.file + [e]) && LogOk(j.durable + [e]) && NotAfter(j.durable + [e], now) && TsSorted(j.durable + [e])
    ensures HighWater(j.durable + [e]) == HighWater(j.file + [e]) == e.seqNo
    ensures LegalHistory(j.durable + [e], j.limits.retention)
    ensures MinusStale(Replay(j.file + [e]), Replay(j.durable + [e]), j.limits.retention, now)
    ensures Replay(j.file + [e]) == Apply(Replay(j.file), e) && Replay(j.durable + [e]) == Apply(Replay(j.durable), e)
  {
    hide Legal, LegalHistory, MinusStale, Replay, Apply, EntryOk, LiveTotalsExact, QuotasHold, TornOk, LogOk, HighWater;
    LogOkSnoc(j.file, e);
    LogOkSnoc(j.durable, e);
    TimesSnoc(j.durable, e, now);
    LegalHistorySnoc(j.durable, e, j.limits.retention);
    ApplyMinusStale(Replay(j.file), Replay(j.durable), e, j.limits.retention, now);
    ReplaySnoc(j.file, e);
    ReplaySnoc(j.durable, e);
  }

  lemma TimesSnoc(es: seq<Entry>, e: Entry, now: nat)
    requires NotAfter(es, now) && EntryNotAfter(e, now) && TsSorted(es) && TsAtMost(es, e.ts)
    ensures NotAfter(es + [e], now) && TsSorted(es + [e])
  {
    hide EntryNotAfter;
  }

  lemma LegalForFile(a: Index, b: Index, e: Entry, retention: nat, now: nat)
    requires MinusStale(a, b, retention, now) && Legal(b, e, retention)
    ensures e.state.DuplicateSuppressed? || Legal(a, e, retention)
  {
    assert e.id in a.outbound ==> Durable(a.outbound[e.id]) == Durable(b.outbound[e.id]);
  }

  lemma RecordedInv(j: JournalState, e: Entry, now: nat)
    requires Inv(j, now) && !j.tailDamaged && HighWater(j.file) < e.seqNo < j.nextSeq && EntryOk(e) && EntryNotAfter(e, now)
    requires TsAtMost(j.durable, e.ts)
    requires Legal(Replay(j.durable), e, j.limits.retention) && RoomFor(j.limits, Replay(j.durable), e)
    ensures Inv(Recorded(j, e), now)
  {
    var ret := j.limits.retention;
    GrowLogs(j, e, now);
    LegalForFile(Replay(j.file), Replay(j.durable), e, ret, now);
    ApplyMinusStale(j.ix, Replay(j.file), e, ret, now);
    ApplyKeepsLiveTotals(j.ix, e);
    ApplyQuotas(j.limits, Replay(j.durable), e, ret);
  }

  lemma UseSeqInv(j: JournalState, now: nat)
    requires Inv(j, now)
    ensures Inv(j.(nextSeq := j.nextSeq + 1), now)
  {
    hide LogOk, NotAfter, LegalHistory, MinusStale, LiveTotalsExact, QuotasHold, Legal;
  }

  lemma TailLeftInv(j: JournalState, e: Entry, now: nat)
    requires Inv(j, now) && !j.tailDamaged && Writable(j, e, now)
    ensures Inv(j.(nextSeq := j.nextSeq + 1, tailDamaged := true, torn := Some(e)), now)
  {
    hide LogOk, NotAfter, LegalHistory, MinusStale, LiveTotalsExact, QuotasHold, Legal, EntryOk;
    ApplyQuotas(j.limits, Replay(j.durable), e, j.limits.retention);
    NotAfterTs(j.durable, now);
  }

  lemma NotAfterTs(es: seq<Entry>, now: nat)
    requires NotAfter(es, now)
    ensures TsAtMost(es, now)
  {
    assert forall i | 0 <= i < |es| :: EntryNotAfter(es[i], now);
  }

  lemma SyncedInv(j: JournalState, e: Entry, now: nat)
    requires Inv(j, now) && !j.tailDamaged && Writable(j, e, now)
    ensures Inv(Recorded(j.(nextSeq := j.nextSeq + 1), e), now)
  {
    hide LogOk, NotAfter, LegalHistory, MinusStale, LiveTotalsExact, QuotasHold, Legal, EntryOk, RoomFor;
    assert TsAtMost(j.durable, now) by {
      NotAfterTs(j.durable, now);
    }
    UseSeqInv(j, now);
    RecordedInv(j.(nextSeq := j.nextSeq + 1), e, now);
  }

  lemma AppendInv(j: JournalState, e: Entry, now: nat, io: AppendIo)
    requires Inv(j, now) && Writable(j, e, now)
    ensures Inv(Append(j, e, now, io).0, now)
  {
    hide Inv, Writable, Compact, Recorded;
    UseSeqInv(j, now);
    if !j.closed && !j.tailDamaged {
      match io
      case RolledBack =>
      case TailLeft => TailLeftInv(j, e, now);
      case Synced(compaction) =>
        SyncedInv(j, e, now);
        CompactInv(Recorded(j.(nextSeq := j.nextSeq + 1), e), now, compaction);
    }
  }

  // -------------------------------------------------------- memory-only steps

  lemma BookkeepingInv(j: JournalState, m: OutMap, now: nat)
    requires Inv(j, now) && m.Keys == j.ix.outbound.Keys
    requires forall id | id in m :: Durable(m[id]) == Durable(j.ix.outbound[id])
    ensures Inv(j.(ix := j.ix.(outbound := m)), now)
  {
    assert LiveTotalsExact(j.ix.(outbound := m)) by {
      forall from: Endpoint
        ensures LiveTotalsOf(j.ix.inbound, j.ix.live, from)
      {
      }
    }
  }

  lemma LeasedInv(j: JournalState, id: MessageId, lease: nat, now: nat)
    requires Inv(j, now)
    ensures Inv(Leased(j, id, lease), now)
  {
    if id in j.ix.outbound {
      BookkeepingInv(j, j.ix.outbound[id := j.ix.outbound[id].(nextAttempt := lease)], now);
    }
  }

  // -------------------------------------------------------------- operations

  lemma RoomInOutbox(j: JournalState, e: Entry, now: nat)
    requires Inv(j, now) && e.state.QueuedLocal?
    requires var queued := QueuedSizes(j.ix.outbound);
             |queued| < j.limits.maxOutbox && Sum(queued) + PayloadSize(e.payload) <= j.limits.maxOutboxBytes
    ensures RoomFor(j.limits, Replay(j.durable), e)
  {
    IndexFacts(j, now);
    SameQueued(j.ix.outbound, Replay(j.durable).outbound, j.limits.retention, now);
  }

  lemma RoomInInbox(j: JournalState, e: Entry, now: nat)
    requires Inv(j, now) && e.state.ReceivedPeer? && e.peer.Some?
    requires var t := LiveTotals(j, e.peer.value);
             t.count < j.limits.maxUnconsumedPerPeer && t.bytes + PayloadSize(e.payload) <= j.limits.maxUnconsumedBytesPerPeer
    ensures RoomFor(j.limits, Replay(j.durable), e)
  {
    IndexFacts(j, now);
    SameLive(j.ix.inbound, Replay(j.durable).inbound, j.limits.retention, now, e.peer.value);
    assert LiveTotalsOf(j.ix.inbound, j.ix.live, e.peer.value);
    var s := LiveSizes(j.ix.inbound, e.peer.value);
    if |s| == 0 {
      assert s == map[];
    }
  }

  lemma AddressWritable(j: JournalState, id: MessageId, e: Entry, now: nat)
    requires Inv(j, now) && id in j.ix.outbound && j.ix.outbound[id].state.Queued?
    requires e.state.AddressUpdated? && e.id == id && e.addr.Some? && e.seqNo == j.nextSeq && e.ts == now && EntryNotAfter(e, now)
    ensures Writable(j, e, now)
  {
    hide Inv, IndexOk, SeqDistinct, SeqAtMost, IndexNotAfter, Replay, HighWater;
    IndexFacts(j, now);
    assert Durable(j.ix.outbound[id]) == Durable(Replay(j.durable).outbound[id]);
  }

  lemma QueuedHasPayload(j: JournalState, id: MessageId, now: nat)
    requires Inv(j, now) && id in j.ix.outbound && j.ix.outbound[id].state.Queued?
    ensures j.ix.outbound[id].payload.Some?
  {
    hide Inv;
    IndexFacts(j, now);
    assert OutboundOk(j.ix.outbound[id]);
  }

  lemma ResendInv(j: JournalState, id: MessageId, payload: Bytes, peer: Endpoint, addr: Addr, lease: nat, now: nat, io: AppendIo)
    requires Inv(j, now) && id in j.ix.outbound
    ensures Inv(EnqueueStep(j, id, payload, peer, addr, lease, now, io).j, now)
  {
    hide Inv, Append, Writable;
    var r := j.ix.outbound[id];
    if r.hash == PayloadHash(payload) && r.peer == peer && r.state.Queued? {
      QueuedHasPayload(j, id, now);
      LeasedInv(j, id, lease, now);
      var j1 := Leased(j, id, lease);
      var e := NewEntry(j1, AddressUpdated, id, PayloadHash(payload), now).(peer := Some(peer), addr := Some(addr));
      AddressWritable(j1, id, e, now);
      AppendInv(j1, e, now, io);
    }
  }

  lemma QueuedWritable(j: JournalState, e: Entry, now: nat)
    requires Inv(j, now) && e.state.QueuedLocal? && e.id !in j.ix.outbound
    requires e.seqNo == j.nextSeq && EntryOk(e) && EntryNotAfter(e, now) && e.ts == now
    requires var queued := QueuedSizes(j.ix.outbound);
             |queued| < j.limits.maxOutbox && Sum(queued) + PayloadSize(e.payload) <= j.limits.maxOutboxBytes
    ensures Writable(j, e, now)
  {
    hide Inv, IndexOk, SeqDistinct, SeqAtMost, IndexNotAfter, Replay, HighWater;
    IndexFacts(j, now);
    RoomInOutbox(j, e, now);
  }

  lemma EnqueueInv(j: JournalState, id: MessageId, payload: Bytes, peer: Endpoint, addr: Addr, lease: nat, now: nat, io: AppendIo)
    requires Inv(j, now)
    ensures Inv(EnqueueStep(j, id, payload, peer, addr, lease, now, io).j, now)
  {
    hide Inv, Append, Writable, Leased, QueuedSizes, Sum;
    var queued := QueuedSizes(j.ix.outbound);
    if id in j.ix.outbound {
      ResendInv(j, id, payload, peer, addr, lease, now, io);
    } else if |queued| < j.limits.maxOutbox && Sum(queued) + |payload| <= j.limits.maxOutboxBytes {
      var e := NewEntry(j, QueuedLocal, id, PayloadHash(payload), now)
        .(payload := Some(payload), peer := Some(peer), addr := Some(addr), queuedAt := Some(now));
      QueuedWritable(j, e, now);
      AppendInv(j, e, now, io);
      LeasedInv(Append(j, e, now, io).0, id, lease, now);
    }
  }

  lemma TerminalWritable(j: JournalState, id: MessageId, e: Entry, now: nat)
    requires Inv(j, now) && id in j.ix.outbound && j.ix.outbound[id].state.Queued?
    requires IsTerminal(e.state) && e.id == id && e.seqNo == j.nextSeq && e.ts == now && e.payload.None?
    requires var r := j.ix.outbound[id]; e.hash == r.hash && e.peer == Some(r.peer) && e.queuedAt == Some(r.queuedAt)
    ensures Writable(j, e, now)
  {
    hide Inv, IndexOk, SeqDistinct, SeqAtMost, IndexNotAfter, Replay, HighWater;
    IndexFacts(j, now);
    assert Durable(j.ix.outbound[id]) == Durable(Replay(j.durable).outbound[id]);
  }

  lemma FinishInv(j: JournalState, id: MessageId, how: DeliveryState, reason: Option<string>, now: nat, io: AppendIo)
    requires Inv(j, now) && IsTerminal(how)
    ensures Inv(FinishStep(j, id, how, reason, now, io).j, now)
  {
    hide Inv, Append, Writable;
    if id in j.ix.outbound && j.ix.outbound[id].state.Queued? {
      var r := j.ix.outbound[id];
      var e := NewEntry(j, how, id, r.hash, now).(peer := Some(r.peer), queuedAt := Some(r.queuedAt), reason := reason);
      TerminalWritable(j, id, e, now);
      AppendInv(j, e, now, io);
    }
  }

  lemma KnownKeyWritable(j: JournalState, k: Key, e: Entry, now: nat)
    requires Inv(j, now) && k in j.ix.inbound && e.peer == Some(k.from) && e.id == k.id && e.hash == j.ix.inbound[k].hash
    requires e.state.DuplicateSuppressed? || (e.state.Consumed? && !j.ix.inbound[k].consumed && e.payload.None?)
    requires e.seqNo == j.nextSeq && e.ts == now && EntryNotAfter(e, now)
    ensures Writable(j, e, now)
  {
    hide Inv, IndexOk, SeqDistinct, SeqAtMost, IndexNotAfter, Replay, HighWater;
    IndexFacts(j, now);
  }

  lemma ReceivedWritable(j: JournalState, k: Key, e: Entry, now: nat)
    requires Inv(j, now) && k !in j.ix.inbound && e.peer == Some(k.from) && e.id == k.id && e.state.ReceivedPeer?
    requires e.seqNo == j.nextSeq && EntryOk(e) && EntryNotAfter(e, now) && e.ts == now
    requires var t := LiveTotals(j, e.peer.value);
             t.count < j.limits.maxUnconsumedPerPeer && t.bytes + PayloadSize(e.payload) <= j.limits.maxUnconsumedBytesPerPeer
    ensures Writable(j, e, now)
  {
    hide Inv, IndexOk, SeqDistinct, SeqAtMost, IndexNotAfter, Replay, HighWater;
    IndexFacts(j, now);
    RoomInInbox(j, e, now);
  }

  lemma AcceptInv(j: JournalState, from: Endpoint, id: MessageId, payload: Bytes, now: nat, io: AppendIo)
    requires Inv(j, now)
    ensures Inv(AcceptStep(j, from, id, payload, now, io).j, now)
  {
    hide Inv, Append, Writable;
    var k, hash, t := Key(from, id), PayloadHash(payload), LiveTotals(j, from);
    if k in j.ix.inbound {
      if j.ix.inbound[k].hash == hash {
        var e := NewEntry(j, DuplicateSuppressed, id, hash, now).(peer := Some(from));
        KnownKeyWritable(j, k, e, now);
        AppendInv(j, e, now, io);
      }
    } else if t.count < j.limits.maxUnconsumedPerPeer && t.bytes + |payload| <= j.limits.maxUnconsumedBytesPerPeer {
      var e := NewEntry(j, ReceivedPeer, id, hash, now).(payload := Some(payload), peer := Some(from));
      ReceivedWritable(j, k, e, now);
      AppendInv(j, e, now, io);
    }
  }

  lemma ConsumeInv(j: JournalState, from: Endpoint, id: MessageId, now: nat, io: AppendIo)
    requires Inv(j, now)
    ensures Inv(ConsumeStep(j, from, id, now, io).j, now)
  {
    hide Inv, Append, Writable;
    var k := Key(from, id);
    if IsLive(j.ix.inbound, k) {
      var e := NewEntry(j, Consumed, id, j.ix.inbound[k].hash, now).(peer := Some(from));
      KnownKeyWritable(j, k, e, now);
      AppendInv(j, e, now, io);
    }
  }

  lemma ReopenedInv(j: JournalState, file: seq<Entry>, durable: seq<Entry>, now: nat)
    requires LogOk(file) && LogOk(durable) && NotAfter(durable, now) && TsSorted(durable) && HighWater(durable) <= HighWater(file)
    requires LegalHistory(durable, j.limits.retention) && QuotasHold(j.limits, Replay(durable))
    requires MinusStale(Replay(file), Replay(durable), j.limits.retention, now)
    ensures Inv(Reopened(j, file, durable), now)
  {
    hide LogOk, NotAfter, TsSorted, LegalHistory, LiveTotalsExact, QuotasHold, Replay;
    ReplayLiveTotalsExact(file);
  }

  lemma RecoveredInv(j: JournalState, survives: bool, now: nat)
    requires Inv(j, now)
    ensures var tail := SurvivingTail(j, survives); Inv(Reopened(j, j.file + tail, j.durable + tail), now)
  {
    hide LogOk, NotAfter, LegalHistory, LiveTotalsExact, QuotasHold, Replay, MinusStale, Legal;
    var tail := SurvivingTail(j, survives);
    if tail == [] {
      assert j.file + tail == j.file && j.durable + tail == j.durable;
    } else {
      GrowLogs(j, j.torn.value, now);
    }
    ReopenedInv(j, j.file + tail, j.durable + tail, now);
  }

  lemma RestartInv(j: JournalState, survives: bool, now: nat)
    requires Inv(j, now)
    ensures Inv(Restarted(j, survives, now), now)
  {
    hide Inv, Compact;
    var tail := SurvivingTail(j, survives);
    RecoveredInv(j, survives, now);
    CompactInv(Reopened(j, j.file + tail, j.durable + tail), now, CompactDone);
  }

  lemma StepInv(j: JournalState, op: Op, now: nat)
    requires Inv(j, now)
    ensures Inv(Step(j, op, now).j, now)
  {
    hide Inv, EnqueueStep, FinishStep, AcceptStep, ConsumeStep, Restarted;
    match op
    case Enqueue(id, payload, peer, addr, lease, io) =>
      EnqueueInv(j, id, payload, peer, addr, lease, now, io);
    case Finish(id, how, reason, io) =>
      if IsTerminal(how) {
        FinishInv(j, id, how, reason, now, io);
      }
    case NoteFailed(id, next) =>
      BookkeepingInv(j, NoteFailedStep(j, id, next).ix.outbound, now);
    case Lease(ids, until) =>
      BookkeepingInv(j, LeaseAll(j.ix.outbound, ids, until), now);
    case Accept(from, id, payload, io) =>
      AcceptInv(j, from, id, payload, now, io);
    case Consume(from, id, io) =>
      ConsumeInv(j, from, id, now, io);
    case Close =>
      CloseInv(j, now);
    case Restart(survives) =>
      RestartInv(j, survives, now);
  }

  lemma CloseInv(j: JournalState, now: nat)
    requires Inv(j, now)
    ensures Inv(j.(closed := true), now)
  {
    hide LogOk, NotAfter, LegalHistory, MinusStale, LiveTotalsExact, QuotasHold, Legal;
  }

  lemma StepLimits(j: JournalState, op: Op, now: nat)
    ensures Step(j, op, now).j.limits == j.limits
  {
    hide CompactedFile, Apply, Prune, Replay, QueuedSizes, Sum;
  }

  lemma LaterInv(j: JournalState, now: nat, later: nat)
    requires Inv(j, now) && now <= later
    ensures Inv(j, later)
  {
    MinusStaleLater(j.ix, Replay(j.file), j.limits.retention, now, later);
    MinusStaleLater(Replay(j.file), Replay(j.durable), j.limits.retention, now, later);
  }

  // -------------------------------------------------------------------- runs

  datatype Timed = At(op: Op, now: nat)

  /** A run: operations in order, under a clock that never goes back. */
  ghost predicate InOrder(start: nat, ops: seq<Timed>) {
    && (forall i | 0 <= i < |ops| :: start <= ops[i].now)
    && (forall i, j | 0 <= i < j < |ops| :: ops[i].now <= ops[j].now)
  }

  function EndTime(start: nat, ops: seq<Timed>): nat {
    if |ops| == 0 then start else ops[|ops| - 1].now
  }

  ghost function Run(j: JournalState, ops: seq<Timed>): JournalState {
    if |ops| == 0 then j else
    var last := ops[|ops| - 1];
    Step(Run(j, ops[..|ops| - 1]), last.op, last.now).j
  }

  lemma InitialInv(limits: Limits, now: nat)
    ensures Inv(InitialState(limits), now)
  {
    ReplayLiveTotalsExact([]);
    assert QueuedSizes(map[]) == map[];
    forall from: Endpoint
      ensures LiveSizes(map[], from) == map[]
    {
    }
  }

  lemma {:induction false} RunInv(j: JournalState, start: nat, ops: seq<Timed>)
    requires Inv(j, start) && InOrder(start, ops)
    ensures Inv(Run(j, ops), EndTime(start, ops)) && Run(j, ops).limits == j.limits
  {
    hide Inv, Step;
    if |ops| > 0 {
      var front, last := ops[..|ops| - 1], ops[|ops| - 1];
      RunInv(j, start, front);
      StepLimits(Run(j, front), last.op, last.now);
      LaterInv(Run(j, front), EndTime(start, front), last.now);
      StepInv(Run(j, front), last.op, last.now);
    }
  }

  ghost predicate Reachable(j: JournalState, limits: Limits, ops: seq<Timed>) {
    InOrder(0, ops) && j == Run(InitialState(limits), ops)
  }

  lemma ReachableInv(j: JournalState, limits: Limits, ops: seq<Timed>)
    requires Reachable(j, limits, ops)
    ensures Inv(j, EndTime(0, ops)) && j.limits == limits
  {
    hide Inv, Run;
    InitialInv(limits, 0);
    RunInv(InitialState(limits), 0, ops);
  }

  // ------------------------------------------------------------ main results

  /** After any run the index agrees with a replay of the file on every key it holds, up to retry bookkeeping and the
      addresses of terminal records, and whatever only the replay still has is a stale tombstone. */
  lemma IndexRefinesReplay(j: JournalState, limits: Limits, ops: seq<Timed>)
    requires Reachable(j, limits, ops)
    ensures MinusStale(j.ix, Replay(j.file), limits.retention, EndTime(0, ops)) && IndexOk(j.ix)
  {
    hide Run, MinusStale, IndexOk, Replay;
    ReachableInv(j, limits, ops);
    IndexFacts(j, EndTime(0, ops));
  }

  /** After any run, the records ever made durable form a legal history with strictly increasing sequence numbers below
      the next one, and index and file both are its replay less stale tombstones: compaction and restarts lose nothing else. */
  lemma NothingLostButStaleTombstones(j: JournalState, limits: Limits, ops: seq<Timed>)
    requires Reachable(j, limits, ops)
    ensures LegalHistory(j.durable, limits.retention) && SeqSorted(j.durable) && HighWater(j.durable) < j.nextSeq
    ensures MinusStale(Replay(j.file), Replay(j.durable), limits.retention, EndTime(0, ops))
    ensures MinusStale(j.ix, Replay(j.durable), limits.retention, EndTime(0, ops))
  {
    hide Run, MinusStale, Replay, LegalHistory;
    ReachableInv(j, limits, ops);
    IndexFacts(j, EndTime(0, ops));
  }

  lemma SameQuotas(limits: Limits, a: Index, b: Index, retention: nat, now: nat)
    requires MinusStale(a, b, retention, now) && QuotasHold(limits, b)
    ensures QuotasHold(limits, a)
  {
    SameQueued(a.outbound, b.outbound, retention, now);
    forall from: Endpoint
      ensures InboxWithin(limits, a.inbound, from)
    {
      SameLive(a.inbound, b.inbound, retention, now, from);
      assert InboxWithin(limits, b.inbound, from);
    }
  }

  /** After any run the running totals are exact and all four limits hold, in memory and after a replay of the file. */
  lemma LimitsAlwaysHold(j: JournalState, limits: Limits, ops: seq<Timed>)
    requires Reachable(j, limits, ops)
    ensures LiveTotalsExact(j.ix) && LiveTotalsExact(Replay(j.file))
    ensures QuotasHold(limits, j.ix) && QuotasHold(limits, Replay(j.file))
  {
    hide Run, MinusStale, Replay, LegalHistory, QuotasHold, LiveTotalsExact;
    var now := EndTime(0, ops);
    ReachableInv(j, limits, ops);
    IndexFacts(j, now);
    SameQuotas(limits, j.ix, Replay(j.durable), limits.retention, now);
    SameQuotas(limits, Replay(j.file), Replay(j.durable), limits.retention, now);
    ReplayLiveTotalsExact(j.file);
  }

  /** The compaction decides to rewrite, and the new file gets in place. */
  ghost predicate Rewrites(j: JournalState, now: nat, io: CompactIo) {
    !j.closed && !io.CompactFailed? && |CompactedFile(Prune(j.ix, j.limits.retention, now), j.nextSeq, now)| < j.lines
  }

  /** A compaction that puts a new file in place leaves file and index in exact agreement, tombstones included; any other
      leaves the file as it was. */
  lemma RewriteAgreesExactly(j: JournalState, limits: Limits, ops: seq<Timed>, io: CompactIo)
    requires Reachable(j, limits, ops)
    ensures var now := EndTime(0, ops);
            var j' := Compact(j, now, io);
            if Rewrites(j, now, io)
            then j'.file == CompactedFile(j'.ix, j.nextSeq, now) && SameDurable(j'.ix, Replay(j'.file))
            else j'.file == j.file
  {
    hide Inv, Run, CompactedFile, Prune, SameDurable, Replay;
    var now := EndTime(0, ops);
    ReachableInv(j, limits, ops);
    PruneInv(j, now);
    RewriteInv(j.(ix := Prune(j.ix, limits.retention, now)), now, 0, 0);
  }
}
