/** When each journal operation gives which answer, what it leaves behind, and what follows over runs. */
module JournalOutcomes {
  import opened Basics
  import opened PeerTypes
  import opened MapSums
  import opened JournalIndex
  import opened JournalHistory
  import opened JournalSpec
  import opened JournalInvariant
  import opened JournalRuns
  import opened JournalGuarantees
  import opened RetryLeases

  /** The record gets to the disk. */
  predicate Reaches(j: JournalState, io: AppendIo) {
    !j.closed && !j.tailDamaged && io.Synced?
  }

  /** `j'` is `j` after the record was written: applied to the index, less any tombstones a compaction dropped. */
  ghost predicate WroteOne(j: JournalState, j': JournalState, e: Entry, now: nat) {
    && j'.durable == j.durable + [e]
    && (j'.ix == Apply(j.ix, e) || j'.ix == Prune(Apply(j.ix, e), j.limits.retention, now))
  }

  lemma AppendOutcome(j: JournalState, e: Entry, now: nat, io: AppendIo)
    ensures var (j', ok) := Append(j, e, now, io);
            && (ok <==> Reaches(j, io))
            && (if ok then WroteOne(j, j', e, now) else j'.durable == j.durable && j'.ix == j.ix)
  {
    hide CompactedFile, Apply, Prune;
  }

  // ------------------------------------------------------------------ accept

  /** The sender has room for one more message, by the sums over its unconsumed messages. */
  ghost predicate InboxRoom(j: JournalState, from: Endpoint, size: nat) {
    var sizes := LiveSizes(j.ix.inbound, from);
    |sizes| + 1 <= j.limits.maxUnconsumedPerPeer && Sum(sizes) + size <= j.limits.maxUnconsumedBytesPerPeer
  }

  lemma RoomByTotals(j: JournalState, from: Endpoint, size: nat)
    requires LiveTotalsOf(j.ix.inbound, j.ix.live, from)
    ensures var t := LiveTotals(j, from);
            InboxRoom(j, from, size) <==>
              t.count + 1 <= j.limits.maxUnconsumedPerPeer && t.bytes + size <= j.limits.maxUnconsumedBytesPerPeer
  {
    hide LiveSizes;
    var sizes := LiveSizes(j.ix.inbound, from);
    if |sizes| == 0 {
      assert sizes == map[];
    }
  }

  /** Exactly when a delivery gets which answer. */
  lemma AcceptAnswers(j: JournalState, from: Endpoint, id: MessageId, payload: Bytes, now: nat, io: AppendIo)
    requires Inv(j, now)
    ensures var k := Key(from, id);
            var known := k in j.ix.inbound;
            var same := known && j.ix.inbound[k].hash == PayloadHash(payload);
            var r := AcceptStep(j, from, id, payload, now, io);
            && (r.out == Conflict <==> known && !same)
            && (r.out == QuotaExceeded <==> !known && !InboxRoom(j, from, |payload|))
            && (r.out == Duplicate <==> same && Reaches(j, io))
            && (r.out == Accepted <==> !known && InboxRoom(j, from, |payload|) && Reaches(j, io))
            && (r.out == IoError <==> (same || (!known && InboxRoom(j, from, |payload|))) && !Reaches(j, io))
  {
    hide Inv, Append, InboxRoom, WroteOne, LiveTotals;
    LiveFacts(j, now, from);
    RoomByTotals(j, from, |payload|);
    var hash := PayloadHash(payload);
    AppendOutcome(j, NewEntry(j, DuplicateSuppressed, id, hash, now).(peer := Some(from)), now, io);
    AppendOutcome(j, NewEntry(j, ReceivedPeer, id, hash, now).(payload := Some(payload), peer := Some(from)), now, io);
  }

  /** An accepted message is in the inbox as it was given, numbered and unconsumed; a duplicate leaves the item as it is; a
      refused one changes nothing. */
  lemma AcceptLeaves(j: JournalState, from: Endpoint, id: MessageId, payload: Bytes, now: nat, io: AppendIo)
    ensures var k := Key(from, id);
            var r := AcceptStep(j, from, id, payload, now, io);
            && (r.out == Conflict || r.out == QuotaExceeded ==> r.j == j)
            && (r.out == Accepted ==>
                  k in r.j.ix.inbound && r.j.ix.inbound[k] == Inbound(j.nextSeq, PayloadHash(payload), Some(payload), now, false))
            && (r.out == Duplicate && IsLive(j.ix.inbound, k) ==> k in r.j.ix.inbound && r.j.ix.inbound[k] == j.ix.inbound[k])
  {
    hide Append, LiveTotals;
    var hash := PayloadHash(payload);
    AppendOutcome(j, NewEntry(j, DuplicateSuppressed, id, hash, now).(peer := Some(from)), now, io);
    AppendOutcome(j, NewEntry(j, ReceivedPeer, id, hash, now).(payload := Some(payload), peer := Some(from)), now, io);
  }

  lemma LiveFacts(j: JournalState, now: nat, from: Endpoint)
    requires Inv(j, now)
    ensures LiveTotalsOf(j.ix.inbound, j.ix.live, from)
  {
    hide LiveTotalsOf, LogOk, NotAfter, MinusStale, LegalHistory, QuotasHold, TornOk;
  }

  // ----------------------------------------------------------------- consume

  /** Exactly when an acknowledgement by the reader gets which answer; Acked takes the item out of the inbox and writes the
      one record that says so, and nothing else does. */
  lemma ConsumeOutcome(j: JournalState, from: Endpoint, id: MessageId, now: nat, io: AppendIo)
    ensures var k := Key(from, id);
            var r := ConsumeStep(j, from, id, now, io);
            && (r.out == Unknown <==> k !in j.ix.inbound)
            && (r.out == AlreadyAcked <==> k in j.ix.inbound && j.ix.inbound[k].consumed)
            && (r.out == Acked <==> IsLive(j.ix.inbound, k) && Reaches(j, io))
            && (r.out == IoError <==> IsLive(j.ix.inbound, k) && !Reaches(j, io))
            && (r.out == Unknown || r.out == AlreadyAcked ==> r.j == j)
            && (r.out == IoError ==> r.j.durable == j.durable && r.j.ix == j.ix)
            && (r.out == Acked ==>
                  && |r.j.durable| == |j.durable| + 1 && r.j.durable[..|j.durable|] == j.durable
                  && Consumes(r.j.durable[|j.durable|], k) && r.j.durable[|j.durable|].ts == now
                  && !IsLive(r.j.ix.inbound, k))
  {
    hide Append;
    var k := Key(from, id);
    if k in j.ix.inbound {
      AppendOutcome(j, NewEntry(j, Consumed, id, j.ix.inbound[k].hash, now).(peer := Some(from)), now, io);
    }
  }

  ghost predicate AnswersAcked(limits: Limits, ops: seq<Timed>, i: nat, from: Endpoint, id: MessageId) {
    && i < |ops| && ops[i].op.Consume? && ops[i].op.from == from && ops[i].op.id == id
    && Step(Run(InitialState(limits), ops[..i]), ops[i].op, ops[i].now).out == Acked
  }

  /** A key consumed and not received since is consumed. */
  lemma {:induction false} ConsumedStays(es: seq<Entry>, k: Key, c: nat)
    requires c < |es| && Consumes(es[c], k) && forall i | c < i < |es| :: !Receives(es[i], k)
    ensures k in Replay(es).inbound && Replay(es).inbound[k].consumed
  {
    var n := |es| - 1;
    InboundEffect(Replay(es[..n]).inbound, es[n], k);
    if c < n {
      ConsumedStays(es[..n], k, c);
    } else {
      ConsumeMarks(Replay(es[..n]).inbound, es[n], k);
    }
  }

  lemma ConsumeMarks(m: InMap, e: Entry, k: Key)
    requires Consumes(e, k)
    ensures k in ApplyInbound(m, e) && ApplyInbound(m, e)[k].consumed
  {
  }

  /** A live key was last received after it was last consumed. */
  lemma LiveSinceReceipt(j: JournalState, now: nat, k: Key, c: nat) returns (p: nat)
    requires Inv(j, now) && IsLive(j.ix.inbound, k) && c < |j.durable| && Consumes(j.durable[c], k)
    ensures c < p < |j.durable| && Receives(j.durable[p], k)
  {
    hide Inv, Replay, LegalHistory;
    IndexFacts(j, now);
    HistoryFacts(j, now);
    var q;
    p, q := TraceInbound(j.durable, k, j.limits.retention);
    if p <= c {
      ConsumedStays(j.durable, k, c);
      assert false;
    }
  }

  lemma AckedPosition(limits: Limits, ops: seq<Timed>, i: nat, from: Endpoint, id: MessageId) returns (c: nat)
    requires AnswersAcked(limits, ops, i, from, id)
    ensures var es := Run(InitialState(limits), ops[..i + 1]).durable;
            c + 1 == |es| && Consumes(es[c], Key(from, id))
  {
    hide ConsumeStep;
    var before := Run(InitialState(limits), ops[..i]);
    ConsumeOutcome(before, from, id, ops[i].now, ops[i].op.io);
    assert ops[..i + 1][..i] == ops[..i];
    c := |before.durable|;
  }

  /** Between two Acked answers for one key, restarts or not, the message was received again. */
  lemma AckedTwiceNeedsReceipt(limits: Limits, ops: seq<Timed>, a: nat, b: nat, from: Endpoint, id: MessageId) returns (p: nat)
    requires InOrder(0, ops) && a < b && AnswersAcked(limits, ops, a, from, id) && AnswersAcked(limits, ops, b, from, id)
    ensures var es := Run(InitialState(limits), ops[..b]).durable;
            |Run(InitialState(limits), ops[..a + 1]).durable| <= p < |es| && Receives(es[p], Key(from, id))
  {
    hide Inv, Step, Run, ConsumeStep;
    var init, before := InitialState(limits), Run(InitialState(limits), ops[..b]);
    var c := AckedPosition(limits, ops, a, from, id);
    assert ops[..b][..a + 1] == ops[..a + 1];
    RunDurablePrefix(init, ops[..b], a + 1);
    ReachableInv(before, limits, ops[..b]);
    LaterInv(before, EndTime(0, ops[..b]), ops[b].now);
    StepIsConsume(before, ops[b].op, ops[b].now);
    ConsumeOutcome(before, from, id, ops[b].now, ops[b].op.io);
    p := LiveSinceReceipt(before, ops[b].now, Key(from, id), c);
  }

  lemma StepIsConsume(j: JournalState, op: Op, now: nat)
    requires op.Consume?
    ensures Step(j, op, now) == ConsumeStep(j, op.from, op.id, now, op.io)
  {
    hide ConsumeStep;
  }

  // ----------------------------------------------------------------- enqueue

  ghost predicate OutboxRoom(j: JournalState, size: nat) {
    var sizes := QueuedSizes(j.ix.outbound);
    |sizes| < j.limits.maxOutbox && Sum(sizes) + size <= j.limits.maxOutboxBytes
  }

  /** Exactly when a message to send gets which answer; a new one is queued as given, at this time. */
  lemma EnqueueAnswers(j: JournalState, id: MessageId, payload: Bytes, peer: Endpoint, addr: Addr, lease: nat, now: nat, io: AppendIo)
    ensures var out := j.ix.outbound;
            var known := id in out;
            var same := known && out[id].hash == PayloadHash(payload) && out[id].peer == peer;
            var r := EnqueueStep(j, id, payload, peer, addr, lease, now, io);
            && (r.out == EnqueueConflict <==> known && !same)
            && (forall s :: r.out == EnqueueTerminal(s) <==> same && s == out[id].state && (s.Refused? || s.Expired?))
            && (r.out == EnqueueExisting(OutboundState.Settled) <==> same && out[id].state.Settled?)
            && (r.out == EnqueueExisting(Queued) <==> same && out[id].state.Queued? && (out[id].addr == Some(addr) || Reaches(j, io)))
            && (r.out == OutboxFull <==> !known && !OutboxRoom(j, |payload|))
            && (r.out == EnqueueNew <==> !known && OutboxRoom(j, |payload|) && Reaches(j, io))
            && (r.out == EnqueueConflict || r.out.EnqueueTerminal? || r.out == OutboxFull ==> r.j == j)
  {
    hide Append, QueuedSizes, Sum;
    EnqueueWrites(j, id, payload, peer, addr, lease, now, io);
  }

  function ResentRecord(j: JournalState, id: MessageId, payload: Bytes, lease: nat): Outbound
    requires id in j.ix.outbound
  {
    var r := j.ix.outbound[id];
    r.(nextAttempt := lease, payload := if r.payload.None? then Some(payload) else r.payload)
  }

  /** The two records an enqueue may write. */
  lemma EnqueueWrites(j: JournalState, id: MessageId, payload: Bytes, peer: Endpoint, addr: Addr, lease: nat, now: nat, io: AppendIo)
    ensures var e := NewEntry(j, QueuedLocal, id, PayloadHash(payload), now)
              .(payload := Some(payload), peer := Some(peer), addr := Some(addr), queuedAt := Some(now));
            var (j', ok) := Append(j, e, now, io);
            (ok <==> Reaches(j, io)) && (ok ==> WroteOne(j, j', e, now)) && (!ok ==> j'.ix == j.ix && j'.durable == j.durable)
    ensures id in j.ix.outbound ==>
              var j1 := WithOutbound(j, id, ResentRecord(j, id, payload, lease));
              var e := NewEntry(j1, AddressUpdated, id, PayloadHash(payload), now).(peer := Some(peer), addr := Some(addr));
              var (j', ok) := Append(j1, e, now, io);
              (ok <==> Reaches(j, io)) && (ok ==> WroteOne(j1, j', e, now)) && (!ok ==> j'.ix == j1.ix && j'.durable == j1.durable)
  {
    hide Append, WroteOne;
    AppendOutcome(j, NewEntry(j, QueuedLocal, id, PayloadHash(payload), now)
      .(payload := Some(payload), peer := Some(peer), addr := Some(addr), queuedAt := Some(now)), now, io);
    if id in j.ix.outbound {
      var j1 := WithOutbound(j, id, ResentRecord(j, id, payload, lease));
      AppendOutcome(j1, NewEntry(j1, AddressUpdated, id, PayloadHash(payload), now).(peer := Some(peer), addr := Some(addr)), now, io);
    }
  }

  /** A new message is in the outbox as it was given, queued now and leased; one record says so. */
  lemma NewIsQueued(j: JournalState, id: MessageId, payload: Bytes, peer: Endpoint, addr: Addr, lease: nat, now: nat, io: AppendIo)
    requires EnqueueStep(j, id, payload, peer, addr, lease, now, io).out == EnqueueNew
    ensures var j' := EnqueueStep(j, id, payload, peer, addr, lease, now, io).j;
            && id in j'.ix.outbound
            && j'.ix.outbound[id] == Outbound(j.nextSeq, Queued, PayloadHash(payload), Some(payload), peer, Some(addr), now, now, None, 0, lease)
            && |j'.durable| == |j.durable| + 1 && j'.durable[..|j.durable|] == j.durable
            && Enqueues(j'.durable[|j.durable|], id) && j'.durable[|j.durable|].ts == now
  {
    hide Append, QueuedSizes, Sum;
    EnqueueWrites(j, id, payload, peer, addr, lease, now, io);
  }

  /** Sending a queued message again keeps it queued with its payload and times, under the new lease and address. */
  lemma ResentStaysQueued(j: JournalState, id: MessageId, payload: Bytes, peer: Endpoint, addr: Addr, lease: nat, now: nat, io: AppendIo)
    requires EnqueueStep(j, id, payload, peer, addr, lease, now, io).out == EnqueueExisting(Queued)
    requires id in j.ix.outbound && j.ix.outbound[id].payload.Some?
    ensures var r, out' := j.ix.outbound[id], EnqueueStep(j, id, payload, peer, addr, lease, now, io).j.ix.outbound;
            id in out' && out'[id] == r.(nextAttempt := lease, addr := Some(addr))
  {
    hide Append, QueuedSizes, Sum;
    EnqueueWrites(j, id, payload, peer, addr, lease, now, io);
  }

  // ------------------------------------------------------------------ finish

  /** A message is finished exactly if it was queued and the record gets to the disk; then its history ends in that state. */
  lemma FinishOutcome(j: JournalState, id: MessageId, how: DeliveryState, reason: Option<string>, now: nat, io: AppendIo)
    requires IsTerminal(how)
    ensures var queued := id in j.ix.outbound && j.ix.outbound[id].state.Queued?;
            var r := FinishStep(j, id, how, reason, now, io);
            && (r.out == FinishedNow(false) <==> !queued)
            && (r.out == FinishedNow(true) <==> queued && Reaches(j, io))
            && (r.out == IoError <==> queued && !Reaches(j, io))
            && (r.out == FinishedNow(false) ==> r.j == j)
            && (r.out == IoError ==> r.j.ix == j.ix && r.j.durable == j.durable)
            && (r.out == FinishedNow(true) ==>
                  && |r.j.durable| == |j.durable| + 1 && r.j.durable[..|j.durable|] == j.durable
                  && Finishes(r.j.durable[|j.durable|], id) && r.j.durable[|j.durable|].state == how && r.j.durable[|j.durable|].ts == now
                  && (id in r.j.ix.outbound ==> DeliveryStateOf(r.j.ix.outbound[id].state) == how && r.j.ix.outbound[id].lastTs == now)
                  && (j.limits.retention > 0 ==> id in r.j.ix.outbound))
  {
    hide Append;
    if id in j.ix.outbound {
      var r := j.ix.outbound[id];
      AppendOutcome(j, NewEntry(j, how, id, r.hash, now).(peer := Some(r.peer), queuedAt := Some(r.queuedAt), reason := reason), now, io);
    }
  }

  // -------------------------------------------------------------- compaction

  lemma PruneKeeps(ix: Index, retention: nat, now: nat)
    requires IndexNotAfter(ix, now)
    ensures forall id :: id in Prune(ix, retention, now).outbound <==> id in ix.outbound && !StaleOutbound(ix.outbound[id], retention, now)
    ensures forall k :: k in Prune(ix, retention, now).inbound <==> k in ix.inbound && !StaleInbound(ix.inbound[k], retention, now)
    ensures forall id | id in Prune(ix, retention, now).outbound :: Prune(ix, retention, now).outbound[id] == ix.outbound[id]
    ensures forall k | k in Prune(ix, retention, now).inbound :: Prune(ix, retention, now).inbound[k] == ix.inbound[k]
  {
    assert forall id | id in ix.outbound :: ix.outbound[id].lastTs <= now;
    assert forall k | k in ix.inbound :: ix.inbound[k].ts <= now;
  }

  lemma CompactPrunes(j: JournalState, now: nat, io: CompactIo)
    requires !j.closed
    ensures var j' := Compact(j, now, io);
            j'.ix == Prune(j.ix, j.limits.retention, now) && j'.durable == j.durable && j'.nextSeq == j.nextSeq
  {
    hide Prune, CompactedFile;
  }

  /** A compaction drops exactly the tombstones that are stale: terminal or consumed for at least the retention time. */
  lemma CompactionDropsStale(j: JournalState, now: nat, io: CompactIo)
    requires Inv(j, now) && !j.closed
    ensures var j' := Compact(j, now, io);
            && (forall id :: id in j'.ix.outbound <==> id in j.ix.outbound && !StaleOutbound(j.ix.outbound[id], j.limits.retention, now))
            && (forall k :: k in j'.ix.inbound <==> k in j.ix.inbound && !StaleInbound(j.ix.inbound[k], j.limits.retention, now))
            && (forall id | id in j'.ix.outbound :: j'.ix.outbound[id] == j.ix.outbound[id])
            && (forall k | k in j'.ix.inbound :: j'.ix.inbound[k] == j.ix.inbound[k])
            && j'.durable == j.durable && j'.nextSeq == j.nextSeq
  {
    hide Inv, Compact, StaleOutbound, StaleInbound, Prune;
    IndexFacts(j, now);
    CompactPrunes(j, now, io);
    PruneKeeps(j.ix, j.limits.retention, now);
  }

  /** A record that gets to the disk never leaves more than the limit of records since the last compaction. */
  lemma CompactionIsDue(j: JournalState, e: Entry, now: nat)
    requires Reaches(j, Synced(CompactDone))
    ensures var j' := Append(j, e, now, Synced(CompactDone)).0; j'.sinceCompact == 0 || j'.sinceCompact < j.limits.compactEvery
  {
    hide CompactedFile, Apply, Prune;
  }

  // --------------------------------------------------------- close and restart

  /** After a close, or with a damaged tail, no operation but a restart writes anything, and it stays so. */
  lemma ClosedWritesNothing(j: JournalState, op: Op, now: nat)
    requires (j.closed || j.tailDamaged) && !op.Restart?
    ensures var j' := Step(j, op, now).j;
            j'.durable == j.durable && j'.file == j.file && j'.torn == j.torn && (j.closed ==> j'.closed) && (j.tailDamaged ==> j'.tailDamaged)
    ensures op.Close? ==> Step(j, op, now).j.closed
  {
    hide QueuedSizes, Sum, Recorded, Compact;
  }

  lemma CloseCloses(j: JournalState, now: nat)
    ensures Step(j, Close, now).j == j.(closed := true)
  {
  }

  /** A restart rebuilds the index from the file and the torn record that survived, less exactly the stale tombstones, with
      retry bookkeeping at its start, and the journal takes writes again. */
  lemma RestartOutcome(j: JournalState, survives: bool, now: nat)
    requires Inv(j, now)
    ensures var j', full := Step(j, Restart(survives), now).j, Replay(j.file + SurvivingTail(j, survives));
            && !j'.closed && !j'.tailDamaged && j'.torn.None? && j'.limits == j.limits
            && j'.nextSeq == HighWater(j.file + SurvivingTail(j, survives)) + 1
            && (forall id :: id in j'.ix.outbound <==> id in full.outbound && !StaleOutbound(full.outbound[id], j.limits.retention, now))
            && (forall k :: k in j'.ix.inbound <==> k in full.inbound && !StaleInbound(full.inbound[k], j.limits.retention, now))
            && (forall k | k in j'.ix.inbound :: j'.ix.inbound[k] == full.inbound[k])
            && (forall id | id in j'.ix.outbound ::
                  j'.ix.outbound[id] == full.outbound[id] && full.outbound[id].attempts == 0 && full.outbound[id].nextAttempt == 0)
  {
    hide Inv, Compact, Replay, HighWater, StaleOutbound, StaleInbound;
    var tail := SurvivingTail(j, survives);
    var again := Reopened(j, j.file + tail, j.durable + tail);
    RecoveredInv(j, survives, now);
    CompactionDropsStale(again, now, CompactDone);
    CompactFlags(again, now);
    ReplayStartsRetries(j.file + tail);
  }

  lemma CompactFlags(j: JournalState, now: nat)
    requires !j.closed && j.torn.None?
    ensures var j' := Compact(j, now, CompactDone); !j'.closed && j'.tailDamaged == j.tailDamaged && j'.torn.None? && j'.limits == j.limits
  {
    hide CompactedFile, Prune;
  }

  lemma {:induction false} ReplayStartsRetries(es: seq<Entry>)
    ensures forall id | id in Replay(es).outbound :: Replay(es).outbound[id].attempts == 0 && Replay(es).outbound[id].nextAttempt == 0
  {
    if es != [] {
      ReplayStartsRetries(es[..|es| - 1]);
    }
  }

  // ------------------------------------------------------------ retry timing

  /** After a failed attempt a queued message is next due exactly from the given time until it expires. */
  lemma DueAfterFailure(j: JournalState, id: MessageId, next: nat, now: nat, expiry: nat)
    requires IndexOk(j.ix) && id in j.ix.outbound && j.ix.outbound[id].state.Queued?
    ensures id in DueIds(NoteFailedStep(j, id, next).ix.outbound, now, expiry) <==>
            next <= now < j.ix.outbound[id].queuedAt + expiry
    ensures var r := NoteFailedStep(j, id, next).ix.outbound[id];
            r == j.ix.outbound[id].(nextAttempt := next, attempts := r.attempts)
            && (j.ix.outbound[id].attempts < 4294967295 ==> r.attempts == j.ix.outbound[id].attempts + 1)
  {
    assert OutboundOk(j.ix.outbound[id]);
  }

  ghost predicate EnqueuedNow(e: Entry) {
    e.state.QueuedLocal? ==> e.queuedAt == Some(e.ts)
  }

  lemma WrittenEnqueuedNow(j: JournalState, op: Op, now: nat)
    requires op.Finish? ==> IsTerminal(op.how)
    ensures EnqueuedNow(EntryWritten(j, op, now))
  {
  }

  ghost predicate AllEnqueuedNow(j: JournalState) {
    forall e | e in j.durable || j.torn == Some(e) :: EnqueuedNow(e)
  }

  lemma {:induction false} RunEnqueuedNow(limits: Limits, ops: seq<Timed>)
    ensures AllEnqueuedNow(Run(InitialState(limits), ops))
  {
    hide Step, EnqueuedNow, EntryWritten;
    if ops != [] {
      var front, last := ops[..|ops| - 1], ops[|ops| - 1];
      var j := Run(InitialState(limits), front);
      RunEnqueuedNow(limits, front);
      if last.op.Finish? && !IsTerminal(last.op.how) {
        IdleFinish(j, last.op, last.now);
      } else {
        WrittenEnqueuedNow(j, last.op, last.now);
        forall e | e in Step(j, last.op, last.now).j.durable || Step(j, last.op, last.now).j.torn == Some(e)
          ensures EnqueuedNow(e)
        {
          WrittenByStep(j, last.op, last.now, e);
        }
      }
    }
  }

  lemma IdleFinish(j: JournalState, op: Op, now: nat)
    requires op.Finish? && !IsTerminal(op.how)
    ensures Step(j, op, now).j == j
  {
  }

  /** In every reachable state, a message is reported expired exactly from `expiry` after the record that enqueued it, as long
      as it is queued. */
  lemma ExpiresFromItsEnqueue(j: JournalState, limits: Limits, ops: seq<Timed>, i: nat, id: MessageId, now: nat, expiry: nat)
    requires Reachable(j, limits, ops) && i < |j.durable| && Enqueues(j.durable[i], id)
    requires forall n | i < n < |j.durable| :: !Finishes(j.durable[n], id)
    ensures id in ExpiredIds(j.ix.outbound, now, expiry) <==> j.durable[i].ts + expiry <= now
  {
    hide Run, Inv, Reachable;
    QueuedNeverLost(j, limits, ops, i, id);
    RunEnqueuedNow(limits, ops);
    ReachableIs(j, limits, ops);
    assert EnqueuedNow(j.durable[i]);
  }

  lemma ReachableIs(j: JournalState, limits: Limits, ops: seq<Timed>)
    requires Reachable(j, limits, ops)
    ensures j == Run(InitialState(limits), ops)
  {
    hide Run;
  }
}
