/**
  The journal object: fields updated in place, one method per operation of the peer journal.

  Each method is proved equal to the corresponding step of `JournalSpec`, and so keeps its invariant. I/O results and
  clock readings are parameters. `file` stands for the journal on disk and `torn` for bytes a failed append left behind.
 */
module Journals {
  import opened Basics
  import opened PeerTypes
  import opened MapSums
  import JournalIndex
  import opened JournalHistory
  import opened JournalSnapshot
  import opened JournalSpec
  import opened JournalInvariant
  import opened JournalRuns
  import opened InboxPaging
  import opened RetryLeases

  // ---------------------------------------------------------------- sorting

  function InsertBySeq(es: seq<Entry>, e: Entry): seq<Entry> {
    if |es| == 0 || es[|es| - 1].seqNo <= e.seqNo then es + [e]
    else InsertBySeq(es[..|es| - 1], e) + [es[|es| - 1]]
  }

  lemma {:induction false} InsertKeepsSorted(es: seq<Entry>, e: Entry)
    requires SeqSorted(es) && forall x | x in es :: x.seqNo != e.seqNo
    ensures SeqSorted(InsertBySeq(es, e))
    ensures forall x :: x in InsertBySeq(es, e) <==> x in es || x == e
  {
    if |es| > 0 {
      var front, last := es[..|es| - 1], es[|es| - 1];
      assert es == front + [last] && last in es;
      if last.seqNo > e.seqNo {
        InsertKeepsSorted(front, e);
        var r := InsertBySeq(front, e);
        assert forall i | 0 <= i < |r| :: r[i] in r;
      }
    }
  }

  /** Collects the entries and sorts them by sequence number. */
  method SortBySeq(entries: set<Entry>) returns (es: seq<Entry>)
    requires DistinctSeqNos(entries)
    ensures es == Sorted(entries)
  {
    es := [];
    var rest := entries;
    while rest != {}
      invariant rest <= entries && SeqSorted(es)
      invariant forall x :: x in es <==> x in entries - rest
      decreases |rest|
    {
      var e :| e in rest;
      InsertKeepsSorted(es, e);
      es := InsertBySeq(es, e);
      rest := rest - {e};
    }
    SortedUnique(entries, es);
  }

  class Journal {
    const limits: Limits
    var nextSeq: nat
    var lines: nat
    var sinceCompact: nat
    var outbound: OutMap
    var inbound: InMap
    var live: LiveMap
    var closed: bool
    var tailDamaged: bool
    var file: seq<Entry>
    var torn: Option<Entry>
    ghost var durable: seq<Entry>

    ghost function State(): JournalState
      reads this
    {
      JournalState(limits, nextSeq, lines, sinceCompact, Index(outbound, inbound, live), closed, tailDamaged, file, torn, durable)
    }

    ghost predicate Valid(now: nat)
      reads this
    {
      Inv(State(), now)
    }

    /** A journal created in an empty state directory. */
    constructor Create(limits: Limits)
      ensures State() == InitialState(limits) && forall now :: Valid(now)
    {
      this.limits := limits;
      nextSeq, lines, sinceCompact := 1, 0, 0;
      outbound, inbound, live := map[], map[], map[];
      closed, tailDamaged, file, torn, durable := false, false, [], None, [];
      new;
      forall now
        ensures Valid(now)
      {
        InitialInv(limits, now);
      }
    }

    // -------------------------------------------------------------- replay

    method LiveSub(from: Endpoint, bytes: nat)
      modifies this`live
      ensures live == JournalIndex.LiveSub(old(live), from, bytes)
    {
      if from in live {
        var t := Totals(JournalIndex.SaturatingSub(live[from].count, 1), JournalIndex.SaturatingSub(live[from].bytes, bytes));
        live := live[from := t];
        if t.count == 0 {
          live := live - {from};
        }
      }
    }

    method Apply(e: Entry)
      modifies this`outbound, this`inbound, this`live
      ensures Index(outbound, inbound, live) == JournalIndex.Apply(old(Index(outbound, inbound, live)), e)
    {
      match e.state
      case QueuedLocal =>
        if e.peer.Some? {
          var queuedAt := if e.queuedAt.Some? then e.queuedAt.value else e.ts;
          outbound := outbound[e.id :=
            Outbound(e.seqNo, Queued, e.hash, e.payload, e.peer.value, e.addr, queuedAt, e.ts, None, 0, 0)];
        }
      case Settled | Refused | Expired =>
        ApplyTerminal(e);
      case ReceivedPeer =>
        if e.peer.Some? {
          ApplyReceived(e, Key(e.peer.value, e.id));
        }
      case Consumed =>
        if e.peer.Some? {
          ApplyConsumed(e, Key(e.peer.value, e.id));
        }
      case AddressUpdated =>
        if e.id in outbound && outbound[e.id].state.Queued? && e.addr.Some? {
          outbound := outbound[e.id := outbound[e.id].(addr := e.addr)];
        }
      case DuplicateSuppressed | Checkpoint =>
    }

    method ApplyTerminal(e: Entry)
      requires IsTerminal(e.state)
      modifies this`outbound
      ensures outbound == JournalIndex.ApplyOutbound(old(outbound), e)
    {
      var state := OutboundStateOf(e.state);
      if e.id in outbound {
        var r := outbound[e.id];
        outbound := outbound[e.id := r.(state := state, seqNo := e.seqNo, lastTs := e.ts, reason := e.reason, payload := None)];
      } else {
        var peer := if e.peer.Some? then e.peer.value else [];
        var queuedAt := if e.queuedAt.Some? then e.queuedAt.value else e.ts;
        outbound := outbound[e.id := Outbound(e.seqNo, state, e.hash, None, peer, None, queuedAt, e.ts, e.reason, 0, 0)];
      }
    }

    method ApplyReceived(e: Entry, k: Key)
      requires e.state.ReceivedPeer? && e.peer == Some(k.from) && e.id == k.id
      modifies this`inbound, this`live
      ensures inbound == JournalIndex.ApplyInbound(old(inbound), e)
      ensures live == JournalIndex.ApplyLive(old(live), old(inbound), e)
    {
      var prev := if k in inbound then Some(inbound[k]) else None;
      inbound := inbound[k := Inbound(e.seqNo, e.hash, e.payload, e.ts, false)];
      if prev.Some? && !prev.value.consumed {
        LiveSub(k.from, PayloadSize(prev.value.payload));
      }
      var t := if k.from in live then live[k.from] else Totals(0, 0);
      live := live[k.from := Totals(t.count + 1, t.bytes + PayloadSize(e.payload))];
    }

    method ApplyConsumed(e: Entry, k: Key)
      requires e.state.Consumed? && e.peer == Some(k.from) && e.id == k.id
      modifies this`inbound, this`live
      ensures inbound == JournalIndex.ApplyInbound(old(inbound), e)
      ensures live == JournalIndex.ApplyLive(old(live), old(inbound), e)
    {
      if k in inbound && !inbound[k].consumed {
        LiveSub(k.from, PayloadSize(inbound[k].payload));
      }
      var r := if k in inbound then inbound[k] else Inbound(e.seqNo, e.hash, None, e.ts, true);
      inbound := inbound[k := r.(consumed := true, payload := None, ts := e.ts)];
    }

    method Replay()
      modifies this`outbound, this`inbound, this`live, this`nextSeq
      ensures Index(outbound, inbound, live) == JournalIndex.Replay(file) && nextSeq == HighWater(file) + 1
    {
      outbound, inbound, live, nextSeq := map[], map[], map[], 1;
      var i := 0;
      while i < |file|
        invariant 0 <= i <= |file|
        invariant Index(outbound, inbound, live) == JournalIndex.Replay(file[..i])
        invariant nextSeq == HighWater(file[..i]) + 1
      {
        assert file[..i + 1][..i] == file[..i];
        nextSeq := Max(nextSeq, file[i].seqNo + 1);
        Apply(file[i]);
        i := i + 1;
      }
      assert file[..i] == file;
    }

    /** Re-open after a crash or shutdown: recover the tail, replay, find the next sequence number, compact. */
    method Reopen(now: nat, survives: bool)
      requires Valid(now)
      modifies this
      ensures State() == Restarted(old(State()), survives, now) && Valid(now)
    {
      hide Inv, JournalSpec.Compact, JournalIndex.Replay, HighWater;
      RecoveredInv(State(), survives, now);
      if torn.Some? && survives {
        file, durable := file + [torn.value], durable + [torn.value];
      } else {
        assert file + [] == file && durable + [] == durable;
      }
      torn, closed, tailDamaged := None, false, false;
      Replay();
      lines, sinceCompact := |file|, 0;
      var _ := Compact(now, CompactDone);
    }

    // ---------------------------------------------------------- compaction

    /** Drops terminal and consumed records older than the retention time from memory. */
    method DropStale(now: nat)
      modifies this`outbound, this`inbound
      ensures Index(outbound, inbound, live) == Prune(old(Index(outbound, inbound, live)), limits.retention, now)
    {
      var retention := limits.retention;
      outbound := map id | id in outbound && (outbound[id].state.Queued? || Fresh(outbound[id].lastTs, retention, now)) :: outbound[id];
      inbound := map k | k in inbound && (!inbound[k].consumed || Fresh(inbound[k].ts, retention, now)) :: inbound[k];
    }

    /** The records a rewrite would put into the file. */
    method TakeSnapshot(now: nat) returns (es: seq<Entry>)
      requires SeqDistinct(Index(outbound, inbound, live))
      ensures es == CompactedFile(Index(outbound, inbound, live), nextSeq, now)
    {
      hide SeqDistinct, Sorted, DistinctSeqNos;
      EntriesDistinct(Index(outbound, inbound, live));
      es := SortBySeq((set id | id in outbound :: OutboundEntry(id, outbound[id])) + (set k | k in inbound :: InboundEntry(k, inbound[k])));
      var highWater := JournalIndex.SaturatingSub(nextSeq, 1);
      if highWater > 0 && (|es| == 0 || es[|es| - 1].seqNo != highWater) {
        es := es + [CheckpointEntry(highWater, now)];
      }
    }

    /** Drop stale tombstones, then write out what is left. */
    method PrunedSnapshot(now: nat) returns (es: seq<Entry>)
      requires Valid(now)
      modifies this`outbound, this`inbound
      ensures State() == old(State()).(ix := Prune(old(State()).ix, limits.retention, now))
      ensures es == CompactedFile(State().ix, nextSeq, now)
    {
      hide Inv, SeqDistinct, CompactedFile, Prune;
      PruneInv(State(), now);
      DropStale(now);
      IndexFacts(State(), now);
      es := TakeSnapshot(now);
    }

    method Compact(now: nat, io: CompactIo) returns (ok: bool)
      requires Valid(now)
      modifies this
      ensures State() == JournalSpec.Compact(old(State()), now, io) && Valid(now)
    {
      hide Inv, SeqDistinct, CompactedFile, Prune;
      CompactInv(State(), now, io);
      if closed {
        return false;
      }
      var es := PrunedSnapshot(now);
      if |es| >= lines {
        sinceCompact := 0;
        return true;
      }
      match io
      case CompactFailed => return false;
      case RenamedUnsynced =>
        file, torn := es, None;
        return false;
      case CompactDone =>
        file, torn := es, None;
        lines, sinceCompact := |es|, 0;
        return true;
    }

    // -------------------------------------------------------------- writes

    method MakeEntry(state: DeliveryState, id: MessageId, hash: Digest, now: nat) returns (e: Entry)
      modifies this`nextSeq
      ensures e == NewEntry(old(State()), state, id, hash, now) && State() == old(State()).(nextSeq := old(nextSeq) + 1)
    {
      e := Entry(nextSeq, state, id, hash, None, None, None, None, None, now);
      nextSeq := nextSeq + 1;
    }

    /** One write per record; the record is applied to the index exactly once, and only when it is durable. */
    method AppendDurable(e: Entry, now: nat, io: AppendIo) returns (ok: bool)
      requires nextSeq == e.seqNo + 1
      requires Inv(State().(nextSeq := e.seqNo), now) && Writable(State().(nextSeq := e.seqNo), e, now)
      modifies this
      ensures (State(), ok) == Write(old(State()), e, now, io)
      ensures Valid(now)
    {
      hide Inv, Writable, JournalSpec.Compact, JournalIndex.Apply;
      ghost var before := State().(nextSeq := e.seqNo);
      AppendInv(before, e, now, io);
      if closed || tailDamaged {
        return false;
      }
      match io
      case RolledBack => return false;
      case TailLeft =>
        tailDamaged, torn := true, Some(e);
        return false;
      case Synced(compaction) =>
        SyncedInv(before, e, now);
        file, durable := file + [e], durable + [e];
        lines, sinceCompact := lines + 1, sinceCompact + 1;
        Apply(e);
        assert State() == Recorded(before.(nextSeq := before.nextSeq + 1), e);
        if sinceCompact >= limits.compactEvery {
          var _ := Compact(now, compaction);
        }
        return true;
    }

    // ------------------------------------------------------------ outbound

    /** Count and payload bytes of the queued records. */
    method QueuedTotals() returns (count: nat, bytes: nat)
      ensures count == |QueuedSizes(outbound)| && bytes == Sum(QueuedSizes(outbound))
    {
      hide Sum;
      count, bytes := 0, 0;
      var rest := outbound.Keys;
      ghost var done: map<MessageId, nat> := map[];
      assert Sum(done) == 0 by {
        SumEmpty<MessageId>();
      }
      while rest != {}
        invariant rest <= outbound.Keys
        invariant done == map id | id in QueuedSizes(outbound) && id !in rest :: QueuedSizes(outbound)[id]
        invariant count == |done| && bytes == Sum(done)
        decreases |rest|
      {
        var id :| id in rest;
        rest := rest - {id};
        if outbound[id].state.Queued? {
          SumInsert(done, id, PayloadSize(outbound[id].payload));
          count, bytes := count + 1, bytes + PayloadSize(outbound[id].payload);
          done := done[id := PayloadSize(outbound[id].payload)];
        }
      }
      assert done == QueuedSizes(outbound);
    }

    method EnqueueOutbound(id: MessageId, payload: Bytes, peer: Endpoint, addr: Addr, lease: nat, now: nat, io: AppendIo)
      returns (out: Outcome)
      requires Valid(now)
      modifies this
      ensures Result(State(), out) == EnqueueStep(old(State()), id, payload, peer, addr, lease, now, io)
      ensures Valid(now)
    {
      hide Inv, Write, QueuedSizes, Sum;
      EnqueueInv(State(), id, payload, peer, addr, lease, now, io);
      var hash := PayloadHash(payload);
      if id in outbound {
        if outbound[id].hash != hash || outbound[id].peer != peer {
          return EnqueueConflict;
        }
        out := Resend(id, payload, peer, addr, lease, now, io);
        return;
      }
      var queued, queuedBytes := QueuedTotals();
      if queued >= limits.maxOutbox || queuedBytes + |payload| > limits.maxOutboxBytes {
        return OutboxFull;
      }
      ghost var before := State();
      var e := MakeEntry(QueuedLocal, id, hash, now);
      e := e.(payload := Some(payload), peer := Some(peer), addr := Some(addr), queuedAt := Some(now));
      QueuedWritable(before, e, now);
      assert State().(nextSeq := e.seqNo) == before;
      hide Writable;
      var ok := AppendDurable(e, now, io);
      if !ok {
        return IoError;
      }
      if id in outbound {
        outbound := outbound[id := outbound[id].(nextAttempt := lease)];
      }
      return EnqueueNew;
    }

    method Resend(id: MessageId, payload: Bytes, peer: Endpoint, addr: Addr, lease: nat, now: nat, io: AppendIo)
      returns (out: Outcome)
      requires Valid(now) && id in outbound && outbound[id].hash == PayloadHash(payload) && outbound[id].peer == peer
      modifies this
      ensures Result(State(), out) == EnqueueStep(old(State()), id, payload, peer, addr, lease, now, io)
    {
      hide Inv, Write, Writable;
      match outbound[id].state
      case Refused | Expired => return EnqueueTerminal(outbound[id].state);
      case Settled => return EnqueueExisting(outbound[id].state);
      case Queued =>
        QueuedHasPayload(State(), id, now);
        LeasedInv(State(), id, lease, now);
        outbound := outbound[id := outbound[id].(nextAttempt := lease)];
        if outbound[id].addr != Some(addr) {
          ghost var before := State();
          var e := MakeEntry(AddressUpdated, id, PayloadHash(payload), now);
          e := e.(peer := Some(peer), addr := Some(addr));
          AddressWritable(before, id, e, now);
          assert State().(nextSeq := e.seqNo) == before;
          var ok := AppendDurable(e, now, io);
          if !ok {
            return IoError;
          }
        }
        return EnqueueExisting(Queued);
    }

    method FinishOutbound(id: MessageId, how: DeliveryState, reason: Option<string>, now: nat, io: AppendIo)
      returns (out: Outcome)
      requires Valid(now) && IsTerminal(how)
      modifies this
      ensures Result(State(), out) == FinishStep(old(State()), id, how, reason, now, io)
      ensures Valid(now)
    {
      hide Inv, Write, Writable;
      FinishInv(State(), id, how, reason, now, io);
      if id !in outbound || !outbound[id].state.Queued? {
        return FinishedNow(false);
      }
      var r := outbound[id];
      ghost var before := State();
      var e := MakeEntry(how, id, r.hash, now);
      e := e.(peer := Some(r.peer), queuedAt := Some(r.queuedAt), reason := reason);
      TerminalWritable(before, id, e, now);
      assert State().(nextSeq := e.seqNo) == before;
      var ok := AppendDurable(e, now, io);
      return if ok then FinishedNow(true) else IoError;
    }

    method NoteAttemptFailed(id: MessageId, next: nat, ghost now: nat)
      requires Valid(now)
      modifies this`outbound
      ensures State() == NoteFailedStep(old(State()), id, next) && Valid(now)
    {
      hide Inv;
      StepInv(State(), NoteFailed(id, next), now);
      if id in outbound {
        var r := outbound[id];
        var attempts := if r.attempts < MaxAttempts then r.attempts + 1 else r.attempts;
        outbound := outbound[id := r.(attempts := attempts, nextAttempt := next)];
      }
    }

    /** The queued messages that expired, and up to `maxDue` due ones, leased until `lease`, in whatever order the map yields. */
    method TakeDue(now: nat, expiry: nat, lease: nat, maxDue: nat)
      returns (expired: set<MessageId>, due: seq<DueOutbound>, ghost taken: set<MessageId>)
      requires Valid(now)
      modifies this`outbound
      ensures expired == ExpiredIds(old(outbound), now, expiry)
      ensures MayTake(old(outbound), taken, now, expiry, maxDue)
      ensures Handed(due, taken, old(outbound))
      ensures State() == Step(old(State()), Lease(taken, lease), now).j && Valid(now)
    {
      hide Inv, Progress, LeaseAll, MayTake, ExpiredIds, Handed;
      ghost var m := outbound;
      NothingHanded(m);
      expired, due, taken := {}, [], {};
      var rest := outbound.Keys;
      TakeStarts(m, now, expiry, lease, maxDue);
      while rest != {}
        invariant rest <= m.Keys && outbound == LeaseAll(m, taken, lease)
        invariant Handed(due, taken, m) && |due| == |taken|
        invariant Progress(m, rest, expired, taken, now, expiry, maxDue)
        decreases |rest|
      {
        var id :| id in rest;
        TakeSteps(m, rest, expired, taken, now, expiry, lease, maxDue, id);
        var r := outbound[id];
        if r.state.Queued? {
          if now >= r.queuedAt + expiry {
            expired := expired + {id};
          } else if r.nextAttempt <= now && |due| < maxDue && r.payload.Some? && r.addr.Some? {
            outbound := outbound[id := r.(nextAttempt := lease)];
            var d := DueOutbound(id, r.payload.value, r.addr.value, r.queuedAt);
            HandedMore(due, taken, m, id, d);
            due := due + [d];
            taken := taken + {id};
          }
        }
        rest := rest - {id};
      }
      TakeEnds(m, expired, taken, now, expiry, maxDue);
      StepInv(old(State()), Lease(taken, lease), now);
    }

    // ------------------------------------------------------------- inbound

    method AcceptInbound(from: Endpoint, id: MessageId, payload: Bytes, now: nat, io: AppendIo) returns (out: Outcome)
      requires Valid(now)
      modifies this
      ensures Result(State(), out) == AcceptStep(old(State()), from, id, payload, now, io)
      ensures Valid(now)
    {
      hide Inv, Write, Writable;
      AcceptInv(State(), from, id, payload, now, io);
      var hash, k := PayloadHash(payload), Key(from, id);
      ghost var before := State();
      if k in inbound {
        if inbound[k].hash != hash {
          return Conflict;
        }
        var e := MakeEntry(DuplicateSuppressed, id, hash, now);
        e := e.(peer := Some(from));
        KnownKeyWritable(before, k, e, now);
        assert State().(nextSeq := e.seqNo) == before;
        var ok := AppendDurable(e, now, io);
        return if ok then Duplicate else IoError;
      }
      var t := if from in live then live[from] else Totals(0, 0);
      if t.count + 1 > limits.maxUnconsumedPerPeer || t.bytes + |payload| > limits.maxUnconsumedBytesPerPeer {
        return QuotaExceeded;
      }
      var e := MakeEntry(ReceivedPeer, id, hash, now);
      e := e.(payload := Some(payload), peer := Some(from));
      ReceivedWritable(before, k, e, now);
      assert State().(nextSeq := e.seqNo) == before;
      var ok := AppendDurable(e, now, io);
      return if ok then Accepted else IoError;
    }

    method ConsumeInbound(from: Endpoint, id: MessageId, now: nat, io: AppendIo) returns (out: Outcome)
      requires Valid(now)
      modifies this
      ensures Result(State(), out) == ConsumeStep(old(State()), from, id, now, io)
      ensures Valid(now)
    {
      hide Inv, Write, Writable;
      ConsumeInv(State(), from, id, now, io);
      var k := Key(from, id);
      if k !in inbound {
        return Unknown;
      }
      if inbound[k].consumed {
        return AlreadyAcked;
      }
      ghost var before := State();
      var e := MakeEntry(Consumed, id, inbound[k].hash, now);
      e := e.(peer := Some(from));
      KnownKeyWritable(before, k, e, now);
      assert State().(nextSeq := e.seqNo) == before;
      var ok := AppendDurable(e, now, io);
      return if ok then Acked else IoError;
    }

    /** One page of unconsumed items after the cursor, and whether there are more. */
    method InboxPage(after: nat, limit: nat, budget: nat, ghost now: nat) returns (page: seq<Entry>, hasMore: bool)
      requires Valid(now)
      ensures page == Page(inbound, after, limit, budget) && hasMore == HasMore(inbound, after, limit, budget)
    {
      hide Inv, Sorted, CountedSize;
      InboxBelowHighWater(State(), now);
      var cands := SortBySeq(set k | k in inbound && IsCandidate(inbound, after, k) :: InboundEntry(k, inbound[k]));
      var n: nat, bytes: nat := 0, 0;
      while n < |cands|
        invariant n <= |cands|
        invariant Fitting(cands, 0, 0, limit, budget) == Fitting(cands, n, bytes, limit, budget)
      {
        var size := CountedSize(cands[n]);
        if n > 0 && (n >= Max(limit, 1) || bytes + size > budget) {
          break;
        }
        bytes, n := bytes + size, n + 1;
      }
      page, hasMore := cands[..n], n < |cands|;
    }

    method Close(ghost now: nat)
      requires Valid(now)
      modifies this`closed
      ensures State() == old(State()).(closed := true) && Valid(now)
    {
      hide Inv;
      CloseInv(State(), now);
      closed := true;
    }
  }

  ghost predicate IsSnapshotOf(d: DueOutbound, id: MessageId, m: OutMap) {
    id in m && d.id == id && m[id].payload == Some(d.payload) && m[id].addr == Some(d.addr) && d.queuedAt == m[id].queuedAt
  }

  /** Every taken message is handed out once, with its payload and address. */
  ghost predicate Handed(due: seq<DueOutbound>, taken: set<MessageId>, m: OutMap) {
    |due| == |taken| && forall id | id in taken :: exists d | d in due :: IsSnapshotOf(d, id, m)
  }

  lemma NothingHanded(m: OutMap)
    ensures Handed([], {}, m)
  {
  }

  lemma HandedMore(due: seq<DueOutbound>, taken: set<MessageId>, m: OutMap, id: MessageId, d: DueOutbound)
    requires Handed(due, taken, m) && id !in taken && IsSnapshotOf(d, id, m)
    ensures Handed(due + [d], taken + {id}, m)
  {
    assert forall x | x in due :: x in due + [d];
    assert d in due + [d];
  }

  lemma SumEmpty<K>()
    ensures Sum<K>(map[]) == 0
  {
  }

  /** The part of the map outside `rest` has been split into expired, taken and passed over. */
  ghost predicate Progress(m: OutMap, rest: set<MessageId>, expired: set<MessageId>, taken: set<MessageId>, now: nat, expiry: nat, maxDue: nat) {
    && expired == ExpiredIds(m, now, expiry) - rest
    && taken <= DueIds(m, now, expiry) - rest && |taken| <= maxDue
    && (|taken| < maxDue ==> taken == DueIds(m, now, expiry) - rest)
  }

  lemma TakeStarts(m: OutMap, now: nat, expiry: nat, lease: nat, maxDue: nat)
    ensures Progress(m, m.Keys, {}, {}, now, expiry, maxDue) && m == LeaseAll(m, {}, lease)
  {
  }

  lemma TakeSteps(m: OutMap, rest: set<MessageId>, expired: set<MessageId>, taken: set<MessageId>, now: nat, expiry: nat,
                  lease: nat, maxDue: nat, id: MessageId)
    requires Progress(m, rest, expired, taken, now, expiry, maxDue) && id in rest && rest <= m.Keys
    ensures var rest' := rest - {id};
            && id in LeaseAll(m, taken, lease) && LeaseAll(m, taken, lease)[id] == m[id] && id !in taken
            && if IsExpired(m[id], now, expiry) then Progress(m, rest', expired + {id}, taken, now, expiry, maxDue)
               else if IsDue(m[id], now, expiry) && |taken| < maxDue then
                 && Progress(m, rest', expired, taken + {id}, now, expiry, maxDue)
                 && LeaseAll(m, taken + {id}, lease) == LeaseAll(m, taken, lease)[id := m[id].(nextAttempt := lease)]
               else Progress(m, rest', expired, taken, now, expiry, maxDue)
  {
  }

  lemma TakeEnds(m: OutMap, expired: set<MessageId>, taken: set<MessageId>, now: nat, expiry: nat, maxDue: nat)
    requires Progress(m, {}, expired, taken, now, expiry, maxDue)
    ensures expired == ExpiredIds(m, now, expiry) && MayTake(m, taken, now, expiry, maxDue)
  {
    var due := DueIds(m, now, expiry);
    assert due == taken + (due - taken);
  }
}
