/** What every journal operation keeps, and what therefore holds in every run. */
module JournalInvariant {
  import opened Basics
  import opened PeerTypes
  import opened JournalIndex
  import opened JournalHistory
  import opened JournalSnapshot
  import opened JournalSpec
  import opened MapSums

  // ------------------------------------------------------------------ quotas

  ghost predicate OutboxWithin(limits: Limits, m: OutMap) {
    var queued := QueuedSizes(m);
    |queued| <= limits.maxOutbox && Sum(queued) <= limits.maxOutboxBytes
  }

  ghost predicate InboxWithin(limits: Limits, m: InMap, from: Endpoint) {
    var live := LiveSizes(m, from);
    |live| <= limits.maxUnconsumedPerPeer && Sum(live) <= limits.maxUnconsumedBytesPerPeer
  }

  ghost predicate InboxesWithin(limits: Limits, m: InMap) {
    forall from: Endpoint :: InboxWithin(limits, m, from)
  }

  ghost predicate QuotasHold(limits: Limits, ix: Index) {
    OutboxWithin(limits, ix.outbound) && InboxesWithin(limits, ix.inbound)
  }

  // --------------------------------------------------------------- invariant

  ghost predicate LogOk(es: seq<Entry>) {
    SeqSorted(es) && EntriesOk(es) && (|es| > 0 ==> es[0].seqNo > 0)
  }

  /** A record whose write failed half way, and which may or may not be found at the next start. */
  ghost predicate TornOk(j: JournalState, e: Entry, now: nat) {
    && HighWater(j.file) < e.seqNo && EntryOk(e) && EntryNotAfter(e, now) && TsAtMost(j.durable, e.ts)
    && Legal(Replay(j.durable), e, j.limits.retention)
    && QuotasHold(j.limits, Apply(Replay(j.durable), e))
  }

  ghost predicate Inv(j: JournalState, now: nat) {
    && LogOk(j.file) && LogOk(j.durable) && NotAfter(j.durable, now) && TsSorted(j.durable)
    && HighWater(j.durable) <= HighWater(j.file) < j.nextSeq
    && LegalHistory(j.durable, j.limits.retention)
    && MinusStale(j.ix, Replay(j.file), j.limits.retention, now)
    && MinusStale(Replay(j.file), Replay(j.durable), j.limits.retention, now)
    && LiveTotalsExact(j.ix)
    && QuotasHold(j.limits, Replay(j.durable))
    && (j.torn.Some? ==> j.tailDamaged && TornOk(j, j.torn.value, now))
  }

  // -------------------------------------------- what an index inherits

  lemma IndexInherits(a: Index, b: Index, retention: nat, now: nat, n: nat, later: nat)
    requires MinusStale(a, b, retention, now)
    ensures IndexOk(b) ==> IndexOk(a)
    ensures SeqDistinct(b) && SeqAtMost(b, n) ==> SeqDistinct(a) && SeqAtMost(a, n)
    ensures IndexNotAfter(b, later) ==> IndexNotAfter(a, later)
  {
    assert forall id | id in a.outbound :: Durable(a.outbound[id]) == Durable(b.outbound[id]);
    assert forall id | id in a.outbound :: a.outbound[id].seqNo == b.outbound[id].seqNo;
  }

  lemma IndexFacts(j: JournalState, now: nat)
    requires Inv(j, now)
    ensures IndexOk(j.ix) && SeqDistinct(j.ix) && SeqAtMost(j.ix, HighWater(j.file)) && IndexNotAfter(j.ix, now)
    ensures MinusStale(j.ix, Replay(j.durable), j.limits.retention, now)
    ensures IndexOk(Replay(j.durable))
  {
    var r, l := Replay(j.file), Replay(j.durable);
    ReplayIndexOk(j.file);
    ReplayIndexOk(j.durable);
    ReplaySeqDistinct(j.file);
    ReplayNotAfter(j.durable, now);
    IndexInherits(j.ix, r, j.limits.retention, now, HighWater(j.file), now);
    MinusStaleTransitive(j.ix, r, l, j.limits.retention, now);
    IndexInherits(j.ix, l, j.limits.retention, now, HighWater(j.file), now);
  }

  lemma SameQueued(a: OutMap, b: OutMap, retention: nat, now: nat)
    requires OutMinusStale(a, b, retention, now)
    ensures QueuedSizes(a) == QueuedSizes(b)
  {
    assert forall id | id in a :: Durable(a[id]) == Durable(b[id]);
  }

  lemma SameLive(a: InMap, b: InMap, retention: nat, now: nat, from: Endpoint)
    requires InMinusStale(a, b, retention, now)
    ensures LiveSizes(a, from) == LiveSizes(b, from)
  {
    assert forall k: Key :: IsLive(a, k) == IsLive(b, k);
    LiveSizesFrame(a, b, from);
  }

  // ---------------------------------------------------------- quota steps

  lemma OutboxShrinks(limits: Limits, m: OutMap, id: MessageId, r: Outbound)
    requires OutboxWithin(limits, m) && id in m && m[id].state.Queued?
    requires r.state.Queued? ==> r.payload == m[id].payload
    ensures OutboxWithin(limits, m[id := r])
  {
    hide Sum;
    var s, s' := QueuedSizes(m), QueuedSizes(m[id := r]);
    if r.state.Queued? {
      assert s' == s;
    } else {
      assert s' == s - {id};
      SumDelete(s, id);
    }
  }

  lemma OutboxGrows(limits: Limits, m: OutMap, id: MessageId, r: Outbound)
    requires r.state.Queued? && (id in m ==> !m[id].state.Queued?)
    requires |QueuedSizes(m)| < limits.maxOutbox && Sum(QueuedSizes(m)) + PayloadSize(r.payload) <= limits.maxOutboxBytes
    ensures OutboxWithin(limits, m[id := r])
  {
    hide Sum;
    var s, s' := QueuedSizes(m), QueuedSizes(m[id := r]);
    assert s' == s[id := PayloadSize(r.payload)];
    SumInsert(s, id, PayloadSize(r.payload));
  }

  lemma InboxShrinks(limits: Limits, m: InMap, k: Key, r: Inbound)
    requires InboxWithin(limits, m, k.from) && r.consumed
    ensures InboxWithin(limits, m[k := r], k.from)
  {
    var s, s' := LiveSizes(m, k.from), LiveSizes(m[k := r], k.from);
    if k in s {
      assert s' == s - {k};
      SumDelete(s, k);
    } else {
      assert s' == s;
    }
  }

  lemma InboxGrows(limits: Limits, m: InMap, k: Key, r: Inbound)
    requires !IsLive(m, k) && !r.consumed
    requires |LiveSizes(m, k.from)| < limits.maxUnconsumedPerPeer
    requires Sum(LiveSizes(m, k.from)) + PayloadSize(r.payload) <= limits.maxUnconsumedBytesPerPeer
    ensures InboxWithin(limits, m[k := r], k.from)
  {
    hide Sum;
    var s, s' := LiveSizes(m, k.from), LiveSizes(m[k := r], k.from);
    assert s' == s[k := PayloadSize(r.payload)];
    SumInsert(s, k, PayloadSize(r.payload));
  }

  /** What the two quota checks establish before a record that grows a quota is written. */
  ghost predicate RoomFor(limits: Limits, ix: Index, e: Entry) {
    match e.state
    case QueuedLocal =>
      && |QueuedSizes(ix.outbound)| < limits.maxOutbox
      && Sum(QueuedSizes(ix.outbound)) + PayloadSize(e.payload) <= limits.maxOutboxBytes
    case ReceivedPeer =>
      && e.peer.Some?
      && |LiveSizes(ix.inbound, e.peer.value)| < limits.maxUnconsumedPerPeer
      && Sum(LiveSizes(ix.inbound, e.peer.value)) + PayloadSize(e.payload) <= limits.maxUnconsumedBytesPerPeer
    case _ => true
  }

  lemma ApplyOutboxWithin(limits: Limits, ix: Index, e: Entry, retention: nat)
    requires OutboxWithin(limits, ix.outbound) && Legal(ix, e, retention) && EntryOk(e) && RoomFor(limits, ix, e)
    ensures OutboxWithin(limits, ApplyOutbound(ix.outbound, e))
  {
    hide OutboxWithin, QueuedSizes, Sum;
    var m, m' := ix.outbound, ApplyOutbound(ix.outbound, e);
    if TouchesOutbound(e) {
      assert m' == m[e.id := m'[e.id]];
      if e.state.QueuedLocal? {
        OutboxGrows(limits, m, e.id, m'[e.id]);
      } else {
        OutboxShrinks(limits, m, e.id, m'[e.id]);
      }
    }
  }

  lemma ApplyInboxWithin(limits: Limits, ix: Index, e: Entry, retention: nat, from: Endpoint)
    requires InboxWithin(limits, ix.inbound, from) && Legal(ix, e, retention) && EntryOk(e) && RoomFor(limits, ix, e)
    ensures InboxWithin(limits, ApplyInbound(ix.inbound, e), from)
  {
    var m, m' := ix.inbound, ApplyInbound(ix.inbound, e);
    if e.peer != Some(from) || !(e.state.ReceivedPeer? || e.state.Consumed?) {
      LiveSizesFrame(m, m', from);
    } else {
      var k := EntryKey(e);
      assert m' == m[k := m'[k]];
      if e.state.ReceivedPeer? {
        InboxGrows(limits, m, k, m'[k]);
      } else {
        InboxShrinks(limits, m, k, m'[k]);
      }
    }
  }

  lemma ApplyQuotas(limits: Limits, ix: Index, e: Entry, retention: nat)
    requires QuotasHold(limits, ix) && Legal(ix, e, retention) && EntryOk(e) && RoomFor(limits, ix, e)
    ensures QuotasHold(limits, Apply(ix, e))
  {
    ApplyOutboxWithin(limits, ix, e, retention);
    forall from: Endpoint
      ensures InboxWithin(limits, ApplyInbound(ix.inbound, e), from)
    {
      ApplyInboxWithin(limits, ix, e, retention, from);
    }
  }

  // ------------------------------------------------------------- compaction

  lemma PruneMinusStale(ix: Index, retention: nat, now: nat)
    requires IndexNotAfter(ix, now)
    ensures MinusStale(Prune(ix, retention, now), ix, retention, now)
  {
  }

  lemma PruneLiveTotals(ix: Index, retention: nat, now: nat)
    requires LiveTotalsExact(ix)
    ensures LiveTotalsExact(Prune(ix, retention, now))
  {
    forall from: Endpoint
      ensures LiveTotalsOf(PruneInbound(ix.inbound, retention, now), ix.live, from)
    {
      LiveSizesFrame(ix.inbound, PruneInbound(ix.inbound, retention, now), from);
      assert LiveTotalsOf(ix.inbound, ix.live, from);
    }
  }

  lemma PruneInv(j: JournalState, now: nat)
    requires Inv(j, now)
    ensures Inv(j.(ix := Prune(j.ix, j.limits.retention, now)), now)
  {
    var ret := j.limits.retention;
    IndexFacts(j, now);
    PruneMinusStale(j.ix, ret, now);
    MinusStaleTransitive(Prune(j.ix, ret, now), j.ix, Replay(j.file), ret, now);
    PruneLiveTotals(j.ix, ret, now);
  }

  lemma SnapshotOk(ix: Index, n: nat)
    requires IndexOk(ix) && SeqDistinct(ix) && SeqAtMost(ix, n)
    ensures LogOk(Snapshot(ix)) && HighWater(Snapshot(ix)) <= n
  {
    var es := Snapshot(ix);
    SnapshotElements(ix);
    forall i | 0 <= i < |es|
      ensures EntryOk(es[i]) && 0 < es[i].seqNo <= n
    {
      assert es[i] in es;
      EntriesOfOk(ix, es[i], n);
    }
    HighWaterBounds(es);
  }

  lemma CheckpointOk(es: seq<Entry>, n: nat, now: nat)
    requires LogOk(es) && HighWater(es) <= n
    ensures LogOk(WithCheckpoint(es, n, now)) && HighWater(WithCheckpoint(es, n, now)) == n
  {
    HighWaterBounds(es);
    if n > 0 && (|es| == 0 || es[|es| - 1].seqNo != n) {
      SortedSnoc(es, CheckpointEntry(n, now));
    }
  }

  lemma SameDurableMinusStale(a: Index, b: Index, c: Index, retention: nat, now: nat)
    requires SameDurable(a, b) && MinusStale(a, c, retention, now)
    ensures MinusStale(a, b, retention, now) && MinusStale(b, c, retention, now)
  {
    assert forall id | id in b.outbound :: Durable(a.outbound[id]) == Durable(b.outbound[id]);
  }

  /** Rewriting the file from the index keeps everything, and leaves file and index in exact agreement. */
  lemma RewriteInv(j: JournalState, now: nat, lines: nat, since: nat)
    requires Inv(j, now)
    ensures var es := CompactedFile(j.ix, j.nextSeq, now);
            && Inv(j.(file := es, torn := None, lines := lines, sinceCompact := since), now)
            && SameDurable(j.ix, Replay(es))
  {
    var es := CompactedFile(j.ix, j.nextSeq, now);
    IndexFacts(j, now);
    var n := SaturatingSub(j.nextSeq, 1);
    SnapshotOk(j.ix, n);
    CheckpointOk(Snapshot(j.ix), n, now);
    SnapshotReplaysToIndex(j.ix, n, now);
    SameDurableMinusStale(j.ix, Replay(es), Replay(j.durable), j.limits.retention, now);
  }

  lemma CountersInv(j: JournalState, now: nat, since: nat)
    requires Inv(j, now)
    ensures Inv(j.(sinceCompact := since), now)
  {
    hide LogOk, NotAfter, LegalHistory, MinusStale, LiveTotalsExact, QuotasHold, Legal;
  }

  lemma CompactInv(j: JournalState, now: nat, io: CompactIo)
    requires Inv(j, now)
    ensures Inv(Compact(j, now, io), now)
  {
    hide Inv, CompactedFile, Prune;
    if !j.closed {
      PruneInv(j, now);
      var pruned := j.(ix := Prune(j.ix, j.limits.retention, now));
      var es := CompactedFile(pruned.ix, j.nextSeq, now);
      CountersInv(pruned, now, 0);
      if io.RenamedUnsynced? {
        RewriteInv(pruned, now, j.lines, j.sinceCompact);
        assert pruned.(file := es, torn := None, lines := j.lines, sinceCompact := j.sinceCompact)
            == pruned.(file := es, torn := None);
      } else {
        RewriteInv(pruned, now, |es|, 0);
      }
    }
  }
}
