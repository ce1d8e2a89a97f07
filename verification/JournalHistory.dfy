/**
  What the journal's full history may look like, and how an index relates to it.

  A journal that never compacted would hold every record ever made durable. `Legal` says which record may
  follow which in such a history, and `MinusStale` says that an index is the replay of one history with
  nothing missing but tombstones older than the retention time.
 */
module JournalHistory {
  import opened Basics
  import opened PeerTypes
  import opened JournalIndex

  // ---------------------------------------------------- records and entries

  /** The part of an outbound record a replay can rebuild: retry bookkeeping is not durable, and
      the address of a terminal record is not kept by its tombstone. */
  function Durable(r: Outbound): Outbound {
    r.(attempts := 0, nextAttempt := 0, addr := if r.state.Queued? then r.addr else None)
  }

  predicate OutboundOk(r: Outbound) {
    if r.state.Queued?
    then r.payload.Some? && r.hash == PayloadHash(r.payload.value) && r.addr.Some? && r.reason.None?
    else r.payload.None?
  }

  predicate InboundOk(r: Inbound) {
    if r.consumed then r.payload.None? else r.payload.Some? && r.hash == PayloadHash(r.payload.value)
  }

  ghost predicate IndexOk(ix: Index) {
    && (forall id | id in ix.outbound :: OutboundOk(ix.outbound[id]))
    && (forall k | k in ix.inbound :: InboundOk(ix.inbound[k]))
  }

  predicate EntryOk(e: Entry) {
    match e.state
    case QueuedLocal =>
      && e.payload.Some? && e.hash == PayloadHash(e.payload.value)
      && e.peer.Some? && e.addr.Some? && e.queuedAt.Some? && e.reason.None?
    case Settled | Refused | Expired =>
      e.peer.Some? && e.queuedAt.Some? && e.payload.None?
    case AddressUpdated => e.addr.Some?
    case ReceivedPeer => e.payload.Some? && e.hash == PayloadHash(e.payload.value) && e.peer.Some?
    case Consumed => e.peer.Some? && e.payload.None?
    case DuplicateSuppressed => e.peer.Some?
    case Checkpoint => true
  }

  ghost predicate EntriesOk(es: seq<Entry>) {
    forall i | 0 <= i < |es| :: EntryOk(es[i])
  }

  lemma {:induction false} ReplayIndexOk(es: seq<Entry>)
    requires EntriesOk(es)
    ensures IndexOk(Replay(es))
  {
    if |es| > 0 {
      ReplayIndexOk(es[..|es| - 1]);
      assert EntryOk(es[|es| - 1]);
    }
  }

  // ------------------------------------------------- sequence numbers, time

  ghost predicate SeqSorted(es: seq<Entry>) {
    forall i, j | 0 <= i < j < |es| :: es[i].seqNo < es[j].seqNo
  }

  function Max(a: nat, b: nat): nat {
    if a < b then b else a
  }

  function HighWater(es: seq<Entry>): nat {
    if |es| == 0 then 0 else Max(HighWater(es[..|es| - 1]), es[|es| - 1].seqNo)
  }

  lemma {:induction false} HighWaterBounds(es: seq<Entry>)
    ensures forall i | 0 <= i < |es| :: es[i].seqNo <= HighWater(es)
    ensures SeqSorted(es) && |es| > 0 ==> HighWater(es) == es[|es| - 1].seqNo
  {
    if |es| > 0 {
      var front := es[..|es| - 1];
      HighWaterBounds(front);
      forall i | 0 <= i < |es|
        ensures es[i].seqNo <= HighWater(es)
      {
        assert i < |front| ==> es[i] == front[i];
      }
      if SeqSorted(es) && |front| > 0 {
        assert front[|front| - 1] == es[|es| - 2];
      }
    }
  }

  lemma HighWaterSnoc(es: seq<Entry>, e: Entry)
    ensures HighWater(es + [e]) == Max(HighWater(es), e.seqNo)
  {
    assert (es + [e])[..|es|] == es;
  }

  lemma SortedSnoc(es: seq<Entry>, e: Entry)
    requires SeqSorted(es) && HighWater(es) < e.seqNo
    ensures SeqSorted(es + [e]) && HighWater(es + [e]) == e.seqNo
  {
    HighWaterBounds(es);
    HighWaterSnoc(es, e);
  }

  ghost predicate SeqAtMost(ix: Index, n: nat) {
    && (forall id | id in ix.outbound :: 0 < ix.outbound[id].seqNo <= n)
    && (forall k | k in ix.inbound :: 0 < ix.inbound[k].seqNo <= n)
  }

  /** No two records of the index carry the same sequence number. */
  ghost predicate SeqDistinct(ix: Index) {
    && (forall a, b | a in ix.outbound && b in ix.outbound && a != b :: ix.outbound[a].seqNo != ix.outbound[b].seqNo)
    && (forall a, b | a in ix.inbound && b in ix.inbound && a != b :: ix.inbound[a].seqNo != ix.inbound[b].seqNo)
    && (forall a, b | a in ix.outbound && b in ix.inbound :: ix.outbound[a].seqNo != ix.inbound[b].seqNo)
  }

  predicate TouchesOutbound(e: Entry) {
    e.state.QueuedLocal? || IsTerminal(e.state) || e.state.AddressUpdated?
  }

  lemma ApplyOutboundSeq(m: OutMap, e: Entry)
    ensures forall id | id in ApplyOutbound(m, e) ::
              if id in m && ApplyOutbound(m, e)[id].seqNo == m[id].seqNo then true
              else id == e.id && TouchesOutbound(e) && ApplyOutbound(m, e)[id].seqNo == e.seqNo
  {
  }

  lemma ApplyInboundSeq(m: InMap, e: Entry)
    ensures forall k | k in ApplyInbound(m, e) ::
              if k in m && ApplyInbound(m, e)[k].seqNo == m[k].seqNo then true
              else e.peer.Some? && k == EntryKey(e) && !TouchesOutbound(e) && ApplyInbound(m, e)[k].seqNo == e.seqNo
  {
  }

  lemma ApplySeqDistinct(ix: Index, e: Entry, n: nat)
    requires SeqDistinct(ix) && SeqAtMost(ix, n) && n < e.seqNo
    ensures SeqDistinct(Apply(ix, e)) && SeqAtMost(Apply(ix, e), e.seqNo)
  {
    var out, inb := ApplyOutbound(ix.outbound, e), ApplyInbound(ix.inbound, e);
    ApplyOutboundSeq(ix.outbound, e);
    ApplyInboundSeq(ix.inbound, e);
    assert Apply(ix, e).outbound == out && Apply(ix, e).inbound == inb;
  }

  lemma {:induction false} ReplaySeqDistinct(es: seq<Entry>)
    requires SeqSorted(es)
    requires |es| > 0 ==> es[0].seqNo > 0
    ensures SeqDistinct(Replay(es)) && SeqAtMost(Replay(es), HighWater(es))
  {
    if |es| > 0 {
      var front := es[..|es| - 1];
      ReplaySeqDistinct(front);
      HighWaterBounds(front);
      assert |front| > 0 ==> front[|front| - 1] == es[|es| - 2];
      ApplySeqDistinct(Replay(front), es[|es| - 1], HighWater(front));
    }
  }

  predicate EntryNotAfter(e: Entry, now: nat) {
    e.ts <= now && (e.queuedAt.Some? ==> e.queuedAt.value <= now)
  }

  ghost predicate NotAfter(es: seq<Entry>, now: nat) {
    forall i | 0 <= i < |es| :: EntryNotAfter(es[i], now)
  }

  ghost predicate TsAtMost(es: seq<Entry>, t: nat) {
    forall i | 0 <= i < |es| :: es[i].ts <= t
  }

  ghost predicate TsSorted(es: seq<Entry>) {
    forall i, j | 0 <= i < j < |es| :: es[i].ts <= es[j].ts
  }

  ghost predicate IndexNotAfter(ix: Index, now: nat) {
    && (forall id | id in ix.outbound :: ix.outbound[id].lastTs <= now && ix.outbound[id].queuedAt <= now)
    && (forall k | k in ix.inbound :: ix.inbound[k].ts <= now)
  }

  lemma {:induction false} ReplayNotAfter(es: seq<Entry>, now: nat)
    requires NotAfter(es, now)
    ensures IndexNotAfter(Replay(es), now)
  {
    if |es| > 0 {
      ReplayNotAfter(es[..|es| - 1], now);
      assert EntryNotAfter(es[|es| - 1], now);
    }
  }

  // ---------------------------------------------------- stale tombstones

  predicate StaleOutbound(r: Outbound, retention: nat, now: nat) {
    !r.state.Queued? && r.lastTs + retention <= now
  }

  predicate StaleInbound(r: Inbound, retention: nat, now: nat) {
    r.consumed && r.ts + retention <= now
  }

  ghost predicate OutMinusStale(a: OutMap, b: OutMap, retention: nat, now: nat) {
    && (forall id | id in a :: id in b && Durable(a[id]) == Durable(b[id]))
    && (forall id | id in b && id !in a :: StaleOutbound(b[id], retention, now))
  }

  ghost predicate InMinusStale(a: InMap, b: InMap, retention: nat, now: nat) {
    && (forall k | k in a :: k in b && a[k] == b[k])
    && (forall k | k in b && k !in a :: StaleInbound(b[k], retention, now))
  }

  /** `a` is `b` without some tombstones that are stale at `now`. */
  ghost predicate MinusStale(a: Index, b: Index, retention: nat, now: nat) {
    OutMinusStale(a.outbound, b.outbound, retention, now) && InMinusStale(a.inbound, b.inbound, retention, now)
  }

  lemma MinusStaleTransitive(a: Index, b: Index, c: Index, retention: nat, now: nat)
    requires MinusStale(a, b, retention, now) && MinusStale(b, c, retention, now)
    ensures MinusStale(a, c, retention, now)
  {
    forall id | id in c.outbound && id !in a.outbound
      ensures StaleOutbound(c.outbound[id], retention, now)
    {
      assert id in b.outbound ==> Durable(b.outbound[id]) == Durable(c.outbound[id]);
    }
  }

  lemma MinusStaleLater(a: Index, b: Index, retention: nat, now: nat, later: nat)
    requires MinusStale(a, b, retention, now) && now <= later
    ensures MinusStale(a, b, retention, later)
  {
  }

  // --------------------------------------------------------- legal histories

  /** Which record may follow a history whose replay is `ix`. */
  ghost predicate Legal(ix: Index, e: Entry, retention: nat) {
    match e.state
    case QueuedLocal =>
      e.id in ix.outbound ==> StaleOutbound(ix.outbound[e.id], retention, e.ts)
    case Settled | Refused | Expired =>
      && e.id in ix.outbound && ix.outbound[e.id].state.Queued?
      && e.hash == ix.outbound[e.id].hash
      && e.peer == Some(ix.outbound[e.id].peer)
      && e.queuedAt == Some(ix.outbound[e.id].queuedAt)
    case AddressUpdated => e.id in ix.outbound && ix.outbound[e.id].state.Queued?
    case ReceivedPeer =>
      e.peer.Some? && (EntryKey(e) in ix.inbound ==> StaleInbound(ix.inbound[EntryKey(e)], retention, e.ts))
    case Consumed => e.peer.Some? && IsLive(ix.inbound, EntryKey(e)) && e.hash == ix.inbound[EntryKey(e)].hash
    case DuplicateSuppressed => e.peer.Some? && EntryKey(e) in ix.inbound && e.hash == ix.inbound[EntryKey(e)].hash
    case Checkpoint => false
  }

  ghost predicate LegalHistory(es: seq<Entry>, retention: nat) {
    forall i | 0 <= i < |es| :: Legal(Replay(es[..i]), es[i], retention)
  }

  lemma LegalHistorySnoc(es: seq<Entry>, e: Entry, retention: nat)
    requires LegalHistory(es, retention) && Legal(Replay(es), e, retention)
    ensures LegalHistory(es + [e], retention)
  {
    var es' := es + [e];
    forall i | 0 <= i < |es'|
      ensures Legal(Replay(es'[..i]), es'[i], retention)
    {
      if i < |es| {
        assert es'[..i] == es[..i];
      } else {
        assert es'[..i] == es;
      }
    }
  }

  /** A legal record has the same effect on an index that lacks stale tombstones as on the full replay. */
  lemma ApplyMinusStale(a: Index, b: Index, e: Entry, retention: nat, now: nat)
    requires MinusStale(a, b, retention, now)
    requires e.state.DuplicateSuppressed? || Legal(b, e, retention)
    ensures MinusStale(Apply(a, e), Apply(b, e), retention, now)
  {
    if !e.state.DuplicateSuppressed? {
      ApplyOutMinusStale(a.outbound, b, e, retention, now);
      ApplyInMinusStale(a.inbound, b, e, retention, now);
    }
  }

  lemma ApplyOutMinusStale(a: OutMap, b: Index, e: Entry, retention: nat, now: nat)
    requires OutMinusStale(a, b.outbound, retention, now) && Legal(b, e, retention)
    ensures OutMinusStale(ApplyOutbound(a, e), ApplyOutbound(b.outbound, e), retention, now)
  {
    if IsTerminal(e.state) || e.state.AddressUpdated? {
      assert e.id in a;
      assert Durable(a[e.id]) == Durable(b.outbound[e.id]);
    }
  }

  lemma ApplyInMinusStale(a: InMap, b: Index, e: Entry, retention: nat, now: nat)
    requires InMinusStale(a, b.inbound, retention, now) && Legal(b, e, retention)
    ensures InMinusStale(ApplyInbound(a, e), ApplyInbound(b.inbound, e), retention, now)
  {
  }

  // --------------------------------------------- what a legal history promises

  ghost predicate Receives(e: Entry, k: Key) {
    e.state.ReceivedPeer? && e.peer == Some(k.from) && e.id == k.id
  }

  ghost predicate Consumes(e: Entry, k: Key) {
    e.state.Consumed? && e.peer == Some(k.from) && e.id == k.id
  }

  lemma InboundEffect(m: InMap, e: Entry, k: Key)
    ensures var m' := ApplyInbound(m, e);
            if Receives(e, k) then k in m' && m'[k] == Inbound(e.seqNo, e.hash, e.payload, e.ts, false)
            else if Consumes(e, k) then
              k in m' && (k in m ==> m'[k] == m[k].(consumed := true, payload := None, ts := e.ts))
            else (k in m' <==> k in m) && (k in m ==> m'[k] == m[k])
  {
  }

  /** Where a key's inbound record `r` comes from: its last acceptance, and its consumption if it was consumed. */
  ghost predicate InboundTrace(es: seq<Entry>, k: Key, r: Inbound, p: nat, c: nat) {
    && p < |es| && Receives(es[p], k)
    && (forall i | p < i < |es| :: !Receives(es[i], k))
    && r.hash == es[p].hash && r.seqNo == es[p].seqNo
    && (r.consumed ==> p < c < |es| && Consumes(es[c], k) && es[c].ts == r.ts)
    && (!r.consumed ==> r.payload == es[p].payload && r.ts == es[p].ts)
  }

  lemma InboundTraceSnoc(es: seq<Entry>, e: Entry, k: Key, r: Inbound, p: nat, c: nat)
    requires InboundTrace(es, k, r, p, c) && !Receives(e, k)
    ensures InboundTrace(es + [e], k, r, p, c)
    ensures Consumes(e, k) ==> InboundTrace(es + [e], k, r.(consumed := true, payload := None, ts := e.ts), p, |es|)
  {
  }

  lemma {:induction false} TraceInbound(es: seq<Entry>, k: Key, retention: nat) returns (p: nat, c: nat)
    requires LegalHistory(es, retention) && k in Replay(es).inbound
    ensures k in Replay(es).inbound && InboundTrace(es, k, Replay(es).inbound[k], p, c)
  {
    var n := |es| - 1;
    var front, e := es[..n], es[n];
    assert front + [e] == es;
    InboundEffect(Replay(front).inbound, e, k);
    if Receives(e, k) {
      p, c := n, n;
    } else {
      assert Consumes(e, k) ==> k in Replay(front).inbound by {
        assert Legal(Replay(front), e, retention);
      }
      LegalHistoryPrefix(es, n, retention);
      p, c := TraceInbound(front, k, retention);
      InboundTraceSnoc(front, e, k, Replay(front).inbound[k], p, c);
      c := if Consumes(e, k) then n else c;
    }
  }

  lemma LegalHistoryPrefix(es: seq<Entry>, n: nat, retention: nat)
    requires LegalHistory(es, retention) && n <= |es|
    ensures LegalHistory(es[..n], retention)
  {
    forall i | 0 <= i < n
      ensures Legal(Replay(es[..n][..i]), es[..n][i], retention)
    {
      assert es[..n][..i] == es[..i];
    }
  }

  lemma {:induction false} ReceivedStays(es: seq<Entry>, k: Key, i: nat, retention: nat)
    requires LegalHistory(es, retention) && i < |es| && Receives(es[i], k)
    ensures k in Replay(es).inbound
  {
    var n := |es| - 1;
    InboundEffect(Replay(es[..n]).inbound, es[n], k);
    if i < n {
      LegalHistoryPrefix(es, n, retention);
      ReceivedStays(es[..n], k, i, retention);
    }
  }

  /** Between two acceptances of one key, the key was consumed, and the second acceptance is at least
      the retention time after that consumption. */
  lemma AcceptancesAreSpaced(es: seq<Entry>, k: Key, i: nat, j: nat, retention: nat) returns (c: nat)
    requires LegalHistory(es, retention)
    requires i < j < |es| && Receives(es[i], k) && Receives(es[j], k)
    ensures i < c < j && Consumes(es[c], k) && es[c].ts + retention <= es[j].ts
  {
    var before := es[..j];
    LegalHistoryPrefix(es, j, retention);
    ReceivedStays(before, k, i, retention);
    assert Legal(Replay(before), es[j], retention);
    var p;
    p, c := TraceInbound(before, k, retention);
    assert i <= p;
  }

  ghost predicate Enqueues(e: Entry, id: MessageId) {
    e.state.QueuedLocal? && e.id == id && e.peer.Some?
  }

  ghost predicate Finishes(e: Entry, id: MessageId) {
    IsTerminal(e.state) && e.id == id
  }

  lemma OutboundEffect(m: OutMap, e: Entry, id: MessageId)
    ensures var m' := ApplyOutbound(m, e);
            if Enqueues(e, id) then id in m' && m'[id] == QueuedRecord(e)
            else if Finishes(e, id) then id in m' && (id in m ==> m'[id] == Finished(m[id], e))
            else (id in m' <==> id in m) && (id in m ==> m'[id].(addr := None) == m[id].(addr := None))
  {
  }

  /** Where an outbound record `r` comes from: its enqueue at `q`, and at most one terminal record, at `t`. */
  ghost predicate OutboundTrace(es: seq<Entry>, id: MessageId, r: Outbound, q: nat, t: nat) {
    && q < |es| && Enqueues(es[q], id)
    && (forall i | q < i < |es| :: !Enqueues(es[i], id))
    && r.hash == es[q].hash && r.peer == es[q].peer.value && r.queuedAt == QueuedRecord(es[q]).queuedAt
    && if r.state.Queued? then forall i | q < i < |es| :: !Finishes(es[i], id)
       else
         && q < t < |es| && Finishes(es[t], id) && (forall i | q < i < |es| && i != t :: !Finishes(es[i], id))
         && r.state == OutboundStateOf(es[t].state) && r.lastTs == es[t].ts
  }

  lemma OutboundTraceSnoc(es: seq<Entry>, e: Entry, id: MessageId, r: Outbound, q: nat, t: nat)
    requires OutboundTrace(es, id, r, q, t) && !Enqueues(e, id)
    ensures !Finishes(e, id) ==> forall a :: OutboundTrace(es + [e], id, r.(addr := a), q, t)
    ensures Finishes(e, id) && r.state.Queued? ==> OutboundTrace(es + [e], id, Finished(r, e), q, |es|)
  {
  }

  /** An outbound id keeps its hash, peer and enqueue time, and leaves Queued for one terminal state only once. */
  lemma {:induction false} TraceOutbound(es: seq<Entry>, id: MessageId, retention: nat) returns (q: nat, t: nat)
    requires LegalHistory(es, retention) && id in Replay(es).outbound
    ensures id in Replay(es).outbound && OutboundTrace(es, id, Replay(es).outbound[id], q, t)
  {
    var n := |es| - 1;
    var front, e := es[..n], es[n];
    assert front + [e] == es;
    OutboundEffect(Replay(front).outbound, e, id);
    if Enqueues(e, id) {
      q, t := n, n;
    } else {
      var m := Replay(front).outbound;
      assert Finishes(e, id) ==> id in m && m[id].state.Queued? by {
        assert Legal(Replay(front), e, retention);
      }
      LegalHistoryPrefix(es, n, retention);
      q, t := TraceOutbound(front, id, retention);
      OutboundTraceSnoc(front, e, id, m[id], q, t);
      var r' := Replay(es).outbound[id];
      assert !Finishes(e, id) ==> m[id].(addr := r'.addr) == r';
      t := if Finishes(e, id) then n else t;
    }
  }

  lemma {:induction false} EnqueuedStays(es: seq<Entry>, id: MessageId, i: nat, retention: nat)
    requires LegalHistory(es, retention) && i < |es| && Enqueues(es[i], id)
    ensures id in Replay(es).outbound
  {
    var n := |es| - 1;
    OutboundEffect(Replay(es[..n]).outbound, es[n], id);
    if i < n {
      LegalHistoryPrefix(es, n, retention);
      EnqueuedStays(es[..n], id, i, retention);
    }
  }

  /** An id is enqueued again only after exactly one terminal record, and the retention time after it. */
  lemma EnqueuesAreSpaced(es: seq<Entry>, id: MessageId, i: nat, j: nat, retention: nat) returns (t: nat)
    requires LegalHistory(es, retention)
    requires i < j < |es| && Enqueues(es[i], id) && Enqueues(es[j], id)
    ensures i < t < j && Finishes(es[t], id) && es[t].ts + retention <= es[j].ts
  {
    var before := es[..j];
    LegalHistoryPrefix(es, j, retention);
    EnqueuedStays(before, id, i, retention);
    assert Legal(Replay(before), es[j], retention);
    var q;
    q, t := TraceOutbound(before, id, retention);
    assert i <= q;
  }
}
