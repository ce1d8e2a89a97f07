/** The snapshot compaction writes: one record per index entry, in sequence order, and its replay. */
module JournalSnapshot {
  import opened Basics
  import opened PeerTypes
  import opened JournalIndex
  import opened JournalHistory

  function OutboundEntry(id: MessageId, r: Outbound): Entry {
    Entry(r.seqNo, DeliveryStateOf(r.state), id, r.hash, r.payload, Some(r.peer), r.addr, Some(r.queuedAt), r.reason, r.lastTs)
  }

  function InboundEntry(k: Key, r: Inbound): Entry {
    Entry(r.seqNo, if r.consumed then Consumed else ReceivedPeer, k.id, r.hash, r.payload, Some(k.from), None, None, None, r.ts)
  }

  function CheckpointEntry(seqNo: nat, now: nat): Entry {
    Entry(seqNo, Checkpoint, [], NoDigest, None, None, None, None, None, now)
  }

  ghost function EntriesOf(ix: Index): set<Entry> {
    (set id | id in ix.outbound :: OutboundEntry(id, ix.outbound[id]))
    + (set k | k in ix.inbound :: InboundEntry(k, ix.inbound[k]))
  }

  // -------------------------------------------------------- sorting by seqNo

  lemma {:induction false} LeastExists(s: set<Entry>)
    requires s != {}
    ensures exists e :: e in s && forall x | x in s :: e.seqNo <= x.seqNo
  {
    var e :| e in s;
    if s != {e} {
      LeastExists(s - {e});
      var f :| f in s - {e} && forall x | x in s - {e} :: f.seqNo <= x.seqNo;
      var least := if f.seqNo < e.seqNo then f else e;
      assert forall x | x in s :: least.seqNo <= x.seqNo;
    }
  }

  ghost function Least(s: set<Entry>): (e: Entry)
    requires s != {}
    ensures e in s && forall x | x in s :: e.seqNo <= x.seqNo
  {
    LeastExists(s);
    var e :| e in s && forall x | x in s :: e.seqNo <= x.seqNo;
    e
  }

  ghost function Sorted(s: set<Entry>): seq<Entry> {
    if s == {} then [] else [Least(s)] + Sorted(s - {Least(s)})
  }

  ghost predicate DistinctSeqNos(s: set<Entry>) {
    forall x, y | x in s && y in s && x.seqNo == y.seqNo :: x == y
  }

  lemma {:induction false} SortedElements(s: set<Entry>)
    ensures forall e :: e in Sorted(s) <==> e in s
    ensures |Sorted(s)| == |s|
  {
    if s != {} {
      var e := Least(s);
      SortedElements(s - {e});
      assert forall x :: x in Sorted(s) <==> x == e || x in Sorted(s - {e});
    }
  }

  lemma {:induction false} SortedBySeqNo(s: set<Entry>)
    requires DistinctSeqNos(s)
    ensures SeqSorted(Sorted(s))
  {
    if s != {} {
      var e := Least(s);
      var rest := Sorted(s - {e});
      SortedBySeqNo(s - {e});
      forall i | 0 <= i < |rest|
        ensures e.seqNo < rest[i].seqNo
      {
        SortedElements(s - {e});
        assert rest[i] in s - {e};
      }
    }
  }

  /** A sequence sorted by distinct sequence numbers is determined by its elements. */
  lemma {:induction false} SortedUnique(s: set<Entry>, es: seq<Entry>)
    requires SeqSorted(es) && forall e :: e in es <==> e in s
    ensures es == Sorted(s)
  {
    if es == [] {
      assert s == {} by {
        assert forall e | e in s :: e in es;
      }
    } else {
      assert es[0] in s;
      var e, rest := Least(s), es[1..];
      assert e in es && es[0] == e && es == [e] + rest;
      assert forall i | 0 <= i < |rest| :: rest[i] == es[i + 1];
      assert forall x :: x in rest <==> x in s - {e};
      SortedUnique(s - {e}, rest);
    }
  }

  // ------------------------------------------------------------ the snapshot

  ghost function Snapshot(ix: Index): seq<Entry> {
    Sorted(EntriesOf(ix))
  }

  /** The last sequence number ever used is written down even when no record carries it any more. */
  function WithCheckpoint(es: seq<Entry>, highWater: nat, now: nat): seq<Entry> {
    if highWater > 0 && (|es| == 0 || es[|es| - 1].seqNo != highWater)
    then es + [CheckpointEntry(highWater, now)] else es
  }

  lemma EntriesDistinct(ix: Index)
    requires SeqDistinct(ix)
    ensures DistinctSeqNos(EntriesOf(ix))
  {
  }

  lemma EntriesOfOk(ix: Index, e: Entry, n: nat)
    requires IndexOk(ix) && SeqAtMost(ix, n) && e in EntriesOf(ix)
    ensures EntryOk(e) && 0 < e.seqNo <= n
  {
  }

  // -------------------------------------------------- replaying the snapshot

  ghost predicate RestoredOut(m: OutMap, es: seq<Entry>, r: OutMap) {
    && (forall id :: id in r <==> id in m && OutboundEntry(id, m[id]) in es)
    && (forall id | id in r :: Durable(r[id]) == Durable(m[id]))
  }

  ghost predicate RestoredIn(m: InMap, es: seq<Entry>, r: InMap) {
    && (forall k :: k in r <==> k in m && InboundEntry(k, m[k]) in es)
    && (forall k | k in r :: r[k] == m[k])
  }

  lemma InSnoc(es: seq<Entry>, e: Entry)
    ensures forall x :: x in es + [e] <==> x in es || x == e
  {
  }

  lemma RestoreOutStep(m: OutMap, es: seq<Entry>, e: Entry, r: OutMap, id: MessageId)
    requires RestoredOut(m, es, r) && e !in es
    requires id in m && OutboundOk(m[id]) && e == OutboundEntry(id, m[id])
    ensures RestoredOut(m, es + [e], ApplyOutbound(r, e))
  {
    InSnoc(es, e);
    assert id !in r;
    var x := ApplyOutbound(r, e)[id];
    assert ApplyOutbound(r, e) == r[id := x] && Durable(x) == Durable(m[id]);
    forall id' | id' in m && id' != id
      ensures OutboundEntry(id', m[id']) != e
    {
    }
  }

  lemma RestoreInStep(m: InMap, es: seq<Entry>, e: Entry, r: InMap, k: Key)
    requires RestoredIn(m, es, r) && e !in es
    requires k in m && InboundOk(m[k]) && e == InboundEntry(k, m[k])
    ensures RestoredIn(m, es + [e], ApplyInbound(r, e))
  {
    InSnoc(es, e);
    assert k !in r;
  }

  lemma RestoreOtherOut(m: OutMap, es: seq<Entry>, e: Entry, r: OutMap)
    requires RestoredOut(m, es, r) && !TouchesOutbound(e)
    ensures RestoredOut(m, es + [e], ApplyOutbound(r, e))
  {
    InSnoc(es, e);
    assert forall id | id in m :: OutboundEntry(id, m[id]) != e;
  }

  lemma RestoreOtherIn(m: InMap, es: seq<Entry>, e: Entry, r: InMap)
    requires RestoredIn(m, es, r) && !(e.state.ReceivedPeer? || e.state.Consumed?)
    ensures RestoredIn(m, es + [e], ApplyInbound(r, e))
  {
    InSnoc(es, e);
    assert forall k | k in m :: InboundEntry(k, m[k]) != e;
  }

  lemma RestoreStep(ix: Index, es: seq<Entry>, e: Entry)
    requires IndexOk(ix) && e in EntriesOf(ix) && e !in es
    requires RestoredOut(ix.outbound, es, Replay(es).outbound) && RestoredIn(ix.inbound, es, Replay(es).inbound)
    ensures var r := Apply(Replay(es), e);
            RestoredOut(ix.outbound, es + [e], r.outbound) && RestoredIn(ix.inbound, es + [e], r.inbound)
  {
    hide RestoredOut, RestoredIn, ApplyOutbound, ApplyInbound, ApplyLive, Replay;
    var r := Replay(es);
    if id :| id in ix.outbound && e == OutboundEntry(id, ix.outbound[id]) {
      RestoreOutStep(ix.outbound, es, e, r.outbound, id);
      RestoreOtherIn(ix.inbound, es, e, r.inbound);
    } else {
      var k :| k in ix.inbound && e == InboundEntry(k, ix.inbound[k]);
      RestoreInStep(ix.inbound, es, e, r.inbound, k);
      RestoreOtherOut(ix.outbound, es, e, r.outbound);
    }
  }

  lemma {:induction false} ReplayRestores(ix: Index, es: seq<Entry>)
    requires IndexOk(ix) && SeqSorted(es) && forall e | e in es :: e in EntriesOf(ix)
    ensures RestoredOut(ix.outbound, es, Replay(es).outbound) && RestoredIn(ix.inbound, es, Replay(es).inbound)
  {
    if |es| > 0 {
      hide RestoredOut, RestoredIn, Apply, EntriesOf, IndexOk;
      var front, e := es[..|es| - 1], es[|es| - 1];
      ReplayRestores(ix, front);
      assert front + [e] == es;
      assert e !in front;
      RestoreStep(ix, front, e);
    }
  }

  /** Two indexes with the same keys that differ in nothing a replay can see. */
  ghost predicate SameDurable(a: Index, b: Index) {
    && a.outbound.Keys == b.outbound.Keys
    && (forall id | id in a.outbound :: Durable(a.outbound[id]) == Durable(b.outbound[id]))
    && a.inbound == b.inbound
  }

  lemma RestoredAll(ix: Index, es: seq<Entry>, r: Index)
    requires RestoredOut(ix.outbound, es, r.outbound) && RestoredIn(ix.inbound, es, r.inbound)
    requires forall id | id in ix.outbound :: OutboundEntry(id, ix.outbound[id]) in es
    requires forall k | k in ix.inbound :: InboundEntry(k, ix.inbound[k]) in es
    ensures SameDurable(ix, r)
  {
    assert forall k | k in ix.inbound :: InboundEntry(k, ix.inbound[k]) in es && k in r.inbound;
    assert forall id | id in ix.outbound :: OutboundEntry(id, ix.outbound[id]) in es && id in r.outbound;
  }

  lemma SnapshotElements(ix: Index)
    requires SeqDistinct(ix)
    ensures SeqSorted(Snapshot(ix)) && |Snapshot(ix)| == |EntriesOf(ix)|
    ensures forall e :: e in Snapshot(ix) <==> e in EntriesOf(ix)
  {
    EntriesDistinct(ix);
    SortedBySeqNo(EntriesOf(ix));
    SortedElements(EntriesOf(ix));
  }

  lemma SnapshotRestores(ix: Index)
    requires IndexOk(ix) && SeqDistinct(ix)
    ensures SameDurable(ix, Replay(Snapshot(ix)))
  {
    var es := Snapshot(ix);
    SnapshotElements(ix);
    forall id | id in ix.outbound
      ensures OutboundEntry(id, ix.outbound[id]) in es
    {
      assert OutboundEntry(id, ix.outbound[id]) in EntriesOf(ix);
    }
    forall k | k in ix.inbound
      ensures InboundEntry(k, ix.inbound[k]) in es
    {
      assert InboundEntry(k, ix.inbound[k]) in EntriesOf(ix);
    }
    ReplayRestores(ix, es);
    RestoredAll(ix, es, Replay(es));
  }

  /** Compaction preserves meaning: replaying the rewritten file rebuilds the index it was written from. */
  lemma SnapshotReplaysToIndex(ix: Index, highWater: nat, now: nat)
    requires IndexOk(ix) && SeqDistinct(ix)
    ensures SameDurable(ix, Replay(WithCheckpoint(Snapshot(ix), highWater, now)))
  {
    hide Snapshot, Replay, SameDurable;
    SnapshotRestores(ix);
    ReplaySnoc(Snapshot(ix), CheckpointEntry(highWater, now));
  }
}
