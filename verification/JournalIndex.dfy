/** The in-memory index as a fold of `Apply` over the journal file, and the live totals it carries. */
module JournalIndex {
  import opened Basics
  import opened PeerTypes
  import opened MapSums

  // ------------------------------------------------------------------ apply

  function QueuedRecord(e: Entry): Outbound
    requires e.peer.Some?
  {
    Outbound(e.seqNo, Queued, e.hash, e.payload, e.peer.value, e.addr,
             if e.queuedAt.Some? then e.queuedAt.value else e.ts, e.ts, None, 0, 0)
  }

  function OutboundTombstone(e: Entry): Outbound
    requires IsTerminal(e.state)
  {
    Outbound(e.seqNo, OutboundStateOf(e.state), e.hash, None,
             if e.peer.Some? then e.peer.value else [], None,
             if e.queuedAt.Some? then e.queuedAt.value else e.ts, e.ts, e.reason, 0, 0)
  }

  function Finished(r: Outbound, e: Entry): Outbound
    requires IsTerminal(e.state)
  {
    r.(state := OutboundStateOf(e.state), seqNo := e.seqNo, lastTs := e.ts, reason := e.reason, payload := None)
  }

  function ApplyOutbound(m: OutMap, e: Entry): OutMap {
    match e.state
    case QueuedLocal =>
      if e.peer.None? then m else m[e.id := QueuedRecord(e)]
    case Settled | Refused | Expired =>
      m[e.id := if e.id in m then Finished(m[e.id], e) else OutboundTombstone(e)]
    case AddressUpdated =>
      if e.id in m && m[e.id].state.Queued? && e.addr.Some? then m[e.id := m[e.id].(addr := e.addr)] else m
    case _ => m
  }

  function EntryKey(e: Entry): Key
    requires e.peer.Some?
  {
    Key(e.peer.value, e.id)
  }

  function ApplyInbound(m: InMap, e: Entry): InMap {
    if e.peer.None? then m else
    var k := EntryKey(e);
    match e.state
    case ReceivedPeer => m[k := Inbound(e.seqNo, e.hash, e.payload, e.ts, false)]
    case Consumed =>
      var r := if k in m then m[k] else Inbound(e.seqNo, e.hash, None, e.ts, true);
      m[k := r.(consumed := true, payload := None, ts := e.ts)]
    case _ => m
  }

  function SaturatingSub(a: nat, b: nat): nat {
    if a < b then 0 else a - b
  }

  function LiveSub(live: LiveMap, from: Endpoint, bytes: nat): LiveMap {
    if from !in live then live else
    var t := Totals(SaturatingSub(live[from].count, 1), SaturatingSub(live[from].bytes, bytes));
    if t.count == 0 then live - {from} else live[from := t]
  }

  function LiveAdd(live: LiveMap, from: Endpoint, bytes: nat): LiveMap {
    var t := if from in live then live[from] else Totals(0, 0);
    live[from := Totals(t.count + 1, t.bytes + bytes)]
  }

  predicate IsLive(m: InMap, k: Key) {
    k in m && !m[k].consumed
  }

  /** The totals once `k` no longer counts. */
  function Without(live: LiveMap, m: InMap, k: Key): LiveMap {
    if IsLive(m, k) then LiveSub(live, k.from, PayloadSize(m[k].payload)) else live
  }

  /** `m` is the inbound map before `e` is applied to it. */
  function ApplyLive(live: LiveMap, m: InMap, e: Entry): LiveMap {
    if e.peer.None? || !(e.state.ReceivedPeer? || e.state.Consumed?) then live else
    var k := EntryKey(e);
    var removed := Without(live, m, k);
    if e.state.ReceivedPeer? then LiveAdd(removed, k.from, PayloadSize(e.payload)) else removed
  }

  const EmptyIndex := Index(map[], map[], map[])

  function Apply(ix: Index, e: Entry): Index {
    Index(ApplyOutbound(ix.outbound, e), ApplyInbound(ix.inbound, e), ApplyLive(ix.live, ix.inbound, e))
  }

  function Replay(es: seq<Entry>): Index {
    if |es| == 0 then EmptyIndex else Apply(Replay(es[..|es| - 1]), es[|es| - 1])
  }

  lemma ReplaySnoc(es: seq<Entry>, e: Entry)
    ensures Replay(es + [e]) == Apply(Replay(es), e)
  {
    assert (es + [e])[..|es|] == es;
  }

  // ------------------------------------------------------------ live totals

  /** The payload sizes of a sender's unconsumed records: the slow definition of its live totals. */
  ghost function LiveSizes(m: InMap, from: Endpoint): map<Key, nat> {
    map k | k in m && k.from == from && !m[k].consumed :: PayloadSize(m[k].payload)
  }

  ghost predicate LiveTotalsOf(m: InMap, live: LiveMap, from: Endpoint) {
    var s := LiveSizes(m, from);
    if |s| == 0 then from !in live else from in live && live[from] == Totals(|s|, Sum(s))
  }

  ghost predicate LiveTotalsExact(ix: Index) {
    forall from: Endpoint :: LiveTotalsOf(ix.inbound, ix.live, from)
  }

  lemma LiveSizesFrame(m: InMap, m': InMap, from: Endpoint)
    requires forall k: Key | k.from == from :: IsLive(m, k) == IsLive(m', k)
    requires forall k: Key | k.from == from && IsLive(m, k) && IsLive(m', k) :: PayloadSize(m[k].payload) == PayloadSize(m'[k].payload)
    ensures LiveSizes(m, from) == LiveSizes(m', from)
  {
    forall k: Key
      ensures k in LiveSizes(m, from) <==> k in LiveSizes(m', from)
    {
      assert k in LiveSizes(m, from) <==> k.from == from && IsLive(m, k);
      assert k in LiveSizes(m', from) <==> k.from == from && IsLive(m', k);
    }
  }

  /** Subtracting a live record's size is exact: saturation never takes effect. */
  lemma LiveSubExact(m: InMap, live: LiveMap, k: Key, m': InMap)
    requires IsLive(m, k) && LiveTotalsOf(m, live, k.from)
    requires LiveSizes(m', k.from) == LiveSizes(m, k.from) - {k}
    ensures var live' := LiveSub(live, k.from, PayloadSize(m[k].payload));
            LiveTotalsOf(m', live', k.from)
            && k.from in live && live[k.from].count >= 1 && live[k.from].bytes >= PayloadSize(m[k].payload)
  {
    var s := LiveSizes(m, k.from);
    assert k in s;
    SumDelete(s, k);
    if |s| == 1 {
      assert s - {k} == map[];
    }
  }

  lemma LiveAddExact(m: InMap, live: LiveMap, k: Key, bytes: nat, m': InMap)
    requires LiveTotalsOf(m, live, k.from)
    requires k !in LiveSizes(m, k.from)
    requires LiveSizes(m', k.from) == LiveSizes(m, k.from)[k := bytes]
    ensures LiveTotalsOf(m', LiveAdd(live, k.from, bytes), k.from)
  {
    var s := LiveSizes(m, k.from);
    SumInsert(s, k, bytes);
    if |s| == 0 {
      assert s == map[];
    }
  }

  lemma WithoutExact(m: InMap, live: LiveMap, k: Key)
    requires LiveTotalsOf(m, live, k.from)
    ensures LiveTotalsOf(m - {k}, Without(live, m, k), k.from)
  {
    var gone := m - {k};
    if IsLive(m, k) {
      assert LiveSizes(gone, k.from) == LiveSizes(m, k.from) - {k};
      LiveSubExact(m, live, k, gone);
    } else {
      assert LiveSizes(gone, k.from) == LiveSizes(m, k.from);
    }
  }

  lemma InsertLiveExact(m: InMap, live: LiveMap, k: Key, r: Inbound)
    requires LiveTotalsOf(m, live, k.from) && k !in m && !r.consumed
    ensures LiveTotalsOf(m[k := r], LiveAdd(live, k.from, PayloadSize(r.payload)), k.from)
  {
    assert LiveSizes(m[k := r], k.from) == LiveSizes(m, k.from)[k := PayloadSize(r.payload)];
    LiveAddExact(m, live, k, PayloadSize(r.payload), m[k := r]);
  }

  lemma ReceiveLiveExact(m: InMap, live: LiveMap, k: Key, r: Inbound)
    requires LiveTotalsOf(m, live, k.from) && !r.consumed
    ensures LiveTotalsOf(m[k := r], LiveAdd(Without(live, m, k), k.from, PayloadSize(r.payload)), k.from)
  {
    var gone, rest := m - {k}, Without(live, m, k);
    assert gone[k := r] == m[k := r];
    assert LiveTotalsOf(gone, rest, k.from) by {
      WithoutExact(m, live, k);
    }
    InsertLiveExact(gone, rest, k, r);
  }

  lemma ConsumeLiveExact(m: InMap, live: LiveMap, k: Key, r: Inbound)
    requires LiveTotalsOf(m, live, k.from) && r.consumed
    ensures LiveTotalsOf(m[k := r], Without(live, m, k), k.from)
  {
    WithoutExact(m, live, k);
    LiveSizesFrame(m - {k}, m[k := r], k.from);
  }

  /** One entry keeps the totals of its own sender exact. */
  lemma ApplyLiveOwnSender(ix: Index, e: Entry)
    requires e.peer.Some? && LiveTotalsOf(ix.inbound, ix.live, e.peer.value)
    ensures LiveTotalsOf(ApplyInbound(ix.inbound, e), ApplyLive(ix.live, ix.inbound, e), e.peer.value)
  {
    var k, m := EntryKey(e), ix.inbound;
    if e.state.ReceivedPeer? {
      ReceiveLiveExact(m, ix.live, k, Inbound(e.seqNo, e.hash, e.payload, e.ts, false));
    } else if e.state.Consumed? {
      var r := if k in m then m[k] else Inbound(e.seqNo, e.hash, None, e.ts, true);
      ConsumeLiveExact(m, ix.live, k, r.(consumed := true, payload := None, ts := e.ts));
    }
  }

  /** And it does not touch those of any other. */
  lemma ApplyLiveOtherSender(ix: Index, e: Entry, from: Endpoint)
    requires e.peer != Some(from) && LiveTotalsOf(ix.inbound, ix.live, from)
    ensures LiveTotalsOf(ApplyInbound(ix.inbound, e), ApplyLive(ix.live, ix.inbound, e), from)
  {
    hide LiveSizes;
    LiveSizesFrame(ix.inbound, ApplyInbound(ix.inbound, e), from);
  }

  /** Applying any entry at all keeps every sender's running totals equal to the sums over its unconsumed records. */
  lemma ApplyKeepsLiveTotals(ix: Index, e: Entry)
    requires LiveTotalsExact(ix)
    ensures LiveTotalsExact(Apply(ix, e))
  {
    hide LiveTotalsOf, ApplyInbound, ApplyLive;
    forall from: Endpoint
      ensures LiveTotalsOf(Apply(ix, e).inbound, Apply(ix, e).live, from)
    {
      assert LiveTotalsOf(ix.inbound, ix.live, from);
      if e.peer == Some(from) {
        ApplyLiveOwnSender(ix, e);
      } else {
        ApplyLiveOtherSender(ix, e, from);
      }
    }
  }

  /** The totals a replay rebuilds are exact whatever the file holds. */
  lemma {:induction false} ReplayLiveTotalsExact(es: seq<Entry>)
    ensures LiveTotalsExact(Replay(es))
  {
    if |es| == 0 {
      forall from: Endpoint
        ensures LiveTotalsOf(EmptyIndex.inbound, EmptyIndex.live, from)
      {
        assert LiveSizes(EmptyIndex.inbound, from) == map[];
      }
    } else {
      ReplayLiveTotalsExact(es[..|es| - 1]);
      ApplyKeepsLiveTotals(Replay(es[..|es| - 1]), es[|es| - 1]);
    }
  }
}
