/**
  Settlement cannot be trusted when an attempt may outlive the sender's tombstone.

  A message is sent twice, and both attempts reach the receiver: one is answered as accepted, the other as a duplicate.
  The first receipt settles the message, and its tombstone is dropped while the second attempt still waits. The id is
  queued again with another payload; the second receipt then settles the new message, which nobody has received. Each
  attempt is settled by the answer to its own packet, and every packet is handled once.
 */
module DeliveryCounterexample {
  import opened Basics
  import opened PeerTypes
  import opened MapSums
  import opened JournalIndex
  import opened JournalHistory
  import opened JournalSpec
  import opened JournalRuns
  import opened JournalInvariant
  import opened WireSizes
  import opened Delivery
  import opened DeliveryRuns

  const Alice: Endpoint := [1]
  const Bob: Endpoint := [2]
  const First: MessageId := [1]
  const Other: MessageId := [2]
  const Io: AppendIo := Synced(CompactFailed)

  function SmallLimits(retention: nat): Limits {
    Limits(1, 0, 2, 1, retention, 1)
  }

  ghost predicate Open(j: JournalState) {
    !j.closed && !j.tailDamaged && j.limits == SmallLimits(j.limits.retention)
  }

  /** With a limit of one line between compactions, every append also prunes. */
  lemma AppendPrunes(j: JournalState, e: Entry, now: nat)
    requires Open(j)
    ensures var (j', ok) := Append(j, e, now, Io);
            && ok && Open(j') && j'.limits == j.limits && j'.durable == j.durable + [e]
            && j'.ix == Prune(Apply(j.ix, e), j.limits.retention, now)
  {
    hide CompactedFile, Prune, Apply;
  }

  function QueuedEntry(j: JournalState, id: MessageId, payload: Bytes, now: nat): Entry {
    NewEntry(j, QueuedLocal, id, PayloadHash(payload), now)
      .(payload := Some(payload), peer := Some(Bob), addr := Some("addr"), queuedAt := Some(now))
  }

  function EnqueueOp(id: MessageId, payload: Bytes): Op {
    Enqueue(id, payload, Bob, "addr", 0, Io)
  }

  lemma EnqueueEval(j: JournalState, id: MessageId, payload: Bytes, now: nat)
    requires Open(j) && id !in j.ix.outbound
    requires |QueuedSizes(j.ix.outbound)| < 2 && Sum(QueuedSizes(j.ix.outbound)) + |payload| <= 1
    ensures var r := Step(j, EnqueueOp(id, payload), now);
            && r.out == EnqueueNew && Open(r.j) && r.j.limits == j.limits
            && r.j.durable == j.durable + [QueuedEntry(j, id, payload, now)]
            && r.j.ix.outbound == PruneOutbound(j.ix.outbound, j.limits.retention, now)[id := QueuedRecord(QueuedEntry(j, id, payload, now))]
  {
    hide Append, QueuedSizes, Sum;
    var e := QueuedEntry(j, id, payload, now);
    AppendPrunes(j, e, now);
    var m := j.ix.outbound[id := QueuedRecord(e)];
    assert PruneOutbound(m, j.limits.retention, now) == PruneOutbound(j.ix.outbound, j.limits.retention, now)[id := QueuedRecord(e)];
  }

  function SettleOp(id: MessageId): Op {
    Finish(id, DeliveryState.Settled, None, Io)
  }

  function SettledEntry(j: JournalState, id: MessageId, r: Outbound, now: nat): Entry {
    NewEntry(j, DeliveryState.Settled, id, r.hash, now).(peer := Some(r.peer), queuedAt := Some(r.queuedAt))
  }

  lemma SettleEval(j: JournalState, id: MessageId, now: nat)
    requires Open(j) && id in j.ix.outbound && j.ix.outbound[id].state.Queued?
    ensures var j', e := Step(j, SettleOp(id), now).j, SettledEntry(j, id, j.ix.outbound[id], now);
            && Open(j') && j'.limits == j.limits && j'.durable == j.durable + [e]
            && j'.ix.outbound == PruneOutbound(j.ix.outbound[id := Finished(j.ix.outbound[id], e)], j.limits.retention, now)
  {
    hide Append;
    AppendPrunes(j, SettledEntry(j, id, j.ix.outbound[id], now), now);
  }

  const TheKey: Key := Key(Alice, First)

  /** The first delivery is accepted and stays in the inbox. */
  lemma AcceptEval(j: JournalState, now: nat)
    requires Open(j) && j.ix.inbound == map[] && j.ix.live == map[]
    ensures var r := Step(j, Accept(Alice, First, [], Io), now);
            && r.out == Accepted && Open(r.j) && |r.j.durable| == |j.durable| + 1 && r.j.durable[..|j.durable|] == j.durable
            && r.j.durable[|j.durable|].hash == PayloadHash([])
            && TheKey in r.j.ix.inbound && r.j.ix.inbound[TheKey].hash == PayloadHash([])
  {
    hide Append;
    var e := NewEntry(j, ReceivedPeer, First, PayloadHash([]), now).(payload := Some([]), peer := Some(Alice));
    AppendPrunes(j, e, now);
  }

  /** The second is known. */
  lemma DuplicateEval(j: JournalState, now: nat)
    requires Open(j) && TheKey in j.ix.inbound && j.ix.inbound[TheKey].hash == PayloadHash([])
    ensures var r := Step(j, Accept(Alice, First, [], Io), now);
            && r.out == Duplicate && |r.j.durable| == |j.durable| + 1 && r.j.durable[..|j.durable|] == j.durable
            && r.j.durable[|j.durable|].hash == PayloadHash([])
  {
    hide Append;
    AppendPrunes(j, NewEntry(j, DuplicateSuppressed, First, PayloadHash([]), now).(peer := Some(Alice)), now);
  }

  lemma QueuedSizesOf(m: OutMap, id: MessageId)
    requires m.Keys <= {id} && (id in m ==> PayloadSize(m[id].payload) == 0)
    ensures |QueuedSizes(m)| <= 1 && Sum(QueuedSizes(m)) == 0
  {
    var s := QueuedSizes(m);
    if id in s {
      assert s == map[][id := 0];
      SumInsert(map[], id, 0);
    } else {
      assert s == map[];
    }
  }

  // --------------------------------------------------------------- the run

  function TheMessage(): Message {
    NewMessage(First, [], Alice, 0)
  }

  function TheAttempt(serial: nat): Attempt {
    Attempt(Alice, Bob, TheMessage(), 0, serial)
  }

  /** The answer to the second packet is a duplicate's. */
  function TheReceipt(serial: nat): Answer {
    Answer(Bob, Alice, ReceiptFor(TheMessage(), Bob, serial == 1), serial)
  }

  function ThePacket(serial: nat): Packet {
    Packet(Alice, Bob, TheMessage(), serial)
  }

  function TheLimits(retention: nat): map<Endpoint, Limits> {
    map[Alice := SmallLimits(retention), Bob := SmallLimits(retention)]
  }

  function SendAction(id: MessageId, payload: Bytes): Action {
    Send(Alice, Bob, id, payload, "addr", 0, Io)
  }

  predicate QueuedFor(r: Outbound, payload: Bytes) {
    r.state.Queued? && r.hash == PayloadHash(payload) && r.payload == Some(payload) && r.peer == Bob && r.addr == Some("addr") && r.queuedAt == 0
  }

  ghost predicate Base(net: Net, retention: nat) {
    net.nodes.Keys == {Alice, Bob} && Open(net.nodes[Alice]) && net.nodes[Alice].limits.retention == retention
  }

  ghost predicate Sent(net: Net, retention: nat) {
    && Base(net, retention) && net.now == 0
    && First in net.nodes[Alice].ix.outbound && net.nodes[Alice].ix.outbound.Keys == {First}
    && QueuedFor(net.nodes[Alice].ix.outbound[First], [])
  }

  /** All the messages of this run are small. */
  lemma SmallMessage(id: MessageId, payload: Bytes, now: nat)
    requires (id == First || id == Other) && (payload == [] || payload == [1])
    ensures MaySend(Alice, id, payload, now)
  {
    assert Alice[..0] == [] && id[..0] == [] && [1 as byte][..0] == [];
    assert EscapedLength([]) == 0 && EscapedLength(Alice) == 6 && EscapedLength(id) == 6 && EscapedLength([1]) == 6;
  }

  lemma Send1(retention: nat, maxAge: nat)
    ensures var net := InitialNet(TheLimits(retention));
            && Enabled(net, SendAction(First, []), maxAge)
            && var net' := Do(net, SendAction(First, []), maxAge);
               && Sent(net', retention) && net'.attempts == {TheAttempt(0)} && net'.spawned == 1
               && net'.nodes[Bob] == InitialState(SmallLimits(retention))
  {
    hide Step, QueuedSizes, Sum, MaySend;
    SmallMessage(First, [], 0);
    var net := InitialNet(TheLimits(retention));
    QueuedSizesOf(map[], First);
    EnqueueEval(net.nodes[Alice], First, [], 0);
    var m := PruneOutbound(map[], retention, 0);
    assert m == map[];
  }

  /** Sending the queued message again starts a second attempt and writes nothing. */
  lemma Send2(net: Net, retention: nat, maxAge: nat)
    requires Sent(net, retention) && net.attempts == {TheAttempt(0)} && net.spawned == 1
    ensures var net' := Do(net, SendAction(First, []), maxAge);
            && Sent(net', retention) && net'.attempts == {TheAttempt(0), TheAttempt(1)}
            && net'.nodes[Bob] == net.nodes[Bob] && net'.wire == net.wire
  {
    hide Append, MaySend;
    SmallMessage(First, [], 0);
    var j := net.nodes[Alice];
    var r := j.ix.outbound[First].(nextAttempt := 0);
    assert Step(j, EnqueueOp(First, []), 0) == Result(WithOutbound(j, First, r), EnqueueExisting(Queued));
  }

  /** The receiver has written only about the first payload. */
  ghost predicate OnlyFirst(j: JournalState) {
    forall i | 0 <= i < |j.durable| :: j.durable[i].hash == PayloadHash([])
  }

  ghost predicate FirstKnown(j: JournalState) {
    Open(j) && OnlyFirst(j) && TheKey in j.ix.inbound && j.ix.inbound[TheKey].hash == PayloadHash([])
  }

  lemma Deliver5(net: Net, retention: nat, maxAge: nat)
    requires Sent(net, retention) && ThePacket(0) in net.wire && net.nodes[Bob] == InitialState(SmallLimits(retention))
    ensures var net' := Do(net, Deliver(ThePacket(0), Io), maxAge);
            && Sent(net', retention) && net'.attempts == net.attempts && net'.wire == net.wire
            && TheReceipt(0) in net'.answers && FirstKnown(net'.nodes[Bob])
  {
    hide Step;
    AcceptEval(net.nodes[Bob], 0);
  }

  /** The receiver has the first payload and nothing else, and both receipts are on the way. */
  ghost predicate Received(net: Net) {
    Bob in net.nodes && TheReceipt(0) in net.answers && TheReceipt(1) in net.answers && OnlyFirst(net.nodes[Bob])
  }

  lemma Deliver6(net: Net, retention: nat, maxAge: nat)
    requires Sent(net, retention) && ThePacket(1) in net.wire && FirstKnown(net.nodes[Bob]) && TheReceipt(0) in net.answers
    ensures var net' := Do(net, Deliver(ThePacket(1), Io), maxAge);
            Sent(net', retention) && Received(net') && net'.attempts == net.attempts
  {
    hide Step;
    DuplicateEval(net.nodes[Bob], 0);
  }

  /** The message is settled, and its tombstone is of time 0. */
  ghost predicate SettledOnce(net: Net, retention: nat) {
    && Base(net, retention) && Received(net) && TheAttempt(1) in net.attempts
    && var m := net.nodes[Alice].ix.outbound;
       m.Keys <= {First} && (First in m ==> !m[First].state.Queued? && m[First].lastTs == 0)
  }

  lemma Resolve7(net: Net, retention: nat, maxAge: nat)
    requires Sent(net, retention) && Received(net) && TheAttempt(0) in net.attempts && TheAttempt(1) in net.attempts
    ensures var act := Resolve(TheAttempt(0), TheReceipt(0), 0, Io);
            Enabled(net, act, maxAge) && SettledOnce(Do(net, act, maxAge), retention) && Do(net, act, maxAge).now == 0
  {
    hide Step;
    SettleEval(net.nodes[Alice], First, 0);
  }

  lemma Send9(net: Net, retention: nat, maxAge: nat)
    requires SettledOnce(net, retention) && net.now == retention
    ensures var net' := Do(net, SendAction(Other, []), maxAge);
            && Base(net', retention) && Received(net') && TheAttempt(1) in net'.attempts && net'.now == retention
            && var m := net'.nodes[Alice].ix.outbound; m.Keys == {Other} && m[Other].payload == Some([])
  {
    hide Step, QueuedSizes, Sum, MaySend;
    SmallMessage(Other, [], retention);
    var j := net.nodes[Alice];
    SettledHasNoQueued(j.ix.outbound);
    EnqueueEval(j, Other, [], retention);
    assert PruneOutbound(j.ix.outbound, retention, retention) == map[];
  }

  lemma SettledHasNoQueued(m: OutMap)
    requires m.Keys <= {First} && (First in m ==> !m[First].state.Queued?)
    ensures |QueuedSizes(m)| == 0 && Sum(QueuedSizes(m)) == 0
  {
    assert QueuedSizes(m) == map[];
  }

  lemma Send10(net: Net, retention: nat, maxAge: nat)
    requires Base(net, retention) && Received(net) && TheAttempt(1) in net.attempts
    requires var m := net.nodes[Alice].ix.outbound; m.Keys == {Other} && m[Other].payload == Some([])
    ensures var net' := Do(net, SendAction(First, [1]), maxAge);
            && Base(net', retention) && Received(net') && TheAttempt(1) in net'.attempts && net'.now == net.now
            && var m := net'.nodes[Alice].ix.outbound;
               First in m && m[First].state.Queued? && m[First].hash == PayloadHash([1]) && m[First].peer == Bob
  {
    hide Step, QueuedSizes, Sum, MaySend;
    SmallMessage(First, [1], net.now);
    QueuedSizesOf(net.nodes[Alice].ix.outbound, Other);
    EnqueueEval(net.nodes[Alice], First, [1], net.now);
  }

  lemma Resolve11(net: Net, retention: nat, maxAge: nat)
    requires Base(net, retention) && Received(net) && TheAttempt(1) in net.attempts && net.now == retention <= maxAge
    requires var m := net.nodes[Alice].ix.outbound;
             First in m && m[First].state.Queued? && m[First].hash == PayloadHash([1]) && m[First].peer == Bob
    ensures var act := Resolve(TheAttempt(1), TheReceipt(1), 0, Io);
            Enabled(net, act, maxAge) && !NoFalseSettlement(Do(net, act, maxAge).nodes)
  {
    hide Step;
    var j := net.nodes[Alice];
    SettleEval(j, First, retention);
    var nodes := Do(net, Resolve(TheAttempt(1), TheReceipt(1), 0, Io), maxAge).nodes;
    var e := nodes[Alice].durable[|j.durable|];
    assert e == SettledEntry(j, First, j.ix.outbound[First], retention);
    assert nodes[Bob] == net.nodes[Bob];
    assert !SettledIsBacked(nodes, Alice, e);
  }

  lemma Extended(limits: map<Endpoint, Limits>, nets: seq<Net>, acts: seq<Action>, maxAge: nat, act: Action)
    requires IsRun(limits, nets, acts, maxAge) && Enabled(nets[|acts|], act, maxAge)
    ensures IsRun(limits, nets + [Do(nets[|acts|], act, maxAge)], acts + [act], maxAge)
  {
    hide Enabled, Do;
  }

  /** Two attempts for one message are under way. */
  lemma PlayToWire(retention: nat, maxAge: nat) returns (nets: seq<Net>, acts: seq<Action>)
    ensures IsRun(TheLimits(retention), nets, acts, maxAge)
    ensures var net := nets[|acts|];
            && Sent(net, retention) && net.attempts == {TheAttempt(0), TheAttempt(1)}
            && ThePacket(0) in net.wire && ThePacket(1) in net.wire && net.nodes[Bob] == InitialState(SmallLimits(retention))
  {
    hide Step, Sent, SendStep, DeliverStep;
    var limits := TheLimits(retention);
    nets, acts := [InitialNet(limits)], [];
    Send1(retention, maxAge);
    nets, acts := Play(limits, nets, acts, maxAge, SendAction(First, []));
    KnowsAlice(nets[1], retention);
    Send2(nets[1], retention, maxAge);
    nets, acts := Play(limits, nets, acts, maxAge, SendAction(First, []));
    nets, acts := Play(limits, nets, acts, maxAge, Transmit(TheAttempt(0)));
    SentIgnoresWire(nets[2], nets[3].wire, retention);
    nets, acts := Play(limits, nets, acts, maxAge, Transmit(TheAttempt(1)));
    SentIgnoresWire(nets[3], nets[4].wire, retention);
  }

  /** The receiver has answered both. */
  lemma PlayToAnswer(retention: nat, maxAge: nat) returns (nets: seq<Net>, acts: seq<Action>)
    ensures IsRun(TheLimits(retention), nets, acts, maxAge)
    ensures var net := nets[|acts|];
            Sent(net, retention) && Received(net) && net.attempts == {TheAttempt(0), TheAttempt(1)}
  {
    hide Step, Sent, Received, SendStep, DeliverStep, IsRun, Do, FirstKnown;
    var limits := TheLimits(retention);
    nets, acts := PlayToWire(retention, maxAge);
    var n := |acts|;
    RunLength(limits, nets, acts, maxAge);
    KnowsAlice(nets[n], retention);
    Deliver5(nets[n], retention, maxAge);
    nets, acts := Play(limits, nets, acts, maxAge, Deliver(ThePacket(0), Io));
    KnowsAlice(nets[n + 1], retention);
    Deliver6(nets[n + 1], retention, maxAge);
    nets, acts := Play(limits, nets, acts, maxAge, Deliver(ThePacket(1), Io));
  }

  lemma SentIgnoresWire(net: Net, wire: set<Packet>, retention: nat)
    requires Sent(net, retention)
    ensures Sent(net.(wire := wire), retention)
  {
  }

  lemma KnowsAlice(net: Net, retention: nat)
    requires Sent(net, retention)
    ensures net.nodes.Keys == {Alice, Bob}
  {
  }

  lemma Play(limits: map<Endpoint, Limits>, nets: seq<Net>, acts: seq<Action>, maxAge: nat, act: Action)
    returns (nets': seq<Net>, acts': seq<Action>)
    requires IsRun(limits, nets, acts, maxAge) && Enabled(nets[|acts|], act, maxAge)
    ensures IsRun(limits, nets', acts', maxAge) && |acts'| == |acts| + 1
    ensures nets' == nets + [Do(nets[|acts|], act, maxAge)]
  {
    Extended(limits, nets, acts, maxAge, act);
    nets', acts' := nets + [Do(nets[|acts|], act, maxAge)], acts + [act];
  }

  /** When an attempt may wait as long as a tombstone is kept, some run settles a message nobody received. */
  lemma LateAttemptSettlesFalsely(retention: nat, maxAge: nat) returns (nets: seq<Net>, acts: seq<Action>)
    requires retention <= maxAge
    ensures IsRun(TheLimits(retention), nets, acts, maxAge) && !NoFalseSettlement(nets[|acts|].nodes)
  {
    hide Step, Sent, Received, SendStep, NodeStep, NoFalseSettlement, IsRun, Do;
    var limits := TheLimits(retention);
    nets, acts := PlayToAnswer(retention, maxAge);
    var n := |acts|;
    RunLength(limits, nets, acts, maxAge);
    Resolve7(nets[n], retention, maxAge);
    nets, acts := Play(limits, nets, acts, maxAge, Resolve(TheAttempt(0), TheReceipt(0), 0, Io));
    nets, acts := PlayTick(limits, nets, acts, maxAge, retention);
    Send9(nets[n + 2], retention, maxAge);
    nets, acts := Play(limits, nets, acts, maxAge, SendAction(Other, []));
    Send10(nets[n + 3], retention, maxAge);
    nets, acts := Play(limits, nets, acts, maxAge, SendAction(First, [1]));
    Resolve11(nets[n + 4], retention, maxAge);
    nets, acts := Play(limits, nets, acts, maxAge, Resolve(TheAttempt(1), TheReceipt(1), 0, Io));
  }

  lemma RunLength(limits: map<Endpoint, Limits>, nets: seq<Net>, acts: seq<Action>, maxAge: nat)
    requires IsRun(limits, nets, acts, maxAge)
    ensures |nets| == |acts| + 1
  {
    hide Enabled, Do;
  }

  lemma PlayTick(limits: map<Endpoint, Limits>, nets: seq<Net>, acts: seq<Action>, maxAge: nat, retention: nat)
    returns (nets': seq<Net>, acts': seq<Action>)
    requires IsRun(limits, nets, acts, maxAge) && SettledOnce(nets[|acts|], retention) && nets[|acts|].now == 0
    ensures IsRun(limits, nets', acts', maxAge) && |acts'| == |acts| + 1 && |nets'| == |nets| + 1
    ensures SettledOnce(nets'[|acts'|], retention) && nets'[|acts'|].now == retention
  {
    hide IsRun;
    RunLength(limits, nets, acts, maxAge);
    nets', acts' := Play(limits, nets, acts, maxAge, Tick(retention));
  }

  ghost predicate AllKeepFor(limits: map<Endpoint, Limits>, retention: nat) {
    forall n | n in limits :: limits[n].retention == retention
  }

  /** In every run of every network whose nodes all keep tombstones this long, settlement can be believed. */
  ghost predicate SettlementTrusted(retention: nat, maxAge: nat) {
    forall limits: map<Endpoint, Limits>, nets: seq<Net>, acts | IsRun(limits, nets, acts, maxAge) && AllKeepFor(limits, retention) ::
      NoFalseSettlement(nets[|acts|].nodes)
  }

  /** Settlement is trustworthy exactly when every attempt ends sooner than a tombstone is dropped. */
  lemma SettlementTrustedIffAttemptsEndInTime(retention: nat, maxAge: nat)
    ensures SettlementTrusted(retention, maxAge) <==> maxAge < retention
  {
    hide Enabled, Do, NoFalseSettlement;
    if maxAge < retention {
      forall limits: map<Endpoint, Limits>, nets: seq<Net>, acts | IsRun(limits, nets, acts, maxAge) && AllKeepFor(limits, retention)
        ensures NoFalseSettlement(nets[|acts|].nodes)
      {
        RunNetInv(limits, nets, acts, maxAge);
      }
    } else {
      var nets, acts := LateAttemptSettlesFalsely(retention, maxAge);
    }
  }
}
