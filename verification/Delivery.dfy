/**
  The send / receipt / retry protocol between any number of nodes, each with its own journal.

  The network loses, delays, reorders and duplicates: packets stay on the wire for ever and may be handled any number
  of times or never. It does not forge: a connection proves both ends. Nodes crash, restart and compact at any time.
 */
module Delivery {
  import opened Basics
  import opened PeerTypes
  import opened JournalIndex
  import opened JournalHistory
  import opened JournalSpec
  import opened JournalInvariant
  import opened JournalRuns
  import opened JournalGuarantees
  import opened WireSizes

  datatype Message = Message(id: MessageId, hash: Digest, payload: Bytes, sender: Endpoint, createdAt: nat)

  datatype RejectCode =
    | RejectConflict
    | RejectQuotaExceeded
    | RejectSenderMismatch
    | RejectHashMismatch
    | RejectPayloadTooLarge
    | RejectInvalidMessageId

  datatype Envelope =
    | Receipt(id: MessageId, hash: Digest, status: string, receiver: Endpoint, duplicate: bool)
    | Reject(id: MessageId, code: RejectCode)

  const ReceivedPeerStatus: string := "received_peer"

  function NewMessage(id: MessageId, payload: Bytes, sender: Endpoint, createdAt: nat): Message {
    Message(id, PayloadHash(payload), payload, sender, createdAt)
  }

  function ReceiptFor(m: Message, receiver: Endpoint, duplicate: bool): Envelope {
    Receipt(m.id, m.hash, ReceivedPeerStatus, receiver, duplicate)
  }

  predicate IsRetryable(code: RejectCode) {
    code.RejectQuotaExceeded?
  }

  /** A receipt must name our message, our exact payload, and the peer we dialed. */
  predicate VerifyReceipt(r: Envelope, m: Message, peer: Endpoint)
    requires r.Receipt?
  {
    r.id == m.id && r.status == ReceivedPeerStatus && r.hash == m.hash && r.receiver == peer
  }

  /** The checks made before the journal is asked. */
  function RefuseEarly(m: Message, remote: Endpoint): Option<RejectCode> {
    if |m.id| == 0 || |m.id| > MaxMessageIdBytes then Some(RejectInvalidMessageId)
    else if m.sender != remote then Some(RejectSenderMismatch)
    else if |m.payload| > MaxPayloadBytes then Some(RejectPayloadTooLarge)
    else if m.hash != PayloadHash(m.payload) then Some(RejectHashMismatch)
    else None
  }

  /** What is sent back for a journal outcome; an I/O error sends nothing. */
  function ReplyTo(out: Outcome, m: Message, receiver: Endpoint): Option<Envelope> {
    match out
    case Accepted => Some(ReceiptFor(m, receiver, false))
    case Duplicate => Some(ReceiptFor(m, receiver, true))
    case Conflict => Some(Reject(m.id, RejectConflict))
    case QuotaExceeded => Some(Reject(m.id, RejectQuotaExceeded))
    case _ => None
  }

  // ------------------------------------------------------------------ system

  /** One delivery attempt in flight at its sender. */
  datatype Attempt = Attempt(owner: Endpoint, peer: Endpoint, message: Message, started: nat, serial: nat)

  /** What one attempt sends on its own stream, named by the attempt's serial number. */
  datatype Packet = Packet(from: Endpoint, to: Endpoint, message: Message, serial: nat)

  /** What comes back on that stream. */
  datatype Answer = Answer(from: Endpoint, to: Endpoint, envelope: Envelope, serial: nat)

  /** The receiver returned Accepted for `message` at `time`; its record is at `pos` of the receiver's history. */
  datatype Acceptance = Acceptance(receiver: Endpoint, pos: nat, message: Message, time: nat)

  datatype Net = Net(
    nodes: map<Endpoint, JournalState>,
    now: nat,
    attempts: set<Attempt>,
    spawned: nat,
    wire: set<Packet>,
    answers: set<Answer>,
    accepted: seq<Acceptance>)

  datatype Action =
    | Tick(later: nat)
    | Local(node: Endpoint, op: Op)
    | Send(node: Endpoint, peer: Endpoint, id: MessageId, payload: Bytes, addr: Addr, lease: nat, io: AppendIo)
    | Retry(node: Endpoint, id: MessageId)
    | Transmit(attempt: Attempt)
    | Deliver(packet: Packet, io: AppendIo)
    | Resolve(attempt: Attempt, answer: Answer, next: nat, io: AppendIo)
    | GiveUp(attempt: Attempt, next: nat)

  ghost function NodeStep(net: Net, n: Endpoint, op: Op): Net
    requires n in net.nodes
  {
    net.(nodes := net.nodes[n := Step(net.nodes[n], op, net.now).j],
         attempts := if op.Restart? then set a | a in net.attempts && a.owner != n else net.attempts)
  }

  /** Operations a node performs by itself: a message is queued by a send, accepted because of a packet, and settled or
      refused because of an answer. */
  predicate IsLocal(op: Op) {
    !op.Enqueue? && !op.Accept? && (op.Finish? ==> op.how == DeliveryState.Expired)
  }

  /** The checks made before a message is queued. */
  predicate MaySend(from: Endpoint, id: MessageId, payload: Bytes, now: nat) {
    1 <= |id| <= MaxMessageIdBytes && |payload| <= MaxPayloadBytes && FrameLength(from, id, payload, now) <= MaxFrameBytes
  }

  ghost function WithAttempt(net: Net, n: Endpoint, id: MessageId): Net
    requires n in net.nodes
  {
    var out := net.nodes[n].ix.outbound;
    if id in out && out[id].state.Queued? && out[id].payload.Some? then
      var r := out[id];
      var a := Attempt(n, r.peer, NewMessage(id, r.payload.value, n, r.queuedAt), net.now, net.spawned);
      net.(attempts := net.attempts + {a}, spawned := net.spawned + 1)
    else net
  }

  ghost function SendStep(net: Net, n: Endpoint, op: Op): Net
    requires n in net.nodes && op.Enqueue?
  {
    if !MaySend(n, op.id, op.payload, net.now) then net else
    var out := Step(net.nodes[n], op, net.now).out;
    var net := NodeStep(net, n, op);
    if out.EnqueueNew? || out == EnqueueExisting(Queued) then WithAttempt(net, n, op.id) else net
  }

  ghost function DeliverStep(net: Net, p: Packet, io: AppendIo): Net
    requires p.to in net.nodes
  {
    var early := RefuseEarly(p.message, p.from);
    if early.Some? then net.(answers := net.answers + {Answer(p.to, p.from, Reject(p.message.id, early.value), p.serial)}) else
    var op := Accept(p.from, p.message.id, p.message.payload, io);
    var out := Step(net.nodes[p.to], op, net.now).out;
    var pos := |net.nodes[p.to].durable|;
    var net := NodeStep(net, p.to, op);
    var net := if out.Accepted? then net.(accepted := net.accepted + [Acceptance(p.to, pos, p.message, net.now)]) else net;
    var reply := ReplyTo(out, p.message, p.to);
    if reply.None? then net else net.(answers := net.answers + {Answer(p.to, p.from, reply.value, p.serial)})
  }

  /** The journal operation an attempt ends with. */
  ghost function ResolveOp(j: JournalState, a: Attempt, envelope: Envelope, next: nat, io: AppendIo): Op {
    var id := a.message.id;
    match envelope
    case Receipt(_, _, _, _, _) =>
      if VerifyReceipt(envelope, a.message, a.peer) then Finish(id, DeliveryState.Settled, None, io)
      else Finish(id, DeliveryState.Refused, Some("invalid_receipt"), io)
    case Reject(rid, code) =>
      if rid != id || IsRetryable(code) then NoteFailed(id, next) else Finish(id, DeliveryState.Refused, Some("rejected"), io)
  }

  ghost predicate Enabled(net: Net, act: Action, maxAge: nat) {
    match act
    case Tick(later) => net.now <= later
    case Local(n, op) => n in net.nodes && IsLocal(op)
    case Send(n, peer, _, _, _, _, _) => n in net.nodes
    case Retry(n, id) => n in net.nodes
    case Transmit(a) => a in net.attempts
    case Deliver(p, _) => p in net.wire && p.to in net.nodes
    case Resolve(a, answer, _, _) =>
      a in net.attempts && answer in net.answers && answer.from == a.peer && answer.to == a.owner && answer.serial == a.serial
      && a.owner in net.nodes && net.now <= a.started + maxAge
    case GiveUp(a, _) => a in net.attempts && a.owner in net.nodes
  }

  ghost function Do(net: Net, act: Action, maxAge: nat): Net
    requires Enabled(net, act, maxAge)
  {
    match act
    case Tick(later) => net.(now := later)
    case Local(n, op) => NodeStep(net, n, op)
    case Send(n, peer, id, payload, addr, lease, io) => SendStep(net, n, Enqueue(id, payload, peer, addr, lease, io))
    case Retry(n, id) => WithAttempt(net, n, id)
    case Transmit(a) => net.(wire := net.wire + {Packet(a.owner, a.peer, a.message, a.serial)})
    case Deliver(p, io) => DeliverStep(net, p, io)
    case Resolve(a, answer, next, io) =>
      NodeStep(net.(attempts := net.attempts - {a}), a.owner, ResolveOp(net.nodes[a.owner], a, answer.envelope, next, io))
    case GiveUp(a, next) => NodeStep(net.(attempts := net.attempts - {a}), a.owner, NoteFailed(a.message.id, next))
  }

  // --------------------------------------------------------------- invariant

  /** `receiver` once made the message durable: same sender, id and payload hash. */
  ghost predicate Backed(nodes: map<Endpoint, JournalState>, receiver: Endpoint, sender: Endpoint, id: MessageId, hash: Digest) {
    && receiver in nodes
    && exists i :: (&& 0 <= i < |nodes[receiver].durable| && Receives(nodes[receiver].durable[i], Key(sender, id))
                    && nodes[receiver].durable[i].hash == hash)
  }

  /** A settled record names a peer that has the message. */
  ghost predicate SettledIsBacked(nodes: map<Endpoint, JournalState>, n: Endpoint, e: Entry) {
    e.state == DeliveryState.Settled && e.peer.Some? ==> Backed(nodes, e.peer.value, n, e.id, e.hash)
  }

  /** Every Settled record a node ever wrote, or may find written at its next start, is backed by the peer it was sent to. */
  ghost predicate NoFalseSettlement(nodes: map<Endpoint, JournalState>) {
    forall n | n in nodes ::
      && (forall i | 0 <= i < |nodes[n].durable| :: SettledIsBacked(nodes, n, nodes[n].durable[i]))
      && (nodes[n].torn.Some? ==> SettledIsBacked(nodes, n, nodes[n].torn.value))
  }

  ghost predicate MessageOk(m: Message, from: Endpoint, now: nat) {
    m.sender == from && m.hash == PayloadHash(m.payload) && m.createdAt <= now
  }

  /** The sender's record is still the one the attempt was made for, unless the retention time has passed since. */
  ghost predicate Tied(out: OutMap, a: Attempt, retention: nat, now: nat) {
    || a.started + retention <= now
    || (&& a.message.id in out && out[a.message.id].hash == a.message.hash && out[a.message.id].peer == a.peer
        && (out[a.message.id].state.Queued? || a.started <= out[a.message.id].lastTs))
  }

  ghost predicate AttemptOk(nodes: map<Endpoint, JournalState>, a: Attempt, now: nat) {
    && a.owner in nodes && MessageOk(a.message, a.owner, now) && a.started <= now
    && Tied(Replay(nodes[a.owner].durable).outbound, a, nodes[a.owner].limits.retention, now)
  }

  ghost predicate AnswerOk(nodes: map<Endpoint, JournalState>, r: Answer) {
    r.envelope.Receipt? ==> r.envelope.receiver == r.from && Backed(nodes, r.from, r.to, r.envelope.id, r.envelope.hash)
  }

  ghost predicate AcceptanceOk(nodes: map<Endpoint, JournalState>, a: Acceptance) {
    && a.receiver in nodes && a.pos < |nodes[a.receiver].durable|
    && Receives(nodes[a.receiver].durable[a.pos], Key(a.message.sender, a.message.id))
    && nodes[a.receiver].durable[a.pos].ts == a.time && a.message.createdAt <= a.time
  }

  ghost predicate AcceptancesOk(net: Net) {
    && (forall i | 0 <= i < |net.accepted| :: AcceptanceOk(net.nodes, net.accepted[i]))
    && (forall i, j | 0 <= i < j < |net.accepted| && net.accepted[i].receiver == net.accepted[j].receiver ::
          net.accepted[i].pos < net.accepted[j].pos)
  }

  ghost predicate NodesOk(nodes: map<Endpoint, JournalState>, now: nat) {
    forall n | n in nodes :: Inv(nodes[n], now)
  }

  /** Everything but settlement: this holds for any bound on the age of an attempt. */
  ghost predicate NetInv(net: Net) {
    && NodesOk(net.nodes, net.now)
    && (forall a | a in net.attempts :: AttemptOk(net.nodes, a, net.now))
    && (forall p | p in net.wire :: MessageOk(p.message, p.from, net.now))
    && (forall r | r in net.answers :: AnswerOk(net.nodes, r))
    && AcceptancesOk(net)
  }

  // -------------------------------------------------------- one node's step

  ghost predicate Extends(nodes: map<Endpoint, JournalState>, nodes': map<Endpoint, JournalState>) {
    && nodes.Keys <= nodes'.Keys
    && forall n | n in nodes :: nodes[n].durable <= nodes'[n].durable && nodes[n].limits == nodes'[n].limits
  }

  lemma BackedStays(nodes: map<Endpoint, JournalState>, nodes': map<Endpoint, JournalState>,
                    receiver: Endpoint, sender: Endpoint, id: MessageId, hash: Digest)
    requires Extends(nodes, nodes') && Backed(nodes, receiver, sender, id, hash)
    ensures Backed(nodes', receiver, sender, id, hash)
  {
    var d, d' := nodes[receiver].durable, nodes'[receiver].durable;
    var i :| 0 <= i < |d| && Receives(d[i], Key(sender, id)) && d[i].hash == hash;
    assert d'[i] == d[i];
  }

  lemma StepExtends(net: Net, n: Endpoint, op: Op)
    requires n in net.nodes
    ensures Extends(net.nodes, NodeStep(net, n, op).nodes)
  {
    hide Step;
    StepDurablePrefix(net.nodes[n], op, net.now);
    StepLimits(net.nodes[n], op, net.now);
  }

  /** Writing one legal record keeps the attempt tied to its record, or the retention time has passed. */
  lemma TiedAfterApply(ix: Index, e: Entry, a: Attempt, retention: nat, now: nat)
    requires Tied(ix.outbound, a, retention, now) && Legal(ix, e, retention) && e.ts == now && a.started <= now
    ensures Tied(ApplyOutbound(ix.outbound, e), a, retention, now)
  {
    OutboundEffect(ix.outbound, e, a.message.id);
  }

  lemma TiedAfterStep(j: JournalState, op: Op, now: nat, a: Attempt)
    requires Inv(j, now) && !op.Restart? && a.started <= now
    requires Tied(Replay(j.durable).outbound, a, j.limits.retention, now)
    ensures Tied(Replay(Step(j, op, now).j.durable).outbound, a, j.limits.retention, now)
  {
    hide Inv, Step, Tied, Legal, EntryWritten;
    var j', e := Step(j, op, now).j, EntryWritten(j, op, now);
    StepWrites(j, op, now);
    if j'.durable != j.durable {
      assert j'.durable == j.durable + [e];
      StepInv(j, op, now);
      HistoryFacts(j', now);
      StepLimits(j, op, now);
      LastIsLegal(j.durable, e, j.limits.retention);
      ReplaySnoc(j.durable, e);
      WrittenNow(j, op, now);
      TiedAfterApply(Replay(j.durable), e, a, j.limits.retention, now);
    }
  }

  lemma WrittenNow(j: JournalState, op: Op, now: nat)
    ensures EntryWritten(j, op, now).ts == now
  {
  }

  lemma LastIsLegal(es: seq<Entry>, e: Entry, retention: nat)
    requires LegalHistory(es + [e], retention)
    ensures Legal(Replay(es), e, retention)
  {
    assert (es + [e])[..|es|] == es && (es + [e])[|es|] == e;
  }

  lemma AttemptStays(net: Net, n: Endpoint, op: Op, a: Attempt)
    requires n in net.nodes && Inv(net.nodes[n], net.now) && AttemptOk(net.nodes, a, net.now) && (op.Restart? ==> a.owner != n)
    ensures AttemptOk(NodeStep(net, n, op).nodes, a, net.now)
  {
    hide Inv, Step, Tied;
    StepLimits(net.nodes[n], op, net.now);
    if a.owner == n {
      TiedAfterStep(net.nodes[n], op, net.now, a);
    }
  }

  lemma AcceptanceStays(nodes: map<Endpoint, JournalState>, nodes': map<Endpoint, JournalState>, a: Acceptance)
    requires Extends(nodes, nodes') && AcceptanceOk(nodes, a)
    ensures AcceptanceOk(nodes', a)
  {
    assert nodes'[a.receiver].durable[a.pos] == nodes[a.receiver].durable[a.pos];
  }

  lemma NodeStepInv(net: Net, n: Endpoint, op: Op)
    requires NetInv(net) && n in net.nodes
    ensures NetInv(NodeStep(net, n, op))
  {
    hide Inv, Step, AttemptOk, AnswerOk, AcceptanceOk;
    var net' := NodeStep(net, n, op);
    StepInv(net.nodes[n], op, net.now);
    StepExtends(net, n, op);
    forall a | a in net'.attempts
      ensures AttemptOk(net'.nodes, a, net.now)
    {
      AttemptStays(net, n, op, a);
    }
    forall r | r in net.answers
      ensures AnswerOk(net'.nodes, r)
    {
      AnswerStays(net.nodes, net'.nodes, r);
    }
    forall i | 0 <= i < |net.accepted|
      ensures AcceptanceOk(net'.nodes, net.accepted[i])
    {
      AcceptanceStays(net.nodes, net'.nodes, net.accepted[i]);
    }
  }

  lemma AnswerStays(nodes: map<Endpoint, JournalState>, nodes': map<Endpoint, JournalState>, r: Answer)
    requires Extends(nodes, nodes') && AnswerOk(nodes, r)
    ensures AnswerOk(nodes', r)
  {
    if r.envelope.Receipt? {
      BackedStays(nodes, nodes', r.from, r.to, r.envelope.id, r.envelope.hash);
    }
  }

  // ----------------------------------------------------------------- actions

  lemma TickInv(net: Net, later: nat)
    requires NetInv(net) && net.now <= later
    ensures NetInv(net.(now := later))
  {
    hide Inv, Replay;
    forall n | n in net.nodes
      ensures Inv(net.nodes[n], later)
    {
      LaterInv(net.nodes[n], net.now, later);
    }
    assert forall a | a in net.attempts :: AttemptOk(net.nodes, a, net.now) && AttemptOk(net.nodes, a, later);
    assert forall p | p in net.wire :: MessageOk(p.message, p.from, net.now) && MessageOk(p.message, p.from, later);
  }

  lemma NewAttemptOk(net: Net, n: Endpoint, id: MessageId)
    requires NetInv(net) && n in net.nodes
    ensures NetInv(WithAttempt(net, n, id))
  {
    hide AttemptOk, AnswerOk, AcceptanceOk, Inv;
    var out := net.nodes[n].ix.outbound;
    if id in out && out[id].state.Queued? && out[id].payload.Some? {
      QueuedAttemptOk(net, n, id);
    }
  }

  lemma QueuedAttemptOk(net: Net, n: Endpoint, id: MessageId)
    requires n in net.nodes && Inv(net.nodes[n], net.now)
    requires var out := net.nodes[n].ix.outbound; id in out && out[id].state.Queued? && out[id].payload.Some?
    ensures var r := net.nodes[n].ix.outbound[id];
            AttemptOk(net.nodes, Attempt(n, r.peer, NewMessage(id, r.payload.value, n, r.queuedAt), net.now, net.spawned), net.now)
  {
    hide Inv;
    var j := net.nodes[n];
    IndexFacts(j, net.now);
    assert OutboundOk(j.ix.outbound[id]);
    assert Durable(j.ix.outbound[id]) == Durable(Replay(j.durable).outbound[id]);
  }

  lemma SendInv(net: Net, n: Endpoint, op: Op)
    requires NetInv(net) && n in net.nodes && op.Enqueue?
    ensures NetInv(SendStep(net, n, op))
  {
    hide NetInv, Step;
    NodeStepInv(net, n, op);
    NewAttemptOk(NodeStep(net, n, op), n, op.id);
  }

  /** After a positive journal outcome the message is in the receiver's history. */
  lemma ReceiptIsBacked(net: Net, p: Packet, io: AppendIo)
    requires p.to in net.nodes && Inv(net.nodes[p.to], net.now) && p.message.hash == PayloadHash(p.message.payload)
    requires var out := Step(net.nodes[p.to], Accept(p.from, p.message.id, p.message.payload, io), net.now).out;
             out.Accepted? || out.Duplicate?
    ensures Backed(NodeStep(net, p.to, Accept(p.from, p.message.id, p.message.payload, io)).nodes,
                   p.to, p.from, p.message.id, p.message.hash)
  {
    hide Inv, AcceptStep;
    var j, m, k := net.nodes[p.to], p.message, Key(p.from, p.message.id);
    var op := Accept(p.from, m.id, m.payload, io);
    var j' := Step(j, op, net.now).j;
    AcceptOutcome(j, p.from, m.id, m.payload, net.now, io);
    if Step(j, op, net.now).out.Accepted? {
      assert Receives(j'.durable[|j.durable|], k);
    } else {
      HistoryFacts(j, net.now);
      var i, c := TraceInbound(j.durable, k, j.limits.retention);
      assert j'.durable[i] == j.durable[i];
    }
  }

  lemma AnswerInv(net: Net, r: Answer)
    requires NetInv(net) && AnswerOk(net.nodes, r)
    ensures NetInv(net.(answers := net.answers + {r}))
  {
    hide Inv, AttemptOk, AcceptanceOk, AnswerOk;
  }

  lemma AcceptanceInv(net: Net, a: Acceptance)
    requires NetInv(net) && AcceptanceOk(net.nodes, a) && a.pos == |net.nodes[a.receiver].durable| - 1
    requires forall i | 0 <= i < |net.accepted| && net.accepted[i].receiver == a.receiver :: net.accepted[i].pos < a.pos
    ensures NetInv(net.(accepted := net.accepted + [a]))
  {
    hide Inv, AttemptOk, AnswerOk;
  }

  lemma DeliverInv(net: Net, p: Packet, io: AppendIo)
    requires NetInv(net) && p in net.wire && p.to in net.nodes
    ensures NetInv(DeliverStep(net, p, io))
  {
    hide Inv, Step, AttemptOk, Backed, AcceptanceOk;
    var early, m := RefuseEarly(p.message, p.from), p.message;
    if early.Some? {
      AnswerInv(net, Answer(p.to, p.from, Reject(m.id, early.value), p.serial));
    } else {
      var op := Accept(p.from, m.id, m.payload, io);
      var out, pos := Step(net.nodes[p.to], op, net.now).out, |net.nodes[p.to].durable|;
      var net1 := NodeStep(net, p.to, op);
      NodeStepInv(net, p.to, op);
      if out.Accepted? {
        NewAcceptance(net, p, io);
        var a := Acceptance(p.to, pos, m, net.now);
        assert forall i | 0 <= i < |net.accepted| :: AcceptanceOk(net.nodes, net.accepted[i]);
        OldPositions(net, p.to);
        AcceptanceInv(net1, a);
        net1 := net1.(accepted := net1.accepted + [a]);
      }
      var reply := ReplyTo(out, m, p.to);
      if reply.Some? {
        if reply.value.Receipt? {
          ReceiptIsBacked(net, p, io);
        }
        AnswerInv(net1, Answer(p.to, p.from, reply.value, p.serial));
      }
    }
  }

  lemma OldPositions(net: Net, n: Endpoint)
    requires AcceptancesOk(net) && n in net.nodes
    ensures forall i | 0 <= i < |net.accepted| && net.accepted[i].receiver == n :: net.accepted[i].pos < |net.nodes[n].durable|
  {
    assert forall i | 0 <= i < |net.accepted| :: AcceptanceOk(net.nodes, net.accepted[i]);
  }

  lemma NewAcceptance(net: Net, p: Packet, io: AppendIo)
    requires p.to in net.nodes && Inv(net.nodes[p.to], net.now) && MessageOk(p.message, p.from, net.now)
    requires Step(net.nodes[p.to], Accept(p.from, p.message.id, p.message.payload, io), net.now).out.Accepted?
    ensures var nodes := NodeStep(net, p.to, Accept(p.from, p.message.id, p.message.payload, io)).nodes;
            && AcceptanceOk(nodes, Acceptance(p.to, |net.nodes[p.to].durable|, p.message, net.now))
            && |nodes[p.to].durable| == |net.nodes[p.to].durable| + 1
  {
    hide Inv, AcceptStep;
    AcceptOutcome(net.nodes[p.to], p.from, p.message.id, p.message.payload, net.now, io);
  }

  lemma DropAttemptInv(net: Net, a: Attempt)
    requires NetInv(net)
    ensures NetInv(net.(attempts := net.attempts - {a}))
  {
    hide Inv, AttemptOk, AnswerOk, AcceptanceOk;
  }

  lemma ActionInv(net: Net, act: Action, maxAge: nat)
    requires NetInv(net) && Enabled(net, act, maxAge)
    ensures NetInv(Do(net, act, maxAge))
  {
    hide NodeStep, SendStep, DeliverStep, WithAttempt, ResolveOp, AttemptOk, AnswerOk, AcceptanceOk, Inv;
    match act
    case Tick(later) => TickInv(net, later);
    case Local(n, op) => NodeStepInv(net, n, op);
    case Send(n, peer, id, payload, addr, lease, io) => SendInv(net, n, Enqueue(id, payload, peer, addr, lease, io));
    case Retry(n, id) => NewAttemptOk(net, n, id);
    case Transmit(a) => TransmitInv(net, a);
    case Deliver(p, io) => DeliverInv(net, p, io);
    case Resolve(a, answer, next, io) =>
      DropAttemptInv(net, a);
      NodeStepInv(net.(attempts := net.attempts - {a}), a.owner, ResolveOp(net.nodes[a.owner], a, answer.envelope, next, io));
    case GiveUp(a, next) =>
      DropAttemptInv(net, a);
      NodeStepInv(net.(attempts := net.attempts - {a}), a.owner, NoteFailed(a.message.id, next));
  }

  lemma TransmitInv(net: Net, a: Attempt)
    requires NetInv(net) && a in net.attempts
    ensures NetInv(net.(wire := net.wire + {Packet(a.owner, a.peer, a.message, a.serial)}))
  {
    hide Inv, Tied, AnswerOk, AcceptanceOk;
    assert AttemptOk(net.nodes, a, net.now);
  }
}
