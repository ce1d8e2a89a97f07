/** What each step of the delivery protocol answers and does to a message, and why a message can be refused at all. */
module DeliveryOutcomes {
  import opened Basics
  import opened PeerTypes
  import opened WireSizes
  import opened JournalIndex
  import opened JournalHistory
  import opened JournalSpec
  import opened JournalInvariant
  import opened JournalRuns
  import opened JournalGuarantees
  import opened JournalOutcomes
  import opened Delivery
  import opened DeliveryRuns

  // ------------------------------------------------------------------- answers

  /** The sizes and identity a message must have to be looked at. */
  predicate InOrderMessage(m: Message, remote: Endpoint) {
    1 <= |m.id| <= 256 && m.sender == remote && |m.payload| <= 262144 && m.hash == PayloadHash(m.payload)
  }

  /** Exactly what a receiver answers to a packet: the first thing wrong with the message; otherwise what its journal knows,
      room for it, and whether the record gets to the disk, in which case nothing is sent back if it does not. */
  lemma DeliverAnswers(net: Net, p: Packet, io: AppendIo)
    requires p.to in net.nodes && Inv(net.nodes[p.to], net.now)
    ensures var m, j := p.message, net.nodes[p.to];
            var k := Key(p.from, m.id);
            var known := k in j.ix.inbound;
            var answer :=
              if |m.id| < 1 || |m.id| > 256 then Some(Reject(m.id, RejectInvalidMessageId))
              else if m.sender != p.from then Some(Reject(m.id, RejectSenderMismatch))
              else if |m.payload| > 262144 then Some(Reject(m.id, RejectPayloadTooLarge))
              else if m.hash != PayloadHash(m.payload) then Some(Reject(m.id, RejectHashMismatch))
              else if known && j.ix.inbound[k].hash != m.hash then Some(Reject(m.id, RejectConflict))
              else if !known && !InboxRoom(j, p.from, |m.payload|) then Some(Reject(m.id, RejectQuotaExceeded))
              else if Reaches(j, io) then Some(Receipt(m.id, m.hash, "received_peer", p.to, known))
              else None;
            DeliverStep(net, p, io).answers == net.answers + (if answer.Some? then {Answer(p.to, p.from, answer.value, p.serial)} else {})
  {
    hide Inv, InboxRoom, AcceptStep;
    AcceptAnswers(net.nodes[p.to], p.from, p.message.id, p.message.payload, net.now, io);
  }

  /** A message out of order never gets to the journal. */
  lemma OutOfOrderChangesNothing(net: Net, p: Packet, io: AppendIo)
    requires p.to in net.nodes && !InOrderMessage(p.message, p.from)
    ensures DeliverStep(net, p, io).nodes == net.nodes && DeliverStep(net, p, io).accepted == net.accepted
  {
    hide Step;
  }

  // -------------------------------------------------------------------- sends

  /** An attempt is started exactly for a message that may be sent and is newly or still queued, and it carries the message
      as it was queued, with the time it was queued at. */
  lemma SendOutcome(net: Net, n: Endpoint, peer: Endpoint, id: MessageId, payload: Bytes, addr: Addr, lease: nat, io: AppendIo)
    requires n in net.nodes && Inv(net.nodes[n], net.now)
    ensures var j, op := net.nodes[n], Enqueue(id, payload, peer, addr, lease, io);
            var net', out := SendStep(net, n, op), EnqueueStep(j, id, payload, peer, addr, lease, net.now, io).out;
            if |id| < 1 || |id| > 256 || |payload| > 262144 || FrameLength(n, id, payload, net.now) > 327680 then net' == net
            else if out == EnqueueNew then
              net'.attempts == net.attempts + {Attempt(n, peer, Message(id, PayloadHash(payload), payload, n, net.now), net.now, net.spawned)}
            else if out == EnqueueExisting(Queued) then
              net'.attempts == net.attempts
                + {Attempt(n, peer, Message(id, PayloadHash(payload), payload, n, j.ix.outbound[id].queuedAt), net.now, net.spawned)}
            else net'.attempts == net.attempts
  {
    hide Inv, EnqueueStep, FrameLength;
    var j := net.nodes[n];
    IndexFacts(j, net.now);
    EnqueueAnswers(j, id, payload, peer, addr, lease, net.now, io);
    var out := EnqueueStep(j, id, payload, peer, addr, lease, net.now, io).out;
    if out == EnqueueNew {
      NewIsQueued(j, id, payload, peer, addr, lease, net.now, io);
    } else if out == EnqueueExisting(Queued) {
      assert OutboundOk(j.ix.outbound[id]);
      ResentStaysQueued(j, id, payload, peer, addr, lease, net.now, io);
    }
  }

  // ---------------------------------------------------------- ends of attempts

  /** The message's history ends, refused or settled; the index holds it so, or has already dropped it. */
  ghost predicate EndsAs(j: JournalState, j': JournalState, id: MessageId, how: DeliveryState) {
    && |j'.durable| == |j.durable| + 1 && j'.durable[..|j.durable|] == j.durable
    && j'.durable[|j.durable|].state == how && j'.durable[|j.durable|].id == id
    && (id in j'.ix.outbound ==> DeliveryStateOf(j'.ix.outbound[id].state) == how)
    && (j.limits.retention > 0 ==> id in j'.ix.outbound)
  }

  ghost predicate StaysQueued(j: JournalState, j': JournalState, id: MessageId, next: nat)
    requires id in j.ix.outbound
  {
    && j'.durable == j.durable && id in j'.ix.outbound
    && j'.ix.outbound[id] == j.ix.outbound[id].(nextAttempt := next, attempts := j'.ix.outbound[id].attempts)
  }

  /** A reject keeps a queued message queued, to be tried again at the given time, exactly if it says the quota is exceeded or
      names another id; each of the other codes refuses it for good. */
  lemma RejectOutcome(net: Net, a: Attempt, answer: Answer, maxAge: nat, next: nat, io: AppendIo)
    requires Enabled(net, Resolve(a, answer, next, io), maxAge) && answer.envelope.Reject?
    requires var out := net.nodes[a.owner].ix.outbound; a.message.id in out && out[a.message.id].state.Queued?
    ensures var j, id := net.nodes[a.owner], a.message.id;
            var j' := Do(net, Resolve(a, answer, next, io), maxAge).nodes[a.owner];
            match answer.envelope.code
            case RejectQuotaExceeded => StaysQueued(j, j', id, next)
            case RejectConflict | RejectSenderMismatch | RejectHashMismatch | RejectPayloadTooLarge | RejectInvalidMessageId =>
              if answer.envelope.id != id then StaysQueued(j, j', id, next)
              else if Reaches(j, io) then EndsAs(j, j', id, DeliveryState.Refused)
              else j'.ix == j.ix && j'.durable == j.durable
  {
    hide FinishStep;
    FinishOutcome(net.nodes[a.owner], a.message.id, DeliveryState.Refused, Some("rejected"), net.now, io);
  }

  /** A receipt settles a queued message if it names this id, this payload and the peer that was dialed; any other refuses it. */
  lemma ReceiptOutcome(net: Net, a: Attempt, answer: Answer, maxAge: nat, next: nat, io: AppendIo)
    requires Enabled(net, Resolve(a, answer, next, io), maxAge) && answer.envelope.Receipt?
    requires var out := net.nodes[a.owner].ix.outbound; a.message.id in out && out[a.message.id].state.Queued?
    ensures var j, id, e := net.nodes[a.owner], a.message.id, answer.envelope;
            var j' := Do(net, Resolve(a, answer, next, io), maxAge).nodes[a.owner];
            var genuine := e == Receipt(id, a.message.hash, "received_peer", a.peer, e.duplicate);
            if Reaches(j, io) then EndsAs(j, j', id, if genuine then DeliveryState.Settled else DeliveryState.Refused)
            else j'.ix == j.ix && j'.durable == j.durable
  {
    hide FinishStep;
    FinishOutcome(net.nodes[a.owner], a.message.id, DeliveryState.Settled, None, net.now, io);
    FinishOutcome(net.nodes[a.owner], a.message.id, DeliveryState.Refused, Some("invalid_receipt"), net.now, io);
  }

  /** An attempt without an answer leaves a queued message queued, to be tried again at the given time. */
  lemma GiveUpOutcome(net: Net, a: Attempt, maxAge: nat, next: nat)
    requires Enabled(net, GiveUp(a, next), maxAge)
    requires var out := net.nodes[a.owner].ix.outbound; a.message.id in out && out[a.message.id].state.Queued?
    ensures StaysQueued(net.nodes[a.owner], Do(net, GiveUp(a, next), maxAge).nodes[a.owner], a.message.id, next)
  {
  }

  // ---------------------------------------------------- what is on the network

  /** A message its receiver will look at, in a frame it will read. */
  ghost predicate GoodMessage(from: Endpoint, m: Message) {
    && InOrderMessage(m, from)
    && FrameLength(from, m.id, m.payload, m.createdAt) <= 327680
  }

  ghost predicate GoodEntry(n: Endpoint, e: Entry) {
    e.state.QueuedLocal? ==>
      && e.peer.Some? && e.payload.Some? && e.queuedAt == Some(e.ts)
      && GoodMessage(n, Message(e.id, e.hash, e.payload.value, n, e.ts))
  }

  ghost predicate GoodNode(n: Endpoint, j: JournalState) {
    forall e | e in j.durable || j.torn == Some(e) :: GoodEntry(n, e)
  }

  /** The answer is to this attempt's message: a receipt verifies, and a reject says conflict or quota. */
  ghost predicate AnswersAttempt(a: Attempt, r: Answer) {
    && r.from == a.peer && r.to == a.owner
    && (r.envelope.Receipt? ==> VerifyReceipt(r.envelope, a.message, a.peer))
    && (r.envelope.Reject? ==> r.envelope.id == a.message.id && (r.envelope.code.RejectConflict? || r.envelope.code.RejectQuotaExceeded?))
  }

  /** Serial numbers tell attempts apart, and what travels under one belongs to its attempt. */
  ghost predicate Threaded(net: Net) {
    && (forall a | a in net.attempts :: a.serial < net.spawned)
    && (forall a, b | a in net.attempts && b in net.attempts && a.serial == b.serial :: a == b)
    && (forall p | p in net.wire :: p.serial < net.spawned)
    && (forall p, a | p in net.wire && a in net.attempts && a.serial == p.serial :: p == Packet(a.owner, a.peer, a.message, a.serial))
    && (forall r | r in net.answers :: r.serial < net.spawned)
    && (forall r, a | r in net.answers && a in net.attempts && a.serial == r.serial :: AnswersAttempt(a, r))
  }

  ghost predicate GoodNet(net: Net) {
    && (forall n | n in net.nodes :: GoodNode(n, net.nodes[n]))
    && (forall a | a in net.attempts :: GoodMessage(a.owner, a.message))
    && (forall p | p in net.wire :: GoodMessage(p.from, p.message))
    && Threaded(net)
  }

  lemma WrittenGood(n: Endpoint, j: JournalState, op: Op, now: nat)
    requires op.Enqueue? ==> MaySend(n, op.id, op.payload, now)
    requires op.Finish? ==> IsTerminal(op.how)
    ensures GoodEntry(n, EntryWritten(j, op, now))
  {
    hide FrameLength;
  }

  lemma NodeGood(n: Endpoint, j: JournalState, op: Op, now: nat)
    requires GoodNode(n, j) && (op.Enqueue? ==> MaySend(n, op.id, op.payload, now)) && (op.Finish? ==> IsTerminal(op.how))
    ensures GoodNode(n, Step(j, op, now).j)
  {
    hide Step, EntryWritten, GoodEntry, MaySend;
    WrittenGood(n, j, op, now);
    forall e | e in Step(j, op, now).j.durable || Step(j, op, now).j.torn == Some(e)
      ensures GoodEntry(n, e)
    {
      WrittenByStep(j, op, now, e);
    }
  }

  lemma NodeStepGood(net: Net, n: Endpoint, op: Op)
    requires GoodNet(net) && n in net.nodes
    requires (op.Enqueue? ==> MaySend(n, op.id, op.payload, net.now)) && (op.Finish? ==> IsTerminal(op.how))
    ensures GoodNet(NodeStep(net, n, op))
  {
    hide Step, GoodNode, GoodMessage, AnswersAttempt, MaySend;
    NodeGood(n, net.nodes[n], op, net.now);
  }

  /** A queued record carries what was once queued. */
  lemma QueuedIsGood(net: Net, n: Endpoint, id: MessageId)
    requires NetInv(net) && GoodNet(net) && n in net.nodes
    requires var out := net.nodes[n].ix.outbound; id in out && out[id].state.Queued? && out[id].payload.Some?
    ensures var r := net.nodes[n].ix.outbound[id]; GoodMessage(n, NewMessage(id, r.payload.value, n, r.queuedAt))
  {
    hide Inv, FrameLength, Threaded, Replay, LegalHistory;
    var j := net.nodes[n];
    assert Inv(j, net.now);
    IndexFacts(j, net.now);
    HistoryFacts(j, net.now);
    assert Durable(j.ix.outbound[id]) == Durable(Replay(j.durable).outbound[id]);
    assert OutboundOk(j.ix.outbound[id]);
    var q, t := TraceOutbound(j.durable, id, j.limits.retention);
    assert GoodNode(n, j) && GoodEntry(n, j.durable[q]);
  }

  lemma AttemptGood(net: Net, n: Endpoint, id: MessageId)
    requires NetInv(net) && GoodNet(net) && n in net.nodes
    ensures GoodNet(WithAttempt(net, n, id))
  {
    hide NetInv, GoodNode, GoodMessage, AnswersAttempt;
    var out := net.nodes[n].ix.outbound;
    if id in out && out[id].state.Queued? && out[id].payload.Some? {
      QueuedIsGood(net, n, id);
    }
  }

  lemma SendGood(net: Net, n: Endpoint, op: Op)
    requires NetInv(net) && GoodNet(net) && n in net.nodes && op.Enqueue?
    ensures GoodNet(SendStep(net, n, op))
  {
    hide NetInv, GoodNet, Step, MaySend;
    if MaySend(n, op.id, op.payload, net.now) {
      NodeStepInv(net, n, op);
      NodeStepGood(net, n, op);
      AttemptGood(NodeStep(net, n, op), n, op.id);
    }
  }

  lemma AnswerGood(net: Net, r: Answer)
    requires GoodNet(net) && r.serial < net.spawned && forall a | a in net.attempts && a.serial == r.serial :: AnswersAttempt(a, r)
    ensures GoodNet(net.(answers := net.answers + {r}))
  {
    hide GoodNode, GoodMessage, AnswersAttempt;
  }

  lemma DeliverGood(net: Net, p: Packet, io: AppendIo)
    requires NetInv(net) && GoodNet(net) && p in net.wire && p.to in net.nodes
    ensures GoodNet(DeliverStep(net, p, io))
  {
    hide NetInv, Step, GoodNet, FrameLength;
    PacketInOrder(net, p);
    var m := p.message;
    var op := Accept(p.from, m.id, m.payload, io);
    var out := Step(net.nodes[p.to], op, net.now).out;
    NodeStepGood(net, p.to, op);
    var net1 := NodeStep(net, p.to, op);
    if out.Accepted? {
      SameGood(net1, net1.accepted + [Acceptance(p.to, |net.nodes[p.to].durable|, m, net.now)]);
      net1 := net1.(accepted := net1.accepted + [Acceptance(p.to, |net.nodes[p.to].durable|, m, net.now)]);
    }
    var reply := ReplyTo(out, m, p.to);
    if reply.Some? {
      ReplyIsAnswer(net1, p, out);
      AnswerGood(net1, Answer(p.to, p.from, reply.value, p.serial));
    }
  }

  lemma SameGood(net: Net, accepted: seq<Acceptance>)
    requires GoodNet(net)
    ensures GoodNet(net.(accepted := accepted))
  {
    hide GoodNode, GoodMessage, AnswersAttempt;
  }

  lemma PacketInOrder(net: Net, p: Packet)
    requires GoodNet(net) && p in net.wire
    ensures RefuseEarly(p.message, p.from).None?
  {
    hide GoodNode, Threaded, FrameLength;
    assert GoodMessage(p.from, p.message);
  }

  lemma ReplyIsAnswer(net: Net, p: Packet, out: Outcome)
    requires GoodNet(net) && p in net.wire && ReplyTo(out, p.message, p.to).Some?
    ensures p.serial < net.spawned
    ensures forall a | a in net.attempts && a.serial == p.serial ::
              AnswersAttempt(a, Answer(p.to, p.from, ReplyTo(out, p.message, p.to).value, p.serial))
  {
    hide GoodNode, GoodMessage;
  }

  lemma FewerAttemptsGood(net: Net, a: Attempt)
    requires GoodNet(net)
    ensures GoodNet(net.(attempts := net.attempts - {a}))
  {
    hide GoodNode, GoodMessage, AnswersAttempt;
  }

  lemma ActionGood(net: Net, act: Action, maxAge: nat)
    requires NetInv(net) && GoodNet(net) && Enabled(net, act, maxAge)
    ensures GoodNet(Do(net, act, maxAge))
  {
    hide NetInv, GoodNet, NodeStep, SendStep, DeliverStep, WithAttempt, VerifyReceipt;
    match act
    case Tick(later) => LaterGood(net, later);
    case Local(n, op) => NodeStepGood(net, n, op);
    case Send(n, peer, id, payload, addr, lease, io) => SendGood(net, n, Enqueue(id, payload, peer, addr, lease, io));
    case Retry(n, id) => AttemptGood(net, n, id);
    case Transmit(a) => TransmitGood(net, a);
    case Deliver(p, io) => DeliverGood(net, p, io);
    case Resolve(a, answer, next, io) =>
      FewerAttemptsGood(net, a);
      NodeStepGood(net.(attempts := net.attempts - {a}), a.owner, ResolveOp(net.nodes[a.owner], a, answer.envelope, next, io));
    case GiveUp(a, next) =>
      FewerAttemptsGood(net, a);
      NodeStepGood(net.(attempts := net.attempts - {a}), a.owner, NoteFailed(a.message.id, next));
  }

  lemma LaterGood(net: Net, later: nat)
    requires GoodNet(net)
    ensures GoodNet(net.(now := later))
  {
    hide GoodNode, GoodMessage, AnswersAttempt;
  }

  lemma TransmitGood(net: Net, a: Attempt)
    requires GoodNet(net) && a in net.attempts
    ensures GoodNet(net.(wire := net.wire + {Packet(a.owner, a.peer, a.message, a.serial)}))
  {
    hide GoodNode, GoodMessage, AnswersAttempt;
  }

  lemma {:induction false} RunGood(limits: map<Endpoint, Limits>, nets: seq<Net>, acts: seq<Action>, maxAge: nat)
    requires IsRun(limits, nets, acts, maxAge)
    ensures NetInv(nets[|acts|]) && GoodNet(nets[|acts|])
    decreases |acts|
  {
    hide NetInv, Enabled, Do;
    RunNetInv(limits, nets, acts, maxAge);
    if |acts| > 0 {
      hide GoodNet;
      var n := |acts| - 1;
      RunGood(limits, nets[..n + 1], acts[..n], maxAge);
      ActionGood(nets[n], acts[n], maxAge);
    }
  }

  // -------------------------------------------------------------- main results

  /** In every run, a packet on the wire fits a frame, and its receiver finds nothing wrong with the message itself. */
  lemma PacketsAreInOrder(limits: map<Endpoint, Limits>, nets: seq<Net>, acts: seq<Action>, maxAge: nat, p: Packet)
    requires IsRun(limits, nets, acts, maxAge) && p in nets[|acts|].wire
    ensures InOrderMessage(p.message, p.from) && RefuseEarly(p.message, p.from).None?
    ensures FrameLength(p.from, p.message.id, p.message.payload, p.message.createdAt) <= 327680
  {
    hide NetInv, Enabled, Do, FrameLength, Threaded, GoodNode;
    RunGood(limits, nets, acts, maxAge);
    assert GoodMessage(p.from, p.message);
  }

  /** Some attempt for the message was answered with a conflict. */
  ghost predicate ConflictAnswered(acts: seq<Action>, n: Endpoint, id: MessageId) {
    exists t :: 0 <= t < |acts| && IsConflict(acts[t], n, id)
  }

  predicate IsConflict(act: Action, n: Endpoint, id: MessageId) {
    act.Resolve? && act.attempt.owner == n && act.attempt.message.id == id && act.answer.envelope == Reject(id, RejectConflict)
  }

  ghost predicate RefusalsExplained(net: Net, acts: seq<Action>) {
    forall n, e | n in net.nodes && (e in net.nodes[n].durable || net.nodes[n].torn == Some(e)) && e.state == DeliveryState.Refused ::
      ConflictAnswered(acts, n, e.id)
  }

  lemma WrittenRefused(j: JournalState, op: Op, now: nat)
    requires !(op.Finish? && op.how == DeliveryState.Refused)
    ensures EntryWritten(j, op, now).state != DeliveryState.Refused
  {
  }

  /** A node's step writes a refusal only if that is its operation. */
  lemma NodeStepRefusals(net: Net, n: Endpoint, op: Op, acts: seq<Action>)
    requires n in net.nodes && RefusalsExplained(net, acts)
    requires op.Finish? && op.how == DeliveryState.Refused ==> ConflictAnswered(acts, n, op.id)
    ensures RefusalsExplained(NodeStep(net, n, op), acts)
  {
    hide Step, EntryWritten, ConflictAnswered;
    forall e | (e in Step(net.nodes[n], op, net.now).j.durable || Step(net.nodes[n], op, net.now).j.torn == Some(e)) && e.state == DeliveryState.Refused
      ensures ConflictAnswered(acts, n, e.id)
    {
      WrittenByStep(net.nodes[n], op, net.now, e);
      if op.Finish? && op.how == DeliveryState.Refused {
        FinishWrites(net.nodes[n], op, net.now);
      } else {
        WrittenRefused(net.nodes[n], op, net.now);
      }
    }
  }

  lemma FinishWrites(j: JournalState, op: Op, now: nat)
    requires op.Finish?
    ensures EntryWritten(j, op, now).id == op.id
  {
  }

  lemma MoreActions(net: Net, acts: seq<Action>, act: Action)
    requires RefusalsExplained(net, acts)
    ensures RefusalsExplained(net, acts + [act])
  {
    forall n, e | n in net.nodes && (e in net.nodes[n].durable || net.nodes[n].torn == Some(e)) && e.state == DeliveryState.Refused
      ensures ConflictAnswered(acts + [act], n, e.id)
    {
      var t :| 0 <= t < |acts| && IsConflict(acts[t], n, e.id);
      assert (acts + [act])[t] == acts[t];
    }
  }

  /** The answer an attempt ends with verifies, so only a conflict refuses its message. */
  lemma ResolveRefusal(net: Net, acts: seq<Action>, a: Attempt, answer: Answer, maxAge: nat, next: nat, io: AppendIo)
    requires GoodNet(net) && Enabled(net, Resolve(a, answer, next, io), maxAge)
    ensures var op := ResolveOp(net.nodes[a.owner], a, answer.envelope, next, io);
            op.Finish? && op.how == DeliveryState.Refused ==>
              op.id == a.message.id && ConflictAnswered(acts + [Resolve(a, answer, next, io)], a.owner, a.message.id)
  {
    hide GoodNode, GoodMessage, VerifyReceipt;
    assert AnswersAttempt(a, answer);
    var more := acts + [Resolve(a, answer, next, io)];
    assert more[|acts|] == Resolve(a, answer, next, io);
    if answer.envelope == Reject(a.message.id, RejectConflict) {
      assert IsConflict(more[|acts|], a.owner, a.message.id);
    }
  }

  lemma SendRefusals(net: Net, n: Endpoint, op: Op, acts: seq<Action>)
    requires n in net.nodes && op.Enqueue? && RefusalsExplained(net, acts)
    ensures RefusalsExplained(SendStep(net, n, op), acts)
  {
    hide Step, ConflictAnswered, MaySend;
    NodeStepRefusals(net, n, op, acts);
  }

  lemma DeliverRefusals(net: Net, p: Packet, io: AppendIo, acts: seq<Action>)
    requires p.to in net.nodes && RefusalsExplained(net, acts)
    ensures RefusalsExplained(DeliverStep(net, p, io), acts)
  {
    hide Step, ConflictAnswered, RefuseEarly;
    NodeStepRefusals(net, p.to, Accept(p.from, p.message.id, p.message.payload, io), acts);
  }

  lemma ActionRefusals(net: Net, act: Action, maxAge: nat, acts: seq<Action>)
    requires GoodNet(net) && Enabled(net, act, maxAge) && RefusalsExplained(net, acts)
    ensures RefusalsExplained(Do(net, act, maxAge), acts + [act])
  {
    hide GoodNet, NodeStep, SendStep, DeliverStep, ConflictAnswered, ResolveOp, RefusalsExplained;
    var more := acts + [act];
    MoreActions(net, acts, act);
    SameNodesExplained(net, more);
    match act
    case Local(n, op) => NodeStepRefusals(net, n, op, more);
    case Send(n, peer, id, payload, addr, lease, io) => SendRefusals(net, n, Enqueue(id, payload, peer, addr, lease, io), more);
    case Deliver(p, io) => DeliverRefusals(net, p, io, more);
    case Resolve(a, answer, next, io) =>
      ResolveRefusal(net, acts, a, answer, maxAge, next, io);
      NodeStepRefusals(net.(attempts := net.attempts - {a}), a.owner, ResolveOp(net.nodes[a.owner], a, answer.envelope, next, io), more);
    case GiveUp(a, next) =>
      NodeStepRefusals(net.(attempts := net.attempts - {a}), a.owner, NoteFailed(a.message.id, next), more);
    case _ =>
  }

  lemma SameNodesExplained(net: Net, acts: seq<Action>)
    requires RefusalsExplained(net, acts)
    ensures forall other: Net | other.nodes == net.nodes :: RefusalsExplained(other, acts)
  {
    hide ConflictAnswered;
  }

  /** In every run a message is refused only because one of its attempts was answered with a conflict: never by a quota
      reject, never by a receipt, and never for its size, sender or hash. */
  lemma {:induction false} RefusedOnlyByConflict(limits: map<Endpoint, Limits>, nets: seq<Net>, acts: seq<Action>, maxAge: nat)
    requires IsRun(limits, nets, acts, maxAge)
    ensures RefusalsExplained(nets[|acts|], acts)
    decreases |acts|
  {
    hide Enabled, Do, NetInv, ConflictAnswered;
    if |acts| > 0 {
      hide GoodNet, RefusalsExplained;
      var n := |acts| - 1;
      RefusedOnlyByConflict(limits, nets[..n + 1], acts[..n], maxAge);
      RunGood(limits, nets[..n + 1], acts[..n], maxAge);
      ActionRefusals(nets[n], acts[n], maxAge, acts[..n]);
      assert acts[..n] + [acts[n]] == acts;
    }
  }

  /** A message whose attempts were answered with quota rejects and nothing else is not Refused. */
  lemma QuotaRejectsNeverRefuse(limits: map<Endpoint, Limits>, nets: seq<Net>, acts: seq<Action>, maxAge: nat, n: Endpoint, id: MessageId)
    requires IsRun(limits, nets, acts, maxAge) && n in nets[|acts|].nodes
    requires forall t | 0 <= t < |acts| && acts[t].Resolve? && acts[t].attempt.owner == n && acts[t].attempt.message.id == id ::
               acts[t].answer.envelope.Reject? && acts[t].answer.envelope.code == RejectQuotaExceeded
    ensures var out := nets[|acts|].nodes[n].ix.outbound; id in out ==> out[id].state != OutboundState.Refused
  {
    hide Enabled, Do, NetInv, ConflictAnswered;
    RefusedOnlyByConflict(limits, nets, acts, maxAge);
    RunNetInv(limits, nets, acts, maxAge);
    NoConflict(acts, n, id);
    var net := nets[|acts|];
    if id in net.nodes[n].ix.outbound && net.nodes[n].ix.outbound[id].state == OutboundState.Refused {
      var e := RefusedRecord(net, n, id);
      assert false;
    }
  }

  lemma NoConflict(acts: seq<Action>, n: Endpoint, id: MessageId)
    requires forall t | 0 <= t < |acts| && acts[t].Resolve? && acts[t].attempt.owner == n && acts[t].attempt.message.id == id ::
               acts[t].answer.envelope.Reject? && acts[t].answer.envelope.code == RejectQuotaExceeded
    ensures !ConflictAnswered(acts, n, id)
  {
  }

  /** A refused message has a record that says so. */
  lemma RefusedRecord(net: Net, n: Endpoint, id: MessageId) returns (e: Entry)
    requires NetInv(net) && n in net.nodes
    requires var out := net.nodes[n].ix.outbound; id in out && out[id].state == OutboundState.Refused
    ensures e in net.nodes[n].durable && e.state == DeliveryState.Refused && e.id == id
  {
    hide Inv, Replay, LegalHistory;
    var j := net.nodes[n];
    assert Inv(j, net.now);
    IndexFacts(j, net.now);
    HistoryFacts(j, net.now);
    assert Durable(j.ix.outbound[id]) == Durable(Replay(j.durable).outbound[id]);
    var q, t := TraceOutbound(j.durable, id, j.limits.retention);
    e := j.durable[t];
  }
}
