/** What holds in every run of the delivery protocol, and exactly when settlement can be trusted. */
module DeliveryRuns {
  import opened Basics
  import opened PeerTypes
  import opened JournalIndex
  import opened JournalHistory
  import opened JournalSpec
  import opened JournalInvariant
  import opened JournalRuns
  import opened JournalGuarantees
  import opened Delivery

  // ------------------------------------------------------------- settlement

  /** Every attempt ends before the sender could have dropped the record it was made for. */
  ghost predicate AttemptsEndInTime(nodes: map<Endpoint, JournalState>, maxAge: nat) {
    forall n | n in nodes :: maxAge < nodes[n].limits.retention
  }

  lemma SettledStays(nodes: map<Endpoint, JournalState>, nodes': map<Endpoint, JournalState>, n: Endpoint, e: Entry)
    requires Extends(nodes, nodes') && SettledIsBacked(nodes, n, e)
    ensures SettledIsBacked(nodes', n, e)
  {
    hide Backed, Extends;
    if e.state == DeliveryState.Settled && e.peer.Some? {
      BackedStays(nodes, nodes', e.peer.value, n, e.id, e.hash);
    }
  }

  lemma NodeStepSettlement(net: Net, n: Endpoint, op: Op)
    requires n in net.nodes && NoFalseSettlement(net.nodes)
    requires !op.Restart? ==> SettledIsBacked(net.nodes, n, EntryWritten(net.nodes[n], op, net.now))
    ensures NoFalseSettlement(NodeStep(net, n, op).nodes)
  {
    hide Step, SettledIsBacked, EntryWritten, Extends;
    var nodes, nodes' := net.nodes, NodeStep(net, n, op).nodes;
    StepExtends(net, n, op);
    forall m, e | m in nodes' && (e in nodes'[m].durable || nodes'[m].torn == Some(e))
      ensures SettledIsBacked(nodes', m, e)
    {
      if m == n {
        WrittenByStep(nodes[n], op, net.now, e);
      }
      SettledStays(nodes, nodes', m, e);
    }
  }

  lemma NotSettledWritten(j: JournalState, op: Op, now: nat, nodes: map<Endpoint, JournalState>, n: Endpoint)
    requires !(op.Finish? && op.how == DeliveryState.Settled)
    ensures SettledIsBacked(nodes, n, EntryWritten(j, op, now))
  {
  }

  /** The record the attempt settles is the one it was made for, and the receipt proves the peer has it. */
  lemma ResolveIsBacked(net: Net, a: Attempt, answer: Answer, maxAge: nat, next: nat, io: AppendIo)
    requires NetInv(net) && AttemptsEndInTime(net.nodes, maxAge)
    requires Enabled(net, Resolve(a, answer, next, io), maxAge)
    ensures var j := net.nodes[a.owner];
            SettledIsBacked(net.nodes, a.owner, EntryWritten(j, ResolveOp(j, a, answer.envelope, next, io), net.now))
  {
    hide Inv, Backed, Replay, Tied;
    var j := net.nodes[a.owner];
    assert AttemptOk(net.nodes, a, net.now) && AnswerOk(net.nodes, answer);
    AttemptStillTied(j, net.now, a);
  }

  /** A record that has not had time to go stale is the one its attempt was made for. */
  lemma AttemptStillTied(j: JournalState, now: nat, a: Attempt)
    requires Inv(j, now) && Tied(Replay(j.durable).outbound, a, j.limits.retention, now) && now < a.started + j.limits.retention
    ensures a.message.id in j.ix.outbound ==>
              j.ix.outbound[a.message.id].hash == a.message.hash && j.ix.outbound[a.message.id].peer == a.peer
  {
    hide Inv, Replay;
    IndexFacts(j, now);
    if a.message.id in j.ix.outbound {
      assert Durable(j.ix.outbound[a.message.id]) == Durable(Replay(j.durable).outbound[a.message.id]);
    }
  }

  lemma ActionSettlement(net: Net, act: Action, maxAge: nat)
    requires NetInv(net) && AttemptsEndInTime(net.nodes, maxAge) && Enabled(net, act, maxAge) && NoFalseSettlement(net.nodes)
    ensures NoFalseSettlement(Do(net, act, maxAge).nodes)
  {
    hide NetInv, Step, SettledIsBacked, EntryWritten, ResolveOp, NoFalseSettlement;
    match act
    case Local(n, op) =>
      if !op.Restart? {
        NotSettledWritten(net.nodes[n], op, net.now, net.nodes, n);
      }
      NodeStepSettlement(net, n, op);
    case Send(n, peer, id, payload, addr, lease, io) =>
      var op := Enqueue(id, payload, peer, addr, lease, io);
      NotSettledWritten(net.nodes[n], op, net.now, net.nodes, n);
      NodeStepSettlement(net, n, op);
    case Deliver(p, io) =>
      var op := Accept(p.from, p.message.id, p.message.payload, io);
      NotSettledWritten(net.nodes[p.to], op, net.now, net.nodes, p.to);
      NodeStepSettlement(net, p.to, op);
    case Resolve(a, answer, next, io) =>
      ResolveIsBacked(net, a, answer, maxAge, next, io);
      ResolveIsNoRestart(net.nodes[a.owner], a, answer.envelope, next, io);
      NodeStepSettlement(net.(attempts := net.attempts - {a}), a.owner, ResolveOp(net.nodes[a.owner], a, answer.envelope, next, io));
    case GiveUp(a, next) =>
      NotSettledWritten(net.nodes[a.owner], NoteFailed(a.message.id, next), net.now, net.nodes, a.owner);
      NodeStepSettlement(net.(attempts := net.attempts - {a}), a.owner, NoteFailed(a.message.id, next));
    case _ =>
  }

  lemma ResolveIsNoRestart(j: JournalState, a: Attempt, envelope: Envelope, next: nat, io: AppendIo)
    ensures !ResolveOp(j, a, envelope, next, io).Restart?
  {
  }

  // -------------------------------------------------------------------- runs

  function InitialNet(limits: map<Endpoint, Limits>): Net {
    Net(map n | n in limits :: InitialState(limits[n]), 0, {}, 0, {}, {}, [])
  }

  /** `nets` is a run: it starts empty and every state follows from the one before by an enabled action. */
  ghost predicate IsRun(limits: map<Endpoint, Limits>, nets: seq<Net>, acts: seq<Action>, maxAge: nat) {
    && |nets| == |acts| + 1 && nets[0] == InitialNet(limits)
    && forall i | 0 <= i < |acts| :: Enabled(nets[i], acts[i], maxAge) && nets[i + 1] == Do(nets[i], acts[i], maxAge)
  }

  lemma InitialNetInv(limits: map<Endpoint, Limits>)
    ensures NetInv(InitialNet(limits)) && NoFalseSettlement(InitialNet(limits).nodes)
  {
    hide Inv;
    forall n | n in limits
      ensures Inv(InitialState(limits[n]), 0)
    {
      InitialInv(limits[n], 0);
    }
  }

  ghost predicate SameLimits(nodes: map<Endpoint, JournalState>, limits: map<Endpoint, Limits>) {
    nodes.Keys == limits.Keys && forall n | n in nodes :: nodes[n].limits == limits[n]
  }

  lemma ActionLimits(net: Net, act: Action, maxAge: nat, limits: map<Endpoint, Limits>)
    requires SameLimits(net.nodes, limits) && Enabled(net, act, maxAge)
    ensures SameLimits(Do(net, act, maxAge).nodes, limits)
  {
    hide Step;
    forall n, op | n in net.nodes
      ensures Step(net.nodes[n], op, net.now).j.limits == net.nodes[n].limits
    {
      StepLimits(net.nodes[n], op, net.now);
    }
  }

  lemma {:induction false} RunNetInv(limits: map<Endpoint, Limits>, nets: seq<Net>, acts: seq<Action>, maxAge: nat)
    requires IsRun(limits, nets, acts, maxAge)
    ensures NetInv(nets[|acts|]) && SameLimits(nets[|acts|].nodes, limits)
    ensures (forall n | n in limits :: maxAge < limits[n].retention) ==> NoFalseSettlement(nets[|acts|].nodes)
    decreases |acts|
  {
    hide NetInv, Enabled, Do, NoFalseSettlement;
    InitialNetInv(limits);
    if |acts| > 0 {
      var n := |acts| - 1;
      RunNetInv(limits, nets[..n + 1], acts[..n], maxAge);
      ActionInv(nets[n], acts[n], maxAge);
      ActionLimits(nets[n], acts[n], maxAge, limits);
      if forall n | n in limits :: maxAge < limits[n].retention {
        ActionSettlement(nets[n], acts[n], maxAge);
      }
    }
  }

  // ----------------------------------------------------- end to end, at most once

  /** If every copy of one enqueued message is handled before its enqueue time plus the receiver's retention, the receiver
      returns Accepted for it at most once, whatever the network and crashes do. */
  lemma AcceptedAtMostOnce(limits: map<Endpoint, Limits>, nets: seq<Net>, acts: seq<Action>, maxAge: nat, i: nat, j: nat)
    requires IsRun(limits, nets, acts, maxAge)
    requires var accepted := nets[|acts|].accepted;
             && i < |accepted| && j < |accepted|
             && accepted[i].receiver == accepted[j].receiver && accepted[i].message == accepted[j].message
             && accepted[i].receiver in limits
             && accepted[i].time < accepted[i].message.createdAt + limits[accepted[i].receiver].retention
             && accepted[j].time < accepted[j].message.createdAt + limits[accepted[j].receiver].retention
    ensures i == j
  {
    hide Inv, Enabled, Do;
    RunNetInv(limits, nets, acts, maxAge);
    var net := nets[|acts|];
    if i != j {
      SecondAcceptanceIsLate(net, if i < j then i else j, if i < j then j else i);
    }
  }

  lemma SecondAcceptanceIsLate(net: Net, i: nat, j: nat)
    requires NetInv(net) && i < j < |net.accepted|
    requires net.accepted[i].receiver == net.accepted[j].receiver && net.accepted[i].receiver in net.nodes
    requires net.accepted[i].message.sender == net.accepted[j].message.sender && net.accepted[i].message.id == net.accepted[j].message.id
    ensures net.accepted[i].message.createdAt + net.nodes[net.accepted[i].receiver].limits.retention <= net.accepted[j].time
  {
    hide Inv;
    var a, b := net.accepted[i], net.accepted[j];
    assert AcceptanceOk(net.nodes, a) && AcceptanceOk(net.nodes, b);
    var node := net.nodes[a.receiver];
    HistoryFacts(node, net.now);
    var c := AcceptancesAreSpaced(node.durable, Key(a.message.sender, a.message.id), a.pos, b.pos, node.limits.retention);
    assert node.durable[a.pos].ts <= node.durable[c].ts;
  }

  /** With honest receivers, when a sender's journal holds a message as Settled, the peer it was queued for had made it
      durable with the same sender, id and payload hash: in every run in which attempts end within the retention time. */
  lemma SettledMeansReceived(limits: map<Endpoint, Limits>, nets: seq<Net>, acts: seq<Action>, maxAge: nat, n: Endpoint, id: MessageId)
    requires IsRun(limits, nets, acts, maxAge) && forall n | n in limits :: maxAge < limits[n].retention
    requires n in nets[|acts|].nodes
    requires var out := nets[|acts|].nodes[n].ix.outbound; id in out && out[id].state == OutboundState.Settled
    ensures var r := nets[|acts|].nodes[n].ix.outbound[id]; Backed(nets[|acts|].nodes, r.peer, n, id, r.hash)
  {
    hide Inv, Enabled, Do, Backed, Replay;
    RunNetInv(limits, nets, acts, maxAge);
    var net := nets[|acts|];
    var j := net.nodes[n];
    var r, es := j.ix.outbound[id], j.durable;
    IndexFacts(j, net.now);
    HistoryFacts(j, net.now);
    assert Durable(r) == Durable(Replay(es).outbound[id]);
    var q, t := TraceOutbound(es, id, j.limits.retention);
    assert SettledIsBacked(net.nodes, n, es[t]);
    assert Legal(Replay(es[..t]), es[t], j.limits.retention);
    TerminalKeepsIdentity(es, id, q, t, j.limits.retention);
  }

  /** A terminal record repeats the hash and peer of the enqueue it ends. */
  lemma TerminalKeepsIdentity(es: seq<Entry>, id: MessageId, q: nat, t: nat, retention: nat)
    requires LegalHistory(es, retention) && q < t < |es| && Enqueues(es[q], id) && Finishes(es[t], id)
    requires forall i | q < i < |es| :: !Enqueues(es[i], id)
    ensures es[t].hash == es[q].hash && es[t].peer == es[q].peer
  {
    hide Replay;
    var before := es[..t];
    assert Legal(Replay(before), es[t], retention);
    LegalHistoryPrefix(es, t, retention);
    var q', t' := TraceOutbound(before, id, retention);
    assert q' == q by {
      assert Enqueues(before[q], id) && Enqueues(es[q'], id);
    }
  }
}
