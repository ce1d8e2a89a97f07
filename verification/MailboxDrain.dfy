/** Repeated drains acknowledge exactly the receipt-only deliveries that come before the first one needing a reply. */
module MailboxDrain {
  import opened Basics
  import opened MailboxModel
  import opened MailboxPolicy
  import opened MailboxProtocol
  import opened MailboxSafety
  import opened MailboxSequential
  import opened MailboxResumption

  function Actionable(w: World, protocol: Protocol): seq<Candidate> {
    Without(ListPending(w.server), QuarantinedIds(w.store.quarantine, protocol))
  }

  /** The longest receipt-only prefix in delivery-id order: nothing at or before it needs a reply. */
  ghost function ReceiptPrefix(cs: seq<Candidate>): set<int> {
    set c | c in cs && InPrefix(cs, c.delivery) :: c.delivery
  }

  ghost predicate InPrefix(cs: seq<Candidate>, d: int) {
    forall c | c in cs && c.delivery <= d :: !c.replyRequired
  }

  ghost predicate Distinct(cs: seq<Candidate>) {
    forall c, c' | c in cs && c' in cs && c.delivery == c'.delivery :: c == c'
  }

  /** Nothing is open, the pending ids are distinct, and no other client holds a pending delivery. */
  ghost predicate Drainable(w: World, protocol: Protocol) {
    && w.store.open.None? && Distinct(Actionable(w, protocol))
    && forall c | c in Actionable(w, protocol) :: Grants(w.server, c.delivery, ClaimIdFor(w.instance, c.delivery))
  }

  function Drain(w: World, protocol: Protocol, createdAt: string): World {
    RunAlone(w, Start(DrainCall(protocol, createdAt)), []).world
  }

  function Drains(w: World, protocol: Protocol, createdAt: string, n: nat): World
    decreases n
  {
    if n == 0 then w else Drains(Drain(w, protocol, createdAt), protocol, createdAt, n - 1)
  }

  function Settled(w: World, d: int): World {
    w.(server := w.server.(claims := w.server.claims[d := ClaimIdFor(w.instance, d)], acks := w.server.acks + [d]))
  }

  // -------------------------------------------------------------- one drain

  /** A receipt-only delivery, once opened, is claimed, acknowledged and cleared. */
  lemma SettleArrives(w: World, tx: OpenTransaction, after: After)
    requires w.store.open.None? && DecoderAccepts(tx) && tx.instance == w.instance && tx.stage == Prepared && !tx.replyRequired
    requires after.Settle? && Grants(w.server, tx.delivery, tx.claimId)
    ensures RunAlone(w, Preparing(tx, after), []).world == Settled(w, tx.delivery)
  {
    hide RunAlone, FieldsOk, ClaimIdFor, ReplyKeyFor, Evaluate, MarkClaimed;
    FineStep(w, Preparing(tx, after));
    var w1 := w.(store := w.store.(open := Some(tx)));
    FineStep(w1, Claiming(tx, after));
    var w2 := w1.(server := ServeClaim(w.server, tx.delivery, tx.claimId));
    GrantedEnds(w2, tx, after);
  }

  lemma GrantedEnds(w: World, tx: OpenTransaction, after: After)
    requires w.store.open == Some(tx) && DecoderAccepts(tx) && tx.stage == Prepared && !tx.replyRequired && after.Settle?
    ensures RunAlone(w, Granted(tx, after), []).world ==
            w.(store := w.store.(open := None), server := w.server.(acks := w.server.acks + [tx.delivery]))
  {
    hide RunAlone, DecoderAccepts, Construct, Evaluate;
    MovesAdvance(tx, EventId(0), Created, "");
    var claimed := MarkClaimed(tx).tx;
    FineStep(w, Granted(tx, after));
    SettleEnds(w.(store := w.store.(open := Some(claimed))), claimed, after);
  }

  lemma SettleEnds(w: World, tx: OpenTransaction, after: After)
    requires w.store.open == Some(tx) && after.Settle?
    ensures RunAlone(w, Acking(tx, after), []).world ==
            w.(store := w.store.(open := None), server := w.server.(acks := w.server.acks + [tx.delivery]))
  {
    hide RunAlone, Evaluate;
    FineStep(w, Acking(tx, after));
    var w1 := w.(server := ServeAck(w.server, tx.delivery));
    FineStep(w1, Clearing(tx, after));
    var n := TaskStep(w1, Clearing(tx, after), Fine);
    Finished(n.world, n.task);
  }

  lemma OpenCandidate(w: World, protocol: Protocol, c: Candidate, createdAt: string, after: After)
    requires w.store.open.None? && IsTimestamp(createdAt)
    ensures var t := OpenTask(w, ClaimOf(protocol, c, createdAt), after, Fine);
            && t.Preparing? && t.after == after && DecoderAccepts(t.tx) && t.tx.instance == w.instance && t.tx.stage == Prepared
            && t.tx.delivery == c.delivery && t.tx.replyRequired == c.replyRequired
  {
    hide IsTimestamp, ClaimIdFor, ReplyKeyFor, IsReason;
  }

  /** One drain settles the earliest actionable delivery if it is receipt-only, and otherwise changes nothing. */
  lemma DrainEffect(w: World, protocol: Protocol, createdAt: string)
    requires Drainable(w, protocol) && IsTimestamp(createdAt)
    ensures var cs := Actionable(w, protocol);
            Drain(w, protocol, createdAt) ==
            if cs == [] || Earliest(cs).replyRequired then w else Settled(w, Earliest(cs).delivery)
  {
    hide RunAlone, IsTimestamp, ClaimIdFor, Without, QuarantinedIds, DecoderAccepts, Earliest, OpenTask, ListPending;
    var call, cs := DrainCall(protocol, createdAt), Actionable(w, protocol);
    FineStep(w, Start(call));
    FineStep(w, Listing(call));
    var pending := ListPending(w.server);
    FineStep(w, Choosing(call, pending));
    var t := ChooseTask(w, call, pending, Fine);
    if cs == [] || Earliest(cs).replyRequired {
      Finished(w, t);
    } else {
      var next := Earliest(cs);
      OpenCandidate(w, protocol, next, createdAt, t.after);
      FineStep(w, t);
      var p := OpenTask(w, t.call, t.after, Fine);
      TxKeys(p.tx);
      SettleArrives(w, p.tx, t.after);
    }
  }

  lemma TxKeys(tx: OpenTransaction)
    requires DecoderAccepts(tx)
    ensures tx.claimId == ClaimIdFor(tx.instance, tx.delivery)
  {
    hide ClaimIdFor, ReplyKeyFor, FieldsOk;
  }

  // ------------------------------------------------------------ many drains

  /** Settling removes exactly that delivery from what is actionable. */
  lemma SettledLeaves(w: World, protocol: Protocol, d: int, c: Candidate)
    ensures c in Actionable(Settled(w, d), protocol) <==> c in Actionable(w, protocol) && c.delivery != d
  {
    hide Without, QuarantinedIds, ClaimIdFor;
    var ids, w' := QuarantinedIds(w.store.quarantine, protocol), Settled(w, d);
    WithoutMembers(ListPending(w.server), ids, c);
    WithoutMembers(ListPending(w'.server), ids, c);
    WithoutMembers(w.server.mailbox, Acked(w.server.acks), c);
    WithoutMembers(w.server.mailbox, Acked(w'.server.acks), c);
    AckedSnoc(w.server.acks, d);
  }

  lemma AckedSnoc(acks: seq<int>, d: int)
    ensures Acked(acks + [d]) == Acked(acks) + {d}
  {
    var more := acks + [d];
    assert forall i | 0 <= i < |acks| :: more[i] == acks[i];
    assert more[|acks|] == d;
  }

  lemma SettledDrainable(w: World, protocol: Protocol, d: int)
    requires Drainable(w, protocol)
    ensures Drainable(Settled(w, d), protocol)
  {
    hide Actionable, ClaimIdFor;
    forall c | c in Actionable(Settled(w, d), protocol)
      ensures c in Actionable(w, protocol) && c.delivery != d
    {
      SettledLeaves(w, protocol, d, c);
    }
  }

  lemma SettledPrefix(w: World, protocol: Protocol)
    requires Drainable(w, protocol) && Actionable(w, protocol) != [] && !Earliest(Actionable(w, protocol)).replyRequired
    ensures var cs := Actionable(w, protocol);
            var d := Earliest(cs).delivery;
            && d in ReceiptPrefix(cs) && (forall d' | d' in ReceiptPrefix(cs) :: d <= d')
            && ReceiptPrefix(Actionable(Settled(w, d), protocol)) == ReceiptPrefix(cs) - {d}
  {
    hide Actionable, Settled, Grants, Earliest;
    var cs := Actionable(w, protocol);
    var first := Earliest(cs);
    var d := first.delivery;
    var cs' := Actionable(Settled(w, d), protocol);
    forall c: Candidate
      ensures c in cs' <==> c in cs && c.delivery != d
    {
      SettledLeaves(w, protocol, d, c);
    }
    assert InPrefix(cs, d) by {
      assert forall c | c in cs && c.delivery <= d :: c == first;
    }
    assert forall e :: InPrefix(cs', e) == InPrefix(cs, e) by {
      forall e
        ensures InPrefix(cs', e) == InPrefix(cs, e)
      {
        assert InPrefix(cs', e) ==> forall c | c in cs && c.delivery <= e :: c in cs' || c.delivery == d;
        assert forall c | c in cs && c.delivery == d :: c == first;
      }
    }
  }

  lemma NoPrefix(cs: seq<Candidate>)
    requires cs == [] || Earliest(cs).replyRequired
    ensures ReceiptPrefix(cs) == {}
  {
    hide Earliest;
    if cs != [] {
      var first := Earliest(cs);
      forall c | c in cs
        ensures !InPrefix(cs, c.delivery)
      {
        assert first in cs && first.delivery <= c.delivery;
      }
    }
  }

  ghost predicate Increasing(ds: seq<int>) {
    forall i, j | 0 <= i < j < |ds| :: ds[i] < ds[j]
  }

  function ClaimAll(claims: map<int, Tag>, instance: Instance, ds: seq<int>): map<int, Tag>
    decreases |ds|
  {
    if ds == [] then claims else ClaimAll(claims[ds[0] := ClaimIdFor(instance, ds[0])], instance, ds[1..])
  }

  /** `ds` is the first `n` of the prefix, in order. */
  ghost predicate FirstOf(ds: seq<int>, prefix: set<int>, n: nat) {
    && Increasing(ds) && |ds| == (if n < |prefix| then n else |prefix|)
    && (forall d | d in ds :: d in prefix) && forall d, d' | d in ds && d' in prefix && d' < d :: d' in ds
  }

  lemma FirstOfCons(d: int, ds: seq<int>, prefix: set<int>, n: nat)
    requires d in prefix && (forall d' | d' in prefix :: d <= d') && FirstOf(ds, prefix - {d}, n)
    ensures FirstOf([d] + ds, prefix, n + 1)
  {
    var all := [d] + ds;
    assert |prefix - {d}| == |prefix| - 1;
    assert forall i | 0 <= i < |ds| :: ds[i] in ds && ds[i] in prefix - {d};
    assert forall e | e in all :: e == d || e in ds;
    assert forall e | e in ds :: e in all;
    assert d in all;
  }

  /** Repeating the drain on a fixed pending set acknowledges, in delivery-id order, the first `n` of the longest
      receipt-only prefix of the deliveries that are not quarantined, claims exactly those, and touches nothing else. */
  lemma {:induction false} DrainsAcknowledgePrefix(w: World, protocol: Protocol, createdAt: string, n: nat) returns (ds: seq<int>)
    requires Drainable(w, protocol) && IsTimestamp(createdAt)
    ensures FirstOf(ds, ReceiptPrefix(Actionable(w, protocol)), n)
    ensures Drains(w, protocol, createdAt, n) ==
            w.(server := w.server.(claims := ClaimAll(w.server.claims, w.instance, ds), acks := w.server.acks + ds))
    decreases n
  {
    hide Drain, Actionable, IsTimestamp, Earliest, FirstOf, ReceiptPrefix, ClaimIdFor, Drainable;
    var cs := Actionable(w, protocol);
    ds := [];
    if n == 0 {
      NoneOf(ReceiptPrefix(cs), 0);
    } else {
      DrainEffect(w, protocol, createdAt);
      if cs == [] || Earliest(cs).replyRequired {
        NoPrefix(cs);
        NoneOf({}, n);
        IdleDrains(w, protocol, createdAt, n);
      } else {
        var d := Earliest(cs).delivery;
        SettledPrefix(w, protocol);
        SettledDrainable(w, protocol, d);
        var rest := DrainsAcknowledgePrefix(Settled(w, d), protocol, createdAt, n - 1);
        ds := [d] + rest;
        FirstOfCons(d, rest, ReceiptPrefix(cs), n - 1);
        assert ds[1..] == rest && w.server.acks + [d] + rest == w.server.acks + ds;
      }
    }
  }

  lemma NoneOf(prefix: set<int>, n: nat)
    requires n == 0 || prefix == {}
    ensures FirstOf([], prefix, n)
  {
  }

  lemma {:induction false} IdleDrains(w: World, protocol: Protocol, createdAt: string, n: nat)
    requires Drain(w, protocol, createdAt) == w
    ensures Drains(w, protocol, createdAt, n) == w
  {
    if n > 0 {
      IdleDrains(w, protocol, createdAt, n - 1);
    }
  }

  /** Enough drains acknowledge the whole prefix and nothing beyond it. */
  lemma EnoughDrains(w: World, protocol: Protocol, createdAt: string, n: nat)
    requires Drainable(w, protocol) && IsTimestamp(createdAt) && n >= |ReceiptPrefix(Actionable(w, protocol))|
    ensures Acked(Drains(w, protocol, createdAt, n).server.acks) == Acked(w.server.acks) + ReceiptPrefix(Actionable(w, protocol))
  {
    hide Drains, Actionable, IsTimestamp, ReceiptPrefix, Drainable, ClaimAll;
    var ds := DrainsAcknowledgePrefix(w, protocol, createdAt, n);
    var prefix := ReceiptPrefix(Actionable(w, protocol));
    AllOfThem(ds, prefix);
    AckedJoin(w.server.acks, ds);
  }

  lemma {:induction false} AllOfThem(ds: seq<int>, prefix: set<int>)
    requires Increasing(ds) && |ds| == |prefix| && forall d | d in ds :: d in prefix
    ensures Acked(ds) == prefix
    decreases |ds|
  {
    if ds == [] {
      assert prefix == {};
    } else {
      var front, last := ds[..|ds| - 1], ds[|ds| - 1];
      assert ds == front + [last];
      assert forall d | d in front :: d in ds;
      AllOfThem(front, prefix - {last});
      AckedSnoc(front, last);
    }
  }

  lemma {:induction false} AckedJoin(acks: seq<int>, ds: seq<int>)
    ensures Acked(acks + ds) == Acked(acks) + Acked(ds)
  {
    if ds == [] {
      assert acks + ds == acks;
    } else {
      var front, last := ds[..|ds| - 1], ds[|ds| - 1];
      AckedJoin(acks, front);
      assert acks + ds == (acks + front) + [last] && ds == front + [last];
      AckedSnoc(acks + front, last);
      AckedSnoc(front, last);
    }
  }

  // ------------------------------------------- a drain never claims for a reply

  /** What a drain may be doing, from the world it began in. */
  ghost predicate DrainTask(w0: World, w: World, t: Task, protocol: Protocol) {
    match t
    case Start(call) => call.DrainCall? && call.protocol == protocol && w == w0
    case Listing(call) => call.DrainCall? && call.protocol == protocol && w == w0 && w.store.open.None?
    case Choosing(call, candidates) =>
      call.DrainCall? && call.protocol == protocol && w == w0 && w.store.open.None? && candidates == ListPending(w.server)
    case Opening(call, _) => w == w0 && w.store.open.None? && call.ClaimCall? && IsNext(w0, protocol, call.delivery)
    case Preparing(tx, _) => w.server == w0.server && IsNext(w0, protocol, tx.delivery)
    case Claiming(tx, _) => w.server == w0.server && IsNext(w0, protocol, tx.delivery)
    case Granted(_, _) => true
    case _ => Quiet(t)
  }

  predicate IsNext(w: World, protocol: Protocol, d: int) {
    var cs := Actionable(w, protocol);
    cs != [] && Earliest(cs).delivery == d && !Earliest(cs).replyRequired
  }

  ghost predicate OnlyNextClaimed(w0: World, w: World, protocol: Protocol) {
    && w.server.events == w0.server.events
    && forall d | d in w.server.claims :: IsNext(w0, protocol, d) || (d in w0.server.claims && w.server.claims[d] == w0.server.claims[d])
  }

  lemma DrainReads(w0: World, t: Task, f: Fault, protocol: Protocol)
    requires DrainTask(w0, w0, t, protocol) && (t.Start? || t.Listing? || t.Choosing? || t.Opening?)
    ensures DrainTask(w0, w0, ReadTask(w0, t, f), protocol)
  {
    hide Without, Earliest, QuarantinedIds, ListPending, ClaimIdFor, ReplyKeyFor, FieldsOk;
  }

  lemma DrainActs(w0: World, w: World, t: Task, f: Fault, protocol: Protocol)
    requires DrainTask(w0, w, t, protocol) && OnlyNextClaimed(w0, w, protocol) && !t.Done?
    requires !(t.Start? || t.Listing? || t.Choosing? || t.Opening?)
    ensures var n := TaskStep(w, t, f); DrainTask(w0, n.world, n.task, protocol) && OnlyNextClaimed(w0, n.world, protocol)
  {
    hide IsNext, Evaluate, Construct, ListPending, ReadTask;
  }

  /** The call asks for no reply, and for no claim but that of the earliest actionable delivery that needs none. */
  predicate DrainAsks(w0: World, task: Task, protocol: Protocol) {
    !task.Replying? && !task.LookingUp? && (task.Claiming? ==> IsNext(w0, protocol, task.tx.delivery))
  }

  lemma {:induction false} DrainRuns(w0: World, w: World, t: Task, faults: seq<Fault>, protocol: Protocol)
    requires DrainTask(w0, w, t, protocol) && OnlyNextClaimed(w0, w, protocol)
    ensures OnlyNextClaimed(w0, RunAlone(w, t, faults).world, protocol)
    ensures forall task | task in Tasks(w, t, faults) :: DrainAsks(w0, task, protocol)
    decreases StepsLeft(t)
  {
    hide OnlyNextClaimed, ReadTask, RequestStep, WriteStep, IsNext, ListPending;
    if !t.Done? {
      var f := FirstFault(faults);
      var n := TaskStep(w, t, f);
      if t.Start? || t.Listing? || t.Choosing? || t.Opening? {
        if !f.Crash? {
          DrainReads(w0, t, f, protocol);
        }
      } else {
        DrainActs(w0, w, t, f, protocol);
      }
      DrainRuns(w0, n.world, n.task, LaterFaults(faults), protocol);
    }
  }

  /** Whatever fails, a drain makes no reply or lookup request and asks to claim at most the earliest actionable delivery,
      and that only if it needs no reply; so it newly claims no other, and no reply appears. */
  lemma DrainNeverClaimsForReply(w: World, protocol: Protocol, createdAt: string, faults: seq<Fault>)
    ensures forall task | task in Tasks(w, Start(DrainCall(protocol, createdAt)), faults) :: DrainAsks(w, task, protocol)
    ensures OnlyNextClaimed(w, RunAlone(w, Start(DrainCall(protocol, createdAt)), faults).world, protocol)
  {
    hide RunAlone, IsNext, Tasks;
    DrainRuns(w, w, Start(DrainCall(protocol, createdAt)), faults, protocol);
  }
}
