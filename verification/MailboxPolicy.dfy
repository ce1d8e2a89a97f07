/** Which pending deliveries may be worked on, given the open transaction and the quarantine. */
module MailboxPolicy {
  import opened Basics
  import opened MailboxModel

  datatype Pending = Pending(delivery: int, room: RoomId, event: EventId, roomSeq: int, replyRequired: bool)

  /** Candidates with a delivery id or sequence below one are never built. */
  type Candidate = c: Pending | c.delivery > 0 && c.roomSeq > 0 witness Pending(1, "", EventId(0), 1, true)

  datatype Quarantined = Quarantined(delivery: int, protocol: Protocol, correlation: Tag)

  datatype Evaluation = Evaluation(
    protocol: Protocol,
    open: Option<OpenTransaction>,
    actionable: seq<Candidate>,
    suppressed: set<int>,
    stuck: bool,
    shouldStartModel: bool)

  function QuarantinedIds(quarantined: seq<Quarantined>, protocol: Protocol): set<int> {
    set i | 0 <= i < |quarantined| && quarantined[i].protocol == protocol :: quarantined[i].delivery
  }

  function Without(cs: seq<Candidate>, ids: set<int>): seq<Candidate> {
    if cs == [] then []
    else (if cs[0].delivery in ids then [] else [cs[0]]) + Without(cs[1..], ids)
  }

  function Matching(cs: seq<Candidate>, delivery: int, room: RoomId): seq<Candidate> {
    if cs == [] then []
    else (if cs[0].delivery == delivery && cs[0].room == room then [cs[0]] else []) + Matching(cs[1..], delivery, room)
  }

  function InRoom(cs: seq<Candidate>, room: RoomId): seq<Candidate> {
    if cs == [] then []
    else (if cs[0].room == room then [cs[0]] else []) + InRoom(cs[1..], room)
  }

  function Deliveries(cs: seq<Candidate>): set<int> {
    set i | 0 <= i < |cs| :: cs[i].delivery
  }

  /** `None` stands for the protocol mismatch error. */
  function Evaluate(protocol: Protocol, cs: seq<Candidate>, open: Option<OpenTransaction>, quarantined: seq<Quarantined>): Option<Evaluation> {
    if open.Some? && open.value.protocol != protocol then None else
    var ids := QuarantinedIds(quarantined, protocol);
    if open.Some? then
      var tx, stuck := open.value, IsStuck(open.value);
      Some(Evaluation(protocol, open, if stuck then [] else Matching(cs, tx.delivery, tx.room),
                      ids + (Deliveries(cs) - {tx.delivery}), stuck, !stuck && tx.stage != Replied))
    else
      var actionable := Without(cs, ids);
      Some(Evaluation(protocol, None, actionable, ids, false, actionable != []))
  }

  /** Whether the list filter shows an item with this delivery id to the model. */
  predicate Shown(delivery: int, e: Evaluation) {
    delivery !in e.suppressed && (e.open.Some? ==> delivery == e.open.value.delivery)
  }

  /** The first candidate with the least delivery id. */
  function Earliest(cs: seq<Candidate>): (c: Candidate)
    requires cs != []
    ensures c in cs && forall d | d in cs :: c.delivery <= d.delivery
  {
    if |cs| == 1 then cs[0] else
    var rest := Earliest(cs[1..]);
    if rest.delivery < cs[0].delivery then rest else cs[0]
  }

  lemma {:induction false} WithoutMembers(cs: seq<Candidate>, ids: set<int>, c: Candidate)
    ensures c in Without(cs, ids) <==> c in cs && c.delivery !in ids
  {
    if cs != [] {
      WithoutMembers(cs[1..], ids, c);
    }
  }

  lemma {:induction false} MatchingMembers(cs: seq<Candidate>, delivery: int, room: RoomId, c: Candidate)
    ensures c in Matching(cs, delivery, room) <==> c in cs && c.delivery == delivery && c.room == room
  {
    if cs != [] {
      MatchingMembers(cs[1..], delivery, room, c);
    }
  }

  lemma {:induction false} InRoomMembers(cs: seq<Candidate>, room: RoomId, c: Candidate)
    ensures c in InRoom(cs, room) <==> c in cs && c.room == room
  {
    if cs != [] {
      InRoomMembers(cs[1..], room, c);
    }
  }

  /** A pending delivery is actionable exactly when nothing else is open, it is not stuck, and it is not quarantined
      (an open delivery stays actionable even if it is also quarantined). */
  lemma ActionableMeaning(protocol: Protocol, cs: seq<Candidate>, open: Option<OpenTransaction>, quarantined: seq<Quarantined>, c: Candidate)
    requires c in cs && (open.Some? ==> open.value.protocol == protocol)
    ensures var e := Evaluate(protocol, cs, open, quarantined);
            && e.Some?
            && (c in e.value.actionable <==>
                if open.Some? then c.delivery == open.value.delivery && c.room == open.value.room && !IsStuck(open.value)
                else c.delivery !in QuarantinedIds(quarantined, protocol))
  {
    if open.Some? {
      MatchingMembers(cs, open.value.delivery, open.value.room, c);
    } else {
      WithoutMembers(cs, QuarantinedIds(quarantined, protocol), c);
    }
  }

  /** What an evaluation says besides: which deliveries to hold back, whether the transaction is stuck, and whether there is
      anything for the model to do. */
  lemma EvaluationMeaning(protocol: Protocol, cs: seq<Candidate>, open: Option<OpenTransaction>, quarantined: seq<Quarantined>, d: int)
    requires open.Some? ==> open.value.protocol == protocol
    ensures var e := Evaluate(protocol, cs, open, quarantined).value;
            var held := exists i :: 0 <= i < |quarantined| && quarantined[i].delivery == d && quarantined[i].protocol == protocol;
            && (d in e.suppressed <==> held || (open.Some? && d != open.value.delivery && exists c :: c in cs && c.delivery == d))
            && (e.stuck <==> open.Some? && open.value.failures >= 5)
            && (open.Some? ==> (e.shouldStartModel <==> open.value.failures < 5 && open.value.stage != Replied))
            && (open.None? ==> (e.shouldStartModel <==> exists c :: c in cs && c.delivery !in QuarantinedIds(quarantined, protocol)))
  {
    var ids := QuarantinedIds(quarantined, protocol);
    if open.None? {
      forall c: Candidate
        ensures c in Without(cs, ids) <==> c in cs && c.delivery !in ids
      {
        WithoutMembers(cs, ids, c);
      }
      if Without(cs, ids) != [] {
        assert Without(cs, ids)[0] in Without(cs, ids);
      }
    }
    assert d in Deliveries(cs) <==> exists c :: c in cs && c.delivery == d;
  }

  /** The list filter agrees with the evaluation on a pending delivery, unless the open delivery is stuck, quarantined
      as well, or listed under another room. */
  lemma FilterAgreesWithEvaluation(protocol: Protocol, cs: seq<Candidate>, open: Option<OpenTransaction>, quarantined: seq<Quarantined>, c: Candidate)
    requires c in cs && (open.Some? ==> open.value.protocol == protocol)
    ensures var e := Evaluate(protocol, cs, open, quarantined).value;
            (Shown(c.delivery, e) <==> c in e.actionable) <==>
            !(open.Some? && c.delivery == open.value.delivery
              && (c.delivery in QuarantinedIds(quarantined, protocol)) == (c.room == open.value.room && !IsStuck(open.value)))
  {
    ActionableMeaning(protocol, cs, open, quarantined, c);
  }
}
