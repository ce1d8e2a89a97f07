/** The durable record of one open mailbox transaction, its deterministic keys, and the moves between its states. */
module MailboxModel {
  import opened Basics

  datatype Protocol = SelfServeDrain | CoordinatorDeliveryV1

  datatype Stage = Prepared | Claimed | Replied

  datatype Resolution = NoReply | Created | IdempotencyConflict

  type Instance = string
  type RoomId = string

  datatype EventId = EventId(number: nat)

  /** A prefixed SHA-256 digest, taken as collision free: equal exactly when prefix and hashed text are. */
  datatype Tag = Tag(prefix: string, preimage: string)

  /** `open.json`. The version field is always 1. */
  datatype OpenTransaction = OpenTransaction(
    instance: Instance,
    protocol: Protocol,
    delivery: int,
    room: RoomId,
    inboundEvent: Option<EventId>,
    inboundSeq: Option<int>,
    replyRequired: bool,
    claimId: Tag,
    replyKey: Tag,
    stage: Stage,
    replyEvent: Option<EventId>,
    resolution: Resolution,
    failures: int,
    lastReason: Option<string>,
    createdAt: string)

  datatype StoreError = NotFound | AlreadyOpen | UnsafeStorage | InvalidRecord | InvalidTransition | UnrelatedRecord

  datatype Made = Made(tx: OpenTransaction) | Refused(error: StoreError)

  const MaxFailures: int := 10_000
  const FailuresBeforeStuck: int := 5

  predicate IsStuck(tx: OpenTransaction) {
    tx.failures >= FailuresBeforeStuck
  }

  // -------------------------------------------------------------------- keys

  function Decimal(n: nat): string {
    if n < 10 then [Digit(n)] else Decimal(n / 10) + [Digit(n % 10)]
  }

  function Digit(d: nat): char
    requires d < 10
  {
    '0' + d as char
  }

  function Framed(domain: string, instance: Instance, delivery: nat): string {
    domain + ['\0'] + instance + ['\0'] + Decimal(delivery)
  }

  function ClaimIdFor(instance: Instance, delivery: int): Tag {
    Tag("claim_", Framed("triangle-claim-v1", instance, if delivery < 0 then 0 else delivery))
  }

  function ReplyKeyFor(instance: Instance, delivery: int): Tag {
    Tag("reply_", Framed("triangle-reply-v1", instance, if delivery < 0 then 0 else delivery))
  }

  lemma {:induction false} DecimalHasNoNul(n: nat)
    ensures '\0' !in Decimal(n)
  {
    if n >= 10 {
      DecimalHasNoNul(n / 10);
    }
  }

  lemma {:induction false} DecimalInjective(m: nat, n: nat)
    requires Decimal(m) == Decimal(n)
    ensures m == n
  {
    var s := Decimal(m);
    if m >= 10 && n >= 10 {
      assert Decimal(m / 10) == s[..|s| - 1] == Decimal(n / 10);
      assert Digit(m % 10) == s[|s| - 1] == Digit(n % 10);
      DecimalInjective(m / 10, n / 10);
    } else if m >= 10 {
      DecimalNotEmpty(m / 10);
    } else if n >= 10 {
      DecimalNotEmpty(n / 10);
    }
  }

  lemma DecimalNotEmpty(n: nat)
    ensures |Decimal(n)| > 0
  {
  }

  /** Text before and after the last NUL is determined by the whole. */
  lemma SplitAtLastNul(a: string, p: string, b: string, q: string)
    requires a + ['\0'] + p == b + ['\0'] + q && '\0' !in p && '\0' !in q
    ensures a == b && p == q
  {
    var s := a + ['\0'] + p;
    assert s[|a|] == '\0' && s[|b|] == '\0';
    assert |a| == |b|;
    assert a == s[..|a|] == b;
    assert p == s[|a| + 1..] == q;
  }

  lemma FramedInjective(domain: string, i: Instance, d: nat, i': Instance, d': nat)
    requires Framed(domain, i, d) == Framed(domain, i', d')
    ensures i == i' && d == d'
  {
    DecimalHasNoNul(d);
    DecimalHasNoNul(d');
    var a, b := domain + ['\0'] + i, domain + ['\0'] + i';
    SplitAtLastNul(a, Decimal(d), b, Decimal(d'));
    DecimalInjective(d, d');
    assert i == a[|domain| + 1..] && i' == b[|domain| + 1..];
  }

  /** A claim id and a reply key each name one delivery of one instance. */
  lemma KeysIdentify(i: Instance, d: int, i': Instance, d': int)
    requires d > 0 && d' > 0
    ensures ClaimIdFor(i, d) == ClaimIdFor(i', d') <==> i == i' && d == d'
    ensures ReplyKeyFor(i, d) == ReplyKeyFor(i', d') <==> i == i' && d == d'
  {
    if ClaimIdFor(i, d) == ClaimIdFor(i', d') {
      FramedInjective("triangle-claim-v1", i, d, i', d');
    }
    if ReplyKeyFor(i, d) == ReplyKeyFor(i', d') {
      FramedInjective("triangle-reply-v1", i, d, i', d');
    }
  }

  // ---------------------------------------------------------------- validity

  predicate FollowsMask(s: string, mask: string) {
    && |mask| <= |s|
    && forall i | 0 <= i < |mask| :: if mask[i] == '0' then '0' <= s[i] <= '9' else s[i] == mask[i]
  }

  /** `2026-01-31T08:30:00Z`, with an optional fraction before the `Z`. */
  predicate IsTimestamp(s: string) {
    && FollowsMask(s, "0000-00-00T00:00:00") && |s| >= 20 && s[|s| - 1] == 'Z'
    && (|s| == 20 || (|s| >= 22 && s[19] == '.' && forall i | 20 <= i < |s| - 1 :: '0' <= s[i] <= '9'))
  }

  predicate IsReason(s: string) {
    && 1 <= |s| <= 64 && 'a' <= s[0] <= 'z'
    && forall i | 0 <= i < |s| :: 'a' <= s[i] <= 'z' || '0' <= s[i] <= '9' || s[i] == '_'
  }

  /** What the record's initializer checks. */
  predicate FieldsOk(tx: OpenTransaction) {
    && tx.delivery > 0
    && (tx.inboundEvent.None? <==> tx.inboundSeq.None?) && (tx.inboundSeq.Some? ==> tx.inboundSeq.value > 0)
    && 0 <= tx.failures <= MaxFailures
    && (tx.lastReason.Some? ==> IsReason(tx.lastReason.value))
    && IsTimestamp(tx.createdAt)
  }

  /** The record's initializer: it checks the fields and derives the two keys. */
  function Construct(draft: OpenTransaction): Made {
    if FieldsOk(draft)
    then Made(draft.(claimId := ClaimIdFor(draft.instance, draft.delivery), replyKey := ReplyKeyFor(draft.instance, draft.delivery)))
    else Refused(InvalidRecord)
  }

  /** What the decoder of `open.json` accepts. */
  predicate DecoderAccepts(tx: OpenTransaction) {
    && FieldsOk(tx)
    && tx.claimId == ClaimIdFor(tx.instance, tx.delivery) && tx.replyKey == ReplyKeyFor(tx.instance, tx.delivery)
    && (match tx.stage
        case Prepared => tx.resolution.NoReply? && tx.replyEvent.None?
        case Claimed => tx.resolution.NoReply? && tx.replyEvent.None?
        case Replied => !tx.resolution.NoReply? && tx.replyEvent.Some?)
  }

  // ------------------------------------------------------------------- moves

  function NewTransaction(instance: Instance, protocol: Protocol, delivery: int, room: RoomId, inboundEvent: Option<EventId>,
                          inboundSeq: Option<int>, replyRequired: bool, createdAt: string): Made {
    Construct(OpenTransaction(instance, protocol, delivery, room, inboundEvent, inboundSeq, replyRequired,
                              Tag("", ""), Tag("", ""), Prepared, None, NoReply, 0, None, createdAt))
  }

  function MarkClaimed(tx: OpenTransaction): Made {
    if tx.stage != Prepared then Refused(InvalidTransition)
    else Construct(tx.(stage := Claimed, replyEvent := None, resolution := NoReply))
  }

  function MarkReplied(tx: OpenTransaction, event: Option<EventId>, resolution: Resolution): Made {
    if tx.stage == Prepared then Refused(InvalidTransition)
    else if resolution.NoReply? || event.None? then Refused(InvalidRecord)
    else Construct(tx.(stage := Replied, replyEvent := event, resolution := resolution))
  }

  function RecordFailure(tx: OpenTransaction, reason: string): Made {
    if !IsReason(reason) then Refused(InvalidRecord)
    else Construct(tx.(failures := if tx.failures + 1 < MaxFailures then tx.failures + 1 else MaxFailures, lastReason := Some(reason)))
  }

  function Rank(s: Stage): nat {
    match s
    case Prepared => 0
    case Claimed => 1
    case Replied => 2
  }

  /** Everything of a record that no move may change. */
  predicate SameIdentity(a: OpenTransaction, b: OpenTransaction) {
    && a.instance == b.instance && a.protocol == b.protocol && a.delivery == b.delivery && a.room == b.room
    && a.inboundEvent == b.inboundEvent && a.inboundSeq == b.inboundSeq && a.replyRequired == b.replyRequired
    && a.claimId == b.claimId && a.replyKey == b.replyKey && a.createdAt == b.createdAt
  }

  /** `b` is `a` further on: same identity, a stage no earlier, a found reply kept, and no fewer failures. */
  predicate Advances(a: OpenTransaction, b: OpenTransaction) {
    && SameIdentity(a, b) && Rank(a.stage) <= Rank(b.stage) && a.failures <= b.failures
    && (a.stage == Replied ==> a.replyEvent == b.replyEvent && a.resolution == b.resolution)
  }

  /** Each move of a readable record gives a readable record further on; a failure counts one more, up to ten thousand, and
      makes the record stuck exactly from the fifth on. */
  lemma MovesAdvance(tx: OpenTransaction, event: EventId, resolution: Resolution, reason: string)
    requires DecoderAccepts(tx) && !resolution.NoReply?
    ensures tx.stage == Prepared ==>
              var m := MarkClaimed(tx); m.Made? && m.tx.stage == Claimed && DecoderAccepts(m.tx) && Advances(tx, m.tx)
    ensures tx.stage == Claimed ==>
              var m := MarkReplied(tx, Some(event), resolution);
              m.Made? && m.tx.stage == Replied && m.tx.replyEvent == Some(event) && DecoderAccepts(m.tx) && Advances(tx, m.tx)
    ensures IsReason(reason) ==>
              var m := RecordFailure(tx, reason);
              m.Made? && DecoderAccepts(m.tx) && Advances(tx, m.tx) && m.tx.stage == tx.stage && m.tx.replyEvent == tx.replyEvent
              && m.tx.failures == (if tx.failures < 10000 then tx.failures + 1 else 10000) && m.tx.lastReason == Some(reason)
              && (IsStuck(m.tx) <==> tx.failures >= 4)
  {
  }
}
