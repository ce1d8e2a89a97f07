/**
  The inbox response on the IPC socket: whether a page, with the request id echoed, fits the response frame.

  Every run of the journal is considered in which only messages arrive that fit a wire frame.
 */
module InboxResponse {
  import opened Basics
  import opened PeerTypes
  import opened JournalIndex
  import opened JournalHistory
  import opened JournalSnapshot
  import opened JournalSpec
  import opened JournalInvariant
  import opened JournalRuns
  import opened JournalGuarantees
  import opened WireSizes
  import opened InboxPaging

  const MaxIpcResponseBytes: nat := 2 * 1024 * 1024
  const InboxPageByteBudget: nat := 1024 * 1024

  /** Length of `{"protocol_version":1,"id":"","result":{"items":,"next_after_seq":,"has_more":false}}`. */
  const ResponsePunctuation: nat := 85

  function ResponseLength(requestId: Bytes, page: seq<Entry>, after: nat): nat {
    ResponsePunctuation + EscapedLength(requestId) + ArrayLength(page) + Digits(NextCursor(page, after))
  }

  // -------------------------------------------------------------- sizes

  lemma {:induction false} EscapedAtMostSixfold(s: Bytes)
    ensures EscapedLength(s) <= 6 * |s|
  {
    if |s| > 0 {
      EscapedAtMostSixfold(s[..|s| - 1]);
    }
  }

  const U64: nat := 0x1_0000_0000_0000_0000

  lemma {:induction false} DigitsBound(n: nat, d: nat, bound: nat)
    requires d >= 1 && n < bound && (d == 1 ==> bound <= 10) && (d > 1 ==> PowerOfTen(d) >= bound)
    ensures Digits(n) <= d
  {
    if n >= 10 {
      DigitsBound(n / 10, d - 1, PowerOfTen(d - 1));
    }
  }

  function PowerOfTen(d: nat): nat {
    if d == 0 then 1 else 10 * PowerOfTen(d - 1)
  }

  lemma U64Digits(n: nat)
    requires n < U64
    ensures Digits(n) <= 20
  {
    assert PowerOfTen(5) == 100_000;
    assert PowerOfTen(10) == 100_000 * PowerOfTen(5);
    assert PowerOfTen(15) == 100_000 * PowerOfTen(10);
    assert PowerOfTen(20) == 100_000 * PowerOfTen(15);
    DigitsBound(n, 20, U64);
  }

  lemma {:induction false} EscapedRepeat(b: byte, n: nat)
    ensures EscapedLength(seq(n, _ => b)) == n * EscapedSize(b)
  {
    if n > 0 {
      EscapedRepeat(b, n - 1);
      assert seq(n, _ => b)[..n - 1] == seq(n - 1, _ => b);
    }
  }

  lemma {:induction false} DigitsMonotone(m: nat, n: nat)
    requires m <= n
    ensures Digits(m) <= Digits(n)
  {
    if m >= 10 {
      DigitsMonotone(m / 10, n / 10);
    }
  }

  /** Escaping alone bounds an item with a 256 KiB payload. */
  ghost predicate Admissible(e: Entry) {
    && e.seqNo < U64 && e.ts < U64 && |e.id| <= MaxMessageIdBytes
    && e.payload.Some? && |e.payload.value| <= MaxPayloadBytes
    && e.peer.Some? && EscapedLength(e.peer.value) == 64
  }

  lemma AdmissibleSize(e: Entry)
    requires Admissible(e)
    ensures CountedSize(e) <= 1574660 && Digits(e.seqNo) <= 20
  {
    U64Digits(e.seqNo);
    U64Digits(e.ts);
    EscapedAtMostSixfold(e.id);
    EscapedAtMostSixfold(e.payload.value);
  }

  lemma OnPage(m: InMap, after: nat, limit: nat, e: Entry)
    requires e in Page(m, after, limit, InboxPageByteBudget)
    ensures e in CandidateSet(m, after)
  {
    SortedElements(CandidateSet(m, after));
    assert e in Candidates(m, after);
  }

  /** The sixfold bound is enough by itself: with an echoed request id that escapes to at most 522386 bytes, a page of items
      of any spelling fits. */
  lemma ResponseFitsFrame(m: InMap, after: nat, limit: nat, requestId: Bytes)
    requires after < U64 && EscapedLength(requestId) <= 522386
    requires forall e | e in CandidateSet(m, after) :: Admissible(e)
    ensures ResponseLength(requestId, Page(m, after, limit, InboxPageByteBudget), after) <= MaxIpcResponseBytes
  {
    hide CountedSize, Admissible, CandidateSet, EscapedLength, Digits, Page;
    var page := Page(m, after, limit, InboxPageByteBudget);
    PageWithinBudget(m, after, limit, InboxPageByteBudget);
    if |page| == 0 {
      U64Digits(after);
    } else {
      OnPage(m, after, limit, page[0]);
      OnPage(m, after, limit, page[|page| - 1]);
      AdmissibleSize(page[0]);
      AdmissibleSize(page[|page| - 1]);
    }
  }

  // ------------------------------------------------------ what can arrive

  ghost predicate WellSized(from: Endpoint, id: MessageId, payload: Bytes) {
    0 < |id| <= MaxMessageIdBytes && |payload| <= MaxPayloadBytes && EscapedLength(from) == 64
  }

  /** A frame with the message can be read: however it is spelled, it takes at least the escaped id and payload. */
  ghost predicate MayArrive(from: Endpoint, id: MessageId, payload: Bytes) {
    WellSized(from, id, payload) && EscapedLength(id) + EscapedLength(payload) <= MaxFrameBytes
  }

  ghost predicate SentByEngine(from: Endpoint, id: MessageId, payload: Bytes, createdAt: nat) {
    WellSized(from, id, payload) && FrameLength(from, id, payload, createdAt) <= MaxFrameBytes
  }

  lemma EngineFramesArrive(from: Endpoint, id: MessageId, payload: Bytes, createdAt: nat)
    requires SentByEngine(from, id, payload, createdAt)
    ensures MayArrive(from, id, payload)
  {
  }

  ghost predicate OnlyArrivals(ops: seq<Timed>) {
    forall i | 0 <= i < |ops| ::
      ops[i].now < U64 && (ops[i].op.Accept? ==> MayArrive(ops[i].op.from, ops[i].op.id, ops[i].op.payload))
  }

  // ------------------------------------------------- what an inbox can hold

  ghost predicate Arrived(e: Entry) {
    e.state.ReceivedPeer? ==> e.peer.Some? && e.payload.Some? && MayArrive(e.peer.value, e.id, e.payload.value) && e.ts < U64
  }

  ghost predicate AllArrived(j: JournalState) {
    forall e | e in j.durable || j.torn == Some(e) :: Arrived(e)
  }

  lemma WrittenArrived(j: JournalState, op: Op, now: nat)
    requires now < U64 && (op.Accept? ==> MayArrive(op.from, op.id, op.payload))
    requires op.Finish? ==> IsTerminal(op.how)
    ensures Arrived(EntryWritten(j, op, now))
  {
    hide MayArrive;
  }

  lemma StepArrived(j: JournalState, op: Op, now: nat)
    requires AllArrived(j) && now < U64 && (op.Accept? ==> MayArrive(op.from, op.id, op.payload))
    ensures AllArrived(Step(j, op, now).j)
  {
    hide Step, EntryWritten, Arrived;
    if op.Finish? && !IsTerminal(op.how) {
      NoStep(j, op, now);
    } else {
      forall e | e in Step(j, op, now).j.durable || Step(j, op, now).j.torn == Some(e)
        ensures Arrived(e)
      {
        WrittenByStep(j, op, now, e);
        if !op.Restart? {
          WrittenArrived(j, op, now);
        }
      }
    }
  }

  lemma NoStep(j: JournalState, op: Op, now: nat)
    requires op.Finish? && !IsTerminal(op.how)
    ensures Step(j, op, now).j == j
  {
  }

  lemma {:induction false} RunArrived(limits: Limits, ops: seq<Timed>)
    requires OnlyArrivals(ops)
    ensures AllArrived(Run(InitialState(limits), ops))
  {
    hide Step, Arrived, MayArrive;
    if ops != [] {
      var front, last := ops[..|ops| - 1], ops[|ops| - 1];
      RunArrived(limits, front);
      StepArrived(Run(InitialState(limits), front), last.op, last.now);
    }
  }

  /** An unconsumed item arrived in a frame, and its sequence number was handed out. */
  lemma InboxArrived(limits: Limits, ops: seq<Timed>, k: Key)
    requires InOrder(0, ops) && OnlyArrivals(ops) && IsLive(Run(InitialState(limits), ops).ix.inbound, k)
    ensures var j := Run(InitialState(limits), ops);
            var r := j.ix.inbound[k];
            r.payload.Some? && MayArrive(k.from, k.id, r.payload.value) && r.ts < U64 && r.seqNo < j.nextSeq
  {
    hide Inv, Run, MayArrive, Replay;
    var j, now := Run(InitialState(limits), ops), EndTime(0, ops);
    ReachableInv(j, limits, ops);
    IndexFacts(j, now);
    HistoryFacts(j, now);
    NothingLostButStaleTombstones(j, limits, ops);
    InboxBelowHighWater(j, now);
    var p, c := TraceInbound(j.durable, k, limits.retention);
    RunArrived(limits, ops);
    assert Arrived(j.durable[p]);
  }

  /** Such an item counts for less than a page's budget. */
  lemma ArrivedSize(k: Key, r: Inbound)
    requires r.payload.Some? && MayArrive(k.from, k.id, r.payload.value) && r.ts < U64 && r.seqNo < U64
    ensures CountedSize(InboundEntry(k, r)) <= InboxPageByteBudget
  {
    hide EscapedLength, Digits;
    U64Digits(r.seqNo);
    U64Digits(r.ts);
  }

  // ----------------------------------------------------------- enough room

  /** Every inbox response of every run whose sequence numbers go up to `top` fits, for any page limit a request can ask. */
  ghost predicate PagesFit(limits: Limits, top: nat, requestId: Bytes) {
    forall ops: seq<Timed>, after: nat, limit: nat |
      InOrder(0, ops) && OnlyArrivals(ops) && Run(InitialState(limits), ops).nextSeq <= top + 1 && after < U64 && 1 <= limit <= 200 ::
      ResponseLength(requestId, Page(Run(InitialState(limits), ops).ix.inbound, after, limit, InboxPageByteBudget), after)
        <= MaxIpcResponseBytes
  }

  lemma ShortIdFits(limits: Limits, top: nat, requestId: Bytes, ops: seq<Timed>, after: nat, limit: nat)
    requires EscapedLength(requestId) + Digits(top) <= 1048490 && top < U64
    requires InOrder(0, ops) && OnlyArrivals(ops) && Run(InitialState(limits), ops).nextSeq <= top + 1 && after < U64
    ensures ResponseLength(requestId, Page(Run(InitialState(limits), ops).ix.inbound, after, limit, InboxPageByteBudget), after)
              <= MaxIpcResponseBytes
  {
    hide Run, CountedSize, EscapedLength, Digits, Page, MayArrive, OnlyArrivals, InOrder;
    var m := Run(InitialState(limits), ops).ix.inbound;
    var page := Page(m, after, limit, InboxPageByteBudget);
    PageWithinBudget(m, after, limit, InboxPageByteBudget);
    if |page| == 0 {
      U64Digits(after);
    } else {
      ItemFits(limits, top, ops, after, limit, page[0]);
      ItemFits(limits, top, ops, after, limit, page[|page| - 1]);
    }
  }

  lemma ItemFits(limits: Limits, top: nat, ops: seq<Timed>, after: nat, limit: nat, e: Entry)
    requires InOrder(0, ops) && OnlyArrivals(ops) && Run(InitialState(limits), ops).nextSeq <= top + 1 && top < U64
    requires e in Page(Run(InitialState(limits), ops).ix.inbound, after, limit, InboxPageByteBudget)
    ensures CountedSize(e) <= InboxPageByteBudget && Digits(e.seqNo) <= Digits(top)
  {
    hide Run, CountedSize, Digits, Page, MayArrive, OnlyArrivals, InOrder;
    var m := Run(InitialState(limits), ops).ix.inbound;
    OnPage(m, after, limit, e);
    var k :| k in m && IsCandidate(m, after, k) && e == InboundEntry(k, m[k]);
    InboxArrived(limits, ops, k);
    ArrivedSize(k, m[k]);
    DigitsMonotone(e.seqNo, top);
  }

  // ------------------------------------------------- the widest page there is

  const DefaultLimits: Limits := Limits(1000, 16 * 1024 * 1024, 1000, 64 * 1024 * 1024, 604800000, 10000)

  const Noon: nat := 1700000000000

  function Sender(): Endpoint {
    seq(64, _ => 0x61)
  }

  function IdOf(i: nat): MessageId
    requires i < 4
  {
    [0x61 + i as byte]
  }

  /** The last four sequence numbers up to `top`. */
  function SeqOf(top: nat, i: nat): nat
    requires top >= 4
  {
    top - 3 + i
  }

  /** A payload that makes the item count exactly a quarter of the budget. */
  function PayloadOf(top: nat, i: nat): Bytes
    requires 4 <= top < U64 && i < 4
  {
    var d := Digits(SeqOf(top, i));
    seq(if d <= 261910 then 261910 - d else 0, _ => 0x61)
  }

  function ItemOf(top: nat, i: nat): Inbound
    requires 4 <= top < U64 && i < 4
  {
    Inbound(SeqOf(top, i), PayloadHash(PayloadOf(top, i)), Some(PayloadOf(top, i)), Noon, false)
  }

  function Filled(top: nat, n: nat): InMap
    requires 4 <= top < U64 && n <= 4
  {
    if n == 0 then map[] else Filled(top, n - 1)[Key(Sender(), IdOf(n - 1)) := ItemOf(top, n - 1)]
  }

  function FilledPage(top: nat, n: nat): seq<Entry>
    requires 4 <= top < U64 && n <= 4
  {
    if n == 0 then [] else FilledPage(top, n - 1) + [InboundEntry(Key(Sender(), IdOf(n - 1)), ItemOf(top, n - 1))]
  }

  /** Deliveries whose record could not be written use up sequence numbers; the last four are written. */
  function FillOps(top: nat, n: nat): seq<Timed>
    requires 4 <= top < U64 && n <= 4
  {
    if n == 0 then seq(top - 4, _ => At(Accept(Sender(), IdOf(0), [], RolledBack), Noon))
    else FillOps(top, n - 1) + [At(Accept(Sender(), IdOf(n - 1), PayloadOf(top, n - 1), Synced(CompactFailed)), Noon)]
  }

  lemma SenderSize()
    ensures EscapedLength(Sender()) == 64
  {
    hide EscapedLength;
    EscapedRepeat(0x61, 64);
  }

  lemma NoonDigits()
    ensures Digits(Noon) == 13
  {
    assert Digits(17000000) == 8;
    assert Digits(170000000000) == 4 + Digits(17000000);
  }

  lemma SeqDigits(top: nat, i: nat)
    requires 4 <= top < U64 && i < 4
    ensures Digits(SeqOf(top, i)) <= 20 && |PayloadOf(top, i)| == 261910 - Digits(SeqOf(top, i))
    ensures EscapedLength(PayloadOf(top, i)) == |PayloadOf(top, i)|
  {
    hide Digits, EscapedLength;
    U64Digits(SeqOf(top, i));
    EscapedRepeat(0x61, |PayloadOf(top, i)|);
    assert EscapedSize(0x61) == 1;
  }

  lemma IdSize(i: nat)
    requires i < 4
    ensures EscapedLength(IdOf(i)) == 1
  {
    assert IdOf(i)[..0] == [];
    assert EscapedLength([]) == 0;
  }

  /** Each of the four counts a quarter of the budget, and an engine sends it in one frame. */
  lemma QuarterItem(top: nat, i: nat)
    requires 4 <= top < U64 && i < 4
    ensures CountedSize(InboundEntry(Key(Sender(), IdOf(i)), ItemOf(top, i))) == 262144
    ensures SentByEngine(Sender(), IdOf(i), PayloadOf(top, i), Noon)
  {
    hide Digits, EscapedLength, PayloadOf, Sender, IdOf;
    SenderSize();
    NoonDigits();
    SeqDigits(top, i);
    IdSize(i);
    OneByteId(i);
  }

  lemma OneByteId(i: nat)
    requires i < 4
    ensures |IdOf(i)| == 1
  {
  }

  lemma SkipStep(j: JournalState, id: MessageId)
    requires j == InitialState(DefaultLimits).(nextSeq := j.nextSeq)
    ensures Step(j, Accept(Sender(), id, [], RolledBack), Noon).j == j.(nextSeq := j.nextSeq + 1)
  {
  }

  lemma {:induction false} Skips(n: nat)
    ensures var op := At(Accept(Sender(), IdOf(0), [], RolledBack), Noon);
            Run(InitialState(DefaultLimits), seq(n, _ => op)) == InitialState(DefaultLimits).(nextSeq := n + 1)
  {
    hide Step, Sender, IdOf;
    var op := At(Accept(Sender(), IdOf(0), [], RolledBack), Noon);
    if n > 0 {
      Skips(n - 1);
      assert seq(n, _ => op)[..n - 1] == seq(n - 1, _ => op);
      SkipStep(InitialState(DefaultLimits).(nextSeq := n), IdOf(0));
    }
  }

  /** A new message within the quotas is accepted under the next sequence number. */
  lemma AcceptFresh(j: JournalState, from: Endpoint, id: MessageId, payload: Bytes, now: nat)
    requires !j.closed && !j.tailDamaged && Key(from, id) !in j.ix.inbound && j.sinceCompact + 1 < j.limits.compactEvery
    requires var t := LiveTotals(j, from);
             t.count < j.limits.maxUnconsumedPerPeer && t.bytes + |payload| <= j.limits.maxUnconsumedBytesPerPeer
    ensures var j' := Step(j, Accept(from, id, payload, Synced(CompactFailed)), now).j;
            var t := LiveTotals(j, from);
            && j'.ix.inbound == j.ix.inbound[Key(from, id) := Inbound(j.nextSeq, PayloadHash(payload), Some(payload), now, false)]
            && LiveTotals(j', from) == Totals(t.count + 1, t.bytes + |payload|)
            && j'.nextSeq == j.nextSeq + 1 && j'.sinceCompact == j.sinceCompact + 1 && j'.limits == j.limits
            && !j'.closed && !j'.tailDamaged
  {
  }

  lemma {:induction false} FillRuns(top: nat, n: nat)
    requires 4 <= top < U64 && n <= 4
    ensures var j := Run(InitialState(DefaultLimits), FillOps(top, n));
            && j.ix.inbound == Filled(top, n) && j.nextSeq == top - 3 + n && j.sinceCompact == n && j.limits == DefaultLimits
            && !j.closed && !j.tailDamaged
            && LiveTotals(j, Sender()).count == n && LiveTotals(j, Sender()).bytes <= n * 262144
  {
    hide Step, Sender, PayloadOf, LiveTotals, IdOf;
    if n == 0 {
      Skips(top - 4);
      NoTotals(top - 3);
    } else {
      FillRuns(top, n - 1);
      var ops := FillOps(top, n);
      assert ops[..|ops| - 1] == FillOps(top, n - 1);
      SeqDigits(top, n - 1);
      NotFilled(top, n - 1);
      AcceptFresh(Run(InitialState(DefaultLimits), FillOps(top, n - 1)), Sender(), IdOf(n - 1), PayloadOf(top, n - 1), Noon);
    }
  }

  lemma NoTotals(next: nat)
    ensures LiveTotals(InitialState(DefaultLimits).(nextSeq := next), Sender()) == Totals(0, 0)
  {
  }

  lemma NotFilled(top: nat, n: nat)
    requires 4 <= top < U64 && n < 4
    ensures Key(Sender(), IdOf(n)) !in Filled(top, n)
  {
    hide Sender, PayloadOf;
    FilledKeys(top, n);
  }

  lemma {:induction false} FilledAt(top: nat, n: nat, i: nat)
    requires 4 <= top < U64 && i < n <= 4
    ensures var k := Key(Sender(), IdOf(i));
            && k in Filled(top, n) && Filled(top, n)[k] == ItemOf(top, i)
            && |FilledPage(top, n)| == n && FilledPage(top, n)[i] == InboundEntry(k, ItemOf(top, i))
  {
    hide Sender, PayloadOf;
    PageSize(top, n);
    if i < n - 1 {
      FilledAt(top, n - 1, i);
    }
  }

  lemma {:induction false} PageSize(top: nat, n: nat)
    requires 4 <= top < U64 && n <= 4
    ensures |FilledPage(top, n)| == n
  {
    if n > 0 {
      PageSize(top, n - 1);
    }
  }

  /** The full inbox lists the four items in order. */
  lemma FilledCandidates(top: nat)
    requires 4 <= top < U64
    ensures Candidates(Filled(top, 4), 0) == FilledPage(top, 4)
  {
    hide Sender, PayloadOf, IdOf, Filled, FilledPage, Sorted;
    var m, page := Filled(top, 4), FilledPage(top, 4);
    PageSize(top, 4);
    FilledKeys(top, 4);
    forall i: nat | i < 4
      ensures page[i] == InboundEntry(Key(Sender(), IdOf(i)), ItemOf(top, i)) && page[i].seqNo == top - 3 + i
      ensures page[i] in CandidateSet(m, 0)
    {
      FilledAt(top, 4, i);
      assert IsCandidate(m, 0, Key(Sender(), IdOf(i)));
    }
    forall e | e in CandidateSet(m, 0)
      ensures e in page
    {
      var k :| k in m && IsCandidate(m, 0, k) && e == InboundEntry(k, m[k]);
      var i: nat :| i < 4 && k == Key(Sender(), IdOf(i));
      FilledAt(top, 4, i);
      assert page[i] == e;
    }
    SortedUnique(CandidateSet(m, 0), page);
  }

  lemma {:induction false} FilledKeys(top: nat, n: nat)
    requires 4 <= top < U64 && n <= 4
    ensures forall k | k in Filled(top, n) :: exists i: nat :: i < n && k == Key(Sender(), IdOf(i))
  {
    hide Sender, PayloadOf, IdOf;
    if n > 0 {
      FilledKeys(top, n - 1);
      forall k | k in Filled(top, n)
        ensures exists i: nat :: i < n && k == Key(Sender(), IdOf(i))
      {
        if k in Filled(top, n - 1) {
          var i: nat :| i < n - 1 && k == Key(Sender(), IdOf(i));
        } else {
          assert k == Key(Sender(), IdOf(n - 1));
        }
      }
    }
  }

  predicate Quarters(es: seq<Entry>) {
    forall i | 0 <= i < |es| :: CountedSize(es[i]) == 262144
  }

  lemma {:induction false} QuartersFit(cands: seq<Entry>, n: nat)
    requires |cands| == 4 && Quarters(cands) && n <= 4
    ensures Fitting(cands, n, n * 262144, 50, InboxPageByteBudget) == 4
    decreases 4 - n
  {
    hide CountedSize;
    if n < 4 {
      QuartersFit(cands, n + 1);
    }
  }

  lemma {:induction false} QuartersTotal(es: seq<Entry>)
    requires Quarters(es)
    ensures TotalCounted(es) == |es| * 262144
    decreases |es|
  {
    hide CountedSize;
    if es != [] {
      QuartersTotal(es[..|es| - 1]);
    }
  }

  /** The page of the four items takes the whole budget and ends at `top`. */
  lemma FullPage(top: nat)
    requires 4 <= top < U64
    ensures var page := Page(Filled(top, 4), 0, 50, InboxPageByteBudget);
            ArrayLength(page) == 1 + InboxPageByteBudget && NextCursor(page, 0) == top
  {
    hide CountedSize, Candidates, Filled, FilledPage, Sender, PayloadOf, IdOf, Fitting;
    var cands := FilledPage(top, 4);
    FilledCandidates(top);
    PageSize(top, 4);
    forall i: nat | i < 4
      ensures CountedSize(cands[i]) == 262144
    {
      FilledAt(top, 4, i);
      QuarterItem(top, i);
    }
    QuartersFit(cands, 0);
    QuartersTotal(cands);
    assert cands[..4] == cands;
    FilledAt(top, 4, 3);
  }

  /** Everything happens at noon and only messages that may arrive do. */
  ghost predicate NoonArrivals(ops: seq<Timed>) {
    OnlyArrivals(ops) && forall i | 0 <= i < |ops| :: ops[i].now == Noon
  }

  lemma NoonSnoc(ops: seq<Timed>, op: Op)
    requires NoonArrivals(ops) && (op.Accept? ==> MayArrive(op.from, op.id, op.payload))
    ensures NoonArrivals(ops + [At(op, Noon)])
  {
    hide MayArrive;
  }

  lemma {:induction false} FillArrives(top: nat, n: nat)
    requires 4 <= top < U64 && n <= 4
    ensures NoonArrivals(FillOps(top, n))
  {
    hide MayArrive, Sender, PayloadOf, IdOf, NoonArrivals;
    if n == 0 {
      SkipsArrive(top - 4);
    } else {
      FillArrives(top, n - 1);
      QuarterItem(top, n - 1);
      EngineFramesArrive(Sender(), IdOf(n - 1), PayloadOf(top, n - 1), Noon);
      NoonSnoc(FillOps(top, n - 1), Accept(Sender(), IdOf(n - 1), PayloadOf(top, n - 1), Synced(CompactFailed)));
    }
  }

  lemma SkipsArrive(n: nat)
    ensures NoonArrivals(seq(n, _ => At(Accept(Sender(), IdOf(0), [], RolledBack), Noon)))
  {
    hide MayArrive, Sender, IdOf;
    EmptyArrives();
  }

  lemma EmptyArrives()
    ensures MayArrive(Sender(), IdOf(0), [])
  {
    SenderSize();
    IdSize(0);
    assert EscapedLength([]) == 0;
  }

  lemma NoonInOrder(ops: seq<Timed>)
    requires NoonArrivals(ops)
    ensures InOrder(0, ops) && OnlyArrivals(ops)
  {
    hide OnlyArrivals;
  }

  /** A longer id overflows the frame in a run of plain messages, each of which an engine sends in one frame. */
  lemma LongIdOverflows(top: nat, requestId: Bytes) returns (ops: seq<Timed>)
    requires 4 <= top < U64 && EscapedLength(requestId) + Digits(top) > 1048490
    ensures InOrder(0, ops) && OnlyArrivals(ops) && Run(InitialState(DefaultLimits), ops).nextSeq == top + 1
    ensures ResponseLength(requestId, Page(Run(InitialState(DefaultLimits), ops).ix.inbound, 0, 50, InboxPageByteBudget), 0)
              > MaxIpcResponseBytes
  {
    hide Run, Page, Filled, EscapedLength, Digits, OnlyArrivals, InOrder, ArrayLength, NextCursor, NoonArrivals;
    ops := FillOps(top, 4);
    FillArrives(top, 4);
    NoonInOrder(ops);
    FillRuns(top, 4);
    FullPage(top);
  }

  /** Once four sequence numbers are used, every inbox response of every run up to `top` fits the frame exactly when the
      escaped request id and the digits of `top` together take at most 1048490 bytes. */
  lemma PagesFitIffRequestIdShort(top: nat, requestId: Bytes)
    requires 4 <= top < U64
    ensures PagesFit(DefaultLimits, top, requestId) <==> EscapedLength(requestId) + Digits(top) <= 1048490
  {
    hide Run, Page, EscapedLength, Digits, OnlyArrivals, InOrder, ResponseLength;
    if EscapedLength(requestId) + Digits(top) <= 1048490 {
      forall ops: seq<Timed>, after: nat, limit: nat |
        InOrder(0, ops) && OnlyArrivals(ops) && Run(InitialState(DefaultLimits), ops).nextSeq <= top + 1 && after < U64 && 1 <= limit <= 200
        ensures ResponseLength(requestId, Page(Run(InitialState(DefaultLimits), ops).ix.inbound, after, limit, InboxPageByteBudget), after)
                  <= MaxIpcResponseBytes
      {
        ShortIdFits(DefaultLimits, top, requestId, ops, after, limit);
      }
    } else {
      var ops := LongIdOverflows(top, requestId);
    }
  }
}
