/** Inbox pages: what one page holds, and what a reader that follows the cursor sees. */
module InboxPaging {
  import opened Basics
  import opened PeerTypes
  import opened JournalIndex
  import opened JournalHistory
  import opened JournalSnapshot
  import opened JournalSpec
  import opened JournalInvariant
  import opened JournalRuns
  import opened JournalGuarantees
  import opened WireSizes

  // ---------------------------------------------------------- serialized size

  function HashLength(d: Digest): nat {
    if d.NoDigest? then 0 else 64
  }

  /** Length of `{"seq":,"message_id":"","payload_hash":"","payload":"","from_endpoint_id":"","ts_unix_ms":}`. */
  const ItemPunctuation: nat := 91

  /** Length of an inbox item written as a JSON object. */
  function ItemLength(e: Entry): nat {
    ItemPunctuation + Digits(e.seqNo) + EscapedLength(e.id) + HashLength(e.hash)
    + EscapedLength(if e.payload.Some? then e.payload.value else [])
    + EscapedLength(if e.peer.Some? then e.peer.value else []) + Digits(e.ts)
  }

  /** What the page counts for an item: its length and one separator. */
  function CountedSize(e: Entry): nat {
    ItemLength(e) + 1
  }

  // -------------------------------------------------------------------- pages

  predicate IsCandidate(m: InMap, after: nat, k: Key) {
    IsLive(m, k) && m[k].seqNo > after && m[k].payload.Some?
  }

  ghost function CandidateSet(m: InMap, after: nat): set<Entry> {
    set k | k in m && IsCandidate(m, after, k) :: InboundEntry(k, m[k])
  }

  /** The unconsumed items after the cursor, in sequence order. */
  ghost function Candidates(m: InMap, after: nat): seq<Entry> {
    Sorted(CandidateSet(m, after))
  }

  /** How many of `cands` fit, given that the first `n` have been taken and count `bytes`. */
  function Fitting(cands: seq<Entry>, n: nat, bytes: nat, limit: nat, budget: nat): (r: nat)
    requires n <= |cands|
    ensures n <= r <= |cands|
    decreases |cands| - n
  {
    if n == |cands| then n else
    var size := CountedSize(cands[n]);
    if n > 0 && (n >= Max(limit, 1) || bytes + size > budget) then n
    else Fitting(cands, n + 1, bytes + size, limit, budget)
  }

  ghost function Page(m: InMap, after: nat, limit: nat, budget: nat): seq<Entry> {
    var cands := Candidates(m, after);
    cands[..Fitting(cands, 0, 0, limit, budget)]
  }

  ghost predicate HasMore(m: InMap, after: nat, limit: nat, budget: nat) {
    |Page(m, after, limit, budget)| < |Candidates(m, after)|
  }

  function NextCursor(page: seq<Entry>, after: nat): nat {
    if |page| == 0 then after else page[|page| - 1].seqNo
  }

  function TotalCounted(es: seq<Entry>): nat {
    if |es| == 0 then 0 else TotalCounted(es[..|es| - 1]) + CountedSize(es[|es| - 1])
  }

  /** The page respects the item limit, and the byte budget unless its first item alone exceeds it. */
  lemma {:induction false} FittingBounds(cands: seq<Entry>, n: nat, bytes: nat, limit: nat, budget: nat)
    requires n <= |cands| && bytes == TotalCounted(cands[..n])
    requires n > 0 ==> n <= Max(limit, 1) && bytes <= Max(budget, CountedSize(cands[0]))
    ensures var r := Fitting(cands, n, bytes, limit, budget);
            && (r > 0 <==> |cands| > 0)
            && (r > 0 ==> r <= Max(limit, 1) && TotalCounted(cands[..r]) <= Max(budget, CountedSize(cands[0])))
            && (r < |cands| ==> r >= Max(limit, 1) || TotalCounted(cands[..r]) + CountedSize(cands[r]) > budget)
    decreases |cands| - n
  {
    hide CountedSize;
    if n < |cands| {
      var size := CountedSize(cands[n]);
      assert cands[..n + 1][..n] == cands[..n];
      if n == 0 || (n < Max(limit, 1) && bytes + size <= budget) {
        FittingBounds(cands, n + 1, bytes + size, limit, budget);
      }
    }
  }

  // ------------------------------------------------- what a page means

  lemma CandidatesSorted(m: InMap, after: nat)
    requires forall a, b | a in m && b in m && a != b :: m[a].seqNo != m[b].seqNo
    ensures SeqSorted(Candidates(m, after))
    ensures forall e :: e in Candidates(m, after) <==> e in CandidateSet(m, after)
    ensures forall i | 0 <= i < |Candidates(m, after)| :: Candidates(m, after)[i].seqNo > after
  {
    var s := CandidateSet(m, after);
    assert DistinctSeqNos(s);
    SortedBySeqNo(s);
    SortedElements(s);
    assert forall i | 0 <= i < |Candidates(m, after)| :: Candidates(m, after)[i] in s;
  }

  ghost predicate InboxDistinct(m: InMap) {
    forall a, b | a in m && b in m && a != b :: m[a].seqNo != m[b].seqNo
  }

  lemma CandidateOnPage(m: InMap, after: nat, n: nat, k: Key)
    requires InboxDistinct(m) && IsCandidate(m, after, k) && n <= |Candidates(m, after)|
    ensures var page := Candidates(m, after)[..n];
            InboundEntry(k, m[k]) in page || (n < |Candidates(m, after)| && m[k].seqNo > NextCursor(page, after))
  {
    var cands, e := Candidates(m, after), InboundEntry(k, m[k]);
    CandidatesSorted(m, after);
    hide Sorted;
    assert e in CandidateSet(m, after);
    hide CandidateSet;
    var i :| 0 <= i < |cands| && cands[i] == e;
    if i < n {
      assert cands[..n][i] == e;
    }
  }

  lemma PageSorted(m: InMap, after: nat, n: nat)
    requires InboxDistinct(m) && n <= |Candidates(m, after)|
    ensures var page := Candidates(m, after)[..n];
            SeqSorted(page) && forall i | 0 <= i < |page| :: after < page[i].seqNo <= NextCursor(page, after)
  {
    CandidatesSorted(m, after);
    hide Candidates;
  }

  lemma PageItems(m: InMap, after: nat, n: nat, e: Entry) returns (k: Key)
    requires InboxDistinct(m) && n <= |Candidates(m, after)| && e in Candidates(m, after)[..n]
    ensures IsCandidate(m, after, k) && e == InboundEntry(k, m[k])
  {
    CandidatesSorted(m, after);
    assert e in Candidates(m, after);
    hide Candidates;
    k :| k in m && IsCandidate(m, after, k) && e == InboundEntry(k, m[k]);
  }

  /** A page is in sequence order after the cursor, and an item after the cursor is either on it or after its last item. */
  lemma PageMeaning(m: InMap, after: nat, limit: nat, budget: nat, k: Key)
    requires InboxDistinct(m)
    ensures var page := Page(m, after, limit, budget);
            && SeqSorted(page) && (forall i | 0 <= i < |page| :: after < page[i].seqNo <= NextCursor(page, after))
            && (IsCandidate(m, after, k) ==>
                  InboundEntry(k, m[k]) in page
                  || (HasMore(m, after, limit, budget) && m[k].seqNo > NextCursor(page, after)))
            && (forall e | e in page :: exists k' :: IsCandidate(m, after, k') && e == InboundEntry(k', m[k']))
  {
    hide Candidates, Fitting, SeqSorted, InboxDistinct;
    var n := Fitting(Candidates(m, after), 0, 0, limit, budget);
    PageSorted(m, after, n);
    if IsCandidate(m, after, k) {
      CandidateOnPage(m, after, n, k);
    }
    forall e | e in Page(m, after, limit, budget)
      ensures exists k' :: IsCandidate(m, after, k') && e == InboundEntry(k', m[k'])
    {
      var k' := PageItems(m, after, n, e);
    }
  }

  // ---------------------------------------------------------- more to come

  /** There is more exactly when some unconsumed item lies after the page's cursor. */
  lemma HasMoreExact(m: InMap, after: nat, limit: nat, budget: nat)
    requires InboxDistinct(m)
    ensures HasMore(m, after, limit, budget) <==>
            exists k :: IsCandidate(m, NextCursor(Page(m, after, limit, budget), after), k)
  {
    hide Candidates, Fitting, InboxDistinct, SeqSorted;
    var cands, n := Candidates(m, after), Fitting(Candidates(m, after), 0, 0, limit, budget);
    var cursor := NextCursor(Page(m, after, limit, budget), after);
    PageMeaning(m, after, limit, budget, Key([], []));
    if n < |cands| {
      assert cands[..n + 1][n] == cands[n];
      var k := PageItems(m, after, n + 1, cands[n]);
      LaterThanPage(m, after, n);
      assert IsCandidate(m, cursor, k);
    } else {
      forall k | IsCandidate(m, cursor, k)
        ensures false
      {
        assert after <= cursor;
        CandidateOnPage(m, after, n, k);
      }
    }
  }

  /** The item after the first `n` comes after their cursor. */
  lemma LaterThanPage(m: InMap, after: nat, n: nat)
    requires InboxDistinct(m) && n < |Candidates(m, after)|
    ensures NextCursor(Candidates(m, after)[..n], after) < Candidates(m, after)[n].seqNo
  {
    CandidatesSorted(m, after);
    hide Candidates;
    if n > 0 {
      assert Candidates(m, after)[..n][n - 1] == Candidates(m, after)[n - 1];
    }
  }

  /** What the reader asks for, page by page. */
  datatype Ask = Ask(limit: nat, budget: nat)

  datatype Reading = Reading(seen: seq<Entry>, pages: nat, finished: bool)

  /** A reader that follows the cursor until a page says there is no more, with nothing happening in between. */
  ghost function ReadOn(m: InMap, after: nat, asks: seq<Ask>): Reading
    decreases |asks|
  {
    if asks == [] then Reading([], 0, false) else
    var page := Page(m, after, asks[0].limit, asks[0].budget);
    if !HasMore(m, after, asks[0].limit, asks[0].budget) then Reading(page, 1, true) else
    var rest := ReadOn(m, NextCursor(page, after), asks[1..]);
    Reading(page + rest.seen, rest.pages + 1, rest.finished)
  }

  lemma SuffixSorted(es: seq<Entry>, n: nat)
    requires SeqSorted(es) && n <= |es|
    ensures SeqSorted(es[n..])
  {
  }

  /** After a page, what is left is the candidates it did not take. */
  lemma RestOfCandidates(m: InMap, after: nat, n: nat)
    requires InboxDistinct(m) && 0 < n <= |Candidates(m, after)|
    ensures Candidates(m, NextCursor(Candidates(m, after)[..n], after)) == Candidates(m, after)[n..]
  {
    var cands := Candidates(m, after);
    var cursor := NextCursor(cands[..n], after);
    CandidatesSorted(m, after);
    hide Sorted, CandidateSet, InboxDistinct, IsCandidate;
    SuffixSorted(cands, n);
    forall e
      ensures e in cands[n..] <==> e in CandidateSet(m, cursor)
    {
      AfterCursor(m, after, cursor, e);
      if e in cands {
        var i :| 0 <= i < |cands| && cands[i] == e;
        assert i < n ==> e.seqNo <= cursor;
        assert i >= n ==> e.seqNo > cursor && cands[n..][i - n] == e;
      }
    }
    SortedUnique(CandidateSet(m, cursor), cands[n..]);
  }

  lemma AfterCursor(m: InMap, after: nat, cursor: nat, e: Entry)
    requires after <= cursor
    ensures e in CandidateSet(m, cursor) <==> e in CandidateSet(m, after) && e.seqNo > cursor
  {
  }

  /** With nothing happening in between, a reader is finished after at least one page and at most as many as there are
      unconsumed items, or one if there are none, whatever it asks for; and it has seen exactly those items, in order. */
  lemma {:induction false} ReaderFinishes(m: InMap, after: nat, asks: seq<Ask>)
    requires InboxDistinct(m) && |asks| >= Max(1, |Candidates(m, after)|)
    ensures var r := ReadOn(m, after, asks);
            r.finished && r.seen == Candidates(m, after) && 1 <= r.pages <= Max(1, |Candidates(m, after)|)
    decreases |asks|
  {
    hide Candidates, Fitting, InboxDistinct, CountedSize;
    var ask := asks[0];
    var cands := Candidates(m, after);
    var n := Fitting(cands, 0, 0, ask.limit, ask.budget);
    FittingBounds(cands, 0, 0, ask.limit, ask.budget);
    if HasMore(m, after, ask.limit, ask.budget) {
      RestOfCandidates(m, after, n);
      ReaderFinishes(m, NextCursor(cands[..n], after), asks[1..]);
      assert cands == cands[..n] + cands[n..];
    } else {
      assert cands[..n] == cands;
    }
  }

  /** Length of the page as a JSON array: brackets, items, and commas between them. */
  function ArrayLength(page: seq<Entry>): nat {
    if |page| == 0 then 2 else 1 + TotalCounted(page)
  }

  /** The serialized items take at most one byte more than the budget or the first item's counted size. */
  lemma PageWithinBudget(m: InMap, after: nat, limit: nat, budget: nat)
    ensures var page := Page(m, after, limit, budget);
            && |page| <= Max(limit, 1)
            && (|page| == 0 <==> |Candidates(m, after)| == 0)
            && (|page| > 0 ==> ArrayLength(page) <= 1 + Max(budget, CountedSize(page[0])))
  {
    hide Candidates, CountedSize;
    FittingBounds(Candidates(m, after), 0, 0, limit, budget);
  }

  // ------------------------------------------------------------------- walks

  /** Some journal operations happen, and then the reader asks for the next page. */
  datatype Visit = Visit(ops: seq<Timed>, limit: nat, budget: nat)

  datatype Walk = Walk(j: JournalState, now: nat, cursor: nat, seen: seq<Entry>, more: bool)

  ghost function VisitStep(w: Walk, v: Visit): Walk {
    var j := Run(w.j, v.ops);
    var page := Page(j.ix.inbound, w.cursor, v.limit, v.budget);
    Walk(j, EndTime(w.now, v.ops), NextCursor(page, w.cursor), w.seen + page,
         HasMore(j.ix.inbound, w.cursor, v.limit, v.budget))
  }

  ghost function Walked(w: Walk, visits: seq<Visit>): Walk {
    if |visits| == 0 then w else VisitStep(Walked(w, visits[..|visits| - 1]), visits[|visits| - 1])
  }

  ghost predicate VisitsInOrder(w: Walk, visits: seq<Visit>) {
    forall i | 0 <= i < |visits| :: InOrder(Walked(w, visits[..i]).now, visits[i].ops)
  }

  /** The journal invariant holds, and the cursor and everything seen lie at or below the last durable sequence number. */
  ghost predicate WalkInv(w: Walk) {
    && Inv(w.j, w.now)
    && w.cursor <= HighWater(w.j.durable)
    && SeqSorted(w.seen) && (forall i | 0 <= i < |w.seen| :: w.seen[i].seqNo <= w.cursor)
  }

  /** The sequence number of an inbox record was durable before, so every later one is larger. */
  lemma InboxBelowHighWater(j: JournalState, now: nat)
    requires Inv(j, now)
    ensures InboxDistinct(j.ix.inbound)
    ensures forall k | k in j.ix.inbound :: j.ix.inbound[k].seqNo <= HighWater(j.durable)
  {
    hide Inv;
    IndexFacts(j, now);
    DurableSeqAtMost(j, now);
  }

  lemma DurableSeqAtMost(j: JournalState, now: nat)
    requires Inv(j, now)
    ensures SeqAtMost(Replay(j.durable), HighWater(j.durable))
  {
    hide Replay, LegalHistory, MinusStale, LiveTotalsExact, QuotasHold, TornOk, SeqAtMost;
    ReplaySeqDistinct(j.durable);
  }

  lemma SortedConcat(a: seq<Entry>, b: seq<Entry>, c: nat)
    requires SeqSorted(a) && SeqSorted(b)
    requires (forall i | 0 <= i < |a| :: a[i].seqNo <= c) && (forall i | 0 <= i < |b| :: c < b[i].seqNo)
    ensures SeqSorted(a + b)
  {
  }

  lemma PageInv(w: Walk, j: JournalState, now: nat, limit: nat, budget: nat)
    requires WalkInv(w) && Inv(j, now) && HighWater(w.j.durable) <= HighWater(j.durable)
    ensures var page := Page(j.ix.inbound, w.cursor, limit, budget);
            WalkInv(Walk(j, now, NextCursor(page, w.cursor), w.seen + page, HasMore(j.ix.inbound, w.cursor, limit, budget)))
  {
    hide Inv, Page, HasMore;
    var m := j.ix.inbound;
    var page := Page(m, w.cursor, limit, budget);
    InboxBelowHighWater(j, now);
    PageMeaning(m, w.cursor, limit, budget, Key([], []));
    SortedConcat(w.seen, page, w.cursor);
    if |page| > 0 {
      assert page[|page| - 1] in page;
    }
  }

  lemma StepHighWater(j: JournalState, op: Op, now: nat)
    requires Inv(j, now)
    ensures HighWater(j.durable) <= HighWater(Step(j, op, now).j.durable)
  {
    hide Inv, Step;
    StepInv(j, op, now);
    StepDurablePrefix(j, op, now);
    PrefixHighWater(j.durable, Step(j, op, now).j.durable);
  }

  lemma {:induction false} PrefixHighWater(a: seq<Entry>, b: seq<Entry>)
    requires a <= b
    ensures HighWater(a) <= HighWater(b)
  {
    if |a| == |b| {
      assert a == b;
    } else {
      PrefixHighWater(a, b[..|b| - 1]);
    }
  }

  lemma {:induction false} RunHighWater(j: JournalState, start: nat, ops: seq<Timed>)
    requires Inv(j, start) && InOrder(start, ops)
    ensures HighWater(j.durable) <= HighWater(Run(j, ops).durable)
  {
    hide Inv, Step;
    if |ops| > 0 {
      var front, last := ops[..|ops| - 1], ops[|ops| - 1];
      RunHighWater(j, start, front);
      RunInv(j, start, front);
      LaterInv(Run(j, front), EndTime(start, front), last.now);
      StepHighWater(Run(j, front), last.op, last.now);
    }
  }

  lemma VisitInv(w: Walk, v: Visit)
    requires WalkInv(w) && InOrder(w.now, v.ops)
    ensures WalkInv(VisitStep(w, v)) && HighWater(w.j.durable) <= HighWater(VisitStep(w, v).j.durable)
  {
    hide Inv, Run, Page, HasMore;
    RunInv(w.j, w.now, v.ops);
    RunHighWater(w.j, w.now, v.ops);
    PageInv(w, Run(w.j, v.ops), EndTime(w.now, v.ops), v.limit, v.budget);
  }

  /** Whatever happens between pages, the reader sees items in strictly increasing sequence order, so none twice. */
  lemma {:induction false} WalkSeesInOrder(w: Walk, visits: seq<Visit>)
    requires WalkInv(w) && VisitsInOrder(w, visits)
    ensures WalkInv(Walked(w, visits)) && SeqSorted(Walked(w, visits).seen)
    ensures HighWater(w.j.durable) <= HighWater(Walked(w, visits).j.durable)
  {
    hide Inv, VisitStep;
    if |visits| > 0 {
      var n := |visits| - 1;
      assert forall i | 0 <= i < n :: visits[..n][..i] == visits[..i];
      WalkSeesInOrder(w, visits[..n]);
      VisitInv(Walked(w, visits[..n]), visits[n]);
    }
  }

  /** The record is in the inbox, unconsumed, at every page from visit `from` on. */
  ghost predicate StaysUnconsumed(w: Walk, visits: seq<Visit>, from: nat, k: Key, r: Inbound) {
    forall i | from < i <= |visits| :: IsLive(Walked(w, visits[..i]).j.ix.inbound, k) && Walked(w, visits[..i]).j.ix.inbound[k] == r
  }

  lemma VisitFinds(w: Walk, v: Visit, k: Key, r: Inbound)
    requires WalkInv(w) && InOrder(w.now, v.ops) && w.cursor < r.seqNo
    requires IsLive(VisitStep(w, v).j.ix.inbound, k) && VisitStep(w, v).j.ix.inbound[k] == r
    ensures var w' := VisitStep(w, v);
            InboundEntry(k, r) in w'.seen || (w'.more && w'.cursor < r.seqNo)
  {
    hide Inv, Run, Page, HasMore;
    var j, now := Run(w.j, v.ops), EndTime(w.now, v.ops);
    RunInv(w.j, w.now, v.ops);
    InboxBelowHighWater(j, now);
    LiveHasPayload(j, now, k);
    PageMeaning(j.ix.inbound, w.cursor, v.limit, v.budget, k);
  }

  lemma LiveHasPayload(j: JournalState, now: nat, k: Key)
    requires Inv(j, now) && IsLive(j.ix.inbound, k)
    ensures j.ix.inbound[k].payload.Some?
  {
    hide Inv;
    IndexFacts(j, now);
    assert InboundOk(j.ix.inbound[k]);
  }

  lemma {:induction false} NotYetSeenIsAhead(w: Walk, visits: seq<Visit>, from: nat, k: Key, r: Inbound)
    requires WalkInv(w) && VisitsInOrder(w, visits) && from < |visits|
    requires Walked(w, visits[..from]).cursor < r.seqNo
    requires StaysUnconsumed(w, visits, from, k, r)
    ensures var w' := Walked(w, visits); InboundEntry(k, r) in w'.seen || (w'.more && w'.cursor < r.seqNo)
  {
    hide Inv, VisitStep, WalkInv, VisitsInOrder, StaysUnconsumed, Walked;
    var n := |visits| - 1;
    var front := visits[..n];
    LastVisit(w, visits, from, k, r);
    WalkSeesInOrder(w, front);
    if from < n {
      assert front[..from] == visits[..from];
      NotYetSeenIsAhead(w, front, from, k, r);
    } else {
      assert front == visits[..from];
    }
    var w1 := Walked(w, front);
    if w1.cursor < r.seqNo {
      VisitFinds(w1, visits[n], k, r);
    }
    SeenStays(w1, visits[n], InboundEntry(k, r));
  }

  /** The walk without its last visit, and that visit. */
  lemma LastVisit(w: Walk, visits: seq<Visit>, from: nat, k: Key, r: Inbound)
    requires from < |visits| && VisitsInOrder(w, visits) && StaysUnconsumed(w, visits, from, k, r)
    ensures var n := |visits| - 1;
            var w1 := Walked(w, visits[..n]);
            var w2 := VisitStep(w1, visits[n]);
            && VisitsInOrder(w, visits[..n]) && StaysUnconsumed(w, visits[..n], from, k, r) && Walked(w, visits) == w2
            && InOrder(w1.now, visits[n].ops) && IsLive(w2.j.ix.inbound, k) && w2.j.ix.inbound[k] == r
  {
    hide VisitStep, InOrder;
    var n := |visits| - 1;
    assert forall i | 0 <= i <= n :: visits[..n][..i] == visits[..i];
    assert visits[..n + 1] == visits;
  }

  lemma SeenStays(w: Walk, v: Visit, e: Entry)
    ensures e in w.seen ==> e in VisitStep(w, v).seen
  {
    hide Run, Page, HasMore;
  }

  ghost function StartOfWalk(j: JournalState, now: nat): Walk {
    Walk(j, now, 0, [], true)
  }

  /** A reader that follows the cursor from 0 until a page says there is no more sees, exactly once and in order, every
      item that stays unconsumed to the end: items that were there at the start, and items accepted while it was reading,
      with consumes, compactions and restarts between the pages and any limits and budgets. */
  lemma CursorVisitsExactlyOnce(j: JournalState, now: nat, visits: seq<Visit>, from: nat, k: Key, r: Inbound)
    requires Inv(j, now) && VisitsInOrder(StartOfWalk(j, now), visits) && from < |visits|
    requires from == 0 || r.seqNo > HighWater(Walked(StartOfWalk(j, now), visits[..from]).j.durable)
    requires r.seqNo > 0 && StaysUnconsumed(StartOfWalk(j, now), visits, from, k, r)
    requires !Walked(StartOfWalk(j, now), visits).more
    ensures var seen := Walked(StartOfWalk(j, now), visits).seen;
            && SeqSorted(seen)
            && exists i :: 0 <= i < |seen| && seen[i] == InboundEntry(k, r)
                           && forall i' | 0 <= i' < |seen| && seen[i'].seqNo == r.seqNo :: i' == i
  {
    hide Inv, VisitStep, Walked, SeqSorted, StaysUnconsumed, VisitsInOrder, WalkInv;
    var w := StartOfWalk(j, now);
    StartInv(j, now);
    WalkSeesInOrder(w, visits);
    CursorBehind(w, visits, from, r.seqNo);
    NotYetSeenIsAhead(w, visits, from, k, r);
    SeenOnce(Walked(w, visits).seen, InboundEntry(k, r));
  }

  lemma StartInv(j: JournalState, now: nat)
    requires Inv(j, now)
    ensures WalkInv(StartOfWalk(j, now))
  {
    hide Inv;
  }

  /** A record numbered after everything written by visit `from` is still ahead of the cursor there. */
  lemma CursorBehind(w: Walk, visits: seq<Visit>, from: nat, n: nat)
    requires WalkInv(w) && VisitsInOrder(w, visits) && from <= |visits|
    requires if from == 0 then w.cursor < n else HighWater(Walked(w, visits[..from]).j.durable) < n
    ensures Walked(w, visits[..from]).cursor < n
  {
    hide Inv, VisitStep;
    if from > 0 {
      assert forall i | 0 <= i < from :: visits[..from][..i] == visits[..i];
      WalkSeesInOrder(w, visits[..from]);
    }
  }

  lemma SeenOnce(seen: seq<Entry>, e: Entry)
    requires SeqSorted(seen) && e in seen
    ensures exists i :: 0 <= i < |seen| && seen[i] == e && forall i' | 0 <= i' < |seen| && seen[i'].seqNo == e.seqNo :: i' == i
  {
    var i :| 0 <= i < |seen| && seen[i] == e;
    assert forall i' | 0 <= i' < |seen| && seen[i'].seqNo == e.seqNo :: i' == i;
  }
}
