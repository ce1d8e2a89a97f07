/** Handing out due messages under a lease: which ones, and what repeating it at one instant does. */
module RetryLeases {
  import opened Basics
  import opened PeerTypes
  import opened JournalHistory
  import opened JournalSpec

  datatype DueOutbound = DueOutbound(id: MessageId, payload: Bytes, addr: Addr, queuedAt: nat)

  predicate IsExpired(r: Outbound, now: nat, expiry: nat) {
    r.state.Queued? && now >= r.queuedAt + expiry
  }

  predicate IsDue(r: Outbound, now: nat, expiry: nat) {
    r.state.Queued? && !IsExpired(r, now, expiry) && r.nextAttempt <= now && r.payload.Some? && r.addr.Some?
  }

  function ExpiredIds(m: OutMap, now: nat, expiry: nat): set<MessageId> {
    set id | id in m && IsExpired(m[id], now, expiry)
  }

  function DueIds(m: OutMap, now: nat, expiry: nat): set<MessageId> {
    set id | id in m && IsDue(m[id], now, expiry)
  }

  function Min(a: nat, b: nat): nat {
    if a < b then a else b
  }

  /** One call may hand out `taken`: due messages, as many as there are up to the bound. */
  ghost predicate MayTake(m: OutMap, taken: set<MessageId>, now: nat, expiry: nat, maxDue: nat) {
    taken <= DueIds(m, now, expiry) && |taken| == Min(maxDue, |DueIds(m, now, expiry)|)
  }

  /** Every queued record is expired, handed out, still leased, cut by the bound, or (never in a valid index) incomplete. */
  lemma QueuedPartition(m: OutMap, taken: set<MessageId>, now: nat, expiry: nat, maxDue: nat, id: MessageId)
    requires MayTake(m, taken, now, expiry, maxDue)
    requires id in m && m[id].state.Queued? && OutboundOk(m[id])
    ensures var expired, leased := id in ExpiredIds(m, now, expiry), m[id].nextAttempt > now;
            && (expired ==> id !in taken)
            && (id in taken ==> !expired && !leased)
            && (!expired && !leased && id !in taken ==> |taken| == maxDue)
  {
    var due := DueIds(m, now, expiry);
    if id in due && id !in taken {
      assert |due| == |taken + (due - taken)| by {
        assert due == taken + (due - taken);
      }
      assert id in due - taken;
    }
  }

  lemma LeaseRemovesDue(m: OutMap, taken: set<MessageId>, now: nat, expiry: nat, until: nat)
    requires taken <= DueIds(m, now, expiry) && until > now
    ensures DueIds(LeaseAll(m, taken, until), now, expiry) == DueIds(m, now, expiry) - taken
  {
  }

  ghost function AfterRounds(m: OutMap, rounds: seq<set<MessageId>>, until: nat): OutMap {
    if |rounds| == 0 then m else LeaseAll(AfterRounds(m, rounds[..|rounds| - 1], until), rounds[|rounds| - 1], until)
  }

  ghost predicate AreRounds(m: OutMap, rounds: seq<set<MessageId>>, now: nat, expiry: nat, until: nat, maxDue: nat) {
    forall i | 0 <= i < |rounds| :: MayTake(AfterRounds(m, rounds[..i], until), rounds[i], now, expiry, maxDue)
  }

  ghost function AllTaken(rounds: seq<set<MessageId>>): set<MessageId> {
    if |rounds| == 0 then {} else AllTaken(rounds[..|rounds| - 1]) + rounds[|rounds| - 1]
  }

  lemma LeftOver(due: nat, n: nat, maxDue: nat, left: nat)
    requires left == if due <= n * maxDue then 0 else due - n * maxDue
    ensures left - Min(maxDue, left) == if due <= (n + 1) * maxDue then 0 else due - (n + 1) * maxDue
  {
    assert (n + 1) * maxDue == n * maxDue + maxDue;
  }

  lemma LastRound(m: OutMap, rounds: seq<set<MessageId>>, now: nat, expiry: nat, until: nat, maxDue: nat)
    requires |rounds| > 0 && AreRounds(m, rounds, now, expiry, until, maxDue)
    ensures AreRounds(m, rounds[..|rounds| - 1], now, expiry, until, maxDue)
    ensures MayTake(AfterRounds(m, rounds[..|rounds| - 1], until), rounds[|rounds| - 1], now, expiry, maxDue)
  {
    hide MayTake, AfterRounds;
    assert forall i | 0 <= i < |rounds| - 1 :: rounds[..|rounds| - 1][..i] == rounds[..i];
  }

  lemma OneRound(m: OutMap, taken: set<MessageId>, now: nat, expiry: nat, until: nat, maxDue: nat)
    requires MayTake(m, taken, now, expiry, maxDue) && until > now
    ensures var due, left := DueIds(m, now, expiry), DueIds(LeaseAll(m, taken, until), now, expiry);
            taken <= due && left == due - taken && |left| == |due| - Min(maxDue, |due|)
  {
    hide DueIds, LeaseAll;
    var due := DueIds(m, now, expiry);
    LeaseRemovesDue(m, taken, now, expiry, until);
    assert |due - taken| == |due| - |taken|;
  }

  /** Repeating the call at one instant with a future lease leaves only messages it has not handed out yet; `n` calls leave
      all but `n * maxDue` of them, so the calls run dry after handing each out. */
  lemma {:induction false} RepeatedCallsRunDry(m: OutMap, rounds: seq<set<MessageId>>, now: nat, expiry: nat, until: nat, maxDue: nat)
    requires AreRounds(m, rounds, now, expiry, until, maxDue) && until > now
    ensures var due, left := DueIds(m, now, expiry), DueIds(AfterRounds(m, rounds, until), now, expiry);
            && left == due - AllTaken(rounds) && AllTaken(rounds) <= due
            && |left| == if |due| <= |rounds| * maxDue then 0 else |due| - |rounds| * maxDue
  {
    hide DueIds, LeaseAll, AreRounds, MayTake;
    if |rounds| > 0 {
      var n := |rounds| - 1;
      LastRound(m, rounds, now, expiry, until, maxDue);
      RepeatedCallsRunDry(m, rounds[..n], now, expiry, until, maxDue);
      var m1 := AfterRounds(m, rounds[..n], until);
      OneRound(m1, rounds[n], now, expiry, until, maxDue);
      LeftOver(|DueIds(m, now, expiry)|, n, maxDue, |DueIds(m1, now, expiry)|);
    }
  }

  /** No message is handed out twice while its lease runs. */
  lemma {:induction false} RoundsAreDisjoint(m: OutMap, rounds: seq<set<MessageId>>, now: nat, expiry: nat, until: nat, maxDue: nat,
                                             i: nat, j: nat)
    requires AreRounds(m, rounds, now, expiry, until, maxDue) && until > now && i < j < |rounds|
    ensures rounds[i] !! rounds[j]
  {
    hide DueIds, LeaseAll;
    var front := rounds[..j];
    assert forall n | 0 <= n < j :: front[..n] == rounds[..n];
    RepeatedCallsRunDry(m, front, now, expiry, until, maxDue);
    assert MayTake(AfterRounds(m, front, until), rounds[j], now, expiry, maxDue);
    TakenIncludes(front, i);
  }

  lemma {:induction false} TakenIncludes(rounds: seq<set<MessageId>>, i: nat)
    requires i < |rounds|
    ensures rounds[i] <= AllTaken(rounds)
  {
    if i < |rounds| - 1 {
      TakenIncludes(rounds[..|rounds| - 1], i);
    }
  }
}
