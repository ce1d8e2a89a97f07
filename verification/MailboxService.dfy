/**
  The store, the recording transport and the transaction service as objects.

  Each service method is proved equal to its call run alone; the faults are what the store and the transport do at each
  step, and a `Crash` fault stops the call where the service's crash points do.
 */
module MailboxService {
  import opened Basics
  import opened MailboxModel
  import opened MailboxPolicy
  import P = MailboxProtocol
  import opened MailboxProtocol

  datatype Read = Read(open: Option<OpenTransaction>) | ReadFailed

  class TransactionStore {
    var open: Option<OpenTransaction>
    var quarantine: seq<Quarantined>
    const exclusive: bool

    constructor (exclusive: bool)
      ensures Value() == Store(None, [], exclusive)
    {
      this.exclusive := exclusive;
      open, quarantine := None, [];
    }

    function Value(): Store
      reads this
    {
      Store(open, quarantine, exclusive)
    }

    method ReadOpen(f: Fault) returns (r: Read)
      ensures r == if f.Fine? then Read(Value().open) else ReadFailed
    {
      if f.Fine? {
        return Read(open);
      }
      return ReadFailed;
    }

    method Prepare(tx: OpenTransaction, f: Fault) returns (error: Option<StoreError>)
      modifies this
      ensures Stored(Value(), error) == P.Prepare(old(Value()), tx, f)
    {
      if f.Fails? {
        return Some(UnsafeStorage);
      }
      if open.Some? {
        return Some(AlreadyOpen);
      }
      open := Some(tx);
      error := Trouble(f);
    }

    method Replace(tx: OpenTransaction, f: Fault) returns (error: Option<StoreError>)
      modifies this
      ensures Stored(Value(), error) == P.Replace(old(Value()), tx, f)
    {
      if f.Fails? {
        return Some(UnsafeStorage);
      }
      if open.None? {
        return Some(NotFound);
      }
      if !MayReplace(open.value, tx) {
        return Some(InvalidRecord);
      }
      open := Some(tx);
      error := Trouble(f);
    }

    method Clear(expected: int, f: Fault) returns (error: Option<StoreError>)
      modifies this
      ensures Stored(Value(), error) == P.Clear(old(Value()), expected, f)
    {
      if f.Fails? {
        return Some(UnsafeStorage);
      }
      if open.None? {
        return Some(NotFound);
      }
      if open.value.delivery != expected {
        return Some(UnrelatedRecord);
      }
      open := None;
      error := Trouble(f);
    }

    method HasQuarantined(correlation: Tag) returns (found: bool)
      ensures found <==> HasCorrelation(quarantine, correlation)
    {
      for i := 0 to |quarantine|
        invariant forall k | 0 <= k < i :: quarantine[k].correlation != correlation
      {
        if quarantine[i].correlation == correlation {
          return true;
        }
      }
      return false;
    }

    method Abandon(f: Fault) returns (error: Option<StoreError>)
      modifies this
      ensures Stored(Value(), error) == P.Abandon(old(Value()), f)
    {
      if f.Fails? {
        return Some(UnsafeStorage);
      }
      if open.None? {
        return Some(NotFound);
      }
      var taken := HasQuarantined(open.value.claimId);
      if exclusive && taken {
        return Some(AlreadyOpen);
      }
      quarantine := quarantine + [QuarantineOf(open.value)];
      if !f.Lost? {
        open := None;
      }
      error := Trouble(f);
    }
  }

  datatype ClaimAnswer = NoClaimAnswer | ClaimAnswer(claimed: bool, claimId: Tag)

  /** `event` is `None` when the answer names no well-formed event. */
  datatype ReplyResponse = NoReplyAnswer | ReplyCreated(event: Option<EventId>) | ReplyConflict

  class RecordingTransport {
    var mailbox: seq<Candidate>
    var claims: map<int, Tag>
    var events: seq<ReplyEvent>
    var acks: seq<int>

    constructor (v: Server)
      ensures Value() == v
    {
      mailbox, claims, events, acks := v.mailbox, v.claims, v.events, v.acks;
    }

    function Value(): Server
      reads this
    {
      Server(mailbox, claims, events, acks)
    }

    method List(f: Fault) returns (r: Option<seq<Candidate>>)
      ensures r == if f.Fine? then Some(ListPending(Value())) else None
    {
      if f.Fine? {
        return Some(Without(mailbox, Acked(acks)));
      }
      return None;
    }

    method Claim(delivery: int, claimId: Tag, f: Fault) returns (r: ClaimAnswer)
      modifies this
      ensures Value() == if f.Fails? then old(Value()) else ServeClaim(old(Value()), delivery, claimId)
      ensures r.NoClaimAnswer? <==> f.Fails? || f.Lost?
      ensures r.ClaimAnswer? ==> r.claimed == Grants(old(Value()), delivery, claimId) && (r.claimed ==> (r.claimId == claimId <==> !f.Garbled?))
    {
      if f.Fails? {
        return NoClaimAnswer;
      }
      var granted := delivery !in claims || claims[delivery] == claimId;
      if granted {
        claims := claims[delivery := claimId];
      }
      if f.Lost? {
        return NoClaimAnswer;
      }
      var other := Tag(claimId.prefix, claimId.preimage + ['?']);
      assert |other.preimage| != |claimId.preimage|;
      return ClaimAnswer(granted, if f.Garbled? then other else claimId);
    }

    /** The reply already committed under the key, found by walking the events. */
    method Find(key: Tag) returns (found: Option<ReplyEvent>)
      ensures found == Committed(events, key)
    {
      var i := 0;
      while i < |events|
        invariant 0 <= i <= |events|
        invariant Committed(events, key) == Committed(events[i..], key)
      {
        if events[i].key == key {
          return Some(events[i]);
        }
        i := i + 1;
      }
      return None;
    }

    method SendReply(room: RoomId, key: Tag, text: string, f: Fault) returns (r: ReplyResponse)
      modifies this
      ensures Value() == if f.Fails? then old(Value()) else ServeReply(old(Value()), key, room, text)
      ensures r.NoReplyAnswer? <==> f.Fails? || f.Lost?
      ensures r.ReplyConflict? <==> !f.Fails? && !f.Lost? && ReplyAnswer(old(Value()), key, text).None?
      ensures r.ReplyCreated? ==> r.event == if f.Garbled? then None else ReplyAnswer(old(Value()), key, text)
    {
      if f.Fails? {
        return NoReplyAnswer;
      }
      var existing := Find(key);
      var id := EventId(|events|);
      if existing.None? {
        events := events + [ReplyEvent(key, room, text, id)];
      } else {
        id := existing.value.id;
      }
      if f.Lost? {
        return NoReplyAnswer;
      }
      if existing.Some? && existing.value.text != text {
        return ReplyConflict;
      }
      return ReplyCreated(if f.Garbled? then None else Some(id));
    }

    method LookupReply(key: Tag, f: Fault) returns (event: Option<EventId>)
      ensures var c := Committed(Value().events, key); event == if f.Fine? && c.Some? then Some(c.value.id) else None
    {
      var found := Find(key);
      if !f.Fine? || found.None? {
        return None;
      }
      return Some(found.value.id);
    }

    method Acknowledge(delivery: int, f: Fault) returns (ok: bool)
      modifies this
      ensures Value() == if f.Fails? then old(Value()) else ServeAck(old(Value()), delivery)
      ensures ok <==> f.Fine?
    {
      if f.Fails? {
        return false;
      }
      acks := acks + [delivery];
      ok := f.Fine?;
    }
  }

  // ------------------------------------------------------------------ service

  datatype Got = Got(tx: OpenTransaction) | Threw(error: ServiceError)

  lemma RunStep(w: World, t: Task, faults: seq<Fault>)
    requires !t.Done?
    ensures var n := TaskStep(w, t, FirstFault(faults)); RunAlone(w, t, faults) == RunAlone(n.world, n.task, LaterFaults(faults))
  {
    hide TaskStep;
  }

  lemma DoneStays()
    ensures forall w: World, t: Task, faults: seq<Fault> | t.Done? :: RunAlone(w, t, faults) == Next(w, t)
  {
  }

  /** How a claim that ended with `r` goes on. */
  function Onward(w: World, r: Got, after: After, faults: seq<Fault>): Next {
    match r
    case Got(tx) => RunAlone(w, AfterClaim(tx, after), faults)
    case Threw(e) => Next(w, Stop(e))
  }

  /** A claim call goes straight to looking at the open record. */
  lemma ClaimStartsByOpening(w: World, call: Call, faults: seq<Fault>)
    requires call.ClaimCall?
    ensures RunAlone(w, Start(call), [Fine] + faults) == RunAlone(w, Opening(call, Return), faults)
  {
    hide RunAlone;
    RunStep(w, Start(call), [Fine] + faults);
    assert ([Fine] + faults)[1..] == faults;
  }

  class TransactionService {
    const instance: Instance
    const store: TransactionStore
    const transport: RecordingTransport

    constructor (instance: Instance, store: TransactionStore, transport: RecordingTransport)
      ensures this.instance == instance && this.store == store && this.transport == transport
    {
      this.instance, this.store, this.transport := instance, store, transport;
    }

    function State(): World
      reads store, transport
    {
      World(instance, store.Value(), transport.Value())
    }

    method FinishClaim(prepared: OpenTransaction, ghost after: After, faults: seq<Fault>) returns (r: Got, rest: seq<Fault>)
      modifies store, transport
      ensures RunAlone(old(State()), Claiming(prepared, after), faults) == Onward(State(), r, after, rest)
    {
      hide RunAlone, MarkClaimed, AfterClaim;
      DoneStays();
      rest := faults;
      RunStep(State(), Claiming(prepared, after), rest);
      var f := FirstFault(rest);
      rest := LaterFaults(rest);
      if f.Crash? {
        return Threw(UpstreamUnavailable), rest;
      }
      var answer := transport.Claim(prepared.delivery, prepared.claimId, f);
      if answer.NoClaimAnswer? {
        return Threw(UpstreamUnavailable), rest;
      }
      if !answer.claimed {
        return Threw(ClaimConflict), rest;
      }
      if answer.claimId != prepared.claimId {
        return Threw(InvalidUpstreamResponse), rest;
      }
      r, rest := StoreClaimed(prepared, after, rest);
    }

    method StoreClaimed(prepared: OpenTransaction, ghost after: After, faults: seq<Fault>) returns (r: Got, rest: seq<Fault>)
      modifies store
      ensures RunAlone(old(State()), Granted(prepared, after), faults) == Onward(State(), r, after, rest)
    {
      hide RunAlone, MarkClaimed, AfterClaim;
      DoneStays();
      RunStep(State(), Granted(prepared, after), faults);
      var f := FirstFault(faults);
      rest := LaterFaults(faults);
      if f.Crash? {
        return Threw(UpstreamUnavailable), rest;
      }
      var made := MarkClaimed(prepared);
      if made.Refused? {
        return Threw(FromStore(made.error)), rest;
      }
      var error := store.Replace(made.tx, f);
      if error.Some? {
        return Threw(FromStore(error.value)), rest;
      }
      r := Got(made.tx);
    }

    method Claim(call: Call, ghost after: After, faults: seq<Fault>) returns (r: Got, rest: seq<Fault>)
      requires call.ClaimCall?
      modifies store, transport
      ensures RunAlone(old(State()), Opening(call, after), faults) == Onward(State(), r, after, rest)
      ensures after.Return? ==> RunAlone(old(State()), Start(call), [Fine] + faults) == Onward(State(), r, after, rest)
    {
      hide RunAlone, AfterClaim, NewTransaction, IsStuck;
      DoneStays();
      ClaimStartsByOpening(State(), call, faults);
      RunStep(State(), Opening(call, after), faults);
      var f := FirstFault(faults);
      rest := LaterFaults(faults);
      if f.Crash? {
        return Threw(UpstreamUnavailable), rest;
      }
      var read := store.ReadOpen(f);
      if read.ReadFailed? {
        return Threw(FromStore(UnsafeStorage)), rest;
      }
      if read.open.Some? {
        var existing := read.open.value;
        if existing.protocol != call.protocol {
          return Threw(ProtocolMismatch), rest;
        }
        if existing.delivery == call.delivery && existing.room == call.room {
          if IsStuck(existing) {
            return Threw(TransactionStuck), rest;
          }
          if existing.stage == Prepared {
            r, rest := FinishClaim(existing, after, rest);
            return;
          }
          return Got(existing), rest;
        }
        return Threw(NestedClaim), rest;
      }
      var made := NewTransaction(instance, call.protocol, call.delivery, call.room, call.inboundEvent, call.inboundSeq,
                                 call.replyRequired, call.createdAt);
      if made.Refused? {
        return Threw(FromStore(made.error)), rest;
      }
      r, rest := PrepareAndFinish(made.tx, after, rest);
    }

    method PrepareAndFinish(prepared: OpenTransaction, ghost after: After, faults: seq<Fault>) returns (r: Got, rest: seq<Fault>)
      modifies store, transport
      ensures RunAlone(old(State()), Preparing(prepared, after), faults) == Onward(State(), r, after, rest)
    {
      hide RunAlone, AfterClaim;
      DoneStays();
      RunStep(State(), Preparing(prepared, after), faults);
      var f := FirstFault(faults);
      rest := LaterFaults(faults);
      if f.Crash? {
        return Threw(UpstreamUnavailable), rest;
      }
      var error := store.Prepare(prepared, f);
      if error.Some? {
        return Threw(FromStore(error.value)), rest;
      }
      r, rest := FinishClaim(prepared, after, rest);
    }

    /** Acknowledge on the server, then clear the record. */
    method AcknowledgeAndClear(open: OpenTransaction, after: After, faults: seq<Fault>) returns (outcome: Outcome)
      modifies store, transport
      ensures RunAlone(old(State()), Acking(open, after), faults) == Next(State(), Done(outcome))
    {
      hide RunAlone, AfterClear;
      DoneStays();
      RunStep(State(), Acking(open, after), faults);
      var f, rest := FirstFault(faults), LaterFaults(faults);
      if f.Crash? {
        return Failed(UpstreamUnavailable);
      }
      var ok := transport.Acknowledge(open.delivery, f);
      if !ok {
        return Failed(UpstreamUnavailable);
      }
      outcome := ClearRecord(open, after, rest);
    }

    method ClearRecord(open: OpenTransaction, after: After, faults: seq<Fault>) returns (outcome: Outcome)
      modifies store
      ensures RunAlone(old(State()), Clearing(open, after), faults) == Next(State(), Done(outcome))
    {
      hide RunAlone, Evaluate;
      DoneStays();
      RunStep(State(), Clearing(open, after), faults);
      var f, rest := FirstFault(faults), LaterFaults(faults);
      if f.Crash? {
        return Failed(UpstreamUnavailable);
      }
      var error := store.Clear(open.delivery, f);
      if error.Some? {
        return Failed(FromStore(error.value));
      }
      outcome := AfterClear(open, after).outcome;
    }

    method SettleReceiptOnly(open: OpenTransaction, quarantined: seq<Quarantined>, remaining: seq<Candidate>, faults: seq<Fault>)
      returns (outcome: Outcome)
      modifies store, transport
      ensures RunAlone(old(State()), SettleTask(open, Settle(quarantined, remaining)), faults) == Next(State(), Done(outcome))
    {
      hide RunAlone;
      DoneStays();
      if open.stage != Claimed || open.replyRequired {
        return Failed(InvalidState);
      }
      outcome := AcknowledgeAndClear(open, Settle(quarantined, remaining), faults);
    }

    /** `drainReceipts` and `claimNext`. */
    method Proceed(call: Call, faults: seq<Fault>) returns (outcome: Outcome)
      requires call.DrainCall? || call.ClaimNextCall?
      modifies store, transport
      ensures RunAlone(old(State()), Start(call), faults) == Next(State(), Done(outcome))
    {
      hide RunAlone, Evaluate, IsStuck, SettleTask;
      DoneStays();
      RunStep(State(), Start(call), faults);
      var f, rest := FirstFault(faults), LaterFaults(faults);
      if f.Crash? {
        return Failed(UpstreamUnavailable);
      }
      var read := store.ReadOpen(f);
      if read.ReadFailed? {
        return Failed(FromStore(UnsafeStorage));
      }
      if read.open.None? {
        outcome := ListAndChoose(call, rest);
        return;
      }
      var open := read.open.value;
      if open.protocol == call.protocol && !IsStuck(open) && !open.replyRequired
         && (call.ClaimNextCall? && call.allowedRoom.Some? ==> open.room == call.allowedRoom.value) {
        outcome := SettleReceiptOnly(open, store.quarantine, [], rest);
        return;
      }
      outcome := DeferToOpen(call, open, f);
    }

    /** The open transaction forbids, or needs, something other than settling a receipt. */
    method DeferToOpen(call: Call, open: OpenTransaction, ghost f: Fault) returns (outcome: Outcome)
      requires (call.DrainCall? || call.ClaimNextCall?) && f.Fine? && store.open == Some(open)
      requires !(open.protocol == call.protocol && !IsStuck(open) && !open.replyRequired
                 && (call.ClaimNextCall? && call.allowedRoom.Some? ==> open.room == call.allowedRoom.value))
      ensures StartNext(State(), call, f) == Done(outcome)
    {
      hide Evaluate, IsStuck, SettleTask;
      if open.protocol != call.protocol {
        return Failed(ProtocolMismatch);
      }
      if IsStuck(open) {
        return Failed(TransactionStuck);
      }
      if call.ClaimNextCall? && call.allowedRoom.Some? && open.room != call.allowedRoom.value {
        return Failed(RoomMismatch);
      }
      var e := Evaluate(call.protocol, [], Some(open), store.quarantine);
      if e.None? {
        return Failed(ProtocolMismatch);
      }
      if call.DrainCall? {
        return Report(e.value, Some(true), true, false);
      }
      return Report(e.value, None, false, false);
    }

    method ListAndChoose(call: Call, faults: seq<Fault>) returns (outcome: Outcome)
      requires call.DrainCall? || call.ClaimNextCall?
      modifies store, transport
      ensures RunAlone(old(State()), Listing(call), faults) == Next(State(), Done(outcome))
    {
      hide RunAlone, ListPending;
      DoneStays();
      RunStep(State(), Listing(call), faults);
      var f, rest := FirstFault(faults), LaterFaults(faults);
      var candidates := transport.List(f);
      if candidates.None? {
        return Failed(UpstreamUnavailable);
      }
      outcome := Choose(call, candidates.value, rest);
    }

    method Choose(call: Call, candidates: seq<Candidate>, faults: seq<Fault>) returns (outcome: Outcome)
      requires call.DrainCall? || call.ClaimNextCall?
      modifies store, transport
      ensures RunAlone(old(State()), Choosing(call, candidates), faults) == Next(State(), Done(outcome))
    {
      hide RunAlone, Without, InRoom, Earliest, QuarantinedIds, AfterClaim;
      DoneStays();
      RunStep(State(), Choosing(call, candidates), faults);
      var f, rest := FirstFault(faults), LaterFaults(faults);
      if f.Crash? {
        return Failed(UpstreamUnavailable);
      }
      if !f.Fine? {
        return Failed(FromStore(UnsafeStorage));
      }
      var scoped, quarantined := Scoped(call, candidates), store.quarantine;
      var e := Evaluate(call.protocol, scoped, None, quarantined).value;
      if e.actionable == [] {
        outcome := Report(e, None, false, false);
        return;
      }
      var next := Earliest(e.actionable);
      if call.DrainCall? && next.replyRequired {
        outcome := Report(e, Some(true), true, false);
        return;
      }
      outcome := ClaimCandidate(call, next, quarantined, scoped, rest);
    }

    method ClaimCandidate(call: Call, next: Candidate, quarantined: seq<Quarantined>, scoped: seq<Candidate>, faults: seq<Fault>)
      returns (outcome: Outcome)
      requires call.DrainCall? || call.ClaimNextCall?
      modifies store, transport
      ensures var after := if next.replyRequired then Announce(quarantined, scoped) else Settle(quarantined, Without(scoped, {next.delivery}));
              RunAlone(old(State()), Opening(ClaimOf(call.protocol, next, call.createdAt), after), faults) == Next(State(), Done(outcome))
    {
      hide RunAlone, Without, Evaluate, SettleTask;
      DoneStays();
      var remaining := Without(scoped, {next.delivery});
      ghost var after := if next.replyRequired then Announce(quarantined, scoped) else Settle(quarantined, remaining);
      var r, rest := Claim(ClaimOf(call.protocol, next, call.createdAt), after, faults);
      if r.Threw? {
        return Failed(r.error);
      }
      if !next.replyRequired {
        outcome := SettleReceiptOnly(r.tx, quarantined, remaining, rest);
        return;
      }
      var e := Evaluate(r.tx.protocol, scoped, Some(r.tx), quarantined);
      outcome := if e.None? then Failed(ProtocolMismatch) else Report(e.value, Some(true), false, false);
    }

    method Reply(call: Call, faults: seq<Fault>) returns (outcome: Outcome)
      requires call.ReplyCall?
      modifies store, transport
      ensures RunAlone(old(State()), Start(call), faults) == Next(State(), Done(outcome))
    {
      hide RunAlone, IsStuck;
      DoneStays();
      RunStep(State(), Start(call), faults);
      var f, rest := FirstFault(faults), LaterFaults(faults);
      if f.Crash? {
        return Failed(UpstreamUnavailable);
      }
      var refused := CheckReply(call, f);
      if refused.Some? {
        outcome := refused.value;
        return;
      }
      outcome := SendAndRecord(store.open.value, call.text, rest);
    }

    /** The checks before a reply is sent; `None` lets it through. */
    method CheckReply(call: Call, f: Fault) returns (stop: Option<Outcome>)
      requires call.ReplyCall?
      ensures stop.Some? ==> StartReply(State(), call, f) == Done(stop.value)
      ensures stop.None? ==> store.open.Some? && StartReply(State(), call, f) == Replying(store.open.value, call.text)
    {
      hide IsStuck;
      if |call.text| == 0 || |call.text| > MaxReplyBytes {
        return Some(Failed(InvalidInput));
      }
      var read := store.ReadOpen(f);
      if read.ReadFailed? {
        return Some(Failed(FromStore(UnsafeStorage)));
      }
      if read.open.None? {
        return Some(Failed(NotOpen));
      }
      var open := read.open.value;
      if open.protocol != call.protocol {
        return Some(Failed(ProtocolMismatch));
      }
      if open.room != call.room {
        return Some(Failed(RoomMismatch));
      }
      if open.inboundEvent.Some? && call.inReplyTo.Some? && call.inReplyTo != open.inboundEvent {
        return Some(Failed(InvalidInput));
      }
      if IsStuck(open) {
        return Some(Failed(TransactionStuck));
      }
      if open.stage == Replied {
        return Some(Transaction(open));
      }
      if open.stage != Claimed {
        return Some(Failed(InvalidState));
      }
      return None;
    }

    method SendAndRecord(open: OpenTransaction, text: string, faults: seq<Fault>) returns (outcome: Outcome)
      modifies store, transport
      ensures RunAlone(old(State()), Replying(open, text), faults) == Next(State(), Done(outcome))
    {
      hide RunAlone, ServeReply, ReplyAnswer;
      DoneStays();
      RunStep(State(), Replying(open, text), faults);
      var f, rest := FirstFault(faults), LaterFaults(faults);
      if f.Crash? {
        return Failed(UpstreamUnavailable);
      }
      var answer := transport.SendReply(open.room, open.replyKey, text, f);
      match answer
      case NoReplyAnswer =>
        outcome := Failed(UpstreamUnavailable);
      case ReplyConflict =>
        outcome := RecoverConflict(open, rest);
      case ReplyCreated(event) =>
        if event.None? {
          return Failed(InvalidUpstreamResponse);
        }
        outcome := RecordReply(open, event.value, Created, rest);
    }

    /** A conflict counts as a reply only once its event has been looked up under the key. */
    method RecoverConflict(open: OpenTransaction, faults: seq<Fault>) returns (outcome: Outcome)
      modifies store
      ensures RunAlone(old(State()), LookingUp(open), faults) == Next(State(), Done(outcome))
    {
      hide RunAlone, Committed;
      DoneStays();
      RunStep(State(), LookingUp(open), faults);
      var f, rest := FirstFault(faults), LaterFaults(faults);
      if f.Crash? {
        return Failed(UpstreamUnavailable);
      }
      var recovered := transport.LookupReply(open.replyKey, f);
      if recovered.None? {
        return Failed(UnverifiedReplyConflict);
      }
      outcome := RecordReply(open, recovered.value, IdempotencyConflict, rest);
    }

    method RecordReply(open: OpenTransaction, event: EventId, resolution: Resolution, faults: seq<Fault>) returns (outcome: Outcome)
      modifies store
      ensures RunAlone(old(State()), Found(open, event, resolution), faults) == Next(State(), Done(outcome))
    {
      hide RunAlone, MarkReplied;
      DoneStays();
      RunStep(State(), Found(open, event, resolution), faults);
      var f, rest := FirstFault(faults), LaterFaults(faults);
      if f.Crash? {
        return Failed(UpstreamUnavailable);
      }
      var made := MarkReplied(open, Some(event), resolution);
      if made.Refused? {
        return Failed(FromStore(made.error));
      }
      var error := store.Replace(made.tx, f);
      outcome := if error.Some? then Failed(FromStore(error.value)) else Transaction(made.tx);
    }

    method Acknowledge(call: Call, faults: seq<Fault>) returns (outcome: Outcome)
      requires call.AcknowledgeCall?
      modifies store, transport
      ensures RunAlone(old(State()), Start(call), faults) == Next(State(), Done(outcome))
    {
      hide RunAlone;
      DoneStays();
      RunStep(State(), Start(call), faults);
      var f, rest := FirstFault(faults), LaterFaults(faults);
      if f.Crash? {
        outcome := Failed(UpstreamUnavailable);
      } else {
        var read := store.ReadOpen(f);
        if read.ReadFailed? {
          outcome := Failed(FromStore(UnsafeStorage));
        } else if read.open.None? {
          outcome := Failed(NotOpen);
        } else if read.open.value.protocol != call.protocol {
          outcome := Failed(ProtocolMismatch);
        } else if call.expected.Some? && call.expected.value != read.open.value.delivery {
          outcome := Failed(UnrelatedAcknowledgement);
        } else if read.open.value.stage != Replied || read.open.value.replyEvent.None? {
          outcome := Failed(InvalidState);
        } else {
          outcome := AcknowledgeAndClear(read.open.value, Return, rest);
          return;
        }
      }
    }

    method ReportFailure(call: Call, faults: seq<Fault>) returns (outcome: Outcome)
      requires call.FailureCall?
      modifies store
      ensures RunAlone(old(State()), Start(call), faults) == Next(State(), Done(outcome))
    {
      hide RunAlone, RecordFailure, IsStuck;
      DoneStays();
      RunStep(State(), Start(call), faults);
      var f, rest := FirstFault(faults), LaterFaults(faults);
      if f.Crash? {
        outcome := Failed(UpstreamUnavailable);
      } else {
        var read := store.ReadOpen(f);
        if read.ReadFailed? {
          outcome := Failed(FromStore(UnsafeStorage));
        } else if read.open.None? {
          outcome := Failed(NotOpen);
        } else if read.open.value.protocol != call.protocol {
          outcome := Failed(ProtocolMismatch);
        } else {
          var made := RecordFailure(read.open.value, call.reason);
          if made.Made? {
            outcome := StoreFailure(made.tx, rest);
            return;
          }
          outcome := Failed(FromStore(made.error));
        }
      }
    }

    method StoreFailure(next: OpenTransaction, faults: seq<Fault>) returns (outcome: Outcome)
      modifies store
      ensures RunAlone(old(State()), Recording(next), faults) == Next(State(), Done(outcome))
    {
      hide RunAlone, IsStuck;
      DoneStays();
      RunStep(State(), Recording(next), faults);
      var f, rest := FirstFault(faults), LaterFaults(faults);
      if f.Crash? {
        outcome := Failed(UpstreamUnavailable);
      } else {
        var error := store.Replace(next, f);
        outcome := if error.Some? then Failed(FromStore(error.value))
                   else if IsStuck(next) then Failed(TransactionStuck) else Transaction(next);
      }
    }

    method Abandon(call: Call, faults: seq<Fault>) returns (outcome: Outcome)
      requires call.AbandonCall?
      modifies store
      ensures RunAlone(old(State()), Start(call), faults) == Next(State(), Done(outcome))
    {
      hide RunAlone;
      DoneStays();
      RunStep(State(), Start(call), faults);
      var f, rest := FirstFault(faults), LaterFaults(faults);
      if f.Crash? {
        outcome := Failed(UpstreamUnavailable);
      } else {
        var read := store.ReadOpen(f);
        if read.ReadFailed? {
          outcome := Failed(FromStore(UnsafeStorage));
        } else if read.open.None? {
          outcome := Failed(NotOpen);
        } else if read.open.value.protocol != call.protocol {
          outcome := Failed(ProtocolMismatch);
        } else {
          outcome := Quarantine(read.open.value, rest);
          return;
        }
      }
    }

    method Quarantine(open: OpenTransaction, faults: seq<Fault>) returns (outcome: Outcome)
      requires store.open == Some(open)
      modifies store
      ensures RunAlone(old(State()), Abandoning(open), faults) == Next(State(), Done(outcome))
    {
      hide RunAlone, HasCorrelation;
      DoneStays();
      RunStep(State(), Abandoning(open), faults);
      var f, rest := FirstFault(faults), LaterFaults(faults);
      if f.Crash? {
        outcome := Failed(UpstreamUnavailable);
      } else {
        var error := store.Abandon(f);
        outcome := if error.Some? then Failed(FromStore(error.value)) else Abandoned(QuarantineOf(open));
      }
    }
  }
}
