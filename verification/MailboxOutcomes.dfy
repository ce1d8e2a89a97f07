/** What an undisturbed call answers and leaves behind, which calls change nothing, and when a transaction gets stuck. */
module MailboxOutcomes {
  import opened Basics
  import opened MailboxModel
  import opened MailboxPolicy
  import opened MailboxProtocol
  import opened MailboxSafety
  import opened MailboxSequential
  import opened MailboxResumption
  import opened MailboxDrain

  lemma RunStep(w: World, t: Task, faults: seq<Fault>)
    requires !t.Done?
    ensures var n := TaskStep(w, t, FirstFault(faults)); RunAlone(w, t, faults) == RunAlone(n.world, n.task, LaterFaults(faults))
  {
    hide TaskStep;
  }

  // ------------------------------------------------------------ wrong calls

  /** The call is not about the open transaction, or not one that can be made. */
  predicate Mismatched(tx: OpenTransaction, call: Call) {
    || call.protocol != tx.protocol
    || (call.ClaimCall? && (call.delivery != tx.delivery || call.room != tx.room))
    || (call.ReplyCall? && (call.room != tx.room || |call.text| < 1 || |call.text| > 32768
                            || (tx.inboundEvent.Some? && call.inReplyTo.Some? && call.inReplyTo.value != tx.inboundEvent.value)))
    || (call.AcknowledgeCall? && call.expected.Some? && call.expected.value != tx.delivery)
    || (call.ClaimNextCall? && call.allowedRoom.Some? && call.allowedRoom.value != tx.room)
  }

  lemma MismatchStops(w: World, tx: OpenTransaction, call: Call, f: Fault)
    requires w.store.open == Some(tx) && Mismatched(tx, call)
    ensures var t := StartTask(w, call, f);
            (t.Done? && t.outcome.Failed?) || (call.ClaimCall? && t == Opening(call, Return))
    ensures call.ClaimCall? ==> var t := OpenTask(w, call, Return, f); t.Done? && t.outcome.Failed?
  {
    hide Evaluate, RecordFailure, IsStuck;
  }

  /** A call of another protocol, for another delivery or room, in reply to another event, or with no text or too much, is
      refused and changes nothing, whatever fails. */
  lemma MismatchedCallsChangeNothing(w: World, tx: OpenTransaction, call: Call, faults: seq<Fault>)
    requires w.store.open == Some(tx) && Mismatched(tx, call)
    ensures var n := RunAlone(w, Start(call), faults); n.world == w && n.task.outcome.Failed?
  {
    hide RunAlone, StartTask, OpenTask, Mismatched;
    var f, rest := FirstFault(faults), LaterFaults(faults);
    MismatchStops(w, tx, call, f);
    MismatchStops(w, tx, call, FirstFault(rest));
    RunStep(w, Start(call), faults);
    var t := TaskStep(w, Start(call), f).task;
    if t.Done? {
      DoneRun(w, t, rest);
    } else {
      RunStep(w, t, rest);
      DoneRun(w, TaskStep(w, t, FirstFault(rest)).task, LaterFaults(rest));
    }
  }

  lemma DoneRun(w: World, t: Task, faults: seq<Fault>)
    requires t.Done?
    ensures RunAlone(w, t, faults) == Next(w, t)
  {
  }

  /** With nothing open there is nothing to reply to, acknowledge, fail or abandon. */
  lemma NothingOpenChangesNothing(w: World, call: Call, faults: seq<Fault>)
    requires w.store.open.None? && (call.ReplyCall? || call.AcknowledgeCall? || call.FailureCall? || call.AbandonCall?)
    ensures var n := RunAlone(w, Start(call), faults); n.world == w && n.task.outcome.Failed?
  {
    hide RunAlone;
    RunStep(w, Start(call), faults);
    DoneRun(w, TaskStep(w, Start(call), FirstFault(faults)).task, LaterFaults(faults));
  }

  // -------------------------------------------------------------------- claim

  function WithOpen(w: World, tx: OpenTransaction): World {
    w.(store := w.store.(open := Some(tx)))
  }

  function WithClaim(w: World, d: int): World {
    w.(server := w.server.(claims := w.server.claims[d := ClaimIdFor(w.instance, d)]))
  }

  /** The record of a claim call, once claimed. */
  function ClaimedRecord(w: World, call: Call): OpenTransaction
    requires call.ClaimCall?
  {
    OpenTransaction(w.instance, call.protocol, call.delivery, call.room, call.inboundEvent, call.inboundSeq, call.replyRequired,
                    ClaimIdFor(w.instance, call.delivery), ReplyKeyFor(w.instance, call.delivery), Claimed, None, NoReply, 0, None, call.createdAt)
  }

  predicate ClaimFieldsOk(call: Call)
    requires call.ClaimCall?
  {
    && call.delivery > 0 && IsTimestamp(call.createdAt)
    && (call.inboundEvent.Some? <==> call.inboundSeq.Some?) && (call.inboundSeq.Some? ==> call.inboundSeq.value > 0)
  }

  /** Once prepared, the server decides: granted, the record is claimed; held by another, it stays prepared. */
  lemma FinishClaimOutcome(w: World, tx: OpenTransaction, after: After)
    requires w.store.open == Some(tx) && DecoderAccepts(tx) && tx.instance == w.instance && tx.stage == Prepared
    ensures var claimed := tx.(stage := Claimed);
            RunAlone(w, Claiming(tx, after), []) ==
            if Grants(w.server, tx.delivery, tx.claimId) then RunAlone(WithOpen(WithClaim(w, tx.delivery), claimed), AfterClaim(claimed, after), [])
            else Next(w, Done(Failed(ClaimConflict)))
  {
    hide RunAlone, FieldsOk, ClaimIdFor, ReplyKeyFor, AfterClaim;
    MovesAdvance(tx, EventId(0), Created, "");
    FineStep(w, Claiming(tx, after));
    if Grants(w.server, tx.delivery, tx.claimId) {
      FineStep(WithClaim(w, tx.delivery), Granted(tx, after));
      assert MarkClaimed(tx).tx == tx.(stage := Claimed);
    } else {
      Finished(w, Stop(ClaimConflict));
    }
  }

  lemma OpensRecord(w: World, call: Call, after: After)
    requires w.store.open.None? && call.ClaimCall?
    ensures OpenTask(w, call, after, Fine) ==
            if ClaimFieldsOk(call) then Preparing(ClaimedRecord(w, call).(stage := Prepared), after) else Stop(FromStore(InvalidRecord))
    ensures ClaimFieldsOk(call) ==> DecoderAccepts(ClaimedRecord(w, call).(stage := Prepared))
  {
    hide IsTimestamp, ClaimIdFor, ReplyKeyFor, IsReason;
  }

  /** With nothing open, a claim is written down, made at the server, and recorded; at another's delivery it stays prepared. */
  lemma OpeningOutcome(w: World, call: Call, after: After)
    requires w.store.open.None? && call.ClaimCall? && ClaimFieldsOk(call)
    ensures var tx := ClaimedRecord(w, call);
            RunAlone(w, Opening(call, after), []) ==
            if Grants(w.server, call.delivery, tx.claimId) then RunAlone(WithOpen(WithClaim(w, call.delivery), tx), AfterClaim(tx, after), [])
            else Next(WithOpen(w, tx.(stage := Prepared)), Done(Failed(ClaimConflict)))
  {
    hide RunAlone, ClaimFieldsOk, ClaimIdFor, ReplyKeyFor, AfterClaim, DecoderAccepts, OpenTask;
    var prepared := ClaimedRecord(w, call).(stage := Prepared);
    OpensRecord(w, call, after);
    FineStep(w, Opening(call, after));
    FineStep(w, Preparing(prepared, after));
    FinishClaimOutcome(WithOpen(w, prepared), prepared, after);
  }

  /** What an undisturbed claim answers and leaves, from any state. */
  lemma ClaimOutcome(w: World, call: Call)
    requires call.ClaimCall?
    requires w.store.open.Some? ==> DecoderAccepts(w.store.open.value) && w.store.open.value.instance == w.instance
    ensures var n := RunAlone(w, Start(call), []);
            match w.store.open
            case None =>
              var tx := ClaimedRecord(w, call);
              n == if !ClaimFieldsOk(call) then Next(w, Done(Failed(FromStore(InvalidRecord))))
                   else if Grants(w.server, call.delivery, tx.claimId) then Next(WithOpen(WithClaim(w, call.delivery), tx), Done(Transaction(tx)))
                   else Next(WithOpen(w, tx.(stage := Prepared)), Done(Failed(ClaimConflict)))
            case Some(tx) =>
              Mismatched(tx, call) || n ==
                if tx.failures >= 5 then Next(w, Done(Failed(TransactionStuck)))
                else if tx.stage != Prepared then Next(w, Done(Transaction(tx)))
                else if Grants(w.server, tx.delivery, tx.claimId) then
                  Next(WithOpen(WithClaim(w, tx.delivery), tx.(stage := Claimed)), Done(Transaction(tx.(stage := Claimed))))
                else Next(w, Done(Failed(ClaimConflict)))
  {
    hide RunAlone, ClaimFieldsOk, ClaimIdFor, ReplyKeyFor, DecoderAccepts, WithClaim, ClaimedRecord, OpenTask;
    FineStep(w, Start(call));
    if w.store.open.Some? {
      OpenFound(w, call);
      FineStep(w, Opening(call, Return));
      var tx := w.store.open.value;
      if !Mismatched(tx, call) {
        if tx.failures < 5 && tx.stage == Prepared {
          FinishClaimOutcome(w, tx, Return);
          Finished(WithOpen(WithClaim(w, tx.delivery), tx.(stage := Claimed)), Done(Transaction(tx.(stage := Claimed))));
        } else {
          Finished(w, OpenTask(w, call, Return, Fine));
        }
      }
    } else if ClaimFieldsOk(call) {
      OpeningOutcome(w, call, Return);
      var tx := ClaimedRecord(w, call);
      Finished(WithOpen(WithClaim(w, call.delivery), tx), Done(Transaction(tx)));
    } else {
      OpensRecord(w, call, Return);
      FineStep(w, Opening(call, Return));
      Finished(w, Stop(FromStore(InvalidRecord)));
    }
  }

  lemma OpenFound(w: World, call: Call)
    requires call.ClaimCall? && w.store.open.Some?
    ensures var tx := w.store.open.value;
            !Mismatched(tx, call) ==>
              OpenTask(w, call, Return, Fine) ==
              if tx.failures >= 5 then Stop(TransactionStuck) else if tx.stage == Prepared then Claiming(tx, Return) else Done(Transaction(tx))
  {
  }

  // -------------------------------------------------------------------- reply

  function RepliedRecord(tx: OpenTransaction, id: EventId, resolution: Resolution): OpenTransaction {
    tx.(stage := Replied, replyEvent := Some(id), resolution := resolution)
  }

  lemma RecordReplyOutcome(w: World, tx: OpenTransaction, id: EventId, resolution: Resolution)
    requires w.store.open == Some(tx) && DecoderAccepts(tx) && tx.stage == Claimed && !resolution.NoReply?
    ensures var replied := RepliedRecord(tx, id, resolution);
            RunAlone(w, Found(tx, id, resolution), []) == Next(WithOpen(w, replied), Done(Transaction(replied)))
  {
    hide RunAlone, FieldsOk, ClaimIdFor, ReplyKeyFor;
    MovesAdvance(tx, id, resolution, "");
    FineStep(w, Found(tx, id, resolution));
    var replied := RepliedRecord(tx, id, resolution);
    assert MarkReplied(tx, Some(id), resolution).tx == replied;
    Finished(WithOpen(w, replied), Done(Transaction(replied)));
  }

  /** The first text under a key becomes its event, in the claimed room; the same text again is answered with that event, and
      any other text is resolved to it as a conflict. */
  lemma SendOutcome(w: World, tx: OpenTransaction, text: string)
    requires w.store.open == Some(tx) && DecoderAccepts(tx) && tx.stage == Claimed
    ensures var c, events := Committed(w.server.events, tx.replyKey), w.server.events;
            var id := if c.None? then EventId(|events|) else c.value.id;
            var replied := RepliedRecord(tx, id, if c.Some? && c.value.text != text then IdempotencyConflict else Created);
            var w' := w.(server := w.server.(events := if c.None? then events + [ReplyEvent(tx.replyKey, tx.room, text, id)] else events));
            RunAlone(w, Replying(tx, text), []) == Next(WithOpen(w', replied), Done(Transaction(replied)))
  {
    hide RunAlone, DecoderAccepts, Committed;
    var c := Committed(w.server.events, tx.replyKey);
    FineStep(w, Replying(tx, text));
    if c.None? {
      var w' := w.(server := ServeReply(w.server, tx.replyKey, tx.room, text));
      RecordReplyOutcome(w', tx, EventId(|w.server.events|), Created);
    } else if c.value.text == text {
      RecordReplyOutcome(w, tx, c.value.id, Created);
    } else {
      FineStep(w, LookingUp(tx));
      RecordReplyOutcome(w, tx, c.value.id, IdempotencyConflict);
    }
  }

  /** What an undisturbed reply that fits the open transaction answers and leaves. */
  lemma ReplyOutcome(w: World, tx: OpenTransaction, call: Call)
    requires call.ReplyCall? && w.store.open == Some(tx) && DecoderAccepts(tx) && !Mismatched(tx, call)
    ensures var n := RunAlone(w, Start(call), []);
            if tx.failures >= 5 then n == Next(w, Done(Failed(TransactionStuck)))
            else match tx.stage
                 case Prepared => n == Next(w, Done(Failed(InvalidState)))
                 case Claimed => n == RunAlone(w, Replying(tx, call.text), []) && n.task.outcome.Transaction?
                 case Replied => n == Next(w, Done(Transaction(tx)))
  {
    hide RunAlone, DecoderAccepts, Committed;
    FineStep(w, Start(call));
    var t := StartTask(w, call, Fine);
    if t.Done? {
      Finished(w, t);
    } else {
      SendOutcome(w, tx, call.text);
    }
  }

  // ------------------------------------------------- acknowledge and abandon

  /** An undisturbed acknowledgement of a replied transaction acknowledges its delivery and closes it; otherwise it is refused. */
  lemma AcknowledgeOutcome(w: World, tx: OpenTransaction, call: Call)
    requires call.AcknowledgeCall? && w.store.open == Some(tx) && DecoderAccepts(tx) && !Mismatched(tx, call)
    ensures RunAlone(w, Start(call), []) ==
            if tx.stage != Replied then Next(w, Done(Failed(InvalidState)))
            else Next(w.(store := w.store.(open := None), server := w.server.(acks := w.server.acks + [tx.delivery])), Done(Acknowledged))
  {
    hide RunAlone, FieldsOk, ClaimIdFor, ReplyKeyFor;
    FineStep(w, Start(call));
    var t := StartTask(w, call, Fine);
    if t.Done? {
      Finished(w, t);
    } else {
      var w1 := w.(server := ServeAck(w.server, tx.delivery));
      FineStep(w, Acking(tx, Return));
      FineStep(w1, Clearing(tx, Return));
      Finished(w1.(store := w1.store.(open := None)), Done(Acknowledged));
    }
  }

  /** An undisturbed abandon moves the transaction to the quarantine of its protocol, from where that protocol is not offered
      its delivery again; the file store refuses to quarantine one delivery twice. */
  lemma AbandonOutcome(w: World, tx: OpenTransaction, call: Call)
    requires call.AbandonCall? && w.store.open == Some(tx) && !Mismatched(tx, call)
    ensures var n, entry := RunAlone(w, Start(call), []), Quarantined(tx.delivery, tx.protocol, tx.claimId);
            if w.store.exclusive && exists i :: 0 <= i < |w.store.quarantine| && w.store.quarantine[i].correlation == tx.claimId
            then n == Next(w, Done(Failed(FromStore(AlreadyOpen))))
            else && n == Next(w.(store := w.store.(open := None, quarantine := w.store.quarantine + [entry])), Done(Abandoned(entry)))
                 && forall c | c in Actionable(n.world, tx.protocol) :: c.delivery != tx.delivery
  {
    hide RunAlone;
    FineStep(w, Start(call));
    FineStep(w, Abandoning(tx));
    var n := TaskStep(w, Abandoning(tx), Fine);
    Finished(n.world, n.task);
    if n.task.outcome.Abandoned? {
      Withheld(n.world, tx.protocol, |w.store.quarantine|);
    }
  }

  /** A quarantined delivery is not actionable for its protocol. */
  lemma Withheld(w: World, protocol: Protocol, i: nat)
    requires i < |w.store.quarantine| && w.store.quarantine[i].protocol == protocol
    ensures forall c | c in Actionable(w, protocol) :: c.delivery != w.store.quarantine[i].delivery
  {
    hide Without, ListPending;
    var ids := QuarantinedIds(w.store.quarantine, protocol);
    forall c | c in Actionable(w, protocol)
      ensures c.delivery !in ids
    {
      WithoutMembers(ListPending(w.server), ids, c);
    }
  }

  // ----------------------------------------------------------------- failures

  /** A failure report on the open transaction counts one more failure; it answers stuck exactly from the fifth on. */
  lemma FailureOutcome(w: World, tx: OpenTransaction, reason: string)
    requires w.store.open == Some(tx) && DecoderAccepts(tx) && IsReason(reason)
    ensures var failed := tx.(failures := if tx.failures < 10000 then tx.failures + 1 else 10000, lastReason := Some(reason));
            RunAlone(w, Start(FailureCall(tx.protocol, reason)), []) ==
            Next(WithOpen(w, failed), Done(if tx.failures >= 4 then Failed(TransactionStuck) else Transaction(failed)))
  {
    hide RunAlone, FieldsOk, ClaimIdFor, ReplyKeyFor, IsReason;
    MovesAdvance(tx, EventId(0), Created, reason);
    var failed := RecordFailure(tx, reason).tx;
    assert failed == tx.(failures := if tx.failures < 10000 then tx.failures + 1 else 10000, lastReason := Some(reason));
    FineStep(w, Start(FailureCall(tx.protocol, reason)));
    FineStep(w, Recording(failed));
    var n := TaskStep(w, Recording(failed), Fine);
    Finished(n.world, n.task);
  }

  /** The answers to failure reports made one after another, and the world after them. */
  function Reports(w: World, protocol: Protocol, reasons: seq<string>): (World, seq<Outcome>)
    decreases |reasons|
  {
    if reasons == [] then (w, []) else
    var n := RunAlone(w, Start(FailureCall(protocol, reasons[0])), []);
    var (w', outcomes) := Reports(n.world, protocol, reasons[1..]);
    (w', [n.task.outcome] + outcomes)
  }

  /** Of the failure reports on a fresh transaction the first four are answered with it, and every later one with stuck; it
      counts them. */
  lemma {:induction false} FifthReportIsStuck(w: World, tx: OpenTransaction, reasons: seq<string>)
    requires w.store.open == Some(tx) && DecoderAccepts(tx) && tx.failures + |reasons| <= 10000
    requires forall i | 0 <= i < |reasons| :: IsReason(reasons[i])
    ensures var (w', outcomes) := Reports(w, tx.protocol, reasons);
            && |outcomes| == |reasons| && w'.server == w.server
            && w'.store.open.Some? && w'.store.open.value.failures == tx.failures + |reasons|
            && forall i | 0 <= i < |reasons| :: outcomes[i] == Failed(TransactionStuck) <==> tx.failures + i + 1 >= 5
    decreases |reasons|
  {
    hide RunAlone, IsReason, DecoderAccepts;
    if reasons != [] {
      FailureOutcome(w, tx, reasons[0]);
      MovesAdvance(tx, EventId(0), Created, reasons[0]);
      var failed := tx.(failures := tx.failures + 1, lastReason := Some(reasons[0]));
      SameFailed(tx, reasons[0]);
      FifthReportIsStuck(WithOpen(w, failed), failed, reasons[1..]);
    }
  }

  lemma SameFailed(tx: OpenTransaction, reason: string)
    requires DecoderAccepts(tx) && IsReason(reason) && tx.failures < 10000
    ensures RecordFailure(tx, reason) == Made(tx.(failures := tx.failures + 1, lastReason := Some(reason)))
    ensures DecoderAccepts(tx.(failures := tx.failures + 1, lastReason := Some(reason)))
  {
    hide ClaimIdFor, ReplyKeyFor, IsReason, IsTimestamp;
  }

  /** Nothing the call holds or has stored is stuck, and it is not a failure report. */
  ghost predicate FarFromStuck(w: World, t: Task) {
    && (w.store.open.Some? ==> w.store.open.value.failures <= 4)
    && (t.Start? ==> !t.call.FailureCall?) && (t.Opening? ==> t.call.ClaimCall?) && !t.Recording?
    && (t.Preparing? || t.Claiming? || t.Granted? || t.Replying? || t.LookingUp? || t.Found? ==> t.tx.failures <= 4)
    && t != Done(Failed(TransactionStuck))
  }

  lemma ReadFarFromStuck(w: World, t: Task, f: Fault)
    requires FarFromStuck(w, t) && (t.Start? || t.Listing? || t.Choosing? || t.Opening?)
    ensures FarFromStuck(w, ReadTask(w, t, f))
  {
    hide Evaluate, Without, InRoom, IsTimestamp, IsReason, ClaimIdFor, ReplyKeyFor, Earliest, ListPending;
  }

  lemma AskFarFromStuck(w: World, t: Task, f: Fault)
    requires FarFromStuck(w, t) && (t.Claiming? || t.Replying? || t.LookingUp? || t.Acking?)
    ensures var n := RequestStep(w, t, f); FarFromStuck(n.world, n.task)
  {
    hide Committed, Grants, ServeReply;
  }

  lemma WriteFarFromStuck(w: World, t: Task, f: Fault)
    requires FarFromStuck(w, t) && (t.Preparing? || t.Granted? || t.Found? || t.Clearing? || t.Abandoning?)
    ensures var n := WriteStep(w, t, f); FarFromStuck(n.world, n.task)
  {
    hide Evaluate, HasCorrelation, MarkClaimed, MarkReplied;
    if t.Granted? || t.Found? {
      MovesKeepFailures(t.tx, if t.Found? then Some(t.event) else None, if t.Found? then t.resolution else NoReply);
    }
  }

  lemma MovesKeepFailures(tx: OpenTransaction, event: Option<EventId>, resolution: Resolution)
    ensures MarkClaimed(tx).Made? ==> MarkClaimed(tx).tx.failures == tx.failures
    ensures MarkReplied(tx, event, resolution).Made? ==> MarkReplied(tx, event, resolution).tx.failures == tx.failures
  {
    hide FieldsOk, ClaimIdFor, ReplyKeyFor;
  }

  lemma ActFarFromStuck(w: World, t: Task, f: Fault)
    requires FarFromStuck(w, t) && !(t.Start? || t.Listing? || t.Choosing? || t.Opening?)
    ensures var n := TaskStep(w, t, f); FarFromStuck(n.world, n.task)
  {
    hide ReadTask, RequestStep, WriteStep;
    if t.Claiming? || t.Replying? || t.LookingUp? || t.Acking? {
      AskFarFromStuck(w, t, f);
    } else if !t.Done? {
      WriteFarFromStuck(w, t, f);
    }
  }

  lemma {:induction false} RunFarFromStuck(w: World, t: Task, faults: seq<Fault>)
    requires FarFromStuck(w, t)
    ensures FarFromStuck(RunAlone(w, t, faults).world, RunAlone(w, t, faults).task)
    decreases StepsLeft(t)
  {
    hide FarFromStuck, ReadTask, RequestStep, WriteStep;
    if !t.Done? {
      var f := FirstFault(faults);
      var n := TaskStep(w, t, f);
      if t.Start? || t.Listing? || t.Choosing? || t.Opening? {
        if f.Crash? {
          CrashFarFromStuck(w, t);
        } else {
          ReadFarFromStuck(w, t, f);
        }
      } else {
        ActFarFromStuck(w, t, f);
      }
      RunFarFromStuck(n.world, n.task, LaterFaults(faults));
    }
  }

  lemma CrashFarFromStuck(w: World, t: Task)
    requires FarFromStuck(w, t)
    ensures FarFromStuck(w, Stop(UpstreamUnavailable))
  {
  }

  /** With at most four failures recorded, no call but a failure report answers stuck, whatever fails. */
  lemma FourFailuresAreNotStuck(w: World, call: Call, faults: seq<Fault>)
    requires (w.store.open.Some? ==> w.store.open.value.failures <= 4) && !call.FailureCall?
    ensures RunAlone(w, Start(call), faults).task.outcome != Failed(TransactionStuck)
  {
    hide RunAlone;
    RunFarFromStuck(w, Start(call), faults);
  }

  // ---------------------------------------------------------------- claimNext

  /** What claimNext chooses from. */
  function InScope(w: World, call: Call): seq<Candidate> {
    Without(Scoped(call, ListPending(w.server)), QuarantinedIds(w.store.quarantine, call.protocol))
  }

  lemma ChooseOutcome(w: World, call: Call)
    requires w.store.open.None? && (call.ClaimNextCall? || call.DrainCall?)
    ensures RunAlone(w, Start(call), []) == RunAlone(w, ChooseTask(w, call, ListPending(w.server), Fine), [])
  {
    hide RunAlone, ListPending, ChooseTask;
    FineStep(w, Start(call));
    FineStep(w, Listing(call));
    FineStep(w, Choosing(call, ListPending(w.server)));
  }

  /** With nothing open, an undisturbed claimNext takes the earliest delivery in scope: one that needs a reply becomes the open
      claimed transaction, with the event to read bound to it, and one that does not is settled; with none it changes nothing. */
  lemma ClaimNextOutcome(w: World, call: Call)
    requires call.ClaimNextCall? && w.store.open.None? && IsTimestamp(call.createdAt)
    requires forall c | c in InScope(w, call) :: Grants(w.server, c.delivery, ClaimIdFor(w.instance, c.delivery))
    ensures var n, cs := RunAlone(w, Start(call), []), InScope(w, call);
            n.task.outcome.Report? &&
            if cs == [] then n.world == w && !n.task.outcome.evaluation.shouldStartModel
            else
              var next := Earliest(cs);
              var tx := ClaimedRecord(w, ClaimOf(call.protocol, next, call.createdAt));
              if next.replyRequired
              then n.world == WithOpen(WithClaim(w, next.delivery), tx) && tx.replyRequired && n.task.outcome.evaluation.shouldStartModel
              else n.world == Settled(w, next.delivery) && n.task.outcome.receiptOnly
  {
    hide RunAlone, IsTimestamp, ClaimIdFor, ReplyKeyFor, Without, Scoped, QuarantinedIds, Earliest, ListPending;
    var cs := InScope(w, call);
    var t := ChooseTask(w, call, ListPending(w.server), Fine);
    ChooseOutcome(w, call);
    if cs == [] {
      Finished(w, t);
    } else {
      var next := Earliest(cs);
      OpeningOutcome(w, t.call, t.after);
      var tx := ClaimedRecord(w, t.call);
      var w1 := WithOpen(WithClaim(w, next.delivery), tx);
      if next.replyRequired {
        Finished(w1, AfterClaim(tx, t.after));
      } else {
        SettleReports(w1, tx, t.after);
      }
    }
  }

  /** Settling ends in a report: a receipt only, nothing pending for this call, and what remains to be done. */
  lemma SettleReports(w: World, tx: OpenTransaction, after: After)
    requires w.store.open == Some(tx) && after.Settle?
    ensures RunAlone(w, Acking(tx, after), []) ==
            Next(w.(store := w.store.(open := None), server := w.server.(acks := w.server.acks + [tx.delivery])),
                 Done(Report(Evaluate(tx.protocol, after.remaining, None, after.quarantined).value, Some(false), false, true)))
  {
    hide RunAlone;
    FineStep(w, Acking(tx, after));
    var w1 := w.(server := ServeAck(w.server, tx.delivery));
    FineStep(w1, Clearing(tx, after));
    var n := TaskStep(w1, Clearing(tx, after), Fine);
    Finished(n.world, n.task);
  }

  /** Every claim and acknowledgement the call asks for is in the room. */
  ghost predicate InRoomTask(t: Task, call: Call, room: RoomId) {
    match t
    case Start(c) => c == call
    case Listing(c) => c == call
    case Choosing(c, _) => c == call
    case Opening(c, _) => c.ClaimCall? && c.room == room
    case Preparing(tx, _) => tx.room == room
    case Claiming(tx, _) => tx.room == room
    case Granted(tx, _) => tx.room == room
    case Acking(tx, _) => tx.room == room
    case Clearing(tx, _) => tx.room == room
    case Done(_) => true
    case _ => false
  }

  lemma ReadInRoom(w: World, t: Task, f: Fault, call: Call, room: RoomId)
    requires call.ClaimNextCall? && call.allowedRoom == Some(room)
    requires InRoomTask(t, call, room) && (t.Start? || t.Listing? || t.Choosing? || t.Opening?)
    ensures InRoomTask(ReadTask(w, t, f), call, room)
  {
    hide Without, InRoom, IsTimestamp, IsReason, ClaimIdFor, ReplyKeyFor, ListPending, Earliest, QuarantinedIds;
    if t.Choosing? {
      var scoped := InRoom(t.candidates, room);
      var actionable := Without(scoped, QuarantinedIds(w.store.quarantine, call.protocol));
      if actionable != [] {
        var next := Earliest(actionable);
        WithoutMembers(scoped, QuarantinedIds(w.store.quarantine, call.protocol), next);
        InRoomMembers(t.candidates, room, next);
      }
    }
  }

  lemma ActInRoom(w: World, t: Task, f: Fault, call: Call, room: RoomId)
    requires InRoomTask(t, call, room) && !(t.Start? || t.Listing? || t.Choosing? || t.Opening?)
    ensures InRoomTask(TaskStep(w, t, f).task, call, room)
  {
    hide Evaluate, ReadTask, FieldsOk, ClaimIdFor, ReplyKeyFor, Committed;
  }

  /** Restricted to a room, claimNext asks to claim and to acknowledge in that room only, whatever fails. */
  lemma {:induction false} ClaimNextStaysInRoom(w: World, t: Task, faults: seq<Fault>, call: Call, room: RoomId)
    requires call.ClaimNextCall? && call.allowedRoom == Some(room) && InRoomTask(t, call, room)
    ensures forall task | task in Tasks(w, t, faults) :: task.Claiming? || task.Acking? ==> task.tx.room == room
    decreases StepsLeft(t)
  {
    hide ReadTask, RequestStep, WriteStep;
    if !t.Done? {
      var f := FirstFault(faults);
      var n := TaskStep(w, t, f);
      if t.Start? || t.Listing? || t.Choosing? || t.Opening? {
        ReadInRoom(w, t, f, call, room);
      } else {
        ActInRoom(w, t, f, call, room);
      }
      ClaimNextStaysInRoom(n.world, n.task, LaterFaults(faults), call, room);
    }
  }

  // ------------------------------------------------------------------ reports

  /** An undisturbed drain with nothing open reports work pending exactly if the earliest actionable delivery needs a reply,
      and a receipt exactly if it settled one; it says to start the model exactly if something actionable is left. */
  lemma DrainReport(w: World, protocol: Protocol, createdAt: string)
    requires Drainable(w, protocol) && IsTimestamp(createdAt)
    ensures var n, cs := RunAlone(w, Start(DrainCall(protocol, createdAt)), []), Actionable(w, protocol);
            && n.task.outcome.Report?
            && (n.task.outcome.workPending <==> cs != [] && Earliest(cs).replyRequired)
            && (n.task.outcome.receiptOnly <==> cs != [] && !Earliest(cs).replyRequired)
            && (n.task.outcome.evaluation.shouldStartModel <==> exists c :: c in Actionable(n.world, protocol))
  {
    hide RunAlone, IsTimestamp, ClaimIdFor, ReplyKeyFor, Without, QuarantinedIds, Earliest, ListPending, Settled;
    var call, cs := DrainCall(protocol, createdAt), Actionable(w, protocol);
    var t := ChooseTask(w, call, ListPending(w.server), Fine);
    ChooseOutcome(w, call);
    DrainEffect(w, protocol, createdAt);
    if cs == [] || Earliest(cs).replyRequired {
      Finished(w, t);
      if cs != [] {
        assert cs[0] in cs;
      }
    } else {
      var next := Earliest(cs);
      OpeningOutcome(w, t.call, t.after);
      var tx := ClaimedRecord(w, t.call);
      SettleReports(WithOpen(WithClaim(w, next.delivery), tx), tx, t.after);
      RemainingIsActionable(w, protocol, next.delivery);
    }
  }

  /** What is left after settling a delivery is what is actionable then. */
  lemma RemainingIsActionable(w: World, protocol: Protocol, d: int)
    ensures var left := Without(Without(ListPending(w.server), {d}), QuarantinedIds(w.store.quarantine, protocol));
            left != [] <==> exists c :: c in Actionable(Settled(w, d), protocol)
  {
    hide Without, QuarantinedIds, ListPending, Settled;
    var pending, ids := ListPending(w.server), QuarantinedIds(w.store.quarantine, protocol);
    var left := Without(Without(pending, {d}), ids);
    forall c: Candidate
      ensures c in left <==> c in Actionable(Settled(w, d), protocol)
    {
      WithoutMembers(Without(pending, {d}), ids, c);
      WithoutMembers(pending, {d}, c);
      WithoutMembers(pending, ids, c);
      SettledLeaves(w, protocol, d, c);
    }
    if left != [] {
      assert left[0] in left;
    }
  }

  /** With a transaction open that needs a reply, an undisturbed drain changes nothing and reports the work. */
  lemma DrainDefersToOpen(w: World, tx: OpenTransaction, createdAt: string)
    requires w.store.open == Some(tx) && tx.replyRequired && tx.failures <= 4
    ensures var n := RunAlone(w, Start(DrainCall(tx.protocol, createdAt)), []);
            && n.world == w && n.task.outcome.Report? && n.task.outcome.workPending
            && (n.task.outcome.evaluation.shouldStartModel <==> tx.stage != Replied)
  {
    hide RunAlone;
    var call := DrainCall(tx.protocol, createdAt);
    FineStep(w, Start(call));
    Finished(w, StartTask(w, call, Fine));
  }

  /** With a transaction open, an undisturbed drain or claimNext that fits it settles it if it is a claimed receipt, refuses one
      that is only prepared, defers to one that needs a reply, and is refused by a stuck one. */
  lemma NextWithOpen(w: World, tx: OpenTransaction, call: Call)
    requires (call.DrainCall? || call.ClaimNextCall?) && w.store.open == Some(tx) && !Mismatched(tx, call)
    ensures var n := RunAlone(w, Start(call), []);
            if tx.failures >= 5 then n == Next(w, Done(Failed(TransactionStuck)))
            else if tx.replyRequired then n.world == w && n.task.outcome.Report? && n.task.outcome.workPending == call.DrainCall?
            else if tx.stage != Claimed then n == Next(w, Done(Failed(InvalidState)))
            else n.world == w.(store := w.store.(open := None), server := w.server.(acks := w.server.acks + [tx.delivery]))
                 && n.task.outcome.Report? && n.task.outcome.receiptOnly
  {
    hide RunAlone, QuarantinedIds;
    FineStep(w, Start(call));
    var t := StartTask(w, call, Fine);
    if t.Done? {
      Finished(w, t);
    } else {
      SettleReports(w, tx, t.after);
    }
  }

  // ------------------------------------------------------------- stale writes

  /** A call writes its record only over a record of the same delivery, protocol, keys and creation time; over any other, or
      over none, it fails and the store is as it was. */
  lemma StaleWritesAreRefused(w: World, t: Task, f: Fault)
    requires (t.Granted? || t.Found? || t.Recording?) && t.tx.instance == w.instance && DecoderAccepts(t.tx)
    requires match w.store.open
             case None => true
             case Some(current) => current.delivery != t.tx.delivery || current.protocol != t.tx.protocol || current.createdAt != t.tx.createdAt
    ensures var n := TaskStep(w, t, f); n.world == w && n.task.Done? && n.task.outcome.Failed?
  {
    hide FieldsOk, ClaimIdFor, ReplyKeyFor, AfterClaim;
    if !f.Crash? && t.Granted? {
      MovesAdvance(t.tx, EventId(0), Created, "");
    }
  }
}
