/**
  Crash resumption: however often claiming, replying and acknowledging one delivery is interrupted, doing the three once
  more leaves the server as one uninterrupted pass would.
 */
module MailboxResumption {
  import opened Basics
  import opened MailboxModel
  import opened MailboxPolicy
  import opened MailboxProtocol
  import opened MailboxSafety
  import opened MailboxSequential

  /** One delivery to be answered with one text. */
  datatype Job = Job(protocol: Protocol, delivery: int, room: RoomId, inboundEvent: Option<EventId>, inboundSeq: Option<int>,
                     replyRequired: bool, text: string)

  predicate JobOk(job: Job) {
    && job.delivery > 0 && 0 < |job.text| <= MaxReplyBytes
    && (job.inboundEvent.None? <==> job.inboundSeq.None?) && (job.inboundSeq.Some? ==> job.inboundSeq.value > 0)
  }

  function ClaimFor(job: Job, createdAt: string): Call {
    ClaimCall(job.protocol, job.delivery, job.room, job.inboundEvent, job.inboundSeq, job.replyRequired, createdAt)
  }

  function ReplyFor(job: Job): Call {
    ReplyCall(job.protocol, job.room, job.text, job.inboundEvent)
  }

  function AckFor(job: Job): Call {
    AcknowledgeCall(job.protocol, Some(job.delivery))
  }

  predicate IsJobCall(call: Call, job: Job) {
    match call
    case ClaimCall(_, _, _, _, _, _, createdAt) => call == ClaimFor(job, createdAt)
    case ReplyCall(_, _, _, _) => call == ReplyFor(job)
    case AcknowledgeCall(_, _) => call == AckFor(job)
    case FailureCall(protocol, _) => protocol == job.protocol
    case _ => false
  }

  function JobClaim(w: World, job: Job): Tag {
    ClaimIdFor(w.instance, job.delivery)
  }

  function JobEvents(w: World, job: Job): seq<ReplyEvent> {
    ServeReply(w.server, ReplyKeyFor(w.instance, job.delivery), job.room, job.text).events
  }

  predicate IsJobRecord(tx: OpenTransaction, job: Job) {
    && tx.protocol == job.protocol && tx.delivery == job.delivery && tx.room == job.room
    && tx.inboundEvent == job.inboundEvent
  }

  ghost predicate AcksGrew(acks: seq<int>, acks': seq<int>, d: int) {
    acks <= acks' && forall i | |acks| <= i < |acks'| :: acks'[i] == d
  }

  /** `w` was reached from `w0` by working on the job alone. */
  ghost predicate Progress(w0: World, w: World, job: Job) {
    && w.instance == w0.instance && w.store.quarantine == w0.store.quarantine
    && (w.server.claims == w0.server.claims || w.server.claims == w0.server.claims[job.delivery := JobClaim(w0, job)])
    && (w.server.events == w0.server.events || w.server.events == JobEvents(w0, job))
    && AcksGrew(w0.server.acks, w.server.acks, job.delivery)
    && (w.store.open.Some? ==>
          && IsJobRecord(w.store.open.value, job)
          && (w.store.open.value.stage != Prepared ==> w.server.claims == w0.server.claims[job.delivery := JobClaim(w0, job)])
          && (w.store.open.value.stage == Replied ==> w.server.events == JobEvents(w0, job)))
  }

  /** What one uninterrupted pass makes of the server. */
  ghost predicate Complete(w0: World, w: World, job: Job) {
    && w.store.open.None? && w.server.claims == w0.server.claims[job.delivery := JobClaim(w0, job)]
    && w.server.events == JobEvents(w0, job)
    && AcksGrew(w0.server.acks, w.server.acks, job.delivery) && job.delivery in w.server.acks
  }

  // ------------------------------------------------ every step is on the way

  ghost predicate JobTask(w0: World, w: World, t: Task, job: Job) {
    match t
    case Start(call) => IsJobCall(call, job)
    case Opening(call, after) => IsJobCall(call, job) && after.Return?
    case Preparing(tx, after) => IsJobRecord(tx, job) && after.Return?
    case Claiming(_, after) => after.Return?
    case Granted(_, after) => after.Return? && w.server.claims == w0.server.claims[job.delivery := JobClaim(w0, job)]
    case Replying(_, text) => text == job.text
    case LookingUp(_) => w.server.events == JobEvents(w0, job)
    case Found(_, _, _) => w.server.events == JobEvents(w0, job)
    case Acking(_, _) => true
    case Clearing(_, _) => true
    case Recording(_) => true
    case Done(_) => true
    case _ => false
  }

  ghost predicate Good(w0: World, w: World, t: Task, job: Job) {
    && WorldOk(w) && TaskOk(w, t) && InStep(w, t) && JobTask(w0, w, t, job) && Progress(w0, w, job)
    && Grants(w0.server, job.delivery, JobClaim(w0, job))
  }

  lemma ReadProgress(w0: World, w: World, t: Task, f: Fault, job: Job)
    requires WorldOk(w) && JobTask(w0, w, t, job) && Progress(w0, w, job) && (t.Start? || t.Opening?)
    ensures JobTask(w0, w, ReadTask(w, t, f), job)
  {
    hide WorldOk, AcksGrew, Evaluate, RecordFailure, IsTimestamp, IsReason, ClaimIdFor, ReplyKeyFor, JobEvents, JobClaim;
  }

  /** Committing the job's reply from anywhere on the way gives the job's events. */
  lemma ReplyReachesJobEvents(w0: World, w: World, job: Job)
    requires w.instance == w0.instance && (w.server.events == w0.server.events || w.server.events == JobEvents(w0, job))
    ensures ServeReply(w.server, ReplyKeyFor(w0.instance, job.delivery), job.room, job.text).events == JobEvents(w0, job)
    ensures Committed(JobEvents(w0, job), ReplyKeyFor(w0.instance, job.delivery)).Some?
  {
    hide ReplyKeyFor;
    var key := ReplyKeyFor(w0.instance, job.delivery);
    CommittedPrefix(w0.server.events, [ReplyEvent(key, job.room, job.text, EventId(|w0.server.events|))], key);
  }

  lemma ClaimReachesJobClaims(w0: World, w: World, job: Job)
    requires Progress(w0, w, job) && Grants(w0.server, job.delivery, JobClaim(w0, job))
    ensures Grants(w.server, job.delivery, JobClaim(w0, job))
    ensures ServeClaim(w.server, job.delivery, JobClaim(w0, job)).claims == w0.server.claims[job.delivery := JobClaim(w0, job)]
  {
    hide AcksGrew, ClaimIdFor, JobEvents, IsJobRecord;
  }

  lemma ClaimProgress(w0: World, w: World, tx: OpenTransaction, after: After, f: Fault, job: Job)
    requires Good(w0, w, Claiming(tx, after), job)
    ensures var n := ClaimStep(w, tx, after, f); JobTask(w0, n.world, n.task, job) && Progress(w0, n.world, job)
  {
    hide WorldOk, Held, FieldsOk, ClaimIdFor, ReplyKeyFor, JobEvents, AcksGrew, CommittedAs, Grants;
    ClaimReachesJobClaims(w0, w, job);
    assert tx.claimId == JobClaim(w0, job);
  }

  lemma ReplyProgress(w0: World, w: World, tx: OpenTransaction, text: string, f: Fault, job: Job)
    requires Good(w0, w, Replying(tx, text), job)
    ensures var n := ReplyStep(w, tx, text, f); JobTask(w0, n.world, n.task, job) && Progress(w0, n.world, job)
  {
    hide WorldOk, Held, FieldsOk, ClaimIdFor, ReplyKeyFor, JobEvents, AcksGrew, CommittedAs, Committed, ServeReply;
    ReplyReachesJobEvents(w0, w, job);
    ServeReplyExtends(w.server, tx.replyKey, tx.room, text);
  }

  lemma AckProgress(w0: World, w: World, tx: OpenTransaction, after: After, f: Fault, job: Job)
    requires Good(w0, w, Acking(tx, after), job)
    ensures var n := AckStep(w, tx, after, f); JobTask(w0, n.world, n.task, job) && Progress(w0, n.world, job)
  {
    hide WorldOk, RecordOk, JobEvents, JobClaim;
  }

  lemma RequestProgress(w0: World, w: World, t: Task, f: Fault, job: Job)
    requires Good(w0, w, t, job) && (t.Claiming? || t.Replying? || t.LookingUp? || t.Acking?)
    ensures var n := RequestStep(w, t, f); JobTask(w0, n.world, n.task, job) && Progress(w0, n.world, job)
  {
    hide WorldOk, TaskOk, ClaimStep, ReplyStep, AckStep, Progress, JobEvents, Committed;
    match t
    case Claiming(tx, after) => ClaimProgress(w0, w, tx, after, f, job);
    case Replying(tx, text) => ReplyProgress(w0, w, tx, text, f, job);
    case LookingUp(tx) =>
    case Acking(tx, after) => AckProgress(w0, w, tx, after, f, job);
  }

  lemma WriteProgress(w0: World, w: World, t: Task, f: Fault, job: Job)
    requires Good(w0, w, t, job) && (t.Preparing? || t.Granted? || t.Found? || t.Clearing? || t.Recording?)
    ensures var n := WriteStep(w, t, f); JobTask(w0, n.world, n.task, job) && Progress(w0, n.world, job)
  {
    hide WorldOk, RecordOk, Held, JobEvents, JobClaim, AcksGrew, CommittedAs, FieldsOk, IsStuck, ClaimIdFor, ReplyKeyFor, Evaluate;
  }

  lemma StepGood(w0: World, w: World, t: Task, f: Fault, job: Job)
    requires Good(w0, w, t, job)
    ensures var n := TaskStep(w, t, f); Good(w0, n.world, n.task, job)
  {
    hide WorldOk, TaskOk, InStep, Progress, ReadTask, RequestStep, WriteStep, JobEvents;
    StepOk(w, t, f);
    StepInStep(w, t, f);
    if !t.Done? && !f.Crash? {
      if t.Start? || t.Opening? {
        ReadProgress(w0, w, t, f, job);
      } else if t.Claiming? || t.Replying? || t.LookingUp? || t.Acking? {
        RequestProgress(w0, w, t, f, job);
      } else {
        WriteProgress(w0, w, t, f, job);
      }
    }
  }

  lemma {:induction false} CallGood(w0: World, w: World, t: Task, faults: seq<Fault>, job: Job)
    requires Good(w0, w, t, job)
    ensures var n := RunAlone(w, t, faults); Good(w0, n.world, n.task, job)
    decreases StepsLeft(t)
  {
    hide Good, TaskStep;
    if !t.Done? {
      var n := TaskStep(w, t, FirstFault(faults));
      StepGood(w0, w, t, FirstFault(faults), job);
      CallGood(w0, n.world, n.task, LaterFaults(faults), job);
    }
  }

  ghost predicate OnTheWay(w0: World, w: World, job: Job) {
    WorldOk(w) && Progress(w0, w, job) && Grants(w0.server, job.delivery, JobClaim(w0, job))
  }

  lemma CallOnTheWay(w0: World, w: World, call: Call, faults: seq<Fault>, job: Job)
    requires OnTheWay(w0, w, job) && IsJobCall(call, job)
    ensures OnTheWay(w0, RunAlone(w, Start(call), faults).world, job)
  {
    hide WorldOk, Progress, RunAlone;
    CallGood(w0, w, Start(call), faults, job);
  }

  lemma {:induction false} SessionOnTheWay(w0: World, w: World, session: seq<Attempt>, job: Job)
    requires OnTheWay(w0, w, job) && forall i | 0 <= i < |session| :: IsJobCall(session[i].call, job)
    ensures OnTheWay(w0, RunSession(w, session), job)
    decreases |session|
  {
    hide OnTheWay, RunAlone, IsJobCall;
    if session != [] {
      var w' := RunAlone(w, Start(session[0].call), session[0].faults).world;
      CallOnTheWay(w0, w, session[0].call, session[0].faults, job);
      SessionOnTheWay(w0, w', session[1..], job);
    }
  }

  // ------------------------------------------------- undisturbed calls arrive

  lemma FineStep(w: World, t: Task)
    ensures !t.Done? ==> var n := TaskStep(w, t, Fine); RunAlone(w, t, []) == RunAlone(n.world, n.task, [])
  {
    hide TaskStep;
  }

  lemma FinishClaimArrives(w0: World, w: World, tx: OpenTransaction, job: Job)
    requires OnTheWay(w0, w, job) && w.store.open == Some(tx) && tx.stage == Prepared && !IsStuck(tx)
    ensures var w' := RunAlone(w, Claiming(tx, Return), []).world;
            && w'.store.open.Some? && w'.store.open.value.stage == Claimed && !IsStuck(w'.store.open.value)
            && SameIdentity(tx, w'.store.open.value)
  {
    hide ClaimsHeld, KeysDistinct, JobEvents, AcksGrew, FieldsOk, CommittedAs, ClaimIdFor, ReplyKeyFor, Grants, RunAlone;
    ClaimReachesJobClaims(w0, w, job);
    FineStep(w, Claiming(tx, Return));
    var n := TaskStep(w, Claiming(tx, Return), Fine);
    assert n.task == Granted(tx, Return) && n.world.store == w.store;
    FineStep(n.world, Granted(tx, Return));
    MovesAdvance(tx, EventId(0), Created, "");
    var m := TaskStep(n.world, Granted(tx, Return), Fine);
    assert m.task.Done?;
    Finished(m.world, m.task);
  }

  lemma Finished(w: World, t: Task)
    requires t.Done?
    ensures RunAlone(w, t, []) == Next(w, t)
  {
  }

  /** The claim call ends with the record claimed, or already replied. */
  lemma ClaimArrives(w0: World, w: World, job: Job, createdAt: string)
    requires OnTheWay(w0, w, job) && JobOk(job) && IsTimestamp(createdAt)
    requires w.store.open.Some? ==> !IsStuck(w.store.open.value)
    ensures var w' := RunAlone(w, Start(ClaimFor(job, createdAt)), []).world;
            && w'.store.open.Some? && w'.store.open.value.stage != Prepared && !IsStuck(w'.store.open.value)
            && (w.store.open.Some? ==> SameIdentity(w.store.open.value, w'.store.open.value))
  {
    hide OnTheWay, IsTimestamp, ClaimIdFor, ReplyKeyFor, RunAlone, IsReason;
    var call := ClaimFor(job, createdAt);
    RecordKnown(w0, w, job);
    FineStep(w, Start(call));
    FineStep(w, Opening(call, Return));
    if w.store.open.None? {
      OpensFresh(w, call, job);
      var tx := OpenTask(w, call, Return, Fine).tx;
      var w' := w.(store := w.store.(open := Some(tx)));
      FineStep(w, Preparing(tx, Return));
      CallOnTheWayPrepared(w0, w, tx, job);
      FinishClaimArrives(w0, w', tx, job);
    } else if w.store.open.value.stage == Prepared {
      FinishClaimArrives(w0, w, w.store.open.value, job);
    } else {
      Finished(w, Done(Transaction(w.store.open.value)));
    }
  }

  lemma OpensFresh(w: World, call: Call, job: Job)
    requires w.store.open.None? && JobOk(job) && call.ClaimCall? && call == ClaimFor(job, call.createdAt) && IsTimestamp(call.createdAt)
    ensures var t := OpenTask(w, call, Return, Fine);
            t.Preparing? && t.after.Return? && t.tx.stage == Prepared && !IsStuck(t.tx) && IsJobRecord(t.tx, job) && RecordOk(w, t.tx)
  {
    hide IsTimestamp, ClaimIdFor, ReplyKeyFor, IsReason;
  }

  lemma CallOnTheWayPrepared(w0: World, w: World, tx: OpenTransaction, job: Job)
    requires OnTheWay(w0, w, job) && w.store.open.None? && tx.stage == Prepared && IsJobRecord(tx, job) && RecordOk(w, tx)
    ensures OnTheWay(w0, w.(store := w.store.(open := Some(tx))), job)
  {
    hide RecordOk, JobEvents, JobClaim, AcksGrew, KeysDistinct, ClaimsHeld, IsJobRecord;
    var w' := w.(store := w.store.(open := Some(tx)));
    PreparedLater(w, tx);
    RecordStays(w, w', tx);
    ClaimsStayHeld(w, w');
  }

  lemma PreparedLater(w: World, tx: OpenTransaction)
    requires w.store.open.None?
    ensures Later(w, w.(store := w.store.(open := Some(tx))))
  {
    hide InQuarantine;
  }

  lemma RecordKnown(w0: World, w: World, job: Job)
    requires OnTheWay(w0, w, job)
    ensures w.store.open.Some? ==> IsJobRecord(w.store.open.value, job) && RecordOk(w, w.store.open.value)
  {
    hide RecordOk, JobEvents, JobClaim, AcksGrew, KeysDistinct, ClaimsHeld;
  }

  lemma ReplyArrives(w0: World, w: World, job: Job)
    requires OnTheWay(w0, w, job) && JobOk(job) && w.store.open.Some? && w.store.open.value.stage != Prepared && !IsStuck(w.store.open.value)
    ensures var w' := RunAlone(w, Start(ReplyFor(job)), []).world;
            w'.store.open.Some? && w'.store.open.value.stage == Replied && SameIdentity(w.store.open.value, w'.store.open.value)
  {
    hide OnTheWay, ClaimIdFor, ReplyKeyFor, RunAlone, FieldsOk, CommittedAs, Committed;
    RecordKnown(w0, w, job);
    var tx := w.store.open.value;
    FineStep(w, Start(ReplyFor(job)));
    if tx.stage == Replied {
      Finished(w, Done(Transaction(tx)));
    } else {
      ReplyingArrives(w, tx, job.text);
    }
  }

  /** A reply request is answered with an event, at once or through the lookup after a conflict. */
  lemma ReplyingArrives(w: World, tx: OpenTransaction, text: string)
    requires w.store.open == Some(tx) && tx.stage == Claimed && DecoderAccepts(tx)
    ensures var w' := RunAlone(w, Replying(tx, text), []).world;
            w'.store.open.Some? && w'.store.open.value.stage == Replied && SameIdentity(tx, w'.store.open.value)
  {
    hide ClaimIdFor, ReplyKeyFor, RunAlone, FieldsOk, Committed;
    FineStep(w, Replying(tx, text));
    var n := TaskStep(w, Replying(tx, text), Fine);
    if n.task.LookingUp? {
      FineStep(n.world, n.task);
      n := TaskStep(n.world, n.task, Fine);
    }
    assert n.task.Found? && n.task.tx == tx && n.world.store == w.store && !n.task.resolution.NoReply?;
    FineStep(n.world, n.task);
    MovesAdvance(tx, n.task.event, n.task.resolution, "");
    var m := TaskStep(n.world, n.task, Fine);
    assert m.task.Done? && m.world.store.open.Some? && m.world.store.open.value.stage == Replied;
    Finished(m.world, m.task);
  }

  lemma AckArrives(w0: World, w: World, job: Job)
    requires OnTheWay(w0, w, job) && w.store.open.Some? && w.store.open.value.stage == Replied
    ensures Complete(w0, RunAlone(w, Start(AckFor(job)), []).world, job)
  {
    hide ClaimIdFor, ReplyKeyFor, RunAlone, FieldsOk, CommittedAs, Committed, KeysDistinct, ClaimsHeld, JobEvents, JobClaim, Grants;
    var tx := w.store.open.value;
    FineStep(w, Start(AckFor(job)));
    FineStep(w, Acking(tx, Return));
    var w1 := w.(server := ServeAck(w.server, tx.delivery));
    FineStep(w1, Clearing(tx, Return));
    Finished(w1.(store := w1.store.(open := None)), Done(Acknowledged));
    assert w1.server.acks[|w.server.acks|] == job.delivery;
  }

  // --------------------------------------------------------------- main result

  /** Claim, reply and acknowledge, undisturbed. */
  function Pass(w: World, job: Job, createdAt: string): World {
    var w1 := RunAlone(w, Start(ClaimFor(job, createdAt)), []).world;
    var w2 := RunAlone(w1, Start(ReplyFor(job)), []).world;
    RunAlone(w2, Start(AckFor(job)), []).world
  }

  lemma PassCompletes(w0: World, w: World, job: Job, createdAt: string)
    requires OnTheWay(w0, w, job) && JobOk(job) && IsTimestamp(createdAt)
    requires w.store.open.Some? ==> !IsStuck(w.store.open.value)
    ensures Complete(w0, Pass(w, job, createdAt), job) && OnTheWay(w0, Pass(w, job, createdAt), job)
  {
    hide OnTheWay, RunAlone, Complete, IsTimestamp;
    var w1 := RunAlone(w, Start(ClaimFor(job, createdAt)), []).world;
    ClaimArrives(w0, w, job, createdAt);
    CallOnTheWay(w0, w, ClaimFor(job, createdAt), [], job);
    var w2 := RunAlone(w1, Start(ReplyFor(job)), []).world;
    ReplyArrives(w0, w1, job);
    CallOnTheWay(w0, w1, ReplyFor(job), [], job);
    AckArrives(w0, w2, job);
    CallOnTheWay(w0, w2, AckFor(job), [], job);
  }

  /** After any session of claims, replies, acknowledgements and failure reports for the job, with any failures and with
      crashes at any step, one more pass gives the server outcome of a single uninterrupted pass: one claim id, the same
      reply events (one under the job's key), the delivery acknowledged and nothing open. */
  lemma CrashResumption(w0: World, session: seq<Attempt>, job: Job, createdAt: string)
    requires WorldOk(w0) && w0.store.open.None? && Grants(w0.server, job.delivery, ClaimIdFor(w0.instance, job.delivery))
    requires JobOk(job) && IsTimestamp(createdAt)
    requires forall i | 0 <= i < |session| :: IsJobCall(session[i].call, job)
    requires var w := RunSession(w0, session); w.store.open.Some? ==> !IsStuck(w.store.open.value)
    ensures var resumed, straight := Pass(RunSession(w0, session), job, createdAt), Pass(w0, job, createdAt);
            && resumed.store.open.None? && straight.store.open.None?
            && resumed.server.claims == straight.server.claims == w0.server.claims[job.delivery := ClaimIdFor(w0.instance, job.delivery)]
            && resumed.server.events == straight.server.events
            && (exists k :: OnlyEvent(straight.server.events, ReplyKeyFor(w0.instance, job.delivery), k))
            && Acked(resumed.server.acks) == Acked(straight.server.acks) == Acked(w0.server.acks) + {job.delivery}
  {
    hide OnTheWay, Pass, RunSession, IsJobCall, IsTimestamp, JobEvents, Committed, ClaimIdFor, ReplyKeyFor;
    var w := RunSession(w0, session);
    StartsOnTheWay(w0, job);
    SessionOnTheWay(w0, w0, session, job);
    PassCompletes(w0, w, job, createdAt);
    PassCompletes(w0, w0, job, createdAt);
    ReplyReachesJobEvents(w0, w0, job);
    EventsDistinct(w0, Pass(w0, job, createdAt), job);
    var k := CommittedWhere(JobEvents(w0, job), ReplyKeyFor(w0.instance, job.delivery));
    assert OnlyEvent(JobEvents(w0, job), ReplyKeyFor(w0.instance, job.delivery), k);
    AcksAreComplete(w0.server.acks, Pass(w, job, createdAt).server.acks, job.delivery);
    AcksAreComplete(w0.server.acks, Pass(w0, job, createdAt).server.acks, job.delivery);
  }

  lemma EventsDistinct(w0: World, w: World, job: Job)
    requires OnTheWay(w0, w, job)
    ensures KeysDistinct(w.server.events)
  {
    hide Progress, ClaimsHeld, RecordOk;
  }

  lemma StartsOnTheWay(w0: World, job: Job)
    requires WorldOk(w0) && w0.store.open.None? && Grants(w0.server, job.delivery, ClaimIdFor(w0.instance, job.delivery))
    ensures OnTheWay(w0, w0, job)
  {
    hide WorldOk, JobEvents;
  }

  lemma AcksAreComplete(acks: seq<int>, acks': seq<int>, d: int)
    requires AcksGrew(acks, acks', d) && d in acks'
    ensures Acked(acks') == Acked(acks) + {d}
  {
    assert forall i | 0 <= i < |acks| :: acks'[i] == acks[i];
  }
}
