/**
  Each service call as a little program: one durable store operation or one server request at a time, any of which may
  fail. A call that is never advanced again has crashed. Nothing but the store and the server survives a crash.
 */
module MailboxProtocol {
  import opened Basics
  import opened MailboxModel
  import opened MailboxPolicy

  /** What goes wrong at one step: a crash before it; a failure with no effect; an effect whose answer is lost; an effect
      whose answer is unusable. */
  datatype Fault = Fine | Crash | Fails | Lost | Garbled

  // ------------------------------------------------------------------- store

  /** `exclusive`: the file store refuses to quarantine one delivery twice; the in-memory store appends again. */
  datatype Store = Store(open: Option<OpenTransaction>, quarantine: seq<Quarantined>, exclusive: bool)

  datatype Stored = Stored(store: Store, error: Option<StoreError>)

  function Trouble(f: Fault): Option<StoreError> {
    if f.Fine? then None else Some(UnsafeStorage)
  }

  function Prepare(s: Store, tx: OpenTransaction, f: Fault): Stored {
    if f.Fails? then Stored(s, Some(UnsafeStorage))
    else if s.open.Some? then Stored(s, Some(AlreadyOpen))
    else Stored(s.(open := Some(tx)), Trouble(f))
  }

  predicate MayReplace(current: OpenTransaction, tx: OpenTransaction) {
    && current.instance == tx.instance && current.delivery == tx.delivery && current.protocol == tx.protocol
    && current.claimId == tx.claimId && current.replyKey == tx.replyKey && current.createdAt == tx.createdAt
  }

  function Replace(s: Store, tx: OpenTransaction, f: Fault): Stored {
    if f.Fails? then Stored(s, Some(UnsafeStorage))
    else if s.open.None? then Stored(s, Some(NotFound))
    else if !MayReplace(s.open.value, tx) then Stored(s, Some(InvalidRecord))
    else Stored(s.(open := Some(tx)), Trouble(f))
  }

  function Clear(s: Store, expected: int, f: Fault): Stored {
    if f.Fails? then Stored(s, Some(UnsafeStorage))
    else if s.open.None? then Stored(s, Some(NotFound))
    else if s.open.value.delivery != expected then Stored(s, Some(UnrelatedRecord))
    else Stored(s.(open := None), Trouble(f))
  }

  function QuarantineOf(tx: OpenTransaction): Quarantined {
    Quarantined(tx.delivery, tx.protocol, tx.claimId)
  }

  predicate HasCorrelation(quarantine: seq<Quarantined>, correlation: Tag) {
    exists i | 0 <= i < |quarantine| :: quarantine[i].correlation == correlation
  }

  /** The quarantine entry is written first; `Lost` stops before the open record is unlinked. */
  function Abandon(s: Store, f: Fault): Stored {
    if f.Fails? then Stored(s, Some(UnsafeStorage))
    else if s.open.None? then Stored(s, Some(NotFound))
    else if s.exclusive && HasCorrelation(s.quarantine, s.open.value.claimId) then Stored(s, Some(AlreadyOpen))
    else
      var quarantined := s.(quarantine := s.quarantine + [QuarantineOf(s.open.value)]);
      Stored(if f.Lost? then quarantined else quarantined.(open := None), Trouble(f))
  }

  // ------------------------------------------------------------------ server

  datatype ReplyEvent = ReplyEvent(key: Tag, room: RoomId, text: string, id: EventId)

  /** The server as the recording transport shows it: the deliveries ever put in the mailbox, who holds each, the replies in
      commit order, found by key alone, and the acknowledgements. */
  datatype Server = Server(mailbox: seq<Candidate>, claims: map<int, Tag>, events: seq<ReplyEvent>, acks: seq<int>)

  function Committed(events: seq<ReplyEvent>, key: Tag): Option<ReplyEvent> {
    if events == [] then None
    else if events[0].key == key then Some(events[0])
    else Committed(events[1..], key)
  }

  predicate Grants(v: Server, delivery: int, claimId: Tag) {
    delivery in v.claims ==> v.claims[delivery] == claimId
  }

  function ServeClaim(v: Server, delivery: int, claimId: Tag): Server {
    if Grants(v, delivery, claimId) then v.(claims := v.claims[delivery := claimId]) else v
  }

  /** One key commits at most one event; the same text again is answered with that event. */
  function ServeReply(v: Server, key: Tag, room: RoomId, text: string): Server {
    if Committed(v.events, key).Some? then v
    else v.(events := v.events + [ReplyEvent(key, room, text, EventId(|v.events|))])
  }

  /** The event id answered to a reply request; `None` is the conflict answer. */
  function ReplyAnswer(v: Server, key: Tag, text: string): Option<EventId> {
    var c := Committed(v.events, key);
    if c.None? then Some(EventId(|v.events|)) else if c.value.text == text then Some(c.value.id) else None
  }

  function ServeAck(v: Server, delivery: int): Server {
    v.(acks := v.acks + [delivery])
  }

  function Acked(acks: seq<int>): set<int> {
    set i | 0 <= i < |acks| :: acks[i]
  }

  function ListPending(v: Server): seq<Candidate> {
    Without(v.mailbox, Acked(v.acks))
  }

  // ------------------------------------------------------------------- calls

  datatype World = World(instance: Instance, store: Store, server: Server)

  datatype Call =
    | ClaimCall(protocol: Protocol, delivery: int, room: RoomId, inboundEvent: Option<EventId>, inboundSeq: Option<int>,
                replyRequired: bool, createdAt: string)
    | ReplyCall(protocol: Protocol, room: RoomId, text: string, inReplyTo: Option<EventId>)
    | AcknowledgeCall(protocol: Protocol, expected: Option<int>)
    | DrainCall(protocol: Protocol, createdAt: string)
    | ClaimNextCall(protocol: Protocol, allowedRoom: Option<RoomId>, createdAt: string)
    | FailureCall(protocol: Protocol, reason: string)
    | AbandonCall(protocol: Protocol)

  datatype ServiceError =
    | InvalidInput | ProtocolMismatch | NestedClaim | RoomMismatch | UnrelatedAcknowledgement | TransactionStuck | NotOpen
    | InvalidState | ClaimConflict | UpstreamUnavailable | InvalidUpstreamResponse | UnverifiedReplyConflict
    | FromStore(error: StoreError)

  datatype Outcome =
    | Transaction(tx: OpenTransaction)
    | Acknowledged
    | Abandoned(entry: Quarantined)
    | Report(evaluation: Evaluation, replyRequired: Option<bool>, workPending: bool, receiptOnly: bool)
    | Failed(error: ServiceError)

  /** What a call does once its claim stands. */
  datatype After =
    | Return
    | Announce(quarantined: seq<Quarantined>, candidates: seq<Candidate>)
    | Settle(quarantined: seq<Quarantined>, remaining: seq<Candidate>)

  /** A call in progress, named by what it does next; `tx` is the record as the call last read or wrote it. */
  datatype Task =
    | Start(call: Call)
    | Listing(call: Call)
    | Choosing(call: Call, candidates: seq<Candidate>)
    | Opening(call: Call, after: After)
    | Preparing(tx: OpenTransaction, after: After)
    | Claiming(tx: OpenTransaction, after: After)
    | Granted(tx: OpenTransaction, after: After)
    | Replying(tx: OpenTransaction, text: string)
    | LookingUp(tx: OpenTransaction)
    | Found(tx: OpenTransaction, event: EventId, resolution: Resolution)
    | Acking(tx: OpenTransaction, after: After)
    | Clearing(tx: OpenTransaction, after: After)
    | Recording(tx: OpenTransaction)
    | Abandoning(tx: OpenTransaction)
    | Done(outcome: Outcome)

  function StepsLeft(t: Task): nat {
    match t
    case Start(_) => 13
    case Listing(_) => 12
    case Choosing(_, _) => 11
    case Opening(_, _) => 10
    case Preparing(_, _) => 9
    case Claiming(_, _) => 8
    case Granted(_, _) => 7
    case Replying(_, _) => 6
    case LookingUp(_) => 5
    case Found(_, _, _) => 4
    case Acking(_, _) => 3
    case Clearing(_, _) => 2
    case Recording(_) => 1
    case Abandoning(_) => 1
    case Done(_) => 0
  }

  function Stop(e: ServiceError): Task {
    Done(Failed(e))
  }

  function Reported(e: Option<Evaluation>, replyRequired: Option<bool>, workPending: bool, receiptOnly: bool): Task {
    if e.None? then Stop(ProtocolMismatch) else Done(Report(e.value, replyRequired, workPending, receiptOnly))
  }

  function SettleTask(tx: OpenTransaction, after: After): Task {
    if tx.stage == Claimed && !tx.replyRequired then Acking(tx, after) else Stop(InvalidState)
  }

  function AfterClaim(tx: OpenTransaction, after: After): Task {
    match after
    case Return => Done(Transaction(tx))
    case Settle(_, _) => SettleTask(tx, after)
    case Announce(quarantined, candidates) =>
      Reported(Evaluate(tx.protocol, candidates, Some(tx), quarantined), Some(true), false, false)
  }

  // ---------------------------------------------------------- reading the store

  const MaxReplyBytes: nat := 32 * 1024

  function StartReply(w: World, call: Call, f: Fault): Task
    requires call.ReplyCall?
  {
    if |call.text| == 0 || |call.text| > MaxReplyBytes then Stop(InvalidInput)
    else if !f.Fine? then Stop(FromStore(UnsafeStorage))
    else if w.store.open.None? then Stop(NotOpen)
    else
      var tx := w.store.open.value;
      if tx.protocol != call.protocol then Stop(ProtocolMismatch)
      else if tx.room != call.room then Stop(RoomMismatch)
      else if tx.inboundEvent.Some? && call.inReplyTo.Some? && call.inReplyTo != tx.inboundEvent then Stop(InvalidInput)
      else if IsStuck(tx) then Stop(TransactionStuck)
      else if tx.stage == Replied then Done(Transaction(tx))
      else if tx.stage != Claimed then Stop(InvalidState)
      else Replying(tx, call.text)
  }

  function StartAcknowledge(w: World, call: Call, f: Fault): Task
    requires call.AcknowledgeCall?
  {
    if !f.Fine? then Stop(FromStore(UnsafeStorage))
    else if w.store.open.None? then Stop(NotOpen)
    else
      var tx := w.store.open.value;
      if tx.protocol != call.protocol then Stop(ProtocolMismatch)
      else if call.expected.Some? && call.expected.value != tx.delivery then Stop(UnrelatedAcknowledgement)
      else if tx.stage != Replied || tx.replyEvent.None? then Stop(InvalidState)
      else Acking(tx, Return)
  }

  /** `drainReceipts` and `claimNext` look at an open transaction first. */
  function StartNext(w: World, call: Call, f: Fault): Task
    requires call.DrainCall? || call.ClaimNextCall?
  {
    if !f.Fine? then Stop(FromStore(UnsafeStorage))
    else if w.store.open.None? then Listing(call)
    else
      var tx := w.store.open.value;
      if tx.protocol != call.protocol then Stop(ProtocolMismatch)
      else if IsStuck(tx) then Stop(TransactionStuck)
      else if call.ClaimNextCall? && call.allowedRoom.Some? && tx.room != call.allowedRoom.value then Stop(RoomMismatch)
      else if !tx.replyRequired then SettleTask(tx, Settle(w.store.quarantine, []))
      else
        var e := Evaluate(call.protocol, [], Some(tx), w.store.quarantine);
        if call.DrainCall? then Reported(e, Some(true), true, false) else Reported(e, None, false, false)
  }

  function StartFailure(w: World, call: Call, f: Fault): Task
    requires call.FailureCall?
  {
    if !f.Fine? then Stop(FromStore(UnsafeStorage))
    else if w.store.open.None? then Stop(NotOpen)
    else
      var tx := w.store.open.value;
      if tx.protocol != call.protocol then Stop(ProtocolMismatch)
      else
        var made := RecordFailure(tx, call.reason);
        if made.Refused? then Stop(FromStore(made.error)) else Recording(made.tx)
  }

  function StartAbandon(w: World, call: Call, f: Fault): Task
    requires call.AbandonCall?
  {
    if !f.Fine? then Stop(FromStore(UnsafeStorage))
    else if w.store.open.None? then Stop(NotOpen)
    else if w.store.open.value.protocol != call.protocol then Stop(ProtocolMismatch)
    else Abandoning(w.store.open.value)
  }

  function StartTask(w: World, call: Call, f: Fault): Task {
    match call
    case ClaimCall(_, _, _, _, _, _, _) => Opening(call, Return)
    case ReplyCall(_, _, _, _) => StartReply(w, call, f)
    case AcknowledgeCall(_, _) => StartAcknowledge(w, call, f)
    case DrainCall(_, _) => StartNext(w, call, f)
    case ClaimNextCall(_, _, _) => StartNext(w, call, f)
    case FailureCall(_, _) => StartFailure(w, call, f)
    case AbandonCall(_) => StartAbandon(w, call, f)
  }

  function Scoped(call: Call, candidates: seq<Candidate>): seq<Candidate> {
    if call.ClaimNextCall? && call.allowedRoom.Some? then InRoom(candidates, call.allowedRoom.value) else candidates
  }

  function ClaimOf(protocol: Protocol, c: Candidate, createdAt: string): Call {
    ClaimCall(protocol, c.delivery, c.room, Some(c.event), Some(c.roomSeq), c.replyRequired, createdAt)
  }

  /** The next delivery is the earliest one not quarantined; a drain leaves it alone if it needs a reply. */
  function ChooseTask(w: World, call: Call, candidates: seq<Candidate>, f: Fault): Task {
    if !f.Fine? then Stop(FromStore(UnsafeStorage))
    else if !call.DrainCall? && !call.ClaimNextCall? then Stop(InvalidState)
    else
      var scoped, quarantined := Scoped(call, candidates), w.store.quarantine;
      var e := Evaluate(call.protocol, scoped, None, quarantined).value;
      if e.actionable == [] then Reported(Some(e), None, false, false)
      else
        var next := Earliest(e.actionable);
        if call.DrainCall? && next.replyRequired then Reported(Some(e), Some(true), true, false)
        else
          Opening(ClaimOf(call.protocol, next, call.createdAt),
                  if next.replyRequired then Announce(quarantined, scoped) else Settle(quarantined, Without(scoped, {next.delivery})))
  }

  function OpenTask(w: World, call: Call, after: After, f: Fault): Task {
    if !f.Fine? then Stop(FromStore(UnsafeStorage))
    else if !call.ClaimCall? then Stop(InvalidState)
    else if w.store.open.Some? then
      var tx := w.store.open.value;
      if tx.protocol != call.protocol then Stop(ProtocolMismatch)
      else if tx.delivery != call.delivery || tx.room != call.room then Stop(NestedClaim)
      else if IsStuck(tx) then Stop(TransactionStuck)
      else if tx.stage == Prepared then Claiming(tx, after)
      else AfterClaim(tx, after)
    else
      var made := NewTransaction(w.instance, call.protocol, call.delivery, call.room, call.inboundEvent, call.inboundSeq,
                                 call.replyRequired, call.createdAt);
      if made.Refused? then Stop(FromStore(made.error)) else Preparing(made.tx, after)
  }

  // -------------------------------------------------------------------- steps

  datatype Next = Next(world: World, task: Task)

  function Saved(w: World, r: Stored, task: Task): Next {
    Next(w.(store := r.store), if r.error.Some? then Stop(FromStore(r.error.value)) else task)
  }

  function ClaimStep(w: World, tx: OpenTransaction, after: After, f: Fault): Next {
    if f.Fails? then Next(w, Stop(UpstreamUnavailable))
    else
      var granted, w' := Grants(w.server, tx.delivery, tx.claimId), w.(server := ServeClaim(w.server, tx.delivery, tx.claimId));
      Next(w', if f.Lost? then Stop(UpstreamUnavailable)
               else if !granted then Stop(ClaimConflict)
               else if f.Garbled? then Stop(InvalidUpstreamResponse)
               else Granted(tx, after))
  }

  function GrantedStep(w: World, tx: OpenTransaction, after: After, f: Fault): Next {
    var made := MarkClaimed(tx);
    if made.Refused? then Next(w, Stop(FromStore(made.error)))
    else Saved(w, Replace(w.store, made.tx, f), AfterClaim(made.tx, after))
  }

  function ReplyStep(w: World, tx: OpenTransaction, text: string, f: Fault): Next {
    if f.Fails? then Next(w, Stop(UpstreamUnavailable))
    else
      var answer := ReplyAnswer(w.server, tx.replyKey, text);
      Next(w.(server := ServeReply(w.server, tx.replyKey, tx.room, text)),
           if f.Lost? then Stop(UpstreamUnavailable)
           else if answer.None? then LookingUp(tx)
           else if f.Garbled? then Stop(InvalidUpstreamResponse)
           else Found(tx, answer.value, Created))
  }

  function LookupTask(w: World, tx: OpenTransaction, f: Fault): Task {
    var c := Committed(w.server.events, tx.replyKey);
    if !f.Fine? || c.None? then Stop(UnverifiedReplyConflict) else Found(tx, c.value.id, IdempotencyConflict)
  }

  function FoundStep(w: World, tx: OpenTransaction, event: EventId, resolution: Resolution, f: Fault): Next {
    var made := MarkReplied(tx, Some(event), resolution);
    if made.Refused? then Next(w, Stop(FromStore(made.error)))
    else Saved(w, Replace(w.store, made.tx, f), Done(Transaction(made.tx)))
  }

  function AckStep(w: World, tx: OpenTransaction, after: After, f: Fault): Next {
    if f.Fails? then Next(w, Stop(UpstreamUnavailable))
    else Next(w.(server := ServeAck(w.server, tx.delivery)), if f.Fine? then Clearing(tx, after) else Stop(UpstreamUnavailable))
  }

  function AfterClear(tx: OpenTransaction, after: After): Task {
    if after.Settle? then Reported(Evaluate(tx.protocol, after.remaining, None, after.quarantined), Some(false), false, true)
    else Done(Acknowledged)
  }

  /** Steps that only read. */
  function ReadTask(w: World, t: Task, f: Fault): (r: Task)
    requires t.Start? || t.Listing? || t.Choosing? || t.Opening?
    ensures StepsLeft(r) < StepsLeft(t)
  {
    match t
    case Start(call) => StartTask(w, call, f)
    case Listing(call) => if f.Fine? then Choosing(call, ListPending(w.server)) else Stop(UpstreamUnavailable)
    case Choosing(call, candidates) => ChooseTask(w, call, candidates, f)
    case Opening(call, after) => OpenTask(w, call, after, f)
  }

  /** Steps that ask the server. */
  function RequestStep(w: World, t: Task, f: Fault): (r: Next)
    requires t.Claiming? || t.Replying? || t.LookingUp? || t.Acking?
    ensures StepsLeft(r.task) < StepsLeft(t) && r.world.instance == w.instance && r.world.store == w.store
  {
    match t
    case Claiming(tx, after) => ClaimStep(w, tx, after, f)
    case Replying(tx, text) => ReplyStep(w, tx, text, f)
    case LookingUp(tx) => Next(w, LookupTask(w, tx, f))
    case Acking(tx, after) => AckStep(w, tx, after, f)
  }

  /** Steps that write the store. */
  function WriteStep(w: World, t: Task, f: Fault): (r: Next)
    requires t.Preparing? || t.Granted? || t.Found? || t.Clearing? || t.Recording? || t.Abandoning?
    ensures StepsLeft(r.task) < StepsLeft(t) && r.world.instance == w.instance && r.world.server == w.server
  {
    match t
    case Preparing(tx, after) => Saved(w, Prepare(w.store, tx, f), Claiming(tx, after))
    case Granted(tx, after) => GrantedStep(w, tx, after, f)
    case Found(tx, event, resolution) => FoundStep(w, tx, event, resolution, f)
    case Clearing(tx, after) => Saved(w, Clear(w.store, tx.delivery, f), AfterClear(tx, after))
    case Recording(tx) =>
      Saved(w, Replace(w.store, tx, f), if IsStuck(tx) then Stop(TransactionStuck) else Done(Transaction(tx)))
    case Abandoning(tx) =>
      Saved(w, Abandon(w.store, f), Done(Abandoned(QuarantineOf(if w.store.open.Some? then w.store.open.value else tx))))
  }

  function TaskStep(w: World, t: Task, f: Fault): (r: Next)
    ensures !t.Done? ==> StepsLeft(r.task) < StepsLeft(t)
    ensures r.world.instance == w.instance
  {
    if t.Done? then Next(w, t)
    else if f.Crash? then Next(w, Stop(UpstreamUnavailable))
    else if t.Start? || t.Listing? || t.Choosing? || t.Opening? then Next(w, ReadTask(w, t, f))
    else if t.Claiming? || t.Replying? || t.LookingUp? || t.Acking? then RequestStep(w, t, f)
    else WriteStep(w, t, f)
  }

  function FirstFault(faults: seq<Fault>): Fault {
    if faults == [] then Fine else faults[0]
  }

  function LaterFaults(faults: seq<Fault>): seq<Fault> {
    if faults == [] then [] else faults[1..]
  }

  /** A call carried to its end with nothing else running; after the listed faults every step is fine. */
  function RunAlone(w: World, t: Task, faults: seq<Fault>): (r: Next)
    decreases StepsLeft(t)
    ensures r.task.Done?
  {
    if t.Done? then Next(w, t) else
    var n := TaskStep(w, t, FirstFault(faults));
    RunAlone(n.world, n.task, LaterFaults(faults))
  }
}
