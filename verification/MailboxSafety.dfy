/**
  Safety of the mailbox service over every interleaving of calls, crashes and failures, with other clients at the same
  server: no claim is ever forgotten, and nothing is acknowledged without its reply.
 */
module MailboxSafety {
  import opened Basics
  import opened MailboxModel
  import opened MailboxPolicy
  import opened MailboxProtocol

  /** Calls in progress over one world; `log` remembers the record behind each acknowledgement. */
  datatype System = System(world: World, tasks: map<nat, Task>, log: seq<OpenTransaction>)

  datatype Action =
    | Begin(id: nat, call: Call)
    | Advance(id: nat, fault: Fault)
    | CrashAll
    | Arrive(candidate: Candidate)
    | ForeignClaim(delivery: int, claimId: Tag)
    | ForeignReply(key: Tag, room: RoomId, text: string)

  /** The rooms under which a delivery may be claimed. */
  type Rooms = iset<(int, RoomId)>

  predicate CallIn(call: Call, rooms: Rooms) {
    call.ClaimCall? ==> (call.delivery, call.room) in rooms
  }

  ghost predicate IsForeignKey(instance: Instance, key: Tag) {
    forall d: int :: key != ReplyKeyFor(instance, d)
  }

  ghost predicate Enabled(sys: System, act: Action, rooms: Rooms) {
    match act
    case Begin(id, call) => id !in sys.tasks && CallIn(call, rooms)
    case Advance(id, _) => id in sys.tasks
    case CrashAll => true
    case Arrive(c) => (c.delivery, c.room) in rooms
    case ForeignClaim(d, claimId) => claimId != ClaimIdFor(sys.world.instance, d)
    case ForeignReply(key, _, _) => IsForeignKey(sys.world.instance, key)
  }

  function WithServer(sys: System, v: Server): System {
    sys.(world := sys.world.(server := v))
  }

  function AdvanceStep(sys: System, id: nat, f: Fault): System
    requires id in sys.tasks
  {
    var t := sys.tasks[id];
    var n := TaskStep(sys.world, t, f);
    System(n.world, sys.tasks[id := n.task],
           if t.Acking? && n.world.server.acks != sys.world.server.acks then sys.log + [t.tx] else sys.log)
  }

  ghost function Do(sys: System, act: Action, rooms: Rooms): System
    requires Enabled(sys, act, rooms)
  {
    var v := sys.world.server;
    match act
    case Begin(id, call) => sys.(tasks := sys.tasks[id := Start(call)])
    case Advance(id, f) => AdvanceStep(sys, id, f)
    case CrashAll => sys.(tasks := map[])
    case Arrive(c) => WithServer(sys, v.(mailbox := v.mailbox + [c]))
    case ForeignClaim(d, claimId) => WithServer(sys, v.(claims := v.claims[d := claimId]))
    case ForeignReply(key, room, text) => WithServer(sys, ServeReply(v, key, room, text))
  }

  function Initial(instance: Instance, exclusive: bool): System {
    System(World(instance, Store(None, [], exclusive), Server([], map[], [], [])), map[], [])
  }

  ghost predicate IsRun(start: System, states: seq<System>, acts: seq<Action>, rooms: Rooms) {
    && |states| == |acts| + 1 && states[0] == start
    && forall i | 0 <= i < |acts| :: Enabled(states[i], acts[i], rooms) && states[i + 1] == Do(states[i], acts[i], rooms)
  }

  // --------------------------------------------------------------- invariant

  ghost predicate InQuarantine(quarantine: seq<Quarantined>, d: int) {
    exists i | 0 <= i < |quarantine| :: quarantine[i].delivery == d
  }

  /** The delivery is not forgotten: it is the open transaction, it is quarantined, or it was acknowledged. */
  ghost predicate Held(w: World, d: int) {
    (w.store.open.Some? && w.store.open.value.delivery == d) || InQuarantine(w.store.quarantine, d) || d in w.server.acks
  }

  /** The record is readable, and a reply it records is on the server under its key. */
  ghost predicate RecordOk(w: World, tx: OpenTransaction) {
    && DecoderAccepts(tx) && tx.instance == w.instance
    && (tx.stage == Replied ==> CommittedAs(w.server.events, tx.replyKey, tx.replyEvent))
  }

  predicate CommittedAs(events: seq<ReplyEvent>, key: Tag, id: Option<EventId>) {
    var c := Committed(events, key);
    c.Some? && Some(c.value.id) == id
  }

  predicate Ackable(tx: OpenTransaction) {
    tx.stage == Replied || (tx.stage == Claimed && !tx.replyRequired)
  }

  ghost predicate TaskOk(w: World, t: Task) {
    match t
    case Preparing(tx, _) => RecordOk(w, tx) && tx.stage == Prepared
    case Claiming(tx, _) => RecordOk(w, tx) && tx.stage == Prepared && Held(w, tx.delivery)
    case Granted(tx, _) => RecordOk(w, tx) && tx.stage == Prepared && Held(w, tx.delivery)
    case Replying(tx, _) => RecordOk(w, tx) && tx.stage == Claimed
    case LookingUp(tx) => RecordOk(w, tx) && tx.stage == Claimed
    case Found(tx, event, resolution) =>
      RecordOk(w, tx) && tx.stage == Claimed && !resolution.NoReply? && CommittedAs(w.server.events, tx.replyKey, Some(event))
    case Acking(tx, _) => RecordOk(w, tx) && Ackable(tx)
    case Clearing(tx, _) => tx.delivery in w.server.acks
    case Recording(tx) => RecordOk(w, tx)
    case _ => true
  }

  ghost predicate ClaimsHeld(w: World) {
    forall d | d in w.server.claims && w.server.claims[d] == ClaimIdFor(w.instance, d) :: Held(w, d)
  }

  ghost predicate KeysDistinct(events: seq<ReplyEvent>) {
    forall i, j | 0 <= i < j < |events| :: events[i].key != events[j].key
  }

  ghost predicate WorldOk(w: World) {
    && (w.store.open.Some? ==> RecordOk(w, w.store.open.value)) && ClaimsHeld(w) && KeysDistinct(w.server.events)
  }

  ghost predicate LogOk(w: World, log: seq<OpenTransaction>) {
    && |log| == |w.server.acks|
    && forall i | 0 <= i < |log| :: log[i].delivery == w.server.acks[i] && RecordOk(w, log[i]) && Ackable(log[i])
  }

  ghost predicate SafeInv(sys: System) {
    && WorldOk(sys.world) && LogOk(sys.world, sys.log)
    && forall id | id in sys.tasks :: TaskOk(sys.world, sys.tasks[id])
  }

  // -------------------------------------------------------- what only grows

  /** Everything a record or a call relies on stays true. */
  ghost predicate Later(w: World, w': World) {
    && w.instance == w'.instance && w.server.events <= w'.server.events && w.server.acks <= w'.server.acks
    && forall d | Held(w, d) :: Held(w', d)
  }

  lemma {:induction false} CommittedPrefix(events: seq<ReplyEvent>, more: seq<ReplyEvent>, key: Tag)
    ensures Committed(events, key).Some? ==> Committed(events + more, key) == Committed(events, key)
    ensures Committed(events, key).None? ==> Committed(events + more, key) == Committed(more, key)
  {
    if events == [] {
      assert events + more == more;
    } else {
      CommittedPrefix(events[1..], more, key);
      assert (events + more)[1..] == events[1..] + more;
    }
  }

  lemma {:induction false} CommittedWhere(events: seq<ReplyEvent>, key: Tag) returns (i: nat)
    requires Committed(events, key).Some?
    ensures i < |events| && events[i].key == key && Committed(events, key) == Some(events[i])
  {
    if events[0].key == key {
      i := 0;
    } else {
      i := CommittedWhere(events[1..], key);
      i := i + 1;
    }
  }

  lemma {:induction false} NotCommitted(events: seq<ReplyEvent>, key: Tag)
    requires Committed(events, key).None?
    ensures forall i | 0 <= i < |events| :: events[i].key != key
  {
    if events != [] {
      NotCommitted(events[1..], key);
      assert forall i | 1 <= i < |events| :: events[i] == events[1..][i - 1];
    }
  }

  lemma CommittedStays(w: World, w': World, key: Tag, id: Option<EventId>)
    requires Later(w, w') && CommittedAs(w.server.events, key, id)
    ensures CommittedAs(w'.server.events, key, id)
  {
    var events, events' := w.server.events, w'.server.events;
    assert events' == events + events'[|events|..];
    CommittedPrefix(events, events'[|events|..], key);
  }

  lemma RecordStays(w: World, w': World, tx: OpenTransaction)
    requires Later(w, w') && RecordOk(w, tx)
    ensures RecordOk(w', tx)
  {
    hide Later, CommittedAs, DecoderAccepts;
    LaterInstance(w, w');
    if tx.stage == Replied {
      CommittedStays(w, w', tx.replyKey, tx.replyEvent);
    }
  }

  lemma LaterInstance(w: World, w': World)
    requires Later(w, w')
    ensures w.instance == w'.instance
  {
  }

  lemma TaskStays(w: World, w': World, t: Task)
    requires Later(w, w') && TaskOk(w, t)
    ensures TaskOk(w', t)
  {
    hide RecordOk, CommittedAs, Held;
    if t.Preparing? || t.Claiming? || t.Granted? || t.Replying? || t.LookingUp? || t.Found? || t.Acking? || t.Recording? {
      RecordStays(w, w', t.tx);
    }
    if t.Found? {
      CommittedStays(w, w', t.tx.replyKey, Some(t.event));
    }
  }

  // -------------------------------------------------------------- single steps

  lemma QuarantineGrows(quarantine: seq<Quarantined>, entry: Quarantined, d: int)
    requires InQuarantine(quarantine, d) || entry.delivery == d
    ensures InQuarantine(quarantine + [entry], d)
  {
    var more := quarantine + [entry];
    if InQuarantine(quarantine, d) {
      var i :| 0 <= i < |quarantine| && quarantine[i].delivery == d;
      assert more[i] == quarantine[i];
    } else {
      assert more[|quarantine|] == entry;
    }
  }

  lemma AbandonLater(w: World, f: Fault)
    ensures Later(w, w.(store := Abandon(w.store, f).store))
  {
    if w.store.open.Some? {
      forall d | Held(w, d) && w.store.quarantine != Abandon(w.store, f).store.quarantine
        ensures InQuarantine(Abandon(w.store, f).store.quarantine, d) || d in w.server.acks
      {
        if d !in w.server.acks {
          QuarantineGrows(w.store.quarantine, QuarantineOf(w.store.open.value), d);
        }
      }
    }
  }

  lemma WriteLater(w: World, t: Task, f: Fault)
    requires TaskOk(w, t) && (t.Preparing? || t.Granted? || t.Found? || t.Clearing? || t.Recording? || t.Abandoning?)
    ensures Later(w, WriteStep(w, t, f).world)
  {
    hide RecordOk, CommittedAs, InQuarantine, Construct;
    if t.Abandoning? {
      AbandonLater(w, f);
    }
  }

  lemma RequestLater(w: World, t: Task, f: Fault)
    requires t.Claiming? || t.Replying? || t.LookingUp? || t.Acking?
    ensures Later(w, RequestStep(w, t, f).world)
  {
    hide Committed, InQuarantine;
  }

  lemma StepLater(w: World, t: Task, f: Fault)
    requires TaskOk(w, t)
    ensures Later(w, TaskStep(w, t, f).world)
  {
    hide TaskOk, Later, ReadTask, RequestStep, WriteStep;
    SameLater(w);
    if t.Claiming? || t.Replying? || t.LookingUp? || t.Acking? {
      RequestLater(w, t, f);
    } else if t.Preparing? || t.Granted? || t.Found? || t.Clearing? || t.Recording? || t.Abandoning? {
      WriteLater(w, t, f);
    }
  }

  lemma SameLater(w: World)
    ensures Later(w, w)
  {
  }

  lemma ClaimsStayHeld(w: World, w': World)
    requires ClaimsHeld(w) && Later(w, w') && w'.server.claims == w.server.claims
    ensures ClaimsHeld(w')
  {
    hide Held;
  }

  /** A readable record moves on to a readable record. */
  lemma RecordMoves(w: World, tx: OpenTransaction, event: EventId, resolution: Resolution, reason: string)
    requires RecordOk(w, tx) && !resolution.NoReply?
    ensures tx.stage == Prepared ==> var m := MarkClaimed(tx); m.Made? && RecordOk(w, m.tx) && m.tx.stage == Claimed && m.tx.delivery == tx.delivery
    ensures tx.stage == Claimed && CommittedAs(w.server.events, tx.replyKey, Some(event)) ==>
              var m := MarkReplied(tx, Some(event), resolution); m.Made? && RecordOk(w, m.tx) && m.tx.delivery == tx.delivery
    ensures var m := RecordFailure(tx, reason); m.Made? ==> RecordOk(w, m.tx) && m.tx.delivery == tx.delivery
  {
    hide CommittedAs, ClaimIdFor, ReplyKeyFor, IsTimestamp, IsReason;
  }

  lemma NewRecordOk(w: World, call: Call)
    requires call.ClaimCall?
    ensures var m := NewTransaction(w.instance, call.protocol, call.delivery, call.room, call.inboundEvent, call.inboundSeq,
                                    call.replyRequired, call.createdAt);
            m.Made? ==> RecordOk(w, m.tx) && m.tx.stage == Prepared
  {
    hide ClaimIdFor, ReplyKeyFor, IsTimestamp, IsReason;
  }

  lemma AfterClaimOk(w: World, tx: OpenTransaction, after: After)
    requires RecordOk(w, tx)
    ensures TaskOk(w, AfterClaim(tx, after))
  {
    hide RecordOk, Evaluate;
  }

  lemma StartOk(w: World, call: Call, f: Fault)
    requires WorldOk(w)
    ensures TaskOk(w, StartTask(w, call, f))
  {
    hide RecordOk, Evaluate, ClaimsHeld, RecordFailure, CommittedAs;
    if w.store.open.Some? && call.FailureCall? {
      RecordMoves(w, w.store.open.value, EventId(0), Created, call.reason);
    }
  }

  lemma OpenOk(w: World, call: Call, after: After, f: Fault)
    requires WorldOk(w)
    ensures TaskOk(w, OpenTask(w, call, after, f))
  {
    hide RecordOk, Evaluate, ClaimsHeld, NewTransaction, CommittedAs, AfterClaim;
    if w.store.open.Some? {
      AfterClaimOk(w, w.store.open.value, after);
    } else if call.ClaimCall? {
      NewRecordOk(w, call);
    }
  }

  lemma ReadOk(w: World, t: Task, f: Fault)
    requires WorldOk(w) && (t.Start? || t.Listing? || t.Choosing? || t.Opening?)
    ensures TaskOk(w, ReadTask(w, t, f))
  {
    hide WorldOk, StartTask, OpenTask, Evaluate, Without, InRoom;
    match t
    case Start(call) => StartOk(w, call, f);
    case Opening(call, after) => OpenOk(w, call, after, f);
    case _ =>
  }

  lemma RequestOk(w: World, t: Task, f: Fault)
    requires WorldOk(w) && TaskOk(w, t) && (t.Claiming? || t.Replying? || t.LookingUp? || t.Acking?)
    ensures var n := RequestStep(w, t, f); WorldOk(n.world) && TaskOk(n.world, n.task)
  {
    hide RecordOk, ClaimsHeld, KeysDistinct, ClaimStep, ReplyStep, AckStep, Held, CommittedAs, Later;
    match t
    case Claiming(tx, after) => ClaimOk(w, tx, after, f);
    case Replying(tx, text) => ReplyOk(w, tx, text, f);
    case LookingUp(tx) => LookupOk(w, tx, f);
    case Acking(tx, after) => AckOk(w, tx, after, f);
  }

  lemma ClaimOk(w: World, tx: OpenTransaction, after: After, f: Fault)
    requires WorldOk(w) && TaskOk(w, Claiming(tx, after))
    ensures var n := ClaimStep(w, tx, after, f); WorldOk(n.world) && TaskOk(n.world, n.task)
  {
    hide Held, KeysDistinct, DecoderAccepts, CommittedAs;
    var w' := ClaimStep(w, tx, after, f).world;
    assert forall d :: Held(w', d) == Held(w, d) by {
      HeldIgnoresClaims(w, w');
    }
  }

  lemma HeldIgnoresClaims(w: World, w': World)
    requires w.store == w'.store && w.server.acks == w'.server.acks
    ensures forall d :: Held(w', d) == Held(w, d)
  {
  }

  lemma ReplyOk(w: World, tx: OpenTransaction, text: string, f: Fault)
    requires WorldOk(w) && TaskOk(w, Replying(tx, text))
    ensures var n := ReplyStep(w, tx, text, f); WorldOk(n.world) && TaskOk(n.world, n.task)
  {
    hide RecordOk, ClaimsHeld, KeysDistinct, Later, Held;
    var n := ReplyStep(w, tx, text, f);
    var v := ServeReply(w.server, tx.replyKey, tx.room, text);
    ServeReplyOk(w, tx.replyKey, tx.room, text);
    var w' := w.(server := v);
    RecordStays(w, w', tx);
    CommittedPrefix(w.server.events, [ReplyEvent(tx.replyKey, tx.room, text, EventId(|w.server.events|))], tx.replyKey);
  }

  lemma ServeReplyOk(w: World, key: Tag, room: RoomId, text: string)
    requires WorldOk(w)
    ensures var w' := w.(server := ServeReply(w.server, key, room, text)); WorldOk(w') && Later(w, w')
  {
    hide RecordOk, InQuarantine, Committed;
    var w' := w.(server := ServeReply(w.server, key, room, text));
    ClaimsStayHeld(w, w');
    if w.store.open.Some? {
      RecordStays(w, w', w.store.open.value);
    }
    if Committed(w.server.events, key).None? {
      NotCommitted(w.server.events, key);
    }
  }

  lemma LookupOk(w: World, tx: OpenTransaction, f: Fault)
    requires TaskOk(w, LookingUp(tx))
    ensures TaskOk(w, LookupTask(w, tx, f))
  {
    hide RecordOk;
  }

  lemma AckOk(w: World, tx: OpenTransaction, after: After, f: Fault)
    requires WorldOk(w) && TaskOk(w, Acking(tx, after))
    ensures var n := AckStep(w, tx, after, f); WorldOk(n.world) && TaskOk(n.world, n.task)
  {
    hide RecordOk, KeysDistinct, InQuarantine;
    var w' := AckStep(w, tx, after, f).world;
    assert Later(w, w');
    ClaimsStayHeld(w, w');
    if w.store.open.Some? {
      RecordStays(w, w', w.store.open.value);
    }
  }

  /** Writing back a readable record, or removing the record, keeps the world in order. */
  lemma StoreOk(w: World, store: Store)
    requires WorldOk(w) && Later(w, w.(store := store))
    requires store.open.Some? ==> store.open == w.store.open || RecordOk(w, store.open.value)
    ensures WorldOk(w.(store := store))
  {
    hide Later, KeysDistinct, ClaimsHeld;
    var w' := w.(store := store);
    ClaimsStayHeld(w, w');
    if store.open.Some? {
      RecordStays(w, w', store.open.value);
    }
  }

  lemma WriteOk(w: World, t: Task, f: Fault)
    requires WorldOk(w) && TaskOk(w, t) && (t.Preparing? || t.Granted? || t.Found? || t.Clearing? || t.Recording? || t.Abandoning?)
    ensures var n := WriteStep(w, t, f); WorldOk(n.world) && TaskOk(n.world, n.task)
  {
    hide WorldOk, RecordOk, Later, Held, CommittedAs, MarkClaimed, MarkReplied, AfterClaim, Evaluate, IsStuck;
    var n := WriteStep(w, t, f);
    WriteLater(w, t, f);
    if t.Granted? {
      RecordMoves(w, t.tx, EventId(0), Created, "");
      AfterClaimOk(w, MarkClaimed(t.tx).tx, t.after);
      TaskStays(w, n.world, AfterClaim(MarkClaimed(t.tx).tx, t.after));
    } else if t.Found? {
      RecordMoves(w, t.tx, t.event, t.resolution, "");
    } else if t.Preparing? {
      RecordStays(w, n.world, t.tx);
      JustOpened(n.world, t.tx);
    }
    StoreOk(w, n.world.store);
  }

  lemma JustOpened(w: World, tx: OpenTransaction)
    ensures w.store.open == Some(tx) ==> Held(w, tx.delivery)
  {
  }

  lemma StepOk(w: World, t: Task, f: Fault)
    requires WorldOk(w) && TaskOk(w, t)
    ensures var n := TaskStep(w, t, f); WorldOk(n.world) && TaskOk(n.world, n.task)
  {
    hide WorldOk, ReadTask, RequestStep, WriteStep, RecordOk, Held, CommittedAs;
    if !t.Done? && !f.Crash? {
      if t.Start? || t.Listing? || t.Choosing? || t.Opening? {
        ReadOk(w, t, f);
      } else if t.Claiming? || t.Replying? || t.LookingUp? || t.Acking? {
        RequestOk(w, t, f);
      } else {
        WriteOk(w, t, f);
      }
    }
  }

  // ------------------------------------------------------------------- actions

  /** Only an acknowledgement request adds to the acknowledgements, and it adds its own delivery. */
  lemma StepAcks(w: World, t: Task, f: Fault)
    ensures var acks := TaskStep(w, t, f).world.server.acks;
            acks == w.server.acks || (t.Acking? && acks == w.server.acks + [t.tx.delivery])
  {
    hide ReadTask, WriteStep, Committed;
  }

  lemma LogStays(w: World, w': World, log: seq<OpenTransaction>)
    requires LogOk(w, log) && Later(w, w') && w'.server.acks == w.server.acks
    ensures LogOk(w', log)
  {
    hide RecordOk, Later;
    forall i | 0 <= i < |log|
      ensures RecordOk(w', log[i])
    {
      RecordStays(w, w', log[i]);
    }
  }

  lemma LogGrows(w: World, w': World, log: seq<OpenTransaction>, tx: OpenTransaction)
    requires LogOk(w, log) && Later(w, w') && w'.server.acks == w.server.acks + [tx.delivery] && RecordOk(w, tx) && Ackable(tx)
    ensures LogOk(w', log + [tx])
  {
    hide RecordOk, Later;
    forall i | 0 <= i <= |log|
      ensures RecordOk(w', (log + [tx])[i])
    {
      RecordStays(w, w', (log + [tx])[i]);
    }
  }

  lemma AdvanceSafe(sys: System, id: nat, f: Fault)
    requires SafeInv(sys) && id in sys.tasks
    ensures SafeInv(AdvanceStep(sys, id, f))
  {
    hide TaskStep, WorldOk, LogOk, RecordOk, Later, Held, CommittedAs, Ackable, TaskOk;
    var w, t := sys.world, sys.tasks[id];
    var n := TaskStep(w, t, f);
    StepOk(w, t, f);
    StepLater(w, t, f);
    StepAcks(w, t, f);
    if n.world.server.acks == w.server.acks {
      LogStays(w, n.world, sys.log);
    } else {
      AckingOk(w, t);
      LogGrows(w, n.world, sys.log, t.tx);
    }
    forall other | other in sys.tasks && other != id
      ensures TaskOk(n.world, sys.tasks[other])
    {
      TaskStays(w, n.world, sys.tasks[other]);
    }
  }

  lemma AckingOk(w: World, t: Task)
    requires t.Acking? && TaskOk(w, t)
    ensures RecordOk(w, t.tx) && Ackable(t.tx)
  {
  }

  /** What others do at the server changes nothing this instance relies on. */
  lemma EnvironmentSafe(sys: System, v: Server)
    requires SafeInv(sys) && v.acks == sys.world.server.acks && sys.world.server.events <= v.events && KeysDistinct(v.events)
    requires ClaimsHeld(sys.world.(server := v))
    ensures SafeInv(WithServer(sys, v))
  {
    hide RecordOk, InQuarantine, TaskOk, KeysDistinct, ClaimsHeld, LogOk;
    var w, w' := sys.world, sys.world.(server := v);
    assert Later(w, w');
    LogStays(w, w', sys.log);
    if w.store.open.Some? {
      RecordStays(w, w', w.store.open.value);
    }
    forall id | id in sys.tasks
      ensures TaskOk(w', sys.tasks[id])
    {
      TaskStays(w, w', sys.tasks[id]);
    }
  }

  lemma ForeignClaimHeld(w: World, d: int, claimId: Tag)
    requires ClaimsHeld(w) && claimId != ClaimIdFor(w.instance, d)
    ensures ClaimsHeld(w.(server := w.server.(claims := w.server.claims[d := claimId])))
  {
    hide Held;
    HeldIgnoresClaims(w, w.(server := w.server.(claims := w.server.claims[d := claimId])));
  }

  lemma ActionSafe(sys: System, act: Action, rooms: Rooms)
    requires SafeInv(sys) && Enabled(sys, act, rooms)
    ensures SafeInv(Do(sys, act, rooms))
  {
    hide AdvanceStep, WorldOk, LogOk, TaskOk, IsForeignKey, ClaimIdFor, ServeReply, KeysDistinct, ClaimsHeld;
    var v := sys.world.server;
    WorldParts(sys.world);
    match act
    case Begin(_, call) => StartedOk(sys.world, call);
    case CrashAll =>
    case Advance(id, f) => AdvanceSafe(sys, id, f);
    case Arrive(c) =>
      var v' := v.(mailbox := v.mailbox + [c]);
      SameClaimsHeld(sys.world, v');
      EnvironmentSafe(sys, v');
    case ForeignClaim(d, claimId) =>
      ForeignClaimHeld(sys.world, d, claimId);
      EnvironmentSafe(sys, v.(claims := v.claims[d := claimId]));
    case ForeignReply(key, room, text) =>
      ServeReplyOk(sys.world, key, room, text);
      WorldParts(sys.world.(server := ServeReply(v, key, room, text)));
      ServeReplyExtends(v, key, room, text);
      EnvironmentSafe(sys, ServeReply(v, key, room, text));
  }

  lemma WorldParts(w: World)
    requires WorldOk(w)
    ensures KeysDistinct(w.server.events) && ClaimsHeld(w)
  {
  }

  lemma StartedOk(w: World, call: Call)
    ensures TaskOk(w, Start(call))
  {
  }

  lemma SameClaimsHeld(w: World, v: Server)
    requires ClaimsHeld(w) && v.claims == w.server.claims && v.acks == w.server.acks
    ensures ClaimsHeld(w.(server := v))
  {
    hide Held;
    HeldIgnoresClaims(w, w.(server := v));
  }

  lemma ServeReplyExtends(v: Server, key: Tag, room: RoomId, text: string)
    ensures var v' := ServeReply(v, key, room, text); v'.acks == v.acks && v.events <= v'.events && v'.claims == v.claims
  {
  }

  lemma {:induction false} RunSafe(instance: Instance, exclusive: bool, states: seq<System>, acts: seq<Action>, rooms: Rooms)
    requires IsRun(Initial(instance, exclusive), states, acts, rooms)
    ensures SafeInv(states[|acts|])
    decreases |acts|
  {
    hide Enabled, Do;
    if |acts| > 0 {
      var n := |acts| - 1;
      RunSafe(instance, exclusive, states[..n + 1], acts[..n], rooms);
      ActionSafe(states[n], acts[n], rooms);
    }
  }

  // -------------------------------------------------------------- main results

  /** In every run, each delivery this instance holds on the server is open, quarantined or acknowledged. */
  lemma NoOrphanedClaim(instance: Instance, exclusive: bool, states: seq<System>, acts: seq<Action>, rooms: Rooms, d: int)
    requires IsRun(Initial(instance, exclusive), states, acts, rooms)
    requires var v := states[|acts|].world.server; d in v.claims && v.claims[d] == ClaimIdFor(instance, d)
    ensures Held(states[|acts|].world, d)
  {
    hide Enabled, Do, Held, LogOk, KeysDistinct, RecordOk;
    RunSafe(instance, exclusive, states, acts, rooms);
    RunInstance(instance, exclusive, states, acts, rooms);
  }

  lemma {:induction false} RunInstance(instance: Instance, exclusive: bool, states: seq<System>, acts: seq<Action>, rooms: Rooms)
    requires IsRun(Initial(instance, exclusive), states, acts, rooms)
    ensures states[|acts|].world.instance == instance
    decreases |acts|
  {
    hide TaskStep;
    if |acts| > 0 {
      RunInstance(instance, exclusive, states[..|acts|], acts[..|acts| - 1], rooms);
    }
  }

  /** `k` is the only event under the key. */
  ghost predicate OnlyEvent(events: seq<ReplyEvent>, key: Tag, k: nat) {
    && k < |events| && events[k].key == key
    && forall i | 0 <= i < |events| && events[i].key == key :: i == k
  }

  /** In every run, an acknowledgement whose record required a reply has exactly one committed reply event under the
      record's key, and it is the one the record names; so a conflict that was never resolved acknowledges nothing. */
  lemma AcknowledgedHasItsReply(instance: Instance, exclusive: bool, states: seq<System>, acts: seq<Action>, rooms: Rooms, i: nat)
    returns (k: nat)
    requires IsRun(Initial(instance, exclusive), states, acts, rooms)
    requires i < |states[|acts|].world.server.acks|
    ensures var sys := states[|acts|]; |sys.log| == |sys.world.server.acks| && sys.log[i].delivery == sys.world.server.acks[i]
    ensures var sys := states[|acts|];
            sys.log[i].replyRequired ==>
              OnlyEvent(sys.world.server.events, ReplyKeyFor(instance, sys.log[i].delivery), k)
              && sys.log[i].replyEvent == Some(sys.world.server.events[k].id)
  {
    hide Enabled, Do, Held, TaskOk, ClaimIdFor, ReplyKeyFor, FieldsOk, Committed;
    RunSafe(instance, exclusive, states, acts, rooms);
    RunInstance(instance, exclusive, states, acts, rooms);
    var sys := states[|acts|];
    k := 0;
    if sys.log[i].replyRequired {
      assert RecordOk(sys.world, sys.log[i]);
      k := CommittedWhere(sys.world.server.events, sys.log[i].replyKey);
    }
  }

  /** In every run, the stored record is one the decoder accepts. */
  lemma StoredRecordIsReadable(instance: Instance, exclusive: bool, states: seq<System>, acts: seq<Action>, rooms: Rooms)
    requires IsRun(Initial(instance, exclusive), states, acts, rooms)
    ensures var open := states[|acts|].world.store.open; open.Some? ==> DecoderAccepts(open.value) && open.value.instance == instance
  {
    hide Enabled, Do, Held, TaskOk, LogOk, DecoderAccepts, CommittedAs, KeysDistinct;
    RunSafe(instance, exclusive, states, acts, rooms);
    RunInstance(instance, exclusive, states, acts, rooms);
  }
}
