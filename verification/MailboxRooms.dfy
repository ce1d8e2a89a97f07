/**
  At the recording transport, replies land in the claimed room exactly when each delivery is only ever claimed for one
  room: that transport finds a reply by its key alone, and the key does not name the room.
 */
module MailboxRooms {
  import opened Basics
  import opened MailboxModel
  import opened MailboxPolicy
  import opened MailboxProtocol
  import opened MailboxSafety

  /** Every reply event behind an acknowledged record is in that record's room. */
  ghost predicate RepliesInClaimedRoom(sys: System) {
    forall i, k | 0 <= i < |sys.log| && 0 <= k < |sys.world.server.events| ::
      sys.log[i].stage == Replied && sys.world.server.events[k].key == sys.log[i].replyKey ==>
        sys.world.server.events[k].room == sys.log[i].room
  }

  ghost predicate OneRoomEach(rooms: Rooms) {
    forall d, r, r' | d > 0 && (d, r) in rooms && (d, r') in rooms :: r == r'
  }

  // --------------------------------------------- every record stays in its rooms

  predicate TxIn(tx: OpenTransaction, rooms: Rooms) {
    (tx.delivery, tx.room) in rooms
  }

  ghost predicate CandidatesIn(cs: seq<Candidate>, rooms: Rooms) {
    forall c | c in cs :: (c.delivery, c.room) in rooms
  }

  ghost predicate TaskIn(t: Task, rooms: Rooms) {
    match t
    case Start(call) => CallIn(call, rooms)
    case Listing(_) => true
    case Choosing(_, candidates) => CandidatesIn(candidates, rooms)
    case Opening(call, _) => CallIn(call, rooms)
    case Done(_) => true
    case Preparing(tx, _) => TxIn(tx, rooms)
    case Claiming(tx, _) => TxIn(tx, rooms)
    case Granted(tx, _) => TxIn(tx, rooms)
    case Replying(tx, _) => TxIn(tx, rooms)
    case LookingUp(tx) => TxIn(tx, rooms)
    case Found(tx, _, _) => TxIn(tx, rooms)
    case Acking(tx, _) => TxIn(tx, rooms)
    case Clearing(_, _) => true
    case Recording(tx) => TxIn(tx, rooms)
    case Abandoning(_) => true
  }

  ghost predicate EventsIn(w: World, rooms: Rooms) {
    forall k, d: int | 0 <= k < |w.server.events| && d > 0 && w.server.events[k].key == ReplyKeyFor(w.instance, d) ::
      (d, w.server.events[k].room) in rooms
  }

  ghost predicate WorldIn(w: World, rooms: Rooms) {
    && (w.store.open.Some? ==> TxIn(w.store.open.value, rooms)) && CandidatesIn(w.server.mailbox, rooms) && EventsIn(w, rooms)
  }

  ghost predicate SystemIn(sys: System, rooms: Rooms) {
    && WorldIn(sys.world, rooms) && (forall id | id in sys.tasks :: TaskIn(sys.tasks[id], rooms))
    && forall i | 0 <= i < |sys.log| :: TxIn(sys.log[i], rooms)
  }

  lemma ScopedIn(call: Call, candidates: seq<Candidate>, ids: set<int>, rooms: Rooms)
    requires CandidatesIn(candidates, rooms)
    ensures CandidatesIn(Without(Scoped(call, candidates), ids), rooms)
  {
    hide Without, InRoom;
    var scoped := Scoped(call, candidates);
    forall c | c in Without(scoped, ids)
      ensures c in candidates
    {
      WithoutMembers(scoped, ids, c);
      if call.ClaimNextCall? && call.allowedRoom.Some? {
        InRoomMembers(candidates, call.allowedRoom.value, c);
      }
    }
  }

  lemma ChoiceIn(w: World, call: Call, candidates: seq<Candidate>, f: Fault, rooms: Rooms)
    requires CandidatesIn(candidates, rooms)
    ensures TaskIn(ChooseTask(w, call, candidates, f), rooms)
  {
    hide Without, Scoped, QuarantinedIds, Earliest;
    if call.DrainCall? || call.ClaimNextCall? {
      ScopedIn(call, candidates, QuarantinedIds(w.store.quarantine, call.protocol), rooms);
    }
  }

  lemma ListIn(v: Server, rooms: Rooms)
    requires CandidatesIn(v.mailbox, rooms)
    ensures CandidatesIn(ListPending(v), rooms)
  {
    forall c | c in ListPending(v)
      ensures c in v.mailbox
    {
      WithoutMembers(v.mailbox, Acked(v.acks), c);
    }
  }

  lemma ReadIn(w: World, t: Task, f: Fault, rooms: Rooms)
    requires WorldIn(w, rooms) && TaskIn(t, rooms) && (t.Start? || t.Listing? || t.Choosing? || t.Opening?)
    ensures TaskIn(ReadTask(w, t, f), rooms)
  {
    hide EventsIn, ListPending, ChooseTask, Evaluate, IsTimestamp, IsReason, ClaimIdFor, ReplyKeyFor, CandidatesIn;
    if t.Choosing? {
      ChoiceIn(w, t.call, t.candidates, f, rooms);
    } else if t.Listing? {
      ListIn(w.server, rooms);
    }
  }

  lemma ReplyIn(w: World, key: Tag, room: RoomId, text: string, rooms: Rooms)
    requires EventsIn(w, rooms) && forall d: int | d > 0 && key == ReplyKeyFor(w.instance, d) :: (d, room) in rooms
    ensures EventsIn(w.(server := ServeReply(w.server, key, room, text)), rooms)
  {
    hide ReplyKeyFor, Committed;
  }

  lemma RequestIn(w: World, t: Task, f: Fault, rooms: Rooms)
    requires WorldIn(w, rooms) && TaskIn(t, rooms) && TaskOk(w, t) && (t.Claiming? || t.Replying? || t.LookingUp? || t.Acking?)
    ensures var n := RequestStep(w, t, f); WorldIn(n.world, rooms) && TaskIn(n.task, rooms)
  {
    hide ReplyKeyFor, Committed, ClaimIdFor, FieldsOk, CommittedAs, CandidatesIn, EventsIn, Held;
    if t.Replying? {
      OwnKey(w, t.tx, rooms);
      ReplyIn(w, t.tx.replyKey, t.tx.room, t.text, rooms);
    }
    var w' := RequestStep(w, t, f).world;
    if w'.server.events == w.server.events {
      SameEventsIn(w, w', rooms);
    }
  }

  lemma SameEventsIn(w: World, w': World, rooms: Rooms)
    requires EventsIn(w, rooms) && w'.server.events == w.server.events && w'.instance == w.instance
    ensures EventsIn(w', rooms)
  {
    hide ReplyKeyFor;
  }

  lemma OwnKey(w: World, tx: OpenTransaction, rooms: Rooms)
    requires RecordOk(w, tx) && TxIn(tx, rooms)
    ensures forall d: int | d > 0 && tx.replyKey == ReplyKeyFor(w.instance, d) :: (d, tx.room) in rooms
  {
    hide CommittedAs, ReplyKeyFor, ClaimIdFor;
    forall d: int | d > 0 && tx.replyKey == ReplyKeyFor(w.instance, d)
      ensures d == tx.delivery
    {
      KeysIdentify(w.instance, d, tx.instance, tx.delivery);
    }
  }

  lemma WriteIn(w: World, t: Task, f: Fault, rooms: Rooms)
    requires WorldIn(w, rooms) && TaskIn(t, rooms)
    requires t.Preparing? || t.Granted? || t.Found? || t.Clearing? || t.Recording? || t.Abandoning?
    ensures var n := WriteStep(w, t, f); WorldIn(n.world, rooms) && TaskIn(n.task, rooms)
  {
    hide CandidatesIn, EventsIn, Evaluate, IsStuck, MarkClaimed, MarkReplied, TxIn;
    var w' := WriteStep(w, t, f).world;
    SameEventsIn(w, w', rooms);
    if t.Granted? || t.Found? {
      MovesStayIn(t.tx, if t.Found? then Some(t.event) else None, if t.Found? then t.resolution else NoReply, rooms);
    }
  }

  lemma MovesStayIn(tx: OpenTransaction, event: Option<EventId>, resolution: Resolution, rooms: Rooms)
    requires TxIn(tx, rooms)
    ensures MarkClaimed(tx).Made? ==> TxIn(MarkClaimed(tx).tx, rooms)
    ensures MarkReplied(tx, event, resolution).Made? ==> TxIn(MarkReplied(tx, event, resolution).tx, rooms)
  {
    hide FieldsOk, ClaimIdFor, ReplyKeyFor;
  }

  lemma StepIn(w: World, t: Task, f: Fault, rooms: Rooms)
    requires WorldIn(w, rooms) && TaskIn(t, rooms) && TaskOk(w, t)
    ensures var n := TaskStep(w, t, f); WorldIn(n.world, rooms) && TaskIn(n.task, rooms)
  {
    hide WorldIn, TaskOk, ReadTask, RequestStep, WriteStep;
    if !t.Done? && !f.Crash? {
      if t.Start? || t.Listing? || t.Choosing? || t.Opening? {
        ReadIn(w, t, f, rooms);
      } else if t.Claiming? || t.Replying? || t.LookingUp? || t.Acking? {
        RequestIn(w, t, f, rooms);
      } else {
        WriteIn(w, t, f, rooms);
      }
    }
  }

  lemma ForeignReplyIn(w: World, key: Tag, room: RoomId, text: string, rooms: Rooms)
    requires WorldIn(w, rooms) && IsForeignKey(w.instance, key)
    ensures WorldIn(w.(server := ServeReply(w.server, key, room, text)), rooms)
  {
    hide ReplyKeyFor, EventsIn, CandidatesIn;
    ReplyIn(w, key, room, text, rooms);
  }

  lemma ActionIn(sys: System, act: Action, rooms: Rooms)
    requires SafeInv(sys) && SystemIn(sys, rooms) && Enabled(sys, act, rooms)
    ensures SystemIn(Do(sys, act, rooms), rooms)
  {
    hide TaskStep, WorldOk, LogOk, TaskOk, IsForeignKey, ServeReply, ReplyKeyFor, EventsIn, ClaimIdFor;
    match act
    case Begin(_, _) =>
    case CrashAll =>
    case Advance(id, f) =>
      StepIn(sys.world, sys.tasks[id], f, rooms);
    case Arrive(c) =>
      SameEventsIn(sys.world, Do(sys, act, rooms).world, rooms);
    case ForeignClaim(d, claimId) =>
      SameEventsIn(sys.world, Do(sys, act, rooms).world, rooms);
    case ForeignReply(key, room, text) =>
      ForeignReplyIn(sys.world, key, room, text, rooms);
  }

  lemma {:induction false} RunIn(instance: Instance, exclusive: bool, states: seq<System>, acts: seq<Action>, rooms: Rooms)
    requires IsRun(Initial(instance, exclusive), states, acts, rooms)
    ensures SystemIn(states[|acts|], rooms)
    decreases |acts|
  {
    hide Enabled, Do, SafeInv;
    if |acts| > 0 {
      var n := |acts| - 1;
      RunIn(instance, exclusive, states[..n + 1], acts[..n], rooms);
      RunSafe(instance, exclusive, states[..n + 1], acts[..n], rooms);
      ActionIn(states[n], acts[n], rooms);
    }
  }

  lemma OneRoomSuffices(instance: Instance, exclusive: bool, states: seq<System>, acts: seq<Action>, rooms: Rooms)
    requires OneRoomEach(rooms) && IsRun(Initial(instance, exclusive), states, acts, rooms)
    ensures RepliesInClaimedRoom(states[|acts|])
  {
    hide Enabled, Do, TaskOk, ReplyKeyFor, ClaimIdFor, CommittedAs, WorldOk;
    RunIn(instance, exclusive, states, acts, rooms);
    RunSafe(instance, exclusive, states, acts, rooms);
    var sys := states[|acts|];
    forall i, k | 0 <= i < |sys.log| && 0 <= k < |sys.world.server.events| && sys.world.server.events[k].key == sys.log[i].replyKey
      ensures sys.world.server.events[k].room == sys.log[i].room
    {
      assert RecordOk(sys.world, sys.log[i]) && TxIn(sys.log[i], rooms);
      assert (sys.log[i].delivery, sys.world.server.events[k].room) in rooms;
    }
  }
}
