/** A run at the recording transport in which a delivery claimed for two rooms is answered in the wrong one, and so the
    exact condition. */
module MailboxRoomsExact {
  import opened Basics
  import opened MailboxModel
  import opened MailboxPolicy
  import opened MailboxProtocol
  import opened MailboxSafety
  import opened MailboxPlay
  import opened MailboxResumption
  import opened MailboxRooms

  const Text: string := "x"
  const Noon: string := "2026-01-01T12:00:00Z"

  function TheJob(d: int, room: RoomId): Job {
    Job(SelfServeDrain, d, room, None, None, true, Text)
  }

  ghost predicate TasksBelow(sys: System, id: nat) {
    forall i | i in sys.tasks :: i < id
  }

  lemma NoonIsTimestamp()
    ensures IsTimestamp(Noon)
  {
  }

  /** Claim and reply for one room, from a world with nothing open. */
  lemma PlayClaimReply(start: System, states: seq<System>, acts: seq<Action>, rooms: Rooms, id: nat, d: int, room: RoomId)
    returns (states': seq<System>, acts': seq<Action>)
    requires IsRun(start, states, acts, rooms) && d > 0 && (d, room) in rooms
    requires TasksBelow(Last(states), id)
    requires OnTheWay(Last(states).world, Last(states).world, TheJob(d, room)) && Last(states).world.store.open.None?
    ensures IsRun(start, states', acts', rooms)
    ensures TasksBelow(Last(states'), id + 2)
    ensures OnTheWay(Last(states).world, Last(states').world, TheJob(d, room))
    ensures var open := Last(states').world.store.open; open.Some? && open.value.stage == Replied
  {
    hide Enabled, Do, RunAlone, RunLog, OnTheWay, IsTimestamp;
    var job, w0 := TheJob(d, room), Last(states).world;
    NoonIsTimestamp();
    ClaimArrives(w0, w0, job, Noon);
    CallOnTheWay(w0, w0, ClaimFor(job, Noon), [], job);
    states', acts' := PlayCall(start, states, acts, rooms, id, ClaimFor(job, Noon), []);
    var w1 := Last(states').world;
    ReplyArrives(w0, w1, job);
    CallOnTheWay(w0, w1, ReplyFor(job), [], job);
    states', acts' := PlayCall(start, states', acts', rooms, id + 1, ReplyFor(job), []);
  }

  lemma AbandonArrives(w: World, tx: OpenTransaction)
    requires w.store.open == Some(tx) && tx.protocol == SelfServeDrain && w.store.quarantine == []
    ensures var w' := RunAlone(w, Start(AbandonCall(SelfServeDrain)), []).world;
            w'.store.open.None? && w'.server == w.server && w'.instance == w.instance
  {
    hide RunAlone;
    var call := AbandonCall(SelfServeDrain);
    FineStep(w, Start(call));
    FineStep(w, Abandoning(tx));
    var n := TaskStep(w, Abandoning(tx), Fine);
    Finished(n.world, n.task);
  }

  lemma AckIsLogged(w: World, tx: OpenTransaction, log: seq<OpenTransaction>, job: Job)
    requires w.store.open == Some(tx) && tx.stage == Replied && tx.replyEvent.Some? && IsJobRecord(tx, job)
    ensures RunLog(log, w, Start(AckFor(job)), []) == log + [tx]
  {
    hide RunLog, Evaluate;
    FineLog(log, w, Start(AckFor(job)));
    FineLog(log, w, Acking(tx, Return));
    var n := TaskStep(w, Acking(tx, Return), Fine);
    FineLog(log + [tx], n.world, n.task);
    var m := TaskStep(n.world, n.task, Fine);
    LogDone(log + [tx], m.world, m.task);
  }

  lemma FineLog(log: seq<OpenTransaction>, w: World, t: Task)
    ensures !t.Done? ==> var n := TaskStep(w, t, Fine); RunLog(log, w, t, []) == RunLog(LogAfter(log, w, t, Fine), n.world, n.task, [])
  {
    hide TaskStep, LogAfter;
  }

  lemma LogDone(log: seq<OpenTransaction>, w: World, t: Task)
    requires t.Done?
    ensures RunLog(log, w, t, []) == log
  {
  }

  /** The one reply event is in the first room. */
  lemma FirstReply(w0: World, w1: World, job: Job)
    requires w0 == Initial("", true).world && OnTheWay(w0, w1, job) && w1.store.open.Some? && w1.store.open.value.stage == Replied
    ensures w1.instance == "" && w1.store.quarantine == [] && w1.store.open.value.protocol == job.protocol
    ensures w1.server.claims == map[job.delivery := ClaimIdFor("", job.delivery)]
    ensures w1.server.events == [ReplyEvent(ReplyKeyFor("", job.delivery), job.room, job.text, EventId(0))]
  {
    hide ClaimIdFor, ReplyKeyFor, WorldOk;
  }

  lemma InitialOk()
    ensures SafeInv(Initial("", true))
  {
  }

  /** Replying for the first room and giving up leaves the reply event there and nothing open. */
  lemma PlayFirstRoom(rooms: Rooms, d: int, r: RoomId) returns (states: seq<System>, acts: seq<Action>)
    requires d > 0 && (d, r) in rooms
    ensures IsRun(Initial("", true), states, acts, rooms) && TasksBelow(Last(states), 3)
    ensures var w := Last(states).world;
            && w.instance == "" && w.store.open.None? && w.server.claims == map[d := ClaimIdFor("", d)]
            && w.server.events == [ReplyEvent(ReplyKeyFor("", d), r, Text, EventId(0))]
  {
    hide Enabled, Do, RunAlone, RunLog, OnTheWay, WorldOk, ClaimIdFor, ReplyKeyFor;
    var start, job := Initial("", true), TheJob(d, r);
    states, acts := [start], [];
    assert Last(states) == start;
    InitialOk();
    StartsOnTheWay(start.world, job);
    states, acts := PlayClaimReply(start, states, acts, rooms, 0, d, r);
    var w1 := Last(states).world;
    FirstReply(start.world, w1, job);
    AbandonArrives(w1, w1.store.open.value);
    states, acts := PlayCall(start, states, acts, rooms, 2, AbandonCall(SelfServeDrain), []);
  }

  /** A reply already under the key is all a later job for the same delivery can have. */
  lemma SecondReplyIsTheFirst(w: World, job: Job, event: ReplyEvent)
    requires w.server.events == [event] && event.key == ReplyKeyFor(w.instance, job.delivery)
    ensures JobEvents(w, job) == [event]
  {
    hide ReplyKeyFor;
  }

  /** Answering the same delivery again for another room acknowledges it with the reply in the first room. */
  lemma TwoRoomsMislead(rooms: Rooms, d: int, r: RoomId, r': RoomId) returns (states: seq<System>, acts: seq<Action>)
    requires d > 0 && (d, r) in rooms && (d, r') in rooms && r != r'
    ensures IsRun(Initial("", true), states, acts, rooms) && !RepliesInClaimedRoom(states[|acts|])
  {
    hide Enabled, Do, RunAlone, RunLog, OnTheWay, WorldOk, LogOk, CommittedAs, FieldsOk, ClaimIdFor, ReplyKeyFor, JobEvents;
    var start, job := Initial("", true), TheJob(d, r');
    states, acts := PlayFirstRoom(rooms, d, r);
    var w2 := Last(states).world;
    RunSafe("", true, states, acts, rooms);
    StartsOnTheWay(w2, job);
    states, acts := PlayClaimReply(start, states, acts, rooms, 3, d, r');
    var w3, log := Last(states).world, Last(states).log;
    RecordKnown(w2, w3, job);
    var tx := w3.store.open.value;
    AckIsLogged(w3, tx, log, job);
    AckArrives(w2, w3, job);
    SecondReplyIsTheFirst(w2, job, w2.server.events[0]);
    SameInstance(w2, w3, job);
    states, acts := PlayCall(start, states, acts, rooms, 5, AckFor(job), []);
    var sys := Last(states);
    assert sys.log[|log|] == tx && sys.world.server.events[0].room == r;
  }

  lemma SameInstance(w0: World, w: World, job: Job)
    requires OnTheWay(w0, w, job)
    ensures w.instance == w0.instance
  {
    hide WorldOk, JobEvents, JobClaim;
  }

  /** In every run of every instance, replies land in the claimed room. */
  ghost predicate RoomsTrusted(rooms: Rooms) {
    forall instance, exclusive, states: seq<System>, acts | IsRun(Initial(instance, exclusive), states, acts, rooms) ::
      RepliesInClaimedRoom(states[|acts|])
  }

  /** At the recording transport, replies land in the claimed room exactly when no delivery can be claimed for two rooms. */
  lemma RepliesInRoomIffOneRoomEach(rooms: Rooms)
    ensures RoomsTrusted(rooms) <==> OneRoomEach(rooms)
  {
    hide Enabled, Do, RepliesInClaimedRoom;
    if OneRoomEach(rooms) {
      forall instance, exclusive, states: seq<System>, acts | IsRun(Initial(instance, exclusive), states, acts, rooms)
        ensures RepliesInClaimedRoom(states[|acts|])
      {
        OneRoomSuffices(instance, exclusive, states, acts, rooms);
      }
    } else {
      var d, r, r' :| d > 0 && (d, r) in rooms && (d, r') in rooms && r != r';
      var states, acts := TwoRoomsMislead(rooms, d, r, r');
    }
  }
}
