/** The record only advances in all runs exactly when at most one call is in progress at a time: beside another call, a
    slow claim can write over a reply. */
module MailboxConcurrent {
  import opened Basics
  import opened MailboxModel
  import opened MailboxPolicy
  import opened MailboxProtocol
  import opened MailboxSafety
  import opened MailboxSequential
  import opened MailboxResumption
  import opened MailboxPlay
  import opened MailboxRoomsExact

  const OneRoom: Rooms := iset{(1, "room")}

  const TheOne: Job := TheJob(1, "room")

  /** Play one step of a call that is under way. */
  lemma PlayStep(start: System, states: seq<System>, acts: seq<Action>, rooms: Rooms, id: nat)
    returns (states': seq<System>, acts': seq<Action>)
    requires IsRun(start, states, acts, rooms) && id in Last(states).tasks
    ensures IsRun(start, states', acts', rooms) && |acts'| == |acts| + 1 && states' == states + [Last(states')]
    ensures Last(states') == AdvanceStep(Last(states), id, Fine)
    ensures forall k | AtMost(states, k) :: AtMost(states', k)
  {
    hide TaskStep, AtMost, Active;
    AdvanceKeepsActive(Last(states), id, Fine);
    AtMostSnoc(states, AdvanceStep(Last(states), id, Fine));
    Extended(start, states, acts, rooms, Advance(id, Fine));
    states', acts' := states + [Do(Last(states), Advance(id, Fine), rooms)], acts + [Advance(id, Fine)];
  }

  /** A claim whose answer has arrived but which has not yet written it down. */
  ghost predicate Waiting(sys: System) {
    && sys.tasks.Keys == {0} && sys.tasks[0].Granted? && sys.world.store.open == Some(sys.tasks[0].tx)
    && sys.tasks[0].tx.stage == Prepared && !IsStuck(sys.tasks[0].tx) && DecoderAccepts(sys.tasks[0].tx)
    && OnTheWay(Initial("", true).world, sys.world, TheOne)
  }

  lemma PlayToPreparing() returns (states: seq<System>, acts: seq<Action>)
    ensures IsRun(Initial("", true), states, acts, OneRoom) && AtMost(states, 1)
    ensures var sys := Last(states);
            && sys.world == Initial("", true).world && sys.tasks.Keys == {0} && sys.tasks[0].Preparing? && sys.tasks[0].after.Return?
            && var tx := sys.tasks[0].tx; tx.stage == Prepared && !IsStuck(tx) && RecordOk(sys.world, tx) && IsJobRecord(tx, TheOne)
  {
    hide ClaimIdFor, ReplyKeyFor, IsTimestamp, IsReason, Do, Enabled, RecordOk, AtMost;
    var start, call := Initial("", true), ClaimFor(TheOne, Noon);
    NoonIsTimestamp();
    BeginIs(start, 0, call, OneRoom);
    assert Last([start]) == start;
    Extended(start, [start], [], OneRoom, Begin(0, call));
    states, acts := [start, start.(tasks := map[0 := Start(call)])], [Begin(0, call)];
    assert [start] + [start.(tasks := map[0 := Start(call)])] == states && [] + [Begin(0, call)] == acts;
    TwoStates(call);
    states, acts := PlayStep(start, states, acts, OneRoom, 0);
    assert Last(states).tasks[0] == Opening(call, Return) && Last(states).world == start.world;
    OpensFresh(start.world, call, TheOne);
    states, acts := PlayStep(start, states, acts, OneRoom, 0);
  }

  lemma PlayToGranted() returns (states: seq<System>, acts: seq<Action>)
    ensures IsRun(Initial("", true), states, acts, OneRoom) && AtMost(states, 1) && Waiting(Last(states))
  {
    hide ClaimIdFor, ReplyKeyFor, FieldsOk, Do, Enabled, WorldOk, JobEvents, CommittedAs, AtMost;
    var start := Initial("", true);
    states, acts := PlayToPreparing();
    var tx := Last(states).tasks[0].tx;
    states, acts := PlayStep(start, states, acts, OneRoom, 0);
    assert Last(states).tasks[0] == Claiming(tx, Return);
    states, acts := PlayStep(start, states, acts, OneRoom, 0);
    assert Last(states).tasks[0] == Granted(tx, Return);
    RunSafe("", true, states, acts, OneRoom);
    assert tx.claimId == JobClaim(start.world, TheOne);
  }

  lemma TwoStates(call: Call)
    ensures var start := Initial("", true); AtMost([start, start.(tasks := map[0 := Start(call)])], 1)
  {
    var start := Initial("", true);
    assert Active(start) == {} && Active(start.(tasks := map[0 := Start(call)])) == {0};
  }

  /** With two calls side by side the open record can go back from replied to claimed. */
  lemma ConcurrentCallsCanGoBack() returns (states: seq<System>, acts: seq<Action>)
    ensures IsRun(Initial("", true), states, acts, OneRoom) && AtMost(states, 2) && |acts| > 0
    ensures var before, after := states[|acts| - 1].world.store.open, states[|acts|].world.store.open;
            before.Some? && before.value.stage == Replied && after.Some? && after.value.stage == Claimed
  {
    hide RunAlone, RunLog, OnTheWay, IsTimestamp, Do, Enabled, DecoderAccepts, MarkClaimed, AtMost, Active;
    var start := Initial("", true);
    states, acts := PlayToGranted();
    FewerAreFewer(states, 1, 2);
    OneActive(Last(states));
    var w, tx := Last(states).world, Last(states).tasks[0].tx;
    NoonIsTimestamp();
    ClaimArrives(start.world, w, TheOne, Noon);
    CallOnTheWay(start.world, w, ClaimFor(TheOne, Noon), [], TheOne);
    states, acts := PlayOther(start, states, acts, 1, ClaimFor(TheOne, Noon));
    var w1 := Last(states).world;
    ReplyArrives(start.world, w1, TheOne);
    states, acts := PlayOther(start, states, acts, 2, ReplyFor(TheOne));
    MovesAdvance(tx, EventId(0), Created, "");
    states, acts := PlayStep(start, states, acts, OneRoom, 0);
  }

  lemma OneActive(sys: System)
    requires sys.tasks.Keys == {0} && !sys.tasks[0].Done?
    ensures Active(sys) == {0}
  {
  }

  /** A whole call beside the waiting one, which stays where it was. */
  lemma PlayOther(start: System, states: seq<System>, acts: seq<Action>, id: nat, call: Call)
    returns (states': seq<System>, acts': seq<Action>)
    requires IsRun(start, states, acts, OneRoom) && id !in Last(states).tasks && CallIn(call, OneRoom)
    requires Active(Last(states)) == {0} && AtMost(states, 2)
    ensures IsRun(start, states', acts', OneRoom) && Active(Last(states')) == {0} && AtMost(states', 2)
    ensures Last(states').world == RunAlone(Last(states).world, Start(call), []).world
    ensures Last(states').tasks.Keys == Last(states).tasks.Keys + {id} && Last(states').tasks[0] == Last(states).tasks[0]
  {
    hide RunAlone, RunLog, TaskStep, AtMost;
    assert 0 in Active(Last(states));
    states', acts' := PlayCall(start, states, acts, OneRoom, id, call, []);
    assert forall other | other in Last(states').tasks :: other == id || Last(states').tasks[other] == Last(states).tasks[other];
  }

  // -------------------------------------------------------- one call at a time

  ghost predicate RecordsAdvance(states: seq<System>) {
    forall i | 0 <= i < |states| - 1 :: Moves(states[i].world, states[i + 1].world)
  }

  /** Every call in progress holds the record that is stored. */
  ghost predicate AllInStep(sys: System) {
    forall id | id in sys.tasks :: InStep(sys.world, sys.tasks[id])
  }

  lemma SameStoreMoves(w: World, w': World)
    requires w'.store == w.store
    ensures Moves(w, w') && forall t :: InStep(w, t) ==> InStep(w', t)
  {
  }

  lemma AdvanceMoves(sys: System, id: nat, f: Fault)
    requires SafeInv(sys) && AllInStep(sys) && id in sys.tasks && |Active(sys)| <= 1
    ensures var next := AdvanceStep(sys, id, f); AllInStep(next) && Moves(sys.world, next.world)
  {
    hide WorldOk, TaskOk, LogOk, TaskStep, Moves, InStep;
    var t := sys.tasks[id];
    StepInStep(sys.world, t, f);
    if t.Done? {
      DoneStep(sys.world, t, f);
    } else {
      forall other | other in sys.tasks && other != id
        ensures InStep(AdvanceStep(sys, id, f).world, sys.tasks[other])
      {
        OnlyOne(Active(sys), id, other);
        DoneInStep(AdvanceStep(sys, id, f).world, sys.tasks[other]);
      }
    }
  }

  lemma DoneStep(w: World, t: Task, f: Fault)
    requires t.Done?
    ensures TaskStep(w, t, f) == Next(w, t)
  {
  }

  lemma DoneInStep(w: World, t: Task)
    requires t.Done?
    ensures InStep(w, t)
  {
  }

  lemma OnlyOne(s: set<nat>, a: nat, b: nat)
    requires |s| <= 1 && a in s && a != b
    ensures b !in s
  {
    if b in s {
      SubsetSize({a, b}, s);
    }
  }

  lemma ActionMoves(sys: System, act: Action, rooms: Rooms)
    requires SafeInv(sys) && AllInStep(sys) && |Active(sys)| <= 1 && Enabled(sys, act, rooms)
    ensures var next := Do(sys, act, rooms); AllInStep(next) && Moves(sys.world, next.world)
  {
    hide SafeInv, AdvanceStep, InStep, Moves, IsForeignKey;
    var next := Do(sys, act, rooms);
    if act.Advance? {
      AdvanceMoves(sys, act.id, act.fault);
    } else {
      SameStoreMoves(sys.world, next.world);
      if act.Begin? {
        StartInStep(sys.world, act.call);
      }
    }
  }

  lemma StartInStep(w: World, call: Call)
    ensures InStep(w, Start(call))
  {
  }

  lemma {:induction false} OneAtATime(instance: Instance, exclusive: bool, states: seq<System>, acts: seq<Action>, rooms: Rooms)
    requires IsRun(Initial(instance, exclusive), states, acts, rooms) && AtMost(states, 1)
    ensures RecordsAdvance(states) && AllInStep(states[|acts|])
    decreases |acts|
  {
    hide Enabled, Do, SafeInv, Moves, InStep, Active;
    if |acts| > 0 {
      var n := |acts| - 1;
      OneAtATime(instance, exclusive, states[..n + 1], acts[..n], rooms);
      RunSafe(instance, exclusive, states[..n + 1], acts[..n], rooms);
      ActionMoves(states[n], acts[n], rooms);
    }
  }

  /** In every run of every instance with at most `k` calls in progress together, the record only advances. */
  ghost predicate AlwaysAdvances(k: nat) {
    forall instance, exclusive, states, acts, rooms |
      IsRun(Initial(instance, exclusive), states, acts, rooms) && AtMost(states, k) :: RecordsAdvance(states)
  }

  /** The record only advances, in all runs, exactly when calls are made one at a time. */
  lemma AdvancesIffOneAtATime(k: nat)
    ensures AlwaysAdvances(k) <==> k <= 1
  {
    hide Enabled, Do, AtMost, RecordsAdvance, Moves;
    if k <= 1 {
      forall instance, exclusive, states, acts, rooms | IsRun(Initial(instance, exclusive), states, acts, rooms) && AtMost(states, k)
        ensures RecordsAdvance(states)
      {
        FewerAreFewer(states, k, 1);
        OneAtATime(instance, exclusive, states, acts, rooms);
      }
    } else {
      var states, acts := ConcurrentCallsCanGoBack();
      FewerAreFewer(states, 2, k);
      GoesBack(states, acts);
    }
  }

  lemma FewerAreFewer(states: seq<System>, k: nat, n: nat)
    requires AtMost(states, k) && k <= n
    ensures AtMost(states, n)
  {
    hide Active;
  }

  lemma GoesBack(states: seq<System>, acts: seq<Action>)
    requires |states| == |acts| + 1 && |acts| > 0
    requires var before, after := states[|acts| - 1].world.store.open, states[|acts|].world.store.open;
             before.Some? && before.value.stage == Replied && after.Some? && after.value.stage == Claimed
    ensures !RecordsAdvance(states)
  {
    assert !Moves(states[|acts| - 1].world, states[|acts| - 1 + 1].world);
  }
}
