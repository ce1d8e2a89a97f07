/** A call made alone is a run of the interleaved system, and how many calls are in progress on the way. */
module MailboxPlay {
  import opened Basics
  import opened MailboxModel
  import opened MailboxPolicy
  import opened MailboxProtocol
  import opened MailboxSafety

  /** The calls in progress. */
  function Active(sys: System): set<nat> {
    set id | id in sys.tasks && !sys.tasks[id].Done?
  }

  /** At most `k` calls are ever in progress together. */
  ghost predicate AtMost(states: seq<System>, k: nat) {
    forall i | 0 <= i < |states| :: |Active(states[i])| <= k
  }

  lemma SubsetSize(a: set<nat>, b: set<nat>)
    requires a <= b
    ensures |a| <= |b|
  {
    assert b == a + (b - a);
  }

  lemma AdvanceKeepsActive(sys: System, id: nat, f: Fault)
    requires id in sys.tasks
    ensures |Active(AdvanceStep(sys, id, f))| <= |Active(sys)|
  {
    hide ReadTask, RequestStep, WriteStep;
    SubsetSize(Active(AdvanceStep(sys, id, f)), Active(sys));
  }

  lemma AtMostSnoc(states: seq<System>, next: System)
    requires |states| > 0 && |Active(next)| <= |Active(Last(states))|
    ensures forall k | AtMost(states, k) :: AtMost(states + [next], k)
  {
    hide Active;
  }

  lemma AtMostGrows(states: seq<System>, next: System)
    requires |states| > 0 && |Active(next)| <= |Active(Last(states))| + 1
    ensures forall k | AtMost(states, k) && |Active(Last(states))| < k :: AtMost(states + [next], k)
  {
    hide Active;
  }

  function LogAfter(log: seq<OpenTransaction>, w: World, t: Task, f: Fault): seq<OpenTransaction> {
    if t.Acking? && TaskStep(w, t, f).world.server.acks != w.server.acks then log + [t.tx] else log
  }

  function RunLog(log: seq<OpenTransaction>, w: World, t: Task, faults: seq<Fault>): seq<OpenTransaction>
    decreases StepsLeft(t)
  {
    if t.Done? then log else
    var n := TaskStep(w, t, FirstFault(faults));
    RunLog(LogAfter(log, w, t, FirstFault(faults)), n.world, n.task, LaterFaults(faults))
  }

  function Last(states: seq<System>): System
    requires |states| > 0
  {
    states[|states| - 1]
  }

  lemma Extended(start: System, states: seq<System>, acts: seq<Action>, rooms: Rooms, act: Action)
    requires IsRun(start, states, acts, rooms) && Enabled(Last(states), act, rooms)
    ensures IsRun(start, states + [Do(Last(states), act, rooms)], acts + [act], rooms)
  {
    hide Enabled, Do;
  }

  lemma {:induction false} PlayTask(start: System, states: seq<System>, acts: seq<Action>, rooms: Rooms, id: nat, faults: seq<Fault>)
    returns (states': seq<System>, acts': seq<Action>)
    requires IsRun(start, states, acts, rooms) && id in Last(states).tasks
    ensures IsRun(start, states', acts', rooms)
    ensures var sys, sys' := Last(states), Last(states');
            && sys'.world == RunAlone(sys.world, sys.tasks[id], faults).world
            && sys'.log == RunLog(sys.log, sys.world, sys.tasks[id], faults)
            && sys'.tasks.Keys == sys.tasks.Keys && sys'.tasks[id].Done?
            && forall other | other in sys.tasks && other != id :: sys'.tasks[other] == sys.tasks[other]
    ensures forall k | AtMost(states, k) :: AtMost(states', k)
    decreases StepsLeft(Last(states).tasks[id])
  {
    hide TaskStep, AtMost;
    var sys := Last(states);
    states', acts' := states, acts;
    if !sys.tasks[id].Done? {
      var act := Advance(id, FirstFault(faults));
      Extended(start, states, acts, rooms, act);
      var next := Do(sys, act, rooms);
      assert Last(states + [next]) == next;
      AdvanceKeepsActive(sys, id, FirstFault(faults));
      AtMostSnoc(states, next);
      states', acts' := PlayTask(start, states + [next], acts + [act], rooms, id, LaterFaults(faults));
    }
  }

  /** Any call made alone, with any faults, can be played as steps of the system from any state of a run. */
  lemma PlayCall(start: System, states: seq<System>, acts: seq<Action>, rooms: Rooms, id: nat, call: Call, faults: seq<Fault>)
    returns (states': seq<System>, acts': seq<Action>)
    requires IsRun(start, states, acts, rooms) && id !in Last(states).tasks && CallIn(call, rooms)
    ensures IsRun(start, states', acts', rooms)
    ensures var sys, sys' := Last(states), Last(states');
            && sys'.world == RunAlone(sys.world, Start(call), faults).world
            && sys'.log == RunLog(sys.log, sys.world, Start(call), faults)
            && sys'.tasks.Keys == sys.tasks.Keys + {id} && sys'.tasks[id].Done?
            && forall other | other in sys.tasks :: sys'.tasks[other] == sys.tasks[other]
    ensures forall k | AtMost(states, k) && |Active(Last(states))| < k :: AtMost(states', k)
  {
    hide RunAlone, RunLog, AtMost, Active, Do, Enabled;
    var act := Begin(id, call);
    BeginIs(Last(states), id, call, rooms);
    Extended(start, states, acts, rooms, act);
    var next := Do(Last(states), act, rooms);
    assert Last(states + [next]) == next;
    AtMostGrows(states, next);
    states', acts' := PlayTask(start, states + [next], acts + [act], rooms, id, faults);
  }

  lemma BeginIs(sys: System, id: nat, call: Call, rooms: Rooms)
    requires id !in sys.tasks && CallIn(call, rooms)
    ensures Enabled(sys, Begin(id, call), rooms)
    ensures var next := Do(sys, Begin(id, call), rooms);
            next == sys.(tasks := sys.tasks[id := Start(call)]) && |Active(next)| <= |Active(sys)| + 1
  {
    var next := sys.(tasks := sys.tasks[id := Start(call)]);
    assert Active(next) == Active(sys) + {id};
  }
}
