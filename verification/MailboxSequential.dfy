/** Calls made one after another, each with any failures and a crash at any step. */
module MailboxSequential {
  import opened Basics
  import opened MailboxModel
  import opened MailboxPolicy
  import opened MailboxProtocol
  import opened MailboxSafety

  datatype Attempt = Attempt(call: Call, faults: seq<Fault>)

  function RunSession(w: World, session: seq<Attempt>): World
    decreases |session|
  {
    if session == [] then w
    else RunSession(RunAlone(w, Start(session[0].call), session[0].faults).world, session[1..])
  }

  // ------------------------------------------------------ the record advances

  /** With nothing else running, the call's record is the stored one. */
  ghost predicate InStep(w: World, t: Task) {
    match t
    case Preparing(tx, _) => tx.stage == Prepared
    case Claiming(tx, _) => w.store.open == Some(tx)
    case Granted(tx, _) => w.store.open == Some(tx)
    case Replying(tx, _) => w.store.open == Some(tx)
    case LookingUp(tx) => w.store.open == Some(tx)
    case Found(tx, _, _) => w.store.open == Some(tx)
    case Acking(tx, _) => w.store.open == Some(tx)
    case Clearing(tx, _) => w.store.open == Some(tx)
    case Recording(tx) => w.store.open.Some? && Advances(w.store.open.value, tx) && tx.stage == w.store.open.value.stage
    case _ => true
  }

  /** The open record is untouched, moves on, is newly prepared, or leaves because it was acknowledged or quarantined. */
  ghost predicate Moves(w: World, w': World) {
    match w.store.open
    case None => w'.store.open.Some? ==> w'.store.open.value.stage == Prepared
    case Some(tx) =>
      if w'.store.open.Some? then Advances(tx, w'.store.open.value)
      else InQuarantine(w'.store.quarantine, tx.delivery) || tx.delivery in w'.server.acks
  }

  lemma ReadInStep(w: World, t: Task, f: Fault)
    requires WorldOk(w) && (t.Start? || t.Listing? || t.Choosing? || t.Opening?)
    ensures InStep(w, ReadTask(w, t, f)) && Moves(w, w)
  {
    hide Evaluate, Without, InRoom, RecordOk, ClaimsHeld, KeysDistinct, NewTransaction, RecordFailure, Advances, Earliest;
    if w.store.open.Some? {
      RecordedAdvances(w, w.store.open.value, if t.Start? && t.call.FailureCall? then t.call.reason else "");
    } else if t.Opening? && t.call.ClaimCall? {
      NewRecordOk(w, t.call);
    }
  }

  lemma RecordedAdvances(w: World, tx: OpenTransaction, reason: string)
    requires RecordOk(w, tx)
    ensures Advances(tx, tx) && var m := RecordFailure(tx, reason); m.Made? ==> Advances(tx, m.tx) && m.tx.stage == tx.stage
  {
    hide ClaimIdFor, ReplyKeyFor, CommittedAs, IsTimestamp, IsReason;
  }

  lemma RequestInStep(w: World, t: Task, f: Fault)
    requires WorldOk(w) && InStep(w, t) && (t.Claiming? || t.Replying? || t.LookingUp? || t.Acking?)
    ensures var n := RequestStep(w, t, f); InStep(n.world, n.task) && Moves(w, n.world)
  {
    hide RecordOk, ClaimsHeld, KeysDistinct, Advances, Committed;
    RecordedAdvances(w, t.tx, "");
  }

  lemma GrantedInStep(w: World, t: Task, f: Fault)
    requires WorldOk(w) && TaskOk(w, t) && InStep(w, t) && t.Granted?
    ensures var n := WriteStep(w, t, f); InStep(n.world, n.task) && Moves(w, n.world)
  {
    hide ClaimsHeld, KeysDistinct, DecoderAccepts, CommittedAs, Advances, MarkClaimed, Evaluate, Held;
    MovesAdvance(t.tx, EventId(0), Created, "");
    AdvancesReflexive(t.tx);
  }

  lemma AdvancesReflexive(tx: OpenTransaction)
    ensures Advances(tx, tx)
  {
  }

  lemma FoundInStep(w: World, t: Task, f: Fault)
    requires WorldOk(w) && TaskOk(w, t) && InStep(w, t) && t.Found?
    ensures var n := WriteStep(w, t, f); InStep(n.world, n.task) && Moves(w, n.world)
  {
    hide ClaimsHeld, KeysDistinct, DecoderAccepts, CommittedAs, Advances, MarkReplied, Held;
    MovesAdvance(t.tx, t.event, t.resolution, "");
    AdvancesReflexive(t.tx);
  }

  lemma AbandonMoves(w: World, tx: OpenTransaction, f: Fault)
    ensures Moves(w, WriteStep(w, Abandoning(tx), f).world)
  {
    hide Advances;
    if w.store.open.Some? {
      AdvancesReflexive(w.store.open.value);
      QuarantineGrows(w.store.quarantine, QuarantineOf(w.store.open.value), w.store.open.value.delivery);
    }
  }

  lemma WriteInStep(w: World, t: Task, f: Fault)
    requires WorldOk(w) && TaskOk(w, t) && InStep(w, t)
    requires t.Preparing? || t.Granted? || t.Found? || t.Clearing? || t.Recording? || t.Abandoning?
    ensures var n := WriteStep(w, t, f); InStep(n.world, n.task) && Moves(w, n.world)
  {
    if t.Granted? {
      GrantedInStep(w, t, f);
    } else if t.Found? {
      FoundInStep(w, t, f);
    } else if t.Abandoning? {
      hide Moves, WorldOk, InQuarantine;
      AbandonMoves(w, t.tx, f);
    } else {
      OtherWriteInStep(w, t, f);
    }
  }

  lemma OtherWriteInStep(w: World, t: Task, f: Fault)
    requires TaskOk(w, t) && InStep(w, t) && (t.Preparing? || t.Clearing? || t.Recording?)
    ensures var n := WriteStep(w, t, f); InStep(n.world, n.task) && Moves(w, n.world)
  {
    hide Advances, RecordOk, Evaluate, InQuarantine, IsStuck;
    if w.store.open.Some? {
      AdvancesReflexive(w.store.open.value);
    }
  }

  lemma StepInStep(w: World, t: Task, f: Fault)
    requires WorldOk(w) && TaskOk(w, t) && InStep(w, t)
    ensures var n := TaskStep(w, t, f); InStep(n.world, n.task) && Moves(w, n.world)
  {
    hide WorldOk, TaskOk, ReadTask, RequestStep, WriteStep, Advances, InQuarantine;
    if w.store.open.Some? {
      AdvancesReflexive(w.store.open.value);
    }
    if !t.Done? && !f.Crash? {
      if t.Start? || t.Listing? || t.Choosing? || t.Opening? {
        ReadInStep(w, t, f);
      } else if t.Claiming? || t.Replying? || t.LookingUp? || t.Acking? {
        RequestInStep(w, t, f);
      } else {
        WriteInStep(w, t, f);
      }
    }
  }

  /** The worlds a call passes through. */
  function Worlds(w: World, t: Task, faults: seq<Fault>): (ws: seq<World>)
    ensures |ws| > 0 && ws[0] == w && ws[|ws| - 1] == RunAlone(w, t, faults).world
    decreases StepsLeft(t)
  {
    if t.Done? then [w] else
    var n := TaskStep(w, t, FirstFault(faults));
    [w] + Worlds(n.world, n.task, LaterFaults(faults))
  }

  function SessionWorlds(w: World, session: seq<Attempt>): (ws: seq<World>)
    ensures |ws| > 0 && ws[0] == w && ws[|ws| - 1] == RunSession(w, session)
    decreases |session|
  {
    if session == [] then [w] else
    var ws := Worlds(w, Start(session[0].call), session[0].faults);
    ws[..|ws| - 1] + SessionWorlds(ws[|ws| - 1], session[1..])
  }

  ghost predicate AllMove(ws: seq<World>) {
    forall i | 0 <= i < |ws| - 1 :: Moves(ws[i], ws[i + 1])
  }

  lemma {:induction false} CallMoves(w: World, t: Task, faults: seq<Fault>)
    requires WorldOk(w) && TaskOk(w, t) && InStep(w, t)
    ensures AllMove(Worlds(w, t, faults)) && WorldOk(RunAlone(w, t, faults).world)
    decreases StepsLeft(t)
  {
    hide WorldOk, TaskOk, InStep, Moves, TaskStep;
    if !t.Done? {
      var f := FirstFault(faults);
      var n := TaskStep(w, t, f);
      StepOk(w, t, f);
      StepInStep(w, t, f);
      CallMoves(n.world, n.task, LaterFaults(faults));
    }
  }

  /** Through any calls made one after another, with any failures and crashes, the open record only goes forward from
      prepared to claimed to replied with its identity fixed, and leaves only by acknowledgement or quarantine. */
  lemma {:induction false} RecordOnlyAdvances(w: World, session: seq<Attempt>)
    requires WorldOk(w)
    ensures AllMove(SessionWorlds(w, session)) && WorldOk(RunSession(w, session))
    decreases |session|
  {
    hide WorldOk, Moves, RunAlone, Worlds;
    if session != [] {
      var call, faults := session[0].call, session[0].faults;
      var ws := Worlds(w, Start(call), faults);
      CallMoves(w, Start(call), faults);
      RecordOnlyAdvances(ws[|ws| - 1], session[1..]);
      JoinMoves(ws[..|ws| - 1], SessionWorlds(ws[|ws| - 1], session[1..]), ws);
    }
  }

  lemma JoinMoves(front: seq<World>, rest: seq<World>, ws: seq<World>)
    requires |rest| > 0 && ws == front + [rest[0]] && AllMove(ws) && AllMove(rest)
    ensures AllMove(front + rest)
  {
    hide Moves;
    var all := front + rest;
    forall i | 0 <= i < |all| - 1
      ensures Moves(all[i], all[i + 1])
    {
      if i < |front| {
        assert all[i] == ws[i] && all[i + 1] == ws[i + 1];
      } else {
        assert all[i] == rest[i - |front|] && all[i + 1] == rest[i - |front| + 1];
      }
    }
  }

  /** Everything the call is about to do, step by step. */
  function Tasks(w: World, t: Task, faults: seq<Fault>): (ts: seq<Task>)
    ensures |ts| > 0 && ts[0] == t && ts[|ts| - 1] == RunAlone(w, t, faults).task
    decreases StepsLeft(t)
  {
    if t.Done? then [t] else
    var n := TaskStep(w, t, FirstFault(faults));
    [t] + Tasks(n.world, n.task, LaterFaults(faults))
  }

  // -------------------------------------------------------------------- stuck

  /** The call can no longer reach a claim or a reply. */
  predicate Quiet(t: Task) {
    t.Acking? || t.Clearing? || t.Recording? || t.Abandoning? || t.Done?
  }

  ghost predicate StuckOpen(w: World) {
    w.store.open.Some? && IsStuck(w.store.open.value)
  }

  lemma StuckStart(w: World, t: Task, f: Fault)
    requires StuckOpen(w) && (t.Start? || (t.Opening? && t.call.ClaimCall?))
    ensures var n := TaskStep(w, t, f); n.world == w && (Quiet(n.task) || (n.task.Opening? && n.task.call.ClaimCall?))
  {
    hide Evaluate, RecordFailure;
  }

  lemma QuietStep(w: World, t: Task, f: Fault)
    requires Quiet(t)
    ensures var n := TaskStep(w, t, f);
            Quiet(n.task) && n.world.server.claims == w.server.claims && n.world.server.events == w.server.events
  {
    hide Evaluate, ReadTask;
  }

  /** The request a call is about to make, if it claims, replies or looks a reply up. */
  predicate AsksForClaimOrReply(t: Task) {
    t.Claiming? || t.Replying? || t.LookingUp?
  }

  lemma {:induction false} QuietRun(w: World, t: Task, faults: seq<Fault>)
    requires Quiet(t) || (StuckOpen(w) && (t.Start? || (t.Opening? && t.call.ClaimCall?)))
    ensures var v := RunAlone(w, t, faults).world.server; v.claims == w.server.claims && v.events == w.server.events
    ensures forall task | task in Tasks(w, t, faults) :: !AsksForClaimOrReply(task)
    decreases StepsLeft(t)
  {
    hide TaskStep;
    if !t.Done? {
      var f := FirstFault(faults);
      var n := TaskStep(w, t, f);
      if Quiet(t) {
        QuietStep(w, t, f);
      } else {
        StuckStart(w, t, f);
      }
      QuietRun(n.world, n.task, LaterFaults(faults));
    }
  }

  /** Once the open transaction is stuck, no call gets to a claim or a reply request, not even a repeated one; the server's
      claims and events stay as they were, and what stays open is still the stuck record. */
  lemma StuckMakesNoRequests(w: World, call: Call, faults: seq<Fault>)
    requires WorldOk(w) && StuckOpen(w)
    ensures forall task | task in Tasks(w, Start(call), faults) :: !AsksForClaimOrReply(task)
    ensures var w' := RunAlone(w, Start(call), faults).world;
            && w'.server.claims == w.server.claims && w'.server.events == w.server.events
            && (w'.store.open.Some? ==> IsStuck(w'.store.open.value) && Advances(w.store.open.value, w'.store.open.value))
  {
    hide RunAlone, WorldOk, Tasks;
    QuietRun(w, Start(call), faults);
    StuckStays(w, Start(call), faults);
  }

  lemma {:induction false} StuckStays(w: World, t: Task, faults: seq<Fault>)
    requires WorldOk(w) && TaskOk(w, t) && InStep(w, t)
    requires Quiet(t) || (StuckOpen(w) && (t.Start? || (t.Opening? && t.call.ClaimCall?)))
    ensures var w' := RunAlone(w, t, faults).world;
            w'.store.open.Some? ==> w.store.open.Some? && Advances(w.store.open.value, w'.store.open.value)
    decreases StepsLeft(t)
  {
    hide TaskStep, WorldOk, TaskOk, InStep, Advances;
    if w.store.open.Some? {
      AdvancesReflexive(w.store.open.value);
    }
    if !t.Done? {
      var f := FirstFault(faults);
      var n := TaskStep(w, t, f);
      StepOk(w, t, f);
      StepInStep(w, t, f);
      if Quiet(t) {
        QuietStep(w, t, f);
        QuietOpensNothing(w, t, f);
      } else {
        StuckStart(w, t, f);
      }
      StuckStays(n.world, n.task, LaterFaults(faults));
      if w.store.open.Some? && n.world.store.open.Some? && RunAlone(w, t, faults).world.store.open.Some? {
        AdvancesChain(w.store.open.value, n.world.store.open.value, RunAlone(w, t, faults).world.store.open.value);
      }
    }
  }

  lemma AdvancesChain(a: OpenTransaction, b: OpenTransaction, c: OpenTransaction)
    requires Advances(a, b) && Advances(b, c)
    ensures Advances(a, c)
  {
  }

  lemma QuietOpensNothing(w: World, t: Task, f: Fault)
    requires Quiet(t)
    ensures TaskStep(w, t, f).world.store.open.Some? ==> w.store.open.Some?
  {
    hide Evaluate, ReadTask;
  }
}
