/**
  The journal as a state machine: its index, its file, and every record it ever made durable.

  `durable` is a history variable: no operation reads it. I/O results, the clock and the survival of a torn
  tail are inputs of each step, so a run is any sequence of operations with any failures in between.
 */
module JournalSpec {
  import opened Basics
  import opened PeerTypes
  import opened JournalIndex
  import opened JournalHistory
  import opened JournalSnapshot
  import opened MapSums

  datatype JournalState = JournalState(
    limits: Limits,
    nextSeq: nat,
    lines: nat,
    sinceCompact: nat,
    ix: Index,
    closed: bool,
    tailDamaged: bool,
    file: seq<Entry>,
    torn: Option<Entry>,
    durable: seq<Entry>)

  /** How a compaction that decided to rewrite the file ends: nothing replaced; the file replaced but the
      directory sync reported an error, so the counters keep their old values; or all done. */
  datatype CompactIo = CompactFailed | RenamedUnsynced | CompactDone

  /** How an append ends: synced; failed and rolled back; or failed with bytes left behind. */
  datatype AppendIo = Synced(compaction: CompactIo) | RolledBack | TailLeft

  datatype Outcome =
    | IoError
    | Silent
    | EnqueueNew
    | EnqueueExisting(existing: OutboundState)
    | EnqueueConflict
    | EnqueueTerminal(terminal: OutboundState)
    | OutboxFull
    | FinishedNow(changed: bool)
    | Accepted
    | Duplicate
    | Conflict
    | QuotaExceeded
    | Acked
    | AlreadyAcked
    | Unknown

  datatype Result = Result(j: JournalState, out: Outcome)

  datatype Op =
    | Enqueue(id: MessageId, payload: Bytes, peer: Endpoint, addr: Addr, lease: nat, io: AppendIo)
    | Finish(id: MessageId, how: DeliveryState, reason: Option<string>, io: AppendIo)
    | NoteFailed(id: MessageId, next: nat)
    | Lease(ids: set<MessageId>, until: nat)
    | Accept(from: Endpoint, id: MessageId, payload: Bytes, io: AppendIo)
    | Consume(from: Endpoint, id: MessageId, io: AppendIo)
    | Close
    | Restart(survives: bool)

  function InitialState(limits: Limits): JournalState {
    JournalState(limits, 1, 0, 0, EmptyIndex, false, false, [], None, [])
  }

  // ---------------------------------------------------------------- writing

  predicate Fresh(ts: nat, retention: nat, now: nat) {
    SaturatingSub(now, ts) < retention
  }

  function PruneOutbound(m: OutMap, retention: nat, now: nat): OutMap {
    map id | id in m && (m[id].state.Queued? || Fresh(m[id].lastTs, retention, now)) :: m[id]
  }

  function PruneInbound(m: InMap, retention: nat, now: nat): InMap {
    map k | k in m && (!m[k].consumed || Fresh(m[k].ts, retention, now)) :: m[k]
  }

  function Prune(ix: Index, retention: nat, now: nat): Index {
    ix.(outbound := PruneOutbound(ix.outbound, retention, now), inbound := PruneInbound(ix.inbound, retention, now))
  }

  ghost function CompactedFile(ix: Index, nextSeq: nat, now: nat): seq<Entry> {
    WithCheckpoint(Snapshot(ix), SaturatingSub(nextSeq, 1), now)
  }

  ghost function Compact(j: JournalState, now: nat, io: CompactIo): JournalState {
    if j.closed then j else
    var pruned := j.(ix := Prune(j.ix, j.limits.retention, now));
    var es := CompactedFile(pruned.ix, j.nextSeq, now);
    if |es| >= j.lines then pruned.(sinceCompact := 0) else
    match io
    case CompactFailed => pruned
    case RenamedUnsynced => pruned.(file := es, torn := None)
    case CompactDone => pruned.(file := es, torn := None, lines := |es|, sinceCompact := 0)
  }

  function NewEntry(j: JournalState, state: DeliveryState, id: MessageId, hash: Digest, now: nat): Entry {
    Entry(j.nextSeq, state, id, hash, None, None, None, None, None, now)
  }

  function Recorded(j: JournalState, e: Entry): JournalState {
    j.(file := j.file + [e], durable := j.durable + [e],
       lines := j.lines + 1, sinceCompact := j.sinceCompact + 1, ix := Apply(j.ix, e))
  }

  ghost function Write(j: JournalState, e: Entry, now: nat, io: AppendIo): (JournalState, bool) {
    if j.closed || j.tailDamaged then (j, false) else
    match io
    case RolledBack => (j, false)
    case TailLeft => (j.(tailDamaged := true, torn := Some(e)), false)
    case Synced(compaction) =>
      var j := Recorded(j, e);
      (if j.sinceCompact >= j.limits.compactEvery then Compact(j, now, compaction) else j, true)
  }

  /** The next sequence number is used up whatever happens to the record. */
  ghost function Append(j: JournalState, e: Entry, now: nat, io: AppendIo): (JournalState, bool) {
    Write(j.(nextSeq := j.nextSeq + 1), e, now, io)
  }

  ghost function AppendThen(j: JournalState, e: Entry, now: nat, io: AppendIo, out: Outcome): Result {
    var (j', ok) := Append(j, e, now, io);
    Result(j', if ok then out else IoError)
  }

  // ------------------------------------------------------------- operations

  function WithOutbound(j: JournalState, id: MessageId, r: Outbound): JournalState {
    j.(ix := j.ix.(outbound := j.ix.outbound[id := r]))
  }

  function Leased(j: JournalState, id: MessageId, lease: nat): JournalState {
    if id in j.ix.outbound then WithOutbound(j, id, j.ix.outbound[id].(nextAttempt := lease)) else j
  }

  /** Payload sizes of the queued records: the slow definition of the outbox totals. */
  ghost function QueuedSizes(m: OutMap): map<MessageId, nat> {
    map id | id in m && m[id].state.Queued? :: PayloadSize(m[id].payload)
  }

  ghost function EnqueueStep(j: JournalState, id: MessageId, payload: Bytes, peer: Endpoint, addr: Addr, lease: nat,
                             now: nat, io: AppendIo): Result
  {
    var hash := PayloadHash(payload);
    if id in j.ix.outbound then
      var r := j.ix.outbound[id];
      if r.hash != hash || r.peer != peer then Result(j, EnqueueConflict) else
      match r.state
      case Refused | Expired => Result(j, EnqueueTerminal(r.state))
      case Settled => Result(j, EnqueueExisting(r.state))
      case Queued =>
        var r := r.(nextAttempt := lease, payload := if r.payload.None? then Some(payload) else r.payload);
        var j := WithOutbound(j, id, r);
        if r.addr == Some(addr) then Result(j, EnqueueExisting(Queued)) else
        var e := NewEntry(j, AddressUpdated, id, hash, now).(peer := Some(peer), addr := Some(addr));
        AppendThen(j, e, now, io, EnqueueExisting(Queued))
    else
      var queued := QueuedSizes(j.ix.outbound);
      if |queued| >= j.limits.maxOutbox || Sum(queued) + |payload| > j.limits.maxOutboxBytes then Result(j, OutboxFull) else
      var e := NewEntry(j, QueuedLocal, id, hash, now)
        .(payload := Some(payload), peer := Some(peer), addr := Some(addr), queuedAt := Some(now));
      var (j', ok) := Append(j, e, now, io);
      if ok then Result(Leased(j', id, lease), EnqueueNew) else Result(j', IoError)
  }

  ghost function FinishStep(j: JournalState, id: MessageId, how: DeliveryState, reason: Option<string>,
                            now: nat, io: AppendIo): Result
  {
    if id !in j.ix.outbound || !j.ix.outbound[id].state.Queued? then Result(j, FinishedNow(false)) else
    var r := j.ix.outbound[id];
    var e := NewEntry(j, how, id, r.hash, now).(peer := Some(r.peer), queuedAt := Some(r.queuedAt), reason := reason);
    AppendThen(j, e, now, io, FinishedNow(true))
  }

  const MaxAttempts: nat := 0xFFFF_FFFF

  function NoteFailedStep(j: JournalState, id: MessageId, next: nat): JournalState {
    if id !in j.ix.outbound then j else
    var r := j.ix.outbound[id];
    WithOutbound(j, id, r.(attempts := if r.attempts < MaxAttempts then r.attempts + 1 else r.attempts, nextAttempt := next))
  }

  function LeaseAll(m: OutMap, ids: set<MessageId>, until: nat): OutMap {
    map id | id in m :: if id in ids then m[id].(nextAttempt := until) else m[id]
  }

  function LiveTotals(j: JournalState, from: Endpoint): Totals {
    if from in j.ix.live then j.ix.live[from] else Totals(0, 0)
  }

  ghost function AcceptStep(j: JournalState, from: Endpoint, id: MessageId, payload: Bytes, now: nat, io: AppendIo): Result {
    var hash := PayloadHash(payload);
    var k := Key(from, id);
    if k in j.ix.inbound then
      if j.ix.inbound[k].hash != hash then Result(j, Conflict) else
      AppendThen(j, NewEntry(j, DuplicateSuppressed, id, hash, now).(peer := Some(from)), now, io, Duplicate)
    else
      var t := LiveTotals(j, from);
      if t.count + 1 > j.limits.maxUnconsumedPerPeer || t.bytes + |payload| > j.limits.maxUnconsumedBytesPerPeer
      then Result(j, QuotaExceeded) else
      var e := NewEntry(j, ReceivedPeer, id, hash, now).(payload := Some(payload), peer := Some(from));
      AppendThen(j, e, now, io, Accepted)
  }

  ghost function ConsumeStep(j: JournalState, from: Endpoint, id: MessageId, now: nat, io: AppendIo): Result {
    var k := Key(from, id);
    if k !in j.ix.inbound then Result(j, Unknown) else
    if j.ix.inbound[k].consumed then Result(j, AlreadyAcked) else
    AppendThen(j, NewEntry(j, Consumed, id, j.ix.inbound[k].hash, now).(peer := Some(from)), now, io, Acked)
  }

  function SurvivingTail(j: JournalState, survives: bool): seq<Entry> {
    if j.torn.Some? && survives then [j.torn.value] else []
  }

  function Reopened(j: JournalState, file: seq<Entry>, durable: seq<Entry>): JournalState {
    JournalState(j.limits, HighWater(file) + 1, |file|, 0, Replay(file), false, false, file, None, durable)
  }

  /** Re-open after a crash or a shutdown. The torn record is there again exactly if its whole line survived. */
  ghost function Restarted(j: JournalState, survives: bool, now: nat): JournalState {
    var tail := SurvivingTail(j, survives);
    Compact(Reopened(j, j.file + tail, j.durable + tail), now, CompactDone)
  }

  ghost function Step(j: JournalState, op: Op, now: nat): Result {
    match op
    case Enqueue(id, payload, peer, addr, lease, io) => EnqueueStep(j, id, payload, peer, addr, lease, now, io)
    case Finish(id, how, reason, io) => if IsTerminal(how) then FinishStep(j, id, how, reason, now, io) else Result(j, Silent)
    case NoteFailed(id, next) => Result(NoteFailedStep(j, id, next), Silent)
    case Lease(ids, until) => Result(j.(ix := j.ix.(outbound := LeaseAll(j.ix.outbound, ids, until))), Silent)
    case Accept(from, id, payload, io) => AcceptStep(j, from, id, payload, now, io)
    case Consume(from, id, io) => ConsumeStep(j, from, id, now, io)
    case Close => Result(j.(closed := true), Silent)
    case Restart(survives) => Result(Restarted(j, survives, now), Silent)
  }
}
