/** The records the peer engine keeps: journal entries, the in-memory index over them, and the limits. */
module PeerTypes {
  import opened Basics

  type Endpoint = Bytes
  type MessageId = Bytes
  type Addr = string

  /** SHA-256 taken as collision free: a digest is equal to another exactly when the hashed bytes are.
      `NoDigest` is the empty string a checkpoint carries. */
  datatype Digest = NoDigest | Sha256(preimage: Bytes)

  function PayloadHash(payload: Bytes): Digest {
    Sha256(payload)
  }

  datatype DeliveryState =
    | QueuedLocal
    | ReceivedPeer
    | Settled
    | DuplicateSuppressed
    | Refused
    | Expired
    | Consumed
    | AddressUpdated
    | Checkpoint

  /** One durable journal record. */
  datatype Entry = Entry(
    seqNo: nat,
    state: DeliveryState,
    id: MessageId,
    hash: Digest,
    payload: Option<Bytes>,
    peer: Option<Endpoint>,
    addr: Option<Addr>,
    queuedAt: Option<nat>,
    reason: Option<string>,
    ts: nat)

  datatype OutboundState = Queued | Settled | Refused | Expired

  datatype Outbound = Outbound(
    seqNo: nat,
    state: OutboundState,
    hash: Digest,
    payload: Option<Bytes>,
    peer: Endpoint,
    addr: Option<Addr>,
    queuedAt: nat,
    lastTs: nat,
    reason: Option<string>,
    attempts: nat,
    nextAttempt: nat)

  datatype Inbound = Inbound(seqNo: nat, hash: Digest, payload: Option<Bytes>, ts: nat, consumed: bool)

  datatype Key = Key(from: Endpoint, id: MessageId)

  /** Live (unconsumed) inbound totals of one sender. */
  datatype Totals = Totals(count: nat, bytes: nat)

  type OutMap = map<MessageId, Outbound>
  type InMap = map<Key, Inbound>
  type LiveMap = map<Endpoint, Totals>

  datatype Index = Index(outbound: OutMap, inbound: InMap, live: LiveMap)

  datatype Limits = Limits(
    maxUnconsumedPerPeer: nat,
    maxUnconsumedBytesPerPeer: nat,
    maxOutbox: nat,
    maxOutboxBytes: nat,
    retention: nat,
    compactEvery: nat)

  function PayloadSize(payload: Option<Bytes>): nat {
    if payload.Some? then |payload.value| else 0
  }

  predicate IsTerminal(s: DeliveryState) {
    s.Settled? || s.Refused? || s.Expired?
  }

  function OutboundStateOf(s: DeliveryState): OutboundState
    requires IsTerminal(s)
  {
    match s
    case Settled => OutboundState.Settled
    case Refused => OutboundState.Refused
    case Expired => OutboundState.Expired
  }

  function DeliveryStateOf(s: OutboundState): DeliveryState {
    match s
    case Queued => QueuedLocal
    case Settled => DeliveryState.Settled
    case Refused => DeliveryState.Refused
    case Expired => DeliveryState.Expired
  }
}
