# Durable delivery: a verified model

Two state machines keep messages safe across crashes: the peer journal with the delivery protocol over it, and the mailbox transaction protocol with the strict JSON scanner its store reads records with. This project models both and proves what they promise over whole runs. `dafny verify dfyconfig.toml` checks all of it.

## The peer journal and delivery

A journal is an append-only file of records with an index in memory. `JournalSpec` is the journal as a state machine: I/O results, clock readings and the fate of a torn line are inputs of each step, and a history variable `durable` keeps every record ever written, compacted away or not; no operation reads it. `Journal.dfy` holds the same operations as a class that updates its maps in place, each method proved equal to its step. `TailRecovery` and `JournalDisk` go down to bytes.

The centre is `JournalRuns`: after any run, index and file are both the replay of `durable` less stale tombstones, and `durable` is a *legal* history (`JournalHistory.Legal`), from which the guarantees to callers are read off. `JournalOutcomes` says when each operation gives which answer and what it leaves. `Delivery` puts any number of such journals on a network that loses, delays, reorders and duplicates, with crashes anywhere; `DeliveryOutcomes` says what each step answers, and that a message is only ever refused for a conflict.

Two facts a reader may not expect:

- Settlement can be trusted exactly when every attempt ends sooner than a tombstone is dropped. Otherwise a message sent twice can be settled by one attempt and forgotten while the answer to the other, a duplicate's, is still unread; its id is queued again with another payload, and the late receipt then settles the new message (`DeliveryCounterexample`).
- An inbox response always fits the IPC frame exactly while the echoed request id, escaped, and the digits of the largest sequence number together take at most 1048490 bytes. A request frame admits ids of up to 1048529 bytes, so a long enough id gets no answer (`InboxResponse`).

## The mailbox

`MailboxProtocol` writes each service call as a little program of single steps, each one store operation or one server request, each of which may fail, lose its answer, or be the last before a crash. `MailboxSafety` interleaves any number of calls with crashes and other clients; `MailboxSequential`, `MailboxResumption` and `MailboxDrain` run calls one after another; `MailboxOutcomes` says what each undisturbed call answers and which calls change nothing; `MailboxService` holds the store, the recording transport and the service as objects, each service method proved equal to its call run alone. `MailboxPlay.PlayCall` shows that a call run alone is a run of the interleaved system.

Two facts a reader may not expect:

- A reply lands in the claimed room exactly when no delivery is ever claimed for two rooms: the server modelled is the recording transport, which finds a reply by its key alone, and the key names the instance and the delivery only (`MailboxRoomsExact`). The HTTP transport looks in one room's events.
- The open record only advances, in all runs, exactly when at most one call is in progress at a time. Beside another call, a slow claim can write over a reply (`MailboxConcurrent`), since a replacement is compared by identity fields and not by state. The safety results hold all the same.

`JsonText` gives the grammar as trees that keep every choice of spelling, with a parser; `JsonGrammar` proves the parser sound and complete for the printed forms; `JsonScanner` is the one-pass scanner with its moving index, proved against the parser for any canonical form by which member names are compared; `JsonNames` says which characters a spelling stands for. The grammar is that of RFC 8259, sections 2 to 7.

## Model

| member | source | states |
|---|---|---|
| JournalRuns.IndexRefinesReplay | packages/peer-engine/src/journal.rs:328-444 | After any run the index equals a replay of the file on every key it holds, up to retry bookkeeping and terminal addresses; keys only in the replay are stale tombstones |
| JournalRuns.NothingLostButStaleTombstones | packages/peer-engine/src/journal.rs:770-868 | After any run every record ever written forms a legal history with increasing sequence numbers below the next one, and file and index are its replay less stale tombstones |
| JournalRuns.RewriteAgreesExactly | packages/peer-engine/src/journal.rs:837-868 | A compaction that puts a new file in place leaves file and index in exact agreement; any other leaves the file alone |
| JournalRuns.LimitsAlwaysHold | packages/peer-engine/src/journal.rs:500-506 | Live totals are exact and both inbound quotas and both outbox limits hold in every reachable state, in memory and after a replay |
| JournalRuns.StepInv | packages/peer-engine/src/journal.rs:460-763 | Every operation, with any I/O result, keeps the journal invariant |
| JournalIndex.ReplayLiveTotalsExact | packages/peer-engine/src/journal.rs:390-454 | After replaying any file, each sender's count and bytes are the sums over its unconsumed records |
| JournalIndex.ApplyKeepsLiveTotals | packages/peer-engine/src/journal.rs:390-454 | Applying any record keeps the totals exact, so the saturating subtraction never saturates |
| JournalSnapshot.SnapshotReplaysToIndex | packages/peer-engine/src/journal.rs:782-836 | Replaying a rewritten file rebuilds the index it was written from, with or without the checkpoint |
| JournalSnapshot.SortedUnique | packages/peer-engine/src/journal.rs:782-821 | The file order is determined: any strictly ordered list of the same records is the snapshot |
| JournalHistory.AcceptancesAreSpaced | packages/peer-engine/src/journal.rs:654-683 | In a legal history, two acceptances of one key have its consumption between them, at least the retention time before the second |
| JournalHistory.EnqueuesAreSpaced | packages/peer-engine/src/journal.rs:460-518 | In a legal history, two enqueues of one id have its terminal record between them, at least the retention time before the second |
| JournalHistory.TraceOutbound | packages/peer-engine/src/journal.rs:355-389 | An outbound id keeps the hash, peer and enqueue time of its enqueue and has at most one terminal record since |
| JournalHistory.TraceInbound | packages/peer-engine/src/journal.rs:390-434 | An inbound record is that of its last acceptance, consumed exactly by a later consumption |
| JournalHistory.ReplaySeqDistinct | packages/peer-engine/src/journal.rs:328-444 | Replaying records with increasing sequence numbers gives index entries with distinct numbers below the last one |
| JournalGuarantees.AcceptedAgainOnlyAfterRetention | packages/peer-engine/src/journal.rs:654-683 | Between two Accepted answers for one key, restarts or not, the key was consumed, at least the retention time before the second |
| JournalGuarantees.DifferingPayloadNotAcknowledged | packages/peer-engine/src/journal.rs:657-669 | Once a key is accepted, another payload under it gets no positive answer until the key was consumed and the retention time has passed |
| JournalGuarantees.AcceptOutcome | packages/peer-engine/src/journal.rs:654-683 | Accepted writes the message down; Duplicate finds the same payload written down; any other answer writes nothing |
| JournalGuarantees.QueuedNeverLost | packages/peer-engine/src/journal.rs:774-780 | A queued message keeps its payload, peer and enqueue time until a terminal record is written, through failures, compactions and restarts |
| JournalGuarantees.UnconsumedNeverLost | packages/peer-engine/src/journal.rs:774-780 | An accepted message stays in the inbox with its payload and sequence number until it is consumed |
| JournalGuarantees.StepWrites | packages/peer-engine/src/journal.rs:872-941 | A step other than a restart writes at most one record, known beforehand |
| JournalOutcomes.AcceptAnswers | packages/peer-engine/src/journal.rs:654-683 | Exactly when a delivery is a conflict, a duplicate, over quota by the sums of unconsumed messages, accepted, or fails to be written |
| JournalOutcomes.AcceptLeaves | packages/peer-engine/src/journal.rs:654-683 | An accepted message is in the inbox as given and unconsumed; a duplicate leaves the item, a refusal everything, as it was |
| JournalOutcomes.ConsumeOutcome | packages/peer-engine/src/journal.rs:752-763 | Exactly when an acknowledgement is unknown, already done, done or failed; done writes the one record that consumes the key and takes the item out of the inbox, and nothing else writes |
| JournalOutcomes.AckedTwiceNeedsReceipt | packages/peer-engine/src/journal.rs:752-763 | Between two Acked answers for one key, restarts or not, the message was received again |
| JournalOutcomes.EnqueueAnswers | packages/peer-engine/src/journal.rs:460-518 | Exactly when a message to send is a conflict, terminal, settled, still queued, too much for the outbox, or new |
| JournalOutcomes.NewIsQueued | packages/peer-engine/src/journal.rs:498-518 | A new message is queued as given, from now, leased, with one record for it |
| JournalOutcomes.ResentStaysQueued | packages/peer-engine/src/journal.rs:474-497 | Sending a queued message again keeps payload and times and renews lease and address |
| JournalOutcomes.FinishOutcome | packages/peer-engine/src/journal.rs:557-594 | A message ends exactly if it was queued and the record gets to the disk; then its history ends in that state |
| JournalOutcomes.CompactionDropsStale | packages/peer-engine/src/journal.rs:774-780 | A compaction drops exactly the tombstones that are stale, and no other record |
| JournalOutcomes.CompactionIsDue | packages/peer-engine/src/journal.rs:903-941 | With compactions that succeed, the number of records since the last one stays below the limit |
| JournalOutcomes.ClosedWritesNothing | packages/peer-engine/src/journal.rs:903-912 | Once closed or with a damaged tail, no operation but a restart writes, and it stays so |
| JournalOutcomes.RestartOutcome | packages/peer-engine/src/journal.rs:242-303 | A restart gives the replay of what is on disk less exactly the stale tombstones, with retry bookkeeping at its start, ready for writes |
| JournalOutcomes.DueAfterFailure | packages/peer-engine/src/journal.rs:597-644 | After a failed attempt a message is due exactly from the given time until it expires |
| JournalOutcomes.ExpiresFromItsEnqueue | packages/peer-engine/src/journal.rs:611-644 | In every reachable state a queued message is reported expired exactly from the expiry time after the record that enqueued it |
| Journals.Journal.Apply | packages/peer-engine/src/journal.rs:328-444 | Updates the three maps in place as the pure index step does |
| Journals.Journal.Replay | packages/peer-engine/src/journal.rs:278-288 | The loop over the file gives the replayed index and a next sequence number above every one in it |
| Journals.Journal.Reopen | packages/peer-engine/src/journal.rs:242-303 | A restart recovers, replays and compacts as the restart step does, and keeps the invariant |
| Journals.Journal.LiveSub | packages/peer-engine/src/journal.rs:446-454 | Subtracts from a sender's totals and drops the entry at zero |
| Journals.Journal.Compact | packages/peer-engine/src/journal.rs:770-868 | Equal to the compaction step for every way its I/O can end |
| Journals.Journal.AppendDurable | packages/peer-engine/src/journal.rs:903-941 | A record reaches the index exactly when it is durable; a damaged tail refuses further writes |
| Journals.Journal.EnqueueOutbound | packages/peer-engine/src/journal.rs:460-518 | Equal to the enqueue step: conflict, terminal, existing, new address, full outbox, new record |
| Journals.Journal.QueuedTotals | packages/peer-engine/src/journal.rs:548-555 | The loop computes the number and payload sum of the queued records |
| Journals.Journal.FinishOutbound | packages/peer-engine/src/journal.rs:557-594 | Equal to the finish step; only a queued record is finished |
| Journals.Journal.NoteAttemptFailed | packages/peer-engine/src/journal.rs:597-602 | Changes retry bookkeeping of one record only |
| Journals.Journal.TakeDue | packages/peer-engine/src/journal.rs:611-644 | Returns exactly the expired ids and the allowed number of due messages, each with its payload and address, and leases exactly those, in any map order |
| Journals.Journal.AcceptInbound | packages/peer-engine/src/journal.rs:654-683 | Equal to the accept step: conflict, duplicate, quota, accepted |
| Journals.Journal.ConsumeInbound | packages/peer-engine/src/journal.rs:752-763 | Equal to the consume step: unknown, already acknowledged, acknowledged |
| Journals.Journal.InboxPage | packages/peer-engine/src/journal.rs:716-743 | Returns the page and the more flag of the paging specification |
| RetryLeases.QueuedPartition | packages/peer-engine/src/journal.rs:611-644 | Every queued record is expired, handed out, still leased, or cut by a full bound |
| RetryLeases.RepeatedCallsRunDry | packages/peer-engine/src/journal.rs:611-644 | Repeated at one instant with a future lease, n calls leave exactly the due messages not yet handed out, all but n times the bound |
| RetryLeases.RoundsAreDisjoint | packages/peer-engine/src/journal.rs:611-644 | No message is handed out by two of those calls |
| InboxPaging.PageMeaning | packages/peer-engine/src/journal.rs:716-743 | A page is in order after the cursor, holds only unconsumed items, and an item after the cursor is on it or still ahead |
| InboxPaging.HasMoreExact | packages/peer-engine/src/journal.rs:741 | There is more exactly when some unconsumed item lies after the page's cursor |
| InboxPaging.ReaderFinishes | packages/peer-engine/src/journal.rs:716-743 | With nothing happening in between, a reader is finished after at least one page and at most as many as there are items, and has seen exactly those, for any limits and budgets |
| InboxPaging.CursorVisitsExactlyOnce | packages/peer-engine/src/journal.rs:716-743 | A reader following the cursor sees every item that stays unconsumed exactly once and in order, with any operations and restarts between pages |
| InboxPaging.PageWithinBudget | packages/peer-engine/src/journal.rs:723-742 | The items array is at most one byte more than the larger of the budget and the first item's counted size |
| InboxPaging.FittingBounds | packages/peer-engine/src/journal.rs:723-742 | A page stops only at the limit, at the budget, or at the end, and is never empty while there are items |
| InboxResponse.EscapedAtMostSixfold | packages/peer-engine/src/ipc.rs:28-36 | Escaping expands a string at most sixfold |
| InboxResponse.ResponseFitsFrame | packages/peer-engine/src/ipc.rs:28-36 | From the sixfold bound alone, a page of items of any spelling fits the frame if the request id escapes to at most 522386 bytes |
| InboxResponse.InboxArrived | packages/peer-engine/src/protocol.rs:163-178 | In every run in which messages arrive in wire frames, an unconsumed item is one that fits a frame, with a sequence number handed out |
| InboxResponse.LongIdOverflows | packages/peer-engine/src/ipc.rs:282-300 | For every longer id, a run of messages an engine can send after which the page for it does not fit |
| InboxResponse.PagesFitIffRequestIdShort | packages/peer-engine/src/ipc.rs:282-300 | In all runs up to a sequence number of at least 4, every inbox response fits if and only if the escaped request id and the digits of that number take at most 1048490 bytes |
| TailRecovery.ReadRecoveringTail | packages/peer-engine/src/journal.rs:947-991 | The streaming loop computes the recovery specification for any bytes |
| TailRecovery.TornTailIsRecovered | packages/peer-engine/src/journal.rs:947-991 | After whole records and any prefix of one more line, recovery yields those records, and the last only if its line is whole, and keeps the boundary |
| TailRecovery.BadRecordIsFatalUnlessLast | packages/peer-engine/src/journal.rs:960-985 | A complete but unreadable record is cut off if only blanks follow and fatal otherwise |
| JournalDisk.RestartReadsDisk | packages/peer-engine/src/journal.rs:242-303 | Whatever part of a failed record is on disk, recovery reads exactly the entries the restart step continues with |
| Delivery.ActionInv | packages/peer-engine/src/engine.rs:419-744 | Every action of every node and of the network keeps the protocol invariant |
| Delivery.ReceiptIsBacked | packages/peer-engine/src/engine.rs:705-738 | A receipt is sent only for a message in the receiver's history with that sender, id and hash |
| DeliveryOutcomes.DeliverAnswers | packages/peer-engine/src/engine.rs:689-738 | Exactly what a receiver answers to a packet: the first thing wrong with it, conflict, quota, a receipt with the right duplicate flag, or nothing if the record is not written |
| DeliveryOutcomes.OutOfOrderChangesNothing | packages/peer-engine/src/engine.rs:689-700 | A message wrong in size, sender or hash never gets to the journal |
| DeliveryOutcomes.SendOutcome | packages/peer-engine/src/engine.rs:419-471 | An attempt starts exactly for a sendable message that is newly or still queued, and carries it with the time it was queued at |
| DeliveryOutcomes.RejectOutcome | packages/peer-engine/src/engine.rs:515-532 | A reject keeps the message queued until the given time exactly if it says quota or names another id; each other code refuses it for good |
| DeliveryOutcomes.ReceiptOutcome | packages/peer-engine/src/engine.rs:488-513 | A receipt settles the message exactly if it names this id, this payload and the dialed peer; any other refuses it |
| DeliveryOutcomes.GiveUpOutcome | packages/peer-engine/src/engine.rs:533-545 | An attempt without an answer leaves the message queued until the given time |
| DeliveryOutcomes.PacketsAreInOrder | packages/peer-engine/src/protocol.rs:129-141 | In every run each packet fits a frame and passes all the receiver's checks of the message itself |
| DeliveryOutcomes.RefusedOnlyByConflict | packages/peer-engine/src/protocol.rs:55-57 | In every run a message is refused only because an attempt for it was answered with a conflict |
| DeliveryOutcomes.QuotaRejectsNeverRefuse | packages/peer-engine/src/protocol.rs:55-57 | In every run a message whose attempts got quota rejects and nothing else is not refused |
| DeliveryRuns.AcceptedAtMostOnce | packages/peer-engine/src/engine.rs:568-617 | If every copy of one message is handled before its enqueue time plus the receiver's retention, it is Accepted at most once in any run |
| DeliveryRuns.ActionSettlement | packages/peer-engine/src/engine.rs:488-513 | With attempts shorter than the retention time, no action settles a message the dialed peer does not have |
| DeliveryRuns.SettledMeansReceived | packages/peer-engine/src/engine.rs:786-807 | In every such run a Settled record means the dialed peer had made that sender, id and hash durable |
| DeliveryRuns.RunNetInv | packages/peer-engine/src/engine.rs:568-619 | The invariant, and settlement under the bound, hold after every run |
| DeliveryCounterexample.LateAttemptSettlesFalsely | packages/peer-engine/src/engine.rs:474-538 | For every retention time not above the attempt bound, a run that settles a message nobody received, each attempt by the answer to its own packet |
| DeliveryCounterexample.SettlementTrustedIffAttemptsEndInTime | packages/peer-engine/src/engine.rs:474-538 | Settlement is trustworthy in all runs if and only if attempts end sooner than the retention time |
| MailboxModel.KeysIdentify | packages/macos-mailbox-helper/Sources/TriangleMailboxCore/MailboxTransactionModels.swift:23-48 | A claim id or reply key is shared exactly by the same instance and delivery: the framing is injective |
| MailboxModel.MovesAdvance | packages/macos-mailbox-helper/Sources/TriangleMailboxCore/MailboxTransactionModels.swift:325-389 | Each move of a readable record gives a readable record further on with the same identity; a failure counts one more and makes it stuck exactly from the fifth on |
| MailboxPolicy.ActionableMeaning | packages/macos-mailbox-helper/Sources/TriangleMailboxCore/MailboxPolicyEvaluator.swift:24-70 | Exactly which pending deliveries may be worked on |
| MailboxPolicy.EvaluationMeaning | packages/macos-mailbox-helper/Sources/TriangleMailboxCore/MailboxPolicyEvaluator.swift:36-69 | Which deliveries are held back, when the transaction is stuck, and when there is something for the model to do |
| MailboxPolicy.FilterAgreesWithEvaluation | packages/macos-mailbox-helper/Sources/TriangleMailboxCore/MailboxPolicyEvaluator.swift:73-86 | Exactly when the list filter and the evaluation agree on a delivery |
| MailboxSafety.ActionSafe | packages/macos-mailbox-helper/Sources/TriangleMailboxCore/MailboxTransactionService.swift:290-576 | Every step of every call, crash and foreign action keeps the safety invariant |
| MailboxSafety.NoOrphanedClaim | packages/macos-mailbox-helper/Sources/TriangleMailboxCore/MailboxTransactionService.swift:290-335 | In every interleaving, a delivery this instance holds on the server is open, quarantined or acknowledged |
| MailboxSafety.AcknowledgedHasItsReply | packages/macos-mailbox-helper/Sources/TriangleMailboxCore/MailboxTransactionService.swift:457-516 | In every interleaving, an acknowledgement whose record required a reply has exactly one event under its key, the one the record names |
| MailboxSafety.StoredRecordIsReadable | packages/macos-mailbox-helper/Sources/TriangleMailboxCore/MailboxTransactionModels.swift:246-303 | In every interleaving, the stored record satisfies the decoder's rules |
| MailboxRooms.OneRoomSuffices | packages/macos-mailbox-helper/Sources/TriangleMailboxCore/MailboxTransactionService.swift:448-455 | If each delivery is claimed for one room only, every acknowledged reply is in the record's room |
| MailboxRoomsExact.TwoRoomsMislead | packages/macos-mailbox-helper/Sources/TriangleMailboxCore/MCPTransactionRewriter.swift:658-676 | For any delivery claimable for two rooms, a run that acknowledges it with its reply in the other room |
| MailboxRoomsExact.RepliesInRoomIffOneRoomEach | packages/macos-mailbox-helper/Sources/TriangleMailboxCore/MCPTransactionRewriter.swift:658-683 | At the recording transport, replies land in the claimed room in all runs if and only if no delivery can be claimed for two rooms |
| MailboxPlay.PlayCall | packages/macos-mailbox-helper/Sources/TriangleMailboxCore/MailboxTransactionService.swift:290-576 | A call run alone, with any faults, is a run of the interleaved system with the same world and log, with one more call in progress on the way |
| MailboxSequential.RecordOnlyAdvances | packages/macos-mailbox-helper/Sources/TriangleMailboxCore/MailboxTransactionService.swift:290-576 | Through any sequential calls, failures and crashes, the open record only goes forward with its identity fixed and leaves only acknowledged or quarantined |
| MailboxSequential.StuckMakesNoRequests | packages/macos-mailbox-helper/Sources/TriangleMailboxCore/MailboxTransactionService.swift:526-541 | With a stuck record open, no call gets to a claim, reply or lookup request, the server's claims and events stay, and what stays open is stuck |
| MailboxConcurrent.ConcurrentCallsCanGoBack | packages/macos-mailbox-helper/Sources/TriangleMailboxCore/MailboxTransactionStore.swift:184-197 | A run with at most two calls side by side in which the record goes from replied back to claimed |
| MailboxConcurrent.OneAtATime | packages/macos-mailbox-helper/Sources/TriangleMailboxCore/MailboxTransactionService.swift:290-576 | In every run with one call in progress at a time, other clients included, the record only advances |
| MailboxConcurrent.AdvancesIffOneAtATime | packages/macos-mailbox-helper/Sources/TriangleMailboxCore/MailboxTransactionStore.swift:184-197 | With at most k calls in progress the record only advances in all runs if and only if k is at most one |
| MailboxOutcomes.MismatchedCallsChangeNothing | packages/macos-mailbox-helper/Sources/TriangleMailboxCore/MailboxTransactionService.swift:297-311 | A call of another protocol, for another delivery or room, in reply to another event, or with no text or too much, is refused and changes nothing, whatever fails |
| MailboxOutcomes.NothingOpenChangesNothing | packages/macos-mailbox-helper/Sources/TriangleMailboxCore/MailboxTransactionService.swift:421-423 | With nothing open, replies, acknowledgements, failure reports and abandons are refused and change nothing |
| MailboxOutcomes.ClaimOutcome | packages/macos-mailbox-helper/Sources/TriangleMailboxCore/MailboxTransactionService.swift:290-335 | What an undisturbed claim answers and leaves from any state: bad fields, granted, held by another, stuck, resumed |
| MailboxOutcomes.SendOutcome | packages/macos-mailbox-helper/Sources/TriangleMailboxCore/MailboxTransactionService.swift:448-488 | The first text under a key becomes its event in the claimed room; the same text is answered with it, another is resolved to it as a conflict |
| MailboxOutcomes.ReplyOutcome | packages/macos-mailbox-helper/Sources/TriangleMailboxCore/MailboxTransactionService.swift:408-488 | What an undisturbed reply that fits answers: stuck, not claimed yet, sent and recorded, or replied before |
| MailboxOutcomes.AcknowledgeOutcome | packages/macos-mailbox-helper/Sources/TriangleMailboxCore/MailboxTransactionService.swift:490-524 | An undisturbed acknowledgement closes a replied transaction and is refused for any other |
| MailboxOutcomes.AbandonOutcome | packages/macos-mailbox-helper/Sources/TriangleMailboxCore/MailboxTransactionStore.swift:212-241 | An undisturbed abandon quarantines the delivery under its protocol, which is not offered it again; the file store does so once only |
| MailboxOutcomes.FailureOutcome | packages/macos-mailbox-helper/Sources/TriangleMailboxCore/MailboxTransactionService.swift:526-541 | A failure report counts one more failure and answers stuck exactly from the fifth on |
| MailboxOutcomes.FifthReportIsStuck | packages/macos-mailbox-helper/Sources/TriangleMailboxCore/MailboxTransactionModels.swift:24-24 | Of the reports on a fresh transaction the first four are answered with it and every later one with stuck |
| MailboxOutcomes.FourFailuresAreNotStuck | packages/macos-mailbox-helper/Sources/TriangleMailboxCore/MailboxTransactionModels.swift:165-165 | With at most four failures no call but a failure report answers stuck, whatever fails |
| MailboxOutcomes.ClaimNextOutcome | packages/macos-mailbox-helper/Sources/TriangleMailboxCore/MailboxTransactionService.swift:235-288 | With nothing open, claimNext claims the earliest delivery in scope with its event bound, or settles it if it is a receipt, or changes nothing if there is none |
| MailboxOutcomes.ClaimNextStaysInRoom | packages/macos-mailbox-helper/Sources/TriangleMailboxCore/MailboxTransactionService.swift:217-245 | Restricted to a room, claimNext claims and acknowledges in that room only, whatever fails |
| MailboxOutcomes.NextWithOpen | packages/macos-mailbox-helper/Sources/TriangleMailboxCore/MailboxTransactionService.swift:128-158 | With a transaction open, a drain or claimNext settles a claimed receipt, refuses a prepared one, defers to one that needs a reply, and is refused by a stuck one |
| MailboxOutcomes.DrainReport | packages/macos-mailbox-helper/Sources/TriangleMailboxCore/MailboxTransactionService.swift:160-201 | A drain reports work pending exactly if the next delivery needs a reply, a receipt exactly if it settled one, and to start the model exactly if something actionable is left |
| MailboxOutcomes.StaleWritesAreRefused | packages/macos-mailbox-helper/Sources/TriangleMailboxCore/MailboxTransactionStore.swift:184-197 | A call never writes its record over another delivery's, another protocol's or a later claim's record, or where none is open |
| MailboxResumption.CrashResumption | packages/macos-mailbox-helper/Sources/TriangleMailboxCore/MailboxTransactionService.swift:301-335 | After any interrupted attempts at one job, one more pass gives the server outcome of a single uninterrupted pass: one claim, one reply event, acknowledged, nothing open |
| MailboxResumption.PassCompletes | packages/macos-mailbox-helper/Sources/TriangleMailboxCore/MailboxTransactionService.swift:408-524 | From every state on the way that is not stuck, claim, reply and acknowledge reach the complete outcome |
| MailboxDrain.DrainEffect | packages/macos-mailbox-helper/Sources/TriangleMailboxCore/MailboxTransactionService.swift:124-201 | One drain settles the earliest actionable delivery if it is receipt-only and otherwise changes nothing |
| MailboxDrain.DrainsAcknowledgePrefix | packages/macos-mailbox-helper/Sources/TriangleMailboxCore/MailboxTransactionService.swift:124-201 | n drains acknowledge and claim exactly the first n of the longest receipt-only prefix, in id order, and touch nothing else |
| MailboxDrain.EnoughDrains | packages/macos-mailbox-helper/Sources/TriangleMailboxCore/MailboxTransactionService.swift:337-368 | Enough drains acknowledge the whole prefix and nothing beyond it |
| MailboxDrain.DrainNeverClaimsForReply | packages/macos-mailbox-helper/Sources/TriangleMailboxCore/MailboxTransactionService.swift:173-182 | Whatever fails, a drain makes no reply or lookup request and asks to claim only the earliest actionable delivery, if that needs no reply |
| MailboxService.TransactionStore.Prepare | packages/macos-mailbox-helper/Sources/TriangleMailboxCore/MailboxTransactionStore.swift:166-182 | Writes the record only where none is open, with every way the write can fail |
| MailboxService.TransactionStore.Replace | packages/macos-mailbox-helper/Sources/TriangleMailboxCore/MailboxTransactionStore.swift:184-197 | Replaces the record only by one with the same identity fields |
| MailboxService.TransactionStore.Clear | packages/macos-mailbox-helper/Sources/TriangleMailboxCore/MailboxTransactionStore.swift:199-210 | Removes the record only if it is of the expected delivery |
| MailboxService.TransactionStore.Abandon | packages/macos-mailbox-helper/Sources/TriangleMailboxCore/MailboxTransactionStore.swift:212-241 | Quarantines before it removes, so a crash between leaves both |
| MailboxService.RecordingTransport.SendReply | packages/macos-mailbox-helper/Sources/TriangleMailboxCore/MCPTransactionRewriter.swift:658-676 | One key commits one event; the same text again is answered with it, another text with a conflict |
| MailboxService.RecordingTransport.Find | packages/macos-mailbox-helper/Sources/TriangleMailboxCore/MCPTransactionRewriter.swift:678-683 | The walk over the events finds the first committed under the key |
| MailboxService.TransactionService.Claim | packages/macos-mailbox-helper/Sources/TriangleMailboxCore/MailboxTransactionService.swift:290-335 | Equal to the claim call run alone with the same faults, from its start or from looking at the open record |
| MailboxService.TransactionService.FinishClaim | packages/macos-mailbox-helper/Sources/TriangleMailboxCore/MailboxTransactionService.swift:556-576 | Equal to the steps from the server claim to the claimed record |
| MailboxService.TransactionService.Proceed | packages/macos-mailbox-helper/Sources/TriangleMailboxCore/MailboxTransactionService.swift:124-288 | drainReceipts and claimNext, equal to their calls run alone |
| MailboxService.TransactionService.SettleReceiptOnly | packages/macos-mailbox-helper/Sources/TriangleMailboxCore/MailboxTransactionService.swift:337-368 | Equal to the settling steps; refuses a record that is not claimed or needs a reply |
| MailboxService.TransactionService.Reply | packages/macos-mailbox-helper/Sources/TriangleMailboxCore/MailboxTransactionService.swift:408-488 | Equal to the reply call run alone |
| MailboxService.TransactionService.RecoverConflict | packages/macos-mailbox-helper/Sources/TriangleMailboxCore/MailboxTransactionService.swift:463-480 | A conflict becomes a reply only through a successful lookup |
| MailboxService.TransactionService.Acknowledge | packages/macos-mailbox-helper/Sources/TriangleMailboxCore/MailboxTransactionService.swift:490-524 | Equal to the acknowledge call run alone |
| MailboxService.TransactionService.ReportFailure | packages/macos-mailbox-helper/Sources/TriangleMailboxCore/MailboxTransactionService.swift:526-541 | Equal to the failure call run alone |
| MailboxService.TransactionService.Abandon | packages/macos-mailbox-helper/Sources/TriangleMailboxCore/MailboxTransactionService.swift:543-554 | Equal to the abandon call run alone |
| JsonGrammar.DocumentParses | packages/macos-mailbox-helper/Sources/TriangleMailboxCore/MailboxTransactionStore.swift:492-622 | Parsing the printed form of any well-formed document gives back that document, spelling included |
| JsonGrammar.DocumentSound | packages/macos-mailbox-helper/Sources/TriangleMailboxCore/MailboxTransactionStore.swift:492-622 | Whatever is accepted is the printed form of the well-formed document returned |
| JsonGrammar.AcceptedIffPrinted | packages/macos-mailbox-helper/Sources/TriangleMailboxCore/MailboxTransactionStore.swift:483-490 | A text is accepted if and only if it is the printed form of some document, and of only one |
| JsonScanner.SeenNamesFindRepeats | packages/macos-mailbox-helper/Sources/TriangleMailboxCore/MailboxTransactionStore.swift:507-524 | Keeping a set of seen names finds exactly the repeated ones |
| JsonNames.HexEscapeDecodes | packages/macos-mailbox-helper/Sources/TriangleMailboxCore/MailboxTransactionStore.swift:558-570 | The hex escape of any number below 0x10000, in any case of its digits, stands for that number, and is refused exactly for surrogates |
| JsonNames.SpellsIffScalar | packages/macos-mailbox-helper/Sources/TriangleMailboxCore/MailboxTransactionStore.swift:549-575 | A piece is accepted and stands for a character exactly when it is the character itself, its short escape or its hex escape |
| JsonNames.ShortEqualsHex | packages/macos-mailbox-helper/Sources/TriangleMailboxCore/MailboxTransactionStore.swift:550-557 | Each of the eight short escapes stands for the same character as its hex escape |
| JsonNames.SameNameIffDecoded | packages/macos-mailbox-helper/Sources/TriangleMailboxCore/MailboxTransactionStore.swift:539-579 | Two names decode alike exactly when they are the same characters in any spelling |
| JsonNames.RespellingKeepsAnswer | packages/macos-mailbox-helper/Sources/TriangleMailboxCore/MailboxTransactionStore.swift:483-490 | Writing names in another spelling, or spacing the document differently, does not change what the scanner answers |
| JsonNames.RespelledMemberIsDuplicate | packages/macos-mailbox-helper/Sources/TriangleMailboxCore/MailboxTransactionStore.swift:514-515 | A name repeated in another spelling is reported |
| JsonNames.GrammarCharacters | packages/macos-mailbox-helper/Sources/TriangleMailboxCore/MailboxTransactionStore.swift:613-617 | Whitespace, digits, hex digits, escapes and literals are the characters the grammar names |
| JsonNames.NoShorterString | packages/peer-engine/src/protocol.rs:163-178 | No spelling of a string is shorter than its escaped length, which is what frame and page sizes count |
| JsonScanner.PrintedDocumentIsScanned | packages/macos-mailbox-helper/Sources/TriangleMailboxCore/MailboxTransactionStore.swift:483-490 | Scanning any printed document succeeds and reports duplicates exactly when some object at any depth repeats a decoded name, names compared by any canonical form |
| JsonScanner.ScanMeaning | packages/macos-mailbox-helper/Sources/TriangleMailboxCore/MailboxTransactionStore.swift:483-490 | For any bytes and any canonical form of names, what each of the three answers means |
| JsonScanner.HasDuplicateObjectMembers | packages/macos-mailbox-helper/Sources/TriangleMailboxCore/MailboxTransactionStore.swift:483-490 | The scanner, given the canonical form, computes that answer |
| JsonScanner.StrictScanner.ParseValue | packages/macos-mailbox-helper/Sources/TriangleMailboxCore/MailboxTransactionStore.swift:492-505 | Fails, stops and flags exactly as the parser's tree says |
| JsonScanner.StrictScanner.ParseObject | packages/macos-mailbox-helper/Sources/TriangleMailboxCore/MailboxTransactionStore.swift:507-524 | The loop with its set of names agrees with the parsed members |
| JsonScanner.StrictScanner.ParseList | packages/macos-mailbox-helper/Sources/TriangleMailboxCore/MailboxTransactionStore.swift:526-537 | The loop agrees with the parsed items |
| JsonScanner.StrictScanner.ParseString | packages/macos-mailbox-helper/Sources/TriangleMailboxCore/MailboxTransactionStore.swift:539-579 | Reads the decoded name and stops at the closing quote, escapes and surrogates included |
| JsonScanner.StrictScanner.ConsumeNumber | packages/macos-mailbox-helper/Sources/TriangleMailboxCore/MailboxTransactionStore.swift:581-600 | Accepts exactly the numbers of the grammar |

## Left out

- Integer widths of the engine: sequence numbers, sizes and times are unbounded naturals; only the attempt counter saturates at 32 bits as in the code.
- Clock readings: one per operation, never going back; the network runs on one common clock.
- The code compares file lines before and after a compaction by counters; the model keeps those counters, but file permissions, locks and sync calls are reduced to a write that is durable, rolled back, or left torn.
- A compaction's rename is atomic, and once made it survives a crash even if the directory sync reported an error.
- SHA-256, including the 128 bits kept of it in mailbox keys and the 64 in quarantine names, is taken as collision free.
- Hex and UTF-8 decoding of a journal's own records: a record is read back as it was written, by the line codec that `TailRecovery` assumes.
- Addresses are opaque, and dialing a stored address reaches the peer of the record.
- How long an attempt may wait: the sum of the engine's timeouts is the parameter `maxAge`.
- Delivery.ActionInv: nodes may expire, give up, lease and retry at any time, so the engine's roster, delivery slots, back-off delays and retry schedule are not modelled; every schedule they allow is among the runs.
- QUIC, TLS, relays, and the rest of the IPC dispatch: an authenticated channel that does not forge stands for them.
- InboxResponse.PagesFitIffRequestIdShort: states the threshold from the fourth sequence number on, since four items are needed to fill a page; characters above ASCII count as written, one per byte, and a peer may spell its message in any JSON the engine reads.
- Refusal reasons are short fixed strings in the model.
- MailboxProtocol: reading the open record and the quarantine at the start of `drainReceipts` and `claimNext` is one step; the quarantine read there only goes into the report.
- The store's 4096-byte limit and the file's ownership and mode checks; a read or write that fails them is a failed step.
- MailboxSafety.StoredRecordIsReadable: the decoder's checks of key presence and types, and the patterns of room and event ids, are not modelled; room and event ids are values that passed them. Timestamps take ASCII digits only.
- The recording transport gives every event one constant id; the model numbers events in commit order, which tells them apart.
- Texts stand for their UTF-8 bytes, one character each.
- MailboxDrain.DrainsAcknowledgePrefix: the pending page lists what is not acknowledged yet, as a mailbox does; the recording transport's list stays fixed.
- `status`, `preflight`, `readInbound`, admit texts and the JSON payloads of the reports; a report keeps its evaluation and flags.
- The MCP rewriter's own decisions, and acknowledgements and sends it forwards when nothing is open: they bypass the service, and the claims here are about service calls.
- Swift's canonical equivalence of strings itself: it is the scanner's parameter `form`, any function from names to canonical forms; for ASCII names that is the name.
- `RetryPolicy::backoff`, size constants and message constructors beyond what the protocol uses: easy members.
