# The durable messaging core of the daemon, modelled and proved in Dafny

This project models the part of the Another Dimension daemon that must not lose, repeat or
confuse a message: the encrypted record store and its two-file commit, the delivery ledger and
the detached requests around it, inbox processing with MLS checkpoints, chunked attachments,
key packages and the proposal queue, and the two protocols that swap the live store files.

Cryptography, JSON and MLS are parameters: datatypes of functions with the laws the code relies
on (an AEAD opens what it sealed and adds a 16-byte tag, as AEAD_AES_256_GCM in section 5.2 of
RFC 5116; JSON reads back what it wrote; an MLS receive fails without effect or moves the group
on). SHA-256 is only assumed to give 32 bytes: no proof assumes it injective, so identities are
stated on digests. File system faults, clocks, random bytes and network replies are inputs of
every step, so each theorem speaks of every outcome they can have.

How the files fit together:

- `Prelude`, `Text`, `Aead`: bytes, UTF-8, decimal, hex, and the abstract cipher.
- `RecordCodec`, `StoreFile`, `StoreProtocol`, `EncryptedStore`, `RecoveryArtifact`: the store.
- `Ledger`, `LedgerRestore`, `DeliveryLedger`, `DetachedDelivery`, `Envelope`: delivery.
- `Session`, `Inbox`, `InboxProcessing`, `InboxRecovery`, `InboxLimits`, `Maintenance`, `Establish`: receiving,
  crashing and restarting, what lies past the limits, and where sessions come from.
- `Attachment`, `AttachmentJob`: attachments.
- `KeyPackages`, `ProposalQueue`, `MlsStateStore`: MLS state in the flat store.
- `FileSwap`: key rotation and staged recovery.
- `Codecs`: the laws asked of the JSON codecs can be met.

Code that works in place is a class with the same fields, or a method with the same loop, proved
equal to a specification function; the theorems are about runs of those functions.

## Where the obvious claim is false

Each comes with the condition under which the code does what one would expect.

- A commit is crash safe unless the marker write lands, reports failure and the old store file is
  put back under the new marker (`StoreProtocol.CommitCrashSafety`).
- A batch refused for a bad key or an oversized value keeps its earlier mutations in memory, and
  the next commit makes them durable (`StoreProtocol.RejectedBatch`,
  `StoreProtocol.LeakedPrefixBecomesDurable`). The repository's test of that path is named for the
  opposite (apps/daemon/src/storage.rs:1060); the model follows the code.
- A message whose first post and five retries all fail is left with `attempts` 6, after which the persisted
  ledger is refused as a whole (`LedgerRestore.RestoreOfPersisted`, `LedgerRestore.ExhaustionLocksTheLedger`).
- The attachment route's unconditional retry takes an accepted delivery backwards, so that it can be
  accepted twice (`DetachedDelivery.RunProgress`, `DetachedDelivery.AcceptedTwice`), and can produce a
  ledger that restore refuses (`LedgerRestore.UnconditionalRetryRestores`,
  `DetachedDelivery.RestartRefused`).
- An acceptance whose ledger write is reported as failed is taken back by a reload, or by a restart, and can
  happen again; one whose write held is not, and as long as every write holds only that late attachment
  failure takes a delivery backwards (`DetachedDelivery.AcceptanceNeedsWrite`,
  `DetachedDelivery.RunProgress`, `DetachedDelivery.LostAcceptanceRepeats`).
- An envelope may be created that its own reader refuses at that moment
  (`Envelopes.CreationTimeReading`, `Envelopes.CreationTimeLimitIsTight`).
- Attachments between 33,546,241 bytes and the 32 MiB limit are sealed but cannot be uploaded
  (`Attachments.UploadLimit`).
- A valid attachment descriptor need not be the one its size determines: after a whole number of full chunks
  one empty chunk is accepted too (`Attachments.ValidExactly`).
- The background pass has three error returns that leave a session ahead of its checkpoint and
  unpoisoned, after which a message can be lost (`Maintenance.LeftAhead`,
  `Establishing.FallingBehindHappens`, `Establishing.AheadThenCommitted`).
- A delivery whose ledger no longer fits one store value is refused but leaves its checkpoint in the store's
  memory, and the next commit makes it durable without the message; one that brings the ledger past 4096
  records is committed and then refused by restore (`InboxLimits.OversizedLedgerLeaks`,
  `InboxLimits.CommittedLedgerRestores`).
- Replenishing with a repeated package id succeeds below the minimum, and with an oversized package
  after a good one it fails but keeps the good one in memory (`KeyPackages.DuplicateFallsShort`,
  `KeyPackages.PerformIsAtomic`, `KeyPackages.LeakHappens`).
- A reserve that returned an error can still have reserved: its store file was in place and the daemon
  restarted (`KeyPackages.ConsumesReserved`, `KeyPackages.UnreportedReservation`).
- Queueing a new proposal whose list can be stored and whose body cannot fails but leaves its reference
  listed; nothing else breaks a queue (`ProposalQueue.QueueExact`). The body cannot be stored when it is over
  the value limit, or, however small, when the group id has 176 to 235 bytes: the key of the list is then
  short enough and the key of a body is not (`ProposalQueue.OversizedBodyBreaks`,
  `ProposalQueue.LongGroupBreaks`).

## Model

| member | source | states |
|---|---|---|
| `RecordCodec.DecodeOfEncode` | apps/daemon/src/storage.rs:653-729 | decoding what encode produced returns the same map, for every map encode accepts |
| `RecordCodec.EncodeOfDecode` | apps/daemon/src/storage.rs:653-729 | whatever bytes decode accepts, encode accepts the map and it decodes to itself; the bytes are the encoding exactly when they list their keys in map order |
| `RecordCodec.ParsePayloadOfList` | apps/daemon/src/storage.rs:676-729 | any duplicate-free list of valid records, in any order, is read back entry for entry |
| `RecordCodec.ParsePayloadExact` | apps/daemon/src/storage.rs:676-729 | accepted bytes are exactly the serialization of the distinct, valid records they list, nothing trailing |
| `RecordCodec.ClassRoundTrip` | apps/daemon/src/storage.rs:35-76 | class and class byte determine each other |
| `RecordCodec.EncodeRecords` | apps/daemon/src/storage.rs:653-674 | the appending loop yields the specified encoding or its error |
| `RecordCodec.ReadEntry` | apps/daemon/src/storage.rs:691-720 | one step of the decoding loop agrees with the parser on the rest of the buffer, errors included |
| `RecordCodec.DecodeRecords` | apps/daemon/src/storage.rs:676-729 | the offset-advancing loop yields the specified map or the specified error |
| `StoreFile.ParseOfFile` | apps/daemon/src/storage.rs:611-651 | a written file header parses back to its salt, revision, nonce and ciphertext |
| `StoreFile.FileOfParse` | apps/daemon/src/storage.rs:611-651 | only written files parse: re-encoding the parts gives the same bytes |
| `StoreFile.SealedOpens` | apps/daemon/src/storage.rs:219-237 | a sealed file opens, under its key, to exactly the records and revision sealed |
| `StoreFile.RewrittenHeaderIsRejected` | apps/daemon/src/storage.rs:602-625 | the associated data determines salt and revision, so where a ciphertext opens only under its own associated data, a file with either rewritten fails authentication |
| `StoreFile.MarkerReads` | apps/daemon/src/storage.rs:753-763 | a written revision marker reads back as that revision |
| `StoreFile.OpenIsRepeatable` | apps/daemon/src/storage.rs:219-258 | opening brings the marker up to date and opening again gives the same view |
| `StoreFile.OpenedWithinLimits` | apps/daemon/src/storage.rs:676-729 | whatever opens is within every record, key and value limit and can be encoded again |
| `StoreProtocol.CommitCrashSafety` | apps/daemon/src/storage.rs:458-513 | every disk a commit passes through, compensation included, opens to exactly the old or exactly the new records, if and only if the one rollback window is not hit; otherwise open reports rollback, never a mix |
| `StoreProtocol.CommitCrashSafetyBeforeRename` | apps/daemon/src/storage.rs:458-513 | when a failed write never lands, every crash point opens to the old or the new records |
| `StoreProtocol.MarkerDecides` | apps/daemon/src/storage.rs:237-256 | a store file without a marker opens to all it holds; with one it opens exactly up to its own revision, and reports rollback beyond |
| `StoreProtocol.AttemptAgreement` | apps/daemon/src/storage.rs:458-513 | after a commit memory equals what open returns exactly for the listed file outcomes; an unsuccessful one of these restores the disk byte for byte |
| `StoreProtocol.RejectedBatch` | apps/daemon/src/storage.rs:407-432 | a refused batch leaves memory and disk in step exactly when its accepted prefix changes nothing |
| `StoreProtocol.RejectedBatchLeaks` | apps/daemon/src/storage.rs:411-426 | a concrete refused batch that leaves memory different from disk |
| `StoreProtocol.LeakedPrefixBecomesDurable` | apps/daemon/src/storage.rs:411-432 | the next successful commit writes the leaked prefix to disk |
| `StoreProtocol.OperationIsAtomic` | apps/daemon/src/storage.rs:346-449 | one put, delete or well-formed batch has its full effect in memory and on disk with the revision raised by one, or changes nothing in memory, and nothing on disk when its file steps settle |
| `StoreProtocol.OperationCrashSafety` | apps/daemon/src/storage.rs:346-513 | every disk any operation leaves behind, however it ends, opens to exactly the old or exactly the new records, or reports rollback inside the one window |
| `StoreProtocol.OperationSucceeds` | apps/daemon/src/storage.rs:346-513 | when an operation succeeds, told before the call: valid entries, room, a revision left, and working preparation and file steps; a delete of a missing key always does; which error it is otherwise |
| `StoreProtocol.RunIsFaithful` | apps/daemon/src/storage.rs:346-449 | over every run memory is the map the successful operations stand for, open returns it, and the revision counts the commits |
| `StoreProtocol.EarlierFileIsRejected` | apps/daemon/src/storage.rs:237-256 | in every run, putting back a store file from an earlier point opens to rollback exactly when something was committed since |
| `StoreProtocol.RevisionGrows` | apps/daemon/src/storage.rs:458-513 | the revision never falls in a run |
| `StoreProtocol.InitializedSettled` | apps/daemon/src/storage.rs:171-196 | a fresh store opens to no records at revision zero |
| `StoreProtocol.RekeyKeepsRecords` | apps/daemon/src/storage.rs:329-344 | a successful rekey opens, under the new key, to exactly the same records |
| `EncryptedStores.EncryptedStore.Create` | apps/daemon/src/storage.rs:171-196 | never over an existing store; success gives the empty store; a failed first write is cleaned up; where there were no files, a crash anywhere leaves no store or one that opens empty |
| `EncryptedStores.EncryptedStore.OpenFiles` | apps/daemon/src/storage.rs:219-258 | an opened store holds what its files say, marker brought up to date; when that write fails the files still open to the same |
| `EncryptedStores.EncryptedStore.ReplaceFiles` | apps/daemon/src/storage.rs:484-510 | the file steps pass through exactly the specified disks, in order, restoring both files if the marker write fails |
| `EncryptedStores.EncryptedStore.Commit` | apps/daemon/src/storage.rs:458-513 | the commit on the object has the specified result, files and revision |
| `EncryptedStores.EncryptedStore.PutRecord` | apps/daemon/src/storage.rs:346-369 | put refines the specified operation, undoing the map on failure, and leaves behind exactly the specified disks |
| `EncryptedStores.EncryptedStore.DeleteRecord` | apps/daemon/src/storage.rs:434-449 | delete refines the specified operation, undoing the map on failure, and leaves behind exactly the specified disks |
| `EncryptedStores.EncryptedStore.Stage` | apps/daemon/src/storage.rs:411-426 | the staging loop applies exactly the valid prefix and says whether it reached the end |
| `EncryptedStores.EncryptedStore.ApplyBatch` | apps/daemon/src/storage.rs:407-432 | apply_batch refines the specified operation, restoring memory only after a failed commit, and leaves behind exactly the specified disks |
| `EncryptedStores.EncryptedStore.Lock` | apps/daemon/src/storage.rs:302-309 | locking empties memory and leaves the files |
| `EncryptedStores.EncryptedStore.Get` | apps/daemon/src/storage.rs:371-376 | a store in agreement with its files reads what reopening them would read; a locked one reads nothing |
| `RecoveryArtifact.ReadBlobAt` | apps/daemon/src/storage.rs:805-863 | a length-prefixed blob reads back at its offset |
| `RecoveryArtifact.SplitOfAssembled` | apps/daemon/src/storage.rs:805-863 | splitting undoes assembling |
| `RecoveryArtifact.SplitExact` | apps/daemon/src/storage.rs:814-863 | only magic plus three length-prefixed blobs with nothing trailing splits |
| `RecoveryArtifact.SplitIsUnique` | apps/daemon/src/storage.rs:814-863 | an artifact splits in only one way |
| `RecoveryArtifact.ExportThenParse` | apps/daemon/src/storage.rs:267-290 | parsing an export returns the store and marker bytes exactly when the artifact is at most 64 MiB and the marker is the file's revision |
| `RecoveryArtifact.ParsesExactly` | apps/daemon/src/storage.rs:814-863 | an artifact parses to two files exactly when it is within 64 MiB and its manifest is the one export would have written for them, the marker naming the file's revision |
| `RecoveryArtifact.ReachableStoreExports` | apps/daemon/src/storage.rs:267-290 | every reachable unlocked store exports, and within the size limit the export parses back to its two files; a locked one exports nothing |
| `RecoveryArtifact.SubstitutionIsRefused` | apps/daemon/src/storage.rs:814-844 | under the manifest of one pair of files, any pair with another digest is refused |
| `RecoveryArtifact.ExportArtifact` | apps/daemon/src/storage.rs:267-290 | the exported buffer parses back to the two files exactly when within 64 MiB with the marker naming the file's revision |
| `Ledger.BackoffIsExponential` | apps/daemon/src/delivery.rs:326-352 | the k-th backoff is 5·2^(k-1) seconds for k up to 5, below the cap |
| `Ledger.SchedulingBacksOff` | apps/daemon/src/delivery.rs:326-352 | a scheduling that returns true sets the retry time 5·2^attempts seconds ahead, so the one-hour cap is never reached |
| `Ledger.ActKeepsRetryInvariant` | apps/daemon/src/delivery.rs:182-438 | every record operation keeps: retry time set exactly in Retryable, attempts 6 only in Failed |
| `Ledger.ActMoves` | apps/daemon/src/delivery.rs:182-438 | the state machine as a table of moves: each operation takes a record exactly out of its source states to its destination and leaves any other alone; digest and expiry never change, wire and destination are only ever dropped by cancelling and failing |
| `Ledger.OpMeans` | apps/daemon/src/delivery.rs:94-268 | what each operation makes of every digest: new records hold just what was given, known ones are never overwritten, discarding removes only in the expected state |
| `Ledger.ExpiryMoves` | apps/daemon/src/delivery.rs:306-324 | expiry fails every message whose time has come unless Decrypted or Cancelled, and it is then never due |
| `Ledger.RetryAccounting` | apps/daemon/src/delivery.rs:94-438 | over every run attempts equal their start plus the schedulings and exhaustions, so they never fall; at most five schedulings of a digest return true; attempts 6 stands only in Failed, a retry time only in Retryable; no record is lost |
| `LedgerRestore.RestoreOfPersisted` | apps/daemon/src/delivery.rs:440-496 | after any routed run, restore of the persisted ledger returns it unchanged exactly when no record has exhausted its retries, and refuses it otherwise |
| `LedgerRestore.RestoredIsUsable` | apps/daemon/src/delivery.rs:449-496 | whatever restore accepts is within every limit, keeps the retry invariant with a retry to spare, and its queued messages are due at once |
| `LedgerRestore.FailedRun` | apps/daemon/src/delivery.rs:326-352 | one message whose every post fails the moment it is due: after n failures its record has n attempts and is due 5·(2^n-1) seconds after the first post and not before, until the sixth makes it Failed |
| `LedgerRestore.ExhaustionLocksTheLedger` | apps/daemon/src/delivery.rs:440-496 | in that run the persisted ledger is restored after up to five failures and refused as a whole after the sixth |
| `LedgerRestore.UnconditionalRetryRestores` | apps/daemon/src/http_server.rs:1526-1534 | after the unconditional retry the ledger can be restored exactly when the record was past scheduling, or has a retry left and still carries its wire |
| `DeliveryLedgers.DeliveryLedger.RegisterOutbound` | apps/daemon/src/delivery.rs:115-167 | registering refines the specified operation; an empty or known digest is refused; keeps the retry invariant of every record |
| `DeliveryLedgers.DeliveryLedger.RegisterRecipientReceived` | apps/daemon/src/delivery.rs:242-268 | inserts a received record once; a known digest is left alone; keeps the retry invariant of every record |
| `DeliveryLedgers.DeliveryLedger.DiscardIfState` | apps/daemon/src/delivery.rs:169-180 | removes the record only in the expected state; keeps the retry invariant of every record |
| `DeliveryLedgers.DeliveryLedger.TransitionTo` | apps/daemon/src/delivery.rs:182-193 | only the allowed transitions happen, and they clear the retry time; keeps the retry invariant of every record |
| `DeliveryLedgers.DeliveryLedger.AcknowledgeRecipientOf` | apps/daemon/src/delivery.rs:195-211 | refines the specified step; keeps the retry invariant of every record |
| `DeliveryLedgers.DeliveryLedger.BindRelayIdOf` | apps/daemon/src/delivery.rs:213-224 | sets the relay id of a known record only; keeps the retry invariant of every record |
| `DeliveryLedgers.DeliveryLedger.MarkDecryptedOf` | apps/daemon/src/delivery.rs:270-283 | only a received record becomes Decrypted; repeating is harmless; keeps the retry invariant of every record |
| `DeliveryLedgers.DeliveryLedger.CancelDelivery` | apps/daemon/src/delivery.rs:285-304 | cancels only before the relay accepted; keeps the retry invariant of every record |
| `DeliveryLedgers.DeliveryLedger.ExpireDueRecords` | apps/daemon/src/delivery.rs:306-324 | the loop expires exactly the due records and counts them; keeps the retry invariant of every record |
| `DeliveryLedgers.DeliveryLedger.ScheduleRetryOf` | apps/daemon/src/delivery.rs:326-352 | refines the specified scheduling step; keeps the retry invariant of every record |
| `DeliveryLedgers.DeliveryLedger.ScheduleRetryIfCurrentOf` | apps/daemon/src/delivery.rs:354-367 | schedules only in the expected state; keeps the retry invariant of every record |
| `DeliveryLedgers.DeliveryLedger.MarkFailedOf` | apps/daemon/src/delivery.rs:369-382 | refines the specified failure step; keeps the retry invariant of every record |
| `DeliveryLedgers.DeliveryLedger.MarkFailedIfCurrentOf` | apps/daemon/src/delivery.rs:384-396 | fails only in the expected state; keeps the retry invariant of every record |
| `DeliveryLedgers.DeliveryLedger.AcceptRetryOf` | apps/daemon/src/delivery.rs:421-438 | accepts in the expected state or from Cancelled; keeps the retry invariant of every record |
| `DeliveryLedgers.DeliveryLedger.Persist` | apps/daemon/src/delivery.rs:440-443 | one put of the encoded ledger |
| `DeliveryLedgers.DeliveryLedger.RestoreFrom` | apps/daemon/src/delivery.rs:449-464 | the stored ledger if valid, otherwise an error and no change |
| `DeliveryLedgers.PersistThenReopen` | apps/daemon/src/delivery.rs:440-464 | a ledger written successfully is the one the reopened files restore, unless a record has exhausted its retries, then they give an error; one over 4 MiB is refused and changes nothing |
| `DetachedDelivery.LateResultIsHarmless` | apps/daemon/src/http_server.rs:1689-1782 | a late reply to a post or retry never changes an accepted, received, decrypted or failed record, and moves a cancelled one only on acceptance; a late attachment failure changes a settled record exactly when it is RelayAccepted |
| `DetachedDelivery.ReplyMeans` | apps/daemon/src/http_server.rs:1689-1782 | a reply to a record still as its request found it: accepted under the given id; a retried failure keeps wire and destination, counts one attempt and is due 5·2^attempts seconds later, the sixth ends Failed; a final failure drops both; and when the ledger is written |
| `DetachedDelivery.SendStarts` | apps/daemon/src/http_server.rs:1478-1518 | a post or attachment is under way exactly for a new digest whose ledger was written; otherwise a post leaves memory as it was and an attachment falls back to the store's ledger |
| `DetachedDelivery.RetryStarts` | apps/daemon/src/http_server.rs:1818-1892 | a retry starts exactly for a record that is queued, or retryable once its time has come, with its wire, and for the tick a destination |
| `DetachedDelivery.FailedPostsRun` | apps/daemon/src/http_server.rs:2308-2401 | a message whose posts all fail, retried by user or tick: after n failures it may be posted again from 5·(2^n-1) seconds after the first and not before; after the sixth never, and no restart accepts the ledger |
| `DetachedDelivery.StepProgress` | apps/daemon/src/http_server.rs:1526-1556 | while memory, store and disk hold the same ledger, one event takes a delivery backwards exactly when it is a late attachment failure on an accepted message with retries left; otherwise also when it replaces memory by a ledger that is behind |
| `DetachedDelivery.StepInStep` | apps/daemon/src/http_server.rs:1660-1709 | an event keeps memory, store and disk on the same ledger exactly when its write works, has nothing new to write, or fails before landing and the new record is taken back |
| `DetachedDelivery.RunProgress` | apps/daemon/src/http_server.rs:2308-2401 | in every interleaving of posts, retries, ticks, attachments, cancels, expiries, receipts, reloads and restarts whose ledger writes hold, a delivery is never lost and never moves backwards exactly when no late attachment failure strikes it; with writes that do not hold, exactly when no regressing event does |
| `DetachedDelivery.AcceptedOnce` | apps/daemon/src/http_server.rs:1893-1969 | acceptances beyond the first are paid for by regressions; when writes hold and no attachment post fails late, at most one acceptance of a message is ever applied, and none to a message already through |
| `DetachedDelivery.AcceptanceNeedsWrite` | apps/daemon/src/http_server.rs:1700-1709 | an acceptance is taken back by a reload, and by a restart after the next commit, exactly when its write was reported as failed |
| `DetachedDelivery.CancelSticks` | apps/daemon/src/delivery.rs:421-438 | without regressions or reloads a cancelled message stays cancelled if and only if no acceptance was applied |
| `DetachedDelivery.FailureMakesDue` | apps/daemon/src/http_server.rs:1526-1534 | after a late attachment failure an accepted message with wire and destination is due for posting again |
| `DetachedDelivery.AcceptedTwice` | apps/daemon/src/http_server.rs:1523-1534 | for every message still in date: from the empty ledger the tick is accepted, the attachment post then fails, and five seconds later the message is accepted a second time |
| `DetachedDelivery.RestartRefused` | apps/daemon/src/http_server.rs:1523-1534 | for every such message, the same run with a cancel in between ends in a written ledger that restore refuses |
| `DetachedDelivery.LostAcceptanceRepeats` | apps/daemon/src/http_server.rs:1700-1709 | for every such message restore accepts: an acceptance whose write failed is forgotten by a restart, and the message is accepted a second time |
| `DetachedDelivery.OutboundRequests.StartPost` | apps/daemon/src/http_server.rs:1660-1688 | the locked first half: register, write or discard, remember the snapshot |
| `DetachedDelivery.OutboundRequests.StartAttachment` | apps/daemon/src/http_server.rs:1478-1518 | the first half of the attachment route: register, queue, write, or put the store's ledger back |
| `DetachedDelivery.OutboundRequests.StartRetry` | apps/daemon/src/http_server.rs:1818-1892 | the snapshot of a record that may be retried, its wire readable, or nothing |
| `DetachedDelivery.OutboundRequests.FinishRequest` | apps/daemon/src/http_server.rs:1689-1782 | the reply applied under the lock and written, except an acceptance that does not apply |
| `DetachedDelivery.OutboundRequests.ApplyReply` | apps/daemon/src/http_server.rs:1893-1969 | the ledger calls of each route for each reply |
| `DetachedDelivery.OutboundRequests.RestartDaemon` | apps/daemon/src/http_server.rs:53-54 | a new process has the ledger on disk and no requests, or does not start |
| `Envelopes.CreatedShape` | apps/daemon/src/delivery.rs:534-563 | an envelope is made exactly for a valid mailbox, 1 to 98304 bytes and an expiry within seven days, for that mailbox, ciphertext, padding and id; ciphertext plus padding is a multiple of 256 up to 98304, and the expiry is rounded up to its five-minute bucket |
| `Envelopes.WireFitsLedger` | apps/daemon/src/delivery.rs:565-580 | every well-formed envelope has a wire text within the ledger's 256 KiB limit |
| `Envelopes.RenderInjective` | apps/daemon/src/delivery.rs:565-580 | the wire text determines the envelope |
| `Envelopes.WireRoundTrip` | apps/daemon/src/delivery.rs:565-618 | reading a written envelope returns it exactly when in date, and the specified error otherwise |
| `Envelopes.FromWireWellFormed` | apps/daemon/src/delivery.rs:582-618 | whatever the reader accepts is well formed and in date |
| `Envelopes.CreationTimeReading` | apps/daemon/src/delivery.rs:534-618 | an envelope reads back at its creation time exactly when the rounded expiry is within seven days; 604501 seconds ahead is always enough |
| `Envelopes.CreationTimeLimitIsTight` | apps/daemon/src/delivery.rs:534-618 | 604502 seconds ahead can be accepted by create and refused by the reader |
| `Sessions.MlsSessionCatalog.ReceiveDeliveryUnpersisted` | apps/daemon/src/mls_session.rs:391-404 | a usable session advances in memory, anything else changes nothing |
| `Sessions.MlsSessionCatalog.CheckpointBytes` | apps/daemon/src/mls_session.rs:421-430 | a checkpoint is of a usable session, within 4 MiB, and loads back to that session's group |
| `Sessions.MlsSessionCatalog.Poison` | apps/daemon/src/mls_session.rs:432-436 | marks only that session unusable |
| `Inbox.MarkedLedger` | apps/daemon/src/delivery.rs:242-283 | registering then marking succeeds exactly for an unknown or received digest, turns only it Decrypted and keeps the ledger restorable |
| `Inbox.BatchEffect` | apps/daemon/src/delivery_routes.rs:224-343 | the delivery batch is within the store's limits, changes this checkpoint and the ledger, stores the message's own records, and touches nothing else |
| `Inbox.DeliverStep` | apps/daemon/src/delivery_routes.rs:210-361 | one delivery, whatever its commit does: it commits (checkpoint advanced by one receive, ledger marked, the message's records stored, nothing else touched, sessions in step) or leaves records and ledger untouched, poisoning the session of a failed commit; every disk on the way holds the state before or after it or reports rollback inside the window; sessions stay poisoned or in step exactly when it did not stop where poisoning is forgotten |
| `Inbox.SyncFold` | apps/daemon/src/delivery_routes.rs:183-366 | every run, whatever its commits do, deals with a prefix of the items and acknowledges exactly that; checkpoint and ledger are the fold of MLS receive over, and the marks of, exactly the new deliveries in order; every disk it leaves behind opens to records that say this of some number of items, the final one of no fewer than were acknowledged and at most one more, unless the last commit falls in the rollback window |
| `Inbox.SyncGetsThrough` | apps/daemon/src/delivery_routes.rs:183-366 | a run gets through exactly when each item, at its turn, is handled already or can be committed |
| `Inbox.SyncStores` | apps/daemon/src/delivery_routes.rs:224-345 | beside checkpoint and ledger a run stores exactly the records of the messages it commits, in order, and touches nothing else |
| `Inbox.SyncCall` | apps/daemon/src/delivery_routes.rs:138-366 | a malformed item anywhere leaves everything untouched; the call succeeds exactly when every item validates and is handled or can be committed at its turn, and then acknowledges every id, duplicates included, with memory and files agreeing |
| `Inbox.AcceptedItem` | apps/daemon/src/delivery_routes.rs:153-190 | an accepted item is the hash-named text of a well-formed, in-date envelope for this mailbox, and is delivered under that envelope's own digest |
| `Inbox.SentItemArrives` | apps/daemon/src/delivery_routes.rs:153-190 | what a sender posts is accepted exactly while in date, under the digest the sender registered |
| `Inbox.CreatedArrives` | apps/daemon/src/delivery.rs:534-563 | from sender to recipient: what is created for a mailbox, once posted, is accepted at that mailbox exactly while in date and carries the ciphertext it was created with |
| `Inbox.FreshIsSound` | apps/daemon/src/delivery.rs:449-452 | a fresh store, an empty ledger and no sessions agree, so the inbox theorems have a starting point |
| `Inbox.ValidatedItems` | apps/daemon/src/delivery_routes.rs:152-181 | the batch is accepted exactly when every item validates, item by item |
| `Inbox.ValidateLater` | apps/daemon/src/delivery_routes.rs:152-181 | validation depends on the time only through the expiry |
| `Inbox.HandledIsIdle` | apps/daemon/src/delivery_routes.rs:185-209 | items whose digests are handled change nothing, are all acknowledged, and do not depend on MLS |
| `Inbox.RerunIsIdle` | apps/daemon/src/delivery_routes.rs:185-209 | after any call, finished or stopped, any selection of the items it had dealt with, with repeats, while in date, is processed again to no effect |
| `InboxProcessing.ValidateItem` | apps/daemon/src/delivery_routes.rs:153-180 | what it accepts is the hash-named text of a well-formed, in-date envelope for this mailbox, delivered under that envelope's own digest |
| `InboxProcessing.MarkDelivered` | apps/daemon/src/delivery_routes.rs:327-335 | marks the digest, or leaves the ledger as it was |
| `InboxProcessing.DeliverTo` | apps/daemon/src/delivery_routes.rs:210-361 | the receive, checkpoint, stage, mark, commit sequence on the live objects has the specified effect and leaves the specified disks, every failure branch included |
| `InboxProcessing.ProcessSyncItems` | apps/daemon/src/delivery_routes.rs:138-366 | the two loops over catalog, store and ledger refine the specified call, disks included |
| `InboxRecovery.RestartIsSound` | apps/daemon/src/mls_session.rs:224-255 | a restart works exactly when the store opens, its ledger is restored and every checkpoint loads; it brings memory and files into agreement, with a usable session for every stored checkpoint and no other |
| `InboxRecovery.RecordedRestarts` | apps/daemon/src/mls_session.rs:872-921 | any records a cut-short run left can be restarted from, with the ledger of the items dealt with |
| `InboxRecovery.CutShortThenAgain` | apps/daemon/src/delivery_routes.rs:138-366 | exactly once: restart from any disk a run passes through, process the same items again, and when that gets through the checkpoint is the fold over exactly the deliveries that were new at the outset; only a disk in the rollback window of the last commit does not restart |
| `InboxRecovery.RecordedChain` | apps/daemon/src/delivery_routes.rs:185-361 | dealing with the first n items and then, from there, with the first k is dealing with the first k, so the same holds over any number of restarts |
| `InboxLimits.OversizedLedgerLeaks` | apps/daemon/src/delivery_routes.rs:327-361 | a delivery whose marked ledger is over the value limit stops with files and ledger as before but the new checkpoint in the store's memory; the next put that succeeds makes it durable beside a ledger without the message |
| `InboxLimits.CommittedLedgerRestores` | apps/daemon/src/delivery.rs:449-464 | the ledger a delivery has committed is restored exactly when it has at most 4096 records |
| `Establishing.EstablishKeepsAgreement` | apps/daemon/src/mls_session.rs:163-179 | creating a conversation keeps memory and files in agreement; success leaves a live session whose group is durable, failure leaves everything as it was |
| `Establishing.EstablishesExactly` | apps/daemon/src/mls_session.rs:163-179 | exactly when a conversation is created, told before the call: a valid new id, a snapshot that fits, and a put that goes through |
| `Establishing.CreateSession` | apps/daemon/src/mls_session.rs:163-179 | the same on catalog and store |
| `Establishing.PersistKeepsAgreement` | apps/daemon/src/delivery.rs:440-443 | any restorable ledger, once written, is the one memory and files agree on |
| `Inbox.CommitsExactly` | apps/daemon/src/delivery_routes.rs:210-361 | exactly when a delivery is committed, told before the call |
| `Establishing.ReceivingHappens` | apps/daemon/src/delivery_routes.rs:210-361 | from a fresh store, one new conversation and one message: it is committed |
| `Maintenance.TryStep` | apps/daemon/src/maintenance.rs:155-252 | offering an item to every conversation is one delivery to at most one of them, with the same disks |
| `Maintenance.TriedAtFirst` | apps/daemon/src/maintenance.rs:155-161 | an item is delivered to the first conversation whose session can receive it and to no other; without one nothing happens |
| `Maintenance.ItemFate` | apps/daemon/src/maintenance.rs:137-252 | the pass stops at an item exactly when it is malformed or its first receiver cannot commit it; otherwise an item already Decrypted is acknowledged, one nobody receives changes nothing, and any other is committed to its first receiver; acknowledged exactly when Decrypted after its turn |
| `Maintenance.SweepGetsThrough` | apps/daemon/src/maintenance.rs:137-252 | a pass gets through exactly when no item stops it, and then acknowledges exactly the digests of its items that are Decrypted afterwards |
| `Maintenance.LeftAhead` | apps/daemon/src/maintenance.rs:156-236 | a session is left ahead of its checkpoint and unpoisoned exactly when MLS receives the message and the checkpoint, the staging or the ledger then refuses |
| `Establishing.FallingBehindHappens` | apps/daemon/src/maintenance.rs:156-229 | from a fresh store: a message whose digest is queued as an own one leaves the session ahead and unpoisoned, the next message is committed, and the durable group is then not the fold over what the ledger newly marks |
| `Establishing.AheadThenCommitted` | apps/daemon/src/maintenance.rs:156-249 | the next message committed to such a session makes a checkpoint durable that lies beyond the unrecorded one, so the fold no longer matches the ledger |
| `Maintenance.SweepFold` | apps/daemon/src/maintenance.rs:124-253 | in every pass, whatever its commits do, each checkpoint is the fold over what was committed to its conversation, the ledger newly marks exactly the committed digests, everything to be acknowledged is Decrypted, every disk recovers to a prefix of what was committed unless the last commit falls in the window, and sessions are poisoned or in step unless the pass stopped at an unpoisoned site |
| `Maintenance.MaintainCall` | apps/daemon/src/maintenance.rs:124-258 | the same after the closing ledger write, however it ends; a result is reported exactly when no item stops the pass and that write goes through, and it is durable and that of the pass |
| `InboxProcessing.OfferToAll` | apps/daemon/src/maintenance.rs:155-249 | the conversation loop stops at the first conversation that receives or fails |
| `InboxProcessing.ProcessInboxItems` | apps/daemon/src/maintenance.rs:124-258 | the pass over the live objects refines the specified one, disks included |
| `Attachments.OffsetClosedForm` | apps/daemon/src/http_server.rs:1289-1330 | the prefix-sum offset of chunk i is i·65552 |
| `Attachments.SegmentsTile` | apps/daemon/src/http_server.rs:1289-1330 | the chunk ranges tile the blob exactly, in order |
| `Attachments.RandomAccessAgrees` | apps/daemon/src/attachment.rs:361-396 | decrypting every range by itself succeeds exactly when whole-blob decryption does, with the same bytes in order |
| `Attachments.PackageIsValid` | apps/daemon/src/attachment.rs:288-321 | a package validates, has ceil(total/65536) chunks and a blob of total plus 16 bytes a chunk |
| `Attachments.ValidExactly` | apps/daemon/src/attachment.rs:398-433 | a descriptor is valid exactly when its size decides the size of every chunk and their number, except that one empty chunk may follow full ones |
| `Attachments.NamesAreTame` | apps/daemon/src/attachment.rs:470-490 | a valid descriptor names no path, no control byte and no header break |
| `Attachments.ChunkDecryptsExactly` | apps/daemon/src/attachment.rs:361-396 | a range decrypts as a chunk exactly when it has that chunk's length and opens in its place |
| `Attachments.ChunkKeepsItsPlace` | apps/daemon/src/attachment.rs:439-444 | where a ciphertext opens only under its own associated data, a chunk opens at its own index of an attachment of its own size and nowhere else |
| `Attachments.PackageDecrypts` | apps/daemon/src/attachment.rs:323-359 | decrypting a package returns the concatenation of its pieces |
| `Attachments.PiecesChunked` | apps/daemon/src/attachment.rs:193-233 | cutting a plaintext into 64 KiB pieces tiles it with only the last piece short |
| `Attachments.UploadLimit` | apps/daemon/src/relay_http.rs:611-624 | the upload ranges of a sealed blob tile it, and all pass the relay client's check exactly when the plaintext is at most 33,546,240 bytes |
| `AttachmentJobs.ValidateDescriptor` | apps/daemon/src/attachment.rs:398-433 | the validation loop returns the specified verdict |
| `AttachmentJobs.EncryptForBlob` | apps/daemon/src/attachment.rs:288-321 | whole-file encryption yields the package of the plaintext's pieces, or the specified refusal |
| `AttachmentJobs.Decrypt` | apps/daemon/src/attachment.rs:235-282 | the chunk loop returns the specified plaintext or error |
| `AttachmentJobs.DecryptsExactly` | apps/daemon/src/attachment.rs:235-282 | a manifest decrypts to exactly the pieces its chunks open to, in place, full but for the last and as long as announced; any other is refused |
| `AttachmentJobs.EncryptThenDecrypt` | apps/daemon/src/attachment.rs:193-282 | what is encrypted decrypts under the same key to the same bytes |
| `AttachmentJobs.SplitBlob` | apps/daemon/src/attachment.rs:323-349 | the offset loop cuts the blob at the declared sizes and rejects a short or long blob |
| `AttachmentJobs.DecryptBlob` | apps/daemon/src/attachment.rs:323-359 | whole-blob decryption is the statement about all chunks at once |
| `AttachmentJobs.ManifestOfBlob` | apps/daemon/src/attachment.rs:235-282 | decrypting through the manifest agrees with the statement about all chunks |
| `AttachmentJobs.ChunkingIsUnique` | apps/daemon/src/attachment.rs:120-152 | a plaintext can be appended in full chunks in only one way |
| `AttachmentJobs.AttachmentJob.Start` | apps/daemon/src/attachment.rs:90-118 | a job starts exactly for a valid id, size and metadata, holding just these, with the specified refusals |
| `AttachmentJobs.AttachmentJob.Append` | apps/daemon/src/attachment.rs:120-152 | a chunk is accepted exactly when it is next, non-empty, fits, and is full unless last; a refusal changes nothing |
| `AttachmentJobs.AttachmentJob.Finish` | apps/daemon/src/attachment.rs:154-172 | a finished job is exactly the package of whole-file encryption, validates, and decrypts to everything appended |
| `AttachmentJobs.UploadBlob` | apps/daemon/src/http_server.rs:1403-1418 | the ranges that got through are the first ones in order; all do exactly when client and relay accept every one |
| `KeyPackages.PerformIsAtomic` | apps/daemon/src/mls_storage.rs:249-482 | from a settled store success makes exactly the planned records durable; an error changes nothing exactly when the batch does not leak |
| `KeyPackages.PerformEffect` | apps/daemon/src/mls_storage.rs:249-482 | what an operation does to memory in every state of the store and for every commit outcome, the leak of an oversized replenishing batch included |
| `KeyPackages.PerformSucceeds` | apps/daemon/src/mls_storage.rs:249-459 | exactly when register, reserve, consume and replenish succeed, told before the call: which packages may be added, reserved and consumed, room, and a commit whose steps work out |
| `KeyPackages.CountedIsReservable` | apps/daemon/src/mls_storage.rs:343-459 | a package is counted as available exactly when a reserve would not refuse it as unavailable; when a consume is refused, and as what |
| `KeyPackages.RegisterRefusals` | apps/daemon/src/mls_storage.rs:249-318 | registering is refused for its lifetime, or as known, exactly for that reason |
| `KeyPackages.PackageMovesForward` | apps/daemon/src/mls_storage.rs:249-459 | in every state and for every commit outcome, each package moves one step forward or not at all; reserve and consume touch only the package they name; registering stores the new package and its lifetime; an expired package cannot be reserved; consume needs the recorded reservation |
| `KeyPackages.ConsumedOnce` | apps/daemon/src/mls_storage.rs:420-459 | in every run, restarts and failed or half-done commits included, at most one consume of a package succeeds, and the package is then Consumed in memory and in the store file for good |
| `KeyPackages.ConsumesReserved` | apps/daemon/src/mls_storage.rs:420-459 | a consume names the reservation memory holds: without a restart that of the last reserve that returned Ok, after one that of the last reserve whose store file was in place |
| `KeyPackages.UnreportedReservation` | apps/daemon/src/storage.rs:765-792 | a reserve whose store file lands and is reported as failed returns an error, and after a restart its reservation consumes the package |
| `KeyPackages.LeakHappens` | apps/daemon/src/mls_storage.rs:358-408 | any good new package followed by one over the value limit leaks when two are needed |
| `KeyPackages.ReplenishReachesMinimum` | apps/daemon/src/mls_storage.rs:343-408 | success raises the available count by the distinct digests taken, reaching max(previous, minimum) exactly when they are distinct; an error leaves the count unless the batch leaks |
| `KeyPackages.DuplicateFallsShort` | apps/daemon/src/mls_storage.rs:358-408 | two copies of one package are accepted and leave one available |
| `ProposalQueue.KeysApart` | apps/daemon/src/mls_storage.rs:575-577 | slash-free groups and distinct items never share a key |
| `ProposalQueue.QueueRefinesOrderedMap` | apps/daemon/src/mls_storage.rs:500-567 | queue, remove and clear act on the stored records as on an insertion-ordered map: refs distinct, a body exactly for each ref, a known ref a no-op, success durable, errors without effect |
| `ProposalQueue.QueueSucceeds` | apps/daemon/src/mls_storage.rs:500-567 | exactly when queue, remove and clear succeed, told before the call; queueing a listed reference always does and writes nothing |
| `ProposalQueue.QueueExact` | apps/daemon/src/mls_storage.rs:500-567 | for every slash-free group, operation and commit outcome a queue in order stays in order exactly when the operation does not queue a new reference whose list can be stored and whose body cannot; then success gives the intended queue and an error the old one |
| `ProposalQueue.QueueRun` | apps/daemon/src/mls_storage.rs:500-567 | in every run without such an operation, over every slash-free group and whatever its commits do, each group's queue is the fold of the operations on it that returned Ok |
| `ProposalQueue.OversizedBodyBreaks` | apps/daemon/src/mls_storage.rs:500-524 | a new reference with a body over the value limit is such an operation |
| `ProposalQueue.LongGroupBreaks` | apps/daemon/src/mls_storage.rs:500-524 | so is any new reference at all in a group of 176 to 235 bytes, however small its body |
| `ProposalQueue.GroupOkExact` | apps/daemon/src/storage.rs:573-581 | the groups covered are exactly the slash-free ones whose longest key is valid |
| `ProposalQueue.GroupsAreIndependent` | apps/daemon/src/mls_storage.rs:500-577 | no operation on one group, however it ends, changes another group's queue |
| `MlsStateStores.MlsStateStore.RegisterKeyPackage` | apps/daemon/src/mls_storage.rs:249-318 | registration refines the specified operation |
| `MlsStateStores.MlsStateStore.ReserveKeyPackage` | apps/daemon/src/mls_storage.rs:420-437 | reservation refines the specified operation and returns the digest of the reservation |
| `MlsStateStores.MlsStateStore.ConsumeKeyPackage` | apps/daemon/src/mls_storage.rs:442-459 | consumption refines the specified operation |
| `MlsStateStores.MlsStateStore.AvailableCount` | apps/daemon/src/mls_storage.rs:343-353 | counts exactly the stored, available, unexpired packages |
| `MlsStateStores.MlsStateStore.Collect` | apps/daemon/src/mls_storage.rs:370-405 | the loop collects the first needed packages or reports the first problem |
| `MlsStateStores.MlsStateStore.ReplenishKeyPackages` | apps/daemon/src/mls_storage.rs:358-408 | replenishing refines the specified operation and returns how many were needed |
| `MlsStateStores.MlsStateStore.QueueProposal` | apps/daemon/src/mls_storage.rs:500-524 | refines the specified queue operation |
| `MlsStateStores.MlsStateStore.RemoveProposal` | apps/daemon/src/mls_storage.rs:537-553 | refines the specified queue operation |
| `MlsStateStores.MlsStateStore.ClearProposals` | apps/daemon/src/mls_storage.rs:555-567 | refines the specified queue operation |
| `FileSwap.Folder.SwapIn` | apps/daemon/src/cli_recovery.rs:204-237 | the new pair is installed exactly when none of the four renames is refused; after a failure the old pair is live exactly when that stage's compensating renames went through; under any refusals the old pair is kept or the new one is live |
| `FileSwap.Folder.StageCopy` | apps/daemon/src/storage.rs:329-344 | the copy is made exactly when nothing of an earlier one stays in the way and every write works; it opens under the new key to the same records, and nothing else is touched |
| `FileSwap.Folder.Rotate` | apps/daemon/src/cli_recovery.rs:185-237 | rotation succeeds exactly when the copy is made and no rename is refused; on return the live pair is the old one or opens under the new key to exactly the old records, and no crash or refusal loses both |
| `FileSwap.Folder.CheckCandidate` | apps/daemon/src/cli.rs:808-846 | with nothing refused, accepts exactly an artifact that parses, opens and is authorized, says why otherwise, and leaves no scratch files; no live file moves |
| `FileSwap.Folder.MoveAside` | apps/daemon/src/cli.rs:861-875 | moves the files that exist, fails only at a refused rename, and puts the store back if the marker cannot follow |
| `FileSwap.Folder.WriteCandidate` | apps/daemon/src/cli.rs:876-891 | installs both files, or at a refused write brings the pair set aside back |
| `FileSwap.Folder.InstallCandidate` | apps/daemon/src/cli.rs:848-896 | with nothing refused, installs exactly when nothing was set aside before, and cleans up; otherwise all or nothing, except that an error with the new pair live means the last operation, removing the pending file, was the one that failed |
| `FileSwap.Folder.ApplyPendingRecovery` | apps/daemon/src/cli.rs:808-896 | with nothing refused, succeeds exactly when the pending artifact is a candidate and nothing was set aside before; the live pair afterwards is the old one or the artifact's own, opened and authorized; an error with the new pair installed means removing the pending file failed |
| `FileSwap.CheckingWritesNoMarker` | apps/daemon/src/cli.rs:815-831 | opening an accepted candidate for the check leaves its pair as it stands |

## Left out

- AES-GCM, Argon2, Ed25519, SHA-256 and OpenMLS internals: functions with laws, passed as parameters.
- Deriving the store key from a passphrase: the model opens with the key itself.
- serde JSON text: an encoding that reads back what it wrote; only the envelope's text layout is modelled, for its length.
- HTTP parsing, routing, TLS, WebSocket, the web interface, notifications, the keychain, process locks and argument handling.
- The invite authority (contacts, received attachments) behind inbox processing: the records it stages for a message are an input of each delivery, restricted to their three record classes.
- The optional ledger and authority of `SyncProcessContext`: every caller passes them, so the model always has them.
- Lock order between the store and the ledger.
- The passphrase output file and the keychain update of key rotation.
- The first import of a recovery artifact into an empty directory: the same steps as rotation, fewer of them.
- `wipe_files`.
- The pairing state machine, `mls_storage_provider.rs`, device registry, contacts, attestation and release verification: short transition tables.
- `acknowledge_relay_ids`, which only counts.
- `due_retries`: a tick takes up any due record; its order and limit per tick are not modelled.
- `records_with_prefix` paging: a settled store never holds more than one page.
- Envelopes.CreatedShape: assumes that rounding the requested expiry up stays within 64 bits.
- Inbox.SyncFold: assumes every ledger on the way fits one store record, and so do the records staged for a message; what a ledger that does not fit leads to is in `InboxLimits`.
- Sessions.MlsSessionCatalog.ReceiveDeliveryUnpersisted: a failed receive changes nothing here; in the code a message that is neither application data nor a commit is reported as unsupported after MLS has processed it (mls_session.rs:716-727).
- EncryptedStores.EncryptedStore.Lock: the code also erases the key; in the model a locked store only stops using it.
- DetachedDelivery.OutboundRequests.StartPost: the ledger write is an outcome, not a call on the store; `DeliveryLedgers.PersistThenReopen` says what a successful one means there.
- DetachedDelivery.OutboundRequests.FinishRequest: the same, and a relay binding invalidated after a 410 is not modelled.
- DetachedDelivery.OutboundRequests.StartAttachment: the same, and the session checkpoint written in the same batch and the poisoning of the session when it fails are left out.
- DetachedDelivery.OutboundRequests.RestartDaemon: only the ledger part of starting up; store and sessions are in `InboxRecovery.Restart`.
- InboxRecovery.RestartIsSound: restoring a session also compares its signature key with the device's, which is left out.
