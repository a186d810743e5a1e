# Turbk, verified

Turbk is a deduplicating backup server and its agent. The server keeps chunks in append-only segment
files, an index from digest to place, and manifests whose entries hold places themselves; it also expires,
cleans up and compacts. The agent cuts files into chunks, packs small files, caches what the server has
confirmed, and uploads in batches. This project models that logic in Dafny and proves what the two
sides promise.

- **Repository** (`Records`, `Segments`, `SegmentHistory`, `PutSpec`, `Repository`, `Manifests`, `Restoring`):
  the disk as segments, index, manifests and snapshots. Restoring an entry is its meaning.
- **Maintenance** (`Compaction`, `Lifecycle`, `LateSnapshots`): compaction may stop between any two writes and every
  active snapshot still restores what it restored before; over every run, snapshots never change; and what a
  snapshot loses that the compaction was not told of.
- **Manifest acceptance** (`Canonical`, `EndToEnd`): one right verdict for each posted manifest; accepted means
  restorable, and what an honest agent posts is accepted once its chunks are stored.
- **Generations and the agent's cache** (`Generations`, `Protocol`, `ProtocolRuns`, `PowerLoss`, `Catalogs`, `CatalogCodec`, `Reusing`, `Repair`):
  a transition system with a history that is never pruned, both catalog backends, and the loops around them.
- **Batchers** (`Batching`, `PipelineBatcher`, `SerialBatcher`, `Upload`): batches, waiters, a byte window and
  results in any order refine upload one by one.
- **Server writes** (`WriteQueue`, `Admission`): exactly one result for each accepted request.
- **Codecs and algorithms** (`Chunking`, `Pack`, `Endian`, `Retention`), and the scanner that puts the agent's side
  together (`Walked`, `Scan`, `ChangedFiles`): an error-free scan's files restore to the data they had, once its
  manifest is accepted, and when that is.

Objects that the program updates in place are classes here, loops are loops, and both are proved against
functions and predicates whose properties are lemmas. Where a class writes to the disk, a ghost list of
views notes the disk after each write; results about stopping anywhere speak about every view in it.

## What is assumed

- Digest, compression and encryption are function values: decryption undoes encryption, decompression
  undoes compression, a digest is 32 bytes long. That a digest tells data apart is assumed of stored data
  and of the chunks at hand only (`NoCollision`, `Fresh`, `Injective`), never of all byte strings. Clock and
  nonces are functions of how many records were written.
- Digests are their 32 bytes rather than hex text, so there is no upper case and no surrounding space.
- In `Compaction` and `Lifecycle` compaction and cleanup are given exactly the active snapshots, and compaction
  counts the active runs. What a list that is out of date costs is in `LateSnapshots`.
- In `Protocol` a statement on the database is one step, and so is a transaction; the reads that make up one answer,
  and each write of the agent's catalog, are steps of their own. A sync of the catalog does not overlap a run (the
  daemon does one after the other), and a repository's generation does not go back.
- There is one server identity.

## Where the code does not do what one would expect

- `ProtocolRuns.StampingRuleExactly`: when several answers are put together
  (cmd/turbk-agent/chunk_batch.go:483 and 722) each digest is confirmed at the newest of their generations,
  which may be newer than its own answer. A rule for stamps keeps the cache's promise in every run if and only if it
  never does that; `ProtocolRuns.CombinedStampBreaksTheCache` has the run for every two generations. The next
  complete answer repairs it (`Protocol.ApplyRestoresCache`).
- `Generations.HalfPrunedExactly`: PruneChunkInvalidations runs its SELECT, DELETE and UPDATE one by one, without
  a transaction (internal/state/agent_daemon.go:313-343), and a catch-up reads the server's state and the rows
  separately (internal/state/agent_daemon.go:345-400). A catch-up in between is answered as complete, and misses
  deletions if and only if the prune took rows newer than what was asked from. `ProtocolRuns` has the runs
  in which a digest then stays confirmed for good: `AskedBetweenDeleteAndRaise`, `PrunedBetweenReads` (so a
  transaction around the prune alone would not do) and `JournaledUnderOldTime`. `Protocol.Orderly` is what keeps
  them out, and `Protocol.EveryRunKeepsTheCache` holds of every run that is orderly.
- `ProtocolRuns.RecordedAfterARun`: an agent starts a run even though its first sync failed
  (cmd/turbk-agent/daemon.go), and the first sync that works then starts from the newest generation, skipping the
  deletions since that run.
- `PowerLoss.DurableExactly`: the chunk catalog is committed without a sync (cmd/turbk-agent/catalog.go:739 and 811),
  the server's row, in SQLite, with one. A power loss can take back what an answer changed after the answer was
  recorded, and the agent never asks for it again; `PowerLoss.RecordedButLost` is such a run. If the catalog is
  made durable before each new row, the promise is kept over every power loss, also one that takes back an
  answer not recorded yet.
- `LateSnapshots.AcceptBeforeCounting`: compaction lists the snapshots (internal/httpapi/maintenance.go:145) before it
  counts the active runs (internal/httpapi/maintenance.go:345), and posting a manifest, which also ends its run
  (internal/httpapi/server.go:1895-2040), does not take the gate. A snapshot accepted in between is lost if and only if
  it has a packed file or a file with a chunk; `LateSnapshots.AcceptedAndLost` is such a run.
- `Scan.ScannedIsAcceptedExactly`: a small file that changes while it is read is read again
  (cmd/turbk-agent/scan.go:779-797), but its entry keeps the size of the first look (cmd/turbk-agent/scan.go:389-420 and
  606-617). If the size is another by then (`Walked.ReadAgainExactly`), the server refuses the whole manifest
  (internal/httpapi/server.go:2457), and the backup fails though the scan did not; `ChangedFiles.RereadAndRefused` is such a
  scan. A small file that is empty by then ends the scan. Larger files take their size from the last reading.
- `Pipeline.UncountedAdd`: looking whether an entry is pending applies results and drops their statistics, so
  uploaded plus reused is less than the number of adds if and only if some look found a result ready
  (`Serial.RunPipeline`).
- `Retention.LargerPolicyKeepsMoreExactly`: zero last snapshots means thirty, so a policy with larger numbers may keep
  fewer (`Retention.ZeroKeepsMoreThanOne`); the condition is exact.
- `Reusing.ApartExactly`: a file that repeats a chunk so far apart that it is asked for in two requests makes the
  combined answer look invalid, and is read again every time; `Reusing.RepeatedChunkIsRefused` is such a file.
- `Chunking.DoublingEndsExactly`: past 2^62, and only there, the shifted number overflows and the loop does not end.
- `Canonical.AcceptedIsRestorable`: the sizes of a file's chunks are added up in an int64, so the size that is
  checked is the restored length modulo 2^64.
- A refused admission leaves an entry of zeros for an agent that had none (`Admission.AgentUploadAdmission.Acquire`);
  a failed Add leaves a slot without a waiter, which is why the scan ends there (`Pipeline.PipelineBatcher.AddNew`).

## Model

| member | source | states |
|---|---|---|
| Records.RecordRoundTrip | internal/repository/segment.go:144-275 | the reader gets back exactly the data a record was written for, whatever nonce was drawn |
| Segments.SegmentWriter.WriteChunks | internal/repository/segment.go:96-142 | the loop of encode, rotate when the file would grow past its limit, append writes what writing the chunks one by one writes, and returns a ref for each |
| SegmentHistory.EveryRunTiles | internal/repository/segment.go:96-200 | after any run of writes and rotations the records tile every file with no gap or overlap, and a file is within the size limit or holds a single record |
| SegmentHistory.EveryRefReadsBack | internal/repository/segment.go:96-275 | after any run, every ref ever returned reads back the data of its write for as long as its file exists |
| SegmentHistory.LogMatchesWrites | internal/repository/segment.go:96-142 | the refs of a write carry its own chunks' digests and sizes and point at or past the file that was open |
| Repositories.Repository.PutChunks | internal/repository/repository.go:142-207 | same store, index, refs and existed flags as putting the chunks one after the other, repeats included |
| PutSpec.PutEachSplits | internal/repository/repository.go:131-207 | putting two lists one after the other is putting their concatenation: what sub-batching and coalescing rely on |
| PutSpec.PutEachOk | internal/repository/repository.go:142-207 | everything put is indexed under its digest and readable, nothing indexed before moves, no other digest appears |
| PutSpec.PutEachResults | internal/repository/repository.go:142-207 | each chunk gets the ref its digest is indexed under; it existed if and only if it was indexed before or came earlier in the list |
| PutSpec.PutEachReadsBack | internal/repository/repository.go:142-207 | each result reads back the chunk it was given for |
| Repositories.Repository.RewriteChunkRef | internal/repository/repository.go:223-246 | reads the old ref, appends a copy, and points the index at it, as two separate writes to the disk; on a failed read nothing changes |
| Repositories.Repository.DeleteUnreferenced | internal/repository/index.go:109-153 | one batch removes exactly the entries that are neither kept nor protected by the cutoff |
| Repositories.Repository.DeleteSegmentsExcept | internal/repository/repository.go:265-297 | removes every file that is neither kept nor the open one, one at a time, each removal a moment of its own |
| Repositories.Repository.DeleteManifestsExcept | internal/repository/manifest.go:166-202 | removes exactly the manifests that are neither kept nor within the grace period, one at a time |
| Repositories.Repository.WriteManifest | internal/repository/manifest.go:59-99 | an atomic replace of one manifest; an id that could leave the directory is refused |
| Compaction.ManifestChunkRefs | internal/httpapi/maintenance.go:602-617 | lists exactly the refs that keep chunks alive: those of plain files and of packs |
| Compaction.Gather | internal/httpapi/maintenance.go:354-375 | one ref for each digest an active manifest needs, and for no other digest |
| Compaction.RewriteAll | internal/httpapi/maintenance.go:377-398 | every needed digest gets a copy in front of the old files; a failure names a live ref that could not be read |
| Compaction.WriteMoved | internal/httpapi/maintenance.go:400-435 | every manifest that changes is replaced, one at a time, by one whose refs are the copies |
| Compaction.MovedMeaning | internal/httpapi/maintenance.go:400-435 | while both copies are there, a manifest pointed at the copies means what it meant |
| Compaction.TrimmedMeaning | internal/httpapi/maintenance.go:437-455 | once a manifest's live refs are copies, the files without a copy can go without changing what it means |
| Compaction.CompactRepository | internal/httpapi/maintenance.go:343-459 | stopped between any two writes, every active snapshot still restores to the bytes it had; when it finishes, the index holds exactly the live digests, live refs are where the index says, and exactly the files they need (and the open one) are left; it fails only on a live ref that was unreadable before |
| Manifests.RestoreSame | internal/httpapi/restore.go:365-392 | a manifest that means the same restores each entry to the same bytes |
| Restoring.ReadPackData | internal/repository/pack.go:207-220 | the loop reads the refs in order; the first failure ends it |
| Restoring.ReadPackedFile | internal/repository/pack.go:222-263 | every check and failure of a packed read, in order |
| Restoring.WriteFileEntry | internal/httpapi/restore.go:365-392 | what is written out is the meaning of the entry, and it fails if and only if the entry has none |
| Canonical.CanonicalizeManifestChunks | internal/httpapi/server.go:2334-2483 | the verdict on a posted manifest: the first thing wrong with it, everything that is missing, or the manifest with the index's refs |
| Canonical.VerdictIsOne | internal/httpapi/server.go:2334-2483 | no manifest has two right answers |
| Canonical.AcceptedIsRestorable | internal/httpapi/server.go:2334-2483 | every file and packed entry of an accepted manifest restores, to exactly Size bytes (the sum is an int64, so past 2^63 bytes modulo 2^64) |
| Canonical.AcceptedIsIssued | internal/httpapi/server.go:2334-2483 | every live ref of an accepted manifest is the index's own ref |
| Canonical.MissingIsExact | internal/httpapi/server.go:2334-2483 | the missing list names exactly the used digests the index lacks, each with everyone who uses it |
| Canonical.MissingMeansIncomplete | internal/httpapi/server.go:2334-2483 | the missing list is empty if and only if every used digest is indexed |
| Lifecycle.AcceptManifest | internal/httpapi/server.go:1895-2057 | a run that has a snapshot keeps it and nothing changes; otherwise an accepted manifest is stored as canonicalised and its snapshot becomes active, and a refused one changes nothing |
| Lifecycle.SnapshotLiveSets | internal/httpapi/maintenance.go:624-652 | exactly the manifests and the digests the active snapshots need |
| Lifecycle.CleanupErrorBackupData | internal/httpapi/maintenance.go:269-341 | removes exactly the unneeded manifests past their grace period and the dead index entries past the cutoff, active snapshots untouched at every write |
| Lifecycle.RunStorageMaintenance | internal/httpapi/maintenance.go:87-196 | retention, cleanup and compaction in order, as the mode asks; at every write every active snapshot restores what was promised |
| Lifecycle.StepIsSafe | internal/httpapi/maintenance.go:87-459 | one put, accepted manifest, expiry, cleanup or compaction, finished or cut anywhere, keeps every promise |
| Lifecycle.EveryRunIsSafe | internal/httpapi/maintenance.go:87-459 | over every run of those steps, at every moment, each active snapshot restores exactly what was accepted |
| Lifecycle.SnapshotsNeverChange | internal/httpapi/maintenance.go:87-459 | between any two moments of a run, a snapshot that stays active restores the same, in full |
| LateSnapshots.LateSnapshotAtEveryCut | internal/httpapi/maintenance.go:342-459 | wherever a compaction stops whose list lacks an active snapshot, the snapshot restores what it did if and only if every file it reads is left, and so until the first file is removed |
| LateSnapshots.LateSnapshotSurvivesExactly | internal/httpapi/maintenance.go:342-459 | once such a compaction has finished, the snapshot restores what it did if and only if it has no packed file and no file with a chunk |
| LateSnapshots.CompactListed | internal/httpapi/maintenance.go:343-459 | given any list of active snapshots: after each single write the listed ones restore the same, and each other one does if and only if the files it reads are left; when it finishes, only those without a chunk do |
| LateSnapshots.AcceptBeforeCounting | internal/httpapi/maintenance.go:145-351 | list the snapshots, accept a manifest, count no active run, compact: when it finishes, the accepted snapshot is lost unless nothing in it has a chunk |
| LateSnapshots.AcceptedAndLost | internal/httpapi/maintenance.go:145-459 | such a run from an empty repository: one chunk, one manifest with one file of it, and in the end an active snapshot whose file does not restore |
| Pack.EncodePack | internal/repository/pack.go:33-102 | the encoder's loops produce the layout the specification gives, with its errors in its order |
| Pack.DecodePackIndex | internal/repository/pack.go:104-185 | the decoder's loops compute the specified verdict on arbitrary bytes |
| Pack.PackLayout | internal/repository/pack.go:33-102 | ranges lie past the header, in bounds, disjoint and in order |
| Pack.PackRoundTrip | internal/repository/pack.go:33-185 | decoding recovers exactly the index the encoder returned |
| Pack.PackedBytesAreTheFiles | internal/repository/pack.go:33-193 | PackFileBytes gives each file its own bytes |
| Pack.AcceptedIndexIsSafe | internal/repository/pack.go:104-185 | whatever the bytes, every accepted range is in bounds and past the magic and count |
| Pack.PackFileBytesExactly | internal/repository/pack.go:187-193 | serves every range in the blob and nothing else, int64 overflow included |
| Chunking.NextPowerOfTwo | internal/repository/chunker.go:82-88 | the first power of two not below the value, or none when the loop never ends: for values above 2^62 and for no others |
| Chunking.DoublingEndsExactly | internal/repository/chunker.go:82-88 | doubling a 64-bit one ever reaches the value if and only if it is at most 2^62 |
| Chunking.NewChunker | internal/repository/chunker.go:17-40 | the sizes and mask for every average size, and the invariant the other results need; above 2^62 it never returns |
| Chunking.Split | internal/repository/chunker.go:42-74 | the chunks depend on the content alone, not on how Read cut it up; on a read error what was emitted is a prefix of them |
| Chunking.ChunksConcatenate | internal/repository/chunker.go:42-74 | the chunks concatenate to the input |
| Chunking.ChunkSizes | internal/repository/chunker.go:42-74 | every chunk is at most MaxSize, every chunk but the last at least MinSize |
| Chunking.EachChunkEndsAtItsFirstCut | internal/repository/chunker.go:42-74 | each chunk but the last ends exactly at its first cut |
| Chunking.RestartsExactlyAtCuts | internal/repository/chunker.go:42-74 | appending data leaves the chunks so far alone, and chunks the rest as if alone, if and only if the last chunk ended at a cut |
| Chunking.CutDependsOnLastBytes | internal/repository/chunker.go:42-74 | at or past MinSize the cut test depends only on the last k bytes, for the mask 2^k - 1 |
| Chunking.FingerprintWindow | internal/repository/chunker.go:42-74 | in 64-bit arithmetic the low k bits of the fingerprint depend only on the last k bytes |
| Generations.StateStore.BumpChunkGeneration | internal/state/agent_daemon.go:273-311 | the counter goes up by one and every non-empty digest is journaled under it |
| Generations.StateStore.SelectNewest | internal/state/agent_daemon.go:317-323 | the newest generation that is about to be lost, or zero |
| Generations.StateStore.DeleteBefore | internal/state/agent_daemon.go:324-333 | the second statement by itself: the rows before the cutoff are gone, availableFrom is still the old one |
| Generations.StateStore.RaiseAvailable | internal/state/agent_daemon.go:334-341 | the third statement by itself: availableFrom goes up to what the first one saw, never down |
| Generations.ThreeStatementsPrune | internal/state/agent_daemon.go:313-343 | with nothing in between, the three statements leave a pruned journal |
| Generations.StateStore.PruneChunkInvalidations | internal/state/agent_daemon.go:313-343 | the three in a row: the rows before the cutoff go and availableFrom rises to the highest generation lost; no cutoff, no change (what comes in between is `Protocol`) |
| Generations.StateStore.RepositoryState | internal/state/agent_daemon.go:346-349 | the first read of a catch-up |
| Generations.StateStore.CountSince | internal/state/agent_daemon.go:371-377 | the second read: how many rows there are by then |
| Generations.StateStore.ListSince | internal/state/agent_daemon.go:383-399 | the third read: the digests of the rows there are by then |
| Generations.StateStore.ChunkInvalidationsSince | internal/state/agent_daemon.go:345-400 | the three reads in a row: what may be answered; a complete answer names exactly what was deleted since, in the never-pruned history (what comes in between is `Protocol`) |
| Generations.CompleteAnswerHasAll | internal/state/agent_daemon.go:345-400 | a complete answer has every deletion since, pruned rows or not |
| Generations.BumpKeepsHistory | internal/state/agent_daemon.go:273-311 | journal and full history stay consistent |
| Generations.PruneKeepsHistory | internal/state/agent_daemon.go:313-343 | what pruning loses is at or below availableFrom |
| Generations.HalfPrunedExactly | internal/state/agent_daemon.go:313-343 | an answer taken between its DELETE and its UPDATE has every deletion since if and only if no row before the cutoff was newer than what the agent asked from |
| Generations.HalfPrunedJournalLies | internal/state/agent_daemon.go:313-343 | one such journal, which answers completely and misses a deletion |
| Protocol.StepKeepsInv | cmd/turbk-agent/backup.go:203-246 | every orderly step of server and agent (a prune is three steps, a catch-up two), in any state that satisfies the invariant, keeps it |
| Protocol.AskedInOneGo | internal/state/agent_daemon.go:345-400 | the two steps of a catch-up, with nothing in between, give what ChunkInvalidationsSince gives |
| Protocol.EveryRunKeepsTheCache | cmd/turbk-agent/backup.go:203-246 | in every orderly interleaving a confirmed digest is in the index, or awaits its bump, or was deleted above LastInvalidationGeneration; and above its own confirmation too when confirmations carry their own answer's generation |
| Protocol.AppliedAnswersAreComplete | cmd/turbk-agent/catalog.go:226-232 | in an orderly run, an applied complete answer contains every deletion since LastInvalidationGeneration up to its own generation |
| Protocol.ApplyRestoresCache | cmd/turbk-agent/backup.go:203-246 | applying a complete answer restores the full cache promise, whatever stamps came before |
| Protocol.StepKeepsCache | internal/httpapi/server.go:1803-1867 | with stamps no newer than the digest's own answer, the full cache promise is kept by every orderly step |
| ProtocolRuns.CombinedStampBreaksTheCache | cmd/turbk-agent/chunk_batch.go:461-492 | for every two generations g < s, a run from the start in which answers at g and s are put together and the digest is confirmed at s, though it was deleted in between |
| ProtocolRuns.StampingRuleExactly | cmd/turbk-agent/chunk_batch.go:461-731 | a rule for stamps keeps the cache promise in every orderly run if and only if it never stamps above the digest's own answer |
| ProtocolRuns.AskedBetweenDeleteAndRaise | internal/state/agent_daemon.go:313-400 | a run whose only disorderly step is a catch-up between the DELETE and the UPDATE of a prune: a deleted digest stays confirmed for good |
| ProtocolRuns.PrunedBetweenReads | internal/state/agent_daemon.go:313-400 | the same with a whole prune between the two reads of a catch-up, so a transaction around the prune alone is not enough |
| ProtocolRuns.JournaledUnderOldTime | internal/state/agent_daemon.go:273-343 | the same with a deletion journaled, under an older time, between the SELECT and the DELETE of a prune |
| ProtocolRuns.RecordedAfterARun | cmd/turbk-agent/backup.go:203-246 | the same with a server first recorded after a run has confirmed something, the sync before it having failed |
| Protocol.MarkKeepsExactly | cmd/turbk-agent/chunk_batch.go:461-731 | one confirmation keeps the promise if and only if the digest is still there, or pending, or was deleted after the stamp; when it breaks, the stamp is newer than its own answer and the digest was deleted in between |
| Protocol.ReuseIsSafe | cmd/turbk-agent/scan.go:977-1023 | a digest that is reused unasked and gone was deleted after the run's own generation, or its bump is still due |
| PowerLoss.EverySessionKeepsTheCache | cmd/turbk-agent/catalog.go:200-230 | however often the power is lost, and whatever the catalog loses, applied answers that were not recorded yet included: as long as nothing was recorded that rests on what is lost, every orderly session keeps the invariant and, with own stamps, the cache promise |
| PowerLoss.RecordedButLost | cmd/turbk-agent/catalog.go:745-815 | an answer is applied and recorded, the power is lost, the catalog comes back from before: a deleted digest is confirmed again for good |
| PowerLoss.DurableExactly | cmd/turbk-agent/catalog.go:200-230 | over all sessions the cache promise is kept if and only if what a new row of the server rests on is durable before the row |
| Catalogs.SqliteChunkCatalog.MarkChunks | cmd/turbk-agent/catalog.go:484-517 | each update sets one row, in order; the trust in each digest afterwards |
| Catalogs.PebbleChunkCatalog.MarkChunks | cmd/turbk-agent/catalog.go:699-743 | all updates in one batch, or none; the same trust |
| Catalogs.PebbleChunkCatalog.ApplyInvalidations | cmd/turbk-agent/catalog.go:745-815 | named digests are forgotten and every other confirmed one moves to the new generation, file records untouched |
| Catalogs.PebbleChunkCatalog.ResetServerChunks | cmd/turbk-agent/catalog.go:817-822 | the range deletion takes every status record and no file record |
| Catalogs.RunBoth | cmd/turbk-agent/catalog.go:460-822 | after any canonical sequence of mark, invalidate and reset, the two catalogs give the same answer to "confirmed at or above G" for every digest and G |
| Catalogs.SyncCatalogWithServer | cmd/turbk-agent/backup.go:203-246 | every branch of a sync: first contact, another repository, a complete catch-up from the journal within the limit of the server, a request for it that fails, or nothing |
| CatalogCodec.ReadUvarint | cmd/turbk-agent/catalog.go:1211-1221 | the decoding loop computes the specified value, never reading past the end |
| CatalogCodec.UvarintReads | cmd/turbk-agent/catalog.go:1177-1221 | every 64-bit number reads back, wherever it stands |
| CatalogCodec.FileKeyRoundTrip | cmd/turbk-agent/catalog.go:912-933 | a file key decodes to its root and path |
| CatalogCodec.FileKeysAreInjective | cmd/turbk-agent/catalog.go:912-917 | two keys are equal if and only if both parts are |
| CatalogCodec.StatusRangeIsTagged | cmd/turbk-agent/catalog.go:1059-1069 | the range that reset and invalidation touch is exactly the status keys: never a file key |
| CatalogCodec.StatusRoundTrip | cmd/turbk-agent/catalog.go:1071-1107 | a status record decodes to itself |
| CatalogCodec.DecodePebbleFileValue | cmd/turbk-agent/catalog.go:971-1057 | the readers and the chunk loop compute the specified verdict on arbitrary bytes |
| CatalogCodec.FileRoundTrip | cmd/turbk-agent/catalog.go:935-1057 | decoding undoes encoding on every record the encoder accepts, chunk list included |
| CatalogCodec.DecodedIsStable | cmd/turbk-agent/catalog.go:935-1057 | whatever decodes can be encoded again and decodes to the same record |
| Repair.VerdictAnswers | internal/httpapi/server.go:2334-2483 | the verdict on a manifest, as the agent sees it: accepted only if every digest it names is indexed, and what is called missing is what is named and not indexed |
| Repair.BackupRun.Attempt | cmd/turbk-agent/backup.go:164-178 | with such answers, what is missing is exactly the stale confirmations among the named digests |
| Repair.BackupRun.RunWithRepairs | cmd/turbk-agent/backup.go:164-192 | each manifest sent back strictly shrinks the stale confirmations; giving up takes more of them than attempts; with the same files twice is enough; any other refusal ends it |
| Batching.ValidateChunkCheckResponse | cmd/turbk-agent/chunk_batch.go:494-541 | accepts exactly the usable answers: nothing unasked, nothing twice, and nothing left out unless compact |
| Batching.ExistingChunkHashes | cmd/turbk-agent/chunk_batch.go:543-567 | the asked digests that are not missing, each once, in both forms of the answer |
| Batching.ValidateChunkUploadResponse | cmd/turbk-agent/chunk_batch.go:569-621 | accepts exactly the usable answers, and then has one acknowledgement for each chunk sent |
| Batching.FillWaiters | cmd/turbk-agent/chunk_pipeline.go:433-447 | every waiter's slot gets the ref, no other slot changes, and the counters follow |
| Batching.BookResolved | cmd/turbk-agent/chunk_pipeline.go:433-447 | with its waiters served a chunk is off the books, and every slot still holds its chunk or waits for it |
| Batching.AllFilled | cmd/turbk-agent/chunk_pipeline.go:236-260 | with nothing unresolved every entry lists exactly what was added |
| Pipeline.PipelineBatcher.Add | cmd/turbk-agent/chunk_pipeline.go:143-234 | the slot is made in place; unless it failed the books balance, and with a truthful server it fails only on a chunk over the limits |
| Pipeline.PipelineBatcher.AcquireWindow | cmd/turbk-agent/chunk_pipeline.go:188-206 | the wait always has a batch in flight to wait for, ends, and leaves room: used never exceeds the limit |
| Pipeline.SomeInflight | cmd/turbk-agent/chunk_pipeline.go:329-339 | an unresolved chunk that is not pending is in flight: no wait for nothing |
| Pipeline.PipelineBatcher.ApplyResult | cmd/turbk-agent/chunk_pipeline.go:341-431 | a result settles its whole batch, counts what the upload stored, and notes each digest at its own answer's generation; an error leaves the batch unresolved and the catalog as it was |
| Pipeline.PipelineBatcher.Flush | cmd/turbk-agent/chunk_pipeline.go:236-260 | in every order of results each entry ends with exactly the chunks added to it, in order; nothing is held; adds equal the counts plus what EntryPending dropped |
| Pipeline.PipelineBatcher.EntryPending | cmd/turbk-agent/chunk_pipeline.go:262-265 | an entry that does not wait has no empty slot; counts are dropped if and only if a result was ready, and such looks are counted |
| Pipeline.UncountedAdd | cmd/turbk-agent/chunk_pipeline.go:262-265 | a concrete run whose uploaded plus reused is less than its adds |
| Serial.EnsureChunk | cmd/turbk-agent/chunk_batch.go:419-459 | with a truthful server the ref is the chunk's own |
| Serial.SerialBatcher.Add | cmd/turbk-agent/chunk_batch.go:179-259 | the slot is made in place, and the books balance |
| Serial.SerialBatcher.Serve | cmd/turbk-agent/chunk_batch.go:310-396 | serves what the server has and what was uploaded, each digest noted at its own answer's generation; an error notes nothing |
| Serial.SerialBatcher.Flush | cmd/turbk-agent/chunk_batch.go:285-398 | everything pending is served; adds equal uploaded plus reused |
| Serial.RunSerial | cmd/turbk-agent/chunk_batch.go:179-398 | after an error-free flush the lists are those of one-by-one upload, and every add is counted |
| Serial.RunPipeline | cmd/turbk-agent/chunk_pipeline.go:143-447 | the same for the pipeline, with looks at entries anywhere in between; every add is counted if and only if no look found a result ready |
| Serial.UploadOneByOne | cmd/turbk-agent/chunk_batch.go:419-459 | one-by-one upload makes those lists |
| Serial.SameLists | cmd/turbk-agent/chunk_pipeline.go:143-447 | serial and pipeline give every entry the same list whatever the limits, catalogs, servers, repeats and result orders |
| Reusing.CheckChunksBatched | cmd/turbk-agent/chunk_batch.go:461-492 | the combined answer names the missing digests exactly, under the newest generation; it is usable if and only if no digest was asked for in two requests |
| Reusing.EnsureCatalogChunksConfirmed | cmd/turbk-agent/scan.go:977-1023 | reuse is allowed if and only if every chunk is trusted or still stored; it errs exactly when a request fails or a digest falls into two requests |
| Reusing.ApartExactly | cmd/turbk-agent/chunk_batch.go:461-492 | no digest falls into two requests if and only if equal digests stand in the same stretch of the request limit |
| Reusing.RepeatedChunkIsRefused | cmd/turbk-agent/scan.go:977-1023 | with two digests to a request, a file x, y, x is never reused, whatever the server holds and answers |
| Upload.NewAgentChunkBatchBody | cmd/turbk-agent/chunk_batch.go:810-828 | the body, and a declared size that is its true length; refused only for a digest that is not 32 bytes |
| Upload.ReadAgentChunkBatch | internal/httpapi/server.go:3153-3218 | the reading loop computes the specified verdict on arbitrary bodies under the size limit |
| Upload.BatchRoundTrip | internal/httpapi/server.go:3153-3218 | the server reads exactly the chunks the agent wrote |
| Upload.AcceptedIsGenuine | internal/httpapi/server.go:3153-3218 | a body is accepted, as a list of chunks, if and only if it is the body of that list and every chunk has its own digest and could be sent |
| Upload.UploadWithSplit | cmd/turbk-agent/chunk_batch.go:651-731 | ends; succeeds if and only if every request the batch comes down to is accepted, after retries or one chunk at a time where the server has no batches, and they agree on the repository; those requests carry every chunk exactly once, in order, and SplitCount is one less than their number |
| Upload.UploadNoSplit | cmd/turbk-agent/chunk_batch.go:672-710 | a request is tried again only after transient failures and within the limit; the reply is that of its last try, or of one-by-one upload where the server has no batches, its first refusal passed on |
| Upload.UploadLegacy | cmd/turbk-agent/chunk_batch.go:830-840 | one by one: accepted if and only if every put is, with their acknowledgements in order; too large if and only if the first put refused was |
| Upload.SplittingGetsThrough | cmd/turbk-agent/chunk_batch.go:651-670 | a server that refuses only by size and takes single chunks gets the whole batch |
| Upload.UploadKeepsLimit | cmd/turbk-agent/chunk_batch.go:261-267 | the body of an upload is within the limit its pending list was held to |
| Upload.NextChunkSubBatchEnd | internal/httpapi/server.go:1744-1762 | as many chunks as fit, always one, and no more would fit |
| Upload.PutAgentUploadChunks | internal/httpapi/server.go:1711-1730 | sub-batches write what one batch would |
| WriteQueue.AgentRepoWriteQueue.Enqueue | internal/httpapi/server.go:1382-1411 | accepted if and only if open, wanted and within both limits; the channel is never full then |
| WriteQueue.AgentRepoWriteQueue.CollectOne | internal/httpapi/server.go:1469-1508 | one more queued request joins the batch, nothing is lost or finished |
| WriteQueue.AgentRepoWriteQueue.CheckOne | internal/httpapi/server.go:1510-1518 | a request whose caller has gone gets its one result now, any other stays wanted |
| WriteQueue.AgentRepoWriteQueue.Write | internal/httpapi/server.go:1510-1578 | one PutChunks for all; each request gets the results of its own chunks put right after those before it; or all fail |
| WriteQueue.AgentRepoWriteQueue.FinishOne | internal/httpapi/server.go:1413-1583 | exactly one result, and the counters go down by that request |
| WriteQueue.AgentRepoWriteQueue.FailQueuedOne | internal/httpapi/server.go:1456-1467 | after closing, a queued request gets exactly one result |
| WriteQueue.AgentRepoWriteQueue.RunUntilQuiet | internal/httpapi/server.go:1441-1454 | left to itself the worker gives every accepted request exactly one result and the counters return to zero |
| WriteQueue.SliceIsOwn | internal/httpapi/server.go:1510-1578 | the slice of the combined results is what the request alone, right after the others, would get |
| WriteQueue.SliceRefs | internal/httpapi/server.go:1510-1578 | and its refs are of its own chunks in its own order |
| Admission.AgentUploadAdmission.Acquire | internal/httpapi/server.go:1223-1277 | granted if and only if all limits hold; which refusal when; totals are the sums of the unreleased uploads |
| Admission.AgentUploadAdmission.Release | internal/httpapi/server.go:1258-1276 | gives back exactly its own upload, once; a second call changes nothing |
| Admission.TalliedRelease | internal/httpapi/server.go:1258-1276 | the clamps at zero are never needed |
| Admission.NothingHeld | internal/httpapi/server.go:1223-1277 | with every upload released all totals are zero |
| Retention.ExpiredSnapshotIDs | internal/state/jobs.go:880-940 | the grouping, the three passes and the map order give exactly the snapshots that the rule, stated snapshot by snapshot, lets go |
| Retention.RetentionIsAFixedPoint | internal/state/jobs.go:880-940 | applied to its own survivors it expires nothing |
| Retention.JobKeepsAtMost | internal/state/jobs.go:880-940 | each job keeps at most KeepLast + KeepDaily + KeepWeekly |
| Retention.JoblessIsKept | internal/state/jobs.go:880-940 | a snapshot without a job is never expired |
| Retention.MoreKeepsMore | internal/state/jobs.go:880-940 | a policy that keeps at least as many of each kind keeps a superset |
| Retention.CoveringKeepsMore | internal/state/jobs.go:880-940 | a policy that stands in for another keeps a superset; days can stand in for weeks |
| Retention.LargerPolicyKeepsMoreExactly | internal/state/jobs.go:880-940 | for any two raw policies: one keeps a superset of the other of every list, weeks being those of the calendar, if and only if its number of last snapshots in force is no smaller, nor its days unless the other wants at most one, nor its weeks unless the other wants at most one or its days are more than seven for each week but one |
| Retention.ZeroKeepsMoreThanOne | internal/state/jobs.go:880-883 | raising KeepLast from 0 to 1 expires a snapshot that was kept |
| EndToEnd.HonestIsAccepted | internal/httpapi/server.go:2334-2483 | the manifest of an honest agent is accepted as soon as every digest it names is indexed |
| EndToEnd.UploadedRestores | internal/httpapi/restore.go:365-392 | what is accepted of it restores each file, packed ones too, to the agent's own data |
| Walked.ReadAgainExactly | cmd/turbk-agent/scan.go:779-797 | the size that is listed is wrong exactly for a small file that was read again and has another size by then |
| Scan.BackupScanner.UploadRegularFileOnce | cmd/turbk-agent/scan.go:456-493 | a file read whole is listed or waits, with the slots of its own chunks |
| Scan.BackupScanner.UploadRegularFile | cmd/turbk-agent/scan.go:436-454 | a file that changes is read again up to the limit, and what was read before is never listed; one that keeps changing is passed over |
| Scan.BackupScanner.ReadPackFilePayloadWithRetry | cmd/turbk-agent/scan.go:779-797 | gives the reading that counts, after as many tries |
| Scan.BackupScanner.FlushPendingFiles | cmd/turbk-agent/scan.go:630-651 | every waiting file is listed, in order, each with the refs of its own chunks |
| Scan.BackupScanner.FlushPackFiles | cmd/turbk-agent/scan.go:556-628 | the small files waiting are packed, uploaded and listed, the pack under a new id, each with its own range; it succeeds when the server is sound, the files can be packed and the paths are new |
| Scan.BackupScanner.AddPackFile | cmd/turbk-agent/small_pack.go:52-71 | which packs are flushed, exactly: the one in the making before the file would take it past the target, and the one with the file once it has reached it; so less than the target waits, and a flushed pack of several files is within it; an empty file is an error |
| Scan.BackupScanner.AppendManifestEntry | cmd/turbk-agent/scan.go:735-742 | an entry is listed if and only if its path is not listed yet |
| Scan.BackupScanner.Scan | cmd/turbk-agent/scan.go:219-273 | an error-free scan lists everything that could be looked at and read, exactly once; with a truthful server, chunks within the limits and small files that can be packed, it is error-free if and only if nothing it came across is fatal and no path is listed twice |
| Scan.ScannedIsHonest | cmd/turbk-agent/scan.go:219-273 | with no listed size wrong, its manifest is an honest one |
| Scan.ScannedIsAcceptedExactly | internal/httpapi/server.go:2334-2483 | with its chunks stored it is accepted if and only if no listed size is wrong |
| ChangedFiles.RereadAndRefused | cmd/turbk-agent/scan.go:389-422 | a scan of one small file that grows while it is read: it ends without an error, and no server accepts its manifest |
| Scan.ScannedRestores | cmd/turbk-agent/scan.go:219-273 | and after acceptance every file walked restores under its own path to the data it had |

## Left out

- Pipeline.PipelineBatcher.Add: the background workers are one step each, taken when a result is waited for or
  drained; the upload slots they share, the retries with their backoff, and Stop are not modelled.
- Chunking.NewChunker: the gear table is any table of 64-bit numbers.
- Repositories.Repository.WriteManifest: the temporary file, the sync and the rename are one atomic step; JSON is not modelled.
- Compaction.CompactRepository: the bump of the generation after the index is pruned is a step of `Protocol`, not of the
  repository; counts of bytes in reports are left out; a cancelled context is covered by the stops between writes.
- Lifecycle.CleanupErrorBackupData: the same, and file times are given as the set of manifests past their grace period.
- Lifecycle.AcceptManifest: looking for the run's snapshot and recording a new one is one step; run status, progress, and the bookkeeping of the run's row.
- Catalogs.SqliteChunkCatalog.MarkChunks: the tables are maps, each transaction is one step, and none fails.
- Catalogs.PebbleChunkCatalog.MarkChunks: a batch is one step; what a power loss takes back is in `PowerLoss`, on the
  map of confirmed digests.
- Upload.UploadWithSplit: how long it waits between tries.
- WriteQueue.AgentRepoWriteQueue.CollectOne: the coalescing timer is the free choice of when to stop collecting.
- Scan.BackupScanner.Scan: the walk itself with its filters, entries reused from the catalog (whether they may be is in
  `Reusing`), parallel reading and the sort by path after it, and the file catalog.
- Pack.EncodePack: whether a path is clean is decided on bytes between slashes; packs of 2^63 bytes are refused.
- Canonical.CanonicalizeManifestChunks: blank ids are told by ASCII white space; the cleaning of entry paths is not part of it.
- Retention.ExpiredSnapshotIDs: the UTC day and the ISO week are numbers given with each snapshot, related by `WeekOf` where it matters.
- Disk and network failures other than those the results name, and how file systems behave on power loss.
- Restore and manifest posting in the middle of a compaction: each is one step.
- Commands and run status transitions, the cron schedule, HTTP, authentication, settings, metrics, connectors and the web UI.
- Remote restore targets, tree browsing, downloads as archives and the verification report: they read what is proved here.
