# squirreld, modelled and proved in Dafny

squirreld is an embedded document store: each device keeps its records in SQLite, queues every
write in an outbox, pushes the outbox to a shared remote store and pulls the other devices' records,
last write wins by Hybrid Logical Clock (HLC). This project models the parts of it whose correctness
is not visible in any one function, and proves what they keep.

| file | models |
|---|---|
| `Lex`, `Base` | string order, small vocabulary |
| `Hlc` | the clock: tick, merge, printing, parsing, order |
| `Retry` | backoff and the bounded error log |
| `Schema`, `Database`, `Store`, `Engine` | the tables and their statements, one device's database, the remote store, the record handlers |
| `Protocol` | any number of devices and the store as a state machine |
| `Tracking`, `Agreement`, `Convergence` | what every step of that machine keeps, over all runs |
| `Payloads`, `Failures` | no torn payloads, and what failed pushes do to an entry, over all runs |
| `Replay` | pushing and pulling do not depend on order or repetition |
| `SyncLoop` | the push and pull loops as written, and that each is a run of the machine |
| `Clocked` | devices whose clocks keep stamps distinct |
| `Buildable`, `Copies` | when a queued write keeps its row, when copies with one HLC agree |
| `Stranded` | runs that show the hypotheses are needed |
| `BlobTable`, `Multipart`, `BlobLifecycle` | blob rows, resumable upload, and the worker beside the actor and crashes |
| `Filter`, `Index` | filter compilation to SQL, and the indexed query against a plain scan |

`dafny verify dfyconfig.toml` checks everything. The single SQL statements are methods of
`Database.Database` and `BlobTable.BlobTable`, each specified by a function of `Schema` or `BlobTable`;
the results below are about those functions, and the lemmas named `..Exactly` beside them say field by
field what each leaves.

## How the protocol is modelled

A device has its tables and a sync loop that is idle, in the middle of a push batch, holding an answer
it has not written back, or in the middle of a pulled snapshot. Puts and deletes of the actor come
between any two phases, with any HLC. A push may lose its request or its reply, a database write may
fail, and a crash drops only the loop's volatile state. Runs are stated at three levels:

- **Anything**: no hypothesis at all.
- **Distinct**: every id is written in its one collection (`records` is keyed by `id` alone, the
  store by id and collection), and no two writes of a key share an HLC. The code enforces neither.
- **Ordered**: also, an accepted push lies, for each device, above all it has pulled or is had by it
  already; a local write is not below the store's record, unless the device will still see that record;
  a record whose apply fails is superseded, had, or the last of its snapshot and above the checkpoint
  reached. This is not only enough: a Distinct run keeps every
  checkpoint sound throughout if and only if it is Ordered (`Convergence.SoundRunsExactly`).

The code enforces none of these hypotheses. For each, `Stranded` has a run in which nothing else goes
wrong: `SharedStampDiverges` and `SharedIdLosesWrite` for the two of Distinct, `LowPushStrands`,
`LowWriteDiverges` and `RefusedIsLostExactly` for the three of Ordered. `Clocked` says when the stamps of
engines are distinct.

`HLC`s are strings wherever the code compares them as strings.

## What the proofs found

- Printed order is clock order for a pair of clocks exactly when their milliseconds are aligned
  (`Hlc.StringOrderExactly`); below 2^52 ms always, and the inversion at 2^52 happens for every counter
  and node. The comment in `src/hlc.rs` claims it for all clocks.
- `tick` is "strictly greater than `self`" except when the wall clock has not advanced and the counter is
  at 65535, where it returns an equal clock; `merge` likewise.
- ARCHITECTURE.md section 4.2 says that receiving a remote HLC moves the local clock. The code never
  calls `merge`, so a device whose clock is behind can overwrite a pulled row with a lower HLC; its
  push is refused, its entry deleted, and it stays different from the store with nothing left to push or
  pull (`Stranded.LowWriteDiverges`). Only a full pull repairs it (`Convergence.FullPullHeals`).
- A record pushed at or below the checkpoint of a device that lacks it or holds an older version is not
  delivered there until it is written again (`Stranded.LowPushStrands`, `Stranded.MissedForever`). A
  refused apply is passed over by the checkpoint exactly when the same pull applies a record at or above
  it (`Stranded.RefusedIsLostExactly`); in step-by-step terms, skipping a record the device needs breaks
  soundness unless it is the last of its snapshot (`Convergence.SkipCoversExactly`).
- Reopening takes the node id of the greatest stored stamp. Two devices that reopen from one stamp make
  the same next stamp exactly when they reach the same millisecond (`Hlc.ReopenedTwinsExactly`); if both
  write one record, store and device differ under one HLC for good, full pulls included
  (`Stranded.SharedStampDiverges`; `Copies.RunKeepsCopiesExactly` says when that does not happen).
- One id used in two collections: a put of the other collection's record, on the same device, or a pull
  of it takes the row of a write that is still queued. The write is then in no row, in no batch and not in
  the store (`Stranded.LocalPutLosesWrite`, `Stranded.SharedIdLosesWrite`). Nothing else does that
  (`Buildable.WritesKeepRowsExactly`).
- The backoff of a row with 2^32 or more failures is short again, because the exponent is cast to 32 bits.
- The part count of an upload is cast to `i32`: a file of 2^31 parts or more is completed short.
- A declared index field named like a record column (`id`, `hlc`, `deleted`, ..) is never compared: the
  record's own column is (`Index.DeclaredIsReadExactly`).
- With a shadow table, `include_deleted` changes nothing: a delete removes the row the join needs.
- `blob_info` reports a blob that is registered for download as pending, though its row never goes back
  to pending: an uploaded blob that is registered is seen to do so (`BlobLifecycle.ReportedPendingAgainExactly`).
- `handle_download` ignores whether its two statements succeed. If the path is lost and the status stored,
  the blob is cached without a file and is never downloaded again (`BlobLifecycle.LostPathIsCached`,
  `BlobLifecycle.PathlessForever`); nothing else leads there (`BlobLifecycle.RunRecordsExactly`).
- A staged blob whose request is lost (channel full, copy failed, path statement failed, crash) is pending
  for good: `put_blob` returns early on a known id and nothing stages again (`BlobLifecycle.UnstagedForever`).

## Model

| member | source | states |
|---|---|---|
| Hlc.TickExceedsExactly | src/hlc.rs:27-38 | a tick exceeds the clock if and only if the wall clock advanced or the counter has room; it never goes backwards and is never below the wall clock |
| Hlc.TickIsLeast | src/hlc.rs:29-38 | no clock later than this one and not behind the wall clock is earlier than the tick |
| Hlc.StalledRun | src/hlc.rs:29-38 | n ticks of a frozen or backward wall clock hold the milliseconds and count to min(start + n, 65535) |
| Hlc.StalledRunStrictExactly | src/hlc.rs:27-38 | such a run is strictly increasing if and only if it is no longer than the counter's room |
| Hlc.TickRunReaches | src/hlc.rs:27-38 | after any wall-clock readings the clock stands at the latest milliseconds, with the ticks since the last advance counted, up to 65535 |
| Hlc.RunStrictExactly | src/hlc.rs:27-38 | the ticks of a run strictly increase if and only if no stretch of ticks without an advance outgrows the counter |
| Hlc.MergeExceedsExactly | src/hlc.rs:40-56 | a merge exceeds each input if and only if that input is not at the latest of the three milliseconds with a full counter (or, for the remote, its node is lower) |
| Hlc.MergeIsLeast | src/hlc.rs:43-56 | no clock later than both and not behind the wall clock is earlier than the merge |
| Hlc.HexDecodeEncode | src/hlc.rs:112-121 | hex decoding inverts hex encoding |
| Hlc.RoundTrip | src/hlc.rs:70-95 | parsing inverts printing for every HLC, also past 13 digits |
| Hlc.ParsesExactly | src/hlc.rs:79-94 | a text parses as a clock if and only if it is three parts between its first two dashes, two hexadecimal numbers in range and twelve characters of hexadecimal bytes |
| Hlc.ParseHexExactly | src/hlc.rs:86-88 | a number parses exactly from its hexadecimal digits in either case, leading zeros and one plus sign allowed, when in range |
| Hlc.PrintedShape | src/hlc.rs:70-74 | below 2^52 ms a clock prints as 13, 4 and 12 lower-case hexadecimal digits between dashes |
| Hlc.PrintsDistinctly | src/hlc.rs:70-74 | two HLCs print the same if and only if they are equal |
| Hlc.StringOrderExactly | src/hlc.rs:103-110 | printed order agrees with `Ord` on a pair if and only if the narrower milliseconds do not exceed the leading digits of the wider |
| Hlc.StringOrderInRange | src/hlc.rs:6-12 | below 2^52 ms, string order is clock order, equality included |
| Hlc.StringOrderBoundTight | src/hlc.rs:70-74 | at 2^52 - 1 against 2^52 the order inverts, whatever counters and nodes |
| Hlc.StampsAscendExactly | src/engine.rs:444-478 | the stamps one device writes ascend as strings, in the order written, if and only if its counter has room between advances |
| Hlc.TicksCollideExactly | src/hlc.rs:29-38 | two ticks print one stamp if and only if node, resulting millisecond and resulting counter are the same |
| Hlc.ReopenedTwinsExactly | src/engine.rs:133-136 | two devices that reopen from one stamp make one next stamp if and only if they reach the same millisecond |
| Hlc.ReopenedWriteExceedsAll | src/engine.rs:133-136 | after reopening from MAX(hlc), whichever node wrote it, that clock is recovered, and the next write exceeds every stored record if and only if it can still tick |
| Hlc.MaxStampIsGreatest | src/db/records.rs:142-147 | in range, the lexicographic MAX(hlc) is the stamp of the greatest clock |
| Hlc.RecoversExactly | src/engine.rs:133-136 | a fresh database, or one whose greatest stamp does not parse, starts from its own node's clock, any other from that stamp |
| Retry.AppendToErrorLog | src/db/outbox.rs:123-133 | the log is the last twenty failures, the new one last |
| Retry.BackoffExactly | src/db/outbox.rs:87-91 | the saturating arithmetic gives min(1000 * 2^n, 300000) if and only if the cast to u32 does not turn n into a small exponent |
| Retry.BackoffTable | src/db/outbox.rs:87-91 | 1, 2, 4 .. 256 seconds, then 300 |
| Retry.MarkExactly | src/db/outbox.rs:86-99 | one failure counts one, delays min(2^n s, 300 s) from now, and is the last of at most twenty in the log |
| Retry.RetryRun | src/db/outbox.rs:74-101 | the n-th consecutive failure of a run: count n, next attempt min(2^(n-1) s, 300 s) later, log the last min(n, 20) failures in order |
| Schema.ReadySeqs | src/db/outbox.rs:41-55 | the ready entries ascend; any left out lies above all those taken, and only when the limit is reached |
| Agreement.ReadBatchExactly | src/sync/mod.rs:147-149 | the batch holds, in queue order, exactly the ready entries that can be built, and passes over only entries queued after all of them |
| Failures.RetryIsWhatFailed | src/db/outbox.rs:74-101 | in every state of any run a queued entry has failed as often as its row says, is due min(2^(n-1) s, 300 s) after its last recorded failure, and logs the last twenty |
| Failures.NotBeforeDue | src/db/outbox.rs:41-55 | no batch contains an entry before it is due |
| Schema.PutRowExactly | src/db/records.rs:22-52 | the row after a put, field by field; only a new row is created now, and no other row changes |
| Schema.DeletedRowExactly | src/db/records.rs:103-111 | a delete marks an existing row of that collection and keeps its payload |
| Schema.PulledRowExactly | src/db/records.rs:57-87 | the row after a pull, field by field; a tombstone leaves no payload |
| Schema.QueuedExactly | src/db/outbox.rs:22-36 | a write queues one entry under the next number, due at once and never failed |
| Store.InMemoryStore.PushOne | src/backend/in_memory.rs:55-79 | takes an entry exactly when it is strictly newer, otherwise reports a conflict and changes nothing |
| Store.InMemoryStore.PullSince | src/backend/in_memory.rs:81-97 | every record above the checkpoint exactly once, in HLC order |
| Store.InsertionPoint | src/backend/in_memory.rs:95 | a place in a sorted list where a record keeps it sorted |
| Database.Database.ApplyRemoteRecord | src/sync/mod.rs:283-316 | a same or newer row stays; otherwise the record replaces it and the record's entries go |
| Engine.Engine.HandlePut | src/engine.rs:436-479 | under a KEK the row holds ciphertext, wrapped key and format 1 unless the put opts out; otherwise the data as it is; it fails exactly when it insists on encryption without a KEK, and then changes nothing |
| Engine.Engine.HandleDelete | src/engine.rs:488-502 | tombstone and entry under the ticked clock |
| Engine.SealsExactly | src/engine.rs:643-668 | which puts are encrypted, which are stored as they are, which fail |
| Engine.EncryptedEverywhere | src/sync/mod.rs:264-268 | where every put of a record was made under a KEK and none opted out, no copy of it is in clear, on any device, in the store or in a snapshot, over any run |
| Engine.GetExactly | src/engine.rs:481-486 | nothing exactly when there is no live row; the bytes of a plain one; of an encrypted one the decrypted bytes, or an error without KEK, wrapped key or successful decryption |
| Engine.SealedOpens | src/engine.rs:643-691 | what any put sealed, with or without encryption, opens to the bytes put |
| Engine.GetReturnsPutBytes | src/engine.rs:481-486 | on any device, over any run at all, a get never fails to decrypt, finds exactly the live records, and returns bytes that one put of that key wrote |
| Tracking.StepKeepsTracked | src/sync/mod.rs:152-188 | every protocol step keeps the tracking invariant, no hypothesis |
| Tracking.NoWriteUntracked | src/engine.rs:450-477 | in every reachable state each local row is queued at its HLC or the store holds the record at that HLC or above |
| Tracking.StoreNeverRegresses | src/backend/in_memory.rs:59-78 | along any run a stored record stays and its HLC never falls |
| Tracking.CreationTimeStays | src/db/records.rs:21-39 | along any run rows are never removed and keep their first creation time |
| Agreement.StepKeepsAgreement | src/sync/mod.rs:259-316 | every Distinct step keeps: copies with one HLC agree, entries are unique, upserts have their row |
| Agreement.HlcDeterminesContent | src/sync/mod.rs:259-281 | copies of a key with one HLC, in rows, store or pulled snapshots, show one content |
| Agreement.EveryUpsertHasItsRow | src/sync/mod.rs:259-268 | no queued upsert is ever dropped from a batch for want of its row |
| Payloads.NoTornPayload | src/sync/mod.rs:259-281 | with no hypothesis at all, every live copy holds, whole, the payload of one put of that key |
| Convergence.WriteCoversExactly | src/engine.rs:444-477 | after a put or delete the device has or will still see its record if and only if the write is not below the store's, or that record waits above the checkpoint or lies beyond the pulls |
| Convergence.SkipCoversExactly | src/sync/mod.rs:228-233 | a record whose apply fails stays within reach if and only if it is no longer the store's, is had, or is the last of its snapshot and above the checkpoint reached |
| Convergence.PushStepExactly | src/backend/in_memory.rs:55-79 | after a push all checkpoints are sound if and only if every device either has the record or has it beyond its pulls |
| Convergence.StepKeepsCheckpointsExactly | src/sync/mod.rs:127-316 | any step of the protocol keeps checkpoints sound if and only if it is Ordered |
| Convergence.SoundRunsExactly | src/sync/mod.rs:127-316 | a Distinct run keeps checkpoints sound in every state if and only if it is Ordered |
| Convergence.CheckpointSoundness | src/sync/mod.rs:236-250 | in every state of an Ordered run a device dominates every record at or below its checkpoint |
| Convergence.InStepExactly | src/sync/mod.rs:283-297 | a device with nothing queued agrees with the store if and only if no row of it is missing or older |
| Convergence.SettledConvergesExactly | src/sync/mod.rs:127-316 | a Distinct run with empty outboxes and nothing left to pull has all devices and the store in agreement if and only if it ends with sound checkpoints |
| Convergence.SettledRunConverges | src/sync/mod.rs:127-316 | once an Ordered run has empty outboxes and nothing left to pull, all devices and the store agree on every key's HLC and content, tombstones included |
| Convergence.FullPullHeals | src/sync/mod.rs:283-316 | after any Distinct run, a device with an empty outbox that applies a full pull agrees with the store |
| Convergence.ApplyRaises | src/sync/mod.rs:287-311 | applying a pulled record never lowers a row's HLC |
| Replay.PushAllHoldsLatest | src/backend/in_memory.rs:55-79 | a series of pushes leaves, for each key, the entry with the greatest HLC, or what was there |
| Replay.PushOrderIndependent | src/db/outbox.rs:41-55 | reordering and repeating pushes, as backoff does, leaves the same store |
| Replay.ApplyAllIsLatest | src/sync/mod.rs:228-250 | applying records leaves each row at the greatest HLC among it and them, and drops exactly the overtaken entries |
| Replay.PullReplayHarmless | src/sync/mod.rs:228-250 | reordered, repeated or crashed-and-repeated application gives the same rows, timestamps aside, and the same outbox |
| Replay.IncrementalPullExactly | src/backend/in_memory.rs:81-97 | an incremental pull gives what a full pull gives if and only if the device dominates every record at or below its checkpoint |
| Replay.IncrementalIsFull | src/sync/mod.rs:192-254 | on every device, in every state of an Ordered run, an incremental pull gives what a full pull gives |
| SyncLoop.SyncLoop.PushOverNetwork | src/sync/mod.rs:153 | the store receives the entry unless the request is lost; the answer is the store's unless the reply is lost |
| SyncLoop.SyncLoop.RunPushCycle | src/sync/mod.rs:127-188 | the loop computes the push cycle on tables, store and statistics |
| SyncLoop.SyncLoop.RunPullCycle | src/sync/mod.rs:192-254 | the loop computes the pull cycle; an unreachable store changes nothing; each record counts once as pulled or error |
| SyncLoop.PushFromPrefix | src/sync/mod.rs:152-188 | deletes exactly the entries before the first failure, marks only the failing one, sends exactly those |
| SyncLoop.PushCycleConserves | src/sync/mod.rs:127-188 | the outbox shrinks by pushed + conflicts; rows, checkpoint and all other entries stay |
| SyncLoop.PushCycleCounts | src/sync/mod.rs:161-185 | pushed are the entries before the first failure that the store took, conflicts the others before it; one error if it failed |
| SyncLoop.PushCycleMarks | src/sync/mod.rs:171-183 | the failed entry: one more attempt, due min(2^n s, 300 s) later, the error, the last twenty failures |
| SyncLoop.NothingPushedNothingStored | src/sync/mod.rs:127-188 | a cycle that pushed nothing and lost no reply left the store as it was |
| SyncLoop.OutboxDrains | src/sync/mod.rs:139-149 | without errors n ready entries are gone after k cycles if and only if k >= ceil(n / 25) |
| SyncLoop.ReachedOutboxDrains | src/sync/mod.rs:139-149 | the same for any device after any Distinct run, once its entries are due |
| SyncLoop.PushCycleIsARun | src/sync/mod.rs:127-188 | a push cycle is a run of the protocol, so its invariants hold of the loop |
| SyncLoop.PullCycleIsARun | src/sync/mod.rs:192-254 | a pull cycle is a run of the protocol |
| SyncLoop.CleanPullCatchesUp | src/sync/mod.rs:228-250 | after a pull cycle without refusals the next pull would return nothing |
| Stranded.MissedForever | src/backend/in_memory.rs:88-94 | a record a device lacks, or has in an older version, at or below its checkpoint stays so over any Distinct run, until the store takes another version or the device writes the id itself |
| Stranded.LowPushStrands | src/sync/mod.rs:236-241 | for any two stamps, a faultless run after which a pushed record is missed |
| Stranded.PullReachesExactly | src/sync/mod.rs:228-241 | an HLC is above the checkpoint of a pull with refusals if and only if it was before and is above every record applied |
| Stranded.RefusedIsLostExactly | src/sync/mod.rs:228-241 | a newer record whose apply fails is lost to incremental pulls if and only if the same pull applies a record at or above it |
| Stranded.LowWriteDiverges | src/engine.rs:444-477 | for any two stamps, a faultless settled run in which a write below the pulled row differs from the store |
| Stranded.SharedStampDiverges | src/engine.rs:133-136 | for any stamp and two contents, a faultless run after which store and device differ under one HLC and no full pull changes the device |
| Copies.StepKeepsCopiesExactly | src/sync/mod.rs:259-281 | with no hypothesis on stamps, a step keeps copies with one HLC in agreement if and only if what it writes or pushes fits the copies that carry its HLC already |
| Copies.RunKeepsCopiesExactly | src/sync/mod.rs:127-316 | an HLC stands for one content in every state of a run if and only if every write and accepted push of it fits |
| Stranded.SharedIdLosesWrite | src/db/schema.rs:18-20 | a faultless run in which a pull takes a queued write's row: it is in no batch and not in the store |
| Stranded.LocalPutLosesWrite | src/db/records.rs:27-29 | the same by a put on the device alone |
| Buildable.StepKeepsBuildableExactly | src/sync/mod.rs:259-268 | a step leaves every queued write of the device with its row if and only if it does not put or apply a record whose id is queued in another collection |
| Buildable.WritesKeepRowsExactly | src/sync/mod.rs:259-268 | from the start, with no hypothesis at all, every queued write has its row in every state of a run if and only if no step of the run is such |
| Clocked.StampedRunsAreDistinct | src/engine.rs:443-478 | devices whose clocks carry different nodes and tick while there is room make only Distinct runs |
| Clocked.StampedContentAgrees | src/engine.rs:443-478 | so, started from nothing, an HLC stands for one content |
| Multipart.PartStart | src/blob/worker.rs:258-263 | every part starts inside the file, so the subtraction cannot underflow |
| Multipart.PartSizes | src/blob/worker.rs:246-263 | every part but the last is 5 MiB, the last is not empty and no larger |
| Multipart.WholeFileExactly | src/blob/worker.rs:246-247 | parts 1..total joined are the file if and only if the part count fits in 31 bits |
| Multipart.JoinIsLeading | src/backend/in_memory.rs:215-224 | parts 1..n in order, joined, are the file's leading bytes |
| Multipart.SortParts | src/backend/in_memory.rs:217-218 | the same parts, in order |
| Multipart.InMemoryBlobStore.PutObject | src/backend/in_memory.rs:152-156 | only that object changes |
| Multipart.InMemoryBlobStore.CreateMultipartUpload | src/backend/in_memory.rs:158-163 | a fresh session number |
| Multipart.InMemoryBlobStore.UploadPart | src/backend/in_memory.rs:165-180 | only that part of that session changes |
| Multipart.InMemoryBlobStore.CompleteMultipartUpload | src/backend/in_memory.rs:203-226 | the object becomes the listed parts joined in order; the session is gone |
| Multipart.ListParts | src/backend/in_memory.rs:182-201 | the visible waiting parts, each once, in order |
| Multipart.BlobWorker.ReadChunk | src/blob/worker.rs:258-268 | reads exactly the part's bytes |
| Multipart.BlobWorker.UploadMissingParts | src/blob/worker.rs:245-276 | sends, in order and once, exactly the parts that were not listed; on success each of parts 1..total is there with the file's bytes; other sessions stay; it fails only if a call does |
| Multipart.MissingExactly | src/blob/worker.rs:240-256 | those parts: the numbers up to total that were not listed, ascending |
| Multipart.BlobWorker.SendPart | src/blob/worker.rs:258-271 | one part, unless the request is lost |
| Multipart.BlobWorker.CompleteUpload | src/blob/worker.rs:278-284 | the object becomes exactly the leading parts of the file |
| Multipart.BlobWorker.UploadMultipart | src/blob/worker.rs:200-284 | resume, open or drop the session exactly when due; success stores exactly those bytes; failures leave waiting parts parts of the file |
| Multipart.BlobWorker.UploadSingle | src/blob/worker.rs:193-198 | the object becomes the file, unless the request is lost |
| Multipart.BlobWorker.UploadBlob | src/blob/worker.rs:140-191 | exactly a file of 5 MiB or more without a session opens one; success leaves the status uploaded and the file's leading parts stored; failure is counted, and an expired session is dropped; rows, objects and sessions of other blobs stay |
| Multipart.BlobWorker.UploadUntilDone | src/blob/worker.rs:140-191 | over any interruptions, retries and expired sessions a successful upload has stored exactly the file if and only if its part count fits in 31 bits, two undisturbed attempts in a row always succeed, and rows, objects and unexpired sessions of other blobs stay as they were |
| BlobTable.S3KeysDiffer | src/engine.rs:551 | two blobs have one object if and only if they are one blob |
| BlobTable.NewRowExactly | src/db/blobs.rs:173-183 | a new row, field by field; only an uploaded row is sent back for download |
| BlobTable.SessionExactly | src/db/blobs.rs:131-146 | upload id and uploading go in together; pending, no id and no attempts come back together, the log stays |
| BlobTable.FailedBlobExactly | src/db/blobs.rs:149-171 | a failed blob counts and delays like a failed push |
| BlobTable.ReportedExactly | src/engine.rs:583-594 | a blob is reported under its own status, and as pending if and only if it is pending or registered for download |
| BlobLifecycle.StepKeepsGood | src/blob/worker.rs:112-191 | every step of actor, worker, other devices and crashes, with any statement of the worker failing, keeps the invariant, and rows once sent stay sent |
| BlobLifecycle.BlobLifecycle | src/db/blobs.rs:110-183 | in every reachable state uploading has an upload id, uploaded and cached have the object stored, uploaded has path and size recorded, and neither ever goes back to pending or uploading |
| BlobLifecycle.ObjectsAreOwn | src/engine.rs:551 | in every reachable state rows of different blobs name different objects |
| BlobLifecycle.StatusFollows | src/db/blobs.rs:110-183 | every way a row changes its status |
| BlobLifecycle.FileIsLastStored | src/blob/worker.rs:126-132 | path and size of a row are those last stored by staging or a download |
| BlobLifecycle.RetryFollows | src/blob/worker.rs:320-341 | the attempts of a row follow its recorded failures, and start over, log kept, when its session is dropped |
| BlobLifecycle.ReadyIsDue | src/db/blobs.rs:86-108 | an upload cycle takes exactly the blobs that are due and not sent |
| BlobLifecycle.RequestsFollow | src/engine.rs:616-621 | every way a request for staging or download comes up and goes |
| BlobLifecycle.AttemptEnds | src/blob/worker.rs:174-190 | an attempt has sent exactly when the store acknowledged the object; every way it fails, and every way an object comes to be |
| BlobLifecycle.StepRecordsExactly | src/blob/worker.rs:309-318 | a step leaves a cached blob without path if and only if it stores the status of a download whose path was not stored |
| BlobLifecycle.RunRecordsExactly | src/blob/worker.rs:309-318 | cached blobs have path and size recorded in every state of a run if and only if the run never does that |
| BlobLifecycle.StoredPathsSuffice | src/blob/worker.rs:314-316 | it is enough that no path statement fails |
| BlobLifecycle.LostPathIsCached | src/blob/worker.rs:309-318 | for any blob, path and size, a run that ends with the blob cached and no path |
| BlobLifecycle.PathlessForever | src/engine.rs:602-624 | such a blob stays so whatever follows, and is never asked for again |
| BlobLifecycle.UnstagedExactly | src/blob/worker.rs:112-137 | a blob comes to wait for a file nobody will copy if and only if its request meets a full channel, its copy or path statement fails, or a crash comes first |
| BlobLifecycle.UnstagedForever | src/engine.rs:546-549 | such a blob stays pending and without a file over every run |
| BlobLifecycle.ReportedPendingAgainExactly | src/engine.rs:583-600 | a blob reported as uploaded or cached is next reported as pending if and only if the step registers an uploaded one for download |
| Filter.ClauseNumbers | src/db/index.rs:269-339 | earlier parameters stay, the filter's own follow left to right, each new ?k occurs once, in order |
| Filter.ClauseParses | src/db/index.rs:269-339 | read with SQL precedence, the clause is the filter's expression and nothing more |
| Filter.ExprMeans | src/db/index.rs:269-339 | that expression, in three-valued logic, is true exactly when the filter holds, NULL comparisons being false |
| Filter.CompilesExactly | src/db/index.rs:269-339 | a filter compiles if and only if its fields are plain identifiers and full-text search has its index |
| Filter.IdentExactly | src/db/index.rs:15-26 | a plain identifier: ASCII letters, digits and underscores, no digit first |
| Filter.ComparisonsExactly | src/db/index.rs:275-305 | what each operator says of two integers, two texts, and a number and a text |
| Filter.RealComparisonsExactly | src/db/index.rs:275-305 | and of reals |
| Filter.AsI64 | src/db/index.rs:229-230 | limit and offset keep their low 64 bits, read as a signed number; up to the largest i64 they are themselves |
| Filter.QueryMeans | src/db/index.rs:201-257 | the whole WHERE clause is true exactly on rows that pass collection, deletion mark and filter; LIMIT and OFFSET read their own values; every parameter is used exactly once |
| Index.IndexedDatabase.UpsertIndexRow | src/db/index.rs:71-110 | the row holds one value per declared column, NULL where none was supplied |
| Index.IndexedDatabase.UpsertFtsRow | src/db/index.rs:113-157 | the record's old full-text rows go and one new row comes |
| Index.IndexedDatabase.DeleteIndexRows | src/db/index.rs:160-177 | the record's rows of both kinds go |
| Index.IndexedDatabase.Put | src/engine.rs:450-475 | row, entry and index rows of one put |
| Index.IndexedDatabase.Delete | src/engine.rs:491-499 | tombstone, entry and removed index rows of one delete |
| Index.RunInSync | src/engine.rs:466-497 | over any run every live record has the index rows its last put supplied, tombstones have none, no record has two |
| Index.IndexedQueryIsScan | src/db/index.rs:201-257 | over any run of puts and deletes a query returns exactly what a scan returns: the records whose last supplied values satisfy the filter, in HLC order, windowed |
| Index.QueryWindowExactly | src/db/index.rs:226-257 | of the wanted records in order, newest first unless asked otherwise, a query skips offset and returns the rest, or with a limit its first ones |
| Index.WindowExactly | src/db/index.rs:229-230 | what LIMIT and OFFSET leave of any list |
| Index.FtsTextsExactly | src/db/index.rs:147-154 | full-text search sees a supplied text as it is, an integer in decimal, nothing else |
| Index.DecimalExactly | src/db/index.rs:151 | that decimal reads back as the integer, without leading zeros |
| Index.RecordColumnsExactly | src/db/index.rs:263-269 | of an indexed collection exactly the record's own columns, the collection apart, are read from the record |
| Index.DeclaredIsReadExactly | src/db/index.rs:263-269 | a comparison on a declared field reads the supplied value if and only if the name is not a record column's |
| Index.DeletedNeverIncluded | src/db/index.rs:232-239 | with a shadow table, include_deleted gives the same answers as without |
| Index.AnswerIsUnique | src/db/index.rs:246 | with distinct HLCs the answer is unique |

## Left out

- Index state after a pull, and `rebuild_indexes`: a pull does not maintain the index, and the rebuild indexes only the declared scalar fields, so no agreement holds.
- `clear_error`: it drops an outbox entry on purpose, which no tracking property survives.
- The `synced` column: `mark_synced` ignores the HLC, so nothing useful follows from it.
- `outbox.data` and `outbox.created_at`: written and never used by the sync loop.
- `apply_remote_record` and the reading of a push batch are one step each; the code runs their statements without a transaction.
- Failures to open the database at all: before a cycle they end it like an unreachable store; after an answer, or instead of saving the checkpoint, they lose what a crash at that point loses. A failing `set_checkpoint` is the same.
- `SyncLoop`: its loops take the statements on the outbox to succeed; `Protocol` also lets them fail.
- The debounced trigger loop, channels, events and logging: no state the properties depend on.
- Encryption itself: a cipher is any pair of functions of which decrypting undoes encrypting.
- Generated ids (ULID), the wall clock and randomness are arguments.
- `from_str` on text with characters beyond ASCII, where `hex_decode` slices bytes.
- DynamoDB and S3 backends: the in-memory backends give the semantics; the DynamoDB condition is the same strict comparison.
- SQL as characters: clauses are token sequences; identifiers are checked as in the code, strings are not lexed.
- Conversions by column affinity: `Index.Typed` and `Index.OverKnown` limit the claims to matching values; filters on the columns collection, data, format_version, dek_encrypted and synced, NaN, and names that differ only in case are not modelled.
- Full-text tokenising and MATCH syntax: matching is an arbitrary predicate on the indexed texts and the query text.
- Several registered indexes at once: each has its own tables, the model keeps one.
- `blob_parts`: written by the worker and never read by it.
- Single-part upload is only the object write; copying and reading of files is an immutable byte sequence per key.
- `delete_object`: the worker never calls it, and the lifecycle claims assume nobody else does.
- The order of `list_ready` by creation time: the lifecycle allows any order.
- Builder, configuration, schema creation and migration hooks: wiring only.
