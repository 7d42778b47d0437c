# ConstelFS server: a verified model

ConstelFS keeps files as versions, versions as lists of chunks, and chunks as replicas on storage
nodes. A central server holds the metadata, places replicas, and drives a small write protocol:
*prepare* a chunk, *PUT* its bytes to nodes, *confirm* it, and let an asynchronous replication copy
it to the remaining nodes. Retention deletes old versions and their chunks; a key-value store keeps
everything across restarts.

The model has three layers.

* **Handlers as they run.** Classes with the original's fields, updated in place: `NodeServer.Server`,
  `StorageManagement.StorageManager`, `FileManagement.FileManager` and `VersionManager`,
  `Persistence.PersistenceManager`, `Replication.StorageEngine`. Loops are loops. Each method is proved
  to perform one step of a specification.
* **Specifications as functions.** `StorageProtocol`, `VersionCatalog`, `NodeLifecycle`, `Download`
  say on plain values what a step does; what the system promises is proved about them over whole runs.
* **The whole system.** `Cluster` interleaves uploads, PUTs that arrive late or never, replication
  outcomes, erased node files, node churn, version management and server restarts. `ClusterInvariant`
  finds what every step keeps; `ClusterTheorems`, `ClusterLiveness` and `ClusterRestart` state the
  end-to-end results. `UploadRuns` shows that the upload loops, those that succeed and those that fail, are
  runs of this machine, and that a version handler is one action of it (`HandlerIsAStep`);
  `Replication.ReplicationIsARun` shows it for the copies a replication makes.
  `Witnesses` gives runs from the empty system for the main failures.

Main results:

1. With PUTs arriving at their nodes in one step, a download that succeeds returns exactly the uploaded bytes, in every
   run, restarts included (`UploadThenRead`; for files whose chunk count overflows, `ServerBytes`); it succeeds exactly when each chunk is live and served (`ReadSucceedsIff`); and
   right after `uploadFile` returns, it does succeed (`ServerUploadReads`). After a client's upload it does so
   exactly when the new version is the one downloads select (`ClientUploadReads`).
2. The live chunks are exactly the prepared ones minus those listed by removed versions (`LiveExactly`).
   Rollback shares chunks and deletion does not count references, so rollback keeps the target's content
   if and only if the target survives the clean-up of that same rollback (`FirstRollbackIff`). Three
   versions and one rollback are enough to lose data (`RollbackLosesData`).
3. Restart brings the whole version history back, deleted versions included. The next create or rollback heals
   the list exactly when none of the newest maxVersions - 1 numbers was deleted, and otherwise costs exactly the
   chunks of the versions it drops (`RestartWithDeletions`, `RestartHealsAll`). The version count heals only for
   short histories (`CountHealsOnlyShortHistories`). A create may even remove the version it makes
   (`CreateKeepsOwnIff`, `CreateRemovesItself`). Chunks of server-side uploads lose their replicas unless their
   records are saved again before the restart (`UploadThenRestart`, `UploadLostByRestart`).
4. Every record is what the run made it: chunk status and hash (`StatusFromRun`), node fields (`NodeFromRun`), versions
   and file records (`VersionsFromRun`, `FileFromRun`), and the bytes a node answers with (`NodeAnswers`).
   Without server-side uploads disk mirrors memory, and with them up to exactly the records the upload handler saved
   last; a deleted chunk never comes back (`DiskMirrorsMemory`, `RestartLoadsPartial`, `NoResurrection`). A chunk keeps
   the replicas it was prepared with until a restart loads such a record (`ChunkHistory`), and only then can a
   replication send to itself (`SourceIsTargetIff`, `SourceAmongTargets`). A replication reported successful has put
   the chunk on a second address when targets and source are registered apart (`ReplicationMeansSecondCopy`).
5. A PUT of a chunk may start without risk exactly when every PUT of that chunk in flight on the node could lose
   what it has written (`NewUploadSafeIff`); otherwise an acknowledged upload can end as a torn file (`TornForGood`).
6. Placement is within 0.01 per node of optimal (`NearOptimal`) and uses only nodes heard from in the
   last 120 s (`PlacementIsFresh`).

## Where the code and its documents disagree

The model follows the code.

* `docs/design.md:67` says every version stores its chunks independently; `RollbackToVersion` copies the
  target's chunk list. `docs/design.md:63` promises that a rollback has the target's content; the exact
  condition is `FirstRollbackIff`, and `RollbackLosesData` is a run from the empty system that loses it.
* `docs/write-fault-tolerance.md:55` speaks of exponential back-off; `WriteWithRetry` waits
  `retry * interval`, so the total grows as m(m+1)/2.
* `docs/write-fault-tolerance.md:5` counts on temporary files; but all PUTs of a chunk share one, and nothing keeps
  two of them apart: a chunk confirmed twice is replicated twice (`TwoReplications`).
* `docs/write-fault-tolerance.md:12` demands that all replicas succeed; a replication reports success as
  soon as one target acknowledges, and that target may be the source itself when two nodes are registered
  with one address (`SecondCopyIff`).
* `docs/write-fault-tolerance.md:87-90` gives the scheduler other weights than `docs/design.md:125-129`; the code
  has the latter (`ScoreWeights`).
* `downloadFile` answers a request for the latest number with the last list entry. After the latest version
  has been deleted that is an older version (`ShortcutExact`).
* The prefix of the speed-test scan also matches results of nodes whose identifier continues it
  (`SpeedTestOwner`, `SpeedTestConfusion`).
* `uploadFile` ends by saving chunk records whose replicas are addresses of the nodes it did *not* write to.
  Until the next restart nobody notices (`UploadRecordLost`, `UploadThenRestart`, `UploadLostByRestart`).

## Model

| member | source | states |
|---|---|---|
| Keys.DecimalInjective | internal/server/version.go:143-145 | different stamps print differently |
| Keys.DecimalValue | internal/server/version.go:143-145 | the printed digits stand for the number |
| Keys.ChunkKeyInjective | internal/server/storage.go:89 | equal chunk keys force equal file ID and stamp, even for file IDs that contain the separators |
| Keys.VersionKeyInjective | internal/server/persistence.go:111 | equal version keys force equal file ID and stamp, even for file IDs that contain the separators |
| Keys.VersionIDInjective | internal/server/version.go:143-145 | equal version IDs come from equal stamps |
| Keys.VersionKeyOrder | internal/server/persistence.go:107-138 | for stamps of equal width, the bucket's byte order of one file's version keys is the order of creation |
| Keys.PrefixContiguous | internal/server/persistence.go:230-244 | a key between two keys with a prefix has the prefix |
| Bucket.PutSpec | internal/server/persistence.go:22-31 | a put keeps the bucket ordered and changes exactly one key of the map it stands for |
| Bucket.RemoveSpec | internal/server/persistence.go:59-64 | a delete keeps the bucket ordered and removes exactly one key |
| Bucket.PrefixBlock | internal/server/persistence.go:230-244 | on any ordered bucket the keys under a prefix are one block starting at the seek position |
| Bucket.GetLatestSpeedTest | internal/server/persistence.go:223-248 | the seek-and-walk returns the first decodable entry of maximal test time that a filter over the whole bucket would find |
| Bucket.SpeedTestOwner | internal/server/persistence.go:207-248 | the scan for a node meets a result saved for another exactly when that node's ID continues "<id>_" |
| Bucket.SpeedTestConfusion | internal/server/persistence.go:223-248 | a concrete bucket, as the server writes it, where a node is reported another node's bandwidth |
| Bucket.OwnResultIff | internal/server/persistence.go:223-248 | the result GetLatestSpeedTest gives for a node is one of its own exactly when each result of a node continuing "<id>_" is beaten by one of its own |
| Persistence.PersistenceManager.SaveNode | internal/server/persistence.go:22-31 | exactly the node's record changes |
| Persistence.PersistenceManager.LoadNodes | internal/server/persistence.go:34-56 | every saved node returns with every field as saved, except that online becomes offline |
| Persistence.PersistenceManager.DeleteNode | internal/server/persistence.go:59-64 | exactly the node's record goes |
| Persistence.PersistenceManager.SaveFile | internal/server/persistence.go:67-76 | exactly the file's record changes |
| Persistence.PersistenceManager.LoadFiles | internal/server/persistence.go:79-96 | the loaded map is the saved one |
| Persistence.PersistenceManager.DeleteFile | internal/server/persistence.go:99-104 | exactly the file's record goes |
| Persistence.PersistenceManager.SaveVersion | internal/server/persistence.go:107-118 | the version is added to the log under its file's key |
| Persistence.PersistenceManager.LoadVersions | internal/server/persistence.go:121-138 | the log comes back grouped by file, in key order |
| Persistence.PersistenceManager.SaveChunk | internal/server/persistence.go:141-150 | exactly the chunk's record changes |
| Persistence.PersistenceManager.LoadChunks | internal/server/persistence.go:153-170 | the loaded map is the saved one |
| Persistence.PersistenceManager.DeleteChunk | internal/server/persistence.go:173-178 | exactly the chunk's record goes |
| Persistence.PersistenceManager.DeleteChunksByFileID | internal/server/persistence.go:181-204 | exactly the records of the file's chunks go |
| Persistence.PersistenceManager.SaveSpeedTestResult | internal/server/persistence.go:207-220 | exactly one speed-test entry changes |
| Records.AddressDetermines | internal/server/storage.go:98-106 | an address determines IP and port, for IPs without a colon |
| Chunker.SplitWhole | internal/client/chunker.go:71-111 | the pieces concatenate to the file |
| Chunker.SplitAt | internal/client/chunker.go:71-111 | piece i is the i-th window: contiguous, never empty, full unless last |
| Chunker.Int64Spec | internal/client/chunker.go:62-68 | 64-bit wrap-around: the one representable number that differs by a multiple of 2^64 |
| Chunker.QuotientSpec | internal/client/chunker.go:62-68 | machine division rounds toward zero |
| Chunker.CountExact | internal/client/chunker.go:62-68 | the 64-bit count is the true number of pieces if and only if the rounding sum does not overflow; past that the loop runs zero times |
| Chunker.ChunkCountExact | internal/client/chunker.go:46-68 | every positive size below the margin gets a positive chunk size and the true count; only the empty file gets size 0 |
| Chunker.CutBySize | internal/server/file_manager.go:544-557 | a file under 10 MB is one piece; from there up all pieces but the last have 4, 16, 64 or 128 MB, by the bands ending at 100 MB, 1 GB and 10 GB; nothing is cut once the count overflows |
| Chunker.PiecesNeverShrink | internal/client/chunker.go:46-59 | from 10 MB up, a larger file is never cut into smaller full pieces |
| Chunker.ChunkFile | internal/client/chunker.go:71-111 | for every int64 size: describes the pieces of the intended cut, which has 4, 16, 64 or 128 MB pieces at their multiples by the size bands, and fails exactly when the file shrank since it was measured or the chunk count overflows |
| Chunker.ReadChunk | internal/client/chunker.go:114-136 | for every index: the index of a piece gives that piece; any other fails exactly when, in machine arithmetic, it leads before the file or past its end |
| Chunker.ReadPiece | internal/client/uploader.go:140-152 | the i-th read of the uploader is the i-th piece of the cut |
| Chunker.ReadNext | internal/server/file_manager.go:281-289 | the i-th buffer the server fills is the i-th piece, and is never empty |
| Scheduler.RoundingGap | internal/server/scheduler.go:73-100 | rounding hides a difference of less than 0.01 |
| Scheduler.RoundedScore | internal/server/scheduler.go:73-100 | a score is a whole number of hundredths nearest to the exact value, halves away from zero |
| Scheduler.SelectNodes | internal/server/scheduler.go:27-70 | min(n, eligible) distinct eligible nodes, and when n does not exceed the eligible ones nobody left out scores higher, for every map order and every order of ties |
| Scheduler.SelectedNodes | internal/server/scheduler.go:27-66 | every node chosen is online, has a storage path and is not excluded; fewer than asked for are chosen only when every such node is |
| Scheduler.NearOptimal | internal/server/scheduler.go:27-100 | no other set of as many eligible nodes has a total unrounded score better by 0.01 or more per node in which it differs |
| Scheduler.SelectionShape | internal/server/scheduler.go:38-66 | replica lists are distinct, at most as long as asked, and empty only when nobody is eligible or nobody was asked for |
| FaultTolerance.WriteWithRetry | internal/server/fault_tolerance.go:35-54 | succeeds exactly when one of the first maxRetries+1 attempts does, stops there, and otherwise has slept interval*m(m+1)/2 |
| FaultTolerance.WriteToMultipleNodes | internal/server/fault_tolerance.go:57-90 | for every schedule of the goroutines, slot i belongs to node i and succeeds exactly when one of its attempts does |
| FaultTolerance.CheckQuorum | internal/server/fault_tolerance.go:93-102 | true exactly when enough writes succeeded |
| FaultTolerance.GetFailedNodes | internal/server/fault_tolerance.go:105-113 | the nodes of the failed writes, in order |
| FaultTolerance.Accounting | internal/server/fault_tolerance.go:93-113 | successes and failed nodes together account for every node, with multiplicity |
| FaultTolerance.QuorumsIntersect | internal/server/fault_tolerance.go:93-102 | two writes to the same N distinct nodes passing quorums with q1+q2 > N share a node that took both |
| NodeLifecycle.BoundedStaleness | internal/server/node.go:79-118 | in every timed run an online node was last heard from at most 120 s ago |
| NodeLifecycle.CheckIsExact | internal/server/node.go:92-118 | after a check every online or configured node is within 90 s, and exactly the silent ones became offline |
| NodeLifecycle.PlacementIsFresh | internal/server/scheduler.go:27-70 | placement only uses configured nodes heard from in the last 120 s |
| NodeLifecycle.TwoPhaseAdmission | internal/server/node.go:215-306 | in every run, restarts included, a node is not "registered" exactly when it was configured since it was last created; nobody is in maintenance |
| NodeLifecycle.OnlineOnlyByHeartbeat | internal/server/node.go:308-348 | the only way to become online is a heartbeat of a configured or offline node |
| NodeLifecycle.RestartSimulation | internal/server/persistence.go:34-56 | from every reachable state a restart keeps the node IDs, turns online into offline, and changes no other status and no other field |
| NodeLifecycle.HeartbeatAdmits | internal/server/node.go:308-348 | in every run, after a heartbeat a node is online exactly when it was configured since it was last created |
| NodeLifecycle.BackAfterRestart | internal/server/node.go:330-331 | in every run, a node that was online before a restart is online again after its first heartbeat |
| NodeLifecycle.NodeFromRun | internal/server/node.go:215-387 | in every run, every field of every known node is the one that the last operation of the run that sets it gave it |
| NodeServer.Server.RegisterNode | internal/server/node.go:215-264 | performs the lifecycle's registration on memory and bucket, and the managers see the result |
| NodeServer.Server.ConfigureNode | internal/server/node.go:266-306 | succeeds exactly for a known node with enough disk, and performs the lifecycle's configuration |
| NodeServer.Server.HeartbeatNode | internal/server/node.go:308-348 | succeeds exactly for a known node, and performs the lifecycle's heartbeat |
| NodeServer.Server.SpeedTestNode | internal/server/node.go:350-387 | performs the lifecycle's step and adds one speed-test entry |
| NodeServer.Server.DeleteNode | internal/server/node.go:182-213 | succeeds exactly for a known node that is not online, and removes it from memory and bucket |
| NodeServer.Server.CheckNodeStatus | internal/server/node.go:92-118 | for every map order, performs the lifecycle's check on memory and bucket |
| NodeServer.Server.LoadData | internal/server/server.go:79-120 | nodes, files, versions and chunks all restart as their specifications say, and the managers see the loaded nodes |
| StorageManagement.StorageManager.PrepareWrite | internal/server/storage.go:73-123 | one protocol step with the scheduler's choice for the requested count, or 3; the answer names the chunk by its key and gives the nodes and their "ip:port" addresses, the pending record is in memory and on disk; or there are no nodes and nothing changes |
| StorageManagement.StorageManager.ConfirmWrite | internal/server/storage.go:126-174 | succeeds exactly for a known chunk, and performs the confirm step, which may start one replication |
| StorageManagement.StorageManager.FinishReplication | internal/server/storage.go:150-171 | the late outcome of a replication: a failure makes the chunk degraded, in memory and on disk, exactly if it is still there; a success changes no record |
| StorageManagement.StorageManager.DeleteChunk | internal/server/storage.go:205-247 | forgets a known chunk in memory and on disk and asks every replica still registered |
| StorageManagement.StorageManager.GetChunkStatus | internal/server/storage.go:177-187 | the chunk's record, or an error exactly when it is unknown |
| StorageManagement.StorageManager.GetChunksByFileID | internal/server/storage.go:190-202 | each of the file's chunks exactly once and nothing else |
| StorageManagement.StorageManager.Reload | internal/server/server.go:106-110 | chunks restart as the protocol says |
| StorageProtocol.DiskMirrorsMemory | internal/server/storage.go:89-171 | over every interleaving without server-side uploads the bucket is the in-memory map, so a restart recovers it |
| StorageProtocol.RestartLoadsPartial | internal/server/file_manager.go:359-366 | in every run the keys agree on disk and in memory, and a restart replaces exactly the records whose last save was the upload handler's, by what it saved |
| StorageProtocol.NoResurrection | internal/server/storage.go:150-225 | a deleted chunk never reappears in memory or on disk, whatever late failures, confirmations or restarts follow |
| StorageProtocol.ChunkHistory | internal/server/storage.go:81-171 | in every run, for every chunk: its replicas are the prepared ones (distinct, non-empty, no more than asked) unless a restart has loaded the upload handler's partial record, and then that record's; pending means no replication in flight; degraded means confirmed and a replication failed; a replication goes from the first replica to the others |
| StorageProtocol.StatusFromRun | internal/server/storage.go:89-171 | in every run, status and hash of every live chunk from the operations of the run: degraded exactly when the failure of a replication was the last to set the status, success when a confirmation was, pending when neither came, unset when a restart loaded a partial record since; the hash is the last confirmation's; the bucket agrees or holds what the upload handler saved since |
| StorageProtocol.PreparedInRun | internal/server/storage.go:73-123 | in every run, every chunk prepared has the file, size and replicas of an operation of the run, and was asked that many replicas, or 3 for 0 |
| StorageProtocol.ReplicationsConserved | internal/server/storage.go:139-171 | in every run, replications in flight and ended since the last restart add up to the confirmations of chunks with more than one replica |
| StorageProtocol.DeletesListed | internal/server/version.go:129-140 | deleting versions deletes exactly the chunks they list, in memory and with them on disk, and touches no other record |
| StorageProtocol.SourceIsTargetIff | internal/server/storage.go:139-171 | in every run a replication's source is among its targets exactly when a restart has loaded a partial record of the chunk whose first address occurs again in it |
| StorageProtocol.SourceAmongTargets | internal/server/file_manager.go:329-366 | a run that gets there, with three equal replicas where two were asked for |
| StorageProtocol.TwoReplications | internal/server/storage.go:126-171 | a run in which one chunk has two replications in flight, because confirming twice is not refused |
| FileManagement.VersionManager.CreateNewVersion | internal/server/version.go:50-72 | the version carries the request's size, hash, chunks and nodes under the next number, and the file gets that number, that size and one version more |
| FileManagement.VersionManager.RollbackToVersion | internal/server/version.go:75-97 | the version carries the target's size, hash, chunks and nodes under the next number, and the file gets that number, that size and one version more |
| FileManagement.VersionManager.CleanupOldVersions | internal/server/version.go:100-126 | keeps the newest maxVersions, lowers the count by what it removes, and deletes the removed versions' chunks oldest first |
| FileManagement.VersionManager.DeleteVersion | internal/server/version.go:129-140 | deletes each listed chunk; missing ones are skipped |
| FileManagement.FileManager.HandleCreateVersion | internal/server/file_manager.go:108-162 | one catalog create: the version has the request's size, hash, chunks and nodes and the next number, or 1; plus the deletion of exactly the chunks of the versions it removes |
| FileManagement.FileManager.RollbackFile | internal/server/file_manager.go:428-477 | succeeds exactly when the file and the version exist; the new version carries the size, hash, chunks and nodes of the first listed one with the number; then the deletions of its clean-up |
| FileManagement.FileManager.DeleteFileVersion | internal/server/file_manager.go:509-542 | succeeds exactly when the file lists the number; the first version with it leaves the list, exactly its chunks are forgotten, and the log keeps its record |
| FileManagement.FileManager.DeleteFile | internal/server/file_manager.go:479-507 | succeeds exactly for a known file; file and list go, exactly the chunks of the listed versions are forgotten, and the log keeps its records |
| FileManagement.FileManager.CreateFileMeta | internal/server/file_manager.go:561-632 | refused exactly without an ID or a name; otherwise a fresh record with version 1 replaces any old one, without clean-up, node IDs come from the first known chunk, and no chunk changes |
| FileManagement.FileManager.UploadFile | internal/server/file_manager.go:203-380 | an empty file changes nothing; a failed chunk creates no version and leaves the earlier chunks confirmed and itself pending; otherwise the pieces of the cut were sent in order, one catalog create follows, and the partial records are saved last |
| FileManagement.FileManager.Reload | internal/server/server.go:87-104 | files and versions restart as the catalog says |
| ChunkUpload.StoreAllSpec | internal/node/chunk_handler.go:55-92 | after writing to several addresses exactly those hold the data and nothing else changed |
| ChunkUpload.StoredExactly | internal/server/file_manager.go:292-331 | a chunk sent by the client is on every chosen node, one sent by the server only on the first, and nothing else changes |
| ChunkUpload.OthersExactly | internal/server/file_manager.go:329-331 | the addresses an upload collects are those of all chosen nodes but the first of each chunk |
| ChunkUpload.UploadChunk | internal/client/uploader.go:254-328 | succeeds exactly when a node was chosen and every chosen node acknowledged; then the chunk is confirmed; a failed write leaves it pending, with its data on exactly the nodes written to so far |
| ChunkUpload.UploadChunks | internal/client/uploader.go:130-172 | on success every piece was written to every replica; on failure the earlier pieces are written and confirmed, the next one is pending, and the nodes hold exactly what was stored |
| ChunkUpload.SendChunk | internal/server/file_manager.go:292-331 | succeeds exactly when a node was chosen and the first one acknowledged; only that node was written to |
| ChunkUpload.SendChunks | internal/server/file_manager.go:273-331 | the streaming loop sends the same pieces the client's chunker would cut; a failure leaves exactly the earlier pieces confirmed and the next one pending |
| UploadRuns.ChunkRun | internal/client/uploader.go:254-328 | one chunk upload is a legal run of the whole-system machine with the state the handler reports |
| UploadRuns.UploadRun | internal/server/file_manager.go:280-331 | the whole chunk loop is a legal run of one session |
| UploadRuns.ServerUploadIsARun | internal/server/file_manager.go:203-380 | uploadFile, for every int64 size, is a legal run of the machine ending in exactly the state its contract gives |
| UploadRuns.ClientUploadIsARun | internal/client/uploader.go:107-184 | an upload by the client followed by its create-version request is a legal run of the machine |
| UploadRuns.FailedUploadIsARun | internal/client/uploader.go:254-328 | an upload that fails, on either path, is a legal run of the machine ending in exactly the state its contract gives for a failure |
| ReadYourWrites.ServerUploadReads | internal/server/file_manager.go:203-426 | after uploadFile succeeds, downloading the file returns its bytes as long as the nodes written to answer; nothing, when its chunk count overflowed |
| ReadYourWrites.ClientUploadReads | internal/client/uploader.go:107-228 | after a client's upload succeeds, whatever versions the file has, a download of it selects the new version exactly when the list had room for it or no listed version is numbered above it, and then returns its bytes |
| ReadYourWrites.CreateKeepsOwnIff | internal/server/file_manager.go:108-162 | a create keeps the version it makes exactly when fewer than maxVersions versions are numbered above it; otherwise it deletes all its chunks |
| OwnVersion.SelectedIff | internal/server/file_manager.go:389-405 | the new version ends the list exactly when there was room without clean-up or none is numbered above it |
| Replication.StorageEngine.HandleUpload | internal/node/chunk_handler.go:55-92 | for one upload at a time: the chunk file becomes the data exactly when everything succeeded, and what a failure leaves in the temporary file |
| Replication.StorageEngine.HandleDownload | internal/node/chunk_handler.go:95-122 | the stored bytes exactly when the file is there and readable, else not found or unreadable |
| Replication.StorageEngine.HandleDelete | internal/node/chunk_handler.go:125-148 | removes the file, or reports why not |
| Replication.NodeHoldsLastWrite | internal/node/chunk_handler.go:55-148 | serving requests one at a time, whatever fails on its disk, a node holds exactly what the last acknowledged request about a chunk left |
| Replication.NodeAnswers | internal/node/chunk_handler.go:55-148 | after every run a download answers with the bytes the last acknowledged upload left, or not found after a delete; every other answer depends only on that and on the disk |
| Replication.RequestIsLocal | internal/node/chunk_handler.go:55-148 | a request without a chunk ID is refused, and no request touches another chunk's files |
| ChunkFiles.CalmStepIsAtomic | internal/node/chunk_handler.go:72-84 | for overlapping uploads of a chunk that each start when all is calm, an upload takes effect at its rename alone, whole |
| ChunkFiles.CalmRunsAreWhole | internal/node/chunk_handler.go:72-84 | so in every such run a download never sees a torn file, whatever writes and renames fail |
| ChunkFiles.NewUploadSafeIff | internal/node/chunk_handler.go:72-84 | another PUT of the chunk may start without risk exactly when every PUT of it in flight still writes the temporary file and could lose what it has written |
| ChunkFiles.TornForGood | internal/node/chunk_handler.go:72-84 | for every non-empty chunk, a run of two PUTs in which one is acknowledged, nothing remains in flight, and the chunk is an empty file |
| Replication.SendSpec | internal/node/chunk_handler.go:208-243 | a send is acknowledged exactly when one of three attempts is, with only lost attempts before it |
| Replication.HandleReplicate | internal/node/chunk_handler.go:151-205 | for every schedule of the sends, the reported count and the set of nodes with the data are the same |
| Replication.WorksIff | internal/node/chunk_handler.go:208-243 | a round of a replication works exactly when the request arrives, the answer comes back, and for some target one of three attempts is acknowledged after lost ones only |
| Replication.ReplicateChunk | internal/server/replication.go:50-130 | no error exactly when source and some target are registered, the source holds the chunk, and one of three rounds gets an answer with an acknowledged target; then a target holds the source's bytes; only copies of them are ever stored |
| Replication.SecondCopyIff | internal/server/replication.go:50-130 | success always means a second address has the chunk if and only if no registered target has the source's address |
| Replication.DistinctAddresses | internal/server/replication.go:50-130 | that condition holds when nodes are registered with distinct addresses |
| Replication.ReplicationIsARun | internal/node/chunk_handler.go:151-205 | the copies a replication makes are a legal run of the machine |
| ReplicationRuns.ReplicateChunkMayFinish | internal/server/replication.go:50-130 | a successful ReplicateChunk is a successful replication of the machine |
| ReplicationRuns.ReplicationMeansSecondCopy | internal/server/storage.go:150-171 | in every run, after a replication reported successful whose targets and source were never registered under a common address, a second address holds the chunk's bytes unless its file was erased after it was stored |
| Download.DownloadChunk | internal/server/download_manager.go:35-67 | succeeds exactly when the node is registered, answers and holds the chunk |
| Download.DownloadChunkWithFallback | internal/server/download_manager.go:70-84 | the first listed replica that serves the chunk wins; an error exactly when none does |
| Download.DownloadFromNode | internal/server/storage.go:275-287 | the bytes from the first serving replica of a known chunk |
| Download.DownloadFile | internal/server/file_manager.go:382-426 | the concatenation of the chosen version's chunks, or an error exactly when there is no such version or some chunk cannot be read |
| Download.ReadAllSucceeds | internal/server/file_manager.go:412-420 | a version reads successfully exactly when each chunk is known and some listed replica serves it |
| VersionCatalog.SortSpec | internal/server/version.go:106-108 | sorting gives an ordered rearrangement |
| VersionCatalog.SortUnique | internal/server/version.go:106-108 | for distinct numbers every sorting algorithm gives the same list |
| VersionCatalog.CreatedFields | internal/server/version.go:50-97 | field by field, the version a create, a metadata posting or a rollback makes, and when a rollback makes none |
| VersionCatalog.CleanupSpec | internal/server/version.go:100-126 | a clean-up keeps as many versions as allowed, none older than a dropped one, and loses none |
| CatalogHistory.FileFromRun | internal/server/file_manager.go:108-162 | in every run, the files known are those created and not deleted since; name and path come from the operation that made the record, size and latest number from the last version made |
| CatalogHistory.VersionsFromRun | internal/server/version.go:50-97 | in every run, every version listed or logged has the ID of its own operation, and carries the file, size, hash, chunks and nodes of a create it descends from |
| CatalogHistory.RemovedIff | internal/server/file_manager.go:479-542 | a handler removes exactly the versions that were listed, or that it made, and are listed no more |
| VersionCatalog.PutAppends | internal/server/persistence.go:107-138 | a new version lands at the end of its own file's history and disturbs no other, wherever its key falls in the bucket |
| VersionLists.ListsAlwaysOk | internal/server/version.go:50-126 | every interleaving keeps each list strictly increasing, bounded by LatestVersion, of length VersionCount and at most MaxVersions |
| VersionLists.NumbersNeverReused | internal/server/version.go:50-97 | a number issued for a file is never issued again while the file exists |
| VersionLists.ShortcutExact | internal/server/file_manager.go:389-405 | the latest shortcut equals a search by number except exactly when the latest version was deleted and others remain |
| VersionLists.RetainedFound | internal/server/file_manager.go:389-405 | every retained version is found under its number, and version 0 is the retained one with the greatest number |
| VersionLists.MetaOverExisting | internal/server/file_manager.go:586-612 | posting metadata over an existing file keeps its list well formed exactly when the list was empty |
| Retention.NewestRetained | internal/server/version.go:100-126 | after any creates, rollbacks and restarts, a create or rollback leaves exactly the newest maxVersions of the whole history |
| Retention.SameVersionCreated | internal/server/file_manager.go:437-455 | a restart changes neither the record a rollback finds nor the version it creates |
| Retention.RestartHeals | internal/server/persistence.go:121-138 | with or without a restart in between, the next create or rollback leaves the same list |
| Retention.CountHealsOnlyShortHistories | internal/server/version.go:100-126 | after a restart and a create, VersionCount is right exactly when the history never exceeded maxVersions |
| RetentionGaps.RestartHealsIff | internal/server/file_manager.go:509-542 | in runs with deletions, a restart followed by a create or rollback leaves the list the latter alone leaves exactly when none of the newest maxVersions - 1 numbers was deleted |
| ClusterInvariant.StepKeepsInv | internal/server/storage.go:73-247 | every action of the whole system keeps the system invariant |
| ClusterInvariant.RunKeepsInv | internal/server/storage.go:73-247 | so does every run |
| ClusterTheorems.ReplicasAgree | internal/node/chunk_handler.go:55-243 | in every reachable state nodes that hold a chunk hold identical bytes |
| ClusterTheorems.ConfirmedReplicasHold | internal/client/uploader.go:294-327 | at confirmation every replica has the piece on the client path, and the first one on the server path, unless erased since |
| ClusterTheorems.TruthStays | internal/server/version.go:75-97 | the bytes a version stands for never change, in any run |
| ClusterTheorems.ServerBytes | internal/server/file_manager.go:273-290 | the pieces a server upload sends are the file's bytes, unless the chunk count overflows: then there are none |
| ClusterTheorems.UploadThenRead | internal/server/file_manager.go:280-420 | over every interleaving, a successful download of an uploaded version returns exactly the bytes sent |
| ClusterTheorems.ReadSucceedsIff | internal/server/file_manager.go:382-426 | a download succeeds exactly when each chunk is known and some listed replica is registered, reachable and holds it |
| ClusterLiveness.LiveExactly | internal/server/version.go:129-140 | in every run the live chunks, in memory and on disk, are the prepared ones minus those listed by removed versions |
| ClusterLiveness.RetainedLiveIff | internal/server/file_manager.go:479-542 | a version is fully live exactly when it shares no chunk with a removed one |
| ClusterLiveness.PlainRunsStayLive | internal/server/version.go:100-140 | without rollback and restart every retained version stays live and no two share a chunk |
| ClusterLiveness.RollbackLiveIff | internal/server/file_manager.go:428-477 | in any state, a rollback gives a live version exactly when the target was live and shares nothing with the versions cleaned up |
| ClusterLiveness.RollbackKeepsContentIff | internal/server/file_manager.go:457-464 | from an all-live state without sharing, exactly when the target survives the same clean-up, or lists no chunks |
| ClusterLiveness.FirstRollbackIff | internal/server/file_manager.go:457-464 | the same after every run without an earlier rollback or restart |
| UploadRestart.UploadThenRestart | internal/server/file_manager.go:359-366 | a server upload, then anything, restarts included, then a restart: each chunk still live comes back with the replicas chosen for it exactly if a confirmation or a failed replication saved its record again before the first restart, else with addresses; and so it is readable or not |
| UploadRestart.PartialReplication | internal/server/file_manager.go:329-366 | a chunk that came back with addresses and is confirmed again has them as replicas, and its replication sends to itself exactly when the first address occurs again |
| ClusterRestart.RestartHealsAll | internal/server/server.go:79-115 | without deletions, with or without a restart, the next create or rollback leaves the same list and the same live chunks |
| ClusterGaps.RestartWithDeletions | internal/server/server.go:79-115 | with deletions, the lists agree exactly when none of the newest maxVersions - 1 numbers was deleted, and the restart costs exactly the chunks of the versions it loses |
| Witnesses.RollbackLosesData | internal/server/version.go:75-126 | a run from the empty system: three versions, a rollback to the first, and no download of the file succeeds any more |
| Witnesses.UploadLostByRestart | internal/server/file_manager.go:359-366 | a run from the empty system: an upload that reads back, a restart, and the file can never be read again |
| Witnesses.CreateRemovesItself | internal/server/file_manager.go:108-162 | a run from the empty system: after deleting a file and restarting, a new upload's version is removed by its own request |

## Left out

- Replication.StorageEngine.HandleUpload: one upload at a time; uploads of a chunk that overlap share a temporary file, and are the subject of `ChunkFiles`.
- Replication.NodeHoldsLastWrite: requests are served one at a time, for the same reason.
- Cluster.Deliver: a PUT takes effect on its node in one step. `ChunkFiles.CalmStepIsAtomic` says when that is so for PUTs of one chunk that overlap on one node; a node where they overlap otherwise may hold a torn file (`ChunkFiles.TornForGood`), and `ReplicasAgree`, `UploadThenRead` and the read-your-writes results do not cover it.
- ChunkFiles: the overlapping PUTs of a chunk all carry the same bytes, and a download reads the file in one step.
- ChunkUpload.UploadChunk: the client's own requests to the server are answered; only PUTs to nodes fail.
- Cluster runs: time stamps strictly increase, every chunk ID is PUT with one content and by whoever prepared it, a version created directly through the API lists fresh prepared chunks, a server upload gets a new file ID, and metadata is posted only for new files (`VersionLists.MetaOverExisting` covers the other case). A server upload cut short by a restart is dropped; client uploads go on.
- Cluster.Erase: DELETE requests to nodes are not tied to the chunk's deletion; any node file may vanish at any time, which covers them.
- Retention and restart: stamps are assumed to have 19 digits, as nanoseconds have in this era, so that key order is creation order.
- VersionCatalog.SortByNumber: `sort.Slice` is not stable; lists with repeated numbers, which only arise after posting metadata over an existing file or re-creating a deleted file and restarting, may come out in another order. `OwnVersion.KeepsOwnIff` takes equal numbers in list order.
- RetentionGaps.RestartHealsIff: the file itself is not deleted in the run; after that its numbering starts again (`Witnesses.CreateRemovesItself`).
- Scheduler.ScoreNode: exact reals instead of IEEE floating point.
- NodeLifecycle: the checker is at most 30 s late while the server is up; time does not run backwards.
- Persistence: JSON is a lossless round trip, every transaction succeeds, and persistence is switched on.
- HTTP routing, status codes, logging, sleeps and timeouts: outcomes are inputs of the steps.
- Time fields of files, versions and chunks (created, confirmed): nothing modelled depends on them. Node times are kept.
- Aliasing: the version lists and replica lists are values; the original's slices may share memory, and its node map is shared with the managers by reference rather than copied after each change.
- Data races on the file manager's unlocked maps: each handler is one step; the interleaving is at the storage manager's lock and the asynchronous replication.
- Replication.StorageEngine: chunk IDs are taken to be distinct file names.
- Encryption keys, AES-GCM and SHA-256: ciphertext is opaque bytes and the hash is a parameter.
- The client's download path, the node agent, configuration, the web interface, WebDAV and SMB gateways: plumbing, or easy members only.
- Features that exist only in documents (node replacement, resuming, erasure coding, deduplication) are not in the code.
