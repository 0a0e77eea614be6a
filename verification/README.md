# Verified model of the local index engine and its ingestion protocol

A Dafny model of the parts of SearchKernel that keep several representations of the same data in step: the FAISS cache
and its persistence, the SQLite record tables, the graph and vector queries, checkpointed ingestion, and a few
self-contained algorithms. `dafny verify dfyconfig.toml` checks all of it.

| file | what it models |
|---|---|
| `Base.dfy` | options and results, the order of storage keys, distinct sequences, `sorted` of a set |
| `VectorFilter.dfy` | the compiled vector predicate and its column-wise form over a snapshot |
| `FaissRefresh.dfy` | the resident index with tombstones: rebuild and in-place diff |
| `FaissCache.dfy` | cached states, write queue, mutation counter and writer threads as atomic steps |
| `FaissPublish.dfy` | index file, sidecar, manifest, pruning and the validating loader, on a disk with a history |
| `FaissSearch.dfy` | exact search over tombstones, eligibility masks, scan rounds |
| `TopK.dfy` | partition with ties, paged search, bounded heap, against sort-and-take |
| `RecordTables.dfy` | records, full-text rows, chunk state, vectors, edges, epoch lanes and cached snapshots |
| `Ingest.dfy` | the kernel's and the coordinator's runs over one source and one durable cursor, with crashes |
| `StageMerge.dfy` | chunk expansion, two indexing stages, collapse and merge of their outcomes |
| `SemanticPlan.dfy` | deduplicated embedding work over a cache |
| `Graph.dfy` | bounded-depth, best-weight traversal from one or many seeds |
| `ReadWriteLock.dfy` | the writer-preferring lock as a step system |
| `Metrics.dfy` | recall, nDCG, reciprocal rank and average precision over reals |
| `StorageKey.dfy` | printing and parsing of storage keys (JSON strings of section 7 of RFC 8259) |
| `Chunking.dfy` | fixed windows, header sections, header paths, small-chunk merging, byte offsets |

## How it is modelled

- Objects the source updates in place are classes (`ResidentIndex`, `FaissStore`, `Disk`, `EligibilityMasks`,
  `LocalBackend`, `SnapshotCache`, `Durable`, `EmbeddingCache`, `AccessLock`), and so are the encoder and the
  materialiser a plan is executed with (`Encoder`, `Materializer`), which record what they are asked for and handed; its
  loops are loops, each proved against a specification function or a stated property.
- Runs of a state machine are histories: a list of moments, each tied to the next by what one step does
  (`RecordTables.History`, `FaissCache.History`, `Ingest.History`, `ReadWriteLock.History`). A method that drives the
  class returns the history of its run.
- Scores, weights and gains are reals. Digests and stable identifiers are injective. A stored embedding is determined
  by its key and revision, so an index entry carries the revision.
- One atomic write or unlink is one step of the disk, whose history differs by one file from content to content; a
  crash is a stop between two of them. A record is indexed when an ingestor's answer says so. JSON and the FAISS
  serialisation enter as a codec that reads back what it wrote.
- Foreign-key cascades are on. Tables are maps; a full-text table is a multiset of rows, so that a wrong delete shows.
- What the database, the encoder, the stores or a scheduler may do enters as a parameter: the order of rows, the
  partition `argpartition` returns, replies of the encoder, failures, crash points, the interleaving of threads.

## Where the code and its promises differ

- `index` of a batch without incoming vectors can evict a chunk that has one; the vector epoch then stands still and a
  cached snapshot is wrong (`RecordTables.HiddenEviction`, from an empty store). `index` and `upsert` can evict a chunk
  with edges while the graph epoch stands still (`RecordTables.HiddenCascade`).
  `RecordTables.LanesSoundExactlyWhen` states for every call exactly when each lane is sound; over runs see
  `RecordTables.SameEpochSameView` and `RecordTables.CachedEqualsFresh`.
- Excluded storage keys beside `metadata_equals` or `metadata_in` are not checked by the column-wise filter
  (`VectorFilter.ExcludedKeySurvivesMetadataFilter`; exact condition in `VectorFilter.SelectionIsMatchesExactlyWhen`).
- The coordinator's gate looks at failed outcomes only, so a cancelled or unreported record opens it
  (`Ingest.CancelledOpensGate`; exact condition in `Ingest.GateIsSoundExactlyWhen`). The coordinator's runs are stated
  under that condition on the ingestor.
- A graph walk that comes back to the seed is never followed, so it can outweigh the result
  (`Graph.LoopThroughSeedOutweighs`). It cannot where no way back to the seed gains weight
  (`Graph.HarmlessLoopsDominateAllWalks`), and for a neighbour that only the seed leads to this is exact
  (`Graph.NeighbourDominatedExactlyWhen`).
- A source record whose metadata names a foreign parent can be reported committed without being indexed
  (`StageMerge.ForeignParentHidesFailure` and, for strict mode, `StageMerge.ForeignParentsHideStrictFailure`; exact
  conditions in `StageMerge.SoundExactlyWhen` and `StageMerge.StrictSoundExactlyWhen`).
- A writer interrupted inside its wait can leave a reader asleep before an open guard until the lock's holder leaves
  (`ReadWriteLock.InterruptedWriterStrandsReader`; exact condition in `ReadWriteLock.AccessLock.Interrupt`).
- nDCG promises a value in [0,1]; a result listed twice exceeds it (`Metrics.RepeatedResultExceedsOne`), and so does a
  ranking that leaves out an id of negative gain (`Metrics.NegativeGainExceedsOne`). `Metrics.BoundedExactlyWhen` states
  exactly when the bound holds whatever the discount, `Metrics.DominanceBoundsExactly` for non-negative gains and
  `Metrics.BinaryBoundExactlyWhen` without graded gains.
- Average precision promises the same; a result listed twice gives two (`Metrics.RepeatedResultDoublesPrecision`; exact
  condition in `Metrics.PrecisionBoundedExactlyWhen`).
- A last fixed window shorter than `min_chunk_chars` is folded away, but a minimum above the maximum is accepted and
  then missed (`Chunking.MinimumAboveMaximumIsMissed`; exact condition in `Chunking.MinimumIsMetExactlyWhen`).

## Model

| member | source | states |
|---|---|---|
| `FaissRefresh.WithoutContents` | searchkernel/indices/faiss_local.py:952-957 | removing identifiers leaves exactly the vectors of the other identifiers, however often an identifier was present |
| `FaissRefresh.Classify` | searchkernel/indices/faiss_local.py:874-949 | the classification pass yields no plan exactly for the shapes that need a rebuild, and mutates nothing |
| `FaissRefresh.UpdateState` | searchkernel/indices/faiss_local.py:874-1006 | the in-place diff fails, defers to a rebuild or succeeds exactly when its guards say so; deferring leaves the base index untouched; success matches the store field for field, with revisions = live + tombstones, size = live + tombstones, and tombstones at most a quarter of the residents |
| `FaissRefresh.BuildState` | searchkernel/indices/faiss_local.py:791-872 | a rebuild matches the store field for field and holds exactly one vector per row; revisions are kept if and only if every row has one |
| `FaissRefresh.DiffContents` | searchkernel/indices/faiss_local.py:937-983 | dropping the replaced vectors and adding the pending ones leaves the live revisions beside the tombstones, for every store content and every resident index |
| `FaissRefresh.DiffRefinesRebuild` | searchkernel/indices/faiss_local.py:791-1006 | a state the diff produced and one built afresh from the same rows agree on identifiers, keys, candidates, active identifiers and every live vector, and differ in size by the tombstones |
| `FaissRefresh.FingerprintsCarry` | searchkernel/indices/faiss_local.py:769-789 | reusing the candidate metadata of a row whose fingerprint is unchanged gives what decoding the row again would give |
| `FaissCache.FaissStore.RequestWrite` | searchkernel/indices/faiss_local.py:582-617 | queues a snapshot, replacing a superseded one, unless the state is already persisted, in flight or queued; afterwards a non-empty queue has a writer that will look at it |
| `FaissCache.FaissStore.WriteState` | searchkernel/indices/faiss_local.py:571-580 | hands the state to the writer and restarts its debounce window |
| `FaissCache.FaissStore.PersistDebounced` | searchkernel/indices/faiss_local.py:656-680 | asks for a write exactly when the time window or the change budget is spent, and otherwise accumulates the changes |
| `FaissCache.FaissStore.Diff` | searchkernel/indices/faiss_local.py:724-749 | the counted in-place refresh keeps every other namespace sound and makes every snapshot popped earlier either still right or recognisably stale |
| `FaissCache.FaissStore.RefreshState` | searchkernel/indices/faiss_local.py:724-749 | after a refresh the cached state is the one that describes the index, a queued snapshot of the old state is replaced, and a failed refresh leaves neither |
| `FaissCache.FaissStore.RebuildState` | searchkernel/indices/faiss_local.py:750-759 | a rebuild serves the rows of the store and is cached; it fails exactly if the vector epoch moved meanwhile, and touches no other namespace |
| `FaissCache.FaissStore.AdoptPublished` | searchkernel/indices/faiss_local.py:714-723 | a published generation of the current epoch becomes the cached state |
| `FaissCache.FaissStore.GetState` | searchkernel/indices/faiss_local.py:699-759 | whatever is cached, published or stored, the state served is cached, belongs to the current epoch and describes its index; a failure means that the vector epoch moved during the diff or the build; other namespaces' states and index contents stay as they were |
| `FaissCache.FaissStore.RequestAll` | searchkernel/indices/faiss_local.py:551-561 | the request half of a flush: if a writer can be started, every cached state is afterwards on disk, in flight or queued |
| `FaissCache.FaissStore.PopWrite` | searchkernel/indices/faiss_local.py:631-640 | the first critical section of the writer: leave an empty queue, or take one snapshot and remember the mutation count |
| `FaissCache.FaissStore.SerializeIndex` | searchkernel/indices/faiss_local.py:1303-1310 | only a snapshot whose index has not moved since it was popped is serialised, and then to exactly the contents of its index |
| `FaissCache.FaissStore.PublishManifest` | searchkernel/indices/faiss_local.py:1342-1358 | the manifest names the serialised bytes; the invariant that it describes them is kept |
| `FaissCache.FaissStore.FinishWrite` | searchkernel/indices/faiss_local.py:644-648 | the snapshot is no longer in flight, and recorded as persisted if it was written |
| `FaissCache.FaissStore.ExitDrain` | searchkernel/indices/faiss_local.py:649-654 | the `finally` clause takes the lock again and may run after new requests; no request is lost by it |
| `FaissCache.Interleave` | searchkernel/indices/faiss_local.py:571-759 | in every interleaving of queries, flushes and writer steps, at every moment every cached state describes its index, every published manifest's revisions are those of the index bytes it names, and a non-empty queue has a scheduled or looping writer; every moment follows from the one before by its step |
| `FaissPublish.StatesArePublishable` | searchkernel/indices/faiss_local.py:1259-1287 | every state the diff or the rebuild can produce has the shape the persistence metadata needs |
| `FaissPublish.WriteMetadata` | searchkernel/indices/faiss_local.py:1323-1340 | the sidecar is the concatenation of one line per key, and every recorded offset is where the key's line lies |
| `FaissPublish.SidecarRoundTrip` | searchkernel/indices/faiss_local.py:195-219 | through its offset every published key reads back its own metadata, and no other key reads anything |
| `FaissPublish.LoadIndexRevisions` | searchkernel/indices/faiss_local.py:1575-1597 | accepts exactly the manifests whose revision list fits the identifiers and whose tombstones are new |
| `FaissPublish.LoadMetadataOffsets` | searchkernel/indices/faiss_local.py:1599-1617 | accepts exactly one non-empty location per key, in order, without overlap and inside the file |
| `FaissPublish.RevisionsRoundTrip` | searchkernel/indices/faiss_local.py:1259-1287 | live and tombstone revisions survive the split into two manifest lists |
| `FaissPublish.LoadedIsConsistent` | searchkernel/indices/faiss_local.py:1461-1544 | whatever is on the disk, a state that loads has distinct, paired identifiers and keys, active identifiers among them, the epoch asked for, one index entry per tracked identifier, and for every key, and no other, a line of its own inside the sidecar |
| `FaissPublish.LoadReturnsPublished` | searchkernel/indices/faiss_local.py:1461-1617 | loading a published generation returns exactly the published identifiers, keys, active identifiers, revisions, vectors and offsets |
| `FaissPublish.CarriesLoads` | searchkernel/indices/faiss_local.py:1461-1617 | whatever a disk carries is loaded back, and every key's metadata is read back through its offset |
| `FaissPublish.PruneGenerations` | searchkernel/indices/faiss_local.py:1363-1413 | deletes the files of exactly the superseded generations, newest first by time and then file name; at no moment is any other file missing |
| `FaissPublish.LiveSidecarsSurvive` | searchkernel/indices/faiss_local.py:1363-1413 | the sidecar of a cached state survives pruning |
| `FaissPublish.CurrentSurvives` | searchkernel/indices/faiss_local.py:1363-1413 | at every moment of pruning the disk still carries the generation just published |
| `FaissPublish.WriteGeneration` | searchkernel/indices/faiss_local.py:1342-1356 | exactly three operations in this order, index file, sidecar, manifest: after each of the first two the disk still holds the old generation, after the third the complete new one |
| `FaissPublish.PersistState` | searchkernel/indices/faiss_local.py:1289-1361 | the same for the whole publication with pruning, one write or unlink at a time; no sidecar a cached state reads is lost, and names nobody uses stay unused |
| `FaissPublish.PublishAll` | searchkernel/indices/faiss_local.py:1289-1413 | any run of publications, cut off between any two single writes or unlinks, whatever the clock does as long as no name repeats: the disk loads as before the run or as exactly one of the published states |
| `FaissSearch.EligibilityMasks.Mask` | searchkernel/indices/faiss_local.py:1136-1162 | the remembered or new mask is that of the predicate's canonical scalar key |
| `FaissSearch.MaskIsPredicate` | searchkernel/indices/faiss_local.py:1121-1162 | a mask selects exactly the identifiers the generic predicate matches |
| `FaissSearch.IdOnlyIsPredicate` | searchkernel/indices/faiss_local.py:1100-1118 | the identifier-only shortcut selects exactly the identifiers the generic predicate matches |
| `FaissSearch.ValidatedKeys` | searchkernel/indices/faiss_local.py:1183-1219 | the eligible identifiers among the returned ones, by whichever of the three ways applies |
| `FaissSearch.ScanRounds` | searchkernel/indices/faiss_local.py:1058-1093 | however many rounds are allowed, the hits are the eligible ones of a prefix of the ranking |
| `FaissSearch.EnoughAreLive` | searchkernel/indices/faiss_local.py:1020-1040 | scanning k more than the tombstones leaves at least min(k, live) live hits |
| `FaissSearch.SearchState` | searchkernel/indices/faiss_local.py:1008-1097 | the hits are the first eligible residents in ranking order: min(k, eligible) with filters, min(k, live) without filters when every live record is eligible; if the index ranks by score, no eligible resident left out scores higher than a hit |
| `TopK.TopUnique` | searchkernel/indices/local.py:915-946 | there is only one list of the k best hits by score descending and key ascending |
| `TopK.CandidatesAreBest` | searchkernel/indices/local.py:915-946 | everything above the k-th score plus ties by key are k distinct rows, each better than every row left out, for any partition |
| `TopK.SelectTopPositions` | searchkernel/indices/local.py:915-946 | partition with ties returns what sorting and taking k returns |
| `TopK.TopOfPruned` | searchkernel/indices/local.py:1157-1244 | pruning a prefix to its k best loses nothing that could come back later |
| `TopK.NextPage` | searchkernel/indices/local.py:1184-1236 | a page is the next rows behind the last key in key order: as many as the limit, or all that are left |
| `TopK.SearchVectorBlocks` | searchkernel/indices/local.py:1157-1244 | the streaming search over pages of any size returns the k best matching rows |
| `TopK.SearchSnapshot` | searchkernel/indices/local.py:1000-1081 | the snapshot search returns the k best rows its filter selects |
| `TopK.BlocksAgreeWithSnapshot` | searchkernel/indices/local.py:1000-1244 | streaming and snapshot search return the same list, unless excluded keys stand beside a metadata-only filter |
| `TopK.ScanWithHeap` | searchkernel/indices/local.py:1911-1970 | the bounded-heap scan returns what sorting and taking k returns |
| `RecordTables.CompareAll` | searchkernel/indices/local_records.py:210-258 | the comparison pass finds the last values of every key, the keys whose full-text row changes, and raises its flags exactly when some row differs from the table |
| `RecordTables.WriteTables` | searchkernel/indices/local_records.py:183-334 | records hold the batch's last values, rowids stay, and the full-text rows equal a rebuild; the change flags are raised exactly when a row differs from the table, wholly or in what keyword search sees |
| `RecordTables.SyncChunkState` | searchkernel/indices/local_records.py:106-181 | stale chunks leave with their full-text rows, vectors and edges; a malformed marker is an error |
| `RecordTables.ParentsHoldExactlyTheBatch` | searchkernel/indices/local_records.py:106-181 | after a batch the chunks of every mentioned parent are exactly the batch's |
| `RecordTables.WriteRecords` | searchkernel/indices/local_records.py:183-339 | the whole write: the tables stay valid and hold exactly the batch beside what it did not touch; the flags also tell of stale chunks |
| `RecordTables.UpsertTables` | searchkernel/indices/local.py:2585-2713 | succeeds exactly on upsertable batches, then stores the batch with every differing vector, and reports a vector change exactly if a vector or a row differs or a chunk goes stale |
| `RecordTables.LocalBackend.Index` | searchkernel/indices/local_records.py:358-376 | an index batch is written whole or, with a malformed marker, not at all; the keyword lane moves exactly if a row differs in what keyword search sees or a chunk goes stale, the vector lane exactly if a row differs or a chunk goes stale and some row of the batch has a vector, the graph lane never |
| `RecordTables.LocalBackend.Upsert` | searchkernel/indices/local.py:2585-2713 | an upsert is written whole or changes nothing, exactly as its batch is upsertable; which lanes move, and that the graph lane never does |
| `RecordTables.LocalBackend.Delete` | searchkernel/indices/local.py:2715-2794 | records go with their full-text rows, chunks, vectors and edges, and all three lanes are sound |
| `RecordTables.LocalBackend.RebuildKeywordIndex` | searchkernel/indices/local.py:2190-2226 | the full-text table becomes one row per record, whatever it held |
| `RecordTables.WriteEdges` | searchkernel/indices/local.py:692-704 | edges are written in order, and a change is reported exactly if some row is not what the table holds |
| `RecordTables.LocalBackend.UpsertEdges` | searchkernel/indices/local.py:639-708 | all of the edges or, if a weight is not finite, a type is empty, a key is not canonical or an end is not indexed, none; the graph lane is sound |
| `RecordTables.LocalBackend.DeleteEdges` | searchkernel/indices/local.py:710-753 | exactly the named edges leave or, if a type is empty or a key is not canonical, none; the graph lane is sound |
| `RecordTables.ViewWithoutIncomingVectors` | searchkernel/indices/local_records.py:342-356 | without a vector among its rows a batch changes the vector view exactly when it evicts one |
| `RecordTables.LanesSoundExactlyWhen` | searchkernel/indices/local.py:2585-2794 | whatever the call, the tables stay valid, lanes only move forward, the keyword lane is sound, the vector lane is sound exactly unless the call is an index batch that evicts a vector while none of its own rows has one, and the graph lane exactly unless the call makes a chunk with an edge stale |
| `RecordTables.HiddenEviction` | searchkernel/indices/local_records.py:342-376 | in every run of an upsert, a search and an index batch that replaces the chunk, the vector epoch stands still although a vector is gone, and the cached snapshot is wrong |
| `RecordTables.HiddenCascade` | searchkernel/indices/local_records.py:106-181 | in every run that links a chunk and then replaces it by an index batch, the graph epoch stands still although the edge is gone |
| `RecordTables.AlwaysValid` | searchkernel/indices/local.py:2568-2794 | at every moment of every run the full-text rows are those of a rebuild and every chunk, vector and edge has its record |
| `RecordTables.SameEpochSameView` | searchkernel/indices/local.py:2799-2811 | two moments of a run at the same epoch of a lane show the same there, if no call in between hid an eviction from it |
| `RecordTables.SnapshotCache.Get` | searchkernel/indices/local.py:829-913 | the cached snapshot at the current epoch, with or without late-attached metadata, equals a fresh scan while the cache is sound, and the cache stays sound |
| `RecordTables.CachedEqualsFresh` | searchkernel/indices/local.py:829-913 | at every moment of every run before which no batch hid an eviction, every cached snapshot at the current vector epoch equals a fresh scan |
| `RecordTables.HiddenEvictionStales` | searchkernel/indices/local.py:829-913 | a hidden eviction makes a current snapshot of the vector's namespace wrong at once, so the condition is needed |
| `RecordTables.AnyCalls` | searchkernel/indices/local.py:2568-2794 | every sequence of index, upsert, delete, edge, rebuild and search calls is such a run, with its whole history: valid at every moment, and the cache sound at every moment up to which no index batch evicted a vector invisibly |
| `Ingest.NormalizeResults` | searchkernel/kernel.py:501-534 | one result per record with the record's own position; a missing outcome is a failure, a surplus one an error |
| `Ingest.SafeBatchCheckpoint` | searchkernel/kernel.py:537-551 | the cursor behind the successful prefix, or in strict mode none behind a batch with a failure |
| `Ingest.IngestBatch` | searchkernel/kernel.py:380-467 | one batch under any answer and any crash: exactly the records the answer reports successful become indexed, none if it raises, answers too much or the process dies before; the run ends here exactly if the process dies, too much is answered or a strict run meets a failure; no cursor passes a record that was not indexed, and a first unclean batch leaves it behind its successful prefix, in strict mode where it was |
| `Ingest.RunBatchedSource` | searchkernel/kernel.py:227-378 | a run over a batched source: exactly what its consecutive batches were reported to have indexed is new; it ends at the first batch that stops it and is blocked exactly if some batch was not clean; safe however it ends, and without failures it ends at the last cursor with everything indexed; its last cursor is the one persisted |
| `Ingest.RunRecordSource` | searchkernel/kernel.py:227-378 | the same for a record source, whose batches are full but for the last one |
| `Ingest.GateIsSoundExactlyWhen` | searchkernel/indexing/coordinator.py:159-305 | the stage gate opens for indexed batches only exactly when the ingestor reports every record and none as cancelled |
| `Ingest.CancelledOpensGate` | searchkernel/indexing/coordinator.py:200-225 | the answer on which the gate opens although the record was not indexed |
| `Ingest.CutBatch` | searchkernel/indexing/coordinator.py:765-818 | a source batch is cut into pieces of at most the batch size, only the last of which carries the terminal cursor |
| `Ingest.CutBatches` | searchkernel/indexing/coordinator.py:765-818 | the cut stream is the same stream in pieces of at most the batch size |
| `Ingest.RunCoordinator` | searchkernel/indexing/coordinator.py:399-549 | the coordinator's run over a source: exactly the reported records of batches that passed both stages are new; it ends at the first batch that stops it and is blocked exactly if some batch did not succeed; safe however it ends, and complete without failures |
| `Ingest.RunPreparedBatches` | searchkernel/indexing/coordinator.py:551-682 | the same for prepared batches, which save an absent cursor too; an unblocked finished run has indexed everything and stands at the last batch's cursor |
| `Ingest.AnyRuns` | searchkernel/kernel.py:227-467 | before and after every one of any sequence of runs of every kind, strict or lenient, crashed or not, every record at or before the persisted cursor was reported successful in a batch of one of the runs so far; each run's end follows from its beginning, a run is skipped exactly if it does not continue the cursor, and once one was flawless everything stays indexed |
| `Ingest.IndexedWasReported` | searchkernel/kernel.py:227-467 | in every such history nothing counts as indexed that no earlier run was told so |
| `Ingest.ReportedMeans` | searchkernel/kernel.py:380-467 | being told so means that the ingestor's answer to that batch lists this very record with a successful status, before any crash, and for the coordinator that the batch passed both stages |
| `Graph.TraverseReaches` | searchkernel/indices/local.py:446-523 | after h hops the frontier is what exactly h arcs reach, and every recorded weight is that of a real walk |
| `Graph.TraverseDominates` | searchkernel/indices/local.py:489-512 | for non-negative weights every recorded weight is at least that of every walk of up to h arcs that does not come back to the seed |
| `Graph.TraverseExplores` | searchkernel/indices/local.py:446-523 | a traversal of depth d finds exactly the nodes other than the seed within d hops, with witnessed and dominating weights |
| `Graph.HarmlessLoopsDominateAllWalks` | searchkernel/indices/local.py:499-511 | where no way back to the seed of at most depth - 1 arcs gains weight, every walk within the depth is dominated, coming back to the seed or not |
| `Graph.HeavierLoopOutweighs` | searchkernel/indices/local.py:499-511 | a way back that gains weight outweighs whatever was found by a walk short enough to follow it |
| `Graph.NeighbourDominatedExactlyWhen` | searchkernel/indices/local.py:499-511 | for a neighbour that only the seed leads to, all walks are dominated exactly when no way back gains weight |
| `Graph.BoundedWeightsDominateAllWalks` | searchkernel/indices/local.py:499-511 | in particular with weights between zero and one the walks that come back to the seed are dominated |
| `Graph.LoopThroughSeedOutweighs` | searchkernel/indices/local.py:499-500 | a concrete graph with a heavier loop through the seed, whose walk outweighs the result |
| `Graph.SelectSuffices` | searchkernel/indices/local.py:472-488 | reading only the rows that leave the frontier, or any larger set of nodes, finds the same as reading the whole table |
| `Graph.SortNeighbors` | searchkernel/indices/local.py:3659-3669 | neighbours come strongest first, by key among equals, cut off at the limit, and nothing left out is better |
| `Graph.NeighborsDirection` | searchkernel/indices/local.py:446-523 | the single-seed query: its errors, and otherwise the ranked result of the traversal |
| `Graph.CollectOwners` | searchkernel/indices/local.py:575-578 | each node on a frontier lists exactly the seeds whose frontier it is on, each once |
| `Graph.RelaxHopMany` | searchkernel/indices/local.py:598-623 | one hop for all seeds gives each seed what its own hop over the same rows would |
| `Graph.NeighborsManyDirection` | searchkernel/indices/local.py:553-637 | the batched query returns for every seed the same neighbours and weights as that seed's own unfiltered traversal over the same row order |
| `Metrics.NdcgAtK` | searchkernel/eval/metrics.py:41-88 | returns the normalised discounted gain, or the error for a negative cutoff |
| `Metrics.BestIdsGainMost` | searchkernel/eval/metrics.py:66-83 | no distinct relevant ids gain more than as many of the best |
| `Metrics.Rearrangement` | searchkernel/eval/metrics.py:66-83 | dominated prefix totals stay dominated under any positive, never increasing discount |
| `Metrics.NormalizedInUnit` | searchkernel/eval/metrics.py:41-88 | nDCG of a duplicate-free ranking with non-negative gains lies in [0,1] under every discount |
| `Metrics.BoundedExactlyWhen` | searchkernel/eval/metrics.py:41-88 | for all gains, negative ones too, and any ranking, with duplicates or not, the value is in [0,1] under every discount exactly when the first few results always gain between nothing and the best possible, or always between the best possible and nothing below zero, or always the same share of it, or the best possible is always nothing |
| `Metrics.BinaryBoundExactlyWhen` | searchkernel/eval/metrics.py:41-88 | without graded gains exactly when the first k results hold no more relevant occurrences than there are relevant ids |
| `Metrics.IdealIsReached` | searchkernel/eval/metrics.py:74-83 | ranking the relevant ids by gain reaches the ideal |
| `Metrics.IterationOrderIsIrrelevant` | searchkernel/eval/metrics.py:74-83 | the order in which the frozen set of relevant ids is iterated does not change the result, whatever the gains |
| `Metrics.RepeatedResultExceedsOne` | searchkernel/eval/metrics.py:66-72 | a result listed twice makes nDCG exceed one under every discount |
| `Metrics.NegativeGainExceedsOne` | searchkernel/eval/metrics.py:66-83 | a ranking that leaves out an id of negative gain exceeds one under a falling discount, without any duplicate |
| `Metrics.AveragePrecision` | searchkernel/eval/metrics.py:112-136 | returns the mean precision over the relevant ids |
| `Metrics.AveragePrecisionInUnit` | searchkernel/eval/metrics.py:112-136 | it lies in [0,1] for a duplicate-free ranking, and is one exactly when the relevant ids come first |
| `Metrics.PrecisionBoundedExactlyWhen` | searchkernel/eval/metrics.py:112-136 | for any results, repeated or not, average precision is at most one in every order exactly when there are no more relevant occurrences than relevant ids |
| `Metrics.RepeatedResultDoublesPrecision` | searchkernel/eval/metrics.py:112-136 | a relevant result listed twice gives an average precision of two |
| `Metrics.RecallAtK` | searchkernel/eval/metrics.py:21-38 | the share of relevant ids found in the first k: in [0,1], one exactly when all are found; zero without relevant ids; an error for a negative cutoff |
| `Metrics.ReciprocalRank` | searchkernel/eval/metrics.py:91-109 | the inverse rank of the first relevant result, zero exactly if there is none |
| `ReadWriteLock.AccessLock.Enter` | searchkernel/indices/local.py:246-267 | a thread acquires or sleeps exactly as its guard says, a reader also behind a waiting writer; without parallel reads a reader enters as a writer |
| `ReadWriteLock.AccessLock.Recheck` | searchkernel/indices/local.py:252-267 | a notified thread acquires or sleeps again exactly as its guard says |
| `ReadWriteLock.AccessLock.Leave` | searchkernel/indices/local.py:255-279 | releasing keeps the counters right and leaves no un-notified sleeper before an open guard |
| `ReadWriteLock.AccessLock.Interrupt` | searchkernel/indices/local.py:262-268 | an exception out of the wait keeps the counters; no reader is left asleep before an open guard exactly when the writer was not the last thing that held one |
| `ReadWriteLock.InterruptedWriterStrandsReader` | searchkernel/indices/local.py:246-268 | a reader holds a new lock, a writer waits, a second reader waits behind it and the writer is interrupted: the second reader sleeps before an open guard |
| `ReadWriteLock.CountedExcludes` | searchkernel/indices/local.py:236-279 | no reader beside a writer, and at most one writer |
| `ReadWriteLock.NoDeadlock` | searchkernel/indices/local.py:236-279 | if somebody waits and nobody holds the lock, some notified thread finds its guard open |
| `ReadWriteLock.HistoryIsGood` | searchkernel/indices/local.py:236-279 | in every state of every interleaving of the threads' steps the counters are right, the critical sections are apart and no wakeup is lost |
| `ReadWriteLock.AnyRun` | searchkernel/indices/local.py:236-279 | every interleaving of the steps of any number of threads on a new lock is such a run, with its whole history |
| `ReadWriteLock.Drain` | searchkernel/indices/local.py:236-279 | whatever schedule names the steps, once nobody new arrives everyone who waits gets the lock: the run made of exactly the named steps ends with the lock idle |
| `VectorFilter.CandidatePositions` | searchkernel/indices/local_vectors.py:411-440 | the ascending positions of the rows a candidate key set leaves |
| `VectorFilter.FilterPositions` | searchkernel/indices/local_vectors.py:411-495 | in ascending order exactly the rows the decided predicate matches; fails only for metadata that was not materialised |
| `VectorFilter.DecidedByScalars` | searchkernel/indices/local_vectors.py:498-530 | where the scalar prefilter applies, the columns decide the whole predicate |
| `VectorFilter.SelectionIsMatchesExactlyWhen` | searchkernel/indices/local_vectors.py:480-481 | the selection is that of the row predicate exactly when no excluded row passes the metadata shortcut |
| `VectorFilter.DecidedAgreesExactlyWhen` | searchkernel/domain/vector_filters.py:260-338 | row by row, the two predicates agree exactly when the row is not such a one |
| `VectorFilter.DecidedIsMatches` | searchkernel/domain/vector_filters.py:260-338 | without excluded keys beside a metadata-only filter they are the same predicate |
| `VectorFilter.ExcludedKeySurvivesMetadataFilter` | searchkernel/indices/local_vectors.py:480-481 | the input on which they differ |
| `SemanticPlan.Group` | searchkernel/indexing/semantic.py:204-213 | one group per hash, holding exactly the items of that hash in the order of their source ids |
| `SemanticPlan.MakePlan` | searchkernel/indexing/semantic.py:215-245 | hits are exactly the groups with a valid cached vector, misses all others, each standing for its whole group, in working order; together they are a partition |
| `SemanticPlan.SortByOrders` | searchkernel/indexing/semantic.py:242-244 | the misses are worked on by priority, coarse tier first, then hash |
| `SemanticPlan.DeliverHits` | searchkernel/indexing/semantic.py:262-266 | every item of a cached group is handed its group's vector; it succeeds exactly if every delivery is accepted, and stopping inside a group delivers nothing twice and nothing but own vectors |
| `SemanticPlan.DeliverBatch` | searchkernel/indexing/semantic.py:276-285 | the same for a batch of encoded work, with each vector checked first: the error is that of the first unit that is invalid or refused |
| `SemanticPlan.BatchStored` | searchkernel/indexing/semantic.py:276-286 | storing a batch changes only the missing entries, to answers to their own texts |
| `SemanticPlan.Execute` | searchkernel/indexing/semantic.py:247-287 | the encoder is asked exactly the plan's batches in turn and the outcome is the first error the replies and refusals lead to, if any; on success every input is delivered exactly once with the vector of its own text, every needed text is encoded exactly once and no other, every group is cached and completed = total; on failure every delivery made is of its own vector, nothing is delivered twice and the cache gains only valid vectors that were missing |
| `SemanticPlan.SucceedsExactlyWhen` | searchkernel/indexing/semantic.py:262-287 | no error arises exactly when every cached group is accepted and every batch is answered with as many valid vectors as it has texts, each accepted by its whole group |
| `SemanticPlan.EveryInputGetsItsEmbedding` | searchkernel/indexing/semantic.py:247-287 | with a faithful cache and encoder every input is handed the embedding of its text |
| `StageMerge.ExpandRecords` | searchkernel/ingestion/records.py:463-473 | each record is followed by its chunks |
| `StageMerge.IndexIndividually` | searchkernel/ingestion/records.py:185-219 | one outcome per record in order, and in strict mode nothing after the first failure |
| `StageMerge.IndexKeywordStage` | searchkernel/ingestion/records.py:156-183 | the batch write, or the fallback record by record |
| `StageMerge.IndexSemanticStage` | searchkernel/ingestion/records.py:221-241 | the batch embedding with its vector write, or either fallback |
| `StageMerge.CollapseOutcomes` | searchkernel/ingestion/records.py:502-534 | a record is confirmed exactly if some outcome is attributed to it and none of those is a failure |
| `StageMerge.MergeStageOutcomes` | searchkernel/ingestion/records.py:400-447 | a record is committed exactly if both stages succeeded for it; strict mode stops at the first that is not |
| `StageMerge.ConfirmedMeansTaken` | searchkernel/ingestion/records.py:502-534 | a confirmed record was taken with all of its chunks, even where a strict report was cut short |
| `StageMerge.IndexRecords` | searchkernel/ingestion/records.py:107-153 | outcome i concerns record i; committed only if both stages took the record and all its chunks, and for distinct identities exactly then (strict: exactly for the longest such prefix) |
| `StageMerge.IndexForKernel` | searchkernel/kernel.py:501-534 | after normalisation there is one result per record, and what strict mode cut off is a failure |
| `StageMerge.SoundExactlyWhen` | searchkernel/ingestion/records.py:511-513 | a confirmation in a lenient report is sound whatever the stores do exactly when the record's own outcome is attributed to it or nothing is |
| `StageMerge.ForeignParentHidesFailure` | searchkernel/ingestion/records.py:511-513 | a record that names another as its parent is reported committed although it was not indexed |
| `StageMerge.StrictSoundExactlyWhen` | searchkernel/ingestion/records.py:502-534 | in strict mode, where reports stop at the first failure, confirming a record and all before it is sound exactly when no failure up to its last chunk would be charged to none of them after each has had an outcome |
| `StageMerge.ForeignParentsHideStrictFailure` | searchkernel/ingestion/records.py:502-534 | two records with foreign parents, the second of which a strict batch confirms although it was not taken |
| `StorageKey.EscapeRoundTrip` | searchkernel/domain/models.py:67-72 | every escaped character is read back whole, whatever follows it |
| `StorageKey.StringRoundTrip` | searchkernel/domain/models.py:67-72 | every printed string is read back, whatever follows it |
| `StorageKey.KeyRoundTrip` | searchkernel/domain/models.py:126-150 | parsing a printed identity returns it |
| `StorageKey.KeysAreInjective` | searchkernel/domain/models.py:55-72 | different identities print different keys |
| `StorageKey.AcceptsExactlyPrintedKeys` | searchkernel/domain/models.py:126-150 | the parser accepts exactly the keys some valid identity prints, and returns that identity |
| `Chunking.FixedWindows` | searchkernel/chunking/fixed_window_chunker.py:26-42 | window i starts at i times the step, all windows are of the maximum length but the last, which is shorter or, exactly if it was below the minimum, folded into the one before; the last ends at the end |
| `Chunking.MergeTrailingSmallWindow` | searchkernel/chunking/fixed_window_chunker.py:53-68 | a last window is folded exactly if there is one before it and it is below the minimum |
| `Chunking.WindowsAreDetermined` | searchkernel/chunking/fixed_window_chunker.py:26-68 | that describes exactly one list of windows for every body length and tuning |
| `Chunking.MinimumIsMetExactlyWhen` | searchkernel/chunking/fixed_window_chunker.py:26-68 | every window reaches the minimum exactly when the minimum does not exceed the maximum, or the body is one window that reaches it |
| `Chunking.MinimumAboveMaximumIsMissed` | searchkernel/chunking/fixed_window_chunker.py:26-68 | five characters in windows of two with a minimum of three: the first window misses it |
| `Chunking.WindowsReassemble` | searchkernel/chunking/fixed_window_chunker.py:26-51 | the windows without their overlaps concatenate to the body |
| `Chunking.CreateInitialChunks` | searchkernel/chunking/header_chunker.py:187-219 | the sections tile the text from the first header to the end |
| `Chunking.OutlineNext` | searchkernel/chunking/header_chunker.py:221-231 | the headers above the next header are those of a lower level among the headers above this one |
| `Chunking.BuildHeaderPaths` | searchkernel/chunking/header_chunker.py:221-231 | the stack loop yields for each header the path of exactly the headers above it |
| `Chunking.MergeSmallChunks` | searchkernel/chunking/header_chunker.py:363-389 | the merged chunks are consecutive runs, a chunk is merged exactly if it is small or takes the small last one along, and whatever range the chunks tile the merged ones tile |
| `Chunking.MergingIsDetermined` | searchkernel/chunking/header_chunker.py:363-389 | the chunks and the minimum determine the merged list |
| `Chunking.MergingKeepsTiling` | searchkernel/chunking/header_chunker.py:363-389 | merging keeps the tiling |
| `Chunking.DecodingCounts` | searchkernel/chunking/header_chunker.py:13-22 | decoding a prefix of the bytes counts its characters, and fails exactly inside a character |
| `Chunking.CharOffsetsFor` | searchkernel/chunking/header_chunker.py:13-22 | maps every byte offset to its character offset, and raises exactly if one lies inside a character |

## Left out

- FAISS and HNSW internals, the approximate strategy and its scan limits: the index is a finite map with a score order.
- Numerical rounding in scores, norms and metrics.
- bm25 ranking, fuzzy matching, query parsing and the SQL text itself; rows come out of a table in a given order.
- Legacy single-file persistence and its migration; generations written by other processes.
- The idle barrier of `flush_persistence`, and "one drain at a time": the drain takes the lock twice on its way out, so
  neither holds in every interleaving; several drains may run at once in `FaissCache.Interleave`.
- Nested acquisition of the read/write lock by one thread, and threads that are interrupted between notification and
  lock steps other than the wait (`ReadWriteLock.AnyRun` has no interrupts; a single one is `AccessLock.Interrupt`).
- `Graph.TraverseDominates`: walks that come back to the seed, because the traversal does not follow them; the walk
  length of a recorded weight is not bounded by the depth, because `best` is updated within a hop, so that a guard on
  loops is exact only where no longer walk can have been recorded (`Graph.NeighbourDominatedExactlyWhen`).
- `FaissPublish.PublishAll`: two publications of one epoch within the same nanosecond would share their file names;
  names are taken as unused.
- `Ingest.RunCoordinator`: ingestors that report a record as cancelled or not at all, because the gate is unsound for
  them as stated above.
- Sources whose cursors do not identify positions, such as several records with one timestamp.
- Error texts and exception classes, except where the branch taken depends on them; progress callbacks.
- Lone surrogates in strings: a Dafny character is a Unicode scalar value, so the escape of a lone surrogate is an
  error here where the source reads it and then rejects the key as not canonical.
- `RecordTables.LocalBackend.RebuildKeywordIndex`: creation of the full-text schema and the readiness flags.
- Tree-sitter parsing (headers are given), splitting of large sections, overlap text between sub-chunks, the text of
  merged chunks (a parameter of `Chunking.MergeSmallChunks`).
- Key batches of 900 in SQL statements, thread scheduling and asyncio, except as the atomic steps named above.
- Embedding and reranking providers, federation models, configuration, readiness, file discovery, evaluation runners
  and benchmarks.
