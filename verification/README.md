# OLake, verified core

A Dafny model of the parts of OLake that decide whether data is lost, duplicated or mistyped on its way
from a source to a lake table, with proofs of what those parts promise.

- **Staged Parquet commits on an object store** (`Listing`, `Store`, `Staging`, `TwoPhase`). The central
  notion is the *logical table* of a bucket: what recovery would turn it into. Every request the code
  makes keeps it, except the one put of `finish.json`, which publishes an attempt whole. `Parquet` and
  `S3` are classes; every request may fail before or after it took effect, which is also what a crash
  looks like, and `S3.trace` records the bucket after each of them.
- **Backfill, incremental sync and shared stream writers over any run history** (`Backfill`, `FullRefresh`,
  `Incremental`, `StreamRuns`, `HandOver`, `Rows`): state machines whose store steps are exactly what the
  method contracts allow.
- **Upserts** (`Upserts`, `ArrowWriter`, `Vectors`, `WriterThreads`): predicted row locations, equality and
  positional deletes, deletion vectors, the pending index, and the threads that share the committed one.
- **The row index** (`ByteCodec`, `IndexStore`, `IndexRebuild`): a byte-level key-value store that stands
  for a plain map and a checkpoint, and its rebuild by a flushed scan.
- **Splitting tables** (`Chunks`, `NullKeys`, `Boundaries`, `Db2Split`): the expanded tuple condition, also
  on NULL, boundaries as text, the DB2 key walk with its bound query, the row-id split.
- **Writer threads** (`WriterPool`): batching and shared statistics under every interleaving.
- **Types** (`TypeLattice`, `SchemaFields`, `IcebergSchema`): the typecast tree as a lattice, column
  discovery, Iceberg schema evolution.

`dafny verify dfyconfig.toml` checks everything.

## Assumptions

- Source rows of a chunk do not change between attempts of one backfill, and their key columns are not
  NULL; `NullKeys.NullTilesIff` says what happens to those that are.
- Thread ids, staging directory hashes and new file names are distinct where the code derives them from
  distinct inputs.
- A backfill starts with an empty staging area; `LayoutHandOver.StreamSurvivesBackfillIff` says what
  happens to a stream attempt that is still there.
- Incremental sync: both cursor values are set, and the metadata a history starts from is either not of
  the thread of the saved cursor or a later one, or names the cursor the destination has reached. Rows
  may arrive at any time with any values; each row arrives once. One write of the state file is atomic.
- A destination scan applies equality deletes to older data and positional delete files to their row, both
  within one partition, and finds a deletion vector by the path of its data file.
- Threads of a stream close one at a time, under its mutex.
- A scan for the index lists the live rows written since its starting snapshot.
- A key-value batch is durable whole or not at all, and a batch that reports an error is not durable.

## Findings

- A chunk boundary with fewer parts than key columns makes the two chunks it separates overlap
  (`Chunking.TilesIffFull`, `Chunking.ShortOverlaps`).
- A row with NULL in a chunk column is read by no chunk unless every boundary differs from it in an earlier
  column (`NullKeys.NullTilesIff`, `NullKeys.NullColumnExample`).
- A boundary whose values hold a comma, or where parts are trimmed begin or end with space, does not come
  back as its parts (`BoundaryText.BoundaryIff`, `BoundaryText.CommaExample`).
- A backfill skips a chunk whose id is already in metadata.json. The id is made of the chunk's bounds, so a
  later backfill with equal bounds delivers everything if and only if those chunks are empty
  (`BackfillRuns.ExactlyOnceIff`, `BackfillRuns.RenamedChunkExample`).
- A backfill's recovery discards what a finished stream attempt has staged below partition directories and
  not yet promoted (`LayoutHandOver.StreamSurvivesBackfillIff`, `LayoutHandOver.PartitionedAttemptExample`).
- The cursor is saved by two writes of the state file. A crash between them has rows without primary value
  delivered twice if and only if the primary value had moved and such rows lie between the old and the
  new secondary value (`IncrementalRuns.ExactlyOnceIff`, `IncrementalExamples.HalfSavedExample`).
- An incremental sync does not deliver a row that arrives at or behind the cursor reached, or that the
  cursor of an attempt under way passes without having read it (`IncrementalRuns.LateIff`,
  `IncrementalRuns.LateRowLost`, `IncrementalExamples.LateRowExample`).
- A row whose primary value is at or below the first cursor and whose secondary value is above it is
  selected neither by the backfill nor by the incremental condition (`IncrementalRuns.ThresholdSplits`,
  `LayoutHandOver.BackfillStartsIncremental`).
- A column whose first value is null ends as string, because null stays in its type set and has no place
  in the tree (`SchemaFields.NullFirstIff`).
- A type outside the weight table joins to string even with itself (`TypeLattice.JoinSelfIff`); the
  comment beside that branch says it gives the unknown type, and the model follows the code.
- The indexed modes keep one live row per id exactly when records of known ids are looked up, no other
  thread commits the id between a thread's first record of it and that thread's commit and, with
  positional delete files, ids do not change partition (`WriterThreads.IndexStaysExact`,
  `WriterThreadsExample.TwoThreadsExample`, `Upserts.MovedRowExample`, `Upserts.BlindCreateDuplicates`).
- Whether a batch passes Iceberg schema validation can depend on the order of its records, for `float`
  columns only (`IcebergSchema.PassesAnyOrderIff`, `IcebergSchema.PassesIffValid`,
  `IcebergSchema.FloatOrderExample`).

## Model

| member | source | states |
|---|---|---|
| `Listing.SortKeys` | destination/parquet/parquet_2pc.go:404-425 | the listed keys come back in strict byte order, none lost, none added |
| `Listing.PrefixContiguous` | destination/parquet/parquet_2pc.go:307-335 | in byte order nothing foreign sorts between two keys of one directory, which is what lets one pass group a listing |
| `Listing.NewDirectoryIsNew` | destination/parquet/parquet_2pc.go:319-326 | in an ascending listing a directory other than the last one seen has not been seen before |
| `Listing.PrefixIffDirectory` | destination/parquet/parquet_2pc.go:314-326 | a key carries an entry's prefix if and only if its first path component is that directory |
| `Listing.AddKey` | destination/parquet/parquet_2pc.go:313-332 | one loop step keeps the grouping: entries that group the keys read so far group one key more, with the right finished mark |
| `Listing.GroupStagingEntries` | destination/parquet/parquet_2pc.go:307-335 | comparing each sorted key with the last entry only yields exactly one entry per directory, finished if and only if that directory holds finish.json |
| `ObjectStore.AfterFinishTwice` | destination/parquet/parquet_2pc.go:197-272 | rolling the same finish marker into the metadata twice is rolling it in once |
| `ObjectStore.FieldSurvivesIff` | destination/parquet/parquet_2pc.go:240-272 | a committed checkpoint field keeps its value through a later commit exactly when that commit leaves the field alone or writes the same value |
| `ObjectStore.PublishedThread` | destination/parquet/parquet_2pc.go:197-212 | the logical metadata after a full-refresh commit: the old committed ids and the thread's own, id and checkpoint as they were, inserts deduplicated |
| `ObjectStore.PublishedState` | destination/parquet/parquet_2pc.go:240-272 | the logical metadata after a stream commit: committed ids as they were, id and flag of the new state where it has them, its checkpoint fields over the old ones, a checkpoint without fields in place of the old one |
| `StagingSteps.PromotingSound` | destination/parquet/parquet_2pc.go:338-359 | every moment of promoting a finished prefix (any keys copied, any of those removed) stands for the same logical table |
| `StagingSteps.DiscardingSound` | destination/parquet/parquet_2pc.go:64-71 | every moment of deleting an unfinished prefix, finish marker last, stands for the same logical table |
| `StagingSteps.CleaningSound` | destination/parquet/parquet_2pc.go:115-133 | once an attempt is promoted and named, every moment of deleting its prefix stands for the same logical table |
| `StagingSteps.CommitMetadataSound` | destination/parquet/parquet_2pc.go:197-226 | naming a fully promoted attempt in metadata.json keeps the logical table and never names data that is not visible |
| `StagingSteps.UploadingSound` | destination/parquet/parquet.go:400-435 | uploads below a prefix without finish marker do not show in the logical table |
| `StagingSteps.FinishPublishes` | destination/parquet/parquet_2pc.go:189-195 | the put of finish.json is the commit point: it moves exactly the staged files and their thread id or checkpoint into the logical table, also when metadata.json already carries that id, as every change-stream commit after the first does |
| `StagingSteps.SettledAtRest` | destination/parquet/parquet_2pc.go:50-113 | with nothing staged, a bucket is the one bucket its logical table determines |
| `StagingSteps.RestingView` | destination/parquet/parquet_2pc.go:50-113 | with nothing staged, the visible objects and metadata.json are the logical table |
| `TwoPhaseCommit.Parquet.PromoteStaging` | destination/parquet/parquet_2pc.go:338-359 | every request keeps the logical table; on success all data of the prefix is visible and none of it staged |
| `TwoPhaseCommit.Parquet.DeleteStagingPrefix` | destination/parquet/parquet_2pc.go:372-402 | every request keeps the logical table for a prefix that is unfinished or rolled forward; on success the prefix is empty, other prefixes untouched |
| `TwoPhaseCommit.Parquet.CommitMetadata` | destination/parquet/parquet_2pc.go:197-226 | one read and one write that name the attempt; no chunk id is lost, and no checkpoint field but those the attempt itself writes |
| `TwoPhaseCommit.Parquet.FinalizeStaging` | destination/parquet/parquet_2pc.go:115-133 | promote, name, clean up: every request keeps the logical table, success leaves the prefix empty |
| `TwoPhaseCommit.Parquet.RecoverEntry` | destination/parquet/parquet_2pc.go:63-82 | discarding an unfinished entry or rolling a finished one forward keeps the logical table at every request, also when a marker cannot be read; success leaves exactly the later entries pending |
| `TwoPhaseCommit.Parquet.RecoverBackfillStaging` | destination/parquet/parquet_2pc.go:58-83 | every request keeps the logical table and success leaves no chunk staged |
| `TwoPhaseCommit.Parquet.RecoverSharedStaging` | destination/parquet/parquet_2pc.go:86-113 | the same for the one shared staging area |
| `TwoPhaseCommit.Parquet.Setup` | destination/parquet/parquet_2pc.go:42-55 | recovery followed by a metadata read: what it returns is the metadata of the logical table the bucket had at the start |
| `TwoPhaseCommit.RecoveredIsSettled` | destination/parquet/parquet_2pc.go:50-113 | a finished recovery ends in the one bucket determined by where it started |
| `TwoPhaseCommit.RecoveryConfluent` | destination/parquet/parquet_2pc.go:50-133 | recovery interrupted any number of times and rerun ends in the same bucket as one uninterrupted recovery |
| `TwoPhaseCommit.Parquet.StageFiles` | destination/parquet/parquet.go:400-435 | uploads in any order, each attempted once, keep the logical table; on success exactly the attempt's files are staged |
| `TwoPhaseCommit.Parquet.WriteFinish` | destination/parquet/parquet_2pc.go:189-195 | before this put took effect the table is the old one, from then on it holds the attempt |
| `TwoPhaseCommit.Parquet.CommitAttempt` | destination/parquet/parquet.go:464-500 | publish, then roll forward: from the commit point on every request leaves a bucket in which the attempt is in the table |
| `TwoPhaseCommit.Parquet.Close` | destination/parquet/parquet.go:437-501 | before its commit point every request leaves the logical table unchanged, from it on every request leaves a bucket that holds exactly one more attempt, failure or not: for a full-refresh thread its files and its id among the committed ones, for a stream its files and its metadata over the earlier one; a stream without metadata is never committed; success means the attempt is in and nothing is staged; a stream close without files makes no request |
| `BackfillRuns.InitInv` | drivers/abstract/backfill.go:18-45 | the protocol invariant holds when a backfill starts, also on a table whose metadata already names some of its chunks |
| `BackfillRuns.NextInv` | drivers/abstract/backfill.go:46-96 | every action (lock, store request, commit point, unlock, retry, chunk removal, crash) keeps it |
| `BackfillRuns.RunInv` | drivers/abstract/backfill.go:46-96 | hence it holds in every state of every interleaving |
| `BackfillRuns.VisibleIsCommitted` | destination/parquet/parquet_2pc.go:115-133 | a visible object is older than the refresh or belongs to an attempt whose finish.json was written |
| `BackfillRuns.NamedIsComplete` | destination/parquet/parquet_2pc.go:197-213 | once metadata.json names a thread, every file of its committed attempt is visible with its contents |
| `BackfillRuns.FilesOfOneThread` | destination/parquet/parquet_2pc.go:479-481 | a file belongs to the committed attempt of at most one chunk |
| `BackfillRuns.RemovedIsCommitted` | types/state.go:235-255 | a chunk removed from the state file is committed, named and wholly visible; its attempt brought its rows, or nothing if it was named before |
| `BackfillRuns.RunIsSafe` | drivers/abstract/backfill.go:56-75 | both of the above in every state of every run |
| `BackfillRuns.ExactlyOnce` | drivers/abstract/backfill.go:46-96 | when the chunk list is empty, staging is empty and the visible rows are the old rows plus, exactly once, the rows of every chunk that was not already named |
| `BackfillRuns.ExactlyOnceIff` | drivers/abstract/backfill.go:70-75 | every source row exactly once if and only if every chunk that was already named is empty |
| `BackfillRuns.RenamedChunkExample` | drivers/abstract/backfill.go:70-75 | a run, built step by step: the second backfill of a chunk with the same bounds ends with an empty chunk list and without a row that the range has gained |
| `BackfillRuns.CloseIsARun` | destination/parquet/parquet.go:437-501 | each request that `Parquet.Close` can make is a step of the machine |
| `BackfillRuns.SetupIsARun` | destination/parquet/parquet_2pc.go:42-113 | each request that `Parquet.Setup` can make is a step of the machine |
| `BackfillRuns.CloseIsCallable` | destination/writers.go:354-362 | whenever a thread enters Close, what `Parquet.Close` asks of its caller holds |
| `FullRefresh.ChunksHoldSource` | drivers/db2/internal/backfill.go:118-160 | chunk threads that read the key ranges of a split read the whole source, each row as often as it is there |
| `FullRefresh.RefreshDeliversSource` | drivers/abstract/backfill.go:46-96 | end to end: in every run of a backfill over a split table, once the chunk list is empty the destination holds its old rows plus every source row exactly once, if and only if no source row lies in a chunk named by an earlier backfill |
| `IncrementalRuns.AdvanceCovers` | drivers/abstract/incremental.go:187-197 | whatever the delivery order, no delivered record is past the new cursor, and the cursor moves if anything new was delivered |
| `IncrementalRuns.AdvanceIsMax` | drivers/abstract/incremental.go:187-197 | each cursor column ends at the largest value met in it, or where it was; NULL never moves it |
| `IncrementalRuns.AdvanceBounded` | drivers/abstract/incremental.go:187-197 | the cursor never runs ahead of a bound that no record exceeds |
| `IncrementalRuns.ThresholdSplits` | pkg/jdbc/jdbc.go:1549-1584 | a row is selected by exactly one of the backfill's threshold filter and the incremental condition, unless its primary value is at or below the cursor and its secondary value above it: then by neither |
| `IncrementalRuns.ReplayAfterCommit` | drivers/abstract/incremental.go:103-130 | metadata committed under the thread id of a cursor is recognised by a sync that starts from that cursor, and the committed cursor is adopted |
| `IncrementalRuns.AdoptIff` | drivers/abstract/incremental.go:103-130 | a cursor is adopted if and only if the metadata carries the thread id of the cursor started from and a value for every cursor column; without the id, or without a state, the sync reads on |
| `IncrementalRuns.FinishCarries` | drivers/abstract/incremental.go:95-101 | what an attempt commits: the thread id of the cursor it started from and, under the names of the cursor columns, the cursor it reached |
| `IncrementalRuns.NextInv` | drivers/abstract/incremental.go:69-146 | every step of sync, store, crash and source growth keeps the invariant, also a crash between the two writes of the state file and an attempt whose rows are all filtered out; the saved cursor does not move back |
| `IncrementalRuns.RunInv` | drivers/abstract/incremental.go:69-146 | hence it holds in every state of every run |
| `IncrementalRuns.CursorNeverBack` | types/state.go:169-189 | over whole histories the state file's cursor never moves back |
| `IncrementalRuns.FailResumes` | drivers/abstract/incremental.go:83-90 | where the next sync resumes after any failure: where the destination's metadata vouches for, or at the half-saved cursor if the crash fell between the two state writes and the primary value had moved |
| `IncrementalRuns.FailExtra` | drivers/abstract/incremental.go:83-90 | which rows in the table a crash makes the next sync read again: exactly those without primary value between the two secondary values, and only in that moment |
| `IncrementalRuns.DeliveredOnce` | drivers/abstract/incremental.go:69-146 | the logical table holds a row once if it passes the filter, the cursor reached has passed it and it is not late, and once more for every extra copy |
| `IncrementalRuns.RunDeliversOnce` | drivers/abstract/incremental.go:69-146 | the same of every state of every run with arbitrary source growth and crashes anywhere |
| `IncrementalRuns.ExactlyOnceIff` | drivers/abstract/incremental.go:69-146 | no row is there more often than it should be if and only if no crash fell between the two state writes with the primary value moved and such a row delivered; with one cursor column it holds outright |
| `IncrementalRuns.LateIff` | pkg/jdbc/jdbc.go:1459-1508 | a row is late exactly when it arrived at or behind the cursor reached, or an attempt that read before its arrival moved the cursor past it, and no failure has recovered it since |
| `IncrementalRuns.RecoversIff` | drivers/abstract/incremental.go:83-90 | exactly when a failure recovers a late row: it is read again after a crash between the two state writes, or the attempt that passed it had nothing to commit and was not saved |
| `IncrementalRuns.LateRowLost` | pkg/jdbc/jdbc.go:1459-1508 | a row that arrives at or behind the cursor reached is not delivered, as long as it is not recovered |
| `IncrementalExamples.LateRowExample` | pkg/jdbc/jdbc.go:1459-1508 | a run, built step by step: with the cursor at 5, a row that appears with value 3 is not delivered by the next sync |
| `IncrementalExamples.HalfSavedExample` | drivers/abstract/incremental.go:83-90 | a run, built step by step: the process ends when (5, 0) instead of (5, 7) is in the state file, and the next sync delivers a row a second time |
| `IncrementalExamples.SyncContinues` | destination/parquet/parquet.go:437-501 | from any state at rest a sync with one file goes through, request by request |
| `IncrementalRuns.OnTimeExactlyOnce` | drivers/abstract/incremental.go:69-146 | in runs whose rows arrive past the cursor, the table holds exactly the filtered source rows up to the cursor reached, each once, if and only if no crash had rows read again |
| `IncrementalRuns.SyncedTable` | destination/parquet/parquet.go:437-501 | in every run, when a sync has finished with the destination nothing is staged and the visible rows are the source rows up to the cursor it saves, but for late ones, and the extra copies |
| `IncrementalRuns.ReadCoversSource` | pkg/jdbc/jdbc.go:1459-1508 | a sync that reads leaves nothing it found behind its new cursor undelivered, but for what the filter drops |
| `IncrementalRuns.CheckpointIsVisible` | destination/parquet/parquet_2pc.go:214-226 | in every state of every run metadata.json carries a thread id only when everything in the table that was made under it is visible |
| `IncrementalRuns.CloseIsARun` | destination/parquet/parquet.go:437-501 | each request that `Parquet.Close` can make is a step of this machine |
| `StreamRuns.NextInv` | destination/parquet/parquet_2pc.go:86-133 | any number of stream writers under one mutex: every step, crashes included, keeps the account of commits |
| `StreamRuns.CommitsInOrder` | destination/parquet/parquet_2pc.go:86-133 | in every state of every run the logical table is the first one with every commit so far in commit order, whatever ids the commits carry |
| `StreamRuns.CommittedRowsOnce` | destination/parquet/parquet.go:437-501 | in every state of every run the table holds its first rows plus each commit's rows once; at rest these are the visible rows |
| `StreamRuns.FieldNotLost` | destination/parquet/parquet_2pc.go:240-272 | over any history a writer's committed checkpoint field survives the commits of all writers that leave the field alone |
| `StreamRuns.ChunkIdsNotLost` | destination/parquet/parquet_2pc.go:240-255 | the ids of completed backfill chunks survive every stream commit |
| `StreamRuns.CloseIsARun` | destination/parquet/parquet.go:437-501 | each request that `Parquet.Close` can make is a step of this machine |
| `LayoutHandOver.BackfillHandsOver` | destination/parquet/parquet_2pc.go:50-55 | a completed backfill leaves a bucket from which stream writers can start, and the table they see is the backfill's |
| `LayoutHandOver.BackfillStartsIncremental` | pkg/jdbc/jdbc.go:1547-1584 | a completed backfill with the threshold filter hands over to the incremental machine with its rows delivered; if no rows came since, the late ones are exactly those neither filter selects |
| `LayoutHandOver.RecoveryDiscards` | destination/parquet/parquet_2pc.go:58-83 | backfill recovery over directories without finish.json ends with every directory gone and keys directly below the root kept |
| `LayoutHandOver.StreamSurvivesBackfillIff` | destination/parquet/parquet_2pc.go:307-335 | a finished stream attempt survives a backfill's recovery if and only if what it staged below directories is already visible |
| `LayoutHandOver.PartitionedAttemptExample` | destination/parquet/parquet_2pc.go:64-71 | a finished stream attempt with one file in a partition directory loses the file to a backfill's recovery |
| `Upserts.EqualityDeletesOnce` | destination/iceberg/arrow-writer/writer.go:199-222 | each id that occurs in a partition enters its equality deletes exactly once |
| `Upserts.PositionDeletesSuperseded` | destination/iceberg/arrow-writer/writer.go:199-222 | a row is positionally deleted if and only if a later record of the same id follows in its partition |
| `Upserts.PositionDeletesOnce` | destination/iceberg/arrow-writer/writer.go:199-222 | no row is positionally deleted twice |
| `Upserts.LiveAfterCommit` | destination/iceberg/arrow-writer/writer.go:403-409 | what the Iceberg scan rule (a delete by equality hits older data only, a delete by position hits its row) makes of one commit |
| `Upserts.EqualityOldRows` | destination/iceberg/arrow-writer/writer.go:199-222 | an old row stays live if and only if its id was not created, updated, deleted or inserted in its partition |
| `Upserts.WrittenIsDeleted` | destination/iceberg/arrow-writer/writer.go:199-222 | an id is among a partition's equality deletes if and only if the partition took a create, update, delete or insert of it |
| `Upserts.EqualityNewRows` | destination/iceberg/arrow-writer/writer.go:199-222 | of the new rows exactly those are live that no later create, update, delete or insert of the same id and partition follows, and all backfill reads |
| `Upserts.EqualityLastWriteWins` | destination/iceberg/arrow-writer/writer.go:199-222 | after an equality-mode commit no partition has two live rows of one id |
| `Upserts.LatestExists` | destination/iceberg/arrow-writer/writer.go:199-222 | and each created, updated, deleted or inserted id has its newest record live |
| `Upserts.IndexedLastWriteWins` | destination/iceberg/arrow-writer/writer.go:234-256 | after a commit with positional delete files the index points at the one live row of every id if and only if every record that met an indexed id was looked up, stayed in that row's partition, and had been answered with what the index still holds |
| `Upserts.VectorLastWriteWins` | destination/iceberg/arrow-writer/writer.go:615-631 | after a commit with deletion vectors it does so if and only if every record that met an indexed id was looked up and the answers still hold, whatever stamps the vectors carry |
| `Upserts.MovedRowExample` | destination/iceberg/arrow-writer/writer.go:43-47 | an update that changes partition: a positional delete file misses the old row, a deletion vector does not |
| `Upserts.BlindCreateDuplicates` | destination/iceberg/arrow-writer/writer.go:234-256 | a create of an id the index already holds leaves two live rows |
| `Upserts.LookedUpStreams` | drivers/abstract/cdc.go:168-184 | the operation each change is written with; streams that resolve upserts, and every stream during the overlap window, always look up: with deletion vectors that suffices, with positional delete files partition stability is the condition left |
| `ArrowWriting.ArrowWriter.GetOrCreateWriter` | destination/iceberg/arrow-writer/writer.go:142-175 | opens a file only when the partition has none, and keeps every prediction made so far right |
| `ArrowWriting.ArrowWriter.ExtractRecord` | destination/iceberg/arrow-writer/writer.go:178-231 | logs the record at a location never used before, with what the shared index holds for its id at that moment |
| `ArrowWriting.ArrowWriter.TrackRecord` | destination/iceberg/arrow-writer/writer.go:199-256 | the partition's deletes and positions become those the log prescribes with the record in it; in equality mode c, u, d and i alike record the place and delete by id or, when the partition has written the id before, by position, while r deletes nothing; in the indexed modes u, d and i delete where the pending changes, else the shared index, have the id, r and c delete nothing, and the pending changes show the record at its place |
| `ArrowWriting.ArrowWriter.Write` | destination/iceberg/arrow-writer/writer.go:258-332 | takes the batch in order and leaves nothing buffered, whatever other threads commit to the shared index between its records |
| `ArrowWriting.ArrowWriter.WritePartition` | destination/iceberg/arrow-writer/writer.go:264-328 | writes one partition's rows and sends its deletes to delete files or to the vector queue, without moving a row |
| `ArrowWriting.ArrowWriter.CompleteWriters` | destination/iceberg/arrow-writer/writer.go:463-498 | closes every file; each partition's files hold exactly its logged records at their logged places |
| `ArrowWriting.ArrowWriter.EvolveSchema` | destination/iceberg/arrow-writer/writer.go:379-391 | closes every open file with all logged rows in place, moves no row and drops no pending index change |
| `ArrowWriting.ArrowWriter.Abort` | destination/iceberg/arrow-writer/writer.go:458-461 | drops the pending index changes: a later Close leaves the index as it was |
| `ArrowWriting.ArrowWriter.Close` | destination/iceberg/arrow-writer/writer.go:394-456 | files complete, trailing vector positions sent; the shared index, as other threads have left it by then, is overridden by the thread's pending changes, which are those of its log, and only when a snapshot was committed and the writer not aborted |
| `ArrowWriting.PredictionExact` | destination/iceberg/arrow-writer/writer.go:178-231 | in every state the location recorded for a record is where the record is or where the buffered data will put it |
| `ArrowWriting.ClosedEquality` | destination/iceberg/arrow-writer/writer.go:394-456 | the files of a closed equality-mode writer are exactly the specified commit |
| `ArrowWriting.ClosedIndexed` | destination/iceberg/arrow-writer/writer.go:394-456 | the same with positional delete files |
| `ArrowWriting.ClosedVectors` | destination/iceberg/arrow-writer/writer.go:394-456 | with deletion vectors the commit publishes vectors that name exactly the superseded places |
| `ArrowWriting.TableAfterOk` | destination/iceberg/arrow-writer/writer.go:394-456 | the committed table is well formed and holds the old rows and the logged ones |
| `ArrowWriting.EqualityWriterWins` | destination/iceberg/arrow-writer/writer.go:394-456 | after Close and commit in equality mode of creates, updates, deletes and inserts, whatever other threads have committed meanwhile, no partition has two live rows of one id, and every id written has its newest record live |
| `ArrowWriting.IndexedWriterExact` | destination/iceberg/arrow-writer/writer.go:394-456 | after Close and commit in the indexed modes, with table and index as other threads have left them by then, the index points at the one live row of every id if and only if records that met an indexed id were looked up, stayed in their partition (positional delete files only) and their answers still hold |
| `ArrowWriting.OneLiveRow` | destination/iceberg/arrow-writer/writer.go:234-256 | an exact index means one live row per id, at the indexed place |
| `ArrowWriting.StampOfRecord` | destination/iceberg/arrow-writer/writer.go:615-631 | the partition stamp of a file's vector is that of a record that superseded a row of the file |
| `WriterThreads.NextInv` | destination/writers.go:175-242 | threads that open, take records, commit and abort in any interleaving keep the account of answers: an answer still holds unless its id was overtaken |
| `WriterThreads.CurrentIffNotOvertaken` | types/stream_index_interface.go:47-58 | all answers of a thread still hold at its commit if and only if no other thread has committed one of its ids since this thread first met it |
| `WriterThreads.CommitExactIff` | destination/iceberg/arrow-writer/writer.go:394-456 | one commit among others leaves the index exact if and only if its hits are clean and none of its ids was overtaken |
| `WriterThreads.IndexStaysExact` | destination/iceberg/arrow-writer/writer.go:394-456 | over every interleaving of any number of threads, in any mix of the two indexed modes, the index is exact in all states if and only if all commits were such |
| `WriterThreads.DisjointThreads` | destination/iceberg/arrow-writer/writer.go:234-256 | threads that touch disjoint ids keep the index exact if and only if each of them alone looks up what it must and stays in its partition where that matters |
| `WriterThreads.EqualityThreads` | destination/iceberg/arrow-writer/writer.go:199-222 | over every interleaving of threads with equality deletes no partition ever has two live rows of one id |
| `WriterThreadsExample.TwoThreadsExample` | destination/iceberg/arrow-writer/writer.go:234-256 | a run, built step by step, in either indexed mode: two threads update one id, both hits are clean, and both new rows stay live |
| `VectorQueues.VectorQueue.Queue` | destination/iceberg/arrow-writer/writer.go:615-631 | every queued position is waiting or received, as often as it was queued; a file's stamp is that of the first writer to touch it, also across batches; nothing is sent below 100,000 waiting positions, everything from there on |
| `VectorQueues.FirstToucher` | destination/iceberg/arrow-writer/writer.go:615-631 | the stamp kept for a file is that of the first queued delete in it |
| `VectorQueues.VectorQueue.Send` | destination/iceberg/arrow-writer/writer.go:633-672 | one entry per file with all its positions and its stamp; afterwards nothing waits |
| `VectorQueues.SentIsPublished` | destination/iceberg/arrow-writer/writer.go:633-672 | once everything is sent, the vectors name exactly the queued places |
| `ByteCodec.UvarintRoundTrip` | pkg/indexdb/pebble.go:452-471 | an unsigned varint reads back as the value written, for every 64-bit value and whatever follows it |
| `ByteCodec.UvarintBytes` | pkg/indexdb/pebble.go:452-471 | the bytes of an unsigned varint: base 128, least significant first, the top bit on all but the last byte, no longer than needed |
| `ByteCodec.ReadsVarint` | pkg/indexdb/pebble.go:452-471 | a varint is read if and only if a last byte comes in time and the value fits 64 bits, and the value is that of the bytes up to it |
| `ByteCodec.VarintRoundTrip` | pkg/indexdb/pebble.go:226-230 | a snapshot id reads back as written, for every signed 64-bit value |
| `ByteCodec.Be64RoundTrip` | pkg/indexdb/pebble.go:446-450 | a file id reads back from its eight bytes |
| `ByteCodec.BeOrder` | pkg/indexdb/pebble.go:446-450 | the most significant byte comes first: file ids sort as bytes the way they sort as numbers |
| `ByteCodec.RowRoundTrip` | pkg/indexdb/pebble.go:452-471 | decoding inverts encoding for every file id and every position below 2^63 |
| `ByteCodec.RowBytes` | pkg/indexdb/pebble.go:452-471 | a row is the file id and the position, each an unsigned varint, in this order |
| `ByteCodec.PrefixEnd` | pkg/indexdb/pebble.go:480-492 | the carry loop computes the end of a prefix, and has none exactly for prefixes of 0xFF bytes only |
| `ByteCodec.PrefixRange` | pkg/indexdb/pebble.go:480-492 | the byte strings from a prefix up to its end are exactly those that start with it |
| `IndexStore.InterningInjective` | pkg/indexdb/pebble.go:314-358 | no two file ids stand for one path |
| `IndexStore.FindIsIndex` | pkg/indexdb/pebble.go:188-211 | on a store this code has written, a lookup is never corrupt and is a lookup in the plain map |
| `IndexStore.InternInvisible` | pkg/indexdb/pebble.go:332-354 | interning a path changes no row, no file already known and no checkpoint, and keeps the store sound |
| `IndexStore.CommitOverrides` | pkg/indexdb/pebble.go:213-243 | applying a staged batch is one override of the plain map together with the checkpoint |
| `IndexStore.OverriddenParts` | pkg/indexdb/pebble.go:213-243 | the view a batch asks for: the old rows with every change over them, and the batch's checkpoint if it has one |
| `IndexStore.TruncatedIsEmpty` | pkg/indexdb/pebble.go:279-305 | with every reserved key gone, the format marker alone is a sound empty index |
| `IndexStore.PebbleIndex.Lookup` | pkg/indexdb/pebble.go:188-211 | reads the store, right or corrupt, and keeps the caches inside it |
| `IndexStore.PebbleIndex.FilePath` | pkg/indexdb/pebble.go:376-395 | resolves a file id as the store does and caches it both ways |
| `IndexStore.PebbleIndex.FileID` | pkg/indexdb/pebble.go:314-358 | returns an id that names the path, below the counter, with nothing visible changed in any durable state on the way |
| `IndexStore.PebbleIndex.StageChange` | pkg/indexdb/pebble.go:245-259 | a negative position is refused; otherwise the batch holds a row that reads back as the change |
| `IndexStore.PebbleIndex.Commit` | pkg/indexdb/pebble.go:213-243 | success is the override with the checkpoint, failure changes nothing visible, and every durable state on the way is one of the two |
| `IndexStore.PebbleIndex.Truncate` | pkg/indexdb/pebble.go:279-305 | on any store: clears every row, file and metadata key and resets the counter, in one durable step |
| `IndexStore.PebbleIndex.Load` | pkg/indexdb/pebble.go:157-186 | an unknown format is discarded, a known one reopened with its view intact |
| `IndexRebuild.StreamIndexThread.Lookup` | types/stream_index_interface.go:50-58 | a thread reads through its buffer exactly what the index will hold after its commit |
| `IndexRebuild.Flush` | destination/iceberg/index.go:99-109 | makes the buffered rows durable without moving the checkpoint |
| `IndexRebuild.DrainBatch` | destination/iceberg/index.go:126-141 | one batch: the flushed rows overlaid with the buffer tell all that was scanned so far |
| `IndexRebuild.Drain` | destination/iceberg/index.go:90-143 | independent of flush boundaries an id ends in the index if and only if it was there or some entry of the scan names it, at the place of the last such entry, else where it was; the checkpoint moves only with the last flush, to the last batch's snapshot; a failed scan leaves this for a prefix of the batches |
| `IndexRebuild.FillTableIndex` | destination/iceberg/index.go:62-88 | the same, entry by entry, from an empty index when there is no snapshot to resume from |
| `IndexRebuild.Reconcile` | destination/iceberg/index.go:19-58 | nothing when up to date; else a fill from the checkpoint, if there is one, with every entry of the scan at its place |
| `IndexRebuild.RerunSame` | destination/iceberg/index.go:90-143 | a scan cut off after any batch and run again leaves what one scan leaves |
| `IndexRebuild.ResumedReconcile` | destination/iceberg/index.go:46-57 | a reconciliation cut off anywhere, also before it truncates, resumes from the same point and completes to the same view |
| `IndexRebuild.RescanIff` | destination/iceberg/index.go:90-143 | over another scan, leftovers of a cut-off one are harmless if and only if they agree with the starting rows wherever the second scan is silent |
| `IndexRebuild.InterruptedScansCover` | destination/iceberg/index.go:46-57 | after any number of cut-off scans from one checkpoint, the one that completes leaves every live row indexed where it is |
| `Chunking.BuildBound` | pkg/jdbc/jdbc.go:289-321 | the nested loops build one AND-group per column: the columns before it equal, the column itself compared |
| `Chunking.LowerBoundExact` | pkg/jdbc/jdbc.go:289-321 | the expanded lower bound holds for exactly the tuples not below the boundary, for any number of columns and boundary parts |
| `Chunking.UpperBoundExact` | pkg/jdbc/jdbc.go:289-321 | the expanded upper bound holds for exactly the tuples below the boundary when it has a part per column, else also for those that agree with it |
| `Chunking.SelectedExact` | pkg/jdbc/jdbc.go:323-335 | a chunk condition in terms of tuple order alone |
| `Chunking.FullTiles` | pkg/jdbc/jdbc.go:257-345 | over ascending boundaries with a part per column every key is selected by exactly one chunk |
| `Chunking.ShortOverlaps` | pkg/jdbc/jdbc.go:289-321 | a boundary with too few parts has a key selected by both chunks it separates |
| `Chunking.TilesIffFull` | pkg/jdbc/jdbc.go:257-345 | ascending boundaries tile all keys if and only if each has a part for every column |
| `Chunking.ExpandedIsRange` | pkg/jdbc/jdbc.go:1754-1786 | with a part per column the expanded condition and the row-value comparison of DB2 select the same keys |
| `NullKeys.UpperNull` | pkg/jdbc/jdbc.go:289-321 | the expanded upper bound lets a row through if and only if it is smaller in a column before its first NULL |
| `NullKeys.LowerNull` | pkg/jdbc/jdbc.go:289-321 | the expanded lower bound does so if and only if the boundary decides about the row before its first NULL and the row is not smaller |
| `NullKeys.UndecidedIsLost` | pkg/jdbc/jdbc.go:324-340 | a row that some boundary does not decide about is selected by no chunk |
| `NullKeys.NullTilesIff` | pkg/jdbc/jdbc.go:324-340 | a row is selected by exactly one chunk if and only if every boundary decides about it in a column before its first NULL, or it has none |
| `NullKeys.NullColumnExample` | drivers/db2/internal/backfill.go:44-46 | with one chunk column and at least one boundary, a row that is NULL there is read by no chunk |
| `BoundaryText.SplitBoundary` | pkg/jdbc/jdbc.go:270-280 | every part of the split text, trimmed, in order |
| `BoundaryText.SplitRejoins` | pkg/jdbc/jdbc.go:274-274 | no part of a split holds a comma, and the parts joined by commas are the text |
| `BoundaryText.TrimIsSlice` | pkg/jdbc/jdbc.go:275-277 | trimming gives the slice of the text with only white space before and after it, neither of whose ends is white space |
| `BoundaryText.SplitIff` | drivers/db2/internal/backfill.go:129-129 | the parts of a boundary come back from its text if and only if no value holds a comma |
| `BoundaryText.BoundaryIff` | pkg/jdbc/jdbc.go:270-280 | with trimming, if and only if besides no value begins or ends with space |
| `BoundaryText.CommaExample` | drivers/db2/internal/backfill.go:129-129 | a value with a comma shifts the columns of its boundary |
| `Db2Split.BuildArgs` | drivers/db2/internal/backfill.go:131-137 | the flat argument list: for each column the parts up to it |
| `Db2Split.ArgsFit` | drivers/db2/internal/backfill.go:131-137 | the list fills the query's placeholders if and only if the current key has a part per column |
| `Db2Split.WhereIsAfter` | pkg/jdbc/jdbc.go:1734-1749 | bound in order, the nested placeholders mean: strictly after the current key |
| `Db2Split.NextBoundary` | pkg/jdbc/jdbc.go:1713-1751 | the query returns the row `chunkSize` places into the rows after the current key, or none |
| `Db2Split.SplitViaPrimaryKey` | drivers/db2/internal/backfill.go:114-160 | terminates on every finite table, with or without repeated keys; the chunks are those between strictly ascending boundaries, the first being the smallest key |
| `Db2Split.SplitTiles` | drivers/db2/internal/backfill.go:114-160 | every key of the table's width, present or future, is in exactly one chunk of the split |
| `Db2Split.InnerChunkRows` | drivers/db2/internal/backfill.go:128-152 | with unique keys every inner chunk holds exactly chunkSize + 1 rows, the first none, the last at most that many |
| `Db2Split.SplitViaRid` | drivers/db2/internal/backfill.go:163-196 | whatever the floating-point rounding does, terminates with adjoining non-empty ranges from the first to the last row id, all but the last one interval long; at most one more than asked for when the intervals reach; no value computed exceeds the last row id by more than an interval |
| `Db2Split.RidShare` | drivers/db2/internal/backfill.go:176-190 | with exact rounding: a chunk is given as many pages as one Parquet file needs and no more, the chunks are as many as share out the table's pages that way, and an interval less one row id stands for fewer pages than a chunk is given |
| `Db2Split.RidTiles` | drivers/db2/internal/backfill.go:189-193 | adjoining ranges hold every row id in between exactly once |
| `Db2Split.IntervalReaches` | drivers/db2/internal/backfill.go:186-187 | with exact rounding the intervals reach |
| `WriterPool.WriterThread.Push` | destination/writers.go:244-271 | counts the record on both sides and buffers it or, at the batch size or the byte limit, hands the whole buffer to the flush group; refused once cancelled or failed, with nothing counted |
| `WriterPool.WriterThread.RunFlush` | destination/writers.go:273-317 | the oldest batch leaves the queue and is written, or the thread has failed; filtered records are counted on both sides even when the write then fails, and not when flattening does |
| `WriterPool.WriterThread.RollbackStats` | destination/writers.go:323-327 | withdraws exactly this thread's counts |
| `WriterPool.WriterThread.Close` | destination/writers.go:329-385 | commits if and only if it returns no error on a live context, having written all that was pushed, in order, in batches of allowed size of which only the last may be short; in every other case exactly the thread's counts are withdrawn |
| `WriterPool.ThreadStep` | destination/writers.go:244-385 | every step keeps: batches plus buffer are what was pushed, no batch is empty or longer than the batch size, and every batch handed over before Close reaches the batch size or the byte limit |
| `WriterPool.StepMovesShare` | destination/writers.go:244-385 | every step moves the shared statistics exactly as it moves its thread's share |
| `WriterPool.CommittedThread` | destination/writers.go:329-385 | a committed thread's batches concatenate to the pushed records, all but the last reach the batch size or the byte limit, and filtered plus kept is pushed |
| `WriterPool.StatsConserved` | destination/writers.go:244-385 | over every interleaving of all threads the statistics are the sum of what open, closing and committed threads count, and once all have finished of the committed ones only; batches handed over before Close are full |
| `TypeLattice.LowestCommonAncestor` | types/type_schema.go:290-322 | the loop computes the weight-guided search |
| `TypeLattice.LowestIsLeast` | types/type_schema.go:290-322 | on every tree ordered by weight the search returns the least common ancestor |
| `TypeLattice.TypecastTree` | types/type_schema.go:254-283 | the typecast tree is ordered by weight and holds the ten weighted types |
| `TypeLattice.JoinIsLeast` | types/type_schema.go:286-288 | the common ancestor of two weighted types is their least upper bound |
| `TypeLattice.JoinLiteral` | types/type_schema.go:255-309 | the whole table of joins: time types to the finer one in the order second, milli, micro, nano, number types to the narrowest that holds both, all others to string |
| `TypeLattice.JoinSelfIff` | types/type_schema.go:304-307 | the join of a type with itself is that type if and only if the type is in the weight table |
| `TypeLattice.JoinCommutes` | types/type_schema.go:286-288 | the join commutes, for all types |
| `TypeLattice.JoinAssociates` | types/type_schema.go:286-288 | the join associates, for all types |
| `TypeLattice.JoinAnyOrder` | types/type_schema.go:230-234 | the join of many types does not depend on their order |
| `SchemaFields.PropertyType` | types/type_schema.go:215-236 | for every enumeration of a type set the result is the join of its non-null types, or null |
| `SchemaFields.GetType` | utils/typeutils/fields.go:152-175 | the cached type, or the fold in any map order, is the join of the occurrences |
| `SchemaFields.ProcessColumn` | utils/typeutils/fields.go:83-93 | an existing column keeps the types of its history; a type change is reported exactly when its type changes |
| `SchemaFields.MergeFields` | utils/typeutils/fields.go:14-23 | columns in both are merged, others taken over |
| `SchemaFields.Fields.Process` | utils/typeutils/fields.go:76-101 | every column's history grows by the record's value and no other changes; the two change flags and the mutations, each a fresh column of the record's type, are reported exactly |
| `SchemaFields.ColumnType` | utils/typeutils/fields.go:76-101 | a column's type is the join of its first type and every non-null type after it |
| `SchemaFields.AnyRecordOrder` | utils/typeutils/fields.go:76-101 | columns that do not start with null have the join of all non-null types seen, in any record order |
| `SchemaFields.MergedBatches` | utils/typeutils/fields.go:14-23 | separately discovered and merged columns have the type of all records together |
| `SchemaFields.OnlyWidens` | utils/typeutils/fields.go:76-101 | column types only widen |
| `SchemaFields.NullFirstIff` | utils/typeutils/fields.go:95-98 | a column has the join of its non-null types if and only if it did not start with null or that join is already string |
| `SchemaFields.NullFirstExample` | utils/typeutils/fields.go:95-98 | an integer column whose first value is null is typed string |
| `IcebergSchema.IceJoinTable` | destination/iceberg/iceberg.go:615-625 | the whole table of joins of Iceberg type names |
| `IcebergSchema.ValidTable` | destination/iceberg/iceberg.go:523-534 | which record types each column type takes, in full |
| `IcebergSchema.PromotedAccepts` | destination/iceberg/iceberg.go:42-56 | what was valid for a type stays valid after its promotion and needs no further one |
| `IcebergSchema.FinalTypeAccepts` | destination/iceberg/iceberg.go:269-314 | every value of a batch that passes is a valid transition for its column's final type |
| `IcebergSchema.ThreadColumnStays` | destination/iceberg/iceberg.go:279-297 | an existing column ends at its type or, if any value asks for it, at its promotion |
| `IcebergSchema.NewColumnIsJoin` | destination/iceberg/iceberg.go:298-311 | a new column ends at the join of its values |
| `IcebergSchema.NewColumnAnyOrder` | destination/iceberg/iceberg.go:298-311 | in any order of the batch |
| `IcebergSchema.ThreadColumnAnyOrder` | destination/iceberg/iceberg.go:279-297 | the same for existing columns |
| `IcebergSchema.FloatOrderExample` | destination/iceberg/iceberg.go:279-297 | whether a batch passes can depend on order: a float column takes an int only after a double |
| `IcebergSchema.PassesAnyOrderIff` | destination/iceberg/iceberg.go:279-297 | a batch passes in every order if and only if every value is valid for the thread schema's own type |
| `IcebergSchema.PassesIffValid` | destination/iceberg/iceberg.go:279-297 | for every column type but float a batch passes if and only if every value is valid for the type itself, in whatever order |
| `IcebergSchema.Detect` | destination/iceberg/iceberg.go:269-314 | first pass on a record, values in any order: no change exactly when every value fits; otherwise a reason; nulls removed |
| `IcebergSchema.UpdateKey` | destination/iceberg/iceberg.go:279-311 | second pass on one value: accepted exactly when valid, and only its column evolves |
| `IcebergSchema.Update` | destination/iceberg/iceberg.go:269-314 | second pass on a record, values in any order: passes exactly when every value is accepted, each column evolves by its value |
| `IcebergSchema.NoChangeIsIdentity` | destination/iceberg/iceberg.go:328-342 | if the first pass reports no change on any record the second pass would leave the schema identical |
| `IcebergSchema.ChangeIsReal` | destination/iceberg/iceberg.go:328-352 | a reported change does change the schema |
| `IcebergSchema.RefusalIsReal` | destination/iceberg/iceberg.go:345-351 | a refused batch holds a value that the thread schema itself refuses |
| `IcebergSchema.FirstPass` | destination/iceberg/iceberg.go:319-341 | the concurrent pass, with records skipped once a change is seen |
| `IcebergSchema.SecondPass` | destination/iceberg/iceberg.go:344-352 | the ordered pass evolves each column by its values |
| `IcebergSchema.ExtractSchema` | destination/iceberg/iceberg.go:266-355 | on success every existing column is promoted int to long or float to double exactly when a value asks for it, new columns get the narrowest type of their values, changed is reported exactly when one of these occurs, and all nulls are gone; an error names a refused value |
| `IcebergSchema.ExtractedAccepts` | destination/iceberg/iceberg.go:266-355 | after success every value of the batch is a valid transition for the resulting schema, and existing columns keep their type or its promotion |
| `IcebergSchema.ExtractedExisting` | destination/iceberg/iceberg.go:279-297 | an existing column becomes long if it was int and some value of it is a 64-bit integer, double if it was float and some value is a 64-bit float, and else keeps its type |
| `IcebergSchema.ExtractedNew` | destination/iceberg/iceberg.go:298-311 | a column is new exactly when some non-null value names it, with the narrowest type that takes all its values |
| `IcebergSchema.ExtractedChanges` | destination/iceberg/iceberg.go:328-352 | the schema differs exactly when a column is new or one of the two promotions occurs |

## Left out

- Upserts.EqualityLastWriteWins: assumes every record of the batch has operation c, u, d or i; records with operation r are written without deletes, as the code does, and what then stays live is stated exactly by EqualityOldRows and EqualityNewRows.
- TwoPhaseCommit.Parquet.CommitMetadata: the list of committed ids is modelled as a set, so its order and the repetition check on it are not.
- TwoPhaseCommit.Parquet.RecoverSharedStaging: a full-refresh marker at the shared finish key is refused, where the code would parse it as an empty state; no writer puts one there.
- IndexStore.PebbleIndex.Commit: file ids stay below 2^64; the wrap-around of the counter is not modelled. Corrupt stored values are modelled for Lookup and Load only.
- Db2Split.SplitViaRid: integers are unbounded; 64-bit arithmetic agrees as long as the last row id plus one interval fits.
- Db2Split.SplitViaPrimaryKey: keys are tuples of ordered values without NULL; the text they travel in is covered by BoundaryText alone, NULL by NullKeys, and the computation of the chunk size is left out.
- SchemaFields.Fields.Process: the returned mutations are values; that the code shares new field objects between the mutations and the field set is not captured.
- IndexRebuild.Reconcile: the rewrite of equality deletes on the server is only its success or failure.
- ArrowWriting.ArrowWriter.Write: requests to the server succeed; a failed one ends the attempt, which is then aborted.
- Local (non-S3) Parquet output: it has no two-phase protocol.
- JSON, hashing, timestamps, retries with backoff, timeouts, and the directory-marker objects of a bucket console.
- Streams in full-refresh mode, for which no chunk list is kept in the state file, and the merging of backfill with change streams.
- The Java server, its gRPC protocol and the legacy Iceberg writer: only fresh file paths, atomic commits and scans are used.
- The operation column written with a record.
- The ThreadCount statistic, which is not conserved by design of Close.
- Change-stream readers, catalog handling, command line, telemetry and the other drivers' chunk queries: they would add easier members only.
