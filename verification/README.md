# AscentDB in Dafny

A model of the AscentDB storage engine and proofs about it: that a skiplist memtable, block-indexed
table files, levelled versions, a k-way merge and two kinds of log together behave like one set of
records `(user key, sequence number, type, value)`, in which a reader at a bound sees, of each key,
the newest version not beyond that bound.

The project has two halves.

* **Values.** `Lsm.dfy` is the engine as a state machine whose steps are single writes, rotations,
  flushes, and the start and the finish of a compaction. `LsmRuns`, `LsmReads`, `LsmScans`,
  `LsmCompaction`, `LsmGuards` and `LsmRecovery` prove what every run of those steps keeps, what
  readers see, where reads are right and where they are not, and what one crash leaves.
  `Schedule.dfy` adds the scheduler and its pointers to such runs; `GroupCommit.dfy` is the log's
  committer as a second state machine.
* **Objects.** The code's own structures are classes with the code's fields and loops: the skiplist,
  the memtable and its iterator, table writer, reader and iterator, filter, block cache, merge heap,
  scan iterator, version set and manifest, logs, snapshot list, the output writer of a compaction.
  Each is proved against a function of what was put into it. `Engine.dfy` holds them together: its
  ghost field `abs` is a state of the state machine, `Valid` ties every file, log, memtable and
  counter to it, and each operation is proved to take `abs` through exactly one step (or to return
  what the state says). `Engines.Reopen` starts from the bytes alone.

The main results are `LsmRuns.EveryRun`, `LsmGuards.GetFindsAllIffSorted`, `LsmGuards.FindsIff`,
`LsmGuards.TidyReadsAreRight`, `LsmScans.ScanIsComplete`, `LsmCompaction.FinishSnapshotIff`,
`LsmRecovery.RecoveryKeepsAllIff`, `Manifests.ReplayAgrees`, `Wals.PrefixReplay`,
`GroupCommits.AnsweredSurvivesCrash`, `GroupCommits.CommitterFinishes`, `Schedules.StuckForGood`,
`TableWriters.FileIsDetermined`, `TableReaders.TableReader.Get`, `Skiplists.Skiplist.Insert`,
`CompactionMerges.WriteCompactionOutput`, and the methods of `Engines.Engine`.

Parameters stand for what the model does not compute: the CRC and the hash of the filter are
arbitrary functions (`TableImage.Env`), the height of a skiplist tower is any number from one to the
maximum, a file is the sequence of its bytes, and the log directory is a map from names to bytes.
In the state machine a table's file size is arbitrary; the methods of the engine put the true one in.

## Findings

Where the code does less than one would expect of it, the model does what the code does, and the
exact condition under which the expectation holds is proved. Each row names the member that gives an
input and the one that gives the condition.

| place | what happens | input | exactly when it does not |
|---|---|---|---|
| internal/meta/version_set.go:87-90, internal/engine/read.go:141 | `apply` appends tables to a level and never sorts it, while `get` searches levels by halves: after writing and compacting `m` and then `a`, `get` no longer finds `m` | `Counterexamples.UnsortedLevelMisses` | `LsmGuards.GetFindsAllIffSorted`, `LsmGuards.FinishedIsSortedIff`; for each key and bound: `LsmGuards.FindsIff` |
| internal/engine/flusher.go:26-27, 166-169 | a rotation while a flush is pending hides the older memtable from readers, and every flush clears the field of a newer one | `Counterexamples.SecondRotationHides` | `LsmGuards.RotateHidesNothingIff`, `LsmGuards.FlushShowsAllIff` |
| internal/engine/compactor.go:193-196 | only the newest version of a key survives a compaction, whatever snapshots exist: a snapshot loses its version, or sees a deleted key again | `Counterexamples.SnapshotIsLost`, `Counterexamples.DeletedKeyReturns` | `LsmCompaction.FinishSnapshotIff` |
| internal/engine/flusher.go:139 | `LastSequence` is the number of the last key, not the greatest number: after the logs are gone it may be too small | `Counterexamples.LastKeyIsNotNewest` | `LsmRecovery.LastSequenceIff`; whether the recovered engine may go on: `LsmRecovery.RecoveredGoesOnIff` |
| internal/engine/helpers.go:11, internal/sstable/reader.go:65 | a table's number is scanned from its name six digits wide: from a million on, different tables share their cached blocks | `Collisions.SecondTableReadsTheFirst` | `FileNames.TableNumberIff`, `FileNames.DistinctBelowIff` |
| internal/engine/recover.go:39-42 | the same scan skips a log whose number is a million or more: its records are not replayed | `FileNames.LogNumberIff` | `LsmRecovery.RecoveryKeepsAllIff` |
| internal/engine/compactor.go:61, 255-257 | the compaction pointer is appended to, not replaced, and never starts over: once no table of a level that is due starts after it, the level is compacted again and again, each time with nothing picked, until level 0 is due (`Schedules.StuckForGood`, `Schedules.StuckGoesOn`) | `Counterexamples.PointerPasses` | `Pickers.PickStartsAfterPointer` |
| internal/meta/version_set.go:158-167 | removing a table from a level slices out of range | `Counterexamples.RepeatedTableFails` | `Versions.InPlaceFails` |
| internal/meta/version.go:21-61, internal/meta/version_set.go:94-156 | an edit is encoded additions first, while `apply` deletes first | an edit that deletes what it adds | `Manifests.OrderMatters` |
| internal/record/record.go:81-159 | lengths are written as 32 bits | a key or value of 2^32 bytes or more | `Records.RecordRoundTrip` |

Two more choices of the code show in the model without a theorem of their own: a new manifest starts
the file numbers at one but a replayed one starts them at zero (internal/meta/manifest.go:20-70), and
`Open` always makes seven levels whatever the options say, so the number of levels is a parameter
here.

## Model

| member | source | states |
|---|---|---|
| Records.CompareIsBefore | internal/record/internal_key.go:27-38 | the sign of the key comparison is the order "user key ascending, then sequence number descending", and it is zero exactly for one version of one user key, whatever the types |
| Records.BeforeIsOrder | internal/record/internal_key.go:27-38 | that order is a strict total order on (user key, sequence number) |
| Records.RecordRoundTrip | internal/record/record.go:81-159 | decoding an encoded record gives it back if and only if both its lengths fit 32 bits |
| Records.TruncatedRecordRejected | internal/record/record.go:105-159 | no proper prefix of an encoded record decodes |
| Runs.FindIsNewest | internal/memtable/skiplist.go:80-97 | in a sorted run, the first record at or after (key, bound), if it has that user key, is the newest version not beyond the bound; otherwise there is none |
| Runs.ProbeIsLeast | internal/sstable/reader.go:145-149 | the search by halves ends at the least index from which a monotone predicate holds |
| Runs.ProbeEndsIff | internal/engine/read.go:141-143 | on any predicate, monotone or not, the search ends at a position exactly when every position that halving looks at on the way there is answered by its side of it |
| Runs.Search | internal/engine/read.go:141-143 | the loop ends there, has looked at exactly those positions, in that order, and at no more than the logarithm of their number and one |
| Runs.KeyFoundIff | internal/engine/read.go:141-143 | over distinct keys in any order, a key is found at its position exactly when it is on the right side of every key that halving passes on the way |
| Runs.SearchFindsAllIffSorted | internal/engine/read.go:141-143 | over distinct keys, the search by halves finds every key at its own position if and only if the keys are sorted |
| Skiplists.Skiplist.Insert | internal/memtable/skiplist.go:42-78 | for every tower height, all links of all levels again lead to the next tower that reaches the level, the nodes stay in order, and the records are the old ones with the new one inserted in order and before any equal key |
| Skiplists.Skiplist.Search | internal/memtable/skiplist.go:80-97 | finds what linear search over the records finds, and tells tombstones apart |
| Memtables.Memtable.Put | internal/memtable/memtable.go:33-40 | the records gain the new one in order, and the size stays the sum of the records' sizes |
| Memtables.MemtableIterator.Seek | internal/memtable/iterator.go:46-54 | afterwards exactly the records at or after the target remain, wherever the iterator stood |
| Memtables.MemtableIterator.Next | internal/memtable/iterator.go:19-24 | one record fewer remains; at the end nothing changes |
| Frames.FramesRoundTrip | internal/sstable/block.go:14-53 | items written behind their sizes are read back in order, wherever the frames stand in the buffer |
| TableFormat.BlockRoundTrip | internal/sstable/block.go:14-53 | a block decodes to its records, for any checksum function |
| TableFormat.IndexRoundTrip | internal/sstable/index.go:20-109 | an index block decodes to its entries |
| TableFormat.FooterRoundTrip | internal/sstable/footer.go:19-71 | a footer decodes to itself |
| Filters.FilterRoundTrip | internal/sstable/filter.go:70-113 | a filter survives encoding and decoding |
| Filters.AddedAreContained | internal/sstable/filter.go:34-54 | an added key is contained, and so is every key that was: no false negatives, for any hash |
| Filters.Filter.Contains | internal/sstable/filter.go:44-54 | the loop over the hashes answers as the filter's meaning says |
| Filters.Filter.Add | internal/sstable/filter.go:34-42 | exactly the bits that the key probes are set, and no other bit changes |
| TableWriters.TableWriter.Add | internal/sstable/writer.go:40-54 | the records added grow by one, while the file stays the flushed blocks, each of which reached the block size at its last record and not before, the open block has not reached it, the index describes the blocks byte for byte, the running sizes count what they stand for, and the filter has the keys of exactly the records added |
| TableWriters.TableWriter.Close | internal/sstable/writer.go:90-141 | the finished file is the image of blocks that hold exactly the records added, in order, each but the last ended where it reached the block size, with their index, a filter of exactly their keys, and the footer; the size returned is the file's |
| TableWriters.FileIsDetermined | internal/sstable/writer.go:40-141 | two files of the same records under the same options are equal, byte for byte |
| Cuts.CutIsUnique | internal/sstable/writer.go:49-51 | there is one way only to cut given records into parts that each end where they first reach a limit, the last one perhaps before |
| TableImage.ImageParses | internal/sstable/reader.go:22-61 | reading from the footer of such a file recovers its index and its filter |
| TableImage.BlockBytes | internal/sstable/writer.go:64-88 | the (offset, size) of every index entry is the range of exactly its block's bytes |
| TableReaders.FindByBlock | internal/sstable/reader.go:79-105 | the search over the separators and the one inside the block together are one linear search over all the table's records |
| TableReaders.TableReader.Get | internal/sstable/reader.go:79-105 | through filter, cache and both searches, the answer is the first record at or after the key if it has the same user key, as linear search over everything added would give; one block is fetched for it, and none if the filter excludes the key or no block reaches it |
| TableReaders.TableReader.Open | internal/sstable/reader.go:22-77 | opens exactly the files that parse; the number blocks are cached under is the one scanned from the name |
| TableReaders.TableReader.ReadBlock | internal/sstable/reader.go:111-131 | a cached block is returned as it is, any other is decoded from the file's bytes and cached, nothing else enters the cache, and its key becomes the most recent |
| TableReaders.TableReader.FetchBlock | internal/sstable/reader.go:111-131 | as long as every cached block is what its table's file holds, the block returned is too, and the cache stays so |
| TableReaders.CatalogGrows | internal/sstable/block_cache.go:53-84 | a table under a number never used before leaves the cache right |
| BlockCaches.LRU.Set | internal/sstable/block_cache.go:63-84 | map and list keep the same keys, once each, within capacity; the key comes to the front, the least recently used one falls off |
| BlockCaches.TouchedIsRecent | internal/sstable/block_cache.go:53-84 | touching the truncated list is truncating the touched list: the cache holds the most recently touched keys of its whole history |
| TableIterators.SSTableIterator.Seek | internal/sstable/iterator.go:47-63 | afterwards exactly the table's records at or after the target remain, across block boundaries |
| TableIterators.SSTableIterator.Next | internal/sstable/iterator.go:27-35 | the first remaining record is passed, loading the next block when one ends |
| FileNames.TableNumberIff | internal/sstable/reader.go:63-65 | the number scanned from a table's name is its six leading digits, which is the number itself if and only if it is below a million |
| FileNames.LogNumberIff | internal/engine/recover.go:38-43 | a log's name scans to its number below a million, and is passed over from there on |
| FileNames.DistinctBelowIff | internal/sstable/reader.go:63-76 | among the numbers below a limit no two tables are taken for one another if and only if the limit is at most a million |
| FileNames.NamesDistinct | internal/engine/helpers.go:9-22 | no two numbers make the same file name |
| Collisions.SecondTableReadsTheFirst | internal/sstable/reader.go:63-131 | tables 1000000 and 1000001 behind one cache: once the first block of one has been read, it is read as that of the other, whatever they hold |
| IteratorHeaps.NewIteratorHeap | internal/iterator_heap.go:49-71 | the heap holds exactly what the sources have left, in heap order |
| IteratorHeaps.IteratorHeap.PopAndAdvance | internal/iterator_heap.go:84-102 | yields a record that nothing still to come is before, loses exactly that one, and keeps heap order and each item at its iterator's current record |
| ScanIterators.Drain | internal/engine/iterator.go:44-100 | collecting a scan to its end gives each visible key below the end once, in order, with the newest version not beyond the bound, and no other |
| ScanIterators.ScanIsUnique | internal/engine/iterator.go:67-100 | there is only one such answer |
| Versions.FindOverlapping | internal/meta/overlap.go:5-17 | the tables that meet the range, in their order |
| Versions.KeyRangeOf | internal/meta/overlap.go:19-37 | the least first key and the greatest last key among the tables, both reached; both empty for no tables |
| Versions.RetainedMissHull | internal/meta/overlap.go:5-37 | a table of the next level that the overlap test leaves lies wholly to one side of all inputs and all overlapping tables together |
| Versions.RemoveFromLevel | internal/meta/version_set.go:158-167 | the removal loop over the shared slice, stale tail included, does what its specification says or slices out of range |
| Versions.InPlaceFails | internal/meta/version_set.go:158-167 | it slices out of range if and only if the last table of the level has the number and an earlier one has it too |
| Manifests.UvarintRoundTrip | internal/meta/version.go:21-61 | a varint is read back, wherever it stands |
| Manifests.TableRoundTrip | internal/meta/table_meta.go:24-92 | a table's metadata survives encoding and decoding |
| Manifests.DeleteRoundTrip | internal/meta/table_meta.go:94-109 | a deletion survives encoding and decoding |
| Manifests.OrderMatters | internal/meta/version_set.go:67-92 | adding before deleting and deleting before adding give the same levels if and only if the edit deletes nothing that it adds |
| Manifests.ReplayAgrees | internal/meta/version_set.go:94-156 | replaying the encodings of any sequence of edits gives the levels that applying them one by one gives, in the same order, and the counters last logged |
| Manifests.VersionSet.LogAndApply | internal/meta/version_set.go:22-42 | the manifest gains the edit's encoding and the levels are the edit applied, so that the manifest always means the current version |
| Manifests.VersionSet.Replay | internal/meta/version_set.go:94-156 | the tag loop computes replay's meaning, or fails when the bytes have none |
| Manifests.VersionSet.Open | internal/meta/manifest.go:20-52 | on the bytes of a manifest, the version set is again what its edits mean |
| Wals.EncodeRecords | internal/wal/wal.go:267-291 | one buffer of the exact size, filled at a moving offset with the frames in order |
| Wals.PrefixReplay | internal/wal/wal.go:71-133 | of every prefix of a log, replay delivers exactly the records whose frames are complete, in order, and reports no error if and only if the cut is on a frame boundary |
| Wals.DamageEndsReplay | internal/wal/wal.go:71-133 | a frame behind good ones is delivered, and replay goes on behind it, exactly when its checksum is its payload's and the payload is a record; otherwise replay ends there with an error and exactly the records before it |
| GroupCommits.CommitsInOrder | internal/wal/wal.go:148-265 | in every run of submitters and committer the channel stays within its capacity and the file is the sent buffers in order, each once; what is answered is synced; when the committer has stopped everything sent is written, synced and answered |
| GroupCommits.AnsweredSurvivesCrash | internal/wal/wal.go:173-265 | whatever part of the file beyond the synced one a crash leaves, replay delivers every answered record, in order, and beyond them only records sent next |
| GroupCommits.CommitterFinishes | internal/wal/wal.go:173-219 | in every state of every run the committer, left to itself, can go on for an exactly known number of steps and no longer, after which everything sent has been written, synced and answered, and it has stopped if the log is closed |
| Collapses.CollapseAscends | internal/engine/compactor.go:189-228 | the records written have strictly increasing, non-empty user keys and are all among the merged ones |
| Collapses.CollapseKeepsNewest | internal/engine/compactor.go:189-228 | they are exactly the newest version of each non-empty user key, without the tombstones that the bottom level may drop |
| CompactionMerges.WriteCompactionOutput | internal/engine/compactor.go:136-243 | the loop drains the merge of all inputs in order; its tables concatenate to the collapse of it, each but the last ended at the record where it reached the maximal size, each non-empty with its true first and last key, numbered one after another, and each file is what the table options make of its run |
| TableSets.Pick.LeftSharesNothing | internal/engine/compactor.go:65-67 | what the overlap test leaves in the next level shares no key with anything merged |
| TableSets.Pick.OutputIsDisjoint | internal/engine/compactor.go:55-113 | the level written to keeps pairwise disjoint ranges, wherever the output was cut |
| Layers.MergeKeepsShown | internal/engine/compactor.go:189-228 | a reader whose bound does not split the merged versions of a key is shown the same before and after, dropped tombstones included |
| Layers.ShownKeptIff | internal/engine/compactor.go:189-228 | what a reader is shown stays the same if and only if its bound does not split the merged versions, or it was shown nothing and the layers beneath would show it nothing |
| Lsm.WriteIsRead | internal/engine/write.go:23-69 | the key written reads as written, every other key as before |
| Lsm.RotateKeepsInv | internal/engine/flusher.go:25-84 | a rotation keeps the invariant and every record |
| Lsm.FlushKeepsInv | internal/engine/flusher.go:95-180 | a flush keeps the invariant and leaves the stack of layers as it was |
| LsmCompaction.FinishKeepsInv | internal/engine/compactor.go:48-134 | a finished compaction keeps the invariant: levels disjoint, numbers unique, tables truthfully described, and every layer newer than those beneath it |
| LsmCompaction.FinishKeepsReads | internal/engine/compactor.go:48-134 | a reader whose bound does not split the merged versions sees no difference |
| LsmCompaction.FinishKeepsLatest | internal/engine/compactor.go:48-134 | the latest value or absence of every key survives every compaction |
| LsmCompaction.FinishSnapshotIff | internal/engine/compactor.go:193-206 | into any level, a reader at a bound is shown the same afterwards if and only if the bound does not split the merged versions, or it was shown nothing and the levels under the output would show it nothing |
| LsmCompaction.FinishVersionIff | internal/engine/compactor.go:193-206 | into any level but the last, the version found, tombstone or not, stays if and only if the bound does not split the merged versions |
| LsmCompaction.TombstoneStaysIff | internal/engine/compactor.go:188-201 | a tombstone is written exactly when it is the newest merged version of its key and the output is not the last level or some live snapshot is no newer than it |
| LsmRuns.EveryRun | internal/engine/write.go:23-69 | after any run of writes, deletes, rotations, flushes and compactions the invariant holds, and the latest value of every key over memtable, pending flushes and all levels is the one the writes alone leave |
| LsmReads.SortedLevelIsSearched | internal/engine/read.go:137-147 | on a sorted level of disjoint tables the one table that the search arrives at has the newest visible version, even when that skips a table holding only too new versions of the key |
| LsmReads.GetIsNewest | internal/engine/read.go:75-165 | while the levels below the first are sorted, get returns the newest version not beyond the bound among everything readers see: stopping at the first level with a hit is sound |
| LsmGuards.GetFindsIff | internal/engine/read.go:137-147 | on levels in any order, when a table of a deeper level holds the newest visible version, get finds it exactly when the keys that halving passes on the way to that table lead there |
| LsmGuards.LastKeyFoundIff | internal/engine/read.go:137-147 | of an unsorted level exactly those last keys are found that are on the right side of every key passed |
| LsmGuards.FindsIff | internal/engine/read.go:75-165 | in every state, for every key and bound, get is right exactly when the way to the table that holds the newest visible version, if one does, is clear |
| LsmGuards.GetFindsAllIffSorted | internal/engine/read.go:75-165 | get does so for every key and every bound if and only if those levels are sorted |
| LsmGuards.FinishedIsSortedIff | internal/meta/version_set.go:87-90 | after a compaction sorted levels are still sorted if and only if the outputs come after every table that stays in their level |
| LsmGuards.TidyRunStaysSorted | internal/meta/version_set.go:67-92 | in every run the levels stay sorted as long as every compaction appends in order |
| LsmGuards.SeenIsAllIff | internal/engine/read.go:81-97 | readers see every record if and only if at most one flush is pending and its memtable is still the immutable one |
| LsmGuards.RotateHidesNothingIff | internal/engine/flusher.go:25-27 | a rotation hides nothing if and only if no flush is pending |
| LsmGuards.FlushShowsAllIff | internal/engine/flusher.go:162-169 | after a flush readers see everything if and only if it was the only one pending |
| LsmGuards.CalmReadsAreRight | internal/engine/read.go:75-165 | in a run that rotates only when no flush is pending, while the levels are sorted, get returns what was written last |
| LsmGuards.TidyReadsAreRight | internal/engine/read.go:75-165 | the same from the steps of the run alone, when every compaction appends in order |
| LsmScans.ScanIsComplete | internal/engine/read.go:26-73 | a drained scan is the complete answer for its range, sorted levels or not: skipping tables outside the range and seeking in the others loses nothing |
| LsmScans.GetAgreesWithScan | internal/engine/read.go:26-165 | on sorted levels a key is in the answer of a scan exactly when get finds it, with the same value |
| LsmRecovery.EveryRunIsLogged | internal/engine/write.go:45-66 | in every run each memtable, rotated or not, has a live log of exactly its records, numbered upwards through the logs |
| LsmRecovery.RecoveryKeepsAllIff | internal/engine/recover.go:48-79 | after a crash between steps, or in a flush before its log is removed, replaying the logs over the logged version gives exactly the records there were if and only if no log that matters is numbered a million or more |
| LsmRecovery.RecoveredRun | internal/engine/recover.go:15-82 | then, wherever in a run the crash came, the contents are those that the writes before it left |
| LsmRecovery.RecoveredSeq | internal/engine/recover.go:54-78 | recovery finds the last sequence number given out whenever a live log has a record, and otherwise the manifest's |
| LsmRecovery.LastSequenceIff | internal/engine/flusher.go:134-140 | when the last pending flush empties the logs, the logged number is the last one given out if and only if the last key written is greater than all other keys of that table |
| LsmRecovery.RecoveredGoesOnIff | internal/engine/recover.go:15-82 | the recovered state satisfies the invariant of a running one if and only if no table holds a version beyond the sequence number found |
| Recoveries.ReplayLog | internal/engine/recover.go:49-63 | one log's records go into the memtable in order, and their greatest number is kept |
| Recoveries.Recover | internal/engine/recover.go:31-79 | the logs whose names scan are replayed in ascending order, each removed after it, up to the first that is damaged; the number found is the greatest replayed or logged |
| Recoveries.RecoverYieldsState | internal/engine/recover.go:31-79 | on the directory of a running engine this yields the memtable and the number of its recovered state |
| Snapshots.SnapshotList.Oldest | internal/engine/snapshot.go:61-68 | a live snapshot that none is older than, or the greatest number of all if there is none |
| Snapshots.SnapshotList.Remove | internal/engine/snapshot.go:49-59 | one entry of that number goes, others at the same number stay |
| Pickers.PickCompactionInputs | internal/engine/compactor.go:245-273 | all of level 0; of a deeper level the shortest non-empty stretch from the searched start that brings it down to capacity, or all the rest |
| Pickers.PickStartsAfterPointer | internal/engine/compactor.go:254-257 | on a level sorted by first keys the searched start is the first table after the pointer, and it is the end of the level if and only if there is none |
| Pickers.LevelCapacity | internal/engine/compactor.go:283-290 | the base size times one factor for each level below the first |
| Pickers.EmptyPickChangesNothing | internal/engine/compactor.go:48-113 | a compaction with an empty pick writes nothing and leaves every level as it is |
| Schedules.PickIsUnique | internal/engine/compactor.go:245-273 | level, sizes and pointer settle which tables are picked |
| Schedules.Schedule | internal/engine/compactor.go:15-46 | the first level that is due: level 0 by its number of tables, a deeper one but the last by its bytes beyond capacity; none if no level is |
| Schedules.EveryRunIsKeyed | internal/engine/compactor.go:189-228 | in every run no table below level 0 starts with the empty key |
| Schedules.StuckForGood | internal/engine/compactor.go:15-134 | once the pointer of the first level due has passed all its tables, every later state of every run in which level 0 does not become due has the same deeper levels and the same pointers, however many compactions are started and finished |
| Schedules.StuckGoesOn | internal/engine/compactor.go:15-134 | all the while the engine can start and finish one compaction after another, each taking two file numbers and changing nothing else |
| Flushers.WriteMemtable | internal/engine/flusher.go:95-132 | the file is what the table options make of the memtable's records, and the keys returned are the first and the last of them |
| Engines.New | internal/engine/engine.go:46-85 | on an empty directory the engine is valid and its state the initial one, with an empty cache of the size given and no compaction pointer |
| Engines.Engine.Write | internal/engine/write.go:23-69 | the state takes the write step, followed by a rotation exactly when the memtable has reached its size; the manifest is told of the rotation and of nothing else |
| Engines.Engine.Put | internal/engine/write.go:12-17 | an empty key or value is refused and changes nothing; otherwise the same write |
| Engines.Engine.Rotate | internal/engine/flusher.go:25-84 | the state takes the rotation step: memtable, channel, logs and numbers all agree with it, and the manifest gains the number of the new log |
| Engines.Engine.Flush | internal/engine/flusher.go:95-180 | the state takes the flush step of the oldest memtable, the manifest gains its edit, and the table's file is what the options make of its records, with its true size in the version |
| Engines.Engine.StartCompaction | internal/engine/compactor.go:48-65 | the state takes the start step; below level 0 the pick is the shortest stretch from the first table searched behind the pointer whose sizes reach what the level has beyond its capacity, or all the rest; the pointer moves exactly when something was picked there |
| Engines.Engine.ScheduleCompaction | internal/engine/compactor.go:15-46 | the first level due is compacted, with the pick behind its pointer; if none is due nothing changes |
| Engines.Engine.FinishCompaction | internal/engine/compactor.go:65-134 | the merge really written, logged and installed is the finish step of the state, under the oldest live snapshot or the greatest number; the outputs end where they reach the maximal size and are numbered one after another, each file is what the options make of its records, with its true size in the version, and the manifest gains exactly the edit |
| Engines.Engine.Get | internal/engine/read.go:75-165 | over the real memtables, table files and cache, the value returned is the one that get means in the state |
| Engines.Engine.Collect | internal/engine/read.go:26-73 | over the real sources, a scan collected to its end is the complete answer for its range |
| Engines.Reopen | internal/engine/engine.go:46-85 | from the bytes of the manifest, the log directory and the table files that a running engine left between two steps, the engine opened is its recovered state in every part, with an empty cache and no pointers; it is valid if and only if that state satisfies the invariant |
| Counterexamples.UnsortedLevelMisses | internal/meta/version_set.go:87-90 | a run of ten steps from a new engine after which the levels are unsorted, a key has a latest value, and get does not find it |
| Counterexamples.TwoOfThreeFound | internal/engine/read.go:141-143 | of the keys m, n, a in this order the search finds m and n, and not a |
| Counterexamples.PointerPasses | internal/engine/compactor.go:59-62 | compacting a table of m away leaves a pointer behind which a table of a, due at once, is not picked |
| Counterexamples.SecondRotationHides | internal/engine/flusher.go:25-27 | a second rotation before the first flush after which a written key is not found |
| Counterexamples.SnapshotIsLost | internal/engine/compactor.go:193-196 | a snapshot between two versions loses the older one when they are merged |
| Counterexamples.DeletedKeyReturns | internal/engine/compactor.go:193-196 | a snapshot that saw a tombstone is shown the older value beneath once the tombstone is merged with a newer version |

## Left out

- File system calls, fsync, directory creation, read and write errors, partial writes: files are byte sequences, opening and removing are map updates. The error branches that decoding can take are modelled; those that only I/O can cause are not.
- Concurrency beyond the steps: mutexes, goroutines, reference counts, pools and the table-reader cache. A write, a rotation, a flush, the start and the finish of a compaction are one atomic step each; taking a sequence number, appending to the log and inserting are one step although the code does not hold its lock over all three; the files that a compaction writes appear at its finish.
- Send on a closed channel when a submit races Close; the interval syncer and the sync modes (internal/wal/wal.go:221-236).
- WriteBatch and internal/batch (internal/engine/write.go:71-128): a batch that crosses a rotation is logged only in the old log.
- Sync and Close of the engine (internal/engine/engine.go:87-151): a rotation and a flush, as single steps.
- Running with crash recovery switched off: logs are always kept.
- The moments at which the scheduler is asked (after a flush, after a compaction) and the wait of writers while level 0 is full (internal/engine/write.go:35-43): the state machine lets compactions start at any level at any time, and writes are never delayed.
- ScanIterator.Seek (internal/engine/iterator.go:52-58), which nothing in the repository calls; Rewind of the memtable iterator.
- NewFilter's floating-point sizing: a filter has at least one bit and one hash and as many bytes as its bits need.
- Names of files other than the scan of their number: levels' directories, the CURRENT file, a name with blanks in front of its digits, subdirectories of the log directory.
- A second crash: recovery removes logs before their records have reached a table.
- A log that recovery passed over stays on disk; the recovered state no longer mentions it.
- Sequence numbers and file numbers that reach 2^64, a block or record whose size wraps 32 bits in the running counters, level sizes beyond 63 bits.
- The interface over iterators is a sum of the two kinds there are; the cache's linked list is the sequence of its keys; the search path arrays of the skiplist are sequences.
- Records.RecordRoundTrip: the 32-bit total that precedes a record in blocks and logs is part of `Fits`, which the members about blocks and logs require.
- Recoveries.Recover: takes the memtable to be large enough that replay does not fill it; the code would rotate in the middle of recovery.
- Engines.Engine.Write: requires numbers left to give out and an encoded size below 2^32.
- Engines.Engine.Flush: requires a memtable of less than 2^29 bytes, so that the sizes in the table's footer and index do not wrap.
- Engines.Engine.Get: requires every table's number to be below a million, and so do Collect and FinishCompaction; see FileNames.DistinctBelowIff.
- Engines.Engine.FinishCompaction: requires records of less than 2^28 bytes, a maximal table size of at most that, and enough file numbers left.
- Engines.Reopen: takes the crash to come between two steps; the crash inside a flush is covered for the contents by LsmRecovery.RecoveryKeepsAllIff.
- LsmRecovery.RecoveredGoesOnIff: for crashes between steps, when no log that holds a record is passed over; after a crash inside a flush the memtable holds a table's records again, which the invariant does not allow.
- LsmRecovery.RecoveredRun: one way, since a log that is passed over may hold only versions that newer ones hide.
- CompactionMerges.WriteCompactionOutput: requires records of less than 2^28 bytes, like FinishCompaction.
- Counterexamples.SecondRotationHides: starts from a new engine; the general condition is LsmGuards.RotateHidesNothingIff.
