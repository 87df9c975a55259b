# Verified model of the LSM store

A Dafny 4.11 model of the parts of this log-structured key-value store that carry its
correctness, with proofs. `dafny verify dfyconfig.toml` checks everything.

| file | models |
|---|---|
| `Keys`, `Entries`, `IdSets`, `LittleEndian` | byte strings and their order, versions, id sets, binary numbers |
| `SkipListSpec`, `SkipList`, `MemTable` | the skip list as a linked heap structure, the list it stands for, version stacks, `flush_last` |
| `Streams` | what scans and merges have to yield, on plain sequences |
| `BlockIterator`, `SstIterator`, `HeapIterator`, `MergeIterators`, `LevelOutput`, `LevelIterator` | the iterators, as objects that move in place |
| `HeapScan`, `SnapshotScan`, `LevelScan`, `Compaction` | what heap, block, SST and whole-engine scans and the compaction stream mean |
| `Checkpoint`, `VersionStore`, `Transactions`, `TranContext` | manager, engine store, transactions: pure steps and the objects that take them |
| `TransactionRuns`, `CheckpointSafety`, `Rollbacks`, `CommitOrder`, `SnapshotReads`, `Recovery` | theorems over every run of the transaction layer |
| `OrderWitnesses` | runs on which the ordering promises fail |
| `WalRecord`, `WalCleaner` | log records, their bytes, the cleaner |
| `BlockCache`, `RedisList`, `BloomFilter`, `Crc32` | LRU-K cache, string-coded lists, Bloom filter, checksum |

## The main results

* **Skip list.** With any random heights, every level stays an acyclic, null-terminated list over
  exactly the nodes tall enough for it, mirrored by the backward links, and every call refines a
  map from keys to version stacks. `get` equals the newest-visible read exactly when the top version
  is visible or nothing is (`GetIsSnapshotReadIff`, with the failing case `GetMissesOlderVersion`).
* **Compaction** writes exactly the versions it reads, in node order, so the newest version visible
  to any reader of any key is unchanged.
* **Scans.** An SST scan stops at a block with nothing visible; it is complete exactly when no visible
  block stands behind such a block. A heap in query mode shows the newest visible versions exactly when no
  key is swallowed behind a deleted one, and is always right in the other modes. The two-way merge is map
  override. For the scan of the whole engine its output is stated for all children, with two ways to miss
  the layered map: a deletion that a heap drops may hide a live version further down, and a marker of a
  chained level may disturb the search for the smallest key; each condition is exact without the other.
* **Transactions**, over every interleaving, failed log writes and plain writes included: the checkpoint
  never moves back, and what it has passed is in files unless a rollback put a version of that very
  transaction back; with checked writers, versions of a key lie in strictly descending id order over all
  tables; the answer of a read is given at every level, reads are own or public, reads repeat; a checking
  transaction commits exactly when nothing newer stands on its keys; an abort puts back what a direct
  write replaced; a log is exactly its transaction's calls; replaying it is committing; the cleaner
  keeps the log of everything not in files.
* **The cache** is least-recently-used-K by the history of its calls alone; **LRANGE** is exact
  under the stated condition and only there; the **Bloom filter** reports exactly the keys whose
  positions are covered; **CRC-32** has its residue and check value and separates all messages that
  differ inside four adjacent bytes.

Where the code does not meet what its comments or tests promise, the model follows the code, states
exactly when the promise holds, and shows a case in which it does not:

| the promise holds if and only if | failing case |
|---|---|
| `SkipListSpec.GetIsSnapshotReadIff` | `SkipListSpec.GetMissesOlderVersion` |
| `SkipListHeap.CounterExactIff`, `SkipListHeap.ZeroMeansEmptyIff` | `MemTables.LooksEmpty`, `MemTables.LooksFull` |
| `HeapIterators.GreaterSoundIff` | `HeapIterators.GreaterBothWays` |
| `HeapScans.ScanExactIff`, `HeapScans.HeapQueryExactIff` | `HeapScans.UnfilteredLoses` |
| `SnapshotScan.ScanCompleteIff` | `SnapshotScan.ScanLosesBlocks` |
| `SnapshotScan.ChainCompleteIff`, `SnapshotScan.ChainShowsAllIff` | `SnapshotScan.ChainLosesSsts` |
| `LevelOutputs.LevelOutIff`, `LevelOutputs.LevelOutApartIff`, `LevelScan.EngineScanIff` | `LevelOutputs.MarkerDisplacesLevel` |
| `Streams.DroppingMarksIff`, `Streams.DroppingTwoIff`, `LevelScan.LevelScanIff` | `Streams.DroppedMarkResurrects` |
| `VersionStore.FindExactIff`, `CommitOrder.ReadsAreNewestIff` | `VersionStore.StaleRead`, `OrderWitnesses.CheckedRunReadsStale` |
| `CommitOrder.CommitKeepsOrderIff` | `OrderWitnesses.LateCommitBreaksOrder` |
| `Rollbacks.RollbackKeepsIff` | `Rollbacks.RollbackDefeatsCheckpoint` |
| `RedisLists.RangeExactIff` | `RedisLists.RangeBelowListReturnsAll` |
| `RedisLists.PushExactIff` | `RedisLists.PushLoses` |

## Model

| member | source | states |
|---|---|---|
| `Keys.RankReflectsOrder` | include/skiplist/skiplist.h:44-50 | the byte-string order used in every comparison is a strict total order: it embeds injectively into the reals |
| `SkipListSpec.PutRefines` | src/skiplist/skipList.cpp:108-144 | `put` overwrites the top of its key's stack when the ids agree, pushes otherwise, touches no other stack and keeps key order |
| `SkipListSpec.RemoveRefines` | src/skiplist/skipList.cpp:179-212 | `remove` pops the top of one stack and nothing else |
| `SkipListSpec.GetLooksAtTop` | src/skiplist/skipList.cpp:151-175 | `get(k, t)` is the top of the stack of `k` if that is visible at `t`, otherwise nothing |
| `SkipListSpec.GetIsSnapshotReadIff` | src/skiplist/skipList.cpp:167-173 | `get` returns the newest visible version if and only if the top is visible or no version is |
| `SkipListSpec.GetMissesOlderVersion` | test/test_skiplist.cpp:341 | the fallback to an older visible version does not happen: a concrete list and reader |
| `SkipListSpec.StacksDetermineList` | src/skiplist/skipList.cpp:215-229 | a flush is determined by the stacks: it lists each one whole, in ascending key order |
| `SkipListSpec.RunRefinesStacks` | src/skiplist/skipList.cpp:91-241 | after any run of put, remove and clear the list holds exactly the stacks of the reference map |
| `SkipListHeap.Node.SetBackward` | include/skiplist/skiplist.h:33-35 | sets one backward link and leaves the others |
| `SkipListHeap.LinkAfter` | src/skiplist/skipList.cpp:129-143 | splicing a node in at one level changes the links of that level only |
| `SkipListHeap.SkipList.constructor` | src/skiplist/skipList.cpp:68-73 | a new list is well shaped and empty |
| `SkipListHeap.SkipList.RandomLevel` | src/skiplist/skipList.cpp:75-88 | a height between 1 and the maximum |
| `SkipListHeap.SkipList.MoveRight` | src/skiplist/skipList.cpp:111-116 | the inner loop stops at the last node of the level whose key is below the target |
| `SkipListHeap.SkipList.FindPredecessors` | src/skiplist/skipList.cpp:108-118 | the descent over all levels finds, at each level, the predecessor a bottom scan determines |
| `SkipListHeap.SkipList.Locate` | src/skiplist/skipList.cpp:108-120 | the node behind the bottom predecessor is where a plain scan of the stored entries stops |
| `SkipListHeap.SkipList.InsertNode` | src/skiplist/skipList.cpp:127-143 | inserting a node of any height keeps the shape at all levels |
| `SkipListHeap.SkipList.DeleteNode` | src/skiplist/skipList.cpp:196-209 | unlinking a node keeps the shape at all levels |
| `SkipListHeap.SkipList.Put` | src/skiplist/skipList.cpp:91-148 | keeps shape and counter relation; contents become the specified `Put` of the old contents |
| `SkipListHeap.SkipList.Get` | src/skiplist/skipList.cpp:151-175 | returns the node that the specified `Get` names, or none |
| `SkipListHeap.SkipList.Remove` | src/skiplist/skipList.cpp:179-212 | keeps the shape; contents become the specified `Remove` of the old contents |
| `SkipListHeap.SkipList.Clear` | src/skiplist/skipList.cpp:237-241 | empty, well shaped, counter zero |
| `SkipListHeap.SkipList.Flush` | src/skiplist/skipList.cpp:215-229 | walking the bottom links visits exactly the contents, in order |
| `SkipListHeap.CounterExactIff` | src/skiplist/skipList.cpp:121-126 | `size_bytes` is the true footprint if and only if the bytes written over old versions are a multiple of 2^64, so exactly in runs without effective overwrites |
| `MemTables.Scan` | src/memtable/memtable.cpp:192-199 | collects the markers in order and the least and greatest id |
| `MemTables.MemTable.FlushLast` | src/memtable/memtable.cpp:158-206 | flushes the oldest table, freezing a lone non-zero-sized one first; data, marker ids, id bounds, the remaining tables and the frozen byte count |
| `SkipListHeap.ZeroMeansEmptyIff` | src/skiplist/skipList.cpp:121-126 | a zero counter tells an empty list if and only if the overwritten bytes leave no remainder (empty list) or another one than the footprint's (non-empty list) |
| `MemTables.EmptinessTest` | src/memtable/memtable.cpp:170-177 | so the size test of a flush is right about emptiness if and only if that holds of the current table; `FlushLast` skips exactly the empty tables then and only then |
| `MemTables.LooksEmpty` | src/memtable/memtable.cpp:170-177 | a non-empty table whose size counter reads 0 is reachable |
| `MemTables.LooksFull` | src/memtable/memtable.cpp:170-177 | an empty table whose size counter does not read 0 is reachable |
| `Streams.SortedStoreReads` | src/block/block.cpp:88-92 | in a store sorted by key and descending id, the first visible version is the newest visible one |
| `Streams.QueryViewMeaning` | src/block/block_iterator.cpp:40-65 | the query view holds exactly the newest visible version of each key that has one, keys strictly ascending |
| `Streams.FullViewMeaning` | src/block/block_iterator.cpp:40-65 | the keep-all view holds exactly the visible versions, in node order |
| `Streams.MergeAllKeeps` | src/lsm/two_merge_iterator.cpp:19-39 | the keep-all merge is a permutation of its inputs |
| `Streams.MergeAllSorted` | src/lsm/two_merge_iterator.cpp:19-39 | and in node order when the inputs are and share no version |
| `Streams.OverrideStrict` | src/lsm/two_merge_iterator.cpp:19-73 | the query merge has strictly ascending keys |
| `Streams.OverrideMeaning` | src/lsm/two_merge_iterator.cpp:19-73 | and is, as a map, stream b overridden by stream a |
| `Streams.FlattenMeaning` | src/lsm/level_iterator.cpp:58-141 | the merge of all children is the layered map, lowest index first, each key once, ascending |
| `Streams.FlattenStep` | src/lsm/level_iterator.cpp:75-110 | the lowest first key of the lowest-index child comes next, and skipping it everywhere gives the rest |
| `Streams.ScanIsLayeredMap` | src/lsm/level_iterator.cpp:58-141 | an entry is yielded if and only if it is the deciding version of its key and not a deletion |
| `Streams.DroppingTwoIff` | src/lsm/level_iterator.cpp:16-41 | dropping the deletion marks of the two uppermost layers changes the scan exactly when a mark of the first hides a live version of what is left below, or a deciding mark of the second hides one of the lower layers |
| `Streams.DroppedMarkResurrects` | src/lsm/level_iterator.cpp:39-40 | two layers on which it does |
| `Streams.DroppingMarksIff` | src/lsm/level_iterator.cpp:39-40 | dropping one layer's deletion marks before the merge changes the scan exactly when such a mark hides a live version below |
| `BlockIterators.BlockIterator.constructor` | src/block/block_iterator.cpp:10-15 | starts at the first visible entry; what is to come is the view from there |
| `BlockIterators.BlockIterator.SkipByTrancId` | src/block/block_iterator.cpp:114-132 | moves to a visible entry, loses nothing visible and forgets the cached value |
| `BlockIterators.BlockIterator.Next` | src/block/block_iterator.cpp:40-65 | yields the view one entry at a time in both modes |
| `BlockIterators.BlockIterator.Deref` | src/block/block_iterator.cpp:82-94 | reads the current entry through a cache that is never stale, or fails at the end |
| `SstIterators.SstIterator.Begin` | src/sst/sst_iterator.cpp:53-86 | a scan from the first block yields the block-by-block scan |
| `SstIterators.SstIterator.Next` | src/sst/sst_iterator.cpp:136-155 | drops exactly the first entry of what is to come, crossing one block border |
| `SstIterators.ConcactIterator.constructor` | src/sst/concact_iterator.cpp:5-12 | starts the scan of a row of SSTs |
| `SstIterators.ConcactIterator.Next` | src/sst/concact_iterator.cpp:14-26 | drops exactly the first entry of what is to come, crossing to the next SST |
| `SnapshotScan.ScanCompleteIff` | src/sst/sst_iterator.cpp:141-153 | the scan shows all its blocks show if and only if no block with a visible entry stands behind a block without one |
| `SnapshotScan.ChainCompleteIff` | src/sst/concact_iterator.cpp:14-26 | the same for a row of SSTs: complete if and only if no SST with something to show stands behind one without blocks or with a first block that shows nothing |
| `SnapshotScan.ChainShowsAllIff` | src/sst/concact_iterator.cpp:5-26 | a chained level shows what all blocks of all its files show if and only if no file is barred and no block obscured |
| `SnapshotScan.ChainIsSnapshot` | src/sst/concact_iterator.cpp:5-26 | then, with no key in two blocks, exactly the newest visible version of every key, ascending |
| `SnapshotScan.ChainLosesSsts` | src/sst/concact_iterator.cpp:14-26 | a family of two-file rows whose second file is never reached |
| `SnapshotScan.SstScanIsSnapshot` | src/sst/sst_iterator.cpp:76-155 | under that condition and with no key in two blocks, exactly the newest visible version of every key, ascending |
| `SnapshotScan.SstScanIsFullView` | src/sst/sst_iterator.cpp:76-155 | under keep-all, exactly the visible versions in node order |
| `SnapshotScan.ScanLosesBlocks` | src/sst/sst_iterator.cpp:141-153 | a family of two-block files whose second block is never reached |
| `HeapIterators.GreaterSoundIff` | src/iterator/iterator.cpp:21-32 | within one level the comparison is asymmetric if and only if age and source agree, and then it is the intended order |
| `HeapIterators.AfterIsStrictWeak` | src/iterator/iterator.cpp:21-32 | the intended order is a strict weak order; ties only at equal key, id and source |
| `HeapIterators.PushAllMeaning` | src/iterator/iterator.cpp:43-60 | pushing coherent items gives a queue that pops them all in that order |
| `HeapIterators.GreaterBothWays` | src/iterator/iterator.cpp:21-32 | two items each of which is greater than the other |
| `HeapScans.OtherModesExact` | src/iterator/iterator.cpp:43-122 | when all versions or the deletions are kept, any queue yields exactly the reader's view |
| `HeapScans.ScanExactIff` | src/iterator/iterator.cpp:43-122 | in query mode any queue yields the newest visible version of each key without the deleted ones if and only if no key is swallowed: none topped by an invisible deletion over a live visible version, reached over deletion-topped keys from a key the reader sees deleted |
| `HeapScans.HeapQuery` | src/iterator/iterator.cpp:43-122 | unless a key is swallowed: strictly ascending keys, each a newest visible version and no deletion, none left out without a deletion |
| `HeapScans.HeapQueryExactIff` | src/iterator/iterator.cpp:43-122 | with no version under two values: exactly the newest visible version of each key, minus deleted keys, if and only if no key is swallowed |
| `HeapScans.FilteredIsSafe` | src/memtable/memtable.cpp:235-243 | items filtered to visible ones swallow nothing |
| `HeapScans.UnfilteredLoses` | src/iterator/iterator.cpp:61-71 | a family of queues that swallow a live key |
| `HeapIterators.HeapIterator.constructor` | src/iterator/iterator.cpp:43-73 | pushes all items and settles on a legal top |
| `HeapIterators.HeapIterator.SkipByTrancId` | src/iterator/iterator.cpp:176-184 | pops exactly the leading invisible items |
| `HeapIterators.HeapIterator.Settle` | src/iterator/iterator.cpp:53-72 | the nested loops terminate with a legal top |
| `HeapIterators.HeapIterator.Next` | src/iterator/iterator.cpp:84-122 | drops exactly the first entry of what is to come |
| `MergeIterators.MergedStep` | src/lsm/two_merge_iterator.cpp:19-73 | with ready heads the chosen head is next and the merge goes on without it |
| `MergeIterators.TwoMergeIterator.constructor` | src/lsm/two_merge_iterator.cpp:7-17 | what is to come is the merge of the two children |
| `MergeIterators.TwoMergeIterator.SkipB` | src/lsm/two_merge_iterator.cpp:41-48 | one step of b is always enough |
| `MergeIterators.TwoMergeIterator.SkipByTrancId` | src/lsm/two_merge_iterator.cpp:50-60 | skips what the merge may not see and nothing else |
| `MergeIterators.TwoMergeIterator.Next` | src/lsm/two_merge_iterator.cpp:62-73 | drops exactly the first entry of what is to come, in both modes |
| `LevelOutputs.ChosenStep` | src/lsm/level_iterator.cpp:58-141 | leaving the chosen key yields it unless deleted, and the scan goes on without it, markers included |
| `LevelOutputs.LevelOutIff` | src/lsm/level_iterator.cpp:58-141 | the scan yields the layered map without deleted keys if and only if nothing is disturbed: each live key behind the last marker is decided by its own entry and lies below the live keys that come late, and no key deleted there takes a deciding version along |
| `LevelOutputs.LevelOutApartIff` | src/lsm/level_iterator.cpp:58-141 | when the layers share no entry: if and only if the early live keys are new to the streams up to the last marker and below their live keys, and passing the early keys costs those streams no live value |
| `LevelOutputs.LevelOutIsIff` | src/lsm/level_iterator.cpp:58-141 | the scan yields the live keys of any given layers if and only if it decides each key as they do, early keys below late ones |
| `LevelOutputs.NoMarkerIsRight` | src/lsm/level_iterator.cpp:58-141 | without a marker at the front of any child the scan is the layered map |
| `LevelOutputs.MarkerDisplacesLevel` | src/lsm/level_iterator.cpp:75-101 | with a marker in level 1, an old version of level 2 comes before the new one, or although it is deleted |
| `LevelOutputs.SharedEntryIsHarmless` | src/lsm/level_iterator.cpp:75-101 | the very same entry before and behind a marker disturbs nothing |
| `LevelIterators.LevelIterator.GetMinKeyIdx` | src/lsm/level_iterator.cpp:75-101 | the front of the children behind the last one that stands on a marker, or that marker when they are exhausted; the lowest index on ties |
| `LevelIterators.LevelIterator.SkipChildKey` | src/lsm/level_iterator.cpp:103-110 | moves one child past a key |
| `LevelIterators.LevelIterator.constructor` | src/lsm/level_iterator.cpp:58-73 | what is to come is the specified output of the children, deleted keys left out |
| `LevelIterators.LevelIterator.Next` | src/lsm/level_iterator.cpp:121-141 | drops exactly the first entry of what is to come; every skip advances a child |
| `LevelScan.LevelHeap` | src/lsm/level_iterator.cpp:22-41 | the level-0 child is the level's view without its deletions: all its items report the bound, so age and source agree and nothing is swallowed |
| `LevelScan.LevelViewMeaning` | src/lsm/level_iterator.cpp:22-41 | that view gives each key the value of the newest file that shows it |
| `LevelScan.MemHeap` | src/memtable/memtable.cpp:235-243 | the memory child is the memory's view without its deletions |
| `LevelScan.LevelScanIff` | src/lsm/level_iterator.cpp:11-56 | the children hold the layered map of memory, level 0 and the chained levels if and only if no deletion that the memory heap or the level-0 heap drops hides a live version further down |
| `LevelScan.EngineScanIff` | src/lsm/level_iterator.cpp:11-141 | the scan itself is that map if and only if it decides every key as the engine's layers do; where no dropped deletion takes effect, if and only if no marker disturbs it, and where no marker does, if and only if no dropped deletion takes effect |
| `LevelScan.ChildrenAreProper` | src/lsm/level_iterator.cpp:11-56 | the heaps show no markers, so only chained levels can stand on one |
| `LevelScan.CollectItems` | src/lsm/level_iterator.cpp:22-38 | collects every entry that each level-0 file shows |
| `LevelScan.OpenScan` | src/lsm/level_iterator.cpp:11-73 | builds the children and yields exactly their specified output, markers in the levels included |
| `Compaction.MergeSstIterators` | src/sst/sst_iterator.cpp:224-242 | fills the heap with every level-0 entry under its file's index |
| `Compaction.CompactionStream` | src/lsm/two_merge_iterator.cpp:7-73 | running heap, chain and merge iterators to the end yields the specified output |
| `Compaction.CompactionPreservesReads` | src/sst/sst_iterator.cpp:224-242 | the output is the same multiset of versions in node order, so every snapshot read of every key is unchanged |
| `Checkpoint.CompressSet` | include/utils/set_operation.h:5-27 | the leading run of consecutive ids collapses into its last id |
| `Checkpoint.CompressMeaning` | include/utils/set_operation.h:5-27 | the least id moves up only over ids that are all present; everything above it and the greatest id stay |
| `Checkpoint.CompressIdempotent` | include/utils/set_operation.h:5-27 | compressing twice is compressing once |
| `Checkpoint.AddFlushedMeaning` | src/lsm/transation.cpp:411-429 | one notification settles the id and all older aborted ones, never lowers checkpoint or maximum, and leaves every other pending id pending |
| `Checkpoint.CheckpointReachesIff` | src/lsm/transation.cpp:411-429 | a notification moves the checkpoint up to an id if and only if every id on the way is flushed, is the notified one and ready, or is an older ready aborted one |
| `Checkpoint.AddAllFlushedMeaning` | src/lsm/transation.cpp:411-429 | the same for all notifications of one flush |
| `Checkpoint.CollectSettled` | src/lsm/transation.cpp:411-422 | the ascending walk that stops at the id collects exactly the settled ids |
| `Checkpoint.TranManager.AddFlushedId` | src/lsm/transation.cpp:411-429 | the whole new manager state |
| `Checkpoint.TranManager.AddReadyToFlush` | src/lsm/transation.cpp:405-409 | records one outcome |
| `Checkpoint.TranManager.GetNextTransactionId` | src/lsm/transation.cpp:431-433 | hands out each id once |
| `Checkpoint.TranManager.GetCheckpointId` | src/lsm/transation.cpp:444-447 | the least flushed id |
| `Checkpoint.TranManager.GetMaxFlushedId` | src/lsm/transation.cpp:439-442 | the greatest flushed id |
| `VersionStore.SstGetIsFirstVisible` | src/lsm/engine.cpp:62-67 | reading files new to old is an exact read of the stack |
| `VersionStore.MemGetLatest` | src/memtable/memtable.cpp:56-74 | without a snapshot bound the memory tables return the top version |
| `VersionStore.FindExactIff` | src/lsm/engine.cpp:42-50 | a snapshot read of an ordered store is exact if and only if the answering memory table does not shadow it |
| `VersionStore.EngineGetIs` | src/lsm/engine.cpp:42-50 | the engine answers a read without bound with the top of the key's stack over all tables, an unshadowed snapshot read with the newest visible version, and nothing exactly when there is none or it is a deletion |
| `VersionStore.StaleRead` | src/memtable/memtable.cpp:56-62 | a concrete store where a reader gets an older version than it should |
| `TranContexts.TranContext.constructor` | src/lsm/transation.cpp:34-40 | starts with a create record and empty maps |
| `TranContexts.TranContext.Put` | src/lsm/transation.cpp:42-71 | logs, then buffers, or at the lowest level saves the old version and writes through |
| `TranContexts.TranContext.Remove` | src/lsm/transation.cpp:73-99 | the same with a deletion |
| `TranContexts.TranContext.Get` | src/lsm/transation.cpp:101-146 | own buffer first, then the engine at the level's bound, remembered at the checking levels |
| `TranContexts.TranContext.HasConflict` | src/lsm/transation.cpp:194-249 | reports a conflict exactly when some buffered key has one |
| `TranContexts.TranContext.ApplyBuffer` | src/lsm/transation.cpp:264-270 | writes each buffered key once, in some order |
| `TranContexts.TranContext.Commit` | src/lsm/transation.cpp:148-285 | the whole outcome in all cases: conflict, failed log, commit at each level |
| `TranContexts.TranContext.UndoWrites` | src/lsm/transation.cpp:293-303 | puts the saved versions back, in some order |
| `TranContexts.TranContext.Abort` | src/lsm/transation.cpp:287-328 | the whole outcome at every level |
| `TransactionRuns.StepKeeps` | src/lsm/transation.cpp:405-467 | every step keeps the books: ids, outcomes, pending ids, logs that match buffers; the checkpoint does not move back |
| `TransactionRuns.CheckpointNeverMovesBack` | src/lsm/transation.cpp:405-447 | in every run and every continuation of it |
| `CheckpointSafety.StepHolds` | src/memtable/memtable.cpp:170-199 | every step keeps, for every transaction of which no version was put back: its marker is no older than its writes, a marker in memory means it is ready, and once committed its writes are present |
| `CheckpointSafety.CheckpointIsSafe` | src/lsm/transation.cpp:405-447 | in every run a committed transaction at or below the checkpoint has its last write to every key, and all its versions, in files, unless an aborted transaction had saved a version of it |
| `CheckpointSafety.RunsSourced` | src/lsm/transation.cpp:42-99 | in every run each stored or saved version carries the id of a transaction or of a plain write |
| `Rollbacks.RollbackKeepsIff` | src/lsm/transation.cpp:293-303 | a rollback keeps every entry of the other transactions if and only if no saved version meets, on top of its key, the only copy of a different write with the same id |
| `Rollbacks.RollbackDefeatsCheckpoint` | src/lsm/transation.cpp:287-309 | a run of eight steps after which a committed transaction at the checkpoint has its last write in no file |
| `Rollbacks.DirectWriteSaves` | src/lsm/transation.cpp:50-99 | a direct put or remove saves the top version of its key before the write, nothing if there is none or it is a deletion, and leaves the other saved versions |
| `Rollbacks.RollbackReads` | src/lsm/transation.cpp:293-303 | after a rollback, in any order, a read of a saved key gives what was saved |
| `Rollbacks.WriteThenRollback` | src/lsm/transation.cpp:50-99 | so one direct put or remove followed by the rollback leaves the key's value as it was |
| `Rollbacks.AbortRestores` | src/lsm/transation.cpp:287-309 | in every run, a direct write followed by anything but another write of that key by the same transaction, and then by its abort, leaves the key reading as before the write |
| `CommitOrder.NoConflictIsNewest` | src/lsm/transation.cpp:194-249 | a key without conflict has only older versions, also when the file search is skipped |
| `CommitOrder.ConflictIsNewer` | src/lsm/transation.cpp:194-249 | a reported conflict is one: a stored version of the key has a greater id |
| `CommitOrder.MayCommitIff` | src/lsm/transation.cpp:194-249 | in every run with checked writers, a transaction at the checking levels may commit if and only if no key it wrote has a version with a greater id; at the others always |
| `CommitOrder.CommitKeepsOrderIff` | src/lsm/transation.cpp:252-274 | a commit keeps the order if and only if no key it writes has a newer version |
| `OrderWitnesses.LateCommitBreaksOrder` | src/lsm/transation.cpp:252-274 | a run of two READ_OP_COMMITTED writers that breaks the order |
| `OrderWitnesses.PlainWriteEscapesCheck` | src/lsm/transation.cpp:219-226 | a run in which a flushed plain write escapes the conflict check of a REPEATABLE_READ writer |
| `OrderWitnesses.SkippedDeletionEscapesCheck` | src/lsm/transation.cpp:219-246 | a run in which a file search that returned nothing for a deletion would let an older transaction commit over it |
| `OrderWitnesses.CheckedRunReadsStale` | src/memtable/memtable.cpp:56-68 | a run of checked writers in which a reader gets an older version than one it may see |
| `CommitOrder.FlushOrderly` | src/memtable/memtable.cpp:192-199 | after a flush the greatest flushed id covers every id in files |
| `CommitOrder.VersionsCommitInOrder` | src/lsm/transation.cpp:194-278 | in every run with checked writers the versions of a key descend strictly over all tables, and each table is in node order apart from the markers |
| `CommitOrder.ReadsAreNewestIff` | src/lsm/engine.cpp:42-50 | so in every such run a read is exact if and only if it is not shadowed |
| `SnapshotReads.ReadsAreOwnOrCommitted` | src/lsm/transation.cpp:101-146 | in every run without direct writers a value read is the own last write, a committed last write or a plain write, with id at or below the own |
| `SnapshotReads.AnswerIs` | src/lsm/transation.cpp:101-146 | the answer of a transaction's `get` at every level: the own write, else at the lowest level the latest version of all, else what was remembered, else the newest visible version if not shadowed; nothing exactly when that is missing or a deletion |
| `SnapshotReads.RunsAnswer` | src/lsm/transation.cpp:101-146 | the same for first reads in every run, with the own writes taken from the log |
| `SnapshotReads.EveryLevelFinds` | src/lsm/transation.cpp:119-132 | one stored older version is found at every level |
| `SnapshotReads.LevelsDiffer` | src/lsm/transation.cpp:50-250 | REPEATABLE_READ and SERIALIZABLE, and only they, prefer a remembered read and refuse to commit over a newer version; READ_UNOP_COMMITTED alone writes at once |
| `SnapshotReads.ReadsRepeat` | src/lsm/transation.cpp:118-132 | at the checking levels two reads agree whatever happens in between, unless the transaction wrote the key |
| `Recovery.LogFoldsToBuffer` | src/lsm/transation.cpp:50-67 | in every run the put and delete records fold to the buffer |
| `Recovery.ReplayIsCommit` | src/lsm/transation.cpp:254-274 | replaying a log gives the table that writing its folded map gives, in any order |
| `Recovery.ReplayIsWhatCommitWrites` | src/lsm/transation.cpp:254-274 | in every run replay equals commit apart from the marker |
| `Recovery.ReplayOfDecodedLog` | src/wal/record.cpp:52-162 | the same through the encoded bytes |
| `Recovery.CommitLogs` | src/lsm/transation.cpp:252-262 | what commits append is a file of whole records, and the log holds each of them, the commit record among them |
| `Recovery.LogIsFramed` | src/lsm/transation.cpp:34-40 | in every run a log opens with its create record, a committed transaction's log ends with its commit record, and without an attempt to commit there is none |
| `Recovery.LogIsItsCalls` | src/lsm/transation.cpp:34-262 | in every run a log is exactly the records of the transaction's calls, in order: creation, each put and remove, each commit that passed the check |
| `Recovery.CommittedIsLogged` | src/lsm/transation.cpp:252-262 | so the create and commit records of a committed transaction are in any log file its records were appended to |
| `Recovery.CleaningKeepsWhatMemoryHolds` | src/wal/wal.cpp:106-138 | in every run, cleaning with the checkpoint or an older one keeps all records of every committed transaction that is not wholly in files, unless a rollback put a version of it back |
| `WalRecords.Decode` | src/wal/record.cpp:94-162 | the loop decodes record by record, or fails as the code does |
| `WalRecords.RoundTrip` | src/wal/record.cpp:52-162 | decoding concatenated encodings gives the records back, for any number of records that fit 16-bit lengths |
| `WalRecords.HeadOf` | src/wal/record.cpp:52-72 | length, id and operation stand at their offsets |
| `WalRecords.BytesOfHead` | src/wal/record.cpp:52-92 | every byte of length, id, operation and the two string lengths: little-endian digits at fixed offsets |
| `WalRecords.Samples` | src/wal/record.cpp:9-92 | the exact bytes of a create, a commit, a put and a delete record |
| `WalCleaner.HasUnfinished` | src/wal/wal.cpp:120-130 | the length-hopping scan reports exactly whether some record id exceeds the checkpoint |
| `WalCleaner.Doomed` | src/wal/wal.cpp:106-134 | exactly the files other than the highest-numbered that hold no such record |
| `WalCleaner.WalDirectory.CleanWALFile` | src/wal/wal.cpp:78-139 | deletes exactly those |
| `WalCleaner.CleaningKeepsUnfinished` | src/wal/wal.cpp:106-138 | no record above the checkpoint and no record of the file being written is lost |
| `WalCleaner.CleaningIsIdempotent` | src/wal/wal.cpp:106-138 | a second cleaning deletes nothing |
| `BlockCaches.RunsKeep` | src/block/block_cache.cpp:15-62 | in every run: size within capacity; the block held for a key is the one last put; its use count is the number of calls on the key since the put that inserted it, and its use time the last of them |
| `BlockCaches.VictimByHistory` | src/block/block_cache.cpp:43-54 | in every run the block to evict is, by the calls alone, the one that goes before all others: used fewer than k times since it was inserted if any is, and among those least recently used |
| `BlockCaches.CachedByHistory` | src/block/block_cache.cpp:15-62 | in every run a key is cached after a call if and only if it is newly put, or was cached and is not the one that a new key displaces from a full cache |
| `BlockCaches.BackIsVictim` | src/block/block_cache.cpp:43-54 | the back of the list evicted from is the least recently used item with fewer than k uses, or overall if there is none |
| `BlockCaches.Use` | src/block/block_cache.cpp:71-91 | a use moves the item to the front of the list its new count belongs to; index and both lists still stand for the reference |
| `BlockCaches.BlockCache.UpdateAccessCount` | src/block/block_cache.cpp:71-91 | the three cases of the list update |
| `BlockCaches.BlockCache.Get` | src/block/block_cache.cpp:15-29 | a hit returns the held block and counts as a use; request counters |
| `BlockCaches.BlockCache.Evict` | src/block/block_cache.cpp:43-54 | removes exactly the victim |
| `BlockCaches.BlockCache.Put` | src/block/block_cache.cpp:31-62 | refines the reference's put |
| `RedisLists.SplitTokens` | src/redis_wrapper/redis_wrapper.cpp:156-164 | tokenising at separators, nothing after a final one |
| `RedisLists.JoinElements` | src/redis_wrapper/redis_wrapper.cpp:166-175 | joining with separators |
| `RedisLists.SplitJoin` | src/redis_wrapper/redis_wrapper.cpp:156-175 | splitting undoes joining for non-empty, separator-free elements |
| `RedisLists.PushExactIff` | src/redis_wrapper/redis_wrapper.cpp:719-776 | a pushed element is read back as pushed if and only if it is separator-free and not lost as empty |
| `RedisLists.PushLoses` | src/redis_wrapper/redis_wrapper.cpp:719-776 | an empty element lost, and one cut at its separator |
| `RedisLists.RangeExactIff` | src/redis_wrapper/redis_wrapper.cpp:866-903 | LRANGE is the clamped slice if and only if the stop reaches the list, the start lies behind it, or the list is empty |
| `RedisLists.RangeBelowListReturnsAll` | src/redis_wrapper/redis_wrapper.cpp:887-896 | a stop below the list returns everything |
| `RedisLists.CommandRefines` | src/redis_wrapper/redis_wrapper.cpp:719-903 | one command on the joined string is one command on the queue, reply included |
| `RedisLists.RunRefinesQueues` | src/redis_wrapper/redis_wrapper.cpp:719-903 | any run of commands on any keys behaves as double-ended queues |
| `RedisLists.RedisWrapper.RedisLPush` | src/redis_wrapper/redis_wrapper.cpp:719-746 | new store and reply |
| `RedisLists.RedisWrapper.RedisRPush` | src/redis_wrapper/redis_wrapper.cpp:748-776 | new store and reply |
| `RedisLists.RedisWrapper.RedisLPop` | src/redis_wrapper/redis_wrapper.cpp:778-811 | new store and reply, also for missing and emptied lists |
| `RedisLists.RedisWrapper.RedisRPop` | src/redis_wrapper/redis_wrapper.cpp:813-846 | new store and reply, also for missing and emptied lists |
| `RedisLists.RedisWrapper.RedisLLen` | src/redis_wrapper/redis_wrapper.cpp:848-864 | the number of tokens |
| `RedisLists.RedisWrapper.RedisLRange` | src/redis_wrapper/redis_wrapper.cpp:866-903 | the range the index arithmetic selects |
| `BloomFilters.BloomFilter.Add` | src/utils/bloom_filter.cpp:39-44 | sets exactly the positions of the key |
| `BloomFilters.BloomFilter.PossiblyContains` | src/utils/bloom_filter.cpp:47-56 | true exactly when all positions are set |
| `BloomFilters.BloomFilter.Clear` | src/utils/bloom_filter.cpp:59-59 | no bit set, same size |
| `BloomFilters.BitsAreMarks` | src/utils/bloom_filter.cpp:39-44 | after any adds exactly the positions of added keys are set |
| `BloomFilters.PositionIsSum` | src/utils/bloom_filter.cpp:61-75 | the positions of a key are its hash plus the hash of the salted key added once per index, wrapped to 64 bits at each step, reduced to the bit count |
| `BloomFilters.PositionsStride` | src/utils/bloom_filter.cpp:61-75 | without overflow the first position is the hash and each next one the second hash further on, both reduced to the bit count |
| `BloomFilters.ReportedIff` | src/utils/bloom_filter.cpp:39-75 | no false negatives; a key is reported if and only if each of its positions belongs to an added key |
| `BloomFilters.ReportedByHash` | src/utils/bloom_filter.cpp:39-75 | the same without overflow, with all positions written as the hash plus a multiple of the salted hash |
| `BloomFilters.SecondHashTells` | src/utils/bloom_filter.cpp:61-75 | two keys with equal first hashes are told apart by the second |
| `BloomFilters.BloomFilter.EncodeFilter` | src/utils/bloom_filter.cpp:78-116 | the loops produce the specified bytes |
| `BloomFilters.DecodeFilter` | src/utils/bloom_filter.cpp:119-162 | the loops read them |
| `BloomFilters.DecodeInverts` | src/utils/bloom_filter.cpp:78-162 | decoding an encoded filter gives it back, for any bit count |
| `BloomFilters.StoredBytes` | src/utils/bloom_filter.cpp:78-116 | every byte of a stored filter: four words, lowest byte first, then eight bits to a byte, lowest bit first |
| `Crc32.Crc32Compute` | src/vlog/vlog.cpp:13-26 | the nested loops compute the specified checksum |
| `Crc32.Residue` | src/vlog/vlog.cpp:13-26 | every message followed by its own checksum, lowest byte first, has the checksum 0x2144DF1C: the residue of CRC-32 |
| `Crc32.CheckValue` | src/vlog/vlog.cpp:13-26 | the checksum of the digits from one to nine is 0xCBF43926, the check value of CRC-32 |
| `Crc32.BurstDetected` | src/vlog/vlog.cpp:13-26 | messages that differ only inside a window of at most four bytes have different checksums |
| `Crc32.ByteErrorDetected` | src/vlog/vlog.cpp:13-26 | in particular those that differ in exactly one byte |

## Left out

- Block and SST encoding, `VLog` records, `LSMEngine` compaction control: these bodies are not written yet; blocks are sequences of entries, and engine reads and writes follow their comments (src/lsm/engine.cpp:42-76, src/memtable/memtable.cpp:28-74), but for the file search of the conflict check below.
- WiscKey values stored in the value log: the model covers inline values.
- Locks, threads, logging, configuration, files: a commit is one atomic step, as it holds both table locks; a flush together with its notifications is one step; the log is a map from sequence numbers to bytes.
- File compaction as a step of the transaction state machine: it is treated on its own, where it preserves every read.
- Recovery across restarts: the old logs are deleted and the flushed set is reset before replayed data is flushed.
- Prefix and predicate iterators, `SstIterator::seek`, `operator->` of `SstIterator` (its cache goes stale after `++`), equality of iterators, the visualiser.
- Sharing of one block iterator by copied `SstIterator` objects: each iterator object owns its block iterator.
- Redis hashes, sets, sorted sets, expiry and the reply text; list replies are values, and lists are shorter than 2^31 elements.
- `BlockMeta`, `hit_rate`, the sizing formula of the Bloom filter; the string hash is a parameter.
- BloomFilters.ReportedByHash: for hashes whose sums stay within 64 bits; `ReportedIff` with `PositionIsSum` covers the others.
- CheckpointSafety.CheckpointIsSafe: for transactions of which no aborted READ_UNOP_COMMITTED writer had saved a version; `RollbackDefeatsCheckpoint` shows why.
- CommitOrder.VersionsCommitInOrder: for runs whose writers are REPEATABLE_READ or SERIALIZABLE transactions; `CommitKeepsOrderIff` says what the other levels would need, and `PlainWriteEscapesCheck` what plain writes do.
- SnapshotReads.ReadsAreOwnOrCommitted: for runs without READ_UNOP_COMMITTED writers, whose writes are visible before they commit.
- HeapScans.HeapQueryExactIff: for items of one level whose age and source agree; `std::priority_queue` is a list in pop order, which it determines only for such items.
- MergeIterators.TwoMergeIterator.constructor: for children whose own bound is at most the merge's; a query-mode child with a larger bound reports that bound for ever, and the source's skip loop does not end.
- Transactions.Conflict: the file search of the conflict check is taken to report deletions, although its comment (src/lsm/engine.cpp:50 and 65) has the search return nothing for them; `SkippedDeletionEscapesCheck` shows what that would cost.
- Compaction.CompactionPreservesReads: for files with non-empty blocks, no version stored twice, and newer level-0 files holding no older version of a key than older files.
- LevelIterators.LevelIterator.constructor: for children with strictly ascending keys that hold nothing but markers under the empty key and report the same id.
- WalRecords.RoundTrip: for records whose length fits the 16-bit length field; a longer record's length wraps around and its bytes are not modelled.
- WalCleaner.HasUnfinished: for files made of whole records; on other bytes a zero length would never advance.
- Checkpoint.CompressSet: ids are unbounded; the wrap-around at 2^64 - 1 is not modelled.
