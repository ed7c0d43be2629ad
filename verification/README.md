# LevelDB and nanopb, verified models

The iOS app in this repository stores data through two libraries that it
vendors as C and C++ source: LevelDB (`SmartGadrden/Pods/leveldb-library`), an
ordered key-value store kept as a log-structured merge tree, and nanopb
(`SmartGadrden/Pods/nanopb`), a Protocol Buffers encoder and decoder driven by
field descriptors.  This project models both in Dafny and proves what they are
for.  `dafny verify dfyconfig.toml` checks all of it.

## How the modules fit together

**The tree.**  `InternalKeys` defines entries (user key, sequence number, kind,
value), their order, and what a *read* at a snapshot means over a plain set of
entries.  `Versions`, `Inputs`, `Compactions`, `Installs` and `Shapes` hold the
searches, the choice of compaction inputs, the drop rules and what installing a
result keeps.  `Runs` is the state machine: write, snapshot, memtable rotation,
flush, compaction, trivial move.  `Databases` is the database object, whose
methods run those algorithms and take exactly the steps of `Runs`.
`Manifests` folds version edits into one builder; `Recoveries` shows that
replaying what any run logged gives the version the run ended with.  `Scans`
joins the user-facing iterator to the database: it moves the merging iterator,
which moves over the memtables and files.  `Contents` compares reads with a plain
map of keys to values.  `Resurrections` is one concrete run (see "Findings").

**Cursors.**  `Cursors` defines a position in a list and how seek, next and prev
move it.  `DbIterators`, `Mergers`, `TwoLevelIterators` and the iterator in
`Blocks` are objects that change direction and skip things, each proved to move
as that plain cursor does, for any mixture of calls; the one in `DbIterators`
moves the one in `Mergers`.

**Files.**  `Coding` (integers, varints, prefixed strings, masked checksums),
`Blocks` (prefix compression and restart points), `IndexKeys` (shortened
separator keys), `Tables` and `TableReaders` (table files and lookups),
`Filters`, `FilterBlocks` and `FilteredTables` (Bloom filters, found again
through the metaindex), `Logs` and `LogReaders` (the 32 KB-block log),
`WriteBatches`, `VersionEdits`, `Checksums` (CRC-32C).  `FileFormats` states the
formats in plain numbers and proves that what is written has them.

**Shared memory.**  `SkipLists` is the memtable's list, with each store and load
a separate step.  `GroupCommits` is the writer queue; `WriterQueues` gives every
caller its own place in `Write` and refines it; `CrashRecoveries` reads back what
is left of its log after a stop at any instant.  `HandleTables` and `Caches` are
the hash table and the LRU cache.  `Inductions` holds induction rules over
predicates on numbers and on lists.

**Protocol Buffers.**  `ProtobufWires` (varints, zig-zag), `ProtobufMessages`
(encoding and decoding by descriptor), `ProtobufStreams` (the output stream and
the two passes over submessages), `ProtobufDecoders` (the field iterator and the
required-field bitmap), `ProtobufRecords` (what each record of a message does to
the slots), `ProtobufOrders` (records in any order and number), `ProtobufFormats`
(the wire format in plain numbers), `ProtobufRoundTrips`, `ProtobufSizes`.

What each algorithm computes is a function of values; the class or method that
runs it as the source does (fields updated in place, loops) is proved equal to
that function, and the properties are lemmas about it.  Section names of the
Protocol Buffers encoding specification used: "Base 128 Varints", "Signed
Integers", "Length-Delimited Records", "Packed Repeated Fields".  The checksum
follows section 12.1 of RFC 3720.

## Findings

Three properties one might expect do not hold of the code.  Each has a concrete
input and an exact condition.

- **A deleted value can come back.**  A compaction drops a tombstone when no
  level below its output can hold the key, but `inputs_[1]` is not extended by
  boundary files (`version_set.cc:1407` extends `inputs_[0]` only), so the next
  file of the output level can keep an older value of that key.
  `Resurrections.DeletedValueComesBack` is a run of the code's own steps, from an
  empty database, after which a deleted key reads as its old value.  Put key 2 and flush
  it to level 2; take a snapshot; put key 1, delete key 2 and flush both to level 1, since
  level 2 overlaps.  A manual compaction of level 1 keeps both entries of key 2 for the
  snapshot and cuts its output between the tombstone and the old value; key 1's value may
  be any, so it can be as long as the size limit needs.  Release the snapshot, put key 1
  and flush it to level 1.  The next compaction of level 1 takes only the first of the two
  files below.
  `Installs.CompactionPreservesReads` and `Runs.CompactKeepsReads` give the
  condition: reads are kept if and only if no tombstone dropped was the newest
  visible entry above a value left behind; `Installs.NoBoundaryFileSuffices` says
  when choosing inputs prevents it.  The shape of the tree does not depend on this
  and is proved for every run.
- **Decoding into a used edit object.**  `VersionEdit::Clear` leaves the compaction
  pointers (`version_edit.cc:26-39`), so `DecodeFrom` appends to them:
  `VersionEdits.EditRoundTripIff` says decoding gives the encoded edit exactly when
  the object had none.  Recovery uses a new object for each record.
- **A file number used twice.**  An added file takes its number off the deleted
  ones (`version_set.cc:655-692`), so one builder over several edits can bring a deleted
  file back that saving after each edit would not.  `Manifests.OneMoreEdit` gives the
  condition for one edit more: the two agree if and only if no file of the level that was
  deleted before has a number that the edit adds, unless it is itself one of the files
  added.  `Manifests.OneSaveIff` extends it to every point of a sequence of edits, and
  `Manifests.ReaddedNumberComesBack` is an input that fails.  `Recoveries.RunIsLogged`
  shows that no run logs such edits.

## Model

| member | source | states |
|---|---|---|
| `Versions.FindFile` | SmartGadrden/Pods/leveldb-library/db/version_set.cc:88-106 | The binary search returns the first file whose largest key is at or after the target, or the number of files. |
| `Versions.SomeFileOverlapsRange` | SmartGadrden/Pods/leveldb-library/db/version_set.cc:122-157 | True exactly when some file of the level meets the user-key range, for the linear scan of level 0 and the binary search below it. |
| `Inputs.PickLevelForMemTableOutput` | SmartGadrden/Pods/leveldb-library/db/version_set.cc:491-516 | The level is at most 2; when it is not 0, no file at or above it meets the range and no level on the way had too many bytes two levels down; when it is not 2, a file of level 0 or of the next level meets the range, or there are too many bytes two levels down. |
| `Versions.FilesToSearch` | SmartGadrden/Pods/leveldb-library/db/version_set.cc:341-376 | The files searched at a level: in level 0 all that meet the key, newest number first; below, the one the binary search finds. |
| `Versions.SortedLevelSearch` | SmartGadrden/Pods/leveldb-library/db/version_set.cc:365-376 | In a level of disjoint files, searching only the file found gives the level's newest visible entry, even when one user key spans several files. |
| `Versions.Get` | SmartGadrden/Pods/leveldb-library/db/version_set.cc:326-421 | In every well-shaped version, the search order finds exactly the newest entry at the snapshot over all files, or nothing when there is none. |
| `Versions.GetInRunFindsNewest` | SmartGadrden/Pods/leveldb-library/db/memtable.cc:100-134 | Seeking the lookup key in a sorted run finds the newest visible entry of the user key. |
| `Inputs.GetOverlappingInputs` | SmartGadrden/Pods/leveldb-library/db/version_set.cc:519-559 | Terminates; in level 0 the range grows to the least one that includes the given range and is closed under overlap; exactly the files meeting it are returned, in level order. |
| `Inputs.FindSmallestBoundaryFile` | SmartGadrden/Pods/leveldb-library/db/version_set.cc:1344-1362 | The smallest file that starts past the key with the same user key, or none. |
| `Inputs.AddBoundaryInputs` | SmartGadrden/Pods/leveldb-library/db/version_set.cc:1378-1401 | Terminates; each file added is the smallest that starts past the largest key so far with its user key, until there is none; neighbours stay neighbours. |
| `Inputs.BoundaryClosedLeavesOnlyNewer` | SmartGadrden/Pods/leveldb-library/db/version_set.cc:1364-1377 | A run of neighbouring files with no boundary file after it leaves only newer entries of its user keys behind. |
| `Inputs.ClosedRangeLeavesOnlyNewer` | SmartGadrden/Pods/leveldb-library/db/version_set.cc:519-559 | The files of a range closed under overlap share no user key with the files left behind. |
| `Inputs.PickCompaction` | SmartGadrden/Pods/leveldb-library/db/version_set.cc:1270-1322 | From any seed file: below level 0 the seed alone; in level 0 all files that meet the least range around its user keys that is closed under overlap. |
| `Inputs.CompactRange` | SmartGadrden/Pods/leveldb-library/db/version_set.cc:1464-1495 | Nothing exactly when no file meets the user-key range; in level 0 the files of the least closed range around it; below, a nonempty prefix of the files that meet it. |
| `Inputs.SetupOtherInputs` | SmartGadrden/Pods/leveldb-library/db/version_set.cc:1403-1462 | `inputs_[1]` is every file of the next level that meets the range from the smallest to the largest user key of `inputs_[0]`, and no other; `inputs_[0]` is the picked files with their boundary files or, only where that needs no more of the next level, those of the range of both; it leaves only newer entries behind. |
| `Compactions.Compaction.IsBaseLevelForKey` | SmartGadrden/Pods/leveldb-library/db/version_set.cc:1533-1552 | For nondecreasing keys the cursors that only move forward answer as a full scan of the deeper levels. |
| `Compactions.Compaction.ShouldDrop` | SmartGadrden/Pods/leveldb-library/db/db_impl.cc:929-963 | The loop's decision, from the previous key only, is the drop rule over the whole input; an entry kept at or below the smallest snapshot is the newest of its key there and, if a tombstone, has a file below the output level around its key. |
| `Compactions.Compaction.DoCompactionWork` | SmartGadrden/Pods/leveldb-library/db/db_impl.cc:878-1036 | The outputs hold exactly the surviving entries, in order, in valid, disjoint, freshly numbered files, wherever the loop cuts them; at or below the smallest snapshot they hold at most one entry of each user key, and a tombstone only if some file of a level two or more below has the key in its range. |
| `Compactions.NothingElseCouldGo` | SmartGadrden/Pods/leveldb-library/db/db_impl.cc:929-963 | Of the entries that survive, no two of one user key are at or below the smallest snapshot, and each tombstone there has a file two or more levels below around its key. |
| `Installs.CompactionPreservesReads` | SmartGadrden/Pods/leveldb-library/db/db_impl.cc:890-963 | Replacing the inputs by their survivors keeps every read at or after the smallest snapshot if and only if no dropped tombstone was the newest visible entry of its key above a value left behind. |
| `Installs.ExposureIsInNextLevel` | SmartGadrden/Pods/leveldb-library/db/version_set.cc:1403-1462 | With the code's own inputs, a value can be exposed only in a file of the next level, below a tombstone of `inputs_[1]`. |
| `Installs.ClosedInputsExposeNothing` | SmartGadrden/Pods/leveldb-library/db/db_impl.cc:945-956 | When `inputs_[1]` leaves only newer entries behind, no key is exposed. |
| `Installs.NoBoundaryFileSuffices` | SmartGadrden/Pods/leveldb-library/db/version_set.cc:1378-1401 | `inputs_[1]` leaves only newer entries behind as soon as its level has no boundary file of it. |
| `Shapes.InstallKeepsShape` | SmartGadrden/Pods/leveldb-library/db/version_set.cc:695-754 | Installing compaction outputs or a moved file keeps levels below 0 disjoint, every shallower level newer than every deeper one, and larger level-0 numbers newer. |
| `Shapes.InstallReplacesEntries` | SmartGadrden/Pods/leveldb-library/db/db_impl.cc:860-876 | Installing replaces exactly the inputs' entries by the outputs'. |
| `Shapes.FlushKeepsShape` | SmartGadrden/Pods/leveldb-library/db/version_set.cc:491-516 | Adding a flushed memtable at a level that `PickLevelForMemTableOutput` allows keeps the shape. |
| `Runs.StepKeepsInv` | SmartGadrden/Pods/leveldb-library/db/db_impl.cc:535-566 | Every step keeps the shape, the order newest-in-memory, the bounds of sequence and file numbers; compactions are not restricted. |
| `Runs.RunKeepsInv` | SmartGadrden/Pods/leveldb-library/db/db_impl.cc:878-1036 | So in every state of every run of writes, snapshots, rotations, flushes, compactions and trivial moves. |
| `Runs.CompactKeepsReads` | SmartGadrden/Pods/leveldb-library/db/db_impl.cc:890-963 | A compaction keeps a key's agreement with the write history exactly when it does not expose that key. |
| `Runs.StepKeepsReads` | SmartGadrden/Pods/leveldb-library/db/db_impl.cc:1166-1174 | Every other step keeps it, for all reads at or after the smallest snapshot. |
| `Runs.LiveSnapshotsSeeHistory` | SmartGadrden/Pods/leveldb-library/db/snapshot.h:39-91 | In every run, at every live snapshot, reads of a key that no compaction exposed are those of the full write history. |
| `Contents.DatabaseIsMap` | SmartGadrden/Pods/leveldb-library/include/leveldb/db.h:63-88 | In every run, whatever was flushed and compacted in between, a key that no compaction exposed reads as the map that the writes so far add up to, operation by operation: the value put last, or nothing when it was deleted since. |
| `Contents.SnapshotIsMap` | SmartGadrden/Pods/leveldb-library/include/leveldb/db.h:98-102 | And at a live snapshot it reads as the map of the writes before that snapshot was taken. |
| `Resurrections.DeletedValueComesBack` | SmartGadrden/Pods/leveldb-library/db/version_set.cc:1403-1422 | For any first value of key 1: a run from the empty database, by the code's own steps, after which a key that was deleted and never rewritten reads as its old value. |
| `Databases.Install` | SmartGadrden/Pods/leveldb-library/db/db_impl.cc:860-876 | The edit of a compaction, logged and applied, deletes exactly the inputs and adds exactly the outputs, each level in order. |
| `Databases.MergedInput` | SmartGadrden/Pods/leveldb-library/db/version_set.cc:1237-1268 | Merging input files that share no entry gives the sorted sequence of exactly their entries. |
| `Databases.RunCompaction` | SmartGadrden/Pods/leveldb-library/db/db_impl.cc:878-1036 | Merging the chosen inputs and running the loop gives valid, disjoint, numbered files of exactly the survivors, with one entry of a user key at most and no tombstone without need at or below the smallest snapshot. |
| `Databases.CompactionLeavesLittle` | SmartGadrden/Pods/leveldb-library/db/db_impl.cc:890-894 | So it is of every compaction step of a database, with the oldest live snapshot or else the last sequence number for the smallest snapshot. |
| `Databases.Database.Write` | SmartGadrden/Pods/leveldb-library/db/db_impl.cc:1185-1256 | A batch gets consecutive sequence numbers and is a write step. |
| `Databases.Database.CompactMemTable` | SmartGadrden/Pods/leveldb-library/db/db_impl.cc:535-566 | Writing the immutable memtable as a table at the picked level is a flush step. |
| `Databases.WriteLevel0Table` | SmartGadrden/Pods/leveldb-library/db/db_impl.cc:491-533 | The table written and where it goes; an empty memtable makes none. |
| `Databases.Database.CompactFiles` | SmartGadrden/Pods/leveldb-library/db/db_impl.cc:718-743 | Setting up inputs from the picked files and moving or merging them is a trivial-move or compaction step, from exactly the inputs that `SetupOtherInputs` gives for these files, that keeps the object valid. |
| `Databases.Database.BackgroundCompaction` | SmartGadrden/Pods/leveldb-library/db/db_impl.cc:688-767 | So for a compaction picked from any file of any level, from the inputs set up over what `PickCompaction` picks for it. |
| `Databases.Database.ManualCompaction` | SmartGadrden/Pods/leveldb-library/db/db_impl.cc:695-716 | A step happens exactly when some file of the level meets the range; it is a compaction or move from the inputs set up over what `CompactRange` picks, which hold the first such file, in level 0 all of them; otherwise nothing changes. |
| `Databases.Database.Get` | SmartGadrden/Pods/leveldb-library/db/db_impl.cc:1100-1145 | Memtable, immutable memtable, version: the only answer that a read over everything stored has, and the one of the write history at a live snapshot of a key not exposed. |
| `Databases.ClosedCompactionExposesNothing` | SmartGadrden/Pods/leveldb-library/db/version_set.cc:1403-1462 | A compaction whose next-level inputs leave only newer entries behind exposes no key. |
| `Manifests.OneMoreEdit` | SmartGadrden/Pods/leveldb-library/db/version_set.cc:655-692 | Adding one more edit before a single save gives what saving first and then applying it gives, if and only if the edit brings back no file deleted before. |
| `Manifests.OneSaveIff` | SmartGadrden/Pods/leveldb-library/db/version_set.cc:650-754 | At every point of a sequence of edits one builder saved once gives what saving after each edit gives, if and only if no edit brings back a deleted file. |
| `Manifests.OneSaveSuffices` | SmartGadrden/Pods/leveldb-library/db/version_set.cc:650-739 | So one builder over all edits and a single save is enough when no edit adds a number its level ever had. |
| `Manifests.ReaddedNumberComesBack` | SmartGadrden/Pods/leveldb-library/db/version_set.cc:655-692 | An input that fails the condition: with valid files, a number deleted and added again with another file brings the deleted file back. |
| `Manifests.SaveLevel` | SmartGadrden/Pods/leveldb-library/db/version_set.cc:695-754 | The merge of base files and added files is the sorted list of those whose number is not deleted. |
| `Manifests.Builder.Apply` | SmartGadrden/Pods/leveldb-library/db/version_set.cc:650-692 | One edit folded in: deletions first, and an added file takes its number off the deleted ones. |
| `Manifests.Recover` | SmartGadrden/Pods/leveldb-library/db/version_set.cc:886-1008 | All edits through one builder give the files of applying them one at a time. |
| `Manifests.LogAndApply` | SmartGadrden/Pods/leveldb-library/db/version_set.cc:801-884 | The new version after one edit: base without the deleted numbers, with the added files, in order. |
| `Manifests.RecoverIsReplay` | SmartGadrden/Pods/leveldb-library/db/version_set.cc:886-1008 | Recovering and applying in turn give identical versions. |
| `Recoveries.StepTakes` | SmartGadrden/Pods/leveldb-library/db/version_set.cc:801-884 | Each step of a run changes the levels as its edit says, adds files only under new numbers or from a shallower level, or logs nothing. |
| `Recoveries.RunIsLogged` | SmartGadrden/Pods/leveldb-library/db/version_set.cc:650-754 | The edits that any run logs can be replayed: no level gets a file number twice, and each level is what its edits make it. |
| `Recoveries.Reopen` | SmartGadrden/Pods/leveldb-library/db/version_set.cc:886-1008 | Replaying the manifest of any run gives exactly the version the run ended with, file by file. |
| `Scans.SourcesAreDatabase` | SmartGadrden/Pods/leveldb-library/db/db_impl.cc:1062-1087 | Memtables, level-0 files and whole deeper levels are sorted, share no entry, and together are the database. |
| `Scans.NewInternalIterator` | SmartGadrden/Pods/leveldb-library/db/db_impl.cc:1062-1087 | The merging iterator over memtables, level-0 files and whole deeper levels merges exactly the database, in order. |
| `Scans.NewIterator` | SmartGadrden/Pods/leveldb-library/db/db_impl.cc:1147-1158 | The user-facing iterator over the merging iterator over all sources; its view holds, in key order, exactly the bindings that reads at its snapshot find. |
| `Scans.ScanAgreesWithHistory` | SmartGadrden/Pods/leveldb-library/db/version_set.cc:230-246 | At a live snapshot those are the write history's, for every key no compaction exposed. |
| `DbIterators.ViewIsSnapshot` | SmartGadrden/Pods/leveldb-library/db/db_iter.cc:168-198 | The view of a sorted run at a sequence number is, in strictly increasing key order, exactly the keys whose newest visible entry is a value. |
| `DbIterators.DBIter.Next` | SmartGadrden/Pods/leveldb-library/db/db_iter.cc:141-166 | Moves one position in the view, also after moving backwards. |
| `DbIterators.DBIter.Prev` | SmartGadrden/Pods/leveldb-library/db/db_iter.cc:200-225 | Moves one position back in the view, also after moving forwards. |
| `DbIterators.DBIter.Seek` | SmartGadrden/Pods/leveldb-library/db/db_iter.cc:269-281 | Lands on the first binding at or after the target. |
| `DbIterators.DBIter.FindNextUserEntry` | SmartGadrden/Pods/leveldb-library/db/db_iter.cc:168-198 | Stops at the first entry to show from here, skipping hidden and deleted ones. |
| `DbIterators.DBIter.FindPrevUserEntry` | SmartGadrden/Pods/leveldb-library/db/db_iter.cc:227-267 | Stops before the entry to show, whose key and value are saved. |
| `DbIterators.PerformAll` | SmartGadrden/Pods/leveldb-library/db/db_iter.cc:141-299 | Any mixture of seeks, nexts and prevs moves the iterator, and with it the merging iterator below, as a cursor over the view. |
| `Mergers.MergeExists` | SmartGadrden/Pods/leveldb-library/table/merger.cc:14-29 | Sorted children with pairwise distinct keys have a merged sequence, with the rank of every child position. |
| `Mergers.MergingIterator.Next` | SmartGadrden/Pods/leveldb-library/table/merger.cc:55-79 | Moves one position in the merged sequence, with the direction switch. |
| `Mergers.MergingIterator.Prev` | SmartGadrden/Pods/leveldb-library/table/merger.cc:81-108 | Moves one position back, with the direction switch. |
| `Mergers.PerformAll` | SmartGadrden/Pods/leveldb-library/table/merger.cc:31-108 | Any mixture of operations moves the iterator as a cursor over the merged sequence. |
| `Mergers.ReadAll` | SmartGadrden/Pods/leveldb-library/table/merger.cc:31-79 | Reading from start to end gives the sorted sequence of all the children's entries. |
| `TwoLevelIterators.TwoLevelIterator.Seek` | SmartGadrden/Pods/leveldb-library/table/two_level_iterator.cc:82-87 | Lands on the first pair at or after the target over all blocks, past empty ones. |
| `TwoLevelIterators.TwoLevelIterator.SkipEmptyDataBlocksForward` | SmartGadrden/Pods/leveldb-library/table/two_level_iterator.cc:115-126 | Ends on the first pair of the next non-empty block, or past the last. |
| `TwoLevelIterators.PerformAll` | SmartGadrden/Pods/leveldb-library/table/two_level_iterator.cc:82-139 | Any mixture of operations moves the iterator as a cursor over the concatenation of the blocks. |
| `SkipLists.StepKeepsInv` | SmartGadrden/Pods/leveldb-library/db/skiplist.h:337-368 | Every single load and store keeps each level a sorted list, part of the one below, and every search where it can finish correctly. |
| `SkipLists.LevelsAreSortedSublists` | SmartGadrden/Pods/leveldb-library/db/skiplist.h:337-368 | In every intermediate state of every run each level is sorted and a sub-list of the level below. |
| `SkipLists.SearchIsLinearizable` | SmartGadrden/Pods/leveldb-library/db/skiplist.h:262-322 | A finished search (at or after, less than, last) answers for the key set on level 0 at its last load, whatever inserts ran in between. |
| `SkipLists.SearchSeesOlderKeys` | SmartGadrden/Pods/leveldb-library/db/skiplist.h:262-281 | A search misses no key that was present before it started. |
| `Blocks.FastPathIsGeneral` | SmartGadrden/Pods/leveldb-library/table/block.cc:54-74 | Decoding an entry header with the three-byte fast path is decoding three varints. |
| `Blocks.EntryRoundTrip` | SmartGadrden/Pods/leveldb-library/table/block_builder.cc:72-106 | Decoding an encoded entry gives its lengths and where its bytes start. |
| `FileFormats.EntryFormat` | SmartGadrden/Pods/leveldb-library/table/block_builder.cc:89-98 | An entry is three varints (shared, not shared, value length), the rest of the key and the value. |
| `Blocks.BlockBuilder.Add` | SmartGadrden/Pods/leveldb-library/table/block_builder.cc:72-106 | The buffer, restart array, counter and last key after one more pair are those of the format. |
| `Blocks.FinishedStateIsBlock` | SmartGadrden/Pods/leveldb-library/table/block_builder.cc:62-70 | The finished bytes of any list of pairs are a well-formed block of that list, with a restart point every interval. |
| `Blocks.SharingIsLongest` | SmartGadrden/Pods/leveldb-library/table/block_builder.cc:72-87 | A key that is not at a restart point shares all it can with the one before. |
| `Blocks.BlockIter.Seek` | SmartGadrden/Pods/leveldb-library/table/block.cc:163-201 | The restart binary search and linear scan land on the first key at or after the target. |
| `Blocks.BlockIter.Prev` | SmartGadrden/Pods/leveldb-library/table/block.cc:142-161 | Moves back exactly one entry, from any position. |
| `Blocks.PerformAll` | SmartGadrden/Pods/leveldb-library/table/block.cc:137-251 | Any mixture of operations moves the iterator as a cursor over the pairs. |
| `Blocks.RoundTrip` | SmartGadrden/Pods/leveldb-library/table/block_builder.cc:62-106 | Building a block of any strictly increasing list below 2^32 bytes, at any restart interval, and reading it gives the list. |
| `IndexKeys.FindShortestSeparator` | SmartGadrden/Pods/leveldb-library/util/comparator.cc:29-50 | The in-place loop computes the shortened separator. |
| `IndexKeys.SeparatorIsBetween` | SmartGadrden/Pods/leveldb-library/util/comparator.cc:29-50 | The separator is at or after the start and before the limit. |
| `IndexKeys.SeparatorIsShortest` | SmartGadrden/Pods/leveldb-library/util/comparator.cc:29-51 | When the separator is not the start itself, no shorter string is at or after the start and before the limit. |
| `IndexKeys.SeparatorChangesIff` | SmartGadrden/Pods/leveldb-library/util/comparator.cc:37-49 | It is the start itself if and only if the start is a prefix of the limit or the first bytes that differ are neighbours. |
| `IndexKeys.ShortSuccessorIsAfter` | SmartGadrden/Pods/leveldb-library/util/comparator.cc:52-64 | The short successor is not before the key. |
| `IndexKeys.ShortSuccessorIsShortest` | SmartGadrden/Pods/leveldb-library/util/comparator.cc:53-65 | No shorter string is at or after the key. |
| `IndexKeys.InternalSeparatorSeparates` | SmartGadrden/Pods/leveldb-library/db/dbformat.cc:69-86 | The internal separator is at or after its start and before the limit in internal-key order, or the start itself. |
| `IndexKeys.InternalSeparatorIsShorter` | SmartGadrden/Pods/leveldb-library/db/dbformat.cc:69-86 | It changes the key exactly when the separator of the user keys is shorter; then it is shorter too and ends in the tag of the largest sequence number. |
| `IndexKeys.InternalRankOrder` | SmartGadrden/Pods/leveldb-library/db/dbformat.cc:51-67 | Ranking byte-string internal keys by a number agrees with their comparison: user key up, tag down. |
| `FileFormats.InternalKeyFormat` | SmartGadrden/Pods/leveldb-library/db/dbformat.cc:14-23 | An internal key ends in 8 bytes, little-endian: 256 times the sequence number, plus 1 for a value and 0 for a deletion. |
| `Tables.HandleRoundTrip` | SmartGadrden/Pods/leveldb-library/table/format.cc:15-29 | Decoding an encoded block handle gives it back and leaves what follows. |
| `Tables.FooterRoundTrip` | SmartGadrden/Pods/leveldb-library/table/format.cc:31-62 | Decoding an encoded footer gives both handles. |
| `FileFormats.FooterFormat` | SmartGadrden/Pods/leveldb-library/table/format.cc:31-40 | A footer is two handles, zeros up to 40 bytes and the magic number 0xdb4775248b80fb57, 48 bytes in all. |
| `Tables.WrittenBlockIsRead` | SmartGadrden/Pods/leveldb-library/table/format.cc:64-139 | A block written with its trailer is read back, whatever is appended later, and passes its checksum. |
| `FileFormats.TrailerFormat` | SmartGadrden/Pods/leveldb-library/table/table_builder.cc:176-194 | Behind a block come type 0 and the checksum of both, rotated by 15 bits and offset. |
| `Tables.TableBuilder.Add` | SmartGadrden/Pods/leveldb-library/table/table_builder.cc:94-123 | The builder after one more pair: delayed index entry, open block, flush when full. |
| `Tables.TableBuilder.Finish` | SmartGadrden/Pods/leveldb-library/table/table_builder.cc:198-253 | The bytes of the finished file. |
| `Tables.AddKeepsGood` | SmartGadrden/Pods/leveldb-library/table/table_builder.cc:94-139 | While pairs are added, blocks written can be read back and every index key separates its block from the next pair. |
| `Tables.AddKeepsBlocksFull` | SmartGadrden/Pods/leveldb-library/table/table_builder.cc:119-125 | A block is written as soon as it has the block size, so each is at least that large and without its last pair was smaller. |
| `Tables.FinishedIsTable` | SmartGadrden/Pods/leveldb-library/table/table_builder.cc:198-253 | The finished file of a sorted list is a table of it: readable blocks behind separating index keys. |
| `Tables.TailOpens` | SmartGadrden/Pods/leveldb-library/table/table.cc:38-82 | Opening the finished file finds its index block and its metaindex block. |
| `Tables.BuildTable` | SmartGadrden/Pods/leveldb-library/table/table_builder.cc:94-253 | Adding any sorted list pair by pair and finishing leaves such a table, every block but the last just full, every index key the one that the internal comparator finds for the pairs on both sides, whose index block opening finds. |
| `TableReaders.OneBlockSuffices` | SmartGadrden/Pods/leveldb-library/table/table.cc:216-244 | The one block that the index leads to gives the answer for the whole file. |
| `TableReaders.InternalGet` | SmartGadrden/Pods/leveldb-library/table/table.cc:216-244 | Opening at most one block finds the first pair at or after the key, or nothing although no pair of its user key follows. |
| `TableReaders.Get` | SmartGadrden/Pods/leveldb-library/table/table.cc:216-244 | A lookup of a user key at a sequence number finds the newest entry up to it whenever the file has one. |
| `Filters.FilterMatchesExactly` | SmartGadrden/Pods/leveldb-library/util/bloom.cc:28-80 | A filter matches exactly the keys all of whose probes, by double hashing modulo 2^32, are probes of its own keys. |
| `Filters.BloomHasNoFalseNegatives` | SmartGadrden/Pods/leveldb-library/util/bloom.cc:28-80 | A key the filter was made from always matches, for any hash and any number of bits. |
| `Filters.CreateFilter` | SmartGadrden/Pods/leveldb-library/util/bloom.cc:28-54 | The nested loops append exactly that filter. |
| `Filters.MayMatch` | SmartGadrden/Pods/leveldb-library/util/bloom.cc:56-80 | The probe loop answers whether all probes are set. |
| `FilterBlocks.FilterBlockBuilder.Finish` | SmartGadrden/Pods/leveldb-library/table/filter_block.cc:35-49 | The bytes of the filter block for the windows the calls add up to. |
| `FileFormats.FilterBlockFormat` | SmartGadrden/Pods/leveldb-library/table/filter_block.cc:35-49 | A filter block ends in 4 bytes for each window, where they start, and the byte 11. |
| `FilterBlocks.WindowsHoldTheirBlocks` | SmartGadrden/Pods/leveldb-library/table/filter_block.cc:21-33 | After any legal run of calls, each 2 KB window holds exactly the keys of the blocks that start in it. |
| `FilterBlocks.ReaderIsExact` | SmartGadrden/Pods/leveldb-library/table/filter_block.cc:77-104 | A finished block answers as the policy does on the window's own filter, and yes past the last window. |
| `FilterBlocks.FilterBlockHasNoFalseNegatives` | SmartGadrden/Pods/leveldb-library/table/filter_block.cc:21-104 | After any legal run a key added to a block is not denied at that block's offset. |
| `FilteredTables.InternalPolicyAccepts` | SmartGadrden/Pods/leveldb-library/db/dbformat.cc:105-119 | The internal filter policy never denies an internal key whose user key was added. |
| `FilteredTables.AddCalls` | SmartGadrden/Pods/leveldb-library/table/table_builder.cc:94-139 | What adding a pair tells the filter, with and without a flush. |
| `FilteredTables.FilterOfTableIsSound` | SmartGadrden/Pods/leveldb-library/table/table_builder.cc:111-139 | The filter a table builder drives never denies a user key that a data block holds. |
| `FilteredTables.ReadFilter` | SmartGadrden/Pods/leveldb-library/table/table.cc:84-134 | The metaindex leads to the filter block that was written. |
| `FilteredTables.WriteThenGet` | SmartGadrden/Pods/leveldb-library/table/table.cc:155-244 | A table written with a filter and searched through the filter found in it answers as a scan of the list would. |
| `Coding.VarintRoundTrip` | SmartGadrden/Pods/leveldb-library/util/coding.cc:112-157 | Decoding an encoded varint gives the number and leaves what follows. |
| `Coding.Varint32IsVarint` | SmartGadrden/Pods/leveldb-library/util/coding.cc:47-73 | The unrolled 32-bit encoder is the base-128 encoding. |
| `Coding.VarintIsBase128` | SmartGadrden/Pods/leveldb-library/util/coding.cc:81-90 | The bytes are the base-128 digits, least significant first, with 128 added to all but the last, and no more of them than needed. |
| `Coding.LengthPrefixedRoundTrip` | SmartGadrden/Pods/leveldb-library/util/coding.cc:98-190 | A length-prefixed string is read back, and what follows is left. |
| `Coding.UnmaskMask` | SmartGadrden/Pods/leveldb-library/util/crc32c.h:29-38 | Unmasking a masked checksum gives it back. |
| `Checksums.ExtendInPieces` | SmartGadrden/Pods/leveldb-library/util/crc32c.cc:276-377 | Extending a checksum by one buffer and then another is extending it by both. |
| `Checksums.RotateStep` | SmartGadrden/Pods/leveldb-library/util/crc32c.cc:349-358 | Feeding a word to the oldest of the four partial results, which becomes the newest, keeps what they stand for together. |
| `Checksums.StrideAdvances` | SmartGadrden/Pods/leveldb-library/util/crc32c.cc:293-300 | The four stride tables together advance a word over 16 zero bytes. |
| `Checksums.Extend` | SmartGadrden/Pods/leveldb-library/util/crc32c.cc:276-377 | The aligned four-stride loop with word rotation and combination equals one byte at a time, for every buffer, length and address. |
| `Checksums.TablesAreGood` | SmartGadrden/Pods/leveldb-library/util/crc32c.cc:20-243 | The tables of any polynomial are linear and advance by 16 bytes, as the fast form needs. |
| `Checksums.BytewiseIsBitSerial` | SmartGadrden/Pods/leveldb-library/util/crc32c.cc:286-291 | A table step is eight steps of polynomial division, so the simple form is bit-serial division. |
| `Checksums.Crc32c` | SmartGadrden/Pods/leveldb-library/util/crc32c.cc:276-377 | With the Castagnoli tables the fast form is the bit-serial checksum. |
| `Checksums.CastagnoliTerms` | SmartGadrden/Pods/leveldb-library/util/crc32c.cc:20-64 | The polynomial is that of section 12.1 of RFC 3720, term by term. |
| `Logs.Writer.AddRecord` | SmartGadrden/Pods/leveldb-library/db/log_writer.cc:34-80 | The file grows by exactly the fragments of the record, from any block offset, with trailers filled. |
| `FileFormats.LogRecordFormat` | SmartGadrden/Pods/leveldb-library/db/log_writer.cc:34-108 | What is appended for a record, in plain numbers: zeros where fewer than 7 of 32768 bytes are left, then pieces of masked checksum, two bytes of length, type 1 to 4 and payload, every one but the last filling its block. |
| `LogReaders.ReadEncodedRecord` | SmartGadrden/Pods/leveldb-library/db/log_reader.cc:56-174 | Reading where a record was written, across any number of blocks, gives it back and stops behind it. |
| `LogReaders.Reader.NextRecord` | SmartGadrden/Pods/leveldb-library/db/log_reader.cc:56-174 | The reading loop refines the recursive reader, on any bytes. |
| `LogReaders.ReadFile` | SmartGadrden/Pods/leveldb-library/db/log_reader.cc:56-271 | Reading any byte-prefix of a log returns exactly the records wholly inside it, with no corruption reported. |
| `LogReaders.RoundTrip` | SmartGadrden/Pods/leveldb-library/db/log_writer.cc:23-108 | Writing any records, reopening the writer anywhere in between, and reading them gives exactly those records. |
| `WriteBatches.OperationsRoundTrip` | SmartGadrden/Pods/leveldb-library/db/write_batch.cc:42-109 | Decoding encoded operations gives them back, all of them. |
| `FileFormats.BatchFormat` | SmartGadrden/Pods/leveldb-library/db/write_batch.cc:5-38 | A batch is 8 bytes of sequence number, 4 of count, and for each operation type 1 with key and value or type 0 with the key. |
| `WriteBatches.WriteBatch.Append` | SmartGadrden/Pods/leveldb-library/db/write_batch.cc:144-148 | The bytes after appending are those of both operation lists under the first sequence number. |
| `WriteBatches.WriteBatch.InsertInto` | SmartGadrden/Pods/leveldb-library/db/write_batch.cc:116-137 | Replaying a batch's own bytes adds each operation under the next sequence number. |
| `WriteBatches.Replay` | SmartGadrden/Pods/leveldb-library/db/write_batch.cc:42-80 | On any bytes: the operations before the first malformed one are inserted, and success needs all of them and the right count. |
| `VersionEdits.FieldsRoundTrip` | SmartGadrden/Pods/leveldb-library/db/version_edit.cc:107-205 | Decoding any sequence of encoded fields assigns them in order. |
| `FileFormats.EditFieldFormat` | SmartGadrden/Pods/leveldb-library/db/version_edit.cc:12-85 | A field of an edit is the varint of its number, 1 to 7 or 9, and what the format lists for it. |
| `VersionEdits.EditRoundTrip` | SmartGadrden/Pods/leveldb-library/db/version_edit.cc:41-205 | Decoding an encoded edit gives it back, behind compaction pointers the object already had. |
| `VersionEdits.EditRoundTripIff` | SmartGadrden/Pods/leveldb-library/db/version_edit.cc:26-39 | So it gives the edit back exactly when the object had none. |
| `VersionEdits.RoundTrip` | SmartGadrden/Pods/leveldb-library/db/version_edit.cc:41-205 | Writing an edit object and reading it into a new one gives the same value. |
| `GroupCommits.BuildBatchGroup` | SmartGadrden/Pods/leveldb-library/db/db_impl.cc:1260-1306 | The group is the longest prefix of the queue whose members may all join, and its operations are theirs in order. |
| `GroupCommits.StepKeepsInv` | SmartGadrden/Pods/leveldb-library/db/db_impl.cc:1185-1256 | Every step keeps groups consecutive stretches of the callers in order of arrival, and the log and memtable the finished groups and then the one in progress. |
| `GroupCommits.RangesAreDisjoint` | SmartGadrden/Pods/leveldb-library/db/db_impl.cc:1204-1207 | Groups take disjoint, increasing ranges of sequence numbers. |
| `GroupCommits.SnapshotSeesWholeGroups` | SmartGadrden/Pods/leveldb-library/db/db_impl.cc:1236-1237 | A reader at a published sequence number sees exactly the groups finished by then, each whole, while another is being inserted. |
| `GroupCommits.OkIsLoggedAndApplied` | SmartGadrden/Pods/leveldb-library/db/db_impl.cc:1209-1235 | A write that returned OK stands in a logged record and, operation for operation, in the memtable; synced if it asked. |
| `GroupCommits.LogReplaysToGroups` | SmartGadrden/Pods/leveldb-library/db/db_impl.cc:1209-1235 | In every state, also after failed writes, the log replays to what the finished groups logged, in order, and then the one in progress. |
| `GroupCommits.LogReplaysToMemIff` | SmartGadrden/Pods/leveldb-library/db/db_impl.cc:1209-1235 | With no group in progress, replaying the log rebuilds the memtable if and only if every logged group succeeded or was empty. |
| `GroupCommits.ByteSizeIsLength` | SmartGadrden/Pods/leveldb-library/db/write_batch.cc:98-109 | The size the grouping rule counts is the length of the batch's bytes. |
| `CrashRecoveries.RecoverLogFile` | SmartGadrden/Pods/leveldb-library/db/db_impl.cc:371-489 | From any byte-prefix of the log file exactly the records wholly inside it are replayed, without an error, and the largest sequence number is theirs. |
| `CrashRecoveries.PrefixIsGroups` | SmartGadrden/Pods/leveldb-library/db/db_impl.cc:1209-1235 | In every reachable state any number of whole log records are the records of whole groups, from the first on. |
| `CrashRecoveries.Recover` | SmartGadrden/Pods/leveldb-library/db/db_impl.cc:371-489 | Whatever instant the writers stop at and however many bytes of the log are left, what is recovered is that of whole groups, in order. |
| `CrashRecoveries.AcknowledgedWriteSurvives` | SmartGadrden/Pods/leveldb-library/db/db_impl.cc:1209-1228 | A write that returned OK is recovered, operation for operation, from every file that keeps the log through its group's record. |
| `WriterQueues.MoveKeepsInv` | SmartGadrden/Pods/leveldb-library/db/db_impl.cc:1185-1256 | Every step of any thread in `Write` keeps the invariant and, seen from the queue, is a step of `GroupCommits` or none. |
| `WriterQueues.OnlyTheFrontWrites` | SmartGadrden/Pods/leveldb-library/db/db_impl.cc:1193-1199 | In every run only the front of the queue is past its wait, and whoever changes the log, the memtable, the published sequence number or pops the queue is it. |
| `WriterQueues.PopsTheGroup` | SmartGadrden/Pods/leveldb-library/db/db_impl.cc:1239-1248 | Popping up to `last_writer` pops exactly the group that was built. |
| `WriterQueues.ReturnedOkIsDurable` | SmartGadrden/Pods/leveldb-library/db/db_impl.cc:1185-1256 | In every run a call that returned OK is logged, applied in the same order and, if it asked for it, synced. |
| `HandleTables.FindIsLookup` | SmartGadrden/Pods/leveldb-library/util/cache.cc:111-120 | Looking in the bucket of a hash is looking in the map. |
| `HandleTables.HandleTable.Insert` | SmartGadrden/Pods/leveldb-library/util/cache.cc:78-92 | The map gains the entry, the one of its name is returned, and the table has at least as many buckets as entries: when one would be missing, their number becomes the least power of two, from 4 on, that is enough. |
| `HandleTables.HandleTable.Remove` | SmartGadrden/Pods/leveldb-library/util/cache.cc:94-102 | The map loses the entry, which is returned. |
| `HandleTables.HandleTable.Resize` | SmartGadrden/Pods/leveldb-library/util/cache.cc:122-146 | Rehashing every entry into new buckets keeps the map; their number is the least power of two, from 4 on, that is not below the number of entries. |
| `HandleTables.PushRepresents` | SmartGadrden/Pods/leveldb-library/util/cache.cc:133-142 | Pushing an entry onto the front of its bucket adds it to the map. |
| `Caches.LRUCache.Lookup` | SmartGadrden/Pods/leveldb-library/util/cache.cc:252-259 | Finds what the table has; its entry gains a reference and leaves the LRU list. |
| `Caches.LRUCache.Release` | SmartGadrden/Pods/leveldb-library/util/cache.cc:261-264 | Gives a reference back: deleted at zero, at the new end of the LRU list when only the cache holds it; that list stays in the order of last release over all calls made so far. |
| `Caches.LRUCache.Insert` | SmartGadrden/Pods/leveldb-library/util/cache.cc:266-303 | The new entry replaces the one of its name; everything evicted was released before every idle entry that stays; only as much is evicted as makes the charge fit, and then it fits or no entry is idle. |
| `Caches.ReleaseOrder` | SmartGadrden/Pods/leveldb-library/util/cache.cc:225-249 | In every run of inserts, lookups, releases, erasures and prunings of a cache, at every point, the entry earlier on the LRU list is the one whose last release was earlier. |
| `Caches.EvictKeepsOrder` | SmartGadrden/Pods/leveldb-library/util/cache.cc:292-298 | Whatever is evicted was last released before every entry that stays on the list. |
| `Caches.LRUCache.FinishErase` | SmartGadrden/Pods/leveldb-library/util/cache.cc:305-316 | An entry off the table leaves its list and the charge, and the cache's reference goes. |
| `Caches.LRUCache.Prune` | SmartGadrden/Pods/leveldb-library/util/cache.cc:323-333 | Every entry without clients leaves, and no other. |
| `Caches.LookupKeepsInv` | SmartGadrden/Pods/leveldb-library/util/cache.cc:217-223 | A reference more keeps lists, charge, table, counts and deletions right. |
| `Caches.ReleaseKeepsInv` | SmartGadrden/Pods/leveldb-library/util/cache.cc:225-236 | So does a reference less. |
| `Caches.EraseKeepsInv` | SmartGadrden/Pods/leveldb-library/util/cache.cc:305-321 | So does erasing an entry. |
| `Caches.ReplaceIsEraseAndAdd` | SmartGadrden/Pods/leveldb-library/util/cache.cc:282-289 | Adding an entry and then finishing the one it replaced is erasing first and adding after. |
| `Caches.UsageIsOfTable` | SmartGadrden/Pods/leveldb-library/util/cache.cc:181-193 | The charge in use is that of exactly the entries in the table, each on one of the two lists. |
| `Caches.DeletedWhenUnheld` | SmartGadrden/Pods/leveldb-library/util/cache.cc:225-236 | Each entry's deleter has run, once, exactly when neither the cache nor a client holds it. |
| `ProtobufWires.EncodeVarintLoop` | SmartGadrden/Pods/nanopb/pb_encode.c:608-628 | The shifting loop writes the base-128 encoding. |
| `ProtobufWires.Varint32RoundTrips` | SmartGadrden/Pods/nanopb/pb_decode.c:187-247 | Every encoded 32-bit number is decoded, and what follows is left. |
| `ProtobufWires.ZigZagRoundTrip` | SmartGadrden/Pods/nanopb/pb_decode.c:1269-1281 | Zig-zag decoding undoes zig-zag encoding on all 64-bit numbers. |
| `ProtobufRecords.SkipFieldSkips` | SmartGadrden/Pods/nanopb/pb_decode.c:278-331 | Skipping the payload of a record of no field takes exactly that payload, for every kind and every value of less than 2^32 bytes. |
| `ProtobufRecords.MessageArrives` | SmartGadrden/Pods/nanopb/pb_decode.c:925-1087 | Decoding an encoded message on top of any slots with room for it merges it in: scalars replace, arrays are appended, submessages are merged, at every depth. |
| `ProtobufOrders.RecordsDecode` | SmartGadrden/Pods/nanopb/pb_decode.c:925-1073 | Any list of records that find room, of any fields or none, decodes to the slots that each record in turn leaves, if every required field of the first 64 has a record; else it fails. |
| `ProtobufOrders.AnyOrderDecodes` | SmartGadrden/Pods/nanopb/pb_decode.c:952-986 | The records of an encoded message, those of different fields in any order, and records of unknown tags anywhere between them, decode to the message. |
| `ProtobufOrders.UnknownRecordsAreSkipped` | SmartGadrden/Pods/nanopb/pb_decode.c:977-986 | Records with tags outside the descriptor, put anywhere between the records of an encoded message, leave the decoded message unchanged. |
| `ProtobufOrders.LastOneWins` | SmartGadrden/Pods/nanopb/pb_decode.c:416-422 | Of several records of a scalar field the last wins, whatever comes before and between. |
| `ProtobufOrders.SubmessagesMerge` | SmartGadrden/Pods/nanopb/pb_decode.c:1503-1526 | A submessage that comes twice is the second merged into the first. |
| `ProtobufOrders.TwoMessagesMerge` | SmartGadrden/Pods/nanopb/pb_decode.c:925-1073 | Merging two messages in turn merges each field outside a union in turn: an absent field of the second leaves what the first gave. |
| `ProtobufOrders.LastMemberIsChosen` | SmartGadrden/Pods/nanopb/pb_decode.c:466-475 | Of several members of a union the last record chooses, on top of defaults, and the other members hold nothing. |
| `ProtobufOrders.UnpackedIsPacked` | SmartGadrden/Pods/nanopb/pb_decode.c:424-464 | The items of a packable array give the same array packed in one record or unpacked in one record each. |
| `ProtobufOrders.OverflowFails` | SmartGadrden/Pods/nanopb/pb_decode.c:424-464 | A record with more items than its array has room for is an error, packed or not. |
| `ProtobufRoundTrips.ValRoundTrip` | SmartGadrden/Pods/nanopb/pb_decode.c:1318-1548 | A value its field can hold is decoded from its encoding, for every kind, submessages included. |
| `ProtobufRoundTrips.FieldRoundTrip` | SmartGadrden/Pods/nanopb/pb_encode.c:341-426 | Decoding one encoded field on top of those before it stores exactly it, whatever its rule. |
| `ProtobufRoundTrips.ArrayRoundTrip` | SmartGadrden/Pods/nanopb/pb_encode.c:147-236 | An array is decoded behind the items already there, packed or one record per item, as long as there is room. |
| `ProtobufRoundTrips.MessageRoundTrip` | SmartGadrden/Pods/nanopb/pb_decode.c:925-1087 | Decoding an encoded message gives it back on present fields and defaults elsewhere, over recursive descriptors. |
| `ProtobufRoundTrips.PlainIsExpected` | SmartGadrden/Pods/nanopb/pb_encode.c:240-337 | That is the very message when absent fields hold their defaults and fields left out as zero have zero for theirs, so nothing is lost. |
| `ProtobufRoundTrips.ZeroIffDefault` | SmartGadrden/Pods/nanopb/pb_encode.c:240-337 | A value is left out as zero if and only if it is the zero default and its kind can be empty: no required field and no byte array of fixed, positive length inside. |
| `ProtobufRoundTrips.RequiredFieldsArePresent` | SmartGadrden/Pods/nanopb/pb_decode.c:1028-1070 | Decoding succeeds only if a record of each of the first 64 required fields came in. |
| `ProtobufStreams.WriteSubmessage` | SmartGadrden/Pods/nanopb/pb_encode.c:717-765 | The sizing pass predicts what the second pass writes; both passes agree with the encoding, at every depth. |
| `ProtobufStreams.WriteArray` | SmartGadrden/Pods/nanopb/pb_encode.c:147-236 | The packed length written first is the length of the items. |
| `ProtobufStreams.EncodedSize` | SmartGadrden/Pods/nanopb/pb_encode.c:567-576 | The size of a message is the number of bytes that encoding writes. |
| `ProtobufStreams.EncodeToBuffer` | SmartGadrden/Pods/nanopb/pb_encode.c:528-550 | Encoding succeeds exactly when the message can be encoded and fits the buffer, and then writes exactly its encoding, which has the wire format: see `ProtobufFormats.MessageFormat`. |
| `ProtobufFormats.TaggedFormat` | SmartGadrden/Pods/nanopb/pb_encode.c:640-704 | A tagged value is the varint of 8 * tag + 0, 1, 2 or 5 by its kind and then a varint (64-bit two's complement or zig-zag where signed), 8 or 4 little-endian bytes, or a length and that many bytes. |
| `ProtobufFormats.ArrayFormat` | SmartGadrden/Pods/nanopb/pb_encode.c:147-236 | An array of numbers is one record under 8 * tag + 2: a length and the payloads of the items; any other is one tagged value per item. |
| `ProtobufFormats.MessageFormat` | SmartGadrden/Pods/nanopb/pb_encode.c:528-550 | An encoded message is the fields present, in descriptor order, each in that format, at every depth. |
| `ProtobufDecoders.FieldIter.FindTag` | SmartGadrden/Pods/nanopb/pb_common.c:78-95 | The circular search from anywhere finds the field of a tag, if there is one. |
| `ProtobufDecoders.CheckSeen` | SmartGadrden/Pods/nanopb/pb_decode.c:1045-1066 | Comparing whole words with all ones, and the last with a mask for equality, answers whether exactly the first so many bits of those words are set. |
| `ProtobufDecoders.CheckIsAllSeen` | SmartGadrden/Pods/nanopb/pb_decode.c:1019-1066 | Only required fields are ever marked, so that test passes if and only if all of the first 64 required fields were seen. |
| `ProtobufDecoders.DecodeNoInit` | SmartGadrden/Pods/nanopb/pb_decode.c:925-1073 | The record loop over the field iterator and the bitmap decodes as the recursive function does, on any bytes, for message types without fields too; what that function gives for known and unknown records is in the rows of `ProtobufOrders`. |
| `ProtobufSizes.FieldsSize` | SmartGadrden/Pods/nanopb/pb_encode.c:567-576 | Every message that fits its descriptor and 2^64 bytes is encoded, in a size computed without encoding. |
| `ProtobufSizes.SendAndReceive` | SmartGadrden/Pods/nanopb/pb_encode.c:528-550 | Every message that fits its descriptor and the buffer arrives: encoded in two passes, decoded record by record, and the very same if absent fields hold their defaults and defaults are zero. |

## Left out

Where the model says less than the source, or nothing:

- Database: the memtable flush that a running compaction lets in between
  (`db_impl.cc:907-918`); flushes, compactions and moves are single steps.
- Database: compaction scores, seek counts, read sampling and the byte limits of compactions; which
  file is picked, whether inputs grow, where outputs are cut and whether a single file is moved
  are left open, so the results hold for any choice.
- Inputs.PickLevelForMemTableOutput: the size of a file is any function of it.
- Database: error statuses, and background errors outside the writer queue.
- CrashRecoveries.RecoverLogFile: flushing a memtable that grows full during recovery, and reusing
  the log file; an append that fails writes the whole record or nothing.
- Runs: user keys are ranks in the comparator's order; byte-string keys are in the modules about
  files.
- Compactions.Compaction.DoCompactionWork: the smallest snapshot is taken to be below the largest
  sequence number 2^56 - 1, which the code uses as a mark for "no key yet".
- Databases.RunCompaction: every input file is one child of the merge; the source groups the
  files of a deeper level under one two-level iterator, modelled by itself.
- Mergers.PerformAll: the children of the merging iterator are positions in sorted lists.
- SkipLists.SearchIsLinearizable: memory orders weaker than sequential consistency; arena
  allocation; the random height is any height.
- Blocks.RoundTrip: malformed blocks beyond the size test on opening.
- Tables.BuildTable: compression; a bytewise user comparator; I/O errors.
- LogReaders.ReadFile: resynchronising and a non-zero initial offset; what is reported for
  corrupt input other than a cut tail.
- Filters.BloomHasNoFalseNegatives: the hash is any function to 32 bits; the number of probes
  is computed in integers, which gives the source's rounded product for every number of bits.
- Checksums.Extend: hardware acceleration; the five constant tables are given by their defining
  equations rather than listed.
- GroupCommits.StepKeepsInv: rotation of memtable and log during `MakeRoomForWrite`, of which
  only success and failure remain.
- VersionEdits.FieldsRoundTrip: the texts of error messages.
- HandleTables.HandleTable.Resize: bucket chains are sequences, not linked nodes; table and
  length are not limited to 32 bits.
- Caches.LRUCache.Insert: the two lists are sequences and entries are values at addresses; the
  split into 16 shards, the mutex and the destructor are absent.
- ProtobufWires.Varint32RoundTrips: on malformed input longer than 36 bytes the source's shift
  count wraps in eight bits; the model stops.
- ProtobufRoundTrips.MessageRoundTrip: callbacks, extensions, pointer fields, arrays of fixed
  count, and structure offsets; messages are values indexed by descriptors.

Not part of this model: the app's Swift code, the other pods, LevelDB's `Env`, file names,
`c.cc`, `repair.cc`, `dumpfile.cc`, the histogram and the loggers.
