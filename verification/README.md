# Verified model of the LevelDB store and of nanopb

A model, in Dafny 4.11, of the two libraries an application embeds: the LevelDB key-value store
under `ios/Pods/leveldb-library`, and the nanopb Protocol Buffers codec under `ios/Pods/nanopb`,
with proofs of what their parts promise one another.

## The store

The specification of the store is a history: the set of all entries (user key, sequence
number, put or deletion, value) ever written, and what a read at a snapshot means in it.
Everything else is a fast or durable form of that history:

* `Keys.dfy` holds the key order and the history; `SkipList.dfy` the memtable's skip list,
  pointer write by pointer write, and the memtable over it.
* `Version.dfy`, `Inputs.dfy`, `Picking.dfy`, `VersionEdits.dfy` and `Install.dfy` model a
  version of the table files: searching it, choosing the inputs of a compaction, and building
  the next version from edits. `DropRules.dfy` and `CompactionWork.dfy` model the compaction
  loop and what its drop rules mean; `Swap.dfy` and `Flush.dfy` show what installing a
  compaction and flushing a memtable keep.
* `Store.dfy` is the whole store as a state machine, with the theorem about every run;
  `Database.dfy` is the database object whose methods take its steps. `Exposure.dfy` is about
  the one step that can go wrong, `Resurrection.dfy` a run in which it does.
* `Iterators.dfy`, `Merging.dfy`, `MergingIterator.dfy` and `DbIter.dfy` are the iterators, and
  `UserIterator.dfy` the one a user opens over the whole store;
  `Cache.dfy` is one shard of the block cache.
* `Block.dfy` is a block of a table, `Filter.dfy` its Bloom filters, `Separator.dfy` the index
  keys between blocks; `TableFormat.dfy`, `TableBuilder.dfy`, `Table.dfy`,
  `TwoLevelIterator.dfy` and `TableFile.dfy` a whole table file, written and read;
  `TableRun.dfy` joins it to the files of the store, as `ReplayRun.dfy` joins the log to the
  store's history.
  `Manifest.dfy` is the record of a version edit.
* `GroupCommit.dfy` is the write queue as a protocol of steps; `WriteBatch.dfy`, `Coding.dfy`,
  `Bits.dfy`, `Sequences.dfy`, `Crc32c.dfy`, `LogFormat.dfy` and `LogReader.dfy` the write-ahead log down to its
  bits, and `Recovery.dfy` the reading of log files when a database is opened again.
  `Reopen.dfy` and `Opening.dfy` are what that does to a version, and `Crash.dfy` what losing
  writes does to a run.
* `EditReplay.dfy`, `EditRun.dfy` and `VersionSet.dfy` are the manifest: edits applied by one
  builder or one by one, what a running store logs, and a version read back from bytes.
* `Session.dfy` is the store with its log files and manifest as one state machine, crashes
  included; `WriteSession.dfy` shows that the write queue drives it, and `OpenFromDisk.dfy` opens
  a database from the bytes of any of its states, to the reads of the store that goes on.

## The codec

The specification of nanopb is a message as a tree of typed fields under a descriptor, the bytes
that stand for it, and what bytes mean to a decoder. `PbMessage.dfy` holds descriptors, messages
and the field iterator; `PbEncode.dfy` the bytes of a message and the encoder with its two passes;
`PbDecode.dfy` the meaning of bytes and the decoder with its bitmap; `PbRoundTrip.dfy` shows that
one inverts the other, and `PbNormal.dfy` what a message keeps on the way.

## What is false of the code

* A compaction may bring a deleted value back. `SetupOtherInputs` closes the upper inputs under
  shared user keys but not the lower ones, while outputs may be cut between two entries of one
  user key, so a lower file that continues a lower input can be left behind; an obsolete
  deletion among the inputs is then dropped although that file holds an older put.
  `Resurrection.CompactionCanResurrect` is a run of the store at whose end it happens,
  `Store.CompactKeepsKeyIff` the exact condition, and `Exposure.LowerClosedExposesNothing` a check
  on the inputs that rules it out. The theorem about runs, `Store.RunsReadHistory`, takes any
  compactions: a key reads right as long as none of them has exposed it.
* Replaying a list of edits through one builder is not the same as building a version after
  each: a file number deleted by one edit and added again by a later one differs.
  `VersionEdits.OneBuilderReplays` gives the exact condition and
  `VersionEdits.ReenteredNumberDiffers` a case. It does no harm to a database: what a store logs
  never brings a number back (`EditRuns.NeverStale`).
* The drop rule for shadowed entries compares with the greatest sequence number as its starting
  mark, so at a smallest snapshot of that very number it drops first entries too, all of them
  (`DropRules.GreatestDropsAll`); `DropRules.CompactionKeepsReadsIff` has the exact condition at
  every smallest snapshot. The store's own runs stop short of that last number.
* Decoding a version edit inverts encoding it on a new edit only: `Clear` leaves the compaction
  pointers of an edit that was used before, and those of the record are added to them
  (`Manifest.DecodeInvertsEncode`, an if and only if).
* nanopb encodes a string that fills its whole room, but refuses to decode it again, since it wants
  room for a terminating zero. `PbRoundTrips.RoundTrip` has the exact condition and
  `PbRoundTrips.FullStringRefused` a case.
* To nanopb's decoder the entry that ends an empty message's table passes for a field of type
  bool with tag zero; `PbRoundTrips.EmptyTableTakesTagZero` has the bytes, and
  `PbRoundTrips.UnlistedPassedIff` the exact condition on table and tag.

## Model

| member | source | states |
|---|---|---|
| `History.SearchNewerFirst` | ios/Pods/leveldb-library/db/db_impl.cc:1117-1131 | Newer data first, stopping at the first part that holds a visible entry of the key, gives the newest entry of the whole |
| `History.SearchRunFindsNewest` | ios/Pods/leveldb-library/db/memtable.cc:100-134 | A seek to the lookup key in a sorted run lands on the newest entry of the key at or below the snapshot, or shows there is none |
| `History.LaterWritesInvisible` | ios/Pods/leveldb-library/db/db_impl.cc:1103-1110 | Entries written after a snapshot change nothing it reads |
| `Versions.FindFile` | ios/Pods/leveldb-library/db/version_set.cc:88-106 | Binary search finds the first file whose largest key is at or after the key |
| `Versions.SortNewestFirst` | ios/Pods/leveldb-library/db/version_set.cc:347-364 | Level-0 candidates are tried newest file first |
| `Versions.SearchLevel` | ios/Pods/leveldb-library/db/version_set.cc:341-411 | The search of one level finds exactly the newest visible entry of that level, on level 0 and on sorted levels |
| `Versions.Get` | ios/Pods/leveldb-library/db/version_set.cc:326-421 | Level by level, the first hit is the newest entry of the whole version: a put is returned, a deletion or nothing is not-found |
| `Inputs.GetOverlappingInputs` | ios/Pods/leveldb-library/db/version_set.cc:519-559 | Terminates despite its restarts; on level 0 returns exactly the files meeting the least range that contains the start and every file meeting it, on other levels those meeting the start |
| `Inputs.ScanWidens` | ios/Pods/leveldb-library/db/version_set.cc:541-555 | A restart's wider range is still inside every closed range around the start, and strictly fewer file ends stick out of it |
| `Inputs.SomeFileOverlapsRange` | ios/Pods/leveldb-library/db/version_set.cc:122-157 | The binary search on sorted files answers as the linear scan does: whether some file meets the range |
| `Inputs.PickLevelForMemTableOutput` | ios/Pods/leveldb-library/db/version_set.cc:491-516 | At most level 2; below level 0 only if no file of that level or a shallower one meets the range |
| `Inputs.OverlappingIsSlice` | ios/Pods/leveldb-library/db/version_set.cc:519-559 | On a sorted level the files meeting a range are consecutive |
| `Inputs.FindLargestKey` | ios/Pods/leveldb-library/db/version_set.cc:1326-1341 | The largest internal key of the inputs, none if there are none |
| `Inputs.FindSmallestBoundaryFile` | ios/Pods/leveldb-library/db/version_set.cc:1344-1363 | The file with the least smallest key among those that continue the largest user key |
| `Inputs.AddBoundaryInputs` | ios/Pods/leveldb-library/db/version_set.cc:1378-1401 | Terminates; adds files until none in the level continues the last user key, and on a sorted level keeps the inputs consecutive |
| `Picking.GetRange` | ios/Pods/leveldb-library/db/version_set.cc:1205-1227 | The smallest and largest keys of the inputs |
| `Picking.SetupOtherInputs` | ios/Pods/leveldb-library/db/version_set.cc:1403-1463 | From any start the upper inputs end closed under shared user keys and the lower inputs are exactly the files meeting their range, with or without growing the upper ones |
| `Picking.FileAfterPointer` | ios/Pods/leveldb-library/db/version_set.cc:1284-1295 | The first file past the place where the level's last compaction ended, or the very first if none is |
| `Picking.PickCompaction` | ios/Pods/leveldb-library/db/version_set.cc:1270-1311 | An automatic compaction, for size or for seeks, is a sound choice of inputs that has the file after the pointer, or the one looked at in vain, among its upper ones |
| `Picking.CompactRange` | ios/Pods/leveldb-library/db/version_set.cc:1465-1497 | A manual compaction, cut short or not, is a sound choice of inputs, or none when no file meets the range |
| `DropRules.SurvivorsSorted` | ios/Pods/leveldb-library/db/db_impl.cc:929-975 | What a compaction keeps is still in order |
| `DropRules.UnexposedReadKept` | ios/Pods/leveldb-library/db/db_impl.cc:929-963 | Dropping shadowed entries and obsolete deletions leaves the answer for a key that is not exposed unchanged at every snapshot at or above the smallest, whichever that is |
| `DropRules.ExposedReadChanges` | ios/Pods/leveldb-library/db/db_impl.cc:929-963 | For an exposed key the answer at the smallest snapshot changes, below the greatest sequence number from not-found to an old value |
| `DropRules.GreatestDropsAll` | ios/Pods/leveldb-library/db/db_impl.cc:937-963 | At a smallest snapshot of the greatest sequence number every entry is dropped, first ones too |
| `DropRules.LostChanges` | ios/Pods/leveldb-library/db/db_impl.cc:937-963 | There a key reads as before if and only if no input decides it, or what is left says the same |
| `DropRules.CompactionKeepsReadsIff` | ios/Pods/leveldb-library/db/db_impl.cc:929-963 | At every smallest snapshot a compaction keeps every read at or above it if and only if it changes no key: below the greatest number exposes none, at it loses none |
| `CompactionWork.Cursors.IsBaseLevelForKey` | ios/Pods/leveldb-library/db/version_set.cc:1533-1552 | On ascending keys the moving cursors answer as a full scan of the deeper levels: whether no deeper file's range holds the key |
| `CompactionWork.Cursors.ShouldStopBefore` | ios/Pods/leveldb-library/db/version_set.cc:1554-1576 | Outputs are cut exactly when the grandparent bytes passed since the last cut exceed the limit |
| `CompactionWork.ShouldDrop` | ios/Pods/leveldb-library/db/db_impl.cc:943-963 | One entry is dropped as the two rules say |
| `CompactionWork.DoCompactionWork` | ios/Pods/leveldb-library/db/db_impl.cc:878-1013 | The output tables, joined, are exactly the surviving entries in order; they are well formed and numbered in turn |
| `CompactionWork.CutsAreDisjoint` | ios/Pods/leveldb-library/db/db_impl.cc:919-993 | Wherever the outputs are cut their key ranges are disjoint and ascending |
| `VersionEdits.SaveLevel` | ios/Pods/leveldb-library/db/version_set.cc:695-739 | The merge of base and added files lists exactly the kept files in order of smallest key |
| `VersionEdits.Builder.Apply` | ios/Pods/leveldb-library/db/version_set.cc:650-692 | An edit's deletions and additions are recorded per level |
| `VersionEdits.Builder.SaveTo` | ios/Pods/leveldb-library/db/version_set.cc:695-739 | Every level of the new version holds exactly the base files not deleted and the added ones, in order |
| `VersionEdits.OneBuilderReplays` | ios/Pods/leveldb-library/db/version_set.cc:650-754 | One builder over a list of edits gives the same files as a builder for every edit if and only if no file goes stale: taken away by one edit, with its number added by a later one but not the file itself |
| `VersionEdits.EnteringOnceReplays` | ios/Pods/leveldb-library/db/version_set.cc:650-754 | In particular when a file number enters a level at most once |
| `VersionEdits.ReenteredNumberDiffers` | ios/Pods/leveldb-library/db/version_set.cc:686-690 | Two concrete edits where a file number enters a level again: the two ways of replaying differ |
| `EditReplays.ApplyAll` | ios/Pods/leveldb-library/db/version_set.cc:650-739 | One builder applies a list of edits and saves, level by level in order, the files not deleted at last |
| `EditReplays.ApplyEach` | ios/Pods/leveldb-library/db/version_set.cc:801-826 | A version for every edit, each from the one before, ends with the files that the edits leave one by one |
| `EditReplays.SameVersionIff` | ios/Pods/leveldb-library/db/version_set.cc:650-826 | The two ways give the same version, in the same order, if and only if no file of any level goes stale |
| `EditReplays.BothWays` | ios/Pods/leveldb-library/db/version_set.cc:650-826 | Applying a list of edits both ways, the two versions are equal if and only if no file goes stale |
| `EditRuns.TrackStep` | ios/Pods/leveldb-library/db/version_set.cc:801-870 | An edit whose files are new or come from the level above keeps it so that every number enters a level once and never moves up, and that one builder over all edits gives the current version |
| `EditRuns.TrackedMergeable` | ios/Pods/leveldb-library/db/version_set.cc:695-739 | Such edits can be applied either way: no file is added to a level twice, and all can be told apart |
| `EditRuns.NeverStale` | ios/Pods/leveldb-library/db/version_set.cc:650-826 | No file goes stale over such edits |
| `EditRuns.RebuiltIsOne` | ios/Pods/leveldb-library/db/version_set.cc:695-739 | There is only one version that a builder can save from some edits |
| `EditRuns.FlushLogs` | ios/Pods/leveldb-library/db/db_impl.cc:535-557 | The edit of a flush is of that kind and installs the version after it |
| `EditRuns.MoveLogs` | ios/Pods/leveldb-library/db/db_impl.cc:718-727 | So is the edit of a trivial move |
| `EditRuns.CompactLogs` | ios/Pods/leveldb-library/db/db_impl.cc:860-876 | So is the edit of a compaction |
| `EditRuns.ReopenLogs` | ios/Pods/leveldb-library/db/db_impl.cc:1498-1502 | So is the edit of opening a database again |
| `VersionSets.ApplyRecord` | ios/Pods/leveldb-library/db/version_set.cc:939-953 | One record is decoded, its comparator compared, its edit applied and its counters noted |
| `VersionSets.Recover` | ios/Pods/leveldb-library/db/version_set.cc:884-1010 | From the bytes of a manifest, cut anywhere, comes the version its whole records amount to, and the counters; the status names another comparator, or the first counter that is missing |
| `VersionSets.WriteSnapshot` | ios/Pods/leveldb-library/db/version_set.cc:1088-1118 | The first record of a manifest lists every file of every level of a version |
| `VersionSets.SnapshotRebuilds` | ios/Pods/leveldb-library/db/version_set.cc:828-838 | That record and the edits after it, from nothing, give what the edits give from the version |
| `Install.LogAndApply` | ios/Pods/leveldb-library/db/version_set.cc:801-840 | Applying one edit to a well-listed version installs exactly the edited file sets |
| `Install.StayingUpperNewer` | ios/Pods/leveldb-library/db/version_set.cc:1403-1463 | Files left behind in the upper level are newer than the inputs they share a user key with |
| `Swap.SwapKeepsWellFormed` | ios/Pods/leveldb-library/db/db_impl.cc:718-733 | A trivial move or an installed compaction keeps levels sorted and disjoint, shallower newer than deeper, and level 0 ordered by file number |
| `Flush.FlushKeepsWellFormed` | ios/Pods/leveldb-library/db/db_impl.cc:491-533 | A flushed table placed where the level choice puts it keeps the same structure and adds exactly its entries |
| `Flush.CompactionPlaced` | ios/Pods/leveldb-library/db/db_impl.cc:878-1013 | In a well-formed version everything around a compaction's inputs is newer than them, beside them, or hidden from base-level keys |
| `Store.InitialHolds` | ios/Pods/leveldb-library/db/db_impl.cc:182-212 | The empty store satisfies the invariant |
| `Store.FlushKeeps` | ios/Pods/leveldb-library/db/db_impl.cc:535-566 | A memtable flush keeps the invariant |
| `Store.MoveKeeps` | ios/Pods/leveldb-library/db/db_impl.cc:718-733 | A trivial move keeps the invariant |
| `Store.CompactKeepsStructure` | ios/Pods/leveldb-library/db/db_impl.cc:860-876 | Installing a compaction keeps the structure, exposed keys or not |
| `Store.CompactKeepsKeyIff` | ios/Pods/leveldb-library/db/db_impl.cc:878-1013 | Of a key that read right before it, a compaction keeps the reads if and only if it does not expose that key |
| `Store.CompactKeepsMeaningIff` | ios/Pods/leveldb-library/db/db_impl.cc:878-1013 | After a compaction the store reads like its history if and only if no key was exposed |
| `Store.NextKeeps` | ios/Pods/leveldb-library/db/db_impl.cc:1185-1256 | Every step of writers, readers and the background thread, any compaction among them, keeps the structure, and of every key that read right the reads unless it exposes that key |
| `Store.RunsReadHistory` | ios/Pods/leveldb-library/db/db_impl.cc:1100-1145 | Over every run, with any compactions, a key reads at every live snapshot of every state the newest put at or below it in the history of all writes, or not-found, if and only if no compaction so far has exposed it |
| `Store.SnapshotReadsRepeat` | ios/Pods/leveldb-library/db/db_impl.cc:1166-1175 | A snapshot held through any stretch of a run reads a key that was not exposed the same at both ends of it |
| `Store.HeldViewReadsTheSame` | ios/Pods/leveldb-library/db/db_impl.cc:1112-1133 | A reader that goes on with the memtables and version it took reads a key that was not exposed as if it had read at once |
| `Exposure.LowerClosedExposesNothing` | ios/Pods/leveldb-library/db/version_set.cc:1403-1463 | If no lower file left behind shares a user key with a lower input, the compaction exposes nothing |
| `Exposure.ExposedKeyComesBack` | ios/Pods/leveldb-library/db/db_impl.cc:947-958 | An exposed key reads as deleted before the compaction and as an old value after it |
| `Resurrection.CompactionCanResurrect` | ios/Pods/leveldb-library/db/version_set.cc:1407-1410 | A run from the empty store, in which every key reads right up to a compaction with inputs as the code picks them, too many for a trivial move, which brings a deleted value back |
| `Iterators.MergeAllHolds` | ios/Pods/leveldb-library/table/merger.cc:144-174 | The merge of sorted runs with distinct keys is sorted and holds their union |
| `Merging.StillSplits` | ios/Pods/leveldb-library/table/merger.cc:55-108 | What is inserted into a child in the meantime does not move the place where the entry it stands on divides the merge |
| `Merging.SplitsAround` | ios/Pods/leveldb-library/table/merger.cc:61-102 | A child that does not have the current entry stands before it and behind it alike |
| `MergingIterators.MergingIterator.Seek` | ios/Pods/leveldb-library/table/merger.cc:47-53 | Divides the merge where a cursor over it would stand, every child on its side |
| `MergingIterators.MergingIterator.PlaceForward` | ios/Pods/leveldb-library/table/merger.cc:144-158 | Forwards, an entry of the merge it is on is the next one beyond the cut, and it is at its end only when there is none |
| `MergingIterators.MergingIterator.PlaceReverse` | ios/Pods/leveldb-library/table/merger.cc:160-174 | Backwards, such an entry is the last one before the cut, and it is at its end only when there is none |
| `MergingIterators.MergingIterator.Next` | ios/Pods/leveldb-library/table/merger.cc:55-79 | The cut moves behind the entry it was on, whatever the direction before and whatever is inserted into its children meanwhile; no entry of the merge is skipped |
| `MergingIterators.MergingIterator.Prev` | ios/Pods/leveldb-library/table/merger.cc:81-108 | The same backwards, where an entry inserted while it turns round may be stood on though it is further on |
| `MergingIterators.MergingIterator.SeekToFirst` | ios/Pods/leveldb-library/table/merger.cc:31-37 | The whole merge is still to come forwards |
| `MergingIterators.MergingIterator.SeekToLast` | ios/Pods/leveldb-library/table/merger.cc:39-45 | The whole merge is still to come backwards |
| `MergingIterators.MergeRuns` | ios/Pods/leveldb-library/table/merger.cc:31-79 | A pass over any number of sorted runs with distinct keys gives their sorted union |
| `DbIters.DBIter.Next` | ios/Pods/leveldb-library/db/db_iter.cc:141-166 | Moves to the next user key that was live at the snapshot when it was opened, with its newest visible value, also after going backwards and whatever is written meanwhile |
| `DbIters.DBIter.FindNextUserEntry` | ios/Pods/leveldb-library/db/db_iter.cc:168-198 | Finds the lowest live user key it was asked for, or ends |
| `DbIters.DBIter.Prev` | ios/Pods/leveldb-library/db/db_iter.cc:200-225 | Moves to the previous such user key, also after going forwards and whatever is written meanwhile |
| `DbIters.DBIter.FindPrevUserEntry` | ios/Pods/leveldb-library/db/db_iter.cc:227-267 | Finds the highest live user key below, with its newest visible value, or ends |
| `DbIters.DBIter.Seek` | ios/Pods/leveldb-library/db/db_iter.cc:269-281 | Stands on the first live user key at or after the target |
| `DbIters.DBIter.SeekToFirst` | ios/Pods/leveldb-library/db/db_iter.cc:283-292 | Stands on the first live user key |
| `DbIters.DBIter.SeekToLast` | ios/Pods/leveldb-library/db/db_iter.cc:294-299 | Stands on the last live user key |
| `UserIterators.AddIterators` | ios/Pods/leveldb-library/db/version_set.cc:230-247 | Every file of level 0 and every deeper level joins the list as one sorted run, no key of it in another, and with the memtables they hold what the store holds |
| `UserIterators.NewInternalIterator` | ios/Pods/leveldb-library/db/db_impl.cc:1062-1087 | A merging iterator over the memtable, which may grow, the immutable one and the version's runs has for its merge every entry the store holds, and stands on nothing else but what comes to the memtable |
| `UserIterators.NewIterator` | ios/Pods/leveldb-library/db/db_impl.cc:1147-1157 | The user's iterator stands over that merging iterator, at the snapshot asked for or the last sequence number |
| `UserIterators.SameView` | ios/Pods/leveldb-library/db/db_impl.cc:1147-1157 | Among keys that read right, a live key lowest or highest in what the store holds, with its value, is the one in the history of all writes |
| `UserIterators.LaterViewSame` | ios/Pods/leveldb-library/db/db_impl.cc:1147-1157 | Entries written after the snapshot change nothing of where it has to stand |
| `UserIterators.Scan` | ios/Pods/leveldb-library/db/db_iter.cc:141-198 | A pass from the first key on, with any writes between its steps, gives keys in ascending order, and of the keys that read right exactly those the history had a value for at the snapshot, each with it |
| `Database.ReadInputs` | ios/Pods/leveldb-library/db/version_set.cc:1237-1268 | A pass over the input iterator gives every entry of the inputs, in order |
| `Database.RebuildTables` | ios/Pods/leveldb-library/db/db_impl.cc:878-1013 | Reading the inputs and cutting outputs leaves exactly the survivors, in fresh tables |
| `Database.InstallSwap` | ios/Pods/leveldb-library/db/db_impl.cc:860-876 | Inputs leave and outputs enter in one version change |
| `Database.WriteLevel0Table` | ios/Pods/leveldb-library/db/db_impl.cc:491-533 | The memtable becomes one table on a level with room for it |
| `Database.DB.Write` | ios/Pods/leveldb-library/db/db_impl.cc:1202-1237 | A batch takes consecutive sequence numbers and becomes visible as a whole |
| `Database.DB.SwitchMemTable` | ios/Pods/leveldb-library/db/db_impl.cc:1345-1367 | The memtable becomes the immutable one |
| `Database.DB.CompactMemTable` | ios/Pods/leveldb-library/db/db_impl.cc:535-566 | The immutable memtable becomes a table; nothing reads differently |
| `Database.DB.Move` | ios/Pods/leveldb-library/db/db_impl.cc:718-733 | One file moves down a level; nothing reads differently |
| `Database.DB.Rewrite` | ios/Pods/leveldb-library/db/db_impl.cc:734-747 | A compaction is one step of the state machine; it keeps reads if and only if it exposes no key |
| `Database.DB.BackgroundCompaction` | ios/Pods/leveldb-library/db/db_impl.cc:688-743 | A waiting memtable goes first; else inputs picked by a trigger or asked for by hand are moved down or rewritten, by hand only rewritten, and every key that read right does so still unless the rewriting exposes it |
| `Database.DB.GetSnapshot` | ios/Pods/leveldb-library/db/db_impl.cc:1166-1169 | A snapshot at the published sequence is held from now on |
| `Database.DB.ReleaseSnapshot` | ios/Pods/leveldb-library/db/db_impl.cc:1171-1175 | One held snapshot goes, the others stay in order |
| `Database.DB.Get` | ios/Pods/leveldb-library/db/db_impl.cc:1100-1145 | A read at a live snapshot returns what the history of all writes says |
| `Crc32c.ExtendComposes` | ios/Pods/leveldb-library/util/crc32c.h:17-20 | Extending by one string and then another is extending by both |
| `Crc32c.TableStep` | ios/Pods/leveldb-library/util/crc32c.cc:288-292 | One table lookup does the long division of a byte |
| `Crc32c.StrideLookupShifts` | ios/Pods/leveldb-library/util/crc32c.cc:295-302 | Four stride-table lookups move a register sixteen bytes on |
| `Crc32c.LaneStep` | ios/Pods/leveldb-library/util/crc32c.cc:304-312 | The oldest lane taking in a word and becoming the youngest is a register taking in that word |
| `Crc32c.Strides` | ios/Pods/leveldb-library/util/crc32c.cc:338-367 | Sixteen-byte strides, single words and the final combination of the lanes leave the plain CRC of what was read |
| `Crc32c.ExtendInStrides` | ios/Pods/leveldb-library/util/crc32c.cc:276-377 | The four-lane form equals bit-by-bit CRC-32C for every buffer, length, alignment and starting value |
| `Crc32c.UnmaskInvertsMask` | ios/Pods/leveldb-library/util/crc32c.h:29-38 | Unmasking inverts masking, and masking unmasking |
| `Coding.ReadsFixed64` | ios/Pods/leveldb-library/util/coding.h:75-85 | A 64-bit number reads back from its eight bytes, whatever follows |
| `Coding.VarintBranches` | ios/Pods/leveldb-library/util/coding.cc:47-73 | The branches of the 32-bit varint encoder write the loop's bytes |
| `Coding.ReadsVarint32` | ios/Pods/leveldb-library/util/coding.cc:112-140 | Every 32-bit number reads back from its varint, whatever follows |
| `Coding.GetVarint32` | ios/Pods/leveldb-library/util/coding.cc:112-140 | The shifting loop reads what the grammar of varints says, on any bytes |
| `Coding.ReadsPrefixed` | ios/Pods/leveldb-library/util/coding.cc:181-190 | A length-prefixed string reads back, whatever follows |
| `LogFormat.RecordsFit` | ios/Pods/leveldb-library/db/log_writer.cc:43-78 | Every fragment of every record stays inside its block and has a known type |
| `LogFormat.Writer.AddRecord` | ios/Pods/leveldb-library/db/log_writer.cc:34-80 | The file is always exactly the log of the records added so far, block trailers and fragments included |
| `LogFormat.Writer.EmitPhysicalRecord` | ios/Pods/leveldb-library/db/log_writer.cc:82-108 | A fragment is written as checksum, length, type and payload |
| `LogReading.ChecksumReads` | ios/Pods/leveldb-library/db/log_reader.cc:244-246 | The stored masked checksum is that of the type byte and payload as the reader computes it |
| `LogReading.Reader.ReadPhysicalRecord` | ios/Pods/leveldb-library/db/log_reader.cc:189-271 | On any bytes it moves on or ends; before a whole fragment of a log it returns that fragment, else the end of file, and reports nothing |
| `LogReading.Reader.ReadRecord` | ios/Pods/leveldb-library/db/log_reader.cc:56-174 | Before a record wholly present it returns that record, else the end of file, and reports nothing |
| `LogReading.ReadLog` | ios/Pods/leveldb-library/db/log_reader.cc:56-271 | Cut at any byte, a log reads back as exactly the records wholly present, in order, with no corruption reported |
| `LogReading.WhollyIsLongest` | ios/Pods/leveldb-library/db/log_writer.cc:34-108 | The records read back are the longest prefix whose own log is no longer than the file |
| `WriteBatches.BatchRoundTrip` | ios/Pods/leveldb-library/db/write_batch.cc:42-80 | A batch's bytes give back its sequence number, count and operations |
| `WriteBatches.WriteBatch.Put` | ios/Pods/leveldb-library/db/write_batch.cc:98-103 | One more put at the end, its lengths and the count in 32 bits, whatever they are |
| `WriteBatches.WriteBatch.Delete` | ios/Pods/leveldb-library/db/write_batch.cc:105-109 | One more deletion at the end, its length and the count in 32 bits, whatever they are |
| `WriteBatches.WriteBatch.Append` | ios/Pods/leveldb-library/db/write_batch.cc:144-148 | The operations of the source after those of the destination, the counts added |
| `WriteBatches.WriteBatch.SetSequence` | ios/Pods/leveldb-library/db/write_batch.cc:94-96 | Only the sequence number changes |
| `WriteBatches.WriteBatch.Iterate` | ios/Pods/leveldb-library/db/write_batch.cc:42-80 | The handler gets the operations up to a corruption, all of a batch whose lengths fit, and the status says whether the count fits too |
| `Recovery.RecoverLogFile` | ios/Pods/leveldb-library/db/db_impl.cc:371-489 | From a log cut anywhere come exactly the batches written whole, each with its own sequence numbers, and the highest of them |
| `Recovery.Recover` | ios/Pods/leveldb-library/db/db_impl.cc:349-368 | Over log files in number order, only the newest cut, the tables hold exactly the surviving batches, a prefix of all that were written, and the last sequence is their highest |
| `Recovery.SyncedRecordsSurvive` | ios/Pods/leveldb-library/db/db_impl.cc:1215-1222 | Records a sync put on disk are recovered whatever is lost behind them |
| `Recovery.HighestIsLast` | ios/Pods/leveldb-library/db/db_impl.cc:435-439 | For batches numbered in turn the recovered maximum is the last number used |
| `GroupCommit.BuildBatchGroup` | ios/Pods/leveldb-library/db/db_impl.cc:1260-1306 | The group is the longest run of waiting writers with no sync write under a leader without sync and no more bytes than allowed, their operations joined in order |
| `GroupCommit.WriteQueue.Join` | ios/Pods/leveldb-library/db/db_impl.cc:1186-1192 | A call takes its place at the back of the queue |
| `GroupCommit.WriteQueue.Lead` | ios/Pods/leveldb-library/db/db_impl.cc:1200-1207 | The writer at the front numbers its group from the last sequence on |
| `GroupCommit.WriteQueue.Finish` | ios/Pods/leveldb-library/db/db_impl.cc:1226-1253 | The sequence is published, the group leaves the queue with its leader's status, the next writer is woken |
| `GroupCommit.WriteQueue.Run` | ios/Pods/leveldb-library/db/db_impl.cc:1185-1256 | Every interleaving of the writers' steps keeps the protocol's invariant and only adds commits |
| `GroupCommit.WriteQueue.NobodySleepsThroughTheirTurn` | ios/Pods/leveldb-library/db/db_impl.cc:1193-1198 | Neither the writer at the front nor one whose write is done is left asleep |
| `GroupCommit.WriteQueue.SuccessMeansLogged` | ios/Pods/leveldb-library/db/db_impl.cc:1215-1224 | A batch whose write succeeded stands whole in one logged group, synced under a syncing leader if it asked for that |
| `GroupCommit.WriteQueue.SnapshotsSeeWholeGroups` | ios/Pods/leveldb-library/db/db_impl.cc:1236 | The published sequence splits no group: what is being inserted is above it |
| `GroupCommit.WriteQueue.LogReplaysToMemtable` | ios/Pods/leveldb-library/db/db_impl.cc:1215-1225 | Between groups, while no sync has failed, the memtable is what its log file replays to |
| `GroupCommit.WriteQueue.AddRecord` | ios/Pods/leveldb-library/db/db_impl.cc:1216-1222 | A group that can be logged is appended whole, numbered behind the last sequence, when nothing else is under way |
| `GroupCommit.WriteQueue.InsertNext` | ios/Pods/leveldb-library/db/db_impl.cc:1224-1226 | The next logged operation goes into the memtable, above the number that readers see |
| `GroupCommit.TicketIn` | ios/Pods/leveldb-library/db/db_impl.cc:1239-1248 | Every finished call is in exactly one group |
| `GroupCommit.SequencesInOrder` | ios/Pods/leveldb-library/db/db_impl.cc:1206-1207 | Groups run in queue order with consecutive sequence numbers, none used twice |
| `GroupCommit.BatchInPlace` | ios/Pods/leveldb-library/db/db_impl.cc:1287-1303 | A writer's batch stands whole in its group, after those of the writers before it |
| `SkipLists.SkipList.SearchStep` | ios/Pods/leveldb-library/db/skiplist.h:266-280 | One turn of the search, by a reader without the lock, moves on along the level or down, or ends on the first node at or after the key |
| `SkipLists.SkipList.FindGreaterOrEqual` | ios/Pods/leveldb-library/db/skiplist.h:260-281 | The first node at or after the key, and on every level the node a new entry of the key has to follow |
| `SkipLists.SkipList.LessThanStep` | ios/Pods/leveldb-library/db/skiplist.h:287-301 | One turn of that search moves on along the level or down, or ends on the last node before the key |
| `SkipLists.SkipList.FindLessThan` | ios/Pods/leveldb-library/db/skiplist.h:283-302 | The last node before the key, the head if there is none |
| `SkipLists.SkipList.LastStep` | ios/Pods/leveldb-library/db/skiplist.h:308-321 | One turn of that search moves on along the level or down, or ends on the last node |
| `SkipLists.SkipList.FindLast` | ios/Pods/leveldb-library/db/skiplist.h:304-322 | The last node, the head of an empty list |
| `SkipLists.SkipList.Contains` | ios/Pods/leveldb-library/db/skiplist.h:370-378 | Whether an entry with the key is in the list |
| `SkipLists.SkipList.Insert` | ios/Pods/leveldb-library/db/skiplist.h:336-368 | The contents are the old ones with the entry at its place |
| `SkipLists.Insertion.Step` | ios/Pods/leveldb-library/db/skiplist.h:362-367 | After each single pointer write every level is sorted and within the level below, and the contents are the old or the new |
| `SkipLists.Race` | ios/Pods/leveldb-library/db/skiplist.h:260-367 | Any of the three searches, begun at any moment of an insertion or between two, with the height as it is or was, and going on through several insertions in single pointer writes, with the turns in any order, finds what is right for what the list holds when it ends |
| `SkipLists.StaysOnPath` | ios/Pods/leveldb-library/db/skiplist.h:347-367 | A reader's place is not lost to a writer |
| `SkipLists.TowerSpliced` | ios/Pods/leveldb-library/db/skiplist.h:362-367 | Linking a node on one level keeps each level sorted and within the one below |
| `MemTables.MemTable.Add` | ios/Pods/leveldb-library/db/memtable.cc:75-98 | One more entry, the table still in order |
| `MemTables.MemTable.Get` | ios/Pods/leveldb-library/db/memtable.cc:100-134 | The newest entry of the key at or below the snapshot: its value, a deletion, or nothing |
| `Blocks.BlockBuilder.Add` | ios/Pods/leveldb-library/table/block_builder.cc:72-106 | The entry is laid after the others, sharing what it can with the last key, a restart point every interval |
| `Blocks.BlockBuilder.Finish` | ios/Pods/leveldb-library/table/block_builder.cc:62-70 | The restart array and its length close the block |
| `Blocks.DecodesEntry` | ios/Pods/leveldb-library/table/block.cc:54-74 | An entry's header decodes to its parts, on the fast path and the slow one alike |
| `Blocks.WholeOpens` | ios/Pods/leveldb-library/table/block.cc:24-39 | A finished block opens as what was added to it |
| `Blocks.BlockIter.ParseNextKey` | ios/Pods/leveldb-library/table/block.cc:224-251 | On any bytes it moves on or stops; in a well-formed block it reaches the next entry |
| `Blocks.BlockIter.Next` | ios/Pods/leveldb-library/table/block.cc:137-140 | One entry on |
| `Blocks.BlockIter.Prev` | ios/Pods/leveldb-library/table/block.cc:142-161 | One entry back, by way of a restart point |
| `Blocks.BlockIter.FindRestart` | ios/Pods/leveldb-library/table/block.cc:164-189 | The last restart point with a key before the target, or the first |
| `Blocks.BlockIter.Seek` | ios/Pods/leveldb-library/table/block.cc:163-201 | Lands where a plain linear search for the first key at or after the target does |
| `Blocks.BlockIter.SeekToFirst` | ios/Pods/leveldb-library/table/block.cc:203-206 | The first entry |
| `Blocks.BlockIter.SeekToLast` | ios/Pods/leveldb-library/table/block.cc:208-213 | The last entry |
| `Blocks.Forwards` | ios/Pods/leveldb-library/table/block.cc:137-206 | A pass forwards gives the pairs as they were added |
| `Blocks.Backwards` | ios/Pods/leveldb-library/table/block.cc:142-213 | A pass backwards gives the same pairs in reverse |
| `Blocks.BuildAndRead` | ios/Pods/leveldb-library/table/block_builder.cc:28-109 | A block built of pairs in order and opened gives them back in order, and reversed when read backwards |
| `HandleTables.HandleTable.Insert` | ios/Pods/leveldb-library/util/cache.cc:78-92 | The handle replaces what answered to its key, which is given back; every other handle stays |
| `HandleTables.HandleTable.Remove` | ios/Pods/leveldb-library/util/cache.cc:94-102 | The only handle that answers to the key goes |
| `HandleTables.HandleTable.Resize` | ios/Pods/leveldb-library/util/cache.cc:122-146 | The same handles in more buckets |
| `Caches.LRUCache.Lookup` | ios/Pods/leveldb-library/util/cache.cc:252-259 | The entry under the key with one more reference, held by the client |
| `Caches.LRUCache.Release` | ios/Pods/leveldb-library/util/cache.cc:261-264 | One reference less; the last one runs the deleter, or makes the entry the newest evictable one |
| `Caches.LRUCache.Insert` | ios/Pods/leveldb-library/util/cache.cc:266-303 | The new entry replaces its key's old one, the oldest unused entries go, and no more than needed, until the charge fits or none is unused |
| `Caches.LRUCache.Erase` | ios/Pods/leveldb-library/util/cache.cc:318-321 | No entry answers to the key any more, every other entry stays |
| `Caches.LRUCache.Prune` | ios/Pods/leveldb-library/util/cache.cc:323-333 | Every unused entry goes, oldest first, its deleter run |
| `Caches.LRUCache.Destroy` | ios/Pods/leveldb-library/util/cache.cc:205-215 | Once no client holds anything, every entry ever made has had its deleter run, once |
| `Blooms.BloomFilterPolicy.CreateFilter` | ios/Pods/leveldb-library/util/bloom.cc:28-54 | The bits set are exactly those some probe of some key hits |
| `Blooms.BloomFilterPolicy.KeyMayMatch` | ios/Pods/leveldb-library/util/bloom.cc:56-80 | Yes exactly if every probe of the key finds its bit set, with the number of probes the filter was made with |
| `Blooms.BloomFilterPolicy.FilterMatchesItsKeys` | ios/Pods/leveldb-library/util/bloom.cc:28-80 | No false negatives: every key a filter was made from finds all its bits set |
| `FilterBlocks.FilterBlockBuilder.StartBlock` | ios/Pods/leveldb-library/table/filter_block.cc:21-27 | Filters are made up to the block's offset, and every key added stays with the offset it was added under |
| `FilterBlocks.FilterBlockBuilder.AddKey` | ios/Pods/leveldb-library/table/filter_block.cc:29-33 | The key belongs to the offset of the current block |
| `FilterBlocks.FilterBlockBuilder.GenerateFilter` | ios/Pods/leveldb-library/table/filter_block.cc:51-75 | One more filter, of exactly the keys waiting, or an empty one |
| `FilterBlocks.FilterBlockBuilder.Finish` | ios/Pods/leveldb-library/table/filter_block.cc:35-49 | Every key ever added is in the group of its offset, and the bytes are the filters, their offsets and the base |
| `FilterBlocks.FilterFound` | ios/Pods/leveldb-library/table/filter_block.cc:90-104 | The offsets read from the block lead to the very filter of the group, and it has the bits of every key in it |
| `FilterBlocks.FilterBlockReader.KeyMayMatch` | ios/Pods/leveldb-library/table/filter_block.cc:90-104 | A key added under a block's offset is never answered with no; damaged bytes are answered without reading outside them |
| `Separators.FindShortestSeparator` | ios/Pods/leveldb-library/util/comparator.cc:29-50 | The start itself, or a shorter or equal string after it and before the limit |
| `Separators.FindShortSuccessor` | ios/Pods/leveldb-library/util/comparator.cc:52-64 | The key itself, or a string after it that is no longer |
| `Separators.InternalSeparator` | ios/Pods/leveldb-library/db/dbformat.cc:69-86 | The start itself, or a key whose user key is strictly between those of start and limit |
| `Separators.InternalSuccessor` | ios/Pods/leveldb-library/db/dbformat.cc:88-101 | The key itself, or one with a greater user key |
| `Separators.InternalTransitive` | ios/Pods/leveldb-library/db/dbformat.cc:47-67 | The order of internal keys, as bytes, is transitive |
| `TableFormat.ReadsHandle` | ios/Pods/leveldb-library/table/format.cc:15-29 | A block handle reads back, whatever follows |
| `TableFormat.ReadsFooter` | ios/Pods/leveldb-library/table/format.cc:31-62 | A footer reads back from its forty-eight bytes |
| `TableFormat.ReadsBlock` | ios/Pods/leveldb-library/table/format.cc:64-139 | A block written with its trailer is read as what was written, with or without a look at the checksum |
| `TableBuilders.TableBuilder.Add` | ios/Pods/leveldb-library/table/table_builder.cc:94-123 | One more entry; every block ends at a key that separates it from the next, known only when the next key comes |
| `TableBuilders.TableBuilder.Flush` | ios/Pods/leveldb-library/table/table_builder.cc:125-139 | The waiting entries become a block of the file, whose index entry waits |
| `TableBuilders.TableBuilder.WriteBlock` | ios/Pods/leveldb-library/table/table_builder.cc:141-194 | The block's bytes stand for exactly its entries, at the place its handle says |
| `TableBuilders.TableBuilder.Finish` | ios/Pods/leveldb-library/table/table_builder.cc:198-253 | The file is a whole table of the entries added: blocks, index, filters, metaindex, footer |
| `TableBuilders.TableHeld` | ios/Pods/leveldb-library/table/table_builder.cc:177-194 | What an earlier step wrote is still in the finished file |
| `Tables.BoundInBlock` | ios/Pods/leveldb-library/table/table.cc:216-233 | The search in the index and then in one block ends where a search over all entries would |
| `Tables.BehindBlockDiffers` | ios/Pods/leveldb-library/table/table_builder.cc:102-109 | Where that is right behind the block, the entry there has another user key than the one sought |
| `Tables.FirstIsNewest` | ios/Pods/leveldb-library/db/dbformat.cc:47-67 | The first entry at or after a user key and tag is that user key's newest one not above the tag, whenever there is one |
| `Tables.ReadMeta` | ios/Pods/leveldb-library/table/table.cc:84-134 | The filters are found under the policy's own name, and nothing else is taken for them |
| `Tables.Open` | ios/Pods/leveldb-library/table/table.cc:38-82 | The file of a finished table opens, with its filters where the policy is the writer's; other bytes give an error or a table |
| `Tables.Table.BlockReader` | ios/Pods/leveldb-library/table/table.cc:155-208 | An index value leads to an iterator over the block it was written for |
| `Tables.Table.InternalGet` | ios/Pods/leveldb-library/table/table.cc:216-244 | What is reported is the first entry at or after the key, and it is reported whenever it has the key's user key, filters or not |
| `TwoLevelIterators.TwoLevelIterator.Seek` | ios/Pods/leveldb-library/table/two_level_iterator.cc:82-87 | Stands on the first entry of the whole table at or after the target, or on none |
| `TwoLevelIterators.TwoLevelIterator.SeekToFirst` | ios/Pods/leveldb-library/table/two_level_iterator.cc:89-94 | Stands on the table's first entry |
| `TwoLevelIterators.TwoLevelIterator.SeekToLast` | ios/Pods/leveldb-library/table/two_level_iterator.cc:96-101 | Stands on the table's last entry |
| `TwoLevelIterators.TwoLevelIterator.Next` | ios/Pods/leveldb-library/table/two_level_iterator.cc:103-107 | One entry on in the whole table, across blocks |
| `TwoLevelIterators.TwoLevelIterator.Prev` | ios/Pods/leveldb-library/table/two_level_iterator.cc:109-113 | One entry back in the whole table, across blocks |
| `TwoLevelIterators.TwoLevelIterator.InitDataBlock` | ios/Pods/leveldb-library/table/two_level_iterator.cc:146-161 | The data iterator is on the index's block; one kept because its handle is the same is on that very block |
| `TwoLevelIterators.TwoLevelIterator.SkipEmptyDataBlocksForward` | ios/Pods/leveldb-library/table/two_level_iterator.cc:115-126 | From the end of a block on to the next entry of the table, if any |
| `TwoLevelIterators.TwoLevelIterator.SkipEmptyDataBlocksBackward` | ios/Pods/leveldb-library/table/two_level_iterator.cc:128-139 | From before a block back to the last entry before it, if any |
| `TableFiles.BuildTable` | ios/Pods/leveldb-library/db/builder.cc:17-77 | Sorted entries become a file that is a table of exactly them; no entries, no file |
| `TableFiles.WriteAndRead` | ios/Pods/leveldb-library/db/builder.cc:17-77 | A file built from sorted entries and opened gives them back in order, in reverse, and by key |
| `TableRuns.RankOrders` | ios/Pods/leveldb-library/util/comparator.cc:25-27 | Byte strings, placed in the real numbers, keep their order |
| `TableRuns.KeysAgree` | ios/Pods/leveldb-library/db/dbformat.cc:47-67 | The order of internal keys as bytes is their order as the store has them |
| `TableRuns.RunSorted` | ios/Pods/leveldb-library/db/dbformat.h:165-175 | The entries of a table, parsed, are a sorted run of the store |
| `TableRuns.BoundsAgree` | ios/Pods/leveldb-library/db/dbformat.cc:47-67 | A search in the bytes ends where a search in the run does |
| `TableRuns.LookUp` | ios/Pods/leveldb-library/db/version_set.cc:263-276 | A lookup in a table's bytes, filters and all, finds what a search of the run they stand for finds |
| `TableRuns.LookUpFile` | ios/Pods/leveldb-library/db/version_set.cc:263-276 | A built table is an intact file of the store, and searching the file is a lookup in its bytes |
| `ReplayRuns.LogIsRun` | ios/Pods/leveldb-library/db/db_impl.cc:371-489 | Replaying batches numbered in turn is a run of the store, with their entries for its history and their highest number for its last |
| `ReplayRuns.RecoveredIsRun` | ios/Pods/leveldb-library/db/db_impl.cc:349-368 | What recovery leaves in its tables is the history of a run that writes the surviving batches |
| `Reopening.ReplayKeepsWellFormed` | ios/Pods/leveldb-library/db/db_impl.cc:440-486 | Tables replayed from logs, older ones first, all on level 0 of a version with older entries, keep the structure of the levels, and the version holds their entries and its own |
| `Store.ReopenKeeps` | ios/Pods/leveldb-library/db/db_impl.cc:280-369 | Closing and opening, after which the memtables are tables, the snapshots gone and some numbers perhaps skipped, keeps the structure and the reads |
| `Crashes.SameSurvivors` | ios/Pods/leveldb-library/db/db_impl.cc:897-963 | Which entries a compaction drops is the same with a smallest snapshot above all its inputs and with one capped at the greatest of them |
| `Crashes.CutNext` | ios/Pods/leveldb-library/db/db_impl.cc:280-369 | Any step, seen without the writes after a number no table is beyond, is a step of the store |
| `Crashes.CutRun` | ios/Pods/leveldb-library/db/db_impl.cc:280-369 | A run seen without the writes lost in a crash is a run that never made them, and ends in what the crash leaves |
| `Crashes.CrashAndReopen` | ios/Pods/leveldb-library/db/db_impl.cc:280-369 | After a crash and a reopening the store is at the end of a run again, and a key reads in every state of it, and so at every later snapshot, as what was kept of the writes says if and only if no compaction exposed it without the lost ones |
| `Opening.FillMemTable` | ios/Pods/leveldb-library/db/db_impl.cc:426-430 | Operations inserted into an empty memtable are its entries, in key order |
| `Opening.BuildTables` | ios/Pods/leveldb-library/db/db_impl.cc:440-486 | The memtables of a replay become intact tables with ascending numbers, each newer than those before it, that hold exactly what was replayed |
| `Opening.ReplayTables` | ios/Pods/leveldb-library/db/db_impl.cc:1498-1502 | One edit puts all these tables on level 0 and changes no other level |
| `Sessions.OnwardKeeps` | ios/Pods/leveldb-library/db/db_impl.cc:1185-1256 | Every step of writers, readers and the background thread, and every crash with the opening after it, keeps the store, its log files and its manifest consistent: the logs hold what the memtables hold, and the manifest gives the current version |
| `Sessions.SessionsConsistent` | ios/Pods/leveldb-library/db/db_impl.cc:280-369 | So they are after any steps and crashes from a new database on, and the store is at the end of a run |
| `Sessions.ReplayRises` | ios/Pods/leveldb-library/db/db_impl.cc:408-439 | Batches that follow one another replay to operations of ascending sequence numbers between theirs |
| `Sessions.KeptUpto` | ios/Pods/leveldb-library/db/db_impl.cc:408-439 | The operations of the batches that are left are those of all batches up to the last number left |
| `Sessions.ReopenFits` | ios/Pods/leveldb-library/db/db_impl.cc:440-486 | Tables of the batches a crash leaves hold what the memtables had of them, and beyond that only what comes after everything inserted |
| `WriteSessions.BeginsDriven` | ios/Pods/leveldb-library/db/db_impl.cc:182-212 | A new session is as a new write queue sees it: nothing logged, inserted or numbered |
| `WriteSessions.Follow` | ios/Pods/leveldb-library/db/db_impl.cc:1185-1256 | Whatever a step of the write queue does to log, memtable and published number, one or more steps of a consistent session do |
| `WriteSessions.Unseen` | ios/Pods/leveldb-library/db/db_impl.cc:688-790 | Readers and the background thread leave a session as the write queue sees it |
| `OpenFromDisk.ReadVersion` | ios/Pods/leveldb-library/db/db_impl.cc:299-316 | The manifest of a session gives back its version, its last sequence and a next file number above all its files |
| `OpenFromDisk.OpenDatabase` | ios/Pods/leveldb-library/db/db_impl.cc:1474-1516 | From the bytes of the manifest and of the log files, the newest cut anywhere, of any consistent session, opening takes the step of a crash that left exactly the batches whose records are whole |
| `OpenFromDisk.OpenedReads` | ios/Pods/leveldb-library/db/db_impl.cc:1100-1145 | After it the version reads of every key, at every snapshot from the recovered number on, what those batches and the tables say, unless a compaction exposed the key without the lost writes |
| `Manifest.EditRecord.EncodeTo` | ios/Pods/leveldb-library/db/version_edit.cc:41-85 | The record of the edit's fields, in the order of the format, behind what is there |
| `Manifest.EditRecord.ReadField` | ios/Pods/leveldb-library/db/version_edit.cc:121-193 | One tagged field is applied, or the edit stays as it is |
| `Manifest.EditRecord.DecodeFrom` | ios/Pods/leveldb-library/db/version_edit.cc:107-205 | On any bytes: the fields up to the first bad one are applied and the status says which field that was |
| `Manifest.ReadsPayload` | ios/Pods/leveldb-library/db/version_edit.cc:121-193 | Every kind of field reads back, whatever follows |
| `Manifest.DecodeInvertsEncode` | ios/Pods/leveldb-library/db/version_edit.cc:41-205 | What was encoded is decoded, exactly if the reader has no compaction pointers yet; those, which are never cleared, stay before the record's |
| `Manifest.DecodedFits` | ios/Pods/leveldb-library/db/version_edit.cc:97-105 | Whatever was decoded, from any bytes, can be encoded again |
| `Manifest.InsertAscends` | ios/Pods/leveldb-library/db/version_edit.cc:171-177 | The deleted files stay a sorted set in whatever order they are read |
| `Coding.ReadsVarint64` | ios/Pods/leveldb-library/util/coding.cc:142-169 | Every 64-bit number reads back from its varint, whatever follows |
| `Coding.GetVarint64` | ios/Pods/leveldb-library/util/coding.cc:142-169 | The shifting loop reads what the grammar of varints says, on any bytes |
| `Coding.EncodeVarint64` | ios/Pods/leveldb-library/util/coding.cc:81-90 | The loop writes the base-128 bytes of any number |
| `PbMessages.FieldIter.Next` | ios/Pods/nanopb/pb_common.c:29-85 | One field on, or around to the first; the index of required fields is right throughout |
| `PbMessages.FieldIter.Find` | ios/Pods/nanopb/pb_common.c:87-104 | The first field with the tag from the iterator's place around, or back where it was |
| `PbEncoding.OStream.Write` | ios/Pods/nanopb/pb_encode.c:103-124 | Succeeds exactly if the bytes fit, or if the stream only counts |
| `PbEncoding.EncodeVarint` | ios/Pods/nanopb/pb_encode.c:608-628 | The bytes written are the base-128 varint of the value |
| `PbEncoding.PackedSize` | ios/Pods/nanopb/pb_encode.c:169-189 | The sizing pass over the items, or the product for a fixed width, gives the length of their packed bytes |
| `PbEncoding.EncodePacked` | ios/Pods/nanopb/pb_encode.c:164-205 | A packed array's length, found by a sizing pass or a product, is that of the bytes behind it |
| `PbEncoding.EncodeArray` | ios/Pods/nanopb/pb_encode.c:147-236 | Writes the array packed or item by item; fails exactly for too many items, an item that fails, or a stream that is full |
| `PbEncoding.EncodeSubmessage` | ios/Pods/nanopb/pb_encode.c:717-765 | The pass that counts and the pass that writes agree, so the length before a message is its length |
| `PbEncoding.EncodeField` | ios/Pods/nanopb/pb_encode.c:341-426 | Writes what is present by the field's rule, and nothing else |
| `PbEncoding.Encode` | ios/Pods/nanopb/pb_encode.c:528-550 | Writes exactly the message's bytes; fails exactly if a count or size is too large or the stream is full |
| `PbEncoding.GetEncodedSize` | ios/Pods/nanopb/pb_encode.c:567-576 | The size is the number of bytes an encoding pass writes |
| `PbEncoding.EncodeToBuffer` | ios/Pods/nanopb/pb_encode.c:86-124 | A buffer of the counted size is enough and a smaller one is not; no byte goes beyond it |
| `PbDecoding.DecodeVarint32` | ios/Pods/nanopb/pb_decode.c:187-247 | On any bytes, a 32-bit varint with zeros or the sign beyond its bits, or an error, the wrap of the shift counter included |
| `PbDecoding.DecodeVarint` | ios/Pods/nanopb/pb_decode.c:255-275 | On any bytes, at most ten groups of seven bits in 64 bits, or an error |
| `PbDecoding.SkipField` | ios/Pods/nanopb/pb_decode.c:321-331 | An unknown field is passed over by its wire type |
| `PbDecoding.DecodePacked` | ios/Pods/nanopb/pb_decode.c:425-453 | The items of a packed array, no more than there is room for |
| `PbDecoding.DecodeField` | ios/Pods/nanopb/pb_decode.c:406-483 | A field's value goes where its rule says: into the field, behind the array's items, or into the union |
| `PbDecoding.AllRequired` | ios/Pods/nanopb/pb_decode.c:1057-1078 | The comparison of whole words and of the remaining bits says whether every tracked required field was seen |
| `PbDecoding.DecodeNoInit` | ios/Pods/nanopb/pb_decode.c:934-1082 | On any bytes, the loop with its iterator and bitmap computes what the bytes mean over the struct given |
| `PbDecoding.DecodeMessage` | ios/Pods/nanopb/pb_decode.c:1084-1096 | The same over a struct reset to its defaults |
| `PbDecoding.SucceedsIfSeen` | ios/Pods/nanopb/pb_decode.c:1032-1081 | A decode that gets through its input succeeds if and only if no fixed-count field is left short and every tracked required field was read |
| `PbRoundTrips.Reads32` | ios/Pods/nanopb/pb_decode.c:187-247 | Every 32-bit number reads back from its varint, whatever follows |
| `PbRoundTrips.ReadsNumber` | ios/Pods/nanopb/pb_decode.c:1334-1445 | Every number of every scalar type and width reads back, zigzag and sign extension included |
| `PbRoundTrips.PackedRuns` | ios/Pods/nanopb/pb_decode.c:425-453 | A packed array takes the decoder from before the field to behind it with all items in place |
| `PbRoundTrips.ItemsRun` | ios/Pods/nanopb/pb_decode.c:454-464 | An array sent item by item does the same, or stops at its first unterminated string |
| `PbRoundTrips.OneRuns` | ios/Pods/nanopb/pb_decode.c:414-478 | A single value, optional, required or in a oneof, does the same |
| `PbRoundTrips.RoundTrip` | ios/Pods/nanopb/pb_decode.c:1084-1096 | A message that encodes, in fewer than 2^32 bytes, decodes to itself with what was not sent reset, if and only if its strings are terminated within their room |
| `PbRoundTrips.SkipsValue` | ios/Pods/nanopb/pb_decode.c:321-331 | The wire type of an encoded value is enough to pass over it |
| `PbRoundTrips.UnknownFieldRuns` | ios/Pods/nanopb/pb_decode.c:966-995 | A field the decoder's table does not have changes nothing in the message |
| `PbRoundTrips.DefaultSendsNothing` | ios/Pods/nanopb/pb_encode.c:240-337 | A message within another counts as default exactly if it has nothing to send, as long as its unions name their members |
| `PbRoundTrips.FullStringRefused` | ios/Pods/nanopb/pb_decode.c:1495-1518 | A concrete message, of a string that fills its room, that encodes and is refused |
| `PbRoundTrips.EmptyTableTakesTagZero` | ios/Pods/nanopb/pb_common.c:87-104 | Concrete bytes with a field of tag zero that every table of one field refuses and the empty table takes for a bool |
| `PbRoundTrips.UnlistedPassedIff` | ios/Pods/nanopb/pb_decode.c:940-985 | What stands behind a tag that is not in the table is passed over, whatever it is, if and only if the table has a field or the tag is not zero |
| `PbNormals.NormalTwice` | ios/Pods/nanopb/pb_decode.c:845-928 | Resetting what is not sent, once more, changes nothing |
| `PbNormals.DefaultIsInitial` | ios/Pods/nanopb/pb_encode.c:240-337 | A message that comes out as one to leave out is one reset |
| `PbNormals.SendsTheSame` | ios/Pods/nanopb/pb_encode.c:528-550 | A message that went through a round trip encodes to the same bytes, as long as absent fields are reset to what counts as absent and unions name their members |

## Left out

- User keys are named by their place in the user comparator's order, a real number; the store's theorems use nothing else of them. Values are byte strings.
- `TableRuns.LookUp`: a key that does not parse, which the code reports as a corruption, gives no answer here.
- A flush and a whole compaction (pick, rewrite, install) are single steps; the flush nested inside a running compaction, shutdown and background errors during one are not.
- Which level is compacted when (scores, seek statistics, the slowdown sleep) is left arbitrary, and so is the size of a table file.
- `Database.DB.Write`: sequence numbers stop short of the greatest one; what happens past it is not modelled.
- `Database.DB` holds its memtable as the sorted sequence that `MemTables.MemTable` shows the skip list to be; reference counts of memtables and versions are not modelled.
- `MergingIterators.MergingIterator`: the shortcuts for no child and one child, and the status of children, are not modelled.
- `DbIters.DBIter`: a memtable grows between two steps of its cursor, as the one-pointer reads of `SkipLists.Race` allow; the cursor is one over a sorted sequence, not over nodes.
- `TableBuilders.TableBuilder.Add`: a write to the file that fails, options changed in mid-table and an abandoned table are not modelled; neither is compression, which is not linked in, so that a compressed block is one that cannot be read.
- `Tables.Table.BlockReader`: blocks are read from the file each time, without the block cache. The status of a damaged block is not modelled, only that nothing outside its bytes is read.
- `TwoLevelIterators.TwoLevelIterator.Seek`: the iterator is proved over tables that were built; over damaged bytes only opening and looking up one key are.
- `Blooms.BloomFilterPolicy.CreateFilter`: the hash function and the number of probes per key are arbitrary.
- `Manifest.EditRecord.EncodeTo`: a flag and a value together are an option, and the set of deleted files is its sorted sequence.
- Log and manifest reuse, `repair.cc` and `dumpfile.cc`.
- `LogReading.Reader.ReadRecord`: reading from a nonzero initial offset, the offset of the last record, and read errors of the file are not modelled.
- `LogFormat.Writer.AddRecord`: an append that fails is not modelled; a group whose append fails counts as not logged.
- `Crc32c.ExtendInStrides`: the five lookup tables are what they are by definition, a byte followed by 1 or 13 to 16 zero bytes, not their printed values; the hardware path is not modelled.
- `Recovery.Recover`: log files come as a list already sorted by number and filtered by the manifest's log number; a log kept for reuse is not modelled, so every memtable ends as a table.
- `OpenFromDisk.OpenDatabase`: the tables enter the version in one step, so a crash while a database is being opened is not modelled, and neither is a crash between the sync of a manifest record and the use of its version, which is a crash just after. The manifest stands whole, as it does once synced; a log file is cut only if it is the newest. File names, missing table files and old files are left out; the bytes are those of a session, so that other errors on opening are not modelled here.
- `WriteSessions.Follow`: a new memtable is started when the old one is in a table, as the code waits for; numbers and sizes stay within their widths.
- `VersionSets.Recover`: a key in the manifest that does not parse stands for some key or other.
- `GroupCommit.WriteQueue`: a malformed batch, which would fail while it is inserted, is not modelled. A null batch that joins another writer's group is dismissed with it, so its caller's request for a new memtable is then not honoured; the model shows only that it gets the leader's status.
- `SkipLists.SkipList.Insert`: the height is any number from 1 to 12 instead of a random one, and the arena is not modelled; reads and writes of one pointer are atomic and in program order.
- `Blocks.BlockIter.Next`: except for parsing and seeking, the iterator's steps are proved for well-formed blocks only; 32-bit wrap-around in a damaged entry's lengths is not modelled.
- `Caches.LRUCache`: the two circular lists and the hash chains are sequences, not linked nodes; the sixteen shards and their mutexes are not modelled. `hash & (length - 1)` is taken as the remainder, which it is for a power of two.
- `PbEncoding.Encode`: callbacks, extensions, pointer fields and allocation, and the wrappers for delimited and zero-terminated messages are not modelled; arrays are always packed where they can be, and the platform has 64-bit integers.
- `PbEncoding.OStream.Write`: sizes are unbounded, so no sum of sizes wraps.
- `PbDecoding.DecodeNoInit`: a struct is a tree of values, so the memory its unions and unused array items share is not modelled; a decoded string is kept whole, also behind a zero in it. Error messages are not modelled.
- The application shells, the user-interface pods and BoringSSL are not part of this model.
