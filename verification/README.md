# bptreedb in Dafny

A model of the storage engine bptreedb - the B+ tree balanced by bytes, the LRU buffer pool, the freelist pager, the
page and log codecs, the write-ahead log, and the checkpoint and recovery protocol - with proofs of what it promises.
`dafny verify dfyconfig.toml` checks everything.

The objects that the engine changes in place are classes here too: `Paging.Pager`, `Cache.BufferPool`,
`BPlusTrees.BPlusTree`, `BPlusTrees.TreeScan`, `Logging.Wal`, `Logging.RecordReader` and `Database.DB`, with the engine's own fields, loops and
order of side effects. Pages and log records are real bytes. What the tree of pages means is a ghost tree
(`TreeModel.Node`) whose nodes carry page ids and page bodies; the rebalance loop sees it through a context, the tree
with one page taken out (`TreeModel.Ctx`).

## What is proved

* **Crash safety over whole runs** (`Runs.Machine.Run`, `Runs.Machine.Observe`). Take any sequence of put, delete,
  checkpoint and close-and-reopen calls, in which any call may be cut short by a crash at any moment, and any recovery
  after that may be cut short again, any number of times. The store afterwards is the result of the calls that
  returned, in order, where every call a crash interrupted happened completely or not at all. The moments are all the
  states the durable files pass through, as `Devices.Device` records them: each fsync of the data file, every byte of
  every log append, the cut of the torn tail, the rewritten meta page and the log rotation.
* **The one unsafe window, exactly** (`CheckpointWindow.WindowExact`). Between the data fsync of a checkpoint and the last
  byte of its CHECKPOINT record, the blocks are new while the meta page and the log are old. Replaying the log on the
  updated tree gives the same store, always. Recovery does replay on that tree, with an allocator that leaves its pages
  alone, if and only if the root page is the one it starts from and no page of the tree is free, or past the end, for the
  freelist and the next page id it starts from. When only the latter fails, nothing is lost yet but no database is in
  order: the allocator hands out a page of the tree sooner or later (`AllocatorSafety.HandedOut`), or raises when it
  cannot read its freelist. When the old root page has become a page further down, whatever recovery arrives at lacks
  every key outside that page's subtree that the log does not put again (`OldRootFurtherDown`). Reading the blocks
  decides which case it is (`AllocatorSafety.ExposesExact`); the database marks exactly the failing moments as exposed,
  and a run that crashes at one of them ends there. `ExposedDisks` has a disk for each case.
* **Page ids are conserved.** The ids below the next page id are free, or pages of the tree, or leaked by an earlier crash
  in that window, which leaks none if and only if root, next page id and freelist head are those recovery starts from
  (`CheckpointWindow.WindowLeaksNothing`). All results about runs hold for either choice of `tight`: a machine that is
  held to leak no id also ends at the moments that would leak one, and its tree has exactly the ids that are not free.
* **The tree is a sorted map** (`Insert`, `Delete`, `Search`, `TreeScan.Next`). Every call changes exactly the one binding it
  should and keeps: equal depth of all leaves, strictly sorted slots, left keys < separator <= right keys, every page
  within the page size, every page but the root at least 40% full, the sibling chain equal to the leaves in order, and
  the pages of the tree being exactly the live ids of the pager. With separators of at most P/10 - 4 bytes the calls
  always succeed; with the engine's own record cap alone, every call that returns still does all this, except that
  internal pages may be less than 40% full. Scans deliver lazily and raise when a write comes between.
* **Rebalancing, page by page.** Splits, transfers and merges keep the contents of the whole tree. What a put or delete
  leaves of the pages is determined (`AfterPut`, `AfterDelete`): the leaf where the descent for the key ends is rewritten,
  and walking back up each overfull page is split at the cut that the search chooses, each underfull one takes as few
  slots as will do from the left sibling, or else the right one, or else is merged with the left sibling, or else the
  right one, and an empty root gives way to its child (`Rebalanced`). The final assertion of
  `_redistribute_or_merge_page` is reached exactly when no sibling can give enough slots and none fits on one page with
  the underfull page (`Hopeless`): never for leaves, and never for internal pages with short separators.
* **The pool is invisible.** Cached pages laid over the file are one map of pages that no read, eviction or flush
  changes; eviction removes exactly the least recently used clean page; between checkpoints no block of the file is
  written. An operation on a tree of height h that starts with 3(h + 1) pages of headroom never overflows the pool and
  never loses a page it has touched.
* **The freelist is a stack** of page ids, on disk as in memory. Allocating never returns a live id, and every id that is
  not live is returned sooner or later (`Paging.AllocateUntil`). Below its head page every freelist page is full.
* **Checkpoints leave nothing open.** Opening, closing, an explicit checkpoint, and a write that finds the log or the
  pool over its limit end with a log of exactly one CHECKPOINT record and a meta page that says the same
  (`CheckpointedAt`), and pass through exactly the durable states listed (`Trail`).
* **Codecs.** Every page, meta page and log record reads back as itself, with each field where the format puts it
  (`Layouts`). A log cut at any byte offset delivers exactly the records wholly inside the cut.
* **Damage is noticed.** The checksum is the CRC-32 of zlib (`CheckValue`), and any change to at most four bytes in a row
  of what it covers, or of the checksum itself, is detected (`Checksums.BurstDetected`, `DamagedRecord`, `DamagedMeta`).
  A log in which a record is damaged delivers the records before it, and raises exactly when a whole record follows
  (`LogDamage.DamagedLog`); the records that any log at all delivers have consecutive LSNs.

## Where the code promises more than it keeps

* The comment above the final assertion (`src/bptreedb/tree.py:751-752`) and the search of `_choose_split_point` assume
  the record cap is enough for internal pages. It is not. `NoBalancedCut` and `NeitherShareNorMerge` are concrete pages of a
  database with 256-byte pages that obey the cap and defeat the split and the rebalance. `DeleteGetsStuck` is a tree that
  satisfies every invariant, all pages at least 40% full, and a key in it whose deletion reaches the assertion.
* The design document says (`docs/bptreedb-design.md:430`) that a crash with current data pages and a stale meta page is
  harmless because recovery replays on the already updated tree and replay repeats itself. Replay does
  (`ReplayIsIdempotent`), but recovery starts with the old root, next page id and freelist head, and `WindowExact` says
  when those still lead to the updated tree and to an allocator that is safe for it. `ExposedDisks` has a disk where a
  root leaf was split (the old root page is now the left half, and lookups from there miss keys of the right half, which
  a scan would still reach through the sibling link), one where a leaf under the same root was split (nothing is lost
  yet, but the allocator hands out the new leaf's page next), and one where a leaf was merged away (harmless, one page id
  leaks).
* The design document has recovery check the file version and stop at any bad record. The code checks no version, and
  raises when a valid record follows a bad one; the model follows the code.

## Hypotheses

* Page sizes are at least 256, as the design document says; the code only insists on 52.
* The pool is large enough for the height of the tree (`Roomy`): the part of it that checkpoints keep clean holds the
  pages one operation may touch. A run stops when it is not; the guards that find this out, `DB.HasRoom` and
  `BPlusTree.MeasureHeight`, belong to the model only.
* Where keys are held to P/10 - 4 bytes (`strict`), rebalancing is never stuck. Otherwise keys are bound by the record cap
  alone, and a run or a recovery ends when rebalancing raises its assertion.
* With `tight`, no page id may be leaked, and a run also ends where a crash would leak one; without, leaks are tolerated.
  `Exposes`, the test of the blocks that tells a run where to end, belongs to the model only.
* Counters stay below 2^64. A run stops at the checkpoint or the append that would exceed it.

## Model

| member | source | states |
|---|---|---|
| `Runs.Machine.Run` | src/bptreedb/db.py:69-327 | any run of calls, crashes at any moment, crashes in recovery and restarts ends in a store that the acknowledged calls explain, each interrupted call having happened completely or not at all; it stops early only at a moment from which recovery does not replay on the updated tree safely, an exhausted counter, a stuck rebalance or a pool too small; held to leak no page id, its tree has exactly the ids that are not free |
| `Runs.Machine.Observe` | src/bptreedb/db.py:69-327 | a scan of everything after any run of calls, crashes and restarts shows, in key order, a store that the acknowledged calls explain |
| `Runs.Machine.Start` | src/bptreedb/db.py:69-113 | recovery restarted after any number of crashes during recovery still arrives at the same store |
| `Runs.Machine.Perform` | src/bptreedb/db.py:192-263 | one call changes the store as intended or leaves it, and every moment in between recovers to one of the two or is exposed; a checkpoint or a restart has left a log of just its CHECKPOINT record |
| `Database.DB.constructor` | src/bptreedb/db.py:30-67 | a handle on recoverable files: nothing read yet, pool empty, opening it will give the recoverable store |
| `Database.DB.Open` | src/bptreedb/db.py:69-93 | opening recovers exactly the store the files stand for and then always checkpoints it, under the LSN after the last of the log; the history is the old files, the log without its torn tail, and the durable states of that checkpoint, each of which recovers to the same store or is exposed; with long keys it may get stuck, which changes nothing on disk |
| `Database.DB.StartRecovery` | src/bptreedb/db.py:87-92 | the repaired meta names a tree in order, on which replaying the log past the checkpoint gives the store |
| `Database.DB.RepairPagerMetaFromWalCheckpoint` | src/bptreedb/db.py:95-113 | the meta in memory becomes the newest of the meta page and the CHECKPOINT records of the log |
| `Database.DB.ApplyWalRecord` | src/bptreedb/db.py:149-167 | a record above the checkpoint has its effect on the stored map, one at or below it has none; stuck only with long keys |
| `Database.DB.Replay` | src/bptreedb/wal.py:237-262 | all records are applied in order, the file is cut after the last good one, and the next LSN continues the log |
| `Database.DB.EnableEviction` | src/bptreedb/cache.py:64-76 | turning eviction on again after recovery changes nothing stored, even if the pool is oversized |
| `Database.DB.WritePages` | src/bptreedb/db.py:315-316 | after the flushes the file alone holds the tree and the freelist, and no freed page has been written |
| `Database.DB.LogCheckpoint` | src/bptreedb/db.py:317-323 | under every proper prefix of the CHECKPOINT record recovery replays on the new tree and arrives at the store exactly when the moment is not marked exposed; after the last byte the files recover to the same store |
| `Database.DB.WriteMeta` | src/bptreedb/db.py:324-326 | the rewritten meta page disturbs no tree or freelist page, and the files still recover to the same store |
| `Database.DB.Checkpoint` | src/bptreedb/db.py:307-327 | fails, changing nothing, exactly when a counter is exhausted; otherwise no page is dirty, the meta page names the new checkpoint, the log holds just its CHECKPOINT record, the store is unchanged; lists the durable states passed through, each of which recovers to it or is exposed |
| `Database.DB.RunCheckpoint` | src/bptreedb/db.py:307-327 | a checkpoint asked for between operations is taken unless a counter is exhausted, keeps the store, leaves pool, meta page and log as a checkpoint does, and passes through exactly its durable states |
| `Database.DB.MaybeCheckpoint` | src/bptreedb/db.py:183-190 | takes a checkpoint exactly when the log or the dirty ratio is over its limit, and otherwise changes nothing; afterwards the ratio is within it |
| `Database.DB.LogPut` | src/bptreedb/wal.py:103-123 | the durable log says the new binding, and every prefix of the append recovers to the old or the new store |
| `Database.DB.LogDelete` | src/bptreedb/wal.py:125-142 | the durable log says the key is gone, and every prefix of the append recovers to the old or the new store |
| `Database.DB.Put` | src/bptreedb/db.py:192-217 | too large records are refused without effect; otherwise exactly one binding changes, durably, the version moves, and every moment recovers to the store before or after or is exposed; one PUT record is logged, after a checkpoint if the log had outgrown its limit, and a second checkpoint is taken if log or pool are over their limits then; with long keys it may get stuck after logging |
| `Database.DB.Delete` | src/bptreedb/db.py:236-263 | an absent key is reported without effect; otherwise exactly that key goes, durably, the version moves, and every moment recovers to the store before or after or is exposed; one DELETE record is logged, with checkpoints before and after it exactly when due; with long keys it may get stuck after logging |
| `Database.DB.Get` | src/bptreedb/db.py:219-234 | agrees with the stored map for every key |
| `Database.DB.Scan` | src/bptreedb/db.py:265-305 | a scan made for the tree and the version of this moment |
| `Database.Scanner.Next` | src/bptreedb/db.py:298-305 | delivers the next entry of the map the scan was made for, raises after a write, and ends only when the range has been delivered |
| `Database.WriteDuringScan` | src/bptreedb/db.py:301-303 | a put between two steps of a scan makes the next step raise |
| `Database.DB.ScanAll` | src/bptreedb/db.py:265-305 | undisturbed, a scan delivers the stored map restricted to [start, end), in key order, each key once |
| `Database.DB.PagesConserved` | src/bptreedb/debug.py:124-195 | between calls the pages of the tree are the live ids of the pager, and without leaks all the ids that are not free |
| `DurableSteps.AppendCuts` | src/bptreedb/wal.py:169-190 | a crash at any byte of an append recovers to the store without the record, or with it once it is complete |
| `DurableSteps.StepLogged` | src/bptreedb/db.py:214-215 | logging an operation keeps what the process knows in step with the durable files, byte by byte |
| `DurableSteps.CheckpointCuts` | src/bptreedb/db.py:317-323 | the data fsync and each byte of the CHECKPOINT append leave a disk on which recovery replays on the new tree exactly when it is not exposed; the whole record makes it recover to the store |
| `Durability.ReplayIsIdempotent` | docs/bptreedb-design.md:430-434 | replaying any log on the store it arrived at changes nothing |
| `Durability.Logged` | src/bptreedb/wal.py:183-187 | a logged operation is recovered, on top of everything before it |
| `Durability.HalfLogged` | src/bptreedb/wal.py:183-187 | a half-written record is not there for recovery, and takes nothing else with it |
| `Durability.CheckpointLogged` | src/bptreedb/db.py:314-323 | new blocks, the old meta page and a log that ends with their CHECKPOINT record recover to what the blocks hold |
| `Durability.AtRest` | src/bptreedb/db.py:324-327 | once the meta page names the last LSN of the log there is nothing to replay and the blocks hold the store |
| `CheckpointWindow.WindowExact` | docs/bptreedb-design.md:430-434 | new blocks under any torn part of the CHECKPOINT record: replay on the updated tree gives the store again; recovery replays on that tree with an allocator that leaves its pages alone if and only if the root page is the one it starts from and no tree page is free or past the end for it; with that root page it arrives at the right store in that case and at none otherwise |
| `CheckpointWindow.WindowLeaksNothing` | src/bptreedb/db.py:317-323 | where no page id may be leaked, such a disk recovers, and then to the store, if and only if root, next page id and freelist head are those recovery starts from |
| `CheckpointWindow.OldRootFurtherDown` | src/bptreedb/db.py:95-113 | when the page that recovery takes for the root has become a page further down, whatever recovery arrives at is the replay on a proper stretch of the stored entries, and lacks every other key that the log does not put again |
| `CheckpointWindow.StretchOf` | src/bptreedb/tree.py:297-329 | the entries of a subtree are a contiguous stretch of those of the tree, a proper one below the root |
| `AllocatorSafety.ExposesExact` | src/bptreedb/db.py:314-323 | reading the freelist and the tree from the blocks decides whether recovery would replay on the new tree with a safe allocator |
| `AllocatorSafety.ChainIsRead` | src/bptreedb/pager.py:153-166 | following the links from the head page reads exactly the freelist, in at most as many steps as it has pages |
| `AllocatorSafety.PagesRead` | src/bptreedb/debug.py:36-75 | reading down from the root page finds exactly the pages of the tree |
| `AllocatorSafety.SafeIsLive` | src/bptreedb/pager.py:260-288 | with a freelist in order the allocator is safe for exactly those pages it does not regard as free |
| `AllocatorSafety.HandedOut` | src/bptreedb/pager.py:260-288 | opened on a freelist in order, the allocator hands out any given page that is not live sooner or later |
| `CheckpointWindow.HeadStays` | src/bptreedb/pager.py:260-322 | a freelist that still starts with the old head page has lost no head page since the checkpoint |
| `AllocatorSafety.OneChain` | src/bptreedb/pager.py:153-166 | blocks and a head page id determine the freelist |
| `CheckpointWindow.OneSubtree` | src/bptreedb/tree.py:297-329 | a page store and a page id determine the subtree read from there |
| `CheckpointWindow.OneRoot` | src/bptreedb/tree.py:297-329 | one set of pages is the tree of one root only |
| `CheckpointWindow.OneParse` | src/bptreedb/wal.py:206-235 | a log file parses in one way only |
| `Durability.MetaRewritten` | src/bptreedb/pager.py:235-240 | rewriting block 0 leaves the stored tree and freelist as they are |
| `Durability.FreshDatabase` | src/bptreedb/pager.py:95-115 | the bootstrapped files with an empty log recover to the empty store |
| `Durability.Latest` | src/bptreedb/db.py:97-103 | the CHECKPOINT record with the highest LSN, or none when the log has none |
| `ExposedDisks.RootSplitLosesKeys` | src/bptreedb/db.py:317-323 | when the old meta page still names the left half of a split root leaf there is no database in order, and replay that looks keys up from that page misses every key of the other leaves that the log does not put again |
| `ExposedDisks.RootSplitIsUnsafe` | src/bptreedb/db.py:317-323 | a disk on which this has happened: the disk before it recovers to six keys, two of which replay misses |
| `ExposedDisks.LeafSplitIsUnsafe` | src/bptreedb/db.py:317-323 | a disk with an unchanged root page whose new leaf is the next page the old meta would allocate: replay gives the right store, and there is no database in order |
| `ExposedDisks.LeafMergeOnlyLeaks` | src/bptreedb/db.py:317-323 | a disk whose next page id and freelist head have both moved on and which recovers to exactly the right store, losing one page id |
| `Counterexamples.NoBalancedCut` | src/bptreedb/tree.py:469-508 | an internal page within the record cap that has no balanced cut: the fallback is reached and leaves a page under 40% |
| `Counterexamples.NeitherShareNorMerge` | src/bptreedb/tree.py:751-754 | an underfull internal page and a healthy sibling within the record cap that can neither share nor merge |
| `Counterexamples.DeleteGetsStuck` | src/bptreedb/tree.py:606-754 | a tree that satisfies every invariant with all pages at least 40% full, and a key in it: deleting it leaves a leaf that cannot share and is merged, and then its parent underfull with no way out, the state in which the final assertion is reached |
| `BPlusTrees.BPlusTree.Insert` | src/bptreedb/tree.py:117-153 | refuses exactly the records over the cap; otherwise exactly one binding of the map changes and all tree invariants hold, unless rebalancing got stuck, which it never does with short separators (the if-and-only-if is at `RedistributeOrMergePage`); the pages are what updating the leaf of the key and walking back up makes of them, and each page it has changed carries its LSN; at most 3(h + 1) more pages are dirty |
| `BPlusTrees.BPlusTree.Delete` | src/bptreedb/tree.py:155-188 | reports exactly the absent keys; otherwise exactly that key goes and all tree invariants hold, unless rebalancing got stuck, which it never does with short separators (the if-and-only-if is at `RedistributeOrMergePage`); the pages are what removing the entry from its leaf and walking back up makes of them, and each page it has changed carries its LSN |
| `BPlusTrees.BPlusTree.Search` | src/bptreedb/tree.py:95-115 | agrees with the map for every key; fails only when every pool page is dirty |
| `BPlusTrees.TreeScan.Next` | src/bptreedb/tree.py:190-244 | the next entry with start <= key < end in key order along the sibling chain; interference is checked on resuming and before delivering; an undisturbed end means the whole range has been delivered |
| `BPlusTrees.TreeScan.FirstDescent` | src/bptreedb/tree.py:216-219 | the scan starts at the first entry not below the start key |
| `BPlusTrees.BPlusTree.ScanAll` | src/bptreedb/tree.py:190-244 | undisturbed, the scan delivers the map restricted to [start, end), strictly ascending, and terminates |
| `BPlusTrees.BPlusTree.FindLeaf` | src/bptreedb/tree.py:297-329 | the leaf whose bounds hold the key, with the path of parents and slot indexes above it |
| `BPlusTrees.BPlusTree.BalanceAndWriteTree` | src/bptreedb/tree.py:331-382 | the cascade ends with a tree in order that has the same contents; the pages, the ids in use and the root are exactly those of the walk back up (`Rebalanced`): split, else share, else merge, at each page on the path until one needs nothing |
| `BPlusTrees.BPlusTree.SplitPage` | src/bptreedb/tree.py:384-467 | contents, leaf chain and page ids of the whole tree are kept; both halves are healthy; the page keeps the slots before the chosen cut, the next id to be allocated gets the rest, and the parent, or a new root on the id after that, leads to both |
| `BPlusTrees.BPlusTree.MoveUpperPart` | src/bptreedb/tree.py:417-449 | the slots from the cut on are on the page that the pager allocates next, the others stay, and both carry the LSN of the operation |
| `BPlusTrees.BPlusTree.ChooseCut` | src/bptreedb/tree.py:469-508 | the cut of an overfull page leaves two healthy pages, neither empty |
| `BPlusTrees.BPlusTree.CumulativeSizes` | src/bptreedb/tree.py:411-415 | the running totals of the slot sizes |
| `BPlusTrees.BPlusTree.DetermineSameParentSiblings` | src/bptreedb/tree.py:556-604 | the pages next to the focus under the same parent, and none where there is none |
| `BPlusTrees.BPlusTree.RedistributeOrMergePage` | src/bptreedb/tree.py:606-754 | when a sibling can share, slots come from the left one if it can, no page id and no root changes, and the parent is looked at next exactly if its new separator over- or underfills it; otherwise the page is merged with the left sibling if they fit on one page, else with the right one, giving back the right page and a root left without separators; finds no way exactly when no sibling can share or merge, never for leaves or short separators; contents, chain and ids are kept |
| `BPlusTrees.BPlusTree.ShareWith` | src/bptreedb/tree.py:645-677 | succeeds exactly when some transfer of slots leaves both pages at least 40% full; then just these two pages and the separator in the parent differ, and no slot too many has crossed, from the sibling to the page; contents, chain and ids are kept |
| `BPlusTrees.BPlusTree.MergeWith` | src/bptreedb/tree.py:679-738 | succeeds exactly when both pages and the separator fit on one page; then the left page holds both, the parent lacks the separator and the id of the right page is freed; contents and chain are kept |
| `BPlusTrees.BPlusTree.AfterMerge` | src/bptreedb/tree.py:740-749 | exactly a root left without separators is replaced by its only child and freed, any other parent is looked at next |
| `BPlusTrees.ChosenIsHealthy` | src/bptreedb/tree.py:469-554 | wherever the search cuts, both halves are within the page size and healthy |
| `BPlusTrees.CutKeyInside` | src/bptreedb/tree.py:419-467 | the promoted key lies strictly between the bounds of the split page |
| `BPlusTrees.SplitParent` | src/bptreedb/tree.py:462-467 | the separator placed by insort lands directly after the split child |
| `BPlusTrees.MergedHealthy` | src/bptreedb/tree.py:695-728 | a merged page that fits is at least 40% full because the sibling was |
| `BPlusTrees.Descend` | src/bptreedb/tree.py:315-329 | the child that bisect picks is the one whose key range holds the key |
| `CascadeSteps.SplitStep` | src/bptreedb/tree.py:419-467 | writing the two halves and the parent turns a tree with one page in focus into one with its parent in focus, same contents |
| `CascadeSteps.SplitRootStep` | src/bptreedb/tree.py:451-461 | a split root gets a new root above it; all leaves stay at equal depth |
| `CascadeSteps.MergeStep` | src/bptreedb/tree.py:720-733 | writing the merged page and dropping the separator keeps contents, chain and ids minus the freed one |
| `CascadeSteps.RedistributeStep` | src/bptreedb/tree.py:645-677 | writing two neighbours and their new separator keeps contents, chain and ids |
| `CascadeSteps.CollapseStep` | src/bptreedb/tree.py:740-747 | the only child of the old root is a root in order |
| `Cascading.Finish` | src/bptreedb/tree.py:356-382 | once the page in focus is fine, the whole tree is in order with the contents followed since the start |
| `Redistribution.TryRedistributeSlots` | src/bptreedb/tree.py:756-838 | succeeds exactly when some transfer leaves both pages at least 40% full; then the joined slots are the same run cut elsewhere, no slot too many has moved; otherwise both pages and the separator are restored |
| `Redistribution.MoveOne` | src/bptreedb/tree.py:791-823 | one slot crosses: the two pages and their separator are the same run, cut one slot further |
| `Redistribution.StuckMeansMergeable` | src/bptreedb/tree.py:751-754 | when a transfer gets stuck the two pages and the separator fit on one page: always for leaves, for internal pages with short separators |
| `Redistribution.StuckForGood` | src/bptreedb/tree.py:785-838 | when slot by slot transfer gets stuck, no transfer of any length would do |
| `SplitPoint.ChooseSplitPoint` | src/bptreedb/tree.py:469-508 | the balanced cut nearest to the byte midpoint, right before left, or the midpoint when no cut is balanced |
| `SplitPoint.LeafCutIsBalanced` | src/bptreedb/tree.py:469-554 | an overfull leaf has a balanced cut at the midpoint or one slot after it |
| `SplitPoint.InternalCutIsBalanced` | src/bptreedb/tree.py:469-554 | with short separators the midpoint of an overfull internal page is balanced |
| `SplitPoint.BalancedFits` | src/bptreedb/tree.py:510-554 | both halves of a balanced cut are within the page size |
| `SplitPoint.FallbackCut` | src/bptreedb/tree.py:508 | the fallback leaves two non-empty halves within the page size |
| `SplitPoint.MidpointFound` | src/bptreedb/tree.py:493-494 | bisecting the running totals finds the byte midpoint |
| `SplitPoint.Offsets` | src/bptreedb/tree.py:496-501 | the offsets 0, +1, -1, +2, -2, ... in the order they are tried |
| `Descent.InsortLands` | src/bptreedb/tree.py:466 | insort of a key between two separators lands between them |
| `Descent.ChildBounds` | src/bptreedb/tree.py:317-322 | bisect_right on the separators finds the child whose bounds hold the key |
| `LeafOps.Located` | src/bptreedb/tree.py:95-115 | bisect on a sorted leaf finds the key, or the place where it is missing |
| `LeafOps.MapUpdated` | src/bptreedb/tree.py:117-153 | updating one leaf changes the map of the whole tree at one key |
| `LeafOps.MapLocated` | src/bptreedb/tree.py:155-188 | the leaf decides for the whole tree whether a key is stored, and removing its entry removes the key |
| `TreeMaps.ContentsSorted` | src/bptreedb/debug.py:124-195 | the entries of a tree in order are strictly sorted and within its bounds |
| `LeafChain.ChainHolds` | src/bptreedb/debug.py:124-195 | the sibling chain is exactly the leaves in order |
| `LeafChain.RangeMap` | src/bptreedb/tree.py:190-244 | the entries in a range are the map restricted to that range |
| `LeafChain.RangeSorted` | src/bptreedb/tree.py:190-244 | they are in strictly ascending key order |
| `ScanFacts.LeafEnd` | src/bptreedb/tree.py:236-244 | at the end of a leaf the sibling link leads to the next leaf in order, and there is none only after the last entry |
| `FlushFacts.CachedEncodable` | src/bptreedb/cache.py:163-172 | every page the pool may have to write fits its page and its fields |
| `FlushFacts.TreeLinks` | src/bptreedb/debug.py:124-195 | every page of a tree in order fits, and links only to page ids in use |
| `FlushFacts.StoredKeyIsShort` | src/bptreedb/codec.py:660-675 | a stored key takes less than a fifth of a page |
| `Cache.BufferPool.constructor` | src/bptreedb/cache.py:46-61 | an empty pool with eviction on |
| `Cache.BufferPool.Get` | src/bptreedb/cache.py:88-117 | the page as the overlay shows it, now most recently used; fails exactly when it must evict and every page is dirty, never within an operation's headroom |
| `Cache.BufferPool.Insert` | src/bptreedb/cache.py:119-135 | the page joins dirty, stamped with the LSN and most recently used; the overlay changes at that page only |
| `Cache.BufferPool.MarkDirty` | src/bptreedb/cache.py:137-150 | the page is dirty with the newer of the two LSNs and nothing a reader sees changes |
| `Cache.BufferPool.Mutate` | src/bptreedb/cache.py:88-117 | an in-place change of a returned page object changes the overlay at that page only |
| `Cache.BufferPool.Delete` | src/bptreedb/cache.py:152-161 | the page leaves the pool, missing pages are ignored |
| `Cache.BufferPool.FlushPage` | src/bptreedb/cache.py:166-172 | one dirty page is written in its encoded form and marked clean, the overlay is unchanged |
| `Cache.BufferPool.FlushAll` | src/bptreedb/cache.py:163-172 | the file alone shows what the pool showed, no page is dirty, no other block is written |
| `Cache.BufferPool.EvictOldestCleanPageIfFull` | src/bptreedb/cache.py:185-208 | a full pool drops exactly its least recently used clean page, nothing a reader sees changes, nothing is written; fails exactly when all are dirty |
| `Cache.BufferPool.SetEvictionEnabled` | src/bptreedb/cache.py:63-76 | switching eviction keeps the pool in order |
| `Cache.BufferPool.DirtyRatio` | src/bptreedb/cache.py:78-86 | counting the marks gives the number of dirty pages |
| `Cache.OldestCleanIsUntouched` | src/bptreedb/cache.py:185-208 | with headroom left in a full pool there is a clean page, and the oldest one is none the running operation has touched |
| `Cache.EvictView` | src/bptreedb/cache.py:185-208 | dropping a clean page changes neither what readers see nor what is dirty |
| `Cache.LoadView` | src/bptreedb/cache.py:107-117 | loading a page from the file changes nothing a reader sees |
| `Paging.Pager.Bootstrap` | src/bptreedb/pager.py:95-115 | the durable file of a new database: meta page and empty root leaf |
| `Paging.Pager.Open` | src/bptreedb/pager.py:81-93 | the meta and the page size are those of the meta page, nothing is cached |
| `Paging.Pager.AllocatePage` | src/bptreedb/pager.py:260-288 | pops the top of the stack or, exactly when it is empty, bumps; an exhausted head page is itself handed out; never a live id; everything else stays as it was |
| `Paging.Pager.FreePage` | src/bptreedb/pager.py:290-322 | with room on the head page the id is added there and neither file nor meta change; otherwise, and only then, the file grows by one freelist page that becomes the head and holds the id |
| `Paging.FreeThenAllocate` | src/bptreedb/pager.py:260-322 | a page that is freed is the next one handed out |
| `Paging.AllocateUntil` | src/bptreedb/pager.py:260-288 | every page id that is not live is handed out after finitely many allocations |
| `Paging.Pager.BumpAllocateOnePage` | src/bptreedb/pager.py:251-258 | the file grows by one zero page whose id is the old next id |
| `Paging.Pager.ReadFreelistHeadPage` | src/bptreedb/pager.py:153-166 | the head page of the freelist as staged in memory or else on disk |
| `Paging.Pager.MarkFreelistPageDirty` | src/bptreedb/pager.py:168-171 | the page is staged and marked for the next flush |
| `Paging.Pager.FlushDirtyFreelistPages` | src/bptreedb/pager.py:242-249 | the file alone represents the whole stack afterwards, other blocks are untouched |
| `Paging.Pager.FlushMeta` | src/bptreedb/pager.py:235-240 | block 0 decodes to the meta, other blocks are untouched |
| `Paging.Pager.UpdateMeta` | src/bptreedb/pager.py:221-233 | the meta changes in memory and is marked dirty |
| `Paging.Pager.WritePage` | src/bptreedb/pager.py:194-208 | one block is replaced, with zero blocks before it when it lies past the end |
| `Paging.Pager.Fsync` | src/bptreedb/pager.py:210-214 | the durable blocks are the file, and the device has recorded it |
| `Devices.Device.SyncBlocks` | tests/crash/conftest.py:8-14 | unsynced writes become durable together, as one recorded state |
| `Devices.Device.AppendLog` | src/bptreedb/wal.py:183-187 | an append passes through every byte prefix, each a recorded state |
| `Devices.Device.ReplaceLog` | src/bptreedb/wal.py:285-290 | cutting or renaming the log is one recorded state |
| `Paging.FlattenPop` | src/bptreedb/pager.py:264-285 | taking the last entry of the head page, or the exhausted head page itself, pops the stack |
| `Paging.NewHead` | src/bptreedb/pager.py:312-322 | a new head page pushes itself and its entry on the stack |
| `Logging.RecordReader.Advance` | src/bptreedb/wal.py:206-235 | delivers the next record, the end, or the corruption that the iteration is specified to meet there, skipping broken records (what that iteration does with every damaged log is at `LogDamage`) |
| `Logging.Wal.constructor` | src/bptreedb/wal.py:60-72 | an existing log file, torn tail and all |
| `Logging.Wal.Append` | src/bptreedb/wal.py:169-190 | the record is durably at the end of the log, every byte prefix recorded on the way; a record that does not fit its fields changes nothing |
| `Logging.Wal.AppendPut` | src/bptreedb/wal.py:103-123 | a PUT record with the next LSN is appended |
| `Logging.Wal.AppendDelete` | src/bptreedb/wal.py:125-142 | a DELETE record with the next LSN is appended |
| `Logging.Wal.AppendCheckpoint` | src/bptreedb/wal.py:144-167 | a CHECKPOINT record with the next LSN is appended |
| `Logging.Wal.Reader` | src/bptreedb/wal.py:192-204 | a pass over a log with a torn tail delivers exactly its records |
| `Logging.Wal.TruncateTail` | src/bptreedb/wal.py:258-262 | the file ends after the last good record and the log is ready for the next LSN |
| `Logging.Wal.TruncateBefore` | src/bptreedb/wal.py:264-293 | keeps exactly the records from that LSN on, as a byte suffix of the old file |
| `Logging.KeptLog` | src/bptreedb/wal.py:278-283 | re-encoding the kept records gives a byte suffix of the old log |
| `WalCodec.RecordRoundTrip` | src/bptreedb/codec.py:257-343 | every record that fits its fields reads back as itself |
| `WalCodec.EncodedRecord` | src/bptreedb/codec.py:257-298 | a record takes four bytes more than its length prefix says |
| `WalCodec.DecodedNext` | src/bptreedb/codec.py:346-376 | a read of a whole record, good or broken, advances within the file |
| `WalCodec.NextIsRecord` | src/bptreedb/codec.py:346-376 | a whole record is read whatever comes before and after it |
| `WalCodec.NextIsTorn` | src/bptreedb/codec.py:365-374 | any proper prefix of a record reads as the end of the file |
| `WalCodec.IterateLog` | src/bptreedb/wal.py:206-235 | iterating over contiguous records and a torn tail delivers exactly the records |
| `WalCodec.IterateGood` | src/bptreedb/wal.py:206-235 | contiguous records are delivered wherever in a file they come, whatever follows them |
| `LogDamage.BrokenThenReadable` | src/bptreedb/wal.py:222-233 | broken records followed by a readable one are corruption: only what came before is delivered |
| `LogDamage.BrokenThenEnd` | src/bptreedb/wal.py:222-235 | broken records followed by the end of the file are passed over: the good records are delivered and nothing is raised |
| `LogDamage.GapIsCorruption` | src/bptreedb/wal.py:226-228 | a readable record whose LSN does not follow the last one is corruption |
| `LogDamage.DeliveredInSequence` | src/bptreedb/wal.py:206-235 | for every file whatsoever, the LSNs of the records delivered are consecutive (after an LSN of 0, which the engine never writes, any is accepted) |
| `LogDamage.DamagedLog` | src/bptreedb/wal.py:206-235 | a log with one damaged record delivers exactly the records before it, and raises exactly when a whole record follows the damaged one |
| `WalCodec.CutLog` | src/bptreedb/wal.py:237-262 | a log cut at any byte is some of its records and a torn tail |
| `WalCodec.TornTail` | src/bptreedb/wal.py:206-262 | a log cut at any byte delivers exactly the records wholly inside the cut, and the good position is their end |
| `MetaCodec.MetaRoundTrip` | src/bptreedb/codec.py:379-442 | every meta page reads back as itself |
| `MetaCodec.WithCrcMatches` | src/bptreedb/codec.py:237-254 | a buffer that ends with its own checksum passes the check (that others fail it is at `Checksums`) |
| `Checksums.FoldInjective` | src/bptreedb/codec.py:237-254 | over the same bytes the running CRC is injective in its start value |
| `Checksums.BurstDetected` | src/bptreedb/codec.py:237-254 | two byte strings of the same length that differ only within four bytes in a row have different CRCs |
| `Checksums.CheckValue` | src/bptreedb/codec.py:237-254 | the CRC of the digits 1 to 9 is the published check value of the CRC-32 that zlib computes |
| `Checksums.DamagedRecord` | src/bptreedb/codec.py:301-321 | a log record changed within four bytes in a row after its length prefix fails the checksum test |
| `Checksums.DamagedIsBroken` | src/bptreedb/codec.py:346-376 | read from a file such a record is broken, and the position moves on behind it |
| `Checksums.DamagedMeta` | src/bptreedb/codec.py:409-442 | a meta page changed within four bytes in a row of its fields or checksum is refused |
| `Layouts.MetaLayout` | src/bptreedb/codec.py:379-406 | each field of the meta page at its offset, after the prefix and version 1, before the checksum of all that; zeros up to the page size |
| `Layouts.MetaDecodes` | src/bptreedb/codec.py:409-442 | exactly which bytes are accepted as a given meta page: any version and padding, but that prefix, those fields and their checksum |
| `Layouts.RecordLayout` | src/bptreedb/codec.py:257-298 | a log record is the length of what follows, the LSN, the type, the payload, and the checksum of all that |
| `Layouts.CheckpointLayout` | src/bptreedb/codec.py:281-285 | a CHECKPOINT record takes 41 bytes and holds root, freelist head and next page id in this order |
| `Layouts.KeyLayout` | src/bptreedb/codec.py:273-280 | a PUT record holds key and value, a DELETE record the key, each after its length |
| `Codec.PageRoundTrip` | src/bptreedb/codec.py:445-594 | every page that fits reads back as itself and its image is one page long |
| `Codec.RecordAtReads` | src/bptreedb/codec.py:486-500 | each directory entry points at its own record in the area packed from the end |
| `Layouts.PageHeader` | src/bptreedb/codec.py:470-526 | type, count, LSN and page id field at their offsets; the free space of a tree page begins after the directory and ends before the last record packed, and is 0 and 0 for a freelist page |
| `Layouts.LeafSlotPlace` | src/bptreedb/codec.py:480-500 | directory entry i of a leaf says where record i is: as far from the end of the page as the first i + 1 records are long |
| `Layouts.InternalSlotPlace` | src/bptreedb/codec.py:480-500 | the same for an internal page |
| `Layouts.DecodedKind` | src/bptreedb/codec.py:531-594 | what is decoded is of the kind that the type byte names, other types are refused |
| `Layouts.LittleEndian` | src/bptreedb/codec.py:24-33 | the byte of weight 256^i of a field comes at position i |
| `Codec.DecodedLsn` | src/bptreedb/codec.py:531-594 | the LSN of any page that decodes fits its field |
| `Codec.InternalRecordRoundTrip` | src/bptreedb/codec.py:489-491 | an internal slot reads back as itself |
| `Codec.LeafRecordRoundTrip` | src/bptreedb/codec.py:492-494 | a leaf slot reads back as itself |
| `Codec.PackedInternal` | src/bptreedb/codec.py:597-639 | directory and records of an internal page take exactly its calculated size |
| `Codec.PackedLeaf` | src/bptreedb/codec.py:597-639 | directory and records of a leaf take exactly its calculated size |
| `CodecMethods.EncodePage` | src/bptreedb/codec.py:445-528 | filling the buffer from both ends gives the specified image |
| `CodecMethods.PackRecords` | src/bptreedb/codec.py:445-528 | directory forward and records backward never overlap while the page size is respected |
| `CodecMethods.DecodePage` | src/bptreedb/codec.py:531-594 | looping over the directory gives the specified page, or fails where the source raises |
| `Bytes.RankIsLexicographic` | src/bptreedb/tree.py:95-115 | the order the proofs use is exactly the lexicographic order of byte strings, and total |

## Left out

- `Runs.Machine.Run`: a run ends, instead of going on, when it crashes at an exposed moment, from some of which the code may get away (a moved root when the log puts every key again, an unsafe allocator as long as nothing is allocated), when the pool is too small for the tree, when a counter exceeds 64 bits, and when rebalancing gets stuck on long keys.
- `Database.DB.Put`: asks for a pool large enough for the tree's height (`Roomy`); with less, the engine may evict a page that an operation has changed and not marked yet, and a pool overflow in the middle of an operation is not modelled.
- `Database.DB.Delete`: asks for a pool large enough for the tree's height, like `Database.DB.Put`.
- `BPlusTrees.BPlusTree.Insert`: asks for 3(h + 1) pages of headroom, like `BPlusTrees.BPlusTree.Delete`; an operation may succeed with less.
- `Database.DB.Checkpoint`: reports an exhausted counter before it starts, where the code raises on the way.
- `Database.DB.Open`: assumes files that this engine left, not arbitrary ones (what iteration does with a damaged log is at `LogDamage`, what the decoders do with damaged images at `Checksums` and `Layouts`); the path that closes the pager after a failed recovery is left out.
- `Checksums.BurstDetected`: damage spread over more than four bytes, or over both the covered bytes and the checksum, may go unnoticed; a changed length prefix makes the reader take other bytes for the record (`src/bptreedb/codec.py:368-370` accepts that), and pages other than the meta page have no checksum.
- `Codec.PageRoundTrip`: which malformed page images decode, and to what, is given by `DecodedPage` alone, beyond `Layouts.DecodedKind`.
- `Cache.BufferPool.Mutate`: page objects are values that the tree writes back to the pool at each change, so aliasing of one page object by several callers is not captured.
- Unsynced writes to a file vanish together, and the rename of a rotated log is atomic; partial or reordered page writes and a torn meta page are not modelled.
- A crash during the very first bootstrap: the code does not promise anything there.
- The fill threshold 0.4 P is the exact comparison 5 * size < 2 * P, and the dirty ratio is an exact real number.
- The check for a closed database, Python type checks, statistics, context managers, exception texts, `fs.py` and `scripts/bench.py`.
- `close`: its checkpoint is modelled, the flushes of the pager after it find nothing dirty.
