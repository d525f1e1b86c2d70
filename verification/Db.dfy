/** The database: tree, pool, pager and log tied together by checkpoints and recovery. */
module Database {
  import opened Bytes
  import opened Entities
  import opened Codec
  import opened MetaCodec
  import opened WalCodec
  import opened Logging
  import opened Devices
  import opened Paging
  import opened Cache
  import opened TreeModel
  import opened Cascading
  import opened TreeMaps
  import opened LeafChain
  import opened BPlusTrees
  import opened Durability
  import opened FlushFacts
  import opened AllocatorSafety
  import opened CheckpointWindow
  import opened DurableSteps

  /**
   * How a call ends. `Exhausted`: the next LSN or page id no longer fits 64 bits. `Jammed`: rebalancing raised its final
   * assertion, after the operation was logged; this process cannot go on.
   */
  datatype Status = Finished | Missing | RecordTooLarge | Exhausted | Jammed

  lemma RootBelow(c: Config, blocks: seq<Bytes>, meta: Meta, root: Node, height: nat, chain: seq<FreeNode>)
    requires StoredTree(c, blocks, meta, root, height, chain)
    ensures meta.root < meta.next && meta.freelistHead < meta.next
  {
    hide DecodedPage, ChainOk, Shape, RootHealthy, Holds;
    assert root.id in Ids(root) && root.id in multiset(Live(chain, meta.next));
    if chain != [] {
      assert chain[0].id == meta.freelistHead;
      ChainInStack(chain, meta.freelistHead);
    }
  }

  lemma OnlyTheLast(recs: seq<Record>, r: Record)
    requires GoodLog(recs + [r])
    ensures Since(recs + [r], r.lsn) == [r] && LastLsn([r]) == LastLsn(recs + [r]) == r.lsn
  {
    hide RecordEncodable;
    var all := recs + [r];
    forall j | 0 <= j < |recs| ensures recs[j].lsn < r.lsn {
      assert all[j].lsn == all[0].lsn + j && all[|recs|].lsn == all[0].lsn + |recs|;
    }
    NoneSuch(recs, r.lsn);
    SinceMore(recs, r, r.lsn);
  }

  lemma {:induction false} NoneSuch(recs: seq<Record>, lsn: nat)
    requires forall i :: 0 <= i < |recs| ==> recs[i].lsn < lsn
    ensures Since(recs, lsn) == []
  {
    if recs != [] { NoneSuch(recs[1..], lsn); }
  }

  lemma OneReplayable(r: Record, c: Config)
    requires r.CheckpointRecord? && GoodLog([r])
    ensures LogOk(EncodedLog([r]), [r], [], c)
  {
    hide RecordEncodable, EncodedLog;
  }

  lemma WholeLog(log: Bytes, recs: seq<Record>, c: Config)
    requires LogOk(log, recs, [], c)
    ensures log == EncodedLog(recs)
  {
    assert EncodedLog(recs) + [] == EncodedLog(recs);
  }

  predicate RoomFor(height: nat, capacity: nat, ratio: real)
  {
    (3 * (height + 1)) as real <= (1.0 - ratio) * capacity as real
  }

  /** The size of an encoded CHECKPOINT record. */
  const CHECKPOINT_BYTES := 41

  lemma CheckpointSize(r: Record)
    requires r.CheckpointRecord?
    ensures |EncodedLog([r])| == CHECKPOINT_BYTES
  {
    hide LE;
  }

  lemma FewerWithin(few: nat, dirty: nat, capacity: nat, ratio: real)
    requires few <= dirty && WithinRatio(dirty, capacity, ratio)
    ensures WithinRatio(few, capacity, ratio)
  {
  }

  ghost predicate AfterACheckpoint(recs: seq<Record>, r: Record)
  {
    |recs| == 2 && recs[0].CheckpointRecord? && recs[0].lsn == r.lsn - 1 && recs[1] == r
  }

  ghost predicate WithinRatio(dirty: nat, capacity: nat, ratio: real)
  {
    dirty as real <= ratio * capacity as real
  }

  class DB {
    const device: Device
    const pager: Pager
    const pool: BufferPool
    const tree: BPlusTree
    const wal: Wal
    const checkpointWalSize: nat
    const checkpointDirtyRatio: real
    var recoveryCheckpointLsn: nat
    /** Counts the writes, so that a running scan notices them. */
    var version: nat

    /** Model only: this database may leak no page id. */
    const tight: bool
    /** Model only: the meta that a recovery would start from. */
    var start: Meta
    /** What the store was when the running call began. */
    ghost var before: Store
    /** The durable meta page. */
    ghost var diskMeta: Meta

    ghost predicate Parts()
      reads {}
    {
      && pager.device == device && wal.device == device && pool.pager == pager && tree.pager == pager && tree.pool == pool
      && pool.capacity > 0 && 0.0 < checkpointDirtyRatio <= 1.0 && pager.tight == tight
    }

    /** The files of a database that has not been opened yet; opening it will give `store`. */
    ghost predicate Closed(store: Store)
      reads this`diskMeta, device, pager, pool, wal
    {
      && Parts() && pool.Valid() && !pool.pinning && pool.evictionEnabled && pool.cache == map[]
      && device.Valid() && !device.exposed && wal.Readable()
      && pager.file == device.blocks && device.blocks != [] && pager.metaBlock == device.blocks[0]
      && pager.freelistCache == map[] && pager.dirtyFreelist == {} && !pager.metaDirty
      && pager.meta == diskMeta && pager.pageSize == diskMeta.pageSize
      && Recovers(device.Now(), tree.Cfg(), diskMeta, wal.records, wal.tail, store)
    }

    /** On the files a crash or an earlier run left. */
    constructor (disk: Disk, cacheCapacity: nat, checkpointWalSize: nat, checkpointDirtyRatio: real, tight: bool, ghost c: Config, ghost store: Store)
      requires RecoversTo(disk, c, store) && c.tight == tight && cacheCapacity > 0 && 0.0 < checkpointDirtyRatio <= 1.0
      ensures Closed(store) && device.Now() == disk && tree.Cfg() == c && pool.capacity == cacheCapacity
      ensures this.checkpointWalSize == checkpointWalSize && this.checkpointDirtyRatio == checkpointDirtyRatio
      ensures fresh(device) && fresh(pager) && fresh(pool) && fresh(tree) && fresh(wal)
    {
      hide LogOk, GoodLog, EncodedLog, Torn, DecodedMeta, Base, Repaired, LastLsn, DecodedPage, Recorded;
      ghost var m, recs, tail :| Recovers(disk, c, m, recs, tail, store);
      OpenedLog(disk, c, m, recs, tail, store);
      var theDevice := new Device(disk);
      var thePager := new Pager.Open(theDevice, tight);
      var thePool := new BufferPool(thePager, cacheCapacity);
      var theTree := new BPlusTree(thePager, thePool, c.strict);
      var theWal := new Wal(theDevice, recs, tail);
      device, pager, pool, tree, wal := theDevice, thePager, thePool, theTree, theWal;
      this.checkpointWalSize, this.checkpointDirtyRatio, this.tight := checkpointWalSize, checkpointDirtyRatio, tight;
      recoveryCheckpointLsn, version, start, before, diskMeta := 0, 0, thePager.meta, store, m;
    }

    ghost predicate Stepped()
      reads this`diskMeta, this`start, device, pager, tree, wal, tree.pager`pageSize
    {
      Logged(tree.Map())
    }

    /** The durable files say `store`. */
    ghost predicate Logged(store: Store)
      reads this`diskMeta, this`start, device, pager, wal, tree.pager`pageSize
    {
      InStep(device.Now(), tree.Cfg(), diskMeta, wal.records, store, pager.metaBlock, pager.meta, start, pager.saved)
    }

    /** The device has recorded what it went through, and is not in the middle of a checkpoint. */
    ghost predicate Quiet()
      reads device
    {
      device.Valid() && !device.exposed
    }

    /** Ready for a checkpoint or an operation. */
    ghost predicate Ready()
      reads this`diskMeta, this`start, device, pager, pool, tree, wal
    {
      Parts() && tree.Valid() && pool.evictionEnabled && wal.Valid() && Quiet() && Stepped()
    }

    ghost predicate InRatio()
      reads pool
    {
      WithinRatio(|pool.Dirty()|, pool.capacity, checkpointDirtyRatio)
    }

    /** Between calls. */
    ghost predicate Valid()
      reads this`diskMeta, this`start, device, pager, pool, tree, wal
    {
      Ready() && InRatio()
    }

    /** The stored map. */
    ghost function Map(): Store
      reads tree
    {
      tree.Map()
    }

    /** A pool large enough for the height the tree has: what checkpoints leave free holds one operation. */
    ghost predicate Roomy()
      reads tree
    {
      RoomFor(tree.height, pool.capacity, checkpointDirtyRatio)
    }

    /** Every state the files have been in since the call began recovers to the store before the call or to `after`. */
    ghost predicate SafeUpTo(after: Store)
      reads device`history, this`before, tree.pager`pageSize
    {
      AllJudged(device.history, tree.Cfg(), before, after)
    }

    ghost predicate CrashSafe()
      reads device`history, this`before, tree, tree.pager`pageSize
    {
      SafeUpTo(tree.Map())
    }

    /** A checkpoint with this LSN has just been completed: the log is its record, and the meta page says the same. */
    ghost predicate CheckpointedAt(lsn: nat)
      reads this`diskMeta, this`start, pager, pool, wal
    {
      && wal.records == [CheckpointRecord(lsn, pager.meta.root, pager.meta.freelistHead, pager.meta.next)]
      && pager.meta.checkpointLsn == lsn && diskMeta == start == pager.meta && !pager.metaDirty && pool.Dirty() == {}
    }

    /** The durable states of that checkpoint, which found this log and this meta page. */
    ghost function Trail(log: Bytes, metaBlock: Bytes, from: Meta): seq<Moment>
      requires device.blocks != [] && wal.records != []
      reads device, pager, wal
    {
      var blocks := device.blocks[0 := metaBlock];
      CheckpointMoments(Exposes(tight, blocks, pager.pageSize, from, pager.meta.(checkpointLsn := from.checkpointLsn)),
                        blocks, log, wal.records[0], device.Now())
    }

    /** The next write checkpoints. */
    ghost predicate Due()
      reads pool, wal
    {
      |wal.file| > checkpointWalSize || !InRatio()
    }

    /**
     * What a write leaves of a log that ended with record `lsn`: its own record after the others, with a checkpoint in
     * between if the log had outgrown its limit; or all that replaced by a second checkpoint, which takes a log over its
     * limit or, when at most `most` pages are dirty, too many dirty pages.
     */
    ghost predicate Written(lsn: nat, recs: seq<Record>, size: nat, most: nat, r: Record)
      reads this`diskMeta, this`start, pager, pool, wal
    {
      var first := size > checkpointWalSize;
      var grown := (if first then CHECKPOINT_BYTES else size) + |EncodedRecord(r)|;
      && r.lsn == lsn + (if first then 2 else 1)
      && (if wal.currentLsn == r.lsn then
            !Due() && |wal.file| == grown && (if first then AfterACheckpoint(wal.records, r) else wal.records == recs + [r])
          else
            && CheckpointedAt(r.lsn + 1) && wal.currentLsn == r.lsn + 1
            && (grown > checkpointWalSize || !WithinRatio(most, pool.capacity, checkpointDirtyRatio)))
    }

    /** The next LSN and page id fit their fields. */
    ghost predicate CanCount()
      reads pager, wal
    {
      pager.meta.next < U64 && wal.currentLsn + 1 < U64
    }

    lemma RoomForOne()
      requires Parts() && Roomy() && InRatio()
      ensures tree.HasHeadroom() && |pool.Dirty()| < pool.capacity
    {
      var c, d, h := pool.capacity as real, |pool.Dirty()| as real, (3 * (tree.height + 1)) as real;
      assert (1.0 - checkpointDirtyRatio) * c == c - checkpointDirtyRatio * c;
      assert d + h <= c;
    }

    lemma AboutNow(store: Store)
      requires Logged(store) && tree.pager == pager
      ensures Recovers(device.Now(), tree.Cfg(), diskMeta, wal.records, [], store) && RecoversTo(device.Now(), tree.Cfg(), store)
      ensures LogOk(device.log, wal.records, [], tree.Cfg())
      ensures diskMeta.pageSize == pager.pageSize == pager.meta.pageSize && DecodedMeta(pager.metaBlock) == Some(diskMeta)
      ensures start == Repaired(diskMeta, wal.records) && SavedOk(pager.saved, device.blocks, start, pager.pageSize)
      ensures pager.meta.checkpointLsn == start.checkpointLsn <= LastLsn(wal.records) && diskMeta.checkpointLsn <= LastLsn(wal.records)
    {
      hide InStep, Recovers, RecoversTo, LogOk, Repaired, SavedOk, DecodedMeta, LastLsn;
      AboutStep(device.Now(), tree.Cfg(), diskMeta, wal.records, store, pager.metaBlock, pager.meta, start, pager.saved);
    }

    /** A call begins. */
    method BeginCall()
      requires Ready()
      modifies device`history, this`before
      ensures Ready() && before == Map() && device.history == [Moment(device.Now(), false)] && CrashSafe()
      ensures InRatio() == old(InRatio()) && device.Now() == old(device.Now())
    {
      hide InStep, BPlusTree.Valid, BPlusTree.Map, Wal.Valid, AllJudged, RecoversTo, Recovers, InRatio, LogOk, LastLsn, DecodedMeta, SavedOk,
        Repaired, Recorded;
      AboutNow(tree.Map());
      Kept(device.Now(), tree.Cfg(), tree.Map(), tree.Map());
      before := tree.Map();
      device.Forget();
    }

    // ---- checkpoints ----

    /** `flush_all` and `flush_dirty_freelist_pages`: the file alone holds tree and freelist. */
    method WritePages()
      requires Parts() && tree.Valid() && pager.meta.next < U64 && pager.saved.Saved?
      modifies pool`cache, pager`file, pager`dirtyFreelist, pager`saved
      ensures tree.Valid() && pool.Dirty() == {}
      ensures StoredTree(tree.Cfg(), pager.file, pager.meta, tree.root, tree.height, pager.chain)
      ensures pager.file != [] && pager.file[0] == pager.metaBlock
      ensures Unwritten(old(pager.saved).file, pager.file, pager.chain)
      ensures SinceSaved(old(pager.saved), old(pager.file), pager.meta.next, pager.chain)
    {
      hide Consistent, PagerOk, MetaOk, OrderOk, InSync, LsnOk, Stamps, TouchedLast, Headroom, Overlay, DirtyIds, Live, Encodable, ChainOk,
        StoredTree, SameOn, SinceSaved, Unwritten, Flatten;
      assert pool.stale == {};
      AboutPager(pager.pageSize, pager.file, pager.meta, pager.freelistCache, pager.dirtyFreelist, pager.chain);
      CachedEncodable(tree.Cfg(), pager.file, pager.meta, pool.cache, pager.chain, pager.LiveIds(), tree.root, tree.height);
      DirtyCached(pool.cache);
      ghost var saved, f0, dirty := pager.saved, pager.file, pool.Dirty();
      pager.StartWriting();
      pool.FlushAll();
      ChainUndisturbed(pager.pageSize, f0, pager.file, pager.meta, pager.freelistCache, pager.dirtyFreelist, pager.chain,
                       pager.metaBlock, pager.metaDirty, dirty);
      ghost var f1 := pager.file;
      NothingToKeep(f1, pager.meta.next, pager.chain);
      pager.FlushDirtyFreelistPages();
      StillUnwritten(saved, f0, f1, pager.file, pager.meta.next, pager.chain, dirty);
      ChainIsNotLive(f1, pager.file, pager.chain, pager.meta.next, pager.LiveIds());
      TreeUndisturbed(tree.Cfg(), pool.cache, f1, pager.file, pager.LiveIds(), pager.meta.root, tree.root, tree.height);
      WrittenOut(tree.Cfg(), pager.file, pager.meta, pager.freelistCache, pager.chain, pool.cache, pager.LiveIds(), tree.root, tree.height);
      MetaBlockIs(pager.file, pager.metaBlock, pager.metaDirty, pager.meta);
    }

    /**
     * The first fsync, and the CHECKPOINT record. Until that record is complete a recovery starts from the old meta: it
     * replays on the new tree, and arrives at the store, exactly when the blocks are not exposed.
     */
    method LogCheckpoint(ghost saved: Saved, ghost file: seq<Bytes>) returns (lsn: nat)
      requires Parts() && wal.Valid() && Quiet() && CrashSafe() && pager.meta.next < U64 && wal.currentLsn + 1 < U64
      requires NewBlocks(device.Now(), tree.Cfg(), diskMeta, wal.records, tree.Map(), start, saved, file,
                         pager.file, pager.meta, tree.root, tree.height, pager.chain)
      modifies wal, device
      ensures wal.Valid() && Quiet() && CrashSafe() && lsn == old(wal.currentLsn) + 1 == wal.currentLsn
      ensures wal.records == old(wal.records) + [CheckpointRecord(lsn, pager.meta.root, pager.meta.freelistHead, pager.meta.next)]
      ensures LogOk(wal.file, wal.records, [], tree.Cfg())
      ensures device.blocks == pager.file && device.log == old(device.log) + EncodedRecord(wal.records[|old(wal.records)|])
      ensures var exposed := Exposes(tight, pager.file, pager.pageSize, start, pager.meta);
        device.history == old(device.history) + [Moment(Disk(pager.file, old(device.log)), exposed)] +
          Cuts(pager.file, device.log, |old(device.log)|, exposed)
      ensures WindowIs(pager.file, old(device.log), EncodedRecord(wal.records[|old(wal.records)|]), tree.Cfg(), tree.root, tree.Map(),
                       Exposes(tight, pager.file, pager.pageSize, start, pager.meta))
    {
      hide Wal.Valid, Wal.Readable, AllJudged, Judged, Recovers, RecoversTo, MetaIs, StoredTree, EncodedRecord, RecordEncodable, Repaired, LastLsn,
        LogOk, Contents, ToMap, NewBlocks, Cuts, Recorded, SavedOk, SinceSaved, Unwritten, Exposes, WindowIs, BPlusTree.Map;
      ghost var recs, was, exposed := wal.records, device.Now(), Exposes(tight, pager.file, pager.pageSize, start, pager.meta);
      WalFacts();
      BlocksParts(was, tree.Cfg(), diskMeta, recs, tree.Map(), start, saved, file, pager.file, pager.meta, tree.root, tree.height, pager.chain);
      RootBelow(tree.Cfg(), pager.file, pager.meta, tree.root, tree.height, pager.chain);
      ghost var r := CheckpointRecord(wal.currentLsn + 1, pager.meta.root, pager.meta.freelistHead, pager.meta.next);
      CheckpointEncodable(r);
      CheckpointCuts(was, tree.Cfg(), diskMeta, recs, tree.Map(), start, saved, file, pager.file, pager.meta, tree.root, tree.height, pager.chain, r);
      ghost var first, cuts := Moment(Disk(pager.file, was.log), exposed), Cuts(pager.file, was.log + EncodedRecord(r), |was.log|, exposed);
      EitherStore(first, cuts, tree.Cfg(), tree.Map(), before);
      OneMore(device.history, first, tree.Cfg(), before, tree.Map());
      AllConcat(device.history + [first], cuts, tree.Cfg(), before, tree.Map());
      device.Expose(Exposes(tight, pager.file, pager.pageSize, start, pager.meta));
      pager.Fsync();
      var ok;
      ok, lsn := wal.AppendCheckpoint(pager.meta.root, pager.meta.freelistHead, pager.meta.next);
      WalFacts();
    }

    /** Writes the meta page that names the new checkpoint, and fsyncs again. */
    method WriteMeta(lsn: nat)
      requires Parts() && tree.Valid() && wal.Valid() && Quiet() && CrashSafe()
      requires pager.meta.next < U64 && lsn < U64 && lsn == LastLsn(wal.records) && pager.meta.pageSize == pager.pageSize
      requires LogOk(wal.file, wal.records, [], tree.Cfg())
      requires StoredTree(tree.Cfg(), pager.file, pager.meta, tree.root, tree.height, pager.chain) && device.blocks == pager.file
      modifies pager`file, pager`meta, pager`metaDirty, pager`metaBlock, pager`saved, device`blocks, device`history, this`diskMeta, this`start
      ensures tree.Valid() && Quiet() && CrashSafe() && !pager.metaDirty
      ensures pager.meta == old(pager.meta).(checkpointLsn := lsn) && diskMeta == start == pager.meta
      ensures StoredTree(tree.Cfg(), device.blocks, pager.meta, tree.root, tree.height, pager.chain)
      ensures MetaIs(device.blocks, diskMeta) && device.blocks[0] == pager.metaBlock
      ensures old(device.blocks) != [] && device.blocks == old(device.blocks)[0 := pager.metaBlock]
      ensures SavedOk(pager.saved, device.blocks, start, pager.pageSize)
      ensures device.history == old(device.history) + [Moment(device.Now(), false)]
    {
      hide AllJudged, Judged, RecoversTo, Recovers, StoredTree, LogOk, LastLsn, Wal.Valid, Wal.Readable, Consistent, PagerOk, Encodable, EncodedMeta, DecodedMeta,
        OrderOk, InSync, LsnOk, Stamps, TouchedLast, Headroom, Overlay, Live, SameOn, Contents, ToMap, SavedOk, Recorded, SinceSaved;
      ghost var was := pager.file;
      WalFacts();
      WholeLog(wal.file, wal.records, tree.Cfg());
      RootBelow(tree.Cfg(), pager.file, pager.meta, tree.root, tree.height, pager.chain);
      AboutPager(pager.pageSize, pager.file, pager.meta, pager.freelistCache, pager.dirtyFreelist, pager.chain);
      CheckpointKeepsPager(pager.pageSize, pager.file, pager.meta, pager.freelistCache, pager.dirtyFreelist, pager.chain, lsn);
      LiveIsPositive(pager.chain, pager.meta.next);
      assert pool.stale == {};
      pager.UpdateMeta(pager.meta.(checkpointLsn := lsn));
      pager.FlushMeta();
      OnlyBlockZero(was, pager.file, pager.LiveIds());
      TreeUndisturbed(tree.Cfg(), pool.cache, was, pager.file, pager.LiveIds(), pager.meta.root, tree.root, tree.height);
      MetaRewritten(tree.Cfg(), was, old(pager.meta), pager.meta, tree.root, tree.height, pager.chain, pager.metaBlock);
      pager.Remember();
      SavedNow(tree.Cfg(), pager.file, pager.meta, tree.root, tree.height, pager.chain);
      pager.Fsync();
      diskMeta, start := pager.meta, pager.meta;
      AtRest(tree.Cfg(), device.blocks, diskMeta, wal.records, tree.root, tree.height, pager.chain);
      IsRecoverable(device.Now(), tree.Cfg(), diskMeta, wal.records, [], tree.Map());
      Kept(device.Now(), tree.Cfg(), before, tree.Map());
      OneMore(old(device.history), Moment(device.Now(), false), tree.Cfg(), before, tree.Map());
    }

    /**
     * Flushes the pages, logs a CHECKPOINT record, writes the meta page and rotates the log, in this order; false
     * when the next LSN or page id no longer fits its field.
     */
    method Checkpoint() returns (ok: bool)
      requires Ready() && CrashSafe()
      modifies pool`cache, pager`file, pager`meta, pager`metaDirty, pager`dirtyFreelist, pager`metaBlock, pager`saved,
        device, wal, this`diskMeta, this`start
      ensures Ready() && CrashSafe()
      ensures ok <==> old(CanCount())
      ensures ok ==> CheckpointedAt(old(wal.currentLsn) + 1) && pager.meta == old(pager.meta).(checkpointLsn := old(wal.currentLsn) + 1)
      ensures ok ==> wal.currentLsn == old(wal.currentLsn) + 1 && device.blocks != []
      ensures ok ==> device.history == old(device.history) + Trail(old(device.log), old(pager.metaBlock), old(start))
      ensures !ok ==> unchanged(device) && unchanged(wal) && unchanged(pool) && unchanged(pager)
    {
      hide AllJudged, Judged, RecoversTo, Recovers, StoredTree, LogOk, LastLsn, Wal.Valid, Wal.Readable, BPlusTree.Valid, MetaIs, Repaired,
        DirtyIds, InStep, Since, EncodedRecord, Contents, ToMap, RecordEncodable, DecodedMeta, EncodedLog, GoodLog, Cuts, CheckpointMoments,
        SavedOk, SinceSaved, Unwritten, Recorded, NewBlocks, Exposes, WindowIs;
      if pager.meta.next >= U64 || wal.currentLsn + 1 >= U64 { return false; }
      ghost var saved, file, was, recs := pager.saved, pager.file, device.Now(), wal.records;
      WalFacts();
      AboutNow(tree.Map());
      SavedIs(saved, device.blocks, start, pager.pageSize);
      WritePages();
      AreNewBlocks(saved, file);
      var lsn := LogCheckpoint(saved, file);
      WalFacts();
      ghost var blocks := device.blocks;
      WriteMeta(lsn);
      assert device.blocks[0 := old(pager.metaBlock)] == blocks;
      ghost var r := wal.records[|recs|];
      assert wal.records == recs + [r];
      OnlyTheLast(recs, r);
      wal.TruncateBefore(lsn);
      WalFacts();
      Rotated(device.history[..|device.history| - 1]);
      MomentsShown(old(device.history), Exposes(tight, blocks, pager.pageSize, old(start), old(pager.meta)), blocks, was.log, r, device.Now());
      ok := true;
    }

    /** The meta page says what the only record of the log says. */
    lemma Rotated(earlier: seq<Moment>)
      requires Parts() && tree.Valid() && wal.Valid() && device.blocks != []
      requires |wal.records| == 1 && wal.records[0].CheckpointRecord? && diskMeta == start == pager.meta && pager.meta.pageSize == pager.pageSize
      requires wal.records[0].lsn == pager.meta.checkpointLsn && LastLsn(wal.records) == wal.records[0].lsn
      requires StoredTree(tree.Cfg(), device.blocks, pager.meta, tree.root, tree.height, pager.chain)
      requires MetaIs(device.blocks, diskMeta) && device.blocks[0] == pager.metaBlock && SavedOk(pager.saved, device.blocks, start, pager.pageSize)
      requires AllJudged(earlier, tree.Cfg(), before, tree.Map()) && device.history == earlier + [Moment(device.Now(), false)]
      ensures Stepped() && CrashSafe()
    {
      hide AllJudged, Judged, RecoversTo, Recovers, StoredTree, LogOk, LastLsn, Wal.Valid, Wal.Readable, BPlusTree.Valid, MetaIs, Repaired,
        InStep, Contents, ToMap, DecodedMeta, EncodedLog, GoodLog, SavedOk, Recorded;
      WalFacts();
      assert wal.records == [wal.records[0]];
      OneReplayable(wal.records[0], tree.Cfg());
      AtRest(tree.Cfg(), device.blocks, diskMeta, wal.records, tree.root, tree.height, pager.chain);
      IsInStep(device.Now(), tree.Cfg(), diskMeta, wal.records, tree.Map(), pager.metaBlock, pager.meta, start, pager.saved);
      IsRecoverable(device.Now(), tree.Cfg(), diskMeta, wal.records, [], tree.Map());
      Kept(device.Now(), tree.Cfg(), before, tree.Map());
      OneMore(earlier, Moment(device.Now(), false), tree.Cfg(), before, tree.Map());
    }

    lemma AreNewBlocks(saved: Saved, file: seq<Bytes>)
      requires Parts() && start == Repaired(diskMeta, wal.records) && SavedOk(saved, device.blocks, start, pager.pageSize)
      requires Recovers(device.Now(), tree.Cfg(), diskMeta, wal.records, [], tree.Map())
      requires StoredTree(tree.Cfg(), pager.file, pager.meta, tree.root, tree.height, pager.chain)
      requires pager.file != [] && pager.file[0] == pager.metaBlock && DecodedMeta(pager.metaBlock) == Some(diskMeta)
      requires SinceSaved(saved, file, pager.meta.next, pager.chain) && Unwritten(device.blocks, pager.file, pager.chain)
      requires pager.meta.pageSize == pager.pageSize && pager.meta.checkpointLsn == start.checkpointLsn
      ensures NewBlocks(device.Now(), tree.Cfg(), diskMeta, wal.records, tree.Map(), start, saved, file,
                        pager.file, pager.meta, tree.root, tree.height, pager.chain)
    {
      hide Recovers, StoredTree, SavedOk, SinceSaved, Unwritten, Repaired, DecodedMeta, Contents, ToMap;
    }

    /** A checkpoint the caller asks for. */
    method RunCheckpoint() returns (ok: bool)
      requires Valid()
      modifies pool`cache, pager`file, pager`meta, pager`metaDirty, pager`dirtyFreelist, pager`metaBlock, pager`saved,
        device, wal, this`diskMeta, this`start, this`before
      ensures Quiet() && Ready() && CrashSafe() && before == old(Map()) == Map() && device.history[0].disk == old(device.Now())
      ensures if ok then Valid() && CheckpointedAt(old(wal.currentLsn) + 1) else !CanCount()
      ensures ok <==> old(CanCount())
      ensures ok ==>
        && device.blocks != []
        && device.history == [Moment(old(device.Now()), false)] + Trail(old(device.log), old(pager.metaBlock), old(start))
    {
      hide AllJudged, InStep, BPlusTree.Valid, BPlusTree.Map, Wal.Valid, DirtyIds, WithinRatio, CheckpointMoments, Recorded, Trail, CheckpointedAt;
      BeginCall();
      ok := Checkpoint();
      if ok { NoneDirty(old(wal.currentLsn) + 1); }
    }

    /** Checkpoints when the log has outgrown its limit or too many pages of the pool are dirty. */
    method MaybeCheckpoint() returns (ok: bool)
      requires Ready() && CrashSafe()
      modifies pool`cache, pager`file, pager`meta, pager`metaDirty, pager`dirtyFreelist, pager`metaBlock, pager`saved,
        device, wal, this`diskMeta, this`start
      ensures Ready() && CrashSafe() && (ok ==> InRatio()) && old(device.history) <= device.history
      ensures ok <==> !old(Due()) || old(CanCount())
      ensures !old(Due()) || !ok ==> unchanged(device) && unchanged(wal) && unchanged(pool) && unchanged(pager)
      ensures old(Due()) && ok ==> CheckpointedAt(old(wal.currentLsn) + 1) && wal.currentLsn == old(wal.currentLsn) + 1
      ensures old(Due()) && ok ==>
        && device.blocks != []
        && device.history == old(device.history) + Trail(old(device.log), old(pager.metaBlock), old(start))
    {
      hide *;
      ReadyParts();
      var ratio := PoolRatio();
      WhenDue(ratio);
      ok := true;
      if |wal.file| > checkpointWalSize || ratio > checkpointDirtyRatio {
        ok := Checkpoint();
        if ok { NoneDirty(old(wal.currentLsn) + 1); }
      }
    }

    lemma ReadyParts()
      requires Ready()
      ensures Parts() && tree.Valid() && pool.evictionEnabled && wal.Valid() && Quiet() && Stepped()
      ensures wal.device == device && checkpointDirtyRatio > 0.0 && tree.pool == pool && tree.pager == pager
    {
      hide InStep, BPlusTree.Valid, BPlusTree.Map, Wal.Valid, Recorded;
    }

    lemma IsReady()
      requires Parts() && tree.Valid() && pool.evictionEnabled && wal.Valid() && Quiet() && Stepped()
      ensures Ready()
    {
    }

    lemma ValidParts()
      ensures Valid() <==> Ready() && InRatio()
    {
      hide Ready, InRatio;
    }

    /** How many pages are dirty is all that counts. */
    lemma AboutRatio()
      ensures InRatio() <==> WithinRatio(|pool.Dirty()|, pool.capacity, checkpointDirtyRatio)
    {
    }

    lemma AboutMap()
      ensures Map() == tree.Map()
    {
    }

    lemma NoLsnLeft()
      requires wal.currentLsn + 1 >= U64
      ensures !CanCount()
    {
    }

    lemma WhenDue(ratio: real)
      requires Parts() && ratio == (|pool.Dirty()| as real) / (pool.capacity as real)
      ensures Due() <==> |wal.file| > checkpointWalSize || ratio > checkpointDirtyRatio
      ensures !Due() ==> InRatio()
    {
      hide WithinRatio, BufferPool.Dirty;
      RatioIs(|pool.Dirty()|, pool.capacity, checkpointDirtyRatio);
    }

    lemma NoneDirty(lsn: nat)
      requires CheckpointedAt(lsn) && checkpointDirtyRatio > 0.0
      ensures InRatio()
    {
      hide WithinRatio, BufferPool.Dirty;
      NoneInRatio(pool.capacity, checkpointDirtyRatio);
    }

    method PoolRatio() returns (r: real)
      requires Parts() && tree.Valid()
      ensures r == (|pool.Dirty()| as real) / (pool.capacity as real)
    {
      hide Consistent, Pager.Valid, OrderOk, InSync, LsnOk, Stamps, Overlay, DirtyIds, Live;
      r := pool.DirtyRatio();
    }

    // ---- operations ----

    /** Logs an insertion. */
    method LogPut(key: Bytes, value: Bytes) returns (ok: bool, lsn: nat)
      requires Ready() && CrashSafe() && before == Map()
      requires LeafRecordSize(key, value) <= MaxLeafRecordSize(pager.pageSize) && (tree.strict ==> ShortKey(key, pager.pageSize))
      modifies wal, device`log, device`history, device`exposed
      ensures wal.Valid() && Quiet() && lsn == old(wal.currentLsn) + 1 && (ok <==> lsn < U64)
      ensures !ok ==> Ready() && unchanged(device) && wal.currentLsn == old(wal.currentLsn)
      ensures ok ==> device.log == old(device.log) + EncodedRecord(PutRecord(lsn, key, value))
      ensures ok ==> wal.records == old(wal.records) + [PutRecord(lsn, key, value)] && wal.currentLsn == lsn
      ensures ok ==> device.history == old(device.history) + Cuts(device.blocks, device.log, |old(device.log)|, false)
      ensures ok ==> SafeUpTo(before[key := value]) && Logged(before[key := value]) && old(device.history) <= device.history
    {
      hide AllJudged, InStep, BPlusTree.Valid, BPlusTree.Map, Wal.Valid, EncodedRecord, RecordEncodable, LogOk, LastLsn, Effect, GoodLog,
        EncodedLog, Cuts, LeafRecordSize, MaxLeafRecordSize, Recorded;
      ghost var r := PutRecord(wal.currentLsn + 1, key, value);
      WalFacts();
      PagerMeta();
      SmallPut(r, pager.pageSize);
      PutEffect(before, r);
      if RecordEncodable(r) { OperationLogged(r); }
      ok, lsn := wal.AppendPut(key, value);
      WalFacts();
    }

    /** Logs a deletion. */
    method LogDelete(key: Bytes) returns (ok: bool, lsn: nat)
      requires Ready() && CrashSafe() && before == Map() && 5 * |key| < pager.pageSize
      modifies wal, device`log, device`history, device`exposed
      ensures wal.Valid() && Quiet() && lsn == old(wal.currentLsn) + 1 && (ok <==> lsn < U64)
      ensures !ok ==> Ready() && unchanged(device) && wal.currentLsn == old(wal.currentLsn)
      ensures ok ==> device.log == old(device.log) + EncodedRecord(DeleteRecord(lsn, key))
      ensures ok ==> wal.records == old(wal.records) + [DeleteRecord(lsn, key)] && wal.currentLsn == lsn
      ensures ok ==> device.history == old(device.history) + Cuts(device.blocks, device.log, |old(device.log)|, false)
      ensures ok ==> SafeUpTo(before - {key}) && Logged(before - {key}) && old(device.history) <= device.history
    {
      hide AllJudged, InStep, BPlusTree.Valid, BPlusTree.Map, Wal.Valid, EncodedRecord, RecordEncodable, LogOk, LastLsn, Effect, GoodLog,
        EncodedLog, Cuts, Recorded;
      ghost var r := DeleteRecord(wal.currentLsn + 1, key);
      WalFacts();
      PagerMeta();
      SmallDelete(r, pager.pageSize);
      DeleteEffect(before, r);
      if RecordEncodable(r) { OperationLogged(r); }
      ok, lsn := wal.AppendDelete(key);
      WalFacts();
    }

    /** What appending the record of an operation will make of the files. */
    lemma OperationLogged(r: Record)
      requires Logged(before) && SafeUpTo(before)
      requires RecordEncodable(r) && r.lsn == LastLsn(wal.records) + 1 && Replayable(r, tree.Cfg()) && !r.CheckpointRecord?
      ensures InStep(Disk(device.blocks, device.log + EncodedRecord(r)), tree.Cfg(), diskMeta, wal.records + [r], Effect(before, r),
                     pager.metaBlock, pager.meta, start, pager.saved)
      ensures AllJudged(device.history + Cuts(device.blocks, device.log + EncodedRecord(r), |device.log|, false), tree.Cfg(), before, Effect(before, r))
    {
      hide InStep, AllJudged, RecordEncodable, EncodedRecord, LastLsn, Replayable, Effect, Cuts;
      StepLogged(device.Now(), tree.Cfg(), diskMeta, wal.records, before, pager.metaBlock, pager.meta, start, pager.saved, r);
      NewStore(device.history, tree.Cfg(), before, Effect(before, r));
      AllConcat(device.history, Cuts(device.blocks, device.log + EncodedRecord(r), |device.log|, false), tree.Cfg(), before, Effect(before, r));
    }

    /** The insertion that has just been logged; false when rebalancing is stuck, never with short keys. */
    method InsertLogged(key: Bytes, value: Bytes, lsn: nat) returns (ok: bool)
      requires Parts() && tree.Valid() && pool.evictionEnabled && wal.Valid() && Quiet() && tree.HasHeadroom() && lsn < U64
      requires LeafRecordSize(key, value) <= MaxLeafRecordSize(pager.pageSize) && (tree.strict ==> ShortKey(key, pager.pageSize))
      requires before == Map() && Logged(before[key := value]) && SafeUpTo(before[key := value])
      modifies pool`order, pool`cache, pool`pinning, pool`touched, pool`credits, pool`limit, pool`stamp, pool`stale, pool`changed, tree`root, tree`height,
        pager`file, pager`meta, pager`metaDirty, pager`freelistCache, pager`dirtyFreelist, pager`chain
      ensures (tree.strict ==> ok) && Logged(before[key := value])
      ensures ok ==> Ready() && CrashSafe() && Map() == before[key := value]
      ensures ok ==> |pool.Dirty()| <= |old(pool.Dirty())| + 3 * (old(tree.height) + 1)
    {
      hide AllJudged, InStep, BPlusTree.Valid, BPlusTree.Map, Wal.Valid, BPlusTree.HasHeadroom, LeafRecordSize, MaxLeafRecordSize, Recorded,
        AfterPut, BPlusTree.Now, BufferPool.Dirty, BufferPool.Stamped;
      ghost var meta := pager.meta;
      var outcome := tree.Insert(key, value, lsn);
      ok := outcome == Done;
      StepApplied(device.Now(), tree.Cfg(), diskMeta, wal.records, before[key := value], pager.metaBlock, meta, start, pager.saved, pager.meta);
    }

    /** The deletion that has just been logged; false when rebalancing is stuck, never with short keys. */
    method DeleteLogged(key: Bytes, lsn: nat) returns (ok: bool)
      requires Parts() && tree.Valid() && pool.evictionEnabled && wal.Valid() && Quiet() && tree.HasHeadroom() && lsn < U64
      requires before == Map() && key in Map() && Logged(before - {key}) && SafeUpTo(before - {key})
      modifies pool`order, pool`cache, pool`pinning, pool`touched, pool`credits, pool`limit, pool`stamp, pool`stale, pool`changed, tree`root, tree`height,
        pager`file, pager`meta, pager`metaDirty, pager`freelistCache, pager`dirtyFreelist, pager`chain
      ensures (tree.strict ==> ok) && Logged(before - {key})
      ensures ok ==> Ready() && CrashSafe() && Map() == before - {key}
      ensures ok ==> |pool.Dirty()| <= |old(pool.Dirty())| + 3 * (old(tree.height) + 1)
    {
      hide AllJudged, InStep, BPlusTree.Valid, BPlusTree.Map, Wal.Valid, BPlusTree.HasHeadroom, Recorded, AfterDelete, BPlusTree.Now,
        BufferPool.Dirty;
      ghost var meta := pager.meta;
      var outcome := tree.Delete(key, lsn);
      ok := outcome == Done;
      StepApplied(device.Now(), tree.Cfg(), diskMeta, wal.records, before - {key}, pager.metaBlock, meta, start, pager.saved, pager.meta);
    }

    /** Logs an insertion and makes it: the record is durable before the tree changes. */
    method LogAndInsert(key: Bytes, value: Bytes) returns (status: Status)
      requires Ready() && CrashSafe() && before == Map() && tree.HasHeadroom()
      requires LeafRecordSize(key, value) <= MaxLeafRecordSize(pager.pageSize) && (tree.strict ==> ShortKey(key, pager.pageSize))
      modifies pool`order, pool`cache, pool`pinning, pool`touched, pool`credits, pool`limit, pool`stamp, pool`stale, pool`changed, tree`root, tree`height,
        pager`file, pager`meta, pager`metaDirty, pager`freelistCache, pager`dirtyFreelist, pager`chain, wal, device`log, device`history, device`exposed
      ensures Quiet() && old(device.history) <= device.history
      ensures status == Status.Finished ==> Ready() && CrashSafe() && Map() == before[key := value]
      ensures status == Status.Finished ==> var r := PutRecord(old(wal.currentLsn) + 1, key, value);
        && wal.records == old(wal.records) + [r] && wal.currentLsn == r.lsn
        && |wal.file| == |old(wal.file)| + |EncodedRecord(r)|
        && |pool.Dirty()| <= |old(pool.Dirty())| + 3 * (old(tree.height) + 1)
      ensures status == Exhausted ==> Ready() && CrashSafe() && Map() == before && tree.root == old(tree.root) && !CanCount()
      ensures status == Jammed ==> !tree.strict && SafeUpTo(before[key := value]) && Logged(before[key := value])
      ensures status in {Status.Finished, Exhausted, Jammed}
    {
      hide *;
      ReadyParts();
      WalFacts();
      var ok, lsn := LogPut(key, value);
      if !ok {
        NoLsnLeft();
        ReadyParts();
        return Exhausted;
      }
      WalFacts();
      ok := InsertLogged(key, value, lsn);
      status := if ok then Status.Finished else Jammed;
    }

    /** Logs a deletion and makes it: the record is durable before the tree changes. */
    method LogAndRemove(key: Bytes) returns (status: Status)
      requires Ready() && CrashSafe() && before == Map() && tree.HasHeadroom()
      requires key in Map() && 5 * |key| < pager.pageSize
      modifies pool`order, pool`cache, pool`pinning, pool`touched, pool`credits, pool`limit, pool`stamp, pool`stale, pool`changed, tree`root, tree`height,
        pager`file, pager`meta, pager`metaDirty, pager`freelistCache, pager`dirtyFreelist, pager`chain, wal, device`log, device`history, device`exposed
      ensures Quiet() && old(device.history) <= device.history
      ensures status == Status.Finished ==> Ready() && CrashSafe() && Map() == before - {key}
      ensures status == Status.Finished ==> var r := DeleteRecord(old(wal.currentLsn) + 1, key);
        && wal.records == old(wal.records) + [r] && wal.currentLsn == r.lsn
        && |wal.file| == |old(wal.file)| + |EncodedRecord(r)|
        && |pool.Dirty()| <= |old(pool.Dirty())| + 3 * (old(tree.height) + 1)
      ensures status == Exhausted ==> Ready() && CrashSafe() && Map() == before && tree.root == old(tree.root) && !CanCount()
      ensures status == Jammed ==> !tree.strict && SafeUpTo(before - {key}) && Logged(before - {key})
      ensures status in {Status.Finished, Exhausted, Jammed}
    {
      hide *;
      ReadyParts();
      WalFacts();
      var ok, lsn := LogDelete(key);
      if !ok {
        NoLsnLeft();
        ReadyParts();
        return Exhausted;
      }
      WalFacts();
      ok := DeleteLogged(key, lsn);
      status := if ok then Status.Finished else Jammed;
    }

    /** While few pages are dirty, only the size of the log calls for a checkpoint. */
    lemma OnlyTheLog(most: nat)
      requires |pool.Dirty()| <= most
      ensures InRatio() ==> (Due() <==> |wal.file| > checkpointWalSize)
      ensures Due() ==> |wal.file| > checkpointWalSize || !WithinRatio(most, pool.capacity, checkpointDirtyRatio)
    {
      hide BufferPool.Dirty;
      if WithinRatio(most, pool.capacity, checkpointDirtyRatio) {
        FewerWithin(|pool.Dirty()|, most, pool.capacity, checkpointDirtyRatio);
      }
    }

    lemma OnlyItsRecord(lsn: nat)
      requires CheckpointedAt(lsn) && wal.Valid() && wal.device == device
      ensures |wal.records| == 1 && wal.records[0].CheckpointRecord? && wal.records[0].lsn == lsn
      ensures |wal.file| == CHECKPOINT_BYTES && pool.Dirty() == {}
    {
      hide Wal.Valid, BufferPool.Dirty, EncodedLog;
      WalFacts();
      CheckpointSize(wal.records[0]);
    }

    lemma HasWritten(lsn: nat, recs: seq<Record>, size: nat, most: nat, r: Record, kept: seq<Record>, grown: nat, due: bool)
      requires r.lsn == lsn + if size > checkpointWalSize then 2 else 1
      requires if size > checkpointWalSize then |kept| == 1 && kept[0].CheckpointRecord? && kept[0].lsn == r.lsn - 1 else kept == recs
      requires grown == (if size > checkpointWalSize then CHECKPOINT_BYTES else size) + |EncodedRecord(r)|
      requires due ==> CheckpointedAt(r.lsn + 1) && wal.currentLsn == r.lsn + 1
      requires due ==> grown > checkpointWalSize || !WithinRatio(most, pool.capacity, checkpointDirtyRatio)
      requires !due ==> !Due() && |wal.file| == grown && wal.records == kept + [r] && wal.currentLsn == r.lsn
      ensures Written(lsn, recs, size, most, r)
    {
      hide CheckpointedAt, Due, EncodedRecord, WithinRatio;
    }

    /** The end of a write: running scans are told, and a second checkpoint may be due. */
    method EndWrite(ghost lsn: nat, ghost recs: seq<Record>, ghost size: nat, ghost most: nat, ghost kept: seq<Record>, ghost r: Record)
      returns (status: Status)
      requires Ready() && CrashSafe() && |pool.Dirty()| <= most
      requires r.lsn == lsn + if size > checkpointWalSize then 2 else 1
      requires if size > checkpointWalSize then |kept| == 1 && kept[0].CheckpointRecord? && kept[0].lsn == r.lsn - 1 else kept == recs
      requires |wal.file| == (if size > checkpointWalSize then CHECKPOINT_BYTES else size) + |EncodedRecord(r)|
      requires wal.records == kept + [r] && wal.currentLsn == r.lsn
      modifies pool`cache, pager`file, pager`meta, pager`metaDirty, pager`dirtyFreelist, pager`metaBlock, pager`saved,
        device, wal, this`diskMeta, this`start, this`version
      ensures Ready() && CrashSafe() && old(device.history) <= device.history && version == old(version) + 1
      ensures status == Status.Finished ==> Valid() && Written(lsn, recs, size, most, r)
      ensures status == Exhausted ==> !CanCount()
      ensures status in {Status.Finished, Exhausted}
    {
      hide *;
      version := version + 1;
      ghost var due, grown := Due(), |wal.file|;
      OnlyTheLog(most);
      var ok := MaybeCheckpoint();
      ValidParts();
      if ok { HasWritten(lsn, recs, size, most, r, kept, grown, due); }
      status := if ok then Status.Finished else Exhausted;
    }

    /** Inserts or overwrites. */
    method Put(key: Bytes, value: Bytes) returns (status: Status)
      requires Valid() && Roomy() && (tree.strict ==> ShortKey(key, pager.pageSize))
      modifies pool`order, pool`cache, pool`pinning, pool`touched, pool`credits, pool`limit, pool`stamp, pool`stale, pool`changed, tree`root, tree`height,
        pager`file, pager`meta, pager`metaDirty, pager`freelistCache, pager`dirtyFreelist, pager`chain, pager`metaBlock, pager`saved,
        device, wal, this`before, this`diskMeta, this`start, this`version
      ensures Quiet() && before == old(Map()) && device.history[0].disk == old(device.Now())
      ensures status == RecordTooLarge <==> LeafRecordSize(key, value) > MaxLeafRecordSize(pager.pageSize)
      ensures status == RecordTooLarge ==> Valid() && CrashSafe() && Map() == old(Map()) && device.Now() == old(device.Now())
      ensures status == Status.Finished ==> Valid() && CrashSafe() && Map() == old(Map())[key := value]
      ensures status == Status.Finished ==>
        var due := |old(wal.file)| > checkpointWalSize;
        Written(old(wal.currentLsn), old(wal.records), |old(wal.file)|, (if due then 0 else |old(pool.Dirty())|) + 3 * (old(tree.height) + 1),
                PutRecord(old(wal.currentLsn) + if due then 2 else 1, key, value))
      ensures status == Exhausted ==> Ready() && CrashSafe() && (Map() == old(Map()) || Map() == old(Map())[key := value])
      ensures status == Exhausted ==> !CanCount()
      ensures status == Jammed ==> !tree.strict && SafeUpTo(before[key := value]) && Logged(before[key := value])
      ensures version >= old(version) && (version == old(version) && status != Jammed ==> tree.root == old(tree.root))
      ensures status == Status.Finished ==> version > old(version)
      ensures status in {RecordTooLarge, Status.Finished, Exhausted, Jammed}
    {
      hide *;
      ValidParts();
      BeginCall();
      ReadyParts();
      if LeafRecordSize(key, value) > MaxLeafRecordSize(pager.pageSize) {
        ValidParts();
        return RecordTooLarge;
      }

      // Room in the pool for the pages that rebalancing may touch.
      ghost var recs, size, was := wal.records, |wal.file|, wal.currentLsn;
      OnlyTheLog(|pool.Dirty()|);
      var ok := MaybeCheckpoint();
      ReadyParts();
      if !ok { return Exhausted; }
      RoomForOne();
      WalFacts();
      if size > checkpointWalSize { OnlyItsRecord(was + 1); }

      ghost var kept, last, most := wal.records, wal.currentLsn, |pool.Dirty()| + 3 * (tree.height + 1);
      status := LogAndInsert(key, value);
      if status != Status.Finished { return; }
      status := EndWrite(was, recs, size, most, kept, PutRecord(last + 1, key, value));
      ReadyParts();
    }

    /** Removes a key. */
    method Delete(key: Bytes) returns (status: Status)
      requires Valid() && Roomy()
      modifies pool`order, pool`cache, pool`pinning, pool`touched, pool`credits, pool`limit, pool`stamp, pool`stale, pool`changed, tree`root, tree`height,
        pager`file, pager`meta, pager`metaDirty, pager`freelistCache, pager`dirtyFreelist, pager`chain, pager`metaBlock, pager`saved,
        device, wal, this`before, this`diskMeta, this`start, this`version
      ensures Quiet() && before == old(Map()) && device.history[0].disk == old(device.Now())
      ensures status == Missing <==> key !in old(Map())
      ensures status == Missing ==> Valid() && CrashSafe() && Map() == old(Map()) && device.Now() == old(device.Now())
      ensures status == Status.Finished ==> Valid() && CrashSafe() && Map() == old(Map()) - {key}
      ensures status == Status.Finished ==>
        var due := |old(wal.file)| > checkpointWalSize;
        Written(old(wal.currentLsn), old(wal.records), |old(wal.file)|, (if due then 0 else |old(pool.Dirty())|) + 3 * (old(tree.height) + 1),
                DeleteRecord(old(wal.currentLsn) + if due then 2 else 1, key))
      ensures status == Exhausted ==> Ready() && CrashSafe() && (Map() == old(Map()) || Map() == old(Map()) - {key})
      ensures status == Exhausted ==> !CanCount()
      ensures status == Jammed ==> !tree.strict && SafeUpTo(before - {key}) && Logged(before - {key})
      ensures version >= old(version) && (version == old(version) && status != Jammed ==> tree.root == old(tree.root))
      ensures status == Status.Finished ==> version > old(version)
      ensures status in {Missing, Status.Finished, Exhausted, Jammed}
    {
      hide *;
      ValidParts();
      BeginCall();
      ReadyParts();
      AboutMap();
      RoomForOne();
      AboutRatio();
      var found, value := tree.Search(key);
      IsReady();
      AboutRatio();
      if value.None? {
        ValidParts();
        return Missing;
      }

      // Room in the pool for the pages that rebalancing may touch.
      ghost var recs, size, was := wal.records, |wal.file|, wal.currentLsn;
      OnlyTheLog(|pool.Dirty()|);
      var ok := MaybeCheckpoint();
      ReadyParts();
      if !ok { return Exhausted; }
      RoomForOne();
      WalFacts();
      if size > checkpointWalSize { OnlyItsRecord(was + 1); }

      ghost var kept, last, most := wal.records, wal.currentLsn, |pool.Dirty()| + 3 * (tree.height + 1);
      StoredKey(key);
      status := LogAndRemove(key);
      if status != Status.Finished { return; }
      status := EndWrite(was, recs, size, most, kept, DeleteRecord(last + 1, key));
      ReadyParts();
    }

    // ---- reads ----

    /** Looks a key up; reads never fail while the pool has a page to spare. */
    method Get(key: Bytes) returns (ok: bool, value: Option<Bytes>)
      requires Valid()
      modifies pool`order, pool`cache, pool`touched, pool`credits
      ensures Valid() && pool.Dirty() == old(pool.Dirty())
      ensures |pool.Dirty()| < pool.capacity ==> ok
      ensures ok ==> value == if key in Map() then Some(Map()[key]) else None
    {
      hide AllJudged, Recorded, InStep, BPlusTree.Valid, BPlusTree.Map, Wal.Valid, BufferPool.Dirty, WithinRatio;
      ok, value := tree.Search(key);
    }

    /** A scan of the entries with start <= key < end. It raises when a write comes between. */
    method Scan(startKey: Option<Bytes>, endKey: Option<Bytes>) returns (s: Scanner)
      requires Valid()
      ensures fresh(s) && fresh(s.scan) && s.db == this && s.Valid() && s.version == version && s.scan.root == tree.root
      ensures s.scan.out == [] && !s.scan.ended && s.scan.endKey == endKey && s.scan.start == if startKey.None? then [] else startKey.value
    {
      hide TreeScan.Valid, InStep, Recorded;
      var scan := new TreeScan(tree, startKey, endKey);
      s := new Scanner(this, scan);
    }

    /** The stored entries with start <= key < end, in key order, by a scan that nothing comes between. */
    method ScanAll(startKey: Option<Bytes>, endKey: Option<Bytes>) returns (ok: bool, out: seq<LeafSlot>)
      requires Valid()
      modifies pool`order, pool`cache, pool`touched, pool`credits
      ensures Valid() && pool.Dirty() == old(pool.Dirty())
      ensures |pool.Dirty()| < pool.capacity ==> ok
      ensures ok ==>
        var start := if startKey.None? then [] else startKey.value;
        SortedEntries(out) && ToMap(out) == map k | k in Map() && InRange(k, start, endKey) :: Map()[k]
    {
      hide AllJudged, Recorded, InStep, BPlusTree.Valid, BPlusTree.Map, Wal.Valid, BufferPool.Dirty, WithinRatio, SortedEntries, ToMap, InRange;
      ok, out := tree.ScanAll(startKey, endKey);
    }

    /** Whether the pool is large enough for the tree. */
    method HasRoom() returns (b: bool)
      requires Valid()
      modifies pool`order, pool`cache, pool`touched, pool`credits
      ensures Valid() && pool.Dirty() == old(pool.Dirty()) && (b <==> Roomy())
    {
      hide AllJudged, Recorded, InStep, BPlusTree.Valid, BPlusTree.Map, Wal.Valid, BufferPool.Dirty, WithinRatio, RoomFor;
      var known, height := tree.MeasureHeight();
      if !known && Roomy() { RoomForOne(); }
      b := known && RoomFor(height, pool.capacity, checkpointDirtyRatio);
    }

    /** The pages of the tree are the live ones; without leaks, every id below the next page id is in the tree or free. */
    lemma PagesConserved()
      requires Valid()
      ensures TreeIds(tree.root) == pager.LiveIds() && pager.leaked <= Live(pager.chain, pager.meta.next)
      ensures tight ==> TreeIds(tree.root) == Live(pager.chain, pager.meta.next)
    {
      hide AllJudged, Recorded, InStep, BPlusTree.Map, Wal.Valid, BufferPool.Valid, BufferPool.Dirty, BufferPool.View, WithinRatio, Consistent, Live, TreeIds,
        PagerOk, MetaOk, SinceSaved;
      OwnPages(tree.Cfg(), pool.View(), pager.LiveIds(), pager.meta.root, tree.root, tree.height);
    }

    lemma Recoverable()
      requires Ready()
      ensures RecoversTo(device.Now(), tree.Cfg(), Map())
    {
      hide InStep, BPlusTree.Valid, BPlusTree.Map, Wal.Valid, RecoversTo, Recovers, Recorded;
      AboutNow(tree.Map());
    }

    // ---- recovery ----

    /** Advances the meta in memory when the log has a newer CHECKPOINT than the meta page. */
    method RepairPagerMetaFromWalCheckpoint()
      requires wal.Readable()
      modifies pager`meta, pager`metaDirty
      ensures pager.meta == Repaired(old(pager.meta), wal.records)
      ensures pager.metaDirty || (pager.meta == old(pager.meta) && pager.metaDirty == old(pager.metaDirty))
    {
      hide Wal.Readable, Iterate, Latest, EncodedLog;
      var latest: Option<Record> := None;
      var reader := wal.Reader();
      ghost var done: seq<Record> := [];
      LatestNone();
      assert done + reader.Rest().records == wal.records;
      while true
        invariant fresh(reader) && reader.pos <= |reader.file|
        invariant done + reader.Rest().records == wal.records && !reader.Rest().corrupted
        invariant latest == Latest(done)
        modifies reader
        decreases |reader.file| - reader.pos
      {
        ghost var rest := reader.Rest();
        var d := reader.Advance();
        if !d.Next? {
          assert done == wal.records;
          break;
        }
        LatestStep(done, d.record);
        if d.record.CheckpointRecord? && (latest.None? || d.record.lsn > latest.value.lsn) { latest := Some(d.record); }
        Shift(done, d.record, reader.Rest().records, rest.records, wal.records);
        done := done + [d.record];
      }
      if latest.None? || latest.value.lsn <= pager.meta.checkpointLsn { return; }
      pager.UpdateMeta(Meta(pager.meta.pageSize, latest.value.root, latest.value.next, latest.value.freelistHead, latest.value.lsn));
    }

    /** Applies a record again, unless the checkpoint already contains it; false when rebalancing is stuck. */
    method ApplyWalRecord(record: Record) returns (ok: bool)
      requires Parts() && tree.Valid() && !pool.evictionEnabled && record.lsn < U64 && Replayable(record, tree.Cfg())
      modifies pool`order, pool`cache, pool`pinning, pool`touched, pool`credits, pool`limit, pool`stamp, pool`stale, pool`changed, tree`root, tree`height,
        pager`file, pager`meta, pager`metaDirty, pager`freelistCache, pager`dirtyFreelist, pager`chain
      ensures tree.strict ==> ok
      ensures ok ==> tree.Valid() && Map() == if record.lsn > recoveryCheckpointLsn then Effect(old(Map()), record) else old(Map())
      ensures pager.meta == old(pager.meta).(next := pager.meta.next, freelistHead := pager.meta.freelistHead, root := pager.meta.root)
    {
      hide BPlusTree.Valid, BPlusTree.Map, LeafRecordSize, MaxLeafRecordSize;
      ok := true;
      if record.lsn <= recoveryCheckpointLsn { return; }
      match record
      case PutRecord(lsn, key, value) =>
        var outcome := tree.Insert(key, value, lsn);
        ok := outcome == Done;
      case DeleteRecord(lsn, key) =>
        var outcome := tree.Delete(key, lsn);
        if outcome == NotFound { assert Map() - {key} == Map(); }
        ok := outcome != BPlusTrees.Stuck;
      case CheckpointRecord(_, _, _, _) =>
    }

    /** `replay`: every record in LSN order, then the torn tail is cut off; false when rebalancing is stuck on the way. */
    method Replay() returns (ok: bool)
      requires Parts() && tree.Valid() && !pool.evictionEnabled && wal.Readable() && Quiet() && AllReplayable(wal.records, tree.Cfg())
      modifies pool`order, pool`cache, pool`pinning, pool`touched, pool`credits, pool`limit, pool`stamp, pool`stale, pool`changed, tree`root, tree`height,
        pager`file, pager`meta, pager`metaDirty, pager`freelistCache, pager`dirtyFreelist, pager`chain, wal, device`log, device`history
      ensures Quiet() && (tree.strict ==> ok) && wal.records == old(wal.records)
      ensures !ok ==> unchanged(device)
      ensures ok ==> tree.Valid() && wal.Valid() && Map() == Replayed(old(Map()), wal.records, recoveryCheckpointLsn)
      ensures ok ==> device.history == old(device.history) + [Moment(device.Now(), false)]
      ensures pager.meta == old(pager.meta).(next := pager.meta.next, freelistHead := pager.meta.freelistHead, root := pager.meta.root)
    {
      hide BPlusTree.Valid, BPlusTree.Map, Wal.Readable, Wal.Valid, Iterate, EncodedLog, Effect, Replayable, LastLsn, RecordEncodable, Replayed, Recorded,
        RecordReader.Rest, GoodLog, Contiguous, Torn;
      var lastLsn, lastGood := 0, 0;
      var reader := wal.Reader();
      ghost var done: seq<Record>, store := [], Map();
      NothingReplayed(store, recoveryCheckpointLsn);
      ReadableLog();
      assert done + reader.Rest().records == wal.records;
      while true
        invariant fresh(reader) && reader.pos <= |reader.file| && unchanged(wal) && unchanged(device) && tree.Valid() && !pool.evictionEnabled
        invariant done + reader.Rest().records == wal.records && !reader.Rest().corrupted && reader.Rest().good == |EncodedLog(wal.records)|
        invariant lastGood == reader.good && lastLsn == LastLsn(done)
        invariant Map() == Replayed(store, done, recoveryCheckpointLsn)
        invariant pager.meta == old(pager.meta).(next := pager.meta.next, freelistHead := pager.meta.freelistHead, root := pager.meta.root)
        modifies pool`order, pool`cache, pool`pinning, pool`touched, pool`credits, pool`limit, pool`stamp, pool`stale, pool`changed, tree`root, tree`height,
          pager`file, pager`meta, pager`metaDirty, pager`freelistCache, pager`dirtyFreelist, pager`chain, reader
        decreases |reader.file| - reader.pos
      {
        ghost var rest := reader.Rest();
        var d := reader.Advance();
        if !d.Next? {
          assert done == wal.records;
          break;
        }
        lastGood, lastLsn := reader.pos, d.record.lsn;
        Shift(done, d.record, reader.Rest().records, rest.records, wal.records);
        EncodableAt(wal.records, |done|);
        ok := ApplyWalRecord(d.record);
        if !ok { return; }
        ReplayedMore(store, done, d.record, recoveryCheckpointLsn);
        LastOf(done, d.record);
        done := done + [d.record];
      }
      wal.TruncateTail(lastGood, lastLsn);
      ok := true;
    }

    /** A recovery begins. */
    method BeginRecovery(ghost store: Store)
      requires Closed(store)
      modifies device`history, this`before
      ensures Closed(store) && Parts() && Quiet() && before == store && device.history == [Moment(device.Now(), false)] && SafeUpTo(store)
      ensures Recovers(device.Now(), tree.Cfg(), diskMeta, wal.records, wal.tail, store) && MetaIs(device.blocks, diskMeta)
      ensures wal.Readable() && pager.file == device.blocks && device.blocks[0] == pager.metaBlock
    {
      hide AllJudged, Recovers, RecoversTo, Recorded, BufferPool.Valid, Wal.Readable, DecodedMeta;
      ClosedRecovers(store);
      Kept(device.Now(), tree.Cfg(), store, store);
      before := store;
      device.Forget();
    }

    /** The first half of `_recover`: with eviction off, the repaired meta names the tree that replay starts from. */
    method StartRecovery(ghost store: Store)
      requires Closed(store)
      modifies pool`evictionEnabled, pager`meta, pager`metaDirty, pager`chain, pager`saved, pager`leaked, tree`root, tree`height,
        this`recoveryCheckpointLsn, this`start
      ensures tree.Valid() && !pool.evictionEnabled && wal.Readable() && AllReplayable(wal.records, tree.Cfg())
      ensures store == Replayed(Map(), wal.records, recoveryCheckpointLsn)
      ensures recoveryCheckpointLsn == pager.meta.checkpointLsn && start == pager.meta == Repaired(diskMeta, wal.records)
      ensures pager.meta.pageSize == diskMeta.pageSize == pager.pageSize && SavedOk(pager.saved, device.blocks, start, pager.pageSize)
    {
      hide InStep, BPlusTree.Valid, Wal.Readable, BufferPool.Valid, BufferPool.Dirty, Recovers, RecoversTo, StoredTree, Base, Repaired, Replayed,
        Contents, ToMap, DecodedMeta, AllReplayable, SavedOk, PagerOk, MetaOk, SinceSaved, Recorded;
      ClosedRecovers(store);
      ghost var root, height, chain := ClosedTree(store);
      pool.SetEvictionEnabled(false);
      RepairPagerMetaFromWalCheckpoint();
      StartSize(diskMeta, wal.records);
      recoveryCheckpointLsn, start := pager.meta.checkpointLsn, pager.meta;
      pager.chain, tree.root, tree.height := chain, root, height;
      pager.leaked := Live(chain, pager.meta.next) - TreeIds(root);
      BaseTree(tree.Cfg(), pager.file, pager.meta, wal.records, store, root, height, chain);
      SavedNow(tree.Cfg(), pager.file, pager.meta, root, height, chain);
      OpenPager(tree.Cfg(), pager.file, pager.metaBlock, pager.metaDirty, diskMeta, pager.meta, root, height, chain);
      pager.Remember();
      StoredTreeIsOpen();
    }

    /** Recovers the state the files stand for, and checkpoints it. */
    method Open(ghost store: Store) returns (status: Status)
      requires Closed(store)
      modifies pool`evictionEnabled, pool`order, pool`cache, pool`pinning, pool`touched, pool`credits, pool`limit, pool`stamp, pool`stale, pool`changed, tree`root, tree`height,
        pager`file, pager`meta, pager`metaDirty, pager`freelistCache, pager`dirtyFreelist, pager`chain, pager`metaBlock, pager`saved, pager`leaked,
        device, wal, this`before, this`diskMeta, this`start, this`recoveryCheckpointLsn
      ensures Quiet() && before == store && device.history[0].disk == old(device.Now())
      ensures status == Status.Finished ==> Valid() && CrashSafe() && Map() == store
      ensures status == Status.Finished ==> CheckpointedAt(LastLsn(old(wal.records)) + 1)
      ensures status == Status.Finished ==>
        && device.blocks != []
        && device.history ==
           [Moment(old(device.Now()), false), Moment(Disk(old(device.blocks), EncodedLog(old(wal.records))), false)] +
           Trail(EncodedLog(old(wal.records)), old(pager.metaBlock), Repaired(old(diskMeta), old(wal.records)))
      ensures status == Exhausted ==> Ready() && CrashSafe() && Map() == store && !CanCount()
      ensures status == Jammed ==> !tree.strict && SafeUpTo(store) && device.Now() == old(device.Now())
      ensures status in {Status.Finished, Exhausted, Jammed}
      ensures status != Jammed ==>
        |device.history| > 1 && device.history[1].disk == Disk(old(device.blocks), EncodedLog(old(wal.records)))
    {
      hide AllJudged, Judged, InStep, BPlusTree.Valid, BPlusTree.Map, Wal.Valid, Wal.Readable, BufferPool.Valid, BufferPool.Dirty, Recovers, RecoversTo,
        Base, Repaired, Replayed, DecodedMeta, LastLsn, EncodedLog, AllReplayable, MetaIs, SavedOk, CheckpointMoments, Recorded,
        Closed, Ready, InRatio, Stepped, Parts, Trail, CheckpointedAt, CanCount, Pager.Valid;
      ghost var was, tail := device.Now(), wal.tail;
      BeginRecovery(store);
      StartRecovery(store);
      var ok := Replay();
      if !ok { return Jammed; }
      EnableEviction();
      HasReplayed(was, tail, store);
      ok := Checkpoint();
      ReadyParts();
      status := if ok then Status.Finished else Exhausted;
      if ok { NoneDirty(LastLsn(old(wal.records)) + 1); }
    }

    /** The log has been replayed on the tree: what is left is to make that durable. */
    lemma HasReplayed(was: Disk, tail: Bytes, store: Store)
      requires Parts() && tree.Valid() && pool.evictionEnabled && wal.Valid() && Quiet() && tree.Map() == store && before == store
      requires Recovers(was, tree.Cfg(), diskMeta, wal.records, tail, store) && was.blocks == device.blocks
      requires MetaIs(device.blocks, diskMeta) && device.blocks[0] == pager.metaBlock
      requires start == Repaired(diskMeta, wal.records) && SavedOk(pager.saved, device.blocks, start, pager.pageSize)
      requires pager.meta.pageSize == pager.pageSize && pager.meta.checkpointLsn == start.checkpointLsn
      requires device.history == [Moment(was, false), Moment(device.Now(), false)]
      ensures Ready() && CrashSafe() && device.log == EncodedLog(wal.records) && wal.currentLsn == LastLsn(wal.records)
    {
      hide AllJudged, Judged, InStep, BPlusTree.Valid, BPlusTree.Map, Wal.Valid, Recovers, RecoversTo, Repaired, DecodedMeta, LastLsn, EncodedLog,
        MetaIs, SavedOk, Recorded;
      WalFacts();
      TailGone(device.blocks, was.log, tree.Cfg(), diskMeta, wal.records, tail, store, device.log);
      IsInStep(device.Now(), tree.Cfg(), diskMeta, wal.records, store, pager.metaBlock, pager.meta, start, pager.saved);
      IsRecoverable(was, tree.Cfg(), diskMeta, wal.records, tail, store);
      IsRecoverable(device.Now(), tree.Cfg(), diskMeta, wal.records, [], store);
      Kept(was, tree.Cfg(), store, store);
      Kept(device.Now(), tree.Cfg(), store, store);
      OneMore([Moment(was, false)], Moment(device.Now(), false), tree.Cfg(), store, store);
      assert device.history == [Moment(was, false)] + [Moment(device.Now(), false)];
    }

    lemma ClosedRecovers(store: Store)
      requires Closed(store)
      ensures RecoversTo(device.Now(), tree.Cfg(), store) && wal.Readable() && MetaIs(device.blocks, diskMeta)
      ensures AllReplayable(wal.records, tree.Cfg()) && Recovers(device.Now(), tree.Cfg(), diskMeta, wal.records, wal.tail, store)
    {
      hide Base, Repaired, GoodLog, Torn, EncodedLog, LastLsn, Replayable, DecodedMeta, BufferPool.Valid, Recorded;
      IsRecoverable(device.Now(), tree.Cfg(), diskMeta, wal.records, wal.tail, store);
    }

    lemma ClosedTree(store: Store) returns (root: Node, height: nat, chain: seq<FreeNode>)
      requires Closed(store)
      ensures Base(tree.Cfg(), device.blocks, Repaired(diskMeta, wal.records), wal.records, store, root, height, chain)
    {
      hide Base, Repaired, LogOk, MetaIs, LastLsn, BufferPool.Valid, Recorded;
      assert Recovers(device.Now(), tree.Cfg(), diskMeta, wal.records, wal.tail, store);
      root, height, chain :| Base(tree.Cfg(), device.Now().blocks, Repaired(diskMeta, wal.records), wal.records, store, root, height, chain);
    }

    /** The stored tree, read through an empty pool. */
    lemma StoredTreeIsOpen()
      requires Parts() && pager.Valid() && pool.Valid() && !pool.pinning && pool.cache == map[]
      requires StoredTree(tree.Cfg(), pager.file, pager.meta, tree.root, tree.height, pager.chain)
      requires pager.leaked == Live(pager.chain, pager.meta.next) - TreeIds(tree.root)
      ensures tree.Valid()
    {
      hide Pager.Valid, PagerOk, Consistent, BufferPool.Valid, Live, DiskView, TreeIds;
      assert pager.LiveIds() == TreeIds(tree.root);
      EmptyPool(pager.file);
    }

    /** Eviction resumes once the log has been replayed; the pool may have outgrown its capacity. */
    method EnableEviction()
      requires Parts() && tree.Valid()
      modifies pool`evictionEnabled
      ensures tree.Valid() && pool.evictionEnabled
    {
      hide Consistent, Pager.Valid, OrderOk, InSync, LsnOk, Stamps, TouchedLast, Headroom, Overlay, Live;
      pool.SetEvictionEnabled(true);
    }

    lemma ReadableLog()
      requires wal.Readable()
      ensures GoodLog(wal.records) && LastLsn([]) == 0
    {
    }

    lemma Delivered(start: Bytes, endKey: Option<Bytes>)
      requires Parts() && tree.Valid()
      ensures var out := Range(Contents(tree.root), start, endKey);
        SortedEntries(out) && ToMap(out) == map k | k in Map() && InRange(k, start, endKey) :: Map()[k]
    {
      hide BPlusTree.InOrder, BPlusTree.Map, Range, Contents, SortedEntries, ToMap, InRange;
      tree.ScannedAll(start, endKey);
    }

    lemma StoredKey(key: Bytes)
      requires Parts() && tree.Valid() && key in Map()
      ensures 5 * |key| < pager.pageSize
    {
      hide Consistent, Pager.Valid, BufferPool.Valid, BufferPool.View, Live, Contents, ToMap;
      StoredKeyIsShort(tree.Cfg(), pool.View(), pager.LiveIds(), pager.meta.root, tree.root, tree.height, key);
    }

    lemma PagerMeta()
      requires Parts() && tree.Valid()
      ensures 256 <= pager.pageSize < U32 && (!pager.metaDirty ==> DecodedMeta(pager.metaBlock) == Some(pager.meta))
    {
      hide Consistent, ChainOk, CacheOk, StackOk, Flatten, BufferPool.Valid, Live, DecodedMeta;
    }

    lemma WalFacts()
      requires wal.Valid() && wal.device == device
      ensures device.log == wal.file == EncodedLog(wal.records) && wal.currentLsn == LastLsn(wal.records) && GoodLog(wal.records)
    {
    }
  }

  /** What `scan` returns: the tree's scan, and the version of the database it was made for. */
  class Scanner {
    const db: DB
    const version: nat
    const scan: TreeScan

    /** As long as the version has not moved, neither has the tree. */
    ghost predicate Valid()
      reads this, db, db.tree, scan
    {
      && scan.tree == db.tree && scan.Valid() && version <= db.version
      && (version == db.version ==> db.tree.root == scan.root)
    }

    constructor (db: DB, scan: TreeScan)
      requires scan.tree == db.tree && scan.Valid() && scan.root == db.tree.root
      ensures Valid() && this.db == db && this.scan == scan && version == db.version
    {
      this.db, this.scan, version := db, scan, db.version;
    }

    /**
     * The next entry of the map the scan was made for. After a write it raises instead (`Interfered`), or ends when it
     * has nothing to deliver; an end without a write means that everything in the range has been delivered.
     */
    method Next() returns (step: ScanStep)
      requires db.Valid() && Valid()
      modifies scan, db.pool`order, db.pool`cache, db.pool`touched, db.pool`credits
      ensures db.Valid() && Valid() && db.pool.Dirty() == old(db.pool.Dirty())
      ensures |db.pool.Dirty()| < db.pool.capacity ==> step != PoolFull
      ensures step.Entry? ==> version == db.version && scan.out == old(scan.out) + [step.slot] && !scan.ended
      ensures step.Entry? ==> exists p: nat :: p <= |Contents(db.tree.root)| && scan.out == Range(Contents(db.tree.root)[..p], scan.start, scan.endKey)
      ensures !step.Entry? ==> scan.ended && scan.out == old(scan.out)
      ensures step == Interfered ==> version < db.version
      ensures version < db.version && old(scan.started) && !old(scan.ended) ==> step == Interfered
      ensures step == ScanEnded && version == db.version && !old(scan.ended) ==>
        SortedEntries(scan.out) && ToMap(scan.out) == map k | k in db.Map() && InRange(k, scan.start, scan.endKey) :: db.Map()[k]
    {
      hide AllJudged, InStep, BPlusTree.Valid, BPlusTree.Map, Wal.Valid, BufferPool.Dirty, WithinRatio, SortedEntries, ToMap, InRange, Range,
        Contents, TreeScan.Valid, Recorded;
      step := scan.Next(version == db.version);
      if step == ScanEnded && version == db.version { db.Delivered(scan.start, scan.endKey); }
    }
  }

  /** A write between two steps of a scan ends it. */
  method WriteDuringScan(db: DB, s: Scanner, key: Bytes, value: Bytes) returns (status: Status, step: ScanStep)
    requires db.Valid() && db.Roomy() && (db.tree.strict ==> ShortKey(key, db.pager.pageSize)) && s.db == db && s.Valid() && s.scan.started
    modifies s.scan, db, db.device, db.pager, db.pool, db.tree, db.wal
    ensures status == Status.Finished && !old(s.scan.ended) ==> step == Interfered
  {
    hide AllJudged, InStep, BPlusTree.Valid, BPlusTree.Map, Wal.Valid, DB.Ready, TreeScan.Valid, LeafRecordSize, MaxLeafRecordSize;
    step := ScanEnded;
    status := db.Put(key, value);
    if status == Status.Finished { step := s.Next(); }
  }

  lemma DirtyCached(cache: map<nat, Cached>)
    ensures DirtyIds(cache) <= cache.Keys
  {
  }

  lemma MetaBlockIs(file: seq<Bytes>, metaBlock: Bytes, metaDirty: bool, meta: Meta)
    requires MetaOk(file, metaBlock, metaDirty, meta)
    ensures file != [] && file[0] == metaBlock
  {
  }

  lemma CheckpointEncodable(r: Record)
    requires r.CheckpointRecord? && r.lsn < U64 && r.root < U64 && r.freelistHead < U64 && r.next < U64
    ensures RecordEncodable(r)
  {
    hide LE;
  }

  lemma CheckpointKeepsPager(pageSize: nat, file: seq<Bytes>, meta: Meta, cache: map<nat, Page>, dirty: set<nat>, chain: seq<FreeNode>, lsn: nat)
    requires PagerOk(pageSize, file, meta, cache, dirty, chain)
    ensures PagerOk(pageSize, file, meta.(checkpointLsn := lsn), cache, dirty, chain)
  {
    hide ChainOk, CacheOk, StackOk, Flatten;
  }

  lemma LiveIsPositive(chain: seq<FreeNode>, next: nat)
    ensures 0 !in Live(chain, next)
  {
  }

  lemma OnlyBlockZero(file: seq<Bytes>, file': seq<Bytes>, live: set<nat>)
    requires file != [] && |file'| == |file| && file' == file[0 := file'[0]] && 0 !in live
    ensures SameOn(file, file', live)
  {
  }

  lemma RatioIs(dirty: nat, capacity: nat, ratio: real)
    requires capacity > 0
    ensures (dirty as real) / (capacity as real) > ratio <==> !WithinRatio(dirty, capacity, ratio)
  {
    var d, c := dirty as real, capacity as real;
    assert d == (d / c) * c;
    if d / c > ratio {
      assert (d / c - ratio) * c > 0.0;
    } else {
      assert (ratio - d / c) * c >= 0.0;
    }
  }

  lemma NoneInRatio(capacity: nat, ratio: real)
    requires ratio > 0.0
    ensures WithinRatio(0, capacity, ratio)
  {
  }

  lemma SmallPut(r: Record, pageSize: nat)
    requires r.PutRecord? && LeafRecordSize(r.key, r.value) <= MaxLeafRecordSize(pageSize) && 32 <= pageSize < U32
    ensures RecordEncodable(r) <==> r.lsn < U64
  {
    hide LE;
  }

  lemma PutEffect(s: Store, r: Record)
    requires r.PutRecord?
    ensures Effect(s, r) == s[r.key := r.value]
  {
  }

  lemma SmallDelete(r: Record, pageSize: nat)
    requires r.DeleteRecord? && 5 * |r.key| < pageSize && 256 <= pageSize < U32
    ensures RecordEncodable(r) <==> r.lsn < U64
  {
    hide LE;
  }

  lemma DeleteEffect(s: Store, r: Record)
    requires r.DeleteRecord?
    ensures Effect(s, r) == s - {r.key}
  {
  }

  lemma LatestNone()
    ensures Latest([]) == None
  {
  }

  lemma LatestStep(recs: seq<Record>, r: Record)
    ensures Latest(recs + [r]) ==
      if r.CheckpointRecord? && (Latest(recs).None? || r.lsn > Latest(recs).value.lsn) then Some(r) else Latest(recs)
  {
    assert (recs + [r])[..|recs|] == recs;
  }

  lemma NothingReplayed(s: Store, after: nat)
    ensures Replayed(s, [], after) == s
  {
  }

  lemma EncodableAt(recs: seq<Record>, i: nat)
    requires GoodLog(recs) && i < |recs|
    ensures recs[i].lsn < U64
  {
  }

  lemma EmptyPool(file: seq<Bytes>)
    ensures Overlay(map[], file) == DiskView(file)
  {
    hide DiskView;
    assert CacheView(map[]) == map[];
  }

  lemma Shift(done: seq<Record>, r: Record, after: seq<Record>, rest: seq<Record>, all: seq<Record>)
    requires done + rest == all && rest == [r] + after
    ensures done + [r] + after == all && |done| < |all| && all[|done|] == r
  {
    assert done + [r] + after == done + rest;
  }

  lemma OpenedLog(d: Disk, c: Config, m: Meta, recs: seq<Record>, tail: Bytes, store: Store)
    requires Recovers(d, c, m, recs, tail, store)
    ensures GoodLog(recs) && Torn(tail) && d.log == EncodedLog(recs) + tail
    ensures d.blocks != [] && DecodedMeta(d.blocks[0]) == Some(m) && m.pageSize == c.pageSize
  {
    hide GoodLog, Torn, EncodedLog, DecodedMeta, Base, Repaired, LastLsn;
  }

  /** Cutting the torn tail off loses nothing. */
  lemma TailGone(blocks: seq<Bytes>, log: Bytes, c: Config, m: Meta, recs: seq<Record>, tail: Bytes, store: Store, log': Bytes)
    requires Recovers(Disk(blocks, log), c, m, recs, tail, store) && log' == EncodedLog(recs)
    ensures Recovers(Disk(blocks, log'), c, m, recs, [], store)
  {
    hide Base, Repaired, GoodLog, EncodedLog, LastLsn, Replayable, DecodedMeta, IsCut;
  }

  lemma BaseTree(c: Config, blocks: seq<Bytes>, meta: Meta, recs: seq<Record>, store: Store, root: Node, height: nat, chain: seq<FreeNode>)
    requires Base(c, blocks, meta, recs, store, root, height, chain)
    ensures StoredTree(c, blocks, meta, root, height, chain) && store == Replayed(ToMap(Contents(root)), recs, meta.checkpointLsn)
  {
    hide Replayed, StoredTree;
  }

  lemma OpenPager(c: Config, file: seq<Bytes>, metaBlock: Bytes, metaDirty: bool, m: Meta, meta: Meta, root: Node, height: nat, chain: seq<FreeNode>)
    requires StoredTree(c, file, meta, root, height, chain) && MetaIs(file, m) && file[0] == metaBlock && (!metaDirty ==> meta == m)
    ensures PagerOk(c.pageSize, file, meta, map[], {}, chain) && MetaOk(file, metaBlock, metaDirty, meta)
    ensures c.tight ==> Live(chain, meta.next) - TreeIds(root) == {} && |file| == meta.next && FullBelow(chain, c.pageSize)
  {
    hide PagerOk, Consistent, DecodedMeta, Live, TreeIds;
  }

  lemma SavedIs(saved: Saved, blocks: seq<Bytes>, meta: Meta, pageSize: nat)
    requires SavedOk(saved, blocks, meta, pageSize)
    ensures saved.Saved? && saved.file == blocks
  {
    hide ChainOk, StackOk, Flatten;
  }

  /** A flush writes live pages and pages of the freelist, and nothing else. */
  lemma StillUnwritten(saved: Saved, f0: seq<Bytes>, f1: seq<Bytes>, f2: seq<Bytes>, next: nat, chain: seq<FreeNode>, written: set<nat>)
    requires saved.Saved? && SinceSaved(saved, f0, next, chain) && |f1| == |f0| && |f2| == |f1| && written <= Live(chain, next)
    requires forall id :: 0 <= id < |f1| && id !in written ==> f1[id] == f0[id]
    requires forall id :: 0 <= id < |f2| && !InChain(chain, id) ==> f2[id] == f1[id]
    ensures Unwritten(saved.file, f2, chain)
  {
    hide Flatten, InChain, ShrunkFrom;
    forall id | id in Flatten(chain) && !InChain(chain, id) && id < |saved.file| && id < |f2| ensures f2[id] == saved.file[id] {
      assert f0[id] == saved.file[id];
    }
  }

  lemma NothingToKeep(file: seq<Bytes>, next: nat, chain: seq<FreeNode>)
    ensures SinceSaved(NothingSaved, file, next, chain)
  {
  }

  lemma EitherStore(x: Moment, more: seq<Moment>, c: Config, b: Store, a: Store)
    requires Judged(x, c, b, b) && AllJudged(more, c, b, b)
    ensures Judged(x, c, a, b) && AllJudged(more, c, a, b)
  {
    hide RecoversTo, PassedOver;
    NewStore(more, c, b, a);
  }
}
