/** What one durable step of the database leaves recoverable: log appends, checkpoints, and everything a crash could catch. */
module DurableSteps {
  import opened Bytes
  import opened Entities
  import opened Codec
  import opened MetaCodec
  import opened WalCodec
  import opened Devices
  import opened Paging
  import opened Cache
  import opened TreeModel
  import opened Cascading
  import opened TreeMaps
  import opened Durability
  import opened AllocatorSafety
  import opened CheckpointWindow

  // ---- histories ----

  /** The blocks hold a tree with this store, but recovery does not replay on it to arrive there. */
  ghost predicate PassedOver(d: Disk, c: Config, store: Store)
  {
    exists meta, root, h, chain ::
      StoredTree(c, d.blocks, meta, root, h, chain) && ToMap(Contents(root)) == store && !RecoversOn(d, c, root, store)
  }

  /** A crash at this moment is recovered to `a` or to `b`; an exposed moment has one of them in its blocks, passed over. */
  ghost predicate Judged(x: Moment, c: Config, a: Store, b: Store)
  {
    if x.exposed then PassedOver(x.disk, c, a) || PassedOver(x.disk, c, b) else RecoversTo(x.disk, c, a) || RecoversTo(x.disk, c, b)
  }

  ghost predicate AllJudged(history: seq<Moment>, c: Config, a: Store, b: Store)
  {
    forall i :: 0 <= i < |history| ==> Judged(history[i], c, a, b)
  }

  lemma OneMore(history: seq<Moment>, x: Moment, c: Config, a: Store, b: Store)
    requires AllJudged(history, c, a, b) && Judged(x, c, a, b)
    ensures AllJudged(history + [x], c, a, b)
  {
    hide Judged;
  }

  lemma Kept(d: Disk, c: Config, a: Store, b: Store)
    requires RecoversTo(d, c, b)
    ensures Judged(Moment(d, false), c, a, b) && AllJudged([Moment(d, false)], c, b, b)
  {
    hide RecoversTo, PassedOver;
  }

  lemma NewStore(history: seq<Moment>, c: Config, a: Store, b: Store)
    requires AllJudged(history, c, a, a)
    ensures AllJudged(history, c, a, b) && AllJudged(history, c, b, a)
  {
    hide RecoversTo, PassedOver;
    forall i | 0 <= i < |history| ensures Judged(history[i], c, a, b) && Judged(history[i], c, b, a) {
      assert Judged(history[i], c, a, a);
    }
  }

  lemma AllConcat(history: seq<Moment>, more: seq<Moment>, c: Config, a: Store, b: Store)
    requires AllJudged(history, c, a, b) && AllJudged(more, c, a, b)
    ensures AllJudged(history + more, c, a, b)
  {
    hide Judged;
  }

  /** A crash during an append leaves the old store, or the new one once the record is complete. */
  lemma AppendCuts(blocks: seq<Bytes>, log: Bytes, c: Config, m: Meta, recs: seq<Record>, store: Store, r: Record, store': Store)
    requires Recovers(Disk(blocks, log), c, m, recs, [], store) && RecordEncodable(r)
    requires Recovers(Disk(blocks, log + EncodedRecord(r)), c, m, recs + [r], [], store')
    ensures AllJudged(Cuts(blocks, log + EncodedRecord(r), |log|, false), c, store, store')
  {
    hide Recovers, RecoversTo, EncodedRecord, RecordEncodable, Cuts;
    var enc := EncodedRecord(r);
    var full := log + enc;
    var cuts := Cuts(blocks, full, |log|, false);
    forall i | 0 <= i < |cuts| ensures Judged(cuts[i], c, store, store') {
      CutAt(blocks, log, enc, false, i);
      if i + 1 < |enc| {
        HalfLogged(Disk(blocks, log), c, m, recs, store, r, i + 1);
        IsRecoverable(cuts[i].disk, c, m, recs, enc[..i + 1], store);
      } else {
        IsRecoverable(cuts[i].disk, c, m, recs + [r], [], store');
      }
    }
  }

  lemma CutAt(blocks: seq<Bytes>, log: Bytes, enc: Bytes, exposed: bool, i: nat)
    requires i < |enc|
    ensures var cuts := Cuts(blocks, log + enc, |log|, exposed);
      && |cuts| == |enc|
      && cuts[i] == Moment(Disk(blocks, log + enc[..i + 1]), exposed && i + 1 < |enc|)
      && (i + 1 == |enc| ==> enc[..i + 1] == enc)
  {
    hide Cuts;
    var k := |log| + i + 1;
    assert Cuts(blocks, log + enc, |log|, exposed)[k - |log| - 1] == Moment(Disk(blocks, (log + enc)[..k]), exposed && k < |log + enc|);
    assert (log + enc)[..k] == log + enc[..i + 1];
  }

  // ---- between operations ----

  /**
   * Between operations: the durable files recover to `store`, and the process knows what is in them. `diskMeta` is
   * the durable meta page, whose image is `metaBlock`; `start` is the meta that a recovery would start from; `saved` is
   * what the pager remembers of the last checkpoint.
   */
  ghost predicate InStep(d: Disk, c: Config, diskMeta: Meta, recs: seq<Record>, store: Store,
                         metaBlock: Bytes, meta: Meta, start: Meta, saved: Saved)
  {
    && Recovers(d, c, diskMeta, recs, [], store)
    && MetaIs(d.blocks, diskMeta) && d.blocks[0] == metaBlock
    && start == Repaired(diskMeta, recs) && SavedOk(saved, d.blocks, start, c.pageSize)
    && meta.pageSize == c.pageSize && meta.checkpointLsn == start.checkpointLsn
  }

  lemma AboutStep(d: Disk, c: Config, diskMeta: Meta, recs: seq<Record>, store: Store,
                  metaBlock: Bytes, meta: Meta, start: Meta, saved: Saved)
    requires InStep(d, c, diskMeta, recs, store, metaBlock, meta, start, saved)
    ensures Recovers(d, c, diskMeta, recs, [], store) && RecoversTo(d, c, store) && LogOk(d.log, recs, [], c)
    ensures diskMeta.pageSize == c.pageSize == meta.pageSize && DecodedMeta(metaBlock) == Some(diskMeta)
    ensures start == Repaired(diskMeta, recs) && SavedOk(saved, d.blocks, start, c.pageSize)
    ensures meta.checkpointLsn == start.checkpointLsn <= LastLsn(recs) && diskMeta.checkpointLsn <= LastLsn(recs)
  {
    hide LogOk, DecodedMeta, Base, LastLsn, Latest, SavedOk;
    IsRecoverable(d, c, diskMeta, recs, [], store);
  }

  /** An operation has been logged. */
  lemma StepLogged(d: Disk, c: Config, diskMeta: Meta, recs: seq<Record>, store: Store,
                   metaBlock: Bytes, meta: Meta, start: Meta, saved: Saved, r: Record)
    requires InStep(d, c, diskMeta, recs, store, metaBlock, meta, start, saved)
    requires RecordEncodable(r) && r.lsn == LastLsn(recs) + 1 && Replayable(r, c) && !r.CheckpointRecord?
    ensures InStep(Disk(d.blocks, d.log + EncodedRecord(r)), c, diskMeta, recs + [r], Effect(store, r), metaBlock, meta, start, saved)
    ensures AllJudged(Cuts(d.blocks, d.log + EncodedRecord(r), |d.log|, false), c, store, Effect(store, r))
  {
    hide Recovers, EncodedRecord, RecordEncodable, LastLsn, Replayable, MetaIs, Repaired, Effect, SavedOk, Cuts, AllJudged;
    Logged(d, c, diskMeta, recs, store, r);
    RepairedMore(diskMeta, recs, r);
    AppendCuts(d.blocks, d.log, c, diskMeta, recs, store, r, Effect(store, r));
  }

  /** It has been applied: the tree may have taken or given back pages and may have a new root. */
  lemma StepApplied(d: Disk, c: Config, diskMeta: Meta, recs: seq<Record>, store: Store,
                    metaBlock: Bytes, meta: Meta, start: Meta, saved: Saved, meta': Meta)
    requires InStep(d, c, diskMeta, recs, store, metaBlock, meta, start, saved)
    requires meta' == meta.(next := meta'.next, freelistHead := meta'.freelistHead, root := meta'.root)
    ensures InStep(d, c, diskMeta, recs, store, metaBlock, meta', start, saved)
  {
    hide Recovers, MetaIs, Repaired, SavedOk;
  }

  lemma IsInStep(d: Disk, c: Config, diskMeta: Meta, recs: seq<Record>, store: Store, metaBlock: Bytes, meta: Meta, start: Meta, saved: Saved)
    requires Recovers(d, c, diskMeta, recs, [], store) && MetaIs(d.blocks, diskMeta) && d.blocks[0] == metaBlock
    requires start == Repaired(diskMeta, recs) && SavedOk(saved, d.blocks, start, c.pageSize)
    requires meta.pageSize == c.pageSize && meta.checkpointLsn == start.checkpointLsn
    ensures InStep(d, c, diskMeta, recs, store, metaBlock, meta, start, saved)
  {
    hide Recovers, Repaired, MetaIs, SavedOk;
  }

  // ---- checkpoints ----

  /** Everything about the new blocks of a checkpoint, before they are durable. `was` is the disk as it is. */
  ghost predicate NewBlocks(was: Disk, c: Config, diskMeta: Meta, recs: seq<Record>, store: Store, start: Meta, saved: Saved,
                            file: seq<Bytes>, blocks: seq<Bytes>, meta: Meta, root: Node, height: nat, chain: seq<FreeNode>)
  {
    && Recovers(was, c, diskMeta, recs, [], store) && start == Repaired(diskMeta, recs)
    && MetaIs(blocks, diskMeta) && StoredTree(c, blocks, meta, root, height, chain) && ToMap(Contents(root)) == store
    && SavedOk(saved, was.blocks, start, c.pageSize) && SinceSaved(saved, file, meta.next, chain) && Unwritten(was.blocks, blocks, chain)
    && meta.pageSize == c.pageSize && meta.checkpointLsn == start.checkpointLsn
  }

  lemma BlocksParts(was: Disk, c: Config, diskMeta: Meta, recs: seq<Record>, store: Store, start: Meta, saved: Saved,
                    file: seq<Bytes>, blocks: seq<Bytes>, meta: Meta, root: Node, height: nat, chain: seq<FreeNode>)
    requires NewBlocks(was, c, diskMeta, recs, store, start, saved, file, blocks, meta, root, height, chain)
    ensures Recovers(was, c, diskMeta, recs, [], store) && start == Repaired(diskMeta, recs)
    ensures MetaIs(blocks, diskMeta) && StoredTree(c, blocks, meta, root, height, chain) && ToMap(Contents(root)) == store
    ensures SavedOk(saved, was.blocks, start, c.pageSize) && SinceSaved(saved, file, meta.next, chain) && Unwritten(was.blocks, blocks, chain)
    ensures LogOk(was.log, recs, [], c) && meta.pageSize == diskMeta.pageSize == c.pageSize && meta.checkpointLsn == start.checkpointLsn
    ensures diskMeta.checkpointLsn <= LastLsn(recs)
  {
    hide LogOk, Base, Latest, LastLsn, MetaIs, StoredTree, SavedOk, SinceSaved, Unwritten, ToMap, Contents;
  }

  /**
   * The new blocks under a log with this torn tail: recovery replays on the new tree and arrives at the store exactly
   * when the moment is not exposed.
   */
  lemma WindowJudged(was: Disk, c: Config, diskMeta: Meta, recs: seq<Record>, store: Store, start: Meta, saved: Saved,
                     file: seq<Bytes>, blocks: seq<Bytes>, meta: Meta, root: Node, height: nat, chain: seq<FreeNode>,
                     log: Bytes, tail: Bytes)
    requires NewBlocks(was, c, diskMeta, recs, store, start, saved, file, blocks, meta, root, height, chain)
    requires LogOk(log, recs, tail, c)
    ensures RecoversOn(Disk(blocks, log), c, root, store) <==> !Exposes(c.tight, blocks, c.pageSize, start, meta)
    ensures Judged(Moment(Disk(blocks, log), Exposes(c.tight, blocks, c.pageSize, start, meta)), c, store, store)
  {
    hide *;
    BlocksParts(was, c, diskMeta, recs, store, start, saved, file, blocks, meta, root, height, chain);
    if c.tight {
      WindowLeaksNothing(was, c, diskMeta, recs, store, saved, file, blocks, meta, root, height, chain, log, tail);
    } else {
      WindowExact(was, c, diskMeta, recs, store, blocks, meta, root, height, chain, log, tail);
    }
    ExposesExact(c, blocks, meta, root, height, chain, start);
    AboutHarmless(c, blocks, start, meta, root);
    if Exposes(c.tight, blocks, c.pageSize, start, meta) {
      IsPassedOver(Disk(blocks, log), c, meta, root, height, chain, store);
    } else {
      FoundThere(Disk(blocks, log), c, root, store);
      Kept(Disk(blocks, log), c, store, store);
    }
  }

  lemma IsPassedOver(d: Disk, c: Config, meta: Meta, root: Node, h: nat, chain: seq<FreeNode>, store: Store)
    requires StoredTree(c, d.blocks, meta, root, h, chain) && ToMap(Contents(root)) == store && !RecoversOn(d, c, root, store)
    ensures Judged(Moment(d, true), c, store, store)
  {
    hide StoredTree, RecoversOn, ToMap, Contents;
  }

  /** Under every proper prefix of the CHECKPOINT record, recovery replays on the new tree exactly when not exposed. */
  ghost predicate WindowIs(blocks: seq<Bytes>, log: Bytes, enc: Bytes, c: Config, root: Node, store: Store, exposed: bool)
  {
    forall k: nat :: k < |enc| ==> (RecoversOn(Disk(blocks, log + enc[..k]), c, root, store) <==> !exposed)
  }

  /** The whole window: the data fsync and every byte of the CHECKPOINT append. */
  lemma CheckpointCuts(was: Disk, c: Config, diskMeta: Meta, recs: seq<Record>, store: Store, start: Meta, saved: Saved,
                       file: seq<Bytes>, blocks: seq<Bytes>, meta: Meta, root: Node, height: nat, chain: seq<FreeNode>, r: Record)
    requires NewBlocks(was, c, diskMeta, recs, store, start, saved, file, blocks, meta, root, height, chain)
    requires r == CheckpointRecord(LastLsn(recs) + 1, meta.root, meta.freelistHead, meta.next) && RecordEncodable(r)
    ensures var exposed := Exposes(c.tight, blocks, c.pageSize, start, meta);
      && Judged(Moment(Disk(blocks, was.log), exposed), c, store, store)
      && AllJudged(Cuts(blocks, was.log + EncodedRecord(r), |was.log|, exposed), c, store, store)
      && WindowIs(blocks, was.log, EncodedRecord(r), c, root, store, exposed)
    ensures Recovers(Disk(blocks, was.log + EncodedRecord(r)), c, diskMeta, recs + [r], [], store)
    ensures LogOk(was.log + EncodedRecord(r), recs + [r], [], c)
  {
    hide *;
    var enc, exposed := EncodedRecord(r), Exposes(c.tight, blocks, c.pageSize, start, meta);
    BlocksParts(was, c, diskMeta, recs, store, start, saved, file, blocks, meta, root, height, chain);
    WindowJudged(was, c, diskMeta, recs, store, start, saved, file, blocks, meta, root, height, chain, was.log, []);
    CheckpointLogged(c, blocks, diskMeta, was.log, recs, meta, r, root, height, chain);
    Marker(r, c);
    LogMore(was.log, recs, c, r);
    forall k: nat | k < |enc|
      ensures RecoversOn(Disk(blocks, was.log + enc[..k]), c, root, store) <==> !exposed
      ensures Judged(Moment(Disk(blocks, was.log + enc[..k]), exposed), c, store, store)
    {
      LogTorn(was.log, recs, c, r, k);
      WindowJudged(was, c, diskMeta, recs, store, start, saved, file, blocks, meta, root, height, chain, was.log + enc[..k], enc[..k]);
    }
    AboutWindow(blocks, was.log, enc, c, root, store, exposed);
    IsRecoverable(Disk(blocks, was.log + enc), c, diskMeta, recs + [r], [], store);
    Kept(Disk(blocks, was.log + enc), c, store, store);
    CutsJudged(blocks, was.log, enc, exposed, c, store);
  }

  lemma AboutWindow(blocks: seq<Bytes>, log: Bytes, enc: Bytes, c: Config, root: Node, store: Store, exposed: bool)
    requires forall k: nat :: k < |enc| ==> (RecoversOn(Disk(blocks, log + enc[..k]), c, root, store) <==> !exposed)
    ensures WindowIs(blocks, log, enc, c, root, store, exposed)
  {
    hide RecoversOn;
  }

  lemma Marker(r: Record, c: Config)
    requires r.CheckpointRecord?
    ensures Replayable(r, c)
  {
  }

  lemma CutsJudged(blocks: seq<Bytes>, log: Bytes, enc: Bytes, exposed: bool, c: Config, store: Store)
    requires forall k: nat :: k < |enc| ==> Judged(Moment(Disk(blocks, log + enc[..k]), exposed), c, store, store)
    requires Judged(Moment(Disk(blocks, log + enc), false), c, store, store)
    ensures AllJudged(Cuts(blocks, log + enc, |log|, exposed), c, store, store)
  {
    hide Judged, Cuts;
    var cuts := Cuts(blocks, log + enc, |log|, exposed);
    forall i | 0 <= i < |cuts| ensures Judged(cuts[i], c, store, store) { CutAt(blocks, log, enc, exposed, i); }
  }

  /** What the pager remembers right after a checkpoint. */
  lemma SavedNow(c: Config, blocks: seq<Bytes>, meta: Meta, root: Node, height: nat, chain: seq<FreeNode>)
    requires StoredTree(c, blocks, meta, root, height, chain)
    ensures SavedOk(Saved(blocks, meta.next, chain), blocks, meta, c.pageSize)
  {
    hide Consistent, ChainOk, Flatten, DiskView;
  }

  /**
   * The durable states of a checkpoint: the new blocks under the old meta page, then under a growing log, then the new
   * meta page, then the rotated log.
   */
  function CheckpointMoments(exposed: bool, blocks: seq<Bytes>, log: Bytes, r: Record, now: Disk): seq<Moment>
  {
    var full := log + EncodedRecord(r);
    [Moment(Disk(blocks, log), exposed)] + Cuts(blocks, full, |log|, exposed) + [Moment(Disk(now.blocks, full), false), Moment(now, false)]
  }

  lemma MomentsShown(before: seq<Moment>, exposed: bool, blocks: seq<Bytes>, log: Bytes, r: Record, now: Disk)
    ensures var full := log + EncodedRecord(r);
      before + [Moment(Disk(blocks, log), exposed)] + Cuts(blocks, full, |log|, exposed) + [Moment(Disk(now.blocks, full), false)] + [Moment(now, false)]
      == before + CheckpointMoments(exposed, blocks, log, r, now)
  {
    hide EncodedRecord, Cuts;
    var full := log + EncodedRecord(r);
    var a, b := [Moment(Disk(blocks, log), exposed)], Cuts(blocks, full, |log|, exposed);
    assert before + a + b + [Moment(Disk(now.blocks, full), false)] + [Moment(now, false)]
      == before + (a + b + [Moment(Disk(now.blocks, full), false), Moment(now, false)]);
  }
}
