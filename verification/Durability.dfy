/**
 * What a crash leaves behind and what reopening makes of it: the durable data file and log, the meta page repaired
 * from the log, and the map that replaying the log on the stored tree gives.
 */
module Durability {
  import opened Bytes
  import opened Entities
  import opened Codec
  import opened MetaCodec
  import opened WalCodec
  import opened Paging
  import opened Cache
  import opened TreeModel
  import opened Cascading
  import opened TreeMaps
  import opened Devices

  type Store = map<Bytes, Bytes>

  ghost function Effect(s: Store, r: Record): Store
  {
    match r
    case PutRecord(_, key, value) => s[key := value]
    case DeleteRecord(_, key) => s - {key}
    case CheckpointRecord(_, _, _, _) => s
  }

  /** The records with LSN above `after`, applied in order. */
  ghost function Replayed(s: Store, recs: seq<Record>, after: nat): Store
  {
    if recs == [] then s else
      var before := Replayed(s, recs[..|recs| - 1], after);
      if recs[|recs| - 1].lsn > after then Effect(before, recs[|recs| - 1]) else before
  }

  /** The CHECKPOINT record with the highest LSN. */
  ghost function Latest(recs: seq<Record>): (r: Option<Record>)
    ensures r.Some? ==> r.value in recs && r.value.CheckpointRecord?
    ensures r.Some? ==> forall i :: 0 <= i < |recs| && recs[i].CheckpointRecord? ==> recs[i].lsn <= r.value.lsn
    ensures r.None? ==> forall i :: 0 <= i < |recs| ==> !recs[i].CheckpointRecord?
  {
    if recs == [] then None else
      var before, last := Latest(recs[..|recs| - 1]), recs[|recs| - 1];
      if last.CheckpointRecord? && (before.None? || last.lsn > before.value.lsn) then Some(last) else before
  }

  /** The meta page, advanced to the latest CHECKPOINT of the log if that one is newer. */
  ghost function Repaired(m: Meta, recs: seq<Record>): Meta
  {
    var latest := Latest(recs);
    if latest.None? || latest.value.lsn <= m.checkpointLsn then m
    else Meta(m.pageSize, latest.value.root, latest.value.next, latest.value.freelistHead, latest.value.lsn)
  }

  /** A record that may be replayed: its entry fits a page, and its key is short if keys are held to that. */
  ghost predicate Replayable(r: Record, c: Config)
  {
    r.PutRecord? ==> LeafRecordSize(r.key, r.value) <= MaxLeafRecordSize(c.pageSize) && (c.strict ==> ShortKey(r.key, c.pageSize))
  }

  ghost predicate AllReplayable(recs: seq<Record>, c: Config)
  {
    forall i :: 0 <= i < |recs| ==> Replayable(recs[i], c)
  }

  /** The pages of a tree. */
  ghost function TreeIds(n: Node): set<nat>
  {
    set id | id in Ids(n)
  }

  /**
   * The blocks hold a tree and a freelist, read with this meta: every page of the tree is below the next page id and
   * not free. Ids that are neither are leaked.
   */
  ghost predicate StoredTree(c: Config, blocks: seq<Bytes>, meta: Meta, root: Node, height: nat, chain: seq<FreeNode>)
  {
    && PagerOk(c.pageSize, blocks, meta, map[], {}, chain)
    && Consistent(c, DiskView(blocks), TreeIds(root), meta.root, root, height)
    && TreeIds(root) <= Live(chain, meta.next)
    && (c.tight ==> NoneLeaked(c, blocks, meta, root, chain))
  }

  /** The file ends with the last page id, every page is free or in the tree, and the freelist takes no page too many. */
  ghost predicate NoneLeaked(c: Config, blocks: seq<Bytes>, meta: Meta, root: Node, chain: seq<FreeNode>)
  {
    |blocks| == meta.next && TreeIds(root) == Live(chain, meta.next) && FullBelow(chain, c.pageSize)
  }

  ghost predicate LogOk(log: Bytes, recs: seq<Record>, tail: Bytes, c: Config)
  {
    log == EncodedLog(recs) + tail && GoodLog(recs) && Torn(tail) && AllReplayable(recs, c)
  }

  ghost predicate MetaIs(blocks: seq<Bytes>, m: Meta)
  {
    blocks != [] && DecodedMeta(blocks[0]) == Some(m)
  }

  /** The stored tree that a recovery starts from, and the store the replay arrives at. */
  ghost predicate Base(c: Config, blocks: seq<Bytes>, meta: Meta, recs: seq<Record>, store: Store, root: Node, height: nat, chain: seq<FreeNode>)
  {
    StoredTree(c, blocks, meta, root, height, chain) && store == Replayed(ToMap(Contents(root)), recs, meta.checkpointLsn)
  }

  /** Reopening `d`, whose log consists of `recs` and a torn `tail`, gives `store`. `m` is its meta page. */
  ghost predicate Recovers(d: Disk, c: Config, m: Meta, recs: seq<Record>, tail: Bytes, store: Store)
  {
    && MetaIs(d.blocks, m)
    && m.pageSize == c.pageSize && LogOk(d.log, recs, tail, c)
    && Repaired(m, recs).checkpointLsn <= LastLsn(recs)
    && exists root, height, chain :: Base(c, d.blocks, Repaired(m, recs), recs, store, root, height, chain)
  }

  /** `d` is a disk that recovery turns into `store`. */
  ghost predicate RecoversTo(d: Disk, c: Config, store: Store)
  {
    exists m, recs, tail :: Recovers(d, c, m, recs, tail, store)
  }

  /** Reopening `d` replays the log on the tree `root`, with an allocator in order around it, and gives `store`. */
  ghost predicate RecoversOn(d: Disk, c: Config, root: Node, store: Store)
  {
    exists m, recs, tail, height, chain :: FoundAt(d, c, m, recs, tail, root, height, chain, store)
  }

  ghost predicate FoundAt(d: Disk, c: Config, m: Meta, recs: seq<Record>, tail: Bytes, root: Node, height: nat, chain: seq<FreeNode>, store: Store)
  {
    && MetaIs(d.blocks, m)
    && m.pageSize == c.pageSize && LogOk(d.log, recs, tail, c)
    && Repaired(m, recs).checkpointLsn <= LastLsn(recs)
    && Base(c, d.blocks, Repaired(m, recs), recs, store, root, height, chain)
  }

  lemma FoundThere(d: Disk, c: Config, root: Node, store: Store)
    requires RecoversOn(d, c, root, store)
    ensures RecoversTo(d, c, store)
  {
    hide MetaIs, LogOk, Repaired, LastLsn, Base;
    var m, recs, tail, height, chain :| FoundAt(d, c, m, recs, tail, root, height, chain, store);
    assert Recovers(d, c, m, recs, tail, store);
  }

  // ---- replay ----

  lemma ReplayedMore(s: Store, recs: seq<Record>, r: Record, after: nat)
    ensures Replayed(s, recs + [r], after) == if r.lsn > after then Effect(Replayed(s, recs, after), r) else Replayed(s, recs, after)
  {
    assert (recs + [r])[..|recs|] == recs;
  }

  lemma {:induction false} NothingToReplay(s: Store, recs: seq<Record>, after: nat)
    requires forall i :: 0 <= i < |recs| ==> recs[i].lsn <= after
    ensures Replayed(s, recs, after) == s
  {
    if recs != [] { NothingToReplay(s, recs[..|recs| - 1], after); }
  }

  /** Where two stores agree, the replays of one log on them agree; and where the log writes, they agree anyway. */
  lemma {:induction false} ReplayAgrees(s: Store, t: Store, recs: seq<Record>, after: nat, key: Bytes)
    ensures SameAt(s, t, key) ==> SameAt(Replayed(s, recs, after), Replayed(t, recs, after), key)
    ensures SameAt(Replayed(s, recs, after), s, key) || SameAt(Replayed(s, recs, after), Replayed(t, recs, after), key)
  {
    if recs != [] { ReplayAgrees(s, t, recs[..|recs| - 1], after, key); }
  }

  ghost predicate SameAt(s: Store, t: Store, key: Bytes)
  {
    (key in s <==> key in t) && (key in s ==> s[key] == t[key])
  }

  /** Replaying a log on the store it arrived at changes nothing. */
  lemma ReplayIsIdempotent(s: Store, recs: seq<Record>, after: nat)
    ensures Replayed(Replayed(s, recs, after), recs, after) == Replayed(s, recs, after)
  {
    hide Replayed;
    var once := Replayed(s, recs, after);
    var twice := Replayed(once, recs, after);
    forall key ensures SameAt(twice, once, key) {
      ReplayAgrees(s, once, recs, after, key);
      ReplayAgrees(once, s, recs, after, key);
    }
    assert forall key :: key in twice <==> key in once by {
      forall key ensures key in twice <==> key in once { assert SameAt(twice, once, key); }
    }
    forall key | key in once ensures twice[key] == once[key] { assert SameAt(twice, once, key); }
  }

  // ---- the log grows ----

  lemma LatestMore(recs: seq<Record>, r: Record)
    ensures !r.CheckpointRecord? ==> Latest(recs + [r]) == Latest(recs)
    ensures r.CheckpointRecord? && (forall i :: 0 <= i < |recs| ==> recs[i].lsn < r.lsn) ==> Latest(recs + [r]) == Some(r)
  {
    assert (recs + [r])[..|recs|] == recs;
  }

  lemma LsnsBelow(recs: seq<Record>)
    requires GoodLog(recs)
    ensures forall i :: 0 <= i < |recs| ==> recs[i].lsn <= LastLsn(recs)
  {
    hide RecordEncodable;
  }

  lemma LogMore(log: Bytes, recs: seq<Record>, c: Config, r: Record)
    requires LogOk(log, recs, [], c) && RecordEncodable(r) && r.lsn == LastLsn(recs) + 1 && Replayable(r, c)
    ensures LogOk(log + EncodedRecord(r), recs + [r], [], c)
  {
    hide EncodedRecord, RecordEncodable, EncodedLog, Replayable, GoodLog, LastLsn;
    GoodLogMore(recs, r);
    EncodedMore(recs, r);
  }

  lemma LogTorn(log: Bytes, recs: seq<Record>, c: Config, r: Record, k: nat)
    requires LogOk(log, recs, [], c) && RecordEncodable(r) && k < |EncodedRecord(r)|
    ensures LogOk(log + EncodedRecord(r)[..k], recs, EncodedRecord(r)[..k], c)
  {
    hide EncodedRecord, RecordEncodable, EncodedLog, AllReplayable, GoodLog;
    assert IsCut(EncodedRecord(r)[..k], r);
  }

  lemma AboutRecovers(d: Disk, c: Config, m: Meta, recs: seq<Record>, tail: Bytes, store: Store)
    ensures Recovers(d, c, m, recs, tail, store) <==>
      && MetaIs(d.blocks, m)
      && m.pageSize == c.pageSize && LogOk(d.log, recs, tail, c)
      && Repaired(m, recs).checkpointLsn <= LastLsn(recs)
      && exists root, height, chain :: Base(c, d.blocks, Repaired(m, recs), recs, store, root, height, chain)
  {
    hide MetaIs, LogOk, Repaired, LastLsn, Base;
  }

  lemma RepairedMore(m: Meta, recs: seq<Record>, r: Record)
    requires !r.CheckpointRecord?
    ensures Repaired(m, recs + [r]) == Repaired(m, recs)
  {
    LatestMore(recs, r);
  }

  lemma BaseMore(c: Config, blocks: seq<Bytes>, meta: Meta, recs: seq<Record>, store: Store, root: Node, height: nat, chain: seq<FreeNode>, r: Record)
    requires Base(c, blocks, meta, recs, store, root, height, chain) && r.lsn > meta.checkpointLsn
    ensures Base(c, blocks, meta, recs + [r], Effect(store, r), root, height, chain)
  {
    hide StoredTree, Effect, Replayed;
    ReplayedMore(ToMap(Contents(root)), recs, r, meta.checkpointLsn);
  }

  lemma LastOf(recs: seq<Record>, r: Record)
    ensures LastLsn(recs + [r]) == r.lsn
  {
  }

  /** A logged operation is recovered. */
  lemma Logged(d: Disk, c: Config, m: Meta, recs: seq<Record>, store: Store, r: Record)
    requires Recovers(d, c, m, recs, [], store)
    requires RecordEncodable(r) && r.lsn == LastLsn(recs) + 1 && Replayable(r, c) && !r.CheckpointRecord?
    ensures Recovers(Disk(d.blocks, d.log + EncodedRecord(r)), c, m, recs + [r], [], Effect(store, r))
  {
    hide *;
    AboutRecovers(d, c, m, recs, [], store);
    var root, height, chain :| Base(c, d.blocks, Repaired(m, recs), recs, store, root, height, chain);
    LogMore(d.log, recs, c, r);
    RepairedMore(m, recs, r);
    LastOf(recs, r);
    BaseMore(c, d.blocks, Repaired(m, recs), recs, store, root, height, chain, r);
    AboutRecovers(Disk(d.blocks, d.log + EncodedRecord(r)), c, m, recs + [r], [], Effect(store, r));
  }

  /** A half-written record is not there. */
  lemma HalfLogged(d: Disk, c: Config, m: Meta, recs: seq<Record>, store: Store, r: Record, k: nat)
    requires Recovers(d, c, m, recs, [], store) && RecordEncodable(r) && k < |EncodedRecord(r)|
    ensures Recovers(Disk(d.blocks, d.log + EncodedRecord(r)[..k]), c, m, recs, EncodedRecord(r)[..k], store)
  {
    hide *;
    AboutRecovers(d, c, m, recs, [], store);
    LogTorn(d.log, recs, c, r, k);
    AboutRecovers(Disk(d.blocks, d.log + EncodedRecord(r)[..k]), c, m, recs, EncodedRecord(r)[..k], store);
  }

  // ---- checkpoints ----

  lemma LatestSmall(recs: seq<Record>, bound: nat)
    requires forall i :: 0 <= i < |recs| ==> recs[i].lsn <= bound
    ensures Latest(recs).Some? ==> Latest(recs).value.lsn <= bound
  {
  }

  /** Nothing in the log is newer than the checkpoint the meta page names. */
  lemma AtRest(c: Config, blocks: seq<Bytes>, m: Meta, recs: seq<Record>, root: Node, height: nat, chain: seq<FreeNode>)
    requires MetaIs(blocks, m) && LogOk(EncodedLog(recs), recs, [], c) && m.pageSize == c.pageSize && m.checkpointLsn == LastLsn(recs)
    requires StoredTree(c, blocks, m, root, height, chain)
    ensures Recovers(Disk(blocks, EncodedLog(recs)), c, m, recs, [], ToMap(Contents(root)))
    ensures Repaired(m, recs) == m
  {
    hide MetaIs, StoredTree, Replayed, Contents, ToMap, RecordEncodable, EncodedLog, Torn, Replayable;
    LsnsBelow(recs);
    LatestSmall(recs, m.checkpointLsn);
    assert Repaired(m, recs) == m;
    NothingToReplay(ToMap(Contents(root)), recs, m.checkpointLsn);
    assert Base(c, blocks, m, recs, ToMap(Contents(root)), root, height, chain);
  }

  lemma SameTree(c: Config, blocks: seq<Bytes>, meta: Meta, meta': Meta, root: Node, height: nat, chain: seq<FreeNode>)
    requires StoredTree(c, blocks, meta, root, height, chain) && meta' == meta.(checkpointLsn := meta'.checkpointLsn)
    ensures StoredTree(c, blocks, meta', root, height, chain)
  {
    hide Consistent, ChainOk, DiskView, Flatten;
  }

  /** New pages and the CHECKPOINT record that describes them; the meta page is still the old one. */
  lemma CheckpointLogged(c: Config, blocks: seq<Bytes>, m: Meta, log: Bytes, recs: seq<Record>, meta: Meta, r: Record,
                         root: Node, height: nat, chain: seq<FreeNode>)
    requires MetaIs(blocks, m) && LogOk(log, recs, [], c) && m.checkpointLsn <= LastLsn(recs) && m.pageSize == meta.pageSize == c.pageSize
    requires r == CheckpointRecord(LastLsn(recs) + 1, meta.root, meta.freelistHead, meta.next) && RecordEncodable(r)
    requires StoredTree(c, blocks, meta, root, height, chain)
    ensures Recovers(Disk(blocks, log + EncodedRecord(r)), c, m, recs + [r], [], ToMap(Contents(root)))
  {
    hide MetaIs, StoredTree, Replayed, Contents, ToMap, RecordEncodable, EncodedLog, EncodedRecord, Torn, LogOk, Latest, GoodLog, LastLsn;
    var meta' := meta.(checkpointLsn := r.lsn);
    SameTree(c, blocks, meta, meta', root, height, chain);
    LogMore(log, recs, c, r);
    LogIsGood(log, recs, c);
    LsnsBelow(recs);
    LatestMore(recs, r);
    LastOf(recs, r);
    assert Repaired(m, recs + [r]) == meta';
    NothingToReplay(ToMap(Contents(root)), recs + [r], r.lsn);
    assert Base(c, blocks, meta', recs + [r], ToMap(Contents(root)), root, height, chain);
  }

  lemma LogIsGood(log: Bytes, recs: seq<Record>, c: Config)
    requires LogOk(log, recs, [], c)
    ensures GoodLog(recs)
  {
  }

  /** Rewriting the meta page touches no page of the tree or the freelist. */
  lemma MetaRewritten(c: Config, blocks: seq<Bytes>, meta: Meta, meta': Meta, root: Node, height: nat, chain: seq<FreeNode>, block: Bytes)
    requires StoredTree(c, blocks, meta, root, height, chain) && meta' == meta.(checkpointLsn := meta'.checkpointLsn)
    ensures blocks != [] && StoredTree(c, blocks[0 := block], meta', root, height, chain)
  {
    hide DecodedPage, ChainOk, InChain, Shape, RootHealthy;
    SameTree(c, blocks, meta, meta', root, height, chain);
    var blocks' := blocks[0 := block];
    ChainBelow(chain, meta.next);
    ChainFrame(chain, map[], blocks, map[], blocks', c.pageSize);
    assert forall id :: id in DiskView(blocks) && id > 0 ==> id in DiskView(blocks') && DiskView(blocks')[id] == DiskView(blocks)[id];
    HoldsFrame(DiskView(blocks), DiskView(blocks'), root);
  }

  // ---- a new database ----

  lemma FreshDatabase(c: Config)
    requires 256 <= c.pageSize < U32
    ensures RecoversTo(Disk(InitialFile(c.pageSize), []), c, map[])
  {
    hide *;
    FreshPages(c);
    EmptyLog(c);
    AtRest(c, InitialFile(c.pageSize), Meta(c.pageSize, 1, 2, 0, 0), [], Node(1, Leaf(0, []), []), 0, []);
    EmptyStore();
    IsRecoverable(Disk(InitialFile(c.pageSize), EncodedLog([])), c, Meta(c.pageSize, 1, 2, 0, 0), [], [], map[]);
  }

  lemma EmptyLog(c: Config)
    ensures LogOk(EncodedLog([]), [], [], c) && LastLsn([]) == 0 && EncodedLog([]) == []
  {
  }

  lemma EmptyStore()
    ensures ToMap(Contents(Node(1, Leaf(0, []), []))) == map[]
  {
  }

  lemma IsRecoverable(d: Disk, c: Config, m: Meta, recs: seq<Record>, tail: Bytes, store: Store)
    requires Recovers(d, c, m, recs, tail, store)
    ensures RecoversTo(d, c, store)
  {
    hide Recovers;
  }

  lemma FreshPages(c: Config)
    requires 256 <= c.pageSize < U32
    ensures MetaIs(InitialFile(c.pageSize), Meta(c.pageSize, 1, 2, 0, 0))
    ensures StoredTree(c, InitialFile(c.pageSize), Meta(c.pageSize, 1, 2, 0, 0), Node(1, Leaf(0, []), []), 0, [])
  {
    hide EncodedMeta, DecodedMeta, EncodedPage, DecodedPage;
    var m, leaf, blocks := Meta(c.pageSize, 1, 2, 0, 0), Leaf(0, []), InitialFile(c.pageSize);
    MetaRoundTrip(m);
    EmptyLeafFits(c.pageSize);
    PageRoundTrip(Page(0, leaf), c.pageSize);
    assert DiskView(blocks)[1] == leaf;
    assert Live([], 2) == {1};
    assert Ids(Node(1, leaf, [])) == multiset{1};
  }
}
