/** Disks of a checkpoint's window: what is lost when the root was split, when a page was added, and when one was freed. */
module ExposedDisks {
  import opened Bytes
  import opened Entities
  import opened Codec
  import opened MetaCodec
  import opened WalCodec
  import opened Devices
  import opened Paging
  import opened Cache
  import opened TreeModel
  import opened TreeMaps
  import opened FlushFacts
  import opened Durability
  import opened AllocatorSafety
  import opened CheckpointWindow

  // ---- a split root leaf, in general ----

  /** `root` is a new root over leaves, and the first of them is the page that the old meta page calls the root. */
  ghost predicate RootWasSplit(c: Config, blocks: seq<Bytes>, oldRoot: nat, meta: Meta, root: Node, chain: seq<FreeNode>)
  {
    StoredTree(c, blocks, meta, root, 1, chain) && root.kids != [] && root.kids[0].id == oldRoot
  }

  /**
   * A checkpoint has split the root leaf, and its blocks are durable under the old meta page. There is no database in
   * order on this disk: the page that recovery takes for the root is the left half, and links to a right half that the
   * old meta knows nothing of. Lookups that start there, as those of the replay do, miss the keys of the other leaves
   * that the log does not put again; a scan would still follow the link to the right half.
   */
  lemma RootSplitLosesKeys(c: Config, blocks: seq<Bytes>, log: Bytes, m: Meta, recs: seq<Record>, tail: Bytes,
                           meta: Meta, root: Node, chain: seq<FreeNode>, j: nat)
    requires MetaIs(blocks, m) && LogOk(log, recs, tail, c)
    requires RootWasSplit(c, blocks, Repaired(m, recs).root, meta, root, chain)
    requires root.kids[0].body.Leaf? && |root.kids[0].body.entries| <= j < |Contents(root)|
    requires NotPut(recs, Repaired(m, recs).checkpointLsn, Contents(root)[j].key)
    ensures forall s :: !RecoversTo(Disk(blocks, log), c, s)
    ensures var key, start := Contents(root)[j].key, Repaired(m, recs);
      && key in ToMap(Contents(root))
      && start.root in DiskView(blocks) && DiskView(blocks)[start.root].Leaf?
      && key !in Replayed(ToMap(DiskView(blocks)[start.root].entries), recs, start.checkpointLsn)
  {
    hide LogOk, MetaIs, Repaired, Replayed, NotPut, RecoversTo, ToMap, RootWasSplit, Contents, DiskView;
    var start, key := Repaired(m, recs), Contents(root)[j].key;
    var left := FirstHalf(c, blocks, start.root, meta, root, chain);
    KeyElsewhere(c, blocks, start.root, meta, root, chain, left, j);
    NotReplayed(ToMap(left.entries), recs, start.checkpointLsn, key);
    forall s ensures !RecoversTo(Disk(blocks, log), c, s) {
      if RecoversTo(Disk(blocks, log), c, s) {
        var root', h', chain' := ReadWith(blocks, log, c, m, recs, tail, s);
        NoTreeThere(c, blocks, start, recs, s, left, root', h', chain');
        assert false;
      }
    }
  }

  lemma FirstHalf(c: Config, blocks: seq<Bytes>, oldRoot: nat, meta: Meta, root: Node, chain: seq<FreeNode>) returns (left: Body)
    requires RootWasSplit(c, blocks, oldRoot, meta, root, chain)
    ensures root.kids != [] && left == root.kids[0].body && left.Leaf? && left.right > 0
    ensures oldRoot in DiskView(blocks) && DiskView(blocks)[oldRoot] == left
  {
    hide DiskView, Rank, SortedSlots, KeyFits, PagerOk;
    left := root.kids[0].body;
    KidShape(c, root, 1, 0.0, 1.0, 0, 0);
    KidShape(c, root, 1, 0.0, 1.0, 0, 1);
    assert root.kids[1].id in Ids(root.kids[1]);
    IdsMember(root.kids, 1);
    assert root.kids[1].id in multiset(Live(chain, meta.next));
    assert Holds(DiskView(blocks), root.kids[0]);
  }

  lemma KeyElsewhere(c: Config, blocks: seq<Bytes>, oldRoot: nat, meta: Meta, root: Node, chain: seq<FreeNode>, left: Body, j: nat)
    requires RootWasSplit(c, blocks, oldRoot, meta, root, chain) && left == root.kids[0].body && left.Leaf?
    requires |left.entries| <= j < |Contents(root)|
    ensures Contents(root)[j].key in ToMap(Contents(root)) && Contents(root)[j].key !in ToMap(left.entries)
  {
    hide DiskView, Rank, SortedSlots, KeyFits, PagerOk, Holds, ToMap;
    var all := Contents(root);
    ContentsSorted(c, root, 1, 0.0, 1.0, 0);
    StoredAt(all, j);
    assert root.body.Internal? && Contents(root.kids[0]) == left.entries;
    assert all == left.entries + ContentsAll(root.kids[1..]);
    forall i | 0 <= i < |left.entries| ensures left.entries[i].key != all[j].key {
      assert all[i] == left.entries[i];
    }
    MapWithout(left.entries, all[j].key);
  }

  lemma NoTreeThere(c: Config, blocks: seq<Bytes>, start: Meta, recs: seq<Record>, s: Store, left: Body, root: Node, h: nat, chain: seq<FreeNode>)
    requires start.root in DiskView(blocks) && DiskView(blocks)[start.root] == left && left.Leaf?
    requires Base(c, blocks, start, recs, s, root, h, chain)
    ensures left.right == 0
  {
    hide Replayed, PagerOk, DiskView, Rank, Live;
    assert root.body == left;
  }

  // ---- small trees on pages of 256 bytes ----

  /** Short keys, so that rebalancing is never stuck; leaked page ids are tolerated. */
  const TINY := Config(256, true, false)

  /** Entry `i` takes 44 bytes of a page. */
  function Entry(i: nat): LeafSlot
    requires i < 256
  {
    LeafSlot([i], seq(27, _ => 0))
  }

  function Entries(from: nat, to: nat): (s: seq<LeafSlot>)
    requires from <= to <= 256
    ensures |s| == to - from && forall i :: 0 <= i < |s| ==> s[i] == Entry(from + i)
  {
    seq(to - from, i requires 0 <= i < to - from => Entry(from + i))
  }

  /** A leaf with the entries `from`, ..., `to - 1`. */
  datatype Part = Part(id: nat, from: nat, to: nat)

  /** Leaves side by side. */
  ghost predicate Laid(parts: seq<Part>)
  {
    && 2 <= |parts| <= 8
    && (forall i :: 0 <= i < |parts| ==> 1 <= parts[i].from && 2 <= parts[i].to - parts[i].from <= 5 && parts[i].to <= 100)
    && (forall i :: 0 < i < |parts| ==> parts[i].from == parts[i - 1].to)
    && (forall i :: 0 <= i < |parts| ==> 0 < parts[i].id < 100)
  }

  function LeafAt(parts: seq<Part>, i: nat): Node
    requires i < |parts| && parts[i].from <= parts[i].to <= 256
  {
    Node(parts[i].id, Leaf(if i + 1 < |parts| then parts[i + 1].id else 0, Entries(parts[i].from, parts[i].to)), [])
  }

  ghost function FanBody(parts: seq<Part>): (b: Body)
    requires Laid(parts)
    ensures b.Internal? && b.leftmost == parts[0].id && |b.slots| == |parts| - 1
    ensures forall i :: 0 <= i < |b.slots| ==> b.slots[i] == InternalSlot([parts[i + 1].from], parts[i + 1].id)
  {
    Internal(parts[0].id, seq(|parts| - 1, i requires 0 <= i < |parts| - 1 => InternalSlot([parts[i + 1].from], parts[i + 1].id)))
  }

  /** A root over these leaves. */
  ghost function Fan(root: nat, parts: seq<Part>): (n: Node)
    requires Laid(parts)
    ensures n.id == root && n.body == FanBody(parts) && |n.kids| == |parts|
    ensures forall i :: 0 <= i < |parts| ==> n.kids[i] == LeafAt(parts, i)
  {
    Node(root, FanBody(parts), seq(|parts|, i requires 0 <= i < |parts| => LeafAt(parts, i)))
  }

  lemma OneByteRank(i: nat, j: nat)
    requires i < 256 && j < 256
    ensures Rank([i]) < Rank([j]) <==> i < j
    ensures 0.0 < Rank([i]) < 1.0
  {
    assert [i][1..] == [] && [j][1..] == [];
  }

  lemma {:induction false} EntriesSum(from: nat, to: nat)
    requires from <= to <= 256
    ensures LeafSum(Entries(from, to)) == 44 * (to - from)
  {
    if from < to {
      EntriesSum(from, to - 1);
      assert Entries(from, to)[..to - from - 1] == Entries(from, to - 1);
    }
  }

  lemma {:induction false} SlotsSum(slots: seq<InternalSlot>)
    requires forall i :: 0 <= i < |slots| ==> |slots[i].key| == 1
    ensures InternalSum(slots) == 21 * |slots|
  {
    if slots != [] { SlotsSum(slots[..|slots| - 1]); }
  }

  lemma LeafIsOk(parts: seq<Part>, i: nat)
    requires Laid(parts) && i < |parts|
    ensures Healthy(TINY, LeafAt(parts, i).body)
    ensures var lo, hi := if i == 0 then 0.0 else Rank([parts[i].from]), if i + 1 == |parts| then 1.0 else Rank([parts[i].to]);
      Shape(TINY, LeafAt(parts, i), 0, lo, hi, if i + 1 < |parts| then parts[i + 1].id else 0)
  {
    hide Rank, LeafSum;
    var p := parts[i];
    EntriesSum(p.from, p.to);
    OneByteRank(p.from, p.to);
    forall a, b | p.from <= a < b < p.to ensures Rank([a]) < Rank([b]) { OneByteRank(a, b); }
    forall a | p.from <= a < p.to ensures Rank([p.from]) <= Rank([a]) < Rank([p.to]) {
      OneByteRank(a, p.to);
      OneByteRank(p.from, a);
    }
  }

  lemma FanIsOk(root: nat, parts: seq<Part>)
    requires Laid(parts)
    ensures Shape(TINY, Fan(root, parts), 1, 0.0, 1.0, 0) && RootHealthy(TINY, FanBody(parts)) && TINY.pageSize == 256 && !TINY.tight
  {
    hide Rank, LeafSum, InternalSum, LeafAt, Healthy, LeafShape;
    var n := Fan(root, parts);
    var slots := n.body.slots;
    SlotsSum(slots);
    forall i | 0 <= i < |slots| ensures 0.0 < Rank(slots[i].key) < 1.0 && KeyFits(TINY, slots[i].key) {
      OneByteRank(parts[i + 1].from, 0);
    }
    forall i, j | 0 <= i < j < |slots| ensures Rank(slots[i].key) < Rank(slots[j].key) {
      PartsGrow(parts, i + 1, j + 1);
      OneByteRank(parts[i + 1].from, parts[j + 1].from);
    }
    LeafIds(parts);
    forall i | 0 <= i < |n.kids| ensures KidOk(TINY, n, i, 1, 0.0, 1.0, 0) {
      LeafIsOk(parts, i);
    }
  }

  lemma LeafIds(parts: seq<Part>)
    requires Laid(parts)
    ensures forall i :: 0 <= i < |parts| ==>
      LeafAt(parts, i).id == parts[i].id && LeafAt(parts, i).kids == [] && LeafAt(parts, i).body.Leaf? && FirstLeaf(LeafAt(parts, i)) == parts[i].id
  {
  }

  lemma {:induction false} PartsGrow(parts: seq<Part>, i: nat, j: nat)
    requires Laid(parts) && i < j < |parts|
    ensures parts[i].from < parts[j].from
  {
    if i + 1 < j { PartsGrow(parts, i, j - 1); }
  }

  /** The entries of the leaves from number `i` on. */
  lemma {:induction false} FanContents(root: nat, parts: seq<Part>, i: nat)
    requires Laid(parts) && i < |parts|
    ensures parts[i].from <= parts[|parts| - 1].to
    ensures ContentsAll(Fan(root, parts).kids[i..]) == Entries(parts[i].from, parts[|parts| - 1].to)
    decreases |parts| - i
  {
    hide LeafSum;
    var kids := Fan(root, parts).kids;
    assert kids[i..][0] == LeafAt(parts, i) && kids[i..][1..] == kids[i + 1..];
    if i + 1 < |parts| {
      FanContents(root, parts, i + 1);
    } else {
      assert kids[i + 1..] == [];
    }
  }

  function PartIds(parts: seq<Part>): (s: seq<nat>)
    ensures |s| == |parts| && forall i :: 0 <= i < |s| ==> s[i] == parts[i].id
  {
    seq(|parts|, i requires 0 <= i < |parts| => parts[i].id)
  }

  lemma {:induction false} LeavesIds(leaves: seq<Node>, ids: seq<nat>)
    requires |leaves| == |ids| && forall i :: 0 <= i < |ids| ==> leaves[i].kids == [] && leaves[i].id == ids[i]
    ensures IdsAll(leaves) == multiset(ids)
  {
    if ids != [] {
      LeavesIds(leaves[1..], ids[1..]);
      assert IdsAll(leaves[0].kids) == multiset{};
      assert ids == [ids[0]] + ids[1..];
    }
  }

  lemma {:induction false} NoRepeats(s: seq<nat>)
    requires NoDup(s)
    ensures multiset(s) == multiset(Elements(s))
  {
    hide NoDup, Elements;
    if s == [] {
      LastOff(s);
    } else {
      var t, x := s[..|s| - 1], s[|s| - 1];
      LastOff(s);
      NoRepeats(t);
      assert s == t + [x];
      assert multiset(Elements(t) + {x}) == multiset(Elements(t)) + multiset{x};
    }
  }

  lemma LastOff(s: seq<nat>)
    requires NoDup(s)
    ensures s == [] ==> Elements(s) == {}
    ensures s != [] ==>
      var t, x := s[..|s| - 1], s[|s| - 1];
      NoDup(t) && x !in Elements(t) && Elements(s) == Elements(t) + {x}
  {
  }

  /** The pages of the tree are its root and its leaves, each once. */
  lemma FanPages(root: nat, parts: seq<Part>)
    requires Laid(parts) && NoDup([root] + PartIds(parts))
    ensures TreeIds(Fan(root, parts)) == Elements([root] + PartIds(parts))
    ensures Ids(Fan(root, parts)) == multiset(TreeIds(Fan(root, parts)))
  {
    hide IdsAll, LeafAt, FanBody;
    var n, ids := Fan(root, parts), [root] + PartIds(parts);
    LeafIds(parts);
    LeavesIds(n.kids, PartIds(parts));
    assert Ids(n) == multiset(ids);
    NoRepeats(ids);
    forall id ensures id in TreeIds(n) <==> id in Elements(ids) { assert id in Ids(n) <==> id in multiset(ids); }
  }

  // ---- files ----

  ghost predicate AllFit(bodies: seq<Body>)
  {
    forall i :: 0 <= i < |bodies| ==> Encodable(Page(0, bodies[i]), 256)
  }

  ghost function PageBlock(b: Body): Bytes
    requires Encodable(Page(0, b), 256)
  {
    EncodedPage(Page(0, b), 256)
  }

  /** The data file with these pages. */
  ghost function PageFile(meta: Meta, bodies: seq<Body>): (f: seq<Bytes>)
    requires AllFit(bodies) && MetaEncodable(meta)
    ensures |f| == |bodies| + 1 && f[0] == EncodedMeta(meta)
    ensures forall i :: 0 <= i < |bodies| ==> f[i + 1] == PageBlock(bodies[i])
  {
    hide Encodable, PageBlock, EncodedMeta, MetaEncodable;
    [EncodedMeta(meta)] + seq(|bodies|, i requires 0 <= i < |bodies| => PageBlock(bodies[i]))
  }

  /** What is read as page 1, 2, ... */
  ghost predicate Shown(v: Pages, bodies: seq<Body>)
  {
    forall id: nat :: 0 < id <= |bodies| ==> id in v && v[id] == bodies[id - 1]
  }

  lemma FileReads(meta: Meta, bodies: seq<Body>)
    requires AllFit(bodies) && MetaEncodable(meta)
    ensures MetaIs(PageFile(meta, bodies), meta) && Shown(DiskView(PageFile(meta, bodies)), bodies)
    ensures forall i :: 0 <= i < |bodies| ==> DecodedPage(PageFile(meta, bodies)[i + 1]) == Some(Page(0, bodies[i]))
  {
    hide DecodedPage, EncodedPage, EncodedMeta, DecodedMeta, Encodable;
    MetaRoundTrip(meta);
    forall i | 0 <= i < |bodies| ensures DecodedPage(PageFile(meta, bodies)[i + 1]) == Some(Page(0, bodies[i])) {
      PageRoundTrip(Page(0, bodies[i]), 256);
    }
    forall id: nat | 0 < id <= |bodies| ensures DecodedPage(PageFile(meta, bodies)[id]) == Some(Page(0, bodies[id - 1])) {
      assert DecodedPage(PageFile(meta, bodies)[(id - 1) + 1]) == Some(Page(0, bodies[id - 1]));
    }
  }

  lemma FanFits(parts: seq<Part>)
    requires Laid(parts)
    ensures Encodable(Page(0, FanBody(parts)), 256)
    ensures forall i :: 0 <= i < |parts| ==> Encodable(Page(0, LeafAt(parts, i).body), 256)
  {
    hide LeafSum, InternalSum;
    SlotsSum(FanBody(parts).slots);
    forall i | 0 <= i < |parts| ensures Encodable(Page(0, LeafAt(parts, i).body), 256) {
      EntriesSum(parts[i].from, parts[i].to);
    }
  }

  /** The pages of this tree, each in its place. */
  ghost predicate Placed(bodies: seq<Body>, root: nat, parts: seq<Part>)
    requires Laid(parts)
  {
    && 0 < root <= |bodies| && bodies[root - 1] == FanBody(parts)
    && forall i :: 0 <= i < |parts| ==> parts[i].id <= |bodies| && bodies[parts[i].id - 1] == LeafAt(parts, i).body
  }

  lemma FanIsStored(disk: Meta, bodies: seq<Body>, meta: Meta, root: nat, parts: seq<Part>, chain: seq<FreeNode>)
    requires AllFit(bodies) && MetaEncodable(disk) && Laid(parts) && NoDup([root] + PartIds(parts)) && Placed(bodies, root, parts)
    requires PagerOk(256, PageFile(disk, bodies), meta, map[], {}, chain) && meta.root == root
    requires Elements([root] + PartIds(parts)) <= Live(chain, meta.next)
    ensures StoredTree(TINY, PageFile(disk, bodies), meta, Fan(root, parts), 1, chain)
  {
    hide *;
    var n, v := Fan(root, parts), DiskView(PageFile(disk, bodies));
    FileReads(disk, bodies);
    FanIsOk(root, parts);
    FanPages(root, parts);
    FanIsHeld(v, bodies, root, parts);
    IsStored(TINY, PageFile(disk, bodies), meta, n, 1, chain);
  }

  lemma IsStored(c: Config, blocks: seq<Bytes>, meta: Meta, n: Node, h: nat, chain: seq<FreeNode>)
    requires PagerOk(c.pageSize, blocks, meta, map[], {}, chain) && n.id == meta.root && TreeIds(n) <= Live(chain, meta.next)
    requires Shape(c, n, h, 0.0, 1.0, 0) && RootHealthy(c, n.body) && Holds(DiskView(blocks), n) && Ids(n) == multiset(TreeIds(n)) && !c.tight
    ensures StoredTree(c, blocks, meta, n, h, chain)
  {
    hide PagerOk, Shape, RootHealthy, Holds, DiskView, Ids, TreeIds, Live;
  }

  lemma FanIsHeld(v: Pages, bodies: seq<Body>, root: nat, parts: seq<Part>)
    requires Shown(v, bodies) && Laid(parts) && Placed(bodies, root, parts)
    ensures Holds(v, Fan(root, parts))
  {
    hide FanBody, Entries;
    var n := Fan(root, parts);
    forall i | 0 <= i < |n.kids| ensures Holds(v, n.kids[i]) { assert n.kids[i] == LeafAt(parts, i); }
  }

  // ---- scenes ----

  /** A database with one operation since its last checkpoint, and the blocks that the next checkpoint has written. */
  datatype Scene = Scene(m: Meta, op: Record, was: seq<Body>, now: seq<Body>, meta: Meta, tree: Node, chain: seq<FreeNode>)

  ghost predicate Fits(x: Scene)
  {
    && AllFit(x.was) && AllFit(x.now) && MetaEncodable(x.m) && x.m.pageSize == 256 && x.m.checkpointLsn >= 1
    && x.op.lsn == x.m.checkpointLsn + 1 && !x.op.CheckpointRecord? && RecordEncodable(x.op) && Replayable(x.op, TINY)
  }

  lemma AboutFits(x: Scene)
    requires Fits(x)
    ensures AllFit(x.was) && AllFit(x.now) && MetaEncodable(x.m)
  {
    hide AllFit, MetaEncodable, RecordEncodable, Replayable;
  }

  /** The log since the last checkpoint. */
  ghost function Recs(x: Scene): seq<Record>
  {
    [CheckpointRecord(x.m.checkpointLsn, x.m.root, x.m.freelistHead, x.m.next), x.op]
  }

  /** The disk before the checkpoint. */
  ghost function Was(x: Scene): Disk
    requires Fits(x)
  {
    Disk(PageFile(x.m, x.was), EncodedLog(Recs(x)))
  }

  /** The disk after the data fsync of the checkpoint. */
  ghost function Window(x: Scene): Disk
    requires Fits(x)
  {
    Disk(PageFile(x.m, x.now), EncodedLog(Recs(x)))
  }

  /** The disk before recovers to what the new blocks hold. */
  ghost predicate InWindow(x: Scene)
    requires Fits(x)
  {
    && Recovers(Was(x), TINY, x.m, Recs(x), [], ToMap(Contents(x.tree)))
    && MetaIs(Window(x).blocks, x.m) && LogOk(Window(x).log, Recs(x), [], TINY) && Repaired(x.m, Recs(x)) == x.m
    && StoredTree(TINY, Window(x).blocks, x.meta, x.tree, 1, x.chain)
  }

  lemma AboutWindow(x: Scene)
    requires Fits(x) && InWindow(x)
    ensures Recovers(Was(x), TINY, x.m, Recs(x), [], ToMap(Contents(x.tree)))
    ensures MetaIs(Window(x).blocks, x.m) && LogOk(Window(x).log, Recs(x), [], TINY) && Repaired(x.m, Recs(x)) == x.m
    ensures StoredTree(TINY, Window(x).blocks, x.meta, x.tree, 1, x.chain)
    ensures Window(x).blocks == PageFile(x.m, x.now) && |Window(x).blocks| == |x.now| + 1 && TINY.pageSize == 256 && !TINY.tight
  {
    hide Recovers, MetaIs, LogOk, Repaired, StoredTree, AllFit, MetaEncodable, Contents, ToMap, Recs, EncodedLog;
  }

  lemma OneOperation(x: Scene, s: Store)
    requires Fits(x)
    ensures LogOk(EncodedLog(Recs(x)), Recs(x), [], TINY) && Repaired(x.m, Recs(x)) == x.m && LastLsn(Recs(x)) == x.m.checkpointLsn + 1
    ensures Replayed(s, Recs(x), x.m.checkpointLsn) == Effect(s, x.op)
  {
    hide EncodedLog, Encodable, Effect;
    var recs := Recs(x);
    assert recs[..1] == [recs[0]] && recs[..1][..0] == [];
    assert EncodedLog(recs) + [] == EncodedLog(recs);
    assert Latest([recs[0]]) == Some(recs[0]) by { assert [recs[0]][..0] == []; }
    assert Replayed(s, [recs[0]], x.m.checkpointLsn) == s by { assert [recs[0]][..0] == []; }
    assert forall i :: 0 <= i < |recs| ==> RecordEncodable(recs[i]) && Replayable(recs[i], TINY) by { hide *; MarkerFits(x); }
  }

  lemma MarkerFits(x: Scene)
    requires Fits(x)
    ensures forall i :: 0 <= i < |Recs(x)| ==> RecordEncodable(Recs(x)[i]) && Replayable(Recs(x)[i], TINY)
  {
    hide LE;
  }

  lemma SceneOpens(x: Scene, root: Node, h: nat)
    requires Fits(x)
    requires StoredTree(TINY, PageFile(x.m, x.was), x.m, root, h, [])
    requires StoredTree(TINY, PageFile(x.m, x.now), x.meta, x.tree, 1, x.chain)
    requires Effect(ToMap(Contents(root)), x.op) == ToMap(Contents(x.tree))
    ensures InWindow(x)
  {
    hide StoredTree, LogOk, EncodedLog, Contents, ToMap, Effect, Replayed, Repaired, LastLsn, AllFit, PageFile, MetaEncodable, RecordEncodable,
      Replayable, MetaIs;
    OneOperation(x, ToMap(Contents(root)));
    FileReads(x.m, x.was);
    FileReads(x.m, x.now);
    assert Base(TINY, PageFile(x.m, x.was), x.m, Recs(x), ToMap(Contents(x.tree)), root, h, []);
    assert TINY.pageSize == 256;
  }

  lemma EmptyFreelist(file: seq<Bytes>, meta: Meta)
    requires 0 < meta.next <= |file| && meta.freelistHead == 0
    ensures PagerOk(256, file, meta, map[], {}, [])
    ensures FreelistRead(256, file, meta, [])
    ensures forall id: nat :: id in Live([], meta.next) <==> 0 < id < meta.next
  {
    hide DecodedPage;
    assert Flatten([]) == [];
  }

  lemma LastEntry(from: nat, to: nat)
    requires from < to <= 256
    ensures ToMap(Entries(from, to)) == ToMap(Entries(from, to - 1))[[to - 1] := Entry(to - 1).value]
    ensures ToMap(Entries(from, to)) - {[to - 1]} == ToMap(Entries(from, to - 1))
  {
    var all, front := Entries(from, to), Entries(from, to - 1);
    assert all[..|all| - 1] == front;
    hide ToMap;
    assert Lacks(front, [to - 1]);
    MapWithout(front, [to - 1]);
  }

  lemma FanMap(root: nat, parts: seq<Part>)
    requires Laid(parts)
    ensures parts[0].from <= parts[|parts| - 1].to
    ensures Contents(Fan(root, parts)) == Entries(parts[0].from, parts[|parts| - 1].to)
  {
    hide ContentsAll, FanBody, LeafAt;
    FanContents(root, parts, 0);
    assert Fan(root, parts).kids[0..] == Fan(root, parts).kids;
    assert FanBody(parts).Internal?;
  }

  lemma SmallPut(lsn: nat, key: nat)
    requires 0 < lsn < 100 && key < 256
    ensures var r := PutRecord(lsn, [key], Entry(key).value);
      RecordEncodable(r) && Replayable(r, TINY) && forall s :: Effect(s, r) == s[[key] := Entry(key).value]
  {
    hide LE;
  }

  lemma SmallDelete(lsn: nat, key: nat)
    requires 0 < lsn < 100 && key < 256
    ensures var r := DeleteRecord(lsn, [key]);
      RecordEncodable(r) && Replayable(r, TINY) && forall s :: Effect(s, r) == s - {[key]}
  {
    hide LE;
  }

  /** A tree in a file whose freelist is empty. */
  lemma FanAlone(disk: Meta, bodies: seq<Body>, meta: Meta, root: nat, parts: seq<Part>)
    requires AllFit(bodies) && MetaEncodable(disk) && Laid(parts) && NoDup([root] + PartIds(parts)) && Placed(bodies, root, parts)
    requires meta.root == root && meta.freelistHead == 0 && 0 < meta.next <= |bodies| + 1
    requires forall id :: id in Elements([root] + PartIds(parts)) ==> 0 < id < meta.next
    ensures StoredTree(TINY, PageFile(disk, bodies), meta, Fan(root, parts), 1, [])
  {
    hide *;
    EmptyFreelist(PageFile(disk, bodies), meta);
    FanIsStored(disk, bodies, meta, root, parts, []);
  }

  /** Root page 3 over leaves 1 and 2, and maybe 4. */
  lemma PageLists()
    ensures NoDup([3, 1, 2]) && Elements([3, 1, 2]) == {1, 2, 3}
    ensures NoDup([3, 1, 2, 4]) && Elements([3, 1, 2, 4]) == {1, 2, 3, 4}
  {
  }

  // ---- a page more, under the same root ----

  /** Leaves 1 and 2 under root 3; a sixth entry splits leaf 2, and the new leaf is page 4. */
  ghost function FullLeaf(): (parts: seq<Part>)
    ensures Laid(parts)
  {
    [Part(1, 1, 4), Part(2, 4, 9)]
  }

  ghost function SplitLeaf(): (parts: seq<Part>)
    ensures Laid(parts)
  {
    [Part(1, 1, 4), Part(2, 4, 7), Part(4, 7, 10)]
  }

  ghost function LeafSplit(): Scene
  {
    var p, q := FullLeaf(), SplitLeaf();
    Scene(Meta(256, 3, 4, 0, 6), PutRecord(7, [9], Entry(9).value),
          [LeafAt(p, 0).body, LeafAt(p, 1).body, FanBody(p)],
          [LeafAt(q, 0).body, LeafAt(q, 1).body, FanBody(q), LeafAt(q, 2).body],
          Meta(256, 3, 5, 0, 6), Fan(3, q), [])
  }

  lemma LeafSplitFits()
    ensures Fits(LeafSplit())
  {
    hide FanBody, LeafAt, Encodable, RecordEncodable, Replayable;
    FanFits(FullLeaf());
    FanFits(SplitLeaf());
    SmallPut(7, 9);
  }

  lemma LeafSplitFacts()
    ensures var x := LeafSplit();
      && x.m == Meta(256, 3, 4, 0, 6) && x.meta == Meta(256, 3, 5, 0, 6) && x.tree == Fan(3, SplitLeaf()) && x.chain == []
      && x.op == PutRecord(7, [9], Entry(9).value) && |x.was| == 3 && |x.now| == 4
      && Placed(x.was, 3, FullLeaf()) && Placed(x.now, 3, SplitLeaf())
    ensures [3] + PartIds(FullLeaf()) == [3, 1, 2] && [3] + PartIds(SplitLeaf()) == [3, 1, 2, 4]
    ensures FullLeaf()[0].from == SplitLeaf()[0].from == 1 && FullLeaf()[|FullLeaf()| - 1].to == 9 && SplitLeaf()[|SplitLeaf()| - 1].to == 10
  {
    hide LeafAt, FanBody, Fan;
  }

  lemma LeafSplitStored()
    ensures Fits(LeafSplit())
    ensures var x := LeafSplit();
      && StoredTree(TINY, PageFile(x.m, x.was), x.m, Fan(3, FullLeaf()), 1, [])
      && StoredTree(TINY, PageFile(x.m, x.now), x.meta, x.tree, 1, [])
  {
    hide *;
    var x := LeafSplit();
    LeafSplitFits();
    AboutFits(x);
    LeafSplitFacts();
    PageLists();
    FanAlone(x.m, x.was, x.m, 3, FullLeaf());
    FanAlone(x.m, x.now, x.meta, 3, SplitLeaf());
  }

  lemma LeafSplitOpens()
    ensures Fits(LeafSplit()) && InWindow(LeafSplit()) && LeafSplit().tree == Fan(3, SplitLeaf())
    ensures Contents(LeafSplit().tree) == Entries(1, 10)
  {
    hide *;
    LeafSplitStored();
    LeafSplitFacts();
    FanMap(3, FullLeaf());
    FanMap(3, SplitLeaf());
    LastEntry(1, 10);
    SmallPut(7, 9);
    SceneOpens(LeafSplit(), Fan(3, FullLeaf()), 1);
  }

  /**
   * Recovery still replays to the right store, as nothing of the tree is lost. But page 4 lies past the end for the
   * allocator it starts with, which hands that page out first: there is no database in order on this disk.
   */
  lemma LeafSplitIsUnsafe()
    ensures Fits(LeafSplit()) && InWindow(LeafSplit())
    ensures var x, start := LeafSplit(), Repaired(LeafSplit().m, Recs(LeafSplit()));
      && x.meta.root == start.root && x.meta != start
      && Replayed(ToMap(Contents(x.tree)), Recs(x), start.checkpointLsn) == ToMap(Contents(x.tree))
      && 4 in TreeIds(x.tree) && start.next == 4
      && FreelistRead(256, Window(x).blocks, start, []) && 4 !in Live([], start.next)
      && !AllocatorSafe(256, Window(x).blocks, start, TreeIds(x.tree))
      && Exposes(false, Window(x).blocks, 256, start, x.meta)
      && forall s :: !RecoversTo(Window(x), TINY, s)
  {
    hide *;
    var x := LeafSplit();
    LeafSplitOpens();
    AboutWindow(x);
    LeafSplitFacts();
    PageLists();
    FanPages(3, SplitLeaf());
    EmptyFreelist(Window(x).blocks, x.m);
    SafeIsLive(256, Window(x).blocks, x.m, TreeIds(x.tree), []);
    WindowExact(Was(x), TINY, x.m, Recs(x), ToMap(Contents(x.tree)), Window(x).blocks, x.meta, x.tree, 1, [], Window(x).log, []);
    ExposesExact(TINY, Window(x).blocks, x.meta, x.tree, 1, [], x.m);
    AboutHarmless(TINY, Window(x).blocks, x.m, x.meta, x.tree);
  }

  // ---- a page less ----

  /** Leaves 1, 2 and 4 under root 3; a deletion merges leaf 4 into leaf 2, and page 5 becomes the freelist. */
  ghost function ThreeLeaves(): (parts: seq<Part>)
    ensures Laid(parts)
  {
    [Part(1, 1, 3), Part(2, 3, 5), Part(4, 5, 7)]
  }

  ghost function MergedLeaf(): (parts: seq<Part>)
    ensures Laid(parts)
  {
    [Part(1, 1, 3), Part(2, 3, 6)]
  }

  ghost function LeafMerge(): Scene
  {
    var p, q := ThreeLeaves(), MergedLeaf();
    Scene(Meta(256, 3, 5, 0, 6), DeleteRecord(7, [6]),
          [LeafAt(p, 0).body, LeafAt(p, 1).body, FanBody(p), LeafAt(p, 2).body],
          [LeafAt(q, 0).body, LeafAt(q, 1).body, FanBody(q), LeafAt(p, 2).body, Freelist(0, [4])],
          Meta(256, 3, 6, 5, 6), Fan(3, q), [FreeNode(5, [4])])
  }

  lemma LeafMergeFits()
    ensures Fits(LeafMerge())
  {
    hide FanBody, LeafAt, RecordEncodable, Replayable, LeafSum, InternalSum;
    FanFits(ThreeLeaves());
    FanFits(MergedLeaf());
    SmallDelete(7, 6);
  }

  lemma LeafMergeFacts()
    ensures var x := LeafMerge();
      && x.m == Meta(256, 3, 5, 0, 6) && x.meta == Meta(256, 3, 6, 5, 6) && x.tree == Fan(3, MergedLeaf()) && x.chain == [FreeNode(5, [4])]
      && x.op == DeleteRecord(7, [6]) && |x.was| == 4 && |x.now| == 5 && x.now[4] == Freelist(0, [4])
      && Placed(x.was, 3, ThreeLeaves()) && Placed(x.now, 3, MergedLeaf())
    ensures [3] + PartIds(ThreeLeaves()) == [3, 1, 2, 4] && [3] + PartIds(MergedLeaf()) == [3, 1, 2]
    ensures ThreeLeaves()[0].from == MergedLeaf()[0].from == 1 && ThreeLeaves()[|ThreeLeaves()| - 1].to == 7 && MergedLeaf()[|MergedLeaf()| - 1].to == 6
  {
    hide LeafAt, FanBody, Fan;
  }

  lemma OneFreePage(m: Meta, bodies: seq<Body>, meta: Meta)
    requires AllFit(bodies) && MetaEncodable(m) && |bodies| == 5 && bodies[4] == Freelist(0, [4]) && meta.next == 6 && meta.freelistHead == 5
    ensures PagerOk(256, PageFile(m, bodies), meta, map[], {}, [FreeNode(5, [4])])
    ensures Live([FreeNode(5, [4])], 6) == {1, 2, 3}
  {
    hide *;
    FileReads(m, bodies);
    assert DecodedPage(PageFile(m, bodies)[4 + 1]) == Some(Page(0, bodies[4]));
    FileLength(m, bodies);
    FreePageFive(PageFile(m, bodies), meta);
  }

  lemma FileLength(m: Meta, bodies: seq<Body>)
    requires AllFit(bodies) && MetaEncodable(m)
    ensures |PageFile(m, bodies)| == |bodies| + 1
  {
    hide AllFit, MetaEncodable;
  }

  lemma FreePageFive(file: seq<Bytes>, meta: Meta)
    requires |file| == 6 && DecodedPage(file[5]) == Some(Page(0, Freelist(0, [4]))) && meta.next == 6 && meta.freelistHead == 5
    ensures PagerOk(256, file, meta, map[], {}, [FreeNode(5, [4])])
    ensures Live([FreeNode(5, [4])], 6) == {1, 2, 3}
  {
    hide DecodedPage;
    var chain := [FreeNode(5, [4])];
    assert chain[1..] == [] && Flatten([]) == [];
    assert Flatten(chain) == [5, 4];
    assert StackOk(Flatten(chain), 6);
    assert IsFreePage(Staged(map[], file, 5), chain[0], 0, 256);
    assert ChainOk(chain[1..], map[], file, 256) && ChainHead(chain[1..]) == 0;
    assert ChainOk(chain, map[], file, 256);
    assert CacheOk(chain, map[], {}, file);
  }

  lemma LeafMergeStored()
    ensures Fits(LeafMerge())
    ensures var x := LeafMerge();
      && StoredTree(TINY, PageFile(x.m, x.was), x.m, Fan(3, ThreeLeaves()), 1, [])
      && StoredTree(TINY, PageFile(x.m, x.now), x.meta, x.tree, 1, x.chain)
  {
    hide *;
    var x := LeafMerge();
    LeafMergeFits();
    AboutFits(x);
    LeafMergeFacts();
    PageLists();
    OneFreePage(x.m, x.now, x.meta);
    FanAlone(x.m, x.was, x.m, 3, ThreeLeaves());
    FanIsStored(x.m, x.now, x.meta, 3, MergedLeaf(), x.chain);
  }

  lemma LeafMergeOpens()
    ensures Fits(LeafMerge()) && InWindow(LeafMerge()) && LeafMerge().tree == Fan(3, MergedLeaf())
  {
    hide *;
    LeafMergeStored();
    LeafMergeFacts();
    FanMap(3, ThreeLeaves());
    FanMap(3, MergedLeaf());
    LastEntry(1, 7);
    SmallDelete(7, 6);
    SceneOpens(LeafMerge(), Fan(3, ThreeLeaves()), 1);
  }

  /**
   * Next page id and freelist head have moved on, and yet this disk recovers to the right store: all that is lost is
   * page 4, which is neither free nor in the tree.
   */
  lemma LeafMergeOnlyLeaks()
    ensures Fits(LeafMerge()) && InWindow(LeafMerge())
    ensures var x, start := LeafMerge(), Repaired(LeafMerge().m, Recs(LeafMerge()));
      && x.meta.next != start.next && x.meta.freelistHead != start.freelistHead
      && RecoversOn(Window(x), TINY, x.tree, ToMap(Contents(x.tree)))
      && !Exposes(false, Window(x).blocks, 256, start, x.meta)
      && start.freelistHead == 0 && Live([], start.next) - TreeIds(x.tree) == {4}
      && forall s :: RecoversTo(Window(x), TINY, s) <==> s == ToMap(Contents(x.tree))
  {
    hide *;
    var x := LeafMerge();
    LeafMergeOpens();
    AboutWindow(x);
    LeafMergeFacts();
    PageLists();
    FanPages(3, MergedLeaf());
    EmptyFreelist(Window(x).blocks, x.m);
    SafeIsLive(256, Window(x).blocks, x.m, TreeIds(x.tree), []);
    WindowExact(Was(x), TINY, x.m, Recs(x), ToMap(Contents(x.tree)), Window(x).blocks, x.meta, x.tree, 1, x.chain, Window(x).log, []);
    ExposesExact(TINY, Window(x).blocks, x.meta, x.tree, 1, x.chain, x.m);
    AboutHarmless(TINY, Window(x).blocks, x.m, x.meta, x.tree);
  }

  // ---- a new root ----

  /** Root leaf 1 has five entries; a sixth splits it, into leaves 1 and 2 under root 3. */
  ghost function SplitRoot(): (parts: seq<Part>)
    ensures Laid(parts)
  {
    [Part(1, 1, 4), Part(2, 4, 7)]
  }

  ghost function FullRoot(): Node { Node(1, Leaf(0, Entries(1, 6)), []) }

  ghost function RootSplit(): Scene
  {
    var q := SplitRoot();
    Scene(Meta(256, 1, 2, 0, 6), PutRecord(7, [6], Entry(6).value), [FullRoot().body], [LeafAt(q, 0).body, LeafAt(q, 1).body, FanBody(q)],
          Meta(256, 3, 4, 0, 6), Fan(3, q), [])
  }

  lemma RootSplitFits()
    ensures Fits(RootSplit())
  {
    hide FanBody, LeafAt, RecordEncodable, Replayable, LeafSum, InternalSum;
    FanFits(SplitRoot());
    EntriesSum(1, 6);
    SmallPut(7, 6);
  }

  lemma RootSplitFacts()
    ensures var x := RootSplit();
      && x.m == Meta(256, 1, 2, 0, 6) && x.meta == Meta(256, 3, 4, 0, 6) && x.tree == Fan(3, SplitRoot()) && x.chain == []
      && x.op == PutRecord(7, [6], Entry(6).value) && x.was == [FullRoot().body] && |x.now| == 3 && Placed(x.now, 3, SplitRoot())
    ensures [3] + PartIds(SplitRoot()) == [3, 1, 2] && SplitRoot()[0].from == 1 && SplitRoot()[|SplitRoot()| - 1].to == 7
  {
    hide LeafAt, FanBody, Fan;
  }

  lemma FullRootIsOk()
    ensures Shape(TINY, FullRoot(), 0, 0.0, 1.0, 0) && RootHealthy(TINY, FullRoot().body)
    ensures TreeIds(FullRoot()) == {1} && Ids(FullRoot()) == multiset{1}
  {
    hide Rank, LeafSum;
    EntriesSum(1, 6);
    forall a, b | 1 <= a < b < 6 ensures Rank([a]) < Rank([b]) { OneByteRank(a, b); }
    assert IdsAll([]) == multiset{};
  }

  lemma FullRootStored(m: Meta)
    requires m.root == 1 && m.next == 2 && m.freelistHead == 0 && MetaEncodable(m) && AllFit([FullRoot().body])
    ensures StoredTree(TINY, PageFile(m, [FullRoot().body]), m, FullRoot(), 0, [])
  {
    hide PagerOk, StoredTree, Live, TreeIds, Ids, Shape, RootHealthy, DiskView, Entries, FreelistRead, MetaEncodable, Encodable;
    EmptyFreelist(PageFile(m, [FullRoot().body]), m);
    FullRootIsOk();
    FileReads(m, [FullRoot().body]);
    IsStored(TINY, PageFile(m, [FullRoot().body]), m, FullRoot(), 0, []);
  }

  lemma RootSplitStored()
    ensures Fits(RootSplit())
    ensures var x := RootSplit();
      && StoredTree(TINY, PageFile(x.m, x.was), x.m, FullRoot(), 0, [])
      && StoredTree(TINY, PageFile(x.m, x.now), x.meta, x.tree, 1, [])
  {
    hide *;
    var x := RootSplit();
    RootSplitFits();
    AboutFits(x);
    RootSplitFacts();
    PageLists();
    FullRootStored(x.m);
    FanAlone(x.m, x.now, x.meta, 3, SplitRoot());
  }

  lemma RootSplitOpens()
    ensures Fits(RootSplit()) && InWindow(RootSplit()) && RootSplit().tree == Fan(3, SplitRoot())
    ensures Contents(RootSplit().tree) == Entries(1, 7)
  {
    hide *;
    RootSplitStored();
    RootSplitFacts();
    FanMap(3, SplitRoot());
    LastEntry(1, 7);
    SmallPut(7, 6);
    FullRootHolds();
    SceneOpens(RootSplit(), FullRoot(), 0);
  }

  lemma FullRootHolds()
    ensures Contents(FullRoot()) == Entries(1, 6)
  {
  }

  /** Keys 4 and 5 were stored before the last checkpoint; no database is in order on this disk, and replay misses them. */
  lemma RootSplitIsUnsafe(key: nat)
    requires 4 <= key <= 5
    ensures Fits(RootSplit()) && InWindow(RootSplit())
    ensures var x, start := RootSplit(), Repaired(RootSplit().m, Recs(RootSplit()));
      && start.root in TreeIds(x.tree) && start.root != x.meta.root
      && [key] in ToMap(Contents(x.tree))
      && start.root in DiskView(Window(x).blocks) && DiskView(Window(x).blocks)[start.root].Leaf?
      && [key] !in Replayed(ToMap(DiskView(Window(x).blocks)[start.root].entries), Recs(x), start.checkpointLsn)
      && forall s :: !RecoversTo(Window(x), TINY, s)
  {
    hide *;
    var x := RootSplit();
    RootSplitOpens();
    AboutWindow(x);
    RootSplitFacts();
    PageLists();
    FanPages(3, SplitRoot());
    FirstLeafOfRoot(key);
    IsRootSplit(Window(x).blocks, x.meta, x.tree, x.chain);
    RootSplitLosesKeys(TINY, Window(x).blocks, Window(x).log, x.m, Recs(x), [], x.meta, x.tree, [], key - 1);
  }

  lemma FirstLeafOfRoot(key: nat)
    requires 4 <= key <= 5
    ensures var kids := Fan(3, SplitRoot()).kids;
      kids != [] && kids[0].id == 1 && kids[0].body.Leaf? && |kids[0].body.entries| == 3
    ensures Entries(1, 7)[key - 1].key == [key] && |Entries(1, 7)| == 6
    ensures NotPut(Recs(RootSplit()), 6, [key])
  {
    hide FanBody;
    assert Fan(3, SplitRoot()).kids[0] == LeafAt(SplitRoot(), 0);
  }

  lemma IsRootSplit(blocks: seq<Bytes>, meta: Meta, root: Node, chain: seq<FreeNode>)
    requires StoredTree(TINY, blocks, meta, root, 1, chain) && root.kids != []
    ensures RootWasSplit(TINY, blocks, root.kids[0].id, meta, root, chain)
  {
    hide StoredTree;
  }
}
