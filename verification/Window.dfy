/**
 * The window of a checkpoint between the data fsync and the end of the CHECKPOINT append: the blocks are new, the meta
 * page and the log are old. Exactly when recovery replays on the updated tree, exactly when page ids are lost, and what
 * is left of the store when the old root page has become a page further down.
 */
module CheckpointWindow {
  import opened Bytes
  import opened Entities
  import opened Codec
  import opened MetaCodec
  import opened WalCodec
  import opened Logging
  import opened Devices
  import opened Paging
  import opened Cache
  import opened TreeModel
  import opened Cascading
  import opened TreeMaps
  import opened FlushFacts
  import opened Durability
  import opened AllocatorSafety

  // ---- what is on disk determines what is read from it ----

  /** A log parses in one way only. */
  lemma OneParse(log: Bytes, recs: seq<Record>, tail: Bytes, c: Config, recs': seq<Record>, tail': Bytes)
    requires LogOk(log, recs, tail, c) && LogOk(log, recs', tail', c)
    ensures recs == recs'
  {
    hide Iterate, EncodedLog, GoodLog, Torn, Replayable;
    ReadsWhole(recs, tail);
    ReadsWhole(recs', tail');
  }

  /** Pages of the freelist that lost their place in it and are free now: never written since. */
  ghost predicate Unwritten(was: seq<Bytes>, blocks: seq<Bytes>, chain: seq<FreeNode>)
  {
    forall id :: id in Flatten(chain) && !InChain(chain, id) && id < |was| && id < |blocks| ==> blocks[id] == was[id]
  }

  /** Live pages are no freelist pages. */
  ghost predicate LiveNotFree(blocks: seq<Bytes>, live: set<nat>)
  {
    forall id :: id in live && id < |blocks| && DecodedPage(blocks[id]).Some? ==> !DecodedPage(blocks[id]).value.body.Freelist?
  }

  /**
   * `now` is the freelist in the new blocks, which has lost head pages of `saved`, the one in the old blocks. If the new
   * blocks still hold a freelist that starts with the old head page, then no head page was lost.
   */
  lemma {:induction false} HeadStays(saved: seq<FreeNode>, was: seq<Bytes>, now: seq<FreeNode>, blocks: seq<Bytes>, found: seq<FreeNode>,
                                     pageSize: nat, next: nat)
    requires ChainOk(saved, map[], was, pageSize) && StackOk(Flatten(saved), next)
    requires ChainOk(now, map[], blocks, pageSize) && StackOk(Flatten(now), next) && ShrunkFrom(now, saved)
    requires ChainOk(found, map[], blocks, pageSize) && StackOk(Flatten(found), next) && ChainHead(found) == ChainHead(saved)
    requires Unwritten(was, blocks, now) && LiveNotFree(blocks, Live(now, next))
    ensures found == now && |now| == |saved|
    decreases |saved|
  {
    hide DecodedPage, Flatten, Unwritten, LiveNotFree, NoDup;
    HeadZero(saved, next);
    HeadZero(found, next);
    if |now| == |saved| {
      HeadZero(now, next);
      OneChain(found, now, blocks, pageSize, next);
    } else {
      var id := saved[0].id;
      StackTail(saved, next);
      StackTail(found, next);
      NotAmong(saved, now, next);
      OldHeadIsFree(found, now, blocks, pageSize, next);
      OldHeadReads(saved, was, now, blocks, found, pageSize);
      assert ShrunkFrom(now, saved[1..]) by { ShrinksFurther(now, saved); }
      HeadStays(saved[1..], was, now, blocks, found[1..], pageSize, next);
      assert false;
    }
  }

  lemma ShrinksFurther(now: seq<FreeNode>, saved: seq<FreeNode>)
    requires ShrunkFrom(now, saved) && |now| < |saved|
    ensures ShrunkFrom(now, saved[1..])
    ensures forall id :: InChain(now, id) ==> InChain(saved[1..], id)
  {
    var t := saved[1..];
    forall i | 0 <= i < |now| ensures now[i].id == t[|t| - |now| + i].id {
      assert t[|t| - |now| + i] == saved[|saved| - |now| + i];
    }
    assert ShrunkFrom(now, t);
    forall id | InChain(now, id) ensures InChain(t, id) {
      var i :| 0 <= i < |now| && now[i].id == id;
      assert t[|t| - |now| + i].id == id;
    }
  }

  /** The old head page is none of the pages that are left. */
  lemma NotAmong(saved: seq<FreeNode>, now: seq<FreeNode>, next: nat)
    requires StackOk(Flatten(saved), next) && ShrunkFrom(now, saved) && |now| < |saved|
    ensures !InChain(now, saved[0].id)
  {
    hide Flatten, StackOk, InChain, ShrunkFrom;
    StackTail(saved, next);
    ShrinksFurther(now, saved);
    if InChain(saved[1..], saved[0].id) {
      ChainInStack(saved[1..], saved[0].id);
      assert false;
    }
  }

  lemma OldHeadIsFree(found: seq<FreeNode>, now: seq<FreeNode>, blocks: seq<Bytes>, pageSize: nat, next: nat)
    requires found != [] && ChainOk(found, map[], blocks, pageSize) && 0 < found[0].id < next && LiveNotFree(blocks, Live(now, next))
    ensures found[0].id in Flatten(now)
  {
    hide DecodedPage, Flatten;
    var id := found[0].id;
    assert IsFreePage(Staged(map[], blocks, id), found[0], ChainHead(found[1..]), pageSize);
    assert id in Flatten(now) || id in Live(now, next);
  }

  /** Not written since, the old head page still links to the page after it. */
  lemma OldHeadReads(saved: seq<FreeNode>, was: seq<Bytes>, now: seq<FreeNode>, blocks: seq<Bytes>, found: seq<FreeNode>, pageSize: nat)
    requires saved != [] && found != [] && found[0].id == saved[0].id
    requires ChainOk(saved, map[], was, pageSize) && ChainOk(found, map[], blocks, pageSize)
    requires Unwritten(was, blocks, now) && found[0].id in Flatten(now) && !InChain(now, found[0].id)
    ensures ChainHead(found[1..]) == ChainHead(saved[1..])
    ensures ChainOk(saved[1..], map[], was, pageSize) && ChainOk(found[1..], map[], blocks, pageSize)
  {
    hide DecodedPage, Flatten, InChain;
    var id := found[0].id;
    assert id < |was| && id < |blocks| && blocks[id] == was[id];
  }

  // ---- the tree ----

  /** A page store and a page id determine the subtree. */
  lemma {:induction false} OneSubtree(c: Config, v: Pages, n: Node, h: nat, lo: real, hi: real, next: nat,
                                      m: Node, g: nat, lo': real, hi': real, next': nat)
    requires Shape(c, n, h, lo, hi, next) && Holds(v, n) && Shape(c, m, g, lo', hi', next') && Holds(v, m) && n.id == m.id
    ensures n == m
    decreases h
  {
    hide Rank, KidLo, KidHi, KidNext, KeyFits, EntryFits, Healthy, SortedSlots, SortedEntries;
    assert n.body == m.body;
    assert h == 0 <==> g == 0;
    if h > 0 {
      assert |n.kids| == |m.kids|;
      forall i | 0 <= i < |n.kids| ensures n.kids[i] == m.kids[i] {
        assert KidOk(c, n, i, h, lo, hi, next) && KidOk(c, m, i, g, lo', hi', next');
        if i > 0 {
          assert n.body.slots[i - 1].child == n.kids[i].id && m.body.slots[i - 1].child == m.kids[i].id;
        }
        OneSubtree(c, v, n.kids[i], h - 1, KidLo(n.body.slots, i, lo), KidHi(n.body.slots, i, hi), KidNext(n.kids, i, next),
                   m.kids[i], g - 1, KidLo(m.body.slots, i, lo'), KidHi(m.body.slots, i, hi'), KidNext(m.kids, i, next'));
      }
      assert n.kids == m.kids;
    }
  }

  /** Below the root of a tree every subtree has fewer pages. */
  lemma {:induction false} SubtreeOf(c: Config, v: Pages, n: Node, h: nat, lo: real, hi: real, next: nat, m: Node, g: nat, lo': real, hi': real, next': nat)
    requires Shape(c, n, h, lo, hi, next) && Holds(v, n) && Shape(c, m, g, lo', hi', next') && Holds(v, m) && m.id in Ids(n)
    ensures m == n || |Ids(m)| < |Ids(n)|
    ensures |Ids(m)| <= |Ids(n)|
    decreases h
  {
    hide Shape, Holds, Rank, KidLo, KidHi, KidNext;
    if m.id == n.id {
      OneSubtree(c, v, n, h, lo, hi, next, m, g, lo', hi', next');
    } else {
      assert m.id in IdsAll(n.kids);
      var i := IdsSource(n.kids, m.id);
      if h == 0 { LeafHasNoKids(c, n, lo, hi, next); }
      KidShape(c, n, h, lo, hi, next, i);
      KidHeld(v, n, i);
      SubtreeOf(c, v, n.kids[i], h - 1, KidLo(n.body.slots, i, lo), KidHi(n.body.slots, i, hi), KidNext(n.kids, i, next), m, g, lo', hi', next');
      FewerIds(n, i);
    }
  }

  lemma KidHeld(v: Pages, n: Node, i: nat)
    requires Holds(v, n) && i < |n.kids|
    ensures Holds(v, n.kids[i])
  {
  }

  /** One set of pages is the tree of one root only. */
  lemma OneRoot(c: Config, v: Pages, live: set<nat>, rootId: nat, root: Node, h: nat, rootId': nat, root': Node, h': nat)
    requires Consistent(c, v, live, rootId, root, h) && Consistent(c, v, live, rootId', root', h')
    ensures rootId == rootId' && root == root'
  {
    hide Shape, Holds, RootHealthy;
    assert root'.id in Ids(root');
    SubtreeOf(c, v, root, h, 0.0, 1.0, 0, root', h', 0.0, 1.0, 0);
  }

  lemma TreePagesAreNotFree(c: Config, blocks: seq<Bytes>, live: set<nat>, rootId: nat, root: Node, h: nat, limit: nat)
    requires Consistent(c, DiskView(blocks), live, rootId, root, h) && 0 < limit && forall id :: id in live ==> id < limit
    ensures LiveNotFree(blocks, live)
  {
    hide Shape, Holds, Ids, DecodedPage, PageSize, Underfull;
    TreeLinks(c, DiskView(blocks), root, h, 0.0, 1.0, 0, limit);
    forall id | id in live && id < |blocks| && DecodedPage(blocks[id]).Some?
      ensures !DecodedPage(blocks[id]).value.body.Freelist?
    {
      assert id in multiset(live) && id in DiskView(blocks);
    }
  }

  // ---- replaying on the updated tree ----

  /** Replaying the log on the updated tree changes nothing, wherever that tree is found. */
  lemma ReplayedAgain(d: Disk, c: Config, m: Meta, recs: seq<Record>, store: Store)
    requires Recovers(d, c, m, recs, [], store)
    ensures Replayed(store, recs, Repaired(m, recs).checkpointLsn) == store
  {
    hide MetaIs, StoredTree, Replayed, Contents, ToMap, LogOk, Repaired, LastLsn;
    var r0, h0, c0 :| Base(c, d.blocks, Repaired(m, recs), recs, store, r0, h0, c0);
    ReplayIsIdempotent(ToMap(Contents(r0)), recs, Repaired(m, recs).checkpointLsn);
  }

  /** What these blocks recover to is read with the meta they started from. */
  lemma ReadWith(blocks: seq<Bytes>, log: Bytes, c: Config, m: Meta, recs: seq<Record>, tail: Bytes, s: Store)
      returns (root': Node, h': nat, chain': seq<FreeNode>)
    requires MetaIs(blocks, m) && LogOk(log, recs, tail, c) && RecoversTo(Disk(blocks, log), c, s)
    ensures Base(c, blocks, Repaired(m, recs), recs, s, root', h', chain')
  {
    hide LogOk, Base, Latest, LastLsn, DecodedMeta;
    var m', recs', tail' :| Recovers(Disk(blocks, log), c, m', recs', tail', s);
    OneParse(log, recs, tail, c, recs', tail');
    assert m' == m;
    root', h', chain' :| Base(c, blocks, Repaired(m, recs), recs, s, root', h', chain');
  }

  lemma FoundWith(blocks: seq<Bytes>, log: Bytes, c: Config, m: Meta, recs: seq<Record>, tail: Bytes, root: Node, s: Store)
      returns (h': nat, chain': seq<FreeNode>)
    requires MetaIs(blocks, m) && LogOk(log, recs, tail, c) && RecoversOn(Disk(blocks, log), c, root, s)
    ensures Base(c, blocks, Repaired(m, recs), recs, s, root, h', chain')
  {
    hide LogOk, Base, Latest, LastLsn, DecodedMeta;
    var m', recs', tail', h1, c1 :| FoundAt(Disk(blocks, log), c, m', recs', tail', root, h1, c1, s);
    OneParse(log, recs, tail, c, recs', tail');
    assert m' == m;
    h', chain' := h1, c1;
  }

  /** A stored tree read there has this root page, and an allocator in order around it. */
  lemma StoredParts(c: Config, blocks: seq<Bytes>, start: Meta, root: Node, h: nat, chain: seq<FreeNode>)
    requires StoredTree(c, blocks, start, root, h, chain)
    ensures root.id == start.root && AllocatorSafe(c.pageSize, blocks, start, TreeIds(root))
  {
    hide Shape, Holds, RootHealthy, ChainOk, StackOk, Flatten, Ids, DiskView, TreeIds, Live, ChainHead;
    assert FreelistRead(c.pageSize, blocks, start, chain);
  }

  /** The updated tree under another meta: it is a stored tree there as soon as the allocator leaves it alone. */
  lemma StoredUnder(c: Config, blocks: seq<Bytes>, meta: Meta, root: Node, h: nat, chain: seq<FreeNode>, start: Meta) returns (found: seq<FreeNode>)
    requires StoredTree(c, blocks, meta, root, h, chain) && meta.root == start.root && !c.tight
    requires AllocatorSafe(c.pageSize, blocks, start, TreeIds(root))
    ensures StoredTree(c, blocks, start, root, h, found)
  {
    hide NoneLeaked, Consistent, ChainOk, StackOk, Flatten, DiskView, TreeIds, Live, ChainHead;
    found :| FreelistRead(c.pageSize, blocks, start, found) && TreeIds(root) <= Live(found, start.next);
  }

  lemma SameTreeRead(c: Config, blocks: seq<Bytes>, meta: Meta, root: Node, h: nat, chain: seq<FreeNode>,
                     start: Meta, root': Node, h': nat, chain': seq<FreeNode>)
    requires StoredTree(c, blocks, meta, root, h, chain) && StoredTree(c, blocks, start, root', h', chain') && meta.root == start.root
    ensures root == root'
  {
    hide PagerOk, Shape, Holds, RootHealthy, DiskView, Ids, TreeIds, Live;
    OneSubtree(c, DiskView(blocks), root, h, 0.0, 1.0, 0, root', h', 0.0, 1.0, 0);
  }

  lemma IsFoundAt(blocks: seq<Bytes>, d: Disk, log: Bytes, c: Config, m: Meta, recs: seq<Record>, store: Store, tail: Bytes,
                  root: Node, h: nat, chain: seq<FreeNode>)
    requires Recovers(d, c, m, recs, [], store) && MetaIs(blocks, m) && LogOk(log, recs, tail, c)
    requires Base(c, blocks, Repaired(m, recs), recs, store, root, h, chain)
    ensures RecoversOn(Disk(blocks, log), c, root, store) && RecoversTo(Disk(blocks, log), c, store)
  {
    hide LogOk, Base, Repaired, LastLsn, DecodedMeta;
    assert FoundAt(Disk(blocks, log), c, m, recs, tail, root, h, chain, store);
    assert Recovers(Disk(blocks, log), c, m, recs, tail, store);
  }

  /**
   * Page ids may be leaked. A crash in the window, with any torn part of the CHECKPOINT record in the log. Replaying on the updated tree is
   * harmless in itself. Recovery does replay on that tree, with an allocator that leaves its pages alone, exactly when
   * the root page is the one recovery starts from and no page of the tree is free or past the end for the allocator
   * recovery starts with. With that root page, recovery arrives at the right store or finds no database in order.
   */
  lemma WindowExact(d: Disk, c: Config, m: Meta, recs: seq<Record>, store: Store,
                    blocks: seq<Bytes>, meta: Meta, root: Node, h: nat, chain: seq<FreeNode>, log: Bytes, tail: Bytes)
    requires Recovers(d, c, m, recs, [], store) && MetaIs(blocks, m) && LogOk(log, recs, tail, c)
    requires StoredTree(c, blocks, meta, root, h, chain) && ToMap(Contents(root)) == store && !c.tight
    ensures var start := Repaired(m, recs);
      && Replayed(ToMap(Contents(root)), recs, start.checkpointLsn) == store
      && (RecoversOn(Disk(blocks, log), c, root, store) <==>
            meta.root == start.root && AllocatorSafe(c.pageSize, blocks, start, TreeIds(root)))
    ensures meta.root == Repaired(m, recs).root ==> forall s ::
      RecoversTo(Disk(blocks, log), c, s) <==> s == store && AllocatorSafe(c.pageSize, blocks, Repaired(m, recs), TreeIds(root))
  {
    hide *;
    var start := Repaired(m, recs);
    var safe := AllocatorSafe(c.pageSize, blocks, start, TreeIds(root));
    ReplayedAgain(d, c, m, recs, store);
    StoredParts(c, blocks, meta, root, h, chain);
    if meta.root == start.root && safe {
      var found := StoredUnder(c, blocks, meta, root, h, chain, start);
      AboutBase(c, blocks, start, recs, store, root, h, found);
      IsFoundAt(blocks, d, log, c, m, recs, store, tail, root, h, found);
    }
    if RecoversOn(Disk(blocks, log), c, root, store) {
      var h', chain' := FoundWith(blocks, log, c, m, recs, tail, root, store);
      AboutBase(c, blocks, start, recs, store, root, h', chain');
      StoredParts(c, blocks, start, root, h', chain');
    }
    if meta.root == start.root {
      forall s | RecoversTo(Disk(blocks, log), c, s) ensures s == store && safe {
        var root', h', chain' := ReadWith(blocks, log, c, m, recs, tail, s);
        AboutBase(c, blocks, start, recs, s, root', h', chain');
        SameTreeRead(c, blocks, meta, root, h, chain, start, root', h', chain');
        StoredParts(c, blocks, start, root', h', chain');
      }
    }
  }

  lemma AboutBase(c: Config, blocks: seq<Bytes>, meta: Meta, recs: seq<Record>, store: Store, root: Node, h: nat, chain: seq<FreeNode>)
    ensures Base(c, blocks, meta, recs, store, root, h, chain) <==>
      StoredTree(c, blocks, meta, root, h, chain) && store == Replayed(ToMap(Contents(root)), recs, meta.checkpointLsn)
  {
    hide StoredTree, Replayed, Contents, ToMap;
  }

  // ---- page ids ----

  /** What the pager remembers of the last checkpoint is what a recovery would start from. */
  ghost predicate SavedOk(saved: Saved, blocks: seq<Bytes>, meta: Meta, pageSize: nat)
  {
    && saved.Saved? && saved.file == blocks && saved.next == meta.next
    && ChainOk(saved.chain, map[], blocks, pageSize) && ChainHead(saved.chain) == meta.freelistHead
    && StackOk(Flatten(saved.chain), meta.next)
  }

  /** The new blocks hold a tree under `meta`. If they also hold one under `start`, and neither leaks, the two agree. */
  lemma SameMeta(c: Config, saved: Saved, was: seq<Bytes>, start: Meta, blocks: seq<Bytes>, file: seq<Bytes>, meta: Meta,
                 root: Node, h: nat, chain: seq<FreeNode>, root': Node, h': nat, chain': seq<FreeNode>)
    requires SavedOk(saved, was, start, c.pageSize) && SinceSaved(saved, file, meta.next, chain) && Unwritten(was, blocks, chain)
    requires c.tight && StoredTree(c, blocks, meta, root, h, chain) && StoredTree(c, blocks, start, root', h', chain')
    ensures meta.root == start.root && meta.next == start.next && meta.freelistHead == start.freelistHead
  {
    hide Consistent, ChainOk, StackOk, Flatten, DiskView, Live, Unwritten, TreeIds;
    LiveBelow(chain, meta.next);
    TreePagesAreNotFree(c, blocks, Live(chain, meta.next), meta.root, root, h, meta.next);
    HeadStays(saved.chain, was, chain, blocks, chain', c.pageSize, meta.next);
    OneRoot(c, DiskView(blocks), Live(chain, meta.next), meta.root, root, h, start.root, root', h');
  }

  lemma LiveBelow(chain: seq<FreeNode>, next: nat)
    ensures forall id :: id in Live(chain, next) ==> id < next
  {
  }

  /**
   * No page id may be leaked. A crash in the window, with any torn part of the CHECKPOINT record in the log, leaves a
   * database that leaks none exactly when root, next page id and freelist head are those recovery starts from.
   */
  lemma WindowLeaksNothing(d: Disk, c: Config, m: Meta, recs: seq<Record>, store: Store, saved: Saved, file: seq<Bytes>,
                           blocks: seq<Bytes>, meta: Meta, root: Node, h: nat, chain: seq<FreeNode>, log: Bytes, tail: Bytes)
    requires Recovers(d, c, m, recs, [], store) && MetaIs(blocks, m) && LogOk(log, recs, tail, c)
    requires StoredTree(c, blocks, meta, root, h, chain) && ToMap(Contents(root)) == store && c.tight
    requires SavedOk(saved, d.blocks, Repaired(m, recs), c.pageSize) && SinceSaved(saved, file, meta.next, chain) && Unwritten(d.blocks, blocks, chain)
    requires meta.pageSize == m.pageSize && meta.checkpointLsn == Repaired(m, recs).checkpointLsn
    ensures RecoversOn(Disk(blocks, log), c, root, store) <==> meta == Repaired(m, recs)
    ensures RecoversTo(Disk(blocks, log), c, store) <==> meta == Repaired(m, recs)
    ensures (exists s :: RecoversTo(Disk(blocks, log), c, s)) <==> meta == Repaired(m, recs)
  {
    hide *;
    var start := Repaired(m, recs);
    StartSize(m, recs);
    if meta == start {
      ReplayedAgain(d, c, m, recs, store);
      AboutBase(c, blocks, start, recs, store, root, h, chain);
      IsFoundAt(blocks, d, log, c, m, recs, store, tail, root, h, chain);
    }
    forall s | RecoversTo(Disk(blocks, log), c, s) ensures meta == start {
      var root', h', chain' := ReadWith(blocks, log, c, m, recs, tail, s);
      AboutBase(c, blocks, start, recs, s, root', h', chain');
      SameMeta(c, saved, d.blocks, start, blocks, file, meta, root, h, chain, root', h', chain');
    }
    if RecoversOn(Disk(blocks, log), c, root, store) {
      var h', chain' := FoundWith(blocks, log, c, m, recs, tail, root, store);
      AboutBase(c, blocks, start, recs, store, root, h', chain');
      SameMeta(c, saved, d.blocks, start, blocks, file, meta, root, h, chain, root, h', chain');
    }
  }

  lemma StartSize(m: Meta, recs: seq<Record>)
    ensures Repaired(m, recs).pageSize == m.pageSize
  {
    hide Latest;
  }

  // ---- the old root page further down ----

  /** No put of this key is replayed. */
  ghost predicate NotPut(recs: seq<Record>, after: nat, key: Bytes)
  {
    forall i :: 0 <= i < |recs| && recs[i].PutRecord? && recs[i].lsn > after ==> recs[i].key != key
  }

  lemma {:induction false} NotReplayed(s: Store, recs: seq<Record>, after: nat, key: Bytes)
    requires key !in s && NotPut(recs, after, key)
    ensures key !in Replayed(s, recs, after)
  {
    if recs != [] { NotReplayed(s, recs[..|recs| - 1], after, key); }
  }

  /** Below the root no leaf is empty, so no subtree is. */
  lemma {:induction false} SubtreeHasEntries(c: Config, n: Node, h: nat, lo: real, hi: real, next: nat)
    requires Shape(c, n, h, lo, hi, next) && Healthy(c, n.body) && c.pageSize >= 256
    ensures Contents(n) != []
    decreases h
  {
    hide Rank, KidLo, KidHi, KidNext, SortedSlots, KeyFits, EntryFits, SortedEntries;
    if h > 0 {
      assert KidOk(c, n, 0, h, lo, hi, next);
      SubtreeHasEntries(c, n.kids[0], h - 1, KidLo(n.body.slots, 0, lo), KidHi(n.body.slots, 0, hi), KidNext(n.kids, 0, next));
    }
  }

  lemma ChildOf(c: Config, v: Pages, n: Node, h: nat, lo: real, hi: real, next: nat, i: nat)
    requires Shape(c, n, h, lo, hi, next) && Holds(v, n) && h > 0 && i < |n.kids|
    ensures n.body.Internal? && |n.kids| == |n.body.slots| + 1
    ensures Healthy(c, n.kids[i].body) && Holds(v, n.kids[i])
    ensures Shape(c, n.kids[i], h - 1, KidLo(n.body.slots, i, lo), KidHi(n.body.slots, i, hi), KidNext(n.kids, i, next))
  {
    hide Rank, KidLo, KidHi, KidNext, SortedSlots, KeyFits, Healthy;
    assert KidOk(c, n, i, h, lo, hi, next);
  }

  /** The entries of a subtree are a stretch of the entries of the tree, and below the root not all of them. */
  lemma {:induction false} StretchOf(c: Config, v: Pages, n: Node, h: nat, lo: real, hi: real, next: nat,
                                     m: Node, g: nat, lo': real, hi': real, next': nat) returns (a: seq<LeafSlot>, b: seq<LeafSlot>)
    requires Shape(c, n, h, lo, hi, next) && Holds(v, n) && (n.body.Internal? ==> n.body.slots != []) && c.pageSize >= 256
    requires Shape(c, m, g, lo', hi', next') && Holds(v, m) && m.id in Ids(n)
    ensures Contents(n) == a + Contents(m) + b
    ensures m.id != n.id ==> a + b != []
    decreases h
  {
    hide *;
    if m.id == n.id {
      OneSubtree(c, v, n, h, lo, hi, next, m, g, lo', hi', next');
      a, b := [], [];
    } else {
      IdsParted(n);
      var i := IdsSource(n.kids, m.id);
      if h == 0 { LeafHasNoKids(c, n, lo, hi, next); }
      ChildOf(c, v, n, h, lo, hi, next, i);
      HasSlots(c, n.kids[i].body);
      var a', b' := StretchOf(c, v, n.kids[i], h - 1, KidLo(n.body.slots, i, lo), KidHi(n.body.slots, i, hi), KidNext(n.kids, i, next),
                              m, g, lo', hi', next');
      a, b := ContentsAll(n.kids[..i]) + a', b' + ContentsAll(n.kids[i + 1..]);
      ContentsAround(n, i);
      var k := if i == 0 then 1 else 0;
      ChildOf(c, v, n, h, lo, hi, next, k);
      SubtreeHasEntries(c, n.kids[k], h - 1, KidLo(n.body.slots, k, lo), KidHi(n.body.slots, k, hi), KidNext(n.kids, k, next));
      FirstAmong(if i == 0 then n.kids[i + 1..] else n.kids[..i]);
    }
  }

  lemma IdsParted(n: Node)
    ensures forall id :: id in Ids(n) && id != n.id ==> id in IdsAll(n.kids)
  {
  }

  lemma HasSlots(c: Config, b: Body)
    requires Healthy(c, b)
    ensures b.Internal? ==> b.slots != []
  {
  }

  lemma ContentsAround(n: Node, i: nat)
    requires n.body.Internal? && i < |n.kids|
    ensures Contents(n) == ContentsAll(n.kids[..i]) + Contents(n.kids[i]) + ContentsAll(n.kids[i + 1..])
  {
    ContentsConcat(n.kids[..i], n.kids[i..]);
    assert n.kids == n.kids[..i] + n.kids[i..] && n.kids[i..][1..] == n.kids[i + 1..];
  }

  lemma FirstAmong(ns: seq<Node>)
    requires ns != [] && Contents(ns[0]) != []
    ensures ContentsAll(ns) != []
  {
  }

  /** Keys of the entries around a stretch are none of the keys in it. */
  lemma OutsideIsLacking(all: seq<LeafSlot>, a: seq<LeafSlot>, mid: seq<LeafSlot>, b: seq<LeafSlot>, i: nat)
    requires SortedEntries(all) && all == a + mid + b && i < |a + b|
    ensures (a + b)[i].key !in ToMap(mid)
  {
    hide Rank, ToMap;
    var j := if i < |a| then i else i + |mid|;
    assert all[j] == (a + b)[i];
    forall k | 0 <= k < |mid| ensures mid[k].key != all[j].key {
      assert all[|a| + k] == mid[k];
    }
    MapWithout(mid, all[j].key);
  }

  /**
   * When the page that recovery takes for the root has become a page further down, whatever recovery arrives at is the
   * replay on a proper stretch of the stored entries: every other key is gone unless the log puts it again.
   */
  lemma OldRootFurtherDown(blocks: seq<Bytes>, log: Bytes, c: Config, m: Meta, recs: seq<Record>, tail: Bytes,
                           meta: Meta, root: Node, h: nat, chain: seq<FreeNode>, s: Store) returns (a: seq<LeafSlot>, sub: Node, b: seq<LeafSlot>)
    requires MetaIs(blocks, m) && LogOk(log, recs, tail, c) && RecoversTo(Disk(blocks, log), c, s)
    requires StoredTree(c, blocks, meta, root, h, chain)
    requires Repaired(m, recs).root in TreeIds(root) && Repaired(m, recs).root != meta.root
    ensures sub.id == Repaired(m, recs).root && Contents(root) == a + Contents(sub) + b && a + b != []
    ensures s == Replayed(ToMap(Contents(sub)), recs, Repaired(m, recs).checkpointLsn)
    ensures forall i :: 0 <= i < |a + b| && NotPut(recs, Repaired(m, recs).checkpointLsn, (a + b)[i].key) ==> (a + b)[i].key !in s
  {
    hide *;
    var start := Repaired(m, recs);
    var root', h', chain' := ReadWith(blocks, log, c, m, recs, tail, s);
    AboutBase(c, blocks, start, recs, s, root', h', chain');
    sub := root';
    StoredShape(c, blocks, meta, root, h, chain);
    StoredShape(c, blocks, start, sub, h', chain');
    a, b := StretchOf(c, DiskView(blocks), root, h, 0.0, 1.0, 0, sub, h', 0.0, 1.0, 0);
    ContentsSorted(c, root, h, 0.0, 1.0, 0);
    forall i | 0 <= i < |a + b| && NotPut(recs, start.checkpointLsn, (a + b)[i].key) ensures (a + b)[i].key !in s {
      OutsideIsLacking(Contents(root), a, Contents(sub), b, i);
      NotReplayed(ToMap(Contents(sub)), recs, start.checkpointLsn, (a + b)[i].key);
    }
  }

  lemma StoredShape(c: Config, blocks: seq<Bytes>, meta: Meta, root: Node, h: nat, chain: seq<FreeNode>)
    requires StoredTree(c, blocks, meta, root, h, chain)
    ensures root.id == meta.root && Shape(c, root, h, 0.0, 1.0, 0) && Holds(DiskView(blocks), root) && c.pageSize >= 256
    ensures (root.body.Internal? ==> root.body.slots != []) && forall id :: id in TreeIds(root) <==> id in Ids(root)
  {
    hide Shape, Holds, DiskView, ChainOk, CacheOk, StackOk, Flatten, Ids;
  }
}
