/**
 * Whether a tree and an allocator can live in the same blocks: what a freelist read from there would hand out, and which
 * pages the tree occupies. Both can be decided by reading the blocks.
 */
module AllocatorSafety {
  import opened Bytes
  import opened Entities
  import opened Codec
  import opened MetaCodec
  import opened Devices
  import opened Paging
  import opened Cache
  import opened TreeModel
  import opened FlushFacts
  import opened Durability

  /** The freelist that starts where `meta` says, in order: distinct ids below the next page id, which the file reaches. */
  ghost predicate FreelistRead(pageSize: nat, blocks: seq<Bytes>, meta: Meta, chain: seq<FreeNode>)
  {
    && 0 < meta.next <= |blocks|
    && ChainOk(chain, map[], blocks, pageSize) && ChainHead(chain) == meta.freelistHead && StackOk(Flatten(chain), meta.next)
  }

  /** Allocating as `meta` says will never hand out one of `ids`. */
  ghost predicate AllocatorSafe(pageSize: nat, blocks: seq<Bytes>, meta: Meta, ids: set<nat>)
  {
    exists chain :: FreelistRead(pageSize, blocks, meta, chain) && ids <= Live(chain, meta.next)
  }

  // ---- reading the freelist ----

  /** The freelist that starts with page `head`, if it ends within `fuel` pages. */
  function ReadChain(blocks: seq<Bytes>, pageSize: nat, head: nat, fuel: nat): Option<seq<FreeNode>>
    decreases fuel
  {
    if head == 0 then Some([])
    else if fuel == 0 || head >= |blocks| then None
    else
      var page := DecodedPage(blocks[head]);
      if page.None? || !page.value.body.Freelist? || page.value.lsn >= U64 || |page.value.body.freed| > MaxFreedIds(pageSize) then None
      else
        var rest := ReadChain(blocks, pageSize, page.value.body.next, fuel - 1);
        if rest.None? then None else Some([FreeNode(head, page.value.body.freed)] + rest.value)
  }

  lemma {:induction false} ReadIsChain(blocks: seq<Bytes>, pageSize: nat, head: nat, fuel: nat)
    requires ReadChain(blocks, pageSize, head, fuel).Some?
    ensures var chain := ReadChain(blocks, pageSize, head, fuel).value;
      ChainOk(chain, map[], blocks, pageSize) && ChainHead(chain) == head
    decreases fuel
  {
    hide DecodedPage;
    if head != 0 {
      var page := DecodedPage(blocks[head]).value;
      ReadIsChain(blocks, pageSize, page.body.next, fuel - 1);
      assert ReadChain(blocks, pageSize, head, fuel).value[1..] == ReadChain(blocks, pageSize, page.body.next, fuel - 1).value;
    }
  }

  lemma {:induction false} ChainIsRead(chain: seq<FreeNode>, blocks: seq<Bytes>, pageSize: nat, next: nat, fuel: nat)
    requires ChainOk(chain, map[], blocks, pageSize) && StackOk(Flatten(chain), next) && |chain| <= fuel
    ensures ReadChain(blocks, pageSize, ChainHead(chain), fuel) == Some(chain)
  {
    hide DecodedPage, Flatten, StackOk;
    if chain != [] {
      StackTail(chain, next);
      ChainIsRead(chain[1..], blocks, pageSize, next, fuel - 1);
      assert chain == [chain[0]] + chain[1..];
    }
  }

  lemma StackTail(chain: seq<FreeNode>, next: nat)
    requires chain != [] && StackOk(Flatten(chain), next)
    ensures StackOk(Flatten(chain[1..]), next) && 0 < chain[0].id < next
    ensures chain[0].id !in Flatten(chain[1..])
  {
    var t := Flatten(chain[1..]);
    assert t == Flatten(chain)[..|t|];
    assert Flatten(chain)[|t|] == chain[0].id;
  }

  /** There are no more ids below `n` than `n`. */
  lemma {:induction false} FewBelow(ids: set<nat>, n: nat)
    requires forall id :: id in ids ==> id < n
    ensures |ids| <= n
  {
    if n > 0 {
      FewBelow(ids - {n - 1}, n - 1);
    } else {
      assert ids == {};
    }
  }

  ghost function Elements(s: seq<nat>): set<nat>
  {
    set id | id in s
  }

  lemma {:induction false} AsMany(s: seq<nat>)
    requires NoDup(s)
    ensures |Elements(s)| == |s|
  {
    if s != [] {
      var t := s[..|s| - 1];
      AsMany(t);
      assert s[|s| - 1] !in t;
      assert Elements(s) == Elements(t) + {s[|s| - 1]};
    }
  }

  lemma {:induction false} ChainLength(chain: seq<FreeNode>)
    ensures |chain| <= |Flatten(chain)|
  {
    if chain != [] { ChainLength(chain[1..]); }
  }

  /** A freelist in order has fewer pages than there are ids. */
  lemma ShortChain(chain: seq<FreeNode>, next: nat)
    requires StackOk(Flatten(chain), next)
    ensures |chain| <= next
  {
    hide Flatten;
    ChainLength(chain);
    AsMany(Flatten(chain));
    FewBelow(Elements(Flatten(chain)), next);
  }

  /** Blocks and a head page determine the freelist. */
  lemma OneChain(a: seq<FreeNode>, b: seq<FreeNode>, blocks: seq<Bytes>, pageSize: nat, next: nat)
    requires ChainOk(a, map[], blocks, pageSize) && ChainOk(b, map[], blocks, pageSize)
    requires StackOk(Flatten(a), next) && StackOk(Flatten(b), next) && ChainHead(a) == ChainHead(b)
    ensures a == b
  {
    hide *;
    ShortChain(a, next);
    ShortChain(b, next);
    ChainIsRead(a, blocks, pageSize, next, next);
    ChainIsRead(b, blocks, pageSize, next, next);
  }

  /** With a freelist in order, the allocator is safe for exactly those ids that it does not regard as free. */
  lemma SafeIsLive(pageSize: nat, blocks: seq<Bytes>, meta: Meta, ids: set<nat>, chain: seq<FreeNode>)
    requires FreelistRead(pageSize, blocks, meta, chain)
    ensures AllocatorSafe(pageSize, blocks, meta, ids) <==> ids <= Live(chain, meta.next)
  {
    hide ChainOk, StackOk, Flatten, Live, ChainHead;
    forall fl | FreelistRead(pageSize, blocks, meta, fl) ensures fl == chain {
      OneChain(fl, chain, blocks, pageSize, meta.next);
    }
  }

  // ---- reading the tree ----

  /** The pages reached from page `id`, at most `fuel` levels down. */
  function PagesBelow(blocks: seq<Bytes>, id: nat, fuel: nat): set<nat>
    decreases fuel, 0
  {
    if fuel == 0 || id >= |blocks| then {id} else
      var page := DecodedPage(blocks[id]);
      if page.None? || !page.value.body.Internal? then {id}
      else {id} + PagesBelow(blocks, page.value.body.leftmost, fuel - 1) + PagesOf(blocks, page.value.body.slots, fuel - 1)
  }

  function PagesOf(blocks: seq<Bytes>, slots: seq<InternalSlot>, fuel: nat): set<nat>
    decreases fuel, 1 + |slots|
  {
    if slots == [] then {} else PagesBelow(blocks, slots[0].child, fuel) + PagesOf(blocks, slots[1..], fuel)
  }

  ghost function AllIds(ns: seq<Node>): set<nat>
  {
    set id | id in IdsAll(ns)
  }

  lemma IdsSplit(n: Node)
    ensures TreeIds(n) == {n.id} + AllIds(n.kids)
  {
  }

  lemma AllSplit(ns: seq<Node>)
    requires ns != []
    ensures AllIds(ns) == TreeIds(ns[0]) + AllIds(ns[1..])
  {
  }

  /** Reading down from the root of a tree finds exactly its pages. */
  lemma {:induction false} PagesRead(c: Config, blocks: seq<Bytes>, n: Node, h: nat, lo: real, hi: real, next: nat, fuel: nat)
    requires Shape(c, n, h, lo, hi, next) && Holds(DiskView(blocks), n) && h <= fuel
    ensures PagesBelow(blocks, n.id, fuel) == TreeIds(n)
    decreases h, 0
  {
    hide DecodedPage, Rank, TreeIds, AllIds, SortedSlots, KeyFits, EntryFits, SortedEntries, Healthy, IdsAll, Ids, KidOk, KidLo, KidHi, KidNext;
    IdsSplit(n);
    if h == 0 {
      NoIds();
    } else {
      var slots := n.body.slots;
      AllSplit(n.kids);
      KidShape(c, n, h, lo, hi, next, 0);
      PagesRead(c, blocks, n.kids[0], h - 1, KidLo(slots, 0, lo), KidHi(slots, 0, hi), KidNext(n.kids, 0, next), fuel - 1);
      assert n.kids[|n.kids| - |slots|..] == n.kids[1..] && slots[|slots| - |slots|..] == slots;
      KidPagesRead(c, blocks, n, h, lo, hi, next, |slots|, fuel - 1);
    }
  }

  lemma NoIds()
    ensures AllIds([]) == {}
  {
  }

  /** The same for the last `k` children. */
  lemma {:induction false} KidPagesRead(c: Config, blocks: seq<Bytes>, n: Node, h: nat, lo: real, hi: real, next: nat, k: nat, fuel: nat)
    requires h > 0 && Shape(c, n, h, lo, hi, next) && Holds(DiskView(blocks), n) && h - 1 <= fuel && k <= |n.body.slots|
    ensures PagesOf(blocks, n.body.slots[|n.body.slots| - k..], fuel) == AllIds(n.kids[|n.kids| - k..])
    decreases h - 1, 1 + k
  {
    hide DecodedPage, Rank, TreeIds, AllIds, SortedSlots, KeyFits, EntryFits, SortedEntries, Healthy, IdsAll, Ids, KidOk, KidLo, KidHi, KidNext;
    if k == 0 {
      assert n.body.slots[|n.body.slots|..] == [] && n.kids[|n.kids|..] == [];
      NoIds();
    } else {
      var slots, i := n.body.slots, |n.kids| - k;
      AllSplit(n.kids[i..]);
      assert n.kids[i..][1..] == n.kids[i + 1..] && slots[|slots| - k..][1..] == slots[|slots| - (k - 1)..];
      assert slots[|slots| - k..][0].child == n.kids[i].id;
      KidShape(c, n, h, lo, hi, next, i);
      PagesRead(c, blocks, n.kids[i], h - 1, KidLo(slots, i, lo), KidHi(slots, i, hi), KidNext(n.kids, i, next), fuel);
      KidPagesRead(c, blocks, n, h, lo, hi, next, k - 1, fuel);
    }
  }

  lemma FewerIds(n: Node, i: nat)
    requires i < |n.kids|
    ensures |Ids(n.kids[i])| < |Ids(n)|
  {
    IdsMember(n.kids, i);
    var a, b := Ids(n.kids[i]), IdsAll(n.kids);
    assert b == a + (b - a);
  }

  lemma {:induction false} Deep(c: Config, n: Node, h: nat, lo: real, hi: real, next: nat)
    requires Shape(c, n, h, lo, hi, next)
    ensures |Ids(n)| > h
    decreases h
  {
    hide *;
    if h == 0 {
      SomeId(n);
    } else {
      HasChildren(c, n, h, lo, hi, next);
      KidShape(c, n, h, lo, hi, next, 0);
      Deep(c, n.kids[0], h - 1, KidLo(n.body.slots, 0, lo), KidHi(n.body.slots, 0, hi), KidNext(n.kids, 0, next));
      FewerIds(n, 0);
    }
  }

  lemma SomeId(n: Node)
    ensures |Ids(n)| > 0
  {
    assert n.id in Ids(n);
  }

  lemma HasChildren(c: Config, n: Node, h: nat, lo: real, hi: real, next: nat)
    requires Shape(c, n, h, lo, hi, next) && h > 0
    ensures n.kids != [] && n.body.Internal?
  {
    hide Rank, KidLo, KidHi, KidNext, Healthy, SortedSlots, KeyFits;
  }

  /** A tree has fewer levels than the file has blocks. */
  lemma HeightBelow(c: Config, blocks: seq<Bytes>, meta: Meta, root: Node, h: nat, chain: seq<FreeNode>)
    requires StoredTree(c, blocks, meta, root, h, chain)
    ensures h < |blocks|
  {
    hide Shape, Holds, RootHealthy, ChainOk, CacheOk, StackOk, Flatten, Ids;
    Deep(c, root, h, 0.0, 1.0, 0);
    FewBelow(TreeIds(root), |blocks|);
    assert |multiset(TreeIds(root))| == |TreeIds(root)|;
  }

  // ---- the test ----

  /**
   * Recovery starts from `start`, and the blocks hold the tree that `meta` names. It replays on that tree with an
   * allocator that leaves its pages alone; if no id may be leaked, it must find the very meta that was written.
   */
  ghost predicate Harmless(c: Config, blocks: seq<Bytes>, start: Meta, meta: Meta, root: Node)
  {
    if c.tight then meta == start else meta.root == start.root && AllocatorSafe(c.pageSize, blocks, start, TreeIds(root))
  }

  /** Not harmless. Model only: a test of the blocks that nothing in the engine makes. */
  predicate Exposes(tight: bool, blocks: seq<Bytes>, pageSize: nat, start: Meta, meta: Meta)
  {
    if tight then meta != start else
      var found := ReadChain(blocks, pageSize, start.freelistHead, start.next);
      !(&& meta.root == start.root
        && 0 < start.next <= |blocks|
        && found.Some? && StackOk(Flatten(found.value), start.next)
        && forall id <- PagesBelow(blocks, meta.root, |blocks|) :: 0 < id < start.next && id !in Flatten(found.value))
  }

  lemma AboutHarmless(c: Config, blocks: seq<Bytes>, start: Meta, meta: Meta, root: Node)
    ensures Harmless(c, blocks, start, meta, root) <==>
      if c.tight then meta == start else meta.root == start.root && AllocatorSafe(c.pageSize, blocks, start, TreeIds(root))
  {
    hide AllocatorSafe, TreeIds;
  }

  /** The test is exact. */
  lemma ExposesExact(c: Config, blocks: seq<Bytes>, meta: Meta, root: Node, h: nat, chain: seq<FreeNode>, start: Meta)
    requires StoredTree(c, blocks, meta, root, h, chain)
    ensures Exposes(c.tight, blocks, c.pageSize, start, meta) <==> !Harmless(c, blocks, start, meta, root)
  {
    hide Shape, RootHealthy, Holds, ChainOk, CacheOk, StackOk, Flatten, Ids, ReadChain, PagesBelow, ChainHead, TreeIds, DiskView, DecodedPage, NoneLeaked;
    HeightBelow(c, blocks, meta, root, h, chain);
    PagesRead(c, blocks, root, h, 0.0, 1.0, 0, |blocks|);
    var found := ReadChain(blocks, c.pageSize, start.freelistHead, start.next);
    if found.Some? { ReadIsChain(blocks, c.pageSize, start.freelistHead, start.next); }
    if !Exposes(c.tight, blocks, c.pageSize, start, meta) && !c.tight {
      assert FreelistRead(c.pageSize, blocks, start, found.value);
    }
    forall fl | FreelistRead(c.pageSize, blocks, start, fl) ensures found == Some(fl) {
      ShortChain(fl, start.next);
      ChainIsRead(fl, blocks, c.pageSize, start.next, start.next);
    }
  }

  // ---- what an unsafe allocator does ----

  /** Opened on a freelist in order, the allocator hands out every page that is not live, `id` among them. */
  method HandedOut(device: Device, start: Meta, id: nat, chain: seq<FreeNode>) returns (given: seq<nat>)
    requires device.blocks != [] && DecodedMeta(device.blocks[0]).Some? && DecodedMeta(device.blocks[0]).value.pageSize == start.pageSize
    requires 256 <= start.pageSize < U32 && FreelistRead(start.pageSize, device.blocks, start, chain)
    requires id > 0 && id !in Live(chain, start.next)
    ensures given != [] && given[|given| - 1] == id
  {
    hide DecodedMeta, ChainOk, StackOk, Flatten, Live;
    var pager := new Pager.Open(device, false);
    pager.UpdateMeta(start);
    pager.chain := chain;
    assert PagerOk(pager.pageSize, pager.file, pager.meta, pager.freelistCache, pager.dirtyFreelist, pager.chain);
    assert MetaOk(pager.file, pager.metaBlock, pager.metaDirty, pager.meta);
    assert SinceSaved(pager.saved, pager.file, pager.meta.next, pager.chain);
    given := AllocateUntil(pager, id);
  }
}
