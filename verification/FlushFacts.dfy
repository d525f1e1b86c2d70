/** What a checkpoint needs of the running engine: every cached page can be encoded, and writes elsewhere do no harm. */
module FlushFacts {
  import opened Bytes
  import opened Entities
  import opened Codec
  import opened MetaCodec
  import opened TreeModel
  import opened Cascading
  import opened Paging
  import opened Cache
  import opened Durability
  import opened TreeMaps

  /** A tree page that fits, whose links stay below `limit`. */
  ghost predicate LinksBelow(b: Body, pageSize: nat, limit: nat)
  {
    && PageSize(b) <= pageSize
    && match b {
         case Leaf(right, _) => right < limit
         case Internal(leftmost, slots) => leftmost < limit && forall i :: 0 <= i < |slots| ==> slots[i].child < limit
         case Freelist(_, _) => false
       }
  }

  lemma {:induction false} FirstLeafIsIn(n: Node)
    ensures FirstLeaf(n) in Ids(n)
    decreases n
  {
    if n.kids != [] {
      FirstLeafIsIn(n.kids[0]);
      IdsMember(n.kids, 0);
    }
  }

  lemma {:induction false} IdsSource(ns: seq<Node>, id: nat) returns (i: nat)
    requires id in IdsAll(ns)
    ensures i < |ns| && id in Ids(ns[i])
  {
    if id in Ids(ns[0]) {
      i := 0;
    } else {
      var j := IdsSource(ns[1..], id);
      i := j + 1;
    }
  }

  lemma OwnLinks(c: Config, v: Pages, n: Node, h: nat, lo: real, hi: real, next: nat, limit: nat)
    requires Shape(c, n, h, lo, hi, next) && !Overfull(c, n.body) && next < limit
    requires forall id :: id in Ids(n) ==> id < limit
    ensures LinksBelow(n.body, c.pageSize, limit)
  {
    hide Rank, KeyFits, EntryFits;
    if h > 0 {
      forall i | 0 <= i < |n.kids| ensures n.kids[i].id < limit {
        assert n.kids[i].id in Ids(n.kids[i]);
        IdsMember(n.kids, i);
        assert n.kids[i].id in Ids(n);
      }
      forall i | 0 <= i < |n.body.slots| ensures n.body.slots[i].child < limit {
        assert n.body.slots[i].child == n.kids[i + 1].id;
      }
    }
  }

  lemma KidFacts(c: Config, n: Node, h: nat, lo: real, hi: real, next: nat, limit: nat, i: nat)
    requires Shape(c, n, h, lo, hi, next) && h > 0 && i < |n.kids| && next < limit
    requires forall id :: id in Ids(n) ==> id < limit
    ensures n.body.Internal? && |n.kids| == |n.body.slots| + 1 && !Overfull(c, n.kids[i].body)
    ensures Shape(c, n.kids[i], h - 1, KidLo(n.body.slots, i, lo), KidHi(n.body.slots, i, hi), KidNext(n.kids, i, next))
    ensures KidNext(n.kids, i, next) < limit && forall id :: id in Ids(n.kids[i]) ==> id < limit
  {
    hide *;
    KidShape(c, n, h, lo, hi, next, i);
    KidIds(n, i);
    NextBelow(n, i, next, limit);
  }

  lemma KidShape(c: Config, n: Node, h: nat, lo: real, hi: real, next: nat, i: nat)
    requires Shape(c, n, h, lo, hi, next) && h > 0 && i < |n.kids|
    ensures n.body.Internal? && |n.kids| == |n.body.slots| + 1 && !Overfull(c, n.kids[i].body)
    ensures Shape(c, n.kids[i], h - 1, KidLo(n.body.slots, i, lo), KidHi(n.body.slots, i, hi), KidNext(n.kids, i, next))
  {
    hide Rank, KidLo, KidHi, KidNext, SortedSlots, KeyFits, Underfull;
    assert KidOk(c, n, i, h, lo, hi, next);
  }

  lemma KidIds(n: Node, i: nat)
    requires i < |n.kids|
    ensures Ids(n.kids[i]) <= Ids(n)
  {
    IdsMember(n.kids, i);
  }

  lemma NextBelow(n: Node, i: nat, next: nat, limit: nat)
    requires i < |n.kids| && next < limit && forall id :: id in Ids(n) ==> id < limit
    ensures KidNext(n.kids, i, next) < limit
  {
    if i + 1 < |n.kids| {
      FirstLeafIsIn(n.kids[i + 1]);
      KidIds(n, i + 1);
    }
  }

  /** Every page of a stored tree fits its page and links below the ids in use. */
  lemma {:induction false} TreeLinks(c: Config, v: Pages, n: Node, h: nat, lo: real, hi: real, next: nat, limit: nat)
    requires Shape(c, n, h, lo, hi, next) && !Overfull(c, n.body) && Holds(v, n) && next < limit
    requires forall id :: id in Ids(n) ==> id < limit
    ensures forall id :: id in Ids(n) ==> id in v && LinksBelow(v[id], c.pageSize, limit)
    decreases h
  {
    hide Shape, LinksBelow, Overfull, KidLo, KidHi, KidNext, Rank;
    OwnLinks(c, v, n, h, lo, hi, next, limit);
    if h == 0 { LeafHasNoKids(c, n, lo, hi, next); }
    forall id | id in Ids(n) && id != n.id ensures id in v && LinksBelow(v[id], c.pageSize, limit) {
      var i := IdsSource(n.kids, id);
      KidFacts(c, n, h, lo, hi, next, limit, i);
      TreeLinks(c, v, n.kids[i], h - 1, KidLo(n.body.slots, i, lo), KidHi(n.body.slots, i, hi), KidNext(n.kids, i, next), limit);
    }
  }

  lemma LeafHasNoKids(c: Config, n: Node, lo: real, hi: real, next: nat)
    requires Shape(c, n, 0, lo, hi, next)
    ensures n.kids == []
  {
  }

  /** Every page the pool may have to write can be encoded, as long as ids fit their fields. */
  lemma CachedEncodable(c: Config, file: seq<Bytes>, meta: Meta, cache: map<nat, Cached>, chain: seq<FreeNode>,
                        live: set<nat>, root: Node, h: nat)
    requires Consistent(c, Overlay(cache, file), live, meta.root, root, h) && live <= Live(chain, meta.next)
    requires LsnOk(cache) && cache.Keys <= live && c.pageSize < U32 && 0 < meta.next <= U64
    ensures forall id :: id in cache ==> id < meta.next && Encodable(cache[id].page, c.pageSize)
  {
    hide Shape, Holds, Ids, DiskView, LinksBelow, Flatten, PageSize, Underfull;
    var v := Overlay(cache, file);
    forall id | id in Ids(root) ensures id < meta.next {
      assert id in live;
    }
    TreeLinks(c, v, root, h, 0.0, 1.0, 0, meta.next);
    forall id | id in cache ensures id < meta.next && Encodable(cache[id].page, c.pageSize) {
      assert id in live && id in multiset(live);
      CachedView(cache, file, id);
      LinksEncodable(cache[id].page, c.pageSize, meta.next);
    }
  }

  lemma LinksEncodable(p: Page, pageSize: nat, limit: nat)
    requires LinksBelow(p.body, pageSize, limit) && p.lsn < U64 && pageSize < U32 && limit <= U64
    ensures Encodable(p, pageSize)
  {
    hide PageSize;
  }

  ghost predicate SameOn(file: seq<Bytes>, file': seq<Bytes>, ids: set<nat>)
  {
    |file'| == |file| && forall id :: 0 <= id < |file| && id in ids ==> file'[id] == file[id]
  }

  /** Writing blocks that are not tree pages leaves the pool in step and the tree in order. */
  lemma TreeUndisturbed(c: Config, cache: map<nat, Cached>, file: seq<Bytes>, file': seq<Bytes>, live: set<nat>, rootId: nat, root: Node, h: nat)
    requires Consistent(c, Overlay(cache, file), live, rootId, root, h)
    requires SameOn(file, file', live) && InSync(cache, file, {}) && cache.Keys <= live
    ensures Consistent(c, Overlay(cache, file'), live, rootId, root, h)
    ensures InSync(cache, file', {})
  {
    hide Shape, DecodedPage, RootHealthy, Ids, Holds;
    forall id | id in multiset(live) && id in Overlay(cache, file)
      ensures id in Overlay(cache, file') && Overlay(cache, file')[id] == Overlay(cache, file)[id]
    {
    }
    HoldsFrame(Overlay(cache, file), Overlay(cache, file'), root);
  }

  /** Writing tree pages leaves the freelist and the meta page alone. */
  lemma ChainUndisturbed(pageSize: nat, file: seq<Bytes>, file': seq<Bytes>, meta: Meta, cache: map<nat, Page>, dirty: set<nat>,
                         chain: seq<FreeNode>, metaBlock: Bytes, metaDirty: bool, written: set<nat>)
    requires PagerOk(pageSize, file, meta, cache, dirty, chain) && MetaOk(file, metaBlock, metaDirty, meta)
    requires written <= Live(chain, meta.next) && |file'| == |file|
    requires forall id :: 0 <= id < |file| && id !in written ==> file'[id] == file[id]
    ensures PagerOk(pageSize, file', meta, cache, dirty, chain) && MetaOk(file', metaBlock, metaDirty, meta)
  {
    hide DecodedPage, DecodedMeta, ChainOk, StackOk, Flatten;
    forall id | InChain(chain, id) ensures id !in written { ChainInStack(chain, id); }
    hide InChain;
    ChainFrame(chain, cache, file, cache, file', pageSize);
  }

  /** Writing freelist pages leaves the tree pages alone. */
  lemma ChainIsNotLive(file: seq<Bytes>, file': seq<Bytes>, chain: seq<FreeNode>, next: nat, live: set<nat>)
    requires live <= Live(chain, next)
    requires |file'| == |file| && forall id :: 0 <= id < |file| && !InChain(chain, id) ==> file'[id] == file[id]
    ensures SameOn(file, file', live)
  {
    hide Flatten;
    forall id | id in live ensures !InChain(chain, id) {
      if InChain(chain, id) { ChainInStack(chain, id); }
    }
  }

  /** Once everything is written, the file alone holds the tree and the freelist. */
  lemma WrittenOut(c: Config, file: seq<Bytes>, meta: Meta, freelistCache: map<nat, Page>, chain: seq<FreeNode>,
                   cache: map<nat, Cached>, live: set<nat>, root: Node, h: nat)
    requires PagerOk(c.pageSize, file, meta, freelistCache, {}, chain) && ChainOk(chain, map[], file, c.pageSize)
    requires InSync(cache, file, {}) && DirtyIds(cache) == {}
    requires Consistent(c, Overlay(cache, file), live, meta.root, root, h) && live <= Live(chain, meta.next)
    requires c.tight ==> live == Live(chain, meta.next) && |file| == meta.next && FullBelow(chain, c.pageSize)
    ensures StoredTree(c, file, meta, root, h, chain)
  {
    hide ChainOk, StackOk, Consistent, Flatten, Overlay, DiskView, InChain, TreeIds, Live;
    AllClean(cache, file);
    OwnPages(c, Overlay(cache, file), live, meta.root, root, h);
  }

  lemma OwnPages(c: Config, v: Pages, live: set<nat>, rootId: nat, root: Node, h: nat)
    requires Consistent(c, v, live, rootId, root, h)
    ensures TreeIds(root) == live
  {
    hide Shape, Holds, RootHealthy, Ids;
    forall id ensures id in TreeIds(root) <==> id in live { assert id in Ids(root) <==> id in multiset(live); }
  }

  // ---- stored keys are short ----

  ghost predicate EntriesFit(c: Config, s: seq<LeafSlot>)
  {
    forall i :: 0 <= i < |s| ==> EntryFits(c, s[i])
  }

  lemma {:induction false} AllContentsFit(c: Config, ns: seq<Node>)
    requires forall i :: 0 <= i < |ns| ==> EntriesFit(c, Contents(ns[i]))
    ensures EntriesFit(c, ContentsAll(ns))
  {
    hide EntryFits;
    if ns != [] {
      assert forall i :: 0 <= i < |ns[1..]| ==> ns[1..][i] == ns[i + 1];
      AllContentsFit(c, ns[1..]);
    }
  }

  lemma {:induction false} ContentsFit(c: Config, n: Node, h: nat, lo: real, hi: real, next: nat)
    requires Shape(c, n, h, lo, hi, next)
    ensures EntriesFit(c, Contents(n))
    decreases h
  {
    hide Rank, EntryFits, SortedEntries, KeyFits, SortedSlots;
    if h > 0 {
      forall i | 0 <= i < |n.kids| ensures EntriesFit(c, Contents(n.kids[i])) {
        KidShape(c, n, h, lo, hi, next, i);
        ContentsFit(c, n.kids[i], h - 1, KidLo(n.body.slots, i, lo), KidHi(n.body.slots, i, hi), KidNext(n.kids, i, next));
      }
      AllContentsFit(c, n.kids);
    }
  }

  /** A stored key takes less than a fifth of a page. */
  lemma StoredKeyIsShort(c: Config, v: Pages, live: set<nat>, rootId: nat, root: Node, h: nat, key: Bytes)
    requires Consistent(c, v, live, rootId, root, h) && key in ToMap(Contents(root))
    ensures 5 * |key| < c.pageSize
  {
    hide Shape, Holds, Ids, RootHealthy, Contents, ToMap;
    ContentsFit(c, root, h, 0.0, 1.0, 0);
    if Lacks(Contents(root), key) {
      MapWithout(Contents(root), key);
    } else {
      var i :| 0 <= i < |Contents(root)| && Contents(root)[i].key == key;
      assert EntryFits(c, Contents(root)[i]);
    }
  }
}
