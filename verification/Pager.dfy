/** The page file and the allocator: bump allocation plus a chain of freelist pages. */
module Paging {
  import opened Bytes
  import opened Entities
  import opened Codec
  import CodecMethods
  import opened MetaCodec
  import opened Devices

  /** One page of the freelist chain, as a value. */
  datatype FreeNode = FreeNode(id: nat, freed: seq<nat>)

  /** The plain stack the chain stands for, top last: below a page's entries comes the page itself. */
  function Flatten(chain: seq<FreeNode>): seq<nat>
  {
    if chain == [] then [] else Flatten(chain[1..]) + [chain[0].id] + chain[0].freed
  }

  predicate NoDup(s: seq<nat>)
  {
    forall i, j :: 0 <= i < j < |s| ==> s[i] != s[j]
  }

  ghost function ChainHead(chain: seq<FreeNode>): nat { if chain == [] then 0 else chain[0].id }

  ghost predicate InChain(chain: seq<FreeNode>, id: nat)
  {
    exists i :: 0 <= i < |chain| && chain[i].id == id
  }

  /** `p` is the image of `node`, linking to page `next`. */
  ghost predicate IsFreePage(p: Option<Page>, node: FreeNode, next: nat, pageSize: nat)
  {
    p.Some? && p.value.lsn < U64 && p.value.body == Freelist(next, node.freed) && |node.freed| <= MaxFreedIds(pageSize)
  }

  /** A freelist page as the pager sees it: staged in memory, or else on disk. */
  ghost function Staged(cache: map<nat, Page>, file: seq<Bytes>, id: nat): Option<Page>
  {
    if id in cache then Some(cache[id]) else if id < |file| then DecodedPage(file[id]) else None
  }

  ghost predicate ChainOk(chain: seq<FreeNode>, cache: map<nat, Page>, file: seq<Bytes>, pageSize: nat)
  {
    chain == [] ||
    (&& IsFreePage(Staged(cache, file, chain[0].id), chain[0], ChainHead(chain[1..]), pageSize)
     && ChainOk(chain[1..], cache, file, pageSize))
  }

  /** The stack holds distinct page ids below `next`, never page 0. */
  predicate StackOk(stack: seq<nat>, next: nat)
  {
    NoDup(stack) && forall i :: 0 <= i < |stack| ==> 0 < stack[i] < next
  }

  /** What is staged in memory: chain pages only, and the unmarked ones as on disk. */
  ghost predicate CacheOk(chain: seq<FreeNode>, cache: map<nat, Page>, dirty: set<nat>, file: seq<Bytes>)
  {
    && dirty <= cache.Keys
    && (forall id :: id in cache ==> InChain(chain, id))
    && (forall id :: id in cache && id !in dirty ==> id < |file| && DecodedPage(file[id]) == Some(cache[id]))
  }

  /** A freelist page on disk is one that decodes; the ids are bounded by the file, so they fit their fields. */
  lemma {:induction false} ChainFrame(chain: seq<FreeNode>, cache: map<nat, Page>, file: seq<Bytes>,
                                      cache': map<nat, Page>, file': seq<Bytes>, pageSize: nat)
    requires ChainOk(chain, cache, file, pageSize)
    requires forall id :: InChain(chain, id) ==> Staged(cache', file', id) == Staged(cache, file, id)
    ensures ChainOk(chain, cache', file', pageSize)
  {
    hide DecodedPage;
    if chain != [] {
      assert chain[0].id == chain[0].id && InChain(chain, chain[0].id);
      forall id | InChain(chain[1..], id) ensures InChain(chain, id) {
        var i :| 0 <= i < |chain[1..]| && chain[1..][i].id == id;
        assert chain[i + 1].id == id;
      }
      ChainFrame(chain[1..], cache, file, cache', file', pageSize);
    }
  }

  lemma {:induction false} ChainInStack(chain: seq<FreeNode>, id: nat)
    requires InChain(chain, id)
    ensures id in Flatten(chain)
  {
    if chain[0].id != id {
      var i :| 0 <= i < |chain| && chain[i].id == id;
      assert chain[1..][i - 1].id == id;
      ChainInStack(chain[1..], id);
    }
  }

  /** The whole allocator state is in order. A crash may have left blocks at the end that no page id below `next` names. */
  ghost predicate PagerOk(pageSize: nat, file: seq<Bytes>, meta: Meta, cache: map<nat, Page>, dirty: set<nat>, chain: seq<FreeNode>)
  {
    && 256 <= pageSize < U32
    && |file| >= meta.next > 0
    && meta.freelistHead == ChainHead(chain)
    && ChainOk(chain, cache, file, pageSize)
    && CacheOk(chain, cache, dirty, file)
    && StackOk(Flatten(chain), meta.next)
  }

  ghost function Live(chain: seq<FreeNode>, next: nat): set<nat>
  {
    set id | 0 < id < next && id !in Flatten(chain)
  }

  /** A chain whose head page holds other entries. */
  ghost function WithHead(chain: seq<FreeNode>, freed: seq<nat>): seq<FreeNode>
    requires chain != []
  {
    [FreeNode(chain[0].id, freed)] + chain[1..]
  }

  /** The id that allocation number `k` from now hands out if nothing is freed before. */
  ghost function UpcomingId(stack: seq<nat>, next: nat, k: nat): nat
  {
    if k < |stack| then stack[|stack| - 1 - k] else next + (k - |stack|)
  }

  lemma UpcomingPopped(stack: seq<nat>, next: nat)
    requires stack != []
    ensures UpcomingId(stack, next, 0) == Last(stack) && UpcomingId(DropLast(stack), next, 0) == UpcomingId(stack, next, 1)
  {
  }

  lemma UpcomingBumped(next: nat)
    ensures UpcomingId([], next, 0) == next && UpcomingId([], next + 1, 0) == UpcomingId([], next, 1)
  {
  }

  /** The head page can take another entry. */
  ghost predicate HasRoom(chain: seq<FreeNode>, pageSize: nat)
  {
    chain != [] && |chain[0].freed| < MaxFreedIds(pageSize)
  }

  /** No more freelist pages than it takes: every page below the head is full. */
  ghost predicate FullBelow(chain: seq<FreeNode>, pageSize: nat)
  {
    forall i :: 0 < i < |chain| ==> |chain[i].freed| == MaxFreedIds(pageSize)
  }

  lemma StaysFull(chain: seq<FreeNode>, pageSize: nat)
    ensures FullBelow([], pageSize)
    ensures chain != [] && FullBelow(chain, pageSize) ==> FullBelow(chain[1..], pageSize)
    ensures chain != [] && FullBelow(chain, pageSize) ==> forall freed :: FullBelow(WithHead(chain, freed), pageSize)
  {
    if chain != [] && FullBelow(chain, pageSize) {
      forall i | 0 < i < |chain[1..]| ensures |chain[1..][i].freed| == MaxFreedIds(pageSize) { assert chain[1..][i] == chain[i + 1]; }
      forall freed ensures FullBelow(WithHead(chain, freed), pageSize) {
        forall i | 0 < i < |chain| ensures |WithHead(chain, freed)[i].freed| == MaxFreedIds(pageSize) { assert WithHead(chain, freed)[i] == chain[i]; }
      }
    }
  }

  lemma FreedFull(chain: seq<FreeNode>, pageSize: nat, id: nat, next: nat)
    requires chain != [] ==> |chain[0].freed| <= MaxFreedIds(pageSize)
    ensures chain != [] && FullBelow(chain, pageSize) ==> FullBelow(WithHead(chain, chain[0].freed + [id]), pageSize)
    ensures !HasRoom(chain, pageSize) && FullBelow(chain, pageSize) ==> FullBelow([FreeNode(next, [id])] + chain, pageSize)
  {
    StaysFull(chain, pageSize);
    var more := [FreeNode(next, [id])] + chain;
    forall i | 0 < i < |more| ensures more[i] == chain[i - 1] {}
  }

  lemma FlattenPop(chain: seq<FreeNode>, next: nat)
    requires chain != [] && StackOk(Flatten(chain), next)
    ensures Flatten(chain) != []
    ensures chain[0].freed != [] ==>
      && Flatten(WithHead(chain, DropLast(chain[0].freed))) == DropLast(Flatten(chain))
      && Last(chain[0].freed) == Last(Flatten(chain))
    ensures chain[0].freed == [] ==> Flatten(chain[1..]) == DropLast(Flatten(chain)) && chain[0].id == Last(Flatten(chain))
    ensures StackOk(DropLast(Flatten(chain)), next)
    ensures Last(Flatten(chain)) !in DropLast(Flatten(chain))
  {
    if chain[0].freed != [] {
      var freed := chain[0].freed;
      assert freed == DropLast(freed) + [Last(freed)];
      assert WithHead(chain, DropLast(freed))[1..] == chain[1..];
    }
  }

  /** Taking the last entry of the head page. */
  lemma PopEntry(pageSize: nat, file: seq<Bytes>, meta: Meta, cache: map<nat, Page>, dirty: set<nat>, chain: seq<FreeNode>, p: Page)
    requires PagerOk(pageSize, file, meta, cache, dirty, chain) && chain != [] && chain[0].freed != []
    requires IsFreePage(Some(p), FreeNode(chain[0].id, DropLast(chain[0].freed)), ChainHead(chain[1..]), pageSize)
    ensures PagerOk(pageSize, file, meta, cache[chain[0].id := p] - {Last(chain[0].freed)},
                    dirty + {chain[0].id} - {Last(chain[0].freed)}, WithHead(chain, DropLast(chain[0].freed)))
  {
    hide DecodedPage, Flatten, IsFreePage;
    var head, id, chain' := chain[0].id, Last(chain[0].freed), WithHead(chain, DropLast(chain[0].freed));
    FlattenPop(chain, meta.next);
    HeadChanged(chain, cache, file, pageSize, DropLast(chain[0].freed), p);
    hide StackOk;
    forall x ensures InChain(chain', x) <==> InChain(chain, x) { NewHeadMember(chain, DropLast(chain[0].freed), x); }
    hide ChainOk;
    if InChain(chain', id) { ChainInStack(chain', id); }
    assert InChain(chain', head) by { assert chain'[0].id == head; }
    hide InChain;
    assert cache[head := p] - {id} == cache[head := p] && dirty + {head} - {id} == dirty + {head};
  }

  /** Handing out the exhausted head page itself. */
  lemma RecycleHead(pageSize: nat, file: seq<Bytes>, meta: Meta, cache: map<nat, Page>, dirty: set<nat>, chain: seq<FreeNode>)
    requires PagerOk(pageSize, file, meta, cache, dirty, chain) && chain != [] && chain[0].freed == []
    ensures PagerOk(pageSize, file, meta.(freelistHead := ChainHead(chain[1..])), cache - {chain[0].id}, dirty - {chain[0].id}, chain[1..])
  {
    hide DecodedPage, ChainOk, CacheOk, Flatten;
    ChainWithoutHead(chain, cache, dirty, file, pageSize);
    FlattenPop(chain, meta.next);
  }

  lemma ChainWithoutHead(chain: seq<FreeNode>, cache: map<nat, Page>, dirty: set<nat>, file: seq<Bytes>, pageSize: nat)
    requires chain != [] && NoDup(Flatten(chain)) && ChainOk(chain, cache, file, pageSize) && CacheOk(chain, cache, dirty, file)
    ensures ChainOk(chain[1..], cache - {chain[0].id}, file, pageSize)
    ensures CacheOk(chain[1..], cache - {chain[0].id}, dirty - {chain[0].id}, file)
  {
    hide DecodedPage, IsFreePage, Flatten;
    TailWithoutHead(chain);
    ChainFrame(chain[1..], cache, file, cache - {chain[0].id}, file, pageSize);
    forall id | InChain(chain, id) && id != chain[0].id ensures InChain(chain[1..], id) {
      var i :| 0 <= i < |chain| && chain[i].id == id;
      assert chain[1..][i - 1].id == id;
    }
  }

  lemma FlattenPush(chain: seq<FreeNode>, id: nat)
    requires chain != []
    ensures Flatten(WithHead(chain, chain[0].freed + [id])) == Flatten(chain) + [id]
  {
    assert WithHead(chain, chain[0].freed + [id])[1..] == chain[1..];
  }

  /** Room on the head page: one more entry. */
  lemma PushEntry(pageSize: nat, file: seq<Bytes>, meta: Meta, cache: map<nat, Page>, dirty: set<nat>, chain: seq<FreeNode>, p: Page, id: nat)
    requires PagerOk(pageSize, file, meta, cache, dirty, chain) && chain != [] && id in Live(chain, meta.next)
    requires IsFreePage(Some(p), FreeNode(chain[0].id, chain[0].freed + [id]), ChainHead(chain[1..]), pageSize)
    ensures PagerOk(pageSize, file, meta, cache[chain[0].id := p], dirty + {chain[0].id}, WithHead(chain, chain[0].freed + [id]))
    ensures Flatten(WithHead(chain, chain[0].freed + [id])) == Flatten(chain) + [id]
  {
    hide DecodedPage, IsFreePage, Flatten;
    var head, chain' := chain[0].id, WithHead(chain, chain[0].freed + [id]);
    FlattenPush(chain, id);
    HeadChanged(chain, cache, file, pageSize, chain[0].freed + [id], p);
    forall x ensures InChain(chain', x) <==> InChain(chain, x) { NewHeadMember(chain, chain[0].freed + [id], x); }
    hide ChainOk;
    assert InChain(chain', head) by { assert chain'[0].id == head; }
    hide InChain;
  }

  /** No room: a new head page, bump-allocated, holds the entry. */
  lemma NewHead(pageSize: nat, file: seq<Bytes>, meta: Meta, cache: map<nat, Page>, dirty: set<nat>, chain: seq<FreeNode>, p: Page, id: nat)
    requires PagerOk(pageSize, file, meta, cache, dirty, chain) && id in Live(chain, meta.next)
    requires IsFreePage(Some(p), FreeNode(meta.next, [id]), ChainHead(chain), pageSize)
    ensures PagerOk(pageSize, file + [Zeros(pageSize)], meta.(next := meta.next + 1, freelistHead := meta.next),
                    cache[meta.next := p], dirty + {meta.next}, [FreeNode(meta.next, [id])] + chain)
    ensures Flatten([FreeNode(meta.next, [id])] + chain) == Flatten(chain) + [meta.next, id]
  {
    hide DecodedPage, IsFreePage;
    var chain' := [FreeNode(meta.next, [id])] + chain;
    var cache', file' := cache[meta.next := p], file + [Zeros(pageSize)];
    assert chain'[1..] == chain;
    assert Flatten(chain') == Flatten(chain) + [meta.next, id];
    hide Flatten;
    ChainBelow(chain, meta.next);
    ChainFrame(chain, cache, file, cache', file', pageSize);
    hide ChainOk;
    forall x | InChain(chain, x) ensures InChain(chain', x) {
      var i :| 0 <= i < |chain| && chain[i].id == x;
      assert chain'[i + 1].id == x;
    }
    assert InChain(chain', meta.next) by { assert chain'[0].id == meta.next; }
    hide InChain;
    assert CacheOk(chain', cache', dirty + {meta.next}, file');
  }

  lemma AboutPager(pageSize: nat, file: seq<Bytes>, meta: Meta, cache: map<nat, Page>, dirty: set<nat>, chain: seq<FreeNode>)
    requires PagerOk(pageSize, file, meta, cache, dirty, chain)
    ensures 256 <= pageSize < U32 && |file| >= meta.next > 0
    ensures meta.freelistHead == ChainHead(chain) && StackOk(Flatten(chain), meta.next)
  {
    hide ChainOk, CacheOk, StackOk;
  }

  lemma HeadFits(pageSize: nat, file: seq<Bytes>, meta: Meta, cache: map<nat, Page>, dirty: set<nat>, chain: seq<FreeNode>)
    requires PagerOk(pageSize, file, meta, cache, dirty, chain)
    ensures chain != [] ==> |chain[0].freed| <= MaxFreedIds(pageSize)
  {
    hide DecodedPage, CacheOk, StackOk;
  }

  lemma LiveAfterPush(chain: seq<FreeNode>, chain': seq<FreeNode>, next: nat, next': nat, id: nat)
    requires id in Live(chain, next)
    requires (next' == next && Flatten(chain') == Flatten(chain) + [id])
          || (next' == next + 1 && Flatten(chain') == Flatten(chain) + [next, id])
    ensures Live(chain', next') == Live(chain, next) - {id}
  {
    hide Flatten;
  }

  lemma HeadZero(chain: seq<FreeNode>, next: nat)
    requires StackOk(Flatten(chain), next)
    ensures ChainHead(chain) == 0 <==> chain == []
    ensures Flatten(chain) == [] <==> chain == []
  {
    if chain != [] {
      assert Flatten(chain)[|Flatten(chain[1..])|] == chain[0].id;
    }
  }

  lemma LiveBumped(chain: seq<FreeNode>, next: nat)
    requires chain == [] && next > 0
    ensures next !in Live(chain, next) && Live(chain, next + 1) == Live(chain, next) + {next}
  {
    assert Flatten([]) == [];
  }

  lemma LiveAfterPop(chain: seq<FreeNode>, chain': seq<FreeNode>, next: nat)
    requires StackOk(Flatten(chain), next) && Flatten(chain) != [] && Flatten(chain') == DropLast(Flatten(chain))
    requires Last(Flatten(chain)) !in DropLast(Flatten(chain))
    ensures Last(Flatten(chain)) !in Live(chain, next)
    ensures Live(chain', next) == Live(chain, next) + {Last(Flatten(chain))}
  {
    hide Flatten, NoDup;
    var s := Flatten(chain);
    assert s == DropLast(s) + [Last(s)];
  }

  function Last(s: seq<nat>): nat
    requires s != []
  {
    s[|s| - 1]
  }

  function DropLast(s: seq<nat>): seq<nat>
    requires s != []
  {
    s[..|s| - 1]
  }

  lemma ChainBelow(chain: seq<FreeNode>, next: nat)
    requires StackOk(Flatten(chain), next)
    ensures forall id: nat :: InChain(chain, id) ==> 0 < id < next
  {
    forall id: nat | InChain(chain, id) ensures 0 < id < next {
      ChainInStack(chain, id);
    }
  }

  /** A change of the head page's entries leaves the rest of the chain alone. */
  lemma HeadChanged(chain: seq<FreeNode>, cache: map<nat, Page>, file: seq<Bytes>, pageSize: nat, freed: seq<nat>, p: Page)
    requires chain != [] && ChainOk(chain, cache, file, pageSize) && NoDup(Flatten(chain))
    requires IsFreePage(Some(p), FreeNode(chain[0].id, freed), ChainHead(chain[1..]), pageSize)
    ensures ChainOk(WithHead(chain, freed), cache[chain[0].id := p], file, pageSize)
  {
    hide DecodedPage;
    TailWithoutHead(chain);
    ChainFrame(chain[1..], cache, file, cache[chain[0].id := p], file, pageSize);
    assert WithHead(chain, freed)[1..] == chain[1..];
  }

  lemma TailWithoutHead(chain: seq<FreeNode>)
    requires chain != [] && NoDup(Flatten(chain))
    ensures !InChain(chain[1..], chain[0].id)
    ensures NoDup(Flatten(chain[1..]))
  {
    var t := Flatten(chain[1..]);
    assert t == Flatten(chain)[..|t|];
    assert Flatten(chain)[|t|] == chain[0].id;
    if InChain(chain[1..], chain[0].id) {
      ChainInStack(chain[1..], chain[0].id);
      assert false;
    }
  }

  lemma NewHeadMember(chain: seq<FreeNode>, freed: seq<nat>, id: nat)
    requires chain != []
    ensures InChain(WithHead(chain, freed), id) <==> InChain(chain, id)
  {
    var c := WithHead(chain, freed);
    assert forall i :: 0 <= i < |chain| ==> c[i].id == chain[i].id;
  }

  /** File contents after writing one block, padding with zero blocks when past the end. */
  function WriteBlock(file: seq<Bytes>, id: nat, data: Bytes): (r: seq<Bytes>)
    ensures |r| == if id < |file| then |file| else id + 1
    ensures r[id] == data
    ensures forall j :: 0 <= j < |file| && j != id ==> r[j] == file[j]
  {
    if id < |file| then file[id := data]
    else file + seq(id - |file|, i => Zeros(|data|)) + [data]
  }

  lemma FreePageEncodable(pageSize: nat, file: seq<Bytes>, meta: Meta, cache: map<nat, Page>, dirty: set<nat>, chain: seq<FreeNode>, id: nat)
    requires PagerOk(pageSize, file, meta, cache, dirty, chain) && id in cache && meta.next <= U64
    ensures Encodable(cache[id], pageSize)
  {
    hide DecodedPage, Flatten;
    var i :| 0 <= i < |chain| && chain[i].id == id;
    ChainMember(chain, cache, file, pageSize, meta.next, i);
  }

  lemma {:induction false} ChainMember(chain: seq<FreeNode>, cache: map<nat, Page>, file: seq<Bytes>, pageSize: nat, next: nat, i: nat)
    requires ChainOk(chain, cache, file, pageSize) && StackOk(Flatten(chain), next) && i < |chain|
    ensures IsFreePage(Staged(cache, file, chain[i].id), chain[i], ChainHead(chain[i + 1..]), pageSize)
    ensures ChainHead(chain[i + 1..]) == 0 || ChainHead(chain[i + 1..]) < next
    ensures forall k :: 0 <= k < |chain[i].freed| ==> chain[i].freed[k] < next
  {
    hide DecodedPage;
    var t := Flatten(chain[1..]);
    assert t == Flatten(chain)[..|t|];
    if i == 0 {
      assert forall k :: 0 <= k < |chain[0].freed| ==> chain[0].freed[k] == Flatten(chain)[|t| + 1 + k];
      if |chain| > 1 { assert Flatten(chain[1..])[|Flatten(chain[1..][1..])|] == chain[1].id; }
    } else {
      ChainMember(chain[1..], cache, file, pageSize, next, i - 1);
      assert chain[1..][i..] == chain[i + 1..];
    }
  }

  lemma CleanOne(pageSize: nat, file: seq<Bytes>, meta: Meta, cache: map<nat, Page>, dirty: set<nat>, chain: seq<FreeNode>, id: nat)
    requires PagerOk(pageSize, file, meta, cache, dirty, chain) && id in dirty && Encodable(cache[id], pageSize)
    ensures PagerOk(pageSize, WriteBlock(file, id, EncodedPage(cache[id], pageSize)), meta, cache, dirty - {id}, chain)
    ensures InChain(chain, id) && 0 < id < |file|
  {
    hide DecodedPage, EncodedPage;
    ChainBelow(chain, meta.next);
    PageRoundTrip(cache[id], pageSize);
    ChainFrame(chain, cache, file, cache, WriteBlock(file, id, EncodedPage(cache[id], pageSize)), pageSize);
    hide InChain, ChainOk, StackOk;
  }

  lemma DiskAlone(pageSize: nat, file: seq<Bytes>, meta: Meta, cache: map<nat, Page>, chain: seq<FreeNode>)
    requires PagerOk(pageSize, file, meta, cache, {}, chain)
    ensures ChainOk(chain, map[], file, pageSize)
  {
    hide DecodedPage;
    ChainFrame(chain, cache, file, map[], file, pageSize);
  }

  /** The file at the last checkpoint, the next page id, and the freelist in it. */
  datatype Saved = NothingSaved | Saved(file: seq<Bytes>, next: nat, chain: seq<FreeNode>)

  /** The pages of `chain` are the last ones of `from`, in this order, with whatever entries. */
  ghost predicate ShrunkFrom(chain: seq<FreeNode>, from: seq<FreeNode>)
  {
    |chain| <= |from| && forall i :: 0 <= i < |chain| ==> chain[i].id == from[|from| - |chain| + i].id
  }

  /**
   * Since the last checkpoint the file has only grown: no page has been written. New freelist pages are bump
   * allocated, so with the next page id unchanged the freelist can only have lost head pages.
   */
  ghost predicate SinceSaved(saved: Saved, file: seq<Bytes>, next: nat, chain: seq<FreeNode>)
  {
    saved.NothingSaved? ||
    (saved.file <= file && saved.next <= next && (next == saved.next ==> ShrunkFrom(chain, saved.chain)))
  }

  /** A bump-allocated page allows for any freelist. */
  lemma SavedBumped(saved: Saved, file: seq<Bytes>, next: nat, chain: seq<FreeNode>, block: Bytes, chain': seq<FreeNode>)
    requires SinceSaved(saved, file, next, chain)
    ensures SinceSaved(saved, file + [block], next + 1, chain')
  {
    assert file <= file + [block];
  }

  /** Entries of the head page come and go; the head page itself can only go. */
  lemma SavedShrunk(saved: Saved, file: seq<Bytes>, next: nat, chain: seq<FreeNode>, freed: seq<nat>)
    requires SinceSaved(saved, file, next, chain) && chain != []
    ensures SinceSaved(saved, file, next, WithHead(chain, freed)) && SinceSaved(saved, file, next, chain[1..])
  {
    var c := WithHead(chain, freed);
    assert |c| == |chain| && forall i :: 0 <= i < |chain| ==> c[i].id == chain[i].id;
  }

  /** Page 0 is the meta page as last written, and unless the meta has changed since it says what the meta is. */
  ghost predicate MetaOk(file: seq<Bytes>, metaBlock: Bytes, metaDirty: bool, meta: Meta)
  {
    && file != [] && file[0] == metaBlock
    && (!metaDirty ==> DecodedMeta(metaBlock) == Some(meta))
  }

  /** The data file of a new database. */
  ghost function InitialFile(pageSize: nat): seq<Bytes>
    requires pageSize >= 52
  {
    [EncodedMeta(Meta(pageSize, 1, 2, 0, 0)), EncodedPage(Page(0, Leaf(0, [])), pageSize)]
  }

  lemma NewPagerOk(file: seq<Bytes>, meta: Meta)
    requires 256 <= meta.pageSize < U32 && |file| == 2 && meta.next == 2 && meta.freelistHead == 0
    ensures PagerOk(meta.pageSize, file, meta, map[], {}, []) && FullBelow([], meta.pageSize)
  {
    hide DecodedPage;
  }

  lemma EmptyLeafFits(pageSize: nat)
    requires 52 <= pageSize < U32
    ensures Encodable(Page(0, Leaf(0, [])), pageSize)
  {
  }

  class Pager {
    const device: Device
    /** No page id may be leaked. */
    ghost const tight: bool
    var pageSize: nat
    /** The file as this process reads it back, one entry a page. */
    var file: seq<Bytes>
    var meta: Meta
    var metaDirty: bool
    var freelistCache: map<nat, Page>
    var dirtyFreelist: set<nat>
    ghost var chain: seq<FreeNode>
    /** The meta page as last written. */
    ghost var metaBlock: Bytes
    /** The file, the freelist and the next page id as of the last checkpoint. */
    ghost var saved: Saved
    /** Page ids that are neither free nor pages of the tree: lost in a crash, never to be handed out again. */
    ghost var leaked: set<nat>

    ghost predicate Valid()
      reads this
    {
      && PagerOk(pageSize, file, meta, freelistCache, dirtyFreelist, chain)
      && MetaOk(file, metaBlock, metaDirty, meta)
      && SinceSaved(saved, file, meta.next, chain)
      && leaked <= Live(chain, meta.next) && (tight ==> leaked == {} && |file| == meta.next && FullBelow(chain, pageSize))
    }

    /** A new database: the meta page and an empty root leaf. */
    constructor Bootstrap(device: Device, pageSize: nat)
      requires 256 <= pageSize < U32 && device.Valid()
      modifies device`blocks, device`history
      ensures device.Valid() && this.device == device && device.blocks == file == InitialFile(pageSize) && this.pageSize == pageSize
    {
      hide EncodedMeta, DecodedMeta, DecodedPage, EncodedPage, PagerOk, Recorded, Encodable, FullBelow, Live, Zeros;
      this.device, this.pageSize, file, saved, tight := device, pageSize, [], NothingSaved, true;
      meta, metaDirty := Meta(pageSize, 1, 1, 0, 0), false;
      freelistCache, dirtyFreelist, chain, metaBlock, leaked := map[], {}, [], [], {};
      new;
      // Extend the file by a page, hand out page 1, and write the leaf before the meta page.
      file, meta, metaDirty := file + [Zeros(pageSize)], meta.(next := 2), true;
      EmptyLeafFits(pageSize);
      var leaf := CodecMethods.EncodePage(Page(0, Leaf(0, [])), pageSize);
      WritePage(1, leaf);
      metaBlock := file[0];
      NewPagerOk(file, meta);
      FlushMeta();
      Fsync();
    }

    /** An existing data file; the source raises when its meta page does not decode. */
    constructor Open(device: Device, ghost tight: bool)
      requires device.blocks != [] && DecodedMeta(device.blocks[0]).Some?
      ensures this.device == device && this.tight == tight && file == device.blocks && metaBlock == file[0] && !metaDirty
      ensures meta == DecodedMeta(file[0]).value && pageSize == meta.pageSize
      ensures freelistCache == map[] && dirtyFreelist == {} && saved == NothingSaved && leaked == {}
    {
      hide DecodedMeta;
      var decoded := DecodedMeta(device.blocks[0]).value;
      this.device, this.tight, file, meta, metaDirty, pageSize := device, tight, device.blocks, decoded, false, decoded.pageSize;
      freelistCache, dirtyFreelist, chain, metaBlock, saved, leaked := map[], {}, [], device.blocks[0], NothingSaved, {};
    }

    /** The freelist as a plain stack of page ids, top last. */
    ghost function Stack(): seq<nat>
      reads this
    {
      Flatten(chain)
    }

    ghost function Upcoming(k: nat): nat
      reads this
    {
      UpcomingId(Stack(), meta.next, k)
    }

    /** Pages handed out and not freed since, other than the leaked ones: the pages of the tree. */
    ghost function LiveIds(): set<nat>
      reads this
    {
      Live(chain, meta.next) - leaked
    }

    method ReadFreelistHeadPage() returns (p: Page)
      requires Valid() && chain != []
      modifies this`freelistCache
      ensures Valid() && meta.freelistHead in freelistCache && p == freelistCache[meta.freelistHead]
      ensures IsFreePage(Some(p), chain[0], ChainHead(chain[1..]), pageSize)
    {
      hide DecodedPage;
      var id := meta.freelistHead;
      assert chain[0].id == id && InChain(chain, id);
      if id in freelistCache {
        p := freelistCache[id];
      } else {
        var decoded := CodecMethods.DecodePage(file[id]);
        p := decoded.value;
        ChainFrame(chain, freelistCache, file, freelistCache[id := p], file, pageSize);
        freelistCache := freelistCache[id := p];
      }
    }

    method BumpAllocateOnePage() returns (id: nat)
      requires Valid()
      modifies this`file, this`meta, this`metaDirty
      ensures Valid()
      ensures id == old(meta.next) && meta == old(meta).(next := id + 1)
      ensures file == old(file) + [Zeros(pageSize)]
    {
      hide DecodedMeta, DecodedPage, SinceSaved;
      id := meta.next;
      SavedBumped(saved, file, meta.next, chain, Zeros(pageSize), chain);
      ChainBelow(chain, meta.next);
      ChainFrame(chain, freelistCache, file, freelistCache, file + [Zeros(pageSize)], pageSize);
      file := file + [Zeros(pageSize)];
      meta, metaDirty := meta.(next := id + 1), true;
    }

    method AllocatePage() returns (id: nat)
      requires Valid()
      modifies this`file, this`meta, this`metaDirty, this`freelistCache, this`dirtyFreelist, this`chain
      ensures Valid()
      ensures if old(Stack()) == [] then id == old(meta.next) && Stack() == []
              else id == Last(old(Stack())) && Stack() == DropLast(old(Stack()))
      ensures id == old(Upcoming(0)) && Upcoming(0) == old(Upcoming(1))
      ensures id !in old(LiveIds()) && LiveIds() == old(LiveIds()) + {id}
      ensures if old(chain) == [] then chain == [] && meta == old(meta).(next := id + 1) && file == old(file) + [Zeros(pageSize)]
              else
                && file == old(file) && meta == old(meta).(freelistHead := ChainHead(chain))
                && chain == if old(chain)[0].freed == [] then old(chain)[1..] else WithHead(old(chain), DropLast(old(chain)[0].freed))
    {
      hide DecodedMeta, DecodedPage, CacheOk, ChainOk, StackOk, SinceSaved, FullBelow, UpcomingId, InChain, Live, NoDup;
      ghost var was := chain;
      StaysFull(chain, pageSize);
      HeadZero(chain, meta.next);
      if meta.freelistHead != 0 {
        FlattenPop(chain, meta.next);
        var head := ReadFreelistHeadPage();
        var freed := head.body.freed;
        SavedShrunk(saved, file, meta.next, chain, if freed == [] then [] else DropLast(freed));
        if freed != [] {
          id := Last(freed);
          var page := Page(head.lsn, Freelist(head.body.next, DropLast(freed)));
          PopEntry(pageSize, file, meta, freelistCache, dirtyFreelist, chain, page);
          chain := WithHead(chain, DropLast(freed));
          MarkFreelistPageDirty(meta.freelistHead, page);
        } else {
          // The head page is exhausted: hand out the page itself.
          id := meta.freelistHead;
          RecycleHead(pageSize, file, meta, freelistCache, dirtyFreelist, chain);
          chain := chain[1..];
          meta, metaDirty := meta.(freelistHead := head.body.next), true;
        }
        freelistCache, dirtyFreelist := freelistCache - {id}, dirtyFreelist - {id};
        LiveAfterPop(was, chain, meta.next);
        UpcomingPopped(Flatten(was), meta.next);
      } else {
        UpcomingBumped(meta.next);
        id := BumpAllocateOnePage();
        LiveBumped(chain, id);
      }
    }

    method MarkFreelistPageDirty(id: nat, p: Page)
      modifies this`freelistCache, this`dirtyFreelist
      ensures freelistCache == old(freelistCache)[id := p] && dirtyFreelist == old(dirtyFreelist) + {id}
    {
      freelistCache, dirtyFreelist := freelistCache[id := p], dirtyFreelist + {id};
    }

    method FreePage(id: nat)
      requires Valid() && id in LiveIds()
      modifies this`file, this`meta, this`metaDirty, this`freelistCache, this`dirtyFreelist, this`chain
      ensures Valid()
      ensures LiveIds() == old(LiveIds()) - {id}
      ensures if HasRoom(old(chain), pageSize) then
                && Stack() == old(Stack()) + [id] && chain == WithHead(old(chain), old(chain)[0].freed + [id])
                && meta == old(meta) && metaDirty == old(metaDirty) && file == old(file)
              else
                && Stack() == old(Stack()) + [old(meta.next), id] && chain == [FreeNode(old(meta.next), [id])] + old(chain)
                && meta == old(meta).(next := old(meta.next) + 1, freelistHead := old(meta.next)) && file == old(file) + [Zeros(pageSize)]
    {
      hide DecodedMeta, DecodedPage, CacheOk, ChainOk, StackOk, SinceSaved, PagerOk, Flatten, FullBelow, Live, InChain;
      ghost var was, next := chain, meta.next;
      HeadFits(pageSize, file, meta, freelistCache, dirtyFreelist, chain);
      FreedFull(chain, pageSize, id, next);
      AboutPager(pageSize, file, meta, freelistCache, dirtyFreelist, chain);
      HeadZero(chain, meta.next);
      if meta.freelistHead != 0 {
        var head := ReadFreelistHeadPage();
        if |head.body.freed| < MaxFreedIds(pageSize) {
          var page := Page(head.lsn, Freelist(head.body.next, head.body.freed + [id]));
          SavedShrunk(saved, file, meta.next, chain, head.body.freed + [id]);
          PushEntry(pageSize, file, meta, freelistCache, dirtyFreelist, chain, page, id);
          chain := WithHead(chain, head.body.freed + [id]);
          MarkFreelistPageDirty(meta.freelistHead, page);
          LiveAfterPush(was, chain, next, next, id);
          return;
        }
      }
      var page := Page(0, Freelist(meta.freelistHead, [id]));
      SavedBumped(saved, file, meta.next, chain, Zeros(pageSize), [FreeNode(meta.next, [id])] + chain);
      NewHead(pageSize, file, meta, freelistCache, dirtyFreelist, chain, page, id);
      var newHead := BumpAllocateOnePage();
      chain := [FreeNode(newHead, [id])] + chain;
      MarkFreelistPageDirty(newHead, page);
      meta, metaDirty := meta.(freelistHead := newHead), true;
      LiveAfterPush(was, chain, next, meta.next, id);
    }

    method WritePage(id: nat, data: Bytes)
      modifies this`file
      ensures file == WriteBlock(old(file), id, data)
    {
      file := WriteBlock(file, id, data);
    }

    /** Afterwards the chain can be read from the file alone. */
    method FlushDirtyFreelistPages()
      requires Valid() && meta.next <= U64
      modifies this`file, this`dirtyFreelist, this`saved
      ensures Valid() && dirtyFreelist == {} && saved == NothingSaved
      ensures ChainOk(chain, map[], file, pageSize)
      ensures |file| == |old(file)|
      ensures forall id :: 0 <= id < |file| && !InChain(chain, id) ==> file[id] == old(file[id])
    {
      hide DecodedPage, DecodedMeta, ChainOk, StackOk, InChain, WriteBlock;
      var todo := dirtyFreelist;
      while todo != {}
        invariant PagerOk(pageSize, file, meta, freelistCache, todo, chain) && MetaOk(file, metaBlock, metaDirty, meta)
        invariant |file| == |old(file)|
        invariant forall id :: 0 <= id < |file| && !InChain(chain, id) ==> file[id] == old(file[id])
        decreases todo
      {
        var id :| id in todo;
        FreePageEncodable(pageSize, file, meta, freelistCache, todo, chain, id);
        var data := CodecMethods.EncodePage(freelistCache[id], pageSize);
        CleanOne(pageSize, file, meta, freelistCache, todo, chain, id);
        WritePage(id, data);
        todo := todo - {id};
      }
      dirtyFreelist, saved := {}, NothingSaved;
      DiskAlone(pageSize, file, meta, freelistCache, chain);
    }

    method UpdateMeta(m: Meta)
      modifies this`meta, this`metaDirty
      ensures meta == m && metaDirty
    {
      meta, metaDirty := m, true;
    }

    /** Writes the meta page, block 0, which no chain page occupies. */
    method FlushMeta()
      requires Valid() && meta.pageSize == pageSize && meta.root < U64 && meta.next <= U64 - 1 && meta.checkpointLsn < U64
      modifies this`file, this`metaDirty, this`metaBlock, this`saved
      ensures Valid() && !metaDirty && metaBlock == EncodedMeta(meta)
      ensures file == old(file)[0 := EncodedMeta(meta)] && DecodedMeta(file[0]) == Some(meta)
    {
      hide DecodedPage, ChainOk, EncodedMeta, DecodedMeta;
      ChainBelow(chain, meta.next);
      if chain != [] { assert InChain(chain, chain[0].id); }
      MetaRoundTrip(meta);
      ghost var file' := file[0 := EncodedMeta(meta)];
      ChainFrame(chain, freelistCache, file, freelistCache, file', pageSize);
      WritePage(0, EncodedMeta(meta));
      metaDirty, metaBlock, saved := false, file[0], NothingSaved;
    }

    method Fsync()
      requires device.Valid()
      modifies device`blocks, device`history
      ensures device.Valid() && device.blocks == file
      ensures device.history == old(device.history) + [Moment(Disk(file, device.log), device.exposed)]
    {
      hide Recorded;
      device.SyncBlocks(file);
    }

    /** A checkpoint starts to write pages in place. */
    ghost method StartWriting()
      requires Valid()
      modifies this`saved
      ensures Valid() && saved == NothingSaved
    {
      saved := NothingSaved;
    }

    /** What is in the file now is what the next recovery would start from. */
    ghost method Remember()
      requires PagerOk(pageSize, file, meta, freelistCache, dirtyFreelist, chain) && MetaOk(file, metaBlock, metaDirty, meta)
      requires leaked <= Live(chain, meta.next) && (tight ==> leaked == {} && |file| == meta.next && FullBelow(chain, pageSize))
      modifies this`saved
      ensures Valid() && saved == Saved(file, meta.next, chain)
    {
      saved := Saved(file, meta.next, chain);
    }
  }

  /** A page that is freed is the next one handed out. */
  method FreeThenAllocate(pager: Pager, id: nat) returns (again: nat)
    requires pager.Valid() && id in pager.LiveIds()
    modifies pager
    ensures pager.Valid() && again == id && pager.LiveIds() == old(pager.LiveIds())
  {
    hide PagerOk, MetaOk, Live, Flatten;
    pager.FreePage(id);
    again := pager.AllocatePage();
  }

  /** Every page id that is not live is handed out sooner or later: the free ones, and all from `next` on. */
  method AllocateUntil(pager: Pager, id: nat) returns (given: seq<nat>)
    requires pager.Valid() && id > 0 && id !in Live(pager.chain, pager.meta.next)
    modifies pager
    ensures pager.Valid() && given != [] && given[|given| - 1] == id
  {
    hide PagerOk, MetaOk, Flatten;
    given := [];
    while true
      invariant pager.Valid() && id !in Live(pager.chain, pager.meta.next)
      decreases |pager.Stack()|, if pager.meta.next <= id then id - pager.meta.next else 0
    {
      ghost var stack := pager.Stack();
      var x := pager.AllocatePage();
      given := given + [x];
      if x == id { return; }
      if stack != [] { assert stack == DropLast(stack) + [Last(stack)]; }
    }
  }
}
