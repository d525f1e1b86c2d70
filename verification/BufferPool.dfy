/** The LRU buffer pool: a cache of decoded pages laid over the page file. */
module Cache {
  import opened Bytes
  import opened Entities
  import opened Codec
  import CodecMethods
  import opened Paging

  datatype Cached = Cached(page: Page, dirty: bool)

  /** What the file alone says every page is. */
  ghost function DiskView(file: seq<Bytes>): map<nat, Body>
  {
    map id: nat | 0 <= id < |file| && DecodedPage(file[id]).Some? :: DecodedPage(file[id]).value.body
  }

  ghost function CacheView(cache: map<nat, Cached>): map<nat, Body>
  {
    map id | id in cache :: cache[id].page.body
  }

  /** Cached pages laid over the file: what the tree reads. */
  ghost function Overlay(cache: map<nat, Cached>, file: seq<Bytes>): map<nat, Body>
  {
    DiskView(file) + CacheView(cache)
  }

  ghost function DirtyIds(cache: map<nat, Cached>): set<nat>
  {
    set id | id in cache && cache[id].dirty
  }

  /** Least recently used first, every cached page once. */
  ghost predicate OrderOk(order: seq<nat>, cache: map<nat, Cached>)
  {
    NoDup(order) && forall id :: id in order <==> id in cache
  }

  function Newer(a: nat, b: nat): nat { if a >= b then a else b }

  ghost predicate LsnOk(cache: map<nat, Cached>)
  {
    forall id :: id in cache ==> cache[id].page.lsn < U64
  }

  /** Unmarked pages are as on disk, unless an operation has changed them and not marked them yet. */
  ghost predicate InSync(cache: map<nat, Cached>, file: seq<Bytes>, stale: set<nat>)
  {
    forall id :: id in cache && !cache[id].dirty && id !in stale ==>
      id < |file| && DecodedPage(file[id]) == Some(cache[id].page)
  }

  /** Pages touched by the running operation are the most recently used ones. */
  ghost predicate TouchedLast(order: seq<nat>, touched: set<nat>)
  {
    forall i, j :: 0 <= i < j < |order| && order[i] in touched ==> order[j] in touched
  }

  ghost function HeldIds(touched: set<nat>, cache: map<nat, Cached>): set<nat>
  {
    touched * cache.Keys
  }

  /** However the credits are spent, no more than `limit` pages will be dirty or touched. */
  ghost predicate Headroom(cache: map<nat, Cached>, touched: set<nat>, credits: nat, limit: nat)
  {
    |DirtyIds(cache) + touched| + credits <= limit
  }

  /** Dropping an unmarked page that is as on disk changes nothing a reader sees. */
  lemma EvictView(cache: map<nat, Cached>, file: seq<Bytes>, stale: set<nat>, id: nat)
    requires InSync(cache, file, stale) && id in cache && !cache[id].dirty && id !in stale
    ensures Overlay(cache - {id}, file) == Overlay(cache, file)
    ensures DirtyIds(cache - {id}) == DirtyIds(cache)
    ensures InSync(cache - {id}, file, stale)
  {
    hide DecodedPage;
  }

  /** The least recently used page that is not dirty. */
  ghost predicate OldestClean(order: seq<nat>, cache: map<nat, Cached>, i: nat)
  {
    && i < |order| && order[i] in cache && !cache[order[i]].dirty
    && forall j :: 0 <= j < i ==> order[j] in cache && cache[order[j]].dirty
  }

  ghost predicate DropsOldestClean(order: seq<nat>, cache: map<nat, Cached>, order': seq<nat>, cache': map<nat, Cached>)
  {
    exists i: nat :: OldestClean(order, cache, i) && order' == order[..i] + order[i + 1..] && cache' == cache - {order[i]}
  }

  lemma Without(order: seq<nat>, cache: map<nat, Cached>, i: nat, touched: set<nat>)
    requires OrderOk(order, cache) && i < |order|
    ensures OrderOk(order[..i] + order[i + 1..], cache - {order[i]})
    ensures TouchedLast(order, touched) ==> TouchedLast(order[..i] + order[i + 1..], touched)
  {
    var t := order[..i] + order[i + 1..];
    assert forall k :: 0 <= k < |t| ==> t[k] == order[if k < i then k else k + 1];
    forall id | id in order && id != order[i] ensures id in t {
      var k :| 0 <= k < |order| && order[k] == id;
      assert t[if k < i then k else k - 1] == id;
    }
  }

  /** With headroom left in a full pool, some clean page is untouched, and the oldest clean one is. */
  lemma OldestCleanIsUntouched(order: seq<nat>, cache: map<nat, Cached>, touched: set<nat>, credits: nat, limit: nat, i: nat)
    requires OrderOk(order, cache) && TouchedLast(order, touched) && Headroom(cache, touched, credits, limit)
    requires credits > 0 && |cache| >= limit && i <= |order|
    requires forall j :: 0 <= j < i ==> cache[order[j]].dirty
    requires i < |order| ==> !cache[order[i]].dirty
    ensures i < |order| && order[i] !in touched
  {
    var pinned := DirtyIds(cache) + touched;
    if cache.Keys <= pinned {
      SubsetSize(cache.Keys, pinned);
      assert false;
    }
    var id :| id in cache.Keys && id !in pinned;
    var k :| 0 <= k < |order| && order[k] == id;
    assert k >= i;
  }

  lemma {:induction false} SubsetSize<T>(a: set<T>, b: set<T>)
    requires a <= b
    ensures |a| <= |b|
  {
    if a != {} {
      var x :| x in a;
      SubsetSize(a - {x}, b - {x});
    }
  }

  /** Loading a page the pool does not hold changes nothing a reader sees. */
  lemma LoadView(cache: map<nat, Cached>, file: seq<Bytes>, stale: set<nat>, id: nat, p: Page)
    requires id !in cache && id < |file| && DecodedPage(file[id]) == Some(p) && InSync(cache, file, stale)
    ensures Overlay(cache[id := Cached(p, false)], file) == Overlay(cache, file)
    ensures DirtyIds(cache[id := Cached(p, false)]) == DirtyIds(cache)
    ensures InSync(cache[id := Cached(p, false)], file, stale)
  {
    hide DecodedPage;
  }

  lemma Loaded(cache: map<nat, Cached>, file: seq<Bytes>, stale: set<nat>, id: nat, p: Page)
    requires id !in cache && id < |file| && DecodedPage(file[id]) == Some(p) && InSync(cache, file, stale) && LsnOk(cache)
    ensures Overlay(cache[id := Cached(p, false)], file) == Overlay(cache, file)
    ensures DirtyIds(cache[id := Cached(p, false)]) == DirtyIds(cache)
    ensures InSync(cache[id := Cached(p, false)], file, stale) && LsnOk(cache[id := Cached(p, false)])
  {
    hide *;
    LoadView(cache, file, stale, id, p);
    DecodedLsn(file[id]);
    LsnKept(cache, id, Cached(p, false));
  }

  lemma LsnKept(cache: map<nat, Cached>, id: nat, c: Cached)
    requires LsnOk(cache)
    ensures LsnOk(cache - {id})
    ensures c.page.lsn < U64 ==> LsnOk(cache[id := c])
  {
  }

  function Remove(order: seq<nat>, id: nat): seq<nat>
  {
    if order == [] then [] else if order[0] == id then order[1..] else [order[0]] + Remove(order[1..], id)
  }

  /** Taking a cached page out of the order. */
  lemma Removed(order: seq<nat>, cache: map<nat, Cached>, id: nat, touched: set<nat>)
    requires OrderOk(order, cache) && id in cache
    ensures OrderOk(Remove(order, id), cache - {id})
    ensures TouchedLast(order, touched) ==> TouchedLast(Remove(order, id), touched)
  {
    var i := RemoveAt(order, id);
    Without(order, cache, i, touched);
  }

  lemma {:induction false} RemoveAt(order: seq<nat>, id: nat) returns (i: nat)
    requires id in order
    ensures i < |order| && order[i] == id && Remove(order, id) == order[..i] + order[i + 1..]
  {
    if order[0] == id {
      i := 0;
    } else {
      var j := RemoveAt(order[1..], id);
      i := j + 1;
    }
  }

  /** Putting a page at the most recently used end. */
  lemma Appended(order: seq<nat>, cache: map<nat, Cached>, id: nat, c: Cached, touched: set<nat>)
    requires OrderOk(order, cache) && id !in cache
    ensures OrderOk(order + [id], cache[id := c])
    ensures TouchedLast(order, touched) ==> TouchedLast(order + [id], touched + {id})
  {
    assert id !in order;
    assert (order + [id])[|order|] == id;
    forall x | x in cache[id := c] ensures x in order + [id] {
      if x in cache { assert x in order; }
    }
  }

  lemma TouchHeadroom(cache: map<nat, Cached>, cache': map<nat, Cached>, touched: set<nat>, credits: nat, capacity: nat, id: nat, held: bool)
    requires Headroom(cache, touched, credits, capacity) && if held then id in touched else credits > 0
    requires DirtyIds(cache') <= DirtyIds(cache) + {id}
    ensures Headroom(cache', touched + {id}, if held then credits else credits - 1, capacity)
  {
    var was, now := DirtyIds(cache) + touched, DirtyIds(cache') + (touched + {id});
    SubsetSize(now, was + {id});
    if held { assert was + {id} == was; }
  }

  lemma CachedView(cache: map<nat, Cached>, file: seq<Bytes>, id: nat)
    requires id in cache
    ensures id in Overlay(cache, file) && Overlay(cache, file)[id] == cache[id].page.body
  {
  }

  lemma UncachedView(cache: map<nat, Cached>, file: seq<Bytes>, id: nat)
    requires id !in cache && id in Overlay(cache, file)
    ensures id < |file| && DecodedPage(file[id]).Some? && Overlay(cache, file)[id] == DecodedPage(file[id]).value.body
  {
    hide DecodedPage;
  }

  lemma PutView(cache: map<nat, Cached>, file: seq<Bytes>, id: nat, c: Cached)
    ensures Overlay(cache[id := c], file) == Overlay(cache, file)[id := c.page.body]
    ensures id in cache && Overlay(cache, file)[id] == c.page.body ==> Overlay(cache[id := c], file) == Overlay(cache, file)
  {
    hide DecodedPage;
  }

  lemma PutMarks(cache: map<nat, Cached>, file: seq<Bytes>, stale: set<nat>, id: nat, c: Cached)
    ensures DirtyIds(cache[id := c]) == if c.dirty then DirtyIds(cache) + {id} else DirtyIds(cache) - {id}
    ensures InSync(cache, file, stale) ==> InSync(cache[id := c], file, stale + {id})
    ensures InSync(cache, file, stale) && c.dirty ==> InSync(cache[id := c], file, stale - {id})
    ensures id in cache ==> cache[id := c].Keys == cache.Keys
  {
    hide DecodedPage;
  }

  lemma DropView(cache: map<nat, Cached>, file: seq<Bytes>, stale: set<nat>, id: nat)
    ensures Same(Overlay(cache - {id}, file), Overlay(cache, file), id)
    ensures DirtyIds(cache - {id}) == DirtyIds(cache) - {id}
    ensures InSync(cache, file, stale) ==> InSync(cache - {id}, file, stale - {id})
    ensures id !in cache ==> cache - {id} == cache
  {
    hide DecodedPage;
  }

  /** The two views agree about every page but `id`. */
  ghost predicate Same(v: map<nat, Body>, w: map<nat, Body>, id: nat)
  {
    forall j :: j != id ==> (j in v <==> j in w) && (j in v ==> v[j] == w[j])
  }

  /** The order does not change when a cached page does. */
  lemma OrderKept(order: seq<nat>, cache: map<nat, Cached>, id: nat, c: Cached)
    requires OrderOk(order, cache) && id in cache
    ensures OrderOk(order, cache[id := c])
  {
  }

  lemma PinnedHeadroom(cache: map<nat, Cached>, cache': map<nat, Cached>, touched: set<nat>, credits: nat, capacity: nat)
    requires Headroom(cache, touched, credits, capacity) && DirtyIds(cache') <= DirtyIds(cache) + touched
    ensures Headroom(cache', touched, credits, capacity)
  {
    SubsetSize(DirtyIds(cache') + touched, DirtyIds(cache) + touched);
  }

  /** The file growing by a blank page changes nothing a reader sees. */
  lemma BlankPage(cache: map<nat, Cached>, file: seq<Bytes>, stale: set<nat>, pageSize: nat)
    requires pageSize > 0
    ensures Overlay(cache, file + [Zeros(pageSize)]) == Overlay(cache, file)
    ensures InSync(cache, file, stale) ==> InSync(cache, file + [Zeros(pageSize)], stale)
  {
    assert DecodedPage(Zeros(pageSize)).None?;
    hide DecodedPage;
    var grown := file + [Zeros(pageSize)];
    assert forall i :: 0 <= i < |file| ==> grown[i] == file[i];
    assert DiskView(grown) == DiskView(file);
  }

  /** Writing a dirty page out and marking it clean. */
  lemma FlushOne(cache: map<nat, Cached>, file: seq<Bytes>, id: nat, pageSize: nat)
    requires id in cache && id < |file| && Encodable(cache[id].page, pageSize) && InSync(cache, file, {}) && cache[id].dirty
    ensures var c, f := cache[id := cache[id].(dirty := false)], file[id := EncodedPage(cache[id].page, pageSize)];
      && Overlay(c, f) == Overlay(cache, file) && InSync(c, f, {}) && DirtyIds(c) == DirtyIds(cache) - {id}
  {
    hide DecodedPage, EncodedPage;
    PageRoundTrip(cache[id].page, pageSize);
    var c, f := cache[id := cache[id].(dirty := false)], file[id := EncodedPage(cache[id].page, pageSize)];
    assert CacheView(c) == CacheView(cache);
    assert forall j :: j in DiskView(f) && j != id ==> j in DiskView(file) && DiskView(f)[j] == DiskView(file)[j];
    assert forall j :: j in DiskView(file) && j != id ==> j in DiskView(f);
  }

  lemma AllClean(cache: map<nat, Cached>, file: seq<Bytes>)
    requires InSync(cache, file, {}) && DirtyIds(cache) == {}
    ensures Overlay(cache, file) == DiskView(file)
  {
    hide DecodedPage;
    forall id | id in cache ensures id in DiskView(file) && DiskView(file)[id] == cache[id].page.body {
      assert id !in DirtyIds(cache);
    }
  }

  /** The same pages are cached; only dirty marks differ. */
  ghost predicate SamePages(a: map<nat, Cached>, b: map<nat, Cached>)
  {
    a.Keys == b.Keys && forall id :: id in a ==> b[id].page == a[id].page
  }

  /** What has been changed carries the LSN `stamp` or a newer one, as far as it is not stale. */
  ghost predicate Stamps(cache: map<nat, Cached>, changed: set<nat>, stale: set<nat>, stamp: nat)
  {
    forall id :: id in changed ==> id in cache && (id in stale || cache[id].page.lsn >= stamp)
  }

  lemma StampsKept(cache: map<nat, Cached>, cache': map<nat, Cached>, changed: set<nat>, stale: set<nat>, stamp: nat, gone: nat)
    requires Stamps(cache, changed, stale, stamp) && gone !in changed
    requires forall id :: id in cache && id != gone ==> id in cache' && cache'[id].page.lsn >= cache[id].page.lsn
    ensures Stamps(cache', changed, stale, stamp)
  {
  }

  lemma StampsMarked(cache: map<nat, Cached>, changed: set<nat>, stale: set<nat>, stamp: nat, id: nat, c: Cached)
    requires Stamps(cache, changed, stale, stamp) && id in cache && c.page.lsn >= cache[id].page.lsn
    ensures Stamps(cache[id := c], changed, stale, stamp)
    ensures c.page.lsn >= stamp ==> Stamps(cache[id := c], changed, stale - {id}, stamp)
  {
  }

  lemma StampsAdded(cache: map<nat, Cached>, changed: set<nat>, stale: set<nat>, stamp: nat, id: nat)
    requires Stamps(cache, changed, stale, stamp) && id in cache
    ensures Stamps(cache, changed + {id}, stale + {id}, stamp)
    ensures cache[id].page.lsn >= stamp ==> Stamps(cache, changed + {id}, stale, stamp)
  {
  }

  lemma StampsDropped(cache: map<nat, Cached>, changed: set<nat>, stale: set<nat>, stamp: nat, id: nat)
    requires Stamps(cache, changed, stale, stamp)
    ensures Stamps(cache - {id}, changed - {id}, stale - {id}, stamp)
  {
  }

  lemma SyncMarked(cache: map<nat, Cached>, file: seq<Bytes>, stale: set<nat>, id: nat)
    requires InSync(cache, file, stale - {id})
    ensures InSync(cache, file, stale)
  {
  }

  lemma MoreStale(cache: map<nat, Cached>, file: seq<Bytes>, stale: set<nat>, id: nat)
    requires InSync(cache, file, stale)
    ensures InSync(cache, file, stale + {id})
  {
  }

  class BufferPool {
    const pager: Pager
    const capacity: nat
    var order: seq<nat>
    var cache: map<nat, Cached>
    var evictionEnabled: bool

    /** An operation is running that must not lose the pages it has touched. */
    ghost var pinning: bool
    /** Pages it has touched so far. */
    ghost var touched: set<nat>
    /** How many more pages it may touch. */
    ghost var credits: nat
    /** How many pages may be dirty when it ends. */
    ghost var limit: nat
    /** Pages it has changed and not marked dirty with its own LSN yet. */
    ghost var stale: set<nat>
    /** Its LSN, and the pages of the pool it has changed or added. */
    ghost var stamp: nat
    ghost var changed: set<nat>

    ghost predicate Valid()
      reads this, pager`file
    {
      && OrderOk(order, cache)
      && InSync(cache, pager.file, stale) && LsnOk(cache)
      && stale <= Held()
      && (if pinning then changed <= Held() && Stamps(cache, changed, stale, stamp) else touched == {})
      && (pinning && evictionEnabled ==> TouchedLast(order, touched) && Headroom(cache, touched, credits, limit) && limit <= capacity)
    }

    /** Touched pages that are in the pool. */
    ghost function Held(): set<nat>
      reads this
    {
      HeldIds(touched, cache)
    }

    ghost function View(): map<nat, Body>
      reads this, pager`file
    {
      Overlay(cache, pager.file)
    }

    ghost function Dirty(): set<nat>
      reads this
    {
      DirtyIds(cache)
    }

    /** The operation may touch `id`. */
    ghost predicate MayTouch(id: nat)
      reads this
    {
      pinning && evictionEnabled ==> id in Held() || credits > 0
    }

    /** Records that the operation touches `id`; a page it does not hold yet costs a credit. */
    ghost method Touch(id: nat, held: bool)
      requires pinning && evictionEnabled && !held ==> credits > 0
      modifies this`touched, this`credits
      ensures touched == if pinning then old(touched) + {id} else old(touched)
      ensures credits == if pinning && evictionEnabled && !held then old(credits) - 1 else old(credits)
    {
      if pinning {
        if evictionEnabled && !held { credits := credits - 1; }
        touched := touched + {id};
      }
    }

    constructor (pager: Pager, capacity: nat)
      ensures this.pager == pager && this.capacity == capacity && cache == map[] && evictionEnabled
      ensures !pinning && Valid()
    {
      this.pager, this.capacity := pager, capacity;
      order, cache, evictionEnabled := [], map[], true;
      pinning, touched, credits, limit, stale, stamp, changed := false, {}, 0, 0, {}, 0, {};
    }

    /** `eviction_disabled` sets this on entry and resets it on exit. */
    method SetEvictionEnabled(enabled: bool)
      requires Valid() && !pinning
      modifies this`evictionEnabled
      ensures Valid() && evictionEnabled == enabled
    {
      evictionEnabled := enabled;
    }

    /** `dirty_ratio`; a pool without room has no ratio in the source. */
    method DirtyRatio() returns (r: real)
      requires Valid() && capacity > 0
      ensures r == (|Dirty()| as real) / (capacity as real)
    {
      hide OrderOk, LsnOk, Stamps, InSync, TouchedLast, Headroom, Overlay, NoDup;
      var count: nat, i: nat := 0, 0;
      assert order[..0] == [];
      DirtyAmongNone(cache);
      while i < |order|
        invariant i <= |order| && count == |DirtyAmong(order[..i], cache)|
      {
        DirtyAmongMore(order, cache, i);
        if cache[order[i]].dirty { count := count + 1; }
        i := i + 1;
      }
      assert order[..i] == order;
      DirtyAmongAll(order, cache);
      r := (count as real) / (capacity as real);
    }

    /** Every page that the operation with this LSN has changed or added, and not deleted since, carries it or a newer one. */
    ghost predicate Stamped(lsn: nat)
      reads this
    {
      Stamps(cache, changed, {}, lsn)
    }

    /** Start of the operation with this LSN, which may touch `n` pages. */
    ghost method Begin(n: nat, lsn: nat)
      requires Valid() && !pinning
      requires evictionEnabled ==> |Dirty()| + n <= capacity
      modifies this`pinning, this`touched, this`credits, this`limit, this`stamp, this`changed
      ensures Valid() && pinning && touched == {} && credits == n && limit == |Dirty()| + n && stamp == lsn && changed == {}
    {
      pinning, touched, credits, limit, stamp, changed := true, {}, n, |Dirty()| + n, lsn, {};
      assert DirtyIds(cache) + {} == DirtyIds(cache);
    }

    /** Its end: everything it changed has been marked. */
    ghost method End()
      requires Valid() && stale == {}
      modifies this`pinning, this`touched, this`credits
      ensures Valid() && !pinning && (old(pinning) && evictionEnabled ==> |Dirty()| <= limit)
      ensures old(pinning) ==> Stamped(stamp)
    {
      hide OrderOk, InSync, LsnOk, Stamps, TouchedLast, DirtyIds;
      if pinning && evictionEnabled { SubsetSize(Dirty(), Dirty() + touched); }
      pinning, touched, credits := false, {}, 0;
    }

    /** False when the pool is full of dirty pages (`DBBufferPoolOverflowError`). */
    method EvictOldestCleanPageIfFull() returns (ok: bool)
      requires Valid()
      requires pinning && evictionEnabled ==> credits > 0
      modifies this`order, this`cache
      ensures Valid()
      ensures View() == old(View()) && Dirty() == old(Dirty()) && Held() == old(Held())
      ensures cache.Keys <= old(cache.Keys) && forall id :: id in cache ==> cache[id] == old(cache)[id]
      ensures ok <==> !(evictionEnabled && |old(cache)| >= capacity && old(Dirty()) == old(cache.Keys))
      ensures if ok && evictionEnabled && |old(cache)| >= capacity then DropsOldestClean(old(order), old(cache), order, cache)
              else cache == old(cache) && order == old(order)
      ensures pinning ==> ok
    {
      hide NoDup, LsnOk, Stamps, InSync, TouchedLast, Headroom, Overlay, DirtyIds;
      ok := true;
      if evictionEnabled && |cache| >= capacity {
        var i := 0;
        while i < |order| && cache[order[i]].dirty
          invariant i <= |order|
          invariant forall j :: 0 <= j < i ==> cache[order[j]].dirty
        {
          i := i + 1;
        }
        if pinning { OldestCleanIsUntouched(order, cache, touched, credits, limit, i); }
        if i == |order| {
          AllDirty(order, cache);
          return false;
        }
        NotAllDirty(cache, order[i]);
        EvictView(cache, pager.file, stale, order[i]);
        LsnKept(cache, order[i], cache[order[i]]);
        Without(order, cache, i, touched);
        HeadroomKept(cache, cache - {order[i]}, touched, credits, limit);
        assert OldestClean(order, cache, i);
        if pinning { StampsKept(cache, cache - {order[i]}, changed, stale, stamp, order[i]); }
        cache, order := cache - {order[i]}, order[..i] + order[i + 1..];
      }
    }

    /** `move_to_end`. */
    method Promote(id: nat)
      requires Valid() && id in cache && MayTouch(id)
      modifies this`order, this`touched, this`credits
      ensures Valid() && order == Remove(old(order), id) + [id]
      ensures pinning ==> touched == old(touched) + {id} && Held() == old(Held()) + {id}
      ensures pinning ==> credits >= if id in old(Held()) then old(credits) else old(credits) - 1
    {
      hide OrderOk, LsnOk, Stamps, InSync, TouchedLast, Headroom, DirtyIds, DecodedPage, Remove, HeldIds;
      HeldCached(touched, cache, id);
      Removed(order, cache, id, touched);
      Appended(Remove(order, id), cache - {id}, id, cache[id], touched);
      assert (cache - {id})[id := cache[id]] == cache;
      ghost var held := id in Held();
      if pinning && evictionEnabled { TouchHeadroom(cache, cache, touched, credits, limit, id, held); }
      order := Remove(order, id) + [id];
      Touch(id, held);
    }

    /** A page the pool does not hold joins it as the most recently used one. */
    method Admit(id: nat, c: Cached)
      requires Valid() && id !in cache && MayTouch(id)
      requires InSync(cache[id := c], pager.file, stale) && LsnOk(cache[id := c]) && DirtyIds(cache[id := c]) <= Dirty() + {id}
      modifies this`order, this`cache, this`touched, this`credits
      ensures Valid() && cache == old(cache)[id := c] && order == old(order) + [id]
      ensures pinning ==> touched == old(touched) + {id} && Held() == old(Held()) + {id}
      ensures pinning ==> credits >= old(credits) - 1
    {
      hide OrderOk, LsnOk, Stamps, InSync, TouchedLast, Headroom, DirtyIds, DecodedPage, HeldIds;
      Appended(order, cache, id, c, touched);
      HeldGrows(touched, cache, id, c);
      if pinning { StampsKept(cache, cache[id := c], changed, stale, stamp, id); }
      if pinning && evictionEnabled {
        assert id !in Held();
        TouchHeadroom(cache, cache[id := c], touched, credits, limit, id, false);
      }
      Touch(id, false);
      cache, order := cache[id := c], order + [id];
    }

    /** None stands for `DBBufferPoolOverflowError`. */
    method Get(id: nat) returns (r: Option<Body>)
      requires Valid() && id in View() && MayTouch(id)
      modifies this`order, this`cache, this`touched, this`credits
      ensures Valid()
      ensures View() == old(View()) && Dirty() == old(Dirty())
      ensures r.None? <==> id !in old(cache) && evictionEnabled && |old(cache)| >= capacity && old(Dirty()) == old(cache.Keys)
      ensures r.Some? ==> r.value == View()[id] && id in cache && order != [] && order[|order| - 1] == id
      ensures id in old(cache) ==> cache == old(cache) && order == Remove(old(order), id) + [id]
      ensures pinning ==> r.Some? && touched == old(touched) + {id} && Held() == old(Held()) + {id}
      ensures pinning ==> credits >= if id in old(Held()) then old(credits) else old(credits) - 1
      ensures cache.Keys <= old(cache.Keys) + {id}
    {
      hide OrderOk, LsnOk, Stamps, InSync, TouchedLast, Headroom, Overlay, DirtyIds, DecodedPage, HeldIds, NoDup;
      HeldCached(touched, cache, id);
      if id in cache {
        CachedView(cache, pager.file, id);
        Promote(id);
        return Some(cache[id].page.body);
      }
      var ok := EvictOldestCleanPageIfFull();
      if !ok { return None; }
      UncachedView(cache, pager.file, id);
      var decoded := CodecMethods.DecodePage(pager.file[id]);
      var page := decoded.value;
      Loaded(cache, pager.file, stale, id, page);
      Admit(id, Cached(page, false));
      r := Some(page.body);
    }

    /** An in-place change of a page object obtained from `Get` and still in the pool. */
    method Mutate(id: nat, body: Body)
      requires Valid() && pinning && id in Held()
      modifies this`cache, this`stale, this`changed
      ensures Valid() && stale == old(stale) + {id} && cache.Keys == old(cache.Keys)
      ensures changed == old(changed) + {id}
      ensures View() == old(View())[id := body] && Dirty() == old(Dirty()) && Held() == old(Held())
    {
      hide OrderOk, LsnOk, Stamps, InSync, TouchedLast, Headroom, Overlay, DirtyIds, DecodedPage;
      CachedLsn(cache, id);
      var c := Cached(cache[id].page.(body := body), cache[id].dirty);
      PutView(cache, pager.file, id, c);
      PutMarks(cache, pager.file, stale, id, c);
      LsnKept(cache, id, c);
      OrderKept(order, cache, id, c);
      DirtyUnchanged(cache, id, c);
      if evictionEnabled { PinnedHeadroom(cache, cache[id := c], touched, credits, limit); }
      StampsMarked(cache, changed, stale, stamp, id, c);
      StampsAdded(cache[id := c], changed, stale, stamp, id);
      cache, stale, changed := cache[id := c], stale + {id}, changed + {id};
    }

    method MarkDirty(id: nat, lsn: nat)
      requires Valid() && id in cache && (pinning ==> id in Held()) && lsn < U64
      modifies this`cache, this`stale
      ensures Valid() && stale == (if pinning && lsn < stamp then old(stale) else old(stale) - {id}) && cache.Keys == old(cache.Keys)
      ensures View() == old(View()) && Dirty() == old(Dirty()) + {id} && Held() == old(Held())
      ensures var was := old(cache)[id].page; cache == old(cache)[id := Cached(was.(lsn := Newer(was.lsn, lsn)), true)]
    {
      hide OrderOk, LsnOk, Stamps, InSync, TouchedLast, Headroom, Overlay, DirtyIds, DecodedPage;
      var page := cache[id].page;
      CachedLsn(cache, id);
      var c := Cached(page.(lsn := Newer(page.lsn, lsn)), true);
      CachedView(cache, pager.file, id);
      PutView(cache, pager.file, id, c);
      PutMarks(cache, pager.file, stale, id, c);
      LsnKept(cache, id, c);
      OrderKept(order, cache, id, c);
      if pinning && evictionEnabled { PinnedHeadroom(cache, cache[id := c], touched, credits, limit); }
      if pinning { StampsMarked(cache, changed, stale, stamp, id, c); }
      SyncMarked(cache[id := c], pager.file, stale, id);
      cache, stale := cache[id := c], if pinning && lsn < stamp then stale else stale - {id};
    }

    /** False stands for `DBBufferPoolOverflowError`. */
    method Insert(id: nat, body: Body, lsn: nat) returns (ok: bool)
      requires Valid() && id !in cache && MayTouch(id) && lsn < U64
      modifies this`order, this`cache, this`touched, this`credits, this`stale, this`changed
      ensures Valid() && (pinning ==> ok)
      ensures stale == (if pinning && lsn < stamp then old(stale) + {id} else old(stale)) && (pinning ==> changed == old(changed) + {id})
      ensures ok <==> !(evictionEnabled && |old(cache)| >= capacity && old(Dirty()) == old(cache.Keys))
      ensures ok ==> View() == old(View())[id := body] && Dirty() == old(Dirty()) + {id}
      ensures ok ==> id in cache && cache[id] == Cached(Page(lsn, body), true) && order != [] && order[|order| - 1] == id
      ensures pinning ==> Held() == old(Held()) + {id} && credits >= old(credits) - 1
      ensures cache.Keys <= old(cache.Keys) + {id}
    {
      hide OrderOk, LsnOk, Stamps, InSync, TouchedLast, Headroom, Overlay, DirtyIds, DecodedPage, HeldIds, NoDup;
      HeldCached(touched, cache, id);
      ok := EvictOldestCleanPageIfFull();
      if ok {
        var c := Cached(Page(lsn, body), true);
        PutView(cache, pager.file, id, c);
        PutMarks(cache, pager.file, stale, id, c);
        LsnKept(cache, id, c);
        assert stale - {id} == stale;
        Admit(id, c);
        if pinning {
          StampsAdded(cache, changed, stale, stamp, id);
          MoreStale(cache, pager.file, stale, id);
          changed, stale := changed + {id}, if lsn < stamp then stale + {id} else stale;
        }
      }
    }

    /** Missing pages are silently ignored. */
    method Delete(id: nat)
      requires Valid()
      modifies this`order, this`cache, this`stale, this`changed
      ensures Valid() && stale == old(stale) - {id} && cache == old(cache) - {id}
      ensures changed == old(changed) - {id}
      ensures Same(View(), old(View()), id) && Dirty() == old(Dirty()) - {id} && Held() == old(Held()) - {id}
    {
      hide OrderOk, LsnOk, Stamps, InSync, TouchedLast, Headroom, Overlay, DirtyIds, DecodedPage;
      DropView(cache, pager.file, stale, id);
      if id in cache { LsnKept(cache, id, cache[id]); }
      if id in cache {
        Removed(order, cache, id, touched);
        if pinning && evictionEnabled { PinnedHeadroom(cache, cache - {id}, touched, credits, limit); }
        order := Remove(order, id);
      }
      if pinning { StampsDropped(cache, changed, stale, stamp, id); }
      cache, stale, changed := cache - {id}, stale - {id}, changed - {id};
    }

    method FlushPage(id: nat)
      requires Valid() && !pinning && stale == {} && id in cache && cache[id].dirty
      requires id < |pager.file| && Encodable(cache[id].page, pager.pageSize)
      modifies this`cache, pager`file
      ensures Valid() && View() == old(View()) && Dirty() == old(Dirty()) - {id}
      ensures cache == old(cache)[id := old(cache)[id].(dirty := false)] && cache.Keys == old(cache.Keys)
      ensures pager.file == old(pager.file)[id := EncodedPage(cache[id].page, pager.pageSize)]
    {
      hide InSync, LsnOk, Stamps, OrderOk, Overlay, DirtyIds, DecodedPage, EncodedPage;
      FlushOne(cache, pager.file, id, pager.pageSize);
      CachedLsn(cache, id);
      LsnKept(cache, id, cache[id].(dirty := false));
      OrderKept(order, cache, id, cache[id].(dirty := false));
      var data := CodecMethods.EncodePage(cache[id].page, pager.pageSize);
      pager.WritePage(id, data);
      cache := cache[id := cache[id].(dirty := false)];
    }

    /** Writes every dirty page; afterwards the file alone is what the pool shows. */
    method FlushAll()
      requires Valid() && !pinning
      requires forall id :: id in Dirty() ==> id < |pager.file| && Encodable(cache[id].page, pager.pageSize)
      modifies this`cache, pager`file
      ensures Valid() && Dirty() == {} && SamePages(old(cache), cache)
      ensures View() == old(View()) && DiskView(pager.file) == View()
      ensures |pager.file| == |old(pager.file)|
      ensures forall id :: 0 <= id < |pager.file| && id !in old(Dirty()) ==> pager.file[id] == old(pager.file)[id]
    {
      hide InSync, LsnOk, Stamps, OrderOk, TouchedLast, Headroom, Overlay, DecodedPage, DiskView, NoDup, Encodable;
      ghost var view := View();
      assert stale == {};
      var i := 0;
      while i < |order|
        invariant i <= |order| && Valid() && SamePages(old(cache), cache)
        invariant Dirty() <= old(Dirty()) && View() == view
        invariant forall id :: id in Dirty() ==> id < |pager.file| && Encodable(cache[id].page, pager.pageSize)
        invariant |pager.file| == |old(pager.file)|
        invariant forall id :: 0 <= id < |pager.file| && id !in old(Dirty()) ==> pager.file[id] == old(pager.file)[id]
        invariant forall j :: 0 <= j < i ==> order[j] in cache && !cache[order[j]].dirty
      {
        var id := order[i];
        Listed(order, cache, i);
        if cache[id].dirty {
          assert id in Dirty();
          FlushPage(id);
        }
        i := i + 1;
      }
      NoneDirty(order, cache);
      AllClean(cache, pager.file);
    }
  }

  lemma Listed(order: seq<nat>, cache: map<nat, Cached>, i: nat)
    requires OrderOk(order, cache) && i < |order|
    ensures order[i] in cache
    ensures forall j :: 0 <= j < |order| && j != i ==> order[j] != order[i]
  {
  }

  lemma NoneDirty(order: seq<nat>, cache: map<nat, Cached>)
    requires OrderOk(order, cache) && forall j :: 0 <= j < |order| ==> !cache[order[j]].dirty
    ensures DirtyIds(cache) == {}
  {
  }

  lemma DirtyUnchanged(cache: map<nat, Cached>, id: nat, c: Cached)
    requires id in cache && c.dirty == cache[id].dirty
    ensures DirtyIds(cache[id := c]) == DirtyIds(cache)
  {
  }

  lemma HeldGrows(touched: set<nat>, cache: map<nat, Cached>, id: nat, c: Cached)
    ensures HeldIds(touched + {id}, cache[id := c]) == HeldIds(touched, cache) + {id}
    ensures HeldIds(touched, cache) <= HeldIds(touched, cache[id := c])
    ensures HeldIds(touched, cache) <= cache.Keys && HeldIds(touched, cache) <= touched
  {
  }

  lemma HeldCached(touched: set<nat>, cache: map<nat, Cached>, id: nat)
    ensures HeldIds(touched, cache) <= cache.Keys && HeldIds(touched, cache) <= touched
    ensures id in cache ==> HeldIds(touched + {id}, cache) == HeldIds(touched, cache) + {id}
  {
  }

  ghost function DirtyAmong(ids: seq<nat>, cache: map<nat, Cached>): set<nat>
  {
    set id | id in ids && id in cache && cache[id].dirty
  }

  lemma DirtyAmongNone(cache: map<nat, Cached>)
    ensures DirtyAmong([], cache) == {}
  {
  }

  lemma DirtyAmongMore(order: seq<nat>, cache: map<nat, Cached>, i: nat)
    requires OrderOk(order, cache) && i < |order|
    ensures order[i] in cache
    ensures |DirtyAmong(order[..i + 1], cache)| == |DirtyAmong(order[..i], cache)| + if cache[order[i]].dirty then 1 else 0
  {
    assert order[..i + 1] == order[..i] + [order[i]];
    assert order[i] !in order[..i];
    var was := DirtyAmong(order[..i], cache);
    assert DirtyAmong(order[..i + 1], cache) == if cache[order[i]].dirty then was + {order[i]} else was;
  }

  lemma DirtyAmongAll(order: seq<nat>, cache: map<nat, Cached>)
    requires OrderOk(order, cache)
    ensures DirtyAmong(order, cache) == DirtyIds(cache)
  {
  }

  lemma CachedLsn(cache: map<nat, Cached>, id: nat)
    requires LsnOk(cache) && id in cache
    ensures cache[id].page.lsn < U64
  {
  }

  lemma NotAllDirty(cache: map<nat, Cached>, id: nat)
    requires id in cache && !cache[id].dirty
    ensures DirtyIds(cache) != cache.Keys
  {
    assert id !in DirtyIds(cache);
  }

  lemma AllDirty(order: seq<nat>, cache: map<nat, Cached>)
    requires OrderOk(order, cache) && forall j :: 0 <= j < |order| ==> cache[order[j]].dirty
    ensures DirtyIds(cache) == cache.Keys
  {
  }

  lemma HeadroomKept(cache: map<nat, Cached>, cache': map<nat, Cached>, touched: set<nat>, credits: nat, capacity: nat)
    requires DirtyIds(cache') == DirtyIds(cache)
    ensures Headroom(cache, touched, credits, capacity) ==> Headroom(cache', touched, credits, capacity)
  {
  }
}
