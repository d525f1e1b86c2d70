/** Looking up, inserting and removing one entry of the leaf that may hold a key. */
module LeafOps {
  import opened Bytes
  import opened Entities
  import opened TreeModel
  import opened TreeSteps
  import opened Cascading
  import opened Descent
  import opened TreeMaps
  import Redistribution

  /** `leaf_page.slots[slot_idx].key == key` at the position `bisect_left` finds. */
  predicate FoundAt(s: seq<LeafSlot>, i: nat, key: Bytes)
  {
    i < |s| && s[i].key == key
  }

  function UpdatedEntries(s: seq<LeafSlot>, key: Bytes, value: Bytes): seq<LeafSlot>
  {
    var i := BisectLeftEntries(s, key);
    if FoundAt(s, i, key) then s[i := LeafSlot(key, value)] else InsortEntry(s, LeafSlot(key, value))
  }

  function RemovedEntries(s: seq<LeafSlot>, i: nat): seq<LeafSlot>
    requires i < |s|
  {
    s[..i] + s[i + 1..]
  }

  /** What the position found by `bisect_left` says about a sorted list. */
  lemma Located(s: seq<LeafSlot>, key: Bytes)
    requires SortedEntries(s)
    ensures var i := BisectLeftEntries(s, key);
      && i <= |s| && Lacks(s[..i], key)
      && (FoundAt(s, i, key) ==> Lacks(s[i + 1..], key))
      && (!FoundAt(s, i, key) ==>
            && Lacks(s[i..], key) && BisectRightEntries(s, key) == i
            && (forall k :: 0 <= k < i ==> Rank(s[k].key) < Rank(key))
            && (forall k :: i <= k < |s| ==> Rank(key) < Rank(s[k].key)))
  {
    hide Rank, LexLess, Less, BisectLeftEntries, BisectRightEntries;
    var i := BisectLeftEntries(s, key);
    assert forall k :: i < k < |s| ==> Rank(s[i].key) < Rank(s[k].key);
    if i < |s| { assert Less(key, s[i].key) <==> Rank(key) < Rank(s[i].key); }
    assert !FoundAt(s, i, key) ==> forall k :: i <= k < |s| ==> Rank(key) < Rank(s[k].key);
  }

  lemma LacksOutside(s: seq<LeafSlot>, key: Bytes, lo: real, hi: real)
    requires KeysWithin(s, lo, hi) && (Rank(key) < lo || Rank(key) >= hi)
    ensures Lacks(s, key)
  {
  }

  lemma LacksConcat(a: seq<LeafSlot>, b: seq<LeafSlot>, key: Bytes)
    requires Lacks(a, key) && Lacks(b, key)
    ensures Lacks(a + b, key)
  {
  }

  // ---- the leaf page ----

  lemma SumUpdate(s: seq<LeafSlot>, i: nat, t: LeafSlot)
    requires i < |s|
    ensures LeafSum(s[i := t]) == LeafSum(s) - LeafSlotSize(s[i]) + LeafSlotSize(t)
    ensures LeafSum(RemovedEntries(s, i)) == LeafSum(s) - LeafSlotSize(s[i])
  {
    hide LeafSum, LeafSlotSize;
    var a, z := s[..i], s[i + 1..];
    assert s == a + ([s[i]] + z) && s[i := t] == a + ([t] + z);
    LeafSumConcat(a, [s[i]] + z);
    LeafSumConcat(a, [t] + z);
    LeafSumConcat(a, z);
    LeafSumConcat([s[i]], z);
    LeafSumConcat([t], z);
    SumOne(s[i]);
    SumOne(t);
  }

  lemma SumInsert(s: seq<LeafSlot>, i: nat, t: LeafSlot)
    requires i <= |s|
    ensures LeafSum(s[..i] + [t] + s[i..]) == LeafSum(s) + LeafSlotSize(t)
  {
    hide LeafSum, LeafSlotSize;
    LeafSumConcat(s[..i] + [t], s[i..]);
    LeafSumConcat(s[..i], [t]);
    LeafSumConcat(s[..i], s[i..]);
    assert s == s[..i] + s[i..];
    SumOne(t);
  }

  lemma SumOne(t: LeafSlot)
    ensures LeafSum([t]) == LeafSlotSize(t)
  {
    assert [t][..0] == [] && LeafSum([]) == 0;
  }

  lemma UpdatedSize(s: seq<LeafSlot>, key: Bytes, value: Bytes)
    ensures LeafSum(UpdatedEntries(s, key, value)) <= LeafSum(s) + LeafSlotSize(LeafSlot(key, value))
    ensures UpdatedEntries(s, key, value) != []
  {
    hide LeafSum, LeafSlotSize, BisectLeftEntries, BisectRightEntries;
    var i, t := BisectLeftEntries(s, key), LeafSlot(key, value);
    if FoundAt(s, i, key) { SumUpdate(s, i, t); } else { SumInsert(s, BisectRightEntries(s, key), t); }
  }

  lemma UpdatedSorted(s: seq<LeafSlot>, key: Bytes, value: Bytes)
    requires SortedEntries(s)
    ensures SortedEntries(UpdatedEntries(s, key, value))
  {
    hide LeafSum, BisectLeftEntries, BisectRightEntries, Less, Rank, Lacks;
    var i, t := BisectLeftEntries(s, key), LeafSlot(key, value);
    Located(s, key);
    if !FoundAt(s, i, key) { InsertSorted(s, i, t); }
  }

  /** Every entry after the update is an old one or the new one. */
  lemma UpdatedMembers(s: seq<LeafSlot>, key: Bytes, value: Bytes)
    ensures var u := UpdatedEntries(s, key, value);
      forall k :: 0 <= k < |u| ==> u[k] == LeafSlot(key, value) || u[k] in s
  {
    hide BisectLeftEntries, BisectRightEntries;
  }

  lemma UpdatedLeaf(c: Config, b: Body, lo: real, hi: real, next: nat, key: Bytes, value: Bytes)
    requires LeafShape(c, b, lo, hi, next) && lo <= Rank(key) < hi && EntryFits(c, LeafSlot(key, value)) && !Overfull(c, b)
    ensures LeafShape(c, b.(entries := UpdatedEntries(b.entries, key, value)), lo, hi, next)
    ensures Bounded(c, b.(entries := UpdatedEntries(b.entries, key, value)))
    ensures UpdatedEntries(b.entries, key, value) != []
  {
    hide UpdatedEntries, LeafSum, SortedEntries, Rank;
    UpdatedSize(b.entries, key, value);
    UpdatedSorted(b.entries, key, value);
    UpdatedMembers(b.entries, key, value);
  }

  lemma InsertSorted(s: seq<LeafSlot>, i: nat, t: LeafSlot)
    requires SortedEntries(s) && i <= |s|
    requires forall k :: 0 <= k < i ==> Rank(s[k].key) < Rank(t.key)
    requires forall k :: i <= k < |s| ==> Rank(t.key) < Rank(s[k].key)
    ensures SortedEntries(s[..i] + [t] + s[i..])
  {
    var u := s[..i] + [t] + s[i..];
    assert forall k :: 0 <= k < i ==> u[k] == s[k];
    assert forall k :: i < k < |u| ==> u[k] == s[k - 1];
  }

  lemma RemovedSorted(s: seq<LeafSlot>, i: nat)
    requires SortedEntries(s) && i < |s|
    ensures SortedEntries(RemovedEntries(s, i))
    ensures forall k :: 0 <= k < |s| - 1 ==> RemovedEntries(s, i)[k] == s[if k < i then k else k + 1]
    ensures |RemovedEntries(s, i)| == |s| - 1
  {
    hide Rank;
  }

  lemma RemovedLeaf(c: Config, b: Body, lo: real, hi: real, next: nat, i: nat)
    requires c.pageSize >= 256 && LeafShape(c, b, lo, hi, next) && i < |b.entries| && !Overfull(c, b)
    ensures LeafShape(c, b.(entries := RemovedEntries(b.entries, i)), lo, hi, next)
    ensures Bounded(c, b.(entries := RemovedEntries(b.entries, i)))
    ensures !Underfull(c, b) ==> RemovedEntries(b.entries, i) != []
  {
    hide RemovedEntries, LeafSum, SortedEntries, EntryFits, Rank;
    SumUpdate(b.entries, i, b.entries[i]);
    Redistribution.TwoEntries(c, b);
    RemovedSorted(b.entries, i);
  }

  // ---- the map ----

  /** The leaf's entries `s` sit between `p` and `q`, whose keys lie outside the leaf's bounds. */
  ghost predicate Around(p: seq<LeafSlot>, s: seq<LeafSlot>, q: seq<LeafSlot>, lo: real, hi: real, key: Bytes)
  {
    KeysWithin(p, 0.0, lo) && SortedEntries(s) && KeysWithin(q, hi, 1.0) && lo <= Rank(key) < hi
  }

  lemma MapUpdated(p: seq<LeafSlot>, s: seq<LeafSlot>, q: seq<LeafSlot>, lo: real, hi: real, key: Bytes, value: Bytes)
    requires Around(p, s, q, lo, hi, key)
    ensures ToMap(p + UpdatedEntries(s, key, value) + q) == ToMap(p + s + q)[key := value]
  {
    hide ToMap, BisectLeftEntries, BisectRightEntries, SortedEntries, KeysWithin, Rank, Less;
    var i, t := BisectLeftEntries(s, key), LeafSlot(key, value);
    AroundParts(p, s, q, lo, hi, key);
    Located(s, key);
    if FoundAt(s, i, key) {
      LacksConcat(s[i + 1..], q, key);
      assert p + s + q == (p + s[..i]) + [s[i]] + (s[i + 1..] + q);
      assert p + s[i := t] + q == (p + s[..i]) + [t] + (s[i + 1..] + q);
      MapOverwrite(p + s[..i], s[i], t, s[i + 1..] + q);
    } else {
      LacksConcat(s[i..], q, key);
      assert p + s + q == (p + s[..i]) + (s[i..] + q);
      assert p + (s[..i] + [t] + s[i..]) + q == (p + s[..i]) + [t] + (s[i..] + q);
      MapMiddle(p + s[..i], t, s[i..] + q);
    }
  }

  lemma AroundParts(p: seq<LeafSlot>, s: seq<LeafSlot>, q: seq<LeafSlot>, lo: real, hi: real, key: Bytes)
    requires Around(p, s, q, lo, hi, key)
    ensures Lacks(p, key) && SortedEntries(s) && Lacks(q, key)
  {
    LacksOutside(p, key, 0.0, lo);
    LacksOutside(q, key, hi, 1.0);
  }

  lemma MapLocated(p: seq<LeafSlot>, s: seq<LeafSlot>, q: seq<LeafSlot>, lo: real, hi: real, key: Bytes)
    requires Around(p, s, q, lo, hi, key)
    ensures var i, m := BisectLeftEntries(s, key), ToMap(p + s + q);
      && (FoundAt(s, i, key) ==> key in m && m[key] == s[i].value && ToMap(p + RemovedEntries(s, i) + q) == m - {key})
      && (!FoundAt(s, i, key) ==> key !in m)
  {
    hide ToMap, BisectLeftEntries, BisectRightEntries, SortedEntries, KeysWithin, Rank, Less;
    var i := BisectLeftEntries(s, key);
    AroundParts(p, s, q, lo, hi, key);
    Located(s, key);
    LacksConcat(p, s[..i], key);
    if FoundAt(s, i, key) {
      LacksConcat(s[i + 1..], q, key);
      assert p + s + q == (p + s[..i]) + [s[i]] + (s[i + 1..] + q);
      assert p + RemovedEntries(s, i) + q == (p + s[..i]) + (s[i + 1..] + q);
      MapLookup(p + s[..i], s[i], s[i + 1..] + q);
      MapRemove(p + s[..i], s[i], s[i + 1..] + q);
    } else {
      LacksConcat(s[i..], q, key);
      LacksConcat(p + s[..i], s[i..] + q, key);
      assert p + s + q == (p + s[..i]) + (s[i..] + q);
      MapWithout(p + s + q, key);
    }
  }

  // ---- the tree around the leaf ----

  /** At the leaf that may hold `key`: its shape, and where its entries are in the whole tree. */
  lemma AtLeafFacts(c: Config, v: Pages, live: set<nat>, rootId: nat, root: Node, x: Ctx, n: Node, key: Bytes)
    requires At(c, v, live, rootId, root, x, n, 0) && Formed(x) && Lo(x) <= Rank(key) < Hi(x)
    ensures LeafShape(c, n.body, Lo(x), Hi(x), Next(x)) && n.body.Leaf? && n.kids == [] && !Overfull(c, n.body)
    ensures x.Below? ==> !Underfull(c, n.body)
    ensures Around(Before(x), n.body.entries, After(x), Lo(x), Hi(x), key)
    ensures Contents(root) == Before(x) + n.body.entries + After(x)
  {
    Outside(c, x, n, 0);
    PlugParts(x, n);
    hide CtxOk, Rank, EntryFits, Stored, Before, After, ContentsAll, KeysWithin, Ids, CtxIds;
  }

  /** Changing the entries of the leaf in focus starts a rebalance. */
  lemma LeafChanged(c: Config, v: Pages, live: set<nat>, rootId: nat, root: Node, x: Ctx, n: Node, b: Body)
    requires At(c, v, live, rootId, root, x, n, 0) && Formed(x) && n.kids == []
    requires LeafShape(c, b, Lo(x), Hi(x), Next(x)) && Bounded(c, b)
    ensures Cascade(c, v[n.id := b], live, rootId, x, Node(n.id, b, []), 0, Before(x) + b.entries + After(x))
  {
    hide CtxOk, Rank, EntryFits, Before, After, Plug, Bounded, Healthy, RootHealthy, CtxHolds, CtxIds;
    var m := Node(n.id, b, []);
    CtxSwap(c, x, n, m, 0);
    RootOfSame(x, n, m);
    assert IdsAll([]) == multiset{};
    assert Ids(n) == multiset{n.id} && Ids(m) == multiset{n.id};
    FocusNotAbove(live, n.id, CtxIds(x));
    assert Agree(v, v[n.id := b], CtxIds(x));
    CtxHoldsFrame(v, v[n.id := b], x);
  }

  lemma FocusNotAbove(live: set<nat>, id: nat, ctx: multiset<nat>)
    requires multiset{id} + ctx == multiset(live)
    ensures id !in ctx
  {
    assert (multiset{id} + ctx)[id] <= 1;
  }
}
