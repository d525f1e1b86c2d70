/** Searching inside a page and descending from the root to a leaf. */
module Descent {
  import opened Bytes
  import opened Entities
  import opened TreeModel
  import opened TreeSteps
  import opened Cascading

  datatype PathItem = PathItem(parent: nat, slotIndex: int)

  /** `bisect.bisect_right` on separators. */
  function BisectRightSlots(s: seq<InternalSlot>, key: Bytes): (r: nat)
    ensures r <= |s|
    ensures forall i :: 0 <= i < r ==> Rank(s[i].key) <= Rank(key)
    ensures r < |s| ==> Rank(key) < Rank(s[r].key)
  {
    if s == [] || Less(key, s[0].key) then 0 else
      var t := BisectRightSlots(s[1..], key);
      assert forall i :: 1 <= i <= t ==> s[i] == s[1..][i - 1];
      1 + t
  }

  /** `bisect.bisect_left` on leaf entries. */
  function BisectLeftEntries(s: seq<LeafSlot>, key: Bytes): (r: nat)
    ensures r <= |s|
    ensures forall i :: 0 <= i < r ==> Rank(s[i].key) < Rank(key)
    ensures r < |s| ==> Rank(key) <= Rank(s[r].key)
  {
    if s == [] || !Less(s[0].key, key) then 0 else
      var t := BisectLeftEntries(s[1..], key);
      assert forall i :: 1 <= i <= t ==> s[i] == s[1..][i - 1];
      1 + t
  }

  /** `bisect.bisect_right` on leaf entries, which is where `insort` inserts. */
  function BisectRightEntries(s: seq<LeafSlot>, key: Bytes): (r: nat)
    ensures r <= |s|
    ensures forall i :: 0 <= i < r ==> Rank(s[i].key) <= Rank(key)
    ensures r < |s| ==> Rank(key) < Rank(s[r].key)
  {
    if s == [] || Less(key, s[0].key) then 0 else
      var t := BisectRightEntries(s[1..], key);
      assert forall i :: 1 <= i <= t ==> s[i] == s[1..][i - 1];
      1 + t
  }

  function InsortSlot(s: seq<InternalSlot>, x: InternalSlot): seq<InternalSlot>
  {
    var r := BisectRightSlots(s, x.key);
    s[..r] + [x] + s[r..]
  }

  function InsortEntry(s: seq<LeafSlot>, x: LeafSlot): seq<LeafSlot>
  {
    var r := BisectRightEntries(s, x.key);
    s[..r] + [x] + s[r..]
  }

  /** The separator a split of child `i` promotes is inserted exactly at position `i`. */
  lemma InsortLands(s: seq<InternalSlot>, i: nat, key: Bytes, lo: real, hi: real)
    requires SortedSlots(s) && i <= |s| && KidLo(s, i, lo) < Rank(key) < KidHi(s, i, hi)
    ensures BisectRightSlots(s, key) == i
  {
    hide BisectRightSlots, Rank;
    var r := BisectRightSlots(s, key);
    if r < i {
      assert Rank(s[r].key) <= Rank(s[i - 1].key);
      assert false;
    }
    if r > i { assert false; }
  }

  // ---- one step down ----

  /** The path recorded on the way down, innermost last, agrees with the context. */
  ghost predicate PathOk(path: seq<PathItem>, x: Ctx)
    decreases x
  {
    if x.Top? then path == [] else
      path != [] && path[|path| - 1] == PathItem(x.node.id, x.i - 1) && PathOk(path[..|path| - 1], x.up)
  }

  /** The ancestors' pages are all in `held`. */
  ghost predicate Frames(x: Ctx, held: set<nat>)
  {
    x.Below? ==> x.node.id in held && Frames(x.up, held)
  }

  lemma {:induction false} FramesKept(x: Ctx, held: set<nat>, held': set<nat>)
    requires Formed(x) && Frames(x, held)
    requires forall id :: id in CtxIds(x) && id in held ==> id in held'
    ensures Frames(x, held')
    decreases x
  {
    if x.Below? {
      assert x.node.id in CtxIds(x);
      FramesKept(x.up, held, held');
    }
  }

  /** Focus on page `n` in a tree that is in order. */
  ghost predicate At(c: Config, v: Pages, live: set<nat>, rootId: nat, root: Node, x: Ctx, n: Node, h: nat)
  {
    && Formed(x) && Ordered(c, x, n, h) && Stored(v, live, x, n)
    && RootOf(x, n) == rootId && Plug(x, n) == root
    && (if x.Top? then RootHealthy(c, n.body) else Healthy(c, n.body))
  }

  lemma AtRoot(c: Config, v: Pages, live: set<nat>, rootId: nat, root: Node, h: nat)
    requires Consistent(c, v, live, rootId, root, h)
    ensures At(c, v, live, rootId, root, Top, root, h)
  {
    hide Shape, Holds, RootHealthy;
    assert Ids(root) + multiset{} == Ids(root);
  }

  /** Following child `i` keeps everything known about the position. */
  lemma Down(c: Config, v: Pages, live: set<nat>, rootId: nat, root: Node, x: Ctx, n: Node, h: nat, i: nat)
    requires At(c, v, live, rootId, root, x, n, h) && n.body.Internal?
    requires i <= |n.body.slots|
    ensures h > 0 && i < |n.kids| && n.kids[i].id == if i == 0 then n.body.leftmost else n.body.slots[i - 1].child
    ensures At(c, v, live, rootId, root, Below(x, n, i), n.kids[i], h - 1)
  {
    hide Rank, KeyFits, SortedSlots, Contents, Plug, RootOf, Healthy, RootHealthy;
    DownShape(c, n, h, Lo(x), Hi(x), Next(x), i);
    var k, y := n.kids[i], Below(x, n, i);
    assert n.kids[i := k] == n.kids;
    assert Fill(y, k) == n;
    DownStored(v, live, x, n, i);
    DownRoot(x, n, i);
    hide Holds, CtxHolds, CtxIds, Ids, Wired, LeafShape;
  }

  lemma DownRoot(x: Ctx, n: Node, i: nat)
    requires Formed(x) && n.body.Internal? && |n.kids| == |n.body.slots| + 1 && i < |n.kids|
    ensures Formed(Below(x, n, i))
    ensures Plug(Below(x, n, i), n.kids[i]) == Plug(x, n) && RootOf(Below(x, n, i), n.kids[i]) == RootOf(x, n)
  {
    assert n.kids[i := n.kids[i]] == n.kids;
  }

  lemma DownShape(c: Config, n: Node, h: nat, lo: real, hi: real, next: nat, i: nat)
    requires Shape(c, n, h, lo, hi, next) && n.body.Internal? && i <= |n.body.slots|
    ensures h > 0 && Wired(c, n, lo, hi) && ParentOk(c, n, h, lo, hi, next, {i})
    ensures Healthy(c, n.kids[i].body)
    ensures Shape(c, n.kids[i], h - 1, KidLo(n.body.slots, i, lo), KidHi(n.body.slots, i, hi), KidNext(n.kids, i, next))
    ensures n.kids[i].id == if i == 0 then n.body.leftmost else n.body.slots[i - 1].child
  {
    hide Rank, KeyFits, SortedSlots, LeafShape, Healthy;
    assert h > 0 by { if h == 0 { ShapeLeaf(c, n, lo, hi, next); } }
    assert KidOk(c, n, i, h, lo, hi, next);
    if i > 0 { assert n.body.slots[i - 1].child == n.kids[i].id; }
  }

  lemma ShapeLeaf(c: Config, n: Node, lo: real, hi: real, next: nat)
    requires Shape(c, n, 0, lo, hi, next)
    ensures n.body.Leaf?
  {
  }

  lemma DownStored(v: Pages, live: set<nat>, x: Ctx, n: Node, i: nat)
    requires Stored(v, live, x, n) && n.body.Internal? && |n.kids| == |n.body.slots| + 1 && i < |n.kids|
    ensures Stored(v, live, Below(x, n, i), n.kids[i])
  {
    var y, k := Below(x, n, i), n.kids[i];
    assert n.kids[i := k] == n.kids;
    FillParts(y, k);
    assert Fill(y, k) == n;
    hide Contents, ContentsAll, IdsAll, Before, After;
  }

  /** The child chosen by `bisect_right` is the one whose bounds hold the key. */
  lemma ChildBounds(s: seq<InternalSlot>, key: Bytes, lo: real, hi: real)
    requires lo <= Rank(key) < hi
    ensures var i := BisectRightSlots(s, key); KidLo(s, i, lo) <= Rank(key) < KidHi(s, i, hi)
  {
  }
}
