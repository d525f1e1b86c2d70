/** The finite map a tree stands for, and what changing one leaf does to it. */
module TreeMaps {
  import opened Bytes
  import opened Entities
  import opened TreeModel
  import opened CascadeSteps

  ghost function ToMap(s: seq<LeafSlot>): map<Bytes, Bytes>
  {
    if s == [] then map[] else ToMap(s[..|s| - 1])[s[|s| - 1].key := s[|s| - 1].value]
  }

  /** No entry of `s` has this key. */
  ghost predicate Lacks(s: seq<LeafSlot>, key: Bytes)
  {
    forall i :: 0 <= i < |s| ==> s[i].key != key
  }

  lemma {:induction false} MapWithout(s: seq<LeafSlot>, key: Bytes)
    requires Lacks(s, key)
    ensures key !in ToMap(s)
  {
    if s != [] { MapWithout(s[..|s| - 1], key); }
  }

  lemma {:induction false} MapMiddle(p: seq<LeafSlot>, x: LeafSlot, q: seq<LeafSlot>)
    requires Lacks(q, x.key)
    ensures ToMap(p + [x] + q) == ToMap(p + q)[x.key := x.value]
  {
    if q == [] {
      assert (p + [x] + q)[..|p|] == p && p + q == p;
    } else {
      var front := q[..|q| - 1];
      MapMiddle(p, x, front);
      assert (p + [x] + q)[..|p| + |q|] == p + [x] + front;
      assert (p + q)[..|p| + |q| - 1] == p + front;
    }
  }

  lemma {:induction false} StoredAt(s: seq<LeafSlot>, j: nat)
    requires j < |s|
    ensures s[j].key in ToMap(s)
  {
    if j < |s| - 1 { StoredAt(s[..|s| - 1], j); }
  }

  /** A new value for a key. */
  lemma MapOverwrite(p: seq<LeafSlot>, x: LeafSlot, y: LeafSlot, q: seq<LeafSlot>)
    requires Lacks(q, x.key) && y.key == x.key
    ensures ToMap(p + [y] + q) == ToMap(p + [x] + q)[y.key := y.value]
  {
    MapMiddle(p, x, q);
    MapMiddle(p, y, q);
  }

  lemma MapRemove(p: seq<LeafSlot>, x: LeafSlot, q: seq<LeafSlot>)
    requires Lacks(p, x.key) && Lacks(q, x.key)
    ensures ToMap(p + q) == ToMap(p + [x] + q) - {x.key} && x.key in ToMap(p + [x] + q)
  {
    MapMiddle(p, x, q);
    MapWithout(p + q, x.key);
  }

  lemma MapLookup(p: seq<LeafSlot>, x: LeafSlot, q: seq<LeafSlot>)
    requires Lacks(q, x.key)
    ensures x.key in ToMap(p + [x] + q) && ToMap(p + [x] + q)[x.key] == x.value
  {
    MapMiddle(p, x, q);
  }

  // ---- keys of a subtree lie within its bounds ----

  ghost predicate KeysWithin(s: seq<LeafSlot>, lo: real, hi: real)
  {
    forall i :: 0 <= i < |s| ==> lo <= Rank(s[i].key) < hi
  }

  lemma WithinConcat(a: seq<LeafSlot>, b: seq<LeafSlot>, lo: real, hi: real)
    requires KeysWithin(a, lo, hi) && KeysWithin(b, lo, hi)
    ensures KeysWithin(a + b, lo, hi)
  {
  }

  lemma WithinWider(a: seq<LeafSlot>, lo: real, hi: real, lo': real, hi': real)
    requires KeysWithin(a, lo, hi) && lo' <= lo && hi <= hi'
    ensures KeysWithin(a, lo', hi')
  {
  }

  lemma SortedConcat(a: seq<LeafSlot>, b: seq<LeafSlot>, lo: real, mid: real, hi: real)
    requires SortedEntries(a) && SortedEntries(b) && KeysWithin(a, lo, mid) && KeysWithin(b, mid, hi)
    ensures SortedEntries(a + b)
  {
    hide Rank;
  }

  /** Keys of a subtree are sorted and within its bounds. */
  lemma {:induction false} ContentsSorted(c: Config, n: Node, h: nat, lo: real, hi: real, next: nat)
    requires Shape(c, n, h, lo, hi, next)
    ensures SortedEntries(Contents(n)) && KeysWithin(Contents(n), lo, hi)
    decreases h, 1, 0
  {
    if h == 0 {
      LeafContents(c, n, lo, hi, next);
    } else {
      KidsSorted(c, n, h, lo, hi, next, |n.kids|);
      WholeKids(c, n, h, lo, hi, next);
    }
  }

  lemma LeafContents(c: Config, n: Node, lo: real, hi: real, next: nat)
    requires Shape(c, n, 0, lo, hi, next)
    ensures SortedEntries(Contents(n)) && KeysWithin(Contents(n), lo, hi)
  {
    hide EntryFits, Rank;
  }

  lemma WholeKids(c: Config, n: Node, h: nat, lo: real, hi: real, next: nat)
    requires h > 0 && Shape(c, n, h, lo, hi, next)
    ensures |n.kids| > 0 && n.kids[..|n.kids|] == n.kids && Contents(n) == ContentsAll(n.kids)
    ensures |n.kids| == |n.body.slots| + 1 && n.body.Internal?
  {
    hide KidOk, Rank, KeyFits, SortedSlots;
  }

  /** The first `k` children of a node in order. */
  lemma {:induction false} KidsSorted(c: Config, n: Node, h: nat, lo: real, hi: real, next: nat, k: nat)
    requires h > 0 && Shape(c, n, h, lo, hi, next) && 0 < k <= |n.kids|
    ensures n.body.Internal? && |n.kids| == |n.body.slots| + 1
    ensures SortedEntries(ContentsAll(n.kids[..k])) && KeysWithin(ContentsAll(n.kids[..k]), lo, KidHi(n.body.slots, k - 1, hi))
    decreases h, 0, k
  {
    hide Rank, KeyFits, SortedEntries, KeysWithin, Healthy, LeafShape;
    WholeKids(c, n, h, lo, hi, next);
    assert KidOk(c, n, k - 1, h, lo, hi, next);
    KidBounds(c, n, lo, hi, k - 1);
    var kid, front := n.kids[k - 1], n.kids[..k - 1];
    ContentsSorted(c, kid, h - 1, KidLo(n.body.slots, k - 1, lo), KidHi(n.body.slots, k - 1, hi), KidNext(n.kids, k - 1, next));
    assert n.kids[..k] == front + [kid];
    ContentsConcat(front, [kid]);
    OnePair(kid, kid, kid);
    if k == 1 {
      assert front == [];
      assert ContentsAll(n.kids[..k]) == [] + Contents(kid) == Contents(kid);
    } else {
      KidsSorted(c, n, h, lo, hi, next, k - 1);
      var a, b, mid, top := ContentsAll(front), Contents(kid), KidLo(n.body.slots, k - 1, lo), KidHi(n.body.slots, k - 1, hi);
      assert KidHi(n.body.slots, k - 2, hi) == mid;
      SortedConcat(a, b, lo, mid, top);
      WithinWider(a, lo, mid, lo, top);
      WithinWider(b, mid, top, lo, top);
      WithinConcat(a, b, lo, top);
    }
  }

  lemma KidBounds(c: Config, n: Node, lo: real, hi: real, i: nat)
    requires Wired(c, n, lo, hi) && i < |n.kids|
    ensures lo <= KidLo(n.body.slots, i, lo) < KidHi(n.body.slots, i, hi) <= hi
    ensures i > 0 ==> KidHi(n.body.slots, i - 1, hi) == KidLo(n.body.slots, i, lo)
  {
    hide KeyFits;
  }

  // ---- everything outside the focus lies outside its bounds ----

  /** Children of the hole's parent left and right of the hole. */
  lemma {:induction false} ListWithin(c: Config, p: Node, h: nat, lo: real, hi: real, next: nat, hole: nat, a: nat, b: nat, l: real, u: real)
    requires h > 0 && ParentOk(c, p, h, lo, hi, next, {hole}) && a <= b <= |p.kids| && !(a <= hole < b)
    requires forall i :: a <= i < b ==> l <= KidLo(p.body.slots, i, lo) && KidHi(p.body.slots, i, hi) <= u
    ensures KeysWithin(ContentsAll(p.kids[a..b]), l, u)
    decreases b - a
  {
    hide Rank, Wired, Healthy, LeafShape;
    if a < b {
      var kid := p.kids[a];
      ParentKid(c, p, h, lo, hi, next, hole, a);
      ContentsSorted(c, kid, h - 1, KidLo(p.body.slots, a, lo), KidHi(p.body.slots, a, hi), KidNext(p.kids, a, next));
      ListWithin(c, p, h, lo, hi, next, hole, a + 1, b, l, u);
      assert p.kids[a..b] == [kid] + p.kids[a + 1..b];
      ContentsConcat([kid], p.kids[a + 1..b]);
      OnePair(kid, kid, kid);
    }
  }

  lemma ParentKid(c: Config, p: Node, h: nat, lo: real, hi: real, next: nat, hole: nat, i: nat)
    requires h > 0 && ParentOk(c, p, h, lo, hi, next, {hole}) && i < |p.kids| && i != hole
    ensures p.body.Internal? && |p.kids| == |p.body.slots| + 1
    ensures Shape(c, p.kids[i], h - 1, KidLo(p.body.slots, i, lo), KidHi(p.body.slots, i, hi), KidNext(p.kids, i, next))
  {
    hide Shape, Healthy, Rank, KeyFits;
    assert KidOk(c, p, i, h, lo, hi, next);
  }

  lemma SlotBounds(c: Config, p: Node, lo: real, hi: real, hole: nat)
    requires Wired(c, p, lo, hi) && hole < |p.kids|
    ensures forall i :: 0 <= i < hole ==> lo <= KidLo(p.body.slots, i, lo) && KidHi(p.body.slots, i, hi) <= KidLo(p.body.slots, hole, lo)
    ensures forall i :: hole < i < |p.kids| ==> KidHi(p.body.slots, hole, hi) <= KidLo(p.body.slots, i, lo) && KidHi(p.body.slots, i, hi) <= hi
    ensures lo <= KidLo(p.body.slots, hole, lo) && KidHi(p.body.slots, hole, hi) <= hi
  {
    hide KeyFits;
  }

  lemma WithinNone(lo: real, hi: real)
    ensures KeysWithin([], lo, hi)
  {
  }

  /** Keys before the focus are below its lower bound, keys after it at or above the upper one. */
  lemma {:induction false} Outside(c: Config, x: Ctx, n: Node, h: nat)
    requires Formed(x) && CtxOk(c, x, n, h)
    ensures KeysWithin(Before(x), 0.0, Lo(x)) && KeysWithin(After(x), Hi(x), 1.0)
    ensures 0.0 <= Lo(x) && Hi(x) <= 1.0
    decreases x
  {
    hide Wired, Shape, KidOk, Healthy, RootHealthy, Rank, KidLo, KidHi, KidNext, KeysWithin, ContentsAll, ParentOk;
    if x.Top? {
      WithinNone(0.0, 0.0);
      WithinNone(1.0, 1.0);
    } else {
      var p := Fill(x, n);
      Outside(c, x.up, p, h + 1);
      HoleBounds(c, x, n, h);
      WithinWider(Before(x.up), 0.0, Lo(x.up), 0.0, Lo(x));
      WithinWider(After(x.up), Hi(x.up), 1.0, Hi(x), 1.0);
      var b, a := ContentsAll(x.node.kids[..x.i]), ContentsAll(x.node.kids[x.i + 1..]);
      WithinWider(b, Lo(x.up), Lo(x), 0.0, Lo(x));
      WithinWider(a, Hi(x), Hi(x.up), Hi(x), 1.0);
      WithinConcat(Before(x.up), b, 0.0, Lo(x));
      WithinConcat(a, After(x.up), Hi(x), 1.0);
    }
  }

  lemma HoleBounds(c: Config, x: Ctx, n: Node, h: nat)
    requires Formed(x) && CtxOk(c, x, n, h) && x.Below?
    ensures KeysWithin(ContentsAll(x.node.kids[..x.i]), Lo(x.up), Lo(x))
    ensures KeysWithin(ContentsAll(x.node.kids[x.i + 1..]), Hi(x), Hi(x.up))
    ensures Lo(x.up) <= Lo(x) && Hi(x) <= Hi(x.up)
  {
    hide Shape, KidOk, Rank, Healthy, RootHealthy, KeysWithin;
    var p, i := Fill(x, n), x.i;
    SlotBounds(c, p, Lo(x.up), Hi(x.up), i);
    ListWithin(c, p, h + 1, Lo(x.up), Hi(x.up), Next(x.up), i, 0, i, Lo(x.up), Lo(x));
    ListWithin(c, p, h + 1, Lo(x.up), Hi(x.up), Next(x.up), i, i + 1, |p.kids|, Hi(x), Hi(x.up));
    assert p.kids[0..i] == x.node.kids[..i] && p.kids[i + 1..|p.kids|] == x.node.kids[i + 1..];
  }
}
