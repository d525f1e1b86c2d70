/** What splitting, merging and redistributing do to one parent and its children, on the ghost tree. */
module TreeSteps {
  import opened Bytes
  import opened Entities
  import opened TreeModel

  // ---- a page of its own: cutting in two, joining two ----

  /** Leaf `n` cut before entry `b`; the right part gets page id `rid`. */
  ghost function LeafCutLeft(n: Node, b: nat, rid: nat): Node
    requires n.body.Leaf? && b <= |n.body.entries|
  {
    Node(n.id, Leaf(rid, n.body.entries[..b]), [])
  }

  ghost function LeafCutRight(n: Node, b: nat, rid: nat): Node
    requires n.body.Leaf? && b <= |n.body.entries|
  {
    Node(rid, Leaf(n.body.right, n.body.entries[b..]), [])
  }

  /** Internal `n` cut at slot `b`, whose key moves up and whose child becomes the right part's leftmost. */
  ghost function CutLeft(n: Node, b: nat): Node
    requires n.body.Internal? && b < |n.body.slots| && |n.kids| == |n.body.slots| + 1
  {
    Node(n.id, Internal(n.body.leftmost, n.body.slots[..b]), n.kids[..b + 1])
  }

  ghost function CutRight(n: Node, b: nat, rid: nat): Node
    requires n.body.Internal? && b < |n.body.slots| && |n.kids| == |n.body.slots| + 1
  {
    Node(rid, Internal(n.body.slots[b].child, n.body.slots[b + 1..]), n.kids[b + 1..])
  }

  ghost function LeafJoin(l: Node, r: Node): Node
    requires l.body.Leaf? && r.body.Leaf?
  {
    Node(l.id, Leaf(r.body.right, l.body.entries + r.body.entries), [])
  }

  ghost function Join(l: Node, sep: Bytes, r: Node): Node
    requires l.body.Internal? && r.body.Internal?
  {
    Node(l.id, Internal(l.body.leftmost, l.body.slots + [InternalSlot(sep, r.body.leftmost)] + r.body.slots), l.kids + r.kids)
  }

  lemma LeafCutShape(c: Config, n: Node, b: nat, rid: nat, lo: real, hi: real, next: nat)
    requires Shape(c, n, 0, lo, hi, next) && 0 < b < |n.body.entries|
    ensures var sep := n.body.entries[b].key;
      && lo < Rank(sep) < hi && KeyFits(c, sep)
      && Shape(c, LeafCutLeft(n, b, rid), 0, lo, Rank(sep), rid)
      && Shape(c, LeafCutRight(n, b, rid), 0, Rank(sep), hi, next)
      && Contents(n) == Contents(LeafCutLeft(n, b, rid)) + Contents(LeafCutRight(n, b, rid))
  {
    var sep := n.body.entries[b].key;
    var l, r := LeafCutLeft(n, b, rid), LeafCutRight(n, b, rid);
    assert EntryFits(c, n.body.entries[b]);
    assert lo <= Rank(n.body.entries[0].key);
    assert n.body.entries == l.body.entries + r.body.entries;
    forall i | 0 <= i < |r.body.entries|
      ensures Rank(sep) <= Rank(r.body.entries[i].key) < hi && EntryFits(c, r.body.entries[i])
    {
      assert r.body.entries[i] == n.body.entries[b + i];
    }
  }

  lemma LeafJoinShape(c: Config, l: Node, r: Node, sep: real, lo: real, hi: real, next: nat)
    requires Shape(c, l, 0, lo, sep, r.id) && Shape(c, r, 0, sep, hi, next)
    ensures Shape(c, LeafJoin(l, r), 0, lo, hi, next)
    ensures Contents(LeafJoin(l, r)) == Contents(l) + Contents(r)
  {
  }

  lemma CutShape(c: Config, n: Node, b: nat, rid: nat, h: nat, lo: real, hi: real, next: nat)
    requires h > 0 && Shape(c, n, h, lo, hi, next) && b < |n.body.slots|
    ensures var sep := n.body.slots[b].key; var l, r := CutLeft(n, b), CutRight(n, b, rid);
      && lo < Rank(sep) < hi && KeyFits(c, sep)
      && Shape(c, l, h, lo, Rank(sep), FirstLeaf(r))
      && Shape(c, r, h, Rank(sep), hi, next)
      && Contents(n) == Contents(l) + Contents(r)
      && IdsAll(n.kids) == IdsAll(l.kids) + IdsAll(r.kids)
  {
    var sep := n.body.slots[b].key;
    var l, r := CutLeft(n, b), CutRight(n, b, rid);
    assert n.kids == l.kids + r.kids;
    ContentsConcat(l.kids, r.kids);
    IdsConcat(l.kids, r.kids);
    forall i | 0 <= i < |l.kids| ensures KidOk(c, l, i, h, lo, Rank(sep), FirstLeaf(r)) {
      assert KidOk(c, n, i, h, lo, hi, next);
    }
    forall i | 0 <= i < |r.kids| ensures KidOk(c, r, i, h, Rank(sep), hi, next) {
      assert KidOk(c, n, b + 1 + i, h, lo, hi, next);
    }
  }

  lemma JoinShape(c: Config, l: Node, sep: Bytes, r: Node, h: nat, lo: real, hi: real, next: nat)
    requires h > 0 && Shape(c, l, h, lo, Rank(sep), FirstLeaf(r)) && Shape(c, r, h, Rank(sep), hi, next)
    requires lo < Rank(sep) < hi && KeyFits(c, sep)
    ensures Shape(c, Join(l, sep, r), h, lo, hi, next)
    ensures Contents(Join(l, sep, r)) == Contents(l) + Contents(r)
    ensures IdsAll(Join(l, sep, r).kids) == IdsAll(l.kids) + IdsAll(r.kids)
  {
    hide KeyFits, LeafShape, Healthy, Rank, SortedSlots, KidOk;
    var n := Join(l, sep, r);
    ContentsConcat(l.kids, r.kids);
    IdsConcat(l.kids, r.kids);
    JoinWired(c, l, sep, r, lo, hi);
    forall i | 0 <= i < |n.kids| ensures KidOk(c, n, i, h, lo, hi, next) {
      JoinKid(c, l, sep, r, h, lo, hi, next, i);
    }
  }

  lemma JoinWired(c: Config, l: Node, sep: Bytes, r: Node, lo: real, hi: real)
    requires Wired(c, l, lo, Rank(sep)) && Wired(c, r, Rank(sep), hi) && lo < Rank(sep) < hi && KeyFits(c, sep)
    ensures Wired(c, Join(l, sep, r), lo, hi)
  {
    hide KeyFits, Rank, SortedSlots, Joined;
    var n, s, t := Join(l, sep, r), l.body.slots, r.body.slots;
    JoinParts(l, sep, r);
    SlotsJoin(s, InternalSlot(sep, r.body.leftmost), t, n.body.slots);
    forall i | 0 <= i < |n.body.slots|
      ensures n.kids[i + 1].id == n.body.slots[i].child
      ensures lo < Rank(n.body.slots[i].key) < hi && KeyFits(c, n.body.slots[i].key)
    {
      JoinedAt(s, InternalSlot(sep, r.body.leftmost), t, n.body.slots, i);
      if i < |s| {
        assert s[i].child == l.kids[i + 1].id;
      } else if i > |s| {
        assert t[i - |s| - 1].child == r.kids[i - |s|].id;
      }
    }
  }

  lemma JoinedAt(s: seq<InternalSlot>, x: InternalSlot, t: seq<InternalSlot>, u: seq<InternalSlot>, i: nat)
    requires Joined(s, x, t, u) && i < |u|
    ensures |u| == |s| + 1 + |t|
    ensures u[i] == if i < |s| then s[i] else if i == |s| then x else t[i - |s| - 1]
  {
  }

  /** Position by position, `u` is `s`, `x` and `t`. */
  ghost predicate Joined(s: seq<InternalSlot>, x: InternalSlot, t: seq<InternalSlot>, u: seq<InternalSlot>)
  {
    && |u| == |s| + 1 + |t| && u[|s|] == x
    && (forall i :: 0 <= i < |s| ==> u[i] == s[i])
    && (forall i :: |s| < i < |u| ==> u[i] == t[i - |s| - 1])
  }

  lemma JoinParts(l: Node, sep: Bytes, r: Node)
    requires l.body.Internal? && r.body.Internal? && |l.kids| == |l.body.slots| + 1 && |r.kids| == |r.body.slots| + 1
    ensures var n := Join(l, sep, r);
      && Joined(l.body.slots, InternalSlot(sep, r.body.leftmost), r.body.slots, n.body.slots)
      && |n.kids| == |l.kids| + |r.kids|
      && (forall i :: 0 <= i < |l.kids| ==> n.kids[i] == l.kids[i])
      && (forall i :: |l.kids| <= i < |n.kids| ==> n.kids[i] == r.kids[i - |l.kids|])
  {
  }

  lemma SlotsJoin(s: seq<InternalSlot>, x: InternalSlot, t: seq<InternalSlot>, u: seq<InternalSlot>)
    requires SortedSlots(s) && SortedSlots(t) && Joined(s, x, t, u)
    requires forall i :: 0 <= i < |s| ==> Rank(s[i].key) < Rank(x.key)
    requires forall i :: 0 <= i < |t| ==> Rank(x.key) < Rank(t[i].key)
    ensures SortedSlots(u)
  {
    hide Rank;
  }

  lemma JoinKid(c: Config, l: Node, sep: Bytes, r: Node, h: nat, lo: real, hi: real, next: nat, i: nat)
    requires h > 0 && Wired(c, l, lo, Rank(sep)) && Wired(c, r, Rank(sep), hi) && i < |l.kids| + |r.kids|
    requires forall k :: 0 <= k < |l.kids| ==> KidOk(c, l, k, h, lo, Rank(sep), FirstLeaf(r))
    requires forall k :: 0 <= k < |r.kids| ==> KidOk(c, r, k, h, Rank(sep), hi, next)
    ensures KidOk(c, Join(l, sep, r), i, h, lo, hi, next)
  {
    hide KeyFits, LeafShape, Healthy, Rank, SortedSlots, Shape;
    if i < |l.kids| {
      assert KidOk(c, l, i, h, lo, Rank(sep), FirstLeaf(r));
    } else {
      assert KidOk(c, r, i - |l.kids|, h, Rank(sep), hi, next);
    }
  }

  // ---- the parent ----

  /** Slot `j` and the child right of it removed: what a merge leaves of the parent. */
  ghost function DropSlot(p: Node, j: nat): Node
    requires p.body.Internal? && |p.kids| == |p.body.slots| + 1 && j < |p.body.slots|
  {
    Node(p.id, Internal(p.body.leftmost, p.body.slots[..j] + p.body.slots[j + 1..]), p.kids[..j + 1] + p.kids[j + 2..])
  }

  /** Child `i` replaced by `l` and `r` with `sep` between them: what a split makes of the parent. */
  ghost function PutPair(p: Node, i: nat, l: Node, sep: Bytes, r: Node): Node
    requires p.body.Internal? && |p.kids| == |p.body.slots| + 1 && i < |p.kids|
  {
    Node(p.id, Internal(p.body.leftmost, p.body.slots[..i] + [InternalSlot(sep, r.id)] + p.body.slots[i..]),
         p.kids[..i] + [l, r] + p.kids[i + 1..])
  }

  lemma DropSlotOk(c: Config, p: Node, j: nat, h: nat, lo: real, hi: real, next: nat)
    requires h > 0 && Wired(c, p, lo, hi) && j < |p.body.slots| && ParentOk(c, p, h, lo, hi, next, {j, j + 1})
    ensures ParentOk(c, DropSlot(p, j), h, lo, hi, next, {j})
    ensures var q := DropSlot(p, j);
      && KidLo(q.body.slots, j, lo) == KidLo(p.body.slots, j, lo)
      && KidHi(q.body.slots, j, hi) == KidHi(p.body.slots, j + 1, hi)
      && KidNext(q.kids, j, next) == KidNext(p.kids, j + 1, next)
      && FirstLeaf(q) == FirstLeaf(p)
  {
    hide SortedSlots, KeyFits, Rank, LeafShape, Healthy, Shape, KidOk;
    var q := DropSlot(p, j);
    DropSlotParts(p, j);
    DropSlotWired(c, p, j, lo, hi);
    forall i | 0 <= i < |q.kids| && i != j ensures KidOk(c, q, i, h, lo, hi, next) {
      DropSlotKid(c, p, j, h, lo, hi, next, i);
    }
  }

  lemma DropSlotKid(c: Config, p: Node, j: nat, h: nat, lo: real, hi: real, next: nat, i: nat)
    requires h > 0 && Wired(c, p, lo, hi) && j < |p.body.slots| && i < |p.kids| - 1 && i != j
    requires KidOk(c, p, if i < j then i else i + 1, h, lo, hi, next)
    ensures KidOk(c, DropSlot(p, j), i, h, lo, hi, next)
  {
    hide SortedSlots, KeyFits, Rank, LeafShape, Healthy, Shape;
    DropSlotParts(p, j);
  }

  lemma DropSlotWired(c: Config, p: Node, j: nat, lo: real, hi: real)
    requires Wired(c, p, lo, hi) && j < |p.body.slots|
    ensures Wired(c, DropSlot(p, j), lo, hi)
    ensures p.body.Internal? && |p.kids| == |p.body.slots| + 1
  {
    hide SortedSlots, KeyFits, Rank;
    DropSlotParts(p, j);
    SlotsDrop(p.body.slots, j, DropSlot(p, j).body.slots);
  }

  lemma SlotsDrop(s: seq<InternalSlot>, j: nat, t: seq<InternalSlot>)
    requires SortedSlots(s) && j < |s| && |t| == |s| - 1
    requires forall k :: 0 <= k < |t| ==> t[k] == s[if k < j then k else k + 1]
    ensures SortedSlots(t)
    ensures j < |t| ==> Rank(s[j].key) < Rank(t[j].key)
  {
  }

  lemma DropSlotParts(p: Node, j: nat)
    requires p.body.Internal? && |p.kids| == |p.body.slots| + 1 && j < |p.body.slots|
    ensures var q := DropSlot(p, j);
      && |q.body.slots| == |p.body.slots| - 1 && |q.kids| == |p.kids| - 1
      && (forall k :: 0 <= k < |q.body.slots| ==> q.body.slots[k] == p.body.slots[if k < j then k else k + 1])
      && (forall k :: 0 <= k < |q.kids| ==> q.kids[k] == p.kids[if k <= j then k else k + 1])
  {
  }

  /** Position by position, `q` is `p` with child `i` replaced by the pair. */
  ghost predicate PairPut(p: Node, i: nat, l: Node, sep: Bytes, r: Node, q: Node)
    requires p.body.Internal? && |p.kids| == |p.body.slots| + 1 && i < |p.kids|
  {
    && q.id == p.id && q.body.Internal? && q.body.leftmost == p.body.leftmost
    && |q.body.slots| == |p.body.slots| + 1 && |q.kids| == |p.kids| + 1
    && (forall k :: 0 <= k < i ==> q.body.slots[k] == p.body.slots[k])
    && q.body.slots[i] == InternalSlot(sep, r.id)
    && (forall k :: i < k < |q.body.slots| ==> q.body.slots[k] == p.body.slots[k - 1])
    && (forall k :: 0 <= k < i ==> q.kids[k] == p.kids[k])
    && q.kids[i] == l && q.kids[i + 1] == r
    && (forall k :: i + 1 < k < |q.kids| ==> q.kids[k] == p.kids[k - 1])
  }

  lemma PutPairPut(p: Node, i: nat, l: Node, sep: Bytes, r: Node)
    requires p.body.Internal? && |p.kids| == |p.body.slots| + 1 && i < |p.kids|
    ensures PairPut(p, i, l, sep, r, PutPair(p, i, l, sep, r))
  {
  }

  lemma PutPairOk(c: Config, p: Node, i: nat, l: Node, sep: Bytes, r: Node, q: Node, h: nat, lo: real, hi: real, next: nat)
    requires h > 0 && Wired(c, p, lo, hi) && i < |p.kids| && ParentOk(c, p, h, lo, hi, next, {i})
    requires l.id == p.kids[i].id && FirstLeaf(l) == FirstLeaf(p.kids[i]) && PairPut(p, i, l, sep, r, q)
    requires KidLo(p.body.slots, i, lo) < Rank(sep) < KidHi(p.body.slots, i, hi) && KeyFits(c, sep)
    requires Healthy(c, l.body) && Shape(c, l, h - 1, KidLo(p.body.slots, i, lo), Rank(sep), FirstLeaf(r))
    requires Healthy(c, r.body) && Shape(c, r, h - 1, Rank(sep), KidHi(p.body.slots, i, hi), KidNext(p.kids, i, next))
    ensures Shape(c, q, h, lo, hi, next)
    ensures FirstLeaf(q) == FirstLeaf(p)
  {
    hide SortedSlots, KeyFits, Rank, LeafShape, Healthy;
    PutPairWired(c, p, i, l, sep, r, q, lo, hi);
    forall k | 0 <= k < |q.kids| ensures KidOk(c, q, k, h, lo, hi, next) {
      if k < i {
        assert KidOk(c, p, k, h, lo, hi, next);
      } else if k > i + 1 {
        assert KidOk(c, p, k - 1, h, lo, hi, next);
      }
    }
  }

  lemma PutPairWired(c: Config, p: Node, i: nat, l: Node, sep: Bytes, r: Node, q: Node, lo: real, hi: real)
    requires Wired(c, p, lo, hi) && i < |p.kids| && l.id == p.kids[i].id && PairPut(p, i, l, sep, r, q)
    requires KidLo(p.body.slots, i, lo) < Rank(sep) < KidHi(p.body.slots, i, hi) && KeyFits(c, sep)
    ensures Wired(c, q, lo, hi)
  {
    hide SortedSlots, KeyFits, Rank;
    SlotsInsert(p.body.slots, i, InternalSlot(sep, r.id), q.body.slots);
  }

  lemma SlotsInsert(s: seq<InternalSlot>, i: nat, x: InternalSlot, t: seq<InternalSlot>)
    requires SortedSlots(s) && i <= |s| && |t| == |s| + 1
    requires i > 0 ==> Rank(s[i - 1].key) < Rank(x.key)
    requires i < |s| ==> Rank(x.key) < Rank(s[i].key)
    requires t[i] == x
    requires forall k :: 0 <= k < i ==> t[k] == s[k]
    requires forall k :: i < k < |t| ==> t[k] == s[k - 1]
    ensures SortedSlots(t)
  {
  }

  lemma FillOk(c: Config, p: Node, i: nat, h: nat, lo: real, hi: real, next: nat)
    requires h > 0 && Wired(c, p, lo, hi) && i < |p.kids| && ParentOk(c, p, h, lo, hi, next, {i})
    requires KidOk(c, p, i, h, lo, hi, next)
    ensures Shape(c, p, h, lo, hi, next)
  {
  }

  /** A new subtree in child position `i`, with the page id and the first leaf of the one it replaces. */
  lemma SwapOk(c: Config, p: Node, i: nat, m: Node, h: nat, lo: real, hi: real, next: nat, except: set<nat>)
    requires h > 0 && Wired(c, p, lo, hi) && i < |p.kids| && i in except && ParentOk(c, p, h, lo, hi, next, except)
    requires m.id == p.kids[i].id && FirstLeaf(m) == FirstLeaf(p.kids[i])
    ensures ParentOk(c, p.(kids := p.kids[i := m]), h, lo, hi, next, except)
    ensures FirstLeaf(p.(kids := p.kids[i := m])) == FirstLeaf(p)
  {
    var q := p.(kids := p.kids[i := m]);
    forall k | 0 <= k < |q.kids| && k !in except ensures KidOk(c, q, k, h, lo, hi, next) {
      assert KidOk(c, p, k, h, lo, hi, next);
    }
  }

  // ---- contexts ----

  lemma {:induction false} CtxSwap(c: Config, x: Ctx, n: Node, m: Node, h: nat)
    requires Formed(x) && CtxOk(c, x, n, h) && m.id == n.id && FirstLeaf(m) == FirstLeaf(n)
    ensures CtxOk(c, x, m, h)
    decreases x
  {
    if x.Below? {
      var p := Fill(x, n);
      SwapOk(c, p, x.i, m, h + 1, Lo(x.up), Hi(x.up), Next(x.up), {x.i});
      assert p.kids[x.i := m] == x.node.kids[x.i := m];
      CtxSwap(c, x.up, p, Fill(x, m), h + 1);
    }
  }

  /** Putting a healthy subtree in the hole of a context in order gives a whole tree in order. */
  lemma {:induction false} PlugOk(c: Config, x: Ctx, n: Node, h: nat)
    requires Formed(x) && CtxOk(c, x, n, h) && Shape(c, n, h, Lo(x), Hi(x), Next(x))
    requires if x.Top? then RootHealthy(c, n.body) else Healthy(c, n.body)
    ensures Shape(c, Plug(x, n), h + Depth(x), 0.0, 1.0, 0)
    ensures RootHealthy(c, Plug(x, n).body)
    decreases x
  {
    hide Wired, KeyFits, Rank, LeafShape;
    if x.Below? {
      FillOk(c, Fill(x, n), x.i, h + 1, Lo(x.up), Hi(x.up), Next(x.up));
      PlugOk(c, x.up, Fill(x, n), h + 1);
    }
  }

  lemma FillParts(x: Ctx, n: Node)
    requires Formed(x) && x.Below?
    ensures Before(x.up) + Contents(Fill(x, n)) + After(x.up) == Before(x) + Contents(n) + After(x)
    ensures Ids(Fill(x, n)) + CtxIds(x.up) == Ids(n) + CtxIds(x)
  {
    hide ContentsAll, IdsAll;
    var b, a := ContentsAll(x.node.kids[..x.i]), ContentsAll(x.node.kids[x.i + 1..]);
    ListParts(x.node.kids, x.i, n);
    assert Before(x.up) + (b + Contents(n) + a) + After(x.up) == (Before(x.up) + b) + Contents(n) + (a + After(x.up));
  }

  lemma ListParts(kids: seq<Node>, i: nat, n: Node)
    requires i < |kids|
    ensures ContentsAll(kids[i := n]) == ContentsAll(kids[..i]) + Contents(n) + ContentsAll(kids[i + 1..])
    ensures IdsAll(kids[i := n]) == IdsAll(kids[..i]) + Ids(n) + IdsAll(kids[i + 1..])
  {
    var tail := [n] + kids[i + 1..];
    assert kids[i := n] == kids[..i] + tail;
    assert tail[1..] == kids[i + 1..];
    ContentsConcat(kids[..i], tail);
    IdsConcat(kids[..i], tail);
  }

  lemma {:induction false} PlugParts(x: Ctx, n: Node)
    requires Formed(x)
    ensures Contents(Plug(x, n)) == Before(x) + Contents(n) + After(x)
    ensures Ids(Plug(x, n)) == Ids(n) + CtxIds(x)
    decreases x
  {
    if x.Below? {
      FillParts(x, n);
      PlugParts(x.up, Fill(x, n));
    }
  }

  lemma {:induction false} PlugHolds(v: Pages, x: Ctx, n: Node)
    requires Formed(x) && CtxHolds(v, x) && Holds(v, n)
    ensures Holds(v, Plug(x, n))
    decreases x
  {
    if x.Below? {
      PlugHolds(v, x.up, Fill(x, n));
    }
  }
}
