/**
 * The tree behind the page store: a ghost structure whose nodes carry the page ids and page bodies,
 * the invariants of a B+ tree over it, and contexts (a tree with one hole), which is how the rebalance
 * loop sees the tree: one page in focus, everything else in place.
 */
module TreeModel {
  import opened Bytes
  import opened Entities

  /** `kids` of an internal node are its children, leftmost first. */
  datatype Node = Node(id: nat, body: Body, kids: seq<Node>)

  /**
   * `strict`: every key is short enough that internal pages can always be balanced too. `tight`: no page id is ever
   * leaked, not even by a crash.
   */
  datatype Config = Config(pageSize: nat, ghost strict: bool, ghost tight: bool)

  type Pages = map<nat, Body>

  // ---- sizes and fill ----

  predicate Overfull(c: Config, b: Body) { PageSize(b) > c.pageSize }

  /** Less than 40% full. */
  predicate Underfull(c: Config, b: Body) { 5 * PageSize(b) < 2 * c.pageSize }

  /** A key short enough that internal pages can always be balanced. */
  predicate ShortKey(key: Bytes, pageSize: nat) { 10 * |key| + 40 <= pageSize }

  ghost predicate KeyFits(c: Config, key: Bytes)
  {
    5 * (16 + |key|) <= c.pageSize - 32 && (c.strict ==> ShortKey(key, c.pageSize))
  }

  ghost predicate EntryFits(c: Config, s: LeafSlot)
  {
    5 * LeafSlotSize(s) <= c.pageSize - 32 && KeyFits(c, s.key)
  }

  /** What a page other than the root and other than the one in focus satisfies. */
  ghost predicate Healthy(c: Config, b: Body)
  {
    && !Overfull(c, b)
    && (b.Leaf? || c.strict ==> !Underfull(c, b))
    && (b.Internal? ==> b.slots != [])
  }

  ghost predicate RootHealthy(c: Config, b: Body)
  {
    !Overfull(c, b) && (b.Internal? ==> b.slots != [])
  }

  /** The page in focus may overflow by at most one slot. */
  predicate Bounded(c: Config, b: Body) { 5 * PageSize(b) <= 6 * c.pageSize - 12 }

  // ---- order ----

  ghost predicate SortedEntries(s: seq<LeafSlot>)
  {
    forall i, j :: 0 <= i < j < |s| ==> Rank(s[i].key) < Rank(s[j].key)
  }

  ghost predicate SortedSlots(s: seq<InternalSlot>)
  {
    forall i, j :: 0 <= i < j < |s| ==> Rank(s[i].key) < Rank(s[j].key)
  }

  // ---- the invariant ----

  ghost function FirstLeaf(n: Node): nat
  {
    if n.kids == [] then n.id else FirstLeaf(n.kids[0])
  }

  ghost function KidLo(s: seq<InternalSlot>, i: nat, lo: real): real
    requires i <= |s|
  {
    if i == 0 then lo else Rank(s[i - 1].key)
  }

  ghost function KidHi(s: seq<InternalSlot>, i: nat, hi: real): real
    requires i <= |s|
  {
    if i == |s| then hi else Rank(s[i].key)
  }

  ghost function KidNext(kids: seq<Node>, i: nat, next: nat): nat
    requires i < |kids|
  {
    if i + 1 == |kids| then next else FirstLeaf(kids[i + 1])
  }

  /** Children linked, separators sorted strictly inside the bounds; nothing about the children. */
  ghost predicate Wired(c: Config, n: Node, lo: real, hi: real)
  {
    && n.body.Internal?
    && |n.kids| == |n.body.slots| + 1
    && n.kids[0].id == n.body.leftmost
    && (forall i :: 0 <= i < |n.body.slots| ==> n.kids[i + 1].id == n.body.slots[i].child)
    && SortedSlots(n.body.slots)
    && (forall i :: 0 <= i < |n.body.slots| ==> lo < Rank(n.body.slots[i].key) < hi && KeyFits(c, n.body.slots[i].key))
    && lo < hi
  }

  ghost predicate LeafShape(c: Config, b: Body, lo: real, hi: real, next: nat)
  {
    && b.Leaf?
    && b.right == next
    && SortedEntries(b.entries)
    && (forall i :: 0 <= i < |b.entries| ==> lo <= Rank(b.entries[i].key) < hi && EntryFits(c, b.entries[i]))
    && lo < hi
  }

  /**
   * `n` is a subtree of height `h` whose keys lie in [lo, hi), whose leaf chain continues with page
   * `next`, and in which every page but `n` itself is healthy.
   */
  ghost predicate Shape(c: Config, n: Node, h: nat, lo: real, hi: real, next: nat)
    decreases h
  {
    if h == 0 then
      n.kids == [] && LeafShape(c, n.body, lo, hi, next)
    else
      && Wired(c, n, lo, hi)
      && forall i :: 0 <= i < |n.kids| ==> KidOk(c, n, i, h, lo, hi, next)
  }

  ghost predicate KidOk(c: Config, n: Node, i: nat, h: nat, lo: real, hi: real, next: nat)
    requires h > 0 && n.body.Internal? && |n.kids| == |n.body.slots| + 1 && i < |n.kids|
    decreases h, 0
  {
    && Healthy(c, n.kids[i].body)
    && Shape(c, n.kids[i], h - 1, KidLo(n.body.slots, i, lo), KidHi(n.body.slots, i, hi), KidNext(n.kids, i, next))
  }

  // ---- contents and page ids ----

  ghost function Contents(n: Node): seq<LeafSlot>
    decreases n, 1
  {
    if n.body.Leaf? then n.body.entries else ContentsAll(n.kids)
  }

  ghost function ContentsAll(ns: seq<Node>): seq<LeafSlot>
    decreases ns, 0
  {
    if ns == [] then [] else Contents(ns[0]) + ContentsAll(ns[1..])
  }

  ghost function Ids(n: Node): multiset<nat>
    decreases n, 1
  {
    multiset{n.id} + IdsAll(n.kids)
  }

  ghost function IdsAll(ns: seq<Node>): multiset<nat>
    decreases ns, 0
  {
    if ns == [] then multiset{} else Ids(ns[0]) + IdsAll(ns[1..])
  }

  lemma {:induction false} ContentsConcat(a: seq<Node>, b: seq<Node>)
    ensures ContentsAll(a + b) == ContentsAll(a) + ContentsAll(b)
  {
    if a == [] {
      assert a + b == b;
    } else {
      assert (a + b)[1..] == a[1..] + b;
      ContentsConcat(a[1..], b);
    }
  }

  lemma {:induction false} IdsConcat(a: seq<Node>, b: seq<Node>)
    ensures IdsAll(a + b) == IdsAll(a) + IdsAll(b)
  {
    if a == [] {
      assert a + b == b;
    } else {
      assert (a + b)[1..] == a[1..] + b;
      IdsConcat(a[1..], b);
    }
  }

  // ---- the page store holds the tree ----

  ghost predicate Holds(v: Pages, n: Node)
  {
    n.id in v && v[n.id] == n.body && forall i :: 0 <= i < |n.kids| ==> Holds(v, n.kids[i])
  }

  ghost predicate Agree(v: Pages, w: Pages, ids: multiset<nat>)
  {
    forall id :: id in ids && id in v ==> id in w && w[id] == v[id]
  }

  lemma {:induction false} IdsMember(ns: seq<Node>, i: nat)
    requires i < |ns|
    ensures Ids(ns[i]) <= IdsAll(ns)
  {
    if i > 0 { IdsMember(ns[1..], i - 1); }
  }

  lemma {:induction false} HoldsFrame(v: Pages, w: Pages, n: Node)
    requires Holds(v, n) && Agree(v, w, Ids(n))
    ensures Holds(w, n)
    decreases n
  {
    assert n.id in Ids(n);
    forall i | 0 <= i < |n.kids| ensures Holds(w, n.kids[i]) {
      IdsMember(n.kids, i);
      HoldsFrame(v, w, n.kids[i]);
    }
  }

  // ---- contexts: the tree around the page in focus ----

  /** `Below(up, node, i)`: the hole is child `i` of `node`, itself in context `up`; `node.kids[i]` is ignored. */
  datatype Ctx = Top | Below(up: Ctx, node: Node, i: nat)

  ghost function Depth(x: Ctx): nat { if x.Top? then 0 else Depth(x.up) + 1 }

  ghost predicate Formed(x: Ctx)
  {
    x.Top? || (x.node.body.Internal? && |x.node.kids| == |x.node.body.slots| + 1 && x.i < |x.node.kids| && Formed(x.up))
  }

  ghost function Lo(x: Ctx): real
    requires Formed(x)
  {
    if x.Top? then 0.0 else KidLo(x.node.body.slots, x.i, Lo(x.up))
  }

  ghost function Hi(x: Ctx): real
    requires Formed(x)
  {
    if x.Top? then 1.0 else KidHi(x.node.body.slots, x.i, Hi(x.up))
  }

  ghost function Next(x: Ctx): nat
    requires Formed(x)
  {
    if x.Top? then 0 else KidNext(x.node.kids, x.i, Next(x.up))
  }

  /** The node of the hole's parent once `n` is put in the hole. */
  ghost function Fill(x: Ctx, n: Node): Node
    requires x.Below? && Formed(x)
  {
    x.node.(kids := x.node.kids[x.i := n])
  }

  ghost function Plug(x: Ctx, n: Node): Node
    requires Formed(x)
    decreases x
  {
    if x.Top? then n else Plug(x.up, Fill(x, n))
  }

  /** The hole's parent is in order, children other than those in `except` included. `n` fills the hole. */
  ghost predicate ParentOk(c: Config, p: Node, h: nat, lo: real, hi: real, next: nat, except: set<nat>)
    requires h > 0
  {
    Wired(c, p, lo, hi) && forall i :: 0 <= i < |p.kids| && i !in except ==> KidOk(c, p, i, h, lo, hi, next)
  }

  /** Everything around the hole is in order, when the hole is filled by a subtree `n` of height `h`. */
  ghost predicate CtxOk(c: Config, x: Ctx, n: Node, h: nat)
    requires Formed(x)
    decreases x
  {
    x.Top? ||
    (&& ParentOk(c, Fill(x, n), h + 1, Lo(x.up), Hi(x.up), Next(x.up), {x.i})
     && (if x.up.Top? then RootHealthy(c, x.node.body) else Healthy(c, x.node.body))
     && CtxOk(c, x.up, Fill(x, n), h + 1))
  }

  ghost function Before(x: Ctx): seq<LeafSlot>
    requires Formed(x)
  {
    if x.Top? then [] else Before(x.up) + ContentsAll(x.node.kids[..x.i])
  }

  ghost function After(x: Ctx): seq<LeafSlot>
    requires Formed(x)
  {
    if x.Top? then [] else ContentsAll(x.node.kids[x.i + 1..]) + After(x.up)
  }

  ghost function CtxIds(x: Ctx): multiset<nat>
    requires Formed(x)
  {
    if x.Top? then multiset{} else
      CtxIds(x.up) + multiset{x.node.id} + IdsAll(x.node.kids[..x.i]) + IdsAll(x.node.kids[x.i + 1..])
  }

  ghost predicate CtxHolds(v: Pages, x: Ctx)
    requires Formed(x)
  {
    x.Top? ||
    (&& x.node.id in v && v[x.node.id] == x.node.body
     && (forall j :: 0 <= j < |x.node.kids| && j != x.i ==> Holds(v, x.node.kids[j]))
     && CtxHolds(v, x.up))
  }

  lemma {:induction false} CtxHoldsFrame(v: Pages, w: Pages, x: Ctx)
    requires Formed(x) && CtxHolds(v, x) && Agree(v, w, CtxIds(x))
    ensures CtxHolds(w, x)
    decreases x
  {
    if x.Below? {
      assert x.node.id in CtxIds(x);
      forall j | 0 <= j < |x.node.kids| && j != x.i ensures Holds(w, x.node.kids[j]) {
        if j < x.i {
          IdsMember(x.node.kids[..x.i], j);
        } else {
          IdsMember(x.node.kids[x.i + 1..], j - x.i - 1);
        }
        HoldsFrame(v, w, x.node.kids[j]);
      }
      CtxHoldsFrame(v, w, x.up);
    }
  }
}
