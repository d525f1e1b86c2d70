/** The steps of the rebalance loop: split, merge, redistribute, root split and root collapse. */
module CascadeSteps {
  import opened Bytes
  import opened Entities
  import opened TreeModel
  import opened TreeSteps
  import opened SplitPoint
  import opened Cascading

  // ---- leaves and internal pages alike ----

  /** Structure of `n` that cutting and joining rely on. */
  ghost predicate Proper(n: Node)
  {
    (n.body.Leaf? && n.kids == []) || (n.body.Internal? && |n.kids| == |n.body.slots| + 1)
  }

  ghost function CutKey(n: Node, b: nat): Bytes
    requires Proper(n) && b < Count(n.body)
  {
    if n.body.Leaf? then n.body.entries[b].key else n.body.slots[b].key
  }

  ghost function CutL(n: Node, b: nat, rid: nat): Node
    requires Proper(n) && b < Count(n.body)
  {
    if n.body.Leaf? then LeafCutLeft(n, b, rid) else CutLeft(n, b)
  }

  ghost function CutR(n: Node, b: nat, rid: nat): Node
    requires Proper(n) && b < Count(n.body)
  {
    if n.body.Leaf? then LeafCutRight(n, b, rid) else CutRight(n, b, rid)
  }

  ghost function JoinN(l: Node, sep: Bytes, r: Node): Node
    requires Proper(l) && Proper(r) && l.body.Leaf? == r.body.Leaf?
  {
    if l.body.Leaf? then LeafJoin(l, r) else Join(l, sep, r)
  }

  lemma ShapeProper(c: Config, n: Node, h: nat, lo: real, hi: real, next: nat)
    requires Shape(c, n, h, lo, hi, next)
    ensures Proper(n) && n.body.Leaf? == (h == 0) && SlotsFit(c, n.body) && lo < hi
  {
  }

  lemma CutOk(c: Config, n: Node, b: nat, rid: nat, h: nat, lo: real, hi: real, next: nat)
    requires Shape(c, n, h, lo, hi, next) && Proper(n) && b < Count(n.body) && (n.body.Leaf? ==> b > 0)
    ensures var sep, l, r := CutKey(n, b), CutL(n, b, rid), CutR(n, b, rid);
      && lo < Rank(sep) < hi && KeyFits(c, sep)
      && Shape(c, l, h, lo, Rank(sep), FirstLeaf(r)) && Shape(c, r, h, Rank(sep), hi, next)
      && Contents(n) == Contents(l) + Contents(r)
      && IdsAll(n.kids) == IdsAll(l.kids) + IdsAll(r.kids)
      && l.id == n.id && r.id == rid && FirstLeaf(l) == FirstLeaf(n)
  {
    ShapeProper(c, n, h, lo, hi, next);
    if n.body.Leaf? { LeafCutShape(c, n, b, rid, lo, hi, next); } else { CutShape(c, n, b, rid, h, lo, hi, next); }
    hide Shape, Contents, IdsAll, KeyFits, Rank;
  }

  lemma JoinOk(c: Config, l: Node, sep: Bytes, r: Node, h: nat, lo: real, hi: real, next: nat)
    requires Shape(c, l, h, lo, Rank(sep), FirstLeaf(r)) && Shape(c, r, h, Rank(sep), hi, next)
    requires lo < Rank(sep) < hi && KeyFits(c, sep)
    ensures Proper(l) && Proper(r) && l.body.Leaf? == r.body.Leaf?
    ensures var m := JoinN(l, sep, r);
      && Proper(m) && Shape(c, m, h, lo, hi, next)
      && Contents(m) == Contents(l) + Contents(r)
      && IdsAll(m.kids) == IdsAll(l.kids) + IdsAll(r.kids)
      && m.id == l.id && FirstLeaf(m) == FirstLeaf(l)
  {
    ShapeProper(c, l, h, lo, Rank(sep), FirstLeaf(r));
    ShapeProper(c, r, h, Rank(sep), hi, next);
    if l.body.Leaf? { LeafJoinShape(c, l, r, Rank(sep), lo, hi, next); } else { JoinShape(c, l, sep, r, h, lo, hi, next); }
    hide Shape, Contents, IdsAll, KeyFits, Rank;
  }

  // ---- the parent's size ----

  lemma SlotAddedBounded(c: Config, s: seq<InternalSlot>, i: nat, x: InternalSlot, leftmost: nat)
    requires i <= |s| && PageSize(Internal(leftmost, s)) <= c.pageSize && KeyFits(c, x.key)
    ensures Bounded(c, Internal(leftmost, s[..i] + [x] + s[i..]))
  {
    InternalSumConcat(s[..i], s[i..]);
    assert s == s[..i] + s[i..];
    InternalSumConcat(s[..i] + [x], s[i..]);
    InternalSumConcat(s[..i], [x]);
  }

  lemma SlotDroppedBounded(c: Config, s: seq<InternalSlot>, j: nat, leftmost: nat)
    requires j < |s| && PageSize(Internal(leftmost, s)) <= c.pageSize
    ensures PageSize(Internal(leftmost, s[..j] + s[j + 1..])) <= c.pageSize
  {
    InternalSumConcat(s[..j], s[j..]);
    assert s == s[..j] + s[j..];
    assert s[j..] == [s[j]] + s[j + 1..];
    InternalSumConcat([s[j]], s[j + 1..]);
    InternalSumConcat(s[..j], s[j + 1..]);
  }

  // ---- split ----

  /** What the context says about the hole's parent. */
  ghost predicate ParentFacts(c: Config, x: Ctx, n: Node, h: nat)
    requires Formed(x) && x.Below?
  {
    var p := Fill(x, n);
    && Wired(c, p, Lo(x.up), Hi(x.up))
    && ParentOk(c, p, h + 1, Lo(x.up), Hi(x.up), Next(x.up), {x.i})
    && CtxOk(c, x.up, p, h + 1)
    && x.i < |p.kids| && p.kids[x.i] == n && |p.kids| == |p.body.slots| + 1
    && Lo(x) == KidLo(p.body.slots, x.i, Lo(x.up))
    && Hi(x) == KidHi(p.body.slots, x.i, Hi(x.up))
    && Next(x) == KidNext(p.kids, x.i, Next(x.up))
    && p.body == x.node.body && PageSize(p.body) <= c.pageSize && p.body.slots != []
  }

  lemma AboutParent(c: Config, x: Ctx, n: Node, h: nat)
    requires x.Below? && Ordered(c, x, n, h)
    ensures ParentFacts(c, x, n, h)
  {
    hide Shape, Rank, KidLo, KidHi;
  }

  lemma SplitOrdered(c: Config, x: Ctx, n: Node, h: nat, l: Node, sep: Bytes, r: Node)
    requires x.Below? && Ordered(c, x, n, h)
    requires l.id == n.id && FirstLeaf(l) == FirstLeaf(n) && Healthy(c, l.body) && Healthy(c, r.body)
    requires Lo(x) < Rank(sep) < Hi(x) && KeyFits(c, sep)
    requires Shape(c, l, h, Lo(x), Rank(sep), FirstLeaf(r)) && Shape(c, r, h, Rank(sep), Hi(x), Next(x))
    ensures Ordered(c, x.up, PutPair(Fill(x, n), x.i, l, sep, r), h + 1)
    ensures Bounded(c, PutPair(Fill(x, n), x.i, l, sep, r).body)
  {
    var p, i := Fill(x, n), x.i;
    var q := PutPair(p, i, l, sep, r);
    AboutParent(c, x, n, h);
    hide Shape, CtxOk, ParentOk, Lo, Hi, Next, Rank, Bounded;
    PutPairPut(p, i, l, sep, r);
    PutPairOk(c, p, i, l, sep, r, q, h + 1, Lo(x.up), Hi(x.up), Next(x.up));
    SlotAddedBounded(c, p.body.slots, i, InternalSlot(sep, r.id), p.body.leftmost);
    CtxSwap(c, x.up, p, q, h + 1);
  }

  lemma SplitStored(v: Pages, w: Pages, live: set<nat>, x: Ctx, n: Node, l: Node, r: Node, q: Node)
    requires Stored(v, live, x, n) && x.Below? && Rebuilt(x, n, x.i, x.i + 1, [l, r], q) && r.id !in live && l.id == n.id
    requires n.kids == l.kids + r.kids
    requires Three(v, w, l, r, q)
    ensures Stored(w, live + {r.id}, x.up, q)
  {
    hide *;
    var changed := {l.id, r.id, q.id};
    FocusFacts(v, live, x, n);
    RebuiltId(x, n, x.i, x.i + 1, [l, r], q);
    OnePair(n, l, r);
    IdsParts(l);
    IdsParts(r);
    IdsConcat(l.kids, r.kids);
    SplitDistinct(live, n.id, r.id, q.id, IdsAll(n.kids), CtxIds(x));
    AboutThree(v, w, l, r, q);
    AgreeOff(v, w, changed, IdsAll(n.kids));
    HoldsKids(v, w, n.kids);
    PartsHold(w, n, l, r);
    RebuiltStored(v, w, live, live + {r.id}, x, n, x.i, x.i + 1, [l, r], q, changed);
  }

  lemma FocusFacts(v: Pages, live: set<nat>, x: Ctx, n: Node)
    requires Stored(v, live, x, n) && x.Below?
    ensures Formed(x) && n.id in v && forall k :: 0 <= k < |n.kids| ==> Holds(v, n.kids[k])
    ensures Ids(n) == multiset{n.id} + IdsAll(n.kids) && Ids(n) + CtxIds(x) == multiset(live)
    ensures x.node.id in CtxIds(x)
    ensures x.i < |x.node.kids| && Fill(x, n).kids[x.i..x.i + 1] == [n]
  {
  }

  lemma IdsParts(n: Node)
    ensures Ids(n) == multiset{n.id} + IdsAll(n.kids)
  {
  }

  lemma RebuiltId(x: Ctx, n: Node, a: nat, b: nat, mid: seq<Node>, q: Node)
    requires Formed(x) && x.Below? && Rebuilt(x, n, a, b, mid, q)
    ensures q.id == x.node.id
  {
  }

  /** `w` holds the pages of `l`, `r` and `q`, and is otherwise `v`. */
  ghost predicate Three(v: Pages, w: Pages, l: Node, r: Node, q: Node)
  {
    && Only(v, w, {l.id, r.id, q.id})
    && l.id in w && w[l.id] == l.body && r.id in w && w[r.id] == r.body && q.id in w && w[q.id] == q.body
  }

  lemma AboutThree(v: Pages, w: Pages, l: Node, r: Node, q: Node)
    requires Three(v, w, l, r, q)
    ensures Only(v, w, {l.id, r.id, q.id})
    ensures l.id in w && w[l.id] == l.body && r.id in w && w[r.id] == r.body && q.id in w && w[q.id] == q.body
  {
  }

  lemma SplitDistinct(live: set<nat>, n: nat, r: nat, p: nat, kids: multiset<nat>, ctx: multiset<nat>)
    requires multiset{n} + kids + ctx == multiset(live) && p in ctx && r !in live
    ensures n != p && r != n && r != p
    ensures n !in kids && r !in kids && p !in kids
    ensures multiset{n} + kids + multiset{r} + (multiset(live) - (multiset{n} + kids)) == multiset(live + {r})
    ensures n in live && p in live
  {
    var all := multiset{n} + kids + ctx;
    assert all[n] <= 1 && all[p] <= 1 && all[r] == 0;
    assert multiset(live) - (multiset{n} + kids) == ctx;
  }

  lemma PartsHold(w: Pages, n: Node, l: Node, r: Node)
    requires n.kids == l.kids + r.kids && forall k :: 0 <= k < |n.kids| ==> Holds(w, n.kids[k])
    requires l.id in w && w[l.id] == l.body && r.id in w && w[r.id] == r.body
    ensures Holds(w, l) && Holds(w, r)
  {
    assert forall k :: 0 <= k < |l.kids| ==> l.kids[k] == n.kids[k];
    assert forall k :: 0 <= k < |r.kids| ==> r.kids[k] == n.kids[|l.kids| + k];
  }

  /** The focus is cut in two; its parent, with one more child, is the new focus. */
  lemma SplitStep(c: Config, v: Pages, w: Pages, live: set<nat>, rootId: nat, x: Ctx, n: Node, h: nat, contents: seq<LeafSlot>,
                  b: nat, rid: nat, l: Node, r: Node, q: Node)
    requires Cascade(c, v, live, rootId, x, n, h, contents) && x.Below? && rid !in live
    requires Proper(n) && b < Count(n.body) && (n.body.Leaf? ==> b > 0)
    requires l == CutL(n, b, rid) && r == CutR(n, b, rid) && Healthy(c, l.body) && Healthy(c, r.body)
    requires q == PutPair(Fill(x, n), x.i, l, CutKey(n, b), r)
    requires Three(v, w, l, r, q)
    ensures Cascade(c, w, live + {rid}, rootId, x.up, q, h + 1, contents)
  {
    hide *;
    var sep := CutKey(n, b);
    Unfolded(c, v, live, rootId, x, n, h, contents);
    CutOk(c, n, b, rid, h, Lo(x), Hi(x), Next(x));
    CutKids(n, b, rid);
    SplitOrdered(c, x, n, h, l, sep, r);
    PutPairRebuilt(x, n, l, sep, r);
    SplitStored(v, w, live, x, n, l, r, q);
    FocusFacts(v, live, x, n);
    OnePair(n, l, r);
    SameContents(x, n, x.i, x.i + 1, [l, r], q);
    Folded(c, w, live + {rid}, rootId, x, n, q, h, contents);
  }

  lemma Unfolded(c: Config, v: Pages, live: set<nat>, rootId: nat, x: Ctx, n: Node, h: nat, contents: seq<LeafSlot>)
    requires Cascade(c, v, live, rootId, x, n, h, contents)
    ensures Formed(x) && Ordered(c, x, n, h) && Stored(v, live, x, n) && RootOf(x, n) == rootId && Bounded(c, n.body)
    ensures Before(x) + Contents(n) + After(x) == contents
    ensures CtxOk(c, x, n, h) && Shape(c, n, h, Lo(x), Hi(x), Next(x))
  {
  }

  lemma Folded(c: Config, w: Pages, live: set<nat>, rootId: nat, x: Ctx, n: Node, q: Node, h: nat, contents: seq<LeafSlot>)
    requires Formed(x) && x.Below? && RootOf(x, n) == rootId && q.id == x.node.id
    requires Ordered(c, x.up, q, h + 1) && Stored(w, live, x.up, q) && Bounded(c, q.body)
    requires Before(x.up) + Contents(q) + After(x.up) == contents
    ensures Cascade(c, w, live, rootId, x.up, q, h + 1, contents)
  {
    hide Ordered, Stored, Bounded, Before, After, Contents;
    RootOfSame(x.up, x.node, q);
  }

  lemma PutPairRebuilt(x: Ctx, n: Node, l: Node, sep: Bytes, r: Node)
    requires Formed(x) && x.Below?
    ensures Rebuilt(x, n, x.i, x.i + 1, [l, r], PutPair(Fill(x, n), x.i, l, sep, r))
    ensures PutPair(Fill(x, n), x.i, l, sep, r).id == x.node.id
  {
    assert Fill(x, n).kids[..x.i] == x.node.kids[..x.i] && Fill(x, n).kids[x.i + 1..] == x.node.kids[x.i + 1..];
  }

  lemma CutKids(n: Node, b: nat, rid: nat)
    requires Proper(n) && b < Count(n.body)
    ensures n.kids == CutL(n, b, rid).kids + CutR(n, b, rid).kids
  {
  }

  lemma OnePair(n: Node, l: Node, r: Node)
    ensures ContentsAll([n]) == Contents(n) && ContentsAll([l, r]) == Contents(l) + Contents(r)
    ensures IdsAll([n]) == Ids(n) && IdsAll([l, r]) == Ids(l) + Ids(r)
  {
    assert [l, r][1..] == [r];
    assert ContentsAll([r]) == Contents(r) && IdsAll([r]) == Ids(r);
    hide Contents, Ids;
  }

  /** Replacing children by others with the same contents keeps the contents of the whole tree. */
  lemma SameContents(x: Ctx, n: Node, a: nat, b: nat, mid: seq<Node>, q: Node)
    requires Formed(x) && x.Below? && Rebuilt(x, n, a, b, mid, q)
    requires ContentsAll(mid) == ContentsAll(Fill(x, n).kids[a..b])
    ensures Before(x.up) + Contents(q) + After(x.up) == Before(x) + Contents(n) + After(x)
  {
    hide Contents, ContentsAll, Before, After;
    RebuiltParts(x, n, a, b, mid, q);
  }

  // ---- a pair of neighbours under the hole's parent ----

  /** Children `j` and `j + 1` of the hole's parent, one of them in focus. */
  ghost predicate Pair(x: Ctx, j: nat)
  {
    Formed(x) && x.Below? && j + 1 < |x.node.kids| && (x.i == j || x.i == j + 1)
  }

  ghost function PairL(x: Ctx, n: Node, j: nat): Node
    requires Pair(x, j)
  {
    Fill(x, n).kids[j]
  }

  ghost function PairR(x: Ctx, n: Node, j: nat): Node
    requires Pair(x, j)
  {
    Fill(x, n).kids[j + 1]
  }

  ghost function PairSep(x: Ctx, j: nat): Bytes
    requires Pair(x, j)
  {
    x.node.body.slots[j].key
  }

  ghost function PairLo(x: Ctx, j: nat): real
    requires Pair(x, j)
  {
    KidLo(x.node.body.slots, j, Lo(x.up))
  }

  ghost function PairHi(x: Ctx, j: nat): real
    requires Pair(x, j)
  {
    KidHi(x.node.body.slots, j + 1, Hi(x.up))
  }

  ghost function PairNext(x: Ctx, j: nat): nat
    requires Pair(x, j)
  {
    KidNext(x.node.kids, j + 1, Next(x.up))
  }

  lemma PairFacts(c: Config, x: Ctx, n: Node, h: nat, j: nat)
    requires Ordered(c, x, n, h) && Pair(x, j)
    ensures var p, l, r, sep := Fill(x, n), PairL(x, n, j), PairR(x, n, j), PairSep(x, j);
      && Shape(c, l, h, PairLo(x, j), Rank(sep), FirstLeaf(r))
      && Shape(c, r, h, Rank(sep), PairHi(x, j), PairNext(x, j))
      && PairLo(x, j) < Rank(sep) < PairHi(x, j) && KeyFits(c, sep)
      && (x.i != j ==> Healthy(c, l.body)) && (x.i != j + 1 ==> Healthy(c, r.body))
      && r.id == x.node.body.slots[j].child
  {
    hide *;
    AboutPair(x, j);
    AboutParent(c, x, n, h);
    ParentPair(c, x, n, h, j);
  }

  lemma AboutPair(x: Ctx, j: nat)
    requires Pair(x, j)
    ensures x.Below?
  {
  }

  lemma ParentPair(c: Config, x: Ctx, n: Node, h: nat, j: nat)
    requires Ordered(c, x, n, h) && Pair(x, j) && ParentFacts(c, x, n, h)
    ensures var p, l, r, sep := Fill(x, n), PairL(x, n, j), PairR(x, n, j), PairSep(x, j);
      && Shape(c, l, h, PairLo(x, j), Rank(sep), FirstLeaf(r))
      && Shape(c, r, h, Rank(sep), PairHi(x, j), PairNext(x, j))
      && PairLo(x, j) < Rank(sep) < PairHi(x, j) && KeyFits(c, sep)
      && (x.i != j ==> Healthy(c, l.body)) && (x.i != j + 1 ==> Healthy(c, r.body))
      && r.id == x.node.body.slots[j].child
  {
    hide Shape, CtxOk, Rank, KeyFits, Healthy, FirstLeaf;
    var p := Fill(x, n);
    assert x.i != j ==> KidOk(c, p, j, h + 1, Lo(x.up), Hi(x.up), Next(x.up));
    assert x.i != j + 1 ==> KidOk(c, p, j + 1, h + 1, Lo(x.up), Hi(x.up), Next(x.up));
  }

  /** The parent without slot `j` and child `j + 1`, ready to take what replaces the pair. */
  lemma PairDropped(c: Config, x: Ctx, n: Node, h: nat, j: nat)
    requires Ordered(c, x, n, h) && Pair(x, j)
    ensures var p := Fill(x, n); var q := DropSlot(p, j);
      && Wired(c, q, Lo(x.up), Hi(x.up)) && j < |q.kids|
      && ParentOk(c, q, h + 1, Lo(x.up), Hi(x.up), Next(x.up), {j})
      && KidLo(q.body.slots, j, Lo(x.up)) == PairLo(x, j)
      && KidHi(q.body.slots, j, Hi(x.up)) == PairHi(x, j)
      && KidNext(q.kids, j, Next(x.up)) == PairNext(x, j)
      && FirstLeaf(q) == FirstLeaf(p) && q.id == p.id && q.kids[j] == PairL(x, n, j)
      && CtxOk(c, x.up, p, h + 1) && PageSize(q.body) <= c.pageSize
  {
    AboutParent(c, x, n, h);
    var p := Fill(x, n);
    assert ParentOk(c, p, h + 1, Lo(x.up), Hi(x.up), Next(x.up), {j, j + 1});
    DropSlotOk(c, p, j, h + 1, Lo(x.up), Hi(x.up), Next(x.up));
    SlotDroppedBounded(c, p.body.slots, j, p.body.leftmost);
    hide Shape, CtxOk, Rank, KeyFits, Healthy, Bounded, FirstLeaf, InternalSum, LeafSum, SortedSlots;
  }

  // ---- merge ----

  ghost function Merged(x: Ctx, n: Node, j: nat, m: Node): Node
    requires Pair(x, j)
  {
    DropSlot(Fill(x, n), j).(kids := DropSlot(Fill(x, n), j).kids[j := m])
  }

  lemma MergeOrdered(c: Config, x: Ctx, n: Node, h: nat, j: nat, m: Node)
    requires Ordered(c, x, n, h) && Pair(x, j)
    requires m.id == PairL(x, n, j).id && FirstLeaf(m) == FirstLeaf(PairL(x, n, j)) && Healthy(c, m.body)
    requires Shape(c, m, h, PairLo(x, j), PairHi(x, j), PairNext(x, j))
    ensures Ordered(c, x.up, Merged(x, n, j, m), h + 1) && Bounded(c, Merged(x, n, j, m).body)
    ensures PageSize(Merged(x, n, j, m).body) <= c.pageSize
  {
    PairDropped(c, x, n, h, j);
    var q0, q := DropSlot(Fill(x, n), j), Merged(x, n, j, m);
    SwapOk(c, q0, j, m, h + 1, Lo(x.up), Hi(x.up), Next(x.up), {j});
    hide Shape, CtxOk, Rank, KeyFits, Healthy, FirstLeaf, InternalSum, LeafSum, SortedSlots, DropSlot, Lo, Hi, Next, PairLo, PairHi, PairNext, PairL;
    MergedIsOk(c, q0, q, j, m, h + 1, Lo(x.up), Hi(x.up), Next(x.up));
    CtxSwap(c, x.up, Fill(x, n), q, h + 1);
  }

  lemma MergedIsOk(c: Config, q0: Node, q: Node, j: nat, m: Node, h: nat, lo: real, hi: real, next: nat)
    requires h > 0 && Wired(c, q0, lo, hi) && j < |q0.kids| && q == q0.(kids := q0.kids[j := m])
    requires ParentOk(c, q, h, lo, hi, next, {j}) && Healthy(c, m.body)
    requires Shape(c, m, h - 1, KidLo(q0.body.slots, j, lo), KidHi(q0.body.slots, j, hi), KidNext(q0.kids, j, next))
    ensures Shape(c, q, h, lo, hi, next)
  {
    FillOk(c, q, j, h, lo, hi, next);
  }

  // ---- redistribute ----

  ghost function Redistributed(x: Ctx, n: Node, j: nat, l: Node, sep: Bytes, r: Node): Node
    requires Pair(x, j)
  {
    PutPair(DropSlot(Fill(x, n), j), j, l, sep, r)
  }

  lemma RedistributeOrdered(c: Config, x: Ctx, n: Node, h: nat, j: nat, l: Node, sep: Bytes, r: Node)
    requires Ordered(c, x, n, h) && Pair(x, j)
    requires l.id == PairL(x, n, j).id && FirstLeaf(l) == FirstLeaf(PairL(x, n, j)) && Healthy(c, l.body) && Healthy(c, r.body)
    requires PairLo(x, j) < Rank(sep) < PairHi(x, j) && KeyFits(c, sep)
    requires Shape(c, l, h, PairLo(x, j), Rank(sep), FirstLeaf(r)) && Shape(c, r, h, Rank(sep), PairHi(x, j), PairNext(x, j))
    ensures Ordered(c, x.up, Redistributed(x, n, j, l, sep, r), h + 1) && Bounded(c, Redistributed(x, n, j, l, sep, r).body)
  {
    PairDropped(c, x, n, h, j);
    var q0, q := DropSlot(Fill(x, n), j), Redistributed(x, n, j, l, sep, r);
    hide Shape, CtxOk, ParentOk, Rank, KeyFits, Healthy, Bounded, FirstLeaf, InternalSum, LeafSum, SortedSlots, DropSlot, Lo, Hi, Next, PairLo, PairHi, PairNext, PairL;
    PutPairPut(q0, j, l, sep, r);
    PutPairOk(c, q0, j, l, sep, r, q, h + 1, Lo(x.up), Hi(x.up), Next(x.up));
    SlotAddedBounded(c, q0.body.slots, j, InternalSlot(sep, r.id), q0.body.leftmost);
    CtxSwap(c, x.up, Fill(x, n), q, h + 1);
  }

  // ---- merge and redistribute, stored ----

  /** How the page ids of the whole tree split around the pair. */
  lemma PairTotal(v: Pages, live: set<nat>, x: Ctx, n: Node, j: nat) returns (rest: multiset<nat>)
    requires Stored(v, live, x, n) && Pair(x, j)
    ensures var l, r := PairL(x, n, j), PairR(x, n, j);
      && multiset{l.id} + IdsAll(l.kids) + multiset{r.id} + IdsAll(r.kids) + rest == multiset(live)
      && x.node.id in rest
      && Holds(v, l) && Holds(v, r)
      && Fill(x, n).kids[j..j + 2] == [l, r]
  {
    hide Holds, CtxIds, IdsAll, Contents, ContentsAll, Before, After;
    var l, r, p := PairL(x, n, j), PairR(x, n, j), Fill(x, n);
    assert p.kids[j..j + 2] == [l, r];
    assert p.kids == x.node.kids[..j] + [l, r] + x.node.kids[j + 2..];
    RebuiltParts(x, n, j, j + 2, [l, r], p);
    OnePair(n, l, r);
    rest := multiset{x.node.id} + IdsAll(x.node.kids[..j]) + IdsAll(x.node.kids[j + 2..]) + CtxIds(x.up);
  }

  lemma PairDistinct(live: set<nat>, l: nat, r: nat, p: nat, lk: multiset<nat>, rk: multiset<nat>, rest: multiset<nat>)
    requires multiset{l} + lk + multiset{r} + rk + rest == multiset(live) && p in rest
    ensures l != r && l != p && r != p && l in live && r in live && p in live
    ensures forall id :: id in {l, r, p} ==> id !in lk && id !in rk
    ensures multiset{l} + (lk + rk) + (multiset(live) - (multiset{l} + lk + (multiset{r} + rk))) == multiset(live - {r})
    ensures multiset{l} + lk + (multiset{r} + rk) + (multiset(live) - (multiset{l} + lk + (multiset{r} + rk))) == multiset(live)
  {
    var all := multiset{l} + lk + multiset{r} + rk + rest;
    assert all[l] <= 1 && all[r] <= 1 && all[p] <= 1;
    assert multiset(live) - (multiset{l} + lk + (multiset{r} + rk)) == rest;
  }

  lemma PairKidsHold(v: Pages, w: Pages, l: Node, r: Node, changed: set<nat>)
    requires Holds(v, l) && Holds(v, r) && Only(v, w, changed)
    requires forall id :: id in changed ==> id !in IdsAll(l.kids) && id !in IdsAll(r.kids)
    ensures forall k :: 0 <= k < |l.kids| ==> Holds(w, l.kids[k])
    ensures forall k :: 0 <= k < |r.kids| ==> Holds(w, r.kids[k])
    ensures forall k :: 0 <= k < |l.kids + r.kids| ==> Holds(w, (l.kids + r.kids)[k])
  {
    hide IdsAll;
    AgreeOff(v, w, changed, IdsAll(l.kids));
    AgreeOff(v, w, changed, IdsAll(r.kids));
    HoldsKids(v, w, l.kids);
    HoldsKids(v, w, r.kids);
  }

  lemma MergeStored(v: Pages, w: Pages, live: set<nat>, x: Ctx, n: Node, j: nat, m: Node, q: Node)
    requires Stored(v, live, x, n) && Pair(x, j) && Rebuilt(x, n, j, j + 2, [m], q)
    requires m.id == PairL(x, n, j).id && m.kids == PairL(x, n, j).kids + PairR(x, n, j).kids
    requires Only(v, w, {m.id, PairR(x, n, j).id, q.id})
    requires m.id in w && w[m.id] == m.body && q.id in w && w[q.id] == q.body
    ensures Stored(w, live - {PairR(x, n, j).id}, x.up, q) && PairR(x, n, j).id in live
  {
    hide *;
    var l, r := PairL(x, n, j), PairR(x, n, j);
    var changed := {m.id, r.id, q.id};
    var rest := PairTotal(v, live, x, n, j);
    StoredFormed(v, live, x, n);
    PairFormed(x, j);
    RebuiltId(x, n, j, j + 2, [m], q);
    PairDistinct(live, l.id, r.id, q.id, IdsAll(l.kids), IdsAll(r.kids), rest);
    OnePair(m, l, r);
    IdsParts(l);
    IdsParts(r);
    IdsParts(m);
    IdsConcat(l.kids, r.kids);
    PairKidsHold(v, w, l, r, changed);
    HoldsFromKids(w, m);
    RebuiltStored(v, w, live, live - {r.id}, x, n, j, j + 2, [m], q, changed);
  }

  lemma StoredFormed(v: Pages, live: set<nat>, x: Ctx, n: Node)
    requires Stored(v, live, x, n)
    ensures Formed(x)
  {
  }

  lemma PairFormed(x: Ctx, j: nat)
    requires Pair(x, j)
    ensures x.Below? && j <= x.i < j + 2 <= |x.node.kids|
  {
  }

  lemma HoldsFromKids(w: Pages, m: Node)
    requires m.id in w && w[m.id] == m.body && forall k :: 0 <= k < |m.kids| ==> Holds(w, m.kids[k])
    ensures Holds(w, m)
  {
  }

  lemma RedistributeStored(v: Pages, w: Pages, live: set<nat>, x: Ctx, n: Node, j: nat, l': Node, r': Node, q: Node)
    requires Stored(v, live, x, n) && Pair(x, j) && Rebuilt(x, n, j, j + 2, [l', r'], q)
    requires l'.id == PairL(x, n, j).id && r'.id == PairR(x, n, j).id
    requires l'.kids + r'.kids == PairL(x, n, j).kids + PairR(x, n, j).kids
    requires Three(v, w, l', r', q)
    ensures Stored(w, live, x.up, q)
  {
    hide *;
    var l, r := PairL(x, n, j), PairR(x, n, j);
    var changed := {l.id, r.id, q.id};
    var rest := PairTotal(v, live, x, n, j);
    StoredFormed(v, live, x, n);
    PairFormed(x, j);
    RebuiltId(x, n, j, j + 2, [l', r'], q);
    PairDistinct(live, l.id, r.id, q.id, IdsAll(l.kids), IdsAll(r.kids), rest);
    OnePair(l, l', r');
    OnePair(l, l, r);
    IdsParts(l);
    IdsParts(r);
    IdsParts(l');
    IdsParts(r');
    IdsConcat(l.kids, r.kids);
    IdsConcat(l'.kids, r'.kids);
    Regroup(l.id, r.id, IdsAll(l.kids), IdsAll(r.kids), IdsAll(l'.kids), IdsAll(r'.kids));
    AboutThree(v, w, l', r', q);
    PairKidsHold(v, w, l, r, changed);
    PartsHold(w, l.(kids := l.kids + r.kids), l', r');
    RebuiltStored(v, w, live, live, x, n, j, j + 2, [l', r'], q, changed);
  }

  lemma Regroup(l: nat, r: nat, a: multiset<nat>, b: multiset<nat>, a': multiset<nat>, b': multiset<nat>)
    requires a + b == a' + b'
    ensures multiset{l} + a + (multiset{r} + b) == multiset{l} + a' + (multiset{r} + b')
  {
    assert multiset{l} + a + (multiset{r} + b) == multiset{l} + multiset{r} + (a + b);
    assert multiset{l} + a' + (multiset{r} + b') == multiset{l} + multiset{r} + (a' + b');
  }

  lemma MergedRebuilt(x: Ctx, n: Node, j: nat, m: Node)
    requires Pair(x, j)
    ensures Rebuilt(x, n, j, j + 2, [m], Merged(x, n, j, m))
    ensures Merged(x, n, j, m).id == x.node.id
  {
    assert DropSlot(Fill(x, n), j).kids[j := m] == x.node.kids[..j] + [m] + x.node.kids[j + 2..];
  }

  lemma RedistributedRebuilt(x: Ctx, n: Node, j: nat, l: Node, sep: Bytes, r: Node)
    requires Pair(x, j)
    ensures Rebuilt(x, n, j, j + 2, [l, r], Redistributed(x, n, j, l, sep, r))
    ensures Redistributed(x, n, j, l, sep, r).id == x.node.id
  {
    var q0 := DropSlot(Fill(x, n), j);
    assert q0.kids[..j] == x.node.kids[..j] && q0.kids[j + 1..] == x.node.kids[j + 2..];
  }

  /** The pair becomes one page; its parent, one child fewer, is the new focus. */
  lemma MergeStep(c: Config, v: Pages, w: Pages, live: set<nat>, rootId: nat, x: Ctx, n: Node, h: nat, contents: seq<LeafSlot>,
                  j: nat, m: Node, q: Node)
    requires Cascade(c, v, live, rootId, x, n, h, contents) && Pair(x, j)
    requires Proper(PairL(x, n, j)) && Proper(PairR(x, n, j)) && PairL(x, n, j).body.Leaf? == PairR(x, n, j).body.Leaf?
    requires m == JoinN(PairL(x, n, j), PairSep(x, j), PairR(x, n, j)) && Healthy(c, m.body)
    requires q == Merged(x, n, j, m)
    requires Only(v, w, {m.id, PairR(x, n, j).id, q.id})
    requires m.id in w && w[m.id] == m.body && q.id in w && w[q.id] == q.body
    ensures Cascade(c, w, live - {PairR(x, n, j).id}, rootId, x.up, q, h + 1, contents)
    ensures PairR(x, n, j).id in live && PageSize(q.body) <= c.pageSize
  {
    hide *;
    var l, r, sep := PairL(x, n, j), PairR(x, n, j), PairSep(x, j);
    Unfolded(c, v, live, rootId, x, n, h, contents);
    PairFormed(x, j);
    PairFacts(c, x, n, h, j);
    JoinOk(c, l, sep, r, h, PairLo(x, j), PairHi(x, j), PairNext(x, j));
    JoinKids(l, sep, r);
    MergeOrdered(c, x, n, h, j, m);
    MergedRebuilt(x, n, j, m);
    MergeStored(v, w, live, x, n, j, m, q);
    var rest := PairTotal(v, live, x, n, j);
    OnePair(m, l, r);
    SameContents(x, n, j, j + 2, [m], q);
    Folded(c, w, live - {r.id}, rootId, x, n, q, h, contents);
  }

  lemma JoinKids(l: Node, sep: Bytes, r: Node)
    requires Proper(l) && Proper(r) && l.body.Leaf? == r.body.Leaf?
    ensures JoinN(l, sep, r).kids == l.kids + r.kids
  {
  }

  /** The boundary between the pair moves; the parent, with a new separator, is the new focus. */
  lemma RedistributeStep(c: Config, v: Pages, w: Pages, live: set<nat>, rootId: nat, x: Ctx, n: Node, h: nat, contents: seq<LeafSlot>,
                         j: nat, m: Node, b: nat, l': Node, r': Node, q: Node)
    requires Cascade(c, v, live, rootId, x, n, h, contents) && Pair(x, j)
    requires Proper(PairL(x, n, j)) && Proper(PairR(x, n, j)) && PairL(x, n, j).body.Leaf? == PairR(x, n, j).body.Leaf?
    requires m == JoinN(PairL(x, n, j), PairSep(x, j), PairR(x, n, j))
    requires Proper(m) && b < Count(m.body) && (m.body.Leaf? ==> b > 0)
    requires l' == CutL(m, b, PairR(x, n, j).id) && r' == CutR(m, b, PairR(x, n, j).id)
    requires Healthy(c, l'.body) && Healthy(c, r'.body)
    requires q == Redistributed(x, n, j, l', CutKey(m, b), r')
    requires Three(v, w, l', r', q)
    ensures Cascade(c, w, live, rootId, x.up, q, h + 1, contents)
  {
    hide *;
    var l, r, sep := PairL(x, n, j), PairR(x, n, j), PairSep(x, j);
    Unfolded(c, v, live, rootId, x, n, h, contents);
    PairFormed(x, j);
    PairFacts(c, x, n, h, j);
    JoinOk(c, l, sep, r, h, PairLo(x, j), PairHi(x, j), PairNext(x, j));
    JoinKids(l, sep, r);
    CutOk(c, m, b, r.id, h, PairLo(x, j), PairHi(x, j), PairNext(x, j));
    CutKids(m, b, r.id);
    RedistributeOrdered(c, x, n, h, j, l', CutKey(m, b), r');
    RedistributedRebuilt(x, n, j, l', CutKey(m, b), r');
    RedistributeStored(v, w, live, x, n, j, l', r', q);
    var rest := PairTotal(v, live, x, n, j);
    OnePair(m, l', r');
    OnePair(m, l, r);
    SameContents(x, n, j, j + 2, [l', r'], q);
    Folded(c, w, live, rootId, x, n, q, h, contents);
  }

  // ---- the root ----

  /** The new root over the two halves of the old one. */
  ghost function NewRoot(id: nat, l: Node, sep: Bytes, r: Node): Node
  {
    Node(id, Internal(l.id, [InternalSlot(sep, r.id)]), [l, r])
  }

  lemma NewRootOrdered(c: Config, id: nat, l: Node, sep: Bytes, r: Node, h: nat)
    requires h > 0 && c.pageSize >= 256 && 0.0 < Rank(sep) < 1.0 && KeyFits(c, sep) && Healthy(c, l.body) && Healthy(c, r.body)
    requires Shape(c, l, h - 1, 0.0, Rank(sep), FirstLeaf(r)) && Shape(c, r, h - 1, Rank(sep), 1.0, 0)
    ensures Ordered(c, Top, NewRoot(id, l, sep, r), h)
    ensures Bounded(c, NewRoot(id, l, sep, r).body) && RootHealthy(c, NewRoot(id, l, sep, r).body)
    ensures Contents(NewRoot(id, l, sep, r)) == Contents(l) + Contents(r)
    ensures Ids(NewRoot(id, l, sep, r)) == multiset{id} + (Ids(l) + Ids(r))
  {
    var q := NewRoot(id, l, sep, r);
    OnePair(l, l, r);
    NewRootSize(c, q.body);
    hide Healthy, Rank, KeyFits, InternalSum, Bounded, RootHealthy, ContentsAll, IdsAll, FirstLeaf;
    forall i | 0 <= i < |q.kids| ensures KidOk(c, q, i, h, 0.0, 1.0, 0) {
      assert q.kids[i] == if i == 0 then l else r;
    }
    assert Wired(c, q, 0.0, 1.0);
    TopBounds();
    assert Shape(c, q, h, 0.0, 1.0, 0);
    assert CtxOk(c, Top, q, h);
    assert Formed(Top);
  }

  lemma NewRootSize(c: Config, b: Body)
    requires c.pageSize >= 256 && b.Internal? && |b.slots| == 1 && KeyFits(c, b.slots[0].key)
    ensures Bounded(c, b) && RootHealthy(c, b)
  {
    assert b.slots[..|b.slots| - 1] == [];
    assert InternalSum([]) == 0;
  }

  lemma SplitRootStored(v: Pages, w: Pages, live: set<nat>, n: Node, l: Node, sep: Bytes, r: Node, id: nat)
    requires Stored(v, live, Top, n) && r.id !in live && id !in live && id != r.id && l.id == n.id
    requires n.kids == l.kids + r.kids
    requires Three(v, w, l, r, NewRoot(id, l, sep, r))
    requires Ids(NewRoot(id, l, sep, r)) == multiset{id} + (Ids(l) + Ids(r))
    ensures Stored(w, live + {r.id} + {id}, Top, NewRoot(id, l, sep, r))
  {
    hide *;
    var q := NewRoot(id, l, sep, r);
    RootFacts(v, live, n);
    IdsParts(n);
    IdsParts(l);
    IdsParts(r);
    IdsConcat(l.kids, r.kids);
    AboutThree(v, w, l, r, q);
    RootDistinct(live, n.id, r.id, id, IdsAll(l.kids), IdsAll(r.kids));
    NewRootParts(id, l, sep, r);
    AgreeOff(v, w, {l.id, r.id, id}, IdsAll(n.kids));
    HoldsKids(v, w, n.kids);
    PartsHold(w, n, l, r);
    HoldsFromKids(w, q);
    StoredAtTop(w, live + {r.id} + {id}, q);
  }

  lemma RootFacts(v: Pages, live: set<nat>, n: Node)
    requires Stored(v, live, Top, n)
    ensures n.id in v && forall k :: 0 <= k < |n.kids| ==> Holds(v, n.kids[k])
    ensures Ids(n) == multiset(live)
  {
    assert Ids(n) + multiset{} == Ids(n);
  }

  lemma NewRootParts(id: nat, l: Node, sep: Bytes, r: Node)
    ensures NewRoot(id, l, sep, r).id == id && NewRoot(id, l, sep, r).kids == [l, r]
  {
  }

  lemma StoredAtTop(w: Pages, live: set<nat>, q: Node)
    requires Holds(w, q) && Ids(q) == multiset(live)
    ensures Stored(w, live, Top, q)
  {
    assert Ids(q) + multiset{} == Ids(q);
  }

  lemma RootDistinct(live: set<nat>, n: nat, r: nat, id: nat, lk: multiset<nat>, rk: multiset<nat>)
    requires multiset{n} + (lk + rk) == multiset(live) && r !in live && id !in live && id != r
    ensures forall k :: k in {n, r, id} ==> k !in lk + rk
    ensures multiset{id} + (multiset{n} + lk + (multiset{r} + rk)) == multiset(live + {r} + {id})
  {
    var all := multiset{n} + (lk + rk);
    assert all[n] <= 1 && all[r] == 0 && all[id] == 0;
    assert multiset(live + {r} + {id}) == all + multiset{r} + multiset{id};
  }

  /** The root is cut in two under a new root. */
  lemma SplitRootStep(c: Config, v: Pages, w: Pages, live: set<nat>, rootId: nat, n: Node, h: nat, contents: seq<LeafSlot>,
                      b: nat, rid: nat, id: nat, l: Node, r: Node, q: Node)
    requires c.pageSize >= 256 && Cascade(c, v, live, rootId, Top, n, h, contents) && rid !in live && id !in live && id != rid
    requires Proper(n) && b < Count(n.body) && (n.body.Leaf? ==> b > 0)
    requires l == CutL(n, b, rid) && r == CutR(n, b, rid) && Healthy(c, l.body) && Healthy(c, r.body)
    requires q == NewRoot(id, l, CutKey(n, b), r)
    requires Three(v, w, l, r, q)
    ensures Cascade(c, w, live + {rid} + {id}, id, Top, q, h + 1, contents)
    ensures RootHealthy(c, q.body)
  {
    hide *;
    var sep := CutKey(n, b);
    Unfolded(c, v, live, rootId, Top, n, h, contents);
    TopBounds();
    CutOk(c, n, b, rid, h, 0.0, 1.0, 0);
    CutKids(n, b, rid);
    NewRootOrdered(c, id, l, sep, r, h + 1);
    SplitRootStored(v, w, live, n, l, sep, r, id);
    NewRootParts(id, l, sep, r);
    FoldedAtTop(c, w, live + {rid} + {id}, id, q, h + 1, contents);
  }

  lemma TopBounds()
    ensures Lo(Top) == 0.0 && Hi(Top) == 1.0 && Next(Top) == 0
    ensures Before(Top) == [] && After(Top) == []
  {
  }

  lemma FoldedAtTop(c: Config, w: Pages, live: set<nat>, id: nat, q: Node, h: nat, contents: seq<LeafSlot>)
    requires q.id == id && Ordered(c, Top, q, h) && Stored(w, live, Top, q) && Bounded(c, q.body) && Contents(q) == contents
    ensures Cascade(c, w, live, id, Top, q, h, contents)
  {
    assert [] + contents + [] == contents;
  }

  /** An empty root gives way to its only child. */
  lemma CollapseStep(c: Config, v: Pages, w: Pages, live: set<nat>, rootId: nat, q: Node, h: nat, contents: seq<LeafSlot>)
    requires Cascade(c, v, live, rootId, Top, q, h, contents) && q.body.Internal? && q.body.slots == []
    requires Only(v, w, {q.id})
    ensures h > 0 && |q.kids| == 1 && q.kids[0].id == q.body.leftmost && q.id in live
    ensures Consistent(c, w, live - {q.id}, q.body.leftmost, q.kids[0], h - 1)
    ensures Contents(q.kids[0]) == contents
  {
    hide Rank, KeyFits, SortedSlots, LeafShape, Before, After;
    Unfolded(c, v, live, rootId, Top, q, h, contents);
    TopBounds();
    RootFacts(v, live, q);
    ShapeProper(c, q, h, 0.0, 1.0, 0);
    var m := q.kids[0];
    assert KidOk(c, q, 0, h, 0.0, 1.0, 0);
    assert q.kids == [m];
    OnePair(m, m, m);
    IdsParts(q);
    CollapseIds(live, q.id, Ids(m));
    AgreeOff(v, w, {q.id}, Ids(m));
    HoldsFrame(v, w, m);
    assert [] + Contents(q) + [] == Contents(q);
  }

  lemma CollapseIds(live: set<nat>, q: nat, m: multiset<nat>)
    requires multiset{q} + m == multiset(live)
    ensures q in live && q !in m && m == multiset(live - {q})
  {
    assert (multiset{q} + m)[q] <= 1;
    assert multiset(live - {q}) == multiset(live) - multiset{q};
    assert (multiset{q} + m) - multiset{q} == m;
  }
}
