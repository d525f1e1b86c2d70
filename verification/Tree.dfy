/** The B+ tree over the pager and the buffer pool. */
module BPlusTrees {
  import opened Bytes
  import opened Entities
  import opened Codec
  import opened TreeModel
  import opened TreeSteps
  import opened SplitPoint
  import opened Cascading
  import opened CascadeSteps
  import opened Redistribution
  import opened Descent
  import opened Paging
  import opened Cache
  import opened TreeMaps
  import opened LeafOps
  import opened LeafChain
  import opened ScanFacts

  lemma AtTop(key: Bytes)
    ensures Formed(Top) && Lo(Top) <= Rank(key) < Hi(Top) && Depth(Top) == 0 && PathOk([], Top)
    ensures forall held :: Frames(Top, held)
  {
  }

  lemma RootId(c: Config, v: Pages, live: set<nat>, rootId: nat, root: Node, h: nat)
    requires Consistent(c, v, live, rootId, root, h)
    ensures root.id == rootId
  {
  }

  /** The page in focus can be read, and it is a tree page. */
  lemma FocusStored(c: Config, v: Pages, live: set<nat>, rootId: nat, root: Node, x: Ctx, n: Node, h: nat)
    requires At(c, v, live, rootId, root, x, n, h)
    ensures Formed(x) && n.id in v && v[n.id] == n.body && n.id in live && (h == 0 <==> n.body.Leaf?) && !n.body.Freelist?
  {
    hide Rank, CtxOk, Healthy, RootHealthy, LeafShape;
    ShapeProper(c, n, h, Lo(x), Hi(x), Next(x));
    assert n.id in Ids(n) + CtxIds(x);
  }

  lemma Descend(c: Config, v: Pages, live: set<nat>, rootId: nat, root: Node, x: Ctx, n: Node, h: nat, key: Bytes)
    requires At(c, v, live, rootId, root, x, n, h) && n.body.Internal? && Formed(x) && Lo(x) <= Rank(key) < Hi(x)
    ensures var i := BisectRightSlots(n.body.slots, key);
      && h > 0 && i < |n.kids| && n.kids[i].id == (if i == 0 then n.body.leftmost else n.body.slots[i - 1].child)
      && At(c, v, live, rootId, root, Below(x, n, i), n.kids[i], h - 1)
      && Formed(Below(x, n, i)) && Lo(Below(x, n, i)) <= Rank(key) < Hi(Below(x, n, i))
      && Depth(Below(x, n, i)) == Depth(x) + 1
  {
    var i := BisectRightSlots(n.body.slots, key);
    Down(c, v, live, rootId, root, x, n, h, i);
    ChildBounds(n.body.slots, key, Lo(x), Hi(x));
    hide Ordered, Stored, Plug, RootOf, Healthy, RootHealthy, BisectRightSlots, Rank;
  }

  lemma Pushed(path: seq<PathItem>, x: Ctx, n: Node, i: nat, held: set<nat>)
    requires path != [] && PathOk(path[..|path| - 1], x) && path[|path| - 1] == PathItem(n.id, i - 1)
    ensures PathOk(path, Below(x, n, i))
    ensures Frames(x, held) && n.id in held ==> Frames(Below(x, n, i), held)
  {
  }

  lemma {:induction false} FramesGrow(x: Ctx, held: set<nat>, held': set<nat>)
    requires Frames(x, held) && held <= held'
    ensures Frames(x, held')
  {
    if x.Below? { FramesGrow(x.up, held, held'); }
  }

  /** The two pages a chosen cut leaves are healthy. */
  lemma ChosenIsHealthy(c: Config, b: Body, m: nat, r: nat, rid: nat)
    requires c.pageSize >= 256 && !b.Freelist? && SlotsFit(c, b) && Overfull(c, b) && Bounded(c, b)
    requires Midpoint(b, m) && Chosen(c, b, m, r) && r < Count(b)
    ensures r > 0 && Healthy(c, CutLBody(b, r, rid)) && Healthy(c, CutRBody(b, r))
  {
    hide KeyFits, EntryFits, Prefix, Midpoint;
    CutSizes(b, r, rid);
    CutSizes(b, r, 0);
    if b.Leaf? {
      LeafCutIsBalanced(c, b, m);
    } else if c.strict {
      InternalCutIsBalanced(c, b, m);
    }
    if Candidate(c, b, r) {
      BalancedFits(c, b, r);
    } else {
      FallbackCut(c, b, m);
    }
  }

  /**
   * The page at `left` has been split where the search for a split point says, its upper part is page `right`, and
   * `parent` leads to both.
   */
  ghost predicate HalvesStored(c: Config, v: Pages, w: Pages, b: Body, x: Ctx, left: nat, right: nat, parentId: nat, parent: Body)
  {
    exists cut: nat, m: nat :: HalvesAt(c, v, w, b, x, left, cut, m, right, parentId, parent)
  }

  ghost predicate HalvesAt(c: Config, v: Pages, w: Pages, b: Body, x: Ctx, left: nat, cut: nat, m: nat, right: nat, parentId: nat, parent: Body)
  {
    && Midpoint(b, m) && Chosen(c, b, m, cut) && cut < Count(b)
    && w == v[left := CutLBody(b, cut, right)][right := CutRBody(b, cut)][parentId := parent]
    && parent == ParentOfHalves(x, left, CutKeyOf(b, cut), right)
  }

  /** A new root over the two halves, or the old parent with one more separator. */
  ghost function ParentOfHalves(x: Ctx, left: nat, key: Bytes, right: nat): Body
  {
    if x.Below? && x.node.body.Internal? then Internal(x.node.body.leftmost, InsortSlot(x.node.body.slots, InternalSlot(key, right)))
    else Internal(left, [InternalSlot(key, right)])
  }

  lemma HalvesFound(c: Config, v: Pages, w: Pages, b: Body, x: Ctx, cut: nat, m: nat, left: nat, right: nat, parentId: nat, parent: Body)
    requires Midpoint(b, m) && cut < Count(b) && Chosen(c, b, m, cut) && !b.Freelist?
    requires w == v[left := CutLBody(b, cut, right)][right := CutRBody(b, cut)][parentId := parent]
    requires parent == ParentOfHalves(x, left, CutKeyOf(b, cut), right)
    ensures HalvesStored(c, v, w, b, x, left, right, parentId, parent)
  {
    hide Midpoint, Chosen, CutLBody, CutRBody, ParentOfHalves;
    assert HalvesAt(c, v, w, b, x, left, cut, m, right, parentId, parent);
  }

  lemma AboutParentOfHalves(x: Ctx, left: nat, key: Bytes, right: nat)
    ensures x.Top? ==> ParentOfHalves(x, left, key, right) == Internal(left, [InternalSlot(key, right)])
    ensures x.Below? && x.node.body.Internal? ==>
      ParentOfHalves(x, left, key, right) == Internal(x.node.body.leftmost, InsortSlot(x.node.body.slots, InternalSlot(key, right)))
  {
  }

  lemma CutBodies(n: Node, b: nat, rid: nat)
    requires Proper(n) && b < Count(n.body)
    ensures CutL(n, b, rid).body == CutLBody(n.body, b, rid) && CutR(n, b, rid).body == CutRBody(n.body, b)
    ensures CutKey(n, b) == CutKeyOf(n.body, b)
    ensures CutL(n, b, rid).id == n.id && CutR(n, b, rid).id == rid
  {
  }

  lemma ThreeWritten(v: Pages, l: Node, r: Node, q: Node)
    requires l.id != r.id && l.id != q.id && r.id != q.id
    ensures Three(v, v[l.id := l.body][r.id := r.body][q.id := q.body], l, r, q)
    ensures Three(v, v[r.id := r.body][l.id := l.body][q.id := q.body], l, r, q)
  {
  }

  /** What a step needs to know about the focus and its parent. */
  lemma StepFacts(c: Config, v: Pages, live: set<nat>, rootId: nat, x: Ctx, n: Node, h: nat, contents: seq<LeafSlot>)
    requires Cascade(c, v, live, rootId, x, n, h, contents)
    ensures Formed(x) && Proper(n) && !n.body.Freelist? && (h == 0 <==> n.body.Leaf?) && SlotsFit(c, n.body) && Bounded(c, n.body)
    ensures n.id in live && n.id in v && v[n.id] == n.body && RootOf(x, n) == rootId
    ensures x.Below? ==>
      && x.node.id in live && x.node.id in v && v[x.node.id] == x.node.body && n.id != x.node.id
      && x.node.body.Internal? && |x.node.kids| == |x.node.body.slots| + 1 && x.i < |x.node.kids|
      && Fill(x, n) == x.node.(kids := x.node.kids[x.i := n])
  {
    hide *;
    Unfolded(c, v, live, rootId, x, n, h, contents);
    ShapeProper(c, n, h, Lo(x), Hi(x), Next(x));
    IdsParts(n);
    StoredParts(v, live, x, n);
    if x.Below? {
      FocusFacts(v, live, x, n);
      Twice(live, n.id, x.node.id, IdsAll(n.kids), CtxIds(x));
      ParentStored(v, live, x, n);
    } else {
      Twice(live, n.id, n.id, IdsAll(n.kids), CtxIds(x));
    }
  }

  lemma StoredParts(v: Pages, live: set<nat>, x: Ctx, n: Node)
    requires Stored(v, live, x, n)
    ensures n.id in v && v[n.id] == n.body && Formed(x) && Ids(n) + CtxIds(x) == multiset(live)
  {
  }

  lemma ParentStored(v: Pages, live: set<nat>, x: Ctx, n: Node)
    requires Stored(v, live, x, n) && x.Below?
    ensures x.node.id in v && v[x.node.id] == x.node.body
    ensures x.node.body.Internal? && |x.node.kids| == |x.node.body.slots| + 1 && x.i < |x.node.kids|
    ensures Fill(x, n) == x.node.(kids := x.node.kids[x.i := n])
  {
  }

  lemma Twice(live: set<nat>, n: nat, p: nat, kids: multiset<nat>, ctx: multiset<nat>)
    requires multiset{n} + kids + ctx == multiset(live)
    ensures n in live && (p in ctx ==> p in live && n != p)
  {
    var all := multiset{n} + kids + ctx;
    assert all[n] <= 1 && all[n] > 0;
    if p in ctx { assert all[p] > 0; }
  }

  lemma NonEmpty(c: Config, b: Body)
    requires c.pageSize >= 32 && !b.Freelist?
    ensures Count(b) == 0 ==> !Overfull(c, b)
  {
    assert LeafSum([]) == 0 && InternalSum([]) == 0;
  }

  /** The new separator is inserted where the split child is. */
  lemma SplitParent(c: Config, x: Ctx, n: Node, h: nat, l: Node, sep: Bytes, r: Node)
    requires x.Below? && Ordered(c, x, n, h) && Lo(x) < Rank(sep) < Hi(x)
    ensures PutPair(Fill(x, n), x.i, l, sep, r).body == Internal(x.node.body.leftmost, InsortSlot(x.node.body.slots, InternalSlot(sep, r.id)))
    ensures PutPair(Fill(x, n), x.i, l, sep, r).id == x.node.id
  {
    AboutParent(c, x, n, h);
    hide Shape, CtxOk, Rank, KidLo, KidHi, SortedSlots;
    InsortLands(x.node.body.slots, x.i, sep, Lo(x.up), Hi(x.up));
  }

  lemma NewRootBody(id: nat, l: Node, sep: Bytes, r: Node)
    ensures NewRoot(id, l, sep, r).body == Internal(l.id, [InternalSlot(sep, r.id)]) && NewRoot(id, l, sep, r).id == id
  {
  }

  lemma CumulativeCount(b: Body, cum: seq<nat>)
    requires Cumulative(b, cum)
    ensures |cum| == Count(b) && !b.Freelist?
  {
  }

  lemma DepthUp(x: Ctx)
    ensures Depth(x) == if x.Top? then 0 else Depth(x.up) + 1
  {
  }

  lemma FramesTop(x: Ctx, held: set<nat>)
    ensures x.Top? ==> Frames(x, held)
    ensures x.Below? && Frames(x, held) ==> x.node.id in held && Frames(x.up, held)
  {
  }

  /** The promoted key lies strictly between the bounds of the split page. */
  lemma CutKeyInside(c: Config, v: Pages, live: set<nat>, rootId: nat, x: Ctx, n: Node, h: nat, contents: seq<LeafSlot>, b: nat)
    requires Cascade(c, v, live, rootId, x, n, h, contents) && Proper(n) && b < Count(n.body) && b > 0
    ensures Formed(x) && Ordered(c, x, n, h) && Lo(x) < Rank(CutKey(n, b)) < Hi(x)
  {
    hide *;
    Unfolded(c, v, live, rootId, x, n, h, contents);
    CutOk(c, n, b, 0, h, Lo(x), Hi(x), Next(x));
  }

  // ---- a sibling under the same parent ----

  /** Position of the pair made by the focus and its left or right sibling. */
  ghost function PairAt(x: Ctx, siblingIsLeft: bool): int
    requires x.Below?
  {
    if siblingIsLeft then x.i - 1 else x.i
  }

  ghost function Sibling(x: Ctx, siblingIsLeft: bool): Node
    requires x.Below? && PairAt(x, siblingIsLeft) >= 0 && Pair(x, PairAt(x, siblingIsLeft))
  {
    x.node.kids[if siblingIsLeft then x.i - 1 else x.i + 1]
  }

  /** There is a sibling on that side, and these are its page and its id. */
  ghost predicate IsSibling(x: Ctx, siblingIsLeft: bool, id: nat, body: Body)
  {
    && x.Below? && PairAt(x, siblingIsLeft) >= 0 && Pair(x, PairAt(x, siblingIsLeft))
    && Sibling(x, siblingIsLeft).id == id && Sibling(x, siblingIsLeft).body == body
  }

  lemma SiblingFacts(c: Config, v: Pages, live: set<nat>, rootId: nat, x: Ctx, n: Node, h: nat, contents: seq<LeafSlot>, left: bool)
    requires Cascade(c, v, live, rootId, x, n, h, contents) && x.Below? && PairAt(x, left) >= 0 && Pair(x, PairAt(x, left))
    ensures var s, j := Sibling(x, left), PairAt(x, left);
      && s.id in v && v[s.id] == s.body && s.id in live
      && Healthy(c, s.body) && SlotsFit(c, s.body) && SlotsFit(c, n.body) && SameKind(s.body, n.body)
      && j < |x.node.body.slots| && x.node.body.Internal? && KeyFits(c, x.node.body.slots[j].key)
      && PairL(x, n, j) == (if left then s else n) && PairR(x, n, j) == (if left then n else s)
      && PairSep(x, j) == x.node.body.slots[j].key
      && x.node.body.slots[j].child == PairR(x, n, j).id
      && Proper(s) && Proper(n) && s.id != n.id && s.id != x.node.id && n.id != x.node.id
      && (n.body.Leaf? ==> RightLink(PairL(x, n, j).body) == PairR(x, n, j).id)
  {
    var j := PairAt(x, left);
    hide *;
    SiblingIs(x, n, left);
    Unfolded(c, v, live, rootId, x, n, h, contents);
    PairFacts(c, x, n, h, j);
    var rest := PairTotal(v, live, x, n, j);
    var l, r := PairL(x, n, j), PairR(x, n, j);
    PairDistinct(live, l.id, r.id, x.node.id, IdsAll(l.kids), IdsAll(r.kids), rest);
    ShapeProper(c, l, h, PairLo(x, j), Rank(PairSep(x, j)), FirstLeaf(r));
    ShapeProper(c, r, h, Rank(PairSep(x, j)), PairHi(x, j), PairNext(x, j));
    OwnPage(v, l);
    OwnPage(v, r);
    KindOf(l, r);
    LeafLink(c, l, h, PairLo(x, j), Rank(PairSep(x, j)), r);
  }

  lemma SiblingIs(x: Ctx, n: Node, left: bool)
    requires x.Below? && PairAt(x, left) >= 0 && Pair(x, PairAt(x, left))
    ensures var s, j := Sibling(x, left), PairAt(x, left);
      && PairL(x, n, j) == (if left then s else n) && PairR(x, n, j) == (if left then n else s)
      && x.i == (if left then j + 1 else j)
      && x.node.body.Internal? && j < |x.node.body.slots| && PairSep(x, j) == x.node.body.slots[j].key
  {
  }

  lemma OwnPage(v: Pages, n: Node)
    requires Holds(v, n)
    ensures n.id in v && v[n.id] == n.body
  {
  }

  lemma KindOf(l: Node, r: Node)
    requires Proper(l) && Proper(r) && l.body.Leaf? == r.body.Leaf?
    ensures SameKind(l.body, r.body) && SameKind(r.body, l.body)
  {
  }

  lemma LeafLink(c: Config, l: Node, h: nat, lo: real, hi: real, r: Node)
    requires Shape(c, l, h, lo, hi, FirstLeaf(r)) && Proper(l) && Proper(r) && l.body.Leaf? == r.body.Leaf? == (h == 0)
    ensures l.body.Leaf? ==> RightLink(l.body) == r.id
  {
  }

  /** The focus and that sibling fit on one page. */
  ghost predicate Mergeable(c: Config, x: Ctx, n: Node, left: bool)
  {
    && x.Below? && PairAt(x, left) >= 0 && Pair(x, PairAt(x, left))
    && (var j := PairAt(x, left);
        SameKind(PairL(x, n, j).body, PairR(x, n, j).body)
        && PageSize(JoinBody(PairL(x, n, j).body, PairSep(x, j), PairR(x, n, j).body)) <= c.pageSize)
  }

  /** Some transfer of slots from that sibling leaves both pages healthy. */
  ghost predicate Shareable(c: Config, x: Ctx, n: Node, left: bool)
  {
    && x.Below? && PairAt(x, left) >= 0 && Pair(x, PairAt(x, left))
    && (var j := PairAt(x, left); var l, r := PairL(x, n, j).body, PairR(x, n, j).body;
        SameKind(l, r) && CanRedistribute(c, JoinBody(l, PairSep(x, j), r), Count(l), RightLink(l), left))
  }

  lemma AboutShareable(c: Config, x: Ctx, n: Node, left: bool)
    requires x.Below? && PairAt(x, left) >= 0 && Pair(x, PairAt(x, left))
    requires var j := PairAt(x, left); SameKind(PairL(x, n, j).body, PairR(x, n, j).body)
    ensures var j := PairAt(x, left); var l, r := PairL(x, n, j).body, PairR(x, n, j).body;
      && !JoinBody(l, PairSep(x, j), r).Freelist?
      && (Shareable(c, x, n, left) <==> CanRedistribute(c, JoinBody(l, PairSep(x, j), r), Count(l), RightLink(l), left))
  {
  }

  /**
   * `w` is `v` after slots have moved across from that sibling: as few as leave both pages at least 40% full, and the
   * parent has their new separator.
   */
  ghost predicate SharedFrom(c: Config, v: Pages, w: Pages, x: Ctx, n: Node, left: bool)
  {
    exists b: nat :: SharedAt(c, v, w, x, n, left, b)
  }

  ghost predicate SharedAt(c: Config, v: Pages, w: Pages, x: Ctx, n: Node, left: bool, b: nat)
  {
    && x.Below? && x.node.body.Internal? && PairAt(x, left) >= 0 && Pair(x, PairAt(x, left))
    && (var j := PairAt(x, left); var l, r := PairL(x, n, j), PairR(x, n, j);
        && j < |x.node.body.slots| && SameKind(l.body, r.body)
        && (var m := JoinBody(l.body, PairSep(x, j), r.body);
            && b < Count(m) && (if left then b < Count(l.body) else b > Count(l.body)) && NoSlotTooMany(c, m, b, RightLink(l.body), left)
            && !Underfull(c, CutLBody(m, b, RightLink(l.body))) && !Underfull(c, CutRBody(m, b))
            && w == v[l.id := CutLBody(m, b, RightLink(l.body))][r.id := CutRBody(m, b)][x.node.id := WithSeparator(x.node.body, j, CutKeyOf(m, b))]))
  }

  ghost function WithSeparator(b: Body, j: nat, key: Bytes): Body
    requires b.Internal? && j < |b.slots|
  {
    b.(slots := b.slots[j := b.slots[j].(key := key)])
  }

  ghost function WithoutSeparator(b: Body, j: nat): Body
    requires b.Internal? && j < |b.slots|
  {
    b.(slots := b.slots[..j] + b.slots[j + 1..])
  }

  /**
   * `w` is `v` after the focus and that sibling have become one page, the left one, and their separator has left the
   * parent. The pages in `gone` are no longer part of the tree.
   */
  ghost predicate MergedWith(v: Pages, w: Pages, x: Ctx, n: Node, left: bool, gone: set<nat>)
  {
    && x.Below? && x.node.body.Internal? && PairAt(x, left) >= 0 && Pair(x, PairAt(x, left))
    && (var j := PairAt(x, left); var l, r := PairL(x, n, j), PairR(x, n, j);
        && j < |x.node.body.slots| && SameKind(l.body, r.body) && r.id in gone
        && SameBut(w, v[l.id := JoinBody(l.body, PairSep(x, j), r.body)][x.node.id := WithoutSeparator(x.node.body, j)], gone))
  }

  ghost predicate SameBut(v: Pages, w: Pages, ids: set<nat>)
  {
    forall id :: id !in ids ==> (id in v <==> id in w) && (id in v ==> v[id] == w[id])
  }

  /** The pages a merge with that sibling gives back: the right one, and a root that has lost its only separator. */
  ghost function GivenBack(x: Ctx, n: Node, left: bool): set<nat>
  {
    if x.Below? && PairAt(x, left) >= 0 && Pair(x, PairAt(x, left)) then
      {PairR(x, n, PairAt(x, left)).id} + if RootGoes(x) then {x.node.id} else {}
    else {}
  }

  ghost predicate RootGoes(x: Ctx)
  {
    x.Below? && x.up.Top? && x.node.body.Internal? && |x.node.body.slots| == 1
  }

  /** Neither sibling can give enough slots, and neither fits on one page with the focus. */
  ghost predicate Hopeless(c: Config, x: Ctx, n: Node)
  {
    !Shareable(c, x, n, true) && !Shareable(c, x, n, false) && !Mergeable(c, x, n, true) && !Mergeable(c, x, n, false)
  }

  // ---- the whole walk back up ----

  /** The tree pages as readers see them, the pages in use, and the root page. */
  datatype Stage = Stage(pages: Pages, live: set<nat>, root: nat)

  ghost predicate SplitTo(c: Config, s: Stage, u: Stage, x: Ctx, id: nat, body: Body, right: nat, parentId: nat, parent: Body)
  {
    && HalvesStored(c, s.pages, u.pages, body, x, id, right, parentId, parent)
    && right !in s.live && (if x.Top? then parentId !in s.live else parentId == x.node.id)
    && u.live == s.live + {right, parentId} && u.root == if x.Top? then parentId else s.root
  }

  ghost predicate SharedTo(c: Config, s: Stage, u: Stage, x: Ctx, n: Node)
  {
    && (Shareable(c, x, n, true) || Shareable(c, x, n, false))
    && SharedFrom(c, s.pages, u.pages, x, n, Shareable(c, x, n, true)) && u.live == s.live && u.root == s.root
  }

  ghost predicate MergedTo(c: Config, s: Stage, u: Stage, x: Ctx, n: Node)
  {
    && !Shareable(c, x, n, true) && !Shareable(c, x, n, false) && (Mergeable(c, x, n, true) || Mergeable(c, x, n, false))
    && x.Below? && x.node.body.Internal?
    && (var side := Mergeable(c, x, n, true);
        && MergedWith(s.pages, u.pages, x, n, side, GivenBack(x, n, side)) && u.live == s.live - GivenBack(x, n, side)
        && u.root == if RootGoes(x) then x.node.body.leftmost else s.root)
  }

  /**
   * What the walk from page `id` back up makes of `s`: an overfull page is split and its parent is next; an underfull
   * one takes slots from the left sibling, or else the right one, and its parent is next if the new separator over- or
   * underfills it; or else it is merged with the left sibling, or else the right one, and its parent is next unless that
   * was a root with nothing left to separate. A page that is neither ends the walk.
   */
  ghost predicate Rebalanced(c: Config, s: Stage, x: Ctx, id: nat, body: Body, t: Stage)
    decreases x
  {
    var n := Node(id, body, []);
    if Overfull(c, body) then
      exists u: Stage, right: nat, parentId: nat, parent: Body :: SplitTo(c, s, u, x, id, body, right, parentId, parent) &&
        if x.Top? then t == u else Rebalanced(c, u, x.up, parentId, parent, t)
    else if Underfull(c, body) && x.Below? then
      || (exists u: Stage :: SharedTo(c, s, u, x, n) && AfterSharing(c, u, x, t))
      || (exists u: Stage :: MergedTo(c, s, u, x, n) &&
            if RootGoes(x) then t == u else x.node.id in u.pages && Rebalanced(c, u, x.up, x.node.id, u.pages[x.node.id], t))
    else t == s
  }

  /** A parent whose new separator over- or underfills it is looked at next. */
  ghost predicate AfterSharing(c: Config, u: Stage, x: Ctx, t: Stage)
    requires x.Below?
    decreases x, 0
  {
    x.node.id in u.pages &&
    (var parent := u.pages[x.node.id];
     if Overfull(c, parent) || Underfull(c, parent) then Rebalanced(c, u, x.up, x.node.id, parent, t) else t == u)
  }

  /** Writing page `leaf` where the descent for `key` ends, and walking back up, makes `t` of `s`. */
  ghost predicate Rewritten(c: Config, s: Stage, root: Node, key: Bytes, x: Ctx, n: Node, leaf: Body, t: Stage)
  {
    && At(c, s.pages, s.live, s.root, root, x, n, 0) && Formed(x) && Lo(x) <= Rank(key) < Hi(x)
    && Rebalanced(c, s.(pages := s.pages[n.id := leaf]), x, n.id, leaf, t)
  }

  /** Exactly what a put leaves of the pages: the leaf of the key has the new entry, and the pages above are rebalanced. */
  ghost predicate AfterPut(c: Config, s: Stage, root: Node, key: Bytes, value: Bytes, t: Stage)
  {
    exists x, n: Node :: n.body.Leaf? && Rewritten(c, s, root, key, x, n, n.body.(entries := UpdatedEntries(n.body.entries, key, value)), t)
  }

  /** The same for a delete: the leaf of the key has lost its entry. */
  ghost predicate AfterDelete(c: Config, s: Stage, root: Node, key: Bytes, t: Stage)
  {
    exists x, n: Node, i: nat :: n.body.Leaf? && i < |n.body.entries| && n.body.entries[i].key == key &&
      Rewritten(c, s, root, key, x, n, n.body.(entries := RemovedEntries(n.body.entries, i)), t)
  }

  /** From `s` the walk goes on as from `u`. */
  ghost predicate Leads(c: Config, s: Stage, x: Ctx, id: nat, body: Body, u: Stage, y: Ctx, id': nat, body': Body)
  {
    forall t: Stage :: Rebalanced(c, u, y, id', body', t) ==> Rebalanced(c, s, x, id, body, t)
  }

  lemma LeadsOn(c: Config, s: Stage, x: Ctx, id: nat, body: Body, u: Stage, y: Ctx, id1: nat, body1: Body, w: Stage, z: Ctx, id2: nat, body2: Body)
    requires Leads(c, s, x, id, body, u, y, id1, body1) && Leads(c, u, y, id1, body1, w, z, id2, body2)
    ensures Leads(c, s, x, id, body, w, z, id2, body2)
  {
    hide Rebalanced;
  }

  lemma Arrives(c: Config, s: Stage, x: Ctx, id: nat, body: Body, u: Stage, y: Ctx, id': nat, body': Body, t: Stage)
    requires Leads(c, s, x, id, body, u, y, id', body') && Rebalanced(c, u, y, id', body', t)
    ensures Rebalanced(c, s, x, id, body, t)
  {
    hide Rebalanced;
  }

  lemma LeadsItself(c: Config, s: Stage, x: Ctx, id: nat, body: Body)
    ensures Leads(c, s, x, id, body, s, x, id, body)
  {
    hide Rebalanced;
  }

  lemma WalkEnds(c: Config, s: Stage, x: Ctx, id: nat, body: Body)
    requires !Overfull(c, body) && (Underfull(c, body) ==> x.Top?)
    ensures Rebalanced(c, s, x, id, body, s)
  {
  }

  lemma SplitLeads(c: Config, s: Stage, u: Stage, x: Ctx, id: nat, body: Body, right: nat, parentId: nat, parent: Body)
    requires Overfull(c, body) && SplitTo(c, s, u, x, id, body, right, parentId, parent) && (x.Top? ==> !Overfull(c, parent))
    ensures Leads(c, s, x, id, body, u, if x.Top? then Top else x.up, parentId, parent)
  {
    hide Overfull, Underfull, SplitTo;
  }

  lemma ShareLeads(c: Config, s: Stage, u: Stage, x: Ctx, n: Node)
    requires !Overfull(c, n.body) && Underfull(c, n.body) && x.Below? && SharedTo(c, s, u, x, Node(n.id, n.body, []))
    requires x.node.id in u.pages
    ensures var parent := u.pages[x.node.id];
      if Overfull(c, parent) || Underfull(c, parent) then Leads(c, s, x, n.id, n.body, u, x.up, x.node.id, parent)
      else Rebalanced(c, s, x, n.id, n.body, u)
  {
    hide Overfull, Underfull, SharedTo;
    var parent := u.pages[x.node.id];
    if Overfull(c, parent) || Underfull(c, parent) {
      forall t: Stage | Rebalanced(c, u, x.up, x.node.id, parent, t) ensures Rebalanced(c, s, x, n.id, n.body, t) {
        assert AfterSharing(c, u, x, t);
      }
    } else {
      assert AfterSharing(c, u, x, u);
    }
  }

  lemma MergeLeads(c: Config, s: Stage, u: Stage, x: Ctx, n: Node)
    requires !Overfull(c, n.body) && Underfull(c, n.body) && x.Below? && MergedTo(c, s, u, x, Node(n.id, n.body, []))
    ensures RootGoes(x) ==> Rebalanced(c, s, x, n.id, n.body, u)
    ensures !RootGoes(x) && x.node.id in u.pages ==> Leads(c, s, x, n.id, n.body, u, x.up, x.node.id, u.pages[x.node.id])
  {
    hide Overfull, Underfull, MergedTo, RootGoes, SharedTo, SplitTo, AfterSharing;
    if RootGoes(x) {
      assert Rebalanced(c, s, x, n.id, n.body, u) by {
        assert MergedTo(c, s, u, x, Node(n.id, n.body, []));
      }
    } else if x.node.id in u.pages {
      var parent := u.pages[x.node.id];
      forall t: Stage | Rebalanced(c, u, x.up, x.node.id, parent, t) ensures Rebalanced(c, s, x, n.id, n.body, t) {
        assert MergedTo(c, s, u, x, Node(n.id, n.body, [])) && u.pages[x.node.id] == parent;
      }
    }
  }

  /** Only the focus's page and its id matter to its siblings, not what hangs below it. */
  lemma OnlyItsPage(c: Config, v: Pages, w: Pages, x: Ctx, n: Node, m: Node, left: bool, gone: set<nat>)
    requires n.id == m.id && n.body == m.body
    ensures Shareable(c, x, n, left) == Shareable(c, x, m, left) && Mergeable(c, x, n, left) == Mergeable(c, x, m, left)
    ensures SharedFrom(c, v, w, x, n, left) == SharedFrom(c, v, w, x, m, left)
    ensures MergedWith(v, w, x, n, left, gone) == MergedWith(v, w, x, m, left, gone) && GivenBack(x, n, left) == GivenBack(x, m, left)
  {
    hide JoinBody, CanRedistribute, NoSlotTooMany, CutLBody, CutRBody, CutKeyOf, Underfull, PageSize, SameBut;
    if x.Below? && PairAt(x, left) >= 0 && Pair(x, PairAt(x, left)) {
      var j := PairAt(x, left);
      assert PairL(x, n, j).id == PairL(x, m, j).id && PairL(x, n, j).body == PairL(x, m, j).body;
      assert PairR(x, n, j).id == PairR(x, m, j).id && PairR(x, n, j).body == PairR(x, m, j).body;
      hide Pair, PairL, PairR;
      assert forall b :: SharedAt(c, v, w, x, n, left, b) <==> SharedAt(c, v, w, x, m, left, b);
    }
  }

  lemma IsAfterPut(c: Config, s: Stage, root: Node, key: Bytes, value: Bytes, x: Ctx, n: Node, u: Stage, t: Stage)
    requires At(c, s.pages, s.live, s.root, root, x, n, 0) && Formed(x) && Lo(x) <= Rank(key) < Hi(x) && n.body.Leaf?
    requires var leaf := n.body.(entries := UpdatedEntries(n.body.entries, key, value));
      u == s.(pages := s.pages[n.id := leaf]) && Rebalanced(c, u, x, n.id, leaf, t)
    ensures AfterPut(c, s, root, key, value, t)
  {
    hide At, Formed, Lo, Hi, Rank, UpdatedEntries, Rebalanced;
    assert Rewritten(c, s, root, key, x, n, n.body.(entries := UpdatedEntries(n.body.entries, key, value)), t);
  }

  lemma IsAfterDelete(c: Config, s: Stage, root: Node, key: Bytes, x: Ctx, n: Node, i: nat, u: Stage, t: Stage)
    requires At(c, s.pages, s.live, s.root, root, x, n, 0) && Formed(x) && Lo(x) <= Rank(key) < Hi(x) && n.body.Leaf?
    requires FoundAt(n.body.entries, i, key)
    requires var leaf := n.body.(entries := RemovedEntries(n.body.entries, i));
      u == s.(pages := s.pages[n.id := leaf]) && Rebalanced(c, u, x, n.id, leaf, t)
    ensures AfterDelete(c, s, root, key, t)
  {
    hide At, Formed, Lo, Hi, Rank, RemovedEntries, Rebalanced;
    assert Rewritten(c, s, root, key, x, n, n.body.(entries := RemovedEntries(n.body.entries, i)), t);
  }

  lemma IsSplitTo(c: Config, s: Stage, u: Stage, x: Ctx, id: nat, body: Body, right: nat, parentId: nat, parent: Body)
    requires HalvesStored(c, s.pages, u.pages, body, x, id, right, parentId, parent)
    requires right !in s.live && (if x.Top? then parentId !in s.live else parentId == x.node.id)
    requires u.live == s.live + {right, parentId} && u.root == if x.Top? then parentId else s.root
    ensures SplitTo(c, s, u, x, id, body, right, parentId, parent)
  {
    hide HalvesStored;
  }

  lemma IsSharedTo(c: Config, s: Stage, u: Stage, x: Ctx, n: Node)
    requires Shareable(c, x, n, true) || Shareable(c, x, n, false)
    requires SharedFrom(c, s.pages, u.pages, x, n, Shareable(c, x, n, true)) && u.live == s.live && u.root == s.root
    ensures SharedTo(c, s, u, x, Node(n.id, n.body, []))
  {
    hide *;
    ghost var m := Node(n.id, n.body, []);
    OnlyItsPage(c, s.pages, u.pages, x, n, m, true, {});
    OnlyItsPage(c, s.pages, u.pages, x, n, m, false, {});
    SharedToIs(c, s, u, x, m);
  }

  lemma SharedToIs(c: Config, s: Stage, u: Stage, x: Ctx, n: Node)
    requires Shareable(c, x, n, true) || Shareable(c, x, n, false)
    requires SharedFrom(c, s.pages, u.pages, x, n, Shareable(c, x, n, true)) && u.live == s.live && u.root == s.root
    ensures SharedTo(c, s, u, x, n)
  {
    hide Shareable, SharedFrom;
  }

  lemma IsMergedTo(c: Config, s: Stage, u: Stage, x: Ctx, n: Node)
    requires !Shareable(c, x, n, true) && !Shareable(c, x, n, false) && (Mergeable(c, x, n, true) || Mergeable(c, x, n, false))
    requires x.Below? && x.node.body.Internal?
    requires var side := Mergeable(c, x, n, true);
      && MergedWith(s.pages, u.pages, x, n, side, GivenBack(x, n, side)) && u.live == s.live - GivenBack(x, n, side)
      && u.root == if RootGoes(x) then x.node.body.leftmost else s.root
    ensures MergedTo(c, s, u, x, Node(n.id, n.body, []))
  {
    hide *;
    ghost var m := Node(n.id, n.body, []);
    ghost var side := Mergeable(c, x, n, true);
    OnlyItsPage(c, s.pages, u.pages, x, n, m, true, GivenBack(x, n, side));
    OnlyItsPage(c, s.pages, u.pages, x, n, m, false, GivenBack(x, n, side));
    MergedToIs(c, s, u, x, m);
  }

  lemma MergedToIs(c: Config, s: Stage, u: Stage, x: Ctx, n: Node)
    requires !Shareable(c, x, n, true) && !Shareable(c, x, n, false) && (Mergeable(c, x, n, true) || Mergeable(c, x, n, false))
    requires x.Below? && x.node.body.Internal?
    requires var side := Mergeable(c, x, n, true);
      && MergedWith(s.pages, u.pages, x, n, side, GivenBack(x, n, side)) && u.live == s.live - GivenBack(x, n, side)
      && u.root == if RootGoes(x) then x.node.body.leftmost else s.root
    ensures MergedTo(c, s, u, x, n)
  {
    hide Shareable, Mergeable, MergedWith, GivenBack, RootGoes;
  }

  lemma NoSibling(c: Config, x: Ctx, n: Node, left: bool)
    requires x.Below? && !(PairAt(x, left) >= 0 && Pair(x, PairAt(x, left)))
    ensures !Shareable(c, x, n, left) && !Mergeable(c, x, n, left)
  {
  }

  lemma AboutHopeless(c: Config, x: Ctx, n: Node)
    ensures Hopeless(c, x, n) <==>
      !Shareable(c, x, n, true) && !Shareable(c, x, n, false) && !Mergeable(c, x, n, true) && !Mergeable(c, x, n, false)
  {
  }

  lemma IsMergeable(c: Config, x: Ctx, n: Node, left: bool)
    requires x.Below? && PairAt(x, left) >= 0 && Pair(x, PairAt(x, left))
    requires var j := PairAt(x, left);
      SameKind(PairL(x, n, j).body, PairR(x, n, j).body)
      && PageSize(JoinBody(PairL(x, n, j).body, PairSep(x, j), PairR(x, n, j).body)) <= c.pageSize
    ensures Mergeable(c, x, n, left)
  {
  }

  lemma SiblingHere(x: Ctx, left: bool, id: nat, body: Body)
    requires IsSibling(x, left, id, body)
    ensures x.Below? && PairAt(x, left) >= 0 && Pair(x, PairAt(x, left))
    ensures Sibling(x, left).id == id && Sibling(x, left).body == body
    ensures PairAt(x, left) == if left then x.i - 1 else x.i
  {
  }

  lemma IsShared(c: Config, v: Pages, w: Pages, x: Ctx, n: Node, left: bool, b: nat, l': Body, sep: Bytes, r': Body)
    requires x.Below? && x.node.body.Internal? && PairAt(x, left) >= 0 && Pair(x, PairAt(x, left))
    requires var j := PairAt(x, left); var l, r := PairL(x, n, j), PairR(x, n, j);
      && j < |x.node.body.slots| && SameKind(l.body, r.body) && l.id != r.id && l.id != x.node.id && r.id != x.node.id
      && (var m := JoinBody(l.body, PairSep(x, j), r.body);
          && CutAt(m, b, RightLink(l.body), l', sep, r', true) && NoSlotTooMany(c, m, b, RightLink(l.body), left)
          && (if left then b < Count(l.body) else b > Count(l.body)) && !Underfull(c, l') && !Underfull(c, r')
          && w == v[l.id := l'][r.id := r'][x.node.id := WithSeparator(x.node.body, j, sep)])
    ensures SharedFrom(c, v, w, x, n, left)
  {
    hide Underfull, NoSlotTooMany, JoinBody, CutLBody, CutRBody, CutKeyOf, PairL, PairR, PairSep, Pair;
    assert SharedAt(c, v, w, x, n, left, b);
  }

  lemma IsMergedWith(v: Pages, w: Pages, x: Ctx, n: Node, left: bool)
    requires x.Below? && x.node.body.Internal? && PairAt(x, left) >= 0 && Pair(x, PairAt(x, left))
    requires var j := PairAt(x, left); var l, r := PairL(x, n, j), PairR(x, n, j);
      && j < |x.node.body.slots| && SameKind(l.body, r.body)
      && Same(w, v[l.id := JoinBody(l.body, PairSep(x, j), r.body)][x.node.id := WithoutSeparator(x.node.body, j)], r.id)
    ensures MergedWith(v, w, x, n, left, {PairR(x, n, PairAt(x, left)).id})
  {
    hide JoinBody, PairL, PairR, PairSep, Pair;
  }

  /** The root goes when the merge has taken its only separator, and nothing else changes then. */
  lemma MergedAndGone(v: Pages, u: Pages, w: Pages, x: Ctx, n: Node, left: bool, parent: Body, rootGone: bool)
    requires x.Below? && x.node.body.Internal? && 0 <= PairAt(x, left) < |x.node.body.slots| && Pair(x, PairAt(x, left))
    requires MergedWith(v, u, x, n, left, {PairR(x, n, PairAt(x, left)).id})
    requires parent == WithoutSeparator(x.node.body, PairAt(x, left))
    requires rootGone <==> x.up.Top? && parent.slots == []
    requires if rootGone then Same(w, u, x.node.id) else w == u
    ensures (rootGone <==> RootGoes(x)) && parent.Internal? && parent.leftmost == x.node.body.leftmost
    ensures GivenBack(x, n, left) == {PairR(x, n, PairAt(x, left)).id} + if rootGone then {x.node.id} else {}
    ensures MergedWith(v, w, x, n, left, GivenBack(x, n, left))
  {
    hide JoinBody, PairL, PairR, PairSep, Pair;
  }

  lemma AboutMergeable(c: Config, x: Ctx, n: Node, left: bool)
    requires x.Below? && PairAt(x, left) >= 0 && Pair(x, PairAt(x, left))
    requires var j := PairAt(x, left); SameKind(PairL(x, n, j).body, PairR(x, n, j).body)
    ensures Mergeable(c, x, n, left) <==> (var j := PairAt(x, left);
      PageSize(JoinBody(PairL(x, n, j).body, PairSep(x, j), PairR(x, n, j).body)) <= c.pageSize)
  {
  }

  /** The parent's page once the pair has become one page. */
  lemma MergedBody(x: Ctx, n: Node, j: nat, m: Node)
    requires Pair(x, j)
    ensures Merged(x, n, j, m).body == Internal(x.node.body.leftmost, x.node.body.slots[..j] + x.node.body.slots[j + 1..])
    ensures Merged(x, n, j, m).id == x.node.id
  {
  }

  /** A merged page that fits is healthy, because the sibling was. */
  lemma MergedHealthy(c: Config, l: Node, sep: Bytes, r: Node, n: Node, m: Node)
    requires Proper(l) && Proper(r) && SameKind(l.body, r.body) && m == JoinN(l, sep, r)
    requires (n == l && Healthy(c, r.body)) || (n == r && Healthy(c, l.body))
    requires PageSize(m.body) <= c.pageSize
    ensures Healthy(c, m.body)
  {
    if l.body.Leaf? {
      LeafSumConcat(l.body.entries, r.body.entries);
    } else {
      InternalSumConcat(l.body.slots, [InternalSlot(sep, r.body.leftmost)]);
      InternalSumConcat(l.body.slots + [InternalSlot(sep, r.body.leftmost)], r.body.slots);
    }
  }

  lemma OnlyMerged(v: Pages, w: Pages, m: Node, q: Node, rid: nat)
    requires m.id != rid && q.id != rid && m.id != q.id
    requires Same(w, v[m.id := m.body][q.id := q.body], rid)
    ensures Only(v, w, {m.id, rid, q.id})
    ensures m.id in w && w[m.id] == m.body && q.id in w && w[q.id] == q.body
  {
  }

  /** The ancestors are still held when a page that is no longer part of the tree is dropped. */
  lemma FramesWithout(c: Config, w: Pages, live: set<nat>, rootId: nat, x: Ctx, n: Node, h: nat, contents: seq<LeafSlot>,
                      held: set<nat>, held': set<nat>, gone: nat)
    requires Cascade(c, w, live, rootId, x, n, h, contents) && gone !in live && Frames(x, held) && held' == held - {gone}
    ensures Frames(x, held')
  {
    hide *;
    Unfolded(c, w, live, rootId, x, n, h, contents);
    StoredParts(w, live, x, n);
    forall id | id in CtxIds(x) && id in held ensures id in held' {
      assert (Ids(n) + CtxIds(x))[id] > 0;
    }
    FramesKept(x, held, held');
  }

  lemma HealthyRoot(c: Config, b: Body)
    requires Healthy(c, b)
    ensures RootHealthy(c, b)
  {
  }

  lemma SameOnly(v: Pages, w: Pages, id: nat)
    requires Same(w, v, id) || w == v
    ensures Only(v, w, {id})
  {
  }

  lemma PathTop(path: seq<PathItem>, x: Ctx)
    requires PathOk(path, x)
    ensures path == [] <==> x.Top?
    ensures x.Below? ==> path[|path| - 1] == PathItem(x.node.id, x.i - 1) && PathOk(path[..|path| - 1], x.up)
  {
  }

  lemma NotOverfull(c: Config, b: Body)
    requires RootHealthy(c, b) && b.Internal?
    ensures !Overfull(c, b) && b.slots != []
  {
  }

  lemma InsortGrows(s: seq<InternalSlot>, t: InternalSlot)
    ensures InsortSlot(s, t) != []
  {
    assert t in InsortSlot(s, t);
  }

  /** The record cap is exactly what an entry must respect. */
  lemma RecordCap(c: Config, key: Bytes, value: Bytes)
    requires c.pageSize >= 256 && (c.strict ==> ShortKey(key, c.pageSize))
    ensures LeafRecordSize(key, value) <= MaxLeafRecordSize(c.pageSize) <==> EntryFits(c, LeafSlot(key, value))
  {
  }

  lemma FoundWithin(s: seq<LeafSlot>, i: nat, key: Bytes)
    ensures FoundAt(s, i, key) ==> i < |s| && s[i].key == key
  {
  }

  lemma FormedAt(c: Config, v: Pages, live: set<nat>, rootId: nat, root: Node, x: Ctx, n: Node)
    requires At(c, v, live, rootId, root, x, n, 0)
    ensures Formed(x)
  {
  }

  lemma ChainParts(v: Pages, live: set<nat>, ls: seq<Node>, s: seq<LeafSlot>)
    requires Chain(v, live, ls, s)
    ensures EntriesOf(ls) == s && SortedEntries(s)
  {
  }

  lemma CursorParts(ls: seq<Node>, s: seq<LeafSlot>, k: nat, i: nat, pos: nat)
    requires Cursor(ls, s, k, i, pos)
    ensures k < |ls| && ls[k].body.Leaf? && i <= |ls[k].body.entries| && pos <= |s|
  {
  }

  lemma IsInRange(key: Bytes, start: Bytes, end: Option<Bytes>)
    requires !Less(key, start) && (end.Some? ==> Less(key, end.value))
    ensures InRange(key, start, end)
  {
  }

  lemma RestrictIs(m: map<Bytes, Bytes>, start: Bytes, end: Option<Bytes>)
    ensures Restrict(m, start, end) == map k | k in m && InRange(k, start, end) :: m[k]
  {
  }

  lemma DonorFacts(c: Config, b: Body)
    requires Healthy(c, b)
    ensures !Overfull(c, b) && (b.Leaf? ==> !Underfull(c, b)) && (b.Internal? ==> Count(b) >= 1)
  {
  }

  lemma NonEmptyLeaf(b: Body)
    ensures b.Leaf? && b.entries != [] ==> Count(b) >= 1
  {
  }

  /** The parent's page once the pair's boundary has moved. */
  lemma RedistributedBody(x: Ctx, n: Node, j: nat, l: Node, sep: Bytes, r: Node)
    requires Pair(x, j) && r.id == x.node.body.slots[j].child
    ensures Redistributed(x, n, j, l, sep, r).body ==
      Internal(x.node.body.leftmost, x.node.body.slots[j := x.node.body.slots[j].(key := sep)])
    ensures Redistributed(x, n, j, l, sep, r).id == x.node.id
  {
    var s := x.node.body.slots;
    var d := s[..j] + s[j + 1..];
    assert d[..j] + [InternalSlot(sep, r.id)] + d[j..] == s[j := s[j].(key := sep)];
  }

  lemma JoinBodies(l: Node, sep: Bytes, r: Node)
    requires Proper(l) && Proper(r) && SameKind(l.body, r.body)
    ensures l.body.Leaf? == r.body.Leaf? && JoinN(l, sep, r).body == JoinBody(l.body, sep, r.body)
    ensures Proper(JoinN(l, sep, r)) && JoinN(l, sep, r).id == l.id && JoinN(l, sep, r).body.Leaf? == l.body.Leaf?
  {
  }

  /** After a successful transfer both pages are healthy and the cut is a proper one. */
  lemma TransferHealthy(c: Config, m: Node, b: nat, link: nat, rid: nat, l: Body, sep: Bytes, r: Body)
    requires c.pageSize >= 256 && Proper(m) && CutAt(m.body, b, link, l, sep, r, true) && (m.body.Leaf? ==> link == rid)
    requires !Underfull(c, l) && !Underfull(c, r) && !Overfull(c, l) && !Overfull(c, r)
    ensures b < Count(m.body) && (m.body.Leaf? ==> b > 0)
    ensures Healthy(c, l) && Healthy(c, r)
    ensures CutL(m, b, rid).body == l && CutR(m, b, rid).body == r && CutKey(m, b) == sep
    ensures CutL(m, b, rid).id == m.id && CutR(m, b, rid).id == rid
  {
    CutBodies(m, b, rid);
    assert LeafSum([]) == 0 && InternalSum([]) == 0;
  }

  lemma AtLeaf(c: Config, v: Pages, live: set<nat>, rootId: nat, root: Node, x: Ctx, n: Node, h: nat)
    requires At(c, v, live, rootId, root, x, n, h) && !n.body.Internal?
    ensures h == 0
  {
    FocusStored(c, v, live, rootId, root, x, n, h);
  }

  /** How an update ends. `Stuck` is the source's AssertionError. */
  datatype Outcome = Done | NotFound | TooLarge | Stuck

  /** How rebalancing an underfull page ends: look at the parent next, done, or no way found. */
  datatype Rebalance = Revisit(id: nat, page: Body) | Settled | NoWay

  /** The siblings the parent's slots lead to are the neighbours in the tree. */
  lemma SiblingsFound(c: Config, v: Pages, live: set<nat>, rootId: nat, x: Ctx, n: Node, h: nat, contents: seq<LeafSlot>)
    requires Cascade(c, v, live, rootId, x, n, h, contents) && x.Below?
    ensures Formed(x) && x.node.body.Internal? && |x.node.kids| == |x.node.body.slots| + 1 && x.i < |x.node.kids| && x.node.body.slots != []
    ensures x.i > 0 <==> PairAt(x, true) >= 0 && Pair(x, PairAt(x, true))
    ensures x.i < |x.node.body.slots| <==> PairAt(x, false) >= 0 && Pair(x, PairAt(x, false))
    ensures x.i > 0 ==>
      && PairAt(x, true) >= 0 && Pair(x, PairAt(x, true))
      && Sibling(x, true).id == if x.i == 1 then x.node.body.leftmost else x.node.body.slots[x.i - 2].child
    ensures x.i < |x.node.body.slots| ==>
      && PairAt(x, false) >= 0 && Pair(x, PairAt(x, false))
      && Sibling(x, false).id == x.node.body.slots[x.i].child
  {
    Unfolded(c, v, live, rootId, x, n, h, contents);
    AboutParent(c, x, n, h);
    hide Ordered, Shape, CtxOk, ParentOk, SortedSlots, Rank, KeyFits, Stored, Contents, Before, After, KidLo, KidHi, Lo, Hi, Next;
    var p := Fill(x, n);
    assert x.i > 0 ==> p.kids[x.i - 1] == x.node.kids[x.i - 1];
    assert x.i > 1 ==> p.kids[x.i - 2 + 1].id == p.body.slots[x.i - 2].child;
    assert x.i < |p.body.slots| ==> p.kids[x.i + 1] == x.node.kids[x.i + 1];
  }

  /** The page in focus is the root exactly when nothing is above it. */
  lemma FocusIsRoot(c: Config, v: Pages, live: set<nat>, rootId: nat, x: Ctx, n: Node, h: nat, contents: seq<LeafSlot>)
    requires Cascade(c, v, live, rootId, x, n, h, contents)
    ensures x.Top? <==> n.id == rootId
  {
    hide *;
    Unfolded(c, v, live, rootId, x, n, h, contents);
    StoredParts(v, live, x, n);
    IdsParts(n);
    if x.Below? {
      RootInContext(x, n);
      Twice(live, n.id, rootId, IdsAll(n.kids), CtxIds(x));
    } else {
      TopIsRoot(n);
    }
  }

  lemma TopIsRoot(n: Node)
    ensures RootOf(Top, n) == n.id
  {
  }

  lemma {:induction false} RootInContext(x: Ctx, n: Node)
    requires Formed(x) && x.Below?
    ensures RootOf(x, n) in CtxIds(x)
    decreases x
  {
    if x.up.Below? { RootInContext(x.up, x.node); }
  }

  lemma FineIsHealthy(c: Config, b: Body)
    requires c.pageSize >= 256 && !b.Freelist? && !Overfull(c, b)
    ensures !Underfull(c, b) ==> Healthy(c, b)
    ensures b.Leaf? || b.slots != [] ==> RootHealthy(c, b)
  {
    assert InternalSum([]) == 0;
  }

  class BPlusTree {
    const pager: Pager
    const pool: BufferPool
    /** Keys are held to the bound under which internal pages always balance. */
    ghost const strict: bool
    /** The stored tree and its height. */
    ghost var root: Node
    ghost var height: nat

    constructor (pager: Pager, pool: BufferPool, ghost strict: bool)
      ensures this.pager == pager && this.pool == pool && this.strict == strict
    {
      this.pager, this.pool, this.strict := pager, pool, strict;
      root, height := Node(0, Leaf(0, []), []), 0;
    }

    function Cfg(): Config
      reads pager`pageSize
    {
      Config(pager.pageSize, strict, pager.tight)
    }

    /** Pager and pool are in order and cache only live pages. */
    ghost predicate Engine()
      reads pager, pool
    {
      pool.pager == pager && pager.Valid() && pool.Valid() && pool.cache.Keys <= pager.LiveIds()
    }

    ghost predicate InOrder()
      reads this, pager, pool
    {
      Engine() && Consistent(Cfg(), pool.View(), pager.LiveIds(), pager.meta.root, root, height)
    }

    ghost predicate Valid()
      reads this, pager, pool
    {
      InOrder() && !pool.pinning
    }

    /** What the running operation has made of the tree so far. */
    ghost function Now(): Stage
      reads pager, pool
      requires Engine()
    {
      Stage(pool.View(), pager.LiveIds(), pager.meta.root)
    }

    lemma SizeBound()
      requires Engine()
      ensures Cfg().pageSize >= 256
    {
    }

    lemma Touchable(id: nat)
      requires id in pool.Held() || !pool.evictionEnabled || pool.credits > 0
      ensures pool.MayTouch(id)
    {
    }

    /** A page for the tree; the pool does not notice. */
    method NewPage() returns (id: nat)
      requires Engine()
      modifies pager`file, pager`meta, pager`metaDirty, pager`freelistCache, pager`dirtyFreelist, pager`chain
      ensures Engine() && pool.View() == old(pool.View())
      ensures id !in old(pager.LiveIds()) && pager.LiveIds() == old(pager.LiveIds()) + {id}
      ensures pager.meta == old(pager.meta).(next := pager.meta.next, freelistHead := pager.meta.freelistHead)
      ensures id !in pool.cache
      ensures id == old(pager.Upcoming(0)) && pager.Upcoming(0) == old(pager.Upcoming(1))
    {
      hide OrderOk, LsnOk, Stamps, InSync, TouchedLast, Headroom, Overlay, DecodedPage, Live, Flatten, ChainOk, CacheOk, StackOk, HeldIds;
      BlankPage(pool.cache, pager.file, pool.stale, pager.pageSize);
      id := pager.AllocatePage();
    }

    /** Gives a page back, once the pool has dropped it. */
    method ReleasePage(id: nat)
      requires Engine() && id in pager.LiveIds() && id !in pool.cache
      modifies pager`file, pager`meta, pager`metaDirty, pager`freelistCache, pager`dirtyFreelist, pager`chain
      ensures Engine() && pool.View() == old(pool.View())
      ensures pager.LiveIds() == old(pager.LiveIds()) - {id}
      ensures pager.meta == old(pager.meta).(next := pager.meta.next, freelistHead := pager.meta.freelistHead)
    {
      hide OrderOk, LsnOk, Stamps, InSync, TouchedLast, Headroom, Overlay, DecodedPage, Live, Flatten, ChainOk, CacheOk, StackOk, HeldIds;
      BlankPage(pool.cache, pager.file, pool.stale, pager.pageSize);
      pager.FreePage(id);
    }

    /** `buffer_pool.get` of a page of the tree. */
    method Fetch(id: nat) returns (r: Option<Body>)
      requires Engine() && id in pool.View() && id in pager.LiveIds() && pool.MayTouch(id)
      modifies pool`order, pool`cache, pool`touched, pool`credits
      ensures Engine() && pool.View() == old(pool.View()) && pool.Dirty() == old(pool.Dirty())
      ensures pool.pinning || !pool.evictionEnabled || |pool.Dirty()| < pool.capacity ==> r.Some?
      ensures r.Some? ==> r.value == pool.View()[id]
      ensures pool.pinning ==> pool.Held() == old(pool.Held()) + {id}
      ensures pool.pinning ==> pool.credits >= if id in old(pool.Held()) then old(pool.credits) else old(pool.credits) - 1
    {
      hide OrderOk, LsnOk, Stamps, InSync, TouchedLast, Headroom, Overlay, DirtyIds, HeldIds, Live, PagerOk;
      r := pool.Get(id);
    }

    /** An in-place change of a page the running operation holds. */
    method Change(id: nat, body: Body)
      requires Engine() && pool.pinning && id in pool.Held()
      modifies pool`cache, pool`stale, pool`changed
      ensures Engine() && pool.stale == old(pool.stale) + {id} && pool.cache.Keys == old(pool.cache.Keys)
      ensures pool.View() == old(pool.View())[id := body] && pool.Held() == old(pool.Held())
    {
      hide OrderOk, LsnOk, Stamps, InSync, TouchedLast, Headroom, Overlay, DirtyIds, HeldIds, Live, PagerOk;
      pool.Mutate(id, body);
    }

    method Mark(id: nat, lsn: nat)
      requires lsn == pool.stamp < U64 && Engine() && pool.pinning && id in pool.Held()
      modifies pool`cache, pool`stale, pool`changed
      ensures Engine() && pool.stale == old(pool.stale) - {id} && pool.cache.Keys == old(pool.cache.Keys)
      ensures pool.View() == old(pool.View()) && pool.Held() == old(pool.Held())
    {
      HeldCached(pool.touched, pool.cache, id);
      hide OrderOk, LsnOk, Stamps, InSync, TouchedLast, Headroom, Overlay, DirtyIds, HeldIds, Live, PagerOk;
      pool.MarkDirty(id, lsn);
    }

    method AddPage(id: nat, body: Body, lsn: nat)
      requires lsn == pool.stamp < U64 && Engine() && pool.pinning && id in pager.LiveIds() && id !in pool.cache && pool.MayTouch(id)
      modifies pool`order, pool`cache, pool`touched, pool`credits, pool`stale, pool`changed
      ensures Engine() && pool.View() == old(pool.View())[id := body] && pool.stale == old(pool.stale)
      ensures pool.Held() == old(pool.Held()) + {id} && pool.credits >= old(pool.credits) - 1
    {
      hide OrderOk, LsnOk, Stamps, InSync, TouchedLast, Headroom, Overlay, DirtyIds, HeldIds, Live, PagerOk;
      var ok := pool.Insert(id, body, lsn);
    }

    method DropPage(id: nat)
      requires Engine() && pool.pinning
      modifies pool`order, pool`cache, pool`stale, pool`changed
      ensures Engine() && id !in pool.cache && pool.stale == old(pool.stale) - {id}
      ensures Same(pool.View(), old(pool.View()), id) && pool.Held() == old(pool.Held()) - {id}
    {
      hide OrderOk, LsnOk, Stamps, InSync, TouchedLast, Headroom, Overlay, DirtyIds, HeldIds, Live, PagerOk;
      pool.Delete(id);
    }

    method SetRoot(id: nat)
      requires Engine()
      modifies pager`meta, pager`metaDirty
      ensures Engine() && pager.meta == old(pager.meta).(root := id)
      ensures pool.View() == old(pool.View()) && pager.LiveIds() == old(pager.LiveIds())
    {
      hide OrderOk, LsnOk, Stamps, InSync, TouchedLast, Headroom, Overlay, DirtyIds, HeldIds, Live, ChainOk, CacheOk, StackOk;
      pager.UpdateMeta(pager.meta.(root := id));
    }

    /** Descends from the root to the leaf that may contain `key`; `ok` is false on a pool overflow. */
    method FindLeaf(key: Bytes) returns (ok: bool, leafId: nat, leaf: Body, path: seq<PathItem>, ghost x: Ctx, ghost n: Node)
      requires InOrder()
      requires pool.pinning && pool.evictionEnabled ==> pool.credits >= height + 1
      modifies pool`order, pool`cache, pool`touched, pool`credits
      ensures InOrder() && pool.View() == old(pool.View()) && pool.Dirty() == old(pool.Dirty())
      ensures |pool.Dirty()| < pool.capacity || pool.pinning || !pool.evictionEnabled ==> ok
      ensures ok ==>
        && At(Cfg(), pool.View(), pager.LiveIds(), pager.meta.root, root, x, n, 0)
        && Depth(x) == height && Lo(x) <= Rank(key) < Hi(x)
        && PathOk(path, x) && n.id == leafId && n.body == leaf
      ensures pool.pinning ==> Frames(x, pool.Held()) && n.id in pool.Held() && pool.credits + height + 1 >= old(pool.credits)
    {
      hide OrderOk, LsnOk, Stamps, InSync, TouchedLast, Headroom, Overlay, DirtyIds, HeldIds, Live, PagerOk,
        Shape, Holds, Ids, Ordered, Stored, Healthy, RootHealthy, Plug, RootOf, Lo, Hi, Rank, Less, BisectRightSlots, At, Consistent, Frames, PathOk, Formed,
        Pager.Valid, Pager.LiveIds, BufferPool.Valid, BufferPool.View, BufferPool.Dirty, BufferPool.Held, Engine;
      ghost var c, v, live, rootId := Cfg(), pool.View(), pager.LiveIds(), pager.meta.root;
      path, x, n := [], Top, root;
      ghost var h := height;
      AtRoot(c, v, live, rootId, root, h);
      AtTop(key);
      leafId := pager.meta.root;
      RootId(c, v, live, rootId, root, h);
      FocusStored(c, v, live, rootId, root, x, n, h);
      var page := Fetch(leafId);
      if page.None? { ok := false; leaf := Leaf(0, []); return; }
      leaf := page.value;
      while leaf.Internal?
        invariant Engine() && pool.View() == v && pool.Dirty() == old(pool.Dirty())
        invariant At(c, v, live, rootId, root, x, n, h) && n.id == leafId && n.body == leaf
        invariant Formed(x) && Depth(x) + h == height && Lo(x) <= Rank(key) < Hi(x) && PathOk(path, x)
        invariant pool.pinning ==> Frames(x, pool.Held()) && n.id in pool.Held()
        invariant pool.pinning ==> pool.credits + Depth(x) + 1 >= old(pool.credits)
        decreases h
      {
        // Find out which child link to follow.
        var slotIdx := BisectRightSlots(leaf.slots, key) as int - 1;
        var childId := if slotIdx == -1 then leaf.leftmost else leaf.slots[slotIdx].child;

        // Remember the path segment and descend.
        path := path + [PathItem(leafId, slotIdx)];
        Descend(c, v, live, rootId, root, x, n, h, key);
        Pushed(path, x, n, slotIdx + 1, pool.Held());
        x, n, h := Below(x, n, slotIdx + 1), n.kids[slotIdx + 1], h - 1;
        leafId := childId;
        FocusStored(c, v, live, rootId, root, x, n, h);
        ghost var held := pool.Held();
        page := Fetch(childId);
        if page.None? { ok := false; return; }
        if pool.pinning { FramesGrow(x, held, pool.Held()); }
        leaf := page.value;
      }
      AtLeaf(c, v, live, rootId, root, x, n, h);
      ok := true;
    }

    /** Running sums of the slot sizes. */
    method CumulativeSizes(page: Body) returns (cum: seq<nat>)
      requires !page.Freelist?
      ensures Cumulative(page, cum)
    {
      hide LeafSlotSize, InternalSlotSize;
      cum := [];
      var sum := 0;
      EmptyPrefix(page);
      for i := 0 to Count(page)
        invariant |cum| == i && sum == Prefix(page, i)
        invariant forall k :: 0 <= k < i ==> cum[k] == Prefix(page, k + 1)
      {
        PrefixStep(page, i);
        sum := sum + SlotSize(page, i);
        cum := cum + [sum];
      }
    }

    /** Where to cut an overfull page so that both parts are healthy. */
    method ChooseCut(page: Body) returns (b: nat, ghost m: nat)
      requires Cfg().pageSize >= 256 && !page.Freelist? && SlotsFit(Cfg(), page) && Overfull(Cfg(), page) && Bounded(Cfg(), page)
      ensures Midpoint(page, m) && Chosen(Cfg(), page, m, b)
      ensures 0 < b < Count(page) && (forall rid :: Healthy(Cfg(), CutLBody(page, b, rid))) && Healthy(Cfg(), CutRBody(page, b))
    {
      hide *;
      NonEmpty(Cfg(), page);
      var cum := CumulativeSizes(page);
      CumulativeCount(page, cum);
      b := ChooseSplitPoint(Cfg(), page, cum);
      ghost var k: nat :| Midpoint(page, k) && Chosen(Cfg(), page, k, b);
      m := k;
      ChosenIsHealthy(Cfg(), page, m, b, 0);
      forall rid ensures Healthy(Cfg(), CutLBody(page, b, rid)) {
        ChosenIsHealthy(Cfg(), page, m, b, rid);
      }
    }

    /** Allocates a sibling and moves the slots from the cut on there. */
    method MoveUpperPart(pageId: nat, page: Body, b: nat, lsn: nat) returns (siblingId: nat)
      requires lsn == pool.stamp < U64 && Engine() && pool.pinning && pageId in pool.Held() && pageId in pager.LiveIds()
      requires !page.Freelist? && b < Count(page) && (pool.evictionEnabled ==> pool.credits > 0)
      modifies pool`order, pool`cache, pool`touched, pool`credits, pool`stale, pool`changed,
        pager`file, pager`meta, pager`metaDirty, pager`freelistCache, pager`dirtyFreelist, pager`chain
      ensures Engine() && siblingId == old(pager.Upcoming(0)) && pager.Upcoming(0) == old(pager.Upcoming(1))
      ensures siblingId !in old(pager.LiveIds()) && pager.LiveIds() == old(pager.LiveIds()) + {siblingId}
      ensures pager.meta == old(pager.meta).(next := pager.meta.next, freelistHead := pager.meta.freelistHead)
      ensures pool.View() == old(pool.View())[pageId := CutLBody(page, b, siblingId)][siblingId := CutRBody(page, b)]
      ensures pool.Held() == old(pool.Held()) + {siblingId} && pool.credits >= old(pool.credits) - 1 && pool.stale == old(pool.stale) - {pageId}
    {
      hide *;
      siblingId := NewPage();
      Change(pageId, CutLBody(page, b, siblingId));
      Mark(pageId, lsn);
      Touchable(siblingId);
      AddPage(siblingId, CutRBody(page, b), lsn);
    }

    /** Splits an overfull page; the parent, or the new root, becomes the page in focus. */
    method SplitPage(pageId: nat, parentPageId: Option<nat>, page: Body, lsn: nat,
                     ghost x: Ctx, ghost n: Node, ghost h: nat, ghost contents: seq<LeafSlot>)
      returns (parentId: nat, parent: Body, ghost x': Ctx, ghost n': Node)
      requires lsn == pool.stamp < U64 && Engine() && pool.pinning
      requires Cascade(Cfg(), pool.View(), pager.LiveIds(), pager.meta.root, x, n, h, contents) && Overfull(Cfg(), n.body)
      requires n.id == pageId && n.body == page && pageId in pool.Held() && pool.stale <= {pageId}
      requires parentPageId == (if x.Top? then None else Some(x.node.id)) && Frames(x, pool.Held())
      requires pool.evictionEnabled ==> pool.credits >= 2
      modifies pool`order, pool`cache, pool`touched, pool`credits, pool`stale, pool`changed,
        pager`file, pager`meta, pager`metaDirty, pager`freelistCache, pager`dirtyFreelist, pager`chain
      ensures Engine()
      ensures Cascade(Cfg(), pool.View(), pager.LiveIds(), pager.meta.root, x', n', h + 1, contents)
      ensures x' == (if x.Top? then Top else x.up) && n'.id == parentId && n'.body == parent
      ensures HalvesStored(Cfg(), old(pool.View()), pool.View(), page, x, pageId, old(pager.Upcoming(0)), parentId, parent)
      ensures parentId == if x.Top? then old(pager.Upcoming(1)) else x.node.id
      ensures old(pager.Upcoming(0)) !in old(pager.LiveIds()) && (x.Top? ==> parentId !in old(pager.LiveIds()))
      ensures pager.LiveIds() == old(pager.LiveIds()) + {old(pager.Upcoming(0)), parentId}
      ensures pager.meta.root == if x.Top? then parentId else old(pager.meta.root)
      ensures parent.Internal? && parent.slots != []
      ensures parentId in pool.Held() && pool.stale <= {parentId} && Frames(x', pool.Held())
      ensures pool.credits + (if x.Top? then 2 else 1) >= old(pool.credits)
      ensures x.Top? ==> RootHealthy(Cfg(), n'.body)
      ensures pager.meta == old(pager.meta).(next := pager.meta.next, freelistHead := pager.meta.freelistHead, root := pager.meta.root)
    {
      hide *;
      ghost var c, v, live, rootId := Cfg(), pool.View(), pager.LiveIds(), pager.meta.root;
      SizeBound();
      StepFacts(c, v, live, rootId, x, n, h, contents);
      ghost var held := pool.Held();
      FramesTop(x, held);
      ghost var m;
      var b;
      b, m := ChooseCut(page);

      var siblingId := MoveUpperPart(pageId, page, b, lsn);
      var key := CutKeyOf(page, b);
      CutBodies(n, b, siblingId);
      ghost var l, r := CutL(n, b, siblingId), CutR(n, b, siblingId);

      if parentPageId.None? {
        // The root was split: a new root points at the two halves.
        parentId := NewPage();
        parent := Internal(pageId, [InternalSlot(key, siblingId)]);
        Touchable(parentId);
        AddPage(parentId, parent, lsn);
        SetRoot(parentId);
        x', n' := Top, NewRoot(parentId, l, key, r);
        NewRootBody(parentId, l, key, r);
        ThreeWritten(v, l, r, n');
        SplitRootStep(c, v, pool.View(), live, rootId, n, h, contents, b, siblingId, parentId, l, r, n');
        AboutParentOfHalves(x, pageId, key, siblingId);
        HalvesFound(c, v, pool.View(), page, x, b, m, pageId, siblingId, parentId, parent);
        FramesTop(Top, pool.Held());
      } else {
        parentId := parentPageId.value;
        Touchable(parentId);
        var fetched := Fetch(parentId);
        parent := Internal(fetched.value.leftmost, InsortSlot(fetched.value.slots, InternalSlot(key, siblingId)));
        InsortGrows(fetched.value.slots, InternalSlot(key, siblingId));
        Change(parentId, parent);
        x', n' := x.up, PutPair(Fill(x, n), x.i, l, key, r);
        CutKeyInside(c, v, live, rootId, x, n, h, contents, b);
        SplitParent(c, x, n, h, l, key, r);
        ThreeWritten(v, l, r, n');
        SplitStep(c, v, pool.View(), live, rootId, x, n, h, contents, b, siblingId, l, r, n');
        AboutParentOfHalves(x, pageId, key, siblingId);
        HalvesFound(c, v, pool.View(), page, x, b, m, pageId, siblingId, parentId, parent);
        FramesGrow(x.up, held, pool.Held());
      }
    }

    /** Both pages of a pair, marked, and their parent, not marked yet. */
    method ChangePair(pageId: nat, page: Body, siblingId: nat, sibling: Body, parentId: nat, parent: Body, lsn: nat)
      requires lsn == pool.stamp < U64 && Engine() && pool.pinning && {pageId, siblingId, parentId} <= pool.Held()
      requires parentId !in {pageId, siblingId}
      modifies pool`cache, pool`stale, pool`changed
      ensures Engine() && pool.View() == old(pool.View())[pageId := page][siblingId := sibling][parentId := parent]
      ensures pool.Held() == old(pool.Held()) && pool.stale == old(pool.stale) - {pageId, siblingId} + {parentId}
    {
      hide *;
      Change(pageId, page);
      Change(siblingId, sibling);
      Change(parentId, parent);
      Mark(pageId, lsn);
      Mark(siblingId, lsn);
    }

    /** Tries to fill an underfull page from one sibling; on failure nothing has changed. */
    method ShareWith(siblingId: nat, sibling: Body, siblingIsLeft: bool, pageId: nat, page: Body,
                     parentId: nat, parent: Body, parentSlotIdx: int, lsn: nat,
                     ghost x: Ctx, ghost n: Node, ghost h: nat, ghost contents: seq<LeafSlot>)
      returns (ok: bool, newParent: Body, ghost n': Node)
      requires lsn == pool.stamp < U64 && Engine() && pool.pinning
      requires Cascade(Cfg(), pool.View(), pager.LiveIds(), pager.meta.root, x, n, h, contents) && Underfull(Cfg(), n.body)
      requires n.id == pageId && n.body == page && x.Below? && parentId == x.node.id && parent == x.node.body && parentSlotIdx == x.i - 1
      requires IsSibling(x, siblingIsLeft, siblingId, sibling)
      requires {pageId, siblingId, parentId} <= pool.Held() && pool.stale <= {pageId}
      requires page.Leaf? ==> page.entries != []
      modifies pool`cache, pool`stale, pool`changed
      ensures Engine() && pool.Held() == old(pool.Held()) && (ok <==> Shareable(Cfg(), x, n, siblingIsLeft))
      ensures !ok ==> pool.View() == old(pool.View()) && pool.stale == old(pool.stale)
      ensures !ok && (page.Leaf? || strict) ==> Mergeable(Cfg(), x, n, siblingIsLeft)
      ensures ok ==> Cascade(Cfg(), pool.View(), pager.LiveIds(), pager.meta.root, x.up, n', h + 1, contents)
      ensures ok ==> n'.id == parentId && n'.body == newParent && n'.body.Internal? && pool.stale <= {parentId}
      ensures ok ==> newParent.slots != []
      ensures ok ==> SharedFrom(Cfg(), old(pool.View()), pool.View(), x, n, siblingIsLeft)
    {
      hide Pager.Valid, Pager.LiveIds, BufferPool.Valid, BufferPool.View, BufferPool.Dirty, BufferPool.Held, Engine,
        Cascade, Formed, Proper, SlotsFit, Overfull, Underfull, Healthy, RootHealthy, Count, Pair, PairL, PairR, PairSep, Sibling, PairAt,
        Three, CutL, CutR, CutKey, CutAt, JoinBody, JoinN, Redistributed, KeyFits, RightLink, CanRedistribute, IsSibling, Mergeable, Shareable, SharedFrom,
        NoSlotTooMany, CutLBody, CutRBody, CutKeyOf;
      ghost var c, v, live, rootId := Cfg(), pool.View(), pager.LiveIds(), pager.meta.root;
      newParent, n' := parent, n;
      SizeBound();
      SiblingHere(x, siblingIsLeft, siblingId, sibling);
      SiblingFacts(c, v, live, rootId, x, n, h, contents, siblingIsLeft);
      DonorFacts(c, sibling);
      NonEmptyLeaf(page);
      ghost var j := PairAt(x, siblingIsLeft);
      ghost var l, r := PairL(x, n, j), PairR(x, n, j);
      var separatorIdx := if siblingIsLeft then parentSlotIdx else parentSlotIdx + 1;
      var parentKey := parent.slots[separatorIdx].key;
      JoinBodies(l, parentKey, r);
      AboutShareable(c, x, n, siblingIsLeft);
      var donor, recipient, sep;
      ghost var b;
      ok, donor, recipient, sep, b := TryRedistributeSlots(Cfg(), sibling, page, parentKey, siblingIsLeft);
      if !ok {
        if page.Leaf? || strict { IsMergeable(c, x, n, siblingIsLeft); }
        return;
      }
      newParent := parent.(slots := parent.slots[separatorIdx := parent.slots[separatorIdx].(key := sep)]);
      ChangePair(pageId, recipient, siblingId, donor, parentId, newParent, lsn);
      ghost var m := JoinN(l, parentKey, r);
      TransferHealthy(c, m, b, RightLink(l.body), r.id, if siblingIsLeft then donor else recipient, sep,
                      if siblingIsLeft then recipient else donor);
      ghost var l', r' := CutL(m, b, r.id), CutR(m, b, r.id);
      n' := Redistributed(x, n, j, l', CutKey(m, b), r');
      RedistributedBody(x, n, j, l', sep, r');
      ThreeWritten(v, l', r', n');
      RedistributeStep(c, v, pool.View(), live, rootId, x, n, h, contents, j, m, b, l', r', n');
      IsShared(c, v, pool.View(), x, n, siblingIsLeft, b, if siblingIsLeft then donor else recipient, sep, if siblingIsLeft then recipient else donor);
    }

    /** Merges the focus with one sibling, always into the left page, if the result fits. */
    method MergeWith(siblingId: nat, sibling: Body, siblingIsLeft: bool, pageId: nat, page: Body,
                     parentId: nat, parent: Body, parentSlotIdx: int, lsn: nat,
                     ghost x: Ctx, ghost n: Node, ghost h: nat, ghost contents: seq<LeafSlot>)
      returns (ok: bool, newParent: Body, ghost n': Node)
      requires lsn == pool.stamp < U64 && Engine() && pool.pinning
      requires Cascade(Cfg(), pool.View(), pager.LiveIds(), pager.meta.root, x, n, h, contents) && Underfull(Cfg(), n.body)
      requires n.id == pageId && n.body == page && x.Below? && parentId == x.node.id && parent == x.node.body && parentSlotIdx == x.i - 1
      requires IsSibling(x, siblingIsLeft, siblingId, sibling)
      requires {pageId, siblingId, parentId} <= pool.Held() && pool.stale <= {pageId} && Frames(x, pool.Held())
      modifies pool`order, pool`cache, pool`stale, pool`changed,
        pager`file, pager`meta, pager`metaDirty, pager`freelistCache, pager`dirtyFreelist, pager`chain
      ensures Engine() && (ok <==> Mergeable(Cfg(), x, n, siblingIsLeft))
      ensures !ok ==> pool.View() == old(pool.View()) && pool.stale == old(pool.stale) && pool.Held() == old(pool.Held())
      ensures !ok ==> pager.LiveIds() == old(pager.LiveIds())
      ensures ok ==> Cascade(Cfg(), pool.View(), pager.LiveIds(), pager.meta.root, x.up, n', h + 1, contents)
      ensures ok ==> n'.id == parentId && n'.body == newParent && n'.body.Internal? && pool.stale == {}
      ensures ok ==> PageSize(newParent) <= pager.pageSize && parentId in pool.Held() && Frames(x.up, pool.Held())
      ensures pager.meta == old(pager.meta).(next := pager.meta.next, freelistHead := pager.meta.freelistHead)
      ensures !ok ==> pager.meta == old(pager.meta)
      ensures ok ==>
        && x.node.body.Internal? && 0 <= PairAt(x, siblingIsLeft) < |x.node.body.slots| && Pair(x, PairAt(x, siblingIsLeft))
        && newParent == WithoutSeparator(x.node.body, PairAt(x, siblingIsLeft))
      ensures ok ==>
        && MergedWith(old(pool.View()), pool.View(), x, n, siblingIsLeft, {PairR(x, n, PairAt(x, siblingIsLeft)).id})
        && pager.LiveIds() == old(pager.LiveIds()) - {PairR(x, n, PairAt(x, siblingIsLeft)).id}
    {
      hide Pager.Valid, Pager.LiveIds, BufferPool.Valid, BufferPool.View, BufferPool.Dirty, BufferPool.Held, Engine,
        Cascade, Formed, Proper, SlotsFit, Overfull, Underfull, Healthy, RootHealthy, Count, Pair, PairL, PairR, PairSep, Sibling, PairAt,
        JoinBody, JoinN, Merged, KeyFits, RightLink, IsSibling, Mergeable, Only, Frames, Same, LeafSum, InternalSum, MergedWith;
      ghost var c, v, live, rootId := Cfg(), pool.View(), pager.LiveIds(), pager.meta.root;
      newParent, n' := parent, n;
      SizeBound();
      StepFacts(c, v, live, rootId, x, n, h, contents);
      SiblingHere(x, siblingIsLeft, siblingId, sibling);
      SiblingFacts(c, v, live, rootId, x, n, h, contents, siblingIsLeft);
      ghost var j := PairAt(x, siblingIsLeft);
      ghost var l, r := PairL(x, n, j), PairR(x, n, j);
      var separatorIdx := if siblingIsLeft then parentSlotIdx else parentSlotIdx + 1;
      var parentKey := parent.slots[separatorIdx].key;
      JoinBodies(l, parentKey, r);
      AboutMergeable(c, x, n, siblingIsLeft);

      ghost var held := pool.Held();

      // Probe first, so that nothing is touched when the merged page would overflow.
      var intoId, fromId := if siblingIsLeft then siblingId else pageId, if siblingIsLeft then pageId else siblingId;
      var probe := JoinBody(if siblingIsLeft then sibling else page, parentKey, if siblingIsLeft then page else sibling);
      if PageSize(probe) > pager.pageSize {
        ok := false;
        return;
      }
      ok := true;
      newParent := parent.(slots := parent.slots[..separatorIdx] + parent.slots[separatorIdx + 1..]);
      Change(intoId, probe);
      Change(parentId, newParent);
      Mark(intoId, lsn);
      Mark(parentId, lsn);
      DropPage(fromId);
      ReleasePage(fromId);
      ghost var m := JoinN(l, parentKey, r);
      n' := Merged(x, n, j, m);
      MergedBody(x, n, j, m);
      MergedHealthy(c, l, parentKey, r, n, m);
      OnlyMerged(v, pool.View(), m, n', r.id);
      MergeStep(c, v, pool.View(), live, rootId, x, n, h, contents, j, m, n');
      FramesTop(x, held);
      FramesWithout(c, pool.View(), pager.LiveIds(), rootId, x.up, n', h + 1, contents, held, pool.Held(), fromId);
      IsMergedWith(v, pool.View(), x, n, siblingIsLeft);
    }

    /** Left and right siblings of child `parentSlotIdx` (-1 for the leftmost) under the same parent. */
    method DetermineSameParentSiblings(parent: Body, parentSlotIdx: int, ghost x: Ctx, ghost n: Node, ghost h: nat, ghost contents: seq<LeafSlot>)
      returns (leftId: int, left: Option<Body>, rightId: int, right: Option<Body>)
      requires Engine() && pool.pinning && x.Below? && parent == x.node.body && parentSlotIdx == x.i - 1
      requires Cascade(Cfg(), pool.View(), pager.LiveIds(), pager.meta.root, x, n, h, contents)
      requires pool.evictionEnabled ==> pool.credits >= 2
      modifies pool`order, pool`cache, pool`touched, pool`credits
      ensures Engine() && pool.View() == old(pool.View()) && old(pool.Held()) <= pool.Held() && pool.credits + 2 >= old(pool.credits)
      ensures left.Some? ==> leftId >= 0 && IsSibling(x, true, leftId, left.value) && leftId in pool.Held()
      ensures right.Some? ==> rightId >= 0 && IsSibling(x, false, rightId, right.value) && rightId in pool.Held()
      ensures left.Some? || right.Some?
      ensures left.Some? <==> PairAt(x, true) >= 0 && Pair(x, PairAt(x, true))
      ensures right.Some? <==> PairAt(x, false) >= 0 && Pair(x, PairAt(x, false))
    {
      hide Pager.Valid, Pager.LiveIds, BufferPool.Valid, BufferPool.View, BufferPool.Dirty, BufferPool.Held, Engine,
        Cascade, Formed, Proper, SlotsFit, Healthy, Pair, PairL, PairR, PairSep, RightLink, KeyFits, SameKind;
      ghost var c, v, live, rootId := Cfg(), pool.View(), pager.LiveIds(), pager.meta.root;
      SiblingsFound(c, v, live, rootId, x, n, h, contents);
      leftId, rightId, left, right := -1, -1, None, None;
      if parentSlotIdx == 0 {
        leftId := parent.leftmost;
      } else if 0 < parentSlotIdx < |parent.slots| {
        leftId := parent.slots[parentSlotIdx - 1].child;
      }
      if parentSlotIdx == -1 && |parent.slots| >= 1 {
        rightId := parent.slots[0].child;
      } else if 0 <= parentSlotIdx < |parent.slots| - 1 {
        rightId := parent.slots[parentSlotIdx + 1].child;
      }
      if leftId >= 0 {
        SiblingFacts(c, v, live, rootId, x, n, h, contents, true);
        left := Fetch(leftId);
      }
      if rightId >= 0 {
        SiblingFacts(c, v, live, rootId, x, n, h, contents, false);
        right := Fetch(rightId);
      }
    }

    /** After slots have moved: the parent is revisited when its new separator over- or underfills it. */
    method AfterShare(parentId: nat, parent: Body, lsn: nat, ghost x: Ctx, ghost n: Node, ghost h: nat, ghost contents: seq<LeafSlot>)
      returns (outcome: Rebalance)
      requires lsn == pool.stamp < U64 && Engine() && pool.pinning && parentId in pool.Held() && pool.stale <= {parentId}
      requires Cascade(Cfg(), pool.View(), pager.LiveIds(), pager.meta.root, x, n, h, contents)
      requires n.id == parentId && n.body == parent && parent.Internal?
      modifies pool`cache, pool`stale, pool`changed, this`root, this`height
      ensures Engine() && pool.View() == old(pool.View()) && pool.Held() == old(pool.Held())
      ensures outcome == Revisit(parentId, parent) || outcome == Settled
      ensures outcome == Settled ==>
        && pool.stale == {} && Contents(root) == contents
        && Consistent(Cfg(), pool.View(), pager.LiveIds(), pager.meta.root, root, height)
      ensures outcome != Settled ==> pool.stale == old(pool.stale)
      ensures outcome == Settled <==> !Overfull(Cfg(), parent) && !Underfull(Cfg(), parent)
    {
      hide Pager.Valid, Pager.LiveIds, BufferPool.Valid, BufferPool.View, BufferPool.Dirty, BufferPool.Held, Engine,
        Cascade, Formed, Healthy, RootHealthy, Overfull, Underfull, Consistent, Plug;
      if Overfull(Cfg(), parent) || Underfull(Cfg(), parent) {
        return Revisit(parentId, parent);
      }
      SizeBound();
      StepFacts(Cfg(), pool.View(), pager.LiveIds(), pager.meta.root, x, n, h, contents);
      FineIsHealthy(Cfg(), parent);
      HealthyRoot(Cfg(), parent);
      Finish(Cfg(), pool.View(), pager.LiveIds(), pager.meta.root, x, n, h, contents);
      root, height := Plug(x, n), h + Depth(x);
      Mark(parentId, lsn);
      outcome := Settled;
    }

    /** After a merge: a root left without slots gives way to its only child. */
    method AfterMerge(parentId: nat, parent: Body, ghost x: Ctx, ghost n: Node, ghost h: nat, ghost contents: seq<LeafSlot>)
      returns (outcome: Rebalance)
      requires Engine() && pool.pinning && pool.stale == {} && Frames(x, pool.Held()) && parentId in pool.Held()
      requires Cascade(Cfg(), pool.View(), pager.LiveIds(), pager.meta.root, x, n, h, contents)
      requires n.id == parentId && n.body == parent && parent.Internal?
      modifies pool`order, pool`cache, pool`stale, pool`changed, this`root, this`height,
        pager`file, pager`meta, pager`metaDirty, pager`freelistCache, pager`dirtyFreelist, pager`chain
      ensures Engine() && pool.stale == {}
      ensures outcome == Revisit(parentId, parent) || outcome == Settled
      ensures outcome == Settled ==>
        && Contents(root) == contents
        && Consistent(Cfg(), pool.View(), pager.LiveIds(), pager.meta.root, root, height)
      ensures outcome != Settled ==>
        && Cascade(Cfg(), pool.View(), pager.LiveIds(), pager.meta.root, x, n, h, contents)
        && Frames(x, pool.Held()) && parentId in pool.Held()
        && (x.Top? ==> parent.slots != [])
      ensures pager.meta == old(pager.meta).(next := pager.meta.next, freelistHead := pager.meta.freelistHead, root := pager.meta.root)
      ensures outcome == Settled <==> x.Top? && parent.slots == []
      ensures if outcome == Settled then
                Same(pool.View(), old(pool.View()), parentId) && pager.LiveIds() == old(pager.LiveIds()) - {parentId} && pager.meta.root == parent.leftmost
              else pool.View() == old(pool.View()) && pager.LiveIds() == old(pager.LiveIds()) && pager.meta == old(pager.meta)
    {
      hide Pager.Valid, Pager.LiveIds, BufferPool.Valid, BufferPool.View, BufferPool.Dirty, BufferPool.Held, Engine,
        Cascade, Formed, Consistent, Frames, Same, Only;
      ghost var v, live, rootId := pool.View(), pager.LiveIds(), pager.meta.root;
      FocusIsRoot(Cfg(), v, live, rootId, x, n, h, contents);
      if parent.slots == [] && parentId == pager.meta.root {
        var oldRootId := pager.meta.root;
        SameOnly(v, v, oldRootId);
        CollapseStep(Cfg(), v, v, live, rootId, n, h, contents);
        SetRoot(parent.leftmost);
        DropPage(oldRootId);
        ReleasePage(oldRootId);
        SameOnly(v, pool.View(), oldRootId);
        CollapseStep(Cfg(), v, pool.View(), live, rootId, n, h, contents);
        root, height := n.kids[0], h - 1;
        return Settled;
      }
      outcome := Revisit(parentId, parent);
    }

    method ShareWithEither(leftId: int, left: Option<Body>, rightId: int, right: Option<Body>, pageId: nat, page: Body,
                           parentPageId: nat, parent: Body, parentSlotIdx: int, lsn: nat,
                           ghost x: Ctx, ghost n: Node, ghost h: nat, ghost contents: seq<LeafSlot>)
      returns (done: bool, outcome: Rebalance, ghost n': Node)
      requires lsn == pool.stamp < U64 && Engine() && pool.pinning
      requires Cascade(Cfg(), pool.View(), pager.LiveIds(), pager.meta.root, x, n, h, contents) && Underfull(Cfg(), n.body)
      requires n.id == pageId && n.body == page && x.Below? && parentPageId == x.node.id && parent == x.node.body && parentSlotIdx == x.i - 1
      requires {pageId, parentPageId} <= pool.Held() && pool.stale <= {pageId} && Frames(x, pool.Held())
      requires left.Some? ==> leftId >= 0 && IsSibling(x, true, leftId, left.value) && leftId in pool.Held()
      requires right.Some? ==> rightId >= 0 && IsSibling(x, false, rightId, right.value) && rightId in pool.Held()
      requires left.Some? || right.Some?
      requires page.Leaf? ==> page.entries != []
      modifies pool`cache, pool`stale, pool`changed, this`root, this`height
      ensures Engine() && pool.Held() == old(pool.Held())
      ensures done <==> (left.Some? && Shareable(Cfg(), x, n, true)) || (right.Some? && Shareable(Cfg(), x, n, false))
      ensures left.Some? && Shareable(Cfg(), x, n, true) ==> SharedFrom(Cfg(), old(pool.View()), pool.View(), x, n, true)
      ensures done && !(left.Some? && Shareable(Cfg(), x, n, true)) ==> SharedFrom(Cfg(), old(pool.View()), pool.View(), x, n, false)
      ensures done ==> x.node.id in pool.View() && (var p := pool.View()[x.node.id];
        outcome == if Overfull(Cfg(), p) || Underfull(Cfg(), p) then Revisit(x.node.id, p) else Settled)
      ensures !done ==> pool.View() == old(pool.View()) && pool.stale == old(pool.stale)
      ensures !done && (page.Leaf? || strict) ==>
        (left.Some? && Mergeable(Cfg(), x, n, true)) || (right.Some? && Mergeable(Cfg(), x, n, false))
      ensures done && outcome == Settled ==>
        && pool.stale == {} && Contents(root) == contents
        && Consistent(Cfg(), pool.View(), pager.LiveIds(), pager.meta.root, root, height)
      ensures done ==> outcome != NoWay
      ensures done && outcome.Revisit? ==>
        && Cascade(Cfg(), pool.View(), pager.LiveIds(), pager.meta.root, x.up, n', h + 1, contents)
        && n'.id == outcome.id && n'.body == outcome.page && n'.body.Internal?
        && outcome.id in pool.Held() && pool.stale <= {outcome.id} && Frames(x.up, pool.Held())
        && (x.up.Top? ==> n'.body.slots != [])
    {
      hide *;
      outcome, n', done := NoWay, n, true;
      FramesTop(x, pool.Held());
      if left.Some? {
        var ok, newParent, q := ShareWith(leftId, left.value, true, pageId, page, parentPageId, parent, parentSlotIdx, lsn, x, n, h, contents);
        if ok {
          n' := q;
          StepFacts(Cfg(), pool.View(), pager.LiveIds(), pager.meta.root, x.up, q, h + 1, contents);
          outcome := AfterShare(parentPageId, newParent, lsn, x.up, q, h + 1, contents);
          return;
        }
      }
      if right.Some? {
        var ok, newParent, q := ShareWith(rightId, right.value, false, pageId, page, parentPageId, parent, parentSlotIdx, lsn, x, n, h, contents);
        if ok {
          n' := q;
          StepFacts(Cfg(), pool.View(), pager.LiveIds(), pager.meta.root, x.up, q, h + 1, contents);
          outcome := AfterShare(parentPageId, newParent, lsn, x.up, q, h + 1, contents);
          return;
        }
      }
      done := false;
    }

    method MergeWithEither(leftId: int, left: Option<Body>, rightId: int, right: Option<Body>, pageId: nat, page: Body,
                           parentPageId: nat, parent: Body, parentSlotIdx: int, lsn: nat,
                           ghost x: Ctx, ghost n: Node, ghost h: nat, ghost contents: seq<LeafSlot>)
      returns (done: bool, outcome: Rebalance, ghost n': Node)
      requires lsn == pool.stamp < U64 && Engine() && pool.pinning
      requires Cascade(Cfg(), pool.View(), pager.LiveIds(), pager.meta.root, x, n, h, contents) && Underfull(Cfg(), n.body)
      requires n.id == pageId && n.body == page && x.Below? && parentPageId == x.node.id && parent == x.node.body && parentSlotIdx == x.i - 1
      requires {pageId, parentPageId} <= pool.Held() && pool.stale <= {pageId} && Frames(x, pool.Held())
      requires left.Some? ==> leftId >= 0 && IsSibling(x, true, leftId, left.value) && leftId in pool.Held()
      requires right.Some? ==> rightId >= 0 && IsSibling(x, false, rightId, right.value) && rightId in pool.Held()
      requires left.Some? || right.Some?
      modifies pool`order, pool`cache, pool`stale, pool`changed, this`root, this`height,
        pager`file, pager`meta, pager`metaDirty, pager`freelistCache, pager`dirtyFreelist, pager`chain
      ensures Engine()
      ensures done <==> (left.Some? && Mergeable(Cfg(), x, n, true)) || (right.Some? && Mergeable(Cfg(), x, n, false))
      ensures !done ==> pool.View() == old(pool.View()) && pager.LiveIds() == old(pager.LiveIds()) && pager.meta == old(pager.meta)
      ensures done ==> var side := left.Some? && Mergeable(Cfg(), x, n, true);
        && MergedWith(old(pool.View()), pool.View(), x, n, side, GivenBack(x, n, side))
        && pager.LiveIds() == old(pager.LiveIds()) - GivenBack(x, n, side)
        && pager.meta.root == if RootGoes(x) then x.node.body.leftmost else old(pager.meta.root)
      ensures done && !RootGoes(x) ==> x.node.id in pool.View() && outcome == Revisit(x.node.id, pool.View()[x.node.id])
      ensures done && RootGoes(x) ==> outcome == Settled
      ensures done && outcome == Settled ==>
        && pool.stale == {} && Contents(root) == contents
        && Consistent(Cfg(), pool.View(), pager.LiveIds(), pager.meta.root, root, height)
      ensures done ==> outcome != NoWay
      ensures done && outcome.Revisit? ==>
        && Cascade(Cfg(), pool.View(), pager.LiveIds(), pager.meta.root, x.up, n', h + 1, contents)
        && n'.id == outcome.id && n'.body == outcome.page && n'.body.Internal?
        && outcome.id in pool.Held() && pool.stale <= {outcome.id} && Frames(x.up, pool.Held())
        && (x.up.Top? ==> n'.body.slots != [])
      ensures pager.meta == old(pager.meta).(next := pager.meta.next, freelistHead := pager.meta.freelistHead, root := pager.meta.root)
    {
      hide *;
      ghost var v := pool.View();
      outcome, n', done := NoWay, n, true;
      if left.Some? {
        var ok, newParent, q := MergeWith(leftId, left.value, true, pageId, page, parentPageId, parent, parentSlotIdx, lsn, x, n, h, contents);
        if ok {
          n' := q;
          ghost var u := pool.View();
          StepFacts(Cfg(), u, pager.LiveIds(), pager.meta.root, x.up, q, h + 1, contents);
          outcome := AfterMerge(parentPageId, newParent, x.up, q, h + 1, contents);
          MergedAndGone(v, u, pool.View(), x, n, true, newParent, outcome == Settled);
          return;
        }
      }
      if right.Some? {
        var ok, newParent, q := MergeWith(rightId, right.value, false, pageId, page, parentPageId, parent, parentSlotIdx, lsn, x, n, h, contents);
        if ok {
          n' := q;
          ghost var u := pool.View();
          StepFacts(Cfg(), u, pager.LiveIds(), pager.meta.root, x.up, q, h + 1, contents);
          outcome := AfterMerge(parentPageId, newParent, x.up, q, h + 1, contents);
          MergedAndGone(v, u, pool.View(), x, n, false, newParent, outcome == Settled);
          return;
        }
      }
      done := false;
    }

    /** Resolves an underfull page below the root: redistribute with a sibling, or merge with one. */
    method RedistributeOrMergePage(pageId: nat, parentPageId: nat, parentSlotIdx: int, page: Body, lsn: nat,
                                   ghost x: Ctx, ghost n: Node, ghost h: nat, ghost contents: seq<LeafSlot>)
      returns (outcome: Rebalance, ghost n': Node)
      requires lsn == pool.stamp < U64 && Engine() && pool.pinning
      requires Cascade(Cfg(), pool.View(), pager.LiveIds(), pager.meta.root, x, n, h, contents) && Underfull(Cfg(), n.body)
      requires n.id == pageId && n.body == page && x.Below? && parentPageId == x.node.id && parentSlotIdx == x.i - 1
      requires pageId in pool.Held() && pool.stale <= {pageId} && Frames(x, pool.Held())
      requires page.Leaf? ==> page.entries != []
      requires pool.evictionEnabled ==> pool.credits >= 2
      modifies pool`order, pool`cache, pool`touched, pool`credits, pool`stale, pool`changed, this`root, this`height,
        pager`file, pager`meta, pager`metaDirty, pager`freelistCache, pager`dirtyFreelist, pager`chain
      ensures Engine() && pool.credits + 2 >= old(pool.credits)
      ensures outcome == NoWay ==> page.Internal? && !strict
      ensures outcome == NoWay <==> Hopeless(Cfg(), x, n)
      ensures Shareable(Cfg(), x, n, true) || Shareable(Cfg(), x, n, false) ==>
        && SharedFrom(Cfg(), old(pool.View()), pool.View(), x, n, Shareable(Cfg(), x, n, true))
        && pager.LiveIds() == old(pager.LiveIds()) && pager.meta == old(pager.meta)
        && x.node.id in pool.View() && (var p := pool.View()[x.node.id];
            outcome == if Overfull(Cfg(), p) || Underfull(Cfg(), p) then Revisit(x.node.id, p) else Settled)
      ensures !Shareable(Cfg(), x, n, true) && !Shareable(Cfg(), x, n, false) && outcome != NoWay ==>
        var side := Mergeable(Cfg(), x, n, true);
        && MergedWith(old(pool.View()), pool.View(), x, n, side, GivenBack(x, n, side))
        && pager.LiveIds() == old(pager.LiveIds()) - GivenBack(x, n, side)
        && (Mergeable(Cfg(), x, n, true) || Mergeable(Cfg(), x, n, false))
        && (pager.meta.root == if RootGoes(x) then x.node.body.leftmost else old(pager.meta.root))
        && (if RootGoes(x) then outcome == Settled
            else x.node.id in pool.View() && outcome == Revisit(x.node.id, pool.View()[x.node.id]))
      ensures outcome == NoWay ==> pool.View() == old(pool.View()) && pager.LiveIds() == old(pager.LiveIds()) && pager.meta == old(pager.meta)
      ensures outcome == Settled ==>
        && pool.stale == {} && Contents(root) == contents
        && Consistent(Cfg(), pool.View(), pager.LiveIds(), pager.meta.root, root, height)
      ensures outcome.Revisit? ==>
        && Cascade(Cfg(), pool.View(), pager.LiveIds(), pager.meta.root, x.up, n', h + 1, contents)
        && n'.id == outcome.id && n'.body == outcome.page && n'.body.Internal?
        && outcome.id in pool.Held() && pool.stale <= {outcome.id} && Frames(x.up, pool.Held())
        && (x.up.Top? ==> n'.body.slots != [])
      ensures pager.meta == old(pager.meta).(next := pager.meta.next, freelistHead := pager.meta.freelistHead, root := pager.meta.root)
    {
      hide *;
      StepFacts(Cfg(), pool.View(), pager.LiveIds(), pager.meta.root, x, n, h, contents);
      n' := n;
      ghost var held := pool.Held();
      FramesTop(x, held);
      Touchable(parentPageId);
      var fetched := Fetch(parentPageId);
      var parent := fetched.value;
      var leftId, left, rightId, right := DetermineSameParentSiblings(parent, parentSlotIdx, x, n, h, contents);
      FramesGrow(x, held, pool.Held());

      AboutHopeless(Cfg(), x, n);
      if left.None? { NoSibling(Cfg(), x, n, true); }
      if right.None? { NoSibling(Cfg(), x, n, false); }

      // Try redistributing slots from a sibling first; then merge, always into the left page.
      var done;
      done, outcome, n' := ShareWithEither(leftId, left, rightId, right, pageId, page, parentPageId, parent, parentSlotIdx, lsn, x, n, h, contents);
      if done { return; }
      done, outcome, n' := MergeWithEither(leftId, left, rightId, right, pageId, page, parentPageId, parent, parentSlotIdx, lsn, x, n, h, contents);
      if done { return; }
      outcome := NoWay;
    }

    lemma NowIs()
      requires Engine()
      ensures Now() == Stage(pool.View(), pager.LiveIds(), pager.meta.root)
    {
    }

    lemma ValidParts()
      requires Valid()
      ensures Engine() && InOrder() && Cfg().pageSize == pager.pageSize && Cfg().strict == strict
    {
      hide Consistent, Pager.Valid, BufferPool.Valid, BufferPool.View, Pager.LiveIds;
    }

    lemma OrderParts()
      requires InOrder()
      ensures Engine()
    {
      hide Consistent, Pager.Valid, BufferPool.Valid, BufferPool.View, Pager.LiveIds;
    }

    lemma AboutMap()
      ensures Map() == ToMap(Contents(root))
    {
    }

    lemma IsInOrder()
      requires Engine() && Consistent(Cfg(), pool.View(), pager.LiveIds(), pager.meta.root, root, height)
      ensures InOrder()
    {
    }

    /** A split takes the walk on to the parent. */
    lemma SplitOn(s0: Stage, s: Stage, x0: Ctx, n0: Node, x: Ctx, id: nat, body: Body, right: nat, parentId: nat, parent: Body)
      requires Engine() && Leads(Cfg(), s0, x0, n0.id, n0.body, s, x, id, body)
      requires Overfull(Cfg(), body) && (x.Top? ==> !Overfull(Cfg(), parent))
      requires HalvesStored(Cfg(), s.pages, pool.View(), body, x, id, right, parentId, parent)
      requires right !in s.live && (if x.Top? then parentId !in s.live else parentId == x.node.id)
      requires pager.LiveIds() == s.live + {right, parentId} && pager.meta.root == if x.Top? then parentId else s.root
      ensures Leads(Cfg(), s0, x0, n0.id, n0.body, Now(), if x.Top? then Top else x.up, parentId, parent)
    {
      hide HalvesStored, Overfull, Leads, SplitTo, Engine, Pager.LiveIds, BufferPool.View;
      var up := if x.Top? then Top else x.up;
      IsSplitTo(Cfg(), s, Now(), x, id, body, right, parentId, parent);
      SplitLeads(Cfg(), s, Now(), x, id, body, right, parentId, parent);
      LeadsOn(Cfg(), s0, x0, n0.id, n0.body, s, x, id, body, Now(), up, parentId, parent);
    }

    /** Taking slots from a sibling, or merging with one, ends the walk or takes it on to the parent. */
    lemma SiblingOn(s0: Stage, s: Stage, x0: Ctx, n0: Node, x: Ctx, n: Node, outcome: Rebalance)
      requires Engine() && x.Below? && x.node.body.Internal? && Leads(Cfg(), s0, x0, n0.id, n0.body, s, x, n.id, n.body)
      requires !Overfull(Cfg(), n.body) && Underfull(Cfg(), n.body) && outcome != NoWay
      requires Shareable(Cfg(), x, n, true) || Shareable(Cfg(), x, n, false) ==>
        && SharedFrom(Cfg(), s.pages, pool.View(), x, n, Shareable(Cfg(), x, n, true))
        && pager.LiveIds() == s.live && pager.meta.root == s.root
        && x.node.id in pool.View() && (var p := pool.View()[x.node.id];
            outcome == if Overfull(Cfg(), p) || Underfull(Cfg(), p) then Revisit(x.node.id, p) else Settled)
      requires !Shareable(Cfg(), x, n, true) && !Shareable(Cfg(), x, n, false) ==>
        var side := Mergeable(Cfg(), x, n, true);
        && MergedWith(s.pages, pool.View(), x, n, side, GivenBack(x, n, side))
        && pager.LiveIds() == s.live - GivenBack(x, n, side)
        && (Mergeable(Cfg(), x, n, true) || Mergeable(Cfg(), x, n, false))
        && (pager.meta.root == if RootGoes(x) then x.node.body.leftmost else s.root)
        && (if RootGoes(x) then outcome == Settled
            else x.node.id in pool.View() && outcome == Revisit(x.node.id, pool.View()[x.node.id]))
      ensures outcome.Revisit? ==> Leads(Cfg(), s0, x0, n0.id, n0.body, Now(), x.up, outcome.id, outcome.page)
      ensures outcome == Settled ==> Rebalanced(Cfg(), s0, x0, n0.id, n0.body, Now())
    {
      hide Overfull, Underfull, Leads, SharedFrom, MergedWith, Shareable, Mergeable, GivenBack, RootGoes, SharedTo, MergedTo, Rebalanced,
        Engine, Pager.LiveIds, BufferPool.View;
      var u := Now();
      if Shareable(Cfg(), x, n, true) || Shareable(Cfg(), x, n, false) {
        IsSharedTo(Cfg(), s, u, x, n);
        ShareLeads(Cfg(), s, u, x, n);
      } else {
        IsMergedTo(Cfg(), s, u, x, n);
        MergeLeads(Cfg(), s, u, x, n);
      }
      if outcome.Revisit? {
        LeadsOn(Cfg(), s0, x0, n0.id, n0.body, s, x, n.id, n.body, u, x.up, outcome.id, outcome.page);
      } else {
        Arrives(Cfg(), s0, x0, n0.id, n0.body, s, x, n.id, n.body, u);
      }
    }

    /**
     * Walks back up the recorded path, splitting, redistributing or merging as needed. `ok` is false when an
     * underfull internal page can neither borrow from nor merge with a sibling (the source's AssertionError).
     */
    method BalanceAndWriteTree(modifiedPageId: nat, modifiedPage: Body, path: seq<PathItem>, lsn: nat,
                               ghost x0: Ctx, ghost n0: Node, ghost contents: seq<LeafSlot>)
      returns (ok: bool)
      requires lsn == pool.stamp < U64 && Engine() && pool.pinning
      requires Cascade(Cfg(), pool.View(), pager.LiveIds(), pager.meta.root, x0, n0, 0, contents)
      requires n0.id == modifiedPageId && n0.body == modifiedPage && PathOk(path, x0)
      requires modifiedPageId in pool.Held() && pool.stale <= {modifiedPageId} && Frames(x0, pool.Held())
      requires x0.Below? && modifiedPage.Leaf? ==> modifiedPage.entries != []
      requires pool.evictionEnabled ==> pool.credits >= 2 * (Depth(x0) + 1)
      modifies pool`order, pool`cache, pool`touched, pool`credits, pool`stale, pool`changed, this`root, this`height,
        pager`file, pager`meta, pager`metaDirty, pager`freelistCache, pager`dirtyFreelist, pager`chain
      ensures strict ==> ok
      ensures ok ==> InOrder() && pool.stale == {} && Contents(root) == contents
      ensures ok ==> Rebalanced(Cfg(), old(Now()), x0, modifiedPageId, modifiedPage, Now())
      ensures pager.meta == old(pager.meta).(next := pager.meta.next, freelistHead := pager.meta.freelistHead, root := pager.meta.root)
    {
      hide *;
      NowIs();
      StepFacts(Cfg(), pool.View(), pager.LiveIds(), pager.meta.root, x0, n0, 0, contents);
      var pageStack := [(modifiedPageId, modifiedPage)];
      var pathStack := path;
      ghost var x, n, h := x0, n0, 0;
      ghost var s0 := Now();
      LeadsItself(Cfg(), s0, x0, modifiedPageId, modifiedPage);
      while pageStack != []
        invariant Engine() && |pageStack| <= 1
        invariant pageStack != [] ==>
          && Cascade(Cfg(), pool.View(), pager.LiveIds(), pager.meta.root, x, n, h, contents)
          && n.id == pageStack[0].0 && n.body == pageStack[0].1 && PathOk(pathStack, x)
          && n.id in pool.Held() && pool.stale <= {n.id} && Frames(x, pool.Held())
          && (x.Below? && n.body.Leaf? ==> n.body.entries != [])
          && (x.Top? && n.body.Internal? ==> n.body.slots != [])
          && (pool.evictionEnabled && (x.Below? || Overfull(Cfg(), n.body)) ==> pool.credits >= 2 * (Depth(x) + 1))
        invariant pageStack == [] ==>
          && Consistent(Cfg(), pool.View(), pager.LiveIds(), pager.meta.root, root, height)
          && pool.stale == {} && Contents(root) == contents
        invariant pager.meta == old(pager.meta).(next := pager.meta.next, freelistHead := pager.meta.freelistHead, root := pager.meta.root)
        invariant pageStack != [] ==> Leads(Cfg(), s0, x0, modifiedPageId, modifiedPage, Now(), x, n.id, n.body)
        invariant pageStack == [] ==> Rebalanced(Cfg(), s0, x0, modifiedPageId, modifiedPage, Now())
        decreases |pageStack|, 2 * Depth(x) + (if pageStack != [] && Overfull(Cfg(), pageStack[0].1) then 1 else 0)
      {
        var (pageId, page) := pageStack[|pageStack| - 1];
        pageStack := pageStack[..|pageStack| - 1];
        PathTop(pathStack, x);
        DepthUp(x);
        NowIs();
        ghost var top, was, s := x.Top?, Depth(x), Now();
        var pathItem := if pathStack == [] then None else Some(pathStack[|pathStack| - 1]);
        pathStack := if pathStack == [] then [] else pathStack[..|pathStack| - 1];
        FocusIsRoot(Cfg(), pool.View(), pager.LiveIds(), pager.meta.root, x, n, h, contents);
        if Overfull(Cfg(), page) {
          var parentPageId := if pathItem.None? then None else Some(pathItem.value.parent);
          var parentId, parent;
          ghost var x', n';
          label Before:
          parentId, parent, x', n' := SplitPage(pageId, parentPageId, page, lsn, x, n, h, contents);
          if top { NotOverfull(Cfg(), n'.body); }
          SplitOn(s0, s, x0, n0, x, pageId, page, old@Before(pager.Upcoming(0)), parentId, parent);
          x, n, h := x', n', h + 1;
          pageStack := pageStack + [(parentId, parent)];
        } else if Underfull(Cfg(), page) && pageId != pager.meta.root {
          var outcome;
          ghost var n';
          StepFacts(Cfg(), pool.View(), pager.LiveIds(), pager.meta.root, x, n, h, contents);
          outcome, n' := RedistributeOrMergePage(pageId, pathItem.value.parent, pathItem.value.slotIndex, page, lsn, x, n, h, contents);
          if outcome == NoWay { return false; }
          SiblingOn(s0, s, x0, n0, x, n, outcome);
          x, n, h := x.up, n', h + 1;
          if outcome.Revisit? { pageStack := pageStack + [(outcome.id, outcome.page)]; }
        } else {
          SizeBound();
          StepFacts(Cfg(), pool.View(), pager.LiveIds(), pager.meta.root, x, n, h, contents);
          FineIsHealthy(Cfg(), page);
          Finish(Cfg(), pool.View(), pager.LiveIds(), pager.meta.root, x, n, h, contents);
          WalkEnds(Cfg(), s, x, pageId, page);
          Arrives(Cfg(), s0, x0, modifiedPageId, modifiedPage, s, x, pageId, page, s);
          Mark(pageId, lsn);
          NowIs();
          root, height := Plug(x, n), h + Depth(x);
        }
      }
      IsInOrder();
      ok := true;
    }

    /** The height, told by the length of one descent. */
    method MeasureHeight() returns (ok: bool, h: nat)
      requires Valid()
      modifies pool`order, pool`cache, pool`touched, pool`credits
      ensures Valid() && pool.Dirty() == old(pool.Dirty())
      ensures |pool.Dirty()| < pool.capacity || !pool.evictionEnabled ==> ok
      ensures ok ==> h == height
    {
      hide Engine, InOrder, BufferPool.Dirty, Rank, At, PathOk, Depth;
      var leafId, leaf, path;
      ghost var x, n;
      ok, leafId, leaf, path, x, n := FindLeaf([]);
      if ok { PathLength(path, x); }
      h := |path|;
    }

    /** The stored map. */
    ghost function Map(): map<Bytes, Bytes>
      reads this
    {
      ToMap(Contents(root))
    }

    /** Enough clean or free room in the pool for an operation on a tree of this height. */
    ghost predicate HasHeadroom()
      reads this, pool
    {
      pool.evictionEnabled ==> |pool.Dirty()| + 3 * (height + 1) <= pool.capacity
    }

    /** Inserts or overwrites. */
    method Insert(key: Bytes, value: Bytes, lsn: nat) returns (outcome: Outcome)
      requires lsn < U64 && Valid() && HasHeadroom() && (strict ==> ShortKey(key, pager.pageSize))
      modifies pool`order, pool`cache, pool`pinning, pool`touched, pool`credits, pool`limit, pool`stamp, pool`stale, pool`changed, this`root, this`height,
        pager`file, pager`meta, pager`metaDirty, pager`freelistCache, pager`dirtyFreelist, pager`chain
      ensures outcome == TooLarge <==> LeafRecordSize(key, value) > MaxLeafRecordSize(pager.pageSize)
      ensures outcome == TooLarge ==> Valid() && Map() == old(Map()) && pool.View() == old(pool.View()) && pager.meta == old(pager.meta)
      ensures outcome == Done ==> Valid() && Map() == old(Map())[key := value]
      ensures outcome == Done ==> AfterPut(Cfg(), old(Now()), old(root), key, value, Now()) && pool.Stamped(lsn)
      ensures outcome == Done && pool.evictionEnabled ==> |pool.Dirty()| <= |old(pool.Dirty())| + 3 * (old(height) + 1)
      ensures outcome == Stuck ==> !strict
      ensures outcome != NotFound
      ensures pager.meta == old(pager.meta).(next := pager.meta.next, freelistHead := pager.meta.freelistHead, root := pager.meta.root)
    {
      hide *;
      ValidParts();
      AboutMap();
      SizeBound();
      RecordCap(Cfg(), key, value);
      if LeafRecordSize(key, value) > MaxLeafRecordSize(pager.pageSize) {
        return TooLarge;
      }
      ghost var before, rootNode := Now(), root;
      NowIs();
      BeginOperation(lsn);

      // Find a leaf page to insert into.
      var found, leafId, leaf, path;
      ghost var x, n;
      found, leafId, leaf, path, x, n := FindLeaf(key);
      OrderParts();
      ghost var c, v, live, rootId := Cfg(), pool.View(), pager.LiveIds(), pager.meta.root;
      FocusStored(c, v, live, rootId, root, x, n, 0);
      AtLeafFacts(c, v, live, rootId, root, x, n, key);
      UpdatedLeaf(c, leaf, Lo(x), Hi(x), Next(x), key, value);
      MapUpdated(Before(x), leaf.entries, After(x), Lo(x), Hi(x), key, value);

      // Overwrite the value if the key exists, otherwise insert a new slot in key order.
      var newLeaf := leaf.(entries := UpdatedEntries(leaf.entries, key, value));
      LeafChanged(c, v, live, rootId, root, x, n, newLeaf);
      Change(leafId, newLeaf);
      ghost var changed := Now();
      NowIs();

      var ok := BalanceAndWriteTree(leafId, newLeaf, path, lsn, x, Node(leafId, newLeaf, []), Before(x) + newLeaf.entries + After(x));
      if !ok { return Stuck; }
      OrderParts();
      ghost var after := Now();
      NowIs();
      IsAfterPut(c, before, rootNode, key, value, x, n, changed, after);
      EndOperation();
      ValidParts();
      NowIs();
      AboutMap();
      outcome := Done;
    }

    /** Removes a key; `NotFound` when it is not present. */
    method Delete(key: Bytes, lsn: nat) returns (outcome: Outcome)
      requires lsn < U64 && Valid() && HasHeadroom()
      modifies pool`order, pool`cache, pool`pinning, pool`touched, pool`credits, pool`limit, pool`stamp, pool`stale, pool`changed, this`root, this`height,
        pager`file, pager`meta, pager`metaDirty, pager`freelistCache, pager`dirtyFreelist, pager`chain
      ensures outcome == NotFound <==> key !in old(Map())
      ensures outcome == NotFound ==> Valid() && Map() == old(Map()) && pool.View() == old(pool.View()) && pager.meta == old(pager.meta)
      ensures outcome == Done ==> Valid() && Map() == old(Map()) - {key}
      ensures outcome == Done ==> AfterDelete(Cfg(), old(Now()), old(root), key, Now()) && pool.Stamped(lsn)
      ensures outcome == Done && pool.evictionEnabled ==> |pool.Dirty()| <= |old(pool.Dirty())| + 3 * (old(height) + 1)
      ensures outcome == Stuck ==> !strict
      ensures outcome != TooLarge
      ensures pager.meta == old(pager.meta).(next := pager.meta.next, freelistHead := pager.meta.freelistHead, root := pager.meta.root)
    {
      hide *;
      ValidParts();
      AboutMap();
      ghost var before, rootNode := Now(), root;
      NowIs();
      BeginOperation(lsn);

      // Find the leaf that may contain the key.
      var found, leafId, leaf, path;
      ghost var x, n;
      found, leafId, leaf, path, x, n := FindLeaf(key);
      OrderParts();
      ghost var c, v, live, rootId := Cfg(), pool.View(), pager.LiveIds(), pager.meta.root;
      SizeBound();
      FocusStored(c, v, live, rootId, root, x, n, 0);
      AtLeafFacts(c, v, live, rootId, root, x, n, key);
      MapLocated(Before(x), leaf.entries, After(x), Lo(x), Hi(x), key);
      var slotIdx := BisectLeftEntries(leaf.entries, key);
      FoundWithin(leaf.entries, slotIdx, key);
      if !FoundAt(leaf.entries, slotIdx, key) {
        EndOperation();
        AboutMap();
        return NotFound;
      }

      // Remove its slot.
      var newLeaf := leaf.(entries := RemovedEntries(leaf.entries, slotIdx));
      RemovedLeaf(c, leaf, Lo(x), Hi(x), Next(x), slotIdx);
      LeafChanged(c, v, live, rootId, root, x, n, newLeaf);
      Change(leafId, newLeaf);
      ghost var changed := Now();
      NowIs();
      var ok := BalanceAndWriteTree(leafId, newLeaf, path, lsn, x, Node(leafId, newLeaf, []), Before(x) + newLeaf.entries + After(x));
      if !ok { return Stuck; }
      OrderParts();
      ghost var after := Now();
      NowIs();
      IsAfterDelete(c, before, rootNode, key, x, n, slotIdx, changed, after);
      EndOperation();
      ValidParts();
      NowIs();
      AboutMap();
      outcome := Done;
    }

    /** Looks a key up; `ok` is false on a pool overflow. */
    method Search(key: Bytes) returns (ok: bool, value: Option<Bytes>)
      requires Valid()
      modifies pool`order, pool`cache, pool`touched, pool`credits
      ensures Valid() && pool.View() == old(pool.View()) && pool.Dirty() == old(pool.Dirty())
      ensures |pool.Dirty()| < pool.capacity || !pool.evictionEnabled ==> ok
      ensures ok ==> value == if key in Map() then Some(Map()[key]) else None
    {
      hide Pager.Valid, Pager.LiveIds, BufferPool.Valid, BufferPool.View, BufferPool.Held, BufferPool.Dirty, Engine,
        Formed, Consistent, Frames, At, Overfull, LeafShape, Around, BisectLeftEntries, Contents, ToMap, Lo, Hi, Next, Before, After, Rank, PathOk;
      var leafId, leaf, path;
      ghost var x, n;
      value := None;
      ok, leafId, leaf, path, x, n := FindLeaf(key);
      if !ok { return; }
      FocusStored(Cfg(), pool.View(), pager.LiveIds(), pager.meta.root, root, x, n, 0);
      AtLeafFacts(Cfg(), pool.View(), pager.LiveIds(), pager.meta.root, root, x, n, key);
      MapLocated(Before(x), leaf.entries, After(x), Lo(x), Hi(x), key);
      var slotIdx := BisectLeftEntries(leaf.entries, key);
      if FoundAt(leaf.entries, slotIdx, key) {
        value := Some(leaf.entries[slotIdx].value);
      }
    }

    /**
     * All the entries with start <= key < end, in key order: a scan that nothing interferes with; `ok` is false on a
     * pool overflow. No start means from the first key, no end means to the last.
     */
    method ScanAll(startKey: Option<Bytes>, endKey: Option<Bytes>) returns (ok: bool, out: seq<LeafSlot>)
      requires Valid()
      modifies pool`order, pool`cache, pool`touched, pool`credits
      ensures Valid() && pool.View() == old(pool.View()) && pool.Dirty() == old(pool.Dirty())
      ensures |pool.Dirty()| < pool.capacity || !pool.evictionEnabled ==> ok
      ensures ok ==>
        var start := if startKey.None? then [] else startKey.value;
        && SortedEntries(out)
        && ToMap(out) == map k | k in Map() && InRange(k, start, endKey) :: Map()[k]
    {
      hide InOrder, BufferPool.View, BufferPool.Dirty, Contents, Range, InRange, Less, SortedEntries, ToMap, Restrict, TreeScan.Valid;
      var scan := new TreeScan(this, startKey, endKey);
      out := [];
      while true
        invariant fresh(scan) && scan.tree == this && scan.Valid() && !scan.ended && scan.root == root && scan.out == out
        invariant Valid() && pool.View() == old(pool.View()) && pool.Dirty() == old(pool.Dirty())
        invariant scan.pos <= |Contents(root)|
        decreases |Contents(root)| - scan.pos
      {
        var step := scan.Next(true);
        if !step.Entry? {
          ok := step == ScanEnded;
          if ok { ScannedAll(scan.start, endKey); }
          return;
        }
        out := out + [step.slot];
      }
    }

    /** `buffer_pool.get` outside an update. */
    method Read(id: nat) returns (r: Option<Body>)
      requires Valid() && id in pool.View() && id in pager.LiveIds()
      modifies pool`order, pool`cache, pool`touched, pool`credits
      ensures Valid() && pool.View() == old(pool.View()) && pool.Dirty() == old(pool.Dirty())
      ensures |pool.Dirty()| < pool.capacity || !pool.evictionEnabled ==> r.Some?
      ensures r.Some? ==> r.value == pool.View()[id]
    {
      hide Engine, Consistent, BufferPool.View, BufferPool.Dirty, Live;
      r := Fetch(id);
    }

    lemma LeavesChained()
      requires Valid()
      ensures Chain(pool.View(), pager.LiveIds(), Leaves(root), Contents(root)) && SortedEntries(Contents(root))
      ensures forall id :: id in pager.LiveIds() ==> id > 0
    {
      hide Engine, Leaves, Contents, Chain, SortedEntries, Consistent;
      PositiveIds();
      TreeChain(Cfg(), pool.View(), pager.LiveIds(), pager.meta.root, root, height);
      AllSorted(Cfg(), pool.View(), pager.LiveIds(), pager.meta.root, root, height);
    }

    lemma ScannedAll(start: Bytes, endKey: Option<Bytes>)
      requires InOrder()
      ensures var out := Range(Contents(root), start, endKey);
        SortedEntries(out) && ToMap(out) == map k | k in Map() && InRange(k, start, endKey) :: Map()[k]
    {
      hide Engine, Contents, InRange, Less, Range, SortedEntries, ToMap, Restrict, Holds, Ids, Shape, RootHealthy;
      AllSorted(Cfg(), pool.View(), pager.LiveIds(), pager.meta.root, root, height);
      RangeSorted(Contents(root), start, endKey);
      RangeMap(Contents(root), start, endKey);
      RestrictIs(ToMap(Contents(root)), start, endKey);
    }

    lemma PositiveIds()
      ensures forall id :: id in pager.LiveIds() ==> id > 0
    {
    }

    ghost method BeginOperation(lsn: nat)
      requires Valid() && HasHeadroom()
      modifies pool`pinning, pool`touched, pool`credits, pool`limit, pool`stamp, pool`changed
      ensures pool.stamp == lsn
      ensures InOrder() && pool.pinning && pool.credits == 3 * (height + 1) && pool.limit == |old(pool.Dirty())| + 3 * (height + 1)
      ensures pool.View() == old(pool.View()) && pool.stale == {}
    {
      hide OrderOk, LsnOk, Stamps, InSync, TouchedLast, Headroom, Overlay, DirtyIds, Live, PagerOk, Shape, Holds, Ids, Healthy;
      pool.Begin(3 * (height + 1), lsn);
    }

    ghost method EndOperation()
      requires InOrder() && pool.stale == {}
      modifies pool`pinning, pool`touched, pool`credits
      ensures Valid() && pool.View() == old(pool.View())
      ensures old(pool.pinning) && pool.evictionEnabled ==> |pool.Dirty()| <= pool.limit
      ensures old(pool.pinning) ==> pool.Stamped(pool.stamp)
    {
      hide OrderOk, LsnOk, Stamps, InSync, TouchedLast, Headroom, Overlay, DirtyIds, Live, PagerOk, Shape, Holds, Ids, Healthy;
      pool.End();
    }
  }

  lemma AllSorted(c: Config, v: Pages, live: set<nat>, rootId: nat, root: Node, h: nat)
    requires Consistent(c, v, live, rootId, root, h)
    ensures SortedEntries(Contents(root))
  {
    hide Shape, Holds, Ids, RootHealthy, SortedEntries, Contents;
    ContentsSorted(c, root, h, 0.0, 1.0, 0);
  }

  /** What the next step of a scan delivers. */
  datatype ScanStep = Entry(slot: LeafSlot) | ScanEnded | Interfered | PoolFull

  /** A running scan: the generator with its local variables. It descends when its first entry is asked for. */
  class TreeScan {
    const tree: BPlusTree
    const start: Bytes
    const endKey: Option<Bytes>
    var started: bool
    var ended: bool
    var leaf: Body
    var slotIdx: nat
    /** The tree the scan was made for, the position in its leaves and in its entries, and the entries delivered. */
    ghost const root: Node
    ghost var k: nat
    ghost var pos: nat
    ghost var out: seq<LeafSlot>

    constructor (tree: BPlusTree, startKey: Option<Bytes>, endKey: Option<Bytes>)
      ensures Valid() && !started && !ended && this.tree == tree && root == tree.root && out == [] && pos == 0
      ensures start == (if startKey.None? then [] else startKey.value) && this.endKey == endKey
    {
      this.tree, start, this.endKey := tree, if startKey.None? then [] else startKey.value, endKey;
      started, ended, leaf, slotIdx := false, false, Leaf(0, []), 0;
      root, k, pos, out := tree.root, 0, 0, [];
    }

    ghost predicate Valid()
      reads this
    {
      if ended then true else if !started then out == [] && pos == 0 else OnTheWay(root, leaf, slotIdx, k, pos, out, start, endKey)
    }

    /** Finds the leaf to start from, and the place in it. */
    method FirstDescent() returns (ok: bool)
      requires Valid() && !started && !ended && tree.Valid()
      modifies this, tree.pool`order, tree.pool`cache, tree.pool`touched, tree.pool`credits
      ensures tree.Valid() && tree.pool.View() == old(tree.pool.View()) && tree.pool.Dirty() == old(tree.pool.Dirty())
      ensures |tree.pool.Dirty()| < tree.pool.capacity || !tree.pool.evictionEnabled ==> ok
      ensures out == [] && if ok then started && !ended && OnTheWay(tree.root, leaf, slotIdx, k, pos, out, start, endKey) else ended
    {
      hide Pager.Valid, BufferPool.Valid, BufferPool.View, BufferPool.Dirty, BPlusTree.Engine, Live,
        Formed, Consistent, Frames, At, Lo, Hi, Rank, PathOk, Chain, Cursor, Leaves, Contents, Range, InRange, Less, EntriesOf,
        BisectLeftEntries, Before, LeavesBefore, SortedEntries, OnTheWay;
      var leafId, page, path;
      ghost var x, n;
      ok, leafId, page, path, x, n := tree.FindLeaf(start);
      if !ok {
        ended := true;
        return;
      }
      ghost var c, v, live, rootId, s := tree.Cfg(), tree.pool.View(), tree.pager.LiveIds(), tree.pager.meta.root, Contents(tree.root);
      FormedAt(c, v, live, rootId, tree.root, x, n);
      Start(c, v, live, rootId, tree.root, x, n, start);
      started, leaf, slotIdx := true, page, BisectLeftEntries(page.entries, start);
      k, pos := |LeavesBefore(x)|, |Before(x)| + slotIdx;
      CursorParts(Leaves(tree.root), s, k, slotIdx, pos);
      Nothing(s, pos, start, endKey);
      UnderWay(tree.root, leaf, slotIdx, k, pos, out, start, endKey);
    }

    /**
     * The next entry. `current` is the answer of the version check: no write has changed the tree since the scan was
     * made. The check is made when the scan resumes and again before an entry is delivered.
     */
    method Next(current: bool) returns (step: ScanStep)
      requires Valid() && tree.Valid() && (current ==> tree.root == root)
      modifies this, tree.pool`order, tree.pool`cache, tree.pool`touched, tree.pool`credits
      ensures Valid() && tree.Valid() && tree.pool.View() == old(tree.pool.View()) && tree.pool.Dirty() == old(tree.pool.Dirty())
      ensures |tree.pool.Dirty()| < tree.pool.capacity || !tree.pool.evictionEnabled ==> step != PoolFull
      ensures step.Entry? ==> current && !ended && out == old(out) + [step.slot] && old(pos) < pos <= |Contents(root)|
      ensures step.Entry? ==> InRange(step.slot.key, start, endKey) && out == Range(Contents(root)[..pos], start, endKey)
      ensures !step.Entry? ==> ended && out == old(out)
      ensures step == Interfered ==> !current
      ensures step == ScanEnded && current && !old(ended) ==> out == Range(Contents(root), start, endKey)
      ensures old(ended) ==> step == ScanEnded
      ensures old(started) && !old(ended) && !current ==> step == Interfered
    {
      hide BPlusTree.Valid, BufferPool.View, BufferPool.Dirty, Live, Rank, Chain, Cursor, Leaves, Contents, Range, InRange, Less, EntriesOf,
        BisectLeftEntries, SortedEntries, OnTheWay, Pager.LiveIds;
      if ended { return ScanEnded; }
      if started {
        if !current {
          ended := true;
          return Interfered;
        }
      } else {
        var ok := FirstDescent();
        if !ok { return PoolFull; }
      }
      ghost var v, live := tree.pool.View(), tree.pager.LiveIds();
      tree.LeavesChained();
      while true
        invariant tree.Valid() && tree.pool.View() == v && tree.pool.Dirty() == old(tree.pool.Dirty())
        invariant !ended && started && OnTheWay(tree.root, leaf, slotIdx, k, pos, out, start, endKey)
        invariant out == old(out) && old(pos) <= pos
        decreases |Leaves(tree.root)| - k
      {
        Standing(tree.root, leaf, slotIdx, k, pos, out, start, endKey);
        if slotIdx < |leaf.entries| {
          var slot := leaf.entries[slotIdx];
          AtEntry(v, live, tree.root, leaf, slotIdx, k, pos, out, start, endKey);
          // Reached the end key: no point in looking further.
          if endKey.Some? && !Less(slot.key, endKey.value) {
            ended := true;
            return ScanEnded;
          }
          if !current {
            ended := true;
            return Interfered;
          }
          slotIdx, pos, out := slotIdx + 1, pos + 1, out + [slot];
          return Entry(slot);
        }
        AtLeafEnd(v, live, tree.root, leaf, k, pos, out, start, endKey);
        if leaf.right > 0 {
          var page := tree.Read(leaf.right);
          if page.None? {
            ended := true;
            return PoolFull;
          }
          leaf, slotIdx, k := page.value, 0, k + 1;
        } else {
          ended := true;
          return ScanEnded;
        }
      }
    }
  }

  /** A scan of this tree has delivered what it should up to a position, and stands there. */
  ghost predicate OnTheWay(root: Node, leaf: Body, slotIdx: nat, k: nat, pos: nat, out: seq<LeafSlot>, start: Bytes, endKey: Option<Bytes>)
  {
    var ls, s := Leaves(root), Contents(root);
    && Cursor(ls, s, k, slotIdx, pos) && k < |ls| && ls[k].body == leaf && leaf.Leaf? && slotIdx <= |leaf.entries| && pos <= |s|
    && out == Range(s[..pos], start, endKey)
    && forall p :: pos <= p < |s| ==> !Less(s[p].key, start)
  }

  lemma PartsOnTheWay(root: Node, leaf: Body, slotIdx: nat, k: nat, pos: nat, out: seq<LeafSlot>, start: Bytes, endKey: Option<Bytes>)
    requires OnTheWay(root, leaf, slotIdx, k, pos, out, start, endKey)
    ensures var ls, s := Leaves(root), Contents(root);
      && Cursor(ls, s, k, slotIdx, pos) && k < |ls| && ls[k].body == leaf && leaf.Leaf? && slotIdx <= |leaf.entries| && pos <= |s|
      && out == Range(s[..pos], start, endKey)
      && forall p :: pos <= p < |s| ==> !Less(s[p].key, start)
  {
    hide Cursor, Leaves, Contents, Range, Less;
  }

  lemma Standing(root: Node, leaf: Body, slotIdx: nat, k: nat, pos: nat, out: seq<LeafSlot>, start: Bytes, endKey: Option<Bytes>)
    requires OnTheWay(root, leaf, slotIdx, k, pos, out, start, endKey)
    ensures leaf.Leaf? && slotIdx <= |leaf.entries| && k < |Leaves(root)| && pos <= |Contents(root)|
  {
    hide *;
    PartsOnTheWay(root, leaf, slotIdx, k, pos, out, start, endKey);
  }

  /** At an entry: it ends the scan, or it is the next one to deliver. */
  lemma AtEntry(v: Pages, live: set<nat>, root: Node, leaf: Body, slotIdx: nat, k: nat, pos: nat, out: seq<LeafSlot>, start: Bytes, endKey: Option<Bytes>)
    requires OnTheWay(root, leaf, slotIdx, k, pos, out, start, endKey) && leaf.Leaf? && slotIdx < |leaf.entries|
    requires Chain(v, live, Leaves(root), Contents(root))
    ensures var slot, s := leaf.entries[slotIdx], Contents(root);
      && pos < |s|
      && if endKey.Some? && !Less(slot.key, endKey.value) then out == Range(s, start, endKey)
         else
           && InRange(slot.key, start, endKey) && out + [slot] == Range(s[..pos + 1], start, endKey)
           && OnTheWay(root, leaf, slotIdx + 1, k, pos + 1, out + [slot], start, endKey)
  {
    hide *;
    var slot, ls, s := leaf.entries[slotIdx], Leaves(root), Contents(root);
    PartsOnTheWay(root, leaf, slotIdx, k, pos, out, start, endKey);
    ChainParts(v, live, ls, s);
    Under(ls, s, k, slotIdx, pos);
    CursorParts(ls, s, k, slotIdx + 1, pos + 1);
    if endKey.Some? && !Less(slot.key, endKey.value) {
      PastEnd(s, pos, start, endKey.value);
    } else {
      Advance(s, pos, start, endKey);
      IsInRange(slot.key, start, endKey);
      UnderWay(root, leaf, slotIdx + 1, k, pos + 1, out + [slot], start, endKey);
    }
  }

  /** At the end of a leaf: the sibling link leads on, and there is none only at the end of the tree. */
  lemma AtLeafEnd(v: Pages, live: set<nat>, root: Node, leaf: Body, k: nat, pos: nat, out: seq<LeafSlot>, start: Bytes, endKey: Option<Bytes>)
    requires leaf.Leaf? && OnTheWay(root, leaf, |leaf.entries|, k, pos, out, start, endKey)
    requires Chain(v, live, Leaves(root), Contents(root)) && forall id :: id in live ==> id > 0
    ensures leaf.right > 0 ==>
      && leaf.right in v && leaf.right in live && k + 1 < |Leaves(root)|
      && OnTheWay(root, v[leaf.right], 0, k + 1, pos, out, start, endKey)
    ensures leaf.right == 0 ==> out == Range(Contents(root), start, endKey)
  {
    hide *;
    var ls, s := Leaves(root), Contents(root);
    PartsOnTheWay(root, leaf, |leaf.entries|, k, pos, out, start, endKey);
    LeafEnd(v, live, ls, s, k, pos);
    if leaf.right > 0 {
      CursorParts(ls, s, k + 1, 0, pos);
      UnderWay(root, v[leaf.right], 0, k + 1, pos, out, start, endKey);
    } else {
      assert s[..pos] == s;
    }
  }

  lemma UnderWay(root: Node, leaf: Body, slotIdx: nat, k: nat, pos: nat, out: seq<LeafSlot>, start: Bytes, endKey: Option<Bytes>)
    requires var ls, s := Leaves(root), Contents(root);
      && Cursor(ls, s, k, slotIdx, pos) && k < |ls| && ls[k].body == leaf && leaf.Leaf? && slotIdx <= |leaf.entries| && pos <= |s|
      && out == Range(s[..pos], start, endKey)
      && forall p :: pos <= p < |s| ==> !Less(s[p].key, start)
    ensures OnTheWay(root, leaf, slotIdx, k, pos, out, start, endKey)
  {
    hide Cursor, Leaves, Contents, Range, Less;
  }

  lemma {:induction false} PathLength(path: seq<PathItem>, x: Ctx)
    requires PathOk(path, x)
    ensures |path| == Depth(x)
  {
    if x.Below? { PathLength(path[..|path| - 1], x.up); }
  }
}
