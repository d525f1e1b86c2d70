/**
 * The state of the rebalance loop and its steps. One page is in focus and may be too full or too empty;
 * everything else is in order. Each step resolves the focus and moves it to the parent.
 */
module Cascading {
  import opened Entities
  import opened TreeModel
  import opened TreeSteps

  /** The stored tree is in order: its pages are exactly `live`. */
  ghost predicate Consistent(c: Config, v: Pages, live: set<nat>, rootId: nat, root: Node, h: nat)
  {
    && root.id == rootId
    && Shape(c, root, h, 0.0, 1.0, 0) && RootHealthy(c, root.body)
    && Holds(v, root)
    && Ids(root) == multiset(live)
  }

  ghost function RootOf(x: Ctx, n: Node): nat
  {
    if x.Top? then n.id else RootOf(x.up, x.node)
  }

  ghost predicate Stored(v: Pages, live: set<nat>, x: Ctx, n: Node)
  {
    Formed(x) && Holds(v, n) && CtxHolds(v, x) && Ids(n) + CtxIds(x) == multiset(live)
  }

  ghost predicate Ordered(c: Config, x: Ctx, n: Node, h: nat)
  {
    Formed(x) && CtxOk(c, x, n, h) && Shape(c, n, h, Lo(x), Hi(x), Next(x))
  }

  /** The focus is `n`, at height `h`, in context `x`. */
  ghost predicate Cascade(c: Config, v: Pages, live: set<nat>, rootId: nat, x: Ctx, n: Node, h: nat, contents: seq<LeafSlot>)
  {
    && Formed(x)
    && Ordered(c, x, n, h)
    && Stored(v, live, x, n)
    && RootOf(x, n) == rootId
    && Bounded(c, n.body)
    && Before(x) + Contents(n) + After(x) == contents
  }

  /** `w` is `v` except at `changed`. */
  ghost predicate Only(v: Pages, w: Pages, changed: set<nat>)
  {
    forall id :: id in v && id !in changed ==> id in w && w[id] == v[id]
  }

  // ---- the loop ends ----

  lemma Finish(c: Config, v: Pages, live: set<nat>, rootId: nat, x: Ctx, n: Node, h: nat, contents: seq<LeafSlot>)
    requires Cascade(c, v, live, rootId, x, n, h, contents)
    requires if x.Top? then RootHealthy(c, n.body) else Healthy(c, n.body)
    ensures Consistent(c, v, live, rootId, Plug(x, n), h + Depth(x))
    ensures Contents(Plug(x, n)) == contents
  {
    hide Shape, RootHealthy, Healthy, Holds, CtxHolds, CtxOk, Contents, Ids, Before, After, CtxIds, Lo, Hi, Next;
    PlugOk(c, x, n, h);
    PlugParts(x, n);
    PlugHolds(v, x, n);
    PlugRoot(x, n);
  }

  lemma {:induction false} PlugRoot(x: Ctx, n: Node)
    requires Formed(x)
    ensures Plug(x, n).id == RootOf(x, n)
    decreases x
  {
    if x.Below? { PlugRoot(x.up, Fill(x, n)); RootOfSame(x.up, x.node, Fill(x, n)); }
  }

  lemma RootOfSame(x: Ctx, n: Node, m: Node)
    requires n.id == m.id
    ensures RootOf(x, n) == RootOf(x, m)
  {
  }

  // ---- what stays in place ----

  lemma AgreeOff(v: Pages, w: Pages, changed: set<nat>, ids: multiset<nat>)
    requires Only(v, w, changed) && forall id :: id in changed ==> id !in ids
    ensures Agree(v, w, ids)
  {
  }

  lemma HoldsKids(v: Pages, w: Pages, kids: seq<Node>)
    requires Agree(v, w, IdsAll(kids)) && forall i :: 0 <= i < |kids| ==> Holds(v, kids[i])
    ensures forall i :: 0 <= i < |kids| ==> Holds(w, kids[i])
  {
    forall i | 0 <= i < |kids| ensures Holds(w, kids[i]) {
      IdsMember(kids, i);
      HoldsFrame(v, w, kids[i]);
    }
  }

  /** Children `a..b` of the hole's parent, the hole among them, replaced by `mid`. */
  ghost predicate Rebuilt(x: Ctx, n: Node, a: nat, b: nat, mid: seq<Node>, q: Node)
    requires Formed(x) && x.Below?
  {
    && a <= x.i < b <= |x.node.kids|
    && q.id == x.node.id && q.body.Internal?
    && q.kids == x.node.kids[..a] + mid + x.node.kids[b..]
  }

  lemma RebuiltParts(x: Ctx, n: Node, a: nat, b: nat, mid: seq<Node>, q: Node)
    requires Formed(x) && x.Below? && Rebuilt(x, n, a, b, mid, q)
    ensures var A, M, B := x.node.kids[..a], Fill(x, n).kids[a..b], x.node.kids[b..];
      && Contents(q) == ContentsAll(A) + ContentsAll(mid) + ContentsAll(B)
      && Before(x) + Contents(n) + After(x) == Before(x.up) + (ContentsAll(A) + ContentsAll(M) + ContentsAll(B)) + After(x.up)
      && IdsAll(q.kids) == IdsAll(A) + IdsAll(mid) + IdsAll(B)
      && Ids(n) + CtxIds(x) == multiset{x.node.id} + IdsAll(A) + IdsAll(M) + IdsAll(B) + CtxIds(x.up)
  {
    hide ContentsAll, IdsAll;
    var A, M, B, p := x.node.kids[..a], Fill(x, n).kids[a..b], x.node.kids[b..], Fill(x, n);
    ContentsConcat(A, mid);
    ContentsConcat(A + mid, B);
    IdsConcat(A, mid);
    IdsConcat(A + mid, B);
    assert p.kids == A + M + B;
    ContentsConcat(A, M);
    ContentsConcat(A + M, B);
    IdsConcat(A, M);
    IdsConcat(A + M, B);
    FillParts(x, n);
  }

  lemma Unmoved(live: set<nat>, p: nat, a: multiset<nat>, m: multiset<nat>, b: multiset<nat>, u: multiset<nat>, changed: set<nat>)
    requires multiset{p} + a + m + b + u == multiset(live)
    requires forall id :: id in changed ==> id == p || id in m || id !in live
    ensures forall id :: id in changed ==> id !in a && id !in b && id !in u
  {
    forall id | id in changed ensures id !in a && id !in b && id !in u {
      assert (multiset{p} + a + m + b + u)[id] <= 1;
      if id !in live { assert (multiset{p} + a + m + b + u)[id] == 0; }
    }
  }

  lemma Recount(live: set<nat>, live': set<nat>, p: nat, a: multiset<nat>, m: multiset<nat>, m': multiset<nat>, b: multiset<nat>, u: multiset<nat>)
    requires multiset{p} + a + m + b + u == multiset(live)
    requires m' + (multiset(live) - m) == multiset(live')
    ensures multiset{p} + (a + m' + b) + u == multiset(live')
  {
    assert multiset(live) - m == multiset{p} + a + b + u;
  }

  /** The rebuilt parent is stored, given that what replaced the old children is. */
  lemma RebuiltStored(v: Pages, w: Pages, live: set<nat>, live': set<nat>, x: Ctx, n: Node, a: nat, b: nat, mid: seq<Node>, q: Node, changed: set<nat>)
    requires Stored(v, live, x, n) && x.Below? && Rebuilt(x, n, a, b, mid, q)
    requires Only(v, w, changed) && q.id in w && w[q.id] == q.body
    requires forall k :: 0 <= k < |mid| ==> Holds(w, mid[k])
    requires forall id :: id in changed ==> id == x.node.id || id in IdsAll(Fill(x, n).kids[a..b]) || id !in live
    requires IdsAll(mid) + (multiset(live) - IdsAll(Fill(x, n).kids[a..b])) == multiset(live')
    ensures Stored(w, live', x.up, q)
  {
    hide Contents, Before, After, ContentsAll;
    var A, M, B := x.node.kids[..a], Fill(x, n).kids[a..b], x.node.kids[b..];
    RebuiltParts(x, n, a, b, mid, q);
    Unmoved(live, x.node.id, IdsAll(A), IdsAll(M), IdsAll(B), CtxIds(x.up), changed);
    Recount(live, live', x.node.id, IdsAll(A), IdsAll(M), IdsAll(mid), IdsAll(B), CtxIds(x.up));
    hide IdsAll, CtxIds;
    AgreeOff(v, w, changed, IdsAll(A));
    AgreeOff(v, w, changed, IdsAll(B));
    AgreeOff(v, w, changed, CtxIds(x.up));
    hide Only, Agree, Holds;
    CtxHoldsFrame(v, w, x.up);
    SidesHold(v, w, x, A, B, a, b);
    AllHold(w, q, A, mid, B);
  }

  lemma AllHold(w: Pages, q: Node, A: seq<Node>, mid: seq<Node>, B: seq<Node>)
    requires q.id in w && w[q.id] == q.body && q.kids == A + mid + B
    requires forall k :: 0 <= k < |A| ==> Holds(w, A[k])
    requires forall k :: 0 <= k < |mid| ==> Holds(w, mid[k])
    requires forall k :: 0 <= k < |B| ==> Holds(w, B[k])
    ensures Holds(w, q)
  {
    forall k | 0 <= k < |q.kids| ensures Holds(w, q.kids[k]) {
      if k < |A| { assert q.kids[k] == A[k]; }
      else if k < |A| + |mid| { assert q.kids[k] == mid[k - |A|]; }
      else { assert q.kids[k] == B[k - |A| - |mid|]; }
    }
  }

  lemma SidesHold(v: Pages, w: Pages, x: Ctx, A: seq<Node>, B: seq<Node>, a: nat, b: nat)
    requires Formed(x) && x.Below? && a <= x.i < b <= |x.node.kids|
    requires A == x.node.kids[..a] && B == x.node.kids[b..]
    requires CtxHolds(v, x) && Agree(v, w, IdsAll(A)) && Agree(v, w, IdsAll(B))
    ensures forall k :: 0 <= k < |A| ==> Holds(w, A[k])
    ensures forall k :: 0 <= k < |B| ==> Holds(w, B[k])
  {
    hide Agree, IdsAll, Holds;
    forall k | 0 <= k < |A| ensures Holds(v, A[k]) { assert A[k] == x.node.kids[k]; }
    forall k | 0 <= k < |B| ensures Holds(v, B[k]) { assert B[k] == x.node.kids[b + k]; }
    HoldsKids(v, w, A);
    HoldsKids(v, w, B);
  }
}
