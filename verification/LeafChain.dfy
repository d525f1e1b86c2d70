/** The sibling chain of a tree's leaves, and key ranges of sorted entries. */
module LeafChain {
  import opened Bytes
  import opened Entities
  import opened Codec
  import opened TreeModel
  import opened TreeMaps

  ghost function Leaves(n: Node): seq<Node>
    decreases n, 1
  {
    if n.body.Leaf? then [n] else LeavesAll(n.kids)
  }

  ghost function LeavesAll(ns: seq<Node>): seq<Node>
    decreases ns, 0
  {
    if ns == [] then [] else Leaves(ns[0]) + LeavesAll(ns[1..])
  }

  ghost function EntriesOf(ls: seq<Node>): seq<LeafSlot>
  {
    if ls == [] then [] else EntriesOf(ls[..|ls| - 1]) + (if ls[|ls| - 1].body.Leaf? then ls[|ls| - 1].body.entries else [])
  }

  /** Every leaf links to the one after it, the last to `next`. */
  ghost predicate Linked(ls: seq<Node>, next: nat)
  {
    && (forall k :: 0 <= k < |ls| ==> ls[k].body.Leaf?)
    && (forall k :: 0 <= k < |ls| - 1 ==> ls[k].body.right == ls[k + 1].id)
    && (ls != [] ==> ls[|ls| - 1].body.right == next)
  }

  lemma {:induction false} LeavesConcat(a: seq<Node>, b: seq<Node>)
    ensures LeavesAll(a + b) == LeavesAll(a) + LeavesAll(b)
  {
    if a == [] {
      assert a + b == b;
    } else {
      assert (a + b)[1..] == a[1..] + b;
      LeavesConcat(a[1..], b);
    }
  }

  lemma {:induction false} EntriesConcat(a: seq<Node>, b: seq<Node>)
    ensures EntriesOf(a + b) == EntriesOf(a) + EntriesOf(b)
  {
    if b == [] {
      assert a + b == a;
    } else {
      assert (a + b)[..|a + b| - 1] == a + b[..|b| - 1];
      EntriesConcat(a, b[..|b| - 1]);
    }
  }

  /** The leaves hold the contents. */
  lemma {:induction false} LeavesEntries(n: Node)
    ensures EntriesOf(Leaves(n)) == Contents(n)
    decreases n, 1
  {
    if n.body.Leaf? {
      assert [n][..0] == [] && EntriesOf([]) == [];
    } else {
      ListEntries(n.kids);
    }
  }

  lemma {:induction false} ListEntries(ns: seq<Node>)
    ensures EntriesOf(LeavesAll(ns)) == ContentsAll(ns)
    decreases ns, 0
  {
    if ns != [] {
      LeavesEntries(ns[0]);
      ListEntries(ns[1..]);
      EntriesConcat(Leaves(ns[0]), LeavesAll(ns[1..]));
    }
  }

  /** The leaves form one chain. */
  lemma {:induction false} ChainHolds(c: Config, n: Node, h: nat, lo: real, hi: real, next: nat)
    requires Shape(c, n, h, lo, hi, next)
    ensures Leaves(n) != [] && Leaves(n)[0].id == FirstLeaf(n) && Linked(Leaves(n), next)
    decreases h, 1, 0
  {
    if h == 0 {
      LeafChainHolds(c, n, lo, hi, next);
    } else {
      WholeKids(c, n, h, lo, hi, next);
      KidsChain(c, n, h, lo, hi, next, |n.kids|);
      FirstOf(n);
    }
  }

  lemma FirstOf(n: Node)
    requires n.kids != [] && n.body.Internal?
    ensures FirstLeaf(n) == FirstLeaf(n.kids[0]) && Leaves(n) == LeavesAll(n.kids)
  {
  }

  lemma LeafChainHolds(c: Config, n: Node, lo: real, hi: real, next: nat)
    requires Shape(c, n, 0, lo, hi, next)
    ensures Leaves(n) == [n] && n.id == FirstLeaf(n) && Linked([n], next)
  {
  }

  lemma {:induction false} KidsChain(c: Config, n: Node, h: nat, lo: real, hi: real, next: nat, k: nat)
    requires h > 0 && Shape(c, n, h, lo, hi, next) && 0 < k <= |n.kids|
    ensures var ls := LeavesAll(n.kids[..k]);
      ls != [] && ls[0].id == FirstLeaf(n.kids[0]) && Linked(ls, KidNext(n.kids, k - 1, next))
    decreases h, 0, k
  {
    hide Rank, KeyFits, SortedEntries, Healthy, LeafShape, Linked;
    WholeKids(c, n, h, lo, hi, next);
    assert KidOk(c, n, k - 1, h, lo, hi, next);
    var kid, front := n.kids[k - 1], n.kids[..k - 1];
    ChainHolds(c, kid, h - 1, KidLo(n.body.slots, k - 1, lo), KidHi(n.body.slots, k - 1, hi), KidNext(n.kids, k - 1, next));
    assert n.kids[..k] == front + [kid];
    LeavesConcat(front, [kid]);
    OneLeafList(kid);
    if k == 1 {
      assert front == [];
      assert LeavesAll(n.kids[..k]) == Leaves(kid);
    } else {
      KidsChain(c, n, h, lo, hi, next, k - 1);
      assert front[..|front|] == front;
      LinkedConcat(LeavesAll(front), Leaves(kid), KidNext(n.kids, k - 1, next));
    }
  }

  lemma OneLeafList(n: Node)
    ensures LeavesAll([n]) == Leaves(n)
  {
  }

  lemma LinkedConcat(a: seq<Node>, b: seq<Node>, next: nat)
    requires a != [] && b != [] && Linked(a, b[0].id) && Linked(b, next)
    ensures Linked(a + b, next)
  {
    forall k | 0 <= k < |a + b| - 1 ensures (a + b)[k].body.Leaf? && (a + b)[k].body.right == (a + b)[k + 1].id {
      if k < |a| - 1 { assert a[k].body.right == a[k + 1].id; }
      else if k >= |a| { assert b[k - |a|].body.right == b[k - |a| + 1].id; }
    }
  }

  // ---- where the focus is in the chain ----

  ghost function LeavesBefore(x: Ctx): seq<Node>
    requires Formed(x)
  {
    if x.Top? then [] else LeavesBefore(x.up) + LeavesAll(x.node.kids[..x.i])
  }

  ghost function LeavesAfter(x: Ctx): seq<Node>
    requires Formed(x)
  {
    if x.Top? then [] else LeavesAll(x.node.kids[x.i + 1..]) + LeavesAfter(x.up)
  }

  lemma {:induction false} PlugLeaves(x: Ctx, n: Node)
    requires Formed(x)
    ensures Leaves(Plug(x, n)) == LeavesBefore(x) + Leaves(n) + LeavesAfter(x)
    decreases x
  {
    if x.Below? {
      var p, b, a := Fill(x, n), LeavesAll(x.node.kids[..x.i]), LeavesAll(x.node.kids[x.i + 1..]);
      PlugLeaves(x.up, p);
      assert p.kids == x.node.kids[..x.i] + ([n] + x.node.kids[x.i + 1..]);
      LeavesConcat(x.node.kids[..x.i], [n] + x.node.kids[x.i + 1..]);
      LeavesConcat([n], x.node.kids[x.i + 1..]);
      OneLeafList(n);
      assert Leaves(p) == b + (Leaves(n) + a);
      assert LeavesBefore(x.up) + (b + (Leaves(n) + a)) + LeavesAfter(x.up)
          == (LeavesBefore(x.up) + b) + Leaves(n) + (a + LeavesAfter(x.up));
    }
  }

  lemma {:induction false} EntriesBefore(x: Ctx)
    requires Formed(x)
    ensures EntriesOf(LeavesBefore(x)) == Before(x)
    decreases x
  {
    if x.Below? {
      EntriesBefore(x.up);
      ListEntries(x.node.kids[..x.i]);
      EntriesConcat(LeavesBefore(x.up), LeavesAll(x.node.kids[..x.i]));
    }
  }

  /** Every leaf's page is in the store. */
  lemma {:induction false} LeavesStored(v: Pages, ids: multiset<nat>, n: Node, k: nat)
    requires Holds(v, n) && k < |Leaves(n)| && Ids(n) <= ids
    ensures Leaves(n)[k].id in v && v[Leaves(n)[k].id] == Leaves(n)[k].body && Leaves(n)[k].id in ids
    decreases n, 1, 0
  {
    if !n.body.Leaf? {
      LeafInKids(v, ids, n.kids, k);
    } else {
      assert n.id in Ids(n);
    }
  }

  lemma {:induction false} LeafInKids(v: Pages, ids: multiset<nat>, ns: seq<Node>, k: nat)
    requires (forall i :: 0 <= i < |ns| ==> Holds(v, ns[i])) && k < |LeavesAll(ns)| && IdsAll(ns) <= ids
    ensures LeavesAll(ns)[k].id in v && v[LeavesAll(ns)[k].id] == LeavesAll(ns)[k].body && LeavesAll(ns)[k].id in ids
    decreases ns, 0, k
  {
    hide Holds;
    if k < |Leaves(ns[0])| {
      LeavesStored(v, ids, ns[0], k);
    } else {
      LeafInKids(v, ids, ns[1..], k - |Leaves(ns[0])|);
    }
  }

  // ---- ranges ----

  /** Half-open: `start` included, `end` excluded, no `end` meaning no upper bound. */
  predicate InRange(key: Bytes, start: Bytes, end: Option<Bytes>)
  {
    !Less(key, start) && (end.Some? ==> Less(key, end.value))
  }

  ghost function Range(s: seq<LeafSlot>, start: Bytes, end: Option<Bytes>): seq<LeafSlot>
  {
    if s == [] then [] else
      Range(s[..|s| - 1], start, end) + (if InRange(s[|s| - 1].key, start, end) then [s[|s| - 1]] else [])
  }

  lemma RangeStep(p: seq<LeafSlot>, e: LeafSlot, start: Bytes, end: Option<Bytes>)
    ensures Range(p + [e], start, end) == Range(p, start, end) + (if InRange(e.key, start, end) then [e] else [])
  {
    assert (p + [e])[..|p|] == p;
  }

  /** Entries out of range add nothing. */
  lemma {:induction false} RangeOutside(p: seq<LeafSlot>, q: seq<LeafSlot>, start: Bytes, end: Option<Bytes>)
    requires forall i :: 0 <= i < |q| ==> !InRange(q[i].key, start, end)
    ensures Range(p + q, start, end) == Range(p, start, end)
  {
    if q == [] {
      assert p + q == p;
    } else {
      RangeOutside(p, q[..|q| - 1], start, end);
      assert p + q == (p + q[..|q| - 1]) + [q[|q| - 1]];
      RangeStep(p + q[..|q| - 1], q[|q| - 1], start, end);
    }
  }

  ghost function Restrict(m: map<Bytes, Bytes>, start: Bytes, end: Option<Bytes>): map<Bytes, Bytes>
  {
    map k | k in m && InRange(k, start, end) :: m[k]
  }

  lemma RestrictStep(m: map<Bytes, Bytes>, key: Bytes, value: Bytes, start: Bytes, end: Option<Bytes>)
    ensures InRange(key, start, end) ==> Restrict(m[key := value], start, end) == Restrict(m, start, end)[key := value]
    ensures !InRange(key, start, end) && key !in m ==> Restrict(m[key := value], start, end) == Restrict(m, start, end)
  {
    hide InRange;
  }

  lemma {:induction false} RangeMembers(s: seq<LeafSlot>, start: Bytes, end: Option<Bytes>)
    ensures forall e :: e in Range(s, start, end) ==> e in s
  {
    hide InRange;
    if s != [] { RangeMembers(s[..|s| - 1], start, end); }
  }

  /** The range of a sorted list is sorted. */
  lemma {:induction false} RangeSorted(s: seq<LeafSlot>, start: Bytes, end: Option<Bytes>)
    requires SortedEntries(s)
    ensures SortedEntries(Range(s, start, end))
  {
    hide InRange, Rank, Less;
    if s != [] {
      var p := s[..|s| - 1];
      RangeSorted(p, start, end);
      RangeMembers(p, start, end);
      LastIsLargest(s, Range(p, start, end));
    }
  }

  lemma LastIsLargest(s: seq<LeafSlot>, r: seq<LeafSlot>)
    requires s != [] && SortedEntries(s) && SortedEntries(r) && forall e :: e in r ==> e in s[..|s| - 1]
    ensures SortedEntries(r + [s[|s| - 1]])
  {
    hide Rank;
    forall i | 0 <= i < |r| ensures Rank(r[i].key) < Rank(s[|s| - 1].key) {
      assert r[i] in r;
      var j :| 0 <= j < |s| - 1 && s[..|s| - 1][j] == r[i];
      assert s[j] == r[i];
    }
  }

  /** The range of a sorted list stands for the restricted map. */
  lemma {:induction false} RangeMap(s: seq<LeafSlot>, start: Bytes, end: Option<Bytes>)
    requires SortedEntries(s)
    ensures ToMap(Range(s, start, end)) == Restrict(ToMap(s), start, end)
  {
    hide InRange, Rank, Less, Restrict;
    if s == [] {
      EmptyRestrict(start, end);
      assert Range(s, start, end) == [] && ToMap(s) == map[];
    } else {
      var p, e := s[..|s| - 1], s[|s| - 1];
      RangeMap(p, start, end);
      Lack(s);
      MapWithout(p, e.key);
      RestrictStep(ToMap(p), e.key, e.value, start, end);
      var r := Range(p, start, end);
      assert (r + [e])[..|r|] == r && r + [] == r;
    }
  }

  lemma EmptyRestrict(start: Bytes, end: Option<Bytes>)
    ensures Restrict(map[], start, end) == map[]
  {
  }

  lemma Lack(s: seq<LeafSlot>)
    requires SortedEntries(s) && s != []
    ensures Lacks(s[..|s| - 1], s[|s| - 1].key)
  {
  }
}
