/** What the walk along the leaf chain relies on. */
module ScanFacts {
  import opened Bytes
  import opened Entities
  import opened Codec
  import opened TreeModel
  import opened Cascading
  import opened Descent
  import opened TreeMaps
  import opened LeafOps
  import opened LeafChain

  /** `pos` entries precede entry `i` of leaf `k`. */
  ghost predicate Cursor(ls: seq<Node>, s: seq<LeafSlot>, k: nat, i: nat, pos: nat)
  {
    && k < |ls| && ls[k].body.Leaf? && i <= |ls[k].body.entries| && pos <= |s|
    && s[..pos] == EntriesOf(ls[..k]) + ls[k].body.entries[..i]
  }

  /** The entries of the whole chain are `s`, sorted, and the pages are in the store. */
  ghost predicate Chain(v: Pages, live: set<nat>, ls: seq<Node>, s: seq<LeafSlot>)
  {
    && ls != [] && Linked(ls, 0) && EntriesOf(ls) == s && SortedEntries(s)
    && forall k :: 0 <= k < |ls| ==> ls[k].id in live && ls[k].id in v && v[ls[k].id] == ls[k].body
  }

  lemma TreeChain(c: Config, v: Pages, live: set<nat>, rootId: nat, root: Node, h: nat)
    requires Consistent(c, v, live, rootId, root, h)
    ensures Chain(v, live, Leaves(root), Contents(root))
  {
    hide Shape, Holds, Rank, Linked, EntriesOf, Leaves, Contents;
    ChainHolds(c, root, h, 0.0, 1.0, 0);
    LeavesEntries(root);
    ContentsSorted(c, root, h, 0.0, 1.0, 0);
    forall k | 0 <= k < |Leaves(root)|
      ensures Leaves(root)[k].id in live && Leaves(root)[k].id in v && v[Leaves(root)[k].id] == Leaves(root)[k].body
    {
      LeavesStored(v, Ids(root), root, k);
    }
  }

  /** Where the walk starts: everything before the start key is behind the cursor, nothing after it is. */
  lemma Start(c: Config, v: Pages, live: set<nat>, rootId: nat, root: Node, x: Ctx, n: Node, key: Bytes)
    requires At(c, v, live, rootId, root, x, n, 0) && Formed(x) && Lo(x) <= Rank(key) < Hi(x)
    ensures var ls, s, k, i := Leaves(root), Contents(root), |LeavesBefore(x)|, BisectLeftEntries(n.body.entries, key);
      && n.body.Leaf? && i <= |n.body.entries| && k < |ls| && ls[k] == n
      && Cursor(ls, s, k, i, |Before(x)| + i)
      && (forall p :: 0 <= p < |Before(x)| + i ==> Less(s[p].key, key))
      && (forall p :: |Before(x)| + i <= p < |s| ==> !Less(s[p].key, key))
  {
    hide *;
    AtLeafFacts(c, v, live, rootId, root, x, n, key);
    AtDefinition(c, v, live, rootId, root, x, n);
    PlugLeaves(x, n);
    EntriesBefore(x);
    LeafAlone(n);
    StartSplit(Before(x), n.body.entries, After(x), Lo(x), Hi(x), key);
    StartCursor(Leaves(root), Contents(root), LeavesBefore(x), n, LeavesAfter(x), Before(x), After(x), BisectLeftEntries(n.body.entries, key));
  }

  lemma StartCursor(ls: seq<Node>, s: seq<LeafSlot>, before: seq<Node>, n: Node, after: seq<Node>,
                    b: seq<LeafSlot>, a: seq<LeafSlot>, i: nat)
    requires n.body.Leaf? && ls == before + [n] + after && s == b + n.body.entries + a && EntriesOf(before) == b
    requires i <= |n.body.entries|
    ensures |before| < |ls| && ls[|before|] == n && Cursor(ls, s, |before|, i, |b| + i)
  {
    hide EntriesOf;
    var e := n.body.entries;
    assert ls[..|before|] == before;
    assert s[..|b| + i] == b + e[..i];
  }

  lemma LeafAlone(n: Node)
    ensures n.body.Leaf? ==> Leaves(n) == [n]
  {
  }

  lemma AtDefinition(c: Config, v: Pages, live: set<nat>, rootId: nat, root: Node, x: Ctx, n: Node)
    requires At(c, v, live, rootId, root, x, n, 0)
    ensures Formed(x) && Plug(x, n) == root
  {
  }

  lemma StartSplit(b: seq<LeafSlot>, e: seq<LeafSlot>, a: seq<LeafSlot>, lo: real, hi: real, key: Bytes)
    requires Around(b, e, a, lo, hi, key)
    ensures var s, p0 := b + e + a, |b| + BisectLeftEntries(e, key);
      && p0 <= |s|
      && (forall p :: 0 <= p < p0 ==> Less(s[p].key, key))
      && (forall p :: p0 <= p < |s| ==> !Less(s[p].key, key))
  {
    var i := BisectLeftEntries(e, key);
    assert forall q :: 0 <= q < |b| ==> Less(b[q].key, key);
    assert forall q :: 0 <= q < |a| ==> !Less(a[q].key, key);
    assert forall q :: 0 <= q < i ==> Less(e[q].key, key);
    assert forall q :: i <= q < |e| ==> !Less(e[q].key, key);
    hide KeysWithin, SortedEntries, Less, Rank, BisectLeftEntries;
    var s := b + e + a;
    assert forall p :: 0 <= p < |b| ==> s[p] == b[p];
    assert forall p :: |b| <= p < |b| + |e| ==> s[p] == e[p - |b|];
    assert forall p :: |b| + |e| <= p < |s| ==> s[p] == a[p - |b| - |e|];
  }

  lemma SplitAt(s: seq<LeafSlot>, a: seq<LeafSlot>, e: seq<LeafSlot>, b: seq<LeafSlot>, i: nat, pos: nat)
    requires s == a + e + b && i <= |e| && pos <= |s| && s[..pos] == a + e[..i]
    ensures s == s[..pos] + (e[i..] + b)
    ensures i < |e| ==> pos < |s| && s[pos] == e[i] && s[..pos + 1] == a + e[..i + 1]
  {
    assert pos == |s[..pos]| == |a| + i;
    assert s[pos..] == e[i..] + b;
  }

  /** The entry under the cursor. */
  lemma Under(ls: seq<Node>, s: seq<LeafSlot>, k: nat, i: nat, pos: nat)
    requires Cursor(ls, s, k, i, pos) && EntriesOf(ls) == s && i < |ls[k].body.entries|
    ensures pos < |s| && s[pos] == ls[k].body.entries[i]
    ensures Cursor(ls, s, k, i + 1, pos + 1)
  {
    hide EntriesOf;
    EntriesAround(ls, k);
    SplitAt(s, EntriesOf(ls[..k]), ls[k].body.entries, EntriesOf(ls[k + 1..]), i, pos);
  }

  lemma EntriesAround(ls: seq<Node>, k: nat)
    requires k < |ls| && ls[k].body.Leaf?
    ensures EntriesOf(ls) == EntriesOf(ls[..k]) + ls[k].body.entries + EntriesOf(ls[k + 1..])
    ensures EntriesOf(ls[..k + 1]) == EntriesOf(ls[..k]) + ls[k].body.entries
  {
    var a, b := ls[..k], ls[k + 1..];
    assert ls == a + [ls[k]] + b;
    assert ls[..k + 1] == a + [ls[k]];
    EntriesConcat(a, [ls[k]]);
    EntriesConcat(a + [ls[k]], b);
    OneEntries(ls[k]);
    hide EntriesOf;
  }

  lemma CursorSplit(ls: seq<Node>, s: seq<LeafSlot>, k: nat, i: nat, pos: nat)
    requires Cursor(ls, s, k, i, pos) && EntriesOf(ls) == s
    ensures s == s[..pos] + (ls[k].body.entries[i..] + EntriesOf(ls[k + 1..]))
    ensures EntriesOf(ls[..k + 1]) == EntriesOf(ls[..k]) + ls[k].body.entries
  {
    hide EntriesOf;
    EntriesAround(ls, k);
    SplitAt(s, EntriesOf(ls[..k]), ls[k].body.entries, EntriesOf(ls[k + 1..]), i, pos);
  }

  lemma OneEntries(n: Node)
    requires n.body.Leaf?
    ensures EntriesOf([n]) == n.body.entries
  {
    assert [n][..0] == [] && EntriesOf([]) == [];
  }

  /** The end of a leaf is the beginning of the next one, or the end of the chain. */
  lemma LeafEnd(v: Pages, live: set<nat>, ls: seq<Node>, s: seq<LeafSlot>, k: nat, pos: nat)
    requires Chain(v, live, ls, s) && k < |ls| && ls[k].body.Leaf? && Cursor(ls, s, k, |ls[k].body.entries|, pos)
    requires forall id :: id in live ==> id > 0
    ensures ls[k].body.right > 0 ==>
      && k + 1 < |ls| && ls[k + 1].id == ls[k].body.right && Cursor(ls, s, k + 1, 0, pos)
      && ls[k + 1].id in live && ls[k + 1].id in v && v[ls[k + 1].id] == ls[k + 1].body
    ensures ls[k].body.right == 0 ==> pos == |s|
  {
    CursorSplit(ls, s, k, |ls[k].body.entries|, pos);
    hide EntriesOf, SortedEntries;
    var e := ls[k].body.entries;
    assert e[..|e|] == e && e[|e|..] == [];
    if k + 1 < |ls| {
      assert ls[k].body.right == ls[k + 1].id;
    } else {
      assert ls[k + 1..] == [];
      NoEntries();
    }
  }

  lemma NoEntries()
    ensures EntriesOf([]) == []
  {
  }

  /** One more entry, in or out of range. */
  lemma Advance(s: seq<LeafSlot>, pos: nat, start: Bytes, end: Option<Bytes>)
    requires pos < |s|
    ensures Range(s[..pos + 1], start, end) == Range(s[..pos], start, end) + (if InRange(s[pos].key, start, end) then [s[pos]] else [])
  {
    assert s[..pos + 1] == s[..pos] + [s[pos]];
    RangeStep(s[..pos], s[pos], start, end);
  }

  /** Everything from an entry at or beyond the end on is out of range. */
  lemma PastEnd(s: seq<LeafSlot>, pos: nat, start: Bytes, end: Bytes)
    requires SortedEntries(s) && pos < |s| && !Less(s[pos].key, end)
    ensures Range(s, start, Some(end)) == Range(s[..pos], start, Some(end))
  {
    assert s == s[..pos] + s[pos..];
    forall i | 0 <= i < |s[pos..]| ensures !InRange(s[pos..][i].key, start, Some(end)) {
      assert s[pos..][i] == s[pos + i];
      assert !Less(s[pos + i].key, end);
    }
    RangeOutside(s[..pos], s[pos..], start, Some(end));
  }

  lemma Nothing(s: seq<LeafSlot>, p0: nat, start: Bytes, end: Option<Bytes>)
    requires p0 <= |s| && forall p :: 0 <= p < p0 ==> Less(s[p].key, start)
    ensures Range(s[..p0], start, end) == []
  {
    hide Less;
    assert [] + s[..p0] == s[..p0];
    RangeOutside([], s[..p0], start, end);
  }
}
