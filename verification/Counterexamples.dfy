/** Where the engine's own limits are not enough: concrete inputs for the hypotheses the theorems carry. */
module Counterexamples {
  import opened Bytes
  import opened Entities
  import opened TreeModel
  import opened SplitPoint
  import opened Redistribution
  import opened TreeMaps
  import opened Cascading
  import opened TreeSteps
  import opened CascadeSteps
  import opened Descent
  import opened LeafOps
  import opened BPlusTrees

  const SMALL := Config(256, false, false)

  /** Keys of given length, in the order of their first byte. */
  function Key(first: byte, length: nat): Bytes
    requires length > 0
  {
    [first] + seq(length - 1, i => 0)
  }

  lemma KeysInOrder(a: byte, m: nat, b: byte, n: nat)
    requires m > 0 && n > 0 && a < b
    ensures Rank(Key(a, m)) < Rank(Key(b, n))
  {
    assert Less(Key(a, m), Key(b, n));
  }

  // ---- splitting ----

  /** Six separators of 15, 15, 28, 28, 15 and 15 bytes on a page of 256. */
  function WideMiddle(): Body
  {
    Internal(1, [InternalSlot(Key(1, 15), 2), InternalSlot(Key(2, 15), 3), InternalSlot(Key(4, 28), 5),
                 InternalSlot(Key(5, 28), 6), InternalSlot(Key(6, 15), 7), InternalSlot(Key(7, 15), 8)])
  }

  lemma WideMiddlePrefixes()
    ensures var b := WideMiddle();
      && Prefix(b, 1) == 35 && Prefix(b, 2) == 70 && Prefix(b, 3) == 118 && Prefix(b, 4) == 166 && Prefix(b, 5) == 201
      && Prefix(b, 6) == 236 && BodySum(b) == 236
  {
    var b := WideMiddle();
    EmptyPrefix(b);
    PrefixStep(b, 0);
    PrefixStep(b, 1);
    PrefixStep(b, 2);
    PrefixStep(b, 3);
    PrefixStep(b, 4);
    PrefixStep(b, 5);
    PrefixTotal(b);
  }

  /**
   * The record cap alone does not let every internal page be split in balance: this one is sorted, overflows by no
   * more than a slot, obeys the cap, and has no balanced cut at all, so the search falls back to the midpoint.
   */
  lemma NoBalancedCut()
    ensures var b := WideMiddle();
      && SortedSlots(b.slots) && SlotsFit(SMALL, b) && Overfull(SMALL, b) && Bounded(SMALL, b)
      && Midpoint(b, 3) && Underfull(SMALL, CutRBody(b, 3))
      && forall k :: !Candidate(SMALL, b, k)
  {
    hide InternalSum, Rank;
    var b := WideMiddle();
    WideMiddlePrefixes();
    forall i, j | 0 <= i < j < |b.slots| ensures Rank(b.slots[i].key) < Rank(b.slots[j].key) {
      KeysInOrder(if i < 2 then i + 1 else i + 2, |b.slots[i].key|, if j < 2 then j + 1 else j + 2, |b.slots[j].key|);
    }
    hide Prefix;
    forall k | 1 <= k < 6 ensures !Balanced(SMALL, b, k) {
      CutSizes(b, k, 0);
    }
    CutSizes(b, 3, 0);
  }

  // ---- rebalancing ----

  /**
   * Nor does it let every underfull internal page be rebalanced: this healthy donor cannot give its edge slot, and the
   * two pages and their separator do not fit on one page either.
   */
  lemma NeitherShareNorMerge()
    ensures var l, sep, r := Recipient(), Key(4, 28), Donor();
      && SlotsFit(SMALL, l) && SlotsFit(SMALL, r) && KeyFits(SMALL, sep)
      && Underfull(SMALL, l) && !Underfull(SMALL, r) && !Overfull(SMALL, r)
      && !CanRedistribute(SMALL, JoinBody(l, sep, r), Count(l), 0, false)
      && PageSize(JoinBody(l, sep, r)) > SMALL.pageSize
  {
    hide InternalSum;
    var l, sep, r := Recipient(), Key(4, 28), Donor();
    var j := JoinBody(l, sep, r);
    Recipients();
    JoinedPrefixes();
    hide Prefix;
    forall b: nat | b < Count(j) ensures !Resolves(SMALL, j, 2, b, 0, false) {
      CutSizes(j, b, 0);
    }
  }

  // ---- a deletion that gets stuck ----

  /** How long the first key of leaf `i` is; it is the separator before that leaf. */
  function Length(i: nat): (n: nat)
    ensures 2 <= n <= 28
  {
    if i == 3 then 2 else if i == 4 || i == 5 then 28 else 15
  }

  /** Leaf `i` of eight: an entry of 44 bytes that starts with the separator before the leaf, and one of 27 bytes. */
  function SmallLeaf(i: nat): Node
    requires i < 8
  {
    Node(i + 1, Leaf(if i < 7 then i + 2 else 0, [Wide(i), Narrow(i)]), [])
  }

  function Wide(i: nat): LeafSlot
    requires i < 8
  {
    LeafSlot(Key(i, Length(i)), seq(28 - Length(i), _ => 0))
  }

  function Narrow(i: nat): LeafSlot
    requires i < 8
  {
    LeafSlot([i, 1], seq(9, _ => 0))
  }

  /** Four leaves under one page, four under the other. */
  function LeftBody(): Body
  {
    Internal(1, [InternalSlot(Key(1, 15), 2), InternalSlot(Key(2, 15), 3), InternalSlot(Key(3, 2), 4)])
  }

  function LeftNode(): Node { Node(9, LeftBody(), [SmallLeaf(0), SmallLeaf(1), SmallLeaf(2), SmallLeaf(3)]) }

  function RightNode(): Node { Node(10, Donor(), [SmallLeaf(4), SmallLeaf(5), SmallLeaf(6), SmallLeaf(7)]) }

  function RootBody(): Body { Internal(9, [InternalSlot(Key(4, 28), 10)]) }

  function StuckRoot(): Node { Node(11, RootBody(), [LeftNode(), RightNode()]) }

  function StuckPages(): Pages
  {
    map[1 := SmallLeaf(0).body, 2 := SmallLeaf(1).body, 3 := SmallLeaf(2).body, 4 := SmallLeaf(3).body, 5 := SmallLeaf(4).body,
        6 := SmallLeaf(5).body, 7 := SmallLeaf(6).body, 8 := SmallLeaf(7).body, 9 := LeftBody(), 10 := Donor(), 11 := RootBody()]
  }

  const STUCK_LIVE: set<nat> := {1, 2, 3, 4, 5, 6, 7, 8, 9, 10, 11}

  /** Where the left page hangs, and where its last leaf does. */
  ghost function LeftSpot(): Ctx { Below(Top, StuckRoot(), 0) }

  ghost function LeafSpot(): Ctx { Below(LeftSpot(), LeftNode(), 3) }

  /** That leaf without its second entry, the leaf it is merged into, and what the left page becomes. */
  function Shrunken(): Node { Node(4, Leaf(5, [Wide(3)]), []) }

  function MergedLeaf(): Node { Node(3, Leaf(5, [Wide(2), Narrow(2), Wide(3)]), []) }

  function Shortened(): Node { Node(9, Recipient(), [SmallLeaf(0), SmallLeaf(1), MergedLeaf()]) }

  function PagesThen(): Pages { StuckPages()[4 := Shrunken().body] }

  function PagesLast(): Pages { PagesThen()[3 := MergedLeaf().body][9 := Recipient()] - {4} }

  /**
   * A tree in order on pages of 256 bytes, every page below the root at least 40% full, every separator the first key
   * of the leaf to its right. Deleting one key leaves its leaf underfull; it cannot share, and is merged into its only
   * sibling; that drops a short separator from their parent, which is then underfull and can neither share nor merge.
   */
  lemma DeleteGetsStuck()
    ensures Consistent(SMALL, StuckPages(), STUCK_LIVE, 11, StuckRoot(), 2)
    ensures forall id :: id in STUCK_LIVE && id != 11 ==> !Underfull(SMALL, StuckPages()[id])
    ensures At(SMALL, StuckPages(), STUCK_LIVE, 11, StuckRoot(), LeafSpot(), SmallLeaf(3), 0)
    ensures Contents(StuckRoot()) == Before(LeafSpot()) + [Wide(3), Narrow(3)] + After(LeafSpot())
    ensures Narrow(3).key == [3, 1] && [3, 1] in ToMap(Contents(StuckRoot()))
    ensures var b := SmallLeaf(3).body; Shrunken().body == b.(entries := RemovedEntries(b.entries, 1))
    ensures var rest := Before(LeafSpot()) + [Wide(3)] + After(LeafSpot());
      && Cascade(SMALL, PagesThen(), STUCK_LIVE, 11, LeafSpot(), Shrunken(), 0, rest)
      && Underfull(SMALL, Shrunken().body)
      && !Shareable(SMALL, LeafSpot(), Shrunken(), true) && Mergeable(SMALL, LeafSpot(), Shrunken(), true)
      && !Shareable(SMALL, LeafSpot(), Shrunken(), false)
      && Pair(LeafSpot(), 2) && Shortened() == Merged(LeafSpot(), Shrunken(), 2, MergedLeaf())
      && Cascade(SMALL, PagesLast(), STUCK_LIVE - {4}, 11, LeftSpot(), Shortened(), 1, rest)
    ensures Underfull(SMALL, Shortened().body) && Hopeless(SMALL, LeftSpot(), Shortened())
  {
    hide *;
    StuckInOrder();
    AllFull();
    AtLeaf();
    KeyIsThere();
    LeafShrinks();
    LeafMerges();
    NeitherShareNorMerge();
    Shortages();
    LeftIsHopeless();
  }

  // -- the tree before --

  /** Where leaf keys and separators lie. */
  lemma LeafKeys(i: nat)
    requires i < 8
    ensures Rank(Key(i, Length(i))) < Rank([i, 1]) < Rank(Key(i + 1, Length(i + 1)))
  {
    hide Rank;
    assert Key(i, Length(i))[1..][0] == 0;
    assert LexLess(Key(i, Length(i))[1..], [i, 1][1..]);
    assert Less(Key(i, Length(i)), [i, 1]) && Less([i, 1], Key(i + 1, Length(i + 1)));
  }

  lemma SmallSum(i: nat)
    requires i < 8
    ensures LeafSum(SmallLeaf(i).body.entries) == 71 && LeafSum([Wide(i)]) == 44 && LeafSum([]) == 0
  {
    var e := SmallLeaf(i).body.entries;
    assert e[..1] == [Wide(i)] && [Wide(i)][..0] == [] && LeafSum([]) == 0;
  }

  lemma SmallLeafOk(i: nat, hi: real)
    requires i < 8 && (hi == Rank(Key(i + 1, Length(i + 1))) || hi == 1.0)
    ensures Healthy(SMALL, SmallLeaf(i).body) && FirstLeaf(SmallLeaf(i)) == i + 1
    ensures Shape(SMALL, SmallLeaf(i), 0, Rank(Key(i, Length(i))), hi, if i < 7 then i + 2 else 0)
    ensures i == 0 ==> Shape(SMALL, SmallLeaf(i), 0, 0.0, hi, 2)
  {
    hide Rank, Less, LeafSum;
    LeafKeys(i);
    SmallSum(i);
  }

  lemma SmallIds()
    ensures forall i: nat :: i < 8 ==> SmallLeaf(i).id == i + 1 && SmallLeaf(i).kids == [] && SmallLeaf(i).body.Leaf?
  {
  }

  lemma SeparatorsOk()
    ensures 0.0 < Rank(Key(1, 15)) < Rank(Key(2, 15)) < Rank(Key(3, 2)) < Rank(Key(4, 28)) < Rank(Key(5, 28)) < Rank(Key(6, 15)) < Rank(Key(7, 15)) < 1.0
    ensures KeyFits(SMALL, Key(1, 15)) && KeyFits(SMALL, Key(2, 15)) && KeyFits(SMALL, Key(3, 2)) && KeyFits(SMALL, Key(4, 28))
    ensures KeyFits(SMALL, Key(5, 28)) && KeyFits(SMALL, Key(6, 15)) && KeyFits(SMALL, Key(7, 15))
  {
    hide Rank;
    assert Key(1, 15) != [];
    KeysInOrder(1, 15, 2, 15);
    KeysInOrder(2, 15, 3, 2);
    KeysInOrder(3, 2, 4, 28);
    KeysInOrder(4, 28, 5, 28);
    KeysInOrder(5, 28, 6, 15);
    KeysInOrder(6, 15, 7, 15);
  }

  lemma LeftShape()
    ensures Shape(SMALL, LeftNode(), 1, 0.0, Rank(Key(4, 28)), 5) && FirstLeaf(LeftNode()) == 1
  {
    hide Rank, SmallLeaf, LeafShape, Key, Healthy;
    var n := LeftNode();
    SmallIds();
    SmallLeafOk(0, Rank(Key(1, 15)));
    SmallLeafOk(1, Rank(Key(2, 15)));
    SmallLeafOk(2, Rank(Key(3, 2)));
    SmallLeafOk(3, Rank(Key(4, 28)));
    SeparatorsOk();
    assert KidOk(SMALL, n, 0, 1, 0.0, Rank(Key(4, 28)), 5);
    assert KidOk(SMALL, n, 1, 1, 0.0, Rank(Key(4, 28)), 5);
    assert KidOk(SMALL, n, 2, 1, 0.0, Rank(Key(4, 28)), 5);
    assert KidOk(SMALL, n, 3, 1, 0.0, Rank(Key(4, 28)), 5);
  }

  lemma RightShape()
    ensures Shape(SMALL, RightNode(), 1, Rank(Key(4, 28)), 1.0, 0) && FirstLeaf(RightNode()) == 5
  {
    hide Rank, SmallLeaf, LeafShape, Key, Healthy;
    var n := RightNode();
    SmallIds();
    SmallLeafOk(4, Rank(Key(5, 28)));
    SmallLeafOk(5, Rank(Key(6, 15)));
    SmallLeafOk(6, Rank(Key(7, 15)));
    SmallLeafOk(7, 1.0);
    SeparatorsOk();
    assert KidOk(SMALL, n, 0, 1, Rank(Key(4, 28)), 1.0, 0);
    assert KidOk(SMALL, n, 1, 1, Rank(Key(4, 28)), 1.0, 0);
    assert KidOk(SMALL, n, 2, 1, Rank(Key(4, 28)), 1.0, 0);
    assert KidOk(SMALL, n, 3, 1, Rank(Key(4, 28)), 1.0, 0);
  }

  lemma RootShape()
    ensures Shape(SMALL, StuckRoot(), 2, 0.0, 1.0, 0) && RootHealthy(SMALL, RootBody())
  {
    hide Rank, Key, LeftNode, RightNode, InternalSum, LeafSum, LeafShape, Wired;
    LeftShape();
    RightShape();
    SeparatorsOk();
    NodeIds();
    BodySums();
    RootWired();
    assert KidOk(SMALL, StuckRoot(), 0, 2, 0.0, 1.0, 0) && KidOk(SMALL, StuckRoot(), 1, 2, 0.0, 1.0, 0);
  }

  lemma RootWired()
    ensures Wired(SMALL, StuckRoot(), 0.0, 1.0)
  {
    hide Rank, Key, SmallLeaf;
    SeparatorsOk();
  }

  lemma NodeIds()
    ensures LeftNode().id == 9 && RightNode().id == 10 && LeftNode().body == LeftBody() && RightNode().body == Donor()
  {
  }

  /** Slots of 35, 35, 22 and of 48, 35, 35 bytes, and the root's only one of 48. */
  lemma BodySums()
    ensures BodySum(LeftBody()) == 92 && BodySum(Donor()) == 118 && BodySum(RootBody()) == 48 && BodySum(Recipient()) == 70
  {
    var l, root := LeftBody(), RootBody();
    EmptyPrefix(l);
    EmptyPrefix(root);
    PrefixStep(l, 0);
    PrefixStep(l, 1);
    PrefixStep(l, 2);
    PrefixStep(root, 0);
    PrefixTotal(l);
    PrefixTotal(root);
    Recipients();
  }

  lemma AllFull()
    ensures forall id :: id in STUCK_LIVE && id != 11 ==> id in StuckPages() && !Underfull(SMALL, StuckPages()[id])
  {
    hide InternalSum, LeafSum, Key, Length;
    BodySums();
    forall i: nat | i < 8 ensures !Underfull(SMALL, SmallLeaf(i).body) { SmallSum(i); }
  }

  lemma StuckHeld()
    ensures Holds(StuckPages(), StuckRoot())
  {
    hide Key, Wide, Narrow;
    LeavesHeld();
    assert Holds(StuckPages(), LeftNode()) && Holds(StuckPages(), RightNode());
  }

  lemma LeavesHeld()
    ensures forall i: nat :: i < 8 ==> Holds(StuckPages(), SmallLeaf(i))
  {
    hide Key, Wide, Narrow;
  }

  lemma StuckInOrder()
    ensures Consistent(SMALL, StuckPages(), STUCK_LIVE, 11, StuckRoot(), 2)
  {
    hide Shape, Holds, RootHealthy, Ids, Key, LeftNode, RightNode;
    RootShape();
    StuckHeld();
    StuckIds();
  }

  lemma StuckIds()
    ensures Ids(StuckRoot()) == multiset(STUCK_LIVE)
  {
    hide IdsAll, Ids, Key, SmallLeaf, LeftNode, RightNode, Recipient, Donor;
    IdsParts(StuckRoot());
    TwoIds(LeftNode(), RightNode());
    LeftIds();
    RightIds();
    ElevenPages();
  }

  lemma LeftIds()
    ensures Ids(LeftNode()) == multiset{9} + (multiset{1} + multiset{2} + multiset{3} + multiset{4})
  {
    hide Key, SmallLeaf, LeftBody, Ids, IdsAll;
    IdsParts(LeftNode());
    LeafIds();
    FourIds(SmallLeaf(0), SmallLeaf(1), SmallLeaf(2), SmallLeaf(3));
  }

  lemma RightIds()
    ensures Ids(RightNode()) == multiset{10} + (multiset{5} + multiset{6} + multiset{7} + multiset{8})
  {
    hide Key, SmallLeaf, Donor, Ids, IdsAll;
    IdsParts(RightNode());
    LeafIds();
    FourIds(SmallLeaf(4), SmallLeaf(5), SmallLeaf(6), SmallLeaf(7));
  }

  lemma ElevenPages()
    ensures multiset{11} + (multiset{9} + (multiset{1} + multiset{2} + multiset{3} + multiset{4}) + (multiset{10} + (multiset{5} + multiset{6} + multiset{7} + multiset{8})))
         == multiset(STUCK_LIVE)
  {
  }

  lemma LeafIds()
    ensures forall i: nat :: i < 8 ==> Ids(SmallLeaf(i)) == multiset{i + 1}
  {
    forall i: nat | i < 8 ensures Ids(SmallLeaf(i)) == multiset{i + 1} { assert IdsAll([]) == multiset{}; }
  }

  lemma TwoIds(a: Node, b: Node)
    ensures IdsAll([a, b]) == Ids(a) + Ids(b)
  {
    hide Ids;
    assert [a, b][1..] == [b];
    assert IdsAll([b]) == Ids(b) by { assert [b][1..] == []; }
  }

  lemma FourIds(a: Node, b: Node, d: Node, e: Node)
    ensures IdsAll([a, b, d, e]) == Ids(a) + Ids(b) + Ids(d) + Ids(e)
  {
    hide Ids;
    assert [a, b, d, e][1..] == [b, d, e] && [b, d, e][1..] == [d, e];
    TwoIds(d, e);
  }

  // -- the deletion --

  lemma AtLeaf()
    ensures At(SMALL, StuckPages(), STUCK_LIVE, 11, StuckRoot(), LeftSpot(), LeftNode(), 1)
    ensures At(SMALL, StuckPages(), STUCK_LIVE, 11, StuckRoot(), LeafSpot(), SmallLeaf(3), 0)
  {
    hide At, Consistent, Key, SmallLeaf, Ids, IdsAll, Shape;
    StuckInOrder();
    AtRoot(SMALL, StuckPages(), STUCK_LIVE, 11, StuckRoot(), 2);
    Down(SMALL, StuckPages(), STUCK_LIVE, 11, StuckRoot(), Top, StuckRoot(), 2, 0);
    Down(SMALL, StuckPages(), STUCK_LIVE, 11, StuckRoot(), LeftSpot(), LeftNode(), 1, 3);
  }

  lemma KeyIsThere()
    ensures Formed(LeafSpot()) && Contents(StuckRoot()) == Before(LeafSpot()) + [Wide(3), Narrow(3)] + After(LeafSpot())
    ensures Narrow(3).key == [3, 1] && [3, 1] in ToMap(Contents(StuckRoot()))
  {
    hide Wide, StuckPages, LeftNode, StuckRoot, Before, After, Plug, Stored, Ordered, RootOf, Healthy, ToMap, LeafSpot;
    AtLeaf();
    PlugParts(LeafSpot(), SmallLeaf(3));
    assert Contents(SmallLeaf(3)) == [Wide(3), Narrow(3)];
    StoredAt(Contents(StuckRoot()), |Before(LeafSpot())| + 1);
  }

  lemma LeafShrinks()
    ensures var b := SmallLeaf(3).body; Shrunken().body == b.(entries := RemovedEntries(b.entries, 1))
    ensures Formed(LeafSpot())
    ensures Cascade(SMALL, PagesThen(), STUCK_LIVE, 11, LeafSpot(), Shrunken(), 0, Before(LeafSpot()) + [Wide(3)] + After(LeafSpot()))
  {
    hide At, Cascade, Key, Wide, StuckPages, LeftNode, StuckRoot, LeafShape, Bounded, Before, After, Lo, Hi, Next, Overfull;
    AtLeaf();
    var x, n, b := LeafSpot(), SmallLeaf(3), SmallLeaf(3).body;
    LeafFacts(x, n);
    assert RemovedEntries(b.entries, 1) == [Wide(3)];
    RemovedLeaf(SMALL, b, Lo(x), Hi(x), Next(x), 1);
    LeafChanged(SMALL, StuckPages(), STUCK_LIVE, 11, StuckRoot(), x, n, Shrunken().body);
  }

  lemma LeafFacts(x: Ctx, n: Node)
    requires At(SMALL, StuckPages(), STUCK_LIVE, 11, StuckRoot(), x, n, 0) && x.Below?
    ensures Formed(x) && LeafShape(SMALL, n.body, Lo(x), Hi(x), Next(x)) && !Overfull(SMALL, n.body)
  {
    hide Stored, LeafShape, CtxOk, Overfull, Lo, Hi, Next, StuckPages, StuckRoot, Plug, RootOf;
  }

  /** The sibling to the left cannot give an entry away, but there is room for both on one page. */
  lemma LeafMerges()
    requires Formed(LeafSpot())
    requires Cascade(SMALL, PagesThen(), STUCK_LIVE, 11, LeafSpot(), Shrunken(), 0, Before(LeafSpot()) + [Wide(3)] + After(LeafSpot()))
    ensures !Shareable(SMALL, LeafSpot(), Shrunken(), true) && Mergeable(SMALL, LeafSpot(), Shrunken(), true)
    ensures !Shareable(SMALL, LeafSpot(), Shrunken(), false)
    ensures Pair(LeafSpot(), 2) && Shortened() == Merged(LeafSpot(), Shrunken(), 2, MergedLeaf()) && Formed(LeftSpot())
    ensures Cascade(SMALL, PagesLast(), STUCK_LIVE - {4}, 11, LeftSpot(), Shortened(), 1, Before(LeafSpot()) + [Wide(3)] + After(LeafSpot()))
  {
    hide Cascade, Healthy, Shareable, Mergeable, Only, Merged, Key, Wide, Narrow, StuckPages, Recipient, SmallLeaf, PagesThen, PagesLast, Before, After,
      LeftNode, StuckRoot, Pair, PairL, PairR, PairSep, JoinN, Proper;
    var x, n, rest := LeafSpot(), Shrunken(), Before(LeafSpot()) + [Wide(3)] + After(LeafSpot());
    ThePair();
    MergedSizes();
    LeafCannotShare();
    LeafCanMerge();
    OnlyThese();
    MergeStep(SMALL, PagesThen(), PagesLast(), STUCK_LIVE, 11, x, n, 0, rest, 2, MergedLeaf(), Shortened());
  }

  lemma ThePair()
    ensures var x, n := LeafSpot(), Shrunken();
      && Pair(x, 2) && PairL(x, n, 2) == SmallLeaf(2) && PairR(x, n, 2) == n && PairSep(x, 2) == Key(3, 2) && PairAt(x, true) == 2
      && Shortened() == Merged(x, n, 2, MergedLeaf()) && x.up == LeftSpot() && Formed(LeftSpot())
      && !(PairAt(x, false) >= 0 && Pair(x, PairAt(x, false)))
    ensures JoinN(SmallLeaf(2), Key(3, 2), Shrunken()) == MergedLeaf() && JoinBody(SmallLeaf(2).body, Key(3, 2), Shrunken().body) == MergedLeaf().body
    ensures Proper(SmallLeaf(2)) && Proper(Shrunken()) && SmallLeaf(2).body.Leaf? && Shrunken().body.Leaf?
  {
    hide Key, Wide, Narrow;
    var x, n := LeafSpot(), Shrunken();
    var p := Fill(x, n);
    assert p.kids == [SmallLeaf(0), SmallLeaf(1), SmallLeaf(2), n];
    assert [Wide(2), Narrow(2)] + [Wide(3)] == [Wide(2), Narrow(2), Wide(3)];
    var d := DropSlot(p, 2);
    assert d.body == Recipient();
    assert d.kids[2 := MergedLeaf()] == Shortened().kids;
  }

  lemma MergedSizes()
    ensures BodySum(MergedLeaf().body) == 115 && BodySum(Shrunken().body) == 44 && Healthy(SMALL, MergedLeaf().body)
  {
    hide LeafSum, Key, Length, Wide, Narrow;
    SmallSum(2);
    SmallSum(3);
    LeafSumConcat([Wide(2), Narrow(2)], [Wide(3)]);
    assert [Wide(2), Narrow(2)] + [Wide(3)] == [Wide(2), Narrow(2), Wide(3)];
  }

  lemma LeafCannotShare()
    ensures !Shareable(SMALL, LeafSpot(), Shrunken(), true) && !Shareable(SMALL, LeafSpot(), Shrunken(), false)
  {
    hide Shareable, Key, Wide, Narrow, LeafSum, StuckPages, StuckRoot, LeftNode, CanRedistribute, Pair, PairL, PairR, PairSep;
    var x, n, j := LeafSpot(), Shrunken(), MergedLeaf().body;
    ThePair();
    NoSibling(SMALL, x, n, false);
    AboutShareable(SMALL, x, n, true);
    NoTransfer(4);
  }

  lemma NoTransfer(link: nat)
    ensures !CanRedistribute(SMALL, MergedLeaf().body, 2, link, true)
  {
    hide LeafSum, Key, Length, Wide, Narrow;
    var j := MergedLeaf().body;
    forall b: nat | b < Count(j) ensures !Resolves(SMALL, j, 2, b, link, true) {
      if b < 2 {
        SmallSum(2);
        if b == 0 { assert j.entries[..0] == []; } else { assert j.entries[..1] == [Wide(2)]; }
      }
    }
  }

  lemma LeafCanMerge()
    ensures Mergeable(SMALL, LeafSpot(), Shrunken(), true)
  {
    hide Mergeable, Key, Wide, Narrow, LeafSum, StuckPages, StuckRoot, LeftNode, Pair, PairL, PairR, PairSep;
    ThePair();
    MergedSizes();
    IsMergeable(SMALL, LeafSpot(), Shrunken(), true);
  }

  lemma OnlyThese()
    ensures Only(PagesThen(), PagesLast(), {3, 4, 9})
    ensures var w := PagesLast(); 3 in w && w[3] == MergedLeaf().body && 9 in w && w[9] == Shortened().body
  {
    hide StuckPages, Key, Wide, Narrow, Recipient, SmallLeaf;
  }

  // -- the end --

  lemma Shortages()
    ensures Underfull(SMALL, Shrunken().body) && Underfull(SMALL, Shortened().body)
  {
    hide LeafSum, InternalSum, Key, Wide, Narrow;
    MergedSizes();
    BodySums();
  }

  lemma LeftIsHopeless()
    requires !CanRedistribute(SMALL, JoinBody(Recipient(), Key(4, 28), Donor()), Count(Recipient()), 0, false)
    requires PageSize(JoinBody(Recipient(), Key(4, 28), Donor())) > SMALL.pageSize
    ensures Hopeless(SMALL, LeftSpot(), Shortened())
  {
    hide Underfull, CanRedistribute, PageSize, Key, Recipient, Donor, SmallLeaf;
    var p := StuckRoot();
    var x, n := LeftSpot(), Shortened();
    RecipientKinds();
    AboutHopeless(SMALL, x, n);
    NoSibling(SMALL, x, n, true);
    assert PairAt(x, false) == 0 && Pair(x, 0) && PairL(x, n, 0) == n && PairR(x, n, 0) == p.kids[1] && PairSep(x, 0) == Key(4, 28);
    AboutShareable(SMALL, x, n, false);
    AboutMergeable(SMALL, x, n, false);
  }

  lemma RecipientKinds()
    ensures Recipient().Internal? && Donor().Internal?
  {
  }

  function Recipient(): Body
  {
    Internal(1, [InternalSlot(Key(1, 15), 2), InternalSlot(Key(2, 15), 3)])
  }

  function Donor(): Body
  {
    Internal(5, [InternalSlot(Key(5, 28), 6), InternalSlot(Key(6, 15), 7), InternalSlot(Key(7, 15), 8)])
  }

  lemma Recipients()
    ensures BodySum(Recipient()) == 70 && BodySum(Donor()) == 118
  {
    var l, r := Recipient(), Donor();
    EmptyPrefix(l);
    EmptyPrefix(r);
    PrefixStep(l, 0);
    PrefixStep(l, 1);
    PrefixStep(r, 0);
    PrefixStep(r, 1);
    PrefixStep(r, 2);
    PrefixTotal(l);
    PrefixTotal(r);
  }

  /** Joined, the two pages hold exactly the slots of the page above. */
  lemma JoinedPrefixes()
    ensures JoinBody(Recipient(), Key(4, 28), Donor()) == WideMiddle()
    ensures var j := WideMiddle();
      Prefix(j, 3) == 118 && Prefix(j, 4) == 166 && Prefix(j, 5) == 201 && Prefix(j, 6) == 236 && BodySum(j) == 236
  {
    WideMiddlePrefixes();
  }
}
