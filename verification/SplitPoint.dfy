/** Where an overfull page is cut: the search of `_choose_split_point` and the byte arithmetic behind it. */
module SplitPoint {
  import opened Entities
  import opened TreeModel

  function Count(b: Body): nat
  {
    match b
    case Leaf(_, entries) => |entries|
    case Internal(_, slots) => |slots|
    case Freelist(_, _) => 0
  }

  function SlotSize(b: Body, i: nat): nat
    requires i < Count(b)
  {
    if b.Leaf? then LeafSlotSize(b.entries[i]) else InternalSlotSize(b.slots[i])
  }

  /** Bytes of the first `i` slots. */
  ghost function Prefix(b: Body, i: nat): nat
    requires !b.Freelist? && i <= Count(b)
  {
    if b.Leaf? then LeafSum(b.entries[..i]) else InternalSum(b.slots[..i])
  }

  /** The pages that a cut at `b` leaves; an internal page gives slot `b` to the parent, a left leaf links to `rid`. */
  function CutLBody(j: Body, b: nat, rid: nat): Body
    requires !j.Freelist? && b < Count(j)
  {
    if j.Leaf? then Leaf(rid, j.entries[..b]) else Internal(j.leftmost, j.slots[..b])
  }

  function CutRBody(j: Body, b: nat): Body
    requires !j.Freelist? && b < Count(j)
  {
    if j.Leaf? then Leaf(j.right, j.entries[b..]) else Internal(j.slots[b].child, j.slots[b + 1..])
  }

  predicate Balanced(c: Config, b: Body, i: nat)
    requires !b.Freelist? && i < Count(b)
  {
    !(Underfull(c, CutLBody(b, i, 0)) || Underfull(c, CutRBody(b, i)))
  }

  lemma PrefixStep(b: Body, i: nat)
    requires !b.Freelist? && i < Count(b)
    ensures Prefix(b, i + 1) == Prefix(b, i) + SlotSize(b, i)
  {
    if b.Leaf? {
      assert b.entries[..i + 1][..i] == b.entries[..i];
    } else {
      assert b.slots[..i + 1][..i] == b.slots[..i];
    }
  }

  lemma PrefixTotal(b: Body)
    requires !b.Freelist?
    ensures Prefix(b, Count(b)) == BodySum(b)
  {
    if b.Leaf? {
      assert b.entries[..|b.entries|] == b.entries;
    } else {
      assert b.slots[..|b.slots|] == b.slots;
    }
  }

  lemma {:induction false} PrefixMonotone(b: Body, i: nat, j: nat)
    requires !b.Freelist? && i <= j <= Count(b)
    ensures Prefix(b, i) <= Prefix(b, j)
    ensures i < j ==> Prefix(b, i) < Prefix(b, j)
  {
    if i < j {
      PrefixMonotone(b, i, j - 1);
      PrefixStep(b, j - 1);
    }
  }

  /** Sizes around a cut. */
  lemma CutSizes(b: Body, i: nat, rid: nat)
    requires !b.Freelist? && i < Count(b)
    ensures BodySum(CutLBody(b, i, rid)) == Prefix(b, i)
    ensures BodySum(CutRBody(b, i)) == BodySum(b) - Prefix(b, if b.Leaf? then i else i + 1)
  {
    if b.Leaf? {
      LeafSumConcat(b.entries[..i], b.entries[i..]);
      assert b.entries == b.entries[..i] + b.entries[i..];
    } else {
      InternalSumConcat(b.slots[..i + 1], b.slots[i + 1..]);
      assert b.slots == b.slots[..i + 1] + b.slots[i + 1..];
    }
  }

  // ---- the byte midpoint ----

  /** `bisect.bisect_right` on a sorted list of numbers: the first position holding more than `x`. */
  function BisectRight(s: seq<nat>, x: nat): (r: nat)
    ensures r <= |s|
    ensures forall i :: 0 <= i < r ==> s[i] <= x
    ensures r < |s| ==> s[r] > x
  {
    if s == [] || s[0] > x then 0 else 1 + BisectRight(s[1..], x)
  }

  /** `slot_cumulative_sizes` of `_split_page`. */
  ghost predicate Cumulative(b: Body, cum: seq<nat>)
  {
    !b.Freelist? && |cum| == Count(b) && forall i :: 0 <= i < |cum| ==> cum[i] == Prefix(b, i + 1)
  }

  /** `m` is the byte midpoint: the first `m` slots hold at most half the bytes, one more would exceed it. */
  ghost predicate Midpoint(b: Body, m: nat)
  {
    !b.Freelist? && m < Count(b) && Prefix(b, m) <= BodySum(b) / 2 < Prefix(b, m + 1)
  }

  lemma MidpointFound(b: Body, cum: seq<nat>)
    requires Cumulative(b, cum) && cum != []
    ensures cum[|cum| - 1] == BodySum(b)
    ensures Midpoint(b, BisectRight(cum, BodySum(b) / 2))
  {
    PrefixTotal(b);
    PrefixMonotone(b, 0, Count(b));
    var m := BisectRight(cum, BodySum(b) / 2);
    if m > 0 { assert cum[m - 1] == Prefix(b, m); } else { EmptyPrefix(b); }
    assert cum[|cum| - 1] == Prefix(b, |cum|);
  }

  lemma EmptyPrefix(b: Body)
    requires !b.Freelist?
    ensures Prefix(b, 0) == 0
  {
  }

  // ---- the search ----

  /** The j-th offset tried: 0, +1, -1, +2, -2, ... */
  function OffsetAt(j: nat): int { if j % 2 == 1 then (j + 1) / 2 else -(j / 2) }

  ghost predicate Candidate(c: Config, b: Body, k: int)
  {
    !b.Freelist? && 1 <= k < Count(b) && Balanced(c, b, k)
  }

  /** `r` comes no later than `k` when walking outward from `m`, right before left. */
  ghost predicate NoFarther(m: int, r: int, k: int)
  {
    var dr, dk := if r >= m then r - m else m - r, if k >= m then k - m else m - k;
    dr < dk || (dr == dk && r >= k)
  }

  /** The offsets in the order they are tried. */
  method Offsets(count: nat) returns (offsets: seq<int>)
    requires count > 0
    ensures |offsets| == 2 * count - 1
    ensures forall j :: 0 <= j < |offsets| ==> offsets[j] == OffsetAt(j)
  {
    offsets := [0];
    for offset := 1 to count
      invariant |offsets| == 2 * offset - 1
      invariant forall j :: 0 <= j < |offsets| ==> offsets[j] == OffsetAt(j)
    {
      offsets := offsets + [offset, -offset];
    }
  }

  /** The nearest balanced cut around the midpoint, or the midpoint itself when no cut is balanced. */
  ghost predicate Chosen(c: Config, b: Body, m: int, r: int)
  {
    if exists k :: Candidate(c, b, k)
    then Candidate(c, b, r) && forall k :: Candidate(c, b, k) ==> NoFarther(m, r, k)
    else r == m
  }

  method ChooseSplitPoint(c: Config, b: Body, cum: seq<nat>) returns (r: nat)
    requires Cumulative(b, cum) && cum != []
    ensures r < Count(b) && exists m: nat :: Midpoint(b, m) && Chosen(c, b, m, r)
  {
    hide Balanced, Prefix, NoFarther, OffsetAt, Chosen;
    MidpointFound(b, cum);
    var midpoint := BisectRight(cum, cum[|cum| - 1] / 2);
    var count := |cum|;
    var offsets := Offsets(count);
    for j := 0 to |offsets|
      invariant forall i :: 0 <= i < j ==> !Candidate(c, b, midpoint + offsets[i])
    {
      var candidate := midpoint + offsets[j];
      if 1 <= candidate < count && Balanced(c, b, candidate) {
        FirstTried(c, b, midpoint, offsets, j);
        return candidate;
      }
    }
    NoneTried(c, b, midpoint, offsets);
    return midpoint;
  }

  ghost predicate OffsetList(b: Body, offsets: seq<int>)
  {
    |offsets| == 2 * Count(b) - 1 && forall j :: 0 <= j < |offsets| ==> offsets[j] == OffsetAt(j)
  }

  lemma FirstTried(c: Config, b: Body, m: nat, offsets: seq<int>, j: nat)
    requires OffsetList(b, offsets) && j < |offsets| && m < Count(b)
    requires Candidate(c, b, m + offsets[j]) && forall i :: 0 <= i < j ==> !Candidate(c, b, m + offsets[i])
    ensures Chosen(c, b, m, m + offsets[j])
  {
    hide Balanced;
    forall k | Candidate(c, b, k) ensures NoFarther(m, m + offsets[j], k) {
      var i := OffsetOf(m, k, j);
      assert m + offsets[i] == k;
    }
  }

  lemma NoneTried(c: Config, b: Body, m: nat, offsets: seq<int>)
    requires OffsetList(b, offsets) && m < Count(b)
    requires forall i :: 0 <= i < |offsets| ==> !Candidate(c, b, m + offsets[i])
    ensures Chosen(c, b, m, m)
  {
    hide Balanced;
    forall k | 1 <= k < Count(b) ensures !Candidate(c, b, k) {
      var i := OffsetOf(m, k, 0);
      assert m + offsets[i] == k;
    }
  }

  /** Every index is tried, and the ones tried before position `j` are the nearer ones. */
  lemma OffsetOf(m: int, k: int, j: nat) returns (i: nat)
    ensures m + OffsetAt(i) == k
    ensures i < j || NoFarther(m, m + OffsetAt(j), k)
    ensures i <= if k > m then 2 * (k - m) - 1 else 2 * (m - k)
  {
    i := if k > m then 2 * (k - m) - 1 else 2 * (m - k);
  }

  // ---- what the search finds ----

  ghost predicate SlotsFit(c: Config, b: Body)
  {
    && (b.Leaf? ==> forall i :: 0 <= i < |b.entries| ==> EntryFits(c, b.entries[i]))
    && (b.Internal? ==> forall i :: 0 <= i < |b.slots| ==> KeyFits(c, b.slots[i].key))
  }

  /** Any balanced cut of a page that overflows by at most one slot leaves two pages that fit. */
  lemma BalancedFits(c: Config, b: Body, k: nat)
    requires c.pageSize >= 256 && !b.Freelist? && k < Count(b) && Balanced(c, b, k) && Bounded(c, b)
    ensures !Overfull(c, CutLBody(b, k, 0)) && !Overfull(c, CutRBody(b, k))
  {
    CutSizes(b, k, 0);
    if b.Internal? { PrefixStep(b, k); }
  }

  /** An overfull leaf is cut at the byte midpoint or one slot after it, and both halves are healthy. */
  lemma LeafCutIsBalanced(c: Config, b: Body, m: nat)
    requires c.pageSize >= 256 && b.Leaf? && SlotsFit(c, b) && Overfull(c, b) && Midpoint(b, m)
    ensures Candidate(c, b, m) || Candidate(c, b, m + 1)
  {
    PrefixStep(b, m);
    PrefixTotal(b);
    EmptyPrefix(b);
    CutSizes(b, m, 0);
    assert EntryFits(c, b.entries[m]);
    if m + 1 < Count(b) {
      CutSizes(b, m + 1, 0);
    }
  }

  /** With short keys, an overfull internal page is cut exactly at the byte midpoint. */
  lemma InternalCutIsBalanced(c: Config, b: Body, m: nat)
    requires c.pageSize >= 256 && c.strict && b.Internal? && SlotsFit(c, b) && Overfull(c, b) && Midpoint(b, m)
    ensures Candidate(c, b, m)
  {
    PrefixStep(b, m);
    EmptyPrefix(b);
    CutSizes(b, m, 0);
    assert KeyFits(c, b.slots[m].key);
  }

  /** The fallback of the search, reached only by internal pages: both halves fit and neither is empty. */
  lemma FallbackCut(c: Config, b: Body, m: nat)
    requires c.pageSize >= 256 && b.Internal? && SlotsFit(c, b) && Overfull(c, b) && Bounded(c, b) && Midpoint(b, m)
    ensures 1 <= m && m + 1 < Count(b)
    ensures !Overfull(c, CutLBody(b, m, 0)) && !Overfull(c, CutRBody(b, m))
  {
    PrefixStep(b, m);
    PrefixTotal(b);
    EmptyPrefix(b);
    CutSizes(b, m, 0);
    assert KeyFits(c, b.slots[m].key);
  }
}
