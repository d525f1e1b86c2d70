/** Moving slots from a sibling one at a time: `_try_redistribute_slots`. */
module Redistribution {
  import opened Bytes
  import opened Entities
  import opened TreeModel
  import opened SplitPoint

  // ---- two neighbours as one run of slots ----

  predicate SameKind(l: Body, r: Body)
  {
    (l.Leaf? && r.Leaf?) || (l.Internal? && r.Internal?)
  }

  /** The neighbours' slots in order; between internal pages the separator is pulled down. */
  function JoinBody(l: Body, sep: Bytes, r: Body): Body
    requires SameKind(l, r)
  {
    if l.Leaf? then Leaf(r.right, l.entries + r.entries)
    else Internal(l.leftmost, l.slots + [InternalSlot(sep, r.leftmost)] + r.slots)
  }

  function CutKeyOf(j: Body, b: nat): Bytes
    requires !j.Freelist? && b < Count(j)
  {
    if j.Leaf? then j.entries[b].key else j.slots[b].key
  }

  ghost function RightLink(l: Body): nat { if l.Leaf? then l.right else 0 }

  /** The pair and its separator are the run `j` cut at `b`; a leaf pair's separator only once a slot has moved. */
  ghost predicate CutAt(j: Body, b: nat, rid: nat, l: Body, sep: Bytes, r: Body, moved: bool)
  {
    && !j.Freelist? && b < Count(j)
    && l == CutLBody(j, b, rid) && r == CutRBody(j, b)
    && ((j.Leaf? && !moved) || sep == CutKeyOf(j, b))
  }

  lemma JoinIsCut(l: Body, sep: Bytes, r: Body)
    requires SameKind(l, r) && Count(r) + (if l.Leaf? then 0 else 1) > 0
    ensures CutAt(JoinBody(l, sep, r), Count(l), RightLink(l), l, sep, r, false)
  {
    var j := JoinBody(l, sep, r);
    if l.Leaf? {
      assert j.entries[..|l.entries|] == l.entries && j.entries[|l.entries|..] == r.entries;
    } else {
      assert j.slots[..|l.slots|] == l.slots && j.slots[|l.slots| + 1..] == r.slots;
    }
  }

  lemma JoinFits(c: Config, l: Body, sep: Bytes, r: Body)
    requires SameKind(l, r) && SlotsFit(c, l) && SlotsFit(c, r) && KeyFits(c, sep)
    ensures SlotsFit(c, JoinBody(l, sep, r))
  {
    hide EntryFits, KeyFits;
  }

  /**
   * One slot has crossed from donor to recipient, moving the cut from `b` to `b'`: the recipient was underfull
   * before and the donor is after. Then both pages fit in one, always for leaves, for internal pages with short keys.
   */
  lemma StuckMeansMergeable(c: Config, j: Body, b: nat, b': nat, rid: nat, donorIsLeft: bool)
    requires c.pageSize >= 256 && !j.Freelist? && SlotsFit(c, j) && b < Count(j) && b' < Count(j)
    requires b' == if donorIsLeft then b - 1 else b + 1
    requires Underfull(c, if donorIsLeft then CutRBody(j, b) else CutLBody(j, b, rid))
    requires Underfull(c, if donorIsLeft then CutLBody(j, b', rid) else CutRBody(j, b'))
    requires j.Leaf? || c.strict
    ensures PageSize(j) <= c.pageSize
  {
    CutSizes(j, b, rid);
    CutSizes(j, b', rid);
    var low, high := if donorIsLeft then b' else b, if donorIsLeft then b else b';
    PrefixStep(j, low);
    if j.Leaf? {
      assert EntryFits(c, j.entries[low]);
    } else {
      PrefixStep(j, high);
      assert KeyFits(c, j.slots[low].key) && KeyFits(c, j.slots[high].key);
    }
  }

  /** The recipient of a slot gains at most one slot's worth of bytes, the donor only loses. */
  lemma MoveSizes(c: Config, j: Body, b: nat, b': nat, rid: nat, donorIsLeft: bool)
    requires c.pageSize >= 256 && !j.Freelist? && SlotsFit(c, j) && b < Count(j) && b' < Count(j)
    requires b' == if donorIsLeft then b - 1 else b + 1
    requires Underfull(c, if donorIsLeft then CutRBody(j, b) else CutLBody(j, b, rid))
    requires !Overfull(c, if donorIsLeft then CutLBody(j, b, rid) else CutRBody(j, b))
    ensures !Overfull(c, CutLBody(j, b', rid)) && !Overfull(c, CutRBody(j, b'))
  {
    CutSizes(j, b, rid);
    CutSizes(j, b', rid);
    var low, high := if donorIsLeft then b' else b, if donorIsLeft then b else b';
    PrefixStep(j, low);
    if j.Leaf? {
      assert EntryFits(c, j.entries[low]);
    } else {
      PrefixStep(j, high);
      assert KeyFits(c, j.slots[low].key) && KeyFits(c, j.slots[high].key);
    }
  }

  /** One iteration of the transfer loop. */
  method MoveOne(donor: Body, recipient: Body, sep: Bytes, donorIsLeft: bool, ghost j: Body, ghost b: nat, ghost rid: nat, ghost moved: bool)
    returns (donor': Body, recipient': Body, sep': Bytes, ghost b': nat)
    requires SameKind(donor, recipient) && Count(donor) >= 1
    requires donorIsLeft || donor.Internal? || Count(donor) >= 2
    requires if donorIsLeft then CutAt(j, b, rid, donor, sep, recipient, moved) else CutAt(j, b, rid, recipient, sep, donor, moved)
    ensures SameKind(donor', recipient') && donor'.Leaf? == donor.Leaf?
    ensures b' == (if donorIsLeft then b - 1 else b + 1) && Count(donor') == Count(donor) - 1
    ensures if donorIsLeft then CutAt(j, b', rid, donor', sep', recipient', true) else CutAt(j, b', rid, recipient', sep', donor', true)
  {
    b' := if donorIsLeft then b - 1 else b + 1;
    if donor.Leaf? {
      if donorIsLeft {
        var slot := donor.entries[|donor.entries| - 1];
        recipient' := recipient.(entries := [slot] + recipient.entries);
        donor' := donor.(entries := donor.entries[..|donor.entries| - 1]);
        sep' := recipient'.entries[0].key;
      } else {
        recipient' := recipient.(entries := recipient.entries + [donor.entries[0]]);
        donor' := donor.(entries := donor.entries[1..]);
        sep' := donor'.entries[0].key;
      }
    } else if donorIsLeft {
      var edge := donor.slots[|donor.slots| - 1];
      recipient' := Internal(edge.child, [InternalSlot(sep, recipient.leftmost)] + recipient.slots);
      sep' := edge.key;
      donor' := donor.(slots := donor.slots[..|donor.slots| - 1]);
    } else {
      var edge := donor.slots[0];
      recipient' := recipient.(slots := recipient.slots + [InternalSlot(sep, donor.leftmost)]);
      sep' := edge.key;
      donor' := Internal(edge.child, donor.slots[1..]);
    }
  }

  /** Some transfer across the boundary at `b0` leaves neither page underfull. */
  ghost predicate CanRedistribute(c: Config, j: Body, b0: nat, rid: nat, donorIsLeft: bool)
    requires !j.Freelist?
  {
    exists b: nat :: b < Count(j) && Resolves(c, j, b0, b, rid, donorIsLeft)
  }

  ghost predicate Resolves(c: Config, j: Body, b0: nat, b: nat, rid: nat, donorIsLeft: bool)
    requires !j.Freelist? && b < Count(j)
  {
    && (if donorIsLeft then b < b0 else b > b0)
    && !Underfull(c, CutLBody(j, b, rid)) && !Underfull(c, CutRBody(j, b))
  }

  /** One slot fewer would leave the recipient underfull. */
  ghost predicate NoSlotTooMany(c: Config, j: Body, b: nat, rid: nat, donorIsLeft: bool)
    requires !j.Freelist?
  {
    if donorIsLeft then b + 1 < Count(j) && Underfull(c, CutRBody(j, b + 1))
    else 0 < b <= Count(j) && Underfull(c, CutLBody(j, b - 1, rid))
  }

  /** Once a transfer has emptied the donor too far before filling the recipient, no transfer would do. */
  lemma StuckForGood(c: Config, j: Body, b0: nat, b: nat, b': nat, rid: nat, donorIsLeft: bool)
    requires !j.Freelist? && b < Count(j) && b' < Count(j) && b' == if donorIsLeft then b - 1 else b + 1
    requires Underfull(c, if donorIsLeft then CutRBody(j, b) else CutLBody(j, b, rid))
    requires Underfull(c, if donorIsLeft then CutLBody(j, b', rid) else CutRBody(j, b'))
    ensures !CanRedistribute(c, j, b0, rid, donorIsLeft)
  {
    forall k: nat | k < Count(j) ensures !Resolves(c, j, b0, k, rid, donorIsLeft) {
      CutSizes(j, k, rid);
      CutSizes(j, b, rid);
      CutSizes(j, b', rid);
      if k <= b { PrefixMonotone(j, k, b); PrefixMonotone(j, Skip(j, k), Skip(j, b)); }
      else { PrefixMonotone(j, b, k); PrefixMonotone(j, Skip(j, b), Skip(j, k)); }
      if k <= b' { PrefixMonotone(j, k, b'); PrefixMonotone(j, Skip(j, k), Skip(j, b')); }
      else { PrefixMonotone(j, b', k); PrefixMonotone(j, Skip(j, b'), Skip(j, k)); }
    }
  }

  function Skip(j: Body, b: nat): nat { if j.Leaf? then b else b + 1 }

  /** A leaf that is not underfull has at least two slots. */
  lemma TwoEntries(c: Config, b: Body)
    requires c.pageSize >= 256 && b.Leaf? && SlotsFit(c, b)
    ensures |b.entries| < 2 ==> Underfull(c, b)
  {
    if |b.entries| == 1 {
      assert EntryFits(c, b.entries[0]);
      assert b.entries[..|b.entries| - 1] == [] && LeafSum([]) == 0;
    }
  }

  lemma CutKeepsFit(c: Config, j: Body, b: nat, rid: nat)
    requires !j.Freelist? && b < Count(j) && SlotsFit(c, j)
    ensures SlotsFit(c, CutLBody(j, b, rid)) && SlotsFit(c, CutRBody(j, b)) && KeyFits(c, CutKeyOf(j, b))
  {
  }

  /**
   * Moves slots until the recipient is no longer underfull; gives up, restoring both pages and the separator,
   * when the donor becomes underfull.
   */
  method TryRedistributeSlots(c: Config, donorPage: Body, recipientPage: Body, parentKey: Bytes, donorIsLeft: bool)
    returns (ok: bool, donor: Body, recipient: Body, sep: Bytes, ghost b: nat)
    requires c.pageSize >= 256 && SameKind(donorPage, recipientPage)
    requires SlotsFit(c, donorPage) && SlotsFit(c, recipientPage) && KeyFits(c, parentKey)
    requires Underfull(c, recipientPage) && !Overfull(c, donorPage)
    requires if donorPage.Leaf? then !Underfull(c, donorPage) && Count(recipientPage) >= 1 else Count(donorPage) >= 1
    ensures SameKind(donor, recipient) && donor.Leaf? == donorPage.Leaf?
    ensures var l, r := if donorIsLeft then donorPage else recipientPage, if donorIsLeft then recipientPage else donorPage;
      var j := JoinBody(l, parentKey, r);
      && (ok <==> CanRedistribute(c, j, Count(l), RightLink(l), donorIsLeft))
      && (ok ==>
            && CutAt(j, b, RightLink(l), if donorIsLeft then donor else recipient, sep, if donorIsLeft then recipient else donor, true)
            && !Underfull(c, donor) && !Underfull(c, recipient) && !Overfull(c, donor) && !Overfull(c, recipient)
            && NoSlotTooMany(c, j, b, RightLink(l), donorIsLeft)
            && (if donorIsLeft then b < Count(l) else b > Count(l)))
      && (!ok ==> donor == donorPage && recipient == recipientPage && sep == parentKey)
      && (!ok && (donorPage.Leaf? || c.strict) ==> PageSize(j) <= c.pageSize)
  {
    hide SlotsFit, KeyFits, Overfull, Underfull, JoinBody, CutLBody, CutRBody, CutKeyOf, Resolves, NoSlotTooMany;
    donor, recipient, sep := donorPage, recipientPage, parentKey;
    ghost var l, r := if donorIsLeft then donorPage else recipientPage, if donorIsLeft then recipientPage else donorPage;
    ghost var j, rid, moved := JoinBody(l, parentKey, r), RightLink(l), false;
    if donorPage.Leaf? { TwoEntries(c, donorPage); }
    JoinIsCut(l, parentKey, r);
    JoinFits(c, l, parentKey, r);
    JoinKind(l, parentKey, r);
    b := Count(l);
    while Underfull(c, recipient)
      invariant SameKind(donor, recipient) && donor.Leaf? == donorPage.Leaf?
      invariant if donorIsLeft then CutAt(j, b, rid, donor, sep, recipient, moved) else CutAt(j, b, rid, recipient, sep, donor, moved)
      invariant !moved ==> Underfull(c, recipient) && b == Count(l)
      invariant moved ==> !Underfull(c, donor) && !Overfull(c, recipient) && if donorIsLeft then b < Count(l) else b > Count(l)
      invariant moved ==> NoSlotTooMany(c, j, b, rid, donorIsLeft)
      invariant !Overfull(c, donor)
      invariant Count(donor) >= 1 && (donor.Leaf? ==> Count(donor) >= 2)
      decreases Count(donor)
    {
      ghost var was := b;
      CutParts(j, b, rid, if donorIsLeft then donor else recipient, sep, if donorIsLeft then recipient else donor, moved);
      donor, recipient, sep, b := MoveOne(donor, recipient, sep, donorIsLeft, j, b, rid, moved);
      CutParts(j, b, rid, if donorIsLeft then donor else recipient, sep, if donorIsLeft then recipient else donor, true);
      MoveSizes(c, j, was, b, rid, donorIsLeft);
      OneBack(c, j, was, b, rid, donorIsLeft);
      moved := true;
      if Underfull(c, donor) {
        StuckForGood(c, j, Count(l), was, b, rid, donorIsLeft);
        if donor.Leaf? || c.strict { StuckMeansMergeable(c, j, was, b, rid, donorIsLeft); }
        return false, donorPage, recipientPage, parentKey, b;
      }
      NotUnderfull(c, j, b, rid, donorIsLeft, donor);
    }
    CutParts(j, b, rid, if donorIsLeft then donor else recipient, sep, if donorIsLeft then recipient else donor, moved);
    ItResolves(c, j, Count(l), b, rid, donorIsLeft);
    ok := true;
  }

  lemma JoinKind(l: Body, sep: Bytes, r: Body)
    requires SameKind(l, r)
    ensures JoinBody(l, sep, r).Leaf? == l.Leaf? && !JoinBody(l, sep, r).Freelist?
  {
  }

  lemma CutParts(j: Body, b: nat, rid: nat, l: Body, sep: Bytes, r: Body, moved: bool)
    requires CutAt(j, b, rid, l, sep, r, moved)
    ensures !j.Freelist? && b < Count(j) && l == CutLBody(j, b, rid) && r == CutRBody(j, b)
    ensures l.Leaf? == j.Leaf? && r.Leaf? == j.Leaf?
  {
  }

  lemma OneBack(c: Config, j: Body, was: nat, b: nat, rid: nat, donorIsLeft: bool)
    requires !j.Freelist? && was < Count(j) && b < Count(j) && b == if donorIsLeft then was - 1 else was + 1
    requires Underfull(c, if donorIsLeft then CutRBody(j, was) else CutLBody(j, was, rid))
    ensures NoSlotTooMany(c, j, b, rid, donorIsLeft)
  {
  }

  lemma NotUnderfull(c: Config, j: Body, b: nat, rid: nat, donorIsLeft: bool, donor: Body)
    requires c.pageSize >= 256 && !j.Freelist? && b < Count(j) && SlotsFit(c, j)
    requires donor == if donorIsLeft then CutLBody(j, b, rid) else CutRBody(j, b)
    requires !Underfull(c, donor)
    ensures Count(donor) >= 1 && (donor.Leaf? ==> Count(donor) >= 2)
  {
    CutKeepsFit(c, j, b, rid);
    if donor.Leaf? { TwoEntries(c, donor); }
  }

  lemma ItResolves(c: Config, j: Body, b0: nat, b: nat, rid: nat, donorIsLeft: bool)
    requires !j.Freelist? && b < Count(j) && if donorIsLeft then b < b0 else b > b0
    requires !Underfull(c, CutLBody(j, b, rid)) && !Underfull(c, CutRBody(j, b))
    ensures CanRedistribute(c, j, b0, rid, donorIsLeft)
  {
    assert Resolves(c, j, b0, b, rid, donorIsLeft);
  }
}
