/** The on-disk form of pages: slotted tree pages and flat freelist pages. */
module Codec {
  import opened Bytes
  import opened Entities

  datatype Option<+T> = None | Some(value: T)

  // ---- fixed-width little-endian fields ----

  function Pow256(w: nat): nat { if w == 0 then 1 else 256 * Pow256(w - 1) }

  function LE(n: nat, w: nat): (r: Bytes)
    ensures |r| == w
  {
    if w == 0 then [] else [n % 256] + LE(n / 256, w - 1)
  }

  function FromLE(b: Bytes): nat
  {
    if b == [] then 0 else b[0] + 256 * FromLE(b[1..])
  }

  const U32: nat := 0x1_0000_0000
  const U64: nat := 0x1_0000_0000_0000_0000

  lemma {:induction false} LERoundTrip(n: nat, w: nat)
    requires n < Pow256(w)
    ensures FromLE(LE(n, w)) == n
  {
    if w > 0 {
      LERoundTrip(n / 256, w - 1);
      assert LE(n, w)[1..] == LE(n / 256, w - 1);
    }
  }

  lemma {:induction false} FromLEBound(b: Bytes)
    ensures FromLE(b) < Pow256(|b|)
  {
    if b != [] { FromLEBound(b[1..]); }
  }

  /** Every decoded page's LSN fits its field. */
  lemma DecodedLsn(data: Bytes)
    ensures DecodedPage(data).Some? ==> DecodedPage(data).value.lsn < U64
  {
    hide FromLE, ReadInternalSlots, ReadLeafSlots, ReadIds;
    if |data| >= PAGE_HEADER_SIZE {
      FromLEBound(data[16..24]);
      Widths();
    }
  }

  lemma Widths()
    ensures Pow256(4) == U32 && Pow256(8) == U64
  {
    assert Pow256(2) == 65536;
    assert Pow256(3) == 256 * Pow256(2);
    assert Pow256(4) == 256 * Pow256(3);
    assert Pow256(5) == 256 * Pow256(4);
    assert Pow256(6) == 256 * Pow256(5);
    assert Pow256(7) == 256 * Pow256(6);
  }

  /** `struct.unpack_from` of one unsigned field: fails when the buffer is too short. */
  function ReadLE(data: Bytes, offset: nat, w: nat): Option<nat>
  {
    if offset + w <= |data| then Some(FromLE(data[offset..offset + w])) else None
  }

  /** Python's slice `data[offset : offset + length]`, clipped to the buffer. */
  function Slice(data: Bytes, offset: nat, length: nat): Bytes
  {
    var lo := if offset <= |data| then offset else |data|;
    var hi := if offset + length <= |data| then offset + length else |data|;
    data[lo..hi]
  }

  function Zeros(n: nat): (r: Bytes)
    ensures |r| == n
  {
    seq(n, i => 0)
  }

  /** A field written anywhere in a buffer reads back. */
  lemma ReadBack(pre: Bytes, n: nat, w: nat, post: Bytes)
    requires n < Pow256(w)
    ensures ReadLE(pre + LE(n, w) + post, |pre|, w) == Some(n)
  {
    LERoundTrip(n, w);
    assert (pre + LE(n, w) + post)[|pre|..|pre| + w] == LE(n, w);
  }

  // ---- records ----

  function LengthPrefixed(b: Bytes): Bytes { LE(|b|, 4) + b }

  function InternalRecord(s: InternalSlot): Bytes { LengthPrefixed(s.key) + LE(s.child, 8) }

  function LeafRecord(s: LeafSlot): Bytes { LengthPrefixed(s.key) + LengthPrefixed(s.value) }

  function ReadPrefixed(data: Bytes, offset: nat): Option<Bytes>
  {
    match ReadLE(data, offset, 4)
    case None => None
    case Some(n) => Some(Slice(data, offset + 4, n))
  }

  function ReadInternalRecord(rec: Bytes): Option<InternalSlot>
  {
    match ReadLE(rec, 0, 4)
    case None => None
    case Some(n) =>
      match ReadLE(rec, 4 + n, 8)
      case None => None
      case Some(child) => Some(InternalSlot(Slice(rec, 4, n), child))
  }

  function ReadLeafRecord(rec: Bytes): Option<LeafSlot>
  {
    match ReadLE(rec, 0, 4)
    case None => None
    case Some(n) =>
      match ReadLE(rec, 4 + n, 4)
      case None => None
      case Some(m) => Some(LeafSlot(Slice(rec, 4, n), Slice(rec, 8 + n, m)))
  }

  lemma InternalRecordRoundTrip(s: InternalSlot)
    requires |s.key| < U32 && s.child < U64
    ensures ReadInternalRecord(InternalRecord(s)) == Some(s)
  {
    hide LE, FromLE, Pow256;
    Widths();
    var rec := InternalRecord(s);
    ReadBack([], |s.key|, 4, s.key + LE(s.child, 8));
    assert rec == [] + LE(|s.key|, 4) + (s.key + LE(s.child, 8));
    ReadBack(LE(|s.key|, 4) + s.key, s.child, 8, []);
    assert rec == (LE(|s.key|, 4) + s.key) + LE(s.child, 8) + [];
    assert rec[4..4 + |s.key|] == s.key;
  }

  lemma LeafRecordRoundTrip(s: LeafSlot)
    requires |s.key| < U32 && |s.value| < U32
    ensures ReadLeafRecord(LeafRecord(s)) == Some(s)
  {
    hide LE, FromLE, Pow256;
    Widths();
    var rec := LeafRecord(s);
    ReadBack([], |s.key|, 4, s.key + LengthPrefixed(s.value));
    assert rec == [] + LE(|s.key|, 4) + (s.key + LengthPrefixed(s.value));
    ReadBack(LE(|s.key|, 4) + s.key, |s.value|, 4, s.value);
    assert rec == (LE(|s.key|, 4) + s.key) + LE(|s.value|, 4) + s.value;
    assert rec[4..4 + |s.key|] == s.key;
    assert rec[8 + |s.key|..8 + |s.key| + |s.value|] == s.value;
  }

  // ---- the slotted layout ----

  function InternalRecords(s: seq<InternalSlot>): (r: seq<Bytes>)
    ensures |r| == |s|
  {
    seq(|s|, i requires 0 <= i < |s| => InternalRecord(s[i]))
  }

  function LeafRecords(s: seq<LeafSlot>): (r: seq<Bytes>)
    ensures |r| == |s|
  {
    seq(|s|, i requires 0 <= i < |s| => LeafRecord(s[i]))
  }

  /** Records packed backward from the end of the page: the last slot's record comes first. */
  function Packed(recs: seq<Bytes>): Bytes
  {
    if recs == [] then [] else recs[|recs| - 1] + Packed(recs[..|recs| - 1])
  }

  /** The slot directory: (offset, length) of each record. */
  function Directory(recs: seq<Bytes>, pageSize: nat): (r: Bytes)
    requires |Packed(recs)| <= pageSize
    ensures |r| == 8 * |recs|
  {
    if recs == [] then [] else
      Directory(recs[..|recs| - 1], pageSize) + LE(pageSize - |Packed(recs)|, 4) + LE(|recs[|recs| - 1]|, 4)
  }

  function Header(tag: byte, count: nat, freeStart: nat, freeEnd: nat, lsn: nat, idField: nat): (r: Bytes)
    ensures |r| == PAGE_HEADER_SIZE
  {
    [tag, 0, 0, 0] + LE(count, 4) + LE(freeStart, 4) + LE(freeEnd, 4) + LE(lsn, 8) + LE(idField, 8)
  }

  const INTERNAL_TAG: byte := 1
  const LEAF_TAG: byte := 2
  const FREELIST_TAG: byte := 3

  function SlottedPage(tag: byte, lsn: nat, idField: nat, recs: seq<Bytes>, pageSize: nat): (r: Bytes)
    requires PAGE_HEADER_SIZE + 8 * |recs| + |Packed(recs)| <= pageSize
    ensures |r| == pageSize
  {
    var start := PAGE_HEADER_SIZE + 8 * |recs|;
    var end := pageSize - |Packed(recs)|;
    Header(tag, |recs|, start, end, lsn, idField) + Directory(recs, pageSize) + Zeros(end - start) + Packed(recs)
  }

  function IdList(ids: seq<nat>): (r: Bytes)
    ensures |r| == 8 * |ids|
  {
    if ids == [] then [] else IdList(ids[..|ids| - 1]) + LE(ids[|ids| - 1], 8)
  }

  // ---- pages ----

  /** What `struct.pack` and the page size demand of a page. */
  ghost predicate Encodable(p: Page, pageSize: nat)
  {
    && pageSize < U32 && p.lsn < U64
    && PageSize(p.body) <= pageSize
    && match p.body {
         case Internal(leftmost, slots) =>
           leftmost < U64 && forall i :: 0 <= i < |slots| ==> slots[i].child < U64
         case Leaf(right, entries) => right < U64
         case Freelist(next, freed) => next < U64 && forall i :: 0 <= i < |freed| ==> freed[i] < U64
       }
  }

  lemma {:induction false} PackedInternal(s: seq<InternalSlot>)
    ensures 8 * |s| + |Packed(InternalRecords(s))| == InternalSum(s)
  {
    if s != [] {
      PackedInternal(s[..|s| - 1]);
      assert InternalRecords(s)[..|s| - 1] == InternalRecords(s[..|s| - 1]);
    }
  }

  lemma {:induction false} PackedLeaf(s: seq<LeafSlot>)
    ensures 8 * |s| + |Packed(LeafRecords(s))| == LeafSum(s)
  {
    if s != [] {
      PackedLeaf(s[..|s| - 1]);
      assert LeafRecords(s)[..|s| - 1] == LeafRecords(s[..|s| - 1]);
    }
  }

  ghost function EncodedPage(p: Page, pageSize: nat): (r: Bytes)
    requires PageSize(p.body) <= pageSize
    ensures |r| == pageSize
  {
    match p.body
    case Internal(leftmost, slots) =>
      PackedInternal(slots);
      SlottedPage(INTERNAL_TAG, p.lsn, leftmost, InternalRecords(slots), pageSize)
    case Leaf(right, entries) =>
      PackedLeaf(entries);
      SlottedPage(LEAF_TAG, p.lsn, right, LeafRecords(entries), pageSize)
    case Freelist(next, freed) =>
      Header(FREELIST_TAG, |freed|, 0, 0, p.lsn, next) + IdList(freed) + Zeros(pageSize - 32 - 8 * |freed|)
  }

  /** The record the `i`-th directory entry points at. */
  function RecordAt(data: Bytes, i: nat): Option<Bytes>
  {
    match ReadLE(data, PAGE_HEADER_SIZE + 8 * i, 4)
    case None => None
    case Some(offset) =>
      match ReadLE(data, PAGE_HEADER_SIZE + 8 * i + 4, 4)
      case None => None
      case Some(length) => Some(Slice(data, offset, length))
  }

  /** The first `n` slots of a page, or None where the source raises. */
  function ReadInternalSlots(data: Bytes, n: nat): (r: Option<seq<InternalSlot>>)
  {
    if n == 0 then Some([]) else
      match ReadInternalSlots(data, n - 1)
      case None => None
      case Some(front) =>
        match RecordAt(data, n - 1)
        case None => None
        case Some(rec) =>
          match ReadInternalRecord(rec)
          case None => None
          case Some(s) => Some(front + [s])
  }

  function ReadLeafSlots(data: Bytes, n: nat): (r: Option<seq<LeafSlot>>)
  {
    if n == 0 then Some([]) else
      match ReadLeafSlots(data, n - 1)
      case None => None
      case Some(front) =>
        match RecordAt(data, n - 1)
        case None => None
        case Some(rec) =>
          match ReadLeafRecord(rec)
          case None => None
          case Some(s) => Some(front + [s])
  }

  function ReadIds(data: Bytes, n: nat): (r: Option<seq<nat>>)
  {
    if n == 0 then Some([]) else
      match ReadIds(data, n - 1)
      case None => None
      case Some(front) =>
        match ReadLE(data, PAGE_HEADER_SIZE + 8 * (n - 1), 8)
        case None => None
        case Some(id) => Some(front + [id])
  }

  /** `decode_page`; None stands for the exceptions it raises on malformed input. */
  function DecodedPage(data: Bytes): Option<Page>
  {
    if |data| < PAGE_HEADER_SIZE then None else
      var count := FromLE(data[4..8]);
      var lsn := FromLE(data[16..24]);
      var idField := FromLE(data[24..32]);
      if data[0] == INTERNAL_TAG then
        match ReadInternalSlots(data, count) { case None => None case Some(s) => Some(Page(lsn, Internal(idField, s))) }
      else if data[0] == LEAF_TAG then
        match ReadLeafSlots(data, count) { case None => None case Some(s) => Some(Page(lsn, Leaf(idField, s))) }
      else if data[0] == FREELIST_TAG then
        match ReadIds(data, count) { case None => None case Some(ids) => Some(Page(lsn, Freelist(idField, ids))) }
      else None
  }

  // ---- the round trip ----

  lemma HeaderReads(tag: byte, count: nat, a: nat, b: nat, lsn: nat, idField: nat, rest: Bytes)
    requires count < U32 && lsn < U64 && idField < U64
    ensures var data := Header(tag, count, a, b, lsn, idField) + rest;
      && data[0] == tag && FromLE(data[4..8]) == count && FromLE(data[16..24]) == lsn && FromLE(data[24..32]) == idField
  {
    hide LE, FromLE;
    Widths();
    hide Pow256;
    LERoundTrip(count, 4);
    LERoundTrip(lsn, 8);
    LERoundTrip(idField, 8);
    var data := Header(tag, count, a, b, lsn, idField) + rest;
    assert data[4..8] == LE(count, 4);
    assert data[16..24] == LE(lsn, 8);
    assert data[24..32] == LE(idField, 8);
  }

  /** The records of the first `i` slots are the end of the packed area. */
  lemma {:induction false} PackedSuffix(recs: seq<Bytes>, i: nat)
    requires i <= |recs|
    ensures |Packed(recs[..i])| <= |Packed(recs)|
    ensures Packed(recs)[|Packed(recs)| - |Packed(recs[..i])|..] == Packed(recs[..i])
    decreases |recs|
  {
    if i == |recs| {
      assert recs[..i] == recs;
    } else {
      var front := recs[..|recs| - 1];
      PackedSuffix(front, i);
      assert front[..i] == recs[..i];
    }
  }

  lemma {:induction false} DirectoryPrefix(recs: seq<Bytes>, pageSize: nat, i: nat)
    requires |Packed(recs)| <= pageSize && i <= |recs|
    ensures |Packed(recs[..i])| <= pageSize
    ensures Directory(recs, pageSize)[..8 * i] == Directory(recs[..i], pageSize)
    decreases |recs|
  {
    if i == |recs| {
      assert recs[..i] == recs;
    } else {
      var front := recs[..|recs| - 1];
      DirectoryPrefix(front, pageSize, i);
      assert front[..i] == recs[..i];
    }
  }

  /** Where directory entry `i` lies and what it says. */
  lemma DirectoryEntry(recs: seq<Bytes>, pageSize: nat, i: nat) returns (pre: Bytes, post: Bytes)
    requires |Packed(recs)| <= pageSize && i < |recs|
    ensures |pre| == 8 * i && |Packed(recs[..i + 1])| <= |Packed(recs)|
    ensures Directory(recs, pageSize) == pre + LE(pageSize - |Packed(recs[..i + 1])|, 4) + LE(|recs[i]|, 4) + post
  {
    hide LE;
    PackedSuffix(recs, i + 1);
    DirectoryPrefix(recs, pageSize, i + 1);
    DirectoryPrefix(recs, pageSize, i);
    assert recs[..i + 1][..i] == recs[..i];
    pre, post := Directory(recs[..i], pageSize), Directory(recs, pageSize)[8 * (i + 1)..];
  }

  lemma PackedFront(recs: seq<Bytes>, i: nat)
    requires i < |recs|
    ensures Packed(recs[..i + 1]) == recs[i] + Packed(recs[..i])
  {
    assert recs[..i + 1][..i] == recs[..i];
  }

  /** Directory entry `i` holds offset and length of record `i`, and there the record is. */
  ghost predicate PointsAt(data: Bytes, i: nat, offset: nat, record: Bytes)
  {
    && PAGE_HEADER_SIZE + 8 * i + 8 <= |data| && offset + |record| <= |data|
    && FromLE(data[PAGE_HEADER_SIZE + 8 * i..PAGE_HEADER_SIZE + 8 * i + 4]) == offset
    && FromLE(data[PAGE_HEADER_SIZE + 8 * i + 4..PAGE_HEADER_SIZE + 8 * i + 8]) == |record|
    && data[offset..offset + |record|] == record
  }

  lemma RecordPlace(head: Bytes, recs: seq<Bytes>, gap: Bytes, pageSize: nat, i: nat)
    requires |head| == PAGE_HEADER_SIZE && i < |recs| && |Packed(recs)| <= pageSize < U32
    requires PAGE_HEADER_SIZE + 8 * |recs| + |gap| + |Packed(recs)| == pageSize
    ensures |Packed(recs[..i + 1])| <= pageSize
    ensures PointsAt(head + Directory(recs, pageSize) + gap + Packed(recs), i, pageSize - |Packed(recs[..i + 1])|, recs[i])
  {
    hide LE, FromLE, Directory, Packed;
    var dir, packed := Directory(recs, pageSize), Packed(recs);
    var data := head + dir + gap + packed;
    var upto := recs[..i + 1];
    var pre, post := DirectoryEntry(recs, pageSize, i);
    PackedSuffix(recs, i + 1);
    PackedFront(recs, i);
    var offset, length := pageSize - |Packed(upto)|, |recs[i]|;
    EntryReads(head + pre, offset, length, post + gap + packed);
    assert data == (head + pre) + LE(offset, 4) + LE(length, 4) + (post + gap + packed);
    assert data[offset..] == packed[|packed| - |Packed(upto)|..];
    assert data[offset..offset + length] == data[offset..][..length];
  }

  /** Directory entry `i` leads back to record `i`, so no two records and no entry overlap. */
  lemma RecordAtReads(head: Bytes, recs: seq<Bytes>, gap: Bytes, pageSize: nat, i: nat)
    requires |head| == PAGE_HEADER_SIZE && i < |recs| && |Packed(recs)| <= pageSize < U32
    requires PAGE_HEADER_SIZE + 8 * |recs| + |gap| + |Packed(recs)| == pageSize
    ensures RecordAt(head + Directory(recs, pageSize) + gap + Packed(recs), i) == Some(recs[i])
  {
    hide LE, FromLE, Directory, Packed;
    RecordPlace(head, recs, gap, pageSize, i);
  }

  lemma EntryReads(pre: Bytes, a: nat, b: nat, post: Bytes)
    requires a < U32 && b < U32
    ensures ReadLE(pre + LE(a, 4) + LE(b, 4) + post, |pre|, 4) == Some(a)
    ensures ReadLE(pre + LE(a, 4) + LE(b, 4) + post, |pre| + 4, 4) == Some(b)
  {
    hide LE, FromLE, ReadLE;
    Widths();
    hide Pow256;
    var data := pre + LE(a, 4) + LE(b, 4) + post;
    ReadBack(pre, a, 4, LE(b, 4) + post);
    assert data == pre + LE(a, 4) + (LE(b, 4) + post);
    ReadBack(pre + LE(a, 4), b, 4, post);
  }

  lemma {:induction false} InternalSlotsRead(data: Bytes, slots: seq<InternalSlot>, n: nat)
    requires n <= |slots|
    requires forall i :: 0 <= i < n ==> RecordAt(data, i) == Some(InternalRecord(slots[i]))
    requires forall i :: 0 <= i < n ==> |slots[i].key| < U32 && slots[i].child < U64
    ensures ReadInternalSlots(data, n) == Some(slots[..n])
  {
    hide FromLE, LE, RecordAt, ReadInternalRecord, InternalRecord;
    if n > 0 {
      InternalSlotsRead(data, slots, n - 1);
      InternalRecordRoundTrip(slots[n - 1]);
      assert slots[..n] == slots[..n - 1] + [slots[n - 1]];
    }
  }

  lemma {:induction false} LeafSlotsRead(data: Bytes, entries: seq<LeafSlot>, n: nat)
    requires n <= |entries|
    requires forall i :: 0 <= i < n ==> RecordAt(data, i) == Some(LeafRecord(entries[i]))
    requires forall i :: 0 <= i < n ==> |entries[i].key| < U32 && |entries[i].value| < U32
    ensures ReadLeafSlots(data, n) == Some(entries[..n])
  {
    hide FromLE, LE, RecordAt, ReadLeafRecord, LeafRecord;
    if n > 0 {
      LeafSlotsRead(data, entries, n - 1);
      LeafRecordRoundTrip(entries[n - 1]);
      assert entries[..n] == entries[..n - 1] + [entries[n - 1]];
    }
  }

  lemma {:induction false} IdsRead(head: Bytes, ids: seq<nat>, n: nat, post: Bytes)
    requires |head| == PAGE_HEADER_SIZE && n <= |ids|
    requires forall i :: 0 <= i < |ids| ==> ids[i] < U64
    ensures ReadIds(head + IdList(ids) + post, n) == Some(ids[..n])
  {
    hide FromLE, LE, IdList;
    if n > 0 {
      IdsRead(head, ids, n - 1, post);
      IdAt(ids, n - 1);
      var data := head + IdList(ids) + post;
      var pre, rest := head + IdList(ids[..n - 1]), IdList(ids)[8 * n..] + post;
      assert data == pre + LE(ids[n - 1], 8) + rest;
      Widths();
      ReadBack(pre, ids[n - 1], 8, rest);
      assert ids[..n] == ids[..n - 1] + [ids[n - 1]];
    }
  }

  lemma IdAt(ids: seq<nat>, i: nat)
    requires i < |ids|
    ensures |IdList(ids)| == 8 * |ids|
    ensures IdList(ids) == IdList(ids[..i]) + LE(ids[i], 8) + IdList(ids)[8 * (i + 1)..]
  {
    hide LE;
    IdListSplit(ids, i + 1);
    assert ids[..i + 1][..i] == ids[..i];
  }

  lemma {:induction false} IdListSplit(ids: seq<nat>, n: nat)
    requires n <= |ids|
    ensures IdList(ids)[..8 * n] == IdList(ids[..n])
    decreases |ids|
  {
    if n == |ids| {
      assert ids[..n] == ids;
    } else {
      IdListSplit(ids[..|ids| - 1], n);
      assert ids[..|ids| - 1][..n] == ids[..n];
    }
  }

  lemma {:induction false} SlotBelowSumI(s: seq<InternalSlot>, i: nat)
    requires i < |s|
    ensures InternalSlotSize(s[i]) <= InternalSum(s) && 20 * |s| <= InternalSum(s)
    decreases |s|
  {
    if i < |s| - 1 { SlotBelowSumI(s[..|s| - 1], i); } else if |s| > 1 { SlotBelowSumI(s[..|s| - 1], 0); }
  }

  lemma {:induction false} SlotBelowSumL(s: seq<LeafSlot>, i: nat)
    requires i < |s|
    ensures LeafSlotSize(s[i]) <= LeafSum(s) && 16 * |s| <= LeafSum(s)
    decreases |s|
  {
    if i < |s| - 1 { SlotBelowSumL(s[..|s| - 1], i); } else if |s| > 1 { SlotBelowSumL(s[..|s| - 1], 0); }
  }

  lemma InternalPageReads(p: Page, pageSize: nat)
    requires p.body.Internal? && Encodable(p, pageSize)
    ensures DecodedPage(EncodedPage(p, pageSize)) == Some(p)
  {
    hide LE, FromLE, Packed, Directory, Header, Zeros, RecordAt, ReadInternalSlots, InternalRecord;
    var slots, recs := p.body.slots, InternalRecords(p.body.slots);
    PackedInternal(slots);
    if slots != [] { SlotBelowSumI(slots, 0); }
    var start, end := PAGE_HEADER_SIZE + 8 * |recs|, pageSize - |Packed(recs)|;
    var head, gap := Header(INTERNAL_TAG, |recs|, start, end, p.lsn, p.body.leftmost), Zeros(end - start);
    var data := head + Directory(recs, pageSize) + gap + Packed(recs);
    HeaderReads(INTERNAL_TAG, |recs|, start, end, p.lsn, p.body.leftmost, Directory(recs, pageSize) + gap + Packed(recs));
    assert data == head + (Directory(recs, pageSize) + gap + Packed(recs));
    forall i | 0 <= i < |slots|
      ensures RecordAt(data, i) == Some(InternalRecord(slots[i])) && |slots[i].key| < U32
    {
      RecordAtReads(head, recs, gap, pageSize, i);
      SlotBelowSumI(slots, i);
    }
    InternalSlotsRead(data, slots, |slots|);
    assert slots[..|slots|] == slots;
  }

  lemma LeafPageReads(p: Page, pageSize: nat)
    requires p.body.Leaf? && Encodable(p, pageSize)
    ensures DecodedPage(EncodedPage(p, pageSize)) == Some(p)
  {
    hide LE, FromLE, Packed, Directory, Header, Zeros, RecordAt, ReadLeafSlots, LeafRecord;
    var entries, recs := p.body.entries, LeafRecords(p.body.entries);
    PackedLeaf(entries);
    if entries != [] { SlotBelowSumL(entries, 0); }
    var start, end := PAGE_HEADER_SIZE + 8 * |recs|, pageSize - |Packed(recs)|;
    var head, gap := Header(LEAF_TAG, |recs|, start, end, p.lsn, p.body.right), Zeros(end - start);
    var data := head + Directory(recs, pageSize) + gap + Packed(recs);
    HeaderReads(LEAF_TAG, |recs|, start, end, p.lsn, p.body.right, Directory(recs, pageSize) + gap + Packed(recs));
    assert data == head + (Directory(recs, pageSize) + gap + Packed(recs));
    forall i | 0 <= i < |entries|
      ensures RecordAt(data, i) == Some(LeafRecord(entries[i])) && |entries[i].key| < U32 && |entries[i].value| < U32
    {
      RecordAtReads(head, recs, gap, pageSize, i);
      SlotBelowSumL(entries, i);
    }
    LeafSlotsRead(data, entries, |entries|);
    assert entries[..|entries|] == entries;
  }

  lemma FreelistPageReads(p: Page, pageSize: nat)
    requires p.body.Freelist? && Encodable(p, pageSize)
    ensures DecodedPage(EncodedPage(p, pageSize)) == Some(p)
  {
    hide LE, FromLE, Header, Zeros, ReadIds, IdList;
    var ids := p.body.freed;
    var head, post := Header(FREELIST_TAG, |ids|, 0, 0, p.lsn, p.body.next), Zeros(pageSize - 32 - 8 * |ids|);
    var data := head + IdList(ids) + post;
    HeaderReads(FREELIST_TAG, |ids|, 0, 0, p.lsn, p.body.next, IdList(ids) + post);
    assert data == head + (IdList(ids) + post);
    IdsRead(head, ids, |ids|, post);
    assert ids[..|ids|] == ids;
  }

  /** Every page the engine may write reads back as itself, and its image is exactly one page long. */
  lemma PageRoundTrip(p: Page, pageSize: nat)
    requires Encodable(p, pageSize)
    ensures |EncodedPage(p, pageSize)| == pageSize
    ensures DecodedPage(EncodedPage(p, pageSize)) == Some(p)
  {
    hide DecodedPage;
    match p.body
    case Internal(_, _) => InternalPageReads(p, pageSize);
    case Leaf(_, _) => LeafPageReads(p, pageSize);
    case Freelist(_, _) => FreelistPageReads(p, pageSize);
  }
}
