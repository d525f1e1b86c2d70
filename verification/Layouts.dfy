/** Where each field of a page, of the meta page and of a log record lies in its image. */
module Layouts {
  import opened Bytes
  import opened Entities
  import opened Codec
  import opened MetaCodec
  import opened WalCodec

  /** The byte of weight 256^i comes at position i. */
  lemma {:induction false} LittleEndian(n: nat, w: nat, i: nat)
    requires i < w
    ensures Pow256(i) > 0 && LE(n, w)[i] == n / Pow256(i) % 256
  {
    if i > 0 {
      LittleEndian(n / 256, w - 1, i - 1);
      DividedTwice(n, 256, Pow256(i - 1));
    }
  }

  lemma DividedTwice(n: nat, a: nat, b: nat)
    requires a > 0 && b > 0
    ensures a * b > 0 && n / a / b == n / (a * b)
  {
    Positive(a, b);
    var m := n / a;
    Composed(n, a, b, m, n % a, m / b, m % b, n / (a * b), n % (a * b));
  }

  lemma Positive(a: nat, b: nat)
    requires a > 0 && b > 0
    ensures a * b > 0
  {
  }

  /** Quotient and remainder by `a * b`, from those by `a` and then by `b`. */
  lemma Composed(n: nat, a: nat, b: nat, m: nat, s: nat, q: nat, r: nat, p: nat, t: nat)
    requires s < a && r < b && n == a * m + s && m == b * q + r && t < a * b && n == (a * b) * p + t
    ensures q == p
  {
    var c, d := a * b, a * r + s;
    Rest(a, b, r, s);
    Associate(a, b, q, r);
    assert n == c * q + d;
    SameQuotient(c, q, d, p, t);
  }

  lemma Rest(a: nat, b: nat, r: nat, s: nat)
    requires s < a && r < b
    ensures a * r + s < a * b
  {
    Grows(a, r + 1, b);
    assert a * (r + 1) == a * r + a;
  }

  lemma {:induction false} Grows(a: nat, x: nat, y: nat)
    requires x <= y
    ensures a * x <= a * y
  {
    if x < y {
      Grows(a, x, y - 1);
      assert a * y == a * (y - 1) + a;
    }
  }

  lemma Associate(a: nat, b: nat, q: nat, r: nat)
    ensures a * (b * q + r) == (a * b) * q + a * r
  {
  }

  lemma SameQuotient(d: nat, q: nat, r: nat, p: nat, t: nat)
    requires r < d && t < d && d * q + r == d * p + t
    ensures q == p
  {
    NextMultiple(d, q, p);
    NextMultiple(d, p, q);
  }

  lemma NextMultiple(d: nat, x: nat, y: nat)
    ensures x < y ==> d * x + d <= d * y
  {
    if x < y {
      Grows(d, x + 1, y);
      assert d * (x + 1) == d * x + d;
    }
  }

  // ---- pages ----

  function TypeTag(b: Body): byte
  {
    match b
    case Internal(_, _) => 1
    case Leaf(_, _) => 2
    case Freelist(_, _) => 3
  }

  function Entries(b: Body): nat
  {
    match b
    case Internal(_, slots) => |slots|
    case Leaf(_, entries) => |entries|
    case Freelist(_, freed) => |freed|
  }

  /** The leftmost child of an internal page, the right sibling of a leaf, the next page of the freelist. */
  function IdField(b: Body): nat
  {
    match b
    case Internal(leftmost, _) => leftmost
    case Leaf(right, _) => right
    case Freelist(next, _) => next
  }

  function FreeStart(b: Body): nat { if b.Freelist? then 0 else PAGE_HEADER_SIZE + SLOT_ENTRY_SIZE * Entries(b) }

  function FreeEnd(b: Body, pageSize: nat): int { if b.Freelist? then 0 else pageSize - (BodySum(b) - SLOT_ENTRY_SIZE * Entries(b)) }

  lemma HeaderFields(tag: byte, count: nat, a: nat, b: nat, lsn: nat, idField: nat, data: Bytes)
    requires count < U32 && a < U32 && b < U32 && lsn < U64 && idField < U64 && Header(tag, count, a, b, lsn, idField) <= data
    ensures data[0] == tag && data[1..4] == [0, 0, 0]
    ensures FromLE(data[4..8]) == count && FromLE(data[8..12]) == a && FromLE(data[12..16]) == b
    ensures FromLE(data[16..24]) == lsn && FromLE(data[24..32]) == idField
  {
    hide LE, FromLE;
    Widths();
    hide Pow256;
    LERoundTrip(count, 4);
    LERoundTrip(a, 4);
    LERoundTrip(b, 4);
    LERoundTrip(lsn, 8);
    LERoundTrip(idField, 8);
    var head := Header(tag, count, a, b, lsn, idField);
    assert data[..32] == head;
    forall i, j | 0 <= i <= j <= 32 ensures data[i..j] == head[i..j] {
      assert data[..32][i..j] == data[i..j];
    }
    assert head[4..8] == LE(count, 4) && head[8..12] == LE(a, 4) && head[12..16] == LE(b, 4);
    assert head[16..24] == LE(lsn, 8) && head[24..32] == LE(idField, 8);
  }

  /** The header says where the free space of a tree page begins and ends: after the directory, before the last record. */
  lemma PageHeader(p: Page, pageSize: nat)
    requires Encodable(p, pageSize)
    ensures var data := EncodedPage(p, pageSize);
      && data[0] == TypeTag(p.body) && data[1..4] == [0, 0, 0] && FromLE(data[4..8]) == Entries(p.body)
      && FromLE(data[8..12]) == FreeStart(p.body) && FromLE(data[12..16]) == FreeEnd(p.body, pageSize)
      && FromLE(data[16..24]) == p.lsn && FromLE(data[24..32]) == IdField(p.body)
  {
    hide LE, FromLE, Packed, Directory, Header, Zeros, IdList, InternalRecords, LeafRecords, InternalSum, LeafSum;
    var data := EncodedPage(p, pageSize);
    match p.body
    case Internal(leftmost, slots) =>
      PackedInternal(slots);
      HeaderFields(INTERNAL_TAG, |slots|, FreeStart(p.body), FreeEnd(p.body, pageSize), p.lsn, leftmost, data);
    case Leaf(right, entries) =>
      PackedLeaf(entries);
      HeaderFields(LEAF_TAG, |entries|, FreeStart(p.body), FreeEnd(p.body, pageSize), p.lsn, right, data);
    case Freelist(next, freed) =>
      HeaderFields(FREELIST_TAG, |freed|, 0, 0, p.lsn, next, data);
  }

  /** Records are packed from the end of the page, the first slot's last. */
  lemma LeafSlotPlace(p: Page, pageSize: nat, i: nat)
    requires p.body.Leaf? && Encodable(p, pageSize) && i < |p.body.entries|
    ensures LeafSum(p.body.entries[..i + 1]) <= pageSize + 8 * (i + 1)
    ensures PointsAt(EncodedPage(p, pageSize), i, pageSize + 8 * (i + 1) - LeafSum(p.body.entries[..i + 1]), LeafRecord(p.body.entries[i]))
  {
    hide LE, FromLE, Packed, Directory, Header, Zeros, LeafRecord, LeafSum, PointsAt;
    var entries, recs := p.body.entries, LeafRecords(p.body.entries);
    PackedLeaf(entries);
    PackedLeaf(entries[..i + 1]);
    assert LeafRecords(entries[..i + 1]) == recs[..i + 1];
    var start, end := PAGE_HEADER_SIZE + 8 * |recs|, pageSize - |Packed(recs)|;
    RecordPlace(Header(LEAF_TAG, |recs|, start, end, p.lsn, p.body.right), recs, Zeros(end - start), pageSize, i);
  }

  lemma InternalSlotPlace(p: Page, pageSize: nat, i: nat)
    requires p.body.Internal? && Encodable(p, pageSize) && i < |p.body.slots|
    ensures InternalSum(p.body.slots[..i + 1]) <= pageSize + 8 * (i + 1)
    ensures PointsAt(EncodedPage(p, pageSize), i, pageSize + 8 * (i + 1) - InternalSum(p.body.slots[..i + 1]), InternalRecord(p.body.slots[i]))
  {
    hide LE, FromLE, Packed, Directory, Header, Zeros, InternalRecord, InternalSum, PointsAt;
    var slots, recs := p.body.slots, InternalRecords(p.body.slots);
    PackedInternal(slots);
    PackedInternal(slots[..i + 1]);
    assert InternalRecords(slots[..i + 1]) == recs[..i + 1];
    var start, end := PAGE_HEADER_SIZE + 8 * |recs|, pageSize - |Packed(recs)|;
    RecordPlace(Header(INTERNAL_TAG, |recs|, start, end, p.lsn, p.body.leftmost), recs, Zeros(end - start), pageSize, i);
  }

  // ---- the meta page ----

  /** "BPTREEDB", version 1, the fields, and the checksum of all that; zeros up to the page size. */
  lemma MetaLayout(m: Meta)
    requires MetaEncodable(m)
    ensures var data := EncodedMeta(m);
      && data[..8] == [66, 80, 84, 82, 69, 69, 68, 66] && FromLE(data[8..12]) == 1
      && FromLE(data[12..16]) == m.pageSize == |data| && FromLE(data[16..24]) == m.root && FromLE(data[24..32]) == m.next
      && FromLE(data[32..40]) == m.freelistHead && FromLE(data[40..48]) == m.checkpointLsn
      && FromLE(data[48..52]) == Crc32(data[..48]) && data[52..] == Zeros(m.pageSize - 52)
  {
    hide LE, FromLE, Crc32;
    Widths();
    hide Pow256;
    var fields, data := MetaFields(m), EncodedMeta(m);
    FieldsRead(m, data[48..]);
    assert data == fields + data[48..];
    LERoundTrip(1, 4);
    assert data[8..12] == fields[8..12] == LE(1, 4);
    LERoundTrip(Crc32(fields), 4);
    assert data[..48] == fields && data[48..52] == LE(Crc32(fields), 4);
  }

  lemma {:induction false} FromLERoundTrip(b: Bytes)
    ensures LE(FromLE(b), |b|) == b
  {
    if b != [] {
      FromLERoundTrip(b[1..]);
      assert b == [b[0]] + b[1..];
    }
  }

  /** Exactly what is accepted as the meta page `m`: any version and any padding, but that prefix and that checksum. */
  lemma MetaDecodes(data: Bytes, m: Meta)
    ensures DecodedMeta(data) == Some(m) <==>
      && |data| >= 52 && m.pageSize < U32 && m.root < U64 && m.next < U64 && m.freelistHead < U64 && m.checkpointLsn < U64
      && data[..8] == [66, 80, 84, 82, 69, 69, 68, 66]
      && data[12..48] == LE(m.pageSize, 4) + LE(m.root, 8) + LE(m.next, 8) + LE(m.freelistHead, 8) + LE(m.checkpointLsn, 8)
      && data[48..52] == LE(Crc32(data[..48]), 4)
  {
    hide LE, FromLE, Crc32;
    Widths();
    hide Pow256;
    if |data| >= 52 {
      CrcField(data);
      FieldAt(data, 12, 4, m.pageSize);
      FieldAt(data, 16, 8, m.root);
      FieldAt(data, 24, 8, m.next);
      FieldAt(data, 32, 8, m.freelistHead);
      FieldAt(data, 40, 8, m.checkpointLsn);
      var a, b, c, d, e := LE(m.pageSize, 4), LE(m.root, 8), LE(m.next, 8), LE(m.freelistHead, 8), LE(m.checkpointLsn, 8);
      FiveFields(data, a, b, c, d, e);
    }
  }

  lemma FieldAt(data: Bytes, pos: nat, w: nat, n: nat)
    requires pos + w <= |data|
    ensures FromLE(data[pos..pos + w]) == n <==> n < Pow256(w) && data[pos..pos + w] == LE(n, w)
  {
    hide LE, FromLE, Pow256;
    FromLERoundTrip(data[pos..pos + w]);
    FromLEBound(data[pos..pos + w]);
    if n < Pow256(w) { LERoundTrip(n, w); }
  }

  lemma CrcField(data: Bytes)
    requires |data| >= 52
    ensures CrcMatches(data[..52]) <==> data[48..52] == LE(Crc32(data[..48]), 4)
  {
    hide LE, FromLE, Crc32;
    Widths();
    hide Pow256;
    FieldAt(data, 48, 4, Crc32(data[..48]));
    assert data[..52][..48] == data[..48] && data[..52][48..] == data[48..52];
  }

  lemma FiveFields(data: Bytes, a: Bytes, b: Bytes, c: Bytes, d: Bytes, e: Bytes)
    requires |data| >= 52 && |a| == 4 && |b| == |c| == |d| == |e| == 8
    ensures data[12..48] == a + b + c + d + e <==>
      data[12..16] == a && data[16..24] == b && data[24..32] == c && data[32..40] == d && data[40..48] == e
  {
    var all := a + b + c + d + e;
    assert data[12..48] == data[12..16] + data[16..24] + data[24..32] + data[32..40] + data[40..48];
    assert all[..4] == a && all[4..12] == b && all[12..20] == c && all[20..28] == d && all[28..36] == e;
    var part := data[12..48];
    assert part[..4] == data[12..16] && part[4..12] == data[16..24] && part[12..20] == data[24..32];
    assert part[20..28] == data[32..40] && part[28..36] == data[40..48];
  }

  /** What is decoded is of the kind the type byte names; other types are refused. */
  lemma DecodedKind(data: Bytes)
    ensures DecodedPage(data).Some? ==> |data| >= PAGE_HEADER_SIZE && data[0] == TypeTag(DecodedPage(data).value.body)
    ensures |data| >= 4 && DecodedRecord(data).Good? ==>
      && |data| >= 13 && CrcMatches(data) && data[12] == Tag(DecodedRecord(data).record) && FromLE(data[4..12]) == DecodedRecord(data).record.lsn
  {
    hide ReadInternalSlots, ReadLeafSlots, ReadIds, CrcMatches, FromLE, Slice;
  }

  // ---- log records ----

  /** Length prefix, LSN, type, payload, and the checksum of all that. */
  lemma RecordLayout(r: Record)
    requires RecordEncodable(r)
    ensures var data := EncodedRecord(r); var end := |data| - 4;
      && FromLE(data[..4]) == end && FromLE(data[4..12]) == r.lsn && data[13..end] == Payload(r)
      && data[12] == (match r { case PutRecord(_, _, _) => 1 case DeleteRecord(_, _) => 2 case CheckpointRecord(_, _, _, _) => 3 })
      && FromLE(data[end..]) == Crc32(data[..end])
  {
    hide LE, FromLE, Crc32, Payload;
    Widths();
    hide Pow256;
    var pre := LE(RecordLength(r), 4) + LE(r.lsn, 8) + [Tag(r)];
    var data := EncodedRecord(r);
    var covered := pre + Payload(r);
    LERoundTrip(RecordLength(r), 4);
    LERoundTrip(r.lsn, 8);
    LERoundTrip(Crc32(covered), 4);
    assert data == covered + LE(Crc32(covered), 4);
    assert data[..4] == LE(RecordLength(r), 4) && data[4..12] == LE(r.lsn, 8);
    assert data[..|data| - 4] == covered && data[|data| - 4..] == LE(Crc32(covered), 4);
  }

  /** A CHECKPOINT record holds root, freelist head and next page id, in this order. */
  lemma CheckpointLayout(r: Record)
    requires r.CheckpointRecord? && RecordEncodable(r)
    ensures var data := EncodedRecord(r);
      && |data| == 41 && FromLE(data[13..21]) == r.root && FromLE(data[21..29]) == r.freelistHead && FromLE(data[29..37]) == r.next
  {
    hide LE, FromLE, Crc32;
    Widths();
    hide Pow256;
    var data := EncodedRecord(r);
    LERoundTrip(r.root, 8);
    LERoundTrip(r.freelistHead, 8);
    LERoundTrip(r.next, 8);
    assert data[13..21] == LE(r.root, 8) && data[21..29] == LE(r.freelistHead, 8) && data[29..37] == LE(r.next, 8);
  }

  /** A PUT record holds key and value, each after its length; a DELETE record the key. */
  lemma KeyLayout(r: Record)
    requires !r.CheckpointRecord? && RecordEncodable(r)
    ensures var data := EncodedRecord(r); var after := 17 + |r.key|;
      && FromLE(data[13..17]) == |r.key| && data[17..after] == r.key
      && |data| == after + 4 + (if r.PutRecord? then 4 + |r.value| else 0)
      && (r.PutRecord? ==> FromLE(data[after..after + 4]) == |r.value| && data[after + 4..|data| - 4] == r.value)
  {
    hide LE, FromLE, Crc32;
    Widths();
    hide Pow256;
    var data, after := EncodedRecord(r), 17 + |r.key|;
    LERoundTrip(|r.key|, 4);
    assert data[13..17] == LE(|r.key|, 4);
    if r.PutRecord? {
      LERoundTrip(|r.value|, 4);
      assert data[after..after + 4] == LE(|r.value|, 4);
    }
  }
}
