/** `encode_page` and `decode_page` as they run: a page buffer filled in place, slots read in a loop. */
module CodecMethods {
  import opened Bytes
  import opened Entities
  import opened Codec

  /** `buffer[offset : offset + len(data)] = data`. */
  method Put(buffer: array<byte>, offset: nat, data: Bytes)
    requires offset + |data| <= buffer.Length
    modifies buffer
    ensures buffer[..] == old(buffer[..])[..offset] + data + old(buffer[..])[offset + |data|..]
  {
    ghost var was := buffer[..];
    for i := 0 to |data|
      invariant buffer[..] == was[..offset] + data[..i] + was[offset + i..]
    {
      buffer[offset + i] := data[i];
      assert data[..i + 1] == data[..i] + [data[i]];
    }
    assert data[..|data|] == data;
  }

  ghost function Records(b: Body): seq<Bytes>
    requires !b.Freelist?
  {
    if b.Internal? then InternalRecords(b.slots) else LeafRecords(b.entries)
  }

  /** Packs the records backward from the end of `buffer` and returns the slot directory. */
  method PackRecords(b: Body, buffer: array<byte>) returns (directory: Bytes, recordEnd: nat)
    requires !b.Freelist? && PageSize(b) <= buffer.Length && buffer[..] == Zeros(buffer.Length)
    modifies buffer
    ensures |Packed(Records(b))| + recordEnd == buffer.Length
    ensures directory == Directory(Records(b), buffer.Length)
    ensures buffer[..] == Zeros(recordEnd) + Packed(Records(b))
  {
    hide InternalRecord, LeafRecord, LE, Packed, Directory, BodySum;
    ghost var recs := Records(b);
    RecordsSize(b);
    var count := if b.Internal? then |b.slots| else |b.entries|;
    directory, recordEnd := [], buffer.Length;
    NothingPacked(recs, buffer.Length);
    for i := 0 to count
      invariant |Packed(recs[..i])| + recordEnd == buffer.Length
      invariant directory == Directory(recs[..i], buffer.Length)
      invariant buffer[..] == Zeros(recordEnd) + Packed(recs[..i])
    {
      var record := if b.Internal? then InternalRecord(b.slots[i]) else LeafRecord(b.entries[i]);
      OneMorePacked(recs, i, buffer.Length);
      ghost var was := buffer[..];
      recordEnd := recordEnd - |record|;
      Put(buffer, recordEnd, record);
      assert was[..recordEnd] == Zeros(recordEnd) && was[recordEnd + |record|..] == Packed(recs[..i]);
      directory := directory + LE(recordEnd, 4) + LE(|record|, 4);
    }
    assert recs[..count] == recs;
  }

  lemma NothingPacked(recs: seq<Bytes>, pageSize: nat)
    ensures Packed(recs[..0]) == [] && Directory(recs[..0], pageSize) == []
  {
  }

  lemma OneMorePacked(recs: seq<Bytes>, i: nat, pageSize: nat)
    requires i < |recs| && |Packed(recs)| <= pageSize
    ensures Packed(recs[..i + 1]) == recs[i] + Packed(recs[..i])
    ensures |Packed(recs[..i])| + |recs[i]| == |Packed(recs[..i + 1])| <= pageSize
    ensures Directory(recs[..i + 1], pageSize) ==
      Directory(recs[..i], pageSize) + LE(pageSize - |Packed(recs[..i + 1])|, 4) + LE(|recs[i]|, 4)
  {
    hide LE;
    PackedSuffix(recs, i + 1);
    assert recs[..i + 1][..i] == recs[..i];
  }

  lemma RecordsSize(b: Body)
    requires !b.Freelist?
    ensures PAGE_HEADER_SIZE + 8 * |Records(b)| + |Packed(Records(b))| == PageSize(b)
    ensures |Records(b)| == if b.Internal? then |b.slots| else |b.entries|
  {
    if b.Internal? { PackedInternal(b.slots); } else { PackedLeaf(b.entries); }
  }

  method PackIds(ids: seq<nat>) returns (body: Bytes)
    ensures body == IdList(ids)
  {
    hide LE;
    body := [];
    for i := 0 to |ids|
      invariant body == IdList(ids[..i])
    {
      assert ids[..i + 1][..i] == ids[..i];
      body := body + LE(ids[i], 8);
    }
    assert ids[..|ids|] == ids;
  }

  method EncodePage(p: Page, pageSize: nat) returns (data: Bytes)
    requires Encodable(p, pageSize)
    ensures data == EncodedPage(p, pageSize)
  {
    hide LE, Packed, Directory, Header, EncodedPage, Records, InternalRecords, LeafRecords, IdList, Zeros, LeafSum, InternalSum;
    var buffer := new byte[pageSize](_ => 0);
    Blank(buffer[..], pageSize);
    var header: Bytes;
    var body: Bytes;
    if p.body.Freelist? {
      body := PackIds(p.body.freed);
      header := Header(FREELIST_TAG, |p.body.freed|, 0, 0, p.lsn, p.body.next);
    } else {
      RecordsSize(p.body);
      var recordEnd;
      body, recordEnd := PackRecords(p.body, buffer);
      header := if p.body.Internal?
        then Header(INTERNAL_TAG, |p.body.slots|, PAGE_HEADER_SIZE + 8 * |p.body.slots|, recordEnd, p.lsn, p.body.leftmost)
        else Header(LEAF_TAG, |p.body.entries|, PAGE_HEADER_SIZE + 8 * |p.body.entries|, recordEnd, p.lsn, p.body.right);
    }
    ghost var packed := buffer[..];
    FinalImage(p, pageSize, header, body, packed);
    Put(buffer, 0, header);
    Put(buffer, PAGE_HEADER_SIZE, body);
    data := buffer[..];
    Overlaid(packed, header, body, data);
  }

  lemma Blank(b: Bytes, n: nat)
    requires |b| == n && forall i :: 0 <= i < n ==> b[i] == 0
    ensures b == Zeros(n)
  {
  }

  lemma Overlaid(packed: Bytes, header: Bytes, body: Bytes, data: Bytes)
    requires |header| + |body| <= |packed|
    requires var once := packed[..0] + header + packed[|header|..];
      data == once[..|header|] + body + once[|header| + |body|..]
    ensures data == header + body + packed[|header| + |body|..]
  {
  }

  /** Header and directory over the zero area in front of the packed records. */
  lemma FinalImage(p: Page, pageSize: nat, header: Bytes, body: Bytes, packed: Bytes)
    requires Encodable(p, pageSize) && |packed| == pageSize
    requires p.body.Freelist? ==>
      && packed == Zeros(pageSize) && body == IdList(p.body.freed)
      && header == Header(FREELIST_TAG, |p.body.freed|, 0, 0, p.lsn, p.body.next)
    requires !p.body.Freelist? ==>
      var recs := Records(p.body);
      && |Packed(recs)| <= pageSize
      && packed == Zeros(pageSize - |Packed(recs)|) + Packed(recs) && body == Directory(recs, pageSize)
      && header == Header(if p.body.Internal? then INTERNAL_TAG else LEAF_TAG, |recs|, PAGE_HEADER_SIZE + 8 * |recs|,
                          pageSize - |Packed(recs)|, p.lsn, if p.body.Internal? then p.body.leftmost else p.body.right)
    ensures |header| == PAGE_HEADER_SIZE && PAGE_HEADER_SIZE + |body| <= pageSize
    ensures header + body + packed[PAGE_HEADER_SIZE + |body|..] == EncodedPage(p, pageSize)
  {
    hide LE, Packed, Directory, Header, IdList;
    if p.body.Freelist? {
      assert packed[PAGE_HEADER_SIZE + |body|..] == Zeros(pageSize - 32 - 8 * |p.body.freed|);
    } else {
      RecordsSize(p.body);
      var recs := Records(p.body);
      var gap := pageSize - |Packed(recs)| - PAGE_HEADER_SIZE - |body|;
      assert packed[PAGE_HEADER_SIZE + |body|..] == Zeros(gap) + Packed(recs);
    }
  }

  /** `decode_page`; None where the source raises. */
  method DecodePage(data: Bytes) returns (r: Option<Page>)
    ensures r == DecodedPage(data)
  {
    hide FromLE, RecordAt, ReadInternalRecord, ReadLeafRecord, ReadLE;
    if |data| < PAGE_HEADER_SIZE { return None; }
    var count, lsn, idField := FromLE(data[4..8]), FromLE(data[16..24]), FromLE(data[24..32]);
    if data[0] == INTERNAL_TAG {
      var slots: seq<InternalSlot> := [];
      for i := 0 to count
        invariant ReadInternalSlots(data, i) == Some(slots)
      {
        var rec := RecordAt(data, i);
        if rec.None? { NoInternalSlots(data, i + 1, count); return None; }
        var slot := ReadInternalRecord(rec.value);
        if slot.None? { NoInternalSlots(data, i + 1, count); return None; }
        slots := slots + [slot.value];
      }
      return Some(Page(lsn, Internal(idField, slots)));
    } else if data[0] == LEAF_TAG {
      var entries: seq<LeafSlot> := [];
      for i := 0 to count
        invariant ReadLeafSlots(data, i) == Some(entries)
      {
        var rec := RecordAt(data, i);
        if rec.None? { NoLeafSlots(data, i + 1, count); return None; }
        var slot := ReadLeafRecord(rec.value);
        if slot.None? { NoLeafSlots(data, i + 1, count); return None; }
        entries := entries + [slot.value];
      }
      return Some(Page(lsn, Leaf(idField, entries)));
    } else if data[0] == FREELIST_TAG {
      var ids: seq<nat> := [];
      for i := 0 to count
        invariant ReadIds(data, i) == Some(ids)
      {
        var id := ReadLE(data, PAGE_HEADER_SIZE + 8 * i, 8);
        if id.None? { NoIds(data, i + 1, count); return None; }
        ids := ids + [id.value];
      }
      return Some(Page(lsn, Freelist(idField, ids)));
    }
    return None;
  }

  lemma {:induction false} NoInternalSlots(data: Bytes, i: nat, n: nat)
    requires i <= n && ReadInternalSlots(data, i).None?
    ensures ReadInternalSlots(data, n).None?
  {
    if i < n { NoInternalSlots(data, i, n - 1); }
  }

  lemma {:induction false} NoLeafSlots(data: Bytes, i: nat, n: nat)
    requires i <= n && ReadLeafSlots(data, i).None?
    ensures ReadLeafSlots(data, n).None?
  {
    if i < n { NoLeafSlots(data, i, n - 1); }
  }

  lemma {:induction false} NoIds(data: Bytes, i: nat, n: nat)
    requires i <= n && ReadIds(data, i).None?
    ensures ReadIds(data, n).None?
  {
    if i < n { NoIds(data, i, n - 1); }
  }
}
