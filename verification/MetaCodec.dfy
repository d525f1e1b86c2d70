/** CRC32 as zlib computes it, and the checksummed meta page. */
module MetaCodec {
  import opened Bytes
  import opened Entities
  import opened Codec

  function CrcShift(c: bv32, k: nat): bv32
    decreases k
  {
    if k == 0 then c else CrcShift(if c & 1 == 1 then (c >> 1) ^ 0xEDB88320 else c >> 1, k - 1)
  }

  function Bits(x: byte): bv32 { x as bv32 }

  function Xor(a: bv32, b: bv32): bv32 { a ^ b }

  function CrcByte(c: bv32, b: byte): bv32 { CrcShift(Xor(c, Bits(b)), 8) }

  function CrcFold(c: bv32, data: Bytes): bv32
    decreases data
  {
    if data == [] then c else CrcFold(CrcByte(c, data[0]), data[1..])
  }

  function Crc32(data: Bytes): (r: nat)
    ensures r < U32
  {
    (CrcFold(0xFFFFFFFF, data) ^ 0xFFFFFFFF) as nat
  }

  /** `data` followed by its checksum. */
  function WithCrc(data: Bytes): (r: Bytes)
    ensures |r| == |data| + 4
  {
    data + LE(Crc32(data), 4)
  }

  /** `verify_crc32`: the last four bytes are the checksum of the ones before. */
  predicate CrcMatches(data: Bytes)
    requires |data| >= 4
  {
    Crc32(data[..|data| - 4]) == FromLE(data[|data| - 4..])
  }

  lemma WithCrcMatches(data: Bytes)
    ensures CrcMatches(WithCrc(data))
  {
    hide Crc32;
    Widths();
    LERoundTrip(Crc32(data), 4);
    assert WithCrc(data)[..|data|] == data;
    assert WithCrc(data)[|data|..] == LE(Crc32(data), 4);
  }

  // ---- the meta page ----

  const MAGIC: Bytes := [66, 80, 84, 82, 69, 69, 68, 66]
  const VERSION: nat := 1
  const META_SIZE: nat := 48

  ghost predicate MetaEncodable(m: Meta)
  {
    52 <= m.pageSize < U32 && m.root < U64 && m.next < U64 && m.freelistHead < U64 && m.checkpointLsn < U64
  }

  function MetaFields(m: Meta): (r: Bytes)
    ensures |r| == META_SIZE
  {
    MAGIC + LE(VERSION, 4) + LE(m.pageSize, 4) + LE(m.root, 8) + LE(m.next, 8) + LE(m.freelistHead, 8) + LE(m.checkpointLsn, 8)
  }

  /** `encode_meta_page`. */
  function EncodedMeta(m: Meta): (r: Bytes)
    requires m.pageSize >= META_SIZE + 4
    ensures |r| == m.pageSize
  {
    WithCrc(MetaFields(m)) + Zeros(m.pageSize - META_SIZE - 4)
  }

  /** `decode_meta_page`; None where it raises (bad magic, bad checksum, short page). The version is not checked. */
  function DecodedMeta(data: Bytes): Option<Meta>
  {
    if |data| < META_SIZE + 4 || data[..8] != MAGIC || !CrcMatches(data[..META_SIZE + 4]) then None else
      Some(Meta(FromLE(data[12..16]), FromLE(data[16..24]), FromLE(data[24..32]), FromLE(data[32..40]), FromLE(data[40..48])))
  }

  lemma MetaRoundTrip(m: Meta)
    requires MetaEncodable(m)
    ensures DecodedMeta(EncodedMeta(m)) == Some(m)
  {
    hide LE, FromLE, CrcMatches, Crc32;
    Widths();
    hide Pow256;
    var data := EncodedMeta(m);
    WithCrcMatches(MetaFields(m));
    assert data[..META_SIZE + 4] == WithCrc(MetaFields(m));
    assert data[..8] == MAGIC;
    FieldsRead(m, data[META_SIZE..]);
    assert data == MetaFields(m) + data[META_SIZE..];
  }

  lemma FieldsRead(m: Meta, rest: Bytes)
    requires MetaEncodable(m)
    ensures var data := MetaFields(m) + rest;
      && FromLE(data[12..16]) == m.pageSize && FromLE(data[16..24]) == m.root && FromLE(data[24..32]) == m.next
      && FromLE(data[32..40]) == m.freelistHead && FromLE(data[40..48]) == m.checkpointLsn
  {
    hide LE, FromLE;
    Widths();
    hide Pow256;
    LERoundTrip(m.pageSize, 4);
    LERoundTrip(m.root, 8);
    LERoundTrip(m.next, 8);
    LERoundTrip(m.freelistHead, 8);
    LERoundTrip(m.checkpointLsn, 8);
    var data := MetaFields(m) + rest;
    assert data[12..16] == LE(m.pageSize, 4);
    assert data[16..24] == LE(m.root, 8);
    assert data[24..32] == LE(m.next, 8);
    assert data[32..40] == LE(m.freelistHead, 8);
    assert data[40..48] == LE(m.checkpointLsn, 8);
  }
}
