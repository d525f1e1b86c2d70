/**
 * What the checksums detect: every change within four consecutive bytes of what they cover, and every change of the
 * checksum itself. A damaged log record or meta page is never read as if it were another one.
 */
module Checksums {
  import opened Bytes
  import opened Entities
  import opened Codec
  import opened MetaCodec
  import opened WalCodec

  // ---- one shift ----

  /** The polynomial's top bit is set, so the bit that was shifted out can be told from the result. */
  lemma ShiftOnceInjective(a: bv32, b: bv32)
    requires CrcShift(a, 1) == CrcShift(b, 1)
    ensures a == b
  {
    OneShift(a);
    OneShift(b);
  }

  function Shifted(c: bv32): bv32
  {
    if c & 1 == 1 then (c >> 1) ^ 0xEDB88320 else c >> 1
  }

  lemma OneShift(c: bv32)
    ensures CrcShift(c, 1) == Shifted(c)
  {
    assert CrcShift(Shifted(c), 0) == Shifted(c);
  }

  lemma ShiftSplit(c: bv32, k: nat)
    ensures CrcShift(c, k + 1) == CrcShift(Shifted(c), k)
  {
  }

  lemma {:induction false} ShiftInjective(a: bv32, b: bv32, k: nat)
    requires CrcShift(a, k) == CrcShift(b, k)
    ensures a == b
    decreases k
  {
    if k > 0 {
      ShiftInjective(Shifted(a), Shifted(b), k - 1);
      OneShift(a);
      OneShift(b);
      ShiftOnceInjective(a, b);
    }
  }

  lemma HalvesXor(a: bv32, b: bv32)
    ensures (a ^ b) >> 1 == (a >> 1) ^ (b >> 1)
    ensures ((a ^ b) & 1 == 1) <==> ((a & 1 == 1) != (b & 1 == 1))
  {
  }

  lemma XorRegroups(a: bv32, b: bv32, p: bv32)
    ensures (a ^ b) ^ p == a ^ (b ^ p) && (a ^ b) ^ p == (a ^ p) ^ b && (a ^ p) ^ (b ^ p) == a ^ b
  {
  }

  lemma ShiftedXor(a: bv32, b: bv32)
    ensures Shifted(Xor(a, b)) == Xor(Shifted(a), Shifted(b))
  {
    HalvesXor(a, b);
    XorRegroups(a >> 1, b >> 1, 0xEDB88320);
  }

  lemma XorAround(c: bv32, b: bv32, d: bv32)
    ensures Xor(Xor(c, b), d) == Xor(c, Xor(b, d)) && Xor(c, 0) == c
  {
  }

  lemma XorInjective(a: bv32, b: bv32, d: bv32)
    requires Xor(a, d) == Xor(b, d) || Xor(d, a) == Xor(d, b)
    ensures a == b
  {
  }

  /** Shifting is linear over exclusive or. */
  lemma {:induction false} ShiftXor(a: bv32, b: bv32, k: nat)
    ensures CrcShift(Xor(a, b), k) == Xor(CrcShift(a, k), CrcShift(b, k))
    decreases k
  {
    hide Xor, Shifted, CrcShift;
    if k == 0 {
      NoShift(a);
      NoShift(b);
      NoShift(Xor(a, b));
    } else {
      ShiftSplit(a, k - 1);
      ShiftSplit(b, k - 1);
      ShiftSplit(Xor(a, b), k - 1);
      ShiftedXor(a, b);
      ShiftXor(Shifted(a), Shifted(b), k - 1);
    }
  }

  lemma {:induction false} ShiftAgain(c: bv32, j: nat, k: nat)
    ensures CrcShift(CrcShift(c, j), k) == CrcShift(c, j + k)
    decreases j
  {
    hide Shifted, CrcShift;
    if j == 0 {
      NoShift(c);
    } else {
      ShiftSplit(c, j - 1);
      ShiftSplit(c, j + k - 1);
      ShiftAgain(Shifted(c), j - 1, k);
    }
  }

  lemma NoShift(c: bv32)
    ensures CrcShift(c, 0) == c
  {
  }

  /** Room for another byte below. */
  predicate Small(v: bv32) { v & 0xFF000000 == 0 }

  function Up(v: bv32): bv32 { v << 8 }

  lemma ZerosShifted(v: bv32)
    requires Small(v)
    ensures Shifted(Shifted(Shifted(Shifted(Shifted(Shifted(Shifted(Shifted(Up(v))))))))) == v
  {
  }

  /** Eight shifts take eight zero bits away. */
  lemma EightZeros(v: bv32)
    requires Small(v)
    ensures CrcShift(Up(v), 8) == v
  {
    hide *;
    ZerosShifted(v);
    EightShifts(Up(v));
  }

  lemma EightShifts(c: bv32)
    ensures CrcShift(c, 8) == Shifted(Shifted(Shifted(Shifted(Shifted(Shifted(Shifted(Shifted(c))))))))
  {
    hide Shifted, CrcShift;
    var d := Shifted(Shifted(Shifted(Shifted(c))));
    ShiftSplit(c, 7);
    ShiftSplit(Shifted(c), 6);
    ShiftSplit(Shifted(Shifted(c)), 5);
    ShiftSplit(Shifted(Shifted(Shifted(c))), 4);
    ShiftSplit(d, 3);
    ShiftSplit(Shifted(d), 2);
    ShiftSplit(Shifted(Shifted(d)), 1);
    ShiftSplit(Shifted(Shifted(Shifted(d))), 0);
    NoShift(Shifted(Shifted(Shifted(Shifted(d)))));
  }

  // ---- bytes and words ----

  lemma ByteBack(x: byte)
    ensures (x as bv8) as int == x && (x as bv32) == (x as bv8) as bv32
  {
  }

  lemma Widened(a: bv8, b: bv8)
    ensures (a as bv32) & 0xFFFFFF00 == 0
    ensures a as bv32 == b as bv32 ==> a == b
  {
  }

  lemma ByteFacts(x: byte, y: byte)
    ensures Bits(x) & 0xFFFFFF00 == 0
    ensures Bits(x) == Bits(y) ==> x == y
  {
    ByteBack(x);
    ByteBack(y);
    Widened(x as bv8, y as bv8);
  }

  lemma ByteFed(c: bv32, x: byte)
    ensures CrcByte(c, x) == CrcShift(Xor(c, Bits(x)), 8)
  {
    hide CrcShift, Xor, Bits;
  }

  /** Up to four bytes as a little-endian word. */
  function Word(w: Bytes): bv32
  {
    if w == [] then 0 else Xor(Bits(w[0]), Up(Word(w[1..])))
  }

  /** `v` holds the bits of `n` bytes only. */
  predicate Within(v: bv32, n: nat)
  {
    if n == 0 then v == 0 else if n == 1 then OneByte(v) else if n == 2 then TwoBytes(v) else Small(v)
  }

  predicate OneByte(v: bv32) { v & 0xFFFFFF00 == 0 }

  predicate TwoBytes(v: bv32) { v & 0xFFFF0000 == 0 }

  lemma RoomForFirst(b: bv32, v: bv32)
    requires OneByte(b) && v == 0
    ensures OneByte(Xor(b, Up(v)))
  {
  }

  lemma RoomForSecond(b: bv32, v: bv32)
    requires OneByte(b) && OneByte(v)
    ensures TwoBytes(Xor(b, Up(v)))
  {
  }

  lemma RoomForThird(b: bv32, v: bv32)
    requires OneByte(b) && TwoBytes(v)
    ensures Small(Xor(b, Up(v)))
  {
  }

  lemma BitsFit(b: bv32, v: bv32, n: nat)
    requires OneByte(b) && Within(v, n) && n < 3
    ensures Within(Xor(b, Up(v)), n + 1)
  {
    hide OneByte, TwoBytes, Small, Xor, Up;
    if n == 0 {
      RoomForFirst(b, v);
    } else if n == 1 {
      RoomForSecond(b, v);
    } else {
      RoomForThird(b, v);
    }
  }

  lemma NoneIsSmall()
    ensures Small(0)
  {
  }

  lemma OneIsSmall(v: bv32)
    requires OneByte(v)
    ensures Small(v)
  {
  }

  lemma TwoAreSmall(v: bv32)
    requires TwoBytes(v)
    ensures Small(v)
  {
  }

  lemma Smaller(v: bv32, n: nat)
    requires Within(v, n)
    ensures Small(v)
  {
    hide OneByte, TwoBytes, Small;
    NoneIsSmall();
    if n == 1 {
      OneIsSmall(v);
    } else if n == 2 {
      TwoAreSmall(v);
    }
  }

  lemma BitsOfOne(x: byte)
    ensures OneByte(Bits(x))
  {
    hide Bits;
    ByteFacts(x, x);
  }

  lemma {:induction false} WordFits(w: Bytes)
    requires |w| <= 3
    ensures Within(Word(w), |w|)
  {
    hide Bits, Xor, Up, OneByte, TwoBytes, Small;
    if w != [] {
      WordFits(w[1..]);
      BitsOfOne(w[0]);
      BitsFit(Bits(w[0]), Word(w[1..]), |w[1..]|);
    }
  }

  lemma WordIsSmall(w: Bytes)
    requires |w| <= 3
    ensures Small(Word(w))
  {
    hide *;
    WordFits(w);
    Smaller(Word(w), |w|);
  }

  lemma BitsApart(b: bv32, v: bv32, c: bv32, w: bv32)
    requires Small(v) && Small(w) && b & 0xFFFFFF00 == 0 && c & 0xFFFFFF00 == 0
    requires Xor(b, Up(v)) == Xor(c, Up(w))
    ensures b == c && v == w
  {
  }

  lemma {:induction false} WordInjective(w: Bytes, u: Bytes)
    requires |w| == |u| <= 4 && Word(w) == Word(u)
    ensures w == u
  {
    hide Bits, Xor, Up, Small, Within;
    if w != [] {
      WordIsSmall(w[1..]);
      WordIsSmall(u[1..]);
      ByteFacts(w[0], u[0]);
      ByteFacts(u[0], w[0]);
      BitsApart(Bits(w[0]), Word(w[1..]), Bits(u[0]), Word(u[1..]));
      WordInjective(w[1..], u[1..]);
      assert w == [w[0]] + w[1..] && u == [u[0]] + u[1..];
    }
  }

  /** One byte and a word above it, fed together. */
  lemma ByteThenWord(c: bv32, x: byte, v: bv32, k: nat)
    requires Small(v)
    ensures CrcShift(Xor(CrcByte(c, x), v), k) == CrcShift(Xor(c, Xor(Bits(x), Up(v))), 8 + k)
  {
    hide *;
    var f := Xor(c, Bits(x));
    ByteFed(c, x);
    EightZeros(v);
    ShiftXor(f, Up(v), 8);
    XorAround(c, Bits(x), Up(v));
    ShiftAgain(Xor(f, Up(v)), 8, k);
  }

  /** Folding a word in is shifting it out. */
  lemma {:induction false} FoldWord(c: bv32, w: Bytes)
    requires |w| <= 4
    ensures CrcFold(c, w) == CrcShift(Xor(c, Word(w)), 8 * |w|)
    decreases w
  {
    hide CrcShift, CrcByte, Xor, Bits, Up, Small;
    if w == [] {
      XorAround(c, 0, 0);
      NoShift(c);
    } else {
      FoldWord(CrcByte(c, w[0]), w[1..]);
      WordIsSmall(w[1..]);
      ByteThenWord(c, w[0], Word(w[1..]), 8 * |w[1..]|);
    }
  }

  // ---- whole buffers ----

  lemma {:induction false} FoldConcat(c: bv32, a: Bytes, b: Bytes)
    ensures CrcFold(c, a + b) == CrcFold(CrcFold(c, a), b)
    decreases a
  {
    hide CrcByte;
    if a == [] {
      assert a + b == b;
    } else {
      assert (a + b)[1..] == a[1..] + b;
      FoldConcat(CrcByte(c, a[0]), a[1..], b);
    }
  }

  lemma ByteInjective(a: bv32, b: bv32, x: byte)
    requires CrcByte(a, x) == CrcByte(b, x)
    ensures a == b
  {
    hide *;
    ByteFed(a, x);
    ByteFed(b, x);
    ShiftInjective(Xor(a, Bits(x)), Xor(b, Bits(x)), 8);
    XorInjective(a, b, Bits(x));
  }

  /** What was folded in before can be told from the result. */
  lemma {:induction false} FoldInjective(a: bv32, b: bv32, data: Bytes)
    requires CrcFold(a, data) == CrcFold(b, data)
    ensures a == b
    decreases data
  {
    hide CrcByte;
    if data != [] {
      FoldInjective(CrcByte(a, data[0]), CrcByte(b, data[0]), data[1..]);
      ByteInjective(a, b, data[0]);
    }
  }

  /** The last inversion, as a number and back. */
  function Inverted(c: bv32): nat { (c ^ 0xFFFFFFFF) as nat }

  function Back(n: nat): bv32
    requires n < U32
  {
    (n as bv32) ^ 0xFFFFFFFF
  }

  lemma NumberBack(a: bv32)
    ensures a as nat < U32 && (a as nat) as bv32 == a
  {
  }

  lemma TwiceInverted(c: bv32)
    ensures (c ^ 0xFFFFFFFF) ^ 0xFFFFFFFF == c
  {
  }

  lemma InvertedBack(c: bv32)
    ensures Inverted(c) < U32 && Back(Inverted(c)) == c
  {
    NumberBack(c ^ 0xFFFFFFFF);
    TwiceInverted(c);
  }

  lemma CrcIs(data: Bytes)
    ensures Crc32(data) == Inverted(CrcFold(0xFFFFFFFF, data))
  {
    hide CrcFold;
  }

  lemma CrcInjective(a: Bytes, b: Bytes)
    requires Crc32(a) == Crc32(b)
    ensures CrcFold(0xFFFFFFFF, a) == CrcFold(0xFFFFFFFF, b)
  {
    hide *;
    CrcIs(a);
    CrcIs(b);
    InvertedBack(CrcFold(0xFFFFFFFF, a));
    InvertedBack(CrcFold(0xFFFFFFFF, b));
  }

  lemma WordTold(c: bv32, w: Bytes, u: Bytes)
    requires |w| == |u| <= 4 && CrcFold(c, w) == CrcFold(c, u)
    ensures w == u
  {
    hide *;
    FoldWord(c, w);
    FoldWord(c, u);
    ShiftInjective(Xor(c, Word(w)), Xor(c, Word(u)), 8 * |w|);
    XorInjective(Word(w), Word(u), c);
    WordInjective(w, u);
  }

  /** Two buffers that differ only within four consecutive bytes have different checksums. */
  lemma BurstDetected(pre: Bytes, w: Bytes, u: Bytes, post: Bytes)
    requires |w| == |u| <= 4 && Crc32(pre + w + post) == Crc32(pre + u + post)
    ensures w == u
  {
    hide *;
    var c := CrcFold(0xFFFFFFFF, pre);
    FoldConcat(0xFFFFFFFF, pre + w, post);
    FoldConcat(0xFFFFFFFF, pre + u, post);
    FoldConcat(0xFFFFFFFF, pre, w);
    FoldConcat(0xFFFFFFFF, pre, u);
    CrcInjective(pre + w + post, pre + u + post);
    FoldInjective(CrcFold(c, w), CrcFold(c, u), post);
    WordTold(c, w, u);
  }

  lemma DifferAfter(a: Bytes, b: Bytes, m: nat)
    requires a != b && m <= |a| == |b| && a[..m] == b[..m]
    ensures a[m..] != b[m..]
  {
    assert a == a[..m] + a[m..];
    assert b == b[..m] + b[m..];
  }

  lemma DifferBefore(a: Bytes, b: Bytes, m: nat)
    requires a != b && m <= |a| == |b| && a[m..] == b[m..]
    ensures a[..m] != b[..m]
  {
    assert a == a[..m] + a[m..];
    assert b == b[..m] + b[m..];
  }

  lemma {:induction false} FromLEInjective(a: Bytes, b: Bytes)
    requires |a| == |b| && FromLE(a) == FromLE(b)
    ensures a == b
  {
    if a != [] {
      FromLEInjective(a[1..], b[1..]);
      assert a == [a[0]] + a[1..] && b == [b[0]] + b[1..];
    }
  }

  /** `bad` is `data` damaged within `n` bytes from `at` on. */
  ghost predicate Damaged(data: Bytes, bad: Bytes, at: nat, n: nat)
  {
    && |bad| == |data| && bad != data && n <= 4 && at + n <= |data|
    && bad[..at] == data[..at] && bad[at + n..] == data[at + n..]
  }

  /** Damage on one side of a cut. */
  lemma DamageBefore(data: Bytes, bad: Bytes, at: nat, n: nat, m: nat)
    requires Damaged(data, bad, at, n) && at + n <= m <= |data|
    ensures bad[m..] == data[m..] && Damaged(data[..m], bad[..m], at, n)
  {
    assert bad[m..] == bad[at + n..][m - at - n..] && data[m..] == data[at + n..][m - at - n..];
    DifferBefore(data, bad, m);
    assert bad[..m][at + n..] == bad[at + n..][..m - at - n] && data[..m][at + n..] == data[at + n..][..m - at - n];
    assert bad[..m][..at] == bad[..at] && data[..m][..at] == data[..at];
  }

  lemma DamageAfter(data: Bytes, bad: Bytes, at: nat, n: nat, m: nat)
    requires Damaged(data, bad, at, n) && m <= at
    ensures bad[..m] == data[..m] && bad[m..] != data[m..]
  {
    assert bad[..m] == bad[..at][..m] && data[..m] == data[..at][..m];
    DifferAfter(data, bad, m);
  }

  lemma DamageDetected(data: Bytes, bad: Bytes, at: nat, n: nat)
    requires Damaged(data, bad, at, n)
    ensures Crc32(bad) != Crc32(data)
  {
    hide Crc32;
    var pre, w, u, post := data[..at], data[at..at + n], bad[at..at + n], data[at + n..];
    assert data == pre + w + post && bad == pre + u + post;
    if Crc32(bad) == Crc32(data) { BurstDetected(pre, w, u, post); }
  }

  /** A buffer that passes its check, damaged within four bytes of what the checksum covers, or in it, fails the check. */
  lemma DamageBreaksCheck(data: Bytes, bad: Bytes, at: nat, n: nat)
    requires Damaged(data, bad, at, n) && |data| >= 4 && CrcMatches(data)
    requires at + n <= |data| - 4 || at >= |data| - 4
    ensures !CrcMatches(bad)
  {
    hide Crc32, FromLE, Damaged;
    var m := |data| - 4;
    SameLength(data, bad, at, n);
    if at + n <= m {
      DamageBefore(data, bad, at, n, m);
      DamageDetected(data[..m], bad[..m], at, n);
    } else {
      DamageAfter(data, bad, at, n, m);
      if FromLE(bad[m..]) == FromLE(data[m..]) { FromLEInjective(bad[m..], data[m..]); }
    }
  }

  lemma SameLength(data: Bytes, bad: Bytes, at: nat, n: nat)
    requires Damaged(data, bad, at, n)
    ensures |bad| == |data| && at + n <= |data|
  {
  }

  // ---- records and meta pages ----

  /** A damaged record is refused. */
  lemma DamagedRecord(r: Record, bad: Bytes, at: nat, n: nat)
    requires Damaged(EncodedRecord(r), bad, at, n) && (at + n <= |bad| - 4 || at >= |bad| - 4)
    ensures DecodedRecord(bad) == BadChecksum
  {
    hide CrcMatches, EncodedRecord, DecodedFields;
    RecordPasses(r);
    DamageBreaksCheck(EncodedRecord(r), bad, at, n);
  }

  lemma RecordPasses(r: Record)
    ensures CrcMatches(EncodedRecord(r))
  {
    hide CrcMatches, WithCrc;
    WithCrcMatches(LE(RecordLength(r), 4) + LE(r.lsn, 8) + [Tag(r)] + Payload(r));
  }

  /** In a file, it is read as a broken record of its length, as long as its length prefix is intact. */
  lemma DamagedIsBroken(pre: Bytes, r: Record, bad: Bytes, at: nat, n: nat, post: Bytes)
    requires RecordEncodable(r) && Damaged(EncodedRecord(r), bad, at, n) && 4 <= at && (at + n <= |bad| - 4 || at >= |bad| - 4)
    ensures DecodedNext(pre + bad + post, |pre|) == Broken(|pre| + |bad|)
  {
    hide CrcMatches, EncodedRecord, DecodedRecord, Crc32, LE, FromLE;
    DamagedRecord(r, bad, at, n);
    var file := pre + bad + post;
    LengthReads(r, EncodedRecord(r));
    assert bad[..4] == bad[..at][..4] && EncodedRecord(r)[..4] == EncodedRecord(r)[..at][..4];
    assert file[|pre|..|pre| + 4] == bad[..4];
    assert file[|pre|..|pre| + |bad|] == bad;
  }

  /** A meta page damaged in its fields or its checksum is refused. */
  lemma DamagedMeta(m: Meta, bad: Bytes, at: nat, n: nat)
    requires m.pageSize >= META_SIZE + 4 && Damaged(EncodedMeta(m), bad, at, n) && (at + n <= META_SIZE || (META_SIZE <= at && at + n <= META_SIZE + 4))
    ensures DecodedMeta(bad) == None
  {
    hide CrcMatches, FromLE, WithCrc, MetaFields, Damaged;
    var size := META_SIZE + 4;
    SameLength(EncodedMeta(m), bad, at, n);
    assert EncodedMeta(m)[..size] == WithCrc(MetaFields(m));
    WithCrcMatches(MetaFields(m));
    DamageBefore(EncodedMeta(m), bad, at, n, size);
    DamageBreaksCheck(EncodedMeta(m)[..size], bad[..size], at, n);
  }

  // ---- the checksum itself ----

  lemma ByteIs(c: bv32, x: byte, y: bv32, next: bv32)
    requires c ^ (x as bv32) == y
    requires Shifted(Shifted(Shifted(Shifted(Shifted(Shifted(Shifted(Shifted(y)))))))) == next
    ensures CrcByte(c, x) == next
  {
    hide Shifted, CrcShift;
    EightShifts(y);
  }

  /** The check value of the CRC-32 that zlib computes: that of the nine digits "123456789". */
  lemma CheckValue()
    ensures Crc32([49, 50, 51, 52, 53, 54, 55, 56, 57]) == 0xCBF43926
  {
    hide CrcByte, CrcShift;
    ByteIs(0xFFFFFFFF, 49, 0xFFFFFFCE, 0x7C231048);
    ByteIs(0x7C231048, 50, 0x7C23107A, 0xB0ACBB32);
    ByteIs(0xB0ACBB32, 51, 0xB0ACBB01, 0x77B79C2D);
    ByteIs(0x77B79C2D, 52, 0x77B79C19, 0x641C1F5C);
    ByteIs(0x641C1F5C, 53, 0x641C1F69, 0x340AC5E3);
    ByteIs(0x340AC5E3, 54, 0x340AC5D5, 0xF68D2C9E);
    ByteIs(0xF68D2C9E, 55, 0xF68D2CA9, 0xAFFC9660);
    ByteIs(0xAFFC9660, 56, 0xAFFC9658, 0x651F2550);
    ByteIs(0x651F2550, 57, 0x651F2569, 0x340BC6D9);
  }
}
