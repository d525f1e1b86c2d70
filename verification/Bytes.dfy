/** Byte strings, the order the engine keeps keys in, and little-endian integers. */
module Bytes {
  type byte = b: int | 0 <= b < 256
  type Bytes = seq<byte>

  /** Python's `<` on `bytes`: lexicographic, a proper prefix comes first. */
  predicate LexLess(a: Bytes, b: Bytes)
  {
    |b| > 0 && (|a| == 0 || a[0] < b[0] || (a[0] == b[0] && LexLess(a[1..], b[1..])))
  }

  /** An order-embedding of byte strings into [0, 1), so that order facts become arithmetic. */
  ghost function Rank(a: Bytes): (r: real)
    ensures 0.0 <= r < 1.0
    ensures a != [] ==> r > 0.0
  {
    if a == [] then 0.0 else (a[0] as real + 1.0 + Rank(a[1..])) / 257.0
  }

  lemma {:induction false} RankIsLexicographic(a: Bytes, b: Bytes)
    ensures LexLess(a, b) <==> Rank(a) < Rank(b)
    ensures a == b <==> Rank(a) == Rank(b)
  {
    if |a| > 0 && |b| > 0 {
      RankIsLexicographic(a[1..], b[1..]);
      assert a == [a[0]] + a[1..] && b == [b[0]] + b[1..];
      if a[0] < b[0] {
        assert a[0] as real + 1.0 <= b[0] as real;
      } else if b[0] < a[0] {
        assert b[0] as real + 1.0 <= a[0] as real;
      }
    }
  }

  /** The comparison the tree uses. Its contract ties every use to `Rank`. */
  predicate Less(a: Bytes, b: Bytes)
    ensures Less(a, b) <==> Rank(a) < Rank(b)
    ensures a == b <==> Rank(a) == Rank(b)
  {
    RankIsLexicographic(a, b);
    LexLess(a, b)
  }
}
