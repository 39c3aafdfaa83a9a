/**
 * Byte strings and the little-endian 32-bit length prefix used by the
 * keyring's record format.
 */
module Bytes {

  newtype byte = x: int | 0 <= x < 256

  type Bytes = seq<byte>

  /** Exclusive upper bound of an unsigned 32-bit integer. */
  const U32Limit: int := 0x1_0000_0000

  /** The four bytes of `n`, least significant first. */
  function EncodeU32(n: nat): (r: Bytes)
    requires n < U32Limit
    ensures |r| == 4
  {
    [(n % 256) as byte, (n / 256 % 256) as byte, (n / 65536 % 256) as byte, (n / 16777216) as byte]
  }

  /** The unsigned integer whose little-endian representation is `b[..4]`. */
  function DecodeU32(b: Bytes): (n: nat)
    requires |b| >= 4
    ensures n < U32Limit
  {
    b[0] as int + 256 * (b[1] as int + 256 * (b[2] as int + 256 * b[3] as int))
  }

  /** Decoding undoes encoding. */
  lemma DecodeEncodeU32(n: nat)
    requires n < U32Limit
    ensures DecodeU32(EncodeU32(n)) == n
  {
    var b := EncodeU32(n);
    var q0 := n / 256;
    var q1 := q0 / 256;
    assert n == n % 256 + 256 * q0;
    assert q0 == q0 % 256 + 256 * q1;
    assert q1 == q1 % 256 + 256 * (q1 / 256);
    assert n / 65536 == q1;
    assert n / 16777216 == q1 / 256;
  }

  /** Encoding undoes decoding: every four bytes are the encoding of exactly one integer. */
  lemma EncodeDecodeU32(b: Bytes)
    requires |b| == 4
    ensures EncodeU32(DecodeU32(b)) == b
  {
    var n := DecodeU32(b);
    var b0, b1, b2, b3 := b[0] as int, b[1] as int, b[2] as int, b[3] as int;
    var hi2 := b2 + 256 * b3;
    var hi1 := b1 + 256 * hi2;
    DivModUnique(n, b0, hi1, 256);
    DivModUnique(hi1, b1, hi2, 256);
    DivModUnique(hi2, b2, b3, 256);
    DivModUnique(n, b0 + 256 * b1, hi2, 65536);
    DivModUnique(n, b0 + 256 * b1 + 65536 * b2, b3, 16777216);
  }

  /** Quotient and remainder are the only such pair. */
  lemma DivModUnique(x: int, lo: int, hi: int, d: int)
    requires 0 <= lo < d && 0 <= hi && x == lo + d * hi
    ensures x / d == hi && x % d == lo
  {
    var q, r := x / d, x % d;
    assert d * (hi - q) == r - lo by {
      assert x == d * q + r;
      assert d * hi - d * q == d * (hi - q);
    }
    if hi > q {
      MulAtLeast(d, hi - q);
      assert false;
    } else if hi < q {
      MulAtLeast(d, q - hi);
      assert false;
    }
  }

  lemma MulAtLeast(d: int, k: int)
    requires d > 0 && k >= 1
    ensures d * k >= d
  {
    assert d * k == d + d * (k - 1);
    assert d * (k - 1) >= 0;
  }
}
