/** Bytes and little-endian integers: the layout in which an x86 processor
    stores a multi-byte integer and reads it back. */
module Bytes {

  newtype byte = x: int | 0 <= x < 256

  const TwoTo32: nat := 0x1_0000_0000
  const TwoTo64: nat := 0x1_0000_0000_0000_0000

  /** 256 to the power n: the number of values n bytes can hold. */
  function Pow256(n: nat): (p: nat)
    ensures p >= 1
  {
    if n == 0 then 1 else 256 * Pow256(n - 1)
  }

  lemma Pow256Widths()
    ensures Pow256(4) == TwoTo32 && Pow256(8) == TwoTo64
  {
  }

  /** The n low-order bytes of x, least significant first: what a store of an
      n-byte integer writes on a little-endian machine (the value is truncated
      to n bytes, as a cast to a narrower integer type does). */
  function LittleEndian(x: nat, n: nat): (r: seq<byte>)
    ensures |r| == n
  {
    if n == 0 then [] else [(x % 256) as byte] + LittleEndian(x / 256, n - 1)
  }

  /** The unsigned integer that the bytes s denote when read little-endian. */
  function FromLittleEndian(s: seq<byte>): (x: nat)
    ensures x < Pow256(|s|)
  {
    if s == [] then 0 else s[0] as nat + 256 * FromLittleEndian(s[1..])
  }

  /** Division by m > 0 has exactly one quotient and one remainder. */
  lemma DivModUnique(x: int, m: int, q: int, r: int)
    requires m > 0 && 0 <= r < m && x == m * q + r
    ensures x / m == q && x % m == r
  {
    var q', r' := x / m, x % m;
    assert x == m * q' + r';
    if q' < q {
      assert m * q - m * q' == m * (q - q');
      MulMonotone(m, q - q');
    } else if q' > q {
      assert m * q' - m * q == m * (q' - q);
      MulMonotone(m, q' - q);
    }
  }

  lemma MulMonotone(m: int, d: int)
    requires m > 0 && d >= 1
    ensures m * d >= m
  {
  }

  /** The remainder modulo 256 * p splits into the low byte and the
      remainder of the rest modulo p. */
  lemma ModSplit(x: nat, p: nat)
    requires p >= 1
    ensures x % (256 * p) == x % 256 + 256 * ((x / 256) % p)
  {
    var q, a, b := x / 256, (x / 256) / p, (x / 256) % p;
    assert q == p * a + b;
    assert x == 256 * q + x % 256;
    assert 256 * q == (256 * p) * a + 256 * b by {
      assert 256 * (p * a) == (256 * p) * a;
    }
    assert 0 <= x % 256 + 256 * b < 256 * p;
    DivModUnique(x, 256 * p, a, x % 256 + 256 * b);
  }

  /** Reading back n little-endian bytes gives the stored value modulo 256^n. */
  lemma {:induction false} LittleEndianRoundTrip(x: nat, n: nat)
    ensures FromLittleEndian(LittleEndian(x, n)) == x % Pow256(n)
  {
    if n > 0 {
      LittleEndianRoundTrip(x / 256, n - 1);
      var s := LittleEndian(x, n);
      assert s[1..] == LittleEndian(x / 256, n - 1);
      ModSplit(x, Pow256(n - 1));
    }
  }

  /** Storing the value that |s| bytes denote writes those very bytes again. */
  lemma {:induction false} FromLittleEndianRoundTrip(s: seq<byte>)
    ensures LittleEndian(FromLittleEndian(s), |s|) == s
  {
    if s != [] {
      var x := FromLittleEndian(s);
      var y := FromLittleEndian(s[1..]);
      DivModUnique(x, 256, y, s[0] as int);
      FromLittleEndianRoundTrip(s[1..]);
    }
  }
}
