/** Bytes and big-endian numbers. */
module Bytes {
  type Byte = b: int | 0 <= b < 256

  function Pow256(n: nat): (p: nat)
    ensures p >= 1
  {
    if n == 0 then 1 else 256 * Pow256(n - 1)
  }

  /** The low `n` bytes of `v`, most significant first: a truncating cast, then to_be_bytes. */
  function BE(n: nat, v: nat): (bs: seq<Byte>)
    ensures |bs| == n
  {
    if n == 0 then [] else BE(n - 1, v / 256) + [v % 256]
  }

  function Value(bs: seq<Byte>): nat {
    if bs == [] then 0 else Value(bs[..|bs| - 1]) * 256 + bs[|bs| - 1]
  }

  lemma {:induction false} MulGap(d: nat, a: nat, b: nat)
    ensures a < b ==> d * a + d <= d * b
  {
    if a < b {
      assert d * b == d * a + d * (b - a);
      assert d * (b - a) == d + d * (b - a - 1);
    }
  }

  lemma {:induction false} ModUnique(v: nat, d: nat, k: nat, m: nat)
    requires m < d && v == d * k + m
    ensures v % d == m
  {
    assert v == d * (v / d) + v % d;
    MulGap(d, v / d, k);
    MulGap(d, k, v / d);
  }

  lemma {:induction false} ModStep(q: nat, r: nat, p: nat)
    requires p >= 1 && r < 256
    ensures (256 * q + r) % (256 * p) == 256 * (q % p) + r
  {
    var k, m := q / p, q % p;
    assert q == p * k + m;
    assert 256 * q == (256 * p) * k + 256 * m;
    ModUnique(256 * q + r, 256 * p, k, 256 * m + r);
  }

  lemma {:induction false} ValueOfBE(n: nat, v: nat)
    ensures Value(BE(n, v)) == v % Pow256(n)
  {
    if n > 0 {
      ValueOfBE(n - 1, v / 256);
      assert BE(n, v)[..n - 1] == BE(n - 1, v / 256);
      ModStep(v / 256, v % 256, Pow256(n - 1));
    }
  }

  lemma {:induction false} BEOfValue(bs: seq<Byte>)
    ensures Value(bs) < Pow256(|bs|) && BE(|bs|, Value(bs)) == bs
  {
    if bs != [] {
      BEOfValue(bs[..|bs| - 1]);
    }
  }

  lemma Powers()
    ensures Pow256(1) == 0x100 && Pow256(2) == 0x1_0000 && Pow256(4) == 0x1_0000_0000
    ensures Pow256(8) == 0x1_0000_0000_0000_0000
  {
  }

  /** A number that fits in `n` bytes reads back as itself. */
  lemma RoundTrip(n: nat, v: nat)
    requires v < Pow256(n)
    ensures Value(BE(n, v)) == v
  {
  }
}
