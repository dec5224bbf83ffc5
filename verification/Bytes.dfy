/** Little-endian byte strings. */
module Bytes {

  type Byte = b: int | 0 <= b < 256

  function Pow256(n: nat): (p: int)
    ensures p > 0
  {
    if n == 0 then 1 else 256 * Pow256(n - 1)
  }

  /** The low n bytes of v in two's complement, the lowest first. */
  function Little(v: int, n: nat): (bs: seq<Byte>)
    ensures |bs| == n
    decreases n
  {
    if n == 0 then [] else [v % 256] + Little(v / 256, n - 1)
  }

  function Value(bs: seq<Byte>): nat {
    if bs == [] then 0 else bs[0] + 256 * Value(bs[1..])
  }

  /** The bytes read as a two's complement number. */
  function SignedValue(bs: seq<Byte>): int {
    if 2 * Value(bs) >= Pow256(|bs|) then Value(bs) - Pow256(|bs|) else Value(bs)
  }

  lemma {:induction false} Multiple(m: int, k: int)
    requires m > 0
    ensures k > 0 ==> m * k >= m
    ensures k < 0 ==> m * k <= -m
    decreases if k < 0 then -k else k
  {
    if k > 1 {
      Multiple(m, k - 1);
    } else if k < -1 {
      Multiple(m, k + 1);
    }
  }

  lemma {:induction false} RemainderIs(x: int, m: int, q: int, r: int)
    requires m > 0 && x == m * q + r && 0 <= r < m
    ensures x % m == r && x / m == q
  {
    var d, e := x / m, x % m;
    Multiple(m, d - q);
    assert m * (d - q) == m * d - m * q;
    assert x == m * d + e;
  }

  lemma {:induction false} RemainderByBytes(v: int, p: int)
    requires p > 0
    ensures v % (256 * p) == 256 * (v / 256 % p) + v % 256
  {
    var q, r := v / 256, v % 256;
    var d, e := q / p, q % p;
    assert q == p * d + e && v == 256 * q + r;
    Regroup(p, d, e, r);
    RemainderIs(v, 256 * p, d, 256 * e + r);
  }

  lemma {:induction false} Regroup(p: int, d: int, e: int, r: int)
    ensures 256 * (p * d + e) + r == (256 * p) * d + (256 * e + r)
  {}

  lemma {:induction false} ValueOfLittle(v: int, n: nat)
    ensures Value(Little(v, n)) == v % Pow256(n)
    decreases n
  {
    if n > 0 {
      ValueOfLittle(v / 256, n - 1);
      RemainderByBytes(v, Pow256(n - 1));
    }
  }

  /** Numbers that fit in n bytes are what their bytes say. */
  lemma {:induction false} SignedOfLittle(v: int, n: nat)
    requires -Pow256(n) <= 2 * v < Pow256(n)
    ensures SignedValue(Little(v, n)) == v
  {
    ValueOfLittle(v, n);
    if v < 0 {
      RemainderIs(v, Pow256(n), -1, v + Pow256(n));
    } else {
      RemainderIs(v, Pow256(n), 0, v);
    }
  }

  lemma {:induction false} Pow256Values()
    ensures Pow256(1) == 0x100 && Pow256(2) == 0x1_0000 && Pow256(4) == 0x1_0000_0000 && Pow256(8) == 0x1_0000_0000_0000_0000
  {
    assert Pow256(0) == 1;
    assert Pow256(3) == 0x100_0000;
    assert Pow256(5) == 0x100_0000_0000;
    assert Pow256(6) == 0x1_0000_0000_0000;
    assert Pow256(7) == 0x100_0000_0000_0000;
  }
}
