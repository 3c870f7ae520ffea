/** Byte strings, little-endian numbers and the digest type. */
module Bytes {
  import opened Arith

  type Byte = x: int | 0 <= x < 256

  /** The output of a 32-byte hash such as SHA-256. */
  type Digest = d: seq<Byte> | |d| == 32 witness seq(32, i => 0)

  /** An uninterpreted hash: callers supply it, no property of it is used unless stated. */
  type Hash = seq<Byte> -> Digest

  function Pow256(k: nat): (p: nat)
    ensures p >= 1
  {
    if k == 0 then 1 else 256 * Pow256(k - 1)
  }

  /** `n` in `k` bytes, least significant first. */
  function Le(n: nat, k: nat): (s: seq<Byte>)
    ensures |s| == k
    decreases k
  {
    if k == 0 then [] else [n % 256] + Le(n / 256, k - 1)
  }

  function FromLe(s: seq<Byte>): (n: nat)
    ensures n < Pow256(|s|)
    decreases |s|
  {
    if s == [] then 0 else s[0] + 256 * FromLe(s[1..])
  }

  lemma {:induction false} FromLeLe(n: nat, k: nat)
    requires n < Pow256(k)
    ensures FromLe(Le(n, k)) == n
    decreases k
  {
    if k > 0 {
      FromLeLe(n / 256, k - 1);
      assert Le(n, k)[1..] == Le(n / 256, k - 1);
    }
  }

  lemma {:induction false} LeFromLe(s: seq<Byte>)
    ensures Le(FromLe(s), |s|) == s
    decreases |s|
  {
    if s != [] {
      hide Pow256;
      LeFromLe(s[1..]);
      DivUnique(FromLe(s), 256, FromLe(s[1..]), s[0]);
      assert s == [s[0]] + s[1..];
    }
  }

  /** Byte `i` is the `i`-th base-256 digit. */
  lemma {:induction false} LeDigit(n: nat, k: nat, i: nat)
    requires i < k
    ensures Le(n, k)[i] == n / Pow256(i) % 256
    decreases k
  {
    if i > 0 {
      LeDigit(n / 256, k - 1, i - 1);
      DivDiv(n, Pow256(i - 1));
    }
  }

  lemma DivDiv(n: nat, b: nat)
    requires b >= 1
    ensures n / (256 * b) == n / 256 / b
  {
    var q, r := n / 256, n % 256;
    var t, u := q / b, q % b;
    assert n == 256 * (b * t + u) + r == (256 * b) * t + (256 * u + r);
    DivUnique(n, 256 * b, t, 256 * u + r);
  }

  const U16: int := 0x1_0000
  const U64: int := 0x1_0000_0000_0000_0000

  lemma Widths()
    ensures Pow256(2) == U16 && Pow256(8) == U64
  {
    assert Pow256(4) == 0x1_0000_0000;
    assert Pow256(6) == 0x1_0000_0000_0000;
  }

  function Le16(n: nat): (s: seq<Byte>)
    ensures |s| == 2
  {
    Le(n, 2)
  }

  function Le64(n: nat): (s: seq<Byte>)
    ensures |s| == 8
  {
    Le(n, 8)
  }

  /** A length field holds `n` iff it reads back as `n`. */
  lemma Le16Reads(s: seq<Byte>, n: nat)
    requires |s| == 2
    ensures FromLe(s) < U16 && (n < U16 ==> (s == Le16(n) <==> FromLe(s) == n))
  {
    Widths();
    hide Pow256;
    LeFromLe(s);
    if n < U16 { FromLeLe(n, 2); }
  }

  lemma Le64Reads(s: seq<Byte>, n: nat)
    requires |s| == 8
    ensures FromLe(s) < U64 && (n < U64 ==> (s == Le64(n) <==> FromLe(s) == n))
  {
    Widths();
    hide Pow256;
    LeFromLe(s);
    if n < U64 { FromLeLe(n, 8); }
  }
}
