/** Types shared by every module. */
module Prelude {

  datatype Option<+T> = None | Some(value: T)

  datatype Result<+T, +E> = Ok(value: T) | Err(error: E)

  function Least(a: int, b: int): int { if a <= b then a else b }
  function Greatest(a: int, b: int): int { if a >= b then a else b }

  /** No value occurs twice. */
  ghost predicate Distinct<T>(s: seq<T>) {
    forall i, j :: 0 <= i < j < |s| ==> s[i] != s[j]
  }

  /** A slice of a slice. */
  lemma SliceSlice<T>(b: seq<T>, lo: nat, hi: nat, x: nat, y: nat)
    requires lo <= hi <= |b| && x <= y <= hi - lo
    ensures b[lo..hi][x..y] == b[lo + x..lo + y]
  {
    var s, t := b[lo..hi][x..y], b[lo + x..lo + y];
    forall k | 0 <= k < |s| ensures s[k] == t[k] {
      assert s[k] == b[lo..hi][x + k] == b[lo + (x + k)];
    }
  }

  lemma Cut3<T>(a: seq<T>, b: seq<T>, c: seq<T>)
    ensures (a + b + c)[..|a|] == a && (a + b + c)[|a|..|a| + |b|] == b && (a + b + c)[|a| + |b|..] == c
  {
  }

  /** A sequence is a concatenation of three pieces iff it has them in place. */
  lemma ThreePieces<T>(s: seq<T>, a: seq<T>, b: seq<T>, c: seq<T>)
    requires |s| == |a| + |b| + |c|
    ensures s == a + b + c <==> s[..|a|] == a && s[|a|..|a| + |b|] == b && s[|a| + |b|..] == c
  {
    Cut3(a, b, c);
    assert s == s[..|a|] + s[|a|..|a| + |b|] + s[|a| + |b|..];
  }

  lemma FourPieces<T>(s: seq<T>, a: seq<T>, b: seq<T>, c: seq<T>, d: seq<T>)
    requires |s| == |a| + |b| + |c| + |d|
    ensures var i, j := |a| + |b|, |a| + |b| + |c|;
            s == a + b + c + d <==> s[0..|a|] == a && s[|a|..i] == b && s[i..j] == c && s[j..] == d
  {
    var i := |a| + |b|;
    ThreePieces(s, a + b, c, d);
    ThreePieces(s[..i], [], a, b);
    assert [] + a + b == a + b;
    SliceSlice(s, 0, i, 0, |a|);
    SliceSlice(s, 0, i, |a|, i);
  }

  lemma PushNew<T>(q: seq<T>, v: T)
    requires v !in q && Distinct(q)
    ensures Distinct(q + [v])
    ensures forall w :: w in q + [v] <==> w in q || w == v
  {
    assert (q + [v])[|q|] == v;
  }

  lemma PopLast<T>(q: seq<T>)
    requires q != [] && Distinct(q)
    ensures Distinct(q[..|q| - 1])
    ensures forall v :: v in q[..|q| - 1] <==> v in q && v != q[|q| - 1]
  {
    var p := q[..|q| - 1];
    assert forall v :: v in q ==> v in p || v == q[|q| - 1];
  }

}

/** The range of a signed 64-bit integer. */
module I64 {
  import opened Prelude

  const MIN: int := -0x8000_0000_0000_0000
  const MAX: int := 0x7fff_ffff_ffff_ffff

  predicate In(x: int) { MIN <= x <= MAX }

  /** A checked operation with exact result `x`. */
  function Checked(x: int): Option<int> { if In(x) then Some(x) else None }
}

/** Facts about multiplication and Euclidean division. */
module Arith {

  lemma MulCancel(d: nat, q: int, r: int)
    requires d > 0 && d * q < d * (r + 1)
    ensures q <= r
  {
  }

  lemma DivUnique(a: int, d: nat, q: int, r: nat)
    requires a == d * q + r && r < d
    ensures a / d == q && a % d == r
  {
    assert d * (q - a / d) == a % d - r;
    MulCancel(d, q, a / d);
    MulCancel(d, a / d, q);
  }

  lemma ModShift(x: int, d: nat, q: int)
    requires d >= 1
    ensures (x + d * q) % d == x % d
  {
    assert x + d * q == d * (x / d + q) + x % d;
    DivUnique(x + d * q, d, x / d + q, x % d);
  }

  lemma OppositeResidues(x: int, d: nat)
    requires d >= 1
    ensures x % d == (-x) % d <==> (2 * x) % d == 0
  {
    var q, r := x / d, x % d;
    assert x == d * q + r;
    if r == 0 {
      DivUnique(-x, d, -q, 0);
      DivUnique(2 * x, d, 2 * q, 0);
    } else {
      DivUnique(-x, d, -q - 1, d - r);
      if 2 * r < d {
        DivUnique(2 * x, d, 2 * q, 2 * r);
      } else {
        DivUnique(2 * x, d, 2 * q + 1, 2 * r - d);
      }
    }
  }
}
