/**
 * Two's-complement bit operations on mathematical integers. A negative number
 * has infinitely many leading one bits, so on values that fit a machine word
 * these are exactly the word's own operations.
 */
module Bits {

  function Pow2(n: nat): (p: int)
    ensures p >= 1
  {
    if n == 0 then 1 else 2 * Pow2(n - 1)
  }

  /** Bit `k` of `v`. */
  predicate Bit(v: int, k: nat)
    decreases k
  {
    if k == 0 then v % 2 == 1 else Bit(v / 2, k - 1)
  }

  datatype BitOp = And | Or | Xor {
    predicate On(x: bool, y: bool) {
      match this
      case And => x && y
      case Or => x || y
      case Xor => x != y
    }
  }

  function Size(v: int): nat { if v >= 0 then v else -1 - v }

  function Apply(op: BitOp, a: int, b: int): int
    decreases Size(a) + Size(b)
  {
    if Size(a) == 0 && Size(b) == 0 then
      if op.On(a == -1, b == -1) then -1 else 0
    else
      2 * Apply(op, a / 2, b / 2) + (if op.On(a % 2 == 1, b % 2 == 1) then 1 else 0)
  }

  /** `Apply` works bit by bit: its defining property. */
  lemma {:induction false} ApplyBit(op: BitOp, a: int, b: int, k: nat)
    ensures Bit(Apply(op, a, b), k) == op.On(Bit(a, k), Bit(b, k))
    decreases k
  {
    var r := Apply(op, a, b);
    assert r / 2 == Apply(op, a / 2, b / 2) && (r % 2 == 1) == op.On(a % 2 == 1, b % 2 == 1);
    if k > 0 {
      ApplyBit(op, a / 2, b / 2, k - 1);
    }
  }

  /** `v` fits in `k + 1`-bit two's complement. */
  predicate Fits(v: int, k: nat) {
    -Pow2(k) <= v < Pow2(k)
  }

  /** Operands that fit in a word give a result that fits in it. */
  lemma {:induction false} ApplyFits(op: BitOp, a: int, b: int, k: nat)
    requires Fits(a, k) && Fits(b, k)
    ensures Fits(Apply(op, a, b), k)
    decreases k
  {
    if k > 0 {
      ApplyFits(op, a / 2, b / 2, k - 1);
      assert Apply(op, a, b) / 2 == Apply(op, a / 2, b / 2);
    }
  }

  /** Non-negative operands: the sign and the side each operation cannot cross. */
  lemma {:induction false} ApplyNonNeg(op: BitOp, a: int, b: int)
    requires a >= 0 && b >= 0
    ensures Apply(op, a, b) >= 0
    ensures op.And? ==> Apply(op, a, b) <= a && Apply(op, a, b) <= b
    ensures op.Or? ==> Apply(op, a, b) >= a && Apply(op, a, b) >= b
    decreases Size(a) + Size(b)
  {
    if Size(a) + Size(b) > 0 {
      ApplyNonNeg(op, a / 2, b / 2);
    }
  }

  /** Number of bits needed to write `v`: 64 minus the leading zeros of a 64-bit word. */
  function BitLen(v: nat): (n: nat)
    ensures v < Pow2(n)
    ensures v > 0 ==> n > 0 && Pow2(n - 1) <= v
  {
    if v == 0 then 0 else 1 + BitLen(v / 2)
  }

  lemma {:induction false} Pow2Mono(m: nat, n: nat)
    requires m <= n
    ensures Pow2(m) <= Pow2(n)
    decreases n
  {
    if m < n {
      Pow2Mono(m, n - 1);
    }
  }

  /** `BitLen` is the least width that covers the value. */
  lemma BitLenLeast(v: nat, n: nat)
    ensures v < Pow2(n) <==> BitLen(v) <= n
  {
    if BitLen(v) <= n {
      Pow2Mono(BitLen(v), n);
    } else if v > 0 {
      Pow2Mono(n, BitLen(v) - 1);
    }
  }

  lemma {:induction false} BitLenMono(v: nat, w: nat)
    requires v <= w
    ensures BitLen(v) <= BitLen(w)
    decreases w
  {
    if v > 0 {
      BitLenMono(v / 2, w / 2);
    }
  }

  /** `|` sets no bit above the highest bit of either operand. */
  lemma BitLenOr(a: nat, b: nat)
    ensures Apply(Or, a, b) >= 0
    ensures BitLen(Apply(Or, a, b)) == if a <= b then BitLen(b) else BitLen(a)
  {
    ApplyNonNeg(Or, a, b);
    var r := Apply(Or, a, b);
    var m := if a <= b then b else a;
    BitLenMono(m, r);
    BitLenLeast(a, BitLen(m));
    BitLenLeast(b, BitLen(m));
    BitLenMono(a, m);
    BitLenMono(b, m);
    ApplyFits(Or, a, b, BitLen(m));
    BitLenLeast(r, BitLen(m));
  }

  lemma Pow2Of63()
    ensures Pow2(63) == 0x8000_0000_0000_0000
  {
    assert Pow2(8) == 256 by { assert Pow2(4) == 16; }
    assert Pow2(16) == 0x1_0000 by { assert Pow2(12) == 0x1000; }
    assert Pow2(24) == 0x100_0000 by { assert Pow2(20) == 0x10_0000; }
    assert Pow2(32) == 0x1_0000_0000 by { assert Pow2(28) == 0x1000_0000; }
    assert Pow2(40) == 0x100_0000_0000 by { assert Pow2(36) == 0x10_0000_0000; }
    assert Pow2(48) == 0x1_0000_0000_0000 by { assert Pow2(44) == 0x1000_0000_0000; }
    assert Pow2(56) == 0x100_0000_0000_0000 by { assert Pow2(52) == 0x10_0000_0000_0000; }
    assert Pow2(60) == 0x1000_0000_0000_0000;
  }

  /** The width of a word without its sign bit, kept symbolic so that powers of it do not unroll. */
  lemma WordWidth() returns (w: nat)
    ensures 62 < w < 64 && Pow2(w) == 0x8000_0000_0000_0000
  {
    w := 63;
    Pow2Of63();
  }
}
