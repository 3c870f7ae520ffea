/** The random draw behind the eviction coin flip: the two halves of a version 4 UUID, folded by exclusive or. */
module EvictionDraw {
  import opened Bits
  import opened Bytes
  import Words
  import Eviction

  /** The little-endian halves of a nonce. */
  datatype Nonce = Nonce(lo: int, hi: int)

  /** Section 5.4 of RFC 9562: the version nibble of byte 6 is 4, the two top bits of byte 8 are 10. */
  ghost predicate IsV4(n: Nonce) {
    && Words.Word(n.lo) && Words.Word(n.hi)
    && !Bit(n.lo, 52) && !Bit(n.lo, 53) && Bit(n.lo, 54) && !Bit(n.lo, 55)
    && !Bit(n.hi, 6) && Bit(n.hi, 7)
  }

  function Draw(n: Nonce): int { Apply(Xor, n.lo, n.hi) }

  /** The fold, bit by bit. */
  lemma DrawBits(n: Nonce, k: nat)
    ensures Bit(Draw(n), k) <==> Bit(n.lo, k) != Bit(n.hi, k)
  {
    ApplyBit(Xor, n.lo, n.hi, k);
  }

  /** Bits 6 and 7: the fixed bits of the high half, which are free in the low one. */
  const FIXED_HIGH: int := 0xc0

  /** Changes the draw by `m` without touching a fixed bit of either half. */
  function Shift(n: Nonce, m: int): Nonce {
    Nonce(Apply(Xor, n.lo, Apply(And, m, FIXED_HIGH)), Apply(Xor, n.hi, Apply(And, m, -1 - FIXED_HIGH)))
  }

  lemma {:induction false} SameBits(a: nat, b: nat)
    requires forall k: nat :: Bit(a, k) == Bit(b, k)
    ensures a == b
    decreases a + b
  {
    if a + b > 0 {
      assert Bit(a, 0) == Bit(b, 0);
      forall k: nat ensures Bit(a / 2, k) == Bit(b / 2, k) { assert Bit(a, k + 1) == Bit(b, k + 1); }
      SameBits(a / 2, b / 2);
    }
  }

  /** Which bits are set in the mask. */
  lemma MaskBits(k: nat)
    ensures Bit(FIXED_HIGH, k) <==> k == 6 || k == 7
  {
    if k < 8 {
    } else {
      assert FIXED_HIGH < Pow2(8);
      Words.HighBits(FIXED_HIGH, 8, k);
    }
  }

  lemma ShiftBits(n: Nonce, m: int, k: nat)
    ensures Bit(Shift(n, m).lo, k) == (Bit(n.lo, k) != (Bit(m, k) && (k == 6 || k == 7)))
    ensures Bit(Shift(n, m).hi, k) == (Bit(n.hi, k) != (Bit(m, k) && !(k == 6 || k == 7)))
  {
    MaskBits(k);
    Words.NotBit(FIXED_HIGH, k);
    hide Bit, Apply;
    ApplyBit(And, m, FIXED_HIGH, k);
    ApplyBit(And, m, -1 - FIXED_HIGH, k);
    ApplyBit(Xor, n.lo, Apply(And, m, FIXED_HIGH), k);
    ApplyBit(Xor, n.hi, Apply(And, m, -1 - FIXED_HIGH), k);
  }

  lemma XorWord(a: int, b: int)
    requires Words.Word(a) && Words.Word(b)
    ensures Words.Word(Apply(Xor, a, b))
  {
    ApplyNonNeg(Xor, a, b);
    ApplyFits(Xor, a, b, 64);
  }

  /** Shifting keeps a nonce a version 4 one. */
  lemma ShiftIsV4(n: Nonce, m: int)
    requires IsV4(n) && Words.Word(m)
    ensures IsV4(Shift(n, m))
  {
    hide Bit, Apply, Pow2;
    Words.AndMask(m, FIXED_HIGH);
    Words.AndMask(m, -1 - FIXED_HIGH);
    XorWord(n.lo, Apply(And, m, FIXED_HIGH));
    XorWord(n.hi, Apply(And, m, -1 - FIXED_HIGH));
    ShiftBits(n, m, 52);
    ShiftBits(n, m, 53);
    ShiftBits(n, m, 54);
    ShiftBits(n, m, 55);
    ShiftBits(n, m, 6);
    ShiftBits(n, m, 7);
  }

  /** Shifting by `m` flips exactly the bits of `m` in the draw. */
  lemma ShiftedDraw(n: Nonce, m: int)
    requires IsV4(n) && Words.Word(m)
    ensures Draw(Shift(n, m)) == Apply(Xor, Draw(n), m)
  {
    hide Bit, Apply, Pow2;
    ShiftIsV4(n, m);
    var t := Shift(n, m);
    XorWord(t.lo, t.hi);
    XorWord(n.lo, n.hi);
    XorWord(Draw(n), m);
    forall k: nat ensures Bit(Draw(t), k) == Bit(Apply(Xor, Draw(n), m), k) {
      ShiftBits(n, m, k);
      ApplyBit(Xor, t.lo, t.hi, k);
      ApplyBit(Xor, n.lo, n.hi, k);
      ApplyBit(Xor, Draw(n), m, k);
    }
    SameBits(Draw(t), Apply(Xor, Draw(n), m));
  }

  /** Shifting twice is doing nothing, so it matches up the nonces of any two draws one to one. */
  lemma ShiftBack(n: Nonce, m: int)
    requires IsV4(n) && Words.Word(m)
    ensures Shift(Shift(n, m), m) == n
  {
    hide Bit, Apply, Pow2;
    var t := Shift(n, m);
    ShiftIsV4(n, m);
    ShiftIsV4(t, m);
    forall k: nat ensures Bit(Shift(t, m).lo, k) == Bit(n.lo, k) && Bit(Shift(t, m).hi, k) == Bit(n.hi, k) {
      ShiftBits(n, m, k);
      ShiftBits(t, m, k);
    }
    SameBits(Shift(t, m).lo, n.lo);
    SameBits(Shift(t, m).hi, n.hi);
  }

  /** The fold has no fixed bits: for any two draws, shifting is a one-to-one map from the nonces of one to those of the
      other, so random nonces give every draw equally often. */
  lemma DrawsEquallyLikely(n: Nonce, d: int)
    requires IsV4(n) && Words.Word(d)
    ensures var m := Apply(Xor, Draw(n), d);
            Words.Word(m) && IsV4(Shift(n, m)) && Draw(Shift(n, m)) == d && Shift(Shift(n, m), m) == n
  {
    hide Bit, Apply, Pow2;
    XorWord(n.lo, n.hi);
    var m := Apply(Xor, Draw(n), d);
    XorWord(Draw(n), d);
    ShiftIsV4(n, m);
    ShiftedDraw(n, m);
    ShiftBack(n, m);
    XorWord(Draw(n), m);
    forall k: nat ensures Bit(Apply(Xor, Draw(n), m), k) == Bit(d, k) {
      ApplyBit(Xor, Draw(n), m, k);
      ApplyBit(Xor, Draw(n), d, k);
    }
    SameBits(Apply(Xor, Draw(n), m), d);
  }

  lemma {:induction false} BitAtLeast(v: nat, k: nat)
    requires Bit(v, k)
    ensures v >= Pow2(k)
    decreases k
  {
    if k > 0 {
      BitAtLeast(v / 2, k - 1);
    }
  }

  lemma Pow2Of54()
    ensures 1024 * Pow2(54) == U64
  {
    Pow2Of63();
    assert Pow2(63) == 2 * Pow2(62) && Pow2(62) == 2 * Pow2(61) && Pow2(61) == 2 * Pow2(60) && Pow2(60) == 2 * Pow2(59);
    assert Pow2(59) == 2 * Pow2(58) && Pow2(58) == 2 * Pow2(57) && Pow2(57) == 2 * Pow2(56) && Pow2(56) == 2 * Pow2(55);
    assert Pow2(55) == 2 * Pow2(54);
  }

  /** The low half alone would never trigger a scan for an entry of at most a 1024th of the threshold. */
  lemma LowHalfNeverFires(n: Nonce, capacity: nat, len: nat)
    requires IsV4(n) && 1024 * len <= Eviction.Threshold(capacity)
    ensures !Eviction.Triggers(capacity, len, n.lo)
  {
    hide Bit, Apply;
    BitAtLeast(n.lo, 54);
    Pow2Of54();
    hide Pow2;
    var t := Eviction.Threshold(capacity);
    Eviction.Scale(Pow2(54), n.lo, t);
    Eviction.Scale(1024 * len, t, Pow2(54));
    assert 1024 * len * Pow2(54) == len * U64 by { assert 1024 * len * Pow2(54) == len * (1024 * Pow2(54)); }
    assert t * Pow2(54) == Pow2(54) * t;
  }

  /** The folded draw can trigger a scan for every non-empty entry. */
  lemma FoldCanFire(n: Nonce, capacity: nat, len: nat)
    requires IsV4(n) && len > 0
    ensures IsV4(Shift(n, Draw(n))) && Draw(Shift(n, Draw(n))) == 0 && Eviction.Triggers(capacity, len, 0)
  {
    hide Bit, Apply, Pow2;
    XorWord(n.lo, n.hi);
    ShiftIsV4(n, Draw(n));
    ShiftedDraw(n, Draw(n));
    XorSelf(Draw(n));
  }

  lemma {:induction false} XorSelf(v: nat)
    ensures Apply(Xor, v, v) == 0
    decreases v
  {
    if v > 0 {
      XorSelf(v / 2);
    }
  }
}
