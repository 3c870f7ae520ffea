/** A bitmap kept in 64-bit words, and the word operations that walk and change it. */
module Words {
  import opened Bits

  /** `v` is the value of a 64-bit word. */
  ghost predicate Word(v: int) { 0 <= v < Pow2(64) }

  /** `v | 1 << b`. */
  function WithBit(v: int, b: nat): int { Apply(Or, v, Pow2(b)) }

  /** `v & !(1 << b)`. */
  function WithoutBit(v: int, b: nat): int { Apply(And, v, -1 - Pow2(b)) }

  /** `v & (v - 1)`. */
  function WithoutLowest(v: int): int { Apply(And, v, v - 1) }

  function TrailingZeros(v: nat): (n: nat)
    requires v > 0
    ensures Bit(v, n)
    decreases v
  {
    if v % 2 == 1 then 0 else 1 + TrailingZeros(v / 2)
  }

  lemma {:induction false} LowestBit(v: nat, k: nat)
    requires v > 0 && Bit(v, k)
    ensures TrailingZeros(v) <= k
    decreases v
  {
    if v % 2 == 0 {
      LowestBit(v / 2, k - 1);
    }
  }

  /** Exactly the lowest set bit is dropped. */
  lemma {:induction false} DropLowest(v: nat, k: nat)
    requires v > 0
    ensures 0 <= WithoutLowest(v) < v
    ensures Bit(WithoutLowest(v), k) <==> Bit(v, k) && k != TrailingZeros(v)
    decreases v
  {
    ApplyNonNeg(And, v, v - 1);
    ApplyBit(And, v, v - 1, k);
    if k > 0 {
      if v % 2 == 1 {
        assert (v - 1) / 2 == v / 2;
      } else {
        assert (v - 1) / 2 == v / 2 - 1;
        DropLowest(v / 2, k - 1);
        ApplyBit(And, v / 2, v / 2 - 1, k - 1);
      }
    }
  }

  lemma {:induction false} PowerBit(b: nat, k: nat)
    ensures Bit(Pow2(b), k) <==> k == b
    decreases b
  {
    if b == 0 {
      if k > 0 { ZeroBit(k - 1); }
    } else if k > 0 {
      PowerBit(b - 1, k - 1);
    }
  }

  lemma {:induction false} ZeroBit(k: nat)
    ensures !Bit(0, k)
    decreases k
  {
    if k > 0 { ZeroBit(k - 1); }
  }

  lemma {:induction false} NotBit(v: int, k: nat)
    ensures Bit(-1 - v, k) <==> !Bit(v, k)
    decreases k
  {
    if k > 0 {
      assert (-1 - v) / 2 == -1 - v / 2;
      NotBit(v / 2, k - 1);
    }
  }

  lemma {:induction false} HighBits(v: nat, n: nat, k: nat)
    requires v < Pow2(n) && k >= n
    ensures !Bit(v, k)
    decreases n
  {
    if n == 0 {
      ZeroBit(k);
    } else {
      HighBits(v / 2, n - 1, k - 1);
    }
  }

  lemma SetBitOf(v: int, b: nat)
    requires Word(v) && b < 64
    ensures Word(WithBit(v, b))
    ensures forall k: nat :: Bit(WithBit(v, b), k) <==> Bit(v, k) || k == b
  {
    Pow2Mono(b + 1, 64);
    ApplyNonNeg(Or, v, Pow2(b));
    ApplyFits(Or, v, Pow2(b), 64);
    forall k: nat ensures Bit(WithBit(v, b), k) <==> Bit(v, k) || k == b {
      ApplyBit(Or, v, Pow2(b), k);
      PowerBit(b, k);
    }
  }

  lemma ClearBitOf(v: int, b: nat)
    requires Word(v) && b < 64
    ensures Word(WithoutBit(v, b))
    ensures forall k: nat :: Bit(WithoutBit(v, b), k) <==> Bit(v, k) && k != b
  {
    var m := -1 - Pow2(b);
    AndMask(v, m);
    forall k: nat ensures Bit(Apply(And, v, m), k) <==> Bit(v, k) && k != b {
      ApplyBit(And, v, m, k);
      NotBit(Pow2(b), k);
      PowerBit(b, k);
    }
  }

  lemma {:induction false} AndMask(v: nat, m: int)
    ensures 0 <= Apply(And, v, m) <= v
    decreases Size(v) + Size(m)
  {
    if Size(v) + Size(m) > 0 {
      AndMask(v / 2, m / 2);
    }
  }

  // ---------------------------------------------------------------- bitmaps

  ghost predicate IsBitmap(words: seq<int>) {
    forall w :: 0 <= w < |words| ==> Word(words[w])
  }

  ghost predicate Marked(words: seq<int>, x: nat) {
    x / 64 < |words| && Bit(words[x / 64], x % 64)
  }

  /** The numbers whose bit is set. */
  ghost function Members(words: seq<int>): set<nat> {
    set x: nat | x < 64 * |words| && Marked(words, x)
  }

  lemma Locate(w: nat, b: nat)
    requires b < 64
    ensures (64 * w + b) / 64 == w && (64 * w + b) % 64 == b
  {
  }

  lemma AddMember(words: seq<int>, w: nat, b: nat)
    requires IsBitmap(words) && w < |words| && b < 64
    ensures var v := words[w := WithBit(words[w], b)];
            IsBitmap(v) && Members(v) == Members(words) + {64 * w + b}
  {
    SetBitOf(words[w], b);
    Locate(w, b);
    var v := words[w := WithBit(words[w], b)];
    forall x: nat | x < 64 * |words| ensures Marked(v, x) <==> Marked(words, x) || x == 64 * w + b {
      assert x == 64 * (x / 64) + x % 64;
    }
  }

  lemma DropMember(words: seq<int>, w: nat, b: nat)
    requires IsBitmap(words) && w < |words| && b < 64
    ensures var v := words[w := WithoutBit(words[w], b)];
            IsBitmap(v) && Members(v) == Members(words) - {64 * w + b}
  {
    ClearBitOf(words[w], b);
    Locate(w, b);
    var v := words[w := WithoutBit(words[w], b)];
    forall x: nat | x < 64 * |words| ensures Marked(v, x) <==> Marked(words, x) && x != 64 * w + b {
      assert x == 64 * (x / 64) + x % 64;
    }
  }

  ghost predicate InWord(v: int, w: nat, x: nat) { x >= 64 * w && Bit(v, x - 64 * w) }

  /** The numbers marked in word `w`, when it reads `v`. */
  ghost function WordMembers(v: int, w: nat): set<nat> {
    set x: nat | 64 * w <= x < 64 * w + 64 && InWord(v, w, x)
  }

  lemma WordMembersOf(words: seq<int>, w: nat)
    requires w < |words|
    ensures (set x | x in Members(words) && x / 64 == w) == WordMembers(words[w], w)
  {
    forall x: nat | 64 * w <= x < 64 * w + 64 ensures Marked(words, x) <==> InWord(words[w], w, x) {
      Locate(w, x - 64 * w);
    }
    hide Marked, InWord;
  }

  lemma NoMembers(w: nat)
    ensures WordMembers(0, w) == {}
  {
    forall k: nat ensures !Bit(0, k) { ZeroBit(k); }
  }

  /** Taking the lowest bit off a non-zero word takes its least member away. */
  lemma LeastMember(v: int, w: nat)
    requires Word(v) && v != 0
    ensures TrailingZeros(v) < 64 && 0 <= WithoutLowest(v) < v && Word(WithoutLowest(v))
    ensures var x := 64 * w + TrailingZeros(v);
            && x in WordMembers(v, w) && WordMembers(WithoutLowest(v), w) == WordMembers(v, w) - {x}
            && forall y :: y in WordMembers(v, w) ==> x <= y
  {
    hide Bit, TrailingZeros, Pow2;
    var x := 64 * w + TrailingZeros(v);
    if TrailingZeros(v) >= 64 { HighBits(v, 64, TrailingZeros(v)); }
    DropLowest(v, 0);
    assert InWord(v, w, x);
    forall y | y in WordMembers(v, w) ensures x <= y { LowestBit(v, y - 64 * w); }
    forall y: nat | 64 * w <= y < 64 * w + 64 
      ensures InWord(WithoutLowest(v), w, y) <==> InWord(v, w, y) && y != x
    {
      DropLowest(v, y - 64 * w);
    }
  }
}
