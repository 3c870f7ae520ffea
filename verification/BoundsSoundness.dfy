/** The interval analysis is sound, and as tight as its method allows. */
module BoundsSoundness {
  import opened Prelude
  import opened I64
  import opened Bounds
  import opened Arith
  import B = Bits

  ghost predicate Between(x: int, y: int, z: int) {
    x <= z <= y || y <= z <= x
  }

  /** `f` moves one way only along each axis of the box, so its extremes are at the corners. */
  ghost predicate AxisMonotone(a: Bounds, b: Bounds, f: (int, int) --> int) {
    && (forall x, y :: a.Has(x) && b.Has(y) ==> f.requires(x, y))
    && (forall x, y :: a.Has(x) && b.Has(y) ==> Between(f(a.start, y), f(a.end, y), f(x, y)))
    && (forall x, y :: a.Has(x) && b.Has(y) ==> Between(f(x, b.start), f(x, b.end), f(x, y)))
  }

  lemma CornersSuffice(a: Bounds, b: Bounds, f: (int, int) --> int, x: int, y: int)
    requires AxisMonotone(a, b, f) && a.Has(x) && b.Has(y)
    ensures Corners(a, b, f).Has(f(x, y))
  {
    assert Between(f(a.start, y), f(a.end, y), f(x, y));
    assert Between(f(a.start, b.start), f(a.start, b.end), f(a.start, y));
    assert Between(f(a.end, b.start), f(a.end, b.end), f(a.end, y));
  }

  lemma MulMono(lo: int, x: int, hi: int, y: int)
    requires lo <= x <= hi
    ensures Between(lo * y, hi * y, x * y)
  {
    if y >= 0 {
      assert (x - lo) * y >= 0 && (hi - x) * y >= 0;
    } else {
      assert (x - lo) * y <= 0 && (hi - x) * y <= 0;
    }
  }

  lemma DivMono(n: nat, m: nat, d: nat)
    requires n <= m && d > 0
    ensures Quot(n, d) <= Quot(m, d)
  {
    MulCancel(d, n / d, m / d);
  }

  lemma DivAnti(n: nat, d: nat, e: nat)
    requires 0 < d <= e
    ensures Quot(n, e) <= Quot(n, d)
  {
    assert d * (n / e) <= e * (n / e) by { MulMono(0, d, e, n / e); }
    MulCancel(d, n / e, n / d);
  }

  /** Truncated division by a divisor of one sign is monotone along both axes. */
  lemma DivAxis(a: Interval, b: Interval)
    requires !b.Has(0)
    ensures AxisMonotone(a, b, SatDiv)
  {
    hide Quot;
    forall x, y | a.Has(x) && b.Has(y)
      ensures Between(SatDiv(a.start, y), SatDiv(a.end, y), SatDiv(x, y))
    {
      TruncMono(a.start, x, y);
      TruncMono(x, a.end, y);
    }
    forall x, y | a.Has(x) && b.Has(y)
      ensures Between(SatDiv(x, b.start), SatDiv(x, b.end), SatDiv(x, y))
    {
      TruncAnti(x, b.start, y);
      TruncAnti(x, y, b.end);
    }
  }

  lemma TruncMono(x: int, z: int, y: int)
    requires x <= z && y != 0
    ensures if y > 0 then TruncDiv(x, y) <= TruncDiv(z, y) else TruncDiv(x, y) >= TruncDiv(z, y)
  {
    hide Quot;
    if x >= 0 {
      DivMono(x, z, Abs(y));
    } else if z < 0 {
      DivMono(-z, -x, Abs(y));
    }
  }

  lemma TruncAnti(x: int, y: int, z: int)
    requires y <= z && y != 0 && z != 0 && (y > 0 || z < 0)
    ensures if x >= 0 then TruncDiv(x, y) >= TruncDiv(x, z) else TruncDiv(x, y) <= TruncDiv(x, z)
  {
    hide Quot;
    if y > 0 {
      DivAnti(Abs(x), y, z);
    } else {
      DivAnti(Abs(x), -z, -y);
    }
  }

  lemma FloorNeg(n: nat, d: nat)
    requires d > 0
    ensures (0 - n) / d == -Quot(n, d) - One(n % d != 0)
  {
    if n % d == 0 {
      DivUnique(0 - n, d, -(n / d), 0);
    } else {
      DivUnique(0 - n, d, -(n / d) - 1, d - n % d);
    }
  }

  /** The source's ceiling division is the saturated exact ceiling. */
  lemma DivCeilExact(x: int, y: int)
    requires Bounds(MIN, MAX).Has(x) && Bounds(MIN, MAX).Has(y) && y != 0
    ensures DivCeil(x, y) == Clamp(CeilOf(x, y))
  {
    FloorNeg(Abs(x), Abs(y));
  }

  lemma TruncatedRecomposes(a: int, b: int)
    requires b != 0
    ensures b * TruncDiv(a, b) + TruncRem(a, b) == a
  {
    var n, d := Abs(a), Abs(b);
    assert n == d * (n / d) + n % d;
    SignedProduct(a, b, n / d);
  }

  lemma UnsignedForm(a: int, b: int, q: int, r: int, k: int)
    requires b * q + r == a && (if a >= 0 then r >= 0 else r <= 0)
    requires k == if (a >= 0) == (b > 0) then q else -q
    ensures Abs(a) == Abs(b) * k + Abs(r)
  {
    SignedProduct(a, b, k);
  }

  /** Quotient and remainder fit together, and no other pair does with a remainder that is smaller than the divisor and
      has the sign of the dividend. */
  lemma TruncatedDivision(a: int, b: int, q: int, r: int)
    requires b != 0
    ensures b * TruncDiv(a, b) + TruncRem(a, b) == a
    ensures Abs(TruncRem(a, b)) < Abs(b) && (if a >= 0 then TruncRem(a, b) >= 0 else TruncRem(a, b) <= 0)
    ensures b * q + r == a && Abs(r) < Abs(b) && (if a >= 0 then r >= 0 else r <= 0)
            ==> q == TruncDiv(a, b) && r == TruncRem(a, b)
  {
    TruncatedRecomposes(a, b);
    RemRange(a, b);
    if b * q + r == a && Abs(r) < Abs(b) && (if a >= 0 then r >= 0 else r <= 0) {
      var k := if (a >= 0) == (b > 0) then q else -q;
      UnsignedForm(a, b, q, r, k);
      DivUnique(Abs(a), Abs(b), k, Abs(r));
    }
  }

  /** Moving signs out of a product. */
  lemma SignedProduct(a: int, b: int, k: int)
    ensures b * (if (a >= 0) == (b > 0) then k else -k) == if a >= 0 then Abs(b) * k else -(Abs(b) * k)
  {
  }

  /** The ceiling: at least the exact quotient, and less than one above it. */
  lemma CeilIsCeiling(x: int, y: int)
    requires y != 0
    ensures var c := CeilOf(x, y);
            if y > 0 then y * (c - 1) < x <= y * c else y * (c - 1) > x >= y * c
  {
    if y > 0 {
      CeilChar(x, y);
    } else {
      CeilNegate(x, y);
      CeilChar(-x, -y);
      var c := CeilOf(x, y);
      assert (-y) * (c - 1) == -(y * (c - 1)) && (-y) * c == -(y * c);
    }
  }

  /** Saturation gives the nearest `i64`. */
  lemma ClampNearest(x: int, y: int)
    requires In(y)
    ensures In(Clamp(x)) && (In(x) ==> Clamp(x) == x) && Abs(Clamp(x) - x) <= Abs(y - x)
  {
  }

  lemma CeilChar(x: int, y: int)
    requires y > 0
    ensures y * (CeilOf(x, y) - 1) < x <= y * CeilOf(x, y)
  {
    assert -x == y * ((-x) / y) + (-x) % y;
  }

  lemma CeilMono(x: int, z: int, y: int)
    requires x <= z && y > 0
    ensures CeilOf(x, y) <= CeilOf(z, y)
  {
    CeilChar(x, y);
    CeilChar(z, y);
    var p, q := CeilOf(x, y), CeilOf(z, y);
    MulCancel(y, p - 1, q - 1);
  }

  lemma CeilAnti(x: int, y: int, z: int)
    requires 0 < y <= z
    ensures if x >= 0 then CeilOf(x, z) <= CeilOf(x, y) else CeilOf(x, y) <= CeilOf(x, z)
  {
    CeilChar(x, y);
    CeilChar(x, z);
    var p, q := CeilOf(x, y), CeilOf(x, z);
    if x >= 0 {
      assert 0 <= p by { MulCancel(y, 0, p); }
      MulMono(0, y, z, p);
      MulCancel(z, q - 1, p - 1);
    } else {
      assert q <= 0 by { MulCancel(z, q - 1, -1); }
      MulMono(0, y, z, q);
      MulCancel(y, p - 1, q - 1);
    }
  }

  lemma CeilNegate(x: int, y: int)
    requires y < 0
    ensures CeilOf(x, y) == CeilOf(-x, -y)
  {
  }

  lemma CeilAxis(a: Interval, b: Interval)
    requires !b.Has(0)
    ensures AxisMonotone(a, b, DivCeil)
  {
    hide DivCeil, CeilOf;
    forall x, y | a.Has(x) && b.Has(y)
      ensures Between(DivCeil(a.start, y), DivCeil(a.end, y), DivCeil(x, y))
    {
      DivCeilExact(a.start, y); DivCeilExact(x, y); DivCeilExact(a.end, y);
      if y > 0 {
        CeilMono(a.start, x, y); CeilMono(x, a.end, y);
      } else {
        CeilNegate(a.start, y); CeilNegate(x, y); CeilNegate(a.end, y);
        CeilMono(-x, -a.start, -y); CeilMono(-a.end, -x, -y);
      }
    }
    forall x, y | a.Has(x) && b.Has(y)
      ensures Between(DivCeil(x, b.start), DivCeil(x, b.end), DivCeil(x, y))
    {
      DivCeilExact(x, b.start); DivCeilExact(x, y); DivCeilExact(x, b.end);
      if y > 0 {
        CeilAnti(x, b.start, y); CeilAnti(x, y, b.end);
      } else {
        CeilNegate(x, b.start); CeilNegate(x, y); CeilNegate(x, b.end);
        CeilAnti(-x, -y, -b.start); CeilAnti(-x, -b.end, -y);
      }
    }
  }

  lemma MulAxis(a: Interval, b: Interval)
    ensures AxisMonotone(a, b, SatMul)
  {
    forall x, y | a.Has(x) && b.Has(y)
      ensures Between(SatMul(a.start, y), SatMul(a.end, y), SatMul(x, y))
      ensures Between(SatMul(x, b.start), SatMul(x, b.end), SatMul(x, y))
    {
      MulMono(a.start, x, a.end, y);
      MulMono(b.start, y, b.end, x);
    }
  }

  /** An operation whose bounds are sampled at the four corners. */
  predicate Cornered(op: TileBinaryOp) {
    !op.IsShift() && !op.Rem? && !op.IsBitwise() && !op.Eq? && !op.Ne?
  }

  /** What the code samples at a corner. */
  function Sample(op: TileBinaryOp): (int, int) --> int
    requires Cornered(op)
  {
    match op
    case Add => SatAdd
    case Sub => SatSub
    case Mul => SatMul
    case Div => SatDiv
    case TrueDiv => SatDiv
    case CeilDiv => DivCeil
    case Lt => LtVal
    case Le => LeVal
    case Gt => GtVal
    case Ge => GeVal
    case Min => Least
    case Max => Greatest
  }

  predicate Defined(op: TileBinaryOp, b: Interval) {
    op.HasDivisor() ==> !b.Has(0)
  }

  lemma AddAxis(a: Interval, b: Interval)
    ensures AxisMonotone(a, b, SatAdd)
  {
  }

  lemma SubAxis(a: Interval, b: Interval)
    ensures AxisMonotone(a, b, SatSub)
  {
  }

  lemma OrderAxis(a: Interval, b: Interval)
    ensures AxisMonotone(a, b, LtVal) && AxisMonotone(a, b, LeVal)
    ensures AxisMonotone(a, b, GtVal) && AxisMonotone(a, b, GeVal)
  {
  }

  lemma ExtremeAxis(a: Interval, b: Interval)
    ensures AxisMonotone(a, b, Least) && AxisMonotone(a, b, Greatest)
  {
  }

  lemma SampleAxis(op: TileBinaryOp, a: Interval, b: Interval)
    requires Cornered(op) && Defined(op, b)
    ensures AxisMonotone(a, b, Sample(op))
  {
    hide SatDiv, DivCeil, SatMul, AxisMonotone;
    if op.Mul? {
      MulAxis(a, b);
    } else if op.Div? || op.TrueDiv? {
      DivAxis(a, b);
    } else if op.CeilDiv? {
      CeilAxis(a, b);
    } else {
      AddAxis(a, b);
      SubAxis(a, b);
      OrderAxis(a, b);
      ExtremeAxis(a, b);
    }
  }

  lemma SampleExact(op: TileBinaryOp, a: Interval, b: Interval, x: int, y: int)
    requires Cornered(op) && Defined(op, b) && a.Has(x) && b.Has(y)
    ensures Sample(op).requires(x, y) && Sample(op)(x, y) == Clamp(Meaning(op, x, y))
  {
    if op.CeilDiv? { DivCeilExact(x, y); }
  }

  /** `BoundsFromBop` takes the corners of `Sample`, also where it short-cuts exact operands. */
  lemma IsCorners(op: TileBinaryOp, a: Interval, b: Interval)
    requires Cornered(op) && Defined(op, b)
    ensures Sample(op).requires(a.start, b.start) && Sample(op).requires(a.start, b.end)
    ensures Sample(op).requires(a.end, b.start) && Sample(op).requires(a.end, b.end)
    ensures BoundsFromBop(op, a, b) == Some(Corners(a, b, Sample(op)))
  {
    hide TruncDiv, SatMul, CeilOf, Clamp;
  }

  lemma CornerSound(op: TileBinaryOp, a: Interval, b: Interval, x: int, y: int)
    requires Cornered(op) && Defined(op, b) && a.Has(x) && b.Has(y)
    ensures BoundsFromBop(op, a, b).Some?
    ensures var r := BoundsFromBop(op, a, b).value; r.WellFormed() && r.Has(Clamp(Meaning(op, x, y)))
  {
    hide BoundsFromBop, Meaning, Sample;
    IsCorners(op, a, b);
    SampleAxis(op, a, b);
    CornersSuffice(a, b, Sample(op), x, y);
    SampleExact(op, a, b, x, y);
    SampleExact(op, a, b, a.start, b.start);
    SampleExact(op, a, b, a.start, b.end);
    SampleExact(op, a, b, a.end, b.start);
    SampleExact(op, a, b, a.end, b.end);
  }

  /** Both ends of sampled bounds are values the operation takes on the operands. */
  lemma CornerTight(op: TileBinaryOp, a: Interval, b: Interval) returns (x: int, y: int, u: int, v: int)
    requires Cornered(op) && Defined(op, b)
    ensures a.Has(x) && b.Has(y) && a.Has(u) && b.Has(v) && BoundsFromBop(op, a, b).Some?
    ensures BoundsFromBop(op, a, b) == Some(Bounds(Clamp(Meaning(op, x, y)), Clamp(Meaning(op, u, v))))
  {
    hide BoundsFromBop, Meaning, Sample;
    IsCorners(op, a, b);
    SampleExact(op, a, b, a.start, b.start);
    SampleExact(op, a, b, a.start, b.end);
    SampleExact(op, a, b, a.end, b.start);
    SampleExact(op, a, b, a.end, b.end);
    var f := Sample(op);
    x, y := a.start, b.start;
    if f(a.start, b.end) < f(x, y) { y := b.end; }
    if f(a.end, b.start) < f(x, y) { x, y := a.end, b.start; }
    if f(a.end, b.end) < f(x, y) { x, y := a.end, b.end; }
    u, v := a.start, b.start;
    if f(a.start, b.end) > f(u, v) { v := b.end; }
    if f(a.end, b.start) > f(u, v) { u, v := a.end, b.start; }
    if f(a.end, b.end) > f(u, v) { u, v := a.end, b.end; }
  }

  // ------------------------------------------------------------- equality, rem

  lemma EqualitySound(op: TileBinaryOp, a: Interval, b: Interval, x: int, y: int)
    requires (op.Eq? || op.Ne?) && a.Has(x) && b.Has(y)
    ensures BoundsFromBop(op, a, b).Some?
    ensures var r := BoundsFromBop(op, a, b).value; r.WellFormed() && r.Has(Clamp(Meaning(op, x, y)))
  {
  }

  lemma EqualityTight(op: TileBinaryOp, a: Interval, b: Interval) returns (x: int, y: int, u: int, v: int)
    requires op.Eq? || op.Ne?
    ensures a.Has(x) && b.Has(y) && a.Has(u) && b.Has(v)
    ensures BoundsFromBop(op, a, b) == Some(Bounds(Clamp(Meaning(op, x, y)), Clamp(Meaning(op, u, v))))
  {
    x, y, u, v := a.start, b.start, a.start, b.start;
    if !(a.IsExact() && b.IsExact()) && !(a.end < b.start || b.end < a.start) {
      var m := Greatest(a.start, b.start);
      var p, q := a.start, if a.start == b.start then b.end else b.start;
      if p == q { p := a.end; }
      if op.Eq? {
        x, y, u, v := p, q, m, m;
      } else {
        x, y, u, v := m, m, p, q;
      }
    }
  }

  lemma RemRange(x: int, y: int)
    requires y != 0
    ensures Abs(TruncRem(x, y)) < Abs(y) && Abs(TruncRem(x, y)) <= Abs(x)
    ensures if x >= 0 then TruncRem(x, y) >= 0 else TruncRem(x, y) <= 0
    ensures Abs(x) < Abs(y) ==> TruncRem(x, y) == x
    ensures y == -1 ==> TruncRem(x, y) == 0
  {
    assert Abs(x) == Abs(y) * (Abs(x) / Abs(y)) + Abs(x) % Abs(y);
    if Abs(x) < Abs(y) { DivUnique(Abs(x), Abs(y), 0, Abs(x)); }
  }

  lemma RemSound(a: Interval, b: Interval, x: int, y: int)
    requires !b.Has(0) && a.Has(x) && b.Has(y)
    ensures BoundsFromBop(Rem, a, b).Some?
    ensures var r := BoundsFromBop(Rem, a, b).value; r.WellFormed() && r.Has(TruncRem(x, y))
  {
    hide TruncRem;
    RemRange(x, y);
  }

  /** Remainder bounds exceed neither the largest residue nor the dividend, and keep its sign. */
  lemma RemNarrow(a: Interval, b: Interval, v: int)
    requires !b.Has(0) && BoundsFromBop(Rem, a, b).Some? && BoundsFromBop(Rem, a, b).value.Has(v)
    ensures Abs(v) < Greatest(Abs(b.start), Abs(b.end))
    ensures Least(a.start, 0) <= v <= Greatest(a.end, 0)
  {
    hide TruncRem;
    RemRange(a.start, b.start);
  }

  /** If the dividend may be zero, both ends of the remainder bounds are reached. */
  lemma RemTight(a: Interval, b: Interval) returns (x: int, u: int, y: int)
    requires !b.Has(0) && a.Has(0)
    ensures a.Has(x) && a.Has(u) && b.Has(y)
    ensures BoundsFromBop(Rem, a, b) == Some(Bounds(TruncRem(x, y), TruncRem(u, y)))
  {
    hide TruncRem;
    y := if Abs(b.start) >= Abs(b.end) then b.start else b.end;
    var r := BoundsFromBop(Rem, a, b).value;
    x, u := r.start, r.end;
    RemRange(x, y);
    RemRange(u, y);
    RemRange(a.start, b.start);
  }

  // ------------------------------------------------------------------- bitwise

  lemma OnesOverBound(v: nat)
    requires v <= MAX
    ensures v <= OnesOver(v) <= MAX
    ensures OnesOver(v) == B.Pow2(B.BitLen(v)) - 1
  {
    var word := B.WordWidth();
    B.BitLenLeast(v, word);
    B.Pow2Mono(B.BitLen(v), word);
    assert B.Pow2(0) == 1;
  }

  /** `OnesOver` of an `|` is the shortest run of ones that covers both operands. */
  lemma OrOnes(p: nat, q: nat) returns (n: nat)
    requires p <= MAX && q <= MAX
    ensures B.Apply(B.Or, p, q) >= 0 && OnesOver(B.Apply(B.Or, p, q)) == B.Pow2(n) - 1 <= MAX
    ensures Greatest(p, q) < B.Pow2(n) && (n > 0 ==> B.Pow2(n - 1) <= Greatest(p, q))
  {
    hide B.Apply, B.Pow2, OnesOver;
    B.BitLenOr(p, q);
    n := B.BitLen(Greatest(p, q));
    var word := B.WordWidth();
    B.BitLenLeast(Greatest(p, q), word);
    B.BitLenLeast(B.Apply(B.Or, p, q), word);
    OnesOverBound(B.Apply(B.Or, p, q));
    if n == 0 { PowZero(); }
  }

  lemma PowZero()
    ensures B.Pow2(0) == 1
  {
  }

  lemma NonNegSound(op: TileBinaryOp, a: Interval, b: Interval, x: int, y: int)
    requires op.IsBitwise() && a.Has(x) && b.Has(y) && a.start >= 0 && b.start >= 0
    requires !(a.IsExact() && b.IsExact())
    ensures var r := BitwiseBounds(op, a, b); r.WellFormed() && r.Has(Meaning(op, x, y))
  {
    hide B.Apply, B.Pow2, OnesOver, SignedBits;
    var f := BitOpOf(op);
    B.ApplyNonNeg(f, x, y);
    var n := OrOnes(a.end, b.end);
    B.ApplyFits(f, x, y, n);
  }

  lemma SignedBitsFits(v: int, k: nat)
    ensures B.Fits(v, k) <==> SignedBits(v) <= k + 1
  {
    B.BitLenLeast(B.Size(v), k);
  }

  /** The signed envelope is the narrowest two's-complement range that holds every endpoint. */
  lemma BitwiseSignedNarrow(op: TileBinaryOp, a: Interval, b: Interval) returns (w: nat)
    requires op.IsBitwise() && (a.start < 0 || b.start < 0) && !(a.IsExact() && b.IsExact())
    ensures BitwiseBounds(op, a, b) == Bounds(-B.Pow2(w), B.Pow2(w) - 1) && B.Pow2(w) - 1 <= MAX
    ensures B.Fits(a.start, w) && B.Fits(a.end, w) && B.Fits(b.start, w) && B.Fits(b.end, w)
    ensures w > 0 ==> !(B.Fits(a.start, w - 1) && B.Fits(a.end, w - 1) && B.Fits(b.start, w - 1) && B.Fits(b.end, w - 1))
  {
    hide B.Apply, B.Pow2, OnesOver, SignedBits;
    var k := Greatest(Greatest(SignedBits(a.start), SignedBits(a.end)), Greatest(SignedBits(b.start), SignedBits(b.end)));
    var word := B.WordWidth();
    SignedBitsFits(a.start, word); SignedBitsFits(a.end, word);
    SignedBitsFits(b.start, word); SignedBitsFits(b.end, word);
    SignedBitsPositive(a.start);
    w := k - 1;
    B.Pow2Mono(w, word);
    SignedBitsFits(a.start, w); SignedBitsFits(a.end, w);
    SignedBitsFits(b.start, w); SignedBitsFits(b.end, w);
    if w > 0 {
      SignedBitsFits(a.start, w - 1); SignedBitsFits(a.end, w - 1);
      SignedBitsFits(b.start, w - 1); SignedBitsFits(b.end, w - 1);
    }
  }

  lemma SignedBitsPositive(v: int)
    ensures SignedBits(v) >= 1
  {
  }

  lemma SignedSound(op: TileBinaryOp, a: Interval, b: Interval, x: int, y: int)
    requires op.IsBitwise() && a.Has(x) && b.Has(y) && (a.start < 0 || b.start < 0)
    requires !(a.IsExact() && b.IsExact())
    ensures var r := BitwiseBounds(op, a, b); r.WellFormed() && r.Has(Meaning(op, x, y))
  {
    hide B.Apply, B.Pow2, BitwiseBounds;
    var w := BitwiseSignedNarrow(op, a, b);
    B.ApplyFits(BitOpOf(op), x, y, w);
  }

  lemma ExactSound(op: TileBinaryOp, a: Interval, b: Interval)
    requires op.IsBitwise() && a.IsExact() && b.IsExact()
    ensures var r := BitwiseBounds(op, a, b); r.WellFormed() && r.start == r.end == Meaning(op, a.start, b.start)
  {
    var word := B.WordWidth();
    B.ApplyFits(BitOpOf(op), a.start, b.start, word);
    hide B.Apply, B.Pow2, SignedBits, OnesOver;
  }

  lemma BitwiseSound(op: TileBinaryOp, a: Interval, b: Interval, x: int, y: int)
    requires op.IsBitwise() && a.Has(x) && b.Has(y)
    ensures var r := BitwiseBounds(op, a, b); r.WellFormed() && r.Has(Meaning(op, x, y))
  {
    hide BitwiseBounds, Meaning;
    if a.IsExact() && b.IsExact() {
      ExactSound(op, a, b);
    } else if a.start >= 0 && b.start >= 0 {
      NonNegSound(op, a, b, x, y);
    } else {
      SignedSound(op, a, b, x, y);
    }
  }

  /**
   * Non-negative operands: `&` stays below both ends, `|` above both starts, and the upper end of
   * `|` and `^` is the shortest run of ones that covers both ends.
   */
  lemma BitwiseNonNegNarrow(op: TileBinaryOp, a: Interval, b: Interval) returns (n: nat)
    requires op.IsBitwise() && a.start >= 0 && b.start >= 0 && !(a.IsExact() && b.IsExact())
    ensures BitwiseBounds(op, a, b).start == if op.BitOr? then Greatest(a.start, b.start) else 0
    ensures op.BitAnd? ==> BitwiseBounds(op, a, b).end == Least(a.end, b.end)
    ensures !op.BitAnd? ==> BitwiseBounds(op, a, b).end == B.Pow2(n) - 1
    ensures Greatest(a.end, b.end) < B.Pow2(n) && (n > 0 ==> B.Pow2(n - 1) <= Greatest(a.end, b.end))
  {
    hide B.Apply, B.Pow2, OnesOver, SignedBits;
    n := OrOnes(a.end, b.end);
  }

  // ------------------------------------------------------------------- summary

  /** There are no bounds exactly for shifts and for a divisor interval that contains zero. */
  lemma NoBoundsIff(op: TileBinaryOp, a: Interval, b: Interval)
    ensures BoundsFromBop(op, a, b) == None <==> op.IsShift() || (op.HasDivisor() && b.Has(0))
  {
    hide SatDiv, DivCeil, SatMul, Corners, BitwiseBounds;
  }

  /** Whatever bounds are returned contain the saturated exact result of every pair of operands. */
  lemma BopSound(op: TileBinaryOp, a: Interval, b: Interval, x: int, y: int)
    requires BoundsFromBop(op, a, b).Some? && a.Has(x) && b.Has(y)
    ensures !op.IsShift() && (op.HasDivisor() ==> y != 0)
    ensures var r := BoundsFromBop(op, a, b).value; r.WellFormed() && r.Has(Clamp(Meaning(op, x, y)))
  {
    NoBoundsIff(op, a, b);
    hide Corners, BitwiseBounds, SatDiv, DivCeil, SatMul, TruncDiv, CeilOf;
    if op.Rem? {
      RemSound(a, b, x, y);
    } else if op.Eq? || op.Ne? {
      EqualitySound(op, a, b, x, y);
    } else if op.IsBitwise() {
      BitwiseSound(op, a, b, x, y);
    } else {
      CornerSound(op, a, b, x, y);
    }
  }

  /** Exact operands give the exact result, for every operation. */
  lemma ExactStaysExact(op: TileBinaryOp, a: Interval, b: Interval)
    requires a.IsExact() && b.IsExact() && !op.IsShift() && (op.HasDivisor() ==> b.start != 0)
    ensures var v := Clamp(Meaning(op, a.start, b.start)); BoundsFromBop(op, a, b) == Some(Bounds(v, v))
  {
    hide Corners, SatDiv, DivCeil, SatMul, TruncDiv, CeilOf, TruncRem;
    if op.Rem? {
      RemRange(a.start, b.start);
    } else if op.Eq? || op.Ne? {
      var x, y, u, v := EqualityTight(op, a, b);
    } else if op.IsBitwise() {
      ExactSound(op, a, b);
    } else {
      var x, y, u, v := CornerTight(op, a, b);
    }
  }

  /** The elementary operations by their laws: what undoes them, or what they are the least or greatest of. */
  lemma ElementaryMeaning(a: int, b: int)
    ensures Meaning(Sub, Meaning(Add, a, b), b) == a && Meaning(Add, Meaning(Sub, a, b), b) == a
    ensures Meaning(Mul, a, 0) == 0 && Meaning(Mul, a, b + 1) == Meaning(Mul, a, b) + a
    ensures Meaning(Min, a, b) <= a && Meaning(Min, a, b) <= b && Meaning(Min, a, b) in {a, b}
    ensures Meaning(Max, a, b) >= a && Meaning(Max, a, b) >= b && Meaning(Max, a, b) in {a, b}
    ensures (Meaning(Lt, a, b) == 1 <==> a < b) && (Meaning(Le, a, b) == 1 <==> a <= b)
    ensures (Meaning(Gt, a, b) == 1 <==> a > b) && (Meaning(Ge, a, b) == 1 <==> a >= b)
    ensures (Meaning(Eq, a, b) == 1 <==> a == b) && (Meaning(Ne, a, b) == 1 <==> a != b)
    ensures forall op :: op in {Lt, Le, Gt, Ge, Eq, Ne} ==> Meaning(op, a, b) in {0, 1}
  {
  }

  // -------------------------------------------------- wrapping is another matter

  /** Two's-complement wrap-around of a sum or difference of two `i64`. */
  function Wrap(x: int): int {
    if x > MAX then x - 0x1_0000_0000_0000_0000 else if x < MIN then x + 0x1_0000_0000_0000_0000 else x
  }

  ghost predicate CoversWrapped(op: TileBinaryOp, a: Interval, b: Interval)
    requires op.Add? || op.Sub?
  {
    forall x, y :: a.Has(x) && b.Has(y) ==> BoundsFromBop(op, a, b).value.Has(Wrap(Meaning(op, x, y)))
  }

  /** The saturated sum does not cover a sum that wraps. */
  lemma WrappedSumEscapes()
    ensures !CoversWrapped(Add, Bounds(MAX, MAX), Bounds(1, 1))
  {
    assert Bounds(MAX, MAX).Has(MAX) && Bounds(1, 1).Has(1);
    assert !BoundsFromBop(Add, Bounds(MAX, MAX), Bounds(1, 1)).value.Has(Wrap(Meaning(Add, MAX, 1)));
  }

  /** A pair whose sum is any value between the least and the greatest sum. */
  lemma SumAttained(a: Interval, b: Interval, s: int) returns (x: int, y: int)
    requires a.start + b.start <= s <= a.end + b.end
    ensures a.Has(x) && b.Has(y) && x + y == s
  {
    x := Least(a.end, s - b.start);
    y := s - x;
  }

  /** Bounds of a sum cover the wrapped sums too iff nothing overflows or they are all of `i64`. */
  lemma WrappedSumIff(a: Interval, b: Interval)
    ensures CoversWrapped(Add, a, b) <==>
            var lo, hi := a.start + b.start, a.end + b.end;
            (MIN <= lo && hi <= MAX) || (lo <= MIN && hi >= MAX)
  {
    var lo, hi := a.start + b.start, a.end + b.end;
    var r := BoundsFromBop(Add, a, b).value;
    assert r == Bounds(Clamp(lo), Clamp(hi));
    if hi > MAX && lo > MIN {
      var x, y := SumAttained(a, b, Greatest(lo, MAX + 1));
      assert !r.Has(Wrap(Meaning(Add, x, y)));
    } else if lo < MIN && hi < MAX {
      var x, y := SumAttained(a, b, Least(hi, MIN - 1));
      assert !r.Has(Wrap(Meaning(Add, x, y)));
    }
  }
}
