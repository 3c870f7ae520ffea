/** Interval arithmetic over `i64` used by the compiler for static bounds tracking. */
module Bounds {
  import opened Prelude
  import opened I64
  import B = Bits

  datatype TileBinaryOp =
    | Add | Sub | Mul | Div | CeilDiv | TrueDiv | Rem
    | Eq | Ne | Lt | Le | Gt | Ge | Min | Max
    | BitAnd | BitOr | BitXor | Shl | Shr
  {
    predicate IsShift() { Shl? || Shr? }
    predicate HasDivisor() { Div? || CeilDiv? || TrueDiv? || Rem? }
    predicate IsBitwise() { BitAnd? || BitOr? || BitXor? }
  }

  /** An inclusive interval. */
  datatype Bounds = Bounds(start: int, end: int) {
    predicate IsExact() { start == end }
    predicate Has(x: int) { start <= x <= end }
    predicate WellFormed() { MIN <= start <= end <= MAX }
  }

  /** Endpoints are `i64` and in order. */
  type Interval = b: Bounds | b.WellFormed() witness Bounds(0, 0)

  // ------------------------------------------------ machine and exact arithmetic

  /** Saturation: the nearest `i64`. */
  function Clamp(x: int): int { if x < MIN then MIN else if x > MAX then MAX else x }

  function Abs(x: int): nat { if x < 0 then -x else x }

  function Quot(n: nat, d: nat): (q: int)
    requires d > 0
    ensures q >= 0
  {
    n / d
  }

  /** Division truncated toward zero. */
  function TruncDiv(a: int, b: int): int
    requires b != 0
  {
    if (a >= 0) == (b > 0) then Quot(Abs(a), Abs(b)) else -Quot(Abs(a), Abs(b))
  }

  function TruncRem(a: int, b: int): int
    requires b != 0
  {
    if a >= 0 then Abs(a) % Abs(b) else -(Abs(a) % Abs(b))
  }

  /** The least integer that is at least the rational `a / b`. */
  function CeilOf(a: int, b: int): int
    requires b != 0
  {
    if b > 0 then -((-a) / b) else -(a / (-b))
  }

  function SatAdd(a: int, b: int): int { Clamp(a + b) }
  function SatSub(a: int, b: int): int { Clamp(a - b) }
  function SatMul(a: int, b: int): int { Clamp(a * b) }

  function SatDiv(a: int, b: int): int
    requires b != 0
  {
    Clamp(TruncDiv(a, b))
  }

  /** `checked_rem`: no value for a zero divisor and for `MIN % -1`. */
  function CheckedRem(a: int, b: int): Option<int> {
    if b == 0 || (a == MIN && b == -1) then None else Some(TruncRem(a, b))
  }

  function RemOrZero(a: int, b: int): int {
    if CheckedRem(a, b).Some? then CheckedRem(a, b).value else 0
  }

  function DivCeil(lhs: int, rhs: int): int
    requires rhs != 0
  {
    var quotient := SatDiv(lhs, rhs);
    if RemOrZero(lhs, rhs) == 0 then quotient
    else if (lhs > 0) == (rhs > 0) then Clamp(quotient + 1)
    else quotient
  }

  function One(b: bool): int { if b then 1 else 0 }
  function LtVal(a: int, b: int): int { One(a < b) }
  function LeVal(a: int, b: int): int { One(a <= b) }
  function GtVal(a: int, b: int): int { One(a > b) }
  function GeVal(a: int, b: int): int { One(a >= b) }

  function BitOpOf(op: TileBinaryOp): B.BitOp
    requires op.IsBitwise()
  {
    match op
    case BitAnd => B.And
    case BitOr => B.Or
    case BitXor => B.Xor
  }

  /** The exact integer an operation denotes, before saturation. */
  function Meaning(op: TileBinaryOp, a: int, b: int): int
    requires !op.IsShift() && (op.HasDivisor() ==> b != 0)
  {
    match op
    case Add => a + b
    case Sub => a - b
    case Mul => a * b
    case Div => TruncDiv(a, b)
    case TrueDiv => TruncDiv(a, b)
    case CeilDiv => CeilOf(a, b)
    case Rem => TruncRem(a, b)
    case Eq => One(a == b)
    case Ne => One(a != b)
    case Lt => One(a < b)
    case Le => One(a <= b)
    case Gt => One(a > b)
    case Ge => One(a >= b)
    case Min => if a <= b then a else b
    case Max => if a >= b then a else b
    case BitAnd => B.Apply(B.And, a, b)
    case BitOr => B.Apply(B.Or, a, b)
    case BitXor => B.Apply(B.Xor, a, b)
  }

  // ---------------------------------------------------------- the interval code

  /** Minimum and maximum over the four endpoint combinations. */
  function Corners(a: Bounds, b: Bounds, f: (int, int) --> int): Bounds
    requires f.requires(a.start, b.start) && f.requires(a.start, b.end)
    requires f.requires(a.end, b.start) && f.requires(a.end, b.end)
  {
    var w, x, y, z := f(a.start, b.start), f(a.start, b.end), f(a.end, b.start), f(a.end, b.end);
    Bounds(Least(Least(w, x), Least(y, z)), Greatest(Greatest(w, x), Greatest(y, z)))
  }

  function BopBounds(a: Bounds, b: Bounds, f: (int, int) --> int): Bounds
    requires f.requires(a.start, b.start) && f.requires(a.start, b.end)
    requires f.requires(a.end, b.start) && f.requires(a.end, b.end)
  {
    if a.IsExact() && b.IsExact() then Bounds(f(a.start, b.start), f(a.start, b.start)) else Corners(a, b, f)
  }

  function RemBounds(a: Bounds, b: Bounds): Bounds {
    if a.IsExact() && b.IsExact() then
      Bounds(RemOrZero(a.start, b.start), RemOrZero(a.start, b.start))
    else
      var m := Greatest(Abs(b.start), Abs(b.end)) - 1;
      Bounds(if a.start >= 0 then 0 else Greatest(a.start, -m), if a.end <= 0 then 0 else Least(a.end, m))
  }

  /** Smallest all-ones number covering `v`. */
  function OnesOver(v: nat): int {
    var n := B.BitLen(v);
    if n == 0 then 0 else if n >= 63 then MAX else B.Pow2(n) - 1
  }

  /** Width of the narrowest two's-complement type that holds `v`. */
  function SignedBits(v: int): nat {
    1 + B.BitLen(B.Size(v))
  }

  function BitwiseBounds(op: TileBinaryOp, a: Interval, b: Interval): Bounds
    requires op.IsBitwise()
  {
    var f := BitOpOf(op);
    if a.IsExact() && b.IsExact() then
      Bounds(B.Apply(f, a.start, b.start), B.Apply(f, a.start, b.start))
    else if a.start >= 0 && b.start >= 0 then
      B.ApplyNonNeg(B.Or, a.end, b.end);
      var ones := OnesOver(B.Apply(B.Or, a.end, b.end));
      match f
      case And => Bounds(0, Least(a.end, b.end))
      case Or => Bounds(Greatest(a.start, b.start), ones)
      case Xor => Bounds(0, ones)
    else
      var k := Greatest(Greatest(SignedBits(a.start), SignedBits(a.end)), Greatest(SignedBits(b.start), SignedBits(b.end)));
      if k >= 64 then Bounds(MIN, MAX) else Bounds(-B.Pow2(k - 1), B.Pow2(k - 1) - 1)
  }

  function BoundsFromBop(op: TileBinaryOp, a: Interval, b: Interval): Option<Bounds> {
    match op
    case Shl => None
    case Shr => None
    case Div => if b.Has(0) then None else Some(Corners(a, b, SatDiv))
    case TrueDiv => if b.Has(0) then None else Some(Corners(a, b, SatDiv))
    case CeilDiv => if b.Has(0) then None else Some(BopBounds(a, b, DivCeil))
    case Rem => if b.Has(0) then None else Some(RemBounds(a, b))
    case Add => Some(Corners(a, b, SatAdd))
    case Sub => Some(Corners(a, b, SatSub))
    case Mul => Some(Corners(a, b, SatMul))
    case Eq =>
      if a.IsExact() && b.IsExact() then Some(Bounds(One(a.start == b.start), One(a.start == b.start)))
      else if a.end < b.start || b.end < a.start then Some(Bounds(0, 0))
      else Some(Bounds(0, 1))
    case Ne =>
      if a.IsExact() && b.IsExact() then Some(Bounds(One(a.start != b.start), One(a.start != b.start)))
      else if a.end < b.start || b.end < a.start then Some(Bounds(1, 1))
      else Some(Bounds(0, 1))
    case Lt => Some(BopBounds(a, b, LtVal))
    case Le => Some(BopBounds(a, b, LeVal))
    case Gt => Some(BopBounds(a, b, GtVal))
    case Ge => Some(BopBounds(a, b, GeVal))
    case Min => Some(BopBounds(a, b, Least))
    case Max => Some(BopBounds(a, b, Greatest))
    case BitAnd => Some(BitwiseBounds(op, a, b))
    case BitOr => Some(BitwiseBounds(op, a, b))
    case BitXor => Some(BitwiseBounds(op, a, b))
  }
}
