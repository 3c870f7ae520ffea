/** Canonical linear integer terms: `sum(coeff * atom) + constant` with no zero coefficient. */
module Terms {
  import opened Prelude
  import opened I64

  datatype Stage = Jit | Launch | Device {
    function Rank(): nat { match this case Jit => 0 case Launch => 1 case Device => 2 }
  }

  datatype Atom =
    | Dim(param: nat, axis: nat)
    | Iv(id: nat)
    | TileBlockId(k: nat)
    | NumTileBlocks(k: nat)
    | ViewExtent(param: nat, axis: nat)
    | TileCount(param: nat, axis: nat, tile: int)
  {
    /** Comparison key of the derived order: the variant first, then the fields. */
    function Key(): (int, int, int, int) {
      match this
      case Dim(p, x) => (0, p, x, 0)
      case Iv(i) => (1, i, 0, 0)
      case TileBlockId(i) => (2, i, 0, 0)
      case NumTileBlocks(i) => (3, i, 0, 0)
      case ViewExtent(p, x) => (4, p, x, 0)
      case TileCount(p, x, t) => (5, p, x, t)
    }

    function Stage(): Stage {
      if Iv? || TileBlockId? then Device else Launch
    }
  }

  predicate Leq(a: Atom, b: Atom) {
    var x, y := a.Key(), b.Key();
    x.0 < y.0 || (x.0 == y.0 && (x.1 < y.1 || (x.1 == y.1 && (x.2 < y.2 || (x.2 == y.2 && x.3 <= y.3)))))
  }

  lemma {:induction false} LeastExists(s: set<Atom>)
    requires s != {}
    ensures exists a :: a in s && forall b :: b in s ==> Leq(a, b)
    decreases |s|
  {
    var x :| x in s;
    if s != {x} {
      var rest := s - {x};
      assert s == rest + {x} && rest != {};
      LeastExists(rest);
      var m :| m in rest && forall b :: b in rest ==> Leq(m, b);
      var a := if Leq(x, m) then x else m;
      assert a in s && forall b :: b in s ==> Leq(a, b);
    }
  }

  /** First key of a non-empty ordered map. */
  function LeastAtom(s: set<Atom>): (a: Atom)
    requires s != {}
    ensures a in s && forall b :: b in s ==> Leq(a, b)
  {
    LeastExists(s);
    var a :| a in s && forall b :: b in s ==> Leq(a, b);
    a
  }

  datatype Term = Term(coeffs: map<Atom, int>, constant: int) {
    function Coef(a: Atom): int { if a in coeffs then coeffs[a] else 0 }

    /** Every number is an `i64`, and no coefficient is zero. */
    ghost predicate Canonical() {
      In(constant) && forall a :: a in coeffs ==> In(coeffs[a]) && coeffs[a] != 0
    }
  }

  type Env = Atom -> int

  /** Sum of `f` over a finite set of atoms. */
  ghost function Sum(s: set<Atom>, f: Env): int
    decreases |s|
  {
    if s == {} then 0 else var a := LeastAtom(s); f(a) + Sum(s - {a}, f)
  }

  ghost function Summand(t: Term, env: Env): Env { a => t.Coef(a) * env(a) }

  /** The integer a term denotes under an assignment of its atoms. */
  ghost function Value(t: Term, env: Env): int {
    t.constant + Sum(t.coeffs.Keys, Summand(t, env))
  }

  // ------------------------------------------------------------- about sums

  lemma {:induction false} SumSplit(s: set<Atom>, f: Env, x: Atom)
    requires x in s
    ensures Sum(s, f) == f(x) + Sum(s - {x}, f)
    decreases |s|
  {
    var a := LeastAtom(s);
    if a != x {
      SumSplit(s - {a}, f, x);
      SumSplit(s - {x}, f, a);
      assert s - {a} - {x} == s - {x} - {a};
    }
  }

  /** `h = f + k * g` pointwise makes the sums agree in the same way. */
  lemma {:induction false} SumLinear(s: set<Atom>, f: Env, g: Env, k: int, h: Env)
    requires forall a :: a in s ==> h(a) == f(a) + k * g(a)
    ensures Sum(s, h) == Sum(s, f) + k * Sum(s, g)
    decreases |s|
  {
    if s != {} {
      var a := LeastAtom(s);
      SumLinear(s - {a}, f, g, k, h);
      assert k * (g(a) + Sum(s - {a}, g)) == k * g(a) + k * Sum(s - {a}, g);
    }
  }

  /** Atoms where the summand vanishes do not matter. */
  lemma {:induction false} SumExtend(s: set<Atom>, l: set<Atom>, f: Env)
    requires s <= l && forall a :: a in l && a !in s ==> f(a) == 0
    ensures Sum(s, f) == Sum(l, f)
    decreases |l|
  {
    if s != l {
      var x :| x in l && x !in s;
      SumSplit(l, f, x);
      SumExtend(s, l - {x}, f);
    }
  }

  lemma SumSame(s: set<Atom>, f: Env, g: Env)
    requires forall a :: a in s ==> f(a) == g(a)
    ensures Sum(s, f) == Sum(s, g)
  {
    SumLinear(s, f, f, 0, g);
  }

  /** The value of a term may be summed over any superset of its atoms. */
  lemma ValueOver(t: Term, env: Env, l: set<Atom>, f: Env)
    requires t.coeffs.Keys <= l && forall a :: a in l ==> f(a) == t.Coef(a) * env(a)
    ensures Value(t, env) == t.constant + Sum(l, f)
  {
    var g := Summand(t, env);
    SumSame(l, f, g);
    SumExtend(t.coeffs.Keys, l, g);
  }

  // ------------------------------------------------------- the term operations

  function Constant(c: int): Term { Term(map[], c) }

  function Affine(a: Atom, scale: int, offset: int): Term {
    if scale == 0 then Constant(offset) else Term(map[a := scale], offset)
  }

  function Add(t: Term, u: Term): Option<Term> {
    if In(t.constant + u.constant) && forall a :: a in u.coeffs ==> In(t.Coef(a) + u.coeffs[a]) then
      Some(Term(map a | a in t.coeffs.Keys + u.coeffs.Keys && t.Coef(a) + u.Coef(a) != 0 :: t.Coef(a) + u.Coef(a),
                t.constant + u.constant))
    else None
  }

  /** Every number times `k`, or nothing if one overflows. */
  function Scale(t: Term, k: int): Option<Term> {
    if In(k * t.constant) && forall a :: a in t.coeffs ==> In(k * t.coeffs[a]) then
      Some(Term(map a | a in t.coeffs :: k * t.coeffs[a], k * t.constant))
    else None
  }

  function MulConst(t: Term, k: int): Option<Term> {
    if k == 0 then Some(Constant(0)) else Scale(t, k)
  }

  function Neg(t: Term): Option<Term> { Scale(t, -1) }

  function Sub(t: Term, u: Term): Option<Term> {
    var n := Neg(u);
    if n.None? then None else Add(t, n.value)
  }

  /** The loop of `add`: fold the other term's atoms, in order, into a copy of the map. */
  method ComputeAdd(t: Term, u: Term) returns (r: Option<Term>)
    requires t.Canonical() && u.Canonical()
    ensures r == Add(t, u)
  {
    var coeffs := t.coeffs;
    var rest := u.coeffs.Keys;
    while rest != {}
      invariant rest <= u.coeffs.Keys
      invariant forall a :: a in u.coeffs && a !in rest ==> In(t.Coef(a) + u.coeffs[a])
      invariant forall a :: a in coeffs <==> a in t.coeffs.Keys + u.coeffs.Keys && Partial(t, u, rest, a) != 0
      invariant forall a :: a in coeffs ==> coeffs[a] == Partial(t, u, rest, a)
      decreases rest
    {
      var a := LeastAtom(rest);
      rest := rest - {a};
      var entry := Checked((if a in coeffs then coeffs[a] else 0) + u.coeffs[a]);
      if entry.None? {
        return None;
      }
      coeffs := if entry.value == 0 then coeffs - {a} else coeffs[a := entry.value];
    }
    var constant := Checked(t.constant + u.constant);
    if constant.None? {
      return None;
    }
    r := Some(Term(coeffs, constant.value));
    assert r.value.coeffs == Add(t, u).value.coeffs;
  }

  /** Coefficient of `a` once every atom of `u` outside `rest` has been folded in. */
  ghost function Partial(t: Term, u: Term, rest: set<Atom>, a: Atom): int {
    t.Coef(a) + if a in rest then 0 else u.Coef(a)
  }

  /** The shared loop of `neg` and `mul_const`: scale every coefficient, stop at the first overflow. */
  method ComputeScale(t: Term, k: int) returns (r: Option<Term>)
    ensures r == Scale(t, k)
  {
    var coeffs: map<Atom, int> := map[];
    var rest := t.coeffs.Keys;
    while rest != {}
      invariant rest <= t.coeffs.Keys && coeffs.Keys == t.coeffs.Keys - rest
      invariant forall a :: a in coeffs ==> coeffs[a] == k * t.coeffs[a] && In(coeffs[a])
      decreases rest
    {
      var a := LeastAtom(rest);
      rest := rest - {a};
      if !In(k * t.coeffs[a]) {
        return None;
      }
      coeffs := coeffs[a := k * t.coeffs[a]];
    }
    r := if In(k * t.constant) then Some(Term(coeffs, k * t.constant)) else None;
    assert coeffs == map a | a in t.coeffs :: k * t.coeffs[a];
  }

  // ------------------------------------------------ what the operations denote

  lemma Distribute(x: int, k: int, y: int, e: int)
    ensures (x + k * y) * e == x * e + k * (y * e)
  {
  }

  lemma Regroup(c: int, k: int, d: int, f: int, g: int)
    ensures (c + k * d) + (f + k * g) == (c + f) + k * (d + g)
  {
  }

  lemma SummandLinear(t: Term, k: int, u: Term, r: Term, env: Env, a: Atom)
    requires r.Coef(a) == t.Coef(a) + k * u.Coef(a)
    ensures Summand(r, env)(a) == Summand(t, env)(a) + k * Summand(u, env)(a)
  {
    Distribute(t.Coef(a), k, u.Coef(a), env(a));
  }

  lemma ValueIs(t: Term, env: Env, l: set<Atom>)
    requires t.coeffs.Keys <= l
    ensures Value(t, env) == t.constant + Sum(l, Summand(t, env))
  {
    ValueOver(t, env, l, Summand(t, env));
  }

  lemma SumsLinear(t: Term, k: int, u: Term, r: Term, env: Env, l: set<Atom>)
    requires forall a :: r.Coef(a) == t.Coef(a) + k * u.Coef(a)
    ensures Sum(l, Summand(r, env)) == Sum(l, Summand(t, env)) + k * Sum(l, Summand(u, env))
  {
    var f, g, h := Summand(t, env), Summand(u, env), Summand(r, env);
    hide Sum, Summand;
    forall a | a in l ensures h(a) == f(a) + k * g(a) {
      SummandLinear(t, k, u, r, env, a);
    }
    SumLinear(l, f, g, k, h);
  }

  /** A term whose coefficients are a linear combination denotes that combination. */
  lemma ValueLinear(t: Term, k: int, u: Term, r: Term, env: Env)
    requires r.constant == t.constant + k * u.constant
    requires forall a :: r.Coef(a) == t.Coef(a) + k * u.Coef(a)
    ensures Value(r, env) == Value(t, env) + k * Value(u, env)
  {
    var l := t.coeffs.Keys + u.coeffs.Keys + r.coeffs.Keys;
    SumsLinear(t, k, u, r, env, l);
    ValueIs(t, env, l);
    ValueIs(u, env, l);
    ValueIs(r, env, l);
    hide Value, Sum, Summand, Term.Coef;
    Regroup(t.constant, k, u.constant, Sum(l, Summand(t, env)), Sum(l, Summand(u, env)));
  }

  lemma AddCoef(t: Term, u: Term)
    requires t.Canonical() && u.Canonical() && Add(t, u).Some?
    ensures Add(t, u).value.Canonical()
    ensures forall a :: Add(t, u).value.Coef(a) == t.Coef(a) + u.Coef(a)
  {
  }

  lemma AddExact(t: Term, u: Term, env: Env)
    requires t.Canonical() && u.Canonical() && Add(t, u).Some?
    ensures Add(t, u).value.Canonical()
    ensures Value(Add(t, u).value, env) == Value(t, env) + Value(u, env)
  {
    hide Value;
    AddCoef(t, u);
    ValueLinear(t, 1, u, Add(t, u).value, env);
  }

  lemma MulConstExact(t: Term, k: int, env: Env)
    requires t.Canonical() && MulConst(t, k).Some?
    ensures MulConst(t, k).value.Canonical() && Value(MulConst(t, k).value, env) == k * Value(t, env)
  {
    ValueAtZero(Constant(0), env);
    hide Value;
    ValueLinear(Constant(0), k, t, MulConst(t, k).value, env);
  }

  lemma NegExact(t: Term, env: Env)
    requires t.Canonical() && Neg(t).Some?
    ensures Neg(t).value.Canonical() && Value(Neg(t).value, env) == -Value(t, env)
    ensures forall a :: Neg(t).value.Coef(a) == -t.Coef(a)
  {
    ValueAtZero(Constant(0), env);
    hide Value;
    ValueLinear(Constant(0), -1, t, Neg(t).value, env);
  }

  lemma SubExact(t: Term, u: Term, env: Env)
    requires t.Canonical() && u.Canonical() && Sub(t, u).Some?
    ensures Sub(t, u).value.Canonical()
    ensures Value(Sub(t, u).value, env) == Value(t, env) - Value(u, env)
    ensures forall a :: Sub(t, u).value.Coef(a) == t.Coef(a) - u.Coef(a)
    ensures Sub(t, u).value.constant == t.constant - u.constant
  {
    NegExact(u, env);
    AddCoef(t, Neg(u).value);
    AddExact(t, Neg(u).value, env);
  }

  lemma AffineExact(a: Atom, scale: int, offset: int, env: Env)
    requires In(scale) && In(offset)
    ensures Affine(a, scale, offset).Canonical()
    ensures Value(Affine(a, scale, offset), env) == scale * env(a) + offset
  {
    var t := Affine(a, scale, offset);
    if scale != 0 {
      var f: Env := x => t.Coef(x) * env(x);
      assert t.coeffs.Keys == {a};
      SumSplit({a}, f, a);
      assert {a} - {a} == {};
      ValueOver(t, env, {a}, f);
    }
  }

  /** Two canonical terms denote the same number everywhere iff they are the same structure. */
  lemma EqualIffSame(t: Term, u: Term)
    requires t.Canonical() && u.Canonical()
    ensures (forall env: Env :: Value(t, env) == Value(u, env)) <==> t == u
  {
    if forall env: Env :: Value(t, env) == Value(u, env) {
      var zero: Env := a => 0;
      ValueAtZero(t, zero);
      ValueAtZero(u, zero);
      forall a: Atom ensures t.Coef(a) == u.Coef(a) {
        var point: Env := x => if x == a then 1 else 0;
        ValueAtPoint(t, a, point);
        ValueAtPoint(u, a, point);
      }
      assert t.coeffs.Keys == u.coeffs.Keys by {
        forall a: Atom ensures a in t.coeffs <==> a in u.coeffs {
          assert t.Coef(a) == u.Coef(a);
        }
      }
      assert forall a :: a in t.coeffs ==> t.coeffs[a] == t.Coef(a) == u.Coef(a);
      assert t.coeffs == u.coeffs;
    }
  }

  lemma ValueAtZero(t: Term, zero: Env)
    requires forall a :: a in t.coeffs ==> zero(a) == 0
    ensures Value(t, zero) == t.constant
  {
    var f: Env := a => t.Coef(a) * zero(a);
    SumExtend({}, t.coeffs.Keys, f);
    ValueOver(t, zero, t.coeffs.Keys, f);
  }

  lemma ValueAtPoint(t: Term, a: Atom, point: Env)
    requires forall x :: point(x) == if x == a then 1 else 0
    ensures Value(t, point) == t.constant + t.Coef(a)
  {
    var f: Env := x => t.Coef(x) * point(x);
    var l := t.coeffs.Keys + {a};
    ValueOver(t, point, l, f);
    SumExtend({a}, l, f);
    SumSplit({a}, f, a);
    assert {a} - {a} == {};
  }

  /** Any two build orders that succeed reach the same structure. */
  lemma AddConfluent(t: Term, u: Term, v: Term)
    requires t.Canonical() && u.Canonical() && v.Canonical()
    ensures Add(t, u) == Add(u, t)
    ensures Add(t, u).Some? && Add(u, v).Some? && Add(Add(t, u).value, v).Some? && Add(t, Add(u, v).value).Some?
            ==> Add(Add(t, u).value, v) == Add(t, Add(u, v).value)
  {
    if Add(t, u).Some? {
      assert forall a :: a in t.coeffs && a !in u.coeffs ==> u.Coef(a) + t.coeffs[a] == t.coeffs[a];
      assert Add(u, t).Some?;
      assert Add(t, u).value.coeffs == Add(u, t).value.coeffs;
    }
    if Add(t, u).Some? && Add(u, v).Some? && Add(Add(t, u).value, v).Some? && Add(t, Add(u, v).value).Some? {
      var p, q := Add(t, u).value, Add(u, v).value;
      forall env: Env ensures Value(Add(p, v).value, env) == Value(Add(t, q).value, env) {
        AddExact(t, u, env); AddExact(u, v, env); AddExact(p, v, env); AddExact(t, q, env);
      }
      var env: Env := a => 0;
      AddExact(t, u, env); AddExact(u, v, env); AddExact(p, v, env); AddExact(t, q, env);
      EqualIffSame(Add(p, v).value, Add(t, q).value);
    }
  }

  // ------------------------------------------------------------ when they succeed

  /** `r` denotes `t + k * u` everywhere. */
  ghost predicate Denotes(r: Term, t: Term, k: int, u: Term) {
    forall env: Env :: Value(r, env) == Value(t, env) + k * Value(u, env)
  }

  /** Some term with 64-bit numbers denotes `t + k * u`. */
  ghost predicate Representable(t: Term, k: int, u: Term) {
    exists r: Term :: r.Canonical() && Denotes(r, t, k, u)
  }

  lemma DenotesConstant(r: Term, t: Term, k: int, u: Term)
    requires Denotes(r, t, k, u)
    ensures r.constant == t.constant + k * u.constant
  {
    var zero: Env := x => 0;
    assert Value(r, zero) == Value(t, zero) + k * Value(u, zero);
    hide Value, Denotes;
    ValueAtZero(r, zero);
    ValueAtZero(t, zero);
    ValueAtZero(u, zero);
  }

  lemma CoefOfPoint(k: int, rc: int, r: int, tc: int, t: int, uc: int, u: int)
    requires rc + r == tc + t + k * (uc + u) && rc == tc + k * uc
    ensures r == t + k * u
  {
    Distribute(uc, 1, u, k);
  }

  lemma DenotesAtPoint(r: Term, t: Term, k: int, u: Term, a: Atom)
    requires Denotes(r, t, k, u)
    ensures r.constant + r.Coef(a) == t.constant + t.Coef(a) + k * (u.constant + u.Coef(a))
  {
    var point: Env := x => if x == a then 1 else 0;
    assert Value(r, point) == Value(t, point) + k * Value(u, point);
    hide Value, Denotes, Term.Coef;
    ValueAtPoint(r, a, point);
    ValueAtPoint(t, a, point);
    ValueAtPoint(u, a, point);
  }

  lemma DenotesCoef(r: Term, t: Term, k: int, u: Term, a: Atom)
    requires Denotes(r, t, k, u)
    ensures r.Coef(a) == t.Coef(a) + k * u.Coef(a)
  {
    hide Denotes, Term.Coef;
    DenotesConstant(r, t, k, u);
    DenotesAtPoint(r, t, k, u, a);
    CoefOfPoint(k, r.constant, r.Coef(a), t.constant, t.Coef(a), u.constant, u.Coef(a));
  }

  /** Addition succeeds exactly when some term with 64-bit numbers denotes the sum. */
  lemma AddSomeIff(t: Term, u: Term)
    requires t.Canonical() && u.Canonical()
    ensures Add(t, u).Some? <==> Representable(t, 1, u)
  {
    hide Value;
    if Add(t, u).Some? {
      var r := Add(t, u).value;
      forall env: Env ensures r.Canonical() && Value(r, env) == Value(t, env) + 1 * Value(u, env) { AddExact(t, u, env); }
      AddCoef(t, u);
      assert Denotes(r, t, 1, u);
    }
    if Representable(t, 1, u) {
      var r: Term :| r.Canonical() && Denotes(r, t, 1, u);
      DenotesConstant(r, t, 1, u);
      forall a: Atom ensures r.Coef(a) == t.Coef(a) + u.Coef(a) { DenotesCoef(r, t, 1, u, a); }
      assert forall a :: a in u.coeffs ==> In(r.Coef(a));
    }
  }

  /** Multiplication succeeds exactly when some term with 64-bit numbers denotes the multiple. */
  lemma MulConstSomeIff(t: Term, k: int)
    requires t.Canonical()
    ensures MulConst(t, k).Some? <==> Representable(Constant(0), k, t)
  {
    forall env: Env ensures Value(Constant(0), env) == 0 { ValueAtZero(Constant(0), env); }
    hide Value;
    if MulConst(t, k).Some? {
      var r := MulConst(t, k).value;
      forall env: Env ensures r.Canonical() && Value(r, env) == Value(Constant(0), env) + k * Value(t, env) {
        MulConstExact(t, k, env);
      }
      MulConstExact(t, k, a => 0);
      assert Denotes(r, Constant(0), k, t);
    }
    if Representable(Constant(0), k, t) {
      var r: Term :| r.Canonical() && Denotes(r, Constant(0), k, t);
      DenotesConstant(r, Constant(0), k, t);
      forall a | a in t.coeffs ensures In(k * t.coeffs[a]) {
        DenotesCoef(r, Constant(0), k, t, a);
        assert In(r.Coef(a));
      }
    }
  }

  /** Subtraction goes through the negation, so it needs that to fit as well as the difference. */
  lemma SubSomeIff(t: Term, u: Term)
    requires t.Canonical() && u.Canonical()
    ensures Sub(t, u).Some? <==> Representable(Constant(0), -1, u) && Representable(t, -1, u)
  {
    MulConstSomeIff(u, -1);
    if Neg(u).Some? {
      var n := Neg(u).value;
      NegExact(u, a => 0);
      AddSomeIff(t, n);
      hide Value;
      forall env: Env ensures Value(n, env) == -Value(u, env) { NegExact(u, env); }
      assert forall r: Term :: Denotes(r, t, 1, n) <==> Denotes(r, t, -1, u);
    }
  }

  /** A difference that fits can be refused: the smallest number less itself. */
  lemma SubRefusesZero()
    ensures Constant(MIN).Canonical() && Representable(Constant(MIN), -1, Constant(MIN))
    ensures Sub(Constant(MIN), Constant(MIN)) == None
  {
    var m, z := Constant(MIN), Constant(0);
    forall env: Env ensures Value(z, env) == Value(m, env) + -1 * Value(m, env) {
      ValueAtZero(z, env);
      ValueAtZero(m, env);
    }
    assert z.Canonical() && Denotes(z, m, -1, m);
  }
}
