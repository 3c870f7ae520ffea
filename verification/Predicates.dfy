/** Relations over canonical terms, in canonical form, and their staged evaluation. */
module Predicates {
  import opened Prelude
  import opened I64
  import opened Arith
  import opened Terms

  datatype Predicate =
    | Zero(term: Term)
    | Nonzero(term: Term)
    | Positive(term: Term)
    | DivisibleBy(term: Term, divisor: int)

  /** The relation a predicate states, over exact integers. */
  ghost predicate Holds(p: Predicate, env: Env) {
    var v := Value(p.term, env);
    match p
    case Zero(_) => v == 0
    case Nonzero(_) => v != 0
    case Positive(_) => v > 0
    case DivisibleBy(_, d) => d > 0 && v % d == 0
  }

  // --------------------------------------------------------------- constructors

  predicate LeadingNegative(t: Term) {
    if t.coeffs.Keys == {} then t.constant < 0 else t.coeffs[LeastAtom(t.coeffs.Keys)] < 0
  }

  function SignCanonical(t: Term): Term {
    if LeadingNegative(t) && Neg(t).Some? then Neg(t).value else t
  }

  function MakeEq(a: Term, b: Term): Option<Predicate> {
    var d := Sub(a, b);
    if d.None? then None else Some(Zero(SignCanonical(d.value)))
  }

  function MakeNonzero(t: Term): Predicate { Nonzero(SignCanonical(t)) }

  function MakeLt(a: Term, b: Term): Option<Predicate> {
    var d := Sub(b, a);
    if d.None? then None else Some(Positive(d.value))
  }

  function MakeLe(a: Term, b: Term): Option<Predicate> {
    var s := Add(b, Constant(1));
    if s.None? then None
    else
      var d := Sub(s.value, a);
      if d.None? then None else Some(Positive(d.value))
  }

  /** Residues of all numbers, zeros dropped. */
  function Reduce(t: Term, d: int): Term
    requires d >= 1
  {
    Term(map a | a in t.coeffs && t.coeffs[a] % d != 0 :: t.coeffs[a] % d, t.constant % d)
  }

  function MakeDivisibleBy(t: Term, d: int): Option<Predicate> {
    if d < 1 then None else Some(DivisibleBy(SignCanonical(Reduce(t, d)), d))
  }

  /** The loop of `divisible_by`. */
  method ComputeReduce(t: Term, d: int) returns (r: Term)
    requires d >= 1
    ensures r == Reduce(t, d)
  {
    var coeffs: map<Atom, int> := map[];
    var rest := t.coeffs.Keys;
    while rest != {}
      invariant rest <= t.coeffs.Keys
      invariant forall a :: a in coeffs <==> a in t.coeffs && a !in rest && t.coeffs[a] % d != 0
      invariant forall a :: a in coeffs ==> coeffs[a] == t.coeffs[a] % d
      decreases rest
    {
      var a := LeastAtom(rest);
      rest := rest - {a};
      var m := t.coeffs[a] % d;
      if m != 0 {
        coeffs := coeffs[a := m];
      }
    }
    r := Term(coeffs, t.constant % d);
    assert coeffs == Reduce(t, d).coeffs;
  }

  // -------------------------------------------------------------------- meaning

  lemma SignCanonicalValue(t: Term, env: Env)
    requires t.Canonical()
    ensures SignCanonical(t).Canonical()
    ensures Value(SignCanonical(t), env) == Value(t, env) || Value(SignCanonical(t), env) == -Value(t, env)
  {
    if Neg(t).Some? { NegExact(t, env); }
  }

  /** The sign-canonical form leads with a positive number, unless the term cannot be negated. */
  lemma SignCanonicalLeads(t: Term)
    requires t.Canonical() && Neg(t).Some?
    ensures var c := SignCanonical(t);
            if c.coeffs.Keys == {} then c.constant >= 0 else c.coeffs[LeastAtom(c.coeffs.Keys)] > 0
  {
    var n := Neg(t).value;
    assert n.coeffs.Keys == t.coeffs.Keys;
  }

  /** Reduction leaves every coefficient between 1 and `d - 1` and the constant between 0 and `d - 1`. */
  lemma ReduceRange(t: Term, d: int)
    requires d >= 1
    ensures 0 <= Reduce(t, d).constant < d
    ensures forall a :: a in Reduce(t, d).coeffs ==> 1 <= Reduce(t, d).coeffs[a] < d
  {
  }

  /** Each comparison is formed exactly when the differences it goes through fit. */
  lemma FormedIff(a: Term, b: Term)
    requires a.Canonical() && b.Canonical()
    ensures MakeEq(a, b).Some? <==> Representable(Constant(0), -1, b) && Representable(a, -1, b)
    ensures MakeLt(a, b).Some? <==> Representable(Constant(0), -1, a) && Representable(b, -1, a)
    ensures Representable(b, 1, Constant(1)) <==> In(b.constant + 1)
    ensures MakeLe(a, b).Some? <==> In(b.constant + 1) && Representable(Constant(0), -1, a)
                                    && Representable(b.(constant := b.constant + 1), -1, a)
  {
    hide Value;
    SubSomeIff(a, b);
    SubSomeIff(b, a);
    AddSomeIff(b, Constant(1));
    if In(b.constant + 1) {
      var s := Add(b, Constant(1)).value;
      assert s.coeffs == b.coeffs;
      SubSomeIff(s, a);
    }
  }

  lemma EqMeans(a: Term, b: Term, env: Env)
    requires a.Canonical() && b.Canonical() && MakeEq(a, b).Some?
    ensures MakeEq(a, b).value.term.Canonical()
    ensures Holds(MakeEq(a, b).value, env) <==> Value(a, env) == Value(b, env)
  {
    SubExact(a, b, env);
    SignCanonicalValue(Sub(a, b).value, env);
  }

  lemma NonzeroMeans(t: Term, env: Env)
    requires t.Canonical()
    ensures MakeNonzero(t).term.Canonical()
    ensures Holds(MakeNonzero(t), env) <==> Value(t, env) != 0
  {
    SignCanonicalValue(t, env);
  }

  lemma LtMeans(a: Term, b: Term, env: Env)
    requires a.Canonical() && b.Canonical() && MakeLt(a, b).Some?
    ensures MakeLt(a, b).value.term.Canonical()
    ensures Holds(MakeLt(a, b).value, env) <==> Value(a, env) < Value(b, env)
  {
    SubExact(b, a, env);
  }

  lemma LeMeans(a: Term, b: Term, env: Env)
    requires a.Canonical() && b.Canonical() && MakeLe(a, b).Some?
    ensures MakeLe(a, b).value.term.Canonical()
    ensures Holds(MakeLe(a, b).value, env) <==> Value(a, env) <= Value(b, env)
  {
    AddExact(b, Constant(1), env);
    ValueAtZero(Constant(1), env);
    SubExact(Add(b, Constant(1)).value, a, env);
  }

  /** The multiples of `d` that reduction removes. */
  ghost function Quotient(t: Term, d: int): Term
    requires d >= 1
  {
    Term(map a | a in t.coeffs :: t.coeffs[a] / d, t.constant / d)
  }

  lemma ReduceValue(t: Term, d: int, env: Env)
    requires d >= 1
    ensures Value(t, env) == Value(Reduce(t, d), env) + d * Value(Quotient(t, d), env)
  {
    hide Value;
    ValueLinear(Reduce(t, d), d, Quotient(t, d), t, env);
  }

  /** Reduction leaves nothing for `sign_canonical` to flip. */
  lemma ReduceSign(t: Term, d: int)
    requires d >= 1
    ensures SignCanonical(Reduce(t, d)) == Reduce(t, d)
  {
  }

  lemma DivisibleMeans(t: Term, d: int, env: Env)
    requires t.Canonical()
    ensures MakeDivisibleBy(t, d).None? <==> d < 1
    ensures d >= 1 && In(d) ==> MakeDivisibleBy(t, d).value.term.Canonical()
    ensures d >= 1 ==> (Holds(MakeDivisibleBy(t, d).value, env) <==> Value(t, env) % d == 0)
  {
    if d >= 1 {
      ReduceSign(t, d);
      ReduceValue(t, d, env);
      ModShift(Value(Reduce(t, d), env), d, Value(Quotient(t, d), env));
    }
  }

  // -------------------------------------------------------------- one structure

  /** `a == b` and `b == a` are one structure whenever both can be formed. */
  lemma EqSymmetric(a: Term, b: Term)
    requires a.Canonical() && b.Canonical() && MakeEq(a, b).Some? && MakeEq(b, a).Some?
    ensures MakeEq(a, b) == MakeEq(b, a)
  {
    var env: Env := x => 0;
    SubExact(a, b, env);
    SubExact(b, a, env);
    SignUnifies(Sub(a, b).value, Sub(b, a).value);
  }

  /** Opposite terms have one sign-canonical form. */
  lemma SignUnifies(s: Term, t: Term)
    requires s.Canonical() && t.Canonical() && t.constant == -s.constant
    requires forall a :: t.Coef(a) == -s.Coef(a)
    ensures SignCanonical(s) == SignCanonical(t)
  {
    forall a: Atom ensures a in s.coeffs <==> a in t.coeffs {
      assert t.Coef(a) == -s.Coef(a);
    }
    assert s.coeffs.Keys == t.coeffs.Keys;
    forall a | a in s.coeffs ensures t.coeffs[a] == -s.coeffs[a] {
      assert t.Coef(a) == -s.Coef(a);
    }
    assert Neg(s).Some? && Neg(t).Some?;
    assert Neg(s).value.coeffs == t.coeffs && Neg(t).value.coeffs == s.coeffs;
    if s.coeffs.Keys != {} {
      var x := LeastAtom(s.coeffs.Keys);
      assert s.coeffs[x] != 0;
    }
  }

  lemma NonzeroSignInvariant(t: Term)
    requires t.Canonical() && Neg(t).Some?
    ensures MakeNonzero(t) == MakeNonzero(Neg(t).value)
  {
    NegExact(t, x => 0);
    SignUnifies(t, Neg(t).value);
  }

  /** A counterexample to unifying `t` and `-t` under divisibility. */
  lemma DivisibleSignMatters(a: Atom)
    ensures Neg(Affine(a, 1, 0)) == Some(Affine(a, -1, 0))
    ensures MakeDivisibleBy(Affine(a, 1, 0), 3) != MakeDivisibleBy(Affine(a, -1, 0), 3)
  {
    assert Neg(Affine(a, 1, 0)).value.coeffs == Affine(a, -1, 0).coeffs;
    ReduceSign(Affine(a, 1, 0), 3);
    ReduceSign(Affine(a, -1, 0), 3);
    assert Reduce(Affine(a, 1, 0), 3).Coef(a) == 1;
    assert Reduce(Affine(a, -1, 0), 3).Coef(a) == 2;
  }

  /** Divisibility of `t` and of `-t` is one structure iff every number doubles to a multiple of `d`. */
  lemma DivisibleSignIff(t: Term, d: int)
    requires t.Canonical() && Neg(t).Some? && d >= 1
    ensures MakeDivisibleBy(t, d) == MakeDivisibleBy(Neg(t).value, d) <==>
            (2 * t.constant) % d == 0 && forall a :: a in t.coeffs ==> (2 * t.coeffs[a]) % d == 0
  {
    var n := Neg(t).value;
    ReduceSign(t, d);
    ReduceSign(n, d);
    var p, q := Reduce(t, d), Reduce(n, d);
    OppositeResidues(t.constant, d);
    forall a | a in t.coeffs ensures p.Coef(a) == q.Coef(a) <==> (2 * t.coeffs[a]) % d == 0 {
      OppositeResidues(t.coeffs[a], d);
    }
    if p.constant == q.constant && forall a :: a in t.coeffs ==> p.Coef(a) == q.Coef(a) {
      assert p.coeffs == q.coeffs;
    }
  }

  // ----------------------------------------------------------------- evaluation

  type Resolver = Atom -> Option<int>

  /** The assignment a resolver stands for; unresolved atoms read as 0. */
  ghost function EnvOf(res: Resolver): Env { a => if res(a).Some? then res(a).value else 0 }

  function EvalFrom(t: Term, rest: set<Atom>, acc: int, res: Resolver): Option<int>
    requires rest <= t.coeffs.Keys
    decreases |rest|
  {
    if rest == {} then Some(acc)
    else
      var a := LeastAtom(rest);
      if res(a).None? || !In(t.coeffs[a] * res(a).value) || !In(acc + t.coeffs[a] * res(a).value) then None
      else EvalFrom(t, rest - {a}, acc + t.coeffs[a] * res(a).value, res)
  }

  function EvalTerm(t: Term, res: Resolver): Option<int> {
    EvalFrom(t, t.coeffs.Keys, t.constant, res)
  }

  /** The accumulator loop of `Term::eval`, atoms in order. */
  method ComputeEval(t: Term, res: Resolver) returns (r: Option<int>)
    ensures r == EvalTerm(t, res)
  {
    var acc := t.constant;
    var rest := t.coeffs.Keys;
    while rest != {}
      invariant rest <= t.coeffs.Keys && EvalFrom(t, rest, acc, res) == EvalTerm(t, res)
      decreases rest
    {
      var a := LeastAtom(rest);
      rest := rest - {a};
      if res(a).None? {
        return None;
      }
      var product := Checked(t.coeffs[a] * res(a).value);
      if product.None? {
        return None;
      }
      var sum := Checked(acc + product.value);
      if sum.None? {
        return None;
      }
      acc := sum.value;
    }
    r := Some(acc);
  }

  /** The atoms up to and including `a` in evaluation order. */
  ghost function UpTo(t: Term, a: Atom): set<Atom> { set b | b in t.coeffs && Leq(b, a) }

  /** At atom `a` the product or the running sum leaves `i64`. */
  ghost predicate OverflowsAt(t: Term, env: Env, a: Atom)
    requires a in t.coeffs
  {
    !In(t.coeffs[a] * env(a)) || !In(t.constant + Sum(UpTo(t, a), Summand(t, env)))
  }

  ghost predicate FailsAt(t: Term, res: Resolver, a: Atom)
    requires a in t.coeffs
  {
    res(a).None? || OverflowsAt(t, EnvOf(res), a)
  }

  /** What is left to evaluate comes after what is done. */
  ghost predicate Later(t: Term, rest: set<Atom>) {
    rest <= t.coeffs.Keys && forall a, b :: a in rest && b in t.coeffs && b !in rest ==> !Leq(a, b)
  }

  lemma LaterStep(t: Term, rest: set<Atom>)
    requires Later(t, rest) && rest != {}
    ensures var a := LeastAtom(rest); Later(t, rest - {a}) && UpTo(t, a) == t.coeffs.Keys - (rest - {a})
  {
    var a := LeastAtom(rest);
    forall b | b in t.coeffs ensures Leq(b, a) <==> b !in rest - {a} {
    }
    forall c, b | c in rest - {a} && b in t.coeffs && b !in rest - {a} ensures !Leq(c, b) {
    }
  }

  /** The running sum after the least remaining atom. */
  lemma SumStep(t: Term, rest: set<Atom>, f: Env)
    requires Later(t, rest) && rest != {}
    ensures var a := LeastAtom(rest); Sum(UpTo(t, a), f) == Sum(t.coeffs.Keys - rest, f) + f(a)
  {
    LaterStep(t, rest);
    var a := LeastAtom(rest);
    SumSplit(UpTo(t, a), f, a);
    assert t.coeffs.Keys - (rest - {a}) - {a} == t.coeffs.Keys - rest;
  }

  lemma {:induction false} EvalFromIff(t: Term, rest: set<Atom>, acc: int, res: Resolver)
    requires Later(t, rest)
    requires acc == t.constant + Sum(t.coeffs.Keys - rest, Summand(t, EnvOf(res)))
    ensures EvalFrom(t, rest, acc, res).None? <==> exists a :: a in rest && FailsAt(t, res, a)
    ensures EvalFrom(t, rest, acc, res).Some? ==> EvalFrom(t, rest, acc, res).value == Value(t, EnvOf(res))
    decreases |rest|
  {
    hide Leq, Sum, UpTo;
    var f := Summand(t, EnvOf(res));
    if rest == {} {
      assert t.coeffs.Keys - rest == t.coeffs.Keys;
    } else {
      var a := LeastAtom(rest);
      LaterStep(t, rest);
      SumStep(t, rest, f);
      if !FailsAt(t, res, a) {
        EvalFromIff(t, rest - {a}, acc + f(a), res);
        assert rest == rest - {a} + {a};
      }
    }
  }

  /** `eval` gives the exact value, or nothing exactly when an atom is unresolved or a step overflows. */
  lemma EvalIff(t: Term, res: Resolver)
    ensures EvalTerm(t, res).None? <==> exists a :: a in t.coeffs && FailsAt(t, res, a)
    ensures EvalTerm(t, res).Some? ==> EvalTerm(t, res).value == Value(t, EnvOf(res))
  {
    assert t.coeffs.Keys - t.coeffs.Keys == {};
    EvalFromIff(t, t.coeffs.Keys, t.constant, res);
  }

  function EvalPredicate(p: Predicate, res: Resolver): Option<bool>
    requires p.DivisibleBy? ==> p.divisor >= 1
  {
    var v := EvalTerm(p.term, res);
    if v.None? then None
    else match p
      case Zero(_) => Some(v.value == 0)
      case Nonzero(_) => Some(v.value != 0)
      case Positive(_) => Some(v.value > 0)
      case DivisibleBy(_, d) => Some(v.value % d == 0)
  }

  function TermStage(t: Term): Stage {
    if exists a :: a in t.coeffs && a.Stage() == Device then Device
    else if exists a :: a in t.coeffs && a.Stage() == Launch then Launch
    else Jit
  }

  /** The stage is the latest of the atoms' stages, and no later. */
  lemma StageIsMax(t: Term)
    ensures forall a :: a in t.coeffs ==> a.Stage().Rank() <= TermStage(t).Rank()
    ensures t.coeffs.Keys == {} ==> TermStage(t) == Jit
    ensures t.coeffs.Keys != {} ==> exists a :: a in t.coeffs && a.Stage() == TermStage(t)
  {
    if t.coeffs.Keys != {} {
      var a :| a in t.coeffs.Keys;
      assert a in t.coeffs;
    }
  }

  /** An evaluated predicate states the relation; with its stage resolved, only overflow leaves it open. */
  lemma EvalPredicateIff(p: Predicate, res: Resolver)
    requires p.DivisibleBy? ==> p.divisor >= 1
    ensures EvalPredicate(p, res).Some? ==> (EvalPredicate(p, res).value <==> Holds(p, EnvOf(res)))
    ensures (forall a: Atom :: a.Stage().Rank() <= TermStage(p.term).Rank() ==> res(a).Some?) ==>
            (EvalPredicate(p, res).None? <==> exists a :: a in p.term.coeffs && OverflowsAt(p.term, EnvOf(res), a))
  {
    EvalIff(p.term, res);
    StageIsMax(p.term);
  }
}
