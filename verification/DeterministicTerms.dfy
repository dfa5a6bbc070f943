// With the deterministic option, the states stand for sums of derived terms:
// they are finitely many too (vcsn/algos/derived-term.hh).
module DeterministicTerms {
  import opened Expressions
  import opened Derivations
  import opened DerivedTerm
  import opened DerivedTermBound
  import opened NamedAutomata
  import opened Sets

  // ---------------------------------------------------------------------
  // The order of expressions
  // ---------------------------------------------------------------------

  lemma {:induction false} CompareTransitive(e: Exp, f: Exp, g: Exp)
    requires Compare(e, f) <= 0 && Compare(f, g) <= 0
    ensures Compare(e, g) <= 0
    ensures Compare(e, f) < 0 || Compare(f, g) < 0 ==> Compare(e, g) < 0
    decreases e, 0
  {
    if Size(e) == Size(f) == Size(g) && Type(e) == Type(f) == Type(g) {
      match e
      case Zero =>
      case One =>
      case Atom(_) =>
      case Add(es) => CompareAllTransitive(es, f.es, g.es);
      case Mul(es) => CompareAllTransitive(es, f.es, g.es);
      case Conjunction(es) => CompareAllTransitive(es, f.es, g.es);
      case Shuffle(es) => CompareAllTransitive(es, f.es, g.es);
      case Star(sub) => CompareTransitive(sub, f.sub, g.sub);
      case Complement(sub) => CompareTransitive(sub, f.sub, g.sub);
    }
  }

  lemma {:induction false} CompareAllTransitive(es: seq<Exp>, fs: seq<Exp>, gs: seq<Exp>)
    requires CompareAll(es, fs) <= 0 && CompareAll(fs, gs) <= 0
    ensures CompareAll(es, gs) <= 0
    ensures CompareAll(es, fs) < 0 || CompareAll(fs, gs) < 0 ==> CompareAll(es, gs) < 0
    decreases es, 0
  {
    if |es| == |fs| == |gs| && es != [] {
      CompareTransitive(es[0], fs[0], gs[0]);
      if Compare(es[0], fs[0]) == 0 && Compare(fs[0], gs[0]) == 0 {
        CompareEqual(es[0], fs[0]);
        CompareEqual(fs[0], gs[0]);
        CompareAllTransitive(es[1..], fs[1..], gs[1..]);
      }
      if Compare(es[0], fs[0]) == 0 {
        CompareEqual(es[0], fs[0]);
      }
      if Compare(fs[0], gs[0]) == 0 {
        CompareEqual(fs[0], gs[0]);
      }
    }
  }

  lemma LessTransitive(e: Exp, f: Exp, g: Exp)
    requires Less(e, f) && Less(f, g)
    ensures Less(e, g)
  {
    CompareTransitive(e, f, g);
  }

  lemma LessOnce(e: Exp, f: Exp)
    requires Less(e, f)
    ensures e != f && !Less(f, e)
  {
    CompareOpposite(e, f);
  }

  // ---------------------------------------------------------------------
  // Polynomials are sorted
  // ---------------------------------------------------------------------

  ghost predicate Sorted(p: Poly) {
    forall i, j | 0 <= i < j < |p| :: Less(p[i], p[j])
  }

  lemma SortedFirst(x: Exp, p: Poly)
    requires Sorted(p) && forall y <- p :: Less(x, y)
    ensures Sorted([x] + p)
  {
    forall i, j | 0 <= i < j < |[x] + p|
      ensures Less(([x] + p)[i], ([x] + p)[j])
    {
      assert ([x] + p)[j] == p[j - 1] && p[j - 1] in p;
    }
  }

  lemma {:induction false} InsertSorted(p: Poly, l: Exp)
    requires Sorted(p)
    ensures Sorted(Insert(p, l))
  {
    if p != [] {
      assert forall y <- p[1..] :: Less(p[0], y);
      if Less(p[0], l) {
        InsertSorted(p[1..], l);
        forall y <- Insert(p[1..], l)
          ensures Less(p[0], y)
        {
          InInsert(p[1..], l, y);
        }
        SortedFirst(p[0], Insert(p[1..], l));
      } else if Less(l, p[0]) {
        forall y <- p
          ensures Less(l, y)
        {
          if y != p[0] {
            LessTransitive(l, p[0], y);
          }
        }
        SortedFirst(l, p);
      }
    }
  }

  lemma {:induction false} AddPolySorted(p: Poly, q: Poly)
    requires Sorted(p)
    ensures Sorted(AddPoly(p, q))
    decreases |q|
  {
    if q != [] {
      InsertSorted(p, q[0]);
      AddPolySorted(AddLabel(p, q[0]), q[1..]);
    }
  }

  lemma {:induction false} AddRmulSorted(res: Poly, p: Poly, f: Exp)
    requires Sorted(res)
    ensures Sorted(AddRmul(res, p, f))
    decreases |p|
  {
    if p != [] {
      InsertSorted(res, MulExp(p[0], f));
      AddRmulSorted(AddLabel(res, MulExp(p[0], f)), p[1..], f);
    }
  }

  lemma {:induction false} DeriveSumSorted(res: Poly, es: seq<Exp>, a: Letter, i: nat)
    requires i <= |es| && Sorted(res)
    ensures Sorted(DeriveSum(res, es, a, i))
    decreases |es| - i
  {
    if i < |es| {
      AddPolySorted(res, Derivation(es[i], a));
      DeriveSumSorted(AddPoly(res, Derivation(es[i], a)), es, a, i + 1);
    }
  }

  lemma {:induction false} DeriveProductSorted(res: Poly, es: seq<Exp>, a: Letter, i: nat)
    requires i <= |es| && Sorted(res)
    ensures Sorted(DeriveProduct(res, es, a, i))
    decreases |es| - i
  {
    if i < |es| {
      var res' := AddPoly(res, RmulLabel(Derivation(es[i], a), Prod(es[i + 1..])));
      AddPolySorted(res, RmulLabel(Derivation(es[i], a), Prod(es[i + 1..])));
      if ConstantTerm(es[i]) {
        DeriveProductSorted(res', es, a, i + 1);
      }
    }
  }

  // ---------------------------------------------------------------------
  // Sums of rational expressions
  // ---------------------------------------------------------------------

  // Once out of the sums, a letter, a product or a star.
  predicate RationalTop(e: Exp)
    decreases e, 0
  {
    match e
    case Zero => true
    case One => true
    case Atom(_) => true
    case Add(es) => AllRationalTop(es)
    case Mul(_) => true
    case Star(_) => true
    case Conjunction(_) => false
    case Shuffle(_) => false
    case Complement(_) => false
  }

  predicate AllRationalTop(es: seq<Exp>)
    decreases es, 0
  {
    forall i | 0 <= i < |es| :: RationalTop(es[i])
  }

  lemma {:induction false} RationalHasTop(e: Exp)
    requires Rational(e)
    ensures RationalTop(e)
    decreases e
  {
    if e.Add? {
      forall i | 0 <= i < |e.es|
        ensures RationalTop(e.es[i])
      {
        RationalHasTop(e.es[i]);
      }
    }
  }

  lemma MulTop(x: Exp, f: Exp)
    requires RationalTop(x) && RationalTop(f)
    ensures RationalTop(MulExp(x, f))
  {
  }

  lemma ProdTop(es: seq<Exp>)
    requires AllRational(es)
    ensures RationalTop(Prod(es))
  {
    if |es| == 1 {
      RationalHasTop(es[0]);
    }
  }

  lemma {:induction false} TermsTop(e: Exp, d: Exp)
    requires Rational(e) && d in Terms(e)
    ensures RationalTop(d)
    decreases e, 0
  {
    match e
    case Zero =>
    case One =>
    case Atom(_) =>
    case Add(es) => SumTermsTop(es, d);
    case Mul(es) => ProductTermsTop(es, d);
    case Star(sub) =>
      var x :| x in Terms(sub) && d == MulExp(x, e);
      TermsTop(sub, x);
      MulTop(x, e);
  }

  lemma {:induction false} SumTermsTop(es: seq<Exp>, d: Exp)
    requires AllRational(es) && d in SumTerms(es)
    ensures RationalTop(d)
    decreases es, 0
  {
    if d in Terms(es[0]) {
      TermsTop(es[0], d);
    } else {
      SumTermsTop(es[1..], d);
    }
  }

  lemma {:induction false} ProductTermsTop(es: seq<Exp>, d: Exp)
    requires AllRational(es) && d in ProductTerms(es)
    ensures RationalTop(d)
    decreases es, 0
  {
    if d in Times(Terms(es[0]), Prod(es[1..])) {
      var x :| x in Terms(es[0]) && d == MulExp(x, Prod(es[1..]));
      TermsTop(es[0], x);
      ProdTop(es[1..]);
      MulTop(x, Prod(es[1..]));
    } else {
      ProductTermsTop(es[1..], d);
    }
  }

  lemma DerivedNotNull(x: Exp, a: Letter, m: Exp)
    requires RationalTop(x) && m in Derivation(x, a)
    ensures !m.Zero?
  {
    match x
    case Zero =>
    case One =>
    case Atom(_) =>
    case Add(es) => SumNotNull([], es, a, 0, m);
    case Mul(es) => InProductDerivation(es, a, m);
    case Star(sub) => InAddRmul([], Derivation(sub, a), x, m);
  }

  lemma DerivationSorted(x: Exp, a: Letter)
    requires RationalTop(x)
    ensures Sorted(Derivation(x, a))
  {
    match x
    case Zero =>
    case One =>
    case Atom(_) =>
    case Add(es) => DeriveSumSorted([], es, a, 0);
    case Mul(es) => DeriveProductSorted([], es, a, 0);
    case Star(sub) => AddRmulSorted([], Derivation(sub, a), x);
  }

  lemma {:induction false} InMerge(es: seq<Exp>, fs: seq<Exp>, x: Exp)
    requires x in Merge(es, fs)
    ensures x in es || x in fs
    decreases |es| + |fs|
  {
    if es != [] && fs != [] {
      if Less(es[0], fs[0]) {
        if x != es[0] {
          InMerge(es[1..], fs, x);
        }
      } else if Less(fs[0], es[0]) {
        if x != fs[0] {
          InMerge(es, fs[1..], x);
        }
      } else if x != es[0] {
        InMerge(es[1..], fs[1..], x);
      }
    }
  }

  // The operands of a sum are operands of one of its parts.
  ghost predicate FromEither(es: seq<Exp>, l: Exp, r: Exp) {
    forall x <- es :: x == l || x == r || (l.Add? && x in l.es) || (r.Add? && x in r.es)
  }

  lemma SumOperands(l: Exp, r: Exp) returns (es: seq<Exp>)
    requires !l.Zero? && !r.Zero?
    ensures AddExp(l, r) == AddOf(es) && FromEither(es, l, r)
  {
    if l.Add? && r.Add? {
      es := Merge(l.es, r.es);
      forall x <- es
        ensures x in l.es || x in r.es
      {
        InMerge(l.es, r.es, x);
      }
    } else if l.Add? {
      es := Insert(l.es, r);
      forall x <- es
        ensures x in l.es || x == r
      {
        InInsert(l.es, r, x);
      }
    } else if r.Add? {
      es := Insert(r.es, l);
      forall x <- es
        ensures x in r.es || x == l
      {
        InInsert(r.es, l, x);
      }
    } else {
      es := if Less(l, r) then [l, r] else if Less(r, l) then [r, l] else [l];
    }
  }

  lemma EitherTop(es: seq<Exp>, l: Exp, r: Exp)
    requires FromEither(es, l, r) && RationalTop(l) && RationalTop(r)
    ensures AllRationalTop(es)
  {
    forall i | 0 <= i < |es|
      ensures RationalTop(es[i])
    {
      assert es[i] in es;
    }
  }

  lemma AddTop(l: Exp, r: Exp)
    requires RationalTop(l) && RationalTop(r)
    ensures RationalTop(AddExp(l, r))
  {
    if !l.Zero? && !r.Zero? {
      var es := SumOperands(l, r);
      EitherTop(es, l, r);
    }
  }

  lemma {:induction false} DeriveSumHas(res: Poly, es: seq<Exp>, a: Letter, i: nat, m: Exp)
    requires i <= |es| && !m.Zero?
    requires m in res || exists j :: i <= j < |es| && m in Derivation(es[j], a)
    ensures m in DeriveSum(res, es, a, i)
    decreases |es| - i
  {
    if i < |es| {
      InAddPoly(res, Derivation(es[i], a), m);
      DeriveSumHas(AddPoly(res, Derivation(es[i], a)), es, a, i + 1, m);
    }
  }

  // The labels derived from an operand are derived from the sum.
  lemma OperandDerivation(x: Exp, l: Exp, a: Letter, m: Exp)
    requires m in Derivation(x, a) && !m.Zero? && (x == l || (l.Add? && x in l.es))
    ensures m in Derivation(l, a)
  {
    if x != l {
      var j :| 0 <= j < |l.es| && l.es[j] == x;
      DeriveSumHas([], l.es, a, 0, m);
    }
  }

  lemma AddDerivation(l: Exp, r: Exp, a: Letter, m: Exp)
    requires RationalTop(l) && RationalTop(r) && m in Derivation(AddExp(l, r), a)
    ensures m in Derivation(l, a) || m in Derivation(r, a)
  {
    if !l.Zero? && !r.Zero? {
      AddTop(l, r);
      DerivedNotNull(AddExp(l, r), a, m);
      var es := SumOperands(l, r);
      if |es| > 1 {
        InDeriveSum([], es, a, 0, m);
      }
      var j :| 0 <= j < |es| && m in Derivation(es[j], a);
      assert es[j] in es;
      if es[j] == l || (l.Add? && es[j] in l.es) {
        OperandDerivation(es[j], l, a, m);
      } else {
        OperandDerivation(es[j], r, a, m);
      }
    }
  }

  // The labels derived from a sum of labels are derived from one of them.
  lemma {:induction false} LabelDerivation(res: Exp, p: Poly, a: Letter, m: Exp)
    requires RationalTop(res) && AllRationalTop(p) && m in Derivation(AddTo(res, p), a)
    ensures m in Derivation(res, a) || exists i :: 0 <= i < |p| && m in Derivation(p[i], a)
    decreases |p|
  {
    if p != [] {
      AddTop(res, p[0]);
      LabelDerivation(AddExp(res, p[0]), p[1..], a, m);
      if m in Derivation(AddExp(res, p[0]), a) {
        AddDerivation(res, p[0], a, m);
      } else {
        var i :| 0 <= i < |p[1..]| && m in Derivation(p[1..][i], a);
        assert p[i + 1] == p[1..][i];
      }
    }
  }

  lemma {:induction false} LabelTop(res: Exp, p: Poly)
    requires RationalTop(res) && AllRationalTop(p)
    ensures RationalTop(AddTo(res, p))
    decreases |p|
  {
    if p != [] {
      AddTop(res, p[0]);
      LabelTop(AddExp(res, p[0]), p[1..]);
    }
  }

  // ---------------------------------------------------------------------
  // Finitely many sums
  // ---------------------------------------------------------------------

  // A sorted polynomial is told by its labels.
  lemma {:induction false} SortedUnique(p: Poly, q: Poly)
    requires Sorted(p) && Sorted(q) && Elements(p) == Elements(q)
    ensures p == q
    decreases |p|
  {
    if p == [] || q == [] {
      NoElements(p);
      NoElements(q);
    } else {
      SameFirst(p, q);
      assert Sorted(p[1..]) && Sorted(q[1..]);
      RestElements(p);
      RestElements(q);
      SortedUnique(p[1..], q[1..]);
      assert p == [p[0]] + p[1..] && q == [q[0]] + q[1..];
    }
  }

  lemma NoElements(p: Poly)
    ensures Elements(p) == {} <==> p == []
  {
    assert p == [] || p[0] in Elements(p);
  }

  lemma FirstLeast(p: Poly, x: Exp)
    requires Sorted(p) && x in p
    ensures x == p[0] || Less(p[0], x)
  {
  }

  lemma SameFirst(p: Poly, q: Poly)
    requires Sorted(p) && Sorted(q) && p != [] && q != [] && Elements(p) == Elements(q)
    ensures p[0] == q[0]
  {
    assert p[0] in Elements(q) && q[0] in Elements(p);
    FirstLeast(p, q[0]);
    FirstLeast(q, p[0]);
    if p[0] != q[0] {
      LessOnce(p[0], q[0]);
    }
  }

  lemma RestElements(p: Poly)
    requires Sorted(p) && p != []
    ensures Elements(p[1..]) == Elements(p) - {p[0]}
  {
    assert p == [p[0]] + p[1..];
    forall x <- p[1..]
      ensures x != p[0]
    {
      LessOnce(p[0], x);
    }
  }

  function Pow2(n: nat): nat {
    if n == 0 then 1 else 2 * Pow2(n - 1)
  }

  lemma {:induction false} Pow2Grows(m: nat, n: nat)
    requires m <= n
    ensures Pow2(m) <= Pow2(n)
    decreases n
  {
    if m < n {
      Pow2Grows(m, n - 1);
    }
  }

  // The subsets of T.
  ghost function Subsets(T: set<Exp>): set<set<Exp>> {
    if T == {} then {{}}
    else
      var x :| x in T;
      Subsets(T - {x}) + With(x, Subsets(T - {x}))
  }

  ghost function With(x: Exp, Ss: set<set<Exp>>): set<set<Exp>> {
    set S <- Ss :: S + {x}
  }

  // Some x whose choice defines the subsets of T.
  lemma SubsetsStep(T: set<Exp>) returns (x: Exp)
    requires T != {}
    ensures x in T && Subsets(T) == Subsets(T - {x}) + With(x, Subsets(T - {x}))
  {
    x :| x in T && Subsets(T) == Subsets(T - {x}) + With(x, Subsets(T - {x}));
  }

  lemma {:induction false} InSubsets(T: set<Exp>, S: set<Exp>)
    requires S <= T
    ensures S in Subsets(T)
    decreases T
  {
    if T != {} {
      var x := SubsetsStep(T);
      var rest := T - {x};
      InSubsets(rest, S - {x});
      if x in S {
        assert (S - {x}) + {x} in With(x, Subsets(rest));
        assert S == (S - {x}) + {x};
      } else {
        assert S == S - {x};
      }
    } else {
      assert S == {};
    }
  }

  lemma {:induction false} WithSize(x: Exp, Ss: set<set<Exp>>)
    ensures |With(x, Ss)| <= |Ss|
    decreases |Ss|
  {
    if Ss != {} {
      var S :| S in Ss;
      WithSize(x, Ss - {S});
      assert With(x, Ss) == With(x, Ss - {S}) + {S + {x}};
      UnionSize(With(x, Ss - {S}), {S + {x}});
    }
  }

  lemma TwiceSize(x: Exp, Ss: set<set<Exp>>)
    ensures |Ss + With(x, Ss)| <= 2 * |Ss|
  {
    WithSize(x, Ss);
    UnionSize(Ss, With(x, Ss));
  }

  lemma OneSubset()
    ensures |Subsets({})| == 1
  {
    assert Subsets({}) == {{}};
  }

  lemma {:induction false} SubsetsSize(T: set<Exp>)
    ensures |Subsets(T)| <= Pow2(|T|)
    decreases T
  {
    if T != {} {
      var x := SubsetsStep(T);
      var rest := T - {x};
      SubsetsSize(rest);
      TwiceSize(x, Subsets(rest));
      assert |T| == |rest| + 1;
    } else {
      OneSubset();
    }
  }

  // The sum of the labels in S.
  ghost function SumOf(S: set<Exp>): Exp {
    if exists p :: Sorted(p) && Elements(p) == S then
      var p :| Sorted(p) && Elements(p) == S;
      ToLabel(p)
    else Zero
  }

  lemma SumOfSorted(p: Poly)
    requires Sorted(p)
    ensures SumOf(Elements(p)) == ToLabel(p)
  {
    var q :| Sorted(q) && Elements(q) == Elements(p) && SumOf(Elements(p)) == ToLabel(q);
    SortedUnique(p, q);
  }

  // The sums of derived terms.
  ghost function Sums(T: set<Exp>): set<Exp> {
    SumsOf(Subsets(T))
  }

  ghost function SumsOf(Ss: set<set<Exp>>): set<Exp> {
    set S <- Ss :: SumOf(S)
  }

  lemma {:induction false} SumsOfSize(Ss: set<set<Exp>>)
    ensures |SumsOf(Ss)| <= |Ss|
    decreases |Ss|
  {
    if Ss != {} {
      var S :| S in Ss;
      SumsOfSize(Ss - {S});
      assert SumsOf(Ss) == SumsOf(Ss - {S}) + {SumOf(S)};
      UnionSize(SumsOf(Ss - {S}), {SumOf(S)});
    }
  }

  lemma InSums(T: set<Exp>, p: Poly)
    requires Sorted(p) && forall x <- p :: x in T
    ensures ToLabel(p) in Sums(T)
  {
    SumOfSorted(p);
    InSubsets(T, Elements(p));
  }

  // What is derived from a sum of derived terms is one.
  lemma SumsClosed(e: Exp, d: Exp, a: Letter)
    requires Rational(e) && d in Sums(Terms(e))
    ensures ToLabel(Derivation(d, a)) in Sums(Terms(e))
  {
    var S :| S in Subsets(Terms(e)) && d == SumOf(S);
    SubsetsInside(Terms(e), S);
    if p :| Sorted(p) && Elements(p) == S && d == ToLabel(p) {
      forall i | 0 <= i < |p|
        ensures RationalTop(p[i]) && p[i] in Terms(e)
      {
        assert p[i] in Elements(p);
        TermsTop(e, p[i]);
      }
      LabelTop(Zero, p);
      DerivationSorted(d, a);
      forall m <- Derivation(d, a)
        ensures m in Terms(e)
      {
        LabelDerivation(Zero, p, a, m);
        var i :| 0 <= i < |p| && m in Derivation(p[i], a);
        TermsClosed(e, p[i], a, m);
      }
      InSums(Terms(e), Derivation(d, a));
    } else {
      InSums(Terms(e), []);
    }
  }

  lemma {:induction false} SubsetsInside(T: set<Exp>, S: set<Exp>)
    requires S in Subsets(T)
    ensures S <= T
    decreases T
  {
    if T != {} {
      var x := SubsetsStep(T);
      var rest := T - {x};
      if S in Subsets(rest) {
        SubsetsInside(rest, S);
      } else {
        assert S in With(x, Subsets(rest));
        var R :| R in Subsets(rest) && S == R + {x};
        SubsetsInside(rest, R);
      }
    }
  }

  lemma SumsSize(e: Exp)
    ensures |Sums(Terms(e))| <= Pow2(Width(e))
  {
    var T := Terms(e);
    TermsSize(e);
    Pow2Grows(|T|, Width(e));
    SubsetsSize(T);
    SumsOfSize(Subsets(T));
  }

  // The expression and the sums of its derived terms are closed.
  lemma FinitelyManySums(e: Exp, gens: seq<Letter>)
    requires Rational(e)
    ensures ClosedTerms({e} + Sums(Terms(e)), gens, true)
    ensures |{e} + Sums(Terms(e))| <= Pow2(Width(e)) + 1
  {
    var T := Terms(e);
    SumsSize(e);
    UnionSize({e}, Sums(T));
    forall d: Exp, l: Letter, m: Exp | d in {e} + Sums(T) && l in gens && m in Targets(d, l, true)
      ensures m in {e} + Sums(T)
    {
      if d in Sums(T) {
        SumsClosed(e, d, l);
      } else {
        FirstSum(e, l);
      }
    }
  }

  lemma FirstSum(e: Exp, a: Letter)
    requires Rational(e)
    ensures ToLabel(Derivation(e, a)) in Sums(Terms(e))
  {
    RationalHasTop(e);
    DerivationSorted(e, a);
    forall x <- Derivation(e, a)
      ensures x in Terms(e)
    {
      DerivationInTerms(e, a, x);
    }
    InSums(Terms(e), Derivation(e, a));
  }

  // The deterministic derived-term automaton of an expression made of 0, 1,
  // letters, sums, products and stars.
  method DeterministicDerivedTermOf(exp: Exp, gens: seq<Letter>) returns (aut: Automaton, ghost names: map<State, Exp>)
    requires Rational(exp)
    ensures NamesTerms(names, exp, gens, true) && DerivedBy(aut, names, exp, gens, true)
    ensures aut.Valid() && Deterministic(aut) && |aut.initial| == 1
    ensures forall w: Word | Over(w, gens) :: aut.Accepts(w) <==> Member(exp, w)
    ensures |aut.states| <= Pow2(Width(exp)) + 1
  {
    FinitelyManySums(exp, gens);
    var build := new DerivedTermAutomaton(gens, true);
    build.ViaDerivation(exp, {exp} + Sums(Terms(exp)));
    aut, names := build.aut.aut, build.aut.right;
  }
}
