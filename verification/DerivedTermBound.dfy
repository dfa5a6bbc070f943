// The derived terms of an expression made of letters, sums, products and
// stars are at most as many as its letters, plus one
// (vcsn/algos/derived-term.hh, vcsn/algos/derivation.hh).
module DerivedTermBound {
  import opened Expressions
  import opened Derivations
  import opened DerivedTerm
  import opened Sets

  // A factor of a flat product.
  predicate Simple(e: Exp) {
    e.Atom? || e.Add? || e.Star?
  }

  predicate AllSimple(es: seq<Exp>) {
    forall i | 0 <= i < |es| :: Simple(es[i])
  }

  // Products are kept flat.
  predicate FlatTop(e: Exp) {
    e.Zero? || e.One? || Simple(e) || (e.Mul? && |e.es| >= 2 && AllSimple(e.es))
  }

  // The expressions made of 0, 1, letters, sums, products and stars, with
  // flat products.
  predicate Rational(e: Exp)
    decreases e, 0
  {
    match e
    case Zero => true
    case One => true
    case Atom(_) => true
    case Add(es) => AllRational(es)
    case Mul(es) => FlatTop(e) && AllRational(es)
    case Star(sub) => Rational(sub)
    case Conjunction(_) => false
    case Shuffle(_) => false
    case Complement(_) => false
  }

  predicate AllRational(es: seq<Exp>)
    decreases es, 0
  {
    forall i | 0 <= i < |es| :: Rational(es[i])
  }

  // The number of letters.
  function Width(e: Exp): nat
    decreases e, 0
  {
    match e
    case Zero => 0
    case One => 0
    case Atom(_) => 1
    case Add(es) => Widths(es)
    case Mul(es) => Widths(es)
    case Conjunction(es) => Widths(es)
    case Shuffle(es) => Widths(es)
    case Star(sub) => Width(sub)
    case Complement(sub) => Width(sub)
  }

  function Widths(es: seq<Exp>): nat
    decreases es, 0
  {
    if es == [] then 0 else Width(es[0]) + Widths(es[1..])
  }

  // ---------------------------------------------------------------------
  // The labels of a derivation
  // ---------------------------------------------------------------------

  lemma {:induction false} InInsert(p: Poly, l: Exp, m: Exp)
    ensures m in Insert(p, l) <==> m in p || m == l
  {
    if p != [] {
      assert p == [p[0]] + p[1..];
      if Less(p[0], l) {
        InInsert(p[1..], l, m);
      } else if !Less(l, p[0]) {
        NeitherLess(p[0], l);
      }
    }
  }

  lemma InAddLabel(p: Poly, l: Exp, m: Exp)
    ensures m in AddLabel(p, l) <==> m in p || (m == l && !l.Zero?)
  {
    InInsert(p, l, m);
  }

  // A label of p that is not null.
  predicate Label(p: Poly, m: Exp) {
    m in p && !m.Zero?
  }

  lemma {:induction false} InAddPoly(p: Poly, q: Poly, m: Exp)
    ensures m in AddPoly(p, q) <==> m in p || Label(q, m)
    decreases |q|
  {
    if q != [] {
      InAddPoly(AddLabel(p, q[0]), q[1..], m);
      InAddLabel(p, q[0], m);
      assert q == [q[0]] + q[1..];
    }
  }

  ghost predicate Product(p: Poly, f: Exp, m: Exp) {
    !m.Zero? && exists y :: y in p && m == MulExp(y, f)
  }

  lemma {:induction false} InAddRmul(res: Poly, p: Poly, f: Exp, m: Exp)
    ensures m in AddRmul(res, p, f) <==> m in res || Product(p, f, m)
    decreases |p|
  {
    if p != [] {
      InAddRmul(AddLabel(res, MulExp(p[0], f)), p[1..], f, m);
      InAddLabel(res, MulExp(p[0], f), m);
      forall y
        ensures y in p <==> y == p[0] || y in p[1..]
      {
        assert p == [p[0]] + p[1..];
      }
    }
  }

  // m comes from the derivation of the i-th factor.
  ghost predicate FromFactor(es: seq<Exp>, a: Letter, i: nat, m: Exp) {
    i < |es| && Product(Derivation(es[i], a), Prod(es[i + 1..]), m)
  }

  ghost predicate FromFactors(es: seq<Exp>, a: Letter, m: Exp) {
    exists i: nat :: FromFactor(es, a, i, m)
  }

  ghost predicate ConstantUpTo(es: seq<Exp>, i: nat, j: nat) {
    forall k | i <= k < j && k < |es| :: ConstantTerm(es[k])
  }

  lemma ConstantNext(es: seq<Exp>, i: nat, j: nat)
    requires i < j && i < |es|
    ensures ConstantUpTo(es, i, j) <==> ConstantTerm(es[i]) && ConstantUpTo(es, i + 1, j)
  {
  }

  lemma {:induction false} InDeriveProduct(res: Poly, es: seq<Exp>, a: Letter, i: nat, m: Exp)
    requires i <= |es|
    ensures m in DeriveProduct(res, es, a, i)
            <==> m in res || FromNext(es, a, i, m)
    decreases |es| - i
  {
    if i < |es| {
      var q := RmulLabel(Derivation(es[i], a), Prod(es[i + 1..]));
      var res' := AddPoly(res, q);
      InAddPoly(res, q, m);
      InAddRmul([], Derivation(es[i], a), Prod(es[i + 1..]), m);
      assert Label(q, m) <==> FromFactor(es, a, i, m);
      FirstOrNext(es, a, i, m);
      if ConstantTerm(es[i]) {
        InDeriveProduct(res', es, a, i + 1, m);
      }
    }
  }

  // m comes from a factor from the i-th on, when all those between have a nonzero
  // constant term.
  ghost predicate FromNext(es: seq<Exp>, a: Letter, i: nat, m: Exp) {
    exists j: nat :: i <= j && FromFactor(es, a, j, m) && ConstantUpTo(es, i, j)
  }

  lemma FirstOrNext(es: seq<Exp>, a: Letter, i: nat, m: Exp)
    requires i < |es|
    ensures FromNext(es, a, i, m) <==> FromFactor(es, a, i, m) || (ConstantTerm(es[i]) && FromNext(es, a, i + 1, m))
  {
    if FromFactor(es, a, i, m) {
      assert ConstantUpTo(es, i, i);
    } else if ConstantTerm(es[i]) && FromNext(es, a, i + 1, m) {
      var j: nat :| i + 1 <= j && FromFactor(es, a, j, m) && ConstantUpTo(es, i + 1, j);
      ConstantNext(es, i, j);
    } else if FromNext(es, a, i, m) {
      var j: nat :| i <= j && FromFactor(es, a, j, m) && ConstantUpTo(es, i, j);
      ConstantNext(es, i, j);
    }
  }

  lemma InProductDerivation(es: seq<Exp>, a: Letter, m: Exp)
    ensures m in Derivation(Mul(es), a)
            <==> exists j: nat :: FromFactor(es, a, j, m) && ConstantUpTo(es, 0, j)
  {
    InDeriveProduct([], es, a, 0, m);
  }

  lemma {:induction false} InDeriveSum(res: Poly, es: seq<Exp>, a: Letter, i: nat, m: Exp)
    requires i <= |es| && m in DeriveSum(res, es, a, i)
    ensures m in res || exists j :: i <= j < |es| && m in Derivation(es[j], a)
    decreases |es| - i
  {
    if i < |es| {
      InDeriveSum(AddPoly(res, Derivation(es[i], a)), es, a, i + 1, m);
      InAddPoly(res, Derivation(es[i], a), m);
    }
  }

  // ---------------------------------------------------------------------
  // Products
  // ---------------------------------------------------------------------

  lemma ProdFactors(es: seq<Exp>)
    requires es != [] && AllSimple(es)
    ensures Factors(Prod(es)) == es && !Prod(es).Zero? && !Prod(es).One?
  {
    if |es| == 1 {
      assert es == [es[0]];
    }
  }

  // The products of a term with two lists of factors, one after the other.
  lemma ProdAssociative(y: Exp, A: seq<Exp>, C: seq<Exp>)
    requires AllSimple(A) && AllSimple(C) && C != []
    ensures MulExp(MulExp(y, Prod(A)), Prod(C)) == MulExp(y, Prod(A + C))
  {
    ProdFactors(C);
    AppendSimple(A, C);
    ProdFactors(A + C);
    if A == [] {
      assert A + C == C;
    } else {
      ProdFactors(A);
      if y.One? {
        assert Prod(A + C) == Mul(A + C);
      } else if !y.Zero? {
        assert (Factors(y) + A) + C == Factors(y) + (A + C);
      }
    }
  }

  lemma AppendSimple(A: seq<Exp>, C: seq<Exp>)
    requires AllSimple(A) && AllSimple(C)
    ensures AllSimple(A + C)
  {
  }

  lemma ProductIsMul(x: Exp, C: seq<Exp>)
    requires !x.Zero? && !x.One? && C != [] && AllSimple(C)
    ensures MulExp(x, Prod(C)) == Mul(Factors(x) + C)
  {
    ProdFactors(C);
  }

  lemma TailFactor(xs: seq<Exp>, C: seq<Exp>, a: Letter, j: nat, m: Exp)
    requires FromFactor(xs + C, a, j, m) && j >= |xs|
    ensures FromFactor(C, a, j - |xs|, m)
  {
    assert (xs + C)[j] == C[j - |xs|] && (xs + C)[j + 1..] == C[j - |xs| + 1..];
  }

  lemma MulDerivation(x: Exp, C: seq<Exp>, a: Letter, m: Exp)
    requires FlatTop(x) && AllSimple(C) && !x.Zero? && !x.One? && C != []
    requires m in Derivation(Mul(Factors(x) + C), a)
    ensures Product(Derivation(x, a), Prod(C), m) || FromFactors(C, a, m)
  {
    var xs := Factors(x);
    InProductDerivation(xs + C, a, m);
    var j: nat :| FromFactor(xs + C, a, j, m) && ConstantUpTo(xs + C, 0, j);
    if j < |xs| {
      FirstDerivation(x, C, a, j, m);
    } else {
      TailFactor(xs, C, a, j, m);
    }
  }

  // Deriving a product with a tail of simple factors: either the first term
  // is derived, or the tail is.
  lemma TermDerivation(x: Exp, C: seq<Exp>, a: Letter, m: Exp)
    requires FlatTop(x) && AllSimple(C)
    requires m in Derivation(MulExp(x, Prod(C)), a)
    ensures Product(Derivation(x, a), Prod(C), m) || FromFactors(C, a, m)
  {
    if C == [] {
      LabelNotNull(x, a, m);
      assert MulExp(m, Prod(C)) == m;
    } else {
      ProdFactors(C);
      if x.One? {
        TailDerivation(C, a, m);
      } else if !x.Zero? {
        ProductIsMul(x, C);
        MulDerivation(x, C, a, m);
      }
    }
  }

  lemma LabelNotNull(x: Exp, a: Letter, m: Exp)
    requires FlatTop(x) && m in Derivation(x, a)
    ensures !m.Zero?
  {
    match x
    case Zero =>
    case One =>
    case Atom(_) =>
    case Add(es) => SumNotNull([], es, a, 0, m);
    case Mul(es) => InProductDerivation(es, a, m);
    case Star(sub) => InAddRmul([], Derivation(sub, a), x, m);
  }

  lemma {:induction false} SumNotNull(res: Poly, es: seq<Exp>, a: Letter, i: nat, m: Exp)
    requires i <= |es| && m in DeriveSum(res, es, a, i)
    ensures m in res || !m.Zero?
    decreases |es| - i
  {
    if i < |es| {
      SumNotNull(AddPoly(res, Derivation(es[i], a)), es, a, i + 1, m);
      InAddPoly(res, Derivation(es[i], a), m);
    }
  }

  lemma TailDerivation(C: seq<Exp>, a: Letter, m: Exp)
    requires AllSimple(C) && C != [] && m in Derivation(Prod(C), a)
    ensures FromFactors(C, a, m)
  {
    if |C| == 1 {
      LabelNotNull(C[0], a, m);
      assert MulExp(m, Prod(C[1..])) == m;
      assert FromFactor(C, a, 0, m);
    } else {
      InProductDerivation(C, a, m);
    }
  }

  lemma FirstOfMul(xs: seq<Exp>, C: seq<Exp>, a: Letter, j: nat, y: Exp)
    requires AllSimple(xs) && AllSimple(C) && C != [] && j < |xs| && ConstantUpTo(xs, 0, j)
    requires y in Derivation(xs[j], a) && !MulExp(y, Prod(xs[j + 1..] + C)).Zero?
    ensures Product(Derivation(Mul(xs), a), Prod(C), MulExp(y, Prod(xs[j + 1..] + C)))
  {
    var z := MulExp(y, Prod(xs[j + 1..]));
    ProdAssociative(y, xs[j + 1..], C);
    assert FromFactor(xs, a, j, z);
    InProductDerivation(xs, a, z);
  }

  lemma FirstDerivation(x: Exp, C: seq<Exp>, a: Letter, j: nat, m: Exp)
    requires FlatTop(x) && !x.Zero? && !x.One? && AllSimple(C) && C != [] && j < |Factors(x)|
    requires FromFactor(Factors(x) + C, a, j, m) && ConstantUpTo(Factors(x) + C, 0, j)
    ensures Product(Derivation(x, a), Prod(C), m)
  {
    var xs := Factors(x);
    assert (xs + C)[j] == xs[j] && (xs + C)[j + 1..] == xs[j + 1..] + C;
    var y :| y in Derivation(xs[j], a) && m == MulExp(y, Prod(xs[j + 1..] + C));
    if x.Mul? {
      ConstantPrefix(xs, C, j);
      FirstOfMul(xs, C, a, j, y);
    } else {
      assert xs[j + 1..] + C == C;
    }
  }

  lemma ConstantPrefix(xs: seq<Exp>, C: seq<Exp>, j: nat)
    requires j < |xs| && ConstantUpTo(xs + C, 0, j)
    ensures ConstantUpTo(xs, 0, j)
  {
    assert forall k | 0 <= k < j :: (xs + C)[k] == xs[k];
  }

  // ---------------------------------------------------------------------
  // The derived terms
  // ---------------------------------------------------------------------

  ghost function Times(S: set<Exp>, f: Exp): set<Exp> {
    set d <- S :: MulExp(d, f)
  }

  // A finite set that contains all terms derived from e.
  ghost function Terms(e: Exp): set<Exp>
    decreases e, 0
  {
    match e
    case Zero => {}
    case One => {}
    case Atom(_) => {One}
    case Add(es) => SumTerms(es)
    case Mul(es) => ProductTerms(es)
    case Star(sub) => Times(Terms(sub), e)
    case Conjunction(_) => {}
    case Shuffle(_) => {}
    case Complement(_) => {}
  }

  ghost function SumTerms(es: seq<Exp>): set<Exp>
    decreases es, 0
  {
    if es == [] then {} else Terms(es[0]) + SumTerms(es[1..])
  }

  ghost function ProductTerms(es: seq<Exp>): set<Exp>
    decreases es, 0
  {
    if es == [] then {} else Times(Terms(es[0]), Prod(es[1..])) + ProductTerms(es[1..])
  }

  lemma TimesMore(S: set<Exp>, d: Exp, f: Exp)
    requires d in S
    ensures Times(S, f) == Times(S - {d}, f) + {MulExp(d, f)}
  {
  }

  lemma {:induction false} TimesSize(S: set<Exp>, f: Exp)
    ensures |Times(S, f)| <= |S|
    decreases |S|
  {
    if S != {} {
      var d :| d in S;
      TimesSize(S - {d}, f);
      TimesMore(S, d, f);
      UnionSize(Times(S - {d}, f), {MulExp(d, f)});
    }
  }

  // As many terms as letters, at most.
  lemma {:induction false} TermsSize(e: Exp)
    ensures |Terms(e)| <= Width(e)
    decreases e, 0
  {
    match e
    case Zero =>
    case One =>
    case Atom(_) =>
    case Add(es) => SumTermsSize(es);
    case Mul(es) => ProductTermsSize(es);
    case Star(sub) =>
      TermsSize(sub);
      TimesSize(Terms(sub), e);
    case Conjunction(_) =>
    case Shuffle(_) =>
    case Complement(_) =>
  }

  lemma {:induction false} SumTermsSize(es: seq<Exp>)
    ensures |SumTerms(es)| <= Widths(es)
    decreases es, 0
  {
    if es != [] {
      TermsSize(es[0]);
      SumTermsSize(es[1..]);
      UnionSize(Terms(es[0]), SumTerms(es[1..]));
    }
  }

  lemma {:induction false} ProductTermsSize(es: seq<Exp>)
    ensures |ProductTerms(es)| <= Widths(es)
    decreases es, 0
  {
    if es != [] {
      TermsSize(es[0]);
      TimesSize(Terms(es[0]), Prod(es[1..]));
      ProductTermsSize(es[1..]);
      UnionSize(Times(Terms(es[0]), Prod(es[1..])), ProductTerms(es[1..]));
    }
  }

  lemma {:induction false} InSumTerms(es: seq<Exp>, i: nat)
    requires i < |es|
    ensures Terms(es[i]) <= SumTerms(es)
  {
    if i > 0 {
      InSumTerms(es[1..], i - 1);
    }
  }

  lemma {:induction false} InProductTerms(es: seq<Exp>, i: nat)
    requires i < |es|
    ensures Times(Terms(es[i]), Prod(es[i + 1..])) <= ProductTerms(es)
  {
    if i > 0 {
      InProductTerms(es[1..], i - 1);
      assert es[1..][i..] == es[i + 1..];
    }
  }

  // Derived terms are flat.
  lemma {:induction false} TermsFlat(e: Exp, d: Exp)
    requires Rational(e) && d in Terms(e)
    ensures FlatTop(d)
    decreases e, 0
  {
    match e
    case Zero =>
    case One =>
    case Atom(_) =>
    case Add(es) => SumTermsFlat(es, d);
    case Mul(es) => ProductTermsFlat(es, d);
    case Star(sub) =>
      var x :| x in Terms(sub) && d == MulExp(x, e);
      TermsFlat(sub, x);
      assert [e][0] == e;
      FlatProduct(x, [e]);
  }

  lemma {:induction false} SumTermsFlat(es: seq<Exp>, d: Exp)
    requires AllRational(es) && d in SumTerms(es)
    ensures FlatTop(d)
    decreases es, 0
  {
    if d in Terms(es[0]) {
      TermsFlat(es[0], d);
    } else {
      SumTermsFlat(es[1..], d);
    }
  }

  lemma {:induction false} ProductTermsFlat(es: seq<Exp>, d: Exp)
    requires AllRational(es) && AllSimple(es) && d in ProductTerms(es)
    ensures FlatTop(d)
    decreases es, 0
  {
    if d in Times(Terms(es[0]), Prod(es[1..])) {
      var x :| x in Terms(es[0]) && d == MulExp(x, Prod(es[1..]));
      TermsFlat(es[0], x);
      FlatProduct(x, es[1..]);
    } else {
      ProductTermsFlat(es[1..], d);
    }
  }

  lemma FlatProduct(x: Exp, C: seq<Exp>)
    requires FlatTop(x) && AllSimple(C)
    ensures FlatTop(MulExp(x, Prod(C)))
  {
    if C != [] {
      ProdFactors(C);
      if !x.Zero? && !x.One? {
        AppendSimple(Factors(x), C);
      }
    }
  }

  // The labels of a derivation are derived terms.
  lemma {:induction false} DerivationInTerms(e: Exp, a: Letter, m: Exp)
    requires Rational(e) && m in Derivation(e, a)
    ensures m in Terms(e)
    decreases e, 0
  {
    match e
    case Zero =>
    case One =>
    case Atom(_) =>
    case Add(es) =>
      InDeriveSum([], es, a, 0, m);
      var j :| 0 <= j < |es| && m in Derivation(es[j], a);
      DerivationInTerms(es[j], a, m);
      InSumTerms(es, j);
    case Mul(es) =>
      InProductDerivation(es, a, m);
      FactorsInTerms(es, a, m);
    case Star(sub) =>
      InAddRmul([], Derivation(sub, a), e, m);
      var y :| y in Derivation(sub, a) && m == MulExp(y, e);
      DerivationInTerms(sub, a, y);
  }

  lemma {:induction false} FactorsInTerms(es: seq<Exp>, a: Letter, m: Exp)
    requires AllRational(es) && FromFactors(es, a, m)
    ensures m in ProductTerms(es)
    decreases es, 0
  {
    var j: nat :| FromFactor(es, a, j, m);
    var y :| y in Derivation(es[j], a) && m == MulExp(y, Prod(es[j + 1..]));
    DerivationInTerms(es[j], a, y);
    InProductTerms(es, j);
  }

  // The labels of the derivation of a derived term are derived terms.
  lemma {:induction false} TermsClosed(e: Exp, d: Exp, a: Letter, m: Exp)
    requires Rational(e) && d in Terms(e) && m in Derivation(d, a)
    ensures m in Terms(e)
    decreases e, 0
  {
    match e
    case Zero =>
    case One =>
    case Atom(_) =>
    case Add(es) => SumTermsClosed(es, d, a, m);
    case Mul(es) => ProductTermsClosed(es, d, a, m);
    case Star(sub) =>
      var x :| x in Terms(sub) && d == MulExp(x, e);
      TermsFlat(sub, x);
      assert [e][0] == e && Prod([e]) == e;
      TermDerivation(x, [e], a, m);
      if Product(Derivation(x, a), e, m) {
        var y :| y in Derivation(x, a) && m == MulExp(y, e);
        TermsClosed(sub, x, a, y);
      } else {
        OneFactor(e, a, m);
        DerivationInTerms(e, a, m);
      }
  }

  lemma OneFactor(e: Exp, a: Letter, m: Exp)
    requires FromFactors([e], a, m)
    ensures m in Derivation(e, a)
  {
    var j: nat :| FromFactor([e], a, j, m);
    assert [e][j] == e && [e][j + 1..] == [];
  }

  lemma {:induction false} SumTermsClosed(es: seq<Exp>, d: Exp, a: Letter, m: Exp)
    requires AllRational(es) && d in SumTerms(es) && m in Derivation(d, a)
    ensures m in SumTerms(es)
    decreases es, 0
  {
    if d in Terms(es[0]) {
      TermsClosed(es[0], d, a, m);
    } else {
      SumTermsClosed(es[1..], d, a, m);
    }
  }

  lemma {:induction false} ProductTermsClosed(es: seq<Exp>, d: Exp, a: Letter, m: Exp)
    requires AllRational(es) && AllSimple(es) && d in ProductTerms(es) && m in Derivation(d, a)
    ensures m in ProductTerms(es)
    decreases es, 0
  {
    if d in Times(Terms(es[0]), Prod(es[1..])) {
      var x :| x in Terms(es[0]) && d == MulExp(x, Prod(es[1..]));
      TermsFlat(es[0], x);
      TermDerivation(x, es[1..], a, m);
      if Product(Derivation(x, a), Prod(es[1..]), m) {
        var y :| y in Derivation(x, a) && m == MulExp(y, Prod(es[1..]));
        TermsClosed(es[0], x, a, y);
      } else {
        FactorsInTerms(es[1..], a, m);
      }
    } else {
      ProductTermsClosed(es[1..], d, a, m);
    }
  }

  // The expression and its derived terms are closed, and at most as many as
  // its letters, plus one.
  lemma FinitelyManyTerms(e: Exp, gens: seq<Letter>)
    requires Rational(e)
    ensures ClosedTerms({e} + Terms(e), gens, false)
    ensures |{e} + Terms(e)| <= Width(e) + 1
  {
    TermsSize(e);
    UnionSize({e}, Terms(e));
    forall d: Exp, l: Letter, m: Exp | d in {e} + Terms(e) && l in gens && m in Targets(d, l, false)
      ensures m in {e} + Terms(e)
    {
      if d == e {
        DerivationInTerms(e, l, m);
      } else {
        TermsClosed(e, d, l, m);
      }
    }
  }

  // The derived-term automaton of an expression made of 0, 1, letters, sums,
  // products and stars.
  method DerivedTermOf(exp: Exp, gens: seq<Letter>) returns (aut: Automaton, ghost names: map<State, Exp>)
    requires Rational(exp)
    ensures NamesTerms(names, exp, gens, false) && DerivedBy(aut, names, exp, gens, false)
    ensures aut.Valid()
    ensures forall w: Word | Over(w, gens) :: aut.Accepts(w) <==> Member(exp, w)
    ensures |aut.states| <= Width(exp) + 1
  {
    FinitelyManyTerms(exp, gens);
    var build := new DerivedTermAutomaton(gens, false);
    build.ViaDerivation(exp, {exp} + Terms(exp));
    aut, names := build.aut.aut, build.aut.right;
  }
}
