// What the identities make of expressions: sums are sets of operands, products
// are lists of factors, and derivation keeps such forms
// (vcsn/core/rat/expressionset.hxx, vcsn/core/rat/size.hh).
module NormalForms {
  import opened Expressions
  import opened Derivations
  import opened DerivedTermBound
  import opened DeterministicTerms
  import opened Sets

  // ---------------------------------------------------------------------
  // Sizes
  // ---------------------------------------------------------------------

  // Sizes, which order expressions, count the operands and the operators
  // between them.
  lemma {:induction false} VariadicConcat(es: seq<Exp>, fs: seq<Exp>)
    requires es != [] && fs != []
    ensures Variadic(es + fs) == Variadic(es) + 1 + Variadic(fs)
    ensures Variadic([es[0]]) == Size(es[0])
    decreases |es|
  {
    if |es| == 1 {
      assert (es + fs)[1..] == fs;
    } else {
      VariadicConcat(es[1..], fs);
      assert (es + fs)[1..] == es[1..] + fs;
    }
  }

  // ---------------------------------------------------------------------
  // Normal forms
  // ---------------------------------------------------------------------

  // Sums are sorted, without null operands nor sums; products are flat, without
  // null nor neutral factors; conjunctions are flat, without null nor universal
  // operands; nothing is complemented twice.
  ghost predicate Normal(e: Exp)
    decreases e, 0
  {
    match e
    case Zero => true
    case One => true
    case Atom(_) => true
    case Add(es) => |es| >= 2 && AllNormal(es) && Sorted(es) && forall x <- es :: !x.Zero? && !x.Add?
    case Mul(es) => |es| >= 2 && AllNormal(es) && forall x <- es :: !x.Zero? && !x.One? && !x.Mul?
    case Conjunction(es) =>
      |es| >= 2 && AllNormal(es) && forall x <- es :: !x.Zero? && !IsUniversal(x) && !x.Conjunction?
    case Shuffle(es) => AllNormal(es)
    case Star(sub) => Normal(sub)
    case Complement(sub) => Normal(sub) && !sub.Complement?
  }

  ghost predicate AllNormal(es: seq<Exp>)
    decreases es, 0
  {
    forall i | 0 <= i < |es| :: Normal(es[i])
  }

  // ---------------------------------------------------------------------
  // Sums
  // ---------------------------------------------------------------------

  // The operands of a sum.
  ghost function Operands(e: Exp): seq<Exp> {
    if e.Zero? then [] else if e.Add? then e.es else [e]
  }

  // What the operands of a sum may be.
  ghost predicate SumList(es: seq<Exp>) {
    Sorted(es) && AllNormal(es) && forall x <- es :: !x.Zero? && !x.Add?
  }

  lemma OperandsList(e: Exp)
    requires Normal(e)
    ensures SumList(Operands(e)) && AddOf(Operands(e)) == e
  {
  }

  lemma ListNormal(es: seq<Exp>)
    requires SumList(es)
    ensures Normal(AddOf(es)) && Operands(AddOf(es)) == es
  {
  }

  lemma {:induction false} MergeSorted(es: seq<Exp>, fs: seq<Exp>)
    requires Sorted(es) && Sorted(fs)
    ensures Sorted(Merge(es, fs)) && Elements(Merge(es, fs)) == Elements(es) + Elements(fs)
    decreases |es| + |fs|
  {
    if es != [] && fs != [] {
      assert es == [es[0]] + es[1..] && fs == [fs[0]] + fs[1..];
      if Less(es[0], fs[0]) {
        MergeSorted(es[1..], fs);
        LessAll(es[0], es[1..], fs);
        SortedFirst(es[0], Merge(es[1..], fs));
      } else if Less(fs[0], es[0]) {
        MergeSorted(es, fs[1..]);
        LessAll(fs[0], fs[1..], es);
        SortedFirst(fs[0], Merge(es, fs[1..]));
      } else {
        NeitherLess(es[0], fs[0]);
        MergeSorted(es[1..], fs[1..]);
        SortedFirst(es[0], Merge(es[1..], fs[1..]));
      }
    }
  }

  lemma LessAll(x: Exp, es: seq<Exp>, fs: seq<Exp>)
    requires fs != [] && Less(x, fs[0]) && Sorted(fs) && forall y <- es :: Less(x, y)
    ensures forall y | y in es || y in fs :: Less(x, y)
  {
    forall y <- fs
      ensures Less(x, y)
    {
      if y != fs[0] {
        LessTransitive(x, fs[0], y);
      }
    }
  }

  lemma InsertElements(es: seq<Exp>, r: Exp)
    ensures Elements(Insert(es, r)) == Elements(es) + {r}
  {
    forall x
      ensures x in Insert(es, r) <==> x in es || x == r
    {
      InInsert(es, r, x);
    }
  }

  lemma ElementsNormal(es: seq<Exp>, fs: seq<Exp>, gs: seq<Exp>)
    requires SumList(es) && SumList(fs) && Sorted(gs) && Elements(gs) == Elements(es) + Elements(fs)
    ensures SumList(gs)
  {
    forall i | 0 <= i < |gs|
      ensures Normal(gs[i]) && !gs[i].Zero? && !gs[i].Add?
    {
      assert gs[i] in Elements(gs);
    }
  }

  // A sum is normal, and its operands are those of both arguments.
  lemma AddExpNormal(l: Exp, r: Exp)
    requires Normal(l) && Normal(r)
    ensures Normal(AddExp(l, r))
    ensures Elements(Operands(AddExp(l, r))) == Elements(Operands(l)) + Elements(Operands(r))
  {
    OperandsList(l);
    OperandsList(r);
    var es, fs := Operands(l), Operands(r);
    if !l.Zero? && !r.Zero? {
      var gs := if l.Add? && r.Add? then Merge(es, fs) else if l.Add? then Insert(es, r) else Insert(fs, l);
      if l.Add? && r.Add? {
        MergeSorted(es, fs);
      } else if l.Add? {
        InsertSorted(es, r);
        InsertElements(es, r);
      } else {
        InsertSorted(fs, l);
        InsertElements(fs, l);
      }
      ElementsNormal(es, fs, gs);
      ListNormal(gs);
      if !l.Add? && !r.Add? {
        InsertOne(r, l);
      }
    }
  }

  lemma InsertOne(x: Exp, r: Exp)
    ensures Insert([x], r) == if Less(x, r) then [x, r] else if Less(r, x) then [r, x] else [x]
  {
    assert Insert([x][1..], r) == [r];
  }

  // Normal sums with the same operands are the same.
  lemma SumIsSet(e: Exp, f: Exp)
    requires Normal(e) && Normal(f) && Elements(Operands(e)) == Elements(Operands(f))
    ensures e == f
  {
    OperandsList(e);
    OperandsList(f);
    SortedUnique(Operands(e), Operands(f));
  }

  // A sum is told by the operands of its arguments.
  lemma AddExpSet(l: Exp, r: Exp, e: Exp)
    requires Normal(l) && Normal(r) && Normal(e)
    requires Elements(Operands(e)) == Elements(Operands(l)) + Elements(Operands(r))
    ensures AddExp(l, r) == e
  {
    AddExpNormal(l, r);
    SumIsSet(AddExp(l, r), e);
  }

  // So that sums are commutative, idempotent and associative.
  lemma AddExpCommutes(e: Exp, f: Exp)
    requires Normal(e) && Normal(f)
    ensures AddExp(e, f) == AddExp(f, e) && AddExp(e, e) == e
  {
    AddExpNormal(f, e);
    AddExpSet(e, f, AddExp(f, e));
    AddExpSet(e, e, e);
  }

  lemma AddExpAssociates(e: Exp, f: Exp, g: Exp)
    requires Normal(e) && Normal(f) && Normal(g)
    ensures AddExp(AddExp(e, f), g) == AddExp(e, AddExp(f, g))
  {
    AddExpNormal(e, f);
    AddExpNormal(f, g);
    AddExpNormal(e, AddExp(f, g));
    AddExpSet(AddExp(e, f), g, AddExp(e, AddExp(f, g)));
  }

  // ---------------------------------------------------------------------
  // Products
  // ---------------------------------------------------------------------

  // The factors of a product.
  ghost function FactorsOf(e: Exp): seq<Exp> {
    if e.One? then [] else if e.Mul? then e.es else [e]
  }

  // A product is normal; unless it is null, its factors are those of both
  // arguments.
  lemma MulExpNormal(l: Exp, r: Exp)
    requires Normal(l) && Normal(r)
    ensures Normal(MulExp(l, r)) && (MulExp(l, r).Zero? <==> l.Zero? || r.Zero?)
    ensures !l.Zero? && !r.Zero? ==> FactorsOf(MulExp(l, r)) == FactorsOf(l) + FactorsOf(r)
  {
    if !l.Zero? && !r.Zero? && !l.One? && !r.One? {
      var es := Factors(l) + Factors(r);
      forall i | 0 <= i < |es|
        ensures Normal(es[i]) && !es[i].Zero? && !es[i].One? && !es[i].Mul?
      {
        assert es[i] == if i < |Factors(l)| then Factors(l)[i] else Factors(r)[i - |Factors(l)|];
        assert i < |Factors(l)| ==> Factors(l)[i] in Factors(l);
        assert i >= |Factors(l)| ==> Factors(r)[i - |Factors(l)|] in Factors(r);
      }
    }
  }

  // Normal products with the same factors are the same.
  lemma ProductIsList(e: Exp, f: Exp)
    requires Normal(e) && Normal(f) && FactorsOf(e) == FactorsOf(f)
    ensures e == f
  {
    assert e.Mul? ==> e.es[0] in e.es;
    assert f.Mul? ==> f.es[0] in f.es;
  }

  // So that products are associative.
  lemma MulExpAssociative(e: Exp, f: Exp, g: Exp)
    requires Normal(e) && Normal(f) && Normal(g)
    ensures MulExp(MulExp(e, f), g) == MulExp(e, MulExp(f, g))
  {
    MulExpNormal(e, f);
    MulExpNormal(f, g);
    MulExpNormal(MulExp(e, f), g);
    MulExpNormal(e, MulExp(f, g));
    if !e.Zero? && !f.Zero? && !g.Zero? {
      assert FactorsOf(e) + FactorsOf(f) + FactorsOf(g) == FactorsOf(e) + (FactorsOf(f) + FactorsOf(g));
      ProductIsList(MulExp(MulExp(e, f), g), MulExp(e, MulExp(f, g)));
    }
  }

  lemma ProdNormal(es: seq<Exp>)
    requires forall i | 0 <= i < |es| :: Normal(es[i]) && !es[i].Zero? && !es[i].One? && !es[i].Mul?
    ensures Normal(Prod(es))
  {
  }

  // ---------------------------------------------------------------------
  // Conjunctions and complements
  // ---------------------------------------------------------------------

  lemma ConjunctionExpNormal(l: Exp, r: Exp)
    requires Normal(l) && Normal(r)
    ensures Normal(ConjunctionExp(l, r))
  {
    var es := Conjuncts(l) + Conjuncts(r);
    if ConjunctionExp(l, r) == Conjunction(es) && !l.Zero? && !r.Zero? && !IsUniversal(l) && !IsUniversal(r) {
      forall i | 0 <= i < |es|
        ensures Normal(es[i]) && !es[i].Zero? && !IsUniversal(es[i]) && !es[i].Conjunction?
      {
        assert es[i] == if i < |Conjuncts(l)| then Conjuncts(l)[i] else Conjuncts(r)[i - |Conjuncts(l)|];
        assert i < |Conjuncts(l)| ==> Conjuncts(l)[i] in Conjuncts(l);
        assert i >= |Conjuncts(l)| ==> Conjuncts(r)[i - |Conjuncts(l)|] in Conjuncts(r);
      }
    }
  }

  // A normal expression that is complemented twice is back.
  lemma ComplementExpTwice(e: Exp)
    requires Normal(e)
    ensures Normal(ComplementExp(e)) && ComplementExp(ComplementExp(e)) == e
  {
  }

  // ---------------------------------------------------------------------
  // Derivation
  // ---------------------------------------------------------------------

  // The labels are normal, and in increasing order.
  ghost predicate NormalPoly(p: Poly) {
    Sorted(p) && AllNormal(p)
  }

  lemma AddLabelNormal(p: Poly, l: Exp)
    requires NormalPoly(p) && Normal(l)
    ensures NormalPoly(AddLabel(p, l))
  {
    if !l.Zero? {
      InsertSorted(p, l);
      forall i | 0 <= i < |Insert(p, l)|
        ensures Normal(Insert(p, l)[i])
      {
        InInsert(p, l, Insert(p, l)[i]);
      }
    }
  }

  lemma {:induction false} AddPolyNormal(p: Poly, q: Poly)
    requires NormalPoly(p) && AllNormal(q)
    ensures NormalPoly(AddPoly(p, q))
    decreases |q|
  {
    if q != [] {
      AddLabelNormal(p, q[0]);
      AddPolyNormal(AddLabel(p, q[0]), q[1..]);
    }
  }

  lemma {:induction false} AddRmulNormal(res: Poly, p: Poly, f: Exp)
    requires NormalPoly(res) && AllNormal(p) && Normal(f)
    ensures NormalPoly(AddRmul(res, p, f))
    decreases |p|
  {
    if p != [] {
      MulExpNormal(p[0], f);
      AddLabelNormal(res, MulExp(p[0], f));
      AddRmulNormal(AddLabel(res, MulExp(p[0], f)), p[1..], f);
    }
  }

  lemma {:induction false} AddConjunctionNormal(res: Poly, l: Exp, q: Poly)
    requires NormalPoly(res) && Normal(l) && AllNormal(q)
    ensures NormalPoly(AddConjunction(res, l, q))
    decreases |q|
  {
    if q != [] {
      ConjunctionExpNormal(l, q[0]);
      AddLabelNormal(res, ConjunctionExp(l, q[0]));
      AddConjunctionNormal(AddLabel(res, ConjunctionExp(l, q[0])), l, q[1..]);
    }
  }

  lemma {:induction false} AddConjunctionsNormal(res: Poly, p: Poly, q: Poly)
    requires NormalPoly(res) && AllNormal(p) && AllNormal(q)
    ensures NormalPoly(AddConjunctions(res, p, q))
    decreases |p|
  {
    if p != [] {
      AddConjunctionNormal(res, p[0], q);
      AddConjunctionsNormal(AddConjunction(res, p[0], q), p[1..], q);
    }
  }

  lemma {:induction false} AddShufflesNormal(res: Poly, es: seq<Exp>, i: nat, p: Poly)
    requires NormalPoly(res) && AllNormal(es) && AllNormal(p) && i < |es|
    ensures NormalPoly(AddShuffles(res, es, i, p))
    decreases |p|
  {
    if p != [] {
      AddLabelNormal(res, Shuffle(es[i := p[0]]));
      AddShufflesNormal(AddLabel(res, Shuffle(es[i := p[0]])), es, i, p[1..]);
    }
  }

  lemma {:induction false} AddToNormal(res: Exp, p: Poly)
    requires Normal(res) && AllNormal(p)
    ensures Normal(AddTo(res, p))
    ensures Elements(Operands(AddTo(res, p))) == Elements(Operands(res)) + OperandsIn(p)
    decreases |p|
  {
    if p != [] {
      AddExpNormal(res, p[0]);
      AddToNormal(AddExp(res, p[0]), p[1..]);
      assert p == [p[0]] + p[1..];
    }
  }

  // The operands of the sum of the labels.
  ghost function OperandsIn(p: Poly): set<Exp> {
    set x <- p, y <- Operands(x) :: y
  }

  lemma ComplementPolyNormal(p: Poly)
    requires AllNormal(p)
    ensures NormalPoly(ComplementPoly(p))
  {
    AddToNormal(Zero, p);
    ComplementExpTwice(ToLabel(p));
  }

  // The derivation of a normal expression has normal labels, in increasing order.
  lemma {:induction false} DerivationNormal(e: Exp, a: Letter)
    requires Normal(e)
    ensures NormalPoly(Derivation(e, a))
    decreases e, 1
  {
    match e
    case Zero =>
    case One =>
    case Atom(_) =>
    case Add(es) => DeriveSumNormal([], es, a, 0);
    case Mul(es) => DeriveProductNormal([], es, a, 0);
    case Conjunction(es) =>
      DerivationNormal(es[0], a);
      DeriveConjunctionNormal(Derivation(es[0], a), es, a, 1);
    case Shuffle(es) => DeriveShuffleNormal([], es, a, 0);
    case Star(sub) =>
      DerivationNormal(sub, a);
      AddRmulNormal([], Derivation(sub, a), e);
    case Complement(sub) =>
      DerivationNormal(sub, a);
      ComplementPolyNormal(Derivation(sub, a));
  }

  lemma {:induction false} DeriveSumNormal(res: Poly, es: seq<Exp>, a: Letter, i: nat)
    requires NormalPoly(res) && AllNormal(es) && i <= |es|
    ensures NormalPoly(DeriveSum(res, es, a, i))
    decreases es, |es| - i
  {
    if i < |es| {
      DerivationNormal(es[i], a);
      AddPolyNormal(res, Derivation(es[i], a));
      DeriveSumNormal(AddPoly(res, Derivation(es[i], a)), es, a, i + 1);
    }
  }

  lemma {:induction false} DeriveProductNormal(res: Poly, es: seq<Exp>, a: Letter, i: nat)
    requires NormalPoly(res) && i <= |es|
    requires forall j | 0 <= j < |es| :: Normal(es[j]) && !es[j].Zero? && !es[j].One? && !es[j].Mul?
    ensures NormalPoly(DeriveProduct(res, es, a, i))
    decreases es, |es| - i
  {
    if i < |es| {
      var rest := Prod(es[i + 1..]);
      ProdNormal(es[i + 1..]);
      DerivationNormal(es[i], a);
      AddRmulNormal([], Derivation(es[i], a), rest);
      AddPolyNormal(res, RmulLabel(Derivation(es[i], a), rest));
      DeriveProductNormal(AddPoly(res, RmulLabel(Derivation(es[i], a), rest)), es, a, i + 1);
    }
  }

  lemma {:induction false} DeriveConjunctionNormal(res: Poly, es: seq<Exp>, a: Letter, i: nat)
    requires NormalPoly(res) && AllNormal(es) && i <= |es|
    ensures NormalPoly(DeriveConjunction(res, es, a, i))
    decreases es, |es| - i
  {
    if i < |es| {
      DerivationNormal(es[i], a);
      AddConjunctionsNormal([], res, Derivation(es[i], a));
      DeriveConjunctionNormal(ConjunctionPoly(res, Derivation(es[i], a)), es, a, i + 1);
    }
  }

  lemma {:induction false} DeriveShuffleNormal(res: Poly, es: seq<Exp>, a: Letter, i: nat)
    requires NormalPoly(res) && AllNormal(es) && i <= |es|
    ensures NormalPoly(DeriveShuffle(res, es, a, i))
    decreases es, |es| - i
  {
    if i < |es| {
      DerivationNormal(es[i], a);
      AddShufflesNormal(res, es, i, Derivation(es[i], a));
      DeriveShuffleNormal(AddShuffles(res, es, i, Derivation(es[i], a)), es, a, i + 1);
    }
  }
}
