// The terms derived from conjunctions, shuffles and complements of expressions
// made of letters, sums, products and stars: at most the product of the numbers
// of terms of the operands (vcsn/algos/derived-term.hh,
// vcsn/algos/derivation.hh).
module ExtendedTerms {
  import opened Expressions
  import opened Derivations
  import opened DerivedTerm
  import opened DerivedTermBound
  import opened DeterministicTerms
  import opened NamedAutomata
  import opened Sets

  // ---------------------------------------------------------------------
  // One term for each operand
  // ---------------------------------------------------------------------

  // The expression and its derived terms.
  ghost function OwnTerms(e: Exp): set<Exp> {
    {e} + Terms(e)
  }

  lemma OwnClosed(e: Exp, d: Exp, a: Letter, m: Exp)
    requires Rational(e) && d in OwnTerms(e) && m in Derivation(d, a)
    ensures m in OwnTerms(e)
  {
    if d == e {
      DerivationInTerms(e, a, m);
    } else {
      TermsClosed(e, d, a, m);
    }
  }

  lemma OwnSize(e: Exp)
    ensures |OwnTerms(e)| <= Width(e) + 1
  {
    TermsSize(e);
    UnionSize({e}, Terms(e));
  }

  // The lists of a term of each operand.
  ghost function Choices(es: seq<Exp>): set<seq<Exp>>
    decreases |es|
  {
    if es == [] then {[]} else Extensions(Choices(es[..|es| - 1]), OwnTerms(es[|es| - 1]))
  }

  ghost function Extensions(A: set<seq<Exp>>, B: set<Exp>): set<seq<Exp>> {
    set xs <- A, x <- B :: xs + [x]
  }

  ghost predicate Chosen(es: seq<Exp>, xs: seq<Exp>) {
    |xs| == |es| && forall i | 0 <= i < |es| :: xs[i] in OwnTerms(es[i])
  }

  lemma {:induction false} InChoices(es: seq<Exp>, xs: seq<Exp>)
    ensures xs in Choices(es) <==> Chosen(es, xs)
    decreases |es|
  {
    if es != [] {
      var n := |es| - 1;
      if xs in Choices(es) {
        var ys, y :| ys in Choices(es[..n]) && y in OwnTerms(es[n]) && xs == ys + [y];
        InChoices(es[..n], ys);
        forall i | 0 <= i < |es|
          ensures xs[i] in OwnTerms(es[i])
        {
          assert i < n ==> es[..n][i] == es[i] && xs[i] == ys[i];
        }
      }
      if Chosen(es, xs) {
        InChoices(es[..n], xs[..n]);
        assert xs == xs[..n] + [xs[n]];
      }
    }
  }

  // The product of the numbers of letters, each one plus one.
  function Bound(es: seq<Exp>): nat
    decreases |es|
  {
    if es == [] then 1 else Bound(es[..|es| - 1]) * (Width(es[|es| - 1]) + 1)
  }

  ghost function Extend(A: set<seq<Exp>>, x: Exp): set<seq<Exp>> {
    set xs <- A :: xs + [x]
  }

  lemma {:induction false} ExtendSize(A: set<seq<Exp>>, x: Exp)
    ensures |Extend(A, x)| <= |A|
    decreases A
  {
    if A != {} {
      var xs :| xs in A;
      ExtendSize(A - {xs}, x);
      assert Extend(A, x) == Extend(A - {xs}, x) + {xs + [x]};
      UnionSize(Extend(A - {xs}, x), {xs + [x]});
    } else {
      assert Extend(A, x) == {};
    }
  }

  lemma {:induction false} ExtensionsSize(A: set<seq<Exp>>, B: set<Exp>)
    ensures |Extensions(A, B)| <= |A| * |B|
    decreases B
  {
    if B != {} {
      var x :| x in B;
      var rest := B - {x};
      ExtensionsSize(A, rest);
      ExtendSize(A, x);
      assert Extensions(A, B) == Extensions(A, rest) + Extend(A, x);
      UnionSize(Extensions(A, rest), Extend(A, x));
      assert |A| * |B| == |A| * |rest| + |A|;
    } else {
      assert Extensions(A, B) == {};
    }
  }

  lemma TimesGrows(x: nat, y: nat, x': nat, y': nat)
    requires x <= x' && y <= y'
    ensures x * y <= x' * y'
  {
    assert x * y <= x' * y;
    assert x' * y <= x' * y';
  }

  lemma {:induction false} ChoicesSize(es: seq<Exp>)
    ensures |Choices(es)| <= Bound(es)
    decreases |es|
  {
    if es != [] {
      var n := |es| - 1;
      ChoicesSize(es[..n]);
      OwnSize(es[n]);
      ExtensionsSize(Choices(es[..n]), OwnTerms(es[n]));
      TimesGrows(|Choices(es[..n])|, |OwnTerms(es[n])|, Bound(es[..n]), Width(es[n]) + 1);
    }
  }

  // Each of ds comes from the derivation of the operand at its place.
  ghost predicate DerivedFrom(xs: seq<Exp>, a: Letter, ds: seq<Exp>) {
    |ds| == |xs| && forall i | 0 <= i < |xs| :: ds[i] in Derivation(xs[i], a)
  }

  lemma ChosenDerived(es: seq<Exp>, xs: seq<Exp>, a: Letter, ds: seq<Exp>)
    requires AllRational(es) && Chosen(es, xs) && DerivedFrom(xs, a, ds)
    ensures Chosen(es, ds)
  {
    forall i | 0 <= i < |es|
      ensures ds[i] in OwnTerms(es[i])
    {
      OwnClosed(es[i], xs[i], a, ds[i]);
    }
  }

  // ---------------------------------------------------------------------
  // Shuffles
  // ---------------------------------------------------------------------

  ghost function Shuffles(A: set<seq<Exp>>): set<Exp> {
    set xs <- A :: Shuffle(xs)
  }

  lemma {:induction false} ShufflesSize(A: set<seq<Exp>>)
    ensures |Shuffles(A)| <= |A|
    decreases A
  {
    if A != {} {
      var xs :| xs in A;
      ShufflesSize(A - {xs});
      assert Shuffles(A) == Shuffles(A - {xs}) + {Shuffle(xs)};
      UnionSize(Shuffles(A - {xs}), {Shuffle(xs)});
    }
  }

  lemma {:induction false} InAddShuffles(res: Poly, es: seq<Exp>, i: nat, p: Poly, m: Exp)
    requires i < |es| && m in AddShuffles(res, es, i, p)
    ensures m in res || exists y :: y in p && m == Shuffle(es[i := y])
    decreases |p|
  {
    if p != [] {
      InAddShuffles(AddLabel(res, Shuffle(es[i := p[0]])), es, i, p[1..], m);
      InAddLabel(res, Shuffle(es[i := p[0]]), m);
      assert p[0] in p && forall y <- p[1..] :: y in p;
    }
  }

  // One operand is replaced by a label of its derivation.
  ghost predicate Replaces(es: seq<Exp>, a: Letter, j: nat, m: Exp) {
    j < |es| && exists y :: y in Derivation(es[j], a) && m == Shuffle(es[j := y])
  }

  lemma {:induction false} InDeriveShuffle(res: Poly, es: seq<Exp>, a: Letter, i: nat, m: Exp)
    requires i <= |es| && m in DeriveShuffle(res, es, a, i)
    ensures m in res || exists j: nat :: i <= j && Replaces(es, a, j, m)
    decreases |es| - i
  {
    if i < |es| {
      var p := Derivation(es[i], a);
      InDeriveShuffle(AddShuffles(res, es, i, p), es, a, i + 1, m);
      if m in AddShuffles(res, es, i, p) {
        InAddShuffles(res, es, i, p, m);
        assert m in res || Replaces(es, a, i, m);
      }
    }
  }

  // The derivation of a shuffle replaces one of its operands.
  lemma ShufflesClosed(es: seq<Exp>, d: Exp, a: Letter, m: Exp)
    requires AllRational(es) && d in Shuffles(Choices(es)) && m in Derivation(d, a)
    ensures m in Shuffles(Choices(es))
  {
    var xs :| xs in Choices(es) && d == Shuffle(xs);
    InChoices(es, xs);
    InDeriveShuffle([], xs, a, 0, m);
    var j: nat :| Replaces(xs, a, j, m);
    var y :| y in Derivation(xs[j], a) && m == Shuffle(xs[j := y]);
    OwnClosed(es[j], xs[j], a, y);
    InChoices(es, xs[j := y]);
  }

  lemma FinitelyManyShuffles(es: seq<Exp>, gens: seq<Letter>)
    requires AllRational(es)
    ensures Shuffle(es) in Shuffles(Choices(es)) && ClosedTerms(Shuffles(Choices(es)), gens, false)
    ensures |Shuffles(Choices(es))| <= Bound(es)
  {
    InChoices(es, es);
    ShufflesSize(Choices(es));
    ChoicesSize(es);
    forall d: Exp, l: Letter, m: Exp | d in Shuffles(Choices(es)) && l in gens && m in Targets(d, l, false)
      ensures m in Shuffles(Choices(es))
    {
      ShufflesClosed(es, d, l, m);
    }
  }

  // ---------------------------------------------------------------------
  // Conjunctions
  // ---------------------------------------------------------------------

  // The conjunction of the operands, under the identities.
  function Fold(xs: seq<Exp>): Exp
    requires xs != []
    decreases |xs|
  {
    if |xs| == 1 then xs[0] else ConjunctionExp(Fold(xs[..|xs| - 1]), xs[|xs| - 1])
  }

  // Neither a conjunction nor the universal expression.
  predicate Plain(e: Exp) {
    !e.Conjunction? && !e.Complement?
  }

  predicate AllPlain(xs: seq<Exp>) {
    forall i | 0 <= i < |xs| :: Plain(xs[i])
  }

  // A conjunction has operands, and is not the universal expression.
  predicate Conjoint(e: Exp) {
    !e.Complement? && (e.Conjunction? ==> e.es != [])
  }

  lemma {:induction false} FoldConjoint(xs: seq<Exp>)
    requires xs != [] && AllPlain(xs)
    ensures Conjoint(Fold(xs))
    decreases |xs|
  {
    if |xs| > 1 {
      FoldConjoint(xs[..|xs| - 1]);
    }
  }

  ghost predicate Conjoins(p: Poly, q: Poly, m: Exp) {
    exists l, r :: l in p && r in q && m == ConjunctionExp(l, r)
  }

  lemma {:induction false} InAddConjunction(res: Poly, l: Exp, q: Poly, m: Exp)
    requires m in AddConjunction(res, l, q)
    ensures m in res || exists r :: r in q && m == ConjunctionExp(l, r)
    decreases |q|
  {
    if q != [] {
      InAddConjunction(AddLabel(res, ConjunctionExp(l, q[0])), l, q[1..], m);
      InAddLabel(res, ConjunctionExp(l, q[0]), m);
      assert q[0] in q && forall r <- q[1..] :: r in q;
    }
  }

  lemma {:induction false} InAddConjunctions(res: Poly, p: Poly, q: Poly, m: Exp)
    requires m in AddConjunctions(res, p, q)
    ensures m in res || Conjoins(p, q, m)
    decreases |p|
  {
    if p != [] {
      InAddConjunctions(AddConjunction(res, p[0], q), p[1..], q, m);
      assert p[0] in p && forall l <- p[1..] :: l in p;
      if m in AddConjunction(res, p[0], q) {
        InAddConjunction(res, p[0], q, m);
      }
    }
  }

  // The last operand is derived last.
  lemma {:induction false} LastConjunct(res: Poly, es: seq<Exp>, r: Exp, a: Letter, i: nat)
    requires i <= |es|
    ensures DeriveConjunction(res, es + [r], a, i)
            == ConjunctionPoly(DeriveConjunction(res, es, a, i), Derivation(r, a))
    decreases |es| - i
  {
    if i < |es| {
      assert (es + [r])[i] == es[i];
      LastConjunct(ConjunctionPoly(res, Derivation(es[i], a)), es, r, a, i + 1);
    } else {
      assert (es + [r])[i] == r;
    }
  }

  // The labels of a conjunction are conjunctions of labels.
  lemma ConjunctionLabels(l: Exp, r: Exp, a: Letter, m: Exp)
    requires Conjoint(l) && Plain(r) && m in Derivation(ConjunctionExp(l, r), a)
    ensures Conjoins(Derivation(l, a), Derivation(r, a), m)
  {
    if l.Zero? || r.Zero? || (l.One? && r.One?) {
    } else if l.Atom? && r.Atom? {
      assert m == One == ConjunctionExp(One, One);
    } else if (l.One? && r.Atom?) || (l.Atom? && r.One?) {
    } else {
      var es := Conjuncts(l);
      assert es != [] && (es + [r])[0] == es[0];
      LastConjunct(Derivation(es[0], a), es, r, a, 1);
      InAddConjunctions([], DeriveConjunction(Derivation(es[0], a), es, a, 1), Derivation(r, a), m);
    }
  }

  lemma {:induction false} FoldDerivation(xs: seq<Exp>, a: Letter, m: Exp) returns (ds: seq<Exp>)
    requires xs != [] && AllPlain(xs) && m in Derivation(Fold(xs), a)
    ensures DerivedFrom(xs, a, ds) && m == Fold(ds)
    decreases |xs|, 0
  {
    if |xs| == 1 {
      ds := [m];
    } else {
      var front, last := xs[..|xs| - 1], xs[|xs| - 1];
      FoldConjoint(front);
      ConjunctionLabels(Fold(front), last, a, m);
      ds := FoldLabels(front, last, a, m);
    }
  }

  lemma {:induction false} FoldLabels(front: seq<Exp>, last: Exp, a: Letter, m: Exp) returns (ds: seq<Exp>)
    requires front != [] && AllPlain(front) && Conjoins(Derivation(Fold(front), a), Derivation(last, a), m)
    ensures DerivedFrom(front + [last], a, ds) && m == Fold(ds)
    decreases |front|, 1
  {
    var l, r :| l in Derivation(Fold(front), a) && r in Derivation(last, a) && m == ConjunctionExp(l, r);
    var ls := FoldDerivation(front, a, l);
    ds := ls + [r];
    assert ds[..|ds| - 1] == ls;
  }

  // The same for the operands of a conjunction.
  lemma {:induction false} OperandsDerivation(xs: seq<Exp>, a: Letter, m: Exp) returns (ds: seq<Exp>)
    requires xs != [] && m in DeriveConjunction(Derivation(xs[0], a), xs, a, 1)
    ensures DerivedFrom(xs, a, ds) && m == Fold(ds)
    decreases |xs|
  {
    if |xs| == 1 {
      ds := [m];
    } else {
      var front, last := xs[..|xs| - 1], xs[|xs| - 1];
      assert xs == front + [last] && front[0] == xs[0];
      LastConjunct(Derivation(xs[0], a), front, last, a, 1);
      var p := DeriveConjunction(Derivation(xs[0], a), front, a, 1);
      InAddConjunctions([], p, Derivation(last, a), m);
      var l, r :| l in p && r in Derivation(last, a) && m == ConjunctionExp(l, r);
      var ls := OperandsDerivation(front, a, l);
      ds := ls + [r];
      assert ds[..|ds| - 1] == ls;
    }
  }

  ghost function Folds(A: set<seq<Exp>>): set<Exp> {
    set xs <- A | xs != [] :: Fold(xs)
  }

  lemma {:induction false} FoldsSize(A: set<seq<Exp>>)
    ensures |Folds(A)| <= |A|
    decreases A
  {
    if A != {} {
      var xs :| xs in A;
      FoldsSize(A - {xs});
      if xs == [] {
        assert Folds(A) == Folds(A - {xs});
      } else {
        assert Folds(A) == Folds(A - {xs}) + {Fold(xs)};
        UnionSize(Folds(A - {xs}), {Fold(xs)});
      }
    }
  }

  lemma OwnPlain(e: Exp, d: Exp)
    requires Rational(e) && d in OwnTerms(e)
    ensures Plain(d)
  {
    if d != e {
      TermsFlat(e, d);
    }
  }

  lemma FoldsClosed(es: seq<Exp>, d: Exp, a: Letter, m: Exp)
    requires AllRational(es) && d in Folds(Choices(es)) && m in Derivation(d, a)
    ensures m in Folds(Choices(es))
  {
    var xs :| xs in Choices(es) && xs != [] && d == Fold(xs);
    InChoices(es, xs);
    forall i | 0 <= i < |xs|
      ensures Plain(xs[i])
    {
      OwnPlain(es[i], xs[i]);
    }
    var ds := FoldDerivation(xs, a, m);
    ChosenDerived(es, xs, a, ds);
    InChoices(es, ds);
  }

  lemma OperandsClosed(es: seq<Exp>, a: Letter, m: Exp)
    requires AllRational(es) && es != [] && m in Derivation(Conjunction(es), a)
    ensures m in Folds(Choices(es))
  {
    var ds := OperandsDerivation(es, a, m);
    ChosenDerived(es, es, a, ds);
    InChoices(es, ds);
  }

  // The conjunction and the conjunctions of terms of its operands.
  ghost function ConjunctionTerms(es: seq<Exp>): set<Exp> {
    {Conjunction(es)} + Folds(Choices(es))
  }

  lemma FinitelyManyConjunctions(es: seq<Exp>, gens: seq<Letter>)
    requires AllRational(es) && es != []
    ensures ClosedTerms(ConjunctionTerms(es), gens, false)
    ensures |ConjunctionTerms(es)| <= Bound(es) + 1
  {
    FoldsSize(Choices(es));
    ChoicesSize(es);
    UnionSize({Conjunction(es)}, Folds(Choices(es)));
    forall d: Exp, l: Letter, m: Exp | d in ConjunctionTerms(es) && l in gens && m in Targets(d, l, false)
      ensures m in ConjunctionTerms(es)
    {
      if d in Folds(Choices(es)) {
        FoldsClosed(es, d, l, m);
      } else {
        OperandsClosed(es, l, m);
      }
    }
  }

  // ---------------------------------------------------------------------
  // Complements
  // ---------------------------------------------------------------------

  ghost function Complements(T: set<Exp>): set<Exp> {
    set d <- T :: ComplementExp(d)
  }

  lemma {:induction false} ComplementsSize(T: set<Exp>)
    ensures |Complements(T)| <= |T|
    decreases T
  {
    if T != {} {
      var d :| d in T;
      ComplementsSize(T - {d});
      assert Complements(T) == Complements(T - {d}) + {ComplementExp(d)};
      UnionSize(Complements(T - {d}), {ComplementExp(d)});
    }
  }

  // The expression and the sums of its derived terms.
  ghost function OwnSums(e: Exp): set<Exp> {
    {e} + Sums(Terms(e))
  }

  lemma OwnSumsTop(e: Exp, d: Exp)
    requires Rational(e) && d in OwnSums(e)
    ensures RationalTop(d)
  {
    if d == e {
      RationalHasTop(e);
    } else {
      SumsTop(e, d);
    }
  }

  lemma SumsTop(e: Exp, d: Exp)
    requires Rational(e) && d in Sums(Terms(e))
    ensures RationalTop(d)
  {
    var S :| S in Subsets(Terms(e)) && d == SumOf(S);
    SubsetsInside(Terms(e), S);
    if p :| Sorted(p) && Elements(p) == S && d == ToLabel(p) {
      forall i | 0 <= i < |p|
        ensures RationalTop(p[i])
      {
        assert p[i] in Elements(p);
        TermsTop(e, p[i]);
      }
      LabelTop(Zero, p);
    }
  }

  // What is derived from the complement of a sum is the complement of what is
  // derived from the sum.
  lemma ComplementTarget(d: Exp, l: Letter, determinize: bool, m: Exp)
    requires !d.Complement? && m in Targets(ComplementExp(d), l, determinize)
    ensures m == ComplementExp(ToLabel(Derivation(d, l)))
  {
    var x := ComplementExp(ToLabel(Derivation(d, l)));
    assert Derivation(Complement(d), l) == [x];
    assert [x][1..] == [];
    assert ToLabel([x]) == AddTo(x, [x][1..]) == x;
  }

  lemma FinitelyManyComplements(e: Exp, gens: seq<Letter>, determinize: bool)
    requires Rational(e)
    ensures Complement(e) in Complements(OwnSums(e))
    ensures ClosedTerms(Complements(OwnSums(e)), gens, determinize)
    ensures |Complements(OwnSums(e))| <= Pow2(Width(e)) + 1
  {
    FinitelyManySums(e, gens);
    ComplementsSize(OwnSums(e));
    assert ComplementExp(e) == Complement(e) && e in OwnSums(e);
    forall c: Exp, l: Letter, m: Exp | c in Complements(OwnSums(e)) && l in gens && m in Targets(c, l, determinize)
      ensures m in Complements(OwnSums(e))
    {
      var d :| d in OwnSums(e) && c == ComplementExp(d);
      OwnSumsTop(e, d);
      ComplementTarget(d, l, determinize, m);
      var t := ToLabel(Derivation(d, l));
      assert t in Targets(d, l, true);
    }
  }

  // ---------------------------------------------------------------------
  // The automata
  // ---------------------------------------------------------------------

  // The derived-term automaton of a conjunction.
  method ConjunctionOf(es: seq<Exp>, gens: seq<Letter>) returns (aut: Automaton, ghost names: map<State, Exp>)
    requires AllRational(es) && es != []
    ensures NamesTerms(names, Conjunction(es), gens, false) && DerivedBy(aut, names, Conjunction(es), gens, false)
    ensures aut.Valid()
    ensures forall w: Word | Over(w, gens) :: aut.Accepts(w) <==> Member(Conjunction(es), w)
    ensures |aut.states| <= Bound(es) + 1
  {
    FinitelyManyConjunctions(es, gens);
    var build := new DerivedTermAutomaton(gens, false);
    build.ViaDerivation(Conjunction(es), ConjunctionTerms(es));
    aut, names := build.aut.aut, build.aut.right;
  }

  // The derived-term automaton of a shuffle.
  method ShuffleOf(es: seq<Exp>, gens: seq<Letter>) returns (aut: Automaton, ghost names: map<State, Exp>)
    requires AllRational(es)
    ensures NamesTerms(names, Shuffle(es), gens, false) && DerivedBy(aut, names, Shuffle(es), gens, false)
    ensures aut.Valid()
    ensures forall w: Word | Over(w, gens) :: aut.Accepts(w) <==> Member(Shuffle(es), w)
    ensures |aut.states| <= Bound(es)
  {
    FinitelyManyShuffles(es, gens);
    var build := new DerivedTermAutomaton(gens, false);
    build.ViaDerivation(Shuffle(es), Shuffles(Choices(es)));
    aut, names := build.aut.aut, build.aut.right;
  }

  // The derived-term automaton of a complement, deterministic if asked for.
  method ComplementOf(e: Exp, gens: seq<Letter>, determinize: bool)
    returns (aut: Automaton, ghost names: map<State, Exp>)
    requires Rational(e)
    ensures NamesTerms(names, Complement(e), gens, determinize)
              && DerivedBy(aut, names, Complement(e), gens, determinize)
    ensures aut.Valid() && (determinize ==> Deterministic(aut) && |aut.initial| == 1)
    ensures forall w: Word | Over(w, gens) :: aut.Accepts(w) <==> Member(Complement(e), w)
    ensures |aut.states| <= Pow2(Width(e)) + 1
  {
    FinitelyManyComplements(e, gens, determinize);
    var build := new DerivedTermAutomaton(gens, determinize);
    build.ViaDerivation(Complement(e), Complements(OwnSums(e)));
    aut, names := build.aut.aut, build.aut.right;
  }
}
