// The constant term and the derivation of an expression with Boolean weights
// (vcsn/algos/constant-term.hh, vcsn/algos/derivation.hh).
module Derivations {
  import opened Expressions

  // ---------------------------------------------------------------------
  // Constant term
  // ---------------------------------------------------------------------

  predicate ConstantTerm(e: Exp)
    decreases e, 0
  {
    match e
    case Zero => false
    case One => true
    case Atom(_) => false
    case Add(es) => exists i :: 0 <= i < |es| && ConstantTerm(es[i])
    case Mul(es) => AllConstant(es)
    case Conjunction(es) => AllConstant(es)
    case Shuffle(es) => AllConstant(es)
    case Star(_) => true
    case Complement(sub) => !ConstantTerm(sub)
  }

  predicate AllConstant(es: seq<Exp>)
    decreases es, 0
  {
    forall i | 0 <= i < |es| :: ConstantTerm(es[i])
  }

  lemma {:induction false} ProductConstant(es: seq<Exp>)
    requires forall i | 0 <= i < |es| :: ConstantTerm(es[i]) <==> Member(es[i], [])
    ensures InProduct(es, []) <==> AllConstant(es)
  {
    if es != [] {
      ProductConstant(es[1..]);
      var w: Word := [];
      assert w[..0] == [] && w[0..] == [];
      if AllConstant(es) {
        assert Member(es[0], w[..0]) && InProduct(es[1..], w[0..]);
      }
      if InProduct(es, []) {
        var k :| 0 <= k <= |w| && Member(es[0], w[..k]) && InProduct(es[1..], w[k..]);
        assert k == 0;
        forall i | 0 <= i < |es|
          ensures ConstantTerm(es[i])
        {
          assert i > 0 ==> es[1..][i - 1] == es[i];
        }
      }
    }
  }

  lemma {:induction false} ShuffleConstant(es: seq<Exp>)
    requires forall i | 0 <= i < |es| :: ConstantTerm(es[i]) <==> Member(es[i], [])
    ensures InShuffle(es, []) <==> AllConstant(es)
  {
    if es != [] {
      ShuffleConstant(es[1..]);
      if AllConstant(es) {
        assert Interleaved([], [], []) && Member(es[0], []) && InShuffle(es[1..], []);
      }
      if InShuffle(es, []) {
        var u: Word, v: Word :| Interleaved(u, v, []) && Member(es[0], u) && InShuffle(es[1..], v);
        forall i | 0 <= i < |es|
          ensures ConstantTerm(es[i])
        {
          assert i > 0 ==> es[1..][i - 1] == es[i];
        }
      }
    }
  }

  // The constant term tells whether the empty word is denoted.
  lemma {:induction false} ConstantTermMember(e: Exp)
    ensures ConstantTerm(e) <==> Member(e, [])
    decreases e, 0
  {
    match e
    case Zero =>
    case One =>
    case Atom(_) =>
    case Add(es) => AllConstantMember(es);
    case Mul(es) =>
      AllConstantMember(es);
      ProductConstant(es);
    case Conjunction(es) => AllConstantMember(es);
    case Shuffle(es) =>
      AllConstantMember(es);
      ShuffleConstant(es);
    case Star(_) =>
    case Complement(sub) => ConstantTermMember(sub);
  }

  lemma {:induction false} AllConstantMember(es: seq<Exp>)
    ensures forall i | 0 <= i < |es| :: ConstantTerm(es[i]) <==> Member(es[i], [])
    decreases es, 0
  {
    forall i | 0 <= i < |es|
      ensures ConstantTerm(es[i]) <==> Member(es[i], [])
    {
      ConstantTermMember(es[i]);
    }
  }

  method ComputeConstantTerm(e: Exp) returns (res: bool)
    ensures res <==> ConstantTerm(e)
    ensures res <==> Member(e, [])
    decreases e, 1
  {
    ConstantTermMember(e);
    match e {
      case Zero => res := false;
      case One => res := true;
      case Atom(_) => res := false;
      case Add(es) =>
        res := false;
        var i := 0;
        while i < |es|
          invariant i <= |es|
          invariant res <==> exists j :: 0 <= j < i && ConstantTerm(es[j])
        {
          var c := ComputeConstantTerm(es[i]);
          res := res || c;
          i := i + 1;
        }
      case Mul(es) => res := VisitProduct(es);
      case Conjunction(es) => res := VisitProduct(es);
      case Shuffle(es) => res := VisitProduct(es);
      case Star(_) => res := true;
      case Complement(sub) =>
        var c := ComputeConstantTerm(sub);
        res := !c;
    }
  }

  // The constant term of a variadic node is the product of those of its
  // operands.
  method VisitProduct(es: seq<Exp>) returns (res: bool)
    ensures res <==> AllConstant(es)
    decreases es, 0
  {
    res := true;
    var i := 0;
    while i < |es|
      invariant i <= |es|
      invariant res <==> forall j | 0 <= j < i :: ConstantTerm(es[j])
    {
      var c := ComputeConstantTerm(es[i]);
      res := res && c;
      i := i + 1;
    }
  }

  // ---------------------------------------------------------------------
  // Polynomials
  // ---------------------------------------------------------------------

  // With Boolean weights, a polynomial is the increasing list of its labels.
  type Poly = seq<Exp>

  function AddLabel(p: Poly, l: Exp): Poly {
    if l.Zero? then p else Insert(p, l)
  }

  function AddPoly(p: Poly, q: Poly): Poly
    decreases |q|
  {
    if q == [] then p else AddPoly(AddLabel(p, q[0]), q[1..])
  }

  // res, and the labels of p multiplied by f.
  function AddRmul(res: Poly, p: Poly, f: Exp): Poly
    decreases |p|
  {
    if p == [] then res else AddRmul(AddLabel(res, MulExp(p[0], f)), p[1..], f)
  }

  function RmulLabel(p: Poly, f: Exp): Poly {
    AddRmul([], p, f)
  }

  function AddConjunction(res: Poly, l: Exp, q: Poly): Poly
    decreases |q|
  {
    if q == [] then res else AddConjunction(AddLabel(res, ConjunctionExp(l, q[0])), l, q[1..])
  }

  function AddConjunctions(res: Poly, p: Poly, q: Poly): Poly
    decreases |p|
  {
    if p == [] then res else AddConjunctions(AddConjunction(res, p[0], q), p[1..], q)
  }

  function ConjunctionPoly(p: Poly, q: Poly): Poly {
    AddConjunctions([], p, q)
  }

  function AddTo(res: Exp, p: Poly): Exp
    decreases |p|
  {
    if p == [] then res else AddTo(AddExp(res, p[0]), p[1..])
  }

  // The sum of the labels.
  function ToLabel(p: Poly): Exp {
    AddTo(Zero, p)
  }

  // Always one label.
  function ComplementPoly(p: Poly): Poly {
    [ComplementExp(ToLabel(p))]
  }

  lemma AddLabelMember(p: Poly, l: Exp, w: Word)
    ensures Any(AddLabel(p, l), w) <==> Any(p, w) || Member(l, w)
  {
    InsertMember(p, l, w);
  }

  lemma {:induction false} AddPolyMember(p: Poly, q: Poly, w: Word)
    ensures Any(AddPoly(p, q), w) <==> Any(p, w) || Any(q, w)
    decreases |q|
  {
    if q != [] {
      AddPolyMember(AddLabel(p, q[0]), q[1..], w);
      AddLabelMember(p, q[0], w);
      AnyFirst(q, w);
    }
  }

  // w is a word of p followed by one of f.
  ghost predicate SplitsAny(p: Poly, f: Exp, w: Word) {
    exists k :: 0 <= k <= |w| && Any(p, w[..k]) && Member(f, w[k..])
  }

  lemma SplitsFirst(p: Poly, f: Exp, w: Word)
    requires p != []
    ensures SplitsAny(p, f, w) <==> Splits(p[0], f, w) || SplitsAny(p[1..], f, w)
  {
    forall k | 0 <= k <= |w|
      ensures Any(p, w[..k]) <==> Member(p[0], w[..k]) || Any(p[1..], w[..k])
    {
      AnyFirst(p, w[..k]);
    }
  }

  lemma {:induction false} AddRmulMember(res: Poly, p: Poly, f: Exp, w: Word)
    ensures Any(AddRmul(res, p, f), w) <==> Any(res, w) || SplitsAny(p, f, w)
    decreases |p|
  {
    if p != [] {
      AddRmulMember(AddLabel(res, MulExp(p[0], f)), p[1..], f, w);
      AddLabelMember(res, MulExp(p[0], f), w);
      MulExpMember(p[0], f, w);
      SplitsFirst(p, f, w);
    }
  }

  lemma {:induction false} AddConjunctionMember(res: Poly, l: Exp, q: Poly, w: Word)
    ensures Any(AddConjunction(res, l, q), w) <==> Any(res, w) || (Member(l, w) && Any(q, w))
    decreases |q|
  {
    if q != [] {
      AddConjunctionMember(AddLabel(res, ConjunctionExp(l, q[0])), l, q[1..], w);
      AddLabelMember(res, ConjunctionExp(l, q[0]), w);
      ConjunctionExpMember(l, q[0], w);
      AnyFirst(q, w);
    }
  }

  lemma {:induction false} AddConjunctionsMember(res: Poly, p: Poly, q: Poly, w: Word)
    ensures Any(AddConjunctions(res, p, q), w) <==> Any(res, w) || (Any(p, w) && Any(q, w))
    decreases |p|
  {
    if p != [] {
      AddConjunctionsMember(AddConjunction(res, p[0], q), p[1..], q, w);
      AddConjunctionMember(res, p[0], q, w);
      AnyFirst(p, w);
    }
  }

  lemma {:induction false} AddToMember(res: Exp, p: Poly, w: Word)
    ensures Member(AddTo(res, p), w) <==> Member(res, w) || Any(p, w)
    decreases |p|
  {
    if p != [] {
      AddToMember(AddExp(res, p[0]), p[1..], w);
      AddExpMember(res, p[0], w);
      AnyFirst(p, w);
    }
  }

  lemma ComplementPolyMember(p: Poly, w: Word)
    ensures Any(ComplementPoly(p), w) <==> !Any(p, w)
  {
    AddToMember(Zero, p, w);
    ComplementExpMember(ToLabel(p), w);
    AnyOne(ComplementExp(ToLabel(p)), w);
  }

  // ---------------------------------------------------------------------
  // Derivation
  // ---------------------------------------------------------------------

  // Build a product, but not of 0 or 1 expression.
  function Prod(es: seq<Exp>): Exp {
    if |es| == 0 then One else if |es| == 1 then es[0] else Mul(es)
  }

  // The derived terms of e with respect to the letter a.
  function Derivation(e: Exp, a: Letter): Poly
    decreases e, 0
  {
    match e
    case Zero => []
    case One => []
    case Atom(l) => if l == a then [One] else []
    case Add(es) => DeriveSum([], es, a, 0)
    case Mul(es) => DeriveProduct([], es, a, 0)
    case Conjunction(es) => if es == [] then [Complement(Zero)] else DeriveConjunction(Derivation(es[0], a), es, a, 1)
    case Shuffle(es) => DeriveShuffle([], es, a, 0)
    case Star(sub) => RmulLabel(Derivation(sub, a), e)
    case Complement(sub) => ComplementPoly(Derivation(sub, a))
  }

  function DeriveSum(res: Poly, es: seq<Exp>, a: Letter, i: nat): Poly
    requires i <= |es|
    decreases es, |es| - i
  {
    if i == |es| then res else DeriveSum(AddPoly(res, Derivation(es[i], a)), es, a, i + 1)
  }

  // The terms from the i-th factor, when all those before have a nonzero
  // constant term.
  function DeriveProduct(res: Poly, es: seq<Exp>, a: Letter, i: nat): Poly
    requires i <= |es|
    decreases es, |es| - i
  {
    if i == |es| then res
    else
      var res' := AddPoly(res, RmulLabel(Derivation(es[i], a), Prod(es[i + 1..])));
      if ConstantTerm(es[i]) then DeriveProduct(res', es, a, i + 1) else res'
  }

  function DeriveConjunction(res: Poly, es: seq<Exp>, a: Letter, i: nat): Poly
    requires i <= |es|
    decreases es, |es| - i
  {
    if i == |es| then res else DeriveConjunction(ConjunctionPoly(res, Derivation(es[i], a)), es, a, i + 1)
  }

  function DeriveShuffle(res: Poly, es: seq<Exp>, a: Letter, i: nat): Poly
    requires i <= |es|
    decreases es, |es| - i
  {
    if i == |es| then res else DeriveShuffle(AddShuffles(res, es, i, Derivation(es[i], a)), es, a, i + 1)
  }

  // Shuffles of the labels of p, instead of the i-th operand, with the others.
  function AddShuffles(res: Poly, es: seq<Exp>, i: nat, p: Poly): Poly
    requires i < |es|
    decreases |p|
  {
    if p == [] then res else AddShuffles(AddLabel(res, Shuffle(es[i := p[0]])), es, i, p[1..])
  }

  // ---------------------------------------------------------------------
  // Quotient
  // ---------------------------------------------------------------------

  // For each of the expressions, the derivation is the left quotient.
  ghost predicate Quotients(es: seq<Exp>, a: Letter) {
    forall i, w: Word | 0 <= i < |es| :: Any(Derivation(es[i], a), w) <==> Member(es[i], [a] + w)
  }

  lemma {:induction false} SumQuotient(res: Poly, es: seq<Exp>, a: Letter, i: nat, w: Word)
    requires i <= |es| && Quotients(es, a)
    ensures Any(DeriveSum(res, es, a, i), w) <==> Any(res, w) || Any(es[i..], [a] + w)
    decreases |es| - i
  {
    if i < |es| {
      SumQuotient(AddPoly(res, Derivation(es[i], a)), es, a, i + 1, w);
      AddPolyMember(res, Derivation(es[i], a), w);
      AnyFirst(es[i..], [a] + w);
    }
  }

  lemma ProdMember(es: seq<Exp>, w: Word)
    ensures Member(Prod(es), w) <==> InProduct(es, w)
  {
    if |es| == 1 {
      ProductOne(es[0], w);
      assert es == [es[0]];
    }
  }

  // A word [a] + w of a product starts in its first factor, or after it.
  lemma FirstLetter(e: Exp, f: Exp, fs: seq<Exp>, a: Letter, p: Poly, w: Word)
    requires forall v: Word :: Any(p, v) <==> Member(e, [a] + v)
    requires forall v: Word :: Member(f, v) <==> InProduct(fs, v)
    ensures InProduct([e] + fs, [a] + w)
            <==> SplitsAny(p, f, w) || (Member(e, []) && InProduct(fs, [a] + w))
  {
    if InProduct([e] + fs, [a] + w) {
      FirstLetterForth(e, f, fs, a, p, w);
    }
    if SplitsAny(p, f, w) {
      FirstLetterInside(e, f, fs, a, p, w);
    }
    if Member(e, []) && InProduct(fs, [a] + w) {
      FirstLetterAfter(e, fs, [a] + w);
    }
  }

  lemma FirstLetterForth(e: Exp, f: Exp, fs: seq<Exp>, a: Letter, p: Poly, w: Word)
    requires forall v: Word :: Any(p, v) <==> Member(e, [a] + v)
    requires forall v: Word :: Member(f, v) <==> InProduct(fs, v)
    requires InProduct([e] + fs, [a] + w)
    ensures SplitsAny(p, f, w) || (Member(e, []) && InProduct(fs, [a] + w))
  {
    var k := CutProduct(e, fs, [a] + w);
    var aw := [a] + w;
    if k == 0 {
      assert aw[..0] == [] && aw[0..] == aw;
    } else {
      assert aw[..k] == [a] + w[..k - 1] && aw[k..] == w[k - 1..];
      assert Any(p, w[..k - 1]) && Member(f, w[k - 1..]);
    }
  }

  lemma CutProduct(e: Exp, fs: seq<Exp>, aw: Word) returns (k: nat)
    requires InProduct([e] + fs, aw)
    ensures k <= |aw| && Member(e, aw[..k]) && InProduct(fs, aw[k..])
  {
    var es := [e] + fs;
    assert es[1..] == fs && es[0] == e;
    k :| 0 <= k <= |aw| && Member(es[0], aw[..k]) && InProduct(es[1..], aw[k..]);
  }

  lemma FirstLetterInside(e: Exp, f: Exp, fs: seq<Exp>, a: Letter, p: Poly, w: Word)
    requires forall v: Word :: Any(p, v) <==> Member(e, [a] + v)
    requires forall v: Word :: Member(f, v) <==> InProduct(fs, v)
    requires SplitsAny(p, f, w)
    ensures InProduct([e] + fs, [a] + w)
  {
    var es, aw := [e] + fs, [a] + w;
    assert es[1..] == fs;
    var k :| 0 <= k <= |w| && Any(p, w[..k]) && Member(f, w[k..]);
    assert aw[..k + 1] == [a] + w[..k] && aw[k + 1..] == w[k..];
    assert Member(es[0], aw[..k + 1]) && InProduct(es[1..], aw[k + 1..]);
  }

  lemma FirstLetterAfter(e: Exp, fs: seq<Exp>, aw: Word)
    requires Member(e, []) && InProduct(fs, aw)
    ensures InProduct([e] + fs, aw)
  {
    var es := [e] + fs;
    assert es[1..] == fs && aw[..0] == [] && aw[0..] == aw;
    assert Member(es[0], aw[..0]) && InProduct(es[1..], aw[0..]);
  }

  lemma {:induction false} ProductQuotient(res: Poly, es: seq<Exp>, a: Letter, i: nat, w: Word)
    requires i <= |es| && Quotients(es, a)
    ensures Any(DeriveProduct(res, es, a, i), w) <==> Any(res, w) || InProduct(es[i..], [a] + w)
    decreases |es| - i
  {
    if i < |es| {
      var p, f := Derivation(es[i], a), Prod(es[i + 1..]);
      var res' := AddPoly(res, RmulLabel(p, f));
      AddPolyMember(res, RmulLabel(p, f), w);
      AddRmulMember([], p, f, w);
      forall v: Word
        ensures Member(f, v) <==> InProduct(es[i + 1..], v)
      {
        ProdMember(es[i + 1..], v);
      }
      FirstLetter(es[i], f, es[i + 1..], a, p, w);
      assert es[i..] == [es[i]] + es[i + 1..];
      ConstantTermMember(es[i]);
      if ConstantTerm(es[i]) {
        ProductQuotient(res', es, a, i + 1, w);
      }
    }
  }

  lemma {:induction false} ConjunctionQuotient(res: Poly, es: seq<Exp>, a: Letter, i: nat, w: Word)
    requires i <= |es| && Quotients(es, a)
    ensures Any(DeriveConjunction(res, es, a, i), w) <==> Any(res, w) && Every(es[i..], [a] + w)
    decreases |es| - i
  {
    if i < |es| {
      var res' := ConjunctionPoly(res, Derivation(es[i], a));
      ConjunctionQuotient(res', es, a, i + 1, w);
      AddConjunctionsMember([], res, Derivation(es[i], a), w);
      EveryConcat([es[i]], es[i + 1..], [a] + w);
      assert es[i..] == [es[i]] + es[i + 1..];
      assert [es[i]][0] == es[i];
    }
  }

  // The word w is denoted by the shuffle whose i-th operand is m.
  ghost predicate ShuffleWith(es: seq<Exp>, i: nat, m: Exp, w: Word) {
    i < |es| && InShuffle(es[i := m], w)
  }

  ghost predicate ShuffleStep(es: seq<Exp>, a: Letter, i: nat, w: Word) {
    i < |es| && exists m :: m in Derivation(es[i], a) && ShuffleWith(es, i, m, w)
  }

  lemma {:induction false} AddShufflesMember(res: Poly, es: seq<Exp>, i: nat, p: Poly, w: Word)
    requires i < |es|
    ensures Any(AddShuffles(res, es, i, p), w) <==> Any(res, w) || exists m :: m in p && ShuffleWith(es, i, m, w)
    decreases |p|
  {
    if p != [] {
      AddShufflesMember(AddLabel(res, Shuffle(es[i := p[0]])), es, i, p[1..], w);
      AddLabelMember(res, Shuffle(es[i := p[0]]), w);
      assert Member(Shuffle(es[i := p[0]]), w) <==> ShuffleWith(es, i, p[0], w);
      forall m
        ensures m in p <==> m == p[0] || m in p[1..]
      {
        assert p == [p[0]] + p[1..];
      }
    }
  }

  lemma {:induction false} DeriveShuffleMember(res: Poly, es: seq<Exp>, a: Letter, i: nat, w: Word)
    requires i <= |es|
    ensures Any(DeriveShuffle(res, es, a, i), w)
            <==> Any(res, w) || exists j :: i <= j < |es| && ShuffleStep(es, a, j, w)
    decreases |es| - i
  {
    if i < |es| {
      DeriveShuffleMember(AddShuffles(res, es, i, Derivation(es[i], a)), es, a, i + 1, w);
      AddShufflesMember(res, es, i, Derivation(es[i], a), w);
      assert ShuffleStep(es, a, i, w) <==> exists m :: m in Derivation(es[i], a) && ShuffleWith(es, i, m, w);
      assert (exists j :: i <= j < |es| && ShuffleStep(es, a, j, w))
             <==> ShuffleStep(es, a, i, w) || exists j :: i + 1 <= j < |es| && ShuffleStep(es, a, j, w);
    }
  }

  // The first letter comes from the first operand.
  lemma ShuffleHead(es: seq<Exp>, a: Letter, w: Word, u: Word, v: Word)
    requires es != [] && Quotients(es, a)
    requires Interleaved(u, v, w) && Member(es[0], [a] + u) && InShuffle(es[1..], v)
    ensures ShuffleStep(es, a, 0, w)
  {
    var p := Derivation(es[0], a);
    assert Any(p, u);
    var i :| 0 <= i < |p| && Member(p[i], u);
    var fs := es[0 := p[i]];
    assert fs[1..] == es[1..];
    assert Member(fs[0], u) && InShuffle(fs[1..], v);
    assert ShuffleWith(es, 0, p[i], w);
  }

  // The first letter comes from another operand.
  lemma ShuffleTail(es: seq<Exp>, a: Letter, i: nat, w: Word, u: Word, v: Word)
    requires es != [] && Interleaved(u, v, w) && Member(es[0], u) && ShuffleStep(es[1..], a, i, v)
    ensures ShuffleStep(es, a, i + 1, w)
  {
    var m :| m in Derivation(es[1..][i], a) && ShuffleWith(es[1..], i, m, v);
    var fs := es[i + 1 := m];
    assert fs[1..] == es[1..][i := m];
    assert Member(fs[0], u) && InShuffle(fs[1..], v);
    assert ShuffleWith(es, i + 1, m, w);
  }

  lemma {:induction false} ShuffleQuotientForward(es: seq<Exp>, a: Letter, w: Word)
    requires Quotients(es, a) && InShuffle(es, [a] + w)
    ensures exists i :: ShuffleStep(es, a, i, w)
    decreases |es|
  {
    if es != [] {
      var aw := [a] + w;
      assert aw[1..] == w;
      var u: Word, v: Word :| Interleaved(u, v, aw) && Member(es[0], u) && InShuffle(es[1..], v);
      if u != [] && u[0] == a && Interleaved(u[1..], v, w) {
        assert u == [a] + u[1..];
        ShuffleHead(es, a, w, u[1..], v);
      } else {
        assert v == [a] + v[1..];
        TailQuotients(es, a);
        ShuffleQuotientForward(es[1..], a, v[1..]);
        var i :| ShuffleStep(es[1..], a, i, v[1..]);
        ShuffleTail(es, a, i, w, u, v[1..]);
      }
    }
  }

  lemma TailQuotients(es: seq<Exp>, a: Letter)
    requires es != [] && Quotients(es, a)
    ensures Quotients(es[1..], a)
  {
    forall i, w: Word | 0 <= i < |es[1..]|
      ensures Any(Derivation(es[1..][i], a), w) <==> Member(es[1..][i], [a] + w)
    {
      assert es[1..][i] == es[i + 1];
    }
  }

  lemma {:induction false} ShuffleQuotientBackward(es: seq<Exp>, a: Letter, i: nat, w: Word)
    requires Quotients(es, a) && ShuffleStep(es, a, i, w)
    ensures InShuffle(es, [a] + w)
    decreases |es|
  {
    var aw := [a] + w;
    assert aw[1..] == w;
    var m :| m in Derivation(es[i], a) && ShuffleWith(es, i, m, w);
    var fs := es[i := m];
    var u: Word, v: Word :| Interleaved(u, v, w) && Member(fs[0], u) && InShuffle(fs[1..], v);
    if i == 0 {
      assert fs[1..] == es[1..];
      var k :| 0 <= k < |Derivation(es[0], a)| && Derivation(es[0], a)[k] == m;
      assert Any(Derivation(es[0], a), u);
      var au := [a] + u;
      assert au[1..] == u;
      assert Interleaved(au, v, aw) && Member(es[0], au);
    } else {
      assert fs[1..] == es[1..][i - 1 := m];
      assert ShuffleWith(es[1..], i - 1, m, v);
      assert ShuffleStep(es[1..], a, i - 1, v);
      TailQuotients(es, a);
      ShuffleQuotientBackward(es[1..], a, i - 1, v);
      var av := [a] + v;
      assert av[1..] == v;
      assert Interleaved(u, av, aw) && InShuffle(es[1..], av);
    }
  }

  lemma ShuffleQuotient(es: seq<Exp>, a: Letter, w: Word)
    requires Quotients(es, a)
    ensures Any(DeriveShuffle([], es, a, 0), w) <==> InShuffle(es, [a] + w)
  {
    DeriveShuffleMember([], es, a, 0, w);
    if InShuffle(es, [a] + w) {
      ShuffleQuotientForward(es, a, w);
    }
    if Any(DeriveShuffle([], es, a, 0), w) {
      var i :| 0 <= i < |es| && ShuffleStep(es, a, i, w);
      ShuffleQuotientBackward(es, a, i, w);
    }
  }

  lemma StarQuotient(e: Exp, a: Letter, w: Word)
    requires e.Star? && Quotients([e.sub], a)
    ensures Any(Derivation(e, a), w) <==> Member(e, [a] + w)
  {
    var p := Derivation(e.sub, a);
    assert [e.sub][0] == e.sub;
    AddRmulMember([], p, e, w);
    forall v: Word
      ensures Any(p, v) <==> Member(e.sub, [a] + v)
    {
    }
    if SplitsAny(p, e, w) {
      StarFrom(e, p, a, w);
    }
    if Member(e, [a] + w) {
      StarTo(e, p, a, w);
    }
  }

  lemma StarFrom(e: Exp, p: Poly, a: Letter, w: Word)
    requires e.Star? && (forall v: Word :: Any(p, v) <==> Member(e.sub, [a] + v)) && SplitsAny(p, e, w)
    ensures Member(e, [a] + w)
  {
    var aw := [a] + w;
    var k :| 0 <= k <= |w| && Any(p, w[..k]) && Member(e, w[k..]);
    assert aw[..k + 1] == [a] + w[..k] && aw[k + 1..] == w[k..];
    assert Member(e.sub, aw[..k + 1]) && Member(e, aw[k + 1..]);
  }

  lemma StarTo(e: Exp, p: Poly, a: Letter, w: Word)
    requires e.Star? && (forall v: Word :: Any(p, v) <==> Member(e.sub, [a] + v)) && Member(e, [a] + w)
    ensures SplitsAny(p, e, w)
  {
    var aw := [a] + w;
    var k :| 0 < k <= |aw| && Member(e.sub, aw[..k]) && Member(e, aw[k..]);
    assert aw[..k] == [a] + w[..k - 1] && aw[k..] == w[k - 1..];
    assert Any(p, w[..k - 1]) && Member(e, w[k - 1..]);
  }

  // The derivation with respect to a denotes the left quotient by a.
  lemma {:induction false} DerivationQuotient(e: Exp, a: Letter, w: Word)
    ensures Any(Derivation(e, a), w) <==> Member(e, [a] + w)
    decreases e, 0
  {
    match e
    case Zero =>
    case One =>
    case Atom(l) =>
      AnyOne(One, w);
      assert |[a] + w| == 1 + |w| && ([a] + w)[0] == a;
      assert w == [] ==> [a] + w == [a];
    case Add(es) =>
      AllQuotients(es, a);
      SumQuotient([], es, a, 0, w);
      assert es[0..] == es;
    case Mul(es) =>
      AllQuotients(es, a);
      ProductQuotient([], es, a, 0, w);
      assert es[0..] == es;
    case Conjunction(es) =>
      AllQuotients(es, a);
      if es == [] {
        AnyOne(Complement(Zero), w);
      } else {
        ConjunctionQuotient(Derivation(es[0], a), es, a, 1, w);
        EveryConcat([es[0]], es[1..], [a] + w);
        assert es == [es[0]] + es[1..];
        assert [es[0]][0] == es[0];
      }
    case Shuffle(es) =>
      AllQuotients(es, a);
      ShuffleQuotient(es, a, w);
    case Star(sub) =>
      forall v: Word
        ensures Any(Derivation(sub, a), v) <==> Member(sub, [a] + v)
      {
        DerivationQuotient(sub, a, v);
      }
      StarQuotient(e, a, w);
    case Complement(sub) =>
      DerivationQuotient(sub, a, w);
      ComplementPolyMember(Derivation(sub, a), w);
  }

  lemma {:induction false} AllQuotients(es: seq<Exp>, a: Letter)
    ensures Quotients(es, a)
    decreases es, 0
  {
    forall i, w: Word | 0 <= i < |es|
      ensures Any(Derivation(es[i], a), w) <==> Member(es[i], [a] + w)
    {
      DerivationQuotient(es[i], a, w);
    }
  }

  // ---------------------------------------------------------------------
  // The visitor
  // ---------------------------------------------------------------------

  method Derive(e: Exp, a: Letter) returns (res: Poly)
    ensures res == Derivation(e, a)
    ensures forall w: Word :: Any(res, w) <==> Member(e, [a] + w)
    decreases e, 1
  {
    match e {
      case Zero => res := [];
      case One => res := [];
      case Atom(l) => res := if l == a then [One] else [];
      case Add(es) => res := DeriveAdd(es, a);
      case Mul(es) => res := DeriveMul(es, a);
      case Conjunction(es) =>
        if es == [] {
          res := [Complement(Zero)];
        } else {
          res := DeriveConjunctions(es, a);
        }
      case Shuffle(es) => res := DeriveShuffles(es, a);
      case Star(sub) =>
        var p := Derive(sub, a);
        res := RmulLabel(p, e);
      case Complement(sub) =>
        var p := Derive(sub, a);
        res := ComplementPoly(p);
    }
    forall w: Word
      ensures Any(res, w) <==> Member(e, [a] + w)
    {
      DerivationQuotient(e, a, w);
    }
  }

  method DeriveAdd(es: seq<Exp>, a: Letter) returns (res: Poly)
    ensures res == DeriveSum([], es, a, 0)
    decreases es, 0
  {
    res := [];
    var i := 0;
    while i < |es|
      invariant i <= |es|
      invariant DeriveSum(res, es, a, i) == DeriveSum([], es, a, 0)
    {
      var p := Derive(es[i], a);
      res := AddPoly(res, p);
      i := i + 1;
    }
  }

  method DeriveMul(es: seq<Exp>, a: Letter) returns (res: Poly)
    ensures res == DeriveProduct([], es, a, 0)
    decreases es, 0
  {
    res := [];
    var constant := true;
    var i := 0;
    while i < |es| && constant
      invariant i <= |es|
      invariant (if constant then DeriveProduct(res, es, a, i) else res) == DeriveProduct([], es, a, 0)
    {
      var p := Derive(es[i], a);
      p := RmulLabel(p, Prod(es[i + 1..]));
      res := AddPoly(res, p);
      constant := ComputeConstantTerm(es[i]);
      i := i + 1;
    }
  }

  method DeriveConjunctions(es: seq<Exp>, a: Letter) returns (res: Poly)
    requires es != []
    ensures res == DeriveConjunction(Derivation(es[0], a), es, a, 1)
    decreases es, 0
  {
    res := Derive(es[0], a);
    var i := 1;
    while i < |es|
      invariant i <= |es|
      invariant DeriveConjunction(res, es, a, i) == DeriveConjunction(Derivation(es[0], a), es, a, 1)
    {
      var p := Derive(es[i], a);
      res := ConjunctionPoly(res, p);
      i := i + 1;
    }
  }

  method DeriveShuffles(es: seq<Exp>, a: Letter) returns (res: Poly)
    ensures res == DeriveShuffle([], es, a, 0)
    decreases es, 0
  {
    res := [];
    var i := 0;
    while i < |es|
      invariant i <= |es|
      invariant DeriveShuffle(res, es, a, i) == DeriveShuffle([], es, a, 0)
    {
      var p := Derive(es[i], a);
      res := AddShuffles(res, es, i, p);
      i := i + 1;
    }
  }
}
