// Rational expressions with Boolean weights over a letterset, the words they
// denote, and their smart constructors under the default identities
// (vcsn/core/rat/expressionset.hxx, vcsn/core/rat/compare.hh).
module Expressions {

  type Letter = nat
  type Word = seq<Letter>

  // Variadic nodes have at least two operands.
  datatype Exp =
    | Zero
    | One
    | Atom(lbl: Letter)
    | Add(es: seq<Exp>)
    | Mul(es: seq<Exp>)
    | Conjunction(es: seq<Exp>)
    | Shuffle(es: seq<Exp>)
    | Star(sub: Exp)
    | Complement(sub: Exp)

  // ---------------------------------------------------------------------
  // Words
  // ---------------------------------------------------------------------

  // w interleaves u and v.
  predicate Interleaved(u: Word, v: Word, w: Word)
    decreases |w|
  {
    if w == [] then u == [] && v == []
    else
      || (u != [] && u[0] == w[0] && Interleaved(u[1..], v, w[1..]))
      || (v != [] && v[0] == w[0] && Interleaved(u, v[1..], w[1..]))
  }

  // The word w is denoted by e: the reference semantics.
  ghost predicate Member(e: Exp, w: Word)
    decreases e, |w|
  {
    match e
    case Zero => false
    case One => w == []
    case Atom(l) => w == [l]
    case Add(es) => exists i :: 0 <= i < |es| && Member(es[i], w)
    case Mul(es) => InProduct(es, w)
    case Conjunction(es) => forall i | 0 <= i < |es| :: Member(es[i], w)
    case Shuffle(es) => InShuffle(es, w)
    case Star(sub) => w == [] || exists k :: 0 < k <= |w| && Member(sub, w[..k]) && Member(e, w[k..])
    case Complement(sub) => !Member(sub, w)
  }

  ghost predicate InProduct(es: seq<Exp>, w: Word)
    decreases es, 0
  {
    if es == [] then w == []
    else exists k :: 0 <= k <= |w| && Member(es[0], w[..k]) && InProduct(es[1..], w[k..])
  }

  ghost predicate InShuffle(es: seq<Exp>, w: Word)
    decreases es, 0
  {
    if es == [] then w == []
    else exists u: Word, v: Word :: Interleaved(u, v, w) && Member(es[0], u) && InShuffle(es[1..], v)
  }

  // ---------------------------------------------------------------------
  // Order
  // ---------------------------------------------------------------------

  function Size(e: Exp): nat
    decreases e, 0
  {
    match e
    case Zero => 1
    case One => 1
    case Atom(_) => 1
    case Add(es) => Variadic(es)
    case Mul(es) => Variadic(es)
    case Conjunction(es) => Variadic(es)
    case Shuffle(es) => Variadic(es)
    case Star(sub) => 1 + Size(sub)
    case Complement(sub) => 1 + Size(sub)
  }

  // The operands, and an operator between each.
  function Variadic(es: seq<Exp>): nat
    decreases es, 0
  {
    if es == [] then 0 else Size(es[0]) + (if |es| == 1 then 0 else 1 + Variadic(es[1..]))
  }

  function Type(e: Exp): nat {
    match e
    case Zero => 0
    case One => 1
    case Atom(_) => 2
    case Add(_) => 3
    case Mul(_) => 4
    case Conjunction(_) => 6
    case Shuffle(_) => 7
    case Star(_) => 9
    case Complement(_) => 13
  }

  // Three-way comparison: by sizes, by types, then by operands.
  function Compare(e: Exp, f: Exp): int
    decreases e, 0
  {
    if Size(e) != Size(f) then Size(e) - Size(f)
    else if Type(e) != Type(f) then Type(e) - Type(f)
    else
      match e
      case Zero => 0
      case One => 0
      case Atom(l) => l - f.lbl
      case Add(es) => CompareAll(es, f.es)
      case Mul(es) => CompareAll(es, f.es)
      case Conjunction(es) => CompareAll(es, f.es)
      case Shuffle(es) => CompareAll(es, f.es)
      case Star(sub) => Compare(sub, f.sub)
      case Complement(sub) => Compare(sub, f.sub)
  }

  function CompareAll(es: seq<Exp>, fs: seq<Exp>): int
    decreases es, 0
  {
    if |es| != |fs| then |es| - |fs|
    else if es == [] then 0
    else if Compare(es[0], fs[0]) != 0 then Compare(es[0], fs[0])
    else CompareAll(es[1..], fs[1..])
  }

  predicate Less(e: Exp, f: Exp) {
    Compare(e, f) < 0
  }

  lemma {:induction false} CompareEqual(e: Exp, f: Exp)
    requires Compare(e, f) == 0
    ensures e == f
    decreases e, 0
  {
    match e
    case Zero =>
    case One =>
    case Atom(_) =>
    case Add(es) => CompareAllEqual(es, f.es);
    case Mul(es) => CompareAllEqual(es, f.es);
    case Conjunction(es) => CompareAllEqual(es, f.es);
    case Shuffle(es) => CompareAllEqual(es, f.es);
    case Star(sub) => CompareEqual(sub, f.sub);
    case Complement(sub) => CompareEqual(sub, f.sub);
  }

  lemma {:induction false} CompareAllEqual(es: seq<Exp>, fs: seq<Exp>)
    requires CompareAll(es, fs) == 0
    ensures es == fs
    decreases es, 0
  {
    if es != [] {
      CompareEqual(es[0], fs[0]);
      CompareAllEqual(es[1..], fs[1..]);
      assert es == [es[0]] + es[1..] && fs == [fs[0]] + fs[1..];
    }
  }

  lemma {:induction false} CompareOpposite(e: Exp, f: Exp)
    ensures Compare(e, f) == -Compare(f, e)
    decreases e, 0
  {
    if Size(e) == Size(f) && Type(e) == Type(f) {
      match e
      case Zero =>
      case One =>
      case Atom(_) =>
      case Add(es) => CompareAllOpposite(es, f.es);
      case Mul(es) => CompareAllOpposite(es, f.es);
      case Conjunction(es) => CompareAllOpposite(es, f.es);
      case Shuffle(es) => CompareAllOpposite(es, f.es);
      case Star(sub) => CompareOpposite(sub, f.sub);
      case Complement(sub) => CompareOpposite(sub, f.sub);
    }
  }

  lemma {:induction false} CompareAllOpposite(es: seq<Exp>, fs: seq<Exp>)
    ensures CompareAll(es, fs) == -CompareAll(fs, es)
    decreases es, 0
  {
    if |es| == |fs| && es != [] {
      CompareOpposite(es[0], fs[0]);
      CompareAllOpposite(es[1..], fs[1..]);
    }
  }

  lemma NeitherLess(e: Exp, f: Exp)
    requires !Less(e, f) && !Less(f, e)
    ensures e == f
  {
    CompareOpposite(e, f);
    CompareEqual(e, f);
  }

  // ---------------------------------------------------------------------
  // Constructors
  // ---------------------------------------------------------------------

  // The operands of a sum: with Boolean weights <k>E is E or 0.
  function AddOf(es: seq<Exp>): Exp {
    if |es| == 0 then Zero else if |es| == 1 then es[0] else Add(es)
  }

  // Insert r in the operands of a sum, unless it is there.
  function Insert(es: seq<Exp>, r: Exp): seq<Exp> {
    if es == [] then [r]
    else if Less(es[0], r) then [es[0]] + Insert(es[1..], r)
    else if Less(r, es[0]) then [r] + es
    else es
  }

  // Merge two increasing lists of operands.
  function Merge(es: seq<Exp>, fs: seq<Exp>): seq<Exp>
    decreases |es| + |fs|
  {
    if es == [] then fs
    else if fs == [] then es
    else if Less(es[0], fs[0]) then [es[0]] + Merge(es[1..], fs)
    else if Less(fs[0], es[0]) then [fs[0]] + Merge(es, fs[1..])
    else [es[0]] + Merge(es[1..], fs[1..])
  }

  function AddExp(l: Exp, r: Exp): Exp {
    if l.Zero? then r
    else if r.Zero? then l
    else if l.Add? && r.Add? then AddOf(Merge(l.es, r.es))
    else if l.Add? then AddOf(Insert(l.es, r))
    else if r.Add? then AddOf(Insert(r.es, l))
    else if Less(l, r) then Add([l, r])
    else if Less(r, l) then Add([r, l])
    else l
  }

  // The operands of a product, which is kept flat.
  function Factors(e: Exp): (es: seq<Exp>)
    ensures e.Mul? ==> es == e.es
    ensures !e.Mul? ==> es == [e]
  {
    if e.Mul? then e.es else [e]
  }

  function MulExp(l: Exp, r: Exp): Exp {
    if l.Zero? then l
    else if r.Zero? then r
    else if r.One? then l
    else if l.One? then r
    else Mul(Factors(l) + Factors(r))
  }

  predicate IsUniversal(e: Exp) {
    e.Complement? && e.sub.Zero?
  }

  function Conjuncts(e: Exp): seq<Exp> {
    if e.Conjunction? then e.es else [e]
  }

  function ConjunctionExp(l: Exp, r: Exp): Exp {
    if l.Zero? then l
    else if r.Zero? then r
    else if IsUniversal(r) then l
    else if IsUniversal(l) then r
    else if l.One? && r.One? then One
    else if l.Atom? && r.Atom? then if l.lbl == r.lbl then l else Zero
    else if (l.One? && r.Atom?) || (l.Atom? && r.One?) then Zero
    else Conjunction(Conjuncts(l) + Conjuncts(r))
  }

  function ComplementExp(e: Exp): Exp {
    if e.Complement? then e.sub else Complement(e)
  }

  // ---------------------------------------------------------------------
  // What the constructors denote
  // ---------------------------------------------------------------------

  // The word is denoted by one of the expressions.
  ghost predicate Any(es: seq<Exp>, w: Word) {
    exists i :: 0 <= i < |es| && Member(es[i], w)
  }

  lemma AnyConcat(es: seq<Exp>, fs: seq<Exp>, w: Word)
    ensures Any(es + fs, w) <==> Any(es, w) || Any(fs, w)
  {
    if Any(es, w) {
      var i :| 0 <= i < |es| && Member(es[i], w);
      assert (es + fs)[i] == es[i];
    }
    if Any(fs, w) {
      var i :| 0 <= i < |fs| && Member(fs[i], w);
      assert (es + fs)[|es| + i] == fs[i];
    }
  }

  lemma AnyFirst(es: seq<Exp>, w: Word)
    requires es != []
    ensures Any(es, w) <==> Member(es[0], w) || Any(es[1..], w)
  {
    AnyConcat([es[0]], es[1..], w);
    assert es == [es[0]] + es[1..];
    AnyOne(es[0], w);
  }

  lemma AnyOne(e: Exp, w: Word)
    ensures Any([e], w) <==> Member(e, w)
  {
    assert [e][0] == e;
  }

  lemma AddOfMember(es: seq<Exp>, w: Word)
    ensures Member(AddOf(es), w) <==> Any(es, w)
  {
    if |es| == 1 {
      AnyOne(es[0], w);
      assert es == [es[0]];
    }
  }

  lemma {:induction false} InsertMember(es: seq<Exp>, r: Exp, w: Word)
    ensures Any(Insert(es, r), w) <==> Any(es, w) || Member(r, w)
  {
    if es == [] {
      AnyOne(r, w);
    } else {
      AnyFirst(es, w);
      if Less(es[0], r) {
        InsertMember(es[1..], r, w);
        AnyConcat([es[0]], Insert(es[1..], r), w);
        AnyOne(es[0], w);
      } else if Less(r, es[0]) {
        AnyConcat([r], es, w);
        AnyOne(r, w);
      } else {
        NeitherLess(es[0], r);
      }
    }
  }

  lemma {:induction false} MergeMember(es: seq<Exp>, fs: seq<Exp>, w: Word)
    ensures Any(Merge(es, fs), w) <==> Any(es, w) || Any(fs, w)
    decreases |es| + |fs|
  {
    if es != [] && fs != [] {
      AnyFirst(es, w);
      AnyFirst(fs, w);
      AnyOne(es[0], w);
      AnyOne(fs[0], w);
      if Less(es[0], fs[0]) {
        MergeMember(es[1..], fs, w);
        AnyConcat([es[0]], Merge(es[1..], fs), w);
      } else if Less(fs[0], es[0]) {
        MergeMember(es, fs[1..], w);
        AnyConcat([fs[0]], Merge(es, fs[1..]), w);
      } else {
        NeitherLess(es[0], fs[0]);
        MergeMember(es[1..], fs[1..], w);
        AnyConcat([es[0]], Merge(es[1..], fs[1..]), w);
      }
    }
  }

  // The identities of the sum preserve what is denoted.
  lemma AddExpMember(l: Exp, r: Exp, w: Word)
    ensures Member(AddExp(l, r), w) <==> Member(l, w) || Member(r, w)
  {
    if l.Zero? || r.Zero? {
    } else if l.Add? && r.Add? {
      MergeMember(l.es, r.es, w);
      AddOfMember(Merge(l.es, r.es), w);
    } else if l.Add? {
      InsertMember(l.es, r, w);
      AddOfMember(Insert(l.es, r), w);
    } else if r.Add? {
      InsertMember(r.es, l, w);
      AddOfMember(Insert(r.es, l), w);
    } else if Less(l, r) {
      AnyFirst([l, r], w);
      AnyOne(r, w);
      assert [l, r][1..] == [r];
    } else if Less(r, l) {
      AnyFirst([r, l], w);
      AnyOne(l, w);
      assert [r, l][1..] == [l];
    } else {
      NeitherLess(l, r);
    }
  }

  // w splits in a word of l and a word of r.
  ghost predicate Splits(l: Exp, r: Exp, w: Word) {
    exists k :: 0 <= k <= |w| && Member(l, w[..k]) && Member(r, w[k..])
  }

  ghost predicate SplitsProduct(es: seq<Exp>, fs: seq<Exp>, w: Word) {
    exists k :: 0 <= k <= |w| && InProduct(es, w[..k]) && InProduct(fs, w[k..])
  }

  lemma PrependFactor(es: seq<Exp>, fs: seq<Exp>, w: Word, k: nat)
    requires es != [] && k <= |w| && Member(es[0], w[..k]) && SplitsProduct(es[1..], fs, w[k..])
    ensures SplitsProduct(es, fs, w)
  {
    var l :| 0 <= l <= |w[k..]| && InProduct(es[1..], w[k..][..l]) && InProduct(fs, w[k..][l..]);
    JoinSplits(w, k, l);
    assert Member(es[0], w[..k + l][..k]) && InProduct(es[1..], w[..k + l][k..]);
    assert InProduct(es, w[..k + l]);
  }

  lemma FirstFactor(es: seq<Exp>, fs: seq<Exp>, w: Word) returns (k: nat)
    requires es != [] && SplitsProduct(es, fs, w)
    ensures k <= |w| && Member(es[0], w[..k]) && SplitsProduct(es[1..], fs, w[k..])
  {
    var m :| 0 <= m <= |w| && InProduct(es, w[..m]) && InProduct(fs, w[m..]);
    k :| 0 <= k <= m && Member(es[0], w[..m][..k]) && InProduct(es[1..], w[..m][k..]);
    JoinSplits(w, k, m - k);
    assert InProduct(es[1..], w[k..][..m - k]) && InProduct(fs, w[k..][m - k..]);
  }

  lemma NoFactors(fs: seq<Exp>, w: Word)
    ensures InProduct(fs, w) <==> SplitsProduct([], fs, w)
  {
    assert w[..0] == [] && w[0..] == w;
    if InProduct(fs, w) {
      assert InProduct([], w[..0]) && InProduct(fs, w[0..]);
    }
    if SplitsProduct([], fs, w) {
      var k :| 0 <= k <= |w| && InProduct([], w[..k]) && InProduct(fs, w[k..]);
      assert k == 0;
    }
  }

  lemma {:induction false} ProductConcat(es: seq<Exp>, fs: seq<Exp>, w: Word)
    ensures InProduct(es + fs, w) <==> SplitsProduct(es, fs, w)
    decreases |es|
  {
    if es == [] {
      assert es + fs == fs;
      NoFactors(fs, w);
    } else {
      assert (es + fs)[1..] == es[1..] + fs;
      if InProduct(es + fs, w) {
        var k :| 0 <= k <= |w| && Member((es + fs)[0], w[..k]) && InProduct((es + fs)[1..], w[k..]);
        ProductConcat(es[1..], fs, w[k..]);
        PrependFactor(es, fs, w, k);
      }
      if SplitsProduct(es, fs, w) {
        var k := FirstFactor(es, fs, w);
        ProductConcat(es[1..], fs, w[k..]);
        assert Member((es + fs)[0], w[..k]) && InProduct((es + fs)[1..], w[k..]);
      }
    }
  }

  lemma JoinSplits(w: Word, k: nat, l: nat)
    requires k + l <= |w|
    ensures w[..k + l][..k] == w[..k]
    ensures w[..k + l][k..] == w[k..][..l]
    ensures w[k + l..] == w[k..][l..]
  {
  }

  lemma ProductOne(e: Exp, w: Word)
    ensures InProduct([e], w) <==> Member(e, w)
  {
    assert [e][1..] == [];
    assert w[..|w|] == w && w[|w|..] == [];
    if Member(e, w) {
      assert Member([e][0], w[..|w|]) && InProduct([e][1..], w[|w|..]);
    }
    if InProduct([e], w) {
      var k :| 0 <= k <= |w| && Member([e][0], w[..k]) && InProduct([e][1..], w[k..]);
      assert w[k..] == [];
      assert k == |w|;
    }
  }

  lemma FactorsMember(e: Exp, w: Word)
    ensures InProduct(Factors(e), w) <==> Member(e, w)
  {
    if !e.Mul? {
      ProductOne(e, w);
    }
  }

  lemma FactorsSplit(l: Exp, r: Exp, w: Word)
    ensures SplitsProduct(Factors(l), Factors(r), w) <==> Splits(l, r, w)
  {
    forall k | 0 <= k <= |w|
      ensures InProduct(Factors(l), w[..k]) <==> Member(l, w[..k])
      ensures InProduct(Factors(r), w[k..]) <==> Member(r, w[k..])
    {
      FactorsMember(l, w[..k]);
      FactorsMember(r, w[k..]);
    }
  }

  lemma SplitWithOne(e: Exp, w: Word)
    ensures Splits(e, One, w) <==> Member(e, w)
    ensures Splits(One, e, w) <==> Member(e, w)
  {
    assert w[..|w|] == w && w[|w|..] == [];
    assert w[..0] == [] && w[0..] == w;
    if Member(e, w) {
      assert Member(e, w[..|w|]) && Member(One, w[|w|..]);
      assert Member(One, w[..0]) && Member(e, w[0..]);
    }
    if Splits(e, One, w) {
      var k :| 0 <= k <= |w| && Member(e, w[..k]) && Member(One, w[k..]);
      assert k == |w|;
    }
    if Splits(One, e, w) {
      var k :| 0 <= k <= |w| && Member(One, w[..k]) && Member(e, w[k..]);
      assert k == 0;
    }
  }

  // The identities of the product preserve what is denoted.
  lemma MulExpMember(l: Exp, r: Exp, w: Word)
    ensures Member(MulExp(l, r), w) <==> Splits(l, r, w)
  {
    if l.Zero? || r.Zero? {
    } else if r.One? {
      SplitWithOne(l, w);
    } else if l.One? {
      SplitWithOne(r, w);
    } else {
      ProductConcat(Factors(l), Factors(r), w);
      FactorsSplit(l, r, w);
    }
  }

  ghost predicate Every(es: seq<Exp>, w: Word) {
    forall i | 0 <= i < |es| :: Member(es[i], w)
  }

  lemma EveryConcat(es: seq<Exp>, fs: seq<Exp>, w: Word)
    ensures Every(es + fs, w) <==> Every(es, w) && Every(fs, w)
  {
    if Every(es + fs, w) {
      forall i | 0 <= i < |es|
        ensures Member(es[i], w)
      {
        assert (es + fs)[i] == es[i];
      }
      forall i | 0 <= i < |fs|
        ensures Member(fs[i], w)
      {
        assert (es + fs)[|es| + i] == fs[i];
      }
    }
  }

  lemma ConjunctsMember(e: Exp, w: Word)
    ensures Every(Conjuncts(e), w) <==> Member(e, w)
  {
    if !e.Conjunction? {
      assert [e][0] == e;
    }
  }

  // The identities of the conjunction preserve what is denoted.
  lemma ConjunctionExpMember(l: Exp, r: Exp, w: Word)
    ensures Member(ConjunctionExp(l, r), w) <==> Member(l, w) && Member(r, w)
  {
    EveryConcat(Conjuncts(l), Conjuncts(r), w);
    ConjunctsMember(l, w);
    ConjunctsMember(r, w);
  }

  lemma ComplementExpMember(e: Exp, w: Word)
    ensures Member(ComplementExp(e), w) <==> !Member(e, w)
  {
  }
}
