// The derived-term automaton of an expression, via derivation
// (vcsn/algos/derived-term.hh, vcsn/core/expression-automaton.hh).
module DerivedTerm {
  import opened Expressions
  import opened Derivations
  import opened NamedAutomata
  import opened Sets
  import B = BoolAutomata

  type State = B.State
  type Automaton = B.Automaton<Letter>
  type ExpBuild = Build<Exp, Letter>

  // The labels of the polynomial that become states: with option
  // "deterministic" its sum only, even when it is null.
  function Targets(e: Exp, l: Letter, determinize: bool): seq<Exp> {
    if determinize then [ToLabel(Derivation(e, l))] else Derivation(e, l)
  }

  // A transition with a null weight is not added.
  predicate Linkable(e: Exp, l: Letter, determinize: bool) {
    determinize ==> Derivation(e, l) != []
  }

  // The transitions that are promised.
  predicate Arc(gens: seq<Letter>, determinize: bool, e: Exp, l: Letter, m: Exp) {
    l in gens && m in Targets(e, l, determinize) && Linkable(e, l, determinize)
  }

  // The terms contain all that is derived from them.
  ghost predicate ClosedTerms(terms: set<Exp>, gens: seq<Letter>, determinize: bool) {
    forall e: Exp, l: Letter, m: Exp | e in terms && l in gens && m in Targets(e, l, determinize) :: m in terms
  }

  // Deriving e by the letters of w, one after the other, may lead to m.
  ghost predicate DerivesTo(gens: seq<Letter>, determinize: bool, e: Exp, w: Word, m: Exp)
    decreases |w|
  {
    if w == [] then m == e
    else exists d :: DerivesVia(gens, determinize, e, w, d) && DerivesTo(gens, determinize, d, w[1..], m)
  }

  ghost predicate DerivesVia(gens: seq<Letter>, determinize: bool, e: Exp, w: Word, d: Exp)
    requires w != []
  {
    w[0] in gens && d in Targets(e, w[0], determinize)
  }

  lemma {:induction false} DerivesMore(gens: seq<Letter>, determinize: bool, e: Exp, w: Word, d: Exp, l: Letter, m: Exp)
    requires DerivesTo(gens, determinize, e, w, d) && l in gens && m in Targets(d, l, determinize)
    ensures DerivesTo(gens, determinize, e, w + [l], m)
    decreases |w|
  {
    if w == [] {
      assert DerivesVia(gens, determinize, e, [l], m);
      assert [l][1..] == [] && DerivesTo(gens, determinize, m, [], m);
    } else {
      var f :| DerivesVia(gens, determinize, e, w, f) && DerivesTo(gens, determinize, f, w[1..], d);
      DerivesMore(gens, determinize, f, w[1..], d, l, m);
      assert (w + [l])[1..] == w[1..] + [l];
      assert DerivesVia(gens, determinize, e, w + [l], f);
    }
  }

  ghost predicate Derivable(gens: seq<Letter>, determinize: bool, exp: Exp, m: Exp) {
    exists w: Word :: DerivesTo(gens, determinize, exp, w, m)
  }

  // The expressions are derived from exp.
  ghost predicate AllDerivable(gens: seq<Letter>, determinize: bool, exp: Exp, names: set<Exp>) {
    forall m <- names :: Derivable(gens, determinize, exp, m)
  }

  // What is derived from the processed expressions is named.
  ghost predicate AllNamed(gens: seq<Letter>, determinize: bool, names: set<Exp>, processed: set<Exp>) {
    forall e: Exp, l: Letter, m: Exp | e in processed && l in gens && m in Targets(e, l, determinize) :: m in names
  }

  // The links are the arcs of the processed expressions, and these are final
  // according to their constant terms.
  ghost predicate Complete(gens: seq<Letter>, determinize: bool, links: set<Link<Exp, Letter>>, finals: set<Exp>,
                           processed: set<Exp>) {
    && (forall x <- links :: x.src in processed && Arc(gens, determinize, x.src, x.lbl, x.dst))
    && (forall e: Exp, l: Letter, m: Exp | e in processed && Arc(gens, determinize, e, l, m) :: Link(e, l, m) in links)
    && (forall e :: e in finals <==> e in processed && ConstantTerm(e))
  }

  // ---------------------------------------------------------------------
  // What is accepted
  // ---------------------------------------------------------------------

  ghost predicate Over(w: Word, gens: seq<Letter>) {
    forall i | 0 <= i < |w| :: w[i] in gens
  }

  lemma AnyOf(p: seq<Exp>, m: Exp, w: Word)
    requires m in p && Member(m, w)
    ensures Any(p, w)
  {
    var i :| 0 <= i < |p| && p[i] == m;
    assert Member(p[i], w);
  }

  lemma ArcQuotient(gens: seq<Letter>, determinize: bool, e: Exp, a: Letter, w: Word)
    requires a in gens
    ensures (exists m :: Arc(gens, determinize, e, a, m) && Member(m, w)) <==> Member(e, [a] + w)
  {
    var p := Derivation(e, a);
    DerivationQuotient(e, a, w);
    AddToMember(Zero, p, w);
    if Any(p, w) {
      var i :| 0 <= i < |p| && Member(p[i], w);
      assert Arc(gens, determinize, e, a, if determinize then ToLabel(p) else p[i]);
    }
    if exists m :: Arc(gens, determinize, e, a, m) && Member(m, w) {
      var m :| Arc(gens, determinize, e, a, m) && Member(m, w);
      if !determinize {
        AnyOf(p, m, w);
      }
    }
  }

  // Once all was processed, each state accepts the words of its expression.
  lemma {:induction false} AcceptsWords(b: ExpBuild, gens: seq<Letter>, determinize: bool, e: Exp, w: Word)
    requires Sound(b) && Complete(gens, determinize, b.links, b.finals, b.left.Keys)
    requires e in b.left && Over(w, gens)
    ensures b.aut.AcceptsFrom(b.left[e], w) <==> Member(e, w)
    decreases |w|
  {
    AcceptsByName(b, e, w);
    if w == [] {
      ConstantTermMember(e);
    } else {
      var a, v := w[0], w[1..];
      assert w == [a] + v;
      ArcQuotient(gens, determinize, e, a, v);
      forall m | m in b.left
        ensures b.aut.AcceptsFrom(b.left[m], v) <==> Member(m, v)
      {
        AcceptsWords(b, gens, determinize, m, v);
      }
      LinksInside(b);
      if Member(e, w) {
        var m :| Arc(gens, determinize, e, a, m) && Member(m, v);
        assert Link(e, a, m) in b.links;
        assert Follows(b, e, w, m);
      }
      if b.aut.AcceptsFrom(b.left[e], w) {
        var m :| Follows(b, e, w, m);
        assert Arc(gens, determinize, e, a, m) && Member(m, v);
      }
    }
  }

  lemma LinksInside(b: ExpBuild)
    requires Sound(b)
    ensures forall x <- b.links :: x.dst in b.left
  {
    assert Consistent(b);
  }

  // ---------------------------------------------------------------------
  // Construction
  // ---------------------------------------------------------------------

  ghost function AddLinks(b: ExpBuild, src: Exp, l: Letter, dsts: seq<Exp>, weight: bool): (c: ExpBuild)
    requires src in b.left
    ensures src in c.left
    decreases |dsts|
  {
    if dsts == [] then b else AddLinks(AddLink(b, src, l, dsts[0], weight), src, l, dsts[1..], weight)
  }

  lemma NextLink(b: ExpBuild, src: Exp, l: Letter, p: seq<Exp>, j: nat)
    requires src in b.left && j < |p|
    ensures AddLinks(b, src, l, p[j..], true) == AddLinks(AddLink(b, src, l, p[j], true), src, l, p[j + 1..], true)
  {
    assert p[j..][1..] == p[j + 1..];
  }

  lemma FirstLinked(src: Exp, l: Letter, dsts: seq<Exp>)
    requires dsts != []
    ensures (set m <- dsts) == {dsts[0]} + set m <- dsts[1..]
    ensures (set m <- dsts :: Link(src, l, m)) == {Link(src, l, dsts[0])} + set m <- dsts[1..] :: Link(src, l, m)
  {
    assert dsts == [dsts[0]] + dsts[1..];
  }

  lemma {:induction false} AddLinksSound(b: ExpBuild, src: Exp, l: Letter, dsts: seq<Exp>, weight: bool)
    requires Sound(b) && src in b.left
    ensures AddsLinks(b, AddLinks(b, src, l, dsts, weight),
                      if weight then (set m <- dsts :: Link(src, l, m)) else {}, set m <- dsts)
    decreases |dsts|
  {
    if dsts != [] {
      AddLinkSound(b, src, l, dsts[0], weight);
      AddLinksSound(AddLink(b, src, l, dsts[0], weight), src, l, dsts[1..], weight);
      FirstLinked(src, l, dsts);
    }
  }

  ghost function AddLetter(b: ExpBuild, src: Exp, l: Letter, determinize: bool): (c: ExpBuild)
    requires src in b.left
    ensures src in c.left
  {
    AddLinks(b, src, l, Targets(src, l, determinize), Linkable(src, l, determinize))
  }

  // The transitions of src for the letters from the i-th on.
  ghost function AddLetters(b: ExpBuild, src: Exp, gens: seq<Letter>, determinize: bool, i: nat): (c: ExpBuild)
    requires src in b.left && i <= |gens|
    ensures src in c.left
    decreases |gens| - i
  {
    if i == |gens| then b else AddLetters(AddLetter(b, src, gens[i], determinize), src, gens, determinize, i + 1)
  }

  ghost function ArcsFor(src: Exp, l: Letter, determinize: bool): set<Link<Exp, Letter>> {
    if Linkable(src, l, determinize) then set m <- Targets(src, l, determinize) :: Link(src, l, m) else {}
  }

  // The links to be made from src.
  ghost function ArcsFrom(gens: seq<Letter>, determinize: bool, src: Exp, i: nat): set<Link<Exp, Letter>>
    requires i <= |gens|
    decreases |gens| - i
  {
    if i == |gens| then {}
    else ArcsFor(src, gens[i], determinize) + ArcsFrom(gens, determinize, src, i + 1)
  }

  // What is derived from src is to be named.
  ghost function TargetsFrom(gens: seq<Letter>, determinize: bool, src: Exp, i: nat): set<Exp>
    requires i <= |gens|
    decreases |gens| - i
  {
    if i == |gens| then {}
    else (set m <- Targets(src, gens[i], determinize)) + TargetsFrom(gens, determinize, src, i + 1)
  }

  // The links x and the names y were added.
  ghost predicate AddsLinks(b: ExpBuild, c: ExpBuild, x: set<Link<Exp, Letter>>, y: set<Exp>) {
    Sound(c) && Grows(b, c) && c.left.Keys == b.left.Keys + y && c.links == b.links + x
  }

  // Said of what equals c, so as to be looked into only where needed.
  ghost predicate Adds(b: ExpBuild, c: ExpBuild, x: set<Link<Exp, Letter>>, y: set<Exp>) {
    forall d | d == c :: AddsLinks(b, d, x, y)
  }

  ghost predicate Ready(b: ExpBuild, src: Exp) {
    Sound(b) && src in b.left
  }

  lemma AddLetterSound(b: ExpBuild, src: Exp, l: Letter, determinize: bool)
    requires Ready(b, src)
    ensures var c := AddLetter(b, src, l, determinize);
            Ready(c, src) && Adds(b, c, ArcsFor(src, l, determinize), set m <- Targets(src, l, determinize))
  {
    AddLinksSound(b, src, l, Targets(src, l, determinize), Linkable(src, l, determinize));
  }

  lemma AddsTwice(b: ExpBuild, c: ExpBuild, d: ExpBuild, x: set<Link<Exp, Letter>>, x': set<Link<Exp, Letter>>,
                  y: set<Exp>, y': set<Exp>)
    requires Adds(b, c, x, y) && Adds(c, d, x', y')
    ensures Adds(b, d, x + x', y + y')
  {
    assert AddsLinks(b, c, x, y) && AddsLinks(c, d, x', y');
    assert AddsLinks(b, d, x + x', y + y');
  }

  lemma AddsNone(b: ExpBuild, src: Exp)
    requires Ready(b, src)
    ensures Adds(b, b, {}, {})
  {
    assert b.links + {} == b.links && b.left.Keys + {} == b.left.Keys;
  }

  lemma {:induction false} AddLettersSound(b: ExpBuild, src: Exp, gens: seq<Letter>, determinize: bool, i: nat)
    requires i <= |gens| && Ready(b, src)
    ensures Adds(b, AddLetters(b, src, gens, determinize, i), ArcsFrom(gens, determinize, src, i),
                 TargetsFrom(gens, determinize, src, i))
    decreases |gens| - i
  {
    if i < |gens| {
      var c := AddLetter(b, src, gens[i], determinize);
      AddLetterSound(b, src, gens[i], determinize);
      AddLettersSound(c, src, gens, determinize, i + 1);
      AddsTwice(b, c, AddLetters(c, src, gens, determinize, i + 1),
                ArcsFor(src, gens[i], determinize), ArcsFrom(gens, determinize, src, i + 1),
                (set m <- Targets(src, gens[i], determinize)), TargetsFrom(gens, determinize, src, i + 1));
    } else {
      AddsNone(b, src);
    }
  }

  lemma {:induction false} TargetsFromLetter(gens: seq<Letter>, determinize: bool, src: Exp, i: nat, m: Exp)
    requires i <= |gens|
    ensures m in TargetsFrom(gens, determinize, src, i)
            <==> exists l: Letter :: l in gens[i..] && m in Targets(src, l, determinize)
    decreases |gens| - i
  {
    if i < |gens| {
      TargetsFromLetter(gens, determinize, src, i + 1, m);
      assert gens[i..] == [gens[i]] + gens[i + 1..];
    }
  }

  lemma {:induction false} ArcsFromArc(gens: seq<Letter>, determinize: bool, src: Exp, i: nat, x: Link<Exp, Letter>)
    requires i <= |gens|
    ensures x in ArcsFrom(gens, determinize, src, i)
            <==> x.src == src && Arc(gens[i..], determinize, src, x.lbl, x.dst)
    decreases |gens| - i
  {
    if i < |gens| {
      ArcsFromArc(gens, determinize, src, i + 1, x);
      assert gens[i..] == [gens[i]] + gens[i + 1..];
    }
  }

  // Process src: make it final, and add its transitions.
  ghost function Process(b: ExpBuild, src: Exp, gens: seq<Letter>, determinize: bool): ExpBuild
    requires src in b.left
  {
    AddLetters(Finalize(b, src, ConstantTerm(src)), src, gens, determinize, 0)
  }

  lemma CompleteMore(gens: seq<Letter>, determinize: bool, links: set<Link<Exp, Letter>>, finals: set<Exp>,
                     processed: set<Exp>, e: Exp)
    requires Complete(gens, determinize, links, finals, processed) && e !in processed
    ensures Complete(gens, determinize, links + ArcsFrom(gens, determinize, e, 0),
                     if ConstantTerm(e) then finals + {e} else finals, processed + {e})
  {
    assert gens[0..] == gens;
    forall x: Link<Exp, Letter>
      ensures x in ArcsFrom(gens, determinize, e, 0) <==> x.src == e && Arc(gens, determinize, e, x.lbl, x.dst)
    {
      ArcsFromArc(gens, determinize, e, 0, x);
    }
  }

  // What a turn of the loop keeps.
  ghost predicate Building(b: ExpBuild, gens: seq<Letter>, determinize: bool, exp: Exp, terms: set<Exp>) {
    && Sound(b)
    && Complete(gens, determinize, b.links, b.finals, b.processed)
    && AllDerivable(gens, determinize, exp, b.left.Keys) && AllNamed(gens, determinize, b.left.Keys, b.processed)
    && b.left.Keys <= terms && exp in b.left && b.aut.initial == {b.left[exp]}
  }

  // Said of what equals b, so as to be looked into only where needed.
  ghost predicate Underway(b: ExpBuild, gens: seq<Letter>, determinize: bool, exp: Exp, terms: set<Exp>) {
    forall c | c == b :: Building(c, gens, determinize, exp, terms)
  }

  // The expressions that are named once src was processed.
  lemma NamesMore(gens: seq<Letter>, determinize: bool, exp: Exp, names: set<Exp>, processed: set<Exp>, src: Exp,
                  terms: set<Exp>)
    requires AllDerivable(gens, determinize, exp, names) && AllNamed(gens, determinize, names, processed)
    requires src in names && names <= terms && ClosedTerms(terms, gens, determinize)
    ensures var more := names + TargetsFrom(gens, determinize, src, 0);
            && AllDerivable(gens, determinize, exp, more) && AllNamed(gens, determinize, more, processed + {src})
            && more <= terms
  {
    assert gens[0..] == gens;
    var w: Word :| DerivesTo(gens, determinize, exp, w, src);
    forall m
      ensures m in TargetsFrom(gens, determinize, src, 0)
              <==> exists l: Letter :: l in gens && m in Targets(src, l, determinize)
    {
      TargetsFromLetter(gens, determinize, src, 0, m);
    }
    forall m <- TargetsFrom(gens, determinize, src, 0)
      ensures Derivable(gens, determinize, exp, m)
    {
      var l: Letter :| l in gens && m in Targets(src, l, determinize);
      DerivesMore(gens, determinize, exp, w, src, l, m);
    }
  }

  lemma ProcessKeeps(b: ExpBuild, gens: seq<Letter>, determinize: bool, exp: Exp, terms: set<Exp>, i: nat)
    requires Underway(b, gens, determinize, exp, terms) && ClosedTerms(terms, gens, determinize) && i < |b.todo|
    ensures b.todo[i].1 in b.left && b.left[b.todo[i].1] == b.todo[i].0
    ensures b.todo[i].1 !in b.processed && b.todo[i].1 in terms
    ensures var c := Process(Take(b, i), b.todo[i].1, gens, determinize);
            Underway(c, gens, determinize, exp, terms) && c.processed == b.processed + {b.todo[i].1}
  {
    var src := b.todo[i].1;
    assert Building(b, gens, determinize, exp, terms);
    TakeSound(b, i);
    FinalizeSound(Take(b, i), src, ConstantTerm(src));
    var c := Finalize(Take(b, i), src, ConstantTerm(src));
    AddLettersSound(c, src, gens, determinize, 0);
    assert AddsLinks(c, AddLetters(c, src, gens, determinize, 0), ArcsFrom(gens, determinize, src, 0),
                     TargetsFrom(gens, determinize, src, 0));
    CompleteMore(gens, determinize, b.links, b.finals, b.processed, src);
    NamesMore(gens, determinize, exp, b.left.Keys, b.processed, src, terms);
  }

  lemma InitialBuilding(exp: Exp, gens: seq<Letter>, determinize: bool, terms: set<Exp>)
    requires exp in terms
    ensures Underway(Initialize(Start<Exp, Letter>(), exp), gens, determinize, exp, terms)
  {
    StartSound<Exp, Letter>();
    InitializeSound(Start<Exp, Letter>(), exp);
    assert DerivesTo(gens, determinize, exp, [], exp);
  }

  // ---------------------------------------------------------------------
  // What the construction promises
  // ---------------------------------------------------------------------

  // The transitions by l from e: to each of its derived terms, or to the sum
  // of them all, unless there are none.
  ghost predicate Leads(gens: seq<Letter>, determinize: bool, e: Exp, l: Letter, m: Exp) {
    l in gens && if determinize then Derivation(e, l) != [] && m == ToLabel(Derivation(e, l)) else m in Derivation(e, l)
  }

  // The states stand for what may be derived from exp, and for nothing else.
  ghost predicate NamesTerms(names: map<State, Exp>, exp: Exp, gens: seq<Letter>, determinize: bool) {
    && (forall q, q' | q in names && q' in names && names[q] == names[q'] :: q == q')
    && (forall m :: m in names.Values <==> Derivable(gens, determinize, exp, m))
  }

  // The automaton whose states are so named.
  ghost predicate DerivedBy(aut: Automaton, names: map<State, Exp>, exp: Exp, gens: seq<Letter>, determinize: bool) {
    && aut.states == names.Keys
    && (exists q :: aut.initial == {q} && q in names && names[q] == exp)
    && (forall q :: q in aut.final <==> q in names && Member(names[q], []))
    && (forall q, l: Letter, r :: B.Transition(q, l, r) in aut.transitions
                          <==> q in names && r in names && Leads(gens, determinize, names[q], l, names[r]))
  }

  ghost predicate Derived(aut: Automaton, names: map<State, Exp>, exp: Exp, gens: seq<Letter>, determinize: bool,
                          terms: set<Exp>) {
    && NamesTerms(names, exp, gens, determinize) && DerivedBy(aut, names, exp, gens, determinize)
    && aut.Valid()
    && (forall w: Word | Over(w, gens) :: aut.Accepts(w) <==> Member(exp, w))
    && (determinize ==> Deterministic(aut) && |aut.initial| == 1)
    && |aut.states| <= |terms|
  }

  lemma {:induction false} DerivableNamed(gens: seq<Letter>, determinize: bool, names: set<Exp>, e: Exp, w: Word,
                                          m: Exp)
    requires AllNamed(gens, determinize, names, names) && e in names && DerivesTo(gens, determinize, e, w, m)
    ensures m in names
    decreases |w|
  {
    if w != [] {
      var d :| DerivesVia(gens, determinize, e, w, d) && DerivesTo(gens, determinize, d, w[1..], m);
      DerivableNamed(gens, determinize, names, d, w[1..], m);
    }
  }

  lemma TermsNamed(b: ExpBuild, gens: seq<Letter>, determinize: bool, exp: Exp)
    requires Bimap(b.left, b.right) && exp in b.left
    requires AllDerivable(gens, determinize, exp, b.left.Keys)
    requires AllNamed(gens, determinize, b.left.Keys, b.left.Keys)
    ensures NamesTerms(b.right, exp, gens, determinize)
  {
    forall q, q' | q in b.right && q' in b.right && b.right[q] == b.right[q']
      ensures q == q'
    {
      assert b.left[b.right[q]] == q && b.left[b.right[q']] == q';
    }
    forall m
      ensures m in b.right.Values <==> Derivable(gens, determinize, exp, m)
    {
      if m in b.right.Values {
        var q :| q in b.right && b.right[q] == m;
        assert m in b.left.Keys;
      }
      if Derivable(gens, determinize, exp, m) {
        var w: Word :| DerivesTo(gens, determinize, exp, w, m);
        DerivableNamed(gens, determinize, b.left.Keys, exp, w, m);
        assert b.right[b.left[m]] == m;
      }
    }
  }

  lemma TransitionsNamed(b: ExpBuild, gens: seq<Letter>, determinize: bool, q: State, l: Letter, r: State)
    requires Bimap(b.left, b.right) && Linked(b) && Complete(gens, determinize, b.links, b.finals, b.left.Keys)
    ensures B.Transition(q, l, r) in b.aut.transitions
            <==> q in b.right && r in b.right && Leads(gens, determinize, b.right[q], l, b.right[r])
  {
    var t := B.Transition(q, l, r);
    if t in b.aut.transitions {
      assert Link(b.right[t.src], t.lbl, b.right[t.dst]) in b.links;
    }
    if q in b.right && r in b.right && Leads(gens, determinize, b.right[q], l, b.right[r]) {
      assert Arc(gens, determinize, b.right[q], l, b.right[r]);
      assert Link(b.right[q], l, b.right[r]) in b.links;
      assert b.left[b.right[q]] == q && b.left[b.right[r]] == r;
    }
  }

  lemma FinalsNamed(b: ExpBuild, gens: seq<Letter>, determinize: bool, q: State)
    requires Bimap(b.left, b.right) && Finals(b) && Complete(gens, determinize, b.links, b.finals, b.left.Keys)
    ensures q in b.aut.final <==> q in b.right && Member(b.right[q], [])
  {
    if q in b.right {
      ConstantTermMember(b.right[q]);
      assert b.left[b.right[q]] == q;
    }
  }

  lemma DerivedStates(b: ExpBuild, gens: seq<Letter>, determinize: bool, exp: Exp, terms: set<Exp>)
    requires Underway(b, gens, determinize, exp, terms) && b.processed == b.left.Keys
    ensures NamesTerms(b.right, exp, gens, determinize) && DerivedBy(b.aut, b.right, exp, gens, determinize)
  {
    assert Building(b, gens, determinize, exp, terms);
    assert Consistent(b);
    TermsNamed(b, gens, determinize, exp);
    assert b.right[b.left[exp]] == exp;
    forall q
      ensures q in b.aut.final <==> q in b.right && Member(b.right[q], [])
    {
      FinalsNamed(b, gens, determinize, q);
    }
    forall q, l: Letter, r
      ensures B.Transition(q, l, r) in b.aut.transitions
              <==> q in b.right && r in b.right && Leads(gens, determinize, b.right[q], l, b.right[r])
    {
      TransitionsNamed(b, gens, determinize, q, l, r);
    }
  }

  lemma DerivedAtEnd(b: ExpBuild, gens: seq<Letter>, determinize: bool, exp: Exp, terms: set<Exp>)
    requires Underway(b, gens, determinize, exp, terms) && b.todo == []
    ensures Derived(b.aut, b.right, exp, gens, determinize, terms)
  {
    assert Building(b, gens, determinize, exp, terms);
    NothingTodo(b);
    DerivedStates(b, gens, determinize, exp, terms);
    SoundValid(b);
    StatesNumber(b);
    SubsetSize(b.left.Keys, terms);
    if determinize {
      DeterministicByName(b);
    }
    forall w: Word | Over(w, gens)
      ensures b.aut.Accepts(w) <==> Member(exp, w)
    {
      AcceptsWords(b, gens, determinize, exp, w);
    }
  }

  // The construction of the derived-term automaton.
  class DerivedTermAutomaton {
    const gens: seq<Letter>
    const determinize: bool
    const aut: NamedAutomaton<Exp, Letter>

    constructor (gens: seq<Letter>, determinize: bool)
      ensures this.gens == gens && this.determinize == determinize
      ensures fresh(aut) && aut.Snapshot() == Start()
    {
      this.gens, this.determinize := gens, determinize;
      aut := new NamedAutomaton();
    }

    // Compute the automaton: the words over the generators that it accepts
    // are those of the expression.  The terms derived from the expression
    // are finitely many, and there is at most one state for each.
    method ViaDerivation(exp: Exp, ghost terms: set<Exp>)
      requires aut.Snapshot() == Start()
      requires exp in terms && ClosedTerms(terms, gens, determinize)
      modifies aut
      ensures Derived(aut.aut, aut.right, exp, gens, determinize, terms)
    {
      InitialBuilding(exp, gens, determinize, terms);
      aut.SetInitial(exp);
      while aut.todo != []
        invariant Underway(aut.Snapshot(), gens, determinize, exp, terms)
        decreases terms - aut.processed
      {
        ProcessKeeps(aut.Snapshot(), gens, determinize, exp, terms, |aut.todo| - 1);
        var s, src := aut.PopTop();
        CompleteViaDerivation(s, src);
      }
      DerivedAtEnd(aut.Snapshot(), gens, determinize, exp, terms);
    }

    // Compute the outgoing transitions of the state s, named src.
    method CompleteViaDerivation(s: State, src: Exp)
      requires src in aut.left && s == aut.left[src]
      modifies aut
      ensures aut.Snapshot() == Process(old(aut.Snapshot()), src, gens, determinize)
    {
      var c := ComputeConstantTerm(src);
      aut.SetFinal(s, src, c);
      ghost var b := aut.Snapshot();
      var i := 0;
      while i < |gens|
        invariant i <= |gens| && src in aut.left && s == aut.left[src]
        invariant AddLetters(aut.Snapshot(), src, gens, determinize, i) == AddLetters(b, src, gens, determinize, 0)
      {
        CompleteLetter(s, src, gens[i]);
        i := i + 1;
      }
    }

    method CompleteLetter(s: State, src: Exp, l: Letter)
      requires src in aut.left && s == aut.left[src]
      modifies aut
      ensures src in aut.left && s == aut.left[src]
      ensures aut.Snapshot()
              == AddLinks(old(aut.Snapshot()), src, l, Targets(src, l, determinize), Linkable(src, l, determinize))
    {
      ghost var b := aut.Snapshot();
      var p := Derive(src, l);
      if determinize {
        assert [ToLabel(p)][1..] == [];
        aut.NewTransition(s, src, l, ToLabel(p), p != []);
      } else {
        var j := 0;
        while j < |p|
          invariant j <= |p| && src in aut.left && s == aut.left[src]
          invariant AddLinks(aut.Snapshot(), src, l, p[j..], true) == AddLinks(b, src, l, p, true)
        {
          NextLink(aut.Snapshot(), src, l, p, j);
          aut.NewTransition(s, src, l, p[j], true);
          j := j + 1;
        }
      }
    }
  }
}
