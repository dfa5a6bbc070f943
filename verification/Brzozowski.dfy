// Minimization by Brzozowski's algorithm: the determinized automaton of the
// codeterminized automaton (vcsn/algos/minimize-brzozowski.hh,
// vcsn/algos/determinize.hh).
module Brzozowski {
  import opened Words
  import opened Sets
  import opened BoolAutomata
  import opened NamedAutomata
  import opened Subsets
  import opened Determinize

  // ---------------------------------------------------------------------
  // Transposition
  // ---------------------------------------------------------------------

  function Flip(t: Transition<Letter>): Transition<Letter> {
    Transition(t.dst, t.lbl, t.src)
  }

  // The view with reversed transitions.
  function Transpose(a: Aut): Aut {
    Automaton(a.states, a.final, a.initial, set t <- a.transitions :: Flip(t))
  }

  lemma TransposedTransition(a: Aut, t: Transition<Letter>)
    ensures t in Transpose(a).transitions <==> Flip(t) in a.transitions
  {
    assert Flip(Flip(t)) == t;
  }

  lemma TransposedValid(a: Aut)
    requires a.Valid()
    ensures Transpose(a).Valid()
  {
    forall t <- Transpose(a).transitions
      ensures t.src in a.states && t.dst in a.states
    {
      TransposedTransition(a, t);
    }
  }

  lemma InStep(a: Aut, S: set<State>, l: Letter, d: State)
    ensures d in a.Step(S, l) <==> exists s :: s in S && Transition(s, l, d) in a.transitions
  {
    if d in a.Step(S, l) {
      var t :| t in a.transitions && t.src in S && t.lbl == l && t.dst == d;
      assert t == Transition(t.src, l, d);
    }
  }

  lemma {:induction false} RunOfUnion(a: Aut, S: set<State>, w: Word, d: State)
    ensures d in a.Run(S, w) <==> exists s :: s in S && d in a.Run({s}, w)
    decreases |w|
  {
    if w == [] {
      assert forall s :: a.Run({s}, w) == {s};
    } else {
      var l, v := w[0], w[1..];
      RunOfUnion(a, a.Step(S, l), v, d);
      forall s
        ensures d in a.Run({s}, w) <==> exists e :: e in a.Step({s}, l) && d in a.Run({e}, v)
      {
        RunOfUnion(a, a.Step({s}, l), v, d);
      }
      forall e
        ensures e in a.Step(S, l) <==> exists s :: s in S && e in a.Step({s}, l)
      {
        InStep(a, S, l, e);
        forall s
          ensures e in a.Step({s}, l) <==> Transition(s, l, e) in a.transitions
        {
          InStep(a, {s}, l, e);
        }
      }
    }
  }

  lemma RunFirst(a: Aut, s: State, w: Word, d: State)
    requires w != []
    ensures d in a.Run({s}, w) <==> exists e :: Transition(s, w[0], e) in a.transitions && d in a.Run({e}, w[1..])
  {
    RunOfUnion(a, a.Step({s}, w[0]), w[1..], d);
    forall e
      ensures e in a.Step({s}, w[0]) <==> Transition(s, w[0], e) in a.transitions
    {
      InStep(a, {s}, w[0], e);
    }
  }

  lemma RunLast(a: Aut, s: State, u: Word, l: Letter, d: State)
    ensures d in a.Run({s}, u + [l]) <==> exists e :: e in a.Run({s}, u) && Transition(e, l, d) in a.transitions
  {
    RunAppend(a, {s}, u, l);
    InStep(a, a.Run({s}, u), l, d);
  }

  // The paths of the transposed automaton are those of the automaton, read
  // backwards.
  lemma {:induction false} TransposedRun(a: Aut, s: State, w: Word, d: State)
    ensures d in a.Run({s}, w) <==> s in Transpose(a).Run({d}, Reverse(w))
    decreases |w|
  {
    if w != [] {
      var l, v := w[0], w[1..];
      RunFirst(a, s, w, d);
      RunLast(Transpose(a), d, Reverse(v), l, s);
      forall e
        ensures Transition(s, l, e) in a.transitions && d in a.Run({e}, v)
                <==> e in Transpose(a).Run({d}, Reverse(v)) && Transition(e, l, s) in Transpose(a).transitions
      {
        TransposedRun(a, e, v, d);
        TransposedTransition(a, Transition(e, l, s));
      }
    }
  }

  lemma AcceptsByRun(a: Aut, s: State, w: Word)
    ensures a.AcceptsFrom(s, w) <==> exists f :: f in a.final && f in a.Run({s}, w)
  {
    RunAccepts(a, {s}, w, []);
    assert w + [] == w;
    assert a.AcceptsFrom(s, w) <==> AcceptsAny(a, {s}, w);
    FinalAccepts(a, a.Run({s}, w));
    assert a.Run({s}, w) * a.final != {} <==> exists f :: f in a.Run({s}, w) * a.final;
  }

  // A word is accepted from s when, backwards, it leads to s in the transposed
  // automaton.
  lemma AcceptsBackwards(a: Aut, s: State, w: Word)
    ensures Transpose(a).AcceptsFrom(s, w) <==> s in a.Run(a.initial, Reverse(w))
  {
    AcceptsByRun(Transpose(a), s, w);
    RunOfUnion(a, a.initial, Reverse(w), s);
    forall f
      ensures f in Transpose(a).Run({s}, w) <==> s in a.Run({f}, Reverse(w))
    {
      TransposedRun(a, f, Reverse(w), s);
      ReverseTwice(w);
    }
  }

  lemma TransposedLanguage(a: Aut, w: Word)
    ensures Transpose(a).Accepts(w) <==> a.Accepts(Reverse(w))
  {
    forall s
      ensures Transpose(a).AcceptsFrom(s, w) <==> s in a.Run(a.initial, Reverse(w))
    {
      AcceptsBackwards(a, s, w);
    }
    RunAccepts(a, a.initial, Reverse(w), []);
    assert Reverse(w) + [] == Reverse(w);
    FinalAccepts(a, a.Run(a.initial, Reverse(w)));
    assert a.Accepts(Reverse(w)) <==> AcceptsAny(a, a.initial, Reverse(w));
    assert a.Run(a.initial, Reverse(w)) * a.final != {}
           <==> exists s :: s in a.Run(a.initial, Reverse(w)) * a.final;
  }

  lemma TransposedSame(a: Aut, b: Aut)
    requires SameLanguage(a, b)
    ensures SameLanguage(Transpose(a), Transpose(b))
  {
    forall w: Word
      ensures Transpose(a).Accepts(w) <==> Transpose(b).Accepts(w)
    {
      TransposedLanguage(a, w);
      TransposedLanguage(b, w);
    }
  }

  lemma TransposedTwice(a: Aut)
    ensures Transpose(Transpose(a)) == a
  {
    forall t
      ensures t in Transpose(Transpose(a)).transitions <==> t in a.transitions
    {
      TransposedTransition(Transpose(a), t);
      TransposedTransition(a, Flip(t));
    }
  }

  // ---------------------------------------------------------------------
  // Codeterminization
  // ---------------------------------------------------------------------

  // Each state accepts a word that no other state accepts.
  ghost predicate Separated(a: Aut) {
    forall s <- a.states :: exists w: Word :: Separates(a, s, w)
  }

  ghost predicate Separates(a: Aut, s: State, w: Word) {
    forall s' :: a.AcceptsFrom(s', w) <==> s' == s
  }

  lemma CodeterminizedSeparated(a: Aut, d: Aut, names: map<State, set<State>>)
    requires Determinized(a, d, names)
    ensures Separated(Transpose(d))
  {
    forall s <- d.states
      ensures exists w: Word :: Separates(Transpose(d), s, w)
    {
      var u := ReachedAlone(a, d, names, s);
      forall s'
        ensures Transpose(d).AcceptsFrom(s', Reverse(u)) <==> s' == s
      {
        AcceptsBackwards(d, s', Reverse(u));
        ReverseTwice(u);
      }
      assert Separates(Transpose(d), s, Reverse(u));
    }
  }

  // Returns also the sets of states of a that the states of res stand for.
  method Codeterminize(a: Aut) returns (res: Aut, ghost names: map<State, set<State>>)
    requires a.Valid()
    ensures Determinized(Transpose(a), Transpose(res), names)
    ensures res.Valid() && SameLanguage(a, res)
    ensures Deterministic(Transpose(res)) && Separated(res)
  {
    TransposedValid(a);
    var d;
    d, names := Determinization(Transpose(a));
    TransposedValid(d);
    TransposedSame(Transpose(a), d);
    TransposedTwice(a);
    TransposedTwice(d);
    CodeterminizedSeparated(Transpose(a), d, names);
    res := Transpose(d);
  }

  // ---------------------------------------------------------------------
  // Minimality
  // ---------------------------------------------------------------------

  // Two different states do not accept the same words.
  ghost predicate Distinguished(a: Aut) {
    forall s, s' | s in a.states && s' in a.states && s != s' ::
      exists w: Word :: a.AcceptsFrom(s, w) != a.AcceptsFrom(s', w)
  }

  // Each state is reached by a word, alone, and accepts a word.
  ghost predicate Trim(a: Aut) {
    forall s <- a.states :: Useful(a, s)
  }

  ghost predicate Useful(a: Aut, s: State) {
    && (exists u: Word :: a.Run(a.initial, u) == {s})
    && exists v: Word :: a.AcceptsFrom(s, v)
  }

  lemma DistinguishedNames(a: Aut, r: Aut, names: map<State, set<State>>, q: State, q': State, s: State)
    requires Determinized(a, r, names) && Separated(a)
    requires q in names && q' in names && s in names[q] && s !in names[q']
    ensures exists w: Word :: r.AcceptsFrom(q, w) && !r.AcceptsFrom(q', w)
  {
    assert s in a.states;
    var w :| Separates(a, s, w);
    SubsetAccepts(a, r, names, q, w);
    SubsetAccepts(a, r, names, q', w);
    assert AcceptsAny(a, names[q], w);
  }

  lemma SeparatedDistinguished(a: Aut, r: Aut, names: map<State, set<State>>)
    requires Determinized(a, r, names) && Separated(a)
    ensures Distinguished(r)
  {
    forall q, q' | q in r.states && q' in r.states && q != q'
      ensures exists w: Word :: r.AcceptsFrom(q, w) != r.AcceptsFrom(q', w)
    {
      assert names[q] != names[q'];
      if s :| s in names[q] && s !in names[q'] {
        DistinguishedNames(a, r, names, q, q', s);
      } else {
        var s :| s in names[q'] && s !in names[q];
        DistinguishedNames(a, r, names, q', q, s);
      }
    }
  }

  lemma SeparatedTrim(a: Aut, r: Aut, names: map<State, set<State>>)
    requires Determinized(a, r, names) && Separated(a)
    ensures Trim(r)
  {
    forall q <- r.states
      ensures Useful(r, q)
    {
      var u := ReachedAlone(a, r, names, q);
      var s :| s in names[q];
      assert s in a.states;
      var w :| Separates(a, s, w);
      SubsetAccepts(a, r, names, q, w);
      assert AcceptsAny(a, names[q], w);
    }
  }

  // What q accepts is accepted by the only state of m that the same word
  // reaches.
  ghost predicate SameFutures(r: Aut, q: State, m: Aut, t: State) {
    t in m.states && forall w: Word :: r.AcceptsFrom(q, w) <==> m.AcceptsFrom(t, w)
  }

  lemma {:induction false} RunInside(a: Aut, S: set<State>, w: Word)
    requires a.Valid() && S <= a.states
    ensures a.Run(S, w) <= a.states
    decreases |w|
  {
    if w != [] {
      RunInside(a, a.Step(S, w[0]), w[1..]);
    }
  }

  lemma Match(r: Aut, q: State, m: Aut) returns (t: State)
    requires Useful(r, q) && m.Valid() && Deterministic(m) && AtMostOne(m.initial) && SameLanguage(r, m)
    ensures SameFutures(r, q, m, t)
  {
    var u: Word :| r.Run(r.initial, u) == {q};
    var v: Word :| r.AcceptsFrom(q, v);
    DeterministicRun(m, m.initial, u);
    RunInside(m, m.initial, u);
    RunAccepts(r, r.initial, u, v);
    RunAccepts(m, m.initial, u, v);
    assert AcceptsAny(r, {q}, v);
    assert r.Accepts(u + v) && m.Accepts(u + v);
    t :| t in m.Run(m.initial, u) && m.AcceptsFrom(t, v);
    forall w: Word
      ensures r.AcceptsFrom(q, w) <==> m.AcceptsFrom(t, w)
    {
      RunAccepts(r, r.initial, u, w);
      RunAccepts(m, m.initial, u, w);
      assert AcceptsAny(r, {q}, w) <==> r.AcceptsFrom(q, w);
      assert AcceptsAny(m, m.Run(m.initial, u), w) <==> m.AcceptsFrom(t, w);
      assert r.Accepts(u + w) <==> m.Accepts(u + w);
    }
  }

  lemma SameState(r: Aut, m: Aut, q: State, q': State, t: State)
    requires Distinguished(r) && q in r.states && q' in r.states
    requires SameFutures(r, q, m, t) && SameFutures(r, q', m, t)
    ensures q == q'
  {
  }

  ghost predicate MatchedBy(r: Aut, m: Aut, Q: set<State>, t: State) {
    exists q :: q in Q && SameFutures(r, q, m, t)
  }

  lemma NotMatched(r: Aut, m: Aut, Q: set<State>, q: State, t: State)
    requires Distinguished(r) && Q <= r.states && q in r.states && q !in Q && SameFutures(r, q, m, t)
    ensures !MatchedBy(r, m, Q, t)
  {
    if MatchedBy(r, m, Q, t) {
      var q' :| q' in Q && SameFutures(r, q', m, t);
      SameState(r, m, q, q', t);
    }
  }

  lemma MatchedByMore(r: Aut, m: Aut, Q: set<State>, Q': set<State>, t: State)
    requires Q <= Q' && MatchedBy(r, m, Q, t)
    ensures MatchedBy(r, m, Q', t)
  {
  }

  // As many different states are found in m.
  lemma {:induction false} Injection(r: Aut, m: Aut, Q: set<State>) returns (T: set<State>)
    requires Trim(r) && Distinguished(r) && Q <= r.states
    requires m.Valid() && Deterministic(m) && AtMostOne(m.initial) && SameLanguage(r, m)
    ensures T <= m.states && |T| == |Q|
    ensures forall t <- T :: MatchedBy(r, m, Q, t)
    decreases |Q|
  {
    if Q == {} {
      T := {};
    } else {
      var q :| q in Q;
      var t := Match(r, q, m);
      var T' := Injection(r, m, Q - {q});
      NotMatched(r, m, Q - {q}, q, t);
      forall t' <- T'
        ensures MatchedBy(r, m, Q, t')
      {
        MatchedByMore(r, m, Q - {q}, Q, t');
      }
      assert MatchedBy(r, m, Q, t);
      OneMoreEach(Q, q, T', t);
      T := T' + {t};
    }
  }

  // A trim automaton whose states accept different languages is not larger
  // than a deterministic automaton with the same language.
  lemma NoneSmaller(r: Aut, m: Aut)
    requires Trim(r) && Distinguished(r)
    requires m.Valid() && Deterministic(m) && AtMostOne(m.initial) && SameLanguage(r, m)
    ensures |r.states| <= |m.states|
  {
    var T := Injection(r, m, r.states);
    SubsetSize(T, m.states);
  }

  lemma SingleInitial(a: Aut)
    requires |a.initial| <= 1
    ensures AtMostOne(a.initial)
  {
    forall s, t | s in a.initial && t in a.initial
      ensures s == t
    {
      SubsetSize({s, t}, a.initial);
    }
  }

  // The deterministic automaton for the language with the fewest states.  Its
  // states stand for sets of those of the codeterminized automaton c.
  method Minimize(a: Aut) returns (res: Aut, ghost c: Aut, ghost classes: map<State, set<State>>,
                                   ghost names: map<State, set<State>>)
    requires a.Valid()
    ensures Determinized(Transpose(a), Transpose(c), classes) && Determinized(c, res, names)
    ensures res.Valid() && SameLanguage(a, res)
    ensures Deterministic(res) && |res.initial| <= 1
    ensures Trim(res) && Distinguished(res)
    ensures forall m: Aut | m.Valid() && Deterministic(m) && |m.initial| <= 1 && SameLanguage(a, m) ::
              |res.states| <= |m.states|
  {
    var d;
    d, classes := Codeterminize(a);
    c := d;
    res, names := Determinization(d);
    SeparatedTrim(c, res, names);
    SeparatedDistinguished(c, res, names);
    forall m: Aut | m.Valid() && Deterministic(m) && |m.initial| <= 1 && SameLanguage(a, m)
      ensures |res.states| <= |m.states|
    {
      SingleInitial(m);
      NoneSmaller(res, m);
    }
  }
}
