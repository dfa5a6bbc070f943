// What the subset construction is, and promises, for automata with Boolean
// weights over a free labelset (vcsn/algos/determinize.hh).
module Subsets {
  import opened BoolAutomata
  import opened NamedAutomata

  type Word = seq<Letter>
  type Aut = Automaton<Letter>

  // ---------------------------------------------------------------------
  // Runs
  // ---------------------------------------------------------------------

  // The word is accepted from one of the states of S.
  predicate AcceptsAny(a: Aut, S: set<State>, w: Word) {
    exists s <- S :: a.AcceptsFrom(s, w)
  }

  lemma StepAccepts(a: Aut, S: set<State>, w: Word)
    requires w != []
    ensures AcceptsAny(a, S, w) <==> AcceptsAny(a, a.Step(S, w[0]), w[1..])
  {
    if AcceptsAny(a, S, w) {
      var s :| s in S && a.AcceptsFrom(s, w);
      var t :| t in a.transitions && t.src == s && t.lbl == w[0] && a.AcceptsFrom(t.dst, w[1..]);
      assert t.dst in a.Step(S, w[0]);
    }
    if AcceptsAny(a, a.Step(S, w[0]), w[1..]) {
      var d :| d in a.Step(S, w[0]) && a.AcceptsFrom(d, w[1..]);
      var t :| t in a.transitions && t.src in S && t.lbl == w[0] && t.dst == d;
      assert a.AcceptsFrom(t.src, w);
    }
  }

  lemma {:induction false} RunAccepts(a: Aut, S: set<State>, u: Word, v: Word)
    ensures AcceptsAny(a, S, u + v) <==> AcceptsAny(a, a.Run(S, u), v)
    decreases |u|
  {
    if u == [] {
      assert u + v == v;
    } else {
      StepAccepts(a, S, u + v);
      assert (u + v)[1..] == u[1..] + v;
      RunAccepts(a, a.Step(S, u[0]), u[1..], v);
    }
  }

  lemma {:induction false} RunAppend(a: Aut, S: set<State>, u: Word, l: Letter)
    ensures a.Run(S, u + [l]) == a.Step(a.Run(S, u), l)
    decreases |u|
  {
    if u == [] {
      assert ([] + [l])[1..] == [];
    } else {
      assert (u + [l])[1..] == u[1..] + [l];
      RunAppend(a, a.Step(S, u[0]), u[1..], l);
    }
  }

  lemma StepInside(a: Aut, S: set<State>, l: Letter)
    requires a.Valid()
    ensures a.Step(S, l) <= a.states
  {
  }

  ghost predicate SameLanguage(a: Aut, b: Aut) {
    forall w: Word :: a.Accepts(w) <==> b.Accepts(w)
  }

  // ---------------------------------------------------------------------
  // The subset construction
  // ---------------------------------------------------------------------

  ghost predicate Reached(a: Aut, S: set<State>) {
    exists u: Word :: a.Run(a.initial, u) == S
  }

  // The states of res are the nonempty sets of states of a that are reached.
  ghost predicate NamesSubsets(a: Aut, res: Aut, names: map<State, set<State>>) {
    && names.Keys == res.states
    && (forall q <- names :: names[q] != {} && names[q] <= a.states && Reached(a, names[q]))
    && (forall q, q' | q in names && q' in names && names[q] == names[q'] :: q == q')
  }

  ghost predicate Steps(a: Aut, res: Aut, names: map<State, set<State>>, q: State, l: Letter, q': State) {
    && q in names && q' in names
    && names[q'] == a.Step(names[q], l)
    && Transition(q, l, q') in res.transitions
  }

  ghost predicate StepsSubsets(a: Aut, res: Aut, names: map<State, set<State>>) {
    && (forall t <- res.transitions :: Steps(a, res, names, t.src, t.lbl, t.dst))
    && (forall q, l: Letter | q in names && a.Step(names[q], l) != {} :: exists q' :: Steps(a, res, names, q, l, q'))
  }

  ghost predicate EndsSubsets(a: Aut, res: Aut, names: map<State, set<State>>) {
    && (a.initial == {} ==> res.initial == {})
    && (a.initial != {} ==> exists q :: res.initial == {q} && q in names && names[q] == a.initial)
    && res.final <= names.Keys
    && (forall q <- names :: q in res.final <==> names[q] * a.final != {})
  }

  // res is determinized from a.
  ghost predicate Determinized(a: Aut, res: Aut, names: map<State, set<State>>) {
    && NamesSubsets(a, res, names)
    && StepsSubsets(a, res, names)
    && EndsSubsets(a, res, names)
  }

  lemma DeterminizedValid(a: Aut, res: Aut, names: map<State, set<State>>)
    requires Determinized(a, res, names)
    ensures res.Valid() && Deterministic(res) && |res.initial| <= 1
  {
    forall t <- res.transitions
      ensures t.src in res.states && t.dst in res.states
    {
      assert Steps(a, res, names, t.src, t.lbl, t.dst);
    }
    forall t, t' | t in res.transitions && t' in res.transitions && t.src == t'.src && t.lbl == t'.lbl
      ensures t == t'
    {
      assert Steps(a, res, names, t.src, t.lbl, t.dst) && Steps(a, res, names, t'.src, t'.lbl, t'.dst);
    }
  }

  lemma {:induction false} NothingAccepts(a: Aut, w: Word)
    ensures !AcceptsAny(a, {}, w)
  {
  }

  // A state of res accepts what the states in its name accept.
  lemma {:induction false} SubsetAccepts(a: Aut, res: Aut, names: map<State, set<State>>, q: State, w: Word)
    requires Determinized(a, res, names) && q in names
    ensures res.AcceptsFrom(q, w) <==> AcceptsAny(a, names[q], w)
    decreases |w|
  {
    if w == [] {
      FinalAccepts(a, names[q]);
    } else {
      var l, v := w[0], w[1..];
      StepAccepts(a, names[q], w);
      if res.AcceptsFrom(q, w) {
        var t :| t in res.transitions && t.src == q && t.lbl == l && res.AcceptsFrom(t.dst, v);
        assert Steps(a, res, names, t.src, t.lbl, t.dst);
        SubsetAccepts(a, res, names, t.dst, v);
      }
      if AcceptsAny(a, names[q], w) {
        NothingAccepts(a, v);
        var q' :| Steps(a, res, names, q, l, q');
        SubsetAccepts(a, res, names, q', v);
        var t := Transition(q, l, q');
        assert t in res.transitions && t.src == q && t.lbl == l && res.AcceptsFrom(t.dst, v);
      }
    }
  }

  lemma FinalAccepts(a: Aut, S: set<State>)
    ensures AcceptsAny(a, S, []) <==> S * a.final != {}
  {
    if AcceptsAny(a, S, []) {
      var s :| s in S && a.AcceptsFrom(s, []);
      assert s in S * a.final;
    }
    if S * a.final != {} {
      var s :| s in S * a.final;
      assert a.AcceptsFrom(s, []);
    }
  }

  // The language is kept.
  lemma DeterminizedLanguage(a: Aut, res: Aut, names: map<State, set<State>>)
    requires Determinized(a, res, names)
    ensures SameLanguage(a, res)
  {
    forall w: Word
      ensures a.Accepts(w) <==> res.Accepts(w)
    {
      assert a.Accepts(w) <==> AcceptsAny(a, a.initial, w);
      if a.initial == {} {
        NothingAccepts(a, w);
      } else {
        var q :| res.initial == {q} && q in names && names[q] == a.initial;
        SubsetAccepts(a, res, names, q, w);
        assert q in res.initial;
      }
    }
  }

  // ---------------------------------------------------------------------
  // Runs of a deterministic automaton
  // ---------------------------------------------------------------------

  ghost predicate AtMostOne(S: set<State>) {
    forall s, t | s in S && t in S :: s == t
  }

  lemma {:induction false} DeterministicRun(a: Aut, S: set<State>, w: Word)
    requires Deterministic(a) && AtMostOne(S)
    ensures AtMostOne(a.Run(S, w))
    decreases |w|
  {
    if w != [] {
      var T := a.Step(S, w[0]);
      forall d, d' | d in T && d' in T
        ensures d == d'
      {
        var t :| t in a.transitions && t.src in S && t.lbl == w[0] && t.dst == d;
        var t' :| t' in a.transitions && t'.src in S && t'.lbl == w[0] && t'.dst == d';
        assert t == t';
      }
      DeterministicRun(a, T, w[1..]);
    }
  }

  lemma {:induction false} SingletonRun(a: Aut, res: Aut, names: map<State, set<State>>, q: State, u: Word)
    requires Determinized(a, res, names) && q in names && a.Run(names[q], u) != {}
    ensures exists q' :: q' in names && res.Run({q}, u) == {q'} && names[q'] == a.Run(names[q], u)
    decreases |u|
  {
    if u == [] {
      assert res.Run({q}, u) == {q};
    } else {
      if a.Step(names[q], u[0]) == {} {
        EmptyRun(a, u[1..]);
      }
      var p :| Steps(a, res, names, q, u[0], p);
      StepOfSingleton(a, res, names, q, u[0], p);
      SingletonRun(a, res, names, p, u[1..]);
    }
  }

  lemma {:induction false} EmptyRun(a: Aut, u: Word)
    ensures a.Run({}, u) == {}
    decreases |u|
  {
    if u != [] {
      assert a.Step({}, u[0]) == {};
      EmptyRun(a, u[1..]);
    }
  }

  lemma StepOfSingleton(a: Aut, res: Aut, names: map<State, set<State>>, q: State, l: Letter, p: State)
    requires Determinized(a, res, names) && Steps(a, res, names, q, l, p)
    ensures res.Step({q}, l) == {p}
  {
    forall d
      ensures d in res.Step({q}, l) <==> d == p
    {
      if d in res.Step({q}, l) {
        var t :| t in res.transitions && t.src in {q} && t.lbl == l && t.dst == d;
        assert Steps(a, res, names, t.src, t.lbl, t.dst);
      }
    }
  }

  // Each state is reached by a word, alone.
  lemma ReachedAlone(a: Aut, res: Aut, names: map<State, set<State>>, q: State) returns (u: Word)
    requires Determinized(a, res, names) && q in names
    ensures res.Run(res.initial, u) == {q} && a.Run(a.initial, u) == names[q]
  {
    u :| a.Run(a.initial, u) == names[q];
    if a.initial == {} {
      EmptyRun(a, u);
    }
    var i :| res.initial == {i} && i in names && names[i] == a.initial;
    SingletonRun(a, res, names, i, u);
  }
}
