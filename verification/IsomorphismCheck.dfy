// Whether a bijection between the states of two automata is an isomorphism
// (vcsn/algos/are-isomorphic.hh).
module IsomorphismCheck {
  import opened AllDistances
  import opened PointedAutomata
  import opened Isomorphisms

  type Pairs = seq<(State, State)>

  // f and g are bijections, inverses of each other.
  ghost predicate Mutual<K>(a: Automaton<K>, b: Automaton<K>, f: StateMap, g: StateMap) {
    && (forall s :: s in f <==> IsState(a, s))
    && (forall t :: t in g <==> IsState(b, t))
    && (forall s | s in f :: f[s] in g && g[f[s]] == s)
    && (forall t | t in g :: g[t] in f && f[g[t]] == t)
  }

  lemma MutualBijection<K>(a: Automaton<K>, b: Automaton<K>, f: StateMap, g: StateMap)
    requires Mutual(a, b, f, g)
    ensures Bijection(a, b, f)
  {
    forall t | IsState(b, t)
      ensures exists s :: s in f && f[s] == t
    {
      assert f[g[t]] == t;
    }
  }

  ghost predicate Goes<K>(outs: seq<Out<K>>, outs': seq<Out<K>>, f: StateMap) {
    forall o <- outs :: o.dst in f && Moved(f, o) in outs'
  }

  lemma BothWays<K>(a: Automaton<K>, b: Automaton<K>, f: StateMap, g: StateMap, outs: seq<Out<K>>, outs': seq<Out<K>>)
    requires Mutual(a, b, f, g) && (forall o <- outs :: o.dst in f) && (forall o' <- outs' :: o'.dst in g)
    ensures SameOuts(outs, outs', f) <==> Goes(outs, outs', f) && Goes(outs', outs, g)
  {
    if SameOuts(outs, outs', f) {
      forall o' <- outs'
        ensures Moved(g, o') in outs
      {
        var o :| o in outs && o.dst in f && Moved(f, o) == o';
        assert Moved(g, o') == o;
      }
    }
    if Goes(outs, outs', f) && Goes(outs', outs, g) {
      forall o' <- outs'
        ensures exists o :: o in outs && o.dst in f && Moved(f, o) == o'
      {
        assert Moved(f, Moved(g, o')) == o';
      }
    }
  }

  // The transitions from s and from its image correspond.
  ghost predicate Fits<K>(a: Automaton<K>, b: Automaton<K>, f: StateMap, s: State) {
    && s in f && s in a.out && f[s] in b.out && SameOuts(a.out[s], b.out[f[s]], f)
    && (s == PRE <==> f[s] == PRE) && (s == POST <==> f[s] == POST)
  }

  lemma IsomorphismFits<K>(a: Automaton<K>, b: Automaton<K>, f: StateMap, s: State)
    requires Isomorphism(a, b, f) && s in f && s in a.out && f[s] in b.out
    ensures Fits(a, b, f, s)
  {
    assert IsState(a, PRE) && IsState(a, POST);
  }

  // What is reached from the states that were visited is, or will be.
  ghost predicate Closed<K>(a: Automaton<K>, f: StateMap, marks: set<State>, todo: Pairs) {
    && (forall s <- marks :: s in a.out && forall o <- a.out[s] :: Awaited(f, marks, todo, o.dst))
    && Awaited(f, marks, todo, PRE) && Awaited(f, marks, todo, POST)
  }

  ghost predicate Awaited(f: StateMap, marks: set<State>, todo: Pairs, s: State) {
    s in marks || exists t :: (s, t) in todo
  }

  lemma {:induction false} AllMarked<K(!new)>(a: Automaton<K>, f: StateMap, marks: set<State>, s: State,
                                              p: seq<Out<K>>, d: State)
    requires Closed(a, f, marks, []) && IsPath(a, s, p, d) && s in marks
    ensures d in marks
    decreases |p|
  {
    if p != [] {
      assert Awaited(f, marks, [], p[0].dst);
      AllMarked(a, f, marks, p[0].dst, p[1..], d);
    }
  }

  lemma MarkedIsomorphism<K(!new)>(a: Automaton<K>, b: Automaton<K>, f: StateMap, g: StateMap, marks: set<State>)
    requires Accessible(a) && Mutual(a, b, f, g) && Closed(a, f, marks, []) && forall s <- marks :: Fits(a, b, f, s)
    ensures Isomorphism(a, b, f)
  {
    MutualBijection(a, b, f, g);
    assert Awaited(f, marks, [], PRE) && Awaited(f, marks, [], POST);
    forall s | IsState(a, s)
      ensures Fits(a, b, f, s)
    {
      if s in a.states {
        var p: seq<Out<K>> :| IsPath(a, PRE, p, s);
        AllMarked(a, f, marks, PRE, p, s);
      }
    }
  }

  // The pairs of states, if f is an isomorphism.
  ghost predicate Sound<K>(a: Automaton<K>, b: Automaton<K>, f: StateMap, todo: Pairs) {
    forall p <- todo :: IsState(a, p.0) && IsState(b, p.1) && (Isomorphism(a, b, f) ==> p.0 in f && f[p.0] == p.1)
  }

  // Follow the transitions of a state in its image.
  method Follow<K(==, !new)>(outs: seq<Out<K>>, outs': seq<Out<K>>, f: StateMap, todo0: Pairs, back: bool)
    returns (ok: bool, todo: Pairs)
    requires forall o <- outs :: o.dst in f
    ensures ok <==> Goes(outs, outs', f)
    ensures ok ==> forall p :: p in todo <==> p in todo0 || exists o :: o in outs && p == PairOf(f, o.dst, back)
  {
    todo := todo0;
    for i := 0 to |outs|
      invariant Goes(outs[..i], outs', f)
      invariant forall p :: p in todo <==> p in todo0 || exists o :: o in outs[..i] && p == PairOf(f, o.dst, back)
    {
      var o := outs[i];
      assert outs[..i + 1] == outs[..i] + [o];
      if Moved(f, o) !in outs' {
        return false, todo;
      }
      todo := todo + [PairOf(f, o.dst, back)];
    }
    assert outs[..|outs|] == outs;
    ok := true;
  }

  // The pair for d, whose left state is d unless back.
  function PairOf(f: StateMap, d: State, back: bool): (State, State) {
    var e := if d in f then f[d] else d;
    if back then (e, d) else (d, e)
  }

  // The marks correspond.
  ghost predicate SameMarks(f: StateMap, marks1: set<State>, marks2: set<State>) {
    && (forall s <- marks1 :: s in f && f[s] in marks2)
    && (forall s | s in f && f[s] in marks2 :: s in marks1)
  }

  lemma SameMarksMore(f: StateMap, marks1: set<State>, marks2: set<State>, s: State)
    requires SameMarks(f, marks1, marks2) && s in f && Injective(f)
    ensures SameMarks(f, marks1 + {s}, marks2 + {f[s]})
  {
  }

  ghost predicate AllFit<K>(a: Automaton<K>, b: Automaton<K>, f: StateMap, marks: set<State>) {
    forall s <- marks :: Fits(a, b, f, s)
  }

  // What the check maintains.
  ghost predicate Checking<K>(a: Automaton<K>, b: Automaton<K>, f: StateMap, marks1: set<State>, marks2: set<State>,
                              todo: Pairs) {
    Sound(a, b, f, todo) && SameMarks(f, marks1, marks2) && AllFit(a, b, f, marks1) && Closed(a, f, marks1, todo)
  }

  lemma CheckingStarts<K>(a: Automaton<K>, b: Automaton<K>, f: StateMap, todo: Pairs)
    requires todo == [(PRE, PRE), (POST, POST)]
    ensures Checking(a, b, f, {}, {}, todo)
  {
    assert todo[0] == (PRE, PRE) && todo[1] == (POST, POST);
    assert IsState(a, PRE) && IsState(a, POST);
  }

  lemma OutsKnown<K(!new)>(w: Semiring<K>, a: Automaton<K>, s: State)
    requires Valid(w, a) && IsState(a, s)
    ensures s in a.out && forall o <- a.out[s] :: IsState(a, o.dst)
  {
    forall o <- a.out[s]
      ensures IsState(a, o.dst)
    {
      assert ValidOut(w, a, s, o);
    }
  }

  // The pair was already marked.
  lemma AlreadyMarked<K>(a: Automaton<K>, b: Automaton<K>, f: StateMap, marks1: set<State>, marks2: set<State>,
                         todo: Pairs)
    requires Checking(a, b, f, marks1, marks2, todo) && todo != [] && todo[|todo| - 1].0 in marks1
    ensures Checking(a, b, f, marks1, marks2, todo[..|todo| - 1])
  {
    var p, rest := todo[|todo| - 1], todo[..|todo| - 1];
    assert todo == rest + [p];
    forall s | Awaited(f, marks1, todo, s)
      ensures Awaited(f, marks1, rest, s)
    {
      if s !in marks1 {
        var t :| (s, t) in todo;
        assert (s, t) in rest;
      }
    }
  }

  // The pair fits, and its successors are to be looked at.
  lemma NewlyMarked<K>(a: Automaton<K>, b: Automaton<K>, f: StateMap, g: StateMap, marks1: set<State>,
                       marks2: set<State>, todo: Pairs, todo1: Pairs, todo2: Pairs)
    requires Mutual(a, b, f, g) && Checking(a, b, f, marks1, marks2, todo) && todo != []
    requires var s := todo[|todo| - 1].0;
             && Fits(a, b, f, s) && f[s] == todo[|todo| - 1].1
             && (forall o <- a.out[s] :: IsState(a, o.dst)) && (forall o <- b.out[f[s]] :: IsState(b, o.dst))
             && (forall p :: p in todo1 <==>
                  p in todo[..|todo| - 1] || exists o :: o in a.out[s] && p == PairOf(f, o.dst, false))
             && (forall p :: p in todo2 <==> p in todo1 || exists o :: o in b.out[f[s]] && p == PairOf(g, o.dst, true))
    ensures var s := todo[|todo| - 1].0; Checking(a, b, f, marks1 + {s}, marks2 + {f[s]}, todo2)
  {
    var p, rest := todo[|todo| - 1], todo[..|todo| - 1];
    var s := p.0;
    assert todo == rest + [p];
    MutualBijection(a, b, f, g);
    SameMarksMore(f, marks1, marks2, s);
    MarkedClosed(a, f, marks1, todo, todo1, todo2, s);
    forall q <- todo2
      ensures IsState(a, q.0) && IsState(b, q.1) && (Isomorphism(a, b, f) ==> q.0 in f && f[q.0] == q.1)
    {
      if q in rest {
        assert q in todo;
      } else if q in todo1 {
        var o :| o in a.out[s] && q == PairOf(f, o.dst, false);
      }
    }
  }

  lemma MarkedClosed<K>(a: Automaton<K>, f: StateMap, marks: set<State>, todo: Pairs, todo1: Pairs, todo2: Pairs,
                        s: State)
    requires Closed(a, f, marks, todo) && todo != [] && s == todo[|todo| - 1].0 && s in a.out
    requires (forall p :: p in todo[..|todo| - 1] ==> p in todo1) && (forall p :: p in todo1 ==> p in todo2)
    requires forall o <- a.out[s] :: PairOf(f, o.dst, false) in todo1
    ensures Closed(a, f, marks + {s}, todo2)
  {
    var p, rest := todo[|todo| - 1], todo[..|todo| - 1];
    assert todo == rest + [p];
    forall x | Awaited(f, marks, todo, x)
      ensures Awaited(f, marks + {s}, todo2, x)
    {
      if x !in marks && x != s {
        var t :| (x, t) in todo;
        assert (x, t) in rest;
      }
    }
    forall o <- a.out[s]
      ensures Awaited(f, marks + {s}, todo2, o.dst)
    {
      assert PairOf(f, o.dst, false) in todo2;
    }
  }

  // One pair of states.
  method CheckPair<K(==, !new)>(ghost w: Semiring<K>, a: Automaton<K>, b: Automaton<K>, f: StateMap, g: StateMap,
                                s1: State,
                                s2: State, todo: Pairs) returns (ok: bool, ghost todo1: Pairs, todo2: Pairs)
    requires Valid(w, a) && Valid(w, b) && Mutual(a, b, f, g) && IsState(a, s1) && IsState(b, s2) && f[s1] == s2
    ensures s1 in a.out && s2 in b.out && (ok <==> Fits(a, b, f, s1))
    ensures forall o <- a.out[s1] :: IsState(a, o.dst)
    ensures forall o <- b.out[s2] :: IsState(b, o.dst)
    ensures ok ==> forall p :: p in todo1 <==> p in todo || exists o :: o in a.out[s1] && p == PairOf(f, o.dst, false)
    ensures ok ==> forall p :: p in todo2 <==> p in todo1 || exists o :: o in b.out[s2] && p == PairOf(g, o.dst, true)
  {
    todo1, todo2 := todo, todo;
    OutsKnown(w, a, s1);
    OutsKnown(w, b, s2);
    BothWays(a, b, f, g, a.out[s1], b.out[s2]);
    if (s1 == PRE) != (s2 == PRE) || (s1 == POST) != (s2 == POST) {
      return false, todo1, todo2;
    }
    ok, todo2 := Follow(a.out[s1], b.out[s2], f, todo, false);
    if !ok {
      return;
    }
    todo1 := todo2;
    ok, todo2 := Follow(b.out[s2], a.out[s1], g, todo2, true);
    if !ok {
      return;
    }
    MutualBijection(a, b, f, g);
    FitsSize(w, a, b, f, s1);
    if |a.out[s1]| != |b.out[s2]| {
      ok := false;
    }
  }

  lemma FitsSize<K(!new)>(w: Semiring<K>, a: Automaton<K>, b: Automaton<K>, f: StateMap, s: State)
    requires Valid(w, a) && Valid(w, b) && Bijection(a, b, f) && Fits(a, b, f, s)
    ensures |a.out[s]| == |b.out[f[s]]|
  {
    SameOutsSize(a.out[s], b.out[f[s]], f);
  }

  // Whether f is an isomorphism.
  method IsIsomorphismValid<K(==, !new)>(ghost w: Semiring<K>, a: Automaton<K>, b: Automaton<K>, f: StateMap,
                                         g: StateMap)
    returns (r: bool)
    requires Valid(w, a) && Valid(w, b) && Accessible(a) && Mutual(a, b, f, g)
    ensures r <==> Isomorphism(a, b, f)
  {
    var marks1, marks2: set<State> := {}, {};
    var todo := [(PRE, PRE), (POST, POST)];
    CheckingStarts(a, b, f, todo);
    while todo != []
      invariant Checking(a, b, f, marks1, marks2, todo) && marks1 <= f.Keys
      decreases f.Keys - marks1, |todo|
    {
      var p, rest := todo[|todo| - 1], todo[..|todo| - 1];
      var s1, s2 := p.0, p.1;
      assert p in todo;
      if f[s1] != s2 || g[s2] != s1 {
        return false;
      }
      if s1 in marks1 && s2 in marks2 {
        AlreadyMarked(a, b, f, marks1, marks2, todo);
        todo := rest;
      } else {
        // The marks of two states that correspond always agree.
        assert s1 !in marks1 && s2 !in marks2;
        ghost var todo1;
        var ok, todo2;
        ok, todo1, todo2 := CheckPair(w, a, b, f, g, s1, s2, rest);
        if !ok {
          if Isomorphism(a, b, f) {
            IsomorphismFits(a, b, f, s1);
          }
          return false;
        }
        NewlyMarked(a, b, f, g, marks1, marks2, todo, todo1, todo2);
        assert f.Keys - (marks1 + {s1}) < f.Keys - marks1;
        marks1, marks2, todo := marks1 + {s1}, marks2 + {s2}, todo2;
      }
    }
    MarkedIsomorphism(a, b, f, g, marks1);
    r := true;
  }
}
