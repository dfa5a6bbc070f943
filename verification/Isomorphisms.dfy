// Isomorphisms of automata, and the search for one when there is one successor
// for each label at most (vcsn/algos/are-isomorphic.hh).
module Isomorphisms {
  import opened Sets
  import opened AllDistances
  import opened PointedAutomata

  type StateMap = map<State, State>

  // Where h sends a transition.
  function Moved<K>(h: StateMap, o: Out<K>): Out<K>
    requires o.dst in h
  {
    o.(dst := h[o.dst])
  }

  ghost predicate Injective(h: StateMap) {
    forall s, t | s in h && t in h && h[s] == h[t] :: s == t
  }

  ghost predicate Bijection<K>(a: Automaton<K>, b: Automaton<K>, h: StateMap) {
    && (forall s :: s in h <==> IsState(a, s))
    && Injective(h)
    && (forall s | s in h :: IsState(b, h[s]))
    && (forall t | IsState(b, t) :: exists s :: s in h && h[s] == t)
  }

  // h preserves pre, post, and the transitions, with their labels and weights.
  ghost predicate Isomorphism<K>(a: Automaton<K>, b: Automaton<K>, h: StateMap) {
    && Bijection(a, b, h) && h[PRE] == PRE && h[POST] == POST
    && forall s | s in h && s in a.out && h[s] in b.out :: SameOuts(a.out[s], b.out[h[s]], h)
  }

  // outs' is outs, moved by h.
  ghost predicate SameOuts<K>(outs: seq<Out<K>>, outs': seq<Out<K>>, h: StateMap) {
    && (forall o <- outs :: o.dst in h && Moved(h, o) in outs')
    && (forall o' <- outs' :: exists o :: o in outs && o.dst in h && Moved(h, o) == o')
  }

  ghost predicate Isomorphic<K>(a: Automaton<K>, b: Automaton<K>) {
    exists h :: Isomorphism(a, b, h)
  }

  ghost predicate Accessible<K(!new)>(a: Automaton<K>) {
    forall s <- a.states :: Reaches(a, PRE, s)
  }

  // One transition at most for each label.
  ghost predicate DifferentLabels<K>(outs: seq<Out<K>>) {
    forall i, j | 0 <= i < j < |outs| :: outs[i].lbl != outs[j].lbl
  }

  ghost predicate Sequential<K>(a: Automaton<K>) {
    forall s <- a.out :: DifferentLabels(a.out[s])
  }

  // ---------------------------------------------------------------------
  // Sizes
  // ---------------------------------------------------------------------

  ghost predicate Onto<A(!new), B(!new)>(s: set<A>, t: set<B>, r: (A, B) -> bool) {
    && (forall x <- s :: exists y :: y in t && r(x, y))
    && (forall y <- t :: exists x :: x in s && r(x, y))
    && (forall x, y, y' | x in s && y in t && y' in t && r(x, y) && r(x, y') :: y == y')
    && (forall x, x', y | x in s && x' in s && y in t && r(x, y) && r(x', y) :: x == x')
  }

  // Related one to one, two sets have one size.
  lemma {:induction false} SameSize<A(!new), B(!new)>(s: set<A>, t: set<B>, r: (A, B) -> bool)
    requires Onto(s, t, r)
    ensures |s| == |t|
    decreases |s|
  {
    if s == {} {
      assert t == {};
    } else {
      var x :| x in s;
      var y :| y in t && r(x, y);
      SmallerOnto(s, t, r, x, y);
      SameSize(s - {x}, t - {y}, r);
    }
  }

  lemma SmallerOnto<A(!new), B(!new)>(s: set<A>, t: set<B>, r: (A, B) -> bool, x: A, y: B)
    requires Onto(s, t, r) && x in s && y in t && r(x, y)
    ensures Onto(s - {x}, t - {y}, r)
  {
    forall x' | x' in s - {x}
      ensures exists y' :: y' in t - {y} && r(x', y')
    {
      var y' :| y' in t && r(x', y');
    }
    forall y' | y' in t - {y}
      ensures exists x' :: x' in s - {x} && r(x', y')
    {
      var x' :| x' in s && r(x', y');
    }
  }

  // The transitions from a state and from its image are as many.
  lemma SameOutsSize<K(!new)>(outs: seq<Out<K>>, outs': seq<Out<K>>, h: StateMap)
    requires SameOuts(outs, outs', h) && Single(outs) && Single(outs')
    requires Injective(h)
    ensures |outs| == |outs'|
  {
    ElementsSize(outs);
    ElementsSize(outs');
    SameSize(Elements(outs), Elements(outs'), (o: Out<K>, o': Out<K>) => o.dst in h && Moved(h, o) == o');
  }

  // The ordinary transitions.
  function Arcs<K(==, !new)>(a: Automaton<K>): set<(State, Out<K>)> {
    set s <- a.states, o | s in a.out && o in a.out[s] && o.dst != POST :: (s, o)
  }

  // They lead from an ordinary state to another.
  lemma ArcsOrdinary<K(!new)>(w: Semiring<K>, a: Automaton<K>, s: State, o: Out<K>)
    requires Valid(w, a)
    ensures (s, o) in Arcs(a) <==> s in a.states && o in a.out[s] && o.dst in a.states
  {
    if s in a.states && o in a.out[s] {
      assert ValidOut(w, a, s, o);
    }
  }

  ghost predicate SameArc<K>(h: StateMap, x: (State, Out<K>), y: (State, Out<K>)) {
    x.0 in h && h[x.0] == y.0 && x.1.dst in h && Moved(h, x.1) == y.1
  }

  lemma ArcForth<K(!new)>(w: Semiring<K>, a: Automaton<K>, b: Automaton<K>, h: StateMap, x: (State, Out<K>))
    requires Valid(w, a) && Valid(w, b) && Isomorphism(a, b, h) && x in Arcs(a)
    ensures exists y :: y in Arcs(b) && SameArc(h, x, y)
  {
    assert SameOuts(a.out[x.0], b.out[h[x.0]], h);
    assert ValidOut(w, a, x.0, x.1);
    var y := (h[x.0], Moved(h, x.1));
    assert y in Arcs(b) && SameArc(h, x, y);
  }

  lemma ArcBack<K(!new)>(w: Semiring<K>, a: Automaton<K>, b: Automaton<K>, h: StateMap, y: (State, Out<K>))
    requires Valid(w, a) && Valid(w, b) && Isomorphism(a, b, h) && y in Arcs(b)
    ensures exists x :: x in Arcs(a) && SameArc(h, x, y)
  {
    assert IsState(b, y.0);
    var s :| s in h && h[s] == y.0;
    assert SameOuts(a.out[s], b.out[h[s]], h);
    var o :| o in a.out[s] && o.dst in h && Moved(h, o) == y.1;
    assert ValidOut(w, a, s, o);
    assert (s, o) in Arcs(a) && SameArc(h, (s, o), y);
  }

  lemma ArcsSize<K(!new)>(s: set<(State, Out<K>)>, t: set<(State, Out<K>)>, h: StateMap)
    requires forall x <- s :: exists y :: y in t && SameArc(h, x, y)
    requires forall y <- t :: exists x :: x in s && SameArc(h, x, y)
    requires Injective(h)
    ensures |s| == |t|
  {
    forall x, x', y | x in s && x' in s && y in t && SameArc(h, x, y) && SameArc(h, x', y)
      ensures x == x'
    {
      MovedApart(h, x, x', y);
    }
    SameSize(s, t, (x: (State, Out<K>), y: (State, Out<K>)) => SameArc(h, x, y));
  }

  lemma SameArcs<K(!new)>(w: Semiring<K>, a: Automaton<K>, b: Automaton<K>, h: StateMap)
    requires Valid(w, a) && Valid(w, b) && Isomorphism(a, b, h)
    ensures |Arcs(a)| == |Arcs(b)|
  {
    forall x | x in Arcs(a)
      ensures exists y :: y in Arcs(b) && SameArc(h, x, y)
    {
      ArcForth(w, a, b, h, x);
    }
    forall y | y in Arcs(b)
      ensures exists x :: x in Arcs(a) && SameArc(h, x, y)
    {
      ArcBack(w, a, b, h, y);
    }
    ArcsSize(Arcs(a), Arcs(b), h);
  }

  lemma MovedApart<K(!new)>(h: StateMap, x: (State, Out<K>), x': (State, Out<K>), y: (State, Out<K>))
    requires Injective(h)
    requires SameArc(h, x, y) && SameArc(h, x', y)
    ensures x == x'
  {
    assert x.1.lbl == x'.1.lbl && x.1.weight == x'.1.weight && x.1.dst == x'.1.dst;
  }

  lemma StateForth<K(!new)>(a: Automaton<K>, b: Automaton<K>, h: StateMap, s: State)
    requires ValidStates(a) && ValidStates(b) && Isomorphism(a, b, h) && s in a.states
    ensures s in h && h[s] in b.states
  {
    assert IsState(a, s) && s > POST && s in h && IsState(b, h[s]);
  }

  lemma StateBack<K(!new)>(a: Automaton<K>, b: Automaton<K>, h: StateMap, t: State) returns (s: State)
    requires ValidStates(a) && ValidStates(b) && Isomorphism(a, b, h) && t in b.states
    ensures s in h && h[s] == t && s in a.states
  {
    assert IsState(b, t) && t > POST;
    s :| s in h && h[s] == t;
  }

  lemma SameStates<K(!new)>(a: Automaton<K>, b: Automaton<K>, h: StateMap)
    requires ValidStates(a) && ValidStates(b) && Isomorphism(a, b, h)
    ensures |a.states| == |b.states|
  {
    ElementsSize(a.states);
    ElementsSize(b.states);
    var r := (s: State, t: State) => s in h && h[s] == t;
    forall s | s in Elements(a.states)
      ensures exists t :: t in Elements(b.states) && r(s, t)
    {
      StateForth(a, b, h, s);
      assert r(s, h[s]);
    }
    forall t | t in Elements(b.states)
      ensures exists s :: s in Elements(a.states) && r(s, t)
    {
      var s := StateBack(a, b, h, t);
      assert r(s, t);
    }
    SameSize(Elements(a.states), Elements(b.states), r);
  }

  predicate TriviallyDifferent<K(==, !new)>(a: Automaton<K>, b: Automaton<K>) {
    |a.states| != |b.states| || |Arcs(a)| != |Arcs(b)|
  }
}
