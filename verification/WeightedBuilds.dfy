// Automata under construction whose states are named, with their weights.
module WeightedBuilds {
  import opened BoolAutomata
  import opened NamedAutomata
  import opened WeightedAutomata

  // The weights expected: of states, by name, and of links.
  datatype Weighing<!N, !L, K> = Weighing(initial: N -> K, final: N -> K, link: (N, L, N) -> K)

  ghost predicate WeighsLinks<N(!new), L(!new), K(!new)>(g: Weighing<N, L, K>, b: Build<N, L>,
                                                         transitions: map<Transition<L>, K>) {
    && transitions.Keys == b.aut.transitions
    && forall t <- transitions ::
         && t.src in b.right && t.dst in b.right
         && transitions[t] == g.link(b.right[t.src], t.lbl, b.right[t.dst])
  }

  ghost predicate WeighsStates<N(!new), K(!new)>(f: N -> K, right: map<State, N>, states: set<State>,
                                                 weights: map<State, K>) {
    && weights.Keys == states
    && forall s <- weights :: s in right && weights[s] == f(right[s])
  }

  // a is the automaton of b, with these weights.
  ghost predicate Weighs<N(!new), L(!new), K(!new)>(g: Weighing<N, L, K>, b: Build<N, L>, a: Weighted<L, K>) {
    && a.states == b.aut.states
    && WeighsLinks(g, b, a.transitions)
    && WeighsStates(g.initial, b.right, b.aut.initial, a.initial)
    && WeighsStates(g.final, b.right, b.aut.final, a.final)
  }

  // Said of what equals b, so as to be looked into only where needed.
  ghost predicate WellWeighed<N(!new), L(!new), K(!new)>(g: Weighing<N, L, K>, b: Build<N, L>, a: Weighted<L, K>) {
    forall c | c == b :: Weighs(g, c, a)
  }

  lemma SupportBuilt<N(!new), L(!new), K(!new)>(g: Weighing<N, L, K>, b: Build<N, L>, a: Weighted<L, K>)
    requires WellWeighed(g, b, a)
    ensures a.Support() == b.aut
  {
    assert Weighs(g, b, a);
  }

  // The names of b are kept by c.
  ghost predicate Extends<N, L>(b: Build<N, L>, c: Build<N, L>) {
    forall s <- b.right :: s in c.right && c.right[s] == b.right[s]
  }

  lemma NamesStay<N(!new), L(!new)>(b: Build<N, L>, c: Build<N, L>)
    requires Sound(b) && Sound(c) && b.left.Keys <= c.left.Keys && forall n <- b.left :: c.left[n] == b.left[n]
    ensures Extends(b, c)
  {
    assert Consistent(b) && Consistent(c);
    forall s <- b.right
      ensures s in c.right && c.right[s] == b.right[s]
    {
      assert b.left[b.right[s]] == s == c.left[b.right[s]];
    }
  }

  lemma NamedState<N(!new), L(!new)>(b: Build<N, L>, n: N)
    requires Sound(b) && n in b.left
    ensures b.left[n] in b.right && b.right[b.left[n]] == n
  {
    assert Consistent(b);
  }

  lemma WeighsExtended<N(!new), L(!new), K(!new)>(g: Weighing<N, L, K>, b: Build<N, L>, c: Build<N, L>,
                                                  a: Weighted<L, K>)
    requires WellWeighed(g, b, a) && Extends(b, c)
    requires c.aut == b.aut.(states := c.aut.states)
    ensures WellWeighed(g, c, a.(states := c.aut.states))
  {
    assert Weighs(g, b, a);
  }

  lemma GetWeighed<N(!new), L(!new), K(!new)>(g: Weighing<N, L, K>, b: Build<N, L>, a: Weighted<L, K>, n: N)
    requires Sound(b) && WellWeighed(g, b, a)
    ensures Sound(Get(b, n)) && WellWeighed(g, Get(b, n), a.(states := Get(b, n).aut.states))
    ensures var c := Get(b, n); c.left[n] in c.right && c.right[c.left[n]] == n
  {
    var c := Get(b, n);
    GetSound(b, n);
    NamesStay(b, c);
    NamedState(c, n);
    WeighsExtended(g, b, c, a);
  }

  // What becomes of the weights when one is added, unless it is null.
  function Weigh<X, K(==)>(zero: K, m: map<X, K>, x: X, k: K): map<X, K> {
    if k == zero then m else m[x := k]
  }

  // The transition t gets the weight k.
  lemma TransitionWeighed<N(!new), L(!new), K(!new)>(g: Weighing<N, L, K>, b: Build<N, L>, c: Build<N, L>,
                                                     weights: map<Transition<L>, K>, zero: K, t: Transition<L>, k: K)
    requires WeighsLinks(g, b, weights) && c.right == b.right && t.src in b.right && t.dst in b.right
    requires c.aut.transitions == if k == zero then b.aut.transitions else b.aut.transitions + {t}
    requires k != zero ==> g.link(b.right[t.src], t.lbl, b.right[t.dst]) == k
    ensures WeighsLinks(g, c, Weigh(zero, weights, t, k))
  {
  }

  lemma LinkWeighed<N(!new), L(!new), K(!new)>(g: Weighing<N, L, K>, b: Build<N, L>, a: Weighted<L, K>, zero: K,
                                               src: N, l: L, dst: N, k: K)
    requires Sound(b) && WellWeighed(g, b, a) && src in b.left
    requires k != zero ==> g.link(src, l, dst) == k
    ensures var c := AddLink(b, src, l, dst, k != zero);
            && Sound(c)
            && WellWeighed(g, c, Weighted(c.aut.states, a.initial, a.final,
                                          Weigh(zero, a.transitions, Transition(c.left[src], l, c.left[dst]), k)))
  {
    GetWeighed(g, b, a, dst);
    AddLinkSound(b, src, l, dst, k != zero);
    var c := Get(b, dst);
    NamedState(c, src);
    assert Weighs(g, c, a.(states := c.aut.states));
    TransitionWeighed(g, c, AddLink(b, src, l, dst, k != zero), a.transitions, zero,
      Transition(c.left[src], l, c.left[dst]), k);
  }

  // The state n becomes initial, unless its weight is null.
  ghost function Started<N, L>(b: Build<N, L>, n: N, weight: bool): (c: Build<N, L>)
    ensures n in c.left
  {
    if weight then Initialize(b, n) else Get(b, n)
  }

  lemma InitialWeighed<N(!new), L(!new), K(!new)>(g: Weighing<N, L, K>, b: Build<N, L>, a: Weighted<L, K>, zero: K,
                                                  n: N, k: K)
    requires Sound(b) && WellWeighed(g, b, a) && g.initial(n) == k
    ensures var c := Started(b, n, k != zero);
            && Sound(c)
            && WellWeighed(g, c, Weighted(c.aut.states, Weigh(zero, a.initial, c.left[n], k), a.final, a.transitions))
  {
    GetWeighed(g, b, a, n);
    InitializeSound(b, n);
    var c := Get(b, n);
    assert Weighs(g, c, a.(states := c.aut.states));
  }

  lemma FinalWeighed<N(!new), L(!new), K(!new)>(g: Weighing<N, L, K>, b: Build<N, L>, a: Weighted<L, K>, zero: K,
                                                n: N, k: K)
    requires Sound(b) && WellWeighed(g, b, a) && n in b.left && g.final(n) == k
    ensures var c := Finalize(b, n, k != zero);
            && Sound(c)
            && WellWeighed(g, c, a.(final := Weigh(zero, a.final, c.left[n], k)))
  {
    FinalizeSound(b, n, k != zero);
    NamedState(b, n);
    assert Weighs(g, b, a);
  }

  lemma TakeWeighed<N(!new), L(!new), K(!new)>(g: Weighing<N, L, K>, b: Build<N, L>, c: Build<N, L>, a: Weighted<L, K>)
    requires WellWeighed(g, b, a) && c.aut == b.aut && c.right == b.right
    ensures WellWeighed(g, c, a)
  {
    assert Weighs(g, b, a);
  }

  // ---------------------------------------------------------------------
  // The automaton under construction
  // ---------------------------------------------------------------------

  class WeightedBuild<N(==, !new), L(==, !new), K(==, !new)> {
    const zero: K
    ghost const weighing: Weighing<N, L, K>
    const named: NamedAutomaton<N, L>
    var initial: map<State, K>
    var final: map<State, K>
    var transitions: map<Transition<L>, K>

    function Result(): Weighted<L, K>
      reads this, named
    {
      Weighted(named.aut.states, initial, final, transitions)
    }

    ghost predicate Valid()
      reads this, named
    {
      Sound(named.Snapshot()) && WellWeighed(weighing, named.Snapshot(), Result())
    }

    constructor (zero: K, ghost weighing: Weighing<N, L, K>)
      ensures Valid() && fresh(named) && named.Snapshot() == Start()
      ensures this.zero == zero && this.weighing == weighing
    {
      this.zero, this.weighing := zero, weighing;
      named := new NamedAutomaton();
      initial, final, transitions := map[], map[], map[];
      new;
      StartSound<N, L>();
      assert Weighs(weighing, named.Snapshot(), Result());
    }

    // The state named n has this initial weight.
    method SetInitial(n: N, weight: K)
      requires Valid() && weight == weighing.initial(n)
      modifies this, named
      ensures Valid() && named.Snapshot() == Started(old(named.Snapshot()), n, weight != zero)
    {
      InitialWeighed(weighing, named.Snapshot(), Result(), zero, n, weight);
      if weight == zero {
        var s := named.GetState(n);
      } else {
        named.SetInitial(n);
        initial := initial[named.left[n] := weight];
      }
    }

    // The state s, named n, has this final weight.
    method SetFinal(s: State, ghost n: N, weight: K)
      requires Valid() && n in named.left && s == named.left[n] && weight == weighing.final(n)
      modifies this, named
      ensures Valid() && named.Snapshot() == Finalize(old(named.Snapshot()), n, weight != zero)
    {
      FinalWeighed(weighing, named.Snapshot(), Result(), zero, n, weight);
      named.SetFinal(s, n, weight != zero);
      if weight != zero {
        final := final[s := weight];
      }
    }

    // A transition from the state s, named src, to the state named dst; there
    // must not be one already.
    method NewTransition(s: State, ghost src: N, l: L, dst: N, weight: K)
      requires Valid() && src in named.left && s == named.left[src]
      requires Link(src, l, dst) !in named.links
      requires weight != zero ==> weight == weighing.link(src, l, dst)
      modifies this, named
      ensures Valid() && named.Snapshot() == AddLink(old(named.Snapshot()), src, l, dst, weight != zero)
    {
      LinkWeighed(weighing, named.Snapshot(), Result(), zero, src, l, dst, weight);
      named.NewTransition(s, src, l, dst, weight != zero);
      if weight != zero {
        transitions := transitions[Transition(s, l, named.left[dst]) := weight];
      }
    }

    // Take the first scheduled state.
    method PopFront() returns (s: State, n: N)
      requires Valid() && named.todo != []
      modifies this, named
      ensures Valid() && named.Snapshot() == Take(old(named.Snapshot()), 0) && (s, n) == old(named.todo)[0]
    {
      ghost var before := named.Snapshot();
      TakeSound(before, 0);
      s, n := named.PopFront();
      TakeWeighed(weighing, before, named.Snapshot(), Result());
    }
  }
}
