// Automata with weights in a semiring (vcsn/core/mutable-automaton.hh).  The
// transitions from pre and to post are given by the initial and final weights.
module WeightedAutomata {
  import opened BoolAutomata

  // Null weights are not stored.
  datatype Weighted<L(==), K> = Weighted(
    states: set<State>,
    initial: map<State, K>,
    final: map<State, K>,
    transitions: map<Transition<L>, K>)
  {
    // The automaton without its weights.
    function Support(): Automaton<L> {
      Automaton(states, initial.Keys, final.Keys, transitions.Keys)
    }

    ghost predicate Valid(zero: K) {
      && Support().Valid()
      && (forall s <- initial :: initial[s] != zero)
      && (forall s <- final :: final[s] != zero)
      && (forall t <- transitions :: transitions[t] != zero)
    }
  }

  // What is absent has a null weight.
  function At<X, K>(zero: K, m: map<X, K>, x: X): K {
    if x in m then m[x] else zero
  }
}
