// Automata with Boolean weights: a transition is present or absent, so the
// map from (source, label, destination) to a nonzero weight is a set.
// The transitions from the pre state and to the post state, which carry the
// special label, are given by the sets of initial and final states.
module BoolAutomata {

  type State = nat
  type Letter = nat

  datatype Transition<L> = Transition(src: State, lbl: L, dst: State)

  datatype Automaton<L(==)> = Automaton(
    states: set<State>,
    initial: set<State>,
    final: set<State>,
    transitions: set<Transition<L>>)
  {
    // Every endpoint is a state of the automaton.
    ghost predicate Valid() {
      && initial <= states
      && final <= states
      && (forall t <- transitions :: t.src in states && t.dst in states)
    }

    // The states reached from S by one transition labelled l.
    function Step(S: set<State>, l: L): set<State> {
      set t | t in transitions && t.src in S && t.lbl == l :: t.dst
    }

    // The states reached from S by the paths labelled w.
    function Run(S: set<State>, w: seq<L>): set<State>
      decreases |w|
    {
      if w == [] then S else Run(Step(S, w[0]), w[1..])
    }

    // The word w is accepted from state s.
    predicate AcceptsFrom(s: State, w: seq<L>)
      decreases |w|
    {
      if w == [] then s in final
      else exists t <- transitions :: t.src == s && t.lbl == w[0] && AcceptsFrom(t.dst, w[1..])
    }

    // The word w is accepted: the series of a Boolean automaton.
    predicate Accepts(w: seq<L>) {
      exists s <- initial :: AcceptsFrom(s, w)
    }
  }

  // The empty automaton over a labelset.
  function Empty<L(==)>(): Automaton<L> {
    Automaton({}, {}, {}, {})
  }
}
