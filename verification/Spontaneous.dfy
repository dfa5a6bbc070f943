// Spontaneous and proper transitions.
module Spontaneous {
  import opened Wrappers
  import opened BoolAutomata

  // Whether the label is the neutral one, if the labelset has one.
  predicate IsOne<L(==)>(one: Option<L>, l: L) {
    one == Some(l)
  }

  // All transitions to s are proper.
  predicate ProperIn<L>(a: Automaton<L>, one: Option<L>, s: State) {
    forall t <- a.transitions :: t.dst == s ==> !IsOne(one, t.lbl)
  }

  predicate SpontaneousIn<L>(a: Automaton<L>, one: Option<L>, s: State) {
    s !in a.initial && forall t <- a.transitions :: t.dst == s ==> IsOne(one, t.lbl)
  }

  // Some transition from s is proper, be it to post.
  predicate ProperOut<L>(a: Automaton<L>, one: Option<L>, s: State) {
    s in a.final || exists t <- a.transitions :: t.src == s && !IsOne(one, t.lbl)
  }

  // Each state has only proper, or only spontaneous, incoming transitions,
  // and initial states have proper ones.
  ghost predicate Split<L>(a: Automaton<L>, one: Option<L>) {
    forall s <- a.states :: ProperIn(a, one, s) || SpontaneousIn(a, one, s)
  }

  // The transitions that leave s.
  function Out<L>(a: Automaton<L>, s: State): set<Transition<L>> {
    set t <- a.transitions | t.src == s
  }
}
