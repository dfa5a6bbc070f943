// The weight of a word in an automaton over the reals is the sum over the runs
// that read it.
module RealRuns {
  import opened Wrappers
  import opened BoolAutomata
  import opened WeightedAutomata
  import opened Runs
  import opened RealSemiring
  import D = Linear
  import R = RealAutomata
  import WordRuns

  type Word = seq<Letter>

  // The same automaton.
  function AsWeighted(a: R.Automaton): Weighted<Letter, real> {
    Weighted((set s | s in a.states), a.initial, a.final,
             map e | e in a.transitions :: Transition(e.src, e.lbl, e.dst) := a.transitions[e])
  }

  lemma SameWeights(a: R.Automaton, s: State, l: Letter, d: State)
    ensures At(0.0, AsWeighted(a).transitions, Transition(s, l, d)) == a.TransitionWeight(s, l, d)
  {
    if Transition(s, l, d) in AsWeighted(a).transitions {
      assert R.Edge(s, l, d) in a.transitions;
    }
    if R.Edge(s, l, d) in a.transitions {
      assert Transition(s, l, d) in AsWeighted(a).transitions;
    }
  }

  lemma {:induction false} SameDot(r: seq<real>, f: seq<real>, k: nat)
    requires k <= |r| && k <= |f|
    ensures WordRuns.Dot(Reals(), r, f, k) == D.DotTo(r, f, k)
    decreases k
  {
    if k > 0 {
      SameDot(r, f, k - 1);
    }
  }

  lemma SameRow(a: R.Automaton, s: State, l: Letter)
    ensures WordRuns.Vector(Reals(), AsWeighted(a).transitions, WordRuns.RowOf(a.states, s, l)) == a.Row(s, l)
  {
    forall j | 0 <= j < |a.states|
      ensures WordRuns.Vector(Reals(), AsWeighted(a).transitions, WordRuns.RowOf(a.states, s, l))[j] == a.Row(s, l)[j]
    {
      SameWeights(a, s, l, a.states[j]);
    }
  }

  lemma {:induction false} SameFutures(a: R.Automaton, u: Word)
    ensures WordRuns.Futures(Reals(), AsWeighted(a), a.states, u) == a.Futures(u)
    decreases |u|
  {
    if u != [] {
      SameFutures(a, u[1..]);
      forall i | 0 <= i < |a.states|
        ensures WordRuns.Futures(Reals(), AsWeighted(a), a.states, u)[i] == a.Futures(u)[i]
      {
        SameRow(a, a.states[i], u[0]);
        SameDot(a.Row(a.states[i], u[0]), a.Futures(u[1..]), |a.states|);
      }
    }
  }

  lemma SameInitials(a: R.Automaton)
    ensures WordRuns.Vector(Reals(), AsWeighted(a).initial, a.states) == a.InitialVector()
  {
  }

  lemma SameWeight(a: R.Automaton, u: Word)
    ensures WordRuns.Weight(Reals(), AsWeighted(a), a.states, u) == a.Weight(u)
  {
    SameFutures(a, u);
    SameInitials(a);
    SameDot(a.InitialVector(), a.Futures(u), |a.states|);
  }

  lemma StatesCovered(a: R.Automaton)
    requires a.Valid()
    ensures WordRuns.Covers(AsWeighted(a).Support(), a.states)
  {
  }

  // Whatever the order in which the runs that read u are listed, the weight of
  // u is the sum of their weights.
  lemma WeightIsSumOverRuns(a: R.Automaton, u: Word, rs: seq<Run<Letter>>)
    requires a.Valid() && Lists(AsWeighted(a).Support(), None, u, rs)
    ensures a.Weight(u) == WordWeight(Reals(), AsWeighted(a), rs)
  {
    RealLaws();
    SameWeight(a, u);
    StatesCovered(a);
    WordRuns.SumOverRuns(Reals(), AsWeighted(a), a.states, u, rs);
  }
}
