// Two-sided reduction, and the decision of equivalence over a field
// (vcsn/algos/reduce.hh, vcsn/algos/are-equivalent.hh).
module FieldEquivalence {
  import opened Representations
  import opened RealAutomata
  import opened Reduce
  import opened RealOperations

  // ---------------------------------------------------------------------
  // Transposition of automata
  // ---------------------------------------------------------------------

  function Flip(e: Edge): Edge {
    Edge(e.dst, e.lbl, e.src)
  }

  // The view with reversed transitions.
  function TransposeAutomaton(a: Automaton): Automaton {
    Automaton(a.states, a.final, a.initial,
              map e <- (set f <- a.transitions :: Flip(f)) :: a.transitions[Flip(e)])
  }

  lemma TransposedEdge(a: Automaton, e: Edge)
    ensures e in TransposeAutomaton(a).transitions <==> Flip(e) in a.transitions
    ensures Flip(e) in a.transitions ==> TransposeAutomaton(a).transitions[e] == a.transitions[Flip(e)]
  {
    assert Flip(Flip(e)) == e;
  }

  lemma TransposedValid(a: Automaton)
    requires a.Valid()
    ensures TransposeAutomaton(a).Valid()
  {
    var t := TransposeAutomaton(a);
    forall e <- t.transitions
      ensures e.src in t.states && e.dst in t.states && t.transitions[e] != 0.0
    {
      TransposedEdge(a, e);
      var f := Flip(e);
      assert f in a.transitions;
    }
  }

  lemma TransposedLabels(a: Automaton)
    ensures TransposeAutomaton(a).Labels() == a.Labels()
  {
    var t := TransposeAutomaton(a);
    forall l
      ensures l in t.Labels() <==> l in a.Labels()
    {
      if l in t.Labels() {
        var e :| e in t.transitions && e.lbl == l;
        TransposedEdge(a, e);
        assert Flip(e) in a.transitions && Flip(e).lbl == l;
      }
      if l in a.Labels() {
        var e :| e in a.transitions && e.lbl == l;
        TransposedEdge(a, Flip(e));
        assert Flip(e) in t.transitions && Flip(e).lbl == l;
      }
    }
  }

  lemma TransposedMatrix(a: Automaton, l: Letter)
    ensures TransposeAutomaton(a).Matrix(l) == TransposeMat(a.Matrix(l), |a.states|)
  {
    var t := TransposeAutomaton(a);
    forall i, j | 0 <= i < |a.states| && 0 <= j < |a.states|
      ensures t.Matrix(l)[i][j] == TransposeMat(a.Matrix(l), |a.states|)[i][j]
    {
      TransposedEdge(a, Edge(a.states[i], l, a.states[j]));
    }
    forall i | 0 <= i < |a.states|
      ensures t.Matrix(l)[i] == TransposeMat(a.Matrix(l), |a.states|)[i]
    {
    }
  }

  // Transposing commutes with taking the linear representation.
  lemma TransposedRep(a: Automaton)
    ensures RepOf(TransposeAutomaton(a)) == Transpose(RepOf(a))
  {
    var t := TransposeAutomaton(a);
    TransposedLabels(a);
    assert t.InitialVector() == a.FinalVector();
    assert t.FinalVector() == a.InitialVector();
    forall l <- a.Labels()
      ensures RepOf(t).mu[l] == Transpose(RepOf(a)).mu[l]
    {
      TransposedMatrix(a, l);
    }
    assert RepOf(t).mu == Transpose(RepOf(a)).mu;
  }

  // ---------------------------------------------------------------------
  // Reduction
  // ---------------------------------------------------------------------

  // res is input reduced on one side, then on the other.
  ghost predicate ReducedSides(input: Automaton, res: Automaton) {
    exists left :: LeftReduced(TransposeAutomaton(input), left) && LeftReduced(TransposeAutomaton(left), res)
  }

  // Said of what equals res, so as to be looked into only where needed.
  ghost predicate ReducedTwice(input: Automaton, res: Automaton) {
    forall r | r == res :: ReducedSides(input, r)
  }

  // An equivalent automaton with a minimal number of states.
  method ReduceBothSides(input: Automaton) returns (res: Automaton)
    requires input.Valid()
    ensures res.Valid() && Equivalent(res, input)
    ensures forall other: Automaton | Equivalent(other, input) :: |res.states| <= |other.states|
    ensures ReducedTwice(input, res)
  {
    TransposedValid(input);
    TransposedRep(input);
    var left, leftBasis := LeftReduce(TransposeAutomaton(input));
    TransposedValid(left);
    TransposedRep(left);
    ghost var basis;
    res, basis := LeftReduce(TransposeAutomaton(left));
    assert LeftReduced(TransposeAutomaton(input), left) && LeftReduced(TransposeAutomaton(left), res);
    assert ReducedSides(input, res);
    TwoSidedReduction(RepOf(input), RepOf(left), leftBasis, RepOf(res), basis);
    forall w: seq<Letter>
      ensures res.Weight(w) == input.Weight(w)
    {
      RepSeries(res, w);
      RepSeries(input, w);
    }
    forall other: Automaton | Equivalent(other, input)
      ensures |res.states| <= |other.states|
    {
      MinimalReduction(res, input, other);
    }
  }

  lemma MinimalReduction(res: Automaton, input: Automaton, other: Automaton)
    requires RepOf(res).SameSeries(RepOf(input))
    requires Full(RepOf(res)) && Observable(RepOf(res))
    requires Equivalent(other, input)
    ensures |res.states| <= |other.states|
  {
    forall w: seq<Letter>
      ensures RepOf(res).Series(w) == RepOf(other).Series(w)
    {
      assert RepOf(res).Series(w) == RepOf(input).Series(w);
      assert other.Weight(w) == input.Weight(w);
      RepSeries(input, w);
      RepSeries(other, w);
    }
    FullObservableMinimal(RepOf(res), RepOf(other));
  }

  // ---------------------------------------------------------------------
  // Equivalence
  // ---------------------------------------------------------------------

  const NoStates := Automaton([], map[], map[], map[])

  // Without states every weight is null.
  lemma EmptyIsNull(w: seq<Letter>)
    ensures NoStates.Weight(w) == 0.0
  {
  }

  // The difference is null iff the automata are equivalent.
  lemma DifferenceWeight(a1: Automaton, a2: Automaton, w: seq<Letter>)
    requires a2.Valid()
    ensures AddAutomata(a1, LeftWeight(-1.0, a2)).Weight(w) == a1.Weight(w) - a2.Weight(w)
  {
    LeftWeightSeries(-1.0, a2, w);
    SumSeries(a1, LeftWeight(-1.0, a2), w);
  }

  // Whether two realtime automata over a field give the same weights.
  method AreEquivalent(a1: Automaton, a2: Automaton) returns (r: bool)
    requires a1.Valid() && a2.Valid()
    ensures r <==> Equivalent(a1, a2)
  {
    LeftWeightValid(-1.0, a2);
    SumValid(a1, LeftWeight(-1.0, a2));
    var d := AddAutomata(a1, LeftWeight(-1.0, a2));
    var reduced := ReduceBothSides(d);
    r := |reduced.states| == 0;
    if r {
      NullDifference(a1, a2, d, reduced);
    }
    if Equivalent(a1, a2) {
      NoDifference(a1, a2, d);
    }
  }

  lemma NullDifference(a1: Automaton, a2: Automaton, d: Automaton, reduced: Automaton)
    requires a1.Valid() && a2.Valid() && d == AddAutomata(a1, LeftWeight(-1.0, a2))
    requires Equivalent(reduced, d) && |reduced.states| == 0
    ensures Equivalent(a1, a2)
  {
    forall w: seq<Letter>
      ensures a1.Weight(w) == a2.Weight(w)
    {
      StatelessIsNull(reduced, w);
      assert reduced.Weight(w) == d.Weight(w);
      DifferenceWeight(a1, a2, w);
    }
  }

  lemma NoDifference(a1: Automaton, a2: Automaton, d: Automaton)
    requires a1.Valid() && a2.Valid() && d == AddAutomata(a1, LeftWeight(-1.0, a2)) && Equivalent(a1, a2)
    ensures Equivalent(NoStates, d)
  {
    forall w: seq<Letter>
      ensures NoStates.Weight(w) == d.Weight(w)
    {
      EmptyIsNull(w);
      DifferenceWeight(a1, a2, w);
    }
  }

  lemma StatelessIsNull(a: Automaton, w: seq<Letter>)
    requires |a.states| == 0
    ensures a.Weight(w) == 0.0
  {
  }
}
