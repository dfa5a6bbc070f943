// Automata over a free labelset with weights in the field of the reals.
module RealAutomata {
  import opened Linear
  import opened Representations

  type State = nat

  datatype Edge = Edge(src: State, lbl: Letter, dst: State)

  // Weights are stored for the transitions that exist.  The transitions from
  // pre and to post are given by the initial and final weights.
  datatype Automaton = Automaton(
    states: seq<State>,
    initial: map<State, real>,
    final: map<State, real>,
    transitions: map<Edge, real>)
  {
    ghost predicate Valid() {
      && (forall i, j | 0 <= i < j < |states| :: states[i] != states[j])
      && (forall s <- initial :: s in states && initial[s] != 0.0)
      && (forall s <- final :: s in states && final[s] != 0.0)
      && (forall e <- transitions :: e.src in states && e.dst in states && transitions[e] != 0.0)
    }

    // Absent transitions have the null weight.
    function InitialWeight(s: State): real {
      if s in initial then initial[s] else 0.0
    }

    function FinalWeight(s: State): real {
      if s in final then final[s] else 0.0
    }

    function TransitionWeight(s: State, l: Letter, t: State): real {
      if Edge(s, l, t) in transitions then transitions[Edge(s, l, t)] else 0.0
    }

    function InitialVector(): (v: Vec)
      ensures |v| == |states| && forall i {:trigger v[i]} | 0 <= i < |states| :: v[i] == InitialWeight(states[i])
    {
      seq(|states|, i requires 0 <= i < |states| => InitialWeight(states[i]))
    }

    function FinalVector(): (v: Vec)
      ensures |v| == |states| && forall i {:trigger v[i]} | 0 <= i < |states| :: v[i] == FinalWeight(states[i])
    {
      seq(|states|, i requires 0 <= i < |states| => FinalWeight(states[i]))
    }

    // The weights of the transitions from s labelled l, by destination.
    function Row(s: State, l: Letter): (v: Vec)
      ensures |v| == |states| && forall j {:trigger v[j]} | 0 <= j < |states| ::
                v[j] == TransitionWeight(s, l, states[j])
    {
      seq(|states|, j requires 0 <= j < |states| => TransitionWeight(s, l, states[j]))
    }

    // For each state, the sum over the runs labelled w from that state to a
    // final one of the products of their weights.
    function Futures(w: seq<Letter>): (v: Vec)
      ensures |v| == |states|
      decreases |w|
    {
      if w == [] then FinalVector() else Before(w[0], Futures(w[1..]))
    }

    // What each state gives to a word that starts with l, when f is what the states
    // give to its rest.
    function Before(l: Letter, f: Vec): (v: Vec)
      requires |f| == |states|
      ensures |v| == |states| && forall i {:trigger v[i]} | 0 <= i < |states| :: v[i] == Dot(Row(states[i], l), f)
    {
      seq(|states|, i requires 0 <= i < |states| => Dot(Row(states[i], l), f))
    }

    // The weight of a word: the sum over its accepting runs.
    function Weight(w: seq<Letter>): real {
      Dot(InitialVector(), Futures(w))
    }

    // The labels met on the transitions.
    function Labels(): set<Letter> {
      set e <- transitions :: e.lbl
    }

    function Matrix(l: Letter): (m: seq<Vec>)
      ensures |m| == |states| && Rows(m, |states|)
      ensures forall i {:trigger m[i]} | 0 <= i < |states| :: m[i] == Row(states[i], l)
    {
      seq(|states|, i requires 0 <= i < |states| => Row(states[i], l))
    }
  }

  ghost predicate Equivalent(a: Automaton, b: Automaton) {
    forall w: seq<Letter> :: a.Weight(w) == b.Weight(w)
  }

  // The linear representation of an automaton.
  function RepOf(a: Automaton): (r: Rep)
    ensures r.Valid() && r.dim == |a.states|
  {
    Rep(|a.states|, a.InitialVector(), a.FinalVector(), map l | l in a.Labels() :: a.Matrix(l))
  }

  lemma RepMat(a: Automaton, l: Letter)
    ensures RepOf(a).Mat(l) == a.Matrix(l)
  {
    if l !in a.Labels() {
      forall i | 0 <= i < |a.states|
        ensures a.Row(a.states[i], l) == Zero(|a.states|)
      {
        forall j | 0 <= j < |a.states|
          ensures a.TransitionWeight(a.states[i], l, a.states[j]) == 0.0
        {
          assert Edge(a.states[i], l, a.states[j]).lbl == l;
        }
      }
    }
  }

  lemma {:induction false} FuturesAreColumns(a: Automaton, w: seq<Letter>)
    ensures a.Futures(w) == Column(RepOf(a), w)
    decreases |w|
  {
    if w != [] {
      FuturesAreColumns(a, w[1..]);
      RepMat(a, w[0]);
    }
  }

  // An automaton and its linear representation have the same series.
  lemma RepSeries(a: Automaton, w: seq<Letter>)
    ensures a.Weight(w) == RepOf(a).Series(w)
  {
    FuturesAreColumns(a, w);
    OutIsColumn(RepOf(a), RepOf(a).init, w);
  }

  // ---------------------------------------------------------------------
  // Evaluation of a word (vcsn/algos/evaluate.hh)
  // ---------------------------------------------------------------------

  // The letters are read forward, and only the reached states are advanced.
  method Evaluate(a: Automaton, word: seq<Letter>) returns (res: real)
    ensures res == a.Weight(word)
  {
    ghost var rep := RepOf(a);
    var v1 := a.InitialVector();
    for k := 0 to |word|
      invariant |v1| == |a.states|
      invariant rep.Out(v1, word[k..]) == rep.Series(word)
    {
      var v2 := Advance(a, v1, word[k]);
      AdvanceOut(a, v1, v2, word, k);
      v1 := v2;
    }
    assert word[|word|..] == [];
    res := FinalSum(a, v1);
    RepSeries(a, word);
  }

  // The sum of the weights of the states by their final weights.
  method FinalSum(a: Automaton, v1: Vec) returns (res: real)
    requires |v1| == |a.states|
    ensures res == RepOf(a).Out(v1, [])
  {
    ghost var f := a.FinalVector();
    res := 0.0;
    for s := 0 to |a.states|
      invariant res == DotTo(v1, f, s)
    {
      assert f[s] == a.FinalWeight(a.states[s]);
      res := res + v1[s] * a.FinalWeight(a.states[s]);
    }
  }

  // After one more letter, what remains is read from the new weights.
  lemma AdvanceOut(a: Automaton, v1: Vec, v2: Vec, word: seq<Letter>, k: nat)
    requires |v1| == |a.states| && k < |word| && v2 == Comb(v1, a.Matrix(word[k]), |a.states|)
    ensures RepOf(a).Out(v1, word[k..]) == RepOf(a).Out(v2, word[k + 1..])
  {
    RepMat(a, word[k]);
    assert word[k..][1..] == word[k + 1..];
  }

  lemma NullRow(v: Vec, row: Vec)
    requires |v| == |row|
    ensures Axpy(v, 0.0, row) == v
  {
  }

  lemma NextComb(a: Automaton, v: Vec, l: Letter, s: nat)
    requires |v| == |a.states| && s < |v|
    ensures var u := CombTo(v, a.Matrix(l), |v|, s);
            CombTo(v, a.Matrix(l), |v|, s + 1) == if v[s] == 0.0 then u else Axpy(u, v[s], a.Row(a.states[s], l))
  {
    NullRow(CombTo(v, a.Matrix(l), |v|, s), a.Matrix(l)[s]);
  }

  // The weights of the states after one more letter.
  method Advance(a: Automaton, v1: Vec, l: Letter) returns (v2: Vec)
    requires |v1| == |a.states|
    ensures v2 == Comb(v1, a.Matrix(l), |a.states|)
  {
    v2 := Zero(|a.states|);
    for s := 0 to |a.states|
      invariant v2 == CombTo(v1, a.Matrix(l), |a.states|, s)
    {
      NextComb(a, v1, l, s);
      if v1[s] != 0.0 {
        v2 := AddRow(a, v2, v1[s], a.states[s], l);
      }
    }
  }

  // Add to v the outgoing transitions of s labelled l, weighted by c.
  method AddRow(a: Automaton, v: Vec, c: real, s: State, l: Letter) returns (r: Vec)
    requires |v| == |a.states|
    ensures r == Axpy(v, c, a.Row(s, l))
  {
    r := v;
    for j := 0 to |a.states|
      invariant |r| == |v|
      invariant forall i | 0 <= i < |v| :: r[i] == if i < j then v[i] + c * a.Row(s, l)[i] else v[i]
    {
      if Edge(s, l, a.states[j]) in a.transitions {
        r := r[j := r[j] + c * a.transitions[Edge(s, l, a.states[j])]];
      }
    }
  }
}
