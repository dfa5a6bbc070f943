// Graphs of the ordinary transitions of an automaton, reachability, and
// the strongly connected components (vcsn/algos/scc.hh).
module Graphs {
  import opened Sets

  type State = nat

  // states is the order in which the states are visited, and succ[s] are the
  // destinations of the transitions leaving s, in order, one per transition.
  datatype Graph = Graph(states: seq<State>, succ: map<State, seq<State>>) {
    ghost predicate Valid() {
      forall s <- states :: s in succ && forall t <- succ[s] :: t in states
    }

    predicate Edge(s: State, t: State) {
      s in succ && t in succ[s]
    }
  }

  // p lists the states of a path from s to t, s excepted.
  predicate Walk(g: Graph, s: State, p: seq<State>, t: State)
    decreases |p|
  {
    if p == [] then s == t else g.Edge(s, p[0]) && Walk(g, p[0], p[1..], t)
  }

  ghost predicate Reach(g: Graph, s: State, t: State) {
    exists p: seq<State> :: Walk(g, s, p, t)
  }

  lemma ReachItself(g: Graph, s: State)
    ensures Reach(g, s, s)
  {
    assert Walk(g, s, [], s);
  }

  lemma ReachStep(g: Graph, s: State, t: State)
    requires g.Edge(s, t)
    ensures Reach(g, s, t)
  {
    assert Walk(g, t, [], t);
    assert [t][1..] == [];
    assert Walk(g, s, [t], t);
  }

  lemma {:induction false} WalkTrans(g: Graph, s: State, p: seq<State>, t: State, q: seq<State>, u: State)
    requires Walk(g, s, p, t) && Walk(g, t, q, u)
    ensures Walk(g, s, p + q, u)
    decreases |p|
  {
    if p == [] {
      assert p + q == q;
    } else {
      WalkTrans(g, p[0], p[1..], t, q, u);
      assert (p + q)[1..] == p[1..] + q;
    }
  }

  lemma ReachTrans(g: Graph, s: State, t: State, u: State)
    requires Reach(g, s, t) && Reach(g, t, u)
    ensures Reach(g, s, u)
  {
    var p :| Walk(g, s, p, t);
    var q :| Walk(g, t, q, u);
    WalkTrans(g, s, p, t, q, u);
  }

  ghost predicate Closed(g: Graph, S: set<State>) {
    forall s, t | s in S && g.Edge(s, t) :: t in S
  }

  lemma {:induction false} WalkStays(g: Graph, S: set<State>, s: State, p: seq<State>, t: State)
    requires Closed(g, S) && s in S && Walk(g, s, p, t)
    ensures t in S
    decreases |p|
  {
    if p != [] {
      WalkStays(g, S, p[0], p[1..], t);
    }
  }

  lemma ReachStays(g: Graph, S: set<State>, s: State, t: State)
    requires Closed(g, S) && s in S && Reach(g, s, t)
    ensures t in S
  {
    var p :| Walk(g, s, p, t);
    WalkStays(g, S, s, p, t);
  }

  // ---------------------------------------------------------------------
  // Strongly connected components
  // ---------------------------------------------------------------------

  // All that is in one of the components.
  function Union(comps: seq<set<State>>): (u: set<State>)
    ensures forall i | 0 <= i < |comps| :: comps[i] <= u
  {
    if comps == [] then {} else Union(comps[..|comps| - 1]) + comps[|comps| - 1]
  }

  lemma {:induction false} InUnion(comps: seq<set<State>>, s: State) returns (i: nat)
    requires s in Union(comps)
    ensures i < |comps| && s in comps[i]
  {
    if s in comps[|comps| - 1] {
      i := |comps| - 1;
    } else {
      i := InUnion(comps[..|comps| - 1], s);
    }
  }

  lemma UnionAppend(comps: seq<set<State>>, c: set<State>)
    ensures Union(comps + [c]) == Union(comps) + c
  {
    assert (comps + [c])[..|comps|] == comps;
  }

  // Each pair of states of C is connected both ways.
  ghost predicate StronglyConnected(g: Graph, C: set<State>) {
    forall s, t | s in C && t in C :: Reach(g, s, t)
  }

  // The set emitted as k-th: connected, apart from those emitted before, and
  // with no edge towards what was not emitted yet.
  ghost predicate Emission(g: Graph, comps: seq<set<State>>, k: nat)
    requires k < |comps|
  {
    && comps[k] != {}
    && StronglyConnected(g, comps[k])
    && Union(comps[..k]) !! comps[k]
    && Closed(g, Union(comps[..k + 1]))
  }

  ghost predicate Emissions(g: Graph, comps: seq<set<State>>) {
    forall k | 0 <= k < |comps| :: Emission(g, comps, k)
  }

  lemma EmitMore(g: Graph, comps: seq<set<State>>, c: set<State>)
    requires Emissions(g, comps)
    requires c != {} && StronglyConnected(g, c)
    requires Union(comps) !! c && Closed(g, Union(comps) + c)
    ensures Emissions(g, comps + [c])
    ensures Union(comps + [c]) == Union(comps) + c
  {
    var cs := comps + [c];
    UnionAppend(comps, c);
    forall k | 0 <= k < |cs|
      ensures Emission(g, cs, k)
    {
      if k < |comps| {
        assert Emission(g, comps, k);
        assert cs[..k] == comps[..k];
        assert cs[..k + 1] == comps[..k + 1];
      } else {
        assert cs[..k] == comps;
        assert cs[..k + 1] == cs;
      }
    }
  }

  // The state is in the i-th component, and no other.
  ghost predicate OnlyIn(comps: seq<set<State>>, i: nat, s: State) {
    && i < |comps|
    && s in comps[i]
    && forall j | 0 <= j < |comps| && j != i :: s !in comps[j]
  }

  ghost predicate Together(comps: seq<set<State>>, s: State, t: State) {
    exists i :: 0 <= i < |comps| && s in comps[i] && t in comps[i]
  }

  // What the algorithms promise: the components are the classes of the states
  // for mutual reachability, and an edge between two components goes from a
  // component emitted later to one emitted earlier.
  ghost predicate Components(g: Graph, comps: seq<set<State>>) {
    && (forall s <- g.states :: exists i :: OnlyIn(comps, i, s))
    && (forall i | 0 <= i < |comps| :: comps[i] != {} && comps[i] <= Elements(g.states))
    && (forall s <- g.states, t <- g.states :: Together(comps, s, t) <==> Reach(g, s, t) && Reach(g, t, s))
    && (forall i, j, s, t | 0 <= i < |comps| && 0 <= j < |comps| && s in comps[i] && t in comps[j] && g.Edge(s, t) ::
          j <= i)
  }

  lemma {:induction false} PrefixUnion(comps: seq<set<State>>, i: nat, k: nat)
    requires i < k <= |comps|
    ensures comps[i] <= Union(comps[..k])
  {
    assert comps[i] == comps[..k][i];
  }

  lemma Apart(g: Graph, comps: seq<set<State>>, i: nat, j: nat, s: State)
    requires Emissions(g, comps) && i < j < |comps| && s in comps[i]
    ensures s !in comps[j]
  {
    PrefixUnion(comps, i, j);
    assert Emission(g, comps, j);
  }

  // Nothing emitted up to k leads to what is emitted after k.
  lemma NoneLater(g: Graph, comps: seq<set<State>>, i: nat, j: nat, s: State, t: State)
    requires Emissions(g, comps) && i < j < |comps| && s in comps[i] && t in comps[j]
    ensures !Reach(g, s, t)
  {
    assert Emission(g, comps, i);
    PrefixUnion(comps, i, i + 1);
    if Reach(g, s, t) {
      ReachStays(g, Union(comps[..i + 1]), s, t);
      var k := InUnion(comps[..i + 1], t);
      Apart(g, comps, k, j, t);
    }
  }

  lemma SameComponent(g: Graph, comps: seq<set<State>>, s: State, t: State)
    requires Emissions(g, comps) && s in Union(comps) && t in Union(comps)
    ensures Together(comps, s, t) <==> Reach(g, s, t) && Reach(g, t, s)
  {
    var i := InUnion(comps, s);
    var j := InUnion(comps, t);
    if i < j {
      NoneLater(g, comps, i, j, s, t);
    } else if j < i {
      NoneLater(g, comps, j, i, t, s);
    } else {
      assert Emission(g, comps, i);
    }
    if Together(comps, s, t) {
      var k :| 0 <= k < |comps| && s in comps[k] && t in comps[k];
      assert Emission(g, comps, k);
    }
  }

  lemma InOne(g: Graph, comps: seq<set<State>>, s: State)
    requires Emissions(g, comps) && s in Union(comps)
    ensures exists i :: OnlyIn(comps, i, s)
  {
    var i := InUnion(comps, s);
    forall j | 0 <= j < |comps| && j != i
      ensures s !in comps[j]
    {
      if i < j {
        Apart(g, comps, i, j, s);
      } else if s in comps[j] {
        Apart(g, comps, j, i, s);
      }
    }
    assert OnlyIn(comps, i, s);
  }

  // Closed emissions that cover the graph are its components.
  lemma EmissionsAreComponents(g: Graph, comps: seq<set<State>>)
    requires Emissions(g, comps) && Union(comps) == Elements(g.states)
    ensures Components(g, comps)
  {
    forall s <- g.states
      ensures exists i :: OnlyIn(comps, i, s)
    {
      InOne(g, comps, s);
    }
    forall s <- g.states, t <- g.states
      ensures Together(comps, s, t) <==> Reach(g, s, t) && Reach(g, t, s)
    {
      SameComponent(g, comps, s, t);
    }
    forall i, j, s, t | 0 <= i < |comps| && 0 <= j < |comps| && s in comps[i] && t in comps[j] && g.Edge(s, t)
      ensures j <= i
    {
      ReachStep(g, s, t);
      if i < j {
        NoneLater(g, comps, i, j, s, t);
      }
    }
    forall i | 0 <= i < |comps|
      ensures comps[i] != {}
    {
      assert Emission(g, comps, i);
    }
  }
}
