// The reverse postorder of a depth-first search, and Kosaraju's algorithm
// (vcsn/algos/scc.hh).
module Kosaraju {
  import opened Sets
  import opened Graphs

  // ---------------------------------------------------------------------
  // Transposition
  // ---------------------------------------------------------------------

  // One source for each of the transitions to t.
  function Occurrences(ts: seq<State>, t: State, s: State): (r: seq<State>)
    ensures forall x :: x in r <==> x == s && t in ts
  {
    if ts == [] then []
    else (if ts[0] == t then [s] else []) + Occurrences(ts[1..], t, s)
  }

  function Sources(g: Graph, xs: seq<State>, t: State): (r: seq<State>)
    ensures forall x :: x in r <==> x in xs && g.Edge(x, t)
  {
    if xs == [] then []
    else (if xs[0] in g.succ then Occurrences(g.succ[xs[0]], t, xs[0]) else []) + Sources(g, xs[1..], t)
  }

  function Transpose(g: Graph): Graph {
    Graph(g.states, map t <- g.states :: Sources(g, g.states, t))
  }

  lemma TransposeEdge(g: Graph, s: State, t: State)
    requires g.Valid()
    ensures Transpose(g).Edge(t, s) <==> s in g.states && t in g.states && g.Edge(s, t)
  {
  }

  lemma TransposeValid(g: Graph)
    requires g.Valid()
    ensures Transpose(g).Valid()
  {
  }

  lemma {:induction false} TransposeWalk(g: Graph, s: State, p: seq<State>, t: State)
    requires g.Valid() && Walk(Transpose(g), s, p, t)
    ensures Reach(g, t, s)
    decreases |p|
  {
    if p == [] {
      ReachItself(g, s);
    } else {
      TransposeWalk(g, p[0], p[1..], t);
      TransposeEdge(g, p[0], s);
      ReachStep(g, p[0], s);
      ReachTrans(g, t, p[0], s);
    }
  }

  lemma TransposeReach(g: Graph, s: State, t: State)
    requires g.Valid() && Reach(Transpose(g), s, t)
    ensures Reach(g, t, s)
  {
    var p :| Walk(Transpose(g), s, p, t);
    TransposeWalk(g, s, p, t);
  }

  // ---------------------------------------------------------------------
  // Postorder
  // ---------------------------------------------------------------------

  // When the visit of post[i] started, the starts[i] first states were left:
  // the others are those it leads to.
  ghost predicate Intervals(g: Graph, post: seq<State>, starts: seq<nat>) {
    && |starts| == |post|
    && (forall i | 0 <= i < |post| :: starts[i] <= i)
    && (forall i, k | 0 <= i < |post| && starts[i] <= k <= i :: Reach(g, post[i], post[k]))
  }

  ghost predicate Nested(starts: seq<nat>) {
    forall i, j | 0 <= i < |starts| && starts[i] <= j <= i :: starts[j] >= starts[i]
  }

  // What leads to post[i], and was left before it, was left during its visit.
  ghost predicate NoneBefore(g: Graph, post: seq<State>, starts: seq<nat>)
    requires |starts| == |post|
  {
    forall i, j | 0 <= j < i < |post| && g.Edge(post[j], post[i]) :: j >= starts[i]
  }

  ghost predicate LeftStates(g: Graph, post: seq<State>, marked: set<State>) {
    && (forall x <- post :: x in marked && x in g.states)
    && (forall i, j | 0 <= i < j < |post| :: post[i] != post[j])
    && (forall x, t | x in post && g.Edge(x, t) :: t in marked)
  }

  ghost predicate Postorder(g: Graph, post: seq<State>, starts: seq<nat>, marked: set<State>) {
    && Intervals(g, post, starts)
    && Nested(starts)
    && NoneBefore(g, post, starts)
    && LeftStates(g, post, marked)
  }

  // The visit of x started with post0, and was through post.
  ghost predicate Visited(g: Graph, post0: seq<State>, marked0: set<State>, x: State, post: seq<State>,
                          starts: seq<nat>, marked: set<State>) {
    && |starts| == |post| && post0 <= post
    && marked == marked0 + {x} + Elements(post[|post0|..])
    && (forall y <- post[|post0|..] :: y !in marked0 && y != x && Reach(g, x, y))
    && (forall i | |post0| <= i < |post| :: starts[i] >= |post0|)
  }

  lemma LeaveState(g: Graph, post0: seq<State>, starts0: seq<nat>, marked0: set<State>, x: State,
                   post: seq<State>, starts: seq<nat>, marked: set<State>)
    requires Postorder(g, post0, starts0, marked0) && x in g.states && x !in marked0
    requires Postorder(g, post, starts, marked) && Visited(g, post0, marked0, x, post, starts, marked)
    requires forall t | g.Edge(x, t) :: t in marked
    ensures Postorder(g, post + [x], starts + [|post0|], marked)
  {
    var post', starts' := post + [x], starts + [|post0|];
    assert Intervals(g, post', starts') by {
      LeaveIntervals(g, post0, marked0, x, post, starts, marked);
    }
    assert Nested(starts');
    assert NoneBefore(g, post', starts') by {
      LeaveNoneBefore(g, post0, marked0, x, post, starts);
    }
    assert LeftStates(g, post', marked) by {
      LeaveStates(g, post0, marked0, x, post, starts, marked);
    }
  }

  lemma LeaveIntervals(g: Graph, post0: seq<State>, marked0: set<State>, x: State, post: seq<State>,
                       starts: seq<nat>, marked: set<State>)
    requires Intervals(g, post, starts) && Visited(g, post0, marked0, x, post, starts, marked)
    ensures Intervals(g, post + [x], starts + [|post0|])
  {
    var post', starts' := post + [x], starts + [|post0|];
    forall i, k | 0 <= i < |post'| && starts'[i] <= k <= i
      ensures Reach(g, post'[i], post'[k])
    {
      if i < |post| {
        assert Reach(g, post[i], post[k]);
      } else if k == |post| {
        ReachItself(g, x);
      } else {
        assert post[k] == post[|post0|..][k - |post0|];
      }
    }
  }

  lemma LeaveNoneBefore(g: Graph, post0: seq<State>, marked0: set<State>, x: State, post: seq<State>, starts: seq<nat>)
    requires |starts| == |post| && NoneBefore(g, post, starts) && post0 <= post
    requires LeftStates(g, post0, marked0) && x !in marked0
    ensures NoneBefore(g, post + [x], starts + [|post0|])
  {
    var post', starts' := post + [x], starts + [|post0|];
    forall j | 0 <= j < |post0|
      ensures !g.Edge(post[j], x)
    {
      assert post0[j] in post0;
    }
    forall i, j | 0 <= j < i < |post'| && g.Edge(post'[j], post'[i])
      ensures j >= starts'[i]
    {
      if i < |post| {
        assert g.Edge(post[j], post[i]);
      }
    }
  }

  lemma LeaveStates(g: Graph, post0: seq<State>, marked0: set<State>, x: State, post: seq<State>,
                    starts: seq<nat>, marked: set<State>)
    requires LeftStates(g, post, marked) && Visited(g, post0, marked0, x, post, starts, marked)
    requires LeftStates(g, post0, marked0) && x !in marked0 && x in g.states
    requires forall t | g.Edge(x, t) :: t in marked
    ensures LeftStates(g, post + [x], marked)
  {
    forall i | 0 <= i < |post|
      ensures post[i] != x
    {
      if i < |post0| {
        assert post0[i] in post0;
      } else {
        assert post[i] == post[|post0|..][i - |post0|];
      }
    }
  }

  // Marking a state that is not left yet.
  lemma MarkState(g: Graph, post: seq<State>, starts: seq<nat>, marked: set<State>, x: State)
    requires Postorder(g, post, starts, marked)
    ensures Postorder(g, post, starts, marked + {x})
    ensures Visited(g, post, marked, x, post, starts, marked + {x})
  {
  }

  // After the visit of a successor y of x.
  lemma VisitedMore(g: Graph, post0: seq<State>, marked0: set<State>, x: State, post: seq<State>, starts: seq<nat>,
                    marked: set<State>, y: State, post': seq<State>, starts': seq<nat>, marked': set<State>)
    requires Visited(g, post0, marked0, x, post, starts, marked) && g.Edge(x, y)
    requires starts <= starts' && DoneWith(g, post, marked, y, post', starts', marked')
    ensures Visited(g, post0, marked0, x, post', starts', marked')
  {
    assert post'[|post0|..] == post[|post0|..] + post'[|post|..];
    forall z <- post'[|post|..]
      ensures Reach(g, x, z)
    {
      ReachStep(g, x, y);
      ReachTrans(g, x, y, z);
    }
  }

  // The visit of y started with post, and ended with post'.
  ghost predicate DoneWith(g: Graph, post: seq<State>, marked: set<State>, y: State, post': seq<State>,
                           starts': seq<nat>, marked': set<State>) {
    && |starts'| == |post'| && post <= post'
    && marked' == marked + Elements(post'[|post|..])
    && y in post'[|post|..]
    && (forall z <- post'[|post|..] :: z !in marked && Reach(g, y, z))
    && (forall i | |post| <= i < |post'| :: starts'[i] >= |post|)
  }

  lemma DoneElements(g: Graph, post: seq<State>, marked: set<State>, y: State, post': seq<State>, starts': seq<nat>,
                     marked': set<State>)
    requires DoneWith(g, post, marked, y, post', starts', marked') && marked == Elements(post)
    ensures y in marked' && marked <= marked' && marked' == Elements(post')
  {
    assert post' == post + post'[|post|..];
  }

  lemma AllListed(g: Graph, post: seq<State>, starts: seq<nat>, marked: set<State>)
    requires Postorder(g, post, starts, marked) && marked == Elements(post) && forall x <- g.states :: x in marked
    ensures Elements(post) == Elements(g.states)
  {
    assert LeftStates(g, post, marked);
  }

  lemma VisitedAll(g: Graph, post0: seq<State>, marked0: set<State>, x: State, post: seq<State>, starts: seq<nat>,
                   marked: set<State>)
    requires Visited(g, post0, marked0, x, post, starts, marked) && x !in marked0
    ensures DoneWith(g, post0, marked0, x, post + [x], starts + [|post0|], marked)
  {
    assert (post + [x])[|post0|..] == post[|post0|..] + [x];
    ReachItself(g, x);
  }

  // Get all states in postorder.
  class ReversePostorder {
    const g: Graph
    var rvp: seq<State>
    var marked: set<State>
    ghost var starts: seq<nat>

    constructor (g: Graph)
      requires g.Valid()
      ensures this.g == g && Postorder(g, rvp, starts, marked) && Elements(rvp) == Elements(g.states)
    {
      this.g := g;
      rvp, marked, starts := [], {}, [];
      new;
      var i := 0;
      while i < |g.states|
        invariant this.g == g && i <= |g.states|
        invariant Postorder(g, rvp, starts, marked) && marked == Elements(rvp)
        invariant forall x <- g.states[..i] :: x in marked
      {
        ghost var before := rvp;
        if g.states[i] !in marked {
          ghost var marked0 := marked;
          Dfs(g.states[i]);
          DoneElements(g, before, marked0, g.states[i], rvp, starts, marked);
        }
        TakeMore(g.states, i);
        i := i + 1;
      }
      TakeAll(g.states);
      AllListed(g, rvp, starts, marked);
    }

    method Dfs(s: State)
      requires g.Valid() && Postorder(g, rvp, starts, marked) && s in g.states && s !in marked
      modifies this
      ensures Postorder(g, rvp, starts, marked) && old(starts) <= starts
      ensures DoneWith(g, old(rvp), old(marked), s, rvp, starts, marked)
      decreases Elements(g.states) - marked, 0
    {
      ghost var post0, marked0, starts0 := rvp, marked, starts;
      MarkState(g, rvp, starts, marked, s);
      marked := marked + {s};
      var pos := 0;
      while pos < |g.succ[s]|
        invariant pos <= |g.succ[s]|
        invariant Postorder(g, rvp, starts, marked) && starts0 <= starts
        invariant Visited(g, post0, marked0, s, rvp, starts, marked)
        invariant forall t <- g.succ[s][..pos] :: t in marked
      {
        LookAt(s, g.succ[s][pos], post0, marked0);
        TakeMore(g.succ[s], pos);
        pos := pos + 1;
      }
      TakeAll(g.succ[s]);
      LeaveState(g, post0, starts0, marked0, s, rvp, starts, marked);
      VisitedAll(g, post0, marked0, s, rvp, starts, marked);
      rvp := rvp + [s];
      starts := starts + [|post0|];
    }

    // Visit a successor, if it was not yet.
    method LookAt(s: State, dst: State, ghost post0: seq<State>, ghost marked0: set<State>)
      requires g.Valid() && Postorder(g, rvp, starts, marked) && dst in g.states && g.Edge(s, dst)
      requires Visited(g, post0, marked0, s, rvp, starts, marked)
      modifies this
      ensures Postorder(g, rvp, starts, marked) && old(starts) <= starts
      ensures Visited(g, post0, marked0, s, rvp, starts, marked)
      ensures dst in marked && old(marked) <= marked
      decreases Elements(g.states) - marked, 1
    {
      if dst !in marked {
        ghost var post, starts1, marked1 := rvp, starts, marked;
        Dfs(dst);
        VisitedMore(g, post0, marked0, s, post, starts1, marked1, dst, rvp, starts, marked);
      }
    }
  }

  // ---------------------------------------------------------------------
  // Kosaraju
  // ---------------------------------------------------------------------

  // The states left during the visit of post[i].
  function Interval(post: seq<State>, starts: seq<nat>, i: nat): (r: set<State>)
    requires |starts| == |post| && i < |post| && starts[i] <= i
  {
    Elements(post[starts[i]..i + 1])
  }

  // From T, the transitions of g stay in T, or go to a marked state.
  ghost predicate ClosedBut(g: Graph, T: set<State>, marked: set<State>) {
    forall y, z | y in T && g.Edge(y, z) :: z in T || z in marked
  }

  ghost predicate AllMarked(post: seq<State>, k: nat, marked: set<State>) {
    k <= |post| && forall i | k <= i < |post| :: post[i] in marked
  }

  lemma AllMarkedMore(post: seq<State>, k: nat, marked: set<State>, marked': set<State>)
    requires AllMarked(post, k + 1, marked) && marked <= marked' && post[k] in marked'
    ensures AllMarked(post, k, marked')
  {
  }

  lemma IntervalIndex(post: seq<State>, starts: seq<nat>, i: nat, y: State) returns (k: nat)
    requires |starts| == |post| && i < |post| && starts[i] <= i && y in Interval(post, starts, i)
    ensures starts[i] <= k <= i && post[k] == y
  {
    var j :| 0 <= j < |post[starts[i]..i + 1]| && post[starts[i]..i + 1][j] == y;
    k := starts[i] + j;
  }

  lemma InInterval(post: seq<State>, starts: seq<nat>, i: nat, k: nat)
    requires |starts| == |post| && i < |post| && starts[i] <= k <= i
    ensures post[k] in Interval(post, starts, i)
  {
    assert post[starts[i]..i + 1][k - starts[i]] == post[k];
  }

  // When all states left after post[i] in the transposed graph are marked,
  // the others that it leads to in the graph were left during its visit.
  lemma IntervalClosed(g: Graph, post: seq<State>, starts: seq<nat>, marked0: set<State>, i: nat, marked: set<State>)
    requires g.Valid() && Postorder(Transpose(g), post, starts, marked0) && i < |post|
    requires Elements(post) == Elements(g.states) && AllMarked(post, i + 1, marked)
    ensures ClosedBut(g, Interval(post, starts, i), marked)
  {
    var T := Interval(post, starts, i);
    forall y, z | y in T && g.Edge(y, z) && z !in marked
      ensures z in T
    {
      var k := IntervalIndex(post, starts, i, y);
      assert y in post;
      assert y in g.states && z in g.states;
      TransposeEdge(g, y, z);
      assert z in Elements(post);
      var l :| 0 <= l < |post| && post[l] == z;
      assert l <= i;
      if l < k {
        assert Transpose(g).Edge(post[l], post[k]);
        assert starts[k] >= starts[i];
      }
      InInterval(post, starts, i, l);
    }
  }

  // Whatever is in the interval of s, and reached from s, is connected.
  lemma IntervalConnected(g: Graph, post: seq<State>, starts: seq<nat>, i: nat, C: set<State>)
    requires g.Valid() && Intervals(Transpose(g), post, starts) && i < |post|
    requires C <= Interval(post, starts, i) && forall y <- C :: Reach(g, post[i], y)
    ensures StronglyConnected(g, C)
  {
    forall y, z | y in C && z in C
      ensures Reach(g, y, z)
    {
      var k := IntervalIndex(post, starts, i, y);
      assert Reach(Transpose(g), post[i], post[k]);
      TransposeReach(g, post[i], y);
      ReachTrans(g, y, post[i], z);
    }
  }

  // The visit from x marked what is reached from it through unmarked states.
  ghost predicate Collected(g: Graph, T: set<State>, marked0: set<State>, x: State, marked: set<State>) {
    && marked0 <= marked && x in marked
    && (forall y <- marked - marked0 :: Reach(g, x, y) && y in T && y in g.states)
    && (forall y, z | y in marked - marked0 && g.Edge(y, z) :: z in marked)
  }

  // The same, while the transitions of x are looked at.
  ghost predicate Collecting(g: Graph, T: set<State>, marked0: set<State>, x: State, marked: set<State>) {
    && marked0 <= marked && x in marked
    && (forall y <- marked - marked0 :: Reach(g, x, y) && y in T && y in g.states)
    && (forall y, z | y in marked - marked0 && y != x && g.Edge(y, z) :: z in marked)
  }

  lemma CollectMore(g: Graph, T: set<State>, marked0: set<State>, x: State, marked: set<State>, y: State,
                    marked': set<State>)
    requires Collecting(g, T, marked0, x, marked) && g.Edge(x, y) && Collected(g, T, marked, y, marked')
    ensures Collecting(g, T, marked0, x, marked')
  {
    forall z <- marked' - marked0
      ensures Reach(g, x, z) && z in T && z in g.states
    {
      if z !in marked {
        ReachStep(g, x, y);
        ReachTrans(g, x, y, z);
      }
    }
  }

  // The component that is being collected.
  ghost function Last(components: seq<set<State>>, num: nat): set<State> {
    if num < |components| then components[num] else {}
  }

  class Scc {
    const g: Graph
    var num: nat
    var components: seq<set<State>>
    var marked: set<State>

    // Compute the components of the graph.
    constructor (g: Graph)
      requires g.Valid()
      ensures Components(g, components)
    {
      this.g := g;
      num, components, marked := 0, [], {};
      new;
      TransposeValid(g);
      var trans := new ReversePostorder(Transpose(g));
      var todo := trans.rvp;
      ghost var post, starts, marked0 := trans.rvp, trans.starts, trans.marked;
      while todo != []
        invariant this.g == g && todo <= post
        invariant num == |components| && Union(components) == marked && Emissions(g, components)
        invariant marked <= Elements(g.states) && AllMarked(post, |todo|, marked)
      {
        var s := todo[|todo| - 1];
        todo := todo[..|todo| - 1];
        assert s == post[|todo|] && s in Elements(post);
        ghost var before := marked;
        if s !in marked {
          CollectComponent(s, post, starts, marked0, |todo|);
        }
        AllMarkedMore(post, |todo|, before, marked);
      }
      forall x <- g.states
        ensures x in marked
      {
        assert x in Elements(post);
      }
      EmissionsAreComponents(g, components);
    }

    // The states reached from s = post[i], and not marked, are a component.
    method CollectComponent(s: State, ghost post: seq<State>, ghost starts: seq<nat>, ghost marked0: set<State>,
                            ghost i: nat)
      requires g.Valid() && Postorder(Transpose(g), post, starts, marked0) && Elements(post) == Elements(g.states)
      requires i < |post| && s == post[i] && s in g.states && AllMarked(post, i + 1, marked) && s !in marked
      requires num == |components| && Union(components) == marked && Emissions(g, components)
      requires marked <= Elements(g.states)
      modifies this
      ensures num == |components| && Union(components) == marked && Emissions(g, components)
      ensures marked <= Elements(g.states) && s in marked && old(marked) <= marked
    {
      ghost var before, comps, T := marked, components, Interval(post, starts, i);
      IntervalClosed(g, post, starts, marked0, i, marked);
      InInterval(post, starts, i, i);
      Dfs(s, T);
      num := num + 1;
      IntervalConnected(g, post, starts, i, marked - before);
      Appended(comps, components, marked - before);
      CollectedClosed(comps, before, T, s, marked);
      EmitMore(g, comps, marked - before);
    }

    lemma Appended(comps: seq<set<State>>, comps': seq<set<State>>, c: set<State>)
      requires |comps'| == |comps| + 1 && comps'[..|comps|] == comps[..|comps|]
      requires comps'[|comps|] == Last(comps, |comps|) + c
      ensures comps' == comps + [c]
    {
      assert comps[..|comps|] == comps;
      assert comps'[|comps|] == c;
      assert comps' == comps'[..|comps|] + [comps'[|comps|]];
    }

    lemma CollectedClosed(comps: seq<set<State>>, before: set<State>, T: set<State>, s: State, after: set<State>)
      requires Emissions(g, comps) && Union(comps) == before && Collected(g, T, before, s, after)
      ensures Closed(g, before + (after - before)) && before + (after - before) == after
    {
      if comps != [] {
        assert Emission(g, comps, |comps| - 1);
        assert comps[..|comps|] == comps;
      }
    }

    method Dfs(s: State, ghost T: set<State>)
      requires g.Valid() && s in g.states && s !in marked && s in T && ClosedBut(g, T, marked)
      requires num <= |components| <= num + 1
      modifies this`components, this`marked
      ensures Collected(g, T, old(marked), s, marked)
      ensures |components| == num + 1 && components[..num] == old(components)[..num]
      ensures components[num] == Last(old(components), num) + (marked - old(marked))
      decreases Elements(g.states) - marked, 0
    {
      Collect(s, T);
      var pos := 0;
      while pos < |g.succ[s]|
        invariant pos <= |g.succ[s]|
        invariant Collecting(g, T, old(marked), s, marked)
        invariant |components| == num + 1 && components[..num] == old(components)[..num]
        invariant components[num] == Last(old(components), num) + (marked - old(marked))
        invariant forall t <- g.succ[s][..pos] :: t in marked
      {
        LookAt(s, g.succ[s][pos], T, old(marked), old(components));
        TakeMore(g.succ[s], pos);
        pos := pos + 1;
      }
      TakeAll(g.succ[s]);
    }

    // Mark s, and put it in the current component.
    method Collect(s: State, ghost T: set<State>)
      requires g.Valid() && s in g.states && s !in marked && s in T && ClosedBut(g, T, marked)
      requires num <= |components| <= num + 1
      modifies this`components, this`marked
      ensures marked == old(marked) + {s} && Collecting(g, T, old(marked), s, marked)
      ensures |components| == num + 1 && components[..num] == old(components)[..num]
      ensures components[num] == Last(old(components), num) + {s}
    {
      marked := marked + {s};
      if num == |components| {
        components := components + [{s}];
      } else {
        components := components[num := components[num] + {s}];
      }
      ReachItself(g, s);
    }

    // Visit a successor, if it was not yet.
    method LookAt(s: State, dst: State, ghost T: set<State>, ghost marked0: set<State>, ghost comps: seq<set<State>>)
      requires g.Valid() && g.Edge(s, dst) && dst in g.states
      requires s in T && ClosedBut(g, T, marked0) && Collecting(g, T, marked0, s, marked) && num <= |comps|
      requires |components| == num + 1 && components[..num] == comps[..num]
      requires components[num] == Last(comps, num) + (marked - marked0)
      modifies this`components, this`marked
      ensures Collecting(g, T, marked0, s, marked) && dst in marked && old(marked) <= marked
      ensures |components| == num + 1 && components[..num] == comps[..num]
      ensures components[num] == Last(comps, num) + (marked - marked0)
      decreases Elements(g.states) - marked, 1
    {
      if dst !in marked {
        ghost var before := marked;
        Dfs(dst, T);
        CollectMore(g, T, marked0, s, before, dst, marked);
      }
    }
  }
}
