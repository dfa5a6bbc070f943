// Walks with real weights that add up (the min-plus weightsets), and the
// walks without lightening cycle.
module LightestPaths {
  import opened Wrappers

  type State = nat
  type Letter = nat

  // A transition; the special label is None.
  datatype Edge = Edge(src: State, lbl: Option<Letter>, dst: State, weight: real)

  type Walk = seq<Edge>

  // states includes pre and post; the transitions are listed in order.
  datatype Graph = Graph(states: set<State>, size: nat, pre: State, post: State, edges: seq<Edge>) {
    ghost predicate Valid() {
      && (forall s <- states :: s < size)
      && pre in states && post in states && pre != post
      && (forall e <- edges :: e.src in states && e.dst in states && e.dst != pre && e.src != post)
    }
  }

  // p leads from u to v.
  predicate Leads(g: Graph, u: State, p: Walk, v: State)
    decreases |p|
  {
    if p == [] then u == v else p[0] in g.edges && p[0].src == u && Leads(g, p[0].dst, p[1..], v)
  }

  function Weight(p: Walk): real {
    if p == [] then 0.0 else p[0].weight + Weight(p[1..])
  }

  lemma {:induction false} LeadsConcat(g: Graph, u: State, p: Walk, v: State, q: Walk, w: State)
    requires Leads(g, u, p, v) && Leads(g, v, q, w)
    ensures Leads(g, u, p + q, w)
    decreases |p|
  {
    if p == [] {
      assert p + q == q;
    } else {
      LeadsConcat(g, p[0].dst, p[1..], v, q, w);
      assert (p + q)[1..] == p[1..] + q;
    }
  }

  lemma {:induction false} WeightConcat(p: Walk, q: Walk)
    ensures Weight(p + q) == Weight(p) + Weight(q)
    decreases |p|
  {
    if p == [] {
      assert p + q == q;
    } else {
      WeightConcat(p[1..], q);
      assert (p + q)[1..] == p[1..] + q;
    }
  }

  // The state after i transitions.
  function At(u: State, p: Walk, i: nat): State
    requires i <= |p|
  {
    if i == 0 then u else p[i - 1].dst
  }

  lemma {:induction false} LeadsSplit(g: Graph, u: State, p: Walk, v: State, i: nat)
    requires Leads(g, u, p, v) && i <= |p|
    ensures Leads(g, u, p[..i], At(u, p, i)) && Leads(g, At(u, p, i), p[i..], v)
    ensures Weight(p) == Weight(p[..i]) + Weight(p[i..])
    decreases |p|
  {
    if i == 0 {
      assert p[0..] == p;
    } else {
      LeadsSplit(g, p[0].dst, p[1..], v, i - 1);
      assert p[..i][1..] == p[1..][..i - 1];
      assert p[i..] == p[1..][i - 1..];
      assert At(u, p, i) == At(p[0].dst, p[1..], i - 1);
    }
  }

  lemma OneEdge(g: Graph, e: Edge)
    requires e in g.edges
    ensures Leads(g, e.src, [e], e.dst) && Weight([e]) == e.weight
  {
    assert [e][1..] == [];
    assert Leads(g, e.dst, [], e.dst);
  }

  lemma LeadsInside(g: Graph, u: State, p: Walk, v: State)
    requires g.Valid() && u in g.states && Leads(g, u, p, v)
    ensures v in g.states
    decreases |p|
  {
    if p != [] {
      LeadsInside(g, p[0].dst, p[1..], v);
    }
  }

  // ---------------------------------------------------------------------
  // Lightening cycles
  // ---------------------------------------------------------------------

  ghost predicate Reachable(g: Graph, v: State) {
    exists p: Walk :: Leads(g, g.pre, p, v)
  }

  // A cycle that lightens, and its start is reached from pre.
  ghost predicate LighteningCycle(g: Graph, v: State, c: Walk) {
    Reachable(g, v) && Leads(g, v, c, v) && Weight(c) < 0.0
  }

  ghost predicate HasLighteningCycle(g: Graph) {
    exists v, c: Walk :: LighteningCycle(g, v, c)
  }

  // Among more states than there are, two are the same.
  lemma {:induction false} Repeated(s: seq<State>, S: set<State>) returns (i: nat, j: nat)
    requires |s| > |S| && forall x <- s :: x in S
    ensures i < j < |s| && s[i] == s[j]
    decreases |s|
  {
    var x := s[0];
    assert x in S;
    if k :| 1 <= k < |s| && s[k] == x {
      i, j := 0, k;
    } else {
      forall y <- s[1..]
        ensures y in S - {x}
      {
        var k :| 0 <= k < |s[1..]| && s[1..][k] == y;
        assert s[k + 1] == y && s[k + 1] in s;
      }
      i, j := Repeated(s[1..], S - {x});
      i, j := i + 1, j + 1;
    }
  }

  function Visited(u: State, p: Walk): (s: seq<State>)
    ensures |s| == |p| + 1
    ensures forall i | 0 <= i <= |p| :: s[i] == At(u, p, i)
  {
    seq(|p| + 1, i requires 0 <= i <= |p| => At(u, p, i))
  }

  lemma VisitedInside(g: Graph, u: State, p: Walk, v: State)
    requires g.Valid() && u in g.states && Leads(g, u, p, v)
    ensures forall x <- Visited(u, p) :: x in g.states
  {
    forall i | 0 <= i <= |p|
      ensures At(u, p, i) in g.states
    {
      LeadsSplit(g, u, p, v, i);
      LeadsInside(g, u, p[..i], At(u, p, i));
    }
  }

  lemma CycleWeight(g: Graph, p: Walk, v: State, c: Walk)
    requires !HasLighteningCycle(g) && Leads(g, g.pre, p, v) && Leads(g, v, c, v)
    ensures Weight(c) >= 0.0
  {
    assert Reachable(g, v);
    if Weight(c) < 0.0 {
      assert LighteningCycle(g, v, c);
    }
  }

  // Removing a cycle that does not lighten.
  lemma WithoutCycle(g: Graph, p: Walk, v: State, i: nat, j: nat) returns (q: Walk)
    requires !HasLighteningCycle(g) && Leads(g, g.pre, p, v)
    requires i < j <= |p| && At(g.pre, p, i) == At(g.pre, p, j)
    ensures Leads(g, g.pre, q, v) && |q| < |p| && Weight(q) <= Weight(p)
  {
    var x := At(g.pre, p, i);
    LeadsSplit(g, g.pre, p, v, i);
    var rest := p[i..];
    assert At(x, rest, j - i) == At(g.pre, p, j);
    LeadsSplit(g, x, rest, v, j - i);
    var cycle, tail := rest[..j - i], rest[j - i..];
    CycleWeight(g, p[..i], x, cycle);
    q := p[..i] + tail;
    LeadsConcat(g, g.pre, p[..i], x, tail, v);
    WeightConcat(p[..i], tail);
  }

  // Without lightening cycle, short walks are as light as any other.
  lemma {:induction false} ShortWalk(g: Graph, p: Walk, v: State) returns (q: Walk)
    requires g.Valid() && !HasLighteningCycle(g) && Leads(g, g.pre, p, v)
    ensures Leads(g, g.pre, q, v) && |q| < |g.states| && Weight(q) <= Weight(p)
    decreases |p|
  {
    if |p| < |g.states| {
      q := p;
    } else {
      VisitedInside(g, g.pre, p, v);
      var i, j := Repeated(Visited(g.pre, p), g.states);
      var r := WithoutCycle(g, p, v, i, j);
      q := ShortWalk(g, r, v);
    }
  }
}
