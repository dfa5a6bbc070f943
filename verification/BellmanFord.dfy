// The lightest paths from pre, by Bellman-Ford's algorithm, and reading a
// path back from the table of predecessors (vcsn/algos/bellman-ford.hh,
// vcsn/algos/lightest-path.hh).
module BellmanFord {
  import opened Wrappers
  import opened LightestPaths

  // For each state, the weight of the lightest walk found, and its last
  // transition.
  datatype Table = Table(dist: seq<real>, res: seq<Option<Edge>>)

  ghost predicate Sized(g: Graph, t: Table) {
    |t.dist| == |t.res| == g.size
  }

  predicate Reached(g: Graph, t: Table, v: State)
    requires v < |t.res|
  {
    t.res[v].Some? || v == g.pre
  }

  function Start(g: Graph): Table {
    Table(seq(g.size, _ => 0.0), seq(g.size, _ => None))
  }

  // Relax a transition.
  function Relax(g: Graph, t: Table, e: Edge): (t': Table)
    requires |t.dist| == |t.res| && e.src < |t.res| && e.dst < |t.res|
    ensures |t'.dist| == |t.dist| && |t'.res| == |t.res|
  {
    if Reached(g, t, e.src) then
      var nw := t.dist[e.src] + e.weight;
      if t.res[e.dst].None? || nw < t.dist[e.dst] then Table(t.dist[e.dst := nw], t.res[e.dst := Some(e)]) else t
    else t
  }

  // Relax the i first transitions.
  function RelaxTo(g: Graph, t: Table, i: nat): (t': Table)
    requires i <= |g.edges| && |t.dist| == |t.res|
    requires forall e <- g.edges :: e.src < |t.res| && e.dst < |t.res|
    ensures |t'.dist| == |t.dist| && |t'.res| == |t.res|
  {
    if i == 0 then t else Relax(g, RelaxTo(g, t, i - 1), g.edges[i - 1])
  }

  // Relax them all, k times.
  function Rounds(g: Graph, t: Table, k: nat): (t': Table)
    requires |t.dist| == |t.res|
    requires forall e <- g.edges :: e.src < |t.res| && e.dst < |t.res|
    ensures |t'.dist| == |t.dist| && |t'.res| == |t.res|
  {
    if k == 0 then t else RelaxTo(g, Rounds(g, t, k - 1), |g.edges|)
  }

  // ---------------------------------------------------------------------
  // Invariants
  // ---------------------------------------------------------------------

  // The predecessors were reached, and account for the distances.
  ghost predicate Predecessors(g: Graph, t: Table)
    requires Sized(g, t) && g.Valid()
  {
    && t.res[g.pre].None? && t.dist[g.pre] == 0.0
    && (forall v: State | v < g.size && t.res[v].Some? ::
          && t.res[v].value in g.edges && t.res[v].value.dst == v
          && Reached(g, t, t.res[v].value.src)
          && t.dist[t.res[v].value.src] + t.res[v].value.weight <= t.dist[v])
  }

  ghost predicate Found(g: Graph, t: Table, v: State, p: Walk)
    requires Sized(g, t) && v < g.size
  {
    Leads(g, g.pre, p, v) && Weight(p) == t.dist[v]
  }

  // The distances are those of walks.
  ghost predicate AllFound(g: Graph, t: Table)
    requires Sized(g, t)
  {
    forall v: State | v < g.size && Reached(g, t, v) :: exists p: Walk :: Found(g, t, v, p)
  }

  // p is read back from the predecessors, up to v.
  ghost predicate Chain(g: Graph, t: Table, p: Walk, v: State)
    requires Sized(g, t) && g.Valid()
  {
    && Leads(g, g.pre, p, v)
    && forall e <- p :: e in g.edges && t.res[e.dst] == Some(e)
  }

  ghost predicate AllChained(g: Graph, t: Table)
    requires Sized(g, t) && g.Valid()
  {
    forall v: State | v < g.size && Reached(g, t, v) :: exists p: Walk :: Chain(g, t, p, v)
  }

  // The walks of at most k transitions are not lighter than what was found.
  ghost predicate Bound(g: Graph, t: Table, k: nat)
    requires Sized(g, t)
  {
    forall v: State, p: Walk | v < g.size && |p| <= k && Leads(g, g.pre, p, v) ::
          Reached(g, t, v) && t.dist[v] <= Weight(p)
  }

  // Neither are those that go on with e.
  ghost predicate BoundBy(g: Graph, t: Table, k: nat, e: Edge)
    requires Sized(g, t) && g.Valid() && e in g.edges
  {
    forall p: Walk | |p| <= k && Leads(g, g.pre, p, e.src) ::
      Reached(g, t, e.dst) && t.dist[e.dst] <= Weight(p) + e.weight
  }

  ghost predicate Lighter(g: Graph, t: Table, t': Table)
    requires Sized(g, t) && Sized(g, t')
  {
    forall v: State | v < g.size && Reached(g, t, v) :: Reached(g, t', v) && t'.dist[v] <= t.dist[v]
  }

  lemma StartKeeps(g: Graph)
    requires g.Valid()
    ensures Sized(g, Start(g)) && Predecessors(g, Start(g))
    ensures AllFound(g, Start(g)) && AllChained(g, Start(g)) && Bound(g, Start(g), 0)
  {
    var t := Start(g);
    forall v: State | v < g.size && Reached(g, t, v)
      ensures exists p: Walk :: Found(g, t, v, p)
      ensures exists p: Walk :: Chain(g, t, p, v)
    {
      assert Found(g, t, v, []);
      assert Chain(g, t, [], v);
    }
  }

  // ---------------------------------------------------------------------
  // Relaxing
  // ---------------------------------------------------------------------

  lemma EdgeInside(g: Graph, e: Edge)
    requires g.Valid() && e in g.edges
    ensures e.src < g.size && e.dst < g.size && e.dst != g.pre && e.src != g.post
  {
  }

  // What happens when a lighter walk is found.
  ghost predicate Improves(g: Graph, t: Table, e: Edge, t': Table)
    requires Sized(g, t) && g.Valid() && e in g.edges
  {
    && Reached(g, t, e.src)
    && (t.res[e.dst].None? || t.dist[e.src] + e.weight < t.dist[e.dst])
    && t' == Table(t.dist[e.dst := t.dist[e.src] + e.weight], t.res[e.dst := Some(e)])
  }

  lemma RelaxCases(g: Graph, t: Table, e: Edge)
    requires g.Valid() && Sized(g, t) && e in g.edges
    ensures Relax(g, t, e) == t || Improves(g, t, e, Relax(g, t, e))
  {
  }

  lemma RelaxLighter(g: Graph, t: Table, e: Edge)
    requires g.Valid() && Sized(g, t) && e in g.edges
    ensures Lighter(g, t, Relax(g, t, e))
  {
  }

  lemma RelaxPredecessors(g: Graph, t: Table, e: Edge)
    requires g.Valid() && Sized(g, t) && e in g.edges && Predecessors(g, t)
    ensures Predecessors(g, Relax(g, t, e))
  {
    RelaxLighter(g, t, e);
    EdgeInside(g, e);
  }

  lemma RelaxFound(g: Graph, t: Table, e: Edge)
    requires g.Valid() && Sized(g, t) && e in g.edges && AllFound(g, t)
    ensures AllFound(g, Relax(g, t, e))
  {
    var t' := Relax(g, t, e);
    EdgeInside(g, e);
    forall v: State | v < g.size && Reached(g, t', v)
      ensures exists p: Walk :: Found(g, t', v, p)
    {
      if t' != t && v == e.dst {
        var p: Walk :| Found(g, t, e.src, p);
        OneEdge(g, e);
        LeadsConcat(g, g.pre, p, e.src, [e], e.dst);
        WeightConcat(p, [e]);
        assert Found(g, t', v, p + [e]);
      } else {
        assert Reached(g, t, v);
        var p: Walk :| Found(g, t, v, p);
        assert Found(g, t', v, p);
      }
    }
  }

  lemma LighterBound(g: Graph, t: Table, t': Table, k: nat)
    requires Sized(g, t) && Sized(g, t') && Lighter(g, t, t') && Bound(g, t, k)
    ensures Bound(g, t', k)
  {
  }

  lemma LighterBoundBy(g: Graph, t: Table, t': Table, k: nat, e: Edge)
    requires g.Valid() && Sized(g, t) && Sized(g, t') && Lighter(g, t, t') && e in g.edges && BoundBy(g, t, k, e)
    ensures BoundBy(g, t', k, e)
  {
    EdgeInside(g, e);
  }

  lemma RelaxBoundBy(g: Graph, t: Table, k: nat, e: Edge)
    requires g.Valid() && Sized(g, t) && e in g.edges && Bound(g, t, k)
    ensures BoundBy(g, Relax(g, t, e), k, e)
  {
    EdgeInside(g, e);
  }

  // ---------------------------------------------------------------------
  // The predecessors make no cycle
  // ---------------------------------------------------------------------

  // Along a part of a chain, the distances add up.
  lemma {:induction false} ChainWeight(g: Graph, t: Table, u: State, p: Walk, v: State)
    requires g.Valid() && Sized(g, t) && Predecessors(g, t) && u < g.size && Leads(g, u, p, v)
    requires forall e <- p :: e in g.edges && t.res[e.dst] == Some(e)
    ensures v < g.size && t.dist[u] + Weight(p) <= t.dist[v]
    decreases |p|
  {
    if p != [] {
      assert p[0] in p && t.res[p[0].dst] == Some(p[0]);
      EdgeInside(g, p[0]);
      ChainWeight(g, t, p[0].dst, p[1..], v);
    }
  }

  // A transition that improves its destination does not close a cycle.
  lemma NotInChain(g: Graph, t: Table, e: Edge, t': Table, p: Walk, i: nat)
    requires g.Valid() && Sized(g, t) && Predecessors(g, t) && !HasLighteningCycle(g)
    requires e in g.edges && Improves(g, t, e, t') && Chain(g, t, p, e.src) && i < |p|
    ensures p[i].dst != e.dst
  {
    if p[i].dst == e.dst {
      var v := e.dst;
      EdgeInside(g, e);
      LeadsSplit(g, g.pre, p, e.src, i + 1);
      var head, tail := p[..i + 1], p[i + 1..];
      assert forall f <- tail :: f in p;
      ChainWeight(g, t, v, tail, e.src);
      OneEdge(g, e);
      LeadsConcat(g, v, tail, e.src, [e], v);
      WeightConcat(tail, [e]);
      assert p[i] in p && t.res[v] == Some(p[i]);
      assert Reachable(g, v);
      assert LighteningCycle(g, v, tail + [e]);
    }
  }

  lemma NewChain(g: Graph, t: Table, e: Edge, t': Table) returns (p: Walk)
    requires g.Valid() && Sized(g, t) && Predecessors(g, t) && !HasLighteningCycle(g) && AllChained(g, t)
    requires e in g.edges && Improves(g, t, e, t')
    ensures Sized(g, t') && Chain(g, t', p, e.dst)
  {
    EdgeInside(g, e);
    var q: Walk :| Chain(g, t, q, e.src);
    p := q + [e];
    OneEdge(g, e);
    LeadsConcat(g, g.pre, q, e.src, [e], e.dst);
    forall f <- p
      ensures f in g.edges && t'.res[f.dst] == Some(f)
    {
      if f in q {
        var i :| 0 <= i < |q| && q[i] == f;
        NotInChain(g, t, e, t', q, i);
      }
    }
  }

  // The last i such that the i-th transition of p leads to v, if any.
  lemma {:induction false} LastVisit(p: Walk, v: State) returns (i: nat)
    ensures i <= |p| && (i > 0 ==> p[i - 1].dst == v)
    ensures forall j | i <= j < |p| :: p[j].dst != v
    decreases |p|
  {
    if p == [] {
      i := 0;
    } else if p[|p| - 1].dst == v {
      i := |p|;
    } else {
      i := LastVisit(p[..|p| - 1], v);
    }
  }

  lemma OtherChain(g: Graph, t: Table, e: Edge, t': Table, v: State, p: Walk, chain: Walk) returns (q: Walk)
    requires g.Valid() && Sized(g, t) && e in g.edges && Improves(g, t, e, t') && Sized(g, t')
    requires Chain(g, t, p, v) && Chain(g, t', chain, e.dst)
    ensures Chain(g, t', q, v)
  {
    EdgeInside(g, e);
    var i := LastVisit(p, e.dst);
    LeadsSplit(g, g.pre, p, v, i);
    assert forall f <- p[i..] :: f in p;
    forall f <- p[i..]
      ensures f in g.edges && t'.res[f.dst] == Some(f)
    {
      var j :| 0 <= j < |p[i..]| && p[i..][j] == f;
      assert p[i + j] == f;
    }
    if i == 0 {
      assert p[0..] == p;
      q := p;
    } else {
      q := chain + p[i..];
      LeadsConcat(g, g.pre, chain, e.dst, p[i..], v);
    }
  }

  lemma RelaxChained(g: Graph, t: Table, e: Edge)
    requires g.Valid() && Sized(g, t) && e in g.edges && Predecessors(g, t)
    requires !HasLighteningCycle(g) && AllChained(g, t)
    ensures AllChained(g, Relax(g, t, e))
  {
    var t' := Relax(g, t, e);
    RelaxCases(g, t, e);
    if t' != t {
      EdgeInside(g, e);
      var chain := NewChain(g, t, e, t');
      forall v: State | v < g.size && Reached(g, t', v)
        ensures exists p: Walk :: Chain(g, t', p, v)
      {
        if v != e.dst {
          assert Reached(g, t, v);
          var p: Walk :| Chain(g, t, p, v);
          var q := OtherChain(g, t, e, t', v, p, chain);
        }
      }
    }
  }

  // ---------------------------------------------------------------------
  // Rounds
  // ---------------------------------------------------------------------

  ghost predicate Invariant(g: Graph, t: Table) {
    && g.Valid() && Sized(g, t) && Predecessors(g, t) && AllFound(g, t)
    && (!HasLighteningCycle(g) ==> AllChained(g, t))
  }

  lemma RelaxKeeps(g: Graph, t: Table, e: Edge)
    requires Invariant(g, t) && e in g.edges
    ensures Invariant(g, Relax(g, t, e))
  {
    RelaxPredecessors(g, t, e);
    RelaxFound(g, t, e);
    if !HasLighteningCycle(g) {
      RelaxChained(g, t, e);
    }
  }

  lemma {:induction false} RelaxToKeeps(g: Graph, t: Table, i: nat)
    requires Invariant(g, t) && i <= |g.edges|
    ensures Invariant(g, RelaxTo(g, t, i))
  {
    if i > 0 {
      RelaxToKeeps(g, t, i - 1);
      RelaxKeeps(g, RelaxTo(g, t, i - 1), g.edges[i - 1]);
    }
  }

  // The walks of at most k transitions are accounted for, also those that go on
  // with one of the i first transitions.
  ghost predicate BoundFirst(g: Graph, t: Table, k: nat, i: nat)
    requires g.Valid() && Sized(g, t) && i <= |g.edges|
  {
    Bound(g, t, k) && forall j | 0 <= j < i :: BoundBy(g, t, k, g.edges[j])
  }

  // Said of what equals t, so as to be looked into only where needed.
  ghost predicate BoundTo(g: Graph, t: Table, k: nat, i: nat)
    requires g.Valid() && Sized(g, t) && i <= |g.edges|
  {
    forall u | u == t :: Sized(g, u) && BoundFirst(g, u, k, i)
  }

  lemma RelaxKeepsBound(g: Graph, t: Table, k: nat, i: nat)
    requires g.Valid() && Sized(g, t) && i < |g.edges| && BoundTo(g, t, k, i)
    ensures Sized(g, Relax(g, t, g.edges[i])) && BoundTo(g, Relax(g, t, g.edges[i]), k, i + 1)
  {
    var e := g.edges[i];
    assert BoundFirst(g, t, k, i);
    RelaxLighter(g, t, e);
    LighterBound(g, t, Relax(g, t, e), k);
    RelaxBoundBy(g, t, k, e);
    forall j | 0 <= j < i
      ensures BoundBy(g, Relax(g, t, e), k, g.edges[j])
    {
      LighterBoundBy(g, t, Relax(g, t, e), k, g.edges[j]);
    }
    assert BoundFirst(g, Relax(g, t, e), k, i + 1);
  }

  lemma {:induction false} RelaxToBound(g: Graph, t: Table, k: nat, i: nat)
    requires g.Valid() && Sized(g, t) && i <= |g.edges| && BoundTo(g, t, k, 0)
    ensures Sized(g, RelaxTo(g, t, i)) && BoundTo(g, RelaxTo(g, t, i), k, i)
  {
    if i > 0 {
      var u := RelaxTo(g, t, i - 1);
      RelaxToBound(g, t, k, i - 1);
      RelaxKeepsBound(g, u, k, i - 1);
      assert RelaxTo(g, t, i) == Relax(g, u, g.edges[i - 1]);
    }
  }

  lemma BoundMore(g: Graph, t: Table, k: nat)
    requires g.Valid() && Sized(g, t) && Bound(g, t, k) && forall e <- g.edges :: BoundBy(g, t, k, e)
    ensures Bound(g, t, k + 1)
  {
    forall v: State, p: Walk | v < g.size && |p| <= k + 1 && Leads(g, g.pre, p, v)
      ensures Reached(g, t, v) && t.dist[v] <= Weight(p)
    {
      if |p| == k + 1 {
        LeadsSplit(g, g.pre, p, v, k);
        var e := p[k];
        assert p[k..] == [e];
        assert [e][1..] == [];
        assert BoundBy(g, t, k, e);
      }
    }
  }

  // A round accounts for one more transition.
  lemma RoundBound(g: Graph, t: Table, k: nat)
    requires g.Valid() && Sized(g, t) && Bound(g, t, k)
    ensures Sized(g, RelaxTo(g, t, |g.edges|)) && Bound(g, RelaxTo(g, t, |g.edges|), k + 1)
  {
    var t' := RelaxTo(g, t, |g.edges|);
    RelaxToBound(g, t, k, |g.edges|);
    assert BoundFirst(g, t', k, |g.edges|);
    forall e <- g.edges
      ensures BoundBy(g, t', k, e)
    {
      var j :| 0 <= j < |g.edges| && g.edges[j] == e;
    }
    BoundMore(g, t', k);
  }

  // After k rounds, the walks of at most k transitions are accounted for.
  lemma {:induction false} RoundsKeep(g: Graph, k: nat)
    requires g.Valid()
    ensures Invariant(g, Rounds(g, Start(g), k)) && Bound(g, Rounds(g, Start(g), k), k)
  {
    if k == 0 {
      StartKeeps(g);
    } else {
      RoundsKeep(g, k - 1);
      var t := Rounds(g, Start(g), k - 1);
      RelaxToKeeps(g, t, |g.edges|);
      RoundBound(g, t, k - 1);
    }
  }

  // ---------------------------------------------------------------------
  // Detecting lightening cycles
  // ---------------------------------------------------------------------

  // A transition between ordinary states.
  predicate Inner(g: Graph, e: Edge) {
    e in g.edges && e.src != g.pre && e.dst != g.post
  }

  predicate Relaxable(g: Graph, t: Table, e: Edge)
    requires |t.dist| == |t.res| && e.src < |t.res| && e.dst < |t.res|
  {
    t.res[e.src].Some? && (t.res[e.dst].None? || t.dist[e.src] + e.weight < t.dist[e.dst])
  }

  ghost predicate Settled(g: Graph, t: Table)
    requires g.Valid() && Sized(g, t)
  {
    forall e <- g.edges | Inner(g, e) :: !Relaxable(g, t, e)
  }

  // No walk at all is lighter than what was found.
  ghost predicate Lightest(g: Graph, t: Table)
    requires Sized(g, t)
  {
    forall v: State, p: Walk | v < g.size && Leads(g, g.pre, p, v) :: Reached(g, t, v) && t.dist[v] <= Weight(p)
  }

  lemma BoundIsLightest(g: Graph, t: Table)
    requires g.Valid() && Sized(g, t) && Bound(g, t, |g.states|) && !HasLighteningCycle(g)
    ensures Lightest(g, t)
  {
    forall v: State, p: Walk | v < g.size && Leads(g, g.pre, p, v)
      ensures Reached(g, t, v) && t.dist[v] <= Weight(p)
    {
      var q := ShortWalk(g, p, v);
    }
  }

  lemma LightestSettled(g: Graph, t: Table)
    requires Invariant(g, t) && Lightest(g, t)
    ensures Settled(g, t)
  {
    forall e <- g.edges | Inner(g, e) && t.res[e.src].Some?
      ensures !Relaxable(g, t, e)
    {
      LightestEdge(g, t, e);
    }
  }

  lemma LightestEdge(g: Graph, t: Table, e: Edge)
    requires Invariant(g, t) && Lightest(g, t) && e in g.edges && Inner(g, e)
    requires e.src < |t.res| && t.res[e.src].Some?
    ensures e.dst < |t.res| && !Relaxable(g, t, e)
  {
    EdgeInside(g, e);
    assert Reached(g, t, e.src);
    var p: Walk :| Found(g, t, e.src, p);
    OneEdge(g, e);
    LeadsConcat(g, g.pre, p, e.src, [e], e.dst);
    WeightConcat(p, [e]);
  }

  // All that is reachable was reached.
  lemma {:induction false} SettledReached(g: Graph, t: Table, p: Walk, v: State)
    requires Invariant(g, t) && Settled(g, t) && Bound(g, t, 1) && Leads(g, g.pre, p, v) && v != g.post
    ensures v < g.size && Reached(g, t, v)
    decreases |p|
  {
    LeadsInside(g, g.pre, p, v);
    if p != [] {
      var n := |p| - 1;
      LeadsSplit(g, g.pre, p, v, n);
      var e := p[n];
      assert p[n..] == [e];
      assert [e][1..] == [];
      assert e in g.edges && e.dst == v && Leads(g, g.pre, p[..n], e.src);
      EdgeInside(g, e);
      SettledReached(g, t, p[..n], e.src);
      if e.src == g.pre {
        OneEdge(g, e);
        assert |[e]| == 1 && Leads(g, g.pre, [e], v);
      } else {
        assert Inner(g, e) && !Relaxable(g, t, e);
      }
    }
  }

  // Between ordinary states, the distances do not exceed the walks.
  lemma {:induction false} Telescope(g: Graph, t: Table, u: State, p: Walk, v: State)
    requires g.Valid() && Sized(g, t) && Settled(g, t) && Leads(g, u, p, v)
    requires u < g.size && t.res[u].Some? && u != g.pre && v != g.post
    ensures v < g.size && t.res[v].Some? && t.dist[v] <= t.dist[u] + Weight(p)
    decreases |p|
  {
    if p != [] {
      var e := p[0];
      EdgeInside(g, e);
      assert e.dst != g.post by {
        if p[1..] != [] {
          EdgeInside(g, p[1]);
        }
      }
      assert Inner(g, e) && !Relaxable(g, t, e);
      Telescope(g, t, e.dst, p[1..], v);
    }
  }

  lemma SettledNoCycle(g: Graph, t: Table, v: State, c: Walk)
    requires Invariant(g, t) && Settled(g, t) && Bound(g, t, 1)
    ensures !LighteningCycle(g, v, c)
  {
    if LighteningCycle(g, v, c) {
      var p: Walk :| Leads(g, g.pre, p, v);
      EdgeInside(g, c[0]);
      LeadsSplit(g, v, c, v, |c| - 1);
      var last := c[|c| - 1];
      assert c[|c| - 1..] == [last];
      assert [last][1..] == [];
      EdgeInside(g, last);
      SettledReached(g, t, p, v);
      Telescope(g, t, v, c, v);
    }
  }

  // After as many rounds as there are states, no transition can be relaxed
  // iff there is no lightening cycle.
  lemma SettledIff(g: Graph)
    requires g.Valid()
    ensures var t := Rounds(g, Start(g), |g.states|);
            Sized(g, t) && (Settled(g, t) <==> !HasLighteningCycle(g))
  {
    var n := |g.states|;
    var t := Rounds(g, Start(g), n);
    RoundsKeep(g, n);
    assert n > 0 by {
      assert g.states == (g.states - {g.pre}) + {g.pre};
    }
    if !HasLighteningCycle(g) {
      BoundIsLightest(g, t);
      LightestSettled(g, t);
    }
    if Settled(g, t) {
      forall v, c: Walk
        ensures !LighteningCycle(g, v, c)
      {
        SettledNoCycle(g, t, v, c);
      }
    }
  }

  // ---------------------------------------------------------------------
  // The algorithm
  // ---------------------------------------------------------------------

  // No walk from pre to v is lighter than p.
  ghost predicate LightestWalk(g: Graph, p: Walk, v: State) {
    Leads(g, g.pre, p, v) && forall q: Walk | Leads(g, g.pre, q, v) :: Weight(p) <= Weight(q)
  }

  // p, read back from the predecessors, is a lightest walk to v.
  ghost predicate LightestChain(g: Graph, res: seq<Option<Edge>>, p: Walk, v: State) {
    && LightestWalk(g, p, v)
    && forall e <- p :: e.dst < |res| && res[e.dst] == Some(e)
  }

  // The predecessors give lightest walks to all reachable states, and only
  // to them.
  ghost predicate LightestTree(g: Graph, res: seq<Option<Edge>>) {
    && |res| == g.size && g.pre < g.size && res[g.pre].None?
    && (forall v: State | v < g.size && v != g.pre :: res[v].Some? <==> Reachable(g, v))
    && (forall v: State | v < g.size && Reachable(g, v) :: exists p: Walk :: LightestChain(g, res, p, v))
  }

  lemma LightestIsTree(g: Graph, t: Table)
    requires Invariant(g, t) && Lightest(g, t) && !HasLighteningCycle(g)
    ensures LightestTree(g, t.res)
  {
    forall v: State | v < g.size && v != g.pre
      ensures t.res[v].Some? <==> Reachable(g, v)
    {
      if t.res[v].Some? {
        assert Reached(g, t, v);
        var p: Walk :| Found(g, t, v, p);
      }
    }
    forall v: State | v < g.size && Reachable(g, v)
      ensures exists p: Walk :: LightestChain(g, t.res, p, v)
    {
      var q: Walk :| Leads(g, g.pre, q, v);
      var p: Walk :| Chain(g, t, p, v);
      ChainWeight(g, t, g.pre, p, v);
      forall e <- p
        ensures e.dst < |t.res|
      {
        EdgeInside(g, e);
      }
      assert LightestChain(g, t.res, p, v);
    }
  }

  // Relax a transition in place.
  method RelaxEdge(g: Graph, dist: seq<real>, res: seq<Option<Edge>>, e: Edge)
    returns (dist': seq<real>, res': seq<Option<Edge>>)
    requires |dist| == |res| && e.src < |res| && e.dst < |res|
    ensures |dist'| == |dist| && |res'| == |res| && Table(dist', res') == Relax(g, Table(dist, res), e)
  {
    dist', res' := dist, res;
    if res[e.src] != None || e.src == g.pre {
      var nw := dist[e.src] + e.weight;
      if res[e.dst] == None || nw < dist[e.dst] {
        dist', res' := dist[e.dst := nw], res[e.dst := Some(e)];
      }
    }
  }

  // Whether some transition between ordinary states can still be relaxed.
  method HasRelaxable(g: Graph, dist: seq<real>, res: seq<Option<Edge>>) returns (r: bool)
    requires g.Valid() && |dist| == |res| == g.size
    ensures !r <==> Settled(g, Table(dist, res))
  {
    var i := 0;
    while i < |g.edges|
      invariant i <= |g.edges|
      invariant forall j | 0 <= j < i && Inner(g, g.edges[j]) :: !Relaxable(g, Table(dist, res), g.edges[j])
    {
      var e := g.edges[i];
      EdgeInside(g, e);
      if e.src != g.pre && e.dst != g.post {
        assert Inner(g, e);
        if res[e.src] != None && (res[e.dst] == None || dist[e.src] + e.weight < dist[e.dst]) {
          return true;
        }
      }
      i := i + 1;
    }
    r := false;
  }

  // The table of the lightest incoming transitions, the first ones found, or
  // None if there is a lightening cycle.
  method LightestPredecessors(g: Graph) returns (r: Option<seq<Option<Edge>>>)
    requires g.Valid()
    ensures r.None? <==> HasLighteningCycle(g)
    ensures r.Some? ==> LightestTree(g, r.value) && r.value == Rounds(g, Start(g), |g.states|).res
  {
    var dist, res := InnerRounds(g);
    SettledIff(g);
    var lightening := HasRelaxable(g, dist, res);
    if lightening {
      return None;
    }
    RoundsKeep(g, |g.states|);
    BoundIsLightest(g, Table(dist, res));
    LightestIsTree(g, Table(dist, res));
    r := Some(res);
  }

  // As many rounds over the transitions as there are states.
  method InnerRounds(g: Graph) returns (dist: seq<real>, res: seq<Option<Edge>>)
    requires g.Valid()
    ensures |dist| == |res| == g.size && Table(dist, res) == Rounds(g, Start(g), |g.states|)
  {
    dist := seq(g.size, _ => 0.0);
    res := seq(g.size, _ => None);
    var k := 0;
    while k < |g.states|
      invariant k <= |g.states| && |dist| == |res| == g.size && Table(dist, res) == Rounds(g, Start(g), k)
    {
      ghost var t := Table(dist, res);
      var i := 0;
      while i < |g.edges|
        invariant i <= |g.edges| && |dist| == |res| == g.size && Table(dist, res) == RelaxTo(g, t, i)
      {
        EdgeInside(g, g.edges[i]);
        dist, res := RelaxEdge(g, dist, res, g.edges[i]);
        i := i + 1;
      }
      k := k + 1;
    }
  }

  // ---------------------------------------------------------------------
  // Reading a path back
  // ---------------------------------------------------------------------

  function Letters(p: Walk): seq<Letter> {
    if p == [] then [] else (if p[0].lbl.Some? then [p[0].lbl.value] else []) + Letters(p[1..])
  }

  lemma LettersPrepend(e: Edge, p: Walk)
    ensures Letters([e] + p) == (if e.lbl.Some? then [e.lbl.value] else []) + Letters(p)
    ensures Weight([e] + p) == e.weight + Weight(p)
  {
    assert ([e] + p)[1..] == p;
  }

  // The predecessor of the source of the i-th transition of p is the one
  // before, and the first one is from pre.
  lemma Back(g: Graph, path: seq<Option<Edge>>, p: Walk, v: State, i: nat)
    requires g.Valid() && |path| == g.size && Leads(g, g.pre, p, v) && i < |p|
    requires forall e <- p :: e.dst < |path| && path[e.dst] == Some(e)
    ensures p[i..] == [p[i]] + p[i + 1..] && p[i].src < g.size
    ensures i == 0 ==> p[i].src == g.pre
    ensures i > 0 ==> p[i].src != g.pre && path[p[i].src] == Some(p[i - 1])
  {
    LeadsSplit(g, g.pre, p, v, i);
    assert p[i..][0] == p[i];
    EdgeInside(g, p[i]);
    if i > 0 {
      assert p[i - 1] in p;
      LeadsSplit(g, g.pre, p, v, i - 1);
      assert p[i - 1..][0] == p[i - 1];
      EdgeInside(g, p[i - 1]);
    }
  }

  method ReadBack(g: Graph, path: seq<Option<Edge>>, dst: State, ghost p: Walk)
    returns (r: Option<(seq<Letter>, real)>)
    requires g.Valid() && |path| == g.size && dst < g.size && (p != [] ==> Leads(g, g.pre, p, dst))
    requires forall e <- p :: e.dst < |path| && path[e.dst] == Some(e)
    requires p != [] ==> path[dst] == Some(p[|p| - 1])
    requires p == [] ==> path[dst] == None
    ensures r == if p == [] then None else Some((Letters(p), Weight(p)))
  {
    r := None;
    var w, l := 0.0, [];
    var t := path[dst];
    ghost var i: nat := |p|;
    while t.Some?
      invariant i <= |p| && r == None && (p != [] ==> i > 0)
      invariant t == if p == [] then None else Some(p[i - 1])
      invariant l == Letters(p[i..]) && w == Weight(p[i..])
      decreases i
    {
      Back(g, path, p, dst, i - 1);
      LettersPrepend(p[i - 1], p[i..]);
      w := t.value.weight + w;
      if t.value.lbl.Some? {
        l := [t.value.lbl.value] + l;
      }
      if t.value.src == g.pre {
        assert i == 1 && p[i - 1..] == p;
        assert l == Letters(p[i - 1..]) && w == Weight(p[i - 1..]);
        r := Some((l, w));
        break;
      }
      t := path[t.value.src];
      i := i - 1;
    }
  }

  // The label and weight of a lightest path from pre to dst, if there is one.
  method PathMonomial(g: Graph, path: seq<Option<Edge>>, dst: State) returns (r: Option<(seq<Letter>, real)>)
    requires g.Valid() && LightestTree(g, path) && dst in g.states
    ensures r.Some? <==> dst != g.pre && Reachable(g, dst)
    ensures r.Some? ==> exists p: Walk :: LightestChain(g, path, p, dst) && r.value == (Letters(p), Weight(p))
  {
    ghost var p: Walk := [];
    if dst != g.pre && Reachable(g, dst) {
      p :| LightestChain(g, path, p, dst);
      LastOfChain(g, path, p, dst);
    }
    r := ReadBack(g, path, dst, p);
  }

  lemma LastOfChain(g: Graph, path: seq<Option<Edge>>, p: Walk, v: State)
    requires g.Valid() && LightestChain(g, path, p, v) && v != g.pre
    ensures p != [] && v < |path| && path[v] == Some(p[|p| - 1])
  {
    var n := |p| - 1;
    LeadsSplit(g, g.pre, p, v, n);
    assert p[n..] == [p[n]];
    assert [p[n]][1..] == [];
    assert p[n] in p;
  }
}
