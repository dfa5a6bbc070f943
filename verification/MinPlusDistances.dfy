// The distances between states, with weights that add up along the walks
// (vcsn/algos/distance.hh, vcsn/weightset/min-plus.hh).
module MinPlusDistances {
  import opened Wrappers
  import opened Sets
  import opened AllDistances

  datatype Dist = Inf | Fin(value: real)

  function Min(x: Dist, y: Dist): Dist {
    if x.Inf? then y else if y.Inf? then x else if x.value <= y.value then x else y
  }

  function Plus(x: Dist, y: Dist): Dist {
    if x.Inf? || y.Inf? then Inf else Fin(x.value + y.value)
  }

  // A loop that lightens has no star.
  function Star(x: Dist): Option<Dist> {
    if x.Inf? || 0.0 <= x.value then Some(Fin(0.0)) else None
  }

  function MinPlus(): Semiring<Dist> {
    Semiring(Inf, Fin(0.0), (x, y) => Min(x, y), (x, y) => Plus(x, y), x => Star(x))
  }

  lemma MinLaws(x: Dist, y: Dist, z: Dist)
    ensures Min(Min(x, y), z) == Min(x, Min(y, z)) && Min(x, y) == Min(y, x)
  {
  }

  lemma PlusLaws(x: Dist, y: Dist, z: Dist)
    ensures Plus(Plus(x, y), z) == Plus(x, Plus(y, z))
    ensures Plus(x, Min(y, z)) == Min(Plus(x, y), Plus(x, z))
    ensures Plus(Min(x, y), z) == Min(Plus(x, z), Plus(y, z))
  {
  }

  lemma MinPlusAssociates()
    ensures Associates(MinPlus())
  {
    var w := MinPlus();
    forall x, y, z
      ensures w.add(w.add(x, y), z) == w.add(x, w.add(y, z))
    {
      MinLaws(x, y, z);
    }
  }

  lemma MinPlusCommutes()
    ensures Commutes(MinPlus())
  {
    var w := MinPlus();
    forall x, y
      ensures w.add(x, y) == w.add(y, x)
    {
      MinLaws(x, y, x);
    }
  }

  lemma MinPlusProducts()
    ensures Products(MinPlus())
  {
    var w := MinPlus();
    forall x, y, z
      ensures w.mul(w.mul(x, y), z) == w.mul(x, w.mul(y, z))
    {
      PlusLaws(x, y, z);
    }
  }

  lemma MinPlusConstants()
    ensures Constants(MinPlus())
  {
    var w := MinPlus();
    forall x
      ensures w.mul(w.one, x) == x && w.mul(x, w.one) == x
      ensures w.mul(w.zero, x) == w.zero && w.mul(x, w.zero) == w.zero
    {
      assert Plus(Fin(0.0), x) == x == Plus(x, Fin(0.0));
    }
  }

  lemma MinPlusDistributes()
    ensures Distributes(MinPlus())
  {
    var w := MinPlus();
    forall x, y, z
      ensures w.mul(x, w.add(y, z)) == w.add(w.mul(x, y), w.mul(x, z))
      ensures w.mul(w.add(x, y), z) == w.add(w.mul(x, z), w.mul(y, z))
    {
      PlusLaws(x, y, z);
    }
  }

  lemma MinPlusStars()
    ensures Stars(MinPlus())
  {
  }

  lemma MinPlusLaws()
    ensures Laws(MinPlus())
  {
    MinPlusAssociates();
    MinPlusCommutes();
    MinPlusProducts();
    MinPlusConstants();
    MinPlusDistributes();
    MinPlusStars();
    assert Axioms(MinPlus());
  }

  // ---------------------------------------------------------------------
  // Walks
  // ---------------------------------------------------------------------

  type Walk = seq<Edge<Dist>>

  predicate Leads(edges: seq<Edge<Dist>>, i: State, p: Walk, j: State)
    decreases |p|
  {
    if p == [] then i == j else p[0] in edges && p[0].src == i && Leads(edges, p[0].dst, p[1..], j)
  }

  function Weight(p: Walk): Dist {
    if p == [] then Fin(0.0) else Plus(p[0].weight, Weight(p[1..]))
  }

  predicate AtMost(x: Dist, y: Dist) {
    y.Inf? || (x.Fin? && x.value <= y.value)
  }

  lemma {:induction false} LeadsConcat(edges: seq<Edge<Dist>>, i: State, p: Walk, k: State, q: Walk, j: State)
    requires Leads(edges, i, p, k) && Leads(edges, k, q, j)
    ensures Leads(edges, i, p + q, j) && Weight(p + q) == Plus(Weight(p), Weight(q))
    decreases |p|
  {
    if p == [] {
      assert p + q == q;
    } else {
      LeadsConcat(edges, p[0].dst, p[1..], k, q, j);
      assert (p + q)[1..] == p[1..] + q;
    }
  }

  // ---------------------------------------------------------------------
  // The distances are those of walks
  // ---------------------------------------------------------------------

  ghost predicate Attained(edges: seq<Edge<Dist>>, i: State, j: State, x: Dist) {
    x.Inf? || exists p: Walk :: Leads(edges, i, p, j) && Weight(p) == x
  }

  ghost predicate AllAttained(edges: seq<Edge<Dist>>, r: Matrix<Dist>, all: seq<State>, n: nat)
    requires Square(r, n) && Inside(all, n)
  {
    forall i, j | i in all && j in all :: Attained(edges, i, j, r[i][j])
  }

  lemma OneEdge(edges: seq<Edge<Dist>>, e: Edge<Dist>)
    requires e in edges
    ensures Attained(edges, e.src, e.dst, e.weight)
  {
    assert [e][1..] == [];
    assert Leads(edges, e.dst, [], e.dst);
    assert Leads(edges, e.src, [e], e.dst) && Weight([e]) == Plus(e.weight, Fin(0.0));
  }

  lemma {:induction false} SumAttained(edges: seq<Edge<Dist>>, some: seq<Edge<Dist>>, i: State, j: State)
    requires forall e <- some :: e in edges
    ensures Attained(edges, i, j, EdgeSum(MinPlus(), some, i, j))
  {
    if some != [] {
      var e, rest := some[|some| - 1], some[..|some| - 1];
      assert e in some && forall f | f in rest :: f in some;
      SumAttained(edges, rest, i, j);
      OneEdge(edges, e);
    }
  }

  lemma JoinAttained(edges: seq<Edge<Dist>>, i: State, k: State, j: State, x: Dist, y: Dist)
    requires Attained(edges, i, k, x) && Attained(edges, k, j, y)
    ensures Attained(edges, i, j, Plus(x, y))
  {
    if x.Fin? && y.Fin? {
      var p: Walk :| Leads(edges, i, p, k) && Weight(p) == x;
      var q: Walk :| Leads(edges, k, q, j) && Weight(q) == y;
      LeadsConcat(edges, i, p, k, q, j);
    }
  }

  lemma StepAttained(edges: seq<Edge<Dist>>, r: Matrix<Dist>, all: seq<State>, n: nat, q: State, s: Dist, i: State,
                     j: State)
    requires Square(r, n) && Inside(all, n) && q in all && i in all && j in all && AllAttained(edges, r, all, n)
    requires Star(r[q][q]) == Some(s)
    ensures Attained(edges, i, j, NewEntry(MinPlus(), r, n, q, s, i, j))
  {
    assert Attained(edges, i, j, r[i][j]) && Attained(edges, i, q, r[i][q]) && Attained(edges, q, j, r[q][j]);
    assert s == Fin(0.0);
    if i == q && j == q {
      assert Leads(edges, q, [], q) && Weight([]) == s;
    } else if i != q && j != q {
      JoinAttained(edges, i, q, j, r[i][q], r[q][j]);
      assert Plus(Plus(r[i][q], s), r[q][j]) == Plus(r[i][q], r[q][j]);
    }
  }

  // What the elimination of some states finds, walks realize.
  lemma {:induction false} ObtainedAttained(edges: seq<Edge<Dist>>, m: Matrix<Dist>, ks: seq<State>, all: seq<State>,
                                            n: nat, r: Matrix<Dist>)
    requires Square(m, n) && Inside(ks, n) && Inside(all, n) && (forall k <- ks :: k in all) && Square(r, n)
    requires m == MatrixOf(MinPlus(), edges, n) && Obtained(MinPlus(), m, ks, all, n, r)
    ensures AllAttained(edges, r, all, n)
    decreases |ks|
  {
    if ks == [] {
      forall i, j | i in all && j in all
        ensures Attained(edges, i, j, r[i][j])
      {
        SumAttained(edges, edges, i, j);
      }
    } else {
      InsidePrefix(ks, n);
      var q, rest := Last(ks), Front(ks);
      assert q in ks && forall l | l in rest :: l in ks;
      var r0, s :| Obtained(MinPlus(), m, rest, all, n, r0) && Obtains(MinPlus(), all, n, q, r0, s, r);
      assert q in all && Square(r0, n) && Star(r0[q][q]) == Some(s);
      ObtainedAttained(edges, m, rest, all, n, r0);
      forall i, j | i in all && j in all
        ensures Attained(edges, i, j, r[i][j])
      {
        StepAttained(edges, r0, all, n, q, s, i, j);
        assert r[i][j] == NewEntry(MinPlus(), r0, n, q, s, i, j);
      }
    }
  }

  // ---------------------------------------------------------------------
  // No walk is lighter
  // ---------------------------------------------------------------------

  lemma {:induction false} SumAtMost(some: seq<Edge<Dist>>, e: Edge<Dist>)
    requires e in some
    ensures AtMost(EdgeSum(MinPlus(), some, e.src, e.dst), e.weight)
  {
    var last, rest := some[|some| - 1], some[..|some| - 1];
    if e in rest {
      SumAtMost(rest, e);
    } else {
      assert some == rest + [last];
    }
  }

  lemma {:induction false} ThroughAtMost(m: Matrix<Dist>, r: Matrix<Dist>, ks: seq<State>, n: nat, i: State, k: State,
                                         j: State)
    requires Square(m, n) && Square(r, n) && Inside(ks, n) && i < n && j < n && k in ks
    ensures k < n && AtMost(Through(MinPlus(), m, r, ks, n, i, j), Plus(m[i][k], r[k][j]))
    decreases |ks|
  {
    InsidePrefix(ks, n);
    var last, rest := ks[|ks| - 1], ks[..|ks| - 1];
    if k in rest {
      ThroughAtMost(m, r, rest, n, i, k, j);
    } else {
      assert ks == rest + [last];
    }
  }

  // The transitions are between ordinary states, or from pre, or to post.
  ghost predicate Pointed(edges: seq<Edge<Dist>>, states: seq<State>, pre: State, post: State) {
    && pre !in states && post !in states && pre != post
    && forall e <- edges ::
         && (e.src in states || e.src == pre) && (e.dst in states || e.dst == post)
         && e.dst != pre && e.src != post
  }

  // There is no walk from post.
  lemma PostEnds(edges: seq<Edge<Dist>>, states: seq<State>, pre: State, post: State, p: Walk, j: State)
    requires Pointed(edges, states, pre, post) && Leads(edges, post, p, j)
    ensures p == [] && j == post
  {
  }

  // Two different states, or the same ordinary one.
  predicate Apart(states: seq<State>, i: State, j: State) {
    i != j || i in states
  }

  lemma {:induction false} NoneLighter(edges: seq<Edge<Dist>>, r: Matrix<Dist>, states: seq<State>, all: seq<State>,
                                       n: nat, pre: State, post: State, i: State, p: Walk, j: State)
    requires Square(r, n) && Inside(states, n) && Inside(all, n) && (forall s <- states :: s in all)
    requires Pointed(edges, states, pre, post) && i in all && j in all && Apart(states, i, j)
    requires IsStar(MinPlus(), MatrixOf(MinPlus(), edges, n), r, states, all, n)
    requires Leads(edges, i, p, j)
    ensures AtMost(r[i][j], Weight(p))
    decreases |p|
  {
    var m := MatrixOf(MinPlus(), edges, n);
    var through := Through(MinPlus(), m, r, states, n, i, j);
    assert r[i][j] == Min(if j in states then Delta(MinPlus(), i, j) else m[i][j], through);
    if p != [] {
      var e := p[0];
      SumAtMost(edges, e);
      if e.dst in states {
        NoneLighter(edges, r, states, all, n, pre, post, e.dst, p[1..], j);
        ThroughAtMost(m, r, states, n, i, e.dst, j);
      } else {
        PostEnds(edges, states, pre, post, p[1..], j);
        assert Weight(p[1..]) == Fin(0.0);
      }
    }
  }

  // ---------------------------------------------------------------------
  // Loops of pre and post
  // ---------------------------------------------------------------------

  lemma {:induction false} NoEdgeSum(some: seq<Edge<Dist>>, i: State, j: State)
    requires forall e <- some :: e.src != i || e.dst != j
    ensures EdgeSum(MinPlus(), some, i, j) == Inf
  {
    if some != [] {
      var last, rest := some[|some| - 1], some[..|some| - 1];
      assert last in some && forall e <- rest :: e in some;
      NoEdgeSum(rest, i, j);
    }
  }

  lemma {:induction false} ThroughNothing(m: Matrix<Dist>, r: Matrix<Dist>, ks: seq<State>, n: nat, i: State, j: State)
    requires Square(m, n) && Square(r, n) && Inside(ks, n) && i < n && j < n
    ensures (forall k <- ks :: m[i][k] == Inf) ==> Through(MinPlus(), m, r, ks, n, i, j) == Inf
    ensures (forall k <- ks :: m[k][j] == Inf) ==> ThroughBack(MinPlus(), r, m, ks, n, i, j) == Inf
    decreases |ks|
  {
    if ks != [] {
      var last, rest := ks[|ks| - 1], ks[..|ks| - 1];
      assert last in ks && forall k <- rest :: k in ks;
      InsidePrefix(ks, n);
      ThroughNothing(m, r, rest, n, i, j);
    }
  }

  // What is not ordinary keeps the entry without transitions.
  lemma NoLoop(edges: seq<Edge<Dist>>, r: Matrix<Dist>, states: seq<State>, all: seq<State>, n: nat, pre: State,
               post: State, i: State)
    requires Square(r, n) && Inside(states, n) && Inside(all, n)
    requires Pointed(edges, states, pre, post) && i in all && i !in states
    requires IsStar(MinPlus(), MatrixOf(MinPlus(), edges, n), r, states, all, n)
    ensures r[i][i] == Inf
  {
    var m := MatrixOf(MinPlus(), edges, n);
    NoEdgeSum(edges, i, i);
    assert r[i][i] == Min(m[i][i], Through(MinPlus(), m, r, states, n, i, i));
    assert r[i][i] == Min(m[i][i], ThroughBack(MinPlus(), r, m, states, n, i, i));
    forall k <- states
      ensures i != pre ==> m[i][k] == Inf
      ensures i == pre ==> m[k][i] == Inf
    {
      if i == pre {
        NoEdgeSum(edges, k, i);
      } else {
        NoEdgeSum(edges, i, k);
      }
    }
    ThroughNothing(m, r, states, n, i, i);
  }

  // ---------------------------------------------------------------------
  // Distances
  // ---------------------------------------------------------------------

  // d is the lightest weight of the walks from i to j; Inf if there is none.
  ghost predicate IsDistance(edges: seq<Edge<Dist>>, i: State, j: State, d: Dist) {
    Attained(edges, i, j, d) && forall p: Walk | Leads(edges, i, p, j) :: AtMost(d, Weight(p))
  }

  ghost predicate LighteningCycle(edges: seq<Edge<Dist>>, i: State, p: Walk) {
    Leads(edges, i, p, i) && Weight(p).Fin? && Weight(p).value < 0.0
  }

  ghost predicate HasLighteningCycle(edges: seq<Edge<Dist>>) {
    exists i, p: Walk :: LighteningCycle(edges, i, p)
  }

  // Going round the cycle once more would be lighter.
  lemma DistanceNoCycle(edges: seq<Edge<Dist>>, i: State, d: Dist, c: Walk)
    requires IsDistance(edges, i, i, d)
    ensures !LighteningCycle(edges, i, c)
  {
    if Leads(edges, i, c, i) && Weight(c).Fin? {
      assert AtMost(d, Weight(c));
      var q: Walk :| Leads(edges, i, q, i) && Weight(q) == d;
      LeadsConcat(edges, i, q, i, c, i);
      assert AtMost(d, Weight(q + c));
    }
  }

  // A lightening cycle only visits ordinary states.
  lemma {:induction false} LastIn(edges: seq<Edge<Dist>>, i: State, p: Walk, j: State)
    requires p != [] && Leads(edges, i, p, j)
    ensures (exists e :: e in edges && e.src == i) && exists e :: e in edges && e.dst == j
    decreases |p|
  {
    assert p[0] in edges && p[0].src == i;
    if p[1..] != [] {
      LastIn(edges, p[0].dst, p[1..], j);
    }
  }

  lemma NoLighteningCycle(edges: seq<Edge<Dist>>, states: seq<State>, pre: State, post: State, n: nat, r: Matrix<Dist>)
    requires Pointed(edges, states, pre, post) && Square(r, n) && Inside(states, n)
    requires forall i | i in states :: IsDistance(edges, i, i, r[i][i])
    ensures !HasLighteningCycle(edges)
  {
    forall i: State, p: Walk
      ensures !LighteningCycle(edges, i, p)
    {
      if i in states {
        DistanceNoCycle(edges, i, r[i][i], p);
      } else if p != [] && Leads(edges, i, p, i) {
        LastIn(edges, i, p, i);
      }
    }
  }

  // The distances between all the states, pre and post included; there is none
  // from pre to itself, nor from post to itself.
  ghost predicate AreDistances(edges: seq<Edge<Dist>>, r: Matrix<Dist>, states: seq<State>, all: seq<State>, n: nat)
    requires Square(r, n) && Inside(all, n)
  {
    forall i, j | i in all && j in all ::
      if Apart(states, i, j) then IsDistance(edges, i, j, r[i][j]) else r[i][j] == Inf
  }

  lemma StarIsDistances(edges: seq<Edge<Dist>>, r: Matrix<Dist>, states: seq<State>, all: seq<State>, n: nat,
                        pre: State, post: State)
    requires Square(r, n) && Inside(states, n) && Inside(all, n) && (forall s <- states :: s in all)
    requires Pointed(edges, states, pre, post) && AllAttained(edges, r, all, n)
    requires IsStar(MinPlus(), MatrixOf(MinPlus(), edges, n), r, states, all, n)
    ensures AreDistances(edges, r, states, all, n)
  {
    forall i, j | i in all && j in all
      ensures if Apart(states, i, j) then IsDistance(edges, i, j, r[i][j]) else r[i][j] == Inf
    {
      if Apart(states, i, j) {
        forall p: Walk | Leads(edges, i, p, j)
          ensures AtMost(r[i][j], Weight(p))
        {
          NoneLighter(edges, r, states, all, n, pre, post, i, p, j);
        }
      } else {
        NoLoop(edges, r, states, all, n, pre, post, i);
      }
    }
  }

  // The distances between states, unless there is a lightening cycle.
  method LightestDistances(n: nat, all: seq<State>, states: seq<State>, pre: State, post: State, edges: seq<Edge<Dist>>)
    returns (r: Option<Matrix<Dist>>)
    requires Inside(all, n) && Distinct(all) && Distinct(states) && Inside(states, n)
    requires forall s <- states :: s in all
    requires Pointed(edges, states, pre, post) && forall e <- edges :: e.src < n && e.dst < n
    ensures r.None? <==> HasLighteningCycle(edges)
    ensures r.Some? ==> Square(r.value, n) && AreDistances(edges, r.value, states, all, n)
  {
    MinPlusLaws();
    ghost var m := MatrixOf(MinPlus(), edges, n);
    r := Distances(MinPlus(), n, all, states, edges);
    if r.None? {
      ghost var c: nat, r0 :| Blocked(MinPlus(), m, states, all, n, c, r0);
      BlockedLightens(edges, m, states, all, n, c, r0);
    } else {
      ObtainedAttained(edges, m, states, all, n, r.value);
      StarIsDistances(edges, r.value, states, all, n, pre, post);
      NoLighteningCycle(edges, states, pre, post, n, r.value);
    }
  }

  lemma BlockedLightens(edges: seq<Edge<Dist>>, m: Matrix<Dist>, states: seq<State>, all: seq<State>, n: nat, c: nat,
                        r: Matrix<Dist>)
    requires Square(m, n) && Inside(states, n) && Inside(all, n) && m == MatrixOf(MinPlus(), edges, n)
    requires (forall s <- states :: s in all) && Blocked(MinPlus(), m, states, all, n, c, r)
    ensures HasLighteningCycle(edges)
  {
    var q := states[c];
    assert forall l | l in states[..c] :: l in states;
    ObtainedAttained(edges, m, states[..c], all, n, r);
    assert q in states && Attained(edges, q, q, r[q][q]);
    var p: Walk :| Leads(edges, q, p, q) && Weight(p) == r[q][q];
    assert LighteningCycle(edges, q, p);
  }
}
