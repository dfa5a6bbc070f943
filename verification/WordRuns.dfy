// The runs that read a word, and their weights, without spontaneous
// transitions: the sum over the runs is given by products of matrices.
module WordRuns {
  import opened Wrappers
  import opened Sets
  import opened BoolAutomata
  import opened WeightedAutomata
  import opened Runs
  import opened Sums
  import W = AllDistances

  // All the states, each one once.
  ghost predicate Covers<L>(a: Automaton<L>, states: seq<State>) {
    a.Valid() && Distinct(states) && forall s :: s in states <==> s in a.states
  }

  // ---------------------------------------------------------------------
  // The paths that read a word
  // ---------------------------------------------------------------------

  function Prepend<L>(t: Transition<L>, ps: seq<Path<L>>): (qs: seq<Path<L>>)
    ensures |qs| == |ps| && forall i | 0 <= i < |ps| :: qs[i] == [t] + ps[i]
  {
    seq(|ps|, i requires 0 <= i < |ps| => [t] + ps[i])
  }

  // The paths from s to a final state.
  function Paths<L(==)>(a: Automaton<L>, states: seq<State>, s: State, u: seq<L>): seq<Path<L>>
    decreases |u|, |states| + 1
  {
    if u == [] then if s in a.final then [[]] else []
    else PathsVia(a, states, s, u, |states|)
  }

  // Those that start with a transition to one of the first k states.
  function PathsVia<L(==)>(a: Automaton<L>, states: seq<State>, s: State, u: seq<L>, k: nat): seq<Path<L>>
    requires u != [] && k <= |states|
    decreases |u|, k
  {
    if k == 0 then [] else PathsVia(a, states, s, u, k - 1) + PathsThrough(a, states, s, u, states[k - 1])
  }

  // Those that start with a transition to d.
  function PathsThrough<L(==)>(a: Automaton<L>, states: seq<State>, s: State, u: seq<L>, d: State): seq<Path<L>>
    requires u != []
    decreases |u|, 0
  {
    if Transition(s, u[0], d) in a.transitions then Prepend(Transition(s, u[0], d), Paths(a, states, d, u[1..])) else []
  }

  // ts leads from s to a final state, and reads u.
  ghost predicate ReadsFrom<L>(a: Automaton<L>, s: State, u: seq<L>, ts: Path<L>) {
    IsPath(a, s, ts, End(s, ts)) && End(s, ts) in a.final && Letters(None, ts) == u
  }

  lemma InPrepend<L(!new)>(t: Transition<L>, ps: seq<Path<L>>, ts: Path<L>)
    ensures ts in Prepend(t, ps) <==> ts != [] && ts[0] == t && ts[1..] in ps
  {
    if ts in Prepend(t, ps) {
      var i :| 0 <= i < |ps| && Prepend(t, ps)[i] == ts;
      assert ts[1..] == ps[i];
    }
    if ts != [] && ts[0] == t && ts[1..] in ps {
      var i :| 0 <= i < |ps| && ps[i] == ts[1..];
      assert Prepend(t, ps)[i] == ts;
    }
  }

  lemma {:induction false} InPathsVia<L(!new)>(a: Automaton<L>, states: seq<State>, s: State, u: seq<L>, k: nat,
                                               ts: Path<L>)
    requires u != [] && k <= |states|
    ensures ts in PathsVia(a, states, s, u, k) <==>
              exists j :: 0 <= j < k && ts in PathsThrough(a, states, s, u, states[j])
    decreases k
  {
    if k > 0 {
      InPathsVia(a, states, s, u, k - 1, ts);
    }
  }

  lemma {:induction false} InPaths<L(!new)>(a: Automaton<L>, states: seq<State>, s: State, u: seq<L>, ts: Path<L>)
    requires Covers(a, states)
    ensures ts in Paths(a, states, s, u) <==> ReadsFrom(a, s, u, ts)
    decreases |u|
  {
    if u == [] {
      assert Letters(None, ts) == [] <==> ts == [];
    } else {
      InPathsVia(a, states, s, u, |states|, ts);
      if ts in Paths(a, states, s, u) {
        var j :| 0 <= j < |states| && ts in PathsThrough(a, states, s, u, states[j]);
        InPathsThrough(a, states, s, u, states[j], ts);
      }
      if ReadsFrom(a, s, u, ts) {
        PathsThroughAll(a, states, s, u, ts);
      }
    }
  }

  lemma {:induction false} InPathsThrough<L(!new)>(a: Automaton<L>, states: seq<State>, s: State, u: seq<L>, d: State,
                                                   ts: Path<L>)
    requires Covers(a, states) && u != [] && ts in PathsThrough(a, states, s, u, d)
    ensures ReadsFrom(a, s, u, ts)
    decreases |u|, 0
  {
    var t := Transition(s, u[0], d);
    InPrepend(t, Paths(a, states, d, u[1..]), ts);
    InPaths(a, states, d, u[1..], ts[1..]);
    LettersPrepend(None, t, ts[1..]);
    assert ts == [t] + ts[1..] && u == [u[0]] + u[1..];
  }

  lemma {:induction false} PathsThroughAll<L(!new)>(a: Automaton<L>, states: seq<State>, s: State, u: seq<L>,
                                                    ts: Path<L>)
    requires Covers(a, states) && u != [] && ReadsFrom(a, s, u, ts)
    ensures exists j :: 0 <= j < |states| && ts in PathsThrough(a, states, s, u, states[j])
    decreases |u|, 0
  {
    var t := ts[0];
    assert ts == [t] + ts[1..];
    LettersPrepend(None, t, ts[1..]);
    assert Letters(None, ts)[0] == t.lbl && Letters(None, ts)[1..] == Letters(None, ts[1..]);
    InPaths(a, states, t.dst, u[1..], ts[1..]);
    InPrepend(t, Paths(a, states, t.dst, u[1..]), ts);
    var j :| 0 <= j < |states| && states[j] == t.dst;
    assert ts in PathsThrough(a, states, s, u, states[j]);
  }

  lemma PrependDistinct<L(!new)>(t: Transition<L>, ps: seq<Path<L>>)
    requires Distinct(ps)
    ensures Distinct(Prepend(t, ps))
  {
    forall i, j | 0 <= i < j < |ps|
      ensures [t] + ps[i] != [t] + ps[j]
    {
      assert ([t] + ps[i])[1..] == ps[i] && ([t] + ps[j])[1..] == ps[j];
    }
  }

  lemma {:induction false} PathsDistinct<L(!new)>(a: Automaton<L>, states: seq<State>, s: State, u: seq<L>)
    requires Covers(a, states)
    ensures Distinct(Paths(a, states, s, u))
    decreases |u|, |states| + 1
  {
    if u != [] {
      PathsViaDistinct(a, states, s, u, |states|);
    }
  }

  lemma {:induction false} PathsViaDistinct<L(!new)>(a: Automaton<L>, states: seq<State>, s: State, u: seq<L>, k: nat)
    requires Covers(a, states) && u != [] && k <= |states|
    ensures Distinct(PathsVia(a, states, s, u, k))
    decreases |u|, k
  {
    if k > 0 {
      var d := states[k - 1];
      PathsViaDistinct(a, states, s, u, k - 1);
      PathsDistinct(a, states, d, u[1..]);
      PrependDistinct(Transition(s, u[0], d), Paths(a, states, d, u[1..]));
      forall ts <- PathsVia(a, states, s, u, k - 1)
        ensures ts !in PathsThrough(a, states, s, u, d)
      {
        InPathsVia(a, states, s, u, k - 1, ts);
        var j :| 0 <= j < k - 1 && ts in PathsThrough(a, states, s, u, states[j]);
        InPrepend(Transition(s, u[0], states[j]), Paths(a, states, states[j], u[1..]), ts);
        InPrepend(Transition(s, u[0], d), Paths(a, states, d, u[1..]), ts);
      }
      ConcatDistinct(PathsVia(a, states, s, u, k - 1), PathsThrough(a, states, s, u, d));
    }
  }

  // ---------------------------------------------------------------------
  // The runs that read a word
  // ---------------------------------------------------------------------

  // The runs from the first k states.
  function RunsTo<L(==)>(a: Automaton<L>, states: seq<State>, u: seq<L>, k: nat): seq<Run<L>>
    requires k <= |states|
  {
    if k == 0 then [] else RunsTo(a, states, u, k - 1) + RunsAt(a, states, u, states[k - 1])
  }

  function RunsAt<L(==)>(a: Automaton<L>, states: seq<State>, u: seq<L>, s: State): seq<Run<L>> {
    if s in a.initial then Row(s, Paths(a, states, s, u)) else []
  }

  lemma {:induction false} InRunsTo<L(!new)>(a: Automaton<L>, states: seq<State>, u: seq<L>, k: nat, r: Run<L>)
    requires Covers(a, states) && k <= |states|
    ensures r in RunsTo(a, states, u, k) <==> r.0 in states[..k] && r.0 in a.initial && r.1 in Paths(a, states, r.0, u)
    decreases k
  {
    if k > 0 {
      var s := states[k - 1];
      InRunsTo(a, states, u, k - 1, r);
      InRow(s, Paths(a, states, s, u), r);
      assert states[..k] == states[..k - 1] + [s];
    }
  }

  lemma RowDistinct<X(!new), Y(!new)>(x: X, ys: seq<Y>)
    requires Distinct(ys)
    ensures Distinct(Row(x, ys))
  {
  }

  lemma {:induction false} RunsToDistinct<L(!new)>(a: Automaton<L>, states: seq<State>, u: seq<L>, k: nat)
    requires Covers(a, states) && k <= |states|
    ensures Distinct(RunsTo(a, states, u, k))
    decreases k
  {
    if k > 0 {
      var s := states[k - 1];
      RunsToDistinct(a, states, u, k - 1);
      if s in a.initial {
        PathsDistinct(a, states, s, u);
        RowDistinct(s, Paths(a, states, s, u));
        forall r <- RunsTo(a, states, u, k - 1)
          ensures r !in Row(s, Paths(a, states, s, u))
        {
          InRunsTo(a, states, u, k - 1, r);
          InRow(s, Paths(a, states, s, u), r);
        }
        ConcatDistinct(RunsTo(a, states, u, k - 1), Row(s, Paths(a, states, s, u)));
      }
    }
  }

  lemma AllRuns<L(!new)>(a: Automaton<L>, states: seq<State>, u: seq<L>)
    requires Covers(a, states)
    ensures Lists(a, None, u, RunsTo(a, states, u, |states|))
  {
    RunsToDistinct(a, states, u, |states|);
    forall r: Run<L>
      ensures r in RunsTo(a, states, u, |states|) <==> Reads(a, None, r, u)
    {
      InRunsTo(a, states, u, |states|, r);
      assert states[..|states|] == states;
      InPaths(a, states, r.0, u, r.1);
      RunEnds(a, r);
    }
  }

  lemma RunEnds<L(!new)>(a: Automaton<L>, r: Run<L>)
    ensures Accepting(a, r.0, r.1)
            <==> r.0 in a.initial && End(r.0, r.1) in a.final && IsPath(a, r.0, r.1, End(r.0, r.1))
  {
    if Accepting(a, r.0, r.1) {
      var d :| d in a.final && IsPath(a, r.0, r.1, d);
      PathEnd(a, r.0, r.1, d);
    }
  }

  // ---------------------------------------------------------------------
  // Products of matrices
  // ---------------------------------------------------------------------

  // The sum of the k first products.
  function Dot<K>(w: W.Semiring<K>, r: seq<K>, f: seq<K>, k: nat): K
    requires k <= |r| && k <= |f|
  {
    if k == 0 then w.zero else w.add(Dot(w, r, f, k - 1), w.mul(r[k - 1], f[k - 1]))
  }

  lemma DotMore<K>(w: W.Semiring<K>, r: seq<K>, f: seq<K>, k: nat)
    requires 0 < k <= |r| && k <= |f|
    ensures Dot(w, r, f, k) == w.add(Dot(w, r, f, k - 1), w.mul(r[k - 1], f[k - 1]))
  {
  }

  // The weights that m gives to what is listed.
  function Vector<X, K>(w: W.Semiring<K>, m: map<X, K>, xs: seq<X>): (v: seq<K>)
    ensures |v| == |xs| && forall i | 0 <= i < |xs| :: v[i] == At(w.zero, m, xs[i])
  {
    seq(|xs|, i requires 0 <= i < |xs| => At(w.zero, m, xs[i]))
  }

  // The transitions from s labelled l.
  function RowOf<L>(states: seq<State>, s: State, l: L): (ts: seq<Transition<L>>)
    ensures |ts| == |states| && forall i | 0 <= i < |states| :: ts[i] == Transition(s, l, states[i])
  {
    seq(|states|, i requires 0 <= i < |states| => Transition(s, l, states[i]))
  }

  // What each state gives to u: the product of the matrices of its letters and
  // of the final weights.
  function Futures<L, K>(w: W.Semiring<K>, a: Weighted<L, K>, states: seq<State>, u: seq<L>): (v: seq<K>)
    ensures |v| == |states|
    decreases |u|
  {
    if u == [] then Vector(w, a.final, states)
    else
      var f := Futures(w, a, states, u[1..]);
      seq(|states|, i requires 0 <= i < |states| =>
        Dot(w, Vector(w, a.transitions, RowOf(states, states[i], u[0])), f, |states|))
  }

  function Weight<L, K>(w: W.Semiring<K>, a: Weighted<L, K>, states: seq<State>, u: seq<L>): K {
    Dot(w, Vector(w, a.initial, states), Futures(w, a, states, u), |states|)
  }

  // ---------------------------------------------------------------------
  // The weights of the runs
  // ---------------------------------------------------------------------

  // The weight of a path from s, with the final one.
  function WeightFrom<L, K>(w: W.Semiring<K>, a: Weighted<L, K>, s: State): Path<L> -> K {
    (ts: Path<L>) => w.mul(PathWeight(w, a, ts), At(w.zero, a.final, End(s, ts)))
  }

  // The sum over the paths from s that read u.
  function PathsWeight<L, K>(w: W.Semiring<K>, a: Weighted<L, K>, states: seq<State>, s: State, u: seq<L>): K {
    Sum(w, WeightFrom(w, a, s), Paths(a.Support(), states, s, u))
  }

  lemma PrependFrom<L(!new), K(!new)>(w: W.Semiring<K>, a: Weighted<L, K>, t: Transition<L>, ts: Path<L>)
    requires W.Laws(w)
    ensures WeightFrom(w, a, t.src)([t] + ts) == w.mul(At(w.zero, a.transitions, t), WeightFrom(w, a, t.dst)(ts))
  {
    WeightPrepend(w, a, t, ts);
    assert ([t] + ts)[0] == t && ([t] + ts)[1..] == ts;
    assert End(t.src, [t] + ts) == End(t.dst, ts);
    W.MulAssociative(w, At(w.zero, a.transitions, t), PathWeight(w, a, ts), At(w.zero, a.final, End(t.dst, ts)));
  }

  lemma PathsThroughSum<L(!new), K(!new)>(w: W.Semiring<K>, a: Weighted<L, K>, states: seq<State>, s: State, u: seq<L>,
                                          d: State)
    requires W.Laws(w) && u != []
    ensures Sum(w, WeightFrom(w, a, s), PathsThrough(a.Support(), states, s, u, d))
            == w.mul(At(w.zero, a.transitions, Transition(s, u[0], d)), PathsWeight(w, a, states, d, u[1..]))
  {
    var t, ps := Transition(s, u[0], d), Paths(a.Support(), states, d, u[1..]);
    if t in a.transitions {
      forall i | 0 <= i < |ps|
        ensures WeightFrom(w, a, s)(Prepend(t, ps)[i]) == w.mul(At(w.zero, a.transitions, t),
                  WeightFrom(w, a, d)(ps[i]))
      {
        PrependFrom(w, a, t, ps[i]);
      }
      SumScaled(w, WeightFrom(w, a, s), Prepend(t, ps), At(w.zero, a.transitions, t), WeightFrom(w, a, d), ps);
    } else {
      W.NullProduct(w, PathsWeight(w, a, states, d, u[1..]));
    }
  }

  // f gives the sums of the paths that read u, state by state.
  ghost predicate Gives<L, K>(w: W.Semiring<K>, a: Weighted<L, K>, states: seq<State>, u: seq<L>, f: seq<K>) {
    |f| == |states| && forall i | 0 <= i < |f| :: PathsWeight(w, a, states, states[i], u) == f[i]
  }

  lemma {:induction false} PathsViaSum<L(!new), K(!new)>(w: W.Semiring<K>, a: Weighted<L, K>, states: seq<State>,
                                                         s: State, u: seq<L>, k: nat, r: seq<K>, f: seq<K>)
    requires W.Laws(w) && u != [] && k <= |states| == |r| && Gives(w, a, states, u[1..], f)
    requires forall j | 0 <= j < |r| :: r[j] == At(w.zero, a.transitions, Transition(s, u[0], states[j]))
    ensures Sum(w, WeightFrom(w, a, s), PathsVia(a.Support(), states, s, u, k)) == Dot(w, r, f, k)
    decreases k
  {
    if k > 0 {
      PathsViaSum(w, a, states, s, u, k - 1, r, f);
      PathsMore(w, a, states, s, u, k, r[k - 1], f[k - 1]);
      DotMore(w, r, f, k);
    }
  }

  // The paths through one more state.
  lemma PathsMore<L(!new), K(!new)>(w: W.Semiring<K>, a: Weighted<L, K>, states: seq<State>, s: State, u: seq<L>,
                                    k: nat, x: K, y: K)
    requires W.Laws(w) && u != [] && 0 < k <= |states|
    requires x == At(w.zero, a.transitions, Transition(s, u[0], states[k - 1]))
    requires y == PathsWeight(w, a, states, states[k - 1], u[1..])
    ensures Sum(w, WeightFrom(w, a, s), PathsVia(a.Support(), states, s, u, k))
            == w.add(Sum(w, WeightFrom(w, a, s), PathsVia(a.Support(), states, s, u, k - 1)), w.mul(x, y))
  {
    PathsThroughSum(w, a, states, s, u, states[k - 1]);
    SumConcat(w, WeightFrom(w, a, s), PathsVia(a.Support(), states, s, u, k - 1),
              PathsThrough(a.Support(), states, s, u, states[k - 1]));
  }

  lemma EmptyPaths<L(!new), K(!new)>(w: W.Semiring<K>, a: Weighted<L, K>, states: seq<State>, s: State)
    requires W.Laws(w)
    ensures PathsWeight(w, a, states, s, []) == At(w.zero, a.final, s)
  {
    var k := At(w.zero, a.final, s);
    W.Units(w, k);
    if s in a.final {
      var p: Path<L> := [];
      assert Paths(a.Support(), states, s, []) == [p] == [p] + [];
      SumFirst(w, WeightFrom(w, a, s), p, []);
      assert PathWeight(w, a, p) == w.one && End(s, p) == s;
      assert WeightFrom(w, a, s)(p) == w.mul(PathWeight(w, a, p), At(w.zero, a.final, End(s, p)));
    }
  }

  lemma {:induction false} PathsSum<L(!new), K(!new)>(w: W.Semiring<K>, a: Weighted<L, K>, states: seq<State>,
                                                      u: seq<L>)
    requires W.Laws(w)
    ensures Gives(w, a, states, u, Futures(w, a, states, u))
    decreases |u|
  {
    if u != [] {
      PathsSum(w, a, states, u[1..]);
    }
    forall i | 0 <= i < |states|
      ensures PathsWeight(w, a, states, states[i], u) == Futures(w, a, states, u)[i]
    {
      if u == [] {
        EmptyPaths(w, a, states, states[i]);
      } else {
        PathsViaSum(w, a, states, states[i], u, |states|, Vector(w, a.transitions, RowOf(states, states[i], u[0])),
                    Futures(w, a, states, u[1..]));
      }
    }
  }

  lemma RunsAtSum<L(!new), K(!new)>(w: W.Semiring<K>, a: Weighted<L, K>, states: seq<State>, u: seq<L>, s: State)
    requires W.Laws(w)
    ensures Sum(w, WeightOfRun(w, a), RunsAt(a.Support(), states, u, s))
            == w.mul(At(w.zero, a.initial, s), PathsWeight(w, a, states, s, u))
  {
    var ps, k := Paths(a.Support(), states, s, u), At(w.zero, a.initial, s);
    if s in a.initial {
      forall i | 0 <= i < |ps|
        ensures WeightOfRun(w, a)(Row(s, ps)[i]) == w.mul(k, WeightFrom(w, a, s)(ps[i]))
      {
        W.MulAssociative(w, k, PathWeight(w, a, ps[i]), At(w.zero, a.final, End(s, ps[i])));
      }
      SumScaled(w, WeightOfRun(w, a), Row(s, ps), k, WeightFrom(w, a, s), ps);
    } else {
      W.NullProduct(w, PathsWeight(w, a, states, s, u));
    }
  }

  // The runs from one more state.
  lemma RunsMore<L(!new), K(!new)>(w: W.Semiring<K>, a: Weighted<L, K>, states: seq<State>, u: seq<L>, k: nat,
                                   x: K, y: K)
    requires W.Laws(w) && 0 < k <= |states|
    requires x == At(w.zero, a.initial, states[k - 1]) && y == PathsWeight(w, a, states, states[k - 1], u)
    ensures WordWeight(w, a, RunsTo(a.Support(), states, u, k))
            == w.add(WordWeight(w, a, RunsTo(a.Support(), states, u, k - 1)), w.mul(x, y))
  {
    RunsAtSum(w, a, states, u, states[k - 1]);
    var xs, ys := RunsTo(a.Support(), states, u, k - 1), RunsAt(a.Support(), states, u, states[k - 1]);
    SumConcat(w, WeightOfRun(w, a), xs, ys);
    assert RunsTo(a.Support(), states, u, k) == xs + ys;
  }

  // The weights of the runs from the k first states add up to the product; said
  // of what equals k, so as to be looked into only where needed.
  ghost predicate SumsTo<L(!new), K(!new)>(w: W.Semiring<K>, a: Weighted<L, K>, states: seq<State>, u: seq<L>, k: nat,
                                           r: seq<K>, f: seq<K>)
    requires k <= |states| == |r| == |f|
  {
    forall n: nat | n == k :: WordWeight(w, a, RunsTo(a.Support(), states, u, n)) == Dot(w, r, f, n)
  }

  lemma NoRuns<L(!new), K(!new)>(w: W.Semiring<K>, a: Weighted<L, K>, states: seq<State>, u: seq<L>, r: seq<K>,
                                 f: seq<K>)
    requires |states| == |r| == |f|
    ensures SumsTo(w, a, states, u, 0, r, f)
  {
  }

  lemma RunsStep<L(!new), K(!new)>(w: W.Semiring<K>, a: Weighted<L, K>, states: seq<State>, u: seq<L>, k: nat,
                                   r: seq<K>, f: seq<K>)
    requires W.Laws(w) && 0 < k <= |states| == |r| && Gives(w, a, states, u, f)
    requires forall j | 0 <= j < |r| :: r[j] == At(w.zero, a.initial, states[j])
    requires SumsTo(w, a, states, u, k - 1, r, f)
    ensures SumsTo(w, a, states, u, k, r, f)
  {
    assert WordWeight(w, a, RunsTo(a.Support(), states, u, k - 1)) == Dot(w, r, f, k - 1);
    RunsMore(w, a, states, u, k, r[k - 1], f[k - 1]);
  }

  lemma {:induction false} RunsSum<L(!new), K(!new)>(w: W.Semiring<K>, a: Weighted<L, K>, states: seq<State>, u: seq<L>,
                                                     k: nat, r: seq<K>, f: seq<K>)
    requires W.Laws(w) && k <= |states| == |r| && Gives(w, a, states, u, f)
    requires forall j | 0 <= j < |r| :: r[j] == At(w.zero, a.initial, states[j])
    ensures SumsTo(w, a, states, u, k, r, f)
    decreases k
  {
    if k > 0 {
      RunsSum(w, a, states, u, k - 1, r, f);
      RunsStep(w, a, states, u, k, r, f);
    } else {
      NoRuns(w, a, states, u, r, f);
    }
  }

  // However the runs that read u are listed, the sum of their weights is given
  // by the matrices.
  lemma SumOverRuns<L(!new), K(!new)>(w: W.Semiring<K>, a: Weighted<L, K>, states: seq<State>, u: seq<L>,
                                      rs: seq<Run<L>>)
    requires W.Laws(w) && Covers(a.Support(), states) && Lists(a.Support(), None, u, rs)
    ensures WordWeight(w, a, rs) == Weight(w, a, states, u)
  {
    AllRuns(a.Support(), states, u);
    PathsSum(w, a, states, u);
    var i, f := Vector(w, a.initial, states), Futures(w, a, states, u);
    RunsSum(w, a, states, u, |states|, i, f);
    assert WordWeight(w, a, RunsTo(a.Support(), states, u, |states|)) == Dot(w, i, f, |states|);
    WordWeightUnique(w, a, None, u, rs, RunsTo(a.Support(), states, u, |states|));
  }
}
