// The weights of the runs and of the words of the conjunction
// (vcsn/algos/conjunction.hh).
module ProductWeights {
  import opened Wrappers
  import opened Sets
  import opened BoolAutomata
  import opened NamedAutomata
  import opened Spontaneous
  import opened WeightedAutomata
  import opened WeightedBuilds
  import opened Products
  import opened Runs
  import opened Sums
  import opened ProductRuns
  import W = AllDistances
  import I = Insplit

  // ---------------------------------------------------------------------
  // Weights of runs
  // ---------------------------------------------------------------------

  ghost predicate Commutative<K(!new)>(w: W.Semiring<K>) {
    forall y, z :: w.mul(y, z) == w.mul(z, y)
  }

  // a is the conjunction, with its weights.
  ghost predicate WeighedConjunction<L(!new), K(!new)>(rhs: Weighted<L, K>, c: I.SplitBuild<L>, x: Operands<L, K>,
                                                       b: PairBuild<L>, a: Weighted<L, K>) {
    Conjoined(rhs, c, x, b) && WellWeighed(PairWeights(x), b, a)
  }

  lemma Exchange<K(!new)>(m: W.Semiring<K>, x: K, y: K, z: K, t: K)
    requires W.Laws(m) && Commutative(m)
    ensures m.mul(m.mul(x, y), m.mul(z, t)) == m.mul(m.mul(x, z), m.mul(y, t))
  {
    W.MulAssociative(m, x, y, m.mul(z, t));
    W.MulAssociative(m, y, z, t);
    W.MulAssociative(m, z, y, t);
    W.MulAssociative(m, x, z, m.mul(y, t));
    assert m.mul(y, z) == m.mul(z, y);
  }

  // The weight of a transition of the conjunction.
  lemma TransitionWeight<L(!new), K(!new)>(rhs: Weighted<L, K>, c: I.SplitBuild<L>, x: Operands<L, K>, b: PairBuild<L>,
                                           a: Weighted<L, K>, t: Transition<L>)
    requires WeighedConjunction(rhs, c, x, b, a) && t in b.aut.transitions
    ensures At(x.weights.zero, a.transitions, t)
            == if RightAlone(x, b, t) then At(x.weights.zero, x.rhs.transitions, RightOf(b, t))
               else if LeftAlone(x, b, t) then At(x.weights.zero, x.lhs.transitions, LeftOf(b, t))
               else x.Together(LeftOf(b, t), RightOf(b, t))
  {
    assert Weighs(PairWeights(x), b, a);
  }

  // The weight of a path of the product is the product of those of its parts.
  lemma {:induction false} PartsWeight<L(!new), K(!new)>(rhs: Weighted<L, K>, c: I.SplitBuild<L>, x: Operands<L, K>,
                                                         b: PairBuild<L>, a: Weighted<L, K>, s: State, ts: Path<L>,
                                                         d: State)
    requires WeighedConjunction(rhs, c, x, b, a) && Commutative(x.weights) && IsPath(b.aut, s, ts, d)
    ensures PathWeight(x.weights, a, ts)
            == x.weights.mul(PathWeight(x.weights, x.lhs, LeftPart(x, b, ts)),
                             PathWeight(x.weights, x.rhs, RightPart(x, b, ts)))
    decreases |ts|
  {
    var w := x.weights;
    W.Units(w, w.one);
    if ts != [] {
      var t := ts[0];
      PartsWeight(rhs, c, x, b, a, t.dst, ts[1..], d);
      TransitionWeight(rhs, c, x, b, a, t);
      PrependParts(x, b, t, LeftPart(x, b, ts[1..]), RightPart(x, b, ts[1..]));
    }
  }

  // One more transition in both parts, or in one of them.
  lemma PrependParts<L(!new), K(!new)>(x: Operands<L, K>, b: PairBuild<L>, t: Transition<L>, us: Path<L>, vs: Path<L>)
    requires W.Laws(x.weights) && Commutative(x.weights)
    ensures var w := x.weights;
            var left, right := At(w.zero, x.lhs.transitions, LeftOf(b, t)),
                  At(w.zero, x.rhs.transitions, RightOf(b, t));
            w.mul(if RightAlone(x, b, t) then right else if LeftAlone(x, b, t) then left else w.mul(left, right),
                  w.mul(PathWeight(w, x.lhs, us), PathWeight(w, x.rhs, vs)))
            == w.mul(PathWeight(w, x.lhs, (if RightAlone(x, b, t) then [] else [LeftOf(b, t)]) + us),
                     PathWeight(w, x.rhs, (if LeftAlone(x, b, t) then [] else [RightOf(b, t)]) + vs))
  {
    var w := x.weights;
    var left, right := At(w.zero, x.lhs.transitions, LeftOf(b, t)), At(w.zero, x.rhs.transitions, RightOf(b, t));
    var wu, wv := PathWeight(w, x.lhs, us), PathWeight(w, x.rhs, vs);
    WeightPrepend(w, x.lhs, LeftOf(b, t), us);
    WeightPrepend(w, x.rhs, RightOf(b, t), vs);
    assert [] + us == us && [] + vs == vs;
    Exchange(w, left, right, wu, wv);
    Exchange(w, w.one, right, wu, wv);
    W.Units(w, right);
    W.Units(w, wu);
    W.MulAssociative(w, left, wu, wv);
  }

  lemma {:induction false} UnsplitWeight<L(!new), K(!new)>(rhs: Weighted<L, K>, c: I.SplitBuild<L>, x: Operands<L, K>,
                                                           b: PairBuild<L>, s: State, ws: Path<L>, d: State)
    requires Conjoined(rhs, c, x, b) && IsPath(c.aut, s, ws, d)
    ensures PathWeight(x.weights, x.rhs, ws) == PathWeight(x.weights, rhs, Unsplit(c, ws))
    decreases |ws|
  {
    if ws != [] {
      UnsplitWeight(rhs, c, x, b, ws[0].dst, ws[1..], d);
      SplitWeight(rhs, c, x, b, ws[0]);
      WeightPrepend(x.weights, rhs, UnsplitOf(c, ws[0]), Unsplit(c, ws[1..]));
    }
  }

  // The two runs of which a run of the conjunction is made.
  function LeftRunOf<L, K>(x: Operands<L, K>, b: PairBuild<L>, r: Run<L>): Run<L> {
    (LeftStart(b, r.0), LeftPart(x, b, r.1))
  }

  function RightRunOf<L, K>(c: I.SplitBuild<L>, x: Operands<L, K>, b: PairBuild<L>, r: Run<L>): Run<L> {
    (RightStart(c, b, r.0), RightRun(c, x, b, r.1))
  }

  // The weight of a run of the conjunction is the product of the weights of
  // its two runs.
  lemma RunWeights<L(!new), K(!new)>(rhs: Weighted<L, K>, c: I.SplitBuild<L>, x: Operands<L, K>, b: PairBuild<L>,
                                     a: Weighted<L, K>, r: Run<L>)
    requires WeighedConjunction(rhs, c, x, b, a) && Commutative(x.weights) && Accepting(b.aut, r.0, r.1)
    ensures RunWeight(x.weights, a, r)
            == x.weights.mul(RunWeight(x.weights, x.lhs, LeftRunOf(x, b, r)),
                             RunWeight(x.weights, rhs, RightRunOf(c, x, b, r)))
  {
    var w, s, ts := x.weights, r.0, r.1;
    var d :| d in b.aut.final && IsPath(b.aut, s, ts, d);
    PathEnd(b.aut, s, ts, d);
    ConjoinedBuilt(rhs, c, x, b);
    Begins(rhs, c, x, b, s);
    PathEnds(x, b, s, ts, d);
    Ends(rhs, c, x, b, d);
    PathOfPair(rhs, c, x, b, s, ts, d);
    PathEnd(x.Left(), LeftStart(b, s), LeftPart(x, b, ts), LeftStart(b, d));
    PathEnd(rhs.Support(), RightStart(c, b, s), RightRun(c, x, b, ts), RightStart(c, b, d));
    PartsWeight(rhs, c, x, b, a, s, ts, d);
    UnsplitWeight(rhs, c, x, b, PairOf(b, s).1, RightPart(x, b, ts), PairOf(b, d).1);
    EndWeights(rhs, c, x, b, a, s, d);
    var i1, i2 := At(w.zero, x.lhs.initial, LeftStart(b, s)), At(w.zero, rhs.initial, RightStart(c, b, s));
    var p1, p2 := PathWeight(w, x.lhs, LeftPart(x, b, ts)), PathWeight(w, rhs, RightRun(c, x, b, ts));
    var f1, f2 := At(w.zero, x.lhs.final, LeftStart(b, d)), At(w.zero, rhs.final, RightStart(c, b, d));
    Exchange(w, i1, i2, p1, p2);
    Exchange(w, w.mul(i1, p1), w.mul(i2, p2), f1, f2);
  }

  lemma EndWeights<L(!new), K(!new)>(rhs: Weighted<L, K>, c: I.SplitBuild<L>, x: Operands<L, K>, b: PairBuild<L>,
                                     a: Weighted<L, K>, s: State, d: State)
    requires WeighedConjunction(rhs, c, x, b, a) && s in b.aut.initial && d in b.aut.final
    ensures At(x.weights.zero, a.initial, s) == Original(rhs, x).InitialWeight(OriginalPair(c, b, s))
    ensures At(x.weights.zero, a.final, d) == Original(rhs, x).FinalWeight(OriginalPair(c, b, d))
  {
    assert Weighs(PairWeights(x), b, a);
    Begins(rhs, c, x, b, s);
    Ends(rhs, c, x, b, d);
    PairStates(rhs, c, x, b, s);
    PairStates(rhs, c, x, b, d);
  }

  // ---------------------------------------------------------------------
  // Pairs of runs that are not joined weigh nothing
  // ---------------------------------------------------------------------

  // A product with a null factor is null.
  lemma NullFactors<K(!new)>(w: W.Semiring<K>, y: K, z: K)
    requires W.Laws(w) && w.mul(y, z) != w.zero
    ensures y != w.zero && z != w.zero
  {
    W.NullProduct(w, y);
    W.NullProduct(w, z);
  }

  lemma {:induction false} NotNullCompatible<L(!new), K(!new)>(o: Operands<L, K>, us: Path<L>, vs: Path<L>)
    requires W.Laws(o.weights) && Commutative(o.weights)
    requires o.weights.mul(PathWeight(o.weights, o.lhs, us), PathWeight(o.weights, o.rhs, vs)) != o.weights.zero
    ensures Compatible(o, us, vs)
    decreases |us| + |vs|
  {
    var w := o.weights;
    if StartsSpontaneous(o.one, us) {
      var u, wu, wv := At(w.zero, o.lhs.transitions, us[0]), PathWeight(w, o.lhs, us[1..]), PathWeight(w, o.rhs, vs);
      W.MulAssociative(w, u, wu, wv);
      NullFactors(w, u, w.mul(wu, wv));
      NotNullCompatible(o, us[1..], vs);
    } else if StartsSpontaneous(o.one, vs) {
      var v, wu, wv := At(w.zero, o.rhs.transitions, vs[0]), PathWeight(w, o.lhs, us), PathWeight(w, o.rhs, vs[1..]);
      W.MulAssociative(w, wu, v, wv);
      W.MulAssociative(w, v, wu, wv);
      assert w.mul(wu, v) == w.mul(v, wu);
      NullFactors(w, v, w.mul(wu, wv));
      NotNullCompatible(o, us, vs[1..]);
    } else if us != [] && vs != [] {
      var u, v := At(w.zero, o.lhs.transitions, us[0]), At(w.zero, o.rhs.transitions, vs[0]);
      var wu, wv := PathWeight(w, o.lhs, us[1..]), PathWeight(w, o.rhs, vs[1..]);
      Exchange(w, u, wu, v, wv);
      NullFactors(w, w.mul(u, v), w.mul(wu, wv));
      NotNullCompatible(o, us[1..], vs[1..]);
    }
  }

  lemma NotNullJoinable<L(!new), K(!new)>(o: Operands<L, K>, s1: State, us: Path<L>, s2: State, vs: Path<L>)
    requires W.Laws(o.weights) && Commutative(o.weights)
    requires Accepting(o.Left(), s1, us) && Accepting(o.Right(), s2, vs) && Letters(o.one, us) == Letters(o.one, vs)
    requires o.weights.mul(RunWeight(o.weights, o.lhs, (s1, us)),
               RunWeight(o.weights, o.rhs, (s2, vs))) != o.weights.zero
    ensures Joinable(o, s1, us, s2, vs)
  {
    var w := o.weights;
    var d1 :| d1 in o.Left().final && IsPath(o.Left(), s1, us, d1);
    var d2 :| d2 in o.Right().final && IsPath(o.Right(), s2, vs, d2);
    PathEnd(o.Left(), s1, us, d1);
    PathEnd(o.Right(), s2, vs, d2);
    var i1, i2 := At(w.zero, o.lhs.initial, s1), At(w.zero, o.rhs.initial, s2);
    var p1, p2 := PathWeight(w, o.lhs, us), PathWeight(w, o.rhs, vs);
    var f1, f2 := At(w.zero, o.lhs.final, d1), At(w.zero, o.rhs.final, d2);
    Exchange(w, w.mul(i1, p1), f1, w.mul(i2, p2), f2);
    Exchange(w, i1, p1, i2, p2);
    NullFactors(w, w.mul(w.mul(i1, p1), w.mul(i2, p2)), w.mul(f1, f2));
    NullFactors(w, w.mul(i1, i2), w.mul(p1, p2));
    NotNullCompatible(o, us, vs);
  }

  // In a weightset without zero divisors, all the pairs of runs that read the
  // same word are joined.
  lemma {:induction false} AllCompatible<L(!new), K(!new)>(o: Operands<L, K>, s1: State, us: Path<L>, d1: State,
                                                           s2: State, vs: Path<L>, d2: State)
    requires o.lhs.Valid(o.weights.zero) && o.rhs.Valid(o.weights.zero) && NoZeroDivisors(o.weights)
    requires IsPath(o.Left(), s1, us, d1) && IsPath(o.Right(), s2, vs, d2)
    ensures Compatible(o, us, vs)
    decreases |us| + |vs|
  {
    if StartsSpontaneous(o.one, us) {
      AllCompatible(o, us[0].dst, us[1..], d1, s2, vs, d2);
    } else if StartsSpontaneous(o.one, vs) {
      AllCompatible(o, s1, us, d1, vs[0].dst, vs[1..], d2);
    } else if us != [] && vs != [] {
      AllCompatible(o, us[0].dst, us[1..], d1, vs[0].dst, vs[1..], d2);
    }
  }

  ghost predicate NoZeroDivisors<K(!new)>(w: W.Semiring<K>) {
    forall y, z | w.mul(y, z) == w.zero :: y == w.zero || z == w.zero
  }

  lemma AllJoinable<L(!new), K(!new)>(o: Operands<L, K>, s1: State, us: Path<L>, s2: State, vs: Path<L>)
    requires o.lhs.Valid(o.weights.zero) && o.rhs.Valid(o.weights.zero) && NoZeroDivisors(o.weights)
    requires Accepting(o.Left(), s1, us) && Accepting(o.Right(), s2, vs) && Letters(o.one, us) == Letters(o.one, vs)
    ensures Joinable(o, s1, us, s2, vs)
  {
    var d1 :| d1 in o.Left().final && IsPath(o.Left(), s1, us, d1);
    var d2 :| d2 in o.Right().final && IsPath(o.Right(), s2, vs, d2);
    PathEnd(o.Left(), s1, us, d1);
    PathEnd(o.Right(), s2, vs, d2);
    AllCompatible(o, s1, us, d1, s2, vs, d2);
  }

  // ---------------------------------------------------------------------
  // Weights of words
  // ---------------------------------------------------------------------

  // The two runs of each run.
  function Parts<L, K>(c: I.SplitBuild<L>, x: Operands<L, K>, b: PairBuild<L>, rs: seq<Run<L>>)
    : (ps: seq<(Run<L>, Run<L>)>)
    ensures |ps| == |rs| && forall i | 0 <= i < |rs| :: ps[i] == (LeftRunOf(x, b, rs[i]), RightRunOf(c, x, b, rs[i]))
  {
    seq(|rs|, i requires 0 <= i < |rs| => (LeftRunOf(x, b, rs[i]), RightRunOf(c, x, b, rs[i])))
  }

  lemma PartsDistinct<L(!new), K(!new)>(rhs: Weighted<L, K>, c: I.SplitBuild<L>, x: Operands<L, K>, b: PairBuild<L>,
                                        rs: seq<Run<L>>)
    requires Conjoined(rhs, c, x, b) && Distinct(rs) && forall r <- rs :: Accepting(b.aut, r.0, r.1)
    ensures Distinct(Parts(c, x, b, rs))
  {
    var ps := Parts(c, x, b, rs);
    forall i, j | 0 <= i < j < |ps|
      ensures ps[i] != ps[j]
    {
      assert rs[i] in rs && rs[j] in rs;
      OneRun(rhs, c, x, b, rs[i], rs[j]);
    }
  }

  lemma OneRun<L(!new), K(!new)>(rhs: Weighted<L, K>, c: I.SplitBuild<L>, x: Operands<L, K>, b: PairBuild<L>,
                                 r: Run<L>, r': Run<L>)
    requires Conjoined(rhs, c, x, b) && Accepting(b.aut, r.0, r.1) && Accepting(b.aut, r'.0, r'.1)
    ensures LeftRunOf(x, b, r) == LeftRunOf(x, b, r') && RightRunOf(c, x, b, r) == RightRunOf(c, x, b, r') ==> r == r'
  {
    if LeftRunOf(x, b, r) == LeftRunOf(x, b, r') && RightRunOf(c, x, b, r) == RightRunOf(c, x, b, r') {
      PairIsOneRun(rhs, c, x, b, r.0, r.1, r'.0, r'.1, LeftStart(b, r.0), LeftPart(x, b, r.1),
                   RightStart(c, b, r.0), RightRun(c, x, b, r.1));
    }
  }

  // The pairs of runs that read u.
  ghost predicate ListsBoth<L(!new), K(!new)>(rhs: Weighted<L, K>, x: Operands<L, K>, u: seq<L>, xs: seq<Run<L>>,
                                              ys: seq<Run<L>>) {
    Lists(x.Left(), x.one, u, xs) && Lists(rhs.Support(), x.one, u, ys)
  }

  lemma PartsIn<L(!new), K(!new)>(rhs: Weighted<L, K>, c: I.SplitBuild<L>, x: Operands<L, K>, b: PairBuild<L>,
                                  u: seq<L>, xs: seq<Run<L>>, ys: seq<Run<L>>, r: Run<L>)
    requires Conjoined(rhs, c, x, b) && ListsBoth(rhs, x, u, xs, ys) && Reads(b.aut, x.one, r, u)
    ensures (LeftRunOf(x, b, r), RightRunOf(c, x, b, r)) in Cross(xs, ys)
  {
    RunIsPair(rhs, c, x, b, r.0, r.1);
    assert Reads(x.Left(), x.one, LeftRunOf(x, b, r), u);
    assert Reads(rhs.Support(), x.one, RightRunOf(c, x, b, r), u);
    InCross(xs, ys, (LeftRunOf(x, b, r), RightRunOf(c, x, b, r)));
  }

  function WeightOfPair<L, K>(rhs: Weighted<L, K>, x: Operands<L, K>): ((Run<L>, Run<L>)) -> K {
    ByPair(x.weights, WeightOfRun(x.weights, x.lhs), WeightOfRun(x.weights, rhs))
  }

  // Two runs that are joined are those of a run of the conjunction.
  lemma JoinedRun<L(!new), K(!new)>(rhs: Weighted<L, K>, c: I.SplitBuild<L>, x: Operands<L, K>, b: PairBuild<L>,
                                    u: seq<L>, p: (Run<L>, Run<L>)) returns (r: Run<L>)
    requires Conjoined(rhs, c, x, b) && Joinable(Original(rhs, x), p.0.0, p.0.1, p.1.0, p.1.1)
               && Letters(x.one, p.0.1) == u
    ensures Reads(b.aut, x.one, r, u) && (LeftRunOf(x, b, r), RightRunOf(c, x, b, r)) == p
  {
    var s, ts := PairIsRun(rhs, c, x, b, p.0.0, p.0.1, p.1.0, p.1.1);
    RunIsPair(rhs, c, x, b, s, ts);
    r := (s, ts);
  }

  lemma PartsOfRun<L(!new), K(!new)>(c: I.SplitBuild<L>, x: Operands<L, K>, b: PairBuild<L>, zs: seq<Run<L>>, r: Run<L>)
    requires r in zs
    ensures (LeftRunOf(x, b, r), RightRunOf(c, x, b, r)) in Parts(c, x, b, zs)
  {
    var i :| 0 <= i < |zs| && zs[i] == r;
    assert Parts(c, x, b, zs)[i] == (LeftRunOf(x, b, r), RightRunOf(c, x, b, r));
  }

  // Two runs whose weights do not have a null product are joined.
  lemma WeighedJoined<L(!new), K(!new)>(rhs: Weighted<L, K>, c: I.SplitBuild<L>, x: Operands<L, K>, b: PairBuild<L>,
                                        u: seq<L>, xs: seq<Run<L>>, ys: seq<Run<L>>, p: (Run<L>, Run<L>))
    requires Conjoined(rhs, c, x, b) && Commutative(x.weights) && ListsBoth(rhs, x, u, xs, ys)
    requires p in Cross(xs, ys) && WeightOfPair(rhs, x)(p) != x.weights.zero
    ensures Joinable(Original(rhs, x), p.0.0, p.0.1, p.1.0, p.1.1) && Letters(x.one, p.0.1) == u
  {
    InCross(xs, ys, p);
    assert Reads(x.Left(), x.one, p.0, u) && Reads(rhs.Support(), x.one, p.1, u);
    NotNullJoinable(Original(rhs, x), p.0.0, p.0.1, p.1.0, p.1.1);
  }

  // A pair of runs that is not among the parts weighs nothing.
  lemma LeftOut<L(!new), K(!new)>(rhs: Weighted<L, K>, c: I.SplitBuild<L>, x: Operands<L, K>, b: PairBuild<L>,
                                  u: seq<L>, xs: seq<Run<L>>, ys: seq<Run<L>>, zs: seq<Run<L>>, p: (Run<L>, Run<L>))
    requires Conjoined(rhs, c, x, b) && Commutative(x.weights)
    requires ListsBoth(rhs, x, u, xs, ys) && Lists(b.aut, x.one, u, zs) && p in Cross(xs, ys)
    ensures p in Parts(c, x, b, zs) || WeightOfPair(rhs, x)(p) == x.weights.zero
  {
    if WeightOfPair(rhs, x)(p) != x.weights.zero {
      WeighedJoined(rhs, c, x, b, u, xs, ys, p);
      var r := JoinedRun(rhs, c, x, b, u, p);
      PartsOfRun(c, x, b, zs, r);
    }
  }

  // The weight of a word in the conjunction is the product of its weights.
  lemma ConjunctionWeight<L(!new), K(!new)>(rhs: Weighted<L, K>, c: I.SplitBuild<L>, x: Operands<L, K>, b: PairBuild<L>,
                                            a: Weighted<L, K>, u: seq<L>, xs: seq<Run<L>>, ys: seq<Run<L>>,
                                            zs: seq<Run<L>>)
    requires WeighedConjunction(rhs, c, x, b, a) && Commutative(x.weights)
    requires ListsBoth(rhs, x, u, xs, ys) && Lists(b.aut, x.one, u, zs)
    ensures WordWeight(x.weights, a, zs)
            == x.weights.mul(WordWeight(x.weights, x.lhs, xs), WordWeight(x.weights, rhs, ys))
  {
    var w, ps, f := x.weights, Parts(c, x, b, zs), WeightOfPair(rhs, x);
    forall i | 0 <= i < |zs|
      ensures WeightOfRun(w, a)(zs[i]) == f(ps[i]) && ps[i] in Cross(xs, ys)
    {
      assert zs[i] in zs;
      RunWeights(rhs, c, x, b, a, zs[i]);
      PartsIn(rhs, c, x, b, u, xs, ys, zs[i]);
    }
    SumEqual(w, WeightOfRun(w, a), zs, f, ps);
    PartsDistinct(rhs, c, x, b, zs);
    CrossDistinct(xs, ys);
    forall p <- Cross(xs, ys)
      ensures p in ps || f(p) == w.zero
    {
      LeftOut(rhs, c, x, b, u, xs, ys, zs, p);
    }
    SumOver(w, f, ps, Cross(xs, ys));
    SumCross(w, WeightOfRun(w, x.lhs), xs, WeightOfRun(w, rhs), ys);
  }

  // ---------------------------------------------------------------------
  // Finitely many runs
  // ---------------------------------------------------------------------

  ghost function Reading<L(!new)>(a: Automaton<L>, one: Option<L>, u: seq<L>): Run<L> -> bool {
    (r: Run<L>) => Reads(a, one, r, u)
  }

  function PairOfRuns<L, K>(c: I.SplitBuild<L>, x: Operands<L, K>, b: PairBuild<L>): Run<L> -> (Run<L>, Run<L>) {
    (r: Run<L>) => (LeftRunOf(x, b, r), RightRunOf(c, x, b, r))
  }

  lemma RunsInjective<L(!new), K(!new)>(rhs: Weighted<L, K>, c: I.SplitBuild<L>, x: Operands<L, K>, b: PairBuild<L>,
                                        u: seq<L>)
    requires Conjoined(rhs, c, x, b)
    ensures Injective(Reading(b.aut, x.one, u), PairOfRuns(c, x, b))
  {
    var among, parts := Reading(b.aut, x.one, u), PairOfRuns(c, x, b);
    forall r, r' | among(r) && among(r') && parts(r) == parts(r')
      ensures r == r'
    {
      OneRun(rhs, c, x, b, r, r');
    }
  }

  // When finitely many runs of each operand read a word, so it is for the
  // conjunction.
  lemma ConjunctionListed<L(!new), K(!new)>(rhs: Weighted<L, K>, c: I.SplitBuild<L>, x: Operands<L, K>, b: PairBuild<L>,
                                            u: seq<L>, xs: seq<Run<L>>, ys: seq<Run<L>>) returns (zs: seq<Run<L>>)
    requires Conjoined(rhs, c, x, b) && ListsBoth(rhs, x, u, xs, ys)
    ensures Lists(b.aut, x.one, u, zs)
  {
    RunsInjective(rhs, c, x, b, u);
    CrossDistinct(xs, ys);
    zs := Preimages(Reading(b.aut, x.one, u), PairOfRuns(c, x, b), Cross(xs, ys));
    forall r: Run<L> | Reads(b.aut, x.one, r, u)
      ensures r in zs
    {
      PartsIn(rhs, c, x, b, u, xs, ys, r);
      assert Reading(b.aut, x.one, u)(r) && PairOfRuns(c, x, b)(r) in Cross(xs, ys);
    }
  }

  // Without spontaneous transitions, it is so for all words.
  lemma RealtimeWeight<L(!new), K(!new)>(rhs: Weighted<L, K>, c: I.SplitBuild<L>, x: Operands<L, K>, b: PairBuild<L>,
                                         a: Weighted<L, K>, u: seq<L>)
    returns (xs: seq<Run<L>>, ys: seq<Run<L>>, zs: seq<Run<L>>)
    requires WeighedConjunction(rhs, c, x, b, a) && Commutative(x.weights) && x.one == None
    ensures ListsBoth(rhs, x, u, xs, ys) && Lists(b.aut, x.one, u, zs)
    ensures WordWeight(x.weights, a, zs)
            == x.weights.mul(WordWeight(x.weights, x.lhs, xs), WordWeight(x.weights, rhs, ys))
  {
    xs := RunsListed(x.Left(), u);
    ys := RunsListed(rhs.Support(), u);
    zs := ConjunctionListed(rhs, c, x, b, u, xs, ys);
    ConjunctionWeight(rhs, c, x, b, a, u, xs, ys, zs);
  }

  // ---------------------------------------------------------------------
  // Without commutativity
  // ---------------------------------------------------------------------

  // A state that is initial and final.
  function OneState<L, K>(i: K, f: K): Weighted<L, K> {
    Weighted({0}, map[0 := i], map[0 := f], map[])
  }

  lemma OneStateRuns<L(!new), K(!new)>(one: Option<L>, i: K, f: K)
    ensures Lists(OneState<L, K>(i, f).Support(), one, [], [(0, [])])
  {
    var a := OneState<L, K>(i, f).Support();
    assert IsPath(a, 0, [], 0);
    forall r: Run<L> | Reads(a, one, r, [])
      ensures r == (0, [])
    {
      var d :| d in a.final && IsPath(a, r.0, r.1, d);
    }
  }

  // Some automaton moves on each transition.
  lemma EmptyParts<L(!new), K(!new)>(c: I.SplitBuild<L>, x: Operands<L, K>, b: PairBuild<L>, ts: Path<L>)
    requires LeftPart(x, b, ts) == [] && RightRun(c, x, b, ts) == []
    ensures ts == []
  {
  }

  lemma NeutralWeights<K(!new)>(w: W.Semiring<K>, y: K)
    requires W.Laws(w)
    ensures w.mul(y, w.one) == y == w.mul(w.one, y) && w.add(y, w.zero) == y
  {
    assert W.Axioms(w);
  }

  lemma OneStateRun<L(!new), K(!new)>(rhs: Weighted<L, K>, c: I.SplitBuild<L>, x: Operands<L, K>, b: PairBuild<L>,
                                      y: K, z: K) returns (r: Run<L>)
    requires Conjoined(rhs, c, x, b)
    requires x.lhs == OneState(x.weights.one, z) && rhs == OneState(y, x.weights.one)
    ensures Reads(b.aut, x.one, r, []) && LeftRunOf(x, b, r) == (0, []) == RightRunOf(c, x, b, r) && r.1 == []
  {
    OneStateRuns(x.one, x.weights.one, z);
    OneStateRuns(x.one, y, x.weights.one);
    NeutralWeights(x.weights, y);
    NeutralWeights(x.weights, z);
    var empty: Run<L> := (0, []);
    assert empty in [empty];
    assert Reads(x.Left(), x.one, empty, []) && Reads(rhs.Support(), x.one, empty, []);
    r := JoinedRun(rhs, c, x, b, [], (empty, empty));
    EmptyParts(c, x, b, r.1);
  }

  lemma OneRunWord<L(!new), K(!new)>(w: W.Semiring<K>, a: Weighted<L, K>, r: Run<L>)
    requires W.Laws(w)
    ensures WordWeight(w, a, [r]) == RunWeight(w, a, r)
  {
    assert [r] == [r] + [];
    SumFirst(w, WeightOfRun(w, a), r, []);
    NeutralWeights(w, RunWeight(w, a, r));
  }

  lemma OneStateWord<L(!new), K(!new)>(w: W.Semiring<K>, i: K, f: K)
    requires W.Laws(w)
    ensures WordWeight(w, OneState<L, K>(i, f), [(0, [])]) == w.mul(i, f)
  {
    OneRunWord(w, OneState<L, K>(i, f), (0, []));
    NeutralWeights(w, i);
  }

  // The null weight commutes with all the others.
  lemma NotCommuting<K(!new)>(w: W.Semiring<K>, y: K, z: K)
    requires W.Laws(w) && w.mul(y, z) != w.mul(z, y)
    ensures y != w.zero && z != w.zero
  {
    W.NullProduct(w, y);
    W.NullProduct(w, z);
  }

  lemma OneStateWeight<L(!new), K(!new)>(rhs: Weighted<L, K>, c: I.SplitBuild<L>, x: Operands<L, K>, b: PairBuild<L>,
                                         a: Weighted<L, K>, y: K, z: K, r: Run<L>)
    requires WeighedConjunction(rhs, c, x, b, a) && Accepting(b.aut, r.0, r.1)
    requires x.lhs == OneState(x.weights.one, z) && rhs == OneState(y, x.weights.one)
    requires LeftRunOf(x, b, r) == (0, []) == RightRunOf(c, x, b, r) && r.1 == []
    ensures RunWeight(x.weights, a, r) == x.weights.mul(y, z)
  {
    NeutralWeights(x.weights, y);
    NeutralWeights(x.weights, z);
    var d :| d in b.aut.final && IsPath(b.aut, r.0, r.1, d);
    EndWeights(rhs, c, x, b, a, r.0, r.0);
  }

  lemma SameEmptyRun<L(!new), K(!new)>(rhs: Weighted<L, K>, c: I.SplitBuild<L>, x: Operands<L, K>, b: PairBuild<L>,
                                       r: Run<L>, r': Run<L>)
    requires Conjoined(rhs, c, x, b) && ListsBoth(rhs, x, [], [(0, [])], [(0, [])])
    requires Reads(b.aut, x.one, r, []) && LeftRunOf(x, b, r) == (0, []) == RightRunOf(c, x, b, r)
    requires Reads(b.aut, x.one, r', [])
    ensures r' == r
  {
    PartsIn(rhs, c, x, b, [], [(0, [])], [(0, [])], r');
    InCross([(0, [])], [(0, [])], (LeftRunOf(x, b, r'), RightRunOf(c, x, b, r')));
    OneRun(rhs, c, x, b, r, r');
  }

  // The initial weights are multiplied before the final ones: with weights
  // that do not commute, the weights of words are not multiplied.
  lemma CommutativeNeeded<L(!new), K(!new)>(rhs: Weighted<L, K>, c: I.SplitBuild<L>, x: Operands<L, K>, b: PairBuild<L>,
                                            a: Weighted<L, K>, y: K, z: K, zs: seq<Run<L>>)
    requires WeighedConjunction(rhs, c, x, b, a) && x.weights.mul(y, z) != x.weights.mul(z, y)
    requires x.lhs == OneState(x.weights.one, z) && rhs == OneState(y, x.weights.one)
    requires Lists(b.aut, x.one, [], zs)
    ensures ListsBoth(rhs, x, [], [(0, [])], [(0, [])])
    ensures WordWeight(x.weights, a, zs) == x.weights.mul(y, z)
    ensures x.weights.mul(WordWeight(x.weights, x.lhs, [(0, [])]), WordWeight(x.weights, rhs, [(0, [])]))
            == x.weights.mul(z, y)
  {
    var w := x.weights;
    OneStateRuns(x.one, w.one, z);
    OneStateRuns(x.one, y, w.one);
    NotCommuting(w, y, z);
    var r := OneStateRun(rhs, c, x, b, y, z);
    forall r' | r' in zs
      ensures r' == r
    {
      SameEmptyRun(rhs, c, x, b, r, r');
    }
    OnlyOne(zs, r);
    OneStateWeight(rhs, c, x, b, a, y, z, r);
    OneRunWord(w, a, r);
    OneStateWord<L, K>(w, w.one, z);
    OneStateWord<L, K>(w, y, w.one);
    NeutralWeights(w, y);
    NeutralWeights(w, z);
  }

  // ---------------------------------------------------------------------
  // The algorithm
  // ---------------------------------------------------------------------

  // No null weight is stored.
  lemma ConjunctionValid<L(!new), K(!new)>(rhs: Weighted<L, K>, c: I.SplitBuild<L>, x: Operands<L, K>, b: PairBuild<L>,
                                           a: Weighted<L, K>)
    requires WeighedConjunction(rhs, c, x, b, a) && x.rhs.Valid(x.weights.zero)
    ensures a.Valid(x.weights.zero) && a.Support() == b.aut
  {
    ConjoinedBuilt(rhs, c, x, b);
    SoundValid(b);
    SupportBuilt(PairWeights(x), b, a);
    assert Weighs(PairWeights(x), b, a);
    forall t <- a.transitions
      ensures a.transitions[t] != x.weights.zero
    {
      TransitionWeight(rhs, c, x, b, a, t);
      TransitionParts(x, b, t);
    }
    forall s <- a.final
      ensures a.final[s] != x.weights.zero
    {
      FinalNotNull(rhs, c, x, b, s);
    }
  }

  lemma FinalNotNull<L(!new), K(!new)>(rhs: Weighted<L, K>, c: I.SplitBuild<L>, x: Operands<L, K>, b: PairBuild<L>,
                                       s: State)
    requires Conjoined(rhs, c, x, b) && s in b.aut.final
    ensures s in b.right && x.FinalWeight(b.right[s]) != x.weights.zero
  {
    NothingTodo(b);
    assert Consistent(b);
    assert b.right[s] in b.finals;
  }

  lemma SplitValid<L(!new), K(!new)>(rhs: Weighted<L, K>, one: Option<L>, zero: K, c: I.SplitBuild<L>,
                                     a: Weighted<L, K>)
    requires rhs.Valid(zero) && Insplit(rhs.Support(), one, c) && WellWeighed(I.SplitWeights(rhs, zero), c, a)
    ensures a.Valid(zero) && a.Support() == c.aut && Split(c.aut, one)
  {
    I.BuiltSplit(rhs.Support(), one, c);
    SupportBuilt(I.SplitWeights(rhs, zero), c, a);
    assert Weighs(I.SplitWeights(rhs, zero), c, a);
    NothingTodo(c);
    assert Consistent(c);
    forall t <- a.transitions
      ensures a.transitions[t] != zero
    {
      SplitTransition(rhs.Support(), one, c, t);
    }
    forall s <- a.final
      ensures a.final[s] != zero
    {
      assert c.right[s] in c.finals;
    }
  }

  // The conjunction of lhs with rhs, insplit.
  method Conjunction<L(==, !new), K(==, !new)>(lhs: Weighted<L, K>, rhs: Weighted<L, K>, one: Option<L>,
                                               w: W.Semiring<K>)
    returns (res: Weighted<L, K>, ghost c: I.SplitBuild<L>, ghost x: Operands<L, K>, ghost b: PairBuild<L>)
    requires lhs.Valid(w.zero) && rhs.Valid(w.zero) && W.Laws(w)
    ensures x.lhs == lhs && x.one == one && x.weights == w && WeighedConjunction(rhs, c, x, b, res)
    ensures res.Valid(w.zero)
    ensures Commutative(w) ==> forall u, xs, ys, zs |
              Lists(lhs.Support(), one, u, xs) && Lists(rhs.Support(), one, u, ys)
                    && Lists(res.Support(), one, u, zs) ::
                WordWeight(w, res, zs) == w.mul(WordWeight(w, lhs, xs), WordWeight(w, rhs, ys))
  {
    var split := new I.InsplitAutomaton(rhs, one, w.zero);
    split.Insplit();
    c := split.aut.named.Snapshot();
    var right := split.aut.Result();
    SplitValid(rhs, one, w.zero, c, right);
    var product := new Product(lhs, right, one, w);
    product.Conjunction();
    b, x := product.aut.named.Snapshot(), product.x;
    res := product.aut.Result();
    ConjunctionValid(rhs, c, x, b, res);
    if Commutative(w) {
      forall u, xs, ys, zs |
        Lists(lhs.Support(), one, u, xs) && Lists(rhs.Support(), one, u, ys) && Lists(res.Support(), one, u, zs)
        ensures WordWeight(w, res, zs) == w.mul(WordWeight(w, lhs, xs), WordWeight(w, rhs, ys))
      {
        ConjunctionWeight(rhs, c, x, b, res, u, xs, ys, zs);
      }
    }
  }
}
