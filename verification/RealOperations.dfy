// Left multiplication by a weight and sum of automata over a field
// (vcsn/algos/weight.hh, vcsn/algos/add.hh).
module RealOperations {
  import opened Linear
  import opened Representations
  import opened RealAutomata

  // ---------------------------------------------------------------------
  // Left multiplication by a weight (vcsn/algos/weight.hh)
  // ---------------------------------------------------------------------

  // States are numbered from there, after pre and post.
  const FIRST_STATE: State := 2

  // One initial state, with weight one, and no arrival on it.
  predicate IsStandard(a: Automaton) {
    exists s <- a.initial :: IsStandardOn(a, s)
  }

  predicate IsStandardOn(a: Automaton, s: State) {
    && a.initial == map[s := 1.0]
    && forall e <- a.transitions :: e.dst != s
  }

  function ScaleFrom(a: Automaton, s: State, w: real): Automaton {
    a.(transitions := map e <- a.transitions ::
                        if e.src == s then w * a.transitions[e] else a.transitions[e],
       final := map t <- a.final :: if t == s then w * a.final[t] else a.final[t])
  }

  function ScaleInitial(a: Automaton, w: real): Automaton {
    a.(initial := map s <- a.initial :: w * a.initial[s])
  }

  function InitialState(a: Automaton): (s: State)
    requires IsStandard(a)
    ensures IsStandardOn(a, s)
  {
    var s :| s in a.initial && IsStandardOn(a, s);
    s
  }

  // The empty automaton; the standard one has a state, which is initial.
  function ZeroOf(standard: bool): Automaton {
    if standard then Automaton([FIRST_STATE], map[FIRST_STATE := 1.0], map[], map[])
    else Automaton([], map[], map[], map[])
  }

  function LeftWeight(w: real, a: Automaton): Automaton {
    if w == 0.0 then ZeroOf(IsStandard(a))
    else if w == 1.0 then a
    else if IsStandard(a) then ScaleFrom(a, InitialState(a), w)
    else ScaleInitial(a, w)
  }

  // A named product: equal arguments give equal products.
  function Mul(c: real, x: real): real {
    c * x
  }

  ghost predicate Scaled(u: Vec, c: real, u': Vec) {
    |u| == |u'| && forall i | 0 <= i < |u| :: u'[i] == Mul(c, u[i])
  }

  lemma DotScaled(u: Vec, c: real, u': Vec, v: Vec)
    requires Scaled(u, c, u') && |u| == |v|
    ensures Dot(u', v) == Mul(c, Dot(u, v))
  {
    DotCommutesTo(u, v, |u|);
    DotCommutesTo(u', v, |u|);
    DotScaledTo(v, c, u, u', |u|);
  }

  // v and v' agree wherever u is not null.
  ghost predicate Agree(u: Vec, v: Vec, v': Vec) {
    |u| == |v| == |v'| && forall i | 0 <= i < |u| :: v[i] == v'[i] || u[i] == 0.0
  }

  lemma DotAgree(u: Vec, v: Vec, v': Vec)
    requires Agree(u, v, v')
    ensures Dot(u, v) == Dot(u, v')
  {
    DotPrefix(u, v, u, v', |u|);
  }

  lemma NoArrival(a: Automaton, s: State, src: State, l: Letter, j: nat)
    requires forall e <- a.transitions :: e.dst != s
    requires j < |a.states| && a.states[j] == s
    ensures a.Row(src, l)[j] == 0.0
  {
    assert Edge(src, l, s).dst == s;
  }

  // b is a, with the departures of s scaled.
  ghost predicate DeparturesScaled(a: Automaton, b: Automaton, s: State, c: real) {
    && b.states == a.states
    && b.InitialVector() == a.InitialVector()
    && (forall src, l | src != s :: b.Row(src, l) == a.Row(src, l))
    && (forall l :: Scaled(a.Row(s, l), c, b.Row(s, l)))
    && (forall t | t != s :: b.FinalWeight(t) == a.FinalWeight(t))
    && b.FinalWeight(s) == Mul(c, a.FinalWeight(s))
  }

  lemma ScaleFromScales(a: Automaton, s: State, c: real)
    ensures DeparturesScaled(a, ScaleFrom(a, s, c), s, c)
  {
    var b := ScaleFrom(a, s, c);
    assert b.InitialVector() == a.InitialVector();
    forall src, l | src != s
      ensures b.Row(src, l) == a.Row(src, l)
    {
    }
  }

  // Only the words read from s are scaled.
  ghost predicate FuturesScaled(states: seq<State>, f: Vec, f': Vec, s: State, c: real) {
    && |f| == |f'| == |states|
    && forall i | 0 <= i < |states| :: f'[i] == if states[i] == s then Mul(c, f[i]) else f[i]
  }

  lemma FuturesAgree(a: Automaton, s: State, c: real, src: State, l: Letter, f: Vec, f': Vec)
    requires forall e <- a.transitions :: e.dst != s
    requires FuturesScaled(a.states, f, f', s, c)
    ensures Agree(a.Row(src, l), f, f')
  {
    forall i | 0 <= i < |a.states|
      ensures f[i] == f'[i] || a.Row(src, l)[i] == 0.0
    {
      if a.states[i] == s {
        NoArrival(a, s, src, l, i);
      }
    }
  }

  lemma FutureAt(a: Automaton, w: seq<Letter>, i: nat)
    requires w != [] && i < |a.states|
    ensures a.Futures(w)[i] == Dot(a.Row(a.states[i], w[0]), a.Futures(w[1..]))
  {
  }

  // Nothing arrives on s, so scaling its departures scales the words read from it.
  lemma {:induction false} ScaledFutures(a: Automaton, b: Automaton, s: State, c: real, w: seq<Letter>)
    requires forall e <- a.transitions :: e.dst != s
    requires DeparturesScaled(a, b, s, c)
    ensures FuturesScaled(a.states, a.Futures(w), b.Futures(w), s, c)
    decreases |w|
  {
    if w != [] {
      ScaledFutures(a, b, s, c, w[1..]);
      forall i | 0 <= i < |a.states|
        ensures b.Futures(w)[i] == if a.states[i] == s then Mul(c, a.Futures(w)[i]) else a.Futures(w)[i]
      {
        FutureAt(a, w, i);
        FutureAt(b, w, i);
        ScaledFuture(a, b, s, c, w[0], a.Futures(w[1..]), b.Futures(w[1..]), a.states[i]);
      }
    }
  }

  lemma ScaledFuture(a: Automaton, b: Automaton, s: State, c: real, l: Letter, f: Vec, f': Vec, src: State)
    requires forall e <- a.transitions :: e.dst != s
    requires DeparturesScaled(a, b, s, c) && FuturesScaled(a.states, f, f', s, c)
    ensures src != s ==> Dot(b.Row(src, l), f') == Dot(a.Row(src, l), f)
    ensures src == s ==> Dot(b.Row(src, l), f') == Mul(c, Dot(a.Row(src, l), f))
  {
    FuturesAgree(a, s, c, src, l, f, f');
    DotAgree(a.Row(src, l), f, f');
    if src == s {
      DotScaled(a.Row(src, l), c, b.Row(src, l), f');
    }
  }

  // The only initial state has weight one.
  lemma {:induction false} StandardDot(a: Automaton, s: State, f: Vec, i: nat, k: nat)
    requires a.Valid() && IsStandardOn(a, s)
    requires |f| == |a.states| && i < |f| && k <= |f| && a.states[i] == s
    ensures DotTo(a.InitialVector(), f, k) == if k <= i then 0.0 else f[i]
  {
    if k > 0 {
      StandardDot(a, s, f, i, k - 1);
      if k - 1 != i {
        assert a.states[k - 1] != s;
      }
    }
  }

  lemma StandardSeries(a: Automaton, b: Automaton, s: State, c: real, w: seq<Letter>)
    requires a.Valid() && IsStandardOn(a, s) && DeparturesScaled(a, b, s, c)
    ensures b.Weight(w) == Mul(c, a.Weight(w))
  {
    assert s in a.initial;
    var i :| 0 <= i < |a.states| && a.states[i] == s;
    ScaledFutures(a, b, s, c, w);
    StandardDot(a, s, a.Futures(w), i, |a.states|);
    StandardDot(a, s, b.Futures(w), i, |a.states|);
  }

  lemma BeforeIgnoresInitial(a: Automaton, b: Automaton, l: Letter, f: Vec)
    requires b == a.(initial := b.initial) && |f| == |a.states|
    ensures b.Before(l, f) == a.Before(l, f)
  {
    forall i | 0 <= i < |a.states|
      ensures b.Before(l, f)[i] == a.Before(l, f)[i]
    {
      assert b.Row(a.states[i], l) == a.Row(a.states[i], l);
    }
  }

  lemma {:induction false} FuturesIgnoreInitial(a: Automaton, b: Automaton, w: seq<Letter>)
    requires b == a.(initial := b.initial)
    ensures b.Futures(w) == a.Futures(w)
    decreases |w|
  {
    if w != [] {
      FuturesIgnoreInitial(a, b, w[1..]);
      BeforeIgnoresInitial(a, b, w[0], a.Futures(w[1..]));
    } else {
      assert b.FinalVector() == a.FinalVector();
    }
  }

  lemma GeneralSeries(a: Automaton, c: real, w: seq<Letter>)
    ensures ScaleInitial(a, c).Weight(w) == Mul(c, a.Weight(w))
  {
    var a' := ScaleInitial(a, c);
    FuturesIgnoreInitial(a, a', w);
    assert Scaled(a.InitialVector(), c, a'.InitialVector());
    DotScaled(a.InitialVector(), c, a'.InitialVector(), a.Futures(w));
  }

  lemma {:induction false} NoFutures(standard: bool, w: seq<Letter>)
    ensures forall i | 0 <= i < |ZeroOf(standard).states| :: ZeroOf(standard).Futures(w)[i] == 0.0
    decreases |w|
  {
    if w != [] {
      NoFutures(standard, w[1..]);
      var a := ZeroOf(standard);
      forall i | 0 <= i < |a.states|
        ensures a.Futures(w)[i] == 0.0
      {
        FutureAt(a, w, i);
        assert a.Row(a.states[i], w[0]) == [0.0] && a.Futures(w[1..]) == [0.0];
        assert DotTo([0.0], [0.0], 1) == DotTo([0.0], [0.0], 0) + 0.0 * 0.0;
      }
    }
  }

  // The empty automaton gives the null weight to all words.
  lemma ZeroSeries(standard: bool, w: seq<Letter>)
    ensures ZeroOf(standard).Weight(w) == 0.0
  {
    NoFutures(standard, w);
    var a := ZeroOf(standard);
    var i, f := a.InitialVector(), a.Futures(w);
    assert DotTo(i, f, 0) == 0.0;
    if standard {
      assert DotTo(i, f, 1) == DotTo(i, f, 0) + i[0] * f[0];
    }
  }

  // Every weight of the series is multiplied.
  lemma LeftWeightSeries(c: real, a: Automaton, w: seq<Letter>)
    requires a.Valid()
    ensures LeftWeight(c, a).Weight(w) == Mul(c, a.Weight(w))
  {
    if c == 0.0 {
      ZeroSeries(IsStandard(a), w);
    } else if c != 1.0 {
      if IsStandard(a) {
        ScaleFromScales(a, InitialState(a), c);
        StandardSeries(a, ScaleFrom(a, InitialState(a), c), InitialState(a), c, w);
      } else {
        GeneralSeries(a, c, w);
      }
    }
  }

  lemma LeftWeightValid(c: real, a: Automaton)
    requires a.Valid()
    ensures LeftWeight(c, a).Valid()
  {
    if c == 0.0 || c == 1.0 {
    } else if IsStandard(a) {
      ScaleFromValid(c, a, InitialState(a));
    } else {
      ScaleInitialValid(c, a);
    }
  }

  lemma ScaleInitialValid(c: real, a: Automaton)
    requires c != 0.0 && a.Valid()
    ensures ScaleInitial(a, c).Valid()
  {
    forall s <- ScaleInitial(a, c).initial
      ensures s in a.states && ScaleInitial(a, c).initial[s] != 0.0
    {
      NonZeroProduct(c, a.initial[s]);
    }
  }

  lemma NonZeroProduct(c: real, x: real)
    requires c != 0.0 && x != 0.0
    ensures c * x != 0.0
  {
  }

  lemma ScaleFromValid(c: real, a: Automaton, s: State)
    requires c != 0.0 && a.Valid()
    ensures ScaleFrom(a, s, c).Valid()
  {
    ScaleFromTransitions(c, a, s);
    ScaleFromFinal(c, a, s);
  }

  lemma ScaleFromTransitions(c: real, a: Automaton, s: State)
    requires c != 0.0 && a.Valid()
    ensures forall e <- ScaleFrom(a, s, c).transitions ::
              e.src in a.states && e.dst in a.states && ScaleFrom(a, s, c).transitions[e] != 0.0
  {
    forall e <- ScaleFrom(a, s, c).transitions
      ensures e.src in a.states && e.dst in a.states && ScaleFrom(a, s, c).transitions[e] != 0.0
    {
      NonZeroProduct(c, a.transitions[e]);
    }
  }

  lemma ScaleFromFinal(c: real, a: Automaton, s: State)
    requires c != 0.0 && a.Valid()
    ensures forall t <- ScaleFrom(a, s, c).final :: t in a.states && ScaleFrom(a, s, c).final[t] != 0.0
  {
    forall t <- ScaleFrom(a, s, c).final
      ensures t in a.states && ScaleFrom(a, s, c).final[t] != 0.0
    {
      NonZeroProduct(c, a.final[t]);
    }
  }

  // ---------------------------------------------------------------------
  // Sum
  // ---------------------------------------------------------------------

  // The states of the sum: those of lhs, then those of rhs.
  function FreshStates(n: nat): (s: seq<State>)
    ensures |s| == n && forall i | 0 <= i < n :: s[i] == i + 2
    ensures forall t :: t in s <==> 2 <= t < n + 2
  {
    if n == 0 then [] else FreshStates(n - 1) + [n + 1]
  }

  function Side(u: Vec, v: Vec): (w: Vec)
    ensures |w| == |u| + |v|
    ensures forall x | 0 <= x < |w| :: w[x] == if x < |u| then u[x] else v[x - |u|]
  {
    u + v
  }

  // The weights of the states of the sum that have one.
  function SumWeights(u: Vec): (m: map<State, real>)
    ensures forall s :: s in m <==> 2 <= s < |u| + 2 && u[s - 2] != 0.0
    ensures forall s <- m :: m[s] == u[s - 2]
  {
    map s <- FreshStates(|u|) | u[s - 2] != 0.0 :: u[s - 2]
  }

  // The row of the x-th state of the sum: no transition crosses the sides.
  function SumRow(lhs: Automaton, rhs: Automaton, x: nat, l: Letter): (u: Vec)
    requires x < |lhs.states| + |rhs.states|
    ensures |u| == |lhs.states| + |rhs.states|
  {
    if x < |lhs.states| then Side(lhs.Row(lhs.states[x], l), Zero(|rhs.states|))
    else Side(Zero(|lhs.states|), rhs.Row(rhs.states[x - |lhs.states|], l))
  }

  // The weight of a transition of the sum; null outside of its states.
  function SumWeight(lhs: Automaton, rhs: Automaton, e: Edge): real {
    var N := |lhs.states| + |rhs.states|;
    if 2 <= e.src < N + 2 && 2 <= e.dst < N + 2 then SumRow(lhs, rhs, e.src - 2, e.lbl)[e.dst - 2] else 0.0
  }

  function SumEdges(lhs: Automaton, rhs: Automaton): (es: set<Edge>)
    ensures forall e <- es :: SumWeight(lhs, rhs, e) != 0.0
  {
    var N := |lhs.states| + |rhs.states|;
    set s <- FreshStates(N), t <- FreshStates(N), l <- lhs.Labels() + rhs.Labels()
      | SumWeight(lhs, rhs, Edge(s, l, t)) != 0.0 :: Edge(s, l, t)
  }

  function SumTransitions(lhs: Automaton, rhs: Automaton): map<Edge, real> {
    map e <- SumEdges(lhs, rhs) :: SumWeight(lhs, rhs, e)
  }

  // Both automata side by side: a copy of each in a fresh automaton.
  function AddAutomata(lhs: Automaton, rhs: Automaton): Automaton {
    Automaton(
      FreshStates(|lhs.states| + |rhs.states|),
      SumWeights(Side(lhs.InitialVector(), rhs.InitialVector())),
      SumWeights(Side(lhs.FinalVector(), rhs.FinalVector())),
      SumTransitions(lhs, rhs))
  }

  lemma SumValid(lhs: Automaton, rhs: Automaton)
    ensures AddAutomata(lhs, rhs).Valid()
  {
    forall e <- SumTransitions(lhs, rhs)
      ensures e.src in FreshStates(|lhs.states| + |rhs.states|) && e.dst in FreshStates(|lhs.states| + |rhs.states|)
      ensures SumTransitions(lhs, rhs)[e] != 0.0
    {
      assert SumWeight(lhs, rhs, e) != 0.0;
    }
  }

  lemma RowLabels(a: Automaton, s: State, l: Letter, j: nat)
    requires j < |a.states| && a.Row(s, l)[j] != 0.0
    ensures l in a.Labels()
  {
    assert Edge(s, l, a.states[j]).lbl == l;
  }

  lemma SumRowLabels(lhs: Automaton, rhs: Automaton, x: nat, l: Letter, y: nat)
    requires x < |lhs.states| + |rhs.states| && y < |lhs.states| + |rhs.states|
    requires SumRow(lhs, rhs, x, l)[y] != 0.0
    ensures l in lhs.Labels() + rhs.Labels()
  {
    if x < |lhs.states| {
      RowLabels(lhs, lhs.states[x], l, y);
    } else {
      RowLabels(rhs, rhs.states[x - |lhs.states|], l, y - |lhs.states|);
    }
  }

  lemma SumEdgeIn(lhs: Automaton, rhs: Automaton, x: nat, l: Letter, y: nat)
    requires x < |lhs.states| + |rhs.states| && y < |lhs.states| + |rhs.states|
    ensures Edge(x + 2, l, y + 2) in SumEdges(lhs, rhs) <==> SumRow(lhs, rhs, x, l)[y] != 0.0
  {
    var N := |lhs.states| + |rhs.states|;
    SumWeightAt(lhs, rhs, x, l, y);
    if SumRow(lhs, rhs, x, l)[y] != 0.0 {
      SumRowLabels(lhs, rhs, x, l, y);
      assert x + 2 in FreshStates(N) && y + 2 in FreshStates(N);
    }
  }

  lemma SumTransition(r: Automaton, lhs: Automaton, rhs: Automaton, x: nat, l: Letter, y: nat)
    requires x < |lhs.states| + |rhs.states| && y < |lhs.states| + |rhs.states|
    requires r.transitions == SumTransitions(lhs, rhs)
    ensures r.TransitionWeight(x + 2, l, y + 2) == SumRow(lhs, rhs, x, l)[y]
  {
    var e := Edge(x + 2, l, y + 2);
    SumEdgeIn(lhs, rhs, x, l, y);
    SumWeightAt(lhs, rhs, x, l, y);
    LookUp(r, lhs, rhs, e);
  }

  lemma SumWeightAt(lhs: Automaton, rhs: Automaton, x: nat, l: Letter, y: nat)
    requires x < |lhs.states| + |rhs.states| && y < |lhs.states| + |rhs.states|
    ensures SumWeight(lhs, rhs, Edge(x + 2, l, y + 2)) == SumRow(lhs, rhs, x, l)[y]
  {
  }

  lemma LookUp(r: Automaton, lhs: Automaton, rhs: Automaton, e: Edge)
    requires r.transitions == SumTransitions(lhs, rhs)
    requires e in SumEdges(lhs, rhs) <==> SumWeight(lhs, rhs, e) != 0.0
    ensures r.TransitionWeight(e.src, e.lbl, e.dst) == SumWeight(lhs, rhs, e)
  {
    assert e == Edge(e.src, e.lbl, e.dst);
  }

  // The automata are beside each other, and apart.
  ghost predicate Beside(r: Automaton, lhs: Automaton, rhs: Automaton) {
    && |r.states| == |lhs.states| + |rhs.states|
    && r.InitialVector() == Side(lhs.InitialVector(), rhs.InitialVector())
    && r.FinalVector() == Side(lhs.FinalVector(), rhs.FinalVector())
    && forall x, l | 0 <= x < |r.states| :: r.Row(r.states[x], l) == SumRow(lhs, rhs, x, l)
  }

  lemma RowEntry(r: Automaton, s: State, l: Letter, y: nat)
    requires y < |r.states|
    ensures r.Row(s, l)[y] == r.TransitionWeight(s, l, r.states[y])
  {
  }

  lemma SameRow(u: Vec, v: Vec)
    requires |u| == |v| && forall y | 0 <= y < |v| :: u[y] == v[y]
    ensures u == v
  {
  }

  // The states and transitions of the sum; said of what equals r, so as to be looked
  // into only where needed.
  ghost predicate SumOf(r: Automaton, lhs: Automaton, rhs: Automaton) {
    forall a | a == r ::
      a.states == FreshStates(|lhs.states| + |rhs.states|) && a.transitions == SumTransitions(lhs, rhs)
  }

  lemma SumEntry(r: Automaton, lhs: Automaton, rhs: Automaton, x: nat, l: Letter, y: nat)
    requires SumOf(r, lhs, rhs) && x < |lhs.states| + |rhs.states| && y < |lhs.states| + |rhs.states|
    ensures |r.states| == |lhs.states| + |rhs.states| && r.states[y] == y + 2
    ensures r.TransitionWeight(x + 2, l, y + 2) == SumRow(lhs, rhs, x, l)[y]
  {
    SumTransition(r, lhs, rhs, x, l, y);
  }

  lemma SumRowEntry(r: Automaton, lhs: Automaton, rhs: Automaton, x: nat, l: Letter, y: nat)
    requires SumOf(r, lhs, rhs) && x < |lhs.states| + |rhs.states| && y < |lhs.states| + |rhs.states| == |r.states|
    ensures r.Row(x + 2, l)[y] == SumRow(lhs, rhs, x, l)[y]
  {
    SumEntry(r, lhs, rhs, x, l, y);
    RowEntry(r, x + 2, l, y);
  }

  lemma SumRows(r: Automaton, lhs: Automaton, rhs: Automaton, x: nat, l: Letter)
    requires SumOf(r, lhs, rhs) && |r.states| == |lhs.states| + |rhs.states| && x < |r.states|
    ensures r.Row(x + 2, l) == SumRow(lhs, rhs, x, l)
  {
    var v := SumRow(lhs, rhs, x, l);
    forall y | 0 <= y < |v|
      ensures r.Row(x + 2, l)[y] == v[y]
    {
      SumRowEntry(r, lhs, rhs, x, l, y);
    }
    SameRow(r.Row(x + 2, l), v);
  }

  lemma FreshInitial(a: Automaton, u: Vec)
    requires a.states == FreshStates(|u|) && a.initial == SumWeights(u)
    ensures a.InitialVector() == u
  {
  }

  lemma FreshFinal(a: Automaton, u: Vec)
    requires a.states == FreshStates(|u|) && a.final == SumWeights(u)
    ensures a.FinalVector() == u
  {
  }

  lemma RowsBeside(r: Automaton, lhs: Automaton, rhs: Automaton)
    requires r.states == FreshStates(|lhs.states| + |rhs.states|)
    requires r.InitialVector() == Side(lhs.InitialVector(), rhs.InitialVector())
    requires r.FinalVector() == Side(lhs.FinalVector(), rhs.FinalVector())
    requires forall x, l | 0 <= x < |r.states| :: r.Row(x + 2, l) == SumRow(lhs, rhs, x, l)
    ensures Beside(r, lhs, rhs)
  {
  }

  lemma SumBeside(lhs: Automaton, rhs: Automaton)
    ensures Beside(AddAutomata(lhs, rhs), lhs, rhs)
  {
    var r := AddAutomata(lhs, rhs);
    forall x, l | 0 <= x < |r.states|
      ensures r.Row(x + 2, l) == SumRow(lhs, rhs, x, l)
    {
      SumRows(r, lhs, rhs, x, l);
    }
    FreshInitial(r, Side(lhs.InitialVector(), rhs.InitialVector()));
    FreshFinal(r, Side(lhs.FinalVector(), rhs.FinalVector()));
    RowsBeside(r, lhs, rhs);
  }

  lemma {:induction false} DotSide(u: Vec, v: Vec, u': Vec, v': Vec, k: nat)
    requires |u| == |v| && k <= |u'| && k <= |v'|
    ensures DotTo(Side(u, u'), Side(v, v'), |u| + k) == Dot(u, v) + DotTo(u', v', k)
  {
    if k == 0 {
      DotPrefix(Side(u, u'), Side(v, v'), u, v, |u|);
    } else {
      DotSide(u, v, u', v', k - 1);
    }
  }

  lemma SideDot(u: Vec, v: Vec, u': Vec, v': Vec)
    requires |u| == |v| && |u'| == |v'|
    ensures Dot(Side(u, u'), Side(v, v')) == Dot(u, v) + Dot(u', v')
  {
    DotSide(u, v, u', v', |u'|);
  }

  lemma LeftRowDot(lhs: Automaton, rhs: Automaton, x: nat, l: Letter, f: Vec, g: Vec)
    requires x < |lhs.states| && |f| == |lhs.states| && |g| == |rhs.states|
    ensures Dot(SumRow(lhs, rhs, x, l), Side(f, g)) == Dot(lhs.Row(lhs.states[x], l), f)
  {
    SideDot(lhs.Row(lhs.states[x], l), f, Zero(|g|), g);
    DotNullTo(Zero(|g|), g, |g|);
  }

  lemma RightRowDot(lhs: Automaton, rhs: Automaton, x: nat, l: Letter, f: Vec, g: Vec)
    requires x < |rhs.states| && |f| == |lhs.states| && |g| == |rhs.states|
    ensures Dot(SumRow(lhs, rhs, |lhs.states| + x, l), Side(f, g)) == Dot(rhs.Row(rhs.states[x], l), g)
  {
    SideDot(Zero(|f|), f, rhs.Row(rhs.states[x], l), g);
    DotNullTo(Zero(|f|), f, |f|);
  }

  // A row of the sum, times what the states of both sides give.
  lemma LeftDot(r: Automaton, lhs: Automaton, rhs: Automaton, x: nat, l: Letter, f: Vec, g: Vec)
    requires Beside(r, lhs, rhs) && |f| == |lhs.states| && |g| == |rhs.states| && x < |f|
    ensures r.Before(l, Side(f, g))[x] == lhs.Before(l, f)[x]
  {
    assert r.Row(r.states[x], l) == SumRow(lhs, rhs, x, l);
    LeftRowDot(lhs, rhs, x, l, f, g);
  }

  lemma RightDot(r: Automaton, lhs: Automaton, rhs: Automaton, x: nat, l: Letter, f: Vec, g: Vec)
    requires Beside(r, lhs, rhs) && |f| == |lhs.states| && |g| == |rhs.states| && x < |g|
    ensures r.Before(l, Side(f, g))[|f| + x] == rhs.Before(l, g)[x]
  {
    assert r.Row(r.states[|f| + x], l) == SumRow(lhs, rhs, |f| + x, l);
    RightRowDot(lhs, rhs, x, l, f, g);
  }

  lemma HalvesSide(w: Vec, u: Vec, v: Vec)
    requires |w| == |u| + |v|
    requires (forall x | 0 <= x < |u| :: w[x] == u[x]) && forall x | 0 <= x < |v| :: w[|u| + x] == v[x]
    ensures w == Side(u, v)
  {
    forall x | 0 <= x < |w|
      ensures w[x] == Side(u, v)[x]
    {
      assert x >= |u| ==> w[|u| + (x - |u|)] == v[x - |u|];
    }
  }

  lemma BeforeSide(r: Automaton, lhs: Automaton, rhs: Automaton, l: Letter, f: Vec, g: Vec)
    requires Beside(r, lhs, rhs) && |f| == |lhs.states| && |g| == |rhs.states|
    ensures r.Before(l, Side(f, g)) == Side(lhs.Before(l, f), rhs.Before(l, g))
  {
    forall x | 0 <= x < |f|
      ensures r.Before(l, Side(f, g))[x] == lhs.Before(l, f)[x]
    {
      LeftDot(r, lhs, rhs, x, l, f, g);
    }
    forall x | 0 <= x < |g|
      ensures r.Before(l, Side(f, g))[|f| + x] == rhs.Before(l, g)[x]
    {
      RightDot(r, lhs, rhs, x, l, f, g);
    }
    HalvesSide(r.Before(l, Side(f, g)), lhs.Before(l, f), rhs.Before(l, g));
  }

  lemma {:induction false} SumFutures(r: Automaton, lhs: Automaton, rhs: Automaton, w: seq<Letter>)
    requires Beside(r, lhs, rhs)
    ensures r.Futures(w) == Side(lhs.Futures(w), rhs.Futures(w))
    decreases |w|
  {
    if w != [] {
      SumFutures(r, lhs, rhs, w[1..]);
      BeforeSide(r, lhs, rhs, w[0], lhs.Futures(w[1..]), rhs.Futures(w[1..]));
    }
  }

  // The series of the sum is the sum of the series.
  lemma SumSeries(lhs: Automaton, rhs: Automaton, w: seq<Letter>)
    ensures AddAutomata(lhs, rhs).Weight(w) == lhs.Weight(w) + rhs.Weight(w)
  {
    SumBeside(lhs, rhs);
    SumFutures(AddAutomata(lhs, rhs), lhs, rhs, w);
    SideDot(lhs.InitialVector(), lhs.Futures(w), rhs.InitialVector(), rhs.Futures(w));
  }
}
