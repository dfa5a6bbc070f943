// Which automata with real weights are valid, that is, can be made proper
// (vcsn/algos/is-valid.hh, vcsn/algos/is-proper.hh, vcsn/algos/proper.hh).
module Validity {
  import opened Wrappers
  import opened Sets
  import opened AllDistances
  import opened EpsilonRemoval
  import opened EpsilonAcyclic
  import opened RealSemiring
  import opened RealEpsilon
  import opened RealRefusal

  function Abs(x: real): real {
    if x < 0.0 then -x else x
  }

  // The automaton whose transitions have absolute values.
  ghost function Absolute(a: Realaut): Realaut {
    a.(transitions := map e <- a.transitions :: Abs(a.transitions[e]))
  }

  lemma AbsoluteValid(a: Realaut)
    requires Valid(Reals(), a)
    ensures Valid(Reals(), Absolute(a)) && NonNegative(Absolute(a))
  {
  }

  lemma AbsoluteWeight(a: Realaut, e: Arrow)
    ensures W(Reals(), Absolute(a), e) == Abs(W(Reals(), a, e))
  {
  }

  // ---------------------------------------------------------------------
  // Sums of absolute values
  // ---------------------------------------------------------------------

  lemma TimesMonotoneLeft(k: real, x: real, y: real)
    requires k >= 0.0 && x <= y
    ensures Times(x, k) <= Times(y, k)
  {
  }

  lemma {:induction false} DotMonotoneLeft(ts: seq<State>, x: Column, y: Column, g: Column)
    requires forall t <- ts :: x(t) <= y(t) && g(t) >= 0.0
    ensures Dot(ts, x, g) <= Dot(ts, y, g)
    decreases |ts|
  {
    if ts != [] {
      assert x(ts[0]) <= y(ts[0]) && g(ts[0]) >= 0.0 && forall t <- ts[1..] :: t in ts;
      TimesMonotoneLeft(g(ts[0]), x(ts[0]), y(ts[0]));
      DotMonotoneLeft(ts[1..], x, y, g);
    }
  }

  // The sum of x and c times y, but nothing at s.
  function Bypass(x: Column, y: Column, c: real, s: State): Column {
    (t: State) => if t == s then 0.0 else x(t) + Times(c, y(t))
  }

  lemma DotBypass(ts: seq<State>, x: Column, y: Column, c: real, s: State, g: Column)
    requires Distinct(ts) && s in ts
    ensures Dot(ts, Bypass(x, y, c, s), g)
            == Dot(ts, x, g) + Times(c, Dot(ts, y, g)) - Times(x(s) + Times(c, y(s)), g(s))
  {
    var sum: Column := (t: State) => x(t) + Times(c, y(t));
    var k := -(x(s) + Times(c, y(s)));
    DotCombine(ts, sum, x, y, c, g);
    DotPut(ts, sum, s, k, g);
    DotSame(ts, Bypass(x, y, c, s), Put(sum, s, sum(s) + k), g, g);
    Distribute(k, x(s) + Times(c, y(s)), g(s));
  }

  lemma AbsProduct(x: real, y: real)
    ensures Abs(Times(x, y)) == Times(Abs(x), Abs(y))
  {
  }

  lemma AbsSum(x: real, y: real)
    ensures Abs(x + y) <= Abs(x) + Abs(y)
  {
  }

  // ---------------------------------------------------------------------
  // One elimination
  // ---------------------------------------------------------------------

  lemma StarShrinks(star: real, l: real)
    requires Times(star, 1.0 - l) == 1.0 && -1.0 < l < 1.0
    ensures star > 0.0 && Times(star, 1.0 - Abs(l)) <= 1.0
  {
    StarPositive(star, l);
    TimesMonotone(star, 1.0 - Abs(l), 1.0 - l);
  }

  // The weights after an elimination are at most those of the elimination with
  // absolute values.
  lemma RowWithin(a: Realaut, s: State, star: real, b: Realaut, p: State, t: State)
    requires Step(a, s, star, b) && star > 0.0 && p != s
    ensures var A := Absolute(a);
            Weights(Absolute(b), p, None)(t)
            <= Bypass(Weights(A, p, None), Weights(A, s, None), Times(Jump(Reals(), A, p, s), star), s)(t)
  {
    AbsoluteWeight(b, Arrow(p, None, t));
    assert W(Reals(), b, Arrow(p, None, t)) == NewWeight(Reals(), a, s, star, Arrow(p, None, t));
    if t != s {
      var j, z := Jump(Reals(), a, p, s), W(Reals(), a, Arrow(s, None, t));
      AbsoluteWeight(a, Arrow(p, None, t));
      AbsoluteWeight(a, Arrow(p, None, s));
      AbsoluteWeight(a, Arrow(s, None, t));
      AbsSum(W(Reals(), a, Arrow(p, None, t)), Times(j, Times(star, z)));
      AbsProduct(j, Times(star, z));
      AbsProduct(star, z);
      Associate(Abs(j), star, Abs(z));
    }
  }

  lemma RowWithinAtS(a: Realaut, s: State, star: real, b: Realaut, t: State)
    requires Step(a, s, star, b) && star > 0.0
    ensures Weights(Absolute(b), s, None)(t) <= Bypass(t => 0.0, Weights(Absolute(a), s, None), star, s)(t)
  {
    AbsoluteWeight(b, Arrow(s, None, t));
    assert W(Reals(), b, Arrow(s, None, t)) == NewWeight(Reals(), a, s, star, Arrow(s, None, t));
    if t != s {
      AbsoluteWeight(a, Arrow(s, None, t));
      AbsProduct(star, W(Reals(), a, Arrow(s, None, t)));
    }
  }

  // What remains for p once s is eliminated: x is the value of s, g its gap, l
  // its loop, and j leads from p to it.
  lemma GapRemains(j: real, star: real, l: real, x: real, g: real)
    requires j >= 0.0 && star > 0.0 && Times(star, 1.0 - l) <= 1.0 && x > 0.0 && g > 0.0
    ensures Times(Times(j, star), x - g) <= Times(j + Times(Times(j, star), l), x)
  {
    var c := Times(j, star);
    TimesMonotone(j, Times(star, 1.0 - l), 1.0);
    Associate(j, star, 1.0 - l);
    Distribute(c, 1.0, -l);
    assert c <= j + Times(c, l);
    TimesMonotoneLeft(x, c, j + Times(c, l));
    TimesMonotone(c, x - g, x);
  }

  lemma JumpsWithin(a: Realaut, s: State, star: real, b: Realaut, p: State, v: Column)
    requires Step(a, s, star, b) && star > 0.0 && Damped(Absolute(a), v) && p != s
    ensures var A := Absolute(a);
            Jumps(Absolute(b), p, v)
            <= Dot(a.states, Bypass(Weights(A, p, None), Weights(A, s, None), Times(Jump(Reals(), A, p, s), star),
                  s), v)
  {
    var A := Absolute(a);
    var x := Bypass(Weights(A, p, None), Weights(A, s, None), Times(Jump(Reals(), A, p, s), star), s);
    forall t <- a.states
      ensures Weights(Absolute(b), p, None)(t) <= x(t) && v(t) >= 0.0
    {
      RowWithin(a, s, star, b, p, t);
      DampedAt(A, v, t);
    }
    DotMonotoneLeft(a.states, Weights(Absolute(b), p, None), x, v);
  }

  lemma GapKept(a: Realaut, s: State, star: real, b: Realaut, p: State, v: Column)
    requires Step(a, s, star, b) && -1.0 < Jump(Reals(), a, s, s) < 1.0 && Damped(Absolute(a), v)
    requires p in a.states && p != s
    ensures Gap(Absolute(b), p, v) > 0.0
  {
    var A := Absolute(a);
    var j, l := Jump(Reals(), A, p, s), Jump(Reals(), A, s, s);
    var c := Times(j, star);
    var y, z := Weights(A, p, None), Weights(A, s, None);
    AbsoluteWeight(a, Arrow(p, None, s));
    AbsoluteWeight(a, Arrow(s, None, s));
    StarShrinks(star, Jump(Reals(), a, s, s));
    DampedAt(A, v, p);
    DampedAt(A, v, s);
    JumpsWithin(a, s, star, b, p, v);
    DotBypass(a.states, y, z, c, s, v);
    GapRemains(j, star, l, v(s), Gap(A, s, v));
  }

  lemma JumpsWithinAtS(a: Realaut, s: State, star: real, b: Realaut, v: Column)
    requires Step(a, s, star, b) && star > 0.0 && Damped(Absolute(a), v)
    ensures Jumps(Absolute(b), s, v) <= Dot(a.states, Bypass(t => 0.0, Weights(Absolute(a), s, None), star, s), v)
  {
    var x := Bypass(t => 0.0, Weights(Absolute(a), s, None), star, s);
    forall t <- a.states
      ensures Weights(Absolute(b), s, None)(t) <= x(t) && v(t) >= 0.0
    {
      RowWithinAtS(a, s, star, b, t);
      DampedAt(Absolute(a), v, t);
    }
    DotMonotoneLeft(a.states, Weights(Absolute(b), s, None), x, v);
  }

  lemma GapKeptAtS(a: Realaut, s: State, star: real, b: Realaut, v: Column)
    requires Step(a, s, star, b) && -1.0 < Jump(Reals(), a, s, s) < 1.0 && Damped(Absolute(a), v)
    ensures Gap(Absolute(b), s, v) > 0.0
  {
    var A := Absolute(a);
    var l, z := Jump(Reals(), A, s, s), Weights(A, s, None);
    AbsoluteWeight(a, Arrow(s, None, s));
    StarShrinks(star, Jump(Reals(), a, s, s));
    DampedAt(A, v, s);
    JumpsWithinAtS(a, s, star, b, v);
    DotBypass(a.states, t => 0.0, z, star, s, v);
    DotZero(a.states, v);
    OwnGapRemains(star, l, v(s), Gap(A, s, v));
  }

  lemma OwnGapRemains(star: real, l: real, x: real, g: real)
    requires star > 0.0 && Times(star, 1.0 - l) <= 1.0 && x > 0.0 && g > 0.0
    ensures Times(star, x - g) - Times(0.0 + Times(star, l), x) < x
  {
    Distribute(star, 1.0, -l);
    Distribute(star, x, -g);
    TimesPositive(star, g);
    TimesMonotoneLeft(x, star, 1.0 + Times(star, l));
    Distribute(1.0, Times(star, l), x);
  }

  lemma StepKeepsDamped(a: Realaut, s: State, star: real, b: Realaut, v: Column)
    requires Step(a, s, star, b) && -1.0 < Jump(Reals(), a, s, s) < 1.0 && Damped(Absolute(a), v)
    ensures Damped(Absolute(b), v)
  {
    forall p <- b.states
      ensures v(p) > 0.0 && Gap(Absolute(b), p, v) > 0.0
    {
      DampedAt(Absolute(a), v, p);
      if p == s {
        GapKeptAtS(a, s, star, b, v);
      } else {
        GapKept(a, s, star, b, p, v);
      }
    }
  }

  // ---------------------------------------------------------------------
  // All the eliminations
  // ---------------------------------------------------------------------

  lemma DeletedAbsolute(r: Realaut, s: State)
    ensures Absolute(DeleteState(r, s)) == DeleteState(Absolute(r), s)
  {
  }

  // What damps the absolute values before an elimination damps them after.
  lemma EliminatesKeepsDamped(a: Realaut, s: State, star: real, r: Realaut, b: Realaut, v: Column)
    requires Eliminates(Reals(), a, s, star, r, b) && Damped(Absolute(a), v)
    ensures Damped(Absolute(b), v)
  {
    EliminatesStep(a, s, star, r, b);
    EliminatesBounds(a, s, star, r, b);
    StepKeepsDamped(a, s, star, r, v);
    if b != r {
      AbsoluteValid(r);
      DeletedAbsolute(r, s);
      DeletedDamped(Absolute(r), s, v);
    }
  }

  lemma {:induction false} ReducesKeepsDamped(a: Realaut, ss: seq<State>, b: Realaut, v: Column)
    requires Reduces(Reals(), a, ss, b) && Damped(Absolute(a), v)
    ensures Damped(Absolute(b), v)
    decreases |ss|
  {
    if ss != [] {
      var c, star, r :| Reduces(Reals(), a, Front(ss), c) && Eliminates(Reals(), c, Last(ss), star, r, b);
      ReducesKeepsDamped(a, Front(ss), c, v);
      EliminatesKeepsDamped(c, Last(ss), star, r, b, v);
    }
  }

  // When the star of the absolute values is defined, no order of elimination is
  // refused, whatever the signs of the weights.
  lemma NeverStuck(a: Realaut)
    requires Valid(Reals(), a) && StarDefined(Absolute(a))
    ensures !Stuck(a)
  {
    AbsoluteValid(a);
    StarDamps(Absolute(a));
    var v: Column :| Damped(Absolute(a), v);
    forall ss, b, s | Reduces(Reals(), a, ss, b)
      ensures !Blocks(b, s)
    {
      ReducesKeepsDamped(a, ss, b, v);
      ReducesValid(a, ss, b);
      if Blocks(b, s) {
        AbsoluteValid(b);
        assert Arrow(s, None, s).src in b.states;
        DampedLoop(Absolute(b), v, s);
        AbsoluteWeight(b, Arrow(s, None, s));
      }
    }
  }

  // ---------------------------------------------------------------------
  // Without circuits
  // ---------------------------------------------------------------------

  // Values that damp the states of the order, and are null for the others.
  lemma {:induction false} DampOrder(a: Realaut, order: seq<State>, i: nat) returns (v: Column)
    requires NonNegative(a) && Ordered(a, order) && i <= |order|
    ensures forall t :: v(t) >= 0.0
    ensures forall p <- order[..i] :: v(p) > 0.0 && Gap(a, p, v) > 0.0
    decreases i
  {
    if i == 0 {
      v := t => 0.0;
    } else {
      var s := order[i - 1];
      v := DampOrder(a, order, i - 1);
      TakeMore(order, i - 1);
      if s !in order[..i - 1] {
        var u := v;
        JumpsNonNegative(a, s, u);
        v := Put(u, s, 1.0 + Jumps(a, s, u));
        forall p <- order[..i]
          ensures v(p) > 0.0 && Gap(a, p, v) > 0.0
        {
          NoHop(a, order, i, p, u, v);
        }
      }
    }
  }

  // The new value of s does not change what leads to the others.
  lemma NoHop(a: Realaut, order: seq<State>, i: nat, p: State, u: Column, v: Column)
    requires Ordered(a, order) && 0 < i <= |order| && p in order[..i] && order[i - 1] !in order[..i - 1]
    requires forall t | t != order[i - 1] :: v(t) == u(t)
    ensures Jumps(a, p, v) == Jumps(a, p, u)
  {
    var s := order[i - 1];
    var k: nat :| k < i && order[k] == p;
    assert forall q | q in order[..k] :: q in order[..i - 1];
    assert !Hop(a, p, s);
    var x := Weights(a, p, None);
    assert x(s) == 0.0;
    DotSame(a.states, x, x, v, u);
  }

  lemma HopsSame(a: Realaut, order: seq<State>)
    requires Ordered(a, order)
    ensures Ordered(Absolute(a), order)
  {
    forall i, q | 0 <= i < |order| && Hop(Absolute(a), order[i], q)
      ensures q in order[..i]
    {
      assert Hop(a, order[i], q);
    }
  }

  // Without circuits of spontaneous transitions, the star is defined.
  lemma OrderedDamps(a: Realaut, order: seq<State>)
    requires Valid(Reals(), a) && Ordered(a, order) && forall s <- a.states :: s in order
    ensures StarDefined(Absolute(a))
  {
    AbsoluteValid(a);
    HopsSame(a, order);
    var v := DampOrder(Absolute(a), order, |order|);
    TakeAll(order);
    assert Damped(Absolute(a), v);
    StarDamps(Absolute(a));
  }

  // ---------------------------------------------------------------------
  // The algorithms
  // ---------------------------------------------------------------------

  method IsProper(a: Realaut) returns (r: bool)
    ensures r <==> Proper(a)
  {
    var todo := a.transitions.Keys;
    while todo != {}
      invariant todo <= a.transitions.Keys && forall e <- a.transitions.Keys - todo :: e.lbl.Some?
      decreases todo
    {
      var t :| t in todo;
      if t.lbl.None? {
        return false;
      }
      todo := todo - {t};
    }
    r := true;
  }

  // A copy, with absolute values.
  method Absval(a: Realaut) returns (res: Realaut)
    ensures res == Absolute(a)
  {
    res := a;
    var todo := a.transitions.Keys;
    while todo != {}
      invariant todo <= a.transitions.Keys && res == a.(transitions := res.transitions)
      invariant res.transitions.Keys == a.transitions.Keys
      invariant forall e <- a.transitions ::
                  res.transitions[e] == if e in todo then a.transitions[e] else Abs(a.transitions[e])
      decreases todo
    {
      var t :| t in todo;
      res := res.(transitions := res.transitions[t := Abs(res.transitions[t])]);
      todo := todo - {t};
    }
  }

  // Whether the automaton can be made proper: exactly when the star of the
  // absolute values of its spontaneous transitions is defined.
  method IsValid(a: Realaut) returns (r: bool)
    requires Valid(Reals(), a)
    ensures r <==> StarDefined(Absolute(a))
  {
    AbsoluteValid(a);
    r := IsProper(a);
    if r {
      assert Proper(Absolute(a));
      ProperDamped(Absolute(a));
      StarDamps(Absolute(a));
      return;
    }
    var checker := new AcyclicChecker(a);
    r := checker.Run();
    if r {
      OrderedDamps(a, checker.order);
      return;
    }
    var copy := Absval(a);
    var properable := RealRefusal.MakeProper(copy, true);
    r := properable.Some?;
  }

  // The proper automaton of a, if a is valid.
  method MakeProper(a: Realaut, prune: bool) returns (r: Result<Realaut>)
    requires Valid(Reals(), a)
    ensures r.Ok? <==> StarDefined(Absolute(a))
    ensures r.Error? ==> r.message == "proper: invalid automaton"
    ensures r.Ok? ==> Valid(Reals(), r.value) && Proper(r.value) && SameSolutions(a, r.value) && OneSolution(a)
    ensures r.Ok? ==> MadeWithin(prune, a, r.value) && Pruned(prune, a, r.value)
  {
    var valid := IsValid(a);
    if !valid {
      return Error("proper: invalid automaton");
    }
    NeverStuck(a);
    var removed := RealRefusal.MakeProper(a, prune);
    r := Ok(removed.value);
  }
}
