// When the elimination of spontaneous transitions is refused, with real
// weights: with nonnegative ones, exactly when the star of their matrix is
// undefined (vcsn/algos/epsilon-remover.hh, vcsn/weightset/r.hh).
module RealRefusal {
  import opened Wrappers
  import opened AllDistances
  import opened EpsilonRemoval
  import opened RealSemiring
  import opened RealEpsilon

  // The weights of the spontaneous transitions.
  ghost predicate NonNegative(a: Realaut) {
    forall e <- a.transitions :: e.lbl.None? ==> a.transitions[e] >= 0.0
  }

  // ---------------------------------------------------------------------
  // Nonnegative sums
  // ---------------------------------------------------------------------

  lemma TimesMonotone(k: real, x: real, y: real)
    requires k >= 0.0 && x <= y
    ensures Times(k, x) <= Times(k, y)
  {
  }

  lemma TimesPositive(x: real, y: real)
    requires x > 0.0 && y > 0.0
    ensures Times(x, y) > 0.0
  {
  }

  lemma {:induction false} DotMonotone(ts: seq<State>, x: Column, g: Column, h: Column)
    requires forall t <- ts :: x(t) >= 0.0 && g(t) <= h(t)
    ensures Dot(ts, x, g) <= Dot(ts, x, h)
    decreases |ts|
  {
    if ts != [] {
      assert x(ts[0]) >= 0.0 && forall t <- ts[1..] :: t in ts;
      TimesMonotone(x(ts[0]), g(ts[0]), h(ts[0]));
      DotMonotone(ts[1..], x, g, h);
    }
  }

  lemma {:induction false} DotNonNegative(ts: seq<State>, x: Column, g: Column)
    requires forall t <- ts :: x(t) >= 0.0 && g(t) >= 0.0
    ensures Dot(ts, x, g) >= 0.0
    decreases |ts|
  {
    if ts != [] {
      assert x(ts[0]) >= 0.0 && forall t <- ts[1..] :: t in ts;
      TimesMonotone(x(ts[0]), 0.0, g(ts[0]));
      DotNonNegative(ts[1..], x, g);
    }
  }

  // One of the terms.
  lemma {:induction false} DotTerm(ts: seq<State>, x: Column, g: Column, s: State)
    requires s in ts && forall t <- ts :: x(t) >= 0.0 && g(t) >= 0.0
    ensures Times(x(s), g(s)) <= Dot(ts, x, g)
    decreases |ts|
  {
    assert x(ts[0]) >= 0.0 && forall t <- ts[1..] :: t in ts;
    if ts[0] == s {
      DotNonNegative(ts[1..], x, g);
    } else {
      assert ts == [ts[0]] + ts[1..];
      TimesMonotone(x(ts[0]), 0.0, g(ts[0]));
      DotTerm(ts[1..], x, g, s);
    }
  }

  function Scaled(c: real, g: Column): Column {
    (t: State) => Times(c, g(t))
  }

  lemma {:induction false} DotScaled(ts: seq<State>, x: Column, c: real, g: Column)
    ensures Dot(ts, x, Scaled(c, g)) == Times(c, Dot(ts, x, g))
    decreases |ts|
  {
    if ts != [] {
      DotScaled(ts[1..], x, c, g);
      Commute(x(ts[0]), Times(c, g(ts[0])));
      Associate(c, g(ts[0]), x(ts[0]));
      Commute(g(ts[0]), x(ts[0]));
      Distribute(c, Times(x(ts[0]), g(ts[0])), Dot(ts[1..], x, g));
    }
  }

  lemma JumpsMonotone(a: Realaut, p: State, g: Column, h: Column)
    requires NonNegative(a) && forall t <- a.states :: g(t) <= h(t)
    ensures Jumps(a, p, g) <= Jumps(a, p, h)
  {
    DotMonotone(a.states, Weights(a, p, None), g, h);
  }

  lemma JumpsNonNegative(a: Realaut, p: State, g: Column)
    requires NonNegative(a) && forall t <- a.states :: g(t) >= 0.0
    ensures Jumps(a, p, g) >= 0.0
  {
    DotNonNegative(a.states, Weights(a, p, None), g);
  }

  // ---------------------------------------------------------------------
  // Damped automata
  // ---------------------------------------------------------------------

  // What p keeps of its value once its spontaneous transitions are followed.
  function Gap(a: Realaut, p: State, v: Column): real {
    v(p) - Jumps(a, p, v)
  }

  // The spontaneous transitions of each state lead to less than its value.
  ghost predicate Damped(a: Realaut, v: Column) {
    forall p <- a.states :: v(p) > 0.0 && Gap(a, p, v) > 0.0
  }

  ghost predicate Damps(a: Realaut) {
    exists v: Column :: Damped(a, v)
  }

  lemma DampedAt(a: Realaut, v: Column, p: State)
    requires Damped(a, v) && p in a.states
    ensures v(p) > 0.0 && Gap(a, p, v) > 0.0
  {
  }

  // A loop is less than one.
  lemma DampedLoop(a: Realaut, v: Column, s: State)
    requires NonNegative(a) && Damped(a, v) && s in a.states
    ensures Jump(Reals(), a, s, s) < 1.0
  {
    var x := Weights(a, s, None);
    DampedAt(a, v, s);
    DotTerm(a.states, x, v, s);
    if x(s) >= 1.0 {
      Commute(x(s), v(s));
      TimesMonotone(v(s), 1.0, x(s));
    }
  }

  lemma ProperDamped(a: Realaut)
    requires Proper(a)
    ensures Damps(a)
  {
    var v: Column := t => 1.0;
    forall p <- a.states
      ensures v(p) > 0.0 && Gap(a, p, v) > 0.0
    {
      forall t <- a.states
        ensures Weights(a, p, None)(t) == 0.0
      {
        assert Arrow(p, None, t) !in a.transitions;
      }
      DotSame(a.states, Weights(a, p, None), t => 0.0, v, v);
      DotZero(a.states, v);
    }
    assert Damped(a, v);
  }

  // ---------------------------------------------------------------------
  // One elimination
  // ---------------------------------------------------------------------

  lemma GapFollows(a: Realaut, s: State, star: real, b: Realaut, p: State, v: Column)
    requires Step(a, s, star, b) && p != s
    ensures Gap(b, p, v) == Gap(a, p, v) + Times(Times(Jump(Reals(), a, p, s), star), Gap(a, s, v))
  {
    var c := Times(Jump(Reals(), a, p, s), star);
    SpontaneousRow(a, s, star, b, p, v);
    Distribute(c, Gap(a, s, v), Jumps(a, s, v));
  }

  lemma GapAtS(a: Realaut, s: State, star: real, b: Realaut, v: Column)
    requires Step(a, s, star, b)
    ensures Gap(b, s, v) == Times(star, Gap(a, s, v))
  {
    SpontaneousRowAtS(a, s, star, b, v);
    Distribute(star, Gap(a, s, v), Jumps(a, s, v));
    LessOne(star, v(s));
  }

  lemma LessOne(star: real, x: real)
    ensures Times(star - 1.0, x) == Times(star, x) - x
  {
  }

  lemma StarPositive(star: real, l: real)
    requires Times(star, 1.0 - l) == 1.0 && l < 1.0
    ensures star > 0.0
  {
  }

  lemma StarWithin(a: Realaut, s: State, star: real)
    requires StarOf(Reals(), a, s, star)
    ensures -1.0 < Jump(Reals(), a, s, s) < 1.0
  {
  }

  // Only states whose loops are less than one in absolute value are eliminated.
  lemma EliminatesBounds(a: Realaut, s: State, star: real, r: Realaut, b: Realaut)
    requires Eliminates(Reals(), a, s, star, r, b)
    ensures -1.0 < Jump(Reals(), a, s, s) < 1.0
  {
    StarWithin(a, s, star);
  }

  // The star that is found is positive.
  lemma EliminatesPositive(a: Realaut, s: State, star: real, r: Realaut, b: Realaut)
    requires Eliminates(Reals(), a, s, star, r, b)
    ensures Step(a, s, star, r) && Jump(Reals(), a, s, s) < 1.0 && star > 0.0
  {
    EliminatesStep(a, s, star, r, b);
    EliminatesBounds(a, s, star, r, b);
    StarPositive(star, Jump(Reals(), a, s, s));
  }

  lemma StepNonNegative(a: Realaut, s: State, star: real, b: Realaut)
    requires NonNegative(a) && Step(a, s, star, b) && star > 0.0
    ensures NonNegative(b)
  {
    forall e <- b.transitions | e.lbl.None?
      ensures b.transitions[e] >= 0.0
    {
      var onwards := W(Reals(), a, Arrow(s, None, e.dst));
      assert b.transitions[e] == W(Reals(), b, e) == NewWeight(Reals(), a, s, star, e);
      TimesMonotone(star, 0.0, onwards);
      TimesMonotone(Jump(Reals(), a, e.src, s), 0.0, Times(star, onwards));
    }
  }

  lemma StepDamped(a: Realaut, s: State, star: real, b: Realaut, v: Column)
    requires NonNegative(a) && Step(a, s, star, b) && star > 0.0 && Damped(a, v)
    ensures Damped(b, v)
  {
    DampedAt(a, v, s);
    forall p <- b.states
      ensures v(p) > 0.0 && Gap(b, p, v) > 0.0
    {
      DampedAt(a, v, p);
      if p == s {
        GapAtS(a, s, star, b, v);
        TimesPositive(star, Gap(a, s, v));
      } else {
        var j := Jump(Reals(), a, p, s);
        GapFollows(a, s, star, b, p, v);
        Associate(j, star, Gap(a, s, v));
        TimesPositive(star, Gap(a, s, v));
        TimesMonotone(j, 0.0, Times(star, Gap(a, s, v)));
      }
    }
  }

  // All the states but s.
  ghost predicate DampedBut(a: Realaut, s: State, v: Column) {
    forall p <- a.states | p != s :: v(p) > 0.0 && Gap(a, p, v) > 0.0
  }

  lemma Fraction(x: real, g: real) returns (e: real)
    requires x >= 0.0 && g > 0.0
    ensures e > 0.0 && Times(x, e) < g
  {
    e := g / (x + 1.0);
    assert Times(x + 1.0, e) == g;
    Distribute(x, 1.0, e);
  }

  // Something that is less than every gap once multiplied.
  lemma {:induction false} SmallStep(ts: seq<State>, x: Column, g: Column) returns (e: real)
    requires forall t <- ts :: x(t) >= 0.0 && g(t) > 0.0
    ensures e > 0.0 && forall t <- ts :: Times(x(t), e) < g(t)
    decreases |ts|
  {
    if ts == [] {
      e := 1.0;
    } else {
      var t, rest := ts[0], ts[1..];
      assert ts == [t] + rest;
      var e0 := Fraction(x(t), g(t));
      var e1 := SmallStep(rest, x, g);
      e := if e0 < e1 then e0 else e1;
      forall q <- ts
        ensures Times(x(q), e) < g(q)
      {
        TimesMonotone(x(q), e, if q == t then e0 else e1);
      }
    }
  }

  // The value of s that leaves it a gap of e before its loop is removed.
  function Lifted(b: Realaut, s: State, v: Column, e: real): Column {
    Put(v, s, Jumps(b, s, v) + e)
  }

  // Once s is eliminated, its gap is e and the others are those of v.
  lemma LiftedGaps(a: Realaut, s: State, star: real, b: Realaut, v: Column, e: real, p: State)
    requires Step(a, s, star, b)
    ensures Gap(b, p, Lifted(b, s, v, e)) == if p == s then e else Gap(b, p, v)
  {
    forall t <- b.transitions | t.lbl.None?
      ensures t.dst == s ==> b.transitions[t] == 0.0
    {
      assert b.transitions[t] == W(Reals(), b, t) == NewWeight(Reals(), a, s, star, t);
    }
    var x := Weights(b, p, None);
    assert x(s) == NewWeight(Reals(), a, s, star, Arrow(p, None, s));
    DotSame(b.states, x, x, v, Lifted(b, s, v, e));
  }

  // The gap of p before s is eliminated.
  lemma LiftedBack(a: Realaut, s: State, star: real, b: Realaut, v: Column, e: real, p: State)
    requires Step(a, s, star, b) && star > 0.0 && e > 0.0
    ensures Gap(a, s, Lifted(b, s, v, e)) > 0.0
    ensures p != s ==> Gap(a, p, Lifted(b, s, v, e)) == Gap(b, p, v) - Times(Jump(Reals(), a, p, s), e)
  {
    var w := Lifted(b, s, v, e);
    LiftedGaps(a, s, star, b, v, e, s);
    GapAtS(a, s, star, b, w);
    PositiveFactor(star, Gap(a, s, w));
    if p != s {
      LiftedGaps(a, s, star, b, v, e, p);
      GapFollows(a, s, star, b, p, w);
      Associate(Jump(Reals(), a, p, s), star, Gap(a, s, w));
    }
  }

  lemma PositiveFactor(x: real, y: real)
    requires x > 0.0 && Times(x, y) > 0.0
    ensures y > 0.0
  {
    if y <= 0.0 {
      TimesMonotone(x, y, 0.0);
    }
  }

  // Back through an elimination.
  lemma StepDampsBack(a: Realaut, s: State, star: real, b: Realaut, v: Column)
    requires NonNegative(a) && Step(a, s, star, b) && star > 0.0 && DampedBut(b, s, v)
    ensures Damps(a)
  {
    var others := Without(a.states, s);
    forall p <- others
      ensures Weights(a, s, None)(p) >= 0.0 && Jump(Reals(), a, p, s) >= 0.0 && Gap(b, p, v) > 0.0
    {
      assert v(p) > 0.0;
    }
    var e := SmallStep(others, (p: State) => Jump(Reals(), a, p, s), (p: State) => Gap(b, p, v));
    var w := Lifted(b, s, v, e);
    StepNonNegative(a, s, star, b);
    LiftedPositive(a, s, star, b, v, e);
    forall p <- a.states
      ensures w(p) > 0.0 && Gap(a, p, w) > 0.0
    {
      LiftedBack(a, s, star, b, v, e, p);
    }
    assert Damped(a, w);
  }

  lemma LiftedPositive(a: Realaut, s: State, star: real, b: Realaut, v: Column, e: real)
    requires NonNegative(b) && Step(a, s, star, b) && e > 0.0 && DampedBut(b, s, v)
    ensures forall p <- a.states :: Lifted(b, s, v, e)(p) > 0.0
  {
    var g := Put(v, s, 0.0);
    var x := Weights(b, s, None);
    assert x(s) == NewWeight(Reals(), a, s, star, Arrow(s, None, s));
    DotSame(b.states, x, x, v, g);
    forall t <- b.states
      ensures g(t) >= 0.0
    {
      assert t != s ==> v(t) > 0.0;
    }
    JumpsNonNegative(b, s, g);
  }

  // The other states do not feel the deletion of s.
  lemma DeletedGap(r: Realaut, s: State, v: Column, p: State)
    requires Valid(Reals(), r) && NoneIn(r, s) && p != s
    ensures Gap(DeleteState(r, s), p, v) == Gap(r, p, v)
  {
    var b := DeleteState(r, s);
    var x, y := Weights(r, p, None), Weights(b, p, None);
    assert x(s) == 0.0;
    forall t <- b.states
      ensures x(t) == y(t)
    {
      assert Arrow(p, None, t) in b.transitions <==> Arrow(p, None, t) in r.transitions;
    }
    DotSame(b.states, x, y, v, v);
    DotWithout(r.states, s, x, v);
  }

  lemma DeletedBack(r: Realaut, s: State, v: Column)
    requires Valid(Reals(), r) && NoneIn(r, s) && Damped(DeleteState(r, s), v)
    ensures DampedBut(r, s, v)
  {
    forall p <- r.states | p != s
      ensures v(p) > 0.0 && Gap(r, p, v) > 0.0
    {
      DampedAt(DeleteState(r, s), v, p);
      DeletedGap(r, s, v, p);
    }
  }

  lemma DeletedDamped(r: Realaut, s: State, v: Column)
    requires Valid(Reals(), r) && NoneIn(r, s) && Damped(r, v)
    ensures Damped(DeleteState(r, s), v)
  {
    forall p <- DeleteState(r, s).states
      ensures v(p) > 0.0 && Gap(DeleteState(r, s), p, v) > 0.0
    {
      DampedAt(r, v, p);
      DeletedGap(r, s, v, p);
    }
  }

  lemma DampedIsBut(r: Realaut, s: State, v: Column)
    requires Damped(r, v)
    ensures DampedBut(r, s, v)
  {
  }

  lemma EliminatesNonNegative(a: Realaut, s: State, star: real, r: Realaut, b: Realaut)
    requires NonNegative(a) && Eliminates(Reals(), a, s, star, r, b)
    ensures NonNegative(b)
  {
    EliminatesPositive(a, s, star, r, b);
    StepNonNegative(a, s, star, r);
  }

  // The elimination of a state neither damps nor frees the others.
  lemma EliminatesDamps(a: Realaut, s: State, star: real, r: Realaut, b: Realaut)
    requires NonNegative(a) && Eliminates(Reals(), a, s, star, r, b)
    ensures Damps(a) <==> Damps(b)
  {
    EliminatesPositive(a, s, star, r, b);
    if v: Column :| Damped(a, v) {
      StepDamped(a, s, star, r, v);
      if b != r {
        DeletedDamped(r, s, v);
      }
      assert Damped(b, v);
    }
    if v: Column :| Damped(b, v) {
      if b == r {
        DampedIsBut(r, s, v);
      } else {
        DeletedBack(r, s, v);
      }
      StepDampsBack(a, s, star, r, v);
    }
  }

  // ---------------------------------------------------------------------
  // All the eliminations
  // ---------------------------------------------------------------------

  lemma {:induction false} ReducesDamps(a: Realaut, ss: seq<State>, b: Realaut)
    requires NonNegative(a) && Reduces(Reals(), a, ss, b)
    ensures NonNegative(b) && (Damps(a) <==> Damps(b))
    decreases |ss|
  {
    if ss != [] {
      var c, star, r :| Reduces(Reals(), a, Front(ss), c) && Eliminates(Reals(), c, Last(ss), star, r, b);
      ReducesDamps(a, Front(ss), c);
      EliminatesNonNegative(c, Last(ss), star, r, b);
      EliminatesDamps(c, Last(ss), star, r, b);
    }
  }

  lemma BlockedNotDamped(a: Realaut, s: State)
    requires NonNegative(a) && s in a.states && Blocks(a, s)
    ensures !Damps(a)
  {
    if v: Column :| Damped(a, v) {
      DampedLoop(a, v, s);
    }
  }

  // ---------------------------------------------------------------------
  // The star of the matrix
  // ---------------------------------------------------------------------

  // The sum of the weights of the spontaneous paths from p with less than k
  // transitions: a partial sum of the star of the spontaneous matrix.
  function Upto(a: Realaut, p: State, k: nat): real
    decreases k, 0
  {
    if k == 0 then 0.0 else 1.0 + Jumps(a, p, UptoOf(a, k - 1))
  }

  function UptoOf(a: Realaut, k: nat): Column
    decreases k, 1
  {
    (p: State) => Upto(a, p, k)
  }

  // The partial sums are bounded; the weights being nonnegative, they converge.
  ghost predicate StarDefined(a: Realaut) {
    exists bound: real :: BoundedBy(a, bound)
  }

  ghost predicate BoundedBy(a: Realaut, bound: real) {
    forall p, k: nat | p in a.states :: Upto(a, p, k) <= bound
  }

  lemma {:induction false} UptoGrows(a: Realaut, p: State, k: nat)
    requires NonNegative(a)
    ensures 0.0 <= Upto(a, p, k) <= Upto(a, p, k + 1)
    decreases k
  {
    forall t <- a.states
      ensures 0.0 <= UptoOf(a, if k == 0 then 0 else k - 1)(t) <= UptoOf(a, k)(t)
    {
      if k > 0 {
        UptoGrows(a, t, k - 1);
      }
    }
    if k == 0 {
      JumpsNonNegative(a, p, UptoOf(a, 0));
    } else {
      JumpsNonNegative(a, p, UptoOf(a, k - 1));
      JumpsMonotone(a, p, UptoOf(a, k - 1), UptoOf(a, k));
    }
  }

  // Something whose products by the gaps are at least one.
  lemma {:induction false} LargeFactor(ts: seq<State>, g: Column) returns (c: real)
    requires forall t <- ts :: g(t) > 0.0
    ensures c > 0.0 && forall t <- ts :: Times(c, g(t)) >= 1.0
    decreases |ts|
  {
    if ts == [] {
      c := 1.0;
    } else {
      var t, rest := ts[0], ts[1..];
      assert ts == [t] + rest;
      var c0 := 1.0 / g(t);
      assert Times(c0, g(t)) == 1.0;
      var c1 := LargeFactor(rest, g);
      c := if c0 > c1 then c0 else c1;
      forall q <- ts
        ensures Times(c, g(q)) >= 1.0
      {
        var d := if q == t then c0 else c1;
        Commute(c, g(q));
        Commute(d, g(q));
        TimesMonotone(g(q), d, c);
      }
    }
  }

  // c times v is above the partial sums.
  lemma {:induction false} UptoBelow(a: Realaut, v: Column, c: real, p: State, k: nat)
    requires NonNegative(a) && Damped(a, v) && c > 0.0 && p in a.states
    requires forall t <- a.states :: Times(c, Gap(a, t, v)) >= 1.0
    ensures Upto(a, p, k) <= Times(c, v(p))
    decreases k
  {
    DampedAt(a, v, p);
    TimesPositive(c, v(p));
    if k > 0 {
      forall t <- a.states
        ensures UptoOf(a, k - 1)(t) <= Scaled(c, v)(t)
      {
        UptoBelow(a, v, c, t, k - 1);
      }
      JumpsMonotone(a, p, UptoOf(a, k - 1), Scaled(c, v));
      DotScaled(a.states, Weights(a, p, None), c, v);
      Distribute(c, Gap(a, p, v), Jumps(a, p, v));
    }
  }

  lemma {:induction false} UpperBound(ts: seq<State>, g: Column) returns (m: real)
    ensures forall t <- ts :: g(t) <= m
    decreases |ts|
  {
    if ts == [] {
      m := 0.0;
    } else {
      var rest := UpperBound(ts[1..], g);
      assert ts == [ts[0]] + ts[1..];
      m := if g(ts[0]) > rest then g(ts[0]) else rest;
    }
  }

  lemma DampedBounded(a: Realaut, v: Column)
    requires NonNegative(a) && Damped(a, v)
    ensures StarDefined(a)
  {
    forall t <- a.states
      ensures Gap(a, t, v) > 0.0
    {
      DampedAt(a, v, t);
    }
    var c := LargeFactor(a.states, (t: State) => Gap(a, t, v));
    var m := UpperBound(a.states, Scaled(c, v));
    forall p, k: nat | p in a.states
      ensures Upto(a, p, k) <= m
    {
      UptoBelow(a, v, c, p, k);
      assert Scaled(c, v)(p) <= m;
    }
    assert BoundedBy(a, m);
  }

  // The paths with k transitions weigh less than one.
  ghost predicate Steady(a: Realaut, k: nat) {
    forall p <- a.states :: Upto(a, p, k + 1) < Upto(a, p, k) + 1.0
  }

  function Total(ts: seq<State>, g: Column): real {
    if ts == [] then 0.0 else g(ts[0]) + Total(ts[1..], g)
  }

  lemma {:induction false} TotalMonotone(ts: seq<State>, g: Column, h: Column)
    requires forall t <- ts :: g(t) <= h(t)
    ensures Total(ts, g) <= Total(ts, h)
    ensures (exists t <- ts :: h(t) >= g(t) + 1.0) ==> Total(ts, h) >= Total(ts, g) + 1.0
    decreases |ts|
  {
    if ts != [] {
      assert g(ts[0]) <= h(ts[0]) && forall t <- ts[1..] :: t in ts;
      assert ts == [ts[0]] + ts[1..];
      TotalMonotone(ts[1..], g, h);
    }
  }

  lemma {:induction false} TotalBound(ts: seq<State>, g: Column, bound: real)
    requires bound >= 0.0 && forall t <- ts :: g(t) <= bound
    ensures Total(ts, g) <= Times(|ts| as real, bound)
    decreases |ts|
  {
    if ts != [] {
      assert g(ts[0]) <= bound && forall t <- ts[1..] :: t in ts;
      TotalBound(ts[1..], g, bound);
      Distribute(|ts[1..]| as real, 1.0, bound);
    }
  }

  // As long as no sum is steady, the total grows by one.
  lemma {:induction false} SteadyOrGrows(a: Realaut, k: nat)
    requires NonNegative(a)
    ensures (exists i: nat :: i < k && Steady(a, i)) || Total(a.states, UptoOf(a, k)) >= k as real
    decreases k
  {
    if k == 0 {
      TotalMonotone(a.states, t => 0.0, UptoOf(a, 0));
      TotalZero(a.states);
    } else {
      SteadyOrGrows(a, k - 1);
      if !Steady(a, k - 1) {
        var g, h := UptoOf(a, k - 1), UptoOf(a, k);
        forall t <- a.states
          ensures g(t) <= h(t)
        {
          UptoGrows(a, t, k - 1);
        }
        var p :| p in a.states && Upto(a, p, k) >= Upto(a, p, k - 1) + 1.0;
        assert h(p) >= g(p) + 1.0;
        TotalMonotone(a.states, g, h);
      }
    }
  }

  lemma {:induction false} TotalZero(ts: seq<State>)
    ensures Total(ts, t => 0.0) == 0.0
    decreases |ts|
  {
    if ts != [] {
      TotalZero(ts[1..]);
    }
  }

  lemma SteadyExists(a: Realaut, bound: real) returns (k: nat)
    requires NonNegative(a) && BoundedBy(a, bound)
    ensures Steady(a, k)
  {
    var b := if bound > 0.0 then bound else 0.0;
    var most := Times(|a.states| as real, b);
    TimesMonotone(|a.states| as real, 0.0, b);
    var n: nat := most.Floor + 1;
    SteadyOrGrows(a, n);
    forall t <- a.states
      ensures UptoOf(a, n)(t) <= b
    {
      assert Upto(a, t, n) <= bound;
    }
    TotalBound(a.states, UptoOf(a, n), b);
    k :| k < n && Steady(a, k);
  }

  lemma SteadyDamped(a: Realaut, k: nat)
    requires NonNegative(a) && Steady(a, k)
    ensures Damped(a, UptoOf(a, k))
  {
    var v := UptoOf(a, k);
    forall p <- a.states
      ensures v(p) > 0.0 && Gap(a, p, v) > 0.0
    {
      assert Upto(a, p, k + 1) < Upto(a, p, k) + 1.0;
      if k == 0 {
        JumpsNonNegative(a, p, UptoOf(a, 0));
        assert false;
      }
      forall t <- a.states
        ensures UptoOf(a, k - 1)(t) >= 0.0
      {
        UptoGrows(a, t, k - 1);
      }
      JumpsNonNegative(a, p, UptoOf(a, k - 1));
    }
  }

  // The star of the spontaneous matrix is defined exactly when the states have
  // values that damp it.
  lemma StarDamps(a: Realaut)
    requires NonNegative(a)
    ensures StarDefined(a) <==> Damps(a)
  {
    if v: Column :| Damped(a, v) {
      DampedBounded(a, v);
    }
    if bound: real :| BoundedBy(a, bound) {
      var k := SteadyExists(a, bound);
      SteadyDamped(a, k);
    }
  }

  // ---------------------------------------------------------------------
  // Refusal
  // ---------------------------------------------------------------------

  // An automaton met on the way has a loop whose weight has no star.
  ghost predicate Stuck(a: Realaut) {
    exists ss, b: Realaut, s :: Reduces(Reals(), a, ss, b) && Blocks(b, s)
  }

  // The loop of s is not less than one in absolute value.
  ghost predicate Blocks(a: Realaut, s: State) {
    Arrow(s, None, s) in a.transitions && !(-1.0 < Jump(Reals(), a, s, s) < 1.0)
  }

  // Whatever the order, a proper automaton is met only if the star of the
  // spontaneous matrix is defined.
  lemma ProperMet(a: Realaut, ss: seq<State>, b: Realaut)
    requires NonNegative(a) && Reduces(Reals(), a, ss, b) && Proper(b)
    ensures StarDefined(a)
  {
    ReducesDamps(a, ss, b);
    ProperDamped(b);
    StarDamps(a);
  }

  lemma {:induction false} ReducesValid(a: Realaut, ss: seq<State>, b: Realaut)
    requires Valid(Reals(), a) && Reduces(Reals(), a, ss, b)
    ensures Valid(Reals(), b)
    decreases |ss|
  {
    if ss != [] {
      var c, star, r :| Reduces(Reals(), a, Front(ss), c) && Eliminates(Reals(), c, Last(ss), star, r, b);
    }
  }

  // Whatever the order, a loop without a star is met only if it is not.
  lemma StuckUndefined(a: Realaut, ss: seq<State>, b: Realaut, s: State)
    requires Valid(Reals(), a) && NonNegative(a) && Reduces(Reals(), a, ss, b) && Blocks(b, s)
    ensures !StarDefined(a)
  {
    ReducesValid(a, ss, b);
    ReducesDamps(a, ss, b);
    BlockedNotDamped(b, s);
    StarDamps(a);
  }

  // What one order makes proper is refused by no order.
  lemma AnyOrder(a: Realaut, ss: seq<State>, b: Realaut)
    requires Valid(Reals(), a) && NonNegative(a) && Reduces(Reals(), a, ss, b) && Proper(b)
    ensures !Stuck(a)
  {
    ProperMet(a, ss, b);
    forall ts, c, s | Reduces(Reals(), a, ts, c)
      ensures !Blocks(c, s)
    {
      if Blocks(c, s) {
        StuckUndefined(a, ts, c, s);
      }
    }
  }

  lemma LoopBlocks(a: Realaut, s: State)
    requires Arrow(s, None, s) in a.transitions && Reals().star(Jump(Reals(), a, s, s)).None?
    ensures Blocks(a, s)
  {
  }


  // ---------------------------------------------------------------------
  // A loop that only appears later
  // ---------------------------------------------------------------------

  // Two states, and a spontaneous transition of weight one each way.
  function BackAndForth(): Realaut {
    Automaton([0, 1], map[], map[], map[Arrow(0, None, 1) := 1.0, Arrow(1, None, 0) := 1.0])
  }

  // Each state gives k to each word.
  function Constant(k: real): Valuation {
    (p: State, u: Word) => k
  }

  lemma ConstantSolves(k: real)
    ensures RealEpsilon.Solves(BackAndForth(), Constant(k))
  {
    var a, v := BackAndForth(), Constant(k);
    forall p, u: Word | p in a.states
      ensures v(p, u) == Side(a, p, v, u)
    {
      TwoStates(p, None, k, u);
      if u != [] {
        TwoStates(p, Some(u[0]), k, u[1..]);
      }
    }
  }

  lemma TwoStates(p: State, l: Option<Letter>, k: real, u: Word)
    requires p in BackAndForth().states
    ensures Row(BackAndForth(), p, l, Constant(k), u) == if l.None? then k else 0.0
  {
    var a, v := BackAndForth(), Constant(k);
    var x, g := Weights(a, p, l), Values(v, u);
    assert a.states[1..] == [1] && a.states[1..][1..] == [];
    assert Dot(a.states, x, g) == Times(x(0), g(0)) + (Times(x(1), g(1)) + 0.0);
  }

  lemma ManySolutions()
    ensures !OneSolution(BackAndForth())
  {
    var a := BackAndForth();
    if OneSolution(a) {
      var x :| RealEpsilon.Solves(a, x) && Determines(a, x);
      ConstantSolves(0.0);
      ConstantSolves(1.0);
      AgreeTwo(a.states, x, Constant(0.0), Constant(1.0));
      DifferentConstants();
    }
  }

  lemma DifferentConstants()
    ensures !Agree(BackAndForth().states, Constant(0.0), Constant(1.0))
  {
    var v, w := Constant(0.0), Constant(1.0);
    assert 0 in BackAndForth().states && v(0, []) != w(0, []);
  }

  // Its states have no loop, hence no elimination can be refused at first; yet
  // its equations have several solutions, so that no order of elimination
  // makes it proper.
  lemma LateLoop()
    ensures Valid(Reals(), BackAndForth()) && forall s :: !Blocks(BackAndForth(), s)
    ensures forall ss, b | Reduces(Reals(), BackAndForth(), ss, b) :: !Proper(b)
  {
    var a := BackAndForth();
    ManySolutions();
    forall ss, b | Reduces(Reals(), a, ss, b)
      ensures !Proper(b)
    {
      ReducesSolutions(a, ss, b);
      if Proper(b) {
        OneSolutionBack(a, b);
      }
    }
  }

  // ---------------------------------------------------------------------
  // The algorithm
  // ---------------------------------------------------------------------

  // All the loops met on the way to b are less than one in absolute value.
  ghost predicate ReducesWithin(prune: bool, a: Realaut, ss: seq<State>, b: Realaut) {
    if ss == [] then a == b
    else exists c, star, r ::
           && ReducesWithin(prune, a, Front(ss), c) && EliminatesBy(Reals(), prune, c, Last(ss), star, r, b)
           && -1.0 < Jump(Reals(), c, Last(ss), Last(ss)) < 1.0
  }

  lemma {:induction false} ReducesBounds(prune: bool, a: Realaut, ss: seq<State>, b: Realaut)
    requires ReducesBy(Reals(), prune, a, ss, b)
    ensures ReducesWithin(prune, a, ss, b)
    decreases |ss|
  {
    if ss != [] {
      var c, star, r :| ReducesBy(Reals(), prune, a, Front(ss), c)
                        && EliminatesBy(Reals(), prune, c, Last(ss), star, r, b);
      ReducesBounds(prune, a, Front(ss), c);
      assert Eliminates(Reals(), c, Last(ss), star, r, b);
      EliminatesBounds(c, Last(ss), star, r, b);
    }
  }

  // Each state with incoming spontaneous transitions was eliminated once, and
  // its loop then was less than one in absolute value.
  ghost predicate MadeWithin(prune: bool, a: Realaut, b: Realaut) {
    exists ss :: Schedules(a, ss) && ReducesWithin(prune, a, ss, b)
  }

  // The proper automaton of a, unless some loop met on the way has no star; with
  // nonnegative weights, unless the star of the spontaneous matrix is undefined.
  method MakeProper(a: Realaut, prune: bool) returns (r: Option<Realaut>)
    requires Valid(Reals(), a)
    ensures r.Some? ==> Valid(Reals(), r.value) && Proper(r.value) && SameSolutions(a, r.value)
    ensures r.Some? ==> OneSolution(a)
    ensures r.Some? ==> MadeWithin(prune, a, r.value) && Pruned(prune, a, r.value)
    ensures r.None? ==> Stuck(a)
    ensures NonNegative(a) ==> (r.Some? <==> StarDefined(a))
  {
    RealLaws();
    var remover := new EpsilonRemover(Reals(), a, prune);
    var ok;
    ghost var ss;
    ok, ss := remover.Run();
    ReducesByReduces(Reals(), prune, a, ss, remover.aut);
    if ok {
      ReducesSolutions(a, ss, remover.aut);
      OneSolutionBack(a, remover.aut);
      MadeProperPruned(Reals(), prune, a, remover.aut);
      ReducesBounds(prune, a, ss, remover.aut);
      assert MadeWithin(prune, a, remover.aut);
      if NonNegative(a) {
        ProperMet(a, ss, remover.aut);
      }
      return Some(remover.aut);
    }
    ghost var s :| Arrow(s, None, s) in remover.aut.transitions && Reals().star(Jump(Reals(), remover.aut, s, s)).None?;
    LoopBlocks(remover.aut, s);
    if NonNegative(a) {
      StuckUndefined(a, ss, remover.aut, s);
    }
    return None;
  }
}
