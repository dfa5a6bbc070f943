// With real weights, the elimination of spontaneous transitions keeps the
// solutions of the equations of the states (vcsn/algos/epsilon-remover.hh,
// vcsn/weightset/r.hh).
module RealEpsilon {
  import opened Wrappers
  import opened Sets
  import opened AllDistances
  import opened EpsilonRemoval
  import opened RealSemiring

  // ---------------------------------------------------------------------
  // Sums over the states
  // ---------------------------------------------------------------------

  type Column = State -> real

  // The sum over ts of the products of x and g.
  function Dot(ts: seq<State>, x: Column, g: Column): real {
    if ts == [] then 0.0 else Times(x(ts[0]), g(ts[0])) + Dot(ts[1..], x, g)
  }

  lemma Combine(x: real, y: real, z: real, c: real, g: real)
    requires x == y + Times(c, z)
    ensures Times(x, g) == Times(y, g) + Times(c, Times(z, g))
  {
    Associate(c, z, g);
    Distribute(y, Times(c, z), g);
  }

  lemma {:induction false} DotCombine(ts: seq<State>, x: Column, y: Column, z: Column, c: real, g: Column)
    requires forall t <- ts :: x(t) == y(t) + Times(c, z(t))
    ensures Dot(ts, x, g) == Dot(ts, y, g) + Times(c, Dot(ts, z, g))
    decreases |ts|
  {
    if ts != [] {
      var t := ts[0];
      assert x(t) == y(t) + Times(c, z(t));
      assert forall s <- ts[1..] :: s in ts;
      Combine(x(t), y(t), z(t), c, g(t));
      DotCombine(ts[1..], x, y, z, c, g);
      Distribute(c, Times(z(t), g(t)), Dot(ts[1..], z, g));
    }
  }

  lemma {:induction false} DotSame(ts: seq<State>, x: Column, y: Column, g: Column, h: Column)
    requires forall t <- ts :: x(t) == y(t) && (g(t) == h(t) || x(t) == 0.0)
    ensures Dot(ts, x, g) == Dot(ts, y, h)
    decreases |ts|
  {
    if ts != [] {
      var t := ts[0];
      assert forall s <- ts[1..] :: s in ts;
      DotSame(ts[1..], x, y, g, h);
      assert x(t) == y(t) && (g(t) == h(t) || x(t) == 0.0);
      assert Times(x(t), g(t)) == Times(y(t), h(t));
    }
  }

  function Put(x: Column, s: State, k: real): Column {
    (t: State) => if t == s then k else x(t)
  }

  // Change what x gives to s.
  lemma {:induction false} DotPut(ts: seq<State>, x: Column, s: State, k: real, g: Column)
    requires Distinct(ts) && s in ts
    ensures Dot(ts, Put(x, s, x(s) + k), g) == Dot(ts, x, g) + Times(k, g(s))
    decreases |ts|
  {
    var y := Put(x, s, x(s) + k);
    assert Distinct(ts[1..]);
    assert ts == [ts[0]] + ts[1..];
    if ts[0] == s {
      DotSame(ts[1..], y, x, g, g);
      Distribute(x(s), k, g(s));
    } else {
      DotPut(ts[1..], x, s, k, g);
    }
  }

  lemma {:induction false} DotWithout(ts: seq<State>, s: State, x: Column, g: Column)
    requires x(s) == 0.0
    ensures Dot(Without(ts, s), x, g) == Dot(ts, x, g)
    decreases |ts|
  {
    if ts != [] {
      DotWithout(ts[1..], s, x, g);
      if ts[0] != s {
        var rest := Without(ts[1..], s);
        assert Without(ts, s) == [ts[0]] + rest;
        assert ([ts[0]] + rest)[1..] == rest;
      }
    }
  }

  // ---------------------------------------------------------------------
  // The equations of the states
  // ---------------------------------------------------------------------

  type Realaut = Automaton<real>

  // What each state gives to each word.
  type Valuation = (State, Word) -> real

  function Weights(a: Realaut, p: State, l: Option<Letter>): Column {
    (t: State) => W(Reals(), a, Arrow(p, l, t))
  }

  function Values(v: Valuation, u: Word): Column {
    (t: State) => v(t, u)
  }

  // What the spontaneous transitions from p lead to.
  function Jumps(a: Realaut, p: State, g: Column): real {
    Dot(a.states, Weights(a, p, None), g)
  }

  function Row(a: Realaut, p: State, l: Option<Letter>, v: Valuation, u: Word): real {
    Dot(a.states, Weights(a, p, l), Values(v, u))
  }

  // A state gives to a word its final weight if it is empty, what its
  // spontaneous transitions lead to, and what the transitions for the first
  // letter lead to.
  function Side(a: Realaut, p: State, v: Valuation, u: Word): real {
    if u == [] then F(Reals(), a, p) + Row(a, p, None, v, [])
    else Row(a, p, None, v, u) + Row(a, p, Some(u[0]), v, u[1..])
  }

  ghost predicate Solves(a: Realaut, v: Valuation) {
    forall p, u: Word | p in a.states :: v(p, u) == Side(a, p, v, u)
  }

  // ---------------------------------------------------------------------
  // The elimination of spontaneous transitions to a state
  // ---------------------------------------------------------------------

  // The removal of the transitions to s, where star is the inverse of one
  // minus the weight of its loop.
  ghost predicate Step(a: Realaut, s: State, star: real, b: Realaut) {
    && Distinct(a.states) && s in a.states
    && Removed(Reals(), a, s, star, b)
    && Times(star, 1.0 - Jump(Reals(), a, s, s)) == 1.0
  }

  // Between letters, the rows of b are those of a and of s.
  lemma LetterRow(a: Realaut, s: State, star: real, b: Realaut, p: State, l: Option<Letter>, v: Valuation, u: Word)
    requires Removed(Reals(), a, s, star, b) && p != s && l.Some?
    ensures Row(b, p, l, v, u) == Row(a, p, l, v, u) + Times(Times(Jump(Reals(), a, p, s), star), Row(a, s, l, v, u))
  {
    var j := Jump(Reals(), a, p, s);
    var x, y, z := Weights(b, p, l), Weights(a, p, l), Weights(a, s, l);
    forall t <- a.states
      ensures x(t) == y(t) + Times(Times(j, star), z(t))
    {
      assert x(t) == NewWeight(Reals(), a, s, star, Arrow(p, l, t));
      Associate(j, star, z(t));
    }
    DotCombine(a.states, x, y, z, Times(j, star), Values(v, u));
  }

  lemma LetterRowAtS(a: Realaut, s: State, star: real, b: Realaut, l: Option<Letter>, v: Valuation, u: Word)
    requires Removed(Reals(), a, s, star, b) && l.Some?
    ensures Row(b, s, l, v, u) == Times(star, Row(a, s, l, v, u))
  {
    var x, y, z := Weights(b, s, l), t => 0.0, Weights(a, s, l);
    forall t <- a.states
      ensures x(t) == y(t) + Times(star, z(t))
    {
      assert x(t) == NewWeight(Reals(), a, s, star, Arrow(s, l, t));
    }
    DotCombine(a.states, x, y, z, star, Values(v, u));
    DotZero(a.states, Values(v, u));
  }

  lemma {:induction false} DotZero(ts: seq<State>, g: Column)
    ensures Dot(ts, t => 0.0, g) == 0.0
    decreases |ts|
  {
    if ts != [] {
      DotZero(ts[1..], g);
    }
  }

  lemma LoopFactor(j: real, star: real, l: real)
    requires Times(star, 1.0 - l) == 1.0
    ensures j + Times(Times(j, star), l) == Times(j, star)
    ensures Times(star, l) == star - 1.0
  {
    assert star == 1.0 + Times(star, l);
    Associate(j, star, l);
    Distribute(j, 1.0, Times(star, l));
  }

  // Without letters, what goes through s is what is not s itself.
  lemma SpontaneousRow(a: Realaut, s: State, star: real, b: Realaut, p: State, g: Column)
    requires Step(a, s, star, b) && p != s
    ensures Jumps(b, p, g)
            == Jumps(a, p, g)
               + Times(Times(Jump(Reals(), a, p, s), star), Jumps(a, s, g))
               - Times(Times(Jump(Reals(), a, p, s), star), g(s))
  {
    var j := Jump(Reals(), a, p, s);
    var c := Times(j, star);
    var x, y, z := Weights(b, p, None), Weights(a, p, None), Weights(a, s, None);
    var x' := Put(x, s, x(s) + c);
    forall t <- a.states
      ensures x'(t) == y(t) + Times(c, z(t))
    {
      assert x(t) == NewWeight(Reals(), a, s, star, Arrow(p, None, t));
      if t == s {
        LoopFactor(j, star, Jump(Reals(), a, s, s));
      } else {
        Associate(j, star, z(t));
      }
    }
    DotCombine(a.states, x', y, z, c, g);
    DotPut(a.states, x, s, c, g);
  }

  lemma SpontaneousRowAtS(a: Realaut, s: State, star: real, b: Realaut, g: Column)
    requires Step(a, s, star, b)
    ensures Jumps(b, s, g) == Times(star, Jumps(a, s, g)) - Times(star - 1.0, g(s))
  {
    var x, y, z := Weights(b, s, None), t => 0.0, Weights(a, s, None);
    var x' := Put(x, s, x(s) + (star - 1.0));
    forall t <- a.states
      ensures x'(t) == y(t) + Times(star, z(t))
    {
      assert x(t) == NewWeight(Reals(), a, s, star, Arrow(s, None, t));
      if t == s {
        LoopFactor(0.0, star, Jump(Reals(), a, s, s));
      }
    }
    DotCombine(a.states, x', y, z, star, g);
    DotZero(a.states, g);
    DotPut(a.states, x, s, star - 1.0, g);
  }

  // By how much v fails the equation of p for u.
  function Error(a: Realaut, p: State, v: Valuation, u: Word): real {
    Side(a, p, v, u) - v(p, u)
  }

  lemma FinalFollows(a: Realaut, s: State, star: real, b: Realaut, p: State)
    requires Removed(Reals(), a, s, star, b) && p != s
    ensures F(Reals(), b, p) == F(Reals(), a, p) + Times(Times(Jump(Reals(), a, p, s), star), F(Reals(), a, s))
  {
    assert F(Reals(), b, p) == NewFinal(Reals(), a, s, star, p);
    Associate(Jump(Reals(), a, p, s), star, F(Reals(), a, s));
  }

  lemma FinalAtS(a: Realaut, s: State, star: real, b: Realaut)
    requires Removed(Reals(), a, s, star, b)
    ensures F(Reals(), b, s) == Times(star, F(Reals(), a, s))
  {
    assert F(Reals(), b, s) == NewFinal(Reals(), a, s, star, s);
  }

  lemma Gather(c: real, x: real, y: real, z: real)
    ensures Times(c, x) + Times(c, y) - Times(c, z) == Times(c, x + y - z)
  {
  }

  lemma GatherLess(c: real, x: real, y: real, z: real)
    ensures Times(c, x) + Times(c, y) - Times(c - 1.0, z) - z == Times(c, x + y - z)
  {
  }

  lemma ErrorFollows(a: Realaut, s: State, star: real, b: Realaut, p: State, v: Valuation, u: Word)
    requires Step(a, s, star, b) && p != s
    ensures Error(b, p, v, u) == Error(a, p, v, u) + Times(Times(Jump(Reals(), a, p, s), star), Error(a, s, v, u))
  {
    var c := Times(Jump(Reals(), a, p, s), star);
    SpontaneousRow(a, s, star, b, p, Values(v, u));
    if u == [] {
      FinalFollows(a, s, star, b, p);
      Gather(c, F(Reals(), a, s), Row(a, s, None, v, []), v(s, u));
    } else {
      LetterRow(a, s, star, b, p, Some(u[0]), v, u[1..]);
      Gather(c, Row(a, s, Some(u[0]), v, u[1..]), Row(a, s, None, v, u), v(s, u));
    }
  }

  lemma ErrorAtS(a: Realaut, s: State, star: real, b: Realaut, v: Valuation, u: Word)
    requires Step(a, s, star, b)
    ensures Error(b, s, v, u) == Times(star, Error(a, s, v, u))
  {
    SpontaneousRowAtS(a, s, star, b, Values(v, u));
    if u == [] {
      FinalAtS(a, s, star, b);
      GatherLess(star, F(Reals(), a, s), Row(a, s, None, v, []), v(s, u));
    } else {
      LetterRowAtS(a, s, star, b, Some(u[0]), v, u[1..]);
      GatherLess(star, Row(a, s, Some(u[0]), v, u[1..]), Row(a, s, None, v, u), v(s, u));
    }
  }

  // Exactly the same solutions.
  lemma StepKeepsSolutions(a: Realaut, s: State, star: real, b: Realaut, v: Valuation)
    requires Step(a, s, star, b)
    ensures Solves(a, v) <==> Solves(b, v)
  {
    forall p, u: Word | p in a.states
      ensures Error(a, p, v, u) == 0.0 && Error(a, s, v, u) == 0.0 ==> Error(b, p, v, u) == 0.0
      ensures Error(b, p, v, u) == 0.0 && Error(b, s, v, u) == 0.0 ==> Error(a, p, v, u) == 0.0
    {
      ErrorAtS(a, s, star, b, v, u);
      ErrorScaled(star, Jump(Reals(), a, s, s), Error(a, s, v, u));
      if p != s {
        ErrorFollows(a, s, star, b, p, v, u);
      }
    }
    SolvesErrors(a, v);
    SolvesErrors(b, v);
  }

  lemma ErrorScaled(star: real, l: real, e: real)
    requires Times(star, 1.0 - l) == 1.0
    ensures Times(star, e) == 0.0 <==> e == 0.0
  {
    if Times(star, e) == 0.0 {
      Commute(star, 1.0 - l);
      Associate(1.0 - l, star, e);
      assert Times(1.0 - l, 0.0) == 0.0;
    }
  }

  lemma SolvesErrors(a: Realaut, v: Valuation)
    ensures Solves(a, v) <==> forall p, u: Word | p in a.states :: Error(a, p, v, u) == 0.0
  {
    if Solves(a, v) {
      forall p, u: Word | p in a.states
        ensures Error(a, p, v, u) == 0.0
      {
        assert v(p, u) == Side(a, p, v, u);
      }
    }
    if forall p, u: Word | p in a.states :: Error(a, p, v, u) == 0.0 {
      forall p, u: Word | p in a.states
        ensures v(p, u) == Side(a, p, v, u)
      {
        assert Error(a, p, v, u) == 0.0;
      }
    }
  }

  // ---------------------------------------------------------------------
  // Pruning
  // ---------------------------------------------------------------------

  // Without transitions to s, what s gives is not used.
  lemma PrunedSide(a: Realaut, s: State, p: State, v: Valuation, v': Valuation, u: Word)
    requires Valid(Reals(), a) && NoneIn(a, s) && p in a.states
    requires forall t, x: Word | t in a.states && t != s :: v(t, x) == v'(t, x)
    ensures Side(a, p, v, u) == Side(a, p, v', u)
    ensures p != s ==> Side(DeleteState(a, s), p, v', u) == Side(a, p, v, u)
  {
    PrunedRow(a, s, p, None, v, v', u);
    if u != [] {
      PrunedRow(a, s, p, Some(u[0]), v, v', u[1..]);
    }
  }

  lemma PrunedRow(a: Realaut, s: State, p: State, l: Option<Letter>, v: Valuation, v': Valuation, u: Word)
    requires Valid(Reals(), a) && NoneIn(a, s) && p in a.states
    requires forall t, x: Word | t in a.states && t != s :: v(t, x) == v'(t, x)
    ensures Row(a, p, l, v, u) == Row(a, p, l, v', u)
    ensures p != s ==> Row(DeleteState(a, s), p, l, v', u) == Row(a, p, l, v, u)
  {
    var b := DeleteState(a, s);
    var x, y := Weights(a, p, l), Weights(b, p, l);
    assert x(s) == 0.0;
    DotSame(a.states, x, x, Values(v, u), Values(v', u));
    if p != s {
      forall t <- b.states
        ensures x(t) == y(t)
      {
        assert Arrow(p, l, t) in b.transitions <==> Arrow(p, l, t) in a.transitions;
      }
      DotSame(b.states, x, y, Values(v, u), Values(v', u));
      DotWithout(a.states, s, x, Values(v, u));
    }
  }

  // v and w agree on the states ts.
  ghost predicate Agree(ts: seq<State>, v: Valuation, w: Valuation) {
    forall t, u: Word | t in ts :: v(t, u) == w(t, u)
  }

  lemma PrunedKeeps(a: Realaut, s: State, v: Valuation)
    requires Valid(Reals(), a) && NoneIn(a, s) && Solves(a, v)
    ensures Solves(DeleteState(a, s), v)
  {
    var b := DeleteState(a, s);
    forall p, u: Word | p in b.states
      ensures v(p, u) == Side(b, p, v, u)
    {
      PrunedSide(a, s, p, v, v, u);
    }
  }

  lemma PrunedExtends(a: Realaut, s: State, v: Valuation) returns (v': Valuation)
    requires Valid(Reals(), a) && NoneIn(a, s) && Solves(DeleteState(a, s), v)
    ensures Solves(a, v') && Agree(DeleteState(a, s).states, v, v')
  {
    v' := (t: State, u: Word) => if t == s then Side(a, s, v, u) else v(t, u);
    forall p, u: Word | p in a.states
      ensures v'(p, u) == Side(a, p, v', u)
    {
      PrunedSide(a, s, p, v, v', u);
      PrunedSide(a, s, p, v, v, u);
    }
  }

  lemma PrunedDetermines(a: Realaut, s: State, v: Valuation, v': Valuation)
    requires Valid(Reals(), a) && NoneIn(a, s) && Solves(a, v) && Solves(a, v')
    requires Agree(DeleteState(a, s).states, v, v')
    ensures Agree(a.states, v, v')
  {
    forall t, u: Word | t in a.states
      ensures v(t, u) == v'(t, u)
    {
      PrunedSide(a, s, t, v, v', u);
    }
  }

  // ---------------------------------------------------------------------
  // All the eliminations
  // ---------------------------------------------------------------------

  // The star that is found is that of the loop.
  lemma EliminatesStep(a: Realaut, s: State, star: real, r: Realaut, b: Realaut)
    requires Eliminates(Reals(), a, s, star, r, b)
    ensures Step(a, s, star, r)
  {
    FoundStar(a, s, star);
  }

  lemma FoundStar(a: Realaut, s: State, star: real)
    requires StarOf(Reals(), a, s, star)
    ensures Times(star, 1.0 - Jump(Reals(), a, s, s)) == 1.0
  {
    if Arrow(s, None, s) in a.transitions {
      StarInverse(Jump(Reals(), a, s, s));
    }
  }

  // The solutions of a, restricted to the remaining states, are the solutions
  // of b, and a solution of b stands for one solution of a only.
  lemma {:induction false} ReducesKeeps(a: Realaut, ss: seq<State>, b: Realaut, v: Valuation)
    requires Reduces(Reals(), a, ss, b) && Solves(a, v)
    ensures Solves(b, v)
    decreases |ss|
  {
    if ss != [] {
      var c, star, r :| Reduces(Reals(), a, Front(ss), c) && Eliminates(Reals(), c, Last(ss), star, r, b);
      ReducesKeeps(a, Front(ss), c, v);
      EliminatesStep(c, Last(ss), star, r, b);
      StepKeepsSolutions(c, Last(ss), star, r, v);
      if b != r {
        PrunedKeeps(r, Last(ss), v);
      }
    }
  }

  lemma EliminatesStates(a: Realaut, s: State, star: real, r: Realaut, b: Realaut)
    requires Eliminates(Reals(), a, s, star, r, b)
    ensures b.initial == a.initial && forall t <- b.states :: t in a.states
  {
  }

  lemma {:induction false} ReducesStates(a: Realaut, ss: seq<State>, b: Realaut)
    requires Reduces(Reals(), a, ss, b)
    ensures b.initial == a.initial && forall t <- b.states :: t in a.states
    decreases |ss|
  {
    if ss != [] {
      var c, star, r :| Reduces(Reals(), a, Front(ss), c) && Eliminates(Reals(), c, Last(ss), star, r, b);
      ReducesStates(a, Front(ss), c);
      EliminatesStates(c, Last(ss), star, r, b);
    }
  }

  lemma {:induction false} ReducesExtends(a: Realaut, ss: seq<State>, b: Realaut, v: Valuation) returns (v': Valuation)
    requires Reduces(Reals(), a, ss, b) && Solves(b, v)
    ensures Solves(a, v') && Agree(b.states, v, v')
    decreases |ss|
  {
    if ss == [] {
      v' := v;
    } else {
      var c, star, r :| Reduces(Reals(), a, Front(ss), c) && Eliminates(Reals(), c, Last(ss), star, r, b);
      EliminatesStep(c, Last(ss), star, r, b);
      var x := v;
      if b != r {
        x := PrunedExtends(r, Last(ss), v);
      }
      StepKeepsSolutions(c, Last(ss), star, r, x);
      v' := ReducesExtends(a, Front(ss), c, x);
    }
  }

  lemma {:induction false} ReducesDetermines(a: Realaut, ss: seq<State>, b: Realaut, v: Valuation, v': Valuation)
    requires Reduces(Reals(), a, ss, b) && Solves(a, v) && Solves(a, v') && Agree(b.states, v, v')
    ensures Agree(a.states, v, v')
    decreases |ss|
  {
    if ss != [] {
      var c, star, r :| Reduces(Reals(), a, Front(ss), c) && Eliminates(Reals(), c, Last(ss), star, r, b);
      ReducesKeeps(a, Front(ss), c, v);
      ReducesKeeps(a, Front(ss), c, v');
      EliminatesStep(c, Last(ss), star, r, b);
      StepKeepsSolutions(c, Last(ss), star, r, v);
      StepKeepsSolutions(c, Last(ss), star, r, v');
      if b != r {
        PrunedDetermines(r, Last(ss), v, v');
      }
      ReducesDetermines(a, Front(ss), c, v, v');
    }
  }

  // The solutions of a are, on the states that remain, those of b.
  ghost predicate Corresponds(a: Realaut, b: Realaut) {
    && b.initial == a.initial
    && (forall t <- b.states :: t in a.states)
    && (forall v | Solves(a, v) :: Solves(b, v))
    && (forall v | Solves(b, v) :: exists v' :: Solves(a, v') && Agree(b.states, v, v'))
    && (forall v, v' | Solves(a, v) && Solves(a, v') && Agree(b.states, v, v') :: Agree(a.states, v, v'))
  }

  // Said of what equals b, so as to be looked into only where needed.
  ghost predicate SameSolutions(a: Realaut, b: Realaut) {
    forall c | c == b :: Corresponds(a, c)
  }

  // Exactly the same solutions on the states that remain: any solution of b
  // is that of a, in one way only, and conversely.
  lemma ReducesSolutions(a: Realaut, ss: seq<State>, b: Realaut)
    requires Reduces(Reals(), a, ss, b)
    ensures SameSolutions(a, b)
  {
    ReducesStates(a, ss, b);
    forall v | Solves(a, v)
      ensures Solves(b, v)
    {
      ReducesKeeps(a, ss, b, v);
    }
    forall v | Solves(b, v)
      ensures exists v' :: Solves(a, v') && Agree(b.states, v, v')
    {
      var v' := ReducesExtends(a, ss, b, v);
    }
    forall v, v' | Solves(a, v) && Solves(a, v') && Agree(b.states, v, v')
      ensures Agree(a.states, v, v')
    {
      ReducesDetermines(a, ss, b, v, v');
    }
  }

  // ---------------------------------------------------------------------
  // Proper automata have one solution
  // ---------------------------------------------------------------------

  // What the runs from p without spontaneous transitions give to u.
  function Series(a: Realaut, p: State, u: Word): real
    decreases |u|, 0
  {
    if u == [] then F(Reals(), a, p) else Dot(a.states, Weights(a, p, Some(u[0])), SeriesOf(a, u[1..]))
  }

  function SeriesOf(a: Realaut, u: Word): Column
    decreases |u|, 1
  {
    (t: State) => Series(a, t, u)
  }

  // The solutions agree with v.
  ghost predicate Determines(a: Realaut, v: Valuation) {
    forall v' | Solves(a, v') :: Agree(a.states, v, v')
  }

  ghost predicate OneSolution(a: Realaut) {
    exists v :: Solves(a, v) && Determines(a, v)
  }

  lemma ProperRow(a: Realaut, p: State, v: Valuation, u: Word)
    requires Proper(a)
    ensures Row(a, p, None, v, u) == 0.0
  {
    forall t <- a.states
      ensures Weights(a, p, None)(t) == 0.0
    {
      assert Arrow(p, None, t) !in a.transitions;
    }
    DotSame(a.states, Weights(a, p, None), t => 0.0, Values(v, u), Values(v, u));
    DotZero(a.states, Values(v, u));
  }

  lemma ProperSolves(a: Realaut) returns (v: Valuation)
    requires Proper(a)
    ensures Solves(a, v)
  {
    v := (p: State, u: Word) => Series(a, p, u);
    forall p, u: Word | p in a.states
      ensures v(p, u) == Side(a, p, v, u)
    {
      ProperRow(a, p, v, u);
      if u != [] {
        var x := Weights(a, p, Some(u[0]));
        DotSame(a.states, x, x, SeriesOf(a, u[1..]), Values(v, u[1..]));
      }
    }
  }

  lemma {:induction false} ProperDetermines(a: Realaut, v: Valuation, v': Valuation, p: State, u: Word)
    requires Proper(a) && Solves(a, v) && Solves(a, v') && p in a.states
    ensures v(p, u) == v'(p, u)
    decreases |u|
  {
    assert v(p, u) == Side(a, p, v, u) && v'(p, u) == Side(a, p, v', u);
    ProperRow(a, p, v, u);
    ProperRow(a, p, v', u);
    if u != [] {
      forall t <- a.states
        ensures Values(v, u[1..])(t) == Values(v', u[1..])(t)
      {
        ProperDetermines(a, v, v', t, u[1..]);
      }
      var x := Weights(a, p, Some(u[0]));
      DotSame(a.states, x, x, Values(v, u[1..]), Values(v', u[1..]));
    }
  }

  lemma ProperAgree(a: Realaut, v: Valuation, v': Valuation)
    requires Proper(a) && Solves(a, v) && Solves(a, v')
    ensures Agree(a.states, v, v')
  {
    forall p, u: Word | p in a.states
      ensures v(p, u) == v'(p, u)
    {
      ProperDetermines(a, v, v', p, u);
    }
  }

  lemma ProperOneSolution(a: Realaut) returns (v: Valuation)
    requires Proper(a)
    ensures Solves(a, v) && Determines(a, v)
  {
    v := ProperSolves(a);
    forall v' | Solves(a, v')
      ensures Agree(a.states, v, v')
    {
      ProperAgree(a, v, v');
    }
  }

  lemma AgreeTwo(ts: seq<State>, v: Valuation, w: Valuation, w': Valuation)
    requires Agree(ts, v, w) && Agree(ts, v, w')
    ensures Agree(ts, w, w')
  {
    forall t, u: Word | t in ts
      ensures w(t, u) == w'(t, u)
    {
      assert v(t, u) == w(t, u) && v(t, u) == w'(t, u);
    }
  }

  lemma CorrespondingAgree(a: Realaut, b: Realaut, v: Valuation, w: Valuation, w': Valuation)
    requires Corresponds(a, b) && Determines(b, v) && Solves(a, w) && Agree(b.states, v, w) && Solves(a, w')
    ensures Agree(a.states, w, w')
  {
    assert Agree(b.states, v, w');
    AgreeTwo(b.states, v, w, w');
  }

  // So does what can be made proper.
  lemma OneSolutionBack(a: Realaut, b: Realaut)
    requires SameSolutions(a, b) && Proper(b)
    ensures OneSolution(a)
  {
    assert Corresponds(a, b);
    var v := ProperOneSolution(b);
    var w :| Solves(a, w) && Agree(b.states, v, w);
    forall w' | Solves(a, w')
      ensures Agree(a.states, w, w')
    {
      CorrespondingAgree(a, b, v, w, w');
    }
  }
}
