// The difference of automata with Boolean weights over a free labelset, and
// the decision of their equivalence (vcsn/algos/are-equivalent.hh).
module BooleanEquivalence {
  import opened Wrappers
  import opened BoolAutomata
  import opened NamedAutomata
  import opened Subsets
  import D = Determinize
  import opened Brzozowski
  import opened BooleanOperations
  import opened Products
  import opened WeightedAutomata
  import opened WeightedBuilds
  import opened BooleanSemiring

  // ---------------------------------------------------------------------
  // Completion
  // ---------------------------------------------------------------------

  // Nothing is accepted from the sink.
  lemma {:induction false} SinkRejects(a: Aut, gens: set<Letter>, res: Aut, sink: State, w: Word)
    requires a.Valid() && WithSink(a, gens, res, sink)
    ensures !res.AcceptsFrom(sink, w)
    decreases |w|
  {
    if w != [] {
      if res.AcceptsFrom(sink, w) {
        var t :| t in res.transitions && t.src == sink && t.lbl == w[0] && res.AcceptsFrom(t.dst, w[1..]);
        SinkRejects(a, gens, res, sink, w[1..]);
      }
    }
  }

  lemma {:induction false} SinkKeeps(a: Aut, gens: set<Letter>, res: Aut, sink: State, s: State, w: Word)
    requires a.Valid() && WithSink(a, gens, res, sink) && s in a.states
    ensures res.AcceptsFrom(s, w) <==> a.AcceptsFrom(s, w)
    decreases |w|
  {
    if w != [] {
      if a.AcceptsFrom(s, w) {
        var t :| t in a.transitions && t.src == s && t.lbl == w[0] && a.AcceptsFrom(t.dst, w[1..]);
        SinkKeeps(a, gens, res, sink, t.dst, w[1..]);
        assert t in res.transitions;
      }
      if res.AcceptsFrom(s, w) {
        var t :| t in res.transitions && t.src == s && t.lbl == w[0] && res.AcceptsFrom(t.dst, w[1..]);
        SinkRejects(a, gens, res, sink, w[1..]);
        assert t in a.transitions;
        SinkKeeps(a, gens, res, sink, t.dst, w[1..]);
      }
    }
  }

  lemma SinkLanguage(a: Aut, gens: set<Letter>, res: Aut, sink: State)
    requires a.Valid() && WithSink(a, gens, res, sink)
    ensures SameLanguage(a, res)
  {
    forall w: Word
      ensures a.Accepts(w) <==> res.Accepts(w)
    {
      SinkRejects(a, gens, res, sink, w);
      forall s <- a.states
        ensures res.AcceptsFrom(s, w) <==> a.AcceptsFrom(s, w)
      {
        SinkKeeps(a, gens, res, sink, s, w);
      }
    }
  }

  lemma SinkDeterministic(a: Aut, gens: set<Letter>, res: Aut, sink: State)
    requires a.Valid() && Deterministic(a) && WithSink(a, gens, res, sink)
    requires forall t, t' | t in res.transitions && t' in res.transitions && t.src == sink && t'.src == sink
               && t.lbl == t'.lbl ::
               t == t'
    ensures Deterministic(res) && res.Valid()
  {
    forall t, t' | t in res.transitions && t' in res.transitions && t.src == t'.src && t.lbl == t'.lbl
      ensures t == t'
    {
      if t.src != sink {
        assert t in a.transitions ==> t.lbl in LabelsFrom(a, t.src);
        assert t' in a.transitions ==> t'.lbl in LabelsFrom(a, t'.src);
      }
    }
  }

  // A complete copy, deterministic if the automaton is.
  method Completion(a: Aut, gens: set<Letter>) returns (res: Aut)
    requires a.Valid()
    ensures res.Valid() && (Deterministic(a) ==> Deterministic(res)) && (|a.initial| <= 1 ==> |res.initial| <= 1)
    ensures SameLanguage(a, res) && Complete(res, gens)
    ensures LabelsIn(a, gens) ==> LabelsIn(res, gens)
    ensures exists sink :: Completed(a, gens, res, sink)
    ensures Complete(a, gens) ==> res == a
  {
    ghost var sink;
    res, sink := MakeComplete(a, gens);
    SinkLanguage(a, gens, res, sink);
    if Deterministic(a) {
      SinkDeterministic(a, gens, res, sink);
    }
  }

  // ---------------------------------------------------------------------
  // Complement
  // ---------------------------------------------------------------------

  // Toggle the final states; the automaton must be deterministic, and
  // complete.
  method Complement(a: Aut, gens: set<Letter>) returns (r: Result<Aut>)
    requires a.Valid()
    ensures r.Ok? <==> Deterministic(a) && |a.initial| <= 1 && Complete(a, gens)
    ensures r.Error? ==> r == Error(if Deterministic(a)
              && |a.initial| <= 1 then "complement: requires a complete automaton"
                                    else "complement: requires a deterministic automaton")
    ensures r.Ok? ==> r.value.Valid() && r.value == a.(final := a.states - a.final)
    ensures r.Ok? ==> forall w: Word | Over(w, gens) :: r.value.Accepts(w) <==> !a.Accepts(w)
  {
    var deterministic := IsDeterministic(a);
    if !deterministic {
      return Error("complement: requires a deterministic automaton");
    }
    var complete := IsComplete(a, gens);
    if !complete {
      return Error("complement: requires a complete automaton");
    }
    var final := a.final;
    var todo := a.states;
    while todo != {}
      invariant todo <= a.states
      invariant final == set s <- a.states | if s in todo then s in a.final else s !in a.final
      decreases todo
    {
      var s :| s in todo;
      if s in a.final {
        final := final - {s};
      } else {
        final := final + {s};
      }
      todo := todo - {s};
    }
    assert final == a.states - a.final;
    var res := a.(final := final);
    forall w: Word | Over(w, gens)
      ensures res.Accepts(w) <==> !a.Accepts(w)
    {
      ComplementAccepts(a, gens, res, w);
    }
    r := Ok(res);
  }

  lemma {:induction false} SameRun(a: Aut, b: Aut, S: set<State>, w: Word)
    requires a.transitions == b.transitions
    ensures a.Run(S, w) == b.Run(S, w)
    decreases |w|
  {
    if w != [] {
      assert a.Step(S, w[0]) == b.Step(S, w[0]);
      SameRun(a, b, a.Step(S, w[0]), w[1..]);
    }
  }

  lemma AcceptsAtEnd(a: Aut, w: Word)
    ensures a.Accepts(w) <==> a.Run(a.initial, w) * a.final != {}
  {
    RunAccepts(a, a.initial, w, []);
    assert w + [] == w;
    assert a.Accepts(w) <==> AcceptsAny(a, a.initial, w);
    FinalAccepts(a, a.Run(a.initial, w));
  }

  lemma ComplementAccepts(a: Aut, gens: set<Letter>, res: Aut, w: Word)
    requires a.Valid() && Deterministic(a) && |a.initial| <= 1 && Complete(a, gens)
    requires res == a.(final := a.states - a.final) && Over(w, gens)
    ensures res.Accepts(w) <==> !a.Accepts(w)
  {
    AcceptsAtEnd(a, w);
    AcceptsAtEnd(res, w);
    SameRun(a, res, a.initial, w);
    SingleInitial(a);
    DeterministicRun(a, a.initial, w);
    CompleteRun(a, gens, a.initial, w);
    RunInside(a, a.initial, w);
    var R := a.Run(a.initial, w);
    var s :| s in R;
    assert forall t :: t in R <==> t == s;
    assert R * a.final != {} <==> s in a.final;
    assert R * res.final != {} <==> s !in a.final;
  }

  // ---------------------------------------------------------------------
  // Conjunction
  // ---------------------------------------------------------------------

  // The weight of what is present is true.
  function WithWeights(a: Aut): Weighted<Letter, bool> {
    Weighted(a.states, map s | s in a.initial :: true, map s | s in a.final :: true, map t | t in a.transitions :: true)
  }

  function BooleanOperands(lhs: Aut, rhs: Aut): Operands<Letter, bool> {
    Operands(WithWeights(lhs), WithWeights(rhs), None, Booleans())
  }

  lemma BooleanArcs(lhs: Aut, rhs: Aut, p: Pair, l: Letter, q: Pair)
    ensures Arc(BooleanOperands(lhs, rhs), p, l, q)
            <==> Transition(p.0, l, q.0) in lhs.transitions && Transition(p.1, l, q.1) in rhs.transitions
    ensures InitialPair(BooleanOperands(lhs, rhs), p) <==> p.0 in lhs.initial && p.1 in rhs.initial
    ensures FinalPair(BooleanOperands(lhs, rhs), p) <==> p.0 in lhs.final && p.1 in rhs.final
  {
  }

  // A pair accepts what both of its states accept.
  lemma {:induction false} PairAccepts(lhs: Aut, rhs: Aut, b: PairBuild<Letter>, p: Pair, w: Word)
    requires Building(BooleanOperands(lhs, rhs), b) && b.todo == [] && p in b.left
    ensures b.aut.AcceptsFrom(b.left[p], w) <==> lhs.AcceptsFrom(p.0, w) && rhs.AcceptsFrom(p.1, w)
    decreases |w|
  {
    AcceptsByName(b, p, w);
    NothingTodo(b);
    BooleanArcs(lhs, rhs, p, 0, p);
    if w != [] {
      forall q <- b.left
        ensures b.aut.AcceptsFrom(b.left[q], w[1..])
                <==> lhs.AcceptsFrom(q.0, w[1..]) && rhs.AcceptsFrom(q.1, w[1..])
      {
        PairAccepts(lhs, rhs, b, q, w[1..]);
      }
      if b.aut.AcceptsFrom(b.left[p], w) {
        var q :| Follows(b, p, w, q);
        BooleanArcs(lhs, rhs, p, w[0], q);
        assert Link(p, w[0], q) in b.links;
        assert Transition(p.0, w[0], q.0) in lhs.transitions && Transition(p.1, w[0], q.1) in rhs.transitions;
      }
      if lhs.AcceptsFrom(p.0, w) && rhs.AcceptsFrom(p.1, w) {
        PairFollows(lhs, rhs, b, p, w);
      }
    }
  }

  lemma PairFollows(lhs: Aut, rhs: Aut, b: PairBuild<Letter>, p: Pair, w: Word)
    requires Sound(b) && LinksDone(BooleanOperands(lhs, rhs), b.links, b.finals, b.left.Keys) && p in b.left && w != []
    requires lhs.AcceptsFrom(p.0, w) && rhs.AcceptsFrom(p.1, w)
    requires forall q <- b.left :: b.aut.AcceptsFrom(b.left[q], w[1..])
                                   <==> lhs.AcceptsFrom(q.0, w[1..]) && rhs.AcceptsFrom(q.1, w[1..])
    ensures exists q :: Follows(b, p, w, q)
  {
    var t :| t in lhs.transitions && t.src == p.0 && t.lbl == w[0] && lhs.AcceptsFrom(t.dst, w[1..]);
    var u :| u in rhs.transitions && u.src == p.1 && u.lbl == w[0] && rhs.AcceptsFrom(u.dst, w[1..]);
    var q := (t.dst, u.dst);
    assert t == Transition(p.0, w[0], q.0) && u == Transition(p.1, w[0], q.1);
    BooleanArcs(lhs, rhs, p, w[0], q);
    assert Link(p, w[0], q) in b.links;
    assert Consistent(b);
    assert Follows(b, p, w, q);
  }

  lemma ConjunctionLanguage(lhs: Aut, rhs: Aut, b: PairBuild<Letter>, w: Word)
    requires Building(BooleanOperands(lhs, rhs), b) && b.todo == []
    ensures b.aut.Accepts(w) <==> lhs.Accepts(w) && rhs.Accepts(w)
  {
    if b.aut.Accepts(w) {
      var i :| i in b.aut.initial && b.aut.AcceptsFrom(i, w);
      var p := b.right[i];
      assert Consistent(b);
      assert b.left[p] == i;
      BooleanArcs(lhs, rhs, p, 0, p);
      PairAccepts(lhs, rhs, b, p, w);
    }
    if lhs.Accepts(w) && rhs.Accepts(w) {
      var s :| s in lhs.initial && lhs.AcceptsFrom(s, w);
      var t :| t in rhs.initial && rhs.AcceptsFrom(t, w);
      BooleanArcs(lhs, rhs, (s, t), 0, (s, t));
      PairAccepts(lhs, rhs, b, (s, t), w);
      assert b.left[(s, t)] in b.aut.initial;
    }
  }

  // Both automata move by l from p to q.
  ghost predicate Moves(lhs: Aut, rhs: Aut, p: Pair, l: Letter, q: Pair) {
    Transition(p.0, l, q.0) in lhs.transitions && Transition(p.1, l, q.1) in rhs.transitions
  }

  ghost predicate ClosedByMoves(lhs: Aut, rhs: Aut, pairs: set<Pair>) {
    && (forall s <- lhs.initial, t <- rhs.initial :: (s, t) in pairs)
    && (forall p, l: Letter, q | p in pairs && Moves(lhs, rhs, p, l, q) :: q in pairs)
  }

  // The states stand for the pairs that moves reach from initial ones, and
  // for nothing else.
  ghost predicate NamesPairs(lhs: Aut, rhs: Aut, names: map<State, Pair>) {
    && (forall q, q' | q in names && q' in names && names[q] == names[q'] :: q == q')
    && ClosedByMoves(lhs, rhs, names.Values)
    && (forall S | ClosedByMoves(lhs, rhs, S) :: names.Values <= S)
  }

  // The product of lhs and rhs whose states are so named.
  ghost predicate ProductOf(lhs: Aut, rhs: Aut, res: Aut, names: map<State, Pair>) {
    && NamesPairs(lhs, rhs, names) && res.states == names.Keys
    && (forall q :: q in res.initial <==> q in names && names[q].0 in lhs.initial && names[q].1 in rhs.initial)
    && (forall q :: q in res.final <==> q in names && names[q].0 in lhs.final && names[q].1 in rhs.final)
    && (forall q, l: Letter, r :: Transition(q, l, r) in res.transitions
                                  <==> q in names && r in names && Moves(lhs, rhs, names[q], l, names[r]))
  }

  lemma SameMoves(lhs: Aut, rhs: Aut, p: Pair, l: Letter, q: Pair)
    ensures Tried(BooleanOperands(lhs, rhs), p, l, q) <==> Moves(lhs, rhs, p, l, q)
  {
  }

  lemma SameClosed(lhs: Aut, rhs: Aut, S: set<Pair>)
    ensures ClosedPairs(BooleanOperands(lhs, rhs), S) <==> ClosedByMoves(lhs, rhs, S)
  {
    var x := BooleanOperands(lhs, rhs);
    forall p, l: Letter, q
      ensures Tried(x, p, l, q) <==> Moves(lhs, rhs, p, l, q)
    {
      SameMoves(lhs, rhs, p, l, q);
    }
    if ClosedPairs(x, S) {
      forall p, l: Letter, q | p in S && Moves(lhs, rhs, p, l, q)
        ensures q in S
      {
        assert OpenedFrom(x, p, S) && Tried(x, p, l, q);
      }
    }
  }

  lemma PairsNamed(lhs: Aut, rhs: Aut, b: PairBuild<Letter>)
    requires Building(BooleanOperands(lhs, rhs), b) && b.processed == b.left.Keys && Bimap(b.left, b.right)
    ensures NamesPairs(lhs, rhs, b.right)
  {
    forall S
      ensures ClosedPairs(BooleanOperands(lhs, rhs), S) <==> ClosedByMoves(lhs, rhs, S)
    {
      SameClosed(lhs, rhs, S);
    }
    assert b.right.Values == b.left.Keys by {
      assert forall p <- b.left :: b.right[b.left[p]] == p;
    }
    assert ClosedPairs(BooleanOperands(lhs, rhs), b.left.Keys);
    forall q, q' | q in b.right && q' in b.right && b.right[q] == b.right[q']
      ensures q == q'
    {
      assert b.left[b.right[q]] == q && b.left[b.right[q']] == q';
    }
  }

  lemma StatesOfPairs(lhs: Aut, rhs: Aut, b: PairBuild<Letter>, q: State)
    requires Building(BooleanOperands(lhs, rhs), b) && b.processed == b.left.Keys && Consistent(b)
    ensures q in b.aut.initial <==> q in b.right && b.right[q].0 in lhs.initial && b.right[q].1 in rhs.initial
    ensures q in b.aut.final <==> q in b.right && b.right[q].0 in lhs.final && b.right[q].1 in rhs.final
  {
    if q in b.right {
      BooleanArcs(lhs, rhs, b.right[q], 0, b.right[q]);
      assert b.left[b.right[q]] == q;
    }
  }

  lemma TransitionsOfPairs(lhs: Aut, rhs: Aut, b: PairBuild<Letter>, q: State, l: Letter, r: State)
    requires Building(BooleanOperands(lhs, rhs), b) && b.processed == b.left.Keys && Consistent(b)
    ensures Transition(q, l, r) in b.aut.transitions
            <==> q in b.right && r in b.right && Moves(lhs, rhs, b.right[q], l, b.right[r])
  {
    var t := Transition(q, l, r);
    if t in b.aut.transitions {
      assert Link(b.right[t.src], t.lbl, b.right[t.dst]) in b.links;
      BooleanArcs(lhs, rhs, b.right[q], l, b.right[r]);
    }
    if q in b.right && r in b.right && Moves(lhs, rhs, b.right[q], l, b.right[r]) {
      BooleanArcs(lhs, rhs, b.right[q], l, b.right[r]);
      assert Link(b.right[q], l, b.right[r]) in b.links;
      assert b.left[b.right[q]] == q && b.left[b.right[r]] == r;
    }
  }

  lemma ProductBuilt(lhs: Aut, rhs: Aut, b: PairBuild<Letter>)
    requires Building(BooleanOperands(lhs, rhs), b) && b.todo == []
    ensures ProductOf(lhs, rhs, b.aut, b.right)
  {
    NothingTodo(b);
    assert Consistent(b);
    PairsNamed(lhs, rhs, b);
    forall q
      ensures q in b.aut.initial <==> q in b.right && b.right[q].0 in lhs.initial && b.right[q].1 in rhs.initial
      ensures q in b.aut.final <==> q in b.right && b.right[q].0 in lhs.final && b.right[q].1 in rhs.final
    {
      StatesOfPairs(lhs, rhs, b, q);
    }
    forall q, l: Letter, r
      ensures Transition(q, l, r) in b.aut.transitions
              <==> q in b.right && r in b.right && Moves(lhs, rhs, b.right[q], l, b.right[r])
    {
      TransitionsOfPairs(lhs, rhs, b, q, l, r);
    }
  }

  method Conjunction(lhs: Aut, rhs: Aut) returns (res: Aut, ghost names: map<State, Pair>)
    requires lhs.Valid() && rhs.Valid()
    ensures ProductOf(lhs, rhs, res, names)
    ensures res.Valid() && forall w: Word :: res.Accepts(w) <==> lhs.Accepts(w) && rhs.Accepts(w)
  {
    BooleanLaws();
    var product := new Product(WithWeights(lhs), WithWeights(rhs), None, Booleans());
    assert product.x == BooleanOperands(lhs, rhs);
    product.Conjunction();
    ghost var b := product.aut.named.Snapshot();
    res, names := product.aut.Result().Support(), b.right;
    SupportBuilt(PairWeights(product.x), b, product.aut.Result());
    SoundValid(b);
    ProductBuilt(lhs, rhs, b);
    forall w: Word
      ensures res.Accepts(w) <==> lhs.Accepts(w) && rhs.Accepts(w)
    {
      ConjunctionLanguage(lhs, rhs, b, w);
    }
  }

  // ---------------------------------------------------------------------
  // Difference and equivalence
  // ---------------------------------------------------------------------

  // r is rhs, determinized unless it is deterministic, then completed.
  ghost predicate Prepared(rhs: Aut, gens: set<Letter>, r: Aut) {
    exists d, sink :: DeterminizedIfNeeded(rhs, d) && Completed(d, gens, r, sink)
  }

  ghost predicate DeterminizedIfNeeded(rhs: Aut, d: Aut) {
    if Deterministic(rhs) && |rhs.initial| <= 1 then d == rhs else exists names :: Determinized(rhs, d, names)
  }

  // An automaton for the words of lhs that are not words of rhs: the product
  // of lhs and of the complement of r.
  method Difference(lhs: Aut, rhs: Aut, gens: set<Letter>)
    returns (res: Aut, ghost r: Aut, ghost names: map<State, Pair>)
    requires lhs.Valid() && rhs.Valid() && LabelsIn(lhs, gens) && LabelsIn(rhs, gens)
    ensures Prepared(rhs, gens, r) && ProductOf(lhs, r.(final := r.states - r.final), res, names)
    ensures res.Valid() && forall w: Word :: res.Accepts(w) <==> lhs.Accepts(w) && !rhs.Accepts(w)
  {
    var right := rhs;
    var deterministic := IsDeterministic(right);
    if !deterministic {
      ghost var subsets;
      right, subsets := D.Determinization(right);
      ghost var d := right;
      right := Completion(right, gens);
      assert DeterminizedIfNeeded(rhs, d);
    } else {
      var complete := IsComplete(right, gens);
      if !complete {
        right := Completion(right, gens);
      }
      assert DeterminizedIfNeeded(rhs, rhs);
      assert Completed(rhs, gens, right, 0) || exists sink :: Completed(rhs, gens, right, sink);
    }
    r := right;
    assert SameLanguage(rhs, r);
    var c := Complement(right, gens);
    res, names := Conjunction(lhs, c.value);
    forall w: Word
      ensures res.Accepts(w) <==> lhs.Accepts(w) && !rhs.Accepts(w)
    {
      assert rhs.Accepts(w) <==> r.Accepts(w);
      if lhs.Accepts(w) {
        var s :| s in lhs.initial && lhs.AcceptsFrom(s, w);
        AcceptedOver(lhs, s, w, gens);
      }
    }
  }

  // Whether two automata over the same alphabet accept the same words.
  method AreEquivalent(a1: Aut, a2: Aut, gens: set<Letter>) returns (r: bool)
    requires a1.Valid() && a2.Valid() && LabelsIn(a1, gens) && LabelsIn(a2, gens)
    ensures r <==> SameLanguage(a1, a2)
  {
    ghost var r1, r2, names1, names2;
    var d1, d2;
    d1, r1, names1 := Difference(a1, a2, gens);
    var useless1 := IsUseless(d1);
    if !useless1 {
      return false;
    }
    d2, r2, names2 := Difference(a2, a1, gens);
    r := IsUseless(d2);
  }
}
