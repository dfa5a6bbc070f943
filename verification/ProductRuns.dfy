// The runs of the conjunction are the pairs of runs that read the same word:
// no path is lost, and none is redundant (vcsn/algos/conjunction.hh,
// vcsn/algos/insplit.hh).
module ProductRuns {
  import opened Wrappers
  import opened BoolAutomata
  import opened NamedAutomata
  import opened Spontaneous
  import opened WeightedAutomata
  import opened WeightedBuilds
  import opened Products
  import opened Runs
  import W = AllDistances
  import I = Insplit

  // ---------------------------------------------------------------------
  // Projections
  // ---------------------------------------------------------------------

  function PairOf<L>(b: PairBuild<L>, s: State): Pair {
    if s in b.right then b.right[s] else (0, 0)
  }

  // The transition lets the right automaton move alone.
  predicate RightAlone<L, K>(x: Operands<L, K>, b: PairBuild<L>, t: Transition<L>) {
    IsOne(x.one, t.lbl) && !ProperIn(x.Right(), x.one, PairOf(b, t.dst).1)
  }

  predicate LeftAlone<L, K>(x: Operands<L, K>, b: PairBuild<L>, t: Transition<L>) {
    IsOne(x.one, t.lbl) && ProperIn(x.Right(), x.one, PairOf(b, t.dst).1)
  }

  function LeftOf<L>(b: PairBuild<L>, t: Transition<L>): Transition<L> {
    Transition(PairOf(b, t.src).0, t.lbl, PairOf(b, t.dst).0)
  }

  function RightOf<L>(b: PairBuild<L>, t: Transition<L>): Transition<L> {
    Transition(PairOf(b, t.src).1, t.lbl, PairOf(b, t.dst).1)
  }

  // What the left automaton does.
  function LeftPart<L, K>(x: Operands<L, K>, b: PairBuild<L>, ts: Path<L>): Path<L> {
    if ts == [] then []
    else
      (if RightAlone(x, b, ts[0]) then [] else [LeftOf(b, ts[0])]) + LeftPart(x, b, ts[1..])
  }

  // What the right automaton does.
  function RightPart<L, K>(x: Operands<L, K>, b: PairBuild<L>, ts: Path<L>): Path<L> {
    if ts == [] then []
    else
      (if LeftAlone(x, b, ts[0]) then [] else [RightOf(b, ts[0])]) + RightPart(x, b, ts[1..])
  }

  // The construction is over.
  ghost predicate Built<L(!new), K(!new)>(x: Operands<L, K>, b: PairBuild<L>) {
    Building(x, b) && b.todo == [] && Split(x.Right(), x.one) && x.Left().Valid() && x.Right().Valid()
  }

  // The states and links of a transition.
  lemma TransitionLink<L(!new), K(!new)>(x: Operands<L, K>, b: PairBuild<L>, t: Transition<L>)
    requires Built(x, b) && t in b.aut.transitions
    ensures t.src in b.right && t.dst in b.right
    ensures Arc(x, b.right[t.src], t.lbl, b.right[t.dst])
  {
    assert Consistent(b);
    assert Link(b.right[t.src], t.lbl, b.right[t.dst]) in b.links;
  }

  lemma LinkTransition<L(!new), K(!new)>(x: Operands<L, K>, b: PairBuild<L>, p: Pair, l: L, q: Pair)
    requires Built(x, b) && p in b.left && Arc(x, p, l, q)
    ensures q in b.left && Transition(b.left[p], l, b.left[q]) in b.aut.transitions
    ensures PairOf(b, b.left[p]) == p && PairOf(b, b.left[q]) == q
  {
    NothingTodo(b);
    assert Link(p, l, q) in b.links;
    assert Consistent(b);
  }

  lemma NameOf<L(!new)>(b: PairBuild<L>, s: State)
    requires Sound(b) && s in b.right
    ensures b.right[s] in b.left && b.left[b.right[s]] == s && PairOf(b, s) == b.right[s]
  {
    assert Consistent(b);
  }

  // A transition of the product is one of each automaton, or of one of them.
  lemma TransitionParts<L(!new), K(!new)>(x: Operands<L, K>, b: PairBuild<L>, t: Transition<L>)
    requires Built(x, b) && t in b.aut.transitions
    ensures !IsOne(x.one, t.lbl) ==>
              && LeftOf(b, t) in x.Left().transitions && RightOf(b, t) in x.Right().transitions
              && x.Together(LeftOf(b, t), RightOf(b, t)) != x.weights.zero
    ensures LeftAlone(x, b, t) ==>
              LeftOf(b, t) in x.Left().transitions && PairOf(b, t.src).1 == PairOf(b, t.dst).1
    ensures RightAlone(x, b, t) ==>
              RightOf(b, t) in x.Right().transitions && PairOf(b, t.src).0 == PairOf(b, t.dst).0
  {
    TransitionLink(x, b, t);
    var p, q := b.right[t.src], b.right[t.dst];
    if IsOne(x.one, t.lbl) {
      if RightOnly(x, p, t.lbl, q) {
        assert RightOf(b, t) in x.Right().transitions && RightOf(b, t).dst == q.1;
      }
    }
  }

  // The parts of a path are paths, and read the same word.
  lemma {:induction false} PathParts<L(!new), K(!new)>(x: Operands<L, K>, b: PairBuild<L>,
                                              s: State, ts: Path<L>, d: State)
    requires Built(x, b) && IsPath(b.aut, s, ts, d)
    ensures IsPath(x.Left(), PairOf(b, s).0, LeftPart(x, b, ts), PairOf(b, d).0)
    ensures IsPath(x.Right(), PairOf(b, s).1, RightPart(x, b, ts), PairOf(b, d).1)
    ensures Letters(x.one, LeftPart(x, b, ts)) == Letters(x.one, ts) == Letters(x.one, RightPart(x, b, ts))
    decreases |ts|
  {
    if ts != [] {
      var t := ts[0];
      PathParts(x, b, t.dst, ts[1..], d);
      TransitionParts(x, b, t);
      var left, right := LeftPart(x, b, ts[1..]), RightPart(x, b, ts[1..]);
      LettersPrepend(x.one, LeftOf(b, t), left);
      LettersPrepend(x.one, RightOf(b, t), right);
      if RightAlone(x, b, t) {
        PathPrepend(x.Right(), RightOf(b, t), right, PairOf(b, d).1);
        assert [] + left == left;
      } else if LeftAlone(x, b, t) {
        PathPrepend(x.Left(), LeftOf(b, t), left, PairOf(b, d).0);
        assert [] + right == right;
      } else {
        PathPrepend(x.Left(), LeftOf(b, t), left, PairOf(b, d).0);
        PathPrepend(x.Right(), RightOf(b, t), right, PairOf(b, d).1);
      }
    }
  }

  // ---------------------------------------------------------------------
  // No path is lost
  // ---------------------------------------------------------------------

  predicate StartsSpontaneous<L(==)>(one: Option<L>, ts: Path<L>) {
    ts != [] && IsOne(one, ts[0].lbl)
  }

  // The weights of the transitions that are followed together have a product
  // that is not null.
  ghost predicate Compatible<L(!new), K(!new)>(x: Operands<L, K>, us: Path<L>, vs: Path<L>)
    decreases |us| + |vs|
  {
    if StartsSpontaneous(x.one, us) then Compatible(x, us[1..], vs)
    else if StartsSpontaneous(x.one, vs) then Compatible(x, us, vs[1..])
    else if us == [] || vs == [] then true
    else x.Together(us[0], vs[0]) != x.weights.zero && Compatible(x, us[1..], vs[1..])
  }

  // ts has these parts, and leads from s to d.
  ghost predicate Joins<L, K>(x: Operands<L, K>, b: PairBuild<L>, s: State, us: Path<L>, vs: Path<L>,
                           ts: Path<L>, d: State) {
    && IsPath(b.aut, s, ts, d)
    && LeftPart(x, b, ts) == us
    && RightPart(x, b, ts) == vs
  }

  lemma JoinsPrepend<L(!new), K(!new)>(x: Operands<L, K>, b: PairBuild<L>, t: Transition<L>, us: Path<L>, vs: Path<L>,
                              ts: Path<L>, d: State)
    requires t in b.aut.transitions && Joins(x, b, t.dst, us, vs, ts, d)
    ensures Joins(x, b, t.src,
                  (if RightAlone(x, b, t) then [] else [LeftOf(b, t)]) + us,
                  (if LeftAlone(x, b, t) then [] else [RightOf(b, t)]) + vs, [t] + ts, d)
  {
    PathPrepend(b.aut, t, ts, d);
  }

  // The left automaton moves first, then the right one, then both read.
  lemma {:induction false} JoinPaths<L(!new), K(!new)>(x: Operands<L, K>, b: PairBuild<L>,
                                              p: Pair, us: Path<L>, vs: Path<L>, q: Pair)
    returns (ts: Path<L>)
    requires Built(x, b) && p in b.left
    requires IsPath(x.Left(), p.0, us, q.0) && IsPath(x.Right(), p.1, vs, q.1) && q.0 in x.Left().final
    requires Letters(x.one, us) == Letters(x.one, vs) && Compatible(x, us, vs)
    requires ProperIn(x.Right(), x.one, p.1) || !StartsSpontaneous(x.one, us)
    ensures q in b.left && Joins(x, b, b.left[p], us, vs, ts, b.left[q])
    decreases |us| + |vs|
  {
    if StartsSpontaneous(x.one, us) {
      ts := JoinLeft(x, b, p, us, vs, q);
    } else if StartsSpontaneous(x.one, vs) {
      ts := JoinRight(x, b, p, us, vs, q);
    } else if us == [] || vs == [] {
      assert us == [] && vs == [];
      ts := [];
    } else {
      ts := JoinBoth(x, b, p, us, vs, q);
    }
  }

  lemma {:induction false} JoinLeft<L(!new), K(!new)>(x: Operands<L, K>, b: PairBuild<L>,
                                             p: Pair, us: Path<L>, vs: Path<L>, q: Pair)
    returns (ts: Path<L>)
    requires Built(x, b) && p in b.left
    requires IsPath(x.Left(), p.0, us, q.0) && IsPath(x.Right(), p.1, vs, q.1) && q.0 in x.Left().final
    requires Letters(x.one, us) == Letters(x.one, vs) && Compatible(x, us, vs)
    requires ProperIn(x.Right(), x.one, p.1) && StartsSpontaneous(x.one, us)
    ensures q in b.left && Joins(x, b, b.left[p], us, vs, ts, b.left[q])
    decreases |us| + |vs|, 0
  {
    var u := us[0];
    PathFirst(x.Left(), p.0, us, q.0);
    LettersPrepend(x.one, u, us[1..]);
    var r := (u.dst, p.1);
    assert LeftOnly(x, p, u.lbl, r);
    LinkTransition(x, b, p, u.lbl, r);
    var t := Transition(b.left[p], u.lbl, b.left[r]);
    var rest := JoinPaths(x, b, r, us[1..], vs, q);
    JoinsPrepend(x, b, t, us[1..], vs, rest, b.left[q]);
    assert LeftOf(b, t) == u && [] + vs == vs;
    ts := [t] + rest;
  }

  lemma {:induction false} JoinRight<L(!new), K(!new)>(x: Operands<L, K>, b: PairBuild<L>,
                                              p: Pair, us: Path<L>, vs: Path<L>, q: Pair)
    returns (ts: Path<L>)
    requires Built(x, b) && p in b.left
    requires IsPath(x.Left(), p.0, us, q.0) && IsPath(x.Right(), p.1, vs, q.1) && q.0 in x.Left().final
    requires Letters(x.one, us) == Letters(x.one, vs) && Compatible(x, us, vs)
    requires !StartsSpontaneous(x.one, us) && StartsSpontaneous(x.one, vs)
    ensures q in b.left && Joins(x, b, b.left[p], us, vs, ts, b.left[q])
    decreases |us| + |vs|, 0
  {
    var v := vs[0];
    PathFirst(x.Right(), p.1, vs, q.1);
    LettersPrepend(x.one, v, vs[1..]);
    var r := (p.0, v.dst);
    assert ProperOut(x.Left(), x.one, p.0) by {
      if us != [] {
        assert us[0] in x.Left().transitions && us[0].src == p.0 && !IsOne(x.one, us[0].lbl);
      }
    }
    assert v == Transition(p.1, v.lbl, r.1);
    assert RightOnly(x, p, v.lbl, r);
    LinkTransition(x, b, p, v.lbl, r);
    var t := Transition(b.left[p], v.lbl, b.left[r]);
    var rest := JoinPaths(x, b, r, us, vs[1..], q);
    assert RightAlone(x, b, t);
    JoinsPrepend(x, b, t, us, vs[1..], rest, b.left[q]);
    assert RightOf(b, t) == v && [] + us == us;
    ts := [t] + rest;
  }

  lemma {:induction false} JoinBoth<L(!new), K(!new)>(x: Operands<L, K>, b: PairBuild<L>,
                                             p: Pair, us: Path<L>, vs: Path<L>, q: Pair)
    returns (ts: Path<L>)
    requires Built(x, b) && p in b.left
    requires IsPath(x.Left(), p.0, us, q.0) && IsPath(x.Right(), p.1, vs, q.1) && q.0 in x.Left().final
    requires Letters(x.one, us) == Letters(x.one, vs) && Compatible(x, us, vs)
    requires us != [] && vs != [] && !StartsSpontaneous(x.one, us) && !StartsSpontaneous(x.one, vs)
    ensures q in b.left && Joins(x, b, b.left[p], us, vs, ts, b.left[q])
    decreases |us| + |vs|, 0
  {
    var u, v := us[0], vs[0];
    PathFirst(x.Left(), p.0, us, q.0);
    PathFirst(x.Right(), p.1, vs, q.1);
    LettersPrepend(x.one, u, us[1..]);
    LettersPrepend(x.one, v, vs[1..]);
    SameFirst(u.lbl, Letters(x.one, us[1..]), v.lbl, Letters(x.one, vs[1..]));
    var r := (u.dst, v.dst);
    assert u == Transition(p.0, u.lbl, r.0) && v == Transition(p.1, u.lbl, r.1);
    assert Both(x, p, u.lbl, r);
    LinkTransition(x, b, p, u.lbl, r);
    var t := Transition(b.left[p], u.lbl, b.left[r]);
    ReadProperIn(x.Right(), x.one, v);
    var rest := JoinPaths(x, b, r, us[1..], vs[1..], q);
    JoinsPrepend(x, b, t, us[1..], vs[1..], rest, b.left[q]);
    assert LeftOf(b, t) == u && RightOf(b, t) == v;
    ts := [t] + rest;
  }

  lemma SameFirst<L(!new)>(x: L, xs: seq<L>, y: L, ys: seq<L>)
    requires [x] + xs == [y] + ys
    ensures x == y && xs == ys
  {
    assert ([x] + xs)[0] == x && ([y] + ys)[0] == y;
    assert ([x] + xs)[1..] == xs && ([y] + ys)[1..] == ys;
  }

  // In a split automaton, a state that is read into has no spontaneous
  // incoming transition.
  lemma ReadProperIn<L(!new)>(a: Automaton<L>, one: Option<L>, t: Transition<L>)
    requires Split(a, one) && a.Valid() && t in a.transitions && !IsOne(one, t.lbl)
    ensures ProperIn(a, one, t.dst)
  {
    assert t.dst in a.states;
  }

  // ---------------------------------------------------------------------
  // No path is redundant
  // ---------------------------------------------------------------------

  // After a spontaneous transition of the right automaton, the left one only
  // reads.
  lemma {:induction false} LeftReadsFirst<L(!new), K(!new)>(x: Operands<L, K>, b: PairBuild<L>,
                                                   s: State, ts: Path<L>, d: State)
    requires Built(x, b) && IsPath(b.aut, s, ts, d) && !ProperIn(x.Right(), x.one, PairOf(b, s).1)
    ensures !StartsSpontaneous(x.one, LeftPart(x, b, ts))
    decreases |ts|
  {
    if ts != [] {
      var t := ts[0];
      TransitionParts(x, b, t);
      if RightAlone(x, b, t) {
        LeftReadsFirst(x, b, t.dst, ts[1..], d);
        assert [] + LeftPart(x, b, ts[1..]) == LeftPart(x, b, ts[1..]);
      }
    }
  }

  // What is followed together has a weight.
  lemma {:induction false} PartsCompatible<L(!new), K(!new)>(x: Operands<L, K>, b: PairBuild<L>, s: State,
                                                             ts: Path<L>, d: State)
    requires Built(x, b) && IsPath(b.aut, s, ts, d)
    ensures Compatible(x, LeftPart(x, b, ts), RightPart(x, b, ts))
    decreases |ts|
  {
    if ts != [] {
      var t := ts[0];
      PartsCompatible(x, b, t.dst, ts[1..], d);
      TransitionParts(x, b, t);
      var left, right := LeftPart(x, b, ts[1..]), RightPart(x, b, ts[1..]);
      assert ([LeftOf(b, t)] + left)[1..] == left && ([RightOf(b, t)] + right)[1..] == right;
      if RightAlone(x, b, t) {
        LeftReadsFirst(x, b, t.dst, ts[1..], d);
        assert [] + left == left;
      } else if LeftAlone(x, b, t) {
        assert [] + right == right;
      }
    }
  }

  // The parts tell the first transition.
  lemma SameKind<L(!new), K(!new)>(x: Operands<L, K>, b: PairBuild<L>, s: State,
                          ts: Path<L>, d: State, ts': Path<L>, d': State)
    requires Built(x, b) && IsPath(b.aut, s, ts, d) && IsPath(b.aut, s, ts', d') && ts != [] && ts' != []
    requires LeftPart(x, b, ts) == LeftPart(x, b, ts')
    requires RightPart(x, b, ts) == RightPart(x, b, ts')
    ensures RightAlone(x, b, ts[0]) ==> RightAlone(x, b, ts'[0])
    ensures !IsOne(x.one, ts[0].lbl) ==> !IsOne(x.one, ts'[0].lbl) || RightAlone(x, b, ts'[0])
  {
    var t, t' := ts[0], ts'[0];
    if RightAlone(x, b, t) {
      assert RightPart(x, b, ts)[0] == RightOf(b, t);
      LeftReadsFirst(x, b, t.dst, ts[1..], d);
      assert [] + LeftPart(x, b, ts[1..]) == LeftPart(x, b, ts[1..]);
    } else if !IsOne(x.one, t.lbl) {
      assert LeftPart(x, b, ts)[0] == LeftOf(b, t);
    }
  }

  lemma SameTransition<L(!new), K(!new)>(x: Operands<L, K>, b: PairBuild<L>,
                                t: Transition<L>, t': Transition<L>)
    requires Built(x, b) && t in b.aut.transitions && t' in b.aut.transitions && t.src == t'.src
    requires t.lbl == t'.lbl && PairOf(b, t.dst) == PairOf(b, t'.dst)
    ensures t == t'
  {
    TransitionLink(x, b, t);
    TransitionLink(x, b, t');
    NameOf(b, t.dst);
    NameOf(b, t'.dst);
  }

  // When the first transitions are of the same kind, the parts of the rest are
  // the same.
  lemma SameParts<L(!new), K(!new)>(x: Operands<L, K>, b: PairBuild<L>, ts: Path<L>, ts': Path<L>)
    requires ts != [] && ts' != []
    requires LeftPart(x, b, ts) == LeftPart(x, b, ts')
    requires RightPart(x, b, ts) == RightPart(x, b, ts')
    requires RightAlone(x, b, ts[0]) <==> RightAlone(x, b, ts'[0])
    requires LeftAlone(x, b, ts[0]) <==> LeftAlone(x, b, ts'[0])
    ensures !RightAlone(x, b, ts[0]) ==> LeftOf(b, ts[0]) == LeftOf(b, ts'[0])
    ensures !LeftAlone(x, b, ts[0]) ==> RightOf(b, ts[0]) == RightOf(b, ts'[0])
    ensures LeftPart(x, b, ts[1..]) == LeftPart(x, b, ts'[1..])
    ensures RightPart(x, b, ts[1..]) == RightPart(x, b, ts'[1..])
  {
    var t, t' := ts[0], ts'[0];
    var left, left' := LeftPart(x, b, ts[1..]), LeftPart(x, b, ts'[1..]);
    var right, right' := RightPart(x, b, ts[1..]), RightPart(x, b, ts'[1..]);
    if RightAlone(x, b, t) {
      assert [] + left == left && [] + left' == left';
    } else {
      SameFirstPath(LeftOf(b, t), left, LeftOf(b, t'), left');
    }
    if LeftAlone(x, b, t) {
      assert [] + right == right && [] + right' == right';
    } else {
      SameFirstPath(RightOf(b, t), right, RightOf(b, t'), right');
    }
  }

  // Two first transitions of the same kind, and with the same parts, are the
  // same.
  lemma SameStart<L(!new), K(!new)>(x: Operands<L, K>, b: PairBuild<L>,
                           t: Transition<L>, t': Transition<L>)
    requires Built(x, b) && t in b.aut.transitions && t' in b.aut.transitions && t.src == t'.src
    requires RightAlone(x, b, t) <==> RightAlone(x, b, t')
    requires LeftAlone(x, b, t) <==> LeftAlone(x, b, t')
    requires !RightAlone(x, b, t) ==> LeftOf(b, t) == LeftOf(b, t')
    requires !LeftAlone(x, b, t) ==> RightOf(b, t) == RightOf(b, t')
    ensures t == t'
  {
    TransitionParts(x, b, t);
    TransitionParts(x, b, t');
    SameTransition(x, b, t, t');
  }

  lemma SameFirstPath<L(!new)>(x: Transition<L>, xs: Path<L>, y: Transition<L>, ys: Path<L>)
    requires [x] + xs == [y] + ys
    ensures x == y && xs == ys
  {
    assert ([x] + xs)[0] == x && ([y] + ys)[0] == y;
    assert ([x] + xs)[1..] == xs && ([y] + ys)[1..] == ys;
  }

  // The parts of a path, and its start, tell the path.
  lemma {:induction false} PartsTellPath<L(!new), K(!new)>(x: Operands<L, K>, b: PairBuild<L>,
                                                  s: State, ts: Path<L>, d: State, ts': Path<L>, d': State)
    requires Built(x, b) && IsPath(b.aut, s, ts, d) && IsPath(b.aut, s, ts', d')
    requires LeftPart(x, b, ts) == LeftPart(x, b, ts')
    requires RightPart(x, b, ts) == RightPart(x, b, ts')
    ensures ts == ts'
    decreases |ts|
  {
    if ts != [] && ts' != [] {
      SameKind(x, b, s, ts, d, ts', d');
      SameKind(x, b, s, ts', d', ts, d);
      SameParts(x, b, ts, ts');
      SameStart(x, b, ts[0], ts'[0]);
      PartsTellPath(x, b, ts[0].dst, ts[1..], d, ts'[1..], d');
      PathFirst(b.aut, s, ts, d);
      PathFirst(b.aut, s, ts', d');
    }
  }

  // ---------------------------------------------------------------------
  // Runs of the insplit automaton
  // ---------------------------------------------------------------------

  function NameIn<L>(c: I.SplitBuild<L>, s: State): I.Name {
    if s in c.right then c.right[s] else (0, false)
  }

  function UnsplitOf<L>(c: I.SplitBuild<L>, t: Transition<L>): Transition<L> {
    Transition(NameIn(c, t.src).0, t.lbl, NameIn(c, t.dst).0)
  }

  // The original transitions.
  function Unsplit<L>(c: I.SplitBuild<L>, ts: Path<L>): Path<L> {
    if ts == [] then [] else [UnsplitOf(c, ts[0])] + Unsplit(c, ts[1..])
  }

  ghost predicate Insplit<L(!new)>(a: Automaton<L>, one: Option<L>, c: I.SplitBuild<L>) {
    I.Building(a, one, c) && c.todo == []
  }

  lemma SplitTransition<L(!new)>(a: Automaton<L>, one: Option<L>, c: I.SplitBuild<L>, t: Transition<L>)
    requires Insplit(a, one, c) && t in c.aut.transitions
    ensures t.src in c.right && t.dst in c.right
    ensures UnsplitOf(c, t) in a.transitions && NameIn(c, t.dst).1 == IsOne(one, t.lbl)
  {
    assert Consistent(c);
    assert Link(c.right[t.src], t.lbl, c.right[t.dst]) in c.links;
  }

  lemma {:induction false} UnsplitPath<L(!new)>(a: Automaton<L>, one: Option<L>, c: I.SplitBuild<L>, s: State,
                                                ts: Path<L>, d: State)
    requires Insplit(a, one, c) && IsPath(c.aut, s, ts, d)
    ensures IsPath(a, NameIn(c, s).0, Unsplit(c, ts), NameIn(c, d).0)
    ensures Letters(one, Unsplit(c, ts)) == Letters(one, ts)
    decreases |ts|
  {
    if ts != [] {
      SplitTransition(a, one, c, ts[0]);
      UnsplitPath(a, one, c, ts[0].dst, ts[1..], d);
      PathPrepend(a, UnsplitOf(c, ts[0]), Unsplit(c, ts[1..]), NameIn(c, d).0);
      LettersPrepend(one, UnsplitOf(c, ts[0]), Unsplit(c, ts[1..]));
    }
  }

  lemma SplitOf<L(!new)>(a: Automaton<L>, one: Option<L>, c: I.SplitBuild<L>, n: I.Name, t: Transition<L>)
    returns (m: I.Name, u: Transition<L>)
    requires Insplit(a, one, c) && n in c.left && t in a.transitions && t.src == n.0
    ensures m in c.left && m.0 == t.dst
    ensures u == Transition(c.left[n], t.lbl, c.left[m]) && u in c.aut.transitions && UnsplitOf(c, u) == t
  {
    NothingTodo(c);
    m := (t.dst, IsOne(one, t.lbl));
    assert t == Transition(n.0, t.lbl, m.0);
    assert I.Arc(a, one, n, t.lbl, m);
    assert Link(n, t.lbl, m) in c.links;
    assert Consistent(c);
    u := Transition(c.left[n], t.lbl, c.left[m]);
  }

  lemma {:induction false} SplitPath<L(!new)>(a: Automaton<L>, one: Option<L>, c: I.SplitBuild<L>, n: I.Name,
                                              vs: Path<L>, e: State)
    returns (ts: Path<L>, m: I.Name)
    requires Insplit(a, one, c) && n in c.left && IsPath(a, n.0, vs, e)
    ensures m in c.left && m.0 == e && IsPath(c.aut, c.left[n], ts, c.left[m]) && Unsplit(c, ts) == vs
    decreases |vs|
  {
    if vs == [] {
      ts, m := [], n;
    } else {
      PathFirst(a, n.0, vs, e);
      var r, u := SplitOf(a, one, c, n, vs[0]);
      var rest;
      rest, m := SplitPath(a, one, c, r, vs[1..], e);
      PathPrepend(c.aut, u, rest, c.left[m]);
      ts := [u] + rest;
    }
  }

  lemma {:induction false} UnsplitTellsPath<L(!new)>(a: Automaton<L>, one: Option<L>, c: I.SplitBuild<L>, s: State,
                                                     ts: Path<L>, d: State, ts': Path<L>, d': State)
    requires Insplit(a, one, c) && IsPath(c.aut, s, ts, d) && IsPath(c.aut, s, ts', d')
               && Unsplit(c, ts) == Unsplit(c, ts')
    ensures ts == ts'
    decreases |ts|
  {
    if ts != [] && ts' != [] {
      var t, t' := ts[0], ts'[0];
      SplitTransition(a, one, c, t);
      SplitTransition(a, one, c, t');
      SameFirstPath(UnsplitOf(c, t), Unsplit(c, ts[1..]), UnsplitOf(c, t'), Unsplit(c, ts'[1..]));
      assert NameIn(c, t.dst) == NameIn(c, t'.dst);
      assert Consistent(c);
      assert c.left[c.right[t.dst]] == t.dst && c.left[c.right[t'.dst]] == t'.dst;
      UnsplitTellsPath(a, one, c, t.dst, ts[1..], d, ts'[1..], d');
      PathFirst(c.aut, s, ts, d);
      PathFirst(c.aut, s, ts', d');
    }
  }

  // ---------------------------------------------------------------------
  // The runs of the conjunction
  // ---------------------------------------------------------------------

  // b is the product of the left operand and c, which is rhs, insplit.
  ghost predicate Conjoined<L(!new), K(!new)>(rhs: Weighted<L, K>, c: I.SplitBuild<L>, x: Operands<L, K>,
                                              b: PairBuild<L>) {
    && x.lhs.Valid(x.weights.zero) && rhs.Valid(x.weights.zero) && W.Laws(x.weights)
    && Insplit(rhs.Support(), x.one, c)
    && x.Right() == c.aut && WellWeighed(I.SplitWeights(rhs, x.weights.zero), c, x.rhs)
    && Building(x, b) && b.todo == []
  }

  // The operands before the second one is insplit.
  function Original<L, K>(rhs: Weighted<L, K>, x: Operands<L, K>): Operands<L, K> {
    x.(rhs := rhs)
  }

  lemma ConjoinedBuilt<L(!new), K(!new)>(rhs: Weighted<L, K>, c: I.SplitBuild<L>, x: Operands<L, K>, b: PairBuild<L>)
    requires Conjoined(rhs, c, x, b)
    ensures Built(x, b)
  {
    I.BuiltSplit(rhs.Support(), x.one, c);
  }

  // The run of the right automaton.
  function RightRun<L, K>(c: I.SplitBuild<L>, x: Operands<L, K>, b: PairBuild<L>, ts: Path<L>): Path<L> {
    Unsplit(c, RightPart(x, b, ts))
  }

  function LeftStart<L>(b: PairBuild<L>, s: State): State {
    PairOf(b, s).0
  }

  function RightStart<L>(c: I.SplitBuild<L>, b: PairBuild<L>, s: State): State {
    NameIn(c, PairOf(b, s).1).0
  }

  function OriginalPair<L>(c: I.SplitBuild<L>, b: PairBuild<L>, s: State): Pair {
    (LeftStart(b, s), RightStart(c, b, s))
  }

  // The states of the insplit automaton have the initial and final weights of
  // the original ones.
  lemma SplitStates<L(!new), K(!new)>(rhs: Weighted<L, K>, c: I.SplitBuild<L>, x: Operands<L, K>, b: PairBuild<L>,
                                      e: State)
    requires Conjoined(rhs, c, x, b) && e in c.right
    ensures e in x.rhs.final <==> c.right[e].0 in rhs.final
    ensures e in x.rhs.final ==> x.rhs.final[e] == rhs.final[c.right[e].0]
    ensures e in x.rhs.initial ==> c.right[e].0 in rhs.initial && x.rhs.initial[e] == rhs.initial[c.right[e].0]
  {
    NothingTodo(c);
    assert Consistent(c);
    assert Weighs(I.SplitWeights(rhs, x.weights.zero), c, x.rhs);
    assert c.left[c.right[e]] == e;
    assert e in c.aut.final <==> c.right[e] in c.finals;
  }

  lemma PairStates<L(!new), K(!new)>(rhs: Weighted<L, K>, c: I.SplitBuild<L>, x: Operands<L, K>, b: PairBuild<L>,
                                     d: State)
    requires Conjoined(rhs, c, x, b) && d in b.right
    ensures PairOf(b, d) == b.right[d] && b.right[d].1 in c.right && RightStart(c, b, d) == c.right[b.right[d].1].0
    ensures b.right[d] in b.left && b.left[b.right[d]] == d
  {
    assert Consistent(c);
    NameOf(b, d);
    I.BuiltSplit(rhs.Support(), x.one, c);
    NoOthersInPairs(x, b.left.Keys);
  }

  lemma Ends<L(!new), K(!new)>(rhs: Weighted<L, K>, c: I.SplitBuild<L>, x: Operands<L, K>, b: PairBuild<L>, d: State)
    requires Conjoined(rhs, c, x, b) && d in b.right
    ensures d in b.aut.final <==> FinalPair(Original(rhs, x), OriginalPair(c, b, d))
    ensures d in b.aut.final ==> x.FinalWeight(PairOf(b, d)) == Original(rhs, x).FinalWeight(OriginalPair(c, b, d))
  {
    PairStates(rhs, c, x, b, d);
    SplitStates(rhs, c, x, b, b.right[d].1);
    NothingTodo(b);
    assert Consistent(b);
    assert d in b.aut.final <==> FinalPair(x, b.right[d]);
  }

  lemma Begins<L(!new), K(!new)>(rhs: Weighted<L, K>, c: I.SplitBuild<L>, x: Operands<L, K>, b: PairBuild<L>, s: State)
    requires Conjoined(rhs, c, x, b) && s in b.aut.initial
    ensures s in b.right && InitialPair(Original(rhs, x), OriginalPair(c, b, s))
    ensures x.InitialWeight(PairOf(b, s)) == Original(rhs, x).InitialWeight(OriginalPair(c, b, s))
  {
    assert Consistent(b);
    PairStates(rhs, c, x, b, s);
    SplitStates(rhs, c, x, b, b.right[s].1);
    assert InitialPair(x, b.right[s]);
  }

  lemma {:induction false} PathEnds<L(!new), K(!new)>(x: Operands<L, K>, b: PairBuild<L>, s: State, ts: Path<L>,
                                                      d: State)
    requires Built(x, b) && IsPath(b.aut, s, ts, d) && s in b.right
    ensures d in b.right
    decreases |ts|
  {
    if ts != [] {
      TransitionLink(x, b, ts[0]);
      PathEnds(x, b, ts[0].dst, ts[1..], d);
    }
  }

  lemma SplitWeight<L(!new), K(!new)>(rhs: Weighted<L, K>, c: I.SplitBuild<L>, x: Operands<L, K>, b: PairBuild<L>,
                                      t: Transition<L>)
    requires Conjoined(rhs, c, x, b) && t in c.aut.transitions
    ensures At(x.weights.zero, x.rhs.transitions, t) == At(x.weights.zero, rhs.transitions, UnsplitOf(c, t))
  {
    assert Weighs(I.SplitWeights(rhs, x.weights.zero), c, x.rhs);
  }

  lemma {:induction false} CompatibleUnsplit<L(!new), K(!new)>(rhs: Weighted<L, K>, c: I.SplitBuild<L>,
                                                               x: Operands<L, K>,
                                                               b: PairBuild<L>, us: Path<L>, s: State, ws: Path<L>,
                                                               d: State)
    requires Conjoined(rhs, c, x, b) && IsPath(c.aut, s, ws, d)
    ensures Compatible(x, us, ws) <==> Compatible(Original(rhs, x), us, Unsplit(c, ws))
    decreases |us| + |ws|
  {
    if StartsSpontaneous(x.one, us) {
      CompatibleUnsplit(rhs, c, x, b, us[1..], s, ws, d);
    } else if ws != [] {
      var w := ws[0];
      PathFirst(c.aut, s, ws, d);
      assert ([UnsplitOf(c, w)] + Unsplit(c, ws[1..]))[1..] == Unsplit(c, ws[1..]);
      if StartsSpontaneous(x.one, ws) {
        CompatibleUnsplit(rhs, c, x, b, us, w.dst, ws[1..], d);
      } else if us != [] {
        CompatibleUnsplit(rhs, c, x, b, us[1..], w.dst, ws[1..], d);
        SplitWeight(rhs, c, x, b, w);
      }
    }
  }

  // Two runs of the operands that read the same word, such that what is
  // followed together has a weight.
  ghost predicate Joinable<L(!new), K(!new)>(o: Operands<L, K>, s1: State, us: Path<L>, s2: State, vs: Path<L>) {
    && Accepting(o.Left(), s1, us) && Accepting(o.Right(), s2, vs) && Letters(o.one, us) == Letters(o.one, vs)
    && InitialPair(o, (s1, s2)) && FinalPair(o, (End(s1, us), End(s2, vs)))
    && Compatible(o, us, vs)
  }

  // What a path of the conjunction is made of.
  lemma PathOfPair<L(!new), K(!new)>(rhs: Weighted<L, K>, c: I.SplitBuild<L>, x: Operands<L, K>, b: PairBuild<L>,
                                     s: State, ts: Path<L>, d: State)
    requires Conjoined(rhs, c, x, b) && IsPath(b.aut, s, ts, d)
    ensures IsPath(x.Left(), LeftStart(b, s), LeftPart(x, b, ts), LeftStart(b, d))
    ensures IsPath(c.aut, PairOf(b, s).1, RightPart(x, b, ts), PairOf(b, d).1)
    ensures IsPath(rhs.Support(), RightStart(c, b, s), RightRun(c, x, b, ts), RightStart(c, b, d))
    ensures Letters(x.one, LeftPart(x, b, ts)) == Letters(x.one, ts) == Letters(x.one, RightRun(c, x, b, ts))
    ensures Compatible(Original(rhs, x), LeftPart(x, b, ts), RightRun(c, x, b, ts))
  {
    ConjoinedBuilt(rhs, c, x, b);
    PathParts(x, b, s, ts, d);
    PartsCompatible(x, b, s, ts, d);
    UnsplitPath(rhs.Support(), x.one, c, PairOf(b, s).1, RightPart(x, b, ts), PairOf(b, d).1);
    CompatibleUnsplit(rhs, c, x, b, LeftPart(x, b, ts), PairOf(b, s).1, RightPart(x, b, ts), PairOf(b, d).1);
  }

  // A run of the conjunction is a pair of runs that read the same word.
  lemma RunIsPair<L(!new), K(!new)>(rhs: Weighted<L, K>, c: I.SplitBuild<L>, x: Operands<L, K>, b: PairBuild<L>,
                                    s: State, ts: Path<L>)
    requires Conjoined(rhs, c, x, b) && Accepting(b.aut, s, ts)
    ensures Joinable(Original(rhs, x), LeftStart(b, s), LeftPart(x, b, ts), RightStart(c, b, s), RightRun(c, x, b, ts))
    ensures Letters(x.one, LeftPart(x, b, ts)) == Letters(x.one, ts)
  {
    var d :| d in b.aut.final && IsPath(b.aut, s, ts, d);
    ConjoinedBuilt(rhs, c, x, b);
    Begins(rhs, c, x, b, s);
    PathEnds(x, b, s, ts, d);
    PathOfPair(rhs, c, x, b, s, ts, d);
    Ends(rhs, c, x, b, d);
    PathEnd(x.Left(), LeftStart(b, s), LeftPart(x, b, ts), LeftStart(b, d));
    PathEnd(rhs.Support(), RightStart(c, b, s), RightRun(c, x, b, ts), RightStart(c, b, d));
  }

  // The state and the transitions of the run with the given parts.
  ghost predicate RunOf<L(!new), K(!new)>(c: I.SplitBuild<L>, x: Operands<L, K>, b: PairBuild<L>, s: State, ts: Path<L>,
                                          s1: State, us: Path<L>, s2: State, vs: Path<L>) {
    && Accepting(b.aut, s, ts)
    && LeftStart(b, s) == s1 && LeftPart(x, b, ts) == us
    && RightStart(c, b, s) == s2 && RightRun(c, x, b, ts) == vs
  }

  // The pair of two initial states.
  lemma BeginPair<L(!new), K(!new)>(rhs: Weighted<L, K>, c: I.SplitBuild<L>, x: Operands<L, K>, b: PairBuild<L>,
                                    s1: State, s2: State) returns (p: Pair)
    requires Conjoined(rhs, c, x, b) && InitialPair(Original(rhs, x), (s1, s2))
    ensures p.0 == s1 && (s2, false) in c.left && p.1 == c.left[(s2, false)] && p.1 in c.aut.initial && p.1 in c.right
    ensures p in b.left && b.left[p] in b.aut.initial && ProperIn(x.Right(), x.one, p.1)
  {
    var n := (s2, false);
    assert n in c.left && c.left[n] in c.aut.initial;
    p := (s1, c.left[n]);
    NamedState(c, n);
    SplitStates(rhs, c, x, b, p.1);
    assert InitialPair(x, p);
    I.BuiltSplit(rhs.Support(), x.one, c);
    assert p.1 in c.aut.states;
  }

  lemma JoinableEnds<L(!new), K(!new)>(o: Operands<L, K>, s1: State, us: Path<L>, s2: State, vs: Path<L>)
    returns (d1: State, d2: State)
    requires Joinable(o, s1, us, s2, vs)
    ensures d1 in o.Left().final && IsPath(o.Left(), s1, us, d1)
    ensures IsPath(o.Right(), s2, vs, d2) && FinalPair(o, (d1, d2))
  {
    d1 :| d1 in o.Left().final && IsPath(o.Left(), s1, us, d1);
    d2 :| d2 in o.Right().final && IsPath(o.Right(), s2, vs, d2);
    PathEnd(o.Left(), s1, us, d1);
    PathEnd(o.Right(), s2, vs, d2);
  }

  // The path of the insplit automaton for a path of the right operand.
  lemma SplitRun<L(!new), K(!new)>(rhs: Weighted<L, K>, c: I.SplitBuild<L>, x: Operands<L, K>, b: PairBuild<L>,
                                   us: Path<L>, s2: State, vs: Path<L>, d2: State)
    returns (ws: Path<L>, m: I.Name)
    requires Conjoined(rhs, c, x, b) && (s2, false) in c.left && IsPath(rhs.Support(), s2, vs, d2)
    ensures m in c.left && m.0 == d2 && IsPath(c.aut, c.left[(s2, false)], ws, c.left[m]) && Unsplit(c, ws) == vs
    ensures Letters(x.one, ws) == Letters(x.one, vs)
    ensures Compatible(x, us, ws) <==> Compatible(Original(rhs, x), us, vs)
  {
    var s := c.left[(s2, false)];
    ws, m := SplitPath(rhs.Support(), x.one, c, (s2, false), vs, d2);
    UnsplitPath(rhs.Support(), x.one, c, s, ws, c.left[m]);
    CompatibleUnsplit(rhs, c, x, b, us, s, ws, c.left[m]);
  }

  // Each such pair of runs is a run of the conjunction.
  lemma PairIsRun<L(!new), K(!new)>(rhs: Weighted<L, K>, c: I.SplitBuild<L>, x: Operands<L, K>, b: PairBuild<L>,
                                    s1: State, us: Path<L>, s2: State, vs: Path<L>)
    returns (s: State, ts: Path<L>)
    requires Conjoined(rhs, c, x, b) && Joinable(Original(rhs, x), s1, us, s2, vs)
    ensures RunOf(c, x, b, s, ts, s1, us, s2, vs)
  {
    ConjoinedBuilt(rhs, c, x, b);
    var d1, d2 := JoinableEnds(Original(rhs, x), s1, us, s2, vs);
    var p := BeginPair(rhs, c, x, b, s1, s2);
    var ws, m := SplitRun(rhs, c, x, b, us, s2, vs, d2);
    var q := (d1, c.left[m]);
    ts := JoinPaths(x, b, p, us, ws, q);
    s := b.left[p];
    JoinedAccepts(rhs, c, x, b, p, (s2, false), us, ws, ts, q, m);
  }

  lemma JoinedAccepts<L(!new), K(!new)>(rhs: Weighted<L, K>, c: I.SplitBuild<L>, x: Operands<L, K>, b: PairBuild<L>,
                                        p: Pair, n: I.Name, us: Path<L>, ws: Path<L>, ts: Path<L>, q: Pair, m: I.Name)
    requires Conjoined(rhs, c, x, b) && p in b.left && n in c.left && p.1 == c.left[n] && b.left[p] in b.aut.initial
    requires q in b.left && m in c.left && q.1 == c.left[m] && FinalPair(Original(rhs, x), (q.0, m.0))
    requires Joins(x, b, b.left[p], us, ws, ts, b.left[q])
    ensures RunOf(c, x, b, b.left[p], ts, p.0, us, n.0, Unsplit(c, ws))
  {
    NamedRuns(rhs, c, x, b, p, n);
    NamedFinal(rhs, c, x, b, q, m);
    MakeRunOf(c, x, b, b.left[p], us, ws, ts, b.left[q]);
  }

  lemma MakeRunOf<L(!new), K(!new)>(c: I.SplitBuild<L>, x: Operands<L, K>, b: PairBuild<L>, s: State, us: Path<L>,
                                    ws: Path<L>, ts: Path<L>, d: State)
    requires s in b.aut.initial && d in b.aut.final && Joins(x, b, s, us, ws, ts, d)
    ensures RunOf(c, x, b, s, ts, LeftStart(b, s), us, RightStart(c, b, s), Unsplit(c, ws))
  {
  }

  lemma NamedFinal<L(!new), K(!new)>(rhs: Weighted<L, K>, c: I.SplitBuild<L>, x: Operands<L, K>, b: PairBuild<L>,
                                     q: Pair, m: I.Name)
    requires Conjoined(rhs, c, x, b) && q in b.left && m in c.left && q.1 == c.left[m]
    requires FinalPair(Original(rhs, x), (q.0, m.0))
    ensures b.left[q] in b.aut.final
  {
    NamedRuns(rhs, c, x, b, q, m);
    Ends(rhs, c, x, b, b.left[q]);
  }

  lemma NamedRuns<L(!new), K(!new)>(rhs: Weighted<L, K>, c: I.SplitBuild<L>, x: Operands<L, K>, b: PairBuild<L>,
                                    p: Pair, n: I.Name)
    requires Conjoined(rhs, c, x, b) && p in b.left && n in c.left && p.1 == c.left[n]
    ensures b.left[p] in b.right && LeftStart(b, b.left[p]) == p.0 && RightStart(c, b, b.left[p]) == n.0
  {
    NamedState(b, p);
    NamedState(c, n);
  }

  lemma SameInitial<L(!new), K(!new)>(rhs: Weighted<L, K>, c: I.SplitBuild<L>, x: Operands<L, K>, b: PairBuild<L>,
                                      s: State, s': State)
    requires Conjoined(rhs, c, x, b) && s in b.aut.initial && s' in b.aut.initial
    requires LeftStart(b, s) == LeftStart(b, s') && RightStart(c, b, s) == RightStart(c, b, s')
    ensures s == s'
  {
    Begins(rhs, c, x, b, s);
    Begins(rhs, c, x, b, s');
    PairStates(rhs, c, x, b, s);
    PairStates(rhs, c, x, b, s');
    var e, e' := b.right[s].1, b.right[s'].1;
    assert e in c.aut.initial && e' in c.aut.initial by {
      assert InitialPair(x, b.right[s]) && InitialPair(x, b.right[s']);
    }
    assert Consistent(c);
    assert c.left[c.right[e]] == e && c.left[c.right[e']] == e';
    assert c.right[e] == c.right[e'];
  }

  // Two runs of the conjunction do not have the same parts: no path is
  // redundant.
  lemma PairIsOneRun<L(!new), K(!new)>(rhs: Weighted<L, K>, c: I.SplitBuild<L>, x: Operands<L, K>, b: PairBuild<L>,
                                       s: State, ts: Path<L>, s': State, ts': Path<L>,
                                       s1: State, us: Path<L>, s2: State, vs: Path<L>)
    requires Conjoined(rhs, c, x, b)
    requires RunOf(c, x, b, s, ts, s1, us, s2, vs) && RunOf(c, x, b, s', ts', s1, us, s2, vs)
    ensures s == s' && ts == ts'
  {
    SameInitial(rhs, c, x, b, s, s');
    SameAccepted(rhs, c, x, b, s, ts, ts');
  }

  lemma SameAccepted<L(!new), K(!new)>(rhs: Weighted<L, K>, c: I.SplitBuild<L>, x: Operands<L, K>, b: PairBuild<L>,
                                       s: State, ts: Path<L>, ts': Path<L>)
    requires Conjoined(rhs, c, x, b) && Accepting(b.aut, s, ts) && Accepting(b.aut, s, ts')
    requires LeftPart(x, b, ts) == LeftPart(x, b, ts') && RightRun(c, x, b, ts) == RightRun(c, x, b, ts')
    ensures ts == ts'
  {
    var d :| d in b.aut.final && IsPath(b.aut, s, ts, d);
    var d' :| d' in b.aut.final && IsPath(b.aut, s, ts', d');
    SamePath(rhs, c, x, b, s, ts, d, ts', d');
  }

  lemma SamePath<L(!new), K(!new)>(rhs: Weighted<L, K>, c: I.SplitBuild<L>, x: Operands<L, K>, b: PairBuild<L>,
                                   s: State, ts: Path<L>, d: State, ts': Path<L>, d': State)
    requires Conjoined(rhs, c, x, b) && IsPath(b.aut, s, ts, d) && IsPath(b.aut, s, ts', d')
    requires LeftPart(x, b, ts) == LeftPart(x, b, ts') && RightRun(c, x, b, ts) == RightRun(c, x, b, ts')
    ensures ts == ts'
  {
    ConjoinedBuilt(rhs, c, x, b);
    PathParts(x, b, s, ts, d);
    PathParts(x, b, s, ts', d');
    UnsplitTellsPath(rhs.Support(), x.one, c, PairOf(b, s).1, RightPart(x, b, ts), PairOf(b, d).1,
                     RightPart(x, b, ts'), PairOf(b, d').1);
    PartsTellPath(x, b, s, ts, d, ts', d');
  }
}
