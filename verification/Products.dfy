// The conjunction of two automata, the second one being insplit if it has
// spontaneous transitions (vcsn/algos/conjunction.hh).
module Products {
  import opened Wrappers
  import opened BoolAutomata
  import opened NamedAutomata
  import opened Spontaneous
  import opened WeightedAutomata
  import opened WeightedBuilds
  import W = AllDistances

  type Pair = (State, State)
  type PairBuild<L(==)> = Build<Pair, L>

  datatype Operands<L(==), !K> = Operands(
    lhs: Weighted<L, K>,
    rhs: Weighted<L, K>,
    one: Option<L>,
    weights: W.Semiring<K>)
  {
    function Left(): Automaton<L> {
      lhs.Support()
    }

    function Right(): Automaton<L> {
      rhs.Support()
    }

    // The weight of two transitions that are followed together.
    function Together(t: Transition<L>, u: Transition<L>): K {
      weights.mul(At(weights.zero, lhs.transitions, t), At(weights.zero, rhs.transitions, u))
    }

    function InitialWeight(p: Pair): K {
      weights.mul(At(weights.zero, lhs.initial, p.0), At(weights.zero, rhs.initial, p.1))
    }

    function FinalWeight(p: Pair): K {
      weights.mul(At(weights.zero, lhs.final, p.0), At(weights.zero, rhs.final, p.1))
    }
  }

  // ---------------------------------------------------------------------
  // Transitions of the product
  // ---------------------------------------------------------------------

  // Both automata read the letter.
  predicate Both<L, K(==)>(x: Operands<L, K>, p: Pair, l: L, q: Pair) {
    && !IsOne(x.one, l)
    && Transition(p.0, l, q.0) in x.lhs.transitions
    && Transition(p.1, l, q.1) in x.rhs.transitions
    && x.Together(Transition(p.0, l, q.0), Transition(p.1, l, q.1)) != x.weights.zero
  }

  // The left one moves alone, before the right one does.
  predicate LeftOnly<L, K>(x: Operands<L, K>, p: Pair, l: L, q: Pair) {
    && IsOne(x.one, l)
    && ProperIn(x.Right(), x.one, p.1)
    && q.1 == p.1 && Transition(p.0, l, q.0) in x.lhs.transitions
  }

  // The right one moves alone, when the left one can read afterwards.
  predicate RightOnly<L, K>(x: Operands<L, K>, p: Pair, l: L, q: Pair) {
    && IsOne(x.one, l)
    && ProperOut(x.Left(), x.one, p.0)
    && q.0 == p.0 && Transition(p.1, l, q.1) in x.rhs.transitions
  }

  predicate Arc<L, K(==)>(x: Operands<L, K>, p: Pair, l: L, q: Pair) {
    || Both(x, p, l, q)
    || LeftOnly(x, p, l, q)
    || RightOnly(x, p, l, q)
  }

  // The weight of an arc: that of its transition, or of both.
  function ArcWeight<L, K>(x: Operands<L, K>, p: Pair, l: L, q: Pair): K {
    if !IsOne(x.one, l) then x.Together(Transition(p.0, l, q.0), Transition(p.1, l, q.1))
    else if ProperIn(x.Right(), x.one, q.1) then At(x.weights.zero, x.lhs.transitions, Transition(p.0, l, q.0))
    else At(x.weights.zero, x.rhs.transitions, Transition(p.1, l, q.1))
  }

  ghost predicate FinalPair<L, K>(x: Operands<L, K>, p: Pair) {
    p.0 in x.lhs.final && p.1 in x.rhs.final && x.FinalWeight(p) != x.weights.zero
  }

  ghost predicate InitialPair<L, K>(x: Operands<L, K>, p: Pair) {
    p.0 in x.lhs.initial && p.1 in x.rhs.initial && x.InitialWeight(p) != x.weights.zero
  }

  ghost predicate LinksDone<L(!new), K(!new)>(x: Operands<L, K>, links: set<Link<Pair, L>>, finals: set<Pair>,
                                              processed: set<Pair>) {
    && (forall k <- links :: k.src in processed && Arc(x, k.src, k.lbl, k.dst))
    && (forall p, l, q | p in processed && Arc(x, p, l, q) :: Link(p, l, q) in links)
    && (forall p :: p in finals <==> p in processed && FinalPair(x, p))
  }

  // The pairs of states.
  ghost function Pairs<L, K>(x: Operands<L, K>): set<Pair> {
    set s <- x.lhs.states, t <- x.rhs.states :: (s, t)
  }

  // What is added from p, be its weight null: its destination gets a state.
  ghost predicate Tried<L, K>(x: Operands<L, K>, p: Pair, l: L, q: Pair) {
    || (!IsOne(x.one, l) && Transition(p.0, l, q.0) in x.lhs.transitions
          && Transition(p.1, l, q.1) in x.rhs.transitions)
    || LeftOnly(x, p, l, q)
    || RightOnly(x, p, l, q)
  }

  // The destinations of the transitions of T and U that match have states.
  ghost predicate OpenedPairs<L, K>(x: Operands<L, K>, T: set<Transition<L>>, U: set<Transition<L>>, names: set<Pair>) {
    forall t <- T, u <- U | t.lbl == u.lbl && !IsOne(x.one, t.lbl) :: (t.dst, u.dst) in names
  }

  // Said of what equals T, so as to be looked into only where needed.
  ghost predicate OpenedBoth<L(!new), K>(x: Operands<L, K>, T: set<Transition<L>>, U: set<Transition<L>>,
                                         names: set<Pair>) {
    forall S | S == T :: OpenedPairs(x, S, U, names)
  }

  lemma OpenedStays<L(!new), K>(x: Operands<L, K>, T: set<Transition<L>>, U: set<Transition<L>>, names: set<Pair>,
                                more: set<Pair>)
    requires OpenedBoth(x, T, U, names) && names <= more
    ensures OpenedBoth(x, T, U, more)
  {
    assert OpenedPairs(x, T, U, names);
    assert OpenedPairs(x, T, U, more);
  }

  lemma OpenedRight<L(!new), K>(x: Operands<L, K>, t: Transition<L>, U: set<Transition<L>>, names: set<Pair>,
                                u: Transition<L>, U': set<Transition<L>>, more: set<Pair>)
    requires OpenedBoth(x, {t}, U, names) && names <= more && U' == U + {u}
    requires t.lbl == u.lbl ==> (t.dst, u.dst) in more
    ensures OpenedBoth(x, {t}, U', more)
  {
    assert OpenedPairs(x, {t}, U, names);
    assert OpenedPairs(x, {t}, U', more);
  }

  lemma OpenedLeft<L(!new), K>(x: Operands<L, K>, T: set<Transition<L>>, U: set<Transition<L>>, names: set<Pair>,
                               t: Transition<L>, T': set<Transition<L>>, more: set<Pair>)
    requires OpenedBoth(x, T, U, names) && names <= more && T' == T + {t}
    requires IsOne(x.one, t.lbl) || OpenedBoth(x, {t}, U, more)
    ensures OpenedBoth(x, T', U, more)
  {
    assert OpenedPairs(x, T, U, names);
    assert IsOne(x.one, t.lbl) || OpenedPairs(x, {t}, U, more);
    assert OpenedPairs(x, T', U, more);
  }

  ghost predicate OpenedFrom<L(!new), K>(x: Operands<L, K>, p: Pair, names: set<Pair>) {
    forall l, q | Tried(x, p, l, q) :: q in names
  }

  // The pairs contain the pairs of initial states, and what is added from
  // any of them.
  ghost predicate ClosedPairs<L(!new), K>(x: Operands<L, K>, names: set<Pair>) {
    && (forall s <- x.lhs.initial, t <- x.rhs.initial :: (s, t) in names)
    && forall p <- names :: OpenedFrom(x, p, names)
  }

  // The pairs are in all closed sets: none is useless.
  ghost predicate NoOthers<L(!new), K(!new)>(x: Operands<L, K>, names: set<Pair>) {
    forall S | ClosedPairs(x, S) :: names <= S
  }

  lemma NoOthersMore<L(!new), K(!new)>(x: Operands<L, K>, names: set<Pair>, p: Pair, l: L, q: Pair)
    requires NoOthers(x, names) && p in names && Tried(x, p, l, q)
    ensures NoOthers(x, names + {q})
  {
    forall S | ClosedPairs(x, S)
      ensures names + {q} <= S
    {
      assert OpenedFrom(x, p, S);
    }
  }

  lemma NoOthersInitial<L(!new), K(!new)>(x: Operands<L, K>, names: set<Pair>, p: Pair)
    requires NoOthers(x, names) && p.0 in x.lhs.initial && p.1 in x.rhs.initial
    ensures NoOthers(x, names + {p})
  {
    forall S | ClosedPairs(x, S)
      ensures names + {p} <= S
    {
      assert (p.0, p.1) in S;
    }
  }

  lemma NoOthersInPairs<L(!new), K(!new)>(x: Operands<L, K>, names: set<Pair>)
    requires NoOthers(x, names) && x.Left().Valid() && x.Right().Valid()
    ensures names <= Pairs(x)
  {
    assert ClosedPairs(x, Pairs(x));
  }

  // The pairs of initial states have states, and so has what is added from
  // the processed pairs; nothing else has.
  ghost predicate Opened<L(!new), K(!new)>(x: Operands<L, K>, names: set<Pair>, processed: set<Pair>) {
    && NoOthers(x, names)
    && (forall s <- x.lhs.initial, t <- x.rhs.initial :: (s, t) in names)
    && forall p <- processed :: OpenedFrom(x, p, names)
  }

  lemma OpenedMore<L(!new), K(!new)>(x: Operands<L, K>, names: set<Pair>, processed: set<Pair>, p: Pair,
                                     more: set<Pair>)
    requires Opened(x, names, processed) && names <= more && NoOthers(x, more) && OpenedFrom(x, p, more)
    ensures Opened(x, more, processed + {p})
  {
  }

  // The initial states are the pairs of initial states.
  ghost predicate Starts<L, K>(x: Operands<L, K>, b: PairBuild<L>) {
    && (forall p | InitialPair(x, p) :: p in b.left && b.left[p] in b.aut.initial)
    && (forall i <- b.aut.initial :: i in b.right && InitialPair(x, b.right[i]))
  }

  ghost predicate Building<L(!new), K(!new)>(x: Operands<L, K>, b: PairBuild<L>) {
    && Sound(b)
    && LinksDone(x, b.links, b.finals, b.processed)
    && Opened(x, b.left.Keys, b.processed)
    && Starts(x, b)
  }

  // ---------------------------------------------------------------------
  // The weights of the product
  // ---------------------------------------------------------------------

  function PairWeights<L, K>(x: Operands<L, K>): Weighing<Pair, L, K> {
    Weighing((p: Pair) => x.InitialWeight(p), (p: Pair) => x.FinalWeight(p),
             (p: Pair, l: L, q: Pair) => ArcWeight(x, p, l, q))
  }

  // ---------------------------------------------------------------------
  // The arcs from a pair, by kind
  // ---------------------------------------------------------------------

  predicate Matches<L, K(==)>(x: Operands<L, K>, t: Transition<L>, u: Transition<L>) {
    t.lbl == u.lbl && x.Together(t, u) != x.weights.zero
  }

  // The arcs for the transition t, and those of done in rhs.
  ghost function BothArcsOf<L, K>(x: Operands<L, K>, p: Pair, t: Transition<L>, done: set<Transition<L>>)
    : set<Link<Pair, L>>
  {
    set u <- done | Matches(x, t, u) && !IsOne(x.one, t.lbl) :: Link(p, t.lbl, (t.dst, u.dst))
  }

  // The arcs for the transitions of done, and all those of rhs.
  ghost function BothArcs<L, K>(x: Operands<L, K>, p: Pair, done: set<Transition<L>>): set<Link<Pair, L>> {
    set t <- done, u <- Out(x.Right(), p.1) | Matches(x, t, u) && !IsOne(x.one, t.lbl) :: Link(p, t.lbl, (t.dst, u.dst))
  }

  ghost function LeftArcs<L>(one: Option<L>, p: Pair, done: set<Transition<L>>): set<Link<Pair, L>> {
    set t <- done | IsOne(one, t.lbl) :: Link(p, t.lbl, (t.dst, p.1))
  }

  ghost function RightArcs<L>(one: Option<L>, p: Pair, done: set<Transition<L>>): set<Link<Pair, L>> {
    set u <- done | IsOne(one, u.lbl) :: Link(p, u.lbl, (p.0, u.dst))
  }

  lemma ArcsFrom<L(!new), K(!new)>(x: Operands<L, K>, p: Pair, k: Link<Pair, L>)
    requires k.src == p
    ensures k in BothArcs(x, p, Out(x.Left(), p.0)) <==> Both(x, p, k.lbl, k.dst)
    ensures ProperIn(x.Right(), x.one, p.1) ==>
              (k in LeftArcs(x.one, p, Out(x.Left(), p.0)) <==> LeftOnly(x, p, k.lbl, k.dst))
    ensures ProperOut(x.Left(), x.one, p.0) ==>
              (k in RightArcs(x.one, p, Out(x.Right(), p.1)) <==> RightOnly(x, p, k.lbl, k.dst))
  {
    var t, u := Transition(p.0, k.lbl, k.dst.0), Transition(p.1, k.lbl, k.dst.1);
    if Both(x, p, k.lbl, k.dst) {
      assert t in Out(x.Left(), p.0) && u in Out(x.Right(), p.1) && Matches(x, t, u);
    }
    if ProperIn(x.Right(), x.one, p.1) && LeftOnly(x, p, k.lbl, k.dst) {
      assert t in Out(x.Left(), p.0);
    }
    if ProperOut(x.Left(), x.one, p.0) && RightOnly(x, p, k.lbl, k.dst) {
      assert u in Out(x.Right(), p.1);
    }
  }

  ghost function AllArcs<L, K>(x: Operands<L, K>, p: Pair): set<Link<Pair, L>> {
    BothArcs(x, p, Out(x.Left(), p.0)) + AloneArcs(x, p)
  }

  ghost function AloneArcs<L, K>(x: Operands<L, K>, p: Pair): set<Link<Pair, L>> {
    (if ProperIn(x.Right(), x.one, p.1) then LeftArcs(x.one, p, Out(x.Left(), p.0)) else {})
    + (if ProperOut(x.Left(), x.one, p.0) then RightArcs(x.one, p, Out(x.Right(), p.1)) else {})
  }

  lemma LinksDoneMore<L(!new), K(!new)>(x: Operands<L, K>, links: set<Link<Pair, L>>, finals: set<Pair>,
                                        processed: set<Pair>, p: Pair)
    requires LinksDone(x, links, finals, processed) && p !in processed
    ensures LinksDone(x, links + AllArcs(x, p), if FinalPair(x, p) then finals + {p} else finals, processed + {p})
  {
    forall k: Link<Pair, L>
      ensures k in AllArcs(x, p) <==> k.src == p && Arc(x, p, k.lbl, k.dst)
    {
      if k.src == p {
        ArcsFrom(x, p, k);
      }
    }
  }

  // Whether s has only proper incoming transitions: checking any of them
  // suffices when the automaton is split.
  method IsProperIn<L(==)>(a: Automaton<L>, one: Option<L>, s: State) returns (r: bool)
    requires Split(a, one) && s in a.states
    ensures r <==> ProperIn(a, one, s)
  {
    if s in a.initial {
      return true;
    }
    var into := set t <- a.transitions | t.dst == s;
    if into == {} {
      forall t <- a.transitions
        ensures t.dst != s
      {
        assert t.dst == s ==> t in into;
      }
      return true;
    }
    var t :| t in into;
    assert t in a.transitions && t.dst == s;
    r := !IsOne(one, t.lbl);
  }

  // ---------------------------------------------------------------------
  // Construction
  // ---------------------------------------------------------------------

  ghost predicate Suitable<L(!new), K(!new)>(x: Operands<L, K>) {
    && x.lhs.Valid(x.weights.zero) && x.rhs.Valid(x.weights.zero)
    && Split(x.Right(), x.one)
    && W.Laws(x.weights)
  }

  class Product<L(==, !new), K(==, !new)> {
    const x: Operands<L, K>
    const aut: WeightedBuild<Pair, L, K>

    constructor (lhs: Weighted<L, K>, rhs: Weighted<L, K>, one: Option<L>, weights: W.Semiring<K>)
      ensures fresh(aut) && fresh(aut.named) && x == Operands(lhs, rhs, one, weights)
      ensures Begun()
    {
      x := Operands(lhs, rhs, one, weights);
      aut := new WeightedBuild(weights.zero, PairWeights(Operands(lhs, rhs, one, weights)));
    }

    // The product is about to be built.
    ghost predicate Begun()
      reads aut, aut.named
    {
      Fits() && aut.named.Snapshot() == Start()
    }

    ghost predicate Fits()
      reads aut, aut.named
    {
      aut.Valid() && aut.zero == x.weights.zero && aut.weighing == PairWeights(x)
    }

    // Said of what equals the operands, so as to be looked into only where
    // needed.
    ghost predicate Inputs() {
      forall y | y == x :: Suitable(y)
    }

    // What each step keeps.
    ghost predicate Ready()
      reads aut, aut.named
    {
      Inputs() && Fits() && NoOthers(x, aut.named.left.Keys)
    }

    // Explore the pairs from the initial ones.
    method Conjunction()
      requires Inputs() && Begun()
      modifies aut, aut.named
      ensures Building(x, aut.named.Snapshot()) && aut.named.todo == []
      ensures WellWeighed(PairWeights(x), aut.named.Snapshot(), aut.Result())
    {
      Initialize();
      while aut.named.todo != []
        invariant Ready() && Building(x, aut.named.Snapshot())
        decreases Pairs(x) - aut.named.processed
      {
        Within(aut.named.Snapshot());
        TakeSound(aut.named.Snapshot(), 0);
        ghost var before, processed := aut.named.Snapshot(), aut.named.processed;
        var src, psrc := aut.PopFront();
        AddTransitions(src, psrc);
        OpenedMore(x, before.left.Keys, processed, psrc, aut.named.left.Keys);
        StartsGrow(before, aut.named.Snapshot());
      }
    }

    lemma Within(b: PairBuild<L>)
      requires Inputs() && Building(x, b)
      ensures b.left.Keys <= Pairs(x)
    {
      assert Suitable(x);
      NoOthersInPairs(x, b.left.Keys);
    }

    lemma StartsGrow(b: PairBuild<L>, c: PairBuild<L>)
      requires Starts(x, b) && Sound(b) && Sound(c)
      requires b.left.Keys <= c.left.Keys && (forall n <- b.left :: c.left[n] == b.left[n])
                 && c.aut.initial == b.aut.initial
      ensures Starts(x, c)
    {
      NamesStay(b, c);
    }

    // The initial states: transitions from pre are followed together.
    method Initialize()
      requires Inputs() && Begun()
      modifies aut, aut.named
      ensures Ready() && Building(x, aut.named.Snapshot())
    {
      var all := set s <- x.lhs.initial, t <- x.rhs.initial :: (s, t);
      var todo := all;
      while todo != {}
        invariant todo <= all && Ready()
        invariant aut.named.links == {} && aut.named.finals == {} && aut.named.processed == {}
        invariant Begins(aut.named.Snapshot(), all - todo)
        decreases todo
      {
        var p :| p in todo;
        BeginsMore(aut.named.Snapshot(), p, all - todo);
        NoOthersInitial(x, aut.named.left.Keys, p);
        assert all - todo + {p} == all - (todo - {p});
        aut.SetInitial(p, x.InitialWeight(p));
        todo := todo - {p};
      }
      BeginsAll(aut.named.Snapshot(), all - todo);
    }

    ghost predicate StartsDone(b: PairBuild<L>, done: set<Pair>) {
      && done <= b.left.Keys
      && (forall p <- done | InitialPair(x, p) :: b.left[p] in b.aut.initial)
      && (forall i <- b.aut.initial :: i in b.right && InitialPair(x, b.right[i]))
    }

    // Said of what equals b, so as to be looked into only where needed.
    ghost predicate Begins(b: PairBuild<L>, done: set<Pair>) {
      forall c | c == b :: StartsDone(c, done)
    }

    lemma BeginsMore(b: PairBuild<L>, p: Pair, done: set<Pair>)
      requires Inputs() && Sound(b) && Begins(b, done) && p.0 in x.lhs.initial && p.1 in x.rhs.initial
      ensures var c := Started(b, p, x.InitialWeight(p) != x.weights.zero);
              Sound(c) && Begins(c, done + {p}) && c.left.Keys == b.left.Keys + {p}
    {
      assert Suitable(x);
      assert StartsDone(b, done);
      InitializeSound(b, p);
      GetSound(b, p);
      NamesStay(b, Get(b, p));
      NamedState(Get(b, p), p);
    }

    lemma BeginsAll(b: PairBuild<L>, all: set<Pair>)
      requires Sound(b) && Begins(b, all) && forall s <- x.lhs.initial, t <- x.rhs.initial :: (s, t) in all
      requires b.links == {} && b.finals == {} && b.processed == {} && NoOthers(x, b.left.Keys)
      ensures Building(x, b)
    {
      assert StartsDone(b, all);
    }

    // A null factor makes the final weight null.
    lemma FinalWhenNotNull(p: Pair)
      requires Inputs()
      ensures FinalPair(x, p) <==> x.FinalWeight(p) != x.weights.zero
    {
      assert Suitable(x);
      W.NullProduct(x.weights, At(x.weights.zero, x.lhs.final, p.0));
      W.NullProduct(x.weights, At(x.weights.zero, x.rhs.final, p.1));
    }

    // Add the transitions from the state src, named psrc.
    method AddTransitions(src: State, psrc: Pair)
      requires Ready() && psrc in aut.named.left && src == aut.named.left[psrc] && psrc in aut.named.processed
      requires LinksDone(x, aut.named.links, aut.named.finals, aut.named.processed - {psrc})
      modifies aut, aut.named
      ensures Ready() && LinksDone(x, aut.named.links, aut.named.finals, aut.named.processed)
      ensures OpenedFrom(x, psrc, aut.named.left.Keys)
      ensures Grows(old(aut.named.Snapshot()), aut.named.Snapshot().(finals := old(aut.named.finals)))
    {
      LinksDoneMore(x, aut.named.links, aut.named.finals, aut.named.processed - {psrc}, psrc);
      AddArcs(src, psrc);
      assert aut.named.processed - {psrc} + {psrc} == aut.named.processed;
      FinalWhenNotNull(psrc);
      aut.SetFinal(src, psrc, x.FinalWeight(psrc));
    }

    method AddArcs(src: State, psrc: Pair)
      requires Ready() && psrc in aut.named.left && src == aut.named.left[psrc]
      requires forall k <- aut.named.links :: k.src != psrc
      modifies aut, aut.named
      ensures Ready() && Grows(old(aut.named.Snapshot()), aut.named.Snapshot())
      ensures aut.named.links == old(aut.named.links) + AllArcs(x, psrc)
      ensures OpenedFrom(x, psrc, aut.named.left.Keys)
    {
      AddBoth(src, psrc);
      ghost var names := aut.named.left.Keys;
      AddAlone(src, psrc);
      OpenedStays(x, Out(x.Left(), psrc.0), Out(x.Right(), psrc.1), names, aut.named.left.Keys);
      ArcsOpened(psrc, aut.named.Snapshot());
    }

    // What is linked has a state.
    lemma ArcsOpened(p: Pair, b: PairBuild<L>)
      requires Sound(b) && AloneArcs(x, p) <= b.links
      requires OpenedBoth(x, Out(x.Left(), p.0), Out(x.Right(), p.1), b.left.Keys)
      ensures OpenedFrom(x, p, b.left.Keys)
    {
      assert Consistent(b);
      assert OpenedPairs(x, Out(x.Left(), p.0), Out(x.Right(), p.1), b.left.Keys);
      forall l, q | Tried(x, p, l, q)
        ensures q in b.left.Keys
      {
        var t, u := Transition(p.0, l, q.0), Transition(p.1, l, q.1);
        if !IsOne(x.one, l) {
          assert t in Out(x.Left(), p.0) && u in Out(x.Right(), p.1) && (t.dst, u.dst) == q;
        } else {
          ArcsFrom(x, p, Link(p, l, q));
          assert Link(p, l, q) in b.links;
        }
      }
    }

    // The spontaneous transitions.
    method AddAlone(src: State, psrc: Pair)
      requires Ready() && psrc in aut.named.left && src == aut.named.left[psrc]
      requires forall k <- aut.named.links :: k.src != psrc || !IsOne(x.one, k.lbl)
      modifies aut, aut.named
      ensures Ready() && Grows(old(aut.named.Snapshot()), aut.named.Snapshot())
      ensures aut.named.links == old(aut.named.links) + AloneArcs(x, psrc)
    {
      assert Suitable(x);
      NoOthersInPairs(x, aut.named.left.Keys);
      var properIn := IsProperIn(x.Right(), x.one, psrc.1);
      if properIn {
        AddLeft(src, psrc);
      }
      if ProperOut(x.Left(), x.one, psrc.0) {
        AddRight(src, psrc);
      }
    }

    // The proper transitions.
    method AddBoth(src: State, psrc: Pair)
      requires Ready() && psrc in aut.named.left && src == aut.named.left[psrc]
      requires forall k <- aut.named.links :: k.src != psrc
      modifies aut, aut.named
      ensures Ready() && Grows(old(aut.named.Snapshot()), aut.named.Snapshot())
      ensures aut.named.links == old(aut.named.links) + BothArcs(x, psrc, Out(x.Left(), psrc.0))
      ensures OpenedBoth(x, Out(x.Left(), psrc.0), Out(x.Right(), psrc.1), aut.named.left.Keys)
    {
      var todo := Out(x.Left(), psrc.0);
      while todo != {}
        invariant todo <= Out(x.Left(), psrc.0)
        invariant Ready() && Grows(old(aut.named.Snapshot()), aut.named.Snapshot())
        invariant aut.named.links == old(aut.named.links) + BothArcs(x, psrc, Out(x.Left(), psrc.0) - todo)
        invariant OpenedBoth(x, Out(x.Left(), psrc.0) - todo, Out(x.Right(), psrc.1), aut.named.left.Keys)
        decreases todo
      {
        var t :| t in todo;
        NotReadYet(psrc, todo, t);
        ghost var names := aut.named.left.Keys;
        if !IsOne(x.one, t.lbl) {
          AddBothOf(src, psrc, t);
        }
        BothArcsMore(psrc, todo, t);
        OpenedLeft(x, Out(x.Left(), psrc.0) - todo, Out(x.Right(), psrc.1), names, t,
                   Out(x.Left(), psrc.0) - (todo - {t}), aut.named.left.Keys);
        todo := todo - {t};
      }
      assert Out(x.Left(), psrc.0) - {} == Out(x.Left(), psrc.0);
    }

    // The left destination and the label are those of one transition.
    lemma NotReadYet(p: Pair, todo: set<Transition<L>>, t: Transition<L>)
      requires t in todo && todo <= Out(x.Left(), p.0)
      ensures forall k <- BothArcs(x, p, Out(x.Left(), p.0) - todo) :: k.lbl != t.lbl || k.dst.0 != t.dst
    {
    }

    lemma BothArcsMore(p: Pair, todo: set<Transition<L>>, t: Transition<L>)
      requires t in todo && todo <= Out(x.Left(), p.0)
      ensures BothArcs(x, p, Out(x.Left(), p.0) - (todo - {t}))
              == BothArcs(x, p, Out(x.Left(), p.0) - todo) + BothArcsOf(x, p, t, Out(x.Right(), p.1))
      ensures IsOne(x.one, t.lbl) ==> BothArcsOf(x, p, t, Out(x.Right(), p.1)) == {}
    {
      assert Out(x.Left(), p.0) - (todo - {t}) == (Out(x.Left(), p.0) - todo) + {t};
    }

    method AddBothOf(src: State, psrc: Pair, t: Transition<L>)
      requires Ready() && psrc in aut.named.left && src == aut.named.left[psrc]
      requires t in Out(x.Left(), psrc.0) && !IsOne(x.one, t.lbl)
      requires forall k <- aut.named.links :: k.src != psrc || k.lbl != t.lbl || k.dst.0 != t.dst
      modifies aut, aut.named
      ensures Ready() && Grows(old(aut.named.Snapshot()), aut.named.Snapshot())
      ensures aut.named.links == old(aut.named.links) + BothArcsOf(x, psrc, t, Out(x.Right(), psrc.1))
      ensures OpenedBoth(x, {t}, Out(x.Right(), psrc.1), aut.named.left.Keys)
    {
      var todo := Out(x.Right(), psrc.1);
      while todo != {}
        invariant todo <= Out(x.Right(), psrc.1)
        invariant Ready() && Grows(old(aut.named.Snapshot()), aut.named.Snapshot())
        invariant aut.named.links == old(aut.named.links) + BothArcsOf(x, psrc, t, Out(x.Right(), psrc.1) - todo)
        invariant OpenedBoth(x, {t}, Out(x.Right(), psrc.1) - todo, aut.named.left.Keys)
        decreases todo
      {
        var u :| u in todo;
        BothArcsOfMore(psrc, t, todo, u, aut.named.left.Keys);
        ghost var names := aut.named.left.Keys;
        if u.lbl == t.lbl {
          aut.NewTransition(src, psrc, t.lbl, (t.dst, u.dst), x.Together(t, u));
        }
        OpenedRight(x, t, Out(x.Right(), psrc.1) - todo, names, u, Out(x.Right(), psrc.1) - (todo - {u}),
                    aut.named.left.Keys);
        todo := todo - {u};
      }
      assert Out(x.Right(), psrc.1) - {} == Out(x.Right(), psrc.1);
    }

    // The arc of t and u is a new one.
    lemma BothArcsOfMore(p: Pair, t: Transition<L>, todo: set<Transition<L>>, u: Transition<L>, names: set<Pair>)
      requires NoOthers(x, names) && p in names
      requires Inputs() && t in Out(x.Left(), p.0) && u in todo && todo <= Out(x.Right(), p.1) && !IsOne(x.one, t.lbl)
      ensures BothArcsOf(x, p, t, Out(x.Right(), p.1) - (todo - {u}))
              == BothArcsOf(x, p, t, Out(x.Right(), p.1) - todo)
                 + if Matches(x, t, u) then {Link(p, t.lbl, (t.dst, u.dst))} else {}
      ensures u.lbl == t.lbl ==> Link(p, t.lbl, (t.dst, u.dst)) !in BothArcsOf(x, p, t, Out(x.Right(), p.1) - todo)
      ensures u.lbl == t.lbl ==> ArcWeight(x, p, t.lbl, (t.dst, u.dst)) == x.Together(t, u)
      ensures u.lbl == t.lbl ==> NoOthers(x, names + {(t.dst, u.dst)})
    {
      assert Suitable(x);
      if u.lbl == t.lbl {
        NoOthersMore(x, names, p, t.lbl, (t.dst, u.dst));
      }
      assert Out(x.Right(), p.1) - (todo - {u}) == (Out(x.Right(), p.1) - todo) + {u};
    }

    // The spontaneous transitions of the left automaton.
    method AddLeft(src: State, psrc: Pair)
      requires Ready() && psrc in aut.named.left && src == aut.named.left[psrc] && ProperIn(x.Right(), x.one, psrc.1)
      requires forall k <- aut.named.links :: k.src != psrc || !IsOne(x.one, k.lbl)
      modifies aut, aut.named
      ensures Ready() && Grows(old(aut.named.Snapshot()), aut.named.Snapshot())
      ensures aut.named.links == old(aut.named.links) + LeftArcs(x.one, psrc, Out(x.Left(), psrc.0))
    {
      var todo := Out(x.Left(), psrc.0);
      while todo != {}
        invariant todo <= Out(x.Left(), psrc.0)
        invariant Ready() && Grows(old(aut.named.Snapshot()), aut.named.Snapshot())
        invariant aut.named.links == old(aut.named.links) + LeftArcs(x.one, psrc, Out(x.Left(), psrc.0) - todo)
        decreases todo
      {
        var t :| t in todo;
        LeftArcsMore(psrc, todo, t, aut.named.left.Keys);
        if IsOne(x.one, t.lbl) {
          aut.NewTransition(src, psrc, t.lbl, (t.dst, psrc.1), x.lhs.transitions[t]);
        }
        todo := todo - {t};
      }
      assert Out(x.Left(), psrc.0) - {} == Out(x.Left(), psrc.0);
    }

    lemma LeftArcsMore(p: Pair, todo: set<Transition<L>>, t: Transition<L>, names: set<Pair>)
      requires NoOthers(x, names) && p in names
      requires Inputs() && t in todo && todo <= Out(x.Left(), p.0) && ProperIn(x.Right(), x.one, p.1)
      ensures LeftArcs(x.one, p, Out(x.Left(), p.0) - (todo - {t}))
              == LeftArcs(x.one, p, Out(x.Left(), p.0) - todo)
                 + if IsOne(x.one, t.lbl) then {Link(p, t.lbl, (t.dst, p.1))} else {}
      ensures Link(p, t.lbl, (t.dst, p.1)) !in LeftArcs(x.one, p, Out(x.Left(), p.0) - todo)
      ensures IsOne(x.one, t.lbl) ==> ArcWeight(x, p, t.lbl, (t.dst, p.1)) == x.lhs.transitions[t] != x.weights.zero
      ensures IsOne(x.one, t.lbl) ==> NoOthers(x, names + {(t.dst, p.1)})
    {
      assert Suitable(x);
      if IsOne(x.one, t.lbl) {
        NoOthersMore(x, names, p, t.lbl, (t.dst, p.1));
      }
      assert Out(x.Left(), p.0) - (todo - {t}) == (Out(x.Left(), p.0) - todo) + {t};
    }

    // The spontaneous transitions of the right automaton.
    method AddRight(src: State, psrc: Pair)
      requires Ready() && psrc in aut.named.left && src == aut.named.left[psrc] && ProperOut(x.Left(), x.one, psrc.0)
      requires forall k <- aut.named.links ::
                 k.src != psrc || !IsOne(x.one, k.lbl) || (k.dst.1 == psrc.1 && ProperIn(x.Right(), x.one, psrc.1))
      modifies aut, aut.named
      ensures Ready() && Grows(old(aut.named.Snapshot()), aut.named.Snapshot())
      ensures aut.named.links == old(aut.named.links) + RightArcs(x.one, psrc, Out(x.Right(), psrc.1))
    {
      var todo := Out(x.Right(), psrc.1);
      while todo != {}
        invariant todo <= Out(x.Right(), psrc.1)
        invariant Ready() && Grows(old(aut.named.Snapshot()), aut.named.Snapshot())
        invariant aut.named.links == old(aut.named.links) + RightArcs(x.one, psrc, Out(x.Right(), psrc.1) - todo)
        decreases todo
      {
        var u :| u in todo;
        RightArcsMore(psrc, todo, u, aut.named.left.Keys);
        if IsOne(x.one, u.lbl) {
          aut.NewTransition(src, psrc, u.lbl, (psrc.0, u.dst), x.rhs.transitions[u]);
        }
        todo := todo - {u};
      }
      assert Out(x.Right(), psrc.1) - {} == Out(x.Right(), psrc.1);
    }

    // A spontaneous transition of the right automaton leads to a state that is
    // not proper: the left one does not add the same arc.
    lemma RightArcsMore(p: Pair, todo: set<Transition<L>>, u: Transition<L>, names: set<Pair>)
      requires NoOthers(x, names) && p in names && ProperOut(x.Left(), x.one, p.0)
      requires Inputs() && u in todo && todo <= Out(x.Right(), p.1)
      ensures RightArcs(x.one, p, Out(x.Right(), p.1) - (todo - {u}))
              == RightArcs(x.one, p, Out(x.Right(), p.1) - todo)
                 + if IsOne(x.one, u.lbl) then {Link(p, u.lbl, (p.0, u.dst))} else {}
      ensures Link(p, u.lbl, (p.0, u.dst)) !in RightArcs(x.one, p, Out(x.Right(), p.1) - todo)
      ensures IsOne(x.one, u.lbl) ==>
                !ProperIn(x.Right(), x.one, u.dst)
                      && ArcWeight(x, p, u.lbl, (p.0, u.dst)) == x.rhs.transitions[u] != x.weights.zero
      ensures IsOne(x.one, u.lbl) ==> NoOthers(x, names + {(p.0, u.dst)})
    {
      assert Suitable(x);
      if IsOne(x.one, u.lbl) {
        NoOthersMore(x, names, p, u.lbl, (p.0, u.dst));
      }
      assert Out(x.Right(), p.1) - (todo - {u}) == (Out(x.Right(), p.1) - todo) + {u};
      assert u in x.Right().transitions;
    }
  }
}
