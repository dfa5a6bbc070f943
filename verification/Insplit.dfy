// Splitting states so that each has only proper, or only spontaneous,
// incoming transitions (vcsn/algos/insplit.hh).
module Insplit {
  import opened Wrappers
  import opened BoolAutomata
  import opened NamedAutomata
  import opened Spontaneous
  import opened WeightedAutomata
  import opened WeightedBuilds

  // A state, and whether it is reached by spontaneous transitions.
  type Name = (State, bool)
  type SplitBuild<L(==)> = Build<Name, L>

  predicate Arc<L>(a: Automaton<L>, one: Option<L>, n: Name, l: L, m: Name) {
    Transition(n.0, l, m.0) in a.transitions && m.1 == IsOne(one, l)
  }

  ghost predicate LinksDone<L(!new)>(a: Automaton<L>, one: Option<L>, links: set<Link<Name, L>>, finals: set<Name>,
                                     processed: set<Name>) {
    && (forall x <- links :: x.src in processed && Arc(a, one, x.src, x.lbl, x.dst))
    && (forall n, l, m | n in processed && Arc(a, one, n, l, m) :: Link(n, l, m) in links)
    && (forall n :: n in finals <==> n in processed && n.0 in a.final)
  }

  ghost function Names<L>(a: Automaton<L>): set<Name> {
    set s <- a.states, e <- {false, true} :: (s, e)
  }

  // The names contain the initial states, and where their arcs lead.
  ghost predicate ClosedNames<L(!new)>(a: Automaton<L>, one: Option<L>, names: set<Name>) {
    && (forall s <- a.initial :: (s, false) in names)
    && (forall n, l, m | n in names && Arc(a, one, n, l, m) :: m in names)
  }

  // The names are in all closed sets: none is useless.
  ghost predicate NoOthers<L(!new)>(a: Automaton<L>, one: Option<L>, names: set<Name>) {
    forall S | ClosedNames(a, one, S) :: names <= S
  }

  lemma NoOthersMore<L(!new)>(a: Automaton<L>, one: Option<L>, names: set<Name>, n: Name, l: L, m: Name)
    requires NoOthers(a, one, names) && n in names && Arc(a, one, n, l, m)
    ensures NoOthers(a, one, names + {m})
  {
  }

  lemma NoOthersInitial<L(!new)>(a: Automaton<L>, one: Option<L>, names: set<Name>, s: State)
    requires NoOthers(a, one, names) && s in a.initial
    ensures NoOthers(a, one, names + {(s, false)})
  {
  }

  lemma NoOthersInNames<L(!new)>(a: Automaton<L>, one: Option<L>, names: set<Name>)
    requires NoOthers(a, one, names) && a.Valid()
    ensures names <= Names(a)
  {
    assert ClosedNames(a, one, Names(a));
  }

  ghost predicate Starts<L>(a: Automaton<L>, b: SplitBuild<L>) {
    && (forall s <- a.initial :: (s, false) in b.left && b.left[(s, false)] in b.aut.initial)
    && (forall i <- b.aut.initial :: i in b.right && b.right[i].0 in a.initial && !b.right[i].1)
  }

  ghost predicate Building<L(!new)>(a: Automaton<L>, one: Option<L>, b: SplitBuild<L>) {
    && Sound(b)
    && LinksDone(a, one, b.links, b.finals, b.processed)
    && NoOthers(a, one, b.left.Keys)
    && Starts(a, b)
  }

  // The result is split.
  lemma BuiltSplit<L(!new)>(a: Automaton<L>, one: Option<L>, b: SplitBuild<L>)
    requires Building(a, one, b) && b.todo == []
    ensures Split(b.aut, one) && b.aut.Valid()
  {
    SoundValid(b);
    assert Consistent(b);
    forall s <- b.aut.states
      ensures ProperIn(b.aut, one, s) || SpontaneousIn(b.aut, one, s)
    {
      forall t <- b.aut.transitions | t.dst == s
        ensures IsOne(one, t.lbl) <==> b.right[s].1
      {
        assert Link(b.right[t.src], t.lbl, b.right[t.dst]) in b.links;
      }
      assert s in b.aut.initial ==> !b.right[s].1;
    }
  }

  // ---------------------------------------------------------------------
  // Construction
  // ---------------------------------------------------------------------

  ghost function ArcsOf<L>(one: Option<L>, n: Name, done: set<Transition<L>>): set<Link<Name, L>> {
    set t <- done :: Link(n, t.lbl, (t.dst, IsOne(one, t.lbl)))
  }

  lemma LinksDoneMore<L(!new)>(a: Automaton<L>, one: Option<L>, links: set<Link<Name, L>>, finals: set<Name>,
                               processed: set<Name>, n: Name)
    requires LinksDone(a, one, links, finals, processed) && n !in processed
    ensures LinksDone(a, one, links + ArcsOf(one, n, Out(a, n.0)),
                      if n.0 in a.final then finals + {n} else finals, processed + {n})
  {
    forall x: Link<Name, L>
      ensures x in ArcsOf(one, n, Out(a, n.0)) <==> x.src == n && Arc(a, one, n, x.lbl, x.dst)
    {
      if x.src == n && Arc(a, one, n, x.lbl, x.dst) {
        assert Transition(n.0, x.lbl, x.dst.0) in Out(a, n.0);
      }
    }
  }

  // The weights are those of the input.
  function SplitWeights<L, K>(a: Weighted<L, K>, zero: K): Weighing<Name, L, K> {
    Weighing((n: Name) => At(zero, a.initial, n.0), (n: Name) => At(zero, a.final, n.0),
             (n: Name, l: L, m: Name) => At(zero, a.transitions, Transition(n.0, l, m.0)))
  }

  class InsplitAutomaton<L(==, !new), K(==, !new)> {
    const input: Weighted<L, K>
    const one: Option<L>
    const zero: K
    const aut: WeightedBuild<Name, L, K>

    constructor (input: Weighted<L, K>, one: Option<L>, zero: K)
      ensures fresh(aut) && fresh(aut.named) && this.input == input && this.one == one && this.zero == zero
      ensures Begun()
    {
      this.input, this.one, this.zero := input, one, zero;
      aut := new WeightedBuild(zero, SplitWeights(input, zero));
    }

    ghost predicate Begun()
      reads aut, aut.named
    {
      Fits() && aut.named.Snapshot() == Start()
    }

    ghost predicate Fits()
      reads aut, aut.named
    {
      aut.Valid() && aut.zero == zero && aut.weighing == SplitWeights(input, zero)
    }

    // What each step keeps.
    ghost predicate Ready()
      reads aut, aut.named
    {
      input.Valid(zero) && Fits() && NoOthers(input.Support(), one, aut.named.left.Keys)
    }

    // Insplit the automaton.
    method Insplit()
      requires input.Valid(zero) && Begun()
      modifies aut, aut.named
      ensures Building(input.Support(), one, aut.named.Snapshot()) && aut.named.todo == []
      ensures WellWeighed(SplitWeights(input, zero), aut.named.Snapshot(), aut.Result())
    {
      Initialize();
      while aut.named.todo != []
        invariant Ready() && Building(input.Support(), one, aut.named.Snapshot())
        decreases Names(input.Support()) - aut.named.processed
      {
        NoOthersInNames(input.Support(), one, aut.named.left.Keys);
        TakeSound(aut.named.Snapshot(), 0);
        ghost var before := aut.named.Snapshot();
        var s, sn := aut.PopFront();
        AddTransitions(s, sn);
        StartsGrow(before, aut.named.Snapshot());
      }
    }

    lemma StartsGrow(b: SplitBuild<L>, c: SplitBuild<L>)
      requires Starts(input.Support(), b) && Sound(b) && Sound(c)
      requires b.left.Keys <= c.left.Keys && (forall n <- b.left :: c.left[n] == b.left[n])
                 && c.aut.initial == b.aut.initial
      ensures Starts(input.Support(), c)
    {
      NamesStay(b, c);
    }

    // The transitions from pre are proper.
    method Initialize()
      requires input.Valid(zero) && Begun()
      modifies aut, aut.named
      ensures Ready() && Building(input.Support(), one, aut.named.Snapshot())
    {
      var todo := input.initial.Keys;
      while todo != {}
        invariant todo <= input.initial.Keys && Ready()
        invariant aut.named.links == {} && aut.named.finals == {} && aut.named.processed == {}
        invariant forall s <- input.initial.Keys - todo ::
                    (s, false) in aut.named.left && aut.named.left[(s, false)] in aut.named.aut.initial
        invariant forall i <- aut.named.aut.initial ::
                    i in aut.named.right && aut.named.right[i].0 in input.initial && !aut.named.right[i].1
        decreases todo
      {
        var s :| s in todo;
        InitialMore(aut.named.Snapshot(), s, todo);
        NoOthersInitial(input.Support(), one, aut.named.left.Keys, s);
        aut.SetInitial((s, false), input.initial[s]);
        todo := todo - {s};
      }
    }

    lemma InitialMore(b: SplitBuild<L>, s: State, todo: set<State>)
      requires Sound(b) && s in todo && todo <= input.initial.Keys
      requires forall r <- input.initial.Keys - todo :: (r, false) in b.left && b.left[(r, false)] in b.aut.initial
      requires forall i <- b.aut.initial :: i in b.right && b.right[i].0 in input.initial && !b.right[i].1
      ensures var c := NamedAutomata.Initialize(b, (s, false));
              && Sound(c) && c.left.Keys == b.left.Keys + {(s, false)}
              && (forall r <- input.initial.Keys - (todo - {s}) ::
                   (r, false) in c.left && c.left[(r, false)] in c.aut.initial)
              && (forall i <- c.aut.initial :: i in c.right && c.right[i].0 in input.initial && !c.right[i].1)
    {
      assert Consistent(b);
      InitializeSound(b, (s, false));
      GetSound(b, (s, false));
      assert Consistent(Get(b, (s, false)));
    }

    // Split the transitions from the state s, named sn.
    method AddTransitions(s: State, sn: Name)
      requires Ready() && sn in aut.named.left && s == aut.named.left[sn]
      requires sn in aut.named.processed
      requires LinksDone(input.Support(), one, aut.named.links, aut.named.finals, aut.named.processed - {sn})
      modifies aut, aut.named
      ensures Ready()
      ensures LinksDone(input.Support(), one, aut.named.links, aut.named.finals, aut.named.processed)
      ensures Grows(old(aut.named.Snapshot()), aut.named.Snapshot().(finals := old(aut.named.finals)))
    {
      LinksDoneMore(input.Support(), one, aut.named.links, aut.named.finals, aut.named.processed - {sn}, sn);
      AddArcs(s, sn);
      assert aut.named.processed - {sn} + {sn} == aut.named.processed;
      aut.SetFinal(s, sn, At(zero, input.final, sn.0));
    }

    method AddArcs(s: State, sn: Name)
      requires Ready() && sn in aut.named.left && s == aut.named.left[sn]
      requires forall k <- aut.named.links :: k.src != sn
      modifies aut, aut.named
      ensures Ready() && Grows(old(aut.named.Snapshot()), aut.named.Snapshot())
      ensures aut.named.links == old(aut.named.links) + ArcsOf(one, sn, Out(input.Support(), sn.0))
    {
      var all := Out(input.Support(), sn.0);
      var todo := all;
      while todo != {}
        invariant todo <= all
        invariant Ready() && Grows(old(aut.named.Snapshot()), aut.named.Snapshot())
        invariant aut.named.links == old(aut.named.links) + ArcsOf(one, sn, all - todo)
        decreases todo
      {
        var t :| t in todo;
        ArcsOfMore(sn, all, todo, t);
        NoOthersMore(input.Support(), one, aut.named.left.Keys, sn, t.lbl, (t.dst, IsOne(one, t.lbl)));
        aut.NewTransition(s, sn, t.lbl, (t.dst, IsOne(one, t.lbl)), input.transitions[t]);
        todo := todo - {t};
      }
      assert all - {} == all;
    }

    // The copy of t is a new transition.
    lemma ArcsOfMore(n: Name, all: set<Transition<L>>, todo: set<Transition<L>>, t: Transition<L>)
      requires t in todo && todo <= all && all <= Out(input.Support(), n.0)
      ensures ArcsOf(one, n, all - (todo - {t}))
              == ArcsOf(one, n, all - todo) + {Link(n, t.lbl, (t.dst, IsOne(one, t.lbl)))}
      ensures Link(n, t.lbl, (t.dst, IsOne(one, t.lbl))) !in ArcsOf(one, n, all - todo)
    {
      assert all - (todo - {t}) == (all - todo) + {t};
    }
  }
}
