// The subset construction, and Brzozowski's minimization, for automata with
// Boolean weights (vcsn/algos/determinize.hh,
// vcsn/algos/minimize-brzozowski.hh).
module Determinize {
  import opened BoolAutomata
  import opened NamedAutomata
  import opened Sets
  import opened Subsets

  type SubsetBuild = Build<set<State>, Letter>

  // ---------------------------------------------------------------------
  // Tables of destinations
  // ---------------------------------------------------------------------

  // The destinations for each label: those that are not listed have none.
  type Table = map<Letter, set<State>>

  function At(m: Table, l: Letter): set<State> {
    if l in m then m[l] else {}
  }

  ghost predicate TableOf(a: Aut, S: set<State>, m: Table) {
    && (forall l: Letter :: At(m, l) == a.Step(S, l))
    && (forall l <- m :: m[l] != {})
  }

  // The transitions of s that were seen.
  ghost predicate PartialRow(s: State, done: set<Transition<Letter>>, m: Table) {
    && (forall l: Letter :: At(m, l) == set t | t in done && t.src == s && t.lbl == l :: t.dst)
    && (forall l <- m :: m[l] != {})
  }

  lemma PartialRowMore(s: State, done: set<Transition<Letter>>, m: Table, t: Transition<Letter>)
    requires PartialRow(s, done, m)
    ensures PartialRow(s, done + {t}, if t.src == s then m[t.lbl := At(m, t.lbl) + {t.dst}] else m)
  {
    var m' := if t.src == s then m[t.lbl := At(m, t.lbl) + {t.dst}] else m;
    forall l: Letter, d
      ensures d in At(m', l) <==> d in set u | u in done + {t} && u.src == s && u.lbl == l :: u.dst
    {
      assert d in At(m, l) <==> exists u :: u in done && u.src == s && u.lbl == l && u.dst == d;
    }
  }

  lemma RowComplete(a: Aut, s: State, m: Table)
    requires PartialRow(s, a.transitions, m)
    ensures TableOf(a, {s}, m)
  {
  }

  // The destinations of S, and those of p for the labels of ls.
  ghost predicate PartialSum(a: Aut, S: set<State>, p: State, ls: set<Letter>, m: Table) {
    && (forall l: Letter :: At(m, l) == a.Step(S, l) + if l in ls then a.Step({p}, l) else {})
    && (forall l <- m :: m[l] != {})
  }

  lemma PartialSumMore(a: Aut, S: set<State>, p: State, ls: set<Letter>, m: Table, row: Table, l: Letter)
    requires PartialSum(a, S, p, ls, m) && TableOf(a, {p}, row) && l in row
    ensures PartialSum(a, S, p, ls + {l}, m[l := if l in m then m[l] + row[l] else row[l]])
  {
    var m' := m[l := if l in m then m[l] + row[l] else row[l]];
    assert At(row, l) == a.Step({p}, l);
    assert At(m', l) == At(m, l) + row[l];
    forall k: Letter | k != l
      ensures At(m', k) == At(m, k)
    {
    }
  }

  lemma SumComplete(a: Aut, S: set<State>, p: State, m: Table, row: Table)
    requires PartialSum(a, S, p, row.Keys, m) && TableOf(a, {p}, row)
    ensures TableOf(a, S + {p}, m)
  {
    forall l: Letter
      ensures At(m, l) == a.Step(S + {p}, l)
    {
      assert a.Step(S + {p}, l) == a.Step(S, l) + a.Step({p}, l);
      assert At(row, l) == a.Step({p}, l);
    }
  }

  // ---------------------------------------------------------------------
  // Links between sets of states
  // ---------------------------------------------------------------------

  predicate Arc(a: Aut, S: set<State>, l: Letter, T: set<State>) {
    T == a.Step(S, l) && T != {}
  }

  ghost predicate LinksDone(a: Aut, links: set<Link<set<State>, Letter>>, finals: set<set<State>>,
                            processed: set<set<State>>) {
    && (forall x <- links :: x.src in processed && Arc(a, x.src, x.lbl, x.dst))
    && (forall S, l: Letter, T | S in processed && Arc(a, S, l, T) :: Link(S, l, T) in links)
    && (forall S :: S in finals <==> S in processed && S * a.final != {})
  }

  ghost predicate Explored(a: Aut, names: set<set<State>>) {
    forall S <- names :: S != {} && S <= a.states && Reached(a, S)
  }

  ghost function Arcs(S: set<State>, m: Table, ls: set<Letter>): set<Link<set<State>, Letter>> {
    set l <- ls | l in m :: Link(S, l, m[l])
  }

  lemma CompleteMore(a: Aut, links: set<Link<set<State>, Letter>>, finals: set<set<State>>,
                     processed: set<set<State>>, S: set<State>, m: Table)
    requires LinksDone(a, links, finals, processed) && S !in processed && TableOf(a, S, m)
    ensures LinksDone(a, links + Arcs(S, m, m.Keys), if S * a.final != {} then finals + {S} else finals,
              processed + {S})
  {
    forall l: Letter, T
      ensures Link(S, l, T) in Arcs(S, m, m.Keys) <==> Arc(a, S, l, T)
    {
      assert At(m, l) == a.Step(S, l);
    }
  }

  lemma ExploredMore(a: Aut, names: set<set<State>>, S: set<State>, m: Table, l: Letter)
    requires a.Valid() && Explored(a, names) && S in names && TableOf(a, S, m) && l in m
    ensures Explored(a, names + {m[l]})
  {
    assert At(m, l) == a.Step(S, l);
    StepInside(a, S, l);
    var u: Word :| a.Run(a.initial, u) == S;
    RunAppend(a, a.initial, u, l);
  }

  // What a turn of the loop keeps.
  ghost predicate Building(a: Aut, b: SubsetBuild) {
    && Sound(b)
    && LinksDone(a, b.links, b.finals, b.processed)
    && Explored(a, b.left.Keys)
    && (a.initial == {} ==> b.aut.initial == {})
    && (a.initial != {} ==> a.initial in b.left && b.aut.initial == {b.left[a.initial]})
  }

  lemma Origins(b: SubsetBuild)
    requires Sound(b)
    ensures Bimap(b.left, b.right) && b.right.Keys == b.aut.states
    ensures forall S <- b.left :: b.left[S] in b.aut.final <==> S in b.finals
    ensures b.aut.final <= b.right.Keys
    ensures Linked(b)
  {
    assert Consistent(b);
  }

  lemma BuiltSteps(a: Aut, b: SubsetBuild)
    requires Bimap(b.left, b.right) && Linked(b) && LinksDone(a, b.links, b.finals, b.left.Keys)
    ensures StepsSubsets(a, b.aut, b.right)
  {
    forall t <- b.aut.transitions
      ensures Steps(a, b.aut, b.right, t.src, t.lbl, t.dst)
    {
      assert Link(b.right[t.src], t.lbl, b.right[t.dst]) in b.links;
    }
    forall q, l: Letter | q in b.right && a.Step(b.right[q], l) != {}
      ensures exists q' :: Steps(a, b.aut, b.right, q, l, q')
    {
      var S, T := b.right[q], a.Step(b.right[q], l);
      assert Arc(a, S, l, T);
      assert Link(S, l, T) in b.links;
      assert Steps(a, b.aut, b.right, q, l, b.left[T]);
    }
  }

  lemma BuiltNames(a: Aut, b: SubsetBuild)
    requires Bimap(b.left, b.right) && b.right.Keys == b.aut.states && Explored(a, b.left.Keys)
    ensures NamesSubsets(a, b.aut, b.right)
  {
    forall q <- b.right
      ensures b.right[q] != {} && b.right[q] <= a.states && Reached(a, b.right[q])
    {
      assert b.right[q] in b.left.Keys;
    }
    forall q, q' | q in b.right && q' in b.right && b.right[q] == b.right[q']
      ensures q == q'
    {
      assert b.left[b.right[q]] == q && b.left[b.right[q']] == q';
    }
  }

  lemma BuiltEnds(a: Aut, b: SubsetBuild)
    requires Bimap(b.left, b.right) && LinksDone(a, b.links, b.finals, b.left.Keys)
    requires forall S <- b.left :: b.left[S] in b.aut.final <==> S in b.finals
    requires b.aut.final <= b.right.Keys
    requires a.initial == {} ==> b.aut.initial == {}
    requires a.initial != {} ==> a.initial in b.left && b.aut.initial == {b.left[a.initial]}
    ensures EndsSubsets(a, b.aut, b.right)
  {
    forall q <- b.right
      ensures q in b.aut.final <==> b.right[q] * a.final != {}
    {
      assert b.left[b.right[q]] == q;
    }
  }

  lemma BuiltDeterminized(a: Aut, b: SubsetBuild)
    requires Building(a, b) && b.todo == []
    ensures Determinized(a, b.aut, b.right)
  {
    NothingTodo(b);
    Origins(b);
    BuiltSteps(a, b);
    BuiltNames(a, b);
    BuiltEnds(a, b);
  }

  // ---------------------------------------------------------------------
  // Determinization
  // ---------------------------------------------------------------------

  // The sets of states.
  ghost function SubsetsOf(a: Aut): set<set<State>> {
    set S: set<State> | S <= a.states
  }

  class Determinizer {
    const input: Aut
    const finals: set<State>
    const aut: NamedAutomaton<set<State>, Letter>
    var successors: map<State, Table>

    constructor (input: Aut)
      requires input.Valid()
      ensures fresh(aut) && this.input == input && Cached() && Building(input, aut.Snapshot())
      ensures finals == input.final
    {
      this.input := input;
      finals := input.final;
      aut := new NamedAutomaton();
      successors := map[];
      new;
      StartSound<set<State>, Letter>();
      if input.initial != {} {
        InitializeSound(aut.Snapshot(), input.initial);
        assert input.Run(input.initial, []) == input.initial;
        aut.SetInitial(input.initial);
      }
    }

    // The cached tables are those of the states.
    ghost predicate Cached()
      reads this
    {
      forall s <- successors :: TableOf(input, {s}, successors[s])
    }

    // Determinize the automaton.
    method Run()
      requires input.Valid() && finals == input.final && Cached() && Building(input, aut.Snapshot())
      modifies this, aut
      ensures Determinized(input, aut.aut, aut.right)
    {
      while aut.todo != []
        invariant Cached() && Building(input, aut.Snapshot())
        decreases SubsetsOf(input) - aut.processed
      {
        TakeSound(aut.Snapshot(), 0);
        var src, ss := aut.PopFront();
        assert ss in SubsetsOf(input);
        Complete(src, ss);
      }
      BuiltDeterminized(input, aut.Snapshot());
    }

    // Compute the outgoing transitions of the state src, named ss.
    method Complete(src: State, ss: set<State>)
      requires input.Valid() && finals == input.final && Cached()
      requires Sound(aut.Snapshot()) && ss in aut.left && src == aut.left[ss] && ss in aut.processed
      requires LinksDone(input, aut.links, aut.finals, aut.processed - {ss})
      requires Explored(input, aut.left.Keys)
      modifies this, aut
      ensures Cached() && Sound(aut.Snapshot()) && aut.processed == old(aut.processed)
      ensures LinksDone(input, aut.links, aut.finals, aut.processed)
      ensures Explored(input, aut.left.Keys)
      ensures Grows(old(aut.Snapshot()), aut.Snapshot().(finals := old(aut.finals)))
    {
      var dests := Destinations(ss);
      CompleteMore(input, aut.links, aut.finals, aut.processed - {ss}, ss, dests);
      AddTransitions(src, ss, dests);
      FinalizeSound(aut.Snapshot(), ss, ss * finals != {});
      aut.SetFinal(src, ss, ss * finals != {});
    }

    // A transition to each of the destinations.
    method AddTransitions(src: State, ss: set<State>, dests: Table)
      requires input.Valid() && Sound(aut.Snapshot()) && ss in aut.left && src == aut.left[ss]
      requires Explored(input, aut.left.Keys) && TableOf(input, ss, dests)
      modifies aut
      ensures Sound(aut.Snapshot()) && Grows(old(aut.Snapshot()), aut.Snapshot())
      ensures Explored(input, aut.left.Keys)
      ensures aut.links == old(aut.links) + Arcs(ss, dests, dests.Keys)
    {
      ghost var links := aut.links;
      var todo := dests.Keys;
      while todo != {}
        invariant todo <= dests.Keys
        invariant Sound(aut.Snapshot()) && Grows(old(aut.Snapshot()), aut.Snapshot())
        invariant Explored(input, aut.left.Keys)
        invariant aut.links == links + Arcs(ss, dests, dests.Keys - todo)
        decreases todo
      {
        var l :| l in todo;
        AddLinkSound(aut.Snapshot(), ss, l, dests[l], true);
        ExploredMore(input, aut.left.Keys, ss, dests, l);
        ArcsMore(ss, dests, todo, l);
        aut.NewTransition(src, ss, l, dests[l], true);
        todo := todo - {l};
      }
      assert dests.Keys - {} == dests.Keys;
    }

    lemma ArcsMore(S: set<State>, m: Table, todo: set<Letter>, l: Letter)
      requires todo <= m.Keys && l in todo
      ensures Arcs(S, m, m.Keys - (todo - {l})) == Arcs(S, m, m.Keys - todo) + {Link(S, l, m[l])}
    {
      assert m.Keys - (todo - {l}) == (m.Keys - todo) + {l};
    }

    // Where each label may lead.
    method Destinations(ss: set<State>) returns (dests: Table)
      requires Cached()
      modifies this
      ensures Cached() && TableOf(input, ss, dests)
    {
      dests := map[];
      var todo := ss;
      assert TableOf(input, {}, dests);
      while todo != {}
        invariant todo <= ss && Cached() && TableOf(input, ss - todo, dests)
        decreases todo
      {
        var s :| s in todo;
        var row := Successors(s);
        dests := Merge(dests, row, ss - todo, s);
        assert ss - (todo - {s}) == (ss - todo) + {s};
        todo := todo - {s};
      }
      assert ss - {} == ss;
    }

    // Add the destinations of a state p to those of the states of S.
    method Merge(dests: Table, row: Table, ghost S: set<State>, ghost p: State) returns (res: Table)
      requires TableOf(input, S, dests) && TableOf(input, {p}, row)
      ensures TableOf(input, S + {p}, res)
    {
      res := dests;
      var todo := row.Keys;
      assert row.Keys - todo == {};
      while todo != {}
        invariant todo <= row.Keys && PartialSum(input, S, p, row.Keys - todo, res)
        decreases todo
      {
        var l :| l in todo;
        PartialSumMore(input, S, p, row.Keys - todo, res, row, l);
        OneMore(row.Keys, todo, l);
        res := res[l := if l in res then res[l] + row[l] else row[l]];
        todo := todo - {l};
      }
      assert row.Keys - {} == row.Keys;
      SumComplete(input, S, p, res, row);
    }

    // The output transitions of s, which are cached.
    method Successors(s: State) returns (row: Table)
      requires Cached()
      modifies this
      ensures Cached() && TableOf(input, {s}, row)
      ensures s in successors && (s in old(successors) ==> successors == old(successors))
    {
      if s in successors {
        return successors[s];
      }
      row := map[];
      var todo := input.transitions;
      assert PartialRow(s, {}, row);
      assert input.transitions - todo == {};
      while todo != {}
        invariant todo <= input.transitions && PartialRow(s, input.transitions - todo, row)
        invariant successors == old(successors)
        decreases todo
      {
        var t :| t in todo;
        PartialRowMore(s, input.transitions - todo, row, t);
        assert input.transitions - (todo - {t}) == (input.transitions - todo) + {t};
        if t.src == s {
          row := row[t.lbl := At(row, t.lbl) + {t.dst}];
        }
        todo := todo - {t};
      }
      assert input.transitions - {} == input.transitions;
      RowComplete(input, s, row);
      successors := successors[s := row];
    }
  }

  method Determinization(a: Aut) returns (res: Aut, ghost names: map<State, set<State>>)
    requires a.Valid()
    ensures Determinized(a, res, names)
    ensures res.Valid() && Deterministic(res) && |res.initial| <= 1 && SameLanguage(a, res)
  {
    var d := new Determinizer(a);
    d.Run();
    res, names := d.aut.aut, d.aut.right;
    DeterminizedValid(a, res, names);
    DeterminizedLanguage(a, res, names);
  }
}
