// Accessibility, determinism, completion and complement of automata with
// Boolean weights over a free labelset (vcsn/algos/accessible.hh,
// vcsn/algos/is-deterministic.hh, vcsn/algos/is-complete.hh,
// vcsn/algos/complete.hh, vcsn/algos/complement.hh).
module BooleanOperations {
  import opened Words
  import opened BoolAutomata
  import opened NamedAutomata
  import opened Subsets
  import opened Brzozowski

  // All letters are generators.
  ghost predicate Over(w: Word, gens: set<Letter>) {
    forall l <- w :: l in gens
  }

  ghost predicate LabelsIn(a: Aut, gens: set<Letter>) {
    forall t <- a.transitions :: t.lbl in gens
  }

  lemma {:induction false} AcceptedOver(a: Aut, s: State, w: Word, gens: set<Letter>)
    requires LabelsIn(a, gens) && a.AcceptsFrom(s, w)
    ensures Over(w, gens)
    decreases |w|
  {
    if w != [] {
      var t :| t in a.transitions && t.src == s && t.lbl == w[0] && a.AcceptsFrom(t.dst, w[1..]);
      AcceptedOver(a, t.dst, w[1..], gens);
      assert w == [w[0]] + w[1..];
    }
  }

  // ---------------------------------------------------------------------
  // Accessible and useful states
  // ---------------------------------------------------------------------

  ghost predicate Accessible(a: Aut, s: State) {
    exists w: Word :: s in a.Run(a.initial, w)
  }

  ghost predicate ClosedBut(a: Aut, S: set<State>, todo: set<State>) {
    forall t <- a.transitions :: t.src in S && t.src !in todo ==> t.dst in S
  }

  lemma {:induction false} RunStays(a: Aut, S: set<State>, R: set<State>, w: Word)
    requires ClosedBut(a, S, {}) && R <= S
    ensures a.Run(R, w) <= S
    decreases |w|
  {
    if w != [] {
      RunStays(a, S, a.Step(R, w[0]), w[1..]);
    }
  }

  lemma SuccessorAccessible(a: Aut, t: Transition<Letter>)
    requires t in a.transitions && Accessible(a, t.src)
    ensures Accessible(a, t.dst)
  {
    var w: Word :| t.src in a.Run(a.initial, w);
    RunAppend(a, a.initial, w, t.lbl);
    assert t.dst in a.Run(a.initial, w + [t.lbl]);
  }

  // The states that are reached from the initial ones.
  method AccessibleStates(a: Aut) returns (res: set<State>)
    requires a.Valid()
    ensures forall s :: s in res <==> Accessible(a, s)
  {
    res := a.initial;
    var todo := a.initial;
    forall s <- res
      ensures Accessible(a, s)
    {
      assert s in a.Run(a.initial, []);
    }
    while todo != {}
      invariant todo <= res <= a.states && a.initial <= res
      invariant forall s <- res :: Accessible(a, s)
      invariant ClosedBut(a, res, todo)
      decreases a.states - res, todo
    {
      var src :| src in todo;
      var dsts := set t <- a.transitions | t.src == src && t.dst !in res :: t.dst;
      forall d <- dsts
        ensures Accessible(a, d)
      {
        var t :| t in a.transitions && t.src == src && t.dst == d;
        SuccessorAccessible(a, t);
      }
      Explore(a, res, todo, src, dsts);
      res, todo := res + dsts, todo - {src} + dsts;
    }
    forall s | Accessible(a, s)
      ensures s in res
    {
      var w: Word :| s in a.Run(a.initial, w);
      RunStays(a, res, a.initial, w);
    }
  }

  lemma Explore(a: Aut, res: set<State>, todo: set<State>, src: State, dsts: set<State>)
    requires a.Valid() && ClosedBut(a, res, todo) && src in todo && todo <= res
    requires dsts == set t <- a.transitions | t.src == src && t.dst !in res :: t.dst
    ensures ClosedBut(a, res + dsts, todo - {src} + dsts)
    ensures dsts <= a.states && dsts !! res
    ensures dsts == {} ==> todo - {src} + dsts < todo
    ensures dsts != {} ==> a.states - (res + dsts) < a.states - res
  {
    if dsts != {} {
      var d :| d in dsts;
      assert d in a.states - res && d !in a.states - (res + dsts);
    }
  }

  // Whether no state is both accessible and coaccessible.
  method IsUseless(a: Aut) returns (r: bool)
    requires a.Valid()
    ensures r <==> forall w: Word :: !a.Accepts(w)
  {
    TransposedValid(a);
    var accessible := AccessibleStates(a);
    var coaccessible := AccessibleStates(Transpose(a));
    r := accessible * coaccessible == {};
    forall s: State
      ensures s in accessible * coaccessible <==> OnAcceptedPath(a, s)
    {
      CoaccessibleAccepts(a, s);
      assert s in coaccessible <==> Accessible(Transpose(a), s);
      assert s in accessible <==> Accessible(a, s);
    }
    UsefulAccepts(a);
    assert r <==> !exists s :: s in accessible * coaccessible;
  }

  ghost predicate Coaccessible(a: Aut, s: State) {
    exists v: Word :: a.AcceptsFrom(s, v)
  }

  ghost predicate OnAcceptedPath(a: Aut, s: State) {
    Accessible(a, s) && Coaccessible(a, s)
  }

  lemma CoaccessibleAccepts(a: Aut, s: State)
    ensures Accessible(Transpose(a), s) <==> Coaccessible(a, s)
  {
    TransposedTwice(a);
    if Accessible(Transpose(a), s) {
      var w: Word :| s in Transpose(a).Run(Transpose(a).initial, w);
      ReverseTwice(w);
      AcceptsBackwards(Transpose(a), s, Reverse(w));
    }
    if Coaccessible(a, s) {
      var v: Word :| a.AcceptsFrom(s, v);
      AcceptsBackwards(Transpose(a), s, v);
    }
  }

  lemma UsefulAccepts(a: Aut)
    ensures (exists s :: OnAcceptedPath(a, s)) <==> exists w: Word :: a.Accepts(w)
  {
    if exists s :: OnAcceptedPath(a, s) {
      var s :| OnAcceptedPath(a, s);
      var u: Word :| s in a.Run(a.initial, u);
      var v: Word :| a.AcceptsFrom(s, v);
      assert AcceptsAny(a, a.Run(a.initial, u), v);
      RunAccepts(a, a.initial, u, v);
      assert a.Accepts(u + v);
    }
    if exists w: Word :: a.Accepts(w) {
      var w: Word :| a.Accepts(w);
      var s :| s in a.initial && a.AcceptsFrom(s, w);
      assert s in a.Run(a.initial, []);
      assert OnAcceptedPath(a, s);
    }
  }

  // ---------------------------------------------------------------------
  // Determinism and completeness
  // ---------------------------------------------------------------------

  // No two transitions leave s with the same label.
  ghost predicate DeterministicAt(a: Aut, s: State) {
    forall t, t' | t in a.transitions && t' in a.transitions && t.src == s && t'.src == s && t.lbl == t'.lbl :: t == t'
  }

  method IsDeterministicState(a: Aut, s: State) returns (r: bool)
    ensures r <==> DeterministicAt(a, s)
  {
    var seen: set<Letter> := {};
    var all := set t <- a.transitions | t.src == s;
    var todo := all;
    while todo != {}
      invariant todo <= all
      invariant seen == set t <- all - todo :: t.lbl
      invariant forall t, t' | t in all - todo && t' in all - todo && t.lbl == t'.lbl :: t == t'
      decreases todo
    {
      var t :| t in todo;
      if t.lbl in seen {
        var t' :| t' in all - todo && t'.lbl == t.lbl;
        assert t' in a.transitions && t in a.transitions;
        return false;
      }
      seen := seen + {t.lbl};
      assert all - (todo - {t}) == (all - todo) + {t};
      todo := todo - {t};
    }
    forall t, t' | t in a.transitions && t' in a.transitions && t.src == s && t'.src == s && t.lbl == t'.lbl
      ensures t == t'
    {
      assert t in all - todo && t' in all - todo;
    }
    r := true;
  }

  // Whether there is at most an initial state, and all states are
  // deterministic.
  method IsDeterministic(a: Aut) returns (r: bool)
    requires a.Valid()
    ensures r <==> Deterministic(a) && |a.initial| <= 1
  {
    if 1 < |a.initial| {
      return false;
    }
    var todo := a.states;
    while todo != {}
      invariant todo <= a.states && forall s <- a.states - todo :: DeterministicAt(a, s)
      decreases todo
    {
      var s :| s in todo;
      var d := IsDeterministicState(a, s);
      if !d {
        return false;
      }
      todo := todo - {s};
    }
    forall t, t' | t in a.transitions && t' in a.transitions && t.src == t'.src && t.lbl == t'.lbl
      ensures t == t'
    {
      assert DeterministicAt(a, t.src);
    }
    r := true;
  }

  function LabelsFrom(a: Aut, s: State): set<Letter> {
    set t <- a.transitions | t.src == s :: t.lbl
  }

  // There is an initial state, and transitions for each letter from each
  // state.
  ghost predicate Complete(a: Aut, gens: set<Letter>) {
    a.initial != {} && forall s <- a.states :: gens <= LabelsFrom(a, s)
  }

  method IsComplete(a: Aut, gens: set<Letter>) returns (r: bool)
    ensures r <==> Complete(a, gens)
  {
    if |a.initial| == 0 {
      return false;
    }
    var todo := a.states;
    while todo != {}
      invariant todo <= a.states && forall s <- a.states - todo :: gens <= LabelsFrom(a, s)
      decreases todo
    {
      var s :| s in todo;
      var missing := gens - LabelsFrom(a, s);
      if missing != {} {
        var l :| l in missing;
        assert l in gens && l !in LabelsFrom(a, s);
        return false;
      }
      assert gens <= LabelsFrom(a, s) by {
        assert forall l <- gens :: l in LabelsFrom(a, s) || l in missing;
      }
      todo := todo - {s};
    }
    r := true;
  }

  lemma {:induction false} CompleteRun(a: Aut, gens: set<Letter>, S: set<State>, w: Word)
    requires a.Valid() && Complete(a, gens) && Over(w, gens) && S <= a.states && S != {}
    ensures a.Run(S, w) != {}
    decreases |w|
  {
    if w != [] {
      var s :| s in S;
      assert w[0] in w && w[0] in LabelsFrom(a, s);
      var t :| t in a.transitions && t.src == s && t.lbl == w[0];
      assert t.dst in a.Step(S, w[0]);
      StepInside(a, S, w[0]);
      CompleteRun(a, gens, a.Step(S, w[0]), w[1..]);
    }
  }

  // ---------------------------------------------------------------------
  // Completion
  // ---------------------------------------------------------------------

  // res is a with, only if a is not complete, a sink state, where transitions
  // for missing letters lead.
  ghost predicate WithSink(a: Aut, gens: set<Letter>, res: Aut, sink: State) {
    && sink !in a.states
    && a.states <= res.states <= a.states + {sink}
    && (sink in res.states ==> !Complete(a, gens))
    && res.final == a.final
    && res.initial == (if a.initial == {} && sink in res.states then {sink} else a.initial)
    && a.transitions <= res.transitions
    && (forall t <- res.transitions - a.transitions ::
          t.dst == sink && sink in res.states && t.lbl in gens
                && (t.src == sink || (t.src in a.states && t.lbl !in LabelsFrom(a, t.src))))
  }

  method NewState(states: set<State>) returns (s: State)
    ensures s !in states
  {
    s := 0;
    var todo := states;
    while todo != {}
      invariant todo <= states && forall t <- states - todo :: t < s
      decreases todo
    {
      var t :| t in todo;
      if t >= s {
        s := t + 1;
      }
      assert states - (todo - {t}) == (states - todo) + {t};
      todo := todo - {t};
    }
    assert states - todo == states;
  }

  // The missing transitions of the states that are done were added.
  ghost predicate Completing(a: Aut, res: Aut, sink: State, gens: set<Letter>, done: set<State>) {
    && WithSink(a, gens, res, sink)
    && (forall t <- res.transitions - a.transitions :: t.src in a.states)
    && (forall s <- done :: gens <= LabelsFrom(res, s))
  }

  // The automaton completed: a itself if it is complete; otherwise with a sink,
  // which is the destination of the missing transitions and of loops, and is
  // initial if no state is.
  ghost predicate Completed(a: Aut, gens: set<Letter>, res: Aut, sink: State) {
    if Complete(a, gens) then res == a
    else
      && sink !in a.states
      && res.states == a.states + {sink}
      && res.initial == (if a.initial == {} then {sink} else a.initial)
      && res.final == a.final
      && forall t :: t in res.transitions <==>
           || t in a.transitions
           || (t.dst == sink && t.lbl in gens
               && (t.src == sink || (t.src in a.states && t.lbl !in LabelsFrom(a, t.src))))
  }

  lemma SinkCompletes(a: Aut, gens: set<Letter>, res: Aut, sink: State)
    requires a.Valid() && WithSink(a, gens, res, sink) && Complete(res, gens)
    ensures Completed(a, gens, res, sink)
  {
    if sink in res.states {
      forall s, l | s in res.states && l in gens && (s == sink || l !in LabelsFrom(a, s))
        ensures Transition(s, l, sink) in res.transitions
      {
        SinkTransition(a, gens, res, sink, s, l);
      }
    } else {
      assert res.transitions - a.transitions == {};
      assert res.transitions == a.transitions;
    }
  }

  lemma SinkTransition(a: Aut, gens: set<Letter>, res: Aut, sink: State, s: State, l: Letter)
    requires a.Valid() && WithSink(a, gens, res, sink) && Complete(res, gens)
    requires s in res.states && l in gens && (s == sink || l !in LabelsFrom(a, s))
    ensures Transition(s, l, sink) in res.transitions
  {
    assert l in LabelsFrom(res, s);
    var t :| t in res.transitions && t.src == s && t.lbl == l;
    assert t !in a.transitions;
    assert t == Transition(s, l, sink);
  }

  // A complete automaton, with the same language.
  method MakeComplete(a: Aut, gens: set<Letter>) returns (res: Aut, ghost sink: State)
    requires a.Valid()
    ensures WithSink(a, gens, res, sink) && Complete(res, gens) && (LabelsIn(a, gens) ==> LabelsIn(res, gens))
    ensures Completed(a, gens, res, sink)
    ensures forall t, t' | t in res.transitions && t' in res.transitions && t.src == sink && t'.src == sink
              && t.lbl == t'.lbl ::
              t == t'
  {
    var unused := NewState(a.states);
    sink := unused;
    res := a;
    var needed := false;
    if |a.initial| == 0 {
      needed := true;
      res := res.(states := res.states + {unused}, initial := {unused});
    }
    var todo := a.states;
    while todo != {}
      invariant todo <= a.states && Completing(a, res, sink, gens, a.states - todo)
      invariant needed <==> sink in res.states
      invariant res.initial != {}
      invariant LabelsIn(a, gens) ==> LabelsIn(res, gens)
      decreases todo
    {
      var st :| st in todo;
      res, needed := CompleteState(a, res, gens, st, unused, needed, a.states - todo);
      assert a.states - (todo - {st}) == (a.states - todo) + {st};
      todo := todo - {st};
    }
    assert a.states - {} == a.states;
    if needed {
      res := CompleteSink(a, res, gens, unused);
    }
    SinkCompletes(a, gens, res, sink);
  }

  method CompleteState(a: Aut, aut: Aut, gens: set<Letter>, st: State, sink: State, needed: bool,
                       ghost done: set<State>) returns (res: Aut, needed': bool)
    requires Completing(a, aut, sink, gens, done) && st in a.states && aut.initial != {}
    requires needed <==> sink in aut.states
    requires LabelsIn(a, gens) ==> LabelsIn(aut, gens)
    ensures Completing(a, res, sink, gens, done + {st}) && res.initial != {}
    ensures needed' <==> sink in res.states
    ensures LabelsIn(a, gens) ==> LabelsIn(res, gens)
  {
    res, needed' := aut, needed;
    var missing := gens - LabelsFrom(a, st);
    ghost var all := missing;
    while missing != {}
      invariant missing <= all && Completing(a, res, sink, gens, done) && res.initial != {}
      invariant needed' <==> sink in res.states
      invariant LabelsIn(a, gens) ==> LabelsIn(res, gens)
      invariant all - missing <= LabelsFrom(res, st)
      decreases missing
    {
      var l :| l in missing;
      SinkMore(a, res, sink, gens, done, Transition(st, l, sink));
      needed' := true;
      res := res.(states := res.states + {sink}, transitions := res.transitions + {Transition(st, l, sink)});
      missing := missing - {l};
    }
    forall l <- gens
      ensures l in LabelsFrom(res, st)
    {
      if l in LabelsFrom(a, st) {
        var t :| t in a.transitions && t.src == st && t.lbl == l;
        assert t in res.transitions;
      } else {
        assert l in all - missing;
      }
    }
  }

  lemma SinkMore(a: Aut, res: Aut, sink: State, gens: set<Letter>, done: set<State>, t: Transition<Letter>)
    requires Completing(a, res, sink, gens, done) && t.dst == sink && t.src in a.states
    requires t.lbl in gens && t.lbl !in LabelsFrom(a, t.src) && res.initial != {}
    ensures var res' := res.(states := res.states + {sink}, transitions := res.transitions + {t});
            && Completing(a, res', sink, gens, done)
            && (forall s :: LabelsFrom(res, s) <= LabelsFrom(res', s))
            && t.lbl in LabelsFrom(res', t.src)
  {
    var res' := res.(states := res.states + {sink}, transitions := res.transitions + {t});
    forall s, l | l in LabelsFrom(res, s)
      ensures l in LabelsFrom(res', s)
    {
      var u :| u in res.transitions && u.src == s && u.lbl == l;
      assert u in res'.transitions;
    }
    assert t in res'.transitions;
  }

  method CompleteSink(a: Aut, aut: Aut, gens: set<Letter>, sink: State) returns (res: Aut)
    requires a.Valid() && Completing(a, aut, sink, gens, a.states) && sink in aut.states && aut.initial != {}
    requires LabelsIn(a, gens) ==> LabelsIn(aut, gens)
    ensures WithSink(a, gens, res, sink) && Complete(res, gens)
    ensures LabelsIn(a, gens) ==> LabelsIn(res, gens)
    ensures forall t, t' | t in res.transitions && t' in res.transitions && t.src == sink && t'.src == sink
              && t.lbl == t'.lbl ::
              t == t'
  {
    var loops := set l <- gens :: Transition(sink, l, sink);
    res := aut.(transitions := aut.transitions + loops);
    forall s <- res.states
      ensures gens <= LabelsFrom(res, s)
    {
      forall l <- gens
        ensures l in LabelsFrom(res, s)
      {
        if s == sink {
          assert Transition(sink, l, sink) in res.transitions;
        } else {
          assert l in LabelsFrom(aut, s);
          var t :| t in aut.transitions && t.src == s && t.lbl == l;
          assert t in res.transitions;
        }
      }
    }
  }
}
