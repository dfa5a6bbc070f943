// With Boolean weights, the elimination of spontaneous transitions keeps the
// language (vcsn/algos/epsilon-remover.hh).
module BooleanEpsilon {
  import opened Wrappers
  import opened AllDistances
  import opened BooleanSemiring
  import opened EpsilonRemoval

  type Path = seq<Arrow>
  type Bools = Automaton<bool>

  predicate IsPath(a: Bools, s: State, es: Path, d: State)
    decreases |es|
  {
    if es == [] then s == d else es[0] in a.transitions && es[0].src == s && IsPath(a, es[0].dst, es[1..], d)
  }

  // The word that is read.
  function Letters(es: Path): Word {
    if es == [] then [] else (if es[0].lbl.Some? then [es[0].lbl.value] else []) + Letters(es[1..])
  }

  ghost predicate AcceptingPath(a: Bools, s: State, u: Word, es: Path, d: State) {
    IsPath(a, s, es, d) && d in a.final && Letters(es) == u
  }

  ghost predicate AcceptsFrom(a: Bools, s: State, u: Word) {
    exists es: Path, d :: AcceptingPath(a, s, u, es, d)
  }

  ghost predicate Accepts(a: Bools, u: Word) {
    exists s :: s in a.initial && AcceptsFrom(a, s, u)
  }

  // Reading l, or nothing, before u.
  function Prepend(l: Option<Letter>, u: Word): Word {
    (if l.Some? then [l.value] else []) + u
  }

  lemma Follow(a: Bools, e: Arrow, u: Word)
    requires e in a.transitions && AcceptsFrom(a, e.dst, u)
    ensures AcceptsFrom(a, e.src, Prepend(e.lbl, u))
  {
    var es: Path, d :| AcceptingPath(a, e.dst, u, es, d);
    assert ([e] + es)[1..] == es;
    assert AcceptingPath(a, e.src, Prepend(e.lbl, u), [e] + es, d);
  }

  lemma Stop(a: Bools, s: State)
    requires s in a.final
    ensures AcceptsFrom(a, s, [])
  {
    assert AcceptingPath(a, s, [], [], s);
  }

  // ---------------------------------------------------------------------
  // One state
  // ---------------------------------------------------------------------

  // The transitions of b, in terms of those of a.
  ghost predicate SameBut(a: Bools, s: State, b: Bools) {
    && (forall e :: e in b.transitions
                    <==> !(e.lbl.None? && e.dst == s)
                         && (e in a.transitions
                             || (e.src != s && Arrow(e.src, None, s) in a.transitions
                                 && Arrow(s, e.lbl, e.dst) in a.transitions)))
    && (forall p :: p in b.final
                    <==> p in a.final || (p != s && Arrow(p, None, s) in a.transitions && s in a.final))
  }

  lemma Presence(a: Bools, e: Arrow)
    requires Valid(Booleans(), a)
    ensures W(Booleans(), a, e) <==> e in a.transitions
  {
  }

  lemma RemovedTransition(a: Bools, s: State, star: bool, b: Bools, e: Arrow)
    requires Valid(Booleans(), a) && Valid(Booleans(), b) && star && Removed(Booleans(), a, s, star, b)
    ensures e in b.transitions
            <==> !(e.lbl.None? && e.dst == s)
                 && (e in a.transitions
                     || (e.src != s && Arrow(e.src, None, s) in a.transitions
                           && Arrow(s, e.lbl, e.dst) in a.transitions))
  {
    Presence(a, e);
    Presence(b, e);
    Presence(a, Arrow(e.src, None, s));
    Presence(a, Arrow(s, e.lbl, e.dst));
    assert W(Booleans(), b, e) == NewWeight(Booleans(), a, s, star, e);
  }

  lemma RemovedSame(a: Bools, s: State, star: bool, b: Bools)
    requires Valid(Booleans(), a) && Valid(Booleans(), b) && star && Removed(Booleans(), a, s, star, b)
    ensures SameBut(a, s, b)
  {
    forall e: Arrow
      ensures e in b.transitions
              <==> !(e.lbl.None? && e.dst == s)
                   && (e in a.transitions
                       || (e.src != s && Arrow(e.src, None, s) in a.transitions
                             && Arrow(s, e.lbl, e.dst) in a.transitions))
    {
      RemovedTransition(a, s, star, b, e);
    }
    forall p
      ensures p in b.final <==> p in a.final || (p != s && Arrow(p, None, s) in a.transitions && s in a.final)
    {
      Presence(a, Arrow(p, None, s));
      assert F(Booleans(), b, p) == NewFinal(Booleans(), a, s, star, p);
    }
  }

  // What is accepted was accepted.
  lemma {:induction false} NothingNew(a: Bools, s: State, b: Bools, p: State, es: Path, d: State)
    requires SameBut(a, s, b) && IsPath(b, p, es, d) && d in b.final
    ensures AcceptsFrom(a, p, Letters(es))
    decreases |es|
  {
    if es == [] {
      if p in a.final {
        Stop(a, p);
      } else {
        Stop(a, s);
        Follow(a, Arrow(p, None, s), []);
        assert Prepend(None, []) == [];
      }
    } else {
      var e, u := es[0], Letters(es[1..]);
      NothingNew(a, s, b, e.dst, es[1..], d);
      if e in a.transitions {
        Follow(a, e, u);
      } else {
        Follow(a, Arrow(s, e.lbl, e.dst), u);
        Follow(a, Arrow(e.src, None, s), Prepend(e.lbl, u));
        assert Prepend(None, Prepend(e.lbl, u)) == Prepend(e.lbl, u);
      }
    }
  }

  // What follows the arrival at s by a spontaneous transition from p.
  lemma {:induction false} FromS(a: Bools, s: State, b: Bools, p: State, es: Path, d: State)
    requires SameBut(a, s, b) && IsPath(a, s, es, d) && d in a.final
    requires p == s || Arrow(p, None, s) in a.transitions
    ensures AcceptsFrom(b, p, Letters(es))
    decreases |es|, 0
  {
    if es == [] {
      Stop(b, p);
    } else {
      var e, u := es[0], Letters(es[1..]);
      if e.lbl.None? && e.dst == s {
        FromS(a, s, b, p, es[1..], d);
        assert Prepend(None, u) == u;
      } else {
        NothingLost(a, s, b, e.dst, es[1..], d);
        var f := Arrow(p, e.lbl, e.dst);
        assert e == Arrow(s, e.lbl, e.dst) && f in b.transitions;
        Follow(b, f, u);
      }
    }
  }

  // What was accepted still is.
  lemma {:induction false} NothingLost(a: Bools, s: State, b: Bools, p: State, es: Path, d: State)
    requires SameBut(a, s, b) && IsPath(a, p, es, d) && d in a.final
    ensures AcceptsFrom(b, p, Letters(es))
    decreases |es|, 1
  {
    if es == [] {
      Stop(b, p);
    } else {
      var e, u := es[0], Letters(es[1..]);
      if e.lbl.None? && e.dst == s {
        assert e == Arrow(p, None, s);
        FromS(a, s, b, p, es[1..], d);
        assert Prepend(None, u) == u;
      } else {
        NothingLost(a, s, b, e.dst, es[1..], d);
        Follow(b, e, u);
      }
    }
  }

  lemma RemovedAccepts(a: Bools, s: State, b: Bools, p: State, u: Word)
    requires SameBut(a, s, b)
    ensures AcceptsFrom(b, p, u) <==> AcceptsFrom(a, p, u)
  {
    if AcceptsFrom(b, p, u) {
      var es: Path, d :| AcceptingPath(b, p, u, es, d);
      NothingNew(a, s, b, p, es, d);
    }
    if AcceptsFrom(a, p, u) {
      var es: Path, d :| AcceptingPath(a, p, u, es, d);
      NothingLost(a, s, b, p, es, d);
    }
  }

  // ---------------------------------------------------------------------
  // Pruning
  // ---------------------------------------------------------------------

  lemma {:induction false} DeletedPath(a: Bools, s: State, p: State, es: Path, d: State)
    requires NoneIn(a, s) && p != s
    ensures IsPath(a, p, es, d) <==> IsPath(DeleteState(a, s), p, es, d)
    ensures IsPath(a, p, es, d) ==> d != s
    decreases |es|
  {
    if es != [] && es[0] in a.transitions {
      DeletedPath(a, s, es[0].dst, es[1..], d);
    }
  }

  lemma DeletedAccepts(a: Bools, s: State, p: State, u: Word)
    requires NoneIn(a, s) && p != s
    ensures AcceptsFrom(DeleteState(a, s), p, u) <==> AcceptsFrom(a, p, u)
  {
    var b := DeleteState(a, s);
    forall es: Path, d
      ensures AcceptingPath(b, p, u, es, d) <==> AcceptingPath(a, p, u, es, d)
    {
      DeletedPath(a, s, p, es, d);
    }
  }

  // ---------------------------------------------------------------------
  // All states
  // ---------------------------------------------------------------------

  lemma StarIsTrue(a: Bools, s: State, star: bool)
    requires StarOf(Booleans(), a, s, star)
    ensures star
  {
  }

  lemma EliminatesAccepts(a: Bools, s: State, star: bool, r: Bools, b: Bools, p: State, u: Word)
    requires Eliminates(Booleans(), a, s, star, r, b) && p in b.states
    ensures AcceptsFrom(b, p, u) <==> AcceptsFrom(a, p, u)
    ensures p in a.states && b.initial == a.initial
  {
    StarIsTrue(a, s, star);
    RemovedSame(a, s, star, r);
    RemovedAccepts(a, s, r, p, u);
    if b != r {
      DeletedAccepts(r, s, p, u);
    }
  }

  // Whatever the order, each state that remains accepts what it accepted.
  lemma {:induction false} ReducesAccepts(a: Bools, ss: seq<State>, b: Bools, p: State, u: Word)
    requires Reduces(Booleans(), a, ss, b) && p in b.states
    ensures AcceptsFrom(b, p, u) <==> AcceptsFrom(a, p, u)
    ensures p in a.states && b.initial == a.initial
    decreases |ss|
  {
    if ss != [] {
      var c, star, r :| Reduces(Booleans(), a, Front(ss), c) && Eliminates(Booleans(), c, Last(ss), star, r, b);
      EliminatesAccepts(c, Last(ss), star, r, b, p, u);
      ReducesAccepts(a, Front(ss), c, p, u);
    }
  }

  // The language is kept.
  lemma ReducesLanguage(a: Bools, ss: seq<State>, b: Bools, u: Word)
    requires Reduces(Booleans(), a, ss, b) && Valid(Booleans(), b)
    ensures Accepts(b, u) <==> Accepts(a, u)
  {
    ReducesInitial(a, ss, b);
    forall s | s in b.initial
      ensures AcceptsFrom(b, s, u) <==> AcceptsFrom(a, s, u)
    {
      ReducesAccepts(a, ss, b, s, u);
    }
  }

  lemma EliminatesInitial(a: Bools, s: State, star: bool, r: Bools, b: Bools)
    requires Eliminates(Booleans(), a, s, star, r, b)
    ensures b.initial == a.initial
  {
  }

  lemma {:induction false} ReducesInitial(a: Bools, ss: seq<State>, b: Bools)
    requires Reduces(Booleans(), a, ss, b)
    ensures b.initial == a.initial
    decreases |ss|
  {
    if ss != [] {
      var c, star, r :| Reduces(Booleans(), a, Front(ss), c) && Eliminates(Booleans(), c, Last(ss), star, r, b);
      ReducesInitial(a, Front(ss), c);
      EliminatesInitial(c, Last(ss), star, r, b);
    }
  }

  // A proper automaton with the same language.
  method MakeProper(a: Bools, prune: bool) returns (res: Bools)
    requires Valid(Booleans(), a)
    ensures Valid(Booleans(), res) && Proper(res)
    ensures forall u: Word :: Accepts(res, u) <==> Accepts(a, u)
    ensures MadeProper(Booleans(), prune, a, res) && Pruned(prune, a, res)
  {
    BooleanLaws();
    var remover := new EpsilonRemover(Booleans(), a, prune);
    var ok;
    ghost var ss;
    ok, ss := remover.Run();
    res := remover.aut;
    assert ok;
    MadeProperPruned(Booleans(), prune, a, res);
    ReducesByReduces(Booleans(), prune, a, ss, res);
    forall u: Word
      ensures Accepts(res, u) <==> Accepts(a, u)
    {
      ReducesLanguage(a, ss, res, u);
    }
  }
}
