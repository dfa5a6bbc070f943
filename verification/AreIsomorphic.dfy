// Whether two automata are isomorphic (vcsn/algos/are-isomorphic.hh).
module AreIsomorphic {
  import opened AllDistances
  import opened PointedAutomata
  import opened Isomorphisms
  import S = SequentialIsomorphisms
  import StateClasses
  import ClassSearch

  // Whether there is one transition at most for each label, from each state.
  method IsSequential<K(==, !new)>(a: Automaton<K>) returns (r: bool)
    requires ValidStates(a)
    ensures r <==> Sequential(a)
  {
    var todo := a.out.Keys;
    while todo != {}
      invariant todo <= a.out.Keys
      invariant forall s | s in a.out.Keys - todo :: DifferentLabels(a.out[s])
      decreases todo
    {
      var s :| s in todo;
      var ok := HasDifferentLabels(a.out[s]);
      if !ok {
        return false;
      }
      todo := todo - {s};
    }
    r := true;
  }

  method HasDifferentLabels<K(==, !new)>(outs: seq<Out<K>>) returns (r: bool)
    ensures r <==> DifferentLabels(outs)
  {
    var seen: set<Label> := {};
    for i := 0 to |outs|
      invariant DifferentLabels(outs[..i])
      invariant forall l :: l in seen <==> exists j :: 0 <= j < i && outs[j].lbl == l
    {
      if outs[i].lbl in seen {
        return false;
      }
      seen := seen + {outs[i].lbl};
    }
    assert outs[..|outs|] == outs;
    r := true;
  }

  lemma IsomorphicSequential<K(!new)>(w: Semiring<K>, a: Automaton<K>, b: Automaton<K>)
    requires Valid(w, a) && Valid(w, b) && Isomorphic(a, b)
    ensures Sequential(a) <==> Sequential(b)
  {
    var h :| Isomorphism(a, b, h);
    if Sequential(a) {
      forall t | t in b.out
        ensures DifferentLabels(b.out[t])
      {
        assert IsState(b, t);
        var s :| s in h && h[s] == t;
        assert SameOuts(a.out[s], b.out[h[s]], h);
        ImageLabels(a.out[s], b.out[t], h);
      }
    }
    if Sequential(b) {
      forall s | s in a.out
        ensures DifferentLabels(a.out[s])
      {
        assert IsState(a, s);
        assert SameOuts(a.out[s], b.out[h[s]], h);
        OriginLabels(a.out[s], b.out[h[s]], h);
      }
    }
  }

  lemma ImageLabels<K(!new)>(outs: seq<Out<K>>, outs': seq<Out<K>>, h: StateMap)
    requires SameOuts(outs, outs', h) && DifferentLabels(outs) && Single(outs')
    ensures DifferentLabels(outs')
  {
    forall i, j | 0 <= i < j < |outs'|
      ensures outs'[i].lbl != outs'[j].lbl
    {
      assert outs'[i] in outs' && outs'[j] in outs';
      var o :| o in outs && o.dst in h && Moved(h, o) == outs'[i];
      var o' :| o' in outs && o'.dst in h && Moved(h, o') == outs'[j];
    }
  }

  lemma OriginLabels<K(!new)>(outs: seq<Out<K>>, outs': seq<Out<K>>, h: StateMap)
    requires SameOuts(outs, outs', h) && Injective(h) && DifferentLabels(outs') && Single(outs)
    ensures DifferentLabels(outs)
  {
    forall i, j | 0 <= i < j < |outs|
      ensures outs[i].lbl != outs[j].lbl
    {
      assert outs[i] in outs && outs[j] in outs;
      assert Moved(h, outs[i]) in outs' && Moved(h, outs[j]) in outs';
    }
  }

  lemma DifferentRefutes<K(!new)>(w: Semiring<K>, a: Automaton<K>, b: Automaton<K>)
    requires Valid(w, a) && Valid(w, b) && TriviallyDifferent(a, b)
    ensures !Isomorphic(a, b)
  {
    forall h: StateMap
      ensures !Isomorphism(a, b, h)
    {
      if Isomorphism(a, b, h) {
        SameStates(a, b, h);
        SameArcs(w, a, b, h);
      }
    }
  }

  // The response, and the isomorphism if there is one: different when the sizes or
  // the sequentiality are; otherwise, when there is none, with a counterexample for
  // sequential automata only. The hash of the features of the states may be any.
  method FullResponse<K(==, !new)>(w: Semiring<K>, a: Automaton<K>, b: Automaton<K>,
                                   hash: StateClasses.Features<K> -> nat)
    returns (response: S.Tag, f: StateMap)
    requires Valid(w, a) && Valid(w, b) && Accessible(a) && Accessible(b)
    ensures response == S.IsIsomorphic <==> Isomorphic(a, b)
    ensures response == S.IsIsomorphic ==> Isomorphism(a, b, f)
    ensures response == S.Different <==> || |a.states| != |b.states| || |Arcs(a)| != |Arcs(b)|
                                         || (Sequential(a) <==> !Sequential(b))
    ensures response == S.Counterexample ==> Sequential(a) && Sequential(b)
    ensures response == S.NoCounterexample ==> !Sequential(a) && !Sequential(b)
    ensures response != S.NeverComputed
  {
    f := map[];
    if TriviallyDifferent(a, b) {
      DifferentRefutes(w, a, b);
      return S.Different, f;
    }
    var sequential1 := IsSequential(a);
    var sequential2 := IsSequential(b);
    if sequential1 != sequential2 {
      if Isomorphic(a, b) {
        IsomorphicSequential(w, a, b);
      }
      return S.Different, f;
    }
    if sequential1 {
      var search := new S.SequentialSearch(w, a, b);
      assert S.Input(w, a) && S.Input(w, b);
      search.Run();
      return search.response, S.Complete(search.s1tos2);
    }
    var found;
    found, f := ClassSearch.SearchClasses(w, a, b, hash);
    response := if found then S.IsIsomorphic else S.NoCounterexample;
  }
}
