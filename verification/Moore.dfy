// Minimization of deterministic automata with Moore's algorithm
// (vcsn/algos/minimize-moore.hh).
module Moore {
  import opened Wrappers
  import opened AllDistances
  import opened BooleanRows
  import opened BooleanSemiring
  import opened PointedAutomata
  import opened Partitions
  import opened Quotients
  import opened RightLanguages

  // ---------------------------------------------------------------------
  // Classes of successors
  // ---------------------------------------------------------------------

  // The destination class of s with l, if any.
  function OutClass(a: Boolaut, m: Classes, s: State, l: nat): Option<Class> {
    if s !in a.out then None
    else
      var dst := Successor(a.out[s], Letter(l));
      if dst.Some? && dst.value in m then Some(m[dst.value]) else None
  }

  function Key(a: Boolaut, m: Classes, l: nat): State -> Option<Class> {
    (s: State) => OutClass(a, m, s, l)
  }

  // States with the same right language are not separated.
  ghost predicate Coarse(a: Boolaut, m: Classes) {
    forall s, t | s in a.states && t in a.states && SameRight(a, s, t) && s in m && t in m :: m[s] == m[t]
  }

  // Pre and post are apart, and so are final states.
  ghost predicate FinalsApart(a: Boolaut, m: Classes) {
    && Alone(m, PRE) && Alone(m, POST)
    && forall s, t | s in a.states && t in a.states && s in m && t in m && m[s] == m[t] ::
         IsFinal(a, s) <==> IsFinal(a, t)
  }

  lemma SameRightOutClass(a: Boolaut, m: Classes, s: State, t: State, l: nat)
    requires Valid(Booleans(), a) && Deterministic(a) && Trim(a) && (forall x :: x in m <==> IsState(a, x))
               && Coarse(a, m)
    requires s in a.states && t in a.states && SameRight(a, s, t)
    ensures OutClass(a, m, s, l) == OutClass(a, m, t, l)
  {
    if Successor(a.out[s], Letter(l)).Some? {
      SuccessorOutClass(a, m, s, t, l);
    } else if Successor(a.out[t], Letter(l)).Some? {
      assert SameRight(a, t, s);
      SuccessorOutClass(a, m, t, s, l);
    }
  }

  lemma SuccessorOutClass(a: Boolaut, m: Classes, s: State, t: State, l: nat)
    requires Valid(Booleans(), a) && Deterministic(a) && Trim(a) && (forall x :: x in m <==> IsState(a, x))
               && Coarse(a, m)
    requires s in a.states && t in a.states && SameRight(a, s, t) && Successor(a.out[s], Letter(l)).Some?
    ensures OutClass(a, m, s, l) == OutClass(a, m, t, l)
  {
    SameSuccessor(a, s, t, l);
    SuccessorOrdinary(a, s, l);
    SuccessorOrdinary(a, t, l);
  }

  ghost predicate Refined(a: Boolaut, p: Parts) {
    && p.Valid() && (forall s :: s in p.classOf <==> IsState(a, s))
    && Coarse(a, p.classOf) && FinalsApart(a, p.classOf)
  }

  // Said of what equals p, so as to be looked into only where needed.
  ghost predicate Sound(a: Boolaut, p: Parts) {
    forall q | q == p :: Refined(a, q)
  }

  lemma SoundParts(a: Boolaut, p: Parts)
    requires Sound(a, p)
    ensures p.Valid() && (forall s :: s in p.classOf <==> IsState(a, s))
  {
    assert Refined(a, p);
  }

  lemma SoundCoarse(a: Boolaut, p: Parts)
    requires Sound(a, p)
    ensures Coarse(a, p.classOf)
  {
    assert Refined(a, p);
  }

  lemma SoundFinals(a: Boolaut, p: Parts)
    requires Sound(a, p)
    ensures FinalsApart(a, p.classOf)
  {
    assert Refined(a, p);
  }

  lemma SplitCoarse(a: Boolaut, gens: seq<nat>, p: Parts, c: Class, l: nat, p': Parts)
    requires Input(a, gens) && (forall s :: s in p.classOf <==> IsState(a, s)) && Coarse(a, p.classOf)
    requires Refines(p, Key(a, p.classOf, l), c, p')
    ensures Coarse(a, p'.classOf)
  {
    InputFacts(a, gens);
    forall s, t | s in a.states && t in a.states && SameRight(a, s, t) && s in p'.classOf && t in p'.classOf
      ensures p'.classOf[s] == p'.classOf[t]
    {
      SameRightOutClass(a, p.classOf, s, t, l);
      assert p.Same(s, t);
      assert p'.Same(s, t);
    }
  }

  lemma SplitFinals(a: Boolaut, p: Parts, c: Class, key: State -> Option<Class>, p': Parts)
    requires FinalsApart(a, p.classOf) && Refines(p, key, c, p')
    ensures FinalsApart(a, p'.classOf)
  {
    forall s, t | s in p'.classOf && t in p'.classOf && p'.classOf[s] == p'.classOf[t]
      ensures s in p.classOf && t in p.classOf && p.classOf[s] == p.classOf[t]
    {
      assert p'.Same(s, t) && s in p'.classOf.Keys && t in p'.classOf.Keys;
      assert p.Same(s, t);
    }
    assert PRE in p'.classOf.Keys && POST in p'.classOf.Keys;
  }

  lemma SplitSound(a: Boolaut, gens: seq<nat>, p: Parts, c: Class, l: nat, p': Parts)
    requires Input(a, gens) && Sound(a, p) && p'.Valid() && Refines(p, Key(a, p.classOf, l), c, p')
    ensures Sound(a, p')
  {
    SoundParts(a, p);
    SoundCoarse(a, p);
    SoundFinals(a, p);
    SplitCoarse(a, gens, p, c, l, p');
    SplitFinals(a, p, c, Key(a, p.classOf, l), p');
    SplitStates(a, p.classOf, p'.classOf);
    MakeSound(a, p');
  }

  lemma MakeSound(a: Boolaut, p: Parts)
    requires p.Valid() && (forall s :: s in p.classOf <==> IsState(a, s))
    requires Coarse(a, p.classOf) && FinalsApart(a, p.classOf)
    ensures Sound(a, p)
  {
    assert Refined(a, p);
  }

  lemma SplitStates(a: Boolaut, m: Classes, m': Classes)
    requires m.Keys == m'.Keys && forall s :: s in m <==> IsState(a, s)
    ensures forall s :: s in m' <==> IsState(a, s)
  {
    forall s
      ensures s in m' <==> IsState(a, s)
    {
      assert s in m'.Keys <==> s in m.Keys;
    }
  }

  // ---------------------------------------------------------------------
  // The partition when nothing is split any more
  // ---------------------------------------------------------------------

  // The states of c have the same destination classes.
  ghost predicate Checked(a: Boolaut, gens: seq<nat>, p: Parts, c: Class)
    requires c < |p.classes|
  {
    forall l, s, t | l in gens && s in p.classes[c] && t in p.classes[c] ::
      OutClass(a, p.classOf, s, l) == OutClass(a, p.classOf, t, l)
  }

  // s and t lead to the same classes.
  ghost predicate SameOutClasses(a: Boolaut, gens: seq<nat>, m: Classes, s: State, t: State) {
    && (forall g | g in gens :: OutClass(a, m, s, g) == OutClass(a, m, t, g))
    && (IsFinal(a, s) <==> IsFinal(a, t))
  }

  lemma LetterLeads(a: Boolaut, gens: seq<nat>, m: Classes, s: State, l: nat, c: nat)
    requires Input(a, gens) && s in a.states
    ensures s in a.out && (Leads(a.out[s], m, Letter(l), c) <==> OutClass(a, m, s, l) == Some(c))
  {
    OutFacts(a, gens, s);
    OneSuccessor(a.out[s], Letter(l));
  }

  lemma SpecialLeads(a: Boolaut, gens: seq<nat>, m: Classes, s: State, c: nat)
    requires Input(a, gens) && s in a.states && POST in m
    ensures s in a.out && (Leads(a.out[s], m, Special, c) <==> IsFinal(a, s) && m[POST] == c)
  {
    OutFacts(a, gens, s);
  }

  lemma NoLetterLeads(a: Boolaut, gens: seq<nat>, m: Classes, s: State, l: nat, c: nat)
    requires Input(a, gens) && s in a.states && l !in gens
    ensures s in a.out && !Leads(a.out[s], m, Letter(l), c)
  {
    OutFacts(a, gens, s);
  }

  lemma LeadsSame(a: Boolaut, gens: seq<nat>, m: Classes, s: State, t: State, l: Label, c: nat)
    requires Input(a, gens) && POST in m && s in a.states && t in a.states && SameOutClasses(a, gens, m, s, t)
    ensures s in a.out && t in a.out && (Leads(a.out[s], m, l, c) <==> Leads(a.out[t], m, l, c))
  {
    if l == Special {
      SpecialLeads(a, gens, m, s, c);
      SpecialLeads(a, gens, m, t, c);
    } else if l.value in gens {
      LetterLeads(a, gens, m, s, l.value, c);
      LetterLeads(a, gens, m, t, l.value, c);
    } else {
      NoLetterLeads(a, gens, m, s, l.value, c);
      NoLetterLeads(a, gens, m, t, l.value, c);
    }
  }

  lemma SumSameClass(a: Boolaut, gens: seq<nat>, m: Classes, s: State, t: State, l: Label, c: nat)
    requires Input(a, gens) && POST in m && s in a.states && t in a.states && SameOutClasses(a, gens, m, s, t)
    ensures s in a.out && t in a.out
    ensures ClassSum(Booleans(), a.out[s], l, m, c) == ClassSum(Booleans(), a.out[t], l, m, c)
  {
    LeadsSame(a, gens, m, s, t, l, c);
    OutsPresent(a, gens, s);
    OutsPresent(a, gens, t);
    BooleanSum(a.out[s], l, m, c);
    BooleanSum(a.out[t], l, m, c);
  }

  lemma OutsPresent(a: Boolaut, gens: seq<nat>, s: State)
    requires Input(a, gens) && s in a.states
    ensures s in a.out && Present(a.out[s])
  {
    assert Valid(Booleans(), a);
    forall o <- a.out[s]
      ensures o.weight
    {
      assert ValidOut(Booleans(), a, s, o);
    }
  }

  ghost predicate AllChecked(a: Boolaut, gens: seq<nat>, p: Parts) {
    forall c | 0 <= c < |p.classes| :: Checked(a, gens, p, c)
  }

  lemma SameClassSameOut(a: Boolaut, gens: seq<nat>, p: Parts, s: State, t: State)
    requires Input(a, gens) && p.Valid() && FinalsApart(a, p.classOf) && AllChecked(a, gens, p)
    requires s in a.states && t in a.states && p.Same(s, t)
    ensures SameOutClasses(a, gens, p.classOf, s, t)
  {
    assert Checked(a, gens, p, p.classOf[s]);
    assert s in p.classes[p.classOf[s]] && t in p.classes[p.classOf[s]];
  }

  lemma ClassSumsSame(a: Boolaut, gens: seq<nat>, m: Classes, s: State, t: State)
    requires Input(a, gens) && POST in m && s in a.states && t in a.states && SameOutClasses(a, gens, m, s, t)
    ensures s in a.out && t in a.out && SameOut(Booleans(), a, m, s, t)
  {
    OutFacts(a, gens, s);
    OutFacts(a, gens, t);
    forall l: Label, d | d in m
      ensures ClassSum(Booleans(), a.out[s], l, m, m[d]) == ClassSum(Booleans(), a.out[t], l, m, m[d])
    {
      SumSameClass(a, gens, m, s, t, l, m[d]);
    }
  }

  lemma PairStable(a: Boolaut, gens: seq<nat>, p: Parts, s: State, t: State)
    requires Input(a, gens) && p.Valid() && FinalsApart(a, p.classOf) && AllChecked(a, gens, p)
    requires IsState(a, s) && IsState(a, t) && s in a.out && t in a.out && p.Same(s, t)
    ensures SameOut(Booleans(), a, p.classOf, s, t)
  {
    if s in a.states && t in a.states {
      SameClassSameOut(a, gens, p, s, t);
      ClassSumsSame(a, gens, p.classOf, s, t);
    } else {
      assert s == t;
    }
  }

  lemma CheckedStable(a: Boolaut, gens: seq<nat>, p: Parts)
    requires Input(a, gens) && Sound(a, p) && AllChecked(a, gens, p)
    ensures ValidStates(a) && (forall s :: s in p.classOf <==> IsState(a, s)) && Stable(Booleans(), a, p.classOf)
  {
    SoundParts(a, p);
    SoundFinals(a, p);
    InputFacts(a, gens);
    forall s, t | s in p.classOf && t in p.classOf && p.classOf[s] == p.classOf[t]
      ensures SameOut(Booleans(), a, p.classOf, s, t)
    {
      PairStable(a, gens, p, s, t);
    }
  }

  // The classes are those of right languages.
  ghost predicate ByRightLanguage(a: Boolaut, m: Classes) {
    && (forall s :: s in m <==> IsState(a, s))
    && Alone(m, PRE) && Alone(m, POST)
    && forall s, t | s in a.states && t in a.states :: m[s] == m[t] <==> SameRight(a, s, t)
  }

  lemma ClassRight(a: Boolaut, m: Classes, reps: States, s: State, t: State)
    requires Valid(Booleans(), a) && Represents(a, m, reps) && Stable(Booleans(), a, m) && Alone(m, POST)
    requires s in m && t in m && m[s] == m[t]
    ensures SameRight(a, s, t)
  {
    BooleanLaws();
    forall u: seq<nat>
      ensures Right(a, s, u) <==> Right(a, t, u)
    {
      StableValues(Booleans(), a, m, reps, s, t, Suffix(u));
    }
  }

  lemma CheckedRight(a: Boolaut, gens: seq<nat>, p: Parts)
    requires Input(a, gens) && Sound(a, p) && AllChecked(a, gens, p)
    ensures ByRightLanguage(a, p.classOf)
  {
    InputFacts(a, gens);
    CheckedStable(a, gens, p);
    SoundParts(a, p);
    SoundCoarse(a, p);
    SoundFinals(a, p);
    FirstsRepresent(a, p.classes, p.classOf);
    forall s, t | s in a.states && t in a.states
      ensures p.classOf[s] == p.classOf[t] <==> SameRight(a, s, t)
    {
      if p.classOf[s] == p.classOf[t] {
        ClassRight(a, p.classOf, Firsts(p.classes), s, t);
      }
    }
  }

  // ---------------------------------------------------------------------
  // The algorithm
  // ---------------------------------------------------------------------

  class Minimizer {
    const a: Boolaut
    const gens: seq<nat>
    const partition: Partition

    ghost predicate Valid()
      reads this, partition
    {
      Input(a, gens) && partition.Counted() && Sound(a, partition.Value())
    }

    constructor (a: Boolaut, gens: seq<nat>)
      requires Input(a, gens)
      ensures this.a == a && this.gens == gens && fresh(partition)
      ensures partition.Counted() && partition.Value() == Parts([], map[])
    {
      this.a, this.gens := a, gens;
      partition := new Partition();
    }

    // The states that are not final, and those that are.
    method SortStates() returns (nonfinals: States, finals: States)
      requires Input(a, gens)
      ensures forall s :: s in nonfinals <==> s in a.states && !IsFinal(a, s)
      ensures forall s :: s in finals <==> s in a.states && IsFinal(a, s)
    {
      nonfinals, finals := [], [];
      for i := 0 to |a.states|
        invariant forall s :: s in nonfinals <==> s in a.states[..i] && !IsFinal(a, s)
        invariant forall s :: s in finals <==> s in a.states[..i] && IsFinal(a, s)
      {
        assert a.states[..i + 1] == a.states[..i] + [a.states[i]];
        if IsFinal(a, a.states[i]) {
          finals := finals + [a.states[i]];
        } else {
          nonfinals := nonfinals + [a.states[i]];
        }
      }
      assert a.states[..|a.states|] == a.states;
    }

    method MakePreAndPost()
      requires Input(a, gens) && partition.Counted() && partition.Value() == Parts([], map[])
      modifies partition
      ensures partition.Counted() && ByFinality(a, partition.Value(), {})
    {
      InputFacts(a, gens);
      var c := partition.MakeClass([PRE], None);
      c := partition.MakeClass([POST], None);
      PreAndPost(a, partition.Value());
    }

    // Make the class of the states with the finality f, if there are any.
    method MakeFinality(states: States, ghost f: bool, ghost fs: set<bool>)
      requires Input(a, gens) && partition.Counted() && ByFinality(a, partition.Value(), fs) && f !in fs
      requires forall s :: s in states <==> s in a.states && IsFinal(a, s) == f
      modifies partition
      ensures partition.Counted() && ByFinality(a, partition.Value(), fs + {f})
    {
      InputFacts(a, gens);
      if states != [] {
        AddFinality(a, partition.Value(), states, f, fs);
        var c := partition.MakeClass(states, None);
      } else {
        NoneLeft(a, partition.Value(), states, f, fs);
      }
    }

    // Make the classes of pre, of post, and of the other states, final or not.
    method MakeFirstClasses()
      requires Input(a, gens) && partition.Counted() && partition.Value() == Parts([], map[])
      modifies partition
      ensures Valid()
    {
      MakePreAndPost();
      var nonfinals, finals := SortStates();
      MakeFinality(nonfinals, false, {});
      MakeFinality(finals, true, {} + {false});
      ByFinalitySound(a, gens, partition.Value(), {} + {false} + {true});
    }

    // The states of c by the destination class with l.
    method ClusterByOutClass(c: Class, l: nat) returns (target: Clusters<Option<Class>>)
      requires Valid() && c < partition.numClasses
      ensures Clustered(partition.classToSet[c], Key(a, partition.stateToClass, l), target)
    {
      var states := partition.classToSet[c];
      target := map[];
      for i := 0 to |states|
        invariant Clustered(states[..i], Key(a, partition.stateToClass, l), target)
      {
        var s := states[i];
        assert states[..i + 1] == states[..i] + [s];
        EmplaceClusters(states[..i], Key(a, partition.stateToClass, l), target, s);
        target := Emplace(target, Key(a, partition.stateToClass, l)(s), s);
      }
      assert states[..|states|] == states;
    }

    // Split c by the first letter that separates its states, if there is one.
    method Look(c: Class) returns (split: bool)
      requires Valid() && c < partition.numClasses
      modifies partition
      ensures Valid() && partition.stateToClass.Keys == old(partition.stateToClass).Keys
      ensures if split then partition.numClasses > old(partition.numClasses)
              else partition.Value() == old(partition.Value()) && Checked(a, gens, partition.Value(), c)
    {
      ghost var p := partition.Value();
      for i := 0 to |gens|
        invariant Valid() && partition.Value() == p
        invariant CheckedFor(a, gens[..i], p, c)
      {
        var l := gens[i];
        var target := ClusterByOutClass(c, l);
        if 2 <= |target| {
          SoundParts(a, p);
          assert Splittable(p, Key(a, p.classOf, l), c, target);
          var made := partition.Split(c, Key(a, p.classOf, l), target);
          SplitSound(a, gens, p, c, l, partition.Value());
          return true;
        }
        OneOutClass(p, c, gens[..i], l, target);
        assert gens[..i + 1] == gens[..i] + [l];
      }
      assert gens[..|gens|] == gens;
      CheckedForAll(p, c);
      split := false;
    }

    lemma OneOutClass(p: Parts, c: Class, ls: seq<nat>, l: nat, target: Clusters<Option<Class>>)
      requires c < |p.classes| && Clustered(p.classes[c], Key(a, p.classOf, l), target) && |target| < 2
      requires CheckedFor(a, ls, p, c)
      ensures CheckedFor(a, ls + [l], p, c)
    {
      forall s, t | s in p.classes[c] && t in p.classes[c]
        ensures OutClass(a, p.classOf, s, l) == OutClass(a, p.classOf, t, l)
      {
        OneCluster(p.classes[c], Key(a, p.classOf, l), target, s, t);
        assert Key(a, p.classOf, l)(s) == Key(a, p.classOf, l)(t);
      }
    }

    lemma CheckedForAll(p: Parts, c: Class)
      requires c < |p.classes| && CheckedFor(a, gens, p, c)
      ensures Checked(a, gens, p, c)
    {
    }

    lemma Bounded()
      requires Valid()
      ensures partition.numClasses <= |partition.stateToClass.Keys|
    {
      SoundParts(a, partition.Value());
      FewClasses(partition.Value());
      assert |partition.stateToClass| == |partition.stateToClass.Keys|;
    }

    // Look at all the classes, those that are made on the way included.
    method Pass() returns (goOn: bool)
      requires Valid()
      modifies partition
      ensures Valid() && partition.stateToClass.Keys == old(partition.stateToClass).Keys
      ensures partition.numClasses <= |partition.stateToClass.Keys|
      ensures if goOn then partition.numClasses > old(partition.numClasses)
              else partition.numClasses == old(partition.numClasses) && AllChecked(a, gens, partition.Value())
    {
      goOn := false;
      var c := 0;
      Bounded();
      while c < partition.numClasses
        invariant Valid() && partition.stateToClass.Keys == old(partition.stateToClass).Keys
        invariant old(partition.numClasses) <= partition.numClasses <= |partition.stateToClass.Keys|
        invariant goOn <==> partition.numClasses > old(partition.numClasses)
        invariant c <= partition.numClasses
        invariant !goOn ==> ChecksBefore(partition.Value(), c)
        decreases |old(partition.stateToClass).Keys| - c
      {
        var split := Look(c);
        if split {
          goOn := true;
        }
        Bounded();
        c := c + 1;
      }
    }

    ghost predicate ChecksBefore(p: Parts, c: Class) {
      forall d | 0 <= d < c :: d < |p.classes| && Checked(a, gens, p, d)
    }

    // Refine until nothing changes.
    method BuildClasses()
      requires Input(a, gens) && partition.Counted() && partition.Value() == Parts([], map[])
      modifies partition
      ensures Valid() && ByRightLanguage(a, partition.stateToClass)
      ensures ValidStates(a) && Stable(Booleans(), a, partition.stateToClass)
    {
      MakeFirstClasses();
      var goOn := true;
      ghost var n := |partition.stateToClass.Keys|;
      while goOn
        invariant Valid() && n == |partition.stateToClass.Keys|
        invariant !goOn ==> AllChecked(a, gens, partition.Value())
        decreases n - partition.numClasses, goOn
      {
        goOn := Pass();
      }
      CheckedRight(a, gens, partition.Value());
      CheckedStable(a, gens, partition.Value());
    }
  }

  ghost predicate CheckedFor(a: Boolaut, ls: seq<nat>, p: Parts, c: Class)
    requires c < |p.classes|
  {
    forall l | l in ls :: forall s, t | s in p.classes[c] && t in p.classes[c] ::
      OutClass(a, p.classOf, s, l) == OutClass(a, p.classOf, t, l)
  }

  // Two classes for pre and post, and one for the ordinary states of each
  // finality of fs.
  ghost predicate ByFinality(a: Boolaut, p: Parts, fs: set<bool>) {
    forall q | q == p :: Finalities(a, q, fs)
  }

  ghost predicate Finalities(a: Boolaut, p: Parts, fs: set<bool>) {
    && p.Valid() && Alone(p.classOf, PRE) && Alone(p.classOf, POST)
    && (forall s :: s in p.classOf <==> s == PRE || s == POST || (s in a.states && IsFinal(a, s) in fs))
    && forall s, t | s in a.states && t in a.states && s in p.classOf && t in p.classOf ::
         p.classOf[s] == p.classOf[t] <==> IsFinal(a, s) == IsFinal(a, t)
  }

  lemma PreAndPost(a: Boolaut, p: Parts)
    requires Valid(Booleans(), a) && p.classes == Place(Place([], [PRE], 0), [POST], 1)
    requires p.classOf == Number([POST], Number([PRE], map[], 0), 1)
    ensures ByFinality(a, p, {})
  {
    assert p.classes == [[PRE], [POST]];
    assert Finalities(a, p, {});
  }

  lemma AddFinality(a: Boolaut, p: Parts, states: States, f: bool, fs: set<bool>)
    requires Valid(Booleans(), a) && ByFinality(a, p, fs) && f !in fs && states != []
    requires forall s :: s in states <==> s in a.states && IsFinal(a, s) == f
    ensures ByFinality(a, Parts(p.classes + [states], Number(states, p.classOf, |p.classes|)), fs + {f})
  {
    assert Finalities(a, p, fs);
    var p' := Parts(p.classes + [states], Number(states, p.classOf, |p.classes|));
    forall s | s in states
      ensures s !in p.classOf && s > POST
    {
    }
    NewClassValid(p, states);
    NewClassSame(a, p, states, f, fs);
    NewClassAlone(p, states, PRE);
    NewClassAlone(p, states, POST);
    assert Finalities(a, p', fs + {f});
  }

  lemma NewClassValid(p: Parts, states: States)
    requires p.Valid() && states != [] && forall s | s in states :: s !in p.classOf
    ensures Parts(p.classes + [states], Number(states, p.classOf, |p.classes|)).Valid()
  {
  }

  lemma NewClassAlone(p: Parts, states: States, s: State)
    requires p.Valid() && Alone(p.classOf, s) && s !in states && forall t | t in states :: t !in p.classOf
    ensures Alone(Number(states, p.classOf, |p.classes|), s)
  {
  }

  lemma NewClassSame(a: Boolaut, p: Parts, states: States, f: bool, fs: set<bool>)
    requires Finalities(a, p, fs) && f !in fs
    requires forall s :: s in states <==> s in a.states && IsFinal(a, s) == f
    ensures var m := Number(states, p.classOf, |p.classes|);
            forall s, t | s in a.states && t in a.states && s in m && t in m ::
              m[s] == m[t] <==> IsFinal(a, s) == IsFinal(a, t)
  {
  }

  lemma NoneLeft(a: Boolaut, p: Parts, states: States, f: bool, fs: set<bool>)
    requires forall s :: s in states <==> s in a.states && IsFinal(a, s) == f
    requires if states == [] then ByFinality(a, p, fs) else ByFinality(a, p, fs + {f})
    ensures ByFinality(a, p, fs + {f})
  {
    if states == [] {
      assert Finalities(a, p, fs);
      assert Finalities(a, p, fs + {f});
    }
  }

  lemma ByFinalitySound(a: Boolaut, gens: seq<nat>, p: Parts, fs: set<bool>)
    requires Input(a, gens) && ByFinality(a, p, fs) && false in fs && true in fs
    ensures Sound(a, p)
  {
    InputFacts(a, gens);
    assert Finalities(a, p, fs);
    forall s
      ensures s in p.classOf <==> IsState(a, s)
    {
      assert IsFinal(a, s) in fs;
    }
    forall s, t | s in a.states && t in a.states && SameRight(a, s, t)
      ensures p.classOf[s] == p.classOf[t]
    {
      FinalRight(a, s);
      FinalRight(a, t);
      SameRightAt(a, s, t, []);
    }
    MakeSound(a, p);
  }

  // ---------------------------------------------------------------------
  // The minimal automaton
  // ---------------------------------------------------------------------

  // A state of the result has the right language of its origins, which are
  // ordinary states.
  lemma OriginRight(a: Boolaut, m: Classes, res: Boolaut, origins: map<State, set<State>>, q: State) returns (s: State)
    requires ByRightLanguage(a, m) && Describes(Booleans(), a, m, res, origins) && q in res.states
    ensures q in origins && s in origins[q] && s in a.states && SameRightOf(res, q, a, s)
  {
    s :| s in origins[q];
    assert q > POST;
    forall u: seq<nat>
      ensures Right(res, q, u) <==> Right(a, s, u)
    {
      assert V(Booleans(), res, q, Suffix(u)) == V(Booleans(), a, s, Suffix(u));
    }
  }

  lemma ResultDistinguishable(a: Boolaut, m: Classes, res: Boolaut, origins: map<State, set<State>>)
    requires ByRightLanguage(a, m) && Describes(Booleans(), a, m, res, origins)
    ensures Distinguishable(res)
  {
    forall q, q' | q in res.states && q' in res.states && SameRight(res, q, q')
      ensures q == q'
    {
      var s := OriginRight(a, m, res, origins, q);
      var s' := OriginRight(a, m, res, origins, q');
      forall u: seq<nat>
        ensures Right(a, s, u) <==> Right(a, s', u)
      {
        SameRightAt(res, q, q', u);
        assert Right(res, q, u) <==> Right(a, s, u);
        assert Right(res, q', u) <==> Right(a, s', u);
      }
      assert SameRight(a, s, s') && s in m && s' in m && m[s] == m[s'];
    }
  }

  // Copies of the transitions of one state with the same label are copies of
  // one transition.
  lemma CopiedSame(outs: seq<Out<bool>>, origins: map<State, set<State>>, copies: seq<Out<bool>>)
    requires DifferentLabels(outs) && CopiedOuts(outs, origins, copies)
    requires forall q, q', s | q in origins && q' in origins && s in origins[q] && s in origins[q'] :: q == q'
    ensures forall x, y | x in copies && y in copies && x.lbl == y.lbl :: x.dst == y.dst
  {
    forall x, y | x in copies && y in copies && x.lbl == y.lbl
      ensures x.dst == y.dst
    {
      var o :| o in outs && o.lbl == x.lbl && x.dst in origins && o.dst in origins[x.dst];
      var o' :| o' in outs && o'.lbl == y.lbl && y.dst in origins && o'.dst in origins[y.dst];
    }
  }

  lemma CopiedDifferent(a: Boolaut, m: Classes, res: Boolaut, origins: map<State, set<State>>, q: State)
    requires Deterministic(a) && Pointed(m, res, origins) && CopiedOrigin(a, res, origins, q) && Single(res.out[q])
    ensures DifferentLabels(res.out[q])
  {
    var s :| s in origins[q] && s in a.out && CopiedOuts(a.out[s], origins, res.out[q]);
    CopiedSame(a.out[s], origins, res.out[q]);
  }

  lemma ResultDeterministic(a: Boolaut, m: Classes, res: Boolaut, origins: map<State, set<State>>)
    requires Deterministic(a) && Pointed(m, res, origins) && Valid(Booleans(), res)
    requires forall q | q in res.out :: CopiedOrigin(a, res, origins, q)
    ensures Deterministic(res)
  {
    forall q | q in res.out
      ensures DifferentLabels(res.out[q])
    {
      CopiedDifferent(a, m, res, origins, q);
    }
  }

  lemma ResultTrim(a: Boolaut, m: Classes, res: Boolaut, origins: map<State, set<State>>)
    requires Valid(Booleans(), a) && Deterministic(a) && Trim(a)
    requires Valid(Booleans(), res) && Deterministic(res) && Distinguishable(res) && SameSeries(a, res)
    requires ByRightLanguage(a, m) && Describes(Booleans(), a, m, res, origins)
    ensures Trim(res)
  {
    forall q | q in res.states
      ensures Reaches(res, PRE, q) && Reaches(res, q, POST)
    {
      var s := OriginRight(a, m, res, origins, q);
      MatchedReached(a, res, q, s);
    }
  }

  lemma ResultLeast(a: Boolaut, res: Boolaut)
    requires Separates(res) && SameSeries(a, res)
    ensures forall b: Boolaut | Valid(Booleans(), b) && Deterministic(b) && SameSeries(a, b) ::
              |res.states| <= |b.states|
  {
    forall b: Boolaut | Valid(Booleans(), b) && Deterministic(b) && SameSeries(a, b)
      ensures |res.states| <= |b.states|
    {
      forall u: seq<nat>
        ensures Series(Booleans(), res, u) <==> Series(Booleans(), b, u)
      {
        assert Series(Booleans(), a, u) <==> Series(Booleans(), b, u);
        assert Series(Booleans(), a, u) <==> Series(Booleans(), res, u);
      }
      NoneSmaller(res, b);
    }
  }

  // The same language, with one state for each right language of a: the least
  // number of states of a deterministic automaton.
  method MinimizeMoore(a: Boolaut, gens: seq<nat>)
    returns (res: Boolaut, origins: map<State, set<State>>, ghost m: Classes)
    requires Input(a, gens)
    ensures SameSeries(a, res)
    ensures ByRightLanguage(a, m) && QuotientBy(Booleans(), a, m, res, origins)
    ensures Describes(Booleans(), a, m, res, origins)
    ensures Separates(res)
    ensures forall b: Boolaut | Valid(Booleans(), b) && Deterministic(b) && SameSeries(a, b) ::
              |res.states| <= |b.states|
  {
    var minimizer := new Minimizer(a, gens);
    minimizer.BuildClasses();
    m := minimizer.partition.stateToClass;
    SoundParts(a, minimizer.partition.Value());
    InputFacts(a, gens);
    BooleanLaws();
    res, origins := Quotient(Booleans(), a, minimizer.partition.classToSet, m);
    ResultDistinguishable(a, m, res, origins);
    ResultDeterministic(a, m, res, origins);
    ResultTrim(a, m, res, origins);
    ResultLeast(a, res);
  }
}
