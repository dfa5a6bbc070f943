// Minimization by signatures, for any weights
// (vcsn/algos/minimize-weighted.hh, vcsn/algos/minimize-signature.hh).
module Signatures {
  import opened Wrappers
  import opened Sets
  import opened AllDistances
  import opened PointedAutomata
  import opened Partitions
  import opened Quotients

  // ---------------------------------------------------------------------
  // Signatures
  // ---------------------------------------------------------------------

  // The weights, not null, of some classes.
  type Polynomial<K> = map<Class, K>

  // The polynomials of the classes reached with each label.
  type Signature<K> = map<Label, Polynomial<K>>

  function AddHere<K(==)>(w: Semiring<K>, p: Polynomial<K>, c: Class, k: K): Polynomial<K> {
    var sum := if c in p then w.add(p[c], k) else k;
    if sum == w.zero then p - {c} else p[c := sum]
  }

  function At<K>(sig: Signature<K>, l: Label): Polynomial<K> {
    if l in sig then sig[l] else map[]
  }

  function Coefficient<K>(w: Semiring<K>, p: Polynomial<K>, c: Class): K {
    if c in p then p[c] else w.zero
  }

  // A label counts, even if its weights cancel.
  function Sig<K(==)>(w: Semiring<K>, outs: seq<Out<K>>, m: Classes): Signature<K> {
    if outs == [] then map[]
    else
      var o := outs[|outs| - 1];
      var rest := Sig(w, outs[..|outs| - 1], m);
      if o.dst in m then rest[o.lbl := AddHere(w, At(rest, o.lbl), m[o.dst], o.weight)] else rest
  }

  lemma Added<K(!new)>(w: Semiring<K>, p: Polynomial<K>, c: Class, k: K, d: Class)
    requires Laws(w)
    ensures Coefficient(w, AddHere(w, p, c, k), d)
            == if d == c then w.add(Coefficient(w, p, c), k) else Coefficient(w, p, d)
  {
    Units(w, k);
  }

  // The coefficients of a signature.
  lemma {:induction false} SigSum<K(!new)>(w: Semiring<K>, outs: seq<Out<K>>, m: Classes, l: Label, c: Class)
    requires Laws(w)
    ensures Coefficient(w, At(Sig(w, outs, m), l), c) == ClassSum(w, outs, l, m, c)
    decreases |outs|
  {
    if outs != [] {
      var o, rest := outs[|outs| - 1], outs[..|outs| - 1];
      SigSum(w, rest, m, l, c);
      if o.dst in m {
        Added(w, At(Sig(w, rest, m), o.lbl), m[o.dst], o.weight, c);
      }
    }
  }

  lemma {:induction false} SigLabels<K(!new)>(w: Semiring<K>, outs: seq<Out<K>>, m: Classes, l: Label)
    requires forall o <- outs :: o.dst in m
    ensures l in Sig(w, outs, m) <==> exists o :: o in outs && o.lbl == l
    decreases |outs|
  {
    if outs != [] {
      var o, rest := outs[|outs| - 1], outs[..|outs| - 1];
      assert o in outs && forall x :: x in outs <==> x in rest || x == o;
      SigLabels(w, rest, m, l);
    }
  }

  // Two states of a class have the same signature.
  ghost predicate SigStable<K(!new)>(w: Semiring<K>, a: Automaton<K>, m: Classes)
    requires ValidStates(a)
  {
    && (forall s :: s in m <==> IsState(a, s))
    && forall s, t | s in m && t in m && m[s] == m[t] :: Sig(w, a.out[s], m) == Sig(w, a.out[t], m)
  }

  lemma SigStableIsStable<K(!new)>(w: Semiring<K>, a: Automaton<K>, m: Classes)
    requires Laws(w) && ValidStates(a) && SigStable(w, a, m)
    ensures Stable(w, a, m)
  {
    forall s, t | s in m && t in m && m[s] == m[t]
      ensures SameOut(w, a, m, s, t)
    {
      forall l: Label, d | d in m
        ensures ClassSum(w, a.out[s], l, m, m[d]) == ClassSum(w, a.out[t], l, m, m[d])
      {
        SigSum(w, a.out[s], m, l, m[d]);
        SigSum(w, a.out[t], m, l, m[d]);
      }
    }
  }

  lemma OutsIn<K(!new)>(w: Semiring<K>, a: Automaton<K>, m: Classes, s: State)
    requires Valid(w, a) && (forall s :: s in m <==> IsState(a, s)) && s in m
    ensures forall o <- a.out[s] :: o.dst in m
  {
    forall o <- a.out[s]
      ensures o.dst in m
    {
      assert ValidOut(w, a, s, o);
    }
  }

  lemma EmptySig<K(!new)>(w: Semiring<K>, outs: seq<Out<K>>, m: Classes)
    requires forall o <- outs :: o.dst in m
    ensures Sig(w, outs, m) == map[] <==> outs == []
  {
    if outs != [] {
      SigLabels(w, outs, m, outs[0].lbl);
    }
  }

  lemma OutsSome<K(!new)>(a: Automaton<K>, s: State, d: State)
    requires s in a.out
    ensures Reaches(a, s, d) && s != d ==> a.out[s] != []
  {
    if Reaches(a, s, d) && s != d {
      FirstStep(a, s, d);
    }
  }

  // Nothing leaves post only: it is set apart by its signature.
  lemma PostAlone<K(!new)>(w: Semiring<K>, a: Automaton<K>, m: Classes)
    requires Valid(w, a) && Trim(a) && SigStable(w, a, m)
    ensures Alone(m, POST) || a.out[PRE] == []
  {
    forall s | s in m && m[s] == m[POST]
      ensures a.out[s] == [] && (s == PRE || s == POST)
    {
      OutsIn(w, a, m, s);
      EmptySig(w, a.out[s], m);
      assert Sig(w, a.out[s], m) == Sig(w, a.out[POST], m) == map[];
      OutsSome(a, s, POST);
    }
  }

  // The transitions of pre only have the special label: pre is set apart too.
  lemma PreAlone<K(!new)>(w: Semiring<K>, a: Automaton<K>, m: Classes)
    requires Laws(w) && Valid(w, a) && Trim(a) && SigStable(w, a, m) && Alone(m, POST)
    ensures Alone(m, PRE)
  {
    forall s | s in m && m[s] == m[PRE]
      ensures s == PRE
    {
      if s in a.states {
        OutsSome(a, s, POST);
        assert Sig(w, a.out[s], m) == Sig(w, a.out[PRE], m);
        OutsIn(w, a, m, s);
        OutsIn(w, a, m, PRE);
        OnlyFinal(w, a, m, s);
        SigSum(w, a.out[s], m, Special, m[POST]);
        SigSum(w, a.out[PRE], m, Special, m[POST]);
        PreNotFinal(w, a, m);
      }
    }
  }

  // With the labels of pre, a state leads to post only.
  lemma OnlyFinal<K(!new)>(w: Semiring<K>, a: Automaton<K>, m: Classes, s: State)
    requires Laws(w) && Valid(w, a) && (forall t :: t in m <==> IsState(a, t)) && s in a.states && a.out[s] != []
    requires Sig(w, a.out[s], m) == Sig(w, a.out[PRE], m)
    ensures ClassSum(w, a.out[s], Special, m, m[POST]) != w.zero
  {
    OutsIn(w, a, m, s);
    OutsIn(w, a, m, PRE);
    forall o | o in a.out[s]
      ensures o.lbl == Special && o.dst == POST
    {
      SigLabels(w, a.out[s], m, o.lbl);
      SigLabels(w, a.out[PRE], m, o.lbl);
      var x :| x in a.out[PRE] && x.lbl == o.lbl;
      assert ValidOut(w, a, PRE, x) && ValidOut(w, a, s, o);
    }
    var outs := a.out[s];
    assert outs[0] in outs && outs[|outs| - 1] in outs;
    assert |outs| == 1;
    assert ValidOut(w, a, s, outs[0]);
    OneSum(w, outs[0], m);
    assert outs == [outs[0]];
  }

  lemma OneSum<K(!new)>(w: Semiring<K>, o: Out<K>, m: Classes)
    requires Laws(w) && o.dst in m
    ensures ClassSum(w, [o], o.lbl, m, m[o.dst]) == o.weight
  {
    assert [o][..0] == [];
    Units(w, o.weight);
  }

  lemma PreNotFinal<K(!new)>(w: Semiring<K>, a: Automaton<K>, m: Classes)
    requires Valid(w, a) && (forall t :: t in m <==> IsState(a, t)) && Alone(m, POST)
    ensures ClassSum(w, a.out[PRE], Special, m, m[POST]) == w.zero
  {
    forall o | o in a.out[PRE]
      ensures o.dst in m && m[o.dst] != m[POST]
    {
      assert ValidOut(w, a, PRE, o);
    }
    NoSum(w, a.out[PRE], Special, m, m[POST]);
  }

  lemma {:induction false} NoSum<K(!new)>(w: Semiring<K>, outs: seq<Out<K>>, l: Label, m: Classes, c: Class)
    requires forall o <- outs :: o.lbl == l ==> o.dst !in m || m[o.dst] != c
    ensures ClassSum(w, outs, l, m, c) == w.zero
    decreases |outs|
  {
    if outs != [] {
      assert outs[|outs| - 1] in outs;
      NoSum(w, outs[..|outs| - 1], l, m, c);
    }
  }

  // ---------------------------------------------------------------------
  // Relations that the refinement never separates
  // ---------------------------------------------------------------------

  type Relation = (State, State) -> bool

  function InOneClass(m: Classes): Relation {
    (s: State, t: State) => s in m && t in m && m[s] == m[t]
  }

  ghost predicate Contains(m: Classes, r: Relation) {
    forall s, t | s in m && t in m && r(s, t) :: m[s] == m[t]
  }

  // Whatever the classes, related states that they do not separate have the
  // same signature.
  ghost predicate Respected<K(!new)>(w: Semiring<K>, a: Automaton<K>, r: Relation)
    requires ValidStates(a)
  {
    forall m: Classes | (forall s :: s in m <==> IsState(a, s)) && Contains(m, r) ::
      forall s, t | s in m && t in m && r(s, t) :: Sig(w, a.out[s], m) == Sig(w, a.out[t], m)
  }

  ghost predicate Coarse<K(!new)>(w: Semiring<K>, a: Automaton<K>, m: Classes)
    requires ValidStates(a)
  {
    forall r: Relation | Respected(w, a, r) :: Contains(m, r)
  }

  // Post is alone exactly when some state is initial: nothing leaves pre
  // otherwise, as nothing leaves post.
  lemma PostAloneIff<K(!new)>(w: Semiring<K>, a: Automaton<K>, m: Classes)
    requires Valid(w, a) && Trim(a) && SigStable(w, a, m) && Coarse(w, a, m)
    ensures Alone(m, POST) <==> a.out[PRE] != []
  {
    PostAlone(w, a, m);
    if a.out[PRE] == [] {
      var r: Relation := (s, t) => s in {PRE, POST} && t in {PRE, POST};
      assert Respected(w, a, r);
      assert r(PRE, POST);
    }
  }

  function Key<K(==)>(w: Semiring<K>, a: Automaton<K>, m: Classes): State -> Signature<K> {
    (s: State) => if s in a.out then Sig(w, a.out[s], m) else map[]
  }

  lemma CoarseKept<K(!new)>(w: Semiring<K>, a: Automaton<K>, p: Parts, c: Class, p': Parts)
    requires ValidStates(a) && (forall s :: s in p.classOf <==> IsState(a, s)) && Coarse(w, a, p.classOf)
    requires Refines(p, Key(w, a, p.classOf), c, p')
    ensures Coarse(w, a, p'.classOf)
  {
    forall r: Relation | Respected(w, a, r)
      ensures Contains(p'.classOf, r)
    {
      assert Contains(p.classOf, r);
      forall s, t | s in p'.classOf && t in p'.classOf && r(s, t)
        ensures p'.classOf[s] == p'.classOf[t]
      {
        assert s in p.classOf && t in p.classOf && p.Same(s, t);
        assert Sig(w, a.out[s], p.classOf) == Sig(w, a.out[t], p.classOf);
        assert p'.Same(s, t);
      }
    }
  }

  // ---------------------------------------------------------------------
  // The refinement
  // ---------------------------------------------------------------------

  // The states of c have the same signature.
  ghost predicate Checked<K(!new)>(w: Semiring<K>, a: Automaton<K>, p: Parts, c: Class)
    requires c < |p.classes|
  {
    forall s, t | s in p.classes[c] && t in p.classes[c] :: Key(w, a, p.classOf)(s) == Key(w, a, p.classOf)(t)
  }

  // The classes that may still be split are listed.
  ghost predicate Pending(p: Parts, classes: set<Class>) {
    && (forall c <- classes :: c < |p.classes|)
    && (forall c | 0 <= c < |p.classes| && c !in classes :: |p.classes[c]| == 1)
  }

  ghost predicate Refined<K(!new)>(w: Semiring<K>, a: Automaton<K>, p: Parts)
    requires ValidStates(a)
  {
    && p.Valid() && (forall s :: s in p.classOf <==> IsState(a, s))
    && Coarse(w, a, p.classOf)
  }

  // Said of what equals p, so as to be looked into only where needed.
  ghost predicate Sound<K(!new)>(w: Semiring<K>, a: Automaton<K>, p: Parts)
    requires ValidStates(a)
  {
    forall q | q == p :: Refined(w, a, q)
  }

  // The states of the class have the same signature, as far as is known.
  ghost predicate Seen<K(!new)>(w: Semiring<K>, a: Automaton<K>, p: Parts, classes: set<Class>) {
    forall c <- classes :: c < |p.classes| && Checked(w, a, p, c)
  }

  lemma SoundStates<K(!new)>(w: Semiring<K>, a: Automaton<K>, p: Parts)
    requires ValidStates(a) && Sound(w, a, p)
    ensures p.Valid() && forall s :: s in p.classOf <==> IsState(a, s)
  {
    assert Refined(w, a, p);
  }

  lemma CheckedSame<K(!new)>(w: Semiring<K>, a: Automaton<K>, p: Parts, c: Class, s: State, t: State)
    requires c < |p.classes| && Checked(w, a, p, c) && s in p.classes[c] && t in p.classes[c]
    requires s in a.out && t in a.out
    ensures Sig(w, a.out[s], p.classOf) == Sig(w, a.out[t], p.classOf)
  {
    assert Key(w, a, p.classOf)(s) == Key(w, a, p.classOf)(t);
  }

  lemma AllChecked<K(!new)>(w: Semiring<K>, a: Automaton<K>, p: Parts, classes: set<Class>)
    requires ValidStates(a) && Sound(w, a, p) && Pending(p, classes) && Seen(w, a, p, classes)
    ensures SigStable(w, a, p.classOf)
  {
    SoundStates(w, a, p);
    forall s, t | s in p.classOf && t in p.classOf && p.classOf[s] == p.classOf[t]
      ensures Sig(w, a.out[s], p.classOf) == Sig(w, a.out[t], p.classOf)
    {
      var c := p.classOf[s];
      assert s in p.classes[c] && t in p.classes[c];
      if c in classes {
        CheckedSame(w, a, p, c, s, t);
      } else {
        OneState(p.classes[c], s, t);
      }
    }
  }

  lemma OneState(states: States, s: State, t: State)
    requires |states| == 1 && s in states && t in states
    ensures s == t
  {
  }

  lemma SameKeys<K>(a: Automaton<K>, m: Classes, m': Classes)
    requires m'.Keys == m.Keys && forall s :: s in m <==> IsState(a, s)
    ensures forall s :: s in m' <==> IsState(a, s)
  {
    forall s
      ensures s in m' <==> IsState(a, s)
    {
      assert s in m' <==> s in m;
    }
  }

  lemma RefinedSound<K(!new)>(w: Semiring<K>, a: Automaton<K>, p: Parts)
    requires ValidStates(a) && p.Valid() && (forall s :: s in p.classOf <==> IsState(a, s)) && Coarse(w, a, p.classOf)
    ensures Sound(w, a, p)
  {
    assert Refined(w, a, p);
  }

  lemma SoundRefined<K(!new)>(w: Semiring<K>, a: Automaton<K>, p: Parts)
    requires ValidStates(a) && Sound(w, a, p)
    ensures p.Valid() && (forall s :: s in p.classOf <==> IsState(a, s)) && Coarse(w, a, p.classOf)
  {
    assert Refined(w, a, p);
  }

  lemma SplitSound<K(!new)>(w: Semiring<K>, a: Automaton<K>, p: Parts, c: Class, p': Parts)
    requires ValidStates(a) && Sound(w, a, p) && p'.Valid() && Refines(p, Key(w, a, p.classOf), c, p')
    ensures Sound(w, a, p')
  {
    SoundRefined(w, a, p);
    CoarseKept(w, a, p, c, p');
    SameKeys(a, p.classOf, p'.classOf);
    RefinedSound(w, a, p');
  }

  class Minimizer<K(==, !new)> {
    const w: Semiring<K>
    const a: Automaton<K>
    const partition: Partition

    ghost predicate Valid()
      reads this, partition
    {
      ValidStates(a) && partition.Counted() && Sound(w, a, partition.Value())
    }

    // One class, with all the states.
    constructor (w: Semiring<K>, a: Automaton<K>)
      requires ValidStates(a)
      ensures this.w == w && this.a == a && fresh(partition)
      ensures Valid() && partition.numClasses == 1
    {
      this.w, this.a := w, a;
      partition := new Partition();
      new;
      var all := [PRE, POST] + a.states;
      var c := partition.MakeClass(all, None);
      OneClass(w, a, all, partition.Value());
    }

    static lemma OneClass(w: Semiring<K>, a: Automaton<K>, all: States, p: Parts)
      requires ValidStates(a) && all == [PRE, POST] + a.states
      requires p == Parts([all], Number(all, map[], 0))
      ensures Sound(w, a, p)
    {
      forall s
        ensures s in all <==> IsState(a, s)
      {
        assert all[0] == PRE && all[1] == POST;
      }
    }

    // Cluster the states of c by signature.
    method ClusterBySignature(c: Class) returns (target: Clusters<Signature<K>>)
      requires Valid() && c < partition.numClasses
      ensures Clustered(partition.classToSet[c], Key(w, a, partition.stateToClass), target)
    {
      var states := partition.classToSet[c];
      SoundStates(w, a, partition.Value());
      target := map[];
      for i := 0 to |states|
        invariant Clustered(states[..i], Key(w, a, partition.stateToClass), target)
      {
        var s := states[i];
        TakeMore(states, i);
        EmplaceClusters(states[..i], Key(w, a, partition.stateToClass), target, s);
        target := Emplace(target, Key(w, a, partition.stateToClass)(s), s);
      }
      TakeAll(states);
    }

    // Split c by signature, unless all its states have the same one.
    method Look(c: Class) returns (split: bool, made: seq<Class>)
      requires Valid() && c < partition.numClasses
      modifies partition
      ensures Valid()
      ensures split ==> partition.numClasses > old(partition.numClasses)
                        && (forall d :: d in made <==> d == c || old(partition.numClasses) <= d < partition.numClasses)
                        && (forall d | 0 <= d < old(partition.numClasses) && d != c ::
                              partition.classToSet[d] == old(partition.classToSet)[d])
      ensures !split ==> partition.Value() == old(partition.Value()) && Checked(w, a, partition.Value(), c)
    {
      ghost var p := partition.Value();
      SoundStates(w, a, p);
      var target := ClusterBySignature(c);
      if 2 <= |target| {
        assert Splittable(p, Key(w, a, p.classOf), c, target);
        made := partition.Split(c, Key(w, a, partition.stateToClass), target);
        SplitSound(w, a, p, c, partition.Value());
        split := true;
      } else {
        OneSignature(p, c, target);
        split, made := false, [];
      }
    }

    lemma OneSignature(p: Parts, c: Class, target: Clusters<Signature<K>>)
      requires c < |p.classes| && Clustered(p.classes[c], Key(w, a, p.classOf), target) && |target| < 2
      ensures Checked(w, a, p, c)
    {
      forall s, t | s in p.classes[c] && t in p.classes[c]
        ensures Key(w, a, p.classOf)(s) == Key(w, a, p.classOf)(t)
      {
        OneCluster(p.classes[c], Key(w, a, p.classOf), target, s, t);
      }
    }

    // Insert the new classes that may still be split; some of them are visited
    // during this pass.
    method InsertClasses(made: seq<Class>, classes0: set<Class>, todo0: set<Class>)
      returns (classes: set<Class>, todo: set<Class>)
      requires Valid() && todo0 <= classes0 && forall d <- made :: d < partition.numClasses
      ensures forall d :: d in classes <==> d in classes0 || (d in made && |partition.classToSet[d]| != 1)
      ensures todo <= classes
    {
      classes, todo := classes0, todo0;
      for i := 0 to |made|
        invariant forall d ::
                    d in classes <==> d in classes0 || (d in made[..i] && d < partition.numClasses
                                                        && |partition.classToSet[d]| != 1)
        invariant todo <= classes
      {
        var d := made[i];
        assert d in made && made[..i + 1] == made[..i] + [d];
        if |partition.classToSet[d]| != 1 {
          classes := classes + {d};
          if * {
            todo := todo + {d};
          }
        }
      }
      assert made[..|made|] == made;
    }

    lemma StillPending(p: Parts, c: Class, p': Parts, made: seq<Class>, classes: set<Class>, classes': set<Class>)
      requires Pending(p, classes) && c < |p.classes| <= |p'.classes|
      requires forall d :: d in made <==> d == c || |p.classes| <= d < |p'.classes|
      requires forall d | 0 <= d < |p.classes| && d != c :: p'.classes[d] == p.classes[d]
      requires forall d :: d in classes' <==>
                 d in classes - {c} || (d in made && d < |p'.classes| && |p'.classes[d]| != 1)
      ensures Pending(p', classes')
    {
    }

    lemma Bounded()
      requires Valid()
      ensures partition.numClasses <= |partition.stateToClass|
      ensures forall s :: s in partition.stateToClass <==> IsState(a, s)
    {
      SoundStates(w, a, partition.Value());
      FewClasses(partition.Value());
    }

    // Refine until nothing changes.
    method BuildClasses()
      requires Valid() && partition.numClasses == 1
      modifies partition
      ensures Valid() && SigStable(w, a, partition.stateToClass)
    {
      var classes: set<Class> := {0};
      var goOn := true;
      while goOn
        invariant Valid() && Pending(partition.Value(), classes)
        invariant !goOn ==> Seen(w, a, partition.Value(), classes)
        invariant |partition.stateToClass| == |old(partition.stateToClass)|
        decreases |old(partition.stateToClass)| - partition.numClasses, goOn
      {
        goOn, classes := Pass(classes);
      }
      AllChecked(w, a, partition.Value(), classes);
    }

    // Look at all the classes once.
    method Pass(classes0: set<Class>) returns (goOn: bool, classes: set<Class>)
      requires Valid() && Pending(partition.Value(), classes0)
      modifies partition
      ensures Valid() && Pending(partition.Value(), classes)
      ensures !goOn ==> Seen(w, a, partition.Value(), classes)
      ensures |partition.stateToClass| == |old(partition.stateToClass)|
      ensures if goOn then old(partition.numClasses) < partition.numClasses <= |partition.stateToClass|
              else partition.numClasses == old(partition.numClasses)
    {
      ghost var n := |partition.stateToClass|;
      goOn, classes := false, classes0;
      var todo := classes;
      Bounded();
      while todo != {}
        invariant Valid() && Pending(partition.Value(), classes) && todo <= classes
        invariant !goOn ==> Seen(w, a, partition.Value(), classes - todo)
        invariant |partition.stateToClass| == n && old(partition.numClasses) <= partition.numClasses <= n
        invariant goOn <==> old(partition.numClasses) < partition.numClasses
        decreases n - partition.numClasses, todo
      {
        var c :| c in todo;
        var split, more := Visit(c, classes, todo - {c});
        if split {
          goOn := true;
          classes, todo := more.0, more.1;
        } else {
          SeenMore(partition.Value(), classes, todo, c, goOn);
          todo := todo - {c};
        }
      }
      assert classes - {} == classes;
    }

    lemma SeenMore(p: Parts, classes: set<Class>, todo: set<Class>, c: Class, goOn: bool)
      requires !goOn ==> Seen(w, a, p, classes - todo)
      requires c < |p.classes| && Checked(w, a, p, c)
      ensures !goOn ==> Seen(w, a, p, classes - (todo - {c}))
    {
      if !goOn {
        forall d <- classes - (todo - {c})
          ensures d < |p.classes| && Checked(w, a, p, d)
        {
          assert d == c || d in classes - todo;
        }
      }
    }

    // Look at c, and list its parts if it is split.
    method Visit(c: Class, classes: set<Class>, todo: set<Class>) returns (split: bool, more: (set<Class>, set<Class>))
      requires Valid() && Pending(partition.Value(), classes) && c in classes && todo <= classes - {c}
      modifies partition
      ensures Valid() && |partition.stateToClass| == |old(partition.stateToClass)|
      ensures partition.numClasses <= |partition.stateToClass|
      ensures split ==> Pending(partition.Value(), more.0) && more.1 <= more.0
                        && partition.numClasses > old(partition.numClasses)
      ensures !split ==>
                partition.Value() == old(partition.Value()) && partition.numClasses == old(partition.numClasses)
                && Checked(w, a, partition.Value(), c)
    {
      ghost var p := partition.Value();
      Bounded();
      var made;
      split, made := Look(c);
      Bounded();
      SameStates(p.classOf, partition.stateToClass);
      more := ({}, {});
      if split {
        var classes', todo' := InsertClasses(made, classes - {c}, todo);
        StillPending(p, c, partition.Value(), made, classes, classes');
        more := (classes', todo');
      }
    }

    lemma SameStates(m: Classes, m': Classes)
      requires forall s :: s in m <==> s in m'
      ensures |m| == |m'|
    {
      assert m.Keys == m'.Keys && |m| == |m.Keys| && |m'| == |m'.Keys|;
    }
  }
}
