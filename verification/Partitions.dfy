// The classes of states that the minimization algorithms split
// (vcsn/algos/minimize-moore.hh, vcsn/algos/minimize-signature.hh,
// vcsn/algos/minimize-weighted.hh).
module Partitions {
  import opened Wrappers
  import opened Sets

  type State = nat
  type Class = nat
  type States = seq<State>

  // ---------------------------------------------------------------------
  // Clusters
  // ---------------------------------------------------------------------

  // The states of a class, per key.
  type Clusters<K> = map<K, States>

  ghost predicate Clustered<K>(states: States, key: State -> K, target: Clusters<K>) {
    && (forall k <- target :: target[k] != [])
    && (forall k <- target :: forall s <- target[k] :: s in states && key(s) == k)
    && (forall s <- states :: key(s) in target && s in target[key(s)])
  }

  // target[k].emplace_back(s)
  function Emplace<K>(target: Clusters<K>, k: K, s: State): Clusters<K> {
    target[k := (if k in target then target[k] else []) + [s]]
  }

  lemma EmplaceClusters<K>(states: States, key: State -> K, target: Clusters<K>, s: State)
    requires Clustered(states, key, target)
    ensures Clustered(states + [s], key, Emplace(target, key(s), s))
  {
    var target' := Emplace(target, key(s), s);
    forall t <- states + [s]
      ensures key(t) in target' && t in target'[key(t)]
    {
    }
  }

  lemma OneCluster<K>(states: States, key: State -> K, target: Clusters<K>, s: State, t: State)
    requires Clustered(states, key, target) && |target| < 2 && s in states && t in states
    ensures key(s) == key(t)
  {
    if key(s) != key(t) {
      assert {key(s), key(t)} <= target.Keys;
      SubsetSize({key(s), key(t)}, target.Keys);
    }
  }

  // ---------------------------------------------------------------------
  // Partitions
  // ---------------------------------------------------------------------

  // classes lists the states of each class, and classOf is the class of each
  // state.
  datatype Parts = Parts(classes: seq<States>, classOf: map<State, Class>) {
    ghost predicate Valid() {
      && (forall c | 0 <= c < |classes| :: classes[c] != [])
      && (forall c | 0 <= c < |classes| :: forall s <- classes[c] :: s in classOf && classOf[s] == c)
      && (forall s <- classOf :: classOf[s] < |classes| && s in classes[classOf[s]])
    }

    ghost predicate Same(s: State, t: State) {
      s in classOf && t in classOf && classOf[s] == classOf[t]
    }
  }

  // There are no more classes than states.
  lemma {:induction false} FirstStates(p: Parts, n: nat) returns (firsts: set<State>)
    requires p.Valid() && n <= |p.classes|
    ensures |firsts| == n && forall s <- firsts :: s in p.classOf && p.classOf[s] < n
    decreases n
  {
    if n == 0 {
      firsts := {};
    } else {
      var less := FirstStates(p, n - 1);
      var s := p.classes[n - 1][0];
      assert s in p.classes[n - 1];
      firsts := less + {s};
    }
  }

  lemma FewClasses(p: Parts)
    requires p.Valid()
    ensures |p.classes| <= |p.classOf|
  {
    var firsts := FirstStates(p, |p.classes|);
    SubsetSize(firsts, p.classOf.Keys);
    assert |p.classOf.Keys| == |p.classOf|;
  }

  // The partition p' is p, but c was split by the keys.
  ghost predicate Refines<K>(p: Parts, key: State -> K, c: Class, p': Parts) {
    && p'.classOf.Keys == p.classOf.Keys
    && forall s, t | s in p.classOf && t in p.classOf ::
         p'.Same(s, t) <==> p.Same(s, t) && (p.classOf[s] == c ==> key(s) == key(t))
  }

  // The states of set get the number of a class, maybe a new one.
  function Number(states: States, classOf: map<State, Class>, c: Class): map<State, Class> {
    map s | s in classOf.Keys + Elements(states) :: if s in states then c else classOf[s]
  }

  function Place(classes: seq<States>, states: States, c: Class): seq<States>
    requires c <= |classes|
  {
    if c < |classes| then classes[c := states] else classes + [states]
  }

  // The number of the j-th part of c, when there were n classes.
  function PartNumber(c: Class, n: nat, j: nat): Class {
    if j == 0 then c else n + j - 1
  }

  // The parts of c for the keys of order have their numbers.
  ghost predicate Splitting<K>(p: Parts, key: State -> K, c: Class, target: Clusters<K>, order: seq<K>, q: Parts)
    requires c < |p.classes| && forall k <- order :: k in target
  {
    && q.classOf.Keys == p.classOf.Keys
    && |q.classes| == (if order == [] then |p.classes| else |p.classes| + |order| - 1)
    && (forall d | 0 <= d < |p.classes| && d != c :: q.classes[d] == p.classes[d])
    && (forall j | 0 <= j < |order| :: q.classes[PartNumber(c, |p.classes|, j)] == target[order[j]])
    && (forall s <- p.classOf | p.classOf[s] != c || key(s) !in order :: q.classOf[s] == p.classOf[s])
    && (forall j | 0 <= j < |order| :: forall s <- target[order[j]] ::
          s in q.classOf && q.classOf[s] == PartNumber(c, |p.classes|, j))
  }

  lemma SplittingMore<K>(p: Parts, key: State -> K, c: Class, target: Clusters<K>, order: seq<K>, q: Parts, k: K)
    requires p.Valid() && c < |p.classes| && Clustered(p.classes[c], key, target)
    requires Distinct(order + [k]) && (forall x <- order :: x in target) && k in target
    requires Splitting(p, key, c, target, order, q)
    ensures PartNumber(c, |p.classes|, |order|) <= |q.classes|
    ensures var d := PartNumber(c, |p.classes|, |order|);
            var q' := Parts(Place(q.classes, target[k], d), Number(target[k], q.classOf, d));
            Splitting(p, key, c, target, order + [k], q')
  {
    var d := PartNumber(c, |p.classes|, |order|);
    var q' := Parts(Place(q.classes, target[k], d), Number(target[k], q.classOf, d));
    var order' := order + [k];
    forall s <- target[k]
      ensures s in p.classOf && p.classOf[s] == c && key(s) == k
    {
      assert s in p.classes[c];
    }
    assert q'.classOf.Keys == p.classOf.Keys;
    forall s <- p.classOf | p.classOf[s] != c || key(s) !in order'
      ensures q'.classOf[s] == p.classOf[s]
    {
      assert k in order' && forall x <- order :: x in order';
    }
    forall j | 0 <= j < |order'|
      ensures q'.classes[PartNumber(c, |p.classes|, j)] == target[order'[j]]
      ensures forall s <- target[order'[j]] :: s in q'.classOf && q'.classOf[s] == PartNumber(c, |p.classes|, j)
    {
      if j < |order| {
        assert order'[j] == order[j] && order'[|order|] == k;
        forall s <- target[order[j]]
          ensures s !in target[k]
        {
          assert key(s) == order[j];
        }
      }
    }
  }

  lemma SplittingEnds<K>(p: Parts, key: State -> K, c: Class, target: Clusters<K>, order: seq<K>, q: Parts)
    requires p.Valid() && c < |p.classes| && Clustered(p.classes[c], key, target)
    requires Distinct(order) && forall x :: x in order <==> x in target
    requires Splitting(p, key, c, target, order, q)
    ensures q.Valid() && Refines(p, key, c, q)
  {
    var n := |p.classes|;
    var first := p.classes[c][0];
    assert first in p.classes[c] && key(first) in order;
    forall s <- p.classOf | p.classOf[s] == c
      ensures exists j: nat :: j < |order| && order[j] == key(s) && s in target[order[j]]
                && q.classOf[s] == PartNumber(c, n, j)
    {
      assert s in p.classes[c] && key(s) in order;
      var j: nat :| j < |order| && order[j] == key(s);
    }
    SplittingValid(p, key, c, target, order, q);
    forall s, t | s in p.classOf && t in p.classOf
      ensures q.Same(s, t) <==> p.Same(s, t) && (p.classOf[s] == c ==> key(s) == key(t))
    {
      if p.classOf[s] == c && p.classOf[t] == c {
        var i: nat :| i < |order| && order[i] == key(s) && q.classOf[s] == PartNumber(c, n, i);
        var j: nat :| j < |order| && order[j] == key(t) && q.classOf[t] == PartNumber(c, n, j);
      }
    }
  }

  lemma SplittingValid<K>(p: Parts, key: State -> K, c: Class, target: Clusters<K>, order: seq<K>, q: Parts)
    requires p.Valid() && c < |p.classes| && Clustered(p.classes[c], key, target)
    requires order != [] && (forall x :: x in order <==> x in target)
    requires Splitting(p, key, c, target, order, q)
    requires forall s <- p.classOf | p.classOf[s] == c ::
               exists j: nat :: j < |order| && order[j] == key(s) && s in target[order[j]]
                     && q.classOf[s] == PartNumber(c, |p.classes|, j)
    ensures q.Valid()
  {
    var n := |p.classes|;
    forall d | 0 <= d < |q.classes|
      ensures q.classes[d] != []
      ensures forall s <- q.classes[d] :: s in q.classOf && q.classOf[s] == d
    {
      if d == c || d >= n {
        var j := if d == c then 0 else d - n + 1;
        assert PartNumber(c, n, j) == d;
        assert q.classes[PartNumber(c, n, j)] == target[order[j]];
        assert order[j] in target;
      } else {
        assert q.classes[d] == p.classes[d];
      }
    }
    forall s <- q.classOf
      ensures q.classOf[s] < |q.classes| && s in q.classes[q.classOf[s]]
    {
      if p.classOf[s] == c {
        var j: nat :| j < |order| && order[j] == key(s) && s in target[order[j]] && q.classOf[s] == PartNumber(c, n, j);
        assert q.classes[PartNumber(c, n, j)] == target[order[j]];
      } else {
        assert q.classOf[s] == p.classOf[s];
      }
    }
  }

  // Said of what equals q, so as to be looked into only where needed.
  ghost predicate Progress<K>(p: Parts, key: State -> K, c: Class, target: Clusters<K>, order: seq<K>, q: Parts)
    requires c < |p.classes| && forall k <- order :: k in target
  {
    forall r | r == q :: Splitting(p, key, c, target, order, r)
  }

  // The class c of p can be split; said of what equals p, so as to be looked
  // into only where needed.
  ghost predicate Splittable<K>(p: Parts, key: State -> K, c: Class, target: Clusters<K>) {
    forall q | q == p :: q.Valid() && c < |q.classes| && Clustered(q.classes[c], key, target)
  }

  lemma ProgressStarts<K>(p: Parts, key: State -> K, c: Class, target: Clusters<K>)
    requires c < |p.classes|
    ensures Progress(p, key, c, target, [], p)
  {
  }

  lemma ProgressMore<K>(p: Parts, key: State -> K, c: Class, target: Clusters<K>, order: seq<K>, q: Parts, k: K)
    requires Splittable(p, key, c, target) && c < |p.classes|
    requires k !in order && Distinct(order) && (forall x <- order :: x in target) && k in target
    requires Progress(p, key, c, target, order, q)
    ensures target[k] != []
    ensures |q.classes| == (if order == [] then |p.classes| else |p.classes| + |order| - 1)
    ensures var d := PartNumber(c, |p.classes|, |order|);
            d <= |q.classes|
            && Progress(p, key, c, target, order + [k],
                 Parts(Place(q.classes, target[k], d), Number(target[k], q.classOf, d)))
  {
    assert p.Valid() && Clustered(p.classes[c], key, target);
    SplittingMore(p, key, c, target, order, q, k);
  }

  lemma ProgressEnds<K>(p: Parts, key: State -> K, c: Class, target: Clusters<K>, order: seq<K>, q: Parts)
    requires Splittable(p, key, c, target) && c < |p.classes|
    requires Distinct(order) && forall x :: x in order <==> x in target
    requires Progress(p, key, c, target, order, q)
    ensures q.Valid() && Refines(p, key, c, q)
    ensures order != [] && |q.classes| == |p.classes| + |order| - 1
    ensures forall d | 0 <= d < |p.classes| && d != c :: q.classes[d] == p.classes[d]
  {
    assert p.Valid() && Clustered(p.classes[c], key, target);
    SplittingEnds(p, key, c, target, order, q);
    assert p.classes[c][0] in p.classes[c];
  }

  // The numbers of the parts.
  ghost predicate Numbers(c: Class, n: nat, made: seq<Class>) {
    forall j | 0 <= j < |made| :: made[j] == PartNumber(c, n, j)
  }

  lemma NumbersAll(c: Class, n: nat, made: seq<Class>)
    requires Numbers(c, n, made) && c < n && made != []
    ensures forall d :: d in made <==> d == c || n <= d < n + |made| - 1
  {
    forall d
      ensures d in made <==> d == c || n <= d < n + |made| - 1
    {
      if d == c {
        assert made[0] == d;
      } else if n <= d < n + |made| - 1 {
        assert made[d - n + 1] == d;
      }
    }
  }

  class Partition {
    var classToSet: seq<States>
    var stateToClass: map<State, Class>
    var numClasses: nat

    ghost function Value(): Parts
      reads this
    {
      Parts(classToSet, stateToClass)
    }

    ghost predicate Counted()
      reads this
    {
      numClasses == |classToSet|
    }

    constructor ()
      ensures Counted() && Value() == Parts([], map[])
    {
      classToSet, stateToClass, numClasses := [], map[], 0;
    }

    // Let the states be those of class number, if any, or of one more class.
    method MakeClass(states: States, number: Option<Class>) returns (c: Class)
      requires Counted() && states != [] && (number.Some? ==> number.value < numClasses)
      modifies this
      ensures Counted() && c == (if number.Some? then number.value else old(numClasses))
      ensures Value() == Parts(Place(old(classToSet), states, c), Number(states, old(stateToClass), c))
    {
      if number.None? {
        c := numClasses;
        numClasses := numClasses + 1;
      } else {
        c := number.value;
      }
      stateToClass := Number(states, stateToClass, c);
      if c < |classToSet| {
        classToSet := classToSet[c := states];
      } else {
        classToSet := classToSet + [states];
      }
    }

    // Make the class of one more part of c.
    method MakePart<K(==)>(c: Class, ghost key: State -> K, target: Clusters<K>, k: K, number: Option<Class>,
                           ghost p: Parts,
                           ghost order: seq<K>)
      returns (d: Class)
      requires Counted() && c < |p.classes| && Splittable(p, key, c, target)
      requires k in target && k !in order && Distinct(order) && forall x <- order :: x in target
      requires Progress(p, key, c, target, order, Value())
      requires number == if order == [] then Some(c) else None
      modifies this
      ensures Counted() && Progress(p, key, c, target, order + [k], Value())
      ensures d == PartNumber(c, |p.classes|, |order|)
    {
      ProgressMore(p, key, c, target, order, Value(), k);
      d := MakeClass(target[k], number);
    }

    // Split c: its number is that of its first part, and the others get new
    // ones.
    method Split<K(==)>(c: Class, ghost key: State -> K, target: Clusters<K>) returns (made: seq<Class>)
      requires Counted() && c < numClasses && Splittable(Value(), key, c, target)
      modifies this
      ensures Counted() && Value().Valid() && Refines(old(Value()), key, c, Value())
      ensures |target| >= 1 && numClasses == old(numClasses) + |target| - 1
      ensures forall d :: d in made <==> d == c || old(numClasses) <= d < numClasses
      ensures forall d | 0 <= d < old(numClasses) && d != c :: classToSet[d] == old(classToSet)[d]
    {
      ghost var p := Value();
      ghost var order: seq<K> := [];
      var todo := target.Keys;
      var number := Some(c);
      made := [];
      ProgressStarts(p, key, c, target);
      while todo != {}
        invariant Counted() && todo <= target.Keys && |order| + |todo| == |target| && |made| == |order|
        invariant Distinct(order) && forall k :: k in order <==> k in target && k !in todo
        invariant Progress(p, key, c, target, order, Value())
        invariant number == if order == [] then Some(c) else None
        invariant Numbers(c, |p.classes|, made)
        decreases todo
      {
        var k :| k in todo;
        var d := MakePart(c, key, target, k, number, p, order);
        made := made + [d];
        number := None;
        todo := todo - {k};
        order := order + [k];
      }
      ProgressEnds(p, key, c, target, order, Value());
      NumbersAll(c, |p.classes|, made);
    }
  }
}
