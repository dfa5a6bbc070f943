// What an isomorphism keeps of a state: the classes of states among which an
// isomorphism is looked for (vcsn/algos/are-isomorphic.hh).
module StateClasses {
  import opened Sets
  import opened AllDistances
  import opened PointedAutomata
  import opened Isomorphisms

  type Incoming<K> = (State, Out<K>)

  // ---------------------------------------------------------------------
  // Bags
  // ---------------------------------------------------------------------

  function Bag<T, U>(xs: seq<T>, f: T -> U): multiset<U> {
    if xs == [] then multiset{} else multiset{f(xs[0])} + Bag(xs[1..], f)
  }

  lemma {:induction false} BagWithout<T, U>(xs: seq<T>, i: nat, f: T -> U)
    requires i < |xs|
    ensures Bag(xs, f) == multiset{f(xs[i])} + Bag(xs[..i] + xs[i + 1..], f)
    decreases |xs|
  {
    if i == 0 {
      assert xs[..0] + xs[1..] == xs[1..];
    } else {
      BagWithout(xs[1..], i - 1, f);
      assert (xs[..i] + xs[i + 1..])[1..] == xs[1..][..i - 1] + xs[1..][i..];
    }
  }

  lemma WithoutElements<T(!new)>(xs: seq<T>, i: nat)
    requires Distinct(xs) && i < |xs|
    ensures Distinct(xs[..i] + xs[i + 1..])
    ensures Elements(xs[..i] + xs[i + 1..]) == Elements(xs) - {xs[i]}
  {
    var ys := xs[..i] + xs[i + 1..];
    forall x
      ensures x in ys <==> x in xs && x != xs[i]
    {
      if x in xs && x != xs[i] {
        var j :| 0 <= j < |xs| && xs[j] == x;
        assert ys[if j < i then j else j - 1] == x;
      }
    }
  }

  ghost predicate SameKeys<T(!new), T'(!new), U>(s: set<T>, t: set<T'>, r: (T, T') -> bool, f: T -> U, g: T' -> U) {
    forall x, y | x in s && y in t && r(x, y) :: f(x) == g(y)
  }

  lemma FirstElement<T(!new)>(xs: seq<T>)
    ensures xs != [] ==> xs[0] in Elements(xs)
  {
  }

  // Related one to one, with the same keys, two lists have the same bag.
  lemma {:induction false} SameBag<T(!new), T'(!new), U>(xs: seq<T>, ys: seq<T'>, r: (T, T') -> bool, f: T -> U,
                                                         g: T' -> U)
    requires Distinct(xs) && Distinct(ys) && Onto(Elements(xs), Elements(ys), r)
    requires SameKeys(Elements(xs), Elements(ys), r, f, g)
    ensures Bag(xs, f) == Bag(ys, g)
    decreases |xs|
  {
    FirstElement(xs);
    FirstElement(ys);
    if xs != [] {
      var x := xs[0];
      var y :| y in Elements(ys) && r(x, y);
      var j :| 0 <= j < |ys| && ys[j] == y;
      BagStep(xs, ys, j, r, f, g);
      BagWithout(ys, j, g);
      SameBag(xs[1..], ys[..j] + ys[j + 1..], r, f, g);
    }
  }

  lemma BagStep<T(!new), T'(!new), U>(xs: seq<T>, ys: seq<T'>, j: nat, r: (T, T') -> bool, f: T -> U, g: T' -> U)
    requires Distinct(xs) && Distinct(ys) && Onto(Elements(xs), Elements(ys), r)
    requires SameKeys(Elements(xs), Elements(ys), r, f, g) && xs != [] && j < |ys| && r(xs[0], ys[j])
    ensures var rest := ys[..j] + ys[j + 1..];
            && Distinct(xs[1..]) && Distinct(rest) && Onto(Elements(xs[1..]), Elements(rest), r)
            && SameKeys(Elements(xs[1..]), Elements(rest), r, f, g) && f(xs[0]) == g(ys[j])
  {
    assert xs[0] in Elements(xs) && ys[j] in Elements(ys);
    SmallerOnto(Elements(xs), Elements(ys), r, xs[0], ys[j]);
    WithoutElements(xs, 0);
    WithoutElements(ys, j);
    assert xs[..0] + xs[1..] == xs[1..];
  }

  // ---------------------------------------------------------------------
  // Incoming transitions
  // ---------------------------------------------------------------------

  // The transitions of outs to s.
  function Into<K>(outs: seq<Out<K>>, s: State, src: State): seq<Incoming<K>> {
    if outs == [] then []
    else (if outs[0].dst == s then [(src, outs[0])] else []) + Into(outs[1..], s, src)
  }

  function AllInto<K>(a: Automaton<K>, srcs: seq<State>, s: State): seq<Incoming<K>> {
    if srcs == [] then []
    else (if srcs[0] in a.out then Into(a.out[srcs[0]], s, srcs[0]) else []) + AllInto(a, srcs[1..], s)
  }

  function AllStates<K>(a: Automaton<K>): seq<State> {
    [PRE, POST] + a.states
  }

  function AllIn<K>(a: Automaton<K>, s: State): seq<Incoming<K>> {
    AllInto(a, AllStates(a), s)
  }

  lemma {:induction false} IntoElements<K(!new)>(outs: seq<Out<K>>, s: State, src: State, x: Incoming<K>)
    ensures x in Into(outs, s, src) <==> x.0 == src && x.1 in outs && x.1.dst == s
    decreases |outs|
  {
    if outs != [] {
      assert outs == [outs[0]] + outs[1..];
      IntoElements(outs[1..], s, src, x);
    }
  }

  lemma {:induction false} IntoOnce<K(!new)>(outs: seq<Out<K>>, s: State, src: State)
    requires Single(outs)
    ensures Distinct(Into(outs, s, src))
    decreases |outs|
  {
    if outs != [] {
      IntoOnce(outs[1..], s, src);
      if outs[0].dst == s {
        var x, rest := (src, outs[0]), Into(outs[1..], s, src);
        IntoElements(outs[1..], s, src, x);
        PrependOnce(x, rest);
      }
    }
  }

  lemma PrependOnce<T>(x: T, xs: seq<T>)
    requires Distinct(xs) && x !in xs
    ensures Distinct([x] + xs)
  {
    forall i, j | 0 <= i < j < |[x] + xs|
      ensures ([x] + xs)[i] != ([x] + xs)[j]
    {
      assert xs[j - 1] in xs;
    }
  }

  lemma {:induction false} AllIntoElements<K(!new)>(a: Automaton<K>, srcs: seq<State>, s: State, x: Incoming<K>)
    ensures x in AllInto(a, srcs, s) <==> x.0 in srcs && x.0 in a.out && x.1 in a.out[x.0] && x.1.dst == s
    decreases |srcs|
  {
    if srcs != [] {
      assert srcs == [srcs[0]] + srcs[1..];
      AllIntoElements(a, srcs[1..], s, x);
      if srcs[0] in a.out {
        IntoElements(a.out[srcs[0]], s, srcs[0], x);
      }
    }
  }

  lemma ConcatOnce<T>(xs: seq<T>, ys: seq<T>)
    requires Distinct(xs) && Distinct(ys) && forall x | x in xs :: x !in ys
    ensures Distinct(xs + ys)
  {
    forall i, j | 0 <= i < j < |xs + ys|
      ensures (xs + ys)[i] != (xs + ys)[j]
    {
      if i < |xs| && |xs| <= j {
        assert xs[i] in xs && ys[j - |xs|] in ys;
      }
    }
  }

  lemma {:induction false} AllIntoOnce<K(!new)>(a: Automaton<K>, srcs: seq<State>, s: State)
    requires Distinct(srcs) && forall t <- a.out :: Single(a.out[t])
    ensures Distinct(AllInto(a, srcs, s))
    decreases |srcs|
  {
    if srcs != [] {
      AllIntoOnce(a, srcs[1..], s);
      if srcs[0] in a.out {
        var into, rest := Into(a.out[srcs[0]], s, srcs[0]), AllInto(a, srcs[1..], s);
        IntoOnce(a.out[srcs[0]], s, srcs[0]);
        forall x | x in into
          ensures x !in rest
        {
          IntoElements(a.out[srcs[0]], s, srcs[0], x);
          AllIntoElements(a, srcs[1..], s, x);
        }
        ConcatOnce(into, rest);
      }
    }
  }

  lemma AllStatesOnce<K>(a: Automaton<K>)
    requires ValidStates(a)
    ensures Distinct(AllStates(a)) && forall s :: s in AllStates(a) <==> IsState(a, s)
  {
    var all := AllStates(a);
    assert all[0] == PRE && all[1] == POST;
    forall i, j | 0 <= i < j < |all|
      ensures all[i] != all[j]
    {
      if j >= 2 {
        assert all[j] == a.states[j - 2] && a.states[j - 2] in a.states;
      }
    }
    forall s
      ensures s in all <==> IsState(a, s)
    {
    }
  }

  lemma AllInElements<K(!new)>(w: Semiring<K>, a: Automaton<K>, s: State)
    requires Valid(w, a)
    ensures Distinct(AllIn(a, s))
    ensures forall x :: x in AllIn(a, s) <==> IsState(a, x.0) && x.0 in a.out && x.1 in a.out[x.0] && x.1.dst == s
  {
    AllStatesOnce(a);
    AllIntoOnce(a, AllStates(a), s);
    forall x
      ensures x in AllIn(a, s) <==> IsState(a, x.0) && x.0 in a.out && x.1 in a.out[x.0] && x.1.dst == s
    {
      AllIntoElements(a, AllStates(a), s, x);
    }
  }

  // ---------------------------------------------------------------------
  // Features
  // ---------------------------------------------------------------------

  // What is hashed: whether the state is pre, or post, its incoming and its
  // outgoing transitions, and the numbers of their ends.
  datatype Features<K(==)> = Features(
    isPre: bool,
    isPost: bool,
    ins: multiset<(K, Label)>,
    sources: nat,
    outs: multiset<(K, Label)>,
    destinations: nat)

  function OutKey<K>(o: Out<K>): (K, Label) {
    (o.weight, o.lbl)
  }

  function InKey<K>(x: Incoming<K>): (K, Label) {
    OutKey(x.1)
  }

  function FeaturesOf<K(==, !new)>(a: Automaton<K>, s: State): Features<K> {
    var ins := AllIn(a, s);
    var outs := if s in a.out then a.out[s] else [];
    Features(s == PRE, s == POST,
             Bag(ins, InKey), |Sources(ins)|,
             Bag(outs, OutKey), |Destinations(outs)|)
  }

  function Sources<K(==, !new)>(ins: seq<Incoming<K>>): set<State> {
    set x | x in ins :: x.0
  }

  function Destinations<K(==, !new)>(outs: seq<Out<K>>): set<State> {
    set o | o in outs :: o.dst
  }

  lemma {:induction false} BagSize<T, U>(xs: seq<T>, f: T -> U)
    ensures |Bag(xs, f)| == |xs|
    decreases |xs|
  {
    if xs != [] {
      BagSize(xs[1..], f);
    }
  }

  lemma {:induction false} InBag<T(!new), U>(xs: seq<T>, f: T -> U, u: U)
    ensures u in Bag(xs, f) <==> exists x :: x in xs && f(x) == u
    decreases |xs|
  {
    if xs != [] {
      InBag(xs[1..], f, u);
      assert xs == [xs[0]] + xs[1..];
    }
  }

  // States with the same features look alike: pre and post are told, and the
  // transitions that leave and reach them are as many, for each weight and label
  // those of one if and only if those of the other, and with as many ends.
  lemma FeaturesTell<K(!new)>(w: Semiring<K>, a: Automaton<K>, b: Automaton<K>, s: State, t: State)
    requires Valid(w, a) && Valid(w, b) && IsState(a, s) && IsState(b, t) && FeaturesOf(a, s) == FeaturesOf(b, t)
    ensures (s == PRE <==> t == PRE) && (s == POST <==> t == POST)
    ensures |a.out[s]| == |b.out[t]| && |AllIn(a, s)| == |AllIn(b, t)|
    ensures |Destinations(a.out[s])| == |Destinations(b.out[t])| && |Sources(AllIn(a, s))| == |Sources(AllIn(b, t))|
    ensures forall o <- a.out[s] :: exists o' :: o' in b.out[t] && o'.weight == o.weight && o'.lbl == o.lbl
    ensures forall x <- AllIn(a, s) ::
              exists x' :: x' in AllIn(b, t) && x'.1.weight == x.1.weight && x'.1.lbl == x.1.lbl
  {
    BagSize(a.out[s], OutKey);
    BagSize(b.out[t], OutKey);
    BagSize(AllIn(a, s), InKey);
    BagSize(AllIn(b, t), InKey);
    forall o <- a.out[s]
      ensures exists o' :: o' in b.out[t] && o'.weight == o.weight && o'.lbl == o.lbl
    {
      InBag(a.out[s], OutKey, OutKey(o));
      InBag(b.out[t], OutKey, OutKey(o));
    }
    forall x <- AllIn(a, s)
      ensures exists x' :: x' in AllIn(b, t) && x'.1.weight == x.1.weight && x'.1.lbl == x.1.lbl
    {
      InBag(AllIn(a, s), InKey, InKey(x));
      InBag(AllIn(b, t), InKey, InKey(x));
    }
  }

  // ---------------------------------------------------------------------
  // Isomorphisms keep the features
  // ---------------------------------------------------------------------

  lemma OutsOnto<K(!new)>(outs: seq<Out<K>>, outs': seq<Out<K>>, h: StateMap)
    requires SameOuts(outs, outs', h) && Injective(h)
    ensures Onto(Elements(outs), Elements(outs'), (o: Out<K>, o': Out<K>) => o.dst in h && Moved(h, o) == o')
  {
  }

  lemma SameOutFeatures<K(!new)>(outs: seq<Out<K>>, outs': seq<Out<K>>, h: StateMap)
    requires SameOuts(outs, outs', h) && Injective(h) && Single(outs) && Single(outs')
    ensures Bag(outs, OutKey) == Bag(outs', OutKey) && |Destinations(outs)| == |Destinations(outs')|
  {
    OutsOnto(outs, outs', h);
    SameBag(outs, outs', (o: Out<K>, o': Out<K>) => o.dst in h && Moved(h, o) == o', OutKey, OutKey);
    DestinationsOnto(outs, outs', h);
    SameSize(Destinations(outs), Destinations(outs'), (s: State, t: State) => s in h && h[s] == t);
  }

  lemma DestinationsOnto<K(!new)>(outs: seq<Out<K>>, outs': seq<Out<K>>, h: StateMap)
    requires SameOuts(outs, outs', h) && Injective(h)
    ensures Onto(Destinations(outs), Destinations(outs'), (s: State, t: State) => s in h && h[s] == t)
  {
    var r := (s: State, t: State) => s in h && h[s] == t;
    forall s <- Destinations(outs)
      ensures exists t :: t in Destinations(outs') && r(s, t)
    {
      var o :| o in outs && o.dst == s;
      assert Moved(h, o).dst in Destinations(outs') && r(s, h[s]);
    }
    forall t <- Destinations(outs')
      ensures exists s :: s in Destinations(outs) && r(s, t)
    {
      var o' :| o' in outs' && o'.dst == t;
      var o :| o in outs && o.dst in h && Moved(h, o) == o';
      assert o.dst in Destinations(outs) && r(o.dst, t);
    }
  }

  // The transitions to s, and those to its image.
  lemma InForth<K(!new)>(w: Semiring<K>, a: Automaton<K>, b: Automaton<K>, h: StateMap, s: State, x: Incoming<K>)
    requires Valid(w, a) && Valid(w, b) && Isomorphism(a, b, h) && s in h && x in AllIn(a, s)
    ensures exists y :: y in AllIn(b, h[s]) && SameArc(h, x, y)
  {
    AllInElements(w, a, s);
    AllInElements(w, b, h[s]);
    assert SameOuts(a.out[x.0], b.out[h[x.0]], h);
    var y := (h[x.0], Moved(h, x.1));
    assert y in AllIn(b, h[s]) && SameArc(h, x, y);
  }

  lemma InBack<K(!new)>(w: Semiring<K>, a: Automaton<K>, b: Automaton<K>, h: StateMap, s: State, y: Incoming<K>)
    requires Valid(w, a) && Valid(w, b) && Isomorphism(a, b, h) && s in h && y in AllIn(b, h[s])
    ensures exists x :: x in AllIn(a, s) && SameArc(h, x, y)
  {
    AllInElements(w, a, s);
    AllInElements(w, b, h[s]);
    var x := ArcSource(w, a, b, h, s, y);
    assert x in AllIn(a, s) && SameArc(h, x, y);
  }

  // The arc to s that h moves to y.
  lemma ArcSource<K(!new)>(w: Semiring<K>, a: Automaton<K>, b: Automaton<K>, h: StateMap, s: State, y: Incoming<K>)
    returns (x: Incoming<K>)
    requires Valid(w, a) && Valid(w, b) && Isomorphism(a, b, h) && s in h
    requires y.0 in b.out && y.1 in b.out[y.0] && y.1.dst == h[s]
    ensures x.0 in a.out && x.1 in a.out[x.0] && x.1.dst == s && SameArc(h, x, y)
  {
    assert IsState(b, y.0);
    var t :| t in h && h[t] == y.0;
    assert SameOuts(a.out[t], b.out[h[t]], h);
    var o :| o in a.out[t] && o.dst in h && Moved(h, o) == y.1;
    assert o.dst == s;
    x := (t, o);
  }

  ghost function ArcRelation<K(!new)>(h: StateMap): (Incoming<K>, Incoming<K>) -> bool {
    (x: Incoming<K>, y: Incoming<K>) => SameArc(h, x, y)
  }

  // Two lists of arcs, one the image of the other.
  ghost predicate SameArcLists<K(!new)>(xs: seq<Incoming<K>>, ys: seq<Incoming<K>>, h: StateMap) {
    && (forall x <- xs :: exists y :: y in ys && SameArc(h, x, y))
    && (forall y <- ys :: exists x :: x in xs && SameArc(h, x, y))
  }

  lemma SameInFeatures<K(!new)>(xs: seq<Incoming<K>>, ys: seq<Incoming<K>>, h: StateMap)
    requires SameArcLists(xs, ys, h) && Injective(h) && Distinct(xs) && Distinct(ys)
    ensures Bag(xs, InKey) == Bag(ys, InKey) && |Sources(xs)| == |Sources(ys)|
  {
    ArcsOnto(xs, ys, h);
    SameBag(xs, ys, ArcRelation(h), InKey, InKey);
    SourcesOnto(xs, ys, h);
    SameSize(Sources(xs), Sources(ys), (s: State, t: State) => s in h && h[s] == t);
  }

  lemma ArcsOnto<K(!new)>(xs: seq<Incoming<K>>, ys: seq<Incoming<K>>, h: StateMap)
    requires SameArcLists(xs, ys, h) && Injective(h)
    ensures Onto(Elements(xs), Elements(ys), ArcRelation(h))
  {
    var r := ArcRelation(h);
    forall x <- Elements(xs)
      ensures exists y :: y in Elements(ys) && r(x, y)
    {
      var y :| y in ys && SameArc(h, x, y);
      assert y in Elements(ys) && r(x, y);
    }
    forall y <- Elements(ys)
      ensures exists x :: x in Elements(xs) && r(x, y)
    {
      var x :| x in xs && SameArc(h, x, y);
      assert x in Elements(xs) && r(x, y);
    }
    ArcsApart(h, r);
  }

  lemma ArcsApart<K(!new)>(h: StateMap, r: (Incoming<K>, Incoming<K>) -> bool)
    requires Injective(h) && r == ArcRelation(h)
    ensures forall x, x', y | r(x, y) && r(x', y) :: x == x'
  {
    forall x, x', y | r(x, y) && r(x', y)
      ensures x == x'
    {
      MovedApart(h, x, x', y);
    }
  }

  lemma SourcesOnto<K(!new)>(xs: seq<Incoming<K>>, ys: seq<Incoming<K>>, h: StateMap)
    requires SameArcLists(xs, ys, h) && Injective(h)
    ensures Onto(Sources(xs), Sources(ys), (s: State, t: State) => s in h && h[s] == t)
  {
    var r := (s: State, t: State) => s in h && h[s] == t;
    forall s <- Sources(xs)
      ensures exists t :: t in Sources(ys) && r(s, t)
    {
      var t := SourceForth(xs, ys, h, s);
      assert r(s, t);
    }
    forall t <- Sources(ys)
      ensures exists s :: s in Sources(xs) && r(s, t)
    {
      var s := SourceBack(xs, ys, h, t);
      assert r(s, t);
    }
  }

  lemma SourceForth<K(!new)>(xs: seq<Incoming<K>>, ys: seq<Incoming<K>>, h: StateMap, s: State) returns (t: State)
    requires SameArcLists(xs, ys, h) && s in Sources(xs)
    ensures t in Sources(ys) && s in h && h[s] == t
  {
    var x :| x in xs && x.0 == s;
    var y :| y in ys && SameArc(h, x, y);
    t := y.0;
  }

  lemma SourceBack<K(!new)>(xs: seq<Incoming<K>>, ys: seq<Incoming<K>>, h: StateMap, t: State) returns (s: State)
    requires SameArcLists(xs, ys, h) && t in Sources(ys)
    ensures s in Sources(xs) && s in h && h[s] == t
  {
    var y :| y in ys && y.0 == t;
    var x :| x in xs && SameArc(h, x, y);
    s := x.0;
  }

  // A state and its image have the same features.
  lemma SameFeatures<K(!new)>(w: Semiring<K>, a: Automaton<K>, b: Automaton<K>, h: StateMap, s: State)
    requires Valid(w, a) && Valid(w, b) && Isomorphism(a, b, h) && s in h
    ensures FeaturesOf(a, s) == FeaturesOf(b, h[s])
  {
    assert IsState(a, s) && IsState(b, h[s]);
    assert SameOuts(a.out[s], b.out[h[s]], h);
    SameOutFeatures(a.out[s], b.out[h[s]], h);
    SameIns(w, a, b, h, s);
    SamePointed(a, b, h, s);
  }

  lemma SamePointed<K(!new)>(a: Automaton<K>, b: Automaton<K>, h: StateMap, s: State)
    requires Isomorphism(a, b, h) && s in h
    ensures (s == PRE <==> h[s] == PRE) && (s == POST <==> h[s] == POST)
  {
    assert IsState(a, PRE) && IsState(a, POST);
  }

  lemma SameIns<K(!new)>(w: Semiring<K>, a: Automaton<K>, b: Automaton<K>, h: StateMap, s: State)
    requires Valid(w, a) && Valid(w, b) && Isomorphism(a, b, h) && s in h
    ensures Bag(AllIn(a, s), InKey) == Bag(AllIn(b, h[s]), InKey)
    ensures |Sources(AllIn(a, s))| == |Sources(AllIn(b, h[s]))|
  {
    forall x <- AllIn(a, s)
      ensures exists y :: y in AllIn(b, h[s]) && SameArc(h, x, y)
    {
      InForth(w, a, b, h, s, x);
    }
    forall y <- AllIn(b, h[s])
      ensures exists x :: x in AllIn(a, s) && SameArc(h, x, y)
    {
      InBack(w, a, b, h, s, y);
    }
    AllInElements(w, a, s);
    AllInElements(w, b, h[s]);
    SameInFeatures(AllIn(a, s), AllIn(b, h[s]), h);
  }
}
