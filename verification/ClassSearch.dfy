// The search for an isomorphism among all the combinations of permutations of
// the classes of states (vcsn/algos/are-isomorphic.hh).
module ClassSearch {
  import opened Sets
  import opened AllDistances
  import opened PointedAutomata
  import opened Isomorphisms
  import opened IsomorphismCheck
  import opened StateClasses
  import Permutations
  import Combinations

  type States = seq<State>

  // ---------------------------------------------------------------------
  // The classes
  // ---------------------------------------------------------------------

  // The states of both sides, by class.
  type Table = map<nat, (States, States)>

  ghost predicate Holds(all: States, id: State -> nat, k: nat, states: States) {
    Distinct(states) && forall s :: s in states <==> s in all && id(s) == k
  }

  ghost predicate Tabled(id1: State -> nat, all1: States, id2: State -> nat, all2: States, table: Table) {
    && (forall k | k in table :: Holds(all1, id1, k, table[k].0) && Holds(all2, id2, k, table[k].1))
    && (forall s <- all1 :: id1(s) in table)
    && (forall s <- all2 :: id2(s) in table)
  }

  function Entry(table: Table, k: nat): (States, States) {
    if k in table then table[k] else ([], [])
  }

  lemma HoldsMore(all: States, id: State -> nat, k: nat, states: States, s: State)
    requires Holds(all, id, k, states) && s !in all
    ensures Holds(all + [s], id, k, if id(s) == k then states + [s] else states)
  {
  }

  lemma HoldsNone(all: States, id: State -> nat, k: nat)
    requires forall s <- all :: id(s) != k
    ensures Holds(all, id, k, [])
  {
  }

  lemma FirstTabled(id1: State -> nat, all1: States, id2: State -> nat, all2: States, table: Table, s: State)
    requires Tabled(id1, all1, id2, all2, table) && s !in all1
    ensures var e := Entry(table, id1(s)); Tabled(id1, all1 + [s], id2, all2, table[id1(s) := (e.0 + [s], e.1)])
  {
    var k := id1(s);
    var e := Entry(table, k);
    var table' := table[k := (e.0 + [s], e.1)];
    if k !in table {
      HoldsNone(all1, id1, k);
      HoldsNone(all2, id2, k);
    }
    forall l | l in table'
      ensures Holds(all1 + [s], id1, l, table'[l].0) && Holds(all2, id2, l, table'[l].1)
    {
      HoldsMore(all1, id1, l, Entry(table, l).0, s);
    }
  }

  lemma SecondTabled(id1: State -> nat, all1: States, id2: State -> nat, all2: States, table: Table, s: State)
    requires Tabled(id1, all1, id2, all2, table) && s !in all2
    ensures var e := Entry(table, id2(s)); Tabled(id1, all1, id2, all2 + [s], table[id2(s) := (e.0, e.1 + [s])])
  {
    var k := id2(s);
    var e := Entry(table, k);
    var table' := table[k := (e.0, e.1 + [s])];
    if k !in table {
      HoldsNone(all1, id1, k);
      HoldsNone(all2, id2, k);
    }
    forall l | l in table'
      ensures Holds(all1, id1, l, table'[l].0) && Holds(all2 + [s], id2, l, table'[l].1)
    {
      HoldsMore(all2, id2, l, Entry(table, l).1, s);
    }
  }

  // Class the states of both sides.
  method FillTable(id1: State -> nat, all1: States, id2: State -> nat, all2: States) returns (table: Table)
    requires Distinct(all1) && Distinct(all2)
    ensures Tabled(id1, all1, id2, all2, table)
  {
    table := map[];
    for i := 0 to |all1|
      invariant Tabled(id1, all1[..i], id2, [], table)
    {
      var s := all1[i];
      var e := Entry(table, id1(s));
      assert all1[..i + 1] == all1[..i] + [s] && s !in all1[..i];
      FirstTabled(id1, all1[..i], id2, [], table, s);
      table := table[id1(s) := (e.0 + [s], e.1)];
    }
    assert all1[..|all1|] == all1 && all2[..0] == [];
    for i := 0 to |all2|
      invariant Tabled(id1, all1, id2, all2[..i], table)
    {
      var s := all2[i];
      var e := Entry(table, id2(s));
      assert all2[..i + 1] == all2[..i] + [s] && s !in all2[..i];
      SecondTabled(id1, all1, id2, all2[..i], table, s);
      table := table[id2(s) := (e.0, e.1 + [s])];
    }
    assert all2[..|all2|] == all2;
  }

  // ---------------------------------------------------------------------
  // Sorting
  // ---------------------------------------------------------------------

  function Insert(xs: States, x: State): (r: States)
    ensures forall y :: y in r <==> y in xs || y == x
  {
    if xs == [] then [x]
    else
      assert xs == [xs[0]] + xs[1..];
      if x < xs[0] then [x] + xs else [xs[0]] + Insert(xs[1..], x)
  }

  lemma {:induction false} InsertAscending(xs: States, x: State)
    requires Permutations.Ascending(xs) && x !in xs
    ensures Permutations.Ascending(Insert(xs, x))
    decreases |xs|
  {
    if xs != [] && x >= xs[0] {
      var rest := Insert(xs[1..], x);
      InsertAscending(xs[1..], x);
      forall i | 0 <= i < |rest|
        ensures xs[0] < rest[i]
      {
        assert rest[i] in rest;
      }
    }
  }

  method SortStates(xs: States) returns (r: States)
    requires Distinct(xs)
    ensures Permutations.Ascending(r) && forall s :: s in r <==> s in xs
  {
    r := [];
    for i := 0 to |xs|
      invariant Permutations.Ascending(r) && forall s :: s in r <==> s in xs[..i]
    {
      assert xs[i] !in xs[..i] && xs[..i + 1] == xs[..i] + [xs[i]];
      InsertAscending(r, xs[i]);
      r := Insert(r, xs[i]);
    }
    assert xs[..|xs|] == xs;
  }

  // ---------------------------------------------------------------------
  // The list of the classes
  // ---------------------------------------------------------------------

  // firsts[i] and seconds[i] are the states of both sides in the class ks[i].
  ghost predicate Classified(id1: State -> nat, all1: States, id2: State -> nat, all2: States, firsts: seq<States>,
                             seconds: seq<States>, ks: seq<nat>) {
    && |firsts| == |seconds| == |ks| && Distinct(ks)
    && (forall i | 0 <= i < |ks| :: Holds(all1, id1, ks[i], firsts[i]))
    && (forall i | 0 <= i < |ks| :: Holds(all2, id2, ks[i], seconds[i]) && Permutations.Ascending(seconds[i]))
    && (forall s <- all1 :: id1(s) in ks)
    && (forall s <- all2 :: id2(s) in ks)
  }

  method ListClasses(ghost id1: State -> nat, ghost all1: States, ghost id2: State -> nat, ghost all2: States,
                     table: Table)
    returns (firsts: seq<States>, seconds: seq<States>, ghost ks: seq<nat>)
    requires Tabled(id1, all1, id2, all2, table)
    ensures Classified(id1, all1, id2, all2, firsts, seconds, ks)
  {
    firsts, seconds, ks := [], [], [];
    var todo := table.Keys;
    while todo != {}
      invariant todo <= table.Keys && forall k :: k in ks <==> k in table && k !in todo
      invariant |firsts| == |seconds| == |ks| && Distinct(ks)
      invariant forall i | 0 <= i < |ks| :: Holds(all1, id1, ks[i], firsts[i])
      invariant forall i | 0 <= i < |ks| :: Holds(all2, id2, ks[i], seconds[i]) && Permutations.Ascending(seconds[i])
      decreases todo
    {
      var k :| k in todo;
      var sorted := SortStates(table[k].1);
      SortedHolds(all2, id2, k, table[k].1, sorted);
      ConcatOnce(ks, [k]);
      firsts, seconds, ks := firsts + [table[k].0], seconds + [sorted], ks + [k];
      todo := todo - {k};
    }
  }

  lemma SortedHolds(all: States, id: State -> nat, k: nat, states: States, sorted: States)
    requires Holds(all, id, k, states) && Permutations.Ascending(sorted) && forall s :: s in sorted <==> s in states
    ensures Holds(all, id, k, sorted)
  {
  }

  // ---------------------------------------------------------------------
  // The bijection of a combination
  // ---------------------------------------------------------------------

  ghost predicate SameSizes(firsts: seq<States>, seconds: seq<States>) {
    |firsts| == |seconds| && forall i | 0 <= i < |firsts| :: |firsts[i]| == |seconds[i]|
  }

  // No state is listed twice.
  ghost predicate Apart(classes: seq<States>) {
    && (forall i | 0 <= i < |classes| :: Distinct(classes[i]))
    && forall i, j | 0 <= i < j < |classes| :: forall s <- classes[i] :: s !in classes[j]
  }

  // The j first states of the class i are sent to those of the other side.
  ghost predicate SeatedUpTo(f: StateMap, xs: States, ys: States, j: nat) {
    |xs| == |ys| && forall k | 0 <= k < j && k < |xs| :: xs[k] in f && f[xs[k]] == ys[k]
  }

  ghost predicate Seated(f: StateMap, firsts: seq<States>, seconds: seq<States>) {
    |firsts| == |seconds| && forall i | 0 <= i < |firsts| :: SeatedUpTo(f, firsts[i], seconds[i], |firsts[i]|)
  }

  lemma SeatedNext(f: StateMap, xs: States, ys: States, i: nat)
    requires Distinct(xs) && i < |xs| && SeatedUpTo(f, xs, ys, i)
    ensures SeatedUpTo(f[xs[i] := ys[i]], xs, ys, i + 1)
  {
  }

  // Send the states of a class to those of the other side.
  method UpdateClass(f0: StateMap, g0: StateMap, xs: States, ys: States) returns (f: StateMap, g: StateMap)
    requires |xs| == |ys| && Distinct(xs) && Distinct(ys)
    ensures SeatedUpTo(f, xs, ys, |xs|) && SeatedUpTo(g, ys, xs, |xs|)
    ensures forall s | s !in xs :: (s in f <==> s in f0) && (s in f ==> f[s] == f0[s])
    ensures forall t | t !in ys :: (t in g <==> t in g0) && (t in g ==> g[t] == g0[t])
  {
    f, g := f0, g0;
    for i := 0 to |xs|
      invariant SeatedUpTo(f, xs, ys, i) && SeatedUpTo(g, ys, xs, i)
      invariant forall s | s !in xs :: (s in f <==> s in f0) && (s in f ==> f[s] == f0[s])
      invariant forall t | t !in ys :: (t in g <==> t in g0) && (t in g ==> g[t] == g0[t])
    {
      SeatedNext(f, xs, ys, i);
      SeatedNext(g, ys, xs, i);
      f := f[xs[i] := ys[i]];
      g := g[ys[i] := xs[i]];
    }
  }

  lemma StillSeated(f: StateMap, f': StateMap, xs: States, ys: States, zs: States)
    requires SeatedUpTo(f, xs, ys, |xs|) && forall s <- xs :: s !in zs
    requires forall s | s !in zs :: (s in f' <==> s in f) && (s in f' ==> f'[s] == f[s])
    ensures SeatedUpTo(f', xs, ys, |xs|)
  {
    forall k | 0 <= k < |xs|
      ensures xs[k] in f' && f'[xs[k]] == ys[k]
    {
      assert xs[k] in xs;
    }
  }

  ghost predicate Listed(classes: seq<States>, s: State) {
    exists i :: 0 <= i < |classes| && s in classes[i]
  }

  // The i first classes are sent to those of the other side.
  ghost predicate SeatedClasses(f: StateMap, firsts: seq<States>, seconds: seq<States>, i: nat) {
    && |firsts| == |seconds|
    && (forall j | 0 <= j < i && j < |firsts| :: SeatedUpTo(f, firsts[j], seconds[j], |firsts[j]|))
    && forall s <- f :: Listed(firsts, s)
  }

  lemma SeatedMore(f: StateMap, f': StateMap, firsts: seq<States>, seconds: seq<States>, i: nat)
    requires SeatedClasses(f, firsts, seconds, i) && i < |firsts| && Apart(firsts)
    requires SeatedUpTo(f', firsts[i], seconds[i], |firsts[i]|)
    requires forall s | s !in firsts[i] :: (s in f' <==> s in f) && (s in f' ==> f'[s] == f[s])
    ensures SeatedClasses(f', firsts, seconds, i + 1)
  {
    forall j | 0 <= j < i
      ensures SeatedUpTo(f', firsts[j], seconds[j], |firsts[j]|)
    {
      StillSeated(f, f', firsts[j], seconds[j], firsts[i]);
    }
  }

  method UpdateResult(f0: StateMap, g0: StateMap, firsts: seq<States>, seconds: seq<States>)
    returns (f: StateMap, g: StateMap)
    requires SameSizes(firsts, seconds) && Apart(firsts) && Apart(seconds)
    requires (forall s <- f0 :: Listed(firsts, s)) && (forall t <- g0 :: Listed(seconds, t))
    ensures Seated(f, firsts, seconds) && Seated(g, seconds, firsts)
    ensures (forall s <- f :: Listed(firsts, s)) && (forall t <- g :: Listed(seconds, t))
  {
    f, g := f0, g0;
    for i := 0 to |firsts|
      invariant SeatedClasses(f, firsts, seconds, i) && SeatedClasses(g, seconds, firsts, i)
    {
      var f', g' := UpdateClass(f, g, firsts[i], seconds[i]);
      SeatedMore(f, f', firsts, seconds, i);
      SeatedMore(g, g', seconds, firsts, i);
      f, g := f', g';
    }
  }

  // The combination of a bijection.
  function Seats(h: StateMap, firsts: seq<States>): (r: seq<States>)
    requires forall i | 0 <= i < |firsts| :: forall s <- firsts[i] :: s in h
    ensures |r| == |firsts| && forall i | 0 <= i < |firsts| :: |r[i]| == |firsts[i]|
    ensures forall i, j | 0 <= i < |firsts| && 0 <= j < |firsts[i]| :: r[i][j] == h[firsts[i][j]]
  {
    seq(|firsts|, i requires 0 <= i < |firsts| => seq(|firsts[i]|, j requires 0 <= j < |firsts[i]| =>
      assert firsts[i][j] in firsts[i]; h[firsts[i][j]]))
  }

  // A bijection with the same combination is the same.
  lemma SeatsOnly(h: StateMap, f: StateMap, firsts: seq<States>)
    requires forall i | 0 <= i < |firsts| :: forall s <- firsts[i] :: s in h
    requires Seated(f, firsts, Seats(h, firsts)) && (forall s <- h :: Listed(firsts, s))
               && (forall s <- f :: Listed(firsts, s))
    ensures f == h
  {
    forall s | s in h || s in f
      ensures s in h && s in f && f[s] == h[s]
    {
      var i :| 0 <= i < |firsts| && s in firsts[i];
      var j :| 0 <= j < |firsts[i]| && firsts[i][j] == s;
      assert SeatedUpTo(f, firsts[i], Seats(h, firsts)[i], |firsts[i]|);
    }
  }

  // ---------------------------------------------------------------------
  // Isomorphisms and combinations
  // ---------------------------------------------------------------------

  // The classes of the states of both automata, by the hash of their features.
  ghost predicate Classes<K(!new)>(a: Automaton<K>, b: Automaton<K>, hash: Features<K> -> nat, firsts: seq<States>,
                                   seconds: seq<States>, ks: seq<nat>) {
    Classified((s: State) => hash(FeaturesOf(a, s)), AllStates(a), (s: State) => hash(FeaturesOf(b, s)), AllStates(b),
               firsts, seconds, ks)
  }

  lemma ClassesApart(id1: State -> nat, all1: States, id2: State -> nat, all2: States, firsts: seq<States>,
                     seconds: seq<States>, ks: seq<nat>)
    requires Classified(id1, all1, id2, all2, firsts, seconds, ks)
    ensures Apart(firsts) && Apart(seconds)
    ensures forall s :: Listed(firsts, s) <==> s in all1
    ensures forall s :: Listed(seconds, s) <==> s in all2
  {
    forall s
      ensures Listed(firsts, s) <==> s in all1
      ensures Listed(seconds, s) <==> s in all2
    {
      if s in all1 {
        var i :| 0 <= i < |ks| && ks[i] == id1(s);
        assert Holds(all1, id1, ks[i], firsts[i]);
      }
      if s in all2 {
        var i :| 0 <= i < |ks| && ks[i] == id2(s);
        assert Holds(all2, id2, ks[i], seconds[i]);
      }
    }
    ApartSide(id1, all1, firsts, ks);
    ApartSide(id2, all2, seconds, ks);
  }

  lemma ApartSide(id: State -> nat, all: States, classes: seq<States>, ks: seq<nat>)
    requires |classes| == |ks| && Distinct(ks) && forall i | 0 <= i < |ks| :: Holds(all, id, ks[i], classes[i])
    ensures Apart(classes)
  {
  }

  // What an isomorphism does to the states of a class.
  lemma SeatOfClass<K(!new)>(w: Semiring<K>, a: Automaton<K>, b: Automaton<K>, hash: Features<K> -> nat, h: StateMap,
                             k: nat, xs: States, ys: States, zs: States)
    requires Valid(w, a) && Valid(w, b) && Isomorphism(a, b, h)
    requires Holds(AllStates(a), (s: State) => hash(FeaturesOf(a, s)), k, xs)
    requires Holds(AllStates(b), (s: State) => hash(FeaturesOf(b, s)), k, ys)
    requires |zs| == |xs| && forall j | 0 <= j < |xs| :: xs[j] in h && zs[j] == h[xs[j]]
    ensures Distinct(zs) && Elements(zs) == Elements(ys)
  {
    AllStatesOnce(a);
    AllStatesOnce(b);
    forall s | s in h
      ensures s in xs <==> h[s] in ys
    {
      ImageClass(w, a, b, hash, h, k, xs, ys, s);
    }
    forall t | t in ys
      ensures exists s :: s in h && h[s] == t
    {
      assert IsState(b, t);
    }
    SeatElements(h, xs, ys, zs);
  }

  // A state and its image are in the same class.
  lemma ImageClass<K(!new)>(w: Semiring<K>, a: Automaton<K>, b: Automaton<K>, hash: Features<K> -> nat, h: StateMap,
                            k: nat, xs: States, ys: States, s: State)
    requires Valid(w, a) && Valid(w, b) && Isomorphism(a, b, h) && s in h
    requires Holds(AllStates(a), (s: State) => hash(FeaturesOf(a, s)), k, xs)
    requires Holds(AllStates(b), (s: State) => hash(FeaturesOf(b, s)), k, ys)
    ensures s in xs <==> h[s] in ys
  {
    AllStatesOnce(a);
    AllStatesOnce(b);
    SameFeatures(w, a, b, h, s);
    assert IsState(a, s) && IsState(b, h[s]);
  }

  lemma SeatElements(h: StateMap, xs: States, ys: States, zs: States)
    requires |zs| == |xs| && forall j | 0 <= j < |xs| :: xs[j] in h && zs[j] == h[xs[j]]
    requires Injective(h) && Distinct(xs)
    requires forall s | s in h :: s in xs <==> h[s] in ys
    requires forall y <- ys :: exists s :: s in h && h[s] == y
    ensures Distinct(zs) && Elements(zs) == Elements(ys)
  {
    forall z
      ensures z in zs <==> z in ys
    {
      if z in zs {
        var j :| 0 <= j < |zs| && zs[j] == z;
        assert xs[j] in xs;
      }
      if z in ys {
        var s :| s in h && h[s] == z;
        var j :| 0 <= j < |xs| && xs[j] == s;
        assert zs[j] == z;
      }
    }
  }

  lemma FirstsSent<K(!new)>(a: Automaton<K>, b: Automaton<K>, hash: Features<K> -> nat, h: StateMap,
                            firsts: seq<States>, seconds: seq<States>, ks: seq<nat>)
    requires ValidStates(a) && Isomorphism(a, b, h) && Classes(a, b, hash, firsts, seconds, ks)
    ensures forall i | 0 <= i < |firsts| :: forall s <- firsts[i] :: s in h
  {
    AllStatesOnce(a);
    forall i, s | 0 <= i < |firsts| && s in firsts[i]
      ensures s in h
    {
      assert s in AllStates(a) && IsState(a, s);
    }
  }

  lemma SeatsPermuted<K(!new)>(w: Semiring<K>, a: Automaton<K>, b: Automaton<K>, hash: Features<K> -> nat, h: StateMap,
                               firsts: seq<States>, seconds: seq<States>, ks: seq<nat>)
    requires Valid(w, a) && Valid(w, b) && Isomorphism(a, b, h) && Classes(a, b, hash, firsts, seconds, ks)
    ensures forall i | 0 <= i < |firsts| :: forall s <- firsts[i] :: s in h
    ensures Combinations.Permuted(seconds, Seats(h, firsts)) && SameSizes(firsts, seconds)
  {
    FirstsSent(a, b, hash, h, firsts, seconds, ks);
    var seats := Seats(h, firsts);
    forall i | 0 <= i < |firsts|
      ensures Distinct(seconds[i]) && Distinct(seats[i])
      ensures Elements(seconds[i]) == Elements(seats[i]) && |firsts[i]| == |seconds[i]|
    {
      SeatOfClass(w, a, b, hash, h, ks[i], firsts[i], seconds[i], seats[i]);
      ElementsSize(seats[i]);
      ElementsSize(seconds[i]);
    }
  }

  // ---------------------------------------------------------------------
  // The search
  // ---------------------------------------------------------------------

  // The combination of h comes after n others.
  ghost predicate SeatsAfter(h: StateMap, firsts: seq<States>, n: nat) {
    && (forall i | 0 <= i < |firsts| :: forall s <- firsts[i] :: s in h)
    && Combinations.Number(Seats(h, firsts)) >= n
  }

  ghost predicate AllAfter<K(!new)>(a: Automaton<K>, b: Automaton<K>, firsts: seq<States>, n: nat) {
    forall h: StateMap | Isomorphism(a, b, h) :: SeatsAfter(h, firsts, n)
  }

  // No isomorphism is among the n first combinations; said of what equals n, so
  // as to be looked into only where needed.
  ghost predicate NoneBefore<K(!new)>(a: Automaton<K>, b: Automaton<K>, firsts: seq<States>, n: nat) {
    forall m: nat | m == n :: AllAfter(a, b, firsts, m)
  }

  lemma PermutedApart(seconds: seq<States>, cs: seq<States>)
    requires Combinations.Permuted(seconds, cs) && Apart(seconds)
    ensures Apart(cs) && forall t :: Listed(cs, t) <==> Listed(seconds, t)
  {
    forall i, t | 0 <= i < |cs|
      ensures t in cs[i] <==> t in seconds[i]
    {
      assert t in Elements(cs[i]) <==> t in Elements(seconds[i]);
    }
  }

  lemma SeatedMutual<K>(a: Automaton<K>, b: Automaton<K>, firsts: seq<States>, cs: seq<States>, f: StateMap,
                        g: StateMap)
    requires Seated(f, firsts, cs) && Seated(g, cs, firsts) && SameSizes(firsts, cs)
    requires forall s :: Listed(firsts, s) <==> IsState(a, s)
    requires forall t :: Listed(cs, t) <==> IsState(b, t)
    requires (forall s <- f :: Listed(firsts, s)) && (forall t <- g :: Listed(cs, t))
    ensures Mutual(a, b, f, g)
  {
    forall s | Listed(firsts, s)
      ensures s in f && f[s] in g && g[f[s]] == s
    {
      var i :| 0 <= i < |firsts| && s in firsts[i];
      SeatedInverse(f, g, firsts[i], cs[i], s);
    }
    forall t | Listed(cs, t)
      ensures t in g && g[t] in f && f[g[t]] == t
    {
      var i :| 0 <= i < |cs| && t in cs[i];
      SeatedInverse(g, f, cs[i], firsts[i], t);
    }
  }

  lemma SeatedInverse(f: StateMap, g: StateMap, xs: States, ys: States, s: State)
    requires SeatedUpTo(f, xs, ys, |xs|) && SeatedUpTo(g, ys, xs, |ys|) && s in xs
    ensures s in f && f[s] in g && g[f[s]] == s
  {
    var j :| 0 <= j < |xs| && xs[j] == s;
    assert ys[j] in g;
  }

  // The combination cs was tried.
  lemma Tried<K(!new)>(w: Semiring<K>, a: Automaton<K>, b: Automaton<K>, hash: Features<K> -> nat, firsts: seq<States>,
                       seconds: seq<States>, ks: seq<nat>, cs: seq<States>, f: StateMap)
    requires Valid(w, a) && Valid(w, b) && Classes(a, b, hash, firsts, seconds, ks)
               && Combinations.Permuted(seconds, cs)
    requires Seated(f, firsts, cs) && (forall s <- f :: Listed(firsts, s)) && !Isomorphism(a, b, f)
    requires forall s :: Listed(firsts, s) <==> IsState(a, s)
    requires NoneBefore(a, b, firsts, Combinations.Number(cs))
    ensures NoneBefore(a, b, firsts, Combinations.Number(cs) + 1)
  {
    forall h: StateMap | Isomorphism(a, b, h)
      ensures SeatsAfter(h, firsts, Combinations.Number(cs) + 1)
    {
      SeatsPermuted(w, a, b, hash, h, firsts, seconds, ks);
      assert AllAfter(a, b, firsts, Combinations.Number(cs));
      assert forall s <- h :: IsState(a, s);
      NotSeated(h, f, firsts, seconds, cs);
    }
    assert AllAfter(a, b, firsts, Combinations.Number(cs) + 1);
  }

  lemma NotSeated(h: StateMap, f: StateMap, firsts: seq<States>, seconds: seq<States>, cs: seq<States>)
    requires SeatsAfter(h, firsts, Combinations.Number(cs)) && h != f
    requires Combinations.Permuted(seconds, cs) && Combinations.Permuted(seconds, Seats(h, firsts))
    requires Seated(f, firsts, cs) && (forall s <- f :: Listed(firsts, s)) && forall s <- h :: Listed(firsts, s)
    ensures SeatsAfter(h, firsts, Combinations.Number(cs) + 1)
  {
    if Combinations.Number(Seats(h, firsts)) == Combinations.Number(cs) {
      SameNumber(seconds, cs, Seats(h, firsts));
      SeatsOnly(h, f, firsts);
    }
  }

  lemma SameNumber(seconds: seq<States>, cs: seq<States>, ds: seq<States>)
    requires Combinations.Permuted(seconds, cs) && Combinations.Permuted(seconds, ds)
    requires Combinations.Number(cs) == Combinations.Number(ds)
    ensures cs == ds
  {
    Combinations.NumberInjective(cs, ds);
  }

  // There are no other combinations.
  lemma AllTried<K(!new)>(w: Semiring<K>, a: Automaton<K>, b: Automaton<K>, hash: Features<K> -> nat,
                          firsts: seq<States>, seconds: seq<States>, ks: seq<nat>)
    requires Valid(w, a) && Valid(w, b) && Classes(a, b, hash, firsts, seconds, ks)
    requires NoneBefore(a, b, firsts, Combinations.Radix(seconds))
    ensures !Isomorphic(a, b)
  {
    forall h: StateMap
      ensures !Isomorphism(a, b, h)
    {
      if Isomorphism(a, b, h) {
        SeatsPermuted(w, a, b, hash, h, firsts, seconds, ks);
        assert AllAfter(a, b, firsts, Combinations.Radix(seconds));
        NumberSmall(seconds, Seats(h, firsts));
      }
    }
  }

  lemma NumberSmall(seconds: seq<States>, cs: seq<States>)
    requires Combinations.Permuted(seconds, cs)
    ensures Combinations.Number(cs) < Combinations.Radix(seconds) == Combinations.Radix(cs)
  {
    Combinations.NumberBound(cs);
    Combinations.PermutedSizes(seconds, cs);
    Combinations.SameRadix(seconds, cs);
  }

  // At the beginning, nothing was tried.
  lemma NothingTried<K(!new)>(w: Semiring<K>, a: Automaton<K>, b: Automaton<K>, hash: Features<K> -> nat,
                              firsts: seq<States>, seconds: seq<States>, ks: seq<nat>)
    requires Valid(w, a) && Valid(w, b) && Classes(a, b, hash, firsts, seconds, ks)
    ensures NoneBefore(a, b, firsts, 0)
    ensures !SameSizes(firsts, seconds) ==> !Isomorphic(a, b)
  {
    forall h: StateMap | Isomorphism(a, b, h)
      ensures SeatsAfter(h, firsts, 0) && SameSizes(firsts, seconds)
    {
      SeatsPermuted(w, a, b, hash, h, firsts, seconds, ks);
    }
    assert AllAfter(a, b, firsts, 0);
  }

  method HaveSameSizes(firsts: seq<States>, seconds: seq<States>) returns (r: bool)
    requires |firsts| == |seconds|
    ensures r <==> SameSizes(firsts, seconds)
  {
    for i := 0 to |firsts|
      invariant forall j | 0 <= j < i :: |firsts[j]| == |seconds[j]|
    {
      if |firsts[i]| != |seconds[i]| {
        return false;
      }
    }
    r := true;
  }

  // The classes of states of both automata.
  method MakeStateClasses<K(==, !new)>(a: Automaton<K>, b: Automaton<K>, hash: Features<K> -> nat)
    returns (firsts: seq<States>, seconds: seq<States>, ghost ks: seq<nat>)
    requires ValidStates(a) && ValidStates(b)
    ensures Classes(a, b, hash, firsts, seconds, ks) && Apart(firsts) && Apart(seconds)
    ensures forall s :: Listed(firsts, s) <==> IsState(a, s)
    ensures forall s :: Listed(seconds, s) <==> IsState(b, s)
  {
    AllStatesOnce(a);
    AllStatesOnce(b);
    var id1, id2 := (s: State) => hash(FeaturesOf(a, s)), (s: State) => hash(FeaturesOf(b, s));
    var table := FillTable(id1, AllStates(a), id2, AllStates(b));
    firsts, seconds, ks := ListClasses(id1, AllStates(a), id2, AllStates(b), table);
    ClassesApart(id1, AllStates(a), id2, AllStates(b), firsts, seconds, ks);
  }

  // The classes list all the states, and those of both sides have the same
  // sizes.
  ghost predicate ReadyParts<K(!new)>(w: Semiring<K>, a: Automaton<K>, b: Automaton<K>, hash: Features<K> -> nat,
                                      firsts: seq<States>, seconds: seq<States>, ks: seq<nat>) {
    && Valid(w, a) && Valid(w, b) && Accessible(a)
    && Classes(a, b, hash, firsts, seconds, ks)
    && Apart(firsts) && Apart(seconds) && SameSizes(firsts, seconds)
    && (forall s :: Listed(firsts, s) <==> IsState(a, s))
    && (forall s :: Listed(seconds, s) <==> IsState(b, s))
  }

  // Said of what equals seconds, so as to be looked into only where needed.
  ghost predicate Ready<K(!new)>(w: Semiring<K>, a: Automaton<K>, b: Automaton<K>, hash: Features<K> -> nat,
                                 firsts: seq<States>, seconds: seq<States>, ks: seq<nat>) {
    forall cs | cs == seconds :: ReadyParts(w, a, b, hash, firsts, cs, ks)
  }

  lemma ReadyPerms<K(!new)>(w: Semiring<K>, a: Automaton<K>, b: Automaton<K>, hash: Features<K> -> nat,
                            firsts: seq<States>, seconds: seq<States>, ks: seq<nat>)
    requires Ready(w, a, b, hash, firsts, seconds, ks)
    ensures Combinations.AllDistinct(seconds) && seconds != []
    ensures forall i | 0 <= i < |seconds| :: Permutations.Ascending(seconds[i])
  {
    assert ReadyParts(w, a, b, hash, firsts, seconds, ks);
    assert Listed(seconds, PRE);
  }

  // Try the combination cs.
  method Try<K(==, !new)>(ghost w: Semiring<K>, a: Automaton<K>, b: Automaton<K>, ghost hash: Features<K> -> nat,
                          firsts: seq<States>, ghost seconds: seq<States>, ghost ks: seq<nat>, cs: seq<States>,
                          f0: StateMap, g0: StateMap)
    returns (found: bool, f: StateMap, g: StateMap)
    requires Ready(w, a, b, hash, firsts, seconds, ks)
    requires Combinations.Permuted(seconds, cs)
    requires (forall s <- f0 :: Listed(firsts, s)) && (forall t <- g0 :: Listed(seconds, t))
    requires NoneBefore(a, b, firsts, Combinations.Number(cs))
    ensures (forall s <- f :: Listed(firsts, s)) && (forall t <- g :: Listed(seconds, t))
    ensures if found then Isomorphism(a, b, f) else NoneBefore(a, b, firsts, Combinations.Number(cs) + 1)
  {
    assert ReadyParts(w, a, b, hash, firsts, seconds, ks);
    PermutedApart(seconds, cs);
    Combinations.PermutedSizes(seconds, cs);
    f, g := UpdateResult(f0, g0, firsts, cs);
    SeatedMutual(a, b, firsts, cs, f, g);
    found := IsIsomorphismValid(w, a, b, f, g);
    if !found {
      Tried(w, a, b, hash, firsts, seconds, ks, cs, f);
    }
  }

  lemma StillPermuted(cs: seq<States>, ds: seq<States>, es: seq<States>)
    requires Combinations.Permuted(cs, ds) && Combinations.Permuted(ds, es)
    ensures Combinations.Permuted(cs, es)
  {
  }

  // Reorder the states of b in all the possible ways allowed by classes, until
  // an isomorphism is met.
  method Enumerate<K(==, !new)>(ghost w: Semiring<K>, a: Automaton<K>, b: Automaton<K>, ghost hash: Features<K> -> nat,
                                firsts: seq<States>, seconds: seq<States>, ghost ks: seq<nat>)
    returns (found: bool, f: StateMap)
    requires Ready(w, a, b, hash, firsts, seconds, ks)
    requires NoneBefore(a, b, firsts, 0)
    ensures if found then Isomorphism(a, b, f) else NoneBefore(a, b, firsts, Combinations.Radix(seconds))
  {
    ReadyPerms(w, a, b, hash, firsts, seconds, ks);
    var combinations := new Combinations.ClassCombinations(seconds);
    var g: StateMap := map[];
    var more := true;
    f := map[];
    ghost var n := 0;
    while more
      invariant combinations.Valid() && Combinations.Permuted(seconds, combinations.classes)
      invariant (forall s <- f :: Listed(firsts, s)) && (forall t <- g :: Listed(seconds, t))
      invariant n <= Combinations.Radix(seconds) && NoneBefore(a, b, firsts, n)
      invariant if more then n == Combinations.Number(combinations.classes) else n == Combinations.Radix(seconds)
      decreases Combinations.Radix(seconds) - n
    {
      ghost var cs := combinations.classes;
      NumberSmall(seconds, cs);
      found, f, g := Try(w, a, b, hash, firsts, seconds, ks, combinations.classes, f, g);
      if found {
        return;
      }
      n := n + 1;
      more := combinations.NextCombination();
      StillPermuted(seconds, cs, combinations.classes);
    }
    found := false;
  }

  method SearchClasses<K(==, !new)>(ghost w: Semiring<K>, a: Automaton<K>, b: Automaton<K>, hash: Features<K> -> nat)
    returns (found: bool, f: StateMap)
    requires Valid(w, a) && Valid(w, b) && Accessible(a)
    ensures found <==> Isomorphic(a, b)
    ensures found ==> Isomorphism(a, b, f)
  {
    f := map[];
    var firsts, seconds;
    ghost var ks;
    firsts, seconds, ks := MakeStateClasses(a, b, hash);
    NothingTried(w, a, b, hash, firsts, seconds, ks);
    // Do not even bother to search if the classes have different sizes.
    var same := HaveSameSizes(firsts, seconds);
    if !same {
      return false, f;
    }
    assert ReadyParts(w, a, b, hash, firsts, seconds, ks);
    found, f := Enumerate(w, a, b, hash, firsts, seconds, ks);
    if !found {
      AllTried(w, a, b, hash, firsts, seconds, ks);
    }
  }
}
