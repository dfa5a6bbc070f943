// The automaton whose states are classes of states
// (vcsn/algos/quotient.hh).
module Quotients {
  import opened Sets
  import opened AllDistances
  import opened PointedAutomata
  import Partitions

  type States = seq<State>

  // ---------------------------------------------------------------------
  // Adding transitions
  // ---------------------------------------------------------------------

  // Merge with an existing transition; a null weight removes it.
  function AddOut<K(==)>(w: Semiring<K>, outs: seq<Out<K>>, o: Out<K>): seq<Out<K>> {
    if outs == [] then if o.weight == w.zero then [] else [o]
    else
      var last, rest := outs[|outs| - 1], outs[..|outs| - 1];
      if last.lbl == o.lbl && last.dst == o.dst then
        var k := w.add(last.weight, o.weight);
        if k == w.zero then rest else rest + [last.(weight := k)]
      else AddOut(w, rest, o) + [last]
  }

  lemma RowLast<K(!new)>(w: Semiring<K>, outs: seq<Out<K>>, o: Out<K>, l: Label, g: State -> K)
    ensures Row(w, outs + [o], l, g)
            == if o.lbl == l then w.add(Row(w, outs, l, g), w.mul(o.weight, g(o.dst))) else Row(w, outs, l, g)
  {
    assert (outs + [o])[..|outs|] == outs;
  }

  lemma {:induction false} RowAdd<K(!new)>(w: Semiring<K>, outs: seq<Out<K>>, o: Out<K>, l: Label, g: State -> K)
    requires Laws(w)
    ensures Row(w, AddOut(w, outs, o), l, g)
            == if o.lbl == l then w.add(Row(w, outs, l, g), w.mul(o.weight, g(o.dst))) else Row(w, outs, l, g)
    decreases |outs|
  {
    if outs == [] {
      RowLast(w, [], o, l, g);
      assert [] + [o] == [o];
      Units(w, w.zero);
      Units(w, g(o.dst));
    } else {
      var last, rest := outs[|outs| - 1], outs[..|outs| - 1];
      if last.lbl == o.lbl && last.dst == o.dst {
        RowMerge(w, rest, last, o.weight, l, g);
      } else {
        RowAdd(w, rest, o, l, g);
        RowLast(w, AddOut(w, rest, o), last, l, g);
        AddThree(w, Row(w, rest, l, g), w.mul(o.weight, g(o.dst)), w.mul(last.weight, g(last.dst)));
      }
    }
  }

  lemma RowMerge<K(!new)>(w: Semiring<K>, rest: seq<Out<K>>, last: Out<K>, k: K, l: Label, g: State -> K)
    requires Laws(w)
    ensures var sum := w.add(last.weight, k);
            var merged := if sum == w.zero then rest else rest + [last.(weight := sum)];
            Row(w, merged, l, g)
            == if last.lbl == l
               then w.add(w.add(Row(w, rest, l, g), w.mul(last.weight, g(last.dst))), w.mul(k, g(last.dst)))
               else Row(w, rest, l, g)
  {
    var sum, x := w.add(last.weight, k), g(last.dst);
    RowLast(w, rest, last.(weight := sum), l, g);
    RightDistributive(w, last.weight, k, x);
    AddThree(w, Row(w, rest, l, g), w.mul(last.weight, x), w.mul(k, x));
    Units(w, x);
    Units(w, Row(w, rest, l, g));
  }

  // The transitions with other destinations.
  function Image<K(==)>(w: Semiring<K>, outs: seq<Out<K>>, f: State -> State): seq<Out<K>> {
    if outs == [] then []
    else
      var o := outs[|outs| - 1];
      AddOut(w, Image(w, outs[..|outs| - 1], f), o.(dst := f(o.dst)))
  }

  lemma {:induction false} ImageRow<K(!new)>(w: Semiring<K>, outs: seq<Out<K>>, f: State -> State, l: Label,
                                             g: State -> K, h: State -> K)
    requires Laws(w) && forall o <- outs :: h(o.dst) == g(f(o.dst))
    ensures Row(w, Image(w, outs, f), l, g) == Row(w, outs, l, h)
    decreases |outs|
  {
    if outs != [] {
      var o, rest := outs[|outs| - 1], outs[..|outs| - 1];
      assert o in outs && forall x <- rest :: x in outs;
      ImageRow(w, rest, f, l, g, h);
      RowAdd(w, Image(w, rest, f), o.(dst := f(o.dst)), l, g);
    }
  }

  // ---------------------------------------------------------------------
  // The copies are well formed
  // ---------------------------------------------------------------------

  ghost predicate SameArc<K>(x: Out<K>, y: Out<K>) {
    x.lbl == y.lbl && x.dst == y.dst
  }

  // The transitions have the labels and destinations of those of outs, or of o.
  lemma {:induction false} AddedFrom<K>(w: Semiring<K>, outs: seq<Out<K>>, o: Out<K>, x: Out<K>)
    requires (forall y <- outs :: y.weight != w.zero) && x in AddOut(w, outs, o)
    ensures x.weight != w.zero && (SameArc(x, o) || exists y :: y in outs && SameArc(x, y))
    decreases |outs|
  {
    if outs != [] {
      var last, rest := outs[|outs| - 1], outs[..|outs| - 1];
      assert last in outs && forall y <- rest :: y in outs;
      if SameArc(last, o) {
        assert x in rest || SameArc(x, last);
      } else if x != last {
        assert x in AddOut(w, rest, o);
        AddedFrom(w, rest, o, x);
      }
    }
  }

  lemma AppendSingle<K>(outs: seq<Out<K>>, o: Out<K>)
    requires Single(outs) && forall x <- outs :: !SameArc(x, o)
    ensures Single(outs + [o])
  {
    forall i, j | 0 <= i < j < |outs + [o]|
      ensures !SameArc((outs + [o])[i], (outs + [o])[j])
    {
      assert outs[i] in outs;
    }
  }

  lemma LastDiffers<K>(outs: seq<Out<K>>, x: Out<K>)
    requires Single(outs) && outs != [] && x in outs[..|outs| - 1]
    ensures !SameArc(x, outs[|outs| - 1])
  {
  }

  lemma {:induction false} AddedSingle<K>(w: Semiring<K>, outs: seq<Out<K>>, o: Out<K>)
    requires (forall y <- outs :: y.weight != w.zero) && Single(outs)
    ensures Single(AddOut(w, outs, o))
    decreases |outs|
  {
    if outs != [] {
      var last, rest := outs[|outs| - 1], outs[..|outs| - 1];
      assert forall y <- rest :: y in outs;
      forall x | x in rest
        ensures !SameArc(x, last)
      {
        LastDiffers(outs, x);
      }
      if SameArc(last, o) {
        AppendSingle(rest, last.(weight := w.add(last.weight, o.weight)));
      } else {
        AddedSingle(w, rest, o);
        forall x | x in AddOut(w, rest, o)
          ensures !SameArc(x, last)
        {
          AddedFrom(w, rest, o, x);
        }
        AppendSingle(AddOut(w, rest, o), last);
      }
    }
  }

  ghost predicate Copies<K>(outs: seq<Out<K>>, f: State -> State, x: Out<K>) {
    exists o :: o in outs && o.lbl == x.lbl && f(o.dst) == x.dst
  }

  lemma {:induction false} ImageValid<K(!new)>(w: Semiring<K>, outs: seq<Out<K>>, f: State -> State)
    ensures Single(Image(w, outs, f))
    ensures forall x <- Image(w, outs, f) :: x.weight != w.zero && Copies(outs, f, x)
    decreases |outs|
  {
    if outs != [] {
      var o, rest := outs[|outs| - 1], outs[..|outs| - 1];
      assert o in outs && forall y <- rest :: y in outs;
      ImageValid(w, rest, f);
      AddedSingle(w, Image(w, rest, f), o.(dst := f(o.dst)));
      forall x | x in Image(w, outs, f)
        ensures x.weight != w.zero && Copies(outs, f, x)
      {
        AddedFrom(w, Image(w, rest, f), o.(dst := f(o.dst)), x);
        if !SameArc(x, o.(dst := f(o.dst))) {
          var y :| y in Image(w, rest, f) && SameArc(x, y);
          assert Copies(rest, f, y);
        }
      }
    }
  }

  // ---------------------------------------------------------------------
  // The quotient keeps the weights
  // ---------------------------------------------------------------------

  // The state of the result for each state.
  function Target(m: Classes, states: States): State -> State {
    (s: State) => if s in m && m[s] < |states| then states[m[s]] else POST
  }

  // states[c] is the state of res for the class c, and reps[c] a state of the
  // class, pre or post if they are there.
  ghost predicate IsQuotient<K(!new)>(w: Semiring<K>, a: Automaton<K>, m: Classes, reps: States, states: States,
                                      res: Automaton<K>) {
    && |states| == |reps|
    && (forall c | 0 <= c < |reps| ::
         (states[c] == PRE <==> reps[c] == PRE) && (states[c] == POST <==> reps[c] == POST))
    && (forall c | 0 <= c < |reps| ::
          reps[c] in a.out && states[c] in res.out
          && res.out[states[c]] == Image(w, a.out[reps[c]], Target(m, states)))
  }

  lemma {:induction false} QuotientValues<K(!new)>(w: Semiring<K>, a: Automaton<K>, m: Classes, reps: States,
                                                   states: States, res: Automaton<K>, s: State, u: Word)
    requires Laws(w) && Valid(w, a) && Represents(a, m, reps) && Stable(w, a, m) && Alone(m, POST)
    requires IsQuotient(w, a, m, reps, states, res) && s in m
    ensures V(w, res, states[m[s]], u) == V(w, a, s, u)
    decreases |u|
  {
    var c := m[s];
    StableValues(w, a, m, reps, s, reps[c], u);
    if u != [] {
      forall o <- a.out[reps[c]]
        ensures Values(w, a, u[1..])(o.dst) == Values(w, res, u[1..])(Target(m, states)(o.dst))
      {
        assert ValidOut(w, a, reps[c], o);
        QuotientValues(w, a, m, reps, states, res, o.dst, u[1..]);
      }
      ImageRow(w, a.out[reps[c]], Target(m, states), u[0], Values(w, res, u[1..]), Values(w, a, u[1..]));
    }
  }

  // From pre without transitions, all the words have a null weight.
  lemma NothingFromPre<K(!new)>(w: Semiring<K>, a: Automaton<K>, u: seq<nat>)
    requires PRE in a.out && a.out[PRE] == []
    ensures Series(w, a, u) == w.zero
  {
  }

  lemma QuotientSeries<K(!new)>(w: Semiring<K>, a: Automaton<K>, m: Classes, reps: States, states: States,
                                res: Automaton<K>, u: seq<nat>)
    requires Laws(w) && Valid(w, a) && Represents(a, m, reps) && Stable(w, a, m) && reps[m[PRE]] == PRE
    requires Alone(m, POST) || a.out[PRE] == []
    requires IsQuotient(w, a, m, reps, states, res)
    ensures Series(w, res, u) == Series(w, a, u)
  {
    assert states[m[PRE]] == PRE;
    if a.out[PRE] == [] {
      NothingFromPre(w, a, u);
      NothingFromPre(w, res, u);
    } else {
      QuotientValues(w, a, m, reps, states, res, PRE, Delimit(u));
    }
  }

  // ---------------------------------------------------------------------
  // Sorting the classes
  // ---------------------------------------------------------------------

  ghost predicate Disjoint(cs: seq<States>) {
    forall c, d | 0 <= c < d < |cs| :: forall s <- cs[c] :: s !in cs[d]
  }

  ghost predicate NonEmpty(cs: seq<States>) {
    forall c | 0 <= c < |cs| :: cs[c] != []
  }

  // The same states, the least one first.
  ghost predicate LeastFirst(states: States, r: States) {
    && |r| == |states| && (forall s :: s in r <==> s in states)
    && (forall s <- r :: r != [] ==> r[0] <= s)
  }

  lemma Swapped(states: States, k: nat)
    requires k < |states| && forall j | 0 <= j < |states| :: states[k] <= states[j]
    ensures LeastFirst(states, states[0 := states[k]][k := states[0]])
  {
    var r := states[0 := states[k]][k := states[0]];
    forall s
      ensures s in r <==> s in states
    {
      if s in r {
        var j :| 0 <= j < |r| && r[j] == s;
      }
      if s in states {
        var j :| 0 <= j < |states| && states[j] == s;
        assert r[if j == 0 then k else if j == k then 0 else j] == s;
      }
    }
  }

  // Swap the first element with the least one.
  method PutLeastFirst(states: States) returns (r: States)
    requires states != []
    ensures LeastFirst(states, r)
  {
    var k := 0;
    for i := 1 to |states|
      invariant k < |states| && forall j | 0 <= j < i :: states[k] <= states[j]
    {
      if states[i] < states[k] {
        k := i;
      }
    }
    Swapped(states, k);
    r := states[0 := states[k]][k := states[0]];
  }

  ghost predicate Sorted(cs: seq<States>)
    requires NonEmpty(cs)
  {
    forall c, d | 0 <= c < d < |cs| :: cs[c][0] <= cs[d][0]
  }

  // Insert c in order.
  function Insert(cs: seq<States>, c: States): (r: seq<States>)
    requires NonEmpty(cs) && c != []
    ensures |r| == |cs| + 1 && NonEmpty(r) && multiset(r) == multiset(cs) + multiset{c}
  {
    if cs == [] then [c]
    else
      assert cs == [cs[0]] + cs[1..];
      if c[0] <= cs[0][0] then [c] + cs else [cs[0]] + Insert(cs[1..], c)
  }

  lemma {:induction false} InsertSorted(cs: seq<States>, c: States)
    requires NonEmpty(cs) && c != [] && Sorted(cs)
    ensures Sorted(Insert(cs, c))
    decreases |cs|
  {
    if cs != [] && c[0] > cs[0][0] {
      var rest := Insert(cs[1..], c);
      InsertSorted(cs[1..], c);
      forall d | 0 <= d < |rest|
        ensures cs[0][0] <= rest[d][0]
      {
        assert rest[d] in multiset(rest);
        assert rest[d] == c || rest[d] in cs[1..];
      }
    }
  }

  lemma {:induction false} InsertDisjoint(cs: seq<States>, c: States)
    requires NonEmpty(cs) && c != [] && Disjoint(cs) && (forall d | 0 <= d < |cs| :: forall s <- cs[d] :: s !in c)
    ensures Disjoint(Insert(cs, c))
    decreases |cs|
  {
    var r := Insert(cs, c);
    if cs != [] && c[0] > cs[0][0] {
      var rest := Insert(cs[1..], c);
      InsertDisjoint(cs[1..], c);
      forall d, s | 0 <= d < |rest| && s in rest[d]
        ensures s !in cs[0]
      {
        assert rest[d] in multiset(rest);
        if rest[d] != c {
          var j :| 0 <= j < |cs[1..]| && cs[1..][j] == rest[d];
          assert cs[j + 1] == rest[d];
        }
      }
    }
  }

  // Sort the classes by their first states.
  method SortByFirst(cs: seq<States>) returns (r: seq<States>)
    requires NonEmpty(cs) && Disjoint(cs)
    ensures NonEmpty(r) && Sorted(r) && multiset(r) == multiset(cs) && Disjoint(r)
  {
    r := [];
    for i := 0 to |cs|
      invariant NonEmpty(r) && Sorted(r) && multiset(r) == multiset(cs[..i]) && Disjoint(r)
    {
      InsertSorted(r, cs[i]);
      assert cs[..i + 1] == cs[..i] + [cs[i]];
      forall d, s | 0 <= d < |r| && s in r[d]
        ensures s !in cs[i]
      {
        assert r[d] in multiset(r);
        var j :| 0 <= j < i && cs[j] == r[d];
      }
      InsertDisjoint(r, cs[i]);
      r := Insert(r, cs[i]);
    }
    assert cs[..|cs|] == cs;
  }

  // r lists the classes of cs, each one with its least state first, by
  // increasing least states.
  ghost predicate Arranged(cs: seq<States>, r: seq<States>) {
    && NonEmpty(r) && Disjoint(r) && Sorted(r)
    && |r| == |cs|
    && (forall c | 0 <= c < |cs| :: Placed(cs[c], r))
    && (forall d | 0 <= d < |r| :: Originates(cs, r[d]))
  }

  ghost predicate Placed(c: States, r: seq<States>) {
    exists d :: 0 <= d < |r| && LeastFirst(c, r[d])
  }

  ghost predicate Originates(cs: seq<States>, d: States) {
    exists c :: 0 <= c < |cs| && LeastFirst(cs[c], d)
  }

  lemma SameMembers(r: seq<States>, s: seq<States>)
    requires multiset(r) == multiset(s)
    ensures |r| == |s| && forall x :: x in r <==> x in s
  {
    assert |multiset(r)| == |r| && |multiset(s)| == |s|;
    forall x
      ensures x in r <==> x in s
    {
      assert x in r <==> x in multiset(r);
    }
  }

  lemma SortedArranged(cs: seq<States>, least: seq<States>, r: seq<States>)
    requires |least| == |cs| && forall c | 0 <= c < |cs| :: LeastFirst(cs[c], least[c])
    requires NonEmpty(r) && Disjoint(r) && Sorted(r) && multiset(r) == multiset(least)
    ensures Arranged(cs, r)
  {
    SameMembers(r, least);
    forall c | 0 <= c < |cs|
      ensures Placed(cs[c], r)
    {
      assert LeastFirst(cs[c], least[c]) && least[c] in r;
      var d :| 0 <= d < |r| && r[d] == least[c];
    }
    forall d | 0 <= d < |r|
      ensures Originates(cs, r[d])
    {
      assert r[d] in least;
      var c :| 0 <= c < |least| && least[c] == r[d];
      assert LeastFirst(cs[c], least[c]);
    }
  }

  // The states of two classes that are rearranged are numbered together.
  lemma ClassNumbered(cs: seq<States>, m: Classes, r: seq<States>, m': Classes, c: nat, d: nat)
    requires Partitions.Parts(cs, m).Valid() && Partitions.Parts(r, m').Valid()
    requires c < |cs| && d < |r| && LeastFirst(cs[c], r[d])
    ensures forall t :: t in m && m[t] == c <==> t in m' && m'[t] == d
  {
    forall t
      ensures t in m && m[t] == c <==> t in cs[c]
      ensures t in m' && m'[t] == d <==> t in r[d]
    {
    }
  }

  // Said of what equals r, so as to be looked into only where needed.
  ghost predicate Rearranges(cs: seq<States>, r: seq<States>) {
    forall q | q == r :: Arranged(cs, q)
  }

  lemma ClassAt(cs: seq<States>, r: seq<States>, c: nat) returns (d: nat)
    requires Rearranges(cs, r) && c < |cs|
    ensures d < |r| && LeastFirst(cs[c], r[d])
  {
    assert Arranged(cs, r);
    d :| d < |r| && LeastFirst(cs[c], r[d]);
  }

  lemma ClassFrom(cs: seq<States>, r: seq<States>, d: nat) returns (c: nat)
    requires Rearranges(cs, r) && d < |r|
    ensures c < |cs| && LeastFirst(cs[c], r[d])
  {
    assert Arranged(cs, r);
    c :| c < |cs| && LeastFirst(cs[c], r[d]);
  }

  lemma StateKept(cs: seq<States>, m: Classes, r: seq<States>, m': Classes, s: State)
    requires Partitions.Parts(cs, m).Valid() && Partitions.Parts(r, m').Valid() && Rearranges(cs, r)
    ensures s in m <==> s in m'
    ensures s in m ==> forall t :: t in m && m[t] == m[s] <==> t in m' && m'[t] == m'[s]
  {
    if s in m {
      var d := ClassAt(cs, r, m[s]);
      ClassNumbered(cs, m, r, m', m[s], d);
    }
    if s in m' {
      var c := ClassFrom(cs, r, m'[s]);
      ClassNumbered(cs, m, r, m', c, m'[s]);
    }
  }

  ghost predicate Kept(m: Classes, m': Classes, s: State) {
    && (s in m <==> s in m')
    && (s in m ==> forall t :: t in m && m[t] == m[s] <==> t in m' && m'[t] == m'[s])
  }

  lemma KeptSame(m: Classes, m': Classes)
    requires forall s :: Kept(m, m', s)
    ensures SameClasses(m, m')
  {
    forall s
      ensures s in m <==> s in m'
    {
      assert Kept(m, m', s);
    }
    forall s, t | s in m && t in m
      ensures m[s] == m[t] <==> m'[s] == m'[t]
    {
      assert Kept(m, m', s);
    }
  }

  lemma RearrangedSame(cs: seq<States>, m: Classes, r: seq<States>, m': Classes)
    requires Partitions.Parts(cs, m).Valid() && Partitions.Parts(r, m').Valid() && Rearranges(cs, r)
    ensures SameClasses(m, m')
  {
    forall s
      ensures Kept(m, m', s)
    {
      StateKept(cs, m, r, m', s);
    }
    KeptSame(m, m');
  }

  // ---------------------------------------------------------------------
  // The construction
  // ---------------------------------------------------------------------

  // The states of the result for the first classes: pre, post, or the next
  // ordinary one.
  ghost predicate Numbered(cs: seq<States>, states: States, ordinary: States) {
    && |states| <= |cs| && NonEmpty(cs)
    && (forall i | 0 <= i < |ordinary| :: ordinary[i] == POST + 1 + i)
    && (forall c | 0 <= c < |states| ::
          && (states[c] == PRE <==> cs[c][0] == PRE) && (states[c] == POST <==> cs[c][0] == POST)
          && (states[c] > POST ==> states[c] in ordinary))
    && (forall c, d | 0 <= c < d < |states| :: states[c] != states[d] && (POST < states[d] ==> states[c] < states[d]))
    && (forall x <- ordinary :: x in states)
  }

  lemma NumberedMore(cs: seq<States>, states: States, ordinary: States)
    requires Numbered(cs, states, ordinary) && |states| < |cs| && Disjoint(cs)
    ensures var s := cs[|states|][0];
            var x := if s == PRE then PRE else if s == POST then POST else POST + 1 + |ordinary|;
            Numbered(cs, states + [x], if s > POST then ordinary + [x] else ordinary)
  {
    var s := cs[|states|][0];
    forall c | 0 <= c < |states|
      ensures states[c] <= POST + |ordinary|
      ensures s <= POST ==> states[c] != s
    {
      if states[c] > POST {
        assert states[c] in ordinary;
      }
      assert cs[c][0] in cs[c] && s in cs[|states|];
    }
  }

  // The result, with the class of each state, and the state of each class.
  ghost predicate BuiltParts<K(!new)>(w: Semiring<K>, a: Automaton<K>, cs: seq<States>, m: Classes, states: States,
                                      res: Automaton<K>, origins: map<State, set<State>>) {
    && Partitions.Parts(cs, m).Valid() && Numbered(cs, states, res.states)
    && (forall s :: s in res.out <==> IsState(res, s))
    && IsQuotient(w, a, m, Firsts(cs), states, res)
    && (forall q :: q in origins <==> q in states)
    && (forall c | 0 <= c < |states| :: origins[states[c]] == Elements(cs[c]))
  }

  // The result for the classes cs, each with its least state first, and in the
  // order of these states.
  ghost predicate QuotientOf<K(!new)>(w: Semiring<K>, a: Automaton<K>, cs: seq<States>, res: Automaton<K>,
                                      origins: map<State, set<State>>) {
    exists r: seq<States>, m: Classes, states: States :: Rearranges(cs, r) && Built(w, a, r, m, states, res, origins)
  }

  // Said of what equals res, so as to be looked into only where needed.
  ghost predicate Built<K(!new)>(w: Semiring<K>, a: Automaton<K>, cs: seq<States>, m: Classes, states: States,
                                 res: Automaton<K>, origins: map<State, set<State>>) {
    forall x | x == res :: BuiltParts(w, a, cs, m, states, x, origins)
  }

  // The states of the classes are those of a; said of what equals a, so as to be
  // looked into only where needed.
  ghost predicate Covers<K(!new)>(a: Automaton<K>, cs: seq<States>) {
    forall b | b == a :: HasStates(b, cs)
  }

  ghost predicate HasStates<K>(a: Automaton<K>, cs: seq<States>) {
    forall s :: IsState(a, s) <==> exists c :: 0 <= c < |cs| && s in cs[c]
  }

  class Quotienter<K(==, !new)> {
    const w: Semiring<K>
    var classToSet: seq<States>
    var numClasses: nat

    constructor (w: Semiring<K>, classToSet: seq<States>)
      requires NonEmpty(classToSet) && Disjoint(classToSet)
      ensures this.w == w && numClasses == |classToSet| && Rearranges(classToSet, this.classToSet)
    {
      this.w := w;
      this.classToSet := classToSet;
      numClasses := |classToSet|;
      new;
      SortClasses();
    }

    // The classes are sorted by their least states.
    method SortClasses()
      requires NonEmpty(classToSet) && Disjoint(classToSet) && numClasses == |classToSet|
      modifies this`classToSet
      ensures Rearranges(old(classToSet), classToSet)
    {
      ghost var cs := classToSet;
      for c := 0 to numClasses
        invariant |classToSet| == numClasses
        invariant forall d | 0 <= d < c :: LeastFirst(cs[d], classToSet[d])
        invariant forall d | c <= d < numClasses :: classToSet[d] == cs[d]
      {
        var least := PutLeastFirst(classToSet[c]);
        classToSet := classToSet[c := least];
      }
      ghost var least := classToSet;
      classToSet := SortByFirst(classToSet);
      SortedArranged(cs, least, classToSet);
    }

    // The class of each state.
    method StateToClass() returns (m: Classes)
      requires NonEmpty(classToSet) && Disjoint(classToSet) && numClasses == |classToSet|
      ensures Partitions.Parts(classToSet, m).Valid()
    {
      m := map[];
      for c := 0 to numClasses
        invariant Partitions.Parts(classToSet[..c], m).Valid()
      {
        for i := 0 to |classToSet[c]|
          invariant forall s | s in m :: s in classToSet[c][..i] || (m[s] < c && s in classToSet[m[s]])
          invariant forall s <- classToSet[c][..i] :: s in m && m[s] == c
          invariant forall d | 0 <= d < c :: forall s <- classToSet[d] :: s in m && m[s] == d
        {
          var s := classToSet[c][i];
          assert classToSet[c][..i + 1] == classToSet[c][..i] + [s];
          assert s in classToSet[c];
          m := m[s := c];
        }
        assert classToSet[c][..|classToSet[c]|] == classToSet[c];
      }
      assert classToSet[..numClasses] == classToSet;
    }

    // The states of the result, one per class.
    method NumberStates() returns (states: States, ordinary: States)
      requires NonEmpty(classToSet) && Disjoint(classToSet) && numClasses == |classToSet|
      ensures |states| == numClasses && Numbered(classToSet, states, ordinary)
    {
      states, ordinary := [], [];
      for c := 0 to numClasses
        invariant |states| == c && Numbered(classToSet, states, ordinary)
      {
        NumberedMore(classToSet, states, ordinary);
        var s := classToSet[c][0];
        if s == PRE {
          states := states + [PRE];
        } else if s == POST {
          states := states + [POST];
        } else {
          var fresh' := POST + 1 + |ordinary|;
          states, ordinary := states + [fresh'], ordinary + [fresh'];
        }
      }
    }

    // The states of each class.
    method Origins(states: States) returns (origins: map<State, set<State>>)
      requires |states| == |classToSet| && NonEmpty(classToSet) && exists ordinary ::
                 Numbered(classToSet, states, ordinary)
      ensures forall q :: q in origins <==> q in states
      ensures forall c | 0 <= c < |states| :: origins[states[c]] == Elements(classToSet[c])
    {
      origins := map[];
      for c := 0 to |states|
        invariant forall q :: q in origins <==> q in states[..c]
        invariant forall d | 0 <= d < c :: origins[states[d]] == Elements(classToSet[d])
      {
        origins := origins[states[c] := Elements(classToSet[c])];
      }
      assert states[..|states|] == states;
    }

    // Copy the transitions outs to the states of the result.
    method CopyTransitions(outs: seq<Out<K>>, m: Classes, states: States) returns (r: seq<Out<K>>)
      requires forall o <- outs :: o.dst in m && m[o.dst] < |states|
      ensures r == Image(w, outs, Target(m, states))
    {
      r := [];
      for i := 0 to |outs|
        invariant r == Image(w, outs[..i], Target(m, states))
      {
        var o := outs[i];
        assert outs[..i + 1][..i] == outs[..i];
        r := AddOut(w, r, o.(dst := states[m[o.dst]]));
      }
      assert outs[..|outs|] == outs;
    }

    // The transitions of the class d were copied.
    ghost predicate Copied(a: Automaton<K>, cs: seq<States>, m: Classes, states: States, d: nat, outs: seq<Out<K>>) {
      && d < |cs| && cs[d] != [] && cs[d][0] in a.out
      && outs == Image(w, a.out[cs[d][0]], Target(m, states))
    }

    // The first state of each class stands for it.
    method CopyFirsts(a: Automaton<K>, m: Classes, states: States, empty: map<State, seq<Out<K>>>)
      returns (out: map<State, seq<Out<K>>>)
      requires NonEmpty(classToSet) && numClasses == |classToSet| == |states|
      requires forall c, d | 0 <= c < d < |states| :: states[c] != states[d]
      requires forall s | s in a.out :: forall o <- a.out[s] :: o.dst in m
      requires forall s | s in m :: m[s] < |states|
      requires forall c | 0 <= c < |states| :: classToSet[c][0] in a.out && states[c] in empty
      ensures out.Keys == empty.Keys
      ensures forall c | 0 <= c < |states| :: Copied(a, classToSet, m, states, c, out[states[c]])
    {
      out := empty;
      for c := 0 to numClasses
        invariant out.Keys == empty.Keys
        invariant forall d | 0 <= d < c :: Copied(a, classToSet, m, states, d, out[states[d]])
      {
        var outs := CopyTransitions(a.out[classToSet[c][0]], m, states);
        assert Copied(a, classToSet, m, states, c, outs);
        out := out[states[c] := outs];
      }
    }

    method Copy(a: Automaton<K>, m: Classes, states: States, ordinary: States) returns (out: map<State, seq<Out<K>>>)
      requires Valid(w, a) && NonEmpty(classToSet) && numClasses == |classToSet| == |states|
      requires Partitions.Parts(classToSet, m).Valid() && Numbered(classToSet, states, ordinary)
      requires Covers(a, classToSet)
      ensures out.Keys == NoTransitions(ordinary).Keys
      ensures forall c | 0 <= c < |states| ::
                states[c] in out && Copied(a, classToSet, m, states, c, out[states[c]])
    {
      OutsCovered(a, classToSet, m);
      StatesCovered(classToSet, states, ordinary);
      out := CopyFirsts(a, m, states, NoTransitions(ordinary));
    }

    // Make the automaton of the classes.
    method Run(a: Automaton<K>)
      returns (res: Automaton<K>, origins: map<State, set<State>>, ghost m: Classes, ghost states: States)
      requires Valid(w, a) && NonEmpty(classToSet) && Disjoint(classToSet) && numClasses == |classToSet|
      requires Covers(a, classToSet)
      ensures Built(w, a, classToSet, m, states, res, origins)
    {
      var stateToClass := StateToClass();
      var classToState, ordinary := NumberStates();
      m, states := stateToClass, classToState;
      origins := Origins(classToState);
      var out := Copy(a, stateToClass, classToState, ordinary);
      res := Automaton(ordinary, out);
      CopiedIsBuilt(a, classToSet, m, states, res, origins);
    }

    lemma StatesCovered(cs: seq<States>, states: States, ordinary: States)
      requires Numbered(cs, states, ordinary)
      ensures forall c | 0 <= c < |states| :: states[c] in NoTransitions(ordinary)
      ensures forall c, d | 0 <= c < d < |states| :: states[c] != states[d]
    {
    }

    lemma OutsCovered(a: Automaton<K>, cs: seq<States>, m: Classes)
      requires Valid(w, a) && NonEmpty(cs) && Partitions.Parts(cs, m).Valid()
      requires Covers(a, cs)
      ensures forall s | s in a.out :: forall o <- a.out[s] :: o.dst in m
      ensures forall c | 0 <= c < |cs| :: cs[c][0] in a.out
      ensures forall s | s in m :: m[s] < |cs|
    {
      assert HasStates(a, cs);
      forall s, o | s in a.out && o in a.out[s]
        ensures o.dst in m
      {
        assert ValidOut(w, a, s, o);
      }
      forall c | 0 <= c < |cs|
        ensures cs[c][0] in a.out
      {
        assert cs[c][0] in cs[c];
        assert IsState(a, cs[c][0]);
      }
    }

    lemma CopiedIsBuilt(a: Automaton<K>, cs: seq<States>, m: Classes, states: States, res: Automaton<K>,
                        origins: map<State, set<State>>)
      requires NonEmpty(cs) && |states| == |cs| && Numbered(cs, states, res.states) && Partitions.Parts(cs, m).Valid()
      requires forall c | 0 <= c < |states| :: states[c] in res.out && Copied(a, cs, m, states, c, res.out[states[c]])
      requires forall s :: s in res.out <==> IsState(res, s)
      requires forall q :: q in origins <==> q in states
      requires forall c | 0 <= c < |states| :: origins[states[c]] == Elements(cs[c])
      ensures Built(w, a, cs, m, states, res, origins)
    {
      forall c | 0 <= c < |cs|
        ensures Firsts(cs)[c] in a.out && states[c] in res.out
        ensures res.out[states[c]] == Image(w, a.out[Firsts(cs)[c]], Target(m, states))
      {
        assert Copied(a, cs, m, states, c, res.out[states[c]]);
      }
    }

    function NoTransitions(ordinary: States): (r: map<State, seq<Out<K>>>)
      ensures forall s :: s in r <==> s == PRE || s == POST || s in ordinary
      ensures forall s | s in r :: r[s] == []
    {
      map s | s in {PRE, POST} + Elements(ordinary) :: []
    }
  }

  function Firsts(cs: seq<States>): States
    requires NonEmpty(cs)
  {
    seq(|cs|, c requires 0 <= c < |cs| => cs[c][0])
  }

  // The states of the result have their origins, pre and post included.
  ghost predicate Pointed<K>(m: Classes, res: Automaton<K>, origins: map<State, set<State>>) {
    && (forall q <- res.states :: q > POST)
    && (forall q, q', s | q in origins && q' in origins && s in origins[q] && s in origins[q'] :: q == q')
    && PRE in origins && PRE in origins[PRE]
    && (Alone(m, POST) ==> POST in origins && POST in origins[POST])
  }

  // The origins of the states are the classes.
  ghost predicate AreClasses<K>(m: Classes, res: Automaton<K>, origins: map<State, set<State>>) {
    && (forall q | q in res.states :: q in origins)
    && (forall q | q in origins :: origins[q] != {} && forall s <- origins[q] :: s in m)
    && (forall q, s, t | q in origins && s in origins[q] && t in m :: m[s] == m[t] <==> t in origins[q])
  }

  // The states of the result are the classes of a: those of origins[q] give
  // the words the same weights as q.
  ghost predicate Describes<K(!new)>(w: Semiring<K>, a: Automaton<K>, m: Classes, res: Automaton<K>,
                                     origins: map<State, set<State>>) {
    && Pointed(m, res, origins) && AreClasses(m, res, origins)
    && (Alone(m, POST) ==>
          forall q, s | q in origins && s in origins[q] :: forall u: Word :: V(w, res, q, u) == V(w, a, s, u))
  }

  lemma SameAlone(m: Classes, m': Classes, s: State)
    requires SameClasses(m, m')
    ensures Alone(m, s) <==> Alone(m', s)
  {
    assert s in m <==> s in m';
    forall t | t in m && s in m
      ensures m[t] == m[s] <==> m'[t] == m'[s]
    {
    }
  }

  lemma FirstsRepresent<K>(a: Automaton<K>, cs: seq<States>, m: Classes)
    requires Partitions.Parts(cs, m).Valid() && forall s :: s in m <==> IsState(a, s)
    ensures NonEmpty(cs) && Represents(a, m, Firsts(cs))
  {
    forall c | 0 <= c < |cs|
      ensures cs[c][0] in m && m[cs[c][0]] == c
    {
      assert cs[c][0] in cs[c];
    }
  }

  lemma PreFirst(cs: seq<States>, r: seq<States>, m: Classes)
    requires Partitions.Parts(r, m).Valid() && Rearranges(cs, r) && PRE in m
    ensures r[m[PRE]] != [] && r[m[PRE]][0] == PRE
  {
    var c := ClassFrom(cs, r, m[PRE]);
    assert PRE in r[m[PRE]];
  }

  lemma PartsDisjoint(cs: seq<States>, m: Classes)
    requires Partitions.Parts(cs, m).Valid()
    ensures NonEmpty(cs) && Disjoint(cs)
  {
  }

  lemma RunSeries<K(!new)>(w: Semiring<K>, a: Automaton<K>, r: seq<States>, m: Classes, states: States,
                           res: Automaton<K>, origins: map<State, set<State>>)
    requires Laws(w) && Valid(w, a) && NonEmpty(r) && Represents(a, m, Firsts(r)) && Stable(w, a, m)
    requires Firsts(r)[m[PRE]] == PRE && (Alone(m, POST) || a.out[PRE] == [])
    requires Built(w, a, r, m, states, res, origins)
    ensures forall u: seq<nat> :: Series(w, res, u) == Series(w, a, u)
  {
    assert BuiltParts(w, a, r, m, states, res, origins);
    forall u: seq<nat>
      ensures Series(w, res, u) == Series(w, a, u)
    {
      QuotientSeries(w, a, m, Firsts(r), states, res, u);
    }
  }

  // The origins of q are a class.
  lemma OriginClass<K(!new)>(w: Semiring<K>, a: Automaton<K>, r: seq<States>, m: Classes, states: States,
                             res: Automaton<K>, origins: map<State, set<State>>, q: State)
    returns (c: nat)
    requires Built(w, a, r, m, states, res, origins) && q in origins
    ensures c < |states| == |r| && states[c] == q && origins[q] != {}
    ensures forall s :: s in origins[q] <==> s in m && m[s] == c
  {
    assert BuiltParts(w, a, r, m, states, res, origins);
    c :| c < |states| && states[c] == q;
    assert r[c][0] in origins[q];
    forall s
      ensures s in origins[q] <==> s in m && m[s] == c
    {
      assert s in origins[q] <==> s in r[c];
    }
  }

  lemma RunPointed<K(!new)>(w: Semiring<K>, a: Automaton<K>, r: seq<States>, m: Classes, states: States,
                            res: Automaton<K>, origins: map<State, set<State>>)
    requires Built(w, a, r, m, states, res, origins) && PRE in m && m[PRE] < |r| && r[m[PRE]] != []
               && r[m[PRE]][0] == PRE
    ensures Pointed(m, res, origins)
  {
    forall q, q', s | q in origins && q' in origins && s in origins[q] && s in origins[q']
      ensures q == q'
    {
      var c := OriginClass(w, a, r, m, states, res, origins, q);
      var c' := OriginClass(w, a, r, m, states, res, origins, q');
    }
    PointedEnds(w, a, r, m, states, res, origins);
  }

  lemma PointedEnds<K(!new)>(w: Semiring<K>, a: Automaton<K>, r: seq<States>, m: Classes, states: States,
                             res: Automaton<K>, origins: map<State, set<State>>)
    requires Built(w, a, r, m, states, res, origins) && PRE in m && m[PRE] < |r| && r[m[PRE]] != []
               && r[m[PRE]][0] == PRE
    ensures forall q <- res.states :: q > POST
    ensures PRE in origins && PRE in origins[PRE]
    ensures Alone(m, POST) ==> POST in origins && POST in origins[POST]
  {
    assert BuiltParts(w, a, r, m, states, res, origins);
    assert states[m[PRE]] == PRE && PRE in r[m[PRE]];
    if Alone(m, POST) {
      var c := m[POST];
      assert POST in r[c] && r[c][0] in r[c];
      assert states[c] == POST;
    }
  }

  lemma RunValues<K(!new)>(w: Semiring<K>, a: Automaton<K>, r: seq<States>, m: Classes, states: States,
                           res: Automaton<K>, origins: map<State, set<State>>, q: State, s: State, u: Word)
    requires Laws(w) && Valid(w, a) && Built(w, a, r, m, states, res, origins)
    requires NonEmpty(r) && Represents(a, m, Firsts(r)) && Stable(w, a, m) && Alone(m, POST)
    requires q in origins && s in origins[q]
    ensures V(w, res, q, u) == V(w, a, s, u)
  {
    var c := OriginClass(w, a, r, m, states, res, origins, q);
    assert BuiltParts(w, a, r, m, states, res, origins);
    QuotientValues(w, a, m, Firsts(r), states, res, s, u);
  }

  lemma OriginsClasses<K(!new)>(w: Semiring<K>, a: Automaton<K>, r: seq<States>, m: Classes, m0: Classes,
                                states: States, res: Automaton<K>, origins: map<State, set<State>>)
    requires SameClasses(m0, m) && Built(w, a, r, m, states, res, origins)
    ensures AreClasses(m0, res, origins)
  {
    forall q | q in origins
      ensures origins[q] != {} && forall s <- origins[q] :: s in m0
      ensures forall s, t | s in origins[q] && t in m0 :: m0[s] == m0[t] <==> t in origins[q]
    {
      var c := OriginClass(w, a, r, m, states, res, origins, q);
    }
    assert BuiltParts(w, a, r, m, states, res, origins);
  }

  lemma RunDescribes<K(!new)>(w: Semiring<K>, a: Automaton<K>, r: seq<States>, m: Classes, m0: Classes, states: States,
                              res: Automaton<K>, origins: map<State, set<State>>)
    requires Laws(w) && Valid(w, a) && SameClasses(m0, m) && Built(w, a, r, m, states, res, origins)
    requires NonEmpty(r) && Represents(a, m, Firsts(r)) && Stable(w, a, m) && Pointed(m0, res, origins)
    requires AreClasses(m0, res, origins) && (Alone(m0, POST) <==> Alone(m, POST))
    ensures Describes(w, a, m0, res, origins)
  {
    if Alone(m, POST) {
      forall q, s | q in origins && s in origins[q]
        ensures forall u: Word :: V(w, res, q, u) == V(w, a, s, u)
      {
        forall u: Word
          ensures V(w, res, q, u) == V(w, a, s, u)
        {
          RunValues(w, a, r, m, states, res, origins, q, s, u);
        }
      }
    }
  }

  ghost predicate Partitioned<K>(a: Automaton<K>, cs: seq<States>, m: Classes) {
    Partitions.Parts(cs, m).Valid() && forall s :: s in m <==> IsState(a, s)
  }

  lemma BuiltPartitioned<K(!new)>(w: Semiring<K>, a: Automaton<K>, cs: seq<States>, m0: Classes, r: seq<States>,
                                  m: Classes, states: States, res: Automaton<K>, origins: map<State, set<State>>)
    requires Partitioned(a, cs, m0) && Rearranges(cs, r) && Built(w, a, r, m, states, res, origins)
    ensures SameClasses(m0, m) && Partitioned(a, r, m) && r[m[PRE]] != [] && r[m[PRE]][0] == PRE
  {
    assert BuiltParts(w, a, r, m, states, res, origins);
    RearrangedSame(cs, m0, r, m);
    forall s
      ensures s in m <==> IsState(a, s)
    {
      assert s in m <==> s in m0;
    }
    PreFirst(cs, r, m);
  }

  // What the classes are once they are rearranged.
  ghost predicate StableClasses<K(!new)>(w: Semiring<K>, a: Automaton<K>, m0: Classes, r: seq<States>, m: Classes) {
    && ValidStates(a) && NonEmpty(r) && Represents(a, m, Firsts(r)) && Stable(w, a, m) && SameClasses(m0, m)
    && PRE in m && m[PRE] < |r| && r[m[PRE]][0] == PRE
    && (Alone(m0, PRE) <==> Alone(m, PRE)) && (Alone(m0, POST) <==> Alone(m, POST))
  }

  lemma BuiltStable<K(!new)>(w: Semiring<K>, a: Automaton<K>, cs: seq<States>, m0: Classes, r: seq<States>,
                             m: Classes, states: States, res: Automaton<K>, origins: map<State, set<State>>)
    requires Valid(w, a) && Partitioned(a, cs, m0) && Rearranges(cs, r) && Stable(w, a, m0)
    requires Laws(w) && Built(w, a, r, m, states, res, origins)
    ensures StableClasses(w, a, m0, r, m)
  {
    BuiltPartitioned(w, a, cs, m0, r, m, states, res, origins);
    RenumberedStable(w, a, m0, m);
    FirstsRepresent(a, r, m);
    SameAlone(m0, m, POST);
    SameAlone(m0, m, PRE);
  }

  lemma BuiltKeeps<K(!new)>(w: Semiring<K>, a: Automaton<K>, cs: seq<States>, m0: Classes, r: seq<States>, m: Classes,
                            states: States, res: Automaton<K>, origins: map<State, set<State>>)
    requires Laws(w) && Valid(w, a) && Partitioned(a, cs, m0) && Rearranges(cs, r)
    requires Stable(w, a, m0) && (Alone(m0, POST) || a.out[PRE] == [])
    requires Built(w, a, r, m, states, res, origins)
    ensures forall u: seq<nat> :: Series(w, res, u) == Series(w, a, u)
    ensures Describes(w, a, m0, res, origins)
    ensures Alone(m0, PRE) && Alone(m0, POST) ==>
              Valid(w, res) && forall q | q in res.out :: CopiedOrigin(a, res, origins, q)
  {
    BuiltStable(w, a, cs, m0, r, m, states, res, origins);
    RunSeries(w, a, r, m, states, res, origins);
    BuiltDescribes(w, a, m0, r, m, states, res, origins);
    BuiltWell(w, a, r, m, states, res, origins);
  }

  lemma BuiltWell<K(!new)>(w: Semiring<K>, a: Automaton<K>, r: seq<States>, m: Classes, states: States,
                           res: Automaton<K>, origins: map<State, set<State>>)
    requires Valid(w, a) && Built(w, a, r, m, states, res, origins) && NonEmpty(r) && Represents(a, m, Firsts(r))
    ensures Alone(m, PRE) && Alone(m, POST) ==>
              Valid(w, res) && forall q | q in res.out :: CopiedOrigin(a, res, origins, q)
  {
    if Alone(m, PRE) && Alone(m, POST) {
      BuiltValid(w, a, r, m, states, res, origins);
      BuiltCopied(w, a, r, m, states, res, origins);
    }
  }

  lemma BuiltDescribes<K(!new)>(w: Semiring<K>, a: Automaton<K>, m0: Classes, r: seq<States>, m: Classes,
                                states: States, res: Automaton<K>, origins: map<State, set<State>>)
    requires Laws(w) && Valid(w, a) && SameClasses(m0, m) && Built(w, a, r, m, states, res, origins)
    requires NonEmpty(r) && Represents(a, m, Firsts(r)) && Stable(w, a, m) && (Alone(m0, POST) <==> Alone(m, POST))
    requires PRE in m && m[PRE] < |r| && r[m[PRE]] != [] && r[m[PRE]][0] == PRE
    ensures Describes(w, a, m0, res, origins)
  {
    RunPointed(w, a, r, m, states, res, origins);
    OriginsClasses(w, a, r, m, m0, states, res, origins);
    RunDescribes(w, a, r, m, m0, states, res, origins);
  }

  // The transitions of the result are well formed when pre and post are alone
  // in their classes.
  lemma CopyValid<K(!new)>(w: Semiring<K>, a: Automaton<K>, m: Classes, reps: States, states: States, res: Automaton<K>,
                           c: nat, x: Out<K>)
    requires Valid(w, a) && Represents(a, m, reps) && Alone(m, PRE) && Alone(m, POST) && |states| == |reps|
    requires IsQuotient(w, a, m, reps, states, res) && (forall d | 0 <= d < |states| :: IsState(res, states[d]))
    requires c < |states| && x in res.out[states[c]]
    ensures ValidOut(w, res, states[c], x)
  {
    var f := Target(m, states);
    ImageValid(w, a.out[reps[c]], f);
    var o :| o in a.out[reps[c]] && o.lbl == x.lbl && f(o.dst) == x.dst;
    assert ValidOut(w, a, reps[c], o);
    var d := m[o.dst];
    assert states[d] == x.dst && m[reps[d]] == d;
    assert reps[d] == PRE ==> o.dst == PRE;
    assert reps[d] == POST <==> o.dst == POST;
  }

  lemma CopiesValid<K(!new)>(w: Semiring<K>, a: Automaton<K>, m: Classes, reps: States, states: States,
                             res: Automaton<K>, c: nat)
    requires Valid(w, a) && Represents(a, m, reps) && Alone(m, PRE) && Alone(m, POST) && |states| == |reps|
    requires IsQuotient(w, a, m, reps, states, res) && (forall d | 0 <= d < |states| :: IsState(res, states[d]))
    requires c < |states|
    ensures Single(res.out[states[c]]) && forall x <- res.out[states[c]] :: ValidOut(w, res, states[c], x)
  {
    ImageValid(w, a.out[reps[c]], Target(m, states));
    forall x | x in res.out[states[c]]
      ensures ValidOut(w, res, states[c], x)
    {
      CopyValid(w, a, m, reps, states, res, c, x);
    }
  }

  lemma NumberedStates<K(!new)>(w: Semiring<K>, a: Automaton<K>, cs: seq<States>, m: Classes, states: States,
                                res: Automaton<K>, origins: map<State, set<State>>)
    requires Built(w, a, cs, m, states, res, origins) && Alone(m, PRE) && Alone(m, POST)
    ensures ValidStates(res) && |states| == |cs|
    ensures forall d | 0 <= d < |states| :: IsState(res, states[d])
    ensures forall s :: s in res.out <==> exists c: nat :: c < |states| && states[c] == s
  {
    BuiltListed(w, a, cs, m, states, res, origins);
    BuiltEnds(w, a, cs, m, states, res, origins);
    StatesListed(cs, states, res.states, m[PRE], m[POST]);
    OutsListed(res.out, states);
  }

  lemma BuiltListed<K(!new)>(w: Semiring<K>, a: Automaton<K>, cs: seq<States>, m: Classes, states: States,
                             res: Automaton<K>, origins: map<State, set<State>>)
    requires Built(w, a, cs, m, states, res, origins)
    ensures |states| == |cs| && Numbered(cs, states, res.states) && forall s :: s in res.out <==> IsState(res, s)
  {
    assert BuiltParts(w, a, cs, m, states, res, origins);
  }

  // The states of the classes of pre and post.
  lemma BuiltEnds<K(!new)>(w: Semiring<K>, a: Automaton<K>, cs: seq<States>, m: Classes, states: States,
                           res: Automaton<K>, origins: map<State, set<State>>)
    requires Built(w, a, cs, m, states, res, origins) && Alone(m, PRE) && Alone(m, POST)
    ensures m[PRE] < |states| && m[POST] < |states| && states[m[PRE]] == PRE && states[m[POST]] == POST
  {
    assert BuiltParts(w, a, cs, m, states, res, origins);
    var b, e := m[PRE], m[POST];
    assert cs[b][0] in cs[b] && cs[e][0] in cs[e];
  }

  lemma OutsListed<K>(out: map<State, seq<Out<K>>>, states: States)
    requires forall s :: s in out <==> s in states
    ensures forall s :: s in out <==> exists c: nat :: c < |states| && states[c] == s
  {
    forall s
      ensures s in out <==> exists c: nat :: c < |states| && states[c] == s
    {
      assert s in out <==> s in states;
    }
  }

  lemma StatesListed(cs: seq<States>, states: States, ordinary: States, b: nat, e: nat)
    requires Numbered(cs, states, ordinary) && b < |states| && e < |states| && states[b] == PRE && states[e] == POST
    ensures forall s :: s in states <==> s == PRE || s == POST || s in ordinary
    ensures forall s <- ordinary :: s > POST
    ensures forall i, j | 0 <= i < j < |ordinary| :: ordinary[i] != ordinary[j]
  {
    assert states[b] in states && states[e] in states;
  }

  lemma BuiltValid<K(!new)>(w: Semiring<K>, a: Automaton<K>, cs: seq<States>, m: Classes, states: States,
                            res: Automaton<K>, origins: map<State, set<State>>)
    requires Valid(w, a) && Built(w, a, cs, m, states, res, origins) && Alone(m, PRE) && Alone(m, POST)
    requires NonEmpty(cs) && Represents(a, m, Firsts(cs))
    ensures Valid(w, res)
  {
    NumberedStates(w, a, cs, m, states, res, origins);
    forall s | s in res.out
      ensures Single(res.out[s])
      ensures forall x <- res.out[s] :: ValidOut(w, res, s, x)
    {
      var c: nat :| c < |states| && states[c] == s;
      assert BuiltParts(w, a, cs, m, states, res, origins);
      CopiesValid(w, a, m, Firsts(cs), states, res, c);
    }
    PostEmpty(w, a, cs, m, states, res, origins);
  }

  lemma PostEmpty<K(!new)>(w: Semiring<K>, a: Automaton<K>, cs: seq<States>, m: Classes, states: States,
                           res: Automaton<K>, origins: map<State, set<State>>)
    requires Valid(w, a) && Built(w, a, cs, m, states, res, origins) && Alone(m, POST)
    ensures POST in res.out && res.out[POST] == []
  {
    assert BuiltParts(w, a, cs, m, states, res, origins);
    var e := m[POST];
    assert cs[e][0] in cs[e];
    assert states[e] == POST && Firsts(cs)[e] == POST && a.out[POST] == [];
    assert res.out[POST] == Image(w, a.out[POST], Target(m, states));
  }

  // Each transition of copies has the label of one of outs, from an origin of
  // its destination.
  ghost predicate CopiedOuts<K>(outs: seq<Out<K>>, origins: map<State, set<State>>, copies: seq<Out<K>>) {
    forall x <- copies :: exists o :: o in outs && o.lbl == x.lbl && x.dst in origins && o.dst in origins[x.dst]
  }

  // The transitions from q are copies of those of one of its origins.
  ghost predicate CopiedOrigin<K>(a: Automaton<K>, res: Automaton<K>, origins: map<State, set<State>>, q: State) {
    q in res.out && q in origins && exists s ::
          s in origins[q] && s in a.out && CopiedOuts(a.out[s], origins, res.out[q])
  }

  // The states of each class are the origins of its state.
  ghost predicate Traced(r: seq<States>, m: Classes, states: States, origins: map<State, set<State>>) {
    && |states| == |r| && (forall s :: s in m ==> m[s] < |r| && s in r[m[s]])
    && forall c: nat | c < |states| :: states[c] in origins && origins[states[c]] == Elements(r[c])
  }

  lemma CopiedOut<K(!new)>(w: Semiring<K>, outs: seq<Out<K>>, r: seq<States>, m: Classes, states: States,
                           origins: map<State, set<State>>)
    requires Traced(r, m, states, origins) && forall o <- outs :: o.dst in m
    ensures CopiedOuts(outs, origins, Image(w, outs, Target(m, states)))
  {
    var f := Target(m, states);
    ImageValid(w, outs, f);
    forall x <- Image(w, outs, f)
      ensures exists o :: o in outs && o.lbl == x.lbl && x.dst in origins && o.dst in origins[x.dst]
    {
      var o :| o in outs && o.lbl == x.lbl && f(o.dst) == x.dst;
      assert states[m[o.dst]] == x.dst;
    }
  }

  lemma DestinationsIn<K(!new)>(w: Semiring<K>, a: Automaton<K>, m: Classes, s: State)
    requires Valid(w, a) && (forall t :: t in m <==> IsState(a, t)) && s in a.out
    ensures forall o <- a.out[s] :: o.dst in m
  {
    forall o <- a.out[s]
      ensures o.dst in m
    {
      assert ValidOut(w, a, s, o);
    }
  }

  lemma BuiltTraced<K(!new)>(w: Semiring<K>, a: Automaton<K>, r: seq<States>, m: Classes, states: States,
                             res: Automaton<K>, origins: map<State, set<State>>)
    requires NonEmpty(r) && Built(w, a, r, m, states, res, origins) && |states| == |r|
    ensures Traced(r, m, states, origins)
    ensures forall c: nat | c < |r| ::
              && states[c] in res.out && r[c][0] in a.out && r[c][0] in origins[states[c]]
              && res.out[states[c]] == Image(w, a.out[r[c][0]], Target(m, states))
  {
    assert BuiltParts(w, a, r, m, states, res, origins);
    forall c: nat | c < |r|
      ensures states[c] in res.out && r[c][0] in a.out && r[c][0] in origins[states[c]]
      ensures res.out[states[c]] == Image(w, a.out[r[c][0]], Target(m, states))
    {
      assert Firsts(r)[c] == r[c][0];
    }
  }

  lemma BuiltCopied<K(!new)>(w: Semiring<K>, a: Automaton<K>, r: seq<States>, m: Classes, states: States,
                             res: Automaton<K>, origins: map<State, set<State>>)
    requires Valid(w, a) && NonEmpty(r) && Represents(a, m, Firsts(r)) && Alone(m, PRE) && Alone(m, POST)
    requires Built(w, a, r, m, states, res, origins)
    ensures forall q | q in res.out :: CopiedOrigin(a, res, origins, q)
  {
    NumberedStates(w, a, r, m, states, res, origins);
    BuiltTraced(w, a, r, m, states, res, origins);
    forall q | q in res.out
      ensures CopiedOrigin(a, res, origins, q)
    {
      var c: nat :| c < |states| && states[c] == q;
      DestinationsIn(w, a, m, r[c][0]);
      CopiedOut(w, a.out[r[c][0]], r, m, states, origins);
    }
  }

  // The result for the classes of m.
  ghost predicate QuotientBy<K(!new)>(w: Semiring<K>, a: Automaton<K>, m: Classes, res: Automaton<K>,
                                      origins: map<State, set<State>>) {
    exists cs :: Partitions.Parts(cs, m).Valid() && QuotientOf(w, a, cs, res, origins)
  }

  // The quotient by a stable partition keeps the series.
  method Quotient<K(==, !new)>(w: Semiring<K>, a: Automaton<K>, cs: seq<States>, ghost m: Classes)
    returns (res: Automaton<K>, origins: map<State, set<State>>)
    requires Laws(w) && Valid(w, a) && Partitioned(a, cs, m)
    requires Stable(w, a, m) && (Alone(m, POST) || a.out[PRE] == [])
    ensures forall u: seq<nat> :: Series(w, res, u) == Series(w, a, u)
    ensures QuotientOf(w, a, cs, res, origins) && Describes(w, a, m, res, origins)
    ensures Alone(m, PRE) && Alone(m, POST) ==>
              Valid(w, res) && forall q | q in res.out :: CopiedOrigin(a, res, origins, q)
  {
    PartsDisjoint(cs, m);
    var quotienter := new Quotienter(w, cs);
    ghost var r := quotienter.classToSet;
    RearrangedFacts(cs, r);
    RearrangedCovers(a, cs, m, r);
    ghost var m', states;
    res, origins, m', states := quotienter.Run(a);
    BuiltKeeps(w, a, cs, m, r, m', states, res, origins);
  }

  lemma RearrangedFacts(cs: seq<States>, r: seq<States>)
    requires Rearranges(cs, r)
    ensures |r| == |cs| && NonEmpty(r) && Disjoint(r)
  {
    assert Arranged(cs, r);
  }

  lemma StateIn(cs: seq<States>, m: Classes, r: seq<States>, s: State)
    requires Partitions.Parts(cs, m).Valid() && Rearranges(cs, r)
    ensures s in m ==> exists d :: 0 <= d < |r| && s in r[d]
    ensures forall d | 0 <= d < |r| && s in r[d] :: s in m
  {
    if s in m {
      var d := ClassAt(cs, r, m[s]);
      assert s in r[d];
    }
    forall d: nat | d < |r| && s in r[d]
      ensures s in m
    {
      var c := ClassFrom(cs, r, d);
      assert s in cs[c];
    }
  }

  lemma RearrangedCovers<K(!new)>(a: Automaton<K>, cs: seq<States>, m: Classes, r: seq<States>)
    requires Partitions.Parts(cs, m).Valid() && (forall s :: s in m <==> IsState(a, s)) && Rearranges(cs, r)
    ensures Covers(a, r)
  {
    forall s
      ensures IsState(a, s) <==> exists c :: 0 <= c < |r| && s in r[c]
    {
      assert s in m <==> IsState(a, s);
      StateIn(cs, m, r, s);
    }
  }
}
