// Weighted automata with their pre and post states, the weights of the words,
// and the states of one class of a stable partition.
module PointedAutomata {
  import opened AllDistances

  // The special label is that of the transitions from pre and to post.
  datatype Label = Special | Letter(value: nat)

  type Word = seq<Label>

  // A transition from a state.
  datatype Out<K> = Out(lbl: Label, dst: State, weight: K)

  // states are the ordinary states, and out[s] are the transitions from s.
  datatype Automaton<K> = Automaton(states: seq<State>, out: map<State, seq<Out<K>>>)

  const PRE: State := 0
  const POST: State := 1

  // With pre and post.
  predicate IsState<K>(a: Automaton<K>, s: State) {
    s == PRE || s == POST || s in a.states
  }

  ghost predicate ValidOut<K>(w: Semiring<K>, a: Automaton<K>, s: State, o: Out<K>) {
    && IsState(a, o.dst) && o.dst != PRE && o.weight != w.zero
    && (o.lbl.Special? <==> s == PRE || o.dst == POST)
    && (s == PRE ==> o.dst != POST)
  }

  ghost predicate ValidStates<K>(a: Automaton<K>) {
    && (forall s <- a.states :: s > POST)
    && (forall i, j | 0 <= i < j < |a.states| :: a.states[i] != a.states[j])
    && (forall s :: s in a.out <==> IsState(a, s))
  }

  // There is one transition at most for each label and destination.
  ghost predicate Single<K>(outs: seq<Out<K>>) {
    forall i, j | 0 <= i < j < |outs| :: outs[i].lbl != outs[j].lbl || outs[i].dst != outs[j].dst
  }

  ghost predicate Valid<K>(w: Semiring<K>, a: Automaton<K>) {
    && ValidStates(a)
    && a.out[POST] == []
    && (forall s <- a.out :: Single(a.out[s]))
    && (forall s <- a.out :: forall o <- a.out[s] :: ValidOut(w, a, s, o))
  }

  // ---------------------------------------------------------------------
  // Paths
  // ---------------------------------------------------------------------

  // p lists transitions that follow each other.
  ghost predicate IsPath<K>(a: Automaton<K>, s: State, p: seq<Out<K>>, d: State)
    decreases |p|
  {
    if p == [] then s == d else s in a.out && p[0] in a.out[s] && IsPath(a, p[0].dst, p[1..], d)
  }

  ghost predicate Reaches<K(!new)>(a: Automaton<K>, s: State, d: State) {
    exists p: seq<Out<K>> :: IsPath(a, s, p, d)
  }

  ghost predicate Trim<K(!new)>(a: Automaton<K>) {
    forall s <- a.states :: Reaches(a, PRE, s) && Reaches(a, s, POST)
  }

  lemma FirstStep<K(!new)>(a: Automaton<K>, s: State, d: State)
    requires Reaches(a, s, d) && s != d
    ensures s in a.out && a.out[s] != []
  {
    var p: seq<Out<K>> :| IsPath(a, s, p, d);
  }

  // ---------------------------------------------------------------------
  // The weights of words
  // ---------------------------------------------------------------------

  // The sum over the transitions labelled l of their weights by the values g
  // of their destinations.
  function Row<K>(w: Semiring<K>, outs: seq<Out<K>>, l: Label, g: State -> K): K {
    if outs == [] then w.zero
    else
      var o := outs[|outs| - 1];
      var rest := Row(w, outs[..|outs| - 1], l, g);
      if o.lbl == l then w.add(rest, w.mul(o.weight, g(o.dst))) else rest
  }

  // The weight of u from s to post.
  function V<K>(w: Semiring<K>, a: Automaton<K>, s: State, u: Word): K
    decreases |u|, 0
  {
    if u == [] then if s == POST then w.one else w.zero
    else if s !in a.out then w.zero
    else Row(w, a.out[s], u[0], Values(w, a, u[1..]))
  }

  function Values<K>(w: Semiring<K>, a: Automaton<K>, u: Word): State -> K
    decreases |u|, 1
  {
    (s: State) => V(w, a, s, u)
  }

  function Delimit(u: seq<nat>): Word {
    [Special] + seq(|u|, i requires 0 <= i < |u| => Letter(u[i])) + [Special]
  }

  // The weight of a word, the sum over its successful paths.
  function Series<K>(w: Semiring<K>, a: Automaton<K>, u: seq<nat>): K {
    V(w, a, PRE, Delimit(u))
  }

  lemma {:induction false} RowSame<K(!new)>(w: Semiring<K>, outs: seq<Out<K>>, l: Label, g: State -> K, h: State -> K)
    requires forall o <- outs :: g(o.dst) == h(o.dst)
    ensures Row(w, outs, l, g) == Row(w, outs, l, h)
    decreases |outs|
  {
    if outs != [] {
      RowSame(w, outs[..|outs| - 1], l, g, h);
      assert outs[|outs| - 1] in outs;
    }
  }

  // ---------------------------------------------------------------------
  // Sums by classes
  // ---------------------------------------------------------------------

  type Classes = map<State, nat>

  // The sum of the weights of the transitions labelled l to the class c.
  function ClassSum<K>(w: Semiring<K>, outs: seq<Out<K>>, l: Label, m: Classes, c: nat): K {
    if outs == [] then w.zero
    else
      var o := outs[|outs| - 1];
      var rest := ClassSum(w, outs[..|outs| - 1], l, m, c);
      if o.lbl == l && o.dst in m && m[o.dst] == c then w.add(rest, o.weight) else rest
  }

  function SumTo<K>(w: Semiring<K>, n: nat, f: nat -> K): K {
    if n == 0 then w.zero else w.add(SumTo(w, n - 1, f), f(n - 1))
  }

  lemma AddThree<K(!new)>(w: Semiring<K>, x: K, y: K, z: K)
    requires Laws(w)
    ensures w.add(w.add(x, y), z) == w.add(w.add(x, z), y)
    ensures w.add(w.add(x, y), z) == w.add(x, w.add(y, z))
  {
    assert Axioms(w);
    assert w.add(x, w.add(y, z)) == w.add(x, w.add(z, y));
  }

  lemma {:induction false} SumSame<K(!new)>(w: Semiring<K>, n: nat, f: nat -> K, g: nat -> K)
    requires forall c | 0 <= c < n :: f(c) == g(c)
    ensures SumTo(w, n, f) == SumTo(w, n, g)
    decreases n
  {
    if n > 0 {
      SumSame(w, n - 1, f, g);
    }
  }

  // Only the term c changes.
  lemma {:induction false} SumAdd<K(!new)>(w: Semiring<K>, n: nat, f: nat -> K, g: nat -> K, c: nat, x: K)
    requires Laws(w) && c < n && g(c) == w.add(f(c), x)
    requires forall d | 0 <= d < n && d != c :: g(d) == f(d)
    ensures SumTo(w, n, g) == w.add(SumTo(w, n, f), x)
    decreases n
  {
    if c == n - 1 {
      SumSame(w, n - 1, f, g);
      AddThree(w, SumTo(w, n - 1, f), f(c), x);
    } else {
      SumAdd(w, n - 1, f, g, c, x);
      AddThree(w, SumTo(w, n - 1, f), x, f(n - 1));
    }
  }

  function Terms<K>(w: Semiring<K>, outs: seq<Out<K>>, l: Label, m: Classes, g: nat -> K): nat -> K {
    (c: nat) => w.mul(ClassSum(w, outs, l, m, c), g(c))
  }

  function OfClass<K>(w: Semiring<K>, m: Classes, g: nat -> K): State -> K {
    (s: State) => if s in m then g(m[s]) else w.zero
  }

  ghost predicate Below(m: Classes, n: nat) {
    forall s <- m :: m[s] < n
  }

  lemma {:induction false} NoTerms<K(!new)>(w: Semiring<K>, n: nat, l: Label, m: Classes, g: nat -> K)
    requires Laws(w)
    ensures SumTo(w, n, Terms(w, [], l, m, g)) == w.zero
    decreases n
  {
    if n > 0 {
      NoTerms(w, n - 1, l, m, g);
      Units(w, g(n - 1));
      Units(w, w.zero);
    }
  }

  // When the values depend on the classes only, a row is a sum over classes.
  lemma {:induction false} Regroup<K(!new)>(w: Semiring<K>, outs: seq<Out<K>>, l: Label, m: Classes, n: nat,
                                            g: nat -> K)
    requires Laws(w) && Below(m, n) && forall o <- outs :: o.dst in m
    ensures Row(w, outs, l, OfClass(w, m, g)) == SumTo(w, n, Terms(w, outs, l, m, g))
    decreases |outs|
  {
    if outs == [] {
      NoTerms(w, n, l, m, g);
    } else {
      var o, rest := outs[|outs| - 1], outs[..|outs| - 1];
      assert o in outs && forall x <- rest :: x in outs;
      Regroup(w, rest, l, m, n, g);
      var f, h := Terms(w, rest, l, m, g), Terms(w, outs, l, m, g);
      forall c: nat | o.lbl != l || c != m[o.dst]
        ensures f(c) == h(c)
      {
        assert ClassSum(w, outs, l, m, c) == ClassSum(w, rest, l, m, c);
      }
      if o.lbl == l {
        var c := m[o.dst];
        RightDistributive(w, ClassSum(w, rest, l, m, c), o.weight, g(c));
        SumAdd(w, n, f, h, c, w.mul(o.weight, g(c)));
      } else {
        SumSame(w, n, f, h);
      }
    }
  }

  // ---------------------------------------------------------------------
  // Stable partitions
  // ---------------------------------------------------------------------

  // reps gives a state of each class.
  ghost predicate Represents<K>(a: Automaton<K>, m: Classes, reps: seq<State>) {
    && (forall s :: s in m <==> IsState(a, s))
    && Below(m, |reps|)
    && (forall c | 0 <= c < |reps| :: reps[c] in m && m[reps[c]] == c)
  }

  // Two states of a class lead to the same classes, with the same weights.
  ghost predicate SameOut<K>(w: Semiring<K>, a: Automaton<K>, m: Classes, s: State, t: State)
    requires s in a.out && t in a.out
  {
    forall l: Label, d | d in m :: ClassSum(w, a.out[s], l, m, m[d]) == ClassSum(w, a.out[t], l, m, m[d])
  }

  ghost predicate Stable<K>(w: Semiring<K>, a: Automaton<K>, m: Classes)
    requires ValidStates(a) && forall s <- m :: IsState(a, s)
  {
    forall s, t | s in m && t in m && m[s] == m[t] :: SameOut(w, a, m, s, t)
  }

  ghost predicate Alone(m: Classes, s: State) {
    s in m && forall t <- m :: m[t] == m[s] ==> t == s
  }

  // The values of the representatives.
  function RepValues<K>(w: Semiring<K>, a: Automaton<K>, reps: seq<State>, u: Word): nat -> K {
    (c: nat) => if c < |reps| then V(w, a, reps[c], u) else w.zero
  }

  // In a stable partition, the states of one class give each word the same
  // weight.
  lemma {:induction false} StableValues<K(!new)>(w: Semiring<K>, a: Automaton<K>, m: Classes, reps: seq<State>,
                                                 s: State, t: State, u: Word)
    requires Laws(w) && Valid(w, a) && Represents(a, m, reps) && Stable(w, a, m) && Alone(m, POST)
    requires s in m && t in m && m[s] == m[t]
    ensures V(w, a, s, u) == V(w, a, t, u)
    decreases |u|
  {
    if u != [] {
      StableRow(w, a, m, reps, s, u);
      StableRow(w, a, m, reps, t, u);
      assert SameOut(w, a, m, s, t);
      var g := RepValues(w, a, reps, u[1..]);
      forall c: nat | c < |reps|
        ensures ClassSum(w, a.out[s], u[0], m, c) == ClassSum(w, a.out[t], u[0], m, c)
      {
        assert m[reps[c]] == c;
      }
      SumSame(w, |reps|, Terms(w, a.out[s], u[0], m, g), Terms(w, a.out[t], u[0], m, g));
    }
  }

  lemma {:induction false} StableRow<K(!new)>(w: Semiring<K>, a: Automaton<K>, m: Classes, reps: seq<State>, s: State,
                                              u: Word)
    requires Laws(w) && Valid(w, a) && Represents(a, m, reps) && Stable(w, a, m) && Alone(m, POST)
    requires s in m && u != []
    ensures V(w, a, s, u) == SumTo(w, |reps|, Terms(w, a.out[s], u[0], m, RepValues(w, a, reps, u[1..])))
    decreases |u|, 0
  {
    var g := RepValues(w, a, reps, u[1..]);
    forall o <- a.out[s]
      ensures o.dst in m && Values(w, a, u[1..])(o.dst) == OfClass(w, m, g)(o.dst)
    {
      assert ValidOut(w, a, s, o);
      StableValues(w, a, m, reps, o.dst, reps[m[o.dst]], u[1..]);
    }
    RowSame(w, a.out[s], u[0], Values(w, a, u[1..]), OfClass(w, m, g));
    Regroup(w, a.out[s], u[0], m, |reps|, g);
  }

  // ---------------------------------------------------------------------
  // Other numbers for the same classes
  // ---------------------------------------------------------------------

  ghost predicate SameClasses(m: Classes, m': Classes) {
    && m.Keys == m'.Keys
    && forall s, t | s in m && t in m :: m[s] == m[t] <==> m'[s] == m'[t]
  }

  lemma {:induction false} RenumberedSum<K(!new)>(w: Semiring<K>, outs: seq<Out<K>>, l: Label, m: Classes, m': Classes,
                                                  d: State)
    requires SameClasses(m, m') && d in m
    ensures ClassSum(w, outs, l, m, m[d]) == ClassSum(w, outs, l, m', m'[d])
    decreases |outs|
  {
    if outs != [] {
      RenumberedSum(w, outs[..|outs| - 1], l, m, m', d);
    }
  }

  lemma RenumberedStable<K(!new)>(w: Semiring<K>, a: Automaton<K>, m: Classes, m': Classes)
    requires ValidStates(a) && (forall s <- m :: IsState(a, s)) && SameClasses(m, m') && Stable(w, a, m)
    ensures Stable(w, a, m')
  {
    forall s, t | s in m' && t in m' && m'[s] == m'[t]
      ensures SameOut(w, a, m', s, t)
    {
      assert SameOut(w, a, m, s, t);
      forall l: Label, d | d in m'
        ensures ClassSum(w, a.out[s], l, m', m'[d]) == ClassSum(w, a.out[t], l, m', m'[d])
      {
        RenumberedSum(w, a.out[s], l, m, m', d);
        RenumberedSum(w, a.out[t], l, m, m', d);
      }
    }
  }
}
