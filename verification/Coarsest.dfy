// When the partition by signatures is the coarsest stable one
// (vcsn/algos/minimize-weighted.hh).
module Coarsest {
  import opened AllDistances
  import opened PointedAutomata
  import opened Partitions
  import opened Signatures

  // No sum of weights that are not null is null.
  ghost predicate NoCancellation<K(!new)>(w: Semiring<K>) {
    forall x, y | w.add(x, y) == w.zero :: x == w.zero && y == w.zero
  }

  // The classes of all the states.
  ghost predicate Covers<K>(a: Automaton<K>, m: Classes) {
    forall s :: s in m <==> IsState(a, s)
  }

  // ---------------------------------------------------------------------
  // Sums over unions of classes
  // ---------------------------------------------------------------------

  // What the classes of m that are kept sum to.
  function Kept<K>(w: Semiring<K>, outs: seq<Out<K>>, l: Label, m: Classes, keep: nat -> bool): nat -> K {
    (d: nat) => if keep(d) then ClassSum(w, outs, l, m, d) else w.zero
  }

  lemma {:induction false} NothingKept<K(!new)>(w: Semiring<K>, n: nat, outs: seq<Out<K>>, l: Label, m: Classes,
                                                keep: nat -> bool)
    requires Laws(w) && outs == []
    ensures SumTo(w, n, Kept(w, outs, l, m, keep)) == w.zero
    decreases n
  {
    if n > 0 {
      NothingKept(w, n - 1, outs, l, m, keep);
      var d: nat := n - 1;
      assert ClassSum(w, outs, l, m, d) == w.zero;
      assert Kept(w, outs, l, m, keep)(d) == w.zero;
      Units(w, w.zero);
    }
  }

  // A class of m is a union of classes of f, those that are kept.
  lemma {:induction false} UnionSum<K(!new)>(w: Semiring<K>, outs: seq<Out<K>>, l: Label, m: Classes, c: Class,
                                             f: Classes, n: nat, keep: nat -> bool)
    requires Laws(w) && Below(f, n) && forall o <- outs :: o.dst in m && o.dst in f
    requires forall s <- f :: s in m && (keep(f[s]) <==> m[s] == c)
    ensures ClassSum(w, outs, l, m, c) == SumTo(w, n, Kept(w, outs, l, f, keep))
    decreases |outs|
  {
    if outs == [] {
      NothingKept(w, n, outs, l, f, keep);
    } else {
      var o, rest := outs[|outs| - 1], outs[..|outs| - 1];
      assert o in outs && forall x <- rest :: x in outs;
      UnionSum(w, rest, l, m, c, f, n, keep);
      var g, h := Kept(w, rest, l, f, keep), Kept(w, outs, l, f, keep);
      forall d: nat | d != f[o.dst]
        ensures g(d) == h(d)
      {
        assert ClassSum(w, outs, l, f, d) == ClassSum(w, rest, l, f, d);
      }
      if o.lbl == l && m[o.dst] == c {
        SumAdd(w, n, g, h, f[o.dst], o.weight);
      } else {
        SumSame(w, n, g, h);
      }
    }
  }

  lemma BelowSome(m: Classes) returns (n: nat)
    ensures Below(m, n)
    decreases |m|
  {
    if m == map[] {
      n := 0;
    } else {
      var s :| s in m;
      var k := BelowSome(m - {s});
      n := if k <= m[s] then m[s] + 1 else k;
      forall t <- m
        ensures m[t] < n
      {
        assert t != s ==> t in m - {s} && (m - {s})[t] == m[t];
      }
    }
  }

  // States that do not differ by the classes of f do not differ by those of a
  // coarser partition m.
  lemma CoarserSum<K(!new)>(w: Semiring<K>, a: Automaton<K>, f: Classes, m: Classes, s: State, t: State, l: Label,
                            c: Class)
    requires Laws(w) && Valid(w, a) && Covers(a, f) && Covers(a, m) && Contains(m, InOneClass(f))
    requires s in f && t in f && SameOut(w, a, f, s, t)
    ensures ClassSum(w, a.out[s], l, m, c) == ClassSum(w, a.out[t], l, m, c)
  {
    var n := BelowSome(f);
    var keep := (d: nat) => exists r :: r in f && f[r] == d && m[r] == c;
    forall r <- f
      ensures r in m && (keep(f[r]) <==> m[r] == c)
    {
      if keep(f[r]) {
        var q :| q in f && f[q] == f[r] && m[q] == c;
        assert InOneClass(f)(q, r);
      }
    }
    OutsIn(w, a, f, s);
    OutsIn(w, a, f, t);
    UnionSum(w, a.out[s], l, m, c, f, n, keep);
    UnionSum(w, a.out[t], l, m, c, f, n, keep);
    var g, h := Kept(w, a.out[s], l, f, keep), Kept(w, a.out[t], l, f, keep);
    forall d: nat
      ensures g(d) == h(d)
    {
      if keep(d) {
        var r :| r in f && f[r] == d && m[r] == c;
        assert ClassSum(w, a.out[s], l, f, f[r]) == ClassSum(w, a.out[t], l, f, f[r]);
      }
    }
    SumSame(w, n, g, h);
  }

  // ---------------------------------------------------------------------
  // Labels
  // ---------------------------------------------------------------------

  // Without cancellation, a transition makes the sum to its class not null.
  lemma {:induction false} NotNullSum<K(!new)>(w: Semiring<K>, outs: seq<Out<K>>, f: Classes, o: Out<K>)
    requires Laws(w) && NoCancellation(w) && o in outs && o.dst in f && o.weight != w.zero
    ensures ClassSum(w, outs, o.lbl, f, f[o.dst]) != w.zero
    decreases |outs|
  {
    var x, rest := outs[|outs| - 1], outs[..|outs| - 1];
    if x != o {
      assert o in rest;
      NotNullSum(w, rest, f, o);
    }
  }

  lemma LabelToo<K(!new)>(w: Semiring<K>, a: Automaton<K>, f: Classes, s: State, t: State, o: Out<K>)
    requires Laws(w) && NoCancellation(w) && Valid(w, a) && Covers(a, f)
    requires s in f && t in f && SameOut(w, a, f, s, t) && o in a.out[s]
    ensures exists x :: x in a.out[t] && x.lbl == o.lbl
  {
    OutsIn(w, a, f, s);
    assert ValidOut(w, a, s, o);
    NotNullSum(w, a.out[s], f, o);
    assert ClassSum(w, a.out[t], o.lbl, f, f[o.dst]) == ClassSum(w, a.out[s], o.lbl, f, f[o.dst]);
    if forall x <- a.out[t] :: x.lbl != o.lbl {
      NoSum(w, a.out[t], o.lbl, f, f[o.dst]);
    }
  }

  // ---------------------------------------------------------------------
  // Signatures that are told by their coefficients
  // ---------------------------------------------------------------------

  lemma {:induction false} NoNullCoefficient<K(!new)>(w: Semiring<K>, outs: seq<Out<K>>, m: Classes, l: Label)
    ensures forall c <- At(Sig(w, outs, m), l) :: At(Sig(w, outs, m), l)[c] != w.zero
    decreases |outs|
  {
    if outs != [] {
      var o, rest := outs[|outs| - 1], outs[..|outs| - 1];
      NoNullCoefficient(w, rest, m, l);
      if o.dst in m && o.lbl == l {
        var p := At(Sig(w, rest, m), l);
        assert At(Sig(w, outs, m), l) == AddHere(w, p, m[o.dst], o.weight);
      } else {
        assert At(Sig(w, outs, m), l) == At(Sig(w, rest, m), l);
      }
    }
  }

  lemma SamePolynomial<K(!new)>(w: Semiring<K>, p: Polynomial<K>, q: Polynomial<K>)
    requires (forall c <- p :: p[c] != w.zero) && (forall c <- q :: q[c] != w.zero)
    requires forall c: Class :: Coefficient(w, p, c) == Coefficient(w, q, c)
    ensures p == q
  {
    forall c: Class
      ensures (c in p <==> c in q) && (c in p ==> p[c] == q[c])
    {
      assert Coefficient(w, p, c) == Coefficient(w, q, c);
    }
    assert p.Keys == q.Keys;
  }

  lemma SameSignature<K(!new)>(w: Semiring<K>, sig: Signature<K>, sig': Signature<K>)
    requires forall l: Label :: (l in sig <==> l in sig') && At(sig, l) == At(sig', l)
    ensures sig == sig'
  {
    assert sig.Keys == sig'.Keys;
    forall l | l in sig
      ensures sig[l] == sig'[l]
    {
      assert At(sig, l) == At(sig', l);
    }
  }

  lemma StableSignature<K(!new)>(w: Semiring<K>, a: Automaton<K>, f: Classes, m: Classes, s: State, t: State)
    requires Laws(w) && NoCancellation(w) && Valid(w, a) && Covers(a, f) && Covers(a, m) && Contains(m, InOneClass(f))
    requires s in f && t in f && SameOut(w, a, f, s, t)
    ensures Sig(w, a.out[s], m) == Sig(w, a.out[t], m)
  {
    var sig, sig' := Sig(w, a.out[s], m), Sig(w, a.out[t], m);
    OutsIn(w, a, m, s);
    OutsIn(w, a, m, t);
    forall l: Label
      ensures (l in sig <==> l in sig') && At(sig, l) == At(sig', l)
    {
      SameLabel(w, a, f, m, s, t, l);
      SameCoefficients(w, a, f, m, s, t, l);
    }
    SameSignature(w, sig, sig');
  }

  lemma SameLabel<K(!new)>(w: Semiring<K>, a: Automaton<K>, f: Classes, m: Classes, s: State, t: State, l: Label)
    requires Laws(w) && NoCancellation(w) && Valid(w, a) && Covers(a, f) && Covers(a, m)
    requires s in f && t in f && SameOut(w, a, f, s, t)
    ensures l in Sig(w, a.out[s], m) <==> l in Sig(w, a.out[t], m)
  {
    OutsIn(w, a, m, s);
    OutsIn(w, a, m, t);
    SigLabels(w, a.out[s], m, l);
    SigLabels(w, a.out[t], m, l);
    if l in Sig(w, a.out[s], m) {
      var o :| o in a.out[s] && o.lbl == l;
      LabelToo(w, a, f, s, t, o);
    }
    if l in Sig(w, a.out[t], m) {
      var o :| o in a.out[t] && o.lbl == l;
      assert SameOut(w, a, f, t, s);
      LabelToo(w, a, f, t, s, o);
    }
  }

  lemma SameCoefficients<K(!new)>(w: Semiring<K>, a: Automaton<K>, f: Classes, m: Classes, s: State, t: State, l: Label)
    requires Laws(w) && Valid(w, a) && Covers(a, f) && Covers(a, m) && Contains(m, InOneClass(f))
    requires s in f && t in f && SameOut(w, a, f, s, t)
    ensures At(Sig(w, a.out[s], m), l) == At(Sig(w, a.out[t], m), l)
  {
    var p, q := At(Sig(w, a.out[s], m), l), At(Sig(w, a.out[t], m), l);
    forall c: Class
      ensures Coefficient(w, p, c) == Coefficient(w, q, c)
    {
      SigSum(w, a.out[s], m, l, c);
      SigSum(w, a.out[t], m, l, c);
      CoarserSum(w, a, f, m, s, t, l, c);
    }
    NoNullCoefficient(w, a.out[s], m, l);
    NoNullCoefficient(w, a.out[t], m, l);
    SamePolynomial(w, p, q);
  }

  // ---------------------------------------------------------------------
  // Without cancellation
  // ---------------------------------------------------------------------

  // Stable partitions are never separated.
  lemma StableRespected<K(!new)>(w: Semiring<K>, a: Automaton<K>, f: Classes)
    requires Laws(w) && NoCancellation(w) && Valid(w, a) && Covers(a, f) && Stable(w, a, f)
    ensures Respected(w, a, InOneClass(f))
  {
    forall m: Classes, s, t | Covers(a, m) && Contains(m, InOneClass(f)) && s in m && t in m && InOneClass(f)(s, t)
      ensures Sig(w, a.out[s], m) == Sig(w, a.out[t], m)
    {
      assert SameOut(w, a, f, s, t);
      StableSignature(w, a, f, m, s, t);
    }
  }

  // The partition by signatures is stable, and it is the coarsest one.
  lemma CoarsestStable<K(!new)>(w: Semiring<K>, a: Automaton<K>, m: Classes)
    requires Laws(w) && NoCancellation(w) && Valid(w, a) && SigStable(w, a, m) && Coarse(w, a, m)
    ensures Stable(w, a, m)
    ensures forall f: Classes | Covers(a, f) && Stable(w, a, f) :: Contains(m, InOneClass(f))
  {
    SigStableIsStable(w, a, m);
    forall f: Classes | Covers(a, f) && Stable(w, a, f)
      ensures Contains(m, InOneClass(f))
    {
      StableRespected(w, a, f);
    }
  }

  // ---------------------------------------------------------------------
  // With weights that cancel
  // ---------------------------------------------------------------------

  // From 2, the weights x and y of the transitions to 4 and 5, which carry the
  // same letter, cancel; 2 and 3 then accept the empty word only.
  function Cancelling<K>(w: Semiring<K>, x: K, y: K): Automaton<K> {
    var end := Out(Special, POST, w.one);
    Automaton([2, 3, 4, 5],
              map[0 := [Out(Special, 2, w.one), Out(Special, 3, w.one)],
                  1 := [],
                  2 := [end, Out(Letter(0), 4, x), Out(Letter(0), 5, y)],
                  3 := [end], 4 := [end], 5 := [end]])
  }

  // The ordinary states in one class.
  function Merged(): Classes {
    map[0 := 0, 1 := 1, 2 := 2, 3 := 2, 4 := 2, 5 := 2]
  }

  lemma CancellingValid<K(!new)>(w: Semiring<K>, x: K, y: K)
    requires x != w.zero && y != w.zero && w.one != w.zero
    ensures Valid(w, Cancelling(w, x, y)) && Covers(Cancelling(w, x, y), Merged())
  {
    var a := Cancelling(w, x, y);
    CancellingStates(w, x, y);
    forall s <- a.out
      ensures Single(a.out[s]) && forall o <- a.out[s] :: ValidOut(w, a, s, o)
    {
      CancellingOuts(w, x, y, s);
    }
  }

  lemma CancellingStates<K(!new)>(w: Semiring<K>, x: K, y: K)
    ensures ValidStates(Cancelling(w, x, y)) && Covers(Cancelling(w, x, y), Merged())
  {
  }

  lemma CancellingOuts<K(!new)>(w: Semiring<K>, x: K, y: K, s: State)
    requires x != w.zero && y != w.zero && w.one != w.zero && s in Cancelling(w, x, y).out
    ensures Single(Cancelling(w, x, y).out[s])
    ensures forall o <- Cancelling(w, x, y).out[s] :: ValidOut(w, Cancelling(w, x, y), s, o)
  {
  }

  lemma StepThere<K(!new)>(a: Automaton<K>, s: State, o: Out<K>, d: State)
    requires s in a.out && o in a.out[s] && Reaches(a, o.dst, d)
    ensures Reaches(a, s, d)
  {
    var p: seq<Out<K>> :| IsPath(a, o.dst, p, d);
    assert ([o] + p)[1..] == p;
    assert IsPath(a, s, [o] + p, d);
  }

  lemma Here<K(!new)>(a: Automaton<K>, s: State)
    ensures Reaches(a, s, s)
  {
    assert IsPath(a, s, [], s);
  }

  lemma CancellingTrim<K(!new)>(w: Semiring<K>, x: K, y: K)
    ensures Trim(Cancelling(w, x, y))
  {
    var a := Cancelling(w, x, y);
    Here(a, POST);
    forall s <- a.states
      ensures Reaches(a, s, POST)
    {
      assert a.out[s][0] in a.out[s];
      StepThere(a, s, a.out[s][0], POST);
    }
    forall s <- a.states
      ensures Reaches(a, PRE, s)
    {
      Here(a, s);
      if s == 4 {
        StepThere(a, 2, a.out[2][1], s);
      } else if s == 5 {
        StepThere(a, 2, a.out[2][2], s);
      }
      StepThere(a, PRE, a.out[PRE][if s == 3 then 1 else 0], s);
    }
  }

  // The sums to each class of Merged().
  lemma CancellingSums<K(!new)>(w: Semiring<K>, x: K, y: K, s: State, l: Label, c: Class)
    requires Laws(w) && w.add(x, y) == w.zero && s in Cancelling(w, x, y).states
    ensures ClassSum(w, Cancelling(w, x, y).out[s], l, Merged(), c) == if l == Special && c == 1 then w.one else w.zero
  {
    var m, end, o, o' := Merged(), Out(Special, POST, w.one), Out(Letter(0), 4, x), Out(Letter(0), 5, y);
    assert [end][..0] == [];
    assert [end, o][..1] == [end];
    assert [end, o, o'][..2] == [end, o];
    Units(w, w.one);
    Units(w, x);
    assert ClassSum(w, [end], l, m, c) == if l == Special && c == 1 then w.one else w.zero;
    if s == 2 {
      assert ClassSum(w, [end, o], l, m, c)
          == if l == Special && c == 1 then w.one else if l == Letter(0) && c == 2 then x else w.zero;
    }
  }

  lemma CancellingStable<K(!new)>(w: Semiring<K>, x: K, y: K)
    requires Laws(w) && w.add(x, y) == w.zero
    ensures Stable(w, Cancelling(w, x, y), Merged()) && Alone(Merged(), PRE) && Alone(Merged(), POST)
  {
    var a, m := Cancelling(w, x, y), Merged();
    forall s, t | s in m && t in m && m[s] == m[t]
      ensures SameOut(w, a, m, s, t)
    {
      if s != t {
        assert s in a.states && t in a.states;
        forall l: Label, d | d in m
          ensures ClassSum(w, a.out[s], l, m, m[d]) == ClassSum(w, a.out[t], l, m, m[d])
        {
          CancellingSums(w, x, y, s, l, m[d]);
          CancellingSums(w, x, y, t, l, m[d]);
        }
      }
    }
  }

  // The letter counts in the signature of 2, whatever the classes.
  lemma CancellingApart<K(!new)>(w: Semiring<K>, x: K, y: K, m: Classes)
    requires Covers(Cancelling(w, x, y), m)
    ensures Sig(w, Cancelling(w, x, y).out[2], m) != Sig(w, Cancelling(w, x, y).out[3], m)
  {
    var a := Cancelling(w, x, y);
    SigLabels(w, a.out[2], m, Letter(0));
    SigLabels(w, a.out[3], m, Letter(0));
    assert a.out[2][1] in a.out[2] && a.out[2][1].lbl == Letter(0);
  }

  // The classes of f could be merged: the quotient keeps the series.
  ghost predicate Mergeable<K(!new)>(w: Semiring<K>, a: Automaton<K>, f: Classes) {
    && Valid(w, a) && Trim(a) && Covers(a, f)
    && Stable(w, a, f) && Alone(f, PRE) && Alone(f, POST)
  }

  lemma CancellingMergeable<K(!new)>(w: Semiring<K>, x: K, y: K)
    requires Laws(w) && x != w.zero && y != w.zero && w.add(x, y) == w.zero
    ensures Mergeable(w, Cancelling(w, x, y), Merged())
  {
    OneNotNull(w, x);
    CancellingValid(w, x, y);
    CancellingTrim(w, x, y);
    CancellingStable(w, x, y);
  }

  lemma CancellingSplit<K(!new)>(w: Semiring<K>, x: K, y: K, m: Classes)
    requires ValidStates(Cancelling(w, x, y)) && SigStable(w, Cancelling(w, x, y), m)
    ensures !Contains(m, InOneClass(Merged()))
  {
    CancellingApart(w, x, y, m);
    assert m[2] != m[3];
    assert InOneClass(Merged())(2, 3);
  }

  // In any weightset where two weights that are not null have a null sum, the
  // partition by signatures of some trim automaton is not the coarsest one.
  lemma NotCoarsest<K(!new)>(w: Semiring<K>, x: K, y: K) returns (a: Automaton<K>, f: Classes)
    requires Laws(w) && x != w.zero && y != w.zero && w.add(x, y) == w.zero
    ensures Mergeable(w, a, f) && forall m: Classes | SigStable(w, a, m) :: !Contains(m, InOneClass(f))
  {
    a, f := Cancelling(w, x, y), Merged();
    CancellingMergeable(w, x, y);
    forall m: Classes | SigStable(w, a, m)
      ensures !Contains(m, InOneClass(f))
    {
      CancellingSplit(w, x, y, m);
    }
  }

  lemma OneNotNull<K(!new)>(w: Semiring<K>, x: K)
    requires Laws(w) && x != w.zero
    ensures w.one != w.zero
  {
    Units(w, x);
  }
}
