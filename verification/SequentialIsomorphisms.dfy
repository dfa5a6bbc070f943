// The search for an isomorphism of sequential automata: the images of the
// states follow from that of pre (vcsn/algos/are-isomorphic.hh).
module SequentialIsomorphisms {
  import opened Wrappers
  import opened Sets
  import opened AllDistances
  import opened PointedAutomata
  import opened Isomorphisms

  // The transition labelled l.
  function Find<K>(outs: seq<Out<K>>, l: Label): (r: Option<Out<K>>)
    ensures r.Some? ==> r.value in outs && r.value.lbl == l
    ensures r.None? ==> forall o <- outs :: o.lbl != l
  {
    if outs == [] then None
    else if outs[|outs| - 1].lbl == l then Some(outs[|outs| - 1])
    else Find(outs[..|outs| - 1], l)
  }

  lemma FindOnly<K>(outs: seq<Out<K>>, o: Out<K>)
    requires DifferentLabels(outs) && o in outs
    ensures Find(outs, o.lbl) == Some(o)
  {
  }

  // What is asked of the automata; said of what equals a, so as to be looked
  // into only where needed.
  ghost predicate Input<K(!new)>(w: Semiring<K>, a: Automaton<K>) {
    forall b | b == a :: Valid(w, b) && Accessible(b) && Sequential(b)
  }

  lemma InputOuts<K(!new)>(w: Semiring<K>, a: Automaton<K>, s: State)
    requires Input(w, a) && IsState(a, s)
    ensures s in a.out && DifferentLabels(a.out[s]) && Single(a.out[s])
    ensures forall o <- a.out[s] :: IsState(a, o.dst) && o.dst != PRE && (o.lbl.Special? <==> s == PRE || o.dst == POST)
    ensures forall o <- a.out[s] :: s == PRE ==> o.dst != POST
  {
    assert Valid(w, a) && Sequential(a);
    forall o <- a.out[s]
      ensures IsState(a, o.dst) && o.dst != PRE && (o.lbl.Special? <==> s == PRE || o.dst == POST)
      ensures s == PRE ==> o.dst != POST
    {
      assert ValidOut(w, a, s, o);
    }
  }

  // ---------------------------------------------------------------------
  // Partial isomorphisms
  // ---------------------------------------------------------------------

  // m and n are inverses of each other, and keep pre and post apart.
  ghost predicate Inverses<K>(a: Automaton<K>, b: Automaton<K>, m: StateMap, n: StateMap) {
    && (forall s | s in m :: m[s] in n && n[m[s]] == s)
    && (forall t | t in n :: n[t] in m && m[n[t]] == t)
    && (forall s | s in m :: IsState(a, s) && IsState(b, m[s]) && s != PRE && m[s] != PRE
         && (s == POST <==> m[s] == POST))
  }

  // t is the image of s, pre being that of pre.
  ghost predicate Paired(m: StateMap, s: State, t: State) {
    (s == PRE && t == PRE) || (s in m && m[s] == t)
  }

  // The transitions from s go to transitions from t.
  ghost predicate Matched<K>(a: Automaton<K>, b: Automaton<K>, m: StateMap, s: State, t: State) {
    && s in a.out && t in b.out && |a.out[s]| == |b.out[t]|
    && MatchedOuts(a.out[s], b.out[t], m)
  }

  ghost predicate MatchedOuts<K>(outs: seq<Out<K>>, outs': seq<Out<K>>, m: StateMap) {
    forall o <- outs :: o.dst in m && Moved(m, o) in outs'
  }

  // All the isomorphisms extend m; said of what equals m, so as to be looked
  // into only where needed.
  ghost predicate Forced<K(!new)>(a: Automaton<K>, b: Automaton<K>, m: StateMap) {
    forall q | q == m :: AllExtend(a, b, q)
  }

  ghost predicate AllExtend<K(!new)>(a: Automaton<K>, b: Automaton<K>, m: StateMap) {
    forall h: StateMap | Isomorphism(a, b, h) :: Extends(h, m)
  }

  // All the isomorphisms send d to e.
  ghost predicate Sends<K(!new)>(a: Automaton<K>, b: Automaton<K>, d: State, e: State) {
    forall h: StateMap | Isomorphism(a, b, h) :: d in h && h[d] == e
  }

  ghost predicate Extends(h: StateMap, m: StateMap) {
    forall s | s in m :: s in h && h[s] == m[s]
  }

  lemma ExtendsPaired<K(!new)>(a: Automaton<K>, b: Automaton<K>, m: StateMap, h: StateMap, s: State, t: State)
    requires Isomorphism(a, b, h) && Extends(h, m) && Paired(m, s, t)
    ensures s in h && h[s] == t
  {
    assert IsState(a, PRE);
  }

  // An isomorphism sends the transition o to the one with its label.
  lemma ImageFound<K(!new)>(w: Semiring<K>, a: Automaton<K>, b: Automaton<K>, h: StateMap, s: State, o: Out<K>)
    requires Input(w, a) && Input(w, b) && Isomorphism(a, b, h) && s in h && s in a.out && o in a.out[s]
    ensures h[s] in b.out && o.dst in h && Find(b.out[h[s]], o.lbl) == Some(Moved(h, o))
    ensures |a.out[s]| == |b.out[h[s]]|
  {
    InputOuts(w, b, h[s]);
    InputOuts(w, a, s);
    assert SameOuts(a.out[s], b.out[h[s]], h);
    FindOnly(b.out[h[s]], Moved(h, o));
    SameOutsSize(a.out[s], b.out[h[s]], h);
  }

  lemma ImageSize<K(!new)>(w: Semiring<K>, a: Automaton<K>, b: Automaton<K>, h: StateMap, s: State)
    requires Input(w, a) && Input(w, b) && Isomorphism(a, b, h) && s in h
    ensures s in a.out && h[s] in b.out && |a.out[s]| == |b.out[h[s]]|
  {
    InputOuts(w, b, h[s]);
    InputOuts(w, a, s);
    assert SameOuts(a.out[s], b.out[h[s]], h);
    SameOutsSize(a.out[s], b.out[h[s]], h);
  }

  // Different numbers of transitions: no isomorphism.
  lemma SizesRefute<K(!new)>(w: Semiring<K>, a: Automaton<K>, b: Automaton<K>, m: StateMap, s: State, t: State)
    requires Input(w, a) && Input(w, b) && Forced(a, b, m) && Paired(m, s, t) && s in a.out && t in b.out
    requires |a.out[s]| != |b.out[t]|
    ensures !Isomorphic(a, b)
  {
    assert AllExtend(a, b, m);
    forall h: StateMap | Isomorphism(a, b, h)
      ensures false
    {
      ExtendsPaired(a, b, m, h, s, t);
      ImageSize(w, a, b, h, s);
    }
  }

  // The image of o is not there: no isomorphism.
  lemma LabelRefutes<K(!new)>(w: Semiring<K>, a: Automaton<K>, b: Automaton<K>, m: StateMap, s: State, t: State,
                              o: Out<K>)
    requires Input(w, a) && Input(w, b) && Forced(a, b, m) && Paired(m, s, t) && s in a.out && t in b.out
               && o in a.out[s]
    requires Find(b.out[t], o.lbl).None? || Find(b.out[t], o.lbl).value.weight != o.weight
    ensures !Isomorphic(a, b)
  {
    assert AllExtend(a, b, m);
    forall h: StateMap | Isomorphism(a, b, h)
      ensures false
    {
      ExtendsPaired(a, b, m, h, s, t);
      ImageFound(w, a, b, h, s, o);
    }
  }

  // The destinations have to correspond.
  lemma DestinationForced<K(!new)>(w: Semiring<K>, a: Automaton<K>, b: Automaton<K>, m: StateMap, s: State, t: State,
                                   o: Out<K>)
    requires Input(w, a) && Input(w, b) && Forced(a, b, m) && Paired(m, s, t) && s in a.out && t in b.out
               && o in a.out[s]
    requires Find(b.out[t], o.lbl).Some?
    ensures Sends(a, b, o.dst, Find(b.out[t], o.lbl).value.dst)
  {
    assert AllExtend(a, b, m);
    forall h: StateMap | Isomorphism(a, b, h)
      ensures o.dst in h && h[o.dst] == Find(b.out[t], o.lbl).value.dst
    {
      ExtendsPaired(a, b, m, h, s, t);
      ImageFound(w, a, b, h, s, o);
    }
  }

  // The destinations already correspond to others: no isomorphism.
  lemma DestinationRefutes<K(!new)>(a: Automaton<K>, b: Automaton<K>, m: StateMap, n: StateMap, d: State, e: State)
    requires Inverses(a, b, m, n) && Forced(a, b, m)
    requires Sends(a, b, d, e)
    requires (d in m && m[d] != e) || (d !in m && e in n)
    ensures !Isomorphic(a, b)
  {
    assert AllExtend(a, b, m);
    forall h: StateMap
      ensures !Isomorphism(a, b, h)
    {
      if d !in m {
        OneOrigin(a, b, m, n, h, d, e);
      }
    }
  }

  lemma OneOrigin<K(!new)>(a: Automaton<K>, b: Automaton<K>, m: StateMap, n: StateMap, h: StateMap, d: State, e: State)
    requires Inverses(a, b, m, n) && d !in m && e in n
    ensures d in h && h[d] == e && Injective(h) ==> !Extends(h, m)
  {
    assert n[e] in m && m[n[e]] == e;
  }

  // ---------------------------------------------------------------------
  // Counterexamples
  // ---------------------------------------------------------------------

  // No injection that extends m sends outs to outs'.
  ghost predicate Mismatch<K(!new)>(outs: seq<Out<K>>, outs': seq<Out<K>>, m: StateMap) {
    forall h: StateMap | Injective(h) && Extends(h, m) :: !SameOuts(outs, outs', h)
  }

  lemma SizesMismatch<K(!new)>(outs: seq<Out<K>>, outs': seq<Out<K>>, m: StateMap)
    requires Single(outs) && Single(outs') && |outs| != |outs'|
    ensures Mismatch(outs, outs', m)
  {
    forall h: StateMap | Injective(h) && Extends(h, m)
      ensures !SameOuts(outs, outs', h)
    {
      if SameOuts(outs, outs', h) {
        SameOutsSize(outs, outs', h);
      }
    }
  }

  lemma LabelMismatch<K(!new)>(outs: seq<Out<K>>, outs': seq<Out<K>>, m: StateMap, o: Out<K>)
    requires DifferentLabels(outs') && o in outs
    requires Find(outs', o.lbl).None? || Find(outs', o.lbl).value.weight != o.weight
    ensures Mismatch(outs, outs', m)
  {
    forall h: StateMap | Injective(h) && Extends(h, m)
      ensures !SameOuts(outs, outs', h)
    {
      if SameOuts(outs, outs', h) {
        FindOnly(outs', Moved(h, o));
      }
    }
  }

  // x is sent to the destination that o needs, or its own one to another.
  lemma ConflictMismatch<K(!new)>(outs: seq<Out<K>>, outs': seq<Out<K>>, m: StateMap, o: Out<K>, e: State, x: State)
    requires DifferentLabels(outs') && o in outs && Find(outs', o.lbl).Some? && Find(outs', o.lbl).value.dst == e
    requires x in m && (x == o.dst <==> m[x] != e)
    ensures Mismatch(outs, outs', m)
  {
    forall h: StateMap | Injective(h) && Extends(h, m)
      ensures !SameOuts(outs, outs', h)
    {
      if SameOuts(outs, outs', h) {
        SentTo(outs, outs', h, o);
      }
    }
  }

  lemma DestinationMismatch<K(!new)>(a: Automaton<K>, b: Automaton<K>, outs: seq<Out<K>>, outs': seq<Out<K>>,
                                     m: StateMap, n: StateMap, o: Out<K>, e: State)
    requires DifferentLabels(outs') && o in outs && Inverses(a, b, m, n)
    requires Find(outs', o.lbl).Some? && Find(outs', o.lbl).value.dst == e
    requires (o.dst in m && m[o.dst] != e) || (o.dst !in m && e in n)
    ensures Mismatch(outs, outs', m)
  {
    ConflictMismatch(outs, outs', m, o, e, if o.dst in m then o.dst else n[e]);
  }

  lemma SentTo<K(!new)>(outs: seq<Out<K>>, outs': seq<Out<K>>, h: StateMap, o: Out<K>)
    requires DifferentLabels(outs') && o in outs && SameOuts(outs, outs', h)
    ensures o.dst in h && Find(outs', o.lbl) == Some(Moved(h, o))
  {
    FindOnly(outs', Moved(h, o));
  }

  // ---------------------------------------------------------------------
  // The isomorphism
  // ---------------------------------------------------------------------

  ghost predicate AllMatched<K(!new)>(a: Automaton<K>, b: Automaton<K>, m: StateMap) {
    forall s, t | Paired(m, s, t) :: Matched(a, b, m, s, t)
  }

  lemma {:induction false} AllReached<K(!new)>(a: Automaton<K>, b: Automaton<K>, m: StateMap, s: State,
                                               p: seq<Out<K>>, d: State)
    requires AllMatched(a, b, m) && IsPath(a, s, p, d) && (s == PRE || s in m)
    ensures d == PRE || d in m
    decreases |p|
  {
    if p != [] {
      var t := if s == PRE then PRE else m[s];
      assert Paired(m, s, t);
      assert Matched(a, b, m, s, t);
      AllReached(a, b, m, p[0].dst, p[1..], d);
    }
  }

  // As many transitions with different labels: all those of t are images.
  lemma MatchedAll<K(!new)>(outs: seq<Out<K>>, outs': seq<Out<K>>, m: StateMap, o': Out<K>)
    requires MatchedOuts(outs, outs', m) && |outs| == |outs'| && DifferentLabels(outs) && Single(outs') && o' in outs'
    ensures exists o :: o in outs && o.dst in m && Moved(m, o) == o'
  {
    var images := seq(|outs|, i requires 0 <= i < |outs| => assert outs[i] in outs; Moved(m, outs[i]));
    ElementsSize(images);
    ElementsSize(outs');
    forall x | x in images
      ensures x in outs'
    {
      var i :| 0 <= i < |images| && images[i] == x;
      assert outs[i] in outs;
    }
    SubsetSame(Elements(images), Elements(outs'));
    assert o' in Elements(images);
    var i :| 0 <= i < |images| && images[i] == o';
    assert outs[i] in outs;
  }

  lemma SubsetSame<T(!new)>(s: set<T>, t: set<T>)
    requires s <= t && |s| == |t|
    ensures s == t
  {
    assert |t - s| == |t| - |s|;
    assert t == s + (t - s);
  }

  function Complete(m: StateMap): StateMap {
    m[PRE := PRE][POST := POST]
  }

  lemma CompleteCovers<K(!new)>(w: Semiring<K>, a: Automaton<K>, b: Automaton<K>, m: StateMap, n: StateMap)
    requires Input(w, a) && Inverses(a, b, m, n) && AllMatched(a, b, m)
    ensures forall s :: s in Complete(m) <==> IsState(a, s)
  {
    forall s | s in a.states
      ensures s in Complete(m)
    {
      PathTo(w, a, s);
      var p: seq<Out<K>> :| IsPath(a, PRE, p, s);
      AllReached(a, b, m, PRE, p, s);
    }
  }

  // The images of m are matched the other way round.
  lemma MatchedBack<K(!new)>(w: Semiring<K>, a: Automaton<K>, b: Automaton<K>, m: StateMap, s: State, t: State,
                             o': Out<K>)
    requires Input(w, a) && Input(w, b) && IsState(a, s) && IsState(b, t) && Matched(a, b, m, s, t) && o' in b.out[t]
    ensures exists o :: o in a.out[s] && o.dst in m && Moved(m, o) == o'
  {
    InputOuts(w, a, s);
    InputOuts(w, b, t);
    MatchedAll(a.out[s], b.out[t], m, o');
  }

  lemma {:induction false} AllReachedBack<K(!new)>(w: Semiring<K>, a: Automaton<K>, b: Automaton<K>, m: StateMap,
                                                   n: StateMap, s: State, t: State, p: seq<Out<K>>, e: State)
    requires Input(w, a) && Input(w, b) && Inverses(a, b, m, n) && AllMatched(a, b, m)
    requires Paired(m, s, t) && IsPath(b, t, p, e)
    ensures e == PRE || e in n
    decreases |p|
  {
    if p != [] {
      assert Matched(a, b, m, s, t) && IsState(a, s) && IsState(b, t);
      MatchedBack(w, a, b, m, s, t, p[0]);
      var o :| o in a.out[s] && o.dst in m && Moved(m, o) == p[0];
      AllReachedBack(w, a, b, m, n, o.dst, m[o.dst], p[1..], e);
    }
  }

  lemma PathTo<K(!new)>(w: Semiring<K>, a: Automaton<K>, s: State)
    requires Input(w, a) && s in a.states
    ensures s > POST && Reaches(a, PRE, s)
  {
    assert Valid(w, a) && Accessible(a);
  }

  lemma CompleteOnto<K(!new)>(w: Semiring<K>, a: Automaton<K>, b: Automaton<K>, m: StateMap, n: StateMap, t: State)
    requires Input(w, a) && Input(w, b) && Inverses(a, b, m, n) && AllMatched(a, b, m) && IsState(b, t)
    ensures exists s :: s in Complete(m) && Complete(m)[s] == t
  {
    if t in b.states {
      PathTo(w, b, t);
      var p: seq<Out<K>> :| IsPath(b, PRE, p, t);
      AllReachedBack(w, a, b, m, n, PRE, PRE, p, t);
      assert n[t] != POST && Complete(m)[n[t]] == t;
    } else {
      assert Complete(m)[t] == t;
    }
  }

  lemma CompleteBijection<K(!new)>(w: Semiring<K>, a: Automaton<K>, b: Automaton<K>, m: StateMap, n: StateMap)
    requires Input(w, a) && Input(w, b) && Inverses(a, b, m, n) && AllMatched(a, b, m)
    ensures Bijection(a, b, Complete(m))
  {
    CompleteCovers(w, a, b, m, n);
    forall t | IsState(b, t)
      ensures exists s :: s in Complete(m) && Complete(m)[s] == t
    {
      CompleteOnto(w, a, b, m, n, t);
    }
  }

  lemma CompleteOuts<K(!new)>(w: Semiring<K>, a: Automaton<K>, b: Automaton<K>, m: StateMap, n: StateMap, s: State)
    requires Input(w, a) && Input(w, b) && Inverses(a, b, m, n) && AllMatched(a, b, m) && s in Complete(m)
    ensures IsState(a, s) && IsState(b, Complete(m)[s])
    ensures s in a.out && Complete(m)[s] in b.out && SameOuts(a.out[s], b.out[Complete(m)[s]], Complete(m))
  {
    var t := Complete(m)[s];
    InputOuts(w, a, s);
    InputOuts(w, b, t);
    if s == PRE || s in m {
      assert Paired(m, s, t) && Matched(a, b, m, s, t);
      forall o <- a.out[s]
        ensures o.dst in Complete(m) && Moved(Complete(m), o) in b.out[t]
      {
        assert Moved(Complete(m), o) == Moved(m, o);
      }
      forall o' <- b.out[t]
        ensures exists o :: o in a.out[s] && o.dst in Complete(m) && Moved(Complete(m), o) == o'
      {
        MatchedBack(w, a, b, m, s, t, o');
        var o :| o in a.out[s] && o.dst in m && Moved(m, o) == o';
        assert Moved(Complete(m), o) == o';
      }
    } else {
      assert Valid(w, a) && Valid(w, b);
    }
  }

  lemma CompleteIsomorphism<K(!new)>(w: Semiring<K>, a: Automaton<K>, b: Automaton<K>, m: StateMap, n: StateMap)
    requires Input(w, a) && Input(w, b) && Inverses(a, b, m, n) && AllMatched(a, b, m)
    ensures Isomorphism(a, b, Complete(m))
  {
    CompleteBijection(w, a, b, m, n);
    var h := Complete(m);
    forall s | s in h && s in a.out && h[s] in b.out
      ensures SameOuts(a.out[s], b.out[h[s]], h)
    {
      CompleteOuts(w, a, b, m, n, s);
    }
  }

  // ---------------------------------------------------------------------
  // The search
  // ---------------------------------------------------------------------

  type Pairs = seq<(State, State)>

  // All the pairs but those that remain were matched.
  ghost predicate MatchedBut<K(!new)>(a: Automaton<K>, b: Automaton<K>, m: StateMap, todo: Pairs) {
    forall s: State, t: State | Paired(m, s, t) && (s, t) !in todo :: Matched(a, b, m, s, t)
  }

  ghost predicate AllPaired(m: StateMap, todo: Pairs) {
    forall p <- todo :: Paired(m, p.0, p.1)
  }

  lemma MatchedMore<K(!new)>(a: Automaton<K>, b: Automaton<K>, m: StateMap, todo: Pairs, d: State, e: State)
    requires MatchedBut(a, b, m, todo) && d !in m && d != PRE
    ensures MatchedBut(a, b, m[d := e], todo + [(d, e)])
  {
    var m' := m[d := e];
    assert (todo + [(d, e)])[|todo|] == (d, e);
    assert forall p <- todo :: p in todo + [(d, e)];
    forall s: State, t: State | Paired(m', s, t) && (s, t) !in todo + [(d, e)]
      ensures Matched(a, b, m', s, t)
    {
      if s != d {
        assert Paired(m, s, t) && Matched(a, b, m, s, t);
        MatchedOutsMore(a.out[s], b.out[t], m, d, e);
      }
    }
  }

  lemma MatchedOutsMore<K>(outs: seq<Out<K>>, outs': seq<Out<K>>, m: StateMap, d: State, e: State)
    requires MatchedOuts(outs, outs', m) && d !in m
    ensures MatchedOuts(outs, outs', m[d := e])
  {
    forall o <- outs
      ensures o.dst in m[d := e] && Moved(m[d := e], o) in outs'
    {
      assert Moved(m[d := e], o) == Moved(m, o);
    }
  }

  lemma PairedMore(m: StateMap, todo: Pairs, d: State, e: State)
    requires AllPaired(m, todo) && d !in m
    ensures AllPaired(m[d := e], todo + [(d, e)])
  {
  }

  datatype Tag = NeverComputed | IsIsomorphic | Counterexample | NoCounterexample | Different

  // t has to be the image of s, yet their transitions do not correspond.
  ghost predicate Refuted<K(!new)>(a: Automaton<K>, b: Automaton<K>, m: StateMap, s: State, t: State) {
    Paired(m, s, t) && s in a.out && t in b.out && Mismatch(a.out[s], b.out[t], m)
  }

  // What the search maintains.
  ghost predicate Searching<K(!new)>(a: Automaton<K>, b: Automaton<K>, m: StateMap, n: StateMap, todo: Pairs) {
    Inverses(a, b, m, n) && Forced(a, b, m) && AllPaired(m, todo)
  }

  class SequentialSearch<K(==, !new)> {
    const w: Semiring<K>
    const a: Automaton<K>
    const b: Automaton<K>
    var s1tos2: StateMap
    var s2tos1: StateMap
    var counterexample: (State, State)
    var response: Tag

    constructor (w: Semiring<K>, a: Automaton<K>, b: Automaton<K>)
      ensures this.w == w && this.a == a && this.b == b && s1tos2 == map[] && s2tos1 == map[]
    {
      this.w, this.a, this.b := w, a, b;
      s1tos2, s2tos1, response, counterexample := map[], map[], NeverComputed, (PRE, PRE);
    }

    // Whether the transition o from s has an image from t, and corresponding
    // destinations.
    method Look(s: State, t: State, o: Out<K>, todo: Pairs) returns (ok: bool, todo': Pairs)
      requires Input(w, a) && Input(w, b) && Searching(a, b, s1tos2, s2tos1, todo)
      requires Paired(s1tos2, s, t) && s in a.out && t in b.out && o in a.out[s]
      modifies this`s1tos2, this`s2tos1
      ensures !ok ==> !Isomorphic(a, b) && s1tos2 == old(s1tos2) && Mismatch(a.out[s], b.out[t], s1tos2)
      ensures ok ==> Searching(a, b, s1tos2, s2tos1, todo') && o.dst in s1tos2 && Moved(s1tos2, o) in b.out[t]
      ensures ok ==> (s1tos2 == old(s1tos2) && todo' == todo)
                     || (o.dst !in old(s1tos2) && o.dst != PRE && IsState(a, o.dst)
                         && exists e :: s1tos2 == old(s1tos2)[o.dst := e] && todo' == todo + [(o.dst, e)])
    {
      todo' := todo;
      assert IsState(a, s) && IsState(b, t);
      InputOuts(w, b, t);
      var found := Find(b.out[t], o.lbl);
      if found.None? || found.value.weight != o.weight {
        LabelRefutes(w, a, b, s1tos2, s, t, o);
        LabelMismatch(a.out[s], b.out[t], s1tos2, o);
        return false, todo;
      }
      var d, e := o.dst, found.value.dst;
      DestinationForced(w, a, b, s1tos2, s, t, o);
      if d !in s1tos2 {
        if e !in s2tos1 {
          NewPair(w, a, b, s1tos2, s2tos1, s, t, o, found.value);
          PairedMore(s1tos2, todo, d, e);
          s1tos2 := s1tos2[d := e];
          s2tos1 := s2tos1[e := d];
          todo' := todo + [(d, e)];
        } else {
          DestinationRefutes(a, b, s1tos2, s2tos1, d, e);
          DestinationMismatch(a, b, a.out[s], b.out[t], s1tos2, s2tos1, o, e);
          return false, todo;
        }
      } else if s1tos2[d] != e {
        DestinationRefutes(a, b, s1tos2, s2tos1, d, e);
        DestinationMismatch(a, b, a.out[s], b.out[t], s1tos2, s2tos1, o, e);
        return false, todo;
      }
      assert Moved(s1tos2, o) == found.value;
      ok := true;
    }

    // Look at all the transitions from s.
    method Visit(s: State, t: State, todo0: Pairs) returns (ok: bool, todo: Pairs)
      requires Input(w, a) && Input(w, b) && Searching(a, b, s1tos2, s2tos1, todo0)
      requires Paired(s1tos2, s, t) && MatchedBut(a, b, s1tos2, [(s, t)] + todo0)
      modifies this`s1tos2, this`s2tos1
      ensures !ok ==> !Isomorphic(a, b) && Refuted(a, b, s1tos2, s, t)
      ensures ok ==> Searching(a, b, s1tos2, s2tos1, todo) && MatchedBut(a, b, s1tos2, todo)
      ensures ok ==> old(s1tos2.Keys) <= s1tos2.Keys && (old(s1tos2.Keys) == s1tos2.Keys ==> |todo| == |todo0|)
    {
      todo := todo0;
      assert IsState(a, s) && IsState(b, t);
      InputOuts(w, a, s);
      InputOuts(w, b, t);
      if |a.out[s]| != |b.out[t]| {
        SizesRefute(w, a, b, s1tos2, s, t);
        SizesMismatch(a.out[s], b.out[t], s1tos2);
        return false, todo;
      }
      ghost var m0 := s1tos2;
      for i := 0 to |a.out[s]|
        invariant Searching(a, b, s1tos2, s2tos1, todo) && Paired(s1tos2, s, t)
        invariant MatchedBut(a, b, s1tos2, [(s, t)] + todo) && MatchedOuts(a.out[s][..i], b.out[t], s1tos2)
        invariant m0.Keys <= s1tos2.Keys && (m0.Keys == s1tos2.Keys ==> |todo| == |todo0|)
      {
        ghost var before := todo;
        ghost var m := s1tos2;
        assert a.out[s][i] in a.out[s];
        ok, todo := Look(s, t, a.out[s][i], todo);
        if !ok {
          return;
        }
        LookedMore(a, b, s, t, i, m, s1tos2, before, todo);
      }
      assert a.out[s][..|a.out[s]|] == a.out[s];
      VisitedAll(a, b, s1tos2, s, t, todo);
      ok := true;
    }

    // Find the images of all the states, from that of pre.
    method Run()
      requires Input(w, a) && Input(w, b) && s1tos2 == map[] && s2tos1 == map[]
      modifies this
      ensures response == IsIsomorphic || response == Counterexample
      ensures response == IsIsomorphic <==> Isomorphic(a, b)
      ensures response == Counterexample ==> Refuted(a, b, s1tos2, counterexample.0, counterexample.1)
      ensures response == IsIsomorphic ==> Isomorphism(a, b, Complete(s1tos2)) && Inverses(a, b, s1tos2, s2tos1)
    {
      response := Counterexample;
      var todo := [(PRE, PRE)];
      ghost var all := {POST} + Elements(a.states);
      Started(a, b, todo);
      while todo != []
        invariant response == Counterexample
        invariant Searching(a, b, s1tos2, s2tos1, todo) && MatchedBut(a, b, s1tos2, todo)
        decreases all - s1tos2.Keys, |todo|
      {
        var p, rest := todo[|todo| - 1], todo[..|todo| - 1];
        Popped(a, b, s1tos2, todo);
        counterexample := p;
        ghost var m0 := s1tos2;
        assert AllPaired(s1tos2, rest);
        var ok;
        ok, todo := Visit(p.0, p.1, rest);
        if !ok {
          return;
        }
        Known(a, b, s1tos2, s2tos1, all);
        if m0.Keys != s1tos2.Keys {
          assert all - s1tos2.Keys < all - m0.Keys;
        }
      }
      NothingLeft(a, b, s1tos2);
      CompleteIsomorphism(w, a, b, s1tos2, s2tos1);
      response := IsIsomorphic;
    }
  }

  lemma Known<K>(a: Automaton<K>, b: Automaton<K>, m: StateMap, n: StateMap, all: set<State>)
    requires Inverses(a, b, m, n) && all == {POST} + Elements(a.states)
    ensures m.Keys <= all
  {
  }

  lemma Started<K(!new)>(a: Automaton<K>, b: Automaton<K>, todo: Pairs)
    requires todo == [(PRE, PRE)]
    ensures Searching(a, b, map[], map[], todo) && MatchedBut(a, b, map[], todo)
  {
    assert AllExtend(a, b, map[]);
    assert todo[0] == (PRE, PRE);
  }

  lemma NothingLeft<K(!new)>(a: Automaton<K>, b: Automaton<K>, m: StateMap)
    requires MatchedBut(a, b, m, [])
    ensures AllMatched(a, b, m)
  {
    forall s, t | Paired(m, s, t)
      ensures Matched(a, b, m, s, t)
    {
      assert (s, t) !in [];
    }
  }

  lemma Popped<K(!new)>(a: Automaton<K>, b: Automaton<K>, m: StateMap, todo: Pairs)
    requires MatchedBut(a, b, m, todo) && AllPaired(m, todo) && todo != []
    ensures var p, rest := todo[|todo| - 1], todo[..|todo| - 1];
            Paired(m, p.0, p.1) && MatchedBut(a, b, m, [p] + rest) && AllPaired(m, rest)
  {
    var p, rest := todo[|todo| - 1], todo[..|todo| - 1];
    assert p in todo && todo == rest + [p];
    assert forall q :: q in [p] + rest <==> q in todo;
  }

  lemma VisitedAll<K(!new)>(a: Automaton<K>, b: Automaton<K>, m: StateMap, s: State, t: State, todo: Pairs)
    requires s in a.out && t in b.out && |a.out[s]| == |b.out[t]| && MatchedOuts(a.out[s], b.out[t], m)
    requires MatchedBut(a, b, m, [(s, t)] + todo)
    ensures MatchedBut(a, b, m, todo)
  {
    forall x: State, y: State | Paired(m, x, y) && (x, y) !in todo
      ensures Matched(a, b, m, x, y)
    {
      if (x, y) != (s, t) {
        assert (x, y) !in [(s, t)] + todo;
      }
    }
  }

  lemma LookedMore<K(!new)>(a: Automaton<K>, b: Automaton<K>, s: State, t: State, i: nat, m: StateMap, m': StateMap,
                            todo: Pairs, todo': Pairs)
    requires s in a.out && t in b.out && i < |a.out[s]| && Paired(m, s, t)
    requires MatchedBut(a, b, m, [(s, t)] + todo) && MatchedOuts(a.out[s][..i], b.out[t], m)
    requires var o := a.out[s][i];
             o.dst in m' && Moved(m', o) in b.out[t]
             && ((m' == m && todo' == todo)
                 || (o.dst !in m && o.dst != PRE && exists e :: m' == m[o.dst := e] && todo' == todo + [(o.dst, e)]))
    ensures Paired(m', s, t) && MatchedBut(a, b, m', [(s, t)] + todo') && MatchedOuts(a.out[s][..i + 1], b.out[t], m')
    ensures m.Keys <= m'.Keys && (m.Keys == m'.Keys ==> todo' == todo)
  {
    var o := a.out[s][i];
    if m' != m {
      var e :| m' == m[o.dst := e] && todo' == todo + [(o.dst, e)];
      MatchedMore(a, b, m, [(s, t)] + todo, o.dst, e);
      assert [(s, t)] + todo + [(o.dst, e)] == [(s, t)] + todo';
      MatchedOutsMore(a.out[s][..i], b.out[t], m, o.dst, e);
      assert o.dst in m'.Keys && o.dst !in m.Keys;
    }
    assert a.out[s][..i + 1] == a.out[s][..i] + [o];
  }

  lemma NewPair<K(!new)>(w: Semiring<K>, a: Automaton<K>, b: Automaton<K>, m: StateMap, n: StateMap, s: State, t: State,
                         o: Out<K>, o': Out<K>)
    requires Input(w, a) && Input(w, b) && Inverses(a, b, m, n) && Forced(a, b, m) && Paired(m, s, t)
    requires s in a.out && t in b.out && o in a.out[s] && o' in b.out[t] && o'.lbl == o.lbl && o.dst !in m
               && o'.dst !in n
    requires Sends(a, b, o.dst, o'.dst)
    ensures Inverses(a, b, m[o.dst := o'.dst], n[o'.dst := o.dst]) && Forced(a, b, m[o.dst := o'.dst])
    ensures o.dst != PRE && IsState(a, o.dst)
  {
    assert IsState(a, s) && IsState(b, t);
    InputOuts(w, a, s);
    InputOuts(w, b, t);
    ForcedMore(a, b, m, o.dst, o'.dst);
  }

  lemma ForcedMore<K(!new)>(a: Automaton<K>, b: Automaton<K>, m: StateMap, d: State, e: State)
    requires Forced(a, b, m) && Sends(a, b, d, e)
    ensures Forced(a, b, m[d := e])
  {
    assert AllExtend(a, b, m);
    forall h: StateMap | Isomorphism(a, b, h)
      ensures Extends(h, m[d := e])
    {
      assert Extends(h, m);
    }
    assert AllExtend(a, b, m[d := e]);
  }
}
