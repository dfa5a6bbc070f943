// The right languages of the states of a deterministic automaton with Boolean
// weights: the trim automata whose states have different ones are minimal.
module RightLanguages {
  import opened Wrappers
  import opened Sets
  import opened AllDistances
  import opened BooleanRows
  import opened BooleanSemiring
  import opened PointedAutomata

  // ---------------------------------------------------------------------
  // Right languages
  // ---------------------------------------------------------------------

  function Suffix(u: seq<nat>): Word {
    seq(|u|, i requires 0 <= i < |u| => Letter(u[i])) + [Special]
  }

  // u is accepted from s.
  predicate Right(a: Boolaut, s: State, u: seq<nat>) {
    V(Booleans(), a, s, Suffix(u))
  }

  ghost predicate SameRight(a: Boolaut, s: State, t: State) {
    forall u: seq<nat> :: Right(a, s, u) <==> Right(a, t, u)
  }

  // At most an initial state, and one successor for each label.
  ghost predicate Deterministic(a: Boolaut) {
    forall s <- a.out :: forall i, j | 0 <= i < j < |a.out[s]| :: a.out[s][i].lbl != a.out[s][j].lbl
  }

  ghost predicate LabelsIn(a: Boolaut, gens: seq<nat>) {
    forall s <- a.out :: forall o <- a.out[s] :: o.lbl.Letter? ==> o.lbl.value in gens
  }

  // The destination of the transition labelled l.
  function Successor(outs: seq<Out<bool>>, l: Label): Option<State> {
    if outs == [] then None
    else
      var o := outs[|outs| - 1];
      if o.lbl == l then Some(o.dst) else Successor(outs[..|outs| - 1], l)
  }

  ghost predicate DifferentLabels(outs: seq<Out<bool>>) {
    forall i, j | 0 <= i < j < |outs| :: outs[i].lbl != outs[j].lbl
  }

  lemma {:induction false} OneSuccessor(outs: seq<Out<bool>>, l: Label)
    requires DifferentLabels(outs)
    ensures forall o <- outs :: o.lbl == l ==> Successor(outs, l) == Some(o.dst)
    ensures Successor(outs, l).Some? ==> exists o :: o in outs && o.lbl == l && o.dst == Successor(outs, l).value
    decreases |outs|
  {
    if outs != [] {
      var o, rest := outs[|outs| - 1], outs[..|outs| - 1];
      assert o in outs && forall x :: x in outs <==> x in rest || x == o;
      OneSuccessor(rest, l);
    }
  }

  // What is asked of the input; said of what equals a, so as to be looked into
  // only where needed.
  ghost predicate Input(a: Boolaut, gens: seq<nat>) {
    forall b | b == a :: Valid(Booleans(), b) && Deterministic(b) && Trim(b) && LabelsIn(b, gens)
  }

  lemma InputFacts(a: Boolaut, gens: seq<nat>)
    requires Input(a, gens)
    ensures Valid(Booleans(), a) && Deterministic(a) && Trim(a)
  {
    assert LabelsIn(a, gens);
  }

  // The transitions of an ordinary state.
  lemma OutFacts(a: Boolaut, gens: seq<nat>, s: State)
    requires Input(a, gens) && s in a.states
    ensures s in a.out && DifferentLabels(a.out[s])
    ensures forall o <- a.out[s] :: o.lbl == Special <==> o.dst == POST
    ensures forall o <- a.out[s] :: o.lbl.Letter? ==> o.lbl.value in gens
  {
    assert Valid(Booleans(), a) && Deterministic(a) && LabelsIn(a, gens);
    forall o <- a.out[s]
      ensures o.lbl == Special <==> o.dst == POST
    {
      assert ValidOut(Booleans(), a, s, o);
    }
  }

  // What follows the first label.
  lemma AfterLabel(a: Boolaut, s: State, l: Label, u: Word)
    requires Valid(Booleans(), a) && s in a.out
    ensures V(Booleans(), a, s, [l] + u) <==> LeadsTo(a.out[s], l, Values(Booleans(), a, u))
  {
    forall o <- a.out[s]
      ensures o.weight
    {
      assert ValidOut(Booleans(), a, s, o);
    }
    assert ([l] + u)[1..] == u;
    BooleanRow(a.out[s], l, Values(Booleans(), a, u));
  }

  lemma SuffixMore(l: nat, u: seq<nat>)
    ensures Suffix([l] + u) == [Letter(l)] + Suffix(u)
  {
  }

  // After a letter, the word is accepted from the successor.
  lemma RightMore(a: Boolaut, s: State, l: nat, u: seq<nat>)
    requires Valid(Booleans(), a) && Deterministic(a) && s in a.out
    ensures Right(a, s, [l] + u)
            <==> Successor(a.out[s], Letter(l)).Some? && Right(a, Successor(a.out[s], Letter(l)).value, u)
  {
    SuffixMore(l, u);
    AfterLabel(a, s, Letter(l), Suffix(u));
    assert DifferentLabels(a.out[s]);
    OneSuccessor(a.out[s], Letter(l));
    var g := Values(Booleans(), a, Suffix(u));
    if Successor(a.out[s], Letter(l)).Some? {
      var o :| o in a.out[s] && o.lbl == Letter(l) && o.dst == Successor(a.out[s], Letter(l)).value;
      assert g(o.dst) == Right(a, o.dst, u);
    }
  }

  predicate IsFinal(a: Boolaut, s: State) {
    s in a.out && exists o <- a.out[s] :: o.dst == POST
  }

  lemma FinalRight(a: Boolaut, s: State)
    requires Valid(Booleans(), a) && s in a.states
    ensures Right(a, s, []) <==> IsFinal(a, s)
  {
    assert Suffix([]) == [Special] + [];
    AfterLabel(a, s, Special, []);
    forall o <- a.out[s]
      ensures o.lbl == Special <==> o.dst == POST
    {
      assert ValidOut(Booleans(), a, s, o);
    }
    if IsFinal(a, s) {
      var o :| o in a.out[s] && o.dst == POST;
      assert Values(Booleans(), a, [])(o.dst);
    }
  }

  // From a state that leads to post, some word is accepted.
  lemma {:induction false} SomeRight(a: Boolaut, s: State, p: seq<Out<bool>>) returns (u: seq<nat>)
    requires Valid(Booleans(), a) && Deterministic(a) && s in a.states && IsPath(a, s, p, POST)
    ensures Right(a, s, u)
    decreases |p|
  {
    var o := p[0];
    assert ValidOut(Booleans(), a, s, o);
    if o.dst == POST {
      FinalRight(a, s);
      u := [];
    } else {
      var v := SomeRight(a, o.dst, p[1..]);
      assert DifferentLabels(a.out[s]);
      OneSuccessor(a.out[s], o.lbl);
      u := [o.lbl.value] + v;
      RightMore(a, s, o.lbl.value, v);
    }
  }

  lemma SuccessorOrdinary(a: Boolaut, s: State, l: nat)
    requires Valid(Booleans(), a) && Deterministic(a) && s in a.out && Successor(a.out[s], Letter(l)).Some?
    ensures Successor(a.out[s], Letter(l)).value in a.states
  {
    assert DifferentLabels(a.out[s]);
    OneSuccessor(a.out[s], Letter(l));
    var o :| o in a.out[s] && o.lbl == Letter(l) && o.dst == Successor(a.out[s], Letter(l)).value;
    assert ValidOut(Booleans(), a, s, o);
  }

  lemma AcceptsSome(a: Boolaut, s: State) returns (u: seq<nat>)
    requires Valid(Booleans(), a) && Deterministic(a) && Trim(a) && s in a.states
    ensures Right(a, s, u)
  {
    assert Reaches(a, s, POST);
    var p: seq<Out<bool>> :| IsPath(a, s, p, POST);
    u := SomeRight(a, s, p);
  }

  lemma SameRightAt(a: Boolaut, s: State, t: State, u: seq<nat>)
    requires SameRight(a, s, t)
    ensures Right(a, s, u) <==> Right(a, t, u)
  {
  }

  lemma HasSuccessor(a: Boolaut, s: State, t: State, l: nat)
    requires Valid(Booleans(), a) && Deterministic(a) && Trim(a) && s in a.states && t in a.states && SameRight(a, s, t)
    requires Successor(a.out[s], Letter(l)).Some?
    ensures Successor(a.out[t], Letter(l)).Some?
  {
    SuccessorOrdinary(a, s, l);
    var u := AcceptsSome(a, Successor(a.out[s], Letter(l)).value);
    RightMore(a, s, l, u);
    RightMore(a, t, l, u);
    SameRightAt(a, s, t, [l] + u);
  }

  // States with the same right language have successors for the same letters.
  lemma SameSuccessor(a: Boolaut, s: State, t: State, l: nat)
    requires Valid(Booleans(), a) && Deterministic(a) && Trim(a) && s in a.states && t in a.states && SameRight(a, s, t)
    requires Successor(a.out[s], Letter(l)).Some?
    ensures Successor(a.out[t], Letter(l)).Some?
    ensures SameRight(a, Successor(a.out[s], Letter(l)).value, Successor(a.out[t], Letter(l)).value)
  {
    HasSuccessor(a, s, t, l);
    forall v: seq<nat>
      ensures Right(a, Successor(a.out[s], Letter(l)).value, v) <==> Right(a, Successor(a.out[t], Letter(l)).value, v)
    {
      RightMore(a, s, l, v);
      RightMore(a, t, l, v);
      SameRightAt(a, s, t, [l] + v);
    }
  }

  // u is accepted from q in b when it is accepted from s in a.
  ghost predicate SameRightOf(b: Boolaut, q: State, a: Boolaut, s: State) {
    forall u: seq<nat> :: Right(b, q, u) <==> Right(a, s, u)
  }

  // No two states have the same right language.
  ghost predicate Distinguishable(a: Boolaut) {
    forall q, q' | q in a.states && q' in a.states && SameRight(a, q, q') :: q == q'
  }

  // ---------------------------------------------------------------------
  // Reading words
  // ---------------------------------------------------------------------

  // The state reached from s, if any.
  function Read(a: Boolaut, s: State, u: Word): Option<State>
    decreases |u|
  {
    if u == [] then Some(s)
    else if s !in a.out then None
    else
      var d := Successor(a.out[s], u[0]);
      if d.None? then None else Read(a, d.value, u[1..])
  }

  lemma OneStep(a: Boolaut, s: State, l: Label, v: Word)
    requires Valid(Booleans(), a) && Deterministic(a) && s in a.out
    ensures V(Booleans(), a, s, [l] + v)
            <==> Successor(a.out[s], l).Some? && V(Booleans(), a, Successor(a.out[s], l).value, v)
  {
    AfterLabel(a, s, l, v);
    assert DifferentLabels(a.out[s]);
    OneSuccessor(a.out[s], l);
    var g := Values(Booleans(), a, v);
    if Successor(a.out[s], l).Some? {
      var o :| o in a.out[s] && o.lbl == l && o.dst == Successor(a.out[s], l).value;
      assert g(o.dst) == V(Booleans(), a, o.dst, v);
    }
  }

  // What is accepted after u is accepted from the state that u reaches.
  lemma {:induction false} ReadValue(a: Boolaut, s: State, u: Word, v: Word)
    requires Valid(Booleans(), a) && Deterministic(a)
    ensures V(Booleans(), a, s, u + v)
            <==> Read(a, s, u).Some? && V(Booleans(), a, Read(a, s, u).value, v)
    decreases |u|
  {
    if u == [] {
      assert u + v == v;
    } else if s in a.out {
      assert u + v == [u[0]] + (u[1..] + v);
      OneStep(a, s, u[0], u[1..] + v);
      if Successor(a.out[s], u[0]).Some? {
        ReadValue(a, Successor(a.out[s], u[0]).value, u[1..], v);
      }
    }
  }

  lemma SuccessorOut(a: Boolaut, s: State, l: Label) returns (o: Out<bool>)
    requires Deterministic(a) && s in a.out && Successor(a.out[s], l).Some?
    ensures o in a.out[s] && o.lbl == l && o.dst == Successor(a.out[s], l).value
  {
    assert DifferentLabels(a.out[s]);
    OneSuccessor(a.out[s], l);
    o :| o in a.out[s] && o.lbl == l && o.dst == Successor(a.out[s], l).value;
  }

  lemma {:induction false} ReadReaches(a: Boolaut, s: State, u: Word)
    requires Deterministic(a) && Read(a, s, u).Some?
    ensures Reaches(a, s, Read(a, s, u).value)
    decreases |u|
  {
    if u == [] {
      assert IsPath(a, s, [], s);
    } else {
      var o := SuccessorOut(a, s, u[0]);
      ReadReaches(a, o.dst, u[1..]);
      var d := Read(a, s, u).value;
      var p: seq<Out<bool>> :| IsPath(a, o.dst, p, d);
      assert ([o] + p)[1..] == p;
      assert IsPath(a, s, [o] + p, d);
    }
  }

  function Letters(u: seq<nat>): (w: Word)
    ensures |w| == |u| && forall i | 0 <= i < |u| :: w[i] == Letter(u[i])
  {
    seq(|u|, i requires 0 <= i < |u| => Letter(u[i]))
  }

  // What is read from pre before the letters that follow u.
  function Prefix(u: seq<nat>): Word {
    [Special] + Letters(u)
  }

  lemma PrefixSuffix(u: seq<nat>, v: seq<nat>)
    ensures Delimit(u + v) == Prefix(u) + Suffix(v)
  {
  }

  // From an ordinary state, letters lead to ordinary states.
  lemma {:induction false} LettersOrdinary(a: Boolaut, s: State, u: seq<nat>)
    requires Valid(Booleans(), a) && Deterministic(a) && s in a.states && Read(a, s, Letters(u)).Some?
    ensures Read(a, s, Letters(u)).value in a.states
    decreases |u|
  {
    if u != [] {
      assert Letters(u)[1..] == Letters(u[1..]);
      SuccessorOrdinary(a, s, u[0]);
      LettersOrdinary(a, Successor(a.out[s], Letter(u[0])).value, u[1..]);
    }
  }

  lemma PrefixOrdinary(a: Boolaut, u: seq<nat>)
    requires Valid(Booleans(), a) && Deterministic(a) && Read(a, PRE, Prefix(u)).Some?
    ensures Read(a, PRE, Prefix(u)).value in a.states
  {
    var o := SuccessorOut(a, PRE, Special);
    assert ValidOut(Booleans(), a, PRE, o);
    assert Prefix(u)[1..] == Letters(u);
    LettersOrdinary(a, o.dst, u);
  }

  // A path between ordinary states reads letters.
  lemma {:induction false} PathLetters(a: Boolaut, s: State, p: seq<Out<bool>>, q: State) returns (u: seq<nat>)
    requires Valid(Booleans(), a) && Deterministic(a) && s in a.states && q in a.states && IsPath(a, s, p, q)
    ensures Read(a, s, Letters(u)) == Some(q)
    decreases |p|
  {
    if p == [] {
      u := [];
    } else {
      var o := p[0];
      assert ValidOut(Booleans(), a, s, o);
      assert o.dst != POST by {
        PostEnds(a, p[1..], q);
      }
      var v := PathLetters(a, o.dst, p[1..], q);
      assert DifferentLabels(a.out[s]);
      OneSuccessor(a.out[s], o.lbl);
      u := [o.lbl.value] + v;
      assert Letters(u)[0] == o.lbl && Letters(u)[1..] == Letters(v);
    }
  }

  lemma PostEnds(a: Boolaut, p: seq<Out<bool>>, q: State)
    requires Valid(Booleans(), a) && q in a.states
    ensures !IsPath(a, POST, p, q)
  {
    assert p == [] || p[0] !in a.out[POST];
  }

  // A path from pre starts with the special label.
  lemma FirstLabel(a: Boolaut, p: seq<Out<bool>>, q: State)
    requires Valid(Booleans(), a) && Deterministic(a) && q in a.states && IsPath(a, PRE, p, q)
    ensures p != [] && p[0].dst in a.states && IsPath(a, p[0].dst, p[1..], q)
    ensures PRE in a.out && Successor(a.out[PRE], Special) == Some(p[0].dst)
  {
    var o := p[0];
    assert ValidOut(Booleans(), a, PRE, o);
    assert DifferentLabels(a.out[PRE]);
    OneSuccessor(a.out[PRE], o.lbl);
  }

  lemma PathFromPre(a: Boolaut, p: seq<Out<bool>>, q: State) returns (u: seq<nat>)
    requires Valid(Booleans(), a) && Deterministic(a) && q in a.states && IsPath(a, PRE, p, q)
    ensures Read(a, PRE, Prefix(u)) == Some(q)
  {
    FirstLabel(a, p, q);
    u := PathLetters(a, p[0].dst, p[1..], q);
    assert Prefix(u)[1..] == Letters(u);
  }

  // Each state of a trim automaton is reached by a word.
  lemma ReachedByWord(a: Boolaut, q: State) returns (u: seq<nat>)
    requires Valid(Booleans(), a) && Deterministic(a) && Trim(a) && q in a.states
    ensures Read(a, PRE, Prefix(u)) == Some(q)
  {
    assert Reaches(a, PRE, q);
    var p: seq<Out<bool>> :| IsPath(a, PRE, p, q);
    u := PathFromPre(a, p, q);
  }

  // ---------------------------------------------------------------------
  // Minimality
  // ---------------------------------------------------------------------

  ghost predicate SameSeries(a: Boolaut, b: Boolaut) {
    forall u: seq<nat> :: Series(Booleans(), a, u) <==> Series(Booleans(), b, u)
  }

  // After u, both automata accept the same words.
  lemma SameAfter(a: Boolaut, b: Boolaut, u: seq<nat>, v: seq<nat>)
    requires Valid(Booleans(), a) && Deterministic(a) && Valid(Booleans(), b) && Deterministic(b) && SameSeries(a, b)
    requires Read(a, PRE, Prefix(u)).Some?
    ensures Right(a, Read(a, PRE, Prefix(u)).value, v)
            <==> Read(b, PRE, Prefix(u)).Some? && Right(b, Read(b, PRE, Prefix(u)).value, v)
  {
    PrefixSuffix(u, v);
    assert Series(Booleans(), a, u + v) <==> Series(Booleans(), b, u + v);
    ReadValue(a, PRE, Prefix(u), Suffix(v));
    ReadValue(b, PRE, Prefix(u), Suffix(v));
  }

  // A state of b with the right language of q.
  lemma Match(a: Boolaut, b: Boolaut, q: State) returns (t: State)
    requires Valid(Booleans(), a) && Deterministic(a) && Trim(a) && q in a.states
    requires Valid(Booleans(), b) && Deterministic(b) && SameSeries(a, b)
    ensures t in b.states && SameRightOf(b, t, a, q)
  {
    var u := ReachedByWord(a, q);
    var v := AcceptsSome(a, q);
    SameAfter(a, b, u, v);
    PrefixOrdinary(b, u);
    t := Read(b, PRE, Prefix(u)).value;
    forall w: seq<nat>
      ensures Right(b, t, w) <==> Right(a, q, w)
    {
      SameAfter(a, b, u, w);
    }
  }

  lemma MatchesOne(a: Boolaut, b: Boolaut, q: State, q': State, t: State)
    requires Distinguishable(a) && q in a.states && q' in a.states
    requires SameRightOf(b, t, a, q) && SameRightOf(b, t, a, q')
    ensures q == q'
  {
    forall u: seq<nat>
      ensures Right(a, q, u) <==> Right(a, q', u)
    {
      assert (Right(b, t, u) <==> Right(a, q, u)) && (Right(b, t, u) <==> Right(a, q', u));
    }
    assert SameRight(a, q, q');
  }

  // Said of what equals a and b, so as to be looked into only where needed.
  ghost predicate Comparable(a: Boolaut, b: Boolaut) {
    forall x, y | x == a && y == b :: SameSeries(x, y) && Separates(x) && Valid(Booleans(), y) && Deterministic(y)
  }

  // a is deterministic and trim, and its states have different right languages.
  ghost predicate Separates(a: Boolaut) {
    Valid(Booleans(), a) && Deterministic(a) && Trim(a) && Distinguishable(a)
  }

  lemma MatchIn(a: Boolaut, b: Boolaut, q: State) returns (t: State)
    requires Comparable(a, b) && q in a.states
    ensures t in b.states && SameRightOf(b, t, a, q)
  {
    assert SameSeries(a, b);
    t := Match(a, b, q);
  }

  lemma MatchesDiffer(a: Boolaut, b: Boolaut, q: State, q': State, t: State, t': State)
    requires Comparable(a, b) && q in a.states && q' in a.states && q != q'
    requires SameRightOf(b, t, a, q) && SameRightOf(b, t', a, q')
    ensures t != t'
  {
    assert SameSeries(a, b);
    if t == t' {
      MatchesOne(a, b, q, q', t);
    }
  }

  // As many states of b as there are in qs.
  lemma {:induction false} Injection(a: Boolaut, b: Boolaut, qs: seq<State>) returns (ts: seq<State>)
    requires Comparable(a, b) && Distinct(qs) && forall q <- qs :: q in a.states
    ensures Distinct(ts) && |ts| == |qs|
    ensures forall i | 0 <= i < |qs| :: ts[i] in b.states && SameRightOf(b, ts[i], a, qs[i])
    decreases |qs|
  {
    if qs == [] {
      ts := [];
    } else {
      var last := |qs| - 1;
      var rest := Injection(a, b, qs[..last]);
      var t := MatchIn(a, b, qs[last]);
      forall i | 0 <= i < last
        ensures rest[i] != t
      {
        assert qs[..last][i] == qs[i];
        MatchesDiffer(a, b, qs[i], qs[last], rest[i], t);
      }
      ts := rest + [t];
    }
  }

  // A trim automaton whose states have different right languages is not larger
  // than a deterministic one with the same series.
  lemma NoneSmaller(a: Boolaut, b: Boolaut)
    requires Separates(a) && Valid(Booleans(), b) && Deterministic(b) && SameSeries(a, b)
    ensures |a.states| <= |b.states|
  {
    assert Distinct(a.states) && Distinct(b.states);
    var ts := Injection(a, b, a.states);
    ElementsSize(ts);
    ElementsSize(b.states);
    forall t | t in ts
      ensures t in b.states
    {
      var i :| 0 <= i < |ts| && ts[i] == t;
    }
    SubsetSize(Elements(ts), Elements(b.states));
  }

  // ---------------------------------------------------------------------
  // Trim automata
  // ---------------------------------------------------------------------

  // A state from which a word is accepted leads to post.
  lemma AcceptsReaches(a: Boolaut, q: State, v: seq<nat>)
    requires Valid(Booleans(), a) && Deterministic(a) && Right(a, q, v)
    ensures Reaches(a, q, POST)
  {
    assert Suffix(v) + [] == Suffix(v);
    ReadValue(a, q, Suffix(v), []);
    ReadReaches(a, q, Suffix(v));
  }

  // When the states of b have the right languages of states of a trim
  // automaton, and different ones, b is trim.
  lemma MatchedReached(a: Boolaut, b: Boolaut, q: State, s: State)
    requires Valid(Booleans(), a) && Deterministic(a) && Trim(a) && s in a.states
    requires Valid(Booleans(), b) && Deterministic(b) && Distinguishable(b) && q in b.states
    requires SameSeries(a, b) && SameRightOf(b, q, a, s)
    ensures Reaches(b, PRE, q) && Reaches(b, q, POST)
  {
    var u := ReachedByWord(a, s);
    var v := AcceptsSome(a, s);
    assert Right(b, q, v) <==> Right(a, s, v);
    AcceptsReaches(b, q, v);
    SameAfter(a, b, u, v);
    PrefixOrdinary(b, u);
    var t := Read(b, PRE, Prefix(u)).value;
    forall w: seq<nat>
      ensures Right(b, t, w) <==> Right(b, q, w)
    {
      SameAfter(a, b, u, w);
      assert Right(b, q, w) <==> Right(a, s, w);
    }
    assert SameRight(b, t, q);
    ReadReaches(b, PRE, Prefix(u));
  }
}
