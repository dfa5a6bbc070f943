// Whether a two-tape automaton only relates words to themselves
// (vcsn/algos/is-partial-identity.hh, vcsn/labelset/tupleset.hh).
module PartialIdentity {
  import opened Sets

  type State = nat
  type Letter = nat
  type Word = seq<Letter>

  // A word for each tape.
  datatype Pair = Pair(first: Word, second: Word)

  datatype Transition = Transition(src: State, lbl: Pair, dst: State)

  // pre and post are among the states; the transitions from pre and to post
  // carry the special letter on both tapes.
  datatype Transducer = Transducer(states: set<State>, pre: State, post: State, transitions: set<Transition>) {
    ghost predicate Valid() {
      && pre in states && post in states && pre != post
      && forall t <- transitions :: t.src in states && t.dst in states && t.src != post
    }
  }

  // ---------------------------------------------------------------------
  // Words and residues
  // ---------------------------------------------------------------------

  // The longest common prefix.
  function Lgcd(x: Word, y: Word): (r: Word)
    ensures r <= x && r <= y
  {
    if x != [] && y != [] && x[0] == y[0] then [x[0]] + Lgcd(x[1..], y[1..]) else []
  }

  function Mul(r: Pair, l: Pair): Pair {
    Pair(r.first + l.first, r.second + l.second)
  }

  const ONE := Pair([], [])

  // Both words, without their longest common prefix.
  function Normalize(r: Pair): Pair {
    var n := |Lgcd(r.first, r.second)|;
    Pair(r.first[n..], r.second[n..])
  }

  predicate Normal(r: Pair) {
    r.first == [] || r.second == [] || r.first[0] != r.second[0]
  }

  lemma NormalizeFirst(r: Pair)
    requires r.first != [] && r.second != [] && r.first[0] == r.second[0]
    ensures Normalize(r) == Normalize(Pair(r.first[1..], r.second[1..]))
  {
    var n := |Lgcd(r.first[1..], r.second[1..])|;
    assert |Lgcd(r.first, r.second)| == n + 1;
    assert r.first[n + 1..] == r.first[1..][n..];
    assert r.second[n + 1..] == r.second[1..][n..];
  }

  lemma {:induction false} NormalizeNormal(r: Pair)
    ensures Normal(Normalize(r))
    ensures Normalize(r) == ONE <==> r.first == r.second
    decreases |r.first|
  {
    if r.first != [] && r.second != [] && r.first[0] == r.second[0] {
      NormalizeFirst(r);
      NormalizeNormal(Pair(r.first[1..], r.second[1..]));
      assert r.first == [r.first[0]] + r.first[1..];
      assert r.second == [r.second[0]] + r.second[1..];
    }
  }

  lemma MulFirst(r: Pair, l: Pair)
    requires r.first != [] && r.second != [] && r.first[0] == r.second[0]
    ensures Normalize(Mul(r, l)) == Normalize(Mul(Pair(r.first[1..], r.second[1..]), l))
  {
    var m, tail := Mul(r, l), Mul(Pair(r.first[1..], r.second[1..]), l);
    assert m.first[1..] == tail.first && m.second[1..] == tail.second;
    assert m.first[0] == r.first[0] && m.second[0] == r.second[0];
    NormalizeFirst(m);
  }

  lemma NormalizeKeeps(r: Pair)
    requires Normal(r)
    ensures Normalize(r) == r
  {
    assert Lgcd(r.first, r.second) == [];
  }

  // It does not matter when the common prefixes are eliminated.
  lemma {:induction false} NormalizeMul(r: Pair, l: Pair)
    ensures Normalize(Mul(Normalize(r), l)) == Normalize(Mul(r, l))
    decreases |r.first|
  {
    if Normal(r) {
      NormalizeKeeps(r);
    } else {
      NormalizeFirst(r);
      NormalizeMul(Pair(r.first[1..], r.second[1..]), l);
      MulFirst(r, l);
    }
  }

  lemma MulAssociative(r: Pair, l: Pair, m: Pair)
    ensures Mul(Mul(r, l), m) == Mul(r, Mul(l, m))
    ensures Mul(ONE, r) == r && Mul(r, ONE) == r
  {
    assert r.first + l.first + m.first == r.first + (l.first + m.first);
    assert r.second + l.second + m.second == r.second + (l.second + m.second);
  }

  lemma SameLonger(x: Word, y: Word, u: Word)
    requires x + u == y + u
    ensures x == y
  {
    assert |x| == |y|;
    assert (x + u)[..|x|] == x;
    assert (y + u)[..|x|] == y;
  }

  // Two residues that the same pair completes are the same.
  lemma OneResidue(r: Pair, q: Pair, l: Pair)
    requires Normal(r) && Normal(q)
    requires Mul(r, l).first == Mul(r, l).second
    requires Mul(q, l).first == Mul(q, l).second
    ensures r == q
  {
    HalfEmpty(r, l);
    HalfEmpty(q, l);
    if r.first == [] && q.first == [] {
      assert r.second + l.second == l.first == q.second + l.second;
      SameLonger(r.second, q.second, l.second);
    } else if r.second == [] && q.second == [] {
      assert r.first + l.first == l.second == q.first + l.first;
      SameLonger(r.first, q.first, l.first);
    }
  }

  lemma DifferentFirst(r: Pair, l: Pair)
    requires Normal(r) && r.first != [] && r.second != []
    ensures Mul(r, l).first != Mul(r, l).second
  {
    assert Mul(r, l).first[0] == r.first[0];
    assert Mul(r, l).second[0] == r.second[0];
  }

  lemma HalfEmpty(r: Pair, l: Pair)
    requires Normal(r)
    ensures Mul(r, l).first == Mul(r, l).second ==> r.first == [] || r.second == []
  {
    if r.first != [] && r.second != [] {
      DifferentFirst(r, l);
    }
  }

  // ---------------------------------------------------------------------
  // Paths
  // ---------------------------------------------------------------------

  type Path = seq<Transition>

  predicate IsPath(a: Transducer, s: State, p: Path, d: State)
    decreases |p|
  {
    if p == [] then s == d else p[0] in a.transitions && p[0].src == s && IsPath(a, p[0].dst, p[1..], d)
  }

  function Label(p: Path): Pair {
    if p == [] then ONE else Mul(p[0].lbl, Label(p[1..]))
  }

  lemma {:induction false} Concat(a: Transducer, s: State, p: Path, m: State, q: Path, d: State)
    requires IsPath(a, s, p, m) && IsPath(a, m, q, d)
    ensures IsPath(a, s, p + q, d) && Label(p + q) == Mul(Label(p), Label(q))
    decreases |p|
  {
    if p == [] {
      assert p + q == q;
      MulAssociative(Label(q), ONE, ONE);
    } else {
      Concat(a, p[0].dst, p[1..], m, q, d);
      assert (p + q)[1..] == p[1..] + q;
      MulAssociative(p[0].lbl, Label(p[1..]), Label(q));
    }
  }

  lemma OneStep(a: Transducer, t: Transition)
    requires t in a.transitions
    ensures IsPath(a, t.src, [t], t.dst) && Label([t]) == t.lbl
  {
    assert [t][1..] == [];
    MulAssociative(t.lbl, ONE, ONE);
  }

  ghost predicate Coaccessible(a: Transducer, s: State) {
    exists p: Path :: IsPath(a, s, p, a.post)
  }

  // All the successful paths carry the same word on both tapes.
  ghost predicate OnlyIdentities(a: Transducer) {
    forall p: Path | IsPath(a, a.pre, p, a.post) :: Label(p).first == Label(p).second
  }

  // ---------------------------------------------------------------------
  // The coaccessible states
  // ---------------------------------------------------------------------

  ghost predicate Backwards(a: Transducer, res: set<State>, todo: set<State>) {
    forall t <- a.transitions :: t.dst in res && t.dst !in todo ==> t.src in res
  }

  lemma {:induction false} BackwardsAll(a: Transducer, res: set<State>, s: State, p: Path)
    requires Backwards(a, res, {}) && a.post in res && IsPath(a, s, p, a.post)
    ensures s in res
    decreases |p|
  {
    if p != [] {
      BackwardsAll(a, res, p[0].dst, p[1..]);
    }
  }

  lemma CoaccessibleBefore(a: Transducer, t: Transition)
    requires t in a.transitions && Coaccessible(a, t.dst)
    ensures Coaccessible(a, t.src)
  {
    var p: Path :| IsPath(a, t.dst, p, a.post);
    OneStep(a, t);
    Concat(a, t.src, [t], t.dst, p, a.post);
  }

  method CoaccessibleStates(a: Transducer) returns (res: set<State>)
    requires a.Valid()
    ensures forall s :: s in res <==> Coaccessible(a, s)
  {
    res := {a.post};
    var todo := {a.post};
    assert IsPath(a, a.post, [], a.post);
    while todo != {}
      invariant todo <= res <= a.states && a.post in res
      invariant forall s <- res :: Coaccessible(a, s)
      invariant Backwards(a, res, todo)
      decreases a.states - res, todo
    {
      var dst :| dst in todo;
      var srcs := set t <- a.transitions | t.dst == dst && t.src !in res :: t.src;
      forall s <- srcs
        ensures Coaccessible(a, s)
      {
        var t :| t in a.transitions && t.dst == dst && t.src == s;
        CoaccessibleBefore(a, t);
      }
      if srcs != {} {
        var s :| s in srcs;
        assert s in a.states - res && s !in a.states - (res + srcs);
      }
      res, todo := res + srcs, todo - {dst} + srcs;
    }
    forall s | Coaccessible(a, s)
      ensures s in res
    {
      var p: Path :| IsPath(a, s, p, a.post);
      BackwardsAll(a, res, s, p);
    }
  }

  // ---------------------------------------------------------------------
  // The residues
  // ---------------------------------------------------------------------

  type Residues = map<State, Pair>

  // A path from pre leaves this residue.
  ghost predicate Leaves(a: Transducer, s: State, r: Pair) {
    exists p: Path :: IsPath(a, a.pre, p, s) && Normalize(Label(p)) == r
  }

  // The residues are those of paths; post is only given the empty one.
  ghost predicate Grounded(a: Transducer, rs: Residues) {
    && a.pre in rs && rs[a.pre] == ONE && a.post in rs && rs[a.post] == ONE
    && (forall s <- rs :: s in a.states)
    && (forall s <- rs | s != a.post :: Leaves(a, s, rs[s]))
  }

  // The residue that t leads to.
  function After(rs: Residues, t: Transition): Pair
    requires t.src in rs
  {
    Normalize(Mul(rs[t.src], t.lbl))
  }

  // t was looked at: its destination is useless, or has its residue.
  ghost predicate Checked(a: Transducer, rs: Residues, t: Transition) {
    t.src in rs && (Coaccessible(a, t.dst) ==> t.dst in rs && rs[t.dst] == After(rs, t))
  }

  // The transitions from the states that are not to do were looked at.
  ghost predicate Explored(a: Transducer, rs: Residues, todo: seq<State>) {
    forall t <- a.transitions :: t.src in rs && t.src !in todo ==> Checked(a, rs, t)
  }

  lemma LeavesAfter(a: Transducer, rs: Residues, t: Transition)
    requires t in a.transitions && t.src in rs && Leaves(a, t.src, rs[t.src])
    ensures Leaves(a, t.dst, After(rs, t))
  {
    var p: Path :| IsPath(a, a.pre, p, t.src) && Normalize(Label(p)) == rs[t.src];
    OneStep(a, t);
    Concat(a, a.pre, p, t.src, [t], t.dst);
    NormalizeMul(Label(p), t.lbl);
  }

  // The residue of any path to a coaccessible state is the one of the state.
  lemma {:induction false} PathResidue(a: Transducer, rs: Residues, p: Path, s: State, q: Path)
    requires a.Valid() && Grounded(a, rs) && Explored(a, rs, [])
    requires IsPath(a, a.pre, p, s) && s in rs && rs[s] == Normalize(Label(p)) && IsPath(a, s, q, a.post)
    ensures Normalize(Mul(Label(p), Label(q))) == ONE
    decreases |q|
  {
    if q == [] {
      MulAssociative(Label(p), ONE, ONE);
    } else {
      var t := q[0];
      assert Checked(a, rs, t);
      OneStep(a, t);
      Concat(a, a.pre, p, s, [t], t.dst);
      NormalizeMul(Label(p), t.lbl);
      MulAssociative(Label(p), t.lbl, Label(q[1..]));
      PathResidue(a, rs, p + [t], t.dst, q[1..]);
    }
  }

  lemma ExploredIdentities(a: Transducer, rs: Residues)
    requires a.Valid() && Grounded(a, rs) && Explored(a, rs, [])
    ensures OnlyIdentities(a)
  {
    forall p: Path | IsPath(a, a.pre, p, a.post)
      ensures Label(p).first == Label(p).second
    {
      PathResidue(a, rs, [], a.pre, p);
      MulAssociative(Label(p), ONE, ONE);
      NormalizeNormal(Label(p));
    }
  }

  // With another residue, some successful path is not an identity.
  lemma ConflictRefutes(a: Transducer, s: State, r: Pair, q: Pair)
    requires Leaves(a, s, r) && Coaccessible(a, s) && r != q
    requires if s == a.post then q == ONE else Leaves(a, s, q)
    ensures !OnlyIdentities(a)
  {
    var end: Path :| IsPath(a, s, end, a.post);
    var p: Path :| IsPath(a, a.pre, p, s) && Normalize(Label(p)) == r;
    if OnlyIdentities(a) {
      if s == a.post {
        NormalizeNormal(Label(p));
        assert false;
      }
      var p': Path :| IsPath(a, a.pre, p', s) && Normalize(Label(p')) == q;
      Completes(a, s, p, end);
      Completes(a, s, p', end);
      NormalizeNormal(Label(p));
      NormalizeNormal(Label(p'));
      OneResidue(r, q, Label(end));
    }
  }

  lemma Completes(a: Transducer, s: State, p: Path, end: Path)
    requires OnlyIdentities(a) && IsPath(a, a.pre, p, s) && IsPath(a, s, end, a.post)
    ensures var m := Mul(Normalize(Label(p)), Label(end)); m.first == m.second
  {
    Concat(a, a.pre, p, s, end, a.post);
    NormalizeMul(Label(p), Label(end));
    NormalizeNormal(Mul(Label(p), Label(end)));
    NormalizeNormal(Mul(Normalize(Label(p)), Label(end)));
  }

  // ---------------------------------------------------------------------
  // The check
  // ---------------------------------------------------------------------

  // A new state was reached.
  lemma Reached(a: Transducer, rs: Residues, t: Transition)
    requires a.Valid() && Grounded(a, rs) && t in a.transitions && t.src in rs && Coaccessible(a, t.dst) && t.dst !in rs
    ensures Grounded(a, rs[t.dst := After(rs, t)])
  {
    LeavesAfter(a, rs, t);
  }

  lemma ReachedChecked(a: Transducer, rs: Residues, s: State, r: Pair, e: Transition)
    requires s !in rs && Checked(a, rs, e)
    ensures Checked(a, rs[s := r], e)
  {
  }

  ghost predicate Listed(a: Transducer, rs: Residues, todo: seq<State>) {
    forall s <- todo :: s in rs && s != a.post
  }

  // Look at the transitions of s.
  method Visit(a: Transducer, coaccessibles: set<State>, s: State, rs0: Residues, todo0: seq<State>)
    returns (ok: bool, rs: Residues, todo: seq<State>)
    requires a.Valid() && (forall d :: d in coaccessibles <==> Coaccessible(a, d))
    requires Grounded(a, rs0) && s in rs0 && s != a.post
    requires Listed(a, rs0, todo0) && Explored(a, rs0, [s] + todo0)
    ensures !ok ==> !OnlyIdentities(a)
    ensures ok ==> Grounded(a, rs) && Listed(a, rs, todo) && Explored(a, rs, todo)
    ensures rs0.Keys <= rs.Keys && (rs0.Keys == rs.Keys ==> todo == todo0)
  {
    rs, todo := rs0, todo0;
    var all := set t <- a.transitions | t.src == s;
    var ts := all;
    while ts != {}
      invariant ts <= all && s in rs && Grounded(a, rs) && Listed(a, rs, todo)
      invariant Explored(a, rs, [s] + todo)
      invariant forall t <- all - ts :: Checked(a, rs, t)
      invariant rs0.Keys <= rs.Keys && (rs0.Keys == rs.Keys ==> todo == todo0)
      decreases ts
    {
      var t :| t in ts;
      var dst := t.dst;
      if dst in coaccessibles {
        var res := Normalize(Mul(rs[s], t.lbl));
        LeavesAfter(a, rs, t);
        if dst !in rs {
          Reached(a, rs, t);
          ReachedExplored(a, rs, s, todo, dst, res);
          ReachedEach(a, rs, all - ts, dst, res);
          rs := rs[dst := res];
          todo := todo + [dst];
        } else if res != rs[dst] {
          ConflictRefutes(a, dst, res, rs[dst]);
          return false, rs, todo;
        }
      }
      CheckedMore(a, rs, all, ts, t);
      ts := ts - {t};
    }
    assert all - {} == all;
    return true, rs, todo;
  }

  lemma ReachedEach(a: Transducer, rs: Residues, ts: set<Transition>, s: State, r: Pair)
    requires s !in rs && forall e <- ts :: Checked(a, rs, e)
    ensures forall e <- ts :: Checked(a, rs[s := r], e)
  {
    forall e <- ts
      ensures Checked(a, rs[s := r], e)
    {
      ReachedChecked(a, rs, s, r, e);
    }
  }

  // x is being looked at, and s has to be.
  lemma ReachedExplored(a: Transducer, rs: Residues, x: State, todo: seq<State>, s: State, r: Pair)
    requires s !in rs && Explored(a, rs, [x] + todo)
    ensures Explored(a, rs[s := r], [x] + (todo + [s]))
  {
    var more := [x] + (todo + [s]);
    assert more == ([x] + todo) + [s];
    forall e <- a.transitions | e.src in rs[s := r] && e.src !in more
      ensures Checked(a, rs[s := r], e)
    {
      assert s in more && forall d <- [x] + todo :: d in more;
      ReachedChecked(a, rs, s, r, e);
    }
  }

  lemma CheckedMore(a: Transducer, rs: Residues, all: set<Transition>, ts: set<Transition>, t: Transition)
    requires t in ts && ts <= all && Checked(a, rs, t) && forall e <- all - ts :: Checked(a, rs, e)
    ensures forall e <- all - (ts - {t}) :: Checked(a, rs, e)
  {
    OneMore(all, ts, t);
  }

  method IsPartialIdentity(a: Transducer) returns (r: bool)
    requires a.Valid()
    ensures r <==> OnlyIdentities(a)
  {
    var coaccessibles := CoaccessibleStates(a);
    var rs: Residues := map[a.pre := ONE, a.post := ONE];
    var todo := [a.pre];
    assert IsPath(a, a.pre, [], a.pre);
    while todo != []
      invariant Grounded(a, rs) && Listed(a, rs, todo) && Explored(a, rs, todo)
      decreases a.states - rs.Keys, |todo|
    {
      var s, rest := todo[0], todo[1..];
      assert todo == [s] + rest;
      var ok, rs', todo' := Visit(a, coaccessibles, s, rs, rest);
      if !ok {
        return false;
      }
      if rs.Keys != rs'.Keys {
        assert a.states - rs'.Keys < a.states - rs.Keys;
      }
      rs, todo := rs', todo';
    }
    ExploredIdentities(a, rs);
    return true;
  }
}
