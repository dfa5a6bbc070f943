// The runs of an automaton, and the weight they give to a word.
module Runs {
  import opened Wrappers
  import opened Sets
  import opened BoolAutomata
  import opened Spontaneous
  import opened WeightedAutomata
  import opened Sums
  import W = AllDistances

  type Path<L> = seq<Transition<L>>

  // A state, and the transitions that are followed from there.
  type Run<L> = (State, Path<L>)

  // The transitions of ts lead from s to d.
  predicate IsPath<L>(a: Automaton<L>, s: State, ts: Path<L>, d: State)
    decreases |ts|
  {
    if ts == [] then s == d
    else ts[0] in a.transitions && ts[0].src == s && IsPath(a, ts[0].dst, ts[1..], d)
  }

  // The word that is read.
  function Letters<L(==)>(one: Option<L>, ts: Path<L>): seq<L> {
    if ts == [] then []
    else (if IsOne(one, ts[0].lbl) then [] else [ts[0].lbl]) + Letters(one, ts[1..])
  }

  // A run starts in an initial state, and ends in a final one.
  ghost predicate Accepting<L>(a: Automaton<L>, s: State, ts: Path<L>) {
    s in a.initial && exists d :: d in a.final && IsPath(a, s, ts, d)
  }

  lemma PathFirst<L(!new)>(a: Automaton<L>, s: State, ts: Path<L>, d: State)
    requires IsPath(a, s, ts, d) && ts != []
    ensures ts[0] in a.transitions && ts[0].src == s && IsPath(a, ts[0].dst, ts[1..], d)
    ensures ts == [ts[0]] + ts[1..]
  {
  }

  lemma PathPrepend<L(!new)>(a: Automaton<L>, t: Transition<L>, ts: Path<L>, d: State)
    requires t in a.transitions && IsPath(a, t.dst, ts, d)
    ensures IsPath(a, t.src, [t] + ts, d) && ([t] + ts)[0] == t && ([t] + ts)[1..] == ts
  {
  }

  lemma LettersPrepend<L(!new)>(one: Option<L>, t: Transition<L>, ts: Path<L>)
    ensures Letters(one, [t] + ts) == (if IsOne(one, t.lbl) then [] else [t.lbl]) + Letters(one, ts)
  {
    assert ([t] + ts)[1..] == ts;
  }

  // ---------------------------------------------------------------------
  // Weights
  // ---------------------------------------------------------------------

  // The state where a path from s ends.
  function End<L>(s: State, ts: Path<L>): State
    decreases |ts|
  {
    if ts == [] then s else End(ts[0].dst, ts[1..])
  }

  lemma {:induction false} PathEnd<L(!new)>(a: Automaton<L>, s: State, ts: Path<L>, d: State)
    requires IsPath(a, s, ts, d)
    ensures d == End(s, ts)
    decreases |ts|
  {
    if ts != [] {
      PathEnd(a, ts[0].dst, ts[1..], d);
    }
  }

  // The product of the weights of the transitions.
  function PathWeight<L, K>(w: W.Semiring<K>, a: Weighted<L, K>, ts: Path<L>): K {
    if ts == [] then w.one else w.mul(At(w.zero, a.transitions, ts[0]), PathWeight(w, a, ts[1..]))
  }

  lemma WeightPrepend<L(!new), K(!new)>(w: W.Semiring<K>, a: Weighted<L, K>, t: Transition<L>, ts: Path<L>)
    ensures PathWeight(w, a, [t] + ts) == w.mul(At(w.zero, a.transitions, t), PathWeight(w, a, ts))
  {
    assert ([t] + ts)[1..] == ts;
  }

  // The initial weight, those of the transitions, and the final one.
  function RunWeight<L, K>(w: W.Semiring<K>, a: Weighted<L, K>, r: Run<L>): K {
    w.mul(w.mul(At(w.zero, a.initial, r.0), PathWeight(w, a, r.1)), At(w.zero, a.final, End(r.0, r.1)))
  }

  ghost predicate Reads<L>(a: Automaton<L>, one: Option<L>, r: Run<L>, u: seq<L>) {
    Accepting(a, r.0, r.1) && Letters(one, r.1) == u
  }

  // rs lists the runs that read u, each one once.
  ghost predicate Lists<L(!new)>(a: Automaton<L>, one: Option<L>, u: seq<L>, rs: seq<Run<L>>) {
    Distinct(rs) && forall r: Run<L> :: r in rs <==> Reads(a, one, r, u)
  }

  function WeightOfRun<L, K>(w: W.Semiring<K>, a: Weighted<L, K>): Run<L> -> K {
    (r: Run<L>) => RunWeight(w, a, r)
  }

  // The weight of a word: the sum of the weights of the runs that read it.
  function WordWeight<L, K>(w: W.Semiring<K>, a: Weighted<L, K>, rs: seq<Run<L>>): K {
    Sum(w, WeightOfRun(w, a), rs)
  }

  // It does not depend on the order of the runs.
  lemma WordWeightUnique<L(!new), K(!new)>(w: W.Semiring<K>, a: Weighted<L, K>, one: Option<L>, u: seq<L>,
                                           rs: seq<Run<L>>, rs': seq<Run<L>>)
    requires W.Laws(w) && Lists(a.Support(), one, u, rs) && Lists(a.Support(), one, u, rs')
    ensures WordWeight(w, a, rs) == WordWeight(w, a, rs')
  {
    SumOver(w, WeightOfRun(w, a), rs, rs');
  }

  // ---------------------------------------------------------------------
  // Without spontaneous transitions, finitely many runs read a word
  // ---------------------------------------------------------------------

  // The sequences of n transitions.
  ghost function Sequences<L(!new)>(a: Automaton<L>, n: nat): set<Path<L>> {
    if n == 0 then {[]}
    else set t <- a.transitions, ts <- Sequences(a, n - 1) :: [t] + ts
  }

  lemma {:induction false} PathIn<L(!new)>(a: Automaton<L>, s: State, ts: Path<L>, d: State)
    requires IsPath(a, s, ts, d)
    ensures ts in Sequences(a, |ts|) && |Letters(None, ts)| == |ts|
    decreases |ts|
  {
    if ts != [] {
      PathIn(a, ts[0].dst, ts[1..], d);
      assert ts == [ts[0]] + ts[1..];
    }
  }

  lemma {:induction false} SetListed<X(!new)>(s: set<X>) returns (xs: seq<X>)
    ensures Distinct(xs) && forall x :: x in xs <==> x in s
    decreases |s|
  {
    if s == {} {
      xs := [];
    } else {
      var x :| x in s;
      var rest := SetListed(s - {x});
      xs := [x] + rest;
    }
  }

  lemma RunsListed<L(!new)>(a: Automaton<L>, u: seq<L>) returns (rs: seq<Run<L>>)
    ensures Lists(a, None, u, rs)
  {
    var all := set s <- a.initial, ts <- Sequences(a, |u|) | Reads(a, None, (s, ts), u) :: (s, ts);
    rs := SetListed(all);
    forall r: Run<L>
      ensures r in all <==> Reads(a, None, r, u)
    {
      if Reads(a, None, r, u) {
        var d :| d in a.final && IsPath(a, r.0, r.1, d);
        PathIn(a, r.0, r.1, d);
        assert r == (r.0, r.1);
      }
    }
  }
}
