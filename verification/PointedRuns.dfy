// In an automaton with its pre and post states, the weight of a word is the sum
// over the paths from pre to post.
module PointedRuns {
  import opened Sets
  import opened AllDistances
  import opened PointedAutomata
  import opened Sums

  type Path<K> = seq<Out<K>>

  // The word that is read.
  function Labels<K>(p: Path<K>): Word {
    if p == [] then [] else [p[0].lbl] + Labels(p[1..])
  }

  function PathWeight<K>(w: Semiring<K>, p: Path<K>): K {
    if p == [] then w.one else w.mul(p[0].weight, PathWeight(w, p[1..]))
  }

  function WeightOfPath<K>(w: Semiring<K>): Path<K> -> K {
    (p: Path<K>) => PathWeight(w, p)
  }

  // p leads from s to post, and reads u.
  ghost predicate Reads<K>(a: Automaton<K>, s: State, u: Word, p: Path<K>) {
    IsPath(a, s, p, POST) && Labels(p) == u
  }

  // ps lists the paths from s to post that read u, each one once.
  ghost predicate Lists<K(!new)>(a: Automaton<K>, s: State, u: Word, ps: seq<Path<K>>) {
    Distinct(ps) && forall p: Path<K> :: p in ps <==> Reads(a, s, u, p)
  }

  // ---------------------------------------------------------------------
  // The paths that read a word
  // ---------------------------------------------------------------------

  function Prepend<K>(o: Out<K>, ps: seq<Path<K>>): (qs: seq<Path<K>>)
    ensures |qs| == |ps| && forall i | 0 <= i < |ps| :: qs[i] == [o] + ps[i]
  {
    seq(|ps|, i requires 0 <= i < |ps| => [o] + ps[i])
  }

  function Paths<K>(a: Automaton<K>, s: State, u: Word): seq<Path<K>>
    decreases |u|, 1, 0
  {
    if u == [] then if s == POST then [[]] else []
    else if s !in a.out then []
    else PathsVia(a, a.out[s], u)
  }

  // Those that start with one of the transitions.
  function PathsVia<K>(a: Automaton<K>, outs: seq<Out<K>>, u: Word): seq<Path<K>>
    requires u != []
    decreases |u|, 0, |outs|
  {
    if outs == [] then []
    else
      var o := outs[|outs| - 1];
      PathsVia(a, outs[..|outs| - 1], u) + if o.lbl == u[0] then Prepend(o, Paths(a, o.dst, u[1..])) else []
  }

  lemma InPrepend<K(!new)>(o: Out<K>, ps: seq<Path<K>>, p: Path<K>)
    ensures p in Prepend(o, ps) <==> p != [] && p[0] == o && p[1..] in ps
  {
    if p in Prepend(o, ps) {
      var i :| 0 <= i < |ps| && Prepend(o, ps)[i] == p;
      assert p[1..] == ps[i];
    }
    if p != [] && p[0] == o && p[1..] in ps {
      var i :| 0 <= i < |ps| && ps[i] == p[1..];
      assert Prepend(o, ps)[i] == p;
    }
  }

  lemma {:induction false} InPathsVia<K(!new)>(a: Automaton<K>, outs: seq<Out<K>>, u: Word, p: Path<K>)
    requires u != []
    ensures p in PathsVia(a, outs, u)
            <==> p != [] && p[0] in outs && p[0].lbl == u[0] && p[1..] in Paths(a, p[0].dst, u[1..])
    decreases |outs|
  {
    if outs != [] {
      var o, rest := outs[|outs| - 1], outs[..|outs| - 1];
      assert outs == rest + [o];
      InPathsVia(a, rest, u, p);
      InPrepend(o, Paths(a, o.dst, u[1..]), p);
    }
  }

  lemma {:induction false} InPaths<K(!new)>(a: Automaton<K>, s: State, u: Word, p: Path<K>)
    ensures p in Paths(a, s, u) <==> Reads(a, s, u, p)
    decreases |u|
  {
    if u == [] {
      assert Labels(p) == [] <==> p == [];
    } else if s in a.out {
      InPathsVia(a, a.out[s], u, p);
      if p != [] {
        InPaths(a, p[0].dst, u[1..], p[1..]);
        assert u == [u[0]] + u[1..];
        assert Labels(p) == u <==> p[0].lbl == u[0] && Labels(p[1..]) == u[1..] by {
          assert ([p[0].lbl] + Labels(p[1..]))[0] == p[0].lbl && ([p[0].lbl] + Labels(p[1..]))[1..] == Labels(p[1..]);
        }
      }
    }
  }

  lemma PrependDistinct<K(!new)>(o: Out<K>, ps: seq<Path<K>>)
    requires Distinct(ps)
    ensures Distinct(Prepend(o, ps))
  {
    forall i, j | 0 <= i < j < |ps|
      ensures [o] + ps[i] != [o] + ps[j]
    {
      assert ([o] + ps[i])[1..] == ps[i] && ([o] + ps[j])[1..] == ps[j];
    }
  }

  lemma {:induction false} PathsDistinct<K(!new)>(w: Semiring<K>, a: Automaton<K>, s: State, u: Word)
    requires Valid(w, a)
    ensures Distinct(Paths(a, s, u))
    decreases |u|, 1, 0
  {
    if u != [] && s in a.out {
      PathsViaDistinct(w, a, a.out[s], u);
    }
  }

  lemma {:induction false} PathsViaDistinct<K(!new)>(w: Semiring<K>, a: Automaton<K>, outs: seq<Out<K>>, u: Word)
    requires Valid(w, a) && u != [] && Single(outs)
    ensures Distinct(PathsVia(a, outs, u))
    decreases |u|, 0, |outs|
  {
    if outs != [] {
      var o, rest := outs[|outs| - 1], outs[..|outs| - 1];
      var ps := Paths(a, o.dst, u[1..]);
      PathsViaDistinct(w, a, rest, u);
      PathsDistinct(w, a, o.dst, u[1..]);
      PrependDistinct(o, ps);
      assert o !in rest;
      forall p <- PathsVia(a, rest, u)
        ensures p !in Prepend(o, ps)
      {
        InPathsVia(a, rest, u, p);
        InPrepend(o, ps, p);
      }
      ConcatDistinct(PathsVia(a, rest, u), if o.lbl == u[0] then Prepend(o, ps) else []);
    }
  }

  // ---------------------------------------------------------------------
  // Their weights
  // ---------------------------------------------------------------------

  lemma PrependSum<K(!new)>(w: Semiring<K>, o: Out<K>, ps: seq<Path<K>>)
    requires Laws(w)
    ensures Sum(w, WeightOfPath(w), Prepend(o, ps)) == w.mul(o.weight, Sum(w, WeightOfPath(w), ps))
  {
    var f := WeightOfPath(w);
    forall i | 0 <= i < |ps|
      ensures f(Prepend(o, ps)[i]) == w.mul(o.weight, f(ps[i]))
    {
      assert ([o] + ps[i])[1..] == ps[i];
    }
    SumScaled(w, f, Prepend(o, ps), o.weight, f, ps);
  }

  lemma {:induction false} PathsSum<K(!new)>(w: Semiring<K>, a: Automaton<K>, s: State, u: Word)
    requires Laws(w)
    ensures Sum(w, WeightOfPath(w), Paths(a, s, u)) == V(w, a, s, u)
    decreases |u|, 1, 0
  {
    if u == [] {
      if s == POST {
        var p: Path<K> := [];
        assert Paths(a, s, u) == [p] == [p] + [];
        SumFirst(w, WeightOfPath(w), p, []);
        Units(w, w.one);
      }
    } else if s in a.out {
      PathsViaSum(w, a, a.out[s], u);
    }
  }

  lemma {:induction false} PathsViaSum<K(!new)>(w: Semiring<K>, a: Automaton<K>, outs: seq<Out<K>>, u: Word)
    requires Laws(w) && u != []
    ensures Sum(w, WeightOfPath(w), PathsVia(a, outs, u)) == PointedAutomata.Row(w, outs, u[0], Values(w, a, u[1..]))
    decreases |u|, 0, |outs|
  {
    if outs != [] {
      var o, rest := outs[|outs| - 1], outs[..|outs| - 1];
      PathsViaSum(w, a, rest, u);
      if o.lbl == u[0] {
        var ps := Paths(a, o.dst, u[1..]);
        PathsSum(w, a, o.dst, u[1..]);
        PrependSum(w, o, ps);
        SumConcat(w, WeightOfPath(w), PathsVia(a, rest, u), Prepend(o, ps));
      } else {
        assert PathsVia(a, outs, u) == PathsVia(a, rest, u);
      }
    }
  }

  // However the paths from s to post that read u are listed, the weight of u is
  // the sum of their weights.
  lemma WeightIsSumOverPaths<K(!new)>(w: Semiring<K>, a: Automaton<K>, s: State, u: Word, ps: seq<Path<K>>)
    requires Laws(w) && Valid(w, a) && Lists(a, s, u, ps)
    ensures V(w, a, s, u) == Sum(w, WeightOfPath(w), ps)
  {
    PathsSum(w, a, s, u);
    PathsDistinct(w, a, s, u);
    forall p: Path<K>
      ensures p in Paths(a, s, u) <==> p in ps
    {
      InPaths(a, s, u, p);
    }
    SumOver(w, WeightOfPath(w), Paths(a, s, u), ps);
  }
}
