// Sums over lists, in a semiring.
module Sums {
  import opened Sets
  import opened AllDistances

  function Sum<X, K>(w: Semiring<K>, f: X -> K, xs: seq<X>): K {
    if xs == [] then w.zero else w.add(f(xs[0]), Sum(w, f, xs[1..]))
  }

  lemma AddAssociative<K(!new)>(w: Semiring<K>, x: K, y: K, z: K)
    requires Laws(w)
    ensures w.add(w.add(x, y), z) == w.add(x, w.add(y, z))
  {
    assert Axioms(w);
  }

  lemma LeftDistributive<K(!new)>(w: Semiring<K>, x: K, y: K, z: K)
    requires Laws(w)
    ensures w.mul(x, w.add(y, z)) == w.add(w.mul(x, y), w.mul(x, z))
  {
    assert Axioms(w);
  }

  lemma SumFirst<X, K>(w: Semiring<K>, f: X -> K, x: X, xs: seq<X>)
    ensures Sum(w, f, [x] + xs) == w.add(f(x), Sum(w, f, xs))
  {
    assert ([x] + xs)[1..] == xs;
  }

  lemma {:induction false} SumConcat<X, K(!new)>(w: Semiring<K>, f: X -> K, xs: seq<X>, ys: seq<X>)
    requires Laws(w)
    ensures Sum(w, f, xs + ys) == w.add(Sum(w, f, xs), Sum(w, f, ys))
  {
    if xs == [] {
      assert xs + ys == ys;
      Units(w, Sum(w, f, ys));
    } else {
      SumConcat(w, f, xs[1..], ys);
      assert xs + ys == [xs[0]] + (xs[1..] + ys);
      SumFirst(w, f, xs[0], xs[1..] + ys);
      AddAssociative(w, f(xs[0]), Sum(w, f, xs[1..]), Sum(w, f, ys));
    }
  }

  // The i-th term can be taken out.
  lemma SumOut<X, K(!new)>(w: Semiring<K>, f: X -> K, xs: seq<X>, i: nat)
    requires Laws(w) && i < |xs|
    ensures Sum(w, f, xs) == w.add(f(xs[i]), Sum(w, f, xs[..i] + xs[i + 1..]))
  {
    var before, after := xs[..i], xs[i + 1..];
    assert xs == before + ([xs[i]] + after);
    SumConcat(w, f, before, [xs[i]] + after);
    SumFirst(w, f, xs[i], after);
    SumConcat(w, f, before, after);
    var b, x, c := Sum(w, f, before), f(xs[i]), Sum(w, f, after);
    AddAssociative(w, b, x, c);
    AddCommutative(w, b, x);
    AddAssociative(w, x, b, c);
  }

  // The same terms.
  lemma {:induction false} SumEqual<X(!new), Y(!new), K(!new)>(w: Semiring<K>, f: X -> K, xs: seq<X>, g: Y -> K,
                                                               ys: seq<Y>)
    requires |xs| == |ys| && forall i | 0 <= i < |xs| :: f(xs[i]) == g(ys[i])
    ensures Sum(w, f, xs) == Sum(w, g, ys)
  {
    if xs != [] {
      assert f(xs[0]) == g(ys[0]);
      SumEqual(w, f, xs[1..], g, ys[1..]);
    }
  }

  // The terms are multiplied by c.
  lemma {:induction false} SumScaled<X(!new), Y(!new), K(!new)>(w: Semiring<K>, f: X -> K, xs: seq<X>, c: K,
                                                                g: Y -> K, ys: seq<Y>)
    requires Laws(w) && |xs| == |ys| && forall i | 0 <= i < |xs| :: f(xs[i]) == w.mul(c, g(ys[i]))
    ensures Sum(w, f, xs) == w.mul(c, Sum(w, g, ys))
  {
    if xs == [] {
      NullProduct(w, c);
    } else {
      assert f(xs[0]) == w.mul(c, g(ys[0]));
      SumScaled(w, f, xs[1..], c, g, ys[1..]);
      LeftDistributive(w, c, g(ys[0]), Sum(w, g, ys[1..]));
    }
  }

  lemma {:induction false} NullSum<X(!new), K(!new)>(w: Semiring<K>, f: X -> K, xs: seq<X>)
    requires Laws(w) && forall x <- xs :: f(x) == w.zero
    ensures Sum(w, f, xs) == w.zero
  {
    if xs != [] {
      assert xs[0] in xs;
      NullSum(w, f, xs[1..]);
      Units(w, w.zero);
    }
  }

  lemma OutDistinct<X(!new)>(xs: seq<X>, i: nat)
    requires Distinct(xs) && i < |xs|
    ensures Distinct(xs[..i] + xs[i + 1..])
    ensures forall x :: x in xs[..i] + xs[i + 1..] <==> x in xs && x != xs[i]
  {
    var rest := xs[..i] + xs[i + 1..];
    assert forall k | 0 <= k < |rest| :: rest[k] == if k < i then xs[k] else xs[k + 1];
    forall x
      ensures x in rest <==> x in xs && x != xs[i]
    {
      if x in xs && x != xs[i] {
        var k :| 0 <= k < |xs| && xs[k] == x;
        assert rest[if k < i then k else k - 1] == x;
      }
    }
  }

  // The terms that are left out are null.
  lemma {:induction false} SumOver<X(!new), K(!new)>(w: Semiring<K>, f: X -> K, xs: seq<X>, all: seq<X>)
    requires Laws(w) && Distinct(xs) && Distinct(all)
    requires forall x <- xs :: x in all
    requires forall x <- all :: x in xs || f(x) == w.zero
    ensures Sum(w, f, xs) == Sum(w, f, all)
    decreases |xs|
  {
    if xs == [] {
      NullSum(w, f, all);
    } else {
      var x := xs[0];
      assert x in xs;
      var i :| 0 <= i < |all| && all[i] == x;
      OutDistinct(all, i);
      OutDistinct(xs, 0);
      var rest := all[..i] + all[i + 1..];
      assert xs[..0] + xs[0 + 1..] == xs[1..];
      forall y | y in xs[1..]
        ensures y in rest
      {
        assert y in xs && y != x;
      }
      SumOver(w, f, xs[1..], rest);
      SumOut(w, f, all, i);
    }
  }

  lemma OnlyOne<X(!new)>(xs: seq<X>, x: X)
    requires Distinct(xs) && x in xs && forall y <- xs :: y == x
    ensures xs == [x]
  {
    assert |xs| <= 1 || xs[0] != xs[1];
    forall i | 0 <= i < |xs|
      ensures xs[i] == x
    {
      assert xs[i] in xs;
    }
  }

  // ---------------------------------------------------------------------
  // Products of sums
  // ---------------------------------------------------------------------

  function Row<X, Y>(x: X, ys: seq<Y>): (ps: seq<(X, Y)>)
    ensures |ps| == |ys| && forall i | 0 <= i < |ys| :: ps[i] == (x, ys[i])
  {
    seq(|ys|, i requires 0 <= i < |ys| => (x, ys[i]))
  }

  // All the pairs.
  function Cross<X, Y>(xs: seq<X>, ys: seq<Y>): seq<(X, Y)> {
    if xs == [] then [] else Row(xs[0], ys) + Cross(xs[1..], ys)
  }

  lemma InRow<X(!new), Y(!new)>(x: X, ys: seq<Y>, p: (X, Y))
    ensures p in Row(x, ys) <==> p.0 == x && p.1 in ys
  {
    if p.0 == x && p.1 in ys {
      var i :| 0 <= i < |ys| && ys[i] == p.1;
      assert Row(x, ys)[i] == p;
    }
  }

  lemma {:induction false} InCross<X(!new), Y(!new)>(xs: seq<X>, ys: seq<Y>, p: (X, Y))
    ensures p in Cross(xs, ys) <==> p.0 in xs && p.1 in ys
  {
    if xs != [] {
      InRow(xs[0], ys, p);
      InCross(xs[1..], ys, p);
      assert xs == [xs[0]] + xs[1..];
    }
  }

  lemma ConcatDistinct<X(!new)>(xs: seq<X>, ys: seq<X>)
    requires Distinct(xs) && Distinct(ys) && forall x <- xs :: x !in ys
    ensures Distinct(xs + ys)
  {
    forall i, j | 0 <= i < j < |xs + ys|
      ensures (xs + ys)[i] != (xs + ys)[j]
    {
      if i < |xs| <= j {
        assert xs[i] in xs && ys[j - |xs|] in ys;
      }
    }
  }

  lemma {:induction false} CrossDistinct<X(!new), Y(!new)>(xs: seq<X>, ys: seq<Y>)
    requires Distinct(xs) && Distinct(ys)
    ensures Distinct(Cross(xs, ys))
  {
    if xs != [] {
      CrossDistinct(xs[1..], ys);
      assert xs[0] !in xs[1..];
      forall p <- Row(xs[0], ys)
        ensures p !in Cross(xs[1..], ys)
      {
        InRow(xs[0], ys, p);
        InCross(xs[1..], ys, p);
      }
      ConcatDistinct(Row(xs[0], ys), Cross(xs[1..], ys));
    }
  }

  function ByPair<X, Y, K>(w: Semiring<K>, f: X -> K, g: Y -> K): ((X, Y)) -> K {
    (p: (X, Y)) => w.mul(f(p.0), g(p.1))
  }

  lemma {:induction false} SumRow<X(!new), Y(!new), K(!new)>(w: Semiring<K>, f: X -> K, x: X, g: Y -> K, ys: seq<Y>)
    requires Laws(w)
    ensures Sum(w, ByPair(w, f, g), Row(x, ys)) == w.mul(f(x), Sum(w, g, ys))
  {
    if ys == [] {
      NullProduct(w, f(x));
    } else {
      SumRow(w, f, x, g, ys[1..]);
      assert Row(x, ys)[1..] == Row(x, ys[1..]);
      LeftDistributive(w, f(x), g(ys[0]), Sum(w, g, ys[1..]));
    }
  }

  // The sum of the products is the product of the sums.
  lemma {:induction false} SumCross<X(!new), Y(!new), K(!new)>(w: Semiring<K>, f: X -> K, xs: seq<X>, g: Y -> K,
                                                               ys: seq<Y>)
    requires Laws(w)
    ensures Sum(w, ByPair(w, f, g), Cross(xs, ys)) == w.mul(Sum(w, f, xs), Sum(w, g, ys))
  {
    if xs == [] {
      NullProduct(w, Sum(w, g, ys));
    } else {
      SumCross(w, f, xs[1..], g, ys);
      SumRow(w, f, xs[0], g, ys);
      SumConcat(w, ByPair(w, f, g), Row(xs[0], ys), Cross(xs[1..], ys));
      RightDistributive(w, f(xs[0]), Sum(w, f, xs[1..]), Sum(w, g, ys));
    }
  }

  // ---------------------------------------------------------------------
  // Lists of the elements that have an image in a list
  // ---------------------------------------------------------------------

  ghost predicate Injective<X(!new), P(!new)>(among: X -> bool, f: X -> P) {
    forall x, y | among(x) && among(y) && f(x) == f(y) :: x == y
  }

  lemma {:induction false} Preimages<X(!new), P(!new)>(among: X -> bool, f: X -> P, ps: seq<P>) returns (xs: seq<X>)
    requires Distinct(ps) && Injective(among, f)
    ensures Distinct(xs) && forall x :: x in xs <==> among(x) && f(x) in ps
  {
    if ps == [] {
      xs := [];
    } else {
      var rest := Preimages(among, f, ps[1..]);
      assert ps == [ps[0]] + ps[1..];
      if x :| among(x) && f(x) == ps[0] {
        xs := [x] + rest;
      } else {
        xs := rest;
      }
    }
  }
}
