// The reduction of integer vectors by unimodular steps, with the coefficients
// of Bezout (vcsn/algos/reduce.hh).
module Lattices {
  import Elimination

  type Vector = seq<int>

  function Times(x: int, y: int): int {
    x * y
  }

  // The division of C++ truncates.
  function Quotient(x: int, y: int): int
    requires y != 0
  {
    if x >= 0 then x / y else -(-x / y)
  }

  ghost predicate Divides(d: int, x: int) {
    exists k :: Times(d, k) == x
  }

  lemma DividesSum(d: int, x: int, y: int)
    requires Divides(d, x) && Divides(d, y)
    ensures Divides(d, x + y)
  {
    var j :| Times(d, j) == x;
    var k :| Times(d, k) == y;
    assert Times(d, j + k) == x + y;
  }

  lemma DividesProduct(d: int, x: int, k: int)
    requires Divides(d, x)
    ensures Divides(d, Times(x, k)) && Divides(d, -x)
  {
    var j :| Times(d, j) == x;
    assert Times(d, -j) == -x;
    Regroup(d, j, k);
    assert Times(d, Times(j, k)) == Times(x, k);
  }

  lemma Regroup(x: int, y: int, z: int)
    ensures Times(x, Times(y, z)) == Times(Times(x, y), z)
  {
  }

  lemma Spread(x: int, y: int, z: int)
    ensures Times(x + y, z) == Times(x, z) + Times(y, z)
    ensures Times(x - y, z) == Times(x, z) - Times(y, z)
    ensures Times(x, y + z) == Times(x, y) + Times(x, z)
    ensures Times(x, y - z) == Times(x, y) - Times(x, z)
  {
  }

  lemma Commute(x: int, y: int)
    ensures Times(x, y) == Times(y, x)
    ensures Times(-x, y) == -Times(x, y)
  {
  }

  lemma ExactQuotient(x: int, y: int)
    requires y != 0 && Divides(y, x)
    ensures Times(y, Quotient(x, y)) == x
  {
    var k :| Times(y, k) == x;
    if x >= 0 {
      Exact(x, y, k);
    } else {
      Commute(y, k);
      Commute(k, y);
      Commute(-k, y);
      Exact(-x, y, -k);
      Commute(y, -x / y);
      Commute(-x / y, y);
      Commute(-(-x / y), y);
    }
  }

  function Abs(x: int): nat {
    if x < 0 then -x else x
  }

  lemma NonzeroMultiple(y: int, m: int)
    requires y != 0
    ensures m == 0 || Abs(Times(y, m)) >= Abs(y)
  {
    if m > 0 {
      assert if y > 0 then y * m >= y else y * m <= y;
    } else if m < 0 {
      assert if y > 0 then y * m <= -y else y * m >= -y;
    }
  }

  lemma Exact(x: int, y: int, k: int)
    requires y != 0 && x == Times(y, k)
    ensures x / y == k
  {
    assert x == Times(y, x / y) + x % y;
    Spread(y, k, x / y);
    NonzeroMultiple(y, k - x / y);
  }

  // ---------------------------------------------------------------------
  // The greatest common divisor
  // ---------------------------------------------------------------------

  // res == a.x + b.y
  datatype Bezout = Bezout(res: int, a: int, b: int)

  function Gcd(x: int, y: int): Bezout
    decreases (if x < 0 then 1 else 0) + (if y < 0 then 1 else 0), if y < 0 then -y else y
  {
    if y == 0 then Bezout(x, 1, 0)
    else if x < 0 then
      var r := Gcd(-x, y);
      r.(a := -r.a)
    else if y < 0 then
      var r := Gcd(x, -y);
      r.(b := -r.b)
    else if x < y then
      var r := Gcd(y, x);
      Bezout(r.res, r.b, r.a)
    else
      var r := Gcd(y, x % y);
      Bezout(r.res, r.b, r.a - Times(r.b, x / y))
  }

  lemma Remainder(x: int, y: int)
    requires y > 0
    ensures x == Times(y, x / y) + x % y
  {
  }

  lemma BezoutStep(x: int, y: int, a: int, b: int, q: int, z: int)
    requires x == Times(y, q) + z
    ensures Times(a, x) + Times(b - Times(a, q), y) == Times(b, y) + Times(a, z)
  {
    Spread(a, Times(y, q), z);
    Spread(b, Times(a, q), y);
    Regroup(a, q, y);
    Commute(q, y);
  }

  lemma {:induction false} GcdIsCombination(x: int, y: int)
    ensures var r := Gcd(x, y); r.res == Times(r.a, x) + Times(r.b, y)
    decreases (if x < 0 then 1 else 0) + (if y < 0 then 1 else 0), if y < 0 then -y else y
  {
    var r := Gcd(x, y);
    if y == 0 {
      assert Times(1, x) == x && Times(0, y) == 0;
    } else if x < 0 {
      GcdIsCombination(-x, y);
      Commute(x, Gcd(-x, y).a);
      Commute(Gcd(-x, y).a, x);
      Commute(x, -Gcd(-x, y).a);
      Commute(Gcd(-x, y).a, -x);
    } else if y < 0 {
      GcdIsCombination(x, -y);
      Commute(y, Gcd(x, -y).b);
      Commute(Gcd(x, -y).b, y);
      Commute(Gcd(x, -y).b, -y);
    } else if x < y {
      GcdIsCombination(y, x);
    } else {
      GcdIsCombination(y, x % y);
      Remainder(x, y);
      BezoutStep(x, y, Gcd(y, x % y).b, Gcd(y, x % y).a, x / y, x % y);
    }
  }

  lemma {:induction false} GcdDivides(x: int, y: int)
    ensures Divides(Gcd(x, y).res, x) && Divides(Gcd(x, y).res, y)
    ensures Gcd(x, y).res == 0 <==> x == 0 && y == 0
    decreases (if x < 0 then 1 else 0) + (if y < 0 then 1 else 0), if y < 0 then -y else y
  {
    var d := Gcd(x, y).res;
    if y == 0 {
      assert Times(d, 1) == x && Times(d, 0) == y;
    } else if x < 0 {
      GcdDivides(-x, y);
      DividesProduct(d, -x, 1);
    } else if y < 0 {
      GcdDivides(x, -y);
      DividesProduct(d, -y, 1);
    } else if x < y {
      GcdDivides(y, x);
    } else {
      GcdDivides(y, x % y);
      Remainder(x, y);
      DividesProduct(d, y, x / y);
      DividesSum(d, Times(y, x / y), x % y);
    }
  }

  // It is negative exactly when it is the first argument, returned as it is.
  lemma {:induction false} GcdSign(x: int, y: int)
    ensures Gcd(x, y).res < 0 <==> y == 0 && x < 0
    decreases (if x < 0 then 1 else 0) + (if y < 0 then 1 else 0), if y < 0 then -y else y
  {
    if y == 0 {
    } else if x < 0 {
      GcdSign(-x, y);
    } else if y < 0 {
      GcdSign(x, -y);
    } else if x < y {
      GcdSign(y, x);
    } else {
      GcdSign(y, x % y);
    }
  }

  // It divides both, and all that divides both divides it.
  lemma GcdIsGreatest(x: int, y: int, d: int)
    ensures Divides(d, x) && Divides(d, y) <==> Divides(d, Gcd(x, y).res)
  {
    var r := Gcd(x, y);
    if Divides(d, x) && Divides(d, y) {
      GcdIsCombination(x, y);
      DividesProduct(d, x, r.a);
      DividesProduct(d, y, r.b);
      Commute(x, r.a);
      Commute(y, r.b);
      DividesSum(d, Times(r.a, x), Times(r.b, y));
    }
    if Divides(d, r.res) {
      GcdDivides(x, y);
      var j :| Times(r.res, j) == x;
      var k :| Times(r.res, k) == y;
      DividesProduct(d, r.res, j);
      DividesProduct(d, r.res, k);
    }
  }

  // ---------------------------------------------------------------------
  // Lattices
  // ---------------------------------------------------------------------

  // p.u + q.v
  function Combine(p: int, u: Vector, q: int, v: Vector): (r: Vector)
    requires |u| == |v|
    ensures |r| == |u| && forall i | 0 <= i < |u| :: r[i] == Times(p, u[i]) + Times(q, v[i])
  {
    seq(|u|, i requires 0 <= i < |u| => Times(p, u[i]) + Times(q, v[i]))
  }

  ghost predicate InLattice(w: Vector, u: Vector, v: Vector)
    requires |u| == |v|
  {
    exists p, q :: w == Combine(p, u, q, v)
  }

  ghost predicate SameLattice(u: Vector, v: Vector, u': Vector, v': Vector)
    requires |u| == |v| && |u'| == |v'|
  {
    forall w: Vector :: InLattice(w, u, v) <==> InLattice(w, u', v')
  }

  lemma CombineEntry(p: int, q: int, a: int, b: int, c: int, d: int, x: int, y: int)
    ensures Times(p, Times(a, x) + Times(b, y)) + Times(q, Times(c, x) + Times(d, y))
            == Times(Times(p, a) + Times(q, c), x) + Times(Times(p, b) + Times(q, d), y)
  {
    Spread(p, Times(a, x), Times(b, y));
    Spread(q, Times(c, x), Times(d, y));
    Regroup(p, a, x);
    Regroup(p, b, y);
    Regroup(q, c, x);
    Regroup(q, d, y);
    Spread(Times(p, a), Times(q, c), x);
    Spread(Times(p, b), Times(q, d), y);
  }

  // A combination of combinations.
  lemma CombineTwice(p: int, q: int, a: int, b: int, c: int, d: int, u: Vector, v: Vector)
    requires |u| == |v|
    ensures Combine(p, Combine(a, u, b, v), q, Combine(c, u, d, v))
            == Combine(Times(p, a) + Times(q, c), u, Times(p, b) + Times(q, d), v)
  {
    forall i | 0 <= i < |u|
      ensures Combine(p, Combine(a, u, b, v), q, Combine(c, u, d, v))[i]
              == Combine(Times(p, a) + Times(q, c), u, Times(p, b) + Times(q, d), v)[i]
    {
      CombineEntry(p, q, a, b, c, d, u[i], v[i]);
    }
  }

  lemma CombineStays(a: int, b: int, c: int, d: int, u: Vector, v: Vector, w: Vector)
    requires |u| == |v| && InLattice(w, Combine(a, u, b, v), Combine(c, u, d, v))
    ensures InLattice(w, u, v)
  {
    var p, q :| w == Combine(p, Combine(a, u, b, v), q, Combine(c, u, d, v));
    CombineTwice(p, q, a, b, c, d, u, v);
  }

  lemma CombineUnits(u: Vector, v: Vector)
    requires |u| == |v|
    ensures Combine(1, u, 0, v) == u && Combine(0, u, 1, v) == v
  {
  }

  // A step of determinant one can be undone.
  lemma Undo(a: int, b: int, s: int, t: int, u: Vector, v: Vector)
    requires |u| == |v| && Times(a, s) + Times(b, t) == 1
    ensures var u', v' := Combine(a, u, b, v), Combine(-t, u, s, v);
            Combine(s, u', -b, v') == u && Combine(t, u', a, v') == v
  {
    CombineTwice(s, -b, a, b, -t, s, u, v);
    CombineTwice(t, a, a, b, -t, s, u, v);
    CombineUnits(u, v);
    Signs(a, b, s, t);
  }

  lemma Signs(a: int, b: int, s: int, t: int)
    ensures Times(s, a) + Times(-b, -t) == Times(a, s) + Times(b, t)
    ensures Times(s, b) + Times(-b, s) == 0 == Times(t, a) + Times(a, -t)
    ensures Times(t, b) + Times(a, s) == Times(a, s) + Times(b, t)
  {
  }

  lemma UnimodularKeepsLattice(a: int, b: int, s: int, t: int, u: Vector, v: Vector)
    requires |u| == |v| && Times(a, s) + Times(b, t) == 1
    ensures SameLattice(u, v, Combine(a, u, b, v), Combine(-t, u, s, v))
  {
    var u', v' := Combine(a, u, b, v), Combine(-t, u, s, v);
    Undo(a, b, s, t, u, v);
    forall w: Vector
      ensures InLattice(w, u, v) <==> InLattice(w, u', v')
    {
      if InLattice(w, u', v') {
        CombineStays(a, b, -t, s, u, v, w);
      }
      if InLattice(w, u, v) {
        CombineStays(s, -b, t, a, u', v', w);
      }
    }
  }

  // The quotients of two integers by their gcd, with the coefficients.
  lemma Determinant(x: int, y: int)
    requires y != 0
    ensures var g := Gcd(x, y);
            && g.res != 0
            && Times(g.res, Quotient(x, g.res)) == x && Times(g.res, Quotient(y, g.res)) == y
            && Times(g.a, Quotient(x, g.res)) + Times(g.b, Quotient(y, g.res)) == 1
            && Times(Quotient(x, g.res), y) == Times(Quotient(y, g.res), x)
  {
    var g := Gcd(x, y);
    GcdIsCombination(x, y);
    GcdDivides(x, y);
    ExactQuotient(x, g.res);
    ExactQuotient(y, g.res);
    Cancel(g.res, g.a, g.b, Quotient(x, g.res), Quotient(y, g.res));
  }

  lemma Cancel(d: int, a: int, b: int, s: int, t: int)
    requires d != 0 && d == Times(a, Times(d, s)) + Times(b, Times(d, t))
    ensures Times(a, s) + Times(b, t) == 1
    ensures Times(s, Times(d, t)) == Times(t, Times(d, s))
  {
    assert d * (a * s + b * t) == d;
  }

  // ---------------------------------------------------------------------
  // The reduction of a vector
  // ---------------------------------------------------------------------

  // u vanishes on the first k permuted coordinates.
  predicate NullBefore(u: Vector, p: seq<nat>, k: nat)
    requires k <= |p| && forall i | 0 <= i < |p| :: p[i] < |u|
  {
    forall i | 0 <= i < k :: u[p[i]] == 0
  }

  // u' and v' are the combinations of u and v by the coefficients of Bezout of
  // their entries at pivot, and by these entries divided by their gcd.
  ghost predicate StepAt(u: Vector, v: Vector, pivot: nat, u': Vector, v': Vector)
    requires |u| == |v| && pivot < |u|
  {
    var g := Gcd(u[pivot], v[pivot]);
    && u' == Combine(g.a, u, g.b, v)
    && exists s, t :: Times(g.res, s) == u[pivot] && Times(g.res, t) == v[pivot] && v' == Combine(-t, u, s, v)
  }

  // current loses its entry at the pivot of vbasis, which gets the gcd of both
  // entries; the two vectors still span the same lattice.
  method ReduceVector(vbasis: array<int>, current: array<int>, nb: nat, permutation: array<nat>)
    requires vbasis != current && vbasis.Length == current.Length > nb
    requires Elimination.Permutation(permutation[..], current.Length)
    requires NullBefore(vbasis[..], permutation[..], nb) && NullBefore(current[..], permutation[..], nb)
    modifies vbasis, current
    ensures SameLattice(old(vbasis[..]), old(current[..]), vbasis[..], current[..])
    ensures current[permutation[nb]] == 0
    ensures old(current[permutation[nb]]) != 0
            ==> StepAt(old(vbasis[..]), old(current[..]), permutation[nb], vbasis[..], current[..])
    ensures old(current[permutation[nb]]) != 0
            ==> vbasis[permutation[nb]] == Gcd(old(vbasis[permutation[nb]]), old(current[permutation[nb]])).res
    ensures old(current[permutation[nb]]) == 0 ==> vbasis[..] == old(vbasis[..]) && current[..] == old(current[..])
    ensures NullBefore(vbasis[..], permutation[..], nb) && NullBefore(current[..], permutation[..], nb + 1)
  {
    var pivot := permutation[nb];
    ghost var p, u, v := permutation[..], vbasis[..], current[..];
    if current[pivot] == 0 {
      return;
    }
    var bp, cp := vbasis[pivot], current[pivot];
    var g := Gcd(bp, cp);
    Determinant(bp, cp);
    GcdIsCombination(bp, cp);
    bp, cp := Quotient(bp, g.res), Quotient(cp, g.res);
    ghost var u', v' := Combine(g.a, u, g.b, v), Combine(-cp, u, bp, v);
    for i := nb to current.Length
      invariant permutation[..] == p
      invariant forall k | nb <= k < i :: vbasis[p[k]] == u'[p[k]] && current[p[k]] == v'[p[k]]
      invariant forall k | i <= k < |p| || 0 <= k < nb :: vbasis[p[k]] == u[p[k]] && current[p[k]] == v[p[k]]
    {
      var j := permutation[i];
      var tmp := current[j];
      current[j] := Times(bp, tmp) - Times(cp, vbasis[j]);
      vbasis[j] := Times(g.a, vbasis[j]) + Times(g.b, tmp);
      Commute(cp, u[j]);
    }
    PivotGone(bp, cp, u[pivot], v[pivot]);
    assert current[pivot] == v'[pivot] == 0;
    Covered(p, u', vbasis[..], nb);
    Covered(p, v', current[..], nb);
    UnimodularKeepsLattice(g.a, g.b, bp, cp, u, v);
  }

  lemma PivotGone(s: int, t: int, x: int, y: int)
    requires Times(s, y) == Times(t, x)
    ensures Times(-t, x) + Times(s, y) == 0
  {
    Commute(t, x);
  }

  lemma Covered(p: seq<nat>, u: Vector, w: Vector, nb: nat)
    requires Elimination.Permutation(p, |u|) && |w| == |u| && nb <= |u|
    requires forall k | nb <= k < |p| :: w[p[k]] == u[p[k]]
    requires NullBefore(u, p, nb) && NullBefore(w, p, nb)
    ensures w == u
  {
    forall j | 0 <= j < |u|
      ensures w[j] == u[j]
    {
      var k := Elimination.IndexIn(p, |u|, j);
    }
  }
}
