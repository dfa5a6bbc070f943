// Exact linear algebra over the reals: vectors, linear combinations of rows
// (which are also vector-matrix products) and scalar products.
module Linear {

  type Vec = seq<real>

  // A matrix is the sequence of its rows, all of length n.
  ghost predicate Rows(m: seq<Vec>, n: nat) {
    forall i | 0 <= i < |m| :: |m[i]| == n
  }

  function Zero(n: nat): (v: Vec)
    ensures |v| == n && forall i | 0 <= i < n :: v[i] == 0.0
  {
    seq(n, _ => 0.0)
  }

  // The k-th unit vector.
  function Unit(n: nat, k: nat): (v: Vec)
    ensures |v| == n && forall i | 0 <= i < n :: v[i] == if i == k then 1.0 else 0.0
  {
    seq(n, i => if i == k then 1.0 else 0.0)
  }

  // u + c v
  function Axpy(u: Vec, c: real, v: Vec): (r: Vec)
    requires |u| == |v|
    ensures |r| == |u| && forall i | 0 <= i < |u| :: r[i] == u[i] + c * v[i]
  {
    seq(|u|, i requires 0 <= i < |u| => u[i] + c * v[i])
  }

  // The combination of the first k rows of m with coefficients x.
  function CombTo(x: Vec, m: seq<Vec>, n: nat, k: nat): (r: Vec)
    requires k <= |x| && k <= |m| && Rows(m, n)
    ensures |r| == n
  {
    if k == 0 then Zero(n) else Axpy(CombTo(x, m, n, k - 1), x[k - 1], m[k - 1])
  }

  // The product of the row vector x with the matrix m.
  function Comb(x: Vec, m: seq<Vec>, n: nat): (r: Vec)
    requires |x| == |m| && Rows(m, n)
    ensures |r| == n
  {
    CombTo(x, m, n, |x|)
  }

  function DotTo(u: Vec, v: Vec, k: nat): real
    requires k <= |u| && k <= |v|
  {
    if k == 0 then 0.0 else DotTo(u, v, k - 1) + u[k - 1] * v[k - 1]
  }

  function Dot(u: Vec, v: Vec): real
    requires |u| == |v|
  {
    DotTo(u, v, |u|)
  }

  // ---------------------------------------------------------------------
  // Linearity
  // ---------------------------------------------------------------------

  lemma Distribute(a: real, c: real, b: real, u: real, v: real, m: real)
    ensures (a + c * b) + (u + c * v) * m == (a + u * m) + c * (b + v * m)
  {
    assert (u + c * v) * m == u * m + (c * v) * m;
    assert (c * v) * m == c * (v * m);
    assert c * (b + v * m) == c * b + c * (v * m);
  }

  lemma {:induction false} CombPrefix(x: Vec, m: seq<Vec>, y: Vec, p: seq<Vec>, n: nat, k: nat)
    requires k <= |x| && k <= |m| && k <= |y| && k <= |p|
    requires Rows(m, n) && Rows(p, n)
    requires forall i | 0 <= i < k :: x[i] == y[i] && m[i] == p[i]
    ensures CombTo(x, m, n, k) == CombTo(y, p, n, k)
  {
    if k > 0 {
      CombPrefix(x, m, y, p, n, k - 1);
    }
  }

  lemma Interchange(a: Vec, c: real, b: Vec, u: real, v: real, uv: real, m: Vec)
    requires |a| == |b| == |m| && uv == u + c * v
    ensures Axpy(Axpy(a, c, b), uv, m) == Axpy(Axpy(a, u, m), c, Axpy(b, v, m))
  {
    forall j | 0 <= j < |a|
      ensures Axpy(Axpy(a, c, b), uv, m)[j] == Axpy(Axpy(a, u, m), c, Axpy(b, v, m))[j]
    {
      Distribute(a[j], c, b[j], u, v, m[j]);
    }
  }

  lemma {:induction false} CombLinearTo(u: Vec, c: real, v: Vec, m: seq<Vec>, n: nat, k: nat)
    requires |u| == |v| && k <= |u| && k <= |m| && Rows(m, n)
    ensures CombTo(Axpy(u, c, v), m, n, k) == Axpy(CombTo(u, m, n, k), c, CombTo(v, m, n, k))
  {
    if k == 0 {
      assert Axpy(Zero(n), c, Zero(n)) == Zero(n);
    } else {
      CombLinearTo(u, c, v, m, n, k - 1);
      Interchange(CombTo(u, m, n, k - 1), c, CombTo(v, m, n, k - 1),
                  u[k - 1], v[k - 1], Axpy(u, c, v)[k - 1], m[k - 1]);
    }
  }

  lemma CombLinear(u: Vec, c: real, v: Vec, m: seq<Vec>, n: nat)
    requires |u| == |v| == |m| && Rows(m, n)
    ensures Comb(Axpy(u, c, v), m, n) == Axpy(Comb(u, m, n), c, Comb(v, m, n))
  {
    CombLinearTo(u, c, v, m, n, |u|);
  }

  lemma {:induction false} CombNullTo(x: Vec, m: seq<Vec>, n: nat, k: nat)
    requires k <= |x| && k <= |m| && Rows(m, n)
    requires forall i | 0 <= i < k :: x[i] == 0.0
    ensures CombTo(x, m, n, k) == Zero(n)
  {
    if k > 0 {
      CombNullTo(x, m, n, k - 1);
    }
  }

  lemma CombZero(m: seq<Vec>, n: nat)
    requires Rows(m, n)
    ensures Comb(Zero(|m|), m, n) == Zero(n)
  {
    CombNullTo(Zero(|m|), m, n, |m|);
  }

  lemma {:induction false} CombUnitTo(b: nat, m: seq<Vec>, n: nat, k: nat)
    requires b < |m| && k <= |m| && Rows(m, n)
    ensures CombTo(Unit(|m|, b), m, n, k) == if k <= b then Zero(n) else m[b]
  {
    if k > 0 {
      CombUnitTo(b, m, n, k - 1);
    }
  }

  lemma CombUnit(b: nat, m: seq<Vec>, n: nat)
    requires b < |m| && Rows(m, n)
    ensures Comb(Unit(|m|, b), m, n) == m[b]
  {
    CombUnitTo(b, m, n, |m|);
  }

  // (x p) m == x (p m)
  lemma {:induction false} CombAssocTo(x: Vec, p: seq<Vec>, m: seq<Vec>, pm: seq<Vec>, n: nat, k: nat)
    requires k <= |x| && k <= |p| == |pm|
    requires Rows(p, |m|) && Rows(m, n) && Rows(pm, n)
    requires forall i | 0 <= i < |p| :: pm[i] == Comb(p[i], m, n)
    ensures Comb(CombTo(x, p, |m|, k), m, n) == CombTo(x, pm, n, k)
  {
    if k == 0 {
      CombZero(m, n);
    } else {
      CombAssocTo(x, p, m, pm, n, k - 1);
      CombLinear(CombTo(x, p, |m|, k - 1), x[k - 1], p[k - 1], m, n);
    }
  }

  lemma CombAssoc(x: Vec, p: seq<Vec>, m: seq<Vec>, pm: seq<Vec>, n: nat)
    requires |x| == |p| == |pm|
    requires Rows(p, |m|) && Rows(m, n) && Rows(pm, n)
    requires forall i | 0 <= i < |p| :: pm[i] == Comb(p[i], m, n)
    ensures Comb(Comb(x, p, |m|), m, n) == Comb(x, pm, n)
  {
    CombAssocTo(x, p, m, pm, n, |x|);
  }

  lemma {:induction false} DotLinearTo(u: Vec, c: real, v: Vec, f: Vec, k: nat)
    requires |u| == |v| && k <= |u| && k <= |f|
    ensures DotTo(Axpy(u, c, v), f, k) == DotTo(u, f, k) + c * DotTo(v, f, k)
  {
    if k > 0 {
      DotLinearTo(u, c, v, f, k - 1);
      Distribute(DotTo(u, f, k - 1), c, DotTo(v, f, k - 1), u[k - 1], v[k - 1], f[k - 1]);
    }
  }

  lemma DotLinear(u: Vec, c: real, v: Vec, f: Vec)
    requires |u| == |v| == |f|
    ensures Dot(Axpy(u, c, v), f) == Dot(u, f) + c * Dot(v, f)
  {
    DotLinearTo(u, c, v, f, |u|);
  }

  lemma {:induction false} DotNullTo(u: Vec, v: Vec, k: nat)
    requires k <= |u| && k <= |v|
    requires forall i | 0 <= i < k :: u[i] == 0.0 || v[i] == 0.0
    ensures DotTo(u, v, k) == 0.0
  {
    if k > 0 {
      DotNullTo(u, v, k - 1);
    }
  }

  lemma {:induction false} DotPrefix(u: Vec, v: Vec, u': Vec, v': Vec, k: nat)
    requires k <= |u| && k <= |v| && k <= |u'| && k <= |v'|
    requires forall i | 0 <= i < k :: u[i] * v[i] == u'[i] * v'[i]
    ensures DotTo(u, v, k) == DotTo(u', v', k)
  {
    if k > 0 {
      DotPrefix(u, v, u', v', k - 1);
    }
  }

  lemma {:induction false} DotCommutesTo(u: Vec, v: Vec, k: nat)
    requires k <= |u| && k <= |v|
    ensures DotTo(u, v, k) == DotTo(v, u, k)
  {
    if k > 0 {
      DotCommutesTo(u, v, k - 1);
    }
  }

  lemma {:induction false} DotUnitTo(n: nat, b: nat, v: Vec, k: nat)
    requires k <= n && |v| == n && b < n
    ensures DotTo(Unit(n, b), v, k) == if k <= b then 0.0 else v[b]
  {
    if k > 0 {
      DotUnitTo(n, b, v, k - 1);
    }
  }

  lemma {:induction false} DotScaledTo(u: Vec, c: real, v: Vec, v': Vec, k: nat)
    requires k <= |u| && k <= |v| && k <= |v'|
    requires forall i | 0 <= i < k :: v'[i] == c * v[i]
    ensures DotTo(u, v', k) == c * DotTo(u, v, k)
  {
    if k > 0 {
      DotScaledTo(u, c, v, v', k - 1);
      var d := DotTo(u, v, k - 1);
      assert c * (d + u[k - 1] * v[k - 1]) == c * d + c * (u[k - 1] * v[k - 1]);
      assert u[k - 1] * (c * v[k - 1]) == c * (u[k - 1] * v[k - 1]);
    }
  }

  // The product of the matrix m with the column vector f.
  function MatVec(m: seq<Vec>, f: Vec): (r: Vec)
    requires Rows(m, |f|)
    ensures |r| == |m| && forall i | 0 <= i < |m| :: r[i] == Dot(m[i], f)
  {
    seq(|m|, i requires 0 <= i < |m| => Dot(m[i], f))
  }

  // (x m) f == x (m f)
  lemma {:induction false} DotCombTo(x: Vec, m: seq<Vec>, f: Vec, k: nat)
    requires k <= |x| && k <= |m| && Rows(m, |f|)
    ensures Dot(CombTo(x, m, |f|, k), f) == DotTo(x, MatVec(m, f), k)
  {
    if k == 0 {
      DotNullTo(Zero(|f|), f, |f|);
    } else {
      DotCombTo(x, m, f, k - 1);
      DotLinear(CombTo(x, m, |f|, k - 1), x[k - 1], m[k - 1], f);
    }
  }

  lemma DotComb(x: Vec, m: seq<Vec>, f: Vec)
    requires |x| == |m| && Rows(m, |f|)
    ensures Dot(Comb(x, m, |f|), f) == Dot(x, MatVec(m, f))
  {
    DotCombTo(x, m, f, |x|);
  }

  // ---------------------------------------------------------------------
  // Spans
  // ---------------------------------------------------------------------

  ghost predicate InSpan(v: Vec, basis: seq<Vec>, n: nat)
    requires Rows(basis, n)
  {
    exists x: Vec :: |x| == |basis| && v == Comb(x, basis, n)
  }

  lemma SpanVec(x: Vec, basis: seq<Vec>, n: nat)
    requires Rows(basis, n) && |x| == |basis|
    ensures InSpan(Comb(x, basis, n), basis, n)
  {
  }

  lemma SpanMember(b: nat, basis: seq<Vec>, n: nat)
    requires Rows(basis, n) && b < |basis|
    ensures InSpan(basis[b], basis, n)
  {
    CombUnit(b, basis, n);
    SpanVec(Unit(|basis|, b), basis, n);
  }

  lemma SpanZero(basis: seq<Vec>, n: nat)
    requires Rows(basis, n)
    ensures InSpan(Zero(n), basis, n)
  {
    CombZero(basis, n);
    SpanVec(Zero(|basis|), basis, n);
  }

  lemma SpanAxpy(u: Vec, c: real, v: Vec, basis: seq<Vec>, n: nat)
    requires Rows(basis, n) && InSpan(u, basis, n) && InSpan(v, basis, n)
    ensures |u| == |v| == n && InSpan(Axpy(u, c, v), basis, n)
  {
    var x: Vec :| |x| == |basis| && u == Comb(x, basis, n);
    var y: Vec :| |y| == |basis| && v == Comb(y, basis, n);
    CombLinear(x, c, y, basis, n);
    SpanVec(Axpy(x, c, y), basis, n);
  }

  // A span is the smallest set closed under combinations.
  lemma {:induction false} SpanTransTo(x: Vec, basis: seq<Vec>, basis': seq<Vec>, n: nat, k: nat)
    requires Rows(basis, n) && Rows(basis', n) && k <= |x| && k <= |basis|
    requires forall b | 0 <= b < |basis| :: InSpan(basis[b], basis', n)
    ensures InSpan(CombTo(x, basis, n, k), basis', n)
  {
    if k == 0 {
      SpanZero(basis', n);
    } else {
      SpanTransTo(x, basis, basis', n, k - 1);
      SpanAxpy(CombTo(x, basis, n, k - 1), x[k - 1], basis[k - 1], basis', n);
    }
  }

  lemma SpanTrans(v: Vec, basis: seq<Vec>, basis': seq<Vec>, n: nat)
    requires Rows(basis, n) && Rows(basis', n)
    requires InSpan(v, basis, n)
    requires forall b | 0 <= b < |basis| :: InSpan(basis[b], basis', n)
    ensures InSpan(v, basis', n)
  {
    var x: Vec :| |x| == |basis| && v == Comb(x, basis, n);
    SpanTransTo(x, basis, basis', n, |x|);
  }

  lemma SpanGrows(v: Vec, basis: seq<Vec>, u: Vec, n: nat)
    requires Rows(basis, n) && |u| == n && InSpan(v, basis, n)
    ensures Rows(basis + [u], n) && InSpan(v, basis + [u], n)
  {
    forall b | 0 <= b < |basis|
      ensures InSpan(basis[b], basis + [u], n)
    {
      SpanMember(b, basis + [u], n);
    }
    SpanTrans(v, basis, basis + [u], n);
  }

  // ---------------------------------------------------------------------
  // Independence
  // ---------------------------------------------------------------------

  ghost predicate Independent(basis: seq<Vec>, n: nat)
    requires Rows(basis, n)
  {
    forall x: Vec | |x| == |basis| && Comb(x, basis, n) == Zero(n) :: x == Zero(|basis|)
  }

  // Coordinates in an independent family are unique.
  lemma UniqueCoordinates(x: Vec, y: Vec, basis: seq<Vec>, n: nat)
    requires Rows(basis, n) && Independent(basis, n)
    requires |x| == |y| == |basis| && Comb(x, basis, n) == Comb(y, basis, n)
    ensures x == y
  {
    var d := Axpy(x, -1.0, y);
    CombLinear(x, -1.0, y, basis, n);
    assert Comb(d, basis, n) == Zero(n);
    assert d == Zero(|basis|);
    forall i | 0 <= i < |x|
      ensures x[i] == y[i]
    {
      assert d[i] == x[i] + -1.0 * y[i];
    }
  }

  // The family without its last vector, whose coordinate p cleared the others'.
  function Cleared(vs: seq<Vec>, n: nat, p: nat): (r: (Vec, seq<Vec>))
    requires vs != [] && Rows(vs, n) && p < n && vs[|vs| - 1][p] != 0.0
    ensures |r.0| == |r.1| == |vs| - 1 && Rows(r.1, n)
    ensures forall i | 0 <= i < |vs| - 1 :: r.1[i] == Axpy(vs[i], r.0[i], vs[|vs| - 1])
  {
    var last := vs[|vs| - 1];
    var t := seq(|vs| - 1, i requires 0 <= i < |vs| - 1 => -(vs[i][p] / last[p]));
    (t, seq(|vs| - 1, i requires 0 <= i < |vs| - 1 => Axpy(vs[i], t[i], last)))
  }

  ghost predicate NullOutside(vs: seq<Vec>, n: nat, S: set<nat>)
    requires Rows(vs, n)
  {
    forall i, j | 0 <= i < |vs| && 0 <= j < n && j !in S :: vs[i][j] == 0.0
  }

  lemma ClearedIsNull(vs: seq<Vec>, n: nat, p: nat, S: set<nat>)
    requires vs != [] && Rows(vs, n) && p < n && vs[|vs| - 1][p] != 0.0
    requires NullOutside(vs, n, S)
    ensures p in S && NullOutside(Cleared(vs, n, p).1, n, S - {p})
  {
    var last := vs[|vs| - 1];
    var (t, vs') := Cleared(vs, n, p);
    forall i, j | 0 <= i < |vs'| && 0 <= j < n && j !in S - {p}
      ensures vs'[i][j] == 0.0
    {
      assert vs'[i][j] == vs[i][j] + t[i] * last[j];
      if j == p {
        assert vs[i][p] / last[p] * last[p] == vs[i][p];
      }
    }
  }

  // A dependence of the cleared family gives one of the whole family.
  lemma ClearedDependence(vs: seq<Vec>, n: nat, p: nat, c: Vec)
    requires vs != [] && Rows(vs, n) && p < n && vs[|vs| - 1][p] != 0.0
    requires |c| == |vs| - 1 && Comb(c, Cleared(vs, n, p).1, n) == Zero(n)
    ensures Comb(c + [Dot(c, Cleared(vs, n, p).0)], vs, n) == Zero(n)
  {
    var last, r := vs[|vs| - 1], |vs| - 1;
    var (t, vs') := Cleared(vs, n, p);
    CombShifted(c, vs, t, last, vs', n, r);
    CombPrefix(c + [Dot(c, t)], vs, c, vs, n, r);
  }

  // Vectors with fewer nonzero coordinates than vectors are dependent.
  lemma {:induction false} Dependent(vs: seq<Vec>, n: nat, S: set<nat>) returns (c: Vec)
    requires Rows(vs, n) && |S| < |vs| && NullOutside(vs, n, S)
    ensures |c| == |vs| && Comb(c, vs, n) == Zero(n)
    ensures exists i :: 0 <= i < |c| && c[i] != 0.0
    decreases |vs|
  {
    var r := |vs| - 1;
    if forall j | 0 <= j < n :: vs[r][j] == 0.0 {
      c := Unit(|vs|, r);
      CombUnit(r, vs, n);
      assert vs[r] == Zero(n);
      assert c[r] != 0.0;
    } else {
      var p :| 0 <= p < n && vs[r][p] != 0.0;
      ClearedIsNull(vs, n, p, S);
      var c' := Dependent(Cleared(vs, n, p).1, n, S - {p});
      ClearedDependence(vs, n, p, c');
      c := c' + [Dot(c', Cleared(vs, n, p).0)];
      var i :| 0 <= i < r && c'[i] != 0.0;
      assert c[i] != 0.0;
    }
  }

  // Adding multiples of one vector to every row.
  lemma {:induction false} CombShifted(x: Vec, m: seq<Vec>, t: Vec, v: Vec, m': seq<Vec>, n: nat, k: nat)
    requires k <= |x| && k <= |m| && k <= |t| && k <= |m'| && |v| == n
    requires Rows(m, n) && Rows(m', n)
    requires forall i | 0 <= i < k :: m'[i] == Axpy(m[i], t[i], v)
    ensures CombTo(x, m', n, k) == Axpy(CombTo(x, m, n, k), DotTo(x, t, k), v)
  {
    if k > 0 {
      CombShifted(x, m, t, v, m', n, k - 1);
      assert m'[k - 1] == Axpy(m[k - 1], t[k - 1], v);
      var a, d := CombTo(x, m, n, k - 1), DotTo(x, t, k - 1);
      ShiftVector(a, d, v, x[k - 1], m[k - 1], t[k - 1], DotTo(x, t, k));
    }
  }

  lemma ShiftVector(a: Vec, d: real, v: Vec, x: real, m: Vec, t: real, e: real)
    requires |a| == |v| == |m| && e == d + x * t
    ensures Axpy(Axpy(a, d, v), x, Axpy(m, t, v)) == Axpy(Axpy(a, x, m), e, v)
  {
    forall j | 0 <= j < |a|
      ensures Axpy(Axpy(a, d, v), x, Axpy(m, t, v))[j] == Axpy(Axpy(a, x, m), e, v)[j]
    {
      ShiftEntry(a[j], d, v[j], x, m[j], t);
    }
  }

  lemma ShiftEntry(a: real, d: real, v: real, x: real, m: real, t: real)
    ensures (a + d * v) + x * (m + t * v) == (a + x * m) + (d + x * t) * v
  {
    assert x * (m + t * v) == x * m + x * (t * v);
    assert x * (t * v) == (x * t) * v;
    assert (d + x * t) * v == d * v + (x * t) * v;
  }
}
