// Scaled bases and the elementary steps of vcsn/algos/reduce.hh over a field:
// choice of a pivot, reduction, normalisation, bottom-up reduction.
module Elimination {
  import opened Linear

  // A permutation of the coordinates.
  ghost predicate Permutation(p: seq<nat>, n: nat) {
    && |p| == n
    && (forall i | 0 <= i < n :: p[i] < n)
    && (forall i, j | 0 <= i < j < n :: p[i] != p[j])
    && (forall j: nat | j < n :: j in p)
  }

  lemma IndexIn(p: seq<nat>, n: nat, j: nat) returns (k: nat)
    requires Permutation(p, n) && j < n
    ensures k < n && p[k] == j
  {
    assert j in p;
    k :| k < |p| && p[k] == j;
  }

  // v vanishes on the first k permuted coordinates.
  ghost predicate NullBefore(v: Vec, p: seq<nat>, n: nat, k: nat)
    requires Permutation(p, n) && |v| == n && k <= n
  {
    forall i | 0 <= i < k :: v[p[i]] == 0.0
  }

  // The first nonzero entry of the b-th vector is 1, at index b.
  ghost predicate Scaled(basis: seq<Vec>, p: seq<nat>, n: nat)
    requires Permutation(p, n)
  {
    && |basis| <= n
    && Rows(basis, n)
    && forall b | 0 <= b < |basis| :: basis[b][p[b]] == 1.0 && NullBefore(basis[b], p, n, b)
  }

  lemma {:induction false} IdentityPermutation(n: nat)
    ensures Permutation(seq(n, i => i), n)
  {
    var p := seq(n, i => i);
    forall j: nat | j < n
      ensures j in p
    {
      assert p[j] == j;
    }
  }

  lemma SwapPermutation(p: seq<nat>, n: nat, i: nat, j: nat)
    requires Permutation(p, n) && i < n && j < n
    ensures Permutation(p[i := p[j]][j := p[i]], n)
  {
    var q := p[i := p[j]][j := p[i]];
    forall x: nat | x < n
      ensures x in q
    {
      var k := IndexIn(p, n, x);
      assert q[if k == i then j else if k == j then i else k] == x;
    }
  }

  // A vector null on all the coordinates is null.
  lemma NullEverywhere(v: Vec, p: seq<nat>, n: nat)
    requires Permutation(p, n) && |v| == n && NullBefore(v, p, n, n)
    ensures v == Zero(n)
  {
    forall j | 0 <= j < n
      ensures v[j] == 0.0
    {
      var i := IndexIn(p, n, j);
    }
  }

  // ---------------------------------------------------------------------
  // Scaled families are independent
  // ---------------------------------------------------------------------

  lemma {:induction false} PivotEntryTo(x: Vec, basis: seq<Vec>, p: seq<nat>, n: nat, b: nat, k: nat)
    requires Permutation(p, n) && Scaled(basis, p, n) && |x| == |basis|
    requires b < |basis| && k <= |basis|
    requires forall c | 0 <= c < b :: x[c] == 0.0
    ensures CombTo(x, basis, n, k)[p[b]] == if k <= b then 0.0 else x[b]
  {
    if k > 0 {
      PivotEntryTo(x, basis, p, n, b, k - 1);
      var c := k - 1;
      if c > b {
        assert NullBefore(basis[c], p, n, c);
        assert basis[c][p[b]] == 0.0;
      }
    }
  }

  lemma {:induction false} NullPivotsNullTo(x: Vec, basis: seq<Vec>, p: seq<nat>, n: nat, k: nat)
    requires Permutation(p, n) && Scaled(basis, p, n) && |x| == |basis| && k <= |basis|
    requires forall b | 0 <= b < |basis| :: Comb(x, basis, n)[p[b]] == 0.0
    ensures forall c | 0 <= c < k :: x[c] == 0.0
  {
    if k > 0 {
      NullPivotsNullTo(x, basis, p, n, k - 1);
      PivotEntryTo(x, basis, p, n, k - 1, |x|);
    }
  }

  // A combination that vanishes on the pivots is trivial.
  lemma NullPivots(x: Vec, basis: seq<Vec>, p: seq<nat>, n: nat)
    requires Permutation(p, n) && Scaled(basis, p, n) && |x| == |basis|
    requires NullBefore(Comb(x, basis, n), p, n, |basis|)
    ensures x == Zero(|basis|)
  {
    NullPivotsNullTo(x, basis, p, n, |basis|);
  }

  lemma ScaledIndependent(basis: seq<Vec>, p: seq<nat>, n: nat)
    requires Permutation(p, n) && Scaled(basis, p, n)
    ensures Independent(basis, n)
  {
    forall x: Vec | |x| == |basis| && Comb(x, basis, n) == Zero(n)
      ensures x == Zero(|basis|)
    {
      NullPivots(x, basis, p, n);
    }
  }

  // A vector of the span that vanishes on the pivots is null.
  lemma ResidualNull(v: Vec, basis: seq<Vec>, p: seq<nat>, n: nat)
    requires Permutation(p, n) && Scaled(basis, p, n) && |v| == n
    requires InSpan(v, basis, n) && NullBefore(v, p, n, |basis|)
    ensures v == Zero(n)
  {
    var x: Vec :| |x| == |basis| && v == Comb(x, basis, n);
    NullPivots(x, basis, p, n);
    CombZero(basis, n);
  }

  // ---------------------------------------------------------------------
  // Elementary steps
  // ---------------------------------------------------------------------

  function Abs(x: real): real {
    if x < 0.0 then -x else x
  }

  // The lesser the norm, the better the pivot.
  function Norm(x: real): real
    requires x != 0.0
  {
    Abs(x) + Abs(1.0 / x)
  }

  lemma Inverse(x: real)
    requires x > 0.0
    ensures 1.0 / x > 0.0 && x * (1.0 / x) == 1.0
  {
  }

  // The norm does not see signs, nor inverses.
  lemma NormSymmetric(x: real)
    requires x != 0.0
    ensures Norm(-x) == Norm(x) && Norm(1.0 / x) == Norm(x)
  {
    var y := 1.0 / x;
    assert x * y == 1.0;
    assert 1.0 / -x == -y && 1.0 / y == x;
  }

  lemma NormPositive(x: real)
    requires x > 0.0
    ensures Norm(x) == x + 1.0 / x
  {
    Inverse(x);
  }

  // It is least for one, and grows from there on.
  lemma NormGrows(x: real, y: real)
    requires 1.0 <= x < y
    ensures Norm(1.0) == 2.0 && Norm(x) < Norm(y)
  {
    Inverse(x);
    Inverse(y);
    SumGrows(x, y, 1.0 / x, 1.0 / y);
    NormPositive(x);
    NormPositive(y);
  }

  lemma SumGrows(x: real, y: real, u: real, v: real)
    requires 1.0 <= x < y && x * u == 1.0 && y * v == 1.0 && u > 0.0 && v > 0.0
    ensures x + u < y + v
  {
    Below(x, u);
    Below(y, v);
    Smaller(u, v);
    Regroup(x, y, u, v, y - x, 1.0 - u * v);
    Product(y - x, 1.0 - u * v);
  }

  lemma Regroup(x: real, y: real, u: real, v: real, d: real, e: real)
    requires x * u == 1.0 && y * v == 1.0 && d == y - x && e == 1.0 - u * v
    ensures d * e == (y + v) - (x + u)
  {
    assert y * (u * v) == (y * v) * u == u;
    assert x * (u * v) == (x * u) * v == v;
  }

  lemma Below(x: real, u: real)
    requires 1.0 <= x && x * u == 1.0 && u > 0.0
    ensures u <= 1.0 && (1.0 < x ==> u < 1.0)
  {
    assert x * u == u + (x - 1.0) * u;
    Product(x - 1.0, u);
  }

  lemma Smaller(u: real, v: real)
    requires u <= 1.0 && 0.0 < v < 1.0
    ensures u * v < 1.0
  {
    Product(1.0 - u, v);
    assert v - u * v == (1.0 - u) * v;
  }

  lemma Product(x: real, y: real)
    requires x >= 0.0 && y >= 0.0
    ensures x * y >= 0.0 && (x > 0.0 && y > 0.0 ==> x * y > 0.0)
  {
  }

  // The first nonzero entry of minimal norm from index begin on, or n.
  method FindPivotByNorm(v: Vec, begin: nat, p: seq<nat>, n: nat) returns (pivot: nat)
    requires Permutation(p, n) && |v| == n && begin <= n
    ensures pivot == n <==> forall i | begin <= i < n :: v[p[i]] == 0.0
    ensures pivot != n ==> begin <= pivot < n && v[p[pivot]] != 0.0
    ensures pivot != n ==> forall i | begin <= i < n && v[p[i]] != 0.0 :: Norm(v[p[pivot]]) <= Norm(v[p[i]])
    ensures pivot != n ==> forall i | begin <= i < pivot && v[p[i]] != 0.0 :: Norm(v[p[pivot]]) < Norm(v[p[i]])
  {
    var min := 0.0;
    pivot := n;
    for i := begin to n
      invariant pivot == n <==> forall j | begin <= j < i :: v[p[j]] == 0.0
      invariant pivot != n ==> begin <= pivot < i && v[p[pivot]] != 0.0 && min == Norm(v[p[pivot]])
      invariant pivot != n ==> forall j | begin <= j < i && v[p[j]] != 0.0 :: min <= Norm(v[p[j]])
      invariant pivot != n ==> forall j | begin <= j < pivot && v[p[j]] != 0.0 :: min < Norm(v[p[j]])
    {
      if v[p[i]] != 0.0 && (pivot == n || Norm(v[p[i]]) < min) {
        pivot := i;
        min := Norm(v[p[i]]);
      }
    }
  }

  // current - current[pivot] vbasis, where pivot is the one of vbasis.
  method ReduceVector(vbasis: Vec, current: Vec, b: nat, p: seq<nat>, n: nat)
    returns (res: Vec, ratio: real)
    requires Permutation(p, n) && |vbasis| == |current| == n && b < n
    requires vbasis[p[b]] == 1.0 && NullBefore(vbasis, p, n, b)
    ensures ratio == current[p[b]]
    ensures res == Axpy(current, -ratio, vbasis)
  {
    res := current;
    var pivot := p[b];
    ratio := current[pivot];
    if ratio == 0.0 {
      assert res == Axpy(current, -ratio, vbasis);
      return;
    }
    res := res[pivot := 0.0];
    for i := b + 1 to n
      invariant |res| == n
      invariant res[pivot] == 0.0
      invariant forall k | 0 <= k < b || i <= k < n :: res[p[k]] == current[p[k]]
      invariant forall k | b < k < i :: res[p[k]] == current[p[k]] - ratio * vbasis[p[k]]
    {
      res := res[p[i] := res[p[i]] - ratio * vbasis[p[i]]];
    }
    forall j | 0 <= j < n
      ensures res[j] == Axpy(current, -ratio, vbasis)[j]
    {
      var k := IndexIn(p, n, j);
    }
  }

  // v / v[pivot]
  method NormalisationVector(v: Vec, pivot: nat, p: seq<nat>, n: nat) returns (res: Vec)
    requires Permutation(p, n) && |v| == n && pivot < n
    requires v[p[pivot]] != 0.0 && NullBefore(v, p, n, pivot)
    ensures |res| == n && res[p[pivot]] == 1.0 && NullBefore(res, p, n, pivot)
    ensures v == Axpy(Zero(n), v[p[pivot]], res)
    ensures res == Axpy(Zero(n), 1.0 / v[p[pivot]], v)
  {
    var k := v[p[pivot]];
    res := v;
    if k != 1.0 {
      res := res[p[pivot] := 1.0];
      for r := pivot + 1 to n
        invariant |res| == n
        invariant res[p[pivot]] == 1.0
        invariant forall i | 0 <= i < pivot || r <= i < n :: res[p[i]] == v[p[i]]
        invariant forall i | pivot < i < r :: res[p[i]] == v[p[i]] / k
      {
        res := res[p[r] := res[p[r]] / k];
      }
    }
    Normalised(v, k, res, p, n);
  }

  lemma Normalised(v: Vec, k: real, res: Vec, p: seq<nat>, n: nat)
    requires Permutation(p, n) && |v| == |res| == n && k != 0.0
    requires forall i | 0 <= i < n :: res[p[i]] == v[p[i]] / k
    ensures v == Axpy(Zero(n), k, res) && res == Axpy(Zero(n), 1.0 / k, v)
  {
    forall j | 0 <= j < n
      ensures v[j] == Axpy(Zero(n), k, res)[j]
      ensures res[j] == Axpy(Zero(n), 1.0 / k, v)[j]
    {
      var i := IndexIn(p, n, j);
      QuotientEntry(v[j], k);
    }
  }

  lemma QuotientEntry(x: real, k: real)
    requires k != 0.0
    ensures x == k * (x / k) && x / k == 1.0 / k * x
  {
  }

  // Reduce a vector by all the vectors of the basis: its coordinates, and
  // what remains of it.
  method VectorInNewBasis(basis: seq<Vec>, current: Vec, p: seq<nat>, n: nat)
    returns (residual: Vec, newVector: Vec)
    requires Permutation(p, n) && Scaled(basis, p, n) && |current| == n
    ensures |residual| == n && |newVector| == |basis|
    ensures NullBefore(residual, p, n, |basis|)
    ensures current == Axpy(Comb(newVector, basis, n), 1.0, residual)
  {
    residual := current;
    newVector := Zero(|basis|);
    for b := 0 to |basis|
      invariant |residual| == n && |newVector| == |basis|
      invariant NullBefore(residual, p, n, b)
      invariant current == Axpy(CombTo(newVector, basis, n, b), 1.0, residual)
    {
      var next, ratio := ReduceVector(basis[b], residual, b, p, n);
      ReductionStep(current, newVector, basis, residual, b, p, n);
      newVector := newVector[b := ratio];
      residual := next;
    }
  }

  lemma NullStep(residual: Vec, v: Vec, p: seq<nat>, n: nat, b: nat)
    requires Permutation(p, n) && |residual| == |v| == n && b < n && v[p[b]] == 1.0
    requires NullBefore(residual, p, n, b) && NullBefore(v, p, n, b)
    ensures NullBefore(Axpy(residual, -residual[p[b]], v), p, n, b + 1)
  {
  }

  lemma SplitEntry(c: real, r: real, k: real, x: real)
    ensures c + 1.0 * r == (c + k * x) + 1.0 * (r + -k * x)
  {
  }

  lemma SplitResidual(c: Vec, residual: Vec, k: real, v: Vec)
    requires |c| == |residual| == |v|
    ensures Axpy(c, 1.0, residual) == Axpy(Axpy(c, k, v), 1.0, Axpy(residual, -k, v))
  {
    forall j | 0 <= j < |c|
      ensures Axpy(c, 1.0, residual)[j] == Axpy(Axpy(c, k, v), 1.0, Axpy(residual, -k, v))[j]
    {
      SplitEntry(c[j], residual[j], k, v[j]);
    }
  }

  lemma ReductionStep(current: Vec, x: Vec, basis: seq<Vec>, residual: Vec, b: nat, p: seq<nat>, n: nat)
    requires Permutation(p, n) && Scaled(basis, p, n)
    requires |current| == |residual| == n && |x| == |basis| && b < |basis|
    requires NullBefore(residual, p, n, b)
    requires current == Axpy(CombTo(x, basis, n, b), 1.0, residual)
    ensures var ratio := residual[p[b]];
            var next := Axpy(residual, -ratio, basis[b]);
            && NullBefore(next, p, n, b + 1)
            && current == Axpy(CombTo(x[b := ratio], basis, n, b + 1), 1.0, next)
  {
    NullStep(residual, basis[b], p, n, b);
    CombPrefix(x, basis, x[b := residual[p[b]]], basis, n, b);
    SplitResidual(CombTo(x, basis, n, b), residual, residual[p[b]], basis[b]);
  }

  // Both families span the same space.
  ghost predicate SameSpan(basis: seq<Vec>, basis': seq<Vec>, n: nat) {
    && Rows(basis, n) && Rows(basis', n)
    && |basis| == |basis'|
    && (forall b | 0 <= b < |basis| :: InSpan(basis[b], basis', n))
    && (forall b | 0 <= b < |basis| :: InSpan(basis'[b], basis, n))
  }

  lemma SameSpanRefl(basis: seq<Vec>, n: nat)
    requires Rows(basis, n)
    ensures SameSpan(basis, basis, n)
  {
    forall b | 0 <= b < |basis|
      ensures InSpan(basis[b], basis, n)
    {
      SpanMember(b, basis, n);
    }
  }

  lemma SameSpanTrans(b0: seq<Vec>, b1: seq<Vec>, b2: seq<Vec>, n: nat)
    requires SameSpan(b0, b1, n) && SameSpan(b1, b2, n)
    ensures SameSpan(b0, b2, n)
  {
    forall b | 0 <= b < |b0|
      ensures InSpan(b0[b], b2, n) && InSpan(b2[b], b0, n)
    {
      SpanTrans(b0[b], b1, b2, n);
      SpanTrans(b2[b], b1, b0, n);
    }
  }

  lemma SubtractBack(u: Vec, r: real, v: Vec)
    requires |u| == |v|
    ensures Axpy(Axpy(u, -r, v), r, v) == u
  {
  }

  // The vectors before b are clear on the pivots from index b on.
  ghost predicate ClearAbove(basis: seq<Vec>, p: seq<nat>, n: nat, b: nat)
    requires Permutation(p, n) && Scaled(basis, p, n)
  {
    forall c, d | 0 <= c < d < |basis| && b <= d :: basis[c][p[d]] == 0.0
  }

  // The vectors before b, cleared at the pivot of the vector b.
  function ReducedAbove(basis: seq<Vec>, b: nat, p: seq<nat>, n: nat): (res: seq<Vec>)
    requires Rows(basis, n) && b < |basis| && b < |p| && p[b] < n
    ensures |res| == |basis| && Rows(res, n)
  {
    seq(|basis|, i requires 0 <= i < |basis| =>
      if i < b then Axpy(basis[i], -basis[i][p[b]], basis[b]) else basis[i])
  }

  lemma ReducedAboveScaled(basis: seq<Vec>, b: nat, p: seq<nat>, n: nat)
    requires Permutation(p, n) && Scaled(basis, p, n) && b < |basis|
    ensures Scaled(ReducedAbove(basis, b, p, n), p, n)
  {
    var res := ReducedAbove(basis, b, p, n);
    assert NullBefore(basis[b], p, n, b);
    forall c | 0 <= c < |res|
      ensures res[c][p[c]] == 1.0 && NullBefore(res[c], p, n, c)
    {
      assert NullBefore(basis[c], p, n, c);
    }
  }

  lemma ReducedAboveClear(basis: seq<Vec>, b: nat, p: seq<nat>, n: nat)
    requires Permutation(p, n) && Scaled(basis, p, n) && b < |basis|
    requires ClearAbove(basis, p, n, b + 1)
    requires Scaled(ReducedAbove(basis, b, p, n), p, n)
    ensures ClearAbove(ReducedAbove(basis, b, p, n), p, n, b)
  {
    var res := ReducedAbove(basis, b, p, n);
    forall c, d | 0 <= c < d < |res| && b <= d
      ensures res[c][p[d]] == 0.0
    {
      if c < b < d {
        assert basis[b][p[d]] == 0.0;
      }
    }
  }

  lemma SpanSubtract(basis: seq<Vec>, i: nat, r: real, b: nat, v: Vec, n: nat)
    requires Rows(basis, n) && i < |basis| && b < |basis|
    requires v == Axpy(basis[i], r, basis[b])
    ensures InSpan(v, basis, n)
  {
    SpanMember(i, basis, n);
    SpanMember(b, basis, n);
    SpanAxpy(basis[i], r, basis[b], basis, n);
  }

  // Subtracting multiples of another vector keeps the span.
  lemma ReducedAboveSpan(basis: seq<Vec>, b: nat, p: seq<nat>, n: nat)
    requires Rows(basis, n) && b < |basis| && b < |p| && p[b] < n
    ensures SameSpan(basis, ReducedAbove(basis, b, p, n), n)
  {
    var res := ReducedAbove(basis, b, p, n);
    forall i | 0 <= i < |basis|
      ensures InSpan(basis[i], res, n) && InSpan(res[i], basis, n)
    {
      if i < b {
        var r := basis[i][p[b]];
        SubtractBack(basis[i], r, basis[b]);
        SpanSubtract(basis, i, -r, b, res[i], n);
        SpanSubtract(res, i, r, b, basis[i], n);
      } else {
        SpanMember(i, res, n);
        SpanMember(i, basis, n);
      }
    }
  }

  // Every vector reduces the preceding ones.
  method BottomUpReduction(basis: seq<Vec>, p: seq<nat>, n: nat) returns (res: seq<Vec>)
    requires Permutation(p, n) && Scaled(basis, p, n) && basis != []
    ensures Scaled(res, p, n) && SameSpan(basis, res, n)
    ensures ClearAbove(res, p, n, 0)
  {
    res := basis;
    SameSpanRefl(basis, n);
    for b := |basis| downto 1
      invariant Scaled(res, p, n) && SameSpan(basis, res, n)
      invariant ClearAbove(res, p, n, b)
    {
      ghost var before := res;
      ReducedAboveScaled(before, b, p, n);
      ReducedAboveClear(before, b, p, n);
      ReducedAboveSpan(before, b, p, n);
      SameSpanTrans(basis, before, ReducedAbove(before, b, p, n), n);
      res := ReduceAbove(res, b, p, n);
    }
  }

  method ReduceAbove(basis: seq<Vec>, b: nat, p: seq<nat>, n: nat) returns (res: seq<Vec>)
    requires Permutation(p, n) && Scaled(basis, p, n) && b < |basis|
    ensures res == ReducedAbove(basis, b, p, n)
  {
    res := basis;
    for c := 0 to b
      invariant |res| == |basis|
      invariant forall i | 0 <= i < |basis| ::
                  res[i] == if i < c then ReducedAbove(basis, b, p, n)[i] else basis[i]
    {
      assert NullBefore(res[b], p, n, b);
      var reduced, _ := ReduceVector(res[b], res[c], b, p, n);
      res := res[c := reduced];
    }
  }
}
