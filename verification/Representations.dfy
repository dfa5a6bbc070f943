// Linear representations of series, and what makes one of them minimal.
module Representations {
  import opened Linear
  import opened Words

  type Letter = nat

  // The series of a word w = a1...ak is init . mu(a1) ... mu(ak) . fin.
  // A letter without matrix has the null one.
  datatype Rep = Rep(dim: nat, init: Vec, fin: Vec, mu: map<Letter, seq<Vec>>) {

    ghost predicate Valid() {
      && |init| == dim
      && |fin| == dim
      && forall a <- mu :: |mu[a]| == dim && Rows(mu[a], dim)
    }

    function Mat(a: Letter): (m: seq<Vec>)
      requires Valid()
      ensures |m| == dim && Rows(m, dim)
    {
      if a in mu then mu[a] else seq(dim, _ => Linear.Zero(dim))
    }

    // One step of the row vector v.
    function Act(v: Vec, a: Letter): (r: Vec)
      requires Valid() && |v| == dim
      ensures |r| == dim
    {
      Comb(v, Mat(a), dim)
    }

    // The weight of w from the row vector v.
    function Out(v: Vec, w: seq<Letter>): real
      requires Valid() && |v| == dim
      decreases |w|
    {
      if w == [] then Dot(v, fin) else Out(Act(v, w[0]), w[1..])
    }

    function Series(w: seq<Letter>): real
      requires Valid()
    {
      Out(init, w)
    }

    // Two representations of one series.
    ghost predicate SameSeries(that: Rep)
      requires Valid() && that.Valid()
    {
      forall w: seq<Letter> :: Series(w) == that.Series(w)
    }
  }

  lemma ActLinear(rep: Rep, u: Vec, c: real, v: Vec, l: Letter)
    requires rep.Valid() && |u| == |v| == rep.dim
    ensures rep.Act(Axpy(u, c, v), l) == Axpy(rep.Act(u, l), c, rep.Act(v, l))
  {
    CombLinear(u, c, v, rep.Mat(l), rep.dim);
  }

  lemma {:induction false} OutLinear(rep: Rep, u: Vec, c: real, v: Vec, w: seq<Letter>)
    requires rep.Valid() && |u| == |v| == rep.dim
    ensures rep.Out(Axpy(u, c, v), w) == rep.Out(u, w) + c * rep.Out(v, w)
    decreases |w|
  {
    if w == [] {
      DotLinear(u, c, v, rep.fin);
    } else {
      ActLinear(rep, u, c, v, w[0]);
      OutLinear(rep, rep.Act(u, w[0]), c, rep.Act(v, w[0]), w[1..]);
    }
  }

  lemma {:induction false} OutZero(rep: Rep, w: seq<Letter>)
    requires rep.Valid()
    ensures rep.Out(Zero(rep.dim), w) == 0.0
    decreases |w|
  {
    if w == [] {
      DotNullTo(Zero(rep.dim), rep.fin, rep.dim);
    } else {
      CombZero(rep.Mat(w[0]), rep.dim);
      OutZero(rep, w[1..]);
    }
  }

  // ---------------------------------------------------------------------
  // Formal combinations of words, and the vectors they reach
  // ---------------------------------------------------------------------

  datatype Combination =
    | Nothing
    | Empty                                          // the empty word
    | Then(d: Combination, a: Letter)                // d followed by a
    | Add(d: Combination, c: real, e: Combination)   // d + c e

  // The combination of the vectors init . mu(w).
  function Value(rep: Rep, d: Combination): (v: Vec)
    requires rep.Valid()
    ensures |v| == rep.dim
  {
    match d
    case Nothing => Zero(rep.dim)
    case Empty => rep.init
    case Then(e, a) => rep.Act(Value(rep, e), a)
    case Add(e, c, f) => Axpy(Value(rep, e), c, Value(rep, f))
  }

  // v is in the span of the vectors init . mu(w).
  ghost predicate Reached(rep: Rep, v: Vec)
    requires rep.Valid()
  {
    exists d :: Value(rep, d) == v
  }

  // Every vector is reached.
  ghost predicate Full(rep: Rep)
    requires rep.Valid()
  {
    forall i | 0 <= i < rep.dim :: Reached(rep, Unit(rep.dim, i))
  }

  // No nonzero vector gives the null weight to every word.
  ghost predicate Observable(rep: Rep)
    requires rep.Valid()
  {
    forall x: Vec | |x| == rep.dim && (forall w: seq<Letter> :: rep.Out(x, w) == 0.0) :: x == Zero(rep.dim)
  }

  lemma ReachedAxpy(rep: Rep, u: Vec, c: real, v: Vec)
    requires rep.Valid() && Reached(rep, u) && Reached(rep, v)
    ensures |u| == |v| && Reached(rep, Axpy(u, c, v))
  {
    var d :| Value(rep, d) == u;
    var e :| Value(rep, e) == v;
    assert Value(rep, Add(d, c, e)) == Axpy(u, c, v);
  }

  lemma ReachedAct(rep: Rep, v: Vec, a: Letter)
    requires rep.Valid() && Reached(rep, v)
    ensures |v| == rep.dim && Reached(rep, rep.Act(v, a))
  {
    var d :| Value(rep, d) == v;
    assert Value(rep, Then(d, a)) == rep.Act(v, a);
  }

  lemma OutPrepend(rep: Rep, v: Vec, a: Letter, w: seq<Letter>)
    requires rep.Valid() && |v| == rep.dim
    ensures rep.Out(v, [a] + w) == rep.Out(rep.Act(v, a), w)
  {
    assert ([a] + w)[1..] == w;
  }

  // What a combination outputs depends on the series only.
  lemma {:induction false} ValueOut(r1: Rep, r2: Rep, d: Combination, w: seq<Letter>)
    requires r1.Valid() && r2.Valid() && r1.SameSeries(r2)
    ensures r1.Out(Value(r1, d), w) == r2.Out(Value(r2, d), w)
    decreases d
  {
    match d
    case Nothing =>
      OutZero(r1, w);
      OutZero(r2, w);
    case Empty =>
      assert r1.Series(w) == r2.Series(w);
    case Then(e, a) =>
      ValueOut(r1, r2, e, [a] + w);
      ThenOut(r1, r2, e, a, w);
    case Add(e, c, f) =>
      ValueOut(r1, r2, e, w);
      ValueOut(r1, r2, f, w);
      AddOut(r1, r2, e, c, f, w);
  }

  lemma ThenOut(r1: Rep, r2: Rep, e: Combination, a: Letter, w: seq<Letter>)
    requires r1.Valid() && r2.Valid() && r1.Out(Value(r1, e), [a] + w) == r2.Out(Value(r2, e), [a] + w)
    ensures r1.Out(Value(r1, Then(e, a)), w) == r2.Out(Value(r2, Then(e, a)), w)
  {
    OutPrepend(r1, Value(r1, e), a, w);
    OutPrepend(r2, Value(r2, e), a, w);
  }

  lemma AddOut(r1: Rep, r2: Rep, e: Combination, c: real, f: Combination, w: seq<Letter>)
    requires r1.Valid() && r2.Valid()
    requires r1.Out(Value(r1, e), w) == r2.Out(Value(r2, e), w) && r1.Out(Value(r1, f), w) == r2.Out(Value(r2, f), w)
    ensures r1.Out(Value(r1, Add(e, c, f)), w) == r2.Out(Value(r2, Add(e, c, f)), w)
  {
    ValueAdd(r1, e, c, f, w);
    ValueAdd(r2, e, c, f, w);
  }

  // x + c y
  function Plus(x: real, c: real, y: real): real {
    x + c * y
  }

  lemma ValueAdd(r: Rep, e: Combination, c: real, f: Combination, w: seq<Letter>)
    requires r.Valid()
    ensures r.Out(Value(r, Add(e, c, f)), w) == Plus(r.Out(Value(r, e), w), c, r.Out(Value(r, f), w))
  {
    OutLinear(r, Value(r, e), c, Value(r, f), w);
  }

  // ---------------------------------------------------------------------
  // Transposition
  // ---------------------------------------------------------------------

  // The j-th column of an n-column matrix.
  function Col(m: seq<Vec>, n: nat, j: nat): (c: Vec)
    requires Rows(m, n) && j < n
    ensures |c| == |m| && forall i | 0 <= i < |m| :: c[i] == m[i][j]
  {
    seq(|m|, i requires 0 <= i < |m| => m[i][j])
  }

  function TransposeMat(m: seq<Vec>, n: nat): (t: seq<Vec>)
    requires Rows(m, n)
    ensures |t| == n && forall j | 0 <= j < n :: t[j] == Col(m, n, j)
  {
    seq(n, j requires 0 <= j < n => Col(m, n, j))
  }

  function Transpose(rep: Rep): (t: Rep)
    requires rep.Valid()
    ensures t.Valid()
  {
    Rep(rep.dim, rep.fin, rep.init, map a | a in rep.mu :: TransposeMat(rep.mu[a], rep.dim))
  }

  lemma {:induction false} CombEntry(x: Vec, m: seq<Vec>, n: nat, k: nat, j: nat)
    requires k <= |x| && k <= |m| && Rows(m, n) && j < n
    ensures CombTo(x, m, n, k)[j] == DotTo(x, Col(m, n, j), k)
  {
    if k > 0 {
      CombEntry(x, m, n, k - 1, j);
    }
  }

  // v m^T == m v
  lemma CombTranspose(v: Vec, m: seq<Vec>)
    requires Rows(m, |v|) && |m| == |v|
    ensures Comb(v, TransposeMat(m, |v|), |m|) == MatVec(m, v)
  {
    var n := |v|;
    var t := TransposeMat(m, n);
    forall j | 0 <= j < n
      ensures Comb(v, t, n)[j] == Dot(m[j], v)
    {
      CombEntry(v, t, n, n, j);
      assert Col(t, n, j) == m[j];
      DotCommutesTo(v, m[j], n);
    }
  }

  lemma TransposeAct(rep: Rep, v: Vec, a: Letter)
    requires rep.Valid() && |v| == rep.dim
    ensures Transpose(rep).Act(v, a) == MatVec(rep.Mat(a), v)
  {
    CombTranspose(v, rep.Mat(a));
    if a !in rep.mu {
      assert forall j | 0 <= j < rep.dim :: Col(rep.Mat(a), rep.dim, j) == Zero(rep.dim);
    }
    assert Transpose(rep).Mat(a) == TransposeMat(rep.Mat(a), rep.dim);
  }

  // mu(w) . fin
  function Column(rep: Rep, w: seq<Letter>): (c: Vec)
    requires rep.Valid()
    ensures |c| == rep.dim
    decreases |w|
  {
    if w == [] then rep.fin else MatVec(rep.Mat(w[0]), Column(rep, w[1..]))
  }

  lemma {:induction false} OutIsColumn(rep: Rep, v: Vec, w: seq<Letter>)
    requires rep.Valid() && |v| == rep.dim
    ensures rep.Out(v, w) == Dot(v, Column(rep, w))
    decreases |w|
  {
    if w != [] {
      OutIsColumn(rep, rep.Act(v, w[0]), w[1..]);
      DotComb(v, rep.Mat(w[0]), Column(rep, w[1..]));
    }
  }

  // v . mu(w)
  function Walk(rep: Rep, v: Vec, w: seq<Letter>): (r: Vec)
    requires rep.Valid() && |v| == rep.dim
    ensures |r| == rep.dim
    decreases |w|
  {
    if w == [] then v else Walk(rep, rep.Act(v, w[0]), w[1..])
  }

  lemma {:induction false} OutIsWalk(rep: Rep, v: Vec, w: seq<Letter>)
    requires rep.Valid() && |v| == rep.dim
    ensures rep.Out(v, w) == Dot(Walk(rep, v, w), rep.fin)
    decreases |w|
  {
    if w != [] {
      OutIsWalk(rep, rep.Act(v, w[0]), w[1..]);
    }
  }

  lemma {:induction false} WalkAppend(rep: Rep, v: Vec, w: seq<Letter>, a: Letter)
    requires rep.Valid() && |v| == rep.dim
    ensures Walk(rep, v, w + [a]) == rep.Act(Walk(rep, v, w), a)
    decreases |w|
  {
    if w == [] {
      assert w + [a] == [a];
      assert [a][1..] == [];
    } else {
      assert (w + [a])[1..] == w[1..] + [a];
      WalkAppend(rep, rep.Act(v, w[0]), w[1..], a);
    }
  }

  lemma {:induction false} TransposeWalk(rep: Rep, w: seq<Letter>)
    requires rep.Valid()
    ensures Walk(Transpose(rep), rep.fin, Reverse(w)) == Column(rep, w)
    decreases |w|
  {
    if w != [] {
      var t := Transpose(rep);
      TransposeWalk(rep, w[1..]);
      WalkAppend(t, rep.fin, Reverse(w[1..]), w[0]);
      TransposeAct(rep, Column(rep, w[1..]), w[0]);
    }
  }

  // Transposing a representation reverses the words.
  lemma TransposeSeries(rep: Rep, w: seq<Letter>)
    requires rep.Valid()
    ensures Transpose(rep).Series(w) == rep.Series(Reverse(w))
  {
    var t, u := Transpose(rep), Reverse(w);
    ReverseTwice(w);
    TransposeWalk(rep, u);
    OutIsWalk(t, t.init, w);
    OutIsColumn(rep, rep.init, u);
    DotCommutesTo(Column(rep, u), rep.init, rep.dim);
  }

  lemma {:induction false} OutIgnoresInit(rep: Rep, init: Vec, v: Vec, w: seq<Letter>)
    requires rep.Valid() && |init| == |v| == rep.dim
    ensures rep.(init := init).Valid() && rep.(init := init).Out(v, w) == rep.Out(v, w)
    decreases |w|
  {
    if w != [] {
      assert rep.(init := init).Act(v, w[0]) == rep.Act(v, w[0]);
      OutIgnoresInit(rep, init, rep.Act(v, w[0]), w[1..]);
    }
  }

  lemma {:induction false} ValueIgnoresFin(rep: Rep, fin: Vec, d: Combination)
    requires rep.Valid() && |fin| == rep.dim
    ensures rep.(fin := fin).Valid() && Value(rep.(fin := fin), d) == Value(rep, d)
    decreases d
  {
    match d
    case Nothing =>
    case Empty =>
    case Then(e, a) =>
      ValueIgnoresFin(rep, fin, e);
      assert rep.(fin := fin).Mat(a) == rep.Mat(a);
    case Add(e, c, f) =>
      ValueIgnoresFin(rep, fin, e);
      ValueIgnoresFin(rep, fin, f);
  }

  const NullRep := Rep(0, [], [], map[])

  lemma {:induction false} NullOut(w: seq<Letter>)
    ensures NullRep.Valid() && NullRep.Out([], w) == 0.0
    decreases |w|
  {
    if w != [] {
      assert NullRep.Act([], w[0]) == [];
      NullOut(w[1..]);
    }
  }

  // If every vector is reached, then the transposed representation separates
  // the vectors.
  lemma FullTransposeObservable(rep: Rep)
    requires rep.Valid() && Full(rep)
    ensures Observable(Transpose(rep))
  {
    var t := Transpose(rep);
    forall y: Vec | |y| == t.dim && (forall w: seq<Letter> :: t.Out(y, w) == 0.0)
      ensures y == Zero(t.dim)
    {
      var rep' := rep.(fin := y);
      assert Transpose(rep') == t.(init := y);
      forall w: seq<Letter>
        ensures rep'.Series(w) == NullRep.Series(w)
      {
        ReverseTwice(w);
        TransposeSeries(rep', Reverse(w));
        OutIgnoresInit(t, y, y, Reverse(w));
        NullOut(w);
      }
      forall i | 0 <= i < t.dim
        ensures y[i] == 0.0
      {
        UnitAnnihilated(rep, y, i);
      }
    }
  }

  lemma UnitAnnihilated(rep: Rep, y: Vec, i: nat)
    requires rep.Valid() && Full(rep) && |y| == rep.dim && i < rep.dim
    requires rep.(fin := y).Valid() && NullRep.Valid() && rep.(fin := y).SameSeries(NullRep)
    ensures y[i] == 0.0
  {
    assert Reached(rep, Unit(rep.dim, i));
    var d :| Value(rep, d) == Unit(rep.dim, i);
    ValueIgnoresFin(rep, y, d);
    ValueOut(rep.(fin := y), NullRep, d, []);
    NullOut([]);
    DotUnitTo(rep.dim, i, y, rep.dim);
  }

  // ---------------------------------------------------------------------
  // Minimality
  // ---------------------------------------------------------------------

  // The combination sum of c[i] ds[i], i < k.
  function Fold(c: Vec, ds: seq<Combination>, k: nat): Combination
    requires k <= |c| && k <= |ds|
  {
    if k == 0 then Nothing else Add(Fold(c, ds, k - 1), c[k - 1], ds[k - 1])
  }

  ghost function Values(rep: Rep, ds: seq<Combination>): (vs: seq<Vec>)
    requires rep.Valid()
    ensures |vs| == |ds| && Rows(vs, rep.dim)
    ensures forall i | 0 <= i < |ds| :: vs[i] == Value(rep, ds[i])
  {
    seq(|ds|, i requires 0 <= i < |ds| => Value(rep, ds[i]))
  }

  lemma {:induction false} FoldValue(rep: Rep, c: Vec, ds: seq<Combination>, k: nat)
    requires rep.Valid() && k <= |c| && k <= |ds|
    ensures Value(rep, Fold(c, ds, k)) == CombTo(c, Values(rep, ds), rep.dim, k)
  {
    if k > 0 {
      FoldValue(rep, c, ds, k - 1);
    }
  }

  // Combining the unit vectors gives the coefficients back.
  lemma {:induction false} CombUnits(c: Vec, units: seq<Vec>, k: nat)
    requires |c| == |units| && k <= |c| && Rows(units, |c|)
    requires forall i | 0 <= i < |c| :: units[i] == Unit(|c|, i)
    ensures forall j | 0 <= j < |c| :: CombTo(c, units, |c|, k)[j] == if j < k then c[j] else 0.0
  {
    if k > 0 {
      CombUnits(c, units, k - 1);
    }
  }

  ghost function Indices(n: nat): (S: set<nat>)
    ensures |S| == n && forall i: nat :: i in S <==> i < n
  {
    if n == 0 then {} else Indices(n - 1) + {n - 1}
  }

  // A representation whose vectors are all reached and separated is minimal.
  lemma FullObservableMinimal(rep: Rep, other: Rep)
    requires rep.Valid() && other.Valid() && rep.SameSeries(other)
    requires Full(rep) && Observable(rep)
    ensures rep.dim <= other.dim
  {
    if rep.dim > other.dim {
      var ds := UnitCombinations(rep, rep.dim);
      var vs := Values(other, ds);
      var c := Dependent(vs, other.dim, Indices(other.dim));
      var d := Fold(c, ds, rep.dim);
      FoldValue(other, c, ds, rep.dim);
      FoldValue(rep, c, ds, rep.dim);
      CombUnits(c, Values(rep, ds), rep.dim);
      assert Value(rep, d) == c;
      forall w: seq<Letter>
        ensures rep.Out(c, w) == 0.0
      {
        ValueOut(rep, other, d, w);
        OutZero(other, w);
      }
    }
  }

  lemma {:induction false} UnitCombinations(rep: Rep, k: nat) returns (ds: seq<Combination>)
    requires rep.Valid() && Full(rep) && k <= rep.dim
    ensures |ds| == k && forall i | 0 <= i < k :: Value(rep, ds[i]) == Unit(rep.dim, i)
  {
    if k == 0 {
      ds := [];
    } else {
      ds := UnitCombinations(rep, k - 1);
      assert Reached(rep, Unit(rep.dim, k - 1));
      var d :| Value(rep, d) == Unit(rep.dim, k - 1);
      ds := ds + [d];
    }
  }

  // ---------------------------------------------------------------------
  // Left reduction
  // ---------------------------------------------------------------------

  // The states of red are the vectors of a basis of the space reached by rep.
  ghost predicate LeftReduction(rep: Rep, red: Rep, basis: seq<Vec>)
    requires rep.Valid() && red.Valid()
  {
    && |basis| == red.dim
    && Rows(basis, rep.dim)
    && Independent(basis, rep.dim)
    && (forall b | 0 <= b < |basis| :: Reached(rep, basis[b]))
    && Comb(red.init, basis, rep.dim) == rep.init
    && red.fin == MatVec(basis, rep.fin)
    && (forall a, b | 0 <= b < |basis| :: Comb(red.Mat(a)[b], basis, rep.dim) == rep.Act(basis[b], a))
  }

  // When the rows express what a letter does to the basis, they act as it does.
  lemma RowsAct(rep: Rep, rows: seq<Vec>, basis: seq<Vec>, x: Vec, a: Letter)
    requires rep.Valid() && Rows(basis, rep.dim) && Rows(rows, |basis|) && |rows| == |basis| == |x|
    requires forall b | 0 <= b < |basis| :: Comb(rows[b], basis, rep.dim) == rep.Act(basis[b], a)
    ensures Comb(Comb(x, rows, |basis|), basis, rep.dim) == rep.Act(Comb(x, basis, rep.dim), a)
  {
    var n := rep.dim;
    var steps := seq(|basis|, b requires 0 <= b < |basis| => rep.Act(basis[b], a));
    CombAssoc(x, rows, basis, steps, n);
    CombAssoc(x, basis, rep.Mat(a), steps, n);
  }

  lemma ReductionAct(rep: Rep, red: Rep, basis: seq<Vec>, x: Vec, a: Letter)
    requires rep.Valid() && red.Valid() && LeftReduction(rep, red, basis) && |x| == red.dim
    ensures Comb(red.Act(x, a), basis, rep.dim) == rep.Act(Comb(x, basis, rep.dim), a)
  {
    RowsAct(rep, red.Mat(a), basis, x, a);
  }

  lemma {:induction false} ReductionOut(rep: Rep, red: Rep, basis: seq<Vec>, x: Vec, w: seq<Letter>)
    requires rep.Valid() && red.Valid() && LeftReduction(rep, red, basis) && |x| == red.dim
    ensures red.Out(x, w) == rep.Out(Comb(x, basis, rep.dim), w)
    decreases |w|
  {
    if w == [] {
      DotComb(x, basis, rep.fin);
    } else {
      ReductionAct(rep, red, basis, x, w[0]);
      ReductionOut(rep, red, basis, red.Act(x, w[0]), w[1..]);
    }
  }

  // Left reduction keeps the series.
  lemma ReductionSeries(rep: Rep, red: Rep, basis: seq<Vec>)
    requires rep.Valid() && red.Valid() && LeftReduction(rep, red, basis)
    ensures red.SameSeries(rep)
  {
    forall w: seq<Letter>
      ensures red.Series(w) == rep.Series(w)
    {
      ReductionOut(rep, red, basis, red.init, w);
    }
  }

  lemma {:induction false} ReductionValue(rep: Rep, red: Rep, basis: seq<Vec>, d: Combination)
    requires rep.Valid() && red.Valid() && LeftReduction(rep, red, basis)
    ensures Comb(Value(red, d), basis, rep.dim) == Value(rep, d)
    decreases d
  {
    match d
    case Nothing => CombZero(basis, rep.dim);
    case Empty =>
    case Then(e, a) =>
      ReductionValue(rep, red, basis, e);
      ReductionAct(rep, red, basis, Value(red, e), a);
    case Add(e, c, f) =>
      ReductionValue(rep, red, basis, e);
      ReductionValue(rep, red, basis, f);
      CombLinear(Value(red, e), c, Value(red, f), basis, rep.dim);
  }

  // Every vector of a left reduction is reached.
  lemma ReductionFull(rep: Rep, red: Rep, basis: seq<Vec>)
    requires rep.Valid() && red.Valid() && LeftReduction(rep, red, basis)
    ensures Full(red)
  {
    forall b | 0 <= b < red.dim
      ensures Reached(red, Unit(red.dim, b))
    {
      var d :| Value(rep, d) == basis[b];
      ReductionValue(rep, red, basis, d);
      CombUnit(b, basis, rep.dim);
      UniqueCoordinates(Value(red, d), Unit(red.dim, b), basis, rep.dim);
    }
  }

  // Left reduction keeps the separation of vectors.
  lemma ReductionObservable(rep: Rep, red: Rep, basis: seq<Vec>)
    requires rep.Valid() && red.Valid() && LeftReduction(rep, red, basis)
    requires Observable(rep)
    ensures Observable(red)
  {
    forall x: Vec | |x| == red.dim && (forall w: seq<Letter> :: red.Out(x, w) == 0.0)
      ensures x == Zero(red.dim)
    {
      forall w: seq<Letter>
        ensures rep.Out(Comb(x, basis, rep.dim), w) == 0.0
      {
        ReductionOut(rep, red, basis, x, w);
      }
      assert Comb(x, basis, rep.dim) == Zero(rep.dim);
    }
  }

  // Reducing on both sides keeps the series and gives a minimal representation.
  lemma TwoSidedReduction(rep: Rep, left: Rep, leftBasis: seq<Vec>, red: Rep, basis: seq<Vec>)
    requires rep.Valid() && left.Valid() && red.Valid()
    requires LeftReduction(Transpose(rep), left, leftBasis)
    requires LeftReduction(Transpose(left), red, basis)
    ensures red.SameSeries(rep)
    ensures Full(red) && Observable(red)
  {
    ReductionSeries(Transpose(rep), left, leftBasis);
    ReductionSeries(Transpose(left), red, basis);
    forall w: seq<Letter>
      ensures red.Series(w) == rep.Series(w)
    {
      assert red.Series(w) == Transpose(left).Series(w);
      TransposeSeries(left, w);
      assert left.Series(Reverse(w)) == Transpose(rep).Series(Reverse(w));
      TransposeSeries(rep, Reverse(w));
      ReverseTwice(w);
    }
    ReductionFull(Transpose(rep), left, leftBasis);
    FullTransposeObservable(left);
    ReductionFull(Transpose(left), red, basis);
    ReductionObservable(Transpose(left), red, basis);
  }
}
