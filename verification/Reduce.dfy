// Left reduction of an automaton over a field (vcsn/algos/reduce.hh).
module Reduce {
  import opened Linear
  import opened Sets
  import opened Representations
  import opened Elimination
  import opened RealAutomata

  // Rows are stored without their null entries.
  type SparseMatrix = seq<map<nat, real>>

  function Entry(row: map<nat, real>, j: nat): real {
    if j in row then row[j] else 0.0
  }

  function DenseRow(row: map<nat, real>, n: nat): (v: Vec)
    ensures |v| == n && forall j | 0 <= j < n :: v[j] == Entry(row, j)
  {
    seq(n, j requires 0 <= j < n => Entry(row, j))
  }

  function Dense(m: SparseMatrix, n: nat): (d: seq<Vec>)
    ensures |d| == |m| && Rows(d, n) && forall i | 0 <= i < |m| :: d[i] == DenseRow(m[i], n)
  {
    seq(|m|, i requires 0 <= i < |m| => DenseRow(m[i], n))
  }

  function Put(m: SparseMatrix, i: nat, j: nat, x: real): SparseMatrix
    requires i < |m|
  {
    var row: map<nat, real> := m[i];
    m[i := row + map[j := x]]
  }

  // ---------------------------------------------------------------------
  // Growing a basis of the reached vectors
  // ---------------------------------------------------------------------

  ghost predicate AllReached(rep: Rep, basis: seq<Vec>)
    requires rep.Valid()
  {
    forall b | 0 <= b < |basis| :: Reached(rep, basis[b])
  }

  // The successors of v by the letters of S are in the span of the basis.
  ghost predicate Successors(rep: Rep, basis: seq<Vec>, v: Vec, S: set<Letter>)
    requires rep.Valid() && Rows(basis, rep.dim) && |v| == rep.dim
  {
    forall a <- S :: InSpan(rep.Act(v, a), basis, rep.dim)
  }

  // The successors of the first nb vectors are in the span of the basis.
  ghost predicate ClosedTo(rep: Rep, basis: seq<Vec>, S: set<Letter>, nb: nat)
    requires rep.Valid() && Rows(basis, rep.dim) && nb <= |basis|
  {
    forall b | 0 <= b < nb :: Successors(rep, basis, basis[b], S)
  }

  // The successors of the first nb vectors, and those of the next one by the
  // letters of `done`, are in the span of the basis.
  ghost predicate Exploring(rep: Rep, basis: seq<Vec>, nb: nat, done: set<Letter>)
    requires rep.Valid()
  {
    && Rows(basis, rep.dim)
    && nb < |basis|
    && InSpan(rep.init, basis, rep.dim)
    && ClosedTo(rep, basis, rep.mu.Keys, nb)
    && Successors(rep, basis, basis[nb], done)
  }

  // basis' is basis, possibly with one more vector.
  ghost predicate Extends(basis: seq<Vec>, basis': seq<Vec>, n: nat) {
    && Rows(basis, n) && Rows(basis', n)
    && (basis' == basis || (|basis'| == |basis| + 1 && basis'[..|basis|] == basis))
  }

  lemma SpanExtends(v: Vec, basis: seq<Vec>, basis': seq<Vec>, n: nat)
    requires Extends(basis, basis', n) && InSpan(v, basis, n)
    ensures InSpan(v, basis', n)
  {
    if basis' != basis {
      SpanGrows(v, basis, basis'[|basis|], n);
      assert basis' == basis + [basis'[|basis|]];
    }
  }

  lemma SuccessorsExtends(rep: Rep, basis: seq<Vec>, basis': seq<Vec>, v: Vec, S: set<Letter>)
    requires rep.Valid() && Extends(basis, basis', rep.dim) && |v| == rep.dim
    requires Successors(rep, basis, v, S)
    ensures Successors(rep, basis', v, S)
  {
    forall a <- S
      ensures InSpan(rep.Act(v, a), basis', rep.dim)
    {
      SpanExtends(rep.Act(v, a), basis, basis', rep.dim);
    }
  }

  lemma ClosedExtends(rep: Rep, basis: seq<Vec>, basis': seq<Vec>, S: set<Letter>, nb: nat)
    requires rep.Valid() && Extends(basis, basis', rep.dim) && nb <= |basis|
    requires ClosedTo(rep, basis, S, nb)
    ensures nb <= |basis'| && ClosedTo(rep, basis', S, nb)
  {
    forall b | 0 <= b < nb
      ensures Successors(rep, basis', basis'[b], S)
    {
      assert basis'[b] == basis[b];
      SuccessorsExtends(rep, basis, basis', basis[b], S);
    }
  }

  lemma ExploringMore(rep: Rep, basis: seq<Vec>, nb: nat, done: set<Letter>, basis': seq<Vec>, l: Letter)
    requires rep.Valid() && Exploring(rep, basis, nb, done)
    requires Extends(basis, basis', rep.dim) && InSpan(rep.Act(basis[nb], l), basis', rep.dim)
    ensures Exploring(rep, basis', nb, done + {l}) && basis'[nb] == basis[nb]
  {
    SpanExtends(rep.init, basis, basis', rep.dim);
    ClosedExtends(rep, basis, basis', rep.mu.Keys, nb);
    SuccessorsExtends(rep, basis, basis', basis[nb], done);
  }

  lemma ExploringDone(rep: Rep, basis: seq<Vec>, nb: nat)
    requires rep.Valid() && Exploring(rep, basis, nb, rep.mu.Keys)
    ensures ClosedTo(rep, basis, rep.mu.Keys, nb + 1)
  {
  }

  lemma {:induction false} ReachedCombTo(rep: Rep, basis: seq<Vec>, x: Vec, k: nat)
    requires rep.Valid() && Rows(basis, rep.dim) && k <= |x| && k <= |basis|
    requires AllReached(rep, basis)
    ensures Reached(rep, CombTo(x, basis, rep.dim, k))
  {
    if k == 0 {
      assert Value(rep, Nothing) == Zero(rep.dim);
    } else {
      ReachedCombTo(rep, basis, x, k - 1);
      ReachedAxpy(rep, CombTo(x, basis, rep.dim, k - 1), x[k - 1], basis[k - 1]);
    }
  }

  lemma SpanReached(rep: Rep, basis: seq<Vec>, v: Vec)
    requires rep.Valid() && Rows(basis, rep.dim)
    requires AllReached(rep, basis) && InSpan(v, basis, rep.dim)
    ensures Reached(rep, v)
  {
    var x: Vec :| |x| == |basis| && v == Comb(x, basis, rep.dim);
    ReachedCombTo(rep, basis, x, |x|);
  }

  // What remains of a reached vector is reached.
  lemma ResidualReached(rep: Rep, basis: seq<Vec>, current: Vec, x: Vec, residual: Vec)
    requires rep.Valid() && Rows(basis, rep.dim) && |x| == |basis| && |residual| == rep.dim
    requires AllReached(rep, basis) && Reached(rep, current)
    requires current == Axpy(Comb(x, basis, rep.dim), 1.0, residual)
    ensures Reached(rep, residual)
  {
    var c := Comb(x, basis, rep.dim);
    ReachedCombTo(rep, basis, x, |x|);
    ReachedAxpy(rep, current, -1.0, c);
    assert Axpy(current, -1.0, c) == residual;
  }

  // A vector is in the span of the basis and of what remains of it.
  lemma SpanWithResidual(current: Vec, x: Vec, basis: seq<Vec>, residual: Vec, k: real, v: Vec, n: nat)
    requires Rows(basis, n) && |x| == |basis| && |residual| == |v| == n
    requires current == Axpy(Comb(x, basis, n), 1.0, residual)
    requires residual == Axpy(Zero(n), k, v)
    ensures Rows(basis + [v], n) && InSpan(current, basis + [v], n)
  {
    var basis' := basis + [v];
    SpanVec(x, basis, n);
    SpanGrows(Comb(x, basis, n), basis, v, n);
    SpanMember(|basis|, basis', n);
    SpanZero(basis', n);
    SpanAxpy(Zero(n), k, v, basis', n);
    SpanAxpy(Comb(x, basis, n), 1.0, residual, basis', n);
  }

  // A vector fully reduced to nothing is in the span.
  lemma SpanWithoutResidual(current: Vec, x: Vec, basis: seq<Vec>, residual: Vec, n: nat)
    requires Rows(basis, n) && |x| == |basis| && residual == Zero(n)
    requires current == Axpy(Comb(x, basis, n), 1.0, residual)
    ensures InSpan(current, basis, n)
  {
    SpanVec(x, basis, n);
    assert current == Comb(x, basis, n);
  }

  // Swapping two free coordinates keeps the basis scaled.
  lemma SwapKeepsScaled(basis: seq<Vec>, p: seq<nat>, n: nat, i: nat)
    requires Permutation(p, n) && Scaled(basis, p, n) && |basis| <= i < n
    ensures var k := |basis|;
            var q := p[i := p[k]][k := p[i]];
            Permutation(q, n) && Scaled(basis, q, n)
  {
    var k := |basis|;
    var q := p[i := p[k]][k := p[i]];
    SwapPermutation(p, n, i, k);
    forall b | 0 <= b < |basis|
      ensures basis[b][q[b]] == 1.0 && NullBefore(basis[b], q, n, b)
    {
      assert NullBefore(basis[b], p, n, b);
    }
  }

  // ---------------------------------------------------------------------
  // How the basis is chosen
  // ---------------------------------------------------------------------

  // r is what remains of current, and vanishes on the pivots of the basis.
  ghost predicate Remains(basis: seq<Vec>, p: seq<nat>, n: nat, current: Vec, r: Vec)
    requires Permutation(p, n) && |basis| <= n && Rows(basis, n)
  {
    && |r| == n && NullBefore(r, p, n, |basis|)
    && exists x: Vec :: |x| == |basis| && current == Axpy(Comb(x, basis, n), 1.0, r)
  }

  // v is what remains of current, divided by its pivot: a nonzero entry of
  // least norm, the next one of p.
  ghost predicate Normalizes(basis: seq<Vec>, p: seq<nat>, n: nat, current: Vec, r: Vec, v: Vec)
    requires Permutation(p, n) && |basis| < n && Rows(basis, n)
  {
    && Remains(basis, p, n, current, r)
    && r[p[|basis|]] != 0.0 && (forall j | 0 <= j < n && r[j] != 0.0 :: Norm(r[p[|basis|]]) <= Norm(r[j]))
    && v == Axpy(Zero(n), 1.0 / r[p[|basis|]], r)
  }

  // The vector that is looked at to get the b-th one: the initial one, or a
  // successor of the i-th one.
  ghost predicate Candidate(rep: Rep, basis: seq<Vec>, b: nat, i: nat, current: Vec)
    requires rep.Valid() && Rows(basis, rep.dim) && b < |basis|
  {
    if b == 0 then current == rep.init
    else i < b && exists l :: l in rep.mu && current == rep.Act(basis[i], l)
  }

  ghost predicate GrownAt(rep: Rep, basis: seq<Vec>, p: seq<nat>, b: nat, i: nat)
    requires rep.Valid() && Permutation(p, rep.dim) && |basis| <= rep.dim && Rows(basis, rep.dim) && b < |basis|
  {
    exists current, r :: Candidate(rep, basis, b, i, current)
      && Normalizes(basis[..b], p, rep.dim, current, r, basis[b])
  }

  // The vectors come from the initial one, then from the successors of each
  // vector, one vector after the other.
  ghost predicate Grows(rep: Rep, basis: seq<Vec>, p: seq<nat>, from: seq<nat>)
    requires rep.Valid() && Permutation(p, rep.dim)
  {
    && |basis| <= rep.dim && Rows(basis, rep.dim) && |from| == |basis|
    && (forall b, c | 0 <= b < c < |basis| :: from[b] <= from[c])
    && (forall b | 0 <= b < |basis| :: GrownAt(rep, basis, p, b, from[b]))
  }

  // Said of what equals basis, so as to be looked into only where needed.
  ghost predicate Grown(rep: Rep, basis: seq<Vec>, p: seq<nat>, from: seq<nat>)
    requires rep.Valid() && Permutation(p, rep.dim)
  {
    forall vs | vs == basis :: Grows(rep, vs, p, from)
  }

  // The first k indices stay.
  ghost predicate SameFirst(p: seq<nat>, q: seq<nat>, k: nat) {
    |p| == |q| && k <= |p| && forall i | 0 <= i < k :: q[i] == p[i]
  }

  lemma NormalizesKept(basis: seq<Vec>, p: seq<nat>, q: seq<nat>, n: nat, current: Vec, r: Vec, v: Vec)
    requires Permutation(p, n) && Permutation(q, n) && |basis| < n && Rows(basis, n)
    requires Normalizes(basis, p, n, current, r, v) && SameFirst(p, q, |basis| + 1)
    ensures Normalizes(basis, q, n, current, r, v)
  {
  }

  lemma GrownAtKept(rep: Rep, basis: seq<Vec>, p: seq<nat>, b: nat, i: nat, basis': seq<Vec>, q: seq<nat>)
    requires rep.Valid() && Permutation(p, rep.dim) && |basis| <= rep.dim && Rows(basis, rep.dim) && b < |basis|
    requires GrownAt(rep, basis, p, b, i) && Permutation(q, rep.dim) && SameFirst(p, q, |basis|)
    requires |basis| <= |basis'| <= rep.dim && Rows(basis', rep.dim) && basis'[..|basis|] == basis
    ensures GrownAt(rep, basis', q, b, i)
  {
    var current, r :| Candidate(rep, basis, b, i, current) && Normalizes(basis[..b], p, rep.dim, current, r, basis[b]);
    assert basis'[..b] == basis[..b] && basis'[b] == basis[b];
    assert b > 0 ==> basis'[i] == basis[i];
    NormalizesKept(basis[..b], p, q, rep.dim, current, r, basis[b]);
    assert Candidate(rep, basis', b, i, current);
  }

  lemma GrownAtNew(rep: Rep, basis: seq<Vec>, q: seq<nat>, i: nat, current: Vec, r: Vec, v: Vec)
    requires rep.Valid() && Permutation(q, rep.dim) && |basis| < rep.dim && |v| == rep.dim && Rows(basis, rep.dim)
    requires Normalizes(basis, q, rep.dim, current, r, v) && Candidate(rep, basis + [v], |basis|, i, current)
    ensures GrownAt(rep, basis + [v], q, |basis|, i)
  {
    assert (basis + [v])[..|basis|] == basis && (basis + [v])[|basis|] == v;
  }

  lemma GrownOld(rep: Rep, basis: seq<Vec>, p: seq<nat>, from: seq<nat>, q: seq<nat>, v: Vec, b: nat)
    requires rep.Valid() && Permutation(p, rep.dim) && Permutation(q, rep.dim) && Grown(rep, basis, p, from)
    requires |basis| < rep.dim && |v| == rep.dim && Rows(basis, rep.dim) && SameFirst(p, q, |basis|) && b < |basis|
    ensures b < |from| && GrownAt(rep, basis + [v], q, b, from[b])
  {
    assert Grows(rep, basis, p, from);
    assert (basis + [v])[..|basis|] == basis;
    GrownAtKept(rep, basis, p, b, from[b], basis + [v], q);
  }

  lemma FromMore(from: seq<nat>, i: nat)
    requires (forall b, c | 0 <= b < c < |from| :: from[b] <= from[c]) && (from == [] || from[|from| - 1] <= i)
    ensures forall b, c | 0 <= b < c < |from + [i]| :: (from + [i])[b] <= (from + [i])[c]
  {
    if from != [] {
      assert forall b | 0 <= b < |from| :: from[b] <= from[|from| - 1];
    }
  }

  lemma GrownFrom(rep: Rep, basis: seq<Vec>, p: seq<nat>, from: seq<nat>)
    requires rep.Valid() && Permutation(p, rep.dim) && Grown(rep, basis, p, from)
    ensures |from| == |basis| && forall b, c | 0 <= b < c < |from| :: from[b] <= from[c]
  {
    assert Grows(rep, basis, p, from);
  }

  lemma GrownMore(rep: Rep, basis: seq<Vec>, p: seq<nat>, from: seq<nat>, i: nat, current: Vec, q: seq<nat>, r: Vec,
                  v: Vec)
    requires rep.Valid() && Permutation(p, rep.dim) && Permutation(q, rep.dim) && Grown(rep, basis, p, from)
    requires |basis| < rep.dim && |v| == rep.dim && Rows(basis, rep.dim) && SameFirst(p, q, |basis|)
    requires Normalizes(basis, q, rep.dim, current, r, v) && Candidate(rep, basis + [v], |basis|, i, current)
    requires from == [] || from[|from| - 1] <= i
    ensures Grown(rep, basis + [v], q, from + [i])
  {
    GrownFrom(rep, basis, p, from);
    FromMore(from, i);
    forall b | 0 <= b < |basis + [v]|
      ensures GrownAt(rep, basis + [v], q, b, (from + [i])[b])
    {
      if b < |basis| {
        GrownOld(rep, basis, p, from, q, v, b);
      } else {
        GrownAtNew(rep, basis, q, i, current, r, v);
      }
    }
    assert Grows(rep, basis + [v], q, from + [i]);
  }

  // The vectors come from those up to nb.
  ghost predicate FromBelow(from: seq<nat>, nb: nat) {
    forall i | 0 <= i < |from| :: from[i] <= nb
  }

  lemma GrownFirst(rep: Rep, current: Vec, p: seq<nat>, q: seq<nat>, basis: seq<Vec>) returns (from: seq<nat>)
    requires rep.Valid() && Permutation(p, rep.dim) && Permutation(q, rep.dim) && current == rep.init
    requires Extends([], basis, rep.dim) && SameFirst(p, q, 0)
    requires if basis == [] then q == p else rep.dim > 0 && exists r :: Normalizes([], q, rep.dim, current, r, basis[0])
    ensures Grown(rep, basis, q, from) && FromBelow(from, 0)
  {
    from := [];
    if basis != [] {
      var r :| Normalizes([], q, rep.dim, current, r, basis[0]);
      assert [] + [basis[0]] == basis;
      GrownMore(rep, [], p, [], 0, current, q, r, basis[0]);
      from := [0];
    }
  }

  lemma GrownNext(rep: Rep, basis: seq<Vec>, p: seq<nat>, from: seq<nat>, nb: nat, l: Letter, current: Vec,
                  q: seq<nat>, res: seq<Vec>)
    returns (from': seq<nat>)
    requires rep.Valid() && Permutation(p, rep.dim) && Permutation(q, rep.dim) && Grown(rep, basis, p, from)
    requires nb < |basis| && FromBelow(from, nb) && Extends(basis, res, rep.dim) && SameFirst(p, q, |basis|)
    requires l in rep.mu && current == rep.Act(basis[nb], l)
    requires if res == basis then q == p
             else |basis| < rep.dim && exists r :: Normalizes(basis, q, rep.dim, current, r, res[|basis|])
    ensures Grown(rep, res, q, from') && FromBelow(from', nb)
  {
    from' := from;
    if res != basis {
      var v := res[|basis|];
      var r :| Normalizes(basis, q, rep.dim, current, r, v);
      assert basis + [v] == res && (basis + [v])[nb] == basis[nb];
      assert Candidate(rep, basis + [v], |basis|, nb, current);
      GrownMore(rep, basis, p, from, nb, current, q, r, v);
      from' := from + [nb];
    }
  }

  // Each vector vanishes on the pivots of all the others.
  ghost predicate Cleared(basis: seq<Vec>, p: seq<nat>, n: nat)
    requires Permutation(p, n)
  {
    Scaled(basis, p, n) && forall c, d | 0 <= c < |basis| && 0 <= d < |basis| && c != d :: basis[c][p[d]] == 0.0
  }

  // What the reduction chooses: a basis that grows as above, of which each
  // vector is then cleared at the pivots of the others.
  ghost predicate ReducedBasis(rep: Rep, basis: seq<Vec>)
    requires rep.Valid()
  {
    exists vectors, p, from :: ReducedFrom(rep, vectors, p, from, basis)
  }

  ghost predicate ReducedFrom(rep: Rep, vectors: seq<Vec>, p: seq<nat>, from: seq<nat>, basis: seq<Vec>)
    requires rep.Valid()
  {
    && Permutation(p, rep.dim) && Grown(rep, vectors, p, from)
    && SameSpan(vectors, basis, rep.dim) && Cleared(basis, p, rep.dim)
  }

  lemma ScaledCleared(basis: seq<Vec>, p: seq<nat>, n: nat)
    requires Permutation(p, n) && Scaled(basis, p, n) && ClearAbove(basis, p, n, 0)
    ensures Cleared(basis, p, n)
  {
    forall c, d | 0 <= c < |basis| && 0 <= d < |basis| && c != d
      ensures basis[c][p[d]] == 0.0
    {
      if d < c {
        assert NullBefore(basis[c], p, n, c);
      }
    }
  }

  lemma ScaledMore(basis: seq<Vec>, p: seq<nat>, n: nat, v: Vec)
    requires Permutation(p, n) && Scaled(basis, p, n) && |basis| < n && |v| == n
    requires v[p[|basis|]] == 1.0 && NullBefore(v, p, n, |basis|)
    ensures Scaled(basis + [v], p, n) && Extends(basis, basis + [v], n)
  {
    assert (basis + [v])[..|basis|] == basis;
  }

  // Reduce `current` by the basis, and add what remains of it, if not null.
  method Insert(ghost rep: Rep, basis: seq<Vec>, current: Vec, permutation: array<nat>, n: nat)
    returns (res: seq<Vec>)
    requires rep.Valid() && rep.dim == n && |current| == n
    requires Permutation(permutation[..], n) && Scaled(basis, permutation[..], n)
    requires AllReached(rep, basis) && Reached(rep, current)
    modifies permutation
    ensures Permutation(permutation[..], n) && Scaled(res, permutation[..], n)
    ensures Extends(basis, res, n) && InSpan(current, res, n)
    ensures AllReached(rep, res)
    ensures SameFirst(old(permutation[..]), permutation[..], |basis|)
    ensures if res == basis then permutation[..] == old(permutation[..])
            else |basis| < n && exists r :: Normalizes(basis, permutation[..], n, current, r, res[|basis|])
  {
    var p := permutation[..];
    var residual, x := VectorInNewBasis(basis, current, p, n);
    ResidualReached(rep, basis, current, x, residual);
    var pivot := FindPivotByNorm(residual, |basis|, p, n);
    if pivot == n {
      NullEverywhere(residual, p, n);
      SpanWithoutResidual(current, x, basis, residual, n);
      return basis;
    }
    SwapKeepsScaled(basis, p, n, pivot);
    var q := p[pivot := p[|basis|]][|basis| := p[pivot]];
    if pivot != |basis| {
      permutation[pivot], permutation[|basis|] := permutation[|basis|], permutation[pivot];
    }
    assert permutation[..] == q;
    assert NullBefore(residual, q, n, |basis|);
    var v := NormalisationVector(residual, |basis|, q, n);
    SpanWithResidual(current, x, basis, residual, residual[q[|basis|]], v, n);
    ReachedScaled(rep, residual, 1.0 / residual[q[|basis|]]);
    AllReachedMore(rep, basis, v);
    ScaledMore(basis, q, n, v);
    res := basis + [v];
    LeastPivot(basis, p, q, n, pivot, current, x, residual, v);
  }

  lemma LeastPivot(basis: seq<Vec>, p: seq<nat>, q: seq<nat>, n: nat, pivot: nat, current: Vec, x: Vec, r: Vec, v: Vec)
    requires Permutation(p, n) && Permutation(q, n) && Rows(basis, n) && |basis| <= pivot < n && |r| == n
    requires q == p[pivot := p[|basis|]][|basis| := p[pivot]] && NullBefore(r, p, n, |basis|)
    requires |x| == |basis| && current == Axpy(Comb(x, basis, n), 1.0, r) && r[p[pivot]] != 0.0
    requires forall i | |basis| <= i < n && r[p[i]] != 0.0 :: Norm(r[p[pivot]]) <= Norm(r[p[i]])
    requires v == Axpy(Zero(n), 1.0 / r[q[|basis|]], r)
    ensures SameFirst(p, q, |basis|) && Normalizes(basis, q, n, current, r, v)
  {
    forall j | 0 <= j < n && r[j] != 0.0
      ensures Norm(r[p[pivot]]) <= Norm(r[j])
    {
      var i := IndexIn(p, n, j);
    }
    assert Remains(basis, q, n, current, r);
  }

  lemma AllReachedMore(rep: Rep, basis: seq<Vec>, v: Vec)
    requires rep.Valid() && AllReached(rep, basis) && Reached(rep, v)
    ensures AllReached(rep, basis + [v])
  {
  }

  lemma ReachedScaled(rep: Rep, v: Vec, k: real)
    requires rep.Valid() && Reached(rep, v)
    ensures |v| == rep.dim && Reached(rep, Axpy(Zero(rep.dim), k, v))
  {
    assert Value(rep, Nothing) == Zero(rep.dim);
    ReachedAxpy(rep, Zero(rep.dim), k, v);
  }

  // ---------------------------------------------------------------------
  // Sparse matrices
  // ---------------------------------------------------------------------

  // The weight of the transition from the i-th to the j-th state, if in `done`.
  ghost function EntryOf(a: Automaton, l: Letter, done: set<Edge>, i: nat, j: nat): real
    requires done <= a.transitions.Keys && i < |a.states| && j < |a.states|
  {
    var e := Edge(a.states[i], l, a.states[j]);
    if e in done then a.transitions[e] else 0.0
  }

  // The matrix holds the transitions of `done` labelled l.
  ghost predicate Holds(a: Automaton, m: SparseMatrix, l: Letter, done: set<Edge>) {
    && |m| == |a.states|
    && done <= a.transitions.Keys
    && forall i, j | 0 <= i < |a.states| && 0 <= j < |a.states| :: Entry(m[i], j) == EntryOf(a, l, done, i, j)
  }

  lemma HoldsNothing(a: Automaton, l: Letter, done: set<Edge>)
    requires done <= a.transitions.Keys && forall e <- done :: e.lbl != l
    ensures Holds(a, seq(|a.states|, _ => map[]), l, done)
  {
  }

  lemma EntryOfMore(a: Automaton, l: Letter, done: set<Edge>, e: Edge, i: nat, j: nat)
    requires done <= a.transitions.Keys && e in a.transitions && i < |a.states| && j < |a.states|
    ensures EntryOf(a, l, done + {e}, i, j)
            == if e == Edge(a.states[i], l, a.states[j]) then a.transitions[e] else EntryOf(a, l, done, i, j)
  {
  }

  lemma HoldsMore(a: Automaton, m: SparseMatrix, e: Edge, done: set<Edge>, i: nat, j: nat)
    requires a.Valid() && Holds(a, m, e.lbl, done) && e in a.transitions
    requires i < |a.states| && j < |a.states| && a.states[i] == e.src && a.states[j] == e.dst
    ensures Holds(a, Put(m, i, j, a.transitions[e]), e.lbl, done + {e})
  {
    forall i', j' | 0 <= i' < |a.states| && 0 <= j' < |a.states|
      ensures Entry(Put(m, i, j, a.transitions[e])[i'], j') == EntryOf(a, e.lbl, done + {e}, i', j')
    {
      EntryOfMore(a, e.lbl, done, e, i', j');
      assert Entry(m[i'], j') == EntryOf(a, e.lbl, done, i', j');
      if i' == i && j' == j {
      } else if i' == i {
        assert a.states[j'] != a.states[j];
      } else {
        assert a.states[i'] != a.states[i];
      }
    }
  }

  lemma HoldsSame(a: Automaton, m: SparseMatrix, l: Letter, done: set<Edge>, e: Edge)
    requires Holds(a, m, l, done) && e in a.transitions && e.lbl != l
    ensures Holds(a, m, l, done + {e})
  {
    forall i, j | 0 <= i < |a.states| && 0 <= j < |a.states|
      ensures Entry(m[i], j) == EntryOf(a, l, done + {e}, i, j)
    {
      EntryOfMore(a, l, done, e, i, j);
    }
  }

  lemma HoldsAll(a: Automaton, m: SparseMatrix, l: Letter)
    requires Holds(a, m, l, a.transitions.Keys)
    ensures Dense(m, |a.states|) == RepOf(a).Mat(l)
  {
    RepMat(a, l);
    forall i | 0 <= i < |a.states|
      ensures Dense(m, |a.states|)[i] == a.Matrix(l)[i]
    {
    }
  }

  // The matrices hold the transitions of `done`.
  ghost predicate AllHold(a: Automaton, ms: map<Letter, SparseMatrix>, done: set<Edge>) {
    && ms.Keys == (set e <- done :: e.lbl)
    && forall l <- ms :: Holds(a, ms[l], l, done)
  }

  // The matrix of l, allocated when needed.
  function MatrixFor(ms: map<Letter, SparseMatrix>, l: Letter, n: nat): SparseMatrix {
    if l in ms then ms[l] else seq(n, _ => map[])
  }

  lemma AllHoldMore(a: Automaton, ms: map<Letter, SparseMatrix>, e: Edge, done: set<Edge>, i: nat, j: nat)
    requires a.Valid() && AllHold(a, ms, done) && done <= a.transitions.Keys && e in a.transitions
    requires i < |a.states| && j < |a.states| && a.states[i] == e.src && a.states[j] == e.dst
    ensures |MatrixFor(ms, e.lbl, |a.states|)| == |a.states|
    ensures AllHold(a, ms[e.lbl := Put(MatrixFor(ms, e.lbl, |a.states|), i, j, a.transitions[e])], done + {e})
  {
    var m := MatrixFor(ms, e.lbl, |a.states|);
    if e.lbl !in ms {
      HoldsNothing(a, e.lbl, done);
    }
    HoldsMore(a, m, e, done, i, j);
    var ms' := ms[e.lbl := Put(m, i, j, a.transitions[e])];
    forall l <- ms'
      ensures Holds(a, ms'[l], l, done + {e})
    {
      if l != e.lbl {
        HoldsSame(a, ms[l], l, done, e);
      }
    }
  }

  lemma AllHoldAll(a: Automaton, ms: map<Letter, SparseMatrix>)
    requires AllHold(a, ms, a.transitions.Keys)
    ensures ms.Keys == a.Labels()
    ensures forall l <- ms :: |ms[l]| == |a.states| && Dense(ms[l], |a.states|) == RepOf(a).Mat(l)
  {
    forall l <- ms
      ensures |ms[l]| == |a.states| && Dense(ms[l], |a.states|) == RepOf(a).Mat(l)
    {
      HoldsAll(a, ms[l], l);
    }
  }

  // v, as a row, times m.
  method ProductVectorMatrix(v: Vec, m: SparseMatrix, n: nat) returns (res: Vec)
    requires |v| == |m| == n
    ensures res == Comb(v, Dense(m, n), n)
  {
    res := Zero(n);
    for i := 0 to n
      invariant res == CombTo(v, Dense(m, n), n, i)
    {
      assert Dense(m, n)[i] == DenseRow(m[i], n);
      res := AddRow(res, v[i], m[i], n);
    }
  }

  function Plus(x: real, c: real, y: real): real {
    x + c * y
  }

  lemma PlusNothing(x: real, c: real)
    ensures Plus(x, c, 0.0) == x
  {
  }

  // Add c times a row.
  method AddRow(before: Vec, c: real, row: map<nat, real>, n: nat) returns (res: Vec)
    requires |before| == n
    ensures res == Axpy(before, c, DenseRow(row, n))
  {
    res := before;
    for j := 0 to n
      invariant |res| == n
      invariant forall k | 0 <= k < j :: res[k] == Plus(before[k], c, Entry(row, k))
      invariant forall k | j <= k < n :: res[k] == before[k]
    {
      if j in row {
        res := res[j := Plus(res[j], c, row[j])];
      } else {
        PlusNothing(before[j], c);
      }
    }
    forall k | 0 <= k < n
      ensures res[k] == Axpy(before, c, DenseRow(row, n))[k]
    {
      assert DenseRow(row, n)[k] == Entry(row, k);
    }
  }

  // The sum of the products of the entries.
  method ScalarProduct(v: Vec, w: Vec) returns (res: real)
    requires |v| == |w|
    ensures res == Dot(v, w)
  {
    res := 0.0;
    for i := 0 to |v|
      invariant res == DotTo(v, w, i)
    {
      res := res + v[i] * w[i];
    }
  }

  // The vector of the weights of the states.
  method FillVector(states: seq<State>, weights: map<State, real>, stateToIndex: map<State, nat>)
    returns (v: Vec)
    requires forall i, j | 0 <= i < j < |states| :: states[i] != states[j]
    requires forall s <- weights :: s in states
    requires forall i | 0 <= i < |states| :: states[i] in stateToIndex && stateToIndex[states[i]] == i
    ensures |v| == |states|
    ensures forall i | 0 <= i < |v| :: v[i] == if states[i] in weights then weights[states[i]] else 0.0
  {
    v := Zero(|states|);
    var todo := weights.Keys;
    while todo != {}
      invariant todo <= weights.Keys && |v| == |states|
      invariant forall i | 0 <= i < |v| ::
                  v[i] == if states[i] in weights && states[i] !in todo then weights[states[i]] else 0.0
      decreases todo
    {
      var s :| s in todo;
      assert s in states;
      v := v[stateToIndex[s] := weights[s]];
      todo := todo - {s};
    }
  }

  // For each letter, its adjacency matrix.
  method FillMatrices(a: Automaton, stateToIndex: map<State, nat>) returns (ms: map<Letter, SparseMatrix>)
    requires a.Valid()
    requires forall i | 0 <= i < |a.states| :: a.states[i] in stateToIndex && stateToIndex[a.states[i]] == i
    ensures ms.Keys == a.Labels()
    ensures forall l <- ms :: |ms[l]| == |a.states| && Dense(ms[l], |a.states|) == RepOf(a).Mat(l)
  {
    ms := map[];
    var todo := a.transitions.Keys;
    while todo != {}
      invariant todo <= a.transitions.Keys
      invariant AllHold(a, ms, a.transitions.Keys - todo)
      decreases todo
    {
      var e :| e in todo;
      ms := FillEdge(a, ms, e, a.transitions.Keys - todo, stateToIndex);
      OneMore(a.transitions.Keys, todo, e);
      todo := todo - {e};
    }
    AllHoldAll(a, ms);
  }

  method FillEdge(a: Automaton, ms: map<Letter, SparseMatrix>, e: Edge, ghost done: set<Edge>,
                  stateToIndex: map<State, nat>)
    returns (res: map<Letter, SparseMatrix>)
    requires a.Valid() && AllHold(a, ms, done) && done <= a.transitions.Keys && e in a.transitions
    requires forall i | 0 <= i < |a.states| :: a.states[i] in stateToIndex && stateToIndex[a.states[i]] == i
    ensures AllHold(a, res, done + {e})
  {
    assert e.src in a.states && e.dst in a.states;
    var i, j := stateToIndex[e.src], stateToIndex[e.dst];
    AllHoldMore(a, ms, e, done, i, j);
    res := ms[e.lbl := Put(MatrixFor(ms, e.lbl, |a.states|), i, j, a.transitions[e])];
  }

  // ---------------------------------------------------------------------
  // Bases of the reached space
  // ---------------------------------------------------------------------

  // The basis generates the space reached by the representation.
  ghost predicate ReachBasis(rep: Rep, basis: seq<Vec>)
    requires rep.Valid()
  {
    && Rows(basis, rep.dim)
    && AllReached(rep, basis)
    && InSpan(rep.init, basis, rep.dim)
    && forall a, b | 0 <= b < |basis| :: InSpan(rep.Act(basis[b], a), basis, rep.dim)
  }

  // Letters without matrix add nothing.
  lemma ClosedIsReachBasis(rep: Rep, basis: seq<Vec>)
    requires rep.Valid() && Rows(basis, rep.dim)
    requires AllReached(rep, basis) && InSpan(rep.init, basis, rep.dim)
    requires ClosedTo(rep, basis, rep.mu.Keys, |basis|)
    ensures ReachBasis(rep, basis)
  {
    forall a, b | 0 <= b < |basis|
      ensures InSpan(rep.Act(basis[b], a), basis, rep.dim)
    {
      if a in rep.mu {
        assert Successors(rep, basis, basis[b], rep.mu.Keys);
      } else {
        CombOfZeros(basis[b], rep.Mat(a), rep.dim, rep.dim);
        SpanZero(basis, rep.dim);
      }
    }
  }

  lemma {:induction false} CombOfZeros(x: Vec, m: seq<Vec>, n: nat, k: nat)
    requires k <= |x| && k <= |m| && Rows(m, n)
    requires forall i | 0 <= i < |m| :: m[i] == Zero(n)
    ensures CombTo(x, m, n, k) == Zero(n)
  {
    if k > 0 {
      CombOfZeros(x, m, n, k - 1);
    }
  }

  lemma {:induction false} ActInSpan(rep: Rep, basis: seq<Vec>, basis': seq<Vec>, x: Vec, a: Letter, k: nat)
    requires rep.Valid() && Rows(basis, rep.dim) && Rows(basis', rep.dim)
    requires k <= |x| && k <= |basis|
    requires forall b | 0 <= b < |basis| :: InSpan(rep.Act(basis[b], a), basis', rep.dim)
    ensures InSpan(rep.Act(CombTo(x, basis, rep.dim, k), a), basis', rep.dim)
  {
    if k == 0 {
      CombZero(rep.Mat(a), rep.dim);
      SpanZero(basis', rep.dim);
    } else {
      ActInSpan(rep, basis, basis', x, a, k - 1);
      var c := CombTo(x, basis, rep.dim, k - 1);
      CombLinear(c, x[k - 1], basis[k - 1], rep.Mat(a), rep.dim);
      SpanAxpy(rep.Act(c, a), x[k - 1], rep.Act(basis[k - 1], a), basis', rep.dim);
    }
  }

  // Another basis of the same space will do.
  lemma ReachBasisSameSpan(rep: Rep, basis: seq<Vec>, basis': seq<Vec>)
    requires rep.Valid() && ReachBasis(rep, basis) && SameSpan(basis, basis', rep.dim)
    ensures ReachBasis(rep, basis')
  {
    var n := rep.dim;
    SpanTrans(rep.init, basis, basis', n);
    forall b | 0 <= b < |basis'|
      ensures Reached(rep, basis'[b])
    {
      SpanReached(rep, basis, basis'[b]);
    }
    forall a, b | 0 <= b < |basis'|
      ensures InSpan(rep.Act(basis'[b], a), basis', n)
    {
      SameSpanAct(rep, basis, basis', a, b);
    }
  }

  lemma SameSpanAct(rep: Rep, basis: seq<Vec>, basis': seq<Vec>, a: Letter, b: nat)
    requires rep.Valid() && ReachBasis(rep, basis) && SameSpan(basis, basis', rep.dim)
    requires b < |basis'|
    ensures InSpan(rep.Act(basis'[b], a), basis', rep.dim)
  {
    var n := rep.dim;
    var x: Vec :| |x| == |basis| && basis'[b] == Comb(x, basis, n);
    forall c | 0 <= c < |basis|
      ensures InSpan(rep.Act(basis[c], a), basis', n)
    {
      SpanTrans(rep.Act(basis[c], a), basis, basis', n);
    }
    ActInSpan(rep, basis, basis', x, a, |x|);
  }

  // ---------------------------------------------------------------------
  // Building the output automaton
  // ---------------------------------------------------------------------

  // Null weights make no transition.
  function NewTransition(a: Automaton, e: Edge, w: real): Automaton
    requires e !in a.transitions
  {
    if w == 0.0 then a else a.(transitions := a.transitions[e := w])
  }

  // The state of the b-th vector, after pre and post.
  function StateOf(b: nat): State {
    b + 2
  }

  ghost predicate OnStates(a: Automaton, r: nat) {
    && |a.states| == r
    && forall b | 0 <= b < r :: a.states[b] == StateOf(b)
  }

  // a with the first k transitions of one state and one letter.
  function WithRow(a: Automaton, src: State, l: Letter, x: Vec, k: nat): (r: Automaton)
    requires k <= |x|
    requires forall e <- a.transitions :: e.src != src || e.lbl != l
    ensures forall c | k <= c :: Edge(src, l, StateOf(c)) !in r.transitions
  {
    if k == 0 then a
    else NewTransition(WithRow(a, src, l, x, k - 1), Edge(src, l, StateOf(k - 1)), x[k - 1])
  }

  lemma {:induction false} WithRowValid(a: Automaton, src: State, l: Letter, x: Vec, k: nat)
    requires k <= |x|
    requires forall e <- a.transitions :: e.src != src || e.lbl != l
    requires a.Valid() && OnStates(a, |x|) && src in a.states
    ensures WithRow(a, src, l, x, k).Valid()
    ensures WithRow(a, src, l, x, k) == a.(transitions := WithRow(a, src, l, x, k).transitions)
  {
    if k > 0 {
      WithRowValid(a, src, l, x, k - 1);
      assert a.states[k - 1] == StateOf(k - 1);
      NewTransitionValid(WithRow(a, src, l, x, k - 1), Edge(src, l, StateOf(k - 1)), x[k - 1]);
    }
  }

  lemma NewTransitionValid(a: Automaton, e: Edge, w: real)
    requires a.Valid() && e !in a.transitions && e.src in a.states && e.dst in a.states
    ensures NewTransition(a, e, w).Valid()
    ensures NewTransition(a, e, w) == a.(transitions := NewTransition(a, e, w).transitions)
  {
  }

  lemma {:induction false} WithRowWeights(a: Automaton, src: State, l: Letter, x: Vec, k: nat, c: nat)
    requires k <= |x|
    requires forall e <- a.transitions :: e.src != src || e.lbl != l
    ensures WithRow(a, src, l, x, k).TransitionWeight(src, l, StateOf(c)) == if c < k then x[c] else 0.0
  {
    if k > 0 {
      WithRowWeights(a, src, l, x, k - 1, c);
    }
  }

  lemma {:induction false} WithRowOthers(a: Automaton, src: State, l: Letter, x: Vec, k: nat, e: Edge)
    requires k <= |x|
    requires forall e <- a.transitions :: e.src != src || e.lbl != l
    requires e.src != src || e.lbl != l
    ensures e in WithRow(a, src, l, x, k).transitions <==> e in a.transitions
    ensures e in a.transitions ==> WithRow(a, src, l, x, k).transitions[e] == a.transitions[e]
  {
    if k > 0 {
      WithRowOthers(a, src, l, x, k - 1, e);
    }
  }

  // Only the row of one state and one letter has changed.
  ghost predicate RowAdded(a: Automaton, res: Automaton, src: State, l: Letter, x: Vec) {
    && res.Valid()
    && res == a.(transitions := res.transitions)
    && res.Row(src, l) == x
    && (forall e <- res.transitions :: e in a.transitions || (e.src == src && e.lbl == l))
    && (forall s, m | s != src || m != l :: res.Row(s, m) == a.Row(s, m))
  }

  lemma WithRowAdds(a: Automaton, src: State, l: Letter, x: Vec)
    requires forall e <- a.transitions :: e.src != src || e.lbl != l
    requires a.Valid() && OnStates(a, |x|) && src in a.states
    ensures RowAdded(a, WithRow(a, src, l, x, |x|), src, l, x)
  {
    var res := WithRow(a, src, l, x, |x|);
    WithRowValid(a, src, l, x, |x|);
    forall c | 0 <= c < |x|
      ensures res.Row(src, l)[c] == x[c]
    {
      WithRowWeights(a, src, l, x, |x|, c);
      assert a.states[c] == StateOf(c);
    }
    forall e <- res.transitions
      ensures e in a.transitions || (e.src == src && e.lbl == l)
    {
      if e.src != src || e.lbl != l {
        WithRowOthers(a, src, l, x, |x|, e);
      }
    }
    forall s, m | s != src || m != l
      ensures res.Row(s, m) == a.Row(s, m)
    {
      forall c | 0 <= c < |x|
        ensures res.TransitionWeight(s, m, a.states[c]) == a.TransitionWeight(s, m, a.states[c])
      {
        WithRowOthers(a, src, l, x, |x|, Edge(s, m, a.states[c]));
      }
    }
  }

  // Add the transitions of one state and one letter.
  method NewTransitions(a: Automaton, src: State, l: Letter, coordinates: Vec) returns (res: Automaton)
    requires a.Valid() && OnStates(a, |coordinates|) && src in a.states
    requires forall e <- a.transitions :: e.src != src || e.lbl != l
    ensures RowAdded(a, res, src, l, coordinates)
  {
    res := a;
    for b := 0 to |coordinates|
      invariant res == WithRow(a, src, l, coordinates, b)
    {
      res := NewTransition(res, Edge(src, l, StateOf(b)), coordinates[b]);
    }
    WithRowAdds(a, src, l, coordinates);
  }

  // The row of the b-th state holds the coordinates of a successor.
  ghost predicate RowDone(rep: Rep, basis: seq<Vec>, a: Automaton, b: nat, l: Letter)
    requires rep.Valid() && Rows(basis, rep.dim) && |a.states| == |basis| && b < |basis|
  {
    Comb(a.Row(StateOf(b), l), basis, rep.dim) == rep.Act(basis[b], l)
  }

  // The initial weights, and the final weights of the first v states, are set.
  ghost predicate WeightsDone(rep: Rep, basis: seq<Vec>, a: Automaton, v: nat)
    requires rep.Valid() && Rows(basis, rep.dim)
  {
    && v <= |basis|
    && a.Valid() && OnStates(a, |basis|)
    && Comb(a.InitialVector(), basis, rep.dim) == rep.init
    && FinalsDone(basis, rep.fin, a.final, v)
  }

  // The rows of the first v states are done, and those of the state v for the
  // letters of `done`.
  ghost predicate RowsDone(rep: Rep, basis: seq<Vec>, a: Automaton, v: nat, done: set<Letter>)
    requires rep.Valid() && Rows(basis, rep.dim)
  {
    && v <= |basis| == |a.states|
    && (forall b, l | 0 <= b < v :: RowDone(rep, basis, a, b, l))
    && (v < |basis| ==> forall l <- done :: RowDone(rep, basis, a, v, l))
    && (forall e <- a.transitions :: e.src < StateOf(v) || (e.src == StateOf(v) && e.lbl in done))
  }

  ghost predicate Building(rep: Rep, basis: seq<Vec>, a: Automaton, v: nat, done: set<Letter>)
    requires rep.Valid() && Rows(basis, rep.dim)
  {
    WeightsDone(rep, basis, a, v) && RowsDone(rep, basis, a, v, done)
  }

  lemma BuildingRow(rep: Rep, basis: seq<Vec>, a: Automaton, v: nat, done: set<Letter>, res: Automaton, l: Letter,
                    x: Vec)
    requires rep.Valid() && Rows(basis, rep.dim) && v < |basis| && |x| == |basis|
    requires Building(rep, basis, a, v, done) && l !in done
    requires RowAdded(a, res, StateOf(v), l, x)
    requires Comb(x, basis, rep.dim) == rep.Act(basis[v], l)
    ensures Building(rep, basis, res, v, done + {l})
  {
    WeightsDoneRow(rep, basis, a, v, res);
    RowsDoneRow(rep, basis, a, v, done, res, l, x);
  }

  lemma WeightsDoneRow(rep: Rep, basis: seq<Vec>, a: Automaton, v: nat, res: Automaton)
    requires rep.Valid() && Rows(basis, rep.dim)
    requires WeightsDone(rep, basis, a, v)
    requires res.Valid() && res == a.(transitions := res.transitions)
    ensures WeightsDone(rep, basis, res, v)
  {
    assert res.InitialVector() == a.InitialVector();
  }

  lemma RowsDoneRow(rep: Rep, basis: seq<Vec>, a: Automaton, v: nat, done: set<Letter>, res: Automaton, l: Letter,
                    x: Vec)
    requires rep.Valid() && Rows(basis, rep.dim) && v < |basis| && |x| == |basis|
    requires RowsDone(rep, basis, a, v, done) && l !in done
    requires RowAdded(a, res, StateOf(v), l, x)
    requires Comb(x, basis, rep.dim) == rep.Act(basis[v], l)
    ensures RowsDone(rep, basis, res, v, done + {l})
  {
    forall b, m | 0 <= b < v
      ensures RowDone(rep, basis, res, b, m)
    {
      assert RowDone(rep, basis, a, b, m);
      assert res.Row(StateOf(b), m) == a.Row(StateOf(b), m);
    }
    forall m <- done + {l}
      ensures RowDone(rep, basis, res, v, m)
    {
      if m != l {
        assert RowDone(rep, basis, a, v, m);
        assert res.Row(StateOf(v), m) == a.Row(StateOf(v), m);
      }
    }
  }

  // Null weights make no final state.
  function SetFinal(a: Automaton, s: State, w: real): Automaton {
    if w == 0.0 then a else a.(final := a.final[s := w])
  }

  lemma RowsDoneFinal(rep: Rep, basis: seq<Vec>, a: Automaton, v: nat, res: Automaton)
    requires rep.Valid() && Rows(basis, rep.dim) && v < |basis|
    requires RowsDone(rep, basis, a, v, rep.mu.Keys)
    requires res == a.(final := res.final)
    ensures RowsDone(rep, basis, res, v + 1, {})
  {
    forall b, l | 0 <= b < v + 1
      ensures RowDone(rep, basis, res, b, l)
    {
      assert res.Row(StateOf(b), l) == a.Row(StateOf(b), l);
      if b == v && l !in rep.mu {
        EmptyRow(rep, basis, a, v, l);
      }
      assert RowDone(rep, basis, a, b, l);
    }
  }

  lemma SetFinalValid(a: Automaton, s: State, w: real)
    requires a.Valid() && s in a.states
    ensures SetFinal(a, s, w).Valid()
  {
  }

  // The final weights of the first v states are the products with fin.
  ghost predicate FinalsDone(basis: seq<Vec>, fin: Vec, final: map<State, real>, v: nat)
    requires Rows(basis, |fin|) && v <= |basis|
  {
    && (forall b | 0 <= b < v ::
          Dot(basis[b], fin) == if StateOf(b) in final then final[StateOf(b)] else 0.0)
    && (forall s <- final :: s < StateOf(v))
  }

  lemma FinalsDoneMore(basis: seq<Vec>, fin: Vec, a: Automaton, v: nat)
    requires Rows(basis, |fin|) && v < |basis|
    requires FinalsDone(basis, fin, a.final, v)
    ensures FinalsDone(basis, fin, SetFinal(a, StateOf(v), Dot(basis[v], fin)).final, v + 1)
  {
  }

  lemma WeightsDoneFinal(rep: Rep, basis: seq<Vec>, a: Automaton, v: nat)
    requires rep.Valid() && Rows(basis, rep.dim) && v < |basis|
    requires WeightsDone(rep, basis, a, v)
    ensures WeightsDone(rep, basis, SetFinal(a, StateOf(v), Dot(basis[v], rep.fin)), v + 1)
  {
    var res := SetFinal(a, StateOf(v), Dot(basis[v], rep.fin));
    assert a.states[v] == StateOf(v);
    SetFinalValid(a, StateOf(v), Dot(basis[v], rep.fin));
    FinalsDoneMore(basis, rep.fin, a, v);
    assert res.InitialVector() == a.InitialVector();
  }

  lemma BuildingFinal(rep: Rep, basis: seq<Vec>, a: Automaton, v: nat)
    requires rep.Valid() && Rows(basis, rep.dim) && v < |basis|
    requires Building(rep, basis, a, v, rep.mu.Keys)
    ensures Building(rep, basis, SetFinal(a, StateOf(v), Dot(basis[v], rep.fin)), v + 1, {})
  {
    WeightsDoneFinal(rep, basis, a, v);
    RowsDoneFinal(rep, basis, a, v, SetFinal(a, StateOf(v), Dot(basis[v], rep.fin)));
  }

  lemma EmptyRow(rep: Rep, basis: seq<Vec>, a: Automaton, v: nat, l: Letter)
    requires rep.Valid() && Rows(basis, rep.dim) && v < |basis| && |a.states| == |basis|
    requires l !in rep.mu
    requires forall e <- a.transitions :: e.src != StateOf(v) || e.lbl in rep.mu
    ensures RowDone(rep, basis, a, v, l)
  {
    forall c | 0 <= c < |a.states|
      ensures Edge(StateOf(v), l, a.states[c]) !in a.transitions
    {
      assert Edge(StateOf(v), l, a.states[c]).lbl == l;
    }
    CombNullTo(a.Row(StateOf(v), l), basis, rep.dim, |basis|);
    CombOfZeros(basis[v], rep.Mat(l), rep.dim, rep.dim);
  }

  lemma BuiltRow(rep: Rep, basis: seq<Vec>, a: Automaton, l: Letter, b: nat)
    requires rep.Valid() && Rows(basis, rep.dim) && |a.states| == |basis| && b < |basis|
    requires a.states[b] == StateOf(b) && RowDone(rep, basis, a, b, l)
    ensures Comb(RepOf(a).Mat(l)[b], basis, rep.dim) == rep.Act(basis[b], l)
  {
    RepMat(a, l);
  }

  lemma BuiltRows(rep: Rep, basis: seq<Vec>, a: Automaton, l: Letter)
    requires rep.Valid() && Rows(basis, rep.dim) && OnStates(a, |basis|)
    requires RowsDone(rep, basis, a, |basis|, {})
    ensures forall b | 0 <= b < |basis| :: Comb(RepOf(a).Mat(l)[b], basis, rep.dim) == rep.Act(basis[b], l)
  {
    forall b | 0 <= b < |basis|
      ensures Comb(RepOf(a).Mat(l)[b], basis, rep.dim) == rep.Act(basis[b], l)
    {
      assert RowDone(rep, basis, a, b, l);
      BuiltRow(rep, basis, a, l, b);
    }
  }

  lemma BuiltFinals(rep: Rep, basis: seq<Vec>, a: Automaton)
    requires rep.Valid() && Rows(basis, rep.dim) && OnStates(a, |basis|)
    requires FinalsDone(basis, rep.fin, a.final, |basis|)
    ensures RepOf(a).fin == MatVec(basis, rep.fin)
  {
    forall b | 0 <= b < |basis|
      ensures RepOf(a).fin[b] == Dot(basis[b], rep.fin)
    {
      assert a.states[b] == StateOf(b);
    }
  }

  lemma BuiltIsReduction(rep: Rep, basis: seq<Vec>, a: Automaton)
    requires rep.Valid() && Rows(basis, rep.dim) && Independent(basis, rep.dim) && AllReached(rep, basis)
    requires Building(rep, basis, a, |basis|, {})
    ensures LeftReduction(rep, RepOf(a), basis)
  {
    BuiltFinals(rep, basis, a);
    forall l
      ensures forall b | 0 <= b < |basis| :: Comb(RepOf(a).Mat(l)[b], basis, rep.dim) == rep.Act(basis[b], l)
    {
      BuiltRows(rep, basis, a, l);
    }
  }

  // The coordinates of a vector of the span.
  method Coordinates(basis: seq<Vec>, current: Vec, p: seq<nat>, n: nat) returns (x: Vec)
    requires Permutation(p, n) && Scaled(basis, p, n)
    requires |current| == n && InSpan(current, basis, n)
    ensures |x| == |basis| && Comb(x, basis, n) == current
  {
    var residual;
    residual, x := VectorInNewBasis(basis, current, p, n);
    var c := Comb(x, basis, n);
    SpanVec(x, basis, n);
    SpanAxpy(current, -1.0, c, basis, n);
    assert Axpy(current, -1.0, c) == residual;
    ResidualNull(residual, basis, p, n);
  }

  // The automaton with one state per vector, and their initial weights.
  method NewStates(x: Vec) returns (a: Automaton)
    ensures a.Valid() && OnStates(a, |x|)
    ensures a.InitialVector() == x
    ensures a.final == map[] && a.transitions == map[]
  {
    a := Automaton([], map[], map[], map[]);
    for b := 0 to |x|
      invariant OnStates(a, b) && a == Automaton(a.states, map[], map[], map[])
    {
      a := a.(states := a.states + [StateOf(b)]);
    }
    for b := 0 to |x|
      invariant OnStates(a, |x|) && a.final == map[] && a.transitions == map[]
      invariant forall s <- a.initial :: 2 <= s < StateOf(b) && a.initial[s] != 0.0
      invariant forall c | 0 <= c < b :: a.InitialWeight(StateOf(c)) == x[c]
    {
      if x[b] != 0.0 {
        a := a.(initial := a.initial[StateOf(b) := x[b]]);
      }
    }
    forall s <- a.initial
      ensures s in a.states
    {
      assert a.states[s - 2] == s;
    }
  }

  // ---------------------------------------------------------------------
  // The reduction
  // ---------------------------------------------------------------------

  class LeftReductioner {
    const input: Automaton

    // What represents the input.
    var dimension: nat
    var init: Vec
    var final: Vec
    var letterMatrixSet: map<Letter, SparseMatrix>

    constructor (input: Automaton)
      ensures this.input == input
    {
      this.input := input;
      dimension := 0;
      init, final, letterMatrixSet := [], [], map[];
    }

    // The fields hold the linear representation of the input.
    ghost predicate Represents()
      reads this
    {
      && dimension == |input.states|
      && init == input.InitialVector()
      && final == input.FinalVector()
      && letterMatrixSet.Keys == input.Labels()
      && forall l <- letterMatrixSet ::
           |letterMatrixSet[l]| == dimension && Dense(letterMatrixSet[l], dimension) == RepOf(input).Mat(l)
    }

    // Fill in the fields from the input.
    method LinearRepresentation()
      requires input.Valid()
      modifies this
      ensures Represents()
    {
      var stateToIndex: map<State, nat> := map[];
      for i := 0 to |input.states|
        invariant forall j | 0 <= j < i :: input.states[j] in stateToIndex && stateToIndex[input.states[j]] == j
      {
        stateToIndex := stateToIndex[input.states[i] := i];
      }
      dimension := |input.states|;
      init := FillVector(input.states, input.initial, stateToIndex);
      final := FillVector(input.states, input.final, stateToIndex);
      letterMatrixSet := FillMatrices(input, stateToIndex);
      assert init == input.InitialVector() && final == input.FinalVector();
    }

    // v times the matrix of a letter.
    method Successor(v: Vec, l: Letter) returns (current: Vec)
      requires Represents() && |v| == dimension && l in letterMatrixSet
      ensures current == RepOf(input).Act(v, l)
    {
      current := ProductVectorMatrix(v, letterMatrixSet[l], dimension);
    }

    // A scaled basis of the reached space, and its permutation.
    method BuildBasis() returns (basis: seq<Vec>, permutation: array<nat>, ghost from: seq<nat>)
      requires Represents()
      ensures Permutation(permutation[..], dimension) && Scaled(basis, permutation[..], dimension)
      ensures ReachBasis(RepOf(input), basis) && Grown(RepOf(input), basis, permutation[..], from)
    {
      ghost var rep := RepOf(input);
      permutation := new nat[dimension](i => i);
      IdentityPermutation(dimension);
      assert permutation[..] == seq(dimension, i => i);
      assert Value(rep, Representations.Empty) == init;
      ghost var p := permutation[..];
      basis := Insert(rep, [], init, permutation, dimension);
      from := GrownFirst(rep, init, p, permutation[..], basis);
      var nb := 0;
      while nb < |basis|
        invariant nb <= |basis|
        invariant Permutation(permutation[..], dimension) && Scaled(basis, permutation[..], dimension)
        invariant Grown(rep, basis, permutation[..], from) && FromBelow(from, nb)
        invariant AllReached(rep, basis) && InSpan(init, basis, dimension)
        invariant ClosedTo(rep, basis, rep.mu.Keys, nb)
        decreases dimension - nb
      {
        basis, from := Explore(basis, nb, permutation, from);
        nb := nb + 1;
      }
      ClosedIsReachBasis(rep, basis);
    }

    // Process the successors of the vector nb.
    method Explore(basis: seq<Vec>, nb: nat, permutation: array<nat>, ghost from: seq<nat>)
      returns (res: seq<Vec>, ghost from': seq<nat>)
      requires Represents() && nb < |basis|
      requires Permutation(permutation[..], dimension) && Scaled(basis, permutation[..], dimension)
      requires AllReached(RepOf(input), basis) && InSpan(init, basis, dimension)
      requires ClosedTo(RepOf(input), basis, RepOf(input).mu.Keys, nb)
      requires Grown(RepOf(input), basis, permutation[..], from) && FromBelow(from, nb)
      modifies permutation
      ensures nb < |res|
      ensures Permutation(permutation[..], dimension) && Scaled(res, permutation[..], dimension)
      ensures Grown(RepOf(input), res, permutation[..], from') && FromBelow(from', nb)
      ensures AllReached(RepOf(input), res) && InSpan(init, res, dimension)
      ensures ClosedTo(RepOf(input), res, RepOf(input).mu.Keys, nb + 1)
    {
      ghost var rep := RepOf(input);
      res, from' := basis, from;
      var todo := letterMatrixSet.Keys;
      while todo != {}
        invariant todo <= rep.mu.Keys
        invariant Permutation(permutation[..], dimension) && Scaled(res, permutation[..], dimension)
        invariant AllReached(rep, res) && Exploring(rep, res, nb, rep.mu.Keys - todo)
        invariant Grown(rep, res, permutation[..], from') && FromBelow(from', nb)
        decreases todo
      {
        var l :| l in todo;
        res, from' := ExploreLetter(res, nb, permutation, l, rep.mu.Keys - todo, from');
        OneMore(rep.mu.Keys, todo, l);
        todo := todo - {l};
      }
      ExploringDone(rep, res, nb);
    }

    method ExploreLetter(basis: seq<Vec>, nb: nat, permutation: array<nat>, l: Letter, ghost done: set<Letter>,
                         ghost from: seq<nat>)
      returns (res: seq<Vec>, ghost from': seq<nat>)
      requires Represents() && l in letterMatrixSet
      requires Permutation(permutation[..], dimension) && Scaled(basis, permutation[..], dimension)
      requires AllReached(RepOf(input), basis) && Exploring(RepOf(input), basis, nb, done)
      requires Grown(RepOf(input), basis, permutation[..], from) && FromBelow(from, nb)
      modifies permutation
      ensures Permutation(permutation[..], dimension) && Scaled(res, permutation[..], dimension)
      ensures AllReached(RepOf(input), res) && Exploring(RepOf(input), res, nb, done + {l})
      ensures Grown(RepOf(input), res, permutation[..], from') && FromBelow(from', nb)
    {
      ghost var rep := RepOf(input);
      var current := Successor(basis[nb], l);
      assert Reached(rep, basis[nb]);
      ReachedAct(rep, basis[nb], l);
      ghost var p := permutation[..];
      res := Insert(rep, basis, current, permutation, dimension);
      ExploringMore(rep, basis, nb, done, res, l);
      from' := GrownNext(rep, basis, p, from, nb, l, current, permutation[..], res);
    }

    // The automaton whose states are the vectors of the basis.
    method BuildAutomaton(basis: seq<Vec>, p: seq<nat>) returns (res: Automaton)
      requires Represents()
      requires Permutation(p, dimension) && Scaled(basis, p, dimension)
      requires ReachBasis(RepOf(input), basis)
      ensures res.Valid() && LeftReduction(RepOf(input), RepOf(res), basis)
    {
      ghost var rep := RepOf(input);
      var x := Coordinates(basis, init, p, dimension);
      res := NewStates(x);
      for v := 0 to |basis|
        invariant Building(rep, basis, res, v, {})
      {
        var k := ScalarProduct(basis[v], final);
        res := BuildTransitions(basis, v, p, res);
        BuildingFinal(rep, basis, res, v);
        res := SetFinal(res, StateOf(v), k);
      }
      ScaledIndependent(basis, p, dimension);
      BuiltIsReduction(rep, basis, res);
    }

    // The transitions leaving the v-th state.
    method BuildTransitions(basis: seq<Vec>, v: nat, p: seq<nat>, a: Automaton) returns (res: Automaton)
      requires Represents()
      requires Permutation(p, dimension) && Scaled(basis, p, dimension)
      requires ReachBasis(RepOf(input), basis)
      requires v < |basis| && Building(RepOf(input), basis, a, v, {})
      ensures Building(RepOf(input), basis, res, v, RepOf(input).mu.Keys)
    {
      ghost var rep := RepOf(input);
      res := a;
      var todo := letterMatrixSet.Keys;
      while todo != {}
        invariant todo <= rep.mu.Keys
        invariant Building(rep, basis, res, v, rep.mu.Keys - todo)
        decreases todo
      {
        var l :| l in todo;
        res := BuildLetter(basis, v, p, res, l, rep.mu.Keys - todo);
        OneMore(rep.mu.Keys, todo, l);
        todo := todo - {l};
      }
    }

    method BuildLetter(basis: seq<Vec>, v: nat, p: seq<nat>, a: Automaton, l: Letter, ghost done: set<Letter>)
      returns (res: Automaton)
      requires Represents() && l in letterMatrixSet && l !in done
      requires Permutation(p, dimension) && Scaled(basis, p, dimension)
      requires ReachBasis(RepOf(input), basis)
      requires v < |basis| && Building(RepOf(input), basis, a, v, done)
      ensures Building(RepOf(input), basis, res, v, done + {l})
    {
      var current := Successor(basis[v], l);
      var x := Coordinates(basis, current, p, dimension);
      assert a.states[v] == StateOf(v);
      res := NewTransitions(a, StateOf(v), l, x);
      BuildingRow(RepOf(input), basis, a, v, done, res, l, x);
    }

    // The core algorithm: the automaton on a basis of the reached space.
    method Run() returns (res: Automaton, ghost basis: seq<Vec>)
      requires input.Valid()
      modifies this
      ensures res.Valid() && LeftReduction(RepOf(input), RepOf(res), basis) && ReducedBasis(RepOf(input), basis)
    {
      LinearRepresentation();
      var vectors, permutation;
      ghost var from;
      vectors, permutation, from := BuildBasis();
      ghost var grown := vectors;
      SameSpanRefl(vectors, dimension);
      if vectors != [] {
        var reduced := BottomUpReduction(vectors, permutation[..], dimension);
        ReachBasisSameSpan(RepOf(input), vectors, reduced);
        ScaledCleared(reduced, permutation[..], dimension);
        vectors := reduced;
      }
      basis := vectors;
      assert ReducedFrom(RepOf(input), grown, permutation[..], from, basis);
      res := BuildAutomaton(vectors, permutation[..]);
    }
  }

  // res is the automaton of input on a reduced basis.
  ghost predicate LeftReduced(input: Automaton, res: Automaton) {
    && input.Valid() && res.Valid()
    && exists basis :: LeftReduction(RepOf(input), RepOf(res), basis) && ReducedBasis(RepOf(input), basis)
  }

  method LeftReduce(input: Automaton) returns (res: Automaton, ghost basis: seq<Vec>)
    requires input.Valid()
    ensures LeftReduced(input, res)
    ensures res.Valid() && LeftReduction(RepOf(input), RepOf(res), basis) && ReducedBasis(RepOf(input), basis)
  {
    var reductioner := new LeftReductioner(input);
    res, basis := reductioner.Run();
  }
}
