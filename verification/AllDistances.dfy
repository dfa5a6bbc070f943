// The star of the matrix of an automaton, by elimination of its states, from
// the laws of a semiring with a star (vcsn/algos/distance.hh).
module AllDistances {
  import opened Wrappers
  import opened Sets

  type State = nat

  // A weightset; the star of some weights may be undefined.
  datatype Semiring<!K> = Semiring(
    zero: K,
    one: K,
    add: (K, K) -> K,
    mul: (K, K) -> K,
    star: K -> Option<K>)

  ghost predicate Associates<K(!new)>(w: Semiring<K>) {
    forall x, y, z :: w.add(w.add(x, y), z) == w.add(x, w.add(y, z))
  }

  ghost predicate Commutes<K(!new)>(w: Semiring<K>) {
    && (forall x, y :: w.add(x, y) == w.add(y, x))
    && (forall x :: w.add(w.zero, x) == x)
  }

  ghost predicate Sums<K(!new)>(w: Semiring<K>) {
    Associates(w) && Commutes(w)
  }

  ghost predicate Products<K(!new)>(w: Semiring<K>) {
    forall x, y, z :: w.mul(w.mul(x, y), z) == w.mul(x, w.mul(y, z))
  }

  ghost predicate Constants<K(!new)>(w: Semiring<K>) {
    && (forall x :: w.mul(w.one, x) == x && w.mul(x, w.one) == x)
    && (forall x :: w.mul(w.zero, x) == w.zero && w.mul(x, w.zero) == w.zero)
  }

  ghost predicate Distributes<K(!new)>(w: Semiring<K>) {
    && (forall x, y, z :: w.mul(x, w.add(y, z)) == w.add(w.mul(x, y), w.mul(x, z)))
    && (forall x, y, z :: w.mul(w.add(x, y), z) == w.add(w.mul(x, z), w.mul(y, z)))
  }

  // x* = 1 + x.x* = 1 + x*.x
  ghost predicate Stars<K(!new)>(w: Semiring<K>) {
    forall x | w.star(x).Some? ::
      && w.star(x).value == w.add(w.one, w.mul(x, w.star(x).value))
      && w.star(x).value == w.add(w.one, w.mul(w.star(x).value, x))
  }

  ghost predicate Axioms<K(!new)>(w: Semiring<K>) {
    Sums(w) && Products(w) && Constants(w) && Distributes(w) && Stars(w)
  }

  // Said of what equals w, so as to be looked into only where needed.
  ghost predicate Laws<K(!new)>(w: Semiring<K>) {
    forall v | v == w :: Axioms(v)
  }

  lemma MulAssociative<K(!new)>(w: Semiring<K>, x: K, y: K, z: K)
    requires Laws(w)
    ensures w.mul(w.mul(x, y), z) == w.mul(x, w.mul(y, z))
  {
    assert Axioms(w);
  }

  lemma RightDistributive<K(!new)>(w: Semiring<K>, x: K, y: K, z: K)
    requires Laws(w)
    ensures w.mul(w.add(x, y), z) == w.add(w.mul(x, z), w.mul(y, z))
  {
    assert Axioms(w);
  }

  lemma AddCommutative<K(!new)>(w: Semiring<K>, x: K, y: K)
    requires Laws(w)
    ensures w.add(x, y) == w.add(y, x)
  {
    assert Axioms(w);
  }

  lemma Units<K(!new)>(w: Semiring<K>, x: K)
    requires Laws(w)
    ensures w.add(w.zero, x) == x == w.add(x, w.zero)
    ensures w.mul(w.zero, x) == w.zero
    ensures w.mul(w.one, x) == x
  {
    assert Axioms(w);
  }

  lemma NullProduct<K(!new)>(w: Semiring<K>, x: K)
    requires Laws(w)
    ensures w.mul(x, w.zero) == w.zero == w.mul(w.zero, x)
  {
    assert Axioms(w);
  }

  lemma StarRight<K(!new)>(w: Semiring<K>, x: K)
    requires Laws(w) && w.star(x).Some?
    ensures w.star(x).value == w.add(w.one, w.mul(x, w.star(x).value))
  {
    assert Axioms(w);
  }

  type Matrix<K> = seq<seq<K>>

  ghost predicate Square<K>(m: Matrix<K>, n: nat) {
    |m| == n && forall i | 0 <= i < n :: |m[i]| == n
  }

  ghost predicate Inside(all: seq<State>, n: nat) {
    forall s <- all :: s < n
  }

  lemma InsidePrefix(ks: seq<State>, n: nat)
    requires Inside(ks, n) && ks != []
    ensures Inside(ks[..|ks| - 1], n) && ks[|ks| - 1] < n
  {
    assert ks[|ks| - 1] in ks;
    var rest := ks[..|ks| - 1];
    forall l | l in rest
      ensures l in ks && l < n
    {
    }
  }

  // The unit matrix.
  function Delta<K>(w: Semiring<K>, i: State, j: State): K {
    if i == j then w.one else w.zero
  }

  // The sum over ks of m[i][k].r[k][j].
  function Through<K>(w: Semiring<K>, m: Matrix<K>, r: Matrix<K>, ks: seq<State>, n: nat, i: State, j: State): K
    requires Square(m, n) && Square(r, n) && Inside(ks, n) && i < n && j < n
  {
    if ks == [] then w.zero
    else
      var k := ks[|ks| - 1];
      InsidePrefix(ks, n);
      w.add(Through(w, m, r, ks[..|ks| - 1], n, i, j), w.mul(m[i][k], r[k][j]))
  }

  // What r[i][j] is once the states of ks were eliminated: nothing, a
  // transition, or a transition to ks and what follows.
  ghost predicate Equation<K>(w: Semiring<K>, m: Matrix<K>, r: Matrix<K>, ks: seq<State>, n: nat, i: State, j: State)
    requires Square(m, n) && Square(r, n) && Inside(ks, n) && i < n && j < n
  {
    r[i][j] == w.add(if j in ks then Delta(w, i, j) else m[i][j], Through(w, m, r, ks, n, i, j))
  }

  ghost predicate Equations<K>(w: Semiring<K>, m: Matrix<K>, r: Matrix<K>, ks: seq<State>, all: seq<State>, n: nat)
    requires Square(m, n) && Square(r, n) && Inside(ks, n) && Inside(all, n)
  {
    forall i, j | i in all && j in all :: Equation(w, m, r, ks, n, i, j)
  }

  // ---------------------------------------------------------------------
  // Eliminating a state
  // ---------------------------------------------------------------------

  // The entry (i, j) once q, the star of whose loop is s, is eliminated.
  function NewEntry<K>(w: Semiring<K>, r: Matrix<K>, n: nat, q: State, s: K, i: State, j: State): K
    requires Square(r, n) && q < n && i < n && j < n
  {
    if i == q && j == q then s
    else if i == q then w.mul(s, r[q][j])
    else if j == q then w.mul(r[i][q], s)
    else w.add(r[i][j], w.mul(w.mul(r[i][q], s), r[q][j]))
  }

  ghost predicate Eliminated<K>(w: Semiring<K>, r: Matrix<K>, n: nat, all: seq<State>, q: State, s: K, r': Matrix<K>)
    requires Square(r, n) && Square(r', n) && q < n && Inside(all, n)
  {
    forall i, j | i in all && j in all :: r'[i][j] == NewEntry(w, r, n, q, s, i, j)
  }

  // Uniformly, when j is not q.
  lemma OtherColumn<K(!new)>(w: Semiring<K>, r: Matrix<K>, n: nat, q: State, s: K, i: State, j: State)
    requires Laws(w) && Square(r, n) && q < n && i < n && j < n && j != q
    requires w.star(r[q][q]) == Some(s)
    ensures NewEntry(w, r, n, q, s, i, j) == w.add(r[i][j], w.mul(r[i][q], w.mul(s, r[q][j])))
  {
    var x, y := r[q][q], r[q][j];
    if i == q {
      StarRight(w, x);
      RightDistributive(w, w.one, w.mul(x, s), y);
      Units(w, y);
      MulAssociative(w, x, s, y);
    } else {
      MulAssociative(w, r[i][q], s, y);
    }
  }

  // Uniformly, when j is q.
  lemma OwnColumn<K(!new)>(w: Semiring<K>, r: Matrix<K>, n: nat, q: State, s: K, i: State)
    requires Laws(w) && Square(r, n) && q < n && i < n
    requires w.star(r[q][q]) == Some(s)
    ensures NewEntry(w, r, n, q, s, i, q) == w.add(Delta(w, i, q), w.mul(r[i][q], s))
  {
    StarRight(w, r[q][q]);
    Units(w, w.mul(r[i][q], s));
  }

  // For j other than q, what goes through ks changes by what goes through ks
  // to q.
  lemma {:induction false} ThroughOther<K(!new)>(w: Semiring<K>, m: Matrix<K>, r: Matrix<K>, r': Matrix<K>,
                                                 ks: seq<State>, n: nat, q: State, s: K, i: State, j: State)
    requires Laws(w) && Square(m, n) && Square(r, n) && Square(r', n) && Inside(ks, n)
    requires q < n && i < n && j < n && j != q && q !in ks && w.star(r[q][q]) == Some(s)
    requires forall k <- ks :: r'[k][j] == NewEntry(w, r, n, q, s, k, j)
    ensures Through(w, m, r', ks, n, i, j)
            == w.add(Through(w, m, r, ks, n, i, j), w.mul(Through(w, m, r, ks, n, i, q), w.mul(s, r[q][j])))
    decreases |ks|
  {
    var y := w.mul(s, r[q][j]);
    if ks == [] {
      Units(w, y);
      Units(w, w.zero);
    } else {
      var k, rest := ks[|ks| - 1], ks[..|ks| - 1];
      assert k in ks && forall l <- rest :: l in ks;
      ThroughOther(w, m, r, r', rest, n, q, s, i, j);
      OtherColumn(w, r, n, q, s, k, j);
      Spread(w, m[i][k], r[k][j], r[k][q], y, Through(w, m, r, rest, n, i, j), Through(w, m, r, rest, n, i, q));
    }
  }

  lemma Spread<K(!new)>(w: Semiring<K>, m: K, a: K, b: K, y: K, t: K, u: K)
    requires Laws(w)
    ensures w.add(w.add(t, w.mul(u, y)), w.mul(m, w.add(a, w.mul(b, y))))
            == w.add(w.add(t, w.mul(m, a)), w.mul(w.add(u, w.mul(m, b)), y))
  {
    assert Axioms(w);
    var ma, mby, uy := w.mul(m, a), w.mul(w.mul(m, b), y), w.mul(u, y);
    assert w.mul(m, w.add(a, w.mul(b, y))) == w.add(ma, mby);
    assert w.mul(w.add(u, w.mul(m, b)), y) == w.add(uy, mby);
    Swap(w, t, uy, ma, mby);
  }

  lemma Swap<K(!new)>(w: Semiring<K>, a: K, b: K, c: K, d: K)
    requires Sums(w)
    ensures w.add(w.add(a, b), w.add(c, d)) == w.add(w.add(a, c), w.add(b, d))
  {
    assert w.add(w.add(a, b), w.add(c, d)) == w.add(a, w.add(b, w.add(c, d)));
    assert w.add(b, w.add(c, d)) == w.add(w.add(b, c), d) == w.add(w.add(c, b), d) == w.add(c, w.add(b, d));
    assert w.add(w.add(a, c), w.add(b, d)) == w.add(a, w.add(c, w.add(b, d)));
  }

  lemma {:induction false} ThroughOwn<K(!new)>(w: Semiring<K>, m: Matrix<K>, r: Matrix<K>, r': Matrix<K>,
                                               ks: seq<State>, n: nat, q: State, s: K, i: State)
    requires Laws(w) && Square(m, n) && Square(r, n) && Square(r', n) && Inside(ks, n)
    requires q < n && i < n && q !in ks
    requires forall k <- ks :: r'[k][q] == NewEntry(w, r, n, q, s, k, q)
    ensures Through(w, m, r', ks, n, i, q) == w.mul(Through(w, m, r, ks, n, i, q), s)
    decreases |ks|
  {
    if ks == [] {
      Units(w, s);
    } else {
      var k, rest := ks[|ks| - 1], ks[..|ks| - 1];
      assert k in ks && k != q && forall l <- rest :: l in ks;
      ThroughOwn(w, m, r, r', rest, n, q, s, i);
      MulAssociative(w, m[i][k], r[k][q], s);
      RightDistributive(w, Through(w, m, r, rest, n, i, q), w.mul(m[i][k], r[k][q]), s);
    }
  }

  lemma ThroughMore<K(!new)>(w: Semiring<K>, m: Matrix<K>, r: Matrix<K>, ks: seq<State>, n: nat, q: State, i: State,
                             j: State)
    requires Square(m, n) && Square(r, n) && Inside(ks, n) && q < n && i < n && j < n
    ensures Inside(ks + [q], n)
    ensures Through(w, m, r, ks + [q], n, i, j) == w.add(Through(w, m, r, ks, n, i, j), w.mul(m[i][q], r[q][j]))
  {
    assert (ks + [q])[..|ks|] == ks;
  }

  lemma EliminateOther<K(!new)>(w: Semiring<K>, m: Matrix<K>, r: Matrix<K>, r': Matrix<K>, ks: seq<State>,
                                all: seq<State>, n: nat, q: State, s: K, i: State, j: State)
    requires Laws(w) && Square(m, n) && Square(r, n) && Square(r', n) && Inside(ks, n) && Inside(all, n)
    requires q < n && q !in ks && q in all && i in all && j in all && j != q && (forall k <- ks :: k in all)
    requires w.star(r[q][q]) == Some(s) && Eliminated(w, r, n, all, q, s, r')
    requires Equation(w, m, r, ks, n, i, j) && Equation(w, m, r, ks, n, i, q)
    ensures Inside(ks + [q], n) && Equation(w, m, r', ks + [q], n, i, j)
  {
    var y := w.mul(s, r[q][j]);
    var t, u := Through(w, m, r, ks, n, i, j), Through(w, m, r, ks, n, i, q);
    var d := if j in ks then Delta(w, i, j) else m[i][j];
    assert forall k <- ks :: r'[k][j] == NewEntry(w, r, n, q, s, k, j);
    ThroughMore(w, m, r', ks, n, q, i, j);
    ThroughOther(w, m, r, r', ks, n, q, s, i, j);
    OtherColumn(w, r, n, q, s, i, j);
    assert j in ks + [q] <==> j in ks;
    assert r'[q][j] == y;
    assert r[i][q] == w.add(m[i][q], u);
    Gather(w, d, t, u, m[i][q], y);
  }

  lemma Gather<K(!new)>(w: Semiring<K>, d: K, t: K, u: K, m: K, y: K)
    requires Laws(w)
    ensures w.add(d, w.add(w.add(t, w.mul(u, y)), w.mul(m, y))) == w.add(w.add(d, t), w.mul(w.add(m, u), y))
  {
    assert Axioms(w);
    var uy, my := w.mul(u, y), w.mul(m, y);
    assert w.mul(w.add(m, u), y) == w.add(my, uy) == w.add(uy, my);
    assert w.add(w.add(t, uy), my) == w.add(t, w.add(uy, my));
  }

  lemma EliminateOwn<K(!new)>(w: Semiring<K>, m: Matrix<K>, r: Matrix<K>, r': Matrix<K>, ks: seq<State>,
                              all: seq<State>, n: nat, q: State, s: K, i: State)
    requires Laws(w) && Square(m, n) && Square(r, n) && Square(r', n) && Inside(ks, n) && Inside(all, n)
    requires q < n && q !in ks && q in all && i in all && (forall k <- ks :: k in all)
    requires w.star(r[q][q]) == Some(s) && Eliminated(w, r, n, all, q, s, r')
    requires Equation(w, m, r, ks, n, i, q)
    ensures Inside(ks + [q], n) && Equation(w, m, r', ks + [q], n, i, q)
  {
    var u := Through(w, m, r, ks, n, i, q);
    assert forall k <- ks :: r'[k][q] == NewEntry(w, r, n, q, s, k, q);
    ThroughMore(w, m, r', ks, n, q, i, q);
    ThroughOwn(w, m, r, r', ks, n, q, s, i);
    OwnColumn(w, r, n, q, s, i);
    assert q in ks + [q];
    assert r'[q][q] == s;
    assert r[i][q] == w.add(m[i][q], u);
    RightDistributive(w, m[i][q], u, s);
    AddCommutative(w, w.mul(m[i][q], s), w.mul(u, s));
  }

  // The equations are kept by the elimination of a state.
  lemma EliminateKeeps<K(!new)>(w: Semiring<K>, m: Matrix<K>, r: Matrix<K>, r': Matrix<K>, ks: seq<State>,
                                all: seq<State>, n: nat, q: State, s: K)
    requires Laws(w) && Square(m, n) && Square(r, n) && Square(r', n) && Inside(ks, n) && Inside(all, n)
    requires q < n && q !in ks && q in all && (forall k <- ks :: k in all)
    requires w.star(r[q][q]) == Some(s) && Eliminated(w, r, n, all, q, s, r')
    requires Equations(w, m, r, ks, all, n)
    ensures Inside(ks + [q], n) && Equations(w, m, r', ks + [q], all, n)
  {
    forall i, j | i in all && j in all
      ensures Equation(w, m, r', ks + [q], n, i, j)
    {
      assert Equation(w, m, r, ks, n, i, j) && Equation(w, m, r, ks, n, i, q);
      if j == q {
        EliminateOwn(w, m, r, r', ks, all, n, q, s, i);
      } else {
        EliminateOther(w, m, r, r', ks, all, n, q, s, i, j);
      }
    }
  }

  // ---------------------------------------------------------------------
  // The other side
  // ---------------------------------------------------------------------

  // The opposite semiring.
  function Opposite<K>(w: Semiring<K>): Semiring<K> {
    Semiring(w.zero, w.one, w.add, (x, y) => w.mul(y, x), w.star)
  }

  lemma OppositeLaws<K(!new)>(w: Semiring<K>)
    requires Laws(w)
    ensures Laws(Opposite(w))
  {
    var v := Opposite(w);
    assert Axioms(w);
    assert Sums(v);
    assert Products(v);
    assert Constants(v);
    assert Distributes(v);
    assert Stars(v);
    assert Axioms(v);
  }

  function Flip<K>(m: Matrix<K>, n: nat): (t: Matrix<K>)
    requires Square(m, n)
    ensures Square(t, n) && forall i, j | 0 <= i < n && 0 <= j < n :: t[i][j] == m[j][i]
  {
    seq(n, i requires 0 <= i < n && Square(m, n) =>
      seq(n, j requires 0 <= j < n && 0 <= i < n && Square(m, n) => m[j][i]))
  }

  lemma FlipEliminated<K(!new)>(w: Semiring<K>, r: Matrix<K>, n: nat, all: seq<State>, q: State, s: K, r': Matrix<K>)
    requires Laws(w) && Square(r, n) && Square(r', n) && q < n && Inside(all, n) && Eliminated(w, r, n, all, q, s, r')
    ensures Eliminated(Opposite(w), Flip(r, n), n, all, q, s, Flip(r', n))
  {
    forall i, j | i in all && j in all
      ensures Flip(r', n)[i][j] == NewEntry(Opposite(w), Flip(r, n), n, q, s, i, j)
    {
      assert r'[j][i] == NewEntry(w, r, n, q, s, j, i);
      MulAssociative(w, r[j][q], s, r[q][i]);
    }
  }

  // The sum over ks of r[i][k].m[k][j].
  function ThroughBack<K>(w: Semiring<K>, r: Matrix<K>, m: Matrix<K>, ks: seq<State>, n: nat, i: State, j: State): K
    requires Square(m, n) && Square(r, n) && Inside(ks, n) && i < n && j < n
  {
    if ks == [] then w.zero
    else
      var k := ks[|ks| - 1];
      InsidePrefix(ks, n);
      w.add(ThroughBack(w, r, m, ks[..|ks| - 1], n, i, j), w.mul(r[i][k], m[k][j]))
  }

  lemma {:induction false} ThroughFlip<K(!new)>(w: Semiring<K>, m: Matrix<K>, r: Matrix<K>, ks: seq<State>, n: nat,
                                                i: State, j: State)
    requires Square(m, n) && Square(r, n) && Inside(ks, n) && i < n && j < n
    ensures Through(Opposite(w), Flip(m, n), Flip(r, n), ks, n, j, i) == ThroughBack(w, r, m, ks, n, i, j)
    decreases |ks|
  {
    if ks != [] {
      InsidePrefix(ks, n);
      ThroughFlip(w, m, r, ks[..|ks| - 1], n, i, j);
    }
  }

  // ---------------------------------------------------------------------
  // The algorithm
  // ---------------------------------------------------------------------

  // A transition.
  datatype Edge<K> = Edge(src: State, dst: State, weight: K)

  // The sum of the weights of the transitions from i to j.
  function EdgeSum<K>(w: Semiring<K>, edges: seq<Edge<K>>, i: State, j: State): K {
    if edges == [] then w.zero
    else
      var e := edges[|edges| - 1];
      var x := EdgeSum(w, edges[..|edges| - 1], i, j);
      if e.src == i && e.dst == j then w.add(x, e.weight) else x
  }

  function MatrixOf<K>(w: Semiring<K>, edges: seq<Edge<K>>, n: nat): (m: Matrix<K>)
    ensures Square(m, n) && forall i, j | 0 <= i < n && 0 <= j < n :: m[i][j] == EdgeSum(w, edges, i, j)
  {
    seq(n, i requires 0 <= i < n => seq(n, j requires 0 <= j < n => EdgeSum(w, edges, i, j)))
  }

  // Both equations, before any elimination.
  ghost predicate Solves<K>(w: Semiring<K>, m: Matrix<K>, r: Matrix<K>, ks: seq<State>, all: seq<State>, n: nat)
    requires Square(m, n) && Square(r, n) && Inside(ks, n) && Inside(all, n)
  {
    && Equations(w, m, r, ks, all, n)
    && Equations(Opposite(w), Flip(m, n), Flip(r, n), ks, all, n)
  }

  lemma StartSolves<K(!new)>(w: Semiring<K>, m: Matrix<K>, all: seq<State>, n: nat)
    requires Laws(w) && Square(m, n) && Inside(all, n)
    ensures Solves(w, m, m, [], all, n)
  {
    forall i, j | i in all && j in all
      ensures Equation(w, m, m, [], n, i, j)
      ensures Equation(Opposite(w), Flip(m, n), Flip(m, n), [], n, i, j)
    {
      Units(w, m[i][j]);
      Units(w, m[j][i]);
    }
  }

  lemma SolvesKeeps<K(!new)>(w: Semiring<K>, m: Matrix<K>, r: Matrix<K>, r': Matrix<K>, ks: seq<State>, all: seq<State>,
                             n: nat, q: State, s: K)
    requires Laws(w) && Square(m, n) && Square(r, n) && Square(r', n) && Inside(ks, n) && Inside(all, n)
    requires q < n && q !in ks && q in all && (forall k <- ks :: k in all)
    requires w.star(r[q][q]) == Some(s) && Eliminated(w, r, n, all, q, s, r')
    requires Solves(w, m, r, ks, all, n)
    ensures Inside(ks + [q], n) && Solves(w, m, r', ks + [q], all, n)
  {
    EliminateKeeps(w, m, r, r', ks, all, n, q, s);
    OppositeLaws(w);
    FlipEliminated(w, r, n, all, q, s, r');
    EliminateKeeps(Opposite(w), Flip(m, n), Flip(r, n), Flip(r', n), ks, all, n, q, s);
  }

  // r = 1 + m.r = 1 + r.m, through the states that were eliminated; between the
  // others, pre and post, a transition is needed.
  ghost predicate IsStar<K>(w: Semiring<K>, m: Matrix<K>, r: Matrix<K>, states: seq<State>, all: seq<State>, n: nat)
    requires Square(m, n) && Square(r, n) && Inside(states, n) && Inside(all, n)
  {
    forall i, j | i in all && j in all ::
      && r[i][j] == w.add(if j in states then Delta(w, i, j) else m[i][j], Through(w, m, r, states, n, i, j))
      && r[i][j] == w.add(if i in states then Delta(w, i, j) else m[i][j], ThroughBack(w, r, m, states, n, i, j))
  }

  lemma SolvesIsStar<K(!new)>(w: Semiring<K>, m: Matrix<K>, r: Matrix<K>, states: seq<State>, all: seq<State>, n: nat)
    requires Square(m, n) && Square(r, n) && Inside(states, n) && Inside(all, n) && forall s <- states :: s in all
    requires Solves(w, m, r, states, all, n)
    ensures IsStar(w, m, r, states, all, n)
  {
    forall i, j | i in all && j in all
      ensures r[i][j] == w.add(if j in states then Delta(w, i, j) else m[i][j], Through(w, m, r, states, n, i, j))
      ensures r[i][j] == w.add(if i in states then Delta(w, i, j) else m[i][j], ThroughBack(w, r, m, states, n, i, j))
    {
      assert Equation(w, m, r, states, n, i, j);
      assert Equation(Opposite(w), Flip(m, n), Flip(r, n), states, n, j, i);
      ThroughFlip(w, m, r, states, n, i, j);
    }
  }

  // The sum of the weights of the transitions between each pair of states.
  method FillMatrix<K>(w: Semiring<K>, edges: seq<Edge<K>>, n: nat) returns (res: Matrix<K>)
    requires forall e <- edges :: e.src < n && e.dst < n
    ensures res == MatrixOf(w, edges, n)
  {
    res := seq(n, _ => seq(n, _ => w.zero));
    var a := 0;
    while a < |edges|
      invariant a <= |edges| && Square(res, n)
      invariant forall i, j | 0 <= i < n && 0 <= j < n :: res[i][j] == EdgeSum(w, edges[..a], i, j)
    {
      var e := edges[a];
      assert e in edges;
      assert edges[..a + 1][..a] == edges[..a];
      res := res[e.src := res[e.src][e.dst := w.add(res[e.src][e.dst], e.weight)]];
      a := a + 1;
    }
    assert edges[..a] == edges;
    forall i | 0 <= i < n
      ensures res[i] == MatrixOf(w, edges, n)[i]
    {
    }
  }

  // The entries (i, j) that were updated already, among those of other rows
  // and columns than k: the a first rows, and b entries of the next one.
  predicate Updated(all: seq<State>, k: State, a: nat, b: nat, i: State, j: State)
    requires a <= |all| && b <= |all|
  {
    || (i == k && j == k)
    || (i != k && j != k && ((i in all[..a] && j in all) || (a < |all| && i == all[a] && j in all[..b])))
  }

  ghost predicate Updating<K>(w: Semiring<K>, before: Matrix<K>, n: nat, all: seq<State>, k: State, s: K, a: nat,
                              b: nat, r: Matrix<K>)
    requires Square(before, n) && k < n && a <= |all| && b <= |all|
  {
    && Square(r, n)
    && forall i, j | 0 <= i < n && 0 <= j < n ::
         r[i][j] == if Updated(all, k, a, b, i, j) then NewEntry(w, before, n, k, s, i, j) else before[i][j]
  }

  lemma UpdatedMore(all: seq<State>, k: State, a: nat, b: nat, i: State, j: State)
    requires Distinct(all) && a < |all| && b < |all|
    ensures Updated(all, k, a, b + 1, i, j)
            <==> Updated(all, k, a, b, i, j) || (i == all[a] && j == all[b] && i != k && j != k)
    ensures !Updated(all, k, a, b, all[a], all[b]) || (all[a] == k && all[b] == k)
  {
    assert all[..b + 1] == all[..b] + [all[b]];
  }

  lemma UpdatedRow(all: seq<State>, k: State, a: nat, i: State, j: State)
    requires a < |all|
    ensures Updated(all, k, a + 1, 0, i, j) <==> Updated(all, k, a, |all|, i, j)
  {
    assert all[..a + 1] == all[..a] + [all[a]];
    assert all[..|all|] == all;
  }

  // Eliminate k, the star of whose loop is s.
  method EliminateState<K>(w: Semiring<K>, r: Matrix<K>, n: nat, all: seq<State>, k: State, s: K)
    returns (res: Matrix<K>)
    requires Square(r, n) && Inside(all, n) && Distinct(all) && k in all && k < n
    ensures Square(res, n) && Eliminated(w, r, n, all, k, s, res)
  {
    res := r[k := r[k][k := s]];
    var a := 0;
    while a < |all|
      invariant a <= |all| && Updating(w, r, n, all, k, s, a, 0, res)
    {
      res := EliminateRow(w, r, n, all, k, s, a, res);
      forall i, j | 0 <= i < n && 0 <= j < n
        ensures Updated(all, k, a + 1, 0, i, j) <==> Updated(all, k, a, |all|, i, j)
      {
        UpdatedRow(all, k, a, i, j);
      }
      a := a + 1;
    }
    assert all[..|all|] == all;
    res := EliminateCross(w, r, n, all, k, s, res);
  }

  method EliminateRow<K>(w: Semiring<K>, ghost before: Matrix<K>, n: nat, all: seq<State>, k: State, s: K, a: nat,
                         r: Matrix<K>) returns (res: Matrix<K>)
    requires Square(before, n) && Inside(all, n) && Distinct(all) && k < n && a < |all|
    requires Updating(w, before, n, all, k, s, a, 0, r)
    ensures Updating(w, before, n, all, k, s, a, |all|, res)
  {
    res := r;
    var i := all[a];
    assert i in all;
    var b := 0;
    while b < |all|
      invariant b <= |all| && Updating(w, before, n, all, k, s, a, b, res)
    {
      var j := all[b];
      assert j in all;
      forall x, y | 0 <= x < n && 0 <= y < n
        ensures Updated(all, k, a, b + 1, x, y)
                <==> Updated(all, k, a, b, x, y) || (x == all[a] && y == all[b] && x != k && y != k)
      {
        UpdatedMore(all, k, a, b, x, y);
      }
      UpdatedMore(all, k, a, b, i, j);
      if i != k && j != k {
        res := res[i := res[i][j := w.add(res[i][j], w.mul(w.mul(res[i][k], s), res[k][j]))]];
      }
      b := b + 1;
    }
  }

  // The row and the column of k, up to the a-th.
  ghost predicate Crossing<K>(w: Semiring<K>, before: Matrix<K>, n: nat, all: seq<State>, k: State, s: K, a: nat,
                              r: Matrix<K>)
    requires Square(before, n) && k < n && a <= |all|
  {
    && Square(r, n)
    && (forall i, j | 0 <= i < n && 0 <= j < n && i in all && j in all && i != k && j != k ::
          r[i][j] == NewEntry(w, before, n, k, s, i, j))
    && r[k][k] == s
    && (forall i | 0 <= i < n && i != k ::
          && r[k][i] == (if i in all[..a] then NewEntry(w, before, n, k, s, k, i) else before[k][i])
          && r[i][k] == (if i in all[..a] then NewEntry(w, before, n, k, s, i, k) else before[i][k]))
  }

  method EliminateCross<K>(w: Semiring<K>, ghost before: Matrix<K>, n: nat, all: seq<State>, k: State, s: K,
                           r: Matrix<K>)
    returns (res: Matrix<K>)
    requires Square(before, n) && Inside(all, n) && Distinct(all) && k < n
    requires Updating(w, before, n, all, k, s, |all|, 0, r) && all[..|all|] == all
    ensures Square(res, n) && Eliminated(w, before, n, all, k, s, res)
  {
    res := r;
    var a := 0;
    while a < |all|
      invariant a <= |all| && Crossing(w, before, n, all, k, s, a, res)
    {
      var i := all[a];
      assert i in all;
      CrossMore(all, a);
      if i != k {
        res := res[k := res[k][i := w.mul(s, res[k][i])]];
        res := res[i := res[i][k := w.mul(res[i][k], s)]];
      }
      a := a + 1;
    }
  }

  lemma CrossMore(all: seq<State>, a: nat)
    requires Distinct(all) && a < |all|
    ensures all[a] !in all[..a] && all[..a + 1] == all[..a] + [all[a]]
  {
  }

  function Front(ks: seq<State>): (r: seq<State>)
    requires ks != []
    ensures r == ks[..|ks| - 1]
  {
    ks[..|ks| - 1]
  }

  function Last(ks: seq<State>): State
    requires ks != []
  {
    ks[|ks| - 1]
  }

  // r comes from m by eliminating the states of ks, one after the other.
  ghost predicate Obtained<K(!new)>(w: Semiring<K>, m: Matrix<K>, ks: seq<State>, all: seq<State>, n: nat, r: Matrix<K>)
    requires Square(m, n) && Inside(ks, n) && Inside(all, n)
  {
    if ks == [] then r == m
    else
      InsidePrefix(ks, n);
      exists r0, s :: Obtained(w, m, Front(ks), all, n, r0) && Obtains(w, all, n, Last(ks), r0, s, r)
  }

  ghost predicate Obtains<K>(w: Semiring<K>, all: seq<State>, n: nat, q: State, r0: Matrix<K>, s: K, r: Matrix<K>)
    requires Inside(all, n) && q < n
  {
    && Square(r0, n) && Square(r, n)
    && w.star(r0[q][q]) == Some(s) && Eliminated(w, r0, n, all, q, s, r)
  }

  // The star of a loop found after the elimination of some states is
  // undefined.
  ghost predicate Blocked<K(!new)>(w: Semiring<K>, m: Matrix<K>, states: seq<State>, all: seq<State>, n: nat, c: nat,
                                   r: Matrix<K>)
    requires Square(m, n) && Inside(states, n) && Inside(all, n)
  {
    && c < |states| && states[c] < n && Inside(states[..c], n) && Square(r, n)
    && Obtained(w, m, states[..c], all, n, r) && w.star(r[states[c]][states[c]]).None?
  }

  lemma ObtainedMore<K(!new)>(w: Semiring<K>, m: Matrix<K>, ks: seq<State>, all: seq<State>, n: nat, q: State,
                              r0: Matrix<K>, s: K, r: Matrix<K>)
    requires Square(m, n) && Inside(ks, n) && Inside(all, n) && q < n
    requires Obtained(w, m, ks, all, n, r0) && Obtains(w, all, n, q, r0, s, r)
    ensures Inside(ks + [q], n) && Obtained(w, m, ks + [q], all, n, r)
  {
    assert Front(ks + [q]) == ks && Last(ks + [q]) == q;
  }

  // The star of the matrix of the automaton, through its ordinary states; all
  // includes pre and post.  None if the star of a weight is undefined.
  method Distances<K(!new)>(w: Semiring<K>, n: nat, all: seq<State>, states: seq<State>, edges: seq<Edge<K>>)
    returns (r: Option<Matrix<K>>)
    requires Laws(w) && Inside(all, n) && Distinct(all) && Distinct(states) && Inside(states, n)
    requires (forall s <- states :: s in all) && forall e <- edges :: e.src < n && e.dst < n
    ensures r.None? ==> exists c: nat, r0 :: Blocked(w, MatrixOf(w, edges, n), states, all, n, c, r0)
    ensures r.Some? ==> Square(r.value, n) && IsStar(w, MatrixOf(w, edges, n), r.value, states, all, n)
    ensures r.Some? ==> Obtained(w, MatrixOf(w, edges, n), states, all, n, r.value)
  {
    var res := FillMatrix(w, edges, n);
    ghost var m := res;
    StartSolves(w, m, all, n);
    var c := 0;
    while c < |states|
      invariant c <= |states| && Square(m, n) && Square(res, n) && Inside(states[..c], n)
      invariant Solves(w, m, res, states[..c], all, n) && Obtained(w, m, states[..c], all, n, res)
    {
      var k := states[c];
      assert k in states;
      CrossMore(states, c);
      assert forall l <- states[..c] :: l in states;
      var star := w.star(res[k][k]);
      if star.None? {
        assert Blocked(w, m, states, all, n, c, res);
        return None;
      }
      ghost var before := res;
      res := EliminateState(w, res, n, all, k, star.value);
      SolvesKeeps(w, m, before, res, states[..c], all, n, k, star.value);
      ObtainedMore(w, m, states[..c], all, n, k, before, star.value, res);
      c := c + 1;
    }
    assert states[..c] == states;
    SolvesIsStar(w, m, res, states, all, n);
    r := Some(res);
  }
}
