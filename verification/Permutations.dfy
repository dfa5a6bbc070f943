// Permutations in lexicographic order, and their ranks.
module Permutations {
  import opened Sets

  type Perm = seq<nat>

  ghost predicate Ascending(p: Perm) {
    forall i, j | 0 <= i < j < |p| :: p[i] < p[j]
  }

  // The first index of an element greater than x, or the length of q.
  function FirstGreater(q: Perm, x: nat): (i: nat)
    ensures i <= |q| && (i < |q| ==> q[i] > x) && forall j | 0 <= j < i :: q[j] <= x
  {
    if q == [] then 0
    else if q[0] > x then 0
    else
      assert q == [q[0]] + q[1..];
      1 + FirstGreater(q[1..], x)
  }

  // The next permutation in lexicographic order; after the last one comes the
  // first one, with false.
  function Next(p: Perm): (r: (bool, Perm))
    ensures |r.1| == |p|
  {
    if |p| <= 1 then (false, p)
    else
      var x := p[0];
      var (more, q) := Next(p[1..]);
      if more then (true, [x] + q)
      else
        var i := FirstGreater(q, x);
        if i == |q| then (false, q + [x]) else (true, [q[i]] + q[i := x])
  }

  function Factorial(n: nat): (r: nat)
    ensures r >= 1
  {
    if n == 0 then 1
    else
      var f := Factorial(n - 1);
      assert n * f >= 1;
      n * f
  }

  function LessThan(s: set<nat>, x: nat): set<nat> {
    set y | y in s && y < x
  }

  // The number of permutations before p.
  function Rank(p: Perm): nat {
    if p == [] then 0 else Times(|LessThan(Elements(p), p[0])|, Factorial(|p| - 1)) + Rank(p[1..])
  }

  function Times(x: nat, y: nat): nat {
    x * y
  }

  // ---------------------------------------------------------------------
  // Sets of elements
  // ---------------------------------------------------------------------

  lemma FewLess(p: Perm)
    requires Distinct(p) && p != []
    ensures |LessThan(Elements(p), p[0])| <= |p| - 1
  {
    ElementsSize(p);
    SubsetSize(LessThan(Elements(p), p[0]), Elements(p) - {p[0]});
  }

  lemma TailElements(p: Perm)
    requires Distinct(p) && p != []
    ensures Distinct(p[1..]) && Elements(p[1..]) == Elements(p) - {p[0]}
  {
    assert p == [p[0]] + p[1..];
  }

  // ---------------------------------------------------------------------
  // Bounds, and one rank for each permutation
  // ---------------------------------------------------------------------

  lemma RadixBound(x: nat, n: nat, f: nat, r: nat)
    requires x <= n - 1 && r < f
    ensures Times(x, f) + r < Times(n, f)
  {
    assert (x + 1) * f <= n * f;
  }

  lemma RadixSame(x: nat, y: nat, f: nat, r: nat, q: nat)
    requires Times(x, f) + r == Times(y, f) + q && r < f && q < f
    ensures x == y && r == q
  {
    if x < y {
      RadixBound(x, y, f, r);
    } else if y < x {
      RadixBound(y, x, f, q);
    }
  }

  lemma {:induction false} RankBound(p: Perm)
    requires Distinct(p)
    ensures Rank(p) < Factorial(|p|)
    decreases |p|
  {
    if p != [] {
      TailElements(p);
      RankBound(p[1..]);
      FewLess(p);
      RadixBound(|LessThan(Elements(p), p[0])|, |p|, Factorial(|p| - 1), Rank(p[1..]));
    }
  }

  lemma SameLess(s: set<nat>, x: nat, y: nat)
    requires x in s && y in s && |LessThan(s, x)| == |LessThan(s, y)|
    ensures x == y
  {
    if x < y {
      Fewer(s, x, y);
    } else if y < x {
      Fewer(s, y, x);
    }
  }

  lemma Fewer(s: set<nat>, x: nat, y: nat)
    requires x in s && x < y
    ensures |LessThan(s, x)| < |LessThan(s, y)|
  {
    SubsetSize(LessThan(s, x), LessThan(s, y) - {x});
  }

  lemma {:induction false} RankInjective(p: Perm, q: Perm)
    requires Distinct(p) && Distinct(q) && Elements(p) == Elements(q) && Rank(p) == Rank(q)
    ensures p == q
    decreases |p|
  {
    ElementsSize(p);
    ElementsSize(q);
    if p != [] {
      TailElements(p);
      TailElements(q);
      RankBound(p[1..]);
      RankBound(q[1..]);
      RadixSame(|LessThan(Elements(p), p[0])|, |LessThan(Elements(q), q[0])|, Factorial(|p| - 1), Rank(p[1..]),
            Rank(q[1..]));
      SameLess(Elements(p), p[0], q[0]);
      RankInjective(p[1..], q[1..]);
      assert p == [p[0]] + p[1..] && q == [q[0]] + q[1..];
    }
  }

  lemma {:induction false} AscendingRank(p: Perm)
    requires Ascending(p)
    ensures Rank(p) == 0
    decreases |p|
  {
    if p != [] {
      assert Ascending(p[1..]);
      AscendingRank(p[1..]);
      assert LessThan(Elements(p), p[0]) == {};
    }
  }

  // ---------------------------------------------------------------------
  // The next permutation
  // ---------------------------------------------------------------------

  // The next permutation has the next rank; only the last one has no next one.
  lemma {:induction false} NextRank(p: Perm)
    requires Distinct(p)
    ensures var (more, q) := Next(p);
            && Distinct(q) && Elements(q) == Elements(p)
            && (if more then Rank(q) == Rank(p) + 1 else Ascending(q) && Rank(p) == Factorial(|p|) - 1)
    decreases |p|
  {
    if |p| <= 1 {
      if p != [] {
        assert LessThan(Elements(p), p[0]) == {};
        assert p[1..] == [];
      }
    } else {
      TailElements(p);
      NextRank(p[1..]);
      var (more, q) := Next(p[1..]);
      if more {
        NextOfTail(p, q);
      } else {
        NextOfHead(p, q);
      }
    }
  }

  lemma Prepended(x: nat, q: Perm)
    requires Distinct(q) && x !in q
    ensures Distinct([x] + q) && Elements([x] + q) == {x} + Elements(q)
    ensures Rank([x] + q) == Times(|LessThan({x} + Elements(q), x)|, Factorial(|q|)) + Rank(q)
  {
    var r := [x] + q;
    assert r[1..] == q;
    assert Elements(r) == {x} + Elements(q);
  }

  lemma NextOfTail(p: Perm, q: Perm)
    requires Distinct(p) && |p| == |q| + 1 && Distinct(q) && Elements(q) == Elements(p[1..])
    requires Rank(q) == Rank(p[1..]) + 1
    ensures var r := [p[0]] + q; Distinct(r) && Elements(r) == Elements(p) && Rank(r) == Rank(p) + 1
  {
    TailElements(p);
    assert p[0] !in Elements(q);
    Prepended(p[0], q);
    Prepended(p[0], p[1..]);
    assert p == [p[0]] + p[1..];
  }

  lemma NextOfHead(p: Perm, q: Perm)
    requires Distinct(p) && |p| == |q| + 1 && Ascending(q) && Elements(q) == Elements(p[1..])
    requires Rank(p[1..]) == Factorial(|q|) - 1
    ensures var i := FirstGreater(q, p[0]);
            if i == |q| then
              var r := q + [p[0]];
              Distinct(r) && Elements(r) == Elements(p) && Ascending(r) && Rank(p) == Factorial(|p|) - 1
            else
              var r := [q[i]] + q[i := p[0]];
              Distinct(r) && Elements(r) == Elements(p) && Rank(r) == Rank(p) + 1
  {
    TailElements(p);
    assert p[0] !in Elements(q);
    var i := FirstGreater(q, p[0]);
    if i == |q| {
      LastOfAll(p, q);
    } else {
      NextSwaps(p, q, i, [q[i]] + q[i := p[0]]);
    }
  }

  lemma AppendGreatest(q: Perm, x: nat)
    requires Ascending(q) && FirstGreater(q, x) == |q| && x !in q
    ensures Ascending(q + [x]) && Elements(q + [x]) == Elements(q) + {x}
              && LessThan(Elements(q) + {x}, x) == Elements(q)
  {
    forall i | 0 <= i < |q|
      ensures q[i] < x
    {
      assert q[i] in q;
    }
  }

  lemma LastOfAll(p: Perm, q: Perm)
    requires Distinct(p) && |p| == |q| + 1 && Ascending(q) && Elements(q) == Elements(p) - {p[0]}
    requires Rank(p[1..]) == Factorial(|q|) - 1 && FirstGreater(q, p[0]) == |q|
    ensures Ascending(q + [p[0]]) && Elements(q + [p[0]]) == Elements(p) && Rank(p) == Factorial(|p|) - 1
  {
    assert p[0] !in Elements(q);
    AppendGreatest(q, p[0]);
    assert Elements(q) + {p[0]} == Elements(p);
    ElementsSize(q);
    LastHeadRank(p, |q|);
  }

  lemma LastHeadRank(p: Perm, n: nat)
    requires |p| == n + 1 && |LessThan(Elements(p), p[0])| == n && Rank(p[1..]) == Factorial(n) - 1
    ensures Rank(p) == Factorial(|p|) - 1
  {
    LastRank(n);
  }

  lemma NextSwaps(p: Perm, q: Perm, i: nat, r: Perm)
    requires Distinct(p) && |p| == |q| + 1 && Ascending(q) && Elements(q) == Elements(p) - {p[0]}
    requires Rank(p[1..]) == Factorial(|q|) - 1
    requires i == FirstGreater(q, p[0]) < |q| && r == [q[i]] + q[i := p[0]]
    ensures Distinct(r) && Elements(r) == Elements(p) && Rank(r) == Rank(p) + 1
  {
    assert p[0] !in Elements(q);
    SwapHead(q, p[0], i);
    assert Elements(q) + {p[0]} == Elements(p);
    TailRank(q, p[0], i, r);
    HeadRank(p, r, |q|);
  }

  lemma TailRank(q: Perm, x: nat, i: nat, r: Perm)
    requires i < |q| && Ascending(q[i := x]) && r == [q[i]] + q[i := x]
    ensures r[0] == q[i] && Rank(r[1..]) == 0
  {
    assert r[1..] == q[i := x];
    AscendingRank(q[i := x]);
  }

  // The next head, with the first of the tails.
  lemma HeadRank(p: Perm, r: Perm, n: nat)
    requires |r| == |p| == n + 1
    requires |LessThan(Elements(r), r[0])| == |LessThan(Elements(p), p[0])| + 1
    requires Rank(r[1..]) == 0 && Rank(p[1..]) == Factorial(n) - 1
    ensures Rank(r) == Rank(p) + 1
  {
    NextRadix(|LessThan(Elements(p), p[0])|, Factorial(n));
  }

  lemma LastRank(n: nat)
    ensures Times(n, Factorial(n)) + (Factorial(n) - 1) == Factorial(n + 1) - 1
  {
  }

  lemma NextRadix(x: nat, f: nat)
    requires f >= 1
    ensures Times(x + 1, f) == Times(x, f) + (f - 1) + 1
  {
  }

  lemma SwapElements(q: Perm, x: nat, i: nat)
    requires i < |q|
    ensures Elements([q[i]] + q[i := x]) == Elements(q) + {x}
  {
    var r := [q[i]] + q[i := x];
    forall y
      ensures y in r <==> y in q || y == x
    {
      if y in q {
        var j :| 0 <= j < |q| && q[j] == y;
        assert r[if j == i then 0 else j + 1] == y;
      }
      assert r[i + 1] == x;
    }
  }

  // q[i] is the least element above x.
  lemma SwapHead(q: Perm, x: nat, i: nat)
    requires Ascending(q) && x !in q && i == FirstGreater(q, x) && i < |q|
    ensures var r := [q[i]] + q[i := x];
            && Ascending(q[i := x]) && Distinct(r)
            && Elements(r) == Elements(q) + {x}
            && |LessThan(Elements(r), q[i])| == |LessThan(Elements(q) + {x}, x)| + 1
  {
    SwapElements(q, x, i);
    SwapOrder(q, x, i);
    LessThanNext(q, x, i);
  }

  lemma SwapOrder(q: Perm, x: nat, i: nat)
    requires Ascending(q) && x !in q && i == FirstGreater(q, x) && i < |q|
    ensures Ascending(q[i := x]) && Distinct([q[i]] + q[i := x])
  {
    forall j | 0 <= j < i
      ensures q[j] < x
    {
      assert q[j] in q;
    }
  }

  lemma LessThanNext(q: Perm, x: nat, i: nat)
    requires Ascending(q) && x !in q && i == FirstGreater(q, x) && i < |q|
    ensures |LessThan(Elements(q) + {x}, q[i])| == |LessThan(Elements(q) + {x}, x)| + 1
  {
    var s := Elements(q) + {x};
    assert LessThan(s, q[i]) == LessThan(s, x) + {x};
  }
}
