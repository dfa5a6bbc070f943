// All the combinations of permutations of some classes, one after the other,
// like the numbers of a positional system (vcsn/algos/are-isomorphic.hh).
module Combinations {
  import opened Sets
  import opened Permutations

  // The number of combinations.
  function Radix(cs: seq<Perm>): (r: nat)
    ensures r >= 1
  {
    if cs == [] then 1
    else
      var x, f := Radix(cs[..|cs| - 1]), Factorial(|cs[|cs| - 1]|);
      assert x * f >= 1;
      Times(x, f)
  }

  // The rightmost class is the least significant digit.
  function Number(cs: seq<Perm>): nat {
    if cs == [] then 0
    else Times(Number(cs[..|cs| - 1]), Factorial(|cs[|cs| - 1]|)) + Rank(cs[|cs| - 1])
  }

  ghost predicate AllDistinct(cs: seq<Perm>) {
    forall i | 0 <= i < |cs| :: Distinct(cs[i])
  }

  // The classes of ds are those of cs, permuted.
  ghost predicate Permuted(cs: seq<Perm>, ds: seq<Perm>) {
    |ds| == |cs| && AllDistinct(cs) && AllDistinct(ds) && forall i | 0 <= i < |cs| :: Elements(cs[i]) == Elements(ds[i])
  }

  lemma PermutedSizes(cs: seq<Perm>, ds: seq<Perm>)
    requires Permuted(cs, ds)
    ensures forall i | 0 <= i < |cs| :: |cs[i]| == |ds[i]|
  {
    forall i | 0 <= i < |cs|
      ensures |cs[i]| == |ds[i]|
    {
      ElementsSize(cs[i]);
      ElementsSize(ds[i]);
    }
  }

  lemma {:induction false} NumberBound(cs: seq<Perm>)
    requires AllDistinct(cs)
    ensures Number(cs) < Radix(cs)
    decreases |cs|
  {
    if cs != [] {
      var rest, last := cs[..|cs| - 1], cs[|cs| - 1];
      NumberBound(rest);
      RankBound(last);
      RadixBound(Number(rest), Radix(rest), Factorial(|last|), Rank(last));
    }
  }

  // One number for each combination.
  lemma {:induction false} NumberInjective(cs: seq<Perm>, ds: seq<Perm>)
    requires Permuted(cs, ds) && Number(cs) == Number(ds)
    ensures cs == ds
    decreases |cs|
  {
    if cs != [] {
      PermutedSizes(cs, ds);
      var n := |cs| - 1;
      RankBound(cs[n]);
      RankBound(ds[n]);
      RadixSame(Number(cs[..n]), Number(ds[..n]), Factorial(|cs[n]|), Rank(cs[n]), Rank(ds[n]));
      RankInjective(cs[n], ds[n]);
      NumberInjective(cs[..n], ds[..n]);
      assert cs == cs[..n] + [cs[n]] && ds == ds[..n] + [ds[n]];
    }
  }

  lemma {:induction false} SameRadix(cs: seq<Perm>, ds: seq<Perm>)
    requires |cs| == |ds| && forall i | 0 <= i < |cs| :: |cs[i]| == |ds[i]|
    ensures Radix(cs) == Radix(ds)
    decreases |cs|
  {
    if cs != [] {
      SameRadix(cs[..|cs| - 1], ds[..|ds| - 1]);
    }
  }

  // ---------------------------------------------------------------------
  // Carries
  // ---------------------------------------------------------------------

  lemma Carry(x: nat, r: nat, f: nat, y: nat, z: nat)
    ensures Times(Times(x, r) + y, f) + z == Times(x, Times(r, f)) + (Times(y, f) + z)
  {
    assert (x * r + y) * f == x * (r * f) + y * f;
  }

  // A prefix and a suffix.
  lemma {:induction false} NumberAppend(ps: seq<Perm>, ss: seq<Perm>)
    ensures Number(ps + ss) == Times(Number(ps), Radix(ss)) + Number(ss)
    decreases |ss|
  {
    if ss == [] {
      assert ps + ss == ps;
    } else {
      var rest, last := ss[..|ss| - 1], ss[|ss| - 1];
      NumberAppend(ps, rest);
      assert (ps + ss)[..|ps + ss| - 1] == ps + rest;
      Carry(Number(ps), Radix(rest), Factorial(|last|), Number(rest), Rank(last));
    }
  }

  ghost predicate AllFirst(cs: seq<Perm>) {
    forall i | 0 <= i < |cs| :: Rank(cs[i]) == 0
  }

  ghost predicate AllLast(cs: seq<Perm>) {
    forall i | 0 <= i < |cs| :: Rank(cs[i]) == Factorial(|cs[i]|) - 1
  }

  lemma {:induction false} FirstNumber(cs: seq<Perm>)
    requires AllFirst(cs)
    ensures Number(cs) == 0
    decreases |cs|
  {
    if cs != [] {
      FirstNumber(cs[..|cs| - 1]);
    }
  }

  lemma LastTimes(r: nat, f: nat)
    requires r >= 1 && f >= 1
    ensures Times(r - 1, f) + (f - 1) == Times(r, f) - 1
  {
  }

  lemma {:induction false} LastNumber(cs: seq<Perm>)
    requires AllLast(cs)
    ensures Number(cs) == Radix(cs) - 1
    decreases |cs|
  {
    if cs != [] {
      var rest, last := cs[..|cs| - 1], cs[|cs| - 1];
      LastNumber(rest);
      LastTimes(Radix(rest), Factorial(|last|));
    }
  }

  // The last digits are reset, and the one before is incremented.
  lemma NextNumber(ps: seq<Perm>, c: Perm, ss: seq<Perm>, d: Perm, ts: seq<Perm>)
    requires |c| == |d| && Rank(d) == Rank(c) + 1
    requires |ss| == |ts| && (forall i | 0 <= i < |ss| :: |ss[i]| == |ts[i]|) && AllLast(ss) && AllFirst(ts)
    ensures Number(ps + [d] + ts) == Number(ps + [c] + ss) + 1
  {
    NumberAppend(ps + [c], ss);
    NumberAppend(ps + [d], ts);
    SameRadix(ss, ts);
    FirstNumber(ts);
    LastNumber(ss);
    assert (ps + [c])[..|ps|] == ps && (ps + [d])[..|ps|] == ps;
    OneMoreTimes(Number(ps + [c]), Radix(ss));
  }

  lemma OneMoreTimes(x: nat, r: nat)
    requires r >= 1
    ensures Times(x + 1, r) == Times(x, r) + (r - 1) + 1
  {
  }

  // ---------------------------------------------------------------------
  // The enumeration
  // ---------------------------------------------------------------------

  class ClassCombinations {
    var classes: seq<Perm>
    // The number of the last permutation of each class, and of its current one.
    var permutationMax: seq<nat>
    var permutationGenerated: seq<nat>

    ghost predicate Valid()
      reads this
    {
      && AllDistinct(classes)
      && |permutationMax| == |permutationGenerated| == |classes|
      && (forall i | 0 <= i < |classes| :: permutationMax[i] == Factorial(|classes[i]|) - 1)
      && (forall i | 0 <= i < |classes| :: permutationGenerated[i] == Rank(classes[i]))
    }

    // All the classes have to be in their first configuration.
    constructor (classes: seq<Perm>)
      requires AllDistinct(classes) && forall i | 0 <= i < |classes| :: Ascending(classes[i])
      ensures Valid() && this.classes == classes && Number(classes) == 0
    {
      this.classes := classes;
      permutationMax, permutationGenerated := [], [];
      new;
      for i := 0 to |classes|
        invariant this.classes == classes && |permutationMax| == |permutationGenerated| == i
        invariant forall j | 0 <= j < i :: permutationMax[j] == Factorial(|classes[j]|) - 1
        invariant forall j | 0 <= j < i :: permutationGenerated[j] == Rank(classes[j]) == 0
      {
        AscendingRank(classes[i]);
        permutationMax := permutationMax + [Factorial(|classes[i]|) - 1];
        permutationGenerated := permutationGenerated + [0];
      }
      FirstNumber(classes);
    }

    // The class i goes to its first configuration.
    method Reset(i: nat)
      requires Valid() && i < |classes| && permutationGenerated[i] == permutationMax[i]
      modifies this
      ensures Valid() && Permuted(old(classes), classes) && permutationMax == old(permutationMax)
      ensures classes == old(classes)[i := classes[i]] && Rank(classes[i]) == 0
      ensures permutationGenerated == old(permutationGenerated)[i := 0]
    {
      NextRank(classes[i]);
      NotLast(classes[i]);
      AscendingRank(Next(classes[i]).1);
      classes := classes[i := Next(classes[i]).1];
      permutationGenerated := permutationGenerated[i := 0];
    }

    lemma NotLast(p: Perm)
      requires Distinct(p)
      ensures Next(p).0 <==> Rank(p) < Factorial(|p|) - 1
    {
      NextRank(p);
      var q := Next(p).1;
      ElementsSize(p);
      ElementsSize(q);
      RankBound(q);
    }

    // The class i goes to its next configuration.
    method Permute(i: nat, ghost cs: seq<Perm>)
      requires Valid() && i < |classes| && Next(classes[i]).0 && Carried(cs, classes, i)
      modifies this
      ensures Valid() && Permuted(cs, classes) && Number(classes) == Number(cs) + 1
    {
      var d := Next(classes[i]).1;
      NextRank(classes[i]);
      Increment(cs, i, d, classes);
      classes := classes[i := d];
      permutationGenerated := permutationGenerated[i := permutationGenerated[i] + 1];
    }

    // The class i has another configuration unless it has its last one.
    lemma NextGuard(i: nat)
      requires Valid() && i < |classes|
      ensures Next(classes[i]).0 <==> permutationGenerated[i] != permutationMax[i]
    {
      NotLast(classes[i]);
      RankBound(classes[i]);
    }

    // The class i goes to its first configuration, and the one before it has to
    // be permuted.
    method Carry(i: nat, ghost cs: seq<Perm>)
      requires Valid() && i < |classes| && permutationGenerated[i] == permutationMax[i] && Carried(cs, classes, i)
      modifies this
      ensures Valid() && |classes| == |cs| && Carried(cs, classes, i - 1)
    {
      ghost var ds := classes;
      Reset(i);
      CarriedMore(cs, ds, i, classes);
    }

    // The next combination, obtained by permuting the rightmost class, and by
    // propagating the carry; false if there is none.
    method NextCombination() returns (more: bool)
      requires Valid() && classes != []
      modifies this
      ensures Valid() && Permuted(old(classes), classes)
      ensures if more then Number(classes) == Number(old(classes)) + 1
              else Number(old(classes)) == Radix(old(classes)) - 1
    {
      var rightmost := |classes| - 1;
      ghost var cs := classes;
      CarriedStart(cs);
      NextGuard(rightmost);
      if Next(classes[rightmost]).0 {
        // Easy case: no carry.
        Permute(rightmost, cs);
        return true;
      }
      Carry(rightmost, cs);
      var i := rightmost - 1;
      while i >= 0 && permutationGenerated[i] == permutationMax[i]
        invariant -1 <= i < rightmost && Valid() && |classes| == |cs| && Carried(cs, classes, i)
      {
        Carry(i, cs);
        i := i - 1;
      }
      if i == -1 {
        CarryOverflow(cs, classes);
        return false;
      }
      NextGuard(i);
      Permute(i, cs);
      more := true;
    }

    lemma Increment(cs: seq<Perm>, i: nat, d: Perm, ds: seq<Perm>)
      requires i < |cs| && Carried(cs, ds, i)
      requires Distinct(d) && Elements(d) == Elements(ds[i]) && Rank(d) == Rank(ds[i]) + 1
      ensures Permuted(cs, ds[i := d]) && Number(ds[i := d]) == Number(cs) + 1
    {
      assert Carries(cs, ds, i);
      assert cs[i] == cs[..i + 1][i] == ds[i];
      PermutedSizes(cs, ds);
      ElementsSize(d);
      ElementsSize(cs[i]);
      assert cs[..i] == cs[..i + 1][..i] == ds[..i];
      IncrementNumber(cs, i, d, ds);
    }

    lemma IncrementNumber(cs: seq<Perm>, i: nat, d: Perm, ds: seq<Perm>)
      requires i < |cs| == |ds| && cs[..i] == ds[..i] && |d| == |cs[i]| && Rank(d) == Rank(cs[i]) + 1
      requires (forall j | 0 <= j < |cs| :: |cs[j]| == |ds[j]|) && AllLast(cs[i + 1..]) && AllFirst(ds[i + 1..])
      ensures Number(ds[i := d]) == Number(cs) + 1
    {
      NextNumber(cs[..i], cs[i], cs[i + 1..], d, ds[i + 1..]);
      assert cs == cs[..i] + [cs[i]] + cs[i + 1..];
      PutBetween(ds, i, d);
    }

    lemma PutBetween(ds: seq<Perm>, i: nat, d: Perm)
      requires i < |ds|
      ensures ds[i := d] == ds[..i] + [d] + ds[i + 1..]
    {
    }
  }

  // The classes after i were reset from their last configurations.
  ghost predicate Carries(cs: seq<Perm>, ds: seq<Perm>, i: int) {
    && -1 <= i < |cs| && Permuted(cs, ds) && cs[..i + 1] == ds[..i + 1]
    && AllLast(cs[i + 1..]) && AllFirst(ds[i + 1..])
  }

  // Said of what equals ds, so as to be looked into only where needed.
  ghost predicate Carried(cs: seq<Perm>, ds: seq<Perm>, i: int) {
    |ds| == |cs| && -1 <= i < |cs| && forall es | es == ds :: Carries(cs, es, i)
  }

  lemma CarriedStart(cs: seq<Perm>)
    requires AllDistinct(cs)
    ensures Carried(cs, cs, |cs| - 1)
  {
    assert cs[|cs|..] == [];
    assert Carries(cs, cs, |cs| - 1);
  }

  lemma Around(cs: seq<Perm>, ds: seq<Perm>, i: nat, es: seq<Perm>)
    requires |cs| == |ds| == |es| && i < |cs| && cs[..i + 1] == ds[..i + 1] && es == ds[i := es[i]]
    ensures es[..i] == cs[..i]
    ensures cs[i..] == [cs[i]] + cs[i + 1..] && es[i..] == [es[i]] + ds[i + 1..]
  {
    assert cs[..i] == cs[..i + 1][..i] && ds[..i] == ds[..i + 1][..i];
  }

  lemma CarriedMore(cs: seq<Perm>, ds: seq<Perm>, i: nat, es: seq<Perm>)
    requires Carried(cs, ds, i) && Permuted(ds, es) && es == ds[i := es[i]] && Rank(es[i]) == 0
    requires Rank(ds[i]) == Factorial(|ds[i]|) - 1
    ensures Carried(cs, es, i - 1)
  {
    assert Carries(cs, ds, i);
    assert cs[i] == cs[..i + 1][i] == ds[i];
    Around(cs, ds, i, es);
    assert Carries(cs, es, i - 1);
  }

  lemma CarryOverflow(cs: seq<Perm>, ds: seq<Perm>)
    requires Carried(cs, ds, -1)
    ensures Permuted(cs, ds) && Number(cs) == Radix(cs) - 1
  {
    assert Carries(cs, ds, -1);
    assert cs[0..] == cs;
    LastNumber(cs);
  }
}
