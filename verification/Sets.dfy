// Finite sets, and the sets of the elements of lists.
module Sets {

  lemma {:induction false} SubsetSize<T>(a: set<T>, b: set<T>)
    requires a <= b
    ensures |a| <= |b| && (|a| == |b| ==> a == b)
    decreases |a|
  {
    if a != {} {
      var x :| x in a;
      SubsetSize(a - {x}, b - {x});
      if |a| == |b| {
        assert a == (a - {x}) + {x} && b == (b - {x}) + {x};
      }
    }
  }

  lemma UnionSize<T>(a: set<T>, b: set<T>)
    ensures |a + b| <= |a| + |b|
  {
    assert a + b == a + (b - a);
    SubsetSize(b - a, b);
  }

  lemma OneMoreEach<S, T>(a: set<S>, x: S, b: set<T>, y: T)
    requires x in a && y !in b && |b| == |a - {x}|
    ensures |b + {y}| == |a|
  {
    assert a == (a - {x}) + {x};
  }

  // Taking one element out of what remains to do.
  lemma OneMore<T>(all: set<T>, todo: set<T>, x: T)
    requires x in todo && todo <= all
    ensures all - todo + {x} == all - (todo - {x})
  {
  }

  // ---------------------------------------------------------------------
  // Lists
  // ---------------------------------------------------------------------

  ghost predicate Distinct<T>(s: seq<T>) {
    forall i, j | 0 <= i < j < |s| :: s[i] != s[j]
  }

  function Elements<T(!new)>(s: seq<T>): (r: set<T>)
    ensures forall x :: x in r <==> x in s
  {
    set x <- s
  }

  lemma {:induction false} ElementsSize<T(!new)>(s: seq<T>)
    requires Distinct(s)
    ensures |Elements(s)| == |s|
    decreases |s|
  {
    if s != [] {
      var last, rest := s[|s| - 1], s[..|s| - 1];
      ElementsSize(rest);
      assert last !in rest;
      assert Elements(s) == Elements(rest) + {last};
    }
  }

  lemma TakeMore<T>(s: seq<T>, i: nat)
    requires i < |s|
    ensures s[..i + 1] == s[..i] + [s[i]]
  {
  }

  lemma TakeAll<T>(s: seq<T>)
    ensures s[..|s|] == s
  {
  }
}
