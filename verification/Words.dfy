// Words, read backwards.
module Words {

  function Reverse<T>(w: seq<T>): (r: seq<T>)
    ensures |r| == |w|
  {
    if w == [] then [] else Reverse(w[1..]) + [w[0]]
  }

  lemma {:induction false} ReverseAppend<T>(w: seq<T>, a: T)
    ensures Reverse(w + [a]) == [a] + Reverse(w)
    decreases |w|
  {
    if w == [] {
      assert w + [a] == [a];
    } else {
      assert (w + [a])[1..] == w[1..] + [a];
      ReverseAppend(w[1..], a);
    }
  }

  lemma {:induction false} ReverseTwice<T>(w: seq<T>)
    ensures Reverse(Reverse(w)) == w
    decreases |w|
  {
    if w != [] {
      ReverseAppend(Reverse(w[1..]), w[0]);
      ReverseTwice(w[1..]);
    }
  }
}
