// Cerny automata (vcsn/algos/cerny.hh): the generator, and the exact length
// of a shortest synchronizing word.
module Cerny {
  import opened Sets
  import opened BoolAutomata
  import opened Wrappers

  // The destination of state q by a generator; `first` tells whether it is
  // the first generator of the labelset.
  function Delta(n: nat, first: bool, q: State): (r: State)
    requires q < n
    ensures r < n
  {
    if q == n - 1 then 0 else if first then q + 1 else q
  }

  lemma NextOnCycle(n: nat, q: State)
    requires q < n
    ensures (q + 1) % n == if q == n - 1 then 0 else q + 1
  {
  }

  // The states 0, ..., n - 1.
  function Range(n: nat): (r: set<State>)
    ensures forall i :: i in r <==> 0 <= i < n
  {
    if n == 0 then {} else Range(n - 1) + {n - 1}
  }

  // The transitions leaving the states of S by the given letters.
  function Fan(generators: seq<Letter>, n: nat, S: set<State>, letters: seq<Letter>): set<Transition<Letter>>
    requires letters == [] || generators != []
    requires forall i <- S :: i < n
  {
    set i <- S, l <- letters :: Transition(i, l, Delta(n, l == generators[0], i))
  }

  lemma FanAppend(generators: seq<Letter>, n: nat, i: State, letters: seq<Letter>, l: Letter)
    requires generators != [] && i < n
    ensures Fan(generators, n, {i}, letters + [l])
            == Fan(generators, n, {i}, letters) + {Transition(i, l, Delta(n, l == generators[0], i))}
  {
    var t := Transition(i, l, Delta(n, l == generators[0], i));
    forall x
      ensures x in Fan(generators, n, {i}, letters + [l]) <==> x in Fan(generators, n, {i}, letters) + {t}
    {
      if x == t {
        assert l in letters + [l];
      } else if x in Fan(generators, n, {i}, letters) {
        assert x.lbl in letters + [l];
      }
    }
  }

  // The automaton with n states over the given generators.
  function CernyAutomaton(generators: seq<Letter>, n: nat): Automaton<Letter>
    requires n > 0
  {
    Automaton(Range(n), {0}, {0}, Fan(generators, n, Range(n), generators))
  }

  method Generate(generators: seq<Letter>, numStates: nat) returns (r: Result<Automaton<Letter>>)
    requires Distinct(generators)
    ensures numStates == 0 ==> r == Error("num_states must be > 0")
    ensures numStates > 0 ==> r == Ok(CernyAutomaton(generators, numStates))
  {
    if !(0 < numStates) {
      return Error("num_states must be > 0");
    }
    var res := Empty<Letter>();
    for i := 0 to numStates
      invariant res == Automaton(Range(i), {}, {}, {})
    {
      res := res.(states := res.states + {i});
    }
    for i := 0 to numStates
      invariant res == Automaton(Range(numStates), {}, {}, Fan(generators, numStates, Range(i), generators))
    {
      var la := true;
      ghost var before := res.transitions;
      for g := 0 to |generators|
        invariant la == (g == 0)
        invariant res == Automaton(Range(numStates), {}, {},
                                   before + Fan(generators, numStates, {i}, generators[..g]))
      {
        var l := generators[g];
        var dest := if la || i == numStates - 1 then (i + 1) % numStates else i;
        NextOnCycle(numStates, i);
        assert dest == Delta(numStates, l == generators[0], i);
        FanAppend(generators, numStates, i, generators[..g], l);
        assert generators[..g + 1] == generators[..g] + [l];
        res := res.(transitions := res.transitions + {Transition(i, l, dest)});
        la := false;
      }
      assert generators[..|generators|] == generators;
    }
    res := res.(initial := {0});
    res := res.(final := {0});
    return Ok(res);
  }

  // All paths labelled w, from whatever state, end in r.
  ghost predicate Synchronizes<L>(a: Automaton<L>, w: seq<L>, r: State) {
    forall q <- a.states :: a.Run({q}, w) == {r}
  }

  ghost predicate Synchronizing<L>(a: Automaton<L>, w: seq<L>) {
    exists r <- a.states :: Synchronizes(a, w, r)
  }

  // ---------------------------------------------------------------------
  // Words as functions on states
  // ---------------------------------------------------------------------

  // A word is abstracted into the sequence of "is it the first generator?".
  function DeltaStar(n: nat, q: State, u: seq<bool>): (r: State)
    requires q < n
    ensures r < n
    decreases |u|
  {
    if u == [] then q else DeltaStar(n, Delta(n, u[0], q), u[1..])
  }

  ghost function Shape(generators: seq<Letter>, w: seq<Letter>): (u: seq<bool>)
    requires generators != []
    ensures |u| == |w|
  {
    seq(|w|, i requires 0 <= i < |w| => w[i] == generators[0])
  }

  ghost predicate Over(generators: seq<Letter>, w: seq<Letter>) {
    forall l <- w :: l in generators
  }

  lemma StepIsDelta(generators: seq<Letter>, n: nat, q: State, l: Letter)
    requires q < n
    ensures CernyAutomaton(generators, n).Step({q}, l)
            == if l in generators then {Delta(n, l == generators[0], q)} else {}
  {
    var a := CernyAutomaton(generators, n);
    if l in generators {
      assert q in Range(n);
      assert Transition(q, l, Delta(n, l == generators[0], q)) in a.transitions;
    }
  }

  lemma {:induction false} RunOfEmpty<L>(a: Automaton<L>, w: seq<L>)
    ensures a.Run({}, w) == {}
  {
    if w != [] {
      assert a.Step({}, w[0]) == {};
      RunOfEmpty(a, w[1..]);
    }
  }

  // A word runs deterministically, and gets stuck outside of the alphabet.
  lemma {:induction false} RunIsDeltaStar(generators: seq<Letter>, n: nat, q: State, w: seq<Letter>)
    requires q < n && generators != []
    ensures CernyAutomaton(generators, n).Run({q}, w)
            == if Over(generators, w) then {DeltaStar(n, q, Shape(generators, w))} else {}
    decreases |w|
  {
    if w != [] {
      var a := CernyAutomaton(generators, n);
      StepIsDelta(generators, n, q, w[0]);
      assert w == [w[0]] + w[1..];
      if w[0] in generators {
        var q' := Delta(n, w[0] == generators[0], q);
        RunIsDeltaStar(generators, n, q', w[1..]);
        assert Shape(generators, w)[1..] == Shape(generators, w[1..]);
      } else {
        RunOfEmpty(a, w[1..]);
      }
    }
  }

  // ---------------------------------------------------------------------
  // Lower bound
  // ---------------------------------------------------------------------

  // The state k places before e on the cycle.
  function Back(n: nat, e: State, k: nat): (q: State)
    requires e < n && k < n
    ensures q < n
  {
    if k <= e then e - k else e + n - k
  }

  // The len states ending in e are not sent to r by u.
  ghost predicate Misses(n: nat, u: seq<bool>, r: State, e: State, len: nat)
    requires e < n && len <= n
  {
    forall k | 0 <= k < len :: DeltaStar(n, Back(n, e, k), u) != r
  }

  // k turns of a cycle of n states.
  function Times(k: nat, n: nat): nat {
    if k == 0 then 0 else n + Times(k - 1, n)
  }

  lemma {:induction false} TimesIsProduct(k: nat, n: nat)
    ensures Times(k, n) == k * n
  {
    if k > 0 {
      TimesIsProduct(k - 1, n);
      assert k * n == (k - 1) * n + n;
    }
  }

  // The letters still needed, at least, in front of u to send these states to r.
  function Need(n: nat, e: State, len: nat): nat
    requires e < n && len >= 1
  {
    Delta(n, true, e) + 1 + Times(len - 1, n)
  }

  // A run of missed states shrinks by at most one state per turn of the cycle.
  lemma {:induction false} GapNeedsTurns(n: nat, x: seq<bool>, u: seq<bool>, r: State, e: State, len: nat)
    requires e < n && 1 <= len <= n
    requires Misses(n, u, r, e, len)
    requires forall q: nat | q < n :: DeltaStar(n, q, x + u) == r
    ensures |x| >= Need(n, e, len)
    decreases |x|
  {
    assert DeltaStar(n, Back(n, e, 0), u) != r;
    assert x == [] ==> x + u == u;
    if x != [] {
      var c := x[|x| - 1];
      var x', u' := x[..|x| - 1], [c] + u;
      assert x' + u' == x + u;
      if c {
        GapRotates(n, u, r, e, len);
        GapNeedsTurns(n, x', u', r, if e == 0 then n - 1 else e - 1, len);
      } else if e == n - 1 && DeltaStar(n, 0, u) == r {
        if len > 1 {
          GapShrinks(n, u, r, len);
          GapNeedsTurns(n, x', u', r, n - 2, len - 1);
        }
      } else {
        GapStays(n, u, r, e, len);
        GapNeedsTurns(n, x', u', r, e, len);
      }
    }
  }

  lemma PrefixLetter(n: nat, q: State, c: bool, u: seq<bool>)
    requires q < n
    ensures DeltaStar(n, q, [c] + u) == DeltaStar(n, Delta(n, c, q), u)
  {
    assert ([c] + u)[1..] == u;
  }

  lemma GapRotates(n: nat, u: seq<bool>, r: State, e: State, len: nat)
    requires e < n && 1 <= len <= n
    requires Misses(n, u, r, e, len)
    ensures Misses(n, [true] + u, r, if e == 0 then n - 1 else e - 1, len)
  {
    var e' := if e == 0 then n - 1 else e - 1;
    forall k | 0 <= k < len
      ensures DeltaStar(n, Back(n, e', k), [true] + u) != r
    {
      PrefixLetter(n, Back(n, e', k), true, u);
      assert Delta(n, true, Back(n, e', k)) == Back(n, e, k);
    }
  }

  lemma GapShrinks(n: nat, u: seq<bool>, r: State, len: nat)
    requires 2 <= len <= n
    requires Misses(n, u, r, n - 1, len)
    ensures Misses(n, [false] + u, r, n - 2, len - 1)
  {
    forall k: nat {:trigger Back(n, n - 2, k)} | k < len - 1
      ensures DeltaStar(n, Back(n, n - 2, k), [false] + u) != r
    {
      var q := Back(n, n - 2, k);
      PrefixLetter(n, q, false, u);
      assert q == Back(n, n - 1, k + 1) == Delta(n, false, q);
    }
  }

  lemma GapStays(n: nat, u: seq<bool>, r: State, e: State, len: nat)
    requires e < n && 1 <= len <= n
    requires Misses(n, u, r, e, len)
    requires e == n - 1 ==> DeltaStar(n, 0, u) != r
    ensures Misses(n, [false] + u, r, e, len)
  {
    forall k | 0 <= k < len
      ensures DeltaStar(n, Back(n, e, k), [false] + u) != r
    {
      var q := Back(n, e, k);
      PrefixLetter(n, q, false, u);
      if q == n - 1 && k > 0 {
        assert 0 == Back(n, e, k - 1);
      }
    }
  }

  lemma SquareAsTurns(n: nat)
    requires n >= 2
    ensures (n - 1) * (n - 1) == 1 + (n - 2) * n
  {
  }

  lemma LowerBound(n: nat, x: seq<bool>, r: State)
    requires r < n
    requires forall q: nat | q < n :: DeltaStar(n, q, x) == r
    ensures |x| >= (n - 1) * (n - 1) + if n == 1 then 0 else r
  {
    if n >= 2 {
      var e := if r == 0 then n - 1 else r - 1;
      assert x + [] == x;
      assert Misses(n, [], r, e, n - 1);
      GapNeedsTurns(n, x, [], r, e, n - 1);
      TimesIsProduct(n - 2, n);
      SquareAsTurns(n);
    }
  }

  // ---------------------------------------------------------------------
  // Upper bound
  // ---------------------------------------------------------------------

  function Power(l: Letter, k: nat): (w: seq<Letter>)
    ensures |w| == k && forall i | 0 <= i < k :: w[i] == l
  {
    seq(k, _ => l)
  }

  // b (a^{n-1} b)^k
  function Turns(a: Letter, b: Letter, n: nat, k: nat): (w: seq<Letter>)
    requires n >= 2
    ensures |w| == 1 + Times(k, n)
  {
    if k == 0 then [b] else Turns(a, b, n, k - 1) + (Power(a, n - 1) + [b])
  }

  lemma {:induction false} DeltaStarConcat(n: nat, q: State, u: seq<bool>, v: seq<bool>)
    requires q < n
    ensures DeltaStar(n, q, u + v) == DeltaStar(n, DeltaStar(n, q, u), v)
    decreases |u|
  {
    if u == [] {
      assert u + v == v;
    } else {
      assert (u + v)[1..] == u[1..] + v;
      DeltaStarConcat(n, Delta(n, u[0], q), u[1..], v);
    }
  }

  lemma {:induction false} RotateBy(n: nat, q: State, k: nat)
    requires q < n && k < n
    ensures DeltaStar(n, q, seq(k, _ => true)) == if q + k < n then q + k else q + k - n
    decreases k
  {
    if k > 0 {
      assert seq(k, _ => true) == [true] + seq(k - 1, _ => true);
      PrefixLetter(n, q, true, seq(k - 1, _ => true));
      RotateBy(n, Delta(n, true, q), k - 1);
    }
  }

  // One turn a^{n-1} b brings a state one place down, and leaves 0 there.
  lemma OneTurn(n: nat, p: State)
    requires n >= 2 && p < n - 1
    ensures DeltaStar(n, p, seq(n - 1, _ => true) + [false]) == if p == 0 then 0 else p - 1
  {
    var turn := seq(n - 1, _ => true);
    DeltaStarConcat(n, p, turn, [false]);
    RotateBy(n, p, n - 1);
    PrefixLetter(n, DeltaStar(n, p, turn), false, []);
    assert [false] + [] == [false];
  }

  lemma ShapeOfTurns(generators: seq<Letter>, n: nat, k: nat)
    requires n >= 2 && k > 0
    requires |generators| >= 2 && Distinct(generators)
    ensures Shape(generators, Turns(generators[0], generators[1], n, k))
            == Shape(generators, Turns(generators[0], generators[1], n, k - 1)) + (seq(n - 1, _ => true) + [false])
  {
  }

  // After k turns, every state is below n - 1 - k.
  lemma {:induction false} TurnsSqueeze(generators: seq<Letter>, n: nat, q: State, k: nat)
    requires q < n && n >= 2 && k <= n - 2
    requires |generators| >= 2 && Distinct(generators)
    ensures DeltaStar(n, q, Shape(generators, Turns(generators[0], generators[1], n, k))) <= n - 2 - k
    decreases k
  {
    if k == 0 {
      assert generators[0] != generators[1];
      assert Shape(generators, [generators[1]]) == [false] + [];
      PrefixLetter(n, q, false, []);
    } else {
      TurnsSqueeze(generators, n, q, k - 1);
      var u := Shape(generators, Turns(generators[0], generators[1], n, k - 1));
      ShapeOfTurns(generators, n, k);
      DeltaStarConcat(n, q, u, seq(n - 1, _ => true) + [false]);
      OneTurn(n, DeltaStar(n, q, u));
    }
  }

  lemma {:induction false} TurnsOver(generators: seq<Letter>, n: nat, k: nat)
    requires n >= 2 && |generators| >= 2
    ensures Over(generators, Turns(generators[0], generators[1], n, k))
    decreases k
  {
    if k > 0 {
      TurnsOver(generators, n, k - 1);
    }
  }

  // ---------------------------------------------------------------------
  // Fewer than two letters
  // ---------------------------------------------------------------------

  // Without letters, only the empty word runs, and it merges no states.
  lemma NoLettersNoMerge(n: nat, w: seq<Letter>)
    requires n > 0
    requires Synchronizing(CernyAutomaton([], n), w)
    ensures n == 1 && w == []
  {
    var a := CernyAutomaton([], n);
    var r :| r in a.states && Synchronizes(a, w, r);
    assert 0 in a.states && n - 1 in a.states;
    if w == [] {
      assert a.Run({0}, w) == a.Run({n - 1}, w) == {r};
      assert 0 in {r} && n - 1 in {r};
    } else {
      StepIsDelta([], n, 0, w[0]);
      RunOfEmpty(a, w[1..]);
      assert false;
    }
  }

  // The first letter alone permutes the states.
  lemma {:induction false} RotationsAreInjective(n: nat, p: State, q: State, u: seq<bool>)
    requires p < n && q < n && p != q
    requires forall i | 0 <= i < |u| :: u[i]
    ensures DeltaStar(n, p, u) != DeltaStar(n, q, u)
    decreases |u|
  {
    if u != [] {
      RotationsAreInjective(n, Delta(n, u[0], p), Delta(n, u[0], q), u[1..]);
    }
  }

  lemma OneLetterNoMerge(l: Letter, n: nat, w: seq<Letter>)
    requires n > 0
    requires Synchronizing(CernyAutomaton([l], n), w)
    ensures n == 1
  {
    var a := CernyAutomaton([l], n);
    var r :| r in a.states && Synchronizes(a, w, r);
    assert 0 in a.states && n - 1 in a.states;
    RunIsDeltaStar([l], n, 0, w);
    RunIsDeltaStar([l], n, n - 1, w);
    assert r in a.Run({0}, w);
    if n > 1 {
      forall i | 0 <= i < |w|
        ensures Shape([l], w)[i]
      {
        assert w[i] in [l];
      }
      RotationsAreInjective(n, 0, n - 1, Shape([l], w));
    }
  }

  // ---------------------------------------------------------------------
  // Main results
  // ---------------------------------------------------------------------

  // No synchronizing word is shorter than (n-1)^2.
  lemma NoShorterSynchronizingWord(generators: seq<Letter>, n: nat, w: seq<Letter>)
    requires n > 0 && Distinct(generators)
    requires Synchronizing(CernyAutomaton(generators, n), w)
    ensures |w| >= (n - 1) * (n - 1)
  {
    var a := CernyAutomaton(generators, n);
    var r :| r in a.states && Synchronizes(a, w, r);
    if generators == [] {
      NoLettersNoMerge(n, w);
      return;
    }
    var u := Shape(generators, w);
    forall q: nat | q < n
      ensures Over(generators, w) && DeltaStar(n, q, u) == r
    {
      assert q in a.states;
      RunIsDeltaStar(generators, n, q, w);
      assert r in a.Run({q}, w);
      assert DeltaStar(n, q, u) in a.Run({q}, w);
    }
    LowerBound(n, u, r);
  }

  // A word of length (n-1)^2 is synchronizing.
  lemma SynchronizingWordOfSquareLength(generators: seq<Letter>, n: nat) returns (w: seq<Letter>)
    requires n > 0 && |generators| >= 2 && Distinct(generators)
    ensures |w| == (n - 1) * (n - 1)
    ensures Synchronizes(CernyAutomaton(generators, n), w, 0)
  {
    if n == 1 {
      w := [];
    } else {
      TimesIsProduct(n - 2, n);
      SquareAsTurns(n);
      w := Turns(generators[0], generators[1], n, n - 2);
      TurnsOver(generators, n, n - 2);
      forall q <- CernyAutomaton(generators, n).states
        ensures CernyAutomaton(generators, n).Run({q}, w) == {0}
      {
        TurnsSqueeze(generators, n, q, n - 2);
        RunIsDeltaStar(generators, n, q, w);
      }
    }
  }

  // The automaton can be synchronized iff it has one state or two letters,
  // and then the length of a shortest synchronizing word is exactly (n-1)^2.
  lemma ShortestSynchronizingWord(generators: seq<Letter>, n: nat)
    requires n > 0 && Distinct(generators)
    ensures (n == 1 || |generators| >= 2)
            <==> exists w: seq<Letter> :: Synchronizing(CernyAutomaton(generators, n), w)
    ensures n == 1 || |generators| >= 2 ==>
              exists w: seq<Letter> :: |w| == (n - 1) * (n - 1) && Synchronizing(CernyAutomaton(generators, n), w)
    ensures forall w: seq<Letter> :: Synchronizing(CernyAutomaton(generators, n), w) ==> |w| >= (n - 1) * (n - 1)
  {
    var a := CernyAutomaton(generators, n);
    assert 0 in a.states;
    if n == 1 {
      assert Synchronizes(a, [], 0);
      assert Synchronizing(a, []);
    } else if |generators| >= 2 {
      var w := SynchronizingWordOfSquareLength(generators, n);
      assert Synchronizing(a, w);
    }
    forall v: seq<Letter> | Synchronizing(a, v)
      ensures |v| >= (n - 1) * (n - 1)
      ensures n == 1 || |generators| >= 2
    {
      NoShorterSynchronizingWord(generators, n, v);
      if generators == [] {
        NoLettersNoMerge(n, v);
      } else if |generators| == 1 {
        assert generators == [generators[0]];
        OneLetterNoMerge(generators[0], n, v);
      }
    }
  }
}
