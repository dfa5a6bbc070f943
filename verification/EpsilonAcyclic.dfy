// The search for circuits of spontaneous transitions (vcsn/algos/is-acyclic.hh).
module EpsilonAcyclic {
  import opened Wrappers
  import opened Sets
  import opened AllDistances
  import opened EpsilonRemoval

  ghost predicate Hop<K>(a: Automaton<K>, p: State, q: State) {
    Arrow(p, None, q) in a.transitions
  }

  // Spontaneous transitions lead from each state to the next one.
  ghost predicate Trail<K>(a: Automaton<K>, path: seq<State>) {
    forall i | 0 <= i < |path| - 1 :: Hop(a, path[i], path[i + 1])
  }

  ghost predicate Circuit<K>(a: Automaton<K>, path: seq<State>) {
    |path| > 1 && path[0] == path[|path| - 1] && Trail(a, path)
  }

  ghost predicate HasCircuit<K>(a: Automaton<K>) {
    exists path :: Circuit(a, path)
  }

  // Spontaneous transitions lead from each state to previous ones.
  ghost predicate Ordered<K>(a: Automaton<K>, order: seq<State>) {
    forall i, q | 0 <= i < |order| && Hop(a, order[i], q) :: q in order[..i]
  }

  lemma {:induction false} TrailInside<K>(a: Automaton<K>, order: seq<State>, path: seq<State>, i: nat)
    requires Ordered(a, order) && Trail(a, path) && path != [] && i <= |order| && path[0] in order[..i]
    ensures path[|path| - 1] in order[..i]
    decreases |path|
  {
    if |path| > 1 {
      var j: nat :| j < i && order[j] == path[0];
      assert Hop(a, path[0], path[1]);
      assert path[1] in order[..j] && order[..j] <= order[..i];
      forall k | 0 <= k < |path[1..]| - 1
        ensures Hop(a, path[1..][k], path[1..][k + 1])
      {
        assert Hop(a, path[k + 1], path[k + 2]);
      }
      TrailInside(a, order, path[1..], i);
    }
  }

  // The first occurrence of s.
  lemma {:induction false} FirstOf(order: seq<State>, s: State) returns (i: nat)
    requires s in order
    ensures i < |order| && order[i] == s && s !in order[..i]
    decreases |order|
  {
    var last, rest := order[|order| - 1], order[..|order| - 1];
    if s in rest {
      i := FirstOf(rest, s);
      assert rest[..i] == order[..i];
    } else {
      i := |order| - 1;
    }
  }

  lemma OrderedNoCircuit<K>(a: Automaton<K>, order: seq<State>)
    requires Ordered(a, order) && forall e <- a.transitions :: e.src in order
    ensures !HasCircuit(a)
  {
    if path :| Circuit(a, path) {
      assert Hop(a, path[0], path[1]);
      assert Arrow(path[0], None, path[1]).src in order;
      var i := FirstOf(order, path[0]);
      var rest := path[1..];
      assert Hop(a, order[i], rest[0]);
      forall k | 0 <= k < |rest| - 1
        ensures Hop(a, rest[k], rest[k + 1])
      {
        assert Hop(a, path[k + 1], path[k + 2]);
      }
      TrailInside(a, order, rest, i);
    }
  }

  // The end of the path, and s, make a circuit.
  lemma CircuitClosed<K>(a: Automaton<K>, path: seq<State>, s: State)
    requires Trail(a, path + [s]) && s in path
    ensures HasCircuit(a)
  {
    var i :| 0 <= i < |path| && path[i] == s;
    var circuit := (path + [s])[i..];
    forall k | 0 <= k < |circuit| - 1
      ensures Hop(a, circuit[k], circuit[k + 1])
    {
      assert Hop(a, (path + [s])[i + k], (path + [s])[i + k + 1]);
    }
    assert Circuit(a, circuit);
  }

  lemma TrailMore<K>(a: Automaton<K>, path: seq<State>, s: State, d: State)
    requires Trail(a, path + [s]) && Hop(a, s, d)
    ensures Trail(a, path + [s] + [d])
  {
    var longer := path + [s] + [d];
    forall i | 0 <= i < |longer| - 1
      ensures Hop(a, longer[i], longer[i + 1])
    {
      if i < |path| {
        assert Hop(a, (path + [s])[i], (path + [s])[i + 1]);
      }
    }
  }

  lemma OrderedMore<K>(a: Automaton<K>, order: seq<State>, s: State)
    requires Ordered(a, order) && forall q | Hop(a, s, q) :: q in order
    ensures Ordered(a, order + [s])
  {
    forall i, q | 0 <= i < |order + [s]| && Hop(a, (order + [s])[i], q)
      ensures q in (order + [s])[..i]
    {
      assert (order + [s])[..i] == if i < |order| then order[..i] else order;
    }
  }

  // ---------------------------------------------------------------------
  // The states of the search
  // ---------------------------------------------------------------------

  datatype Status = Unknown | Acyclic | Cyclic

  // The states under exploration are those of path; those without circuits
  // are ordered.
  ghost predicate Tags<K>(a: Automaton<K>, tag: map<State, Status>, order: seq<State>, path: seq<State>) {
    && tag.Keys <= Elements(a.states)
    && (forall s :: s in tag && tag[s].Unknown? <==> s in path)
    && (forall s :: s in tag && tag[s].Acyclic? <==> s in order)
    && (forall s <- tag | tag[s].Cyclic? :: HasCircuit(a))
    && Ordered(a, order)
  }

  // Said of what equals tag, so as to be looked into only where needed.
  ghost predicate Exploring<K>(a: Automaton<K>, tag: map<State, Status>, order: seq<State>, path: seq<State>) {
    forall m | m == tag :: Tags(a, m, order, path)
  }

  lemma NothingExplored<K>(a: Automaton<K>)
    ensures Exploring(a, map[], [], [])
  {
    assert Tags(a, map[], [], []);
  }

  lemma Entered<K>(a: Automaton<K>, tag: map<State, Status>, order: seq<State>, path: seq<State>, s: State)
    requires Exploring(a, tag, order, path) && s in a.states && s !in tag
    ensures Exploring(a, tag[s := Unknown], order, path + [s])
    ensures Elements(a.states) - tag[s := Unknown].Keys < Elements(a.states) - tag.Keys
  {
    assert Tags(a, tag, order, path);
    assert s in Elements(a.states) - tag.Keys;
  }

  // All spontaneous transitions from s were followed.
  lemma Left<K>(a: Automaton<K>, tag: map<State, Status>, order: seq<State>, path: seq<State>, s: State,
                all: set<Arrow>)
    requires Exploring(a, tag, order, path + [s]) && s !in path
    requires all == (set e <- a.transitions | e.src == s && e.lbl.None?) && forall e <- all :: e.dst in order
    ensures Exploring(a, tag[s := Acyclic], order + [s], path)
  {
    assert Tags(a, tag, order, path + [s]);
    assert s in path + [s];
    forall q | Hop(a, s, q)
      ensures q in order
    {
      assert Arrow(s, None, q) in all;
    }
    OrderedMore(a, order, s);
  }

  // What the status of a known state tells.
  lemma Known<K>(a: Automaton<K>, tag: map<State, Status>, order: seq<State>, path: seq<State>, s: State)
    requires Exploring(a, tag, order, path) && s in tag && Trail(a, path + [s])
    ensures if tag[s].Acyclic? then s in order else HasCircuit(a)
  {
    assert Tags(a, tag, order, path);
    if tag[s].Unknown? {
      CircuitClosed(a, path, s);
    }
  }

  lemma NotOnPath<K>(a: Automaton<K>, tag: map<State, Status>, order: seq<State>, path: seq<State>, s: State)
    requires Exploring(a, tag, order, path)
    ensures s !in tag ==> s !in path
    ensures Ordered(a, order)
  {
    assert Tags(a, tag, order, path);
  }

  class AcyclicChecker<K(!new)> {
    const aut: Automaton<K>
    // The states that were reached.
    var tag: map<State, Status>
    // The states without circuits, as they were found.
    ghost var order: seq<State>

    constructor (aut: Automaton<K>)
      ensures this.aut == aut && tag == map[] && order == []
    {
      this.aut, tag, order := aut, map[], [];
    }

    ghost predicate Inside() {
      forall e <- aut.transitions :: e.src in aut.states && e.dst in aut.states
    }

    // Whether the automaton has no circuit of spontaneous transitions.
    method Run() returns (r: bool)
      requires Inside() && tag == map[] && order == []
      modifies this
      ensures r <==> !HasCircuit(aut)
      ensures r ==> Ordered(aut, order) && forall s <- aut.states :: s in order
    {
      NothingExplored(aut);
      var i := 0;
      while i < |aut.states|
        invariant i <= |aut.states| && Exploring(aut, tag, order, []) && forall s <- aut.states[..i] :: s in order
      {
        assert Trail(aut, [] + [aut.states[i]]);
        var circuit := CircuitFrom(aut.states[i], []);
        if circuit {
          return false;
        }
        TakeMore(aut.states, i);
        i := i + 1;
      }
      TakeAll(aut.states);
      NotOnPath(aut, tag, order, [], 0);
      OrderedNoCircuit(aut, order);
      r := true;
    }

    // Whether a circuit is accessible from s, which path leads to.
    method CircuitFrom(s: State, ghost path: seq<State>) returns (r: bool)
      requires Inside() && s in aut.states && Exploring(aut, tag, order, path) && Trail(aut, path + [s])
      modifies this
      ensures r ==> HasCircuit(aut)
      ensures !r ==> Exploring(aut, tag, order, path) && old(order) <= order && s in order && old(tag).Keys <= tag.Keys
      decreases Elements(aut.states) - tag.Keys
    {
      if s !in tag {
        Entered(aut, tag, order, path, s);
        NotOnPath(aut, tag, order, path, s);
        tag := tag[s := Unknown];
        ghost var known, before := tag.Keys, order;
        var todo := set e <- aut.transitions | e.src == s && e.lbl.None?;
        ghost var all := todo;
        while todo != {}
          invariant todo <= all && Exploring(aut, tag, order, path + [s]) && before <= order && known <= tag.Keys
          invariant forall e <- all - todo :: e.dst in order
          decreases todo
        {
          var t :| t in todo;
          assert Hop(aut, s, t.dst);
          if t.dst == s {
            assert Circuit(aut, [s, s]);
            tag := tag[s := Cyclic];
            return true;
          }
          TrailMore(aut, path, s, t.dst);
          var circuit := CircuitFrom(t.dst, path + [s]);
          if circuit {
            tag := tag[s := Cyclic];
            return true;
          }
          todo := todo - {t};
        }
        Left(aut, tag, order, path, s, all);
        tag := tag[s := Acyclic];
        order := order + [s];
        return false;
      }
      Known(aut, tag, order, path, s);
      match tag[s]
      case Unknown =>
        tag := tag[s := Cyclic];
        r := true;
      case Acyclic =>
        r := false;
      case Cyclic =>
        r := true;
    }
  }
}
