// Automata under construction whose states are named: by expressions
// (vcsn/core/expression-automaton.hh), by sets of states
// (vcsn/core/polystate-automaton.hh), or by tuples of states.
module NamedAutomata {
  import opened BoolAutomata

  datatype Link<N, L> = Link(src: N, lbl: L, dst: N)

  // The state of the construction: the automaton, the bijection between
  // names and states, the states to process, the next fresh state, and, for
  // the proofs, the links made between names, the names made final, and
  // those processed.
  datatype Build<N, L(==)> = Build(
    aut: Automaton<L>,
    left: map<N, State>,
    right: map<State, N>,
    todo: seq<(State, N)>,
    next: State,
    links: set<Link<N, L>>,
    finals: set<N>,
    processed: set<N>)

  ghost predicate Bimap<N>(left: map<N, State>, right: map<State, N>) {
    && (forall n <- left :: left[n] in right && right[left[n]] == n)
    && (forall s <- right :: right[s] in left && left[right[s]] == s)
  }

  ghost predicate Named<N, L>(b: Build<N, L>) {
    && Bimap(b.left, b.right)
    && b.aut.states == b.right.Keys
    && forall s <- b.right :: s < b.next
  }

  // The transitions of the automaton are the links between names.
  ghost predicate Linked<N, L>(b: Build<N, L>) {
    && (forall x <- b.links ::
          x.src in b.left && x.dst in b.left && Transition(b.left[x.src], x.lbl, b.left[x.dst]) in b.aut.transitions)
    && (forall t <- b.aut.transitions ::
          t.src in b.right && t.dst in b.right && Link(b.right[t.src], t.lbl, b.right[t.dst]) in b.links)
  }

  // Each name was processed, or is to be.
  ghost predicate Scheduled<N>(left: map<N, State>, todo: seq<(State, N)>, processed: set<N>) {
    && (forall i | 0 <= i < |todo| :: todo[i].1 in left && left[todo[i].1] == todo[i].0 && todo[i].1 !in processed)
    && (forall i, j | 0 <= i < j < |todo| :: todo[i].1 != todo[j].1)
    && (forall n <- left :: n in processed || (left[n], n) in todo)
    && processed <= left.Keys
  }

  ghost predicate Finals<N, L>(b: Build<N, L>) {
    && b.finals <= b.left.Keys
    && (forall n <- b.left :: b.left[n] in b.aut.final <==> n in b.finals)
    && b.aut.final <= b.right.Keys
    && b.aut.initial <= b.right.Keys
  }

  ghost predicate Consistent<N, L>(b: Build<N, L>) {
    Named(b) && Linked(b) && Scheduled(b.left, b.todo, b.processed) && Finals(b)
  }

  // Said of what equals b, so as to be looked into only where needed.
  ghost predicate Sound<N(!new), L(!new)>(b: Build<N, L>) {
    forall c | c == b :: Consistent(c)
  }

  // From b to c, more states are named, and nothing else is processed.
  ghost predicate Grows<N, L>(b: Build<N, L>, c: Build<N, L>) {
    && b.left.Keys <= c.left.Keys
    && (forall n <- b.left :: c.left[n] == b.left[n])
    && c.processed == b.processed && c.finals == b.finals && c.aut.initial == b.aut.initial
  }

  ghost function Start<N, L>(): Build<N, L> {
    Build(Empty(), map[], map[], [], 0, {}, {}, {})
  }

  lemma StartSound<N(!new), L(!new)>()
    ensures Sound(Start<N, L>())
  {
  }

  // ---------------------------------------------------------------------
  // Naming a state
  // ---------------------------------------------------------------------

  // The state of name n; if it is new, it is scheduled.
  ghost function Get<N, L>(b: Build<N, L>, n: N): (c: Build<N, L>)
    ensures n in c.left && c.left.Keys == b.left.Keys + {n} && Grows(b, c) && c.links == b.links
  {
    if n in b.left then b
    else
      b.(aut := b.aut.(states := b.aut.states + {b.next}),
         left := b.left[n := b.next],
         right := b.right[b.next := n],
         todo := b.todo + [(b.next, n)],
         next := b.next + 1)
  }

  lemma GetNamed<N(!new), L(!new)>(b: Build<N, L>, n: N)
    requires Named(b)
    ensures Named(Get(b, n))
  {
  }

  lemma GetLinked<N(!new), L(!new)>(b: Build<N, L>, n: N)
    requires Named(b) && Linked(b)
    ensures Linked(Get(b, n))
  {
    assert b.next !in b.right;
  }

  lemma GetScheduled<N(!new), L(!new)>(b: Build<N, L>, n: N)
    requires Scheduled(b.left, b.todo, b.processed)
    ensures Scheduled(Get(b, n).left, Get(b, n).todo, b.processed)
  {
    var c := Get(b, n);
    if n !in b.left {
      forall m <- c.left
        ensures m in c.processed || (c.left[m], m) in c.todo
      {
        if m == n {
          assert c.todo[|b.todo|] == (b.next, n);
        }
      }
    }
  }

  lemma GetFinals<N(!new), L(!new)>(b: Build<N, L>, n: N)
    requires Named(b) && Finals(b)
    ensures Finals(Get(b, n))
  {
    assert b.next !in b.right;
  }

  lemma GetSound<N(!new), L(!new)>(b: Build<N, L>, n: N)
    requires Sound(b)
    ensures Sound(Get(b, n))
  {
    assert Consistent(b);
    GetNamed(b, n);
    GetLinked(b, n);
    GetScheduled(b, n);
    GetFinals(b, n);
  }

  // ---------------------------------------------------------------------
  // Adding a transition
  // ---------------------------------------------------------------------

  // A transition from src to dst, unless its weight is null.
  ghost function AddLink<N, L>(b: Build<N, L>, src: N, l: L, dst: N, weight: bool): (c: Build<N, L>)
    requires src in b.left
    ensures dst in c.left && c.left.Keys == b.left.Keys + {dst} && Grows(b, c)
    ensures c.links == if weight then b.links + {Link(src, l, dst)} else b.links
  {
    var c := Get(b, dst);
    if !weight then c
    else
      c.(aut := c.aut.(transitions := c.aut.transitions + {Transition(c.left[src], l, c.left[dst])}),
         links := c.links + {Link(src, l, dst)})
  }

  lemma LinkMore<N(!new), L(!new)>(c: Build<N, L>, src: N, l: L, dst: N)
    requires Bimap(c.left, c.right) && Linked(c) && src in c.left && dst in c.left
    ensures Linked(c.(aut := c.aut.(transitions := c.aut.transitions + {Transition(c.left[src], l, c.left[dst])}),
                      links := c.links + {Link(src, l, dst)}))
  {
  }

  lemma AddLinkSound<N(!new), L(!new)>(b: Build<N, L>, src: N, l: L, dst: N, weight: bool)
    requires Sound(b) && src in b.left
    ensures Sound(AddLink(b, src, l, dst, weight))
  {
    GetSound(b, dst);
    var c := Get(b, dst);
    assert Consistent(c);
    LinkMore(c, src, l, dst);
  }

  // ---------------------------------------------------------------------
  // Initial and final states
  // ---------------------------------------------------------------------

  ghost function Initialize<N, L>(b: Build<N, L>, n: N): Build<N, L> {
    var c := Get(b, n);
    c.(aut := c.aut.(initial := c.aut.initial + {c.left[n]}))
  }

  lemma InitializeSound<N(!new), L(!new)>(b: Build<N, L>, n: N)
    requires Sound(b)
    ensures Sound(Initialize(b, n))
  {
    GetSound(b, n);
    assert Consistent(Get(b, n));
    assert Consistent(Initialize(b, n));
  }

  ghost function Finalize<N, L>(b: Build<N, L>, n: N, weight: bool): Build<N, L>
    requires n in b.left
  {
    if weight then b.(aut := b.aut.(final := b.aut.final + {b.left[n]}), finals := b.finals + {n}) else b
  }

  lemma FinalizeSound<N(!new), L(!new)>(b: Build<N, L>, n: N, weight: bool)
    requires Sound(b) && n in b.left
    ensures Sound(Finalize(b, n, weight))
  {
    assert Consistent(b);
    assert Consistent(Finalize(b, n, weight));
  }

  // ---------------------------------------------------------------------
  // Taking a state to process
  // ---------------------------------------------------------------------

  // What is left of the states to process once the i-th was taken.
  function Without<T>(todo: seq<T>, i: nat): seq<T>
    requires i < |todo|
  {
    todo[..i] + todo[i + 1..]
  }

  ghost function Take<N, L>(b: Build<N, L>, i: nat): Build<N, L>
    requires i < |b.todo|
  {
    b.(todo := Without(b.todo, i), processed := b.processed + {b.todo[i].1})
  }

  lemma WithoutIn<T>(todo: seq<T>, i: nat, x: T)
    requires i < |todo|
    ensures x in todo <==> x == todo[i] || x in Without(todo, i)
  {
    assert todo == todo[..i] + [todo[i]] + todo[i + 1..];
  }

  lemma WithoutAt<T>(todo: seq<T>, i: nat, j: nat)
    requires i < |todo| && j < |Without(todo, i)|
    ensures |Without(todo, i)| == |todo| - 1
    ensures Without(todo, i)[j] == if j < i then todo[j] else todo[j + 1]
  {
  }

  lemma TakeDistinct<N>(todo: seq<(State, N)>, i: nat)
    requires i < |todo| && forall j, k | 0 <= j < k < |todo| :: todo[j].1 != todo[k].1
    ensures var rest := Without(todo, i);
            && (forall j, k | 0 <= j < k < |rest| :: rest[j].1 != rest[k].1)
            && (forall j | 0 <= j < |rest| :: rest[j].1 != todo[i].1)
  {
    var rest := Without(todo, i);
    forall j, k | 0 <= j < k < |rest|
      ensures rest[j].1 != rest[k].1
    {
      WithoutAt(todo, i, j);
      WithoutAt(todo, i, k);
    }
    forall j | 0 <= j < |rest|
      ensures rest[j].1 != todo[i].1
    {
      WithoutAt(todo, i, j);
    }
  }

  lemma TakeScheduled<N>(left: map<N, State>, todo: seq<(State, N)>, processed: set<N>, i: nat)
    requires Scheduled(left, todo, processed) && i < |todo|
    ensures Scheduled(left, Without(todo, i), processed + {todo[i].1})
  {
    var rest := Without(todo, i);
    TakeDistinct(todo, i);
    forall j | 0 <= j < |rest|
      ensures rest[j].1 in left && left[rest[j].1] == rest[j].0 && rest[j].1 !in processed
    {
      WithoutAt(todo, i, j);
    }
    forall n <- left
      ensures n in processed + {todo[i].1} || (left[n], n) in rest
    {
      WithoutIn(todo, i, (left[n], n));
    }
  }

  lemma TakeSound<N(!new), L(!new)>(b: Build<N, L>, i: nat)
    requires Sound(b) && i < |b.todo|
    ensures Sound(Take(b, i)) && b.todo[i].1 !in b.processed
    ensures b.todo[i].1 in b.left && b.left[b.todo[i].1] == b.todo[i].0
  {
    assert Consistent(b);
    TakeScheduled(b.left, b.todo, b.processed, i);
    assert Consistent(Take(b, i));
  }

  // ---------------------------------------------------------------------
  // Once all was processed
  // ---------------------------------------------------------------------

  lemma NothingTodo<N(!new), L(!new)>(b: Build<N, L>)
    requires Sound(b) && b.todo == []
    ensures b.processed == b.left.Keys
  {
    assert Consistent(b);
  }

  lemma {:induction false} SameNumber<N>(left: map<N, State>, right: map<State, N>, keys: set<N>)
    requires Bimap(left, right) && keys <= left.Keys
    ensures |set n <- keys :: left[n]| == |keys|
    decreases |keys|
  {
    if keys != {} {
      var n :| n in keys;
      SameNumber(left, right, keys - {n});
      assert (set x <- keys :: left[x]) == (set x <- keys - {n} :: left[x]) + {left[n]};
      assert left[n] !in (set x <- keys - {n} :: left[x]);
    }
  }

  // There are as many states as names.
  lemma StatesNumber<N(!new), L(!new)>(b: Build<N, L>)
    requires Sound(b)
    ensures |b.aut.states| == |b.left.Keys|
  {
    assert Consistent(b);
    var left, right := b.left, b.right;
    SameNumber(left, right, left.Keys);
    assert (set n <- left.Keys :: left[n]) == right.Keys by {
      forall s <- right.Keys
        ensures s in (set n <- left.Keys :: left[n])
      {
        assert left[right[s]] == s;
      }
    }
  }

  lemma SoundValid<N(!new), L(!new)>(b: Build<N, L>)
    requires Sound(b)
    ensures b.aut.Valid()
  {
    assert Consistent(b);
  }

  // A word is accepted from a named state by following a link.
  ghost predicate Follows<N, L>(b: Build<N, L>, n: N, w: seq<L>, m: N)
    requires w != []
  {
    Link(n, w[0], m) in b.links && m in b.left && b.aut.AcceptsFrom(b.left[m], w[1..])
  }

  lemma AcceptsByName<N(!new), L(!new)>(b: Build<N, L>, n: N, w: seq<L>)
    requires Sound(b) && n in b.left
    ensures w == [] ==> (b.aut.AcceptsFrom(b.left[n], w) <==> n in b.finals)
    ensures w != [] ==> (b.aut.AcceptsFrom(b.left[n], w) <==> exists m :: Follows(b, n, w, m))
  {
    assert Consistent(b);
    if w != [] {
      if b.aut.AcceptsFrom(b.left[n], w) {
        var t :| t in b.aut.transitions && t.src == b.left[n] && t.lbl == w[0] && b.aut.AcceptsFrom(t.dst, w[1..]);
        assert Follows(b, n, w, b.right[t.dst]);
      }
      if exists m :: Follows(b, n, w, m) {
        var m :| Follows(b, n, w, m);
        var t := Transition(b.left[n], w[0], b.left[m]);
        assert t in b.aut.transitions && t.src == b.left[n] && t.lbl == w[0] && b.aut.AcceptsFrom(t.dst, w[1..]);
      }
    }
  }

  // No two transitions leave a state with the same label.
  ghost predicate Deterministic<L>(a: Automaton<L>) {
    forall t, t' | t in a.transitions && t' in a.transitions && t.src == t'.src && t.lbl == t'.lbl :: t == t'
  }

  lemma DeterministicByName<N(!new), L(!new)>(b: Build<N, L>)
    requires Sound(b)
    requires forall x, y | x in b.links && y in b.links && x.src == y.src && x.lbl == y.lbl :: x.dst == y.dst
    ensures Deterministic(b.aut)
  {
    assert Consistent(b);
    forall t, t' | t in b.aut.transitions && t' in b.aut.transitions && t.src == t'.src && t.lbl == t'.lbl
      ensures t == t'
    {
      var x := Link(b.right[t.src], t.lbl, b.right[t.dst]);
      var y := Link(b.right[t'.src], t'.lbl, b.right[t'.dst]);
      assert x in b.links && y in b.links;
      assert b.left[x.dst] == b.left[y.dst];
    }
  }

  // ---------------------------------------------------------------------
  // The automaton under construction
  // ---------------------------------------------------------------------

  class NamedAutomaton<N(==), L(==)> {
    var aut: Automaton<L>
    var left: map<N, State>
    var right: map<State, N>
    var todo: seq<(State, N)>
    var next: State
    ghost var links: set<Link<N, L>>
    ghost var finals: set<N>
    ghost var processed: set<N>

    ghost function Snapshot(): Build<N, L>
      reads this
    {
      Build(aut, left, right, todo, next, links, finals, processed)
    }

    constructor ()
      ensures Snapshot() == Start()
    {
      aut, left, right, todo, next, links, finals, processed := Empty(), map[], map[], [], 0, {}, {}, {};
    }

    // The state of name n; if it is new, schedule it.
    method GetState(n: N) returns (res: State)
      modifies this
      ensures Snapshot() == Get(old(Snapshot()), n) && res == left[n]
    {
      if n !in left {
        res := next;
        next := next + 1;
        aut := aut.(states := aut.states + {res});
        left, right := left[n := res], right[res := n];
        todo := todo + [(res, n)];
      } else {
        res := left[n];
      }
    }

    // Add a transition from the state s, named src, to the state named dst.
    method NewTransition(s: State, ghost src: N, l: L, dst: N, weight: bool)
      requires src in left && s == left[src]
      modifies this
      ensures Snapshot() == AddLink(old(Snapshot()), src, l, dst, weight)
    {
      var t := GetState(dst);
      if weight {
        aut := aut.(transitions := aut.transitions + {Transition(s, l, t)});
        links := links + {Link(src, l, dst)};
      }
    }

    method SetInitial(n: N)
      modifies this
      ensures Snapshot() == Initialize(old(Snapshot()), n)
    {
      var s := GetState(n);
      aut := aut.(initial := aut.initial + {s});
    }

    method SetFinal(s: State, ghost n: N, weight: bool)
      requires n in left && s == left[n]
      modifies this
      ensures Snapshot() == Finalize(old(Snapshot()), n, weight)
    {
      if weight {
        aut := aut.(final := aut.final + {s});
        finals := finals + {n};
      }
    }

    // Take the last scheduled state.
    method PopTop() returns (s: State, n: N)
      requires todo != []
      modifies this
      ensures Snapshot() == Take(old(Snapshot()), |old(todo)| - 1)
      ensures (s, n) == old(todo)[|old(todo)| - 1]
    {
      s, n := todo[|todo| - 1].0, todo[|todo| - 1].1;
      assert Without(todo, |todo| - 1) == todo[..|todo| - 1];
      todo := todo[..|todo| - 1];
      processed := processed + {n};
    }

    // Take the first scheduled state.
    method PopFront() returns (s: State, n: N)
      requires todo != []
      modifies this
      ensures Snapshot() == Take(old(Snapshot()), 0) && (s, n) == old(todo)[0]
    {
      s, n := todo[0].0, todo[0].1;
      assert Without(todo, 0) == todo[1..];
      todo := todo[1..];
      processed := processed + {n};
    }
  }
}
