// Tarjan's algorithm by recursion (vcsn/algos/scc.hh).  The low value of a
// state being visited is its number: what was found lower is kept aside by
// its activation, until it is left.
module TarjanRecursive {
  import opened Sets
  import opened Graphs
  import opened TarjanSearch

  // The greatest size_t.
  const SIZE_MAX: nat := 0xFFFF_FFFF_FFFF_FFFF

  ghost predicate Gray(s: Search, x: State) {
    exists k :: 0 <= k < |s.frames| && s.frames[k].state == x
  }

  // low holds the numbers of the states being visited, and the low values of
  // the others.
  ghost predicate Coupled(low: map<State, nat>, s: Search) {
    && low.Keys == s.number.Keys
    && forall x <- low :: low[x] == if Gray(s, x) then s.Num(x) else s.Low(x)
  }

  lemma GrayTree(s: Search, x: State, y: State)
    ensures Gray(Tree(s, x), y) <==> Gray(s, y) || y == x
  {
    var t := Tree(s, x);
    assert t.frames[|s.frames|].state == x;
    if Gray(s, y) {
      var k :| 0 <= k < |s.frames| && s.frames[k].state == y;
      assert t.frames[k].state == y;
    }
  }

  lemma CoupledTree(low: map<State, nat>, s: Search, x: State)
    requires Coupled(low, s) && x !in s.number
    ensures Coupled(low[x := s.count], Tree(s, x))
  {
    var low', t := low[x := s.count], Tree(s, x);
    forall y <- low'
      ensures low'[y] == if Gray(t, y) then t.Num(y) else t.Low(y)
    {
      GrayTree(s, x, y);
    }
  }

  lemma CoupledBack(low: map<State, nat>, s: Search, src: State, v: nat, t: Search)
    requires Coupled(low, s) && Gray(s, src) && LowStep(s, src, v, t) && SameFrames(s, t)
    ensures Coupled(low, t)
  {
    forall y <- low
      ensures low[y] == if Gray(t, y) then t.Num(y) else t.Low(y)
    {
      if Gray(s, y) {
        var k :| 0 <= k < |s.frames| && s.frames[k].state == y;
        assert t.frames[k].state == y;
      } else {
        assert y != src;
      }
    }
  }

  // Leaving the current state, and no other, ends its visit.
  lemma GrayLess(g: Graph, s: Search, t: Search, y: State)
    requires OnStack(g, s) && s.frames != [] && t.frames == s.frames[..|s.frames| - 1]
    ensures Gray(t, y) <==> Gray(s, y) && y != s.Current()
  {
    if Gray(s, y) && y != s.Current() {
      var k :| 0 <= k < |s.frames| && s.frames[k].state == y;
      assert t.frames[k].state == y;
    }
    if Gray(t, y) {
      var k :| 0 <= k < |t.frames| && t.frames[k].state == y;
      assert s.frames[k].state == y;
      assert s.Num(s.frames[k].state) < s.Num(s.frames[|s.frames| - 1].state);
    }
  }

  lemma CoupledMerged(g: Graph, low: map<State, nat>, s: Search, t: Search)
    requires Coupled(low, s) && OnStack(g, s)
    requires OneLess(s, t) && s.Current() in s.number && LowStep(s, Parent(s), s.Low(s.Current()), t)
    ensures Coupled(low[s.Current() := s.Low(s.Current())], t)
  {
    var low' := low[s.Current() := s.Low(s.Current())];
    assert s.Num(s.frames[|s.frames| - 2].state) < s.Num(s.frames[|s.frames| - 1].state);
    forall y <- low'
      ensures low'[y] == if Gray(t, y) then t.Num(y) else t.Low(y)
    {
      GrayLess(g, s, t, y);
      assert t.frames[|s.frames| - 2].state == Parent(s);
    }
  }

  lemma CoupledCut(g: Graph, low: map<State, nat>, s: Search, i: nat, t: Search)
    requires Coupled(low, s) && OnStack(g, s) && Split(s) && Root(g, s, i) && Sides(s, i)
    requires CutValues(s, i, SIZE_MAX, t)
    ensures Coupled(Raised(low, s.stack[i..], SIZE_MAX), t)
  {
    var low' := Raised(low, s.stack[i..], SIZE_MAX);
    forall y <- low'
      ensures low'[y] == if Gray(t, y) then t.Num(y) else t.Low(y)
    {
      GrayLess(g, s, t, y);
      if Gray(t, y) {
        var k :| 0 <= k < |t.frames| && t.frames[k].state == y;
        assert s.frames[k].state == y;
        GrayBelowRoot(g, s, i, k);
      }
      CutSide(s, i, y);
    }
  }

  lemma CutSide(s: Search, i: nat, y: State)
    requires i < |s.stack| && Sides(s, i)
    ensures y in s.stack ==> (y in s.stack[..i] <==> y !in s.stack[i..])
    ensures y !in s.stack ==> y !in s.stack[i..]
  {
  }

  // The low value that is kept for dst bounds what it leads to.
  lemma CoupledBound(g: Graph, low: map<State, nat>, s: Search, dst: State)
    requires Invariant(g, SIZE_MAX, s) && Coupled(low, s) && dst in s.number
    ensures dst in low && Bound(g, SIZE_MAX, s, dst, low[dst])
  {
    if Gray(s, dst) {
      var k :| 0 <= k < |s.frames| && s.frames[k].state == dst;
      assert s.frames[k].state in s.stack;
      ReachItself(g, dst);
      LeadsBy(g, s, dst, s.Num(dst), |s.frames|, k);
    }
  }

  // ---------------------------------------------------------------------
  // Activations
  // ---------------------------------------------------------------------

  // The low values of the first n states being visited in s are those in t.
  ghost predicate SameLows(s: Search, t: Search, n: nat)
    requires n <= |s.frames|
  {
    forall k | 0 <= k < n :: t.Low(s.frames[k].state) == s.Low(s.frames[k].state)
  }

  // x is visited since s0, its first pos transitions were looked at, and min
  // is the lowest value found.
  ghost predicate Visiting(s0: Search, x: State, pos: nat, min: nat, s: Search) {
    && s.frames == Advanced(s0).frames + [Frame(x, pos)]
    && s.Low(x) == min
    && SameLows(s0, s, |s0.frames|)
    && s.Num(x) == s0.count && x in s.number
  }

  // The visit of x is over: its parent was lowered.
  ghost predicate Left(s0: Search, x: State, s: Search) {
    && s.frames == Advanced(s0).frames
    && x in s.number && x !in s0.number
    && (s0.frames != [] ==>
          && SameLows(s0, s, |s0.frames| - 1)
          && s.Low(s0.Current()) == if s.Low(x) < s0.Low(s0.Current()) then s.Low(x) else s0.Low(s0.Current()))
  }

  lemma Entered(g: Graph, s0: Search, x: State)
    requires OnStack(g, s0) && Split(s0) && x !in s0.number
    ensures Visiting(s0, x, 0, s0.count, Tree(s0, x))
  {
    forall k | 0 <= k < |s0.frames|
      ensures Tree(s0, x).Low(s0.frames[k].state) == s0.Low(s0.frames[k].state)
    {
      assert s0.frames[k].state in s0.stack;
    }
  }

  // After a visit of the pos-th successor.
  lemma ChildLeft(s0: Search, x: State, pos: nat, min: nat, s: Search, dst: State, t: Search)
    requires Visiting(s0, x, pos, min, s) && Left(s, dst, t)
    requires t.Num(x) == s.Num(x) && x in t.number
    ensures Visiting(s0, x, pos + 1, if t.Low(dst) < min then t.Low(dst) else min, t)
  {
    assert s.Current() == x;
    assert forall k | 0 <= k < |s0.frames| :: s.frames[k].state == s0.frames[k].state;
  }

  // After a look at the pos-th successor, already visited.
  lemma ChildKnown(g: Graph, s0: Search, x: State, pos: nat, min: nat, s: Search, v: nat)
    requires Visiting(s0, x, pos, min, s) && OnStack(g, s) && Numbers(g, s)
    ensures Visiting(s0, x, pos + 1, if v < min then v else min, Back(s, v))
  {
    assert s.Current() == x;
    BackStep(g, s, v);
    forall k | 0 <= k < |s0.frames|
      ensures s0.frames[k].state != x
    {
      assert s.frames[k].state == s0.frames[k].state;
      assert s.Num(s.frames[k].state) < s.Num(s.frames[|s0.frames|].state);
    }
  }

  lemma LeftInner(g: Graph, s0: Search, x: State, pos: nat, min: nat, s: Search, t: Search)
    requires Visiting(s0, x, pos, min, s) && OnStack(g, s) && x !in s0.number && s0.frames != []
    requires OneLess(s, t) && LowStep(s, Parent(s), min, t)
    ensures Left(s0, x, t)
  {
    assert s0.Current() == Parent(s);
    assert s.frames[|s0.frames| - 1].state == s0.Current();
    forall k | 0 <= k < |s0.frames|
      ensures s0.frames[k].state != x
      ensures k < |s0.frames| - 1 ==> s0.frames[k].state != Parent(s)
    {
      assert s.frames[k].state == s0.frames[k].state;
      assert s.Num(s.frames[k].state) < s.Num(s.frames[|s0.frames|].state);
    }
  }

  lemma LeftRoot(g: Graph, s0: Search, x: State, pos: nat, min: nat, s: Search, i: nat, t: Search)
    requires Visiting(s0, x, pos, min, s) && x !in s0.number
    requires OnStack(g, s) && Root(g, s, i) && Sides(s, i) && CutValues(s, i, SIZE_MAX, t)
    requires s0.frames != [] ==> s0.Low(s0.Current()) <= SIZE_MAX
    ensures Left(s0, x, t)
  {
    assert s.Current() == x;
    assert s.stack[i] == s.stack[i..][0];
    forall k | 0 <= k < |s0.frames|
      ensures t.Low(s0.frames[k].state) == s0.Low(s0.frames[k].state)
    {
      assert s.frames[k].state == s0.frames[k].state;
      GrayBelowRoot(g, s, i, k);
    }
  }

  lemma NotGray(g: Graph, s0: Search, x: State, s: Search)
    requires OnStack(g, s0) && Split(s0) && Left(s0, x, s)
    ensures !Gray(s, x)
  {
  }

  lemma LowFits(g: Graph, s: Search)
    requires Fits(g, SIZE_MAX) && Numbers(g, s) && Split(s) && OnStack(g, s) && LowSound(g, s)
    ensures s.frames != [] ==> s.Low(s.Current()) <= SIZE_MAX
  {
    if s.frames != [] {
      assert s.frames[|s.frames| - 1].state in s.stack;
      LowOfStacked(g, SIZE_MAX, s, s.Current());
    }
  }

  // The next state to visit, or known state to look at.
  lemma NextOf(g: Graph, s0: Search, x: State, pos: nat, min: nat, s: Search)
    requires g.Valid() && Visiting(s0, x, pos, min, s) && x in g.states && pos < |g.succ[x]|
    ensures Next(g, s, g.succ[x][pos]) && g.succ[x][pos] in g.states
    ensures g.succ[x][pos] !in s.number ==> Fresh(g, s, g.succ[x][pos])
  {
  }

  // What was visited stays so, with the same number.
  ghost predicate SameNumbers(s: Search, t: Search) {
    forall y <- s.number :: y in t.number && t.number[y] == s.number[y]
  }

  // The search is sound, and low goes with it; said of what equals s, so as to
  // be looked into only where that is needed.
  ghost predicate Sound(g: Graph, low: map<State, nat>, s: Search) {
    forall t | t == s :: Invariant(g, SIZE_MAX, t) && Coupled(low, t)
  }

  lemma SoundStart(g: Graph)
    ensures Sound(g, map[], Start())
  {
    StartInvariant(g, SIZE_MAX);
  }

  lemma SoundEnd(g: Graph, low: map<State, nat>, s: Search)
    requires Sound(g, low, s) && s.frames == []
    requires forall x <- g.states :: x in s.number
    ensures Components(g, s.components)
  {
    assert Invariant(g, SIZE_MAX, s);
    AllEmitted(g, SIZE_MAX, s);
  }

  lemma VisitKeeps(g: Graph, low: map<State, nat>, s: Search, x: State)
    requires Fits(g, SIZE_MAX) && Sound(g, low, s) && Fresh(g, s, x)
    ensures Sound(g, low[x := s.count], Tree(s, x))
    ensures Visiting(s, x, 0, s.count, Tree(s, x)) && SameNumbers(s, Tree(s, x))
    ensures Unvisited(g, Tree(s, x)) < Unvisited(g, s)
  {
    assert Invariant(g, SIZE_MAX, s);
    TreeKeeps(g, SIZE_MAX, s, x);
    CoupledTree(low, s, x);
    VisitEnters(g, s, x);
  }

  lemma VisitEnters(g: Graph, s: Search, x: State)
    requires Fits(g, SIZE_MAX) && Invariant(g, SIZE_MAX, s) && Fresh(g, s, x)
    ensures Visiting(s, x, 0, s.count, Tree(s, x)) && SameNumbers(s, Tree(s, x))
    ensures Unvisited(g, Tree(s, x)) < Unvisited(g, s)
  {
    Entered(g, s, x);
    UnvisitedLess(g, s, x);
  }

  lemma BackCoupled(g: Graph, low: map<State, nat>, s: Search, v: nat)
    requires Numbers(g, s) && OnStack(g, s) && Split(s) && Coupled(low, s) && s.frames != []
    ensures Coupled(low, Back(s, v))
  {
    assert s.frames[|s.frames| - 1].state == s.Current();
    assert s.Current() in s.stack;
    BackStep(g, s, v);
    CoupledBack(low, s, s.Current(), v, Back(s, v));
  }

  lemma KnownKeeps(g: Graph, low: map<State, nat>, s0: Search, x: State, pos: nat, min: nat, s: Search, dst: State)
    requires Fits(g, SIZE_MAX) && Sound(g, low, s)
    requires Visiting(s0, x, pos, min, s) && Next(g, s, dst) && dst in s.number
    ensures dst in low && Sound(g, low, Back(s, low[dst]))
    ensures Visiting(s0, x, pos + 1, if low[dst] < min then low[dst] else min, Back(s, low[dst]))
  {
    assert Invariant(g, SIZE_MAX, s);
    CoupledBound(g, low, s, dst);
    BackKeeps(g, SIZE_MAX, s, dst, low[dst]);
    BackCoupled(g, low, s, low[dst]);
    ChildKnown(g, s0, x, pos, min, s, low[dst]);
  }

  lemma LeaveInner(g: Graph, low: map<State, nat>, s0: Search, x: State, pos: nat, min: nat, s: Search)
    requires Fits(g, SIZE_MAX) && Sound(g, low, s)
    requires Visiting(s0, x, pos, min, s) && Inner(g, s) && x !in s0.number
    ensures |s.frames| >= 2
    ensures Sound(g, low[x := min], Merged(s)) && Left(s0, x, Merged(s))
  {
    assert Invariant(g, SIZE_MAX, s);
    InnerHasParent(g, s);
    MergedKeeps(g, SIZE_MAX, s);
    assert s.Current() == x;
    assert s.frames[|s.frames| - 2].state in s.stack;
    MergedStep(g, s);
    CoupledMerged(g, low, s, Merged(s));
    LeftInner(g, s0, x, pos, min, s, Merged(s));
  }

  lemma LeaveRoot(g: Graph, low: map<State, nat>, s0: Search, x: State, pos: nat, min: nat, s: Search, i: nat)
    requires Fits(g, SIZE_MAX) && Sound(g, low, s)
    requires s0.frames != [] ==> s0.Low(s0.Current()) <= SIZE_MAX
    requires Visiting(s0, x, pos, min, s) && Root(g, s, i) && x !in s0.number
    ensures Sound(g, Raised(low, s.stack[i..], SIZE_MAX), Cut(s, i, SIZE_MAX))
    ensures Left(s0, x, Cut(s, i, SIZE_MAX))
  {
    assert Invariant(g, SIZE_MAX, s);
    CutKeeps(g, SIZE_MAX, s, i);
    CutSides(s, i);
    CutStep(g, s, i, SIZE_MAX);
    CoupledCut(g, low, s, i, Cut(s, i, SIZE_MAX));
    LeftRoot(g, s0, x, pos, min, s, i, Cut(s, i, SIZE_MAX));
  }

  lemma SoundFits(g: Graph, low: map<State, nat>, s: Search)
    requires Fits(g, SIZE_MAX) && Sound(g, low, s)
    ensures s.frames != [] ==> s.Low(s.Current()) <= SIZE_MAX
  {
    assert Invariant(g, SIZE_MAX, s);
    LowFits(g, s);
  }

  lemma SoundLeft(g: Graph, low0: map<State, nat>, s0: Search, x: State, low: map<State, nat>, s: Search)
    requires Sound(g, low0, s0) && Sound(g, low, s) && Left(s0, x, s)
    ensures x in low && low[x] == s.Low(x)
  {
    assert Invariant(g, SIZE_MAX, s0);
    assert Coupled(low, s);
    NotGray(g, s0, x, s);
  }

  // The state is the root of its component iff no lower value was found.
  lemma RootOrInner(g: Graph, low: map<State, nat>, s0: Search, x: State, min: nat, s: Search)
    requires x in g.succ && Visiting(s0, x, |g.succ[x]|, min, s) && Sound(g, low, s)
    ensures x in low && x in s.stack && s.Current() == x
    ensures min < low[x] ==> Inner(g, s)
    ensures min >= low[x] ==> Root(g, s, IndexOf(s.stack, x))
    ensures forall w <- s.stack :: w in low
  {
    assert Invariant(g, SIZE_MAX, s);
    assert s.frames[|s.frames| - 1].state == x;
    assert Gray(s, x);
  }

  class Tarjan {
    const g: Graph
    var currStateNum: nat
    var components: seq<set<State>>
    var marked: set<State>
    var low: map<State, nat>
    var stack: seq<State>
    ghost var search: Search

    ghost predicate Matches()
      reads this
    {
      && currStateNum == search.count
      && components == search.components
      && marked == search.number.Keys
      && stack == search.stack
      && low.Keys == marked
    }

    // Compute the components of the graph.
    constructor (g: Graph)
      requires Fits(g, SIZE_MAX)
      ensures Components(g, components)
    {
      this.g := g;
      currStateNum, components, marked, low, stack, search := 0, [], {}, map[], [], Start();
      new;
      SoundStart(g);
      var i := 0;
      while i < |g.states|
        invariant i <= |g.states|
        invariant this.g == g && Sound(g, low, search) && search.frames == [] && Matches()
        invariant forall x <- g.states[..i] :: x in marked
      {
        if g.states[i] !in marked {
          Dfs(g.states[i]);
        }
        TakeMore(g.states, i);
        i := i + 1;
      }
      assert g.states[..i] == g.states;
      SoundEnd(g, low, search);
    }

    // Visit what is reached from s.
    method Dfs(s: State)
      requires Fits(g, SIZE_MAX) && Sound(g, low, search) && Matches() && Fresh(g, search, s)
      modifies this
      ensures Sound(g, low, search) && Matches() && Left(old(search), s, search)
      ensures SameNumbers(old(search), search) && low[s] == search.Low(s)
      ensures Unvisited(g, search) < Unvisited(g, old(search))
      decreases Unvisited(g, search), 0
    {
      ghost var s0, low0 := search, low;
      SoundFits(g, low, s0);
      var min := Visit(s);
      var pos := 0;
      while pos < |g.succ[s]|
        invariant pos <= |g.succ[s]|
        invariant Sound(g, low, search) && Matches()
        invariant Visiting(s0, s, pos, min, search) && SameNumbers(s0, search)
        invariant Unvisited(g, search) < Unvisited(g, s0)
      {
        min := LookAt(s0, s, pos, min);
        pos := pos + 1;
      }
      Leave(s0, s, min);
      SoundLeft(g, low0, s0, s, low, search);
    }

    // Number s, and put it on the stack.
    method Visit(s: State) returns (min: nat)
      requires Fits(g, SIZE_MAX) && Sound(g, low, search) && Matches() && Fresh(g, search, s)
      modifies this
      ensures Sound(g, low, search) && Matches()
      ensures Visiting(old(search), s, 0, min, search) && SameNumbers(old(search), search)
      ensures Unvisited(g, search) < Unvisited(g, old(search))
    {
      VisitKeeps(g, low, search, s);
      min := currStateNum;
      currStateNum := currStateNum + 1;
      low := low[s := min];
      marked := marked + {s};
      stack := stack + [s];
      search := Tree(search, s);
    }

    // All the successors of s were looked at: it is the root of a component,
    // or keeps its low value.
    method Leave(ghost s0: Search, s: State, min: nat)
      requires Fits(g, SIZE_MAX) && Sound(g, low, search) && Matches() && s !in s0.number
      requires s0.frames != [] ==> s0.Low(s0.Current()) <= SIZE_MAX
      requires s in g.succ && Visiting(s0, s, |g.succ[s]|, min, search)
      modifies this
      ensures Sound(g, low, search) && Matches() && Left(s0, s, search)
      ensures search.number == old(search).number && search.count == old(search).count
    {
      RootOrInner(g, low, s0, s, min, search);
      if min < low[s] {
        LeaveInner(g, low, s0, s, |g.succ[s]|, min, search);
        low := low[s := min];
        search := Merged(search);
        return;
      }
      LeaveRoot(g, low, s0, s, |g.succ[s]|, min, search, IndexOf(stack, s));
      PopComponent(s);
      search := Cut(search, IndexOf(search.stack, s), SIZE_MAX);
    }

    // Look at the pos-th successor of s, visited if it was not yet.
    method LookAt(ghost s0: Search, s: State, pos: nat, min: nat) returns (res: nat)
      requires Fits(g, SIZE_MAX) && Sound(g, low, search) && Matches()
      requires s in g.states && pos < |g.succ[s]| && Visiting(s0, s, pos, min, search) && SameNumbers(s0, search)
      requires Unvisited(g, search) < Unvisited(g, s0)
      modifies this
      ensures Sound(g, low, search) && Matches()
      ensures Visiting(s0, s, pos + 1, res, search) && SameNumbers(s0, search)
      ensures Unvisited(g, search) < Unvisited(g, s0)
      decreases Unvisited(g, search), 1
    {
      ghost var before := search;
      var dst := g.succ[s][pos];
      NextOf(g, s0, s, pos, min, search);
      if dst !in marked {
        Dfs(dst);
        ChildLeft(s0, s, pos, min, before, dst, search);
      } else {
        KnownKeeps(g, low, s0, s, pos, min, search, dst);
        search := Back(search, low[dst]);
      }
      res := min;
      if low[dst] < res {
        res := low[dst];
      }
    }

    // Pop the stack until src: this is a component.
    method PopComponent(src: State)
      requires src in stack && forall w <- stack :: w in low
      modifies this`components, this`low, this`stack
      ensures stack == old(stack)[..IndexOf(old(stack), src)]
      ensures components == old(components) + [Elements(old(stack)[IndexOf(old(stack), src)..])]
      ensures low == Raised(old(low), old(stack)[IndexOf(old(stack), src)..], SIZE_MAX)
    {
      ghost var stack0, low0 := stack, low;
      var com: set<State> := {};
      StartPopping(stack0, low0, src, SIZE_MAX);
      var w := Pop();
      com := com + {w};
      while w != src
        invariant Popping(stack0, low0, src, stack, w, com, low, SIZE_MAX)
        invariant components == old(components)
        decreases |stack|
      {
        PoppingMore(stack0, low0, src, stack, w, com, low, SIZE_MAX);
        w := Pop();
        com := com + {w};
      }
      PoppedAll(stack0, low0, src, stack, com, low, SIZE_MAX);
      components := components + [com];
    }

    // Pop a state: it belongs to one component only.
    method Pop() returns (w: State)
      requires stack != []
      modifies this`low, this`stack
      ensures stack == old(stack)[..|old(stack)| - 1] && low == old(low)[w := SIZE_MAX]
      ensures w == old(stack)[|old(stack)| - 1]
    {
      w := stack[|stack| - 1];
      stack := stack[..|stack| - 1];
      low := low[w := SIZE_MAX];
    }
  }
}
