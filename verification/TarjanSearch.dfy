// The state of a depth-first search for the strongly connected components by
// Tarjan's method, its steps, and what every step keeps
// (vcsn/algos/scc.hh).
module TarjanSearch {
  import opened Graphs
  import opened Sets

  // A state being visited, and the position of its next successor.
  datatype Frame = Frame(state: State, pos: nat)

  // frames is the path of the search, from its start to the current state.
  datatype Search = Search(
    count: nat,
    number: map<State, nat>,
    low: map<State, nat>,
    stack: seq<State>,
    components: seq<set<State>>,
    frames: seq<Frame>)
  {
    function Num(x: State): nat {
      if x in number then number[x] else 0
    }

    function Low(x: State): nat {
      if x in low then low[x] else 0
    }

    function Gray(k: nat): State
      requires k < |frames|
    {
      frames[k].state
    }

    function Current(): State
      requires frames != []
    {
      frames[|frames| - 1].state
    }

    function Pos(): nat
      requires frames != []
    {
      frames[|frames| - 1].pos
    }
  }

  function Start(): Search {
    Search(0, map[], map[], [], [], [])
  }

  // ---------------------------------------------------------------------
  // Invariants
  // ---------------------------------------------------------------------

  // The numbers count the visited states.
  ghost predicate Numbers(g: Graph, s: Search) {
    && s.number.Keys == s.low.Keys
    && s.number.Keys <= Elements(g.states)
    && |s.number.Keys| == s.count
    && forall x <- s.number :: s.number[x] < s.count
  }

  // A visited state is on the stack, or in a component.
  ghost predicate Split(s: Search) {
    && (forall x :: x in s.number <==> x in s.stack || x in Union(s.components))
    && (forall x <- s.stack :: x !in Union(s.components))
  }

  ghost predicate Ordered(s: Search) {
    forall i, j | 0 <= i < j < |s.stack| :: s.Num(s.stack[i]) < s.Num(s.stack[j])
  }

  ghost predicate OnStack(g: Graph, s: Search) {
    && (forall k | 0 <= k < |s.frames| :: s.frames[k].state in s.stack)
    && (forall k | 0 <= k < |s.frames| ::
          s.frames[k].state in g.succ && s.frames[k].pos <= |g.succ[s.frames[k].state]|)
    && (forall k, l | 0 <= k < l < |s.frames| :: s.Num(s.frames[k].state) < s.Num(s.frames[l].state))
  }

  // The states being visited lead to all that was stacked after them.
  ghost predicate GrayReaches(g: Graph, s: Search) {
    forall k, y | 0 <= k < |s.frames| && y in s.stack && s.Num(s.frames[k].state) <= s.Num(y) ::
      Reach(g, s.frames[k].state, y)
  }

  // y leads to a state being visited, of number at most v.
  ghost predicate Leads(g: Graph, s: Search, y: State, v: nat, n: nat)
    requires n <= |s.frames|
  {
    n > 0 && ((s.Num(s.frames[n - 1].state) <= v && Reach(g, y, s.frames[n - 1].state)) || Leads(g, s, y, v, n - 1))
  }

  lemma {:induction false} LeadsTo(g: Graph, s: Search, y: State, v: nat, n: nat) returns (k: nat)
    requires n <= |s.frames| && Leads(g, s, y, v, n)
    ensures k < n && s.Num(s.frames[k].state) <= v && Reach(g, y, s.frames[k].state)
  {
    if s.Num(s.frames[n - 1].state) <= v && Reach(g, y, s.frames[n - 1].state) {
      k := n - 1;
    } else {
      k := LeadsTo(g, s, y, v, n - 1);
    }
  }

  lemma {:induction false} LeadsBy(g: Graph, s: Search, y: State, v: nat, n: nat, k: nat)
    requires k < n <= |s.frames| && s.Num(s.frames[k].state) <= v && Reach(g, y, s.frames[k].state)
    ensures Leads(g, s, y, v, n)
  {
    if k < n - 1 {
      LeadsBy(g, s, y, v, n - 1, k);
    }
  }

  // The low value of a state is at most its number, and the state leads to a
  // state being visited that was not stacked after that value.
  ghost predicate LowSound(g: Graph, s: Search) {
    forall y <- s.stack :: s.Low(y) <= s.Num(y) && Leads(g, s, y, s.Low(y), |s.frames|)
  }

  ghost predicate LowGone(top: nat, s: Search) {
    forall x <- s.number | x !in s.stack :: s.Low(x) == top
  }

  // The j-th successor of y was already looked at.
  ghost predicate Seen(s: Search, y: State, j: nat) {
    forall k | 0 <= k < |s.frames| && s.frames[k].state == y :: j < s.frames[k].pos
  }

  ghost predicate SeenVisited(g: Graph, s: Search) {
    forall y, j: nat | y in s.stack && y in g.succ && j < |g.succ[y]| && Seen(s, y, j) ::
      g.succ[y][j] in s.number
  }

  // y was stacked from the k-th state being visited, and before the next one.
  ghost predicate Segment(s: Search, y: State, k: nat) {
    && k < |s.frames|
    && s.Num(s.frames[k].state) <= s.Num(y)
    && (k + 1 < |s.frames| ==> s.Num(y) < s.Num(s.frames[k + 1].state))
  }

  // No transition that was looked at reaches the stack below the low value.
  ghost predicate LowCovers(g: Graph, s: Search) {
    forall y, j: nat, k: nat | y in s.stack && y in g.succ && j < |g.succ[y]| && Seen(s, y, j) && Segment(s, y, k)
                               && g.succ[y][j] in s.stack ::
      s.Low(s.frames[k].state) <= s.Num(g.succ[y][j])
  }

  ghost predicate Shape(g: Graph, s: Search) {
    Numbers(g, s) && Split(s) && Ordered(s) && OnStack(g, s)
  }

  ghost predicate Lows(g: Graph, top: nat, s: Search) {
    LowSound(g, s) && LowGone(top, s)
  }

  ghost predicate Explored(g: Graph, s: Search) {
    SeenVisited(g, s) && LowCovers(g, s)
  }

  ghost predicate Invariant(g: Graph, top: nat, s: Search) {
    && Shape(g, s)
    && GrayReaches(g, s)
    && Lows(g, top, s)
    && Explored(g, s)
    && Emissions(g, s.components)
  }

  // The low values never exceed the number of states: top is out of reach.
  ghost predicate Fits(g: Graph, top: nat) {
    g.Valid() && |Elements(g.states)| <= top
  }

  lemma StartInvariant(g: Graph, top: nat)
    ensures Invariant(g, top, Start())
  {
  }

  lemma Visible(g: Graph, s: Search, x: State)
    requires g.Valid() && Numbers(g, s) && Split(s) && x in s.stack
    ensures x in g.succ && x in g.states && x in s.number
  {
  }

  lemma CountBounded(g: Graph, top: nat, s: Search)
    requires Fits(g, top) && Numbers(g, s)
    ensures s.count <= top
  {
    SubsetSize(s.number.Keys, Elements(g.states));
  }

  // ---------------------------------------------------------------------
  // Visiting a new state
  // ---------------------------------------------------------------------

  function Advanced(s: Search): Search {
    if s.frames == [] then s
    else
      var n := |s.frames| - 1;
      s.(frames := s.frames[n := Frame(s.frames[n].state, s.frames[n].pos + 1)])
  }

  function Visited(s: Search, x: State): Search {
    Search(s.count + 1, s.number[x := s.count], s.low[x := s.count], s.stack + [x], s.components,
           s.frames + [Frame(x, 0)])
  }

  // The current state, if any, leads to x.
  ghost predicate Next(g: Graph, s: Search, x: State) {
    && s.frames != []
    && s.Current() in g.succ
    && s.Pos() < |g.succ[s.Current()]|
    && g.succ[s.Current()][s.Pos()] == x
  }

  ghost predicate Fresh(g: Graph, s: Search, x: State) {
    && x in g.states && x !in s.number
    && (s.frames == [] || Next(g, s, x))
  }

  function Tree(s: Search, x: State): Search {
    Visited(Advanced(s), x)
  }

  // What the lemmas below need to know of the states s before, and t after
  // a step that visits x.
  ghost predicate TreeValues(s: Search, x: State, t: Search) {
    && t.stack == s.stack + [x]
    && (forall y <- s.stack :: t.Num(y) == s.Num(y) < s.count && t.Low(y) == s.Low(y) && y != x)
    && t.Num(x) == s.count == t.Low(x)
  }

  ghost predicate TreeFrames(s: Search, x: State, t: Search) {
    && |t.frames| == |s.frames| + 1
    && (forall k | 0 <= k < |s.frames| :: t.frames[k].state == s.frames[k].state && s.frames[k].state in s.stack)
    && t.frames[|s.frames|] == Frame(x, 0)
  }

  lemma TreeStep(g: Graph, s: Search, x: State)
    requires Numbers(g, s) && Split(s) && OnStack(g, s) && x !in s.number
    ensures TreeValues(s, x, Tree(s, x)) && TreeFrames(s, x, Tree(s, x))
  {
  }

  lemma TreeNumbers(g: Graph, s: Search, x: State)
    requires Numbers(g, s) && Fresh(g, s, x)
    ensures Numbers(g, Tree(s, x))
  {
    var t := Tree(s, x);
    assert t.number.Keys == s.number.Keys + {x};
    assert t.low.Keys == s.low.Keys + {x};
  }

  lemma TreeSplit(s: Search, x: State)
    requires Split(s) && x !in s.number
    ensures Split(Tree(s, x))
  {
    var t := Tree(s, x);
    assert t.stack == s.stack + [x] && t.components == s.components;
    assert forall y :: y in t.number <==> y in s.number || y == x;
    assert forall y :: y in t.stack <==> y in s.stack || y == x;
  }

  lemma TreeOrdered(s: Search, x: State, t: Search)
    requires Ordered(s) && TreeValues(s, x, t)
    ensures Ordered(t)
  {
    forall i, j | 0 <= i < j < |t.stack|
      ensures t.Num(t.stack[i]) < t.Num(t.stack[j])
    {
      assert s.stack[i] in s.stack;
      if j < |s.stack| {
        assert s.stack[j] in s.stack;
      }
    }
  }

  lemma TreeOnStack(g: Graph, s: Search, x: State)
    requires g.Valid() && OnStack(g, s) && Fresh(g, s, x)
    requires TreeValues(s, x, Tree(s, x)) && TreeFrames(s, x, Tree(s, x))
    ensures OnStack(g, Tree(s, x))
  {
    var t := Tree(s, x);
    forall k | 0 <= k < |t.frames|
      ensures t.frames[k].state in t.stack
      ensures t.frames[k].state in g.succ && t.frames[k].pos <= |g.succ[t.frames[k].state]|
    {
    }
    forall k, l | 0 <= k < l < |t.frames|
      ensures t.Num(t.frames[k].state) < t.Num(t.frames[l].state)
    {
      assert s.frames[k].state in s.stack;
    }
  }

  lemma CurrentIsLast(g: Graph, s: Search, k: nat)
    requires OnStack(g, s) && k < |s.frames|
    ensures s.Num(s.frames[k].state) <= s.Num(s.Current())
  {
  }

  lemma TreeGrayReaches(g: Graph, s: Search, x: State, t: Search)
    requires OnStack(g, s) && GrayReaches(g, s) && (s.frames != [] ==> g.Edge(s.Current(), x))
    requires TreeValues(s, x, t) && TreeFrames(s, x, t)
    ensures GrayReaches(g, t)
  {
    forall k, y | 0 <= k < |t.frames| && y in t.stack && t.Num(t.frames[k].state) <= t.Num(y)
      ensures Reach(g, t.frames[k].state, y)
    {
      if k == |s.frames| {
        ReachItself(g, x);
      } else if y == x {
        CurrentIsLast(g, s, k);
        assert s.Current() in s.stack;
        assert Reach(g, s.frames[k].state, s.Current());
        ReachStep(g, s.Current(), x);
        ReachTrans(g, s.frames[k].state, s.Current(), x);
      }
    }
  }

  lemma TreeLowSound(g: Graph, s: Search, x: State, t: Search)
    requires LowSound(g, s) && TreeValues(s, x, t) && TreeFrames(s, x, t)
    ensures LowSound(g, t)
  {
    forall y <- t.stack
      ensures t.Low(y) <= t.Num(y) && Leads(g, t, y, t.Low(y), |t.frames|)
    {
      if y == x {
        ReachItself(g, x);
        LeadsBy(g, t, y, t.Low(y), |t.frames|, |s.frames|);
      } else {
        var k := LeadsTo(g, s, y, s.Low(y), |s.frames|);
        LeadsBy(g, t, y, t.Low(y), |t.frames|, k);
      }
    }
  }

  lemma TreeLowGone(g: Graph, top: nat, s: Search, x: State)
    requires LowGone(top, s)
    ensures LowGone(top, Tree(s, x))
  {
    assert Tree(s, x).stack == s.stack + [x];
  }

  // Looking at a transition adds it, and no other, to those looked at.
  ghost predicate OneSeen(s: Search, t: Search) {
    forall y, j: nat | y in t.stack && Seen(t, y, j) ::
      y in s.stack && (Seen(s, y, j) || (s.frames != [] && y == s.Current() && j == s.Pos()))
  }

  lemma TreeSeen(s: Search, x: State)
    requires TreeValues(s, x, Tree(s, x)) && TreeFrames(s, x, Tree(s, x))
    ensures OneSeen(s, Tree(s, x))
  {
    var t := Tree(s, x);
    forall y, j: nat | y in t.stack && Seen(t, y, j)
      ensures y in s.stack && (Seen(s, y, j) || (s.frames != [] && y == s.Current() && j == s.Pos()))
    {
      assert t.frames[|s.frames|] == Frame(x, 0);
      forall k | 0 <= k < |s.frames| && s.frames[k].state == y
        ensures j < s.frames[k].pos || (y == s.Current() && j == s.Pos())
      {
        assert t.frames[k].state == y;
      }
    }
  }

  lemma NextVisited(g: Graph, s: Search, t: Search)
    requires SeenVisited(g, s) && OneSeen(s, t) && s.number.Keys <= t.number.Keys
    requires s.frames != [] && s.Current() in g.succ && s.Pos() < |g.succ[s.Current()]| ==>
               g.succ[s.Current()][s.Pos()] in t.number
    ensures SeenVisited(g, t)
  {
    forall y, j: nat | y in t.stack && y in g.succ && j < |g.succ[y]| && Seen(t, y, j)
      ensures g.succ[y][j] in t.number
    {
    }
  }

  lemma TreeLowCovers(g: Graph, s: Search, x: State, t: Search)
    requires LowSound(g, s) && LowCovers(g, s) && (s.frames != [] ==> Next(g, s, x))
    requires TreeValues(s, x, t) && TreeFrames(s, x, t) && OneSeen(s, t)
    ensures LowCovers(g, t)
  {
    forall y, j: nat, k: nat | y in t.stack && y in g.succ && j < |g.succ[y]| && Seen(t, y, j) && Segment(t, y, k)
                               && g.succ[y][j] in t.stack
      ensures t.Low(t.frames[k].state) <= t.Num(g.succ[y][j])
    {
      TreeCovers(g, s, x, t, y, j, k);
    }
  }

  lemma TreeCovers(g: Graph, s: Search, x: State, t: Search, y: State, j: nat, k: nat)
    requires LowSound(g, s) && LowCovers(g, s) && (s.frames != [] ==> Next(g, s, x))
    requires TreeValues(s, x, t) && TreeFrames(s, x, t) && OneSeen(s, t)
    requires y in t.stack && y in g.succ && j < |g.succ[y]| && Seen(t, y, j) && Segment(t, y, k)
    requires g.succ[y][j] in t.stack
    ensures t.Low(t.frames[k].state) <= t.Num(g.succ[y][j])
  {
    var z := g.succ[y][j];
    assert y in s.stack && k < |s.frames|;
    assert s.frames[k].state in s.stack;
    if z != x {
      assert Seen(s, y, j) && Segment(s, y, k);
    }
  }

  lemma TreeKeeps(g: Graph, top: nat, s: Search, x: State)
    requires g.Valid() && Invariant(g, top, s) && Fresh(g, s, x)
    ensures Invariant(g, top, Tree(s, x))
  {
    var t := Tree(s, x);
    TreeStep(g, s, x);
    TreeNumbers(g, s, x);
    TreeSplit(s, x);
    TreeOrdered(s, x, t);
    TreeOnStack(g, s, x);
    TreeGrayReaches(g, s, x, t);
    TreeLowSound(g, s, x, t);
    TreeLowGone(g, top, s, x);
    TreeSeen(s, x);
    NextVisited(g, s, t);
    TreeLowCovers(g, s, x, t);
  }

  // ---------------------------------------------------------------------
  // Looking at a visited state
  // ---------------------------------------------------------------------

  function Lowered(s: Search, x: State, v: nat): Search {
    if v < s.Low(x) then s.(low := s.low[x := v]) else s
  }

  function Back(s: Search, v: nat): Search
    requires s.frames != []
  {
    Lowered(Advanced(s), s.Current(), v)
  }

  // x leads to a state being visited of number at most v, and v is at most the
  // number of x; it is out of reach when x is in a component.
  ghost predicate Bound(g: Graph, top: nat, s: Search, x: State, v: nat) {
    && (x !in s.stack ==> v == top)
    && (x in s.stack ==> v <= s.Num(x) && Leads(g, s, x, v, |s.frames|))
  }

  // t differs from s by the low values, and that of src is lowered by v.
  ghost predicate LowStep(s: Search, src: State, v: nat, t: Search) {
    && t.count == s.count && t.number == s.number && t.stack == s.stack && t.components == s.components
    && t.low.Keys == s.low.Keys
    && (forall y | y != src :: t.Low(y) == s.Low(y))
    && t.Low(src) == if v < s.Low(src) then v else s.Low(src)
  }

  ghost predicate SameFrames(s: Search, t: Search) {
    |t.frames| == |s.frames| && forall k | 0 <= k < |s.frames| :: t.frames[k].state == s.frames[k].state
  }

  lemma BackStep(g: Graph, s: Search, v: nat)
    requires Numbers(g, s) && s.frames != [] && s.Current() in s.number
    ensures LowStep(s, s.Current(), v, Back(s, v)) && SameFrames(s, Back(s, v))
  {
    assert s.Current() in s.low;
  }

  lemma LowStepShape(g: Graph, s: Search, src: State, v: nat, t: Search)
    requires LowStep(s, src, v, t)
    requires Numbers(g, s) && Split(s) && Ordered(s)
    ensures Numbers(g, t) && Split(t) && Ordered(t)
  {
    assert forall y :: t.Num(y) == s.Num(y);
  }

  lemma BackOnStack(g: Graph, s: Search, v: nat)
    requires OnStack(g, s) && s.frames != [] && s.Pos() < |g.succ[s.Current()]|
    requires LowStep(s, s.Current(), v, Back(s, v)) && SameFrames(s, Back(s, v))
    ensures OnStack(g, Back(s, v))
  {
    assert forall y :: Back(s, v).Num(y) == s.Num(y);
  }

  lemma BackGrayReaches(g: Graph, s: Search, src: State, v: nat, t: Search)
    requires LowStep(s, src, v, t) && SameFrames(s, t) && GrayReaches(g, s)
    ensures GrayReaches(g, t)
  {
    assert forall y :: t.Num(y) == s.Num(y);
  }

  lemma BackLowSound(g: Graph, s: Search, src: State, x: State, v: nat, t: Search)
    requires LowStep(s, src, v, t) && SameFrames(s, t) && LowSound(g, s) && src in s.stack && Reach(g, src, x)
    requires v < s.Low(src) ==> Leads(g, s, x, v, |s.frames|)
    ensures LowSound(g, t)
  {
    assert forall y :: t.Num(y) == s.Num(y);
    forall y <- t.stack
      ensures t.Low(y) <= t.Num(y) && Leads(g, t, y, t.Low(y), |t.frames|)
    {
      if y == src && v < s.Low(src) {
        var k := LeadsTo(g, s, x, v, |s.frames|);
        ReachTrans(g, src, x, s.frames[k].state);
        LeadsBy(g, t, y, t.Low(y), |t.frames|, k);
      } else {
        var k := LeadsTo(g, s, y, s.Low(y), |s.frames|);
        LeadsBy(g, t, y, t.Low(y), |t.frames|, k);
      }
    }
  }

  lemma LowStepGone(top: nat, s: Search, src: State, v: nat, t: Search)
    requires LowStep(s, src, v, t) && LowGone(top, s) && src in s.stack
    ensures LowGone(top, t)
  {
    forall x <- t.number | x !in t.stack
      ensures t.Low(x) == top
    {
      assert x in s.number && x !in s.stack;
    }
  }

  lemma BackSeen(s: Search, v: nat)
    requires s.frames != []
    requires LowStep(s, s.Current(), v, Back(s, v)) && SameFrames(s, Back(s, v))
    ensures OneSeen(s, Back(s, v))
  {
    var t := Back(s, v);
    forall y, j: nat | y in t.stack && Seen(t, y, j)
      ensures Seen(s, y, j) || (y == s.Current() && j == s.Pos())
    {
      forall k | 0 <= k < |s.frames| && s.frames[k].state == y
        ensures j < s.frames[k].pos || (y == s.Current() && j == s.Pos())
      {
        assert t.frames[k].state == y;
      }
    }
  }

  lemma CurrentSegment(g: Graph, s: Search, k: nat)
    requires OnStack(g, s) && s.frames != [] && Segment(s, s.Current(), k)
    ensures k == |s.frames| - 1
  {
    if k + 1 < |s.frames| {
      CurrentIsLast(g, s, k + 1);
    }
  }

  lemma BackLowCovers(g: Graph, s: Search, v: nat, t: Search)
    requires OnStack(g, s) && LowCovers(g, s) && s.frames != [] && s.Pos() < |g.succ[s.Current()]|
    requires LowStep(s, s.Current(), v, t) && SameFrames(s, t) && OneSeen(s, t)
    requires g.succ[s.Current()][s.Pos()] in s.stack ==> v <= s.Num(g.succ[s.Current()][s.Pos()])
    ensures LowCovers(g, t)
  {
    assert forall y :: t.Num(y) == s.Num(y);
    forall y, j: nat, k: nat | y in t.stack && y in g.succ && j < |g.succ[y]| && Seen(t, y, j) && Segment(t, y, k)
                               && g.succ[y][j] in t.stack
      ensures t.Low(t.frames[k].state) <= t.Num(g.succ[y][j])
    {
      assert Segment(s, y, k);
      if Seen(s, y, j) {
        assert s.Low(s.frames[k].state) <= s.Num(g.succ[y][j]);
      } else {
        CurrentSegment(g, s, k);
      }
    }
  }

  lemma LowOfStacked(g: Graph, top: nat, s: Search, x: State)
    requires Fits(g, top) && Numbers(g, s) && Split(s) && LowSound(g, s) && x in s.stack
    ensures s.Low(x) <= s.Num(x) < s.count <= top
  {
    CountBounded(g, top, s);
    assert x in s.number;
  }

  lemma BackKeeps(g: Graph, top: nat, s: Search, x: State, v: nat)
    requires Fits(g, top) && Invariant(g, top, s) && Next(g, s, x) && x in s.number && Bound(g, top, s, x, v)
    ensures Invariant(g, top, Back(s, v))
  {
    var t, src := Back(s, v), s.Current();
    assert src in s.stack && g.Edge(src, x);
    Visible(g, s, src);
    LowOfStacked(g, top, s, src);
    ReachStep(g, src, x);
    BackStep(g, s, v);
    LowStepShape(g, s, src, v, t);
    BackOnStack(g, s, v);
    BackGrayReaches(g, s, src, v, t);
    BackLowSound(g, s, src, x, v, t);
    LowStepGone(top, s, src, v, t);
    BackSeen(s, v);
    NextVisited(g, s, t);
    BackLowCovers(g, s, v, t);
  }

  // ---------------------------------------------------------------------
  // Leaving the root of a component
  // ---------------------------------------------------------------------

  function IndexOf(stack: seq<State>, x: State): (i: nat)
    requires x in stack
    ensures i < |stack| && stack[i] == x
  {
    if stack[|stack| - 1] == x then |stack| - 1 else IndexOf(stack[..|stack| - 1], x)
  }

  // The states of xs are out of reach.
  function Raised(low: map<State, nat>, xs: seq<State>, top: nat): map<State, nat> {
    map y <- low :: if y in xs then top else low[y]
  }

  // The top of the stack, from its i-th state, becomes a component.
  function Cut(s: Search, i: nat, top: nat): Search
    requires i <= |s.stack| && s.frames != []
  {
    s.(stack := s.stack[..i],
       components := s.components + [Elements(s.stack[i..])],
       low := Raised(s.low, s.stack[i..], top),
       frames := s.frames[..|s.frames| - 1])
  }

  // The states from w on were popped from the stack0, and src was not yet
  // before w.
  ghost predicate PoppedTo(stack0: seq<State>, low0: map<State, nat>, src: State, stack: seq<State>, w: State,
                           com: set<State>, low: map<State, nat>, top: nat) {
    var j := |stack|;
    && j < |stack0| && stack == stack0[..j] && w == stack0[j]
    && src in stack0[..j + 1] && IndexOf(stack0, src) == IndexOf(stack0[..j + 1], src)
    && com == Elements(stack0[j..])
    && low == Raised(low0, stack0[j..], top)
    && forall x <- stack0 :: x in low0
  }

  // Said of what equals com, so as to be looked into only where needed.
  ghost predicate Popping(stack0: seq<State>, low0: map<State, nat>, src: State, stack: seq<State>, w: State,
                          com: set<State>, low: map<State, nat>, top: nat) {
    forall c | c == com :: PoppedTo(stack0, low0, src, stack, w, c, low, top)
  }

  lemma PoppedAll(stack0: seq<State>, low0: map<State, nat>, src: State, stack: seq<State>, com: set<State>,
                  low: map<State, nat>, top: nat)
    requires Popping(stack0, low0, src, stack, src, com, low, top)
    ensures src in stack0 && stack == stack0[..IndexOf(stack0, src)] && com == Elements(stack0[IndexOf(stack0, src)..])
    ensures low == Raised(low0, stack0[IndexOf(stack0, src)..], top)
  {
    assert PoppedTo(stack0, low0, src, stack, src, com, low, top);
    TakeMore(stack0, |stack|);
    assert stack0[..|stack| + 1][|stack|] == src;
  }

  lemma StartPopping(stack0: seq<State>, low0: map<State, nat>, src: State, top: nat)
    requires src in stack0 && forall w <- stack0 :: w in low0
    ensures var w := stack0[|stack0| - 1];
            Popping(stack0, low0, src, stack0[..|stack0| - 1], w, {} + {w}, low0[w := top], top)
  {
    var w := stack0[|stack0| - 1];
    assert stack0[..|stack0|] == stack0;
    assert stack0[|stack0| - 1..] == [w];
    assert PoppedTo(stack0, low0, src, stack0[..|stack0| - 1], w, {} + {w}, low0[w := top], top);
  }

  lemma PoppingMore(stack0: seq<State>, low0: map<State, nat>, src: State, stack: seq<State>, w: State,
                    com: set<State>, low: map<State, nat>, top: nat)
    requires Popping(stack0, low0, src, stack, w, com, low, top) && w != src
    ensures stack != []
    ensures var x := stack[|stack| - 1];
            Popping(stack0, low0, src, stack[..|stack| - 1], x, com + {x}, low[x := top], top)
  {
    var j := |stack|;
    assert PoppedTo(stack0, low0, src, stack, w, com, low, top);
    assert stack0[..j + 1][..j] == stack0[..j];
    TakeMore(stack0, j);
    assert stack0[j - 1..] == [stack0[j - 1]] + stack0[j..];
    assert stack[..j - 1] == stack0[..j - 1];
    RaisedMore(low0, stack0[j - 1], stack0[j..], top);
    var x := stack[j - 1];
    assert PoppedTo(stack0, low0, src, stack[..j - 1], x, com + {x}, low[x := top], top);
  }

  lemma RaisedMore(low0: map<State, nat>, w: State, xs: seq<State>, top: nat)
    requires w in low0
    ensures Elements(xs) + {w} == Elements([w] + xs)
    ensures Raised(low0, xs, top)[w := top] == Raised(low0, [w] + xs, top)
  {
  }

  // All the transitions of the current state were looked at.
  ghost predicate Over(g: Graph, s: Search) {
    s.frames != [] && s.Current() in g.succ && s.Pos() == |g.succ[s.Current()]|
  }

  ghost predicate Root(g: Graph, s: Search, i: nat) {
    && Over(g, s)
    && s.Low(s.Current()) == s.Num(s.Current())
    && i < |s.stack| && s.stack[i] == s.Current()
  }

  // Numbers tell on which side of the i-th state a stacked state is.
  ghost predicate Sides(s: Search, i: nat)
    requires i < |s.stack|
  {
    && (forall y <- s.stack[..i] :: y in s.stack && s.Num(y) < s.Num(s.stack[i]))
    && (forall y <- s.stack[i..] :: y in s.stack && s.Num(y) >= s.Num(s.stack[i]))
    && (forall y <- s.stack :: y in s.stack[..i] || y in s.stack[i..])
  }

  lemma CutSides(s: Search, i: nat)
    requires Ordered(s) && i < |s.stack|
    ensures Sides(s, i)
  {
    forall y <- s.stack[..i]
      ensures y in s.stack && s.Num(y) < s.Num(s.stack[i])
    {
      var j :| 0 <= j < i && s.stack[..i][j] == y;
      assert s.stack[j] == y;
    }
    forall y <- s.stack[i..]
      ensures y in s.stack && s.Num(y) >= s.Num(s.stack[i])
    {
      var j :| 0 <= j < |s.stack| - i && s.stack[i..][j] == y;
      assert s.stack[i + j] == y;
    }
    forall y <- s.stack
      ensures y in s.stack[..i] || y in s.stack[i..]
    {
      var j :| 0 <= j < |s.stack| && s.stack[j] == y;
      if j < i {
        assert s.stack[..i][j] == y;
      } else {
        assert s.stack[i..][j - i] == y;
      }
    }
  }

  lemma ToCurrent(g: Graph, s: Search, y: State)
    requires OnStack(g, s) && GrayReaches(g, s) && LowSound(g, s) && s.frames != [] && y in s.stack
    ensures Reach(g, y, s.Current())
  {
    var k := LeadsTo(g, s, y, s.Low(y), |s.frames|);
    CurrentIsLast(g, s, k);
    assert s.Current() in s.stack;
    ReachTrans(g, y, s.frames[k].state, s.Current());
  }

  lemma RootConnected(g: Graph, s: Search, i: nat)
    requires OnStack(g, s) && GrayReaches(g, s) && LowSound(g, s) && Root(g, s, i) && Sides(s, i)
    ensures StronglyConnected(g, Elements(s.stack[i..]))
  {
    var C, src := Elements(s.stack[i..]), s.Current();
    forall y, z | y in C && z in C
      ensures Reach(g, y, z)
    {
      ToCurrent(g, s, y);
      assert s.frames[|s.frames| - 1].state == src;
      assert Reach(g, src, z);
      ReachTrans(g, y, src, z);
    }
  }

  lemma EmittedClosed(g: Graph, comps: seq<set<State>>)
    requires Emissions(g, comps)
    ensures Closed(g, Union(comps))
  {
    if comps != [] {
      assert Emission(g, comps, |comps| - 1);
      assert comps[..|comps|] == comps;
    }
  }

  lemma SeenFromRoot(g: Graph, s: Search, i: nat, y: State, j: nat)
    requires OnStack(g, s) && Root(g, s, i) && Sides(s, i) && y in s.stack[i..]
    requires y in g.succ && j < |g.succ[y]|
    ensures Seen(s, y, j) && Segment(s, y, |s.frames| - 1)
  {
    forall k | 0 <= k < |s.frames| && s.frames[k].state == y
      ensures j < s.frames[k].pos
    {
      CurrentIsLast(g, s, k);
      assert k == |s.frames| - 1;
    }
  }

  lemma RootClosed(g: Graph, s: Search, i: nat)
    requires g.Valid() && OnStack(g, s) && Split(s) && Explored(g, s) && Emissions(g, s.components)
    requires Root(g, s, i) && Sides(s, i)
    ensures Closed(g, Union(s.components) + Elements(s.stack[i..]))
  {
    var u, C := Union(s.components), Elements(s.stack[i..]);
    EmittedClosed(g, s.components);
    forall y, z | y in u + C && g.Edge(y, z)
      ensures z in u + C
    {
      if y !in u {
        var j :| 0 <= j < |g.succ[y]| && g.succ[y][j] == z;
        SeenFromRoot(g, s, i, y, j);
        assert z in s.number;
        if z in s.stack {
          assert s.Low(s.frames[|s.frames| - 1].state) <= s.Num(z);
        }
      }
    }
  }

  lemma RootEmits(g: Graph, s: Search, i: nat)
    requires g.Valid() && OnStack(g, s) && GrayReaches(g, s) && LowSound(g, s) && Split(s)
    requires Explored(g, s) && Emissions(g, s.components) && Root(g, s, i) && Sides(s, i)
    ensures Emissions(g, s.components + [Elements(s.stack[i..])])
    ensures Union(s.components + [Elements(s.stack[i..])]) == Union(s.components) + Elements(s.stack[i..])
  {
    RootConnected(g, s, i);
    RootClosed(g, s, i);
    assert s.stack[i..][0] in Elements(s.stack[i..]);
    EmitMore(g, s.components, Elements(s.stack[i..]));
  }

  // What the lemmas below need to know of the states s before, and t after
  // the i-th stacked state, the current one, is left with its component.
  ghost predicate CutValues(s: Search, i: nat, top: nat, t: Search) {
    && s.frames != [] && i < |s.stack|
    && t.count == s.count && t.number == s.number && t.low.Keys == s.low.Keys
    && t.stack == s.stack[..i] && t.frames == s.frames[..|s.frames| - 1]
    && (forall y <- s.stack[..i] :: t.Low(y) == s.Low(y))
    && (forall y <- s.stack[i..] :: t.Low(y) == top)
    && (forall y <- s.number | y !in s.stack :: t.Low(y) == s.Low(y))
  }

  lemma CutStep(g: Graph, s: Search, i: nat, top: nat)
    requires Numbers(g, s) && Split(s) && i < |s.stack| && s.frames != [] && Sides(s, i)
    ensures CutValues(s, i, top, Cut(s, i, top))
  {
    forall y <- s.stack[..i]
      ensures y !in s.stack[i..]
    {
    }
    forall y | y in s.stack[i..] || y in s.stack[..i]
      ensures y in s.low
    {
      assert y in s.stack;
    }
  }

  lemma CutSplit(s: Search, i: nat, top: nat, t: Search)
    requires Split(s) && CutValues(s, i, top, t) && Sides(s, i)
    requires Union(t.components) == Union(s.components) + Elements(s.stack[i..])
    ensures Split(t)
  {
  }

  lemma CutShape(g: Graph, s: Search, i: nat, top: nat, t: Search)
    requires Numbers(g, s) && Ordered(s) && CutValues(s, i, top, t)
    ensures Numbers(g, t) && Ordered(t)
  {
    assert forall y :: t.Num(y) == s.Num(y);
  }

  lemma GrayBelowRoot(g: Graph, s: Search, i: nat, k: nat)
    requires OnStack(g, s) && Root(g, s, i) && Sides(s, i) && k < |s.frames| - 1
    ensures s.frames[k].state in s.stack[..i]
  {
    assert s.frames[k].state in s.stack;
    assert s.Num(s.frames[k].state) < s.Num(s.frames[|s.frames| - 1].state);
  }

  lemma CutOnStack(g: Graph, s: Search, i: nat, top: nat, t: Search)
    requires OnStack(g, s) && CutValues(s, i, top, t) && Root(g, s, i) && Sides(s, i)
    ensures OnStack(g, t)
  {
    assert forall y :: t.Num(y) == s.Num(y);
    forall k | 0 <= k < |t.frames|
      ensures t.frames[k].state in t.stack
    {
      GrayBelowRoot(g, s, i, k);
    }
  }

  lemma CutGrayReaches(g: Graph, s: Search, i: nat, top: nat, t: Search)
    requires GrayReaches(g, s) && CutValues(s, i, top, t)
    ensures GrayReaches(g, t)
  {
    assert forall y :: t.Num(y) == s.Num(y);
    forall k, y | 0 <= k < |t.frames| && y in t.stack && t.Num(t.frames[k].state) <= t.Num(y)
      ensures Reach(g, t.frames[k].state, y)
    {
      assert t.frames[k] == s.frames[k];
    }
  }

  lemma CutLowSound(g: Graph, s: Search, i: nat, top: nat, t: Search)
    requires LowSound(g, s) && CutValues(s, i, top, t) && Root(g, s, i) && Sides(s, i)
    ensures LowSound(g, t)
  {
    assert forall y :: t.Num(y) == s.Num(y);
    forall y <- t.stack
      ensures t.Low(y) <= t.Num(y) && Leads(g, t, y, t.Low(y), |t.frames|)
    {
      var k := LeadsTo(g, s, y, s.Low(y), |s.frames|);
      assert k < |t.frames|;
      LeadsBy(g, t, y, t.Low(y), |t.frames|, k);
    }
  }

  lemma CutLowGone(top: nat, s: Search, i: nat, t: Search)
    requires LowGone(top, s) && CutValues(s, i, top, t) && Sides(s, i)
    ensures LowGone(top, t)
  {
  }

  lemma CutSeen(g: Graph, s: Search, i: nat, top: nat, t: Search, y: State, j: nat)
    requires CutValues(s, i, top, t) && Root(g, s, i) && Sides(s, i) && y in t.stack && Seen(t, y, j)
    ensures Seen(s, y, j)
  {
    forall k | 0 <= k < |s.frames| && s.frames[k].state == y
      ensures j < s.frames[k].pos
    {
      assert t.frames[k] == s.frames[k];
    }
  }

  lemma CutSegment(g: Graph, s: Search, i: nat, top: nat, t: Search, y: State, k: nat)
    requires CutValues(s, i, top, t) && Root(g, s, i) && Sides(s, i) && y in t.stack && Segment(t, y, k)
    ensures Segment(s, y, k)
  {
    assert forall x :: t.Num(x) == s.Num(x);
    assert t.frames[k] == s.frames[k];
    if k + 1 < |t.frames| {
      assert t.frames[k + 1] == s.frames[k + 1];
    }
  }

  lemma CutExplored(g: Graph, s: Search, i: nat, top: nat, t: Search)
    requires OnStack(g, s) && Explored(g, s) && CutValues(s, i, top, t) && Root(g, s, i) && Sides(s, i)
    ensures Explored(g, t)
  {
    forall y, j: nat | y in t.stack && y in g.succ && j < |g.succ[y]| && Seen(t, y, j)
      ensures g.succ[y][j] in t.number
    {
      CutSeen(g, s, i, top, t, y, j);
    }
    forall y, j: nat, k: nat | y in t.stack && y in g.succ && j < |g.succ[y]| && Seen(t, y, j) && Segment(t, y, k)
                               && g.succ[y][j] in t.stack
      ensures t.Low(t.frames[k].state) <= t.Num(g.succ[y][j])
    {
      CutSeen(g, s, i, top, t, y, j);
      CutSegment(g, s, i, top, t, y, k);
      GrayBelowRoot(g, s, i, k);
      assert t.frames[k] == s.frames[k];
      assert s.Low(s.frames[k].state) <= s.Num(g.succ[y][j]);
    }
  }

  lemma CutKeeps(g: Graph, top: nat, s: Search, i: nat)
    requires g.Valid() && Invariant(g, top, s) && Root(g, s, i)
    ensures Invariant(g, top, Cut(s, i, top))
  {
    var t := Cut(s, i, top);
    CutSides(s, i);
    CutStep(g, s, i, top);
    RootEmits(g, s, i);
    CutSplit(s, i, top, t);
    CutShape(g, s, i, top, t);
    CutOnStack(g, s, i, top, t);
    CutGrayReaches(g, s, i, top, t);
    CutLowSound(g, s, i, top, t);
    CutLowGone(top, s, i, t);
    CutExplored(g, s, i, top, t);
  }

  // ---------------------------------------------------------------------
  // Leaving another state
  // ---------------------------------------------------------------------

  function Popped(s: Search): Search
    requires s.frames != []
  {
    s.(frames := s.frames[..|s.frames| - 1])
  }

  // Back to the parent, which leads to all that the current state leads to.
  function Merged(s: Search): Search
    requires |s.frames| >= 2
  {
    Lowered(Popped(s), s.frames[|s.frames| - 2].state, s.Low(s.Current()))
  }

  ghost predicate Inner(g: Graph, s: Search) {
    Over(g, s) && s.Low(s.Current()) != s.Num(s.Current())
  }

  lemma InnerHasParent(g: Graph, s: Search)
    requires OnStack(g, s) && LowSound(g, s) && Inner(g, s)
    ensures |s.frames| >= 2
    ensures Leads(g, s, s.Current(), s.Low(s.Current()), |s.frames| - 1)
  {
    assert s.frames[|s.frames| - 1].state in s.stack;
    var k := LeadsTo(g, s, s.Current(), s.Low(s.Current()), |s.frames|);
    assert k < |s.frames| - 1;
    LeadsBy(g, s, s.Current(), s.Low(s.Current()), |s.frames| - 1, k);
  }

  ghost predicate OneLess(s: Search, t: Search) {
    && |s.frames| >= 2
    && t.frames == s.frames[..|s.frames| - 1]
  }

  function Parent(s: Search): State
    requires |s.frames| >= 2
  {
    s.frames[|s.frames| - 2].state
  }

  lemma MergedStep(g: Graph, s: Search)
    requires Numbers(g, s) && |s.frames| >= 2 && Parent(s) in s.number
    ensures LowStep(s, Parent(s), s.Low(s.Current()), Merged(s)) && OneLess(s, Merged(s))
  {
    assert Parent(s) in s.low;
  }

  lemma MergedOnStack(g: Graph, s: Search, v: nat, t: Search)
    requires OneLess(s, t) && LowStep(s, Parent(s), v, t) && OnStack(g, s) && GrayReaches(g, s)
    ensures OnStack(g, t) && GrayReaches(g, t)
  {
    assert forall y :: t.Num(y) == s.Num(y);
    assert forall k | 0 <= k < |t.frames| :: t.frames[k] == s.frames[k];
  }

  lemma MergedLowSound(g: Graph, s: Search, v: nat, t: Search)
    requires OneLess(s, t) && LowStep(s, Parent(s), v, t) && OnStack(g, s) && GrayReaches(g, s) && LowSound(g, s)
    requires v <= s.Num(s.Current()) && Leads(g, s, s.Current(), v, |s.frames| - 1)
    ensures LowSound(g, t)
  {
    assert forall y :: t.Num(y) == s.Num(y);
    assert s.frames[|s.frames| - 1].state in s.stack;
    forall y <- t.stack
      ensures t.Low(y) <= t.Num(y) && Leads(g, t, y, t.Low(y), |t.frames|)
    {
      var c := LeadsTo(g, s, s.Current(), v, |s.frames| - 1);
      assert t.frames[c] == s.frames[c];
      if y == Parent(s) && v < s.Low(y) {
        assert s.Num(s.frames[|s.frames| - 2].state) < s.Num(s.frames[|s.frames| - 1].state);
        assert Reach(g, y, s.Current());
        ReachTrans(g, y, s.Current(), s.frames[c].state);
        LeadsBy(g, t, y, t.Low(y), |t.frames|, c);
      } else {
        var k := LeadsTo(g, s, y, s.Low(y), |s.frames|);
        if k < |t.frames| {
          assert t.frames[k] == s.frames[k];
          LeadsBy(g, t, y, t.Low(y), |t.frames|, k);
        } else {
          ReachTrans(g, y, s.Current(), s.frames[c].state);
          LeadsBy(g, t, y, t.Low(y), |t.frames|, c);
        }
      }
    }
  }

  lemma MergedSeen(g: Graph, s: Search, v: nat, t: Search, y: State, j: nat)
    requires OneLess(s, t) && Over(g, s) && Seen(t, y, j) && y in g.succ && j < |g.succ[y]|
    ensures Seen(s, y, j)
  {
    forall k | 0 <= k < |s.frames| && s.frames[k].state == y
      ensures j < s.frames[k].pos
    {
      if k < |t.frames| {
        assert t.frames[k] == s.frames[k];
      }
    }
  }

  // The two last segments are merged.
  lemma MergedSegment(g: Graph, s: Search, v: nat, t: Search, y: State, k: nat) returns (l: nat)
    requires OnStack(g, s) && OneLess(s, t) && LowStep(s, Parent(s), v, t) && Segment(t, y, k)
    ensures Segment(s, y, l)
    ensures l == k || (l == |s.frames| - 1 && k == |s.frames| - 2)
  {
    assert forall x :: t.Num(x) == s.Num(x);
    assert t.frames[k] == s.frames[k];
    if k + 1 < |t.frames| {
      assert t.frames[k + 1] == s.frames[k + 1];
      l := k;
    } else {
      l := if s.Num(y) < s.Num(s.Current()) then k else k + 1;
    }
  }

  lemma MergedLowCovers(g: Graph, s: Search, t: Search)
    requires OnStack(g, s) && LowCovers(g, s) && Over(g, s)
    requires OneLess(s, t) && LowStep(s, Parent(s), s.Low(s.Current()), t)
    ensures LowCovers(g, t)
  {
    assert forall x :: t.Num(x) == s.Num(x);
    forall y, j: nat, k: nat | y in t.stack && y in g.succ && j < |g.succ[y]| && Seen(t, y, j) && Segment(t, y, k)
                               && g.succ[y][j] in t.stack
      ensures t.Low(t.frames[k].state) <= t.Num(g.succ[y][j])
    {
      MergedSeen(g, s, s.Low(s.Current()), t, y, j);
      var l := MergedSegment(g, s, s.Low(s.Current()), t, y, k);
      assert t.frames[k] == s.frames[k];
      assert s.Low(s.frames[l].state) <= s.Num(g.succ[y][j]);
    }
  }

  lemma MergedSeenVisited(g: Graph, s: Search, t: Search)
    requires SeenVisited(g, s) && Over(g, s)
    requires OneLess(s, t) && LowStep(s, Parent(s), s.Low(s.Current()), t)
    ensures SeenVisited(g, t)
  {
    forall y, j: nat | y in t.stack && y in g.succ && j < |g.succ[y]| && Seen(t, y, j)
      ensures g.succ[y][j] in t.number
    {
      MergedSeen(g, s, s.Low(s.Current()), t, y, j);
    }
  }

  lemma MergedKeeps(g: Graph, top: nat, s: Search)
    requires g.Valid() && Invariant(g, top, s) && Inner(g, s) && |s.frames| >= 2
    ensures Invariant(g, top, Merged(s))
  {
    var t, v := Merged(s), s.Low(s.Current());
    InnerHasParent(g, s);
    assert s.frames[|s.frames| - 2].state in s.stack;
    assert s.frames[|s.frames| - 1].state in s.stack;
    MergedStep(g, s);
    LowStepShape(g, s, Parent(s), v, t);
    MergedOnStack(g, s, v, t);
    MergedLowSound(g, s, v, t);
    LowStepGone(top, s, Parent(s), v, t);
    MergedLowCovers(g, s, t);
    MergedSeenVisited(g, s, t);
  }

  // The states still to be visited.
  ghost function Unvisited(g: Graph, s: Search): nat {
    if s.count <= |Elements(g.states)| then |Elements(g.states)| - s.count else 0
  }

  lemma UnvisitedLess(g: Graph, s: Search, x: State)
    requires Numbers(g, s) && x in g.states && x !in s.number
    ensures Unvisited(g, Tree(s, x)) < Unvisited(g, s)
  {
    SubsetSize(s.number.Keys + {x}, Elements(g.states));
  }

  // ---------------------------------------------------------------------
  // End of the search
  // ---------------------------------------------------------------------

  // What is on the stack leads to a state being visited.
  lemma StackedFromGray(g: Graph, s: Search)
    requires LowSound(g, s) && s.stack != []
    ensures s.frames != []
  {
    assert s.stack[0] in s.stack;
    var k := LeadsTo(g, s, s.stack[0], s.Low(s.stack[0]), |s.frames|);
  }

  // Once the search is back from its start, nothing is left on the stack.
  lemma NothingStacked(g: Graph, s: Search)
    requires LowSound(g, s) && s.frames == []
    ensures s.stack == []
  {
    assert s.stack != [] ==> s.frames != [] by {
      if s.stack != [] {
        StackedFromGray(g, s);
      }
    }
  }

  lemma AllEmitted(g: Graph, top: nat, s: Search)
    requires Invariant(g, top, s) && s.frames == []
    requires forall x <- g.states :: x in s.number
    ensures Components(g, s.components)
  {
    NothingStacked(g, s);
    assert Union(s.components) == Elements(g.states);
    EmissionsAreComponents(g, s.components);
  }
}
