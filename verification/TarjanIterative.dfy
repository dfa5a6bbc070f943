// Tarjan's algorithm, with an explicit stack of frames: the default of scc
// (vcsn/algos/scc.hh).
module TarjanIterative {
  import opened Sets
  import opened Graphs
  import opened TarjanSearch

  // The greatest unsigned int, out of reach of the low values.
  const LOW_MAX: nat := 0xFFFF_FFFF

  // What remains to be looked at by the frames.
  ghost function Remaining(g: Graph, frames: seq<Frame>): nat {
    if frames == [] then 0
    else
      var f := frames[|frames| - 1];
      Remaining(g, frames[..|frames| - 1])
      + if f.state in g.succ && f.pos <= |g.succ[f.state]| then |g.succ[f.state]| - f.pos else 0
  }

  lemma RemainingLess(g: Graph, s: Search, v: nat)
    requires s.frames != [] && s.Current() in g.succ && s.Pos() < |g.succ[s.Current()]|
    ensures Remaining(g, Back(s, v).frames) < Remaining(g, s.frames)
  {
    var n := |s.frames| - 1;
    assert Back(s, v).frames[..n] == s.frames[..n];
  }

  // ---------------------------------------------------------------------
  // One turn of the loop
  // ---------------------------------------------------------------------

  // Look at the next transition of the current state.
  function Follow(g: Graph, s: Search): Search
    requires Steppable(g, s) && s.Pos() != |g.succ[s.Current()]|
  {
    var dst := g.succ[s.Current()][s.Pos()];
    if dst !in s.number then Tree(s, dst) else Back(s, s.Low(dst))
  }

  function Component(s: Search): Search
    requires s.frames != [] && s.Current() in s.stack
  {
    if s.Low(s.Current()) == s.Num(s.Current()) then Cut(s, IndexOf(s.stack, s.Current()), LOW_MAX)
    else Popped(s)
  }

  function ToParent(s: Search, src: State): Search {
    if s.frames == [] then s else Lowered(s, s.Current(), s.Low(src))
  }

  // All the transitions of the current state were looked at.
  function Leave(g: Graph, s: Search): Search
    requires Steppable(g, s)
  {
    ToParent(Component(s), s.Current())
  }

  // What makes a turn possible.
  predicate Steppable(g: Graph, s: Search) {
    && s.frames != []
    && s.Current() in s.stack && s.Current() in g.succ && s.Pos() <= |g.succ[s.Current()]|
    && s.number.Keys == s.low.Keys
    && (forall y <- s.stack :: y in s.low)
    && (forall k | 0 <= k < |s.frames| :: s.frames[k].state in s.low)
  }

  lemma CanStep(g: Graph, s: Search)
    requires g.Valid() && Invariant(g, LOW_MAX, s) && s.frames != []
    ensures Steppable(g, s)
  {
    assert s.frames[|s.frames| - 1].state in s.stack;
    Visible(g, s, s.Current());
    forall y <- s.stack
      ensures y in s.low
    {
      Visible(g, s, y);
    }
  }

  ghost predicate Progress(g: Graph, s: Search, t: Search) {
    && s.number.Keys <= t.number.Keys
    && Unvisited(g, t) <= Unvisited(g, s)
    && (Unvisited(g, t) == Unvisited(g, s) ==>
          Remaining(g, t.frames) < Remaining(g, s.frames)
          || (Remaining(g, t.frames) == Remaining(g, s.frames) && |t.frames| < |s.frames|))
  }

  lemma LowIsBound(g: Graph, s: Search, dst: State)
    requires Split(s) && LowSound(g, s) && LowGone(LOW_MAX, s) && dst in s.number
    ensures Bound(g, LOW_MAX, s, dst, s.Low(dst))
  {
  }

  lemma DstState(g: Graph, s: Search)
    requires g.Valid() && Numbers(g, s) && Split(s) && Steppable(g, s) && s.Pos() != |g.succ[s.Current()]|
    ensures g.succ[s.Current()][s.Pos()] in g.states
  {
    Visible(g, s, s.Current());
  }

  lemma FollowKeeps(g: Graph, s: Search)
    requires Fits(g, LOW_MAX) && Invariant(g, LOW_MAX, s) && Steppable(g, s) && s.Pos() != |g.succ[s.Current()]|
    ensures Invariant(g, LOW_MAX, Follow(g, s))
  {
    var dst := g.succ[s.Current()][s.Pos()];
    DstState(g, s);
    if dst !in s.number {
      TreeKeeps(g, LOW_MAX, s, dst);
    } else {
      LowIsBound(g, s, dst);
      BackKeeps(g, LOW_MAX, s, dst, s.Low(dst));
    }
  }

  lemma FollowProgress(g: Graph, s: Search)
    requires g.Valid() && Numbers(g, s) && Split(s) && Steppable(g, s) && s.Pos() != |g.succ[s.Current()]|
    ensures Progress(g, s, Follow(g, s))
  {
    var dst := g.succ[s.Current()][s.Pos()];
    DstState(g, s);
    if dst !in s.number {
      UnvisitedLess(g, s, dst);
    } else {
      RemainingLess(g, s, s.Low(dst));
    }
  }

  lemma LeaveProgress(g: Graph, s: Search, t: Search)
    requires s.frames != [] && s.Current() in g.succ && s.Pos() == |g.succ[s.Current()]|
    requires t.number == s.number && t.count == s.count && t.frames == s.frames[..|s.frames| - 1]
    ensures Progress(g, s, t)
  {
  }

  // Below the root of a component, nothing is lowered.
  lemma LeaveRoot(g: Graph, s: Search, i: nat, c: Search)
    requires Fits(g, LOW_MAX) && Numbers(g, c) && Split(c) && OnStack(g, c) && LowSound(g, c)
    requires s.frames != [] && c.Low(s.Current()) == LOW_MAX
    ensures ToParent(c, s.Current()) == c
  {
    if c.frames != [] {
      assert c.frames[|c.frames| - 1].state in c.stack;
      LowOfStacked(g, LOW_MAX, c, c.Current());
    }
  }

  lemma RootLow(s: Search, i: nat)
    requires i < |s.stack| && s.stack[i] in s.low && s.frames != []
    ensures Cut(s, i, LOW_MAX).Low(s.stack[i]) == LOW_MAX
  {
    assert s.stack[i] == s.stack[i..][0];
  }

  lemma LeaveKeepsRoot(g: Graph, s: Search, i: nat)
    requires Fits(g, LOW_MAX) && Invariant(g, LOW_MAX, s) && Root(g, s, i)
    ensures Invariant(g, LOW_MAX, Cut(s, i, LOW_MAX))
    ensures ToParent(Cut(s, i, LOW_MAX), s.Current()) == Cut(s, i, LOW_MAX)
  {
    CutKeeps(g, LOW_MAX, s, i);
    Visible(g, s, s.Current());
    RootLow(s, i);
    LeaveRoot(g, s, i, Cut(s, i, LOW_MAX));
  }

  // What is left is the result of one of the two steps.
  lemma LeaveCases(g: Graph, s: Search)
    requires Steppable(g, s) && s.Pos() == |g.succ[s.Current()]|
    ensures Root(g, s, IndexOf(s.stack, s.Current())) ==>
              Leave(g, s) == ToParent(Cut(s, IndexOf(s.stack, s.Current()), LOW_MAX), s.Current())
    ensures !Root(g, s, IndexOf(s.stack, s.Current())) ==> Inner(g, s)
    ensures Inner(g, s) && |s.frames| >= 2 ==> Leave(g, s) == Merged(s)
  {
  }

  lemma LeaveKeeps(g: Graph, s: Search)
    requires Fits(g, LOW_MAX) && Invariant(g, LOW_MAX, s) && Steppable(g, s) && s.Pos() == |g.succ[s.Current()]|
    ensures Invariant(g, LOW_MAX, Leave(g, s))
  {
    LeaveCases(g, s);
    if Inner(g, s) {
      InnerHasParent(g, s);
      MergedKeeps(g, LOW_MAX, s);
    } else {
      LeaveKeepsRoot(g, s, IndexOf(s.stack, s.Current()));
    }
  }

  lemma LeaveFrames(g: Graph, s: Search)
    requires Steppable(g, s) && s.Pos() == |g.succ[s.Current()]|
    ensures Progress(g, s, Leave(g, s))
  {
    LeaveProgress(g, s, Leave(g, s));
  }

  // Said of what equals s, so as to be looked into only where needed.
  ghost predicate Sound(g: Graph, s: Search) {
    forall t | t == s :: Invariant(g, LOW_MAX, t)
  }

  lemma SoundStart(g: Graph)
    ensures Sound(g, Start())
  {
    StartInvariant(g, LOW_MAX);
  }

  lemma SoundEnd(g: Graph, s: Search)
    requires Sound(g, s) && s.frames == [] && forall x <- g.states :: x in s.number
    ensures Components(g, s.components)
  {
    AllEmitted(g, LOW_MAX, s);
  }

  class Tarjan {
    const g: Graph
    var currStateNum: nat
    var number: map<State, nat>
    var low: map<State, nat>
    var stack: seq<State>
    var components: seq<set<State>>
    var dfsStack: seq<Frame>

    ghost function Snapshot(): Search
      reads this
    {
      Search(currStateNum, number, low, stack, components, dfsStack)
    }

    // Compute the components of the graph.
    constructor (g: Graph)
      requires Fits(g, LOW_MAX)
      ensures Components(g, components)
    {
      this.g := g;
      currStateNum, number, low, stack, components, dfsStack := 0, map[], map[], [], [], [];
      new;
      SoundStart(g);
      var i := 0;
      while i < |g.states|
        invariant i <= |g.states|
        invariant this.g == g && Sound(g, Snapshot()) && dfsStack == []
        invariant forall x <- g.states[..i] :: x in number
      {
        if g.states[i] !in number {
          Dfs(g.states[i]);
        }
        TakeMore(g.states, i);
        i := i + 1;
      }
      assert g.states[..i] == g.states;
      SoundEnd(g, Snapshot());
    }

    // Visit what is reached from s.
    method Dfs(s: State)
      requires Fits(g, LOW_MAX) && Sound(g, Snapshot())
      requires dfsStack == [] && s in g.states && s !in number
      modifies this
      ensures Sound(g, Snapshot()) && dfsStack == []
      ensures s in number && old(number).Keys <= number.Keys
    {
      TreeKeeps(g, LOW_MAX, Snapshot(), s);
      Visit(s);
      while dfsStack != []
        invariant Invariant(g, LOW_MAX, Snapshot())
        invariant s in number && old(number).Keys <= number.Keys
        decreases Unvisited(g, Snapshot()), Remaining(g, dfsStack), |dfsStack|
      {
        Step();
      }
    }

    // Follow the next transition of the current state, or leave this state.
    method Step()
      requires Fits(g, LOW_MAX) && Invariant(g, LOW_MAX, Snapshot()) && dfsStack != []
      modifies this
      ensures Invariant(g, LOW_MAX, Snapshot()) && Progress(g, old(Snapshot()), Snapshot())
      ensures old(number).Keys <= number.Keys
    {
      CanStep(g, Snapshot());
      if dfsStack[|dfsStack| - 1].pos != |g.succ[dfsStack[|dfsStack| - 1].state]| {
        FollowKeeps(g, Snapshot());
        FollowProgress(g, Snapshot());
        FollowNext();
      } else {
        LeaveKeeps(g, Snapshot());
        LeaveFrames(g, Snapshot());
        LeaveCurrent();
      }
    }

    // Give its number to a state, and start visiting it.
    method Visit(s: State)
      modifies this
      ensures Snapshot() == Visited(old(Snapshot()), s)
    {
      number, low := number[s := currStateNum], low[s := currStateNum];
      currStateNum := currStateNum + 1;
      dfsStack := dfsStack + [Frame(s, 0)];
      stack := stack + [s];
    }

    // Look at the next transition of the current state.
    method FollowNext()
      requires Steppable(g, Snapshot()) && Snapshot().Pos() != |g.succ[Snapshot().Current()]|
      modifies this
      ensures Snapshot() == Follow(g, old(Snapshot()))
    {
      var n := |dfsStack| - 1;
      var src := dfsStack[n].state;
      var dst := g.succ[src][dfsStack[n].pos];
      dfsStack := dfsStack[n := Frame(src, dfsStack[n].pos + 1)];
      if dst !in number {
        Visit(dst);
      } else {
        assert src in low && dst in low;
        if low[dst] < low[src] {
          low := low[src := low[dst]];
        }
      }
    }

    // All the transitions of the current state were looked at: it is the
    // root of a component, or its parent leads at least as low.
    method LeaveCurrent()
      requires Steppable(g, Snapshot())
      modifies this
      ensures Snapshot() == Leave(g, old(Snapshot()))
    {
      var src := dfsStack[|dfsStack| - 1].state;
      assert src in low && src in number;
      if low[src] == number[src] {
        PopComponent(src);
      }
      dfsStack := dfsStack[..|dfsStack| - 1];
      if dfsStack != [] {
        var parent := dfsStack[|dfsStack| - 1].state;
        assert parent in old(low) && src in old(low);
        if low[src] < low[parent] {
          low := low[parent := low[src]];
        }
      }
    }

    // Pop the stack until src: this is a component.
    method PopComponent(src: State)
      requires src in stack && dfsStack != [] && forall w <- stack :: w in low
      modifies this
      ensures Snapshot() == Cut(old(Snapshot()), IndexOf(old(stack), src), LOW_MAX).(frames := old(dfsStack))
    {
      ghost var stack0, low0 := stack, low;
      var com: set<State> := {};
      StartPopping(stack0, low0, src, LOW_MAX);
      var w := Pop();
      com := com + {w};
      while w != src
        invariant Popping(stack0, low0, src, stack, w, com, low, LOW_MAX)
        invariant dfsStack == old(dfsStack) && number == old(number) && currStateNum == old(currStateNum)
        invariant components == old(components)
        decreases |stack|
      {
        PoppingMore(stack0, low0, src, stack, w, com, low, LOW_MAX);
        w := Pop();
        com := com + {w};
      }
      PoppedAll(stack0, low0, src, stack, com, low, LOW_MAX);
      components := components + [com];
    }

    // Pop a state: its low value is set out of reach.
    method Pop() returns (w: State)
      requires stack != []
      modifies this
      ensures Snapshot() == old(Snapshot()).(stack := old(stack)[..|old(stack)| - 1], low := old(low)[w := LOW_MAX])
      ensures w == old(stack)[|old(stack)| - 1]
    {
      w := stack[|stack| - 1];
      stack := stack[..|stack| - 1];
      low := low[w := LOW_MAX];
    }
  }
}
