// What the transitions of a Boolean automaton lead to.
module BooleanRows {
  import opened AllDistances
  import opened BooleanSemiring
  import opened PointedAutomata

  type Boolaut = Automaton<bool>

  // The weights that are stored are not null.
  ghost predicate Present(outs: seq<Out<bool>>) {
    forall o <- outs :: o.weight
  }

  ghost predicate KnownOuts(outs: seq<Out<bool>>, m: Classes) {
    forall o <- outs :: o.dst in m
  }

  // A transition labelled l leads to the class c.
  ghost predicate Leads(outs: seq<Out<bool>>, m: Classes, l: Label, c: nat) {
    exists o :: o in outs && o.lbl == l && o.dst in m && m[o.dst] == c
  }

  // A transition labelled l leads to a state with the value g.
  ghost predicate LeadsTo(outs: seq<Out<bool>>, l: Label, g: State -> bool) {
    exists o :: o in outs && o.lbl == l && g(o.dst)
  }

  lemma BooleanOuts(a: Boolaut, m: Classes, s: State)
    requires Valid(Booleans(), a) && (forall t :: t in m <==> IsState(a, t)) && s in m
    ensures Present(a.out[s]) && KnownOuts(a.out[s], m)
  {
    forall o <- a.out[s]
      ensures o.weight && o.dst in m
    {
      assert ValidOut(Booleans(), a, s, o);
    }
  }

  lemma {:induction false} BooleanSum(outs: seq<Out<bool>>, l: Label, m: Classes, c: nat)
    requires Present(outs)
    ensures ClassSum(Booleans(), outs, l, m, c) <==> Leads(outs, m, l, c)
    decreases |outs|
  {
    if outs != [] {
      var o, rest := outs[|outs| - 1], outs[..|outs| - 1];
      assert o in outs && forall x :: x in outs <==> x in rest || x == o;
      BooleanSum(rest, l, m, c);
    }
  }

  lemma {:induction false} BooleanRow(outs: seq<Out<bool>>, l: Label, g: State -> bool)
    requires Present(outs)
    ensures Row(Booleans(), outs, l, g) <==> LeadsTo(outs, l, g)
    decreases |outs|
  {
    if outs != [] {
      var o, rest := outs[|outs| - 1], outs[..|outs| - 1];
      assert o in outs && forall x :: x in outs <==> x in rest || x == o;
      BooleanRow(rest, l, g);
    }
  }
}
