// Minimization by signatures: the quotient by the stable partition, which is
// the coarsest bisimulation when the weights are Boolean
// (vcsn/algos/minimize.hh, vcsn/algos/minimize-signature.hh,
// vcsn/algos/minimize-weighted.hh).
module Minimize {
  import opened AllDistances
  import opened BooleanRows
  import opened BooleanSemiring
  import opened PointedAutomata
  import opened Partitions
  import opened Quotients
  import opened Signatures

  // The classes of the result are stable, and no relation that respects
  // signatures is finer.
  ghost predicate MinimizedBy<K(!new)>(w: Semiring<K>, a: Automaton<K>, m: Classes) {
    ValidStates(a) && SigStable(w, a, m) && Coarse(w, a, m)
  }

  // The automaton of the classes has the same series.
  method MinimizeWeighted<K(==, !new)>(w: Semiring<K>, a: Automaton<K>)
    returns (res: Automaton<K>, origins: map<State, set<State>>, ghost m: Classes)
    requires Laws(w) && Valid(w, a) && Trim(a)
    ensures forall u: seq<nat> :: Series(w, res, u) == Series(w, a, u)
    ensures MinimizedBy(w, a, m) && QuotientBy(w, a, m, res, origins) && Describes(w, a, m, res, origins)
    ensures a.out[PRE] != [] ==> Valid(w, res)
  {
    var minimizer := new Minimizer(w, a);
    minimizer.BuildClasses();
    m := minimizer.partition.stateToClass;
    SoundRefined(w, a, minimizer.partition.Value());
    SigStableIsStable(w, a, m);
    PostAlone(w, a, m);
    if a.out[PRE] != [] {
      PreAlone(w, a, m);
    }
    res, origins := Quotient(w, a, minimizer.partition.classToSet, m);
  }

  // ---------------------------------------------------------------------
  // Bisimulations
  // ---------------------------------------------------------------------

  // What s and t do leads to related states.
  ghost predicate Forth(a: Boolaut, r: Relation, s: State, t: State)
    requires s in a.out && t in a.out
  {
    forall o <- a.out[s] :: exists o' :: o' in a.out[t] && o'.lbl == o.lbl && r(o.dst, o'.dst)
  }

  ghost predicate Back(a: Boolaut, r: Relation, s: State, t: State)
    requires s in a.out && t in a.out
  {
    forall o' <- a.out[t] :: exists o :: o in a.out[s] && o'.lbl == o.lbl && r(o.dst, o'.dst)
  }

  ghost predicate Bisimulation(a: Boolaut, r: Relation)
    requires ValidStates(a)
  {
    forall s, t | IsState(a, s) && IsState(a, t) && r(s, t) :: Forth(a, r, s, t) && Back(a, r, s, t)
  }

  // A Boolean signature gives, for each label, a set of classes.
  lemma {:induction false} BooleanSig(outs: seq<Out<bool>>, m: Classes, l: Label, c: Class)
    requires Present(outs)
    ensures c in At(Sig(Booleans(), outs, m), l) <==> Leads(outs, m, l, c)
    ensures c in At(Sig(Booleans(), outs, m), l) ==> At(Sig(Booleans(), outs, m), l)[c]
    decreases |outs|
  {
    if outs != [] {
      var o, rest := outs[|outs| - 1], outs[..|outs| - 1];
      assert o in outs && forall x :: x in outs <==> x in rest || x == o;
      BooleanSig(rest, m, l, c);
    }
  }

  lemma SamePolynomials(p: Polynomial<bool>, q: Polynomial<bool>)
    requires forall c: Class :: c in p <==> c in q
    requires forall c: Class :: (c in p ==> p[c]) && (c in q ==> q[c])
    ensures p == q
  {
    assert p.Keys == q.Keys;
  }

  lemma SameSignatures(sig: Signature<bool>, sig': Signature<bool>)
    requires forall l: Label :: l in sig <==> l in sig'
    requires forall l: Label :: At(sig, l) == At(sig', l)
    ensures sig == sig'
  {
    assert sig.Keys == sig'.Keys;
    forall l | l in sig
      ensures sig[l] == sig'[l]
    {
      assert At(sig, l) == At(sig', l);
    }
  }

  // The same labels lead to the same classes.
  ghost predicate SameLeads(outs: seq<Out<bool>>, outs': seq<Out<bool>>, m: Classes) {
    forall l: Label, c: Class :: Leads(outs, m, l, c) <==> Leads(outs', m, l, c)
  }

  lemma LabelLeads(outs: seq<Out<bool>>, m: Classes, l: Label)
    requires KnownOuts(outs, m)
    ensures l in Sig(Booleans(), outs, m) <==> exists c :: Leads(outs, m, l, c)
  {
    SigLabels(Booleans(), outs, m, l);
    if l in Sig(Booleans(), outs, m) {
      var o :| o in outs && o.lbl == l;
      assert Leads(outs, m, l, m[o.dst]);
    }
  }

  lemma SameLeadsSig(outs: seq<Out<bool>>, outs': seq<Out<bool>>, m: Classes)
    requires Present(outs) && Present(outs') && KnownOuts(outs, m) && KnownOuts(outs', m)
    ensures SameLeads(outs, outs', m) <==> Sig(Booleans(), outs, m) == Sig(Booleans(), outs', m)
  {
    var sig, sig' := Sig(Booleans(), outs, m), Sig(Booleans(), outs', m);
    forall l: Label, c: Class
      ensures c in At(sig, l) <==> Leads(outs, m, l, c)
      ensures c in At(sig', l) <==> Leads(outs', m, l, c)
      ensures (c in At(sig, l) ==> At(sig, l)[c]) && (c in At(sig', l) ==> At(sig', l)[c])
    {
      BooleanSig(outs, m, l, c);
      BooleanSig(outs', m, l, c);
    }
    if SameLeads(outs, outs', m) {
      forall l: Label
        ensures (l in sig <==> l in sig') && At(sig, l) == At(sig', l)
      {
        LabelLeads(outs, m, l);
        LabelLeads(outs', m, l);
        SamePolynomials(At(sig, l), At(sig', l));
      }
      SameSignatures(sig, sig');
    }
  }

  // Bisimulations are never separated.
  lemma BisimulationRespected(a: Boolaut, r: Relation)
    requires Valid(Booleans(), a) && Bisimulation(a, r)
    ensures Respected(Booleans(), a, r)
  {
    forall m: Classes, s, t | (forall s :: s in m <==> IsState(a, s)) && Contains(m, r) && s in m && t in m && r(s, t)
      ensures Sig(Booleans(), a.out[s], m) == Sig(Booleans(), a.out[t], m)
    {
      BooleanOuts(a, m, s);
      BooleanOuts(a, m, t);
      BisimilarLeads(a, r, m, s, t);
      SameLeadsSig(a.out[s], a.out[t], m);
    }
  }

  lemma ForthLeads(a: Boolaut, r: Relation, m: Classes, s: State, t: State, l: Label, c: Class)
    requires s in a.out && t in a.out && Forth(a, r, s, t) && Contains(m, r) && KnownOuts(a.out[t], m)
    requires Leads(a.out[s], m, l, c)
    ensures Leads(a.out[t], m, l, c)
  {
    var o :| o in a.out[s] && o.lbl == l && o.dst in m && m[o.dst] == c;
    var o' :| o' in a.out[t] && o'.lbl == o.lbl && r(o.dst, o'.dst);
    assert m[o'.dst] == c;
  }

  lemma BackLeads(a: Boolaut, r: Relation, m: Classes, s: State, t: State, l: Label, c: Class)
    requires s in a.out && t in a.out && Back(a, r, s, t) && Contains(m, r) && KnownOuts(a.out[s], m)
    requires Leads(a.out[t], m, l, c)
    ensures Leads(a.out[s], m, l, c)
  {
    var o' :| o' in a.out[t] && o'.lbl == l && o'.dst in m && m[o'.dst] == c;
    var o :| o in a.out[s] && o'.lbl == o.lbl && r(o.dst, o'.dst);
    assert m[o.dst] == c;
  }

  lemma LeadsBoth(a: Boolaut, r: Relation, m: Classes, s: State, t: State, l: Label, c: Class)
    requires s in a.out && t in a.out && Forth(a, r, s, t) && Back(a, r, s, t) && Contains(m, r)
    requires KnownOuts(a.out[s], m) && KnownOuts(a.out[t], m)
    ensures Leads(a.out[s], m, l, c) <==> Leads(a.out[t], m, l, c)
  {
    if Leads(a.out[s], m, l, c) {
      ForthLeads(a, r, m, s, t, l, c);
    }
    if Leads(a.out[t], m, l, c) {
      BackLeads(a, r, m, s, t, l, c);
    }
  }

  lemma BisimilarLeads(a: Boolaut, r: Relation, m: Classes, s: State, t: State)
    requires s in a.out && t in a.out && Forth(a, r, s, t) && Back(a, r, s, t) && Contains(m, r)
    requires KnownOuts(a.out[s], m) && KnownOuts(a.out[t], m)
    ensures SameLeads(a.out[s], a.out[t], m)
  {
    forall l: Label, c: Class
      ensures Leads(a.out[s], m, l, c) <==> Leads(a.out[t], m, l, c)
    {
      LeadsBoth(a, r, m, s, t, l, c);
    }
  }

  // The classes are those of a bisimulation.
  lemma ClassesBisimulation(a: Boolaut, m: Classes)
    requires Valid(Booleans(), a) && SigStable(Booleans(), a, m)
    ensures Bisimulation(a, InOneClass(m))
  {
    var r := InOneClass(m);
    forall s, t | IsState(a, s) && IsState(a, t) && r(s, t)
      ensures Forth(a, r, s, t) && Back(a, r, s, t)
    {
      BooleanOuts(a, m, s);
      BooleanOuts(a, m, t);
      SameLeadsSig(a.out[s], a.out[t], m);
      forall o <- a.out[s]
        ensures exists o' :: o' in a.out[t] && o'.lbl == o.lbl && r(o.dst, o'.dst)
      {
        assert Leads(a.out[s], m, o.lbl, m[o.dst]);
        assert Leads(a.out[t], m, o.lbl, m[o.dst]);
      }
      forall o' <- a.out[t]
        ensures exists o :: o in a.out[s] && o'.lbl == o.lbl && r(o.dst, o'.dst)
      {
        assert Leads(a.out[t], m, o'.lbl, m[o'.dst]);
        assert Leads(a.out[s], m, o'.lbl, m[o'.dst]);
      }
    }
  }

  // The classes are those of the coarsest bisimulation.
  ghost predicate CoarsestBisimulation(a: Boolaut, m: Classes)
    requires ValidStates(a)
  {
    && Bisimulation(a, InOneClass(m))
    && forall r: Relation | Bisimulation(a, r) :: Contains(m, r)
  }

  lemma MinimizedCoarsest(a: Boolaut, m: Classes)
    requires Valid(Booleans(), a) && MinimizedBy(Booleans(), a, m)
    ensures CoarsestBisimulation(a, m)
  {
    ClassesBisimulation(a, m);
    forall r: Relation | Bisimulation(a, r)
      ensures Contains(m, r)
    {
      BisimulationRespected(a, r);
    }
  }

  method MinimizeSignature(a: Boolaut) returns (res: Boolaut, origins: map<State, set<State>>, ghost m: Classes)
    requires Valid(Booleans(), a) && Trim(a)
    ensures forall u: seq<nat> :: Series(Booleans(), res, u) == Series(Booleans(), a, u)
    ensures CoarsestBisimulation(a, m) && QuotientBy(Booleans(), a, m, res, origins)
    ensures Describes(Booleans(), a, m, res, origins)
    ensures a.out[PRE] != [] ==> Valid(Booleans(), res)
  {
    BooleanLaws();
    res, origins, m := MinimizeWeighted(Booleans(), a);
    MinimizedCoarsest(a, m);
  }
}
