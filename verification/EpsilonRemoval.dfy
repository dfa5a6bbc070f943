// The elimination of spontaneous transitions, in place, one state after the
// other (vcsn/algos/epsilon-remover.hh).
module EpsilonRemoval {
  import opened Wrappers
  import opened Sets
  import opened AllDistances

  type Letter = nat
  type Word = seq<Letter>

  // A transition; the empty word is None.
  datatype Arrow = Arrow(src: State, lbl: Option<Letter>, dst: State)

  // The weights that are stored are not null.
  datatype Automaton<K> = Automaton(
    states: seq<State>,
    initial: map<State, K>,
    final: map<State, K>,
    transitions: map<Arrow, K>)

  function W<K>(w: Semiring<K>, a: Automaton<K>, e: Arrow): K {
    if e in a.transitions then a.transitions[e] else w.zero
  }

  function F<K>(w: Semiring<K>, a: Automaton<K>, s: State): K {
    if s in a.final then a.final[s] else w.zero
  }

  ghost predicate Valid<K>(w: Semiring<K>, a: Automaton<K>) {
    && Distinct(a.states)
    && (forall e <- a.transitions :: e.src in a.states && e.dst in a.states && a.transitions[e] != w.zero)
    && (forall s <- a.initial :: s in a.states)
    && (forall s <- a.final :: s in a.states && a.final[s] != w.zero)
  }

  // A transition whose weight becomes null is removed.
  function SetWeight<K(==)>(w: Semiring<K>, a: Automaton<K>, e: Arrow, k: K): Automaton<K> {
    a.(transitions := if k == w.zero then a.transitions - {e} else a.transitions[e := k])
  }

  // Merge with an existing transition.
  function AddTransition<K(==)>(w: Semiring<K>, a: Automaton<K>, e: Arrow, k: K): Automaton<K> {
    SetWeight(w, a, e, if e in a.transitions then w.add(a.transitions[e], k) else k)
  }

  function SetFinal<K(==)>(w: Semiring<K>, a: Automaton<K>, s: State, k: K): Automaton<K> {
    a.(final := if k == w.zero then a.final - {s} else a.final[s := k])
  }

  function AddFinal<K(==)>(w: Semiring<K>, a: Automaton<K>, s: State, k: K): Automaton<K> {
    SetFinal(w, a, s, if s in a.final then w.add(a.final[s], k) else k)
  }

  lemma AddedWeight<K(!new)>(w: Semiring<K>, a: Automaton<K>, e: Arrow, k: K)
    requires Laws(w)
    ensures W(w, AddTransition(w, a, e, k), e) == w.add(W(w, a, e), k)
    ensures forall f | f != e :: W(w, AddTransition(w, a, e, k), f) == W(w, a, f)
  {
    Units(w, k);
  }

  lemma AddedFinal<K(!new)>(w: Semiring<K>, a: Automaton<K>, s: State, k: K)
    requires Laws(w)
    ensures F(w, AddFinal(w, a, s, k), s) == w.add(F(w, a, s), k)
    ensures forall t | t != s :: F(w, AddFinal(w, a, s, k), t) == F(w, a, t)
  {
    Units(w, k);
  }

  // ---------------------------------------------------------------------
  // What the elimination of a state promises
  // ---------------------------------------------------------------------

  // The weight of the spontaneous transition from p to s.
  function Jump<K>(w: Semiring<K>, a: Automaton<K>, p: State, s: State): K {
    W(w, a, Arrow(p, None, s))
  }

  // The weight of e once the spontaneous transitions to s are removed.
  function NewWeight<K>(w: Semiring<K>, a: Automaton<K>, s: State, star: K, e: Arrow): K {
    if e.lbl.None? && e.dst == s then w.zero
    else if e.src == s then w.mul(star, W(w, a, e))
    else w.add(W(w, a, e), w.mul(Jump(w, a, e.src, s), w.mul(star, W(w, a, Arrow(s, e.lbl, e.dst)))))
  }

  function NewFinal<K>(w: Semiring<K>, a: Automaton<K>, s: State, star: K, p: State): K {
    if p == s then w.mul(star, F(w, a, s))
    else w.add(F(w, a, p), w.mul(Jump(w, a, p, s), w.mul(star, F(w, a, s))))
  }

  ghost predicate Removed<K>(w: Semiring<K>, a: Automaton<K>, s: State, star: K, b: Automaton<K>) {
    && b.states == a.states && b.initial == a.initial
    && (forall e :: W(w, b, e) == NewWeight(w, a, s, star, e))
    && (forall p :: F(w, b, p) == NewFinal(w, a, s, star, p))
  }

  // Some spontaneous transition leads to s.
  ghost predicate SpontaneousIn<K>(a: Automaton<K>, s: State) {
    exists e :: e in a.transitions && e.lbl.None? && e.dst == s
  }

  ghost predicate Proper<K>(a: Automaton<K>) {
    forall e <- a.transitions :: e.lbl.Some?
  }

  // s has no incoming spontaneous transition any more, and no other state got
  // its first one.
  lemma NoNewSpontaneous<K(!new)>(w: Semiring<K>, a: Automaton<K>, s: State, star: K, b: Automaton<K>, t: State)
    requires Laws(w) && Valid(w, b) && Removed(w, a, s, star, b) && SpontaneousIn(b, t)
    ensures t != s && SpontaneousIn(a, t)
  {
    var e :| e in b.transitions && e.lbl.None? && e.dst == t;
    var f := Arrow(s, None, t);
    assert W(w, b, e) == NewWeight(w, a, s, star, e) != w.zero;
    if e !in a.transitions && f !in a.transitions {
      NullProduct(w, star);
      NullProduct(w, Jump(w, a, e.src, s));
      Units(w, w.zero);
    }
  }

  // ---------------------------------------------------------------------
  // The elimination of a state
  // ---------------------------------------------------------------------

  // The former spontaneous transitions to a state, but its loop.
  type Closure<K> = seq<(State, K)>

  function Former<K>(w: Semiring<K>, closure: Closure<K>, p: State): K {
    if closure == [] then w.zero
    else if closure[|closure| - 1].0 == p then closure[|closure| - 1].1
    else Former(w, closure[..|closure| - 1], p)
  }

  // The transitions to s were removed.
  ghost predicate Cleared<K>(w: Semiring<K>, a: Automaton<K>, s: State, c: Automaton<K>) {
    && c.states == a.states && c.initial == a.initial && c.final == a.final
    && forall e :: W(w, c, e) == if e.lbl.None? && e.dst == s then w.zero else W(w, a, e)
  }

  // The closure lists the spontaneous transitions from other states.
  ghost predicate Lists<K>(w: Semiring<K>, a: Automaton<K>, s: State, closure: Closure<K>) {
    && (forall p | p != s :: Former(w, closure, p) == Jump(w, a, p, s))
    && (forall i | 0 <= i < |closure| :: closure[i].0 != s && closure[i].0 in a.states)
    && (forall i, j | 0 <= i < j < |closure| :: closure[i].0 != closure[j].0)
  }

  // The weights once the transitions of done, from s, were blown.
  function Blown<K>(w: Semiring<K>, c: Automaton<K>, closure: Closure<K>, s: State, star: K, done: set<Arrow>,
                    e: Arrow): K {
    var f := Arrow(s, e.lbl, e.dst);
    if f !in done then W(w, c, e)
    else if e.src == s then w.mul(star, W(w, c, f))
    else w.add(W(w, c, e), w.mul(Former(w, closure, e.src), w.mul(star, W(w, c, f))))
  }

  ghost predicate Blowing<K>(w: Semiring<K>, c: Automaton<K>, closure: Closure<K>, s: State, star: K, done: set<Arrow>,
                             b: Automaton<K>) {
    && b.states == c.states && b.initial == c.initial && b.final == c.final
    && forall e :: W(w, b, e) == Blown(w, c, closure, s, star, done, e)
  }

  lemma BlownIsNew<K(!new)>(w: Semiring<K>, a: Automaton<K>, c: Automaton<K>, closure: Closure<K>, s: State, star: K,
                            done: set<Arrow>, e: Arrow)
    requires Laws(w) && Cleared(w, a, s, c) && Lists(w, a, s, closure)
    requires forall f :: f in done <==> f in c.transitions && f.src == s
    ensures Blown(w, c, closure, s, star, done, e) == NewWeight(w, a, s, star, e)
  {
    var f := Arrow(s, e.lbl, e.dst);
    if e.lbl.None? && e.dst == s {
      assert W(w, c, e) == w.zero && W(w, c, f) == w.zero;
      NullProduct(w, star);
      NullProduct(w, Former(w, closure, e.src));
      Units(w, w.zero);
    } else if f !in done {
      assert W(w, c, f) == w.zero == W(w, a, f);
      NullProduct(w, star);
      NullProduct(w, Jump(w, a, e.src, s));
      Units(w, W(w, a, e));
    } else if e.src != s {
      assert Former(w, closure, e.src) == Jump(w, a, e.src, s);
    }
  }

  // The star of the loop, once the transitions of done were seen.
  ghost predicate StarFound<K>(w: Semiring<K>, a: Automaton<K>, s: State, done: set<Arrow>, star: K) {
    if Arrow(s, None, s) in done then w.star(Jump(w, a, s, s)) == Some(star) else star == w.one
  }

  lemma StarFoundMore<K(!new)>(w: Semiring<K>, a: Automaton<K>, s: State, done: set<Arrow>, star: K, t: Arrow, star': K)
    requires StarFound(w, a, s, done, star) && t in a.transitions && t == Arrow(t.src, None, s)
    requires if t.src == s then w.star(a.transitions[t]) == Some(star') else star' == star
    ensures StarFound(w, a, s, done + {t}, star')
  {
  }

  // Remove the spontaneous transitions to s.
  method ClearSpontaneous<K(!new, ==)>(w: Semiring<K>, a: Automaton<K>, s: State)
    returns (ok: bool, c: Automaton<K>, star: K, closure: Closure<K>)
    requires Laws(w) && Valid(w, a)
    ensures !ok ==> Arrow(s, None, s) in a.transitions && w.star(Jump(w, a, s, s)).None?
    ensures ok ==> StarFound(w, a, s, a.transitions.Keys, star)
    ensures ok ==> Valid(w, c) && Cleared(w, a, s, c) && Lists(w, a, s, closure)
  {
    c, star, closure := a, w.one, [];
    var all := set e <- a.transitions | e.lbl.None? && e.dst == s;
    var todo := all;
    while todo != {}
      invariant todo <= all && c == a.(transitions := a.transitions - (all - todo))
      invariant StarFound(w, a, s, all - todo, star) && Listing(w, a, s, all - todo, closure)
      decreases todo
    {
      var t :| t in todo;
      var weight := a.transitions[t];
      OneMore(all, todo, t);
      if t.src == s {
        if w.star(weight).None? {
          return false, c, star, closure;
        }
        StarFoundMore(w, a, s, all - todo, star, t, w.star(weight).value);
        ListingLoop(w, a, s, all - todo, closure, t);
        star := w.star(weight).value;
      } else {
        StarFoundMore(w, a, s, all - todo, star, t, star);
        ListingMore(w, a, s, all - todo, closure, t);
        closure := closure + [(t.src, weight)];
      }
      RemoveOne(a.transitions, all - todo, t);
      c := c.(transitions := c.transitions - {t});
      todo := todo - {t};
    }
    assert all - {} == all;
    ok := true;
  }

  lemma RemoveOne<K>(m: map<Arrow, K>, done: set<Arrow>, t: Arrow)
    ensures m - done - {t} == m - (done + {t})
  {
  }

  lemma ListingLoop<K(!new)>(w: Semiring<K>, a: Automaton<K>, s: State, done: set<Arrow>, closure: Closure<K>, t: Arrow)
    requires Listing(w, a, s, done, closure) && t == Arrow(s, None, s)
    ensures Listing(w, a, s, done + {t}, closure)
  {
  }

  // The closure lists the transitions of done.
  ghost predicate Listing<K>(w: Semiring<K>, a: Automaton<K>, s: State, done: set<Arrow>, closure: Closure<K>) {
    && (forall p | p != s :: Former(w, closure, p) == if Arrow(p, None, s) in done then Jump(w, a, p, s) else w.zero)
    && (forall i | 0 <= i < |closure| ::
          closure[i].0 != s && closure[i].0 in a.states && Arrow(closure[i].0, None, s) in done)
    && (forall i, j | 0 <= i < j < |closure| :: closure[i].0 != closure[j].0)
  }

  lemma ListingMore<K(!new)>(w: Semiring<K>, a: Automaton<K>, s: State, done: set<Arrow>, closure: Closure<K>, t: Arrow)
    requires Valid(w, a) && Listing(w, a, s, done, closure)
    requires t in a.transitions && t !in done && t == Arrow(t.src, None, s) && t.src != s
    ensures Listing(w, a, s, done + {t}, closure + [(t.src, a.transitions[t])])
  {
    var closure' := closure + [(t.src, a.transitions[t])];
    assert closure'[..|closure|] == closure;
  }

  // The transition t was blown, and followed from the states of the closure.
  ghost predicate BlowingOne<K>(w: Semiring<K>, before: Automaton<K>, closure: Closure<K>, s: State, t: Arrow, blow: K,
                                b: Automaton<K>) {
    && b.states == before.states && b.initial == before.initial && b.final == before.final
    && forall e :: W(w, b, e)
                   == if e == t then blow
                      else if e.lbl == t.lbl && e.dst == t.dst && e.src != s
                      then w.add(W(w, before, e), w.mul(Former(w, closure, e.src), blow))
                      else W(w, before, e)
  }

  lemma {:induction false} FormerAbsent<K(!new)>(w: Semiring<K>, closure: Closure<K>, p: State)
    requires forall i | 0 <= i < |closure| :: closure[i].0 != p
    ensures Former(w, closure, p) == w.zero
    decreases |closure|
  {
    if closure != [] {
      FormerAbsent(w, closure[..|closure| - 1], p);
    }
  }

  lemma BlowingOneMore<K(!new)>(w: Semiring<K>, before: Automaton<K>, closure: Closure<K>, i: nat, s: State, t: Arrow,
                                blow: K, b: Automaton<K>)
    requires Laws(w) && i < |closure| && closure[i].0 != s && t.src == s
    requires forall k | 0 <= k < i :: closure[k].0 != closure[i].0
    requires BlowingOne(w, before, closure[..i], s, t, blow, b)
    ensures BlowingOne(w, before, closure[..i + 1], s, t, blow,
                       AddTransition(w, b, Arrow(closure[i].0, t.lbl, t.dst), w.mul(closure[i].1, blow)))
  {
    var e := Arrow(closure[i].0, t.lbl, t.dst);
    var k := w.mul(closure[i].1, blow);
    var b' := AddTransition(w, b, e, k);
    AddedWeight(w, b, e, k);
    FormerAbsent(w, closure[..i], closure[i].0);
    Units(w, blow);
    Units(w, W(w, before, e));
    assert closure[..i + 1][..i] == closure[..i];
    assert closure[..i + 1][i] == closure[i];
  }

  lemma SetWeightValid<K(!new)>(w: Semiring<K>, a: Automaton<K>, e: Arrow, k: K)
    requires Valid(w, a) && e.src in a.states && e.dst in a.states
    ensures Valid(w, SetWeight(w, a, e, k)) && SetWeight(w, a, e, k).states == a.states
    ensures Valid(w, AddTransition(w, a, e, k)) && AddTransition(w, a, e, k).states == a.states
  {
  }

  method BlowOne<K(!new, ==)>(w: Semiring<K>, a: Automaton<K>, closure: Closure<K>, s: State, t: Arrow, star: K)
    returns (b: Automaton<K>)
    requires Laws(w) && Valid(w, a) && t in a.transitions && t.src == s
    requires forall i | 0 <= i < |closure| :: closure[i].0 != s && closure[i].0 in a.states
    requires forall i, j | 0 <= i < j < |closure| :: closure[i].0 != closure[j].0
    ensures Valid(w, b) && BlowingOne(w, a, closure, s, t, w.mul(star, W(w, a, t)), b)
  {
    var blow := w.mul(star, a.transitions[t]);
    SetWeightValid(w, a, t, blow);
    BlowingOneStart(w, a, s, t, blow);
    b := SetWeight(w, a, t, blow);
    assert closure[..0] == [];
    var i := 0;
    while i < |closure|
      invariant i <= |closure| && Valid(w, b) && b.states == a.states
      invariant BlowingOne(w, a, closure[..i], s, t, blow, b)
    {
      BlowingOneMore(w, a, closure, i, s, t, blow, b);
      SetWeightValid(w, b, Arrow(closure[i].0, t.lbl, t.dst), w.mul(closure[i].1, blow));
      b := AddTransition(w, b, Arrow(closure[i].0, t.lbl, t.dst), w.mul(closure[i].1, blow));
      i := i + 1;
    }
    assert closure[..i] == closure;
  }

  lemma BlowingOneStart<K(!new)>(w: Semiring<K>, a: Automaton<K>, s: State, t: Arrow, blow: K)
    requires Laws(w) && t.src == s
    ensures BlowingOne(w, a, [], s, t, blow, SetWeight(w, a, t, blow))
  {
    var b := SetWeight(w, a, t, blow);
    forall e
      ensures W(w, b, e) == if e == t then blow
                            else if e.lbl == t.lbl && e.dst == t.dst && e.src != s
                            then w.add(W(w, a, e), w.mul(Former(w, [], e.src), blow)) else W(w, a, e)
    {
      Units(w, blow);
      Units(w, W(w, a, e));
    }
  }

  lemma BlowingMore<K(!new)>(w: Semiring<K>, c: Automaton<K>, closure: Closure<K>, s: State, star: K, done: set<Arrow>,
                             t: Arrow, b: Automaton<K>, b': Automaton<K>)
    requires t !in done && t.src == s && Blowing(w, c, closure, s, star, done, b)
    requires BlowingOne(w, b, closure, s, t, w.mul(star, W(w, b, t)), b')
    ensures Blowing(w, c, closure, s, star, done + {t}, b')
  {
    forall e
      ensures W(w, b', e) == Blown(w, c, closure, s, star, done + {t}, e)
    {
      var f := Arrow(s, e.lbl, e.dst);
      assert W(w, b, e) == Blown(w, c, closure, s, star, done, e);
      assert W(w, b, t) == Blown(w, c, closure, s, star, done, t);
      assert f == t <==> e.lbl == t.lbl && e.dst == t.dst;
    }
  }

  // Blow the transitions of s, and follow them from the states of the closure.
  method BlowTransitions<K(!new, ==)>(w: Semiring<K>, c: Automaton<K>, closure: Closure<K>, s: State, star: K,
                                      ghost a: Automaton<K>)
    returns (b: Automaton<K>, ghost done: set<Arrow>)
    requires Laws(w) && Valid(w, c) && Lists(w, a, s, closure) && a.states == c.states
    ensures Valid(w, b) && Blowing(w, c, closure, s, star, done, b)
    ensures forall f :: f in done <==> f in c.transitions && f.src == s
  {
    b := c;
    var all := set e <- c.transitions | e.src == s;
    var todo := all;
    assert Blowing(w, c, closure, s, star, all - todo, b);
    while todo != {}
      invariant todo <= all && Valid(w, b) && Blowing(w, c, closure, s, star, all - todo, b)
      decreases todo
    {
      var t :| t in todo;
      OneMore(all, todo, t);
      StillThere(w, c, closure, s, star, all - todo, b, t);
      var before := b;
      b := BlowOne(w, b, closure, s, t, star);
      BlowingMore(w, c, closure, s, star, all - todo, t, before, b);
      todo := todo - {t};
    }
    done := all;
    assert all - {} == all;
  }

  lemma StillThere<K(!new)>(w: Semiring<K>, c: Automaton<K>, closure: Closure<K>, s: State, star: K, done: set<Arrow>,
                            b: Automaton<K>, t: Arrow)
    requires Valid(w, c) && Blowing(w, c, closure, s, star, done, b) && t in c.transitions && t.src == s && t !in done
    ensures t in b.transitions && W(w, b, t) == W(w, c, t)
  {
    assert t == Arrow(s, t.lbl, t.dst);
    assert W(w, b, t) == Blown(w, c, closure, s, star, done, t) == W(w, c, t) != w.zero;
  }

  // The final weights once that of s was blown, and followed from some states
  // of the closure.
  ghost predicate FinalBlowing<K>(w: Semiring<K>, b: Automaton<K>, closure: Closure<K>, s: State, blow: K,
                                  r: Automaton<K>) {
    && r.states == b.states && r.initial == b.initial && r.transitions == b.transitions
    && forall p :: F(w, r, p) == if p == s then blow else w.add(F(w, b, p), w.mul(Former(w, closure, p), blow))
  }

  lemma FinalBlowingStart<K(!new)>(w: Semiring<K>, b: Automaton<K>, s: State, blow: K)
    requires Laws(w)
    ensures FinalBlowing(w, b, [], s, blow, SetFinal(w, b, s, blow))
  {
    forall p
      ensures F(w, SetFinal(w, b, s, blow), p)
              == if p == s then blow else w.add(F(w, b, p), w.mul(Former(w, [], p), blow))
    {
      Units(w, blow);
      Units(w, F(w, b, p));
    }
  }

  lemma FinalBlowingMore<K(!new)>(w: Semiring<K>, b: Automaton<K>, closure: Closure<K>, i: nat, s: State, blow: K,
                                  r: Automaton<K>)
    requires Laws(w) && i < |closure| && closure[i].0 != s
    requires forall k | 0 <= k < i :: closure[k].0 != closure[i].0
    requires FinalBlowing(w, b, closure[..i], s, blow, r)
    ensures FinalBlowing(w, b, closure[..i + 1], s, blow, AddFinal(w, r, closure[i].0, w.mul(closure[i].1, blow)))
  {
    var p, k := closure[i].0, w.mul(closure[i].1, blow);
    AddedFinal(w, r, p, k);
    FormerAbsent(w, closure[..i], p);
    Units(w, blow);
    Units(w, F(w, b, p));
    assert closure[..i + 1][..i] == closure[..i];
    assert closure[..i + 1][i] == closure[i];
  }

  method BlowFinal<K(!new, ==)>(w: Semiring<K>, b: Automaton<K>, closure: Closure<K>, s: State, star: K,
                                ghost a: Automaton<K>)
    returns (r: Automaton<K>)
    requires Laws(w) && Valid(w, b) && s in b.states && Lists(w, a, s, closure) && a.states == b.states
    ensures Valid(w, r) && r.states == b.states && r.initial == b.initial && r.transitions == b.transitions
    ensures forall p :: F(w, r, p) == if p == s then w.mul(star, F(w, b, s))
                                      else w.add(F(w, b, p), w.mul(Former(w, closure, p), w.mul(star, F(w, b, s))))
  {
    r := b;
    if s in b.final {
      var blow := w.mul(star, b.final[s]);
      r := SetFinal(w, r, s, blow);
      FinalBlowingStart(w, b, s, blow);
      assert closure[..0] == [];
      var i := 0;
      while i < |closure|
        invariant i <= |closure| && Valid(w, r) && FinalBlowing(w, b, closure[..i], s, blow, r)
      {
        FinalBlowingMore(w, b, closure, i, s, blow, r);
        r := AddFinal(w, r, closure[i].0, w.mul(closure[i].1, blow));
        i := i + 1;
      }
      assert closure[..i] == closure;
    } else {
      NothingFinal(w, b, closure, s, star);
    }
  }

  lemma NothingFinal<K(!new)>(w: Semiring<K>, b: Automaton<K>, closure: Closure<K>, s: State, star: K)
    requires Laws(w) && F(w, b, s) == w.zero
    ensures w.mul(star, F(w, b, s)) == w.zero
    ensures forall p :: w.add(F(w, b, p), w.mul(Former(w, closure, p), w.mul(star, F(w, b, s)))) == F(w, b, p)
  {
    NullProduct(w, star);
    forall p
      ensures w.add(F(w, b, p), w.mul(Former(w, closure, p), w.mul(star, F(w, b, s)))) == F(w, b, p)
    {
      NullProduct(w, Former(w, closure, p));
      Units(w, F(w, b, p));
    }
  }

  // The star of the loop of s, 1 if there is none.
  ghost predicate StarOf<K>(w: Semiring<K>, a: Automaton<K>, s: State, star: K) {
    StarFound(w, a, s, a.transitions.Keys, star)
  }

  lemma RemovedBy<K(!new)>(w: Semiring<K>, a: Automaton<K>, c: Automaton<K>, closure: Closure<K>, s: State, star: K,
                           done: set<Arrow>, b: Automaton<K>, r: Automaton<K>)
    requires Laws(w) && Cleared(w, a, s, c) && Lists(w, a, s, closure) && Blowing(w, c, closure, s, star, done, b)
    requires forall f :: f in done <==> f in c.transitions && f.src == s
    requires r.states == b.states && r.initial == b.initial && r.transitions == b.transitions
    requires forall p :: F(w, r, p) == if p == s then w.mul(star, F(w, b, s))
                                       else w.add(F(w, b, p), w.mul(Former(w, closure, p), w.mul(star, F(w, b, s))))
    ensures Removed(w, a, s, star, r)
  {
    forall e
      ensures W(w, r, e) == NewWeight(w, a, s, star, e)
    {
      BlownIsNew(w, a, c, closure, s, star, done, e);
      assert W(w, b, e) == Blown(w, c, closure, s, star, done, e);
    }
    forall p
      ensures F(w, r, p) == NewFinal(w, a, s, star, p)
    {
      assert F(w, b, p) == F(w, a, p) && F(w, b, s) == F(w, a, s);
    }
  }

  // Eliminate the spontaneous transitions to s; refused if the weight of its
  // loop has no star.
  method RemoveAt<K(!new, ==)>(w: Semiring<K>, a: Automaton<K>, s: State)
    returns (r: Option<Automaton<K>>, ghost star: K)
    requires Laws(w) && Valid(w, a) && s in a.states
    ensures r.None? ==> Arrow(s, None, s) in a.transitions && w.star(Jump(w, a, s, s)).None?
    ensures r.Some? ==> Valid(w, r.value) && StarOf(w, a, s, star) && Removed(w, a, s, star, r.value)
  {
    var ok, c, loop, closure := ClearSpontaneous(w, a, s);
    star := loop;
    if !ok {
      return None, star;
    }
    var b;
    ghost var done;
    b, done := BlowTransitions(w, c, closure, s, loop, a);
    var d := BlowFinal(w, b, closure, s, loop, a);
    RemovedBy(w, a, c, closure, s, loop, done, b, d);
    r := Some(d);
  }

  // ---------------------------------------------------------------------
  // Pruning
  // ---------------------------------------------------------------------

  function Without(states: seq<State>, s: State): (r: seq<State>)
    ensures forall t :: t in r <==> t in states && t != s
  {
    if states == [] then []
    else
      var rest := Without(states[1..], s);
      assert states == [states[0]] + states[1..];
      if states[0] == s then rest else [states[0]] + rest
  }

  lemma {:induction false} WithoutDistinct(states: seq<State>, s: State)
    requires Distinct(states)
    ensures Distinct(Without(states, s))
    decreases |states|
  {
    if states != [] {
      var rest := Without(states[1..], s);
      assert Distinct(states[1..]);
      WithoutDistinct(states[1..], s);
      forall t | t in rest
        ensures t != states[0]
      {
        var i :| 0 <= i < |states[1..]| && states[1..][i] == t;
        assert states[i + 1] == t;
      }
      if states[0] != s {
        forall i, j | 0 <= i < j < |[states[0]] + rest|
          ensures ([states[0]] + rest)[i] != ([states[0]] + rest)[j]
        {
          assert ([states[0]] + rest)[j] == rest[j - 1] && rest[j - 1] in rest;
        }
      }
    }
  }

  // Nothing leads to s, be it from pre.
  ghost predicate NoneIn<K>(a: Automaton<K>, s: State) {
    s !in a.initial && forall e <- a.transitions :: e.dst != s
  }

  function DeleteState<K>(a: Automaton<K>, s: State): Automaton<K> {
    Automaton(Without(a.states, s), a.initial, a.final - {s}, map e <- a.transitions | e.src != s :: a.transitions[e])
  }

  // b is a once the spontaneous transitions to s were removed, and maybe s.
  ghost predicate Eliminates<K>(w: Semiring<K>, a: Automaton<K>, s: State, star: K, r: Automaton<K>, b: Automaton<K>) {
    && s in a.states && Valid(w, a) && Valid(w, r) && Valid(w, b)
    && StarOf(w, a, s, star) && Removed(w, a, s, star, r)
    && (b == r || (NoneIn(r, s) && b == DeleteState(r, s)))
  }

  // b comes from a by the elimination of the states of ss, in this order.
  ghost predicate Reduces<K(!new)>(w: Semiring<K>, a: Automaton<K>, ss: seq<State>, b: Automaton<K>) {
    if ss == [] then a == b
    else exists c, star, r :: Reduces(w, a, Front(ss), c) && Eliminates(w, c, Last(ss), star, r, b)
  }

  // Some letter leads to s.
  ghost predicate LetterIn<K>(a: Automaton<K>, s: State) {
    exists e :: e in a.transitions && e.lbl.Some? && e.dst == s
  }

  // With prune, s is deleted exactly if nothing leads to it any more.  Said of
  // what equals b, so as to be looked into only where needed.
  ghost predicate EliminatesBy<K>(w: Semiring<K>, prune: bool, a: Automaton<K>, s: State, star: K, r: Automaton<K>,
                                  b: Automaton<K>) {
    forall c | c == b ::
      Eliminates(w, a, s, star, r, c) && c == if prune && NoneIn(r, s) then DeleteState(r, s) else r
  }

  ghost predicate ReducesBy<K(!new)>(w: Semiring<K>, prune: bool, a: Automaton<K>, ss: seq<State>, b: Automaton<K>) {
    if ss == [] then a == b
    else exists c, star, r :: ReducesBy(w, prune, a, Front(ss), c) && EliminatesBy(w, prune, c, Last(ss), star, r, b)
  }

  // Exactly the states with incoming spontaneous transitions are eliminated,
  // each one once.
  ghost predicate Schedules<K>(a: Automaton<K>, ss: seq<State>) {
    Distinct(ss) && forall s :: s in ss <==> SpontaneousIn(a, s)
  }

  ghost predicate MadeProper<K(!new)>(w: Semiring<K>, prune: bool, a: Automaton<K>, b: Automaton<K>) {
    exists ss :: Schedules(a, ss) && ReducesBy(w, prune, a, ss, b)
  }

  lemma ReducesNext<K(!new)>(w: Semiring<K>, prune: bool, a: Automaton<K>, ss: seq<State>, c: Automaton<K>, s: State,
                             b: Automaton<K>)
    requires ReducesBy(w, prune, a, ss, c) && exists star, r :: EliminatesBy(w, prune, c, s, star, r, b)
    ensures ReducesBy(w, prune, a, ss + [s], b)
  {
    var star, r :| EliminatesBy(w, prune, c, s, star, r, b);
    assert Front(ss + [s]) == ss && Last(ss + [s]) == s;
  }

  lemma {:induction false} ReducesByReduces<K(!new)>(w: Semiring<K>, prune: bool, a: Automaton<K>, ss: seq<State>,
                                                     b: Automaton<K>)
    requires ReducesBy(w, prune, a, ss, b)
    ensures Reduces(w, a, ss, b)
    decreases |ss|
  {
    if ss != [] {
      var c, star, r :| ReducesBy(w, prune, a, Front(ss), c) && EliminatesBy(w, prune, c, Last(ss), star, r, b);
      ReducesByReduces(w, prune, a, Front(ss), c);
      assert Eliminates(w, c, Last(ss), star, r, b);
    }
  }

  // No state gets its first incoming letter.
  lemma NoNewLetter<K(!new)>(w: Semiring<K>, a: Automaton<K>, s: State, star: K, b: Automaton<K>, t: State)
    requires Laws(w) && Valid(w, b) && Removed(w, a, s, star, b) && LetterIn(b, t)
    ensures LetterIn(a, t)
  {
    var e :| e in b.transitions && e.lbl.Some? && e.dst == t;
    var f := Arrow(s, e.lbl, t);
    assert W(w, b, e) == NewWeight(w, a, s, star, e) != w.zero;
    if e !in a.transitions && f !in a.transitions {
      NullProduct(w, star);
      NullProduct(w, Jump(w, a, e.src, s));
      Units(w, w.zero);
    }
  }

  lemma EliminatesLetter<K(!new)>(w: Semiring<K>, prune: bool, a: Automaton<K>, s: State, star: K, r: Automaton<K>,
                                  b: Automaton<K>, t: State)
    requires Laws(w) && EliminatesBy(w, prune, a, s, star, r, b)
    ensures LetterIn(b, t) ==> LetterIn(a, t)
    ensures b.initial == a.initial && forall p <- b.states :: p in a.states
    ensures !prune ==> b.states == a.states
    ensures t in a.states && t !in b.states ==> prune && t == s && t !in a.initial
  {
    assert Eliminates(w, a, s, star, r, b);
    if LetterIn(b, t) {
      assert LetterIn(r, t);
      NoNewLetter(w, a, s, star, r, t);
    }
  }

  // Without letters to s, nothing leads to it any more.
  lemma EliminatesPrunes<K(!new)>(w: Semiring<K>, a: Automaton<K>, s: State, star: K, r: Automaton<K>, b: Automaton<K>)
    requires Laws(w) && EliminatesBy(w, true, a, s, star, r, b) && !LetterIn(a, s) && s !in a.initial
    ensures s !in b.states
  {
    assert Eliminates(w, a, s, star, r, b);
    forall e <- r.transitions
      ensures e.dst != s
    {
      if e.dst == s {
        assert W(w, r, e) == NewWeight(w, a, s, star, e) != w.zero;
        assert LetterIn(r, s);
        NoNewLetter(w, a, s, star, r, s);
      }
    }
    assert NoneIn(r, s);
  }

  // What becomes of the states: without prune, they all stay; with it, those
  // that are eliminated may go, unless they are initial.
  lemma {:induction false} ReducesPrunes<K(!new)>(w: Semiring<K>, prune: bool, a: Automaton<K>, ss: seq<State>,
                                                  b: Automaton<K>, t: State)
    requires Laws(w) && ReducesBy(w, prune, a, ss, b)
    ensures LetterIn(b, t) ==> LetterIn(a, t)
    ensures b.initial == a.initial && forall p <- b.states :: p in a.states
    ensures !prune ==> b.states == a.states
    ensures t in a.states && t !in b.states ==> prune && t in ss && t !in a.initial
    decreases |ss|
  {
    if ss != [] {
      var c, star, r :| ReducesBy(w, prune, a, Front(ss), c) && EliminatesBy(w, prune, c, Last(ss), star, r, b);
      ReducesPrunes(w, prune, a, Front(ss), c, t);
      EliminatesLetter(w, prune, c, Last(ss), star, r, b, t);
      assert ss == Front(ss) + [Last(ss)];
    }
  }

  lemma {:induction false} ReducesDeletes<K(!new)>(w: Semiring<K>, a: Automaton<K>, ss: seq<State>, b: Automaton<K>,
                                                   t: State)
    requires Laws(w) && ReducesBy(w, true, a, ss, b) && t in ss && !LetterIn(a, t) && t !in a.initial
    ensures t !in b.states
    decreases |ss|
  {
    var c, star, r :| ReducesBy(w, true, a, Front(ss), c) && EliminatesBy(w, true, c, Last(ss), star, r, b);
    ReducesPrunes(w, true, a, Front(ss), c, t);
    if t == Last(ss) {
      EliminatesPrunes(w, c, t, star, r, b);
    } else {
      assert ss == Front(ss) + [Last(ss)];
      ReducesDeletes(w, a, Front(ss), c, t);
      EliminatesLetter(w, true, c, Last(ss), star, r, b, t);
    }
  }

  // The states that are left: without prune, all of them; with it, not those
  // that are not initial and have only spontaneous incoming transitions, but
  // those that are initial or have none.
  ghost predicate Pruned<K>(prune: bool, a: Automaton<K>, b: Automaton<K>) {
    && b.initial == a.initial && (forall t <- b.states :: t in a.states)
    && (!prune ==> b.states == a.states)
    && (forall t <- a.states | t in a.initial || !SpontaneousIn(a, t) :: t in b.states)
    && (prune ==> forall t <- b.states :: t in a.initial || LetterIn(a, t) || !SpontaneousIn(a, t))
  }

  lemma MadeProperPruned<K(!new)>(w: Semiring<K>, prune: bool, a: Automaton<K>, b: Automaton<K>)
    requires Laws(w) && MadeProper(w, prune, a, b)
    ensures Pruned(prune, a, b)
  {
    var ss :| Schedules(a, ss) && ReducesBy(w, prune, a, ss, b);
    ReducesPrunes(w, prune, a, ss, b, 0);
    forall t <- a.states
      ensures t in a.initial || !SpontaneousIn(a, t) ==> t in b.states
      ensures prune && t in b.states ==> t in a.initial || LetterIn(a, t) || !SpontaneousIn(a, t)
    {
      ReducesPrunes(w, prune, a, ss, b, t);
      if prune && SpontaneousIn(a, t) && !LetterIn(a, t) && t !in a.initial {
        ReducesDeletes(w, a, ss, b, t);
      }
    }
  }

  // The states of ss were eliminated; those of todo have to be.
  ghost predicate Drains<K(!new)>(w: Semiring<K>, prune: bool, a: Automaton<K>, ss: seq<State>, todo: set<State>,
                                  b: Automaton<K>) {
    && Valid(w, b) && ReducesBy(w, prune, a, ss, b)
    && (forall s :: SpontaneousIn(b, s) ==> s in todo)
    && Distinct(ss) && (forall s :: s in ss || s in todo <==> SpontaneousIn(a, s))
    && (forall s <- ss :: s !in todo) && (forall s <- todo :: s in b.states)
  }

  // Said of what equals b, so as to be looked into only where needed.
  ghost predicate Draining<K(!new)>(w: Semiring<K>, prune: bool, a: Automaton<K>, ss: seq<State>, todo: set<State>,
                                    b: Automaton<K>) {
    forall c | c == b :: Drains(w, prune, a, ss, todo, c)
  }

  lemma DrainingStarts<K(!new)>(w: Semiring<K>, prune: bool, a: Automaton<K>, todo: set<State>)
    requires Valid(w, a) && forall s :: s in todo <==> SpontaneousIn(a, s)
    ensures Draining(w, prune, a, [], todo, a)
  {
  }

  lemma DrainingAt<K(!new)>(w: Semiring<K>, prune: bool, a: Automaton<K>, ss: seq<State>, todo: set<State>,
                            b: Automaton<K>, s: State)
    requires Draining(w, prune, a, ss, todo, b) && s in todo
    ensures Valid(w, b) && s in b.states && ReducesBy(w, prune, a, ss, b)
  {
    assert Drains(w, prune, a, ss, todo, b);
  }

  lemma EliminatesValid<K(!new)>(w: Semiring<K>, prune: bool, c: Automaton<K>, s: State, b: Automaton<K>)
    requires exists star, r :: EliminatesBy(w, prune, c, s, star, r, b)
    ensures Valid(w, b)
  {
    var star, r :| EliminatesBy(w, prune, c, s, star, r, b);
    assert Eliminates(w, c, s, star, r, b);
  }

  lemma DrainingMore<K(!new)>(w: Semiring<K>, prune: bool, a: Automaton<K>, ss: seq<State>, todo: set<State>,
                              c: Automaton<K>, s: State, b: Automaton<K>)
    requires Draining(w, prune, a, ss, todo, c) && s in todo
    requires exists star, r :: EliminatesBy(w, prune, c, s, star, r, b)
    requires forall t | t in c.states && t != s :: t in b.states
    requires forall t :: SpontaneousIn(b, t) ==> t != s && SpontaneousIn(c, t)
    ensures Draining(w, prune, a, ss + [s], todo - {s}, b)
  {
    assert Drains(w, prune, a, ss, todo, c);
    ReducesNext(w, prune, a, ss, c, s, b);
    EliminatesValid(w, prune, c, s, b);
    assert Drains(w, prune, a, ss + [s], todo - {s}, b);
  }

  lemma DrainingEnds<K(!new)>(w: Semiring<K>, prune: bool, a: Automaton<K>, ss: seq<State>, b: Automaton<K>)
    requires Draining(w, prune, a, ss, {}, b)
    ensures ReducesBy(w, prune, a, ss, b) && Valid(w, b) && Schedules(a, ss) && Proper(b)
  {
    assert Drains(w, prune, a, ss, {}, b);
    NoneIsProper(b);
  }

  lemma NoneIsProper<K(!new)>(a: Automaton<K>)
    requires forall s :: !SpontaneousIn(a, s)
    ensures Proper(a)
  {
    forall e <- a.transitions
      ensures e.lbl.Some?
    {
      assert e.lbl.None? ==> SpontaneousIn(a, e.dst);
    }
  }

  // ---------------------------------------------------------------------
  // The loop
  // ---------------------------------------------------------------------

  // The order in which the states are eliminated does not matter: the heap is
  // a set.
  class EpsilonRemover<K(==, !new)> {
    const w: Semiring<K>
    const prune: bool
    var aut: Automaton<K>
    var todo: set<State>

    constructor (w: Semiring<K>, aut: Automaton<K>, prune: bool)
      ensures this.w == w && this.prune == prune && this.aut == aut
    {
      this.w, this.prune, this.aut, todo := w, prune, aut, {};
    }

    // Some spontaneous transition leads to s.
    method BuildHeap()
      requires Valid(w, aut)
      modifies this`todo
      ensures forall s :: s in todo <==> SpontaneousIn(aut, s)
    {
      todo := set e <- aut.transitions | e.lbl.None? :: e.dst;
    }

    // Delete s if nothing leads to it any more.
    method Prune(r: Automaton<K>, s: State) returns (b: Automaton<K>)
      ensures b == if prune && NoneIn(r, s) then DeleteState(r, s) else r
    {
      b := r;
      var into := set e <- r.transitions | e.dst == s;
      if into == {} {
        assert forall e <- r.transitions | e.dst == s :: e in into;
      } else {
        var e :| e in into;
        assert e in r.transitions && e.dst == s;
      }
      if prune && into == {} && s !in r.initial {
        b := DeleteState(r, s);
      }
    }

    // Eliminate the spontaneous transitions to s.
    method InSituRemover(s: State) returns (ok: bool)
      requires Laws(w) && Valid(w, aut) && s in aut.states
      modifies this`aut
      ensures !ok ==> Arrow(s, None, s) in aut.transitions && w.star(Jump(w, aut, s, s)).None? && aut == old(aut)
      ensures ok ==> forall t | t in old(aut).states && t != s :: t in aut.states
      ensures ok ==> exists star, r :: EliminatesBy(w, prune, old(aut), s, star, r, aut)
      ensures ok ==> forall t :: SpontaneousIn(aut, t) ==> t != s && SpontaneousIn(old(aut), t)
    {
      ghost var before := aut;
      ghost var star;
      var r;
      r, star := RemoveAt(w, aut, s);
      if r.None? {
        return false;
      }
      aut := Prune(r.value, s);
      RemovedEliminates(before, s, star, r.value, aut);
      ok := true;
    }

    lemma RemovedEliminates(a: Automaton<K>, s: State, star: K, r: Automaton<K>, b: Automaton<K>)
      requires Laws(w) && s in a.states && Valid(w, a) && Valid(w, r) && StarOf(w, a, s, star)
                 && Removed(w, a, s, star, r)
      requires b == if prune && NoneIn(r, s) then DeleteState(r, s) else r
      ensures EliminatesBy(w, prune, a, s, star, r, b)
      ensures forall t | t in a.states && t != s :: t in b.states
      ensures forall t :: SpontaneousIn(b, t) ==> t != s && SpontaneousIn(a, t)
    {
      if NoneIn(r, s) {
        DeletedValid(r, s);
      }
      assert Eliminates(w, a, s, star, r, b);
      forall t | SpontaneousIn(b, t)
        ensures t != s && SpontaneousIn(a, t)
      {
        NoNewSpontaneous(w, a, s, star, r, t);
      }
    }

    lemma DeletedValid(a: Automaton<K>, s: State)
      requires Valid(w, a) && NoneIn(a, s)
      ensures Valid(w, DeleteState(a, s))
      ensures forall t :: SpontaneousIn(DeleteState(a, s), t) ==> SpontaneousIn(a, t)
    {
      WithoutDistinct(a.states, s);
    }

    // Eliminate all the spontaneous transitions: the automaton becomes proper,
    // unless the weight of a loop has no star.
    method Run() returns (ok: bool, ghost ss: seq<State>)
      requires Laws(w) && Valid(w, aut)
      modifies this
      ensures ReducesBy(w, prune, old(aut), ss, aut) && Valid(w, aut)
      ensures ok ==> Schedules(old(aut), ss) && Proper(aut)
      ensures !ok ==> exists s :: Arrow(s, None, s) in aut.transitions && w.star(Jump(w, aut, s, s)).None?
    {
      ss := [];
      BuildHeap();
      ghost var a := aut;
      DrainingStarts(w, prune, a, todo);
      while todo != {}
        invariant Draining(w, prune, a, ss, todo, aut)
        decreases todo
      {
        ghost var before := aut;
        var s :| s in todo;
        DrainingAt(w, prune, a, ss, todo, aut, s);
        ok := InSituRemover(s);
        if !ok {
          return;
        }
        DrainingMore(w, prune, a, ss, todo, before, s, aut);
        todo := todo - {s};
        ss := ss + [s];
      }
      DrainingEnds(w, prune, a, ss, aut);
      ok := true;
    }
  }
}
