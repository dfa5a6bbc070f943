// The Boolean weights (vcsn/weightset/b.hh).
module BooleanSemiring {
  import opened Wrappers
  import opened AllDistances

  // The Boolean semiring.
  function Booleans(): Semiring<bool> {
    Semiring(false, true, (x, y) => x || y, (x, y) => x && y, x => Some(true))
  }

  lemma BooleanLaws()
    ensures Laws(Booleans())
  {
    var w := Booleans();
    assert Associates(w);
    assert Commutes(w);
    assert Products(w);
    assert Constants(w);
    assert Distributes(w);
    assert Stars(w);
    assert Axioms(w);
  }
}
