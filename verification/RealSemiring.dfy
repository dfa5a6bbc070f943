// The semiring of the reals (vcsn/weightset/r.hh).
module RealSemiring {
  import opened Wrappers
  import opened AllDistances

  function RealStar(x: real): Option<real> {
    if -1.0 < x < 1.0 then Some(1.0 / (1.0 - x)) else None
  }

  function Times(x: real, y: real): real {
    x * y
  }

  // The semiring of the reals.
  function Reals(): Semiring<real> {
    Semiring(0.0, 1.0, (x, y) => x + y, (x, y) => Times(x, y), x => RealStar(x))
  }

  // ---------------------------------------------------------------------
  // The laws of the reals
  // ---------------------------------------------------------------------

  lemma Associate(x: real, y: real, z: real)
    ensures Times(Times(x, y), z) == Times(x, Times(y, z))
  {
  }

  lemma Distribute(x: real, y: real, z: real)
    ensures Times(x, y + z) == Times(x, y) + Times(x, z)
    ensures Times(x + y, z) == Times(x, z) + Times(y, z)
  {
  }

  lemma Commute(x: real, y: real)
    ensures Times(x, y) == Times(y, x)
  {
  }

  lemma StarInverse(x: real)
    requires RealStar(x).Some?
    ensures Times(RealStar(x).value, 1.0 - x) == 1.0
  {
  }

  lemma StarEquation(x: real, s: real)
    requires Times(s, 1.0 - x) == 1.0
    ensures s == 1.0 + Times(x, s) && s == 1.0 + Times(s, x)
  {
  }

  lemma RealAssociates()
    ensures Associates(Reals()) && Commutes(Reals())
  {
  }

  lemma RealProducts()
    ensures Products(Reals())
  {
    var w := Reals();
    forall x, y, z
      ensures w.mul(w.mul(x, y), z) == w.mul(x, w.mul(y, z))
    {
      Associate(x, y, z);
    }
  }

  lemma RealConstants()
    ensures Constants(Reals())
  {
  }

  lemma RealDistributes()
    ensures Distributes(Reals())
  {
    var w := Reals();
    forall x, y, z
      ensures w.mul(x, w.add(y, z)) == w.add(w.mul(x, y), w.mul(x, z))
      ensures w.mul(w.add(x, y), z) == w.add(w.mul(x, z), w.mul(y, z))
    {
      Distribute(x, y, z);
    }
  }

  lemma RealStars()
    ensures Stars(Reals())
  {
    var w := Reals();
    forall x | w.star(x).Some?
      ensures w.star(x).value == w.add(w.one, w.mul(x, w.star(x).value))
      ensures w.star(x).value == w.add(w.one, w.mul(w.star(x).value, x))
    {
      StarInverse(x);
      StarEquation(x, RealStar(x).value);
    }
  }

  lemma RealLaws()
    ensures Laws(Reals())
  {
    RealAssociates();
    RealProducts();
    RealConstants();
    RealDistributes();
    RealStars();
    assert Axioms(Reals());
  }
}
