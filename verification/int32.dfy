/**
 Java's 32-bit `int`. The controller stores tile coordinates in `int` fields and
 moves them by one with `+=`/`-=`, which wraps around at the ends of the range.
 */
module Int32 {

  const Modulus: int := 0x1_0000_0000
  const Min: int := -0x8000_0000
  const Max: int := 0x7fff_ffff

  type int32 = x: int | Min <= x <= Max

  /** Two's-complement reduction of a mathematical integer into the `int` range. */
  function Wrap(x: int): (r: int32)
    ensures (r - x) % Modulus == 0
    ensures Min <= x <= Max ==> r == x
  {
    (x - Min) % Modulus + Min
  }

  /** `b` is one step away from `a` on the 32-bit circle. */
  predicate UnitApart(a: int32, b: int32)
  {
    Wrap(b - a) == 1 || Wrap(b - a) == -1
  }

  /** Away from the ends of the range, one step on the circle is one step on the line. */
  lemma UnitApartInside(a: int32, b: int32)
    requires Min < a < Max
    ensures UnitApart(a, b) <==> (b - a == 1 || b - a == -1)
  {
    var d := b - a;
    assert -Modulus < d < Modulus;
    if d >= 0 {
      assert Wrap(d) == d || Wrap(d) == d - Modulus;
    } else {
      assert Wrap(d) == d || Wrap(d) == d + Modulus;
    }
  }
}
