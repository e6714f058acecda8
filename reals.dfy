/** Facts about the order of exact reals, which stand for the simulation's
    floating-point hours and salaries. */
module Reals {

  /** Multiplying by a positive factor preserves the order of two reals. */
  lemma ScaleMonotone(a: real, b: real, k: real)
    requires k > 0.0
    ensures a <= b <==> a * k <= b * k
    ensures a < b <==> a * k < b * k
  {
    if a <= b {
      assert (b - a) * k >= 0.0;
    }
    if a < b {
      assert (b - a) * k > 0.0;
    }
  }
}
