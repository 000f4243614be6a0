/** Products and quotients of real numbers. */
module Reals {
  lemma AssocReals(x: real, y: real, z: real)
    ensures (x * y) * z == x * (y * z)
  {
  }

  lemma PositiveReals(x: real, y: real)
    requires x > 0.0 && y > 0.0
    ensures x * y > 0.0
  {
  }

  lemma QuotientTimes(x: real, y: real)
    requires x > 0.0 && y > 0.0
    ensures x / y > 0.0 && x == x / y * y
  {
  }
}
