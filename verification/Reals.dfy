/** Reals stand for doubles, rounding apart. */
module Reals {

  function Abs(x: real): real { if x < 0.0 then -x else x }

  /** A product under a name, so that a proof can do without its arithmetic. */
  function Times(x: real, y: real): real { x * y }

  lemma Scale(x: real, y: real, z: real)
    requires x <= y && z >= 0.0
    ensures x * z <= y * z
  {
  }
}
