/** Real arithmetic that several parts use. */
module Reals {

  function Abs(x: real): real {
    if x < 0.0 then -x else x
  }

  lemma Product(x: real, y: real)
    requires x >= 0.0 && y >= 0.0
    ensures x * y >= 0.0
  {
  }
}
