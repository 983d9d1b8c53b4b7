/** Products of reals behind a name, so that the solver multiplies out only where it is asked to, and sums. */
module Reals {

  function Product(x: real, y: real): real {
    x * y
  }

  function Total(s: seq<real>): real {
    if s == [] then 0.0 else Total(s[..|s| - 1]) + s[|s| - 1]
  }

  lemma Scale(x: real, y: real, k: real)
    requires x <= y && k >= 0.0
    ensures x * k <= y * k
  {
  }
}
