/** The two facts of real arithmetic the rate bounds need. */
module Reals {

  lemma DivideThenScale(a: real, m: real)
    requires m > 0.0
    ensures a / m * m == a
  {
  }

  lemma ScaleKeepsOrder(a: real, b: real, m: real)
    requires m > 0.0
    ensures a <= b <==> a * m <= b * m
  {
  }
}
