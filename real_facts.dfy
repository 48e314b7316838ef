/** Facts about ordered real arithmetic that the solver does not find alone. */
module RealFacts {

  /** Multiplying both sides of an inequality by a positive factor keeps it. */
  lemma ScaleByPositive(x: real, y: real, c: real)
    requires c > 0.0
    ensures x < y ==> x * c < y * c
    ensures x <= y ==> x * c <= y * c
    ensures x * c < y * c ==> x < y
  {
  }
}
