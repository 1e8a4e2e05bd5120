/** Products compared. */
module Arithmetic {

  lemma {:induction false} Scaled(a: int, b: int, m: int)
    requires m >= 0
    ensures a <= b ==> m * a <= m * b
  {
    if a <= b { assert m * (b - a) >= 0; }
  }
}
