/** Facts about products that the solver does not find by itself. */
module Arithmetic {
  /** A non-zero multiple is at least as large as its base. */
  lemma Stretch(j: int, base: int)
    requires base > 0
    ensures j >= 1 ==> j * base >= base
    ensures j <= -1 ==> j * base <= -base
  {
    if j >= 1 {
      assert (j - 1) * base >= 0;
    } else if j <= -1 {
      assert (-j - 1) * base >= 0;
    }
  }
}
