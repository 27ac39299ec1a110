/** Division and remainder by a positive divisor, in the form the other modules need. */
module Arith {

  lemma {:induction false} Strictly(a: int, b: int, w: int)
    requires a < b && w > 0
    ensures w * a + w <= w * b
  {
    assert w * (b - a - 1) >= 0;
  }

  /** Quotient and remainder are unique. */
  lemma {:induction false} DivMod(x: int, w: int, q: int, r: int)
    requires w > 0 && 0 <= r < w && x == w * q + r
    ensures x / w == q && x % w == r
  {
    var y := x / w;
    assert w * y <= x < w * y + w;
    if y < q {
      Strictly(y, q, w);
    } else if q < y {
      Strictly(q, y, w);
    }
  }

  lemma {:induction false} DivShift(k: int, d: int, w: int)
    requires w > 0
    ensures (w * k + d) / w == k + d / w
  {
    assert w * k + d == w * (k + d / w) + d % w;
    DivMod(w * k + d, w, k + d / w, d % w);
  }
}
