/** The few facts about multiplication and division by a positive number used below. */
module Arith {
  // The range of a 32-bit int.
  const INT_MIN := -0x8000_0000
  const INT_MAX := 0x7FFF_FFFF

  lemma MulMono(a: int, b: int, p: int)
    requires a <= b && 0 <= p
    ensures a * p <= b * p
  {
    assert (b - a) * p >= 0;
  }

  /** x / p is the only q with q * p <= x < (q + 1) * p. */
  lemma DivIs(x: int, p: int, q: int)
    requires p >= 1 && q * p <= x < q * p + p
    ensures x / p == q && x % p == x - q * p
  {
    var r := x / p;
    assert r * p <= x < r * p + p;
    if r < q { MulMono(r + 1, q, p); }
    if q < r { MulMono(q + 1, r, p); }
  }

  lemma DivBounds(x: int, p: int)
    requires p >= 1
    ensures x / p * p <= x < x / p * p + p
  {
  }

  lemma DivMono(x: int, y: int, p: int)
    requires p >= 1 && x <= y
    ensures x / p <= y / p
  {
    DivBounds(x, p);
    DivBounds(y, p);
    if y / p < x / p { MulMono(y / p + 1, x / p, p); }
  }

  lemma DivAtLeast(x: int, p: int, q: int)
    requires p >= 1 && q * p <= x
    ensures q <= x / p
  {
    DivMono(q * p, x, p);
    DivIs(q * p, p, q);
  }
}
