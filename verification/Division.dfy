/** Products and quotients by a variable. */
module Division {
  lemma MulLe(a: int, b: int, c: nat)
    requires a <= b
    ensures a * c <= b * c
  {
  }

  lemma MulStep(a: int, b: int, c: nat)
    requires a < b
    ensures a * c + c <= b * c
  {
    assert (a + 1) * c <= b * c;
  }

  /** A quotient and remainder are the only ones of their kind. */
  lemma DivUnique(x: int, d: nat, q: int, r: int)
    requires d > 0 && x == q * d + r && 0 <= r < d
    ensures x / d == q && x % d == r
  {
    var q', r' := x / d, x % d;
    assert x == q' * d + r';
    if q' < q {
      MulStep(q', q, d);
    } else if q < q' {
      MulStep(q, q', d);
    }
  }

  /** An index into rows of `d` is determined by its row and its place in the row. */
  lemma RowsApart(a: int, x: int, b: int, y: int, d: nat)
    requires 0 <= x < d && 0 <= y < d && a * d + x == b * d + y
    ensures a == b && x == y
  {
    if a < b {
      MulStep(a, b, d);
    } else if b < a {
      MulStep(b, a, d);
    }
  }
}
