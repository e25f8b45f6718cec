/** Quotients and remainders are unique. */
module Division {

  lemma MulStep(a: int, b: int, c: int)
    requires a < b && c > 0
    ensures a * c + c <= b * c
  {
    assert b * c == a * c + c + (b - a - 1) * c;
  }

  lemma DivUnique(a: int, c: int, q: int, r: int)
    requires c > 0 && a == q * c + r && 0 <= r < c
    ensures a / c == q && a % c == r
  {
    DivUniqueParts(a, c, q, r, a / c, a % c);
  }

  lemma DivUniqueParts(a: int, c: int, q: int, r: int, q': int, r': int)
    requires c > 0 && q * c + r == a == q' * c + r' && 0 <= r < c && 0 <= r' < c
    ensures q == q' && r == r'
  {
    if q < q' { MulStep(q, q', c); }
    if q' < q { MulStep(q', q, c); }
  }
}
