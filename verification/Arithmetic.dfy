/** Multiplication, division and remainder facts shared by the arithmetic models. */
module Arithmetic {

  lemma MulMono(a: int, b: int, c: int)
    requires a <= b && 0 <= c
    ensures a * c <= b * c && c * a <= c * b
  {
  }

  lemma MulDistrib(a: int, b: int, c: int)
    ensures a * (b + c) == a * b + a * c && (b + c) * a == b * a + c * a
    ensures a * (b - c) == a * b - a * c && (b - c) * a == b * a - c * a
  {
  }

  lemma MulAssoc(a: int, b: int, c: int)
    ensures a * (b * c) == (a * b) * c == b * (a * c)
  {
  }

  lemma MulPositive(a: int, b: int)
    requires a > 0 && b > 0
    ensures a * b > 0 && a * b >= a && a * b >= b
  {
    MulMono(1, a, b);
    MulMono(1, b, a);
  }

  /** A multiple of d strictly between -d and d is zero. */
  lemma SmallMultiple(d: int, e: int)
    requires -d < d * e < d
    ensures e == 0
  {
    if e > 0 {
      MulMono(1, e, d);
    } else if e < 0 {
      MulMono(e, -1, d);
    }
  }

  lemma DivModUnique(m: int, d: int, q: int, r: int)
    requires d > 0 && m == d * q + r && 0 <= r < d
    ensures m / d == q && m % d == r
  {
    var q', r' := m / d, m % d;
    assert d * q' + r' == m;
    MulDistrib(d, q, q');
    SmallMultiple(d, q - q');
  }

  /** Adding a multiple of d moves the quotient and keeps the remainder. */
  lemma DivModShift(m: int, d: int, k: int)
    requires d > 0
    ensures (m + d * k) / d == m / d + k && (m + d * k) % d == m % d
  {
    MulDistrib(d, m / d, k);
    DivModUnique(m + d * k, d, m / d + k, m % d);
  }

  lemma DivMono(a: int, b: int, d: int)
    requires d > 0 && a <= b
    ensures a / d <= b / d
  {
    if a / d > b / d {
      MulMono(b / d + 1, a / d, d);
      MulDistrib(d, b / d, 1);
    }
  }

  lemma DivBounds(m: int, d: int)
    requires d > 0
    ensures d * (m / d) <= m < d * (m / d) + d && m == d * (m / d) + m % d
    ensures m >= 0 ==> m / d >= 0
  {
    if m >= 0 { DivMono(0, m, d); }
  }
}
