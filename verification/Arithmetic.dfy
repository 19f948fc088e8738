/** Quotients, remainders and products, for divisors that are not known. */
module Arithmetic {
  function Max(x: int, y: int): int { if x < y then y else x }

  function Min(x: int, y: int): int { if x < y then x else y }

  lemma Division(x: int, d: int)
    requires d > 0
    ensures x == d * (x / d) + x % d && 0 <= x % d < d
  {
  }

  lemma Distribute(d: int, x: int, y: int, z: int)
    ensures d * (x - y - z) == d * x - d * y - d * z
  {
  }

  lemma Associates(x: int, y: int, z: int)
    ensures x * y * z == x * (y * z)
  {
  }

  // A multiple of `d` other than zero is not between -d and d.
  lemma Multiple(d: int, k: int)
    requires d > 0
    ensures (k >= 1 ==> d * k >= d) && (k <= -1 ==> d * k <= -d)
  {
  }

  lemma MultipleMonotone(i: int, j: int, d: int)
    requires i <= j && d >= 0
    ensures i * d <= j * d
  {
  }

  lemma QuotientIs(x: int, d: int, q: int, s: int)
    requires d > 0 && x == d * q + s && 0 <= s < d
    ensures x / d == q && x % d == s
  {
    Division(x, d);
    Distribute(d, x / d, q, 0);
    Multiple(d, x / d - q - 0);
  }

  lemma Small(x: int, d: int)
    requires 0 <= x < d
    ensures x % d == x
  {
  }

  /** Two numbers that differ by a multiple of `d` have the same remainder. */
  lemma SameRemainder(x: int, y: int, d: int, q: int)
    requires d > 0 && x == y + d * q
    ensures x % d == y % d
  {
    Division(x, d);
    Division(y, d);
    var k := x / d - y / d - q;
    assert d * k == y % d - x % d by { Distribute(d, x / d, y / d, q); }
    Multiple(d, k);
  }

  lemma AddMultiple(x: int, d: int, m: int)
    requires d > 0
    ensures (x + d * m) / d == x / d + m
  {
    Division(x, d);
    Distribute(d, x / d, 0, 0 - m);
    QuotientIs(x + d * m, d, x / d + m, x % d);
  }

  lemma MultipleDivided(i: int, d: int)
    requires d > 0
    ensures (i * d) / d == i && (i * d) % d == 0
  {
    QuotientIs(i * d, d, i, 0);
  }

  /** Dividing by a product is dividing by one factor after the other. */
  lemma DividedTwice(x: int, a: int, b: int)
    requires a > 0 && b > 0
    ensures a * b > 0 && x / (a * b) == (x / a) / b
  {
    var q, r := x / a / b, (x / a) % b;
    Division(x, a);
    Division(x / a, b);
    var s := a * r + x % a;
    assert x / a == b * q + r;
    SplitProduct(a, b, q, r);
    assert x == a * b * q + s;
    RemainderBound(a, b, r, x % a);
    QuotientIs(x, a * b, q, s);
  }

  lemma SplitProduct(a: int, b: int, q: int, r: int)
    ensures a * (b * q + r) == a * b * q + a * r
  {
  }

  lemma RemainderBound(a: int, b: int, r: int, t: int)
    requires a > 0 && 0 <= r < b && 0 <= t < a
    ensures 0 <= a * r + t < a * b
  {
    Multiple(a, b - r);
    assert a * b - a * r == a * (b - r);
  }
}
