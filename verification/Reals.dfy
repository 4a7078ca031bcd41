/** Sign and order facts about products and quotients of reals. */
module Reals {
  function Abs(x: real): (r: real)
    ensures r >= 0.0 && (r == x || r == -x)
  {
    if x < 0.0 then -x else x
  }

  function Max(x: real, y: real): (r: real)
    ensures r >= x && r >= y && (r == x || r == y)
  {
    if x >= y then x else y
  }

  function Min(x: real, y: real): (r: real)
    ensures r <= x && r <= y && (r == x || r == y)
  {
    if x <= y then x else y
  }

  lemma ProductSign(x: real, y: real)
    ensures x >= 0.0 && y >= 0.0 ==> x * y >= 0.0
    ensures x > 0.0 && y > 0.0 ==> x * y > 0.0
  {
  }

  lemma ScaleLess(c: real, x: real, y: real)
    requires c > 0.0 && x < y
    ensures c * x < c * y
  {
    assert c * (y - x) > 0.0;
    assert c * (y - x) == c * y - c * x;
  }

  lemma ScaleAtMost(c: real, x: real, y: real)
    requires c > 0.0 && x <= y
    ensures c * x <= c * y
  {
    assert c * (y - x) >= 0.0;
    assert c * (y - x) == c * y - c * x;
  }

  lemma ProductOrder(c: real, x: real, y: real)
    requires c > 0.0
    ensures c * x <= c * y <==> x <= y
    ensures c * x < c * y <==> x < y
  {
    ProductSign(c, y - x);
    ProductSign(c, x - y);
    assert c * (y - x) == c * y - c * x;
  }

  lemma ScaleDown(c: real, x: real)
    requires c <= 1.0 && x > 0.0
    ensures c * x <= x
  {
    assert x * (1.0 - c) >= 0.0;
    assert x * (1.0 - c) == x - c * x;
  }

  lemma AffineOrder(c: real, d: real, x: real, y: real)
    requires c > 0.0
    ensures c * x + d <= c * y + d <==> x <= y
  {
    if x <= y { ScaleAtMost(c, x, y); }
    if y < x { ScaleLess(c, y, x); }
  }

  lemma AffineDistance(c: real, d: real, x: real, y: real)
    requires c > 0.0
    ensures Abs((c * x + d) - (c * y + d)) == c * Abs(x - y)
  {
    if x <= y { ScaleAtMost(c, x, y); } else { ScaleAtMost(c, y, x); }
    assert c * (x - y) == c * x - c * y && c * (y - x) == c * y - c * x;
  }

  lemma QuotientTimes(x: real, y: real)
    requires y != 0.0
    ensures x / y * y == x
  {
  }

  lemma QuotientIff(x: real, y: real, q: real)
    requires y != 0.0
    ensures x / y == q <==> q * y == x
  {
  }

  lemma QuotientRescale(x: real, m: real, g: real)
    requires m > 0.0 && g > 0.0
    ensures x / g == x / m / g * m
  {
    var raw := x / m;
    var q := raw / g;
    QuotientIff(x, m, raw);
    QuotientIff(raw, g, q);
    calc {
      q * m * g;
    ==
      q * g * m;
    ==
      raw * m;
    ==
      x;
    }
    QuotientIff(x, g, q * m);
  }

  lemma RelativeGap(q: real, m: real)
    requires m > 0.0
    ensures Abs(q * m - m) == Abs(q - 1.0) * m
    ensures (1.0 + q) * m == m + q * m
  {
    AbsScale(m, q - 1.0);
    assert m * (q - 1.0) == q * m - m;
  }

  lemma QuotientUnique(x: real, y: real, q: real)
    requires y != 0.0 && q * y == x
    ensures x / y == q
  {
  }

  // x / y <= t, cleared of the quotient.
  lemma QuotientOrder(x: real, y: real, t: real)
    requires y > 0.0
    ensures x / y <= t <==> x <= t * y
    ensures x / y < t <==> x < t * y
    ensures t <= x / y <==> t * y <= x
    ensures x > 0.0 ==> x / y > 0.0
    ensures x >= 0.0 ==> x / y >= 0.0
  {
    QuotientTimes(x, y);
    var q := x / y;
    ProductOrder(y, q, t);
    assert y * q == x;
    if q <= 0.0 { ProductSign(y, -q); assert y * -q == -x; }
  }

  lemma AbsScale(c: real, x: real)
    requires c > 0.0
    ensures Abs(c * x) == c * Abs(x)
  {
    ProductSign(c, Abs(x));
    if x < 0.0 { assert c * -x == -(c * x); ProductSign(c, -x); }
  }
}
