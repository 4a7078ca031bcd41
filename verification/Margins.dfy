/**
What a factor between two bounds does to a positive real: the arithmetic behind keeping grid ratios
apart, stated without any of the functions it is used for.
*/
module Margins {
  import opened Reals

  // p is g scaled down or up by more than six percent, short of a half or a double.
  predicate Off(p: real, g: real) {
    0.53 * g < p < 0.94 * g || 1.06 * g < p < 1.88 * g
  }

  lemma ScaledDown(g: real, k: real)
    requires g > 0.0 && 0.53 < k < 0.94
    ensures 0.53 * g < g * k && g * k < 0.94 * g
  {
    ScaleLess(g, 0.53, k);
    ScaleLess(g, k, 0.94);
  }

  lemma ScaledUp(g: real, k: real)
    requires g > 0.0 && 1.06 < k < 1.88
    ensures 1.06 * g < g * k && g * k < 1.88 * g
  {
    ScaleLess(g, 1.06, k);
    ScaleLess(g, k, 1.88);
  }

  lemma ScaledOff(g: real, k: real)
    requires g > 0.0 && (0.53 < k < 0.94 || 1.06 < k < 1.88)
    ensures Off(g * k, g)
  {
    if k < 1.0 { ScaledDown(g, k); } else { ScaledUp(g, k); }
  }

  lemma RatesAbove(g: real, k: real)
    requires g > 0.0 && 53.0 / 47.0 < k < 94.0 / 53.0
    ensures 53.0 * g < 47.0 * (k * g) && 53.0 * (k * g) < 94.0 * g
  {
    ScaleLess(g, 53.0 / 47.0, k);
    ScaleLess(g, k, 94.0 / 53.0);
  }

  lemma RatesBelow(g: real, k: real)
    requires g > 0.0 && 53.0 / 94.0 < k < 47.0 / 53.0
    ensures 53.0 * g < 94.0 * (k * g) && 53.0 * (k * g) < 47.0 * g
  {
    ScaleLess(g, 53.0 / 94.0, k);
    ScaleLess(g, k, 47.0 / 53.0);
  }

  // Six percent around p and six percent around h meet.
  predicate Touches(p: real, h: real) {
    47.0 * h <= 53.0 * p && 47.0 * p <= 53.0 * h
  }

  // A price within six percent of g whose k-fold is within six percent of h makes k * g touch h.
  lemma NearTouches(raw: real, k: real, g: real, h: real)
    requires k > 0.0 && Abs(raw - g) <= 0.06 * g && Abs(raw * k - h) <= 0.06 * h
    ensures Touches(k * g, h)
  {
    hide Touches, Within;
    ScaledWithin(k, g, raw);
    WithinTouches(k * g, raw * k, h);
  }

  predicate Within(q: real, p: real) {
    0.94 * p <= q <= 1.06 * p
  }

  lemma ScaledWithin(k: real, g: real, raw: real)
    requires k > 0.0 && 0.94 * g <= raw <= 1.06 * g
    ensures Within(raw * k, k * g)
  {
    ScaleAtMost(k, 0.94 * g, raw);
    ScaleAtMost(k, raw, 1.06 * g);
  }

  lemma WithinTouches(p: real, q: real, h: real)
    requires Within(q, p) && Abs(q - h) <= 0.06 * h
    ensures Touches(p, h)
  {
  }

  // Where they meet: within six percent of g, and carried by k to within six percent of h.
  lemma MeetingPoint(k: real, g: real, h: real, p: real)
    requires k > 0.0 && g > 0.0 && h > 0.0 && Touches(k * g, h)
    requires p == Max(0.94 * g, 0.94 * h / k)
    ensures Abs(p - g) <= 0.06 * g && Abs(p * k - h) <= 0.06 * h
  {
    var q := 0.94 * h / k;
    QuotientTimes(0.94 * h, k);
    QuotientOrder(0.94 * h, k, 1.06 * g);
    assert 1.06 * g * k == 1.06 * (k * g) && 0.94 * g * k == 0.94 * (k * g);
    if p == q {
      ScaleAtMost(k, 0.94 * g, q);
    } else {
      ScaleAtMost(k, q, 0.94 * g);
    }
  }

  predicate Clear(p: real, g: real) {
    (53.0 * g < 47.0 * p && 53.0 * p < 94.0 * g) || (53.0 * g < 94.0 * p && 53.0 * p < 47.0 * g)
  }

  lemma RatesClear(g: real, k: real)
    requires g > 0.0 && (53.0 / 47.0 < k < 94.0 / 53.0 || 53.0 / 94.0 < k < 47.0 / 53.0)
    ensures Clear(k * g, g)
  {
    if k > 1.0 { RatesAbove(g, k); } else { RatesBelow(g, k); }
  }

  lemma ClearIsApart(g: real, h: real, p: real)
    requires g > 0.0 && h > 0.0 && (g == h || h >= 2.0 * g || g >= 2.0 * h) && Clear(p, g)
    ensures !Touches(p, h)
  {
  }

  lemma OffIsFar(g: real, h: real, p: real)
    requires g > 0.0 && h > 0.0 && (g == h || h >= 2.0 * g || g >= 2.0 * h) && Off(p, g)
    ensures Abs(p - h) > 0.06 * h
  {
  }

  // The two products p * x == q * y with p and q within 53/47 of each other: so are x and y.
  lemma SharedProduct(q: real, p: real, q': real, h: real)
    requires q > 0.0 && q' > 0.0 && p > 0.0 && h > 0.0 && q * p == q' * h
    requires 53.0 * q >= 47.0 * q' && 53.0 * q' >= 47.0 * q
    ensures Touches(p, h)
  {
    ScaleAtMost(h, 47.0 * q', 53.0 * q);
    assert h * (47.0 * q') == 47.0 * (q * p) && h * (53.0 * q) == 53.0 * (q * h);
    ProductOrder(q, 47.0 * p, 53.0 * h);
    ScaleAtMost(p, 47.0 * q, 53.0 * q');
    assert p * (47.0 * q) == 47.0 * (q' * h) && p * (53.0 * q') == 53.0 * (q' * p);
    ProductOrder(q', 47.0 * h, 53.0 * p);
  }

  // One of two multiples at least low and more than 53/47 apart is above 53/47 * low.
  lemma LargerExcess(q: real, q': real, low: real, m: real, room: real)
    requires m > 0.0 && low <= q && low <= q' && (53.0 * q < 47.0 * q' || 53.0 * q' < 47.0 * q)
    requires (1.0 + q) * m <= room && (1.0 + q') * m <= room
    ensures (1.0 + 53.0 / 47.0 * low) * m < room
  {
    if 53.0 * q < 47.0 * q' {
      ScaleLess(m, 1.0 + 53.0 / 47.0 * low, 1.0 + q');
    } else {
      ScaleLess(m, 1.0 + 53.0 / 47.0 * low, 1.0 + q);
    }
  }

  // Two multiples more than 53/47 apart within the snap tolerance and what the spot tolerance leaves.
  lemma SplitWithin(right: bool, snapTol: real, room: real) returns (q: real, q': real)
    requires 0.06 < snapTol <= 0.5
    requires if right then 0.06 < room else 1.0 + 53.0 / 47.0 * (1.0 - snapTol) < room
    ensures 53.0 * q < 47.0 * q' && 53.0 * q' < 94.0 * q && 0.0 < q <= 1.5 && 0.0 < q' <= 1.5
    ensures Abs(q - 1.0) <= snapTol && Abs(q' - 1.0) <= snapTol
    ensures if right then Abs(q - 1.0) <= room && Abs(q' - 1.0) <= room else 1.0 + q <= room && 1.0 + q' <= room
  {
    if right {
      var d := Min(0.1, Min(snapTol, room));
      q, q' := 1.0 - d, 1.0 + d;
    } else {
      q := 1.0 - snapTol;
      q' := Min(room - 1.0, Min(1.0 + snapTol, 1.2 * q));
    }
  }

  // A value up to 1.5 ten-thousandths is relatively nearer to one ten-thousandth than to any h from ten of them.
  lemma NearerLow(q: real, h: real)
    requires 0.0 < q <= 1.5 && h >= 0.001
    ensures Abs(q * 0.0001 - h) > Abs(q - 1.0) * h
  {
    if q > 1.0 { NearerLowAbove(q, h); } else { NearerLowBelow(q, h); }
  }

  lemma NearerLowAbove(q: real, h: real)
    requires 1.0 < q <= 1.5 && h >= 0.001
    ensures Abs(q * 0.0001 - h) > Abs(q - 1.0) * h
  {
    calc {
      Abs(q - 1.0) * h;
    <= { HalfAtMost(Abs(q - 1.0), h); }
      0.5 * h;
    <
      h - q * 0.0001;
    <=
      Abs(q * 0.0001 - h);
    }
  }

  lemma HalfAtMost(d: real, h: real)
    requires d <= 0.5 && h > 0.0
    ensures d * h <= 0.5 * h
  {
    ScaleAtMost(h, d, 0.5);
  }

  lemma NearerLowBelow(q: real, h: real)
    requires 0.0 < q <= 1.0 && h >= 0.001
    ensures Abs(q * 0.0001 - h) > Abs(q - 1.0) * h
  {
    ScaleLess(q, 0.0001, h);
    assert Abs(q - 1.0) == 1.0 - q;
    assert (1.0 - q) * h == h - q * h;
  }
}
