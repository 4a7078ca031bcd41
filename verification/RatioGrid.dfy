/**
The canonical ratio grid of the gettex adapter and the snapping of a raw ratio
onto it (`_RATIO_GRID` and `_snap_ratio` in src/turboedge/adapters/gettex.py).
*/
module RatioGrid {
  import opened Reals
  import opened Wrappers

  const GRID: seq<real> :=
    [10.0, 5.0, 2.0, 1.0, 0.5, 0.2, 0.1, 0.05, 0.02, 0.01, 0.005, 0.002, 0.001, 0.0001]

  // Relative deviation of a raw ratio from a grid value.
  function Deviation(raw: real, g: real): real
    requires g > 0.0
  {
    Abs(raw - g) / g
  }

  lemma DeviationAtMost(raw: real, g: real, tol: real)
    requires g > 0.0
    ensures Deviation(raw, g) <= tol <==> Abs(raw - g) <= tol * g
    ensures Deviation(raw, g) < tol <==> Abs(raw - g) < tol * g
    ensures Deviation(raw, g) * g == Abs(raw - g)
    ensures Deviation(raw, g) >= 0.0
  {
    QuotientOrder(Abs(raw - g), g, tol);
    QuotientTimes(Abs(raw - g), g);
  }

  // Grid values are positive, strictly decreasing, and step by a factor of at least two.
  lemma GridSteps(i: nat, j: nat)
    requires i < |GRID| && j < |GRID|
    ensures GRID[i] > 0.0
    ensures i < j ==> GRID[i] >= 2.0 * GRID[j]
  {
    if i < j { GridStepsBelow(i, j); }
  }

  lemma {:induction false} GridStepsBelow(i: nat, j: nat)
    requires i < j < |GRID|
    ensures GRID[i] >= 2.0 * GRID[j] > 0.0
    decreases j
  {
    assert GRID[j - 1] >= 2.0 * GRID[j] > 0.0;
    if i < j - 1 { GridStepsBelow(i, j - 1); }
  }

  lemma GridPositive(g: real)
    requires g in GRID
    ensures g > 0.0
  {
  }

  // Two different grid values are at least a factor of two apart.
  lemma GridApart(g: real, h: real)
    requires g in GRID && h in GRID && g < h
    ensures h >= 2.0 * g && g > 0.0
  {
    hide GRID;
    var i :| 0 <= i < |GRID| && GRID[i] == h;
    var j :| 0 <= j < |GRID| && GRID[j] == g;
    GridSteps(i, j);
    GridSteps(j, i);
  }

  // Index of the first smallest deviation within tolerance, among the first n.
  function Closest(devs: seq<real>, tol: real, n: nat): (best: Option<nat>)
    requires n <= |devs|
    ensures best.Some? ==> best.value < n
  {
    if n == 0 then None
    else
      var best := Closest(devs, tol, n - 1);
      if devs[n - 1] <= tol && (best.None? || devs[n - 1] < devs[best.value]) then Some(n - 1) else best
  }

  function Deviations(raw: real): (devs: seq<real>)
    ensures |devs| == |GRID|
    ensures forall i :: 0 <= i < |GRID| ==> GRID[i] > 0.0 && devs[i] == Deviation(raw, GRID[i])
  {
    seq(|GRID|, i requires 0 <= i < |GRID| => GridSteps(i, i); Deviation(raw, GRID[i]))
  }

  function Snap(raw: real, tol: real): (best: Option<real>)
    ensures best.Some? ==> best.value in GRID
  {
    if raw <= 0.0 then None
    else
      match Closest(Deviations(raw), tol, |GRID|)
      case Some(k) => Some(GRID[k])
      case None => None
  }

  method SnapRatio(raw: real, tol: real) returns (best: Option<real>)
    ensures best == Snap(raw, tol)
  {
    hide Deviation;
    if raw <= 0.0 {
      return None;
    }
    best := None;
    var bestDev := 0.0;
    ghost var devs := Deviations(raw);
    for i := 0 to |GRID|
      invariant best.None? <==> Closest(devs, tol, i).None?
      invariant best.Some? ==> best.value == GRID[Closest(devs, tol, i).value]
      invariant best.Some? ==> bestDev == devs[Closest(devs, tol, i).value]
    {
      var dev := Deviation(raw, GRID[i]);
      if dev <= tol && (best.None? || dev < bestDev) {
        best := Some(GRID[i]);
        bestDev := dev;
      }
    }
  }

  lemma {:induction false} ClosestIsFirstMinimum(devs: seq<real>, tol: real, n: nat)
    requires n <= |devs|
    ensures match Closest(devs, tol, n)
            case None => forall j :: 0 <= j < n ==> devs[j] > tol
            case Some(k) =>
              && devs[k] <= tol
              && (forall j :: 0 <= j < n ==> devs[k] <= devs[j])
              && (forall j :: 0 <= j < k ==> devs[k] < devs[j])
  {
    if n == 0 {
    } else {
      ClosestIsFirstMinimum(devs, tol, n - 1);
    }
  }

  // g is a closest grid value to raw, and every larger grid value is strictly farther away.
  ghost predicate IsNearest(raw: real, g: real) {
    g in GRID &&
    g > 0.0 &&
    forall h :: h in GRID ==> h > 0.0 && Deviation(raw, g) <= Deviation(raw, h)
                              && (h > g ==> Deviation(raw, g) < Deviation(raw, h))
  }

  // Snapping returns the nearest grid value (ties to the larger) iff that one is within tolerance.
  lemma SnapIsNearest(raw: real, tol: real, g: real)
    requires raw > 0.0
    ensures Snap(raw, tol) == Some(g) <==> IsNearest(raw, g) && Deviation(raw, g) <= tol
  {
    var devs := Deviations(raw);
    ClosestIsFirstMinimum(devs, tol, |GRID|);
    var c := Closest(devs, tol, |GRID|);
    if c.Some? {
      var b := GRID[c.value];
      forall h | h in GRID
        ensures h > 0.0 && Deviation(raw, b) <= Deviation(raw, h)
        ensures h > b ==> Deviation(raw, b) < Deviation(raw, h)
      {
        var j :| 0 <= j < |GRID| && GRID[j] == h;
        assert devs[c.value] <= devs[j];
        if h > b && j > c.value { GridSteps(c.value, j); }
      }
      assert IsNearest(raw, b);
      if IsNearest(raw, g) && g != b { assert false; }
    } else if IsNearest(raw, g) {
      var j :| 0 <= j < |GRID| && GRID[j] == g;
      assert devs[j] > tol;
    }
  }

  lemma DeviationAsQuotient(raw: real, g: real)
    requires g > 0.0
    ensures Deviation(raw, g) == Abs(raw / g - 1.0)
  {
    var q := raw / g;
    QuotientTimes(raw, g);
    QuotientOrder(raw, g, 1.0);
    assert Abs(q - 1.0) * g == Abs(raw - g) by { AbsScale(g, q - 1.0); }
    QuotientUnique(Abs(raw - g), g, Abs(q - 1.0));
  }

  lemma QuotientAntitone(raw: real, g: real, h: real)
    requires raw > 0.0 && g > h > 0.0
    ensures raw / g < raw / h
  {
    var q := raw / h;
    QuotientTimes(raw, h);
    QuotientOrder(raw, h, 0.0);
    ProductOrder(q, h, g);
    QuotientOrder(raw, g, q);
  }

  lemma QuotientMonotone(raw1: real, raw2: real, g: real)
    requires raw1 <= raw2 && g > 0.0
    ensures raw1 / g <= raw2 / g
  {
    QuotientTimes(raw2, g);
    QuotientOrder(raw1, g, raw2 / g);
  }

  // Between two grid values the closer one is decided by their harmonic mean.
  lemma CloserToLarger(raw: real, g: real, h: real)
    requires g > h > 0.0 && raw > 0.0
    ensures Deviation(raw, g) <= Deviation(raw, h) <==> raw / g + raw / h >= 2.0
  {
    DeviationAsQuotient(raw, g);
    DeviationAsQuotient(raw, h);
    QuotientAntitone(raw, g, h);
  }

  lemma NearestMonotone(raw1: real, g: real, raw2: real, h: real)
    requires 0.0 < raw1 <= raw2
    requires IsNearest(raw1, g) && IsNearest(raw2, h)
    ensures g <= h
  {
    if g > h {
      assert Deviation(raw1, g) <= Deviation(raw1, h);
      assert Deviation(raw2, h) < Deviation(raw2, g);
      CloserToLarger(raw1, g, h);
      CloserToLarger(raw2, g, h);
      QuotientMonotone(raw1, raw2, g);
      QuotientMonotone(raw1, raw2, h);
      assert false;
    }
  }

  // Snapping is monotone in the raw ratio, even between two different tolerances.
  lemma SnapMonotone(raw1: real, tol1: real, raw2: real, tol2: real)
    requires raw1 <= raw2
    requires Snap(raw1, tol1).Some? && Snap(raw2, tol2).Some?
    ensures Snap(raw1, tol1).value <= Snap(raw2, tol2).value
  {
    var g, h := Snap(raw1, tol1).value, Snap(raw2, tol2).value;
    hide Deviation;
    SnapIsNearest(raw1, tol1, g);
    SnapIsNearest(raw2, tol2, h);
    NearestMonotone(raw1, g, raw2, h);
  }

  // Closer than a third to some grid value: snapping can only return that one.
  lemma SnapWithin(raw: real, g: real, tol: real)
    requires g in GRID && g > 0.0
    requires Deviation(raw, g) <= tol && Deviation(raw, g) < 1.0 / 3.0
    ensures raw > 0.0 && Snap(raw, tol) == Some(g)
  {
    hide Snap, Deviation, GRID;
    DeviationAtMost(raw, g, 1.0 / 3.0);
    forall h | h in GRID && h != g ensures h > 0.0 && Deviation(raw, g) < Deviation(raw, h) {
      GridPositive(h);
      if h > g { GridApart(g, h); } else { GridApart(h, g); }
      ThirdIsFar(raw, g, h);
    }
    SnapIsNearest(raw, tol, g);
  }

  lemma ThirdIsFar(raw: real, g: real, h: real)
    requires g > 0.0 && h > 0.0 && (h >= 2.0 * g || g >= 2.0 * h) && Deviation(raw, g) < 1.0 / 3.0
    ensures Deviation(raw, g) < Deviation(raw, h)
  {
    hide Deviation;
    DeviationAtMost(raw, g, 1.0 / 3.0);
    DeviationAtMost(raw, h, 1.0 / 3.0);
  }

  // A product priced exactly at a grid ratio keeps it, at every tolerance.
  lemma SnapExact(g: real, tol: real)
    requires g in GRID && tol >= 0.0
    ensures Snap(g, tol) == Some(g)
  {
    GridPositive(g);
    DeviationAtMost(g, g, 0.0);
    SnapWithin(g, g, tol);
  }
}
