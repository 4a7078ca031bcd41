/**
Deriving and verifying one product's ratio (`_attempt_ratio`, the two
leverage-scaled tolerances and `_derive_ratio` in src/turboedge/adapters/gettex.py),
with the pricing identity it inverts (src/turboedge/pricing/intrinsic.py).
*/
module RatioDerivation {
  import opened Margins
  import opened RatioGrid
  import opened Reals
  import opened ReferenceSpot
  import opened Wrappers

  // ---- The pricing identity ----

  // What a distance m from the financing level is worth, and the distance a price stands for.
  function Worth(m: real, ratio: real, fx: real): real
    requires fx > 0.0
  {
    m * ratio / fx
  }

  function Span(price: real, ratio: real, fx: real): real
    requires ratio > 0.0
  {
    price * fx / ratio
  }

  function IntrinsicValue(spot: real, financing: real, ratio: real, direction: Direction, fx: real): real
    requires ratio > 0.0 && fx > 0.0
  {
    var moneyness := if direction == Long then spot - financing else financing - spot;
    Worth(Max(moneyness, 0.0), ratio, fx)
  }

  function ImpliedUnderlying(price: real, financing: real, ratio: real, direction: Direction, fx: real): real
    requires price > 0.0 && ratio > 0.0 && fx > 0.0
  {
    if direction == Long then financing + Span(price, ratio, fx) else financing - Span(price, ratio, fx)
  }

  // In the money the two are exact inverses of each other.
  lemma ImpliedInvertsIntrinsic(spot: real, price: real, financing: real, ratio: real, direction: Direction, fx: real)
    requires price > 0.0 && ratio > 0.0 && fx > 0.0
    ensures ImpliedUnderlying(price, financing, ratio, direction, fx) == spot <==>
            RightSide(direction, financing, spot) && IntrinsicValue(spot, financing, ratio, direction, fx) == price
  {
    hide Worth, Span;
    var m := if direction == Long then spot - financing else financing - spot;
    SpanPositive(price, ratio, fx);
    SpanIffWorth(m, price, ratio, fx);
    SpanIffWorth(0.0, price, ratio, fx);
  }

  lemma SpanPositive(price: real, ratio: real, fx: real)
    requires price > 0.0 && ratio > 0.0 && fx > 0.0
    ensures Span(price, ratio, fx) > 0.0
  {
    ProductSign(price, fx);
    QuotientOrder(price * fx, ratio, 0.0);
  }

  lemma SpanIffWorth(m: real, price: real, ratio: real, fx: real)
    requires ratio > 0.0 && fx > 0.0
    ensures Span(price, ratio, fx) == m <==> Worth(m, ratio, fx) == price
  {
    QuotientIff(price * fx, ratio, m);
    QuotientIff(m * ratio, fx, price);
  }

  // ---- One attempt under one fx hypothesis ----

  datatype Attempt = Attempt(ratio: Option<real>, verified: bool, deviation: Option<real>)

  function Moneyness(financing: real, sRef: real): real {
    Abs(sRef - financing)
  }

  function RawRatio(price: real, fx: real, moneyness: real): real
    requires moneyness > 0.0
  {
    price * fx / moneyness
  }

  function AttemptRatio(direction: Direction, financing: real, price: real, sRef: real, fx: real,
                        snapTol: real, spotTol: real): (a: Attempt)
    requires sRef > 0.0 && fx > 0.0
    ensures a.ratio.Some? ==> a.ratio.value in GRID
    ensures a.verified ==> a.ratio.Some?
  {
    var m := Moneyness(financing, sRef);
    if m <= 0.0 then Attempt(None, false, None)
    else
      var raw := RawRatio(price, fx, m);
      match Snap(raw, snapTol)
      case None => Attempt(None, false, None)
      case Some(g) =>
        GridPositive(g);
        PositivePrice(price, fx, m);
        var implied := ImpliedUnderlying(price, financing, g, direction, fx);
        var deviation := Abs(implied - sRef) / sRef;
        Attempt(Some(g), deviation <= spotTol, Some(deviation))
  }

  // A raw ratio that snaps is positive, so the price that produced it is.
  lemma PositivePrice(price: real, fx: real, m: real)
    requires fx > 0.0 && m > 0.0
    ensures RawRatio(price, fx, m) > 0.0 <==> price > 0.0
  {
    QuotientOrder(price * fx, m, 0.0);
    ProductSign(price, fx);
    ProductSign(-price, fx);
    assert (-price) * fx == -(price * fx);
  }

  // What the implied-spot check really tests: on the right side of the financing level it bounds
  // the snap deviation in units of the reference spot, on the wrong side it cannot be near.
  lemma VerificationIdentity(direction: Direction, financing: real, price: real, sRef: real, fx: real,
                             snapTol: real, spotTol: real, g: real)
    requires sRef > 0.0 && fx > 0.0 && Moneyness(financing, sRef) > 0.0 && g in GRID && g > 0.0
    requires Snap(RawRatio(price, fx, Moneyness(financing, sRef)), snapTol) == Some(g)
    ensures var m := Moneyness(financing, sRef);
            var raw := RawRatio(price, fx, m);
            var a := AttemptRatio(direction, financing, price, sRef, fx, snapTol, spotTol);
            && a.ratio == Some(g)
            && (RightSide(direction, financing, sRef) ==> (a.verified <==> Deviation(raw, g) * m <= spotTol * sRef))
            && (!RightSide(direction, financing, sRef) ==> (a.verified <==> (1.0 + raw / g) * m <= spotTol * sRef))
  {
    hide *;
    var m := Moneyness(financing, sRef);
    var raw := RawRatio(price, fx, m);
    AttemptOutcome(direction, financing, price, sRef, fx, snapTol, spotTol, g);
    ImpliedDistance(direction, financing, price, sRef, fx, g, raw / g);
    DeviationAsQuotient(raw, g);
  }

  lemma AttemptOutcome(direction: Direction, financing: real, price: real, sRef: real, fx: real,
                       snapTol: real, spotTol: real, g: real)
    requires sRef > 0.0 && fx > 0.0 && Moneyness(financing, sRef) > 0.0 && g in GRID && g > 0.0
    requires Snap(RawRatio(price, fx, Moneyness(financing, sRef)), snapTol) == Some(g)
    ensures var a := AttemptRatio(direction, financing, price, sRef, fx, snapTol, spotTol);
            && a.ratio == Some(g) && price > 0.0
            && (a.verified <==> Abs(ImpliedUnderlying(price, financing, g, direction, fx) - sRef) <= spotTol * sRef)
  {
    PositivePrice(price, fx, Moneyness(financing, sRef));
    QuotientOrder(Abs(ImpliedUnderlying(price, financing, g, direction, fx) - sRef), sRef, spotTol);
  }

  lemma ImpliedDistance(direction: Direction, financing: real, price: real, sRef: real, fx: real, g: real, q: real)
    requires sRef > 0.0 && fx > 0.0 && price > 0.0 && g > 0.0 && Moneyness(financing, sRef) > 0.0
    requires q == RawRatio(price, fx, Moneyness(financing, sRef)) / g
    ensures var m := Moneyness(financing, sRef);
            Abs(ImpliedUnderlying(price, financing, g, direction, fx) - sRef) ==
            if RightSide(direction, financing, sRef) then Abs(q - 1.0) * m else (1.0 + q) * m
  {
    hide Span, RawRatio;
    var m := Moneyness(financing, sRef);
    SpanAsShare(price, fx, m, g);
    SpanPositive(price, g, fx);
    RelativeGap(q, m);
  }

  lemma SpanAsShare(price: real, fx: real, m: real, g: real)
    requires m > 0.0 && g > 0.0
    ensures Span(price, g, fx) == RawRatio(price, fx, m) / g * m
  {
    QuotientRescale(price * fx, m, g);
  }

  // ---- Leverage-scaled tolerances ----

  datatype Config = Config(
    snapTol: real, spotTol: real, leverageRef: real, snapCap: real,
    madK: real, maxLeverage: real,
    fxMin: real, fxMax: real, minCandidates: nat, minFraction: real,
    liveTol: real, closeTol: real)

  const DEFAULT := Config(0.03, 0.003, 20.0, 0.5, 5.0, 200.0, 0.5, 2.0, 5, 0.5, 0.005, 0.02)

  function ScaledSnapTolerance(leverage: real, cfg: Config): real {
    if cfg.leverageRef <= 0.0 then cfg.snapTol
    else Min(cfg.snapCap, cfg.snapTol * Max(1.0, leverage / cfg.leverageRef))
  }

  function ScaledSpotTolerance(leverage: real, cfg: Config): real {
    if cfg.leverageRef <= 0.0 then cfg.spotTol
    else cfg.spotTol / Max(1.0, leverage / cfg.leverageRef)
  }

  lemma DefaultTolerances(leverage: real)
    ensures 0.03 <= ScaledSnapTolerance(leverage, DEFAULT) <= 0.5
    ensures leverage <= 40.0 ==> ScaledSnapTolerance(leverage, DEFAULT) <= 0.06
    ensures 0.0 < ScaledSpotTolerance(leverage, DEFAULT) <= 0.003
    ensures ScaledSpotTolerance(leverage, DEFAULT) * leverage <= 0.06
    ensures leverage >= 10.0 ==> ScaledSnapTolerance(leverage, DEFAULT) <= 0.003 * leverage
  {
    if leverage > 20.0 {
      var s := leverage / 20.0;
      QuotientTimes(0.003, s);
      QuotientOrder(0.003, s, 0.003);
    }
  }

  // ---- Arbitrating between the hypotheses ----

  datatype Row = Row(isin: string, issuer: string, direction: Direction, financing: real, barrier: real,
                     leverage: real, bid: Option<real>, ask: Option<real>, isStale: bool)
  {
    // Mid when both sides are quoted, else the bid alone.
    function MidPrice(): Option<real> {
      if bid.None? then None
      else if ask.None? then bid
      else Some((bid.value + ask.value) / 2.0)
    }
  }

  datatype Outcome =
    | Derived(ratio: real, quanto: Option<bool>)
    | RatioRejected
    | VerificationFailed
    | QuantoAmbiguous

  predicate NeedsFx(currency: Option<string>) {
    currency.Some? && currency.value != "EUR"
  }

  function TryFx(cfg: Config, row: Row, price: real, sRef: real, fx: real, twoHypotheses: bool): (a: Attempt)
    requires sRef > 0.0 && fx > 0.0
    ensures a.ratio.Some? ==> a.ratio.value in GRID
    ensures a.verified ==> a.ratio.Some?
  {
    AttemptRatio(row.direction, row.financing, price, sRef, fx, ScaledSnapTolerance(row.leverage, cfg),
                 if twoHypotheses then ScaledSpotTolerance(row.leverage, cfg) else cfg.spotTol)
  }

  function DeriveRatio(cfg: Config, row: Row, price: real, sRef: real, currency: Option<string>,
                       fx: Option<real>): (o: Outcome)
    requires sRef > 0.0 && (fx.Some? ==> fx.value > 0.0)
    ensures o.Derived? ==> o.ratio in GRID && (o.quanto.Some? <==> NeedsFx(currency))
  {
    if !NeedsFx(currency) then
      var a := TryFx(cfg, row, price, sRef, 1.0, false);
      if a.ratio.None? then RatioRejected
      else if !a.verified then VerificationFailed
      else Derived(a.ratio.value, None)
    else
      var quanto := TryFx(cfg, row, price, sRef, 1.0, true);
      if fx.None? then
        if quanto.ratio.None? then RatioRejected
        else if !quanto.verified then VerificationFailed
        else Derived(quanto.ratio.value, Some(true))
      else
        var other := TryFx(cfg, row, price, sRef, fx.value, true);
        if quanto.ratio.None? && other.ratio.None? then RatioRejected
        else if quanto.verified && other.verified then QuantoAmbiguous
        else if quanto.verified then Derived(quanto.ratio.value, Some(true))
        else if other.verified then Derived(other.ratio.value, Some(false))
        else VerificationFailed
  }

  // What each outcome says of the hypotheses tried: fx = 1 alone, or also the rate for a foreign currency with
  // a known one. A ratio is derived iff exactly one verifies.
  lemma OutcomeMeans(cfg: Config, row: Row, price: real, sRef: real, currency: Option<string>, fx: Option<real>)
    requires sRef > 0.0 && (fx.Some? ==> fx.value > 0.0)
    ensures var outcome := DeriveRatio(cfg, row, price, sRef, currency, fx);
            var foreign := currency != None && currency != Some("EUR");
            var one, both := TryFx(cfg, row, price, sRef, 1.0, foreign), foreign && fx.Some?;
            var other := if both then TryFx(cfg, row, price, sRef, fx.value, true) else Attempt(None, false, None);
            && (outcome == RatioRejected <==> one.ratio.None? && other.ratio.None?)
            && (outcome == VerificationFailed <==>
                (one.ratio.Some? || other.ratio.Some?) && !one.verified && !other.verified)
            && (outcome == QuantoAmbiguous <==> one.verified && other.verified)
            && (outcome.Derived? ==> one.verified != other.verified
                                     && Some(outcome.ratio) == (if one.verified then one.ratio else other.ratio)
                                     && outcome.quanto == if foreign then Some(one.verified) else None)
  {
    hide TryFx;
  }

  // ---- When both currency hypotheses can pass ----

  // The quoted leverage is at least what the geometry implies, or it is moderate.
  ghost predicate Trusted(row: Row, sRef: real) {
    row.leverage <= 40.0 || row.leverage * Moneyness(row.financing, sRef) >= sRef
  }

  // A verified hypothesis explains the price to within six percent of a grid ratio.
  lemma VerifiedIsNear(row: Row, price: real, sRef: real, fx: real)
    requires sRef > 0.0 && fx > 0.0 && Trusted(row, sRef)
    requires TryFx(DEFAULT, row, price, sRef, fx, true).verified
    ensures var m := Moneyness(row.financing, sRef);
            var g := TryFx(DEFAULT, row, price, sRef, fx, true).ratio.value;
            && m > 0.0 && g > 0.0 && Deviation(RawRatio(price, fx, m), g) <= 0.06
            && (row.leverage * m >= sRef ==> RightSide(row.direction, row.financing, sRef))
  {
    hide Deviation, RawRatio, AttemptRatio, ScaledSnapTolerance, ScaledSpotTolerance, Moneyness, RightSide;
    var snapTol, spotTol := ScaledSnapTolerance(row.leverage, DEFAULT), ScaledSpotTolerance(row.leverage, DEFAULT);
    VerifiedBounds(row.direction, row.financing, price, sRef, fx, snapTol, spotTol);
    DefaultTolerances(row.leverage);
    var m := Moneyness(row.financing, sRef);
    var raw, g := RawRatio(price, fx, m), TryFx(DEFAULT, row, price, sRef, fx, true).ratio.value;
    if row.leverage * m >= sRef {
      var right := RightSide(row.direction, row.financing, sRef);
      BoundByLeverage(VerifiedDeviation(raw, g, right), m, sRef, spotTol, row.leverage);
      QuotientOrder(raw, g, 0.0);
      assert right;
    }
  }

  lemma VerifiedSnaps(direction: Direction, financing: real, price: real, sRef: real, fx: real,
                      snapTol: real, spotTol: real)
    requires sRef > 0.0 && fx > 0.0
    requires AttemptRatio(direction, financing, price, sRef, fx, snapTol, spotTol).verified
    ensures var m := Moneyness(financing, sRef);
            && m > 0.0 && Snap(RawRatio(price, fx, m), snapTol).Some?
            && AttemptRatio(direction, financing, price, sRef, fx, snapTol, spotTol).ratio ==
                    Snap(RawRatio(price, fx, m), snapTol)
  {
    hide ImpliedUnderlying, RawRatio, Moneyness, Snap;
  }

  lemma SnapNeedsPositive(raw: real, tol: real, g: real)
    requires Snap(raw, tol) == Some(g)
    ensures raw > 0.0 && g in GRID
  {
    hide Closest, Deviations;
  }

  // What a verified attempt guarantees, in terms of its snap deviation.
  lemma VerifiedBounds(direction: Direction, financing: real, price: real, sRef: real, fx: real,
                       snapTol: real, spotTol: real)
    requires sRef > 0.0 && fx > 0.0
    requires AttemptRatio(direction, financing, price, sRef, fx, snapTol, spotTol).verified
    ensures var m := Moneyness(financing, sRef);
            var g := AttemptRatio(direction, financing, price, sRef, fx, snapTol, spotTol).ratio.value;
            && m > 0.0 && g > 0.0 && RawRatio(price, fx, m) > 0.0
            && Deviation(RawRatio(price, fx, m), g) <= snapTol
            && VerifiedDeviation(RawRatio(price, fx, m), g, RightSide(direction, financing, sRef)) * m <= spotTol * sRef
  {
    hide Deviation, AttemptRatio, RawRatio, Moneyness, Snap, IsNearest;
    VerifiedSnaps(direction, financing, price, sRef, fx, snapTol, spotTol);
    var m := Moneyness(financing, sRef);
    var raw := RawRatio(price, fx, m);
    var g := Snap(raw, snapTol).value;
    GridPositive(g);
    SnapNeedsPositive(raw, snapTol, g);
    SnapIsNearest(raw, snapTol, g);
    VerificationIdentity(direction, financing, price, sRef, fx, snapTol, spotTol, g);
  }

  // The relative distance of the implied spot, in units of the moneyness.
  function VerifiedDeviation(raw: real, g: real, rightSide: bool): real
    requires g > 0.0
  {
    if rightSide then Deviation(raw, g) else 1.0 + raw / g
  }

  lemma BoundByLeverage(d: real, m: real, sRef: real, spotTol: real, leverage: real)
    requires m > 0.0 && spotTol > 0.0 && leverage * m >= sRef && spotTol * leverage <= 0.06
    requires d * m <= spotTol * sRef
    ensures d <= 0.06
  {
    ProductOrder(spotTol, sRef, leverage * m);
    assert spotTol * (leverage * m) == (spotTol * leverage) * m;
    ProductOrder(m, d, spotTol * leverage);
  }

  // fx carries a price within six percent of grid ratio g to within six percent of grid ratio h.
  ghost predicate Clash(fx: real, g: real, h: real) {
    Touches(fx * g, h)
  }

  ghost predicate ClashFree(fx: real) {
    forall g, h :: g in GRID && h in GRID ==> !Clash(fx, g, h)
  }

  lemma BothNearClash(raw: real, fx: real, g: real, h: real)
    requires fx > 0.0 && g > 0.0 && h > 0.0
    requires Deviation(raw, g) <= 0.06 && Deviation(raw * fx, h) <= 0.06
    ensures Clash(fx, g, h)
  {
    hide Deviation, Touches;
    DeviationAtMost(raw, g, 0.06);
    DeviationAtMost(raw * fx, h, 0.06);
    NearTouches(raw, fx, g, h);
  }

  // Since the grid steps by factors of at least two, real exchange rates are clash-free.
  lemma RealisticFxIsClashFree(fx: real)
    requires 53.0 / 47.0 < fx < 94.0 / 53.0 || 53.0 / 94.0 < fx < 47.0 / 53.0
    ensures ClashFree(fx)
  {
    hide Clash;
    forall g, h | g in GRID && h in GRID ensures !Clash(fx, g, h) {
      NoClash(fx, g, h);
    }
  }

  lemma NoClash(fx: real, g: real, h: real)
    requires 53.0 / 47.0 < fx < 94.0 / 53.0 || 53.0 / 94.0 < fx < 47.0 / 53.0
    requires g in GRID && h in GRID
    ensures !Clash(fx, g, h)
  {
    hide GRID, Touches, Clear;
    GridPositive(g);
    GridPositive(h);
    if g < h { GridApart(g, h); }
    if h < g { GridApart(h, g); }
    RatesClear(g, fx);
    ClearIsApart(g, h, fx * g);
    assert Clash(fx, g, h) == Touches(fx * g, h);
  }

  // Inside the search band for rates no others are.
  lemma ClashFreeIff(fx: real)
    requires 0.5 <= fx <= 2.0
    ensures ClashFree(fx) <==> 53.0 / 94.0 < fx < 47.0 / 53.0 || 53.0 / 47.0 < fx < 94.0 / 53.0
  {
    if 53.0 / 94.0 < fx < 47.0 / 53.0 || 53.0 / 47.0 < fx < 94.0 / 53.0 {
      RealisticFxIsClashFree(fx);
    } else {
      assert Clash(fx, 1.0, 0.5) || Clash(fx, 1.0, 1.0) || Clash(fx, 1.0, 2.0);
      assert GRID[4] == 0.5 && GRID[3] == 1.0 && GRID[2] == 2.0;
    }
  }

  lemma RawAtFx(price: real, fx: real, m: real)
    requires m > 0.0
    ensures RawRatio(price, fx, m) == RawRatio(price, 1.0, m) * fx
  {
    QuotientTimes(price, m);
    assert price / m * fx * m == price * fx;
    QuotientUnique(price * fx, m, price / m * fx);
  }

  // Two verified hypotheses for one trusted row force a clash.
  lemma AmbiguousNeedsClash(row: Row, price: real, sRef: real, fx: real)
    requires sRef > 0.0 && fx > 0.0 && Trusted(row, sRef)
    requires TryFx(DEFAULT, row, price, sRef, 1.0, true).verified
    requires TryFx(DEFAULT, row, price, sRef, fx, true).verified
    ensures !ClashFree(fx)
  {
    hide Deviation, RawRatio, TryFx, Moneyness, Clash;
    VerifiedIsNear(row, price, sRef, 1.0);
    VerifiedIsNear(row, price, sRef, fx);
    var m := Moneyness(row.financing, sRef);
    RawAtFx(price, fx, m);
    var g := TryFx(DEFAULT, row, price, sRef, 1.0, true).ratio.value;
    var h := TryFx(DEFAULT, row, price, sRef, fx, true).ratio.value;
    var raw := RawRatio(price, 1.0, m);
    var scaled := raw * fx;
    assert scaled == RawRatio(price, fx, m);
    assert Deviation(scaled, h) <= 0.06;
    BothNearClash(raw, fx, g, h);
  }

  // Conversely every clash is met by a consistent in-the-money product at leverage 40.
  lemma ClashIsAmbiguous(fx: real, g: real, h: real) returns (row: Row, price: real, sRef: real)
    requires fx > 0.0 && g in GRID && h in GRID && Clash(fx, g, h)
    ensures sRef > 0.0 && RightSide(row.direction, row.financing, sRef)
    ensures Trusted(row, sRef) && row.leverage * Moneyness(row.financing, sRef) == sRef
    ensures DeriveRatio(DEFAULT, row, price, sRef, Some("USD"), Some(fx)) == QuantoAmbiguous
  {
    hide Deviation, TryFx, DeriveRatio, Clash, GRID;
    GridPositive(g);
    GridPositive(h);
    price := Max(0.94 * g, 0.94 * h / fx);
    row, sRef := Row("", "", Long, 39.0, 39.0, 40.0, Some(price), None, false), 40.0;
    ClashWitness(fx, g, h, price);
    assert price * 1.0 == price;
    AttemptAtForty(row, price, 1.0, g);
    AttemptAtForty(row, price, fx, h);
    BothVerifiedAmbiguous(row, price, sRef, fx);
  }

  lemma BothVerifiedAmbiguous(row: Row, price: real, sRef: real, fx: real)
    requires sRef > 0.0 && fx > 0.0
    requires TryFx(DEFAULT, row, price, sRef, 1.0, true).verified && TryFx(DEFAULT, row, price, sRef, fx, true).verified
    ensures DeriveRatio(DEFAULT, row, price, sRef, Some("USD"), Some(fx)) == QuantoAmbiguous
  {
    hide TryFx;
  }

  lemma AttemptAtForty(row: Row, price: real, fx: real, g: real)
    requires row.direction == Long && row.financing == 39.0 && row.leverage == 40.0
    requires fx > 0.0 && g in GRID && g > 0.0 && Deviation(price * fx, g) <= 0.06
    ensures TryFx(DEFAULT, row, price, 40.0, fx, true).ratio == Some(g)
    ensures TryFx(DEFAULT, row, price, 40.0, fx, true).verified
  {
    hide Deviation, Snap, AttemptRatio, GRID;
    assert ScaledSnapTolerance(40.0, DEFAULT) == 0.06 && ScaledSpotTolerance(40.0, DEFAULT) == 0.0015;
    assert RawRatio(price, fx, 1.0) == price * fx;
    SnapWithin(price * fx, g, 0.06);
    VerificationIdentity(Long, 39.0, price, 40.0, fx, 0.06, 0.0015, g);
  }

  lemma ClashWitness(fx: real, g: real, h: real, price: real)
    requires fx > 0.0 && g > 0.0 && h > 0.0 && Clash(fx, g, h)
    requires price == Max(0.94 * g, 0.94 * h / fx)
    ensures Deviation(price, g) <= 0.06 && Deviation(price * fx, h) <= 0.06
  {
    hide Deviation, Max;
    MeetingPoint(fx, g, h, price);
    DeviationAtMost(price, g, 0.06);
    DeviationAtMost(price * fx, h, 0.06);
  }

  ghost predicate AmbiguousRow(row: Row, price: real, sRef: real, fx: real) {
    && fx > 0.0 && sRef > 0.0 && Trusted(row, sRef)
    && DeriveRatio(DEFAULT, row, price, sRef, Some("USD"), Some(fx)) == QuantoAmbiguous
  }

  // Exactly which exchange rates can leave a product ambiguous, over all trusted rows.
  lemma AmbiguityIffClash(fx: real)
    requires fx > 0.0
    ensures (exists row, price, sRef :: AmbiguousRow(row, price, sRef, fx)) <==> !ClashFree(fx)
  {
    if exists row, price, sRef :: AmbiguousRow(row, price, sRef, fx) {
      var row, price, sRef :| AmbiguousRow(row, price, sRef, fx);
      AmbiguousNeedsClash(row, price, sRef, fx);
    }
    if !ClashFree(fx) {
      var g, h :| g in GRID && h in GRID && Clash(fx, g, h);
      var row, price, sRef := ClashIsAmbiguous(fx, g, h);
      assert AmbiguousRow(row, price, sRef, fx);
    }
  }

  // A second, clash-free hypothesis never takes an accepted quanto product away.
  lemma HintKeepsQuanto(row: Row, price: real, sRef: real, fx: real, currency: Option<string>)
    requires sRef > 0.0 && fx > 0.0 && Trusted(row, sRef) && ClashFree(fx)
    ensures var before := DeriveRatio(DEFAULT, row, price, sRef, currency, None);
            before.Derived? ==> DeriveRatio(DEFAULT, row, price, sRef, currency, Some(fx)) == before
  {
    if NeedsFx(currency) && TryFx(DEFAULT, row, price, sRef, 1.0, true).verified {
      if TryFx(DEFAULT, row, price, sRef, fx, true).verified { AmbiguousNeedsClash(row, price, sRef, fx); }
    }
  }

  // ---- Which rows a clash-free rate can still leave ambiguous ----

  const LOWEST := 0.0001

  // The smallest grid value is the only one a raw ratio up to half as large again can snap to.
  lemma SnapLowest(q: real, tol: real)
    requires 0.0 < q <= 1.5 && Abs(q - 1.0) <= tol
    ensures LOWEST in GRID && Deviation(q * LOWEST, LOWEST) == Abs(q - 1.0)
    ensures Snap(q * LOWEST, tol) == Some(LOWEST)
  {
    hide Snap;
    assert GRID[13] == LOWEST;
    QuotientUnique(q * LOWEST, LOWEST, q);
    DeviationAsQuotient(q * LOWEST, LOWEST);
    LowestIsNearest(q);
    SnapIsNearest(q * LOWEST, tol, LOWEST);
  }

  lemma LowestIsNearest(q: real)
    requires 0.0 < q <= 1.5
    ensures IsNearest(q * LOWEST, LOWEST)
  {
    hide Deviation, GRID;
    assert LOWEST in GRID by { LowestInGrid(); }
    QuotientUnique(q * LOWEST, LOWEST, q);
    DeviationAsQuotient(q * LOWEST, LOWEST);
    forall h | h in GRID && h != LOWEST
      ensures h > LOWEST && Deviation(q * LOWEST, LOWEST) < Deviation(q * LOWEST, h)
    {
      AboveLowest(h);
      NearerLow(q, h);
      DeviationAtMost(q * LOWEST, h, Abs(q - 1.0));
    }
  }

  lemma LowestInGrid()
    ensures LOWEST in GRID
  {
    assert GRID[13] == LOWEST;
  }

  lemma AboveLowest(h: real)
    requires h in GRID && h != LOWEST
    ensures h >= 10.0 * LOWEST
  {
  }

  // One hypothesis under which the price is q times the value of the smallest ratio.
  lemma LowestAttempt(row: Row, price: real, sRef: real, fx: real, q: real)
    requires sRef > 0.0 && fx > 0.0 && Moneyness(row.financing, sRef) > 0.0
    requires Explicable(row, sRef, q) && price * fx == q * LOWEST * Moneyness(row.financing, sRef)
    ensures TryFx(DEFAULT, row, price, sRef, fx, true).verified
  {
    hide Snap, GRID, Deviation, AttemptRatio, ScaledSnapTolerance, ScaledSpotTolerance;
    var m := Moneyness(row.financing, sRef);
    QuotientUnique(price * fx, m, q * LOWEST);
    QuotientUnique(q * LOWEST, LOWEST, q);
    SnapLowest(q, ScaledSnapTolerance(row.leverage, DEFAULT));
    VerificationIdentity(row.direction, row.financing, price, sRef, fx, ScaledSnapTolerance(row.leverage, DEFAULT),
                         ScaledSpotTolerance(row.leverage, DEFAULT), LOWEST);
  }

  // How far off the implied spot is, in distances to the financing level.
  function Excess(right: bool, q: real): real {
    if right then Abs(q - 1.0) else 1.0 + q
  }

  // A price of q times the value of some ratio passes the row's snap and spot tolerances.
  predicate Explicable(row: Row, sRef: real, q: real) {
    && 0.0 < q <= 1.5 && Abs(q - 1.0) <= ScaledSnapTolerance(row.leverage, DEFAULT)
    && Excess(RightSide(row.direction, row.financing, sRef), q) * Moneyness(row.financing, sRef)
       <= ScaledSpotTolerance(row.leverage, DEFAULT) * sRef
  }

  function SplitPrice(row: Row, sRef: real, q: real): real {
    q * LOWEST * Moneyness(row.financing, sRef)
  }

  // Two such multiples more than 53/47 apart make the row ambiguous at the clash-free rate between them.
  lemma SplitIsAmbiguous(row: Row, sRef: real, q: real, q': real)
    requires sRef > 0.0 && Moneyness(row.financing, sRef) > 0.0
    requires Explicable(row, sRef, q) && Explicable(row, sRef, q')
    requires 53.0 * q < 47.0 * q' && 53.0 * q' < 94.0 * q
    ensures AmbiguousWhenApart(row, SplitPrice(row, sRef, q), sRef, q' / q)
  {
    hide Explicable, TryFx, DeriveRatio, ClashFree;
    var price, fx, m := SplitPrice(row, sRef, q), q' / q, Moneyness(row.financing, sRef);
    assert q > 0.0 by { ExplicablePositive(row, sRef, q); }
    QuotientOrder(q', q, 53.0 / 47.0);
    QuotientOrder(q', q, 94.0 / 53.0);
    RealisticFxIsClashFree(fx);
    assert price * 1.0 == price;
    LowestAttempt(row, price, sRef, 1.0, q);
    QuotientTimes(q', q);
    assert price * fx == fx * q * (LOWEST * m) == q' * LOWEST * m;
    LowestAttempt(row, price, sRef, fx, q');
    BothVerifiedAmbiguous(row, price, sRef, fx);
  }

  lemma ExplicablePositive(row: Row, sRef: real, q: real)
    requires Explicable(row, sRef, q)
    ensures q > 0.0
  {
  }

  ghost predicate AmbiguousWhenApart(row: Row, price: real, sRef: real, fx: real)
    requires sRef > 0.0
  {
    fx > 0.0 && ClashFree(fx) && DeriveRatio(DEFAULT, row, price, sRef, Some("USD"), Some(fx)) == QuantoAmbiguous
  }

  // The rows whose tolerances admit two prices more than 53/47 apart. On the wrong side of the financing
  // level the implied spot is off by more than the whole distance, which must then be within tolerance.
  predicate Stretchable(row: Row, sRef: real) {
    var m, snapTol := Moneyness(row.financing, sRef), ScaledSnapTolerance(row.leverage, DEFAULT);
    && m > 0.0 && row.leverage > 40.0
    && if RightSide(row.direction, row.financing, sRef) then row.leverage * m < sRef
       else (1.0 + 53.0 / 47.0 * (1.0 - snapTol)) * m < ScaledSpotTolerance(row.leverage, DEFAULT) * sRef
  }

  lemma StretchableSplit(row: Row, sRef: real) returns (q: real, q': real)
    requires sRef > 0.0 && Stretchable(row, sRef)
    ensures Explicable(row, sRef, q) && Explicable(row, sRef, q') && 53.0 * q < 47.0 * q' && 53.0 * q' < 94.0 * q
  {
    hide ScaledSnapTolerance, ScaledSpotTolerance, Moneyness, Excess, Stretchable;
    var m, right := Moneyness(row.financing, sRef), RightSide(row.direction, row.financing, sRef);
    StretchableRoom(row, sRef);
    q, q' := SplitWithin(right, ScaledSnapTolerance(row.leverage, DEFAULT), Room(row, sRef));
    ExcessWithin(right, q, Room(row, sRef));
    ExcessWithin(right, q', Room(row, sRef));
    QuotientOrder(ScaledSpotTolerance(row.leverage, DEFAULT) * sRef, m, Excess(right, q));
    QuotientOrder(ScaledSpotTolerance(row.leverage, DEFAULT) * sRef, m, Excess(right, q'));
  }

  lemma ExcessWithin(right: bool, q: real, room: real)
    requires if right then Abs(q - 1.0) <= room else 1.0 + q <= room
    ensures Excess(right, q) <= room
  {
  }

  // The spot tolerance in distances to the financing level.
  function Room(row: Row, sRef: real): real
    requires Moneyness(row.financing, sRef) > 0.0
  {
    ScaledSpotTolerance(row.leverage, DEFAULT) * sRef / Moneyness(row.financing, sRef)
  }

  lemma StretchableRoom(row: Row, sRef: real)
    requires sRef > 0.0 && Stretchable(row, sRef)
    ensures Moneyness(row.financing, sRef) > 0.0 && 0.06 < ScaledSnapTolerance(row.leverage, DEFAULT) <= 0.5
    ensures if RightSide(row.direction, row.financing, sRef) then 0.06 < Room(row, sRef)
            else 1.0 + 53.0 / 47.0 * (1.0 - ScaledSnapTolerance(row.leverage, DEFAULT)) < Room(row, sRef)
  {
    hide ScaledSnapTolerance, ScaledSpotTolerance, Moneyness, RightSide;
    var m, spotTol := Moneyness(row.financing, sRef), ScaledSpotTolerance(row.leverage, DEFAULT);
    HighTolerances(row.leverage);
    if RightSide(row.direction, row.financing, sRef) {
      RoomOfUntrusted(row.leverage, m, sRef, spotTol);
      RoomAbove(row, sRef, 0.06);
    } else {
      RoomAbove(row, sRef, 1.0 + 53.0 / 47.0 * (1.0 - ScaledSnapTolerance(row.leverage, DEFAULT)));
    }
  }

  lemma RoomAbove(row: Row, sRef: real, t: real)
    requires Moneyness(row.financing, sRef) > 0.0
    requires t * Moneyness(row.financing, sRef) < ScaledSpotTolerance(row.leverage, DEFAULT) * sRef
    ensures t < Room(row, sRef)
  {
    hide Moneyness, ScaledSpotTolerance;
    QuotientOrder(ScaledSpotTolerance(row.leverage, DEFAULT) * sRef, Moneyness(row.financing, sRef), t);
  }

  lemma StretchableApart(row: Row, sRef: real)
    requires Stretchable(row, sRef)
    ensures Moneyness(row.financing, sRef) > 0.0
  {
  }

  lemma HighTolerances(leverage: real)
    requires leverage > 40.0
    ensures 0.06 < ScaledSnapTolerance(leverage, DEFAULT) <= 0.5
    ensures ScaledSpotTolerance(leverage, DEFAULT) * leverage == 0.06
  {
    QuotientTimes(0.003, leverage / 20.0);
  }

  lemma RoomOfUntrusted(leverage: real, m: real, sRef: real, spotTol: real)
    requires leverage > 0.0 && spotTol * leverage == 0.06 && leverage * m < sRef
    ensures 0.06 * m < spotTol * sRef
  {
    ProductSign(-spotTol, leverage);
    assert -spotTol * leverage == -0.06;
    ScaleLess(spotTol, leverage * m, sRef);
    assert spotTol * (leverage * m) == 0.06 * m;
  }

  lemma AmbiguousIsStretchable(row: Row, price: real, sRef: real, fx: real)
    requires sRef > 0.0 && AmbiguousWhenApart(row, price, sRef, fx)
    ensures Stretchable(row, sRef)
  {
    hide ClashFree, Moneyness, ScaledSnapTolerance, ScaledSpotTolerance, TryFx;
    assert TryFx(DEFAULT, row, price, sRef, 1.0, true).verified && TryFx(DEFAULT, row, price, sRef, fx, true).verified;
    if Trusted(row, sRef) { AmbiguousNeedsClash(row, price, sRef, fx); }
    WrongSideExcess(row, price, sRef, fx);
  }

  lemma WrongSideExcess(row: Row, price: real, sRef: real, fx: real)
    requires sRef > 0.0 && fx > 0.0 && ClashFree(fx)
    requires TryFx(DEFAULT, row, price, sRef, 1.0, true).verified && TryFx(DEFAULT, row, price, sRef, fx, true).verified
    ensures var m := Moneyness(row.financing, sRef);
            m > 0.0 && (!RightSide(row.direction, row.financing, sRef) ==>
              (1.0 + 53.0 / 47.0 * (1.0 - ScaledSnapTolerance(row.leverage, DEFAULT))) * m
              < ScaledSpotTolerance(row.leverage, DEFAULT) * sRef)
  {
    hide TryFx, ClashFree, Moneyness, ScaledSnapTolerance, ScaledSpotTolerance, RawRatio, Clash, GRID, RightSide;
    var m := Moneyness(row.financing, sRef);
    var g, q := VerifiedExcess(row, price, sRef, 1.0);
    var h, q' := VerifiedExcess(row, price, sRef, fx);
    if !RightSide(row.direction, row.financing, sRef) {
      NeverClash(fx, g, h);
      ApartQuotients(price, fx, m, g, h);
      LargerExcess(q, q', 1.0 - ScaledSnapTolerance(row.leverage, DEFAULT), m,
                   ScaledSpotTolerance(row.leverage, DEFAULT) * sRef);
    }
  }

  lemma NeverClash(fx: real, g: real, h: real)
    requires ClashFree(fx) && g in GRID && h in GRID
    ensures !Clash(fx, g, h)
  {
  }

  // What a verified attempt says about the quotient of raw ratio and returned ratio.
  lemma VerifiedExcess(row: Row, price: real, sRef: real, fx: real) returns (g: real, q: real)
    requires sRef > 0.0 && fx > 0.0 && TryFx(DEFAULT, row, price, sRef, fx, true).verified
    ensures var m := Moneyness(row.financing, sRef);
            && m > 0.0 && g in GRID && g > 0.0 && RawRatio(price, fx, m) > 0.0 && q == RawRatio(price, fx, m) / g
            && 1.0 - ScaledSnapTolerance(row.leverage, DEFAULT) <= q
            && Excess(RightSide(row.direction, row.financing, sRef), q) * m
               <= ScaledSpotTolerance(row.leverage, DEFAULT) * sRef
  {
    hide Deviation, AttemptRatio, RawRatio, Moneyness, ScaledSnapTolerance, ScaledSpotTolerance, RightSide, GRID;
    var snapTol, spotTol := ScaledSnapTolerance(row.leverage, DEFAULT), ScaledSpotTolerance(row.leverage, DEFAULT);
    VerifiedBounds(row.direction, row.financing, price, sRef, fx, snapTol, spotTol);
    var raw := RawRatio(price, fx, Moneyness(row.financing, sRef));
    g := TryFx(DEFAULT, row, price, sRef, fx, true).ratio.value;
    q := raw / g;
    DeviationAsQuotient(raw, g);
  }

  lemma ApartQuotients(price: real, fx: real, m: real, g: real, h: real)
    requires fx > 0.0 && m > 0.0 && g > 0.0 && h > 0.0 && !Clash(fx, g, h)
    requires RawRatio(price, 1.0, m) > 0.0 && RawRatio(price, fx, m) > 0.0
    ensures var q, q' := RawRatio(price, 1.0, m) / g, RawRatio(price, fx, m) / h;
            53.0 * q < 47.0 * q' || 53.0 * q' < 47.0 * q
  {
    hide RawRatio, Touches;
    var raw, raw' := RawRatio(price, 1.0, m), RawRatio(price, fx, m);
    var q, q' := raw / g, raw' / h;
    RawAtFx(price, fx, m);
    QuotientTimes(raw, g);
    QuotientTimes(raw', h);
    QuotientOrder(raw, g, 0.0);
    QuotientOrder(raw', h, 0.0);
    assert q * (fx * g) == q * g * fx == q' * h;
    ProductSign(fx, g);
    if 53.0 * q >= 47.0 * q' && 53.0 * q' >= 47.0 * q { SharedProduct(q, fx * g, q', h); }
  }

  // Exactly which rows some price can leave ambiguous although no two ratios clash at the rate.
  lemma AmbiguousWhenApartIff(row: Row, sRef: real)
    requires sRef > 0.0
    ensures (exists price, fx :: AmbiguousWhenApart(row, price, sRef, fx)) <==> Stretchable(row, sRef)
  {
    hide Stretchable, AmbiguousWhenApart;
    forall price, fx | AmbiguousWhenApart(row, price, sRef, fx) ensures Stretchable(row, sRef) {
      AmbiguousIsStretchable(row, price, sRef, fx);
    }
    if Stretchable(row, sRef) {
      StretchableApart(row, sRef);
      var q, q' := StretchableSplit(row, sRef);
      SplitIsAmbiguous(row, sRef, q, q');
    }
  }

  // On the right side of the financing level these are exactly the rows that are not trusted.
  lemma TrustIff(row: Row, sRef: real)
    requires sRef > 0.0 && RightSide(row.direction, row.financing, sRef)
    ensures (exists price, fx :: AmbiguousWhenApart(row, price, sRef, fx)) <==> !Trusted(row, sRef)
  {
    hide AmbiguousWhenApart, ScaledSnapTolerance, ScaledSpotTolerance;
    AmbiguousWhenApartIff(row, sRef);
  }

  // For instance a row quoted at a tenth of its geometric leverage, at fx = 1.25.
  lemma UnderstatedLeverageIsAmbiguous() returns (row: Row, price: real, sRef: real)
    ensures sRef > 0.0 && RightSide(row.direction, row.financing, sRef) && !Trusted(row, sRef)
    ensures ClashFree(1.25)
    ensures DeriveRatio(DEFAULT, row, price, sRef, Some("USD"), Some(1.25)) == QuantoAmbiguous
  {
    hide DeriveRatio, ClashFree;
    row, sRef := Row("", "", Long, 999.0, 999.0, 100.0, None, None, false), 1000.0;
    price := SplitPrice(row, sRef, 8.0 / 9.0);
    assert ScaledSnapTolerance(100.0, DEFAULT) == 0.15 && ScaledSpotTolerance(100.0, DEFAULT) == 0.0006;
    assert (10.0 / 9.0) / (8.0 / 9.0) == 1.25;
    SplitIsAmbiguous(row, sRef, 8.0 / 9.0, 10.0 / 9.0);
  }

  // ---- Single-hypothesis (EUR) products ----

  // A right-side EUR row quoted at its geometric leverage.
  ghost predicate GeometricRow(row: Row, sRef: real) {
    && sRef > 0.0 && row.leverage > 0.0
    && RightSide(row.direction, row.financing, sRef)
    && row.leverage * Moneyness(row.financing, sRef) == sRef
  }

  ghost predicate SnapsButFails(row: Row, price: real, sRef: real) {
    && GeometricRow(row, sRef)
    && DeriveRatio(DEFAULT, row, price, sRef, Some("EUR"), None) == VerificationFailed
  }

  lemma WithinSpotTolerance(d: real, m: real, leverage: real, sRef: real)
    requires m > 0.0 && leverage * m == sRef && d <= 0.003 * leverage
    ensures d * m <= 0.003 * sRef
  {
    ProductOrder(m, d, 0.003 * leverage);
    assert m * (0.003 * leverage) == 0.003 * sRef;
  }

  // From leverage ten upwards snapping alone decides a EUR row: verification never fails it.
  lemma EurSnapVerifies(row: Row, price: real, sRef: real)
    requires GeometricRow(row, sRef) && row.leverage >= 10.0
    ensures !SnapsButFails(row, price, sRef)
  {
    hide TryFx, DeriveRatio;
    EurOutcome(row, price, sRef);
    EurAttempt(row, price, sRef);
  }

  lemma EurOutcome(row: Row, price: real, sRef: real)
    requires sRef > 0.0
    ensures DeriveRatio(DEFAULT, row, price, sRef, Some("EUR"), None) == VerificationFailed <==>
            var a := TryFx(DEFAULT, row, price, sRef, 1.0, false); a.ratio.Some? && !a.verified
  {
    hide TryFx;
  }

  lemma EurAttempt(row: Row, price: real, sRef: real)
    requires GeometricRow(row, sRef) && row.leverage >= 10.0
    ensures var a := TryFx(DEFAULT, row, price, sRef, 1.0, false); a.ratio.Some? ==> a.verified
  {
    hide Deviation, RawRatio, Moneyness, ScaledSnapTolerance, Snap, IsNearest, GRID;
    GeometricApart(row, sRef);
    var m := Moneyness(row.financing, sRef);
    var raw, snapTol := RawRatio(price, 1.0, m), ScaledSnapTolerance(row.leverage, DEFAULT);
    if Snap(raw, snapTol).Some? {
      var g := Snap(raw, snapTol).value;
      GridPositive(g);
      SnapNeedsPositive(raw, snapTol, g);
      SnapIsNearest(raw, snapTol, g);
      VerificationIdentity(row.direction, row.financing, price, sRef, 1.0, snapTol, 0.003, g);
      DefaultTolerances(row.leverage);
      WithinSpotTolerance(Deviation(raw, g), m, row.leverage, sRef);
    }
  }

  lemma GeometricApart(row: Row, sRef: real)
    requires GeometricRow(row, sRef)
    ensures Moneyness(row.financing, sRef) > 0.0
  {
  }

  // Below ten it does fail some: ten is the exact bound.
  lemma EurVerificationBound(leverage: real)
    ensures (exists row: Row, price, sRef :: row.leverage == leverage && SnapsButFails(row, price, sRef)) <==>
            0.0 < leverage < 10.0
  {
    hide DeriveRatio, TryFx;
    forall row: Row, price, sRef | row.leverage == leverage && SnapsButFails(row, price, sRef)
      ensures 0.0 < leverage < 10.0
    {
      if leverage >= 10.0 { EurSnapVerifies(row, price, sRef); }
    }
    if 0.0 < leverage < 10.0 {
      var row := ThreePercentOff(leverage);
      EurOutcome(row, 1.03, leverage);
      assert SnapsButFails(row, 1.03, leverage);
    }
  }

  // One unit in the money and quoted three percent above a ratio of 1.
  lemma ThreePercentOff(leverage: real) returns (row: Row)
    requires 0.0 < leverage < 10.0
    ensures row.leverage == leverage && GeometricRow(row, leverage)
    ensures var a := TryFx(DEFAULT, row, 1.03, leverage, 1.0, false); a.ratio.Some? && !a.verified
  {
    hide Snap, Deviation, GRID, AttemptRatio;
    row := Row("", "", Short, leverage + 1.0, leverage + 1.0, leverage, Some(1.03), None, false);
    assert ScaledSnapTolerance(leverage, DEFAULT) == 0.03;
    assert RawRatio(1.03, 1.0, 1.0) == 1.03;
    DeviationAtMost(1.03, 1.0, 0.03);
    DeviationAtMost(1.03, 1.0, 1.0 / 3.0);
    OneIsRatio();
    SnapWithin(1.03, 1.0, 0.03);
    VerificationIdentity(Short, leverage + 1.0, 1.03, leverage, 1.0, 0.03, 0.003, 1.0);
  }

  lemma OneIsRatio()
    ensures 1.0 in GRID
  {
    assert GRID[3] == 1.0;
  }

  // ---- Exact recovery ----

  // The product is priced at its intrinsic value under ratio g and exchange rate fx.
  ghost predicate PricedAt(row: Row, price: real, sRef: real, g: real, fx: real) {
    g in GRID && GeometricRow(row, sRef) && fx > 0.0 && price * fx == g * Moneyness(row.financing, sRef)
  }

  lemma ExactAttempt(row: Row, price: real, sRef: real, g: real, fx: real, two: bool)
    requires PricedAt(row, price, sRef, g, fx)
    ensures TryFx(DEFAULT, row, price, sRef, fx, two) == Attempt(Some(g), true, Some(0.0))
  {
    hide Snap, GRID, Deviation, IsNearest, ImpliedUnderlying, ScaledSnapTolerance, ScaledSpotTolerance;
    var m := Moneyness(row.financing, sRef);
    GridPositive(g);
    DefaultTolerances(row.leverage);
    QuotientUnique(price * fx, m, g);
    SnapExact(g, ScaledSnapTolerance(row.leverage, DEFAULT));
    PositivePrice(price, fx, m);
    QuotientUnique(g, g, 1.0);
    ImpliedDistance(row.direction, row.financing, price, sRef, fx, g, 1.0);
  }

  ghost predicate NearRatio(p: real, h: real) {
    h > 0.0 && Deviation(p, h) <= 0.06
  }

  function Times(g: real, k: real): real {
    g * k
  }

  // The factor k takes grid ratio g to within six percent of h.
  ghost predicate Confused(k: real, g: real, h: real) {
    NearRatio(Times(g, k), h)
  }

  // At the factor k no grid ratio comes that close to another one, or to itself.
  ghost predicate Apart(k: real) {
    forall g, h :: g in GRID && h in GRID ==> !Confused(k, g, h)
  }

  // Inside the search band for rates these are the factors off 1/2, 1 and 2 by more than six percent.
  lemma ApartIff(k: real)
    requires 0.5 <= k <= 2.0
    ensures Apart(k) <==> 0.53 < k < 0.94 || 1.06 < k < 1.88
  {
    hide Confused;
    if 0.53 < k < 0.94 || 1.06 < k < 1.88 {
      forall g, h | g in GRID && h in GRID ensures !Confused(k, g, h) {
        FactorApart(g, h, k);
      }
    } else {
      FactorConfuses(k);
      assert GRID[4] == 0.5 && GRID[3] == 1.0 && GRID[2] == 2.0;
    }
  }

  lemma FactorConfuses(k: real)
    requires 0.5 <= k <= 0.53 || 0.94 <= k <= 1.06 || 1.88 <= k <= 2.0
    ensures Confused(k, 1.0, 0.5) || Confused(k, 1.0, 1.0) || Confused(k, 1.0, 2.0)
  {
    hide Deviation;
    DeviationAtMost(1.0 * k, 0.5, 0.06);
    DeviationAtMost(1.0 * k, 1.0, 0.06);
    DeviationAtMost(1.0 * k, 2.0, 0.06);
  }

  lemma TimesOff(g: real, k: real)
    requires g > 0.0 && (0.53 < k < 0.94 || 1.06 < k < 1.88)
    ensures Off(Times(g, k), g)
  {
    hide Off;
    ScaledOff(g, k);
  }

  lemma OffApart(g: real, h: real, p: real)
    requires g > 0.0 && h > 0.0 && (g == h || h >= 2.0 * g || g >= 2.0 * h) && Off(p, g)
    ensures !NearRatio(p, h)
  {
    hide Deviation, Abs, Off;
    OffIsFar(g, h, p);
    DeviationAtMost(p, h, 0.06);
  }

  lemma FactorApart(g: real, h: real, k: real)
    requires g in GRID && h in GRID && (0.53 < k < 0.94 || 1.06 < k < 1.88)
    ensures !Confused(k, g, h)
  {
    hide NearRatio, GRID, Off, Times;
    GridPositive(g);
    GridPositive(h);
    if g < h { GridApart(g, h); }
    if h < g { GridApart(h, g); }
    TimesOff(g, k);
    OffApart(g, h, Times(g, k));
  }

  // An exactly priced product does not verify at a rate that takes its price apart from every ratio.
  lemma ApartFails(row: Row, price: real, sRef: real, g: real, fx: real, other: real)
    requires PricedAt(row, price, sRef, g, fx) && other > 0.0 && Apart(other / fx)
    ensures !TryFx(DEFAULT, row, price, sRef, other, true).verified
  {
    hide TryFx, Confused;
    if TryFx(DEFAULT, row, price, sRef, other, true).verified {
      var h := VerifiedConfuses(row, price, sRef, g, fx, other);
    }
  }

  lemma VerifiedConfuses(row: Row, price: real, sRef: real, g: real, fx: real, other: real) returns (h: real)
    requires PricedAt(row, price, sRef, g, fx) && other > 0.0
    requires TryFx(DEFAULT, row, price, sRef, other, true).verified
    ensures h in GRID && Confused(other / fx, g, h)
  {
    hide Deviation, TryFx, RawRatio;
    h := TryFx(DEFAULT, row, price, sRef, other, true).ratio.value;
    VerifiedIsNear(row, price, sRef, other);
    RawAtOther(price, Moneyness(row.financing, sRef), g, fx, other);
  }

  lemma RawAtOther(price: real, m: real, g: real, fx: real, other: real)
    requires m > 0.0 && fx > 0.0 && price * fx == g * m
    ensures RawRatio(price, other, m) == g * (other / fx)
  {
    QuotientTimes(other, fx);
    var k := other / fx;
    assert price * other == price * (k * fx) == k * (price * fx) == g * k * m;
    QuotientUnique(price * other, m, g * k);
  }

  // Every exactly priced product comes back with its own ratio and currency type, under a hint that keeps
  // the two hypotheses apart where there is one.
  lemma ExactDerivation(row: Row, price: real, sRef: real, currency: Option<string>, g: real,
                        quanto: bool, fx: Option<real>)
    requires fx.Some? ==> fx.value > 0.0
    requires fx.Some? && NeedsFx(currency) ==> Apart(if quanto then fx.value else 1.0 / fx.value)
    requires !quanto ==> fx.Some? && NeedsFx(currency)
    requires PricedAt(row, price, sRef, g, if quanto then 1.0 else fx.value)
    ensures DeriveRatio(DEFAULT, row, price, sRef, currency, fx) ==
            Derived(g, if NeedsFx(currency) then Some(quanto) else None)
  {
    hide Apart, TryFx, PricedAt;
    if quanto {
      ExactAttempt(row, price, sRef, g, 1.0, NeedsFx(currency));
      if fx.Some? && NeedsFx(currency) {
        assert fx.value / 1.0 == fx.value;
        ApartFails(row, price, sRef, g, 1.0, fx.value);
      }
    } else {
      ExactAttempt(row, price, sRef, g, fx.value, true);
      ApartFails(row, price, sRef, g, fx.value, 1.0);
    }
  }

  ghost predicate ExactlyDerived(row: Row, price: real, sRef: real, g: real, quanto: bool, fx: real)
    requires fx > 0.0
  {
    PricedAt(row, price, sRef, g, if quanto then 1.0 else fx) ==>
      DeriveRatio(DEFAULT, row, price, sRef, Some("USD"), Some(fx)) == Derived(g, Some(quanto))
  }

  // A rate brings every exactly priced product back exactly iff neither the rate nor its inverse takes one
  // grid ratio to within six percent of another.
  lemma ExactDerivationIff(fx: real)
    requires fx > 0.0
    ensures (forall row, price, sRef, g, quanto :: ExactlyDerived(row, price, sRef, g, quanto, fx))
       <==> Apart(fx) && Apart(1.0 / fx)
  {
    hide Apart, ExactlyDerived;
    if Apart(fx) && Apart(1.0 / fx) {
      forall row, price, sRef, g, quanto ensures ExactlyDerived(row, price, sRef, g, quanto, fx) {
        ApartDerives(row, price, sRef, g, quanto, fx);
      }
    } else {
      var quanto := !Apart(fx);
      var g, h := NotApart(if quanto then fx else 1.0 / fx);
      var row := ConfusedRow(g, h, quanto, fx);
      ConfusedIsAmbiguous(row, g, quanto, fx);
    }
  }

  lemma ApartDerives(row: Row, price: real, sRef: real, g: real, quanto: bool, fx: real)
    requires fx > 0.0 && Apart(fx) && Apart(1.0 / fx)
    ensures ExactlyDerived(row, price, sRef, g, quanto, fx)
  {
    hide Apart, DeriveRatio, PricedAt;
    if PricedAt(row, price, sRef, g, if quanto then 1.0 else fx) {
      ExactDerivation(row, price, sRef, Some("USD"), g, quanto, Some(fx));
    }
  }

  lemma NotApart(k: real) returns (g: real, h: real)
    requires !Apart(k)
    ensures g in GRID && h in GRID && Confused(k, g, h)
  {
    hide Confused, GRID;
    g, h :| g in GRID && h in GRID && Confused(k, g, h);
  }

  // The price of an exact product of ratio g at 1 from its financing level.
  function UnitPrice(g: real, quanto: bool, fx: real): real
    requires fx > 0.0
  {
    if quanto then g else g / fx
  }

  lemma UnitPriceTimes(g: real, quanto: bool, fx: real)
    requires fx > 0.0
    ensures Times(UnitPrice(g, quanto, fx), 1.0) == if quanto then g else Times(g, 1.0 / fx)
    ensures Times(UnitPrice(g, quanto, fx), fx) == if quanto then Times(g, fx) else g
  {
    QuotientTimes(g, fx);
    QuotientUnique(g, fx, g * (1.0 / fx));
  }

  lemma GridIsNearItself(g: real)
    requires g in GRID
    ensures NearRatio(g, g)
  {
    GridPositive(g);
    DeviationAtMost(g, g, 0.06);
  }

  // A row at leverage 40 and one unit in the money, whose price is near h at the rate fx.
  lemma NearAtForty(row: Row, price: real, fx: real, h: real)
    requires row.direction == Long && row.financing == 39.0 && row.leverage == 40.0
    requires fx > 0.0 && h in GRID && NearRatio(Times(price, fx), h)
    ensures TryFx(DEFAULT, row, price, 40.0, fx, true).verified
  {
    hide TryFx, Deviation, GRID;
    AttemptAtForty(row, price, fx, h);
  }

  lemma UnitPriced(row: Row, g: real, quanto: bool, fx: real)
    requires g in GRID && fx > 0.0 && row == UnitRow(UnitPrice(g, quanto, fx))
    ensures PricedAt(row, UnitPrice(g, quanto, fx), 40.0, g, if quanto then 1.0 else fx)
  {
    hide GRID, GeometricRow;
    ForegroundRow(row);
    UnitPriceScaled(g, quanto, fx);
    var price := UnitPrice(g, quanto, fx);
    assert g * Moneyness(39.0, 40.0) == g by { assert Moneyness(39.0, 40.0) == 1.0; }
  }

  lemma ForegroundRow(row: Row)
    requires row.direction == Long && row.financing == 39.0 && row.leverage == 40.0
    ensures GeometricRow(row, 40.0)
  {
  }

  lemma UnitPriceScaled(g: real, quanto: bool, fx: real)
    requires fx > 0.0
    ensures UnitPrice(g, quanto, fx) * (if quanto then 1.0 else fx) == g
  {
    QuotientTimes(g, fx);
  }

  // A product at leverage 40, one unit in the money, quoted at one price.
  function UnitRow(price: real): (row: Row)
    ensures row.MidPrice() == Some(price)
  {
    Row("", "", Long, 39.0, 39.0, 40.0, Some(price), None, false)
  }

  // An exactly priced row that verifies under both hypotheses.
  lemma ConfusedRow(g: real, h: real, quanto: bool, fx: real) returns (row: Row)
    requires g in GRID && h in GRID && fx > 0.0 && Confused(if quanto then fx else 1.0 / fx, g, h)
    ensures row == UnitRow(UnitPrice(g, quanto, fx))
    ensures PricedAt(row, UnitPrice(g, quanto, fx), 40.0, g, if quanto then 1.0 else fx)
    ensures TryFx(DEFAULT, row, UnitPrice(g, quanto, fx), 40.0, 1.0, true).verified
    ensures TryFx(DEFAULT, row, UnitPrice(g, quanto, fx), 40.0, fx, true).verified
  {
    hide TryFx, NearRatio, UnitPrice, Times, PricedAt, GRID;
    var price := UnitPrice(g, quanto, fx);
    row := UnitRow(price);
    UnitPriced(row, g, quanto, fx);
    UnitPriceTimes(g, quanto, fx);
    GridIsNearItself(g);
    NearAtForty(row, price, 1.0, if quanto then g else h);
    NearAtForty(row, price, fx, if quanto then h else g);
  }

  lemma ConfusedIsAmbiguous(row: Row, g: real, quanto: bool, fx: real)
    requires fx > 0.0 && PricedAt(row, UnitPrice(g, quanto, fx), 40.0, g, if quanto then 1.0 else fx)
    requires TryFx(DEFAULT, row, UnitPrice(g, quanto, fx), 40.0, 1.0, true).verified
    requires TryFx(DEFAULT, row, UnitPrice(g, quanto, fx), 40.0, fx, true).verified
    ensures !ExactlyDerived(row, UnitPrice(g, quanto, fx), 40.0, g, quanto, fx)
  {
    hide TryFx, PricedAt, UnitPrice;
  }
}
