/**
The ratio-independent reference spot of the gettex adapter: `_spot_from_leverage`
and `_robust_reference_spot` in src/turboedge/adapters/gettex.py.
*/
module ReferenceSpot {
  import opened Medians
  import opened Reals
  import opened Sequences
  import opened Wrappers

  datatype Direction = Long | Short

  // In the money: the spot is on the right side of the financing level.
  predicate RightSide(direction: Direction, financing: real, spot: real) {
    match direction
    case Long => financing < spot
    case Short => spot < financing
  }

  // Inverts leverage == spot / |spot - financing|; None for a degenerate input.
  function SpotFromLeverage(direction: Direction, financing: real, leverage: real): (spot: Option<real>)
  {
    if leverage <= 0.0 || financing <= 0.0 then None
    else
      match direction
      case Long =>
        var denominator := leverage - 1.0;
        if denominator <= 0.0 then None else Some(financing * leverage / denominator)
      case Short =>
        Some(financing * leverage / (leverage + 1.0))
  }

  // The inversion is exact: it yields S precisely when the leverage identity holds at S,
  // with S on the right side of the financing level.
  lemma SpotFromLeverageInverts(direction: Direction, financing: real, leverage: real, spot: real)
    ensures SpotFromLeverage(direction, financing, leverage) == Some(spot) <==>
            && financing > 0.0 && leverage > 0.0
            && RightSide(direction, financing, spot) && spot > 0.0
            && leverage * Abs(spot - financing) == spot
  {
    if financing > 0.0 && leverage > 0.0 {
      match direction
      case Long =>
        if leverage > 1.0 { LongInverts(financing, leverage, spot); }
        if leverage <= 1.0 && spot > financing { LongDegenerate(leverage, spot, Abs(spot - financing)); }
      case Short => ShortInverts(financing, leverage, spot);
    }
  }

  lemma LongDegenerate(leverage: real, spot: real, distance: real)
    requires 0.0 < distance < spot && leverage <= 1.0
    ensures leverage * distance < spot
  {
    ScaleDown(leverage, distance);
  }

  lemma LongInverts(financing: real, leverage: real, spot: real)
    requires financing > 0.0 && leverage > 1.0
    ensures financing * leverage / (leverage - 1.0) == spot <==>
            financing < spot && leverage * (spot - financing) == spot
  {
    var q := financing * leverage / (leverage - 1.0);
    QuotientTimes(financing * leverage, leverage - 1.0);
    assert q * (leverage - 1.0) == leverage * q - q;
    ProductOrder(financing, leverage - 1.0, leverage);
    QuotientOrder(financing * leverage, leverage - 1.0, financing);
    if leverage * (spot - financing) == spot {
      assert spot * (leverage - 1.0) == financing * leverage;
      QuotientUnique(financing * leverage, leverage - 1.0, spot);
    }
  }

  lemma ShortInverts(financing: real, leverage: real, spot: real)
    requires financing > 0.0 && leverage > 0.0
    ensures financing * leverage / (leverage + 1.0) == spot <==>
            0.0 < spot < financing && leverage * (financing - spot) == spot
  {
    var q := financing * leverage / (leverage + 1.0);
    QuotientTimes(financing * leverage, leverage + 1.0);
    ProductSign(financing, leverage);
    assert q * (leverage + 1.0) == leverage * q + q;
    ProductOrder(financing, leverage, leverage + 1.0);
    QuotientOrder(financing * leverage, leverage + 1.0, financing);
    if leverage * (financing - spot) == spot {
      assert spot * (leverage + 1.0) == financing * leverage;
      QuotientUnique(financing * leverage, leverage + 1.0, spot);
    }
  }

  const MAD_TO_STD := 1.4826

  datatype Candidate = Candidate(spot: real, direction: Direction)

  datatype SpotEstimate = SpotEstimate(value: real, nUsed: nat, nRejected: nat, directionBalanced: bool)

  function Spots(cs: seq<Candidate>): (values: seq<real>) {
    Collect(cs, (c: Candidate) => Some(c.spot))
  }

  function Distances(cs: seq<Candidate>, center: real): (values: seq<real>) {
    Collect(cs, (c: Candidate) => Some(Abs(c.spot - center)))
  }

  function Accepted(cs: seq<Candidate>, center: real, threshold: real): (r: seq<Candidate>) {
    Collect(cs, (c: Candidate) => if Abs(c.spot - center) <= threshold then Some(c) else None)
  }

  function Side(cs: seq<Candidate>, direction: Direction): (values: seq<real>) {
    Collect(cs, (c: Candidate) => if c.direction == direction then Some(c.spot) else None)
  }

  lemma SpotsLength(cs: seq<Candidate>, center: real)
    ensures |Spots(cs)| == |Distances(cs, center)| == |cs|
  {
    CollectAll(cs, (c: Candidate) => Some(c.spot));
    CollectAll(cs, (c: Candidate) => Some(Abs(c.spot - center)));
  }

  // The median of the candidate spots, and their median distance from it (MAD).
  function Center(cs: seq<Candidate>): (m: real)
    requires cs != []
  {
    SpotsLength(cs, 0.0);
    Median(Spots(cs))
  }

  function Mad(cs: seq<Candidate>): (m: real)
    requires cs != []
  {
    SpotsLength(cs, Center(cs));
    Median(Distances(cs, Center(cs)))
  }

  function Threshold(center: real, mad: real, madK: real): real {
    var scaledMad := mad * MAD_TO_STD;
    if scaledMad == 0.0 then Max(Abs(center) * 0.000001, 0.000000001) else madK * scaledMad
  }

  // Averages the two directions' medians when both survived the filter.
  function Balanced(accepted: seq<Candidate>, fallback: real): (value: real) {
    var longs, shorts := Side(accepted, Long), Side(accepted, Short);
    if longs != [] && shorts != [] then (Median(longs) + Median(shorts)) / 2.0
    else if accepted != [] then Center(accepted) else fallback
  }

  // The candidates that survive the MAD filter.
  function Used(cs: seq<Candidate>, madK: real): (accepted: seq<Candidate>)
    requires cs != []
  {
    Accepted(cs, Center(cs), Threshold(Center(cs), Mad(cs), madK))
  }

  function RobustReferenceSpot(cs: seq<Candidate>, madK: real): (estimate: Option<SpotEstimate>) {
    if cs == [] then None
    else
      var accepted := Used(cs, madK);
      Some(SpotEstimate(Balanced(accepted, Center(cs)), |accepted|, |cs| - |accepted|,
                        Side(accepted, Long) != [] && Side(accepted, Short) != []))
  }

  // ---- What the filter keeps ----

  lemma {:induction false} AcceptedCount(cs: seq<Candidate>, center: real, threshold: real)
    ensures |Accepted(cs, center, threshold)| == CountIn(Distances(cs, center), 0.0, threshold)
  {
    if cs == [] {
    } else {
      AcceptedCount(cs[1..], center, threshold);
    }
  }

  lemma DistancesNonNegative(cs: seq<Candidate>, center: real)
    ensures forall i :: 0 <= i < |Distances(cs, center)| ==> 0.0 <= Distances(cs, center)[i]
  {
    CollectAll(cs, (c: Candidate) => Some(Abs(c.spot - center)));
  }

  lemma MadNonNegative(cs: seq<Candidate>)
    requires cs != []
    ensures Mad(cs) >= 0.0
  {
    var ds := Distances(cs, Center(cs));
    SpotsLength(cs, Center(cs));
    DistancesNonNegative(cs, Center(cs));
    if Mad(cs) < 0.0 {
      HalfAtMostMedian(ds, 0.0);
      CountInNone(ds, 0.0, Mad(cs));
    }
  }

  lemma {:induction false} CountInWider(s: seq<real>, lo: real, hi: real, wider: real)
    requires hi <= wider
    ensures CountIn(s, lo, hi) <= CountIn(s, lo, wider)
  {
    if s == [] {
    } else {
      CountInWider(s[1..], lo, hi, wider);
    }
  }

  // The MAD filter never discards more than half of the candidates, so its fallback is dead code.
  lemma FilterKeepsHalf(cs: seq<Candidate>, madK: real)
    requires cs != [] && madK * MAD_TO_STD >= 1.0
    ensures var e := RobustReferenceSpot(cs, madK).value;
            && 2 * e.nUsed >= |cs| && e.nUsed > 0
            && e.nUsed + e.nRejected == |cs|
  {
    var center, mad := Center(cs), Mad(cs);
    var threshold := Threshold(center, mad, madK);
    var ds := Distances(cs, center);
    SpotsLength(cs, center);
    MadNonNegative(cs);
    DistancesNonNegative(cs, center);
    HalfAtMostMedian(ds, 0.0);
    assert mad <= threshold by {
      if mad > 0.0 {
        ProductOrder(mad, 1.0, madK * MAD_TO_STD);
        assert madK * (mad * MAD_TO_STD) == mad * (madK * MAD_TO_STD);
      }
    }
    CountInWider(ds, 0.0, mad, threshold);
    AcceptedCount(cs, center, threshold);
  }

  // ---- Where the estimate can lie ----

  ghost predicate SpotsWithin(cs: seq<Candidate>, lo: real, hi: real) {
    forall i :: 0 <= i < |cs| ==> lo <= cs[i].spot <= hi
  }

  lemma SideWithin(cs: seq<Candidate>, direction: Direction, lo: real, hi: real)
    requires SpotsWithin(cs, lo, hi) && Side(cs, direction) != []
    ensures lo <= Median(Side(cs, direction)) <= hi
  {
    var f := (c: Candidate) => if c.direction == direction then Some(c.spot) else None;
    var values := Side(cs, direction);
    forall i | 0 <= i < |values| ensures lo <= values[i] <= hi {
      var k := CollectFrom(cs, f, i);
    }
    MedianWithin(values, lo, hi);
  }

  lemma CenterWithin(cs: seq<Candidate>, lo: real, hi: real)
    requires cs != [] && SpotsWithin(cs, lo, hi)
    ensures lo <= Center(cs) <= hi
  {
    SpotsLength(cs, 0.0);
    var f := (c: Candidate) => Some(c.spot);
    forall i | 0 <= i < |Spots(cs)| ensures lo <= Spots(cs)[i] <= hi {
      var k := CollectFrom(cs, f, i);
    }
    MedianWithin(Spots(cs), lo, hi);
  }

  lemma BalancedWithin(cs: seq<Candidate>, fallback: real, lo: real, hi: real)
    requires SpotsWithin(cs, lo, hi) && lo <= fallback <= hi
    ensures lo <= Balanced(cs, fallback) <= hi
  {
    if Side(cs, Long) != [] && Side(cs, Short) != [] {
      SideWithin(cs, Long, lo, hi);
      SideWithin(cs, Short, lo, hi);
    } else if cs != [] {
      CenterWithin(cs, lo, hi);
    }
  }

  // The estimate never leaves the range of the candidates.
  lemma EstimateWithinHull(cs: seq<Candidate>, madK: real, lo: real, hi: real)
    requires cs != [] && SpotsWithin(cs, lo, hi)
    ensures lo <= RobustReferenceSpot(cs, madK).value.value <= hi
  {
    var center := Center(cs);
    var threshold := Threshold(center, Mad(cs), madK);
    var f := (c: Candidate) => if Abs(c.spot - center) <= threshold then Some(c) else None;
    var accepted := Accepted(cs, center, threshold);
    forall i | 0 <= i < |accepted| ensures lo <= accepted[i].spot <= hi {
      var k := CollectFrom(cs, f, i);
    }
    CenterWithin(cs, lo, hi);
    BalancedWithin(accepted, center, lo, hi);
  }

  lemma {:induction false} DistancesOfInterval(cs: seq<Candidate>, center: real, lo: real, hi: real)
    requires lo <= center <= hi
    ensures CountIn(Distances(cs, center), 0.0, hi - lo) >= CountIn(Spots(cs), lo, hi)
  {
    if cs == [] {
    } else {
      DistancesOfInterval(cs[1..], center, lo, hi);
    }
  }

  // How far beyond [lo, hi] the estimate can be pulled by the minority.
  function Slack(madK: real, lo: real, hi: real, center: real): (t: real)
    ensures t > 0.0
  {
    Max(madK * MAD_TO_STD * (hi - lo), Max(Abs(center) * 0.000001, 0.000000001))
  }

  lemma ThresholdAtMostSlack(madK: real, lo: real, hi: real, center: real, mad: real)
    requires 0.0 <= mad <= hi - lo
    ensures Threshold(center, mad, madK) <= Slack(madK, lo, hi, center)
  {
    if mad > 0.0 {
      var p, c := mad * MAD_TO_STD, madK * MAD_TO_STD;
      assert Threshold(center, mad, madK) == madK * p;
      if madK > 0.0 {
        ProductOrder(c, mad, hi - lo);
        assert madK * p == c * mad;
      } else {
        ProductSign(-madK, p);
        assert (-madK) * p == -(madK * p);
      }
    }
  }

  // Breakdown point one half: a strict majority in [lo, hi] holds the estimate near [lo, hi],
  // whatever the minority claims and however longs and shorts are mixed.
  lemma BreakdownBound(cs: seq<Candidate>, madK: real, lo: real, hi: real)
    requires 2 * CountIn(Spots(cs), lo, hi) > |cs|
    ensures cs != [] && lo <= Center(cs) <= hi
    ensures var t := Slack(madK, lo, hi, Center(cs));
            lo - t <= RobustReferenceSpot(cs, madK).value.value <= hi + t
  {
    SpotsLength(cs, 0.0);
    MajorityPinsMedian(Spots(cs), lo, hi);
    var center, mad := Center(cs), Mad(cs);
    SpotsLength(cs, center);
    DistancesOfInterval(cs, center, lo, hi);
    MajorityPinsMedian(Distances(cs, center), 0.0, hi - lo);
    ThresholdAtMostSlack(madK, lo, hi, center, mad);
    var threshold, t := Threshold(center, mad, madK), Slack(madK, lo, hi, center);
    var f := (c: Candidate) => if Abs(c.spot - center) <= threshold then Some(c) else None;
    var accepted := Accepted(cs, center, threshold);
    forall i | 0 <= i < |accepted| ensures center - t <= accepted[i].spot <= center + t {
      var k := CollectFrom(cs, f, i);
    }
    BalancedWithin(accepted, center, center - t, center + t);
  }

  // ---- Longs and shorts weigh equally ----

  // How many candidates of one direction there are, and how many of them lie in [lo, hi].
  function Directed(cs: seq<Candidate>, direction: Direction): (n: nat) {
    if cs == [] then 0 else (if cs[0].direction == direction then 1 else 0) + Directed(cs[1..], direction)
  }

  function DirectedIn(cs: seq<Candidate>, direction: Direction, lo: real, hi: real): (n: nat) {
    if cs == [] then 0
    else (if cs[0].direction == direction && lo <= cs[0].spot <= hi then 1 else 0)
         + DirectedIn(cs[1..], direction, lo, hi)
  }

  lemma {:induction false} SideCounts(cs: seq<Candidate>, direction: Direction, lo: real, hi: real)
    ensures |Side(cs, direction)| == Directed(cs, direction)
    ensures CountIn(Side(cs, direction), lo, hi) == DirectedIn(cs, direction, lo, hi)
  {
    if cs == [] {
    } else {
      var rest := Side(cs[1..], direction);
      SideCounts(cs[1..], direction, lo, hi);
      assert Side(cs, direction) == if cs[0].direction == direction then [cs[0].spot] + rest else rest;
      assert ([cs[0].spot] + rest)[1..] == rest;
    }
  }

  lemma {:induction false} OneDirectionOnly(cs: seq<Candidate>, direction: Direction)
    requires Directed(cs, direction) == |cs|
    ensures Side(cs, direction) == Spots(cs)
    ensures forall other :: other != direction ==> Side(cs, other) == []
  {
    if cs == [] {
    } else {
      DirectedAtMost(cs[1..], direction);
      OneDirectionOnly(cs[1..], direction);
      forall other | other != direction ensures Side(cs, other) == [] {
        assert cs[0].direction == direction;
        assert Side(cs, other) == Side(cs[1..], other);
      }
    }
  }

  lemma {:induction false} DirectedAtMost(cs: seq<Candidate>, direction: Direction)
    ensures Directed(cs, direction) <= |cs|
  {
    if cs == [] {
    } else {
      DirectedAtMost(cs[1..], direction);
    }
  }

  // Of the surviving candidates, a majority of the longs in [a, b] and a majority of the shorts in [c, d] put
  // the estimate halfway between, however many there are of each.
  lemma SidesWeighEqually(cs: seq<Candidate>, madK: real, a: real, b: real, c: real, d: real)
    requires cs != []
    requires 2 * DirectedIn(Used(cs, madK), Long, a, b) > Directed(Used(cs, madK), Long)
    requires 2 * DirectedIn(Used(cs, madK), Short, c, d) > Directed(Used(cs, madK), Short)
    ensures (a + c) / 2.0 <= RobustReferenceSpot(cs, madK).value.value <= (b + d) / 2.0
    ensures RobustReferenceSpot(cs, madK).value.directionBalanced
  {
    hide Used, Median, CountIn, Directed, DirectedIn, Side;
    var used := Used(cs, madK);
    SideCounts(used, Long, a, b);
    SideCounts(used, Short, c, d);
    MajorityPinsMedian(Side(used, Long), a, b);
    MajorityPinsMedian(Side(used, Short), c, d);
  }

  // When only one direction survives, a majority of it in [a, b] holds the estimate there.
  lemma LoneSideDecides(cs: seq<Candidate>, madK: real, direction: Direction, a: real, b: real)
    requires cs != [] && Directed(Used(cs, madK), direction) == |Used(cs, madK)|
    requires 2 * DirectedIn(Used(cs, madK), direction, a, b) > |Used(cs, madK)|
    ensures a <= RobustReferenceSpot(cs, madK).value.value <= b
    ensures !RobustReferenceSpot(cs, madK).value.directionBalanced
  {
    hide Used, Median, CountIn, Directed, DirectedIn, Side, Spots;
    var used := Used(cs, madK);
    SideCounts(used, direction, a, b);
    OneDirectionOnly(used, direction);
    MajorityPinsMedian(Spots(used), a, b);
  }

  lemma {:induction false} AllDirectedIn(cs: seq<Candidate>, direction: Direction, lo: real, hi: real)
    requires forall c :: c in cs && c.direction == direction ==> lo <= c.spot <= hi
    ensures DirectedIn(cs, direction, lo, hi) == Directed(cs, direction)
    ensures (exists c :: c in cs && c.direction == direction) ==> Directed(cs, direction) > 0
  {
    if cs == [] {
    } else {
      assert cs == [cs[0]] + cs[1..];
      AllDirectedIn(cs[1..], direction, lo, hi);
    }
  }

  // In particular when nothing is rejected: all longs in [a, b], all shorts in [c, d], at least one of each.
  lemma UnfilteredBalance(cs: seq<Candidate>, madK: real, a: real, b: real, c: real, d: real)
    requires cs != [] && RobustReferenceSpot(cs, madK).value.nRejected == 0
    requires (exists x :: x in cs && x.direction == Long) && (exists x :: x in cs && x.direction == Short)
    requires forall x :: x in cs ==> if x.direction == Long then a <= x.spot <= b else c <= x.spot <= d
    ensures (a + c) / 2.0 <= RobustReferenceSpot(cs, madK).value.value <= (b + d) / 2.0
  {
    hide Center, Mad, Directed, DirectedIn, Balanced;
    var f := (x: Candidate) =>
      if Abs(x.spot - Center(cs)) <= Threshold(Center(cs), Mad(cs), madK) then Some(x) else None;
    CollectFull(cs, f);
    assert Used(cs, madK) == cs;
    AllDirectedIn(cs, Long, a, b);
    AllDirectedIn(cs, Short, c, d);
    SidesWeighEqually(cs, madK, a, b, c, d);
  }

  // A filter that drops nothing returns the list.
  lemma {:induction false} CollectFull(cs: seq<Candidate>, f: Candidate -> Option<Candidate>)
    requires |Collect(cs, f)| == |cs| && forall x :: f(x).Some? ==> f(x).value == x
    ensures Collect(cs, f) == cs
  {
    if cs == [] {
    } else {
      CollectFull(cs[1..], f);
    }
  }

  // The width of the filter, in the constants of the source.
  function Width(center: real, mad: real, madK: real): real {
    if mad == 0.0 then Max(Abs(center) * 0.000001, 0.000000001) else madK * 1.4826 * mad
  }

  // The survivors are exactly the candidates no further than that from the median spot, each as often as it
  // was given.
  lemma SurvivorsIff(cs: seq<Candidate>, madK: real, x: Candidate)
    requires cs != []
    ensures multiset(Used(cs, madK))[x] ==
            if Abs(x.spot - Center(cs)) <= Width(Center(cs), Mad(cs), madK) then multiset(cs)[x] else 0
  {
    hide Center, Mad, Width;
    var center, mad := Center(cs), Mad(cs);
    WidthIsThreshold(center, mad, madK);
    AcceptedTimes(cs, center, Threshold(center, mad, madK), x);
  }

  lemma WidthIsThreshold(center: real, mad: real, madK: real)
    ensures Width(center, mad, madK) == Threshold(center, mad, madK)
  {
  }

  lemma {:induction false} AcceptedTimes(cs: seq<Candidate>, center: real, threshold: real, x: Candidate)
    ensures multiset(Accepted(cs, center, threshold))[x] ==
            if Abs(x.spot - center) <= threshold then multiset(cs)[x] else 0
  {
    if cs == [] {
    } else {
      var rest := Accepted(cs[1..], center, threshold);
      AcceptedTimes(cs[1..], center, threshold, x);
      assert cs == [cs[0]] + cs[1..];
      assert Accepted(cs, center, threshold) ==
             if Abs(cs[0].spot - center) <= threshold then [cs[0]] + rest else rest;
    }
  }

  // ---- Half is not enough ----

  // n candidates followed by n others.
  function Halves(n: nat, good: Candidate, bad: Candidate): (cs: seq<Candidate>)
    ensures |cs| == 2 * n
  {
    seq(2 * n, i => if i < n then good else bad)
  }

  lemma CountInHalves(values: seq<real>, n: nat, lo: real, hi: real)
    requires |values| == 2 * n
    requires forall i :: 0 <= i < n ==> lo <= values[i] <= hi
    requires forall i :: n <= i < 2 * n ==> values[i] < lo || hi < values[i]
    ensures CountIn(values, lo, hi) == n
  {
    assert values == values[..n] + values[n..];
    CountInConcat(values[..n], values[n..], lo, hi);
    CountInAll(values[..n], lo, hi);
    CountInNone(values[n..], lo, hi);
  }

  lemma CountInOtherHalf(values: seq<real>, n: nat, lo: real, hi: real)
    requires |values| == 2 * n
    requires forall i :: 0 <= i < n ==> values[i] < lo || hi < values[i]
    requires forall i :: n <= i < 2 * n ==> lo <= values[i] <= hi
    ensures CountIn(values, lo, hi) == n
  {
    assert values == values[..n] + values[n..];
    CountInConcat(values[..n], values[n..], lo, hi);
    CountInNone(values[..n], lo, hi);
    CountInAll(values[n..], lo, hi);
  }

  lemma HalvesCenter(cs: seq<Candidate>, n: nat, good: Candidate, bad: Candidate)
    requires n > 0 && cs == Halves(n, good, bad) && good.spot < bad.spot
    ensures CountIn(Spots(cs), good.spot, good.spot) == n
    ensures Center(cs) == (good.spot + bad.spot) / 2.0
  {
    hide CountIn, Median;
    CollectAll(cs, (c: Candidate) => Some(c.spot));
    var values := Spots(cs);
    assert forall i :: 0 <= i < 2 * n ==> values[i] == cs[i].spot == if i < n then good.spot else bad.spot;
    CountInHalves(values, n, good.spot, good.spot);
    CountInOtherHalf(values, n, bad.spot, bad.spot);
    MedianOfEvenSplit(values, good.spot, good.spot, bad.spot, bad.spot);
  }

  // The filter keeps all candidates of one direction or none of them: the estimate is their median.
  lemma EqualDistances(cs: seq<Candidate>, direction: Direction, x: real, madK: real)
    requires cs != [] && forall c :: c in cs ==> c.direction == direction && Abs(c.spot - Center(cs)) == x
    ensures RobustReferenceSpot(cs, madK).value.value == Center(cs)
  {
    hide Center, Median;
    var center, threshold := Center(cs), Threshold(Center(cs), Mad(cs), madK);
    var f := (c: Candidate) => if Abs(c.spot - center) <= threshold then Some(c) else None;
    if x <= threshold {
      CollectAll(cs, f);
      assert Accepted(cs, center, threshold) == cs;
    } else {
      CollectNone(cs, f);
    }
    var other := if direction == Long then Short else Long;
    CollectNone(cs, (c: Candidate) => if c.direction == other then Some(c.spot) else None);
  }

  // Exactly half is not enough: with as many bad candidates as good ones, however many, the estimate can be
  // past any bound, whatever the filter's width.
  lemma HalfIsNotEnough(n: nat, spot: real, bound: real, direction: Direction, madK: real)
    returns (cs: seq<Candidate>)
    requires n > 0
    ensures |cs| == 2 * n && 2 * CountIn(Spots(cs), spot, spot) == |cs|
    ensures RobustReferenceSpot(cs, madK).value.value > bound
  {
    hide CountIn, Spots, Center, RobustReferenceSpot;
    var x := Max(bound - spot, 0.0) + 1.0;
    var good, bad := Candidate(spot, direction), Candidate(spot + 2.0 * x, direction);
    cs := Halves(n, good, bad);
    HalvesCenter(cs, n, good, bad);
    EqualDistances(cs, direction, x, madK);
  }

  // ---- Symmetries ----

  // The estimate does not depend on the order in which the rows arrive.
  lemma EstimatePermutation(cs: seq<Candidate>, ds: seq<Candidate>, madK: real)
    requires multiset(cs) == multiset(ds)
    ensures RobustReferenceSpot(cs, madK) == RobustReferenceSpot(ds, madK)
  {
    hide Used, Center, Balanced, Side;
    assert |cs| == |multiset(cs)| == |multiset(ds)| == |ds|;
    if cs != [] {
      CenterPermutation(cs, ds);
      UsedPermutation(cs, ds, madK);
      BalancedPermutation(Used(cs, madK), Used(ds, madK), Center(cs));
    }
  }

  lemma UsedPermutation(cs: seq<Candidate>, ds: seq<Candidate>, madK: real)
    requires cs != [] && multiset(cs) == multiset(ds)
    ensures ds != [] && multiset(Used(cs, madK)) == multiset(Used(ds, madK))
  {
    CenterPermutation(cs, ds);
    MadPermutation(cs, ds);
    var center, threshold := Center(cs), Threshold(Center(cs), Mad(cs), madK);
    CollectPermutation(cs, ds, (c: Candidate) => if Abs(c.spot - center) <= threshold then Some(c) else None);
  }

  lemma MadPermutation(cs: seq<Candidate>, ds: seq<Candidate>)
    requires cs != [] && multiset(cs) == multiset(ds)
    ensures ds != [] && Mad(cs) == Mad(ds)
  {
    CenterPermutation(cs, ds);
    var center := Center(cs);
    SpotsLength(cs, center);
    CollectPermutation(cs, ds, (c: Candidate) => Some(Abs(c.spot - center)));
    MedianPermutation(Distances(cs, center), Distances(ds, center));
  }

  lemma CenterPermutation(cs: seq<Candidate>, ds: seq<Candidate>)
    requires cs != [] && multiset(cs) == multiset(ds)
    ensures ds != [] && Center(cs) == Center(ds)
  {
    assert |cs| == |multiset(cs)| == |multiset(ds)| == |ds|;
    SpotsLength(cs, 0.0);
    CollectPermutation(cs, ds, (c: Candidate) => Some(c.spot));
    MedianPermutation(Spots(cs), Spots(ds));
  }

  lemma SidePermutation(cs: seq<Candidate>, ds: seq<Candidate>, direction: Direction)
    requires multiset(cs) == multiset(ds)
    ensures |Side(cs, direction)| == |Side(ds, direction)|
    ensures Side(cs, direction) != [] ==> Median(Side(cs, direction)) == Median(Side(ds, direction))
  {
    CollectPermutation(cs, ds, (c: Candidate) => if c.direction == direction then Some(c.spot) else None);
    var s, t := Side(cs, direction), Side(ds, direction);
    assert |s| == |multiset(s)| == |multiset(t)| == |t|;
    if s != [] { MedianPermutation(s, t); }
  }

  lemma BalancedPermutation(cs: seq<Candidate>, ds: seq<Candidate>, fallback: real)
    requires multiset(cs) == multiset(ds)
    ensures |cs| == |ds| && Balanced(cs, fallback) == Balanced(ds, fallback)
    ensures forall d :: (Side(cs, d) == []) == (Side(ds, d) == [])
  {
    assert |cs| == |multiset(cs)| == |multiset(ds)| == |ds|;
    forall d ensures (Side(cs, d) == []) == (Side(ds, d) == []) { SidePermutation(cs, ds, d); }
    SidePermutation(cs, ds, Long);
    SidePermutation(cs, ds, Short);
    if cs != [] { CenterPermutation(cs, ds); }
  }

  // Every spot moved by the same map of the real line.
  function Moved(cs: seq<Candidate>, f: real -> real): (r: seq<Candidate>)
    ensures |r| == |cs|
  {
    if cs == [] then [] else [Candidate(f(cs[0].spot), cs[0].direction)] + Moved(cs[1..], f)
  }

  // f stretches every distance by g.
  ghost predicate Stretches(f: real -> real, g: real -> real) {
    forall x, y :: Abs(f(x) - f(y)) == g(Abs(x - y))
  }

  lemma AffineStretches(c: real, d: real)
    requires c > 0.0
    ensures Stretches(Affine(c, d), Affine(c, 0.0))
  {
    hide Affine, Abs;
    forall x, y ensures Abs(Affine(c, d)(x) - Affine(c, d)(y)) == Affine(c, 0.0)(Abs(x - y)) {
      AffineStretch(c, d, x, y);
    }
  }

  lemma AffineStretch(c: real, d: real, x: real, y: real)
    requires c > 0.0
    ensures Abs(Affine(c, d)(x) - Affine(c, d)(y)) == Affine(c, 0.0)(Abs(x - y))
  {
    hide Affine, Abs;
    AffineAt(c, d, x);
    AffineAt(c, d, y);
    AffineAt(c, 0.0, Abs(x - y));
    AffineDistance(c, d, x, y);
  }

  lemma {:induction false} SpotsMoved(cs: seq<Candidate>, f: real -> real)
    ensures Spots(Moved(cs, f)) == Map(Spots(cs), f)
  {
    if cs == [] {
    } else {
      SpotsMoved(cs[1..], f);
      assert Moved(cs, f)[1..] == Moved(cs[1..], f);
      assert Spots(cs)[1..] == Spots(cs[1..]);
    }
  }

  lemma {:induction false} SideMoved(cs: seq<Candidate>, f: real -> real, direction: Direction)
    ensures Side(Moved(cs, f), direction) == Map(Side(cs, direction), f)
  {
    if cs == [] {
    } else {
      SideMoved(cs[1..], f, direction);
      assert Moved(cs, f)[1..] == Moved(cs[1..], f);
      if cs[0].direction == direction { assert Side(cs, direction)[1..] == Side(cs[1..], direction); }
    }
  }

  lemma {:induction false} DistancesMoved(cs: seq<Candidate>, center: real, f: real -> real, g: real -> real)
    requires Stretches(f, g)
    ensures Distances(Moved(cs, f), f(center)) == Map(Distances(cs, center), g)
  {
    if cs == [] {
    } else {
      DistancesMoved(cs[1..], center, f, g);
      assert Moved(cs, f)[1..] == Moved(cs[1..], f);
      assert Distances(cs, center)[1..] == Distances(cs[1..], center);
    }
  }

  lemma {:induction false} AcceptedMoved(cs: seq<Candidate>, center: real, threshold: real,
                                         f: real -> real, g: real -> real)
    requires Stretches(f, g) && StrictlyIncreasing(g)
    ensures Accepted(Moved(cs, f), f(center), g(threshold)) == Moved(Accepted(cs, center, threshold), f)
  {
    hide StrictlyIncreasing, Stretches, Abs;
    if cs == [] {
    } else {
      AcceptedMoved(cs[1..], center, threshold, f, g);
      SameSide(cs[0].spot, center, threshold, f, g);
      assert Moved(cs, f)[1..] == Moved(cs[1..], f);
      var rest := Accepted(cs[1..], center, threshold);
      assert ([cs[0]] + rest)[1..] == rest;
    }
  }

  lemma SameSide(x: real, center: real, threshold: real, f: real -> real, g: real -> real)
    requires Stretches(f, g) && StrictlyIncreasing(g)
    ensures Abs(f(x) - f(center)) <= g(threshold) <==> Abs(x - center) <= threshold
  {
    hide Abs;
    assert Abs(f(x) - f(center)) == g(Abs(x - center));
  }

  lemma CenterMoved(cs: seq<Candidate>, c: real, d: real)
    requires cs != [] && c > 0.0
    ensures Center(Moved(cs, Affine(c, d))) == Affine(c, d)(Center(cs))
  {
    SpotsLength(cs, 0.0);
    SpotsMoved(cs, Affine(c, d));
    MedianAffine(Spots(cs), c, d);
  }

  lemma MadMoved(cs: seq<Candidate>, c: real, d: real)
    requires cs != [] && c > 0.0
    ensures Mad(Moved(cs, Affine(c, d))) == Affine(c, 0.0)(Mad(cs))
  {
    var f, g := Affine(c, d), Affine(c, 0.0);
    CenterMoved(cs, c, d);
    SpotsLength(cs, Center(cs));
    assert Distances(Moved(cs, f), f(Center(cs))) == Map(Distances(cs, Center(cs)), g) by {
      AffineStretches(c, d);
      DistancesMoved(cs, Center(cs), f, g);
    }
    MedianAffine(Distances(cs, Center(cs)), c, 0.0);
  }

  lemma SideMedianMoved(cs: seq<Candidate>, c: real, d: real, direction: Direction)
    requires c > 0.0
    ensures (Side(Moved(cs, Affine(c, d)), direction) == []) == (Side(cs, direction) == [])
    ensures Side(cs, direction) != [] ==>
              Median(Side(Moved(cs, Affine(c, d)), direction)) == Affine(c, d)(Median(Side(cs, direction)))
  {
    SideMoved(cs, Affine(c, d), direction);
    if Side(cs, direction) != [] { MedianAffine(Side(cs, direction), c, d); }
  }

  lemma BalancedMoved(cs: seq<Candidate>, fallback: real, c: real, d: real)
    requires c > 0.0
    ensures Balanced(Moved(cs, Affine(c, d)), Affine(c, d)(fallback)) == Affine(c, d)(Balanced(cs, fallback))
  {
    SideMedianMoved(cs, c, d, Long);
    SideMedianMoved(cs, c, d, Short);
    if Side(cs, Long) != [] && Side(cs, Short) != [] {
      AffineKeepsMean(c, d, Median(Side(cs, Long)), Median(Side(cs, Short)));
    } else if cs != [] {
      CenterMoved(cs, c, d);
    }
  }

  lemma ThresholdMoved(center: real, moved: real, mad: real, madK: real, c: real)
    requires c > 0.0 && mad > 0.0
    ensures Threshold(moved, Affine(c, 0.0)(mad), madK) == Affine(c, 0.0)(Threshold(center, mad, madK))
  {
    ProductSign(c, mad);
    var p := mad * MAD_TO_STD;
    assert (c * mad) * MAD_TO_STD == c * p;
    assert madK * (c * p) == c * (madK * p);
  }

  lemma AcceptedAffine(cs: seq<Candidate>, center: real, threshold: real, c: real, d: real)
    requires c > 0.0
    ensures Accepted(Moved(cs, Affine(c, d)), Affine(c, d)(center), Affine(c, 0.0)(threshold)) ==
            Moved(Accepted(cs, center, threshold), Affine(c, d))
  {
    AffineStretches(c, d);
    AffineIncreasing(c, 0.0);
    AcceptedMoved(cs, center, threshold, Affine(c, d), Affine(c, 0.0));
  }

  lemma UsedMoved(cs: seq<Candidate>, madK: real, c: real, d: real)
    requires cs != [] && c > 0.0 && Mad(cs) > 0.0
    ensures Used(Moved(cs, Affine(c, d)), madK) == Moved(Used(cs, madK), Affine(c, d))
  {
    var center, mad := Center(cs), Mad(cs);
    CenterMoved(cs, c, d);
    MadMoved(cs, c, d);
    ThresholdMoved(center, Affine(c, d)(center), mad, madK, c);
    AcceptedAffine(cs, center, Threshold(center, mad, madK), c, d);
  }

  // Whenever the candidates spread at all, changing the quotation unit and shifting every spot
  // does the same to the estimate, and changes nothing about which rows it uses.
  lemma EstimateAffine(cs: seq<Candidate>, madK: real, c: real, d: real)
    requires cs != [] && c > 0.0 && Mad(cs) > 0.0
    ensures var e := RobustReferenceSpot(cs, madK).value;
            RobustReferenceSpot(Moved(cs, Affine(c, d)), madK) == Some(e.(value := Affine(c, d)(e.value)))
  {
    var f, accepted := Affine(c, d), Used(cs, madK);
    CenterMoved(cs, c, d);
    UsedMoved(cs, madK, c, d);
    BalancedMoved(accepted, Center(cs), c, d);
    forall side ensures (Side(Used(Moved(cs, f), madK), side) == []) == (Side(accepted, side) == []) {
      SideMoved(accepted, f, side);
    }
    EstimateMoved(cs, Moved(cs, f), madK, f);
  }

  lemma EstimateMoved(cs: seq<Candidate>, ds: seq<Candidate>, madK: real, f: real -> real)
    requires cs != [] && |ds| == |cs|
    requires Used(ds, madK) == Moved(Used(cs, madK), f)
    requires Balanced(Used(ds, madK), Center(ds)) == f(Balanced(Used(cs, madK), Center(cs)))
    requires forall side :: (Side(Used(ds, madK), side) == []) == (Side(Used(cs, madK), side) == [])
    ensures var e := RobustReferenceSpot(cs, madK).value;
            RobustReferenceSpot(ds, madK) == Some(e.(value := f(e.value)))
  {
    hide Side, Balanced, Center, Used;
  }
}
