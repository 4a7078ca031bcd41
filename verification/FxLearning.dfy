/**
Learning a non-quanto exchange rate per issuer from the fetched rows themselves
(`_fx_candidates_from_ratio_raw_at_1`, `_robust_fx_median` and
`_learn_fx_by_issuer` in src/turboedge/adapters/gettex.py).
*/
module FxLearning {
  import opened Grouping
  import opened Medians
  import opened RatioDerivation
  import opened RatioGrid
  import opened Reals
  import opened ReferenceSpot
  import opened Sequences
  import opened Wrappers

  // ---- Proposing exchange rates for one row ----

  // The rate that would make a product with this fx = 1 ratio carry grid ratio g, if plausible.
  function Proposing(raw: real, fxMin: real, fxMax: real): real -> Option<real>
    requires raw > 0.0
  {
    g => if fxMin <= g / raw <= fxMax then Some(g / raw) else None
  }

  // The exchange rates in the search band under which this row's price fits some grid ratio.
  function FxCandidates(raw: real, fxMin: real, fxMax: real): (r: seq<real>) {
    if raw <= 0.0 then [] else Collect(GRID, Proposing(raw, fxMin, fxMax))
  }

  method CollectFxCandidates(raw: real, fxMin: real, fxMax: real) returns (r: seq<real>)
    ensures r == FxCandidates(raw, fxMin, fxMax)
  {
    r := [];
    if raw <= 0.0 {
      return;
    }
    ghost var f := Proposing(raw, fxMin, fxMax);
    for i := 0 to |GRID|
      invariant r == Collect(GRID[..i], f)
    {
      var fx := GRID[i] / raw;
      assert GRID[..i + 1] == GRID[..i] + [GRID[i]];
      CollectConcat(GRID[..i], [GRID[i]], f);
      CollectOne(GRID[i], f);
      if fxMin <= fx <= fxMax {
        r := r + [fx];
      }
    }
    assert GRID[..|GRID|] == GRID;
  }

  lemma {:induction false} CandidatesAsCount(s: seq<real>, raw: real, fxMin: real, fxMax: real)
    requires raw > 0.0
    ensures |Collect(s, Proposing(raw, fxMin, fxMax))| == CountIn(s, fxMin * raw, fxMax * raw)
  {
    if s == [] {
    } else {
      CandidatesAsCount(s[1..], raw, fxMin, fxMax);
      QuotientOrder(s[0], raw, fxMax);
      QuotientOrder(s[0], raw, fxMin);
    }
  }

  lemma {:induction false} SparseWindow(s: seq<real>, lo: real, hi: real)
    requires 0.0 < lo && hi < 10.0 * lo
    requires forall i, j :: 0 <= i < j < |s| ==> s[i] > s[j]
    requires forall i :: 0 <= i < |s| - 3 ==> s[i] >= 10.0 * s[i + 3]
    ensures CountIn(s, lo, hi) <= 3
  {
    if |s| > 3 {
      if lo <= s[0] <= hi {
        assert s == s[..3] + s[3..];
        CountInConcat(s[..3], s[3..], lo, hi);
        forall i | 0 <= i < |s| - 3 ensures s[3..][i] < lo {
          assert s[0] >= 10.0 * s[3];
          if i > 0 { assert s[3] > s[i + 3]; }
        }
        CountInNone(s[3..], lo, hi);
      } else {
        SparseWindow(s[1..], lo, hi);
      }
    }
  }

  lemma GridSparse()
    ensures forall i, j :: 0 <= i < j < |GRID| ==> GRID[i] > GRID[j]
    ensures forall i :: 0 <= i < |GRID| - 3 ==> GRID[i] >= 10.0 * GRID[i + 3]
  {
    forall i, j | 0 <= i < j < |GRID| ensures GRID[i] > GRID[j] {
      GridSteps(i, j);
      GridSteps(j, j);
    }
  }

  // Over any band narrower than a factor of ten one row proposes at most three rates.
  lemma AtMostThreeCandidates(raw: real, fxMin: real, fxMax: real)
    requires 0.0 < fxMin && fxMax < 10.0 * fxMin
    ensures |FxCandidates(raw, fxMin, fxMax)| <= 3
  {
    hide GRID, Proposing;
    if raw > 0.0 {
      assert |FxCandidates(raw, fxMin, fxMax)| == CountIn(GRID, fxMin * raw, fxMax * raw) by {
        CandidatesAsCount(GRID, raw, fxMin, fxMax);
      }
      WindowOfBand(raw, fxMin, fxMax);
      GridSparse();
      SparseWindow(GRID, fxMin * raw, fxMax * raw);
    }
  }

  lemma WindowOfBand(raw: real, fxMin: real, fxMax: real)
    requires raw > 0.0 && 0.0 < fxMin && fxMax < 10.0 * fxMin
    ensures 0.0 < fxMin * raw && fxMax * raw < 10.0 * (fxMin * raw)
  {
    ProductSign(fxMin, raw);
    ProductOrder(raw, fxMax, 10.0 * fxMin);
  }

  lemma CandidatesInBand(raw: real, fxMin: real, fxMax: real)
    ensures forall i :: 0 <= i < |FxCandidates(raw, fxMin, fxMax)| ==>
            fxMin <= FxCandidates(raw, fxMin, fxMax)[i] <= fxMax
  {
    if raw > 0.0 {
      forall i | 0 <= i < |FxCandidates(raw, fxMin, fxMax)|
        ensures fxMin <= FxCandidates(raw, fxMin, fxMax)[i] <= fxMax
      {
        var k := CollectFrom(GRID, Proposing(raw, fxMin, fxMax), i);
      }
    }
  }

  // ---- The robust median of all proposals ----

  function DistancesFrom(values: seq<real>, center: real): (r: seq<real>)
    ensures |r| == |values| && forall i :: 0 <= i < |values| ==> r[i] == Abs(values[i] - center)
  {
    Map(values, x => Abs(x - center))
  }

  function Near(values: seq<real>, center: real, threshold: real): (r: seq<real>) {
    Collect(values, x => if Abs(x - center) <= threshold then Some(x) else None)
  }

  function ScaledMad(values: seq<real>): real
    requires values != []
  {
    Median(DistancesFrom(values, Median(values))) * MAD_TO_STD
  }

  function RobustFxMedian(values: seq<real>, madK: real): (m: Option<real>)
    ensures m.Some? <==> values != []
  {
    if values == [] then None
    else
      var median := Median(values);
      if ScaledMad(values) == 0.0 then Some(median)
      else
        var accepted := Near(values, median, madK * ScaledMad(values));
        Some(if accepted != [] then Median(accepted) else median)
  }

  lemma RobustFxMedianWithin(values: seq<real>, madK: real, lo: real, hi: real)
    requires values != [] && forall i :: 0 <= i < |values| ==> lo <= values[i] <= hi
    ensures lo <= RobustFxMedian(values, madK).value <= hi
  {
    MedianWithin(values, lo, hi);
    var median, threshold := Median(values), madK * ScaledMad(values);
    var accepted := Near(values, median, threshold);
    forall i | 0 <= i < |accepted| ensures lo <= accepted[i] <= hi {
      var k := CollectFrom(values, x => if Abs(x - median) <= threshold then Some(x) else None, i);
    }
    if accepted != [] { MedianWithin(accepted, lo, hi); }
  }

  function Within(lo: real, hi: real): real -> Option<real> {
    x => if lo <= x <= hi then Some(x) else None
  }

  // The values in [lo, hi], in order.
  function Inside(values: seq<real>, lo: real, hi: real): (r: seq<real>) {
    Collect(values, Within(lo, hi))
  }

  // The median distance from the median.
  function MedianDistance(values: seq<real>): real
    requires values != []
  {
    Median(DistancesFrom(values, Median(values)))
  }

  // [lo, hi] holds exactly the values no further from the median than the filter reaches.
  ghost predicate Separates(values: seq<real>, madK: real, lo: real, hi: real)
    requires values != []
  {
    forall x :: x in values ==> (lo <= x <= hi <==> Abs(x - Median(values)) <= madK * 1.4826 * MedianDistance(values))
  }

  // The filter at work: where it separates [lo, hi] from the rest, the result is the median of the values in
  // [lo, hi] alone. What the others are no longer matters.
  lemma FilteredMedian(values: seq<real>, madK: real, lo: real, hi: real)
    requires values != [] && MedianDistance(values) > 0.0
    requires Separates(values, madK, lo, hi) && Inside(values, lo, hi) != []
    ensures RobustFxMedian(values, madK) == Some(Median(Inside(values, lo, hi)))
  {
    hide Median, DistancesFrom, Collect;
    var median, threshold := Median(values), madK * ScaledMad(values);
    assert threshold == madK * 1.4826 * MedianDistance(values);
    CollectSame(values, x => if Abs(x - median) <= threshold then Some(x) else None, Within(lo, hi));
  }

  // Without any spread around the median the median is returned.
  lemma UnfilteredMedian(values: seq<real>, madK: real)
    requires values != [] && MedianDistance(values) == 0.0
    ensures RobustFxMedian(values, madK) == Some(Median(values))
  {
    hide Median, DistancesFrom;
  }

  // ---- Learning for one issuer ----

  function IssuerOf(row: Row): Option<string> {
    if row.MidPrice().Some? then Some(row.issuer) else None
  }

  // One issuer's priced rows.
  function Group(rows: seq<Row>, issuer: string): (r: seq<Row>) {
    WithKey(rows, IssuerOf, issuer)
  }

  // Not at its financing level, and not explained by fx = 1.
  predicate IsUnresolved(cfg: Config, row: Row, sRef: real)
    requires sRef > 0.0
  {
    && row.MidPrice().Some?
    && Moneyness(row.financing, sRef) > 0.0
    && !TryFx(cfg, row, row.MidPrice().value, sRef, 1.0, true).verified
  }

  function Unresolved(cfg: Config, rows: seq<Row>, sRef: real): (r: seq<Row>)
    requires sRef > 0.0
    ensures forall i :: 0 <= i < |r| ==> r[i] in rows && IsUnresolved(cfg, r[i], sRef)
  {
    if rows == [] then []
    else
      var last := rows[|rows| - 1];
      var rest := Unresolved(cfg, rows[..|rows| - 1], sRef);
      if IsUnresolved(cfg, last, sRef) then rest + [last] else rest
  }

  function RowCandidates(cfg: Config, row: Row, sRef: real): (r: seq<real>)
    requires sRef > 0.0 && IsUnresolved(cfg, row, sRef)
  {
    FxCandidates(row.MidPrice().value / Moneyness(row.financing, sRef), cfg.fxMin, cfg.fxMax)
  }

  function AllCandidates(cfg: Config, rows: seq<Row>, sRef: real): (r: seq<real>)
    requires sRef > 0.0 && forall row :: row in rows ==> IsUnresolved(cfg, row, sRef)
  {
    if rows == [] then []
    else AllCandidates(cfg, rows[..|rows| - 1], sRef) + RowCandidates(cfg, rows[|rows| - 1], sRef)
  }

  function CountVerified(cfg: Config, rows: seq<Row>, sRef: real, fx: real): (n: nat)
    requires sRef > 0.0 && fx > 0.0 && forall row :: row in rows ==> IsUnresolved(cfg, row, sRef)
    ensures n <= |rows|
  {
    if rows == [] then 0
    else
      var last := rows[|rows| - 1];
      assert IsUnresolved(cfg, last, sRef);
      CountVerified(cfg, rows[..|rows| - 1], sRef, fx)
      + (if TryFx(cfg, last, last.MidPrice().value, sRef, fx, true).verified then 1 else 0)
  }

  lemma {:induction false} AllCandidatesInBand(cfg: Config, rows: seq<Row>, sRef: real)
    requires sRef > 0.0 && forall row :: row in rows ==> IsUnresolved(cfg, row, sRef)
    ensures forall i :: 0 <= i < |AllCandidates(cfg, rows, sRef)| ==>
                          cfg.fxMin <= AllCandidates(cfg, rows, sRef)[i] <= cfg.fxMax
  {
    if rows == [] {
    } else {
      var last := rows[|rows| - 1];
      assert last in rows;
      AllCandidatesInBand(cfg, rows[..|rows| - 1], sRef);
      CandidatesInBand(last.MidPrice().value / Moneyness(last.financing, sRef), cfg.fxMin, cfg.fxMax);
    }
  }

  // The rate proposed by the unresolved rows, if there are enough of them.
  function Proposed(cfg: Config, remaining: seq<Row>, sRef: real): (fx: Option<real>)
    requires sRef > 0.0 && cfg.fxMin > 0.0
    requires forall row :: row in remaining ==> IsUnresolved(cfg, row, sRef)
    ensures fx.Some? ==> cfg.fxMin <= fx.value <= cfg.fxMax && |remaining| >= cfg.minCandidates && remaining != []
  {
    var candidates := AllCandidates(cfg, remaining, sRef);
    if |remaining| < cfg.minCandidates || |candidates| < cfg.minCandidates || candidates == [] then None
    else
      AllCandidatesInBand(cfg, remaining, sRef);
      RobustFxMedianWithin(candidates, cfg.madK, cfg.fxMin, cfg.fxMax);
      RobustFxMedian(candidates, cfg.madK)
  }

  function LearnFrom(cfg: Config, remaining: seq<Row>, sRef: real): (fx: Option<real>)
    requires sRef > 0.0 && cfg.fxMin > 0.0
    requires forall row :: row in remaining ==> IsUnresolved(cfg, row, sRef)
    ensures fx.Some? ==> cfg.fxMin <= fx.value <= cfg.fxMax
  {
    match Proposed(cfg, remaining, sRef)
    case None => None
    case Some(fx) =>
      if CountVerified(cfg, remaining, sRef, fx) as real / |remaining| as real < cfg.minFraction then None
      else Some(fx)
  }

  function LearnFor(cfg: Config, rows: seq<Row>, sRef: real, issuer: string): (fx: Option<real>)
    requires sRef > 0.0 && cfg.fxMin > 0.0
    ensures fx.Some? ==> cfg.fxMin <= fx.value <= cfg.fxMax
  {
    LearnFrom(cfg, Unresolved(cfg, Group(rows, issuer), sRef), sRef)
  }

  // The three loops of one issuer's pass of `_learn_fx_by_issuer`.
  method CollectUnresolved(cfg: Config, issuerRows: seq<Row>, sRef: real) returns (remaining: seq<Row>)
    requires sRef > 0.0
    requires forall row :: row in issuerRows ==> row.MidPrice().Some?
    ensures remaining == Unresolved(cfg, issuerRows, sRef)
  {
    hide TryFx, Moneyness;
    remaining := [];
    for i := 0 to |issuerRows|
      invariant remaining == Unresolved(cfg, issuerRows[..i], sRef)
    {
      var row := issuerRows[i];
      assert issuerRows[..i + 1][..i] == issuerRows[..i];
      if Moneyness(row.financing, sRef) > 0.0 {
        var attempt := TryFx(cfg, row, row.MidPrice().value, sRef, 1.0, true);
        if attempt.ratio.None? || !attempt.verified {
          remaining := remaining + [row];
        }
      }
    }
    assert issuerRows[..|issuerRows|] == issuerRows;
  }

  method CollectAllCandidates(cfg: Config, remaining: seq<Row>, sRef: real) returns (candidates: seq<real>)
    requires sRef > 0.0 && forall row :: row in remaining ==> IsUnresolved(cfg, row, sRef)
    ensures candidates == AllCandidates(cfg, remaining, sRef)
  {
    hide TryFx, Moneyness, FxCandidates, Proposing, GRID;
    candidates := [];
    for i := 0 to |remaining|
      invariant candidates == AllCandidates(cfg, remaining[..i], sRef)
    {
      var row := remaining[i];
      assert IsUnresolved(cfg, row, sRef);
      assert remaining[..i + 1][..i] == remaining[..i];
      var more := CollectFxCandidates(row.MidPrice().value / Moneyness(row.financing, sRef), cfg.fxMin, cfg.fxMax);
      candidates := candidates + more;
    }
    assert remaining[..|remaining|] == remaining;
  }

  method CountVerifiedRows(cfg: Config, remaining: seq<Row>, sRef: real, fx: real) returns (verified: nat)
    requires sRef > 0.0 && fx > 0.0 && forall row :: row in remaining ==> IsUnresolved(cfg, row, sRef)
    ensures verified == CountVerified(cfg, remaining, sRef, fx)
  {
    hide TryFx, Moneyness, GRID;
    verified := 0;
    for i := 0 to |remaining|
      invariant verified == CountVerified(cfg, remaining[..i], sRef, fx)
    {
      var row := remaining[i];
      assert IsUnresolved(cfg, row, sRef);
      assert remaining[..i + 1][..i] == remaining[..i];
      if TryFx(cfg, row, row.MidPrice().value, sRef, fx, true).verified {
        verified := verified + 1;
      }
    }
    assert remaining[..|remaining|] == remaining;
  }

  method LearnGroup(cfg: Config, issuerRows: seq<Row>, sRef: real) returns (fx: Option<real>)
    requires sRef > 0.0 && cfg.fxMin > 0.0
    requires forall row :: row in issuerRows ==> row.MidPrice().Some?
    ensures fx == LearnFrom(cfg, Unresolved(cfg, issuerRows, sRef), sRef)
  {
    hide Unresolved, IsUnresolved, CountVerified, AllCandidates, RobustFxMedian;
    var remaining := CollectUnresolved(cfg, issuerRows, sRef);
    if |remaining| < cfg.minCandidates {
      return None;
    }
    var candidates := CollectAllCandidates(cfg, remaining, sRef);
    if |candidates| < cfg.minCandidates || candidates == [] {
      return None;
    }
    fx := RobustFxMedian(candidates, cfg.madK);
    assert fx == Proposed(cfg, remaining, sRef);
    var verified := CountVerifiedRows(cfg, remaining, sRef, fx.value);
    if verified as real / |remaining| as real < cfg.minFraction {
      return None;
    }
  }

  // `_learn_fx_by_issuer`: groups the priced rows by issuer, then learns for each group.
  method LearnFxByIssuer(cfg: Config, rows: seq<Row>, sRef: real) returns (learned: map<string, real>)
    requires sRef > 0.0 && cfg.fxMin > 0.0
    ensures forall issuer :: issuer in learned <==> LearnFor(cfg, rows, sRef, issuer).Some?
    ensures forall issuer :: issuer in learned ==> LearnFor(cfg, rows, sRef, issuer) == Some(learned[issuer])
  {
    hide *;
    var groups, issuers := GroupBy(rows, IssuerOf);
    learned := map[];
    for j := 0 to |issuers|
      invariant forall k :: k in learned ==> LearnFor(cfg, rows, sRef, k) == Some(learned[k])
      invariant forall i :: 0 <= i < j && issuers[i] !in learned ==> LearnFor(cfg, rows, sRef, issuers[i]).None?
    {
      var issuer := issuers[j];
      GroupDefinition(rows, issuer);
      GroupIsPriced(rows, issuer);
      var fx := LearnGroup(cfg, groups[issuer], sRef);
      LearnForGroup(cfg, rows, sRef, issuer);
      if fx.Some? {
        learned := learned[issuer := fx.value];
      }
    }
    forall k | k !in learned ensures LearnFor(cfg, rows, sRef, k).None? {
      if k in issuers {
        var i :| 0 <= i < |issuers| && issuers[i] == k;
        assert issuers[i] !in learned;
      } else {
        KeysMember(rows, IssuerOf, k);
        GroupDefinition(rows, k);
        LearnForNobody(cfg, rows, sRef, k);
      }
    }
  }

  lemma GroupDefinition(rows: seq<Row>, issuer: string)
    ensures Group(rows, issuer) == WithKey(rows, IssuerOf, issuer)
  {
  }

  lemma LearnForGroup(cfg: Config, rows: seq<Row>, sRef: real, issuer: string)
    requires sRef > 0.0 && cfg.fxMin > 0.0
    ensures LearnFor(cfg, rows, sRef, issuer) == LearnFrom(cfg, Unresolved(cfg, Group(rows, issuer), sRef), sRef)
  {
  }

  lemma LearnForNobody(cfg: Config, rows: seq<Row>, sRef: real, issuer: string)
    requires sRef > 0.0 && cfg.fxMin > 0.0 && Group(rows, issuer) == []
    ensures LearnFor(cfg, rows, sRef, issuer).None?
  {
  }

  lemma GroupIsPriced(rows: seq<Row>, issuer: string)
    ensures forall row :: row in Group(rows, issuer) ==> row.MidPrice().Some? && row.issuer == issuer && row in rows
  {
    WithKeyHasKey(rows, IssuerOf, issuer);
  }

  // A learned rate lies in the search band and verifies the required share of the rows
  // that fx = 1 could not explain.
  lemma LearnedFxIsSupported(cfg: Config, rows: seq<Row>, sRef: real, issuer: string)
    requires sRef > 0.0 && cfg.fxMin > 0.0
    ensures var remaining := Unresolved(cfg, Group(rows, issuer), sRef);
            var learned := LearnFor(cfg, rows, sRef, issuer);
            learned.Some? ==>
              && cfg.fxMin <= learned.value <= cfg.fxMax
              && |remaining| >= cfg.minCandidates
              && CountVerified(cfg, remaining, sRef, learned.value) as real >= cfg.minFraction * |remaining| as real
  {
    hide CountVerified, Proposed, Unresolved, Group, IsUnresolved;
    var remaining := Unresolved(cfg, Group(rows, issuer), sRef);
    var learned := LearnFor(cfg, rows, sRef, issuer);
    if learned.Some? {
      QuotientOrder(CountVerified(cfg, remaining, sRef, learned.value) as real, |remaining| as real, cfg.minFraction);
    }
  }

  // Conversely, what the filtered median of enough proposals yields is learned once that share verifies.
  lemma SupportSuffices(cfg: Config, rows: seq<Row>, sRef: real, issuer: string)
    requires sRef > 0.0 && cfg.fxMin > 0.0
    requires var remaining := Unresolved(cfg, Group(rows, issuer), sRef);
             var candidates := AllCandidates(cfg, remaining, sRef);
             && |remaining| >= cfg.minCandidates && remaining != [] && |candidates| >= cfg.minCandidates
             && candidates != [] && RobustFxMedian(candidates, cfg.madK).value > 0.0
             && CountVerified(cfg, remaining, sRef, RobustFxMedian(candidates, cfg.madK).value) as real
                >= cfg.minFraction * |remaining| as real
    ensures LearnFor(cfg, rows, sRef, issuer) ==
            RobustFxMedian(AllCandidates(cfg, Unresolved(cfg, Group(rows, issuer), sRef), sRef), cfg.madK)
  {
    hide CountVerified, AllCandidates, RobustFxMedian, Unresolved, Group, IsUnresolved;
    var remaining := Unresolved(cfg, Group(rows, issuer), sRef);
    var fx := RobustFxMedian(AllCandidates(cfg, remaining, sRef), cfg.madK).value;
    QuotientOrder(CountVerified(cfg, remaining, sRef, fx) as real, |remaining| as real, cfg.minFraction);
  }

  // A clash-free learned rate never takes an accepted product of that issuer away.
  lemma LearnedFxKeepsAccepted(rows: seq<Row>, sRef: real, row: Row, currency: Option<string>)
    requires sRef > 0.0 && row.MidPrice().Some? && Trusted(row, sRef)
    requires var learned := LearnFor(DEFAULT, rows, sRef, row.issuer); learned.Some? ==> ClashFree(learned.value)
    ensures var before := DeriveRatio(DEFAULT, row, row.MidPrice().value, sRef, currency, None);
            var learned := LearnFor(DEFAULT, rows, sRef, row.issuer);
            before.Derived? ==> DeriveRatio(DEFAULT, row, row.MidPrice().value, sRef, currency, learned) == before
  {
    var learned := LearnFor(DEFAULT, rows, sRef, row.issuer);
    if learned.Some? { HintKeepsQuanto(row, row.MidPrice().value, sRef, learned.value, currency); }
  }
}
