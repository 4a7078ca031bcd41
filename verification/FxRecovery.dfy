/**
When `_learn_fx_by_issuer` (src/turboedge/adapters/gettex.py) finds the exchange
rate behind an issuer's products, decided for every list of exactly priced rows.
*/
module FxRecovery {
  import opened FxLearning
  import opened Medians
  import opened RatioDerivation
  import opened RatioGrid
  import opened Reals
  import opened ReferenceSpot
  import opened Sequences
  import opened Sorting
  import opened Wrappers

  // The row is quoted at its geometric leverage and at its intrinsic value under fx,
  // with some ratio of the grid: `TrueRatio`.
  ghost predicate ExactlyPriced(row: Row, sRef: real, fx: real) {
    && row.MidPrice().Some? && fx > 0.0 && GeometricRow(row, sRef)
    && Moneyness(row.financing, sRef) > 0.0
    && TrueRatio(row, sRef, fx) in GRID
  }

  function TrueRatio(row: Row, sRef: real, fx: real): real
    requires row.MidPrice().Some? && Moneyness(row.financing, sRef) > 0.0
  {
    RawRatio(row.MidPrice().value, fx, Moneyness(row.financing, sRef))
  }

  lemma ExactIsPricedAt(row: Row, sRef: real, fx: real)
    requires ExactlyPriced(row, sRef, fx)
    ensures PricedAt(row, row.MidPrice().value, sRef, TrueRatio(row, sRef, fx), fx)
  {
    QuotientTimes(row.MidPrice().value * fx, Moneyness(row.financing, sRef));
  }

  // ---- The proposals of one row ----

  // A rate the search can find behind the ratio g: it lies in the band searched, and at fx = 1 the product's
  // price is that of no other ratio.
  ghost predicate Sought(g: real, fx: real) {
    0.5 <= fx <= 2.0 && forall h :: h in GRID ==> h * fx != g
  }

  // Within the search band another grid value h explains the price of a product with true ratio g:
  // at the rate h * fx / g.
  predicate Rivals(g: real, h: real, fx: real) {
    h != g && InBand(g, h * fx)
  }

  predicate InBand(g: real, q: real) {
    0.5 * g <= q <= 2.0 * g
  }

  ghost predicate HasRival(g: real, fx: real) {
    exists h :: h in GRID && Rivals(g, h, fx)
  }

  // Where the rates proposed by rivals lie.
  function RivalLow(fx: real): real {
    if fx > 1.0 then 0.4 * fx else 2.0 * fx
  }

  function RivalHigh(fx: real): real {
    if fx > 1.0 then 0.5 * fx else 2.5 * fx
  }

  lemma GridBelow(k: nat, j: nat)
    requires k < j < |GRID|
    ensures GRID[j] > 0.0
    ensures j == k + 1 ==> GRID[k] == 2.0 * GRID[j] || GRID[k] == 2.5 * GRID[j] || GRID[k] > 4.0 * GRID[j]
    ensures j > k + 1 ==> GRID[k] >= 4.0 * GRID[j]
  {
    GridSteps(j, j);
    if j > k + 1 {
      GridSteps(k, k + 1);
      GridSteps(k + 1, j);
    }
  }

  // What the grid value h proposes for a product whose true ratio is g.
  lemma ProposalFor(h: real, g: real, fx: real)
    requires g > 0.0 && h > 0.0 && fx > 0.0
    ensures g / fx > 0.0
    ensures Proposing(g / fx, 0.5, 2.0)(h) == if InBand(g, h * fx) then Some(h * fx / g) else None
  {
    var raw := g / fx;
    QuotientOrder(g, fx, 0.0);
    QuotientTimes(g, fx);
    QuotientTimes(h * fx, g);
    assert h * fx / g * raw * fx == h * fx / g * (raw * fx) == h * fx;
    SameFactor(h * fx / g * raw, h, fx);
    QuotientUnique(h, raw, h * fx / g);
    QuotientOrder(h * fx, g, 2.0);
    QuotientOrder(h * fx, g, 0.5);
  }

  lemma SameFactor(x: real, y: real, c: real)
    requires c > 0.0 && x * c == y * c
    ensures x == y
  {
    ProductOrder(c, x, y);
    ProductOrder(c, y, x);
  }

  // Only the true ratio's neighbour on one side can be a rival, and only when it is 2 or 2.5 steps off;
  // at the ends of the band a value exactly four steps off would be one too.
  lemma OnlyNeighbours(g: real, h: real, fx: real)
    requires g > 0.0 && h > 0.0 && 0.5 <= fx <= 2.0
    ensures fx > 1.0 && (h >= 2.0 * g || 4.0 * h < g) ==> !Rivals(g, h, fx)
    ensures fx > 1.0 && 4.0 * h == g && Rivals(g, h, fx) ==> fx == 2.0
    ensures fx < 1.0 && (2.0 * h <= g || h > 4.0 * g) ==> !Rivals(g, h, fx)
    ensures fx < 1.0 && h == 4.0 * g && Rivals(g, h, fx) ==> fx == 0.5
  {
    hide InBand;
    ScaledByRate(h, fx);
    OutOfReach(g, h, h * fx);
  }

  // h scaled by a rate of the band, and whether by one strictly inside it.
  predicate Scaled(q: real, h: real, up: bool, inner: bool) {
    if up then h < q <= 2.0 * h && (inner ==> q < 2.0 * h) else 0.5 * h <= q < h && (inner ==> 0.5 * h < q)
  }

  lemma ScaledByRate(h: real, fx: real)
    requires h > 0.0 && 0.5 <= fx <= 2.0
    ensures fx > 1.0 ==> Scaled(h * fx, h, true, fx < 2.0)
    ensures fx < 1.0 ==> Scaled(h * fx, h, false, fx > 0.5)
  {
    if fx > 1.0 {
      ScaleLess(h, 1.0, fx);
      ScaleAtMost(h, fx, 2.0);
      if fx < 2.0 { ScaleLess(h, fx, 2.0); }
    } else if fx < 1.0 {
      ScaleLess(h, fx, 1.0);
      ScaleAtMost(h, 0.5, fx);
      if fx > 0.5 { ScaleLess(h, 0.5, fx); }
    }
  }

  lemma OutOfReach(g: real, h: real, q: real)
    requires g > 0.0 && h > 0.0
    ensures Scaled(q, h, true, false) && (h >= 2.0 * g || 4.0 * h < g) ==> !InBand(g, q)
    ensures Scaled(q, h, true, true) && 4.0 * h == g ==> !InBand(g, q)
    ensures Scaled(q, h, false, false) && (2.0 * h <= g || h > 4.0 * g) ==> !InBand(g, q)
    ensures Scaled(q, h, false, true) && h == 4.0 * g ==> !InBand(g, q)
  {
  }

  // The rate h proposes, and the rates a list of grid values proposes, for a product of true ratio g.
  function RateFor(h: real, g: real, fx: real): real
    requires g > 0.0
  {
    h * fx / g
  }

  function ProposedBy(s: seq<real>, g: real, fx: real): seq<real>
    requires g > 0.0 && fx > 0.0
  {
    QuotientOrder(g, fx, 0.0);
    Collect(s, Proposing(g / fx, 0.5, 2.0))
  }

  function RivalProposal(h: real, g: real, fx: real): Option<real>
    requires g > 0.0
  {
    if Rivals(g, h, fx) then Some(RateFor(h, g, fx)) else None
  }

  lemma OtherProposal(h: real, g: real, fx: real)
    requires g > 0.0 && h > 0.0 && h != g && fx > 0.0
    ensures g / fx > 0.0
    ensures Proposing(g / fx, 0.5, 2.0)(h) == RivalProposal(h, g, fx)
  {
    ProposalFor(h, g, fx);
  }

  // Of the grid values before or after the true ratio at most one proposes anything.
  lemma LoneProposal(s: seq<real>, n: nat, g: real, h: real, fx: real)
    requires n < |s| && s[n] == h && g > 0.0 && fx > 0.0
    requires forall i :: 0 <= i < |s| ==> s[i] > 0.0 && s[i] != g && (i != n ==> !Rivals(g, s[i], fx))
    ensures ProposedBy(s, g, fx) == if Rivals(g, h, fx) then [RateFor(h, g, fx)] else []
  {
    hide Proposing, Collect, Rivals, RateFor;
    QuotientOrder(g, fx, 0.0);
    forall i | 0 <= i < |s| ensures Proposing(g / fx, 0.5, 2.0)(s[i]) == RivalProposal(s[i], g, fx) {
      OtherProposal(s[i], g, fx);
    }
    if Rivals(g, h, fx) {
      CollectUnique(s, Proposing(g / fx, 0.5, 2.0), n);
    } else {
      CollectNone(s, Proposing(g / fx, 0.5, 2.0));
    }
  }

  lemma NoProposal(s: seq<real>, g: real, fx: real)
    requires g > 0.0 && fx > 0.0
    requires forall i :: 0 <= i < |s| ==> s[i] > 0.0 && s[i] != g && !Rivals(g, s[i], fx)
    ensures ProposedBy(s, g, fx) == []
  {
    hide Proposing, Collect, Rivals, RateFor;
    QuotientOrder(g, fx, 0.0);
    forall i | 0 <= i < |s| ensures Proposing(g / fx, 0.5, 2.0)(s[i]).None? { OtherProposal(s[i], g, fx); }
    CollectNone(s, Proposing(g / fx, 0.5, 2.0));
  }

  // The index of the only grid value that can rival GRID[k].
  function RivalAt(k: nat, fx: real): int {
    if fx > 1.0 then k + 1 else k - 1
  }

  lemma OthersDoNotRival(k: nat, j: nat, fx: real)
    requires k < |GRID| && j < |GRID| && Sought(GRID[k], fx) && j != RivalAt(k, fx)
    ensures !Rivals(GRID[k], GRID[j], fx)
  {
    hide GRID;
    GridSteps(k, k);
    GridSteps(j, j);
    SoughtOffOne(GRID[k], fx);
    if j != k {
      OnlyNeighbours(GRID[k], GRID[j], fx);
      if j < k { GridBelow(j, k); GridSteps(j, k); } else { GridBelow(k, j); GridSteps(k, j); }
      if Rivals(GRID[k], GRID[j], fx) { FourStepsOff(k, j, fx); }
    }
  }

  lemma SoughtOffOne(g: real, fx: real)
    requires g in GRID && Sought(g, fx)
    ensures 0.5 <= fx <= 2.0 && fx != 1.0
  {
    hide GRID;
    assert g * 1.0 == g;
  }

  // Between two values exactly four steps apart lies the one that fx = 1 would have found.
  lemma FourStepsOff(k: nat, j: nat, fx: real)
    requires k < |GRID| && j < |GRID|
    requires (k + 1 < j && GRID[k] == 4.0 * GRID[j] && fx == 2.0)
             || (j + 1 < k && GRID[j] == 4.0 * GRID[k] && fx == 0.5)
    ensures !Sought(GRID[k], fx)
  {
    hide GRID;
    if k < j {
      GridSteps(k, k + 1);
      GridSteps(k + 1, j);
      assert GRID[k + 1] in GRID && GRID[k + 1] * fx == GRID[k];
    } else {
      GridSteps(j, k - 1);
      GridSteps(k - 1, k);
      assert GRID[k - 1] in GRID && GRID[k - 1] * fx == GRID[k];
    }
  }

  lemma NeighbourRate(g: real, h: real, fx: real)
    requires g > 0.0 && h > 0.0 && fx > 0.0
    ensures 2.0 * h == g || 2.5 * h == g ==> 0.4 * fx <= RateFor(h, g, fx) <= 0.5 * fx
    ensures h == 2.0 * g || h == 2.5 * g ==> 2.0 * fx <= RateFor(h, g, fx) <= 2.5 * fx
  {
    if 2.0 * h == g { QuotientUnique(h * fx, g, 0.5 * fx); }
    if 2.5 * h == g { QuotientUnique(h * fx, g, 0.4 * fx); }
    if h == 2.0 * g { QuotientUnique(h * fx, g, 2.0 * fx); }
    if h == 2.5 * g { QuotientUnique(h * fx, g, 2.5 * fx); }
  }

  lemma RivalRate(k: nat, fx: real)
    requires k < |GRID| && 0 <= RivalAt(k, fx) < |GRID| && 0.5 <= fx <= 2.0 && fx != 1.0
    requires Rivals(GRID[k], GRID[RivalAt(k, fx)], fx)
    ensures GRID[k] > 0.0 && RivalLow(fx) <= RateFor(GRID[RivalAt(k, fx)], GRID[k], fx) <= RivalHigh(fx)
  {
    hide GRID, Rivals, RateFor;
    var j := RivalAt(k, fx);
    GridSteps(k, k);
    GridSteps(j, j);
    OnlyNeighbours(GRID[k], GRID[j], fx);
    NeighbourRate(GRID[k], GRID[j], fx);
    if j < k { GridBelow(j, k); } else { GridBelow(k, j); }
  }

  lemma HasRivalAt(k: nat, fx: real)
    requires k < |GRID| && Sought(GRID[k], fx)
    ensures HasRival(GRID[k], fx) <==> 0 <= RivalAt(k, fx) < |GRID| && Rivals(GRID[k], GRID[RivalAt(k, fx)], fx)
  {
    hide GRID, Rivals, Sought;
    forall h | h in GRID && Rivals(GRID[k], h, fx)
      ensures 0 <= RivalAt(k, fx) < |GRID| && h == GRID[RivalAt(k, fx)]
    {
      var j :| 0 <= j < |GRID| && GRID[j] == h;
      if j != RivalAt(k, fx) { OthersDoNotRival(k, j, fx); }
    }
  }

  // One row's proposals: its true rate, once, and at most one other, which lies where rivals lie.
  lemma RowProposalsAt(k: nat, fx: real)
    requires k < |GRID| && Sought(GRID[k], fx)
    ensures fx > 0.0 && GRID[k] > 0.0
    ensures Tally(ProposedBy(GRID, GRID[k], fx), fx, 1, if HasRival(GRID[k], fx) then 1 else 0)
  {
    hide GRID, Rivals, Tally, HasRival, Other, Sought, ProposedBy;
    GridSteps(k, k);
    SoughtOffOne(GRID[k], fx);
    BeforePropose(k, fx);
    AfterPropose(k, fx);
    ProposedAround(GRID[..k], GRID[k], GRID[k + 1..], fx);
    assert GRID == GRID[..k] + [GRID[k]] + GRID[k + 1..];
    OtherTally(k, fx);
  }

  lemma ProposedAround(before: seq<real>, g: real, after: seq<real>, fx: real)
    requires g > 0.0 && 0.5 <= fx <= 2.0
    ensures ProposedBy(before + [g] + after, g, fx) == ProposedBy(before, g, fx) + [fx] + ProposedBy(after, g, fx)
  {
    hide Proposing, Collect, Sought;
    TrueProposal(g, fx);
    CollectAround(before, g, after, Proposing(g / fx, 0.5, 2.0));
  }

  lemma OtherTally(k: nat, fx: real)
    requires k < |GRID| && GRID[k] > 0.0 && Sought(GRID[k], fx)
    ensures Tally((if fx > 1.0 then [] else Other(k, fx)) + [fx] + (if fx > 1.0 then Other(k, fx) else []), fx, 1,
                  if HasRival(GRID[k], fx) then 1 else 0)
  {
    hide GRID, Rivals, Tally, HasRival, Sought;
    SoughtOffOne(GRID[k], fx);
    HasRivalAt(k, fx);
    if HasRival(GRID[k], fx) {
      RivalRate(k, fx);
      TallyPair(RateFor(GRID[RivalAt(k, fx)], GRID[k], fx), fx);
    } else {
      TallyOne(fx);
    }
  }

  lemma InBandItself(g: real, fx: real)
    requires g > 0.0 && 0.5 <= fx <= 2.0
    ensures InBand(g, g * fx)
  {
    ScaleAtMost(g, 0.5, fx);
    ScaleAtMost(g, fx, 2.0);
  }

  lemma TrueProposal(g: real, fx: real)
    requires g > 0.0 && 0.5 <= fx <= 2.0
    ensures g / fx > 0.0 && Proposing(g / fx, 0.5, 2.0)(g) == Some(fx)
  {
    hide InBand, Proposing;
    ProposalFor(g, g, fx);
    InBandItself(g, fx);
    QuotientUnique(g * fx, g, fx);
  }

  lemma BeforeRivals(k: nat, fx: real)
    requires k < |GRID| && Sought(GRID[k], fx)
    ensures GRID[k] > 0.0
    ensures forall i :: 0 <= i < k ==>
              (GRID[..k][i] > 0.0 && GRID[..k][i] != GRID[k]
               && (i != RivalAt(k, fx) ==> !Rivals(GRID[k], GRID[..k][i], fx)))
  {
    hide GRID, Rivals, Sought, RivalAt;
    GridSteps(k, k);
    forall i | 0 <= i < k
      ensures GRID[i] > 0.0 && GRID[i] != GRID[k] && (i != RivalAt(k, fx) ==> !Rivals(GRID[k], GRID[i], fx))
    {
      GridSteps(i, k);
      if i != RivalAt(k, fx) { OthersDoNotRival(k, i, fx); }
    }
  }

  lemma AfterRivals(k: nat, fx: real)
    requires k < |GRID| && Sought(GRID[k], fx)
    ensures GRID[k] > 0.0
    ensures var s := GRID[k + 1..];
            forall i :: 0 <= i < |s| ==>
              (s[i] > 0.0 && s[i] != GRID[k] && (k + 1 + i != RivalAt(k, fx) ==> !Rivals(GRID[k], s[i], fx)))
  {
    hide GRID, Rivals, Sought, RivalAt;
    var s := GRID[k + 1..];
    GridSteps(k, k);
    forall i | 0 <= i < |s|
      ensures s[i] > 0.0 && s[i] != GRID[k] && (k + 1 + i != RivalAt(k, fx) ==> !Rivals(GRID[k], s[i], fx))
    {
      var j := k + 1 + i;
      assert s[i] == GRID[j];
      GridSteps(j, j);
      GridSteps(k, j);
      if j != RivalAt(k, fx) { OthersDoNotRival(k, j, fx); }
    }
  }

  // The one rate besides the true one that the row can propose.
  function Other(k: nat, fx: real): seq<real>
    requires k < |GRID| && GRID[k] > 0.0
  {
    var n := RivalAt(k, fx);
    if 0 <= n < |GRID| && Rivals(GRID[k], GRID[n], fx) then [RateFor(GRID[n], GRID[k], fx)] else []
  }

  lemma BeforePropose(k: nat, fx: real)
    requires k < |GRID| && Sought(GRID[k], fx)
    ensures fx > 0.0 && GRID[k] > 0.0
    ensures ProposedBy(GRID[..k], GRID[k], fx) == if fx > 1.0 then [] else Other(k, fx)
  {
    hide GRID, Rivals, ProposedBy, RateFor, Sought;
    SoughtOffOne(GRID[k], fx);
    BeforeRivals(k, fx);
    if fx > 1.0 || k == 0 {
      NoProposal(GRID[..k], GRID[k], fx);
    } else {
      LoneProposal(GRID[..k], k - 1, GRID[k], GRID[k - 1], fx);
    }
  }

  lemma AfterPropose(k: nat, fx: real)
    requires k < |GRID| && Sought(GRID[k], fx)
    ensures fx > 0.0 && GRID[k] > 0.0
    ensures ProposedBy(GRID[k + 1..], GRID[k], fx) == if fx > 1.0 then Other(k, fx) else []
  {
    hide GRID, Rivals, ProposedBy, RateFor, Sought;
    SoughtOffOne(GRID[k], fx);
    AfterRivals(k, fx);
    if fx <= 1.0 || k + 1 == |GRID| {
      NoProposal(GRID[k + 1..], GRID[k], fx);
    } else {
      LoneProposal(GRID[k + 1..], 0, GRID[k], GRID[k + 1], fx);
    }
  }

  // cs holds n times fx, k values where rivals lie, and nothing else.
  ghost predicate Tally(cs: seq<real>, fx: real, n: nat, k: nat) {
    && CountIn(cs, fx, fx) == n && CountIn(cs, RivalLow(fx), RivalHigh(fx)) == k && |cs| == n + k
    && forall i :: 0 <= i < |cs| ==> cs[i] == fx || RivalLow(fx) <= cs[i] <= RivalHigh(fx)
  }

  lemma TallyOne(fx: real)
    requires fx > 0.0
    ensures Tally([] + [fx] + [], fx, 1, 0)
  {
    assert [fx][1..] == [] && [] + [fx] + [] == [fx];
  }

  lemma TallyPair(v: real, fx: real)
    requires fx > 0.0 && RivalLow(fx) <= v <= RivalHigh(fx)
    ensures Tally([] + [fx] + [v], fx, 1, 1) && Tally([v] + [fx] + [], fx, 1, 1)
  {
    assert [] + [fx] + [v] == [fx, v] && [v] + [fx] + [] == [v, fx];
    assert [fx, v][1..] == [v] && [v][1..] == [] && [v, fx][1..] == [fx] && [fx][1..] == [];
  }

  // ---- All proposals of a group whose true rate is fx ----

  lemma RowProposals(g: real, fx: real)
    requires g in GRID && Sought(g, fx)
    ensures fx > 0.0 && g > 0.0 && Tally(ProposedBy(GRID, g, fx), fx, 1, if HasRival(g, fx) then 1 else 0)
  {
    hide GRID, Tally, HasRival, ProposedBy, Sought;
    var k :| 0 <= k < |GRID| && GRID[k] == g;
    RowProposalsAt(k, fx);
  }

  ghost predicate RivalledRow(row: Row, sRef: real, fx: real) {
    ExactlyPriced(row, sRef, fx) && HasRival(TrueRatio(row, sRef, fx), fx)
  }

  // The row is quoted at its intrinsic value under a rate of [lo, hi].
  ghost predicate OwnRate(row: Row, sRef: real, lo: real, hi: real, f: real) {
    lo <= f <= hi && ExactlyPriced(row, sRef, f)
  }

  // Its price then fits another grid ratio at a rate of the search band as well.
  ghost predicate NearRivalled(row: Row, sRef: real, lo: real, hi: real) {
    exists f :: OwnRate(row, sRef, lo, hi, f) && RivalledRow(row, sRef, f)
  }

  // A row whose price stands for some rate of [lo, hi], an interval no wider than the row's tolerances.
  ghost predicate NearRow(row: Row, sRef: real, lo: real, hi: real) {
    (exists f :: OwnRate(row, sRef, lo, hi, f)) && hi - lo <= 0.003 * Min(10.0, row.leverage) * lo
  }

  ghost predicate AllNear(rows: seq<Row>, sRef: real, lo: real, hi: real) {
    && sRef > 0.0 && 0.5 <= lo <= hi <= 2.0
    && forall row :: row in rows ==> NearRow(row, sRef, lo, hi) && IsUnresolved(DEFAULT, row, sRef)
  }

  ghost function CountRivalled(rows: seq<Row>, sRef: real, lo: real, hi: real): (n: nat)
    ensures n <= |rows|
    ensures n == |rows| <==> forall row :: row in rows ==> NearRivalled(row, sRef, lo, hi)
  {
    if rows == [] then 0
    else
      var rest, last := rows[..|rows| - 1], rows[|rows| - 1];
      assert rows == rest + [last];
      assert last in rows;
      CountRivalled(rest, sRef, lo, hi) + (if NearRivalled(last, sRef, lo, hi) then 1 else 0)
  }

  lemma RawOverFx(price: real, fx: real, m: real)
    requires fx > 0.0 && m > 0.0
    ensures RawRatio(price, fx, m) / fx == price / m
  {
    RawAtFx(price, fx, m);
    QuotientUnique(RawRatio(price, fx, m), fx, price / m);
  }

  lemma FloatingProposals(row: Row, sRef: real, fx: real)
    requires ExactlyPriced(row, sRef, fx) && IsUnresolved(DEFAULT, row, sRef)
    ensures TrueRatio(row, sRef, fx) > 0.0
    ensures RowCandidates(DEFAULT, row, sRef) == ProposedBy(GRID, TrueRatio(row, sRef, fx), fx)
  {
    hide Proposing, Collect;
    var g := TrueRatio(row, sRef, fx);
    GridPositive(g);
    QuotientOrder(g, fx, 0.0);
    RawOverFx(row.MidPrice().value, fx, Moneyness(row.financing, sRef));
  }

  // fx = 1 explains a row whose price is exactly that of some ratio.
  lemma UnresolvedIsSought(row: Row, sRef: real, fx: real)
    requires ExactlyPriced(row, sRef, fx) && IsUnresolved(DEFAULT, row, sRef) && 0.5 <= fx <= 2.0
    ensures Sought(TrueRatio(row, sRef, fx), fx)
  {
    hide TryFx, GRID, TrueRatio, GeometricRow, Moneyness;
    var price, m, g := row.MidPrice().value, Moneyness(row.financing, sRef), TrueRatio(row, sRef, fx);
    ExactIsPricedAt(row, sRef, fx);
    forall h | h in GRID ensures h * fx != g {
      if h * fx == g {
        SameScaled(price, m, h, fx);
        ExactAttempt(row, price, sRef, h, 1.0, true);
      }
    }
  }

  lemma SameScaled(price: real, m: real, h: real, fx: real)
    requires fx > 0.0 && price * fx == h * fx * m
    ensures price * 1.0 == h * m
  {
    assert h * fx * m == h * m * fx;
    SameFactor(price, h * m, fx);
  }

  lemma RowTally(row: Row, sRef: real, fx: real)
    requires 0.5 <= fx <= 2.0 && ExactlyPriced(row, sRef, fx) && IsUnresolved(DEFAULT, row, sRef)
    ensures Tally(RowCandidates(DEFAULT, row, sRef), fx, 1, if RivalledRow(row, sRef, fx) then 1 else 0)
  {
    hide Tally, RowCandidates, TrueRatio, ProposedBy, Sought, IsUnresolved, HasRival, GRID;
    FloatingProposals(row, sRef, fx);
    UnresolvedIsSought(row, sRef, fx);
    RowProposals(TrueRatio(row, sRef, fx), fx);
  }

  // ---- Groups whose rows are priced at rates of one narrow interval ----

  predicate Narrow(lo: real, hi: real) {
    0.5 <= lo <= hi <= 2.0 && hi <= 1.03 * lo && (lo > 1.0 || hi < 1.0)
  }

  // Where the rates proposed by rivals lie.
  function LowestRival(lo: real): real {
    if lo > 1.0 then 0.4 * lo else 2.0 * lo
  }

  function HighestRival(lo: real, hi: real): real {
    if lo > 1.0 then 0.5 * hi else 2.5 * hi
  }

  // cs holds n values of [lo, hi], k where rivals lie, and nothing else.
  ghost predicate Spread(cs: seq<real>, lo: real, hi: real, n: nat, k: nat) {
    && CountIn(cs, lo, hi) == n && CountIn(cs, LowestRival(lo), HighestRival(lo, hi)) == k && |cs| == n + k
    && forall i :: 0 <= i < |cs| ==> lo <= cs[i] <= hi || LowestRival(lo) <= cs[i] <= HighestRival(lo, hi)
  }

  lemma {:induction false} CountInSame(s: seq<real>, a: real, b: real, c: real, d: real)
    requires forall i :: 0 <= i < |s| ==> (a <= s[i] <= b <==> c <= s[i] <= d)
    ensures CountIn(s, a, b) == CountIn(s, c, d)
  {
    if s == [] {
    } else {
      CountInSame(s[1..], a, b, c, d);
    }
  }

  lemma TallySpreads(cs: seq<real>, fx: real, lo: real, hi: real, n: nat, k: nat)
    requires Narrow(lo, hi) && lo <= fx <= hi && Tally(cs, fx, n, k)
    ensures Spread(cs, lo, hi, n, k)
  {
    hide CountIn;
    CountInSame(cs, fx, fx, lo, hi);
    CountInSame(cs, RivalLow(fx), RivalHigh(fx), LowestRival(lo), HighestRival(lo, hi));
  }

  lemma SpreadConcat(cs: seq<real>, ds: seq<real>, lo: real, hi: real, n: nat, k: nat, n': nat, k': nat)
    requires Spread(cs, lo, hi, n, k) && Spread(ds, lo, hi, n', k')
    ensures Spread(cs + ds, lo, hi, n + n', k + k')
  {
    hide CountIn;
    CountInConcat(cs, ds, lo, hi);
    CountInConcat(cs, ds, LowestRival(lo), HighestRival(lo, hi));
  }

  // A row has one rate in a narrow interval.
  lemma OneOwnRate(row: Row, sRef: real, lo: real, hi: real, f: real, f': real)
    requires 0.0 < lo && hi <= 1.03 * lo && OwnRate(row, sRef, lo, hi, f) && OwnRate(row, sRef, lo, hi, f')
    ensures f == f'
  {
    hide GRID, GeometricRow, Moneyness, RawRatio;
    var raw := RawRatio(row.MidPrice().value, 1.0, Moneyness(row.financing, sRef));
    RawAtFx(row.MidPrice().value, f, Moneyness(row.financing, sRef));
    RawAtFx(row.MidPrice().value, f', Moneyness(row.financing, sRef));
    assert TrueRatio(row, sRef, f) == raw * f && TrueRatio(row, sRef, f') == raw * f';
    OneRatio(raw, f, f');
  }

  lemma OneRatio(raw: real, f: real, f': real)
    requires f > 0.0 && f' > 0.0 && f <= 1.03 * f' && f' <= 1.03 * f && raw * f in GRID && raw * f' in GRID
    ensures f == f'
  {
    hide GRID;
    GridPositive(raw * f);
    ProductSign(-raw, f);
    assert -raw * f == -(raw * f);
    ProductOrder(raw, f, 1.03 * f');
    ProductOrder(raw, f', 1.03 * f);
    assert raw * (1.03 * f) == 1.03 * (raw * f) && raw * (1.03 * f') == 1.03 * (raw * f');
    if raw * f < raw * f' { GridApart(raw * f, raw * f'); }
    if raw * f' < raw * f { GridApart(raw * f', raw * f); }
    ProductOrder(raw, f, f');
    ProductOrder(raw, f', f);
  }

  lemma NearTally(row: Row, sRef: real, lo: real, hi: real)
    requires sRef > 0.0 && Narrow(lo, hi) && NearRow(row, sRef, lo, hi) && IsUnresolved(DEFAULT, row, sRef)
    ensures Spread(RowCandidates(DEFAULT, row, sRef), lo, hi, 1, if NearRivalled(row, sRef, lo, hi) then 1 else 0)
  {
    hide Tally, Spread, RowCandidates, IsUnresolved, RivalledRow, ExactlyPriced;
    var f :| OwnRate(row, sRef, lo, hi, f);
    if NearRivalled(row, sRef, lo, hi) {
      var f' :| OwnRate(row, sRef, lo, hi, f') && RivalledRow(row, sRef, f');
      OneOwnRate(row, sRef, lo, hi, f, f');
    }
    RowTally(row, sRef, f);
    TallySpreads(RowCandidates(DEFAULT, row, sRef), f, lo, hi, 1, if RivalledRow(row, sRef, f) then 1 else 0);
  }

  lemma {:induction false} ProposalCounts(rows: seq<Row>, sRef: real, lo: real, hi: real)
    requires AllNear(rows, sRef, lo, hi) && Narrow(lo, hi)
    ensures Spread(AllCandidates(DEFAULT, rows, sRef), lo, hi, |rows|, CountRivalled(rows, sRef, lo, hi))
  {
    hide NearRow, IsUnresolved, NearRivalled, RowCandidates;
    if rows == [] {
    } else {
      hide Spread;
      var rest, last := rows[..|rows| - 1], rows[|rows| - 1];
      assert NearRow(last, sRef, lo, hi) && IsUnresolved(DEFAULT, last, sRef);
      ProposalCounts(rest, sRef, lo, hi);
      NearTally(last, sRef, lo, hi);
      SpreadConcat(AllCandidates(DEFAULT, rest, sRef), RowCandidates(DEFAULT, last, sRef), lo, hi, |rest|,
                   CountRivalled(rest, sRef, lo, hi), 1, if NearRivalled(last, sRef, lo, hi) then 1 else 0);
    }
  }

  // ---- The proposal ----

  lemma {:induction false} DistancesOfMajority(cs: seq<real>, center: real, lo: real, hi: real)
    requires lo <= center <= hi
    ensures CountIn(DistancesFrom(cs, center), 0.0, hi - lo) >= CountIn(cs, lo, hi)
  {
    if cs == [] {
    } else {
      DistancesOfMajority(cs[1..], center, lo, hi);
      assert DistancesFrom(cs, center)[1..] == DistancesFrom(cs[1..], center);
    }
  }

  // A strict majority in [lo, hi] keeps the median there and the median distance within its width.
  lemma MajorityHoldsMedian(cs: seq<real>, lo: real, hi: real)
    requires 2 * CountIn(cs, lo, hi) > |cs|
    ensures cs != [] && lo <= Median(cs) <= hi && 0.0 <= MedianDistance(cs) <= hi - lo
  {
    hide CountIn, Median;
    MajorityPinsMedian(cs, lo, hi);
    DistancesOfMajority(cs, Median(cs), lo, hi);
    MajorityPinsMedian(DistancesFrom(cs, Median(cs)), 0.0, hi - lo);
  }

  // The filter then never reaches the rivals' rates.
  lemma RivalsAreFiltered(cs: seq<real>, lo: real, hi: real, n: nat, k: nat)
    requires Narrow(lo, hi) && Spread(cs, lo, hi, n, k) && k < n
    ensures cs != [] && lo <= Median(cs) <= hi && 0.0 <= MedianDistance(cs) <= hi - lo
    ensures forall x :: x in cs && Abs(x - Median(cs)) <= 5.0 * 1.4826 * MedianDistance(cs) ==> lo <= x <= hi
  {
    hide CountIn, Median, MedianDistance;
    MajorityHoldsMedian(cs, lo, hi);
  }

  lemma MajorityProposes(cs: seq<real>, lo: real, hi: real, n: nat, k: nat)
    requires Narrow(lo, hi) && Spread(cs, lo, hi, n, k) && k < n
    ensures cs != [] && lo <= RobustFxMedian(cs, 5.0).value <= hi
    ensures MedianDistance(cs) > 0.0 && (forall x :: x in Inside(cs, lo, hi) ==>
              Abs(x - Median(cs)) <= 5.0 * 1.4826 * MedianDistance(cs)) ==>
              Inside(cs, lo, hi) != [] && RobustFxMedian(cs, 5.0) == Some(Median(Inside(cs, lo, hi)))
  {
    hide CountIn, Median, Spread, DistancesFrom, Collect;
    RivalsAreFiltered(cs, lo, hi, n, k);
    var center, threshold := Median(cs), 5.0 * ScaledMad(cs);
    assert threshold == 5.0 * 1.4826 * MedianDistance(cs);
    var f := x => if Abs(x - center) <= threshold then Some(x) else None;
    var accepted := Near(cs, center, threshold);
    forall i | 0 <= i < |accepted| ensures lo <= accepted[i] <= hi {
      var j := CollectFrom(cs, f, i);
      assert cs[j] in cs && accepted[i] == cs[j];
    }
    if accepted != [] { MedianWithin(accepted, lo, hi); }
    InsideMembers(cs, lo, hi);
    SomeInside(cs, lo, hi, n, k);
    if MedianDistance(cs) > 0.0 && forall x :: x in Inside(cs, lo, hi) ==>
         Abs(x - center) <= 5.0 * 1.4826 * MedianDistance(cs) {
      FilteredMedian(cs, 5.0, lo, hi);
    }
  }

  lemma InsideMembers(cs: seq<real>, lo: real, hi: real)
    ensures forall x :: x in cs && lo <= x <= hi ==> x in Inside(cs, lo, hi)
  {
    forall x | x in cs && lo <= x <= hi ensures x in Inside(cs, lo, hi) {
      CollectMember(cs, Within(lo, hi), x);
    }
  }

  lemma SomeInside(cs: seq<real>, lo: real, hi: real, n: nat, k: nat)
    requires Spread(cs, lo, hi, n, k) && n > 0
    ensures Inside(cs, lo, hi) != []
  {
    hide CountIn, Collect;
    if forall i :: 0 <= i < |cs| ==> cs[i] < lo || hi < cs[i] {
      CountInNone(cs, lo, hi);
    } else {
      var i :| 0 <= i < |cs| && lo <= cs[i] <= hi;
      CollectSome(cs, Within(lo, hi), i);
    }
  }

  lemma {:induction false} NearAll(cs: seq<real>, center: real, threshold: real)
    requires forall i :: 0 <= i < |cs| ==> Abs(cs[i] - center) <= threshold
    ensures Near(cs, center, threshold) == cs
  {
    if cs == [] {
    } else {
      NearAll(cs[1..], center, threshold);
    }
  }

  // When no value is nearer than l nor further than r from where the median can lie, and the filter
  // reaches from l to r, everything survives and the plain median is returned.
  lemma EvenSplitSurvives(cs: seq<real>, a: real, b: real, c: real, d: real, l: real, r: real, madK: real)
    requires EvenSplit(cs, a, b, c, d)
    requires 0.0 < l <= (a + c) / 2.0 - b && l <= c - (b + d) / 2.0
    requires (b + d) / 2.0 - a <= r && d - (a + c) / 2.0 <= r
    requires madK > 0.0 && r <= madK * (l * MAD_TO_STD)
    ensures RobustFxMedian(cs, madK) == Some(Median(cs))
  {
    hide CountIn, Median, RobustFxMedian;
    MedianOfEvenSplit(cs, a, b, c, d);
    EvenSplitDistances(cs, a, b, c, d, Median(cs), l, r);
    AllSurvive(cs, l, r, madK);
  }

  lemma AllSurvive(cs: seq<real>, l: real, r: real, madK: real)
    requires cs != [] && forall i :: 0 <= i < |cs| ==> l <= Abs(cs[i] - Median(cs)) <= r
    requires 0.0 < l && madK > 0.0 && r <= madK * (l * MAD_TO_STD)
    ensures RobustFxMedian(cs, madK) == Some(Median(cs))
  {
    hide CountIn, Median, Near, DistancesFrom;
    MedianWithin(DistancesFrom(cs, Median(cs)), l, r);
    ReachesAll(Median(DistancesFrom(cs, Median(cs))), l, r, madK);
    NearAll(cs, Median(cs), madK * ScaledMad(cs));
  }

  lemma EvenSplitDistances(cs: seq<real>, a: real, b: real, c: real, d: real, center: real, l: real, r: real)
    requires EvenSplit(cs, a, b, c, d) && (a + c) / 2.0 <= center <= (b + d) / 2.0
    requires l <= (a + c) / 2.0 - b && l <= c - (b + d) / 2.0
    requires (b + d) / 2.0 - a <= r && d - (a + c) / 2.0 <= r
    ensures cs != [] && forall i :: 0 <= i < |cs| ==> l <= Abs(cs[i] - center) <= r
  {
    hide CountIn;
    forall i | 0 <= i < |cs| ensures l <= Abs(cs[i] - center) <= r {
      assert a <= cs[i] <= b || c <= cs[i] <= d;
    }
  }

  lemma ReachesAll(mad: real, l: real, r: real, madK: real)
    requires 0.0 < l <= mad && madK > 0.0 && r <= madK * (l * MAD_TO_STD)
    ensures mad * MAD_TO_STD > 0.0 && r <= madK * (mad * MAD_TO_STD)
  {
    ProductOrder(madK, l * MAD_TO_STD, mad * MAD_TO_STD);
  }

  // With as many rivals' rates as true ones, the proposal lies strictly between the two.
  predicate NearMiss(fx: real, y: real) {
    if fx > 1.0 then 0.67 * fx <= y <= 0.78 * fx else 1.45 * fx <= y <= 1.81 * fx
  }

  lemma EvenSpreadMisses(cs: seq<real>, lo: real, hi: real, n: nat) returns (y: real)
    requires n > 0 && Spread(cs, lo, hi, n, n) && Narrow(lo, hi)
    ensures RobustFxMedian(cs, 5.0) == Some(y) && y > 0.0
    ensures forall f :: lo <= f <= hi ==> NearMiss(f, y)
  {
    hide CountIn, RobustFxMedian, Median;
    y := Median(cs);
    if lo > 1.0 {
      assert EvenSplit(cs, 0.4 * lo, 0.5 * hi, lo, hi);
      EvenSplitSurvives(cs, 0.4 * lo, 0.5 * hi, lo, hi, 0.18 * lo, 0.38 * lo, 5.0);
      MedianOfEvenSplit(cs, 0.4 * lo, 0.5 * hi, lo, hi);
    } else {
      assert EvenSplit(cs, lo, hi, 2.0 * lo, 2.5 * hi);
      EvenSplitSurvives(cs, lo, hi, 2.0 * lo, 2.5 * hi, 0.19 * lo, 1.1 * lo, 5.0);
      MedianOfEvenSplit(cs, lo, hi, 2.0 * lo, 2.5 * hi);
    }
  }

  // ---- The support test ----

  // A row verifies at every rate as near to its own as its tolerances are wide.
  lemma NearRateVerifies(row: Row, sRef: real, f: real, y: real)
    requires ExactlyPriced(row, sRef, f) && y > 0.0 && Abs(y - f) <= 0.003 * Min(10.0, row.leverage) * f
    ensures TryFx(DEFAULT, row, row.MidPrice().value, sRef, y, true).verified
  {
    hide TryFx, GRID, RawRatio, Deviation, Snap, AttemptRatio, Moneyness;
    var price, m, g := row.MidPrice().value, Moneyness(row.financing, sRef), TrueRatio(row, sRef, f);
    var raw := RawRatio(price, y, m);
    GridPositive(g);
    NearDeviation(price, m, g, f, y);
    NearVerified(row, price, sRef, g, y);
  }

  lemma NearDeviation(price: real, m: real, g: real, f: real, y: real)
    requires m > 0.0 && g > 0.0 && f > 0.0 && g == RawRatio(price, f, m)
    ensures Deviation(RawRatio(price, y, m), g) == Abs(y - f) / f
  {
    hide RawRatio;
    var raw := RawRatio(price, 1.0, m);
    RawAtFx(price, f, m);
    RawAtFx(price, y, m);
    DeviationAsQuotient(raw * y, g);
    QuotientTimes(y, f);
    assert y / f * g == raw * y;
    QuotientUnique(raw * y, g, y / f);
    RelativeGap(y / f, f);
    QuotientUnique(Abs(y - f), f, Abs(y / f - 1.0));
  }

  lemma NearVerified(row: Row, price: real, sRef: real, g: real, y: real)
    requires GeometricRow(row, sRef) && Moneyness(row.financing, sRef) > 0.0 && g in GRID && g > 0.0 && y > 0.0
    requires Deviation(RawRatio(price, y, Moneyness(row.financing, sRef)), g) <= 0.003 * Min(10.0, row.leverage)
    ensures TryFx(DEFAULT, row, price, sRef, y, true).verified
  {
    hide Snap, GRID, AttemptRatio, Deviation, RawRatio, Moneyness, ScaledSnapTolerance, ScaledSpotTolerance;
    var m, snapTol, spotTol := Moneyness(row.financing, sRef), ScaledSnapTolerance(row.leverage, DEFAULT),
                               ScaledSpotTolerance(row.leverage, DEFAULT);
    var d := Deviation(RawRatio(price, y, m), g);
    DefaultTolerances(row.leverage);
    SpotToleranceCovers(row.leverage);
    SnapWithin(RawRatio(price, y, m), g, snapTol);
    VerificationIdentity(row.direction, row.financing, price, sRef, y, snapTol, spotTol, g);
    ScaleAtMost(m, d, spotTol * row.leverage);
    assert m * (spotTol * row.leverage) == spotTol * sRef;
  }

  lemma SpotToleranceCovers(leverage: real)
    requires leverage > 0.0
    ensures 0.003 * Min(10.0, leverage) <= ScaledSpotTolerance(leverage, DEFAULT) * leverage
  {
    if leverage > 20.0 { QuotientTimes(0.003, leverage / 20.0); }
  }

  lemma {:induction false} NearRateVerifiesAll(rows: seq<Row>, sRef: real, lo: real, hi: real, y: real)
    requires AllNear(rows, sRef, lo, hi) && lo <= y <= hi
    ensures CountVerified(DEFAULT, rows, sRef, y) == |rows|
  {
    hide TryFx, ExactlyPriced, IsUnresolved;
    if rows == [] {
    } else {
      var last := rows[|rows| - 1];
      assert last in rows && NearRow(last, sRef, lo, hi);
      NearRateVerifiesAll(rows[..|rows| - 1], sRef, lo, hi, y);
      NearRowVerifies(last, sRef, lo, hi, y);
    }
  }

  lemma NearRowVerifies(row: Row, sRef: real, lo: real, hi: real, y: real)
    requires 0.0 < lo <= y <= hi && NearRow(row, sRef, lo, hi)
    ensures row.MidPrice().Some? && sRef > 0.0 && TryFx(DEFAULT, row, row.MidPrice().value, sRef, y, true).verified
  {
    hide TryFx, GRID, TrueRatio, Moneyness, Min, Abs;
    var f :| OwnRate(row, sRef, lo, hi, f);
    CloseInInterval(0.003 * Min(10.0, row.leverage), lo, hi, f, y);
    NearRateVerifies(row, sRef, f, y);
  }

  lemma CloseInInterval(t: real, lo: real, hi: real, f: real, y: real)
    requires t > 0.0 && lo <= f <= hi && lo <= y <= hi && hi - lo <= t * lo
    ensures Abs(y - f) <= t * f
  {
    calc {
      Abs(y - f);
    <=
      hi - lo;
    <=
      t * lo;
    <= { ScaleAtMost(t, lo, f); }
      t * f;
    }
  }

  // Such a rate explains no row: it leaves every price well off every ratio.
  lemma MissFails(row: Row, sRef: real, fx: real, y: real)
    requires ExactlyPriced(row, sRef, fx) && y > 0.0 && NearMiss(fx, y)
    ensures !TryFx(DEFAULT, row, row.MidPrice().value, sRef, y, true).verified
  {
    hide TryFx, GRID, NearMiss, RawRatio, Deviation;
    var price, m, g := row.MidPrice().value, Moneyness(row.financing, sRef), TrueRatio(row, sRef, fx);
    RawAtFx(price, fx, m);
    RawAtFx(price, y, m);
    GridPositive(g);
    MissScales(RawRatio(price, 1.0, m), fx, y);
    if TryFx(DEFAULT, row, price, sRef, y, true).verified {
      VerifiedIsNear(row, price, sRef, y);
      MissIsOff(g, TryFx(DEFAULT, row, price, sRef, y, true).ratio.value, RawRatio(price, y, m));
    }
  }

  predicate OffRatio(g: real, p: real) {
    0.67 * g <= p <= 0.78 * g || 1.45 * g <= p <= 1.81 * g
  }

  lemma MissScales(raw: real, fx: real, y: real)
    requires fx > 0.0 && raw * fx > 0.0 && NearMiss(fx, y)
    ensures OffRatio(raw * fx, raw * y)
  {
    ProductSign(-raw, fx);
    assert -raw * fx == -(raw * fx);
    var g := raw * fx;
    assert raw * (0.67 * fx) == 0.67 * g && raw * (0.78 * fx) == 0.78 * g;
    assert raw * (1.45 * fx) == 1.45 * g && raw * (1.81 * fx) == 1.81 * g;
    ProductOrder(raw, 0.67 * fx, y);
    ProductOrder(raw, y, 0.78 * fx);
    ProductOrder(raw, 1.45 * fx, y);
    ProductOrder(raw, y, 1.81 * fx);
  }

  lemma MissIsOff(g: real, h: real, p: real)
    requires g in GRID && h in GRID && h > 0.0 && OffRatio(g, p)
    ensures Deviation(p, h) > 0.06
  {
    hide GRID, Deviation;
    DeviationAtMost(p, h, 0.06);
    GridPositive(g);
    if g < h { GridApart(g, h); }
    if h < g { GridApart(h, g); }
  }

  lemma {:induction false} MissVerifiesNone(rows: seq<Row>, sRef: real, lo: real, hi: real, y: real)
    requires AllNear(rows, sRef, lo, hi) && y > 0.0 && forall f :: lo <= f <= hi ==> NearMiss(f, y)
    ensures CountVerified(DEFAULT, rows, sRef, y) == 0
  {
    hide NearMiss, TryFx, ExactlyPriced, IsUnresolved;
    if rows == [] {
    } else {
      var last := rows[|rows| - 1];
      assert last in rows && NearRow(last, sRef, lo, hi);
      MissVerifiesNone(rows[..|rows| - 1], sRef, lo, hi, y);
      var f :| OwnRate(last, sRef, lo, hi, f);
      MissFails(last, sRef, f, y);
    }
  }

  // ---- The decision ----

  // Rows whose rates lie around 1 within their tolerances would have been explained by fx = 1.
  lemma UnresolvedAreNarrow(rows: seq<Row>, sRef: real, lo: real, hi: real)
    requires AllNear(rows, sRef, lo, hi) && rows != []
    ensures Narrow(lo, hi)
  {
    hide TryFx, GRID, TrueRatio, GeometricRow, Moneyness;
    assert rows[0] in rows && NearRow(rows[0], sRef, lo, hi) && IsUnresolved(DEFAULT, rows[0], sRef);
    if lo <= 1.0 <= hi { NearRowVerifies(rows[0], sRef, lo, hi, 1.0); }
    ScaleAtMost(lo, 0.003 * Min(10.0, rows[0].leverage), 0.03);
  }

  // Rows that fx = 1 leaves unexplained, each priced at its own rate of one interval within the rows'
  // tolerances: a rate of the interval is learned iff there are five rows and one of them is not rivalled,
  // and otherwise none is. Where the filter keeps the interval, the rate is the median of the proposals in it.
  lemma LearnFromNear(rows: seq<Row>, sRef: real, lo: real, hi: real)
    requires AllNear(rows, sRef, lo, hi)
    ensures var learned, cs := LearnFrom(DEFAULT, rows, sRef), AllCandidates(DEFAULT, rows, sRef);
            if |rows| >= 5 && exists row :: row in rows && !NearRivalled(row, sRef, lo, hi)
            then learned.Some? && lo <= learned.value <= hi && cs != [] && MedianIfKept(cs, lo, hi, learned.value)
            else learned.None?
  {
    hide AllCandidates, CountVerified, RobustFxMedian, CountRivalled, IsUnresolved, NearRow, NearRivalled, NearMiss,
         Median, Spread, MedianDistance, Inside, Narrow;
    if |rows| >= 5 {
      var n, k, cs := |rows|, CountRivalled(rows, sRef, lo, hi), AllCandidates(DEFAULT, rows, sRef);
      UnresolvedAreNarrow(rows, sRef, lo, hi);
      ProposalCounts(rows, sRef, lo, hi);
      SpreadLength(cs, lo, hi, n, k);
      if k < n {
        MajorityProposes(cs, lo, hi, n, k);
        NearRateVerifiesAll(rows, sRef, lo, hi, RobustFxMedian(cs, 5.0).value);
        QuotientUnique(n as real, n as real, 1.0);
      } else {
        var y := EvenSpreadMisses(cs, lo, hi, n);
        MissVerifiesNone(rows, sRef, lo, hi, y);
        QuotientUnique(0.0, n as real, 0.0);
      }
    }
  }

  lemma SpreadLength(cs: seq<real>, lo: real, hi: real, n: nat, k: nat)
    requires Spread(cs, lo, hi, n, k)
    ensures |cs| == n + k
  {
  }

  // When the filter's width, 5 * 1.4826 median distances, covers the proposals in [lo, hi], y is their median.
  ghost predicate MedianIfKept(cs: seq<real>, lo: real, hi: real, y: real)
    requires cs != []
  {
    MedianDistance(cs) > 0.0 && (forall x :: x in Inside(cs, lo, hi) ==>
      Abs(x - Median(cs)) <= 5.0 * 1.4826 * MedianDistance(cs)) ==>
        Inside(cs, lo, hi) != [] && y == Median(Inside(cs, lo, hi))
  }

  ghost predicate AllFloating(rows: seq<Row>, sRef: real, fx: real) {
    sRef > 0.0 && forall row :: row in rows ==> ExactlyPriced(row, sRef, fx) && IsUnresolved(DEFAULT, row, sRef)
  }

  // Exactly priced rows have one rate.
  lemma LearnFromFloating(rows: seq<Row>, sRef: real, fx: real)
    requires AllFloating(rows, sRef, fx) && 0.5 <= fx <= 2.0
    ensures LearnFrom(DEFAULT, rows, sRef) ==
            if |rows| >= 5 && exists row :: row in rows && !RivalledRow(row, sRef, fx) then Some(fx) else None
  {
    hide LearnFrom, IsUnresolved, GRID, TrueRatio, Moneyness, HasRival;
    forall row | row in rows
      ensures NearRow(row, sRef, fx, fx) && (NearRivalled(row, sRef, fx, fx) <==> RivalledRow(row, sRef, fx))
    {
      assert OwnRate(row, sRef, fx, fx, fx);
      ProductSign(0.003 * Min(10.0, row.leverage), fx);
    }
    LearnFromNear(rows, sRef, fx, fx);
  }

  // The same for an issuer's group: the hypothesis is on the rows that fx = 1 leaves unexplained.
  lemma NearlyLearnedIff(rows: seq<Row>, sRef: real, issuer: string, lo: real, hi: real)
    requires sRef > 0.0 && 0.5 <= lo <= hi <= 2.0
    requires forall row :: row in Unresolved(DEFAULT, Group(rows, issuer), sRef) ==> NearRow(row, sRef, lo, hi)
    ensures var rest, learned := Unresolved(DEFAULT, Group(rows, issuer), sRef), LearnFor(DEFAULT, rows, sRef, issuer);
            if |rest| >= 5 && exists row :: row in rest && !NearRivalled(row, sRef, lo, hi)
            then learned.Some? && lo <= learned.value <= hi && AllCandidates(DEFAULT, rest, sRef) != []
                 && MedianIfKept(AllCandidates(DEFAULT, rest, sRef), lo, hi, learned.value)
            else learned.None?
  {
    hide IsUnresolved, NearRow, NearRivalled, LearnFrom, AllCandidates, MedianIfKept;
    var rest := Unresolved(DEFAULT, Group(rows, issuer), sRef);
    forall row | row in rest ensures IsUnresolved(DEFAULT, row, sRef) {
      var i :| 0 <= i < |rest| && rest[i] == row;
    }
    LearnFromNear(rest, sRef, lo, hi);
  }

  // Whatever fx = 1 leaves unexplained among exactly priced products is a non-quanto one.
  lemma UnresolvedIsFloating(row: Row, sRef: real, fx: real)
    requires sRef > 0.0 && IsUnresolved(DEFAULT, row, sRef)
    requires ExactlyPriced(row, sRef, 1.0) || ExactlyPriced(row, sRef, fx)
    ensures ExactlyPriced(row, sRef, fx)
  {
    hide TryFx, TrueRatio, PricedAt;
    if ExactlyPriced(row, sRef, 1.0) {
      ExactIsPricedAt(row, sRef, 1.0);
      ExactAttempt(row, row.MidPrice().value, sRef, TrueRatio(row, sRef, 1.0), 1.0, true);
    }
  }

  // The unexplained rows are enough to learn fx from.
  ghost predicate RateShows(group: seq<Row>, sRef: real, fx: real)
    requires sRef > 0.0
  {
    var rest := Unresolved(DEFAULT, group, sRef);
    |rest| >= 5 && exists row :: row in rest && !RivalledRow(row, sRef, fx)
  }

  // What the learning step makes of an exactly priced issuer group, at every true rate: it finds the rate if
  // and only if the rate lies in the search band, at least five products are left unexplained by fx = 1, and
  // the price of one of these fits no other grid ratio at a rate of the band. Within the band it finds no
  // other rate either. An issuer quoting one single ratio with a rival (0.01, say) is never learned.
  lemma LearnedIff(rows: seq<Row>, sRef: real, issuer: string, fx: real)
    requires sRef > 0.0
    requires forall row :: row in Group(rows, issuer) ==> ExactlyPriced(row, sRef, 1.0) || ExactlyPriced(row, sRef, fx)
    ensures var learned := LearnFor(DEFAULT, rows, sRef, issuer);
            && (learned == Some(fx) <==> 0.5 <= fx <= 2.0 && RateShows(Group(rows, issuer), sRef, fx))
            && (0.5 <= fx <= 2.0 ==> learned == Some(fx) || learned == None)
  {
    hide IsUnresolved, ExactlyPriced, RivalledRow, LearnFrom;
    var rest := Unresolved(DEFAULT, Group(rows, issuer), sRef);
    forall row | row in rest ensures ExactlyPriced(row, sRef, fx) && IsUnresolved(DEFAULT, row, sRef) {
      UnresolvedIsFloating(row, sRef, fx);
    }
    if 0.5 <= fx <= 2.0 { LearnFromFloating(rest, sRef, fx); }
  }

  // ---- Which products fx = 1 explains ----

  // The rates at which fx = 1 explains no non-quanto product: see `LearnableIff` and `UnexplainedIff`.
  predicate Learnable(fx: real) {
    50.0 / 47.0 < fx < 100.0 / 53.0 || 25.0 / 47.0 < fx < 50.0 / 53.0
  }

  lemma LearnableIff(fx: real)
    requires 0.5 <= fx <= 2.0
    ensures Learnable(fx) <==> Apart(1.0 / fx)
  {
    hide Apart;
    InverseBounds(fx);
    ApartIff(1.0 / fx);
  }

  lemma InverseBounds(fx: real)
    requires fx > 0.0
    ensures 0.5 <= fx <= 2.0 <==> 0.5 <= 1.0 / fx <= 2.0
    ensures Learnable(fx) <==> 0.53 < 1.0 / fx < 0.94 || 1.06 < 1.0 / fx < 1.88
  {
    QuotientOrder(1.0, fx, 0.5);
    QuotientOrder(1.0, fx, 2.0);
    QuotientOrder(1.0, fx, 0.53);
    QuotientOrder(1.0, fx, 0.94);
    QuotientOrder(1.0, fx, 1.06);
    QuotientOrder(1.0, fx, 1.88);
  }

  lemma LearnableApart(fx: real)
    requires Learnable(fx)
    ensures fx > 0.0 && Apart(1.0 / fx)
  {
    hide Apart;
    LearnableIff(fx);
  }

  // The non-quanto rows of a list of exactly priced products.
  ghost function Floating(rows: seq<Row>, sRef: real, fx: real): (r: seq<Row>)
    ensures forall row :: row in r ==> row in rows && ExactlyPriced(row, sRef, fx)
  {
    if rows == [] then []
    else
      var last := rows[|rows| - 1];
      Floating(rows[..|rows| - 1], sRef, fx) + (if ExactlyPriced(last, sRef, fx) then [last] else [])
  }

  // Exactly the non-quanto rows are left unexplained by fx = 1.
  lemma UnresolvedIffFloating(row: Row, sRef: real, fx: real)
    requires Learnable(fx) && sRef > 0.0
    requires ExactlyPriced(row, sRef, 1.0) || ExactlyPriced(row, sRef, fx)
    ensures IsUnresolved(DEFAULT, row, sRef) <==> ExactlyPriced(row, sRef, fx)
  {
    hide TryFx, Apart, TrueRatio, PricedAt, Learnable;
    var price := row.MidPrice().value;
    if ExactlyPriced(row, sRef, fx) {
      LearnableApart(fx);
      ExactIsPricedAt(row, sRef, fx);
      ApartFails(row, price, sRef, TrueRatio(row, sRef, fx), fx, 1.0);
    } else {
      ExactIsPricedAt(row, sRef, 1.0);
      ExactAttempt(row, price, sRef, TrueRatio(row, sRef, 1.0), 1.0, true);
    }
  }

  // fx = 1 leaves every exactly priced non-quanto product unexplained iff the inverse rate takes no grid
  // ratio to within six percent of another: at other rates it explains some, which the learning step skips.
  lemma UnexplainedIff(fx: real)
    requires fx > 0.0
    ensures (forall row, sRef :: sRef > 0.0 && ExactlyPriced(row, sRef, fx) ==> IsUnresolved(DEFAULT, row, sRef))
       <==> Apart(1.0 / fx)
  {
    hide TryFx, Apart, TrueRatio, PricedAt;
    if Apart(1.0 / fx) {
      forall row, sRef | sRef > 0.0 && ExactlyPriced(row, sRef, fx) ensures IsUnresolved(DEFAULT, row, sRef) {
        ExactIsPricedAt(row, sRef, fx);
        ApartFails(row, row.MidPrice().value, sRef, TrueRatio(row, sRef, fx), fx, 1.0);
      }
    } else {
      var g, h := NotApart(1.0 / fx);
      var row := ConfusedRow(g, h, false, fx);
      PricedIsExact(row, 40.0, g, fx);
      assert !IsUnresolved(DEFAULT, row, 40.0);
    }
  }

  lemma PricedIsExact(row: Row, sRef: real, g: real, fx: real)
    requires row.MidPrice().Some? && PricedAt(row, row.MidPrice().value, sRef, g, fx)
    ensures ExactlyPriced(row, sRef, fx) && TrueRatio(row, sRef, fx) == g
  {
    hide GRID;
    GeometricApart(row, sRef);
    QuotientUnique(row.MidPrice().value * fx, Moneyness(row.financing, sRef), g);
  }

  lemma {:induction false} UnresolvedAreFloating(rows: seq<Row>, sRef: real, fx: real)
    requires Learnable(fx) && sRef > 0.0
    requires forall row :: row in rows ==> ExactlyPriced(row, sRef, 1.0) || ExactlyPriced(row, sRef, fx)
    ensures Unresolved(DEFAULT, rows, sRef) == Floating(rows, sRef, fx)
    ensures AllFloating(Floating(rows, sRef, fx), sRef, fx)
  {
    if rows == [] {
    } else {
      var last := rows[|rows| - 1];
      assert last in rows;
      UnresolvedAreFloating(rows[..|rows| - 1], sRef, fx);
      UnresolvedIffFloating(last, sRef, fx);
    }
  }

  // At those rates learning is decided by the non-quanto products alone.
  lemma LearnedIffDiverse(rows: seq<Row>, sRef: real, issuer: string, fx: real)
    requires Learnable(fx) && sRef > 0.0
    requires forall row :: row in Group(rows, issuer) ==> ExactlyPriced(row, sRef, 1.0) || ExactlyPriced(row, sRef, fx)
    ensures var floating := Floating(Group(rows, issuer), sRef, fx);
            LearnFor(DEFAULT, rows, sRef, issuer) ==
            if |floating| >= 5 && exists row :: row in floating && !RivalledRow(row, sRef, fx)
            then Some(fx) else None
  {
    hide IsUnresolved, ExactlyPriced, RivalledRow;
    UnresolvedAreFloating(Group(rows, issuer), sRef, fx);
    LearnedIff(rows, sRef, issuer, fx);
  }

  // Without a rate, a product of a foreign underlying passes for a quanto one with this outcome.
  ghost predicate PassesForQuanto(row: Row, sRef: real) {
    && sRef > 0.0 && row.MidPrice().Some?
    && var o := DeriveRatio(DEFAULT, row, row.MidPrice().value, sRef, Some("USD"), None);
       o.Derived? && o.quanto == Some(true)
  }

  lemma PassesIffResolved(row: Row, sRef: real)
    requires sRef > 0.0 && row.MidPrice().Some? && Moneyness(row.financing, sRef) > 0.0
    ensures PassesForQuanto(row, sRef) <==> !IsUnresolved(DEFAULT, row, sRef)
  {
    hide TryFx;
  }

  // While the rate is unknown ambiguity goes unnoticed: some exactly priced non-quanto product passes for a
  // quanto one iff the inverse of its rate takes some grid ratio to within six percent of a grid ratio.
  lemma PassesForQuantoIff(fx: real)
    requires fx > 0.0
    ensures (exists row, sRef :: ExactlyPriced(row, sRef, fx) && PassesForQuanto(row, sRef)) <==> !Apart(1.0 / fx)
  {
    hide Apart, IsUnresolved, PassesForQuanto;
    UnexplainedIff(fx);
    forall row, sRef | sRef > 0.0 && ExactlyPriced(row, sRef, fx)
      ensures PassesForQuanto(row, sRef) <==> !IsUnresolved(DEFAULT, row, sRef)
    {
      PassesIffResolved(row, sRef);
    }
  }
}
