# Verified models of TurboEdge-DE's data adapters

TurboEdge-DE reads turbo certificates and economic series from sources that publish less than the
system needs. This project models the adapters that have to reconstruct the rest, and proves what they
may be relied on for. Everything is proved for all inputs and all runs unless a statement says otherwise.

- **The gettex ratio engine** (`ReferenceSpot`, `Medians`, `RatioGrid`, `RatioDerivation`, `FxLearning`,
  `FxRecovery`, `GettexFetch`). gettex never publishes a product's ratio. The adapter inverts each row's
  leverage, takes a MAD-filtered long/short-balanced median as reference spot, snaps
  price*fx/distance to a grid of fourteen ratios, verifies the result by inversion, and for foreign
  underlyings arbitrates between two exchange rates, one of them learned from the same fetch. Proved: the
  breakdown point of the estimator, that snapping is nearest and monotone, when the two rates can exclude
  each other, when the rate is learned, exact recovery end to end, and the accounting of a whole fetch.
- **JSON-stat cubes and Eurostat series** (`JsonStat`, `Eurostat`, `NativeIdentifier`). The mixed-radix
  index loop is a bijection ordered like its digits; selecting a pinned series out of the decoded cube is
  a direct lookup; the configured identifier survives building and parsing exactly when it is clean.
- **BNP two-ended paging** (`BnpPagination`). What two passes over a book behind an offset ceiling return,
  and exactly which books they cover.
- **FRED paging and vintages** (`FredSeries`). What an archive of pages may be taken for, and how revision
  numbers are assigned.
- **ENTSO-E windows, documents and times** (`Entsoe`). Tiling of the requested span, splitting of
  concatenated documents, and positions to times.
- **The shared HTTP client** (`RateLimiter`, `HttpClient`). The per-host rate limiter as interleaved steps
  of any number of threads, and the retry loop with its counters.

`Wrappers`, `Reals`, `Margins`, `Ints`, `Sequences`, `Sorting` and `Grouping` hold what the components share.

Code that updates state keeps that form here: loops are methods with invariants, the gettex adapter, its
counters and the HTTP client are classes, the index loop writes its digits into an array. Each such method
is tied to a specification function, and the results in the table are proved about that function. Servers
are functions from what is requested to what is answered. Floats are exact reals, instants are integers.

## Where the code and its documentation differ

The model follows the code.

- `fred.py` rules out "returning a short series that looks whole" (line 567). Three exits of the paging loop
  leave no marker; `FredSeries.SilentlyShortIff` says which replies cause that, `FredSeries.CompleteOrFlagged` that
  a server answering as documented never does, and `FredSeries.ShortSeriesLooksWhole` gives a run.
- `base.py` promises requests to one host at least the minimum interval apart (lines 180 and 212). The limiter
  spaces the returns of `wait`; a thread delayed before it sends shortens the gap between the requests.
  `RateLimiter.RequestsSpacedIff` states exactly when the promise holds, `RateLimiter.RequestBound` what is left of it.
- `gettex.py` says that a rate proposed by a wrong grid ratio typically falls outside the search band (lines
  876-882). At rates above parity the next smaller ratio, where the grid steps by two, always proposes one
  inside it (at 1.16, half of 0.01 proposes 0.58). An issuer whose ratios all have such a neighbour is therefore
  never learned: `FxRecovery.LearnedIff`.
- `gettex.py` says that genuine ambiguity between the currency hypotheses is never guessed (line 133). Only a known
  rate is ever compared. Until one is, a non-quanto product that fx = 1 also explains is emitted as quanto, which
  happens to some at 1.05, for instance. `FxRecovery.PassesForQuantoIff` says at which rates it can happen,
  `GettexFetch.DecidedFetch` to which rows of a fetch.
- `entsoe.py` checks positions against the interval. A Period shorter than its resolution expects no points and
  then accepts any position from 1 up, so times past the end: `Entsoe.TimesInsideIff`.
- `issuer_feeds.py` says two passes cover any book up to twice the ceiling (lines 755-760). They do when the
  descending order is the exact reverse of the ascending one. Orders that are merely sorted can lose a product
  tied in leverage; `BnpPagination.SortedCoverageIff` says for exactly which books.

## Model

| member | source | states |
|---|---|---|
| ReferenceSpot.SpotFromLeverageInverts | src/turboedge/adapters/gettex.py:690-712 | for positive financing level and leverage the returned spot is the one and only positive spot on the product's own side of the financing level whose leverage spot/abs(spot - financing) is the reported one, and none is returned exactly when there is none; for other inputs none is returned |
| ReferenceSpot.FilterKeepsHalf | src/turboedge/adapters/gettex.py:738-766 | with mad_k * 1.4826 >= 1 at least half of the candidates survive the MAD filter, used and rejected add up to all, and the empty-filter fallback never happens |
| ReferenceSpot.EstimateWithinHull | src/turboedge/adapters/gettex.py:723-766 | the estimate lies between the smallest and the largest candidate |
| ReferenceSpot.SidesWeighEqually | src/turboedge/adapters/gettex.py:750-757 | of the surviving candidates, a majority of the longs in [a, b] and a majority of the shorts in [c, d] put the estimate in [(a+c)/2, (b+d)/2], however many there are of each |
| ReferenceSpot.UnfilteredBalance | src/turboedge/adapters/gettex.py:750-757 | in particular when nothing is rejected, all longs lie in [a, b] and all shorts in [c, d] |
| ReferenceSpot.LoneSideDecides | src/turboedge/adapters/gettex.py:750-757 | when only one direction survives, a majority of it in [a, b] holds the estimate there |
| ReferenceSpot.SurvivorsIff | src/turboedge/adapters/gettex.py:738-749 | the survivors are exactly the candidates within mad_k * 1.4826 * MAD of the median spot (at MAD zero within its millionth, at least 1e-9), each as often as given |
| ReferenceSpot.BreakdownBound | src/turboedge/adapters/gettex.py:723-766 | when strictly more than half of the candidates lie in [lo, hi], the estimate lies in that interval widened by the filter's threshold at MAD = hi - lo, whatever the other candidates are and however longs and shorts mix |
| ReferenceSpot.HalfIsNotEnough | src/turboedge/adapters/gettex.py:723-766 | exactly half in the interval is not enough: with as many other candidates, for every even number and every mad_k, the estimate can exceed any bound, for any candidate spot and either direction |
| ReferenceSpot.EstimatePermutation | src/turboedge/adapters/gettex.py:723-766 | the estimate and its counts depend on the candidates as a multiset, not on their order |
| ReferenceSpot.EstimateAffine | src/turboedge/adapters/gettex.py:723-766 | for MAD > 0, moving all candidates by x -> c*x + d (c > 0) moves the estimate the same way and leaves every count alone |
| Medians.MajorityPinsMedian | src/turboedge/adapters/gettex.py:738-740 | a strict majority of values in an interval pins the median to it |
| Medians.HalfAtMostMedian | src/turboedge/adapters/gettex.py:738-743 | at least half of the values are at most the median, which is why a threshold of one MAD keeps half |
| RatioGrid.SnapRatio | src/turboedge/adapters/gettex.py:772-784 | the loop returns what the declarative nearest-within-tolerance choice returns, for every raw ratio and tolerance |
| RatioGrid.SnapIsNearest | src/turboedge/adapters/gettex.py:772-784 | for a positive raw ratio a grid value is returned iff it is the global minimum of relative deviation (a tie goes to the larger) and within the tolerance |
| RatioGrid.SnapMonotone | src/turboedge/adapters/gettex.py:772-784 | a larger raw ratio never snaps to a smaller grid value, at any tolerances, the two rows' tolerances being different ones if they like |
| RatioGrid.GridApart | src/turboedge/adapters/gettex.py:257-272 | two different grid values differ by a factor of at least two |
| RatioGrid.SnapWithin | src/turboedge/adapters/gettex.py:257-272 | a grid value within a third of the raw ratio is the one returned |
| RatioGrid.SnapExact | src/turboedge/adapters/gettex.py:772-784 | an exact grid value snaps to itself |
| RatioDerivation.ImpliedInvertsIntrinsic | src/turboedge/pricing/intrinsic.py:24-71 | a spot is the implied underlying of a positive price iff it lies on the in-the-money side and its intrinsic value is that price |
| RatioDerivation.VerificationIdentity | src/turboedge/adapters/gettex.py:794-814 | a snapped row on the right side of the financing level verifies iff deviation * distance <= tolerance * spot, one on the wrong side iff (1 + raw/g) * distance <= tolerance * spot |
| RatioDerivation.DefaultTolerances | src/turboedge/adapters/gettex.py:817-864 | under the default constants the snap tolerance stays within 3% and 50%, the spot tolerance within 0.3%, and spot tolerance * leverage never exceeds 6% |
| RatioDerivation.VerifiedIsNear | src/turboedge/adapters/gettex.py:1591-1639 | for a trusted row (leverage at most 40, or leverage * distance >= spot) a verified attempt has its raw ratio within 6% of the returned grid value; under the second condition the spot is also on the product's own side |
| RatioDerivation.RealisticFxIsClashFree | src/turboedge/adapters/gettex.py:257-272 | no two grid values can both come within 6% under fx and under 1 when 53/47 < fx < 94/53, or under the reciprocal band |
| RatioDerivation.ClashFreeIff | src/turboedge/adapters/gettex.py:257-272 | inside the search band for rates, [0.5, 2], no other rates are clash-free |
| RatioDerivation.AmbiguousNeedsClash | src/turboedge/adapters/gettex.py:1624-1639 | both hypotheses of a trusted row verify only if two grid values clash at that fx |
| RatioDerivation.ClashIsAmbiguous | src/turboedge/adapters/gettex.py:1624-1639 | conversely every clash is met by a geometrically exact row that is returned as ambiguous |
| RatioDerivation.AmbiguityIffClash | src/turboedge/adapters/gettex.py:1556-1639 | a rate can make some trusted row ambiguous iff two grid values clash at it |
| RatioDerivation.HintKeepsQuanto | src/turboedge/adapters/gettex.py:1556-1639 | supplying a clash-free rate never takes away a ratio that was derived without one |
| RatioDerivation.OutcomeMeans | src/turboedge/adapters/gettex.py:1591-1639 | what each outcome says of the hypotheses tried: rejected iff neither snaps, failed iff one snaps and none verifies, ambiguous iff both verify, derived iff exactly one does, with its ratio and currency type |
| RatioDerivation.AmbiguousWhenApartIff | src/turboedge/adapters/gettex.py:817-864 | for every row and spot: some price and some clash-free rate leave the row ambiguous iff its leverage is over 40 and, on the right side of its financing level, leverage * distance < spot, or, on the wrong side, the spot tolerance exceeds (1 + 53/47 * (1 - snap tolerance)) distances, the distance not being zero |
| RatioDerivation.TrustIff | src/turboedge/adapters/gettex.py:817-864 | for rows on the right side these are exactly the untrusted ones |
| RatioDerivation.UnderstatedLeverageIsAmbiguous | src/turboedge/adapters/gettex.py:817-864 | an instance: a row reporting leverage 100 against a geometric 1000 is ambiguous at the clash-free rate 1.25 |
| RatioDerivation.EurSnapVerifies | src/turboedge/adapters/gettex.py:1591-1622 | a geometrically exact EUR row with leverage of at least 10 that snaps always verifies |
| RatioDerivation.EurVerificationBound | src/turboedge/adapters/gettex.py:1591-1622 | some geometrically exact EUR row of a leverage snaps and then fails verification iff the leverage is positive and below 10 |
| RatioDerivation.ExactDerivation | src/turboedge/adapters/gettex.py:1556-1639 | an exactly priced row comes out with its own ratio and its own currency type, under a supplied rate that cannot confuse its price with another grid ratio |
| RatioDerivation.ExactDerivationIff | src/turboedge/adapters/gettex.py:1556-1639 | a rate brings every exactly priced row back exactly iff neither it nor its inverse takes a grid ratio to within six percent of another or of itself |
| RatioDerivation.ApartIff | src/turboedge/adapters/gettex.py:257-272 | inside the search band those factors are exactly the ones between 0.53 and 0.94 or between 1.06 and 1.88 |
| FxLearning.CollectFxCandidates | src/turboedge/adapters/gettex.py:867-891 | the loop proposes, in grid order, the rate g/raw of every grid value whose rate falls in the band |
| FxLearning.AtMostThreeCandidates | src/turboedge/adapters/gettex.py:867-891 | one row proposes at most three rates whenever the band spans less than a factor of ten |
| FxLearning.CandidatesInBand | src/turboedge/adapters/gettex.py:867-891 | every proposed rate lies in the search band |
| FxLearning.RobustFxMedianWithin | src/turboedge/adapters/gettex.py:894-908 | the robust median lies between the smallest and largest proposal |
| FxLearning.FilteredMedian | src/turboedge/adapters/gettex.py:894-908 | for MAD > 0, where the proposals within mad_k * 1.4826 * MAD of the median are exactly those in [lo, hi], the result is the median of these alone, whatever the others are |
| FxLearning.CollectUnresolved | src/turboedge/adapters/gettex.py:1706-1712 | the rows worked on are exactly the priced rows off the financing level that fx = 1 does not verify, in order |
| FxLearning.LearnGroup | src/turboedge/adapters/gettex.py:1705-1756 | one issuer's pass computes the specified rate or none |
| FxLearning.LearnFxByIssuer | src/turboedge/adapters/gettex.py:1641-1768 | an issuer is in the result iff its own rows support a rate, and then with that rate; other issuers' rows have no influence |
| FxLearning.LearnedFxIsSupported | src/turboedge/adapters/gettex.py:1641-1768 | a learned rate lies in the search band, comes from at least the required number of unresolved rows, and verifies at least the required fraction of them |
| FxLearning.SupportSuffices | src/turboedge/adapters/gettex.py:1714-1756 | conversely the filtered median of enough proposals is learned once the required share of the rows verifies under it |
| FxLearning.LearnedFxKeepsAccepted | src/turboedge/adapters/gettex.py:1308-1340 | a clash-free learned rate changes no outcome of that issuer that was ok at fx = 1 |
| FxRecovery.NearlyLearnedIff | src/turboedge/adapters/gettex.py:1641-1768 | nearly exact prices: when every row fx = 1 leaves unexplained is priced at some rate of its own in [lo, hi], an interval within the rows' tolerances, a rate is learned iff there are five such rows and the price of one of them fits no other grid ratio; it lies in [lo, hi], and is the median of the proposals there whenever the filter keeps them |
| FxRecovery.LearnFromFloating | src/turboedge/adapters/gettex.py:1641-1768 | for every true rate of the search band, on exactly priced rows that fx = 1 leaves unexplained the result is that rate, unless there are fewer than five rows or every row's price also fits another grid ratio at a rate inside the band; then it is none |
| FxRecovery.LearnedIff | src/turboedge/adapters/gettex.py:1641-1768 | for every exactly priced issuer group and every true rate: the rate is learned iff it lies in the search band, fx = 1 leaves at least five rows unexplained, and the price of one of these fits no other grid ratio at a rate of the band; at a rate of the band nothing else is learned either |
| FxRecovery.LearnedIffDiverse | src/turboedge/adapters/gettex.py:1641-1768 | at the rates where fx = 1 explains no non-quanto row, that condition is on the group's non-quanto rows alone: at least five, and the price of one of them fits no other grid ratio inside the band |
| FxRecovery.UnresolvedIffFloating | src/turboedge/adapters/gettex.py:1706-1712 | at every true rate that is off 1/2, 1 and 2 by more than six percent (of the inverse rate), fx = 1 leaves unexplained exactly the non-quanto rows |
| FxRecovery.UnexplainedIff | src/turboedge/adapters/gettex.py:1706-1712 | fx = 1 leaves every exactly priced non-quanto row unexplained iff the inverse of the true rate takes no grid ratio to within six percent of another or of itself |
| FxRecovery.PassesForQuantoIff | src/turboedge/adapters/gettex.py:1591-1639 | with no rate known, some exactly priced non-quanto row is emitted as a quanto one iff the inverse of the true rate takes some grid ratio to within six percent of a grid ratio, near parity for instance |
| FxRecovery.LearnableIff | src/turboedge/adapters/gettex.py:1706-1712 | inside the search band those true rates are exactly the ones in (25/47, 50/53) or (50/47, 100/53) |
| GettexFetch.CountsBalance | src/turboedge/adapters/gettex.py:1316-1496 | over any outcomes: total = parse failures + unpriced + derived + rejected + failed + ambiguous, with one snapshot per derived row and one rejection record per discarded row |
| GettexFetch.CountersMean | src/turboedge/adapters/gettex.py:1316-1496 | each counter counts the rows its name says, and every row not emitted as an open-end product leaves one error |
| GettexFetch.ErrorMeans | src/turboedge/adapters/gettex.py:1316-1496 | an error carries its row's ISIN and says what became of the row |
| GettexFetch.EmittedMeans | src/turboedge/adapters/gettex.py:1400-1470 | an emitted product keeps row and underlying and is open-end iff barrier and financing level agree to a millionth of the larger of the two and of 1 |
| GettexFetch.GettexAdapter.constructor | src/turboedge/adapters/gettex.py:979-1036 | a new adapter has no errors, no learned rates and no rejection records |
| GettexFetch.GettexAdapter.ParseRows | src/turboedge/adapters/gettex.py:1176-1204 | keeps exactly the rows that parse, in order, and reports and counts each other one |
| GettexFetch.GettexAdapter.CollectCandidates | src/turboedge/adapters/gettex.py:1213-1221 | the spot candidates come from the fresh rows below the leverage cap, in order |
| GettexFetch.GettexAdapter.LearnRates | src/turboedge/adapters/gettex.py:1303-1314 | learns only for a foreign currency without a caller's rate, remembers each rate under underlying and issuer, and touches no other entry |
| GettexFetch.GettexAdapter.HandleRow | src/turboedge/adapters/gettex.py:1317-1493 | one row moves one total and exactly one outcome counter, appends the error and rejection record its outcome calls for, and yields a snapshot iff its ratio is derived |
| GettexFetch.GettexAdapter.HandleRows | src/turboedge/adapters/gettex.py:1317-1493 | the row loop yields the snapshots of its rows' verdicts in row order, each row under the rate of its own issuer |
| GettexFetch.GettexAdapter.FetchKnown | src/turboedge/adapters/gettex.py:1165-1493 | one underlying: all rows are priced, or none when there is no reference spot or it fails its cross-check |
| GettexFetch.GettexAdapter.FetchUnderlying | src/turboedge/adapters/gettex.py:1159-1493 | an underlying without a gettex id contributes nothing |
| GettexFetch.GettexAdapter.FetchProducts | src/turboedge/adapters/gettex.py:1150-1496 | a whole fetch: output, errors, counters and rejection records are those of the row verdicts and balance; the remembered rates are exactly those last learned; nothing of an earlier fetch survives |
| GettexFetch.FetchLearned | src/turboedge/adapters/gettex.py:1153-1314 | every remembered rate lies in the search band |
| GettexFetch.LastLearnedIsKept | src/turboedge/adapters/gettex.py:1308-1314 | what is remembered for an underlying and issuer is what the last batch learned for them |
| GettexFetch.LearnsOnlyWhatIsMissing | src/turboedge/adapters/gettex.py:1299-1314 | a rate is learned only for a foreign currency, without a supplied rate, from rows that are priced |
| GettexFetch.RememberedIsUsed | src/turboedge/adapters/gettex.py:1308-1340 | the rate remembered is the one the rows were derived with |
| GettexFetch.GettexAdapter.RecordRejected | src/turboedge/adapters/gettex.py:1512-1554 | a discarded row is appended with its reason, underlying and reference spot |
| GettexFetch.GettexAdapter.DrainRejected | src/turboedge/adapters/gettex.py:1498-1510 | hands over all records once and leaves none |
| GettexFetch.ExactSpot | src/turboedge/adapters/gettex.py:1213-1298 | rows with leverage exactly S/abs(S - F) give the reference spot S exactly, or no pricing when S fails its cross-check |
| GettexFetch.OnlyFreshRowsVote | src/turboedge/adapters/gettex.py:1205-1221 | stale rows, rows over the leverage cap and the order of the others have no influence on the reference spot |
| GettexFetch.ReferenceDecides | src/turboedge/adapters/gettex.py:1231-1297 | rows are priced iff the estimate is within tolerance of the live reference, or of the daily close where there is no live one; a spot further off prices no row |
| GettexFetch.DecidedFetch | src/turboedge/adapters/gettex.py:1150-1496 | at every true rate that is supplied, and at every one of the search band when none is: a row without a bid is not priced; a row whose rate is supplied or shown by its issuer comes out right unless both rates explain it, and is then discarded as ambiguous; otherwise quanto rows come out right, non-quanto rows that fx = 1 explains come out as quanto, and the rest are discarded |
| GettexFetch.ExactFetch | src/turboedge/adapters/gettex.py:1150-1496 | at true rates that keep the grid ratios apart, end to end on exact data around one spot: each row with a bid comes out ok with its own ratio and currency type, or, iff its rate can be neither given nor learned, is discarded; none is mispriced |
| GettexFetch.QuotedFetch | src/turboedge/adapters/gettex.py:616-624 | the same from the quotes: a row whose bid and ask add up to twice the intrinsic value of ratio g, or whose lone bid is that value, comes out with ratio g and its own currency type once its rate is known; a row without a bid is not priced |
| JsonStat.UnravelRowMajor | src/turboedge/adapters/eu_bcs.py:243-262 | the in-place loop computes the specified digits or the failure, for every integer index and any sizes |
| JsonStat.UnravelSucceeds | src/turboedge/adapters/eu_bcs.py:243-262 | it succeeds iff all sizes are positive and the index lies in the cube, and its digits are in range with the index as their row-major value; negative indices always fail |
| JsonStat.UnravelRavel | src/turboedge/adapters/eu_bcs.py:243-262 | each in-range cell has an index inside the cube and decodes back to itself |
| JsonStat.RavelInjective | src/turboedge/adapters/eu_bcs.py:243-262 | two cells with one index are one cell |
| JsonStat.RavelOrder | src/turboedge/adapters/eu_bcs.py:243-262 | index order is dictionary order of the digits |
| JsonStat.InvertIndex | src/turboedge/adapters/eu_bcs.py:293-301 | the inverted category index, the last code winning a position |
| JsonStat.InvertedInjective | src/turboedge/adapters/eu_bcs.py:293-301 | distinct codes stay distinguishable after the inversion |
| JsonStat.InvertedFrom | src/turboedge/adapters/eu_bcs.py:293-301 | the inversion holds only declared pairs, and every declared position |
| JsonStat.DecodeJsonStat | src/turboedge/adapters/eu_bcs.py:265-321 | the decoder returns the specified rows or the first structural error in payload order |
| JsonStat.DecodesIff | src/turboedge/adapters/eu_bcs.py:265-321 | a payload decodes iff it has its four parts, as many sizes as dimensions, a category index for each, and for every cell a place in the cube at which every dimension has a code |
| JsonStat.FirstFailure | src/turboedge/adapters/eu_bcs.py:265-321 | a missing part is reported before unequal lengths, these before the first dimension without an index, and that before any cell |
| JsonStat.FirstBadCell | src/turboedge/adapters/eu_bcs.py:296-321 | of several cells that fail the first one's failure is reported |
| Eurostat.ParseEurostatPayload | src/turboedge/adapters/eurostat.py:116-189 | the parser's refusals, observations and warnings are the specified ones, in order |
| Eurostat.PinningCheck | src/turboedge/adapters/eurostat.py:128-143 | pinning all dimensions but time is the same as passing both checks before decoding without a filter on time |
| Eurostat.AnswersOnlyPinned | src/turboedge/adapters/eurostat.py:128-143 | the parser emits observations only if the filters name declared dimensions and pin all of them but time |
| Eurostat.UndeclaredRefused | src/turboedge/adapters/eurostat.py:128-135 | a filter on an undeclared dimension gives exactly one warning, naming all such filters, and nothing else |
| Eurostat.UnpinnedRefused | src/turboedge/adapters/eurostat.py:136-143 | a dimension left open gives exactly one warning, listing all of these in declared order, and nothing else |
| Eurostat.SelectedIffPinned | src/turboedge/adapters/eurostat.py:145-153 | a decoded row is selected for a period iff its cell sits at the pinned positions and that time position |
| Eurostat.AddressedOnce | src/turboedge/adapters/eurostat.py:151-161 | pinned codes and a period address at most one cell |
| Eurostat.PinnedSelectionIsLookup | src/turboedge/adapters/eurostat.py:145-189 | filter and group equal direct lookup: an observation is emitted iff the cell at the pinned codes and its period exists and reads as that observation; the ambiguous branch never fires |
| Eurostat.PayloadIsLookup | src/turboedge/adapters/eurostat.py:116-189 | the parser's result on a proper pinned cube: its observations are the addressed cells that can be read, its unusable periods those of the addressed cells that cannot, no period is ambiguous, and the absence of any cell is said |
| Eurostat.ObservationIff | src/turboedge/adapters/eurostat.py:145-189 | over any decoded rows a period is answered by its only selected row, and one with several rows by none |
| Eurostat.CrowdedAreCounted | src/turboedge/adapters/eurostat.py:157-189 | the periods with several selected rows are counted, each once, in one warning |
| Eurostat.PeriodsAscend | src/turboedge/adapters/eurostat.py:157-186 | the observations come out in strictly ascending order of their period text |
| NativeIdentifier.ParseNativeIdentifier | src/turboedge/adapters/eurostat.py:67-92 | the loop returns the specified dataset and filters, or the first error in reading order |
| NativeIdentifier.ParsedIsClean | src/turboedge/adapters/eurostat.py:67-92 | whatever parses has a non-empty unpadded dataset without the bar character, at least one filter, and keys and values free of separators and padding, none of them pinning time |
| NativeIdentifier.ParsesIff | src/turboedge/adapters/eurostat.py:67-92 | a text parses iff something stands before its first bar character and every chunk after it pins a dimension other than time or is padding, at least one pinning; of several pins of a dimension the last holds |
| NativeIdentifier.FirstErrorDecides | src/turboedge/adapters/eurostat.py:67-92 | a missing dataset is reported first, then the first chunk that cannot be read, as pinning time or as malformed, then that nothing is pinned |
| NativeIdentifier.RoundTripIff | src/turboedge/adapters/eurostat.py:61-92 | building and parsing gives back dataset and filters iff dataset, keys and values are clean in that sense and there is a filter |
| NativeIdentifier.ParsedRebuilds | src/turboedge/adapters/eurostat.py:61-92 | any text that parses has a normal form: rebuilding it from what was parsed parses to the same, whatever the dictionary order |
| BnpPagination.FetchOneDirection | src/turboedge/adapters/issuer_feeds.py:802-907 | one pass returns the specified rows, total and ceiling flag, or the first page's error |
| BnpPagination.PassEnds | src/turboedge/adapters/issuer_feeds.py:802-907 | against any backend a pass hands over every page up to and including the first that is short or the last by its total; a refused first request is an error, a later one cuts the pass at the ceiling, a reply of another shape is an error |
| BnpPagination.OutageIsAnError | src/turboedge/adapters/issuer_feeds.py:852-858 | a fetch whose first request is refused fails and never reads as an empty book; so does a second pass |
| BnpPagination.MergeByIsin | src/turboedge/adapters/issuer_feeds.py:775-786 | the ISIN dictionary in insertion order, and the number of recovered rows |
| BnpPagination.MergeDistinct | src/turboedge/adapters/issuer_feeds.py:775-786 | over books with distinct ISINs the merge is the ascending rows followed by the descending rows they lack, in that order |
| BnpPagination.MergedIff | src/turboedge/adapters/issuer_feeds.py:775-786 | of any lists, repetitions included, the merge keeps for each ISIN the last ascending row, or where these lack it the first descending one |
| BnpPagination.MergedOnce | src/turboedge/adapters/issuer_feeds.py:775-786 | each ISIN comes out once |
| BnpPagination.FetchAllPages | src/turboedge/adapters/issuer_feeds.py:744-800 | the two-pass fetch returns the specified rows, with a second pass iff the first hit the ceiling short of the total |
| BnpPagination.SecondPassIff | src/turboedge/adapters/issuer_feeds.py:744-800 | the second pass is made iff the first was cut at the ceiling short of a known total; what is handed over in each case, and whose total |
| BnpPagination.FetchedExactly | src/turboedge/adapters/issuer_feeds.py:744-907 | exactly what a fetch of a book returns, for every ceiling, page size and page limit: the book cut at the page limit, or the part below the ceiling followed by as much of the other end; the second pass runs iff the book is larger than what lies below the ceiling |
| BnpPagination.CoverageIff | src/turboedge/adapters/issuer_feeds.py:744-907 | the whole book is covered, each product once, iff it is at most twice what lies below the ceiling, or at most the page limit when that bites first |
| BnpPagination.SortedCoverageIff | src/turboedge/adapters/issuer_feeds.py:744-763 | without exact reversal: a book is fully covered under every order among ties iff no product straddles the cut, that is, has more than the reachable number of products at or below its leverage and more than that at or above it (or, when the page limit bites first, iff the book fits in it) |
| BnpPagination.MissableIffStraddles | src/turboedge/adapters/issuer_feeds.py:744-763 | a single product can be missed under some order among ties iff it straddles the cut |
| BnpPagination.StraddlersAreTied | src/turboedge/adapters/issuer_feeds.py:744-763 | a straddling product of a book of n shares its leverage with at least 2 * (reach + 1) - n products, itself included, so a book without ties is covered up to twice the reach |
| BnpPagination.OnlyTiesAreMissed | src/turboedge/adapters/issuer_feeds.py:744-763 | a product missed from a small enough book has the leverage of another product that both passes delivered |
| BnpPagination.TieIsMissed | src/turboedge/adapters/issuer_feeds.py:744-763 | a concrete miss: two products of equal leverage and a reach of one row |
| FredSeries.FetchPages | src/turboedge/adapters/fred.py:515-578 | the paging loop archives the specified pages through each of its exits |
| FredSeries.MergePages | src/turboedge/adapters/fred.py:271-308 | the archive merge computes the specified rows, stop reason or surrender |
| FredSeries.SplitDoesNotMatter | src/turboedge/adapters/fred.py:271-337 | reading any split of the rows into pages is reading them as one unpaged object |
| FredSeries.MarkerKeepsErrorSurrenders | src/turboedge/adapters/fred.py:286-302 | a stop marker keeps all rows before it and is reported; an upstream error body surrenders them all |
| FredSeries.ArchiveSurrendersIff | src/turboedge/adapters/fred.py:271-337 | an archive surrenders iff a page that is no object, or carries an error and is no marker, comes before any marker |
| FredSeries.SurrenderMeans | src/turboedge/adapters/fred.py:271-337 | a series is reported missing iff its payload surrenders, and then without observations and with one warning |
| FredSeries.FetchIsFaithful | src/turboedge/adapters/fred.py:515-578 | against a server of one fixed series, at every stage of the loop, the archive holds a prefix of the series and its ending says which exit was taken |
| FredSeries.SilentlyShortIff | src/turboedge/adapters/fred.py:515-578 | a short series looks whole iff the series is not empty and the first reply that is not a non-empty page below the count, reached within page limit, row ceiling and deadline, is not JSON, or an error-free object without rows or count, or an empty page |
| FredSeries.CompleteOrFlagged | src/turboedge/adapters/fred.py:515-578 | against a server whose replies are all objects with rows and a count, non-empty until the end, the archive parses as the whole series, or as a proper prefix of it headed by the warning that paging stopped |
| FredSeries.EndingsDecide | src/turboedge/adapters/fred.py:515-578 | what each way out of the loop leaves behind: only reaching the count gives the whole series, and only three endings give a short one without a marker |
| FredSeries.ShortSeriesLooksWhole | src/turboedge/adapters/fred.py:540-568 | a concrete run whose archive reads as a complete one-row series although the series has two rows, against the comment at line 567 |
| FredSeries.CompleteFetchParses | src/turboedge/adapters/fred.py:515-578 | an archive that reached the count parses to exactly what the whole series in one object parses to |
| FredSeries.ParseSeriesObservations | src/turboedge/adapters/fred.py:234-417 | the parser returns the specified observations and warnings, in order |
| FredSeries.EmittedVintages | src/turboedge/adapters/fred.py:339-417 | the emitted (day, realtime_start, value) multiset is that of the well-formed rows without the missing marker |
| FredSeries.EmittedIffStated | src/turboedge/adapters/fred.py:341-376 | a vintage is emitted iff some row states its value for its day, its realtime_start being the row's or, absent that, the day itself |
| FredSeries.ReportedRows | src/turboedge/adapters/fred.py:341-376 | the rows reported are exactly those neither readable nor marked as missing by a dot |
| FredSeries.CleanSeriesIsSilent | src/turboedge/adapters/fred.py:353-356 | a series of readable and missing values without a stop marker is read, vintage-aware, without a warning |
| FredSeries.CrowdedDaysReported | src/turboedge/adapters/fred.py:378-388 | without vintages exactly the days with more than one row are reported |
| FredSeries.RevisionsInOrder | src/turboedge/adapters/fred.py:381-415 | per day the revision numbers are exactly 0..k-1 in non-decreasing realtime_start when vintage-aware, and absent otherwise |
| FredSeries.DayObservations | src/turboedge/adapters/fred.py:378-415 | each day's observations are that day's usable rows ranked by realtime_start |
| FredSeries.ArrivalOrderIff | src/turboedge/adapters/fred.py:339-415 | a day's result is the same for every order of the rows iff no two usable rows of the day give different values for one realtime_start |
| FredSeries.ArrivalOrderIrrelevant | src/turboedge/adapters/fred.py:339-415 | under that condition two orders of the same rows give the day the same observations |
| FredSeries.TiesKeepArrival | src/turboedge/adapters/fred.py:382-390 | a day's vintages of one realtime_start come out in the order in which they arrived, in a list of any length |
| FredSeries.TiesFollowArrival | src/turboedge/adapters/fred.py:382-390 | of two tied values the first to arrive is revision 0 and the later one counts as its revision |
| Entsoe.WindowBounds | src/turboedge/adapters/entsoe.py:779-791 | the cursor loop terminates with the specified windows, or refuses an empty span |
| Entsoe.WindowsTile | src/turboedge/adapters/entsoe.py:779-791 | the windows tile [start, end): contiguous, non-empty, at most max_days long, all but the last full, and as many as the span needs |
| Entsoe.InstantInOneWindow | src/turboedge/adapters/entsoe.py:779-791 | every instant of the span lies in exactly one window |
| Entsoe.CutLosesNothing | src/turboedge/adapters/entsoe.py:438-443 | joining the chunks of the split gives back every byte in order |
| Entsoe.CutShape | src/turboedge/adapters/entsoe.py:438-443 | no chunk has a declaration after its start, and every chunk but the first begins with one |
| Entsoe.NoStraddle | src/turboedge/adapters/entsoe.py:879-883 | no declaration straddles the boundary between two documents |
| Entsoe.ConcatSplitRoundTripIff | src/turboedge/adapters/entsoe.py:279-443 | splitting a concatenation gives back exactly the documents iff each is non-blank with no declaration after its start and each after the first starts with one |
| Entsoe.FetchWindows | src/turboedge/adapters/entsoe.py:847-883 | one request per window in window order, concatenated; the first failing request ends the fetch |
| Entsoe.FetchThenSplit | src/turboedge/adapters/entsoe.py:847-883 | when each response is one XML document the parser sees exactly the answer to each window, in order |
| Entsoe.ParsePeriod | src/turboedge/adapters/entsoe.py:491-608 | the specified observations and warnings of one Period, through all its checks, in order |
| Entsoe.ObservationIff | src/turboedge/adapters/entsoe.py:543-591 | value v is emitted for instant t iff some Point in range has t = start + (position - 1) * resolution and quantity v and no earlier Point names its position |
| Entsoe.ObservationsArePoints | src/turboedge/adapters/entsoe.py:543-591 | the observations are the first Points of their positions, in the order of the document |
| Entsoe.PointWarningIff | src/turboedge/adapters/entsoe.py:543-570 | each point warning is given iff the Points call for it: a missing field, one that does not parse, a position out of range, one named twice in range |
| Entsoe.GapsReported | src/turboedge/adapters/entsoe.py:571-581 | the gap warning lists in ascending order exactly the expected positions no Point names, and is given iff there is one |
| Entsoe.HeaderDecides | src/turboedge/adapters/entsoe.py:491-541 | an unusable header gives one warning and nothing else; an interval that is no multiple of the resolution is reported and used |
| Entsoe.PointsAccounted | src/turboedge/adapters/entsoe.py:543-570 | every Point becomes exactly one kept position or exactly one warning |
| Entsoe.FirstPointWins | src/turboedge/adapters/entsoe.py:559-570 | the first admissible Point of a position is the one kept |
| Entsoe.PositionKeptIff | src/turboedge/adapters/entsoe.py:559-570 | a position is kept iff it is in range and some Point names it |
| Entsoe.PositionsPartition | src/turboedge/adapters/entsoe.py:543-581 | kept and reported-missing positions partition 1..expected |
| Entsoe.TimesDistinct | src/turboedge/adapters/entsoe.py:583-590 | two observations of a Period never share a time |
| Entsoe.EveryStepAccounted | src/turboedge/adapters/entsoe.py:543-590 | each whole step start + k*resolution of the interval is emitted at its own time iff its position is not reported missing |
| Entsoe.TimesInsideIff | src/turboedge/adapters/entsoe.py:533-590 | all emitted times lie in [start, end), whatever the Points, iff the interval is at least one resolution long: a shorter one checks no upper bound |
| RateLimiter.StepKeepsInv | src/turboedge/adapters/base.py:179-256 | every step of every thread keeps the invariant: one limiter per host, each lock held by exactly the thread in its critical section, every pending recording due, grants spaced |
| RateLimiter.After | src/turboedge/adapters/base.py:179-256 | the invariant holds after every run of any number of threads in any interleaving |
| RateLimiter.StepKeepsSpaced | src/turboedge/adapters/base.py:187-196 | a grant is recorded only a full interval after every earlier grant of its host |
| RateLimiter.StepKeepsTable | src/turboedge/adapters/base.py:250-256 | the limiter table stays a bijection between hosts and limiters |
| RateLimiter.WindowBound | src/turboedge/adapters/base.py:179-196 | a window of length W holds at most floor(W / min_interval) + 1 grants of one host, in every run |
| RateLimiter.NeverStuck | src/turboedge/adapters/base.py:187-256 | while a thread is busy some thread's next step takes effect, and a thread queued for a limiter waits only for a thread of the same host |
| RateLimiter.OneRequestPerGrant | src/turboedge/adapters/base.py:278-285 | each request goes out under a grant of its own, not before it |
| RateLimiter.SendGap | src/turboedge/adapters/base.py:179-196 | requests to one host follow each other by the interval less the earlier one's delay between grant and sending |
| RateLimiter.RequestsSpacedIff | src/turboedge/adapters/base.py:179-216 | the documented spacing of the requests themselves holds in all runs with that delay at most d iff d is zero |
| RateLimiter.RequestBound | src/turboedge/adapters/base.py:179-216 | when each request is sent at most d after its grant, a window of length W sees at most floor((W + d) / min_interval) + 1 requests to one host |
| HttpClient.HttpClient.Request | src/turboedge/adapters/base.py:261-295 | a request making a attempts adds a to request_count, a - 1 to retry_count, and a to error_count if its last attempt failed with a counted error, else a - 1; its result is the last attempt's; over the client's life request_count is the number of requests plus retry_count |
| HttpClient.AttemptsExactly | src/turboedge/adapters/base.py:271-278 | the number of attempts is determined: at least one, otherwise at most max_retries, all but the last retryable, the last not retryable or the last allowed |
| HttpClient.RequestEnds | src/turboedge/adapters/base.py:199-295 | after failures with status 429, 500, 502, 503 or 504, timeouts or transport failures a request ends at its first attempt that met none of these, or at the last allowed; how each end is returned |
| HttpClient.SuccessIff | src/turboedge/adapters/base.py:271-295 | a request succeeds iff within its budget some attempt succeeds after none but retryable failures, and it returns that attempt's body |
| HttpClient.MoreRetriesNeverHurt | src/turboedge/adapters/base.py:271-278 | a larger max_retries leaves a successful request's attempts as they were |

## Left out

- Floating-point rounding: all arithmetic is over exact reals; decimal constants such as 1.4826 and 1e-6 are taken exactly.
- HTTP, JSON, XML and date-text parsing, issuer-name normalisation and `resolve_available_at`: their results are inputs. Record validation of the produced snapshots and observations, logging, example ISINs and the texts of warnings are not modelled, only which warning is issued.
- gettex paging, the partial-universe bookkeeping and the mismatch messages: a batch's rows are an input. The learned-rate memory is keyed by the pair of underlying and issuer where the code joins them with a colon. Supplied reference values are taken to be non-zero.
- The implied-underlying and intrinsic-value functions are total only for positive ratio and rate, as the code demands; the errors they raise otherwise are not modelled.
- FxRecovery.LearnedIffDiverse: a corollary of FxRecovery.LearnedIff at the rates of FxRecovery.LearnableIff; at the other rates of the search band the unexplained rows, which FxRecovery.LearnedIff speaks of, are not all the non-quanto ones.
- GettexFetch.ExactFetch: stated at the rates of RatioDerivation.ExactDerivationIff; GettexFetch.DecidedFetch covers the others. In both, a rate that is not supplied lies in the search band, as rates for the US dollar, the only foreign currency gettex underlyings have here, do; and a supplied rate is the true one.
- GettexFetch.GettexAdapter.RecordRejected: keeps the parsed row, underlying, outcome and reference spot; WKN, raw label, quote and observation times, detail text and raw hash are not modelled.
- RatioDerivation.VerifiedIsNear: assumes a trusted row; what the remaining rows can do at clash-free rates is RatioDerivation.AmbiguousWhenApartIff.
- JSON-stat's array form of the category index and its `extension` and `status` members: the decoder modelled here does not accept or does not read them.
- BNP response dates, product normalisation and the other issuer feeds.
- FRED's HTTP errors end the fetch without an archive; the elapsed time is an input, one reading per page.
- The ENTSO-E document checks between splitting and periods (root element, process type, matching of series, revision number); request times cut to whole minutes; response errors end the fetch.
- The limiter is modelled as a state machine over values, since its point is interleaving; the lock objects and the sleeping itself are steps. Fairness of locks, and with it how long a thread may wait, is not modelled.
- HttpClient.HttpClient.Request: the counters are stated for requests made one after another; the code increments them without a lock. Back-off times between attempts are not modelled.
- The adapters for other sources, ranking, simulation, learning, storage, configuration and the command line: they repeat the shapes proved here or are plumbing.
