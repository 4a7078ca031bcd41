/**
One gettex fetch: `GettexAdapter.fetch_products`, its counters and
`drain_rejected_ratio_derivations` (src/turboedge/adapters/gettex.py). Pages are
already fetched and parsed; a row that failed to parse is a `BadRow`.
*/
module GettexFetch {
  import opened FxLearning
  import opened FxRecovery
  import opened RatioDerivation
  import opened RatioGrid
  import opened Reals
  import opened ReferenceSpot
  import opened Sequences
  import opened Wrappers

  datatype RawRow = BadRow(isin: Option<string>) | ParsedRow(row: Row)

  // Everything the fetch knows about one requested underlying.
  datatype Batch = Batch(
    underlying: string, known: bool, raw: seq<RawRow>, currency: Option<string>,
    liveReference: Option<real>, closeReference: Option<real>, fxHint: Option<real>)

  // References are divided by and hints are exchange rates.
  ghost predicate ValidBatch(b: Batch) {
    && (b.liveReference.Some? ==> b.liveReference.value != 0.0)
    && (b.closeReference.Some? ==> b.closeReference.value != 0.0)
    && (b.fxHint.Some? ==> b.fxHint.value > 0.0)
  }

  datatype Snapshot = Snapshot(row: Row, underlying: string, ratio: real, quanto: Option<bool>, openEnd: bool)

  datatype Rejection = Rejection(row: Row, underlying: string, reason: Outcome, referenceSpot: real)

  datatype RowError = RowError(isin: Option<string>, what: ErrorKind)
  datatype ErrorKind = ParseError | NoPrice | Discarded(reason: Outcome) | BarrierMismatch

  // What becomes of one counted row.
  datatype Verdict =
    | ParseFailed(isin: Option<string>)
    | Unpriced(row: Row)
    | Refused(rejection: Rejection)
    | Emitted(snapshot: Snapshot)

  // ---- What a fetch must produce, row by row ----

  function RowOf(r: RawRow): Option<Row> {
    if r.ParsedRow? then Some(r.row) else None
  }

  function FailureOf(r: RawRow): Option<Verdict> {
    if r.BadRow? then Some(ParseFailed(r.isin)) else None
  }

  function CandidateOf(cfg: Config, row: Row): Option<Candidate> {
    if row.isStale || row.leverage > cfg.maxLeverage then None
    else
      match SpotFromLeverage(row.direction, row.financing, row.leverage)
      case None => None
      case Some(spot) => Some(Candidate(spot, row.direction))
  }

  function Candidates(cfg: Config, rows: seq<Row>): seq<Candidate> {
    Collect(rows, row => CandidateOf(cfg, row))
  }

  function Deviates(sRef: real, expected: real, tol: real): bool
    requires expected != 0.0
  {
    Abs(sRef - expected) / expected > tol
  }

  // The live reference is checked first; the daily close only stands in for a missing one.
  predicate PassesCrossCheck(cfg: Config, b: Batch, sRef: real)
    requires ValidBatch(b)
  {
    if b.liveReference.Some? then !Deviates(sRef, b.liveReference.value, cfg.liveTol)
    else b.closeReference.Some? ==> !Deviates(sRef, b.closeReference.value, cfg.closeTol)
  }

  // The reference spot of a batch; None when its rows are not priced at all.
  function BatchSpot(cfg: Config, b: Batch): (spot: Option<real>)
    requires ValidBatch(b)
    ensures spot.Some? ==> spot.value > 0.0
  {
    var cs := Candidates(cfg, Collect(b.raw, RowOf));
    if cs == [] then None
    else
      var sRef := RobustReferenceSpot(cs, cfg.madK).value.value;
      CandidatesPositive(cfg, Collect(b.raw, RowOf), sRef);
      if PassesCrossCheck(cfg, b, sRef) then Some(sRef) else None
  }

  lemma CandidatesPositive(cfg: Config, rows: seq<Row>, sRef: real)
    requires Candidates(cfg, rows) != []
    requires sRef == RobustReferenceSpot(Candidates(cfg, rows), cfg.madK).value.value
    ensures sRef > 0.0
  {
    var cs := Candidates(cfg, rows);
    forall i | 0 <= i < |cs| ensures cs[i].spot > 0.0 {
      var k := CollectFrom(rows, row => CandidateOf(cfg, row), i);
      SpotFromLeverageInverts(rows[k].direction, rows[k].financing, rows[k].leverage, cs[i].spot);
    }
    var lo, hi := SpotRange(cs);
    EstimateWithinHull(cs, cfg.madK, lo, hi);
  }

  lemma {:induction false} SpotRange(cs: seq<Candidate>) returns (lo: real, hi: real)
    requires cs != [] && forall i :: 0 <= i < |cs| ==> cs[i].spot > 0.0
    ensures lo > 0.0 && SpotsWithin(cs, lo, hi)
  {
    lo, hi := cs[0].spot, cs[0].spot;
    if |cs| > 1 {
      var l, h := SpotRange(cs[1..]);
      lo, hi := Min(lo, l), Max(hi, h);
      forall i | 0 <= i < |cs| ensures lo <= cs[i].spot <= hi {
        if i > 0 { assert cs[i] == cs[1..][i - 1]; }
      }
    }
  }

  // The caller's hint, else (for a foreign currency) the rate learned for the row's issuer.
  function HintFor(cfg: Config, b: Batch, rows: seq<Row>, sRef: real, issuer: string): (fx: Option<real>)
    requires ValidBatch(b) && sRef > 0.0 && cfg.fxMin > 0.0
    ensures fx.Some? ==> fx.value > 0.0
  {
    if b.fxHint.Some? || !NeedsFx(b.currency) then b.fxHint else LearnFor(cfg, rows, sRef, issuer)
  }

  predicate IsClose(x: real, y: real) {
    Abs(x - y) <= Max(0.000001 * Max(Abs(x), Abs(y)), 0.000001)
  }

  function VerdictOf(cfg: Config, b: Batch, rows: seq<Row>, sRef: real, row: Row): Verdict
    requires ValidBatch(b) && sRef > 0.0 && cfg.fxMin > 0.0
  {
    match row.MidPrice()
    case None => Unpriced(row)
    case Some(price) =>
      match DeriveRatio(cfg, row, price, sRef, b.currency, HintFor(cfg, b, rows, sRef, row.issuer))
      case Derived(ratio, quanto) =>
        Emitted(Snapshot(row, b.underlying, ratio, quanto, IsClose(row.financing, row.barrier)))
      case reason => Refused(Rejection(row, b.underlying, reason, sRef))
  }

  // One row per counted row of the batch, in the order the fetch counts them.
  function BatchVerdicts(cfg: Config, b: Batch): (vs: seq<Verdict>)
    requires ValidBatch(b) && cfg.fxMin > 0.0
  {
    if !b.known then []
    else
      var rows := Collect(b.raw, RowOf);
      Collect(b.raw, FailureOf) +
      match BatchSpot(cfg, b)
      case None => []
      case Some(sRef) => VerdictsFor(cfg, b, rows, sRef, rows)
  }

  function VerdictsFor(cfg: Config, b: Batch, rows: seq<Row>, sRef: real, todo: seq<Row>): (vs: seq<Verdict>)
    requires ValidBatch(b) && sRef > 0.0 && cfg.fxMin > 0.0
    ensures |vs| == |todo| && forall i :: 0 <= i < |todo| ==> vs[i] == VerdictOf(cfg, b, rows, sRef, todo[i])
  {
    seq(|todo|, i requires 0 <= i < |todo| => VerdictOf(cfg, b, rows, sRef, todo[i]))
  }

  // The rate one batch learns for an issuer.
  function BatchLearned(cfg: Config, b: Batch, issuer: string): (fx: Option<real>)
    requires ValidBatch(b) && cfg.fxMin > 0.0
    ensures fx.Some? ==> cfg.fxMin <= fx.value <= cfg.fxMax
  {
    if b.known && NeedsFx(b.currency) && b.fxHint.None? && BatchSpot(cfg, b).Some?
    then LearnFor(cfg, Collect(b.raw, RowOf), BatchSpot(cfg, b).value, issuer)
    else None
  }

  // What a whole fetch remembers for an underlying and an issuer: the last rate learned for them.
  function FetchLearned(cfg: Config, batches: seq<Batch>, underlying: string, issuer: string): (fx: Option<real>)
    requires cfg.fxMin > 0.0 && forall b :: b in batches ==> ValidBatch(b)
    ensures fx.Some? ==> cfg.fxMin <= fx.value <= cfg.fxMax
  {
    if batches == [] then None
    else
      var last := batches[|batches| - 1];
      assert last in batches;
      if last.underlying == underlying && BatchLearned(cfg, last, issuer).Some? then BatchLearned(cfg, last, issuer)
      else FetchLearned(cfg, batches[..|batches| - 1], underlying, issuer)
  }

  function Entry(m: map<(string, string), real>, underlying: string, issuer: string): Option<real> {
    if (underlying, issuer) in m then Some(m[(underlying, issuer)]) else None
  }

  function KeyedRates(underlying: string, learned: map<string, real>): map<(string, string), real> {
    map issuer | issuer in learned :: (underlying, issuer) := learned[issuer]
  }

  // The memory after a batch: its own rates replace those of the same keys, the others stay.
  ghost predicate Remembers(cfg: Config, b: Batch, before: map<(string, string), real>,
                            after: map<(string, string), real>)
    requires ValidBatch(b) && cfg.fxMin > 0.0
  {
    forall underlying, issuer :: Entry(after, underlying, issuer) ==
      if underlying == b.underlying && BatchLearned(cfg, b, issuer).Some? then BatchLearned(cfg, b, issuer)
      else Entry(before, underlying, issuer)
  }

  function FetchVerdicts(cfg: Config, batches: seq<Batch>): (vs: seq<Verdict>)
    requires cfg.fxMin > 0.0 && forall b :: b in batches ==> ValidBatch(b)
  {
    if batches == [] then []
    else
      var last := batches[|batches| - 1];
      assert last in batches;
      FetchVerdicts(cfg, batches[..|batches| - 1]) + BatchVerdicts(cfg, last)
  }

  // The last batch of the underlying that learns a rate for the issuer decides what is remembered.
  lemma {:induction false} LastLearnedIsKept(cfg: Config, batches: seq<Batch>, underlying: string, issuer: string,
                                             i: nat)
    requires cfg.fxMin > 0.0 && i < |batches| && (forall b :: b in batches ==> ValidBatch(b))
    requires Learns(cfg, batches[i], underlying, issuer)
    requires forall j :: i < j < |batches| ==> !Learns(cfg, batches[j], underlying, issuer)
    ensures FetchLearned(cfg, batches, underlying, issuer) == BatchLearned(cfg, batches[i], issuer)
  {
    hide BatchLearned;
    if i == |batches| - 1 {
    } else {
      var front := batches[..|batches| - 1];
      assert front[i] == batches[i] && !Learns(cfg, batches[|batches| - 1], underlying, issuer);
      LastLearnedIsKept(cfg, front, underlying, issuer, i);
    }
  }

  lemma {:induction false} NeverLearned(cfg: Config, batches: seq<Batch>, underlying: string, issuer: string)
    requires cfg.fxMin > 0.0 && (forall b :: b in batches ==> ValidBatch(b))
    requires forall b :: b in batches ==> !Learns(cfg, b, underlying, issuer)
    ensures FetchLearned(cfg, batches, underlying, issuer) == None
  {
    hide BatchLearned;
    if batches == [] {
    } else {
      assert batches[|batches| - 1] in batches;
      NeverLearned(cfg, batches[..|batches| - 1], underlying, issuer);
    }
  }

  ghost predicate Learns(cfg: Config, b: Batch, underlying: string, issuer: string)
    requires cfg.fxMin > 0.0
  {
    ValidBatch(b) && b.underlying == underlying && BatchLearned(cfg, b, issuer).Some?
  }

  // Nothing is learned where the rate is supplied or not needed, nor from rows that are not priced.
  lemma LearnsOnlyWhatIsMissing(cfg: Config, b: Batch, issuer: string)
    requires ValidBatch(b) && cfg.fxMin > 0.0
    ensures BatchLearned(cfg, b, issuer).Some? ==>
              b.currency != None && b.currency != Some("EUR") && b.fxHint.None?
              && exists v :: v in BatchVerdicts(cfg, b) && !v.ParseFailed?
  {
    hide LearnFor, VerdictOf;
    if BatchLearned(cfg, b, issuer).Some? {
      var rows := Collect(b.raw, RowOf);
      NobodyLearns(cfg, rows, BatchSpot(cfg, b).value, issuer);
      var vs := VerdictsFor(cfg, b, rows, BatchSpot(cfg, b).value, rows);
      assert vs[0] == VerdictOf(cfg, b, rows, BatchSpot(cfg, b).value, rows[0]);
      VerdictIsNoParseFailure(cfg, b, rows, BatchSpot(cfg, b).value, rows[0]);
      assert vs[0] in BatchVerdicts(cfg, b);
    }
  }

  // What is remembered of a priced batch is the rate its rows were derived with.
  lemma RememberedIsUsed(cfg: Config, b: Batch, issuer: string)
    requires ValidBatch(b) && cfg.fxMin > 0.0 && b.known && b.fxHint.None? && NeedsFx(b.currency)
    requires BatchSpot(cfg, b).Some?
    ensures BatchLearned(cfg, b, issuer) ==
            HintFor(cfg, b, Collect(b.raw, RowOf), BatchSpot(cfg, b).value, issuer)
  {
    hide LearnFor, BatchSpot, Collect;
  }

  lemma NobodyLearns(cfg: Config, rows: seq<Row>, sRef: real, issuer: string)
    requires sRef > 0.0 && cfg.fxMin > 0.0 && LearnFor(cfg, rows, sRef, issuer).Some?
    ensures rows != []
  {
    GroupIsPriced(rows, issuer);
    if Group(rows, issuer) == [] { LearnForNobody(cfg, rows, sRef, issuer); }
    assert Group(rows, issuer)[0] in Group(rows, issuer);
  }

  lemma VerdictIsNoParseFailure(cfg: Config, b: Batch, rows: seq<Row>, sRef: real, row: Row)
    requires ValidBatch(b) && sRef > 0.0 && cfg.fxMin > 0.0
    ensures !VerdictOf(cfg, b, rows, sRef, row).ParseFailed?
  {
    hide DeriveRatio, HintFor;
  }

  // An emitted product keeps its row and underlying, and counts as open-end iff its barrier lies at its
  // financing level, to one millionth of the larger of the two and of 1.
  lemma EmittedMeans(cfg: Config, b: Batch, rows: seq<Row>, sRef: real, row: Row)
    requires ValidBatch(b) && sRef > 0.0 && cfg.fxMin > 0.0
    ensures var v := VerdictOf(cfg, b, rows, sRef, row);
            v.Emitted? ==> v.snapshot.row == row && v.snapshot.underlying == b.underlying
                           && (v.snapshot.openEnd <==> Abs(row.financing - row.barrier) * 1000000.0 <=
                                                       Max(1.0, Max(Abs(row.financing), Abs(row.barrier))))
  {
    hide DeriveRatio, HintFor;
  }

  // ---- The views of the verdicts a caller sees ----

  function SnapshotOf(v: Verdict): Option<Snapshot> {
    if v.Emitted? then Some(v.snapshot) else None
  }

  function RejectionOf(v: Verdict): Option<Rejection> {
    if v.Refused? then Some(v.rejection) else None
  }

  function ErrorOf(v: Verdict): Option<RowError> {
    match v
    case ParseFailed(isin) => Some(RowError(isin, ParseError))
    case Unpriced(row) => Some(RowError(Some(row.isin), NoPrice))
    case Refused(r) => Some(RowError(Some(r.row.isin), Discarded(r.reason)))
    case Emitted(s) => if s.openEnd then None else Some(RowError(Some(s.row.isin), BarrierMismatch))
  }

  datatype Counts = Counts(total: nat, parseFailed: nat, unpriced: nat, derived: nat,
                           rejected: nat, failed: nat, ambiguous: nat, askMissing: nat)
  {
    predicate Balanced() {
      total == parseFailed + unpriced + derived + rejected + failed + ambiguous
    }
  }

  const NO_ROWS := Counts(0, 0, 0, 0, 0, 0, 0, 0)

  function Counted(c: Counts, v: Verdict): Counts {
    var c := c.(total := c.total + 1);
    match v
    case ParseFailed(_) => c.(parseFailed := c.parseFailed + 1)
    case Unpriced(_) => c.(unpriced := c.unpriced + 1, askMissing := c.askMissing + 1)
    case Emitted(s) => AskSeen(s.row, c).(derived := c.derived + 1)
    case Refused(r) => Tallied(AskSeen(r.row, c), r.reason)
  }

  function Tallied(c: Counts, reason: Outcome): Counts {
    match reason
    case RatioRejected => c.(rejected := c.rejected + 1)
    case VerificationFailed => c.(failed := c.failed + 1)
    case QuantoAmbiguous => c.(ambiguous := c.ambiguous + 1)
    case Derived(_, _) => c
  }

  function AskSeen(row: Row, c: Counts): Counts {
    if row.ask.None? then c.(askMissing := c.askMissing + 1) else c
  }

  function CountAll(vs: seq<Verdict>): Counts {
    if vs == [] then NO_ROWS else Counted(CountAll(vs[..|vs| - 1]), vs[|vs| - 1])
  }

  // A refusal always carries one of the three failure reasons.
  ghost predicate WellFormed(vs: seq<Verdict>) {
    forall v :: v in vs && v.Refused? ==> !v.rejection.reason.Derived?
  }

  lemma CountedStep(c: Counts, v: Verdict)
    requires v.Refused? ==> !v.rejection.reason.Derived?
    ensures var d := Counted(c, v);
            && d.total == c.total + 1 && (c.Balanced() ==> d.Balanced())
            && d.derived == c.derived + (if SnapshotOf(v).Some? then 1 else 0)
            && d.rejected + d.failed + d.ambiguous ==
               c.rejected + c.failed + c.ambiguous + (if RejectionOf(v).Some? then 1 else 0)
  {
  }

  // Every counted row ends in exactly one bucket, and the lists handed out match the buckets.
  lemma {:induction false} CountsBalance(vs: seq<Verdict>)
    requires WellFormed(vs)
    ensures var c := CountAll(vs);
            && c.Balanced() && c.total == |vs|
            && c.derived == |Collect(vs, SnapshotOf)|
            && c.rejected + c.failed + c.ambiguous == |Collect(vs, RejectionOf)|
  {
    hide Counted, Counts.Balanced, SnapshotOf, RejectionOf;
    if vs == [] {
      NoRowsBalanced();
    } else {
      var rest, last := vs[..|vs| - 1], vs[|vs| - 1];
      assert last in vs;
      CountsBalance(rest);
      CountedStep(CountAll(rest), last);
      CollectAppend(rest, last, SnapshotOf);
      CollectAppend(rest, last, RejectionOf);
      assert vs == rest + [last];
    }
  }

  datatype Bucket = Unparsed | NoBid | RatioOff | Unverified | BothVerified | NoAsk | OpenEnd

  predicate FallsIn(v: Verdict, bucket: Bucket) {
    match bucket
    case Unparsed => v.ParseFailed?
    case NoBid => v.Unpriced?
    case RatioOff => v.Refused? && v.rejection.reason == RatioRejected
    case Unverified => v.Refused? && v.rejection.reason == VerificationFailed
    case BothVerified => v.Refused? && v.rejection.reason == QuantoAmbiguous
    case NoAsk => v.Unpriced? || (v.Refused? && v.rejection.row.ask.None?) || (v.Emitted? && v.snapshot.row.ask.None?)
    case OpenEnd => v.Emitted? && v.snapshot.openEnd
  }

  function Falling(bucket: Bucket): Verdict -> Option<Verdict> {
    v => if FallsIn(v, bucket) then Some(v) else None
  }

  function HowMany(vs: seq<Verdict>, bucket: Bucket): nat {
    |Collect(vs, Falling(bucket))|
  }

  lemma HowManyNext(vs: seq<Verdict>, v: Verdict, bucket: Bucket)
    ensures HowMany(vs + [v], bucket) == HowMany(vs, bucket) + if FallsIn(v, bucket) then 1 else 0
  {
    CollectAppend(vs, v, Falling(bucket));
  }

  lemma CountedBuckets(c: Counts, v: Verdict)
    requires v.Refused? ==> !v.rejection.reason.Derived?
    ensures var d := Counted(c, v);
            && d.parseFailed == c.parseFailed + (if FallsIn(v, Unparsed) then 1 else 0)
            && d.unpriced == c.unpriced + (if FallsIn(v, NoBid) then 1 else 0)
            && d.rejected == c.rejected + (if FallsIn(v, RatioOff) then 1 else 0)
            && d.failed == c.failed + (if FallsIn(v, Unverified) then 1 else 0)
            && d.ambiguous == c.ambiguous + (if FallsIn(v, BothVerified) then 1 else 0)
            && d.askMissing == c.askMissing + (if FallsIn(v, NoAsk) then 1 else 0)
            && (ErrorOf(v).Some? <==> !FallsIn(v, OpenEnd))
  {
  }

  // An error names its row and says what became of it.
  lemma ErrorMeans(v: Verdict)
    ensures ErrorOf(v).Some? ==>
              var e := ErrorOf(v).value;
              && e.isin == (if v.ParseFailed? then v.isin else Some(RowOfVerdict(v).isin))
              && (e.what == ParseError <==> v.ParseFailed?) && (e.what == NoPrice <==> v.Unpriced?)
              && (forall reason :: e.what == Discarded(reason) <==> v.Refused? && v.rejection.reason == reason)
              && (e.what == BarrierMismatch <==> v.Emitted? && !v.snapshot.openEnd)
  {
  }

  function RowOfVerdict(v: Verdict): Row
    requires !v.ParseFailed?
  {
    match v
    case Unpriced(row) => row
    case Refused(rejection) => rejection.row
    case Emitted(snapshot) => snapshot.row
  }

  // What each counter counts. A row without a bid is also counted as one without an ask. Every row that is
  // not emitted as an open-end product leaves one error.
  lemma {:induction false} CountersMean(vs: seq<Verdict>)
    requires WellFormed(vs)
    ensures var c := CountAll(vs);
            && c.parseFailed == HowMany(vs, Unparsed) && c.unpriced == HowMany(vs, NoBid)
            && c.rejected == HowMany(vs, RatioOff) && c.failed == HowMany(vs, Unverified)
            && c.ambiguous == HowMany(vs, BothVerified) && c.askMissing == HowMany(vs, NoAsk)
            && |Collect(vs, ErrorOf)| + HowMany(vs, OpenEnd) == |vs|
  {
    hide HowMany, Counted, FallsIn, ErrorOf;
    if vs == [] {
      NothingFalls();
    } else {
      var rest, last := vs[..|vs| - 1], vs[|vs| - 1];
      assert last in vs && vs == rest + [last];
      CountersMean(rest);
      CountedBuckets(CountAll(rest), last);
      forall bucket ensures HowMany(vs, bucket) == HowMany(rest, bucket) + if FallsIn(last, bucket) then 1 else 0 {
        HowManyNext(rest, last, bucket);
      }
      CollectAppend(rest, last, ErrorOf);
    }
  }

  lemma NothingFalls()
    ensures forall bucket :: HowMany([], bucket) == 0
  {
  }

  lemma NoRowsBalanced()
    ensures NO_ROWS.Balanced()
  {
  }

  lemma {:induction false} FetchWellFormed(cfg: Config, batches: seq<Batch>)
    requires cfg.fxMin > 0.0 && forall b :: b in batches ==> ValidBatch(b)
    ensures WellFormed(FetchVerdicts(cfg, batches))
  {
    if batches == [] {
    } else {
      var last := batches[|batches| - 1];
      assert last in batches;
      FetchWellFormed(cfg, batches[..|batches| - 1]);
      BatchWellFormed(cfg, last);
    }
  }

  lemma BatchWellFormed(cfg: Config, b: Batch)
    requires ValidBatch(b) && cfg.fxMin > 0.0
    ensures WellFormed(BatchVerdicts(cfg, b))
  {
    var failures := Collect(b.raw, FailureOf);
    forall i | 0 <= i < |failures| ensures failures[i].ParseFailed? {
      var k := CollectFrom(b.raw, FailureOf, i);
    }
  }

  // ---- The adapter ----

  class FetchStats {
    var total: nat
    var ratioDerived: nat
    var ratioRejected: nat
    var verificationFailed: nat
    var quantoAmbiguous: nat
    var askMissing: nat
    ghost var parseFailed: nat
    ghost var unpriced: nat

    constructor ()
      ensures Value() == NO_ROWS
    {
      total, ratioDerived, ratioRejected, verificationFailed, quantoAmbiguous, askMissing := 0, 0, 0, 0, 0, 0;
      parseFailed, unpriced := 0, 0;
    }

    ghost function Value(): Counts
      reads this
    {
      Counts(total, parseFailed, unpriced, ratioDerived, ratioRejected, verificationFailed, quantoAmbiguous, askMissing)
    }
  }

  class GettexAdapter {
    const cfg: Config
    var lastErrors: seq<RowError>
    var lastLearnedFx: map<(string, string), real>
    var rejectedDerivations: seq<Rejection>

    constructor (cfg: Config)
      ensures this.cfg == cfg && lastErrors == [] && lastLearnedFx == map[] && rejectedDerivations == []
    {
      this.cfg := cfg;
      lastErrors, lastLearnedFx, rejectedDerivations := [], map[], [];
    }

    // The counters and lists are exactly what the verdicts so far call for.
    ghost predicate Reflects(stats: FetchStats, vs: seq<Verdict>)
      reads this`lastErrors, this`rejectedDerivations, stats
    {
      && stats.Value() == CountAll(vs)
      && lastErrors == Collect(vs, ErrorOf)
      && rejectedDerivations == Collect(vs, RejectionOf)
    }

    lemma ReflectsOneMore(vs: seq<Verdict>, v: Verdict)
      ensures CountAll(vs + [v]) == Counted(CountAll(vs), v)
      ensures Collect(vs + [v], ErrorOf) == Collect(vs, ErrorOf) + (if ErrorOf(v).Some? then [ErrorOf(v).value] else [])
      ensures Collect(vs + [v], RejectionOf) ==
              Collect(vs, RejectionOf) + (if RejectionOf(v).Some? then [RejectionOf(v).value] else [])
      ensures Collect(vs + [v], SnapshotOf) ==
              Collect(vs, SnapshotOf) + (if SnapshotOf(v).Some? then [SnapshotOf(v).value] else [])
    {
      assert (vs + [v])[..|vs|] == vs;
      CollectAppend(vs, v, ErrorOf);
      CollectAppend(vs, v, RejectionOf);
      CollectAppend(vs, v, SnapshotOf);
    }

    method NoteError(isin: Option<string>, what: ErrorKind)
      modifies this`lastErrors
      ensures lastErrors == old(lastErrors) + [RowError(isin, what)]
    {
      lastErrors := lastErrors + [RowError(isin, what)];
    }

    method RecordRejected(row: Row, underlying: string, reason: Outcome, sRef: real)
      modifies this`rejectedDerivations
      ensures rejectedDerivations == old(rejectedDerivations) + [Rejection(row, underlying, reason, sRef)]
    {
      rejectedDerivations := rejectedDerivations + [Rejection(row, underlying, reason, sRef)];
    }

    // Steps 2-6 for one parsed row.
    method HandleRow(b: Batch, ghost rows: seq<Row>, sRef: real, hint: Option<real>, row: Row,
                     stats: FetchStats, ghost vs: seq<Verdict>)
      returns (snapshot: Option<Snapshot>)
      requires ValidBatch(b) && sRef > 0.0 && cfg.fxMin > 0.0
      requires hint == HintFor(cfg, b, rows, sRef, row.issuer)
      requires Reflects(stats, vs)
      modifies this, stats
      ensures lastLearnedFx == old(lastLearnedFx)
      ensures snapshot == SnapshotOf(VerdictOf(cfg, b, rows, sRef, row))
      ensures Reflects(stats, vs + [VerdictOf(cfg, b, rows, sRef, row)])
    {
      hide CountAll, Collect, DeriveRatio, IsClose, HintFor, Tallied;
      ReflectsOneMore(vs, VerdictOf(cfg, b, rows, sRef, row));
      stats.total := stats.total + 1;
      var price := row.MidPrice();
      if price.None? {
        stats.askMissing := stats.askMissing + 1;
        stats.unpriced := stats.unpriced + 1;
        NoteError(Some(row.isin), NoPrice);
        return None;
      }
      if row.ask.None? {
        stats.askMissing := stats.askMissing + 1;
      }
      var outcome := DeriveRatio(cfg, row, price.value, sRef, b.currency, hint);
      if !outcome.Derived? {
        Discard(row, b.underlying, outcome, sRef, stats);
        return None;
      }
      stats.ratioDerived := stats.ratioDerived + 1;
      var openEnd := IsClose(row.financing, row.barrier);
      if !openEnd {
        NoteError(Some(row.isin), BarrierMismatch);
      }
      snapshot := Some(Snapshot(row, b.underlying, outcome.ratio, outcome.quanto, openEnd));
    }

    // The three ways to discard a row differ only in the counter.
    method Discard(row: Row, underlying: string, outcome: Outcome, sRef: real, stats: FetchStats)
      requires !outcome.Derived?
      modifies this`lastErrors, this`rejectedDerivations, stats
      ensures stats.Value() == Tallied(old(stats.Value()), outcome)
      ensures lastErrors == old(lastErrors) + [RowError(Some(row.isin), Discarded(outcome))]
      ensures rejectedDerivations == old(rejectedDerivations) + [Rejection(row, underlying, outcome, sRef)]
    {
      match outcome {
        case RatioRejected => stats.ratioRejected := stats.ratioRejected + 1;
        case VerificationFailed => stats.verificationFailed := stats.verificationFailed + 1;
        case QuantoAmbiguous => stats.quantoAmbiguous := stats.quantoAmbiguous + 1;
      }
      NoteError(Some(row.isin), Discarded(outcome));
      RecordRejected(row, underlying, outcome, sRef);
    }

    method NoteParseFailure(isin: Option<string>, stats: FetchStats, ghost vs: seq<Verdict>)
      requires Reflects(stats, vs)
      modifies this`lastErrors, stats
      ensures Reflects(stats, vs + [ParseFailed(isin)])
    {
      hide CountAll, Collect;
      ReflectsOneMore(vs, ParseFailed(isin));
      stats.total := stats.total + 1;
      stats.parseFailed := stats.parseFailed + 1;
      NoteError(isin, ParseError);
    }

    lemma ParsedSoFar(raw: seq<RawRow>, i: nat)
      requires i < |raw|
      ensures Collect(raw[..i + 1], RowOf) ==
              Collect(raw[..i], RowOf) + (if raw[i].ParsedRow? then [raw[i].row] else [])
      ensures Collect(raw[..i + 1], FailureOf) ==
              Collect(raw[..i], FailureOf) + (if raw[i].BadRow? then [ParseFailed(raw[i].isin)] else [])
    {
      assert raw[..i + 1] == raw[..i] + [raw[i]];
      CollectAppend(raw[..i], raw[i], RowOf);
      CollectAppend(raw[..i], raw[i], FailureOf);
    }

    // Keeps the rows that parse; a row that does not is counted and reported.
    method ParseRows(raw: seq<RawRow>, stats: FetchStats, ghost vs: seq<Verdict>) returns (rows: seq<Row>)
      requires Reflects(stats, vs)
      modifies this`lastErrors, stats
      ensures rows == Collect(raw, RowOf)
      ensures Reflects(stats, vs + Collect(raw, FailureOf))
    {
      rows := [];
      ghost var failures: seq<Verdict> := [];
      assert vs + failures == vs;
      for i := 0 to |raw|
        invariant rows == Collect(raw[..i], RowOf) && failures == Collect(raw[..i], FailureOf)
        invariant Reflects(stats, vs + failures)
      {
        ParsedSoFar(raw, i);
        match raw[i]
        case ParsedRow(row) =>
          rows := rows + [row];
        case BadRow(isin) =>
          NoteParseFailure(isin, stats, vs + failures);
          assert vs + failures + [ParseFailed(isin)] == vs + (failures + [ParseFailed(isin)]);
          failures := failures + [ParseFailed(isin)];
      }
      assert raw[..|raw|] == raw;
    }

    method CollectCandidates(rows: seq<Row>) returns (cs: seq<Candidate>)
      ensures cs == Candidates(cfg, rows)
    {
      cs := [];
      for i := 0 to |rows|
        invariant cs == Candidates(cfg, rows[..i])
      {
        var row := rows[i];
        assert rows[..i + 1] == rows[..i] + [row];
        CollectAppend(rows[..i], row, r => CandidateOf(cfg, r));
        if !row.isStale && !(row.leverage > cfg.maxLeverage) {
          var estimate := SpotFromLeverage(row.direction, row.financing, row.leverage);
          if estimate.Some? {
            cs := cs + [Candidate(estimate.value, row.direction)];
          }
        }
      }
      assert rows[..|rows|] == rows;
    }

    // The rates learned for one underlying, remembered under (underlying, issuer).
    method LearnRates(b: Batch, rows: seq<Row>, sRef: real) returns (learned: map<string, real>)
      requires sRef > 0.0 && cfg.fxMin > 0.0
      modifies this`lastLearnedFx
      ensures NeedsFx(b.currency) && b.fxHint.None? ==>
                forall issuer :: LearnFor(cfg, rows, sRef, issuer) ==
                                 if issuer in learned then Some(learned[issuer]) else None
      ensures !(NeedsFx(b.currency) && b.fxHint.None?) ==> learned == map[]
      ensures forall underlying, issuer :: Entry(lastLearnedFx, underlying, issuer) ==
                if underlying == b.underlying && issuer in learned then Some(learned[issuer])
                else Entry(old(lastLearnedFx), underlying, issuer)
    {
      hide *;
      learned := map[];
      if NeedsFx(b.currency) && b.fxHint.None? {
        learned := LearnFxByIssuer(cfg, rows, sRef);
      }
      ghost var before := lastLearnedFx;
      lastLearnedFx := lastLearnedFx + KeyedRates(b.underlying, learned);
      RatesAdded(before, b.underlying, learned);
    }

    lemma RatesAdded(before: map<(string, string), real>, underlying: string, learned: map<string, real>)
      ensures var after := before + KeyedRates(underlying, learned);
              forall u, issuer :: Entry(after, u, issuer) ==
                if u == underlying && issuer in learned then Some(learned[issuer]) else Entry(before, u, issuer)
    {
    }

    lemma KnownBatch(b: Batch)
      requires ValidBatch(b) && b.known && cfg.fxMin > 0.0
      ensures var rows := Collect(b.raw, RowOf);
              var estimate := RobustReferenceSpot(Candidates(cfg, rows), cfg.madK);
              var usable := estimate.Some? && PassesCrossCheck(cfg, b, estimate.value.value);
              && BatchSpot(cfg, b) == (if usable then Some(estimate.value.value) else None)
              && (usable ==> estimate.value.value > 0.0)
              && BatchVerdicts(cfg, b) ==
                 Collect(b.raw, FailureOf) +
                 if usable then VerdictsFor(cfg, b, rows, estimate.value.value, rows) else []
    {
      hide RobustReferenceSpot, Candidates, Collect, VerdictsFor, PassesCrossCheck, ValidBatch;
      var rows := Collect(b.raw, RowOf);
      EmptyEstimate(Candidates(cfg, rows), cfg.madK);
      if Candidates(cfg, rows) != [] {
        CandidatesPositive(cfg, rows, RobustReferenceSpot(Candidates(cfg, rows), cfg.madK).value.value);
      }
    }

    lemma EmptyEstimate(cs: seq<Candidate>, madK: real)
      ensures RobustReferenceSpot(cs, madK).None? <==> cs == []
    {
    }

    method FetchUnderlying(b: Batch, stats: FetchStats, ghost vs: seq<Verdict>) returns (snapshots: seq<Snapshot>)
      requires ValidBatch(b) && cfg.fxMin > 0.0
      requires Reflects(stats, vs)
      modifies this, stats
      ensures snapshots == Collect(BatchVerdicts(cfg, b), SnapshotOf)
      ensures Reflects(stats, vs + BatchVerdicts(cfg, b))
      ensures Remembers(cfg, b, old(lastLearnedFx), lastLearnedFx)
    {
      if b.known {
        snapshots := FetchKnown(b, stats, vs);
      } else {
        snapshots := [];
        assert vs + [] == vs;
      }
    }

    method FetchKnown(b: Batch, stats: FetchStats, ghost vs: seq<Verdict>) returns (snapshots: seq<Snapshot>)
      requires ValidBatch(b) && b.known && cfg.fxMin > 0.0
      requires Reflects(stats, vs)
      modifies this, stats
      ensures snapshots == Collect(BatchVerdicts(cfg, b), SnapshotOf)
      ensures Reflects(stats, vs + BatchVerdicts(cfg, b))
      ensures Remembers(cfg, b, old(lastLearnedFx), lastLearnedFx)
    {
      hide BatchVerdicts, BatchSpot, Reflects, VerdictsFor, Collect, RobustReferenceSpot, Candidates, ValidBatch,
           PassesCrossCheck, LearnFor;
      KnownBatch(b);
      FailuresEmitNothing(b.raw);
      ghost var failures := Collect(b.raw, FailureOf);
      var rows := ParseRows(b.raw, stats, vs);
      var candidates := CollectCandidates(rows);
      var estimate := RobustReferenceSpot(candidates, cfg.madK);
      if estimate.None? || !PassesCrossCheck(cfg, b, estimate.value.value) {
        assert failures + [] == failures;
        return [];
      }
      var sRef := estimate.value.value;
      ghost var verdicts := VerdictsFor(cfg, b, rows, sRef, rows);
      var learned := LearnRates(b, rows, sRef);
      snapshots := HandleRows(b, rows, sRef, learned, stats, vs + failures);
      assert vs + failures + verdicts == vs + (failures + verdicts);
      CollectConcat(failures, verdicts, SnapshotOf);
      assert [] + snapshots == snapshots;
    }

    method HandleRows(b: Batch, rows: seq<Row>, sRef: real, learned: map<string, real>,
                      stats: FetchStats, ghost vs: seq<Verdict>)
      returns (snapshots: seq<Snapshot>)
      requires ValidBatch(b) && sRef > 0.0 && cfg.fxMin > 0.0
      requires NeedsFx(b.currency) && b.fxHint.None? ==>
                 forall issuer :: LearnFor(cfg, rows, sRef, issuer) ==
                                  if issuer in learned then Some(learned[issuer]) else None
      requires Reflects(stats, vs)
      modifies this, stats
      ensures lastLearnedFx == old(lastLearnedFx)
      ensures snapshots == Collect(VerdictsFor(cfg, b, rows, sRef, rows), SnapshotOf)
      ensures Reflects(stats, vs + VerdictsFor(cfg, b, rows, sRef, rows))
    {
      hide CountAll, Collect, Reflects, VerdictOf, LearnFor;
      snapshots := [];
      ghost var done: seq<Verdict> := [];
      assert vs + done == vs;
      assert Collect(done, SnapshotOf) == [] by { CollectNone(done, SnapshotOf); }
      for i := 0 to |rows|
        invariant lastLearnedFx == old(lastLearnedFx)
        invariant |done| == i && forall j :: 0 <= j < i ==> done[j] == VerdictOf(cfg, b, rows, sRef, rows[j])
        invariant snapshots == Collect(done, SnapshotOf)
        invariant Reflects(stats, vs + done)
      {
        var row := rows[i];
        var hint := b.fxHint;
        if hint.None? && NeedsFx(b.currency) && row.issuer in learned {
          hint := Some(learned[row.issuer]);
        }
        ghost var v := VerdictOf(cfg, b, rows, sRef, row);
        ReflectsOneMore(done, v);
        var snapshot := HandleRow(b, rows, sRef, hint, row, stats, vs + done);
        assert vs + done + [v] == vs + (done + [v]);
        done := done + [v];
        if snapshot.Some? {
          snapshots := snapshots + [snapshot.value];
        }
      }
      assert done == VerdictsFor(cfg, b, rows, sRef, rows);
    }

    lemma FailuresEmitNothing(raw: seq<RawRow>)
      ensures Collect(Collect(raw, FailureOf), SnapshotOf) == []
    {
      var failures := Collect(raw, FailureOf);
      forall i | 0 <= i < |failures| ensures SnapshotOf(failures[i]).None? {
        var k := CollectFrom(raw, FailureOf, i);
      }
      CollectNone(failures, SnapshotOf);
    }

    // One whole fetch. Its output, errors, rejections and counters are those of the row verdicts,
    // and therefore balance: every counted row sits in exactly one bucket.
    method FetchProducts(batches: seq<Batch>) returns (snapshots: seq<Snapshot>, stats: FetchStats)
      requires cfg.fxMin > 0.0 && forall b :: b in batches ==> ValidBatch(b)
      modifies this
      ensures fresh(stats)
      ensures snapshots == Collect(FetchVerdicts(cfg, batches), SnapshotOf)
      ensures Reflects(stats, FetchVerdicts(cfg, batches))
      ensures forall underlying, issuer ::
                Entry(lastLearnedFx, underlying, issuer) == FetchLearned(cfg, batches, underlying, issuer)
      ensures stats.Value().Balanced()
      ensures stats.ratioDerived == |snapshots|
      ensures stats.ratioRejected + stats.verificationFailed + stats.quantoAmbiguous == |rejectedDerivations|
    {
      lastErrors, lastLearnedFx, rejectedDerivations := [], map[], [];
      stats := new FetchStats();
      snapshots := [];
      for i := 0 to |batches|
        invariant fresh(stats)
        invariant snapshots == Collect(FetchVerdicts(cfg, batches[..i]), SnapshotOf)
        invariant Reflects(stats, FetchVerdicts(cfg, batches[..i]))
        invariant forall underlying, issuer ::
                    Entry(lastLearnedFx, underlying, issuer) == FetchLearned(cfg, batches[..i], underlying, issuer)
      {
        ghost var vs := FetchVerdicts(cfg, batches[..i]);
        assert batches[..i + 1][..i] == batches[..i];
        var more := FetchUnderlying(batches[i], stats, vs);
        CollectConcat(vs, BatchVerdicts(cfg, batches[i]), SnapshotOf);
        snapshots := snapshots + more;
      }
      assert batches[..|batches|] == batches;
      FetchWellFormed(cfg, batches);
      CountsBalance(FetchVerdicts(cfg, batches));
    }

    // Hands the discarded attempts over and forgets them.
    method DrainRejected() returns (drained: seq<Rejection>)
      modifies this`rejectedDerivations
      ensures drained == old(rejectedDerivations) && rejectedDerivations == []
    {
      drained := rejectedDerivations;
      rejectedDerivations := [];
    }
  }

  // ---- Exact data in, exact ratios out ----

  // The row is quoted at its geometric leverage and, if it has a bid, priced exactly as a quanto product or
  // as a product at the common rate fx.
  ghost predicate ExactRowAt(row: Row, spot: real, fx: real) {
    GeometricRow(row, spot) && (row.bid.Some? ==> ExactlyPriced(row, spot, 1.0) || ExactlyPriced(row, spot, fx))
  }

  // Every row of the batch parses and is such a row, around one common spot.
  ghost predicate ExactBatch(b: Batch, spot: real, fx: real) {
    && b.known && spot > 0.0 && fx > 0.0 && (forall i :: 0 <= i < |b.raw| ==> b.raw[i].ParsedRow?)
    && (forall i :: 0 <= i < |b.raw| ==> ExactRowAt(b.raw[i].row, spot, fx))
  }

  ghost predicate UsableForSpot(cfg: Config, r: RawRow) {
    r.ParsedRow? && !r.row.isStale && r.row.leverage <= cfg.maxLeverage && r.row.financing > 0.0
  }

  lemma CandidatesAtSpot(cfg: Config, rows: seq<Row>, spot: real)
    requires forall row :: row in rows ==> GeometricRow(row, spot)
    ensures SpotsWithin(Candidates(cfg, rows), spot, spot)
  {
    var cs := Candidates(cfg, rows);
    forall i | 0 <= i < |cs| ensures spot <= cs[i].spot <= spot {
      var k := CollectFrom(rows, row => CandidateOf(cfg, row), i);
      assert GeometricRow(rows[k], spot);
      GeometricSpot(rows[k], spot, cs[i].spot);
    }
  }

  lemma ExactCandidates(b: Batch, spot: real, fx: real)
    requires ExactBatch(b, spot, fx)
    requires exists i :: 0 <= i < |b.raw| && UsableForSpot(DEFAULT, b.raw[i])
    ensures var cs := Candidates(DEFAULT, Collect(b.raw, RowOf));
            cs != [] && SpotsWithin(cs, spot, spot)
  {
    var rows := Collect(b.raw, RowOf);
    RowsAreExact(b, spot, fx);
    CandidatesAtSpot(DEFAULT, rows, spot);
    CollectAll(b.raw, RowOf);
    var i :| 0 <= i < |b.raw| && UsableForSpot(DEFAULT, b.raw[i]);
    assert rows[i] == b.raw[i].row;
    UsableGivesCandidate(rows, i, spot);
  }

  lemma UsableGivesCandidate(rows: seq<Row>, i: nat, spot: real)
    requires i < |rows| && GeometricRow(rows[i], spot) && UsableForSpot(DEFAULT, ParsedRow(rows[i]))
    ensures Candidates(DEFAULT, rows) != []
  {
    SpotFromLeverageInverts(rows[i].direction, rows[i].financing, rows[i].leverage, spot);
    CollectSome(rows, row => CandidateOf(DEFAULT, row), i);
  }

  lemma GeometricSpot(row: Row, spot: real, other: real)
    requires GeometricRow(row, spot)
    requires SpotFromLeverage(row.direction, row.financing, row.leverage) == Some(other)
    ensures other == spot
  {
    SpotFromLeverageInverts(row.direction, row.financing, row.leverage, other);
    SpotFromLeverageInverts(row.direction, row.financing, row.leverage, spot);
  }

  // The derived reference spot is the common spot, exactly.
  lemma ExactSpot(b: Batch, spot: real, fx: real)
    requires ValidBatch(b) && ExactBatch(b, spot, fx)
    requires exists i :: 0 <= i < |b.raw| && UsableForSpot(DEFAULT, b.raw[i])
    ensures BatchSpot(DEFAULT, b) == if PassesCrossCheck(DEFAULT, b, spot) then Some(spot) else None
  {
    ExactCandidates(b, spot, fx);
    EstimateWithinHull(Candidates(DEFAULT, Collect(b.raw, RowOf)), DEFAULT.madK, spot, spot);
  }

  // The row verifies under this rate.
  predicate Explained(row: Row, sRef: real, fx: real)
    requires sRef > 0.0 && fx > 0.0
  {
    row.MidPrice().Some? && TryFx(DEFAULT, row, row.MidPrice().value, sRef, fx, true).verified
  }

  // The common rate is supplied, or the issuer's own rows show it.
  ghost predicate RateKnown(b: Batch, spot: real, fx: real, issuer: string)
    requires spot > 0.0
  {
    b.fxHint.Some? || RateShows(Group(Collect(b.raw, RowOf), issuer), spot, fx)
  }

  // The row comes out with its own ratio and its own currency type.
  ghost predicate RightlyEmitted(v: Verdict, row: Row, spot: real, fx: real)
    requires ExactlyPriced(row, spot, 1.0) || ExactlyPriced(row, spot, fx)
  {
    var quanto := ExactlyPriced(row, spot, 1.0);
    && v.Emitted? && v.snapshot.row == row && v.snapshot.quanto == Some(quanto)
    && v.snapshot.ratio == TrueRatio(row, spot, if quanto then 1.0 else fx)
  }

  // The ways an exact row of a foreign underlying can end.
  ghost predicate Decided(b: Batch, spot: real, fx: real, row: Row, v: Verdict)
    requires spot > 0.0 && fx > 0.0 && ExactRowAt(row, spot, fx)
  {
    var known := RateKnown(b, spot, fx, row.issuer);
    if row.bid.None? then v == Unpriced(row)
    else if known && Explained(row, spot, 1.0) && Explained(row, spot, fx) then
      v == Refused(Rejection(row, b.underlying, QuantoAmbiguous, spot))
    else if known || ExactlyPriced(row, spot, 1.0) then RightlyEmitted(v, row, spot, fx)
    else if Explained(row, spot, 1.0) then
      v.Emitted? && v.snapshot.row == row && v.snapshot.quanto == Some(true) && !ExactlyPriced(row, spot, 1.0)
    else v.Refused? && v.rejection.row == row && v.rejection.referenceSpot == spot
  }

  // What becomes of every exact row of a foreign underlying, at every rate a caller supplies and at every
  // rate of the search band when none is. A known rate misprices nothing: what both rates explain is refused.
  // With no known rate, the non-quanto rows that fx = 1 explains come out as quanto ones, and no others do.
  lemma DecidedFetch(b: Batch, spot: real, fx: real, i: nat)
    requires ValidBatch(b) && ExactBatch(b, spot, fx) && NeedsFx(b.currency)
    requires exists j :: 0 <= j < |b.raw| && UsableForSpot(DEFAULT, b.raw[j])
    requires PassesCrossCheck(DEFAULT, b, spot)
    requires if b.fxHint.Some? then b.fxHint.value == fx else DEFAULT.fxMin <= fx <= DEFAULT.fxMax
    requires i < |b.raw|
    ensures |BatchVerdicts(DEFAULT, b)| == |b.raw|
    ensures Decided(b, spot, fx, b.raw[i].row, BatchVerdicts(DEFAULT, b)[i])
  {
    hide VerdictOf, BatchVerdicts, BatchSpot, PassesCrossCheck, ExactlyPriced, Decided, UsableForSpot, Collect,
         ValidBatch, NeedsFx;
    var rows := Collect(b.raw, RowOf);
    ExactVerdicts(b, spot, fx);
    DecidedRow(b, spot, fx, rows, rows[i]);
  }

  lemma DecidedRow(b: Batch, spot: real, fx: real, rows: seq<Row>, row: Row)
    requires ValidBatch(b) && ExactBatch(b, spot, fx) && NeedsFx(b.currency)
    requires if b.fxHint.Some? then b.fxHint.value == fx else DEFAULT.fxMin <= fx <= DEFAULT.fxMax
    requires rows == Collect(b.raw, RowOf) && row in rows
    ensures ExactRowAt(row, spot, fx)
    ensures Decided(b, spot, fx, row, VerdictOf(DEFAULT, b, rows, spot, row))
  {
    hide TrueRatio, DeriveRatio, ExactBatch, Explained, NeedsFx, HintFor, RateKnown, GeometricRow;
    assert spot > 0.0 && fx > 0.0 by { ExactBatchPositive(b, spot, fx); }
    RowsAreExact(b, spot, fx);
    HintIsTrueRate(b, spot, fx, rows, row.issuer);
    if row.bid.Some? { DerivedWhen(row, spot, b.currency, HintFor(DEFAULT, b, rows, spot, row.issuer), fx); }
  }

  lemma ExactBatchPositive(b: Batch, spot: real, fx: real)
    requires ExactBatch(b, spot, fx)
    ensures spot > 0.0 && fx > 0.0
  {
  }

  lemma HintIsTrueRate(b: Batch, spot: real, fx: real, rows: seq<Row>, issuer: string)
    requires ValidBatch(b) && ExactBatch(b, spot, fx) && NeedsFx(b.currency) && rows == Collect(b.raw, RowOf)
    requires if b.fxHint.Some? then b.fxHint.value == fx else DEFAULT.fxMin <= fx <= DEFAULT.fxMax
    ensures HintFor(DEFAULT, b, rows, spot, issuer) == if RateKnown(b, spot, fx, issuer) then Some(fx) else None
  {
    hide RateShows, ExactlyPriced, LearnFor, Group;
    if b.fxHint.None? {
      RowsAreExact(b, spot, fx);
      GroupIsPriced(rows, issuer);
      LearnedIff(rows, spot, issuer, fx);
    }
  }

  // The outcome of an exact row of a foreign underlying under its true rate or none.
  lemma DerivedWhen(row: Row, spot: real, currency: Option<string>, hint: Option<real>, fx: real)
    requires spot > 0.0 && fx > 0.0 && NeedsFx(currency) && (hint.Some? ==> hint.value == fx)
    requires ExactlyPriced(row, spot, 1.0) || ExactlyPriced(row, spot, fx)
    ensures var outcome := DeriveRatio(DEFAULT, row, row.MidPrice().value, spot, currency, hint);
            var quanto := ExactlyPriced(row, spot, 1.0);
            if hint.Some? && Explained(row, spot, 1.0) && Explained(row, spot, fx) then outcome == QuantoAmbiguous
            else if hint.Some? || quanto then
              outcome == Derived(TrueRatio(row, spot, if quanto then 1.0 else fx), Some(quanto))
            else if Explained(row, spot, 1.0) then outcome.Derived? && outcome.quanto == Some(true)
            else !outcome.Derived?
  {
    hide TrueRatio, PricedAt, TryFx, GeometricRow;
    var rate := if ExactlyPriced(row, spot, 1.0) then 1.0 else fx;
    ExactIsPricedAt(row, spot, rate);
    ExactAttempt(row, row.MidPrice().value, spot, TrueRatio(row, spot, rate), rate, true);
  }

  // Which exact rows the fetch can price: quanto ones always, the others once their rate is known.
  ghost predicate Recoverable(b: Batch, spot: real, fx: real, row: Row) {
    ExactlyPriced(row, spot, 1.0) ||
    if b.fxHint.Some? then b.fxHint.value == fx
    else
      var floating := Floating(Group(Collect(b.raw, RowOf), row.issuer), spot, fx);
      |floating| >= 5 && exists r :: r in floating && !RivalledRow(r, spot, fx)
  }

  // Under the common rate and its inverse no two grid ratios can be confused; a rate to be learned also has
  // to lie in the search band.
  ghost predicate KeepsApart(b: Batch, fx: real)
    requires fx > 0.0
  {
    NeedsFx(b.currency) ==> Apart(fx) && Apart(1.0 / fx) && (b.fxHint.None? ==> DEFAULT.fxMin <= fx <= DEFAULT.fxMax)
  }

  // End to end: on exact data around one spot, every row comes out with its own ratio and its own
  // currency type, or, when its rate cannot be known, is refused. No row is ever mispriced.
  lemma ExactFetch(b: Batch, spot: real, fx: real, i: nat)
    requires ValidBatch(b) && ExactBatch(b, spot, fx) && KeepsApart(b, fx)
    requires exists j :: 0 <= j < |b.raw| && UsableForSpot(DEFAULT, b.raw[j])
    requires PassesCrossCheck(DEFAULT, b, spot)
    requires NeedsFx(b.currency) || forall j :: 0 <= j < |b.raw| ==> ExactRowAt(b.raw[j].row, spot, 1.0)
    requires b.fxHint.Some? ==> b.fxHint.value == fx
    requires i < |b.raw|
    ensures |BatchVerdicts(DEFAULT, b)| == |b.raw|
    ensures var v := BatchVerdicts(DEFAULT, b)[i];
            var row := b.raw[i].row;
            var quanto := ExactlyPriced(row, spot, 1.0);
            if row.bid.None? then v == Unpriced(row)
            else if Recoverable(b, spot, fx, row)
            then v.Emitted? && v.snapshot.row == row
                 && v.snapshot.ratio == TrueRatio(row, spot, if quanto then 1.0 else fx)
                 && v.snapshot.quanto == if NeedsFx(b.currency) then Some(quanto) else None
            else v.Refused? && v.rejection.row == row && v.rejection.referenceSpot == spot
  {
    hide VerdictOf, BatchVerdicts, BatchSpot, PassesCrossCheck, ExactlyPriced, TrueRatio, Recoverable, UsableForSpot,
         Collect, ValidBatch, Learnable, NeedsFx;
    var rows := Collect(b.raw, RowOf);
    ExactVerdicts(b, spot, fx);
    ExactRow(b, spot, fx, rows, rows[i]);
  }

  lemma ExactVerdicts(b: Batch, spot: real, fx: real)
    requires ValidBatch(b) && ExactBatch(b, spot, fx)
    requires exists j :: 0 <= j < |b.raw| && UsableForSpot(DEFAULT, b.raw[j])
    requires PassesCrossCheck(DEFAULT, b, spot)
    ensures var rows := Collect(b.raw, RowOf);
            && |rows| == |b.raw| && (forall i :: 0 <= i < |rows| ==> rows[i] == b.raw[i].row)
            && BatchVerdicts(DEFAULT, b) == VerdictsFor(DEFAULT, b, rows, spot, rows)
  {
    hide VerdictOf, BatchSpot, PassesCrossCheck, ExactlyPriced, UsableForSpot, Collect, ValidBatch;
    CollectAll(b.raw, RowOf);
    CollectNone(b.raw, FailureOf);
    ExactSpot(b, spot, fx);
  }

  lemma ExactRow(b: Batch, spot: real, fx: real, rows: seq<Row>, row: Row)
    requires ValidBatch(b) && ExactBatch(b, spot, fx) && KeepsApart(b, fx)
    requires rows == Collect(b.raw, RowOf) && row in rows
    requires NeedsFx(b.currency) || forall j :: 0 <= j < |b.raw| ==> ExactRowAt(b.raw[j].row, spot, 1.0)
    requires b.fxHint.Some? ==> b.fxHint.value == fx
    ensures var v := VerdictOf(DEFAULT, b, rows, spot, row);
            var quanto := ExactlyPriced(row, spot, 1.0);
            if row.bid.None? then v == Unpriced(row)
            else if Recoverable(b, spot, fx, row)
            then v.Emitted? && v.snapshot.row == row
                 && v.snapshot.ratio == TrueRatio(row, spot, if quanto then 1.0 else fx)
                 && v.snapshot.quanto == if NeedsFx(b.currency) then Some(quanto) else None
            else v.Refused? && v.rejection.row == row && v.rejection.referenceSpot == spot
  {
    hide Apart, TrueRatio, PricedAt, Learnable, TryFx, GeometricRow;
    RowsAreExact(b, spot, fx);
    var quanto := ExactlyPriced(row, spot, 1.0);
    var hint := HintFor(DEFAULT, b, rows, spot, row.issuer);
    if row.bid.None? { return; }
    if b.fxHint.None? && NeedsFx(b.currency) {
      LearnableIff(fx);
      GroupIsPriced(rows, row.issuer);
      LearnedIffDiverse(rows, spot, row.issuer, fx);
    }
    var rate := if quanto then 1.0 else fx;
    if quanto || hint.Some? {
      ExactIsPricedAt(row, spot, rate);
      ExactDerivation(row, row.MidPrice().value, spot, b.currency, TrueRatio(row, spot, rate), quanto, hint);
    } else {
      UnresolvedIffFloating(row, spot, fx);
    }
  }

  lemma RowsAreExact(b: Batch, spot: real, fx: real)
    requires ExactBatch(b, spot, fx)
    ensures forall row :: row in Collect(b.raw, RowOf) ==> ExactRowAt(row, spot, fx)
    ensures forall row :: row in Collect(b.raw, RowOf) && row.MidPrice().Some? ==>
              ExactlyPriced(row, spot, 1.0) || ExactlyPriced(row, spot, fx)
    ensures (forall j :: 0 <= j < |b.raw| ==> ExactRowAt(b.raw[j].row, spot, 1.0)) ==>
              forall row :: row in Collect(b.raw, RowOf) ==> ExactRowAt(row, spot, 1.0)
  {
    CollectAll(b.raw, RowOf);
  }

  // ---- The same from the quotes ----

  // With both sides quoted their sum is twice the intrinsic value of ratio g under fx; a bid alone is that value.
  ghost predicate QuotedAt(row: Row, sRef: real, g: real, fx: real) {
    && GeometricRow(row, sRef) && g in GRID && fx > 0.0 && row.bid.Some?
    && if row.ask.Some? then (row.bid.value + row.ask.value) * fx == 2.0 * g * Abs(sRef - row.financing)
       else row.bid.value * fx == g * Abs(sRef - row.financing)
  }

  lemma QuotedIsExact(row: Row, sRef: real, g: real, fx: real)
    requires QuotedAt(row, sRef, g, fx)
    ensures ExactlyPriced(row, sRef, fx) && TrueRatio(row, sRef, fx) == g
  {
    hide GRID;
    if row.ask.Some? { HalfSum(row.bid.value, row.ask.value, fx, g, Abs(sRef - row.financing)); }
    PricedIsExact(row, sRef, g, fx);
  }

  lemma HalfSum(bid: real, ask: real, fx: real, g: real, m: real)
    requires (bid + ask) * fx == 2.0 * g * m
    ensures (bid + ask) / 2.0 * fx == g * m
  {
    assert (bid + ask) / 2.0 * fx == (bid + ask) * fx / 2.0;
  }

  ghost predicate QuotedRowAt(row: Row, spot: real, fx: real) {
    GeometricRow(row, spot) &&
    (row.bid.Some? ==> (exists g :: QuotedAt(row, spot, g, 1.0)) || (exists g :: QuotedAt(row, spot, g, fx)))
  }

  ghost predicate QuotedBatch(b: Batch, spot: real, fx: real) {
    && b.known && spot > 0.0 && fx > 0.0
    && forall i :: 0 <= i < |b.raw| ==> b.raw[i].ParsedRow? && QuotedRowAt(b.raw[i].row, spot, fx)
  }

  lemma QuotedBatchIsExact(b: Batch, spot: real, fx: real)
    requires QuotedBatch(b, spot, fx)
    ensures ExactBatch(b, spot, fx)
  {
    hide GRID, GeometricRow, ExactlyPriced, QuotedAt;
    forall i | 0 <= i < |b.raw| ensures ExactRowAt(b.raw[i].row, spot, fx) {
      QuotedRowIsExact(b.raw[i].row, spot, fx);
    }
  }

  lemma QuotedRowIsExact(row: Row, spot: real, fx: real)
    requires QuotedRowAt(row, spot, fx)
    ensures ExactRowAt(row, spot, fx)
  {
    hide GRID, GeometricRow, ExactlyPriced, QuotedAt;
    if row.bid.Some? {
      if g :| QuotedAt(row, spot, g, 1.0) {
        QuotedIsExact(row, spot, g, 1.0);
      } else {
        var g :| QuotedAt(row, spot, g, fx);
        QuotedIsExact(row, spot, g, fx);
      }
    }
  }

  // End to end from bids and asks: a row quoted around the intrinsic value of ratio g, or with a bid at it,
  // is emitted with ratio g and its own currency type once its rate is known; a row without a bid is not priced.
  lemma QuotedFetch(b: Batch, spot: real, fx: real, i: nat, g: real, quanto: bool)
    requires ValidBatch(b) && QuotedBatch(b, spot, fx) && KeepsApart(b, fx)
    requires exists j :: 0 <= j < |b.raw| && UsableForSpot(DEFAULT, b.raw[j])
    requires PassesCrossCheck(DEFAULT, b, spot)
    requires NeedsFx(b.currency) || (quanto && forall j :: 0 <= j < |b.raw| ==> QuotedRowAt(b.raw[j].row, spot, 1.0))
    requires b.fxHint.Some? ==> b.fxHint.value == fx
    requires i < |b.raw|
    requires quanto || Recoverable(b, spot, fx, b.raw[i].row)
    ensures |BatchVerdicts(DEFAULT, b)| == |b.raw|
    ensures var v, row := BatchVerdicts(DEFAULT, b)[i], b.raw[i].row;
            && (row.bid.None? ==> v == Unpriced(row))
            && (QuotedAt(row, spot, g, if quanto then 1.0 else fx) ==>
                v.Emitted? && v.snapshot.row == row && v.snapshot.ratio == g
                && v.snapshot.quanto == if NeedsFx(b.currency) then Some(quanto) else None)
  {
    hide BatchVerdicts, PassesCrossCheck, ExactlyPriced, TrueRatio, UsableForSpot, Apart, GeometricRow, GRID,
         QuotedAt, NeedsFx;
    QuotedBatchIsExact(b, spot, fx);
    forall j | 0 <= j < |b.raw| && QuotedRowAt(b.raw[j].row, spot, 1.0) ensures ExactRowAt(b.raw[j].row, spot, 1.0) {
      QuotedRowIsExact(b.raw[j].row, spot, 1.0);
    }
    ExactFetch(b, spot, fx, i);
    var row := b.raw[i].row;
    if QuotedAt(row, spot, g, if quanto then 1.0 else fx) {
      QuotedIsExact(row, spot, g, if quanto then 1.0 else fx);
      QuotedHasBid(row, spot, g, if quanto then 1.0 else fx);
      if !quanto { NotBoth(row, spot, fx); }
    }
  }

  lemma QuotedHasBid(row: Row, sRef: real, g: real, fx: real)
    requires QuotedAt(row, sRef, g, fx)
    ensures row.bid.Some?
  {
  }

  // Where the inverse rate keeps the ratios apart no row is exactly priced both ways.
  lemma NotBoth(row: Row, sRef: real, fx: real)
    requires ExactlyPriced(row, sRef, fx) && Apart(1.0 / fx)
    ensures !ExactlyPriced(row, sRef, 1.0)
  {
    hide TryFx, Apart, TrueRatio, PricedAt, GeometricRow;
    var price := row.MidPrice().value;
    ExactIsPricedAt(row, sRef, fx);
    ApartFails(row, price, sRef, TrueRatio(row, sRef, fx), fx, 1.0);
    if ExactlyPriced(row, sRef, 1.0) {
      ExactIsPricedAt(row, sRef, 1.0);
      ExactAttempt(row, price, sRef, TrueRatio(row, sRef, 1.0), 1.0, true);
    }
  }

  // ---- What the reference spot depends on ----

  // The rows that may vote on the spot.
  function Fresh(cfg: Config): RawRow -> Option<Row> {
    (r: RawRow) => if r.ParsedRow? && !r.row.isStale && r.row.leverage <= cfg.maxLeverage then Some(r.row) else None
  }

  function Vote(row: Row): Option<Candidate> {
    match SpotFromLeverage(row.direction, row.financing, row.leverage)
    case None => None
    case Some(spot) => Some(Candidate(spot, row.direction))
  }

  lemma {:induction false} CandidatesAreVotes(cfg: Config, raw: seq<RawRow>)
    ensures Candidates(cfg, Collect(raw, RowOf)) == Collect(Collect(raw, Fresh(cfg)), Vote)
  {
    hide SpotFromLeverage;
    if raw == [] {
    } else {
      var r, rest := raw[0], raw[1..];
      CandidatesAreVotes(cfg, rest);
      var rows, voters := Collect(rest, RowOf), Collect(rest, Fresh(cfg));
      if r.ParsedRow? {
        assert Collect(raw, RowOf) == [r.row] + rows && ([r.row] + rows)[1..] == rows;
        assert ([r.row] + voters)[1..] == voters;
      }
    }
  }

  // Stale rows, rows over the leverage cap and unparsable ones have no influence on the reference spot, and
  // neither has the order of the others.
  lemma OnlyFreshRowsVote(cfg: Config, b: Batch, other: Batch)
    requires ValidBatch(b) && ValidBatch(other)
    requires b.liveReference == other.liveReference && b.closeReference == other.closeReference
    requires multiset(Collect(b.raw, Fresh(cfg))) == multiset(Collect(other.raw, Fresh(cfg)))
    ensures BatchSpot(cfg, b) == BatchSpot(cfg, other)
  {
    hide Vote, RobustReferenceSpot, Fresh, Candidates;
    CandidatesAreVotes(cfg, b.raw);
    CandidatesAreVotes(cfg, other.raw);
    CollectPermutation(Collect(b.raw, Fresh(cfg)), Collect(other.raw, Fresh(cfg)), Vote);
    var cs, ds := Candidates(cfg, Collect(b.raw, RowOf)), Candidates(cfg, Collect(other.raw, RowOf));
    assert |cs| == |multiset(cs)| == |multiset(ds)| == |ds|;
    EstimatePermutation(cs, ds, cfg.madK);
  }

  // The reference a batch is held against, with its tolerance: the live one if there is one.
  function Held(cfg: Config, b: Batch): Option<(real, real)> {
    if b.liveReference.Some? then Some((b.liveReference.value, cfg.liveTol))
    else if b.closeReference.Some? then Some((b.closeReference.value, cfg.closeTol))
    else None
  }

  ghost predicate NearReference(cfg: Config, b: Batch, spot: real) {
    match Held(cfg, b)
    case None => true
    case Some((expected, tol)) => Abs(spot - expected) <= tol * expected
  }

  lemma CrossCheckMeans(cfg: Config, b: Batch, spot: real)
    requires ValidBatch(b) && (Held(cfg, b).Some? ==> Held(cfg, b).value.0 > 0.0)
    ensures PassesCrossCheck(cfg, b, spot) <==> NearReference(cfg, b, spot)
  {
    if Held(cfg, b).Some? {
      QuotientOrder(Abs(spot - Held(cfg, b).value.0), Held(cfg, b).value.0, Held(cfg, b).value.1);
    }
  }

  // With votes, rows are priced iff the estimate is within the tolerance of the reference, and then at the
  // estimate; a spot further off prices no row.
  lemma ReferenceDecides(cfg: Config, b: Batch)
    requires ValidBatch(b) && cfg.fxMin > 0.0 && Candidates(cfg, Collect(b.raw, RowOf)) != []
    requires Held(cfg, b).Some? ==> Held(cfg, b).value.0 > 0.0
    ensures var estimate := RobustReferenceSpot(Candidates(cfg, Collect(b.raw, RowOf)), cfg.madK).value.value;
            && BatchSpot(cfg, b) == (if NearReference(cfg, b, estimate) then Some(estimate) else None)
            && (!NearReference(cfg, b, estimate) ==> forall v :: v in BatchVerdicts(cfg, b) ==> v.ParseFailed?)
  {
    hide Used, Balanced, Side, Candidates, VerdictsFor, Collect, PassesCrossCheck, NearReference, Held;
    CrossCheckMeans(cfg, b, RobustReferenceSpot(Candidates(cfg, Collect(b.raw, RowOf)), cfg.madK).value.value);
    FailuresOnly(b.raw);
  }

  lemma FailuresOnly(raw: seq<RawRow>)
    ensures forall v :: v in Collect(raw, FailureOf) ==> v.ParseFailed?
  {
    var failures := Collect(raw, FailureOf);
    forall i | 0 <= i < |failures| ensures failures[i].ParseFailed? {
      var k := CollectFrom(raw, FailureOf, i);
    }
  }
}
