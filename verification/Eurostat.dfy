/**
Selecting one configured series out of a decoded Eurostat cube:
`parse_eurostat_payload` in src/turboedge/adapters/eurostat.py.
*/
module Eurostat {
  import opened Grouping
  import opened JsonStat
  import opened Sequences
  import opened Sorting
  import opened Wrappers

  const TIME := "time"

  datatype Observation = Observation(period: string, start: int, value: real)

  datatype Warning =
    | UnknownDimensions(dims: set<string>)
    | UnpinnedDimensions(unpinned: seq<string>)
    | NoCellMatches
    | UnusablePeriod(period: string)
    | AmbiguousPeriods(count: nat)

  datatype Parsed = Parsed(observations: seq<Observation>, warnings: seq<Warning>)

  // Start of the period and numeric value, when both parse (`_period_to_date` and `float`).
  type Reader = (string, Scalar) -> Option<(int, real)>

  function Declared(d: Dataset): seq<string> {
    if d.ids.Some? then d.ids.value else []
  }

  function UnknownDims(filters: map<string, string>, declared: seq<string>): set<string> {
    set k | k in filters && k !in declared
  }

  function UnpinnedDim(filters: map<string, string>, dim: string): Option<string> {
    if dim != TIME && dim !in filters then Some(dim) else None
  }

  predicate Selected(filters: map<string, string>, row: Row) {
    forall k :: k in filters ==> k in row && row[k] == Text(filters[k])
  }

  function SelectedRow(filters: map<string, string>, row: Row): Option<Row> {
    if Selected(filters, row) then Some(row) else None
  }

  // `str(row.get("time"))`; a row without the dimension reads "None".
  function Period(row: Row): string {
    if TIME in row && row[TIME].Text? then row[TIME].s else "None"
  }

  function PeriodOf(row: Row): Option<string> {
    Some(Period(row))
  }

  function Matches(rows: seq<Row>, period: string): seq<Row> {
    WithKey(rows, PeriodOf, period)
  }

  // The periods of the rows, each once, in order of first appearance.
  function Periods(rows: seq<Row>): (r: seq<string>) {
    Keys(rows, PeriodOf)
  }

  // Dictionary order of texts by code point.
  predicate TextLe(a: string, b: string) {
    if a == [] then true
    else if b == [] then false
    else a[0] < b[0] || (a[0] == b[0] && TextLe(a[1..], b[1..]))
  }

  function TextOrder(): (string, string) -> bool {
    (a, b) => TextLe(a, b)
  }

  // The single matching cell of a period, read; None when ambiguous or unusable.
  function ObservationAt(rows: seq<Row>, period: string, read: Reader): Option<Observation> {
    var matches := Matches(rows, period);
    if |matches| != 1 || "value" !in matches[0] then None
    else
      match read(period, matches[0]["value"])
      case None => None
      case Some(v) => Some(Observation(period, v.0, v.1))
  }

  predicate IsAmbiguous(rows: seq<Row>, period: string) {
    |Matches(rows, period)| > 1
  }

  function UnusableAt(rows: seq<Row>, period: string, read: Reader): Option<Warning> {
    if IsAmbiguous(rows, period) || ObservationAt(rows, period, read).Some? then None
    else Some(UnusablePeriod(period))
  }

  function AmbiguousAt(rows: seq<Row>, period: string): Option<string> {
    if IsAmbiguous(rows, period) then Some(period) else None
  }

  function ParseRows(rows: seq<Row>, filters: map<string, string>, read: Reader): Parsed {
    var selected := Collect(rows, row => SelectedRow(filters, row));
    if selected == [] then Parsed([], [NoCellMatches])
    else
      var periods := SortBy(Periods(selected), TextOrder());
      var ambiguous := |Collect(periods, p => AmbiguousAt(selected, p))|;
      Parsed(Collect(periods, p => ObservationAt(selected, p, read)),
             Collect(periods, p => UnusableAt(selected, p, read)) +
             if ambiguous > 0 then [AmbiguousPeriods(ambiguous)] else [])
  }

  function ParsePayload(d: Dataset, filters: map<string, string>, read: Reader): (r: Result<Parsed, DecodeError>) {
    var declared := Declared(d);
    if UnknownDims(filters, declared) != {} then
      Ok(Parsed([], [UnknownDimensions(UnknownDims(filters, declared))]))
    else
      var unpinned := Collect(declared, dim => UnpinnedDim(filters, dim));
      if unpinned != [] then Ok(Parsed([], [UnpinnedDimensions(unpinned)]))
      else
        match Decode(d)
        case Err(e) => Err(e)
        case Ok(rows) => Ok(ParseRows(rows, filters, read))
  }

  method SelectRows(rows: seq<Row>, filters: map<string, string>) returns (selected: seq<Row>)
    ensures selected == Collect(rows, row => SelectedRow(filters, row))
  {
    selected := [];
    for i := 0 to |rows|
      invariant selected == Collect(rows[..i], row => SelectedRow(filters, row))
    {
      assert rows[..i + 1] == rows[..i] + [rows[i]];
      CollectAppend(rows[..i], rows[i], row => SelectedRow(filters, row));
      if Selected(filters, rows[i]) {
        selected := selected + [rows[i]];
      }
    }
    assert rows[..|rows|] == rows;
  }

  method ReadPeriods(groups: map<string, seq<Row>>, periods: seq<string>, ghost selected: seq<Row>, read: Reader)
    returns (observations: seq<Observation>, warnings: seq<Warning>, ambiguous: nat)
    requires forall p :: p in periods ==> p in groups && groups[p] == Matches(selected, p)
    ensures observations == Collect(periods, p => ObservationAt(selected, p, read))
    ensures warnings == Collect(periods, p => UnusableAt(selected, p, read))
    ensures ambiguous == |Collect(periods, p => AmbiguousAt(selected, p))|
  {
    hide Matches;
    observations, warnings, ambiguous := [], [], 0;
    for i := 0 to |periods|
      invariant observations == Collect(periods[..i], p => ObservationAt(selected, p, read))
      invariant warnings == Collect(periods[..i], p => UnusableAt(selected, p, read))
      invariant ambiguous == |Collect(periods[..i], p => AmbiguousAt(selected, p))|
    {
      var period := periods[i];
      assert periods[..i + 1] == periods[..i] + [period];
      CollectAppend(periods[..i], period, p => ObservationAt(selected, p, read));
      CollectAppend(periods[..i], period, p => UnusableAt(selected, p, read));
      CollectAppend(periods[..i], period, p => AmbiguousAt(selected, p));
      var matches := groups[period];
      if |matches| > 1 {
        ambiguous := ambiguous + 1;
      } else {
        var value := if |matches| == 1 && "value" in matches[0] then read(period, matches[0]["value"]) else None;
        match value
        case Some(v) => observations := observations + [Observation(period, v.0, v.1)];
        case None => warnings := warnings + [UnusablePeriod(period)];
      }
    }
    assert periods[..|periods|] == periods;
  }

  lemma SortMembers(periods: seq<string>)
    ensures forall p :: p in SortBy(periods, TextOrder()) <==> p in periods
  {
    var ordered := SortBy(periods, TextOrder());
    SortContents(periods, TextOrder());
    forall p ensures p in ordered <==> p in periods {
      assert p in multiset(ordered) <==> p in multiset(periods);
    }
  }

  lemma PeriodsAndMatches(rows: seq<Row>)
    ensures Periods(rows) == Keys(rows, PeriodOf)
    ensures forall p :: Matches(rows, p) == WithKey(rows, PeriodOf, p)
  {
  }

  method ReadRows(rows: seq<Row>, filters: map<string, string>, read: Reader) returns (r: Parsed)
    ensures r == ParseRows(rows, filters, read)
  {
    hide Periods, Matches, SortBy, ObservationAt, UnusableAt, AmbiguousAt, Collect, TextOrder, SelectedRow;
    var selected := SelectRows(rows, filters);
    if selected == [] {
      return Parsed([], [NoCellMatches]);
    }
    var groups, periods := GroupBy(selected, PeriodOf);
    PeriodsAndMatches(selected);
    SortMembers(periods);
    var ordered := SortBy(periods, TextOrder());
    var observations, warnings, ambiguous := ReadPeriods(groups, ordered, selected, read);
    var more := if ambiguous > 0 then [AmbiguousPeriods(ambiguous)] else [];
    return Parsed(observations, warnings + more);
  }

  method ParseEurostatPayload(d: Dataset, filters: map<string, string>, read: Reader)
    returns (r: Result<Parsed, DecodeError>)
    ensures r == ParsePayload(d, filters, read)
  {
    hide Decode, ParseRows, UnknownDims, UnpinnedDim, Collect;
    var declared := Declared(d);
    if UnknownDims(filters, declared) != {} {
      return Ok(Parsed([], [UnknownDimensions(UnknownDims(filters, declared))]));
    }
    var unpinned := Collect(declared, dim => UnpinnedDim(filters, dim));
    if unpinned != [] {
      return Ok(Parsed([], [UnpinnedDimensions(unpinned)]));
    }
    var rows := DecodeJsonStat(d);
    match rows
    case Err(e) => return Err(e);
    case Ok(decoded) =>
      var parsed := ReadRows(decoded, filters, read);
      return Ok(parsed);
  }

  // ---- Pinned selection is direct lookup ----

  // A well-formed cube: no dimension is named twice or called "value", codes and cell keys are distinct.
  ghost predicate ProperCube(d: Dataset) {
    && Complete(d)
    && (forall i, j :: 0 <= i < j < |d.ids.value| ==> d.ids.value[i] != d.ids.value[j])
    && "value" !in d.ids.value && TIME in d.ids.value
    && (forall id :: id in d.ids.value && id in d.dimensions.value ==> DistinctCodes(d.dimensions.value[id]))
    && (forall i, j :: 0 <= i < j < |d.cells.value| ==> d.cells.value[i].key != d.cells.value[j].key)
  }

  // The filters pin every declared dimension but time, and nothing else.
  ghost predicate PinsAll(d: Dataset, filters: map<string, string>) {
    d.ids.Some? && forall k :: k in filters <==> k in d.ids.value && k != TIME
  }

  // The two refusals before decoding are exactly a failure to pin all dimensions.
  lemma PinningCheck(d: Dataset, filters: map<string, string>)
    requires d.ids.Some?
    ensures PinsAll(d, filters) <==>
            && UnknownDims(filters, Declared(d)) == {} && TIME !in filters
            && Collect(Declared(d), dim => UnpinnedDim(filters, dim)) == []
  {
    var f := dim => UnpinnedDim(filters, dim);
    var declared := Declared(d);
    if PinsAll(d, filters) {
      CollectNone(declared, f);
    }
    if UnknownDims(filters, declared) == {} && Collect(declared, f) == [] && TIME !in filters {
      forall k ensures k in filters <==> k in declared && k != TIME {
        assert k in UnknownDims(filters, declared) <==> k in filters && k !in declared;
        if k in declared && k != TIME && k !in filters {
          var i :| 0 <= i < |declared| && declared[i] == k;
          CollectSome(declared, f, i);
        }
      }
    }
  }

  function CodeFor(filters: map<string, string>, period: string, id: string): string {
    if id == TIME || id !in filters then period else filters[id]
  }

  // positions is where the pinned codes and the period sit in the cube.
  ghost predicate PinnedAt(ids: seq<string>, lookups: seq<map<int, string>>, filters: map<string, string>,
                           period: string, positions: seq<int>)
    requires |ids| == |lookups|
  {
    |positions| == |ids| &&
    forall j :: 0 <= j < |ids| ==>
      (positions[j] in lookups[j] && lookups[j][positions[j]] == CodeFor(filters, period, ids[j]))
  }

  // Cell i is the one addressed by the pinned codes and the period.
  ghost predicate Addressed(d: Dataset, filters: map<string, string>, period: string, i: nat) {
    && Complete(d) && |d.ids.value| == |d.sizes.value| && i < |d.cells.value|
    && Lookups(d.ids.value, d.dimensions.value).Ok?
    && exists positions ::
         && PinnedAt(d.ids.value, Lookups(d.ids.value, d.dimensions.value).value, filters, period, positions)
         && InRange(d.sizes.value, positions)
         && d.cells.value[i].key == IntKey(Ravel(d.sizes.value, positions))
  }

  // The row names, for every dimension, the code at the cell's position.
  ghost predicate NamesCodes(row: Row, ids: seq<string>, positions: seq<int>, lookups: seq<map<int, string>>)
    requires |ids| == |positions| == |lookups|
  {
    forall j :: 0 <= j < |ids| ==> NamesCode(row, ids[j], positions[j], lookups[j])
  }

  ghost predicate NamesCode(row: Row, id: string, position: int, lookup: map<int, string>) {
    position in lookup && id in row && row[id] == Text(lookup[position])
  }

  lemma {:induction false} NamedCodesHold(ids: seq<string>, positions: seq<int>, lookups: seq<map<int, string>>)
    requires |ids| == |positions| == |lookups|
    requires forall i, j :: 0 <= i < j < |ids| ==> ids[i] != ids[j]
    requires NamedCodes(ids, positions, lookups).Ok?
    ensures NamesCodes(NamedCodes(ids, positions, lookups).value, ids, positions, lookups)
  {
    if ids == [] {
    } else {
      var n := |ids| - 1;
      NamedCodesHold(ids[..n], positions[..n], lookups[..n]);
      var before := NamedCodes(ids[..n], positions[..n], lookups[..n]).value;
      var row := NamedCodes(ids, positions, lookups).value;
      forall j | 0 <= j < |ids| ensures NamesCode(row, ids[j], positions[j], lookups[j]) {
        if j < n { assert NamesCode(before, ids[..n][j], positions[..n][j], lookups[..n][j]); }
      }
    }
  }

  // A decoded cell is selected for a period exactly when its positions are the pinned ones.
  lemma SelectedIffPinned(d: Dataset, filters: map<string, string>, rows: seq<Row>, i: nat, period: string)
    requires ProperCube(d) && PinsAll(d, filters) && Decode(d) == Ok(rows) && i < |rows|
    ensures |rows| == |d.cells.value| && "value" in rows[i] && rows[i]["value"] == d.cells.value[i].value
    ensures Selected(filters, rows[i]) && Period(rows[i]) == period <==> Addressed(d, filters, period, i)
  {
    var ids, sizes, cell := d.ids.value, d.sizes.value, d.cells.value[i];
    var lookups := Lookups(ids, d.dimensions.value).value;
    assert DecodeCell(ids, sizes, lookups, cell) == Ok(rows[i]);
    UnravelSucceeds(cell.key.i, sizes);
    var positions := Unravel(cell.key.i, sizes).value;
    NamedCodesHold(ids, positions, lookups);
    var codes := NamedCodes(ids, positions, lookups).value;
    assert rows[i] == codes["value" := cell.value];
    forall j | 0 <= j < |ids| ensures NamesCode(rows[i], ids[j], positions[j], lookups[j]) {
      assert NamesCode(codes, ids[j], positions[j], lookups[j]);
    }
    RowIffPinned(ids, lookups, filters, period, positions, rows[i]);
    if Addressed(d, filters, period, i) {
      var other :| PinnedAt(ids, lookups, filters, period, other) && InRange(sizes, other)
                   && cell.key == IntKey(Ravel(sizes, other));
      RavelInjective(sizes, positions, other);
    }
  }

  lemma RowIffPinned(ids: seq<string>, lookups: seq<map<int, string>>, filters: map<string, string>, period: string,
                     positions: seq<int>, row: Row)
    requires |ids| == |lookups| == |positions| && TIME in ids
    requires forall k :: k in filters <==> k in ids && k != TIME
    requires NamesCodes(row, ids, positions, lookups)
    ensures Selected(filters, row) && Period(row) == period <==> PinnedAt(ids, lookups, filters, period, positions)
  {
    var t :| 0 <= t < |ids| && ids[t] == TIME;
    assert NamesCode(row, ids[t], positions[t], lookups[t]);
    if PinnedAt(ids, lookups, filters, period, positions) {
      forall k | k in filters ensures k in row && row[k] == Text(filters[k]) {
        var j :| 0 <= j < |ids| && ids[j] == k;
        assert NamesCode(row, ids[j], positions[j], lookups[j]);
      }
    }
    if Selected(filters, row) && Period(row) == period {
      forall j | 0 <= j < |ids|
        ensures positions[j] in lookups[j] && lookups[j][positions[j]] == CodeFor(filters, period, ids[j])
      {
        assert NamesCode(row, ids[j], positions[j], lookups[j]);
      }
    }
  }

  // The pinned codes and a period address at most one cell.
  lemma AddressedOnce(d: Dataset, filters: map<string, string>, period: string, i: nat, j: nat)
    requires ProperCube(d) && Addressed(d, filters, period, i) && Addressed(d, filters, period, j)
    ensures i == j
  {
    var ids, sizes := d.ids.value, d.sizes.value;
    var lookups := Lookups(ids, d.dimensions.value).value;
    var p :| PinnedAt(ids, lookups, filters, period, p) && InRange(sizes, p)
             && d.cells.value[i].key == IntKey(Ravel(sizes, p));
    var q :| PinnedAt(ids, lookups, filters, period, q) && InRange(sizes, q)
             && d.cells.value[j].key == IntKey(Ravel(sizes, q));
    forall k | 0 <= k < |ids| ensures p[k] == q[k] {
      InvertedInjective(d.dimensions.value[ids[k]]);
    }
    assert p == q;
  }

  function Sought(filters: map<string, string>, period: string, row: Row): Option<Row> {
    if Selected(filters, row) && Period(row) == period then Some(row) else None
  }

  lemma {:induction false} MatchesOfSelected(rows: seq<Row>, filters: map<string, string>, period: string)
    ensures Matches(Collect(rows, row => SelectedRow(filters, row)), period) ==
            Collect(rows, row => Sought(filters, period, row))
  {
    if rows == [] {
    } else {
      MatchesOfSelected(rows[1..], filters, period);
      var rest := Collect(rows[1..], row => SelectedRow(filters, row));
      var k, head := Keyed(PeriodOf, period), rows[0];
      assert PeriodOf(head) == Some(period) <==> Period(head) == period;
      assert k(head) == if PeriodOf(head) == Some(period) then Some(head) else None;
      if Selected(filters, head) {
        assert Collect(rows, row => SelectedRow(filters, row)) == [head] + rest;
        CollectConcat([head], rest, k);
        CollectOne(head, k);
      }
    }
  }

  lemma PeriodsMember(rows: seq<Row>, period: string)
    ensures period in Periods(rows) <==> Matches(rows, period) != []
  {
    KeysMember(rows, PeriodOf, period);
  }

  lemma SoughtIffAddressed(d: Dataset, filters: map<string, string>, rows: seq<Row>, period: string)
    requires ProperCube(d) && PinsAll(d, filters) && Decode(d) == Ok(rows)
    ensures |rows| == |d.cells.value|
    ensures forall j :: 0 <= j < |rows| ==>
              (Sought(filters, period, rows[j]) == if Addressed(d, filters, period, j) then Some(rows[j]) else None)
  {
    assert |rows| == |d.cells.value|;
    hide ProperCube, PinsAll, Decode, Addressed, Selected, Period;
    forall j | 0 <= j < |rows|
      ensures Sought(filters, period, rows[j]) == if Addressed(d, filters, period, j) then Some(rows[j]) else None
    {
      SelectedIffPinned(d, filters, rows, j, period);
    }
  }

  // What the selection sees of one period is the addressed cell ...
  lemma MatchesAddressed(d: Dataset, filters: map<string, string>, rows: seq<Row>, period: string, i: nat)
    requires ProperCube(d) && PinsAll(d, filters) && Decode(d) == Ok(rows)
    requires Addressed(d, filters, period, i)
    ensures i < |rows|
    ensures Matches(Collect(rows, row => SelectedRow(filters, row)), period) == [rows[i]]
  {
    assert i < |d.cells.value|;
    SoughtIffAddressed(d, filters, rows, period);
    MatchesOfSelected(rows, filters, period);
    hide PinsAll, Decode, Addressed, Sought, Matches, SelectedRow, ProperCube;
    forall j | 0 <= j < |rows| && j != i ensures !Addressed(d, filters, period, j) {
      if Addressed(d, filters, period, j) { AddressedOnce(d, filters, period, i, j); }
    }
    CollectUnique(rows, row => Sought(filters, period, row), i);
  }

  // ... or nothing.
  lemma MatchesNone(d: Dataset, filters: map<string, string>, rows: seq<Row>, period: string)
    requires ProperCube(d) && PinsAll(d, filters) && Decode(d) == Ok(rows)
    requires forall i: nat :: !Addressed(d, filters, period, i)
    ensures Matches(Collect(rows, row => SelectedRow(filters, row)), period) == []
  {
    SoughtIffAddressed(d, filters, rows, period);
    MatchesOfSelected(rows, filters, period);
    hide PinsAll, Decode, Addressed, Sought, Matches, SelectedRow, ProperCube;
    CollectNone(rows, row => Sought(filters, period, row));
  }

  lemma ObservationIsLookup(d: Dataset, filters: map<string, string>, rows: seq<Row>, read: Reader, o: Observation)
    requires ProperCube(d) && PinsAll(d, filters) && Decode(d) == Ok(rows)
    ensures ObservationAt(Collect(rows, row => SelectedRow(filters, row)), o.period, read) == Some(o) <==>
            exists i: nat :: Addressed(d, filters, o.period, i) && CellReads(d, read, o, i)
    ensures !IsAmbiguous(Collect(rows, row => SelectedRow(filters, row)), o.period)
  {
    hide PinsAll, Decode, Addressed, Matches, SelectedRow, Collect;
    if i: nat :| Addressed(d, filters, o.period, i) {
      MatchesAddressed(d, filters, rows, o.period, i);
      SelectedIffPinned(d, filters, rows, i, o.period);
      forall j: nat | Addressed(d, filters, o.period, j) ensures i == j { AddressedOnce(d, filters, o.period, i, j); }
    } else {
      MatchesNone(d, filters, rows, o.period);
    }
  }

  ghost predicate CellReads(d: Dataset, read: Reader, o: Observation, i: nat) {
    d.cells.Some? && i < |d.cells.value| && read(o.period, d.cells.value[i].value) == Some((o.start, o.value))
  }

  lemma NoRowsNoMatches(period: string)
    ensures Matches([], period) == []
  {
  }

  // A period's observation is emitted iff the selection has one for it.
  lemma EmittedIff(rows: seq<Row>, filters: map<string, string>, read: Reader, o: Observation)
    ensures o in ParseRows(rows, filters, read).observations <==>
            ObservationAt(Collect(rows, row => SelectedRow(filters, row)), o.period, read) == Some(o)
  {
    hide Matches, SelectedRow, TextOrder, Periods, IsAmbiguous, UnusableAt, AmbiguousAt;
    var selected := Collect(rows, row => SelectedRow(filters, row));
    var periods := SortBy(Periods(selected), TextOrder());
    PeriodsMember(selected, o.period);
    NoRowsNoMatches(o.period);
    SortMembers(Periods(selected));
    var f := p => ObservationAt(selected, p, read);
    if f(o.period) == Some(o) && selected != [] { CollectMember(periods, f, o.period); }
    if o in Collect(periods, f) {
      var k :| 0 <= k < |Collect(periods, f)| && Collect(periods, f)[k] == o;
      var j := CollectFrom(periods, f, k);
    }
  }

  lemma UnusableIff(rows: seq<Row>, filters: map<string, string>, read: Reader, period: string)
    ensures UnusablePeriod(period) in ParseRows(rows, filters, read).warnings <==>
            var selected := Collect(rows, row => SelectedRow(filters, row));
            |Matches(selected, period)| == 1 && ObservationAt(selected, period, read).None?
  {
    hide Matches, SelectedRow, TextOrder, Periods, AmbiguousAt, ObservationAt;
    var selected := Collect(rows, row => SelectedRow(filters, row));
    var periods := SortBy(Periods(selected), TextOrder());
    PeriodsMember(selected, period);
    NoRowsNoMatches(period);
    SortMembers(Periods(selected));
    var f := p => UnusableAt(selected, p, read);
    if f(period) == Some(UnusablePeriod(period)) && period in periods { CollectMember(periods, f, period); }
    if UnusablePeriod(period) in Collect(periods, f) {
      var k :| 0 <= k < |Collect(periods, f)| && Collect(periods, f)[k] == UnusablePeriod(period);
      var j := CollectFrom(periods, f, k);
    }
  }

  // Selecting by filters and grouping by period is a direct lookup: an observation is emitted iff
  // the cell at the pinned codes and that period exists and reads as that observation, and no
  // period is ever ambiguous.
  lemma PinnedSelectionIsLookup(d: Dataset, filters: map<string, string>, rows: seq<Row>, read: Reader, o: Observation)
    requires ProperCube(d) && PinsAll(d, filters) && Decode(d) == Ok(rows)
    ensures o in ParseRows(rows, filters, read).observations <==>
            exists i: nat :: Addressed(d, filters, o.period, i) && CellReads(d, read, o, i)
    ensures forall n :: AmbiguousPeriods(n) !in ParseRows(rows, filters, read).warnings
  {
    hide ProperCube, PinsAll, Decode, Addressed, Matches, SelectedRow, CellReads, TextOrder, Periods, IsAmbiguous,
         UnusableAt, AmbiguousAt, ObservationAt;
    var selected := Collect(rows, row => SelectedRow(filters, row));
    var periods := SortBy(Periods(selected), TextOrder());
    ObservationIsLookup(d, filters, rows, read, o);
    EmittedIff(rows, filters, read, o);
    forall p ensures !IsAmbiguous(selected, p) {
      ObservationIsLookup(d, filters, rows, read, Observation(p, 0, 0.0));
    }
    NoAmbiguity(selected, periods, read);
  }

  lemma NoAmbiguity(selected: seq<Row>, periods: seq<string>, read: Reader)
    requires forall p :: !IsAmbiguous(selected, p)
    ensures Collect(periods, p => AmbiguousAt(selected, p)) == []
    ensures forall n :: AmbiguousPeriods(n) !in Collect(periods, p => UnusableAt(selected, p, read))
  {
    CollectNone(periods, p => AmbiguousAt(selected, p));
    OnlyUnusable(selected, periods, read);
  }

  // ---- What the payload's result says ----

  // A payload is answered only if the filters name declared dimensions and pin all of them but time.
  lemma AnswersOnlyPinned(d: Dataset, filters: map<string, string>, read: Reader, p: Parsed)
    requires ParsePayload(d, filters, read) == Ok(p) && p.observations != []
    ensures d.ids.Some? && (forall k :: k in filters ==> k in d.ids.value)
    ensures forall id :: id in d.ids.value && id != "time" ==> id in filters
  {
    hide ParseRows;
    forall k | k in filters ensures k in Declared(d) {
      assert k in UnknownDims(filters, Declared(d)) <==> k in filters && k !in Declared(d);
    }
    forall id | id in Declared(d) && id != "time" ensures id in filters {
      var i :| 0 <= i < |Declared(d)| && Declared(d)[i] == id;
      if id !in filters { CollectSome(Declared(d), dim => UnpinnedDim(filters, dim), i); }
    }
  }

  // A filter on a dimension the payload does not declare: one warning naming all such filters.
  lemma UndeclaredRefused(d: Dataset, filters: map<string, string>, read: Reader, name: string)
    requires name in filters && d.ids.Some? && name !in d.ids.value
    ensures ParsePayload(d, filters, read) ==
            Ok(Parsed([], [UnknownDimensions(set k | k in filters && k !in d.ids.value)]))
  {
    assert name in UnknownDims(filters, Declared(d));
  }

  // A dimension left open: one warning listing all of these as the payload declares them, in its order.
  lemma UnpinnedRefused(d: Dataset, filters: map<string, string>, read: Reader, id: string)
    returns (unpinned: seq<string>, at: seq<nat>)
    requires d.ids.Some? && (forall k :: k in filters ==> k in d.ids.value)
    requires id in d.ids.value && id != "time" && id !in filters
    ensures ParsePayload(d, filters, read) == Ok(Parsed([], [UnpinnedDimensions(unpinned)]))
    ensures |at| == |unpinned|
    ensures forall k :: 0 <= k < |at| ==> at[k] < |d.ids.value| && unpinned[k] == d.ids.value[at[k]]
    ensures forall j, k :: 0 <= j < k < |at| ==> at[j] < at[k]
    ensures forall i :: 0 <= i < |d.ids.value| ==>
              (i in at <==> d.ids.value[i] != "time" && d.ids.value[i] !in filters)
  {
    var f := dim => UnpinnedDim(filters, dim);
    unpinned := Collect(d.ids.value, f);
    at := CollectPositions(d.ids.value, f);
    var i :| 0 <= i < |d.ids.value| && d.ids.value[i] == id;
    CollectSome(d.ids.value, f, i);
    assert UnknownDims(filters, Declared(d)) == {};
  }

  // With all dimensions pinned the payload is decoded, and its answer is the direct lookup: the observations
  // are the addressed cells that can be read, the unusable periods those of the addressed cells that cannot,
  // and the absence of any is said.
  lemma PayloadIsLookup(d: Dataset, filters: map<string, string>, read: Reader, o: Observation)
    requires ProperCube(d) && PinsAll(d, filters)
    ensures ParsePayload(d, filters, read).Ok? <==> Decode(d).Ok?
    ensures ParsePayload(d, filters, read).Ok? ==>
              var p := ParsePayload(d, filters, read).value;
              && (o in p.observations <==>
                  exists i: nat :: Addressed(d, filters, o.period, i) && CellReads(d, read, o, i))
              && (UnusablePeriod(o.period) in p.warnings <==>
                  exists i: nat :: Addressed(d, filters, o.period, i) && read(o.period, d.cells.value[i].value).None?)
              && (forall n :: AmbiguousPeriods(n) !in p.warnings)
              && (NoCellMatches in p.warnings <==>
                  forall period, i: nat :: !Addressed(d, filters, period, i))
  {
    hide ProperCube, Decode, Addressed, ParseRows, UnknownDims, UnpinnedDim, CellReads;
    PinningCheck(d, filters);
    assert ParsePayload(d, filters, read) == match Decode(d) case Err(e) => Err(e)
                                             case Ok(rows) => Ok(ParseRows(rows, filters, read));
    if Decode(d).Ok? {
      var rows := Decode(d).value;
      PinnedSelectionIsLookup(d, filters, rows, read, o);
      UnusableIsLookup(d, filters, rows, read, o.period);
      NothingAddressed(d, filters, rows, read);
    }
  }

  lemma UnusableIsLookup(d: Dataset, filters: map<string, string>, rows: seq<Row>, read: Reader, period: string)
    requires ProperCube(d) && PinsAll(d, filters) && Decode(d) == Ok(rows)
    ensures UnusablePeriod(period) in ParseRows(rows, filters, read).warnings <==>
            exists i: nat :: Addressed(d, filters, period, i) && read(period, d.cells.value[i].value).None?
  {
    hide ProperCube, PinsAll, Decode, Matches, SelectedRow, Collect, ParseRows;
    UnusableIff(rows, filters, read, period);
    if i: nat :| Addressed(d, filters, period, i) {
      MatchesAddressed(d, filters, rows, period, i);
      SelectedIffPinned(d, filters, rows, i, period);
      hide Addressed;
      forall j: nat | Addressed(d, filters, period, j) ensures i == j { AddressedOnce(d, filters, period, i, j); }
    } else {
      MatchesNone(d, filters, rows, period);
    }
  }

  lemma NothingAddressed(d: Dataset, filters: map<string, string>, rows: seq<Row>, read: Reader)
    requires ProperCube(d) && PinsAll(d, filters) && Decode(d) == Ok(rows)
    ensures NoCellMatches in ParseRows(rows, filters, read).warnings <==>
            forall period, i: nat :: !Addressed(d, filters, period, i)
  {
    hide ProperCube, PinsAll, Decode, Addressed, Selected;
    var f := row => SelectedRow(filters, row);
    NoCellIffNothing(rows, filters, read);
    if forall period, i: nat :: !Addressed(d, filters, period, i) {
      forall i | 0 <= i < |rows| ensures !Selected(filters, rows[i]) {
        SelectedIffPinned(d, filters, rows, i, Period(rows[i]));
      }
      CollectNone(rows, f);
    } else {
      var period, i: nat :| Addressed(d, filters, period, i);
      AddressedIsCell(d, filters, period, i);
      SoughtIffAddressed(d, filters, rows, period);
      SelectedIffPinned(d, filters, rows, i, period);
      CollectSome(rows, f, i);
    }
  }

  lemma AddressedIsCell(d: Dataset, filters: map<string, string>, period: string, i: nat)
    requires Addressed(d, filters, period, i)
    ensures d.cells.Some? && i < |d.cells.value|
  {
  }

  lemma NoCellIffNothing(rows: seq<Row>, filters: map<string, string>, read: Reader)
    ensures NoCellMatches in ParseRows(rows, filters, read).warnings <==>
            Collect(rows, row => SelectedRow(filters, row)) == []
  {
    hide ObservationAt, Periods, SortBy, SelectedRow;
    var selected := Collect(rows, row => SelectedRow(filters, row));
    if selected != [] {
      var periods := SortBy(Periods(selected), TextOrder());
      var warnings := Collect(periods, p => UnusableAt(selected, p, read));
      forall k | 0 <= k < |warnings| ensures warnings[k].UnusablePeriod? {
        var j := CollectFrom(periods, p => UnusableAt(selected, p, read), k);
      }
    }
  }

  // The row is one of the period's under the filters.
  predicate RowFor(filters: map<string, string>, period: string, row: Row) {
    Selected(filters, row) && Period(row) == period
  }

  ghost predicate OnlyRowFor(rows: seq<Row>, filters: map<string, string>, period: string, i: int) {
    0 <= i < |rows| && RowFor(filters, period, rows[i]) &&
    forall j :: 0 <= j < |rows| && RowFor(filters, period, rows[j]) ==> j == i
  }

  // Over any decoded rows, proper cube or not: a period is answered by its only row, and a period with several
  // rows by none.
  lemma ObservationIff(rows: seq<Row>, filters: map<string, string>, read: Reader, o: Observation)
    ensures o in ParseRows(rows, filters, read).observations <==>
            exists i :: OnlyRowFor(rows, filters, o.period, i) && "value" in rows[i]
                        && read(o.period, rows[i]["value"]) == Some((o.start, o.value))
  {
    hide Matches, SelectedRow, Collect, Selected, Period, ParseRows;
    var f, matches := row => Sought(filters, o.period, row), Collect(rows, row => Sought(filters, o.period, row));
    EmittedIff(rows, filters, read, o);
    MatchesOfSelected(rows, filters, o.period);
    var at := CollectPositions(rows, f);
    forall i | 0 <= i < |rows| ensures RowFor(filters, o.period, rows[i]) <==> f(rows[i]) == Some(rows[i]) {
    }
    if |matches| == 1 {
      assert OnlyRowFor(rows, filters, o.period, at[0]);
    }
    if i :| OnlyRowFor(rows, filters, o.period, i) {
      assert i in at;
      if |at| > 1 {
        var k := AnotherPosition(at, i);
      }
    }
  }

  lemma AnotherPosition(at: seq<nat>, i: nat) returns (k: nat)
    requires |at| > 1 && forall j, k :: 0 <= j < k < |at| ==> at[j] < at[k]
    ensures k < |at| && at[k] != i
  {
    k := if at[0] == i then 1 else 0;
  }

  ghost predicate Crowded(rows: seq<Row>, filters: map<string, string>, period: string) {
    exists i, j :: 0 <= i < j < |rows| && RowFor(filters, period, rows[i]) && RowFor(filters, period, rows[j])
  }

  // The periods with several rows are counted, each once, in one warning; without any there is none.
  lemma CrowdedAreCounted(rows: seq<Row>, filters: map<string, string>, read: Reader, crowded: set<string>)
    requires forall p :: p in crowded <==> Crowded(rows, filters, p)
    ensures forall n :: AmbiguousPeriods(n) in ParseRows(rows, filters, read).warnings <==> n == |crowded| > 0
  {
    hide Matches, SelectedRow, Crowded, Periods, SortBy, RowFor, ObservationAt, UnusableAt, AmbiguousAt;
    var selected := Collect(rows, row => SelectedRow(filters, row));
    var periods, f := SortBy(Periods(selected), TextOrder()), p => AmbiguousAt(selected, p);
    var ambiguous, unusable := Collect(periods, f), Collect(periods, p => UnusableAt(selected, p, read));
    assert forall p :: p in ambiguous <==> p in crowded by {
      AmbiguousMembers(rows, filters);
    }
    assert |ambiguous| == |crowded| by {
      AmbiguousOnce(selected);
      MembersCount(ambiguous);
      assert Members(ambiguous) == crowded;
    }
    OnlyUnusable(selected, periods, read);
    if selected == [] { NoPeriods(); }
  }

  lemma NoPeriods()
    ensures SortBy(Periods([]), TextOrder()) == []
  {
  }

  lemma OnlyUnusable(selected: seq<Row>, periods: seq<string>, read: Reader)
    ensures forall n :: AmbiguousPeriods(n) !in Collect(periods, p => UnusableAt(selected, p, read))
  {
    var warnings := Collect(periods, p => UnusableAt(selected, p, read));
    forall k | 0 <= k < |warnings| ensures warnings[k].UnusablePeriod? {
      var j := CollectFrom(periods, p => UnusableAt(selected, p, read), k);
    }
  }

  lemma AmbiguousOnce(selected: seq<Row>)
    ensures NoRepeats(Collect(SortBy(Periods(selected), TextOrder()), p => AmbiguousAt(selected, p)))
  {
    hide Keys, SortBy, Matches;
    KeysDistinct(selected, PeriodOf);
    PeriodsAndMatches(selected);
    SortDistinct(Periods(selected));
    FilterNoRepeats(SortBy(Periods(selected), TextOrder()), p => AmbiguousAt(selected, p));
  }

  lemma AmbiguousMembers(rows: seq<Row>, filters: map<string, string>)
    ensures var selected := Collect(rows, row => SelectedRow(filters, row));
            forall p :: p in Collect(SortBy(Periods(selected), TextOrder()), p => AmbiguousAt(selected, p)) <==>
                        Crowded(rows, filters, p)
  {
    hide Matches, SelectedRow, Crowded, Keys, SortBy, Collect;
    var selected := Collect(rows, row => SelectedRow(filters, row));
    var periods, f := SortBy(Periods(selected), TextOrder()), p => AmbiguousAt(selected, p);
    forall p ensures p in Collect(periods, f) <==> Crowded(rows, filters, p) {
      CrowdedIffAmbiguous(rows, filters, p);
      SortMembers(Periods(selected));
      PeriodsMember(selected, p);
      if IsAmbiguous(selected, p) { CollectMember(periods, f, p); }
      if p in Collect(periods, f) {
        var k :| 0 <= k < |Collect(periods, f)| && Collect(periods, f)[k] == p;
        var j := CollectFrom(periods, f, k);
      }
    }
  }

  lemma CrowdedIffAmbiguous(rows: seq<Row>, filters: map<string, string>, period: string)
    ensures Crowded(rows, filters, period) <==> IsAmbiguous(Collect(rows, row => SelectedRow(filters, row)), period)
  {
    hide Matches, SelectedRow, Collect, Selected, Period;
    var f := row => Sought(filters, period, row);
    MatchesOfSelected(rows, filters, period);
    var at := CollectPositions(rows, f);
    if |at| > 1 {
      assert at[0] < at[1] && RowFor(filters, period, rows[at[0]]) && RowFor(filters, period, rows[at[1]]);
    }
    if i, j :| 0 <= i < j < |rows| && RowFor(filters, period, rows[i]) && RowFor(filters, period, rows[j]) {
      assert i in at && j in at;
    }
  }

  // ---- Output order ----

  lemma {:induction false} TextOrdered(a: string, b: string, c: string)
    ensures TextLe(a, b) || TextLe(b, a)
    ensures TextLe(a, b) && TextLe(b, c) ==> TextLe(a, c)
    ensures TextLe(a, b) && TextLe(b, a) ==> a == b
  {
    if a != [] && b != [] {
      TextOrdered(a[1..], b[1..], if c == [] then [] else c[1..]);
      assert a == [a[0]] + a[1..] && b == [b[0]] + b[1..];
    }
  }

  lemma TextOrderIsPreorder()
    ensures TotalPreorder(TextOrder())
  {
    forall x, y, z ensures TextLe(x, y) || TextLe(y, x)
      ensures TextLe(x, y) && TextLe(y, z) ==> TextLe(x, z)
    {
      TextOrdered(x, y, z);
    }
  }

  ghost predicate Ascending(os: seq<Observation>) {
    forall i, j :: 0 <= i < j < |os| ==> TextLe(os[i].period, os[j].period) && os[i].period != os[j].period
  }

  lemma {:induction false} EmittedInOrder(periods: seq<string>, f: string -> Option<Observation>)
    requires forall p :: f(p).Some? ==> f(p).value.period == p
    requires SortedBy(periods, TextOrder()) && NoRepeats(periods)
    ensures Ascending(Collect(periods, f))
  {
    hide TextLe;
    if periods == [] {
    } else {
      var rest := periods[1..];
      EmittedInOrder(rest, f);
      var os := Collect(rest, f);
      forall j | 0 <= j < |os| ensures TextLe(periods[0], os[j].period) && periods[0] != os[j].period {
        var k := CollectFrom(rest, f, j);
        assert rest[k] == periods[k + 1];
        assert TextOrder()(periods[0], periods[k + 1]);
      }
    }
  }

  // The observations come out in ascending order of their period, one per period.
  lemma PeriodsAscend(rows: seq<Row>, filters: map<string, string>, read: Reader)
    ensures Ascending(ParseRows(rows, filters, read).observations)
  {
    hide ObservationAt, TextLe, SortBy, Keys, SelectedRow, TextOrder, Periods, AmbiguousAt, UnusableAt, Ascending;
    var selected := Collect(rows, row => SelectedRow(filters, row));
    SelectedAscend(selected, read);
    NothingAscends();
  }

  lemma NothingAscends()
    ensures Ascending([])
  {
  }

  lemma SelectedAscend(selected: seq<Row>, read: Reader)
    ensures Ascending(Collect(SortBy(Periods(selected), TextOrder()), p => ObservationAt(selected, p, read)))
  {
    hide TextLe, SortBy, Keys, TextOrder, Matches, Collect, Ascending;
    TextOrderIsPreorder();
    SortSorted(Periods(selected), TextOrder());
    KeysDistinct(selected, PeriodOf);
    SortDistinct(Periods(selected));
    EmittedInOrder(SortBy(Periods(selected), TextOrder()), p => ObservationAt(selected, p, read));
  }

  lemma SortDistinct(periods: seq<string>)
    requires NoRepeats(periods)
    ensures NoRepeats(SortBy(periods, TextOrder()))
  {
    hide SortBy;
    var ordered := SortBy(periods, TextOrder());
    SortContents(periods, TextOrder());
    NoRepeatsByContents(periods, ordered);
  }
}
