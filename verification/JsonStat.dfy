/**
JSON-stat 2.0 cube decoding: `_unravel_row_major` and `decode_jsonstat`
in src/turboedge/adapters/eu_bcs.py.
*/
module JsonStat {
  import opened Ints
  import opened Wrappers

  // ---- Row-major positions ----

  predicate AllPositive(sizes: seq<int>) {
    forall i :: 0 <= i < |sizes| ==> sizes[i] > 0
  }

  function Product(sizes: seq<int>): int {
    if sizes == [] then 1 else Product(sizes[..|sizes| - 1]) * sizes[|sizes| - 1]
  }

  // One position per dimension, each within its size.
  predicate InRange(sizes: seq<int>, positions: seq<int>) {
    |positions| == |sizes| && forall i :: 0 <= i < |sizes| ==> 0 <= positions[i] < sizes[i]
  }

  // The flat index of a cell: the last dimension varies fastest.
  function Ravel(sizes: seq<int>, positions: seq<int>): int
    requires |positions| == |sizes|
  {
    if sizes == [] then 0
    else
      var n := |sizes| - 1;
      Ravel(sizes[..n], positions[..n]) * sizes[n] + positions[n]
  }

  datatype DecodeError =
    | MissingKey
    | LengthMismatch
    | NoCategoryIndex(dimension: string)
    | BadKey
    | NonPositiveSize(index: nat)
    | OutOfBounds
    | NoSuchCategory(dimension: string)

  function Followed(r: Result<seq<int>, DecodeError>, tail: seq<int>): Result<seq<int>, DecodeError> {
    match r
    case Ok(p) => Ok(p + tail)
    case Err(e) => Err(e)
  }

  // The loop of `_unravel_row_major`, last dimension first: Python's floor division and modulus.
  function Unravel(flat: int, sizes: seq<int>): (r: Result<seq<int>, DecodeError>)
    decreases |sizes|
  {
    if sizes == [] then if flat == 0 then Ok([]) else Err(OutOfBounds)
    else
      var n := |sizes| - 1;
      var size := sizes[n];
      if size <= 0 then Err(NonPositiveSize(n))
      else Followed(Unravel(flat / size, sizes[..n]), [flat % size])
  }

  lemma FollowedTwice(r: Result<seq<int>, DecodeError>, digit: int, tail: seq<int>)
    ensures Followed(Followed(r, [digit]), tail) == Followed(r, [digit] + tail)
    ensures Followed(r, []) == r
  {
    if r.Ok? {
      assert r.value + [digit] + tail == r.value + ([digit] + tail);
      assert r.value + [] == r.value;
    }
  }

  method UnravelRowMajor(flat: int, sizes: seq<int>) returns (r: Result<seq<int>, DecodeError>)
    ensures r == Unravel(flat, sizes)
  {
    var positions := new int[|sizes|](_ => 0);
    var remaining := flat;
    var i := |sizes|;
    assert sizes[..i] == sizes && positions[i..] == [];
    FollowedTwice(Unravel(flat, sizes), 0, []);
    while i > 0
      invariant 0 <= i <= |sizes|
      invariant Unravel(flat, sizes) == Followed(Unravel(remaining, sizes[..i]), positions[i..])
    {
      ghost var tail := positions[i..];
      i := i - 1;
      var size := sizes[i];
      assert sizes[..i + 1][..i] == sizes[..i];
      if size <= 0 {
        return Err(NonPositiveSize(i));
      }
      FollowedTwice(Unravel(remaining / size, sizes[..i]), remaining % size, tail);
      positions[i] := remaining % size;
      assert positions[i..] == [remaining % size] + tail;
      remaining := remaining / size;
    }
    if remaining != 0 {
      return Err(OutOfBounds);
    }
    assert sizes[..0] == [];
    assert [] + positions[0..] == positions[..];
    return Ok(positions[..]);
  }

  lemma {:induction false} ProductPositive(sizes: seq<int>)
    requires AllPositive(sizes)
    ensures Product(sizes) > 0
  {
    if sizes == [] {
    } else {
      ProductPositive(sizes[..|sizes| - 1]);
    }
  }

  // The loop succeeds exactly on the indices inside the cube, and what it returns names the cell.
  lemma {:induction false} UnravelSucceeds(flat: int, sizes: seq<int>)
    ensures Unravel(flat, sizes).Ok? <==> AllPositive(sizes) && 0 <= flat < Product(sizes)
    ensures Unravel(flat, sizes).Ok? ==>
              InRange(sizes, Unravel(flat, sizes).value) && Ravel(sizes, Unravel(flat, sizes).value) == flat
    decreases |sizes|
  {
    if sizes == [] {
    } else {
      var n := |sizes| - 1;
      var rest, size := sizes[..n], sizes[n];
      assert sizes == rest + [size];
      if size > 0 {
        UnravelSucceeds(flat / size, rest);
        DivisionBounds(flat, size, Product(rest));
        if Unravel(flat, sizes).Ok? {
          var p := Unravel(flat / size, rest).value;
          RavelAppend(rest, p, size, flat % size);
        }
      }
    }
  }

  lemma RavelAppend(sizes: seq<int>, p: seq<int>, size: int, digit: int)
    requires InRange(sizes, p) && 0 <= digit < size
    ensures InRange(sizes + [size], p + [digit])
    ensures Ravel(sizes + [size], p + [digit]) == Ravel(sizes, p) * size + digit
  {
    assert (sizes + [size])[..|sizes|] == sizes && (p + [digit])[..|p|] == p;
  }

  // A cell's flat index lies in the cube and decodes back to the same cell.
  lemma {:induction false} UnravelRavel(sizes: seq<int>, positions: seq<int>)
    requires InRange(sizes, positions)
    ensures AllPositive(sizes) && 0 <= Ravel(sizes, positions) < Product(sizes)
    ensures Unravel(Ravel(sizes, positions), sizes) == Ok(positions)
  {
    if sizes == [] {
    } else {
      var n := |sizes| - 1;
      UnravelRavel(sizes[..n], positions[..n]);
      var high := Ravel(sizes[..n], positions[..n]);
      DivisionUnique(high, positions[n], sizes[n]);
      assert positions == positions[..n] + [positions[n]];
    }
    UnravelSucceeds(Ravel(sizes, positions), sizes);
  }

  // p comes before q in dictionary order.
  ghost predicate Before(p: seq<int>, q: seq<int>)
    requires |p| == |q|
  {
    exists k :: 0 <= k < |p| && p[..k] == q[..k] && p[k] < q[k]
  }

  lemma BeforeByPrefix(p: seq<int>, q: seq<int>)
    requires |p| == |q| > 0
    ensures var n := |p| - 1;
            Before(p, q) <==> Before(p[..n], q[..n]) || (p[..n] == q[..n] && p[n] < q[n])
  {
    var n := |p| - 1;
    if Before(p, q) {
      var k :| 0 <= k < |p| && p[..k] == q[..k] && p[k] < q[k];
      if k < n {
        assert p[..n][..k] == p[..k] && q[..n][..k] == q[..k];
        assert p[..n][k] < q[..n][k];
      }
    }
    if Before(p[..n], q[..n]) {
      var k :| 0 <= k < n && p[..n][..k] == q[..n][..k] && p[..n][k] < q[..n][k];
      assert p[..n][..k] == p[..k] && q[..n][..k] == q[..k];
    }
  }

  // Counting through the flat indices walks the cells in dictionary order.
  lemma {:induction false} RavelOrder(sizes: seq<int>, p: seq<int>, q: seq<int>)
    requires InRange(sizes, p) && InRange(sizes, q)
    ensures Ravel(sizes, p) < Ravel(sizes, q) <==> Before(p, q)
  {
    if sizes == [] {
    } else {
      var n := |sizes| - 1;
      BeforeByPrefix(p, q);
      RavelOrder(sizes[..n], p[..n], q[..n]);
      RavelOrder(sizes[..n], q[..n], p[..n]);
      RavelInjective(sizes[..n], p[..n], q[..n]);
      DigitOrder(sizes[n], Ravel(sizes[..n], p[..n]), p[n], Ravel(sizes[..n], q[..n]), q[n]);
    }
  }

  lemma RavelInjective(sizes: seq<int>, p: seq<int>, q: seq<int>)
    requires InRange(sizes, p) && InRange(sizes, q)
    ensures Ravel(sizes, p) == Ravel(sizes, q) <==> p == q
  {
    UnravelRavel(sizes, p);
    UnravelRavel(sizes, q);
  }

  // ---- Decoding a cube into rows ----

  // A JSON scalar; category codes are texts, cell values can be anything.
  datatype Scalar = Number(n: real) | Text(s: string) | Null

  datatype Key = IntKey(i: int) | OtherKey(s: string)

  datatype Cell = Cell(key: Key, value: Scalar)

  // category.index: codes with their positions, in document order.
  type CategoryIndex = seq<(string, int)>

  datatype Dataset = Dataset(
    ids: Option<seq<string>>, sizes: Option<seq<int>>, cells: Option<seq<Cell>>,
    dimensions: Option<map<string, CategoryIndex>>)

  type Row = map<string, Scalar>

  // Position to code; of two codes at one position the later wins.
  function Inverted(index: CategoryIndex): map<int, string> {
    if index == [] then map[]
    else
      var (code, pos) := index[|index| - 1];
      Inverted(index[..|index| - 1])[pos := code]
  }

  // A JSON object cannot repeat a key.
  ghost predicate DistinctCodes(index: CategoryIndex) {
    forall i, j :: 0 <= i < j < |index| ==> index[i].0 != index[j].0
  }

  ghost predicate InjectiveLookup(lookup: map<int, string>) {
    forall p, q :: p in lookup && q in lookup && lookup[p] == lookup[q] ==> p == q
  }

  lemma {:induction false} InvertedFrom(index: CategoryIndex)
    ensures forall pos :: pos in Inverted(index) ==> (Inverted(index)[pos], pos) in index
    ensures forall i :: 0 <= i < |index| ==> index[i].1 in Inverted(index)
  {
    if index == [] {
    } else {
      var rest, last := index[..|index| - 1], index[|index| - 1];
      InvertedFrom(rest);
      assert index == rest + [last];
      assert last == (last.0, last.1) && last in index;
      assert Inverted(index) == Inverted(rest)[last.1 := last.0];
    }
  }

  lemma InvertedInjective(index: CategoryIndex)
    requires DistinctCodes(index)
    ensures InjectiveLookup(Inverted(index))
  {
    InvertedFrom(index);
    var m := Inverted(index);
    forall p, q | p in m && q in m && m[p] == m[q] ensures p == q {
      var i :| 0 <= i < |index| && index[i] == (m[p], p);
      var j :| 0 <= j < |index| && index[j] == (m[q], q);
    }
  }

  function Lookups(ids: seq<string>, dimensions: map<string, CategoryIndex>)
    : (r: Result<seq<map<int, string>>, DecodeError>)
    ensures r.Ok? ==> |r.value| == |ids| &&
                      forall i :: 0 <= i < |ids| ==> ids[i] in dimensions && r.value[i] == Inverted(dimensions[ids[i]])
  {
    if ids == [] then Ok([])
    else
      var n := |ids| - 1;
      match Lookups(ids[..n], dimensions)
      case Err(e) => Err(e)
      case Ok(ls) =>
        if ids[n] in dimensions then Ok(ls + [Inverted(dimensions[ids[n]])]) else Err(NoCategoryIndex(ids[n]))
  }

  // The named codes of one cell, before its value is added.
  function NamedCodes(ids: seq<string>, positions: seq<int>, lookups: seq<map<int, string>>)
    : (r: Result<Row, DecodeError>)
    requires |ids| == |positions| == |lookups|
  {
    if ids == [] then Ok(map[])
    else
      var n := |ids| - 1;
      match NamedCodes(ids[..n], positions[..n], lookups[..n])
      case Err(e) => Err(e)
      case Ok(row) =>
        if positions[n] in lookups[n] then Ok(row[ids[n] := Text(lookups[n][positions[n]])])
        else Err(NoSuchCategory(ids[n]))
  }

  function DecodeCell(ids: seq<string>, sizes: seq<int>, lookups: seq<map<int, string>>, cell: Cell)
    : (r: Result<Row, DecodeError>)
    requires |ids| == |sizes| == |lookups|
  {
    match cell.key
    case OtherKey(_) => Err(BadKey)
    case IntKey(flat) =>
      UnravelSucceeds(flat, sizes);
      match Unravel(flat, sizes)
      case Err(e) => Err(e)
      case Ok(positions) =>
        match NamedCodes(ids, positions, lookups)
        case Err(e) => Err(e)
        case Ok(row) => Ok(row["value" := cell.value])
  }

  function DecodeCells(ids: seq<string>, sizes: seq<int>, lookups: seq<map<int, string>>, cells: seq<Cell>)
    : (r: Result<seq<Row>, DecodeError>)
    requires |ids| == |sizes| == |lookups|
    ensures r.Ok? ==> |r.value| == |cells| &&
                      forall i :: 0 <= i < |cells| ==> DecodeCell(ids, sizes, lookups, cells[i]) == Ok(r.value[i])
  {
    if cells == [] then Ok([])
    else
      var n := |cells| - 1;
      match DecodeCells(ids, sizes, lookups, cells[..n])
      case Err(e) => Err(e)
      case Ok(rows) =>
        match DecodeCell(ids, sizes, lookups, cells[n])
        case Err(e) => Err(e)
        case Ok(row) => Ok(rows + [row])
  }

  predicate Complete(d: Dataset) {
    d.ids.Some? && d.sizes.Some? && d.cells.Some? && d.dimensions.Some?
  }

  function Decode(d: Dataset): (r: Result<seq<Row>, DecodeError>) {
    if !Complete(d) then Err(MissingKey)
    else if |d.ids.value| != |d.sizes.value| then Err(LengthMismatch)
    else
      match Lookups(d.ids.value, d.dimensions.value)
      case Err(e) => Err(e)
      case Ok(lookups) => DecodeCells(d.ids.value, d.sizes.value, lookups, d.cells.value)
  }

  // ---- Which payloads decode ----

  // The cell has a place in the cube, and every dimension has a code there.
  ghost predicate Placed(ids: seq<string>, sizes: seq<int>, dimensions: map<string, CategoryIndex>, cell: Cell) {
    exists positions ::
      && InRange(sizes, positions) && cell.key == IntKey(Ravel(sizes, positions))
      && Coded(ids, dimensions, positions)
  }

  ghost predicate Coded(ids: seq<string>, dimensions: map<string, CategoryIndex>, positions: seq<int>) {
    |positions| == |ids| && forall j :: 0 <= j < |ids| ==> CodedAt(dimensions, ids[j], positions[j])
  }

  ghost predicate CodedAt(dimensions: map<string, CategoryIndex>, id: string, position: int) {
    id in dimensions && exists code :: (code, position) in dimensions[id]
  }

  lemma {:induction false} LookupsIff(ids: seq<string>, dimensions: map<string, CategoryIndex>)
    ensures Lookups(ids, dimensions).Ok? <==> forall id :: id in ids ==> id in dimensions
  {
    if ids == [] {
    } else {
      var n := |ids| - 1;
      LookupsIff(ids[..n], dimensions);
      assert ids == ids[..n] + [ids[n]];
    }
  }

  lemma {:induction false} NamedCodesIff(ids: seq<string>, positions: seq<int>, lookups: seq<map<int, string>>)
    requires |ids| == |positions| == |lookups|
    ensures NamedCodes(ids, positions, lookups).Ok? <==> forall j :: 0 <= j < |ids| ==> positions[j] in lookups[j]
  {
    if ids == [] {
    } else {
      var n := |ids| - 1;
      NamedCodesIff(ids[..n], positions[..n], lookups[..n]);
    }
  }

  lemma {:induction false} DecodeCellsIff(ids: seq<string>, sizes: seq<int>, lookups: seq<map<int, string>>,
                                          cells: seq<Cell>)
    requires |ids| == |sizes| == |lookups|
    ensures DecodeCells(ids, sizes, lookups, cells).Ok? <==>
            forall cell :: cell in cells ==> DecodeCell(ids, sizes, lookups, cell).Ok?
  {
    hide DecodeCell;
    if cells == [] {
    } else {
      var n := |cells| - 1;
      DecodeCellsIff(ids, sizes, lookups, cells[..n]);
      assert cells == cells[..n] + [cells[n]];
    }
  }

  lemma InvertedMember(index: CategoryIndex, position: int)
    ensures position in Inverted(index) <==> exists code :: (code, position) in index
  {
    InvertedFrom(index);
    if code :| (code, position) in index {
      var i :| 0 <= i < |index| && index[i] == (code, position);
      assert index[i].1 in Inverted(index);
    }
  }

  lemma DecodeCellIff(ids: seq<string>, sizes: seq<int>, dimensions: map<string, CategoryIndex>, cell: Cell)
    requires |ids| == |sizes| && Lookups(ids, dimensions).Ok?
    ensures DecodeCell(ids, sizes, Lookups(ids, dimensions).value, cell).Ok? <==> Placed(ids, sizes, dimensions, cell)
  {
    hide Unravel, NamedCodes, Ravel, Lookups;
    var lookups := Lookups(ids, dimensions).value;
    forall positions | |positions| == |ids|
      ensures NamedCodes(ids, positions, lookups).Ok? <==> Coded(ids, dimensions, positions)
    {
      NamedCodesIff(ids, positions, lookups);
      forall j | 0 <= j < |ids| ensures positions[j] in lookups[j] <==> CodedAt(dimensions, ids[j], positions[j]) {
        InvertedMember(dimensions[ids[j]], positions[j]);
      }
    }
    if cell.key.IntKey? { UnravelSucceeds(cell.key.i, sizes); }
    if positions :| InRange(sizes, positions) && cell.key == IntKey(Ravel(sizes, positions))
                    && Coded(ids, dimensions, positions) {
      UnravelRavel(sizes, positions);
    }
  }

  // A payload decodes iff it has all four parts, as many sizes as dimensions, a category index for each
  // dimension, and for every cell a place in the cube at which every dimension has a code.
  lemma DecodesIff(d: Dataset)
    ensures Decode(d).Ok? <==>
            && d.ids.Some? && d.sizes.Some? && d.cells.Some? && d.dimensions.Some?
            && |d.ids.value| == |d.sizes.value|
            && (forall id :: id in d.ids.value ==> id in d.dimensions.value)
            && (forall cell :: cell in d.cells.value ==> Placed(d.ids.value, d.sizes.value, d.dimensions.value, cell))
  {
    hide Lookups, DecodeCells, DecodeCell, Placed;
    if Complete(d) && |d.ids.value| == |d.sizes.value| {
      LookupsIff(d.ids.value, d.dimensions.value);
      if Lookups(d.ids.value, d.dimensions.value).Ok? {
        DecodeCellsIff(d.ids.value, d.sizes.value, Lookups(d.ids.value, d.dimensions.value).value, d.cells.value);
        forall cell | cell in d.cells.value
          ensures DecodeCell(d.ids.value, d.sizes.value, Lookups(d.ids.value, d.dimensions.value).value, cell).Ok? <==>
                  Placed(d.ids.value, d.sizes.value, d.dimensions.value, cell)
        {
          DecodeCellIff(d.ids.value, d.sizes.value, d.dimensions.value, cell);
        }
      }
    }
  }

  // Which failure is reported: a missing part before anything else, then unequal lengths, then the first dimension
  // without a category index, then one of the cells'.
  lemma FirstFailure(d: Dataset)
    ensures Decode(d) == Err(MissingKey) <==> d.ids.None? || d.sizes.None? || d.cells.None? || d.dimensions.None?
    ensures Complete(d) ==> (Decode(d) == Err(LengthMismatch) <==> |d.ids.value| != |d.sizes.value|)
    ensures Complete(d) && |d.ids.value| == |d.sizes.value| ==>
              forall i :: Unindexed(d.ids.value, d.dimensions.value, i) ==>
                Decode(d) == Err(NoCategoryIndex(d.ids.value[i]))
  {
    hide Lookups, DecodeCells;
    if Complete(d) && |d.ids.value| == |d.sizes.value| {
      var ids, dimensions := d.ids.value, d.dimensions.value;
      LookupErrors(ids, dimensions);
      if Lookups(ids, dimensions).Ok? {
        CellErrors(ids, d.sizes.value, Lookups(ids, dimensions).value, d.cells.value);
      }
    }
  }

  // The first dimension without a category index.
  ghost predicate Unindexed(ids: seq<string>, dimensions: map<string, CategoryIndex>, i: int) {
    0 <= i < |ids| && ids[i] !in dimensions && forall j :: 0 <= j < i ==> ids[j] in dimensions
  }

  lemma {:induction false} LookupErrors(ids: seq<string>, dimensions: map<string, CategoryIndex>)
    ensures forall i :: Unindexed(ids, dimensions, i) ==> Lookups(ids, dimensions) == Err(NoCategoryIndex(ids[i]))
    ensures Lookups(ids, dimensions).Err? ==> Lookups(ids, dimensions).error.NoCategoryIndex?
  {
    if ids == [] {
    } else {
      var n := |ids| - 1;
      LookupErrors(ids[..n], dimensions);
      LookupsIff(ids[..n], dimensions);
      forall i | Unindexed(ids, dimensions, i) ensures Lookups(ids, dimensions) == Err(NoCategoryIndex(ids[i])) {
        if i < n {
          assert Unindexed(ids[..n], dimensions, i);
        } else {
          forall id | id in ids[..n] ensures id in dimensions { }
        }
      }
    }
  }

  lemma {:induction false} CellErrors(ids: seq<string>, sizes: seq<int>, lookups: seq<map<int, string>>,
                                      cells: seq<Cell>)
    requires |ids| == |sizes| == |lookups|
    ensures DecodeCells(ids, sizes, lookups, cells).Err? ==>
              var e := DecodeCells(ids, sizes, lookups, cells).error;
              e.BadKey? || e.NonPositiveSize? || e.OutOfBounds? || e.NoSuchCategory?
  {
    if cells == [] {
    } else {
      var n := |cells| - 1;
      CellErrors(ids, sizes, lookups, cells[..n]);
      CellError(ids, sizes, lookups, cells[n]);
    }
  }

  lemma CellError(ids: seq<string>, sizes: seq<int>, lookups: seq<map<int, string>>, cell: Cell)
    requires |ids| == |sizes| == |lookups|
    ensures DecodeCell(ids, sizes, lookups, cell).Err? ==>
              var e := DecodeCell(ids, sizes, lookups, cell).error;
              (e.BadKey? || e.NonPositiveSize? || e.OutOfBounds? || e.NoSuchCategory?)
              && (e.BadKey? <==> cell.key.OtherKey?)
  {
    hide Unravel, NamedCodes;
    if cell.key.IntKey? {
      UnravelError(cell.key.i, sizes);
      UnravelSucceeds(cell.key.i, sizes);
      if Unravel(cell.key.i, sizes).Ok? { NamedCodesError(ids, Unravel(cell.key.i, sizes).value, lookups); }
    }
  }

  // Of several cells that fail the first one's failure is reported.
  lemma FirstBadCell(ids: seq<string>, sizes: seq<int>, lookups: seq<map<int, string>>, cells: seq<Cell>, i: nat)
    requires |ids| == |sizes| == |lookups| && i < |cells| && DecodeCell(ids, sizes, lookups, cells[i]).Err?
    requires forall j :: 0 <= j < i ==> DecodeCell(ids, sizes, lookups, cells[j]).Ok?
    ensures DecodeCells(ids, sizes, lookups, cells) == Err(DecodeCell(ids, sizes, lookups, cells[i]).error)
  {
    hide DecodeCell;
    DecodeCellsIff(ids, sizes, lookups, cells[..i]);
    assert cells[..i + 1][..i] == cells[..i];
    FailedCells(ids, sizes, lookups, cells, i + 1);
  }

  lemma {:induction false} UnravelError(flat: int, sizes: seq<int>)
    ensures Unravel(flat, sizes).Err? ==>
              Unravel(flat, sizes).error.NonPositiveSize? || Unravel(flat, sizes).error.OutOfBounds?
    decreases |sizes|
  {
    if sizes == [] {
    } else {
      var n := |sizes| - 1;
      if sizes[n] > 0 { UnravelError(flat / sizes[n], sizes[..n]); }
    }
  }

  lemma {:induction false} NamedCodesError(ids: seq<string>, positions: seq<int>, lookups: seq<map<int, string>>)
    requires |ids| == |positions| == |lookups|
    ensures NamedCodes(ids, positions, lookups).Err? ==> NamedCodes(ids, positions, lookups).error.NoSuchCategory?
  {
    if ids == [] {
    } else {
      var n := |ids| - 1;
      NamedCodesError(ids[..n], positions[..n], lookups[..n]);
    }
  }

  // ---- The loops ----

  method InvertIndex(index: CategoryIndex) returns (lookup: map<int, string>)
    ensures lookup == Inverted(index)
  {
    lookup := map[];
    for i := 0 to |index|
      invariant lookup == Inverted(index[..i])
    {
      assert index[..i + 1][..i] == index[..i];
      lookup := lookup[index[i].1 := index[i].0];
    }
    assert index[..|index|] == index;
  }

  method NameCodes(ids: seq<string>, positions: seq<int>, lookups: seq<map<int, string>>)
    returns (r: Result<Row, DecodeError>)
    requires |ids| == |positions| == |lookups|
    ensures r == NamedCodes(ids, positions, lookups)
  {
    var row: Row := map[];
    for i := 0 to |ids|
      invariant NamedCodes(ids[..i], positions[..i], lookups[..i]) == Ok(row)
    {
      NamedCodesStep(ids, positions, lookups, i);
      if positions[i] !in lookups[i] {
        FailedPrefix(ids, positions, lookups, i + 1);
        return Err(NoSuchCategory(ids[i]));
      }
      row := row[ids[i] := Text(lookups[i][positions[i]])];
    }
    assert ids[..|ids|] == ids && positions[..|ids|] == positions && lookups[..|ids|] == lookups;
    return Ok(row);
  }

  lemma NamedCodesStep(ids: seq<string>, positions: seq<int>, lookups: seq<map<int, string>>, i: nat)
    requires |ids| == |positions| == |lookups| && i < |ids|
    ensures NamedCodes(ids[..i + 1], positions[..i + 1], lookups[..i + 1]) ==
            match NamedCodes(ids[..i], positions[..i], lookups[..i])
            case Err(e) => Err(e)
            case Ok(row) =>
              if positions[i] in lookups[i] then Ok(row[ids[i] := Text(lookups[i][positions[i]])])
              else Err(NoSuchCategory(ids[i]))
  {
    assert ids[..i + 1][..i] == ids[..i];
    assert positions[..i + 1][..i] == positions[..i];
    assert lookups[..i + 1][..i] == lookups[..i];
  }

  // The first failure decides.
  lemma {:induction false} FailedPrefix(ids: seq<string>, positions: seq<int>, lookups: seq<map<int, string>>, i: nat)
    requires |ids| == |positions| == |lookups| && i <= |ids|
    requires NamedCodes(ids[..i], positions[..i], lookups[..i]).Err?
    ensures NamedCodes(ids, positions, lookups) == NamedCodes(ids[..i], positions[..i], lookups[..i])
    decreases |ids| - i
  {
    if i < |ids| {
      NamedCodesStep(ids, positions, lookups, i);
      FailedPrefix(ids, positions, lookups, i + 1);
    } else {
      assert ids[..i] == ids && positions[..i] == positions && lookups[..i] == lookups;
    }
  }

  method DecodeOne(ids: seq<string>, sizes: seq<int>, lookups: seq<map<int, string>>, cell: Cell)
    returns (r: Result<Row, DecodeError>)
    requires |ids| == |sizes| == |lookups|
    ensures r == DecodeCell(ids, sizes, lookups, cell)
  {
    if cell.key.OtherKey? {
      return Err(BadKey);
    }
    UnravelSucceeds(cell.key.i, sizes);
    var positions := UnravelRowMajor(cell.key.i, sizes);
    if positions.Err? {
      return Err(positions.error);
    }
    var row := NameCodes(ids, positions.value, lookups);
    match row
    case Err(e) => return Err(e);
    case Ok(codes) => return Ok(codes["value" := cell.value]);
  }

  // Later cells cannot repair an earlier failure.
  lemma {:induction false} FailedCells(ids: seq<string>, sizes: seq<int>, lookups: seq<map<int, string>>,
                                       cells: seq<Cell>, i: nat)
    requires |ids| == |sizes| == |lookups| && i <= |cells|
    requires DecodeCells(ids, sizes, lookups, cells[..i]).Err?
    ensures DecodeCells(ids, sizes, lookups, cells) == DecodeCells(ids, sizes, lookups, cells[..i])
    decreases |cells| - i
  {
    if i < |cells| {
      assert cells[..i + 1][..i] == cells[..i];
      FailedCells(ids, sizes, lookups, cells, i + 1);
    } else {
      assert cells[..i] == cells;
    }
  }

  lemma {:induction false} FailedLookups(ids: seq<string>, dimensions: map<string, CategoryIndex>, i: nat)
    requires i <= |ids| && Lookups(ids[..i], dimensions).Err?
    ensures Lookups(ids, dimensions) == Lookups(ids[..i], dimensions)
    decreases |ids| - i
  {
    if i < |ids| {
      assert ids[..i + 1][..i] == ids[..i];
      FailedLookups(ids, dimensions, i + 1);
    } else {
      assert ids[..i] == ids;
    }
  }

  method DecodeJsonStat(d: Dataset) returns (r: Result<seq<Row>, DecodeError>)
    ensures r == Decode(d)
  {
    hide DecodeCell, Inverted, NamedCodes, Unravel;
    if !Complete(d) {
      return Err(MissingKey);
    }
    var ids, sizes, cells := d.ids.value, d.sizes.value, d.cells.value;
    if |ids| != |sizes| {
      return Err(LengthMismatch);
    }
    var lookups := [];
    for i := 0 to |ids|
      invariant Lookups(ids[..i], d.dimensions.value) == Ok(lookups)
    {
      assert ids[..i + 1][..i] == ids[..i];
      if ids[i] !in d.dimensions.value {
        FailedLookups(ids, d.dimensions.value, i + 1);
        return Err(NoCategoryIndex(ids[i]));
      }
      var lookup := InvertIndex(d.dimensions.value[ids[i]]);
      lookups := lookups + [lookup];
    }
    assert ids[..|ids|] == ids;

    var rows := [];
    for i := 0 to |cells|
      invariant DecodeCells(ids, sizes, lookups, cells[..i]) == Ok(rows)
    {
      assert cells[..i + 1][..i] == cells[..i];
      var row := DecodeOne(ids, sizes, lookups, cells[i]);
      if row.Err? {
        FailedCells(ids, sizes, lookups, cells, i + 1);
        return Err(row.error);
      }
      rows := rows + [row.value];
    }
    assert cells[..|cells|] == cells;
    return Ok(rows);
  }
}
