/**
ENTSO-E windowing, document splitting and time reconstruction: `_window_bounds`,
`_split_xml_documents` and `_parse_period` in src/turboedge/adapters/entsoe.py.
Instants and durations are integers in one common unit.
*/
module Entsoe {
  import opened Ints
  import opened Sequences
  import opened Wrappers

  // ---- Request windows ----

  datatype Window = Window(from: int, until: int)

  datatype WindowError = StartNotBeforeEnd

  function Windows(cursor: int, end: int, maxDelta: int): (ws: seq<Window>)
    requires maxDelta > 0
    decreases end - cursor
  {
    if cursor >= end then []
    else
      var next := Min(cursor + maxDelta, end);
      [Window(cursor, next)] + Windows(next, end, maxDelta)
  }

  method WindowBounds(start: int, end: int, maxDelta: int) returns (r: Result<seq<Window>, WindowError>)
    requires maxDelta > 0
    ensures r == if start >= end then Err(StartNotBeforeEnd) else Ok(Windows(start, end, maxDelta))
  {
    if start >= end {
      return Err(StartNotBeforeEnd);
    }
    var windows := [];
    var cursor := start;
    while cursor < end
      invariant cursor <= end
      invariant Windows(start, end, maxDelta) == windows + Windows(cursor, end, maxDelta)
      decreases end - cursor
    {
      var next := Min(cursor + maxDelta, end);
      assert windows + ([Window(cursor, next)] + Windows(next, end, maxDelta))
          == windows + [Window(cursor, next)] + Windows(next, end, maxDelta);
      windows := windows + [Window(cursor, next)];
      cursor := next;
    }
    assert windows + [] == windows;
    return Ok(windows);
  }

  ghost predicate Tiles(ws: seq<Window>, start: int, end: int, maxDelta: int) {
    && ws != [] && ws[0].from == start && ws[|ws| - 1].until == end
    && (forall i :: 0 <= i < |ws| ==> ws[i].from < ws[i].until <= ws[i].from + maxDelta)
    && (forall i :: 0 <= i < |ws| - 1 ==> ws[i].until == ws[i + 1].from == ws[i].from + maxDelta)
  }

  lemma TilesCons(rest: seq<Window>, start: int, next: int, end: int, maxDelta: int)
    requires maxDelta > 0 && next == start + maxDelta && Tiles(rest, next, end, maxDelta)
    ensures Tiles([Window(start, next)] + rest, start, end, maxDelta)
  {
    var ws := [Window(start, next)] + rest;
    forall i | 0 <= i < |ws| - 1 ensures ws[i].until == ws[i + 1].from == ws[i].from + maxDelta {
      if i > 0 { assert ws[i] == rest[i - 1]; }
    }
  }

  lemma FirstWindow(start: int, end: int, maxDelta: int)
    requires maxDelta > 0 && start < end
    ensures start + maxDelta < end ==>
              Windows(start, end, maxDelta) ==
              [Window(start, start + maxDelta)] + Windows(start + maxDelta, end, maxDelta)
    ensures start + maxDelta >= end ==> Windows(start, end, maxDelta) == [Window(start, end)]
  {
    if start + maxDelta >= end { assert Windows(end, end, maxDelta) == []; }
  }

  // The windows tile [start, end): contiguous, non-empty, none longer than allowed, and as few as
  // possible, since every one but the last is full.
  lemma {:induction false} WindowsTile(start: int, end: int, maxDelta: int)
    requires maxDelta > 0 && start < end
    ensures Tiles(Windows(start, end, maxDelta), start, end, maxDelta)
    ensures |Windows(start, end, maxDelta)| == Pieces(end - start, maxDelta)
    decreases end - start
  {
    hide Pieces, Tiles, Windows;
    FirstWindow(start, end, maxDelta);
    PiecesStep(end - start, maxDelta);
    if start + maxDelta < end {
      WindowsTile(start + maxDelta, end, maxDelta);
      TilesCons(Windows(start + maxDelta, end, maxDelta), start, start + maxDelta, end, maxDelta);
      assert end - (start + maxDelta) == end - start - maxDelta;
    } else {
      OneTile(start, end, maxDelta);
    }
  }

  lemma OneTile(start: int, end: int, maxDelta: int)
    requires start < end <= start + maxDelta
    ensures Tiles([Window(start, end)], start, end, maxDelta)
  {
  }

  ghost predicate OnlyHolder(ws: seq<Window>, i: nat, t: int) {
    i < |ws| && Holds(ws[i], t) && forall j :: 0 <= j < |ws| && Holds(ws[j], t) ==> i == j
  }

  // Every instant of the requested span falls into exactly one window.
  lemma {:induction false} InstantInOneWindow(start: int, end: int, maxDelta: int, t: int)
    requires maxDelta > 0 && start <= t < end
    ensures exists i: nat :: OnlyHolder(Windows(start, end, maxDelta), i, t)
    decreases end - start
  {
    var next := Min(start + maxDelta, end);
    var ws, rest := Windows(start, end, maxDelta), Windows(next, end, maxDelta);
    LaterWindows(next, end, maxDelta);
    if t < next {
      assert OnlyHolder(ws, 0, t);
    } else {
      InstantInOneWindow(next, end, maxDelta, t);
      var i: nat :| OnlyHolder(rest, i, t);
      forall j | 0 <= j < |ws| && Holds(ws[j], t) ensures i + 1 == j {
        if j > 0 { assert ws[j] == rest[j - 1]; }
      }
      assert OnlyHolder(ws, i + 1, t);
    }
  }

  predicate Holds(w: Window, t: int) {
    w.from <= t < w.until
  }

  lemma {:induction false} LaterWindows(start: int, end: int, maxDelta: int)
    requires maxDelta > 0
    ensures forall i :: 0 <= i < |Windows(start, end, maxDelta)| ==> Windows(start, end, maxDelta)[i].from >= start
    decreases end - start
  {
    if start < end { LaterWindows(Min(start + maxDelta, end), end, maxDelta); }
  }

  // ---- Splitting concatenated documents ----

  type Byte = b: int | 0 <= b < 256

  type Document = seq<Byte>

  // "<?xml"
  const MARK: Document := [60, 63, 120, 109, 108]

  predicate MarkAt(content: Document, i: int) {
    0 <= i && i + 5 <= |content| && content[i..i + 5] == MARK
  }

  // The zero-width split in front of every mark, scanning from i; the open chunk began at `from`.
  function CutFrom(content: Document, from: nat, i: nat): (chunks: seq<Document>)
    requires from <= i <= |content|
    ensures chunks != []
    decreases |content| - i
  {
    if i == |content| then [content[from..]]
    else if MarkAt(content, i) then [content[from..i]] + CutFrom(content, i, i + 1)
    else CutFrom(content, from, i + 1)
  }

  // Python's `bytes.strip` whitespace.
  predicate IsSpace(b: Byte) {
    b == 32 || 9 <= b <= 13
  }

  predicate IsBlank(chunk: Document) {
    forall i :: 0 <= i < |chunk| ==> IsSpace(chunk[i])
  }

  function NonBlank(chunk: Document): Option<Document> {
    if IsBlank(chunk) then None else Some(chunk)
  }

  function SplitDocuments(content: Document): seq<Document> {
    Collect(CutFrom(content, 0, 0), NonBlank)
  }

  function Concat(docs: seq<Document>): (content: Document) {
    if docs == [] then [] else docs[0] + Concat(docs[1..])
  }

  lemma {:induction false} CutLosesNothing(content: Document, from: nat, i: nat)
    requires from <= i <= |content|
    ensures Concat(CutFrom(content, from, i)) == content[from..]
    decreases |content| - i
  {
    if i == |content| {
      assert [content[from..]][1..] == [];
    } else if MarkAt(content, i) {
      CutLosesNothing(content, i, i + 1);
      var rest := CutFrom(content, i, i + 1);
      assert ([content[from..i]] + rest)[1..] == rest;
      assert content[from..i] + content[i..] == content[from..];
    } else {
      CutLosesNothing(content, from, i + 1);
    }
  }

  predicate MarkOnlyAtStart(doc: Document) {
    forall j :: 0 < j < |doc| ==> !MarkAt(doc, j)
  }

  // The mark's first byte occurs nowhere else in it, so two marks never overlap.
  lemma MarksDoNotOverlap(content: Document, i: int, j: int)
    requires MarkAt(content, i) && i < j < i + 5
    ensures j < |content| && content[j] != 60
  {
    assert content[i..i + 5][j - i] == content[j];
  }

  lemma MarkFirst(content: Document, i: int)
    requires MarkAt(content, i)
    ensures content[i] == 60
  {
    assert content[i..i + 5][0] == content[i];
  }

  lemma SkipUnmarked(content: Document, from: nat, i: nat, j: nat)
    requires from <= i <= j <= |content|
    requires forall k :: i <= k < j ==> !MarkAt(content, k)
    ensures CutFrom(content, from, i) == CutFrom(content, from, j)
    decreases j - i
  {
    if i < j { SkipUnmarked(content, from, i + 1, j); }
  }

  // Each document is non-blank, starts with the mark (except perhaps the first) and has it nowhere else.
  ghost predicate Splittable(docs: seq<Document>) {
    forall i :: 0 <= i < |docs| ==> !IsBlank(docs[i]) && MarkOnlyAtStart(docs[i]) && (i > 0 ==> MarkAt(docs[i], 0))
  }

  // No mark straddles the boundary between a document and what follows it.
  lemma NoStraddle(content: Document, s: nat, doc: Document, rest: Document, k: nat)
    requires s <= |content| && content[s..] == doc + rest
    requires MarkOnlyAtStart(doc) && 0 < k < |doc| && (rest != [] ==> MarkAt(rest, 0))
    ensures !MarkAt(content, s + k)
  {
    assert |content| - s == |doc| + |rest|;
    if k + 5 <= |doc| {
      assert doc[k..k + 5] == (doc + rest)[k..k + 5] == content[s..][k..k + 5] == content[s + k..s + k + 5];
      assert !MarkAt(doc, k);
    } else if MarkAt(content, s + k) {
      MarksDoNotOverlap(content, s + k, s + |doc|);
      assert content[s + |doc|] == content[s..][|doc|] == rest[0];
      MarkFirst(rest, 0);
    }
  }

  lemma {:induction false} CutConcat(content: Document, s: nat, docs: seq<Document>)
    requires s < |content| && content[s..] == Concat(docs)
    requires docs != [] && Splittable(docs)
    ensures CutFrom(content, s, s + 1) == docs
    decreases |docs|
  {
    var doc, rest := docs[0], docs[1..];
    assert |doc| > 0 && |content| == s + |doc| + |Concat(rest)|;
    if rest == [] {
    } else {
      ConcatStarts(rest);
    }
    forall k | s + 1 <= k < s + |doc| ensures !MarkAt(content, k) {
      NoStraddle(content, s, doc, Concat(rest), k - s);
    }
    var e := s + |doc|;
    SkipUnmarked(content, s, s + 1, e);
    assert content[s..e] == doc;
    assert content[e..] == content[s..][|doc|..] == Concat(rest);
    if rest == [] {
      assert docs == [doc] && e == |content| && content[s..] == doc;
    } else {
      assert Splittable(rest) by {
        forall i | 0 <= i < |rest| ensures !IsBlank(rest[i]) && MarkOnlyAtStart(rest[i]) && MarkAt(rest[i], 0) {
          assert rest[i] == docs[i + 1];
        }
      }
      assert content[e..e + 5] == Concat(rest)[0..5];
      CutConcat(content, e, rest);
      assert docs == [doc] + rest;
    }
  }

  lemma ConcatStarts(docs: seq<Document>)
    requires docs != [] && MarkAt(docs[0], 0)
    ensures MarkAt(Concat(docs), 0)
  {
    assert Concat(docs)[0..5] == docs[0][0..5];
  }

  lemma {:induction false} AllNonBlank(docs: seq<Document>)
    requires forall i :: 0 <= i < |docs| ==> !IsBlank(docs[i])
    ensures Collect(docs, NonBlank) == docs
  {
    if docs == [] {
    } else {
      AllNonBlank(docs[1..]);
    }
  }

  lemma SplittableRoundTrip(docs: seq<Document>)
    requires Splittable(docs)
    ensures SplitDocuments(Concat(docs)) == docs
  {
    var content := Concat(docs);
    AllNonBlank(docs);
    if docs == [] {
      assert Collect([content], NonBlank) == [] by { CollectOne(content, NonBlank); }
    } else {
      assert content[0..] == content && |docs[0]| > 0;
      CutConcat(content, 0, docs);
      if MarkAt(content, 0) {
        CollectConcat([content[0..0]], docs, NonBlank);
        CollectOne(content[0..0], NonBlank);
      }
    }
  }

  ghost predicate Shaped(chunks: seq<Document>) {
    forall k :: 0 <= k < |chunks| ==> MarkOnlyAtStart(chunks[k]) && (k > 0 ==> MarkAt(chunks[k], 0))
  }

  // Whatever is cut: no chunk has a mark inside, and every chunk but the first begins with one.
  lemma {:induction false} CutShape(content: Document, from: nat, i: nat)
    requires from <= i <= |content|
    requires forall j :: from < j < i ==> !MarkAt(content, j)
    ensures Shaped(CutFrom(content, from, i))
    ensures MarkAt(content, from) && from < i ==> MarkAt(CutFrom(content, from, i)[0], 0)
    decreases |content| - i
  {
    hide MarkAt, MarkOnlyAtStart;
    if i == |content| {
      PieceShape(content, from, i);
      assert content[from..] == content[from..i];
    } else if MarkAt(content, i) {
      PieceShape(content, from, i);
      CutShape(content, i, i + 1);
    } else {
      CutShape(content, from, i + 1);
    }
  }

  lemma SliceOfSlice(content: Document, from: nat, i: nat, j: nat, k: nat)
    requires from <= i <= |content| && j <= k <= i - from
    ensures content[from..i][j..k] == content[from + j..from + k]
  {
    forall m | 0 <= m < k - j ensures content[from..i][j..k][m] == content[from + j..from + k][m] {
      assert content[from..i][j + m] == content[from + j + m];
    }
  }

  lemma PieceShape(content: Document, from: nat, i: nat)
    requires from <= i <= |content| && (i == |content| || MarkAt(content, i))
    requires forall j :: from < j < i ==> !MarkAt(content, j)
    ensures MarkOnlyAtStart(content[from..i])
    ensures MarkAt(content, from) && from < i ==> MarkAt(content[from..i], 0)
  {
    var piece := content[from..i];
    forall j | 0 < j < |piece| ensures !MarkAt(piece, j) {
      if j + 5 <= |piece| {
        assert from < from + j < i && !MarkAt(content, from + j);
        SliceOfSlice(content, from, i, j, j + 5);
      }
    }
    if MarkAt(content, from) && from < i {
      if i < from + 5 {
        MarksDoNotOverlap(content, from, i);
        if i < |content| { MarkFirst(content, i); }
      }
      assert piece[0..5] == content[from..from + 5];
    }
  }

  lemma NonBlankOfShaped(chunks: seq<Document>)
    requires Shaped(chunks) && chunks != []
    ensures Splittable(Collect(chunks, NonBlank))
  {
    hide MarkAt, MarkOnlyAtStart, IsBlank;
    var docs := Collect(chunks, NonBlank);
    var first, rest := Collect([chunks[0]], NonBlank), Collect(chunks[1..], NonBlank);
    assert chunks == [chunks[0]] + chunks[1..];
    CollectConcat([chunks[0]], chunks[1..], NonBlank);
    CollectOne(chunks[0], NonBlank);
    forall i | 0 <= i < |docs|
      ensures !IsBlank(docs[i]) && MarkOnlyAtStart(docs[i]) && (i > 0 ==> MarkAt(docs[i], 0))
    {
      if i >= |first| {
        var k := CollectFrom(chunks[1..], NonBlank, i - |first|);
        assert chunks[1..][k] == chunks[k + 1];
      }
    }
  }

  // Concatenating documents and splitting them again gives them back if and only if every one is
  // non-blank and has the mark at most at its start, and every one after the first starts with it.
  lemma ConcatSplitRoundTripIff(docs: seq<Document>)
    ensures SplitDocuments(Concat(docs)) == docs <==> Splittable(docs)
  {
    hide Splittable, CutFrom, Concat, Shaped, MarkAt;
    if Splittable(docs) {
      SplittableRoundTrip(docs);
    }
    if SplitDocuments(Concat(docs)) == docs {
      CutShape(Concat(docs), 0, 0);
      NonBlankOfShaped(CutFrom(Concat(docs), 0, 0));
    }
  }

  // ---- The fetch: one response per window, concatenated ----

  datatype FetchError = BadSpan(error: WindowError) | RequestFailed(index: nat)

  // The responses before the first failed request, or all of them.
  function Responses(windows: seq<Window>, server: Window -> Option<Document>): (docs: seq<Document>)
    ensures |docs| <= |windows|
  {
    if windows == [] || server(windows[0]).None? then []
    else [server(windows[0]).value] + Responses(windows[1..], server)
  }

  method FetchWindows(start: int, end: int, maxDelta: int, server: Window -> Option<Document>)
    returns (r: Result<Document, FetchError>)
    requires maxDelta > 0
    ensures start >= end ==> r == Err(BadSpan(StartNotBeforeEnd))
    ensures start < end ==>
              var windows := Windows(start, end, maxDelta);
              var docs := Responses(windows, server);
              r == if |docs| < |windows| then Err(RequestFailed(|docs|)) else Ok(Concat(docs))
  {
    hide Windows, Concat, Responses;
    var bounds := WindowBounds(start, end, maxDelta);
    if bounds.Err? {
      return Err(BadSpan(bounds.error));
    }
    var chunks := RequestEach(bounds.value, server);
    if |chunks| < |bounds.value| {
      return Err(RequestFailed(|chunks|));
    }
    return Ok(Concat(chunks));
  }

  method RequestEach(windows: seq<Window>, server: Window -> Option<Document>) returns (chunks: seq<Document>)
    ensures chunks == Responses(windows, server)
  {
    chunks := [];
    for i := 0 to |windows|
      invariant Responses(windows, server) == chunks + Responses(windows[i..], server)
    {
      var response := server(windows[i]);
      assert windows[i..][0] == windows[i] && windows[i..][1..] == windows[i + 1..];
      if response.None? {
        assert chunks + [] == chunks;
        return;
      }
      ConcatAssociates(chunks, response.value, Responses(windows[i + 1..], server));
      chunks := chunks + [response.value];
    }
    assert chunks + [] == chunks;
  }

  lemma ConcatAssociates(chunks: seq<Document>, next: Document, rest: seq<Document>)
    ensures chunks + ([next] + rest) == chunks + [next] + rest
  {
  }

  // When every response is one XML document, the parser sees exactly the answer to each window, in
  // window order: no answer is split, merged, dropped or moved.
  lemma FetchThenSplit(windows: seq<Window>, server: Window -> Option<Document>)
    requires forall i :: 0 <= i < |windows| ==> server(windows[i]).Some? && IsXmlDocument(server(windows[i]).value)
    ensures var docs := SplitDocuments(Concat(Responses(windows, server)));
            |docs| == |windows| && forall i :: 0 <= i < |docs| ==> Some(docs[i]) == server(windows[i])
  {
    ResponsesInOrder(windows, server);
    var docs := Responses(windows, server);
    forall i | 0 <= i < |docs| ensures !IsBlank(docs[i]) && MarkOnlyAtStart(docs[i]) && MarkAt(docs[i], 0) {
      assert IsXmlDocument(docs[i]);
      MarkFirst(docs[i], 0);
    }
    SplittableRoundTrip(docs);
  }

  predicate IsXmlDocument(doc: Document) {
    MarkAt(doc, 0) && MarkOnlyAtStart(doc)
  }

  lemma {:induction false} ResponsesInOrder(windows: seq<Window>, server: Window -> Option<Document>)
    requires forall i :: 0 <= i < |windows| ==> server(windows[i]).Some?
    ensures var docs := Responses(windows, server);
            |docs| == |windows| && forall i :: 0 <= i < |docs| ==> Some(docs[i]) == server(windows[i])
  {
    if windows == [] {
    } else {
      ResponsesInOrder(windows[1..], server);
    }
  }

  // ---- Reconstructing times from positions ----

  // The Period's interval and resolution, as far as their texts could be read.
  datatype PeriodHeader = HeaderMissing | HeaderUnparsable | Header(start: int, end: int, resolution: int)

  datatype Point = PointMissing | PointUnparsable | Point(position: int, quantity: real)

  datatype Observation = Observation(time: int, value: real)

  datatype PeriodWarning =
    | MissingField
    | Unparsable
    | NonPositiveResolution
    | EndNotAfterStart
    | NotAMultiple
    | PointMissingField
    | PointNotParsed
    | PositionOutsideRange(position: int)
    | DuplicatePosition(position: int)
    | MissingPositions(positions: seq<int>)

  predicate InRange(position: int, expected: int) {
    position >= 1 && (expected != 0 ==> position <= expected)
  }

  // The dictionary of points: keys in insertion order, with the value each key was first given.
  function Kept(points: seq<Point>, expected: int): (kept: seq<Point>)
    ensures forall i :: 0 <= i < |kept| ==> kept[i].Point? && InRange(kept[i].position, expected)
  {
    if points == [] then []
    else
      var kept, p := Kept(points[..|points| - 1], expected), points[|points| - 1];
      if p.Point? && InRange(p.position, expected) && p.position !in Positions(kept) then kept + [p] else kept
  }

  function Positions(kept: seq<Point>): (positions: seq<int>)
    requires forall i :: 0 <= i < |kept| ==> kept[i].Point?
    ensures |positions| == |kept|
    ensures forall i :: 0 <= i < |kept| ==> positions[i] == kept[i].position
  {
    seq(|kept|, i requires 0 <= i < |kept| => kept[i].position)
  }

  function PointWarning(p: Point, kept: seq<Point>, expected: int): Option<PeriodWarning>
    requires forall i :: 0 <= i < |kept| ==> kept[i].Point?
  {
    match p
    case PointMissing => Some(PointMissingField)
    case PointUnparsable => Some(PointNotParsed)
    case Point(position, _) =>
      if !InRange(position, expected) then Some(PositionOutsideRange(position))
      else if position in Positions(kept) then Some(DuplicatePosition(position))
      else None
  }

  function PointWarnings(points: seq<Point>, expected: int): seq<PeriodWarning> {
    if points == [] then []
    else
      var before := points[..|points| - 1];
      var w := PointWarning(points[|points| - 1], Kept(before, expected), expected);
      PointWarnings(before, expected) + (if w.Some? then [w.value] else [])
  }

  // The positions from p up to the expected last one that hold no point.
  function MissingFrom(p: int, expected: int, kept: seq<int>): (missing: seq<int>)
    decreases expected - p
  {
    if p > expected then []
    else (if p in kept then [] else [p]) + MissingFrom(p + 1, expected, kept)
  }

  function Times(kept: seq<Point>, start: int, resolution: int): (observations: seq<Observation>)
    requires forall i :: 0 <= i < |kept| ==> kept[i].Point?
    ensures |observations| == |kept|
  {
    seq(|kept|, i requires 0 <= i < |kept| =>
      Observation(start + (kept[i].position - 1) * resolution, kept[i].quantity))
  }

  predicate Usable(h: PeriodHeader) {
    h.Header? && h.resolution > 0 && h.end > h.start
  }

  function Expected(h: PeriodHeader): (expected: int)
    requires Usable(h)
  {
    (h.end - h.start) / h.resolution
  }

  function PeriodObservations(h: PeriodHeader, points: seq<Point>): seq<Observation> {
    if Usable(h) then Times(Kept(points, Expected(h)), h.start, h.resolution) else []
  }

  function HeaderWarning(h: PeriodHeader): seq<PeriodWarning> {
    if h.HeaderMissing? then [MissingField]
    else if h.HeaderUnparsable? then [Unparsable]
    else if h.resolution <= 0 then [NonPositiveResolution]
    else if h.end <= h.start then [EndNotAfterStart]
    else if (h.end - h.start) % h.resolution != 0 then [NotAMultiple]
    else []
  }

  function GapWarning(h: PeriodHeader, points: seq<Point>): seq<PeriodWarning>
    requires Usable(h)
  {
    var missing := MissingFrom(1, Expected(h), Positions(Kept(points, Expected(h))));
    if Expected(h) != 0 && missing != [] then [MissingPositions(missing)] else []
  }

  function PeriodWarnings(h: PeriodHeader, points: seq<Point>): seq<PeriodWarning> {
    HeaderWarning(h) + if Usable(h) then PointWarnings(points, Expected(h)) + GapWarning(h, points) else []
  }

  method ParsePeriod(h: PeriodHeader, points: seq<Point>)
    returns (observations: seq<Observation>, warnings: seq<PeriodWarning>)
    ensures observations == PeriodObservations(h, points)
    ensures warnings == PeriodWarnings(h, points)
  {
    hide Kept, PointWarnings, MissingFrom;
    observations, warnings := [], [];
    match h {
      case HeaderMissing => warnings := [MissingField]; return;
      case HeaderUnparsable => warnings := [Unparsable]; return;
      case Header(start, end, resolution) =>
        if resolution <= 0 {
          warnings := [NonPositiveResolution];
          return;
        }
        if end <= start {
          warnings := [EndNotAfterStart];
          return;
        }
        var expected := (end - start) / resolution;
        if (end - start) % resolution != 0 {
          warnings := [NotAMultiple];
        }
        var pointsByPosition, order, pointWarnings := CollectPoints(points, expected);
        warnings := warnings + pointWarnings;
        if expected != 0 {
          var missing := MissingFrom(1, expected, order);
          if missing != [] {
            warnings := warnings + [MissingPositions(missing)];
          }
        }
        ghost var all := Times(Kept(points, expected), start, resolution);
        for i := 0 to |order|
          invariant observations == all[..i]
        {
          assert all[..i + 1] == all[..i] + [all[i]];
          observations := observations + [Observation(start + (order[i] - 1) * resolution, pointsByPosition[order[i]])];
        }
    }
  }

  method CollectPoints(points: seq<Point>, expected: int)
    returns (pointsByPosition: map<int, real>, order: seq<int>, warnings: seq<PeriodWarning>)
    ensures order == Positions(Kept(points, expected))
    ensures forall k :: k in pointsByPosition <==> k in order
    ensures forall i :: 0 <= i < |order| ==> pointsByPosition[order[i]] == Kept(points, expected)[i].quantity
    ensures warnings == PointWarnings(points, expected)
  {
    pointsByPosition, order, warnings := map[], [], [];
    for i := 0 to |points|
      invariant order == Positions(Kept(points[..i], expected))
      invariant forall k :: k in pointsByPosition <==> k in order
      invariant forall j :: 0 <= j < |order| ==> pointsByPosition[order[j]] == Kept(points[..i], expected)[j].quantity
      invariant warnings == PointWarnings(points[..i], expected)
    {
      assert points[..i + 1][..i] == points[..i];
      match points[i] {
        case PointMissing => warnings := warnings + [PointMissingField];
        case PointUnparsable => warnings := warnings + [PointNotParsed];
        case Point(position, quantity) =>
          if position < 1 || (expected != 0 && position > expected) {
            warnings := warnings + [PositionOutsideRange(position)];
          } else if position in pointsByPosition {
            warnings := warnings + [DuplicatePosition(position)];
          } else {
            pointsByPosition := pointsByPosition[position := quantity];
            order := order + [position];
          }
      }
    }
    assert points[..|points|] == points;
  }

  // Every point ends as exactly one observation or one warning: none is dropped silently.
  lemma {:induction false} PointsAccounted(points: seq<Point>, expected: int)
    ensures |points| == |Kept(points, expected)| + |PointWarnings(points, expected)|
  {
    if points == [] {
    } else {
      PointsAccounted(points[..|points| - 1], expected);
    }
  }

  lemma {:induction false} PositionsDistinct(points: seq<Point>, expected: int)
    ensures NoRepeats(Positions(Kept(points, expected)))
  {
    if points == [] {
    } else {
      PositionsDistinct(points[..|points| - 1], expected);
    }
  }

  // A position's value is the one its first admissible point gave.
  lemma {:induction false} FirstPointWins(points: seq<Point>, expected: int, i: nat)
    requires i < |points| && points[i].Point? && InRange(points[i].position, expected)
    requires forall j :: 0 <= j < i ==> !(points[j].Point? && points[j].position == points[i].position)
    ensures points[i] in Kept(points, expected)
  {
    var before := points[..|points| - 1];
    if i == |points| - 1 {
      KeptFrom(before, expected);
      var kept := Kept(before, expected);
      forall m | 0 <= m < |kept| ensures Positions(kept)[m] != points[i].position { assert kept[m] in before; }
    } else {
      assert before[i] == points[i];
      FirstPointWins(before, expected, i);
    }
  }

  ghost predicate NamedBy(points: seq<Point>, q: int) {
    exists i :: 0 <= i < |points| && Names(points[i], q)
  }

  // A position is kept iff some point names it within the range.
  lemma PositionKeptIff(points: seq<Point>, expected: int, q: int)
    ensures q in Positions(Kept(points, expected)) <==>
            InRange(q, expected) && NamedBy(points, q)
  {
    KeptFrom(points, expected);
    var kept := Kept(points, expected);
    if q in Positions(kept) {
      var m :| 0 <= m < |kept| && Positions(kept)[m] == q;
      assert kept[m] in points;
      var i :| 0 <= i < |points| && points[i] == kept[m];
      assert Names(points[i], q);
    }
    if InRange(q, expected) && NamedBy(points, q) {
      var i: nat :| i < |points| && Names(points[i], q);
      var first := FirstNamed(points, i, q);
      FirstPointWins(points, expected, first);
      var m :| 0 <= m < |kept| && kept[m] == points[first];
      assert Positions(kept)[m] == q;
    }
  }

  predicate Names(p: Point, q: int) {
    p.Point? && p.position == q
  }

  lemma {:induction false} FirstNamed(points: seq<Point>, i: nat, q: int) returns (first: nat)
    requires i < |points| && Names(points[i], q)
    ensures first <= i && Names(points[first], q) && forall j :: 0 <= j < first ==> !Names(points[j], q)
  {
    if j: nat :| j < i && Names(points[j], q) {
      first := FirstNamed(points, j, q);
    } else {
      first := i;
    }
  }

  lemma {:induction false} KeptFrom(points: seq<Point>, expected: int)
    ensures forall p :: p in Kept(points, expected) ==> p in points
  {
    if points == [] {
    } else {
      KeptFrom(points[..|points| - 1], expected);
      assert points == points[..|points| - 1] + [points[|points| - 1]];
    }
  }

  // Point i is in range and the first to name its position.
  ghost predicate FirstPoint(points: seq<Point>, expected: int, i: int) {
    && 0 <= i < |points| && points[i].Point? && points[i].position >= 1
    && (expected != 0 ==> points[i].position <= expected)
    && forall j :: 0 <= j < i ==> !Names(points[j], points[i].position)
  }

  // at lists first points in the order of the document, and all of them.
  ghost predicate ListsFirst(points: seq<Point>, expected: int, at: seq<nat>) {
    && (forall j, k :: 0 <= j < k < |at| ==> at[j] < at[k])
    && (forall k :: 0 <= k < |at| ==> FirstPoint(points, expected, at[k]))
  }

  ghost predicate ListsAll(points: seq<Point>, expected: int, at: seq<nat>) {
    forall i :: FirstPoint(points, expected, i) ==> i in at
  }

  // The kept points are exactly these.
  lemma {:induction false} KeptAreFirst(points: seq<Point>, expected: int) returns (at: seq<nat>)
    ensures ListsFirst(points, expected, at) && ListsAll(points, expected, at)
    ensures |at| == |Kept(points, expected)|
    ensures forall k :: 0 <= k < |at| ==> at[k] < |points| && Kept(points, expected)[k] == points[at[k]]
  {
    hide FirstPoint, Kept, ListsFirst, ListsAll;
    if points == [] {
      at := [];
      NothingListed(expected);
    } else {
      var before, n := points[..|points| - 1], |points| - 1;
      at := KeptAreFirst(before, expected);
      KeptStep(points, expected);
      ListsFirstNext(points, expected, at);
      ListsAllNext(points, expected, at);
      if FirstPoint(points, expected, n) {
        at := at + [n];
      }
    }
  }

  lemma NothingListed(expected: int)
    ensures ListsFirst([], expected, []) && ListsAll([], expected, []) && Kept([], expected) == []
  {
  }

  lemma ListsFirstNext(points: seq<Point>, expected: int, at: seq<nat>)
    requires points != [] && ListsFirst(points[..|points| - 1], expected, at)
    ensures var n := |points| - 1;
            ListsFirst(points, expected, if FirstPoint(points, expected, n) then at + [n] else at)
  {
    hide FirstPoint;
    FirstAmong(points, expected);
    FirstIsPoint(points[..|points| - 1], expected);
  }

  lemma ListsAllNext(points: seq<Point>, expected: int, at: seq<nat>)
    requires points != [] && ListsAll(points[..|points| - 1], expected, at)
    ensures var n := |points| - 1;
            ListsAll(points, expected, if FirstPoint(points, expected, n) then at + [n] else at)
  {
    hide FirstPoint;
    FirstAmong(points, expected);
    FirstIsPoint(points, expected);
    var n := |points| - 1;
    forall i | FirstPoint(points, expected, i) ensures i in (if FirstPoint(points, expected, n) then at + [n] else at) {
      if i == n { assert (at + [n])[|at|] == n; } else { assert FirstPoint(points[..n], expected, i); }
    }
  }

  lemma KeptStep(points: seq<Point>, expected: int)
    requires points != []
    ensures var before, n := points[..|points| - 1], |points| - 1;
            Kept(points, expected) ==
            Kept(before, expected) + if FirstPoint(points, expected, n) then [points[n]] else []
  {
    var before, p := points[..|points| - 1], points[|points| - 1];
    if p.Point? { PositionKeptIff(before, expected, p.position); }
  }

  // Whether an earlier point is the first of its position does not depend on the last one.
  lemma FirstAmong(points: seq<Point>, expected: int)
    requires points != []
    ensures forall i :: 0 <= i < |points| - 1 ==>
              (FirstPoint(points[..|points| - 1], expected, i) <==> FirstPoint(points, expected, i))
  {
    forall i | 0 <= i < |points| - 1
      ensures FirstPoint(points[..|points| - 1], expected, i) <==> FirstPoint(points, expected, i)
    {
      assert forall j :: 0 <= j <= i ==> points[..|points| - 1][j] == points[j];
    }
  }

  // The instant and the value a point stands for.
  function PointObservation(start: int, resolution: int, p: Point): Observation
    requires p.Point?
  {
    Observation(start + (p.position - 1) * resolution, p.quantity)
  }

  lemma ListedIff(points: seq<Point>, expected: int, at: seq<nat>)
    requires ListsFirst(points, expected, at) && ListsAll(points, expected, at)
    ensures forall i: nat :: i in at <==> FirstPoint(points, expected, i)
    ensures forall j, k :: 0 <= j < k < |at| ==> at[j] < at[k]
  {
  }

  // The observations of a Period are its points that are first to name a position in range, in the order of
  // the document, each at its own instant with its own quantity.
  lemma ObservationsArePoints(h: PeriodHeader, points: seq<Point>) returns (at: seq<nat>)
    requires h.Header? && h.resolution > 0 && h.end > h.start
    ensures var os := PeriodObservations(h, points);
            |at| == |os| && forall k :: 0 <= k < |at| ==>
              at[k] < |points| && points[at[k]].Point?
              && os[k] == PointObservation(h.start, h.resolution, points[at[k]])
    ensures forall j, k :: 0 <= j < k < |at| ==> at[j] < at[k]
    ensures forall i: nat :: i in at <==> FirstPoint(points, (h.end - h.start) / h.resolution, i)
  {
    hide Kept, FirstPoint, ListsFirst, ListsAll;
    at := KeptAreFirst(points, Expected(h));
    ListedIff(points, Expected(h), at);
    FirstIsPoint(points, Expected(h));
  }

  lemma ObservedIff(h: PeriodHeader, points: seq<Point>, o: Observation)
    requires h.Header? && h.resolution > 0 && h.end > h.start
    ensures o in PeriodObservations(h, points) <==>
            exists i :: FirstPoint(points, (h.end - h.start) / h.resolution, i)
                        && PointObservation(h.start, h.resolution, points[i]) == o
  {
    hide FirstPoint, PointObservation, PeriodObservations;
    var at := ObservationsArePoints(h, points);
    var os, n := PeriodObservations(h, points), (h.end - h.start) / h.resolution;
    FirstIsPoint(points, n);
    if o in os {
      var k :| 0 <= k < |os| && os[k] == o;
      assert at[k] in at;
      assert FirstPoint(points, n, at[k]);
    }
    if i :| FirstPoint(points, n, i) && PointObservation(h.start, h.resolution, points[i]) == o {
      assert i in at;
      var k :| 0 <= k < |at| && at[k] == i;
    }
  }

  // Which value an instant carries, read off the points alone: that of the Point in range whose step it is and
  // whose position no earlier Point names.
  lemma ObservationIff(h: PeriodHeader, points: seq<Point>, time: int, value: real)
    ensures Observation(time, value) in PeriodObservations(h, points) <==>
            && h.Header? && h.resolution > 0 && h.end > h.start
            && exists i :: FirstPoint(points, (h.end - h.start) / h.resolution, i)
                           && points[i].quantity == value
                           && h.start + (points[i].position - 1) * h.resolution == time
  {
    hide FirstPoint, Kept;
    if h.Header? && h.resolution > 0 && h.end > h.start {
      ObservedIff(h, points, Observation(time, value));
      FirstIsPoint(points, (h.end - h.start) / h.resolution);
    }
  }

  lemma FirstIsPoint(points: seq<Point>, expected: int)
    ensures forall i :: FirstPoint(points, expected, i) ==> 0 <= i < |points| && points[i].Point?
  {
  }

  lemma {:induction false} MissingExactly(p: int, expected: int, kept: seq<int>)
    ensures forall q :: q in MissingFrom(p, expected, kept) <==> p <= q <= expected && q !in kept
    ensures forall i, j :: 0 <= i < j < |MissingFrom(p, expected, kept)| ==>
              MissingFrom(p, expected, kept)[i] < MissingFrom(p, expected, kept)[j]
    decreases expected - p
  {
    if p <= expected {
      MissingExactly(p + 1, expected, kept);
      var head, rest := if p in kept then [] else [p], MissingFrom(p + 1, expected, kept);
      assert MissingFrom(p, expected, kept) == head + rest;
      forall i | 0 <= i < |rest| ensures p < rest[i] { assert rest[i] in rest; }
    }
  }

  // Why each kind of point warning is given.
  lemma {:induction false} PointWarningIff(points: seq<Point>, expected: int, q: int)
    ensures PointMissingField in PointWarnings(points, expected) <==> PointMissing in points
    ensures PointNotParsed in PointWarnings(points, expected) <==> PointUnparsable in points
    ensures PositionOutsideRange(q) in PointWarnings(points, expected) <==>
            (q < 1 || (expected != 0 && q > expected)) && NamedBy(points, q)
    ensures DuplicatePosition(q) in PointWarnings(points, expected) <==>
            q >= 1 && (expected != 0 ==> q <= expected) && NamedTwice(points, q)
  {
    if points == [] {
    } else {
      hide NamedTwice, NamedBy, Kept;
      var before, last := points[..|points| - 1], points[|points| - 1];
      assert points == before + [last];
      PointWarningIff(before, expected, q);
      PositionKeptIff(before, expected, q);
      NamedAppend(before, last, q);
    }
  }

  ghost predicate NamedTwice(points: seq<Point>, q: int) {
    exists i, j :: 0 <= i < j < |points| && Names(points[i], q) && Names(points[j], q)
  }

  lemma NamedAppend(points: seq<Point>, p: Point, q: int)
    ensures NamedBy(points + [p], q) <==> NamedBy(points, q) || Names(p, q)
    ensures NamedTwice(points + [p], q) <==> NamedTwice(points, q) || (NamedBy(points, q) && Names(p, q))
  {
    var all := points + [p];
    assert all[|points|] == p;
    if NamedBy(points, q) {
      var i :| 0 <= i < |points| && Names(points[i], q);
      assert Names(all[i], q);
    }
    if NamedTwice(points, q) {
      var i, j :| 0 <= i < j < |points| && Names(points[i], q) && Names(points[j], q);
      assert Names(all[i], q) && Names(all[j], q);
    }
  }

  // Kept and reported-missing positions partition 1..expected.
  lemma PositionsPartition(points: seq<Point>, expected: int, q: int)
    requires expected > 0
    ensures var kept := Positions(Kept(points, expected));
            var missing := MissingFrom(1, expected, kept);
            && (1 <= q <= expected <==> q in kept || q in missing)
            && !(q in kept && q in missing)
  {
    MissingExactly(1, expected, Positions(Kept(points, expected)));
  }

  // The gap warning lists, in ascending order, exactly the expected positions no point names; there is one
  // iff there is such a position. An interval shorter than its resolution expects none.
  lemma GapsReported(h: PeriodHeader, points: seq<Point>)
    requires h.Header? && h.resolution > 0 && h.end > h.start
    ensures var n, ws := (h.end - h.start) / h.resolution, PeriodWarnings(h, points);
            && (forall ms :: MissingPositions(ms) in ws ==>
                 (forall q :: q in ms <==> 1 <= q <= n && !NamedBy(points, q))
                 && forall i, j :: 0 <= i < j < |ms| ==> ms[i] < ms[j])
            && ((exists ms :: MissingPositions(ms) in ws) <==> exists q :: 1 <= q <= n && !NamedBy(points, q))
  {
    hide Kept, PointWarnings, MissingFrom;
    var n := Expected(h);
    var ms := MissingFrom(1, n, Positions(Kept(points, n)));
    OnlyPointWarnings(points, n);
    MissingExactly(1, n, Positions(Kept(points, n)));
    forall q ensures q in ms <==> 1 <= q <= n && !NamedBy(points, q) {
      PositionKeptIff(points, n, q);
    }
    assert MissingPositions(ms) in PeriodWarnings(h, points) <==> n != 0 && ms != [];
    if q :| 1 <= q <= n && !NamedBy(points, q) { assert q in ms; }
    if ms != [] { assert ms[0] in ms; }
  }

  lemma {:induction false} OnlyPointWarnings(points: seq<Point>, expected: int)
    ensures forall w :: w in PointWarnings(points, expected) ==>
              w.PointMissingField? || w.PointNotParsed? || w.PositionOutsideRange? || w.DuplicatePosition?
  {
    if points == [] {
    } else {
      OnlyPointWarnings(points[..|points| - 1], expected);
    }
  }

  // A Period whose header cannot be used gives one warning and nothing else; an interval that is no multiple
  // of the resolution is reported and used.
  lemma HeaderDecides(h: PeriodHeader, points: seq<Point>)
    ensures !(h.Header? && h.resolution > 0 && h.end > h.start) ==>
              PeriodObservations(h, points) == [] && |PeriodWarnings(h, points)| == 1
    ensures NotAMultiple in PeriodWarnings(h, points) <==>
            h.Header? && h.resolution > 0 && h.end > h.start && (h.end - h.start) % h.resolution != 0
    ensures MissingField in PeriodWarnings(h, points) <==> h.HeaderMissing?
    ensures Unparsable in PeriodWarnings(h, points) <==> h.HeaderUnparsable?
    ensures NonPositiveResolution in PeriodWarnings(h, points) <==> h.Header? && h.resolution <= 0
    ensures EndNotAfterStart in PeriodWarnings(h, points) <==> h.Header? && h.resolution > 0 && h.end <= h.start
  {
    hide PointWarnings, MissingFrom, Kept;
    if Usable(h) { OnlyPointWarnings(points, Expected(h)); }
  }

  // Distinct positions give distinct times, and a time determines its position.
  lemma TimesDistinct(h: PeriodHeader, points: seq<Point>, i: nat, j: nat)
    requires Usable(h) && i < j < |PeriodObservations(h, points)|
    ensures PeriodObservations(h, points)[i].time != PeriodObservations(h, points)[j].time
  {
    var kept := Kept(points, Expected(h));
    PositionsDistinct(points, Expected(h));
    assert Positions(kept)[i] != Positions(kept)[j];
    ProductOrder(h.resolution, kept[i].position - 1, kept[j].position - 1);
    ProductOrder(h.resolution, kept[j].position - 1, kept[i].position - 1);
  }

  // Every whole step of the interval is either emitted, at its own time, or reported missing.
  lemma EveryStepAccounted(h: PeriodHeader, points: seq<Point>, k: nat)
    requires Usable(h) && k < Expected(h)
    ensures (exists i :: 0 <= i < |PeriodObservations(h, points)| &&
                         PeriodObservations(h, points)[i].time == h.start + k * h.resolution)
       <==> k + 1 !in MissingFrom(1, Expected(h), Positions(Kept(points, Expected(h))))
  {
    var n := Expected(h);
    var kept := Kept(points, n);
    PositionsPartition(points, n, k + 1);
    if k + 1 in Positions(kept) {
      var i :| 0 <= i < |kept| && Positions(kept)[i] == k + 1;
      assert PeriodObservations(h, points)[i].time == h.start + k * h.resolution;
    }
    forall i | 0 <= i < |kept| && PeriodObservations(h, points)[i].time == h.start + k * h.resolution
      ensures k + 1 in Positions(kept)
    {
      ProductOrder(h.resolution, kept[i].position - 1, k);
      ProductOrder(h.resolution, k, kept[i].position - 1);
      assert Positions(kept)[i] == k + 1;
    }
  }

  ghost predicate InsidePeriod(h: PeriodHeader, observations: seq<Observation>)
    requires h.Header?
  {
    forall i :: 0 <= i < |observations| ==> h.start <= observations[i].time < h.end
  }

  lemma TimesInside(h: PeriodHeader, points: seq<Point>)
    requires Usable(h) && h.end - h.start >= h.resolution
    ensures InsidePeriod(h, PeriodObservations(h, points))
  {
    var n := Expected(h);
    DivisionBounds(h.end - h.start, h.resolution, 1);
    var kept := Kept(points, n);
    assert PeriodObservations(h, points) == Times(kept, h.start, h.resolution);
    forall i | 0 <= i < |kept| ensures h.start <= Times(kept, h.start, h.resolution)[i].time < h.end {
      StepInside(h, kept[i].position);
    }
  }

  lemma StepInside(h: PeriodHeader, position: int)
    requires Usable(h) && 1 <= position <= Expected(h)
    ensures h.start <= h.start + (position - 1) * h.resolution < h.end
  {
    var n, r := Expected(h), h.resolution;
    DivisionBounds(h.end - h.start, r, n + 1);
    ProductOrder(r, position - 1, n);
    ProductOrder(r, -1, position - 1);
  }

  // The emitted times stay inside the interval, whatever the points, if and only if the interval is
  // at least one resolution long: a shorter one expects no point, and then no upper bound is checked.
  lemma TimesInsideIff(h: PeriodHeader)
    requires Usable(h)
    ensures (forall points :: InsidePeriod(h, PeriodObservations(h, points))) <==> h.end - h.start >= h.resolution
  {
    if h.end - h.start >= h.resolution {
      forall points ensures InsidePeriod(h, PeriodObservations(h, points)) { TimesInside(h, points); }
    } else {
      DivisionUnique(0, h.end - h.start, h.resolution);
      var points := [Point(2, 0.0)];
      assert Kept(points[..0], 0) == [];
      assert Kept(points, 0) == points;
      assert PeriodObservations(h, points)[0].time == h.start + h.resolution;
      assert !InsidePeriod(h, PeriodObservations(h, points));
    }
  }
}
