/**
FRED paging, archive merging and vintage ranking: `FredAdapter._fetch`,
`_paging_stop_reason` and `parse_series_observations` in src/turboedge/adapters/fred.py.
The server is a function from offset to a decoded reply; a late clock is a function
from the page number.
*/
module FredSeries {
  import opened Grouping
  import opened Sequences
  import opened Sorting
  import opened Wrappers

  // ---- Rows, pages and replies ----

  datatype RawValue = NotText | Dot | BadNumber | Value(v: real)

  // A row's date and realtime_start as parsed; None when they do not parse.
  datatype Realtime = Absent | Unreadable | Since(day: int)

  datatype RawRow = MissingFields | RawRow(value: RawValue, date: Option<int>, realtime: Realtime)

  datatype StopReason = RowCeiling | Deadline | PageLimit | Archived

  datatype Message = NoMessage | StopMessage | OtherMessage

  // One decoded JSON page: not an object, or an object with the keys that matter.
  datatype Page =
    | NonObject
    | Object(rows: Option<seq<RawRow>>, count: Option<int>, stopped: Option<StopReason>,
             errorCode: bool, message: Message)

  datatype Reply = RequestFailed | NonJson | Body(page: Page)

  type Server = nat -> Reply

  const MAX_PAGES: nat := 40
  const MAX_TOTAL_ROWS: nat := 600_000

  // The marker page appended when paging stops at one of the adapter's own limits.
  function Marker(reason: StopReason): Page {
    Object(None, None, Some(reason), false, NoMessage)
  }

  // What is archived for a reply that is not JSON.
  const UNPARSEABLE := Object(None, None, None, false, NoMessage)

  // ---- Paging ----

  // How a fetch ended; the first is the only complete one.
  datatype Ending =
    | Exhausted | EmptyPage | NotJson | NotAnObject | ErrorBody | NoRowsOrCount
    | Stopped(reason: StopReason)

  datatype Archive = Archive(pages: seq<Page>, ending: Ending)

  predicate HasError(page: Page) {
    page.Object? && (page.errorCode || page.message != NoMessage)
  }

  function PageRows(page: Page): seq<RawRow> {
    if page.Object? && page.rows.Some? then page.rows.value else []
  }

  function FetchFrom(server: Server, late: nat -> bool, k: nat, offset: nat, pages: seq<Page>): (a: Option<Archive>)
    requires k <= MAX_PAGES
    decreases MAX_PAGES - k
  {
    if k == MAX_PAGES then Some(Archive(pages + [Marker(PageLimit)], Stopped(PageLimit)))
    else if offset >= MAX_TOTAL_ROWS then Some(Archive(pages + [Marker(RowCeiling)], Stopped(RowCeiling)))
    else if late(k) then Some(Archive(pages + [Marker(Deadline)], Stopped(Deadline)))
    else
      match server(offset)
      case RequestFailed => None
      case NonJson => Some(Archive(pages + [UNPARSEABLE], NotJson))
      case Body(NonObject) => Some(Archive(pages + [NonObject], NotAnObject))
      case Body(page) =>
        if page.rows.None? || page.count.None? then
          Some(Archive(pages + [page], if HasError(page) then ErrorBody else NoRowsOrCount))
        else
          var next := offset + |page.rows.value|;
          if next >= page.count.value then Some(Archive(pages + [page], Exhausted))
          else if page.rows.value == [] then Some(Archive(pages + [page], EmptyPage))
          else FetchFrom(server, late, k + 1, next, pages + [page])
  }

  function Fetch(server: Server, late: nat -> bool): Option<Archive> {
    FetchFrom(server, late, 0, 0, [])
  }

  // The pages archived when the loop ends before request k's page is read, or with it.
  function Cut(server: Server, late: nat -> bool, k: nat, offset: nat, pages: seq<Page>): Option<seq<Page>> {
    if offset >= MAX_TOTAL_ROWS then Some(pages + [Marker(RowCeiling)])
    else if late(k) then Some(pages + [Marker(Deadline)])
    else if server(offset).NonJson? then Some(pages + [UNPARSEABLE])
    else if server(offset).Body? then Some(pages + [server(offset).page])
    else None
  }

  predicate Continues(server: Server, late: nat -> bool, k: nat, offset: nat) {
    && offset < MAX_TOTAL_ROWS && !late(k) && server(offset).Body?
    && var page := server(offset).page;
       && page.Object? && page.rows.Some? && page.count.Some?
       && page.rows.value != [] && offset + |page.rows.value| < page.count.value
  }

  function ArchivedPages(a: Option<Archive>): Option<seq<Page>> {
    match a
    case None => None
    case Some(archive) => Some(archive.pages)
  }

  lemma FetchStep(server: Server, late: nat -> bool, k: nat, offset: nat, pages: seq<Page>)
    requires k < MAX_PAGES
    ensures if Continues(server, late, k, offset)
            then FetchFrom(server, late, k, offset, pages) ==
                 FetchFrom(server, late, k + 1, offset + |server(offset).page.rows.value|,
                         pages + [server(offset).page])
            else ArchivedPages(FetchFrom(server, late, k, offset, pages)) == Cut(server, late, k, offset, pages)
  {
    hide HasError;
  }

  method FetchPages(server: Server, late: nat -> bool) returns (archive: Option<seq<Page>>)
    ensures archive == match Fetch(server, late) case None => None case Some(a) => Some(a.pages)
  {
    hide HasError, Marker, PageRows, FetchFrom;
    var pages: seq<Page>, offset: nat, stopReason: Option<StopReason> := [], 0, None;
    var k := 0;
    while k < MAX_PAGES
      invariant k <= MAX_PAGES && stopReason.None?
      invariant Fetch(server, late) == FetchFrom(server, late, k, offset, pages)
    {
      FetchStep(server, late, k, offset, pages);
      if offset >= MAX_TOTAL_ROWS {
        return Some(pages + [Marker(RowCeiling)]);
      }
      if late(k) {
        return Some(pages + [Marker(Deadline)]);
      }
      match server(offset)
      case RequestFailed => return None;
      case NonJson => return Some(pages + [UNPARSEABLE]);
      case Body(page) =>
        pages := pages + [page];
        if page.NonObject? {
          return Some(pages);
        }
        if page.rows.None? || page.count.None? {
          return Some(pages);
        }
        offset := offset + |page.rows.value|;
        if page.rows.value == [] || offset >= page.count.value {
          return Some(pages);
        }
        k := k + 1;
    }
    PageLimitReached(server, late, offset, pages);
    return Some(pages + [Marker(PageLimit)]);
  }

  lemma PageLimitReached(server: Server, late: nat -> bool, offset: nat, pages: seq<Page>)
    ensures ArchivedPages(FetchFrom(server, late, MAX_PAGES, offset, pages)) == Some(pages + [Marker(PageLimit)])
  {
  }

  // ---- Merging an archive ----

  // The reason paging stopped, if this page is a marker (either archived shape).
  function PagingStop(page: Page): Option<StopReason> {
    if page.NonObject? then None
    else if page.stopped.Some? then page.stopped
    else if page.message == StopMessage && !page.errorCode then Some(Archived)
    else None
  }

  datatype Surrender = NonObjectEntry | TopLevelNotObject | UpstreamError | NoObservationsList

  datatype Merge = Surrendered(why: Surrender) | Merged(rows: seq<RawRow>, stop: Option<StopReason>)

  datatype Payload = Single(page: Page) | Pages(pages: seq<Page>)

  function MergeFrom(pages: seq<Page>, rows: seq<RawRow>): Merge {
    if pages == [] then Merged(rows, None)
    else if pages[0].NonObject? then Surrendered(NonObjectEntry)
    else if PagingStop(pages[0]).Some? then Merged(rows, PagingStop(pages[0]))
    else if HasError(pages[0]) then Surrendered(UpstreamError)
    else MergeFrom(pages[1..], rows + PageRows(pages[0]))
  }

  function MergePayload(payload: Payload): Merge {
    match payload
    case Pages(pages) => MergeFrom(pages, [])
    case Single(page) =>
      if page.NonObject? then Surrendered(TopLevelNotObject)
      else if HasError(page) then Surrendered(UpstreamError)
      else if page.rows.None? then Surrendered(NoObservationsList)
      else Merged(page.rows.value, None)
  }

  method MergePages(pages: seq<Page>) returns (m: Merge)
    ensures m == MergeFrom(pages, [])
  {
    var rows := [];
    for i := 0 to |pages|
      invariant MergeFrom(pages, []) == MergeFrom(pages[i..], rows)
    {
      assert pages[i..][1..] == pages[i + 1..];
      if pages[i].NonObject? {
        return Surrendered(NonObjectEntry);
      }
      if PagingStop(pages[i]).Some? {
        return Merged(rows, PagingStop(pages[i]));
      }
      if HasError(pages[i]) {
        return Surrendered(UpstreamError);
      }
      rows := rows + PageRows(pages[i]);
    }
    return Merged(rows, None);
  }

  // ---- Shape independence ----

  // A page that carries rows and nothing that ends or invalidates the archive.
  predicate PlainPage(page: Page) {
    page.Object? && page.rows.Some? && PagingStop(page).None? && !HasError(page)
  }

  function AllRows(pages: seq<Page>): seq<RawRow> {
    if pages == [] then [] else PageRows(pages[0]) + AllRows(pages[1..])
  }

  lemma {:induction false} MergePlain(pages: seq<Page>, rest: seq<Page>, rows: seq<RawRow>)
    requires forall p :: p in pages ==> p.Object? && PagingStop(p).None? && !HasError(p)
    ensures MergeFrom(pages + rest, rows) == MergeFrom(rest, rows + AllRows(pages))
  {
    if pages == [] {
      assert pages + rest == rest && rows + [] == rows;
    } else {
      assert pages[0] in pages;
      assert (pages + rest)[1..] == pages[1..] + rest;
      MergePlain(pages[1..], rest, rows + PageRows(pages[0]));
      assert rows + PageRows(pages[0]) + AllRows(pages[1..]) == rows + (PageRows(pages[0]) + AllRows(pages[1..]));
    }
  }

  // Reading any split of the rows into pages is reading them as one unpaged object.
  lemma SplitDoesNotMatter(pages: seq<Page>, whole: Page)
    requires forall p :: p in pages ==> PlainPage(p)
    requires PlainPage(whole) && whole.rows.value == AllRows(pages)
    ensures MergePayload(Pages(pages)) == MergePayload(Single(whole))
  {
    assert pages + [] == pages && [] + AllRows(pages) == AllRows(pages);
    MergePlain(pages, [], []);
  }

  // A stop marker keeps every row fetched before it and is reported; an upstream error body
  // surrenders them all.
  lemma MarkerKeepsErrorSurrenders(pages: seq<Page>, last: Page, rest: seq<Page>)
    requires forall p :: p in pages ==> PlainPage(p)
    requires last.Object?
    ensures PagingStop(last).Some? ==> MergeFrom(pages + [last] + rest, []) == Merged(AllRows(pages), PagingStop(last))
    ensures PagingStop(last).None? && HasError(last) ==>
            MergeFrom(pages + [last] + rest, []) == Surrendered(UpstreamError)
  {
    assert pages + [last] + rest == pages + ([last] + rest);
    MergePlain(pages, [last] + rest, []);
    assert [] + AllRows(pages) == AllRows(pages);
    assert ([last] + rest)[0] == last;
  }

  // Which payloads surrender, and what they then leave: an archive by its first page that is not an object or
  // carries an error without being a marker, unless a marker comes first; a single object also by lacking rows.
  predicate Marked(page: Page) {
    page.Object? && (page.stopped.Some? || (page.message == StopMessage && !page.errorCode))
  }

  predicate Spoils(page: Page) {
    page.NonObject? || (!Marked(page) && (page.errorCode || page.message != NoMessage))
  }

  ghost predicate SpoiltAt(pages: seq<Page>, i: int) {
    0 <= i < |pages| && Spoils(pages[i]) && forall j :: 0 <= j < i ==> pages[j].Object? && !Marked(pages[j])
  }

  lemma {:induction false} ArchiveSurrendersIff(pages: seq<Page>, rows: seq<RawRow>)
    ensures MergeFrom(pages, rows).Surrendered? <==> exists i :: SpoiltAt(pages, i)
  {
    if pages == [] {
    } else {
      ArchiveSurrendersIff(pages[1..], rows + PageRows(pages[0]));
      SpoiltCons(pages);
    }
  }

  lemma SpoiltCons(pages: seq<Page>)
    requires pages != []
    ensures (exists i :: SpoiltAt(pages, i)) <==>
            Spoils(pages[0]) || (pages[0].Object? && !Marked(pages[0]) && exists i :: SpoiltAt(pages[1..], i))
  {
    hide Marked;
    var rest := pages[1..];
    if Spoils(pages[0]) { assert SpoiltAt(pages, 0); }
    if i :| SpoiltAt(pages, i) {
      if i > 0 {
        forall j | 0 <= j < i - 1 ensures rest[j].Object? && !Marked(rest[j]) {
          assert rest[j] == pages[j + 1];
        }
        assert SpoiltAt(rest, i - 1);
      }
    }
    if pages[0].Object? && !Marked(pages[0]) && exists i :: SpoiltAt(rest, i) {
      var i :| SpoiltAt(rest, i);
      forall j | 0 <= j < i + 1 ensures pages[j].Object? && !Marked(pages[j]) {
        if j > 0 { assert pages[j] == rest[j - 1]; }
      }
      assert SpoiltAt(pages, i + 1);
    }
  }

  lemma SingleSurrendersIff(page: Page)
    ensures MergePayload(Single(page)).Surrendered? <==>
            page.NonObject? || page.errorCode || page.message != NoMessage || page.rows.None?
    ensures !MergePayload(Single(page)).Surrendered? ==> MergePayload(Single(page)) == Merged(page.rows.value, None)
  {
  }

  // ---- Completeness of a fetched archive ----

  // The server holds one fixed series: every page of rows it returns is the next stretch of it and
  // carries the true count; a page without rows carries neither markers nor a count trick.
  ghost predicate Serves(server: Server, series: seq<RawRow>) {
    forall o: nat :: server(o).Body? && server(o).page.Object? ==> ServesPage(server(o).page, series, o)
  }

  ghost predicate ServesPage(page: Page, series: seq<RawRow>, o: nat)
    requires page.Object?
  {
    && page.stopped.None? && page.message != StopMessage
    && (page.rows.Some? ==> page.count == Some(|series|) && !HasError(page))
    && (page.rows.Some? && o <= |series| ==> page.rows.value <= series[o..])
  }

  lemma {:induction false} AllRowsAppend(pages: seq<Page>, page: Page)
    ensures AllRows(pages + [page]) == AllRows(pages) + PageRows(page)
  {
    if pages == [] {
      assert pages + [page] == [page] && [page][1..] == [];
    } else {
      assert (pages + [page])[1..] == pages[1..] + [page];
      AllRowsAppend(pages[1..], page);
    }
  }

  // The rows of an archive are a stretch from the start of the series, and they are all of it
  // exactly when the loop ended by reaching the count.
  ghost predicate Faithful(a: Archive, series: seq<RawRow>) {
    match a.ending
    case Exhausted => MergeFrom(a.pages, []) == Merged(series, None)
    case Stopped(reason) =>
      && MergeFrom(a.pages, []).Merged? && MergeFrom(a.pages, []).stop == Some(reason)
      && MergeFrom(a.pages, []).rows <= series
      && (series != [] ==> MergeFrom(a.pages, []).rows != series)
    case NotAnObject => MergeFrom(a.pages, []) == Surrendered(NonObjectEntry)
    case ErrorBody => MergeFrom(a.pages, []) == Surrendered(UpstreamError)
    case _ =>
      && MergeFrom(a.pages, []).Merged? && MergeFrom(a.pages, []).stop.None? && MergeFrom(a.pages, []).rows <= series
      && (series != [] ==> MergeFrom(a.pages, []).rows != series)
  }

  lemma {:induction false} FetchIsFaithful(server: Server, late: nat -> bool, series: seq<RawRow>, k: nat,
                                           offset: nat, pages: seq<Page>)
    requires Serves(server, series) && k <= MAX_PAGES
    requires forall p :: p in pages ==> PlainPage(p)
    requires offset < |series| || offset == |series| == 0
    requires AllRows(pages) == series[..offset]
    ensures var a := FetchFrom(server, late, k, offset, pages); a.Some? ==> Faithful(a.value, series)
    decreases MAX_PAGES - k
  {
    hide MergeFrom, AllRows;
    if k == MAX_PAGES {
      LastPage(pages, Marker(PageLimit), series, offset);
    } else if offset >= MAX_TOTAL_ROWS {
      LastPage(pages, Marker(RowCeiling), series, offset);
    } else if late(k) {
      LastPage(pages, Marker(Deadline), series, offset);
    } else if server(offset).NonJson? {
      LastPage(pages, UNPARSEABLE, series, offset);
    } else if server(offset).Body? {
      var page := server(offset).page;
      LastPage(pages, page, series, offset);
      if page.Object? { assert ServesPage(page, series, offset); }
      if page.Object? && page.rows.Some? {
        NextStretch(pages, page, series, offset);
        var next := offset + |page.rows.value|;
        if next < |series| && page.rows.value != [] {
          FetchIsFaithful(server, late, series, k + 1, next, pages + [page]);
        }
      }
    }
  }

  // A page of rows continues the stretch of the series read so far.
  lemma NextStretch(pages: seq<Page>, page: Page, series: seq<RawRow>, offset: nat)
    requires page.Object? && page.rows.Some? && offset <= |series| && page.rows.value <= series[offset..]
    requires AllRows(pages) == series[..offset]
    ensures var next := offset + |page.rows.value|;
            && next <= |series| && AllRows(pages + [page]) == series[..next]
            && series[..offset] + PageRows(page) == series[..next] && (next == |series| ==> series[..next] == series)
  {
    hide AllRows;
    AllRowsAppend(pages, page);
    var next := offset + |page.rows.value|;
    assert series[..offset] + page.rows.value == series[..next];
  }

  // Merging plain pages followed by one last page.
  lemma LastPage(pages: seq<Page>, last: Page, series: seq<RawRow>, offset: nat)
    requires forall p :: p in pages ==> PlainPage(p)
    requires offset <= |series| && AllRows(pages) == series[..offset]
    ensures MergeFrom(pages + [last], []) ==
            if last.NonObject? then Surrendered(NonObjectEntry)
            else if PagingStop(last).Some? then Merged(series[..offset], PagingStop(last))
            else if HasError(last) then Surrendered(UpstreamError)
            else Merged(series[..offset] + PageRows(last), None)
    ensures series[..offset] <= series
  {
    MergePlain(pages, [last], []);
    assert [] + AllRows(pages) == series[..offset];
    assert [last][1..] == [];
    assert series[..offset] + [] == series[..offset];
  }

  // An archive that reads back without any warning although rows are missing.
  ghost predicate SilentlyShort(a: Archive, series: seq<RawRow>) {
    var m := MergeFrom(a.pages, []);
    m.Merged? && m.stop.None? && m.rows != series
  }

  // What each way out of the paging loop leaves behind.
  lemma EndingsDecide(server: Server, late: nat -> bool, series: seq<RawRow>)
    requires Serves(server, series) && Fetch(server, late).Some?
    ensures var a := Fetch(server, late).value;
            SilentlyShort(a, series) <==> series != [] && Unmarked(a.ending)
    ensures var a := Fetch(server, late).value;
            series != [] ==> (MergeFrom(a.pages, []) == Merged(series, None) <==> a.ending == Exhausted)
    ensures var m := MergeFrom(Fetch(server, late).value.pages, []);
            m.Merged? ==> m.rows <= series
  {
    assert series[..0] == [];
    FetchIsFaithful(server, late, series, 0, 0, []);
  }

  predicate Unmarked(ending: Ending) {
    ending.NotJson? || ending.NoRowsOrCount? || ending.EmptyPage?
  }

  // The offset of request k, as long as every reply before it is a page that leads on.
  function OffsetAt(server: Server, k: nat): nat {
    if k == 0 then 0
    else
      var o := OffsetAt(server, k - 1);
      o + if server(o).Body? then |PageRows(server(o).page)| else 0
  }

  // Reply k is a non-empty page below the count.
  predicate LeadsOn(server: Server, k: nat) {
    var o := OffsetAt(server, k);
    && server(o).Body? && server(o).page.Object? && server(o).page.rows.Some? && server(o).page.count.Some?
    && server(o).page.rows.value != [] && o + |server(o).page.rows.value| < server(o).page.count.value
  }

  // Request k is made: no page limit, row ceiling or deadline stands in its way.
  predicate IsMade(server: Server, late: nat -> bool, k: nat) {
    k < MAX_PAGES && OffsetAt(server, k) < MAX_TOTAL_ROWS && !late(k)
  }

  // A reply that is not JSON, an error-free object without rows or without a count, or an empty page.
  predicate BreaksOff(r: Reply) {
    r.NonJson? ||
    (r.Body? && r.page.Object? && !HasError(r.page) &&
            (r.page.rows.None? || r.page.count.None? || r.page.rows.value == []))
  }

  ghost predicate ReachedBy(server: Server, late: nat -> bool, k: nat) {
    forall j :: 0 <= j < k ==> IsMade(server, late, j) && LeadsOn(server, j)
  }

  // Some request that is made, the first not to be answered by a page that leads on, is broken off.
  ghost predicate BrokenOff(server: Server, late: nat -> bool) {
    exists k: nat :: ReachedBy(server, late, k) && IsMade(server, late, k) && BreaksOff(server(OffsetAt(server, k)))
  }

  // A reply that leads on sends the loop to the next request.
  lemma LedOn(server: Server, late: nat -> bool, k: nat, pages: seq<Page>) returns (next: seq<Page>)
    requires IsMade(server, late, k) && LeadsOn(server, k)
    ensures FetchFrom(server, late, k, OffsetAt(server, k), pages) ==
            FetchFrom(server, late, k + 1, OffsetAt(server, k + 1), next)
  {
    next := pages + [server(OffsetAt(server, k)).page];
  }

  lemma StaysBelow(server: Server, series: seq<RawRow>, k: nat)
    requires Serves(server, series) && LeadsOn(server, k)
    ensures OffsetAt(server, k + 1) < |series|
  {
    assert ServesPage(server(OffsetAt(server, k)).page, series, OffsetAt(server, k));
  }

  // The loop gets to every request reached.
  lemma {:induction false} RunsTo(server: Server, late: nat -> bool, series: seq<RawRow>, k: nat)
    returns (pages: seq<Page>)
    requires Serves(server, series) && series != [] && ReachedBy(server, late, k)
    ensures k <= MAX_PAGES && OffsetAt(server, k) < |series|
    ensures Fetch(server, late) == FetchFrom(server, late, k, OffsetAt(server, k), pages)
  {
    hide Serves, LeadsOn, FetchFrom;
    if k == 0 {
      pages := [];
    } else {
      assert IsMade(server, late, k - 1) && LeadsOn(server, k - 1);
      pages := RunsTo(server, late, series, k - 1);
      pages := LedOn(server, late, k - 1, pages);
      StaysBelow(server, series, k - 1);
    }
  }

  // An unmarked ending comes from a reply that breaks the fetch off.
  lemma {:induction false} UnmarkedBreaksOff(server: Server, late: nat -> bool, series: seq<RawRow>, k: nat,
                                             pages: seq<Page>)
    requires Serves(server, series) && k <= MAX_PAGES && ReachedBy(server, late, k)
    requires var a := FetchFrom(server, late, k, OffsetAt(server, k), pages); a.Some? && Unmarked(a.value.ending)
    ensures BrokenOff(server, late)
    decreases MAX_PAGES - k
  {
    var o := OffsetAt(server, k);
    assert IsMade(server, late, k);
    if server(o).Body? && server(o).page.Object? { assert ServesPage(server(o).page, series, o); }
    if LeadsOn(server, k) {
      UnmarkedBreaksOff(server, late, series, k + 1, pages + [server(o).page]);
    } else {
      assert BreaksOff(server(o));
    }
  }

  // The adapter's promise is that a short series never looks whole. It looks whole, rows missing and no
  // warning given, exactly when the fetch is broken off: the first reply that is not a non-empty page below
  // the count, within all the adapter's own limits, is not JSON, or an error-free object without rows or
  // count, or an empty page.
  lemma SilentlyShortIff(server: Server, late: nat -> bool, series: seq<RawRow>)
    requires Serves(server, series)
    ensures (Fetch(server, late).Some? && SilentlyShort(Fetch(server, late).value, series)) <==>
            series != [] && BrokenOff(server, late)
  {
    hide SilentlyShort, Serves, BrokenOff;
    if Fetch(server, late).Some? { EndingsDecide(server, late, series); }
    if Fetch(server, late).Some? && Unmarked(Fetch(server, late).value.ending) {
      UnmarkedBreaksOff(server, late, series, 0, []);
    }
    if series != [] && BrokenOff(server, late) { BrokenOffIsUnmarked(server, late, series); }
  }

  lemma BrokenOffIsUnmarked(server: Server, late: nat -> bool, series: seq<RawRow>)
    requires Serves(server, series) && series != [] && BrokenOff(server, late)
    ensures Fetch(server, late).Some? && Unmarked(Fetch(server, late).value.ending)
  {
    var k: nat :| ReachedBy(server, late, k) && IsMade(server, late, k) && BreaksOff(server(OffsetAt(server, k)));
    var pages := RunsTo(server, late, series, k);
    var o := OffsetAt(server, k);
    if server(o).Body? { assert ServesPage(server(o).page, series, o); }
  }

  // A server that answers as documented: JSON objects with rows and a count, and no empty page before the end.
  ghost predicate AnswersInFull(server: Server, series: seq<RawRow>) {
    forall o: nat :: o < |series| || o == 0 ==>
      && server(o).Body? && server(o).page.Object? && server(o).page.rows.Some? && server(o).page.count.Some?
      && (o < |series| ==> server(o).page.rows.value != [])
  }

  predicate CompleteOrStopped(a: Option<Archive>) {
    a.Some? && (a.value.ending.Exhausted? || a.value.ending.Stopped?)
  }

  lemma FullPageStep(server: Server, late: nat -> bool, k: nat, offset: nat, pages: seq<Page>)
    requires k < MAX_PAGES && server(offset).Body?
    requires var page := server(offset).page;
             && page.Object? && page.rows.Some? && page.count.Some?
             && (page.rows.value == [] ==> offset >= page.count.value)
    ensures !Continues(server, late, k, offset) ==> CompleteOrStopped(FetchFrom(server, late, k, offset, pages))
  {
    hide HasError, Marker;
  }

  lemma {:induction false} FullAnswersEnd(server: Server, late: nat -> bool, series: seq<RawRow>, k: nat,
                                          offset: nat, pages: seq<Page>)
    requires Serves(server, series) && AnswersInFull(server, series) && k <= MAX_PAGES
    requires offset < |series| || offset == 0
    ensures CompleteOrStopped(FetchFrom(server, late, k, offset, pages))
    decreases MAX_PAGES - k
  {
    hide FetchFrom, HasError, PagingStop;
    if k == MAX_PAGES {
      AtThePageLimit(server, late, offset, pages);
    } else {
      var page := server(offset).page;
      assert ServesPage(page, series, offset);
      FullPageStep(server, late, k, offset, pages);
      FetchStep(server, late, k, offset, pages);
      if Continues(server, late, k, offset) {
        FullAnswersEnd(server, late, series, k + 1, offset + |page.rows.value|, pages + [page]);
      }
    }
  }

  lemma AtThePageLimit(server: Server, late: nat -> bool, offset: nat, pages: seq<Page>)
    ensures CompleteOrStopped(FetchFrom(server, late, MAX_PAGES, offset, pages))
  {
  }

  // Such a series exists: two rows, then a reply that is not JSON.
  lemma ShortSeriesLooksWhole(row: RawRow) returns (server: Server, series: seq<RawRow>, archive: Archive)
    ensures series == [row, row] && Serves(server, series)
    ensures Fetch(server, (k: nat) => false) == Some(archive) && archive.ending == NotJson
    ensures MergeFrom(archive.pages, []) == Merged([row], None)
  {
    series := [row, row];
    var first := Object(Some([row]), Some(2), None, false, NoMessage);
    server := (o: nat) => if o == 0 then Body(first) else NonJson;
    archive := Archive([first, UNPARSEABLE], NotJson);
    assert series[0..] == series && [row] <= series;
    assert ServesPage(first, series, 0);
    var late := (k: nat) => false;
    assert [] + [first] == [first] && [first] + [UNPARSEABLE] == [first, UNPARSEABLE];
    assert FetchFrom(server, late, 1, 1, [first]) == Some(archive);
    TwoPages(first, UNPARSEABLE, row);
  }

  lemma TwoPages(first: Page, second: Page, row: RawRow)
    requires PlainPage(first) && first.rows.value == [row]
    requires second.Object? && PagingStop(second).None? && !HasError(second) && PageRows(second) == []
    ensures MergeFrom([first, second], []) == Merged([row], None)
  {
    assert [first][1..] == [] && [row] + [] == [row];
    assert [row][..1] == [row];
    assert [first] + [second] == [first, second];
    LastPage([first], second, [row], 1);
  }

  // ---- Vintages ----

  datatype Vintage = Vintage(day: int, since: int, value: real)

  datatype Observation = Observation(vintage: Vintage, revision: Option<nat>)

  datatype Warning = PagingStopped(reason: StopReason) | BadRow | TooManyCurrent(day: int) | Unusable(why: Surrender)

  // A usable row; a missing realtime_start falls back to the date.
  function Read(row: RawRow): Option<Vintage> {
    if row.MissingFields? || !row.value.Value? || row.date.None? then None
    else
      match row.realtime
      case Absent => Some(Vintage(row.date.value, row.date.value, row.value.v))
      case Since(day) => Some(Vintage(row.date.value, day, row.value.v))
      case Unreadable => None
  }

  // Everything else is reported, except the documented "." marker.
  function RowWarning(row: RawRow): Option<Warning> {
    if Read(row).Some? || (row.RawRow? && row.value == Dot) then None else Some(BadRow)
  }

  function DayOf(v: Vintage): Option<int> {
    Some(v.day)
  }

  function SinceOrder(): (Vintage, Vintage) -> bool {
    (x: Vintage, y: Vintage) => x.since <= y.since
  }

  // One day's vintages, oldest first; ties keep their order of arrival.
  function ForDay(vs: seq<Vintage>, day: int): seq<Vintage> {
    SortBy(WithKey(vs, DayOf, day), SinceOrder())
  }

  function Ranked(vs: seq<Vintage>, aware: bool): (r: seq<Observation>)
    ensures |r| == |vs|
    ensures forall i :: 0 <= i < |vs| ==> r[i] == Observation(vs[i], if aware then Some(i) else None)
  {
    seq(|vs|, i requires 0 <= i < |vs| => Observation(vs[i], if aware then Some(i) else None))
  }

  function Emit(vs: seq<Vintage>, days: seq<int>, aware: bool): seq<Observation> {
    if days == [] then []
    else Emit(vs, days[..|days| - 1], aware) + Ranked(ForDay(vs, days[|days| - 1]), aware)
  }

  function CrowdedDay(vs: seq<Vintage>, day: int): Option<Warning> {
    if |ForDay(vs, day)| > 1 then Some(TooManyCurrent(day)) else None
  }

  datatype Parsed = Parsed(observations: seq<Observation>, warnings: seq<Warning>, missing: bool)

  function ParseRows(rows: seq<RawRow>, aware: bool): Parsed {
    var vs := Collect(rows, Read);
    var days := Keys(vs, DayOf);
    Parsed(Emit(vs, days, aware),
           Collect(rows, RowWarning) + if aware then [] else Collect(days, day => CrowdedDay(vs, day)),
           false)
  }

  function ParseSeries(payload: Payload, aware: bool): Parsed {
    match MergePayload(payload)
    case Surrendered(why) => Parsed([], [Unusable(why)], true)
    case Merged(rows, stop) =>
      var p := ParseRows(rows, aware);
      p.(warnings := (if stop.Some? then [PagingStopped(stop.value)] else []) + p.warnings)
  }

  method ReadRows(rows: seq<RawRow>) returns (vs: seq<Vintage>, warnings: seq<Warning>)
    ensures vs == Collect(rows, Read) && warnings == Collect(rows, RowWarning)
  {
    vs, warnings := [], [];
    for i := 0 to |rows|
      invariant vs == Collect(rows[..i], Read) && warnings == Collect(rows[..i], RowWarning)
    {
      var row := rows[i];
      assert rows[..i + 1] == rows[..i] + [row];
      CollectAppend(rows[..i], row, Read);
      CollectAppend(rows[..i], row, RowWarning);
      if row.MissingFields? || row.value == NotText {
        warnings := warnings + [BadRow];
      } else if row.value == Dot {
      } else if row.value == BadNumber || row.date.None? || row.realtime.Unreadable? {
        warnings := warnings + [BadRow];
      } else {
        var since := if row.realtime.Since? then row.realtime.day else row.date.value;
        vs := vs + [Vintage(row.date.value, since, row.value.v)];
      }
    }
    assert rows[..|rows|] == rows;
  }

  method RankDay(sorted: seq<Vintage>, aware: bool) returns (ranked: seq<Observation>)
    ensures ranked == Ranked(sorted, aware)
  {
    ranked := [];
    for j := 0 to |sorted|
      invariant ranked == Ranked(sorted, aware)[..j]
    {
      ranked := ranked + [Observation(sorted[j], if aware then Some(j) else None)];
    }
  }

  method EmitDays(vs: seq<Vintage>, byDay: map<int, seq<Vintage>>, days: seq<int>, aware: bool)
    returns (observations: seq<Observation>, warnings: seq<Warning>)
    requires forall d :: d in days ==> d in byDay && byDay[d] == WithKey(vs, DayOf, d)
    ensures observations == Emit(vs, days, aware)
    ensures warnings == if aware then [] else Collect(days, day => CrowdedDay(vs, day))
  {
    hide WithKey, SortBy, SinceOrder, Ranked;
    observations, warnings := [], [];
    for i := 0 to |days|
      invariant observations == Emit(vs, days[..i], aware)
      invariant warnings == if aware then [] else Collect(days[..i], day => CrowdedDay(vs, day))
    {
      var day := days[i];
      assert days[..i + 1] == days[..i] + [day] && days[..i + 1][..i] == days[..i];
      CollectAppend(days[..i], day, d => CrowdedDay(vs, d));
      var sorted := SortBy(byDay[day], SinceOrder());
      if !aware && |sorted| > 1 {
        warnings := warnings + [TooManyCurrent(day)];
      }
      var ranked := RankDay(sorted, aware);
      observations := observations + ranked;
    }
    assert days[..|days|] == days;
  }

  method ParseSeriesObservations(payload: Payload, aware: bool) returns (r: Parsed)
    ensures r == ParseSeries(payload, aware)
  {
    hide Read, RowWarning, Emit, Collect, DayOf, CrowdedDay;
    var merge := MergePayload(payload);
    if payload.Pages? {
      merge := MergePages(payload.pages);
    }
    match merge
    case Surrendered(why) =>
      return Parsed([], [Unusable(why)], true);
    case Merged(rows, stop) =>
      var vs, rowWarnings := ReadRows(rows);
      var byDay, days := GroupBy(vs, DayOf);
      var observations, dayWarnings := EmitDays(vs, byDay, days, aware);
      var first := if stop.Some? then [PagingStopped(stop.value)] else [];
      return Parsed(observations, first + (rowWarnings + dayWarnings), false);
  }

  // A fetch that reached the count reads back as the whole series, in one piece.
  lemma CompleteFetchParses(server: Server, late: nat -> bool, series: seq<RawRow>, aware: bool)
    requires Serves(server, series) && Fetch(server, late).Some? && Fetch(server, late).value.ending == Exhausted
    ensures ParseSeries(Pages(Fetch(server, late).value.pages), aware) == ParseRows(series, aware)
  {
    assert series[..0] == [];
    FetchIsFaithful(server, late, series, 0, 0, []);
    var p := ParseRows(series, aware);
    assert [] + p.warnings == p.warnings;
  }

  // A payload that surrenders leaves no observation and one warning, and marks its series as missing.
  lemma SurrenderMeans(payload: Payload, aware: bool)
    ensures var p := ParseSeries(payload, aware);
            && (p.missing <==> MergePayload(payload).Surrendered?)
            && (p.missing ==> p.observations == [] && |p.warnings| == 1)
  {
    hide MergePayload, Emit;
  }

  // What the rows up to n read as, headed by the warning that paging stopped there.
  ghost predicate FlaggedAt(p: Parsed, series: seq<RawRow>, aware: bool, n: nat) {
    && n <= |series| && (series != [] ==> n < |series|)
    && var q := ParseRows(series[..n], aware);
       exists reason :: p == q.(warnings := [PagingStopped(reason)] + q.warnings)
  }

  // Against a server that answers in full the promise holds: the archive reads as the whole series, or as
  // a proper prefix of it whose first warning says that paging stopped.
  lemma CompleteOrFlagged(server: Server, late: nat -> bool, series: seq<RawRow>, aware: bool)
    requires Serves(server, series) && AnswersInFull(server, series)
    ensures Fetch(server, late).Some?
    ensures var p := ParseSeries(Pages(Fetch(server, late).value.pages), aware);
            p == ParseRows(series, aware) || exists n: nat :: FlaggedAt(p, series, aware, n)
  {
    hide ParseRows, MergeFrom;
    FullAnswersEnd(server, late, series, 0, 0, []);
    assert series[..0] == [];
    FetchIsFaithful(server, late, series, 0, 0, []);
    var a := Fetch(server, late).value;
    if a.ending.Exhausted? {
      CompleteFetchParses(server, late, series, aware);
    } else {
      var rows := MergeFrom(a.pages, []).rows;
      assert rows == series[..|rows|];
      assert FlaggedAt(ParseSeries(Pages(a.pages), aware), series, aware, |rows|);
    }
  }

  // ---- What the ranking guarantees ----

  function VintageOf(o: Observation): Option<Vintage> {
    Some(o.vintage)
  }

  lemma VintagesOfRanked(vs: seq<Vintage>, aware: bool)
    ensures Collect(Ranked(vs, aware), VintageOf) == vs
  {
    CollectAll(Ranked(vs, aware), VintageOf);
  }

  lemma {:induction false} EmitKeeps(vs: seq<Vintage>, days: seq<int>, aware: bool)
    ensures multiset(Collect(Emit(vs, days, aware), VintageOf)) == multiset(Regrouped(vs, DayOf, days))
  {
    if days == [] {
    } else {
      var rest, last := days[..|days| - 1], days[|days| - 1];
      EmitKeeps(vs, rest, aware);
      CollectConcat(Emit(vs, rest, aware), Ranked(ForDay(vs, last), aware), VintageOf);
      VintagesOfRanked(ForDay(vs, last), aware);
      SortContents(WithKey(vs, DayOf, last), SinceOrder());
    }
  }

  // Nothing is lost or invented: the emitted vintages are those of the usable rows.
  lemma EmittedVintages(rows: seq<RawRow>, aware: bool)
    ensures multiset(Collect(ParseRows(rows, aware).observations, VintageOf)) == multiset(Collect(rows, Read))
  {
    var vs := Collect(rows, Read);
    var days := Keys(vs, DayOf);
    EmitKeeps(vs, days, aware);
    KeysDistinct(vs, DayOf);
    forall v | v in vs ensures v.day in days {
      KeysMember(vs, DayOf, v.day);
      WithKeyHasKey(vs, DayOf, v.day);
    }
    RegroupedIsAll(vs, DayOf, days);
  }

  // ---- What is said of each raw row ----

  // The row states value v for the day, known since then.
  predicate States(row: RawRow, day: int, since: int, v: real) {
    && row.RawRow? && row.value == Value(v) && row.date == Some(day)
    && (row.realtime == Since(since) || (row.realtime == Absent && since == day))
  }

  predicate Readable(row: RawRow) {
    row.RawRow? && row.value.Value? && row.date.Some? && !row.realtime.Unreadable?
  }

  // The documented marker of a missing value.
  predicate SaysMissing(row: RawRow) {
    row.RawRow? && row.value == Dot
  }

  lemma StatedIffRead(rows: seq<RawRow>, x: Vintage)
    ensures x in Collect(rows, Read) <==> exists row :: row in rows && States(row, x.day, x.since, x.value)
  {
    if x in Collect(rows, Read) {
      var i := CollectedAt(rows, Read, x);
      assert rows[i] in rows && States(rows[i], x.day, x.since, x.value);
    }
    if row :| row in rows && States(row, x.day, x.since, x.value) { CollectMember(rows, Read, row); }
  }

  lemma VintagesMember(os: seq<Observation>, x: Vintage)
    ensures x in Collect(os, VintageOf) <==> exists o :: o in os && o.vintage == x
  {
    if x in Collect(os, VintageOf) {
      var i := CollectedAt(os, VintageOf, x);
      assert os[i] in os;
    }
    if o :| o in os && o.vintage == x { CollectMember(os, VintageOf, o); }
  }

  // A vintage is emitted iff some row states it.
  lemma EmittedIffStated(rows: seq<RawRow>, aware: bool, day: int, since: int, v: real)
    ensures (exists o :: o in ParseRows(rows, aware).observations && o.vintage == Vintage(day, since, v)) <==>
            exists row :: row in rows && States(row, day, since, v)
  {
    hide ParseRows, Collect, Read, States;
    var os, x := ParseRows(rows, aware).observations, Vintage(day, since, v);
    EmittedVintages(rows, aware);
    assert x in multiset(Collect(os, VintageOf)) <==> x in multiset(Collect(rows, Read));
    VintagesMember(os, x);
    StatedIffRead(rows, x);
  }

  // The rows reported are those neither readable nor marked missing; when vintage-aware nothing else is.
  lemma ReportedRows(rows: seq<RawRow>)
    ensures var warnings := ParseRows(rows, true).warnings;
            && (forall w :: w in warnings ==> w == BadRow)
            && |warnings| == |set i | 0 <= i < |rows| && !Readable(rows[i]) && !SaysMissing(rows[i])|
  {
    var warnings := Collect(rows, RowWarning);
    assert ParseRows(rows, true).warnings == warnings + [] == warnings;
    PassingCount(rows, RowWarning);
    assert Passing(rows, RowWarning) == set i | 0 <= i < |rows| && !Readable(rows[i]) && !SaysMissing(rows[i]);
    OnlyBadRows(rows);
  }

  // A clean series of readable and missing values is read without a warning.
  lemma CleanSeriesIsSilent(payload: Payload, rows: seq<RawRow>)
    requires MergePayload(payload) == Merged(rows, None)
    requires forall row :: row in rows ==> Readable(row) || SaysMissing(row)
    ensures ParseSeries(payload, true).warnings == []
  {
    hide ParseRows;
    ReportedRows(rows);
    assert (set i | 0 <= i < |rows| && !Readable(rows[i]) && !SaysMissing(rows[i])) == {};
  }

  predicate SpeaksOf(row: RawRow, day: int) {
    Readable(row) && row.date == Some(day)
  }

  function ReadOn(day: int): RawRow -> Option<Vintage> {
    row => if SpeaksOf(row, day) then Read(row) else None
  }

  lemma SpeakersAreRead(row: RawRow, day: int)
    requires SpeaksOf(row, day)
    ensures ReadOn(day)(row).Some?
  {
  }

  lemma {:induction false} DayRows(rows: seq<RawRow>, day: int)
    ensures WithKey(Collect(rows, Read), DayOf, day) == Collect(rows, ReadOn(day))
  {
    if rows == [] {
    } else {
      DayRows(rows[1..], day);
      var rest := Collect(rows[1..], Read);
      if Read(rows[0]).Some? {
        var v := Read(rows[0]).value;
        assert ([v] + rest)[1..] == rest;
        assert DayOf(v) == Some(day) <==> v.day == day;
      }
    }
  }

  ghost predicate SpokenTwice(rows: seq<RawRow>, day: int) {
    exists i, j :: 0 <= i < j < |rows| && SpeaksOf(rows[i], day) && SpeaksOf(rows[j], day)
  }

  lemma CrowdedIff(rows: seq<RawRow>, day: int)
    ensures |ForDay(Collect(rows, Read), day)| > 1 <==> SpokenTwice(rows, day)
  {
    hide Read, Collect, SpeaksOf, WithKey, SortBy, PassOnlyAt;
    DayRows(rows, day);
    var at := CollectPositions(rows, ReadOn(day));
    if |at| > 1 { assert SpeaksOf(rows[at[0]], day) && SpeaksOf(rows[at[1]], day) && at[0] < at[1]; }
    if i, j :| 0 <= i < j < |rows| && SpeaksOf(rows[i], day) && SpeaksOf(rows[j], day) {
      BothPass(rows, day, at, i, j);
    }
  }

  lemma BothPass(rows: seq<RawRow>, day: int, at: seq<nat>, i: nat, j: nat)
    requires i < j < |rows| && SpeaksOf(rows[i], day) && SpeaksOf(rows[j], day) && PassOnlyAt(rows, ReadOn(day), at)
    ensures |at| > 1
  {
    hide Read, SpeaksOf;
    SpeakersAreRead(rows[i], day);
    SpeakersAreRead(rows[j], day);
    assert i in at && j in at;
  }

  lemma DaysReported(vs: seq<Vintage>, day: int)
    ensures TooManyCurrent(day) in Collect(Keys(vs, DayOf), d => CrowdedDay(vs, d)) <==> |ForDay(vs, day)| > 1
  {
    hide Keys, WithKey, SortBy;
    var days, f := Keys(vs, DayOf), d => CrowdedDay(vs, d);
    KeysMember(vs, DayOf, day);
    if f(day).Some? && day in days { CollectMember(days, f, day); }
    if TooManyCurrent(day) in Collect(days, f) { var k := CollectedAt(days, f, TooManyCurrent(day)); }
  }

  lemma OnlyBadRows(rows: seq<RawRow>)
    ensures forall w :: w in Collect(rows, RowWarning) ==> w == BadRow
  {
    var warnings := Collect(rows, RowWarning);
    forall i | 0 <= i < |warnings| ensures warnings[i] == BadRow {
      var k := CollectFrom(rows, RowWarning, i);
    }
  }

  // Without vintages a day may have one row: TooManyCurrent is said of exactly the days with more.
  lemma CrowdedDaysReported(rows: seq<RawRow>, day: int)
    ensures TooManyCurrent(day) in ParseRows(rows, false).warnings <==> SpokenTwice(rows, day)
    ensures TooManyCurrent(day) !in ParseRows(rows, true).warnings
  {
    hide Read, RowWarning, Collect, SpokenTwice, ForDay, Keys, CrowdedDay, Emit;
    var vs := Collect(rows, Read);
    OnlyBadRows(rows);
    DaysReported(vs, day);
    CrowdedIff(rows, day);
  }

  function ObservedDay(o: Observation): Option<int> {
    Some(o.vintage.day)
  }

  lemma RankedIsOneDay(vs: seq<Vintage>, day: int, other: int, aware: bool)
    ensures WithKey(Ranked(ForDay(vs, day), aware), ObservedDay, other) ==
            if day == other then Ranked(ForDay(vs, day), aware) else []
  {
    var s, f := Ranked(ForDay(vs, day), aware), Keyed(ObservedDay, other);
    ForDayIsThatDay(vs, day);
    forall i | 0 <= i < |s| ensures f(s[i]) == if day == other then Some(s[i]) else None {
      assert ObservedDay(s[i]) == Some(other) <==> day == other;
    }
    if day == other { CollectAll(s, f); } else { CollectNone(s, f); }
  }

  lemma ForDayIsThatDay(vs: seq<Vintage>, day: int)
    ensures forall i :: 0 <= i < |ForDay(vs, day)| ==> ForDay(vs, day)[i].day == day
  {
    var group := WithKey(vs, DayOf, day);
    WithKeyHasKey(vs, DayOf, day);
    forall i | 0 <= i < |group| ensures group[i].day == day {
      assert DayOf(group[i]) == Some(day);
    }
    SortKeeps(group, SinceOrder(), (v: Vintage) => v.day == day);
  }

  lemma {:induction false} EmitPerDay(vs: seq<Vintage>, days: seq<int>, day: int, aware: bool)
    requires NoRepeats(days)
    ensures WithKey(Emit(vs, days, aware), ObservedDay, day) ==
            if day in days then Ranked(ForDay(vs, day), aware) else []
  {
    hide WithKey, Ranked, ForDay, ObservedDay;
    if days == [] {
      NothingWithKey(ObservedDay, day);
    } else {
      var rest, last := days[..|days| - 1], days[|days| - 1];
      EmitPerDay(vs, rest, day, aware);
      WithKeyConcat(Emit(vs, rest, aware), Ranked(ForDay(vs, last), aware), ObservedDay, day);
      RankedIsOneDay(vs, last, day, aware);
      assert days == rest + [last] && last !in rest;
      var ranked := Ranked(ForDay(vs, day), aware);
      assert [] + ranked == ranked && ranked + [] == ranked;
    }
  }

  // Each day's observations are that day's usable rows, ranked by realtime_start.
  lemma DayObservations(rows: seq<RawRow>, day: int, aware: bool)
    ensures WithKey(ParseRows(rows, aware).observations, ObservedDay, day) ==
            Ranked(ForDay(Collect(rows, Read), day), aware)
  {
    var vs := Collect(rows, Read);
    KeysDistinct(vs, DayOf);
    KeysMember(vs, DayOf, day);
    EmitPerDay(vs, Keys(vs, DayOf), day, aware);
  }

  lemma SinceIsPreorder()
    ensures TotalPreorder(SinceOrder())
  {
  }

  // Revision numbers run 0..k-1 over a day's k usable rows, in non-decreasing realtime_start;
  // without vintage awareness there are none.
  lemma RevisionsInOrder(rows: seq<RawRow>, day: int, aware: bool)
    ensures var os := WithKey(ParseRows(rows, aware).observations, ObservedDay, day);
            && |os| == |WithKey(Collect(rows, Read), DayOf, day)|
            && (forall i :: 0 <= i < |os| ==> os[i].revision == if aware then Some(i) else None)
            && (forall i, j :: 0 <= i < j < |os| ==> os[i].vintage.since <= os[j].vintage.since)
  {
    DayObservations(rows, day, aware);
    SinceIsPreorder();
    var s := ForDay(Collect(rows, Read), day);
    SortSorted(WithKey(Collect(rows, Read), DayOf, day), SinceOrder());
    forall i, j | 0 <= i < j < |s| ensures s[i].since <= s[j].since {
      assert SinceOrder()(s[i], s[j]);
    }
  }

  // No two usable rows of a day claim different values since the same date.
  ghost predicate Unambiguous(rows: seq<RawRow>, day: int) {
    var vs := WithKey(Collect(rows, Read), DayOf, day);
    forall x, y :: x in vs && y in vs && x.since == y.since ==> x == y
  }

  // Then a day's result does not depend on the order in which the rows arrive.
  lemma ArrivalOrderIrrelevant(rows: seq<RawRow>, other: seq<RawRow>, day: int, aware: bool)
    requires multiset(rows) == multiset(other) && Unambiguous(rows, day)
    ensures WithKey(ParseRows(rows, aware).observations, ObservedDay, day) ==
            WithKey(ParseRows(other, aware).observations, ObservedDay, day)
  {
    DayObservations(rows, day, aware);
    DayObservations(other, day, aware);
    CollectPermutation(rows, other, Read);
    CollectPermutation(Collect(rows, Read), Collect(other, Read), Keyed(DayOf, day));
    SinceIsPreorder();
    SortPermutation(WithKey(Collect(rows, Read), DayOf, day), WithKey(Collect(other, Read), DayOf, day), SinceOrder());
  }

  function SinceIs(since: int): Vintage -> Option<Vintage> {
    (v: Vintage) => if v.since == since then Some(v) else None
  }

  function EmittedSince(since: int): Observation -> Option<Vintage> {
    (o: Observation) => if o.vintage.since == since then Some(o.vintage) else None
  }

  // Vintages of a day with one realtime_start come out in the order in which they arrived, however many.
  lemma TiesKeepArrival(rows: seq<RawRow>, day: int, since: int, aware: bool)
    ensures Collect(WithKey(ParseRows(rows, aware).observations, ObservedDay, day), EmittedSince(since)) ==
            Collect(WithKey(Collect(rows, Read), DayOf, day), SinceIs(since))
  {
    hide ParseRows, Read;
    var vs := WithKey(Collect(rows, Read), DayOf, day);
    DayObservations(rows, day, aware);
    RankedSince(SortBy(vs, SinceOrder()), since, aware);
    SortStable(vs, SinceOrder(), SinceIs(since));
  }

  lemma {:induction false} RankedSince(vs: seq<Vintage>, since: int, aware: bool)
    ensures Collect(Ranked(vs, aware), EmittedSince(since)) == Collect(vs, SinceIs(since))
  {
    if vs == [] {
    } else {
      var front, last := vs[..|vs| - 1], vs[|vs| - 1];
      var o := Ranked(vs, aware)[|vs| - 1];
      RankedSince(front, since, aware);
      assert Ranked(vs, aware) == Ranked(front, aware) + [o] && vs == front + [last];
      CollectAppend(Ranked(front, aware), o, EmittedSince(since));
      CollectAppend(front, last, SinceIs(since));
    }
  }

  // Moving one usable row to the front of the arrivals.
  lemma FirstArrival(rows: seq<RawRow>, i: nat, day: int) returns (moved: seq<RawRow>, rest: seq<Vintage>)
    requires i < |rows| && Read(rows[i]).Some? && Read(rows[i]).value.day == day
    ensures multiset(moved) == multiset(rows)
    ensures Collect(WithKey(Collect(moved, Read), DayOf, day), SinceIs(Read(rows[i]).value.since)) ==
            [Read(rows[i]).value] + rest
  {
    hide Read;
    var x := Read(rows[i]).value;
    moved := [rows[i]] + (rows[..i] + rows[i + 1..]);
    assert rows == rows[..i] + [rows[i]] + rows[i + 1..];
    assert moved[1..] == rows[..i] + rows[i + 1..];
    var later := Collect(moved[1..], Read);
    assert Collect(moved, Read) == [x] + later;
    assert ([x] + later)[1..] == later && Keyed(DayOf, day)(x) == Some(x) by { assert DayOf(x) == Some(day); }
    var tail := WithKey(later, DayOf, day);
    assert WithKey([x] + later, DayOf, day) == [x] + tail && ([x] + tail)[1..] == tail;
    rest := Collect(tail, SinceIs(x.since));
  }

  ghost predicate SameDay(rows: seq<RawRow>, other: seq<RawRow>, day: int, aware: bool) {
    WithKey(ParseRows(rows, aware).observations, ObservedDay, day) ==
    WithKey(ParseRows(other, aware).observations, ObservedDay, day)
  }

  // A day's result is independent of the order of arrival iff no two of its usable rows claim different
  // values since the same date.
  lemma ArrivalOrderIff(rows: seq<RawRow>, day: int, aware: bool)
    ensures (forall other :: multiset(other) == multiset(rows) ==> SameDay(rows, other, day, aware)) <==>
            Unambiguous(rows, day)
  {
    hide ParseRows, Read;
    if Unambiguous(rows, day) {
      forall other | multiset(other) == multiset(rows) ensures SameDay(rows, other, day, aware) {
        ArrivalOrderIrrelevant(rows, other, day, aware);
      }
    } else {
      var i, j := RivalRows(rows, day);
      var a, restA := FirstArrival(rows, i, day);
      var b, restB := FirstArrival(rows, j, day);
      var since := Read(rows[i]).value.since;
      TiesKeepArrival(rows, day, since, aware);
      TiesKeepArrival(a, day, since, aware);
      TiesKeepArrival(b, day, since, aware);
      assert ([Read(rows[i]).value] + restA)[0] != ([Read(rows[j]).value] + restB)[0];
      assert !(SameDay(rows, a, day, aware) && SameDay(rows, b, day, aware));
    }
  }

  lemma RivalRows(rows: seq<RawRow>, day: int) returns (i: nat, j: nat)
    requires !Unambiguous(rows, day)
    ensures i < |rows| && j < |rows| && Read(rows[i]).Some? && Read(rows[j]).Some?
    ensures var x, y := Read(rows[i]).value, Read(rows[j]).value; x.day == y.day == day && x.since == y.since && x != y
  {
    hide Read;
    var vs := Collect(rows, Read);
    WithKeyHasKey(vs, DayOf, day);
    var x, y :| x in WithKey(vs, DayOf, day) && y in WithKey(vs, DayOf, day) && x.since == y.since && x != y;
    assert DayOf(x) == Some(day) && DayOf(y) == Some(day);
    var m: nat :| m < |vs| && vs[m] == x;
    var n: nat :| n < |vs| && vs[n] == y;
    i := CollectFrom(rows, Read, m);
    j := CollectFrom(rows, Read, n);
  }

  // Otherwise arrival order decides: of two values since the same date, the first to arrive is
  // revision 0 and the later one counts as its revision.
  lemma TiesFollowArrival(day: int, since: int, v: real, w: real)
    ensures var a, b := RawRow(Value(v), Some(day), Since(since)), RawRow(Value(w), Some(day), Since(since));
            var x, y := Vintage(day, since, v), Vintage(day, since, w);
            && ParseRows([a, b], true).observations == [Observation(x, Some(0)), Observation(y, Some(1))]
            && ParseRows([b, a], true).observations == [Observation(y, Some(0)), Observation(x, Some(1))]
  {
    TiedPair(day, since, v, w);
    TiedPair(day, since, w, v);
  }

  lemma TiedPair(day: int, since: int, v: real, w: real)
    ensures var a, b := RawRow(Value(v), Some(day), Since(since)), RawRow(Value(w), Some(day), Since(since));
            ParseRows([a, b], true).observations ==
            [Observation(Vintage(day, since, v), Some(0)), Observation(Vintage(day, since, w), Some(1))]
  {
    hide Keys, WithKey, SortBy, Read, DayOf, SinceOrder;
    var a, b := RawRow(Value(v), Some(day), Since(since)), RawRow(Value(w), Some(day), Since(since));
    var vs := [Vintage(day, since, v), Vintage(day, since, w)];
    PairRead(day, since, v, w);
    PairGroup(day, since, v, w);
    PairSorted(day, since, v, w);
    assert [day][..0] == [];
    assert Emit(vs, [day], true) == [] + Ranked(vs, true);
  }

  lemma PairRead(day: int, since: int, v: real, w: real)
    ensures Collect([RawRow(Value(v), Some(day), Since(since)), RawRow(Value(w), Some(day), Since(since))], Read) ==
            [Vintage(day, since, v), Vintage(day, since, w)]
  {
    CollectTwo(RawRow(Value(v), Some(day), Since(since)), RawRow(Value(w), Some(day), Since(since)), Read);
  }

  lemma PairGroup(day: int, since: int, v: real, w: real)
    ensures var vs := [Vintage(day, since, v), Vintage(day, since, w)];
            Keys(vs, DayOf) == [day] && WithKey(vs, DayOf, day) == vs
  {
    var x, y := Vintage(day, since, v), Vintage(day, since, w);
    assert [x, y][..1] == [x] && [x][..0] == [];
    assert Keys([x], DayOf) == [day];
    assert DayOf(x) == Some(day) && DayOf(y) == Some(day);
    CollectTwo(x, y, Keyed(DayOf, day));
  }

  lemma PairSorted(day: int, since: int, v: real, w: real)
    ensures var vs := [Vintage(day, since, v), Vintage(day, since, w)]; SortBy(vs, SinceOrder()) == vs
  {
    var x, y := Vintage(day, since, v), Vintage(day, since, w);
    assert [x, y][1..] == [y] && [y][1..] == [];
    assert SortBy([y], SinceOrder()) == [y];
    assert SinceOrder()(x, y);
  }
}
