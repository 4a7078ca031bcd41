/**
Two-ended pagination of one BNP book: `_fetch_one_direction` and `_fetch_all_pages`
in src/turboedge/adapters/issuer_feeds.py. The backend is a function from offset
and direction to a response.
*/
module BnpPagination {
  import opened Ints
  import opened Sequences
  import opened Sorting
  import opened Wrappers

  datatype Item = Item(isin: Option<string>, leverage: int)

  datatype Response = HttpError | BadShape | Page(items: seq<Item>, total: Option<int>)

  datatype FetchError = FirstPageFailed | UnexpectedShape

  // Offset and "descending".
  type Server = (int, bool) -> Response

  datatype Pass = Pass(collected: seq<Item>, total: Option<int>, hitCeiling: bool)

  // ---- One direction ----

  // The page loop from page k on.
  function PassFrom(server: Server, descending: bool, maxPages: nat, pageSize: nat, k: nat, so: Pass)
    : (r: Result<Pass, FetchError>)
    requires k <= maxPages
    decreases maxPages - k
  {
    if k == maxPages then Ok(so.(hitCeiling := false))
    else
      var offset := k * pageSize;
      match server(offset, descending)
      case HttpError => if k == 0 then Err(FirstPageFailed) else Ok(so.(hitCeiling := true))
      case BadShape => Err(UnexpectedShape)
      case Page(items, total) =>
        var next := so.(collected := so.collected + items, total := total);
        if |items| < pageSize || (total.Some? && offset + |items| >= total.value) then Ok(next)
        else PassFrom(server, descending, maxPages, pageSize, k + 1, next)
  }

  function OneDirection(server: Server, descending: bool, maxPages: nat, pageSize: nat): Result<Pass, FetchError> {
    PassFrom(server, descending, maxPages, pageSize, 0, Pass([], None, false))
  }

  method FetchOneDirection(server: Server, descending: bool, maxPages: nat, pageSize: nat)
    returns (r: Result<Pass, FetchError>)
    ensures r == OneDirection(server, descending, maxPages, pageSize)
  {
    var collected, total, hitCeiling := [], None, false;
    var k := 0;
    while k < maxPages
      invariant k <= maxPages && !hitCeiling
      invariant OneDirection(server, descending, maxPages, pageSize) ==
                PassFrom(server, descending, maxPages, pageSize, k, Pass(collected, total, false))
    {
      var offset := k * pageSize;
      match server(offset, descending)
      case HttpError =>
        if k == 0 {
          return Err(FirstPageFailed);
        }
        return Ok(Pass(collected, total, true));
      case BadShape =>
        return Err(UnexpectedShape);
      case Page(items, pageTotal) =>
        total := pageTotal;
        collected := collected + items;
        if |items| < pageSize || (total.Some? && offset + |items| >= total.value) {
          return Ok(Pass(collected, total, false));
        }
        k := k + 1;
    }
    return Ok(Pass(collected, total, hitCeiling));
  }

  // ---- Merging both directions by ISIN ----

  // A dictionary in insertion order.
  datatype ByIsin = ByIsin(order: seq<string>, items: map<string, Item>)

  function Put(d: ByIsin, isin: string, item: Item): ByIsin {
    ByIsin(if isin in d.items then d.order else d.order + [isin], d.items[isin := item])
  }

  ghost predicate Ordered(d: ByIsin) {
    forall k :: k in d.order <==> k in d.items
  }

  function AddAll(items: seq<Item>): (d: ByIsin)
    ensures Ordered(d)
  {
    if items == [] then ByIsin([], map[])
    else
      var d, last := AddAll(items[..|items| - 1]), items[|items| - 1];
      if last.isin.Some? then Put(d, last.isin.value, last) else d
  }

  function AddMissing(d: ByIsin, items: seq<Item>): (r: ByIsin)
    requires Ordered(d)
    ensures Ordered(r)
  {
    if items == [] then d
    else
      var r, last := AddMissing(d, items[..|items| - 1]), items[|items| - 1];
      if last.isin.Some? && last.isin.value !in r.items then Put(r, last.isin.value, last) else r
  }

  function Values(d: ByIsin): (r: seq<Item>)
    requires Ordered(d)
    ensures |r| == |d.order|
  {
    seq(|d.order|, i requires 0 <= i < |d.order| => assert d.order[i] in d.items; d.items[d.order[i]])
  }

  function Merged(ascending: seq<Item>, descending: seq<Item>): seq<Item> {
    Values(AddMissing(AddAll(ascending), descending))
  }

  method MergeByIsin(ascending: seq<Item>, descending: seq<Item>) returns (merged: seq<Item>, recovered: nat)
    ensures merged == Merged(ascending, descending)
    ensures |merged| == |AddAll(ascending).order| + recovered
  {
    var d := ByIsin([], map[]);
    for i := 0 to |ascending|
      invariant d == AddAll(ascending[..i])
    {
      assert ascending[..i + 1][..i] == ascending[..i];
      var isin := ascending[i].isin;
      if isin.Some? {
        d := Put(d, isin.value, ascending[i]);
      }
    }
    assert ascending[..|ascending|] == ascending;
    recovered := 0;
    for i := 0 to |descending|
      invariant d == AddMissing(AddAll(ascending), descending[..i])
      invariant |d.order| == |AddAll(ascending).order| + recovered
    {
      assert descending[..i + 1][..i] == descending[..i];
      var isin := descending[i].isin;
      if isin.Some? && isin.value !in d.items {
        d := Put(d, isin.value, descending[i]);
        recovered := recovered + 1;
      }
    }
    assert descending[..|descending|] == descending;
    merged := Values(d);
  }

  datatype Fetched = Fetched(items: seq<Item>, total: Option<int>, bothEnds: bool)

  function AllPages(server: Server, maxPages: nat, pageSize: nat): (r: Result<Fetched, FetchError>) {
    match OneDirection(server, false, maxPages, pageSize)
    case Err(e) => Err(e)
    case Ok(up) =>
      if !up.hitCeiling || up.total.None? || |up.collected| >= up.total.value then
        Ok(Fetched(up.collected, up.total, false))
      else
        match OneDirection(server, true, maxPages, pageSize)
        case Err(e) => Err(e)
        case Ok(down) => Ok(Fetched(Merged(up.collected, down.collected), up.total, true))
  }

  method FetchAllPages(server: Server, maxPages: nat, pageSize: nat) returns (r: Result<Fetched, FetchError>)
    ensures r == AllPages(server, maxPages, pageSize)
  {
    var up := FetchOneDirection(server, false, maxPages, pageSize);
    if up.Err? {
      return Err(up.error);
    }
    var pass := up.value;
    if !pass.hitCeiling || pass.total.None? || |pass.collected| >= pass.total.value {
      return Ok(Fetched(pass.collected, pass.total, false));
    }
    var down := FetchOneDirection(server, true, maxPages, pageSize);
    if down.Err? {
      return Err(down.error);
    }
    var merged, recovered := MergeByIsin(pass.collected, down.value.collected);
    return Ok(Fetched(merged, pass.total, true));
  }

  // ---- How a pass over any backend ends ----

  // The page is full and, by its total, not the last.
  predicate GoesOn(r: Response, offset: int, pageSize: nat) {
    r.Page? && |r.items| >= pageSize && (r.total.Some? ==> offset + |r.items| < r.total.value)
  }

  function PagesUpTo(server: Server, descending: bool, pageSize: nat, n: nat): seq<Item> {
    if n == 0 then []
    else
      var r := server((n - 1) * pageSize, descending);
      PagesUpTo(server, descending, pageSize, n - 1) + if r.Page? then r.items else []
  }

  function TotalAt(server: Server, descending: bool, pageSize: nat, n: nat): Option<int> {
    if n == 0 then None
    else
      var r := server((n - 1) * pageSize, descending);
      if r.Page? then r.total else None
  }

  ghost predicate FirstStop(server: Server, descending: bool, maxPages: nat, pageSize: nat, n: nat) {
    && n <= maxPages
    && (forall k: nat :: k < n ==> GoesOn(server(k * pageSize, descending), k * pageSize, pageSize))
    && (n < maxPages ==> !GoesOn(server(n * pageSize, descending), n * pageSize, pageSize))
  }

  lemma {:induction false} PassReaches(server: Server, descending: bool, maxPages: nat, pageSize: nat, k: nat)
    requires k <= maxPages
    requires forall j: nat :: j < k ==> GoesOn(server(j * pageSize, descending), j * pageSize, pageSize)
    ensures OneDirection(server, descending, maxPages, pageSize) ==
            PassFrom(server, descending, maxPages, pageSize, k,
                     Pass(PagesUpTo(server, descending, pageSize, k), TotalAt(server, descending, pageSize, k), false))
  {
    if k == 0 {
    } else {
      PassReaches(server, descending, maxPages, pageSize, k - 1);
      assert GoesOn(server((k - 1) * pageSize, descending), (k - 1) * pageSize, pageSize);
    }
  }

  // A pass hands over all pages before the first that is not full or is the last by its total, and that one too.
  // A refused request makes the pass a failure if it is the first, and a pass cut at the ceiling if it is not; a
  // reply of another shape makes it a failure wherever it comes.
  lemma PassEnds(server: Server, descending: bool, maxPages: nat, pageSize: nat, n: nat)
    requires FirstStop(server, descending, maxPages, pageSize, n)
    ensures var before, total := PagesUpTo(server, descending, pageSize, n), TotalAt(server, descending, pageSize, n);
            OneDirection(server, descending, maxPages, pageSize) ==
            if n == maxPages then Ok(Pass(before, total, false))
            else
              match server(n * pageSize, descending)
              case HttpError => if n == 0 then Err(FirstPageFailed) else Ok(Pass(before, total, true))
              case BadShape => Err(UnexpectedShape)
              case Page(items, last) => Ok(Pass(before + items, last, false))
  {
    PassReaches(server, descending, maxPages, pageSize, n);
  }

  // An outage is an error, not an empty book: at the first request of all, and at the first of the second pass.
  lemma OutageIsAnError(server: Server, maxPages: nat, pageSize: nat)
    requires maxPages > 0
    ensures server(0, false) == HttpError ==> AllPages(server, maxPages, pageSize) == Err(FirstPageFailed)
    ensures AllPages(server, maxPages, pageSize).Ok? && AllPages(server, maxPages, pageSize).value.bothEnds ==>
              server(0, true) != HttpError
  {
    hide PassFrom, Merged;
    assert 0 * pageSize == 0;
    if server(0, false) == HttpError { PassEnds(server, false, maxPages, pageSize, 0); }
    if server(0, true) == HttpError { PassEnds(server, true, maxPages, pageSize, 0); }
  }

  // When the second pass is made, and what the fetch then hands over: the rows of the first pass alone if it was
  // not cut at the ceiling, knows no total or has reached it; else the merge of both, under the first one's total.
  lemma SecondPassIff(server: Server, maxPages: nat, pageSize: nat)
    ensures var up := OneDirection(server, false, maxPages, pageSize);
            var down := OneDirection(server, true, maxPages, pageSize);
            var r := AllPages(server, maxPages, pageSize);
            && (up.Err? ==> r == Err(up.error))
            && (up.Ok? ==>
                var pass := up.value;
                var short := pass.hitCeiling && exists n :: pass.total == Some(n) && |pass.collected| < n;
                && (!short ==> r == Ok(Fetched(pass.collected, pass.total, false)))
                && (short && down.Err? ==> r == Err(down.error))
                && (short && down.Ok? ==> r.Ok? && r.value.bothEnds && r.value.total == pass.total
                                          && r.value.items == Merged(pass.collected, down.value.collected)))
  {
    hide PassFrom, Merged;
  }

  // ---- What the merge keeps of lists with repetitions ----

  ghost predicate LastOf(items: seq<Item>, x: Item) {
    exists i :: 0 <= i < |items| && items[i] == x && forall j :: i < j < |items| ==> items[j].isin != x.isin
  }

  ghost predicate FirstOf(items: seq<Item>, x: Item) {
    exists i :: 0 <= i < |items| && items[i] == x && forall j :: 0 <= j < i ==> items[j].isin != x.isin
  }

  ghost predicate Holds(d: ByIsin, isin: string, x: Item) {
    isin in d.items && d.items[isin] == x
  }

  lemma LastOfAppend(items: seq<Item>, last: Item, x: Item)
    ensures LastOf(items + [last], x) <==> x == last || (LastOf(items, x) && last.isin != x.isin)
  {
    var all := items + [last];
    if x == last { assert all[|items|] == x; }
    if LastOf(all, x) && x != last {
      var i :| 0 <= i < |all| && all[i] == x && forall j :: i < j < |all| ==> all[j].isin != x.isin;
      assert items[i] == x && all[|items|].isin != x.isin;
      forall j | i < j < |items| ensures items[j].isin != x.isin { assert all[j] == items[j]; }
    }
    if LastOf(items, x) && last.isin != x.isin {
      var i :| 0 <= i < |items| && items[i] == x && forall j :: i < j < |items| ==> items[j].isin != x.isin;
      assert all[i] == x;
    }
  }

  lemma FirstOfAppend(items: seq<Item>, last: Item, x: Item)
    ensures FirstOf(items + [last], x) <==> FirstOf(items, x) || (x == last && !HasIsin(items, x.isin))
  {
    var all := items + [last];
    if FirstOf(all, x) {
      var i :| 0 <= i < |all| && all[i] == x && forall j :: 0 <= j < i ==> all[j].isin != x.isin;
      forall j | 0 <= j < i ensures items[j].isin != x.isin { assert all[j] == items[j]; }
    }
    if FirstOf(items, x) {
      var i :| 0 <= i < |items| && items[i] == x && forall j :: 0 <= j < i ==> items[j].isin != x.isin;
      assert all[i] == x;
    }
    if x == last && !HasIsin(items, x.isin) { assert all[|items|] == x; }
  }

  lemma {:induction false} AddAllHolds(items: seq<Item>, isin: string, x: Item)
    ensures Holds(AddAll(items), isin, x) <==> x.isin == Some(isin) && LastOf(items, x)
    ensures isin in AddAll(items).items <==> HasIsin(items, Some(isin))
  {
    hide LastOf;
    if items == [] {
      assert !LastOf([], x) by { NothingIsLast(x); }
    } else {
      var rest, last := items[..|items| - 1], items[|items| - 1];
      AddAllHolds(rest, isin, x);
      LastOfAppend(rest, last, x);
      HasIsinAppend(rest, last);
      assert items == rest + [last];
    }
  }

  lemma NothingIsLast(x: Item)
    ensures !LastOf([], x) && !FirstOf([], x)
  {
  }

  lemma {:induction false} AddMissingHolds(d: ByIsin, items: seq<Item>, isin: string, x: Item)
    requires Ordered(d)
    ensures Holds(AddMissing(d, items), isin, x) <==>
            Holds(d, isin, x) || (isin !in d.items && x.isin == Some(isin) && FirstOf(items, x))
    ensures isin in AddMissing(d, items).items <==> isin in d.items || HasIsin(items, Some(isin))
  {
    hide FirstOf, HasIsin;
    if items == [] {
      NothingIsLast(x);
      NobodyHasIsin();
    } else {
      var rest, last := items[..|items| - 1], items[|items| - 1];
      AddMissingHolds(d, rest, isin, x);
      FirstOfAppend(rest, last, x);
      HasIsinAppend(rest, last);
      FirstHasIsin(rest, x);
      assert items == rest + [last];
    }
  }

  lemma FirstHasIsin(items: seq<Item>, x: Item)
    ensures FirstOf(items, x) ==> HasIsin(items, x.isin)
  {
  }

  // Of any two lists, repetitions included, the merge keeps for each ISIN the last ascending row, or, where the
  // ascending rows lack it, the first descending one; rows without an ISIN are dropped.
  lemma MergedIff(up: seq<Item>, down: seq<Item>, x: Item)
    ensures x in Merged(up, down) <==>
            x.isin.Some? && (LastOf(up, x) || (!HasIsin(up, x.isin) && FirstOf(down, x)))
  {
    hide LastOf, FirstOf, HasIsin, AddAll, AddMissing;
    var d := AddMissing(AddAll(up), down);
    forall isin ensures Holds(d, isin, x) <==>
                        x.isin == Some(isin) && (LastOf(up, x) || (!HasIsin(up, Some(isin)) && FirstOf(down, x)))
    {
      AddAllHolds(up, isin, x);
      AddMissingHolds(AddAll(up), down, isin, x);
    }
    ValuesHold(d, x);
  }

  // Each ISIN comes out once.
  lemma MergedOnce(up: seq<Item>, down: seq<Item>)
    ensures Distinct(Merged(up, down))
  {
    hide LastOf, FirstOf, AddAll, AddMissing;
    var d := AddMissing(AddAll(up), down);
    AddAllOnce(up);
    AddMissingOnce(AddAll(up), down);
    forall i | 0 <= i < |d.order| ensures Values(d)[i].isin == Some(d.order[i]) {
      var isin := d.order[i];
      assert Holds(d, isin, d.items[isin]);
      AddAllHolds(up, isin, d.items[isin]);
      AddMissingHolds(AddAll(up), down, isin, d.items[isin]);
    }
  }

  lemma {:induction false} AddAllOnce(items: seq<Item>)
    ensures NoRepeats(AddAll(items).order)
  {
    if items == [] {
    } else {
      AddAllOnce(items[..|items| - 1]);
    }
  }

  lemma {:induction false} AddMissingOnce(d: ByIsin, items: seq<Item>)
    requires Ordered(d) && NoRepeats(d.order)
    ensures NoRepeats(AddMissing(d, items).order)
  {
    if items == [] {
    } else {
      AddMissingOnce(d, items[..|items| - 1]);
    }
  }

  lemma ValuesHold(d: ByIsin, x: Item)
    requires Ordered(d)
    ensures x in Values(d) <==> exists isin :: Holds(d, isin, x)
  {
    if x in Values(d) {
      var i :| 0 <= i < |d.order| && Values(d)[i] == x;
      assert Holds(d, d.order[i], x);
    }
    if isin :| Holds(d, isin, x) {
      var i :| 0 <= i < |d.order| && d.order[i] == isin;
      assert Values(d)[i] == x;
    }
  }

  // ---- A backend with a hard offset ceiling ----

  function ListPage(list: seq<Item>, ceiling: int, pageSize: nat, offset: int): Response {
    if offset < 0 || offset >= ceiling then HttpError
    else Page(list[Min(offset, |list|)..Min(offset + pageSize, |list|)], Some(|list|))
  }

  // Serves one list per direction, page by page, and refuses every offset from the ceiling on.
  function ListServer(up: seq<Item>, down: seq<Item>, ceiling: int, pageSize: nat): Server {
    (offset, descending) => ListPage(if descending then down else up, ceiling, pageSize, offset)
  }

  // The first page offset that the backend refuses.
  function Reach(ceiling: int, pageSize: nat): int
    requires pageSize > 0
  {
    (ceiling + pageSize - 1) / pageSize * pageSize
  }

  lemma ReachIsFirstRefused(ceiling: int, pageSize: nat, k: int, offset: int)
    requires pageSize > 0 && offset == k * pageSize
    ensures offset < ceiling ==> offset + pageSize <= Reach(ceiling, pageSize)
    ensures offset - pageSize < ceiling <= offset ==> Reach(ceiling, pageSize) == offset
    ensures ceiling <= Reach(ceiling, pageSize)
  {
    var x := ceiling + pageSize - 1;
    DivisionBounds(x, pageSize, 0);
    ProductOrder(pageSize, k, x / pageSize);
    ProductOrder(pageSize, x / pageSize, k);
  }

  lemma ReachPositive(ceiling: int, pageSize: nat)
    requires pageSize > 0 && ceiling > 0
    ensures Reach(ceiling, pageSize) > 0
  {
    ReachIsFirstRefused(ceiling, pageSize, 0, 0);
  }

  // How much of a list one pass can see.
  function Visible(n: nat, reach: int, limit: int): int {
    Min(n, Min(reach, limit))
  }

  lemma {:induction false} PassOverList(server: Server, list: seq<Item>, ceiling: int, maxPages: nat, pageSize: nat,
                                        descending: bool, k: nat, offset: nat, limit: nat, so: Pass)
    requires pageSize > 0 && ceiling > 0 && 1 <= maxPages && k <= maxPages && !so.hitCeiling
    requires limit == maxPages * pageSize
    requires offset == k * pageSize <= |list| && so.collected == list[..offset]
    requires k == 0 || (offset < |list| && offset - pageSize < ceiling && so.total == Some(|list|))
    requires forall o :: server(o, descending) == ListPage(list, ceiling, pageSize, o)
    ensures var reach := Reach(ceiling, pageSize);
            && 0 <= Visible(|list|, reach, limit) <= |list|
            && PassFrom(server, descending, maxPages, pageSize, k, so) ==
               Ok(Pass(list[..Visible(|list|, reach, limit)], Some(|list|), |list| > reach && reach < limit))
    decreases maxPages - k
  {
    hide Reach, ListPage;
    ReachIsFirstRefused(ceiling, pageSize, k, offset);
    OffsetBelowLimit(k, maxPages, pageSize);
    assert server(offset, descending) == ListPage(list, ceiling, pageSize, offset);
    if k == maxPages {
      ReachIsFirstRefused(ceiling, pageSize, k - 1, offset - pageSize);
    } else if offset < ceiling {
      var items := PageItems(list, ceiling, pageSize, offset);
      if offset + pageSize < |list| {
        PassOverList(server, list, ceiling, maxPages, pageSize, descending, k + 1, offset + pageSize, limit,
                     so.(collected := so.collected + items, total := Some(|list|)));
      } else {
        assert list[..|list|] == list;
      }
    } else {
      assert ListPage(list, ceiling, pageSize, offset) == HttpError by { PageRefused(list, ceiling, pageSize, offset); }
    }
  }

  lemma OffsetBelowLimit(k: nat, maxPages: nat, pageSize: nat)
    requires pageSize > 0 && k <= maxPages
    ensures (k + 1) * pageSize == k * pageSize + pageSize
    ensures (k - 1) * pageSize == k * pageSize - pageSize
    ensures k < maxPages ==> k * pageSize + pageSize <= maxPages * pageSize
  {
    ProductOrder(pageSize, k, maxPages);
  }

  lemma PageItems(list: seq<Item>, ceiling: int, pageSize: nat, offset: nat) returns (items: seq<Item>)
    requires offset < ceiling && offset <= |list|
    ensures ListPage(list, ceiling, pageSize, offset) == Page(items, Some(|list|))
    ensures list[..offset] + items == list[..Min(offset + pageSize, |list|)]
  {
    items := list[offset..Min(offset + pageSize, |list|)];
  }

  lemma PageRefused(list: seq<Item>, ceiling: int, pageSize: nat, offset: nat)
    requires ceiling <= offset
    ensures ListPage(list, ceiling, pageSize, offset) == HttpError
  {
  }

  lemma OneDirectionSees(up: seq<Item>, down: seq<Item>, ceiling: int, maxPages: nat, pageSize: nat, descending: bool)
    requires pageSize > 0 && ceiling > 0 && maxPages > 0
    ensures var list := if descending then down else up;
            var reach, limit := Reach(ceiling, pageSize), maxPages * pageSize;
            && 0 <= Visible(|list|, reach, limit) <= |list|
            && OneDirection(ListServer(up, down, ceiling, pageSize), descending, maxPages, pageSize) ==
               Ok(Pass(list[..Visible(|list|, reach, limit)], Some(|list|), |list| > reach && reach < limit))
  {
    var list := if descending then down else up;
    assert list[..0] == [];
    PassOverList(ListServer(up, down, ceiling, pageSize), list, ceiling, maxPages, pageSize, descending, 0, 0,
                 maxPages * pageSize, Pass([], None, false));
  }

  // Every product carries its own ISIN.
  ghost predicate Distinct(items: seq<Item>) {
    && (forall i :: 0 <= i < |items| ==> items[i].isin.Some?)
    && (forall i, j :: 0 <= i < j < |items| ==> items[i].isin != items[j].isin)
  }

  ghost predicate HasIsin(items: seq<Item>, isin: Option<string>) {
    exists i :: 0 <= i < |items| && items[i].isin == isin
  }

  lemma NotRepeated(items: seq<Item>)
    requires Distinct(items) && items != []
    ensures !HasIsin(items[..|items| - 1], items[|items| - 1].isin)
  {
  }

  lemma {:induction false} AddAllDistinct(items: seq<Item>)
    requires Distinct(items)
    ensures Values(AddAll(items)) == items
    ensures forall isin :: isin in AddAll(items).items <==> HasIsin(items, Some(isin))
  {
    hide HasIsin;
    if items == [] {
      NobodyHasIsin();
    } else {
      var rest, last := items[..|items| - 1], items[|items| - 1];
      AddAllDistinct(rest);
      NotRepeated(items);
      HasIsinAppend(rest, last);
      PutNew(AddAll(rest), last);
      assert items == rest + [last];
    }
  }

  lemma NobodyHasIsin()
    ensures forall isin :: !HasIsin([], isin)
  {
  }

  lemma HasIsinAppend(items: seq<Item>, last: Item)
    ensures forall isin :: HasIsin(items + [last], isin) <==> HasIsin(items, isin) || isin == last.isin
  {
    var all := items + [last];
    forall isin ensures HasIsin(all, isin) <==> HasIsin(items, isin) || isin == last.isin {
      if HasIsin(items, isin) {
        var i :| 0 <= i < |items| && items[i].isin == isin;
        assert all[i].isin == isin;
      }
      assert all[|items|] == last;
    }
  }

  lemma PutNew(d: ByIsin, item: Item)
    requires Ordered(d) && item.isin.Some? && item.isin.value !in d.items
    ensures Ordered(Put(d, item.isin.value, item))
    ensures Values(Put(d, item.isin.value, item)) == Values(d) + [item]
  {
  }

  function MissingFrom(items: seq<Item>, item: Item): Option<Item> {
    if forall i :: 0 <= i < |items| ==> items[i].isin != item.isin then Some(item) else None
  }

  lemma MissingIff(items: seq<Item>, item: Item)
    ensures MissingFrom(items, item) == if HasIsin(items, item.isin) then None else Some(item)
  {
  }

  // The merge keeps the ascending rows and appends the descending rows they lack.
  lemma {:induction false} MergeDistinct(up: seq<Item>, down: seq<Item>)
    requires Distinct(up) && Distinct(down)
    ensures Merged(up, down) == up + Collect(down, item => MissingFrom(up, item))
    ensures forall isin :: isin in AddMissing(AddAll(up), down).items <==>
            HasIsin(up, Some(isin)) || HasIsin(down, Some(isin))
  {
    hide HasIsin, MissingFrom;
    if down == [] {
      NobodyHasIsin();
      AddAllDistinct(up);
      assert up + [] == up;
    } else {
      var rest, last := down[..|down| - 1], down[|down| - 1];
      MergeDistinct(up, rest);
      var d := AddMissing(AddAll(up), rest);
      CollectAppend(rest, last, item => MissingFrom(up, item));
      assert down == rest + [last];
      HasIsinAppend(rest, last);
      NotRepeated(down);
      MissingIff(up, last);
      if last.isin.value !in d.items { PutNew(d, last); }
    }
  }

  // ---- Coverage ----

  lemma DistinctPrefix(items: seq<Item>, n: nat)
    requires Distinct(items) && n <= |items|
    ensures Distinct(items[..n])
  {
  }

  lemma DistinctReverse(items: seq<Item>)
    requires Distinct(items)
    ensures Distinct(Reverse(items))
  {
  }

  // Of the reversed prefix, exactly the part beyond the ascending prefix is new.
  lemma ReversedTail(book: seq<Item>, reach: nat)
    requires Distinct(book) && reach <= |book|
    ensures Collect(Reverse(book)[..reach], item => MissingFrom(book[..reach], item)) ==
            Reverse(book)[..Min(reach, |book| - reach)]
  {
    var up, down, f := book[..reach], Reverse(book), item => MissingFrom(book[..reach], item);
    var m := Min(reach, |book| - reach);
    forall i | 0 <= i < m ensures f(down[..m][i]) == Some(down[i]) {
      assert down[i] == book[|book| - 1 - i];
    }
    CollectAll(down[..m], f);
    forall i | 0 <= i < reach - m ensures f(down[m..reach][i]).None? {
      assert down[m..reach][i] == down[m + i] == up[|book| - 1 - m - i];
    }
    CollectNone(down[m..reach], f);
    assert down[..reach] == down[..m] + down[m..reach];
    CollectConcat(down[..m], down[m..reach], f);
    assert Collect(down[..m], f) == down[..m];
  }

  // Exactly what one fetch of a book returns, for every ceiling, page size and page limit:
  // a prefix if the backend never refuses, else the prefix below the ceiling followed by as much
  // of the other end.
  lemma FetchedExactly(book: seq<Item>, ceiling: int, maxPages: nat, pageSize: nat)
    requires Distinct(book) && pageSize > 0 && ceiling > 0 && maxPages > 0
    ensures var n, reach, limit := |book|, Reach(ceiling, pageSize), maxPages * pageSize;
            var both := n > reach && reach < limit;
            && 0 < reach
            && AllPages(ListServer(book, Reverse(book), ceiling, pageSize), maxPages, pageSize) ==
               Ok(Fetched(if both then book[..reach] + Reverse(book)[..Min(reach, n - reach)]
                          else book[..Min(n, limit)],
                          Some(n), both))
  {
    hide Merged, ListServer, Distinct, Collect, Reverse, PassFrom;
    var n, reach, limit := |book|, Reach(ceiling, pageSize), maxPages * pageSize;
    ReachPositive(ceiling, pageSize);
    OneDirectionSees(book, Reverse(book), ceiling, maxPages, pageSize, false);
    if n > reach && reach < limit {
      OneDirectionSees(book, Reverse(book), ceiling, maxPages, pageSize, true);
      DistinctPrefix(book, reach);
      DistinctReverse(book);
      DistinctPrefix(Reverse(book), reach);
      MergeDistinct(book[..reach], Reverse(book)[..reach]);
      ReversedTail(book, reach);
    }
  }

  // The whole book is covered, each product once, iff it fits twice below the ceiling (or, when the
  // local page limit bites first, within that limit).
  lemma CoverageIff(book: seq<Item>, ceiling: int, maxPages: nat, pageSize: nat)
    requires Distinct(book) && pageSize > 0 && ceiling > 0 && maxPages > 0
    ensures var reach, limit := Reach(ceiling, pageSize), maxPages * pageSize;
            var r := AllPages(ListServer(book, Reverse(book), ceiling, pageSize), maxPages, pageSize);
            r.Ok? && (multiset(r.value.items) == multiset(book) <==>
                    |book| <= if reach < limit then 2 * reach else limit)
  {
    hide Reach, AllPages, Distinct, ListServer, Reverse;
    var n, reach, limit := |book|, Reach(ceiling, pageSize), maxPages * pageSize;
    FetchedExactly(book, ceiling, maxPages, pageSize);
    if n > reach && reach < limit {
      BothEndsFull(book, reach);
    } else {
      PrefixFull(book, Min(n, limit));
    }
  }

  lemma PrefixFull(book: seq<Item>, m: nat)
    requires m <= |book|
    ensures multiset(book[..m]) == multiset(book) <==> m == |book|
  {
    if m == |book| { assert book[..m] == book; }
    if multiset(book[..m]) == multiset(book) { assert |multiset(book[..m])| == m && |multiset(book)| == |book|; }
  }

  lemma BothEndsFull(book: seq<Item>, reach: nat)
    requires reach < |book|
    ensures multiset(book[..reach] + Reverse(book)[..Min(reach, |book| - reach)]) == multiset(book) <==>
            |book| <= 2 * reach
  {
    hide Reverse;
    var n := |book|;
    var items := book[..reach] + Reverse(book)[..Min(reach, n - reach)];
    if n <= 2 * reach {
      TailReversed(book, reach);
      assert book == book[..reach] + book[reach..];
    }
    assert |multiset(items)| == |items| && |multiset(book)| == n;
  }

  lemma TailReversed(book: seq<Item>, reach: nat)
    requires reach <= |book|
    ensures multiset(Reverse(book)[..|book| - reach]) == multiset(book[reach..])
  {
    assert Reverse(book)[..|book| - reach] == Reverse(book[reach..]);
    ReverseContents(book[reach..]);
  }

  // ---- When the two directions only agree up to ties ----

  ghost predicate Ascending(items: seq<Item>) {
    forall i, j :: 0 <= i < j < |items| ==> items[i].leverage <= items[j].leverage
  }

  ghost predicate Descending(items: seq<Item>) {
    forall i, j :: 0 <= i < j < |items| ==> items[i].leverage >= items[j].leverage
  }

  lemma DistinctNoRepeats(items: seq<Item>)
    requires Distinct(items)
    ensures NoRepeats(items)
  {
    forall i, j | 0 <= i < j < |items| ensures items[i] != items[j] {
      assert items[i].isin != items[j].isin;
    }
  }

  lemma MergedHolds(up: seq<Item>, down: seq<Item>, item: Item)
    requires Distinct(up) && Distinct(down)
    requires item in up || (item in down && !HasIsin(up, item.isin))
    ensures item in Merged(up, down)
  {
    MergeDistinct(up, down);
    if item !in up {
      var f := x => MissingFrom(up, x);
      assert f(item) == Some(item);
      CollectMember(down, f, item);
    }
  }

  // Two passes over differently ordered ties can still miss a product of a book that fits twice
  // below the ceiling, but only one whose leverage equals that of a product both passes delivered.
  lemma OnlyTiesAreMissed(up: seq<Item>, down: seq<Item>, ceiling: int, maxPages: nat, pageSize: nat, missed: Item)
    returns (tied: Item)
    requires Distinct(up) && Distinct(down) && multiset(up) == multiset(down)
    requires Ascending(up) && Descending(down)
    requires pageSize > 0 && ceiling > 0 && maxPages > 0
    requires var reach := Reach(ceiling, pageSize); reach < maxPages * pageSize && |up| <= 2 * reach
    requires var r := AllPages(ListServer(up, down, ceiling, pageSize), maxPages, pageSize);
             missed in up && (r.Ok? ==> missed !in r.value.items)
    ensures 0 <= Reach(ceiling, pageSize) <= |up| == |down|
    ensures tied in up[..Reach(ceiling, pageSize)] && tied in down[..Reach(ceiling, pageSize)]
    ensures tied.leverage == missed.leverage && tied != missed
  {
    var reach := Reach(ceiling, pageSize);
    assert |up| == |multiset(up)| == |multiset(down)| == |down|;
    ReachIsFirstRefused(ceiling, pageSize, 0, 0);
    OneDirectionSees(up, down, ceiling, maxPages, pageSize, false);
    OneDirectionSees(up, down, ceiling, maxPages, pageSize, true);
    assert up[..|up|] == up;
    assert |up| > reach;
    var a, b := up[..reach], down[..reach];
    DistinctPrefix(up, reach);
    DistinctPrefix(down, reach);
    MissedByBoth(up, down, reach, missed);
    DistinctNoRepeats(up);
    DistinctNoRepeats(a);
    DistinctNoRepeats(b);
    forall y | y in b ensures y in up {
      assert y in multiset(down);
    }
    tied := OverlapOrMiss(up, a, b, missed);
    TiedAtTheCut(up, down, reach, tied, missed);
  }

  lemma MissedByBoth(up: seq<Item>, down: seq<Item>, reach: nat, missed: Item)
    requires Distinct(up) && reach <= |up| && reach <= |down| && missed in up
    requires Distinct(up[..reach]) && Distinct(down[..reach])
    requires missed !in Merged(up[..reach], down[..reach])
    ensures missed !in up[..reach] && missed !in down[..reach]
  {
    var a, b := up[..reach], down[..reach];
    if missed in a { MergedHolds(a, b, missed); }
    if missed in b && missed !in a {
      MergedHolds(a, b, missed);
    }
  }

  lemma TiedAtTheCut(up: seq<Item>, down: seq<Item>, reach: nat, tied: Item, missed: Item)
    requires multiset(up) == multiset(down) && reach <= |up| == |down|
    requires Ascending(up) && Descending(down)
    requires tied in up[..reach] && tied in down[..reach]
    requires missed in up && missed !in up[..reach] && missed !in down[..reach]
    ensures tied.leverage == missed.leverage
  {
    var i :| 0 <= i < reach && up[i] == tied;
    var j :| 0 <= j < |up| && up[j] == missed;
    assert j >= reach;
    assert missed in multiset(down);
    var k :| 0 <= k < reach && down[k] == tied;
    var l :| 0 <= l < |down| && down[l] == missed;
    assert l >= reach;
  }

  // ---- Exactly which products, and which books, ties can cost ----

  function Upward(): (Item, Item) -> bool {
    (x: Item, y: Item) => x.leverage <= y.leverage
  }

  function Downward(): (Item, Item) -> bool {
    (x: Item, y: Item) => x.leverage >= y.leverage
  }

  function Through(x: Item, le: (Item, Item) -> bool): Item -> Option<Item> {
    y => if le(y, x) then Some(y) else None
  }

  // How many products of a list come no later than x under an order.
  function CountThrough(items: seq<Item>, x: Item, le: (Item, Item) -> bool): nat {
    |Collect(items, Through(x, le))|
  }

  // x sits across the cut from both sides: more than `reach` products have at most its leverage and
  // more than `reach` have at least its leverage.
  predicate Straddles(book: seq<Item>, reach: int, x: Item) {
    CountThrough(book, x, Upward()) > reach && CountThrough(book, x, Downward()) > reach
  }

  // Two ways the backend may serve the book, sorted by leverage and arbitrary among ties.
  ghost predicate SortedViews(book: seq<Item>, up: seq<Item>, down: seq<Item>) {
    && multiset(up) == multiset(book) && multiset(down) == multiset(book)
    && Ascending(up) && Descending(down)
  }

  lemma OrdersAreTotal()
    ensures TotalPreorder(Upward()) && TotalPreorder(Downward())
  {
  }

  lemma SortedByOrder(items: seq<Item>)
    ensures SortedBy(items, Upward()) <==> Ascending(items)
    ensures SortedBy(items, Downward()) <==> Descending(items)
  {
    if SortedBy(items, Upward()) {
      forall i, j | 0 <= i < j < |items| ensures items[i].leverage <= items[j].leverage {
        assert Upward()(items[i], items[j]);
      }
    }
    if SortedBy(items, Downward()) {
      forall i, j | 0 <= i < j < |items| ensures items[i].leverage >= items[j].leverage {
        assert Downward()(items[i], items[j]);
      }
    }
  }

  lemma DistinctByContents(book: seq<Item>, items: seq<Item>)
    requires Distinct(book) && multiset(items) == multiset(book)
    ensures Distinct(items) && |items| == |book| && forall x :: x in items <==> x in book
  {
    DistinctNoRepeats(book);
    NoRepeatsByContents(book, items);
    SameContentsSameMembers(book, items);
    forall i | 0 <= i < |items| ensures items[i].isin.Some? {
      assert items[i] in book;
    }
    forall i, j | 0 <= i < j < |items| ensures items[i].isin != items[j].isin {
      assert items[i] != items[j] && items[i] in book && items[j] in book;
    }
  }

  // In a sorted list a product beyond the reach has more than `reach` products up to it.
  lemma BeyondReachCounts(items: seq<Item>, reach: nat, x: Item, le: (Item, Item) -> bool)
    requires TotalPreorder(le) && SortedBy(items, le) && reach <= |items|
    requires x in items && x !in items[..reach]
    ensures CountThrough(items, x, le) > reach
  {
    var j :| 0 <= j < |items| && items[j] == x;
    assert j >= reach;
    var front, f := items[..j + 1], Through(x, le);
    forall i | 0 <= i < |front| ensures le(front[i], x) {
      assert front[i] == items[i];
    }
    CollectAll(front, f);
    assert items == front + items[j + 1..];
    CollectConcat(front, items[j + 1..], f);
  }

  // A product that comes last among its ties is beyond the reach when that many precede it.
  lemma LastOfTiesIsBeyond(before: seq<Item>, x: Item, after: seq<Item>, reach: nat, le: (Item, Item) -> bool)
    requires (forall y :: y in before ==> le(y, x)) && le(x, x) && (forall y :: y in after ==> !le(y, x))
    requires NoRepeats(before + [x] + after) && CountThrough(before + [x] + after, x, le) > reach
    ensures reach <= |before + [x] + after| && x !in (before + [x] + after)[..reach]
  {
    var items, f := before + [x] + after, Through(x, le);
    CollectAll(before, f);
    CollectNone(after, f);
    CollectAround(before, x, after, f);
    assert items[|before|] == x;
  }

  // The order in which x comes out last among its ties.
  lemma LastView(book: seq<Item>, x: Item, reach: nat, le: (Item, Item) -> bool) returns (view: seq<Item>)
    requires TotalPreorder(le) && NoRepeats(book) && x in book && CountThrough(book, x, le) > reach
    ensures multiset(view) == multiset(book) && SortedBy(view, le)
    ensures reach <= |view| && x !in view[..reach]
  {
    hide CountThrough, SortBy;
    var i :| 0 <= i < |book| && book[i] == x;
    var rest := book[..i] + book[i + 1..];
    assert book == book[..i] + [x] + book[i + 1..];
    var items := rest + [x];
    MultisetMiddle(book[..i], [x], book[i + 1..]);
    view := SortBy(items, le);
    SortSorted(items, le);
    SortContents(items, le);
    NoRepeatsByContents(book, view);
    CountByContents(book, view, x, le);
    var before, after := SortLast(rest, x, le);
    LastOfTiesIsBeyond(before, x, after, reach, le);
  }

  lemma CountByContents(book: seq<Item>, items: seq<Item>, x: Item, le: (Item, Item) -> bool)
    requires multiset(book) == multiset(items)
    ensures CountThrough(book, x, le) == CountThrough(items, x, le)
  {
    CollectPermutation(book, items, Through(x, le));
    SameContentsSameMembers(Collect(book, Through(x, le)), Collect(items, Through(x, le)));
  }

  // What one fetch of two views holds.
  function FetchedItems(up: seq<Item>, down: seq<Item>, ceiling: int, maxPages: nat, pageSize: nat): seq<Item> {
    match AllPages(ListServer(up, down, ceiling, pageSize), maxPages, pageSize)
    case Ok(r) => r.items
    case Err(_) => []
  }

  lemma ViewsFetched(up: seq<Item>, down: seq<Item>, ceiling: int, maxPages: nat, pageSize: nat)
    requires |up| == |down| && pageSize > 0 && ceiling > 0 && maxPages > 0
    ensures var n, reach, limit := |up|, Reach(ceiling, pageSize), maxPages * pageSize;
            && 0 < reach && 0 < limit
            && FetchedItems(up, down, ceiling, maxPages, pageSize) ==
               (if n > reach && reach < limit then Merged(up[..reach], down[..reach]) else up[..Min(n, limit)])
  {
    hide Merged, ListServer, Distinct;
    ReachIsFirstRefused(ceiling, pageSize, 0, 0);
    OffsetBelowLimit(0, maxPages, pageSize);
    OneDirectionSees(up, down, ceiling, maxPages, pageSize, false);
    OneDirectionSees(up, down, ceiling, maxPages, pageSize, true);
  }

  lemma MergedMembers(a: seq<Item>, b: seq<Item>, book: seq<Item>)
    requires Distinct(book) && Distinct(a) && Distinct(b)
    requires (forall y :: y in a ==> y in book) && (forall y :: y in b ==> y in book)
    ensures NoRepeats(Merged(a, b)) && forall x :: x in Merged(a, b) <==> x in a || x in b
  {
    var f := item => MissingFrom(a, item);
    MergeDistinct(a, b);
    DistinctNoRepeats(a);
    DistinctNoRepeats(b);
    FilterNoRepeats(b, f);
    forall x | x in b && x !in a ensures f(x).Some? {
      forall i | 0 <= i < |a| ensures a[i].isin != x.isin {
        assert a[i] in a && a[i] in book && x in book && a[i] != x;
      }
    }
    forall x | x in Collect(b, f) ensures x !in a {
      assert f(x).Some?;
    }
    NoRepeatsConcat(a, Collect(b, f));
  }

  // A fetch holds exactly the products one of the passes reached.
  lemma FetchedMembers(book: seq<Item>, up: seq<Item>, down: seq<Item>, ceiling: int, maxPages: nat, pageSize: nat)
    requires Distinct(book) && SortedViews(book, up, down)
    requires pageSize > 0 && ceiling > 0 && maxPages > 0 && Reach(ceiling, pageSize) < maxPages * pageSize
    ensures var reach, items := Reach(ceiling, pageSize), FetchedItems(up, down, ceiling, maxPages, pageSize);
            && 0 < reach && |up| == |down| == |book| && NoRepeats(items)
            && forall x :: x in items <==>
                           (if |book| <= reach then x in book else x in up[..reach] || x in down[..reach])
  {
    hide Reach, AllPages, Merged, FetchedItems, Ascending, Descending;
    var n, reach := |book|, Reach(ceiling, pageSize);
    DistinctByContents(book, up);
    DistinctByContents(book, down);
    ViewsFetched(up, down, ceiling, maxPages, pageSize);
    if n > reach {
      DistinctPrefix(up, reach);
      DistinctPrefix(down, reach);
      MergedMembers(up[..reach], down[..reach], book);
    } else {
      assert up[..n] == up;
      DistinctNoRepeats(up);
    }
  }

  lemma CountsAtMostAll(items: seq<Item>, x: Item, le: (Item, Item) -> bool)
    ensures CountThrough(items, x, le) <= |items|
  {
  }

  // Whatever the sorted views, only a straddling product can be missed.
  lemma MissedStraddles(book: seq<Item>, up: seq<Item>, down: seq<Item>, ceiling: int, maxPages: nat, pageSize: nat,
                        x: Item)
    requires Distinct(book) && SortedViews(book, up, down) && x in book
    requires pageSize > 0 && ceiling > 0 && maxPages > 0 && Reach(ceiling, pageSize) < maxPages * pageSize
    requires x !in FetchedItems(up, down, ceiling, maxPages, pageSize)
    ensures Straddles(book, Reach(ceiling, pageSize), x)
  {
    hide Reach, FetchedItems, CountThrough;
    var reach := Reach(ceiling, pageSize);
    FetchedMembers(book, up, down, ceiling, maxPages, pageSize);
    OrdersAreTotal();
    SortedByOrder(up);
    SortedByOrder(down);
    DistinctByContents(book, up);
    DistinctByContents(book, down);
    BeyondReachCounts(up, reach, x, Upward());
    BeyondReachCounts(down, reach, x, Downward());
    CountByContents(book, up, x, Upward());
    CountByContents(book, down, x, Downward());
  }

  // Every straddling product is missed under some sorted views: those that serve it last of its ties.
  lemma StraddlingIsMissable(book: seq<Item>, ceiling: int, maxPages: nat, pageSize: nat, x: Item)
    returns (up: seq<Item>, down: seq<Item>)
    requires pageSize > 0 && ceiling > 0 && maxPages > 0 && Reach(ceiling, pageSize) < maxPages * pageSize
    requires Distinct(book) && x in book && Straddles(book, Reach(ceiling, pageSize), x)
    ensures SortedViews(book, up, down) && x !in FetchedItems(up, down, ceiling, maxPages, pageSize)
  {
    hide Reach, FetchedItems, CountThrough;
    var reach := Reach(ceiling, pageSize);
    ReachPositive(ceiling, pageSize);
    OrdersAreTotal();
    DistinctNoRepeats(book);
    up := LastView(book, x, reach, Upward());
    down := LastView(book, x, reach, Downward());
    SortedByOrder(up);
    SortedByOrder(down);
    CountsAtMostAll(book, x, Upward());
    FetchedMembers(book, up, down, ceiling, maxPages, pageSize);
  }

  ghost predicate Misses(book: seq<Item>, up: seq<Item>, down: seq<Item>, ceiling: int, maxPages: nat, pageSize: nat,
                         x: Item)
  {
    SortedViews(book, up, down) && x !in FetchedItems(up, down, ceiling, maxPages, pageSize)
  }

  // A product can be missed, under some order among ties, iff it straddles; the condition reads off
  // the book alone.
  lemma MissableIffStraddles(book: seq<Item>, ceiling: int, maxPages: nat, pageSize: nat, x: Item)
    requires Distinct(book) && x in book
    requires pageSize > 0 && ceiling > 0 && maxPages > 0 && Reach(ceiling, pageSize) < maxPages * pageSize
    ensures (exists up, down :: Misses(book, up, down, ceiling, maxPages, pageSize, x))
       <==> Straddles(book, Reach(ceiling, pageSize), x)
  {
    hide Reach, FetchedItems, Straddles;
    forall up, down | Misses(book, up, down, ceiling, maxPages, pageSize, x)
      ensures Straddles(book, Reach(ceiling, pageSize), x)
    {
      MissedStraddles(book, up, down, ceiling, maxPages, pageSize, x);
    }
    if Straddles(book, Reach(ceiling, pageSize), x) {
      var up, down := StraddlingIsMissable(book, ceiling, maxPages, pageSize, x);
      assert Misses(book, up, down, ceiling, maxPages, pageSize, x);
    }
  }

  // Every sorted fetch of the book covers it, each product once.
  ghost predicate AlwaysCovered(book: seq<Item>, ceiling: int, maxPages: nat, pageSize: nat) {
    forall up, down :: SortedViews(book, up, down) ==>
      multiset(FetchedItems(up, down, ceiling, maxPages, pageSize)) == multiset(book)
  }

  // The promise "any book up to twice the ceiling" without exact reversal: a book is covered under every
  // order among ties iff no product of it straddles (or, when the page limit bites first, iff it fits in it).
  lemma SortedCoverageIff(book: seq<Item>, ceiling: int, maxPages: nat, pageSize: nat)
    requires Distinct(book) && pageSize > 0 && ceiling > 0 && maxPages > 0
    ensures AlwaysCovered(book, ceiling, maxPages, pageSize) <==>
              if Reach(ceiling, pageSize) < maxPages * pageSize
              then forall x :: x in book ==> !Straddles(book, Reach(ceiling, pageSize), x)
              else |book| <= maxPages * pageSize
  {
    hide Reach, FetchedItems, Straddles, SortedViews;
    if Reach(ceiling, pageSize) < maxPages * pageSize {
      forall x | x in book && Straddles(book, Reach(ceiling, pageSize), x)
        ensures !AlwaysCovered(book, ceiling, maxPages, pageSize)
      {
        var up, down := StraddlingIsMissable(book, ceiling, maxPages, pageSize, x);
        assert x in multiset(book);
      }
      if forall x :: x in book ==> !Straddles(book, Reach(ceiling, pageSize), x) {
        forall up, down | SortedViews(book, up, down)
          ensures multiset(FetchedItems(up, down, ceiling, maxPages, pageSize)) == multiset(book)
        {
          UnstraddledCovered(book, up, down, ceiling, maxPages, pageSize);
        }
      }
    } else {
      LimitedCoverage(book, ceiling, maxPages, pageSize);
    }
  }

  lemma UnstraddledCovered(book: seq<Item>, up: seq<Item>, down: seq<Item>, ceiling: int, maxPages: nat, pageSize: nat)
    requires Distinct(book) && SortedViews(book, up, down)
    requires pageSize > 0 && ceiling > 0 && maxPages > 0 && Reach(ceiling, pageSize) < maxPages * pageSize
    requires forall x :: x in book ==> !Straddles(book, Reach(ceiling, pageSize), x)
    ensures multiset(FetchedItems(up, down, ceiling, maxPages, pageSize)) == multiset(book)
  {
    hide Reach, FetchedItems, Straddles, Distinct;
    var items, reach := FetchedItems(up, down, ceiling, maxPages, pageSize), Reach(ceiling, pageSize);
    FetchedMembers(book, up, down, ceiling, maxPages, pageSize);
    DistinctByContents(book, up);
    DistinctByContents(book, down);
    DistinctNoRepeats(book);
    forall x ensures x in items <==> x in book {
      if x in book && x !in items { MissedStraddles(book, up, down, ceiling, maxPages, pageSize, x); }
    }
    ContentsByMembers(items, book);
  }

  lemma LimitedCoverage(book: seq<Item>, ceiling: int, maxPages: nat, pageSize: nat)
    requires Distinct(book) && pageSize > 0 && ceiling > 0 && maxPages > 0
    requires Reach(ceiling, pageSize) >= maxPages * pageSize
    ensures AlwaysCovered(book, ceiling, maxPages, pageSize) <==> |book| <= maxPages * pageSize
  {
    hide Reach, FetchedItems, Ascending, Descending, Distinct, SortBy;
    var limit := maxPages * pageSize;
    forall up, down | SortedViews(book, up, down)
      ensures multiset(FetchedItems(up, down, ceiling, maxPages, pageSize)) == multiset(book) <==> |book| <= limit
    {
      DistinctByContents(book, up);
      DistinctByContents(book, down);
      ViewsFetched(up, down, ceiling, maxPages, pageSize);
      PrefixFull(up, Min(|up|, limit));
    }
    var up, down := SomeViews(book);
  }

  lemma SomeViews(book: seq<Item>) returns (up: seq<Item>, down: seq<Item>)
    ensures SortedViews(book, up, down)
  {
    up, down := SortBy(book, Upward()), SortBy(book, Downward());
    OrdersAreTotal();
    SortSorted(book, Upward());
    SortSorted(book, Downward());
    SortContents(book, Upward());
    SortContents(book, Downward());
    SortedByOrder(up);
    SortedByOrder(down);
  }

  function Tied(x: Item): Item -> Option<Item> {
    (y: Item) => if y.leverage == x.leverage then Some(y) else None
  }

  lemma {:induction false} CountsOverlap(items: seq<Item>, x: Item)
    ensures CountThrough(items, x, Upward()) + CountThrough(items, x, Downward()) == |items| + |Collect(items, Tied(x))|
  {
    if items == [] {
    } else {
      CountsOverlap(items[1..], x);
    }
  }

  // A straddling product of a book of n has at least 2 * (reach + 1) - n products of its leverage, itself
  // included; so a book without ties is covered exactly up to twice the reach.
  lemma StraddlersAreTied(book: seq<Item>, reach: int, x: Item)
    requires x in book && Straddles(book, reach, x)
    ensures |Collect(book, Tied(x))| >= 2 * (reach + 1) - |book|
  {
    hide CountThrough;
    CountsOverlap(book, x);
  }

  // Such a miss is real: of two products tied in leverage either straddles a reach of one row, and under
  // some views the other is all a fetch returns.
  lemma TieIsMissed() returns (up: seq<Item>, down: seq<Item>)
    ensures Distinct(up) && Ascending(up) && Descending(down) && multiset(up) == multiset(down)
    ensures |up| == 2 * Reach(1, 1)
    ensures var r := AllPages(ListServer(up, down, 1, 1), 20, 1); r.Ok? && r.value.bothEnds && r.value.items == up[..1]
  {
    hide CountThrough, FetchedItems, AllPages, Reach, Merged;
    var a, b := Item(Some("DE000AAAAAA1"), 30), Item(Some("DE000BBBBBB2"), 30);
    var book := [a, b];
    TiedBook(a, b);
    up, down := StraddlingIsMissable(book, 1, 20, 1, b);
    FetchedMembers(book, up, down, 1, 20, 1);
    DistinctByContents(book, up);
    DistinctByContents(book, down);
    assert up[0] in book && down[0] in book && up[..1] == down[..1] == [a];
    TiedFetch(up, down);
  }

  lemma TiedBook(a: Item, b: Item)
    requires a == Item(Some("DE000AAAAAA1"), 30) && b == Item(Some("DE000BBBBBB2"), 30)
    ensures Distinct([a, b]) && Reach(1, 1) == 1 && Straddles([a, b], 1, b)
  {
    assert a.isin != b.isin by { assert "DE000AAAAAA1"[5] != "DE000BBBBBB2"[5]; }
    CollectTwo(a, b, Through(b, Upward()));
    CollectTwo(a, b, Through(b, Downward()));
  }

  lemma TiedFetch(up: seq<Item>, down: seq<Item>)
    requires |up| == |down| == 2 && Distinct(up) && up[..1] == down[..1]
    ensures Reach(1, 1) == 1
    ensures var r := AllPages(ListServer(up, down, 1, 1), 20, 1); r.Ok? && r.value.bothEnds && r.value.items == up[..1]
  {
    hide Merged, ListServer, Collect, PassFrom;
    OneDirectionSees(up, down, 1, 20, 1, false);
    OneDirectionSees(up, down, 1, 20, 1, true);
    SelfMerge(up[..1]);
  }

  lemma SelfMerge(items: seq<Item>)
    requires Distinct(items)
    ensures Merged(items, items) == items
  {
    hide Merged;
    MergeDistinct(items, items);
    CollectNone(items, item => MissingFrom(items, item));
  }
}
