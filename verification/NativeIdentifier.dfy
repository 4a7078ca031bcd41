/**
The configured identifier of a Eurostat series, "<dataset>|<dim=val,dim=val>": `build_native_identifier`
and `parse_native_identifier` in src/turboedge/adapters/eurostat.py.
*/
module NativeIdentifier {
  import opened Eurostat
  import opened Sequences
  import opened Sorting
  import opened Wrappers

  // One dictionary entry of `filters`.
  datatype Pin = Pin(key: string, value: string)

  datatype Identifier = Identifier(dataset: string, filters: map<string, string>)

  datatype IdentifierError = NoDataset | NotDimValue(chunk: string) | PinsTime | PinsNothing

  // ---- Text operations ----

  // What `str.isspace` and hence `str.strip` takes for whitespace.
  predicate IsSpace(c: char) {
    var n := c as int;
    || 0x09 <= n <= 0x0D || 0x1C <= n <= 0x20 || n == 0x85 || n == 0xA0 || n == 0x1680 || 0x2000 <= n <= 0x200A
    || n == 0x2028 || n == 0x2029 || n == 0x202F || n == 0x205F || n == 0x3000
  }

  function StripLeft(s: string): (r: string)
    ensures |r| <= |s| && r == s[|s| - |r|..]
    ensures r != "" ==> !IsSpace(r[0])
  {
    if s != "" && IsSpace(s[0]) then StripLeft(s[1..]) else s
  }

  function StripRight(s: string): (r: string)
    ensures |r| <= |s| && r == s[..|r|]
    ensures r != "" ==> !IsSpace(r[|r| - 1])
  {
    if s != "" && IsSpace(s[|s| - 1]) then StripRight(s[..|s| - 1]) else s
  }

  function Strip(s: string): (r: string)
    ensures forall c :: c in r ==> c in s
    ensures r != "" ==> !IsSpace(r[0]) && !IsSpace(r[|r| - 1])
  {
    StripRight(StripLeft(s))
  }

  // The first position of c, or the length when c does not occur.
  function Index(s: string, c: char): (i: nat)
    ensures i <= |s| && (i < |s| ==> s[i] == c)
    ensures forall j :: 0 <= j < i ==> s[j] != c
  {
    if s == "" || s[0] == c then 0 else 1 + Index(s[1..], c)
  }

  datatype Parts = Parts(head: string, found: bool, tail: string)

  function Partition(s: string, c: char): Parts {
    var i := Index(s, c);
    if i < |s| then Parts(s[..i], true, s[i + 1..]) else Parts(s, false, "")
  }

  function Split(s: string, c: char): (parts: seq<string>)
    ensures parts != []
    ensures forall i :: 0 <= i < |parts| ==> c !in parts[i]
  {
    var i := Index(s, c);
    if i < |s| then [s[..i]] + Split(s[i + 1..], c) else [s]
  }

  function Join(parts: seq<string>, c: char): string {
    if parts == [] then ""
    else if |parts| == 1 then parts[0]
    else parts[0] + [c] + Join(parts[1..], c)
  }

  // ---- Parsing ----

  datatype Chunk = Blank | Malformed(text: string) | Time | Dim(key: string, value: string)

  function ReadChunk(chunk: string): Chunk {
    var text := Strip(chunk);
    if text == "" then Blank
    else
      var parts := Partition(text, '=');
      var key, value := Strip(parts.head), Strip(parts.tail);
      if !parts.found || key == "" || value == "" then Malformed(text)
      else if key == TIME then Time
      else Dim(key, value)
  }

  // Folds the chunks into the dictionary; the first bad chunk ends it, a repeated key is overwritten.
  function ReadChunks(chunks: seq<string>, filters: map<string, string>): Result<map<string, string>, IdentifierError> {
    if chunks == [] then Ok(filters)
    else
      match ReadChunk(chunks[0])
      case Blank => ReadChunks(chunks[1..], filters)
      case Malformed(text) => Err(NotDimValue(text))
      case Time => Err(PinsTime)
      case Dim(key, value) => ReadChunks(chunks[1..], filters[key := value])
  }

  function Parsed(raw: string): Result<Identifier, IdentifierError> {
    var parts := Partition(raw, '|');
    var dataset := Strip(parts.head);
    if dataset == "" then Err(NoDataset)
    else
      match ReadChunks(Split(parts.tail, ','), map[])
      case Err(e) => Err(e)
      case Ok(filters) => if filters == map[] then Err(PinsNothing) else Ok(Identifier(dataset, filters))
  }

  method ParseNativeIdentifier(raw: string) returns (r: Result<Identifier, IdentifierError>)
    ensures r == Parsed(raw)
  {
    hide Strip, Split, Partition, ReadChunk;
    var parts := Partition(raw, '|');
    var dataset := Strip(parts.head);
    if dataset == "" {
      return Err(NoDataset);
    }
    var filters := map[];
    var chunks := Split(parts.tail, ',');
    for i := 0 to |chunks|
      invariant ReadChunks(chunks, map[]) == ReadChunks(chunks[i..], filters)
    {
      assert chunks[i..][0] == chunks[i] && chunks[i..][1..] == chunks[i + 1..];
      match ReadChunk(chunks[i]) {
        case Blank =>
        case Malformed(text) => return Err(NotDimValue(text));
        case Time => return Err(PinsTime);
        case Dim(key, value) => filters := filters[key := value];
      }
    }
    if filters == map[] {
      return Err(PinsNothing);
    }
    return Ok(Identifier(dataset, filters));
  }

  // ---- Building ----

  predicate KeyLe(a: Pin, b: Pin) {
    TextLe(a.key, b.key)
  }

  function Encode(pins: seq<Pin>): (parts: seq<string>)
    ensures |parts| == |pins|
  {
    seq(|pins|, i requires 0 <= i < |pins| => pins[i].key + ['='] + pins[i].value)
  }

  // `pins` are the dictionary's entries in insertion order.
  function Build(dataset: string, pins: seq<Pin>): string {
    dataset + ['|'] + Join(Encode(SortBy(pins, KeyLe)), ',')
  }

  // ---- What survives the round trip ----

  function ToMap(pins: seq<Pin>): (filters: map<string, string>)
    ensures forall k :: k in filters <==> exists i :: 0 <= i < |pins| && pins[i].key == k
  {
    if pins == [] then map[]
    else
      var last := pins[|pins| - 1];
      ToMap(pins[..|pins| - 1])[last.key := last.value]
  }

  predicate CleanDataset(dataset: string) {
    dataset != "" && Strip(dataset) == dataset && '|' !in dataset
  }

  predicate CleanKey(key: string) {
    key != "" && Strip(key) == key && ',' !in key && '=' !in key && key != TIME
  }

  predicate CleanValue(value: string) {
    value != "" && Strip(value) == value && ',' !in value
  }

  predicate CleanPins(pins: seq<Pin>) {
    pins != [] && forall i :: 0 <= i < |pins| ==> CleanKey(pins[i].key) && CleanValue(pins[i].value)
  }

  ghost predicate CleanFilters(filters: map<string, string>) {
    forall k :: k in filters ==> CleanKey(k) && CleanValue(filters[k])
  }

  lemma StripFixed(s: string)
    requires s != "" ==> !IsSpace(s[0]) && !IsSpace(s[|s| - 1])
    ensures Strip(s) == s
  {
  }

  lemma ChunkClean(chunk: string)
    requires ',' !in chunk
    ensures var r := ReadChunk(chunk); r.Dim? ==> CleanKey(r.key) && CleanValue(r.value)
  {
    hide StripLeft, StripRight, IsSpace, Index, Strip;
    var text := Strip(chunk);
    var parts := Partition(text, '=');
    StripFixed(Strip(parts.head));
    StripFixed(Strip(parts.tail));
    assert '=' !in Partition(text, '=').head;
  }

  lemma {:induction false} ChunksClean(chunks: seq<string>, filters: map<string, string>)
    requires forall i :: 0 <= i < |chunks| ==> ',' !in chunks[i]
    requires CleanFilters(filters)
    ensures ReadChunks(chunks, filters).Ok? ==> CleanFilters(ReadChunks(chunks, filters).value)
  {
    hide ReadChunk, CleanKey, CleanValue;
    if chunks == [] {
    } else {
      ChunkClean(chunks[0]);
      match ReadChunk(chunks[0])
      case Blank => ChunksClean(chunks[1..], filters);
      case Malformed(_) =>
      case Time =>
      case Dim(key, value) => ChunksClean(chunks[1..], filters[key := value]);
    }
  }

  // Whatever parses is clean: no part of it could be mistaken for a separator or for padding.
  lemma ParsedIsClean(raw: string)
    ensures Parsed(raw).Ok? ==> (&& CleanDataset(Parsed(raw).value.dataset) && CleanFilters(Parsed(raw).value.filters)
                                 && Parsed(raw).value.filters != map[])
  {
    hide ReadChunks, Strip, IsSpace, Index, Split, CleanKey, CleanValue;
    var parts := Partition(raw, '|');
    StripFixed(Strip(parts.head));
    ChunksClean(Split(parts.tail, ','), map[]);
  }

  // ---- Which texts parse, and as what ----

  // Around its first '=', the unpadded chunk has key k, not "time", and value v, neither of them empty.
  predicate PinsAs(chunk: string, k: string, v: string) {
    var text := Strip(chunk);
    var i := Index(text, '=');
    i < |text| && Strip(text[..i]) == k && k != "" && k != "time" && Strip(text[i + 1..]) == v && v != ""
  }

  ghost predicate PinsKey(chunk: string, k: string) {
    exists v :: PinsAs(chunk, k, v)
  }

  ghost predicate PinsAny(chunk: string) {
    exists k :: PinsKey(chunk, k)
  }

  predicate Padding(chunk: string) {
    Strip(chunk) == ""
  }

  lemma ChunkMeans(chunk: string)
    ensures ReadChunk(chunk).Blank? <==> Padding(chunk)
    ensures forall k, v :: ReadChunk(chunk) == Dim(k, v) <==> PinsAs(chunk, k, v)
  {
    hide Strip, Index;
  }

  lemma ChunkKeyMeans(chunk: string)
    ensures ReadChunk(chunk).Dim? <==> PinsAny(chunk)
    ensures forall k :: PinsKey(chunk, k) <==> ReadChunk(chunk).Dim? && ReadChunk(chunk).key == k
    ensures !(Padding(chunk) && PinsAny(chunk))
  {
    hide ReadChunk, PinsAs, Padding;
    ChunkMeans(chunk);
    if ReadChunk(chunk).Dim? {
      assert PinsAs(chunk, ReadChunk(chunk).key, ReadChunk(chunk).value);
      assert PinsKey(chunk, ReadChunk(chunk).key);
    }
    forall k | PinsKey(chunk, k) ensures ReadChunk(chunk).Dim? && ReadChunk(chunk).key == k {
      var v :| PinsAs(chunk, k, v);
    }
  }

  // v is what the last chunk pinning k gives it.
  ghost predicate LastPin(chunks: seq<string>, k: string, v: string) {
    exists i :: 0 <= i < |chunks| && PinsAs(chunks[i], k, v) && forall j :: i < j < |chunks| ==> !PinsKey(chunks[j], k)
  }

  ghost predicate SomePin(chunks: seq<string>, k: string) {
    exists i :: 0 <= i < |chunks| && PinsKey(chunks[i], k)
  }

  lemma LastPinCons(chunks: seq<string>, k: string, v: string)
    requires chunks != []
    ensures LastPin(chunks, k, v) <==>
            LastPin(chunks[1..], k, v) || (!SomePin(chunks[1..], k) && PinsAs(chunks[0], k, v))
    ensures SomePin(chunks, k) <==> PinsKey(chunks[0], k) || SomePin(chunks[1..], k)
  {
    hide PinsAs, PinsKey;
    var rest := chunks[1..];
    if LastPin(rest, k, v) {
      var i :| 0 <= i < |rest| && PinsAs(rest[i], k, v) && forall j :: i < j < |rest| ==> !PinsKey(rest[j], k);
      forall j | i + 1 < j < |chunks| ensures !PinsKey(chunks[j], k) { assert chunks[j] == rest[j - 1]; }
      assert PinsAs(chunks[i + 1], k, v);
    }
    if LastPin(chunks, k, v) {
      var i :| 0 <= i < |chunks| && PinsAs(chunks[i], k, v) && forall j :: i < j < |chunks| ==> !PinsKey(chunks[j], k);
      forall j | 0 <= j < |rest| && i <= j ensures !PinsKey(rest[j], k) { assert rest[j] == chunks[j + 1]; }
      if i > 0 {
        assert rest[i - 1] == chunks[i];
        forall j | i - 1 < j < |rest| ensures !PinsKey(rest[j], k) { assert rest[j] == chunks[j + 1]; }
      }
    }
    SomePinCons(chunks, k);
  }

  lemma SomePinCons(chunks: seq<string>, k: string)
    requires chunks != []
    ensures SomePin(chunks, k) <==> PinsKey(chunks[0], k) || SomePin(chunks[1..], k)
  {
    hide PinsKey;
    var rest := chunks[1..];
    if SomePin(rest, k) {
      var i :| 0 <= i < |rest| && PinsKey(rest[i], k);
      assert PinsKey(chunks[i + 1], k);
    }
    if SomePin(chunks, k) {
      var i :| 0 <= i < |chunks| && PinsKey(chunks[i], k);
      if i > 0 { assert PinsKey(rest[i - 1], k); }
    }
  }

  // Every chunk pins or is padding.
  ghost predicate AllRead(chunks: seq<string>) {
    forall i :: 0 <= i < |chunks| ==> Padding(chunks[i]) || PinsAny(chunks[i])
  }

  lemma AllReadCons(chunks: seq<string>)
    requires chunks != []
    ensures AllRead(chunks) <==> (Padding(chunks[0]) || PinsAny(chunks[0])) && AllRead(chunks[1..])
  {
    hide Padding, PinsAny;
    if AllRead(chunks) {
      forall i | 0 <= i < |chunks[1..]| ensures Padding(chunks[1..][i]) || PinsAny(chunks[1..][i]) {
        assert chunks[1..][i] == chunks[i + 1];
      }
    }
    if (Padding(chunks[0]) || PinsAny(chunks[0])) && AllRead(chunks[1..]) {
      forall i | 0 <= i < |chunks| ensures Padding(chunks[i]) || PinsAny(chunks[i]) {
        if i > 0 { assert chunks[i] == chunks[1..][i - 1]; }
      }
    }
  }

  lemma {:induction false} ChunksReadIff(chunks: seq<string>, filters: map<string, string>)
    ensures ReadChunks(chunks, filters).Ok? <==> AllRead(chunks)
  {
    hide ReadChunk, Padding, PinsAny, AllRead, PinsAs, PinsKey;
    if chunks == [] {
      assert AllRead([]) by { NothingToRead(); }
    } else {
      var c, rest := chunks[0], chunks[1..];
      AllReadCons(chunks);
      ChunkMeans(c);
      ChunkKeyMeans(c);
      match ReadChunk(c)
      case Blank => ChunksReadIff(rest, filters);
      case Malformed(_) =>
      case Time =>
      case Dim(key, value) => ChunksReadIff(rest, filters[key := value]);
    }
  }

  lemma NothingToRead()
    ensures AllRead([])
  {
  }

  ghost predicate Maps(m: map<string, string>, k: string, v: string) {
    k in m && m[k] == v
  }

  lemma {:induction false} ChunksHold(chunks: seq<string>, filters: map<string, string>, k: string, v: string)
    requires ReadChunks(chunks, filters).Ok?
    ensures Maps(ReadChunks(chunks, filters).value, k, v) <==>
            LastPin(chunks, k, v) || (!SomePin(chunks, k) && Maps(filters, k, v))
  {
    hide ReadChunk, PinsAs, PinsKey, PinsAny, Padding, LastPin, SomePin;
    if chunks == [] {
      NoChunks(k, v);
    } else {
      var c, rest := chunks[0], chunks[1..];
      ChunkMeans(c);
      ChunkKeyMeans(c);
      LastPinCons(chunks, k, v);
      match ReadChunk(c)
      case Blank => ChunksHold(rest, filters, k, v);
      case Malformed(_) =>
      case Time =>
      case Dim(key, value) => ChunksHold(rest, filters[key := value], k, v);
    }
  }

  lemma NoChunks(k: string, v: string)
    ensures !LastPin([], k, v) && !SomePin([], k)
  {
  }

  // What follows the first '|', cut at the commas.
  function ChunksOf(raw: string): seq<string> {
    var i := Index(raw, '|');
    if i < |raw| then Split(raw[i + 1..], ',') else [""]
  }

  // A text parses iff something but padding stands before its first '|' and every comma-separated chunk after
  // it pins a dimension other than time or is padding, at least one of them pinning; of several pins of a
  // dimension the last one holds.
  lemma ParsesIff(raw: string)
    ensures Parsed(raw).Ok? <==>
            && !Padding(raw[..Index(raw, '|')]) && AllRead(ChunksOf(raw))
            && (exists k, v :: LastPin(ChunksOf(raw), k, v))
    ensures Parsed(raw).Ok? ==>
              Parsed(raw).value.dataset == Strip(raw[..Index(raw, '|')])
              && forall k, v :: Maps(Parsed(raw).value.filters, k, v) <==> LastPin(ChunksOf(raw), k, v)
  {
    hide ReadChunks, Strip, Index, LastPin, SomePin, AllRead, Maps;
    SplitNothing();
    var chunks := ChunksOf(raw);
    assert raw[..|raw|] == raw;
    assert Split(Partition(raw, '|').tail, ',') == chunks;
    ChunksReadIff(chunks, map[]);
    if ReadChunks(chunks, map[]).Ok? {
      var filters := ReadChunks(chunks, map[]).value;
      forall k, v ensures Maps(filters, k, v) <==> LastPin(chunks, k, v) {
        ChunksHold(chunks, map[], k, v);
        NothingMapped(k, v);
      }
      SomethingMapped(filters);
    }
  }

  // The first chunk that neither pins nor pads.
  ghost predicate Unread(chunks: seq<string>, i: int) {
    && 0 <= i < |chunks| && !Padding(chunks[i]) && !PinsAny(chunks[i])
    && forall j :: 0 <= j < i ==> Padding(chunks[j]) || PinsAny(chunks[j])
  }

  // The chunk has key "time" and some value.
  predicate PinsTimeAs(chunk: string) {
    var text := Strip(chunk);
    var i := Index(text, '=');
    i < |text| && Strip(text[..i]) == "time" && Strip(text[i + 1..]) != ""
  }

  lemma UnreadMeans(chunk: string)
    requires !Padding(chunk) && !PinsAny(chunk)
    ensures ReadChunk(chunk) == if PinsTimeAs(chunk) then Time else Malformed(Strip(chunk))
  {
    hide Strip, Index;
    hide PinsAny;
    ChunkKeyMeans(chunk);
  }

  lemma {:induction false} FirstUnread(chunks: seq<string>, filters: map<string, string>, i: int)
    requires Unread(chunks, i)
    ensures ReadChunks(chunks, filters) ==
            Err(if PinsTimeAs(chunks[i]) then PinsTime else NotDimValue(Strip(chunks[i])))
  {
    hide ReadChunk, PinsAny, Padding, PinsTimeAs, Strip;
    ChunkMeans(chunks[0]);
    ChunkKeyMeans(chunks[0]);
    if i == 0 {
      UnreadMeans(chunks[0]);
    } else {
      forall j | 0 <= j < i - 1 ensures Padding(chunks[1..][j]) || PinsAny(chunks[1..][j]) {
        assert chunks[1..][j] == chunks[j + 1];
      }
      assert Unread(chunks[1..], i - 1);
      if ReadChunk(chunks[0]).Blank? {
        FirstUnread(chunks[1..], filters, i - 1);
      } else {
        var key, value := ReadChunk(chunks[0]).key, ReadChunk(chunks[0]).value;
        FirstUnread(chunks[1..], filters[key := value], i - 1);
      }
    }
  }

  // Which error a text meets: no dataset before anything else, then its first chunk that cannot be read, then
  // that nothing is pinned.
  lemma FirstErrorDecides(raw: string)
    ensures Parsed(raw) == Err(NoDataset) <==> Padding(raw[..Index(raw, '|')])
    ensures !Padding(raw[..Index(raw, '|')]) ==>
              && (forall i :: Unread(ChunksOf(raw), i) ==>
                    Parsed(raw) == Err(if PinsTimeAs(ChunksOf(raw)[i]) then PinsTime
                                       else NotDimValue(Strip(ChunksOf(raw)[i]))))
              && (AllRead(ChunksOf(raw)) && Parsed(raw).Err? ==> Parsed(raw) == Err(PinsNothing))
  {
    hide ReadChunks, Strip, Index, PinsAny, PinsTimeAs, Split;
    SplitNothing();
    var chunks := ChunksOf(raw);
    assert raw[..|raw|] == raw;
    assert Split(Partition(raw, '|').tail, ',') == chunks;
    ChunksReadIff(chunks, map[]);
    OnlyChunkErrors(chunks, map[]);
    forall i | Unread(chunks, i)
      ensures ReadChunks(chunks, map[]) ==
              Err(if PinsTimeAs(chunks[i]) then PinsTime else NotDimValue(Strip(chunks[i])))
    {
      FirstUnread(chunks, map[], i);
    }
  }

  lemma {:induction false} OnlyChunkErrors(chunks: seq<string>, filters: map<string, string>)
    ensures ReadChunks(chunks, filters) != Err(NoDataset)
  {
    hide ReadChunk;
    if chunks == [] {
    } else {
      match ReadChunk(chunks[0])
      case Blank => OnlyChunkErrors(chunks[1..], filters);
      case Malformed(_) =>
      case Time =>
      case Dim(key, value) => OnlyChunkErrors(chunks[1..], filters[key := value]);
    }
  }

  lemma SplitNothing()
    ensures Split("", ',') == [""]
  {
  }

  lemma NothingMapped(k: string, v: string)
    ensures !Maps(map[], k, v)
  {
  }

  lemma SomethingMapped(m: map<string, string>)
    ensures m != map[] <==> exists k, v :: Maps(m, k, v)
  {
    if m != map[] {
      var k :| k in m;
      assert Maps(m, k, m[k]);
    }
  }

  // ---- The round trip ----

  lemma {:induction false} SplitJoin(parts: seq<string>, c: char)
    requires parts != [] && forall i :: 0 <= i < |parts| ==> c !in parts[i]
    ensures Split(Join(parts, c), c) == parts
  {
    var s := Join(parts, c);
    if |parts| == 1 {
      assert Index(s, c) == |s|;
    } else {
      var rest := Join(parts[1..], c);
      assert s[|parts[0]|] == c && Index(s, c) == |parts[0]|;
      assert s[..|parts[0]|] == parts[0] && s[|parts[0]| + 1..] == rest;
      SplitJoin(parts[1..], c);
    }
  }

  lemma EncodedChunk(p: Pin)
    requires CleanKey(p.key) && CleanValue(p.value)
    ensures ReadChunk(p.key + ['='] + p.value) == Dim(p.key, p.value)
  {
    hide StripLeft, StripRight, IsSpace, Index, Strip;
    var chunk := p.key + ['='] + p.value;
    assert chunk[0] == p.key[0] && chunk[|chunk| - 1] == p.value[|p.value| - 1];
    assert !IsSpace(Strip(p.key)[0]) && !IsSpace(Strip(p.value)[|Strip(p.value)| - 1]);
    StripFixed(chunk);
    assert chunk[|p.key|] == '=' && Index(chunk, '=') == |p.key|;
    assert chunk[..|p.key|] == p.key && chunk[|p.key| + 1..] == p.value;
  }

  lemma EncodedUnsplit(pins: seq<Pin>)
    requires forall i :: 0 <= i < |pins| ==> CleanKey(pins[i].key) && CleanValue(pins[i].value)
    ensures forall i :: 0 <= i < |pins| ==> ',' !in Encode(pins)[i]
  {
    hide Strip, IsSpace;
  }

  lemma {:induction false} EncodedChunks(pins: seq<Pin>, done: nat, filters: map<string, string>)
    requires done <= |pins| && forall i :: 0 <= i < |pins| ==> CleanKey(pins[i].key) && CleanValue(pins[i].value)
    requires filters == ToMap(pins[..done])
    ensures ReadChunks(Encode(pins)[done..], filters) == Ok(ToMap(pins))
    decreases |pins| - done
  {
    hide ReadChunk, CleanKey, CleanValue;
    if done == |pins| {
      assert pins[..done] == pins && Encode(pins)[done..] == [];
    } else {
      var p := pins[done];
      EncodedChunk(p);
      assert pins[..done + 1][..done] == pins[..done];
      assert Encode(pins)[done..][1..] == Encode(pins)[done + 1..];
      EncodedChunks(pins, done + 1, filters[p.key := p.value]);
    }
  }

  ghost predicate DistinctKeys(pins: seq<Pin>) {
    forall i, j :: 0 <= i < j < |pins| ==> pins[i].key != pins[j].key
  }

  // With distinct keys the dictionary holds exactly the entries.
  lemma {:induction false} MapHolds(pins: seq<Pin>)
    requires DistinctKeys(pins)
    ensures forall k, v :: k in ToMap(pins) && ToMap(pins)[k] == v <==> Pin(k, v) in pins
  {
    if pins == [] {
    } else {
      var front, last := pins[..|pins| - 1], pins[|pins| - 1];
      MapHolds(front);
      LastIsNew(pins);
      assert pins == front + [last];
      assert ToMap(pins) == ToMap(front)[last.key := last.value];
      MapExtended(ToMap(front), last, front, pins);
    }
  }

  lemma LastIsNew(pins: seq<Pin>)
    requires DistinctKeys(pins) && pins != []
    ensures forall p :: p in pins[..|pins| - 1] ==> p.key != pins[|pins| - 1].key
  {
  }

  lemma MapExtended(m: map<string, string>, last: Pin, front: seq<Pin>, pins: seq<Pin>)
    requires pins == front + [last] && forall p :: p in front ==> p.key != last.key
    requires forall k, v :: k in m && m[k] == v <==> Pin(k, v) in front
    ensures var n := m[last.key := last.value]; forall k, v :: k in n && n[k] == v <==> Pin(k, v) in pins
  {
    var n := m[last.key := last.value];
    forall k, v ensures k in n && n[k] == v <==> Pin(k, v) in pins {
      assert Pin(k, v) in pins <==> Pin(k, v) in front || Pin(k, v) == last;
      assert Pin(k, v) in front ==> k != last.key;
      if k == last.key { assert n[k] == last.value; } else { assert k in n <==> k in m; }
    }
  }

  lemma SameMap(pins: seq<Pin>, others: seq<Pin>)
    requires DistinctKeys(pins) && DistinctKeys(others) && forall p :: p in others <==> p in pins
    ensures ToMap(others) == ToMap(pins)
  {
    hide ToMap, DistinctKeys;
    MapHolds(pins);
    MapHolds(others);
    var m, n := ToMap(others), ToMap(pins);
    forall k ensures k in m ==> k in n && m[k] == n[k] {
      if k in m { assert Pin(k, m[k]) in others; }
    }
    forall k ensures k in n ==> k in m {
      if k in n { assert Pin(k, n[k]) in pins; }
    }
  }

  lemma SameEntries(pins: seq<Pin>, others: seq<Pin>)
    requires DistinctKeys(pins) && multiset(others) == multiset(pins)
    ensures DistinctKeys(others) && ToMap(others) == ToMap(pins) && |others| == |pins|
    ensures forall p :: p in others <==> p in pins
  {
    hide ToMap;
    forall p ensures p in others <==> p in pins {
      assert p in multiset(others) <==> p in multiset(pins);
    }
    assert |others| == |multiset(others)| == |pins|;
    forall i, j | 0 <= i < j < |others| ensures others[i].key != others[j].key {
      KeysStayDistinct(pins, others, i, j);
    }
    SameMap(pins, others);
  }

  lemma KeysStayDistinct(pins: seq<Pin>, others: seq<Pin>, i: nat, j: nat)
    requires DistinctKeys(pins) && multiset(others) == multiset(pins) && i < j < |others|
    ensures others[i].key != others[j].key
  {
    assert others[i] in multiset(others) && others[j] in multiset(others);
    var a :| 0 <= a < |pins| && pins[a] == others[i];
    var b :| 0 <= b < |pins| && pins[b] == others[j];
    if a == b {
      OccursTwice(others, i, j);
      OccursOnce(pins, a);
    }
  }

  lemma CleanRoundTrip(dataset: string, pins: seq<Pin>)
    requires DistinctKeys(pins) && CleanDataset(dataset) && CleanPins(pins)
    ensures Parsed(Build(dataset, pins)) == Ok(Identifier(dataset, ToMap(pins)))
  {
    hide ReadChunks, Strip, IsSpace, Index, Split, Join, SortBy, KeyLe, CleanKey, CleanValue, Encode;
    var ordered := SortBy(pins, KeyLe);
    SortContents(pins, KeyLe);
    SameEntries(pins, ordered);
    forall i | 0 <= i < |ordered| ensures CleanKey(ordered[i].key) && CleanValue(ordered[i].value) {
      assert ordered[i] in pins;
    }
    var raw, tail := Build(dataset, pins), Join(Encode(ordered), ',');
    assert raw[|dataset|] == '|' && Index(raw, '|') == |dataset|;
    assert raw[..|dataset|] == dataset && raw[|dataset| + 1..] == tail;
    EncodedUnsplit(ordered);
    SplitJoin(Encode(ordered), ',');
    assert Encode(ordered)[0..] == Encode(ordered);
    EncodedChunks(ordered, 0, map[]);
    assert pins[0].key in ToMap(pins);
  }

  // Building an identifier and parsing it gives back the dataset and the filters if and only if the
  // dataset is non-empty, unpadded and free of '|', and there is a filter, and every key is non-empty,
  // unpadded, not "time" and free of ',' and '=', and every value is non-empty, unpadded and free of ','.
  lemma RoundTripIff(dataset: string, pins: seq<Pin>)
    requires DistinctKeys(pins)
    ensures Parsed(Build(dataset, pins)) == Ok(Identifier(dataset, ToMap(pins))) <==>
            CleanDataset(dataset) && CleanPins(pins)
  {
    hide Parsed, Build, CleanDataset, CleanKey, CleanValue;
    if CleanDataset(dataset) && CleanPins(pins) {
      CleanRoundTrip(dataset, pins);
    } else if Parsed(Build(dataset, pins)) == Ok(Identifier(dataset, ToMap(pins))) {
      ParsedIsClean(Build(dataset, pins));
      MapHolds(pins);
      forall i | 0 <= i < |pins| ensures CleanKey(pins[i].key) && CleanValue(pins[i].value) {
        assert Pin(pins[i].key, pins[i].value) in pins;
      }
      assert false;
    }
  }

  // Any text that parses has a normal form: building from what was parsed and parsing again changes nothing.
  lemma ParsedRebuilds(raw: string, pins: seq<Pin>)
    requires Parsed(raw).Ok? && DistinctKeys(pins) && ToMap(pins) == Parsed(raw).value.filters
    ensures Parsed(Build(Parsed(raw).value.dataset, pins)) == Parsed(raw)
  {
    hide Parsed, Build, Strip, CleanKey, CleanValue;
    ParsedIsClean(raw);
    MapHolds(pins);
    forall i | 0 <= i < |pins| ensures CleanKey(pins[i].key) && CleanValue(pins[i].value) {
      assert Pin(pins[i].key, pins[i].value) in pins;
    }
    CleanRoundTrip(Parsed(raw).value.dataset, pins);
  }
}
