/** Keyset pagination of the event log: pkg/storage/eventlogs/store_list.go and
    EventLogsService.ListEventLogs in pkg/api/eventlogs_service.go. */
module EventLogListing {
  import opened GoText
  import opened Sorting
  import opened EventLogs
  import opened PageTokens
  import Base64

  /** Where a page starts: at the newest record, or below the record a cursor names. */
  datatype Position = Top | Below(createdAt: EventLogs.Time, id: string)

  predicate IsBelow(pos: Position, r: EventLog) {
    pos.Top? || r.createdAt < pos.createdAt || (r.createdAt == pos.createdAt && Less(r.id, pos.id))
  }

  function Wanted(c: Criteria, tenant: string, pos: Position): EventLog -> bool {
    r => Matches(c, tenant, r) && IsBelow(pos, r)
  }

  function Order(): (EventLog, EventLog) -> bool { (a, b) => Newer(a, b) }

  /** The records of `rows` from `pos` on, newest first. */
  function Listing(rows: seq<EventLog>, c: Criteria, tenant: string, pos: Position): seq<EventLog> {
    Sort(Filter(rows, Wanted(c, tenant, pos)), Order())
  }

  // ---------- Store.ListEventLogs ----------

  datatype ListFilter = ListFilter(criteria: Criteria, limit: int, offset: int, cursorCreatedAt: EventLogs.Time, cursorId: string)

  function PositionOf(f: ListFilter): Position {
    if f.cursorCreatedAt != ZERO_TIME && TrimSpace(f.cursorId) != ""
    then Below(f.cursorCreatedAt, TrimSpace(f.cursorId)) else Top
  }

  function Slice(s: seq<EventLog>, limit: int, offset: int): seq<EventLog> {
    var rest := if offset <= 0 then s else if offset <= |s| then s[offset..] else [];
    if 0 < limit < |rest| then rest[..limit] else rest
  }

  function Found(rows: seq<EventLog>, tenant: string, f: ListFilter): seq<EventLog> {
    Slice(Listing(rows, f.criteria, tenant, PositionOf(f)), f.limit, f.offset)
  }

  /** A SELECT being built. */
  datatype Query = Query(wanted: EventLog -> bool, limit: int, offset: int)

  class EventLogTable {
    var rows: seq<EventLog>

    function Run(q: Query): seq<EventLog>
      reads this
    {
      Slice(Sort(Filter(rows, q.wanted), Order()), q.limit, q.offset)
    }

    method ListEventLogs(tenant: string, f: ListFilter) returns (out: seq<EventLog>)
      ensures out == Found(rows, tenant, f)
    {
      var query := Query(Wanted(f.criteria, tenant, Top), 0, 0);
      if f.cursorCreatedAt != ZERO_TIME && TrimSpace(f.cursorId) != "" {
        query := query.(wanted := Wanted(f.criteria, tenant, Below(f.cursorCreatedAt, TrimSpace(f.cursorId))));
      }
      if f.limit > 0 {
        query := query.(limit := f.limit);
      }
      if f.offset > 0 {
        query := query.(offset := f.offset);
      }
      var data := Run(query);
      out := [];
      for i := 0 to |data|
        invariant out == data[..i]
      {
        out := out + [data[i]];
      }
    }
  }

  // ---------- EventLogsService.ListEventLogs ----------

  const DEFAULT_PAGE_SIZE := 50
  const MAX_PAGE_SIZE := 200

  datatype ListRequest = ListRequest(criteria: Criteria, pageSize: int, pageToken: string)

  datatype Page = Page(logs: seq<EventLog>, nextPageToken: string)

  function PageSize(requested: int): (size: nat)
    ensures 1 <= size <= 200
    ensures requested <= 0 ==> size == 50
    ensures 1 <= requested <= 200 ==> size == requested
    ensures requested > 200 ==> size == 200
  {
    if requested <= 0 then DEFAULT_PAGE_SIZE else if requested > MAX_PAGE_SIZE then MAX_PAGE_SIZE else requested
  }

  function TrimCriteria(c: Criteria): Criteria {
    Criteria(TrimSpace(c.provider), TrimSpace(c.name), TrimSpace(c.requestId), TrimSpace(c.stateId),
             TrimSpace(c.installationId), TrimSpace(c.namespaceId), TrimSpace(c.namespaceName),
             TrimSpace(c.topic), TrimSpace(c.ruleId), TrimSpace(c.ruleWhen), c.matched, c.startTime, c.endTime)
  }

  /** None is the invalid-argument error. */
  function FilterFor(req: ListRequest): Option<ListFilter> {
    match DecodePageToken(req.pageToken)
    case None => None
    case Some(offset) =>
      match DecodeCursorToken(req.pageToken)
      case BadCursor => None
      case NoCursor => Some(ListFilter(TrimCriteria(req.criteria), PageSize(req.pageSize) + 1, offset, ZERO_TIME, ""))
      case Cursor(at, id) => Some(ListFilter(TrimCriteria(req.criteria), PageSize(req.pageSize) + 1, 0, at, id))
  }

  /** Strings are byte strings. */
  predicate ByteIds(rows: seq<EventLog>) {
    forall r | r in rows :: Base64.IsBytes(r.id)
  }

  function CutPage(records: seq<EventLog>, size: nat): Page
    requires ByteIds(records) && size > 0
  {
    if |records| > size then
      Page(records[..size], EncodeCursorToken(records[size - 1].createdAt, records[size - 1].id))
    else Page(records, "")
  }

  method ListEventLogs(store: EventLogTable, tenant: string, req: ListRequest) returns (page: Option<Page>)
    requires ByteIds(store.rows)
    ensures page == ServedPage(store.rows, tenant, req)
  {
    hide FilterFor, Found, EncodeCursorToken;
    var filter := FilterFor(req);
    if filter.None? {
      return None;
    }
    var records := store.ListEventLogs(tenant, filter.value);
    FoundHasByteIds(store.rows, tenant, filter.value);
    var pageSize := PageSize(req.pageSize);
    var nextToken := "";
    if |records| > pageSize {
      records := records[..pageSize];
      var last := records[|records| - 1];
      nextToken := EncodeCursorToken(last.createdAt, last.id);
    }
    return Some(Page(records, nextToken));
  }

  function ServedPage(rows: seq<EventLog>, tenant: string, req: ListRequest): Option<Page>
    requires ByteIds(rows)
  {
    match FilterFor(req)
    case None => None
    case Some(f) =>
      FoundHasByteIds(rows, tenant, f);
      Some(CutPage(Found(rows, tenant, f), PageSize(req.pageSize)))
  }

  lemma FoundHasByteIds(rows: seq<EventLog>, tenant: string, f: ListFilter)
    requires ByteIds(rows)
    ensures ByteIds(Found(rows, tenant, f))
  {
    ListingElements(rows, f.criteria, tenant, PositionOf(f));
  }

  lemma ListingElements(rows: seq<EventLog>, c: Criteria, tenant: string, pos: Position)
    ensures forall r :: r in Listing(rows, c, tenant, pos) <==> r in rows && Matches(c, tenant, r) && IsBelow(pos, r)
  {
    var f := Filter(rows, Wanted(c, tenant, pos));
    SortPermutes(f, Order());
    forall r ensures r in Listing(rows, c, tenant, pos) <==> r in f {
      assert r in Elements(Listing(rows, c, tenant, pos)) <==> r in Elements(f);
    }
  }

  // ---------- following the page tokens ----------

  /** What the listing needs of a table: distinct ids without outer blanks, and instants that
      fit a cursor. */
  predicate Cursorable(rows: seq<EventLog>) {
    && UniqueIds(rows)
    && forall r | r in rows ::
         Base64.IsBytes(r.id) && Trimmed(r.id) && r.id != "" && MIN_INT64 <= r.createdAt <= MAX_INT64
  }

  function PositionAfter(r: EventLog): Position { Below(r.createdAt, r.id) }

  predicate IsCursorPosition(pos: Position) {
    pos.Below? ==>
      Base64.IsBytes(pos.id) && Trimmed(pos.id) && pos.id != "" && MIN_INT64 <= pos.createdAt <= MAX_INT64
  }

  function TokenAt(pos: Position): string
    requires IsCursorPosition(pos)
  {
    match pos
    case Top => ""
    case Below(at, id) => EncodeCursorToken(at, id)
  }

  lemma OrderIsStrict(rows: seq<EventLog>)
    requires UniqueIds(rows)
    ensures StrictOn(Order(), Elements(rows))
  {
    forall a, b | a in Elements(rows) && b in Elements(rows) && a != b ensures Newer(a, b) || Newer(b, a) {
      LessIsStrictTotal(a.id, b.id);
    }
    forall a, b, c | Newer(a, b) && Newer(b, c) ensures Newer(a, c) {
      if a.createdAt == b.createdAt == c.createdAt {
        LessTransitive(c.id, b.id, a.id);
      }
    }
    forall a: EventLog ensures !Newer(a, a) {
      LessIsStrictTotal(a.id, a.id);
    }
  }

  lemma ListingIsSorted(rows: seq<EventLog>, c: Criteria, tenant: string, pos: Position)
    requires UniqueIds(rows)
    ensures StrictOn(Order(), Elements(rows))
    ensures Elements(Listing(rows, c, tenant, pos)) <= Elements(rows)
    ensures StrictOn(Order(), Elements(Listing(rows, c, tenant, pos)))
    ensures Sorted(Order(), Listing(rows, c, tenant, pos)) && NoDuplicates(Listing(rows, c, tenant, pos))
  {
    var f := Filter(rows, Wanted(c, tenant, pos));
    OrderIsStrict(rows);
    SortPermutes(f, Order());
    assert Elements(f) <= Elements(rows);
    SortSorts(f, Order());
    var same := (a: EventLog, b: EventLog) => a == b;
    assert Sorted(same, rows);
    FilterKeepsOrder(rows, Wanted(c, tenant, pos), same);
    assert NoDuplicates(f);
    NoDuplicatesOfMultiset(f, Sort(f, Order()));
  }

  lemma {:induction false} FilterTwice(s: seq<EventLog>, p: EventLog -> bool, q: EventLog -> bool, both: EventLog -> bool)
    requires forall x :: both(x) <==> p(x) && q(x)
    ensures Filter(Filter(s, p), q) == Filter(s, both)
  {
    if s != [] {
      FilterTwice(s[1..], p, q, both);
    }
  }

  /** Below the record at `k` of a listing, the listing goes on where it stood. */
  lemma ListingGoesOn(rows: seq<EventLog>, c: Criteria, tenant: string, pos: Position, k: nat)
    requires UniqueIds(rows) && k < |Listing(rows, c, tenant, pos)|
    ensures Listing(rows, c, tenant, PositionAfter(Listing(rows, c, tenant, pos)[k]))
         == Listing(rows, c, tenant, pos)[k + 1..]
  {
    var whole := Listing(rows, c, tenant, pos);
    var at := PositionAfter(whole[k]);
    var after := (r: EventLog) => IsBelow(at, r);
    ListingIsSorted(rows, c, tenant, pos);
    ListingElements(rows, c, tenant, pos);
    FilterAfter(whole, k, Order(), after);
    var f := Filter(rows, Wanted(c, tenant, pos));
    assert Elements(f) <= Elements(rows);
    SortFilterCommute(f, after, Order());
    forall r ensures Wanted(c, tenant, at)(r) <==> Wanted(c, tenant, pos)(r) && after(r) {
      if IsBelow(at, r) { BelowIsTransitive(pos, whole[k], r); }
    }
    FilterTwice(rows, Wanted(c, tenant, pos), after, Wanted(c, tenant, at));
  }

  lemma BelowIsTransitive(pos: Position, q: EventLog, r: EventLog)
    requires IsBelow(pos, q) && IsBelow(PositionAfter(q), r)
    ensures IsBelow(pos, r)
  {
    if pos.Below? && pos.createdAt == q.createdAt == r.createdAt {
      LessTransitive(r.id, q.id, pos.id);
    }
  }

  lemma FilterAt(c: Criteria, size: int, pos: Position) returns (f: ListFilter)
    requires IsCursorPosition(pos)
    ensures FilterFor(ListRequest(c, size, TokenAt(pos))) == Some(f)
    ensures f.criteria == TrimCriteria(c) && f.limit == PageSize(size) + 1 && f.offset == 0 && PositionOf(f) == pos
  {
    hide TrimSpace, TrimCriteria, EncodeCursorToken;
    TrimSpaceIsTrimmed("");
    assert TrimSpace("") == "" by { assert Trimmed(""); }
    if pos.Below? {
      TrimSpaceIsTrimmed(pos.id);
      CursorTokenRoundTrip(pos.createdAt, pos.id);
    }
    f := FilterFor(ListRequest(c, size, TokenAt(pos))).value;
  }

  lemma ListingHasByteIds(rows: seq<EventLog>, c: Criteria, tenant: string, pos: Position)
    requires ByteIds(rows)
    ensures ByteIds(Listing(rows, c, tenant, pos))
  {
    ListingElements(rows, c, tenant, pos);
  }

  /** One request: the page holds the next records of the listing, and its token stands for
      the position after them. */
  lemma PageFrom(rows: seq<EventLog>, tenant: string, c: Criteria, size: int, pos: Position)
    requires Cursorable(rows) && IsCursorPosition(pos)
    ensures ByteIds(Listing(rows, TrimCriteria(c), tenant, pos))
    ensures ServedPage(rows, tenant, ListRequest(c, size, TokenAt(pos)))
         == Some(CutPage(Listing(rows, TrimCriteria(c), tenant, pos), PageSize(size)))
  {
    hide FilterFor, PositionOf, TokenAt, EncodeCursorToken, Listing, TrimCriteria;
    var f := FilterAt(c, size, pos);
    ListingHasByteIds(rows, TrimCriteria(c), tenant, pos);
    var whole, n := Listing(rows, TrimCriteria(c), tenant, pos), PageSize(size);
    if |whole| > n {
      assert whole[..n + 1][..n] == whole[..n] && whole[..n + 1][n - 1] == whole[n - 1];
    }
  }

  /** `later` has the same records below `pos` as `now`. */
  ghost predicate SameBelow(pos: Position, now: seq<EventLog>, later: seq<EventLog>) {
    multiset(Filter(now, (r: EventLog) => IsBelow(pos, r))) == multiset(Filter(later, (r: EventLog) => IsBelow(pos, r)))
  }

  lemma InsertingAboveKeepsBelow(pos: Position, now: seq<EventLog>, inserted: seq<EventLog>)
    requires forall r | r in inserted :: !IsBelow(pos, r)
    ensures SameBelow(pos, now, now + inserted)
  {
    var p := (r: EventLog) => IsBelow(pos, r);
    FilterAppend(now, inserted, p);
    FilterAll(inserted, p);
    assert Filter(now, p) + [] == Filter(now, p);
  }

  lemma SameBelowSameListing(pos: Position, now: seq<EventLog>, later: seq<EventLog>, c: Criteria, tenant: string)
    requires SameBelow(pos, now, later) && UniqueIds(now)
    ensures Listing(now, c, tenant, pos) == Listing(later, c, tenant, pos)
  {
    var below, matches := (r: EventLog) => IsBelow(pos, r), (r: EventLog) => Matches(c, tenant, r);
    FilterTwice(now, below, matches, Wanted(c, tenant, pos));
    FilterTwice(later, below, matches, Wanted(c, tenant, pos));
    FilterOfPermutation(Filter(now, below), Filter(later, below), matches);
    OrderIsStrict(now);
    assert Elements(Filter(now, Wanted(c, tenant, pos))) <= Elements(now);
    SortOfPermutation(Filter(now, Wanted(c, tenant, pos)), Filter(later, Wanted(c, tenant, pos)), Order());
  }

  function LogsOf(pages: seq<Page>): seq<EventLog> {
    if pages == [] then [] else pages[0].logs + LogsOf(pages[1..])
  }

  /** A client's run: every request but the first carries the previous page's token, and
      between two requests the table changes only at or above the cursor. The page size may
      differ from request to request. */
  ghost predicate IsRun(token: string, tables: seq<seq<EventLog>>, sizes: seq<int>, pages: seq<Page>, c: Criteria, tenant: string)
    decreases |pages|
  {
    && |tables| == |sizes| == |pages| > 0
    && Cursorable(tables[0])
    && ServedPage(tables[0], tenant, ListRequest(c, sizes[0], token)) == Some(pages[0])
    && (|pages| > 1 ==>
          && pages[0].nextPageToken != ""
          && pages[0].logs != []
          && SameBelow(PositionAfter(pages[0].logs[|pages[0].logs| - 1]), tables[0], tables[1])
          && IsRun(pages[0].nextPageToken, tables[1..], sizes[1..], pages[1..], c, tenant))
  }

  lemma HeadAndTail<T>(whole: seq<T>, n: nat, rest: seq<T>)
    requires n <= |whole|
    ensures rest <= whole[n..] ==> whole[..n] + rest <= whole
    ensures whole[..n] + rest == whole <==> rest == whole[n..]
  {
    assert whole == whole[..n] + whole[n..];
    if whole[..n] + rest == whole {
      assert (whole[..n] + rest)[n..] == rest;
    }
  }

  lemma {:induction false} RunFrom(pos: Position, tables: seq<seq<EventLog>>, sizes: seq<int>, pages: seq<Page>, c: Criteria, tenant: string)
    requires IsCursorPosition(pos) && IsRun(TokenAt(pos), tables, sizes, pages, c, tenant)
    ensures LogsOf(pages) <= Listing(tables[0], TrimCriteria(c), tenant, pos)
    ensures pages[|pages| - 1].nextPageToken == "" <==> LogsOf(pages) == Listing(tables[0], TrimCriteria(c), tenant, pos)
    ensures |pages| <= |Listing(tables[0], TrimCriteria(c), tenant, pos)| + 1
    decreases |pages|
  {
    hide TrimCriteria, Listing, EncodeCursorToken, SameBelow, ServedPage;
    var whole, n, c' := Listing(tables[0], TrimCriteria(c), tenant, pos), PageSize(sizes[0]), TrimCriteria(c);
    PageFrom(tables[0], tenant, c, sizes[0], pos);
    ListingElements(tables[0], c', tenant, pos);
    assert LogsOf(pages) == pages[0].logs + LogsOf(pages[1..]);
    if |whole| > n {
      var last := whole[n - 1];
      var next := PositionAfter(last);
      assert whole[n - 1] in whole;
      TokenIsNotEmpty(next);
      if |pages| > 1 {
        ListingGoesOn(tables[0], c', tenant, pos, n - 1);
        SameBelowSameListing(next, tables[0], tables[1], c', tenant);
        RunFrom(next, tables[1..], sizes[1..], pages[1..], c, tenant);
        HeadAndTail(whole, n, LogsOf(pages[1..]));
      }
    }
  }

  lemma TokenIsNotEmpty(pos: Position)
    requires IsCursorPosition(pos) && pos.Below?
    ensures TokenAt(pos) != ""
  {
    TrimSpaceIsTrimmed(pos.id);
    CursorTokenRoundTrip(pos.createdAt, pos.id);
    assert DecodeCursorToken("") == NoCursor by { TrimSpaceIsTrimmed(""); }
  }

  /** The pages of a run concatenate to the matching records of the first table, newest first,
      each once; the run is over exactly when all have been served; and it has no more pages
      than that. Records that arrive above the cursor meanwhile change nothing. */
  lemma PagesAreExact(tables: seq<seq<EventLog>>, sizes: seq<int>, pages: seq<Page>, c: Criteria, tenant: string)
    requires IsRun("", tables, sizes, pages, c, tenant)
    ensures var whole := Listing(tables[0], TrimCriteria(c), tenant, Top);
      && Sorted(Order(), whole) && NoDuplicates(whole)
      && (forall r :: r in whole <==> r in tables[0] && Matches(TrimCriteria(c), tenant, r))
      && LogsOf(pages) <= whole
      && (pages[|pages| - 1].nextPageToken == "" <==> LogsOf(pages) == whole)
      && |pages| <= |whole| + 1
  {
    ListingIsSorted(tables[0], TrimCriteria(c), tenant, Top);
    ListingElements(tables[0], TrimCriteria(c), tenant, Top);
    RunFrom(Top, tables, sizes, pages, c, tenant);
  }

  /** And there always is such a run to the end: from any position, a table that stays as it is
      can be read to its end with any page size. */
  lemma {:induction false} ListingCanBeRead(pos: Position, rows: seq<EventLog>, c: Criteria, tenant: string, size: int)
    returns (tables: seq<seq<EventLog>>, sizes: seq<int>, pages: seq<Page>)
    requires Cursorable(rows) && IsCursorPosition(pos)
    ensures IsRun(TokenAt(pos), tables, sizes, pages, c, tenant)
    ensures tables[0] == rows && pages[|pages| - 1].nextPageToken == ""
    decreases |Listing(rows, TrimCriteria(c), tenant, pos)|
  {
    hide TrimCriteria, Listing, EncodeCursorToken, ServedPage, TokenAt;
    var whole, n, c' := Listing(rows, TrimCriteria(c), tenant, pos), PageSize(size), TrimCriteria(c);
    PageFrom(rows, tenant, c, size, pos);
    ListingElements(rows, c', tenant, pos);
    var page := CutPage(whole, n);
    tables, sizes, pages := [rows], [size], [page];
    if |whole| > n {
      var next := PositionAfter(whole[n - 1]);
      assert whole[n - 1] in whole;
      assert IsCursorPosition(next);
      TokenIsNotEmpty(next);
      ListingGoesOn(rows, c', tenant, pos, n - 1);
      var laterTables, laterSizes, laterPages := ListingCanBeRead(next, rows, c, tenant, size);
      assert page.logs[|page.logs| - 1] == whole[n - 1];
      assert page.nextPageToken == TokenAt(next) by { TokenOfCut(whole, n); }
      tables, sizes, pages := tables + laterTables, sizes + laterSizes, pages + laterPages;
      assert tables[1..] == laterTables && sizes[1..] == laterSizes && pages[1..] == laterPages;
    }
  }

  lemma TokenOfCut(whole: seq<EventLog>, n: nat)
    requires ByteIds(whole) && 0 < n < |whole| && IsCursorPosition(PositionAfter(whole[n - 1]))
    ensures CutPage(whole, n).nextPageToken == TokenAt(PositionAfter(whole[n - 1]))
  {
  }
}
