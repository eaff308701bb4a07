/** What a listing request means for the caller, field by field (EventLogsService.ListEventLogs in
    pkg/api/eventlogs_service.go, pkg/storage/eventlogs/store_filter.go and store_list.go). */
module ListingOutcomes {
  import opened GoText
  import opened Sorting
  import opened EventLogs
  import opened EventLogListing
  import opened PagingUnderUpdates
  import PageTokens

  /** A text filter of the request: blank, or the trimmed text is the record's. */
  predicate Asks(filter: string, value: string) { TrimSpace(filter) == "" || TrimSpace(filter) == value }

  /** The record is the tenant's, meets each of the ten text filters and the matched flag, and was
      created no earlier than the start and no later than the end. */
  predicate IsAskedFor(c: Criteria, tenant: string, r: EventLog) {
    && (tenant == "" || r.tenantId == tenant)
    && Asks(c.provider, r.provider) && Asks(c.name, r.name) && Asks(c.requestId, r.requestId)
    && Asks(c.stateId, r.stateId) && Asks(c.installationId, r.installationId)
    && Asks(c.namespaceId, r.namespaceId) && Asks(c.namespaceName, r.namespaceName)
    && Asks(c.topic, r.topic) && Asks(c.ruleId, r.ruleId) && Asks(c.ruleWhen, r.ruleWhen)
    && (c.matched == None || c.matched == Some(r.matched))
    && (c.startTime == PageTokens.ZERO_TIME || c.startTime <= r.createdAt)
    && (c.endTime == PageTokens.ZERO_TIME || r.createdAt <= c.endTime)
  }

  lemma FiltersApplyFieldByField(c: Criteria, tenant: string, r: EventLog)
    ensures Matches(TrimCriteria(c), tenant, r) <==> IsAskedFor(c, tenant, r)
  {
    hide TrimSpace;
  }

  /** The records of a complete run are exactly those of the first table that are asked for. */
  lemma PagesHoldWhatIsAskedFor(tables: seq<seq<EventLog>>, sizes: seq<int>, pages: seq<Page>, c: Criteria, tenant: string, r: EventLog)
    requires IsRun("", tables, sizes, pages, c, tenant) && pages[|pages| - 1].nextPageToken == ""
    ensures r in LogsOf(pages) <==> r in tables[0] && IsAskedFor(c, tenant, r)
  {
    PagesAreExact(tables, sizes, pages, c, tenant);
    FiltersApplyFieldByField(c, tenant, r);
    hide Matches, TrimCriteria, IsAskedFor, IsRun;
  }

  /** Some record with this id is asked for. */
  predicate IdIsAskedFor(rows: seq<EventLog>, c: Criteria, tenant: string, id: string) {
    exists r :: r in rows && IsAskedFor(c, tenant, r) && r.id == id
  }

  predicate HasId(rows: seq<EventLog>, id: string) { exists r :: r in rows && r.id == id }

  /** The same on ids, while records change between the requests. */
  lemma IdsHoldWhatIsAskedFor(tables: seq<seq<EventLog>>, sizes: seq<int>, pages: seq<Page>, c: Criteria, tenant: string, id: string)
    requires IsUpdatedRun("", tables, sizes, pages, c, tenant) && pages[|pages| - 1].nextPageToken == ""
    ensures HasId(LogsOf(pages), id) <==> IdIsAskedFor(tables[0], c, tenant, id)
  {
    PagesAreExactOnIds(tables, sizes, pages, c, tenant);
    var whole := Listing(tables[0], TrimCriteria(c), tenant, Top);
    forall r ensures Matches(TrimCriteria(c), tenant, r) <==> IsAskedFor(c, tenant, r) {
      FiltersApplyFieldByField(c, tenant, r);
    }
    hide Matches, TrimCriteria, IsAskedFor, IsUpdatedRun, Listing;
    assert Stamps(LogsOf(pages)) == Stamps(whole);
    if HasId(LogsOf(pages), id) {
      SameStampsSameIds(LogsOf(pages), whole, id);
    }
    if HasId(whole, id) {
      SameStampsSameIds(whole, LogsOf(pages), id);
    }
  }

  lemma SameStampsSameIds(a: seq<EventLog>, b: seq<EventLog>, id: string)
    requires Stamps(a) == Stamps(b) && HasId(a, id)
    ensures HasId(b, id)
  {
    var i :| 0 <= i < |a| && a[i].id == id;
    assert Stamps(a)[i] == Stamps(b)[i];
    assert b[i] in b && b[i].id == id;
  }

  // ---------- the order ----------

  /** `a` comes before `b` in byte order: it is a proper prefix, or smaller at the first byte that differs. */
  predicate IsBefore(a: string, b: string) {
    (|a| < |b| && a == b[..|a|]) || exists k :: 0 <= k < |a| && k < |b| && a[..k] == b[..k] && a[k] < b[k]
  }

  lemma {:induction false} LessIsByteOrder(a: string, b: string)
    ensures Less(a, b) <==> IsBefore(a, b)
  {
    if a != [] && b != [] && a[0] == b[0] {
      LessIsByteOrder(a[1..], b[1..]);
      if IsBefore(a, b) {
        if |a| < |b| && a == b[..|a|] {
          assert a[1..] == b[1..][..|a| - 1];
        } else {
          var k :| 0 <= k < |a| && k < |b| && a[..k] == b[..k] && a[k] < b[k];
          assert a[1..][..k - 1] == a[..k][1..] && b[1..][..k - 1] == b[..k][1..];
          assert a[1..][k - 1] < b[1..][k - 1];
        }
      }
      if IsBefore(a[1..], b[1..]) {
        if |a| < |b| && a[1..] == b[1..][..|a| - 1] {
          assert a == [a[0]] + a[1..] && b[..|a|] == [b[0]] + b[1..][..|a| - 1];
        } else {
          var k :| 0 <= k < |a| - 1 && k < |b| - 1 && a[1..][..k] == b[1..][..k] && a[1..][k] < b[1..][k];
          assert a[..k + 1] == [a[0]] + a[1..][..k] && b[..k + 1] == [b[0]] + b[1..][..k];
          assert a[k + 1] < b[k + 1];
        }
      }
    } else if a != [] && b != [] {
      assert a[..0] == b[..0];
      forall k | 0 < k <= |a| && k <= |b| ensures a[..k] != b[..k] {
        assert a[..k][0] == a[0] && b[..k][0] == b[0];
      }
      assert a[..|a|] == a;
    }
  }

  /** The newest record comes first; of two created at once, the one with the greater id. */
  lemma NewestFirst(tables: seq<seq<EventLog>>, sizes: seq<int>, pages: seq<Page>, c: Criteria, tenant: string, i: nat, j: nat)
    requires IsRun("", tables, sizes, pages, c, tenant) && i < j < |LogsOf(pages)|
    ensures var a, b := LogsOf(pages)[i], LogsOf(pages)[j];
      a.createdAt > b.createdAt || (a.createdAt == b.createdAt && IsBefore(b.id, a.id))
  {
    PagesAreExact(tables, sizes, pages, c, tenant);
    var whole := Listing(tables[0], TrimCriteria(c), tenant, Top);
    hide Listing, TrimCriteria, Matches;
    var a, b := whole[i], whole[j];
    assert LogsOf(pages)[i] == a && LogsOf(pages)[j] == b;
    assert !Newer(b, a) && a in tables[0] && b in tables[0] && a != b;
    DifferentIds(tables[0], a, b);
    LessIsStrictTotal(a.id, b.id);
    LessIsByteOrder(b.id, a.id);
    hide IsBefore, Less;
  }

  lemma DifferentIds(rows: seq<EventLog>, a: EventLog, b: EventLog)
    requires UniqueIds(rows) && a in rows && b in rows && a != b
    ensures a.id != b.id
  {
  }

  // ---------- the pages ----------

  /** The size of a page: what is asked for, 50 when nothing is, and 200 at most. */
  function Size(requested: int): nat { if requested <= 0 then 50 else if requested > 200 then 200 else requested }

  /** Every page of a run but the last is full, and none has more records than its size. */
  lemma {:induction false} PagesAreFull(token: string, tables: seq<seq<EventLog>>, sizes: seq<int>, pages: seq<Page>, c: Criteria, tenant: string, k: nat)
    requires IsRun(token, tables, sizes, pages, c, tenant) && k < |pages|
    ensures |pages[k].logs| <= Size(sizes[k])
    ensures pages[k].nextPageToken != "" ==> |pages[k].logs| == Size(sizes[k])
    decreases |pages|
  {
    hide *;
    RunGoesOn(token, tables, sizes, pages, c, tenant);
    if k > 0 {
      PagesAreFull(pages[0].nextPageToken, tables[1..], sizes[1..], pages[1..], c, tenant, k - 1);
    } else {
      OnePageIsFull(tables[0], tenant, ListRequest(c, sizes[0], token), pages[0]);
    }
  }

  lemma RunGoesOn(token: string, tables: seq<seq<EventLog>>, sizes: seq<int>, pages: seq<Page>, c: Criteria, tenant: string)
    requires IsRun(token, tables, sizes, pages, c, tenant)
    ensures |tables| == |sizes| == |pages| > 0
    ensures ByteIds(tables[0]) && ServedPage(tables[0], tenant, ListRequest(c, sizes[0], token)) == Some(pages[0])
    ensures |pages| > 1 ==> IsRun(pages[0].nextPageToken, tables[1..], sizes[1..], pages[1..], c, tenant)
  {
    hide ServedPage, SameBelow;
  }

  lemma OnePageIsFull(rows: seq<EventLog>, tenant: string, req: ListRequest, page: Page)
    requires ByteIds(rows) && ServedPage(rows, tenant, req) == Some(page)
    ensures |page.logs| <= Size(req.pageSize) && (page.nextPageToken != "" ==> |page.logs| == Size(req.pageSize))
  {
    hide FilterFor, Found, PageTokens.EncodeCursorToken;
  }

  /** An offset passes over that many records, and a limit cuts off after that many. */
  lemma OffsetAndLimit(rows: seq<EventLog>, tenant: string, f: ListFilter, i: nat)
    requires f.cursorCreatedAt == PageTokens.ZERO_TIME && f.offset >= 0
    ensures var all, out := Listing(rows, f.criteria, tenant, Top), Found(rows, tenant, f);
      && (i < |out| <==> f.offset + i < |all| && (f.limit > 0 ==> i < f.limit))
      && (i < |out| ==> out[i] == all[f.offset + i])
  {
    hide Listing;
  }
}
