/** Paging through event logs while workers report on them: the pages are exact on ids although
    the status, the latency and the payload of listed records change between requests. */
module PagingUnderUpdates {
  import opened Sorting
  import opened EventLogs
  import opened EventLogListing
  import opened GoText

  /** What the order and the cursor look at. */
  datatype Stamp = Stamp(createdAt: Time, id: string)

  function StampOf(r: EventLog): Stamp { Stamp(r.createdAt, r.id) }

  function Stamps(rs: seq<EventLog>): (s: seq<Stamp>)
    ensures |s| == |rs|
  {
    seq(|rs|, i requires 0 <= i < |rs| => StampOf(rs[i]))
  }

  predicate StampNewer(a: Stamp, b: Stamp) {
    a.createdAt > b.createdAt || (a.createdAt == b.createdAt && Less(b.id, a.id))
  }

  function StampOrder(): (Stamp, Stamp) -> bool { (a, b) => StampNewer(a, b) }

  lemma StampOrderIsStrict(s: set<Stamp>)
    ensures StrictOn(StampOrder(), s)
  {
    forall a: Stamp, b: Stamp | a != b ensures StampNewer(a, b) || StampNewer(b, a) {
      LessIsStrictTotal(a.id, b.id);
    }
    forall a: Stamp, b: Stamp, c: Stamp | StampNewer(a, b) && StampNewer(b, c) ensures StampNewer(a, c) {
      if a.createdAt == b.createdAt == c.createdAt {
        LessTransitive(c.id, b.id, a.id);
      }
    }
    forall a: Stamp ensures !StampNewer(a, a) {
      LessIsStrictTotal(a.id, a.id);
    }
  }

  lemma StampsAppend(a: seq<EventLog>, b: seq<EventLog>)
    ensures Stamps(a + b) == Stamps(a) + Stamps(b)
  {
  }

  lemma {:induction false} StampsOfInsert(x: EventLog, s: seq<EventLog>)
    ensures Stamps(Insert(x, s, Order())) == Insert(StampOf(x), Stamps(s), StampOrder())
  {
    if s == [] || !Newer(s[0], x) {
      StampsAppend([x], s);
      assert Stamps([x]) == [StampOf(x)];
    } else {
      StampsOfInsert(x, s[1..]);
      StampsAppend([s[0]], Insert(x, s[1..], Order()));
      assert Stamps([s[0]]) == [StampOf(s[0])];
      assert Stamps(s)[1..] == Stamps(s[1..]) && Stamps(s)[0] == StampOf(s[0]);
    }
  }

  /** Sorting records sorts their stamps. */
  lemma {:induction false} StampsOfSort(s: seq<EventLog>)
    ensures Stamps(Sort(s, Order())) == Sort(Stamps(s), StampOrder())
  {
    if s != [] {
      StampsOfSort(s[1..]);
      StampsOfInsert(s[0], Sort(s[1..], Order()));
      assert Stamps(s)[1..] == Stamps(s[1..]) && Stamps(s)[0] == StampOf(s[0]);
    }
  }

  /** The same ids, with the same creation times, match the filter below `pos` in both tables. */
  ghost predicate SameStampsBelow(pos: Position, now: seq<EventLog>, later: seq<EventLog>, c: Criteria, tenant: string) {
    multiset(Stamps(Filter(now, Wanted(c, tenant, pos)))) == multiset(Stamps(Filter(later, Wanted(c, tenant, pos))))
  }

  lemma SameStampsSameListing(pos: Position, now: seq<EventLog>, later: seq<EventLog>, c: Criteria, tenant: string)
    requires SameStampsBelow(pos, now, later, c, tenant)
    ensures Stamps(Listing(now, c, tenant, pos)) == Stamps(Listing(later, c, tenant, pos))
  {
    var a, b := Filter(now, Wanted(c, tenant, pos)), Filter(later, Wanted(c, tenant, pos));
    StampsOfSort(a);
    StampsOfSort(b);
    StampOrderIsStrict(Elements(Stamps(a)));
    SortOfPermutation(Stamps(a), Stamps(b), StampOrder());
  }

  /** `later` is `now` with records changed in place: no id, creation time or filter membership
      changes, whatever else does. */
  ghost predicate Updated(now: seq<EventLog>, later: seq<EventLog>, c: Criteria, tenant: string) {
    && |now| == |later|
    && forall i | 0 <= i < |now| ::
         StampOf(now[i]) == StampOf(later[i]) && (Matches(c, tenant, now[i]) <==> Matches(c, tenant, later[i]))
  }

  /** Updates in place, and new records at or above the cursor, leave the stamps below it alone. */
  lemma UpdatesKeepStamps(pos: Position, now: seq<EventLog>, later: seq<EventLog>, inserted: seq<EventLog>, c: Criteria, tenant: string)
    requires Updated(now, later, c, tenant) && forall r | r in inserted :: !IsBelow(pos, r)
    ensures SameStampsBelow(pos, now, later + inserted, c, tenant)
  {
    UpdatedFilters(pos, now, later, c, tenant);
    FilterAppend(later, inserted, Wanted(c, tenant, pos));
    NoneWanted(pos, inserted, c, tenant);
    assert Filter(later, Wanted(c, tenant, pos)) + [] == Filter(later, Wanted(c, tenant, pos));
  }

  lemma {:induction false} NoneWanted(pos: Position, inserted: seq<EventLog>, c: Criteria, tenant: string)
    requires forall r | r in inserted :: !IsBelow(pos, r)
    ensures Filter(inserted, Wanted(c, tenant, pos)) == []
  {
    if inserted != [] {
      assert inserted[0] in inserted;
      NoneWanted(pos, inserted[1..], c, tenant);
    }
  }

  lemma {:induction false} UpdatedFilters(pos: Position, now: seq<EventLog>, later: seq<EventLog>, c: Criteria, tenant: string)
    requires Updated(now, later, c, tenant)
    ensures Stamps(Filter(now, Wanted(c, tenant, pos))) == Stamps(Filter(later, Wanted(c, tenant, pos)))
  {
    hide Matches;
    if now != [] {
      assert forall i | 0 <= i < |now| - 1 :: now[1..][i] == now[i + 1] && later[1..][i] == later[i + 1];
      UpdatedFilters(pos, now[1..], later[1..], c, tenant);
      assert StampOf(now[0]) == StampOf(later[0]);
      StampsAppend([now[0]], Filter(now[1..], Wanted(c, tenant, pos)));
      StampsAppend([later[0]], Filter(later[1..], Wanted(c, tenant, pos)));
      assert Stamps([now[0]]) == Stamps([later[0]]);
    }
  }

  /** A client's run in which, between two requests, the ids that match below the cursor stay. */
  ghost predicate IsUpdatedRun(token: string, tables: seq<seq<EventLog>>, sizes: seq<int>, pages: seq<Page>, c: Criteria, tenant: string)
    decreases |pages|
  {
    && |tables| == |sizes| == |pages| > 0
    && Cursorable(tables[0])
    && ServedPage(tables[0], tenant, ListRequest(c, sizes[0], token)) == Some(pages[0])
    && (|pages| > 1 ==>
          && pages[0].nextPageToken != ""
          && pages[0].logs != []
          && SameStampsBelow(PositionAfter(pages[0].logs[|pages[0].logs| - 1]), tables[0], tables[1], TrimCriteria(c), tenant)
          && IsUpdatedRun(pages[0].nextPageToken, tables[1..], sizes[1..], pages[1..], c, tenant))
  }

  lemma {:induction false} UpdatedRunFrom(pos: Position, tables: seq<seq<EventLog>>, sizes: seq<int>, pages: seq<Page>, c: Criteria, tenant: string)
    requires IsCursorPosition(pos) && IsUpdatedRun(TokenAt(pos), tables, sizes, pages, c, tenant)
    ensures Stamps(LogsOf(pages)) <= Stamps(Listing(tables[0], TrimCriteria(c), tenant, pos))
    ensures pages[|pages| - 1].nextPageToken == "" <==> Stamps(LogsOf(pages)) == Stamps(Listing(tables[0], TrimCriteria(c), tenant, pos))
    ensures |pages| <= |Listing(tables[0], TrimCriteria(c), tenant, pos)| + 1
    decreases |pages|
  {
    hide TrimCriteria, Listing, ServedPage, SameStampsBelow, TokenAt, Stamps, Cursorable, PositionAfter, IsCursorPosition;
    var c', page := TrimCriteria(c), pages[0];
    var whole := Listing(tables[0], c', tenant, pos);
    FirstPage(pos, tables[0], sizes[0], page, c, tenant);
    assert LogsOf(pages) == page.logs + LogsOf(pages[1..]);
    StampsAppend(page.logs, LogsOf(pages[1..]));
    if |pages| > 1 {
      var next := PositionAfter(page.logs[|page.logs| - 1]);
      SameStampsSameListing(next, tables[0], tables[1], c', tenant);
      UpdatedRunFrom(next, tables[1..], sizes[1..], pages[1..], c, tenant);
    } else {
      assert pages[1..] == [] && LogsOf(pages[1..]) == [] && page.logs + [] == page.logs;
    }
  }

  lemma SplitAt<T>(s: seq<T>, n: nat)
    requires n <= |s|
    ensures s == s[..n] + s[n..]
  {
  }

  /** A page is the head of the listing; a page with a token is followed by the listing below its
      last record. */
  lemma FirstPage(pos: Position, rows: seq<EventLog>, size: int, page: Page, c: Criteria, tenant: string)
    requires Cursorable(rows) && IsCursorPosition(pos)
    requires ServedPage(rows, tenant, ListRequest(c, size, TokenAt(pos))) == Some(page)
    ensures var whole := Stamps(Listing(rows, TrimCriteria(c), tenant, pos));
      if page.nextPageToken == "" then Stamps(page.logs) == whole
      else
        && page.logs != []
        && (var next := PositionAfter(page.logs[|page.logs| - 1]);
            && IsCursorPosition(next) && page.nextPageToken == TokenAt(next)
            && whole == Stamps(page.logs) + Stamps(Listing(rows, TrimCriteria(c), tenant, next))
            && Stamps(Listing(rows, TrimCriteria(c), tenant, next)) != [])
  {
    hide TrimCriteria, Listing, ServedPage, TokenAt, Stamps;
    var whole, n := Listing(rows, TrimCriteria(c), tenant, pos), PageSize(size);
    PageFrom(rows, tenant, c, size, pos);
    ListingElements(rows, TrimCriteria(c), tenant, pos);
    if |whole| > n {
      assert whole[n - 1] in whole;
      var next := PositionAfter(whole[n - 1]);
      TokenIsNotEmpty(next);
      TokenOfCut(whole, n);
      assert page.logs == whole[..n];
      SplitAt(whole, n);
      StampsAppend(whole[..n], whole[n..]);
      ListingGoesOn(rows, TrimCriteria(c), tenant, pos, n - 1);
    }
  }

  /** The ids on the pages of such a run are those of the records that match in the first table,
      newest first, each once; the run is over exactly when all have been served; and it has no
      more pages than that. */
  lemma PagesAreExactOnIds(tables: seq<seq<EventLog>>, sizes: seq<int>, pages: seq<Page>, c: Criteria, tenant: string)
    requires IsUpdatedRun("", tables, sizes, pages, c, tenant)
    ensures var whole := Listing(tables[0], TrimCriteria(c), tenant, Top);
      && Sorted(Order(), whole) && NoDuplicates(Stamps(whole))
      && (forall r :: r in whole <==> r in tables[0] && Matches(TrimCriteria(c), tenant, r))
      && Stamps(LogsOf(pages)) <= Stamps(whole)
      && (pages[|pages| - 1].nextPageToken == "" <==> Stamps(LogsOf(pages)) == Stamps(whole))
      && |pages| <= |whole| + 1
  {
    var whole := Listing(tables[0], TrimCriteria(c), tenant, Top);
    ListingIsSorted(tables[0], TrimCriteria(c), tenant, Top);
    ListingElements(tables[0], TrimCriteria(c), tenant, Top);
    StampsAreDistinct(tables[0], whole);
    UpdatedRunFrom(Top, tables, sizes, pages, c, tenant);
  }

  lemma StampsAreDistinct(rows: seq<EventLog>, whole: seq<EventLog>)
    requires UniqueIds(rows) && NoDuplicates(whole) && forall r | r in whole :: r in rows
    ensures NoDuplicates(Stamps(whole))
  {
    forall i, j | 0 <= i < j < |whole| ensures whole[i].id != whole[j].id {
      assert whole[i] in rows && whole[j] in rows && whole[i] != whole[j];
    }
  }
}
