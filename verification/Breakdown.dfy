/** Grouped counts with percentiles and offset pages: GetEventLogBreakdown in
    pkg/storage/mocks_eventlogs.go, and the service around it in pkg/api/eventlogs_service.go. */
module Breakdown {
  import opened GoText
  import opened Sorting
  import opened EventLogs
  import opened MockEventLogs
  import PageTokens

  datatype GroupBy = ByProvider | ByEvent | ByRuleId | ByRuleWhen | ByTopic | ByNamespaceId | ByNamespaceName | ByInstallation | ByNothing

  datatype SortBy = SortCount | SortMatched | SortFailed

  datatype Group = Group(key: string, eventCount: nat, matchedCount: nat, failureCount: nat, p50: real, p95: real, p99: real)

  // mockBreakdownKey
  function GroupKey(r: EventLog, g: GroupBy): string {
    match g
    case ByProvider => r.provider
    case ByEvent => r.name
    case ByRuleId => r.ruleId
    case ByRuleWhen => r.ruleWhen
    case ByTopic => r.topic
    case ByNamespaceId => r.namespaceId
    case ByNamespaceName => r.namespaceName
    case ByInstallation => r.installationId
    case ByNothing => ""
  }

  predicate Grouped(r: EventLog, g: GroupBy) { TrimSpace(GroupKey(r, g)) != "" }

  predicate InGroup(r: EventLog, g: GroupBy, key: string) { Grouped(r, g) && GroupKey(r, g) == key }

  // ---------- percentiles ----------

  function Scaled(n: nat, p: real): real { n as real * p }

  // mockPercentile, with real arithmetic in place of float64
  function Percentile(values: seq<int>, p: real): real {
    if |values| == 0 then 0.0
    else if p <= 0.0 then values[0] as real
    else if p >= 1.0 then values[|values| - 1] as real
    else
      var index := Scaled(|values| - 1, p).Floor;
      var i := if index < 0 then 0 else if index >= |values| then |values| - 1 else index;
      values[i] as real
  }

  function Ascending(): (int, int) -> bool { (a, b) => a < b }

  lemma AscendingIsStrict(s: set<int>)
    ensures StrictOn(Ascending(), s)
  {
  }

  lemma ScaledIsBounded(n: nat, p: real)
    requires 0.0 <= p <= 1.0
    ensures 0.0 <= Scaled(n, p) <= n as real
  {
    ProductIsNotNegative(n as real, p);
    ProductIsNotNegative(n as real, 1.0 - p);
    assert n as real * (1.0 - p) == n as real - n as real * p;
  }

  lemma ScaledIsMonotone(n: nat, p: real, q: real)
    requires p <= q
    ensures Scaled(n, p) <= Scaled(n, q)
  {
    ProductIsNotNegative(n as real, q - p);
    assert n as real * (q - p) == n as real * q - n as real * p;
  }

  lemma ProductIsNotNegative(x: real, y: real)
    requires x >= 0.0 && y >= 0.0
    ensures x * y >= 0.0
  {
  }

  lemma IndexOfPercentile(s: seq<int>, p: real) returns (i: nat)
    requires s != [] && 0.0 < p < 1.0
    ensures i < |s| && i == Scaled(|s| - 1, p).Floor && Percentile(s, p) == s[i] as real
  {
    ScaledIsBounded(|s| - 1, p);
    hide Scaled;
    i := Scaled(|s| - 1, p).Floor;
  }

  /** P50 <= P95 <= P99, and each is one of the values. */
  lemma PercentilesAreOrdered(values: seq<int>)
    requires values != []
    ensures var s := Sort(values, Ascending());
      && Percentile(s, 0.50) <= Percentile(s, 0.95) <= Percentile(s, 0.99)
      && Percentile(s, 0.50).Floor in values && Percentile(s, 0.50) == Percentile(s, 0.50).Floor as real
      && Percentile(s, 0.95).Floor in values && Percentile(s, 0.95) == Percentile(s, 0.95).Floor as real
      && Percentile(s, 0.99).Floor in values && Percentile(s, 0.99) == Percentile(s, 0.99).Floor as real
  {
    hide *;
    var s := Sort(values, Ascending());
    AscendingSort(values);
    var i50 := IndexOfPercentile(s, 0.50);
    var i95 := IndexOfPercentile(s, 0.95);
    var i99 := IndexOfPercentile(s, 0.99);
    ScaledIsMonotone(|s| - 1, 0.50, 0.95);
    ScaledIsMonotone(|s| - 1, 0.95, 0.99);
    assert s[i50] <= s[i95] <= s[i99];
    assert s[i50] in values && s[i95] in values && s[i99] in values;
  }

  lemma AscendingSort(values: seq<int>)
    ensures var s := Sort(values, Ascending());
      && |s| == |values| && (forall i | 0 <= i < |s| :: s[i] in values)
      && (forall i, j | 0 <= i <= j < |s| :: s[i] <= s[j])
  {
    var s := Sort(values, Ascending());
    SortPermutes(values, Ascending());
    AscendingIsStrict(Elements(values));
    SortSorts(values, Ascending());
    hide Sort;
    forall i | 0 <= i < |s| ensures s[i] in values {
      assert s[i] in Elements(s);
    }
  }

  // ---------- groups ----------

  function CountIn(rs: seq<EventLog>, g: GroupBy, key: string): nat {
    if rs == [] then 0
    else CountIn(rs[..|rs| - 1], g, key) + if InGroup(rs[|rs| - 1], g, key) then 1 else 0
  }

  function MatchedIn(rs: seq<EventLog>, g: GroupBy, key: string): nat {
    if rs == [] then 0
    else MatchedIn(rs[..|rs| - 1], g, key) + if InGroup(rs[|rs| - 1], g, key) && rs[|rs| - 1].matched then 1 else 0
  }

  function FailedIn(rs: seq<EventLog>, g: GroupBy, key: string): nat {
    if rs == [] then 0
    else FailedIn(rs[..|rs| - 1], g, key) + if InGroup(rs[|rs| - 1], g, key) && IsFailed(rs[|rs| - 1]) then 1 else 0
  }

  function LatenciesIn(rs: seq<EventLog>, g: GroupBy, key: string): seq<int> {
    if rs == [] then []
    else
      var r := rs[|rs| - 1];
      LatenciesIn(rs[..|rs| - 1], g, key) + if InGroup(r, g, key) && r.latencyMs > 0 then [r.latencyMs] else []
  }

  /** The breakdown entry of `key`. */
  function GroupAt(rs: seq<EventLog>, g: GroupBy, key: string, includeLatency: bool): Group {
    var sorted := Sort(LatenciesIn(rs, g, key), Ascending());
    if includeLatency && sorted != [] then
      Group(key, CountIn(rs, g, key), MatchedIn(rs, g, key), FailedIn(rs, g, key),
            Percentile(sorted, 0.50), Percentile(sorted, 0.95), Percentile(sorted, 0.99))
    else Group(key, CountIn(rs, g, key), MatchedIn(rs, g, key), FailedIn(rs, g, key), 0.0, 0.0, 0.0)
  }

  /** The group keys in order of first appearance. */
  function Keys(rs: seq<EventLog>, g: GroupBy): (ks: seq<string>)
    ensures NoDuplicates(ks)
  {
    if rs == [] then []
    else
      var ks := Keys(rs[..|rs| - 1], g);
      var r := rs[|rs| - 1];
      if Grouped(r, g) && GroupKey(r, g) !in ks then ks + [GroupKey(r, g)] else ks
  }

  function GroupsAt(rs: seq<EventLog>, g: GroupBy, ks: seq<string>, includeLatency: bool): (gs: seq<Group>)
    ensures |gs| == |ks| && forall i | 0 <= i < |ks| :: gs[i] == GroupAt(rs, g, ks[i], includeLatency)
  {
    seq(|ks|, i requires 0 <= i < |ks| => GroupAt(rs, g, ks[i], includeLatency))
  }

  // mockSortValue
  function SortValue(e: Group, sortBy: SortBy): nat {
    match sortBy
    case SortMatched => e.matchedCount
    case SortFailed => e.failureCount
    case SortCount => e.eventCount
  }

  /** The comparator handed to sort.Slice. */
  predicate ComesFirst(a: Group, b: Group, sortBy: SortBy, desc: bool) {
    var ai, aj := SortValue(a, sortBy), SortValue(b, sortBy);
    if ai == aj then (if desc then Less(a.key, b.key) else Less(b.key, a.key))
    else if desc then ai > aj
    else ai < aj
  }

  function Order(sortBy: SortBy, desc: bool): (Group, Group) -> bool { (a, b) => ComesFirst(a, b, sortBy, desc) }

  /** The comparator is a strict total order on groups with different keys. */
  lemma OrderIsStrict(gs: set<Group>, sortBy: SortBy, desc: bool)
    requires forall a, b | a in gs && b in gs && a != b :: a.key != b.key
    ensures StrictOn(Order(sortBy, desc), gs)
  {
    forall a, b | a in gs && b in gs && a != b ensures ComesFirst(a, b, sortBy, desc) || ComesFirst(b, a, sortBy, desc) {
      LessIsStrictTotal(a.key, b.key);
    }
    forall a: Group ensures !ComesFirst(a, a, sortBy, desc) {
      LessIsStrictTotal(a.key, a.key);
    }
    forall a: Group, b: Group, c: Group | ComesFirst(a, b, sortBy, desc) && ComesFirst(b, c, sortBy, desc) ensures ComesFirst(a, c, sortBy, desc) {
      if SortValue(a, sortBy) == SortValue(b, sortBy) == SortValue(c, sortBy) {
        if desc { LessTransitive(a.key, b.key, c.key); } else { LessTransitive(c.key, b.key, a.key); }
      }
    }
  }

  /** The whole breakdown, sorted. */
  function Groups(rs: seq<EventLog>, g: GroupBy, sortBy: SortBy, desc: bool, includeLatency: bool): seq<Group> {
    Sort(GroupsAt(rs, g, Keys(rs, g), includeLatency), Order(sortBy, desc))
  }

  // ---------- conservation ----------

  function GroupedCount(rs: seq<EventLog>, g: GroupBy): nat {
    if rs == [] then 0 else GroupedCount(rs[..|rs| - 1], g) + if Grouped(rs[|rs| - 1], g) then 1 else 0
  }

  function SumOver(rs: seq<EventLog>, g: GroupBy, ks: seq<string>): nat {
    if ks == [] then 0 else SumOver(rs, g, ks[..|ks| - 1]) + CountIn(rs, g, ks[|ks| - 1])
  }

  function SumEvents(gs: seq<Group>): nat {
    if gs == [] then 0 else SumEvents(gs[..|gs| - 1]) + gs[|gs| - 1].eventCount
  }

  lemma {:induction false} SumSnoc(rs: seq<EventLog>, r: EventLog, g: GroupBy, ks: seq<string>)
    requires NoDuplicates(ks)
    ensures SumOver(rs + [r], g, ks) == SumOver(rs, g, ks) + if Grouped(r, g) && GroupKey(r, g) in ks then 1 else 0
  {
    hide GroupKey, Grouped;
    if ks != [] {
      var init, k := ks[..|ks| - 1], ks[|ks| - 1];
      SumSnoc(rs, r, g, init);
      assert (rs + [r])[..|rs|] == rs && ks == init + [k];
      assert forall i | 0 <= i < |init| :: init[i] != k;
    }
  }

  lemma {:induction false} CountsOutsideKeys(rs: seq<EventLog>, g: GroupBy, key: string)
    ensures key in Keys(rs, g) <==> CountIn(rs, g, key) > 0
  {
    hide GroupKey, Grouped;
    if rs != [] {
      CountsOutsideKeys(rs[..|rs| - 1], g, key);
    }
  }

  lemma {:induction false} SumOverKeys(rs: seq<EventLog>, g: GroupBy)
    ensures SumOver(rs, g, Keys(rs, g)) == GroupedCount(rs, g)
  {
    hide GroupKey, Grouped;
    if rs != [] {
      var init, r := rs[..|rs| - 1], rs[|rs| - 1];
      assert rs == init + [r];
      SumOverKeys(init, g);
      SumSnoc(init, r, g, Keys(init, g));
      CountsOutsideKeys(init, g, GroupKey(r, g));
      var ks := Keys(rs, g);
      if Grouped(r, g) && GroupKey(r, g) !in Keys(init, g) {
        assert ks[..|ks| - 1] == Keys(init, g);
      }
    }
  }

  lemma {:induction false} SumOfGroups(rs: seq<EventLog>, g: GroupBy, ks: seq<string>, includeLatency: bool)
    ensures SumEvents(GroupsAt(rs, g, ks, includeLatency)) == SumOver(rs, g, ks)
  {
    hide CountIn, GroupKey;
    if ks != [] {
      var gs := GroupsAt(rs, g, ks, includeLatency);
      SumOfGroups(rs, g, ks[..|ks| - 1], includeLatency);
      assert gs[..|gs| - 1] == GroupsAt(rs, g, ks[..|ks| - 1], includeLatency);
    }
  }

  lemma {:induction false} SumAppend(a: seq<Group>, b: seq<Group>)
    ensures SumEvents(a + b) == SumEvents(a) + SumEvents(b)
  {
    if b == [] {
      assert a + b == a;
    } else {
      assert (a + b)[..|a + b| - 1] == a + b[..|b| - 1];
      SumAppend(a, b[..|b| - 1]);
    }
  }

  lemma {:induction false} SumPermutes(a: seq<Group>, b: seq<Group>)
    requires multiset(a) == multiset(b)
    ensures SumEvents(a) == SumEvents(b)
  {
    SameMultisetSameElements(a, b);
    if a != [] {
      var init, x := a[..|a| - 1], a[|a| - 1];
      assert a == init + [x];
      var b1, b2 := SplitPermutation(init, x, b);
      SumPermutes(init, b1 + b2);
      SumAppend(b1, b2);
      SumAppend(b1, [x]);
      SumAppend(b1 + [x], b2);
      assert [x][..0] == [];
    }
  }

  lemma {:induction false} PartsWithinCount(rs: seq<EventLog>, g: GroupBy, key: string)
    ensures MatchedIn(rs, g, key) <= CountIn(rs, g, key)
    ensures FailedIn(rs, g, key) <= CountIn(rs, g, key)
    ensures forall v | v in LatenciesIn(rs, g, key) :: exists r | r in rs :: InGroup(r, g, key) && r.latencyMs == v
  {
    hide GroupKey, Grouped, IsFailed;
    if rs != [] {
      PartsWithinCount(rs[..|rs| - 1], g, key);
    }
  }

  /** The groups' event counts sum to the records with a non-blank key; in every group the
      matched and failed counts stay within the event count, which is not zero; and no two
      groups have the same key. */
  lemma BreakdownConserves(rs: seq<EventLog>, g: GroupBy, sortBy: SortBy, desc: bool, includeLatency: bool)
    ensures SumEvents(Groups(rs, g, sortBy, desc, includeLatency)) == GroupedCount(rs, g)
    ensures forall e | e in Groups(rs, g, sortBy, desc, includeLatency) ::
      e.matchedCount <= e.eventCount && e.failureCount <= e.eventCount && e.eventCount > 0
    ensures forall a, b | a in Groups(rs, g, sortBy, desc, includeLatency) && b in Groups(rs, g, sortBy, desc, includeLatency) && a.key == b.key :: a == b
  {
    hide GroupAt, CountIn, SumEvents, GroupedCount, Keys;
    var ks := Keys(rs, g);
    var gs := GroupsAt(rs, g, ks, includeLatency);
    var out := Groups(rs, g, sortBy, desc, includeLatency);
    SortPermutes(gs, Order(sortBy, desc));
    SumPermutes(gs, out);
    SumOfGroups(rs, g, ks, includeLatency);
    SumOverKeys(rs, g);
    forall e | e in out ensures exists k :: k in ks && e == GroupAt(rs, g, k, includeLatency) {
      assert e in Elements(out) && e in Elements(gs);
      var i :| 0 <= i < |gs| && gs[i] == e;
      assert ks[i] in ks;
    }
    forall e | e in out
      ensures e == GroupAt(rs, g, e.key, includeLatency)
      ensures e.matchedCount <= e.eventCount && e.failureCount <= e.eventCount && e.eventCount > 0
    {
      var k :| k in ks && e == GroupAt(rs, g, k, includeLatency);
      GroupIsSound(rs, g, k, includeLatency);
    }
  }

  /** The latency of a record of the group `key` is `x`. */
  predicate IsLatencyIn(rs: seq<EventLog>, g: GroupBy, key: string, x: real) {
    exists i :: 0 <= i < |rs| && InGroup(rs[i], g, key) && rs[i].latencyMs > 0 && rs[i].latencyMs as real == x
  }

  /** In every group of the breakdown the percentiles are ordered. They are zero when latencies are
      left out or no record of the group has one; else each is the latency of such a record. */
  lemma GroupPercentilesAreSound(rs: seq<EventLog>, g: GroupBy, sortBy: SortBy, desc: bool, includeLatency: bool, e: Group)
    requires e in Groups(rs, g, sortBy, desc, includeLatency)
    ensures e.p50 <= e.p95 <= e.p99
    ensures if includeLatency && LatenciesIn(rs, g, e.key) != []
      then IsLatencyIn(rs, g, e.key, e.p50) && IsLatencyIn(rs, g, e.key, e.p95) && IsLatencyIn(rs, g, e.key, e.p99)
      else e.p50 == e.p95 == e.p99 == 0.0
  {
    var k := KeyOfListed(rs, g, sortBy, desc, includeLatency, e);
    hide *;
    PercentilesAt(rs, g, k, includeLatency);
  }

  lemma PercentilesAt(rs: seq<EventLog>, g: GroupBy, k: string, includeLatency: bool)
    ensures var e := GroupAt(rs, g, k, includeLatency);
      && e.p50 <= e.p95 <= e.p99
      && if includeLatency && LatenciesIn(rs, g, k) != []
         then IsLatencyIn(rs, g, k, e.p50) && IsLatencyIn(rs, g, k, e.p95) && IsLatencyIn(rs, g, k, e.p99)
         else e.p50 == e.p95 == e.p99 == 0.0
  {
    var values := LatenciesIn(rs, g, k);
    var sorted := Sort(values, Ascending());
    SortPermutes(values, Ascending());
    assert sorted == [] <==> values == [];
    var e := GroupAt(rs, g, k, includeLatency);
    if includeLatency && values != [] {
      PercentilesAreOrdered(values);
      assert e.p50 == Percentile(sorted, 0.50) && e.p95 == Percentile(sorted, 0.95) && e.p99 == Percentile(sorted, 0.99);
      hide *;
      LatencyHasRecord(rs, g, k, e.p50.Floor);
      LatencyHasRecord(rs, g, k, e.p95.Floor);
      LatencyHasRecord(rs, g, k, e.p99.Floor);
    }
  }

  lemma {:induction false} LatencyHasRecord(rs: seq<EventLog>, g: GroupBy, key: string, x: int)
    requires x in LatenciesIn(rs, g, key)
    ensures IsLatencyIn(rs, g, key, x as real)
  {
    hide InGroup;
    var n := |rs| - 1;
    if InGroup(rs[n], g, key) && rs[n].latencyMs > 0 && rs[n].latencyMs == x {
    } else {
      LatencyHasRecord(rs[..n], g, key, x);
      var i :| 0 <= i < n && InGroup(rs[..n][i], g, key) && rs[..n][i].latencyMs > 0 && rs[..n][i].latencyMs as real == x as real;
      assert rs[i] == rs[..n][i];
    }
  }

  /** Every group of the breakdown is the one of its own key. */
  lemma KeyOfListed(rs: seq<EventLog>, g: GroupBy, sortBy: SortBy, desc: bool, includeLatency: bool, e: Group) returns (k: string)
    requires e in Groups(rs, g, sortBy, desc, includeLatency)
    ensures k == e.key && e == GroupAt(rs, g, k, includeLatency)
  {
    hide GroupAt, Keys, Sort;
    var ks := Keys(rs, g);
    var gs := GroupsAt(rs, g, ks, includeLatency);
    SortPermutes(gs, Order(sortBy, desc));
    assert e in Elements(Groups(rs, g, sortBy, desc, includeLatency)) && e in Elements(gs);
    var i :| 0 <= i < |gs| && gs[i] == e;
    k := ks[i];
    KeyOfGroup(rs, g, k, includeLatency);
  }

  lemma GroupIsSound(rs: seq<EventLog>, g: GroupBy, k: string, includeLatency: bool)
    requires k in Keys(rs, g)
    ensures var e := GroupAt(rs, g, k, includeLatency);
      e.key == k && e.matchedCount <= e.eventCount && e.failureCount <= e.eventCount && e.eventCount > 0
  {
    PartsWithinCount(rs, g, k);
    CountsOutsideKeys(rs, g, k);
  }

  // ---------- the order of the records does not matter ----------

  lemma {:induction false} CountAppend(a: seq<EventLog>, b: seq<EventLog>, g: GroupBy, key: string)
    ensures CountIn(a + b, g, key) == CountIn(a, g, key) + CountIn(b, g, key)
    ensures MatchedIn(a + b, g, key) == MatchedIn(a, g, key) + MatchedIn(b, g, key)
    ensures FailedIn(a + b, g, key) == FailedIn(a, g, key) + FailedIn(b, g, key)
    ensures LatenciesIn(a + b, g, key) == LatenciesIn(a, g, key) + LatenciesIn(b, g, key)
  {
    hide InGroup, IsFailed;
    if b == [] {
      assert a + b == a;
    } else {
      assert (a + b)[..|a + b| - 1] == a + b[..|b| - 1];
      CountAppend(a, b[..|b| - 1], g, key);
    }
  }

  lemma {:induction false} CountPermutes(a: seq<EventLog>, b: seq<EventLog>, g: GroupBy, key: string)
    requires multiset(a) == multiset(b)
    ensures CountIn(a, g, key) == CountIn(b, g, key)
    ensures MatchedIn(a, g, key) == MatchedIn(b, g, key)
    ensures FailedIn(a, g, key) == FailedIn(b, g, key)
    ensures multiset(LatenciesIn(a, g, key)) == multiset(LatenciesIn(b, g, key))
  {
    SameMultisetSameElements(a, b);
    if a != [] {
      var init, x := a[..|a| - 1], a[|a| - 1];
      assert a == init + [x];
      var b1, b2 := SplitPermutation(init, x, b);
      CountPermutes(init, b1 + b2, g, key);
      hide CountIn, MatchedIn, FailedIn, LatenciesIn;
      CountAppend(init, [x], g, key);
      CountAppend(b1, b2, g, key);
      CountAppend(b1, [x], g, key);
      CountAppend(b1 + [x], b2, g, key);
      MoveToEnd(LatenciesIn(b1, g, key), LatenciesIn([x], g, key), LatenciesIn(b2, g, key));
    }
  }

  lemma GroupPermutes(a: seq<EventLog>, b: seq<EventLog>, g: GroupBy, key: string, includeLatency: bool)
    requires multiset(a) == multiset(b)
    ensures GroupAt(a, g, key, includeLatency) == GroupAt(b, g, key, includeLatency)
  {
    CountPermutes(a, b, g, key);
    AscendingIsStrict(Elements(LatenciesIn(a, g, key)));
    SortOfPermutation(LatenciesIn(a, g, key), LatenciesIn(b, g, key), Ascending());
  }

  lemma SameElementsSameMultiset<T>(a: seq<T>, b: seq<T>)
    requires NoDuplicates(a) && NoDuplicates(b) && Elements(a) == Elements(b)
    ensures multiset(a) == multiset(b)
  {
    forall x ensures multiset(a)[x] == multiset(b)[x] {
      CountsOnce(a, x);
      CountsOnce(b, x);
      assert x in Elements(a) <==> x in a;
      assert x in Elements(b) <==> x in b;
      assert x in a <==> x in multiset(a);
      assert x in b <==> x in multiset(b);
    }
  }

  /** Listing the groups of the same keys in another order, over the records in another order,
      sorts to the same breakdown. */
  lemma GroupsFromAnyOrder(rs: seq<EventLog>, chosen: seq<EventLog>, g: GroupBy, sortBy: SortBy, desc: bool, includeLatency: bool, ks: seq<string>)
    requires multiset(rs) == multiset(chosen)
    requires NoDuplicates(ks) && Elements(ks) == Elements(Keys(rs, g))
    ensures Sort(GroupsAt(rs, g, ks, includeLatency), Order(sortBy, desc)) == Groups(chosen, g, sortBy, desc, includeLatency)
  {
    hide GroupAt, Keys, Sort;
    var ks' := Keys(chosen, g);
    forall k ensures k in ks <==> k in ks' {
      assert k in Elements(ks) <==> k in Elements(Keys(rs, g));
      CountsOutsideKeys(rs, g, k);
      CountsOutsideKeys(chosen, g, k);
      CountPermutes(rs, chosen, g, k);
    }
    SameElementsSameMultiset(ks, ks');
    var a, b := GroupsAt(rs, g, ks, includeLatency), GroupsAt(chosen, g, ks', includeLatency);
    forall k ensures GroupAt(rs, g, k, includeLatency) == GroupAt(chosen, g, k, includeLatency) && GroupAt(rs, g, k, includeLatency).key == k {
      GroupPermutes(rs, chosen, g, k, includeLatency);
      KeyOfGroup(rs, g, k, includeLatency);
    }
    KeyedGroups(a, ks, rs, g, includeLatency);
    KeyedGroups(b, ks', rs, g, includeLatency);
    SameElementsSameMultiset(a, b);
    OrderIsStrict(Elements(a), sortBy, desc);
    SortOfPermutation(a, b, Order(sortBy, desc));
  }

  lemma KeyOfGroup(rs: seq<EventLog>, g: GroupBy, k: string, includeLatency: bool)
    ensures GroupAt(rs, g, k, includeLatency).key == k
  {
  }

  lemma KeyedGroups(a: seq<Group>, ks: seq<string>, rs: seq<EventLog>, g: GroupBy, includeLatency: bool)
    requires |a| == |ks| && NoDuplicates(ks)
    requires forall i | 0 <= i < |ks| :: a[i] == GroupAt(rs, g, ks[i], includeLatency)
    requires forall k :: GroupAt(rs, g, k, includeLatency).key == k
    ensures NoDuplicates(a)
    ensures Elements(a) == set k | k in ks :: GroupAt(rs, g, k, includeLatency)
    ensures forall x, y | x in Elements(a) && y in Elements(a) && x != y :: x.key != y.key
  {
    hide GroupAt;
    forall i, j | 0 <= i < j < |a| ensures a[i] != a[j] {
      assert a[i].key == ks[i] && a[j].key == ks[j];
    }
    forall k | k in ks ensures GroupAt(rs, g, k, includeLatency) in a {
      var i :| 0 <= i < |ks| && ks[i] == k;
      assert a[i] == GroupAt(rs, g, k, includeLatency);
    }
  }

  // ---------- GetEventLogBreakdown ----------

  datatype BreakdownResult = Page(groups: seq<Group>, nextToken: string) | BadToken

  // mockParsePageToken
  function ParseToken(token: string): Option<nat> {
    var t := TrimSpace(token);
    if t == "" then Some(0)
    else match ParseInt(t)
      case None => None
      case Some(n) => if n < 0 then None else Some(n)
  }

  // mockFormatPageToken
  function FormatToken(offset: int): string {
    if offset <= 0 then "" else FormatInt(offset)
  }

  function PageOf(all: seq<Group>, pageSize: int, offset: nat): BreakdownResult {
    var size := if pageSize <= 0 then 50 else pageSize;
    var start := if offset > |all| then |all| else offset;
    var end := if start + size > |all| then |all| else start + size;
    Page(all[start..end], if end < |all| then FormatToken(end) else "")
  }

  function Tally(rs: seq<EventLog>, g: GroupBy, k: string): Group {
    Group(k, CountIn(rs, g, k), MatchedIn(rs, g, k), FailedIn(rs, g, k), 0.0, 0.0, 0.0)
  }

  ghost predicate Tallied(grouped: map<string, Group>, latencies: map<string, seq<int>>, rs: seq<EventLog>, g: GroupBy, includeLatency: bool) {
    && grouped.Keys == Elements(Keys(rs, g))
    && (forall k | k in grouped :: grouped[k] == Tally(rs, g, k))
    && (includeLatency ==> forall k: string :: LatenciesIn(rs, g, k) == if k in latencies then latencies[k] else [])
  }

  function CountOne(e: Group, r: EventLog): Group {
    e.(eventCount := e.eventCount + 1,
       matchedCount := e.matchedCount + if r.matched then 1 else 0,
       failureCount := e.failureCount + if IsFailed(r) then 1 else 0)
  }

  lemma TallySnoc(rs: seq<EventLog>, r: EventLog, g: GroupBy, k: string)
    ensures Tally(rs + [r], g, k) == if InGroup(r, g, k) then CountOne(Tally(rs, g, k), r) else Tally(rs, g, k)
    ensures LatenciesIn(rs + [r], g, k) == LatenciesIn(rs, g, k) + if InGroup(r, g, k) && r.latencyMs > 0 then [r.latencyMs] else []
    ensures Elements(Keys(rs + [r], g)) == Elements(Keys(rs, g)) + if Grouped(r, g) then {GroupKey(r, g)} else {}
  {
    hide GroupKey, Grouped, IsFailed;
    assert (rs + [r])[..|rs|] == rs;
  }

  lemma {:induction false} EmptyTally(rs: seq<EventLog>, g: GroupBy, k: string)
    requires k !in Keys(rs, g)
    ensures Tally(rs, g, k) == Group(k, 0, 0, 0, 0.0, 0.0, 0.0)
  {
    CountsOutsideKeys(rs, g, k);
    PartsWithinCount(rs, g, k);
  }

  lemma TallyOne(grouped: map<string, Group>, latencies: map<string, seq<int>>, rs: seq<EventLog>, r: EventLog, g: GroupBy,
                 includeLatency: bool, entry: Group, latencies': map<string, seq<int>>)
    requires Tallied(grouped, latencies, rs, g, includeLatency)
    requires Grouped(r, g)
    requires entry == if GroupKey(r, g) in grouped then grouped[GroupKey(r, g)] else Group(GroupKey(r, g), 0, 0, 0, 0.0, 0.0, 0.0)
    requires latencies' == if includeLatency && r.latencyMs > 0
      then latencies[GroupKey(r, g) := (if GroupKey(r, g) in latencies then latencies[GroupKey(r, g)] else []) + [r.latencyMs]]
      else latencies
    ensures Tallied(grouped[GroupKey(r, g) := CountOne(entry, r)], latencies', rs + [r], g, includeLatency)
  {
    hide GroupKey, Grouped, Tally, LatenciesIn, Keys, IsFailed, CountOne;
    var key := GroupKey(r, g);
    forall k: string
      ensures Tally(rs + [r], g, k) == if k == key then CountOne(Tally(rs, g, k), r) else Tally(rs, g, k)
      ensures LatenciesIn(rs + [r], g, k) == LatenciesIn(rs, g, k) + if k == key && r.latencyMs > 0 then [r.latencyMs] else []
    {
      TallySnoc(rs, r, g, k);
    }
    TallySnoc(rs, r, g, key);
    if key !in grouped {
      assert key !in Elements(Keys(rs, g));
      EmptyTally(rs, g, key);
    }
  }

  lemma TallySkip(grouped: map<string, Group>, latencies: map<string, seq<int>>, rs: seq<EventLog>, r: EventLog, g: GroupBy, includeLatency: bool)
    requires Tallied(grouped, latencies, rs, g, includeLatency) && !Grouped(r, g)
    ensures Tallied(grouped, latencies, rs + [r], g, includeLatency)
  {
    hide GroupKey, Grouped, Tally, LatenciesIn, Keys, IsFailed, CountOne;
    forall k: string
      ensures Tally(rs + [r], g, k) == Tally(rs, g, k) && LatenciesIn(rs + [r], g, k) == LatenciesIn(rs, g, k)
    {
      TallySnoc(rs, r, g, k);
      assert LatenciesIn(rs, g, k) + [] == LatenciesIn(rs, g, k);
    }
    TallySnoc(rs, r, g, "");
  }

  method CountRecords(filtered: seq<EventLog>, g: GroupBy, includeLatency: bool)
    returns (grouped: map<string, Group>, latencies: map<string, seq<int>>)
    ensures Tallied(grouped, latencies, filtered, g, includeLatency)
  {
    grouped, latencies := map[], map[];
    EmptyKeys(g);
    hide GroupKey, IsFailed, TrimSpace, Tallied;
    for i := 0 to |filtered|
      invariant Tallied(grouped, latencies, filtered[..i], g, includeLatency)
    {
      var record := filtered[i];
      ghost var rs, latenciesBefore := filtered[..i], latencies;
      assert filtered[..i + 1] == rs + [record];
      var key := GroupKey(record, g);
      if TrimSpace(key) == "" {
        TallySkip(grouped, latencies, rs, record, g, includeLatency);
        continue;
      }
      var entry := if key in grouped then grouped[key] else Group(key, 0, 0, 0, 0.0, 0.0, 0.0);
      ghost var entryBefore := entry;
      entry := entry.(eventCount := entry.eventCount + 1);
      if record.matched {
        entry := entry.(matchedCount := entry.matchedCount + 1);
      }
      if IsFailed(record) {
        entry := entry.(failureCount := entry.failureCount + 1);
      }
      assert entry == CountOne(entryBefore, record);
      if includeLatency && record.latencyMs > 0 {
        latencies := latencies[key := (if key in latencies then latencies[key] else []) + [record.latencyMs]];
      }
      TallyOne(grouped, latenciesBefore, rs, record, g, includeLatency, entryBefore, latencies);
      grouped := grouped[key := entry];
    }
    assert filtered[..|filtered|] == filtered;
  }

  lemma EmptyKeys(g: GroupBy)
    ensures forall includeLatency :: Tallied(map[], map[], [], g, includeLatency)
  {
  }

  /** Percentiles for one group. */
  method FinishEntry(tally: Group, values: seq<int>, ghost rs: seq<EventLog>, g: GroupBy, key: string, includeLatency: bool)
    returns (entry: Group)
    requires tally == Tally(rs, g, key) && (includeLatency ==> values == LatenciesIn(rs, g, key))
    ensures entry == GroupAt(rs, g, key, includeLatency)
  {
    hide LatenciesIn, CountIn, MatchedIn, FailedIn, Sort, Percentile;
    entry := tally;
    SortPermutes(values, Ascending());
    if includeLatency {
      if |values| > 0 {
        var sorted := Sort(values, Ascending());
        entry := entry.(p50 := Percentile(sorted, 0.50), p95 := Percentile(sorted, 0.95), p99 := Percentile(sorted, 0.99));
      }
    }
  }

  lemma NoKeys()
    ensures Elements<string>([]) == {} && NoDuplicates<string>([])
  {
  }

  lemma NextKey(rs: seq<EventLog>, g: GroupBy, ks: seq<string>, key: string, includeLatency: bool)
    requires NoDuplicates(ks) && key !in Elements(ks)
    ensures NoDuplicates(ks + [key]) && Elements(ks + [key]) == Elements(ks) + {key}
    ensures GroupsAt(rs, g, ks + [key], includeLatency) == GroupsAt(rs, g, ks, includeLatency) + [GroupAt(rs, g, key, includeLatency)]
  {
    hide GroupAt;
    assert forall i | 0 <= i < |ks| :: ks[i] in Elements(ks);
  }

  /** Every key has its group in `out`, once. */
  ghost predicate EachOnce(out: seq<Group>, keys: set<string>, rs: seq<EventLog>, g: GroupBy, includeLatency: bool) {
    && (forall i | 0 <= i < |out| :: out[i].key in keys && out[i] == GroupAt(rs, g, out[i].key, includeLatency))
    && (forall i, j | 0 <= i < j < |out| :: out[i].key != out[j].key)
    && (forall key | key in keys :: exists i :: 0 <= i < |out| && out[i].key == key)
  }

  lemma KeysEachOnce(ks: seq<string>, keys: set<string>, rs: seq<EventLog>, g: GroupBy, includeLatency: bool)
    requires NoDuplicates(ks) && Elements(ks) == keys
    ensures EachOnce(GroupsAt(rs, g, ks, includeLatency), keys, rs, g, includeLatency)
  {
    var out := GroupsAt(rs, g, ks, includeLatency);
    forall i | 0 <= i < |ks| ensures out[i].key == ks[i] && ks[i] in keys {
      KeyOfGroup(rs, g, ks[i], includeLatency);
      assert ks[i] in Elements(ks);
    }
    hide GroupAt;
    forall key | key in keys ensures exists i :: 0 <= i < |out| && out[i].key == key {
      assert key in Elements(ks);
      var i :| 0 <= i < |ks| && ks[i] == key;
      assert out[i].key == key;
    }
  }

  method CollectGroups(grouped: map<string, Group>, latencies: map<string, seq<int>>, ghost rs: seq<EventLog>, g: GroupBy, includeLatency: bool)
    returns (out: seq<Group>, ghost ks: seq<string>)
    requires Tallied(grouped, latencies, rs, g, includeLatency)
    ensures NoDuplicates(ks) && Elements(ks) == Elements(Keys(rs, g)) && out == GroupsAt(rs, g, ks, includeLatency)
    ensures EachOnce(out, grouped.Keys, rs, g, includeLatency)
  {
    hide Keys, LatenciesIn, GroupAt, Tally, NoDuplicates, Elements;
    out, ks := [], [];
    NoKeys();
    var remaining := grouped.Keys;
    while remaining != {}
      invariant remaining <= grouped.Keys && Elements(ks) == grouped.Keys - remaining && NoDuplicates(ks)
      invariant out == GroupsAt(rs, g, ks, includeLatency)
      decreases |remaining|
    {
      var key :| key in remaining;   // Go's map iteration order
      remaining := remaining - {key};
      var entry := FinishEntry(grouped[key], if key in latencies then latencies[key] else [], rs, g, key, includeLatency);
      NextKey(rs, g, ks, key, includeLatency);
      ks := ks + [key];
      out := out + [entry];
    }
    KeysEachOnce(ks, grouped.Keys, rs, g, includeLatency);
  }

  method GetEventLogBreakdown(store: MockEventLogStore, c: Criteria, tenant: string, g: GroupBy, sortBy: SortBy, desc: bool,
                              pageSize: int, pageToken: string, includeLatency: bool)
    returns (r: BreakdownResult)
    ensures r == match ParseToken(pageToken)
                 case None => BadToken
                 case Some(offset) => PageOf(Groups(Selected(store.values, c, tenant), g, sortBy, desc, includeLatency), pageSize, offset)
  {
    hide Tallied, Keys, Sort, Selected, GroupAt, Groups, ParseToken, FormatToken, GroupsAt;
    var filtered := store.ListAll(c, tenant);
    var grouped, latencies := CountRecords(filtered, g, includeLatency);
    var out, ks := CollectGroups(grouped, latencies, filtered, g, includeLatency);
    GroupsFromAnyOrder(filtered, Selected(store.values, c, tenant), g, sortBy, desc, includeLatency, ks);
    out := Sort(out, Order(sortBy, desc));
    var parsed := ParseToken(pageToken);
    if parsed.None? {
      return BadToken;
    }
    var offset, size: int := parsed.value, pageSize;
    if size <= 0 {
      size := 50;
    }
    if offset > |out| {
      offset := |out|;
    }
    var end := offset + size;
    if end > |out| {
      end := |out|;
    }
    var nextToken := "";
    if end < |out| {
      nextToken := FormatToken(end);
    }
    return Page(out[offset..end], nextToken);
  }

  // ---------- the service's pages ----------

  const DEFAULT_PAGE_SIZE := 50
  const MAX_PAGE_SIZE := 200

  // encodePageTokenFromRaw
  function EncodeRaw(token: string): string {
    var t := TrimSpace(token);
    if t == "" then ""
    else match ParseInt(t)
      case None => ""
      case Some(n) => if n <= 0 then "" else PageTokens.EncodePageToken(n)
  }

  /** EventLogsService.GetEventLogBreakdown over the sorted groups: the store is given the
      decoded offset in decimal. */
  function ServedPage(all: seq<Group>, requested: int, token: string): BreakdownResult {
    var size := if requested <= 0 then DEFAULT_PAGE_SIZE else if requested > MAX_PAGE_SIZE then MAX_PAGE_SIZE else requested;
    match PageTokens.DecodePageToken(token)
    case None => BadToken
    case Some(offset) =>
      match ParseToken(FormatInt(offset))
      case None => BadToken
      case Some(n) =>
        match PageOf(all, size, n)
        case Page(groups, next) => Page(groups, EncodeRaw(next))
        case BadToken => BadToken
  }

  lemma NumberIsTrimmed(n: nat)
    ensures TrimSpace(FormatInt(n)) == FormatInt(n)
  {
    var d := DigitsOf(n);
    assert IsDigit(d[0]) && IsDigit(d[|d| - 1]);
    TrimSpaceIsTrimmed(d);
  }

  function TokenFor(offset: nat): string { PageTokens.EncodePageToken(offset) }

  /** One request at `offset`: the next groups, and the token of the offset after them. */
  lemma PageFrom(all: seq<Group>, requested: int, offset: nat) returns (end: nat)
    requires offset <= |all| <= MAX_INT64
    ensures offset <= end <= |all| && (offset < |all| ==> offset < end)
    ensures var size := if requested <= 0 then 50 else if requested > 200 then 200 else requested;
      end == if size < |all| - offset then offset + size else |all|
    ensures ServedPage(all, requested, TokenFor(offset)) == Page(all[offset..end], if end < |all| then TokenFor(end) else "")
  {
    hide FormatInt, ParseToken, EncodeRaw, TokenFor, FormatToken, PageOf, PageTokens.DecodePageToken;
    var size := if requested <= 0 then DEFAULT_PAGE_SIZE else if requested > MAX_PAGE_SIZE then MAX_PAGE_SIZE else requested;
    end := PageOfAt(all, size, offset);
    TokenDecodes(offset);
    assert PageTokens.DecodePageToken(TokenFor(offset)) == Some(offset);
    RawTokens(offset);
    RawTokens(end);
  }

  lemma PageOfAt(all: seq<Group>, size: nat, offset: nat) returns (end: nat)
    requires offset <= |all| && size > 0
    ensures offset <= end <= |all| && (offset < |all| ==> offset < end) && (end < |all| ==> end > 0)
    ensures end == if size < |all| - offset then offset + size else |all|
    ensures PageOf(all, size, offset) == Page(all[offset..end], if end < |all| then FormatToken(end) else "")
  {
    end := if offset + size > |all| then |all| else offset + size;
  }

  /** The store's tokens, read by the store and re-encoded by the service. */
  lemma RawTokens(n: nat)
    requires n <= MAX_INT64
    ensures ParseToken(FormatInt(n)) == Some(n)
    ensures n > 0 ==> EncodeRaw(FormatToken(n)) == TokenFor(n)
    ensures EncodeRaw("") == ""
  {
    hide TrimSpace, FormatInt, ParseInt, PageTokens.EncodePageToken;
    NumberIsTrimmed(n);
    ParseFormatInt(n);
    EmptyTokens();
  }

  lemma TokenDecodes(offset: nat)
    requires offset <= MAX_INT64
    ensures PageTokens.DecodePageToken(TokenFor(offset)) == Some(offset)
  {
    if offset > 0 {
      PageTokens.OffsetTokenRoundTrip(offset);
    } else {
      TrimSpaceIsTrimmed("");
    }
  }

  lemma EmptyTokens()
    ensures TrimSpace("") == ""
  {
    TrimSpaceIsTrimmed("");
  }

  ghost predicate IsRun(all: seq<Group>, token: string, sizes: seq<int>, pages: seq<BreakdownResult>)
    decreases |pages|
  {
    && |sizes| == |pages| > 0 && pages[0].Page?
    && ServedPage(all, sizes[0], token) == pages[0]
    && (|pages| > 1 ==> pages[0].nextToken != "" && IsRun(all, pages[0].nextToken, sizes[1..], pages[1..]))
  }

  function GroupsOf(pages: seq<BreakdownResult>): seq<Group> {
    if pages == [] then []
    else (if pages[0].Page? then pages[0].groups else []) + GroupsOf(pages[1..])
  }

  lemma TokenIsNotEmpty(offset: nat)
    requires 0 < offset <= MAX_INT64
    ensures TokenFor(offset) != ""
  {
    TokenDecodes(offset);
    EmptyTokens();
  }

  lemma {:induction false} RunFrom(all: seq<Group>, offset: nat, sizes: seq<int>, pages: seq<BreakdownResult>)
    requires offset <= |all| <= MAX_INT64 && IsRun(all, TokenFor(offset), sizes, pages)
    ensures GroupsOf(pages) <= all[offset..]
    ensures pages[|pages| - 1].Page? && (pages[|pages| - 1].nextToken == "" <==> GroupsOf(pages) == all[offset..])
    ensures |pages| <= |all| - offset + 1
    decreases |pages|
  {
    hide ServedPage, TokenFor;
    var end := PageFrom(all, sizes[0], offset);
    assert all[offset..] == all[offset..end] + all[end..];
    assert GroupsOf(pages) == pages[0].groups + GroupsOf(pages[1..]);
    if end < |all| {
      TokenIsNotEmpty(end);
      if |pages| > 1 {
        RunFrom(all, end, sizes[1..], pages[1..]);
      }
    }
  }

  /** Following the page tokens over a breakdown that stays as it is serves the whole sorted
      list, each group once, in at most one page more than there are groups. */
  lemma PagesAreExact(all: seq<Group>, sizes: seq<int>, pages: seq<BreakdownResult>)
    requires |all| <= MAX_INT64 && IsRun(all, "", sizes, pages)
    ensures GroupsOf(pages) <= all
    ensures pages[|pages| - 1].Page? && (pages[|pages| - 1].nextToken == "" <==> GroupsOf(pages) == all)
    ensures |pages| <= |all| + 1
  {
    assert TokenFor(0) == "" && all[0..] == all;
    RunFrom(all, 0, sizes, pages);
  }

  /** And following them to the end is always possible, whatever the page sizes asked for. */
  lemma {:induction false} BreakdownCanBeRead(all: seq<Group>, offset: nat, size: int) returns (sizes: seq<int>, pages: seq<BreakdownResult>)
    requires offset <= |all| <= MAX_INT64
    ensures IsRun(all, TokenFor(offset), sizes, pages)
    ensures pages[|pages| - 1].Page? && pages[|pages| - 1].nextToken == ""
    decreases |all| - offset
  {
    hide ServedPage, TokenFor;
    var end := PageFrom(all, size, offset);
    var page := ServedPage(all, size, TokenFor(offset));
    sizes, pages := [size], [page];
    if end < |all| {
      TokenIsNotEmpty(end);
      var laterSizes, laterPages := BreakdownCanBeRead(all, end, size);
      sizes, pages := sizes + laterSizes, pages + laterPages;
      assert sizes[1..] == laterSizes && pages[1..] == laterPages;
    }
  }
}
