/** What the aggregates count, told on the records themselves: the buckets of a timeseries and the
    groups of a breakdown (pkg/storage/mocks_eventlogs.go). */
module Counting {
  /** The places of the elements that satisfy `p`. */
  function PlacesOf<T>(s: seq<T>, p: T -> bool): set<nat> { set i | 0 <= i < |s| && p(s[i]) }

  function Number<T>(s: seq<T>, p: T -> bool): nat { |PlacesOf(s, p)| }

  lemma NumberOfNone<T>(p: T -> bool)
    ensures Number([], p) == 0
  {
    assert PlacesOf([], p) == {};
  }

  lemma NumberSnoc<T>(s: seq<T>, x: T, p: T -> bool)
    ensures Number(s + [x], p) == Number(s, p) + if p(x) then 1 else 0
  {
    var before, after := PlacesOf(s, p), PlacesOf(s + [x], p);
    forall i ensures i in after <==> i in before || (i == |s| && p(x)) {
      assert 0 <= i < |s| ==> (s + [x])[i] == s[i];
    }
    assert after == before + if p(x) then {|s|} else {};
  }
}

module TimeseriesOutcomes {
  import opened GoText
  import opened EventLogs
  import opened MockEventLogs
  import opened Timeseries
  import opened Counting

  /** The length of an interval, in nanoseconds. */
  function Length(iv: Interval): nat {
    match iv
    case Hour => 3_600_000_000_000
    case Day => 86_400_000_000_000
    case Week => 604_800_000_000_000
    case _ => 0
  }

  /** Hours and days begin at the full hour and at midnight, weeks on Monday; 1970-01-01, from which
      instants are counted, was a Thursday. */
  lemma StartsOnTheGrid(t: Time, iv: Interval)
    ensures StepOf(iv) == Length(iv)
    ensures iv.Hour? || iv.Day? ==> BucketStart(t, iv) % Length(iv) == 0
    ensures iv.Week? ==> (BucketStart(t, iv) + 3 * 86_400_000_000_000) % Length(iv) == 0
  {
    if StepOf(iv) > 0 {
      BucketStartIsGridFloor(t, iv);
      hide BucketStart;
      MultipleDivides((t - GridOrigin(iv)) / StepOf(iv), StepOf(iv));
    }
  }

  predicate IsIn(r: EventLog, b: Bucket) { b.start <= r.createdAt < b.end }

  function InBucket(b: Bucket): EventLog -> bool { r => IsIn(r, b) }

  function MatchedIn(b: Bucket): EventLog -> bool { r => IsIn(r, b) && r.matched }

  function FailedIn(b: Bucket): EventLog -> bool { r => IsIn(r, b) && Lower(r.status) == "failed" }

  function Requests(rs: seq<EventLog>, b: Bucket): set<string> {
    set i | 0 <= i < |rs| && IsIn(rs[i], b) && rs[i].requestId != "" :: rs[i].requestId
  }

  /** The i-th bucket counts the records created in it: all of them, those that matched, those whose
      status is `failed` in any case of letters, and their different requests. */
  lemma BucketCountsItsRecords(rs: seq<EventLog>, startTime: Time, iv: Interval, i: nat)
    requires StepOf(iv) > 0
    ensures var at := BucketStart(startTime, iv) + i * Length(iv); var b := BucketAt(rs, iv, at);
      && b.start == at && b.end == at + Length(iv)
      && b.eventCount == Number(rs, InBucket(b))
      && b.matchedCount == Number(rs, MatchedIn(b))
      && b.failureCount == Number(rs, FailedIn(b))
      && b.distinctReq == |Requests(rs, b)|
  {
    StartsOnTheGrid(startTime, iv);
    hide StepOf, Length, BucketStart;
    CountsOf(rs, startTime, iv, i, BucketStart(startTime, iv) + i * Length(iv));
  }

  lemma CountsOf(rs: seq<EventLog>, startTime: Time, iv: Interval, i: nat, at: Time)
    requires StepOf(iv) > 0 && at == BucketStart(startTime, iv) + i * StepOf(iv)
    ensures var b := BucketAt(rs, iv, at);
      && b.start == at && b.end == at + StepOf(iv)
      && b.eventCount == Number(rs, InBucket(b)) && b.matchedCount == Number(rs, MatchedIn(b)) && b.failureCount == Number(rs, FailedIn(b))
      && b.distinctReq == |Requests(rs, b)|
  {
    var b := BucketAt(rs, iv, at);
    forall r: EventLog ensures KeyOf(r, iv) == Unix(at) <==> IsIn(r, b) {
      KeyIffIn(r, startTime, iv, i);
    }
    hide Number, Requests, CountAt, RequestsAt, KeyOf, Unix, BucketStart, StepOf, IsIn, Lower;
    CountIsNumber(rs, iv, Unix(at), Events, InBucket(b));
    CountIsNumber(rs, iv, Unix(at), Matched, MatchedIn(b));
    CountIsNumber(rs, iv, Unix(at), Failures, FailedIn(b));
    RequestsAre(rs, iv, Unix(at), b);
  }

  /** Records of the bucket's key are those created in it. */
  lemma KeyIffIn(r: EventLog, startTime: Time, iv: Interval, i: nat)
    requires StepOf(iv) > 0
    ensures var at := BucketStart(startTime, iv) + i * StepOf(iv);
      KeyOf(r, iv) == Unix(at) <==> at <= r.createdAt < at + StepOf(iv)
  {
    hide BucketStart, StepOf, Unix;
    var s, d, b := BucketStart(startTime, iv), StepOf(iv), BucketStart(r.createdAt, iv);
    BucketsTile(startTime, r.createdAt, iv);
    BucketsTile(r.createdAt, startTime, iv);
    var j := (b - s) / d;
    assert b == s + j * d by { FloorBounds(b - s, d); WholeQuotient(b - s, d); }
    SecondsApart(s, i, j, iv);
    if i < j {
      TimesMonotone(i + 1, j, d);
    } else if j < i {
      TimesMonotone(j + 1, i, d);
    }
    assert (i + 1) * d == i * d + d && (j + 1) * d == j * d + d;
  }

  lemma {:induction false} CountIsNumber(rs: seq<EventLog>, iv: Interval, k: int, what: Tally, p: EventLog -> bool)
    requires forall r :: p(r) <==> KeyOf(r, iv) == k && (what.Matched? ==> r.matched) && (what.Failures? ==> Lower(r.status) == "failed")
    ensures CountAt(rs, iv, k, what) == Number(rs, p)
  {
    hide KeyOf, Number, Lower;
    if rs == [] {
      NumberOfNone(p);
    } else {
      var init, r := rs[..|rs| - 1], rs[|rs| - 1];
      assert rs == init + [r];
      CountIsNumber(init, iv, k, what, p);
      NumberSnoc(init, r, p);
    }
  }

  lemma {:induction false} RequestsAre(rs: seq<EventLog>, iv: Interval, k: int, b: Bucket)
    requires forall r: EventLog :: KeyOf(r, iv) == k <==> IsIn(r, b)
    ensures RequestsAt(rs, iv, k) == Requests(rs, b)
  {
    hide KeyOf, IsIn;
    if rs != [] {
      var init, r := rs[..|rs| - 1], rs[|rs| - 1];
      RequestsAre(init, iv, k, b);
      forall x ensures x in Requests(rs, b) <==> x in Requests(init, b) || (IsIn(r, b) && r.requestId != "" && x == r.requestId) {
        if x in Requests(init, b) {
          var i :| 0 <= i < |init| && IsIn(init[i], b) && init[i].requestId != "" && init[i].requestId == x;
          assert rs[i] == init[i];
        }
        if x in Requests(rs, b) {
          var i :| 0 <= i < |rs| && IsIn(rs[i], b) && rs[i].requestId != "" && rs[i].requestId == x;
          assert i < |init| ==> init[i] == rs[i];
        }
        assert rs[|init|] == r;
      }
    }
  }
}

module BreakdownOutcomes {
  import opened GoText
  import opened Sorting
  import opened EventLogs
  import opened MockEventLogs
  import opened Breakdown
  import opened Counting

  /** The record belongs to the group `key`: the field it is grouped by is `key` and not blank. */
  predicate BelongsTo(r: EventLog, g: GroupBy, key: string) {
    TrimSpace(key) != "" &&
    match g
    case ByProvider => r.provider == key
    case ByEvent => r.name == key
    case ByRuleId => r.ruleId == key
    case ByRuleWhen => r.ruleWhen == key
    case ByTopic => r.topic == key
    case ByNamespaceId => r.namespaceId == key
    case ByNamespaceName => r.namespaceName == key
    case ByInstallation => r.installationId == key
    case ByNothing => false
  }

  lemma InGroupIff(r: EventLog, g: GroupBy, key: string)
    ensures InGroup(r, g, key) <==> BelongsTo(r, g, key)
  {
    hide TrimSpace;
    EmptyTokens();
  }

  function Members(g: GroupBy, key: string): EventLog -> bool { r => BelongsTo(r, g, key) }

  function MatchedMembers(g: GroupBy, key: string): EventLog -> bool { r => BelongsTo(r, g, key) && r.matched }

  function FailedMembers(g: GroupBy, key: string): EventLog -> bool { r => BelongsTo(r, g, key) && Lower(r.status) == "failed" }

  function WithLatency(g: GroupBy, key: string, latency: int): EventLog -> bool {
    r => BelongsTo(r, g, key) && r.latencyMs == latency
  }

  /** The groups of a breakdown are those that some record belongs to, and each counts its records:
      all of them, those that matched, and those whose status is `failed` in any case of letters. */
  lemma GroupsCountTheirRecords(rs: seq<EventLog>, g: GroupBy, sortBy: SortBy, desc: bool, includeLatency: bool)
    ensures forall e | e in Groups(rs, g, sortBy, desc, includeLatency) ::
      && e.eventCount == Number(rs, Members(g, e.key)) > 0
      && e.matchedCount == Number(rs, MatchedMembers(g, e.key))
      && e.failureCount == Number(rs, FailedMembers(g, e.key))
    ensures forall r, key | r in rs && BelongsTo(r, g, key) :: exists e :: e in Groups(rs, g, sortBy, desc, includeLatency) && e.key == key
  {
    BreakdownConserves(rs, g, sortBy, desc, includeLatency);
    forall e | e in Groups(rs, g, sortBy, desc, includeLatency)
      ensures e.eventCount == Number(rs, Members(g, e.key))
      ensures e.matchedCount == Number(rs, MatchedMembers(g, e.key)) && e.failureCount == Number(rs, FailedMembers(g, e.key))
    {
      var k := KeyOfListed(rs, g, sortBy, desc, includeLatency, e);
      CountsAreNumbers(rs, g, k);
      hide CountIn, MatchedIn, FailedIn, LatenciesIn, Groups, Number;
    }
    forall r, key | r in rs && BelongsTo(r, g, key)
      ensures exists e :: e in Groups(rs, g, sortBy, desc, includeLatency) && e.key == key
    {
      EveryKeyIsListed(rs, g, sortBy, desc, includeLatency, r, key);
    }
  }

  lemma EveryKeyIsListed(rs: seq<EventLog>, g: GroupBy, sortBy: SortBy, desc: bool, includeLatency: bool, r: EventLog, key: string)
    requires r in rs && BelongsTo(r, g, key)
    ensures exists e :: e in Groups(rs, g, sortBy, desc, includeLatency) && e.key == key
  {
    InGroupIff(r, g, key);
    MembersHaveKey(rs, r, g, key);
    hide Keys, CountIn, GroupAt, InGroup, BelongsTo;
    CountsOutsideKeys(rs, g, key);
    var ks := Keys(rs, g);
    var gs := GroupsAt(rs, g, ks, includeLatency);
    var i :| 0 <= i < |ks| && ks[i] == key;
    KeyOfGroup(rs, g, key, includeLatency);
    SortPermutes(gs, Order(sortBy, desc));
    assert gs[i] in Elements(gs) && gs[i] in Elements(Groups(rs, g, sortBy, desc, includeLatency));
  }

  lemma {:induction false} MembersHaveKey(rs: seq<EventLog>, r: EventLog, g: GroupBy, key: string)
    requires r in rs && InGroup(r, g, key)
    ensures CountIn(rs, g, key) > 0
  {
    hide InGroup;
    if r != rs[|rs| - 1] {
      MembersHaveKey(rs[..|rs| - 1], r, g, key);
    }
  }

  lemma {:induction false} CountsAreNumbers(rs: seq<EventLog>, g: GroupBy, key: string)
    ensures CountIn(rs, g, key) == Number(rs, Members(g, key))
    ensures MatchedIn(rs, g, key) == Number(rs, MatchedMembers(g, key))
    ensures FailedIn(rs, g, key) == Number(rs, FailedMembers(g, key))
  {
    hide InGroup, BelongsTo, Number, Lower;
    if rs == [] {
      NumberOfNone(Members(g, key));
      NumberOfNone(MatchedMembers(g, key));
      NumberOfNone(FailedMembers(g, key));
    } else {
      var init, r := rs[..|rs| - 1], rs[|rs| - 1];
      assert rs == init + [r];
      InGroupIff(r, g, key);
      CountsAreNumbers(init, g, key);
      NumberSnoc(init, r, Members(g, key));
      NumberSnoc(init, r, MatchedMembers(g, key));
      NumberSnoc(init, r, FailedMembers(g, key));
    }
  }

  /** The latencies of a group are the positive ones of its records. */
  lemma {:induction false} LatenciesAreTheirs(rs: seq<EventLog>, g: GroupBy, key: string, latency: int)
    ensures multiset(LatenciesIn(rs, g, key))[latency] == if latency > 0 then Number(rs, WithLatency(g, key, latency)) else 0
  {
    hide InGroup, BelongsTo, Number;
    if rs == [] {
      NumberOfNone(WithLatency(g, key, latency));
    } else {
      var init, r := rs[..|rs| - 1], rs[|rs| - 1];
      assert rs == init + [r];
      InGroupIff(r, g, key);
      LatenciesAreTheirs(init, g, key, latency);
      NumberSnoc(init, r, WithLatency(g, key, latency));
    }
  }

  /** The percentile `p` of n ascending values is the one at the last place that is not beyond (n - 1) * p. */
  lemma PercentileIsAtItsPlace(values: seq<int>, p: real) returns (i: nat)
    requires values != [] && 0.0 < p < 1.0
    ensures i < |values| && i as real <= (|values| - 1) as real * p < i as real + 1.0
    ensures Percentile(values, p) == values[i] as real
  {
    i := IndexOfPercentile(values, p);
  }

  /** With latencies, a group's three figures are those percentiles of its latencies in ascending order. */
  lemma GroupHasItsPercentiles(rs: seq<EventLog>, g: GroupBy, sortBy: SortBy, desc: bool, includeLatency: bool, e: Group) returns (values: seq<int>)
    requires e in Groups(rs, g, sortBy, desc, includeLatency)
    ensures multiset(values) == multiset(LatenciesIn(rs, g, e.key)) && forall i, j | 0 <= i < j < |values| :: values[i] <= values[j]
    ensures includeLatency && values != [] ==>
      e.p50 == Percentile(values, 0.50) && e.p95 == Percentile(values, 0.95) && e.p99 == Percentile(values, 0.99)
  {
    var k := KeyOfListed(rs, g, sortBy, desc, includeLatency, e);
    values := Sort(LatenciesIn(rs, g, k), Ascending());
    hide LatenciesIn, CountIn, MatchedIn, FailedIn, Percentile, Groups;
    SortPermutes(LatenciesIn(rs, g, k), Ascending());
    AscendingSort(LatenciesIn(rs, g, k));
    hide Sort;
  }

  // ---------- the order ----------

  /** The count the breakdown is sorted by. */
  function Figure(e: Group, sortBy: SortBy): nat {
    if sortBy.SortMatched? then e.matchedCount else if sortBy.SortFailed? then e.failureCount else e.eventCount
  }

  /** The list descends by the count asked for, or ascends by it; groups of one count are listed by
      ascending keys in a descending list and by descending keys in an ascending one. */
  lemma ListedByFigure(rs: seq<EventLog>, g: GroupBy, sortBy: SortBy, desc: bool, includeLatency: bool, i: nat, j: nat)
    requires i < j < |Groups(rs, g, sortBy, desc, includeLatency)|
    ensures var out := Groups(rs, g, sortBy, desc, includeLatency); var a, b := out[i], out[j];
      && (if desc then Figure(a, sortBy) >= Figure(b, sortBy) else Figure(a, sortBy) <= Figure(b, sortBy))
      && (Figure(a, sortBy) == Figure(b, sortBy) ==> if desc then Less(a.key, b.key) else Less(b.key, a.key))
  {
    var out := Groups(rs, g, sortBy, desc, includeLatency);
    GroupsAreSorted(rs, g, sortBy, desc, includeLatency);
    var a, b := out[i], out[j];
    assert !Order(sortBy, desc)(b, a) && a.key != b.key;
    LessIsStrictTotal(a.key, b.key);
    hide Groups;
  }

  lemma GroupsAreSorted(rs: seq<EventLog>, g: GroupBy, sortBy: SortBy, desc: bool, includeLatency: bool)
    ensures Sorted(Order(sortBy, desc), Groups(rs, g, sortBy, desc, includeLatency))
    ensures forall i, j | 0 <= i < j < |Groups(rs, g, sortBy, desc, includeLatency)| ::
      Groups(rs, g, sortBy, desc, includeLatency)[i].key != Groups(rs, g, sortBy, desc, includeLatency)[j].key
  {
    hide GroupAt, Keys, Sort;
    var ks := Keys(rs, g);
    var gs := GroupsAt(rs, g, ks, includeLatency);
    forall k ensures GroupAt(rs, g, k, includeLatency).key == k {
      KeyOfGroup(rs, g, k, includeLatency);
    }
    KeyedGroups(gs, ks, rs, g, includeLatency);
    OrderIsStrict(Elements(gs), sortBy, desc);
    SortSorts(gs, Order(sortBy, desc));
    SortPermutes(gs, Order(sortBy, desc));
    NoDuplicatesOfMultiset(gs, Sort(gs, Order(sortBy, desc)));
    var out := Groups(rs, g, sortBy, desc, includeLatency);
    forall i, j | 0 <= i < j < |out| ensures out[i].key != out[j].key {
      assert out[i] in Elements(gs) && out[j] in Elements(gs);
    }
  }
}
