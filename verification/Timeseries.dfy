/** Gap-filled time buckets: GetEventLogTimeseries, mockBucketStart and mockIntervalDuration in
    pkg/storage/mocks_eventlogs.go (the same bucketStart is in store_timeseries.go). */
module Timeseries {
  import opened Sorting
  import opened EventLogs
  import opened Calendar
  import opened MockEventLogs
  import PageTokens

  const SECOND := 1_000_000_000
  const HOUR := 3600 * SECOND
  const DAY := 24 * HOUR

  /** `Unset` is the empty interval string; `Other` any string that names no interval. */
  datatype Interval = Unset | Hour | Day | Week | Other

  // mockIntervalDuration
  function StepOf(iv: Interval): (d: nat)
    ensures d > 0 <==> iv.Hour? || iv.Day? || iv.Week?
    ensures d % SECOND == 0
  {
    match iv
    case Hour => HOUR
    case Day => DAY
    case Week => 7 * DAY
    case _ => 0
  }

  function DayOf(t: Time): int { t / DAY }

  // mockBucketStart
  function BucketStart(t: Time, iv: Interval): Time {
    match iv
    case Hour => t - (t - PageTokens.ZERO_TIME) % HOUR   // Truncate counts from the zero time
    case Day =>
      var c := CivilOf(DayOf(t));
      DateDay(c.year, c.month, c.day) * DAY
    case Week =>
      var c := CivilOf(DayOf(t));
      var day := DateDay(c.year, c.month, c.day);
      var shift := (Weekday(day) + 6) % 7;
      var d := CivilOf(day);
      DateDay(d.year, d.month, d.day - shift) * DAY      // AddDate(0, 0, -shift)
    case _ => t
  }

  /** The grid of each interval: hours and days start at the epoch, weeks on a Monday. */
  function GridOrigin(iv: Interval): Time { if iv.Week? then -3 * DAY else 0 }

  function GridFloor(t: Time, iv: Interval): Time
    requires StepOf(iv) > 0
  {
    GridOrigin(iv) + (t - GridOrigin(iv)) / StepOf(iv) * StepOf(iv)
  }

  lemma HourFloor(t: Time)
    ensures BucketStart(t, Hour) == GridFloor(t, Hour)
  {
    assert PageTokens.ZERO_TIME == -17259888 * HOUR;
    assert t == t / HOUR * HOUR + t % HOUR;
  }

  lemma BucketStartIsGridFloor(t: Time, iv: Interval)
    requires StepOf(iv) > 0
    ensures BucketStart(t, iv) == GridFloor(t, iv)
  {
    hide CivilOf, DateDay, Weekday;
    CivilRoundTrip(DayOf(t));
    match iv
    case Hour =>
      HourFloor(t);
    case Day =>
    case Week =>
      MondayShiftIsFloor(DayOf(t));
      DateIsLinear(DayOf(t), (Weekday(DayOf(t)) + 6) % 7);
      WeekFloor(t);
  }

  lemma DateIsLinear(day: int, shift: nat)
    ensures DateDay(CivilOf(day).year, CivilOf(day).month, CivilOf(day).day - shift) == day - shift
  {
    CivilRoundTrip(day);
  }

  lemma WeekFloor(t: Time)
    ensures ((DayOf(t) + 3) / 7 * 7 - 3) * DAY == -3 * DAY + (t + 3 * DAY) / (7 * DAY) * (7 * DAY)
  {
    var q := t / DAY;
    assert (t + 3 * DAY) / DAY == q + 3;
    assert (t + 3 * DAY) / (7 * DAY) == (q + 3) / 7;
  }

  lemma FloorBounds(x: int, d: nat)
    requires d > 0
    ensures x / d * d <= x < x / d * d + d
  {
  }

  lemma FloorMonotone(x: int, y: int, d: nat)
    requires d > 0 && x <= y
    ensures x / d <= y / d && x / d * d <= y / d * d
  {
    FloorBounds(x, d);
    FloorBounds(y, d);
    TimesMonotone(y / d + 1, x / d, d);
    TimesMonotone(x / d, y / d, d);
    assert (y / d + 1) * d == y / d * d + d;
  }

  lemma FloorFacts(x: int, y: int, d: nat)
    requires d > 0
    ensures x / d * d <= x < x / d * d + d
    ensures x / d * d / d == x / d
    ensures x <= y ==> x / d * d <= y / d * d
    ensures (y / d * d - x / d * d) % d == 0
  {
    FloorBounds(x, d);
    var p, q := x / d, y / d;
    MultipleDivides(p, d);
    MultipleDivides(q - p, d);
    assert (q - p) * d == q * d - p * d;
    if x <= y { FloorMonotone(x, y, d); }
  }

  lemma MultipleDivides(q: int, d: nat)
    requires d > 0
    ensures q * d / d == q && q * d % d == 0
  {
    OneQuotient(q * d, d, q, 0);
  }

  lemma TimesMonotone(a: int, b: int, d: nat)
    ensures a <= b ==> a * d <= b * d
  {
  }

  lemma OneQuotient(n: int, d: nat, q: int, r: nat)
    requires r < d && n == q * d + r
    ensures n / d == q && n % d == r
  {
    var e := q - n / d;
    assert e * d == n % d - r;
    TimesMonotone(1, e, d);
    TimesMonotone(e, -1, d);
  }

  /** A bucket holds its instant; starting points are fixed; later instants are not in earlier
      buckets; two starting points are a whole number of steps apart, and whole seconds. */
  lemma BucketsTile(t: Time, u: Time, iv: Interval)
    requires StepOf(iv) > 0
    ensures BucketStart(t, iv) <= t < BucketStart(t, iv) + StepOf(iv)
    ensures BucketStart(BucketStart(t, iv), iv) == BucketStart(t, iv)
    ensures t <= u ==> BucketStart(t, iv) <= BucketStart(u, iv)
    ensures (BucketStart(u, iv) - BucketStart(t, iv)) % StepOf(iv) == 0
    ensures BucketStart(t, iv) % SECOND == 0
  {
    hide BucketStart;
    var o, d := GridOrigin(iv), StepOf(iv);
    BucketStartIsGridFloor(t, iv);
    BucketStartIsGridFloor(u, iv);
    BucketStartIsGridFloor(BucketStart(t, iv), iv);
    FloorFacts(t - o, u - o, d);
    WholeSeconds((t - o) / d, iv);
  }

  lemma WholeSeconds(q: int, iv: Interval)
    ensures (GridOrigin(iv) + q * StepOf(iv)) % SECOND == 0
  {
    var k := GridOrigin(iv) / SECOND + q * (StepOf(iv) / SECOND);
    assert GridOrigin(iv) == GridOrigin(iv) / SECOND * SECOND;
    assert q * StepOf(iv) == q * (StepOf(iv) / SECOND) * SECOND;
    MultipleDivides(k, SECOND);
  }

  // ---------- counting ----------

  datatype Tally = Events | Matched | Failures

  predicate Counts(what: Tally, r: EventLog) {
    match what
    case Events => true
    case Matched => r.matched
    case Failures => IsFailed(r)
  }

  function Unix(t: Time): int { t / SECOND }

  function KeyOf(r: EventLog, iv: Interval): int { Unix(BucketStart(r.createdAt, iv)) }

  /** Records in the bucket that starts at second `k`. */
  function CountAt(rs: seq<EventLog>, iv: Interval, k: int, what: Tally): nat {
    if rs == [] then 0
    else
      var r := rs[|rs| - 1];
      CountAt(rs[..|rs| - 1], iv, k, what) + if KeyOf(r, iv) == k && Counts(what, r) then 1 else 0
  }

  function RequestsAt(rs: seq<EventLog>, iv: Interval, k: int): set<string> {
    if rs == [] then {}
    else
      var r := rs[|rs| - 1];
      RequestsAt(rs[..|rs| - 1], iv, k) + if KeyOf(r, iv) == k && r.requestId != "" then {r.requestId} else {}
  }

  function Total(rs: seq<EventLog>, what: Tally): nat {
    if rs == [] then 0
    else Total(rs[..|rs| - 1], what) + if Counts(what, rs[|rs| - 1]) then 1 else 0
  }

  lemma {:induction false} CountAppend(a: seq<EventLog>, b: seq<EventLog>, iv: Interval, k: int, what: Tally)
    ensures CountAt(a + b, iv, k, what) == CountAt(a, iv, k, what) + CountAt(b, iv, k, what)
    ensures RequestsAt(a + b, iv, k) == RequestsAt(a, iv, k) + RequestsAt(b, iv, k)
  {
    hide KeyOf, Counts;
    if b == [] {
      assert a + b == a;
    } else {
      assert (a + b)[..|a + b| - 1] == a + b[..|b| - 1];
      CountAppend(a, b[..|b| - 1], iv, k, what);
    }
  }

  lemma {:induction false} CountPermutes(a: seq<EventLog>, b: seq<EventLog>, iv: Interval, k: int, what: Tally)
    requires multiset(a) == multiset(b)
    ensures CountAt(a, iv, k, what) == CountAt(b, iv, k, what)
    ensures RequestsAt(a, iv, k) == RequestsAt(b, iv, k)
  {
    SameMultisetSameElements(a, b);
    if a != [] {
      var init, x := a[..|a| - 1], a[|a| - 1];
      assert a == init + [x];
      var b1, b2 := SplitPermutation(init, x, b);
      CountPermutes(init, b1 + b2, iv, k, what);
      hide CountAt, RequestsAt;
      CountAppend(init, [x], iv, k, what);
      CountAppend(b1, b2, iv, k, what);
      CountAppend(b1, [x], iv, k, what);
      CountAppend(b1 + [x], b2, iv, k, what);
    }
  }

  // ---------- the buckets add up ----------

  predicate InRange(rs: seq<EventLog>, startTime: Time, endTime: Time) {
    forall i | 0 <= i < |rs| :: startTime <= rs[i].createdAt <= endTime
  }

  lemma StartsBefore(t: Time, iv: Interval)
    requires StepOf(iv) > 0
    ensures BucketStart(t, iv) <= t
  {
    hide *;
    BucketsTile(t, t, iv);
  }

  function Quotient(n: nat, d: nat): nat
    requires d > 0
  {
    n / d
  }

  function BucketTotal(startTime: Time, endTime: Time, iv: Interval): (n: nat)
    requires StepOf(iv) > 0 && startTime <= endTime
  {
    StartsBefore(startTime, iv);
    Quotient(endTime - BucketStart(startTime, iv), StepOf(iv)) + 1
  }

  function BucketKey(startTime: Time, iv: Interval, i: int): int {
    Unix(BucketStart(startTime, iv) + i * StepOf(iv))
  }

  /** The counts of the first `n` buckets, summed. */
  function SumOfCounts(rs: seq<EventLog>, startTime: Time, iv: Interval, n: nat, what: Tally): nat {
    if n == 0 then 0
    else SumOfCounts(rs, startTime, iv, n - 1, what) + CountAt(rs, iv, BucketKey(startTime, iv, n - 1), what)
  }

  /** The record has the key of the j-th bucket and of no other. */
  ghost predicate IsBucketOf(r: EventLog, startTime: Time, iv: Interval, j: nat) {
    forall i: int :: KeyOf(r, iv) == BucketKey(startTime, iv, i) <==> i == j
  }

  /** Every record in range has exactly one of the buckets. */
  lemma RecordHasBucket(r: EventLog, startTime: Time, endTime: Time, iv: Interval) returns (j: nat)
    requires StepOf(iv) > 0 && startTime <= r.createdAt <= endTime
    ensures j < BucketTotal(startTime, endTime, iv)
    ensures IsBucketOf(r, startTime, iv, j)
    ensures BucketStart(r.createdAt, iv) == BucketStart(startTime, iv) + j * StepOf(iv)
  {
    hide BucketStart, StepOf, Unix;
    var s, b, d := BucketStart(startTime, iv), BucketStart(r.createdAt, iv), StepOf(iv);
    BucketsTile(startTime, r.createdAt, iv);
    BucketsTile(r.createdAt, startTime, iv);
    j := Quotient(b - s, d);
    assert b - s == j * d by { FloorBounds(b - s, d); WholeQuotient(b - s, d); }
    FloorMonotone(b - s, endTime - s, d);
    forall i: int ensures KeyOf(r, iv) == BucketKey(startTime, iv, i) <==> i == j {
      SecondsApart(s, i, j, iv);
    }
  }

  lemma WholeQuotient(n: int, d: nat)
    requires d > 0 && n % d == 0
    ensures n == n / d * d
  {
  }

  lemma SecondsApart(s: Time, i: int, j: int, iv: Interval)
    requires StepOf(iv) > 0 && s % SECOND == 0
    ensures Unix(s + i * StepOf(iv)) == Unix(s + j * StepOf(iv)) <==> i == j
  {
    var d := StepOf(iv) / SECOND;
    assert StepOf(iv) == d * SECOND && d > 0;
    assert i * StepOf(iv) == i * d * SECOND && j * StepOf(iv) == j * d * SECOND;
    OneQuotient(s + i * StepOf(iv), SECOND, s / SECOND + i * d, 0);
    OneQuotient(s + j * StepOf(iv), SECOND, s / SECOND + j * d, 0);
    if i * d == j * d {
      assert (i - j) * d == 0;
    }
  }

  lemma {:induction false} SumOfNothing(startTime: Time, iv: Interval, n: nat, what: Tally)
    ensures SumOfCounts([], startTime, iv, n, what) == 0
  {
    if n > 0 {
      SumOfNothing(startTime, iv, n - 1, what);
    }
  }

  lemma SumSnoc(rs: seq<EventLog>, startTime: Time, iv: Interval, n: nat, what: Tally)
    requires n > 0
    ensures SumOfCounts(rs, startTime, iv, n, what) == SumOfCounts(rs, startTime, iv, n - 1, what) + CountAt(rs, iv, BucketKey(startTime, iv, n - 1), what)
  {
    hide CountAt, BucketKey;
  }

  lemma CountSnoc(rs: seq<EventLog>, r: EventLog, iv: Interval, k: int, what: Tally)
    ensures CountAt(rs + [r], iv, k, what) == CountAt(rs, iv, k, what) + if KeyOf(r, iv) == k && Counts(what, r) then 1 else 0
  {
    assert (rs + [r])[..|rs|] == rs;
  }

  lemma {:induction false} SumAddsOne(rs: seq<EventLog>, r: EventLog, startTime: Time, iv: Interval, n: nat, j: nat, what: Tally)
    requires IsBucketOf(r, startTime, iv, j)
    ensures SumOfCounts(rs + [r], startTime, iv, n, what)
         == SumOfCounts(rs, startTime, iv, n, what) + if j < n && Counts(what, r) then 1 else 0
  {
    if n > 0 {
      SumSnoc(rs, startTime, iv, n, what);
      SumSnoc(rs + [r], startTime, iv, n, what);
      hide KeyOf, BucketKey, Counts, CountAt, SumOfCounts;
      assert KeyOf(r, iv) == BucketKey(startTime, iv, n - 1) <==> n - 1 == j;
      SumAddsOne(rs, r, startTime, iv, n - 1, j, what);
      CountSnoc(rs, r, iv, BucketKey(startTime, iv, n - 1), what);
    }
  }

  /** The buckets' event, matched and failure counts sum to the totals over the records. */
  lemma {:induction false} CountsAreConserved(rs: seq<EventLog>, startTime: Time, endTime: Time, iv: Interval, what: Tally)
    requires StepOf(iv) > 0 && startTime <= endTime && InRange(rs, startTime, endTime)
    ensures SumOfCounts(rs, startTime, iv, BucketTotal(startTime, endTime, iv), what) == Total(rs, what)
  {
    var n := BucketTotal(startTime, endTime, iv);
    if rs == [] {
      SumOfNothing(startTime, iv, n, what);
    } else {
      var init, r := rs[..|rs| - 1], rs[|rs| - 1];
      assert InRange(init, startTime, endTime) && startTime <= r.createdAt <= endTime;
      hide SumOfCounts, KeyOf, BucketKey, BucketTotal, StepOf, Counts, InRange, Total, IsBucketOf;
      CountsAreConserved(init, startTime, endTime, iv, what);
      var j := RecordHasBucket(r, startTime, endTime, iv);
      SumAddsOne(init, r, startTime, iv, n, j, what);
      TotalAddsOne(init, r, what);
      LastOf(rs);
    }
  }

  lemma LastOf<T>(s: seq<T>)
    requires s != []
    ensures s == s[..|s| - 1] + [s[|s| - 1]]
  {
  }

  lemma TotalAddsOne(rs: seq<EventLog>, r: EventLog, what: Tally)
    ensures Total(rs + [r], what) == Total(rs, what) + if Counts(what, r) then 1 else 0
  {
    assert (rs + [r])[..|rs|] == rs;
  }

  // ---------- GetEventLogTimeseries ----------

  datatype Bucket = Bucket(start: Time, end: Time, eventCount: nat, matchedCount: nat, distinctReq: nat, failureCount: nat)

  datatype BucketData = BucketData(bucket: Bucket, reqs: set<string>)

  datatype TimeseriesResult = Buckets(out: seq<Bucket>) | Invalid(reason: string)

  /** What the map of buckets holds for second `k` after the records `rs`. */
  function DataAt(rs: seq<EventLog>, iv: Interval, k: int): BucketData {
    BucketData(
      Bucket(k * SECOND, k * SECOND + StepOf(iv), CountAt(rs, iv, k, Events), CountAt(rs, iv, k, Matched), 0, CountAt(rs, iv, k, Failures)),
      RequestsAt(rs, iv, k))
  }

  /** The bucket that starts at `b`, as a scan over the records would count it. */
  function BucketAt(rs: seq<EventLog>, iv: Interval, b: Time): Bucket {
    Bucket(b, b + StepOf(iv), CountAt(rs, iv, Unix(b), Events), CountAt(rs, iv, Unix(b), Matched),
           |RequestsAt(rs, iv, Unix(b))|, CountAt(rs, iv, Unix(b), Failures))
  }

  ghost predicate Tallied(buckets: map<int, BucketData>, rs: seq<EventLog>, iv: Interval) {
    && (forall k: int :: k in buckets <==> CountAt(rs, iv, k, Events) > 0)
    && (forall k | k in buckets :: buckets[k] == DataAt(rs, iv, k))
  }

  lemma {:induction false} NothingCounted(rs: seq<EventLog>, iv: Interval, k: int)
    requires CountAt(rs, iv, k, Events) == 0
    ensures CountAt(rs, iv, k, Matched) == CountAt(rs, iv, k, Failures) == 0 && RequestsAt(rs, iv, k) == {}
    ensures DataAt(rs, iv, k) == DataAt([], iv, k)
  {
    hide KeyOf;
    if rs != [] {
      NothingCounted(rs[..|rs| - 1], iv, k);
    }
  }

  /** An entry that counts one more record. */
  function CountOne(entry: BucketData, r: EventLog): BucketData {
    BucketData(
      entry.bucket.(eventCount := entry.bucket.eventCount + 1,
                    matchedCount := entry.bucket.matchedCount + if r.matched then 1 else 0,
                    failureCount := entry.bucket.failureCount + if IsFailed(r) then 1 else 0),
      entry.reqs + if r.requestId != "" then {r.requestId} else {})
  }

  lemma DataSnoc(rs: seq<EventLog>, r: EventLog, iv: Interval, k: int)
    ensures DataAt(rs + [r], iv, k) == if KeyOf(r, iv) == k then CountOne(DataAt(rs, iv, k), r) else DataAt(rs, iv, k)
    ensures CountAt(rs + [r], iv, k, Events) == CountAt(rs, iv, k, Events) + if KeyOf(r, iv) == k then 1 else 0
  {
    hide KeyOf, IsFailed;
    assert (rs + [r])[..|rs|] == rs;
  }

  /** One record more: its bucket's entry, made if need be, counts it. */
  lemma TallyOne(buckets: map<int, BucketData>, rs: seq<EventLog>, r: EventLog, iv: Interval, entry: BucketData)
    requires Tallied(buckets, rs, iv)
    requires entry == if KeyOf(r, iv) in buckets then buckets[KeyOf(r, iv)] else DataAt([], iv, KeyOf(r, iv))
    ensures Tallied(buckets[KeyOf(r, iv) := CountOne(entry, r)], rs + [r], iv)
  {
    hide KeyOf, CountOne, CountAt, DataAt;
    var key := KeyOf(r, iv);
    if key !in buckets {
      NothingCounted(rs, iv, key);
    }
    forall k: int
      ensures DataAt(rs + [r], iv, k) == if key == k then CountOne(DataAt(rs, iv, k), r) else DataAt(rs, iv, k)
      ensures CountAt(rs + [r], iv, k, Events) == CountAt(rs, iv, k, Events) + if key == k then 1 else 0
    {
      DataSnoc(rs, r, iv, k);
    }
  }

  lemma EmptyTally(iv: Interval)
    ensures Tallied(map[], [], iv)
  {
  }

  lemma EmptyEntry(bucket: Time, iv: Interval)
    requires bucket % SECOND == 0
    ensures BucketData(Bucket(bucket, bucket + StepOf(iv), 0, 0, 0, 0), {}) == DataAt([], iv, Unix(bucket))
  {
  }

  method CountRecords(filtered: seq<EventLog>, iv: Interval, start: Time, end: Time) returns (buckets: map<int, BucketData>)
    requires StepOf(iv) > 0
    requires forall i | 0 <= i < |filtered| :: start <= filtered[i].createdAt <= end
    ensures Tallied(buckets, filtered, iv)
  {
    hide BucketStart, StepOf, Tallied, DataAt, Unix, IsFailed;
    buckets := map[];
    EmptyTally(iv);
    var step := StepOf(iv);
    for i := 0 to |filtered|
      invariant Tallied(buckets, filtered[..i], iv)
    {
      var record := filtered[i];
      var ts := record.createdAt;
      if ts < start || ts > end { continue; }
      var bucket := BucketStart(ts, iv);
      var key := Unix(bucket);
      var entry := if key in buckets then buckets[key]
                   else BucketData(Bucket(bucket, bucket + step, 0, 0, 0, 0), {});
      assert key !in buckets ==> entry == DataAt([], iv, key) by {
        BucketsTile(ts, ts, iv);
        EmptyEntry(bucket, iv);
      }
      assert filtered[..i + 1] == filtered[..i] + [record];
      TallyOne(buckets, filtered[..i], record, iv, entry);
      var b := entry.bucket.(eventCount := entry.bucket.eventCount + 1);
      if record.matched {
        b := b.(matchedCount := b.matchedCount + 1);
      }
      var reqs := entry.reqs;
      if record.requestId != "" {
        reqs := reqs + {record.requestId};
      }
      if IsFailed(record) {
        b := b.(failureCount := b.failureCount + 1);
      }
      assert BucketData(b, reqs) == CountOne(entry, record);
      buckets := buckets[key := BucketData(b, reqs)];
    }
    assert filtered[..|filtered|] == filtered;
  }

  /** What the gap-filling loop appends for the bucket at `cursor`. */
  lemma GapOrEntry(buckets: map<int, BucketData>, rs: seq<EventLog>, iv: Interval, cursor: Time)
    requires Tallied(buckets, rs, iv) && cursor == Unix(cursor) * SECOND
    ensures BucketAt(rs, iv, cursor) ==
      if Unix(cursor) in buckets then buckets[Unix(cursor)].bucket.(distinctReq := |buckets[Unix(cursor)].reqs|)
      else Bucket(cursor, cursor + StepOf(iv), 0, 0, 0, 0)
  {
    hide CountAt, RequestsAt, StepOf, Unix;
    if Unix(cursor) !in buckets {
      NothingCounted(rs, iv, Unix(cursor));
    }
  }

  method FillGaps(buckets: map<int, BucketData>, ghost rs: seq<EventLog>, iv: Interval, startTime: Time, end: Time)
    returns (out: seq<Bucket>)
    requires StepOf(iv) > 0 && startTime <= end && Tallied(buckets, rs, iv)
    ensures |out| == BucketTotal(startTime, end, iv)
    ensures forall i | 0 <= i < |out| :: out[i] == BucketAt(rs, iv, BucketStart(startTime, iv) + i * StepOf(iv))
  {
    hide BucketStart, StepOf, Tallied, BucketAt, Unix;
    var start, step := BucketStart(startTime, iv), StepOf(iv);
    StartsBefore(startTime, iv);
    out := [];
    var cursor := start;
    while cursor <= end
      invariant cursor == start + |out| * step && |out| <= BucketTotal(startTime, end, iv)
      invariant forall i | 0 <= i < |out| :: out[i] == BucketAt(rs, iv, start + i * step)
      decreases end + step - cursor
    {
      var key := Unix(cursor);
      assert cursor == key * SECOND by {
        BucketsTile(startTime, startTime, iv);
        WholeSeconds2(start, |out|, iv);
      }
      StepsWithin(end - start, |out|, step);
      GapOrEntry(buckets, rs, iv, cursor);
      if key in buckets {
        var entry := buckets[key];
        out := out + [entry.bucket.(distinctReq := |entry.reqs|)];
      } else {
        out := out + [Bucket(cursor, cursor + step, 0, 0, 0, 0)];
      }
      cursor := cursor + step;
    }
    StepsBeyond(end - start, |out|, step);
  }

  lemma WholeSeconds2(start: Time, n: nat, iv: Interval)
    requires start % SECOND == 0
    ensures start + n * StepOf(iv) == Unix(start + n * StepOf(iv)) * SECOND
  {
    var d := StepOf(iv) / SECOND;
    assert n * StepOf(iv) == n * d * SECOND;
    OneQuotient(start + n * StepOf(iv), SECOND, start / SECOND + n * d, 0);
  }

  lemma StepsWithin(span: nat, n: nat, step: nat)
    requires step > 0 && n * step <= span
    ensures n <= span / step
  {
    FloorMonotone(n * step, span, step);
    MultipleDivides(n, step);
  }

  lemma StepsBeyond(span: nat, n: nat, step: nat)
    requires step > 0 && span < n * step
    ensures span / step + 1 <= n
  {
    FloorBounds(span, step);
    if n <= span / step {
      TimesMonotone(n, span / step, step);
    }
  }

  lemma BucketPermutes(a: seq<EventLog>, b: seq<EventLog>, iv: Interval, at: Time)
    requires multiset(a) == multiset(b)
    ensures BucketAt(a, iv, at) == BucketAt(b, iv, at)
  {
    hide Unix, StepOf;
    CountPermutes(a, b, iv, Unix(at), Events);
    CountPermutes(a, b, iv, Unix(at), Matched);
    CountPermutes(a, b, iv, Unix(at), Failures);
  }

  lemma SelectedInRange(values: seq<EventLog>, c: Criteria, tenant: string, filtered: seq<EventLog>)
    requires multiset(filtered) == multiset(Selected(values, c, tenant))
    requires c.startTime != PageTokens.ZERO_TIME && c.endTime != PageTokens.ZERO_TIME
    ensures InRange(filtered, c.startTime, c.endTime)
  {
    SameMultisetSameElements(filtered, Selected(values, c, tenant));
    forall i | 0 <= i < |filtered| ensures c.startTime <= filtered[i].createdAt <= c.endTime {
      assert filtered[i] in Elements(filtered);
      assert filtered[i] in Selected(values, c, tenant);
    }
  }

  // GetEventLogTimeseries
  method GetEventLogTimeseries(store: MockEventLogStore, c: Criteria, tenant: string, iv: Interval) returns (r: TimeseriesResult)
    ensures r.Buckets? <==>
      && iv in {Hour, Day, Week}
      && c.startTime != PageTokens.ZERO_TIME && c.endTime != PageTokens.ZERO_TIME && c.startTime <= c.endTime
    ensures r.Buckets? ==>
      && |r.out| == BucketTotal(c.startTime, c.endTime, iv)
      && forall i | 0 <= i < |r.out| ::
           r.out[i] == BucketAt(Selected(store.values, c, tenant), iv, BucketStart(c.startTime, iv) + i * StepOf(iv))
  {
    hide BucketStart, Selected, BucketAt, Matches, BucketTotal;
    if iv.Unset? {
      return Invalid("interval is required");
    }
    if c.startTime == PageTokens.ZERO_TIME || c.endTime == PageTokens.ZERO_TIME {
      return Invalid("start_time and end_time are required");
    }
    if c.endTime < c.startTime {
      return Invalid("end_time must be after start_time");
    }
    var filtered := store.ListAll(c, tenant);
    var step := StepOf(iv);
    if step <= 0 {
      return Invalid("invalid interval");
    }
    SelectedInRange(store.values, c, tenant, filtered);
    var out := CountAndFill(filtered, Selected(store.values, c, tenant), iv, c.startTime, c.endTime);
    return Buckets(out);
  }

  /** The two loops of GetEventLogTimeseries, over records that may be in any order. */
  method CountAndFill(filtered: seq<EventLog>, ghost chosen: seq<EventLog>, iv: Interval, startTime: Time, endTime: Time)
    returns (out: seq<Bucket>)
    requires StepOf(iv) > 0 && startTime <= endTime
    requires InRange(filtered, startTime, endTime) && multiset(filtered) == multiset(chosen)
    ensures |out| == BucketTotal(startTime, endTime, iv)
    ensures forall i | 0 <= i < |out| :: out[i] == BucketAt(chosen, iv, BucketStart(startTime, iv) + i * StepOf(iv))
  {
    hide BucketStart, Tallied, BucketAt, BucketTotal;
    StartsBefore(startTime, iv);
    var buckets := CountRecords(filtered, iv, BucketStart(startTime, iv), endTime);
    out := FillGaps(buckets, filtered, iv, startTime, endTime);
    forall i | 0 <= i < |out|
      ensures out[i] == BucketAt(chosen, iv, BucketStart(startTime, iv) + i * StepOf(iv))
    {
      BucketPermutes(filtered, chosen, iv, BucketStart(startTime, iv) + i * StepOf(iv));
    }
  }

  /** The buckets of a timeseries are contiguous, cover the whole range, and account for every
      selected record once: their counts sum to the totals. */
  lemma TimeseriesConserves(rs: seq<EventLog>, startTime: Time, endTime: Time, iv: Interval, out: seq<Bucket>)
    requires StepOf(iv) > 0 && startTime <= endTime && InRange(rs, startTime, endTime)
    requires |out| == BucketTotal(startTime, endTime, iv)
    requires forall i | 0 <= i < |out| :: out[i] == BucketAt(rs, iv, BucketStart(startTime, iv) + i * StepOf(iv))
    ensures out[0].start <= startTime && endTime < out[|out| - 1].end
    ensures forall i | 0 <= i < |out| - 1 :: out[i].end == out[i + 1].start
    ensures SumEvents(out) == Total(rs, Events) && SumMatched(out) == Total(rs, Matched) && SumFailures(out) == Total(rs, Failures)
  {
    hide *;
    BucketsCover(rs, startTime, endTime, iv, out);
    CountsAreConserved(rs, startTime, endTime, iv, Events);
    CountsAreConserved(rs, startTime, endTime, iv, Matched);
    CountsAreConserved(rs, startTime, endTime, iv, Failures);
    SumsAgree(rs, startTime, iv, out, |out|);
    assert out[..|out|] == out;
  }

  lemma BucketsCover(rs: seq<EventLog>, startTime: Time, endTime: Time, iv: Interval, out: seq<Bucket>)
    requires StepOf(iv) > 0 && startTime <= endTime && |out| == BucketTotal(startTime, endTime, iv)
    requires forall i | 0 <= i < |out| :: out[i] == BucketAt(rs, iv, BucketStart(startTime, iv) + i * StepOf(iv))
    ensures |out| > 0 && out[0].start <= startTime && endTime < out[|out| - 1].end
    ensures forall i | 0 <= i < |out| - 1 :: out[i].end == out[i + 1].start
  {
    hide BucketStart, StepOf, CountAt, RequestsAt;
    var s, step, n := BucketStart(startTime, iv), StepOf(iv), |out|;
    StartsBefore(startTime, iv);
    FloorBounds(endTime - s, step);
    assert n - 1 == (endTime - s) / step;
    assert out[0].start == s + 0 * step && out[n - 1].end == s + (n - 1) * step + step;
    forall i | 0 <= i < n - 1 ensures out[i].end == out[i + 1].start {
      NextMultiple(i, step);
    }
  }

  lemma NextMultiple(i: int, step: int)
    ensures i * step + step == (i + 1) * step
  {
  }

  function SumEvents(out: seq<Bucket>): nat { if out == [] then 0 else SumEvents(out[..|out| - 1]) + out[|out| - 1].eventCount }

  function SumMatched(out: seq<Bucket>): nat { if out == [] then 0 else SumMatched(out[..|out| - 1]) + out[|out| - 1].matchedCount }

  function SumFailures(out: seq<Bucket>): nat { if out == [] then 0 else SumFailures(out[..|out| - 1]) + out[|out| - 1].failureCount }

  lemma {:induction false} SumsAgree(rs: seq<EventLog>, startTime: Time, iv: Interval, out: seq<Bucket>, n: nat)
    requires n <= |out|
    requires forall i | 0 <= i < |out| :: out[i] == BucketAt(rs, iv, BucketStart(startTime, iv) + i * StepOf(iv))
    ensures SumEvents(out[..n]) == SumOfCounts(rs, startTime, iv, n, Events)
    ensures SumMatched(out[..n]) == SumOfCounts(rs, startTime, iv, n, Matched)
    ensures SumFailures(out[..n]) == SumOfCounts(rs, startTime, iv, n, Failures)
  {
    hide BucketStart, StepOf, CountAt, RequestsAt;
    if n > 0 {
      SumsAgree(rs, startTime, iv, out, n - 1);
      assert out[..n][..n - 1] == out[..n - 1];
      assert out[n - 1] == BucketAt(rs, iv, BucketStart(startTime, iv) + (n - 1) * StepOf(iv));
    }
  }
}
