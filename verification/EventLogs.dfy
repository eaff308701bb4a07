/** The event-log record, its filter and its order
    (pkg/storage/store.go, pkg/storage/eventlogs/store_filter.go). */
module EventLogs {
  import opened GoText
  import PageTokens

  type Time = PageTokens.Time

  datatype EventLog = EventLog(
    id: string, tenantId: string, provider: string, name: string, requestId: string, stateId: string,
    installationId: string, namespaceId: string, namespaceName: string, topic: string,
    ruleId: string, ruleWhen: string, matched: bool, status: string, latencyMs: int, createdAt: Time)

  datatype Criteria = Criteria(
    provider: string, name: string, requestId: string, stateId: string, installationId: string,
    namespaceId: string, namespaceName: string, topic: string, ruleId: string, ruleWhen: string,
    matched: Option<bool>, startTime: Time, endTime: Time)

  predicate Accepts(wanted: string, value: string) { wanted == "" || value == wanted }

  /** The WHERE clauses of applyFilter. */
  predicate Matches(c: Criteria, tenant: string, r: EventLog) {
    && Accepts(tenant, r.tenantId)
    && Accepts(c.provider, r.provider) && Accepts(c.name, r.name) && Accepts(c.requestId, r.requestId)
    && Accepts(c.stateId, r.stateId) && Accepts(c.installationId, r.installationId)
    && Accepts(c.namespaceId, r.namespaceId) && Accepts(c.namespaceName, r.namespaceName)
    && Accepts(c.topic, r.topic) && Accepts(c.ruleId, r.ruleId) && Accepts(c.ruleWhen, r.ruleWhen)
    && (c.matched.Some? ==> r.matched == c.matched.value)
    && (c.startTime != PageTokens.ZERO_TIME ==> r.createdAt >= c.startTime)
    && (c.endTime != PageTokens.ZERO_TIME ==> r.createdAt <= c.endTime)
  }

  /** ORDER BY created_at DESC, id DESC: `a` is listed before `b`. */
  predicate Newer(a: EventLog, b: EventLog) {
    a.createdAt > b.createdAt || (a.createdAt == b.createdAt && Less(b.id, a.id))
  }

  /** The id is the table's primary key. */
  predicate UniqueIds(rows: seq<EventLog>) {
    forall i, j | 0 <= i < j < |rows| :: rows[i].id != rows[j].id
  }
}

/** MockEventLogStore in pkg/storage/mocks_eventlogs.go, as far as its aggregates use it. */
module MockEventLogs {
  import opened GoText
  import opened Sorting
  import opened EventLogs

  function Selected(values: seq<EventLog>, c: Criteria, tenant: string): seq<EventLog> {
    Filter(values, r => Matches(c, tenant, r))
  }

  predicate IsFailed(r: EventLog) { Lower(r.status) == "failed" }   // strings.EqualFold

  class MockEventLogStore {
    var values: seq<EventLog>

    /** ListEventLogs without offset or limit: the selected records, in an order that leaves
        records of the same instant anyhow. */
    method ListAll(c: Criteria, tenant: string) returns (out: seq<EventLog>)
      ensures multiset(out) == multiset(Selected(values, c, tenant))
    {
      var filtered: seq<EventLog> := [];
      var keep := (r: EventLog) => Matches(c, tenant, r);
      for i := 0 to |values|
        invariant filtered == Filter(values[..i], keep)
      {
        FilterAppend(values[..i], [values[i]], keep);
        assert values[..i + 1] == values[..i] + [values[i]];
        assert Filter([values[i]], keep) == if keep(values[i]) then [values[i]] else [];
        if !Matches(c, tenant, values[i]) { continue; }
        filtered := filtered + [values[i]];
      }
      assert values[..|values|] == values;
      var newest := (a: EventLog, b: EventLog) => a.createdAt > b.createdAt;
      SortPermutes(filtered, newest);
      SameFilter(values, keep, (r: EventLog) => Matches(c, tenant, r));
      return Sort(filtered, newest);
    }
  }

  lemma {:induction false} SameFilter(s: seq<EventLog>, p: EventLog -> bool, q: EventLog -> bool)
    requires forall r :: p(r) == q(r)
    ensures Filter(s, p) == Filter(s, q)
  {
    if s != [] {
      SameFilter(s[1..], p, q);
    }
  }
}
