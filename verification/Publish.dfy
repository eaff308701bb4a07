/** From matched rules to log records and published messages: pkg/webhook/event_logging.go,
    match_helpers.go and publish.go. Transforms and brokers answer through parameters. */
module Publish {
  import opened GoText
  import opened Events
  import opened RuleEngines
  import opened StatusStore
  import PageTokens

  const IGNORED := "ignored"

  // ---------- event_logging.go ----------

  function DriverName(m: RuleMatch): string {
    if TrimSpace(m.driverName) != "" then TrimSpace(m.driverName) else TrimSpace(m.driverId)
  }

  // driverListFromMatch
  function DriverList(m: RuleMatch): seq<string> {
    if DriverName(m) == "" then [] else [DriverName(m)]
  }

  function SourceOf(event: Event): Source {
    Source(event.provider, event.name, event.requestId, event.stateId, event.installationId, event.namespaceId, event.namespaceName)
  }

  function RecordFor(event: Event, m: RuleMatch, id: string): NewLog {
    NewLog(id, LogRow(SourceOf(event), "", m.topic, m.ruleId, m.ruleWhen, DriverList(m), true, QUEUED, "", 0,
                      PageTokens.ZERO_TIME, PageTokens.ZERO_TIME, event.rawPayload, ""))
  }

  function IgnoredRecord(event: Event, id: string): NewLog {
    NewLog(id, LogRow(SourceOf(event), "", "", "", "", [], false, IGNORED, "", 0,
                      PageTokens.ZERO_TIME, PageTokens.ZERO_TIME, event.rawPayload, ""))
  }

  /** One queued record per topic-level match, in the same order. */
  function RecordsFor(event: Event, matches: seq<RuleMatch>, uuid: nat -> string): (logs: seq<NewLog>)
    ensures |logs| == |matches|
    ensures forall i | 0 <= i < |matches| :: logs[i] == RecordFor(event, matches[i], uuid(i))
  {
    seq(|matches|, i requires 0 <= i < |matches| => RecordFor(event, matches[i], uuid(i)))
  }

  method BuildEventLogRecords(event: Event, rules: seq<MatchedRule>, uuid: nat -> string)
    returns (records: seq<NewLog>, matched: seq<NewLog>)
    ensures matched == RecordsFor(event, Expand(rules), uuid)
    ensures records == if rules == [] then [IgnoredRecord(event, uuid(0))] else matched
  {
    hide *;
    NoRules(event, uuid);
    if rules == [] {
      return [IgnoredRecord(event, uuid(0))], [];
    }
    records, matched := [], [];
    ghost var done: seq<MatchedRule> := [];
    for i := 0 to |rules|
      invariant done == rules[..i]
      invariant records == matched == RecordsFor(event, Expand(done), uuid)
    {
      var rule := rules[i];
      var drivers := ListDrivers(rule);
      var made := RecordsOfRule(event, rule, drivers, |matched|, uuid);
      records := records + made;
      matched := matched + made;
      NextRule(event, done, rule, made, uuid);
      done := done + [rule];
    }
    assert done == rules;
  }

  lemma NoRules(event: Event, uuid: nat -> string)
    ensures RecordsFor(event, Expand([]), uuid) == []
  {
  }

  lemma NextRule(event: Event, rules: seq<MatchedRule>, rule: MatchedRule, made: seq<NewLog>, uuid: nat -> string)
    requires |made| == |rule.emit|
    requires forall k | 0 <= k < |made| :: made[k] == RecordFor(event, TopicMatch(rule, rule.emit[k]), uuid(|RecordsFor(event, Expand(rules), uuid)| + k))
    ensures RecordsFor(event, Expand(rules + [rule]), uuid) == RecordsFor(event, Expand(rules), uuid) + made
  {
    hide RecordFor, TopicMatch;
    var before, last := Expand(rules), TopicMatches(rule);
    ExpandSnoc(rules, rule);
    hide Expand;
    RecordsAppend(event, before, last, made, uuid);
  }

  function TopicMatches(rule: MatchedRule): seq<RuleMatch> {
    seq(|rule.emit|, k requires 0 <= k < |rule.emit| => TopicMatch(rule, rule.emit[k]))
  }

  lemma ExpandSnoc(rules: seq<MatchedRule>, rule: MatchedRule)
    ensures Expand(rules + [rule]) == Expand(rules) + TopicMatches(rule)
  {
    assert (rules + [rule])[..|rules|] == rules;
  }

  lemma RecordsAppend(event: Event, before: seq<RuleMatch>, last: seq<RuleMatch>, made: seq<NewLog>, uuid: nat -> string)
    requires |made| == |last| && forall k | 0 <= k < |made| :: made[k] == RecordFor(event, last[k], uuid(|before| + k))
    ensures RecordsFor(event, before + last, uuid) == RecordsFor(event, before, uuid) + made
  {
    hide RecordFor;
  }

  method ListDrivers(rule: MatchedRule) returns (drivers: seq<string>)
    ensures drivers == DriversOf(rule)
  {
    hide TrimSpace;
    var driverName := TrimSpace(rule.driverName);
    if driverName == "" {
      driverName := TrimSpace(rule.driverId);
    }
    drivers := [];
    if driverName != "" {
      drivers := [driverName];
    }
  }

  function DriversOf(rule: MatchedRule): seq<string> {
    DriverList(TopicMatch(rule, ""))
  }

  // the inner loop, over the topics of one rule
  method RecordsOfRule(event: Event, rule: MatchedRule, drivers: seq<string>, start: nat, uuid: nat -> string) returns (made: seq<NewLog>)
    requires drivers == DriversOf(rule)
    ensures |made| == |rule.emit|
    ensures forall k | 0 <= k < |made| :: made[k] == RecordFor(event, TopicMatch(rule, rule.emit[k]), uuid(start + k))
  {
    hide TrimSpace;
    made := [];
    for j := 0 to |rule.emit|
      invariant |made| == j
      invariant forall k | 0 <= k < j :: made[k] == RecordFor(event, TopicMatch(rule, rule.emit[k]), uuid(start + k))
    {
      made := made + [NewLog(uuid(start + j), LogRow(SourceOf(event), "", rule.emit[j], rule.id, rule.when, drivers, true, QUEUED, "", 0,
                             PageTokens.ZERO_TIME, PageTokens.ZERO_TIME, event.rawPayload, ""))];
    }
  }

  /** The number of topics of the first `n` rules. */
  function TopicsBefore(rules: seq<MatchedRule>, n: nat): nat
    requires n <= |rules|
  {
    if n == 0 then 0 else TopicsBefore(rules, n - 1) + |rules[n - 1].emit|
  }

  /** Records and matches made from the same rules are aligned: as many as the rules have topics;
      and at the place of rule i's j-th topic both are for that topic, that rule, its condition
      and its driver, and the record says what the event says. */
  lemma {:induction false} LogsAndMatchesAlign(event: Event, rules: seq<MatchedRule>, uuid: nat -> string, i: nat, j: nat)
    ensures |RecordsFor(event, Expand(rules), uuid)| == |Expand(rules)| == TopicsBefore(rules, |rules|)
    ensures i < |rules| && j < |rules[i].emit| ==>
      var at, log, m := TopicsBefore(rules, i) + j, RecordsFor(event, Expand(rules), uuid), Expand(rules);
      && at < |log|
      && log[at].row.topic == m[at].topic == rules[i].emit[j]
      && log[at].row.ruleId == m[at].ruleId == rules[i].id
      && log[at].row.ruleWhen == m[at].ruleWhen == rules[i].when
      && log[at].row.drivers == DriverList(m[at]) == DriversOf(rules[i])
      && log[at].row.source == SourceOf(event) && log[at].row.body == event.rawPayload && log[at].row.status == QUEUED
      && log[at].id == uuid(at)
  {
    MatchAt(rules, i, j);
    hide TrimSpace, Expand, TopicsBefore;
    if i < |rules| && j < |rules[i].emit| {
      RecordFields(event, rules[i], rules[i].emit[j], uuid(TopicsBefore(rules, i) + j));
      hide RecordFor, DriversOf, DriverList, TopicMatch;
    }
  }

  lemma RecordFields(event: Event, rule: MatchedRule, topic: string, id: string)
    ensures var m := TopicMatch(rule, topic);
      var log := RecordFor(event, m, id);
      && log.id == id && log.row.topic == m.topic == topic && log.row.ruleId == m.ruleId == rule.id
      && log.row.ruleWhen == m.ruleWhen == rule.when && log.row.drivers == DriverList(m) == DriversOf(rule)
      && log.row.source == SourceOf(event) && log.row.body == event.rawPayload && log.row.status == QUEUED
  {
    hide TrimSpace;
  }

  /** Where the match of a rule's topic stands. */
  lemma {:induction false} MatchAt(rules: seq<MatchedRule>, i: nat, j: nat)
    ensures |Expand(rules)| == TopicsBefore(rules, |rules|)
    ensures i < |rules| && j < |rules[i].emit| ==>
      TopicsBefore(rules, i) + j < |Expand(rules)| && Expand(rules)[TopicsBefore(rules, i) + j] == TopicMatch(rules[i], rules[i].emit[j])
  {
    hide TopicMatch;
    if rules != [] {
      var n := |rules| - 1;
      MatchAt(rules[..n], i, j);
      TopicsBeforeOfPrefix(rules, n, n);
      if i < n {
        TopicsBeforeOfPrefix(rules, n, i);
        assert rules[..n][i] == rules[i];
      }
    }
  }

  lemma {:induction false} TopicsBeforeOfPrefix(rules: seq<MatchedRule>, n: nat, k: nat)
    requires k <= n <= |rules|
    ensures TopicsBefore(rules[..n], k) == TopicsBefore(rules, k)
  {
    if k > 0 {
      TopicsBeforeOfPrefix(rules, n, k - 1);
    }
  }

  /** Each record is in the table, queued, for its own topic and rule. */
  predicate Stored(rows: Table, logs: seq<NewLog>) {
    forall i | 0 <= i < |logs| ::
      && logs[i].id in rows && rows[logs[i].id].status == QUEUED
      && rows[logs[i].id].topic == logs[i].row.topic && rows[logs[i].id].ruleId == logs[i].row.ruleId
  }

  /** A failed insert is only logged: the records are returned all the same. */
  method LogEventMatches(store: Store?, event: Event, rules: seq<MatchedRule>, uuid: nat -> string, tenant: string, now: PageTokens.Time, dbOk: bool)
    returns (logs: seq<NewLog>)
    requires forall i: nat :: uuid(i) != ""
    modifies store
    ensures logs == if store == null then [] else RecordsFor(event, Expand(rules), uuid)
    ensures store != null && dbOk && Insertable(old(store.rows), RecordsFor(event, Expand(rules), uuid)) ==> Stored(store.rows, logs)
    ensures store != null && !dbOk ==> store.rows == old(store.rows)
  {
    if store == null {
      return [];
    }
    var records, matched := BuildEventLogRecords(event, rules, uuid);
    if |records| == 0 {
      return [];
    }
    var generated := seq(|records|, i => "");
    var created := store.CreateEventLogs(records, tenant, now, generated, dbOk);
    if rules != [] {
      FilledIsStored(old(store.rows), event, Expand(rules), uuid, tenant, now, generated);
    }
    return matched;
  }

  lemma FilledIsStored(rows: Table, event: Event, matches: seq<RuleMatch>, uuid: nat -> string, tenant: string, now: PageTokens.Time, generated: seq<string>)
    requires (forall i: nat :: uuid(i) != "") && |generated| == |matches|
    ensures var logs := RecordsFor(event, matches, uuid);
      var filled := seq(|logs|, i requires 0 <= i < |logs| => FillDefaults(logs[i], tenant, now, generated[i]));
      && (Insertable(rows, filled) <==> Insertable(rows, logs))
      && (Insertable(rows, logs) ==> Stored(Inserted(rows, filled), logs))
  {
    hide TrimSpace;
    var logs := RecordsFor(event, matches, uuid);
    var filled := seq(|logs|, i requires 0 <= i < |logs| => FillDefaults(logs[i], tenant, now, generated[i]));
    forall i | 0 <= i < |logs|
      ensures filled[i].id == logs[i].id && filled[i].row.status == QUEUED
      ensures filled[i].row.topic == logs[i].row.topic && filled[i].row.ruleId == logs[i].row.ruleId
    {
    }
    if Insertable(rows, logs) {
      InsertedHas(rows, filled);
    }
  }

  lemma {:induction false} InsertedHas(rows: Table, logs: seq<NewLog>)
    requires forall i, j | 0 <= i < j < |logs| :: logs[i].id != logs[j].id
    ensures forall i | 0 <= i < |logs| :: logs[i].id in Inserted(rows, logs) && Inserted(rows, logs)[logs[i].id] == logs[i].row
  {
    if logs != [] {
      InsertedHas(rows, logs[..|logs| - 1]);
    }
  }

  // ---------- publish.go ----------

  /** How a publish call ends: whether the bus took the message, and whether the call returned
      nil. The bus may have the message although the call failed. */
  datatype Outcome = Outcome(delivered: bool, ok: bool)

  /** What the outside world does with one match. */
  datatype Answers = Answers(transformed: Option<string>, publisherBuilt: bool, dynamic: Outcome, fallback: Outcome)

  datatype Route = Dynamic | Fallback | Replayed

  datatype Effect =
    | PublishCall(route: Route, topic: string, event: Event, drivers: seq<string>, outcome: Outcome)
    | StatusWrite(id: string, status: string)
    | PayloadWrite(id: string, payload: string)

  // applyRuleTransform
  function Transform(event: Event, transformJS: string, answer: Option<string>): Option<Event> {
    if TrimSpace(transformJS) == "" then Some(event)
    else match answer
      case None => None
      case Some(payload) => Some(event.(rawPayload := payload, rawObject := None))
  }

  /** publishDynamicMatch leaves the match to the fallback. */
  predicate SkipsDynamic(m: RuleMatch, hasCache: bool) {
    !hasCache || TrimSpace(m.driverName) == "" || TrimSpace(m.driverConfigJSON) == "" || !m.driverEnabled
  }

  datatype Setup = Setup(event: Event, hasCache: bool, updatesStatus: bool, updatesPayload: bool)

  function LogIdAt(logs: seq<NewLog>, idx: nat): string {
    if idx < |logs| then logs[idx].id else ""
  }

  function FailedWrite(s: Setup, logs: seq<NewLog>, idx: nat): seq<Effect> {
    if s.updatesStatus && idx < |logs| then [StatusWrite(logs[idx].id, FAILED)] else []
  }

  /** The match ends in an error that is reported. */
  predicate EndsInError(s: Setup, m: RuleMatch, a: Answers) {
    || (TrimSpace(m.transformJS) != "" && a.transformed.None?)
    || (if !SkipsDynamic(m, s.hasCache) then !(a.publisherBuilt && a.dynamic.ok) else DriverList(m) != [] && !a.fallback.ok)
  }

  /** The publish call made with the transformed event, if any. */
  function CallWith(s: Setup, m: RuleMatch, a: Answers, e: Event): seq<Effect> {
    if !SkipsDynamic(m, s.hasCache) then (if a.publisherBuilt then [PublishCall(Dynamic, m.topic, e, [], a.dynamic)] else [])
    else if DriverList(m) == [] then []
    else [PublishCall(Fallback, m.topic, e, DriverList(m), a.fallback)]
  }

  /** Everything the loop does for the match at `idx`: store the payload, publish, report. */
  function EffectsAt(s: Setup, m: RuleMatch, logs: seq<NewLog>, idx: nat, a: Answers): seq<Effect> {
    (match Transform(s.event.(logId := LogIdAt(logs, idx)), m.transformJS, a.transformed)
     case None => []
     case Some(e) =>
       (if s.updatesPayload && idx < |logs| then [PayloadWrite(logs[idx].id, e.rawPayload)] else []) + CallWith(s, m, a, e))
    + if EndsInError(s, m, a) then FailedWrite(s, logs, idx) else []
  }

  function AllEffects(s: Setup, matches: seq<RuleMatch>, logs: seq<NewLog>, answers: seq<Answers>): seq<Effect>
    requires |answers| == |matches|
  {
    if matches == [] then []
    else
      var n := |matches| - 1;
      AllEffects(s, matches[..n], logs, answers[..n]) + EffectsAt(s, matches[n], logs, n, answers[n])
  }

  method PublishDynamicMatch(event: Event, m: RuleMatch, hasCache: bool, a: Answers)
    returns (ok: bool, failed: bool, effects: seq<Effect>)
    ensures failed <==> !SkipsDynamic(m, hasCache) && !(a.publisherBuilt && a.dynamic.ok)
    ensures ok <==> !SkipsDynamic(m, hasCache) && a.publisherBuilt && a.dynamic.ok
    ensures effects == if !SkipsDynamic(m, hasCache) && a.publisherBuilt then [PublishCall(Dynamic, m.topic, event, [], a.dynamic)] else []
  {
    hide TrimSpace;
    effects := [];
    if !hasCache {
      return false, false, effects;
    }
    var driverName := TrimSpace(m.driverName);
    if driverName == "" || TrimSpace(m.driverConfigJSON) == "" {
      return false, false, effects;
    }
    if !m.driverEnabled {
      return false, false, effects;
    }
    if !a.publisherBuilt {
      return false, true, effects;
    }
    effects := [PublishCall(Dynamic, m.topic, event, [], a.dynamic)];
    if !a.dynamic.ok {
      return false, true, effects;
    }
    return true, false, effects;
  }

  /** One round of the publish loop. */
  method PublishMatch(s: Setup, m: RuleMatch, logs: seq<NewLog>, idx: nat, a: Answers) returns (effects: seq<Effect>)
    ensures effects == EffectsAt(s, m, logs, idx, a)
  {
    hide TrimSpace;
    effects := [];
    var eventToPublish := s.event.(logId := if idx < |logs| then logs[idx].id else "");
    var transformed := Transform(eventToPublish, m.transformJS, a.transformed);
    if transformed.None? {
      if s.updatesStatus && idx < |logs| {
        effects := [StatusWrite(logs[idx].id, FAILED)];
      }
      return;
    }
    if s.updatesPayload && idx < |logs| {
      effects := [PayloadWrite(logs[idx].id, transformed.value.rawPayload)];
    }
    var ok, failed, published := PublishDynamicMatch(transformed.value, m, s.hasCache, a);
    effects := effects + published;
    if failed && s.updatesStatus && idx < |logs| {
      effects := effects + [StatusWrite(logs[idx].id, FAILED)];
    }
    if ok {
      return;
    }
    if failed {
      return;
    }
    var drivers := DriverList(m);
    if |drivers| == 0 {
      return;
    }
    effects := effects + [PublishCall(Fallback, m.topic, transformed.value, drivers, a.fallback)];
    if !a.fallback.ok && s.updatesStatus && idx < |logs| {
      effects := effects + [StatusWrite(logs[idx].id, FAILED)];
    }
  }

  method PublishMatchesWithFallback(s: Setup, matches: seq<RuleMatch>, logs: seq<NewLog>, answers: seq<Answers>) returns (effects: seq<Effect>)
    requires |answers| == |matches|
    ensures effects == AllEffects(s, matches, logs, answers)
  {
    hide EffectsAt;
    effects := [];
    for idx := 0 to |matches|
      invariant effects == AllEffects(s, matches[..idx], logs, answers[..idx])
    {
      assert matches[..idx + 1][..idx] == matches[..idx] && answers[..idx + 1][..idx] == answers[..idx];
      var round := PublishMatch(s, matches[idx], logs, idx, answers[idx]);
      effects := effects + round;
    }
    assert matches[..|matches|] == matches && answers[..|answers|] == answers;
  }

  // ---------- accounting ----------

  function Calls(effects: seq<Effect>): seq<Effect> {
    if effects == [] then []
    else Calls(effects[..|effects| - 1]) + if effects[|effects| - 1].PublishCall? then [effects[|effects| - 1]] else []
  }

  function FailuresOf(effects: seq<Effect>, id: string): nat {
    if effects == [] then 0
    else
      var e := effects[|effects| - 1];
      FailuresOf(effects[..|effects| - 1], id) + if e.StatusWrite? && e.id == id then 1 else 0
  }

  /** One match: at most one publish call; it goes to the fallback only when the dynamic path was
      skipped; it carries the record's id and the match's topic; the record is written `failed`
      exactly when the match ends in an error, and never written `success`. */
  lemma OneMatch(s: Setup, m: RuleMatch, logs: seq<NewLog>, idx: nat, a: Answers)
    ensures var effects := EffectsAt(s, m, logs, idx, a);
      && |Calls(effects)| <= 1
      && (forall e | e in effects && e.PublishCall? ::
            && e.topic == m.topic && e.event.logId == LogIdAt(logs, idx)
            && (e.route.Fallback? <==> SkipsDynamic(m, s.hasCache))
            && (e.route.Fallback? ==> e.drivers == [DriverName(m)] && e.outcome == a.fallback)
            && (e.route.Dynamic? ==> e.outcome == a.dynamic))
      && (forall e | e in effects && e.StatusWrite? :: e.status == FAILED && idx < |logs| && e.id == logs[idx].id)
      && (s.updatesStatus && idx < |logs| ==>
            FailuresOf(effects, logs[idx].id) == if EndsInError(s, m, a) then 1 else 0)
      && (forall id :: FailuresOf(effects, id) <= 1 && (FailuresOf(effects, id) == 1 ==> idx < |logs| && logs[idx].id == id))
  {
    hide TrimSpace, SkipsDynamic, EndsInError, DriverList, DriverName, Calls, FailuresOf, EffectsAt, CallWith, Transform;
    var payload, calls, fails := SplitEffects(s, m, logs, idx, a);
    var effects := payload + calls + fails;
    assert forall x :: x in effects <==> x in payload || x in calls || x in fails;
    assert (payload != [] ==> payload[0] in payload) && (calls != [] ==> calls[0] in calls) && (fails != [] ==> fails[0] in fails);
    CallsAppend(payload, calls);
    CallsAppend(payload + calls, fails);
    OneCall(payload);
    OneCall(calls);
    OneCall(fails);
    forall id: string
      ensures FailuresOf(effects, id) == if fails != [] && fails[0] == StatusWrite(id, FAILED) then 1 else 0
    {
      FailuresOfParts(payload, calls, fails, id);
    }
  }

  lemma FailuresOfParts(payload: seq<Effect>, calls: seq<Effect>, fails: seq<Effect>, id: string)
    requires |payload| <= 1 && (forall x | x in payload :: x.PayloadWrite?)
    requires |calls| <= 1 && (forall x | x in calls :: x.PublishCall?)
    requires |fails| <= 1 && (forall x | x in fails :: x.StatusWrite? && x.status == FAILED)
    ensures FailuresOf(payload + calls + fails, id) == if fails != [] && fails[0] == StatusWrite(id, FAILED) then 1 else 0
  {
    assert (payload != [] ==> payload[0] in payload) && (calls != [] ==> calls[0] in calls) && (fails != [] ==> fails[0] in fails);
    FailuresAppend(payload, calls, id);
    FailuresAppend(payload + calls, fails, id);
    OneFailure(payload, id);
    OneFailure(calls, id);
    OneFailure(fails, id);
  }

  lemma SplitEffects(s: Setup, m: RuleMatch, logs: seq<NewLog>, idx: nat, a: Answers)
    returns (payload: seq<Effect>, calls: seq<Effect>, fails: seq<Effect>)
    ensures EffectsAt(s, m, logs, idx, a) == payload + calls + fails
    ensures |payload| <= 1 && forall x | x in payload :: x.PayloadWrite?
    ensures |calls| <= 1 && forall x | x in calls ::
      && x.PublishCall? && x.topic == m.topic && x.event.logId == LogIdAt(logs, idx)
      && (x.route.Fallback? <==> SkipsDynamic(m, s.hasCache))
      && (x.route.Fallback? ==> x.drivers == [DriverName(m)] && x.outcome == a.fallback)
      && (x.route.Dynamic? ==> x.outcome == a.dynamic)
    ensures fails == if EndsInError(s, m, a) then FailedWrite(s, logs, idx) else []
  {
    hide TrimSpace, SkipsDynamic, EndsInError;
    var e := Transform(s.event.(logId := LogIdAt(logs, idx)), m.transformJS, a.transformed);
    payload := if e.Some? && s.updatesPayload && idx < |logs| then [PayloadWrite(logs[idx].id, e.value.rawPayload)] else [];
    calls := if e.Some? then CallWith(s, m, a, e.value) else [];
    fails := if EndsInError(s, m, a) then FailedWrite(s, logs, idx) else [];
  }

  lemma OneCall(a: seq<Effect>)
    requires |a| <= 1
    ensures Calls(a) == if a != [] && a[0].PublishCall? then a else []
  {
    if a != [] { assert a[..0] == []; }
  }

  lemma OneFailure(a: seq<Effect>, id: string)
    requires |a| <= 1
    ensures FailuresOf(a, id) == if a != [] && a[0].StatusWrite? && a[0].id == id then 1 else 0
  {
    if a != [] { assert a[..0] == []; }
  }

  lemma {:induction false} CallsAppend(a: seq<Effect>, b: seq<Effect>)
    ensures Calls(a + b) == Calls(a) + Calls(b)
  {
    if b == [] {
      assert a + b == a;
    } else {
      assert (a + b)[..|a + b| - 1] == a + b[..|b| - 1];
      CallsAppend(a, b[..|b| - 1]);
    }
  }

  lemma {:induction false} FailuresAppend(a: seq<Effect>, b: seq<Effect>, id: string)
    ensures FailuresOf(a + b, id) == FailuresOf(a, id) + FailuresOf(b, id)
  {
    if b == [] {
      assert a + b == a;
    } else {
      assert (a + b)[..|a + b| - 1] == a + b[..|b| - 1];
      FailuresAppend(a, b[..|b| - 1], id);
    }
  }

  predicate DistinctIds(logs: seq<NewLog>) {
    forall i, j | 0 <= i < j < |logs| :: logs[i].id != logs[j].id
  }

  /** The whole loop: the record of match `i` is written `failed` once if that match ends in an
      error and not at all otherwise, and nothing is ever written `success`. */
  lemma {:induction false} WholePublish(s: Setup, matches: seq<RuleMatch>, logs: seq<NewLog>, answers: seq<Answers>, i: nat)
    requires |answers| == |matches| && DistinctIds(logs) && s.updatesStatus && i < |logs|
    ensures FailuresOf(AllEffects(s, matches, logs, answers), logs[i].id)
         == if i < |matches| && EndsInError(s, matches[i], answers[i]) then 1 else 0
    ensures forall e | e in AllEffects(s, matches, logs, answers) && e.StatusWrite? :: e.status == FAILED
  {
    hide EffectsAt, EndsInError, LogIdAt;
    if matches != [] {
      var n := |matches| - 1;
      WholePublish(s, matches[..n], logs, answers[..n], i);
      OneMatch(s, matches[n], logs, n, answers[n]);
      FailuresAppend(AllEffects(s, matches[..n], logs, answers[..n]), EffectsAt(s, matches[n], logs, n, answers[n]), logs[i].id);
    }
  }

  /** The call publishes to the match's topic under the id of a record of the same topic and rule. */
  predicate CarriesRecord(e: Effect, m: RuleMatch, log: NewLog)
    requires e.PublishCall?
  {
    e.topic == m.topic == log.row.topic && e.event.logId == log.id && log.row.ruleId == m.ruleId && log.row.ruleWhen == m.ruleWhen
  }

  /** Logs and matches built from the same rules stay aligned through the loop. */
  lemma {:induction false} MessagesCarryTheirRecord(s: Setup, event: Event, matches: seq<RuleMatch>, uuid: nat -> string, answers: seq<Answers>, n: nat)
    requires |answers| == |matches| && n <= |matches|
    ensures forall e | e in AllEffects(s, matches[..n], RecordsFor(event, matches, uuid), answers[..n]) && e.PublishCall? ::
      exists i :: 0 <= i < |matches| && CarriesRecord(e, matches[i], RecordsFor(event, matches, uuid)[i])
  {
    hide EffectsAt;
    if n > 0 {
      var logs := RecordsFor(event, matches, uuid);
      MessagesCarryTheirRecord(s, event, matches, uuid, answers, n - 1);
      assert matches[..n][..n - 1] == matches[..n - 1] && answers[..n][..n - 1] == answers[..n - 1];
      OneMatch(s, matches[n - 1], logs, n - 1, answers[n - 1]);
      var head, last := AllEffects(s, matches[..n - 1], logs, answers[..n - 1]), EffectsAt(s, matches[n - 1], logs, n - 1, answers[n - 1]);
      forall e | e in AllEffects(s, matches[..n], logs, answers[..n]) && e.PublishCall?
        ensures exists i :: 0 <= i < |matches| && CarriesRecord(e, matches[i], logs[i])
      {
        if e in head {
        } else {
          assert e in last;
          assert CarriesRecord(e, matches[n - 1], logs[n - 1]);
        }
      }
    }
  }
}
