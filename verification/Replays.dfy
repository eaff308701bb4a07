/** Replaying a stored event (pkg/api/eventlogs_service.go, pkg/webhook/replay_helpers.go): its
    records and the background run. Stores, transforms, publisher construction and brokers answer
    through parameters. */
module Replays {
  import opened GoText
  import opened Sorting
  import opened Events
  import opened RuleEngines
  import opened StatusStore
  import opened Publish
  import PageTokens

  // ---------- BuildReplayEvent ----------

  /** `parse` reads the JSON payload and fills in what is derived from it, the provider and the
      event name. */
  type Parser = (string, string, string) -> Option<Event>

  // BuildReplayEvent
  function BuildReplayEvent(id: string, row: LogRow, parse: Parser): (r: Option<Event>)
    ensures r.None? <==>
      (row.body == "" && row.transformedBody == "") || parse(if row.body != "" then row.body else row.transformedBody, row.source.provider, row.source.name).None?
    ensures r.Some? ==>
      && SourceOf(r.value) == row.source && r.value.tenantId == row.tenantId && r.value.logId == id
      && r.value.rawPayload != "" && r.value.rawPayload == if row.body != "" then row.body else row.transformedBody
  {
    var body := if row.body != "" then row.body else row.transformedBody;
    if body == "" then None
    else match parse(body, row.source.provider, row.source.name)
      case None => None
      case Some(e) => Some(e.(
        provider := row.source.provider, name := row.source.name, requestId := row.source.requestId,
        rawPayload := body, stateId := row.source.stateId, tenantId := row.tenantId,
        installationId := row.source.installationId, namespaceId := row.source.namespaceId,
        namespaceName := row.source.namespaceName, logId := id))
  }

  lemma {:induction false} RunKeepsContent(rows: Table, us: seq<Update>, id: string)
    requires id in rows
    ensures id in Run(rows, us)
    ensures var r := Run(rows, us)[id];
      && r.source == rows[id].source && r.tenantId == rows[id].tenantId
      && r.body == rows[id].body && r.transformedBody == rows[id].transformedBody
  {
    hide TrimSpace;
    if us != [] {
      RunKeepsContent(rows, us[..|us| - 1], id);
    }
  }

  /** Logging and replaying are inverse: whatever statuses were written meanwhile, the replay of a
      webhook record has the payload, the tenant and the source of the logged event; it fails only
      if the payload does not parse. */
  lemma ReplayGivesTheEventBack(rows: Table, us: seq<Update>, event: Event, m: RuleMatch, id: string, tenant: string, now: PageTokens.Time, parse: Parser)
    requires event.rawPayload != "" && id in rows && rows[id] == FillDefaults(RecordFor(event, m, id), tenant, now, "").row
    ensures id in Run(rows, us)
    ensures var r := BuildReplayEvent(id, Run(rows, us)[id], parse);
      && (r.None? <==> parse(event.rawPayload, event.provider, event.name).None?)
      && (r.Some? ==> SourceOf(r.value) == SourceOf(event) && r.value.rawPayload == event.rawPayload && r.value.tenantId == tenant && r.value.logId == id)
  {
    hide Run, DriverList;
    RunKeepsContent(rows, us, id);
  }

  // ---------- buildReplayEventLogRecords ----------

  /** Unlike a webhook record, a replay record lists its driver even when the name is blank. */
  function ReplayRecordFor(event: Event, m: RuleMatch, id: string): NewLog {
    NewLog(id, LogRow(SourceOf(event), "", m.topic, m.ruleId, m.ruleWhen, [DriverName(m)], true, QUEUED, "", 0,
                      PageTokens.ZERO_TIME, PageTokens.ZERO_TIME, event.rawPayload, ""))
  }

  method BuildReplayEventLogRecords(event: Event, matches: seq<RuleMatch>, uuid: nat -> string) returns (records: seq<NewLog>)
    ensures |records| == |matches|
    ensures forall i | 0 <= i < |matches| :: records[i] == ReplayRecordFor(event, matches[i], uuid(i))
  {
    hide TrimSpace;
    records := [];
    for i := 0 to |matches|
      invariant |records| == i
      invariant forall k | 0 <= k < i :: records[k] == ReplayRecordFor(event, matches[k], uuid(k))
    {
      var m := matches[i];
      var driverName := TrimSpace(m.driverName);
      if driverName == "" {
        driverName := TrimSpace(m.driverId);
      }
      records := records + [NewLog(uuid(i), LogRow(SourceOf(event), "", m.topic, m.ruleId, m.ruleWhen, [driverName], true, QUEUED, "", 0,
                                   PageTokens.ZERO_TIME, PageTokens.ZERO_TIME, event.rawPayload, ""))];
    }
  }

  // ---------- runReplayAsync ----------

  datatype DriverRecord = DriverRecord(name: string, enabled: bool)

  /** A store lookup: an error, no record, or a record. */
  datatype Lookup = LookupFailed | Missing | Found(record: DriverRecord)

  /** What the outside world answers for one match: the driver lookup, the transform, whether the
      driver's configuration and publisher can be made, and the publish call. */
  datatype ReplayAnswers = ReplayAnswers(found: Lookup, transformed: Option<string>, configured: bool, connected: bool, outcome: Outcome)

  /** The driver record's name; None is one of the errors of replayResolveDriverRecord. */
  function DriverOf(m: RuleMatch, a: ReplayAnswers): Option<string> {
    if DriverName(m) != "" && a.found.Found? && a.found.record.enabled then Some(a.found.record.name) else None
  }

  // replayResolveDriverRecord: by name, or by id when the match has no name
  method ResolveDriver(m: RuleMatch, a: ReplayAnswers) returns (driver: Option<string>)
    ensures driver == DriverOf(m, a)
  {
    hide TrimSpace;
    var name := TrimSpace(m.driverName);
    if name == "" {
      var driverId := TrimSpace(m.driverId);
      if driverId == "" {
        return None;
      }
    }
    if a.found.LookupFailed? {
      return None;
    }
    if a.found.Missing? {
      return None;
    }
    if !a.found.record.enabled {
      return None;
    }
    return Some(a.found.record.name);
  }

  /** The match gets as far as a publisher of its own driver, `shared` or already made or new. */
  predicate NeedsPublisher(event: Event, m: RuleMatch, a: ReplayAnswers) {
    DriverOf(m, a).Some? && Transform(event, m.transformJS, a.transformed).Some?
  }

  /** Everything done for one match whose record is `id`. */
  function ReplayEffects(event: Event, m: RuleMatch, id: string, a: ReplayAnswers, hasPublisher: bool): seq<Effect> {
    if !NeedsPublisher(event, m, a) then [StatusWrite(id, FAILED)]
    else
      var e := Transform(event, m.transformJS, a.transformed).value;
      [PayloadWrite(id, e.rawPayload)] +
      if !hasPublisher && !(a.configured && a.connected) then [StatusWrite(id, FAILED)]
      else [PublishCall(Replayed, m.topic, e, [DriverOf(m, a).value], a.outcome), StatusWrite(id, if a.outcome.ok then SUCCESS else FAILED)]
  }

  /** Publishers made so far are numbered from 0; `publishers` maps driver names to them. */
  datatype Progress = Progress(effects: seq<Effect>, publishers: map<string, nat>, made: nat)

  function HasPublisher(p: Progress, shared: bool, m: RuleMatch, a: ReplayAnswers): bool {
    shared || (DriverOf(m, a).Some? && TrimSpace(DriverOf(m, a).value) in p.publishers)
  }

  /** One round of the loop, with the effects of this round only. */
  function RoundOf(publishers: map<string, nat>, made: nat, event: Event, m: RuleMatch, id: string, shared: bool, a: ReplayAnswers): Progress {
    var has := HasPublisher(Progress([], publishers, made), shared, m, a);
    var effects := ReplayEffects(event, m, id, a, has);
    if NeedsPublisher(event, m, a) && !has && a.configured && a.connected
    then Progress(effects, publishers[TrimSpace(DriverOf(m, a).value) := made], made + 1)
    else Progress(effects, publishers, made)
  }

  function Advance(p: Progress, event: Event, m: RuleMatch, id: string, shared: bool, a: ReplayAnswers): Progress {
    var r := RoundOf(p.publishers, p.made, event, m, id, shared, a);
    Progress(p.effects + r.effects, r.publishers, r.made)
  }

  function ReplayRun(event: Event, matches: seq<RuleMatch>, records: seq<NewLog>, shared: bool, answers: seq<ReplayAnswers>): Progress
    requires |answers| == |matches|
  {
    if matches == [] then Progress([], map[], 0)
    else
      var n := |matches| - 1;
      var before := ReplayRun(event, matches[..n], records, shared, answers[..n]);
      if n < |records| then Advance(before, event, matches[n], records[n].id, shared, answers[n]) else before
  }

  /** One round of the replay loop. */
  method ReplayMatch(event: Event, m: RuleMatch, id: string, shared: bool, publishers: map<string, nat>, made: nat, a: ReplayAnswers)
    returns (effects: seq<Effect>, publishers': map<string, nat>, made': nat)
    ensures Progress(effects, publishers', made') == RoundOf(publishers, made, event, m, id, shared, a)
  {
    hide TrimSpace, Transform, DriverOf;
    publishers', made' := publishers, made;
    var driver := ResolveDriver(m, a);
    if driver.None? {
      return [StatusWrite(id, FAILED)], publishers', made';
    }
    var transformed := Transform(event, m.transformJS, a.transformed);
    if transformed.None? {
      return [StatusWrite(id, FAILED)], publishers', made';
    }
    effects := [PayloadWrite(id, transformed.value.rawPayload)];
    if !shared {
      var name := TrimSpace(driver.value);
      if name !in publishers {
        if !a.configured {
          effects := effects + [StatusWrite(id, FAILED)];
          return;
        }
        if !a.connected {
          effects := effects + [StatusWrite(id, FAILED)];
          return;
        }
        publishers' := publishers[name := made];
        made' := made + 1;
      }
    }
    effects := effects + [PublishCall(Replayed, m.topic, transformed.value, [driver.value], a.outcome)];
    if !a.outcome.ok {
      effects := effects + [StatusWrite(id, FAILED)];
      return;
    }
    effects := effects + [StatusWrite(id, SUCCESS)];
  }

  /** `closed` are the publishers closed at the end. */
  method RunReplayAsync(event: Event, matches: seq<RuleMatch>, records: seq<NewLog>, shared: bool, answers: seq<ReplayAnswers>)
    returns (effects: seq<Effect>, closed: seq<nat>)
    requires |answers| == |matches|
    ensures effects == ReplayRun(event, matches, records, shared, answers).effects
    ensures NoDuplicates(closed)
    ensures forall p: nat :: p in closed <==> p < ReplayRun(event, matches, records, shared, answers).made
  {
    effects := [];
    var publishers: map<string, nat> := map[];
    var made := 0;
    hide RoundOf;
    for idx := 0 to |matches|
      invariant Progress(effects, publishers, made) == ReplayRun(event, matches[..idx], records, shared, answers[..idx])
    {
      assert matches[..idx + 1][..idx] == matches[..idx] && answers[..idx + 1][..idx] == answers[..idx];
      if idx >= |records| { continue; }
      var round;
      round, publishers, made := ReplayMatch(event, matches[idx], records[idx].id, shared, publishers, made, answers[idx]);
      effects := effects + round;
    }
    assert matches[..|matches|] == matches && answers[..|answers|] == answers;
    EveryMadeIsHeldOnce(event, matches, records, shared, answers);
    hide ReplayRun;
    closed := [];
    if shared {
      return;
    }
    closed := CloseAll(publishers);
  }

  // the deferred loop over the publishers of this run
  method CloseAll(publishers: map<string, nat>) returns (closed: seq<nat>)
    requires forall k, l | k in publishers && l in publishers && k != l :: publishers[k] != publishers[l]
    ensures NoDuplicates(closed) && forall p :: p in closed <==> p in publishers.Values
  {
    closed := [];
    var left := publishers.Keys;
    while left != {}
      invariant left <= publishers.Keys && NoDuplicates(closed)
      invariant forall p :: p in closed <==> exists k :: k in publishers && k !in left && publishers[k] == p
      decreases |left|
    {
      var k :| k in left;
      ghost var before, rest := left, closed;
      left := left - {k};
      closed := closed + [publishers[k]];
      assert publishers[k] !in rest;
      forall p
        ensures p in closed <==> exists l :: l in publishers && l !in left && publishers[l] == p
      {
        assert p in closed <==> p in rest || p == publishers[k];
        if l :| l in publishers && l !in left && publishers[l] == p {
          assert l == k || l !in before;
        }
      }
    }
  }

  /** The publishers held are exactly those made, under one name each; none is made when a shared
      publisher is used. */
  ghost predicate HeldOnce(p: Progress) {
    && (forall k, l | k in p.publishers && l in p.publishers && k != l :: p.publishers[k] != p.publishers[l])
    && (forall i: nat :: i in p.publishers.Values <==> i < p.made)
  }

  lemma RoundHolds(p: Progress, event: Event, m: RuleMatch, id: string, shared: bool, a: ReplayAnswers)
    requires HeldOnce(p)
    ensures HeldOnce(Advance(p, event, m, id, shared, a))
    ensures shared ==> Advance(p, event, m, id, shared, a).made == p.made
  {
    hide TrimSpace, Transform, ReplayEffects;
    var q := Advance(p, event, m, id, shared, a);
    if q.made != p.made {
      var name := TrimSpace(DriverOf(m, a).value);
      assert name !in p.publishers && q.publishers == p.publishers[name := p.made];
      forall k | k in p.publishers ensures p.publishers[k] < p.made {
        assert p.publishers[k] in p.publishers.Values;
      }
      forall i: nat ensures i in q.publishers.Values <==> i < q.made {
        if i == p.made {
          assert q.publishers[name] == i;
        } else if i in p.publishers.Values {
          var k :| k in p.publishers && p.publishers[k] == i;
          assert q.publishers[k] == i;
        }
      }
    }
  }

  lemma {:induction false} EveryMadeIsHeldOnce(event: Event, matches: seq<RuleMatch>, records: seq<NewLog>, shared: bool, answers: seq<ReplayAnswers>)
    requires |answers| == |matches|
    ensures HeldOnce(ReplayRun(event, matches, records, shared, answers))
    ensures shared ==> ReplayRun(event, matches, records, shared, answers).made == 0
  {
    hide HeldOnce, Advance;
    if matches == [] {
      assert HeldOnce(Progress([], map[], 0)) by { EmptyHeldOnce(); }
    } else {
      var n := |matches| - 1;
      EveryMadeIsHeldOnce(event, matches[..n], records, shared, answers[..n]);
      if n < |records| {
        RoundHolds(ReplayRun(event, matches[..n], records, shared, answers[..n]), event, matches[n], records[n].id, shared, answers[n]);
      }
    }
  }

  lemma EmptyHeldOnce()
    ensures HeldOnce(Progress([], map[], 0))
  {
  }

  // ---------- one terminal status each ----------

  /** The statuses written for a record, in order. */
  function StatusesOf(effects: seq<Effect>, id: string): seq<string> {
    if effects == [] then []
    else
      var e := effects[|effects| - 1];
      StatusesOf(effects[..|effects| - 1], id) + if e.StatusWrite? && e.id == id then [e.status] else []
  }

  lemma {:induction false} StatusesAppend(a: seq<Effect>, b: seq<Effect>, id: string)
    ensures StatusesOf(a + b, id) == StatusesOf(a, id) + StatusesOf(b, id)
  {
    if b == [] {
      assert a + b == a;
    } else {
      assert (a + b)[..|a + b| - 1] == a + b[..|b| - 1];
      StatusesAppend(a, b[..|b| - 1], id);
    }
  }

  /** The replay of one match ends well. */
  predicate Delivers(event: Event, m: RuleMatch, a: ReplayAnswers, hasPublisher: bool) {
    NeedsPublisher(event, m, a) && (hasPublisher || (a.configured && a.connected)) && a.outcome.ok
  }

  lemma OneReplay(event: Event, m: RuleMatch, id: string, a: ReplayAnswers, hasPublisher: bool, other: string)
    ensures var effects := ReplayEffects(event, m, id, a, hasPublisher);
      && StatusesOf(effects, other) == (if other == id then [if Delivers(event, m, a, hasPublisher) then SUCCESS else FAILED] else [])
      && (forall e | e in effects && e.StatusWrite? :: e.id == id && IsTerminal(e.status))
      && (forall e | e in effects && e.PublishCall? :: e.topic == m.topic && e.event.logId == event.logId && DriverOf(m, a).Some? && e.drivers == [DriverOf(m, a).value])
  {
    hide TrimSpace;
    var effects := ReplayEffects(event, m, id, a, hasPublisher);
    var status := StatusWrite(id, if Delivers(event, m, a, hasPublisher) then SUCCESS else FAILED);
    assert forall e | e in effects && e.StatusWrite? :: e == status;
    assert effects[|effects| - 1] == status;
    NoStatuses(effects[..|effects| - 1], other);
  }

  lemma {:induction false} NoStatuses(effects: seq<Effect>, id: string)
    requires forall e | e in effects :: !e.StatusWrite?
    ensures StatusesOf(effects, id) == []
  {
    if effects != [] {
      assert effects[|effects| - 1] in effects;
      NoStatuses(effects[..|effects| - 1], id);
    }
  }

  /** On every error path: a record gets exactly one status, `success` exactly when its own match
      was published without an error, else `failed`. */
  lemma {:induction false} OneTerminalEach(event: Event, matches: seq<RuleMatch>, records: seq<NewLog>, shared: bool, answers: seq<ReplayAnswers>, i: nat)
    requires |answers| == |matches| && DistinctIds(records) && i < |matches| && i < |records|
    ensures var has := HasPublisher(ReplayRun(event, matches[..i], records, shared, answers[..i]), shared, matches[i], answers[i]);
      StatusesOf(ReplayRun(event, matches, records, shared, answers).effects, records[i].id)
      == [if Delivers(event, matches[i], answers[i], has) then SUCCESS else FAILED]
  {
    hide Delivers, HasPublisher, StatusesOf, ReplayRun;
    var n := |matches| - 1;
    if n < |records| {
      RoundStatuses(event, matches, records, shared, answers, records[i].id);
    } else {
      SkippedRound(event, matches, records, shared, answers);
    }
    if i == n {
      NoOtherWrites(event, matches[..n], records, shared, answers[..n], records[i].id);
    } else {
      OneTerminalEach(event, matches[..n], records, shared, answers[..n], i);
      assert matches[..n][..i] == matches[..i] && answers[..n][..i] == answers[..i];
    }
  }

  lemma RoundStatuses(event: Event, matches: seq<RuleMatch>, records: seq<NewLog>, shared: bool, answers: seq<ReplayAnswers>, id: string)
    requires |answers| == |matches| && 0 < |matches| <= |records|
    ensures var n := |matches| - 1;
      var before := ReplayRun(event, matches[..n], records, shared, answers[..n]);
      var has := HasPublisher(before, shared, matches[n], answers[n]);
      StatusesOf(ReplayRun(event, matches, records, shared, answers).effects, id) == StatusesOf(before.effects, id)
      + if records[n].id == id then [if Delivers(event, matches[n], answers[n], has) then SUCCESS else FAILED] else []
  {
    hide Delivers, HasPublisher, StatusesOf, ReplayEffects, NeedsPublisher, TrimSpace;
    var n := |matches| - 1;
    var before := ReplayRun(event, matches[..n], records, shared, answers[..n]);
    var has := HasPublisher(before, shared, matches[n], answers[n]);
    var last := ReplayEffects(event, matches[n], records[n].id, answers[n], has);
    OneReplay(event, matches[n], records[n].id, answers[n], has, id);
    StatusesAppend(before.effects, last, id);
    SameHasPublisher(before, shared, matches[n], answers[n]);
    assert ReplayRun(event, matches, records, shared, answers).effects == before.effects + last;
  }

  lemma SkippedRound(event: Event, matches: seq<RuleMatch>, records: seq<NewLog>, shared: bool, answers: seq<ReplayAnswers>)
    requires |answers| == |matches| > |records|
    ensures var n := |matches| - 1;
      ReplayRun(event, matches, records, shared, answers) == ReplayRun(event, matches[..n], records, shared, answers[..n])
  {
  }

  lemma SameHasPublisher(p: Progress, shared: bool, m: RuleMatch, a: ReplayAnswers)
    ensures HasPublisher(Progress([], p.publishers, p.made), shared, m, a) == HasPublisher(p, shared, m, a)
  {
  }

  /** Nothing is written for an id that is none of the records'. */
  lemma {:induction false} NoOtherWrites(event: Event, matches: seq<RuleMatch>, records: seq<NewLog>, shared: bool, answers: seq<ReplayAnswers>, id: string)
    requires |answers| == |matches| && forall i | 0 <= i < |matches| && i < |records| :: records[i].id != id
    ensures StatusesOf(ReplayRun(event, matches, records, shared, answers).effects, id) == []
  {
    hide Delivers, HasPublisher;
    if matches == [] {
      assert ReplayRun(event, matches, records, shared, answers).effects == [];
    } else {
      hide StatusesOf, ReplayRun;
      var n := |matches| - 1;
      NoOtherWrites(event, matches[..n], records, shared, answers[..n], id);
      if n < |records| {
        RoundStatuses(event, matches, records, shared, answers, id);
      } else {
        SkippedRound(event, matches, records, shared, answers);
      }
    }
  }

  /** What a replay may do: write a terminal status to one of its own records, or publish to the
      topic of one of its matches under the id of the record that is being replayed. */
  predicate ReplayMay(e: Effect, event: Event, matches: seq<RuleMatch>, records: seq<NewLog>) {
    match e
    case StatusWrite(id, status) => IsTerminal(status) && exists i :: 0 <= i < |records| && records[i].id == id
    case PublishCall(_, topic, sent, _, _) => sent.logId == event.logId && exists i :: 0 <= i < |matches| && matches[i].topic == topic
    case PayloadWrite(id, _) => exists i :: 0 <= i < |records| && records[i].id == id
  }

  lemma {:induction false} ReplayKeepsToItself(event: Event, matches: seq<RuleMatch>, records: seq<NewLog>, shared: bool, answers: seq<ReplayAnswers>, n: nat)
    requires |answers| == |matches| && n <= |matches|
    ensures forall e | e in ReplayRun(event, matches[..n], records, shared, answers[..n]).effects :: ReplayMay(e, event, matches, records)
  {
    if n > 0 {
      ReplayKeepsToItself(event, matches, records, shared, answers, n - 1);
      assert matches[..n][..n - 1] == matches[..n - 1] && answers[..n][..n - 1] == answers[..n - 1];
      hide ReplayMay, HasPublisher, ReplayEffects, NeedsPublisher, TrimSpace;
      if n - 1 < |records| {
        var before := ReplayRun(event, matches[..n - 1], records, shared, answers[..n - 1]);
        var has := HasPublisher(before, shared, matches[n - 1], answers[n - 1]);
        SameHasPublisher(before, shared, matches[n - 1], answers[n - 1]);
        RoundKeepsToItself(event, matches, records, answers[n - 1], n - 1, has);
      }
    }
  }

  lemma RoundKeepsToItself(event: Event, matches: seq<RuleMatch>, records: seq<NewLog>, a: ReplayAnswers, k: nat, has: bool)
    requires k < |matches| && k < |records|
    ensures forall e | e in ReplayEffects(event, matches[k], records[k].id, a, has) :: ReplayMay(e, event, matches, records)
  {
    hide TrimSpace;
  }
}
