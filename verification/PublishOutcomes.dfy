/** What publishing a match means for the caller, in terms of the match and of what transform and
    brokers answered (pkg/webhook/publish.go, pkg/webhook/event_logging.go). */
module PublishOutcomes {
  import opened GoText
  import opened Events
  import opened RuleEngines
  import opened StatusStore
  import opened Publish
  import PageTokens

  // ---------- one match ----------

  /** There is no transform, or it went through. */
  predicate Transforms(m: RuleMatch, a: Answers) { TrimSpace(m.transformJS) == "" || a.transformed.Some? }

  /** The match is published through the shared publisher: there is no cache, or the match does not
      bring a driver of its own that is configured and enabled. */
  predicate Shares(s: Setup, m: RuleMatch) {
    !s.hasCache || TrimSpace(m.driverName) == "" || TrimSpace(m.driverConfigJSON) == "" || !m.driverEnabled
  }

  predicate HasNoDriver(m: RuleMatch) { TrimSpace(m.driverName) == "" && TrimSpace(m.driverId) == "" }

  predicate CallSucceeds(effects: seq<Effect>) { exists e :: e in effects && e.PublishCall? && e.outcome.ok }

  /** The failed writes of one match are told by its publish call: none if a call returned nil, or if
      there was nobody to call; one otherwise. Without a status updater or a record there is none. */
  lemma FailedUnlessPublished(s: Setup, m: RuleMatch, logs: seq<NewLog>, idx: nat, a: Answers)
    ensures var effects := EffectsAt(s, m, logs, idx, a);
      && (forall e | e in effects && e.StatusWrite? :: s.updatesStatus && idx < |logs| && e == StatusWrite(logs[idx].id, "failed"))
      && (s.updatesStatus && idx < |logs| ==>
            FailuresOf(effects, logs[idx].id) == if CallSucceeds(effects) || (Transforms(m, a) && Shares(s, m) && HasNoDriver(m)) then 0 else 1)
  {
    EffectsInParts(s, m, logs, idx, a);
    var payload, call, report := PayloadPart(s, m, logs, idx, a), CallPart(s, m, logs, idx, a), ReportPart(s, m, logs, idx, a);
    hide *;
    PartsAre(s, m, logs, idx, a);
    assert forall e :: e in payload + call + report <==> e in payload || e in call || e in report;
    if idx < |logs| {
      FailuresOfParts(payload, call, report, logs[idx].id);
    }
    assert CallSucceeds(payload + call + report) <==> call != [] && call[0].outcome.ok by { CallOfParts(payload, call, report); }
  }

  lemma CallOfParts(payload: seq<Effect>, call: seq<Effect>, report: seq<Effect>)
    requires (forall e | e in payload + report :: !e.PublishCall?) && |call| <= 1 && (forall e | e in call :: e.PublishCall?)
    ensures CallSucceeds(payload + call + report) <==> call != [] && call[0].outcome.ok
  {
    assert forall e :: e in payload + call + report <==> e in payload + report || e in call;
    if call != [] {
      assert call[0] in payload + call + report;
    }
  }

  // ---------- the effects of one match, told from the match ----------

  /** The event as it is published: under the record's id, with the transform's answer for payload. */
  function Published(s: Setup, m: RuleMatch, logs: seq<NewLog>, idx: nat, a: Answers): Event
    requires Transforms(m, a)
  {
    var e := s.event.(logId := if idx < |logs| then logs[idx].id else "");
    if TrimSpace(m.transformJS) == "" then e else e.(rawPayload := a.transformed.value, rawObject := None)
  }

  function PayloadPart(s: Setup, m: RuleMatch, logs: seq<NewLog>, idx: nat, a: Answers): seq<Effect> {
    if s.updatesPayload && idx < |logs| && Transforms(m, a)
    then [PayloadWrite(logs[idx].id, if TrimSpace(m.transformJS) == "" then s.event.rawPayload else a.transformed.value)] else []
  }

  /** The one publish call: of the match's own publisher, if it could be built, or of the shared one
      for the match's driver. */
  function CallPart(s: Setup, m: RuleMatch, logs: seq<NewLog>, idx: nat, a: Answers): seq<Effect> {
    if !Transforms(m, a) then []
    else if !Shares(s, m) then
      if a.publisherBuilt then [PublishCall(Dynamic, m.topic, Published(s, m, logs, idx, a), [], a.dynamic)] else []
    else if HasNoDriver(m) then []
    else
      var driver := if TrimSpace(m.driverName) != "" then TrimSpace(m.driverName) else TrimSpace(m.driverId);
      [PublishCall(Fallback, m.topic, Published(s, m, logs, idx, a), [driver], a.fallback)]
  }

  function ReportPart(s: Setup, m: RuleMatch, logs: seq<NewLog>, idx: nat, a: Answers): seq<Effect> {
    var call := CallPart(s, m, logs, idx, a);
    var settled := (call != [] && call[0].PublishCall? && call[0].outcome.ok) || (Transforms(m, a) && Shares(s, m) && HasNoDriver(m));
    if s.updatesStatus && idx < |logs| && !settled then [StatusWrite(logs[idx].id, "failed")] else []
  }

  lemma PartsAre(s: Setup, m: RuleMatch, logs: seq<NewLog>, idx: nat, a: Answers)
    ensures var payload, call, report := PayloadPart(s, m, logs, idx, a), CallPart(s, m, logs, idx, a), ReportPart(s, m, logs, idx, a);
      && |payload| <= 1 && (forall e | e in payload :: e.PayloadWrite?)
      && |call| <= 1 && (forall e | e in call :: e.PublishCall?)
      && |report| <= 1 && (forall e | e in report :: e.StatusWrite? && e.status == FAILED)
      && (forall e | e in payload + report :: !e.PublishCall?)
      && (forall e | e in report :: s.updatesStatus && idx < |logs| && e == StatusWrite(logs[idx].id, "failed"))
      && (s.updatesStatus && idx < |logs| ==>
            (report == [] <==> (call != [] && call[0].outcome.ok) || (Transforms(m, a) && Shares(s, m) && HasNoDriver(m)))
            && (report != [] ==> report == [StatusWrite(logs[idx].id, FAILED)]))
  {
    hide TrimSpace, Shares, HasNoDriver, Published;
  }

  /** A match first stores the payload that is published, then publishes it, then reports. */
  lemma EffectsInParts(s: Setup, m: RuleMatch, logs: seq<NewLog>, idx: nat, a: Answers)
    ensures EffectsAt(s, m, logs, idx, a) == PayloadPart(s, m, logs, idx, a) + CallPart(s, m, logs, idx, a) + ReportPart(s, m, logs, idx, a)
  {
    hide TrimSpace;
  }

  /** A transform that fails: nothing is published, and the one effect is a failed record. */
  lemma FailedTransformIsReported(s: Setup, m: RuleMatch, logs: seq<NewLog>, idx: nat, a: Answers)
    requires TrimSpace(m.transformJS) != "" && a.transformed.None?
    ensures EffectsAt(s, m, logs, idx, a) == if s.updatesStatus && idx < |logs| then [StatusWrite(logs[idx].id, "failed")] else []
  {
    hide TrimSpace;
  }

  /** What is published is what is stored: the transform's answer, or the event's own payload. */
  lemma TransformedIsPublished(s: Setup, m: RuleMatch, logs: seq<NewLog>, idx: nat, a: Answers)
    ensures var effects := EffectsAt(s, m, logs, idx, a);
      && (forall e | e in effects && e.PublishCall? ::
            && e.event.rawPayload == (if TrimSpace(m.transformJS) == "" then s.event.rawPayload else a.transformed.value)
            && e.event.rawObject == (if TrimSpace(m.transformJS) == "" then s.event.rawObject else None)
            && e.event == s.event.(logId := e.event.logId, rawPayload := e.event.rawPayload, rawObject := e.event.rawObject))
      && (forall e, w | e in effects && e.PublishCall? && w in effects && w.PayloadWrite? :: w.payload == e.event.rawPayload && w.id == e.event.logId)
      && (s.updatesPayload && idx < |logs| && CallSucceeds(effects) ==> exists w :: w in effects && w.PayloadWrite?)
  {
    EffectsInParts(s, m, logs, idx, a);
    EventOfCall(s, m, logs, idx, a);
    var payload, call, report := PayloadPart(s, m, logs, idx, a), CallPart(s, m, logs, idx, a), ReportPart(s, m, logs, idx, a);
    hide *;
    PartsAre(s, m, logs, idx, a);
    assert forall e :: e in payload + call + report <==> e in payload || e in call || e in report;
    assert CallSucceeds(payload + call + report) <==> call != [] && call[0].outcome.ok by { CallOfParts(payload, call, report); }
    assert payload != [] ==> payload[0] in payload;
  }

  lemma EventOfCall(s: Setup, m: RuleMatch, logs: seq<NewLog>, idx: nat, a: Answers)
    ensures forall e | e in CallPart(s, m, logs, idx, a) ::
      && e.PublishCall?
      && e.event.rawPayload == (if TrimSpace(m.transformJS) == "" then s.event.rawPayload else a.transformed.value)
      && e.event.rawObject == (if TrimSpace(m.transformJS) == "" then s.event.rawObject else None)
      && e.event == s.event.(logId := e.event.logId, rawPayload := e.event.rawPayload, rawObject := e.event.rawObject)
      && (forall w | w in PayloadPart(s, m, logs, idx, a) :: w.PayloadWrite? && w.payload == e.event.rawPayload && w.id == e.event.logId)
      && (s.updatesPayload && idx < |logs| ==> PayloadPart(s, m, logs, idx, a) != [])
  {
    hide TrimSpace;
  }

  // ---------- the whole loop ----------

  /** The match was handed over, or there was nobody to hand it to. */
  predicate Settled(s: Setup, m: RuleMatch, a: Answers) {
    && (TrimSpace(m.transformJS) == "" || a.transformed.Some?)
    && if s.hasCache && TrimSpace(m.driverName) != "" && TrimSpace(m.driverConfigJSON) != "" && m.driverEnabled
       then a.publisherBuilt && a.dynamic.ok
       else (TrimSpace(m.driverName) == "" && TrimSpace(m.driverId) == "") || a.fallback.ok
  }

  /** After the loop a record has been written `failed` exactly when its match was not settled: when
      the transform failed, the match's own publisher could not be built, or the publish call
      returned an error. Nothing else is ever written as a status. */
  lemma LoopReportsTheUnsettled(s: Setup, matches: seq<RuleMatch>, logs: seq<NewLog>, answers: seq<Answers>, i: nat)
    requires |answers| == |matches| && DistinctIds(logs) && s.updatesStatus && i < |logs| && i < |matches|
    ensures FailuresOf(AllEffects(s, matches, logs, answers), logs[i].id) == if Settled(s, matches[i], answers[i]) then 0 else 1
    ensures forall e | e in AllEffects(s, matches, logs, answers) && e.StatusWrite? :: e.status == "failed"
  {
    WholePublish(s, matches, logs, answers, i);
    hide AllEffects, FailuresOf, TrimSpace;
  }

  // ---------- records ----------

  /** A record of a match carries its topic, rule, condition and trimmed driver, and the event's
      payload and source; it is queued. */
  lemma RecordSays(event: Event, m: RuleMatch, id: string)
    ensures var r := RecordFor(event, m, id).row;
      && RecordFor(event, m, id).id == id && r.matched && r.status == "queued" && r.body == event.rawPayload && r.errorMessage == ""
      && r.topic == m.topic && r.ruleId == m.ruleId && r.ruleWhen == m.ruleWhen
      && r.drivers == (if TrimSpace(m.driverName) != "" then [TrimSpace(m.driverName)]
                       else if TrimSpace(m.driverId) != "" then [TrimSpace(m.driverId)] else [])
      && r.source == Source(event.provider, event.name, event.requestId, event.stateId, event.installationId, event.namespaceId, event.namespaceName)
  {
    hide TrimSpace;
  }

  /** An event that matches nothing leaves one record, without topic or rule. */
  lemma IgnoredRecordSays(event: Event, id: string)
    ensures var r := IgnoredRecord(event, id).row;
      && IgnoredRecord(event, id).id == id && !r.matched && r.status == "ignored" && r.body == event.rawPayload
      && r.topic == "" && r.ruleId == "" && r.ruleWhen == "" && r.drivers == []
  {
  }
}
