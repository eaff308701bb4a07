/** What replaying a match means for its record (pkg/api/eventlogs_service.go). */
module ReplayOutcomes {
  import opened GoText
  import opened Events
  import opened RuleEngines
  import opened StatusStore
  import opened Publish
  import opened Replays
  import PageTokens

  /** The match names a driver, the lookup finds it enabled, the transform goes through, and there is
      a publisher or one can be made. */
  predicate GetsThrough(m: RuleMatch, a: ReplayAnswers, hasPublisher: bool) {
    && (TrimSpace(m.driverName) != "" || TrimSpace(m.driverId) != "")
    && a.found.Found? && a.found.record.enabled
    && (TrimSpace(m.transformJS) == "" || a.transformed.Some?)
    && (hasPublisher || (a.configured && a.connected))
  }

  /** A match that gets through is published once, to its topic and by the driver found, with the
      transform's answer for payload; its record ends `success` when the call returns nil. Any other
      match publishes nothing and its record ends `failed`. There is no other status. */
  lemma RecordEndsAsPublished(event: Event, m: RuleMatch, id: string, a: ReplayAnswers, hasPublisher: bool)
    ensures var effects := ReplayEffects(event, m, id, a, hasPublisher);
      && effects != [] && effects[|effects| - 1] == StatusWrite(id, if GetsThrough(m, a, hasPublisher) && a.outcome.ok then "success" else "failed")
      && (forall n | 0 <= n < |effects| - 1 :: !effects[n].StatusWrite?)
      && ((exists e :: e in effects && e.PublishCall?) <==> GetsThrough(m, a, hasPublisher))
      && (forall e | e in effects && e.PublishCall? ::
            && e.topic == m.topic && e.drivers == [a.found.record.name] && e.outcome == a.outcome
            && e.event == (if TrimSpace(m.transformJS) == "" then event else event.(rawPayload := a.transformed.value, rawObject := None)))
      && (forall n, k | 0 <= n < k < |effects| :: !(effects[n].PublishCall? && effects[k].PublishCall?))
  {
    hide TrimSpace;
    var effects := ReplayEffects(event, m, id, a, hasPublisher);
    if GetsThrough(m, a, hasPublisher) {
      assert effects[1].PublishCall? && effects[1] in effects;
    }
  }

  /** A replay record says what the match says, is queued, and lists the match's driver. */
  lemma ReplayRecordSays(event: Event, m: RuleMatch, id: string)
    ensures var r := ReplayRecordFor(event, m, id).row;
      && ReplayRecordFor(event, m, id).id == id && r.matched && r.status == "queued" && r.body == event.rawPayload
      && r.topic == m.topic && r.ruleId == m.ruleId && r.ruleWhen == m.ruleWhen
      && r.drivers == [if TrimSpace(m.driverName) != "" then TrimSpace(m.driverName) else TrimSpace(m.driverId)]
  {
    hide TrimSpace;
  }

  /** The driver the lookup finds: the match names one and the record found is enabled. */
  predicate FindsDriver(m: RuleMatch, a: ReplayAnswers) {
    (TrimSpace(m.driverName) != "" || TrimSpace(m.driverId) != "") && a.found.Found? && a.found.record.enabled
  }

  /** A replay run makes one publisher per trimmed driver name: a match uses the shared one or the one made
      before for its driver, and makes one only if neither is there and its driver can be reached. */
  lemma OnePublisherPerDriver(publishers: map<string, nat>, made: nat, event: Event, m: RuleMatch, id: string, shared: bool, a: ReplayAnswers)
    ensures var has := shared || (FindsDriver(m, a) && TrimSpace(a.found.record.name) in publishers);
      var r := RoundOf(publishers, made, event, m, id, shared, a);
      && r.effects == ReplayEffects(event, m, id, a, has)
      && (if !has && GetsThrough(m, a, has)
          then r.publishers == publishers[TrimSpace(a.found.record.name) := made] && r.made == made + 1
          else r.publishers == publishers && r.made == made)
  {
    hide TrimSpace, ReplayEffects;
  }
}
