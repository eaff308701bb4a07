/** What handling a message means for the bus and for its record (sdk/go/worker/worker.go). */
module WorkerOutcomes {
  import opened GoText
  import opened Sorting
  import opened StatusStore
  import opened Workers
  import Publisher

  /** The handlers for the topic or, failing that, for the event's type. */
  predicate HasHandler(s: Setup, topic: string, a: Answers) {
    a.decoded.Some? && (topic in s.topicHandlers || a.decoded.value in s.typeHandlers)
  }

  /** The message is decoded and the client is built, where one is needed. */
  predicate IsReady(s: Setup, a: Answers) { a.decoded.Some? && (s.hasClientProvider ==> a.clientBuilt) }

  /** One of the attempts returns nil. */
  predicate SomeAttemptSucceeds(s: Setup, a: Answers) { exists n: nat :: n <= s.retryCount && a.ok(n) }

  predicate EndsWell(s: Setup, topic: string, a: Answers) {
    IsReady(s, a) && (HasHandler(s, topic, a) ==> SomeAttemptSucceeds(s, a))
  }

  lemma SucceedsIffEndsWell(s: Setup, topic: string, a: Answers)
    ensures Succeeds(EndingOf(s, topic, a)) <==> EndsWell(s, topic, a)
  {
    Publisher.RetryAccounts(0, s.retryCount + 1, a.ok, NeverStops());
    hide Publisher.TriesFrom, Wrap;
    if SomeAttemptSucceeds(s, a) {
      var n: nat :| n <= s.retryCount && a.ok(n);
      assert 0 <= n < s.retryCount + 1;
    }
  }

  /** The record is written once, if the message names one: `success` when the message was ready and
      had no handler or an attempt returned nil, and `failed` otherwise. */
  lemma RecordSaysHowItEnded(s: Setup, topic: string, logId: string, a: Answers)
    ensures WritesIn(EffectsOf(s, topic, logId, a)) ==
      if logId == "" then [] else [StatusWrite(logId, if EndsWell(s, topic, a) then "success" else "failed")]
  {
    HandlingAccounts(s, topic, logId, a);
    SucceedsIffEndsWell(s, topic, a);
    hide EndingOf, Succeeds, EndsWell, WritesIn, EffectsOf;
    var effects := EffectsOf(s, topic, logId, a);
    if logId == "" {
      assert effects[|effects|..] == [];
    } else {
      assert effects[|effects| - 1..] == [effects[|effects| - 1]];
    }
  }

  /** Only a message that is ready and has a handler calls one: the topic's handler before the type's,
      wrapped in the middleware; the n-th call is the n-th attempt. */
  lemma CallsAreAttempts(s: Setup, topic: string, logId: string, a: Answers, n: nat)
    requires n < |EffectsOf(s, topic, logId, a)| && EffectsOf(s, topic, logId, a)[n].HandlerCall?
    ensures IsReady(s, a) && HasHandler(s, topic, a)
    ensures var e := EffectsOf(s, topic, logId, a)[n];
      && e.ok == a.ok(n) && n <= s.retryCount
      && e.handler == Wrap(s.middleware, if topic in s.topicHandlers then s.topicHandlers[topic] else s.typeHandlers[a.decoded.value])
      && forall m: nat | m < n :: !a.ok(m)
  {
    Publisher.RetryAccounts(0, s.retryCount + 1, a.ok, NeverStops());
    EndingAccounts(s, topic, a);
    hide Publisher.TriesFrom, Wrap;
  }

  /** Only a message whose driver is `amqp`, in any case of letters, may go back to the bus. */
  lemma OnlyAmqpGoesBack(metadata: Metadata)
    ensures ShouldRequeue(metadata) <==> "driver" in metadata && Lower(metadata["driver"]) == "amqp"
    ensures ShouldRequeue(map["driver" := "AMQP"]) && !ShouldRequeue(map["driver" := "nats"])
  {
    assert Lower("AMQP") == "amqp";
    assert Lower("nats")[0] == 'n';
    assert Lower("")  == "";
  }

  /** A rule is subscribed on its first topic, with its driver, both trimmed; a rule that is unknown,
      has no topic, or has a blank topic or driver, is not. */
  lemma RulesAreSubscribed(ruleHandlers: map<string, Handler>, rules: map<string, Rule>, id: string)
    ensures var r := RegistrationOf(ruleHandlers, rules, id);
      && (r.Some? <==> id in ruleHandlers && id in rules && rules[id].emit != [] && TrimSpace(rules[id].emit[0]) != "" && TrimSpace(rules[id].driverId) != "")
      && (r.Some? ==> r.value.topic == TrimSpace(rules[id].emit[0]) && r.value.driver == TrimSpace(rules[id].driverId) && r.value.handler == ruleHandlers[id])
  {
    hide TrimSpace;
  }

  /** A topic is listened to on its trimmed driver and on no other; every driver listed has a topic; and
      a topic without a driver, or with a blank one, has none. */
  lemma TopicsGoToTheirDriver(topicDrivers: map<string, string>, order: seq<string>, groups: map<string, seq<string>>, t: string, d: string)
    requires Elements(order) == topicDrivers.Keys && IsGrouping(groups, order, DriverOf(topicDrivers))
    ensures d in groups && t in groups[d] <==> t in topicDrivers && d != "" && TrimSpace(topicDrivers[t]) == d
    ensures d in groups ==> groups[d] != []
  {
    hide TrimSpace;
    assert t in order <==> t in Elements(order);
  }
}
