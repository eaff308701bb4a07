/** Two concrete runs of the whole machine in which a message is not its record's: one after a
    failed insert, one after a replay whose rules have changed. */
module PipelineFaults {
  import opened GoText
  import opened Events
  import opened RuleEngines
  import opened StatusStore
  import opened Pipelines
  import P = Publish
  import R = Replays

  const EVENT := Event("github", "push", "", "", None, "{}", None, "", "acme", "", "", "")

  /** A rule that sends to topic `a` over driver `amqp`. */
  const RULE := MatchedRule("rule-a", "true", ["a"], "", "", "amqp", "", false)

  const MATCH := RuleMatch("a", "", "", "amqp", "rule-a", "true", "", false)

  function OnlyId(): nat -> string { n => "log" }

  /** One webhook that matches the rule once and is delivered by the fallback. */
  function Request(dbOk: bool): Intake {
    Intake(P.Setup(EVENT, false, false, false), [RULE],
           [P.Answers(None, false, P.Outcome(false, false), P.Outcome(true, true))],
           OnlyId(), true, dbOk, "acme", 1)
  }

  lemma RequestIsAccepted(dbOk: bool)
    ensures CanAccept(INITIAL, Request(dbOk)) && Expand([RULE]) == [MATCH]
    ensures PublishTodo(Request(dbOk).setup, Expand([RULE]), LogsOf(Request(dbOk)), Request(dbOk).answers)
         == [Send(Message("a", "log", FromRule("rule-a")), true)]
  {
    RuleExpands();
    var r := Request(dbOk);
    MatchIsSent(r.setup, LogsOf(r), r.answers[0]);
    VisibleIsTrimmed("log");
    hide TrimSpace, P.EffectsAt;
    assert [MATCH][..0] == [] && r.answers[..0] == [];
    assert PublishTodo(r.setup, [], LogsOf(r), []) == [];
    FilledKeeps(LogsOf(r), r.tenant, r.now);
    assert RowsOf(r) == Filled(LogsOf(r), r.tenant, r.now);
  }

  lemma RuleExpands()
    ensures Expand([RULE]) == [MATCH]
  {
    assert [RULE][..0] == [];
    assert TopicMatch(RULE, "a") == MATCH;
  }

  lemma MatchIsSent(s: P.Setup, logs: seq<NewLog>, a: P.Answers)
    requires s == P.Setup(EVENT, false, false, false) && |logs| == 1 && logs[0].id == "log" && a.fallback == P.Outcome(true, true)
    ensures ActionsOf(P.EffectsAt(s, MATCH, logs, 0, a), FromRule("rule-a")) == [Send(Message("a", "log", FromRule("rule-a")), true)]
  {
    VisibleIsTrimmed("amqp");
    TrimSpaceIsTrimmed("");
    assert TrimSpace("") == "" by { assert Trimmed(""); }
    hide TrimSpace;
    assert P.DriverList(MATCH) == ["amqp"];
    assert P.SkipsDynamic(MATCH, false);
  }

  /** A webhook whose insert fails puts a message on the bus under an id that no record has. */
  lemma OrphanHappens() returns (steps: seq<Step>)
    ensures CanRun(INITIAL, steps)
    ensures exists m :: m in After(INITIAL, steps).bus && m.logId != "" && m.logId !in After(INITIAL, steps).rows
  {
    RequestIsAccepted(false);
    InitialHolds();
    var w := Weather("acme", "", 0, 0, true);
    steps := FailedInsertOrphans(INITIAL, Request(false), 0, w);
    hide *;
    assert Message("a", "log", FromRule("rule-a")) in After(INITIAL, steps).bus;
  }

  const NEW_MATCH := RuleMatch("b", "", "", "amqp", "rule-b", "true", "", false)

  function CopyId(): nat -> string { n => "copy" }

  function AnyEvent(): R.Parser { (body, provider, name) => Some(EVENT) }

  /** By now the event matches a rule that sends to topic `b`. */
  const REPLAY := ReplayRequest("log", AnyEvent(), [NEW_MATCH],
                                [R.ReplayAnswers(R.Found(R.DriverRecord("amqp", true)), None, true, true, P.Outcome(true, true))],
                                CopyId(), true, true, "acme", 2)

  lemma RowIsThere()
    ensures CanAccept(INITIAL, Request(true))
    ensures var s := Accept(INITIAL, Request(true));
      && s.used == {"log"} && "log" in s.rows && s.rows["log"].topic == "a" && s.rows["log"].body == "{}"
  {
    RequestIsAccepted(true);
    var r := Request(true);
    var made := RowsOf(r);
    hide PublishTodo, TrimSpace;
    assert LogsOf(r) == [P.RecordFor(EVENT, MATCH, "log")];
    FilledKeeps(LogsOf(r), r.tenant, r.now);
    P.InsertedHas(map[], made);
    assert |made| == 1 && made[0].id == "log" && made[0].row.topic == "a" && made[0].row.body == "{}";
    assert IdsOf(made) == {"log"};
  }

  lemma ReplayIsPossible(s: State)
    requires s.used == {"log"} && "log" in s.rows && s.rows["log"].body == "{}"
    ensures CanReplay(s, REPLAY)
    ensures var event := ReplayedEvent(s, REPLAY).value;
      event.logId == "log" && ReplayRecords(event, REPLAY) == [R.ReplayRecordFor(event, NEW_MATCH, "copy")]
  {
    var event := ReplayedEvent(s, REPLAY).value;
    ReplayRowsAreNew(event, REPLAY);
    VisibleIsTrimmed("copy");
    hide TrimSpace, Filled;
    assert ReplayRecords(event, REPLAY) == [R.ReplayRecordFor(event, NEW_MATCH, CopyId()(0))];
  }

  lemma RoundSendsToB(event: Event, records: seq<NewLog>)
    requires |records| == 1 && records[0].id == "copy"
    ensures var effects := RoundEffects(event, [NEW_MATCH], records, true, REPLAY.answers, 0);
      |effects| == 3 && effects[1] == P.PublishCall(P.Replayed, "b", event, ["amqp"], P.Outcome(true, true))
  {
    TrimSpaceIsTrimmed("");
    assert TrimSpace("") == "" by { assert Trimmed(""); }
    VisibleIsTrimmed("amqp");
    assert [NEW_MATCH][..0] == [] && REPLAY.answers[..0] == [];
    var none := R.ReplayRun(event, [], records, true, []);
    assert none == R.Progress([], map[], 0);
    hide TrimSpace;
    assert P.DriverName(NEW_MATCH) == "amqp";
    var effects := RoundEffects(event, [NEW_MATCH], records, true, REPLAY.answers, 0);
    assert effects == R.RoundOf(map[], 0, event, NEW_MATCH, "copy", true, REPLAY.answers[0]).effects;
    hide P.DriverName;
  }

  lemma ReplaySendsToB(s: State)
    requires s.used == {"log"} && "log" in s.rows && s.rows["log"].body == "{}"
    ensures CanReplay(s, REPLAY)
    ensures var todo := TodoOf(s, REPLAY);
      |todo| == 3 && todo[1] == Send(Message("b", "log", FromReplay("rule-b", s.rows["log"].topic, s.rows["log"].ruleId)), true)
  {
    ReplayIsPossible(s);
    var event, row := ReplayedEvent(s, REPLAY).value, s.rows["log"];
    var records := ReplayRecords(event, REPLAY);
    hide ReplayedEvent, ReplayRecords, CanReplay;
    RoundSendsToB(event, records);
    hide RoundEffects;
    var effects, origin := RoundEffects(event, [NEW_MATCH], records, true, REPLAY.answers, 0), FromReplay("rule-b", row.topic, row.ruleId);
    assert [NEW_MATCH][..0] == [] && REPLAY.answers[..0] == [];
    assert ReplayTodo(event, [], records, true, [], row) == [];
    assert TodoOf(s, REPLAY) == [] + ActionsOf(effects, origin);
  }

  /** A replay after a change of rules puts a message on the bus whose record, found by its id, is
      for another topic: a worker's report on it goes to that record. */
  lemma MislabelHappens() returns (steps: seq<Step>)
    ensures CanRun(INITIAL, steps)
    ensures exists m :: m in After(INITIAL, steps).bus && m.logId in After(INITIAL, steps).rows && !HasOwnRecord(After(INITIAL, steps), m)
  {
    InitialHolds();
    RowIsThere();
    var s := Accept(INITIAL, Request(true));
    assert Enabled(INITIAL, Webhook(Request(true))) && Next(INITIAL, Webhook(Request(true))) == s;
    AcceptKeepsInvariant(INITIAL, Request(true));
    ReplaySendsToB(s);
    var w := Weather("acme", "", 0, 0, true);
    var later, k := ReplayCarriesOldId(s, REPLAY, 1, w);
    var m := TodoOf(s, REPLAY)[1].message;
    assert m.topic == "b" && m in After(s, later).bus && !HasOwnRecord(After(s, later), m);
    steps := [Webhook(Request(true))] + later;
    assert steps[0] == Webhook(Request(true)) && steps[1..] == later;
    hide Accept, Enabled, Next, Invariant, TodoOf, ReplayedEvent, CanReplay, Request;
    assert After(INITIAL, steps) == After(s, later);
  }
}
