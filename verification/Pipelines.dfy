/** The whole path of an event as one machine: webhook requests write records and publish, the
    bus duplicates and loses messages, workers handle them and report, and stored events are
    replayed. Every goroutine is a list of actions (the effects that publish.go, worker.go and
    eventlogs_service.go produce) of which one is done at a time, in any interleaving. A worker
    is the only outside writer of statuses, and generated ids are fresh. */
module Pipelines {
  import opened GoText
  import opened Events
  import opened RuleEngines
  import opened StatusStore
  import P = Publish
  import R = Replays
  import W = Workers
  import PageTokens

  /** Why a message was published: the rule it was published for, and for a replay also the topic
      and rule that the replayed row had when the replay was requested. None of it travels. */
  datatype Origin = FromRule(ruleId: string) | FromReplay(ruleId: string, oldTopic: string, oldRuleId: string)

  datatype Message = Message(topic: string, logId: string, origin: Origin)

  datatype Action =
    | Send(message: Message, delivered: bool)
    | Write(id: string, status: string)
    | Payload(id: string, body: string)
    | Call(ok: bool)

  datatype Kind = Ingress | Replay | Handling(message: Message, setup: W.Setup, answers: W.Answers)

  /** The actions of a goroutine, of which the first `pc` are done. */
  datatype Thread = Thread(kind: Kind, todo: seq<Action>, pc: nat)

  /** `used` are all ids ever generated, `lost` those of records whose insert failed, and
      `replays` those of replay records. Threads are never removed. */
  datatype State = State(
    rows: Table, bus: multiset<Message>, threads: seq<Thread>,
    used: set<string>, lost: set<string>, replays: set<string>)

  const INITIAL := State(map[], multiset{}, [], {}, {}, {})

  // ---------- webhook requests ----------

  datatype Intake = Intake(
    setup: P.Setup, rules: seq<MatchedRule>, answers: seq<P.Answers>, uuid: nat -> string,
    hasStore: bool, dbOk: bool, tenant: string, now: PageTokens.Time)

  function Filled(logs: seq<NewLog>, tenant: string, now: PageTokens.Time): seq<NewLog> {
    seq(|logs|, i requires 0 <= i < |logs| => FillDefaults(logs[i], tenant, now, ""))
  }

  function IdsOf(logs: seq<NewLog>): set<string> { set i | 0 <= i < |logs| :: logs[i].id }

  /** The records given to the publish loop. */
  function LogsOf(r: Intake): seq<NewLog> {
    if r.hasStore then P.RecordsFor(r.setup.event, Expand(r.rules), r.uuid) else []
  }

  /** The rows to insert. */
  function RowsOf(r: Intake): seq<NewLog> {
    if !r.hasStore then []
    else Filled(if r.rules == [] then [P.IgnoredRecord(r.setup.event, r.uuid(0))] else LogsOf(r), r.tenant, r.now)
  }

  predicate FreshIds(used: set<string>, logs: seq<NewLog>) {
    && P.DistinctIds(logs)
    && forall i | 0 <= i < |logs| :: logs[i].id !in used && logs[i].id != "" && TrimSpace(logs[i].id) == logs[i].id
  }

  function ActionOf(e: P.Effect, origin: Origin): Action {
    match e
    case PublishCall(_, topic, event, _, outcome) => Send(Message(topic, event.logId, origin), outcome.delivered)
    case StatusWrite(id, status) => Write(id, status)
    case PayloadWrite(id, payload) => Payload(id, payload)
  }

  function ActionsOf(effects: seq<P.Effect>, origin: Origin): seq<Action> {
    seq(|effects|, i requires 0 <= i < |effects| => ActionOf(effects[i], origin))
  }

  /** The publish loop, match by match. */
  function PublishTodo(s: P.Setup, matches: seq<RuleMatch>, logs: seq<NewLog>, answers: seq<P.Answers>): seq<Action>
    requires |answers| == |matches|
  {
    if matches == [] then []
    else
      var n := |matches| - 1;
      PublishTodo(s, matches[..n], logs, answers[..n])
      + ActionsOf(P.EffectsAt(s, matches[n], logs, n, answers[n]), FromRule(matches[n].ruleId))
  }

  const BARE := FromRule("")

  /** An action without the rule it was done for. */
  function Bare(a: Action): Action {
    if a.Send? then a.(message := a.message.(origin := BARE)) else a
  }

  function BareAll(actions: seq<Action>): seq<Action> {
    seq(|actions|, i requires 0 <= i < |actions| => Bare(actions[i]))
  }

  /** The webhook thread does exactly what the publish loop does. */
  lemma {:induction false} TodoIsTheLoop(s: P.Setup, matches: seq<RuleMatch>, logs: seq<NewLog>, answers: seq<P.Answers>)
    requires |answers| == |matches|
    ensures BareAll(PublishTodo(s, matches, logs, answers)) == ActionsOf(P.AllEffects(s, matches, logs, answers), BARE)
  {
    hide P.EffectsAt;
    if matches != [] {
      var n := |matches| - 1;
      TodoIsTheLoop(s, matches[..n], logs, answers[..n]);
      var head, last := PublishTodo(s, matches[..n], logs, answers[..n]), P.EffectsAt(s, matches[n], logs, n, answers[n]);
      BareIsDone(head, P.AllEffects(s, matches[..n], logs, answers[..n]), last, FromRule(matches[n].ruleId));
    }
  }

  lemma BareIsDone(head: seq<Action>, effects: seq<P.Effect>, last: seq<P.Effect>, origin: Origin)
    requires BareAll(head) == ActionsOf(effects, BARE)
    ensures BareAll(head + ActionsOf(last, origin)) == ActionsOf(effects + last, BARE)
  {
    var both := head + ActionsOf(last, origin);
    assert |head| == |BareAll(head)| == |effects|;
    forall i | 0 <= i < |both|
      ensures Bare(both[i]) == ActionOf((effects + last)[i], BARE)
    {
      if i < |head| {
        assert Bare(head[i]) == BareAll(head)[i] == ActionsOf(effects, BARE)[i];
      }
    }
  }

  predicate CanAccept(s: State, r: Intake) { |r.answers| == |Expand(r.rules)| && FreshIds(s.used, RowsOf(r)) }

  function Accept(s: State, r: Intake): State
    requires CanAccept(s, r)
  {
    var ids := IdsOf(RowsOf(r));
    s.(rows := if r.dbOk then Inserted(s.rows, RowsOf(r)) else s.rows,
       threads := s.threads + [Thread(Ingress, PublishTodo(r.setup, Expand(r.rules), LogsOf(r), r.answers), 0)],
       used := s.used + ids,
       lost := if r.dbOk then s.lost else s.lost + ids)
  }

  // ---------- replay requests ----------

  datatype ReplayRequest = ReplayRequest(
    id: string, parse: R.Parser, matches: seq<RuleMatch>, answers: seq<R.ReplayAnswers>,
    uuid: nat -> string, admitted: bool, shared: bool, tenant: string, now: PageTokens.Time)

  function ReplayRecords(event: Event, r: ReplayRequest): seq<NewLog> {
    seq(|r.matches|, i requires 0 <= i < |r.matches| => R.ReplayRecordFor(event, r.matches[i], r.uuid(i)))
  }

  function ReplayedEvent(s: State, r: ReplayRequest): Option<Event> {
    if r.id in s.rows then R.BuildReplayEvent(r.id, s.rows[r.id], r.parse) else None
  }

  predicate CanReplay(s: State, r: ReplayRequest) {
    && ReplayedEvent(s, r).Some? && r.matches != [] && |r.answers| == |r.matches|
    && FreshIds(s.used, Filled(ReplayRecords(ReplayedEvent(s, r).value, r), r.tenant, r.now))
  }

  /** The replay loop, match by match, of a row that is `row` when the replay is requested. */
  function ReplayTodo(event: Event, matches: seq<RuleMatch>, records: seq<NewLog>, shared: bool, answers: seq<R.ReplayAnswers>, row: LogRow): seq<Action>
    requires |answers| == |matches|
  {
    if matches == [] then []
    else
      var n := |matches| - 1;
      ReplayTodo(event, matches[..n], records, shared, answers[..n], row)
      + if n < |records| then ActionsOf(RoundEffects(event, matches, records, shared, answers, n), FromReplay(matches[n].ruleId, row.topic, row.ruleId)) else []
  }

  function RoundEffects(event: Event, matches: seq<RuleMatch>, records: seq<NewLog>, shared: bool, answers: seq<R.ReplayAnswers>, n: nat): seq<P.Effect>
    requires |answers| == |matches| && n < |matches| && n < |records|
  {
    var before := R.ReplayRun(event, matches[..n], records, shared, answers[..n]);
    R.RoundOf(before.publishers, before.made, event, matches[n], records[n].id, shared, answers[n]).effects
  }

  /** The replay thread does exactly what the replay loop does. */
  lemma {:induction false} ReplayTodoIsTheLoop(event: Event, matches: seq<RuleMatch>, records: seq<NewLog>, shared: bool, answers: seq<R.ReplayAnswers>, row: LogRow)
    requires |answers| == |matches|
    ensures BareAll(ReplayTodo(event, matches, records, shared, answers, row)) == ActionsOf(R.ReplayRun(event, matches, records, shared, answers).effects, BARE)
  {
    hide R.RoundOf;
    if matches != [] {
      var n := |matches| - 1;
      ReplayTodoIsTheLoop(event, matches[..n], records, shared, answers[..n], row);
      if n < |records| {
        var before := R.ReplayRun(event, matches[..n], records, shared, answers[..n]);
        BareIsDone(ReplayTodo(event, matches[..n], records, shared, answers[..n], row), before.effects,
                   RoundEffects(event, matches, records, shared, answers, n), FromReplay(matches[n].ruleId, row.topic, row.ruleId));
      }
    }
  }

  function TodoOf(s: State, r: ReplayRequest): seq<Action>
    requires CanReplay(s, r)
  {
    var event := ReplayedEvent(s, r).value;
    ReplayTodo(event, r.matches, ReplayRecords(event, r), r.shared, r.answers, s.rows[r.id])
  }

  /** The rows come first; a request that is not admitted starts no thread. */
  function Replayed(s: State, r: ReplayRequest): State
    requires CanReplay(s, r)
  {
    var event := ReplayedEvent(s, r).value;
    var made := Filled(ReplayRecords(event, r), r.tenant, r.now);
    s.(rows := Inserted(s.rows, made),
       threads := s.threads + (if r.admitted then [Thread(Replay, TodoOf(s, r), 0)] else []),
       used := s.used + IdsOf(made),
       replays := s.replays + IdsOf(made))
  }

  // ---------- workers ----------

  function WorkerAction(e: W.Effect): Action {
    match e
    case HandlerCall(_, ok) => Call(ok)
    case StatusWrite(id, status) => Write(id, status)
  }

  function HandlingTodo(m: Message, setup: W.Setup, a: W.Answers): seq<Action> {
    var effects := W.EffectsOf(setup, m.topic, m.logId, a);
    seq(|effects|, i requires 0 <= i < |effects| => WorkerAction(effects[i]))
  }

  function Take(s: State, m: Message, setup: W.Setup, a: W.Answers): State
    requires m in s.bus
  {
    s.(bus := s.bus - multiset{m},
       threads := s.threads + [Thread(Handling(m, setup, a), HandlingTodo(m, setup, a), 0)])
  }

  // ---------- one action ----------

  /** What a write meets: the tenant and clock of the request, and whether it reaches the store. */
  datatype Weather = Weather(tenant: string, message: string, written: PageTokens.Time, measured: PageTokens.Time, reaches: bool)

  function Do(s: State, a: Action, w: Weather): State {
    match a
    case Send(m, delivered) => if delivered then s.(bus := s.bus + multiset{m}) else s
    case Write(id, status) =>
      if w.reaches then s.(rows := Apply(s.rows, Update(w.tenant, id, status, w.message, w.written, w.measured))) else s
    case Payload(id, body) =>
      if w.reaches && id in s.rows then s.(rows := s.rows[id := s.rows[id].(transformedBody := body)]) else s
    case Call(_) => s
  }

  predicate CanProceed(s: State, i: nat) { i < |s.threads| && s.threads[i].pc < |s.threads[i].todo| }

  function Proceed(s: State, i: nat, w: Weather): State
    requires CanProceed(s, i)
  {
    var t := s.threads[i];
    Do(s, t.todo[t.pc], w).(threads := s.threads[i := t.(pc := t.pc + 1)])
  }

  // ---------- the machine ----------

  /** Redelivery, after a nack or otherwise, is a duplicate made before the message is taken. */
  datatype Step =
    | Webhook(intake: Intake)
    | ReplayLog(request: ReplayRequest)
    | Advance(thread: nat, weather: Weather)
    | Receive(message: Message, setup: W.Setup, answers: W.Answers)
    | Duplicate(message: Message)
    | Lose(message: Message)

  predicate Enabled(s: State, step: Step) {
    match step
    case Webhook(r) => CanAccept(s, r)
    case ReplayLog(r) => CanReplay(s, r)
    case Advance(i, _) => CanProceed(s, i)
    case Receive(m, _, _) => m in s.bus
    case Duplicate(m) => m in s.bus
    case Lose(m) => m in s.bus
  }

  function Next(s: State, step: Step): State
    requires Enabled(s, step)
  {
    match step
    case Webhook(r) => Accept(s, r)
    case ReplayLog(r) => Replayed(s, r)
    case Advance(i, w) => Proceed(s, i, w)
    case Receive(m, setup, a) => Take(s, m, setup, a)
    case Duplicate(m) => s.(bus := s.bus + multiset{m})
    case Lose(m) => s.(bus := s.bus - multiset{m})
  }

  predicate CanRun(s: State, steps: seq<Step>)
    decreases |steps|
  {
    steps == [] || (Enabled(s, steps[0]) && CanRun(Next(s, steps[0]), steps[1..]))
  }

  function After(s: State, steps: seq<Step>): State
    requires CanRun(s, steps)
    decreases |steps|
  {
    if steps == [] then s else After(Next(s, steps[0]), steps[1..])
  }

  // ---------- the invariant ----------

  /** There is a record with the message's id, for the same topic and rule. */
  predicate HasOwnRecord(s: State, m: Message) {
    m.logId in s.rows && s.rows[m.logId].topic == m.topic && s.rows[m.logId].ruleId == m.origin.ruleId
  }

  predicate MessageOk(s: State, m: Message) {
    m.logId == "" ||
    (match m.origin
     case FromRule(_) => HasOwnRecord(s, m) || m.logId in s.lost
     case FromReplay(_, oldTopic, oldRuleId) => m.logId in s.rows && s.rows[m.logId].topic == oldTopic && s.rows[m.logId].ruleId == oldRuleId)
  }

  predicate IngressOk(s: State, a: Action) {
    match a
    case Send(m, _) => MessageOk(s, m)
    case Write(id, status) => status == FAILED && id in s.used
    case Payload(_, _) => true
    case Call(_) => false
  }

  predicate ReplayOk(s: State, a: Action) {
    match a
    case Send(m, _) => m.origin.FromReplay? && MessageOk(s, m)
    case Write(id, status) => id in s.replays && IsTerminal(status)
    case Payload(_, _) => true
    case Call(_) => false
  }

  ghost predicate ThreadOk(s: State, t: Thread) {
    t.pc <= |t.todo| &&
    match t.kind
    case Ingress => forall a | a in t.todo :: IngressOk(s, a)
    case Replay => forall a | a in t.todo :: ReplayOk(s, a)
    case Handling(m, setup, answers) => MessageOk(s, m) && t.todo == HandlingTodo(m, setup, answers)
  }

  predicate Bookkeeping(s: State) {
    && s.rows.Keys <= s.used && s.lost <= s.used && s.lost !! s.rows.Keys && s.replays <= s.rows.Keys
    && forall id | id in s.used :: id != "" && TrimSpace(id) == id
  }

  /** A worker has finished a message with this id without error, or had no handler for it. */
  predicate Backs(t: Thread, id: string) {
    && t.kind.Handling? && t.kind.message.logId == id && t.pc == |t.todo|
    && W.Succeeds(W.EndingOf(t.kind.setup, t.kind.message.topic, t.kind.answers))
  }

  predicate SuccessIsBacked(s: State) {
    forall id | id in s.rows && s.rows[id].status == SUCCESS && id !in s.replays ::
      exists i :: 0 <= i < |s.threads| && Backs(s.threads[i], id)
  }

  ghost predicate Invariant(s: State) {
    && Bookkeeping(s) && SuccessIsBacked(s)
    && (forall m | m in s.bus :: MessageOk(s, m))
    && (forall i | 0 <= i < |s.threads| :: ThreadOk(s, s.threads[i]))
  }

  /** What no step takes back. */
  predicate Extends(s: State, t: State) {
    && s.used <= t.used && s.lost <= t.lost && s.replays <= t.replays
    && forall id | id in s.rows :: id in t.rows && t.rows[id].topic == s.rows[id].topic && t.rows[id].ruleId == s.rows[id].ruleId
  }

  lemma ExtendsKeepsThread(s: State, t: State, thread: Thread)
    requires Extends(s, t) && ThreadOk(s, thread)
    ensures ThreadOk(t, thread)
  {
    hide HandlingTodo;
    if thread.kind.Ingress? {
      forall a | a in thread.todo ensures IngressOk(t, a) { assert IngressOk(s, a); }
    } else if thread.kind.Replay? {
      forall a | a in thread.todo ensures ReplayOk(t, a) { assert ReplayOk(s, a); }
    }
  }

  /** A step that extends the state, keeps old threads, and adds only sound messages and threads. */
  lemma ExtendKeepsInvariant(s: State, t: State, m: Option<Message>)
    requires Invariant(s) && Extends(s, t) && Bookkeeping(t)
    requires forall x | x in t.bus :: x in s.bus || Some(x) == m
    requires m.Some? ==> MessageOk(t, m.value)
    requires |s.threads| <= |t.threads|
    requires forall i | 0 <= i < |s.threads| :: t.threads[i] == s.threads[i]
    requires forall i | |s.threads| <= i < |t.threads| :: ThreadOk(t, t.threads[i])
    requires forall id | id in t.rows && t.rows[id].status == SUCCESS && id !in t.replays :: id in s.rows && s.rows[id].status == SUCCESS && id !in s.replays
    ensures Invariant(t)
  {
    hide ThreadOk, Bookkeeping, Backs;
    forall i | 0 <= i < |t.threads| ensures ThreadOk(t, t.threads[i]) {
      if i < |s.threads| {
        ExtendsKeepsThread(s, t, s.threads[i]);
      }
    }
    forall id | id in t.rows && t.rows[id].status == SUCCESS && id !in t.replays
      ensures exists i :: 0 <= i < |t.threads| && Backs(t.threads[i], id)
    {
      var i :| 0 <= i < |s.threads| && Backs(s.threads[i], id);
      assert Backs(t.threads[i], id);
    }
  }

  // ---------- inserting rows ----------

  lemma {:induction false} InsertKeeps(rows: Table, logs: seq<NewLog>)
    ensures Inserted(rows, logs).Keys == rows.Keys + IdsOf(logs)
    ensures forall id | id in rows && id !in IdsOf(logs) :: Inserted(rows, logs)[id] == rows[id]
  {
    if logs == [] {
      assert IdsOf(logs) == {};
    } else {
      var init, last := logs[..|logs| - 1], logs[|logs| - 1];
      InsertKeeps(rows, init);
      assert IdsOf(logs) == IdsOf(init) + {last.id} by {
        assert forall i | 0 <= i < |init| :: logs[i] == init[i];
        assert IdsOf(logs) <= IdsOf(init) + {last.id};
        assert logs[|logs| - 1].id in IdsOf(logs);
        forall id | id in IdsOf(init) ensures id in IdsOf(logs) {
          var i :| 0 <= i < |init| && init[i].id == id;
          assert logs[i].id == id;
        }
      }
    }
  }

  /** Inserting fresh rows keeps the bookkeeping and what was there. */
  lemma InsertExtends(s: State, t: State, made: seq<NewLog>)
    requires Bookkeeping(s) && FreshIds(s.used, made)
    requires t.rows == Inserted(s.rows, made) && t.used == s.used + IdsOf(made) && t.lost == s.lost
    requires t.replays == s.replays || t.replays == s.replays + IdsOf(made)
    requires forall i | 0 <= i < |made| :: made[i].row.status != SUCCESS
    ensures Bookkeeping(t) && Extends(s, t)
    ensures forall i | 0 <= i < |made| :: made[i].id in t.rows && t.rows[made[i].id] == made[i].row && made[i].id in IdsOf(made)
    ensures forall id | id in t.rows && t.rows[id].status == SUCCESS && id !in t.replays :: id in s.rows && s.rows[id].status == SUCCESS && id !in s.replays
  {
    hide TrimSpace, Inserted;
    InsertKeeps(s.rows, made);
    P.InsertedHas(s.rows, made);
    InsertIsNew(s, t, made);
    hide FreshIds;
    forall i | 0 <= i < |made| ensures made[i].id in IdsOf(made) {
    }
    hide IdsOf;
  }

  lemma InsertIsNew(s: State, t: State, made: seq<NewLog>)
    requires FreshIds(s.used, made) && t.rows == Inserted(s.rows, made)
    requires forall i | 0 <= i < |made| :: made[i].row.status != SUCCESS
    ensures forall id | id in IdsOf(made) :: id !in s.used && id != "" && TrimSpace(id) == id && id in t.rows && t.rows[id].status != SUCCESS
  {
    hide TrimSpace, Inserted;
    P.InsertedHas(s.rows, made);
    forall id | id in IdsOf(made)
      ensures id !in s.used && id != "" && TrimSpace(id) == id && id in t.rows && t.rows[id].status != SUCCESS
    {
      var i :| 0 <= i < |made| && made[i].id == id;
      assert t.rows[made[i].id] == made[i].row;
    }
  }

  // ---------- each step keeps the invariant ----------

  /** What a webhook thread may do: publish under the id of the record at the match's index, or
      report a failure. */
  predicate IngressMay(a: Action, matches: seq<RuleMatch>, logs: seq<NewLog>) {
    match a
    case Send(m, _) =>
      m.origin.FromRule? &&
      exists k :: 0 <= k < |matches| && m.topic == matches[k].topic && m.origin.ruleId == matches[k].ruleId && m.logId == P.LogIdAt(logs, k)
    case Write(id, status) => status == FAILED && exists k :: 0 <= k < |logs| && logs[k].id == id
    case Payload(_, _) => true
    case Call(_) => false
  }

  lemma {:induction false} PublishTodoMay(s: P.Setup, matches: seq<RuleMatch>, logs: seq<NewLog>, answers: seq<P.Answers>, n: nat)
    requires |answers| == |matches| && n <= |matches|
    ensures forall a | a in PublishTodo(s, matches[..n], logs, answers[..n]) :: IngressMay(a, matches, logs)
  {
    if n > 0 {
      var k := n - 1;
      PublishTodoMay(s, matches, logs, answers, k);
      MatchMay(s, matches, logs, answers, k);
      hide IngressMay, P.EffectsAt, ActionsOf;
      PublishTodoSnoc(s, matches, logs, answers, k);
      hide PublishTodo;
    }
  }

  lemma PublishTodoSnoc(s: P.Setup, matches: seq<RuleMatch>, logs: seq<NewLog>, answers: seq<P.Answers>, k: nat)
    requires |answers| == |matches| && k < |matches|
    ensures PublishTodo(s, matches[..k + 1], logs, answers[..k + 1])
         == PublishTodo(s, matches[..k], logs, answers[..k]) + ActionsOf(P.EffectsAt(s, matches[k], logs, k, answers[k]), FromRule(matches[k].ruleId))
  {
    hide P.EffectsAt, ActionsOf;
    assert matches[..k + 1][..k] == matches[..k] && answers[..k + 1][..k] == answers[..k];
  }

  lemma MatchMay(s: P.Setup, matches: seq<RuleMatch>, logs: seq<NewLog>, answers: seq<P.Answers>, k: nat)
    requires |answers| == |matches| && k < |matches|
    ensures forall a | a in ActionsOf(P.EffectsAt(s, matches[k], logs, k, answers[k]), FromRule(matches[k].ruleId)) :: IngressMay(a, matches, logs)
  {
    hide P.EffectsAt, P.FailuresOf, P.Calls, P.LogIdAt, P.SkipsDynamic, P.EndsInError, P.DriverName;
    P.OneMatch(s, matches[k], logs, k, answers[k]);
    var effects := P.EffectsAt(s, matches[k], logs, k, answers[k]);
    forall i | 0 <= i < |effects|
      ensures IngressMay(ActionOf(effects[i], FromRule(matches[k].ruleId)), matches, logs)
    {
      assert effects[i] in effects;
    }
  }

  lemma FilledKeeps(logs: seq<NewLog>, tenant: string, now: PageTokens.Time)
    ensures |Filled(logs, tenant, now)| == |logs|
    ensures forall i | 0 <= i < |logs| ::
      && Filled(logs, tenant, now)[i].id == logs[i].id && Filled(logs, tenant, now)[i].row.topic == logs[i].row.topic
      && Filled(logs, tenant, now)[i].row.ruleId == logs[i].row.ruleId
      && (logs[i].row.status != SUCCESS ==> Filled(logs, tenant, now)[i].row.status != SUCCESS)
  {
  }

  /** The rows of a request's matches, at their indices. */
  /** The same for the whole thread of a request. */
  lemma RequestMay(r: Intake)
    requires |r.answers| == |Expand(r.rules)|
    ensures forall a | a in PublishTodo(r.setup, Expand(r.rules), LogsOf(r), r.answers) :: IngressMay(a, Expand(r.rules), LogsOf(r))
  {
    hide *;
    var matches := Expand(r.rules);
    PublishTodoMay(r.setup, matches, LogsOf(r), r.answers, |matches|);
    assert matches[..|matches|] == matches && r.answers[..|matches|] == r.answers;
  }

  lemma RowsAlign(r: Intake, k: nat)
    requires r.hasStore && k < |Expand(r.rules)|
    ensures var m := Expand(r.rules)[k];
      && |LogsOf(r)| == |Expand(r.rules)| == |RowsOf(r)| && RowsOf(r)[k].id == LogsOf(r)[k].id
      && RowsOf(r)[k].row.topic == m.topic && RowsOf(r)[k].row.ruleId == m.ruleId
  {
    FilledKeeps(LogsOf(r), r.tenant, r.now);
    hide Filled, TrimSpace;
    assert r.rules != [];
  }

  lemma RowsAreNew(r: Intake)
    ensures forall i | 0 <= i < |RowsOf(r)| :: RowsOf(r)[i].row.status != SUCCESS
  {
    hide TrimSpace, P.DriverList, Expand;
  }

  lemma AcceptKeepsInvariant(s: State, r: Intake)
    requires Invariant(s) && CanAccept(s, r)
    ensures Invariant(Accept(s, r))
  {
    var t, todo := Accept(s, r), PublishTodo(r.setup, Expand(r.rules), LogsOf(r), r.answers);
    AcceptExtends(s, r);
    RequestMay(r);
    hide Bookkeeping, RowsOf, LogsOf, PublishTodo, Expand, MessageOk, Extends, SuccessIsBacked, IngressMay, IngressOk, Inserted, FreshIds;
    forall a | a in todo ensures IngressOk(t, a) {
      IngressMayIsOk(s, r, a);
    }
    assert ThreadOk(t, Thread(Ingress, todo, 0));
    hide ThreadOk, CanAccept;
    ExtendKeepsInvariant(s, t, None);
  }

  lemma AcceptExtends(s: State, r: Intake)
    requires Invariant(s) && CanAccept(s, r)
    ensures var t := Accept(s, r);
      && Bookkeeping(t) && Extends(s, t)
      && (r.dbOk ==> forall i | 0 <= i < |RowsOf(r)| :: RowsOf(r)[i].id in t.rows && t.rows[RowsOf(r)[i].id] == RowsOf(r)[i].row)
      && (!r.dbOk ==> forall i | 0 <= i < |RowsOf(r)| :: RowsOf(r)[i].id in t.lost)
      && (forall id | id in t.rows && t.rows[id].status == SUCCESS && id !in t.replays :: id in s.rows && s.rows[id].status == SUCCESS && id !in s.replays)
  {
    var t, made := Accept(s, r), RowsOf(r);
    RowsAreNew(r);
    hide RowsOf, LogsOf, PublishTodo, Expand, TrimSpace, ThreadOk, MessageOk, SuccessIsBacked;
    if r.dbOk {
      InsertExtends(s, t, made);
    } else {
      forall i | 0 <= i < |made| ensures made[i].id in IdsOf(made) {}
    }
  }

  lemma IngressMayIsOk(s: State, r: Intake, a: Action)
    requires Invariant(s) && CanAccept(s, r) && IngressMay(a, Expand(r.rules), LogsOf(r))
    ensures IngressOk(Accept(s, r), a)
  {
    AcceptExtends(s, r);
    var t := Accept(s, r);
    if a.Write? && r.hasStore {
      hide Bookkeeping, PublishTodo, TrimSpace, ThreadOk, SuccessIsBacked, Inserted;
      var k :| 0 <= k < |LogsOf(r)| && LogsOf(r)[k].id == a.id;
      RowsAlign(r, k);
      hide RowsOf, LogsOf;
      assert a.id == RowsOf(r)[k].id && a.id in IdsOf(RowsOf(r));
    }
    if a.Send? && r.hasStore {
      var m, matches := a.message, Expand(r.rules);
      hide Bookkeeping, PublishTodo, Expand, TrimSpace, ThreadOk, SuccessIsBacked, Inserted;
      var k :| 0 <= k < |matches| && m.topic == matches[k].topic && m.origin.ruleId == matches[k].ruleId && m.logId == P.LogIdAt(LogsOf(r), k);
      RowsAlign(r, k);
      hide RowsOf, LogsOf;
      assert m.logId == RowsOf(r)[k].id;
    }
  }

  lemma ReplayExtends(s: State, r: ReplayRequest)
    requires Bookkeeping(s) && CanReplay(s, r)
    ensures var t, event := Replayed(s, r), ReplayedEvent(s, r).value;
      && Bookkeeping(t) && Extends(s, t) && event.logId in t.rows
      && (forall i | 0 <= i < |ReplayRecords(event, r)| :: ReplayRecords(event, r)[i].id in t.replays)
      && (forall id | id in t.rows && t.rows[id].status == SUCCESS && id !in t.replays :: id in s.rows && s.rows[id].status == SUCCESS && id !in s.replays)
  {
    var t, event := Replayed(s, r), ReplayedEvent(s, r).value;
    var records := ReplayRecords(event, r);
    var made := Filled(records, r.tenant, r.now);
    ReplayRowsAreNew(event, r);
    hide Filled, TrimSpace, TodoOf, Bookkeeping, FreshIds, Inserted, ReplayRecords;
    InsertExtends(s, t, made);
    forall i | 0 <= i < |records| ensures records[i].id in t.replays {
      assert made[i].id in IdsOf(made);
    }
  }

  lemma ReplayRowsAreNew(event: Event, r: ReplayRequest)
    ensures var records := ReplayRecords(event, r);
      var made := Filled(records, r.tenant, r.now);
      |made| == |records| && forall i | 0 <= i < |made| :: made[i].id == records[i].id && made[i].row.status != SUCCESS
  {
    hide TrimSpace, P.DriverName;
    var records := ReplayRecords(event, r);
    FilledKeeps(records, r.tenant, r.now);
    hide Filled;
    forall i | 0 <= i < |records| ensures records[i].row.status == QUEUED {
      assert records[i] == R.ReplayRecordFor(event, r.matches[i], r.uuid(i));
    }
  }

  lemma ReplayKeepsInvariant(s: State, r: ReplayRequest)
    requires Invariant(s) && CanReplay(s, r)
    ensures Invariant(Replayed(s, r))
  {
    hide MessageOk, ThreadOk, SuccessIsBacked, TodoOf, Bookkeeping, Extends, ReplayRecords, ReplayedEvent, Filled, FreshIds, TrimSpace, Inserted;
    var t := Replayed(s, r);
    ReplayExtends(s, r);
    if r.admitted {
      ReplayTodoOk(s, t, r);
    }
    hide CanReplay;
    ExtendKeepsInvariant(s, t, None);
  }

  /** What a replay thread may do: publish to the topic of a match, for that match's rule, under
      the id of the old record, or write a terminal status to a record of its own. */
  predicate ReplayActs(a: Action, event: Event, matches: seq<RuleMatch>, records: seq<NewLog>, row: LogRow) {
    match a
    case Send(m, _) =>
      m.logId == event.logId &&
      exists k :: 0 <= k < |matches| && m.topic == matches[k].topic && m.origin == FromReplay(matches[k].ruleId, row.topic, row.ruleId)
    case Write(id, status) => IsTerminal(status) && exists k :: 0 <= k < |records| && records[k].id == id
    case Payload(_, _) => true
    case Call(_) => false
  }

  lemma {:induction false} ReplayTodoActs(event: Event, matches: seq<RuleMatch>, records: seq<NewLog>, shared: bool, answers: seq<R.ReplayAnswers>, row: LogRow, n: nat)
    requires |answers| == |matches| && n <= |matches|
    ensures forall a | a in ReplayTodo(event, matches[..n], records, shared, answers[..n], row) :: ReplayActs(a, event, matches, records, row)
  {
    if n > 0 {
      var k := n - 1;
      ReplayTodoActs(event, matches, records, shared, answers, row, k);
      hide ReplayActs, ActionsOf, RoundEffects;
      assert matches[..n][..k] == matches[..k] && answers[..n][..k] == answers[..k];
      if k < |records| {
        RoundActs(event, matches, records, shared, answers, row, k);
        SameRound(event, matches, records, shared, answers, n);
      }
    }
  }

  lemma SameRound(event: Event, matches: seq<RuleMatch>, records: seq<NewLog>, shared: bool, answers: seq<R.ReplayAnswers>, n: nat)
    requires |answers| == |matches| && 0 < n <= |matches| && n <= |records|
    ensures RoundEffects(event, matches[..n], records, shared, answers[..n], n - 1) == RoundEffects(event, matches, records, shared, answers, n - 1)
  {
    hide R.RoundOf, R.ReplayRun;
    assert matches[..n][..n - 1] == matches[..n - 1] && answers[..n][..n - 1] == answers[..n - 1];
  }

  lemma RoundActs(event: Event, matches: seq<RuleMatch>, records: seq<NewLog>, shared: bool, answers: seq<R.ReplayAnswers>, row: LogRow, k: nat)
    requires |answers| == |matches| && k < |matches| && k < |records|
    ensures forall a | a in ActionsOf(RoundEffects(event, matches, records, shared, answers, k), FromReplay(matches[k].ruleId, row.topic, row.ruleId)) ::
      ReplayActs(a, event, matches, records, row)
  {
    var has := RoundIsReplay(event, matches, records, shared, answers, k);
    hide *;
    var effects := RoundEffects(event, matches, records, shared, answers, k);
    R.OneReplay(event, matches[k], records[k].id, answers[k], has, "");
    OnesAct(effects, event, matches, records, k, row);
  }

  lemma RoundIsReplay(event: Event, matches: seq<RuleMatch>, records: seq<NewLog>, shared: bool, answers: seq<R.ReplayAnswers>, k: nat) returns (has: bool)
    requires |answers| == |matches| && k < |matches| && k < |records|
    ensures RoundEffects(event, matches, records, shared, answers, k) == R.ReplayEffects(event, matches[k], records[k].id, answers[k], has)
  {
    var before := R.ReplayRun(event, matches[..k], records, shared, answers[..k]);
    has := R.HasPublisher(R.Progress([], before.publishers, before.made), shared, matches[k], answers[k]);
    hide R.ReplayRun;
  }

  lemma OnesAct(effects: seq<P.Effect>, event: Event, matches: seq<RuleMatch>, records: seq<NewLog>, k: nat, row: LogRow)
    requires k < |matches| && k < |records|
    requires forall e | e in effects && e.StatusWrite? :: e.id == records[k].id && IsTerminal(e.status)
    requires forall e | e in effects && e.PublishCall? :: e.topic == matches[k].topic && e.event.logId == event.logId
    ensures forall a | a in ActionsOf(effects, FromReplay(matches[k].ruleId, row.topic, row.ruleId)) :: ReplayActs(a, event, matches, records, row)
  {
    var origin := FromReplay(matches[k].ruleId, row.topic, row.ruleId);
    forall i | 0 <= i < |effects| ensures ReplayActs(ActionOf(effects[i], origin), event, matches, records, row) {
      assert effects[i] in effects;
    }
  }

  /** The same for the whole thread of a request. */
  lemma TodoActs(s: State, r: ReplayRequest)
    requires CanReplay(s, r)
    ensures var event := ReplayedEvent(s, r).value;
      event.logId == r.id && forall a | a in TodoOf(s, r) :: ReplayActs(a, event, r.matches, ReplayRecords(event, r), s.rows[r.id])
  {
    var event := ReplayedEvent(s, r).value;
    ReplayTodoActs(event, r.matches, ReplayRecords(event, r), r.shared, r.answers, s.rows[r.id], |r.matches|);
    hide TrimSpace, ReplayRecords, ReplayTodo, ReplayActs, Filled;
    assert r.matches[..|r.matches|] == r.matches && r.answers[..|r.answers|] == r.answers;
  }

  lemma ReplayTodoOk(s: State, t: State, r: ReplayRequest)
    requires CanReplay(s, r) && Extends(s, t)
    requires forall i | 0 <= i < |ReplayRecords(ReplayedEvent(s, r).value, r)| :: ReplayRecords(ReplayedEvent(s, r).value, r)[i].id in t.replays
    ensures ThreadOk(t, Thread(Replay, TodoOf(s, r), 0))
  {
    var event := ReplayedEvent(s, r).value;
    TodoActs(s, r);
    assert r.id in s.rows;
    hide TodoOf, ReplayRecords, TrimSpace, Filled, CanReplay, ReplayedEvent;
    forall a | a in TodoOf(s, r) ensures ReplayOk(t, a) {
      assert ReplayActs(a, event, r.matches, ReplayRecords(event, r), s.rows[r.id]);
    }
  }

  lemma TakeKeepsInvariant(s: State, m: Message, setup: W.Setup, a: W.Answers)
    requires Invariant(s) && m in s.bus
    ensures Invariant(Take(s, m, setup, a))
  {
    var t := Take(s, m, setup, a);
    hide TrimSpace, HandlingTodo;
    assert ThreadOk(t, Thread(Handling(m, setup, a), HandlingTodo(m, setup, a), 0));
    hide ThreadOk, MessageOk, SuccessIsBacked;
    ExtendKeepsInvariant(s, t, None);
  }

  lemma BusKeepsInvariant(s: State, m: Message, bus: multiset<Message>)
    requires Invariant(s) && m in s.bus && (bus == s.bus + multiset{m} || bus == s.bus - multiset{m})
    ensures Invariant(s.(bus := bus))
  {
    hide TrimSpace, ThreadOk, MessageOk, SuccessIsBacked;
    ExtendKeepsInvariant(s, s.(bus := bus), None);
  }

  // ---------- one action ----------

  /** A status write that leaves a webhook record `success` comes from a worker that has thereby
      finished a message with that id well. */
  lemma WriteIsBacked(s: State, i: nat, w: Weather, id: string)
    requires Invariant(s) && CanProceed(s, i)
    requires var t := Proceed(s, i, w);
      id in t.rows && t.rows[id].status == SUCCESS && id !in t.replays && (id !in s.rows || s.rows[id].status != SUCCESS)
    ensures Backs(Proceed(s, i, w).threads[i], id)
  {
    var thread := s.threads[i];
    var a := thread.todo[thread.pc];
    assert a.Write? && w.reaches by { hide Bookkeeping, TrimSpace, Apply; }
    WritersAre(s, i);
    assert a.id in s.replays ==> TrimSpace(a.id) == a.id by { hide TrimSpace; WritersAre(s, i); }
    var u := Update(w.tenant, a.id, a.status, w.message, w.written, w.measured);
    assert TrimSpace(u.id) == id && TrimSpace(u.status) == SUCCESS && TrimSpace(u.id) in s.rows by { hide Bookkeeping; ApplyWrites(s.rows, u, id); }
    StatusesAreTrimmed();
    hide TrimSpace, Apply, ThreadOk, Do;
    assert thread.kind.Handling?;
    var m, setup, answers := thread.kind.message, thread.kind.setup, thread.kind.answers;
    MessageIdIsTrimmed(s, m);
    LastWriteFinishes(m, setup, answers, thread.pc);
  }

  /** Who may write what. */
  lemma WritersAre(s: State, i: nat)
    requires Invariant(s) && CanProceed(s, i) && s.threads[i].todo[s.threads[i].pc].Write?
    ensures var thread := s.threads[i];
      var a := thread.todo[thread.pc];
      && (thread.kind.Ingress? ==> a.status == FAILED)
      && (thread.kind.Replay? ==> a.id in s.replays && s.replays <= s.used)
      && (thread.kind.Handling? ==> MessageOk(s, thread.kind.message) && thread.todo == HandlingTodo(thread.kind.message, thread.kind.setup, thread.kind.answers))
  {
    hide TrimSpace, MessageOk, HandlingTodo, SuccessIsBacked;
    var thread := s.threads[i];
    var a := thread.todo[thread.pc];
    assert a in thread.todo && ThreadOk(s, thread);
    assert thread.kind.Ingress? ==> IngressOk(s, a);
    assert thread.kind.Replay? ==> ReplayOk(s, a);
  }

  /** A handling's status write is its last action, is for the id of its message, and says
      `success` exactly when the message was finished well. */
  lemma LastWriteFinishes(m: Message, setup: W.Setup, a: W.Answers, pc: nat)
    requires pc < |HandlingTodo(m, setup, a)| && HandlingTodo(m, setup, a)[pc].Write?
    ensures pc == |HandlingTodo(m, setup, a)| - 1
    ensures HandlingTodo(m, setup, a)[pc] == Write(m.logId, if W.Succeeds(W.EndingOf(setup, m.topic, a)) then SUCCESS else FAILED)
  {
    W.HandlingAccounts(setup, m.topic, m.logId, a);
    hide W.EffectsOf, W.Succeeds, W.EndingOf;
    var effects := W.EffectsOf(setup, m.topic, m.logId, a);
    assert effects[pc].StatusWrite?;
  }

  lemma MessageIdIsTrimmed(s: State, m: Message)
    requires Bookkeeping(s) && MessageOk(s, m)
    ensures TrimSpace(m.logId) == m.logId
  {
    if m.logId == "" {
      TrimSpaceIsTrimmed("");
    }
    hide TrimSpace;
  }

  lemma StatusesAreTrimmed()
    ensures TrimSpace(SUCCESS) == SUCCESS && TrimSpace(FAILED) == FAILED
  {
    VisibleIsTrimmed(SUCCESS);
    VisibleIsTrimmed(FAILED);
    hide TrimSpace;
  }

  lemma ApplyWrites(rows: Table, u: Update, id: string)
    ensures Apply(rows, u).Keys == rows.Keys
    ensures id in rows ==> Apply(rows, u)[id].topic == rows[id].topic && Apply(rows, u)[id].ruleId == rows[id].ruleId
    ensures id in rows && Apply(rows, u)[id].status != rows[id].status ==> TrimSpace(u.id) == id && Apply(rows, u)[id].status == TrimSpace(u.status)
  {
    hide TrimSpace;
  }

  lemma DoExtends(s: State, a: Action, w: Weather)
    requires Bookkeeping(s)
    ensures Bookkeeping(Do(s, a, w)) && Extends(s, Do(s, a, w))
  {
    hide TrimSpace;
    if a.Write? {
      forall id: string
        ensures Apply(s.rows, Update(w.tenant, a.id, a.status, w.message, w.written, w.measured)).Keys == s.rows.Keys
        ensures id in s.rows ==>
          var r := Apply(s.rows, Update(w.tenant, a.id, a.status, w.message, w.written, w.measured));
          r[id].topic == s.rows[id].topic && r[id].ruleId == s.rows[id].ruleId
      {
        ApplyWrites(s.rows, Update(w.tenant, a.id, a.status, w.message, w.written, w.measured), id);
      }
      hide Apply;
    }
  }

  lemma ProceedKeepsInvariant(s: State, i: nat, w: Weather)
    requires Invariant(s) && CanProceed(s, i)
    ensures Invariant(Proceed(s, i, w))
  {
    var t, thread := Proceed(s, i, w), s.threads[i];
    var a := thread.todo[thread.pc];
    DoExtends(s, a, w);
    assert Extends(s, t) && Bookkeeping(t) by { hide TrimSpace; }
    assert ThreadOk(s, thread);
    forall k | 0 <= k < |t.threads| ensures ThreadOk(t, t.threads[k]) {
      hide Extends, HandlingTodo, Do;
      ExtendsKeepsThread(s, t, s.threads[k]);
    }
    SendIsOk(s, i, w);
    forall id | id in t.rows && t.rows[id].status == SUCCESS && id !in t.replays
      ensures exists k :: 0 <= k < |t.threads| && Backs(t.threads[k], id)
    {
      if id in s.rows && s.rows[id].status == SUCCESS {
        var k :| 0 <= k < |s.threads| && Backs(s.threads[k], id);
        assert k != i && Backs(t.threads[k], id);
      } else {
        WriteIsBacked(s, i, w, id);
        assert Backs(t.threads[i], id);
      }
    }
  }

  lemma SendIsOk(s: State, i: nat, w: Weather)
    requires Invariant(s) && CanProceed(s, i) && Extends(s, Proceed(s, i, w))
    ensures forall m | m in Proceed(s, i, w).bus :: MessageOk(Proceed(s, i, w), m)
  {
    var t, thread := Proceed(s, i, w), s.threads[i];
    var a := thread.todo[thread.pc];
    assert a in thread.todo && ThreadOk(s, thread);
    assert thread.kind.Handling? ==> !a.Send?;
    if a.Send? {
      if thread.kind.Ingress? { assert IngressOk(s, a); } else { assert ReplayOk(s, a); }
      assert MessageOk(s, a.message);
    }
    hide ThreadOk, Bookkeeping, SuccessIsBacked, Apply;
    forall m | m in t.bus ensures MessageOk(t, m) {
      assert MessageOk(s, m);
    }
  }

  lemma StepKeepsInvariant(s: State, step: Step)
    requires Invariant(s) && Enabled(s, step)
    ensures Invariant(Next(s, step))
  {
    hide Invariant, Accept, Replayed, Take, Proceed, CanAccept, CanReplay, CanProceed;
    match step
    case Webhook(r) => AcceptKeepsInvariant(s, r);
    case ReplayLog(r) => ReplayKeepsInvariant(s, r);
    case Advance(i, w) => ProceedKeepsInvariant(s, i, w);
    case Receive(m, setup, a) => TakeKeepsInvariant(s, m, setup, a);
    case Duplicate(m) => BusKeepsInvariant(s, m, s.bus + multiset{m});
    case Lose(m) => BusKeepsInvariant(s, m, s.bus - multiset{m});
  }

  lemma {:induction false} RunKeepsInvariant(s: State, steps: seq<Step>)
    requires Invariant(s) && CanRun(s, steps)
    ensures Invariant(After(s, steps))
    decreases |steps|
  {
    hide Invariant, Enabled, Next;
    if steps != [] {
      StepKeepsInvariant(s, steps[0]);
      RunKeepsInvariant(Next(s, steps[0]), steps[1..]);
    }
  }

  // ---------- end-to-end safety ----------

  /** A handling makes at most retryCount + 1 handler calls, then one status write for the id of
      its message (none without an id), and nothing else. */
  predicate HandlesOnce(t: Thread)
    requires t.kind.Handling?
  {
    var id := t.kind.message.logId;
    var calls := if id == "" then |t.todo| else |t.todo| - 1;
    && 0 <= calls <= t.kind.setup.retryCount + 1
    && (forall i | 0 <= i < calls :: t.todo[i].Call?)
    && (id != "" ==> t.todo[calls].Write? && t.todo[calls].id == id
                     && (t.todo[calls].status == SUCCESS <==> W.Succeeds(W.EndingOf(t.kind.setup, t.kind.message.topic, t.kind.answers))))
  }

  lemma HandlingHandlesOnce(t: Thread)
    requires t.kind.Handling? && t.todo == HandlingTodo(t.kind.message, t.kind.setup, t.kind.answers)
    ensures HandlesOnce(t)
  {
    var m, setup, answers := t.kind.message, t.kind.setup, t.kind.answers;
    TodoIsTheHandling(m, setup, answers);
    CallsComeFirst(m, setup, answers);
    hide HandlingTodo, W.EffectsOf, W.EndingOf, W.Succeeds;
    if m.logId != "" {
      LastWriteFinishes(m, setup, answers, |t.todo| - 1);
    }
  }

  lemma TodoIsTheHandling(m: Message, setup: W.Setup, a: W.Answers)
    ensures var todo, effects := HandlingTodo(m, setup, a), W.EffectsOf(setup, m.topic, m.logId, a);
      |todo| == |effects| && forall i | 0 <= i < |effects| :: todo[i] == WorkerAction(effects[i])
  {
    hide W.EffectsOf;
  }

  lemma CallsComeFirst(m: Message, setup: W.Setup, a: W.Answers)
    ensures var effects := W.EffectsOf(setup, m.topic, m.logId, a);
      var calls := if m.logId == "" then |effects| else |effects| - 1;
      && 0 <= calls <= setup.retryCount + 1 && (forall i | 0 <= i < calls :: effects[i].HandlerCall?)
      && (m.logId != "" ==> effects[calls].StatusWrite?)
  {
    hide *;
    W.HandlingAccounts(setup, m.topic, m.logId, a);
  }

  /** Over every interleaving of webhook requests, publishing, redelivery, loss, workers and
      replays: a webhook message that carries an id has a record with that id for its own topic
      and rule exactly when the insert of that record did not fail; a replayed message has one
      exactly when its topic and rule are those that the replayed row had when the replay was
      requested; every handling calls its handler at most retryCount + 1 times and writes
      one status; and a record not made by a replay reads `success` only if a worker has finished
      a message with its id without error or had no handler for it. */
  lemma EveryRunIsSafe(steps: seq<Step>)
    requires CanRun(INITIAL, steps)
    ensures var s := After(INITIAL, steps);
      && (forall m | m in s.bus && m.logId != "" ::
            match m.origin
            case FromRule(_) => HasOwnRecord(s, m) <==> m.logId !in s.lost
            case FromReplay(ruleId, oldTopic, oldRuleId) =>
              m.logId in s.rows && (HasOwnRecord(s, m) <==> m.topic == oldTopic && ruleId == oldRuleId))
      && (forall i | 0 <= i < |s.threads| && s.threads[i].kind.Handling? :: HandlesOnce(s.threads[i]))
      && SuccessIsBacked(s)
  {
    var s := After(INITIAL, steps);
    InitialHolds();
    RunKeepsInvariant(INITIAL, steps);
    hide After, CanRun, SuccessIsBacked, HandlesOnce;
    forall i | 0 <= i < |s.threads| && s.threads[i].kind.Handling? ensures HandlesOnce(s.threads[i]) {
      assert ThreadOk(s, s.threads[i]);
      HandlingHandlesOnce(s.threads[i]);
    }
  }

  lemma InitialHolds()
    ensures Invariant(INITIAL)
  {
    hide ThreadOk;
  }

  /** Ids are lost by failed inserts only. */
  lemma {:induction false} NothingLostWithoutFailure(s: State, steps: seq<Step>)
    requires CanRun(s, steps) && forall i | 0 <= i < |steps| && steps[i].Webhook? :: steps[i].intake.dbOk
    ensures After(s, steps).lost == s.lost
    decreases |steps|
  {
    if steps != [] {
      hide Enabled, Inserted, PublishTodo, TodoOf, HandlingTodo, RowsOf, Apply;
      NothingLostWithoutFailure(Next(s, steps[0]), steps[1..]);
    }
  }

  // ---------- a thread running on its own ----------

  function Advances(th: nat, k: nat, w: Weather): seq<Step> { seq(k, i => Advance(th, w)) }

  lemma OneAdvance(s: State, th: nat, w: Weather)
    requires CanProceed(s, th)
    ensures var t, thread := Proceed(s, th, w), s.threads[th];
      var a := thread.todo[thread.pc];
      && t.rows.Keys == s.rows.Keys && |t.threads| == |s.threads| && t.threads[th] == thread.(pc := thread.pc + 1)
      && (forall m | m in s.bus :: m in t.bus) && (a.Send? && a.delivered ==> a.message in t.bus)
      && (forall id | id in s.rows :: t.rows[id].topic == s.rows[id].topic && t.rows[id].ruleId == s.rows[id].ruleId)
  {
    DoKeepsRows(s, s.threads[th].todo[s.threads[th].pc], w);
    hide Apply, TrimSpace;
  }

  /** Between the two states messages stay on the bus, rows keep their topic and rule, and what the
      actions from `lo` to `hi` deliver has come on the bus. */
  ghost predicate HasDone(s: State, t: State, todo: seq<Action>, lo: nat, hi: nat) {
    && t.rows.Keys == s.rows.Keys
    && (forall m | m in s.bus :: m in t.bus)
    && (forall i | lo <= i < hi <= |todo| && todo[i].Send? && todo[i].delivered :: todo[i].message in t.bus)
    && (forall id | id in s.rows && id in t.rows :: t.rows[id].topic == s.rows[id].topic && t.rows[id].ruleId == s.rows[id].ruleId)
  }

  /** A thread can always do its next `k` actions; what they send is then on the bus. */
  lemma {:induction false} ThreadRuns(s: State, th: nat, k: nat, w: Weather)
    requires th < |s.threads| && s.threads[th].pc + k <= |s.threads[th].todo|
    ensures CanRun(s, Advances(th, k, w))
    ensures HasDone(s, After(s, Advances(th, k, w)), s.threads[th].todo, s.threads[th].pc, s.threads[th].pc + k)
    decreases k
  {
    if k > 0 {
      hide Proceed, Enabled, Next, Advances, After, CanRun, HasDone;
      var todo, pc, t := s.threads[th].todo, s.threads[th].pc, Proceed(s, th, w);
      AdvanceHasDone(s, th, w);
      AdvancesSplit(th, k, w);
      ThreadRuns(t, th, k - 1, w);
      RunSplit(s, Advance(th, w), Advances(th, k - 1, w));
      DoneTwice(s, t, After(t, Advances(th, k - 1, w)), todo, pc, pc + 1, pc + k);
    } else {
      assert Advances(th, 0, w) == [];
    }
  }

  lemma AdvanceHasDone(s: State, th: nat, w: Weather)
    requires CanProceed(s, th)
    ensures var t, thread := Proceed(s, th, w), s.threads[th];
      && Enabled(s, Advance(th, w)) && Next(s, Advance(th, w)) == t
      && |t.threads| == |s.threads| && t.threads[th] == thread.(pc := thread.pc + 1)
      && HasDone(s, t, thread.todo, thread.pc, thread.pc + 1)
  {
    OneAdvance(s, th, w);
    hide Proceed;
  }

  lemma DoneTwice(s: State, t: State, u: State, todo: seq<Action>, lo: nat, mid: nat, hi: nat)
    requires HasDone(s, t, todo, lo, mid) && HasDone(t, u, todo, mid, hi) && lo <= mid <= hi <= |todo|
    ensures HasDone(s, u, todo, lo, hi)
  {
  }

  lemma AdvancesSplit(th: nat, k: nat, w: Weather)
    requires k > 0
    ensures Advances(th, k, w) == [Advance(th, w)] + Advances(th, k - 1, w)
  {
  }

  lemma RunSplit(s: State, step: Step, steps: seq<Step>)
    requires Enabled(s, step) && CanRun(Next(s, step), steps)
    ensures CanRun(s, [step] + steps) && After(s, [step] + steps) == After(Next(s, step), steps)
  {
    hide Enabled, Next;
    assert ([step] + steps)[1..] == steps;
  }

  /** First a request, then the first `k` actions of the thread it starts. */
  lemma ThenThread(s: State, step: Step, todo: seq<Action>, k: nat, w: Weather) returns (steps: seq<Step>)
    requires Enabled(s, step) && k < |todo| && todo[k].Send? && todo[k].delivered
    requires var t := Next(s, step); |t.threads| == |s.threads| + 1 && t.threads[|s.threads|].pc == 0 && t.threads[|s.threads|].todo == todo
    ensures CanRun(s, steps)
    ensures var t, u := Next(s, step), After(s, steps);
      && todo[k].message in u.bus && u.rows.Keys == t.rows.Keys
      && forall id | id in t.rows :: u.rows[id].topic == t.rows[id].topic && u.rows[id].ruleId == t.rows[id].ruleId
  {
    hide Enabled, Next, Advances;
    steps := [step] + Advances(|s.threads|, k + 1, w);
    ThreadRuns(Next(s, step), |s.threads|, k + 1, w);
    assert steps[0] == step && steps[1..] == Advances(|s.threads|, k + 1, w);
  }

  lemma DoKeepsRows(s: State, a: Action, w: Weather)
    ensures Do(s, a, w).rows.Keys == s.rows.Keys
    ensures forall id | id in s.rows :: Do(s, a, w).rows[id].topic == s.rows[id].topic && Do(s, a, w).rows[id].ruleId == s.rows[id].ruleId
  {
    hide TrimSpace;
    if a.Write? {
      var u := Update(w.tenant, a.id, a.status, w.message, w.written, w.measured);
      forall id: string
        ensures Apply(s.rows, u).Keys == s.rows.Keys
        ensures id in s.rows ==> Apply(s.rows, u)[id].topic == s.rows[id].topic && Apply(s.rows, u)[id].ruleId == s.rows[id].ruleId
      {
        ApplyWrites(s.rows, u, id);
      }
      hide Apply;
    }
  }

  /** After a failed insert the request still publishes: whatever it sends under an id reaches the
      bus with an id no record has. */
  lemma FailedInsertOrphans(s: State, r: Intake, i: nat, w: Weather) returns (steps: seq<Step>)
    requires Invariant(s) && CanAccept(s, r) && !r.dbOk && r.hasStore
    requires var todo := PublishTodo(r.setup, Expand(r.rules), LogsOf(r), r.answers);
      i < |todo| && todo[i].Send? && todo[i].delivered
    ensures CanRun(s, steps)
    ensures var m, t := PublishTodo(r.setup, Expand(r.rules), LogsOf(r), r.answers)[i].message, After(s, steps);
      m in t.bus && m.logId != "" && m.logId !in t.rows
  {
    SentIdIsFresh(s, r, i);
    var todo := PublishTodo(r.setup, Expand(r.rules), LogsOf(r), r.answers);
    assert Enabled(s, Webhook(r)) && Next(s, Webhook(r)) == Accept(s, r);
    assert Accept(s, r).rows == s.rows;
    hide PublishTodo, LogsOf, RowsOf, Invariant, Enabled, Next, CanAccept;
    steps := ThenThread(s, Webhook(r), todo, i, w);
  }

  lemma SentIdIsFresh(s: State, r: Intake, i: nat)
    requires Bookkeeping(s) && CanAccept(s, r) && r.hasStore
    requires var todo := PublishTodo(r.setup, Expand(r.rules), LogsOf(r), r.answers); i < |todo| && todo[i].Send?
    ensures var m := PublishTodo(r.setup, Expand(r.rules), LogsOf(r), r.answers)[i].message;
      m.logId != "" && m.logId !in s.rows
  {
    var m := PublishTodo(r.setup, Expand(r.rules), LogsOf(r), r.answers)[i].message;
    var k := SentFrom(r, i);
    RowsAlign(r, k);
    hide RowsOf, LogsOf, PublishTodo, TrimSpace, Expand;
    assert m.logId == RowsOf(r)[k].id;
  }

  /** The match whose record's id a message carries. */
  lemma SentFrom(r: Intake, i: nat) returns (k: nat)
    requires |r.answers| == |Expand(r.rules)|
    requires var todo := PublishTodo(r.setup, Expand(r.rules), LogsOf(r), r.answers); i < |todo| && todo[i].Send?
    ensures k < |Expand(r.rules)|
    ensures PublishTodo(r.setup, Expand(r.rules), LogsOf(r), r.answers)[i].message.logId == P.LogIdAt(LogsOf(r), k)
  {
    var matches, logs := Expand(r.rules), LogsOf(r);
    var todo := PublishTodo(r.setup, matches, logs, r.answers);
    PublishTodoMay(r.setup, matches, logs, r.answers, |matches|);
    assert matches[..|matches|] == matches && r.answers[..|matches|] == r.answers;
    hide PublishTodo, LogsOf, Expand;
    assert todo[i] in todo;
    k :| 0 <= k < |matches| && todo[i].message.logId == P.LogIdAt(logs, k);
  }

  /** A replay publishes under the id of the record it replays, never under those of its own
      records, and for one of the matches of now. From the request on, and for good, that record is
      the message's own exactly when the match has the topic and the rule that the row has. */
  lemma ReplayCarriesOldId(s: State, r: ReplayRequest, i: nat, w: Weather) returns (steps: seq<Step>, k: nat)
    requires Invariant(s) && CanReplay(s, r) && r.admitted
    requires i < |TodoOf(s, r)| && TodoOf(s, r)[i].Send? && TodoOf(s, r)[i].delivered
    ensures CanRun(s, steps)
    ensures var m, t := TodoOf(s, r)[i].message, After(s, steps);
      && m in t.bus && m.logId == r.id && r.id in t.rows && r.id !in Replayed(s, r).replays - s.replays
      && k < |r.matches| && m.topic == r.matches[k].topic && m.origin.ruleId == r.matches[k].ruleId
      && (HasOwnRecord(t, m) <==> r.matches[k].topic == s.rows[r.id].topic && r.matches[k].ruleId == s.rows[r.id].ruleId)
  {
    var todo := TodoOf(s, r);
    k := ReplaySends(s, r, i);
    ReplayExtends(s, r);
    ReplayStarts(s, r);
    hide TodoOf, ReplayRecords, Filled, Enabled, Next, CanReplay, ReplayedEvent, Replayed, Invariant, Bookkeeping;
    steps := ThenThread(s, ReplayLog(r), todo, i, w);
  }

  lemma ReplayStarts(s: State, r: ReplayRequest)
    requires Bookkeeping(s) && CanReplay(s, r) && r.admitted
    ensures Enabled(s, ReplayLog(r)) && Next(s, ReplayLog(r)) == Replayed(s, r)
    ensures r.id in s.rows && r.id !in Replayed(s, r).replays - s.replays
    ensures Replayed(s, r).threads == s.threads + [Thread(Replay, TodoOf(s, r), 0)]
  {
    hide TrimSpace, Filled, ReplayRecords, TodoOf;
  }

  lemma ReplaySends(s: State, r: ReplayRequest, i: nat) returns (k: nat)
    requires CanReplay(s, r) && i < |TodoOf(s, r)| && TodoOf(s, r)[i].Send?
    ensures var m := TodoOf(s, r)[i].message;
      && m.logId == r.id && k < |r.matches| && m.topic == r.matches[k].topic
      && m.origin == FromReplay(r.matches[k].ruleId, s.rows[r.id].topic, s.rows[r.id].ruleId)
  {
    TodoActs(s, r);
    assert r.id in s.rows;
    var event := ReplayedEvent(s, r).value;
    hide TodoOf, ReplayRecords, TrimSpace, Filled, ReplayedEvent, CanReplay;
    var a := TodoOf(s, r)[i];
    assert a in TodoOf(s, r) && ReplayActs(a, event, r.matches, ReplayRecords(event, r), s.rows[r.id]);
    k :| 0 <= k < |r.matches| && a.message.topic == r.matches[k].topic && a.message.origin == FromReplay(r.matches[k].ruleId, s.rows[r.id].topic, s.rows[r.id].ruleId);
  }

  /** No run takes that back: rows keep their topic and rule. */
  lemma {:induction false} OwnRecordIsKept(s: State, steps: seq<Step>, m: Message)
    requires Invariant(s) && CanRun(s, steps) && m.logId in s.rows
    ensures m.logId in After(s, steps).rows && (HasOwnRecord(After(s, steps), m) <==> HasOwnRecord(s, m))
    decreases |steps|
  {
    if steps != [] {
      StepExtends(s, steps[0]);
      StepKeepsInvariant(s, steps[0]);
      assert HasOwnRecord(Next(s, steps[0]), m) <==> HasOwnRecord(s, m);
      hide Invariant, Next, Enabled, Extends, HasOwnRecord;
      OwnRecordIsKept(Next(s, steps[0]), steps[1..], m);
    }
  }

  lemma StepExtends(s: State, step: Step)
    requires Invariant(s) && Enabled(s, step)
    ensures forall id | id in s.rows ::
      id in Next(s, step).rows && Next(s, step).rows[id].topic == s.rows[id].topic && Next(s, step).rows[id].ruleId == s.rows[id].ruleId
  {
    match step
    case Webhook(r) => AcceptExtends(s, r); hide Accept, RowsOf;
    case ReplayLog(r) => ReplayExtends(s, r); hide Replayed, ReplayRecords;
    case Advance(i, w) => OneAdvance(s, i, w); hide Proceed;
    case _ =>
  }

  // ---------- a rejected replay ----------

  /** Nobody will ever write the status of record `id`, unless it is replayed itself. */
  predicate Forgotten(s: State, id: string) {
    && id in s.rows && s.rows[id].status == QUEUED
    && (forall m | m in s.bus :: m.logId != id)
    && (forall i | 0 <= i < |s.threads| :: LeavesAlone(s.threads[i].todo, id))
  }

  predicate LeavesAlone(todo: seq<Action>, id: string) {
    forall a | a in todo ::
      && (a.Write? ==> TrimSpace(a.id) != id)
      && (a.Send? ==> a.message.logId != id)
  }

  predicate NeverReplays(steps: seq<Step>, id: string) {
    forall i | 0 <= i < |steps| && steps[i].ReplayLog? :: steps[i].request.id != id
  }

  lemma StepForgets(s: State, step: Step, id: string)
    requires Invariant(s) && Enabled(s, step) && Forgotten(s, id)
    requires step.ReplayLog? ==> step.request.id != id
    ensures Forgotten(Next(s, step), id)
  {
    hide LeavesAlone, TrimSpace, HandlingTodo, PublishTodo, TodoOf, Invariant, Inserted, FreshIds;
    var t := Next(s, step);
    match step
    case Webhook(r) =>
      WebhookLeavesAlone(s, r, id);
    case ReplayLog(r) =>
      ReplayLeavesAlone(s, r, id);
    case Advance(i, w) =>
      AdvanceForgets(s, i, w, id);
    case Receive(m, setup, a) =>
      HandlingLeavesAlone(s, m, setup, a, id);
    case Duplicate(m) =>
    case Lose(m) =>
  }

  lemma AdvanceForgets(s: State, i: nat, w: Weather, id: string)
    requires Invariant(s) && CanProceed(s, i) && Forgotten(s, id)
    ensures Forgotten(Proceed(s, i, w), id)
  {
    hide TrimSpace, Invariant, Apply;
    var thread, t := s.threads[i], Proceed(s, i, w);
    var a := thread.todo[thread.pc];
    assert a in thread.todo;
    if a.Write? {
      var u := Update(w.tenant, a.id, a.status, w.message, w.written, w.measured);
      ApplyWrites(s.rows, u, id);
    }
  }

  lemma HandlingLeavesAlone(s: State, m: Message, setup: W.Setup, a: W.Answers, id: string)
    requires Invariant(s) && m in s.bus && m.logId != id
    ensures LeavesAlone(HandlingTodo(m, setup, a), id)
  {
    assert MessageOk(s, m);
    MessageIdIsTrimmed(s, m);
    hide TrimSpace, Invariant;
    var todo := HandlingTodo(m, setup, a);
    forall x | x in todo && x.Write? ensures x.id == m.logId {
      var pc :| 0 <= pc < |todo| && todo[pc] == x;
      LastWriteFinishes(m, setup, a, pc);
    }
  }

  lemma WebhookLeavesAlone(s: State, r: Intake, id: string)
    requires Invariant(s) && CanAccept(s, r) && Forgotten(s, id)
    ensures Forgotten(Accept(s, r), id)
  {
    WebhookTodoLeavesAlone(s, r, id);
    FreshIdsAvoid(s, r, id);
    InsertKeeps(s.rows, RowsOf(r));
    hide LeavesAlone, RowsOf, LogsOf, PublishTodo, Expand, Inserted, TrimSpace, FreshIds, Bookkeeping, ThreadOk, MessageOk, SuccessIsBacked;
  }

  lemma WebhookTodoLeavesAlone(s: State, r: Intake, id: string)
    requires Bookkeeping(s) && CanAccept(s, r) && id in s.rows
    ensures LeavesAlone(PublishTodo(r.setup, Expand(r.rules), LogsOf(r), r.answers), id)
  {
    RequestMay(r);
    FreshIdsAvoid(s, r, id);
    hide PublishTodo, TrimSpace, Expand, LogsOf, RowsOf, Bookkeeping, CanAccept;
    forall a | a in PublishTodo(r.setup, Expand(r.rules), LogsOf(r), r.answers)
      ensures (a.Write? ==> TrimSpace(a.id) != id) && (a.Send? ==> a.message.logId != id)
    {
      assert IngressMay(a, Expand(r.rules), LogsOf(r));
    }
  }

  /** A request's new ids are not `id`, and neither is the id it puts on a message. */
  lemma FreshIdsAvoid(s: State, r: Intake, id: string)
    requires Bookkeeping(s) && CanAccept(s, r) && id in s.rows
    ensures id !in IdsOf(RowsOf(r)) && id != ""
    ensures forall k | 0 <= k < |LogsOf(r)| :: LogsOf(r)[k].id != id && TrimSpace(LogsOf(r)[k].id) == LogsOf(r)[k].id
    ensures forall k: nat :: P.LogIdAt(LogsOf(r), k) != id
  {
    hide TrimSpace, P.RecordsFor;
    forall k | 0 <= k < |LogsOf(r)| ensures LogsOf(r)[k].id != id && TrimSpace(LogsOf(r)[k].id) == LogsOf(r)[k].id {
      RowsAlign(r, k);
      assert LogsOf(r)[k].id == RowsOf(r)[k].id;
    }
    hide LogsOf, RowsOf;
  }

  lemma ReplayLeavesAlone(s: State, r: ReplayRequest, id: string)
    requires Invariant(s) && CanReplay(s, r) && Forgotten(s, id) && r.id != id
    ensures Forgotten(Replayed(s, r), id)
  {
    hide LeavesAlone, TodoOf, ReplayedEvent, ReplayRecords, Filled, FreshIds, TrimSpace, Inserted, MessageOk, ThreadOk, SuccessIsBacked, Bookkeeping;
    var t := Replayed(s, r);
    ReplayTodoLeavesAlone(s, r, id);
    ReplayKeepsRow(s, r, id);
    assert |t.threads| > |s.threads| ==> t.threads[|s.threads|].todo == TodoOf(s, r);
    assert forall i | 0 <= i < |s.threads| :: t.threads[i] == s.threads[i];
    assert |s.threads| <= |t.threads| <= |s.threads| + 1 && t.bus == s.bus;
    hide Replayed, Invariant, CanReplay;
  }

  lemma ReplayKeepsRow(s: State, r: ReplayRequest, id: string)
    requires Bookkeeping(s) && CanReplay(s, r) && id in s.rows
    ensures id in Replayed(s, r).rows && Replayed(s, r).rows[id] == s.rows[id]
  {
    var made := Filled(ReplayRecords(ReplayedEvent(s, r).value, r), r.tenant, r.now);
    InsertKeeps(s.rows, made);
    hide TrimSpace, Filled, ReplayRecords, TodoOf, ReplayedEvent;
    assert id !in IdsOf(made);
  }

  lemma ReplayTodoLeavesAlone(s: State, r: ReplayRequest, id: string)
    requires Invariant(s) && CanReplay(s, r) && id in s.rows && r.id != id
    ensures LeavesAlone(TodoOf(s, r), id)
  {
    var event := ReplayedEvent(s, r).value;
    var records := ReplayRecords(event, r);
    ReplayIdsAreNew(s, r, id);
    TodoActs(s, r);
    hide ReplayRecords, TrimSpace, Filled, Invariant, CanReplay, ReplayedEvent, TodoOf;
    forall a | a in TodoOf(s, r)
      ensures (a.Write? ==> TrimSpace(a.id) != id) && (a.Send? ==> a.message.logId != id)
    {
      assert ReplayActs(a, event, r.matches, records, s.rows[r.id]);
    }
  }

  lemma ReplayIdsAreNew(s: State, r: ReplayRequest, id: string)
    requires Bookkeeping(s) && CanReplay(s, r) && id in s.rows
    ensures var records := ReplayRecords(ReplayedEvent(s, r).value, r);
      forall k | 0 <= k < |records| :: records[k].id != id && TrimSpace(records[k].id) == records[k].id
  {
    var records := ReplayRecords(ReplayedEvent(s, r).value, r);
    ReplayRowsAreNew(ReplayedEvent(s, r).value, r);
    hide TrimSpace, Filled, ReplayRecords, ReplayedEvent;
    var made := Filled(records, r.tenant, r.now);
    assert forall k | 0 <= k < |records| :: records[k].id == made[k].id;
  }

  lemma {:induction false} RunForgets(s: State, steps: seq<Step>, id: string)
    requires Invariant(s) && CanRun(s, steps) && Forgotten(s, id) && NeverReplays(steps, id)
    ensures Forgotten(After(s, steps), id)
    decreases |steps|
  {
    hide Invariant, Enabled, Next, Forgotten;
    if steps != [] {
      StepKeepsInvariant(s, steps[0]);
      StepForgets(s, steps[0], id);
      RunForgets(Next(s, steps[0]), steps[1..], id);
    }
  }

  /** The records of a replay that is turned away stay queued for good, whatever happens later,
      unless they are replayed themselves: nobody writes their status. */
  lemma RejectedReplayStaysQueued(s: State, r: ReplayRequest, steps: seq<Step>, k: nat)
    requires Invariant(s) && CanReplay(s, r) && !r.admitted && k < |r.matches|
    requires CanRun(Replayed(s, r), steps) && NeverReplays(steps, r.uuid(k))
    ensures r.uuid(k) in After(Replayed(s, r), steps).rows && After(Replayed(s, r), steps).rows[r.uuid(k)].status == QUEUED
  {
    ReplayKeepsInvariant(s, r);
    RejectedIsForgotten(s, r, k);
    RunForgets(Replayed(s, r), steps, r.uuid(k));
    hide Replayed, CanRun, After, Invariant, CanReplay;
  }

  lemma RejectedIsForgotten(s: State, r: ReplayRequest, k: nat)
    requires Invariant(s) && CanReplay(s, r) && !r.admitted && k < |r.matches|
    ensures Forgotten(Replayed(s, r), r.uuid(k))
  {
    var t, event, id := Replayed(s, r), ReplayedEvent(s, r).value, r.uuid(k);
    var records := ReplayRecords(event, r);
    var made := Filled(records, r.tenant, r.now);
    ReplayRowsAreNew(event, r);
    assert records[k].id == id;
    assert made[k].id == id && made[k].row.status == QUEUED by { hide TrimSpace, P.DriverName; }
    assert id !in s.used && id != "" by { hide Filled, TrimSpace, ReplayRecords; }
    P.InsertedHas(s.rows, made);
    UnusedIsLeftAlone(s, id);
    hide Filled, ReplayRecords, TodoOf, LeavesAlone, TrimSpace, Invariant, CanReplay, ReplayedEvent;
  }

  /** No thread and no message knows an id that was never generated. */
  lemma UnusedIsLeftAlone(s: State, id: string)
    requires Invariant(s) && id !in s.used && id != ""
    ensures forall m | m in s.bus :: m.logId != id
    ensures forall i | 0 <= i < |s.threads| :: LeavesAlone(s.threads[i].todo, id)
  {
    hide TrimSpace, SuccessIsBacked;
    forall i | 0 <= i < |s.threads| ensures LeavesAlone(s.threads[i].todo, id) {
      var thread := s.threads[i];
      assert ThreadOk(s, thread);
      forall a | a in thread.todo
        ensures a.Write? ==> TrimSpace(a.id) != id
        ensures a.Send? ==> a.message.logId != id
      {
        match thread.kind
        case Ingress => assert IngressOk(s, a);
        case Replay => assert ReplayOk(s, a);
        case Handling(m, setup, answers) =>
          if a.Write? {
            var pc :| 0 <= pc < |thread.todo| && thread.todo[pc] == a;
            LastWriteFinishes(m, setup, answers, pc);
            MessageIdIsTrimmed(s, m);
          }
      }
    }
    forall m | m in s.bus ensures m.logId != id { assert MessageOk(s, m); }
  }
}
