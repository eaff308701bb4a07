/** sdk/go/worker/worker.go: registration, subscriptions and the handling of one message. What
    the codec, the client provider, the handlers and the retry policy answer are parameters. */
module Workers {
  import opened GoText
  import opened Sorting
  import opened StatusStore
  import Publisher

  /** Handlers are named by numbers; a middleware makes a handler out of a handler. */
  type Handler = nat
  type Middleware = Handler -> Handler

  type Metadata = map<string, string>

  const LOG_ID := "log_id"
  const DRIVER := "driver"

  function Get(m: Metadata, key: string): string { if key in m then m[key] else "" }

  datatype Decision = Decision(retry: bool, nack: bool)

  /** What the outside world answers while one message is handled: the decoded event type (None
      is a decode error), whether the client is built, whether the n-th handler call returns nil,
      and the retry policy's decision. */
  datatype Answers = Answers(decoded: Option<string>, clientBuilt: bool, ok: nat -> bool, decision: Decision)

  datatype Effect = HandlerCall(handler: Handler, ok: bool) | StatusWrite(id: string, status: string)

  datatype Setup = Setup(
    retryCount: nat, topicHandlers: map<string, Handler>, typeHandlers: map<string, Handler>,
    middleware: seq<Middleware>, hasClientProvider: bool)

  // ---------- handling one message ----------

  function Wrap(middleware: seq<Middleware>, h: Handler): Handler {
    if middleware == [] then h else middleware[0](Wrap(middleware[1..], h))
  }

  function HandlerFor(s: Setup, topic: string, eventType: string): Option<Handler> {
    if topic in s.topicHandlers then Some(s.topicHandlers[topic])
    else if eventType in s.typeHandlers then Some(s.typeHandlers[eventType])
    else None
  }

  datatype Ending = Undecodable | NoClient | NoHandler | Ran(handler: Handler, calls: nat, ok: bool)

  function NeverStops(): nat -> bool { n => false }

  function EndingOf(s: Setup, topic: string, a: Answers): Ending {
    if a.decoded.None? then Undecodable
    else if s.hasClientProvider && !a.clientBuilt then NoClient
    else match HandlerFor(s, topic, a.decoded.value)
      case None => NoHandler
      case Some(h) =>
        var t := Publisher.TriesFrom(0, s.retryCount + 1, a.ok, NeverStops());
        Ran(Wrap(s.middleware, h), t.calls, t.ok)
  }

  /** The message was finished without error, or had no handler. */
  predicate Succeeds(e: Ending) { e.NoHandler? || (e.Ran? && e.ok) }

  function CallsOf(e: Ending, ok: nat -> bool): seq<Effect> {
    if e.Ran? then seq(e.calls, i requires 0 <= i < e.calls => HandlerCall(e.handler, ok(i))) else []
  }

  function ReportOf(logId: string, e: Ending): seq<Effect> {
    if logId == "" then [] else [StatusWrite(logId, if Succeeds(e) then SUCCESS else FAILED)]
  }

  /** Everything done for a message: the handler calls, then the report. */
  function EffectsOf(s: Setup, topic: string, logId: string, a: Answers): seq<Effect> {
    var e := EndingOf(s, topic, a);
    CallsOf(e, a.ok) + ReportOf(logId, e)
  }

  function WritesIn(effects: seq<Effect>): seq<Effect> {
    if effects == [] then []
    else WritesIn(effects[..|effects| - 1]) + if effects[|effects| - 1].StatusWrite? then [effects[|effects| - 1]] else []
  }

  lemma {:induction false} NoWritesInCalls(effects: seq<Effect>)
    requires forall e | e in effects :: e.HandlerCall?
    ensures WritesIn(effects) == []
  {
    if effects != [] {
      assert effects[|effects| - 1] in effects;
      NoWritesInCalls(effects[..|effects| - 1]);
    }
  }

  /** Handling a message calls one handler at most retryCount + 1 times, every call but the last
      having failed, and then writes one status if the message has a log id and none otherwise.
      The write says `success` exactly when there was no handler or the last call succeeded. */
  lemma HandlingAccounts(s: Setup, topic: string, logId: string, a: Answers)
    ensures var effects, e := EffectsOf(s, topic, logId, a), EndingOf(s, topic, a);
      var writes := if logId == "" then 0 else 1;
      && 0 <= |effects| - writes <= s.retryCount + 1
      && (forall i | 0 <= i < |effects| - writes :: effects[i].HandlerCall? && (effects[i].ok ==> i == |effects| - writes - 1))
      && WritesIn(effects) == effects[|effects| - writes..]
      && (logId != "" ==> effects[|effects| - 1] == StatusWrite(logId, if Succeeds(e) then SUCCESS else FAILED))
      && (Succeeds(e) <==> e.NoHandler? || (|effects| > writes && effects[|effects| - writes - 1].HandlerCall? && effects[|effects| - writes - 1].ok))
      && (e.Ran? && !e.ok ==> |effects| - writes == s.retryCount + 1)
  {
    hide *;
    EffectsAre(s, topic, logId, a);
    EndingAccounts(s, topic, a);
    var e := EndingOf(s, topic, a);
    CallsAccount(e, a.ok, s.retryCount + 1, ReportOf(logId, e));
    ReportIsLast(CallsOf(e, a.ok), logId, e);
    WritesAfterCalls(CallsOf(e, a.ok), ReportOf(logId, e));
  }

  lemma EffectsAre(s: Setup, topic: string, logId: string, a: Answers)
    ensures EffectsOf(s, topic, logId, a) == CallsOf(EndingOf(s, topic, a), a.ok) + ReportOf(logId, EndingOf(s, topic, a))
    ensures forall x | x in CallsOf(EndingOf(s, topic, a), a.ok) :: x.HandlerCall?
  {
    hide EndingOf;
  }

  lemma ReportIsLast(calls: seq<Effect>, logId: string, e: Ending)
    ensures var effects, writes := calls + ReportOf(logId, e), if logId == "" then 0 else 1;
      && |effects| - writes == |calls| && effects[|effects| - writes..] == ReportOf(logId, e)
      && (logId != "" ==> effects[|effects| - 1] == StatusWrite(logId, if Succeeds(e) then SUCCESS else FAILED))
      && (ReportOf(logId, e) == [] || (|ReportOf(logId, e)| == 1 && ReportOf(logId, e)[0].StatusWrite?))
  {
  }

  lemma CallsAccount(e: Ending, ok: nat -> bool, attempts: nat, report: seq<Effect>)
    requires e.Ran? ==> 0 < e.calls <= attempts && (e.ok <==> ok(e.calls - 1)) && (forall k: nat | k < e.calls - 1 :: !ok(k)) && (!e.ok ==> e.calls == attempts)
    ensures var effects, n := CallsOf(e, ok) + report, |CallsOf(e, ok)|;
      && n <= attempts
      && (forall i | 0 <= i < n :: effects[i].HandlerCall? && (effects[i].ok ==> i == n - 1))
      && (Succeeds(e) <==> e.NoHandler? || (n > 0 && effects[n - 1].HandlerCall? && effects[n - 1].ok))
      && (e.Ran? && !e.ok ==> n == attempts)
  {
    var calls := CallsOf(e, ok);
    assert |calls| == if e.Ran? then e.calls else 0;
    assert forall i | 0 <= i < |calls| :: calls[i] == HandlerCall(e.handler, ok(i));
  }

  lemma WritesAfterCalls(calls: seq<Effect>, report: seq<Effect>)
    requires (forall e | e in calls :: e.HandlerCall?) && (report == [] || (|report| == 1 && report[0].StatusWrite?))
    ensures WritesIn(calls + report) == report
  {
    NoWritesInCalls(calls);
    if report == [] {
      assert calls + report == calls;
    } else {
      assert (calls + report)[..|calls|] == calls;
    }
  }

  lemma EndingAccounts(s: Setup, topic: string, a: Answers)
    ensures var e := EndingOf(s, topic, a);
      e.Ran? ==>
        && 0 < e.calls <= s.retryCount + 1 && (e.ok <==> a.ok(e.calls - 1)) && (forall k: nat | k < e.calls - 1 :: !a.ok(k))
        && (!e.ok ==> e.calls == s.retryCount + 1)
  {
    Publisher.RetryAccounts(0, s.retryCount + 1, a.ok, NeverStops());
    hide Publisher.TriesFrom, Wrap, HandlerFor;
  }

  function OnError(d: Decision): bool { d.retry || d.nack }

  // shouldRequeue
  function ShouldRequeue(metadata: Metadata): bool { Lower(Get(metadata, DRIVER)) == "amqp" }

  // ---------- registration and subscription ----------

  datatype Rule = Rule(emit: seq<string>, driverId: string)

  /** Where a rule's handler listens; None is an error. */
  function TargetOf(r: Option<Rule>): Option<(string, string)> {
    match r
    case None => None
    case Some(rule) =>
      if rule.emit == [] || TrimSpace(rule.emit[0]) == "" || TrimSpace(rule.driverId) == "" then None
      else Some((TrimSpace(rule.emit[0]), TrimSpace(rule.driverId)))
  }

  datatype Subscriptions = Subscriptions(topics: seq<string>, handlers: map<string, Handler>, drivers: map<string, string>)

  function Lookup(rules: map<string, Rule>, id: string): Option<Rule> {
    if id in rules then Some(rules[id]) else None
  }

  datatype Registration = Registration(topic: string, driver: string, handler: Handler)

  /** What registering rule `id` adds. */
  function RegistrationOf(ruleHandlers: map<string, Handler>, rules: map<string, Rule>, id: string): Option<Registration> {
    var target := TargetOf(Lookup(rules, id));
    if id in ruleHandlers && target.Some? then Some(Registration(target.value.0, target.value.1, ruleHandlers[id])) else None
  }

  function Added(subs: Subscriptions, r: Registration): Subscriptions {
    Subscriptions(subs.topics + [r.topic], subs.handlers[r.topic := r.handler], subs.drivers[r.topic := r.driver])
  }

  function Subscribed(subs: Subscriptions, regs: seq<Registration>): Subscriptions {
    if regs == [] then subs else Added(Subscribed(subs, regs[..|regs| - 1]), regs[|regs| - 1])
  }

  lemma SubscribedNothing(subs: Subscriptions)
    ensures Subscribed(subs, []) == subs
  {
  }

  lemma SubscribedSnoc(subs: Subscriptions, regs: seq<Registration>, r: Registration)
    ensures Subscribed(subs, regs + [r]) == Added(Subscribed(subs, regs), r)
  {
    hide Added;
    assert (regs + [r])[..|regs|] == regs;
  }

  /** Every subscribed topic has a handler and a usable driver, and nothing else has. */
  ghost predicate Consistent(subs: Subscriptions) {
    && Elements(subs.topics) == subs.handlers.Keys == subs.drivers.Keys
    && forall t | t in subs.drivers :: Usable(subs.drivers[t])
  }

  predicate Usable(driver: string) { driver != "" && TrimSpace(driver) == driver }

  lemma AddedIsConsistent(subs: Subscriptions, r: Registration)
    requires Consistent(subs) && Usable(r.driver)
    ensures Consistent(Added(subs, r))
  {
    hide Usable;
    assert forall t :: t in Added(subs, r).topics <==> t in subs.topics || t == r.topic;
  }

  /** Subscribing keeps topics, handlers and drivers together; a topic's handler and driver are
      those of the last rule registered for it. */
  lemma {:induction false} SubscribedIsConsistent(subs: Subscriptions, regs: seq<Registration>, i: nat)
    requires Consistent(subs) && forall r | r in regs :: Usable(r.driver)
    ensures Consistent(Subscribed(subs, regs))
    ensures i < |regs| && (forall j | i < j < |regs| :: regs[j].topic != regs[i].topic) ==>
      var s := Subscribed(subs, regs);
      && regs[i].topic in s.handlers && s.handlers[regs[i].topic] == regs[i].handler
      && regs[i].topic in s.drivers && s.drivers[regs[i].topic] == regs[i].driver
  {
    hide Usable, Consistent;
    if regs != [] {
      var init, r := regs[..|regs| - 1], regs[|regs| - 1];
      assert r in regs;
      SubscribedIsConsistent(subs, init, i);
      AddedIsConsistent(Subscribed(subs, init), r);
      if i < |init| {
        assert forall j | i <= j < |init| :: regs[j] == init[j];
      }
    }
  }

  lemma RegistrationIsUsable(ruleHandlers: map<string, Handler>, rules: map<string, Rule>, id: string)
    ensures RegistrationOf(ruleHandlers, rules, id).Some? ==> Usable(RegistrationOf(ruleHandlers, rules, id).value.driver)
  {
    if Lookup(rules, id).Some? {
      TrimSpaceIdempotent(rules[id].driverId);
    }
    hide TrimSpace;
  }

  lemma NextRegistration(start: Subscriptions, regs: seq<Registration>, ruleHandlers: map<string, Handler>, rules: map<string, Rule>, id: string)
    requires Consistent(Subscribed(start, regs))
    ensures var next := RegistrationOf(ruleHandlers, rules, id);
      next.Some? ==>
        && Subscribed(start, regs + [next.value]) == Added(Subscribed(start, regs), next.value)
        && Consistent(Subscribed(start, regs + [next.value]))
  {
    hide *;
    RegistrationIsUsable(ruleHandlers, rules, id);
    if RegistrationOf(ruleHandlers, rules, id).Some? {
      SubscribedSnoc(start, regs, RegistrationOf(ruleHandlers, rules, id).value);
      AddedIsConsistent(Subscribed(start, regs), RegistrationOf(ruleHandlers, rules, id).value);
    }
  }

  /** Each value once, at its first place. */
  function Unique<T(==)>(values: seq<T>): seq<T> {
    if values == [] then []
    else
      var n := |values| - 1;
      Unique(values[..n]) + if values[n] in values[..n] then [] else [values[n]]
  }

  lemma UniqueSnoc<T>(s: seq<T>, x: T)
    ensures Unique(s + [x]) == Unique(s) + if x in s then [] else [x]
  {
    assert (s + [x])[..|s|] == s;
  }

  lemma {:induction false} UniqueSameMembers<T>(values: seq<T>, v: T)
    ensures v in Unique(values) <==> v in values
  {
    if values != [] {
      UniqueSameMembers(values[..|values| - 1], v);
      assert values == values[..|values| - 1] + [values[|values| - 1]];
    }
  }

  lemma {:induction false} UniqueHasNoDuplicates<T>(values: seq<T>)
    ensures NoDuplicates(Unique(values))
    ensures NoDuplicates(values) ==> Unique(values) == values
  {
    if values != [] {
      var init, last := values[..|values| - 1], values[|values| - 1];
      UniqueHasNoDuplicates(init);
      UniqueSameMembers(init, last);
      assert values == init + [last];
    }
  }

  lemma UniqueKeepsEachOnce<T>(values: seq<T>)
    ensures Elements(Unique(values)) == Elements(values) && NoDuplicates(Unique(values))
    ensures NoDuplicates(values) ==> Unique(values) == values
  {
    forall v: T ensures v in Unique(values) <==> v in values {
      UniqueSameMembers(values, v);
    }
    UniqueHasNoDuplicates(values);
    var u := Unique(values);
    hide Unique;
    assert Elements(u) <= Elements(values) <= Elements(u);
  }

  // unique
  method UniqueOf<T(==)>(values: seq<T>) returns (out: seq<T>)
    ensures out == Unique(values)
  {
    var seen: set<T> := {};
    out := [];
    ghost var done: seq<T> := [];
    for i := 0 to |values|
      invariant done == values[..i] && out == Unique(done)
      invariant forall v :: v in seen <==> v in done
    {
      UniqueSnoc(done, values[i]);
      hide Unique;
      done := done + [values[i]];
      if values[i] in seen { continue; }
      seen := seen + {values[i]};
      out := out + [values[i]];
    }
    assert done == values;
  }

  // ---------- grouping by driver ----------

  function HasKey<T, K(==)>(key: T -> Option<K>, k: K): T -> bool { x => key(x) == Some(k) }

  /** The items of each key, in their order; every key has an item. */
  ghost predicate IsGrouping<T, K>(groups: map<K, seq<T>>, items: seq<T>, key: T -> Option<K>) {
    && (forall x | x in items :: key(x).Some? ==> key(x).value in groups)
    && (forall k | k in groups :: groups[k] == Filter(items, HasKey(key, k)) && groups[k] != [])
  }

  lemma GroupingSnoc<T, K>(groups: map<K, seq<T>>, items: seq<T>, key: T -> Option<K>, x: T)
    requires IsGrouping(groups, items, key) && key(x).Some?
    ensures var k := key(x).value;
      IsGrouping(groups[k := (if k in groups then groups[k] else []) + [x]], items + [x], key)
  {
    var kx := key(x).value;
    var groups' := groups[kx := (if kx in groups then groups[kx] else []) + [x]];
    forall k | k in groups'
      ensures groups'[k] == Filter(items + [x], HasKey(key, k)) && groups'[k] != []
    {
      FilterAppend(items, [x], HasKey(key, k));
      FilterOne(x, HasKey(key, k));
      hide Filter;
      KeyIsGrouped(groups, items, key, k);
    }
    hide Filter;
    assert forall y | y in items + [x] :: y in items || y == x;
  }

  lemma FilterOne<T>(x: T, p: T -> bool)
    ensures Filter([x], p) == if p(x) then [x] else []
  {
  }

  lemma KeyIsGrouped<T, K>(groups: map<K, seq<T>>, items: seq<T>, key: T -> Option<K>, k: K)
    requires IsGrouping(groups, items, key)
    ensures Filter(items, HasKey(key, k)) != [] ==> k in groups
  {
    var f := Filter(items, HasKey(key, k));
    if f != [] {
      assert f[0] in items && HasKey(key, k)(f[0]);
    }
  }

  // the loop of topicsByDriver
  method GroupBy<T(==), K(==)>(items: seq<T>, key: T -> Option<K>) returns (groups: Option<map<K, seq<T>>>)
    ensures groups.None? <==> exists x :: x in items && key(x).None?
    ensures groups.Some? ==> IsGrouping(groups.value, items, key)
  {
    var out: map<K, seq<T>> := map[];
    ghost var done: seq<T> := [];
    assert IsGrouping(out, done, key);
    hide IsGrouping;
    for i := 0 to |items|
      invariant done == items[..i] && IsGrouping(out, done, key)
      invariant forall x | x in done :: key(x).Some?
    {
      var x := items[i];
      if key(x).None? {
        return None;
      }
      var k := key(x).value;
      GroupingSnoc(out, done, key, x);
      done := done + [x];
      out := out[k := (if k in out then out[k] else []) + [x]];
    }
    assert done == items;
    return Some(out);
  }

  /** The trimmed driver of a topic; None when it has none. */
  function DriverOf(topicDrivers: map<string, string>): string -> Option<string> {
    topic =>
      if topic in topicDrivers && TrimSpace(topicDrivers[topic]) != "" then Some(TrimSpace(topicDrivers[topic])) else None
  }

  class Worker {
    var concurrency: int
    var retryCount: int
    var topics: seq<string>
    var topicHandlers: map<string, Handler>
    var topicDrivers: map<string, string>
    var typeHandlers: map<string, Handler>
    var ruleHandlers: map<string, Handler>
    var middleware: seq<Middleware>
    var hasClientProvider: bool

    ghost predicate Valid()
      reads this
    {
      0 < concurrency && 0 <= retryCount && Consistent(Subs())
    }

    function Subs(): Subscriptions
      reads this`topics, this`topicHandlers, this`topicDrivers
    {
      Subscriptions(topics, topicHandlers, topicDrivers)
    }

    constructor ()
      ensures Valid() && concurrency == 10 && retryCount == 0 && Subs() == Subscriptions([], map[], map[])
      ensures typeHandlers == map[] && ruleHandlers == map[] && middleware == [] && !hasClientProvider
    {
      concurrency, retryCount := 10, 0;
      topics, topicHandlers, topicDrivers := [], map[], map[];
      typeHandlers, ruleHandlers, middleware, hasClientProvider := map[], map[], [], false;
    }

    method WithConcurrency(n: int)
      requires Valid()
      modifies this`concurrency
      ensures Valid() && concurrency == if n > 0 then n else old(concurrency)
    {
      if n > 0 {
        concurrency := n;
      }
    }

    method WithRetryCount(count: int)
      requires Valid()
      modifies this`retryCount
      ensures Valid() && retryCount == if count < 0 then 0 else count
    {
      retryCount := if count < 0 then 0 else count;
    }

    method HandleRule(ruleId: string, h: Option<Handler>)
      requires Valid()
      modifies this`ruleHandlers
      ensures Valid()
      ensures ruleHandlers == if h.None? || TrimSpace(ruleId) == "" then old(ruleHandlers)
                              else old(ruleHandlers)[TrimSpace(ruleId) := h.value]
    {
      if h.None? {
        return;
      }
      var id := TrimSpace(ruleId);
      if id == "" {
        return;
      }
      ruleHandlers := ruleHandlers[id := h.value];
    }

    /** Goes through the rule handlers in any `order`, up to the first rule that has no usable
        target; what was set up before an error stays. */
    method PrepareRuleSubscriptions(order: seq<string>, rules: map<string, Rule>) returns (ok: bool, ghost regs: seq<Registration>)
      requires Valid() && Elements(order) == ruleHandlers.Keys
      modifies this`topics, this`topicHandlers, this`topicDrivers
      ensures Valid() && |regs| <= |order| && (ok <==> |regs| == |order|)
      ensures forall i | 0 <= i < |regs| :: RegistrationOf(ruleHandlers, rules, order[i]) == Some(regs[i])
      ensures !ok ==> RegistrationOf(ruleHandlers, rules, order[|regs|]).None?
      ensures Subs() == Subscribed(old(Subs()), regs)
    {
      hide TrimSpace, Consistent, Elements, Subscribed, RegistrationOf, Added, Usable, TargetOf, Lookup;
      SameMembers(order, ruleHandlers.Keys);
      ok, regs := true, [];
      ghost var start := Subs();
      SubscribedNothing(start);
      for i := 0 to |order|
        invariant ok && |regs| == i
        invariant forall k | 0 <= k < i :: RegistrationOf(ruleHandlers, rules, order[k]) == Some(regs[k])
        invariant Subs() == Subscribed(start, regs) && Consistent(Subs())
      {
        var id := order[i];
        ghost var next := RegistrationOf(ruleHandlers, rules, id);
        NextRegistration(start, regs, ruleHandlers, rules, id);
        ok := PrepareRule(id, rules);
        if !ok {
          return;
        }
        regs := regs + [next.value];
      }
    }

    // the body of that loop
    method PrepareRule(id: string, rules: map<string, Rule>) returns (ok: bool)
      requires id in ruleHandlers
      modifies this`topics, this`topicHandlers, this`topicDrivers
      ensures ok <==> RegistrationOf(ruleHandlers, rules, id).Some?
      ensures Subs() == if ok then Added(old(Subs()), RegistrationOf(ruleHandlers, rules, id).value) else old(Subs())
    {
      hide TrimSpace;
      if id !in rules || |rules[id].emit| == 0 {
        return false;
      }
      var topic := TrimSpace(rules[id].emit[0]);
      if topic == "" {
        return false;
      }
      var driver := TrimSpace(rules[id].driverId);
      if driver == "" {
        return false;
      }
      topicHandlers := topicHandlers[topic := ruleHandlers[id]];
      topicDrivers := topicDrivers[topic := driver];
      topics := topics + [topic];
      return true;
    }

    /** `order` is the order in which the map is ranged over. */
    method TopicsByDriver(order: seq<string>) returns (groups: Option<map<string, seq<string>>>)
      requires Elements(order) == topicDrivers.Keys
      ensures groups.None? <==> topicDrivers == map[] || exists t :: t in topicDrivers && DriverOf(topicDrivers)(t).None?
      ensures groups.Some? ==> IsGrouping(groups.value, order, DriverOf(topicDrivers))
      ensures Valid() ==> (groups.None? <==> topics == [])
    {
      ConsistentDrivers(Subs());
      SameMembers(order, topicDrivers.Keys);
      hide TrimSpace, Elements, IsGrouping, Consistent, DriverOf;
      if topicDrivers == map[] {
        return None;
      }
      groups := GroupBy(order, DriverOf(topicDrivers));
    }

    /** Handles one message; `nack` is the wish to have it back. */
    method HandleMessage(topic: string, metadata: Metadata, a: Answers) returns (nack: bool, effects: seq<Effect>)
      requires Valid()
      ensures var s := Setup(retryCount, topicHandlers, typeHandlers, middleware, hasClientProvider);
        && effects == EffectsOf(s, topic, Get(metadata, LOG_ID), a)
        && (nack <==> !Succeeds(EndingOf(s, topic, a)) && OnError(a.decision))
    {
      hide Consistent, Wrap;
      ghost var s := Setup(retryCount, topicHandlers, typeHandlers, middleware, hasClientProvider);
      var logId := if LOG_ID in metadata then metadata[LOG_ID] else "";
      if a.decoded.None? {
        effects := Report(logId, FAILED);
        return a.decision.retry || a.decision.nack, effects;
      }
      if hasClientProvider && !a.clientBuilt {
        effects := Report(logId, FAILED);
        return a.decision.retry || a.decision.nack, effects;
      }
      var handler := None;
      if topic in topicHandlers {
        handler := Some(topicHandlers[topic]);
      } else if a.decoded.value in typeHandlers {
        handler := Some(typeHandlers[a.decoded.value]);
      }
      if handler.None? {
        effects := Report(logId, SUCCESS);
        return false, effects;
      }
      var wrapped := ApplyMiddleware(handler.value);
      var calls, failed := CallHandler(wrapped, a);
      var report := Report(logId, if failed then FAILED else SUCCESS);
      effects := calls + report;
      nack := failed && (a.decision.retry || a.decision.nack);
    }

    // the attempts of that method
    method CallHandler(wrapped: Handler, a: Answers) returns (calls: seq<Effect>, failed: bool)
      requires Valid()
      ensures var t := Publisher.TriesFrom(0, retryCount + 1, a.ok, NeverStops());
        calls == CallsOf(Ran(wrapped, t.calls, t.ok), a.ok) && failed == !t.ok
    {
      hide Consistent;
      var attempts := retryCount + 1;
      calls, failed := [], true;
      var i := 0;
      ghost var tries := Publisher.TriesFrom(0, attempts, a.ok, NeverStops());
      while failed && i < attempts
        invariant 0 <= i <= attempts && i == |calls|
        invariant calls == seq(i, k requires 0 <= k < i => HandlerCall(wrapped, a.ok(k)))
        invariant failed && i < attempts ==> Publisher.TriesFrom(i, attempts, a.ok, NeverStops()) == tries
        invariant !(failed && i < attempts) ==> tries == Publisher.Tries(i, !failed)
      {
        calls := calls + [HandlerCall(wrapped, a.ok(i))];
        failed := !a.ok(i);
        i := i + 1;
      }
    }

    // wrap
    method ApplyMiddleware(h: Handler) returns (wrapped: Handler)
      ensures wrapped == Wrap(middleware, h)
    {
      wrapped := h;
      var i := |middleware|;
      while i > 0
        invariant 0 <= i <= |middleware| && wrapped == Wrap(middleware[i..], h)
      {
        i := i - 1;
        assert middleware[i..][1..] == middleware[i + 1..];
        wrapped := middleware[i](wrapped);
      }
      assert middleware[0..] == middleware;
    }

    /** The subscriber's callback: only AMQP messages go back to the bus. */
    method OnMessage(topic: string, metadata: Metadata, a: Answers) returns (requeued: bool, effects: seq<Effect>)
      requires Valid()
      ensures var s := Setup(retryCount, topicHandlers, typeHandlers, middleware, hasClientProvider);
        && effects == EffectsOf(s, topic, Get(metadata, LOG_ID), a)
        && (requeued <==> ShouldRequeue(metadata) && !Succeeds(EndingOf(s, topic, a)) && (a.decision.retry || a.decision.nack))
    {
      hide EffectsOf, EndingOf, Succeeds, Consistent, Lower;
      var nack;
      nack, effects := HandleMessage(topic, metadata, a);
      requeued := nack && ShouldRequeue(metadata);
    }
  }

  // updateEventLogStatus
  method Report(logId: string, status: string) returns (effects: seq<Effect>)
    ensures effects == if logId == "" then [] else [StatusWrite(logId, status)]
  {
    if logId == "" {
      return [];
    }
    return [StatusWrite(logId, status)];
  }

  /** The first middleware is the outermost, and adding middleware wraps closer to the handler. */
  lemma {:induction false} WrapComposes(outer: seq<Middleware>, inner: seq<Middleware>, h: Handler)
    ensures Wrap(outer + inner, h) == Wrap(outer, Wrap(inner, h))
  {
    if outer == [] {
      assert outer + inner == inner;
    } else {
      assert (outer + inner)[1..] == outer[1..] + inner;
      WrapComposes(outer[1..], inner, h);
    }
  }

  lemma SameMembers<T>(s: seq<T>, t: set<T>)
    requires Elements(s) == t
    ensures forall x :: x in s <==> x in t
  {
    forall x ensures x in s <==> x in t {
      assert x in s <==> x in Elements(s);
    }
  }

  lemma ConsistentDrivers(subs: Subscriptions)
    ensures Consistent(subs) ==>
      (subs.drivers == map[] <==> subs.topics == []) && forall t | t in subs.drivers :: DriverOf(subs.drivers)(t) == Some(subs.drivers[t])
  {
    hide TrimSpace;
    if Consistent(subs) && subs.topics != [] {
      assert subs.topics[0] in Elements(subs.topics);
    }
  }
}
