/** pkg/core/publisher.go: retries, the publisher multiplexer and its construction. What a
    broker or a factory answers is a parameter; single publishers are numbered. */
module Publisher {
  import opened GoText
  import opened Sorting

  // ---------- retrying ----------

  /** How often a loop of `attempts` tries calls its base, and whether a try succeeded; `stops`
      is the context being done while the loop waits before the next try. */
  datatype Tries = Tries(calls: nat, ok: bool)

  function TriesFrom(i: nat, attempts: nat, ok: nat -> bool, stops: nat -> bool): Tries
    requires i < attempts
    decreases attempts - i
  {
    if ok(i) then Tries(i + 1, true)
    else if i + 1 == attempts || stops(i) then Tries(i + 1, false)
    else TriesFrom(i + 1, attempts, ok, stops)
  }

  function StopsWhen(delay: int, ctxDone: nat -> bool): nat -> bool { (i: nat) => delay > 0 && ctxDone(i) }

  // retryingPublisher.Publish; without a delay the context is not looked at
  method RetryPublish(configured: int, delay: int, ok: nat -> bool, ctxDone: nat -> bool) returns (succeeded: bool, calls: nat)
    ensures var attempts := if configured <= 0 then 1 else configured;
      Tries(calls, succeeded) == TriesFrom(0, attempts, ok, StopsWhen(delay, ctxDone))
  {
    var attempts := configured;
    if attempts <= 0 {
      attempts := 1;
    }
    ghost var stops := StopsWhen(delay, ctxDone);
    var i := 0;
    calls := 0;
    while i < attempts
      invariant 0 <= i <= attempts && calls == i
      invariant i < attempts ==> TriesFrom(i, attempts, ok, stops) == TriesFrom(0, attempts, ok, stops)
      invariant i == attempts ==> TriesFrom(0, attempts, ok, stops) == Tries(attempts, false)
    {
      calls := calls + 1;
      if ok(i) {
        return true, calls;
      }
      i := i + 1;
      if i >= attempts || delay <= 0 { continue; }
      if ctxDone(i - 1) {
        return false, calls;
      }
    }
    return false, calls;
  }

  const BUILD_ATTEMPTS := 10

  // retryPublisherBuild, which waits two seconds after every failure, the last one included
  method RetryBuild(ok: nat -> bool, ctxDone: nat -> bool) returns (succeeded: bool, calls: nat)
    ensures Tries(calls, succeeded) == TriesFrom(0, 10, ok, ctxDone)
  {
    calls := 0;
    for i := 0 to BUILD_ATTEMPTS
      invariant calls == i
      invariant i < BUILD_ATTEMPTS ==> TriesFrom(i, BUILD_ATTEMPTS, ok, ctxDone) == TriesFrom(0, BUILD_ATTEMPTS, ok, ctxDone)
      invariant i == BUILD_ATTEMPTS ==> TriesFrom(0, BUILD_ATTEMPTS, ok, ctxDone) == Tries(BUILD_ATTEMPTS, false)
    {
      calls := calls + 1;
      if ok(i) {
        return true, calls;
      }
      if ctxDone(i) {
        return false, calls;
      }
    }
    return false, calls;
  }

  /** Retrying stops at the first success, calls at most `attempts` times, and succeeds exactly
      when some call did; it gives up early only when the context is done. */
  lemma {:induction false} RetryAccounts(i: nat, attempts: nat, ok: nat -> bool, stops: nat -> bool)
    requires i < attempts
    ensures var t := TriesFrom(i, attempts, ok, stops);
      && i < t.calls <= attempts
      && (forall k: nat | i <= k < t.calls - 1 :: !ok(k) && !stops(k))
      && (t.ok <==> ok(t.calls - 1))
      && (t.ok <==> exists k: nat :: i <= k < t.calls && ok(k))
      && (!t.ok ==> t.calls == attempts || stops(t.calls - 1))
    decreases attempts - i
  {
    var t := TriesFrom(i, attempts, ok, stops);
    if ok(i) {
    } else if i + 1 == attempts || stops(i) {
    } else {
      RetryAccounts(i + 1, attempts, ok, stops);
    }
  }

  // ---------- the multiplexer ----------

  /** `publishers` maps lower-case driver names to the publishers built for them. */
  datatype Mux = Mux(publishers: map<string, nat>, defaultDrivers: seq<string>, dlqDriver: string)

  datatype Call = Call(driver: string, deadLetter: bool)

  predicate Known(m: Mux, driver: string) { Lower(driver) in m.publishers }

  /** A failed send to `driver` is repeated to the dead-letter driver. */
  predicate GoesToDlq(m: Mux, driver: string) {
    m.dlqDriver != "" && m.dlqDriver != Lower(driver) && m.dlqDriver in m.publishers
  }

  /** The publish calls for `targets`; `ok(n)` is the answer to the n-th call. */
  function CallsFor(m: Mux, targets: seq<string>, ok: nat -> bool): seq<Call> {
    if targets == [] then []
    else
      var before := CallsFor(m, targets[..|targets| - 1], ok);
      var driver := targets[|targets| - 1];
      if !Known(m, driver) then before
      else if ok(|before|) || !GoesToDlq(m, driver) then before + [Call(Lower(driver), false)]
      else before + [Call(Lower(driver), false), Call(m.dlqDriver, true)]
  }

  /** All targets are known and their own sends succeed. */
  predicate AllDelivered(m: Mux, targets: seq<string>, ok: nat -> bool) {
    targets == [] ||
    (var init, driver := targets[..|targets| - 1], targets[|targets| - 1];
     AllDelivered(m, init, ok) && Known(m, driver) && ok(|CallsFor(m, init, ok)|))
  }

  method PublishForDrivers(m: Mux, drivers: seq<string>, ok: nat -> bool) returns (failed: bool, calls: seq<Call>)
    ensures var targets := if drivers == [] then m.defaultDrivers else drivers;
      calls == CallsFor(m, targets, ok) && (failed <==> !AllDelivered(m, targets, ok))
  {
    hide Lower;
    var targets := drivers;
    if |targets| == 0 {
      targets := m.defaultDrivers;
    }
    failed, calls := false, [];
    for i := 0 to |targets|
      invariant calls == CallsFor(m, targets[..i], ok) && (failed <==> !AllDelivered(m, targets[..i], ok))
    {
      var driver := targets[i];
      assert targets[..i + 1][..i] == targets[..i];
      var normalized := Lower(driver);
      if normalized !in m.publishers {
        failed := true;
        continue;
      }
      var sent := ok(|calls|);
      calls := calls + [Call(normalized, false)];
      if !sent {
        failed := true;
        if m.dlqDriver != "" && m.dlqDriver != normalized {
          if m.dlqDriver in m.publishers {
            calls := calls + [Call(m.dlqDriver, true)];
          }
        }
      }
    }
    assert targets[..|targets|] == targets;
  }

  // ---------- fan-out accounting ----------

  /** The own sends among `calls`. */
  function OwnSends(calls: seq<Call>): seq<string> {
    if calls == [] then []
    else OwnSends(calls[..|calls| - 1]) + if calls[|calls| - 1].deadLetter then [] else [calls[|calls| - 1].driver]
  }

  function DeadLetters(calls: seq<Call>): nat {
    if calls == [] then 0 else DeadLetters(calls[..|calls| - 1]) + if calls[|calls| - 1].deadLetter then 1 else 0
  }

  function KnownTargets(m: Mux, targets: seq<string>): seq<string> {
    if targets == [] then []
    else KnownTargets(m, targets[..|targets| - 1]) + if Known(m, targets[|targets| - 1]) then [Lower(targets[|targets| - 1])] else []
  }

  /** Own sends that failed, to drivers other than the dead-letter driver. */
  function FailedSends(m: Mux, calls: seq<Call>, ok: nat -> bool): nat {
    if calls == [] then 0
    else
      var c := calls[|calls| - 1];
      FailedSends(m, calls[..|calls| - 1], ok) + if !c.deadLetter && !ok(|calls| - 1) && c.driver != m.dlqDriver then 1 else 0
  }

  lemma CallSnoc(m: Mux, calls: seq<Call>, c: Call, ok: nat -> bool)
    ensures OwnSends(calls + [c]) == OwnSends(calls) + if c.deadLetter then [] else [c.driver]
    ensures DeadLetters(calls + [c]) == DeadLetters(calls) + if c.deadLetter then 1 else 0
    ensures FailedSends(m, calls + [c], ok) == FailedSends(m, calls, ok) + if !c.deadLetter && !ok(|calls|) && c.driver != m.dlqDriver then 1 else 0
  {
    assert (calls + [c])[..|calls|] == calls;
  }

  /** Each listed known target gets exactly one send of its own, in order; when the
      dead-letter driver is there, it gets one more message for every send that failed elsewhere,
      and otherwise nothing is repeated. */
  lemma {:induction false} SendsAccount(m: Mux, targets: seq<string>, ok: nat -> bool)
    ensures OwnSends(CallsFor(m, targets, ok)) == KnownTargets(m, targets)
    ensures DeadLetters(CallsFor(m, targets, ok)) ==
      if m.dlqDriver != "" && m.dlqDriver in m.publishers then FailedSends(m, CallsFor(m, targets, ok), ok) else 0
  {
    if targets != [] {
      var init, driver := targets[..|targets| - 1], targets[|targets| - 1];
      SendsAccount(m, init, ok);
      var before, own, dead := CallsFor(m, init, ok), Call(Lower(driver), false), Call(m.dlqDriver, true);
      CallSnoc(m, before, own, ok);
      CallSnoc(m, before + [own], dead, ok);
      assert before + [own] + [dead] == before + [own, dead];
      hide Lower, OwnSends, DeadLetters, FailedSends;
      assert KnownTargets(m, init) + [] == KnownTargets(m, init);
      assert OwnSends(before + [own]) + [] == OwnSends(before + [own]);
    }
  }

  /** The result is nil exactly when every target is known and every own send succeeds; and no
      call goes to a driver the multiplexer does not have. */
  lemma {:induction false} NilIffAllDelivered(m: Mux, targets: seq<string>, ok: nat -> bool)
    ensures AllDelivered(m, targets, ok) <==>
      && (forall t | t in targets :: Known(m, t))
      && (forall n | 0 <= n < |CallsFor(m, targets, ok)| && !CallsFor(m, targets, ok)[n].deadLetter :: ok(n))
    ensures forall n | 0 <= n < |CallsFor(m, targets, ok)| :: CallsFor(m, targets, ok)[n].driver in m.publishers
  {
    hide Lower;
    if targets != [] {
      var init, driver := targets[..|targets| - 1], targets[|targets| - 1];
      NilIffAllDelivered(m, init, ok);
      var before, calls := CallsFor(m, init, ok), CallsFor(m, targets, ok);
      assert forall t :: t in targets <==> t in init || t == driver;
      assert forall n | 0 <= n < |before| :: calls[n] == before[n];
      if Known(m, driver) {
        assert calls[|before|] == Call(Lower(driver), false);
      }
    }
  }

  // ---------- building the multiplexer ----------

  // Publisher `built[i]` (None if every try failed) is built for driver `drivers[i]`.

  function AddBuilt(publishers: map<string, nat>, drivers: seq<string>, built: seq<Option<nat>>): map<string, nat>
    requires |drivers| == |built|
  {
    if drivers == [] then publishers
    else
      var n := |drivers| - 1;
      var before := AddBuilt(publishers, drivers[..n], built[..n]);
      if built[n].Some? then before[Lower(drivers[n]) := built[n].value] else before
  }

  function BuiltNames(drivers: seq<string>, built: seq<Option<nat>>): seq<string>
    requires |drivers| == |built|
  {
    if drivers == [] then []
    else
      var n := |drivers| - 1;
      BuiltNames(drivers[..n], built[..n]) + if built[n].Some? then [Lower(drivers[n])] else []
  }

  method NewPublisher(drivers0: seq<string>, driver: string, dlq: string, built: seq<Option<nat>>) returns (r: Option<Mux>)
    requires |built| == if drivers0 == [] && driver != "" then 1 else |drivers0|
    ensures var drivers := if drivers0 == [] && driver != "" then [driver] else drivers0;
      var publishers := AddBuilt(map[], drivers, built);
      r == if publishers == map[] then None else Some(Mux(publishers, BuiltNames(drivers, built), Lower(TrimSpace(dlq))))
  {
    hide Lower, TrimSpace;
    var drivers := drivers0;
    if |drivers| == 0 && driver != "" {
      drivers := [driver];
    }
    var pubs: map<string, nat> := map[];
    var builtDrivers: seq<string> := [];
    for i := 0 to |drivers|
      invariant pubs == AddBuilt(map[], drivers[..i], built[..i]) && builtDrivers == BuiltNames(drivers[..i], built[..i])
    {
      assert drivers[..i + 1][..i] == drivers[..i] && built[..i + 1][..i] == built[..i];
      if built[i].None? { continue; }
      var key := Lower(drivers[i]);
      pubs := pubs[key := built[i].value];
      builtDrivers := builtDrivers + [key];
    }
    assert drivers[..|drivers|] == drivers && built[..|built|] == built;
    if |pubs| == 0 {
      return None;
    }
    return Some(Mux(pubs, builtDrivers, Lower(TrimSpace(dlq))));
  }

  /** The defaults of a built multiplexer are known to it: publishing to them never meets an
      unknown driver. */
  lemma {:induction false} DefaultsAreKnown(drivers: seq<string>, built: seq<Option<nat>>)
    requires |drivers| == |built|
    ensures AddBuilt(map[], drivers, built).Keys == Elements(BuiltNames(drivers, built))
    ensures forall d | d in BuiltNames(drivers, built) :: Lower(d) == d && d in AddBuilt(map[], drivers, built)
  {
    if drivers != [] {
      var n := |drivers| - 1;
      DefaultsAreKnown(drivers[..n], built[..n]);
      LowerIdempotent(drivers[n]);
      hide Lower;
      assert AddBuilt(map[], drivers, built).Keys == AddBuilt(map[], drivers[..n], built[..n]).Keys + if built[n].Some? then {Lower(drivers[n])} else {};
    }
  }

  predicate DistinctPublishers(built: seq<Option<nat>>) {
    forall i, j | 0 <= i < j < |built| && built[i].Some? :: built[i] != built[j]
  }

  /** A publisher that was built is held by the multiplexer, and so closed with it, exactly when
      no later driver of the list has the same lower-case name. With a repeated name the earlier
      publisher is dropped unclosed. */
  lemma {:induction false} BuiltIsHeldIffLast(drivers: seq<string>, built: seq<Option<nat>>, i: nat)
    requires |drivers| == |built| && DistinctPublishers(built) && i < |drivers| && built[i].Some?
    ensures built[i].value in AddBuilt(map[], drivers, built).Values
      <==> forall j | i < j < |drivers| && built[j].Some? :: Lower(drivers[j]) != Lower(drivers[i])
    ensures Lower(drivers[i]) in AddBuilt(map[], drivers, built)
    ensures forall k | k in AddBuilt(map[], drivers, built) && AddBuilt(map[], drivers, built)[k] == built[i].value :: k == Lower(drivers[i])
  {
    hide Lower;
    var n := |drivers| - 1;
    var before, after := AddBuilt(map[], drivers[..n], built[..n]), AddBuilt(map[], drivers, built);
    if i == n {
      HeldIsBuilt(drivers[..n], built[..n]);
      assert after[Lower(drivers[n])] == built[n].value;
    } else {
      BuiltIsHeldIffLast(drivers[..n], built[..n], i);
      if built[n].Some? {
        assert built[n] != built[i];
        forall k | k in after && after[k] == built[i].value ensures k in before && before[k] == built[i].value {}
        if built[i].value in before.Values && Lower(drivers[n]) != Lower(drivers[i]) {
          var k :| k in before && before[k] == built[i].value;
          assert k in after && after[k] == built[i].value;
        }
      }
    }
  }

  /** The drivers `amqp` and `AMQP`, both built: the first publisher is in no entry of the map. */
  lemma RepeatedNameDropsFirst(p: nat, q: nat)
    requires p != q
    ensures AddBuilt(map[], ["amqp", "AMQP"], [Some(p), Some(q)]) == map["amqp" := q]
    ensures p !in AddBuilt(map[], ["amqp", "AMQP"], [Some(p), Some(q)]).Values
  {
    var drivers, built := ["amqp", "AMQP"], [Some(p), Some(q)];
    assert drivers[..1] == ["amqp"] && built[..1] == [Some(p)];
    assert ["amqp"][..0] == [] && [Some(p)][..0] == [];
    assert Lower("amqp") == "amqp" && Lower("AMQP") == "amqp";
    assert AddBuilt(map[], drivers[..1], built[..1]) == map["amqp" := p];
  }

  lemma {:induction false} HeldIsBuilt(drivers: seq<string>, built: seq<Option<nat>>)
    requires |drivers| == |built|
    ensures forall k | k in AddBuilt(map[], drivers, built) :: Some(AddBuilt(map[], drivers, built)[k]) in built
  {
    hide Lower;
    if drivers != [] {
      HeldIsBuilt(drivers[..|drivers| - 1], built[..|drivers| - 1]);
    }
  }
}
