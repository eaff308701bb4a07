/** The goroutines of Worker.Run and Worker.runWithSubscriber (sdk/go/worker/worker.go): the
    subscriptions, the error channel, the semaphore and the wait at the end, as a machine whose
    steps may come in any order. */
module WorkerPool {
  import opened GoText
  import opened Workers

  /** One subscription goroutine: inside Start; about to send its error; about to cancel the
      context; finished, having sent an error or not. */
  datatype Subscription = Running | Sending | Cancelling | Done(sent: bool)

  /** One handler callback: before the semaphore, inside it, and gone. */
  datatype Callback = Waiting | Handling | Left

  /** The goroutine that called Run. */
  datatype Caller = AwaitsCancel | AwaitsGroup | Returned(error: Option<nat>)

  /** `channel` holds the errors sent, each named by its subscription; `occupied` counts the
      filled slots of the semaphore. */
  datatype State = State(
    subs: seq<Subscription>, channel: seq<nat>, cancelled: bool, caller: Caller,
    callbacks: seq<Callback>, occupied: nat)

  /** `capacity` of the error channel and `concurrency` of the semaphore. */
  datatype Sizes = Sizes(subscriptions: nat, capacity: nat, concurrency: nat)

  datatype Step =
    | StartReturns(g: nat, failed: bool)
    | Send(g: nat)
    | Cancel(g: nat)
    | ParentCancels
    | CallerWakes
    | CallerReturns
    | Arrive
    | Acquire(h: nat)
    | Release(h: nat)

  function Initial(z: Sizes): State {
    State(seq(z.subscriptions, i => Running), [], false, AwaitsCancel, [], 0)
  }

  predicate Enabled(z: Sizes, s: State, step: Step) {
    match step
    case StartReturns(g, failed) => g < |s.subs| && s.subs[g].Running?
    case Send(g) => g < |s.subs| && s.subs[g].Sending? && |s.channel| < z.capacity
    case Cancel(g) => g < |s.subs| && s.subs[g].Cancelling?
    case ParentCancels => true
    case CallerWakes => s.caller.AwaitsCancel? && s.cancelled
    case CallerReturns => s.caller.AwaitsGroup? && forall g | 0 <= g < |s.subs| :: s.subs[g].Done?
    case Arrive => true
    case Acquire(h) => h < |s.callbacks| && s.callbacks[h].Waiting? && s.occupied < z.concurrency
    case Release(h) => h < |s.callbacks| && s.callbacks[h].Handling? && s.occupied > 0
  }

  function Next(z: Sizes, s: State, step: Step): State
    requires Enabled(z, s, step)
  {
    match step
    case StartReturns(g, failed) => s.(subs := s.subs[g := if failed && !s.cancelled then Sending else Done(false)])
    case Send(g) => s.(channel := s.channel + [g], subs := s.subs[g := Cancelling])
    case Cancel(g) => s.(cancelled := true, subs := s.subs[g := Done(true)])
    case ParentCancels => s.(cancelled := true)
    case CallerWakes => s.(caller := AwaitsGroup)
    case CallerReturns => s.(caller := Returned(if s.channel == [] then None else Some(s.channel[0])))
    case Arrive => s.(callbacks := s.callbacks + [Waiting])
    case Acquire(h) => s.(occupied := s.occupied + 1, callbacks := s.callbacks[h := Handling])
    case Release(h) => s.(occupied := s.occupied - 1, callbacks := s.callbacks[h := Left])
  }

  /** `steps` can be taken one after the other from `s`. */
  predicate CanRun(z: Sizes, s: State, steps: seq<Step>)
    decreases |steps|
  {
    steps == [] || (Enabled(z, s, steps[0]) && CanRun(z, Next(z, s, steps[0]), steps[1..]))
  }

  function After(z: Sizes, s: State, steps: seq<Step>): State
    requires CanRun(z, s, steps)
    decreases |steps|
  {
    if steps == [] then s else After(z, Next(z, s, steps[0]), steps[1..])
  }

  // ---------- the invariant ----------

  function HasSent(g: Subscription): nat { if g.Cancelling? || (g.Done? && g.sent) then 1 else 0 }

  function SentCount(subs: seq<Subscription>): nat {
    if subs == [] then 0 else SentCount(subs[..|subs| - 1]) + HasSent(subs[|subs| - 1])
  }

  function InFlight(callbacks: seq<Callback>): nat {
    if callbacks == [] then 0
    else InFlight(callbacks[..|callbacks| - 1]) + if callbacks[|callbacks| - 1].Handling? then 1 else 0
  }

  /** What every reachable state keeps. */
  predicate Invariant(z: Sizes, s: State) {
    && |s.subs| == z.subscriptions
    && |s.channel| == SentCount(s.subs)
    && (forall i | 0 <= i < |s.channel| :: s.channel[i] < |s.subs| && HasSent(s.subs[s.channel[i]]) == 1)
    && s.occupied == InFlight(s.callbacks) <= z.concurrency
    && (!s.caller.AwaitsCancel? ==> s.cancelled)
    && (s.caller.Returned? ==>
          && (forall g | 0 <= g < |s.subs| :: s.subs[g].Done?)
          && s.caller.error == if s.channel == [] then None else Some(s.channel[0]))
  }

  lemma {:induction false} SentCountUpdate(subs: seq<Subscription>, g: nat, x: Subscription)
    requires g < |subs|
    ensures SentCount(subs[g := x]) == SentCount(subs) - HasSent(subs[g]) + HasSent(x)
    ensures SentCount(subs) <= |subs| - 1 + HasSent(subs[g])
  {
    var n := |subs| - 1;
    if g == n {
      assert subs[g := x][..n] == subs[..n];
      SentCountBound(subs[..n]);
    } else {
      SentCountUpdate(subs[..n], g, x);
      assert subs[g := x][..n] == subs[..n][g := x];
    }
  }

  lemma {:induction false} SentCountBound(subs: seq<Subscription>)
    ensures SentCount(subs) <= |subs|
    ensures (forall g | 0 <= g < |subs| :: HasSent(subs[g]) == 0) ==> SentCount(subs) == 0
  {
    if subs != [] {
      SentCountBound(subs[..|subs| - 1]);
    }
  }

  lemma {:induction false} InFlightUpdate(callbacks: seq<Callback>, h: nat, x: Callback)
    requires h < |callbacks|
    ensures InFlight(callbacks[h := x]) == InFlight(callbacks) - (if callbacks[h].Handling? then 1 else 0) + if x.Handling? then 1 else 0
  {
    var n := |callbacks| - 1;
    if h == n {
      assert callbacks[h := x][..n] == callbacks[..n];
    } else {
      InFlightUpdate(callbacks[..n], h, x);
      assert callbacks[h := x][..n] == callbacks[..n][h := x];
    }
  }

  lemma InitialHolds(z: Sizes)
    ensures Invariant(z, Initial(z))
  {
    SentCountBound(Initial(z).subs);
  }

  lemma StepKeepsInvariant(z: Sizes, s: State, step: Step)
    requires Invariant(z, s) && Enabled(z, s, step)
    ensures Invariant(z, Next(z, s, step))
  {
    hide SentCount, InFlight;
    match step
    case StartReturns(g, failed) =>
      SentCountUpdate(s.subs, g, if failed && !s.cancelled then Sending else Done(false));
    case Send(g) => SentCountUpdate(s.subs, g, Cancelling);
    case Cancel(g) => SentCountUpdate(s.subs, g, Done(true));
    case Acquire(h) => InFlightUpdate(s.callbacks, h, Handling);
    case Release(h) => InFlightUpdate(s.callbacks, h, Left);
    case Arrive => InFlightSnoc(s.callbacks);
    case _ =>
  }

  lemma InFlightSnoc(callbacks: seq<Callback>)
    ensures InFlight(callbacks + [Waiting]) == InFlight(callbacks)
  {
    assert (callbacks + [Waiting])[..|callbacks|] == callbacks;
  }

  lemma {:induction false} RunKeepsInvariant(z: Sizes, s: State, steps: seq<Step>)
    requires Invariant(z, s) && CanRun(z, s, steps)
    ensures Invariant(z, After(z, s, steps))
    decreases |steps|
  {
    if steps != [] {
      StepKeepsInvariant(z, s, steps[0]);
      RunKeepsInvariant(z, Next(z, s, steps[0]), steps[1..]);
    }
  }

  // ---------- safety ----------

  /** In every state a run can reach, the handlers inside the semaphore are as many as its filled
      slots and at most `concurrency`; and once the caller has returned, every subscription is
      finished and the result is the first error sent, nil exactly when none was sent. */
  lemma EveryRunIsSafe(z: Sizes, steps: seq<Step>)
    requires CanRun(z, Initial(z), steps)
    ensures var s := After(z, Initial(z), steps);
      && InFlight(s.callbacks) == s.occupied <= z.concurrency
      && (s.caller.Returned? ==>
            && (forall g | 0 <= g < |s.subs| :: s.subs[g].Done?)
            && (s.caller.error.Some? <==> exists g :: 0 <= g < |s.subs| && s.subs[g] == Done(true))
            && (s.caller.error.Some? ==> s.caller.error.value < |s.subs| && s.subs[s.caller.error.value] == Done(true)))
  {
    var s := After(z, Initial(z), steps);
    InitialHolds(z);
    RunKeepsInvariant(z, Initial(z), steps);
    if s.caller.Returned? {
      SentCountBound(s.subs);
      if g :| 0 <= g < |s.subs| && s.subs[g] == Done(true) {
        SentCountUpdate(s.subs, g, Done(false));
      } else {
        assert forall g | 0 <= g < |s.subs| :: HasSent(s.subs[g]) == 0;
      }
      if s.channel != [] {
        assert HasSent(s.subs[s.channel[0]]) == 1;
      }
    }
  }

  /** With room for every subscription, no send can block. */
  lemma SendNeverBlocks(z: Sizes, steps: seq<Step>, g: nat)
    requires CanRun(z, Initial(z), steps) && z.subscriptions <= z.capacity
    requires g < |After(z, Initial(z), steps).subs| && After(z, Initial(z), steps).subs[g].Sending?
    ensures Enabled(z, After(z, Initial(z), steps), Send(g))
  {
    InitialHolds(z);
    RunKeepsInvariant(z, Initial(z), steps);
    SentCountUpdate(After(z, Initial(z), steps).subs, g, Sending);
  }

  /** The semaphore cannot jam: while a callback is around, one can go on. */
  lemma CallbacksGoOn(z: Sizes, s: State, h: nat)
    requires Invariant(z, s) && z.concurrency > 0 && h < |s.callbacks| && !s.callbacks[h].Left?
    ensures exists k: nat :: Enabled(z, s, Acquire(k)) || Enabled(z, s, Release(k))
  {
    if s.callbacks[h].Waiting? && s.occupied < z.concurrency {
      assert Enabled(z, s, Acquire(h));
    } else {
      var k := SomeHandling(s.callbacks);
      assert Enabled(z, s, Release(k));
    }
  }

  lemma {:induction false} SomeHandling(callbacks: seq<Callback>) returns (k: nat)
    requires InFlight(callbacks) > 0 || exists h :: 0 <= h < |callbacks| && callbacks[h].Handling?
    ensures k < |callbacks| && callbacks[k].Handling? && InFlight(callbacks) > 0
  {
    var n := |callbacks| - 1;
    if callbacks[n].Handling? {
      k := n;
    } else {
      assert forall h | 0 <= h < n :: callbacks[h] == callbacks[..n][h];
      k := SomeHandling(callbacks[..n]);
    }
  }

  // ---------- shutting down ----------

  function Weight(g: Subscription): nat {
    match g
    case Running => 3
    case Sending => 2
    case Cancelling => 1
    case Done(_) => 0
  }

  function Work(subs: seq<Subscription>): nat {
    if subs == [] then 0 else Work(subs[..|subs| - 1]) + Weight(subs[|subs| - 1])
  }

  function Remaining(s: State): nat {
    Work(s.subs) + match s.caller case AwaitsCancel => 2 case AwaitsGroup => 1 case Returned(_) => 0
  }

  lemma {:induction false} WorkUpdate(subs: seq<Subscription>, g: nat, x: Subscription)
    requires g < |subs|
    ensures Work(subs[g := x]) == Work(subs) - Weight(subs[g]) + Weight(x)
  {
    var n := |subs| - 1;
    if g == n {
      assert subs[g := x][..n] == subs[..n];
    } else {
      WorkUpdate(subs[..n], g, x);
      assert subs[g := x][..n] == subs[..n][g := x];
    }
  }

  /** A step of the subscriptions or the caller. */
  predicate OfPool(step: Step) {
    step.StartReturns? || step.Send? || step.Cancel? || step.CallerWakes? || step.CallerReturns?
  }

  /** All Start calls have returned and the context is done. */
  predicate Stopping(s: State) {
    s.cancelled && forall g | 0 <= g < |s.subs| :: !s.subs[g].Running?
  }

  /** Every step of the pool makes the remaining work smaller, and no other step makes it larger. */
  lemma WorkOnlyShrinks(z: Sizes, s: State, step: Step)
    requires Enabled(z, s, step)
    ensures Remaining(Next(z, s, step)) <= Remaining(s)
    ensures OfPool(step) ==> Remaining(Next(z, s, step)) < Remaining(s)
    ensures Stopping(s) ==> Stopping(Next(z, s, step))
  {
    hide Work;
    match step
    case StartReturns(g, failed) => WorkUpdate(s.subs, g, if failed && !s.cancelled then Sending else Done(false));
    case Send(g) => WorkUpdate(s.subs, g, Cancelling);
    case Cancel(g) => WorkUpdate(s.subs, g, Done(true));
    case _ =>
  }

  /** The caller can never return: it waits for subscriptions of which some are stuck in a send
      and no other can ever make room. */
  predicate Deadlocked(z: Sizes, s: State) {
    && !s.caller.Returned? && Stopping(s)
    && (exists g :: 0 <= g < |s.subs| && s.subs[g].Sending?)
    && |s.channel| >= z.capacity
  }

  lemma DeadlockIsForGood(z: Sizes, s: State, step: Step)
    requires Deadlocked(z, s) && Enabled(z, s, step)
    ensures Deadlocked(z, Next(z, s, step))
  {
    var g :| 0 <= g < |s.subs| && s.subs[g].Sending?;
    assert !(step.Send?);
    assert Next(z, s, step).subs[g].Sending?;
  }

  /** While stopping, either the caller has returned, or the pool has a step to take, or it is
      deadlocked. */
  lemma StoppingGoesOn(z: Sizes, s: State) returns (step: Step)
    requires Stopping(s) && !s.caller.Returned? && !Deadlocked(z, s)
    ensures Enabled(z, s, step) && OfPool(step)
  {
    if s.caller.AwaitsCancel? {
      step := CallerWakes;
    } else if g: nat :| g < |s.subs| && s.subs[g].Cancelling? {
      step := Cancel(g);
    } else if g: nat :| g < |s.subs| && s.subs[g].Sending? {
      step := Send(g);
    } else {
      step := CallerReturns;
      assert forall g | 0 <= g < |s.subs| :: s.subs[g].Done?;
    }
  }

  /** runWithSubscriber, whose channel has one place per subscription: once the context is done
      and all Start calls have returned, the wait completes. From any such state, the pool's own
      steps, at most Remaining(s) of them, bring the caller back. */
  lemma {:induction false} ShutdownCompletes(z: Sizes, s: State) returns (steps: seq<Step>)
    requires Invariant(z, s) && z.subscriptions <= z.capacity && Stopping(s)
    ensures CanRun(z, s, steps) && |steps| <= Remaining(s)
    ensures After(z, s, steps).caller.Returned?
    decreases Remaining(s)
  {
    if s.caller.Returned? {
      return [];
    }
    if g: nat :| g < |s.subs| && s.subs[g].Sending? {
      SentCountUpdate(s.subs, g, Sending);
    }
    assert !Deadlocked(z, s);
    var step := StoppingGoesOn(z, s);
    WorkOnlyShrinks(z, s, step);
    StepKeepsInvariant(z, s, step);
    hide Invariant, Stopping, Enabled, Remaining, OfPool, Deadlocked, Next;
    var rest := ShutdownCompletes(z, Next(z, s, step));
    steps := [step] + rest;
    assert steps[0] == step && steps[1..] == rest;
  }

  // ---------- the deadlock of Run ----------

  function AllFail(k: nat): seq<Step> { seq(k, i requires 0 <= i < k => StartReturns(i, true)) }
  function AllSend(k: nat): seq<Step> { seq(k, i requires 0 <= i < k => Send(i)) }
  function AllCancel(k: nat): seq<Step> { seq(k, i requires 0 <= i < k => Cancel(i)) }

  lemma {:induction false} RunAppends(z: Sizes, s: State, first: seq<Step>, second: seq<Step>)
    requires CanRun(z, s, first) && CanRun(z, After(z, s, first), second)
    ensures CanRun(z, s, first + second) && After(z, s, first + second) == After(z, After(z, s, first), second)
    decreases |first|
  {
    hide Enabled, Next;
    if first == [] {
      assert first + second == second;
    } else {
      assert (first + second)[1..] == first[1..] + second;
      RunAppends(z, Next(z, s, first[0]), first[1..], second);
    }
  }

  lemma RunSnoc(z: Sizes, s: State, steps: seq<Step>, step: Step)
    requires CanRun(z, s, steps) && Enabled(z, After(z, s, steps), step)
    ensures CanRun(z, s, steps + [step]) && After(z, s, steps + [step]) == Next(z, After(z, s, steps), step)
  {
    var t := After(z, s, steps);
    assert [step][1..] == [];
    assert CanRun(z, Next(z, t, step), []) && After(z, Next(z, t, step), []) == Next(z, t, step);
    assert CanRun(z, t, [step]) && After(z, t, [step]) == Next(z, t, step);
    RunAppends(z, s, steps, [step]);
  }

  /** The first `k` subscriptions are `x`, the others `y`. */
  function Split(n: nat, k: nat, x: Subscription, y: Subscription): seq<Subscription> {
    seq(n, i => if i < k then x else y)
  }

  lemma {:induction false} FailRun(z: Sizes, k: nat)
    requires k <= z.subscriptions
    ensures CanRun(z, Initial(z), AllFail(k))
    ensures After(z, Initial(z), AllFail(k)) == Initial(z).(subs := Split(z.subscriptions, k, Sending, Running))
  {
    if k == 0 {
      assert Split(z.subscriptions, 0, Sending, Running) == Initial(z).subs;
    } else {
      FailRun(z, k - 1);
      RunSnoc(z, Initial(z), AllFail(k - 1), StartReturns(k - 1, true));
      assert AllFail(k) == AllFail(k - 1) + [StartReturns(k - 1, true)];
      assert Split(z.subscriptions, k - 1, Sending, Running)[k - 1 := Sending] == Split(z.subscriptions, k, Sending, Running);
    }
  }

  function Indices(k: nat): seq<nat> { seq(k, i => i) }

  lemma {:induction false} SendRun(z: Sizes, s: State, k: nat)
    requires k <= z.subscriptions && k <= z.capacity
    requires s == Initial(z).(subs := Split(z.subscriptions, z.subscriptions, Sending, Running))
    ensures CanRun(z, s, AllSend(k))
    ensures After(z, s, AllSend(k)) == s.(subs := Split(z.subscriptions, k, Cancelling, Sending), channel := Indices(k))
  {
    if k == 0 {
      assert Split(z.subscriptions, 0, Cancelling, Sending) == s.subs;
      assert Indices(0) == s.channel;
    } else {
      SendRun(z, s, k - 1);
      RunSnoc(z, s, AllSend(k - 1), Send(k - 1));
      assert AllSend(k) == AllSend(k - 1) + [Send(k - 1)];
      assert Split(z.subscriptions, k - 1, Cancelling, Sending)[k - 1 := Cancelling] == Split(z.subscriptions, k, Cancelling, Sending);
      assert Indices(k) == Indices(k - 1) + [k - 1];
    }
  }

  lemma {:induction false} CancelRun(z: Sizes, s: State, n: nat, k: nat)
    requires k <= n <= z.subscriptions && s.subs == Split(z.subscriptions, n, Cancelling, Sending)
    ensures CanRun(z, s, AllCancel(k))
    ensures var t := After(z, s, AllCancel(k));
      && |t.subs| == |s.subs| && t.channel == s.channel && t.caller == s.caller && (s.cancelled || k > 0 ==> t.cancelled)
      && forall i | 0 <= i < |t.subs| :: t.subs[i] == if i < k then Done(true) else s.subs[i]
  {
    if k > 0 {
      CancelRun(z, s, n, k - 1);
      RunSnoc(z, s, AllCancel(k - 1), Cancel(k - 1));
      assert AllCancel(k) == AllCancel(k - 1) + [Cancel(k - 1)];
    }
  }

  /** With fewer places than subscriptions the pool can deadlock: all Start calls fail before the
      context is cancelled, the errors fill the channel, and the rest wait for room forever. */
  lemma DeadlockIsReachable(z: Sizes) returns (steps: seq<Step>)
    requires z.subscriptions > z.capacity
    ensures CanRun(z, Initial(z), steps) && Deadlocked(z, After(z, Initial(z), steps))
  {
    hide CanRun, After, Initial;
    var n := z.subscriptions;
    FailRun(z, n);
    var s1 := After(z, Initial(z), AllFail(n));
    SendRun(z, s1, z.capacity);
    var s2 := After(z, s1, AllSend(z.capacity));
    CancelRun(z, s2, z.capacity, z.capacity);
    var s3 := After(z, s2, AllCancel(z.capacity));
    RunAppends(z, Initial(z), AllFail(n), AllSend(z.capacity));
    RunAppends(z, Initial(z), AllFail(n) + AllSend(z.capacity), AllCancel(z.capacity));
    var before := AllFail(n) + AllSend(z.capacity) + AllCancel(z.capacity);
    RunSnoc(z, Initial(z), before, ParentCancels);
    steps := before + [ParentCancels];
    assert s3.subs[n - 1].Sending?;
    assert After(z, Initial(z), steps) == s3.(cancelled := true);
    assert s1.caller == AwaitsCancel by { InitialCaller(z); }
  }

  lemma InitialCaller(z: Sizes)
    ensures Initial(z).caller == AwaitsCancel
  {
  }

  /** Exactly then. */
  lemma DeadlockIffTooSmall(z: Sizes)
    ensures (exists steps :: CanRun(z, Initial(z), steps) && Deadlocked(z, After(z, Initial(z), steps)))
      <==> z.subscriptions > z.capacity
  {
    if z.subscriptions > z.capacity {
      var steps := DeadlockIsReachable(z);
    } else {
      forall steps | CanRun(z, Initial(z), steps)
        ensures !Deadlocked(z, After(z, Initial(z), steps))
      {
        var s := After(z, Initial(z), steps);
        InitialHolds(z);
        RunKeepsInvariant(z, Initial(z), steps);
        if g: nat :| g < |s.subs| && s.subs[g].Sending? {
          SentCountUpdate(s.subs, g, Sending);
        }
      }
    }
  }

  // ---------- what Run starts ----------

  /** One subscription for every topic of every driver, in the order of the range loop. */
  function Launched<T(==), K(==)>(groups: map<K, seq<T>>, drivers: seq<K>): seq<(K, T)>
    requires forall d | d in drivers :: d in groups
  {
    if drivers == [] then []
    else
      var d := drivers[|drivers| - 1];
      Launched(groups, drivers[..|drivers| - 1]) + ForEach(d, Unique(groups[d]))
  }

  function ForEach<T, K>(d: K, topics: seq<T>): seq<(K, T)> { seq(|topics|, i requires 0 <= i < |topics| => (d, topics[i])) }

  method Launch<T(==), K(==)>(groups: map<K, seq<T>>, drivers: seq<K>) returns (started: seq<(K, T)>)
    requires forall d | d in drivers :: d in groups
    ensures started == Launched(groups, drivers)
  {
    started := [];
    for i := 0 to |drivers|
      invariant started == Launched(groups, drivers[..i])
    {
      var d := drivers[i];
      assert drivers[..i + 1][..i] == drivers[..i];
      var topics := UniqueOf(groups[d]);
      ghost var before := started;
      hide Launched, Unique;
      for j := 0 to |topics|
        invariant started == before + ForEach(d, topics[..j])
      {
        started := started + [(d, topics[j])];
      }
      assert topics[..|topics|] == topics;
    }
    assert drivers[..|drivers|] == drivers;
  }

  lemma {:induction false} LaunchedSize<T, K>(groups: map<K, seq<T>>, drivers: seq<K>)
    requires forall d | d in drivers :: d in groups && groups[d] != []
    ensures |Launched(groups, drivers)| >= |drivers|
    ensures |Launched(groups, drivers)| > |drivers| <==> exists d :: d in drivers && |Unique(groups[d])| > 1
  {
    if drivers != [] {
      var init, last := drivers[..|drivers| - 1], drivers[|drivers| - 1];
      assert drivers == init + [last];
      LaunchedSize(groups, init);
      UniqueSameMembers(groups[last], groups[last][0]);
      hide Unique;
      assert |ForEach(last, Unique(groups[last]))| == |Unique(groups[last])|;
    }
  }

  /** Run gives its error channel one place per driver: it can deadlock exactly when some driver
      serves more than one topic. */
  lemma RunDeadlocksIffDriverShared<T, K>(groups: map<K, seq<T>>, drivers: seq<K>, concurrency: nat)
    requires forall d | d in drivers :: d in groups && groups[d] != []
    ensures var z := Sizes(|Launched(groups, drivers)|, |drivers|, concurrency);
      (exists steps :: CanRun(z, Initial(z), steps) && Deadlocked(z, After(z, Initial(z), steps)))
      <==> exists d :: d in drivers && |Unique(groups[d])| > 1
  {
    LaunchedSize(groups, drivers);
    DeadlockIffTooSmall(Sizes(|Launched(groups, drivers)|, |drivers|, concurrency));
    hide *;
  }
}
