/** Overlapping refreshes of the driver cache (pkg/drivers/cache.go): no lock is held across a
    refresh, only each Get, Set and Delete of the two maps is atomic. A refresh is a thread of such
    steps, and the steps of all threads may come in any order. */
module DriverCacheRaces {
  import opened GoText
  import opened DriverCache

  /** What a refresh will do with its key, if its listing and its broker do not fail it. Close is a
      removal of every cached key (`ClosingIsRemoving`). */
  datatype Plan = Rebuild(cfg: Config) | Remove

  /** Before anything; with a new publisher in hand; having looked up the old one; having closed
      it; between the two map writes; finished. `made` is the new publisher of a rebuild, `was` what
      the lookup found. */
  datatype Stage =
    | Ready
    | Made(p: nat)
    | Seen(made: Option<nat>, was: Option<nat>)
    | Shut(made: Option<nat>, was: Option<nat>)
    | Half(made: Option<nat>, was: Option<nat>)
    | Done

  datatype Thread = Thread(key: string, plan: Plan, stage: Stage)

  datatype Racing = Racing(cache: State, threads: seq<Thread>)

  const START := Racing(EMPTY, [])

  /** A rebuild writes the configuration first and the publisher second; a removal deletes the
      publisher first and the configuration second. */
  datatype Step =
    | Begin(key: string, plan: Plan)
    | Fail(i: nat)
    | Build(i: nat)
    | Look(i: nat)
    | CloseOld(i: nat)
    | WriteFirst(i: nat)
    | WriteSecond(i: nat)

  /** Publishers are in the hands of rebuilds only; so it is in every run (`PendingOk`). */
  predicate WellStaged(t: Thread) {
    (t.stage.Made? ==> t.plan.Rebuild?) && (InWindow(t) ==> (t.plan.Rebuild? <==> t.stage.made.Some?))
  }

  predicate Enabled(s: Racing, step: Step) {
    step.Begin? ||
    (step.i < |s.threads| && WellStaged(s.threads[step.i]) &&
     var t := s.threads[step.i];
     match step
     case Begin(_, _) => true
     case Fail(_) => t.stage.Ready?
     case Build(_) => t.stage.Ready? && t.plan.Rebuild?
     case Look(_) => if t.plan.Rebuild? then t.stage.Made? else t.stage.Ready?
     case CloseOld(_) => t.stage.Seen?
     case WriteFirst(_) => t.stage.Shut?
     case WriteSecond(_) => t.stage.Half?)
  }

  function Cached(c: State, key: string): Option<nat> { if key in c.pub then Some(c.pub[key]) else None }

  /** What a step makes of its thread's stage. */
  function StageAfter(c: State, t: Thread, step: Step): Stage
    requires WellStaged(t) && (step.CloseOld? || step.WriteFirst? ==> InWindow(t)) && (step.Look? && t.plan.Rebuild? ==> t.stage.Made?)
  {
    match step
    case Begin(_, _) => t.stage
    case Fail(_) => Done
    case Build(_) => Made(c.built)
    case Look(_) => Seen(if t.plan.Rebuild? then Some(t.stage.p) else None, Cached(c, t.key))
    case CloseOld(_) => Shut(t.stage.made, t.stage.was)
    case WriteFirst(_) => Half(t.stage.made, t.stage.was)
    case WriteSecond(_) => Done
  }

  function CacheAfter(c: State, t: Thread, step: Step): State
    requires WellStaged(t) && (step.CloseOld? || step.WriteSecond? ==> InWindow(t))
  {
    match step
    case Build(_) => c.(built := c.built + 1)
    case CloseOld(_) => if t.stage.was.Some? then c.(closed := c.closed + multiset{t.stage.was.value}) else c
    case WriteFirst(_) => if t.plan.Rebuild? then c.(config := c.config[t.key := t.plan.cfg]) else c.(pub := c.pub - {t.key})
    case WriteSecond(_) => if t.plan.Rebuild? then c.(pub := c.pub[t.key := t.stage.made.value]) else c.(config := c.config - {t.key})
    case _ => c
  }

  function Next(s: Racing, step: Step): Racing
    requires Enabled(s, step)
  {
    match step
    case Begin(key, plan) => s.(threads := s.threads + [Thread(key, plan, Ready)])
    case _ =>
      var t := s.threads[step.i];
      Racing(CacheAfter(s.cache, t, step), s.threads[step.i := t.(stage := StageAfter(s.cache, t, step))])
  }

  predicate CanRun(s: Racing, steps: seq<Step>)
    decreases |steps|
  {
    steps == [] || (Enabled(s, steps[0]) && CanRun(Next(s, steps[0]), steps[1..]))
  }

  function After(s: Racing, steps: seq<Step>): Racing
    requires CanRun(s, steps)
    decreases |steps|
  {
    if steps == [] then s else After(Next(s, steps[0]), steps[1..])
  }

  /** All refreshes are over. */
  predicate Quiet(s: Racing) { forall i | 0 <= i < |s.threads| :: s.threads[i].stage.Done? }

  /** From the lookup of the old publisher to the last map write. */
  predicate InWindow(t: Thread) { t.stage.Seen? || t.stage.Shut? || t.stage.Half? }

  // ---------- the tally of a schedule ----------

  /** What the order of the steps tells: `live` are the keys with a cached publisher, each with the
      number of lookups since that publisher was cached; `conf` the keys with a configuration; `bad`
      whether some publisher was replaced or deleted after none or several lookups. `maker` are
      the threads of the Build steps. */
  datatype Tally = Tally(live: map<string, nat>, conf: set<string>, bad: bool, maker: seq<nat>)

  const NOTHING := Tally(map[], {}, false, [])

  predicate WritesPub(t: Thread, step: Step) { if t.plan.Rebuild? then step.WriteSecond? else step.WriteFirst? }

  predicate WritesConfig(t: Thread, step: Step) { if t.plan.Rebuild? then step.WriteFirst? else step.WriteSecond? }

  function TallyNext(t: Tally, s: Racing, step: Step): Tally
    requires Enabled(s, step)
  {
    if step.Begin? then t
    else
      var th := s.threads[step.i];
      if step.Build? then t.(maker := t.maker + [step.i])
      else if step.Look? then (if th.key in t.live then t.(live := t.live[th.key := t.live[th.key] + 1]) else t)
      else if WritesPub(th, step) then
        t.(live := if th.plan.Rebuild? then t.live[th.key := 0] else t.live - {th.key},
           bad := t.bad || (th.key in t.live && t.live[th.key] != 1))
      else if WritesConfig(th, step) then t.(conf := if th.plan.Rebuild? then t.conf + {th.key} else t.conf - {th.key})
      else t
  }

  function TallyAfter(t: Tally, s: Racing, steps: seq<Step>): Tally
    requires CanRun(s, steps)
    decreases |steps|
  {
    if steps == [] then t else TallyAfter(TallyNext(t, s, steps[0]), Next(s, steps[0]), steps[1..])
  }

  /** Every publisher was looked up by exactly one refresh before it left the cache, none of those
      cached was looked up since, and the last writes to the two maps agree on every key. */
  predicate SeenOnce(t: Tally) {
    !t.bad && (forall k | k in t.live :: t.live[k] == 0) && t.conf == t.live.Keys
  }

  // ---------- the tally accounts for the publishers ----------

  predicate WillClose(t: Thread, p: nat) { t.stage.Seen? && t.stage.was == Some(p) }

  /** The closes of a publisher still to come. */
  function ToClose(ts: seq<Thread>, p: nat): nat {
    if ts == [] then 0 else ToClose(ts[..|ts| - 1], p) + if WillClose(ts[|ts| - 1], p) then 1 else 0
  }

  lemma {:induction false} ToCloseUpdate(ts: seq<Thread>, i: nat, t: Thread, p: nat)
    requires i < |ts|
    ensures ToClose(ts[i := t], p) == ToClose(ts, p) - (if WillClose(ts[i], p) then 1 else 0) + if WillClose(t, p) then 1 else 0
  {
    var n := |ts| - 1;
    if i == n {
      assert ts[i := t][..n] == ts[..n];
    } else {
      ToCloseUpdate(ts[..n], i, t, p);
      assert ts[i := t][..n] == ts[..n][i := t];
    }
  }

  lemma {:induction false} NoneToClose(ts: seq<Thread>, p: nat)
    requires forall i | 0 <= i < |ts| :: ts[i].stage.Done?
    ensures ToClose(ts, p) == 0
  {
    if ts != [] {
      NoneToClose(ts[..|ts| - 1], p);
    }
  }

  /** The closes of a publisher, done and to come: one per lookup that found it. */
  function Claims(s: Racing, p: nat): nat { s.cache.closed[p] + ToClose(s.threads, p) }

  /** The publisher a thread has built and not yet cached. */
  function Pending(t: Thread): Option<nat> {
    match t.stage
    case Made(p) => Some(p)
    case Seen(made, _) => made
    case Shut(made, _) => made
    case Half(made, _) => made
    case _ => None
  }

  /** In the hands of the thread that built it. */
  predicate InHand(s: Racing, t: Tally, p: nat) {
    p < |t.maker| && t.maker[p] < |s.threads| && Pending(s.threads[t.maker[p]]) == Some(p)
  }

  /** Built, and neither cached nor in hand. */
  predicate Gone(s: Racing, t: Tally, p: nat) { p < s.cache.built && p !in s.cache.pub.Values && !InHand(s, t, p) }

  /** Both maps have the keys that the tally says. */
  ghost predicate SameKeys(s: Racing, t: Tally) {
    t.live.Keys == s.cache.pub.Keys && t.conf == s.cache.config.Keys && |t.maker| == s.cache.built
  }

  /** Each cached publisher is cached once, and has as many closes as lookups. */
  ghost predicate CachedOk(s: Racing, t: Tally) {
    && (forall k | k in s.cache.pub :: k in t.live && s.cache.pub[k] < s.cache.built && Claims(s, s.cache.pub[k]) == t.live[k])
    && (forall k, l | k in s.cache.pub && l in s.cache.pub && k != l :: s.cache.pub[k] != s.cache.pub[l])
  }

  /** Publishers in hand are new, unclosed, and with their makers. */
  ghost predicate PendingOk(s: Racing, t: Tally) {
    && (forall i | 0 <= i < |s.threads| :: WellStaged(s.threads[i]))
    && (forall i | 0 <= i < |s.threads| && Pending(s.threads[i]).Some? ::
          var p := Pending(s.threads[i]).value;
          p < |t.maker| && t.maker[p] == i && p !in s.cache.pub.Values && Claims(s, p) == 0)
    && (forall p: nat | p >= s.cache.built :: Claims(s, p) == 0)
  }

  ghost predicate Tallied(s: Racing, t: Tally) {
    && SameKeys(s, t) && CachedOk(s, t) && PendingOk(s, t)
    && (t.bad <==> exists p :: Gone(s, t, p) && Claims(s, p) != 1)
  }

  lemma StartTallied()
    ensures Tallied(START, NOTHING)
  {
  }

  /** What a step does to the closes of a publisher. */
  lemma ClaimsAfter(s: Racing, step: Step, p: nat)
    requires Enabled(s, step)
    ensures Claims(Next(s, step), p) == Claims(s, p) + if step.Look? && Cached(s.cache, s.threads[step.i].key) == Some(p) then 1 else 0
  {
    if step.Begin? {
      ToCloseSnoc(s.threads, Thread(step.key, step.plan, Ready), p);
    } else {
      var u, was := Next(s, step), s.threads[step.i];
      var now := u.threads[step.i];
      assert u.threads == s.threads[step.i := now];
      assert u.cache.closed[p] == s.cache.closed[p] + if step.CloseOld? && WillClose(was, p) then 1 else 0;
      assert WillClose(now, p) == (step.Look? && Cached(s.cache, was.key) == Some(p));
      assert WillClose(was, p) ==> step.CloseOld?;
      hide Next, ToClose, Enabled, WillClose, Cached;
      ToCloseUpdate(s.threads, step.i, now, p);
    }
  }

  lemma ToCloseSnoc(ts: seq<Thread>, t: Thread, p: nat)
    ensures ToClose(ts + [t], p) == ToClose(ts, p) + if WillClose(t, p) then 1 else 0
  {
    assert (ts + [t])[..|ts|] == ts;
  }

  lemma BeginTallied(s: Racing, t: Tally, step: Step)
    requires Tallied(s, t) && step.Begin?
    ensures Tallied(Next(s, step), t)
  {
    var u := Next(s, step);
    forall p: nat ensures Claims(u, p) == Claims(s, p) && (Gone(u, t, p) <==> Gone(s, t, p)) {
      ClaimsAfter(s, step, p);
    }
    CachedStays(s, u, t, t);
    BadStays(s, u, t, t);
    hide Claims, InHand, Gone, CachedOk;
  }

  /** Nothing has come into the publisher map or gone from it, and no lookup was made. */
  lemma CachedStays(s: Racing, u: Racing, t: Tally, n: Tally)
    requires CachedOk(s, t) && u.cache.pub == s.cache.pub && u.cache.built >= s.cache.built && n.live == t.live
    requires forall p: nat :: Claims(u, p) == Claims(s, p)
    ensures CachedOk(u, n)
  {
    hide Claims;
  }

  lemma BadStays(s: Racing, u: Racing, t: Tally, n: Tally)
    requires (t.bad <==> exists p :: Gone(s, t, p) && Claims(s, p) != 1) && n.bad == t.bad
    requires forall p: nat :: Claims(u, p) == Claims(s, p) && (Gone(u, n, p) <==> Gone(s, t, p))
    ensures n.bad <==> exists p :: Gone(u, n, p) && Claims(u, p) != 1
  {
    hide Claims, Gone;
  }

  /** Fail, CloseOld and the writes of configurations. */
  lemma AsideTallied(s: Racing, t: Tally, step: Step)
    requires Tallied(s, t) && Enabled(s, step) && !step.Begin? && !step.Build? && !step.Look? && !WritesPub(s.threads[step.i], step)
    ensures Tallied(Next(s, step), TallyNext(t, s, step))
  {
    var u, n := Next(s, step), TallyNext(t, s, step);
    assert u.cache.pub == s.cache.pub && u.cache.built == s.cache.built && SameKeys(u, n);
    assert n.live == t.live && n.bad == t.bad;
    hide CachedOk, PendingOk, SameKeys, Claims, Gone, Next, TallyNext;
    forall p: nat ensures Claims(u, p) == Claims(s, p) && (Gone(u, n, p) <==> Gone(s, t, p)) {
      AsideAfter(s, t, step, p);
    }
    AsidePendingOk(s, t, step);
    CachedStays(s, u, t, n);
    BadStays(s, u, t, n);
  }

  lemma AsideAfter(s: Racing, t: Tally, step: Step, p: nat)
    requires Tallied(s, t) && Enabled(s, step) && !step.Begin? && !step.Build? && !step.Look? && !WritesPub(s.threads[step.i], step)
    ensures var u, n := Next(s, step), TallyNext(t, s, step);
      Claims(u, p) == Claims(s, p) && (Gone(u, n, p) <==> Gone(s, t, p))
  {
    ClaimsAfter(s, step, p);
    hide Claims, Tallied;
  }

  lemma AsidePendingOk(s: Racing, t: Tally, step: Step)
    requires Tallied(s, t) && Enabled(s, step) && !step.Begin? && !step.Build? && !step.Look? && !WritesPub(s.threads[step.i], step)
    requires forall p: nat :: Claims(Next(s, step), p) == Claims(s, p)
    ensures PendingOk(Next(s, step), TallyNext(t, s, step))
  {
    var u, n, th := Next(s, step), TallyNext(t, s, step), s.threads[step.i];
    assert u.cache.pub == s.cache.pub && u.cache.built == s.cache.built && n.maker == t.maker;
    assert Pending(u.threads[step.i]) == Pending(th) && WellStaged(u.threads[step.i]);
    assert forall j | 0 <= j < |s.threads| && j != step.i :: u.threads[j] == s.threads[j];
    hide Claims, Next, TallyNext, Pending, WellStaged, Gone, CachedOk;
  }

  lemma BuildTallied(s: Racing, t: Tally, step: Step)
    requires Tallied(s, t) && Enabled(s, step) && step.Build?
    ensures Tallied(Next(s, step), TallyNext(t, s, step))
  {
    var u, n := Next(s, step), TallyNext(t, s, step);
    assert n.live == t.live && n.bad == t.bad;
    forall p: nat ensures Claims(u, p) == Claims(s, p) && (Gone(u, n, p) <==> Gone(s, t, p)) {
      ClaimsAfter(s, step, p);
    }
    CachedStays(s, u, t, n);
    BadStays(s, u, t, n);
    hide Claims, InHand, Gone, CachedOk;
  }

  /** What a lookup does to one publisher. */
  lemma LookAfter(s: Racing, t: Tally, step: Step, p: nat)
    requires Tallied(s, t) && Enabled(s, step) && step.Look?
    ensures var u, n, was := Next(s, step), TallyNext(t, s, step), Cached(s.cache, s.threads[step.i].key);
      && Claims(u, p) == Claims(s, p) + (if was == Some(p) then 1 else 0)
      && (Gone(u, n, p) <==> Gone(s, t, p))
      && (was == Some(p) ==> p in s.cache.pub.Values)
  {
    ClaimsAfter(s, step, p);
    var u, n, th := Next(s, step), TallyNext(t, s, step), s.threads[step.i];
    assert Pending(u.threads[step.i]) == Pending(th) && u.cache == s.cache && n.maker == t.maker;
    assert forall j | 0 <= j < |s.threads| && j != step.i :: u.threads[j] == s.threads[j];
    hide Claims, Next, TallyNext, Pending, Tallied;
  }

  lemma LookTallied(s: Racing, t: Tally, step: Step)
    requires Tallied(s, t) && Enabled(s, step) && step.Look?
    ensures Tallied(Next(s, step), TallyNext(t, s, step))
  {
    var u, n, th := Next(s, step), TallyNext(t, s, step), s.threads[step.i];
    var was := Cached(s.cache, th.key);
    forall p: nat
      ensures Claims(u, p) == Claims(s, p) + if was == Some(p) then 1 else 0
      ensures Gone(u, n, p) <==> Gone(s, t, p)
      ensures was == Some(p) ==> p in s.cache.pub.Values
    {
      LookAfter(s, t, step, p);
    }
    assert u.cache == s.cache && n.conf == t.conf && n.bad == t.bad && n.maker == t.maker;
    assert SameKeys(u, n);
    LookCachedOk(s, t, step);
    LookPendingOk(s, t, step);
    hide Claims, InHand, Next, TallyNext, Pending, WellStaged, CachedOk, PendingOk, SameKeys;
    assert forall p | Gone(s, t, p) :: Claims(u, p) == Claims(s, p);
    hide Gone;
  }

  lemma LookCachedOk(s: Racing, t: Tally, step: Step)
    requires Tallied(s, t) && Enabled(s, step) && step.Look?
    requires forall p: nat :: Claims(Next(s, step), p) == Claims(s, p) + if Cached(s.cache, s.threads[step.i].key) == Some(p) then 1 else 0
    ensures CachedOk(Next(s, step), TallyNext(t, s, step))
  {
    var u, n, th := Next(s, step), TallyNext(t, s, step), s.threads[step.i];
    assert u.cache == s.cache;
    assert n.live == if th.key in t.live then t.live[th.key := t.live[th.key] + 1] else t.live;
    hide Claims, Next, TallyNext, Gone, PendingOk;
  }

  lemma LookPendingOk(s: Racing, t: Tally, step: Step)
    requires Tallied(s, t) && Enabled(s, step) && step.Look?
    requires forall p: nat :: Claims(Next(s, step), p) == Claims(s, p) + if Cached(s.cache, s.threads[step.i].key) == Some(p) then 1 else 0
    ensures PendingOk(Next(s, step), TallyNext(t, s, step))
  {
    var u, n, th := Next(s, step), TallyNext(t, s, step), s.threads[step.i];
    assert u.cache == s.cache && n.maker == t.maker;
    assert Cached(s.cache, th.key).Some? ==> Cached(s.cache, th.key).value in s.cache.pub.Values && Cached(s.cache, th.key).value < s.cache.built;
    assert Pending(u.threads[step.i]) == Pending(th) && WellStaged(u.threads[step.i]);
    assert forall j | 0 <= j < |s.threads| && j != step.i :: u.threads[j] == s.threads[j];
    hide Claims, Next, TallyNext, Pending, WellStaged, Gone, CachedOk, Cached;
  }

  /** What a write to the publisher map does to one publisher. */
  lemma PubAfter(s: Racing, t: Tally, step: Step, p: nat)
    requires Tallied(s, t) && Enabled(s, step) && !step.Begin? && WritesPub(s.threads[step.i], step)
    ensures var u, n, th := Next(s, step), TallyNext(t, s, step), s.threads[step.i];
      && Claims(u, p) == Claims(s, p)
      && (p in u.cache.pub.Values <==> (p in s.cache.pub.Values && Cached(s.cache, th.key) != Some(p)) || (th.plan.Rebuild? && Pending(th) == Some(p)))
      && (InHand(u, n, p) <==> InHand(s, t, p) && !(th.plan.Rebuild? && Pending(th) == Some(p)))
      && (Gone(u, n, p) <==> Gone(s, t, p) || Cached(s.cache, th.key) == Some(p))
  {
    ClaimsAfter(s, step, p);
    var u, n, th := Next(s, step), TallyNext(t, s, step), s.threads[step.i];
    assert Injective(s.cache.pub);
    if th.plan.Rebuild? {
      ValuesWith(s.cache.pub, th.key, th.stage.made.value, p);
    } else {
      ValuesWithout(s.cache.pub, th.key, p);
    }
    assert u.cache.built == s.cache.built && n.maker == t.maker;
    assert Pending(u.threads[step.i]) == if th.plan.Rebuild? then None else Pending(th);
    hide Claims;
  }

  lemma PubTallied(s: Racing, t: Tally, step: Step)
    requires Tallied(s, t) && Enabled(s, step) && !step.Begin? && WritesPub(s.threads[step.i], step)
    ensures Tallied(Next(s, step), TallyNext(t, s, step))
  {
    var u, n, th := Next(s, step), TallyNext(t, s, step), s.threads[step.i];
    forall p: nat
      ensures Claims(u, p) == Claims(s, p)
      ensures p in u.cache.pub.Values <==> (p in s.cache.pub.Values && Cached(s.cache, th.key) != Some(p)) || (th.plan.Rebuild? && Pending(th) == Some(p))
      ensures Gone(u, n, p) <==> Gone(s, t, p) || Cached(s.cache, th.key) == Some(p)
    {
      PubAfter(s, t, step, p);
    }
    PubCachedOk(s, t, step);
    PubPendingOk(s, t, step);
    assert u.cache.built == s.cache.built && n.maker == t.maker && n.conf == t.conf;
    assert n.bad <==> t.bad || (th.key in t.live && t.live[th.key] != 1);
    assert SameKeys(u, n);
    hide Claims, Gone, Next, TallyNext, Pending, PendingOk;
  }

  lemma PubCachedOk(s: Racing, t: Tally, step: Step)
    requires Tallied(s, t) && Enabled(s, step) && !step.Begin? && WritesPub(s.threads[step.i], step)
    requires forall p: nat :: Claims(Next(s, step), p) == Claims(s, p)
    ensures CachedOk(Next(s, step), TallyNext(t, s, step))
  {
    var u, n, th := Next(s, step), TallyNext(t, s, step), s.threads[step.i];
    PubStep(s, t, step);
    if th.plan.Rebuild? {
      assert Pending(th) == Some(th.stage.made.value);
      hide Claims, Next, TallyNext, Pending, Gone;
      PutOk(s, t, u, n, th.key, th.stage.made.value);
    } else {
      hide Claims, Next, TallyNext, Pending, Gone, PendingOk;
    }
  }

  lemma PutOk(s: Racing, t: Tally, u: Racing, n: Tally, key: string, p: nat)
    requires CachedOk(s, t) && p < s.cache.built && p !in s.cache.pub.Values && Claims(s, p) == 0
    requires u.cache.pub == s.cache.pub[key := p] && n.live == t.live[key := 0] && u.cache.built == s.cache.built
    requires forall q: nat :: Claims(u, q) == Claims(s, q)
    ensures CachedOk(u, n)
  {
    assert forall k | k in s.cache.pub :: s.cache.pub[k] in s.cache.pub.Values && s.cache.pub[k] != p;
    hide Claims;
  }

  lemma PubStep(s: Racing, t: Tally, step: Step)
    requires Enabled(s, step) && !step.Begin? && WritesPub(s.threads[step.i], step)
    ensures var u, n, th := Next(s, step), TallyNext(t, s, step), s.threads[step.i];
      && u.cache.pub == (if th.plan.Rebuild? then s.cache.pub[th.key := th.stage.made.value] else s.cache.pub - {th.key})
      && n.live == (if th.plan.Rebuild? then t.live[th.key := 0] else t.live - {th.key})
      && u.cache.built == s.cache.built && n.maker == t.maker && n.conf == t.conf
      && (n.bad <==> t.bad || (th.key in t.live && t.live[th.key] != 1))
  {
  }

  lemma PubPendingOk(s: Racing, t: Tally, step: Step)
    requires Tallied(s, t) && Enabled(s, step) && !step.Begin? && WritesPub(s.threads[step.i], step)
    requires forall p: nat :: Claims(Next(s, step), p) == Claims(s, p)
    requires var u, th := Next(s, step), s.threads[step.i];
      forall p: nat | p in u.cache.pub.Values :: p in s.cache.pub.Values || (th.plan.Rebuild? && Pending(th) == Some(p))
    ensures PendingOk(Next(s, step), TallyNext(t, s, step))
  {
    var u, n, th := Next(s, step), TallyNext(t, s, step), s.threads[step.i];
    assert u.cache.built == s.cache.built && n.maker == t.maker;
    assert Pending(u.threads[step.i]) == (if th.plan.Rebuild? then None else Pending(th)) && WellStaged(u.threads[step.i]);
    assert forall j | 0 <= j < |s.threads| && j != step.i :: u.threads[j] == s.threads[j];
    hide Claims, Next, TallyNext, Pending, Gone, CachedOk, WellStaged;
  }

  lemma StepTallied(s: Racing, t: Tally, step: Step)
    requires Tallied(s, t) && Enabled(s, step)
    ensures Tallied(Next(s, step), TallyNext(t, s, step))
  {
    if step.Begin? {
      BeginTallied(s, t, step);
    } else if step.Build? {
      BuildTallied(s, t, step);
    } else if step.Look? {
      LookTallied(s, t, step);
    } else if WritesPub(s.threads[step.i], step) {
      PubTallied(s, t, step);
    } else {
      AsideTallied(s, t, step);
    }
  }

  lemma {:induction false} RunTallied(s: Racing, t: Tally, steps: seq<Step>)
    requires Tallied(s, t) && CanRun(s, steps)
    ensures Tallied(After(s, steps), TallyAfter(t, s, steps))
    decreases |steps|
  {
    if steps != [] {
      StepTallied(s, t, steps[0]);
      hide Tallied, Enabled, Next, TallyNext;
      RunTallied(Next(s, steps[0]), TallyNext(t, s, steps[0]), steps[1..]);
    }
  }

  lemma QuietConservedIff(s: Racing, t: Tally)
    requires Tallied(s, t) && Quiet(s)
    ensures Conserved(s.cache) <==> SeenOnce(t)
  {
    forall p: nat ensures Claims(s, p) == s.cache.closed[p] && !InHand(s, t, p) {
      NoneToClose(s.threads, p);
    }
    hide Claims, InHand, PendingOk;
    assert forall p: nat | p >= s.cache.built :: s.cache.closed[p] == 0;
    if Conserved(s.cache) {
      forall p | Gone(s, t, p) ensures Claims(s, p) == 1 {
      }
      forall k | k in t.live ensures t.live[k] == 0 {
        assert s.cache.pub[k] in s.cache.pub.Values;
      }
    }
    if SeenOnce(t) {
      forall p: nat ensures s.cache.closed[p] == if p < s.cache.built && p !in s.cache.pub.Values then 1 else 0 {
        if p in s.cache.pub.Values {
          var k :| k in s.cache.pub && s.cache.pub[k] == p;
        } else if p < s.cache.built {
          assert Gone(s, t, p);
        }
      }
    }
  }

  /** Whatever the refreshes do and however they overlap: once all are over, every publisher ever
      built is cached and open or closed exactly once, and both maps have the same keys, if and
      only if the order of the steps is one in which every publisher was looked up once before it
      left the cache, none of those left was looked up, and the last writes to the two maps agree. */
  lemma ConservedIffSeenOnce(steps: seq<Step>)
    requires CanRun(START, steps) && Quiet(After(START, steps))
    ensures Conserved(After(START, steps).cache) <==> SeenOnce(TallyAfter(NOTHING, START, steps))
  {
    StartTallied();
    RunTallied(START, NOTHING, steps);
    QuietConservedIff(After(START, steps), TallyAfter(NOTHING, START, steps));
  }

  // ---------- overlaps ----------

  /** Two refreshes of one key in their windows, unless both remove and one of them saw nothing. */
  predicate Clash(a: Thread, b: Thread) {
    && a.key == b.key && InWindow(a) && InWindow(b)
    && (a.plan.Rebuild? || b.plan.Rebuild? || (a.stage.was.Some? && b.stage.was.Some?))
  }

  predicate Apart(s: Racing) {
    forall i, j | 0 <= i < |s.threads| && 0 <= j < |s.threads| && i != j :: !Clash(s.threads[i], s.threads[j])
  }

  predicate AlwaysApart(s: Racing, steps: seq<Step>)
    requires CanRun(s, steps)
    decreases |steps|
  {
    Apart(s) && (steps == [] || AlwaysApart(Next(s, steps[0]), steps[1..]))
  }

  /** No removal in its window meets a rebuild of the same key in its own. */
  predicate Unmixed(s: Racing) {
    forall i, j | 0 <= i < |s.threads| && 0 <= j < |s.threads| && InWindow(s.threads[i]) && InWindow(s.threads[j]) && s.threads[i].key == s.threads[j].key ::
      s.threads[i].plan.Rebuild? == s.threads[j].plan.Rebuild?
  }

  predicate NeverMixed(s: Racing, steps: seq<Step>)
    requires CanRun(s, steps)
    decreases |steps|
  {
    Unmixed(s) && (steps == [] || NeverMixed(Next(s, steps[0]), steps[1..]))
  }

  // ---------- without a clash ----------

  /** It saw a publisher that is still cached. */
  predicate Claiming(t: Thread) {
    InWindow(t) && t.stage.was.Some? && (t.plan.Rebuild? || !t.stage.Half?)
  }

  /** A thread in its window has claimed the publisher of its key, or there is none. */
  predicate ClaimsOk(s: Racing, t: Tally) {
    forall i | 0 <= i < |s.threads| && InWindow(s.threads[i]) ::
      var key := s.threads[i].key;
      if Claiming(s.threads[i]) then key in t.live && t.live[key] == 1 else key !in t.live
  }

  predicate Claimed(s: Racing, key: string) { exists i :: 0 <= i < |s.threads| && s.threads[i].key == key && Claiming(s.threads[i]) }

  predicate HalfWay(s: Racing, key: string) { exists i :: 0 <= i < |s.threads| && s.threads[i].key == key && s.threads[i].stage.Half? }

  /** The two maps agree but between the two writes of a thread. */
  ghost predicate ConfigOk(s: Racing, t: Tally) {
    && (forall k: string :: (k in t.conf <==> k in t.live) || HalfWay(s, k))
    && (forall i | 0 <= i < |s.threads| && s.threads[i].stage.Half? && s.threads[i].plan.Rebuild? :: s.threads[i].key in t.conf)
  }

  ghost predicate Orderly(s: Racing, t: Tally) {
    && !t.bad && ClaimsOk(s, t) && ConfigOk(s, t)
    && (forall k | k in t.live :: t.live[k] == 0 || Claimed(s, k))
  }

  /** What every step leaves of the others. */
  lemma OthersStay(s: Racing, step: Step)
    requires Enabled(s, step)
    ensures var u := Next(s, step);
      && |s.threads| <= |u.threads|
      && (forall j | 0 <= j < |u.threads| :: (j < |s.threads| && (step.Begin? || j != step.i) && u.threads[j] == s.threads[j])
           || (step.Begin? && j == |s.threads| && u.threads[j].stage.Ready?) || (!step.Begin? && j == step.i))
      && (!step.Begin? ==> |u.threads| == |s.threads| && u.threads[step.i].key == s.threads[step.i].key && u.threads[step.i].plan == s.threads[step.i].plan)
  {
  }

  lemma ClaimsStayOk(s: Racing, t: Tally, step: Step)
    requires SameKeys(s, t) && Orderly(s, t) && Enabled(s, step) && Apart(s) && Apart(Next(s, step))
    ensures ClaimsOk(Next(s, step), TallyNext(t, s, step)) && !TallyNext(t, s, step).bad
  {
    OthersStay(s, step);
    var u, n := Next(s, step), TallyNext(t, s, step);
    if !step.Begin? {
      var i, th := step.i, s.threads[step.i];
      forall j | 0 <= j < |s.threads| && j != i && InWindow(s.threads[j]) && s.threads[j].key == th.key
        ensures !Clash(th, s.threads[j]) && !Clash(u.threads[i], u.threads[j])
      {
      }
      assert step.Look? && th.key in t.live ==> !Claimed(s, th.key);
    }
    hide ConfigOk, Claimed, HalfWay;
  }

  lemma ClaimedStays(s: Racing, t: Tally, step: Step, k: string)
    requires SameKeys(s, t) && Orderly(s, t) && Enabled(s, step) && k in TallyNext(t, s, step).live
    ensures TallyNext(t, s, step).live[k] == 0 || Claimed(Next(s, step), k)
  {
    OthersStay(s, step);
    var u, n := Next(s, step), TallyNext(t, s, step);
    if n.live[k] != 0 {
      if step.Look? && s.threads[step.i].key == k {
        assert Claiming(u.threads[step.i]);
      } else {
        var j :| 0 <= j < |s.threads| && s.threads[j].key == k && Claiming(s.threads[j]);
        assert Claiming(u.threads[j]);
      }
    }
  }

  lemma ConfigStaysOk(s: Racing, t: Tally, step: Step)
    requires SameKeys(s, t) && Orderly(s, t) && Enabled(s, step) && Apart(s)
    ensures ConfigOk(Next(s, step), TallyNext(t, s, step))
  {
    OthersStay(s, step);
    var u, n := Next(s, step), TallyNext(t, s, step);
    forall k: string ensures (k in n.conf <==> k in n.live) || HalfWay(u, k) {
      assert (k in t.conf <==> k in t.live) || HalfWay(s, k);
      if HalfWay(s, k) {
        var j :| 0 <= j < |s.threads| && s.threads[j].key == k && s.threads[j].stage.Half?;
        assert u.threads[j].stage.Half? || (step.WriteSecond? && step.i == j);
      }
      if step.WriteFirst? && s.threads[step.i].key == k {
        assert u.threads[step.i].stage.Half?;
      }
    }
    forall j | 0 <= j < |u.threads| && u.threads[j].stage.Half? && u.threads[j].plan.Rebuild? ensures u.threads[j].key in n.conf {
      if !step.Begin? && step.i != j && s.threads[step.i].key == s.threads[j].key {
        assert !Clash(s.threads[step.i], s.threads[j]);
      }
    }
  }

  lemma StepStaysOrderly(s: Racing, t: Tally, step: Step)
    requires SameKeys(s, t) && Orderly(s, t) && Enabled(s, step) && Apart(s) && Apart(Next(s, step))
    ensures Orderly(Next(s, step), TallyNext(t, s, step))
  {
    ClaimsStayOk(s, t, step);
    ConfigStaysOk(s, t, step);
    forall k | k in TallyNext(t, s, step).live ensures TallyNext(t, s, step).live[k] == 0 || Claimed(Next(s, step), k) {
      ClaimedStays(s, t, step, k);
    }
  }

  lemma {:induction false} ApartIsSeenOnce(s: Racing, t: Tally, steps: seq<Step>)
    requires Tallied(s, t) && Orderly(s, t) && CanRun(s, steps) && AlwaysApart(s, steps)
    ensures Quiet(After(s, steps)) ==> SeenOnce(TallyAfter(t, s, steps))
    decreases |steps|
  {
    if steps == [] {
      hide Tallied;
      if Quiet(s) {
        assert t.conf == t.live.Keys;
      }
    } else {
      StepTallied(s, t, steps[0]);
      StepStaysOrderly(s, t, steps[0]);
      hide Tallied, Orderly, Quiet, SeenOnce, Apart, Enabled, Next, TallyNext;
      ApartIsSeenOnce(Next(s, steps[0]), TallyNext(t, s, steps[0]), steps[1..]);
    }
  }

  // ---------- a clash is never made good ----------

  function RebuildsOn(ts: seq<Thread>, key: string): nat {
    if ts == [] then 0 else RebuildsOn(ts[..|ts| - 1], key) + Rebuilding(ts[|ts| - 1], key)
  }

  function Rebuilding(t: Thread, key: string): nat { if t.key == key && t.plan.Rebuild? && InWindow(t) then 1 else 0 }

  lemma {:induction false} RebuildsUpdate(ts: seq<Thread>, i: nat, t: Thread, key: string)
    requires i < |ts|
    ensures RebuildsOn(ts[i := t], key) == RebuildsOn(ts, key) - Rebuilding(ts[i], key) + Rebuilding(t, key)
    ensures RebuildsOn(ts, key) >= Rebuilding(ts[i], key)
  {
    var n := |ts| - 1;
    if i == n {
      assert ts[i := t][..n] == ts[..n];
    } else {
      RebuildsUpdate(ts[..n], i, t, key);
      assert ts[i := t][..n] == ts[..n][i := t];
    }
  }

  /** Somebody rebuilds the key. */
  lemma {:induction false} SomeRebuild(ts: seq<Thread>, key: string) returns (i: nat)
    requires RebuildsOn(ts, key) > 0
    ensures i < |ts| && Rebuilding(ts[i], key) == 1
  {
    var n := |ts| - 1;
    if Rebuilding(ts[n], key) == 1 {
      i := n;
    } else {
      i := SomeRebuild(ts[..n], key);
    }
  }

  /** Two refreshes saw one publisher, or more rebuilds than lookups of a key are about to write: a
      publisher has been or will be replaced unseen. */
  predicate SpoiltAt(s: Racing, t: Tally, key: string) {
    if key in t.live then t.live[key] >= 2 || RebuildsOn(s.threads, key) > t.live[key] else RebuildsOn(s.threads, key) >= 2
  }

  ghost predicate Spoilt(s: Racing, t: Tally) { t.bad || exists key :: SpoiltAt(s, t, key) }

  lemma RebuildsAfter(s: Racing, step: Step, key: string)
    requires Enabled(s, step)
    ensures RebuildsOn(Next(s, step).threads, key) == RebuildsOn(s.threads, key)
      + (if !step.Begin? && s.threads[step.i].key == key && s.threads[step.i].plan.Rebuild? then (if step.Look? then 1 else if step.WriteSecond? then -1 else 0) else 0)
  {
    if step.Begin? {
      RebuildsSnoc(s.threads, Thread(step.key, step.plan, Ready), key);
    } else {
      var was, now := s.threads[step.i], Next(s, step).threads[step.i];
      assert now.key == was.key && now.plan == was.plan && Next(s, step).threads == s.threads[step.i := now];
      assert InWindow(now) == if step.Look? then true else if step.WriteSecond? then false else InWindow(was);
      assert step.Look? ==> !InWindow(was);
      assert step.WriteSecond? ==> InWindow(was);
      hide Next, RebuildsOn, Enabled, InWindow;
      RebuildsUpdate(s.threads, step.i, now, key);
    }
  }

  lemma RebuildsSnoc(ts: seq<Thread>, t: Thread, key: string)
    ensures RebuildsOn(ts + [t], key) == RebuildsOn(ts, key) + Rebuilding(t, key)
  {
    assert (ts + [t])[..|ts|] == ts;
  }

  lemma SpoiltStays(s: Racing, t: Tally, step: Step)
    requires Spoilt(s, t) && Enabled(s, step) && Unmixed(s) && Unmixed(Next(s, step))
    ensures Spoilt(Next(s, step), TallyNext(t, s, step))
  {
    var u, n := Next(s, step), TallyNext(t, s, step);
    if !t.bad {
      var key :| SpoiltAt(s, t, key);
      RebuildsAfter(s, step, key);
      if !step.Begin? && s.threads[step.i].key == key && s.threads[step.i].plan.Remove? && RebuildsOn(s.threads, key) > 0 {
        var j := SomeRebuild(s.threads, key);
        OthersStay(s, step);
        assert !InWindow(s.threads[step.i]) && !InWindow(u.threads[step.i]);
      }
      assert n.bad || SpoiltAt(u, n, key);
    }
  }

  lemma {:induction false} SpoiltForGood(s: Racing, t: Tally, steps: seq<Step>)
    requires Spoilt(s, t) && CanRun(s, steps) && NeverMixed(s, steps)
    ensures Quiet(After(s, steps)) ==> !SeenOnce(TallyAfter(t, s, steps))
    decreases |steps|
  {
    if steps == [] {
      if Quiet(s) && !t.bad {
        var key :| SpoiltAt(s, t, key);
        if RebuildsOn(s.threads, key) > 0 {
          var j := SomeRebuild(s.threads, key);
        }
      }
    } else {
      SpoiltStays(s, t, steps[0]);
      hide Spoilt, Quiet, SeenOnce, Unmixed, Enabled, Next, TallyNext;
      SpoiltForGood(Next(s, steps[0]), TallyNext(t, s, steps[0]), steps[1..]);
    }
  }

  /** The first clash: a thread looks its key up while another is in its window. */
  lemma ClashSpoils(s: Racing, t: Tally, step: Step)
    requires SameKeys(s, t) && Orderly(s, t) && Enabled(s, step) && Apart(s) && Unmixed(Next(s, step)) && !Apart(Next(s, step))
    ensures Spoilt(Next(s, step), TallyNext(t, s, step))
  {
    var a, b := ClashIsALook(s, step);
    var u, n, key := Next(s, step), TallyNext(t, s, step), s.threads[a].key;
    if key in t.live {
      assert t.live[key] == 1 && n.live[key] == 2;
    } else {
      hide Next, TallyNext;
      TwoRebuilds(u.threads, a, b, key);
    }
    assert SpoiltAt(u, n, key);
  }

  lemma ClashIsALook(s: Racing, step: Step) returns (a: nat, b: nat)
    requires Enabled(s, step) && Apart(s) && !Apart(Next(s, step))
    ensures step == Look(a) && a != b && b < |s.threads| && b < |Next(s, step).threads|
    ensures Clash(Next(s, step).threads[a], Next(s, step).threads[b]) && Next(s, step).threads[b] == s.threads[b]
  {
    var u := Next(s, step);
    OthersStay(s, step);
    var i, j :| 0 <= i < |u.threads| && 0 <= j < |u.threads| && i != j && Clash(u.threads[i], u.threads[j]);
    a, b := if step == Look(i) then i else j, if step == Look(i) then j else i;
  }

  lemma TwoRebuilds(ts: seq<Thread>, a: nat, b: nat, key: string)
    requires a < |ts| && b < |ts| && a != b && Rebuilding(ts[a], key) == 1 && Rebuilding(ts[b], key) == 1
    ensures RebuildsOn(ts, key) >= 2
  {
    var over := ts[a].(stage := Done);
    RebuildsUpdate(ts, a, over, key);
    RebuildsUpdate(ts[a := over], b, ts[b], key);
  }

  lemma {:induction false} ClashingRunsSpoil(s: Racing, t: Tally, steps: seq<Step>)
    requires Tallied(s, t) && Orderly(s, t) && Apart(s) && CanRun(s, steps) && NeverMixed(s, steps) && !AlwaysApart(s, steps)
    ensures Quiet(After(s, steps)) ==> !SeenOnce(TallyAfter(t, s, steps))
    decreases |steps|
  {
    var u, n := Next(s, steps[0]), TallyNext(t, s, steps[0]);
    if Apart(u) {
      StepTallied(s, t, steps[0]);
      StepStaysOrderly(s, t, steps[0]);
      hide Tallied, Orderly, Apart, Unmixed, Quiet, SeenOnce, Enabled, Next, TallyNext;
      ClashingRunsSpoil(u, n, steps[1..]);
    } else {
      assert Unmixed(u);
      ClashSpoils(s, t, steps[0]);
      hide Tallied, Orderly, Apart, Unmixed, Quiet, SeenOnce, Enabled, Next, TallyNext, Spoilt;
      SpoiltForGood(u, n, steps[1..]);
    }
  }

  lemma StartOrderly()
    ensures Orderly(START, NOTHING) && Apart(START)
  {
  }

  /** Rebuilds, removals and closings of the whole cache, where no removal in its window meets a
      rebuild of the same key in its own: once all are over, publishers are conserved if and only
      if no two rebuilds of one key overlapped between the lookup of the old publisher and the
      write of the new one, and no two overlapping removals both saw a publisher. Without any of
      these overlaps they are conserved in any case. */
  lemma ConservedIffApart(steps: seq<Step>)
    requires CanRun(START, steps) && Quiet(After(START, steps))
    ensures AlwaysApart(START, steps) ==> Conserved(After(START, steps).cache)
    ensures NeverMixed(START, steps) ==> (Conserved(After(START, steps).cache) <==> AlwaysApart(START, steps))
  {
    StartTallied();
    StartOrderly();
    ConservedIffSeenOnce(steps);
    if AlwaysApart(START, steps) {
      ApartIsSeenOnce(START, NOTHING, steps);
    } else if NeverMixed(START, steps) {
      ClashingRunsSpoil(START, NOTHING, steps);
    }
  }

  // ---------- no two refreshes of a key at once ----------

  /** No two refreshes of one key are in their windows. */
  predicate Exclusive(s: Racing) {
    forall i, j | 0 <= i < |s.threads| && 0 <= j < |s.threads| && i != j && InWindow(s.threads[i]) && InWindow(s.threads[j]) ::
      s.threads[i].key != s.threads[j].key
  }

  predicate AlwaysExclusive(s: Racing, steps: seq<Step>)
    requires CanRun(s, steps)
    decreases |steps|
  {
    Exclusive(s) && (steps == [] || AlwaysExclusive(Next(s, steps[0]), steps[1..]))
  }

  lemma ExclusiveIsApart(s: Racing)
    requires Exclusive(s)
    ensures Apart(s)
  {
  }

  lemma {:induction false} AlwaysExclusiveIsApart(s: Racing, steps: seq<Step>)
    requires CanRun(s, steps) && AlwaysExclusive(s, steps)
    ensures AlwaysApart(s, steps)
    decreases |steps|
  {
    ExclusiveIsApart(s);
    hide Exclusive, Apart, Enabled, Next;
    if steps != [] {
      AlwaysExclusiveIsApart(Next(s, steps[0]), steps[1..]);
    }
  }

  /** If no two refreshes of one key ever overlap, every state without a refresh under way accounts
      for each publisher once. */
  lemma ExclusiveRunsConserve(steps: seq<Step>)
    requires CanRun(START, steps) && AlwaysExclusive(START, steps)
    ensures Quiet(After(START, steps)) ==> Conserved(After(START, steps).cache)
  {
    AlwaysExclusiveIsApart(START, steps);
    if Quiet(After(START, steps)) {
      ConservedIffApart(steps);
    }
  }

  predicate RebuildSteps(steps: seq<Step>) { forall i | 0 <= i < |steps| && steps[i].Begin? :: steps[i].plan.Rebuild? }

  predicate OnlyRebuilds(s: Racing) { forall i | 0 <= i < |s.threads| :: s.threads[i].plan.Rebuild? }

  lemma {:induction false} RebuildsAreUnmixed(s: Racing, steps: seq<Step>)
    requires CanRun(s, steps) && OnlyRebuilds(s) && RebuildSteps(steps)
    ensures NeverMixed(s, steps)
    ensures AlwaysApart(s, steps) ==> AlwaysExclusive(s, steps)
    decreases |steps|
  {
    assert Unmixed(s);
    assert Apart(s) ==> Exclusive(s);
    if steps != [] {
      OthersStay(s, steps[0]);
      assert OnlyRebuilds(Next(s, steps[0]));
      assert forall i | 0 <= i < |steps| - 1 :: steps[1..][i] == steps[i + 1];
      hide OnlyRebuilds, Unmixed, Apart, Exclusive, Enabled, Next;
      RebuildsAreUnmixed(Next(s, steps[0]), steps[1..]);
    }
  }

  /** Refreshes that rebuild their publisher or fail: once all are over, every publisher ever built
      is cached and open or closed exactly once if and only if no two of them on one key
      overlapped between the lookup of the old publisher and the write of the new one. */
  lemma ConservedIffExclusive(steps: seq<Step>)
    requires CanRun(START, steps) && RebuildSteps(steps) && Quiet(After(START, steps))
    ensures Conserved(After(START, steps).cache) <==> AlwaysExclusive(START, steps)
  {
    RebuildsAreUnmixed(START, steps);
    ConservedIffApart(steps);
    if AlwaysExclusive(START, steps) {
      AlwaysExclusiveIsApart(START, steps);
    }
  }

  // ---------- two overlapping rebuilds ----------

  lemma {:induction false} RunAppends(s: Racing, first: seq<Step>, second: seq<Step>)
    requires CanRun(s, first) && CanRun(After(s, first), second)
    ensures CanRun(s, first + second) && After(s, first + second) == After(After(s, first), second)
    decreases |first|
  {
    hide Enabled, Next;
    if first == [] {
      assert first + second == second;
    } else {
      assert (first + second)[1..] == first[1..] + second;
      RunAppends(Next(s, first[0]), first[1..], second);
    }
  }

  lemma OneStep(s: Racing, step: Step)
    requires Enabled(s, step)
    ensures CanRun(s, [step]) && After(s, [step]) == Next(s, step)
  {
    assert [step][1..] == [];
  }

  /** Both build, both look the old publisher up, and both go on to the end. */
  function OverlapRun(i: nat, j: nat, key: string, cfg: Config): seq<Step> {
    BothLook(i, j, key, cfg) + Finish(i) + Finish(j)
  }

  function BothLook(i: nat, j: nat, key: string, cfg: Config): seq<Step> {
    [Begin(key, Rebuild(cfg)), Begin(key, Rebuild(cfg))] + [Build(i), Build(j)] + [Look(i), Look(j)]
  }

  function Finish(i: nat): seq<Step> { [CloseOld(i), WriteFirst(i), WriteSecond(i)] }

  lemma FinishDoes(s: Racing, i: nat)
    requires i < |s.threads| && WellStaged(s.threads[i]) && s.threads[i].stage.Seen? && s.threads[i].plan.Rebuild?
    ensures CanRun(s, Finish(i))
    ensures var u, t := After(s, Finish(i)), s.threads[i];
      && u.threads == s.threads[i := t.(stage := Done)]
      && u.cache == State(s.cache.config[t.key := t.plan.cfg], s.cache.pub[t.key := t.stage.made.value], s.cache.built,
                          if t.stage.was.Some? then s.cache.closed + multiset{t.stage.was.value} else s.cache.closed)
  {
    var s1 := Next(s, CloseOld(i));
    var s2 := Next(s1, WriteFirst(i));
    OneStep(s2, WriteSecond(i));
    assert [WriteFirst(i), WriteSecond(i)][1..] == [WriteSecond(i)];
    assert CanRun(s1, [WriteFirst(i), WriteSecond(i)]);
    assert Finish(i)[1..] == [WriteFirst(i), WriteSecond(i)];
  }

  function Over(key: string, cfg: Config): Thread { Thread(key, Rebuild(cfg), Done) }

  /** What the overlap leaves: the first of the two publishers is in no map and was closed by nobody,
      and what was cached before is closed twice. */
  lemma OverlapDoes(s: Racing, key: string, cfg: Config)
    ensures CanRun(s, OverlapRun(|s.threads|, |s.threads| + 1, key, cfg))
    ensures var u, c, was := After(s, OverlapRun(|s.threads|, |s.threads| + 1, key, cfg)), s.cache, Cached(s.cache, key);
      && u.threads == s.threads + [Over(key, cfg), Over(key, cfg)]
      && u.cache.pub == c.pub[key := c.built + 1] && u.cache.built == c.built + 2
      && u.cache.closed == c.closed + if was.Some? then multiset{was.value, was.value} else multiset{}
  {
    hide CanRun, After;
    var n, steps := |s.threads|, BothLook(|s.threads|, |s.threads| + 1, key, cfg);
    BothLooked(s, key, cfg);
    var s6 := After(s, steps);
    FinishDoes(s6, n);
    FinishDoes(After(s6, Finish(n)), n + 1);
    hide Finish, BothLook;
    RunAppends(s, steps, Finish(n));
    RunAppends(s, steps + Finish(n), Finish(n + 1));
  }

  lemma BothBuilt(s: Racing, key: string, cfg: Config)
    ensures var n, ready := |s.threads|, Thread(key, Rebuild(cfg), Ready);
      var steps := [Begin(key, Rebuild(cfg)), Begin(key, Rebuild(cfg))] + [Build(n), Build(n + 1)];
      && CanRun(s, steps)
      && After(s, steps) == Racing(s.cache.(built := s.cache.built + 2),
                                   s.threads + [ready.(stage := Made(s.cache.built)), ready.(stage := Made(s.cache.built + 1))])
  {
    var n, ready, begin := |s.threads|, Thread(key, Rebuild(cfg), Ready), Begin(key, Rebuild(cfg));
    hide CanRun, After;
    TwoSteps(s, begin, begin);
    assert s.threads + [ready] + [ready] == s.threads + [ready, ready];
    var s2 := After(s, [begin, begin]);
    assert s2 == Racing(s.cache, s.threads + [ready, ready]);
    TwoSteps(s2, Build(n), Build(n + 1));
    RunAppends(s, [begin, begin], [Build(n), Build(n + 1)]);
  }

  function Looking(c: State, key: string, cfg: Config, made: nat): Thread { Thread(key, Rebuild(cfg), Seen(Some(made), Cached(c, key))) }

  lemma BothLooked(s: Racing, key: string, cfg: Config)
    ensures var n := |s.threads|; CanRun(s, BothLook(n, n + 1, key, cfg))
    ensures var n, c := |s.threads|, s.cache;
      After(s, BothLook(n, n + 1, key, cfg)) == Racing(c.(built := c.built + 2), s.threads + [Looking(c, key, cfg, c.built), Looking(c, key, cfg, c.built + 1)])
  {
    hide CanRun, After;
    var n, begin := |s.threads|, Begin(key, Rebuild(cfg));
    var steps := [begin, begin] + [Build(n), Build(n + 1)];
    BothBuilt(s, key, cfg);
    var s4 := After(s, steps);
    TwoSteps(s4, Look(n), Look(n + 1));
    RunAppends(s, steps, [Look(n), Look(n + 1)]);
  }

  lemma TwoSteps(s: Racing, a: Step, b: Step)
    requires Enabled(s, a) && Enabled(Next(s, a), b)
    ensures CanRun(s, [a, b]) && After(s, [a, b]) == Next(Next(s, a), b)
  {
    OneStep(Next(s, a), b);
    assert [a, b][1..] == [b];
  }

  /** On a key without a publisher, the first of the two is lost: neither cached nor closed. */
  lemma LeakHappens(key: string, cfg: Config)
    ensures CanRun(START, OverlapRun(0, 1, key, cfg))
    ensures var s := After(START, OverlapRun(0, 1, key, cfg));
      && Quiet(s) && s.cache.built == 2 && s.cache.pub == map[key := 1] && s.cache.closed[0] == 0
      && !Conserved(s.cache)
  {
    OverlapDoes(START, key, cfg);
    var s := After(START, OverlapRun(0, 1, key, cfg));
    assert s.cache.pub == map[key := 1];
    assert 0 !in s.cache.pub.Values;
  }

  /** One rebuild, from its beginning to its end. */
  function RebuildRun(i: nat, key: string, cfg: Config): seq<Step> { [Begin(key, Rebuild(cfg)), Build(i)] + [Look(i)] + Finish(i) }

  /** With nothing in between, a rebuild does what a refresh by itself does. */
  lemma AloneItRebuilds(s: Racing, key: string, cfg: Config)
    ensures CanRun(s, RebuildRun(|s.threads|, key, cfg))
    ensures After(s, RebuildRun(|s.threads|, key, cfg)) == Racing(Rebuilt(s.cache, key, cfg), s.threads + [Over(key, cfg)])
  {
    hide CanRun, After;
    var n, begin, ready := |s.threads|, Begin(key, Rebuild(cfg)), Thread(key, Rebuild(cfg), Ready);
    TwoSteps(s, begin, Build(n));
    var s2 := After(s, [begin, Build(n)]);
    assert s2 == Racing(s.cache.(built := s.cache.built + 1), s.threads + [ready.(stage := Made(s.cache.built))]);
    OneStep(s2, Look(n));
    var s3 := After(s2, [Look(n)]);
    assert s3 == Racing(s2.cache, s.threads + [Looking(s.cache, key, cfg, s.cache.built)]);
    FinishDoes(s3, n);
    hide Next, Enabled, Finish;
    RunAppends(s, [begin, Build(n)], [Look(n)]);
    RunAppends(s, [begin, Build(n)] + [Look(n)], Finish(n));
  }

  /** So does a removal. */
  lemma AloneItRemoves(s: Racing, key: string)
    ensures var n := |s.threads|; var steps := [Begin(key, Remove), Look(n)] + [CloseOld(n)] + [WriteFirst(n), WriteSecond(n)];
      CanRun(s, steps) && After(s, steps) == Racing(Removed(s.cache, key), s.threads + [Thread(key, Remove, Done)])
  {
    hide CanRun, After;
    var n, begin, t := |s.threads|, Begin(key, Remove), Thread(key, Remove, Ready);
    TwoSteps(s, begin, Look(n));
    var s2 := After(s, [begin, Look(n)]);
    assert s2 == Racing(s.cache, s.threads + [t.(stage := Seen(None, Cached(s.cache, key)))]);
    OneStep(s2, CloseOld(n));
    var s3 := After(s2, [CloseOld(n)]);
    assert s3 == Racing(s.cache.(closed := CloseCached(s.cache, key)), s.threads + [t.(stage := Shut(None, Cached(s.cache, key)))]);
    OneEmptied(s3, n);
    hide Next, Enabled;
    RunAppends(s, [begin, Look(n)], [CloseOld(n)]);
    RunAppends(s, [begin, Look(n)] + [CloseOld(n)], [WriteFirst(n), WriteSecond(n)]);
  }

  /** Between its two writes a rebuild has set the configuration and not yet the publisher, and a
      removal has deleted the publisher and not yet the configuration. */
  lemma BetweenTheWrites(s: Racing, i: nat)
    requires Enabled(s, WriteFirst(i))
    ensures var c, d, t := s.cache, Next(s, WriteFirst(i)).cache, s.threads[i];
      && (t.plan.Rebuild? ==> d == c.(config := c.config[t.key := t.plan.cfg]))
      && (t.plan.Remove? ==> d == c.(pub := c.pub - {t.key}))
  {
  }

  lemma RebuildDoes(key: string, cfg: Config)
    ensures CanRun(START, RebuildRun(0, key, cfg))
    ensures var s := After(START, RebuildRun(0, key, cfg));
      s.threads == [Over(key, cfg)] && s.cache.built == 1 && s.cache.pub == map[key := 0] && s.cache.closed == multiset{}
  {
    AloneItRebuilds(START, key, cfg);
  }

  /** On a key with a publisher, that one is closed twice as well. */
  lemma DoubleCloseHappens(key: string, cfg: Config)
    ensures CanRun(START, RebuildRun(0, key, cfg) + OverlapRun(1, 2, key, cfg))
    ensures var s := After(START, RebuildRun(0, key, cfg) + OverlapRun(1, 2, key, cfg));
      Quiet(s) && s.cache.pub == map[key := 2] && s.cache.closed[0] == 2 && !Conserved(s.cache)
  {
    hide CanRun, After, RebuildRun, OverlapRun;
    RebuildDoes(key, cfg);
    var s1 := After(START, RebuildRun(0, key, cfg));
    OverlapDoes(s1, key, cfg);
    RunAppends(START, RebuildRun(0, key, cfg), OverlapRun(1, 2, key, cfg));
    ghost var s := After(START, RebuildRun(0, key, cfg) + OverlapRun(1, 2, key, cfg));
    assert s.cache.pub == map[key := 2];
  }

  // ---------- closing the whole cache ----------

  /** Close's first loop: every cached publisher is looked up and closed. */
  function Shutting(keys: seq<string>, n: nat): seq<Step> {
    if keys == [] then []
    else
      var m := |keys| - 1;
      Shutting(keys[..m], n) + [Begin(keys[m], Remove), Look(n + m), CloseOld(n + m)]
  }

  /** Its second loop: every key is deleted from both maps. */
  function Emptying(keys: seq<string>, n: nat): seq<Step> {
    if keys == [] then []
    else
      var m := |keys| - 1;
      Emptying(keys[..m], n) + [WriteFirst(n + m), WriteSecond(n + m)]
  }

  function ClosingRun(keys: seq<string>, n: nat): seq<Step> { Shutting(keys, n) + Emptying(keys, n) }

  /** What the first loop closes. */
  function ClosedOf(pub: map<string, nat>, keys: seq<string>): multiset<nat>
    requires forall k | k in keys :: k in pub
  {
    if keys == [] then multiset{} else ClosedOf(pub, keys[..|keys| - 1]) + multiset{pub[keys[|keys| - 1]]}
  }

  function Shutters(c: State, keys: seq<string>): seq<Thread> {
    seq(|keys|, i requires 0 <= i < |keys| => Thread(keys[i], Remove, Shut(None, Cached(c, keys[i]))))
  }

  lemma {:induction false} ShuttingDoes(s: Racing, keys: seq<string>)
    requires forall k | k in keys :: k in s.cache.pub
    ensures CanRun(s, Shutting(keys, |s.threads|))
    ensures After(s, Shutting(keys, |s.threads|)) == Racing(s.cache.(closed := s.cache.closed + ClosedOf(s.cache.pub, keys)), s.threads + Shutters(s.cache, keys))
  {
    if keys == [] {
      assert s.threads + [] == s.threads;
      assert s.cache.closed + multiset{} == s.cache.closed;
    } else {
      hide CanRun, After, Next, Enabled;
      var m, key := |keys| - 1, keys[|keys| - 1];
      var n, first := |s.threads|, Shutting(keys[..m], |s.threads|);
      ShuttingDoes(s, keys[..m]);
      var t := After(s, first);
      OneShut(t, key);
      RunAppends(s, first, [Begin(key, Remove), Look(n + m), CloseOld(n + m)]);
      ShuttersSnoc(s, keys);
      hide Shutters, Shutting, ClosedOf, Cached;
    }
  }

  lemma ShuttersSnoc(s: Racing, keys: seq<string>)
    requires keys != [] && forall k | k in keys :: k in s.cache.pub
    ensures var m, key := |keys| - 1, keys[|keys| - 1];
      && |Shutters(s.cache, keys[..m])| == m
      && s.threads + Shutters(s.cache, keys[..m]) + [Thread(key, Remove, Shut(None, Cached(s.cache, key)))] == s.threads + Shutters(s.cache, keys)
      && s.cache.closed + ClosedOf(s.cache.pub, keys[..m]) + multiset{s.cache.pub[key]} == s.cache.closed + ClosedOf(s.cache.pub, keys)
      && Shutting(keys, |s.threads|) == Shutting(keys[..m], |s.threads|) + [Begin(key, Remove), Look(|s.threads| + m), CloseOld(|s.threads| + m)]
  {
    var m, key := |keys| - 1, keys[|keys| - 1];
    var last := Thread(key, Remove, Shut(None, Cached(s.cache, key)));
    assert Shutters(s.cache, keys) == Shutters(s.cache, keys[..m]) + [last];
    hide Shutters;
    AppendedLast(s.threads, Shutters(s.cache, keys[..m]), last);
  }

  lemma AppendedLast<T>(a: seq<T>, b: seq<T>, x: T)
    ensures a + b + [x] == a + (b + [x])
  {
  }

  lemma OneShut(s: Racing, key: string)
    requires key in s.cache.pub
    ensures var n := |s.threads|; var steps := [Begin(key, Remove), Look(n), CloseOld(n)];
      && CanRun(s, steps)
      && After(s, steps) == Racing(s.cache.(closed := s.cache.closed + multiset{s.cache.pub[key]}), s.threads + [Thread(key, Remove, Shut(None, Cached(s.cache, key)))])
  {
    var n, begin := |s.threads|, Begin(key, Remove);
    var s1 := Next(s, begin);
    TwoSteps(s1, Look(n), CloseOld(n));
    assert [begin, Look(n), CloseOld(n)][1..] == [Look(n), CloseOld(n)];
    assert s1.threads[n] == Thread(key, Remove, Ready);
  }

  /** Threads from n on have closed the publishers of these keys and have still to delete them. */
  predicate AreShut(s: Racing, keys: seq<string>, n: nat) {
    n + |keys| <= |s.threads| &&
    forall j | n <= j < n + |keys| :: s.threads[j].key == keys[j - n] && s.threads[j].plan.Remove? && s.threads[j].stage.Shut? && s.threads[j].stage.made.None?
  }

  lemma {:induction false} EmptyingDoes(s: Racing, keys: seq<string>, n: nat)
    requires AreShut(s, keys, n)
    ensures CanRun(s, Emptying(keys, n))
    ensures var u, ks := After(s, Emptying(keys, n)), set k | k in keys;
      && u.cache == s.cache.(pub := s.cache.pub - ks, config := s.cache.config - ks)
      && |u.threads| == |s.threads|
      && (forall i | 0 <= i < |s.threads| :: if n <= i < n + |keys| then u.threads[i].stage.Done? else u.threads[i] == s.threads[i])
  {
    if keys != [] {
      hide CanRun, After;
      var m, key := |keys| - 1, keys[|keys| - 1];
      var first := Emptying(keys[..m], n);
      assert AreShut(s, keys[..m], n);
      EmptyingDoes(s, keys[..m], n);
      var t := After(s, first);
      assert t.threads[n + m] == s.threads[n + m] && keys[m] == key;
      OneEmptied(t, n + m);
      hide AreShut;
      RunAppends(s, first, [WriteFirst(n + m), WriteSecond(n + m)]);
      var before, ks := set k | k in keys[..m], set k | k in keys;
      assert keys == keys[..m] + [key];
      KeysSnoc(keys[..m], key);
      assert s.cache.pub - before - {key} == s.cache.pub - ks;
      assert s.cache.config - before - {key} == s.cache.config - ks;
    }
  }

  lemma OneEmptied(s: Racing, i: nat)
    requires i < |s.threads| && s.threads[i].plan.Remove? && s.threads[i].stage.Shut? && s.threads[i].stage.made.None?
    ensures CanRun(s, [WriteFirst(i), WriteSecond(i)])
    ensures var u, key := After(s, [WriteFirst(i), WriteSecond(i)]), s.threads[i].key;
      u.cache == s.cache.(pub := s.cache.pub - {key}, config := s.cache.config - {key})
      && u.threads == s.threads[i := s.threads[i].(stage := Done)]
  {
    TwoSteps(s, WriteFirst(i), WriteSecond(i));
    hide CanRun, After;
  }

  lemma {:induction false} ClosedOfAll(pub: map<string, nat>, keys: seq<string>)
    requires Injective(pub) && (forall k | k in keys :: k in pub) && forall i, j | 0 <= i < j < |keys| :: keys[i] != keys[j]
    ensures ClosedOf(pub, keys) == multiset(Image(pub, set k | k in keys))
  {
    if keys == [] {
      assert Image(pub, set k | k in keys) == {};
    } else {
      hide Image, Injective;
      var m, key := |keys| - 1, keys[|keys| - 1];
      var before := set k | k in keys[..m];
      ClosedOfAll(pub, keys[..m]);
      KeysSnoc(keys[..m], key);
      assert keys == keys[..m] + [key];
      ImageAdd(pub, before, key);
    }
  }

  lemma KeysSnoc(keys: seq<string>, key: string)
    ensures (set k | k in keys + [key]) == (set k | k in keys) + {key}
  {
  }

  /** Close is a removal of every cached key in some order: all are looked up and closed, then all
      are deleted. Nothing in between, it does what Close does. */
  lemma ClosingIsRemoving(s: Racing, keys: seq<string>)
    requires s.cache.config.Keys == s.cache.pub.Keys && Injective(s.cache.pub)
    requires (set k | k in keys) == s.cache.pub.Keys && forall i, j | 0 <= i < j < |keys| :: keys[i] != keys[j]
    ensures CanRun(s, ClosingRun(keys, |s.threads|))
    ensures var u := After(s, ClosingRun(keys, |s.threads|));
      && u.cache == AllClosed(s.cache) && |u.threads| == |s.threads| + |keys|
      && forall i | 0 <= i < |u.threads| :: if i < |s.threads| then u.threads[i] == s.threads[i] else u.threads[i].stage.Done?
  {
    hide *;
    assert forall k | k in keys :: k in (set k | k in keys);
    ClosingDoes(s, keys);
    ClosedOfAll(s.cache.pub, keys);
    ImageOfAll(s.cache.pub);
    AllIsEmptied(s.cache, After(s, ClosingRun(keys, |s.threads|)).cache, set k | k in keys);
  }

  lemma AllIsEmptied(c: State, d: State, ks: set<string>)
    requires ks == c.pub.Keys == c.config.Keys
    requires d == c.(closed := c.closed + multiset(c.pub.Values), pub := c.pub - ks, config := c.config - ks)
    ensures d == AllClosed(c)
  {
    assert d.pub == map[] && d.config == map[];
  }

  lemma ClosingDoes(s: Racing, keys: seq<string>)
    requires forall k | k in keys :: k in s.cache.pub
    ensures CanRun(s, ClosingRun(keys, |s.threads|))
    ensures var u, c, ks := After(s, ClosingRun(keys, |s.threads|)), s.cache, set k | k in keys;
      && u.cache == c.(closed := c.closed + ClosedOf(c.pub, keys), pub := c.pub - ks, config := c.config - ks)
      && |u.threads| == |s.threads| + |keys|
      && forall i | 0 <= i < |u.threads| :: if i < |s.threads| then u.threads[i] == s.threads[i] else u.threads[i].stage.Done?
  {
    hide CanRun, After, ClosedOf;
    var n, first, second := |s.threads|, Shutting(keys, |s.threads|), Emptying(keys, |s.threads|);
    ShuttingDoes(s, keys);
    var t := After(s, first);
    assert AreShut(t, keys, n);
    EmptyingDoes(t, keys, n);
    hide AreShut, Shutters, Shutting, Emptying;
    RunAppends(s, first, second);
  }
}
