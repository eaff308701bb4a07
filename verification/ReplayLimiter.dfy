/** Admission of replays (pkg/api/eventlogs_service.go): a buffered channel is the limiter, and a
    new one is made whenever the configured limit differs from the capacity of the last. */
module ReplayLimiter {
  import opened GoText
  import opened StatusStore
  import PageTokens

  const DEFAULT_LIMIT := 8

  function LimitOf(concurrency: int): (limit: nat)
    ensures concurrency > 0 ==> limit == concurrency
    ensures concurrency <= 0 ==> limit == 8
  {
    if concurrency <= 0 then DEFAULT_LIMIT else concurrency
  }

  datatype Channel = Channel(capacity: nat, used: nat)

  /** What became of a replay request that reached the limiter. */
  datatype Phase = Rejected | Running(channel: nat) | Finished

  datatype State = State(concurrency: int, limiter: Option<nat>, channels: seq<Channel>, requests: seq<Phase>)

  datatype Step = Request | Finish(r: nat) | Reconfigure(concurrency: int)

  function Initial(concurrency: int): State { State(concurrency, None, [], []) }

  /** The state after replayLimiter. */
  function WithLimiter(s: State): State {
    if s.limiter.None? || s.limiter.value >= |s.channels| || s.channels[s.limiter.value].capacity != LimitOf(s.concurrency)
    then s.(limiter := Some(|s.channels|), channels := s.channels + [Channel(LimitOf(s.concurrency), 0)])
    else s
  }

  predicate Enabled(s: State, step: Step) {
    match step
    case Finish(r) =>
      r < |s.requests| && s.requests[r].Running? && s.requests[r].channel < |s.channels| && s.channels[s.requests[r].channel].used > 0
    case _ => true
  }

  function Next(s: State, step: Step): State
    requires Enabled(s, step)
  {
    match step
    case Request =>
      var t := WithLimiter(s);
      var c := t.limiter.value;
      var channel := t.channels[c];
      if channel.used < channel.capacity
      then t.(channels := t.channels[c := channel.(used := channel.used + 1)], requests := t.requests + [Running(c)])
      else t.(requests := t.requests + [Rejected])
    case Finish(r) =>
      var c := s.requests[r].channel;
      var channel := s.channels[c];
      s.(channels := s.channels[c := channel.(used := channel.used - 1)], requests := s.requests[r := Finished])
    case Reconfigure(n) => s.(concurrency := n)
  }

  predicate CanRun(s: State, steps: seq<Step>)
    decreases |steps|
  {
    steps == [] || (Enabled(s, steps[0]) && CanRun(Next(s, steps[0]), steps[1..]))
  }

  function After(s: State, steps: seq<Step>): State
    requires CanRun(s, steps)
    decreases |steps|
  {
    if steps == [] then s else After(Next(s, steps[0]), steps[1..])
  }

  // ---------- the service ----------

  datatype Answer = WriteFailed | QueueFull | Accepted

  class ReplayService {
    var concurrency: int
    var limiter: Option<nat>
    var channels: seq<Channel>
    var requests: seq<Phase>

    function Now(): State
      reads this
    {
      State(concurrency, limiter, channels, requests)
    }

    constructor (concurrency: int)
      ensures Now() == Initial(concurrency) && Invariant(Now())
    {
      this.concurrency, limiter, channels, requests := concurrency, None, [], [];
    }

    // replayLimiter
    method Limiter() returns (c: nat)
      requires Invariant(Now())
      modifies this`limiter, this`channels
      ensures Now() == WithLimiter(old(Now())) && limiter == Some(c) && c < |channels|
    {
      var limit := concurrency;
      if limit <= 0 {
        limit := DEFAULT_LIMIT;
      }
      if limiter.None? || channels[limiter.value].capacity != limit {
        limiter := Some(|channels|);
        channels := channels + [Channel(limit, 0)];
      }
      return limiter.value;
    }

    /** The tail of ReplayEventLog: the rows are written first, and stay when the queue is full. */
    method ReplayEventLog(store: Store, records: seq<NewLog>, tenant: string, now: PageTokens.Time, generated: seq<string>, dbOk: bool)
      returns (answer: Answer)
      requires Invariant(Now()) && |generated| == |records|
      modifies this, store
      ensures Invariant(Now())
      ensures var logs := seq(|records|, i requires 0 <= i < |records| => FillDefaults(records[i], tenant, now, generated[i]));
        if records != [] && (!dbOk || !Insertable(old(store.rows), logs))
        then answer == WriteFailed && store.rows == old(store.rows) && Now() == old(Now())
        else
          && store.rows == Inserted(old(store.rows), logs)
          && Now() == Next(old(Now()), Request)
          && answer == (if Now().requests[|old(requests)|] == Rejected then QueueFull else Accepted)
    {
      StepKeepsInvariant(Now(), Request);
      hide Invariant, FillDefaults, Insertable;
      var created := store.CreateEventLogs(records, tenant, now, generated, dbOk);
      if !created {
        return WriteFailed;
      }
      answer := Admit();
    }

    method Admit() returns (answer: Answer)
      requires Invariant(Now())
      modifies this
      ensures Now() == Next(old(Now()), Request) && |requests| == |old(requests)| + 1
      ensures answer == if requests[|old(requests)|] == Rejected then QueueFull else Accepted
    {
      var c := Limiter();
      hide Invariant;
      var channel := channels[c];
      if channel.used < channel.capacity {
        channels := channels[c := channel.(used := channel.used + 1)];
        requests := requests + [Running(c)];
        return Accepted;
      }
      requests := requests + [Rejected];
      return QueueFull;
    }
  }

  // ---------- the invariant ----------

  function RunningOn(requests: seq<Phase>, c: nat): nat {
    if requests == [] then 0 else RunningOn(requests[..|requests| - 1], c) + if requests[|requests| - 1] == Running(c) then 1 else 0
  }

  function RunningCount(requests: seq<Phase>): nat {
    if requests == [] then 0 else RunningCount(requests[..|requests| - 1]) + if requests[|requests| - 1].Running? then 1 else 0
  }

  /** Every channel holds one token for each replay it admitted that still runs. */
  predicate Invariant(s: State) {
    && (s.limiter.Some? ==> s.limiter.value < |s.channels|)
    && (forall c | 0 <= c < |s.channels| :: s.channels[c].used == RunningOn(s.requests, c) <= s.channels[c].capacity)
    && (forall r | 0 <= r < |s.requests| && s.requests[r].Running? :: s.requests[r].channel < |s.channels|)
  }

  lemma RequestSnoc(requests: seq<Phase>, p: Phase, c: nat)
    ensures RunningOn(requests + [p], c) == RunningOn(requests, c) + if p == Running(c) then 1 else 0
    ensures RunningCount(requests + [p]) == RunningCount(requests) + if p.Running? then 1 else 0
  {
    assert (requests + [p])[..|requests|] == requests;
  }

  lemma {:induction false} RequestUpdate(requests: seq<Phase>, r: nat, p: Phase, c: nat)
    requires r < |requests|
    ensures RunningOn(requests[r := p], c)
         == RunningOn(requests, c) - (if requests[r] == Running(c) then 1 else 0) + if p == Running(c) then 1 else 0
    ensures requests[r] == Running(c) ==> RunningOn(requests, c) > 0
  {
    var n := |requests| - 1;
    if r == n {
      assert requests[r := p][..n] == requests[..n];
    } else {
      RequestUpdate(requests[..n], r, p, c);
      assert requests[r := p][..n] == requests[..n][r := p];
    }
  }

  lemma {:induction false} NoneOnNewChannel(requests: seq<Phase>, c: nat)
    requires forall r | 0 <= r < |requests| && requests[r].Running? :: requests[r].channel < c
    ensures RunningOn(requests, c) == 0
  {
    if requests != [] {
      NoneOnNewChannel(requests[..|requests| - 1], c);
    }
  }

  lemma WithLimiterKeepsInvariant(s: State)
    requires Invariant(s)
    ensures Invariant(WithLimiter(s))
  {
    NoneOnNewChannel(s.requests, |s.channels|);
  }

  lemma StepKeepsInvariant(s: State, step: Step)
    requires Invariant(s) && Enabled(s, step)
    ensures Invariant(Next(s, step))
  {
    var t := Next(s, step);
    match step
    case Request =>
      WithLimiterKeepsInvariant(s);
      var p := t.requests[|s.requests|];
      forall c: nat ensures RunningOn(t.requests, c) == RunningOn(s.requests, c) + if p == Running(c) then 1 else 0 {
        RequestSnoc(s.requests, p, c);
      }
      hide RunningOn;
    case Finish(r) =>
      forall c: nat ensures RunningOn(t.requests, c) == RunningOn(s.requests, c) - if s.requests[r] == Running(c) then 1 else 0 {
        RequestUpdate(s.requests, r, Finished, c);
      }
      hide RunningOn;
    case Reconfigure(_) =>
  }

  /** A running replay can always finish: its token is in the channel it came from. */
  lemma RunningCanFinish(s: State, r: nat)
    requires Invariant(s) && r < |s.requests| && s.requests[r].Running?
    ensures Enabled(s, Finish(r))
  {
    RequestUpdate(s.requests, r, Finished, s.requests[r].channel);
  }

  // ---------- the bound ----------

  /** At most one channel, of capacity `limit`: what holds while the limit is never changed. */
  predicate OneLimit(s: State, limit: nat) {
    LimitOf(s.concurrency) == limit && |s.channels| <= 1
    && (s.channels != [] ==> s.limiter == Some(0) && s.channels[0].capacity == limit) && (s.channels == [] ==> s.limiter.None?)
  }

  predicate KeepsLimit(steps: seq<Step>, limit: nat) {
    forall i | 0 <= i < |steps| :: steps[i].Reconfigure? ==> LimitOf(steps[i].concurrency) == limit
  }

  lemma {:induction false} AllOnOneChannel(requests: seq<Phase>)
    requires forall r | 0 <= r < |requests| && requests[r].Running? :: requests[r].channel == 0
    ensures RunningCount(requests) == RunningOn(requests, 0)
  {
    if requests != [] {
      AllOnOneChannel(requests[..|requests| - 1]);
    }
  }

  lemma {:induction false} RunKeeps(s: State, steps: seq<Step>, limit: nat)
    requires Invariant(s) && CanRun(s, steps)
    ensures Invariant(After(s, steps))
    ensures OneLimit(s, limit) && KeepsLimit(steps, limit) ==> OneLimit(After(s, steps), limit)
    decreases |steps|
  {
    if steps != [] {
      StepKeepsInvariant(s, steps[0]);
      hide Invariant;
      RunKeeps(Next(s, steps[0]), steps[1..], limit);
      assert KeepsLimit(steps, limit) ==> KeepsLimit(steps[1..], limit);
    }
  }

  /** While the limit is not changed, no interleaving of requests and completions has more than
      `limit` replays running, and a request is turned away exactly when `limit` are running. */
  lemma RunningIsBounded(concurrency: int, steps: seq<Step>)
    requires CanRun(Initial(concurrency), steps) && KeepsLimit(steps, LimitOf(concurrency))
    ensures var s := After(Initial(concurrency), steps);
      && RunningCount(s.requests) <= LimitOf(concurrency)
      && (Next(s, Request).requests[|s.requests|] == Rejected <==> RunningCount(s.requests) == LimitOf(concurrency))
  {
    RunKeeps(Initial(concurrency), steps, LimitOf(concurrency));
    hide After, CanRun, Invariant, OneLimit, Next, RunningCount;
    BoundedWhenOneLimit(After(Initial(concurrency), steps), LimitOf(concurrency));
  }

  lemma BoundedWhenOneLimit(s: State, limit: nat)
    requires Invariant(s) && OneLimit(s, limit)
    ensures RunningCount(s.requests) <= limit
    ensures Next(s, Request).requests[|s.requests|] == Rejected <==> RunningCount(s.requests) == limit
  {
    AllOnOneChannel(s.requests);
    if s.channels == [] {
      NoneOnNewChannel(s.requests, 0);
    }
    hide RunningCount, RunningOn;
  }

  /** A rejected request starts no replay, then or later, whatever happens. */
  lemma {:induction false} RejectedStaysRejected(s: State, steps: seq<Step>, r: nat)
    requires CanRun(s, steps) && r < |s.requests| && s.requests[r] == Rejected
    ensures r < |After(s, steps).requests| && After(s, steps).requests[r] == Rejected
    decreases |steps|
  {
    if steps != [] {
      RejectedStaysRejected(Next(s, steps[0]), steps[1..], r);
    }
  }

  // ---------- changing the limit ----------

  function Requests(k: nat): seq<Step> { seq(k, i => Request) }

  /** A run of k requests on a limiter with room for them. */
  lemma {:induction false} RequestsFill(s: State, k: nat)
    requires Invariant(s) && (k > 0 ==> WithLimiter(s).channels[WithLimiter(s).limiter.value].used + k <= LimitOf(s.concurrency))
    ensures CanRun(s, Requests(k))
    ensures var t := After(s, Requests(k));
      && t.concurrency == s.concurrency && RunningCount(t.requests) == RunningCount(s.requests) + k
      && (k > 0 ==> t.limiter.Some? && t.limiter.value < |t.channels| && t.channels[t.limiter.value].capacity == LimitOf(s.concurrency))
    decreases k
  {
    if k > 0 {
      var t := Next(s, Request);
      StepKeepsInvariant(s, Request);
      RequestSnoc(s.requests, t.requests[|s.requests|], 0);
      hide Invariant, RunningCount;
      assert WithLimiter(t) == t;
      RequestsFill(t, k - 1);
      assert Requests(k)[1..] == Requests(k - 1);
      assert Requests(k)[0] == Request;
      if k == 1 { assert Requests(0) == []; }
    }
  }

  lemma {:induction false} RunAppends(s: State, first: seq<Step>, second: seq<Step>)
    requires CanRun(s, first) && CanRun(After(s, first), second)
    ensures CanRun(s, first + second) && After(s, first + second) == After(After(s, first), second)
    decreases |first|
  {
    hide Enabled, Next;
    if first == [] {
      assert first + second == second;
    } else {
      assert (first + second)[1..] == first[1..] + second;
      RunAppends(Next(s, first[0]), first[1..], second);
    }
  }

  /** The bound needs the limit to stay: after any change to a different limit, the replays
      admitted before it and `limit` more can run at once. */
  lemma ChangedLimitIsExceeded(before: int, after: int) returns (steps: seq<Step>)
    requires LimitOf(before) != LimitOf(after)
    ensures CanRun(Initial(before), steps)
    ensures var s := After(Initial(before), steps);
      s.concurrency == after && RunningCount(s.requests) == LimitOf(before) + LimitOf(after) > LimitOf(after)
  {
    var first, last := Requests(LimitOf(before)), Requests(LimitOf(after));
    RequestsFill(Initial(before), LimitOf(before));
    var full := After(Initial(before), first);
    RunKeeps(Initial(before), first, LimitOf(before));
    var changed := full.(concurrency := after);
    assert [Reconfigure(after)][1..] == [];
    assert CanRun(full, [Reconfigure(after)]) && After(full, [Reconfigure(after)]) == changed;
    assert Invariant(changed);
    assert WithLimiter(changed).channels[WithLimiter(changed).limiter.value].used == 0;
    RequestsFill(changed, LimitOf(after));
    hide CanRun, After, Invariant, Initial;
    RunAppends(full, [Reconfigure(after)], last);
    RunAppends(Initial(before), first, [Reconfigure(after)] + last);
    steps := first + ([Reconfigure(after)] + last);
  }
}
