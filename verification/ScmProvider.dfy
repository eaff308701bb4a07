/** RemoteSCMClientProvider.Client (sdk/go/worker/scm_client_provider.go): the cache in front of the
    credential service, whose answer is a parameter. */
module ScmProvider {
  import opened GoText
  import opened LruCache
  import opened PageTokens

  datatype Target = Target(provider: string, installationId: string, instanceKey: string)

  function CacheKey(t: Target): string { t.provider + "|" + t.installationId + "|" + t.instanceKey }

  /** No part of the target contains the separator. */
  predicate BarFree(t: Target) { '|' !in t.provider && '|' !in t.installationId && '|' !in t.instanceKey }

  function BarIndex(s: string): nat { if s == "" || s[0] == '|' then 0 else 1 + BarIndex(s[1..]) }

  lemma {:induction false} BarIndexAfter(a: string, x: string)
    requires '|' !in a
    ensures BarIndex(a + "|" + x) == |a|
  {
    if a != "" {
      BarIndexAfter(a[1..], x);
      assert (a + "|" + x)[0] == a[0] && a[0] in a;
      assert (a + "|" + x)[1..] == a[1..] + "|" + x;
    }
  }

  function Bars(s: string): nat { if s == "" then 0 else Bars(s[1..]) + if s[0] == '|' then 1 else 0 }

  lemma {:induction false} BarsAppend(a: string, b: string)
    ensures Bars(a + b) == Bars(a) + Bars(b)
  {
    if a == "" {
      assert a + b == b;
    } else {
      assert (a + b)[1..] == a[1..] + b;
      BarsAppend(a[1..], b);
    }
  }

  lemma {:induction false} NoBars(s: string)
    ensures Bars(s) == 0 <==> '|' !in s
  {
    if s != "" {
      NoBars(s[1..]);
      assert s == [s[0]] + s[1..];
    }
  }

  lemma KeyBars(t: Target)
    ensures Bars(CacheKey(t)) == Bars(t.provider) + Bars(t.installationId) + Bars(t.instanceKey) + 2
  {
    assert Bars("|") == 1 by { assert "|"[1..] == ""; }
    BarsAppend(t.provider, "|");
    BarsAppend(t.provider + "|", t.installationId);
    BarsAppend(t.provider + "|" + t.installationId, "|");
    BarsAppend(t.provider + "|" + t.installationId + "|", t.instanceKey);
  }

  /** Two bar-free texts before a bar. */
  lemma FirstBar(a: string, b: string, x: string, y: string)
    requires '|' !in a && '|' !in b && a + "|" + x == b + "|" + y
    ensures a == b && x == y
  {
    BarIndexAfter(a, x);
    BarIndexAfter(b, y);
    var u, v := a + "|" + x, b + "|" + y;
    assert a == u[..|a|] && b == v[..|b|] && x == u[|a| + 1..] && y == v[|b| + 1..];
  }

  /** A bar-free target shares its key with no other target. */
  lemma KeyTellsApart(t: Target, u: Target)
    requires BarFree(t) && CacheKey(u) == CacheKey(t)
    ensures u == t
  {
    KeyBars(t);
    KeyBars(u);
    NoBars(t.provider); NoBars(t.installationId); NoBars(t.instanceKey);
    NoBars(u.provider); NoBars(u.installationId); NoBars(u.instanceKey);
    hide Bars;
    var x, y := t.installationId + "|" + t.instanceKey, u.installationId + "|" + u.instanceKey;
    assert CacheKey(t) == t.provider + "|" + x && CacheKey(u) == u.provider + "|" + y;
    FirstBar(t.provider, u.provider, x, y);
    FirstBar(t.installationId, u.installationId, t.instanceKey, u.instanceKey);
  }

  /** A target with a bar in some part: the same text cut at other bars. */
  lemma OtherCut(t: Target) returns (u: Target)
    requires !BarFree(t)
    ensures u != t && CacheKey(u) == CacheKey(t)
  {
    var p, i, k := t.provider, t.installationId, t.instanceKey;
    if '|' in k {
      var a, b := CutAtBar(k);
      u := Target(p, i + "|" + a, b);
      Regroup(p + "|" + i + "|", a, b);
      Regroup(p + "|", i, a);
    } else if '|' in i {
      var a, b := CutAtBar(i);
      u := Target(p, a, b + "|" + k);
      Regroup(p + "|", a, b);
      Regroup(p + "|" + a + "|", b, k);
    } else {
      var a, b := CutAtBar(p);
      u := Target(a, b, i + "|" + k);
      Regroup("", a, b);
      Regroup(a + "|" + b + "|", i, k);
    }
  }

  lemma CutAtBar(s: string) returns (a: string, b: string)
    requires '|' in s
    ensures s == a + "|" + b && |a| < |s| && |b| < |s|
  {
    var n :| 0 <= n < |s| && s[n] == '|';
    a, b := s[..n], s[n + 1..];
  }

  lemma Regroup(x: string, a: string, b: string)
    ensures x + (a + "|" + b) == x + a + "|" + b
  {
  }

  /** A target has a key of its own if and only if no part of it contains a bar. */
  lemma KeyIsOwnIffBarFree(t: Target)
    ensures (forall u :: CacheKey(u) == CacheKey(t) ==> u == t) <==> BarFree(t)
  {
    if BarFree(t) {
      forall u | CacheKey(u) == CacheKey(t) ensures u == t {
        KeyTellsApart(t, u);
      }
    } else {
      var u := OtherCut(t);
    }
  }

  /** Two requests the provider accepts, and that share an entry. */
  const CLASH_A := Target("gitlab", "1|2", "k")
  const CLASH_B := Target("gitlab", "1", "2|k")

  lemma KeysCanClash()
    ensures CLASH_A != CLASH_B && CacheKey(CLASH_A) == CacheKey(CLASH_B) == "gitlab|1|2|k"
    ensures TargetOf("gitlab", "1|2", "k") == Some(CLASH_A) && TargetOf("gitlab", "1", "2|k") == Some(CLASH_B)
  {
    VisibleIsTrimmed("gitlab");
    VisibleIsTrimmed("1|2");
    VisibleIsTrimmed("k");
    VisibleIsTrimmed("1");
    VisibleIsTrimmed("2|k");
    hide TrimSpace;
  }

  /** The credential service: an error, or a client (possibly none) with its expiry. */
  datatype Fetch = FetchFailed | Fetched(client: Option<Client>, expiresAt: Time)

  datatype Answer = Failed | Got(client: Option<Client>)

  function TargetOf(provider: string, installationId: string, instanceKey: string): Option<Target> {
    if TrimSpace(provider) == "" || TrimSpace(installationId) == "" then None
    else Some(Target(TrimSpace(provider), TrimSpace(installationId), TrimSpace(instanceKey)))
  }

  /** The cache and the answer after a request for `t`. */
  function Served(s: seq<Slot>, size: nat, t: Target, skew: int, now: Time, fetch: Fetch): (seq<Slot>, Answer) {
    var (s', hit) := LruGet(s, CacheKey(t), FoundExpired(s, CacheKey(t), skew, now));
    if hit.Some? then (s', Got(hit))
    else match fetch
      case FetchFailed => (s', Failed)
      case Fetched(None, _) => (s', Got(None))
      case Fetched(Some(c), expiresAt) => (LruAdd(s', size, Slot(CacheKey(t), c, expiresAt)), Got(Some(c)))
  }

  /** `fetch` answers the request that is made when the cache has nothing. */
  method ClientFor(cache: ScmClientCache, skew: int, provider: string, installationId: string, instanceKey: string, now: Time, fetch: Fetch)
    returns (answer: Answer)
    requires cache.Valid()
    modifies cache, cache.order
    ensures cache.Valid()
    ensures match TargetOf(provider, installationId, instanceKey)
      case None => answer == Failed && cache.View() == old(cache.View())
      case Some(t) => (cache.View(), answer) == Served(old(cache.View()), cache.size, t, skew, now, fetch)
  {
    hide TrimSpace, Served;
    var p := TrimSpace(provider);
    if p == "" {
      return Failed;
    }
    var i := TrimSpace(installationId);
    if i == "" {
      return Failed;
    }
    answer := Serve(cache, skew, Target(p, i, TrimSpace(instanceKey)), now, fetch);
  }

  method Serve(cache: ScmClientCache, skew: int, t: Target, now: Time, fetch: Fetch) returns (answer: Answer)
    requires cache.Valid()
    modifies cache, cache.order
    ensures cache.Valid() && (cache.View(), answer) == Served(old(cache.View()), cache.size, t, skew, now, fetch)
  {
    hide LruGet, LruAdd, CacheKey, FoundExpired;
    var cacheKey := CacheKey(t);
    var cached := cache.Get(cacheKey, skew, now);
    if cached.Some? {
      return Got(cached);
    }
    if fetch.FetchFailed? {
      return Failed;
    }
    cache.Add(cacheKey, fetch.client, fetch.expiresAt);
    return Got(fetch.client);
  }

  // ---------- no client of another target ----------

  /** Every cached client is filed under the key of the target it was fetched for, which `owner`
      names. */
  predicate OwnClients(s: seq<Slot>, owner: Client -> Target) {
    forall slot | slot in s :: slot.key == CacheKey(owner(slot.client))
  }

  datatype Serving = Serving(target: Target, skew: int, now: Time, fetch: Fetch)

  /** The service answers with a client for the target it is asked for. */
  predicate Honest(r: Serving, owner: Client -> Target) {
    r.fetch.Fetched? && r.fetch.client.Some? ==> owner(r.fetch.client.value) == r.target
  }

  function After(s: seq<Slot>, size: nat, rs: seq<Serving>): seq<Slot> {
    if rs == [] then s
    else
      var r := rs[|rs| - 1];
      Served(After(s, size, rs[..|rs| - 1]), size, r.target, r.skew, r.now, r.fetch).0
  }

  function AnswerAfter(size: nat, rs: seq<Serving>, r: Serving): Answer {
    Served(After([], size, rs), size, r.target, r.skew, r.now, r.fetch).1
  }

  lemma ServedKeepsOwners(s: seq<Slot>, size: nat, r: Serving, owner: Client -> Target)
    requires OwnClients(s, owner) && Honest(r, owner)
    ensures OwnClients(Served(s, size, r.target, r.skew, r.now, r.fetch).0, owner)
    ensures var answer := Served(s, size, r.target, r.skew, r.now, r.fetch).1;
      answer.Got? && answer.client.Some? ==> CacheKey(owner(answer.client.value)) == CacheKey(r.target)
  {
    var key := CacheKey(r.target);
    var k := IndexOf(s, key);
    if k < |s| {
      assert s[k] in s;
    }
    var expired := FoundExpired(s, key, r.skew, r.now);
    GetMakesNothing(s, key, expired);
    if r.fetch.Fetched? && r.fetch.client.Some? {
      AddMakesOne(LruGet(s, key, expired).0, size, Slot(key, r.fetch.client.value, r.fetch.expiresAt));
    }
    hide CacheKey, LruAdd, IndexOf, FoundExpired;
  }

  lemma GetMakesNothing(s: seq<Slot>, key: string, expired: bool)
    ensures forall x | x in LruGet(s, key, expired).0 :: x in s
  {
    hide IndexOf;
  }

  lemma AddMakesOne(s: seq<Slot>, size: nat, slot: Slot)
    ensures forall x | x in LruAdd(s, size, slot) :: x in s || x == slot
  {
    hide IndexOf;
  }

  lemma {:induction false} CacheKeepsOwners(size: nat, rs: seq<Serving>, owner: Client -> Target)
    requires forall i | 0 <= i < |rs| :: Honest(rs[i], owner)
    ensures OwnClients(After([], size, rs), owner)
  {
    hide Served, OwnClients, Honest;
    if rs == [] {
      assert OwnClients([], owner) by { NothingOwned(owner); }
    } else {
      CacheKeepsOwners(size, rs[..|rs| - 1], owner);
      ServedKeepsOwners(After([], size, rs[..|rs| - 1]), size, rs[|rs| - 1], owner);
    }
  }

  lemma NothingOwned(owner: Client -> Target)
    ensures OwnClients([], owner)
  {
  }

  /** Whatever targets were asked for before, a request for a bar-free target is answered with a
      client that was fetched for that very target. */
  lemma OnlyOwnClients(size: nat, rs: seq<Serving>, r: Serving, owner: Client -> Target)
    requires (forall i | 0 <= i < |rs| :: Honest(rs[i], owner)) && Honest(r, owner) && BarFree(r.target)
    ensures var answer := AnswerAfter(size, rs, r);
      answer.Got? && answer.client.Some? ==> owner(answer.client.value) == r.target
  {
    CacheKeepsOwners(size, rs, owner);
    ServedKeepsOwners(After([], size, rs), size, r, owner);
    var answer := AnswerAfter(size, rs, r);
    hide Served, OwnClients, Honest, After, CacheKey;
    if answer.Got? && answer.client.Some? {
      KeyTellsApart(r.target, owner(answer.client.value));
    }
  }

  /** And for no other target: after one request for the target that shares the key, the client
      fetched for that one is handed out. */
  lemma OtherTargetsClient(size: nat, t: Target, c: Client, now: Time) returns (first: Serving, r: Serving)
    requires 1 <= size && !BarFree(t)
    ensures r.target == t && r.fetch.FetchFailed? && first.target != t && first.fetch == Fetched(Some(c), ZERO_TIME)
    ensures AnswerAfter(size, [first], r) == Got(Some(c))
  {
    var u := OtherCut(t);
    first := Serving(u, 0, now, Fetched(Some(c), ZERO_TIME));
    r := Serving(t, 0, now, FetchFailed);
    hide CacheKey;
    assert [first][..0] == [];
    assert After([], size, []) == [];
    assert After([], size, [first]) == [Slot(CacheKey(u), c, ZERO_TIME)];
  }

  ghost predicate HonestHistory(rs: seq<Serving>, r: Serving, owner: Client -> Target) {
    (forall i | 0 <= i < |rs| :: Honest(rs[i], owner)) && Honest(r, owner)
  }

  predicate OwnAnswer(size: nat, rs: seq<Serving>, r: Serving, owner: Client -> Target) {
    var answer := AnswerAfter(size, rs, r);
    answer.Got? && answer.client.Some? ==> owner(answer.client.value) == r.target
  }

  /** Over all histories, a target's requests are answered with its own clients only if and only
      if no part of the target contains a bar. */
  lemma OwnClientsIffBarFree(size: nat, t: Target)
    requires 1 <= size
    ensures (forall rs, r, owner | HonestHistory(rs, r, owner) && r.target == t :: OwnAnswer(size, rs, r, owner)) <==> BarFree(t)
  {
    hide AnswerAfter, CacheKey;
    if BarFree(t) {
      forall rs, r, owner | HonestHistory(rs, r, owner) && r.target == t ensures OwnAnswer(size, rs, r, owner) {
        OnlyOwnClients(size, rs, r, owner);
      }
    } else {
      var c := Client("");
      var first, r := OtherTargetsClient(size, t, c, 0);
      var owner := OwnedBy(first.target);
      assert HonestHistory([first], r, owner) && !OwnAnswer(size, [first], r, owner);
    }
  }

  function OwnedBy(t: Target): Client -> Target { c => t }
}
