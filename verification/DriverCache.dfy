/** pkg/drivers/cache.go: the per-tenant publisher cache. Publishers are numbered in the order
    they are built; the listing, the config parser and the broker connection are parameters. Calls
    come one after the other here; DriverCacheRaces lets them overlap. */
module DriverCache {
  import opened GoText

  datatype DriverRecord = DriverRecord(name: string, configJSON: string, enabled: bool)

  /** The driver names of a RelaybusConfig; its connection settings play no part here. */
  type Config = seq<string>

  predicate Supported(name: string) { name == "amqp" || name == "nats" || name == "kafka" || name == "http" }

  /** ConfigFromRecords: None when an enabled record's driver or settings are not understood. */
  function ConfigFromRecords(records: seq<DriverRecord>, parses: (string, string) -> bool): Option<Config> {
    if records == [] then Some([])
    else
      var r := records[|records| - 1];
      var name := Lower(TrimSpace(r.name));
      match ConfigFromRecords(records[..|records| - 1], parses)
      case None => None
      case Some(cfg) =>
        if !r.enabled || name == "" then Some(cfg)
        else if Supported(name) && parses(name, r.configJSON) then Some(cfg + [name])
        else None
  }

  const GLOBAL_KEY := "global"

  // cacheKeyFromContext
  function CacheKey(tenantId: string): string {
    if tenantId != "" then tenantId else GLOBAL_KEY
  }

  /** The cache key tells tenants apart, except that a tenant named `global` shares the entry of
      requests without a tenant. */
  lemma CacheKeyClash(t: string, u: string)
    ensures CacheKey(t) == CacheKey(u) <==> t == u || {t, u} == {"", GLOBAL_KEY}
  {
  }

  // ---------- the state ----------

  /** `built` publishers have been made so far, numbered from 0; `closed` counts Close calls. */
  datatype State = State(config: map<string, Config>, pub: map<string, nat>, built: nat, closed: multiset<nat>)

  /** Every publisher ever built is either cached for exactly one key and never closed, or cached
      nowhere and closed exactly once; and both caches have the same keys. */
  ghost predicate Conserved(s: State) {
    && s.config.Keys == s.pub.Keys
    && (forall k | k in s.pub :: s.pub[k] < s.built)
    && (forall k, l | k in s.pub && l in s.pub && k != l :: s.pub[k] != s.pub[l])
    && (forall p: nat :: s.closed[p] == if p < s.built && p !in s.pub.Values then 1 else 0)
  }

  const EMPTY := State(map[], map[], 0, multiset{})

  /** What a Refresh meets outside: the listing (None is an error), the parser, and whether the
      publisher can be built. */
  datatype World = World(listing: Option<seq<DriverRecord>>, parses: (string, string) -> bool, connects: bool)

  function CloseCached(s: State, key: string): multiset<nat> {
    if key in s.pub then s.closed + multiset{s.pub[key]} else s.closed
  }

  function Refreshed(s: State, key: string, w: World): (State, bool) {
    if w.listing.None? then (s, false)
    else match ConfigFromRecords(w.listing.value, w.parses)
      case None => (s, false)
      case Some(cfg) =>
        if cfg == [] then (Removed(s, key), true)
        else if !w.connects then (s, false)
        else (Rebuilt(s, key, cfg), true)
  }

  function Removed(s: State, key: string): State {
    State(s.config - {key}, s.pub - {key}, s.built, CloseCached(s, key))
  }

  function Rebuilt(s: State, key: string, cfg: Config): State {
    State(s.config[key := cfg], s.pub[key := s.built], s.built + 1, CloseCached(s, key))
  }

  /** Every cached publisher closed once, and the caches emptied. */
  function AllClosed(s: State): State {
    State(map[], map[], s.built, s.closed + multiset(s.pub.Values))
  }

  // ---------- the cache ----------

  class Cache {
    const hasStore: bool
    var config: map<string, Config>
    var pub: map<string, nat>
    var built: nat                // publishers made so far
    var closed: multiset<nat>     // Close calls received

    constructor (hasStore: bool)
      ensures this.hasStore == hasStore && Now() == EMPTY
    {
      this.hasStore := hasStore;
      config, pub, built, closed := map[], map[], 0, multiset{};
    }

    function Now(): State
      reads this
    {
      State(config, pub, built, closed)
    }

    method Refresh(tenantId: string, w: World) returns (ok: bool)
      requires Conserved(Now())
      modifies this
      ensures Conserved(Now())
      ensures (Now(), ok) == if hasStore then Refreshed(old(Now()), CacheKey(tenantId), w) else (old(Now()), true)
    {
      if !hasStore {
        return true;
      }
      var key := CacheKey(tenantId);
      if w.listing.None? {
        return false;
      }
      ok := RefreshTenant(key, w.listing.value, w);
    }

    method RefreshTenant(key: string, records: seq<DriverRecord>, w: World) returns (ok: bool)
      requires Conserved(Now()) && w.listing == Some(records)
      modifies this
      ensures Conserved(Now())
      ensures (Now(), ok) == Refreshed(old(Now()), key, w)
    {
      RefreshConserves(Now(), key, w);
      hide Conserved;
      var cfg := ConfigFromRecords(records, w.parses);
      if cfg.None? {
        return false;
      }
      if |cfg.value| == 0 {
        if key in pub {
          closed := closed + multiset{pub[key]};
        }
        pub := pub - {key};
        config := config - {key};
        return true;
      }
      if !w.connects {
        return false;
      }
      var made := built;
      built := built + 1;
      if key in pub {
        closed := closed + multiset{pub[key]};
      }
      config := config[key := cfg.value];
      pub := pub[key := made];
      return true;
    }

    method PublisherFor(tenantId: string, w: World) returns (r: Option<nat>)
      requires Conserved(Now())
      modifies this
      ensures Conserved(Now())
      ensures var key := CacheKey(tenantId);
        && Now() == (if key in old(pub) || !hasStore then old(Now()) else Refreshed(old(Now()), key, w).0)
        && r == if key in pub && (key in old(pub) || hasStore) then Some(pub[key]) else None
    {
      var key := CacheKey(tenantId);
      if key in pub {
        return Some(pub[key]);
      }
      if !hasStore {
        return None;
      }
      var ok := Refresh(tenantId, w);
      if !ok {
        return None;
      }
      if key !in pub {
        return None;
      }
      return Some(pub[key]);
    }

    method Close()
      requires Conserved(Now())
      modifies this
      ensures Conserved(Now()) && Now() == AllClosed(old(Now()))
    {
      CloseConserves(Now());
      assert Injective(pub) && config.Keys == pub.Keys;
      hide Conserved, Injective;
      var keys := CloseEach();
      EmptyCaches(keys);
    }

    /** Close's first loop: Range closes every publisher and collects the keys. */
    method CloseEach() returns (keys: set<string>)
      requires Injective(pub)
      modifies this`closed
      ensures keys == pub.Keys && closed == old(closed) + multiset(pub.Values)
    {
      hide Image, Injective;
      ghost var shut: set<nat> := {};
      keys := pub.Keys;
      var left := keys;
      ImageOfNone(pub);
      assert closed == old(closed) + multiset(shut);
      while left != {}
        invariant left <= keys
        invariant shut == Image(pub, keys - left) && closed == old(closed) + multiset(shut)
        decreases |left|
      {
        var key :| key in left;
        var p := pub[key];
        ImageAdd(pub, keys - left, key);
        AddOne(old(closed), shut, p);
        closed := closed + multiset{p};
        shut := shut + {p};
        assert keys - (left - {key}) == keys - left + {key};
        left := left - {key};
      }
      assert keys - left == keys;
      ImageOfAll(pub);
    }

    /** Close's second loop. */
    method EmptyCaches(keys: set<string>)
      requires pub.Keys == config.Keys == keys
      modifies this`pub, this`config
      ensures pub == map[] && config == map[]
    {
      var left := keys;
      while left != {}
        invariant pub.Keys == left && config.Keys == left
        decreases |left|
      {
        var key :| key in left;
        left := left - {key};
        pub := pub - {key};
        config := config - {key};
      }
    }
  }

  lemma AddOne(m: multiset<nat>, shut: set<nat>, p: nat)
    requires p !in shut
    ensures m + multiset(shut) + multiset{p} == m + multiset(shut + {p})
  {
  }

  ghost predicate Injective(m: map<string, nat>) {
    forall k, l | k in m && l in m && k != l :: m[k] != m[l]
  }

  function Image(m: map<string, nat>, ks: set<string>): set<nat> {
    set k | k in ks && k in m :: m[k]
  }

  lemma ImageOfNone(m: map<string, nat>)
    ensures Image(m, m.Keys - m.Keys) == {}
  {
  }

  lemma ImageAdd(m: map<string, nat>, ks: set<string>, key: string)
    requires Injective(m) && key in m && key !in ks && ks <= m.Keys
    ensures m[key] !in Image(m, ks) && Image(m, ks + {key}) == Image(m, ks) + {m[key]}
  {
  }

  lemma ImageOfAll(m: map<string, nat>)
    ensures Image(m, m.Keys) == m.Values
  {
  }

  lemma CloseConserves(s: State)
    requires Conserved(s)
    ensures Conserved(AllClosed(s))
  {
  }

  // the publishers cached after one of them has gone
  lemma ValuesWithout(m: map<string, nat>, key: string, p: nat)
    requires Injective(m)
    ensures p in (m - {key}).Values <==> p in m.Values && !(key in m && m[key] == p)
  {
    if p in m.Values {
      var k :| k in m && m[k] == p;
      assert k != key ==> k in m - {key};
    }
  }

  // and after another has come in its place
  lemma ValuesWith(m: map<string, nat>, key: string, made: nat, p: nat)
    requires Injective(m)
    ensures p in m[key := made].Values <==> p == made || (p in m.Values && !(key in m && m[key] == p))
  {
    ValuesWithout(m, key, p);
    assert m[key := made].Values == (m - {key}).Values + {made} by {
      assert m[key := made] == (m - {key})[key := made];
      ValuesOfNew(m - {key}, key, made);
    }
  }

  lemma ValuesOfNew(m: map<string, nat>, key: string, made: nat)
    requires key !in m
    ensures m[key := made].Values == m.Values + {made}
  {
    assert m[key := made][key] == made;
    forall p | p in m.Values ensures p in m[key := made].Values {
      var k :| k in m && m[k] == p;
      assert m[key := made][k] == p;
    }
  }

  lemma RemovedConserves(s: State, key: string)
    requires Conserved(s)
    ensures Conserved(Removed(s, key))
  {
    assert Injective(s.pub);
    forall p: nat ensures p in Removed(s, key).pub.Values <==> p in s.pub.Values && !(key in s.pub && s.pub[key] == p) {
      ValuesWithout(s.pub, key, p);
    }
    if key in s.pub { assert s.pub[key] in s.pub.Values; }
  }

  lemma RebuiltConserves(s: State, key: string, cfg: Config)
    requires Conserved(s)
    ensures Conserved(Rebuilt(s, key, cfg))
  {
    var t := Rebuilt(s, key, cfg);
    forall k, l | k in t.pub && l in t.pub && k != l ensures t.pub[k] != t.pub[l] {
      assert k != key ==> t.pub[k] == s.pub[k] < s.built;
      assert l != key ==> t.pub[l] == s.pub[l] < s.built;
    }
    forall p: nat ensures t.closed[p] == if p < t.built && p !in t.pub.Values then 1 else 0 {
      RebuiltCloses(s, key, cfg, p);
    }
  }

  lemma RebuiltCloses(s: State, key: string, cfg: Config, p: nat)
    requires Conserved(s)
    ensures var t := Rebuilt(s, key, cfg); t.closed[p] == if p < t.built && p !in t.pub.Values then 1 else 0
  {
    assert Injective(s.pub);
    ValuesWith(s.pub, key, s.built, p);
    assert s.closed[p] == if p < s.built && p !in s.pub.Values then 1 else 0;
    if key in s.pub { assert s.pub[key] in s.pub.Values && s.pub[key] < s.built; }
    hide Conserved, Injective;
  }

  lemma RefreshConserves(s: State, key: string, w: World)
    requires Conserved(s)
    ensures Conserved(Refreshed(s, key, w).0)
  {
    hide Conserved, ConfigFromRecords, Removed, Rebuilt;
    RemovedConserves(s, key);
    forall cfg ensures Conserved(Rebuilt(s, key, cfg)) {
      RebuiltConserves(s, key, cfg);
    }
  }

  // ---------- whole runs ----------

  datatype Op = Refresh(tenantId: string, w: World) | PublisherFor(tenantId: string, w: World) | Close

  function Apply(s: State, op: Op): State {
    match op
    case Refresh(t, w) => Refreshed(s, CacheKey(t), w).0
    case PublisherFor(t, w) => if CacheKey(t) in s.pub then s else Refreshed(s, CacheKey(t), w).0
    case Close => AllClosed(s)
  }

  function Run(s: State, ops: seq<Op>): State {
    if ops == [] then s else Apply(Run(s, ops[..|ops| - 1]), ops[|ops| - 1])
  }

  /** In every sequential run, each publisher ever built is either cached for exactly one key and
      open, or closed exactly once. */
  lemma {:induction false} RunConserves(ops: seq<Op>)
    ensures Conserved(Run(EMPTY, ops))
  {
    if ops != [] {
      var s := Run(EMPTY, ops[..|ops| - 1]);
      RunConserves(ops[..|ops| - 1]);
      match ops[|ops| - 1]
      case Refresh(t, w) => RefreshConserves(s, CacheKey(t), w);
      case PublisherFor(t, w) => RefreshConserves(s, CacheKey(t), w);
      case Close => CloseConserves(s);
    }
  }

  /** After a Close nothing is left open, and closing again closes nothing. */
  lemma CloseIsFinal(ops: seq<Op>)
    ensures var s := AllClosed(Run(EMPTY, ops));
      && (forall p: nat :: s.closed[p] == if p < s.built then 1 else 0)
      && AllClosed(s) == s
  {
    RunConserves(ops);
    CloseConserves(Run(EMPTY, ops));
    var s := AllClosed(Run(EMPTY, ops));
    assert s.pub.Values == {};
    assert s.closed + multiset(s.pub.Values) == s.closed;
  }

  /** A refresh changes one key at most; when it fails, or cannot connect, the old publisher stays
      cached and open; when it succeeds, the old one is closed. */
  lemma RefreshIsLocal(ops: seq<Op>, key: string, w: World)
    ensures var s := Run(EMPTY, ops); var (t, ok) := Refreshed(s, key, w);
      && s.config.Keys == s.pub.Keys && t.config.Keys == t.pub.Keys
      && (forall k | k != key :: (k in t.pub <==> k in s.pub) && (k in s.pub ==> t.pub[k] == s.pub[k] && t.config[k] == s.config[k] && t.closed[s.pub[k]] == 0))
      && (!ok ==> t == s)
      && (ok && key in s.pub ==> t.closed[s.pub[key]] == 1 && (key in t.pub ==> t.pub[key] == s.built && t.closed[t.pub[key]] == 0))
  {
    RunConserves(ops);
    hide Run;
    RefreshConserves(Run(EMPTY, ops), key, w);
    RefreshKeepsOthers(Run(EMPTY, ops), key, w);
  }

  lemma RefreshKeepsOthers(s: State, key: string, w: World)
    requires Conserved(s)
    ensures var (t, ok) := Refreshed(s, key, w);
      && (forall k | k != key :: (k in t.pub <==> k in s.pub) && (k in s.pub ==> t.pub[k] == s.pub[k] && t.config[k] == s.config[k] && t.closed[s.pub[k]] == 0))
      && (!ok ==> t == s)
      && (ok && key in s.pub ==> t.closed[s.pub[key]] == 1 && (key in t.pub ==> t.pub[key] == s.built && t.closed[t.pub[key]] == 0))
  {
    var (t, ok) := Refreshed(s, key, w);
    hide ConfigFromRecords;
    assert forall k | k in s.pub :: s.pub[k] in s.pub.Values && s.closed[s.pub[k]] == 0;
    assert ok ==> t.closed == CloseCached(s, key);
    assert forall k | k in s.pub && k != key :: CloseCached(s, key)[s.pub[k]] == 0;
    assert key in s.pub ==> CloseCached(s, key)[s.pub[key]] == 1 && CloseCached(s, key)[s.built] == 0;
    hide CloseCached, Conserved;
  }

  // ---------- the tenant publisher ----------

  /** The publisher a call goes to. */
  datatype Chosen = FromCache(pub: nat) | FromFallback | NoPublisher

  /** A cache and how often the fallback publisher has been closed. */
  datatype Owned = Owned(state: State, fallbackCloses: nat)

  function ClosedOnce(o: Owned, hasFallback: bool): Owned {
    Owned(AllClosed(o.state), o.fallbackCloses + if hasFallback then 1 else 0)
  }

  class TenantPublisher {
    const cache: Cache?
    const hasFallback: bool
    var fallbackCloses: nat       // Close calls received by the fallback

    constructor (cache: Cache?, hasFallback: bool)
      ensures this.cache == cache && this.hasFallback == hasFallback && fallbackCloses == 0
    {
      this.cache, this.hasFallback, fallbackCloses := cache, hasFallback, 0;
    }

    // publisherFor
    method PublisherFor(tenantId: string, w: World) returns (c: Chosen)
      requires cache != null ==> Conserved(cache.Now())
      modifies cache
      ensures cache != null ==> Conserved(cache.Now())
      ensures cache == null ==> c == if hasFallback then FromFallback else NoPublisher
      // A tenant's calls never go to the fallback, and what is cached for it is not closed.
      ensures cache != null ==> (c.FromFallback? ==> tenantId == "" && hasFallback)
      ensures cache != null && c.FromCache? ==> CacheKey(tenantId) in cache.pub && cache.pub[CacheKey(tenantId)] == c.pub && cache.closed[c.pub] == 0
      ensures cache != null && cache.hasStore && !c.FromCache? ==>
        CacheKey(tenantId) !in cache.pub && c == if hasFallback && tenantId == "" then FromFallback else NoPublisher
    {
      if cache == null {
        return if hasFallback then FromFallback else NoPublisher;
      }
      var pub := cache.PublisherFor(tenantId, w);
      if pub.Some? {
        return FromCache(pub.value);
      }
      if hasFallback && tenantId == "" {
        return FromFallback;
      }
      return NoPublisher;
    }

    method Close()
      requires cache != null ==> Conserved(cache.Now())
      modifies this, cache
      ensures cache != null ==> Conserved(cache.Now())
      ensures cache != null ==> Owned(cache.Now(), fallbackCloses) == ClosedOnce(old(Owned(cache.Now(), fallbackCloses)), hasFallback)
      ensures cache == null ==> fallbackCloses == old(fallbackCloses) + if hasFallback then 1 else 0
    {
      if cache != null {
        cache.Close();
      }
      if hasFallback {
        fallbackCloses := fallbackCloses + 1;
      }
    }
  }

  function ClosedTimes(o: Owned, hasFallback: bool, n: nat): Owned {
    if n == 0 then o else ClosedOnce(ClosedTimes(o, hasFallback, n - 1), hasFallback)
  }

  /** Closing the tenant publisher n times closes every cached publisher once, but the fallback n
      times: nothing is closed twice if and only if there is no fallback or one call. */
  lemma {:induction false} FallbackIsClosedAgain(ops: seq<Op>, hasFallback: bool, n: nat)
    ensures var o := ClosedTimes(Owned(Run(EMPTY, ops), 0), hasFallback, n);
      && (n > 0 ==> (forall p: nat :: o.state.closed[p] == if p < o.state.built then 1 else 0) && AllClosed(o.state) == o.state)
      && o.fallbackCloses == (if hasFallback then n else 0)
      && (o.fallbackCloses <= 1 <==> !hasFallback || n <= 1)
  {
    hide Run, AllClosed;
    if n == 1 {
      CloseIsFinal(ops);
    } else if n > 1 {
      FallbackIsClosedAgain(ops, hasFallback, n - 1);
    }
  }
}
