/** pkg/providerinstance/cache.go and the operations of pkg/api/providers_service.go that must
    keep it coherent with the store (pkg/storage/provider_instances/store.go). The config parser,
    the provider-name table and random hashes are parameters; the store answers every call.
    Calls come one after the other here; ProviderCacheRaces lets them overlap. */
module ProviderCache {
  import opened GoText
  import opened Sorting

  datatype Instance = Instance(tenantId: string, provider: string, key: string, configJSON: string, enabled: bool)

  datatype ProviderConfig = ProviderConfig(settings: string, enabled: bool)

  type Parser = string -> Option<string>

  type Configs = map<string, ProviderConfig>

  // ProviderConfigFromRecord
  function ConfigOf(r: Instance, parse: Parser): Option<ProviderConfig> {
    match parse(r.configJSON)
    case None => None
    case Some(settings) => Some(ProviderConfig(settings, r.enabled))
  }

  predicate Parsable(rows: seq<Instance>, parse: Parser) {
    forall r | r in rows :: parse(r.configJSON).Some?
  }

  // ---------- the store ----------

  predicate InTenant(r: Instance, tenant: string) { tenant == "" || r.tenantId == tenant }

  predicate SameKey(r: Instance, tenant: string, provider: string, key: string) {
    r.tenantId == tenant && r.provider == provider && r.key == key
  }

  function ListedBy(tenant: string, provider: string): Instance -> bool {
    (r: Instance) => InTenant(r, tenant) && (provider == "" || r.provider == provider)
  }

  function OfTenant(tenant: string): Instance -> bool { (r: Instance) => r.tenantId == tenant }

  function KeptBy(tenant: string, provider: string, key: string): Instance -> bool {
    (r: Instance) => !(InTenant(r, tenant) && r.provider == provider && r.key == key)
  }

  // ListProviderInstances: no tenant means all tenants, no provider all providers
  function Listed(rows: seq<Instance>, tenant: string, provider: string): seq<Instance> {
    Filter(rows, ListedBy(tenant, provider))
  }

  function RowsOf(rows: seq<Instance>, tenant: string): seq<Instance> {
    Filter(rows, OfTenant(tenant))
  }

  // UpsertProviderInstance: insert, or overwrite the row with the same tenant, provider and key
  function Upserted(rows: seq<Instance>, r: Instance): seq<Instance> {
    if rows == [] then [r]
    else if SameKey(rows[0], r.tenantId, r.provider, r.key) then [r] + rows[1..]
    else [rows[0]] + Upserted(rows[1..], r)
  }

  // DeleteProviderInstance
  function Deleted(rows: seq<Instance>, tenant: string, provider: string, key: string): seq<Instance> {
    Filter(rows, KeptBy(tenant, provider, key))
  }

  // ---------- the cache ----------

  /** The map refreshTenant builds; a later record overwrites an earlier one. */
  function Built(records: seq<Instance>, parse: Parser): Option<Configs> {
    if records == [] then Some(map[])
    else
      var r := records[|records| - 1];
      match (Built(records[..|records| - 1], parse), ConfigOf(r, parse))
      case (Some(m), Some(cfg)) => Some(m[r.provider + ":" + r.key := cfg])
      case _ => None
  }

  /** The cached map of a tenant is the one its stored records give. */
  predicate CoherentAt(items: map<string, Configs>, rows: seq<Instance>, parse: Parser, t: string) {
    t in items ==> RowsOf(rows, t) != [] && Built(RowsOf(rows, t), parse) == Some(items[t])
  }

  ghost predicate Coherent(items: map<string, Configs>, rows: seq<Instance>, parse: Parser) {
    forall t: string :: CoherentAt(items, rows, parse, t)
  }

  predicate SameEntry(items: map<string, Configs>, before: map<string, Configs>, t: string) {
    (t in items <==> t in before) && (t in items ==> items[t] == before[t])
  }

  predicate RebuiltAt(items: map<string, Configs>, rows: seq<Instance>, parse: Parser, t: string) {
    (t in items <==> RowsOf(rows, t) != []) && CoherentAt(items, rows, parse, t)
  }

  /** The tenants a Refresh is for: one, or all when it has no tenant. */
  predicate InScope(tenantId: string, t: string) { tenantId == "" || t == tenantId }

  ghost predicate AllBuild(rows: seq<Instance>, tenantId: string, parse: Parser) {
    forall t: string | InScope(tenantId, t) :: Built(RowsOf(rows, t), parse).Some?
  }

  /** What a successful Refresh leaves: a tenant's own entry, or all entries, rebuilt. */
  ghost predicate RefreshedTo(items: map<string, Configs>, before: map<string, Configs>, rows: seq<Instance>, tenantId: string, parse: Parser) {
    forall t: string :: if InScope(tenantId, t) then RebuiltAt(items, rows, parse, t) else SameEntry(items, before, t)
  }

  /** What a failed Refresh leaves: for one tenant nothing new; for all, some entries rebuilt. */
  ghost predicate PartlyRefreshed(items: map<string, Configs>, before: map<string, Configs>, rows: seq<Instance>, tenantId: string, parse: Parser) {
    && (tenantId != "" ==> items == before)
    && forall t: string :: SameEntry(items, before, t) || (t in items && RebuiltAt(items, rows, parse, t))
  }

  ghost predicate RefreshOutcome(items: map<string, Configs>, before: map<string, Configs>, rows: seq<Instance>, tenantId: string, parse: Parser, ok: bool) {
    && (ok <==> AllBuild(rows, tenantId, parse))
    && if ok then RefreshedTo(items, before, rows, tenantId, parse) else PartlyRefreshed(items, before, rows, tenantId, parse)
  }

  /** A tenant other than the blank one has at most one instance per provider. */
  predicate OnePerProvider(rows: seq<Instance>) {
    forall i, j | 0 <= i < j < |rows| && rows[i].tenantId == rows[j].tenantId != "" :: rows[i].provider != rows[j].provider
  }

  /** What a lookup straight from the store would give. */
  function StoredConfig(rows: seq<Instance>, parse: Parser, tenantId: string, provider: string, key: string): Option<ProviderConfig> {
    match Built(RowsOf(rows, tenantId), parse)
    case None => None
    case Some(m) => EntryOf(m, provider, key)
  }

  lemma NoRecordsBuild(parse: Parser)
    ensures Built([], parse) == Some(map[])
  {
  }

  lemma BuiltNonEmpty(records: seq<Instance>, parse: Parser)
    requires Built(records, parse).Some?
    ensures records != [] <==> Built(records, parse).value != map[]
  {
    if records != [] {
      var r := records[|records| - 1];
      assert r.provider + ":" + r.key in Built(records, parse).value;
    }
  }

  class Store {
    var rows: seq<Instance>
  }

  class Cache {
    const store: Store?
    const parse: Parser
    var items: map<string, Configs>

    constructor (store: Store?, parse: Parser)
      ensures this.store == store && this.parse == parse && items == map[]
    {
      this.store, this.parse, items := store, parse, map[];
    }

    method RefreshTenant(tenantId: string, records: seq<Instance>) returns (ok: bool)
      modifies this
      ensures ok <==> Built(records, parse).Some?
      ensures items == if !ok then old(items)
                       else if Built(records, parse).value == map[] then old(items) - {tenantId}
                       else old(items)[tenantId := Built(records, parse).value]
    {
      var configs: Configs := map[];
      for i := 0 to |records|
        invariant Built(records[..i], parse) == Some(configs) && items == old(items)
      {
        var record := records[i];
        assert records[..i + 1][..i] == records[..i];
        var cfg := ConfigOf(record, parse);
        if cfg.None? {
          PrefixFails(records, i + 1, parse);
          return false;
        }
        configs := configs[record.provider + ":" + record.key := cfg.value];
      }
      assert records[..|records|] == records;
      if |configs| == 0 {
        items := items - {tenantId};
        return true;
      }
      items := items[tenantId := configs];
      return true;
    }

    method Refresh(tenantId: string) returns (ok: bool)
      modifies this
      ensures store == null ==> ok && items == old(items)
      ensures store != null ==> RefreshOutcome(items, old(items), store.rows, tenantId, parse, ok)
    {
      if store == null {
        return true;
      }
      if tenantId != "" {
        var records := Listed(store.rows, tenantId, "");
        ListedIsRowsOf(store.rows, tenantId);
        ok := RefreshTenant(tenantId, records);
        OneTenantOutcome(items, old(items), store.rows, tenantId, parse, ok);
        return ok;
      }
      var records := Listed(store.rows, "", "");
      ListedIsAll(store.rows);
      ok := RefreshGroups(records);
      if !ok {
        return ok;
      }
      RemoveOthers(records);
    }

    // the loop over the cached tenants without records
    method RemoveOthers(records: seq<Instance>)
      requires forall t: string | RowsOf(records, t) != [] :: RebuiltAt(items, records, parse, t)
      modifies this
      ensures forall t: string :: RebuiltAt(items, records, parse, t)
    {
      var left := items.Keys;
      while left != {}
        invariant left <= items.Keys
        invariant forall t: string | RowsOf(records, t) != [] :: RebuiltAt(items, records, parse, t)
        invariant forall t | t in items && t !in left :: RowsOf(records, t) != []
        decreases |left|
      {
        var id :| id in left;
        left := left - {id};
        RowsOfNonEmpty(records, id);
        if exists r :: r in records && r.tenantId == id { continue; }
        items := items - {id};
      }
    }

    // the grouping loop, and the refresh of every group in any order
    method RefreshGroups(records: seq<Instance>) returns (ok: bool)
      modifies this
      ensures ok <==> AllBuild(records, "", parse)
      ensures ok ==> forall t: string | RowsOf(records, t) != [] :: RebuiltAt(items, records, parse, t)
      ensures PartlyRefreshed(items, old(items), records, "", parse)
    {
      var grouped := Group(records);
      hide RowsOf, Built;
      ok := RefreshEach(grouped);
      forall t: string ensures t !in grouped ==> Built(RowsOf(records, t), parse).Some? {
        NoRecordsBuild(parse);
      }
      assert ok <==> AllBuild(records, "", parse) by {
        assert forall t :: InScope("", t);
      }
    }

    method RefreshEach(grouped: map<string, seq<Instance>>) returns (ok: bool)
      requires forall t | t in grouped :: grouped[t] != []
      modifies this
      ensures ok <==> forall t | t in grouped :: Built(grouped[t], parse).Some?
      ensures ok ==> forall t | t in grouped :: t in items && Built(grouped[t], parse) == Some(items[t])
      ensures forall t: string :: SameEntry(items, old(items), t) || (t in grouped && t in items && Built(grouped[t], parse) == Some(items[t]))
    {
      hide Built;
      var left := grouped.Keys;
      while left != {}
        invariant left <= grouped.Keys
        invariant forall t | t in grouped && t !in left :: t in items && Built(grouped[t], parse) == Some(items[t])
        invariant forall t: string | t !in grouped || t in left :: SameEntry(items, old(items), t)
        decreases |left|
      {
        var id :| id in left;
        ok := RefreshTenant(id, grouped[id]);
        if !ok {
          return;
        }
        BuiltNonEmpty(grouped[id], parse);
        left := left - {id};
      }
      return true;
    }

    method ConfigFor(tenantId: string, provider: string, key: string) returns (cfg: Option<ProviderConfig>, ok: bool)
      modifies this
      ensures tenantId in old(items) ==> ok && items == old(items)
      ensures tenantId !in old(items) && store == null ==> !ok && items == old(items)
      ensures tenantId !in old(items) && store != null ==> RefreshOutcome(items, old(items), store.rows, tenantId, parse, ok)
      ensures cfg == if ok && tenantId in items then EntryOf(items[tenantId], provider, key) else None
      // A coherent cache stays so, and answers what the store holds.
      ensures store != null && Coherent(old(items), store.rows, parse) ==>
        Coherent(items, store.rows, parse) && (ok ==> cfg == StoredConfig(store.rows, parse, tenantId, provider, key))
    {
      if tenantId in items {
        if store != null && Coherent(items, store.rows, parse) {
          assert CoherentAt(items, store.rows, parse, tenantId);
        }
        return EntryOf(items[tenantId], provider, key), true;
      }
      if store == null {
        return None, false;
      }
      ok := Refresh(tenantId);
      if Coherent(old(items), store.rows, parse) {
        OutcomeKeepsCoherent(items, old(items), store.rows, store.rows, tenantId, parse, ok);
      }
      if !ok {
        return None, false;
      }
      assert RebuiltAt(items, store.rows, parse, tenantId);
      if tenantId in items {
        return EntryOf(items[tenantId], provider, key), true;
      }
      return None, true;
    }
  }

  // the loop of Refresh that groups the records by tenant
  method Group(records: seq<Instance>) returns (grouped: map<string, seq<Instance>>)
    ensures forall t: string :: (t in grouped <==> RowsOf(records, t) != []) && (t in grouped ==> grouped[t] == RowsOf(records, t))
  {
    grouped := map[];
    for i := 0 to |records|
      invariant forall t: string :: (t in grouped <==> RowsOf(records[..i], t) != []) && (t in grouped ==> grouped[t] == RowsOf(records[..i], t))
    {
      var r := records[i];
      forall t: string ensures RowsOf(records[..i + 1], t) == RowsOf(records[..i], t) + if r.tenantId == t then [r] else [] {
        RowsOfSnoc(records[..i], r, t);
        assert records[..i + 1] == records[..i] + [r];
      }
      grouped := grouped[r.tenantId := (if r.tenantId in grouped then grouped[r.tenantId] else []) + [r]];
    }
    assert records[..|records|] == records;
  }

  function EntryOf(m: Configs, provider: string, key: string): Option<ProviderConfig> {
    if provider + ":" + key in m then Some(m[provider + ":" + key]) else None
  }

  lemma OneTenantOutcome(items: map<string, Configs>, before: map<string, Configs>, rows: seq<Instance>, tenantId: string, parse: Parser, ok: bool)
    requires tenantId != "" && (ok <==> Built(RowsOf(rows, tenantId), parse).Some?)
    requires items == if !ok then before
                      else if Built(RowsOf(rows, tenantId), parse).value == map[] then before - {tenantId}
                      else before[tenantId := Built(RowsOf(rows, tenantId), parse).value]
    ensures RefreshOutcome(items, before, rows, tenantId, parse, ok)
  {
    assert ok <==> AllBuild(rows, tenantId, parse) by {
      assert InScope(tenantId, tenantId);
    }
    if ok {
      BuiltNonEmpty(RowsOf(rows, tenantId), parse);
    }
  }

  // ---------- facts about the store ----------

  lemma {:induction false} PrefixFails(records: seq<Instance>, k: nat, parse: Parser)
    requires k <= |records| && Built(records[..k], parse).None?
    ensures Built(records, parse).None?
    decreases |records|
  {
    if k == |records| {
      assert records[..k] == records;
    } else {
      assert records[..|records| - 1][..k] == records[..k];
      PrefixFails(records[..|records| - 1], k, parse);
    }
  }

  lemma RowsOfSnoc(rows: seq<Instance>, r: Instance, t: string)
    ensures RowsOf(rows + [r], t) == RowsOf(rows, t) + if r.tenantId == t then [r] else []
  {
    FilterAppend(rows, [r], OfTenant(t));
    assert [r][1..] == [];
  }

  lemma RowsOfNonEmpty(rows: seq<Instance>, t: string)
    ensures RowsOf(rows, t) != [] <==> exists r :: r in rows && r.tenantId == t
  {
    if RowsOf(rows, t) != [] {
      assert RowsOf(rows, t)[0] in rows;
    }
  }

  lemma {:induction false} FilterSame(rows: seq<Instance>, p: Instance -> bool, q: Instance -> bool)
    requires forall r | r in rows :: p(r) == q(r)
    ensures Filter(rows, p) == Filter(rows, q)
  {
    if rows != [] {
      assert rows[0] in rows;
      FilterSame(rows[1..], p, q);
    }
  }

  lemma ListedIsRowsOf(rows: seq<Instance>, tenant: string)
    requires tenant != ""
    ensures Listed(rows, tenant, "") == RowsOf(rows, tenant)
  {
    FilterSame(rows, ListedBy(tenant, ""), OfTenant(tenant));
  }

  lemma ListedIsAll(rows: seq<Instance>)
    ensures Listed(rows, "", "") == rows
  {
    FilterAll(rows, ListedBy("", ""));
  }

  // ---------- the provider service ----------

  // auth.NormalizeProviderName
  function NormalizeProviderName(provider: string): string {
    var p := Lower(TrimSpace(provider));
    var q := seq(|p|, i requires 0 <= i < |p| => if p[i] == '-' then '_' else p[i]);
    if q == "jira" then "atlassian" else q
  }

  datatype Request = Request(provider: string, hash: string, configJSON: string, enabled: bool)

  /** Store and cache together. */
  datatype State = State(rows: seq<Instance>, items: map<string, Configs>)

  /** The row an accepted UpsertProvider writes; None is one of its error returns. `generated` is
      the outcome of the random-hash loop. */
  function RowFor(rows: seq<Instance>, tenant: string, req: Request, generated: Option<string>): Option<Instance> {
    var provider, hash := NormalizeProviderName(req.provider), TrimSpace(req.hash);
    if provider == "" then None
    else
      var existing := Listed(rows, tenant, provider);
      var key := if hash != "" then Some(hash) else if existing != [] then None else generated;
      if key.None? || key.value == "" then None
      else if hash != "" && existing != [] && !(exists r :: r in existing && r.key == hash) then None
      else
        var configJSON := TrimSpace(req.configJSON);
        var same := Filter(existing, HasKey(key.value));
        var kept := if configJSON == "" && same != [] then TrimSpace(same[0].configJSON) else configJSON;
        Some(Instance(tenant, provider, key.value, kept, req.enabled))
  }

  function HasKey(key: string): Instance -> bool { (r: Instance) => r.key == key }

  method UpsertProvider(store: Store, cache: Cache?, tenant: string, req: Request, generated: Option<string>) returns (ok: bool)
    requires cache != null ==> cache.store == store
    modifies store, cache
    ensures ok <==> RowFor(old(store.rows), tenant, req, generated).Some?
    ensures store.rows == if ok then Upserted(old(store.rows), RowFor(old(store.rows), tenant, req, generated).value) else old(store.rows)
    ensures cache != null ==>
      if ok then RefreshOutcome(cache.items, old(cache.items), store.rows, tenant, cache.parse, AllBuild(store.rows, tenant, cache.parse))
      else cache.items == old(cache.items)
  {
    hide TrimSpace, NormalizeProviderName, Listed, RefreshOutcome, AllBuild, Upserted;
    var providerName := NormalizeProviderName(req.provider);
    var hash := TrimSpace(req.hash);
    var configJSON := TrimSpace(req.configJSON);
    if providerName == "" {
      return false;
    }
    var existing := Listed(store.rows, tenant, providerName);
    if hash == "" {
      if |existing| > 0 {
        return false;
      }
      if generated.None? || generated.value == "" {
        return false;
      }
      hash := generated.value;
    } else if |existing| > 0 {
      var found := false;
      for i := 0 to |existing|
        invariant found <==> exists j :: 0 <= j < i && existing[j].key == hash
      {
        if existing[i].key == hash {
          found := true;
          break;
        }
      }
      assert found <==> exists r :: r in existing && r.key == hash;
      if !found {
        return false;
      }
    }
    if configJSON == "" {
      var same := Filter(existing, HasKey(hash));
      if |same| > 0 {
        configJSON := TrimSpace(same[0].configJSON);
      }
    }
    var row := Instance(tenant, providerName, hash, configJSON, req.enabled);
    assert RowFor(store.rows, tenant, req, generated) == Some(row);
    store.rows := Upserted(store.rows, row);
    if cache != null {
      RefreshCacheAfterWrite(cache, tenant);
    }
    return true;
  }

  /** A failed refresh is only logged. */
  method RefreshCacheAfterWrite(cache: Cache, tenant: string)
    requires cache.store != null
    modifies cache
    ensures RefreshOutcome(cache.items, old(cache.items), cache.store.rows, tenant, cache.parse, AllBuild(cache.store.rows, tenant, cache.parse))
  {
    var refreshed := cache.Refresh(tenant);
  }

  /** The arguments DeleteProvider accepts. */
  predicate Deletable(provider: string, hash: string) { NormalizeProviderName(provider) != "" && TrimSpace(hash) != "" }

  method DeleteProvider(store: Store, cache: Cache?, tenant: string, provider: string, hash: string) returns (ok: bool)
    requires cache != null ==> cache.store == store
    modifies store, cache
    ensures ok <==> Deletable(provider, hash)
    ensures store.rows == if ok then Deleted(old(store.rows), tenant, NormalizeProviderName(provider), TrimSpace(hash)) else old(store.rows)
    ensures cache != null ==>
      if ok then RefreshOutcome(cache.items, old(cache.items), store.rows, tenant, cache.parse, AllBuild(store.rows, tenant, cache.parse))
      else cache.items == old(cache.items)
  {
    var name, key := NormalizeProviderName(provider), TrimSpace(hash);
    if name == "" || key == "" {
      return false;
    }
    hide NormalizeProviderName, TrimSpace, RefreshOutcome, AllBuild;
    store.rows := Deleted(store.rows, tenant, name, key);
    if cache != null {
      RefreshCacheAfterWrite(cache, tenant);
    }
    return true;
  }

  // ---------- coherence and uniqueness over runs ----------

  lemma {:induction false} UpsertedElsewhere(rows: seq<Instance>, r: Instance, t: string)
    requires t != r.tenantId
    ensures RowsOf(Upserted(rows, r), t) == RowsOf(rows, t)
  {
    if rows == [] {
      assert [r][1..] == [];
    } else if SameKey(rows[0], r.tenantId, r.provider, r.key) {
      assert ([r] + rows[1..])[1..] == rows[1..];
    } else {
      UpsertedElsewhere(rows[1..], r, t);
      assert ([rows[0]] + Upserted(rows[1..], r))[1..] == Upserted(rows[1..], r);
    }
  }

  lemma {:induction false} FilterFilter(rows: seq<Instance>, p: Instance -> bool, q: Instance -> bool)
    requires forall r :: q(r) ==> p(r)
    ensures Filter(Filter(rows, p), q) == Filter(rows, q)
  {
    if rows != [] {
      FilterFilter(rows[1..], p, q);
    }
  }

  lemma DeletedElsewhere(rows: seq<Instance>, tenant: string, provider: string, key: string, t: string)
    requires tenant != "" && t != tenant
    ensures RowsOf(Deleted(rows, tenant, provider, key), t) == RowsOf(rows, t)
  {
    FilterFilter(rows, KeptBy(tenant, provider, key), OfTenant(t));
  }

  /** After a write for one tenant, that tenant's refresh leaves the cache coherent exactly when
      its records build or it has no entry. */
  lemma CoherentIffTenantBuilds(items: map<string, Configs>, before: map<string, Configs>, rows: seq<Instance>, rows': seq<Instance>, tenant: string, parse: Parser)
    requires Coherent(before, rows, parse) && tenant != "" && RefreshOutcome(items, before, rows', tenant, parse, AllBuild(rows', tenant, parse))
    requires forall t: string | t != tenant :: RowsOf(rows', t) == RowsOf(rows, t)
    ensures Coherent(items, rows', parse) <==> Built(RowsOf(rows', tenant), parse).Some? || tenant !in before
  {
    assert InScope(tenant, tenant);
    assert AllBuild(rows', tenant, parse) <==> Built(RowsOf(rows', tenant), parse).Some?;
    forall t: string | t != tenant ensures CoherentAt(items, rows', parse, t) {
      assert CoherentAt(before, rows, parse, t) && SameEntry(items, before, t);
    }
    assert Coherent(items, rows', parse) <==> CoherentAt(items, rows', parse, tenant);
    if AllBuild(rows', tenant, parse) {
      assert RebuiltAt(items, rows', parse, tenant);
    }
  }

  /** The tenant's records build to the same map as before. */
  predicate BuildsAsBefore(rows: seq<Instance>, rows': seq<Instance>, t: string, parse: Parser) {
    RowsOf(rows', t) != [] && Built(RowsOf(rows', t), parse) == Built(RowsOf(rows, t), parse)
  }

  /** After a write for any tenant, or for none (which refreshes all tenants and may stop anywhere in
      map order), every outcome of the refresh is coherent exactly when all records in scope
      build, or the records of every cached tenant in scope build to the map they built before. */
  lemma CoherentIffBuilds(before: map<string, Configs>, rows: seq<Instance>, rows': seq<Instance>, tenant: string, parse: Parser)
    requires Coherent(before, rows, parse)
    requires forall t: string | !InScope(tenant, t) :: RowsOf(rows', t) == RowsOf(rows, t)
    ensures (forall items | RefreshOutcome(items, before, rows', tenant, parse, AllBuild(rows', tenant, parse)) :: Coherent(items, rows', parse))
      <==> AllBuild(rows', tenant, parse) || (forall t | t in before && InScope(tenant, t) :: BuildsAsBefore(rows, rows', t, parse))
  {
    var builds := AllBuild(rows', tenant, parse);
    hide AllBuild, RowsOf, Built;
    if builds || (forall t | t in before && InScope(tenant, t) :: BuildsAsBefore(rows, rows', t, parse)) {
      forall items | RefreshOutcome(items, before, rows', tenant, parse, builds) ensures Coherent(items, rows', parse) {
        if builds {
          OutcomeKeepsCoherent(items, before, rows, rows', tenant, parse, true);
        } else {
          PartKeepsCoherent(items, before, rows, rows', tenant, parse);
        }
      }
    } else {
      var t :| t in before && InScope(tenant, t) && !BuildsAsBefore(rows, rows', t, parse);
      assert RefreshOutcome(before, before, rows', tenant, parse, builds);
      assert CoherentAt(before, rows, parse, t);
      assert !CoherentAt(before, rows', parse, t);
    }
  }

  lemma PartKeepsCoherent(items: map<string, Configs>, before: map<string, Configs>, rows: seq<Instance>, rows': seq<Instance>, tenant: string, parse: Parser)
    requires Coherent(before, rows, parse) && PartlyRefreshed(items, before, rows', tenant, parse)
    requires forall t: string | !InScope(tenant, t) :: RowsOf(rows', t) == RowsOf(rows, t)
    requires forall t | t in before && InScope(tenant, t) :: BuildsAsBefore(rows, rows', t, parse)
    ensures Coherent(items, rows', parse)
  {
    hide RowsOf, Built;
    forall t: string ensures CoherentAt(items, rows', parse, t) {
      assert CoherentAt(before, rows, parse, t);
      assert SameEntry(items, before, t) || (t in items && RebuiltAt(items, rows', parse, t));
    }
  }

  /** A refresh keeps a coherent cache so, if it succeeds or the records have not changed. */
  lemma OutcomeKeepsCoherent(items: map<string, Configs>, before: map<string, Configs>, rows: seq<Instance>, rows': seq<Instance>, tenant: string, parse: Parser, ok: bool)
    requires Coherent(before, rows, parse) && RefreshOutcome(items, before, rows', tenant, parse, ok)
    requires ok || rows' == rows
    requires tenant != "" ==> forall t: string | t != tenant :: RowsOf(rows', t) == RowsOf(rows, t)
    ensures Coherent(items, rows', parse)
  {
    forall t: string ensures CoherentAt(items, rows', parse, t) {
      assert CoherentAt(before, rows, parse, t);
      if ok {
        assert if InScope(tenant, t) then RebuiltAt(items, rows', parse, t) else SameEntry(items, before, t);
      } else {
        assert SameEntry(items, before, t) || (t in items && RebuiltAt(items, rows', parse, t));
      }
    }
  }

  lemma {:induction false} ParsableBuilds(records: seq<Instance>, parse: Parser)
    requires Parsable(records, parse)
    ensures Built(records, parse).Some?
  {
    if records != [] {
      var init := records[..|records| - 1];
      assert forall r | r in init :: r in records;
      ParsableBuilds(init, parse);
      assert records[|records| - 1] in records;
    }
  }

  lemma {:induction false} UpsertedElements(rows: seq<Instance>, r: Instance)
    ensures |rows| <= |Upserted(rows, r)| <= |rows| + 1
    ensures forall i | 0 <= i < |Upserted(rows, r)| :: Upserted(rows, r)[i] == r || (i < |rows| && Upserted(rows, r)[i] == rows[i])
    ensures |Upserted(rows, r)| == |rows| + 1 ==> Upserted(rows, r) == rows + [r] && forall x | x in rows :: !SameKey(x, r.tenantId, r.provider, r.key)
    ensures |Upserted(rows, r)| == |rows| ==> exists i :: 0 <= i < |rows| && SameKey(rows[i], r.tenantId, r.provider, r.key) && Upserted(rows, r) == rows[i := r]
  {
    hide SameKey;
    if rows != [] && !SameKey(rows[0], r.tenantId, r.provider, r.key) {
      var tail, out := rows[1..], Upserted(rows[1..], r);
      UpsertedElements(tail, r);
      if |out| == |tail| {
        var i :| 0 <= i < |tail| && SameKey(tail[i], r.tenantId, r.provider, r.key) && out == tail[i := r];
        assert SameKey(rows[i + 1], r.tenantId, r.provider, r.key);
        assert Upserted(rows, r) == rows[i + 1 := r];
      } else {
        assert Upserted(rows, r) == rows + [r];
      }
    } else if rows != [] {
      assert Upserted(rows, r) == rows[0 := r];
    }
  }

  /** UpsertProvider keeps at most one instance per provider for every tenant with a name. */
  lemma UpsertKeepsOnePerProvider(rows: seq<Instance>, tenant: string, req: Request, generated: Option<string>)
    requires OnePerProvider(rows) && RowFor(rows, tenant, req, generated).Some?
    ensures OnePerProvider(Upserted(rows, RowFor(rows, tenant, req, generated).value))
  {
    hide TrimSpace, NormalizeProviderName;
    var r := RowFor(rows, tenant, req, generated).value;
    var out := Upserted(rows, r);
    UpsertedElements(rows, r);
    if |out| == |rows| + 1 && tenant != "" {
      var existing := Listed(rows, tenant, r.provider);
      assert forall y | y in existing :: !SameKey(y, tenant, r.provider, r.key) && y.key != r.key;
      assert existing == [];
      forall x | x in rows && x.tenantId == tenant ensures x.provider != r.provider {
        assert x !in existing;
      }
    }
  }

  lemma {:induction false} FilterKeepsOnePerProvider(rows: seq<Instance>, p: Instance -> bool)
    requires OnePerProvider(rows)
    ensures OnePerProvider(Filter(rows, p))
  {
    if rows != [] {
      var tail := rows[1..];
      assert forall i | 0 <= i < |tail| :: tail[i] == rows[i + 1];
      FilterKeepsOnePerProvider(tail, p);
      forall x | x in tail && x.tenantId == rows[0].tenantId != "" ensures x.provider != rows[0].provider {
        var i :| 0 <= i < |tail| && tail[i] == x;
        assert rows[i + 1] == x;
      }
      assert forall x | x in Filter(tail, p) :: x in tail;
    }
  }

  /** DeleteProvider keeps it too. */
  lemma DeleteKeepsOnePerProvider(rows: seq<Instance>, tenant: string, provider: string, key: string)
    requires OnePerProvider(rows)
    ensures OnePerProvider(Deleted(rows, tenant, provider, key))
  {
    FilterKeepsOnePerProvider(rows, KeptBy(tenant, provider, key));
  }

  datatype Op =
    | Upsert(tenant: string, req: Request, generated: Option<string>)
    | Delete(tenant: string, provider: string, hash: string)
    | RefreshCache(tenant: string)
    | Lookup(tenant: string)

  function RowsAfter(rows: seq<Instance>, op: Op): seq<Instance> {
    match op
    case Upsert(tenant, req, generated) =>
      (match RowFor(rows, tenant, req, generated) case None => rows case Some(r) => Upserted(rows, r))
    case Delete(tenant, provider, hash) =>
      if Deletable(provider, hash) then Deleted(rows, tenant, NormalizeProviderName(provider), TrimSpace(hash)) else rows
    case _ => rows
  }

  /** The operation refreshes its tenant's entry; a lookup only when the tenant is not cached. */
  predicate Refreshes(s: State, op: Op) {
    match op
    case Upsert(tenant, req, generated) => RowFor(s.rows, tenant, req, generated).Some?
    case Delete(_, provider, hash) => Deletable(provider, hash)
    case RefreshCache(_) => true
    case Lookup(tenant) => tenant !in s.items
  }

  ghost predicate Step(s: State, op: Op, t: State, parse: Parser) {
    && t.rows == RowsAfter(s.rows, op)
    && if Refreshes(s, op) then RefreshOutcome(t.items, s.items, t.rows, op.tenant, parse, AllBuild(t.rows, op.tenant, parse)) else t.items == s.items
  }

  ghost predicate IsRun(states: seq<State>, ops: seq<Op>, parse: Parser) {
    && |states| == |ops| + 1 && states[0] == State([], map[])
    && forall i | 0 <= i < |ops| :: Step(states[i], ops[i], states[i + 1], parse)
  }

  lemma StepKeepsCoherent(s: State, op: Op, t: State, parse: Parser)
    requires Coherent(s.items, s.rows, parse) && OnePerProvider(s.rows) && Step(s, op, t, parse) && Parsable(t.rows, parse)
    ensures Coherent(t.items, t.rows, parse) && OnePerProvider(t.rows)
  {
    hide RowFor, NormalizeProviderName, TrimSpace, Coherent, RefreshOutcome, AllBuild, OnePerProvider, RowsOf;
    match op {
      case Upsert(tenant, req, generated) =>
        if Refreshes(s, op) {
          var r := RowFor(s.rows, tenant, req, generated).value;
          assert r.tenantId == tenant by { RowForTenant(s.rows, tenant, req, generated); }
          forall u: string | u != tenant ensures RowsOf(t.rows, u) == RowsOf(s.rows, u) { UpsertedElsewhere(s.rows, r, u); }
          UpsertKeepsOnePerProvider(s.rows, tenant, req, generated);
        }
      case Delete(tenant, provider, hash) =>
        if Refreshes(s, op) {
          var name, key := NormalizeProviderName(provider), TrimSpace(hash);
          forall u: string | tenant != "" && u != tenant ensures RowsOf(t.rows, u) == RowsOf(s.rows, u) { DeletedElsewhere(s.rows, tenant, name, key, u); }
          DeleteKeepsOnePerProvider(s.rows, tenant, name, key);
        }
      case _ =>
    }
    if Refreshes(s, op) {
      ParsableAllBuild(t.rows, op.tenant, parse);
      OutcomeKeepsCoherent(t.items, s.items, s.rows, t.rows, op.tenant, parse, true);
    }
  }

  lemma ParsableAllBuild(rows: seq<Instance>, tenant: string, parse: Parser)
    requires Parsable(rows, parse)
    ensures AllBuild(rows, tenant, parse)
  {
    forall t: string ensures Built(RowsOf(rows, t), parse).Some? {
      ParsableBuilds(RowsOf(rows, t), parse);
    }
  }

  lemma RowForTenant(rows: seq<Instance>, tenant: string, req: Request, generated: Option<string>)
    requires RowFor(rows, tenant, req, generated).Some?
    ensures RowFor(rows, tenant, req, generated).value.tenantId == tenant
  {
    hide NormalizeProviderName, TrimSpace;
  }

  /** In every sequential run whose stored configs parse, every cached tenant's map is the one rebuilt from
      that tenant's stored records, and no named tenant has two instances of a provider. */
  lemma {:induction false} RunsStayCoherent(states: seq<State>, ops: seq<Op>, parse: Parser)
    requires IsRun(states, ops, parse) && forall i | 0 <= i < |states| :: Parsable(states[i].rows, parse)
    ensures Coherent(states[|ops|].items, states[|ops|].rows, parse)
    ensures OnePerProvider(states[|ops|].rows)
  {
    if ops != [] {
      var n := |ops| - 1;
      RunsStayCoherent(states[..|states| - 1], ops[..n], parse);
      StepKeepsCoherent(states[n], ops[n], states[n + 1], parse);
    }
  }

  /** Stored configs that do not parse break this: the service logs the failed refresh, and the
      cache keeps the tenant's old entry. */
  lemma UnparsableLeavesStale(parse: Parser, old_: Instance, new_: Instance, cfg: ProviderConfig)
    requires old_.tenantId == new_.tenantId && old_.provider == new_.provider && old_.key == new_.key
    requires ConfigOf(old_, parse) == Some(cfg) && parse(new_.configJSON).None?
    ensures var items := map[old_.tenantId := map[old_.provider + ":" + old_.key := cfg]];
      && Coherent(items, [old_], parse)
      && Upserted([old_], new_) == [new_]
      && Built(RowsOf([new_], new_.tenantId), parse).None?      // so Refresh fails and changes nothing
      && !Coherent(items, [new_], parse)
  {
    var t := old_.tenantId;
    var items: map<string, Configs> := map[t := map[old_.provider + ":" + old_.key := cfg]];
    assert [old_][1..] == [] && [new_][1..] == [] && [old_][..0] == [] && [new_][..0] == [];
    var p := OfTenant(t);
    assert p(old_) && p(new_) && Filter([old_][1..], p) == [] && Filter([new_][1..], p) == [];
    assert RowsOf([old_], t) == [old_] && RowsOf([new_], t) == [new_];
    assert Built([], parse) == Some(map[]);
    assert Built([old_], parse) == Some(items[t]);
    assert Built([new_], parse).None?;
    assert !CoherentAt(items, [new_], parse, t);
    assert [new_] + [][..0] == [new_];
  }
}
