/** What a stored provider instance means for lookups (pkg/api/providers_service.go,
    pkg/providerinstance/cache.go, pkg/auth). */
module ProviderOutcomes {
  import opened GoText
  import opened Sorting
  import opened ProviderCache

  /** Provider names are trimmed and in lower case, hyphens are underscores, and `jira` is `atlassian`. */
  lemma NamesAreNormal(provider: string)
    ensures var p, q := Lower(TrimSpace(provider)), NormalizeProviderName(provider);
      (p != "jira" ==> |q| == |p| && forall i | 0 <= i < |p| :: q[i] == if p[i] == '-' then '_' else p[i])
    ensures Lower(TrimSpace(provider)) == "jira" ==> NormalizeProviderName(provider) == "atlassian"
  {
    hide TrimSpace;
  }

  predicate IsSame(r: Instance, tenant: string, provider: string) {
    (tenant == "" || r.tenantId == tenant) && r.provider == provider
  }

  predicate IsNew(rows: seq<Instance>, tenant: string, provider: string) { forall r | r in rows :: !IsSame(r, tenant, provider) }

  predicate IsStored(rows: seq<Instance>, tenant: string, provider: string, key: string) {
    exists r :: r in rows && IsSame(r, tenant, provider) && r.key == key
  }

  /** An accepted request has a provider name and a key: its own hash, which must be that of an
      existing instance if there are any, or a new one for a provider that has none. The row is the
      tenant's, with the normal name, the key and the request's flag; a blank configuration keeps
      the one that is stored. */
  lemma AcceptedRow(rows: seq<Instance>, tenant: string, req: Request, generated: Option<string>)
    ensures var provider, hash, row := NormalizeProviderName(req.provider), TrimSpace(req.hash), RowFor(rows, tenant, req, generated);
      && (row.Some? <==> provider != "" && if hash != "" then IsNew(rows, tenant, provider) || IsStored(rows, tenant, provider, hash)
                                           else IsNew(rows, tenant, provider) && generated.Some? && generated.value != "")
      && (row.Some? ==>
            && row.value.tenantId == tenant && row.value.provider == provider && row.value.enabled == req.enabled
            && row.value.key == (if hash != "" then hash else generated.value)
            && (TrimSpace(req.configJSON) != "" ==> row.value.configJSON == TrimSpace(req.configJSON))
            && (TrimSpace(req.configJSON) == "" ==>
                  if IsStored(rows, tenant, provider, row.value.key)
                  then exists r :: r in rows && IsSame(r, tenant, provider) && r.key == row.value.key && row.value.configJSON == TrimSpace(r.configJSON)
                  else row.value.configJSON == ""))
  {
    hide TrimSpace, NormalizeProviderName;
    var provider := NormalizeProviderName(req.provider);
    var existing := Listed(rows, tenant, provider);
    if provider != "" {
      forall r ensures r in existing <==> r in rows && IsSame(r, tenant, provider) {
      }
      if existing != [] {
        assert existing[0] in existing;
      }
      var row := RowFor(rows, tenant, req, generated);
      if row.Some? {
        var same := Filter(existing, HasKey(row.value.key));
        assert forall r :: r in same <==> r in existing && r.key == row.value.key;
        if same != [] {
          assert same[0] in same;
        }
      }
    }
    hide Listed;
  }

  /** The cached map has an entry for every record, under provider and key: what the last record with
      these says, parsed. */
  lemma {:induction false} EntriesAreParsed(records: seq<Instance>, parse: Parser, i: nat)
    requires Built(records, parse).Some? && i < |records|
    requires forall j | i < j < |records| :: records[j].provider + ":" + records[j].key != records[i].provider + ":" + records[i].key
    ensures var r, m := records[i], Built(records, parse).value;
      && parse(r.configJSON).Some?
      && r.provider + ":" + r.key in m && m[r.provider + ":" + r.key] == ProviderConfig(parse(r.configJSON).value, r.enabled)
  {
    var n := |records| - 1;
    if i < n {
      assert forall j | i <= j < n :: records[..n][j] == records[j];
      EntriesAreParsed(records[..n], parse, i);
    }
  }

  /** A deletion takes away exactly the tenant's instances with the provider and the key. */
  lemma DeletedAreGone(rows: seq<Instance>, tenant: string, provider: string, key: string, r: Instance)
    ensures r in Deleted(rows, tenant, provider, key) <==>
      r in rows && !((tenant == "" || r.tenantId == tenant) && r.provider == provider && r.key == key)
  {
  }

  /** A lookup straight from the store finds the tenant's instance with this provider and key, parsed; if
      it has none, none. Provider names have no colon, so provider and key are told apart. */
  lemma LookupFindsTheInstance(rows: seq<Instance>, parse: Parser, tenant: string, provider: string, key: string)
    requires Built(RowsOf(rows, tenant), parse).Some?
    requires ':' !in provider && forall r | r in rows :: ':' !in r.provider
    ensures (forall r | r in rows && r.tenantId == tenant :: r.provider != provider || r.key != key) ==> StoredConfig(rows, parse, tenant, provider, key) == None
    ensures forall r | r in rows && r.tenantId == tenant && r.provider == provider && r.key == key ::
      (forall q | q in rows && q.tenantId == tenant && q.provider == provider && q.key == key :: q == r) ==>
      parse(r.configJSON).Some? && StoredConfig(rows, parse, tenant, provider, key) == Some(ProviderConfig(parse(r.configJSON).value, r.enabled))
  {
    var own := RowsOf(rows, tenant);
    assert forall r :: r in own <==> r in rows && r.tenantId == tenant;
    hide RowsOf;
    forall r | r in own && r.provider == provider && r.key == key && forall q | q in own && q.provider == provider && q.key == key :: q == r
      ensures parse(r.configJSON).Some? && StoredConfig(rows, parse, tenant, provider, key) == Some(ProviderConfig(parse(r.configJSON).value, r.enabled))
    {
      OnlyInstance(own, parse, provider, key, r);
    }
    if forall r | r in own :: r.provider != provider || r.key != key {
      NoInstance(own, parse, provider, key);
    }
  }

  lemma OnlyInstance(records: seq<Instance>, parse: Parser, provider: string, key: string, r: Instance)
    requires Built(records, parse).Some? && r in records && r.provider == provider && r.key == key
    requires ':' !in provider && (forall q | q in records :: ':' !in q.provider)
    requires forall q | q in records && q.provider == provider && q.key == key :: q == r
    ensures parse(r.configJSON).Some? && EntryOf(Built(records, parse).value, provider, key) == Some(ProviderConfig(parse(r.configJSON).value, r.enabled))
  {
    var i := LastOf(records, r);
    forall j | i < j < |records| ensures records[j].provider + ":" + records[j].key != provider + ":" + key {
      assert records[j] in records && records[j] != r;
      if records[j].provider + ":" + records[j].key == provider + ":" + key {
        ColonTellsApart(records[j].provider, records[j].key, provider, key);
      }
    }
    hide Built;
    EntriesAreParsed(records, parse, i);
  }

  lemma {:induction false} LastOf(records: seq<Instance>, r: Instance) returns (i: nat)
    requires r in records
    ensures i < |records| && records[i] == r && forall j | i < j < |records| :: records[j] != r
  {
    var n := |records| - 1;
    if records[n] == r {
      i := n;
    } else {
      i := LastOf(records[..n], r);
    }
  }

  lemma {:induction false} NoInstance(records: seq<Instance>, parse: Parser, provider: string, key: string)
    requires Built(records, parse).Some? && ':' !in provider
    requires forall q | q in records :: ':' !in q.provider && (q.provider != provider || q.key != key)
    ensures EntryOf(Built(records, parse).value, provider, key) == None
  {
    if records != [] {
      var n := |records| - 1;
      var r := records[n];
      assert r in records;
      NoInstance(records[..n], parse, provider, key);
      if r.provider + ":" + r.key == provider + ":" + key {
        ColonTellsApart(r.provider, r.key, provider, key);
      }
    }
  }

  lemma ColonTellsApart(p: string, k: string, q: string, l: string)
    requires ':' !in p && ':' !in q && p + ":" + k == q + ":" + l
    ensures p == q && k == l
  {
    var s, u := p + ":" + k, q + ":" + l;
    assert s[|p|] == ':' && u[|q|] == ':';
    assert forall i | 0 <= i < |p| :: s[i] == p[i] && p[i] in p;
    assert forall i | 0 <= i < |q| :: u[i] == q[i] && q[i] in q;
    assert |p| == |q|;
    assert p == s[..|p|] && q == u[..|q|] && k == s[|p| + 1..] && l == u[|q| + 1..];
  }
}
