/** What a refresh of a tenant's drivers means (pkg/drivers/cache.go, pkg/drivers/config.go). */
module DriverOutcomes {
  import opened GoText
  import opened DriverCache
  import opened Counting

  function NameOf(r: DriverRecord): string { Lower(TrimSpace(r.name)) }

  /** A record counts when it is enabled and names a driver. */
  predicate Counts(r: DriverRecord) { r.enabled && NameOf(r) != "" }

  function Counted(): DriverRecord -> bool { r => Counts(r) }

  predicate Usable(r: DriverRecord, parses: (string, string) -> bool) {
    NameOf(r) in {"amqp", "nats", "kafka", "http"} && parses(NameOf(r), r.configJSON)
  }

  /** The configuration lists the drivers of the records that count, in their order and in lower case;
      disabled and nameless records are left out. It fails when one of those that count is not
      supported or does not parse. */
  lemma {:induction false} ConfigListsTheEnabled(records: seq<DriverRecord>, parses: (string, string) -> bool)
    ensures ConfigFromRecords(records, parses).Some? <==> forall r | r in records && Counts(r) :: Usable(r, parses)
    ensures ConfigFromRecords(records, parses).Some? ==>
      var cfg := ConfigFromRecords(records, parses).value;
      && |cfg| == Number(records, Counted())
      && forall i | 0 <= i < |records| && Counts(records[i]) ::
           Number(records[..i], Counted()) < |cfg| && cfg[Number(records[..i], Counted())] == NameOf(records[i])
  {
    hide Lower, TrimSpace, Number;
    if records == [] {
      NumberOfNone(Counted());
    } else {
      var n := |records| - 1;
      var init, r := records[..n], records[n];
      assert records == init + [r];
      ConfigListsTheEnabled(init, parses);
      NumberSnoc(init, r, Counted());
      assert forall i | 0 <= i < n :: records[..i] == init[..i] && records[i] == init[i];
    }
  }

  /** What a refresh meets: a listing and a configuration that can be read. */
  predicate Reads(w: World) { w.listing.Some? && ConfigFromRecords(w.listing.value, w.parses).Some? }

  /** Without a readable configuration, or when the new publisher cannot be built, everything stays and
      the refresh fails. Without an enabled driver the key goes from both maps. Otherwise the key
      gets the configuration and the newest publisher. */
  lemma RefreshDoes(s: State, key: string, w: World)
    ensures var (t, ok) := Refreshed(s, key, w);
      && (!Reads(w) ==> !ok && t == s)
      && (Reads(w) && Number(w.listing.value, Counted()) == 0 ==>
            ok && t.built == s.built && t.pub == s.pub - {key} && t.config == s.config - {key})
      && (Reads(w) && Number(w.listing.value, Counted()) > 0 && !w.connects ==> !ok && t == s)
      && (Reads(w) && Number(w.listing.value, Counted()) > 0 && w.connects ==>
            ok && t.built == s.built + 1 && t.pub == s.pub[key := s.built]
            && t.config == s.config[key := ConfigFromRecords(w.listing.value, w.parses).value])
      && (ok && key in s.pub ==> t.closed == s.closed + multiset{s.pub[key]})
      && (ok && key !in s.pub ==> t.closed == s.closed)
  {
    if Reads(w) {
      ConfigListsTheEnabled(w.listing.value, w.parses);
    }
    hide ConfigFromRecords, Number;
  }

  /** Requests without a tenant share one key. */
  lemma KeyOfTenant(tenantId: string)
    ensures CacheKey(tenantId) == if tenantId == "" then "global" else tenantId
  {
  }
}
