/** When a cached credential is handed out (sdk/go/worker/scm_client_provider.go and its Python
    counterpart). */
module CredentialOutcomes {
  import opened GoText
  import opened PageTokens
  import opened LruCache
  import Scm = ScmProvider

  /** The credential has no expiry, or the expiry less the skew has not passed. */
  predicate IsFresh(slot: Slot, skew: int, now: Time) { slot.expiresAt == ZERO_TIME || now <= slot.expiresAt - skew }

  /** A lookup answers exactly with a cached credential of the key that is still fresh; one that is not
      fresh is removed, and a lookup of another key changes nothing. */
  lemma OnlyFreshIsAnswered(s: seq<Slot>, size: nat, key: string, skew: int, now: Time)
    requires ValidLru(s, size)
    ensures var (t, r) := LruGet(s, key, FoundExpired(s, key, skew, now));
      && (forall slot | slot in s && slot.key == key :: r == if IsFresh(slot, skew, now) then Some(slot.client) else None)
      && (r.Some? ==> exists slot :: slot in s && slot.key == key && r.value == slot.client)
      && (r.None? ==> forall slot | slot in t :: slot in s && slot.key != key)
      && ((forall slot | slot in s :: slot.key != key) ==> t == s)
  {
    var k := IndexOf(s, key);
    if k < |s| {
      WithoutElements(s, k);
      assert s[k] in s;
      forall slot | slot in s && slot.key == key ensures slot == s[k] {
        var i :| 0 <= i < |s| && s[i] == slot;
        IndexUnique(s, i);
      }
    } else {
      assert forall i | 0 <= i < |s| :: s[i].key != key;
    }
  }

  /** In Python an expiry has passed from the bound on, and a skew below zero counts as none. */
  lemma PythonBound(e: PyEntry, skewSeconds: int, now: Time)
    ensures !PyExpired(e, skewSeconds, now) <==>
      match e.expiresAt
      case None => true
      case Some(at) => now < at - (if skewSeconds > 0 then skewSeconds * 1_000_000_000 else 0)
  {
  }

  /** A request without a provider or an installation fails; any other is for its trimmed texts. */
  lemma WhatARequestIsFor(provider: string, installationId: string, instanceKey: string)
    ensures var t := Scm.TargetOf(provider, installationId, instanceKey);
      && (t.None? <==> TrimSpace(provider) == "" || TrimSpace(installationId) == "")
      && (t.Some? ==> t.value.provider == TrimSpace(provider) && t.value.installationId == TrimSpace(installationId) && t.value.instanceKey == TrimSpace(instanceKey))
  {
    hide TrimSpace;
  }

  /** The cache has a fresh credential under this key. */
  predicate HasFresh(s: seq<Slot>, key: string, skew: int, now: Time) {
    exists slot :: slot in s && slot.key == key && IsFresh(slot, skew, now)
  }

  /** A fresh credential is answered without asking the service. Otherwise the service's answer is the
      answer; a client it gives is from then on cached in front, with its expiry, and is what the
      next request for the target gets while it is fresh. */
  lemma FetchedIsCached(s: seq<Slot>, size: nat, t: Scm.Target, skew: int, now: Time, fetch: Scm.Fetch, later: Time, other: Scm.Fetch)
    requires ValidLru(s, size) && 1 <= size
    ensures var key := Scm.CacheKey(t); var (s', answer) := Scm.Served(s, size, t, skew, now, fetch);
      && (HasFresh(s, key, skew, now) ==> forall slot | slot in s && slot.key == key :: answer == Scm.Got(Some(slot.client)))
      && (!HasFresh(s, key, skew, now) ==>
            match fetch
            case FetchFailed => answer == Scm.Failed
            case Fetched(client, expiresAt) =>
              && answer == Scm.Got(client)
              && (client.Some? ==>
                    && s' != [] && s'[0] == Slot(key, client.value, expiresAt)
                    && (expiresAt == ZERO_TIME || later <= expiresAt - skew ==> Scm.Served(s', size, t, skew, later, other).1 == answer)))
  {
    var key := Scm.CacheKey(t);
    OnlyFreshIsAnswered(s, size, key, skew, now);
    var (afterGet, hit) := LruGet(s, key, FoundExpired(s, key, skew, now));
    ApplyKeepsValid(s, size, Get(key, skew, now));
    hide Scm.CacheKey, LruGet, FoundExpired;
    assert hit.Some? <==> HasFresh(s, key, skew, now);
    if hit.None? && fetch.Fetched? && fetch.client.Some? {
      var slot := Slot(key, fetch.client.value, fetch.expiresAt);
      var s' := LruAdd(afterGet, size, slot);
      NewIsInFront(afterGet, size, slot);
      ApplyKeepsValid(afterGet, size, Add(key, fetch.client.value, fetch.expiresAt));
      OnlyFreshIsAnswered(s', size, key, skew, later);
      assert s'[0] in s';
    }
  }

  lemma NewIsInFront(s: seq<Slot>, size: nat, slot: Slot)
    requires 1 <= size
    ensures LruAdd(s, size, slot) != [] && LruAdd(s, size, slot)[0] == slot
  {
  }
}
