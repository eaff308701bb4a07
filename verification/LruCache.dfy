/** The credential cache: sdk/go/worker/scm_client_provider.go and its Python twin
    sdk/python/worker/relaymesh/scm_client_provider.py. The clock is a parameter. */
module LruCache {
  import opened GoText
  import opened PageTokens

  /** An SCM client is only handed around. */
  datatype Client = Client(handle: string)

  datatype Slot = Slot(key: string, client: Client, expiresAt: Time)

  // ---------- the cache as a most-recent-first sequence ----------

  function IndexOf(s: seq<Slot>, key: string): (k: nat)
    ensures k <= |s|
    ensures k < |s| ==> s[k].key == key
    ensures forall i | 0 <= i < k :: s[i].key != key
  {
    if s == [] || s[0].key == key then 0 else 1 + IndexOf(s[1..], key)
  }

  predicate DistinctKeys(s: seq<Slot>) {
    forall i, j | 0 <= i < j < |s| :: s[i].key != s[j].key
  }

  lemma {:induction false} IndexUnique(s: seq<Slot>, k: nat)
    requires k < |s| && DistinctKeys(s)
    ensures IndexOf(s, s[k].key) == k
  {
    var i := IndexOf(s, s[k].key);
    assert i <= k;
  }

  lemma ElementsWithout<T>(s: seq<T>, k: nat)
    requires k < |s| && forall i, j | 0 <= i < j < |s| :: s[i] != s[j]
    ensures forall x :: x in s[..k] + s[k + 1..] <==> x in s && x != s[k]
  {
    var rest := s[..k] + s[k + 1..];
    forall i | 0 <= i < |s| && i != k ensures s[i] in rest {
      assert s[i] == rest[if i < k then i else i - 1];
    }
    assert forall i | 0 <= i < |rest| :: rest[i] == s[if i < k then i else i + 1];
  }

  predicate Has(s: seq<Slot>, key: string) { IndexOf(s, key) < |s| }

  function Without(s: seq<Slot>, k: nat): seq<Slot>
    requires k < |s|
  {
    s[..k] + s[k + 1..]
  }

  /** expired(): the zero time never expires. */
  predicate Expired(slot: Slot, skew: int, now: Time) {
    slot.expiresAt != ZERO_TIME && now > slot.expiresAt - skew
  }

  function LruGet(s: seq<Slot>, key: string, expired: bool): (seq<Slot>, Option<Client>) {
    var k := IndexOf(s, key);
    if k == |s| then (s, None)
    else if expired then (Without(s, k), None)
    else ([s[k]] + Without(s, k), Some(s[k].client))
  }

  function LruAdd(s: seq<Slot>, size: nat, slot: Slot): seq<Slot> {
    var k := IndexOf(s, slot.key);
    if k < |s| then [slot] + Without(s, k)
    else if |s| < size then [slot] + s
    else ([slot] + s)[..size]
  }

  predicate FoundExpired(s: seq<Slot>, key: string, skew: int, now: Time) {
    Has(s, key) && Expired(s[IndexOf(s, key)], skew, now)
  }

  predicate ValidLru(s: seq<Slot>, size: nat) {
    |s| <= size && DistinctKeys(s)
  }

  // ---------- the Go cache: a list of entries and a map into it ----------

  class ScmCacheEntry {
    const key: string
    var client: Client
    var expiresAt: Time

    constructor (key: string, client: Client, expiresAt: Time)
      ensures this.key == key && this.client == client && this.expiresAt == expiresAt
    {
      this.key, this.client, this.expiresAt := key, client, expiresAt;
    }

    function AsSlot(): Slot
      reads this
    {
      Slot(key, client, expiresAt)
    }
  }

  function SlotsOf(es: seq<ScmCacheEntry>): (s: seq<Slot>)
    reads es
    ensures |s| == |es|
    ensures forall i | 0 <= i < |s| :: s[i] == es[i].AsSlot()
  {
    seq(|es|, i requires 0 <= i < |es| reads es => es[i].AsSlot())
  }

  /** List and map hold the same entries, one per key. */
  ghost predicate Linked(order: seq<ScmCacheEntry>, items: map<string, ScmCacheEntry>) {
    && (forall i, j | 0 <= i < j < |order| :: order[i].key != order[j].key)
    && (forall i | 0 <= i < |order| :: order[i].key in items && items[order[i].key] == order[i])
    && (forall k | k in items :: items[k] in order && items[k].key == k)
  }

  lemma LinkedWithout(order: seq<ScmCacheEntry>, items: map<string, ScmCacheEntry>, k: nat)
    requires Linked(order, items) && k < |order|
    ensures Linked(order[..k] + order[k + 1..], items - {order[k].key})
    ensures Linked([order[k]] + (order[..k] + order[k + 1..]), items)
  {
    var rest := order[..k] + order[k + 1..];
    ElementsWithout(order, k);
    assert forall i | 0 <= i < |rest| :: rest[i] == order[if i < k then i else i + 1];
  }

  lemma OnlyThere(order: seq<ScmCacheEntry>, items: map<string, ScmCacheEntry>, k: nat)
    requires Linked(order, items) && k < |order|
    ensures forall i | 0 <= i < |order| && i != k :: order[i] != order[k]
  {
  }

  lemma LinkedPush(order: seq<ScmCacheEntry>, items: map<string, ScmCacheEntry>, e: ScmCacheEntry)
    requires Linked(order, items) && e.key !in items
    ensures Linked([e] + order, items[e.key := e])
  {
  }

  lemma PushedSlots(e: ScmCacheEntry, order: seq<ScmCacheEntry>)
    ensures SlotsOf([e] + order) == [e.AsSlot()] + SlotsOf(order)
    ensures ([e] + order)[1..] == order
  {
    var pushed, slots := SlotsOf([e] + order), [e.AsSlot()] + SlotsOf(order);
    forall i | 0 <= i < |pushed| ensures pushed[i] == slots[i] {
      assert pushed[i] == ([e] + order)[i].AsSlot();
    }
  }

  lemma MovedSlots(order: seq<ScmCacheEntry>, k: nat)
    requires k < |order|
    ensures SlotsOf([order[k]] + (order[..k] + order[k + 1..])) == [SlotsOf(order)[k]] + Without(SlotsOf(order), k)
    ensures forall x | x in [order[k]] + (order[..k] + order[k + 1..]) :: x in order
  {
  }

  class ScmClientCache {
    const size: nat
    var order: seq<ScmCacheEntry>          // container/list, front first
    var items: map<string, ScmCacheEntry>

    ghost predicate Valid()
      reads this
    {
      1 <= size && |order| <= size && Linked(order, items)
    }

    function View(): seq<Slot>
      reads this`order, order
    {
      SlotsOf(order)
    }

    constructor (size: int)
      ensures Valid() && View() == [] && this.size == if size < 1 then 1 else size
    {
      this.size := if size < 1 then 1 else size;
      order, items := [], map[];
    }

    /** Where an entry of the list stands; list operations work on the element itself. */
    function PositionOf(e: ScmCacheEntry): (k: nat)
      requires Linked(order, items) && e in order
      reads this
      ensures k < |order| && order[k] == e
    {
      var k :| 0 <= k < |order| && order[k] == e; k
    }

    lemma PositionIs(e: ScmCacheEntry, k: nat)
      requires Linked(order, items) && k < |order| && order[k] == e
      ensures PositionOf(e) == k
    {
    }

    lemma IndexIsPosition(key: string)
      requires Linked(order, items)
      ensures key in items ==> items[key] in order && items[key].key == key
      ensures key in items ==> IndexOf(View(), key) == PositionOf(items[key])
      ensures key !in items ==> IndexOf(View(), key) == |View()|
    {
      var s := View();
      assert DistinctKeys(s) by {
        forall i, j | 0 <= i < j < |s| ensures s[i].key != s[j].key {
          assert s[i].key == order[i].key && s[j].key == order[j].key;
        }
      }
      if key in items {
        IndexUnique(s, PositionOf(items[key]));
      } else {
        assert forall i | 0 <= i < |s| :: s[i].key == order[i].key;
      }
    }

    // list.Remove
    method Remove(e: ScmCacheEntry, ghost k: nat)
      requires Linked(order, items) && k < |order| && order[k] == e
      modifies this`order
      ensures |order| == |old(order)| - 1 && (forall x | x in order :: x in old(order)) && Linked(order, items - {e.key})
      ensures View() == Without(old(View()), k)
    {
      hide Linked;
      var p := PositionOf(e);
      PositionIs(e, k);
      LinkedWithout(order, items, k);
      order := order[..p] + order[p + 1..];
    }

    // list.MoveToFront
    method MoveToFront(e: ScmCacheEntry, ghost k: nat)
      requires Linked(order, items) && k < |order| && order[k] == e
      modifies this`order
      ensures |order| == |old(order)| && (forall x | x in order :: x in old(order)) && Linked(order, items)
      ensures View() == [old(View())[k]] + Without(old(View()), k)
    {
      hide Linked;
      var p := PositionOf(e);
      PositionIs(e, k);
      LinkedWithout(order, items, k);
      MovedSlots(order, k);
      order := [e] + (order[..p] + order[p + 1..]);
    }

    method Get(key: string, skew: int, now: Time) returns (r: Option<Client>)
      requires Valid()
      modifies this
      ensures Valid() && forall x | x in order :: x in old(order)
      ensures (View(), r) == LruGet(old(View()), key, FoundExpired(old(View()), key, skew, now))
    {
      IndexIsPosition(key);
      hide IndexOf, Linked;
      if key !in items {
        return None;
      }
      var entry := items[key];
      ghost var k := PositionOf(entry);
      if Expired(entry.AsSlot(), skew, now) {
        Remove(entry, k);
        items := items - {key};
        return None;
      }
      MoveToFront(entry, k);
      return Some(entry.client);
    }

    method Add(key: string, client: Option<Client>, expiresAt: Time)
      requires Valid()
      modifies this, order
      ensures Valid() && fresh(set e | e in order && e !in old(order))
      ensures View() == match client case None => old(View()) case Some(c) => LruAdd(old(View()), size, Slot(key, c, expiresAt))
    {
      if client.None? {
        return;
      }
      IndexIsPosition(key);
      if key in items {
        Overwrite(items[key], client.value, expiresAt);
        return;
      }
      InsertNew(key, client.value, expiresAt);
    }

    /** Add, when the key is not cached: push it to the front, evict from the back. */
    method InsertNew(key: string, client: Client, expiresAt: Time)
      requires Valid() && key !in items
      modifies this
      ensures Valid() && fresh(set e | e in order && e !in old(order))
      ensures View() == if |old(View())| < size then [Slot(key, client, expiresAt)] + old(View())
                        else ([Slot(key, client, expiresAt)] + old(View()))[..size]
    {
      hide Linked;
      ghost var s, slot := View(), Slot(key, client, expiresAt);
      PushFront(key, client, expiresAt);
      while |order| > size
        invariant |order| <= |s| + 1 && (|order| == |s| + 1 || |order| == size)
        invariant Linked(order, items) && View() == ([slot] + s)[..|order|]
        invariant fresh(set e | e in order && e !in old(order))
      {
        RemoveBack();
      }
    }

    // list.PushFront, and its entry in the map
    method PushFront(key: string, client: Client, expiresAt: Time)
      requires Linked(order, items) && key !in items
      modifies this
      ensures |order| == |old(order)| + 1 && order[1..] == old(order) && fresh(order[0]) && Linked(order, items)
      ensures View() == [Slot(key, client, expiresAt)] + old(View())
    {
      hide Linked;
      var elem := new ScmCacheEntry(key, client, expiresAt);
      LinkedPush(order, items, elem);
      PushedSlots(elem, order);
      order, items := [elem] + order, items[key := elem];
    }

    // the body of the eviction loop
    method RemoveBack()
      requires Linked(order, items) && order != []
      modifies this
      ensures order == old(order)[..|old(order)| - 1] && Linked(order, items)
    {
      var last := order[|order| - 1];
      hide Linked;
      LinkedWithout(order, items, |order| - 1);
      assert order[..|order| - 1] + [] == order[..|order| - 1];
      items := items - {last.key};
      order := order[..|order| - 1];
    }

    /** Add, when the key is cached: the entry is changed in place and moved to the front. */
    method Overwrite(entry: ScmCacheEntry, client: Client, expiresAt: Time)
      requires Valid() && entry in order && entry.key in items && items[entry.key] == entry
      modifies this`order, entry
      ensures Valid() && forall x | x in order :: x in old(order)
      ensures Has(old(View()), entry.key)
      ensures View() == LruAdd(old(View()), size, Slot(entry.key, client, expiresAt))
    {
      hide IndexOf, Linked;
      IndexIsPosition(entry.key);
      ghost var s, k := View(), PositionOf(entry);
      OnlyThere(order, items, k);
      entry.client := client;
      entry.expiresAt := expiresAt;
      assert Without(View(), k) == Without(s, k);
      MoveToFront(entry, k);
    }
  }

  // ---------- the Python cache: a dict and a list of keys ----------

  datatype PyEntry = PyEntry(client: Client, expiresAt: Option<Time>)

  /** _expired(): the bound itself counts as expired, and a negative skew as none. */
  predicate PyExpired(e: PyEntry, skewSeconds: int, now: Time) {
    e.expiresAt.Some? && now >= e.expiresAt.value - (if skewSeconds < 0 then 0 else skewSeconds) * 1_000_000_000
  }

  function PySlot(key: string, e: PyEntry): Slot {
    Slot(key, e.client, if e.expiresAt.Some? then e.expiresAt.value else ZERO_TIME)
  }

  /** The list and the dict hold the same keys, once each. */
  ghost predicate PyLinked(order: seq<string>, items: map<string, PyEntry>) {
    && (forall i, j | 0 <= i < j < |order| :: order[i] != order[j])
    && (forall k :: k in items <==> k in order)
  }

  function PyView(order: seq<string>, items: map<string, PyEntry>): (s: seq<Slot>)
    requires forall x | x in order :: x in items
    ensures |s| == |order|
    ensures forall i | 0 <= i < |s| :: s[i] == PySlot(order[i], items[order[i]])
  {
    seq(|order|, i requires 0 <= i < |order| => PySlot(order[i], items[order[i]]))
  }

  lemma PyViewWithout(order: seq<string>, items: map<string, PyEntry>, k: nat)
    requires k < |order| && (forall x | x in order :: x in items)
    requires forall x | x in order[..k] + order[k + 1..] :: x in items - {order[k]}
    ensures PyView(order[..k] + order[k + 1..], items - {order[k]}) == Without(PyView(order, items), k)
  {
    var rest := order[..k] + order[k + 1..];
    assert forall i | 0 <= i < |rest| :: rest[i] == order[if i < k then i else i + 1];
  }

  lemma PyWithout(order: seq<string>, items: map<string, PyEntry>, k: nat)
    requires PyLinked(order, items) && k < |order|
    ensures PyLinked(order[..k] + order[k + 1..], items - {order[k]})
    ensures forall x | x in order[..k] + order[k + 1..] :: x in items - {order[k]}
    ensures PyView(order[..k] + order[k + 1..], items - {order[k]}) == Without(PyView(order, items), k)
  {
    var rest := order[..k] + order[k + 1..];
    ElementsWithout(order, k);
    assert forall i | 0 <= i < |rest| :: rest[i] == order[if i < k then i else i + 1];
    assert PyLinked(rest, items - {order[k]});
    hide PyView;
    PyViewWithout(order, items, k);
  }

  /** Overwriting one entry of the dict changes one slot. */
  lemma PyOverwrite(order: seq<string>, items: map<string, PyEntry>, k: nat, e: PyEntry)
    requires PyLinked(order, items) && k < |order|
    ensures PyLinked(order, items[order[k] := e])
    ensures PyView(order, items[order[k] := e]) == PyView(order, items)[k := PySlot(order[k], e)]
    ensures Without(PyView(order, items[order[k] := e]), k) == Without(PyView(order, items), k)
  {
  }

  lemma PyViewPush(order: seq<string>, items: map<string, PyEntry>, key: string, e: PyEntry)
    requires (forall x | x in order :: x in items) && key !in order
    ensures forall x | x in [key] + order :: x in items[key := e]
    ensures PyView([key] + order, items[key := e]) == [PySlot(key, e)] + PyView(order, items)
  {
    forall i | 0 <= i < |order| ensures order[i] in items && order[i] != key {
      assert order[i] in order;
    }
  }

  lemma PyPush(order: seq<string>, items: map<string, PyEntry>, key: string, e: PyEntry)
    requires PyLinked(order, items) && key !in items
    ensures PyLinked([key] + order, items[key := e])
    ensures forall x | x in [key] + order :: x in items[key := e]
    ensures PyView([key] + order, items[key := e]) == [PySlot(key, e)] + PyView(order, items)
  {
    hide PyView;
    PyViewPush(order, items, key, e);
  }

  lemma PyIndex(order: seq<string>, items: map<string, PyEntry>, key: string)
    requires PyLinked(order, items)
    ensures forall k | 0 <= k < |order| && order[k] == key :: IndexOf(PyView(order, items), key) == k
    ensures key !in items ==> IndexOf(PyView(order, items), key) == |order|
  {
    var s := PyView(order, items);
    assert DistinctKeys(s);
    forall k | 0 <= k < |order| && order[k] == key ensures IndexOf(s, key) == k {
      IndexUnique(s, k);
    }
    if key !in items {
      assert forall i | 0 <= i < |s| :: s[i].key in order;
    }
  }

  class PyClientCache {
    const size: nat
    var items: map<string, PyEntry>
    var order: seq<string>

    ghost predicate Valid()
      reads this
    {
      1 <= size && |order| <= size && PyLinked(order, items)
    }

    function View(): seq<Slot>
      requires forall x | x in order :: x in items
      reads this
    {
      PyView(order, items)
    }

    constructor (size: int)
      ensures Valid() && View() == [] && this.size == if size < 1 then 1 else size
    {
      this.size := if size < 1 then 1 else size;
      items, order := map[], [];
    }

    // list.remove, and the position it removes from
    method Remove(key: string) returns (ghost k: nat)
      requires key in order
      modifies this`order
      ensures k < |old(order)| && old(order)[k] == key && order == old(order)[..k] + old(order)[k + 1..]
    {
      var i := 0;
      while order[i] != key
        invariant i < |order| && key !in order[..i] && order == old(order)
        decreases |order| - i
      {
        i := i + 1;
      }
      order := order[..i] + order[i + 1..];
      return i;
    }

    method Get(key: string, skewSeconds: int, now: Time) returns (r: Option<Client>)
      requires Valid()
      modifies this
      ensures Valid()
      ensures (View(), r) == if key == "" then (old(View()), None)
                             else LruGet(old(View()), key, key in old(items) && PyExpired(old(items)[key], skewSeconds, now))
    {
      PyIndex(order, items, key);
      if key == "" || key !in items {
        return None;
      }
      var entry := items[key];
      hide IndexOf;
      if PyExpired(entry, skewSeconds, now) {
        items := items - {key};
        ghost var k := Remove(key);
        PyWithout(old(order), old(items), k);
        return None;
      }
      ghost var k := Bump(key);
      return Some(entry.client);
    }

    // _bump
    method Bump(key: string) returns (ghost k: nat)
      requires PyLinked(order, items) && key in order
      modifies this`order
      ensures PyLinked(order, items) && |order| == |old(order)|
      ensures k < |old(order)| && old(order)[k] == key
      ensures PyView(order, items) == [PySlot(key, items[key])] + Without(PyView(old(order), items), k)
    {
      k := Remove(key);
      PyWithout(old(order), items, k);
      PyPush(order, items - {key}, key, items[key]);
      hide PyLinked;
      assert items == (items - {key})[key := items[key]];
      order := [key] + order;
    }

    method Add(key: string, client: Option<Client>, expiresAt: Option<Time>)
      requires Valid()
      modifies this
      ensures Valid()
      ensures View() == if key == "" || client.None? then old(View())
                        else LruAdd(old(View()), size, PySlot(key, PyEntry(client.value, expiresAt)))
    {
      if key == "" || client.None? {
        return;
      }
      PyIndex(order, items, key);
      hide IndexOf;
      if key in items {
        Replace(key, PyEntry(client.value, expiresAt));
        return;
      }
      InsertNew(key, PyEntry(client.value, expiresAt));
    }

    method Replace(key: string, entry: PyEntry)
      requires Valid() && key in items
      modifies this
      ensures Valid() && Has(old(View()), key)
      ensures View() == LruAdd(old(View()), size, PySlot(key, entry))
    {
      ghost var s := View();
      PyIndex(order, items, key);
      items := items[key := entry];
      hide IndexOf;
      ghost var p :| 0 <= p < |order| && order[p] == key;
      PyOverwrite(order, old(items), p, entry);
      hide PyLinked;
      ghost var k := Bump(key);
      PyOverwrite(old(order), old(items), k, entry);
      assert Without(PyView(old(order), items), k) == Without(s, k);
    }

    method InsertNew(key: string, entry: PyEntry)
      requires Valid() && key !in items
      modifies this
      ensures Valid()
      ensures View() == if |old(View())| < size then [PySlot(key, entry)] + old(View())
                        else ([PySlot(key, entry)] + old(View()))[..size]
    {
      ghost var full := [PySlot(key, entry)] + View();
      PyPush(order, items, key, entry);
      assert forall x | x in [key] + order :: x in items[key := entry];
      hide PyLinked;
      items := items[key := entry];
      order := [key] + order;
      while |order| > size
        invariant |order| <= |full| && (|order| == |full| || |order| == size)
        invariant PyLinked(order, items) && (forall x | x in order :: x in items)
        invariant View() == full[..|order|]
      {
        PyWithout(order, items, |order| - 1);
        var oldKey := order[|order| - 1];
        assert order[..|order| - 1] + [] == order[..|order| - 1];
        order := order[..|order| - 1];
        items := items - {oldKey};
      }
    }
  }

  // ---------- whole traces ----------

  datatype Op =
    | Get(key: string, skew: int, now: Time)
    | Add(key: string, client: Client, expiresAt: Time)

  function Apply(s: seq<Slot>, size: nat, op: Op): seq<Slot> {
    match op
    case Get(key, skew, now) => LruGet(s, key, FoundExpired(s, key, skew, now)).0
    case Add(key, client, expiresAt) => LruAdd(s, size, Slot(key, client, expiresAt))
  }

  function Run(s: seq<Slot>, size: nat, ops: seq<Op>): seq<Slot>
    decreases |ops|
  {
    if ops == [] then s else Run(Apply(s, size, ops[0]), size, ops[1..])
  }

  /** The operation moves its key to the front: an Add, or a Get that hits. */
  predicate Touches(s: seq<Slot>, op: Op) {
    op.Add? || (Has(s, op.key) && !FoundExpired(s, op.key, op.skew, op.now))
  }

  predicate FindsExpired(s: seq<Slot>, op: Op, key: string) {
    op.Get? && op.key == key && FoundExpired(s, key, op.skew, op.now)
  }

  /** The keys touched along a trace. */
  function TouchedBy(s: seq<Slot>, size: nat, ops: seq<Op>): set<string>
    decreases |ops|
  {
    if ops == [] then {}
    else (if Touches(s, ops[0]) then {ops[0].key} else {}) + TouchedBy(Apply(s, size, ops[0]), size, ops[1..])
  }

  predicate EverFindsExpired(s: seq<Slot>, size: nat, ops: seq<Op>, key: string)
    decreases |ops|
  {
    ops != [] && (FindsExpired(s, ops[0], key) || EverFindsExpired(Apply(s, size, ops[0]), size, ops[1..], key))
  }

  lemma WithoutElements(s: seq<Slot>, k: nat)
    requires k < |s| && DistinctKeys(s)
    ensures forall i | 0 <= i < |Without(s, k)| :: Without(s, k)[i] == s[if i < k then i else i + 1]
    ensures DistinctKeys(Without(s, k)) && DistinctKeys([s[k]] + Without(s, k))
  {
  }

  lemma ApplyKeepsValid(s: seq<Slot>, size: nat, op: Op)
    requires ValidLru(s, size) && 1 <= size
    ensures ValidLru(Apply(s, size, op), size)
  {
    var k, t := IndexOf(s, op.key), Apply(s, size, op);
    if k < |s| {
      WithoutElements(s, k);
    }
    hide IndexOf, Without;
  }

  /** In every trace: at most `size` slots, one per key. */
  lemma {:induction false} RunKeepsValid(s: seq<Slot>, size: nat, ops: seq<Op>)
    requires ValidLru(s, size) && 1 <= size
    ensures ValidLru(Run(s, size, ops), size)
    decreases |ops|
  {
    if ops != [] {
      ApplyKeepsValid(s, size, ops[0]);
      RunKeepsValid(Apply(s, size, ops[0]), size, ops[1..]);
    }
  }

  /** A Get that answers has found the key unexpired, and answers with its slot's client. */
  lemma GetIsNotStale(s: seq<Slot>, key: string, skew: int, now: Time)
    ensures var (t, r) := LruGet(s, key, FoundExpired(s, key, skew, now));
      && (r.Some? <==> Has(s, key) && !FoundExpired(s, key, skew, now))
      && (r.Some? ==> t[0] == s[IndexOf(s, key)] && t[0].key == key && r.value == t[0].client && !Expired(t[0], skew, now))
      && (r.None? ==> forall i | 0 <= i < |t| && ValidLru(s, |s|) :: t[i].key != key)
  {
    var k := IndexOf(s, key);
    if k < |s| && ValidLru(s, |s|) {
      WithoutElements(s, k);
    }
  }

  /** The keys ahead of `key`. */
  function Ahead(s: seq<Slot>, key: string): set<string> {
    set i | 0 <= i < IndexOf(s, key) :: s[i].key
  }

  lemma {:induction false} AheadSize(s: seq<Slot>, k: nat)
    requires k <= |s| && DistinctKeys(s)
    ensures |set i | 0 <= i < k :: s[i].key| == k
  {
    if k > 0 {
      AheadSize(s, k - 1);
      var init := set i | 0 <= i < k - 1 :: s[i].key;
      assert (set i | 0 <= i < k :: s[i].key) == init + {s[k - 1].key};
    }
  }

  lemma SubsetIsSmaller<T>(a: set<T>, b: set<T>)
    requires a <= b
    ensures |a| <= |b|
  {
    assert b == a + (b - a);
  }

  lemma AheadAt(s: seq<Slot>, k: nat)
    requires k < |s| && DistinctKeys(s)
    ensures Has(s, s[k].key) && Ahead(s, s[k].key) == set i | 0 <= i < k :: s[i].key
  {
    IndexUnique(s, k);
  }

  lemma FrontDistinct(s: seq<Slot>, k: nat, front: Slot)
    requires DistinctKeys(s) && k < |s| && front.key == s[k].key
    ensures DistinctKeys([front] + Without(s, k))
  {
    var rest := Without(s, k);
    WithoutElements(s, k);
    forall j | 0 <= j < |rest| ensures rest[j].key != front.key {
      assert rest[j] == s[if j < k then j else j + 1];
    }
  }

  lemma WithoutRetains(s: seq<Slot>, k: nat, p: nat)
    requires DistinctKeys(s) && k < |s| && p < |s| && k != p
    ensures Has(Without(s, k), s[p].key) && Ahead(Without(s, k), s[p].key) <= Ahead(s, s[p].key)
  {
    hide Ahead, Has;
    var rest, q := Without(s, k), if k < p then p - 1 else p;
    WithoutElements(s, k);
    AheadAt(s, p);
    AheadAt(rest, q);
    assert forall i | 0 <= i < q :: rest[i].key in Ahead(s, s[p].key);
  }

  /** Where the slot at `p` goes when the slot at `k` is moved to the front. */
  lemma MoveRetains(s: seq<Slot>, k: nat, p: nat, front: Slot)
    requires DistinctKeys(s) && k < |s| && p < |s| && front.key == s[k].key
    ensures Has([front] + Without(s, k), s[p].key)
    ensures Ahead([front] + Without(s, k), s[p].key) <= Ahead(s, s[p].key) + if k != p then {front.key} else {}
  {
    hide Ahead, Has;
    var rest := Without(s, k);
    var moved := [front] + rest;
    WithoutElements(s, k);
    FrontDistinct(s, k, front);
    AheadAt(s, p);
    var q := if k == p then 0 else if k < p then p else p + 1;
    AheadAt(moved, q);
    forall i | 0 < i < q ensures moved[i].key in Ahead(s, s[p].key) {
      assert moved[i] == rest[i - 1];
    }
  }

  lemma InsertRetains(s: seq<Slot>, size: nat, p: nat, front: Slot)
    requires ValidLru(s, size) && 1 <= size && p < |s| && !Has(s, front.key)
    requires |Ahead(s, s[p].key) + {front.key}| < size
    ensures Has(LruAdd(s, size, front), s[p].key)
    ensures Ahead(LruAdd(s, size, front), s[p].key) <= Ahead(s, s[p].key) + {front.key}
  {
    var key, t := s[p].key, LruAdd(s, size, front);
    hide *;
    AheadOfNew(s, p, front.key);
    InsertShifts(s, size, p, front);
    AheadAt(t, p + 1);
    AheadAt(s, p);
    forall k | k in Ahead(t, key) ensures k in Ahead(s, key) + {front.key} {
      var i :| 0 <= i < p + 1 && t[i].key == k;
      assert i > 0 ==> t[i] == s[i - 1];
    }
  }

  lemma AheadOfNew(s: seq<Slot>, p: nat, key: string)
    requires DistinctKeys(s) && p < |s| && !Has(s, key)
    ensures |Ahead(s, s[p].key) + {key}| == p + 1
  {
    AheadAt(s, p);
    AheadSize(s, p);
    assert forall i | 0 <= i < |s| :: s[i].key != key;
    hide Ahead, Has, DistinctKeys;
    assert key !in Ahead(s, s[p].key);
  }

  lemma InsertShifts(s: seq<Slot>, size: nat, p: nat, front: Slot)
    requires ValidLru(s, size) && p < |s| && p + 1 < size && !Has(s, front.key)
    ensures var t := LruAdd(s, size, front);
      && DistinctKeys(t) && p + 1 < |t| && t[0] == front && t[p + 1] == s[p]
      && forall i | 0 < i <= p + 1 :: t[i] == s[i - 1]
  {
    ApplyKeepsValid(s, size, Add(front.key, front.client, front.expiresAt));
    assert DistinctKeys(LruAdd(s, size, front));
    hide DistinctKeys, ValidLru, Has, IndexOf;
    assert LruAdd(s, size, front) == if |s| < size then [front] + s else ([front] + s)[..size] by { hide Without; }
    hide LruAdd;
  }

  /** One step away from `key`: it keeps its slot, and only the touched key can get ahead. */
  lemma StepRetains(s: seq<Slot>, size: nat, op: Op, key: string)
    requires ValidLru(s, size) && 1 <= size && Has(s, key) && !FindsExpired(s, op, key)
    requires Touches(s, op) && op.key != key ==> |Ahead(s, key) + {op.key}| < size
    ensures Has(Apply(s, size, op), key)
    ensures Ahead(Apply(s, size, op), key) <= Ahead(s, key) + if Touches(s, op) && op.key != key then {op.key} else {}
  {
    hide Ahead, Expired;
    var p, k := IndexOf(s, key), IndexOf(s, op.key);
    var front := if op.Add? then Slot(op.key, op.client, op.expiresAt) else if k < |s| then s[k] else s[p];
    if k < |s| {
      MoveRetains(s, k, p, front);
      if k != p { WithoutRetains(s, k, p); }
    } else if op.Add? {
      InsertRetains(s, size, p, front);
    }
  }

  lemma {:induction false} RetainedFrom(s: seq<Slot>, size: nat, ops: seq<Op>, key: string, others: set<string>)
    requires ValidLru(s, size) && 1 <= size && Has(s, key) && Ahead(s, key) <= others && key !in others
    requires |others + (TouchedBy(s, size, ops) - {key})| < size
    requires !EverFindsExpired(s, size, ops, key)
    ensures Has(Run(s, size, ops), key)
    decreases |ops|
  {
    if ops != [] {
      var op, t := ops[0], Apply(s, size, ops[0]);
      var later := TouchedBy(t, size, ops[1..]);
      var touched := if Touches(s, op) then {op.key} else {};
      assert TouchedBy(s, size, ops) == touched + later;
      hide *;
      var ahead := if Touches(s, op) && op.key != key then {op.key} else {};
      assert ahead == touched - {key};
      Regrouped(others, touched, later, key);
      SubsetIsSmaller(Ahead(s, key) + ahead, (others + ahead) + (later - {key}));
      assert !FindsExpired(s, op, key) && !EverFindsExpired(t, size, ops[1..], key) by { OneStepUnexpired(s, size, ops, key); }
      StepRetains(s, size, op, key);
      ApplyKeepsValid(s, size, op);
      RetainedFrom(t, size, ops[1..], key, others + ahead);
      RunStep(s, size, ops);
    }
  }

  lemma Regrouped<T>(others: set<T>, first: set<T>, later: set<T>, key: T)
    ensures (others + (first - {key})) + (later - {key}) == others + ((first + later) - {key})
  {
  }

  lemma OneStepUnexpired(s: seq<Slot>, size: nat, ops: seq<Op>, key: string)
    requires ops != [] && !EverFindsExpired(s, size, ops, key)
    ensures !FindsExpired(s, ops[0], key) && !EverFindsExpired(Apply(s, size, ops[0]), size, ops[1..], key)
  {
  }

  lemma RunStep(s: seq<Slot>, size: nat, ops: seq<Op>)
    requires ops != []
    ensures Run(s, size, ops) == Run(Apply(s, size, ops[0]), size, ops[1..])
  {
  }

  /** Retention: a key just touched stays cached while fewer than `size` other keys are touched,
      unless a Get finds it expired. */
  lemma TouchedKeyIsRetained(s: seq<Slot>, size: nat, op: Op, ops: seq<Op>)
    requires ValidLru(s, size) && 1 <= size && Touches(s, op)
    requires |TouchedBy(Apply(s, size, op), size, ops) - {op.key}| < size
    requires !EverFindsExpired(Apply(s, size, op), size, ops, op.key)
    ensures Has(Run(Apply(s, size, op), size, ops), op.key)
  {
    var t := Apply(s, size, op);
    ApplyKeepsValid(s, size, op);
    assert t[0].key == op.key;
    IndexUnique(t, 0);
    assert {} + (TouchedBy(t, size, ops) - {op.key}) == TouchedBy(t, size, ops) - {op.key};
    RetainedFrom(t, size, ops, op.key, {});
  }

  /** Every slot holds what the latest Add of its key stored. */
  function LatestAdd(ops: seq<Op>, key: string): Option<Slot> {
    if ops == [] then None
    else
      var last := ops[|ops| - 1];
      if last.Add? && last.key == key then Some(Slot(key, last.client, last.expiresAt))
      else LatestAdd(ops[..|ops| - 1], key)
  }

  lemma {:induction false} RunSnoc(s: seq<Slot>, size: nat, ops: seq<Op>, op: Op)
    ensures Run(s, size, ops + [op]) == Apply(Run(s, size, ops), size, op)
    decreases |ops|
  {
    if ops == [] {
      assert ops + [op] == [op] && [op][1..] == [];
    } else {
      assert (ops + [op])[1..] == ops[1..] + [op];
      RunSnoc(Apply(s, size, ops[0]), size, ops[1..], op);
    }
  }

  /** `adds` are Adds of different keys. */
  predicate DistinctAdds(adds: seq<Op>) {
    && (forall i | 0 <= i < |adds| :: adds[i].Add?)
    && (forall i, j | 0 <= i < j < |adds| :: adds[i].key != adds[j].key)
  }

  /** The added keys are the front of the cache, the last one first. */
  predicate InFront(t: seq<Slot>, adds: seq<Op>) {
    |adds| <= |t| && forall i | 0 <= i < |adds| :: t[i].key == adds[|adds| - 1 - i].key
  }

  lemma {:induction false} AddsAreInFront(s: seq<Slot>, size: nat, adds: seq<Op>)
    requires ValidLru(s, size) && DistinctAdds(adds) && 1 <= size && |adds| <= size
    ensures InFront(Run(s, size, adds), adds)
  {
    if adds != [] {
      var init, op := adds[..|adds| - 1], adds[|adds| - 1];
      assert adds == init + [op];
      AddsAreInFront(s, size, init);
      RunSnoc(s, size, init, op);
      RunKeepsValid(s, size, init);
      hide ValidLru, InFront, Run;
      OneAddInFront(Run(s, size, init), size, init, op);
    }
  }

  lemma OneAddInFront(t: seq<Slot>, size: nat, init: seq<Op>, op: Op)
    requires DistinctAdds(init + [op]) && |init| < size && ValidLru(t, size) && InFront(t, init)
    ensures InFront(Apply(t, size, op), init + [op])
  {
    var k, adds, u := IndexOf(t, op.key), init + [op], Apply(t, size, op);
    assert adds[|init|] == op && forall i | 0 <= i < |init| :: adds[i] == init[i];
    forall i | 0 <= i < |init| ensures t[i].key != op.key {
      assert adds[|init| - 1 - i].key != adds[|init|].key;
    }
    assert k >= |init|;
    hide DistinctAdds, IndexOf, ValidLru;
    assert |u| > |init| && u[0].key == op.key;
    assert forall i | 1 <= i <= |init| :: u[i] == t[i - 1];
  }

  /** The bound is tight: for every size and every cache, `size` Adds of other keys after a touch
      push the touched key out, and it is those keys that are cached. */
  lemma OneMoreKeyEvicts(s: seq<Slot>, size: nat, op: Op, adds: seq<Op>)
    requires ValidLru(s, size) && 1 <= size
    requires DistinctAdds(adds) && |adds| == size && forall i | 0 <= i < size :: adds[i].key != op.key
    ensures var t := Run(Apply(s, size, op), size, adds);
      && !Has(t, op.key)
      && |t| == size && forall i | 0 <= i < size :: Has(t, adds[i].key)
  {
    hide *;
    ApplyKeepsValid(s, size, op);
    AddsAreInFront(Apply(s, size, op), size, adds);
    RunKeepsValid(Apply(s, size, op), size, adds);
    OnlyTheAdded(Run(Apply(s, size, op), size, adds), size, adds, op.key);
  }

  lemma OnlyTheAdded(t: seq<Slot>, size: nat, adds: seq<Op>, key: string)
    requires ValidLru(t, size) && InFront(t, adds) && |adds| == size && forall i | 0 <= i < size :: adds[i].key != key
    ensures !Has(t, key) && |t| == size && forall i | 0 <= i < size :: Has(t, adds[i].key)
  {
    assert |t| == size && DistinctKeys(t);
    forall i | 0 <= i < |t| ensures t[i].key != key {
    }
    forall i | 0 <= i < size ensures Has(t, adds[i].key) {
      assert t[size - 1 - i].key == adds[i].key;
      IndexUnique(t, size - 1 - i);
    }
  }

  lemma {:induction false} SlotsAreLatestAdds(size: nat, ops: seq<Op>)
    requires 1 <= size
    ensures forall slot | slot in Run([], size, ops) :: LatestAdd(ops, slot.key) == Some(slot)
  {
    if ops != [] {
      var init, op := ops[..|ops| - 1], ops[|ops| - 1];
      var s := Run([], size, init);
      assert ops == init + [op];
      SlotsAreLatestAdds(size, init);
      RunSnoc([], size, init, op);
      RunKeepsValid([], size, init);
      hide Run;
      var t := Apply(s, size, op);
      forall slot | slot in t ensures LatestAdd(ops, slot.key) == Some(slot) {
        StepSlots(s, size, op, slot);
      }
    }
  }

  /** Where the slots of the next state come from. */
  lemma StepSlots(s: seq<Slot>, size: nat, op: Op, slot: Slot)
    requires ValidLru(s, size) && slot in Apply(s, size, op)
    ensures (op.Add? && slot == Slot(op.key, op.client, op.expiresAt)) || (slot in s && (op.Add? ==> slot.key != op.key))
  {
    var k, t := IndexOf(s, op.key), Apply(s, size, op);
    if k < |s| {
      hide IndexOf;
      if slot in Without(s, k) {
        OtherSlot(s, k, slot);
      }
      hide Without;
      assert t == s || slot == t[0] || slot in Without(s, k);
    } else {
      assert forall i | 0 <= i < |s| :: s[i].key != op.key;
      hide IndexOf;
      if op.Add? {
        assert slot in [Slot(op.key, op.client, op.expiresAt)] + s;
      }
    }
  }

  lemma OtherSlot(s: seq<Slot>, k: nat, slot: Slot)
    requires DistinctKeys(s) && k < |s| && slot in Without(s, k)
    ensures slot in s && slot.key != s[k].key
  {
    var i :| 0 <= i < |Without(s, k)| && Without(s, k)[i] == slot;
    assert slot == s[if i < k then i else i + 1];
  }

  // ---------- the two implementations ----------

  /** On a cached key with an expiry and a skew that is not negative, the two expiry tests
      differ exactly at the bound itself. */
  lemma ExpiryDiffersOnlyAtBound(key: string, e: PyEntry, skewSeconds: nat, now: Time)
    requires e.expiresAt != Some(ZERO_TIME)
    ensures PyExpired(e, skewSeconds, now) != Expired(PySlot(key, e), skewSeconds * 1_000_000_000, now)
        <==> e.expiresAt.Some? && now == e.expiresAt.value - skewSeconds * 1_000_000_000
  {
  }
}
