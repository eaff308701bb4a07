/** Overlapping refreshes of the provider cache (pkg/providerinstance/cache.go): no lock is held
    across a refresh. It lists records, later sets the entries of one tenant or of all, and a
    refresh without a tenant then removes the entries of tenants it did not list; other requests
    may write and refresh in between. The steps of all requests may come in any order. */
module ProviderCacheRaces {
  import opened GoText
  import opened Sorting
  import opened ProviderCache

  /** A refresh that has still to list; that has listed and has `todo` left to set; that removes
      `keys`, as Close also does; that met a record it could not parse. */
  datatype Stage = Waiting | Listed(records: seq<Instance>, todo: set<string>) | Clearing(keys: set<string>) | Failed

  datatype Thread = Thread(tenant: string, stage: Stage)

  /** `installed` are the records behind each cached entry. */
  datatype Racing = Racing(rows: seq<Instance>, items: map<string, Configs>, threads: seq<Thread>, installed: map<string, seq<Instance>>)

  const START := Racing([], map[], [], map[])

  /** A write for a tenant, or for none, begins a refresh in the same scope; a lookup that misses
      begins one too. `touched` are the tenants whose records the write changes. */
  datatype Step =
    | Write(tenant: string, touched: set<string>, rows: seq<Instance>)
    | Begin(tenant: string)
    | Close
    | List(i: nat)
    | Set(i: nat, t: string)
    | Keys(i: nat)
    | Delete(i: nat, t: string)

  function TenantsOf(rows: seq<Instance>): set<string> { set r | r in rows :: r.tenantId }

  function ListingOf(rows: seq<Instance>, tenant: string): Stage {
    if tenant == "" then Listed(rows, TenantsOf(rows)) else Listed(RowsOf(rows, tenant), {tenant})
  }

  ghost predicate Enabled(s: Racing, step: Step) {
    match step
    case Write(tenant, touched, rows) =>
      (tenant == "" || touched <= {tenant}) && forall t: string | t !in touched :: RowsOf(rows, t) == RowsOf(s.rows, t)
    case Begin(_) => true
    case Close => true
    case List(i) => i < |s.threads| && s.threads[i].stage.Waiting?
    case Set(i, t) => i < |s.threads| && s.threads[i].stage.Listed? && t in s.threads[i].stage.todo
    case Keys(i) => i < |s.threads| && s.threads[i].tenant == "" && s.threads[i].stage.Listed? && s.threads[i].stage.todo == {}
    case Delete(i, t) => i < |s.threads| && s.threads[i].stage.Clearing? && t in s.threads[i].stage.keys
  }

  function Moved(s: Racing, i: nat, stage: Stage): seq<Thread>
    requires i < |s.threads|
  {
    s.threads[i := s.threads[i].(stage := stage)]
  }

  function Next(s: Racing, step: Step, parse: Parser): Racing
    requires Enabled(s, step)
  {
    match step
    case Write(tenant, _, rows) => s.(rows := rows, threads := s.threads + [Thread(tenant, Waiting)])
    case Begin(tenant) => s.(threads := s.threads + [Thread(tenant, Waiting)])
    case Close => s.(threads := s.threads + [Thread("", Clearing(s.items.Keys))])
    case List(i) => s.(threads := Moved(s, i, ListingOf(s.rows, s.threads[i].tenant)))
    case Set(i, t) =>
      var stage := s.threads[i].stage;
      var records := RowsOf(stage.records, t);
      (match Built(records, parse)
       case None => s.(threads := Moved(s, i, Failed))
       case Some(m) =>
         var rest := Moved(s, i, stage.(todo := stage.todo - {t}));
         if m == map[] then s.(items := s.items - {t}, installed := s.installed - {t}, threads := rest)
         else s.(items := s.items[t := m], installed := s.installed[t := records], threads := rest))
    case Keys(i) => s.(threads := Moved(s, i, Clearing(s.items.Keys - TenantsOf(s.threads[i].stage.records))))
    case Delete(i, t) =>
      var stage := s.threads[i].stage;
      s.(items := s.items - {t}, installed := s.installed - {t}, threads := Moved(s, i, Clearing(stage.keys - {t})))
  }

  ghost predicate CanRun(s: Racing, steps: seq<Step>, parse: Parser)
    decreases |steps|
  {
    steps == [] || (Enabled(s, steps[0]) && CanRun(Next(s, steps[0], parse), steps[1..], parse))
  }

  ghost function After(s: Racing, steps: seq<Step>, parse: Parser): Racing
    requires CanRun(s, steps, parse)
    decreases |steps|
  {
    if steps == [] then s else After(Next(s, steps[0], parse), steps[1..], parse)
  }

  // ---------- what was overtaken, told from the order of the steps ----------

  /** `overtaken` are the listings, by thread and tenant, that a write to the tenant came after;
      `stale` the tenants whose entry comes from such a listing or was itself followed by a write. */
  datatype Marks = Marks(overtaken: set<(nat, string)>, stale: set<string>)

  const NO_MARKS := Marks({}, {})

  /** A write marks the listings and the entry of every tenant it touches; listing anew clears the
      thread's marks; setting an entry hands the listing's mark to it. */
  ghost function MarksNext(m: Marks, s: Racing, step: Step, parse: Parser): Marks
    requires Enabled(s, step)
  {
    match step
    case Write(_, touched, _) =>
      Marks(m.overtaken + (set i, t | 0 <= i < |s.threads| && t in touched :: (i, t)), m.stale + touched)
    case List(i) => m.(overtaken := set mark | mark in m.overtaken && mark.0 != i)
    case Set(i, t) =>
      if Built(RowsOf(s.threads[i].stage.records, t), parse).None? then m
      else m.(stale := if (i, t) in m.overtaken then m.stale + {t} else m.stale - {t})
    case _ => m
  }

  ghost function MarksAfter(m: Marks, s: Racing, steps: seq<Step>, parse: Parser): Marks
    requires CanRun(s, steps, parse)
    decreases |steps|
  {
    if steps == [] then m else MarksAfter(MarksNext(m, s, steps[0], parse), Next(s, steps[0], parse), steps[1..], parse)
  }

  /** The entry that records give a tenant; none without records of its own, or when one of those does not parse. */
  function EntryOf(rows: seq<Instance>, t: string, parse: Parser): Option<Configs> {
    match Built(RowsOf(rows, t), parse)
    case None => None
    case Some(m) => if m == map[] then None else Some(m)
  }

  lemma CoherentByEntry(s: Racing, t: string, parse: Parser)
    requires t in s.items ==> s.items[t] != map[]
    ensures CoherentAt(s.items, s.rows, parse, t) <==> (t in s.items ==> EntryOf(s.rows, t, parse) == Some(s.items[t]))
  {
    if Built(RowsOf(s.rows, t), parse).Some? {
      BuiltNonEmpty(RowsOf(s.rows, t), parse);
    }
  }

  predicate Holds(th: Thread, t: string) { th.stage.Listed? && t in th.stage.todo }

  /** Entries without a mark, and listings without one, are those of the records stored now. */
  ghost predicate UnmarkedIsCurrent(s: Racing, m: Marks, parse: Parser) {
    && (forall t | t in s.items :: s.items[t] != map[] && (t !in m.stale ==> EntryOf(s.rows, t, parse) == Some(s.items[t])))
    && (forall i, t | 0 <= i < |s.threads| && Holds(s.threads[i], t) && (i, t) !in m.overtaken ::
          EntryOf(s.threads[i].stage.records, t, parse) == EntryOf(s.rows, t, parse))
  }

  /** Those with a mark differ from them. */
  ghost predicate MarkedDiffers(s: Racing, m: Marks, parse: Parser) {
    && (forall t | t in s.items && t in m.stale :: EntryOf(s.rows, t, parse) != Some(s.items[t]))
    && (forall i, t | 0 <= i < |s.threads| && Holds(s.threads[i], t) && (i, t) in m.overtaken && EntryOf(s.threads[i].stage.records, t, parse).Some? ::
          EntryOf(s.threads[i].stage.records, t, parse) != EntryOf(s.rows, t, parse))
  }

  /** A write gives no tenant the entry that is cached for it or that a refresh still holds for it. */
  ghost predicate IsFresh(s: Racing, step: Step, parse: Parser) {
    step.Write? ==>
      forall t | t in step.touched && EntryOf(step.rows, t, parse).Some? ::
        && (t in s.items ==> Some(s.items[t]) != EntryOf(step.rows, t, parse))
        && (forall i | 0 <= i < |s.threads| && Holds(s.threads[i], t) :: EntryOf(s.threads[i].stage.records, t, parse) != EntryOf(step.rows, t, parse))
  }

  ghost predicate WritesFresh(s: Racing, steps: seq<Step>, parse: Parser)
    requires CanRun(s, steps, parse)
    decreases |steps|
  {
    steps == [] || (IsFresh(s, steps[0], parse) && WritesFresh(Next(s, steps[0], parse), steps[1..], parse))
  }

  lemma RowsOfTwice(rows: seq<Instance>, t: string)
    ensures RowsOf(RowsOf(rows, t), t) == RowsOf(rows, t)
  {
    FilterAll(RowsOf(rows, t), OfTenant(t));
  }

  /** What a listing holds is what is stored. */
  lemma ListingIsCurrent(rows: seq<Instance>, tenant: string, t: string, parse: Parser)
    requires t in ListingOf(rows, tenant).todo
    ensures RowsOf(ListingOf(rows, tenant).records, t) == RowsOf(rows, t)
    ensures EntryOf(ListingOf(rows, tenant).records, t, parse) == EntryOf(rows, t, parse)
  {
    RowsOfTwice(rows, t);
  }

  /** What setting an entry does. */
  lemma SetDoes(s: Racing, i: nat, t: string, parse: Parser)
    requires Enabled(s, Set(i, t))
    ensures var u, entry := Next(s, Set(i, t), parse), EntryOf(s.threads[i].stage.records, t, parse);
      && u.rows == s.rows && |u.threads| == |s.threads|
      && (forall j | 0 <= j < |s.threads| && j != i :: u.threads[j] == s.threads[j])
      && u.threads[i].tenant == s.threads[i].tenant
      && (entry.Some? ==> u.items == s.items[t := entry.value] && entry.value != map[])
      && (entry.None? ==> u.items == s.items || u.items == s.items - {t})
      && (u.threads[i].stage.Failed? || u.threads[i].stage == s.threads[i].stage.(todo := s.threads[i].stage.todo - {t}))
      && (u.threads[i].stage.Failed? <==> Built(RowsOf(s.threads[i].stage.records, t), parse).None?)
      && (!u.threads[i].stage.Failed? ==> u.items == if entry.Some? then s.items[t := entry.value] else s.items - {t})
      && (u.threads[i].stage.Failed? ==> u.items == s.items && entry.None?)
  {
  }

  lemma SetKeepsMarks(s: Racing, m: Marks, i: nat, t: string, parse: Parser)
    requires UnmarkedIsCurrent(s, m, parse) && Enabled(s, Set(i, t))
    ensures UnmarkedIsCurrent(Next(s, Set(i, t), parse), MarksNext(m, s, Set(i, t), parse), parse)
    ensures MarkedDiffers(s, m, parse) ==> MarkedDiffers(Next(s, Set(i, t), parse), MarksNext(m, s, Set(i, t), parse), parse)
  {
    SetDoes(s, i, t, parse);
    var u, n := Next(s, Set(i, t), parse), MarksNext(m, s, Set(i, t), parse);
    assert n.overtaken == m.overtaken;
    if u.threads[i].stage.Failed? {
      assert n == m && u.items == s.items;
    } else {
      assert n.stale == if (i, t) in m.overtaken then m.stale + {t} else m.stale - {t};
    }
    assert Holds(s.threads[i], t);
    forall j, k | 0 <= j < |u.threads| && Holds(u.threads[j], k)
      ensures Holds(s.threads[j], k) && u.threads[j].stage.records == s.threads[j].stage.records
    {
    }
    hide Next, MarksNext, EntryOf, RowsOf, Built, Holds;
  }

  lemma WriteKeepsMarks(s: Racing, m: Marks, step: Step, parse: Parser)
    requires UnmarkedIsCurrent(s, m, parse) && Enabled(s, step) && step.Write?
    ensures UnmarkedIsCurrent(Next(s, step, parse), MarksNext(m, s, step, parse), parse)
    ensures MarkedDiffers(s, m, parse) && IsFresh(s, step, parse) ==> MarkedDiffers(Next(s, step, parse), MarksNext(m, s, step, parse), parse)
  {
    forall t | t !in step.touched ensures EntryOf(step.rows, t, parse) == EntryOf(s.rows, t, parse) {
    }
    hide EntryOf, RowsOf;
    var u := Next(s, step, parse);
    assert forall i, t | 0 <= i < |u.threads| && Holds(u.threads[i], t) :: i < |s.threads| && u.threads[i] == s.threads[i];
  }

  lemma StepKeepsMarks(s: Racing, m: Marks, step: Step, parse: Parser)
    requires UnmarkedIsCurrent(s, m, parse) && Enabled(s, step)
    ensures UnmarkedIsCurrent(Next(s, step, parse), MarksNext(m, s, step, parse), parse)
    ensures MarkedDiffers(s, m, parse) && IsFresh(s, step, parse) ==> MarkedDiffers(Next(s, step, parse), MarksNext(m, s, step, parse), parse)
  {
    if step.Write? {
      hide *;
      WriteKeepsMarks(s, m, step, parse);
    } else if step.Set? {
      hide *;
      SetKeepsMarks(s, m, step.i, step.t, parse);
    } else {
      if step.List? {
        forall t | t in ListingOf(s.rows, s.threads[step.i].tenant).todo
          ensures EntryOf(ListingOf(s.rows, s.threads[step.i].tenant).records, t, parse) == EntryOf(s.rows, t, parse)
        {
          ListingIsCurrent(s.rows, s.threads[step.i].tenant, t, parse);
        }
      }
      hide EntryOf, RowsOf, ListingOf;
      var u := Next(s, step, parse);
      assert forall j | 0 <= j < |s.threads| && ((step.Begin? || step.Close?) || j != step.i) :: u.threads[j] == s.threads[j];
    }
  }

  lemma {:induction false} RunKeepsMarks(s: Racing, m: Marks, steps: seq<Step>, parse: Parser)
    requires UnmarkedIsCurrent(s, m, parse) && CanRun(s, steps, parse)
    ensures UnmarkedIsCurrent(After(s, steps, parse), MarksAfter(m, s, steps, parse), parse)
    ensures MarkedDiffers(s, m, parse) && WritesFresh(s, steps, parse) ==> MarkedDiffers(After(s, steps, parse), MarksAfter(m, s, steps, parse), parse)
    decreases |steps|
  {
    if steps != [] {
      StepKeepsMarks(s, m, steps[0], parse);
      hide UnmarkedIsCurrent, MarkedDiffers, IsFresh, Enabled, Next, MarksNext;
      RunKeepsMarks(Next(s, steps[0], parse), MarksNext(m, s, steps[0], parse), steps[1..], parse);
    }
  }

  /** In any interleaving whose writes are fresh, the cache is coherent if and only if no cached
      tenant is marked: every entry was set from a listing that no write to the tenant came after.
      Without a mark it is coherent whatever the writes. */
  lemma CoherentIffNotOvertaken(steps: seq<Step>, parse: Parser)
    requires CanRun(START, steps, parse)
    ensures var s, stale := After(START, steps, parse), MarksAfter(NO_MARKS, START, steps, parse).stale;
      && ((forall t | t in s.items :: t !in stale) ==> Coherent(s.items, s.rows, parse))
      && (WritesFresh(START, steps, parse) ==> (Coherent(s.items, s.rows, parse) <==> forall t | t in s.items :: t !in stale))
  {
    RunKeepsMarks(START, NO_MARKS, steps, parse);
    var s, m := After(START, steps, parse), MarksAfter(NO_MARKS, START, steps, parse);
    forall t: string ensures CoherentAt(s.items, s.rows, parse, t) <==> (t in s.items ==> EntryOf(s.rows, t, parse) == Some(s.items[t])) {
      CoherentByEntry(s, t, parse);
    }
    hide CoherentAt, EntryOf, After, MarksAfter, CanRun, WritesFresh;
    if Coherent(s.items, s.rows, parse) {
      forall t | t in s.items ensures EntryOf(s.rows, t, parse) == Some(s.items[t]) {
        assert CoherentAt(s.items, s.rows, parse, t);
      }
    }
  }

  // ---------- whatever the writes ----------

  /** Every entry is built from the records of some listing. */
  ghost predicate Installed(s: Racing, parse: Parser) {
    && s.items.Keys == s.installed.Keys
    && (forall t | t in s.items :: s.items[t] != map[] && EntryOf(s.installed[t], t, parse) == Some(s.items[t]))
  }

  lemma StepKeepsInstalled(s: Racing, step: Step, parse: Parser)
    requires Installed(s, parse) && Enabled(s, step)
    ensures Installed(Next(s, step, parse), parse)
  {
    hide EntryOf, RowsOf, TenantsOf, ListingOf;
    if step.Set? {
      SetInstalls(s, step.i, step.t, parse);
      hide Next;
    }
  }

  lemma SetInstalls(s: Racing, i: nat, t: string, parse: Parser)
    requires Enabled(s, Set(i, t))
    ensures var u, records := Next(s, Set(i, t), parse), RowsOf(s.threads[i].stage.records, t);
      || (u.items == s.items && u.installed == s.installed)
      || (u.items == s.items - {t} && u.installed == s.installed - {t})
      || (EntryOf(records, t, parse).Some? && EntryOf(records, t, parse).value != map[]
          && u.items == s.items[t := EntryOf(records, t, parse).value] && u.installed == s.installed[t := records])
  {
    RowsOfTwice(s.threads[i].stage.records, t);
    hide RowsOf;
  }

  lemma {:induction false} RunKeepsInstalled(s: Racing, steps: seq<Step>, parse: Parser)
    requires Installed(s, parse) && CanRun(s, steps, parse)
    ensures Installed(After(s, steps, parse), parse)
    decreases |steps|
  {
    if steps != [] {
      StepKeepsInstalled(s, steps[0], parse);
      hide Installed, Enabled, Next;
      RunKeepsInstalled(Next(s, steps[0], parse), steps[1..], parse);
    }
  }

  /** When writes may bring an entry back: the cache is coherent exactly when for each cached tenant
      the records its entry was set from build to the same map as those stored now. */
  lemma CoherentIffListedIsCurrent(steps: seq<Step>, parse: Parser)
    requires CanRun(START, steps, parse)
    ensures var s := After(START, steps, parse);
      Coherent(s.items, s.rows, parse) <==>
      forall t | t in s.items :: t in s.installed && BuildsAsBefore(s.installed[t], s.rows, t, parse)
  {
    var s := After(START, steps, parse);
    RunKeepsInstalled(START, steps, parse);
    hide After, CanRun, RowsOf, Built;
    if Coherent(s.items, s.rows, parse) {
      forall t | t in s.items ensures t in s.installed && BuildsAsBefore(s.installed[t], s.rows, t, parse) {
        assert CoherentAt(s.items, s.rows, parse, t);
      }
    }
  }

  // ---------- when nothing is overtaken ----------

  /** The step writes no tenant that another refresh has listed and not yet set. */
  predicate OvertakesNobody(s: Racing, step: Step) {
    step.Write? ==> forall i, t | 0 <= i < |s.threads| && t in step.touched :: !Holds(s.threads[i], t)
  }

  ghost predicate NeverOvertaken(s: Racing, steps: seq<Step>, parse: Parser)
    requires CanRun(s, steps, parse)
    decreases |steps|
  {
    steps == [] || (OvertakesNobody(s, steps[0]) && NeverOvertaken(Next(s, steps[0], parse), steps[1..], parse))
  }

  predicate WritesParse(steps: seq<Step>, parse: Parser) {
    forall i | 0 <= i < |steps| && steps[i].Write? :: Parsable(steps[i].rows, parse)
  }

  /** The refresh has still to set or to remove the tenant's entry. */
  predicate HasStill(th: Thread, t: string) {
    match th.stage
    case Waiting => th.tenant == "" || th.tenant == t
    case Listed(records, todo) => t in todo || (th.tenant == "" && t !in TenantsOf(records))
    case Clearing(keys) => t in keys
    case Failed => false
  }

  predicate UnderWay(s: Racing, t: string) { exists i :: 0 <= i < |s.threads| && HasStill(s.threads[i], t) }

  /** No refresh has anything left to do. */
  ghost predicate Quiet(s: Racing) { forall t: string :: !UnderWay(s, t) }

  /** Listings are unmarked, and the tenants that are marked are about to be refreshed. */
  ghost predicate InHand(s: Racing, m: Marks, parse: Parser) {
    && Parsable(s.rows, parse)
    && (forall i | 0 <= i < |s.threads| && s.threads[i].stage.Listed? :: Parsable(s.threads[i].stage.records, parse))
    && (forall i, t | 0 <= i < |s.threads| && Holds(s.threads[i], t) :: (i, t) !in m.overtaken)
    && (forall t | t in s.items && t in m.stale :: UnderWay(s, t))
  }

  lemma RowsParse(rows: seq<Instance>, t: string, parse: Parser)
    requires Parsable(rows, parse)
    ensures Parsable(RowsOf(rows, t), parse) && Built(RowsOf(rows, t), parse).Some?
  {
    ParsableBuilds(RowsOf(rows, t), parse);
  }

  /** The entries that need a refresh keep one under way. */
  lemma StaysUnderWay(s: Racing, m: Marks, step: Step, parse: Parser, t: string)
    requires InHand(s, m, parse) && Enabled(s, step) && OvertakesNobody(s, step)
    requires var u := Next(s, step, parse); t in u.items && t in MarksNext(m, s, step, parse).stale
    ensures UnderWay(Next(s, step, parse), t)
  {
    var u := Next(s, step, parse);
    if step.Set? {
      RowsParse(s.threads[step.i].stage.records, step.t, parse);
      SetDoes(s, step.i, step.t, parse);
      assert Holds(s.threads[step.i], step.t);
      assert t != step.t;
    }
    hide RowsOf, Built, Parsable;
    if step.Write? && t in step.touched {
      assert HasStill(u.threads[|s.threads|], t);
    } else {
      assert t in s.items && t in m.stale;
      var i :| 0 <= i < |s.threads| && HasStill(s.threads[i], t);
      assert HasStill(u.threads[i], t);
    }
  }

  lemma StepKeepsInHand(s: Racing, m: Marks, step: Step, parse: Parser)
    requires InHand(s, m, parse) && Enabled(s, step) && OvertakesNobody(s, step) && (step.Write? ==> Parsable(step.rows, parse))
    ensures InHand(Next(s, step, parse), MarksNext(m, s, step, parse), parse)
  {
    var u, n := Next(s, step, parse), MarksNext(m, s, step, parse);
    forall t | t in u.items && t in n.stale ensures UnderWay(u, t) {
      StaysUnderWay(s, m, step, parse, t);
    }
    if step.List? {
      RowsParse(s.rows, s.threads[step.i].tenant, parse);
    }
    if step.Set? {
      SetDoes(s, step.i, step.t, parse);
      assert n.overtaken == m.overtaken;
    }
    hide RowsOf, Built, Parsable, UnderWay, EntryOf;
  }

  lemma {:induction false} RunKeepsInHand(s: Racing, m: Marks, steps: seq<Step>, parse: Parser)
    requires InHand(s, m, parse) && CanRun(s, steps, parse) && NeverOvertaken(s, steps, parse) && WritesParse(steps, parse)
    ensures InHand(After(s, steps, parse), MarksAfter(m, s, steps, parse), parse)
    decreases |steps|
  {
    if steps != [] {
      assert steps[0].Write? ==> Parsable(steps[0].rows, parse);
      StepKeepsInHand(s, m, steps[0], parse);
      assert WritesParse(steps[1..], parse);
      hide InHand, Enabled, Next, OvertakesNobody, MarksNext, WritesParse;
      RunKeepsInHand(Next(s, steps[0], parse), MarksNext(m, s, steps[0], parse), steps[1..], parse);
    }
  }

  /** When the records parse and no write overtakes a refresh of its tenant, the cache is coherent
      whenever no refresh is under way, however the requests overlap otherwise. */
  lemma QuietIsCoherent(steps: seq<Step>, parse: Parser)
    requires CanRun(START, steps, parse) && NeverOvertaken(START, steps, parse) && WritesParse(steps, parse) && Quiet(After(START, steps, parse))
    ensures var s := After(START, steps, parse); Coherent(s.items, s.rows, parse)
  {
    RunKeepsInHand(START, NO_MARKS, steps, parse);
    CoherentIffNotOvertaken(steps, parse);
  }

  /** Overtaken, it may not be: a request writes and lists; another writes the same instance anew,
      lists and sets; then the first one sets what it had listed. */
  function OvertakenRun(a: Instance, b: Instance): seq<Step> {
    var t := a.tenantId;
    [Write(t, {t}, [a]), List(0), Write(t, {t}, [b]), List(1), Set(1, t), Set(0, t)]
  }

  lemma OvertakenIsStale(a: Instance, b: Instance, parse: Parser)
    requires a.tenantId == b.tenantId != "" && a.provider == b.provider && a.key == b.key
    requires ConfigOf(a, parse).Some? && ConfigOf(b, parse).Some? && ConfigOf(a, parse) != ConfigOf(b, parse)
    ensures CanRun(START, OvertakenRun(a, b), parse)
    ensures var s := After(START, OvertakenRun(a, b), parse);
      Quiet(s) && s.rows == [b] && !Coherent(s.items, s.rows, parse)
  {
    var t, steps := a.tenantId, OvertakenRun(a, b);
    OneRow(a, parse);
    OneRow(b, parse);
    var s1, s2, s3, s4 := BothListed(a, b, parse);
    hide RowsOf, Built, ConfigOf;
    SetAfter(s4, 1, t, [b], parse);
    var s5 := Next(s4, steps[4], parse);
    SetAfter(s5, 0, t, [a], parse);
    var s6 := Next(s5, steps[5], parse);
    assert t in s6.items && Some(s6.items[t]) == Built([a], parse) != Built([b], parse);
    assert !CoherentAt(s6.items, s6.rows, parse, t);
    hide Next, Enabled;
    SixSteps(steps, s1, s2, s3, s4, s5, s6, parse);
  }

  lemma BothListed(a: Instance, b: Instance, parse: Parser) returns (s1: Racing, s2: Racing, s3: Racing, s4: Racing)
    requires a.tenantId == b.tenantId != ""
    ensures var t, steps := a.tenantId, OvertakenRun(a, b);
      && Enabled(START, steps[0]) && s1 == Next(START, steps[0], parse)
      && Enabled(s1, steps[1]) && s2 == Next(s1, steps[1], parse)
      && Enabled(s2, steps[2]) && s3 == Next(s2, steps[2], parse)
      && Enabled(s3, steps[3]) && s4 == Next(s3, steps[3], parse)
      && s4.threads == [Thread(t, Listed([a], {t})), Thread(t, Listed([b], {t}))] && s4.rows == [b]
  {
    var t, steps := a.tenantId, OvertakenRun(a, b);
    OneTenant(a);
    OneTenant(b);
    hide RowsOf;
    s1 := Next(START, steps[0], parse);
    assert s1.threads == [Thread(t, Waiting)] && s1.rows == [a];
    s2 := Next(s1, steps[1], parse);
    assert s2.threads == [Thread(t, Listed([a], {t}))] && s2.rows == [a];
    s3 := Next(s2, steps[2], parse);
    assert s3.threads == [Thread(t, Listed([a], {t})), Thread(t, Waiting)] && s3.rows == [b];
    s4 := Next(s3, steps[3], parse);
  }

  lemma SetAfter(s: Racing, i: nat, t: string, records: seq<Instance>, parse: Parser)
    requires i < |s.threads| && s.threads[i] == Thread(t, Listed(records, {t})) && RowsOf(records, t) == records != [] && Built(records, parse).Some?
    ensures var u := Next(s, Set(i, t), parse);
      u.threads == s.threads[i := Thread(t, Listed(records, {}))] && u.rows == s.rows && u.items == s.items[t := Built(records, parse).value]
  {
    BuiltNonEmpty(records, parse);
    assert {t} - {t} == {};
  }

  lemma OneRow(a: Instance, parse: Parser)
    requires ConfigOf(a, parse).Some?
    ensures RowsOf([a], a.tenantId) == [a]
    ensures Built([a], parse) == Some(map[a.provider + ":" + a.key := ConfigOf(a, parse).value])
  {
    OneTenant(a);
    assert [a][..0] == [];
  }

  lemma OneTenant(a: Instance)
    ensures forall t: string :: RowsOf([a], t) == if t == a.tenantId then [a] else []
    ensures forall t: string :: RowsOf([], t) == []
  {
    forall t: string ensures RowsOf([a], t) == if t == a.tenantId then [a] else [] {
      var p := OfTenant(t);
      assert [a][1..] == [] && Filter([a][1..], p) == [] && (p(a) <==> t == a.tenantId);
      assert [a] + [] == [a];
    }
  }

  lemma SixSteps(steps: seq<Step>, s1: Racing, s2: Racing, s3: Racing, s4: Racing, s5: Racing, s6: Racing, parse: Parser)
    requires |steps| == 6
    requires Enabled(START, steps[0]) && s1 == Next(START, steps[0], parse)
    requires Enabled(s1, steps[1]) && s2 == Next(s1, steps[1], parse)
    requires Enabled(s2, steps[2]) && s3 == Next(s2, steps[2], parse)
    requires Enabled(s3, steps[3]) && s4 == Next(s3, steps[3], parse)
    requires Enabled(s4, steps[4]) && s5 == Next(s4, steps[4], parse)
    requires Enabled(s5, steps[5]) && s6 == Next(s5, steps[5], parse)
    ensures CanRun(START, steps, parse) && After(START, steps, parse) == s6
  {
    hide Enabled, Next;
    assert steps[5..][0] == steps[5] && steps[5..][1..] == [];
    assert CanRun(s5, steps[5..], parse) && After(s5, steps[5..], parse) == s6;
    OneMore(s4, steps, 4, s5, s6, parse);
    OneMore(s3, steps, 3, s4, s6, parse);
    OneMore(s2, steps, 2, s3, s6, parse);
    OneMore(s1, steps, 1, s2, s6, parse);
    OneMore(START, steps, 0, s1, s6, parse);
    assert steps[0..] == steps;
  }

  lemma OneMore(s: Racing, steps: seq<Step>, k: nat, next: Racing, last: Racing, parse: Parser)
    requires k < |steps| && Enabled(s, steps[k]) && next == Next(s, steps[k], parse)
    requires CanRun(next, steps[k + 1..], parse) && After(next, steps[k + 1..], parse) == last
    ensures CanRun(s, steps[k..], parse) && After(s, steps[k..], parse) == last
  {
    hide Enabled, Next;
    assert steps[k..][0] == steps[k] && steps[k..][1..] == steps[k + 1..];
  }
}
