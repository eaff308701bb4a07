/** A decoded JSON document. */
module Json {
  datatype Json =
    | Null
    | Bool(b: bool)
    | Number(n: real)
    | String(s: string)
    | Array(items: seq<Json>)
    | Object(fields: map<string, Json>)
}

/** pkg/core/flatten.go: the path index over a document. */
module Flatten {
  import opened GoText
  import opened Json
  import opened Sorting

  // ---------- paths, their rendering, and walking them ----------

  /** `Whole` is the `[]` entry of an array. */
  datatype Step = Field(key: string) | Index(i: nat) | Whole

  function RenderStep(step: Step): string {
    match step
    case Field(key) => "." + key
    case Index(i) => "[" + DigitsOf(i) + "]"
    case Whole => "[]"
  }

  function Render(steps: seq<Step>): string {
    if steps == [] then "" else RenderStep(steps[0]) + Render(steps[1..])
  }

  /** A field is set off by a dot, an item by its decimal number in brackets, and a whole list by
      empty brackets. */
  lemma PathsAreWrittenAs(key: string, i: nat, below: seq<Step>)
    ensures Render([Field(key)] + below) == "." + key + Render(below)
    ensures Render([Index(i)] + below) == "[" + FormatInt(i) + "]" + Render(below)
    ensures Render([Whole]) == "[]" && Render([]) == ""
  {
    assert ([Field(key)] + below)[1..] == below && ([Index(i)] + below)[1..] == below;
    assert "[]" + "" == "[]";
  }

  lemma RenderBelow(prefix: string, steps: seq<Step>)
    requires steps != []
    ensures prefix + Render(steps) == (prefix + RenderStep(steps[0])) + Render(steps[1..])
  {
    hide RenderStep;
  }

  /** Walking `steps` down from `v` ends at `node`. */
  predicate Leads(v: Json, steps: seq<Step>, node: Json) {
    if steps == [] then node == v
    else match steps[0]
      case Field(key) => v.Object? && key in v.fields && Leads(v.fields[key], steps[1..], node)
      case Index(i) => v.Array? && i < |v.items| && Leads(v.items[i], steps[1..], node)
      case Whole => v.Array? && steps == [Whole] && node == v
  }

  /** Entries are the leaves and the arrays. */
  predicate IsEntry(v: Json, steps: seq<Step>, node: Json) {
    Leads(v, steps, node) && !node.Object?
  }

  predicate IsRootEntry(data: map<string, Json>, key: string, steps: seq<Step>, node: Json) {
    key in data && IsEntry(data[key], steps, node)
  }

  /** `out` has the keys of the entries of `data` and no others, and every value is the node
      of an entry with that key. */
  ghost predicate IsIndexOf(out: map<string, Json>, data: map<string, Json>) {
    && (forall key, steps, node | IsRootEntry(data, key, steps, node) :: key + Render(steps) in out)
    && (forall path | path in out ::
          exists key, steps :: IsRootEntry(data, key, steps, out[path]) && key + Render(steps) == path)
  }

  // ---------- Flatten ----------

  /** `path` is a key of `out` that the walk from `v`, rendered after `prefix`, accounts for. */
  ghost predicate Written(out: map<string, Json>, prefix: string, v: Json, path: string)
    requires path in out
  {
    exists steps :: IsEntry(v, steps, out[path]) && prefix + Render(steps) == path
  }

  ghost predicate Covers(out: map<string, Json>, prefix: string, v: Json) {
    forall steps, node | IsEntry(v, steps, node) :: prefix + Render(steps) in out
  }

  /** Every key of `out` was there before, or the walk from `v` accounts for it. */
  ghost predicate Accounted(before: map<string, Json>, out: map<string, Json>, prefix: string, v: Json) {
    forall p | p in out :: Written(out, prefix, v, p) || (p in before && out[p] == before[p])
  }

  // ---------- the order of a run, and what it writes ----------

  /** The order in which one run ranges over every map inside a value. */
  datatype Visit = Once | Items(children: seq<Visit>) | Fields(keys: seq<string>, children: seq<Visit>)

  /** Each key once. */
  predicate Lists(keys: seq<string>, fields: map<string, Json>) {
    NoDuplicates(keys) && Elements(keys) == fields.Keys
  }

  predicate VisitOf(d: Visit, v: Json)
    decreases d
  {
    match v
    case Object(fields) =>
      d.Fields? && Lists(d.keys, fields) && |d.children| == |d.keys| && forall i | 0 <= i < |d.keys| :: VisitOf(d.children[i], fields[d.keys[i]])
    case Array(items) =>
      d.Items? && |d.children| == |items| && forall i | 0 <= i < |items| :: VisitOf(d.children[i], items[i])
    case _ => d.Once?
  }

  datatype Write = Write(path: string, node: Json)

  /** The assignments flattenInto makes for `v`, in their order. */
  function Writes(path: string, v: Json, d: Visit): seq<Write>
    requires VisitOf(d, v)
    decreases d
  {
    match v
    case Object(_) => FieldWrites(path + ".", v, d, |d.keys|)
    case Array(items) => [Write(path, v), Write(path + "[]", v)] + ItemWrites(path, v, d, |items|)
    case _ => [Write(path, v)]
  }

  /** Those of the first n fields visited. */
  function FieldWrites(prefix: string, v: Json, d: Visit, n: nat): seq<Write>
    requires v.Object? && VisitOf(d, v) && n <= |d.keys|
    decreases d, n
  {
    if n == 0 then []
    else
      assert d.keys[n - 1] in d.keys;
      FieldWrites(prefix, v, d, n - 1) + Writes(prefix + d.keys[n - 1], v.fields[d.keys[n - 1]], d.children[n - 1])
  }

  /** Those of the first n items. */
  function ItemWrites(path: string, v: Json, d: Visit, n: nat): seq<Write>
    requires v.Array? && VisitOf(d, v) && n <= |v.items|
    decreases d, n
  {
    if n == 0 then []
    else ItemWrites(path, v, d, n - 1) + Writes(path + "[" + DigitsOf(n - 1) + "]", v.items[n - 1], d.children[n - 1])
  }

  function Stored(out: map<string, Json>, ws: seq<Write>): map<string, Json> {
    if ws == [] then out else Stored(out, ws[..|ws| - 1])[ws[|ws| - 1].path := ws[|ws| - 1].node]
  }

  /** The result of Flatten when it visits in the order `d`. */
  function FlatOf(data: map<string, Json>, d: Visit): map<string, Json>
    requires VisitOf(d, Object(data))
  {
    Stored(map[], FieldWrites("", Object(data), d, |d.keys|))
  }

  lemma {:induction false} StoredAppend(out: map<string, Json>, a: seq<Write>, b: seq<Write>)
    ensures Stored(out, a + b) == Stored(Stored(out, a), b)
  {
    if b == [] {
      assert a + b == a;
    } else {
      assert (a + b)[..|a + b| - 1] == a + b[..|b| - 1];
      StoredAppend(out, a, b[..|b| - 1]);
    }
  }

  class Flattener {
    var out: map<string, Json>

    constructor ()
      ensures out == map[]
    {
      out := map[];
    }

    /** `d` is the order in which this run ranges over the maps. */
    method FlattenInto(path: string, value: Json) returns (ghost d: Visit)
      modifies this
      ensures VisitOf(d, value) && out == Stored(old(out), Writes(path, value, d))
      ensures old(out).Keys <= out.Keys && Accounted(old(out), out, path, value) && Covers(out, path, value)
      decreases value, 1
    {
      match value {
        case Object(typed) =>
          d := FlattenFields(path + ".", value);
        case Array(typed) =>
          out := out[path := value];
          out := out[path + "[]" := value];
          d := FlattenItems(path, value);
          ArrayStored(old(out), path, value, d);
        case _ =>
          out := out[path := value];
          d := Once;
          LeafStored(old(out), path, value);
      }
      StoredIsIndexed(old(out), path, value, d);
    }

    // the loop over a map, with "path." in front of its keys
    method FlattenFields(prefix: string, value: Json) returns (ghost d: Visit)
      requires value.Object?
      modifies this
      ensures VisitOf(d, value) && out == Stored(old(out), FieldWrites(prefix, value, d, |d.keys|))
      decreases value, 0
    {
      var typed := value.fields;
      ghost var keys, children := [], [];
      var left := typed.Keys;
      NothingVisited(prefix, typed, out);
      hide *;
      while left != {}
        invariant left <= typed.Keys && Part(typed, keys, children) && Visited(typed, left, keys, children)
        invariant out == Stored(old(out), PartWrites(prefix, typed, keys, children))
        decreases |left|
      {
        var key :| key in left;   // Go's map iteration order
        ghost var child := FlattenInto(prefix + key, typed[key]);
        NextPart(old(out), prefix, typed, keys, children, key, child);
        NextVisited(typed, left, keys, children, key, child);
        left := left - {key};
        keys, children := keys + [key], children + [child];
      }
      d := Fields(keys, children);
      PartsMakeVisit(prefix, value, keys, children);
    }

    // the loop over the items of an array
    method FlattenItems(path: string, value: Json) returns (ghost d: Visit)
      requires value.Array?
      modifies this
      ensures VisitOf(d, value) && out == Stored(old(out), ItemWrites(path, value, d, |value.items|))
      decreases value, 0
    {
      var typed := value.items;
      ghost var children := [];
      NoItems(path, typed, out);
      hide *;
      for i := 0 to |typed|
        invariant |children| == i && PartOfItems(typed, children)
        invariant out == Stored(old(out), PartItems(path, typed, children))
      {
        ghost var child := FlattenInto(path + "[" + DigitsOf(i) + "]", typed[i]);
        NextItem(old(out), path, typed, children, child);
        children := children + [child];
      }
      d := Items(children);
      ItemsMakeVisit(path, value, children);
    }
  }

  /** `children` are orders for the fields `keys`. */
  predicate Part(fields: map<string, Json>, keys: seq<string>, children: seq<Visit>) {
    |children| == |keys| && forall i | 0 <= i < |keys| :: keys[i] in fields && VisitOf(children[i], fields[keys[i]])
  }

  /** All fields but `left` have been visited, each once. */
  predicate Visited(fields: map<string, Json>, left: set<string>, keys: seq<string>, children: seq<Visit>) {
    Part(fields, keys, children) && NoDuplicates(keys) && Elements(keys) == fields.Keys - left
  }

  lemma NothingVisited(prefix: string, fields: map<string, Json>, out: map<string, Json>)
    ensures Part(fields, [], []) && Visited(fields, fields.Keys, [], [])
    ensures Stored(out, PartWrites(prefix, fields, [], [])) == out
  {
  }

  lemma NextVisited(fields: map<string, Json>, left: set<string>, keys: seq<string>, children: seq<Visit>, key: string, child: Visit)
    requires Visited(fields, left, keys, children) && key in left && left <= fields.Keys && VisitOf(child, fields[key])
    ensures Visited(fields, left - {key}, keys + [key], children + [child])
  {
    hide VisitOf;
    assert forall i | 0 <= i < |keys| :: keys[i] in Elements(keys);
    assert Elements(keys + [key]) == Elements(keys) + {key};
  }

  lemma PartsMakeVisit(prefix: string, v: Json, keys: seq<string>, children: seq<Visit>)
    requires v.Object? && Visited(v.fields, {}, keys, children)
    ensures VisitOf(Fields(keys, children), v)
    ensures FieldWrites(prefix, v, Fields(keys, children), |keys|) == PartWrites(prefix, v.fields, keys, children)
  {
    hide Writes;
    assert Elements(keys) == v.fields.Keys;
    PartsAreFields(prefix, v, Fields(keys, children), |keys|);
    assert keys[..|keys|] == keys && children[..|children|] == children;
  }

  /** The writes of the fields visited so far. */
  function PartWrites(prefix: string, fields: map<string, Json>, keys: seq<string>, children: seq<Visit>): seq<Write>
    requires Part(fields, keys, children)
  {
    if keys == [] then []
    else
      var n := |keys| - 1;
      PartWrites(prefix, fields, keys[..n], children[..n]) + Writes(prefix + keys[n], fields[keys[n]], children[n])
  }

  /** `children` are orders for the first items. */
  predicate PartOfItems(items: seq<Json>, children: seq<Visit>) {
    |children| <= |items| && forall i | 0 <= i < |children| :: VisitOf(children[i], items[i])
  }

  lemma NoItems(path: string, items: seq<Json>, out: map<string, Json>)
    ensures PartOfItems(items, []) && Stored(out, PartItems(path, items, [])) == out
  {
  }

  lemma ItemsMakeVisit(path: string, v: Json, children: seq<Visit>)
    requires v.Array? && PartOfItems(v.items, children) && |children| == |v.items|
    ensures VisitOf(Items(children), v)
    ensures ItemWrites(path, v, Items(children), |v.items|) == PartItems(path, v.items, children)
  {
    hide Writes, DigitsOf;
    PartsAreItems(path, v, Items(children), |v.items|);
    assert children[..|children|] == children;
  }

  function PartItems(path: string, items: seq<Json>, children: seq<Visit>): seq<Write>
    requires PartOfItems(items, children)
  {
    if children == [] then []
    else
      var n := |children| - 1;
      PartItems(path, items, children[..n]) + Writes(path + "[" + DigitsOf(n) + "]", items[n], children[n])
  }

  lemma NextPart(out: map<string, Json>, prefix: string, fields: map<string, Json>, keys: seq<string>, children: seq<Visit>, key: string, child: Visit)
    requires Part(fields, keys, children) && key in fields && VisitOf(child, fields[key])
    ensures Part(fields, keys + [key], children + [child])
    ensures Stored(out, PartWrites(prefix, fields, keys + [key], children + [child]))
         == Stored(Stored(out, PartWrites(prefix, fields, keys, children)), Writes(prefix + key, fields[key], child))
  {
    hide VisitOf, Writes, Stored;
    assert (keys + [key])[..|keys|] == keys && (children + [child])[..|children|] == children;
    StoredAppend(out, PartWrites(prefix, fields, keys, children), Writes(prefix + key, fields[key], child));
  }

  lemma NextItem(out: map<string, Json>, path: string, items: seq<Json>, children: seq<Visit>, child: Visit)
    requires PartOfItems(items, children) && |children| < |items| && VisitOf(child, items[|children|])
    ensures PartOfItems(items, children + [child])
    ensures Stored(out, PartItems(path, items, children + [child]))
         == Stored(Stored(out, PartItems(path, items, children)), Writes(path + "[" + DigitsOf(|children|) + "]", items[|children|], child))
  {
    hide VisitOf, Writes, Stored, DigitsOf;
    assert (children + [child])[..|children|] == children;
    StoredAppend(out, PartItems(path, items, children), Writes(path + "[" + DigitsOf(|children|) + "]", items[|children|], child));
  }

  lemma {:induction false} PartsAreFields(prefix: string, v: Json, d: Visit, n: nat)
    requires v.Object? && VisitOf(d, v) && n <= |d.keys|
    ensures Part(v.fields, d.keys[..n], d.children[..n])
    ensures PartWrites(prefix, v.fields, d.keys[..n], d.children[..n]) == FieldWrites(prefix, v, d, n)
    decreases n
  {
    hide Writes;
    assert Part(v.fields, d.keys[..n], d.children[..n]) by {
      assert forall i | 0 <= i < |d.keys| :: d.keys[i] in Elements(d.keys);
    }
    if n > 0 {
      PartsAreFields(prefix, v, d, n - 1);
      hide VisitOf, Part;
      assert d.keys[..n][..n - 1] == d.keys[..n - 1] && d.children[..n][..n - 1] == d.children[..n - 1];
    }
  }

  lemma {:induction false} PartsAreItems(path: string, v: Json, d: Visit, n: nat)
    requires v.Array? && VisitOf(d, v) && n <= |v.items|
    ensures PartOfItems(v.items, d.children[..n])
    ensures PartItems(path, v.items, d.children[..n]) == ItemWrites(path, v, d, n)
    decreases n
  {
    if n > 0 {
      PartsAreItems(path, v, d, n - 1);
      hide Writes, DigitsOf;
      assert d.children[..n][..n - 1] == d.children[..n - 1];
    }
  }

  lemma ArrayStored(out: map<string, Json>, path: string, v: Json, d: Visit)
    requires v.Array? && VisitOf(d, v)
    ensures Stored(out, Writes(path, v, d)) == Stored(out[path := v][path + "[]" := v], ItemWrites(path, v, d, |v.items|))
  {
    hide ItemWrites;
    var head := [Write(path, v), Write(path + "[]", v)];
    StoredAppend(out, head, ItemWrites(path, v, d, |v.items|));
    assert head[..1] == [Write(path, v)] && [Write(path, v)][..0] == [];
    assert Stored(out, []) == out;
    assert Stored(out, [Write(path, v)]) == out[path := v];
    assert Stored(out, head) == out[path := v][path + "[]" := v];
  }

  lemma LeafStored(out: map<string, Json>, path: string, v: Json)
    requires !v.Object? && !v.Array?
    ensures Stored(out, Writes(path, v, Once)) == out[path := v]
  {
    var ws := Writes(path, v, Once);
    assert ws == [Write(path, v)] && ws[..0] == [];
  }

  /** `d` is the order in which this run ranges over the maps. */
  method Flatten(data: map<string, Json>) returns (out: map<string, Json>, ghost d: Visit)
    ensures VisitOf(d, Object(data)) && out == FlatOf(data, d)
    ensures IsIndexOf(out, data)
  {
    var f := new Flattener();
    d := f.FlattenFields("", Object(data));
    out := f.out;
    FlatIsIndex(data, d);
  }

  // ---------- the writes are the entries ----------

  lemma {:induction false} LastWrite(out: map<string, Json>, ws: seq<Write>, p: string)
    ensures p in Stored(out, ws) <==> p in out || LastOf(ws, p).Some?
    ensures p in Stored(out, ws) ==> Stored(out, ws)[p] == if LastOf(ws, p).Some? then LastOf(ws, p).value else out[p]
  {
    if ws != [] {
      LastWrite(out, ws[..|ws| - 1], p);
    }
  }

  /** The node of the last write to a path. */
  function LastOf(ws: seq<Write>, p: string): Option<Json> {
    if ws == [] then None
    else if ws[|ws| - 1].path == p then Some(ws[|ws| - 1].node)
    else LastOf(ws[..|ws| - 1], p)
  }

  lemma {:induction false} LastOfAppend(a: seq<Write>, b: seq<Write>, p: string)
    ensures LastOf(a + b, p) == if LastOf(b, p).Some? then LastOf(b, p) else LastOf(a, p)
  {
    if b == [] {
      assert a + b == a;
    } else {
      assert (a + b)[..|a + b| - 1] == a + b[..|b| - 1];
      LastOfAppend(a, b[..|b| - 1], p);
    }
  }

  lemma {:induction false} LastOfIsWrite(ws: seq<Write>, p: string)
    ensures LastOf(ws, p).Some? ==> Write(p, LastOf(ws, p).value) in ws
    ensures LastOf(ws, p).None? ==> forall w | w in ws :: w.path != p
  {
    if ws != [] {
      LastOfIsWrite(ws[..|ws| - 1], p);
    }
  }

  /** `w` is an entry of `v`, written under its rendered path. */
  ghost predicate IsEntryWrite(path: string, v: Json, w: Write) {
    exists steps :: IsEntry(v, steps, w.node) && path + Render(steps) == w.path
  }

  lemma EntryAbove(path: string, v: Json, step: Step, child: Json, w: Write)
    requires IsEntryWrite(path + RenderStep(step), child, w)
    requires forall steps, node | Leads(child, steps, node) :: Leads(v, [step] + steps, node)
    ensures IsEntryWrite(path, v, w)
  {
    hide RenderStep, Render;
    var steps :| IsEntry(child, steps, w.node) && path + RenderStep(step) + Render(steps) == w.path;
    var all := [step] + steps;
    assert all[1..] == steps;
    RenderBelow(path, all);
    assert IsEntry(v, all, w.node);
  }

  lemma {:induction false} WritesAreEntries(path: string, v: Json, d: Visit, w: Write)
    requires VisitOf(d, v) && w in Writes(path, v, d)
    ensures IsEntryWrite(path, v, w)
    decreases d
  {
    match v
    case Object(fields) =>
      var i := FieldOfWrite(path + ".", v, d, |d.keys|, w);
      var key := d.keys[i];
      assert key in d.keys;
      WritesAreEntries(path + "." + key, fields[key], d.children[i], w);
      assert path + "." + key == path + RenderStep(Field(key)) by { FieldPath(path, key); }
      FieldLeads(fields, key);
      EntryAbove(path, v, Field(key), fields[key], w);
    case Array(items) =>
      if w in [Write(path, v), Write(path + "[]", v)] {
        OwnEntries(path, v);
      } else {
        var i := ItemOfWrite(path, v, d, |items|, w);
        WritesAreEntries(path + "[" + DigitsOf(i) + "]", items[i], d.children[i], w);
        IndexPath(path, i);
        ItemLeads(items, i);
        EntryAbove(path, v, Index(i), items[i], w);
      }
    case _ =>
      assert IsEntry(v, [], v) && path + Render([]) == path;
  }

  lemma OwnEntries(path: string, v: Json)
    requires v.Array?
    ensures IsEntryWrite(path, v, Write(path, v)) && IsEntryWrite(path, v, Write(path + "[]", v))
  {
    assert IsEntry(v, [], v) && path + Render([]) == path;
    assert [Whole][1..] == [] && Render([Whole]) == "[]" + Render([]);
    assert IsEntry(v, [Whole], v) && path + Render([Whole]) == path + "[]";
  }

  lemma {:induction false} FieldOfWrite(prefix: string, v: Json, d: Visit, n: nat, w: Write) returns (i: nat)
    requires v.Object? && VisitOf(d, v) && n <= |d.keys| && w in FieldWrites(prefix, v, d, n)
    ensures i < n && d.keys[i] in v.fields && w in Writes(prefix + d.keys[i], v.fields[d.keys[i]], d.children[i])
    decreases n
  {
    assert d.keys[n - 1] in d.keys;
    if w in Writes(prefix + d.keys[n - 1], v.fields[d.keys[n - 1]], d.children[n - 1]) {
      i := n - 1;
    } else {
      i := FieldOfWrite(prefix, v, d, n - 1, w);
    }
  }

  lemma {:induction false} ItemOfWrite(path: string, v: Json, d: Visit, n: nat, w: Write) returns (i: nat)
    requires v.Array? && VisitOf(d, v) && n <= |v.items| && w in ItemWrites(path, v, d, n)
    ensures i < n && w in Writes(path + "[" + DigitsOf(i) + "]", v.items[i], d.children[i])
    decreases n
  {
    if w in Writes(path + "[" + DigitsOf(n - 1) + "]", v.items[n - 1], d.children[n - 1]) {
      i := n - 1;
    } else {
      i := ItemOfWrite(path, v, d, n - 1, w);
    }
  }

  lemma {:induction false} FieldIsWritten(prefix: string, v: Json, d: Visit, n: nat, i: nat, w: Write)
    requires v.Object? && VisitOf(d, v) && i < n <= |d.keys|
    requires d.keys[i] in v.fields && w in Writes(prefix + d.keys[i], v.fields[d.keys[i]], d.children[i])
    ensures w in FieldWrites(prefix, v, d, n)
    decreases n
  {
    if i < n - 1 {
      FieldIsWritten(prefix, v, d, n - 1, i, w);
    }
  }

  lemma {:induction false} ItemIsWritten(path: string, v: Json, d: Visit, n: nat, i: nat, w: Write)
    requires v.Array? && VisitOf(d, v) && i < n <= |v.items| && w in Writes(path + "[" + DigitsOf(i) + "]", v.items[i], d.children[i])
    ensures w in ItemWrites(path, v, d, n)
    decreases n
  {
    if i < n - 1 {
      ItemIsWritten(path, v, d, n - 1, i, w);
    }
  }

  /** Every entry is written in every run. */
  lemma {:induction false} EntriesAreWritten(path: string, v: Json, d: Visit, steps: seq<Step>, node: Json)
    requires VisitOf(d, v) && IsEntry(v, steps, node)
    ensures Write(path + Render(steps), node) in Writes(path, v, d)
    decreases d
  {
    if steps == [] {
      assert path + Render(steps) == path;
    } else {
      RenderBelow(path, steps);
      match steps[0]
      case Field(key) =>
        FieldEntryIsWritten(path + ".", v, d, steps, node);
        FieldPath(path, key);
      case Index(i) =>
        EntriesAreWritten(path + "[" + DigitsOf(i) + "]", v.items[i], d.children[i], steps[1..], node);
        IndexPath(path, i);
        ItemIsWritten(path, v, d, |v.items|, i, Write(path + RenderStep(steps[0]) + Render(steps[1..]), node));
      case Whole =>
        assert steps[1..] == [] && (path + "[]") + "" == path + "[]";
    }
  }

  lemma {:induction false} FieldEntryIsWritten(prefix: string, v: Json, d: Visit, steps: seq<Step>, node: Json)
    requires v.Object? && VisitOf(d, v) && IsEntry(v, steps, node)
    ensures steps != [] && steps[0].Field?
    ensures Write(prefix + steps[0].key + Render(steps[1..]), node) in FieldWrites(prefix, v, d, |d.keys|)
    decreases d, 0
  {
    var key := steps[0].key;
    assert key in d.keys;
    var i :| 0 <= i < |d.keys| && d.keys[i] == key;
    EntriesAreWritten(prefix + key, v.fields[key], d.children[i], steps[1..], node);
    FieldIsWritten(prefix, v, d, |d.keys|, i, Write(prefix + key + Render(steps[1..]), node));
  }

  lemma StoredIsIndexed(out: map<string, Json>, path: string, v: Json, d: Visit)
    requires VisitOf(d, v)
    ensures var stored := Stored(out, Writes(path, v, d));
      out.Keys <= stored.Keys && Accounted(out, stored, path, v) && Covers(stored, path, v)
  {
    var ws := Writes(path, v, d);
    var stored := Stored(out, ws);
    forall p: string ensures p in out ==> p in stored {
      LastWrite(out, ws, p);
    }
    forall p | p in stored ensures Written(stored, path, v, p) || (p in out && stored[p] == out[p]) {
      LastWrite(out, ws, p);
      LastOfIsWrite(ws, p);
      if LastOf(ws, p).Some? {
        WritesAreEntries(path, v, d, Write(p, stored[p]));
      }
    }
    forall steps, node | IsEntry(v, steps, node) ensures path + Render(steps) in stored {
      var p := path + Render(steps);
      EntriesAreWritten(path, v, d, steps, node);
      LastWrite(out, ws, p);
      LastOfIsWrite(ws, p);
    }
  }

  lemma FlatIsIndex(data: map<string, Json>, d: Visit)
    requires VisitOf(d, Object(data))
    ensures IsIndexOf(FlatOf(data, d), data)
  {
    var ws, out := FieldWrites("", Object(data), d, |d.keys|), FlatOf(data, d);
    forall key, steps, node | IsRootEntry(data, key, steps, node) ensures key + Render(steps) in out {
      RootEntryIsWritten(data, d, key, steps, node);
      LastWrite(map[], ws, key + Render(steps));
      LastOfIsWrite(ws, key + Render(steps));
    }
    forall path | path in out
      ensures exists key, steps :: IsRootEntry(data, key, steps, out[path]) && key + Render(steps) == path
    {
      LastWrite(map[], ws, path);
      LastOfIsWrite(ws, path);
      var w := Write(path, out[path]);
      var i := FieldOfWrite("", Object(data), d, |d.keys|, w);
      var key := d.keys[i];
      assert "" + key == key;
      WritesAreEntries(key, data[key], d.children[i], w);
      var steps :| IsEntry(data[key], steps, w.node) && key + Render(steps) == w.path;
      assert IsRootEntry(data, key, steps, out[path]);
    }
  }

  lemma RootEntryIsWritten(data: map<string, Json>, d: Visit, key: string, steps: seq<Step>, node: Json)
    requires VisitOf(d, Object(data)) && IsRootEntry(data, key, steps, node)
    ensures Write(key + Render(steps), node) in FieldWrites("", Object(data), d, |d.keys|)
  {
    hide VisitOf, FieldWrites, Render;
    var all := [Field(key)] + steps;
    assert all[1..] == steps && Leads(Object(data), all, node);
    hide Leads;
    FieldEntryIsWritten("", Object(data), d, all, node);
    assert "" + key == key;
  }

  lemma FieldPath(path: string, key: string)
    ensures path + "." + key == path + RenderStep(Field(key))
  {
  }

  lemma IndexPath(path: string, i: nat)
    ensures path + "[" + DigitsOf(i) + "]" == path + RenderStep(Index(i))
  {
  }

  lemma FieldLeads(typed: map<string, Json>, key: string)
    requires key in typed
    ensures forall steps, node | Leads(typed[key], steps, node) :: Leads(Object(typed), [Field(key)] + steps, node)
  {
    forall steps, node | Leads(typed[key], steps, node) ensures Leads(Object(typed), [Field(key)] + steps, node) {
      assert ([Field(key)] + steps)[1..] == steps;
    }
  }

  lemma ItemLeads(typed: seq<Json>, i: nat)
    requires i < |typed|
    ensures forall steps, node | Leads(typed[i], steps, node) :: Leads(Array(typed), [Index(i)] + steps, node)
  {
    forall steps, node | Leads(typed[i], steps, node) ensures Leads(Array(typed), [Index(i)] + steps, node) {
      assert ([Index(i)] + steps)[1..] == steps;
    }
  }

  // ---------- rendering is injective on plain keys ----------

  predicate IsMark(c: char) { c == '.' || c == '[' }

  predicate PlainKey(key: string) { forall i | 0 <= i < |key| :: !IsMark(key[i]) }

  /** No key anywhere in the document contains `.` or `[`. */
  predicate PlainKeys(v: Json) {
    match v
    case Object(fields) => forall k | k in fields :: PlainKey(k) && PlainKeys(fields[k])
    case Array(items) => forall i | 0 <= i < |items| :: PlainKeys(items[i])
    case _ => true
  }

  predicate PlainRoot(data: map<string, Json>) {
    forall k | k in data :: PlainKey(k) && PlainKeys(data[k])
  }

  predicate PlainSteps(steps: seq<Step>) {
    forall i | 0 <= i < |steps| :: steps[i].Field? ==> PlainKey(steps[i].key)
  }

  lemma {:induction false} PlainKeysPlainSteps(v: Json, steps: seq<Step>, node: Json)
    requires PlainKeys(v) && Leads(v, steps, node)
    ensures PlainSteps(steps)
  {
    if steps != [] {
      match steps[0] {
        case Field(key) => PlainKeysPlainSteps(v.fields[key], steps[1..], node);
        case Index(i) => PlainKeysPlainSteps(v.items[i], steps[1..], node);
        case Whole =>
      }
      assert steps == [steps[0]] + steps[1..];
    }
  }

  /** A text without marks is cut off at the first mark. */
  lemma CutAtMark(a: string, x: string, b: string, y: string, mark: char -> bool)
    requires a + x == b + y
    requires forall i | 0 <= i < |a| :: !mark(a[i])
    requires forall i | 0 <= i < |b| :: !mark(b[i])
    requires x != [] ==> mark(x[0])
    requires y != [] ==> mark(y[0])
    ensures a == b && x == y
  {
    assert a == (a + x)[..|a|] && b == (b + y)[..|b|];
    assert x == (a + x)[|a|..] && y == (b + y)[|b|..];
  }

  lemma RenderStartsWithMark(steps: seq<Step>)
    ensures steps == [] <==> Render(steps) == ""
    ensures steps != [] ==> IsMark(Render(steps)[0])
  {
  }

  lemma StepShows(a: Step, x: string)
    ensures RenderStep(a) + x != "" && ((RenderStep(a) + x)[0] == '.' <==> a.Field?)
    ensures !a.Field? ==> |RenderStep(a) + x| > 1 && ((RenderStep(a) + x)[1] == ']' <==> a.Whole?)
  {
    if a.Index? {
      assert IsDigit(DigitsOf(a.i)[0]);
    }
  }

  lemma TailOfBrackets(d: string, x: string)
    ensures (("[" + d + "]") + x)[1..] == d + ("]" + x)
    ensures ("]" + x)[1..] == x
  {
  }

  lemma IndexInjective(d: string, x: string, e: string, y: string)
    requires AllDigits(d) && AllDigits(e)
    requires ("[" + d + "]") + x == ("[" + e + "]") + y
    ensures d == e && x == y
  {
    TailOfBrackets(d, x);
    TailOfBrackets(e, y);
    CutAtMark(d, "]" + x, e, "]" + y, (c: char) => c == ']');
  }

  lemma FieldInjective(k: string, x: string, l: string, y: string)
    requires PlainKey(k) && PlainKey(l) && (x != [] ==> IsMark(x[0])) && (y != [] ==> IsMark(y[0]))
    requires ("." + k) + x == ("." + l) + y
    ensures k == l && x == y
  {
    assert (("." + k) + x)[1..] == k + x && (("." + l) + y)[1..] == l + y;
    CutAtMark(k, x, l, y, (c: char) => IsMark(c));
  }

  lemma StepInjective(a: Step, x: string, b: Step, y: string)
    requires RenderStep(a) + x == RenderStep(b) + y
    requires (a.Field? ==> PlainKey(a.key)) && (b.Field? ==> PlainKey(b.key))
    requires (x != [] ==> IsMark(x[0])) && (y != [] ==> IsMark(y[0]))
    ensures a == b && x == y
  {
    hide DigitsOf, PlainKey, IsMark, AllDigits;
    StepShows(a, x);
    StepShows(b, y);
    match a {
      case Field(key) =>
        FieldInjective(key, x, b.key, y);
      case Index(i) =>
        IndexInjective(DigitsOf(i), x, DigitsOf(b.i), y);
        DigitsInjective(i, b.i);
      case Whole =>
        assert x == ("[]" + x)[2..] && y == ("[]" + y)[2..];
    }
  }

  lemma {:induction false} RenderInjective(s: seq<Step>, t: seq<Step>)
    requires PlainSteps(s) && PlainSteps(t) && Render(s) == Render(t)
    ensures s == t
  {
    hide RenderStep;
    RenderStartsWithMark(s);
    RenderStartsWithMark(t);
    if s != [] {
      RenderStartsWithMark(s[1..]);
      RenderStartsWithMark(t[1..]);
      StepInjective(s[0], Render(s[1..]), t[0], Render(t[1..]));
      RenderInjective(s[1..], t[1..]);
      assert s == [s[0]] + s[1..] && t == [t[0]] + t[1..];
    }
  }

  lemma {:induction false} LeadsToOne(v: Json, steps: seq<Step>, a: Json, b: Json)
    requires Leads(v, steps, a) && Leads(v, steps, b)
    ensures a == b
  {
    if steps != [] {
      match steps[0]
      case Field(key) => LeadsToOne(v.fields[key], steps[1..], a, b);
      case Index(i) => LeadsToOne(v.items[i], steps[1..], a, b);
      case Whole =>
    }
  }

  // ---------- any entry can come last ----------

  lemma {:induction false} KeyList(fields: map<string, Json>, left: set<string>) returns (keys: seq<string>)
    requires left <= fields.Keys
    ensures NoDuplicates(keys) && forall k :: k in keys <==> k in left
    decreases |left|
  {
    keys := [];
    if left != {} {
      var key :| key in left;
      var rest := KeyList(fields, left - {key});
      keys := rest + [key];
    }
  }

  /** Every value has an order in which it can be visited. */
  lemma {:induction false} SomeVisit(v: Json) returns (d: Visit)
    ensures VisitOf(d, v)
    decreases v, 1
  {
    match v
    case Object(fields) =>
      var keys := KeyList(fields, fields.Keys);
      var children := FieldVisits(v, keys);
      d := Fields(keys, children);
    case Array(items) =>
      var children := ItemVisits(v, |items|);
      d := Items(children);
    case _ =>
      d := Once;
  }

  lemma {:induction false} FieldVisits(v: Json, keys: seq<string>) returns (children: seq<Visit>)
    requires v.Object? && forall k | k in keys :: k in v.fields
    ensures |children| == |keys| && forall i | 0 <= i < |keys| :: VisitOf(children[i], v.fields[keys[i]])
    decreases v, 0, |keys|
  {
    children := [];
    if keys != [] {
      var n := |keys| - 1;
      assert keys[n] in keys;
      var rest := FieldVisits(v, keys[..n]);
      var last := SomeVisit(v.fields[keys[n]]);
      children := rest + [last];
    }
  }

  lemma {:induction false} ItemVisits(v: Json, n: nat) returns (children: seq<Visit>)
    requires v.Array? && n <= |v.items|
    ensures |children| == n && forall i | 0 <= i < n :: VisitOf(children[i], v.items[i])
    decreases v, 0, n
  {
    children := [];
    if n > 0 {
      var rest := ItemVisits(v, n - 1);
      var last := SomeVisit(v.items[n - 1]);
      children := rest + [last];
    }
  }

  /** For every entry there is an order in which it is the last one written to its path. */
  lemma {:induction false} EntryCanBeLast(path: string, v: Json, steps: seq<Step>, node: Json) returns (d: Visit)
    requires IsEntry(v, steps, node)
    ensures VisitOf(d, v) && LastOf(Writes(path, v, d), path + Render(steps)) == Some(node)
    decreases v, 1
  {
    match v
    case Object(fields) =>
      assert steps != [];
      RenderBelow(path, steps);
      d := FieldCanBeLast(path + ".", v, steps, node);
      FieldPath(path, steps[0].key);
    case Array(items) =>
      if steps != [] && steps[0].Index? {
        RenderBelow(path, steps);
        d := ItemCanBeLast(path, v, steps, node);
        IndexPath(path, steps[0].i);
      } else {
        d := SomeVisit(v);
        OwnWriteIsLast(path, v, d, steps, node);
      }
    case _ =>
      d := Once;
      assert path + Render(steps) == path;
      assert Writes(path, v, d) == [Write(path, v)];
  }

  lemma {:induction false} FieldCanBeLast(prefix: string, v: Json, steps: seq<Step>, node: Json) returns (d: Visit)
    requires v.Object? && IsEntry(v, steps, node)
    ensures steps != [] && steps[0].Field? && VisitOf(d, v)
    ensures LastOf(FieldWrites(prefix, v, d, |d.keys|), prefix + steps[0].key + Render(steps[1..])) == Some(node)
    decreases v, 0
  {
    var key := steps[0].key;
    var last := EntryCanBeLast(prefix + key, v.fields[key], steps[1..], node);
    var others := KeyList(v.fields, v.fields.Keys - {key});
    var rest := FieldVisits(v, others);
    d := Fields(others + [key], rest + [last]);
    LastFieldVisit(v, others, rest, key, last);
    var n := |others|;
    assert d.keys[n] == key && d.children[n] == last && |d.keys| == n + 1;
    hide VisitOf, Leads, Render, Writes, LastOf;
    LastOfAppend(FieldWrites(prefix, v, d, n), Writes(prefix + key, v.fields[key], last), prefix + key + Render(steps[1..]));
  }

  lemma LastFieldVisit(v: Json, others: seq<string>, rest: seq<Visit>, key: string, last: Visit)
    requires v.Object? && key in v.fields && VisitOf(last, v.fields[key])
    requires NoDuplicates(others) && (forall k :: k in others <==> k in v.fields.Keys - {key})
    requires |rest| == |others| && forall i | 0 <= i < |others| :: others[i] in v.fields && VisitOf(rest[i], v.fields[others[i]])
    ensures VisitOf(Fields(others + [key], rest + [last]), v)
  {
    assert forall k: string :: k in others + [key] <==> k in v.fields;
    assert Elements(others + [key]) == v.fields.Keys;
  }

  lemma {:induction false} ItemCanBeLast(path: string, v: Json, steps: seq<Step>, node: Json) returns (d: Visit)
    requires v.Array? && IsEntry(v, steps, node) && steps != [] && steps[0].Index?
    ensures VisitOf(d, v)
    ensures LastOf(Writes(path, v, d), path + "[" + DigitsOf(steps[0].i) + "]" + Render(steps[1..])) == Some(node)
    decreases v, 0
  {
    var i := steps[0].i;
    var last := EntryCanBeLast(path + "[" + DigitsOf(i) + "]", v.items[i], steps[1..], node);
    var children := ItemVisits(v, |v.items|);
    d := Items(children[i := last]);
    assert d.children[i] == last;
    var p := path + "[" + DigitsOf(i) + "]" + Render(steps[1..]);
    ItemStaysLast(path, v, d, |v.items|, i, Render(steps[1..]), node);
    LastOfAppend([Write(path, v), Write(path + "[]", v)], ItemWrites(path, v, d, |v.items|), p);
  }

  /** Later items write to other paths. */
  lemma {:induction false} ItemStaysLast(path: string, v: Json, d: Visit, n: nat, i: nat, rest: string, node: Json)
    requires v.Array? && VisitOf(d, v) && i < n <= |v.items|
    requires LastOf(Writes(path + "[" + DigitsOf(i) + "]", v.items[i], d.children[i]), path + "[" + DigitsOf(i) + "]" + rest) == Some(node)
    ensures LastOf(ItemWrites(path, v, d, n), path + "[" + DigitsOf(i) + "]" + rest) == Some(node)
    decreases n
  {
    var p := path + "[" + DigitsOf(i) + "]" + rest;
    var j := n - 1;
    var before, ws := ItemWrites(path, v, d, j), Writes(path + "[" + DigitsOf(j) + "]", v.items[j], d.children[j]);
    assert ItemWrites(path, v, d, n) == before + ws;
    if i < j {
      ItemStaysLast(path, v, d, j, i, rest, node);
    }
    hide ItemWrites, Writes, VisitOf, DigitsOf;
    LastOfAppend(before, ws, p);
    if i < j {
      LastOfIsWrite(ws, p);
      hide LastOf;
      if LastOf(ws, p).Some? {
        OtherItemsPath(path, v, d, i, j, rest, LastOf(ws, p).value);
      }
    }
  }

  lemma OtherItemsPath(path: string, v: Json, d: Visit, i: nat, j: nat, rest: string, node: Json)
    requires v.Array? && VisitOf(d, v) && i < |v.items| && j < |v.items|
    requires Write(path + "[" + DigitsOf(i) + "]" + rest, node) in Writes(path + "[" + DigitsOf(j) + "]", v.items[j], d.children[j])
    ensures i == j
  {
    var di, dj := DigitsOf(i), DigitsOf(j);
    var w := Write(path + "[" + di + "]" + rest, node);
    var at := path + "[" + dj + "]";
    WritesAreEntries(at, v.items[j], d.children[j], w);
    hide Writes, Leads, Render;
    var steps :| IsEntry(v.items[j], steps, node) && at + Render(steps) == w.path;
    BracketsInPath(path, di, rest);
    BracketsInPath(path, dj, Render(steps));
    SamePrefix(path, ("[" + di + "]") + rest, ("[" + dj + "]") + Render(steps));
    IndexInjective(di, rest, dj, Render(steps));
    DigitsInjective(i, j);
  }

  lemma BracketsInPath(path: string, d: string, x: string)
    ensures path + "[" + d + "]" + x == path + (("[" + d + "]") + x)
  {
  }

  lemma SamePrefix(path: string, x: string, y: string)
    ensures path + x == path + y ==> x == y
  {
    if path + x == path + y {
      assert x == (path + x)[|path|..] && y == (path + y)[|path|..];
    }
  }

  lemma {:induction false} OnlyWriteIsLast(ws: seq<Write>, p: string, node: Json)
    requires Write(p, node) in ws && forall w | w in ws && w.path == p :: w.node == node
    ensures LastOf(ws, p) == Some(node)
  {
    LastOfIsWrite(ws, p);
  }

  /** An array's own two entries are written under paths that no item has. */
  lemma OwnWriteIsLast(path: string, v: Json, d: Visit, steps: seq<Step>, node: Json)
    requires v.Array? && VisitOf(d, v) && IsEntry(v, steps, node) && (steps == [] || steps[0].Whole?)
    ensures LastOf(Writes(path, v, d), path + Render(steps)) == Some(node)
  {
    var own := Render(steps);
    assert node == v && (own == "" || own == "[]") by {
      if steps != [] { assert steps[1..] == [] && Render(steps) == "[]" + Render([]); }
    }
    assert Write(path + own, v) in Writes(path, v, d) by { assert path + "" == path; }
    hide Render, Leads;
    forall w | w in ItemWrites(path, v, d, |v.items|) ensures w.path != path + own {
      ItemIsElsewhere(path, v, d, w, own);
    }
    hide ItemWrites;
    OnlyWriteIsLast(Writes(path, v, d), path + own, v);
  }

  lemma ItemIsElsewhere(path: string, v: Json, d: Visit, w: Write, own: string)
    requires v.Array? && VisitOf(d, v) && w in ItemWrites(path, v, d, |v.items|) && (own == "" || own == "[]")
    ensures w.path != path + own
  {
    var i := ItemOfWrite(path, v, d, |v.items|, w);
    var di := DigitsOf(i);
    var at := path + "[" + di + "]";
    hide Writes, ItemWrites, Leads, Render, VisitOf;
    WritesAreEntries(at, v.items[i], d.children[i], w);
    var below :| IsEntry(v.items[i], below, w.node) && at + Render(below) == w.path;
    hide IsEntry, DigitsOf;
    var tail := ("[" + di + "]") + Render(below);
    BracketsInPath(path, di, Render(below));
    SamePrefix(path, tail, own);
    assert IsDigit(di[0]) && tail[1] == di[0] && |tail| >= 3;
  }

  lemma RootEntryCanBeLast(data: map<string, Json>, key: string, steps: seq<Step>, node: Json) returns (d: Visit)
    requires IsRootEntry(data, key, steps, node)
    ensures VisitOf(d, Object(data))
    ensures key + Render(steps) in FlatOf(data, d) && FlatOf(data, d)[key + Render(steps)] == node
  {
    var all := [Field(key)] + steps;
    assert all[1..] == steps && Leads(Object(data), all, node);
    d := FieldCanBeLast("", Object(data), all, node);
    assert "" + key == key;
    LastWrite(map[], FieldWrites("", Object(data), d, |d.keys|), key + Render(steps));
  }

  // ---------- when the order matters ----------

  /** Two entries with the same path are different nodes. */
  ghost predicate Clash(data: map<string, Json>) {
    exists k, steps, node, l, steps', node' ::
      IsRootEntry(data, k, steps, node) && IsRootEntry(data, l, steps', node') && k + Render(steps) == l + Render(steps') && node != node'
  }

  /** Without a clash, a path of the index names one node, and the value there is that node. */
  lemma IndexAgreesWithNavigation(out: map<string, Json>, data: map<string, Json>, key: string, steps: seq<Step>, node: Json)
    requires IsIndexOf(out, data) && !Clash(data) && IsRootEntry(data, key, steps, node)
    ensures key + Render(steps) in out && out[key + Render(steps)] == node
  {
    var path := key + Render(steps);
    var key', steps' :| IsRootEntry(data, key', steps', out[path]) && key' + Render(steps') == path;
  }

  /** Plain keys do not clash: there a rendered path names one walk. */
  lemma PlainKeysDoNotClash(data: map<string, Json>)
    requires PlainRoot(data)
    ensures !Clash(data)
  {
    forall k, steps, node, l, steps', node' |
      IsRootEntry(data, k, steps, node) && IsRootEntry(data, l, steps', node') && k + Render(steps) == l + Render(steps')
      ensures node == node'
    {
      PlainKeysPlainSteps(data[k], steps, node);
      PlainKeysPlainSteps(data[l], steps', node');
      RenderStartsWithMark(steps);
      RenderStartsWithMark(steps');
      CutAtMark(k, Render(steps), l, Render(steps'), (c: char) => IsMark(c));
      RenderInjective(steps, steps');
      LeadsToOne(data[k], steps, node, node');
    }
  }

  /** Without a clash the index does not depend on the order in which maps are walked. */
  lemma IndexIsUnique(out: map<string, Json>, out': map<string, Json>, data: map<string, Json>)
    requires IsIndexOf(out, data) && IsIndexOf(out', data) && !Clash(data)
    ensures out == out'
  {
    IndexIncluded(out, out', data);
    IndexIncluded(out', out, data);
  }

  lemma IndexIncluded(out: map<string, Json>, out': map<string, Json>, data: map<string, Json>)
    requires IsIndexOf(out, data) && IsIndexOf(out', data) && !Clash(data)
    ensures forall path | path in out :: path in out' && out'[path] == out[path]
  {
    hide Clash;
    forall path | path in out ensures path in out' && out'[path] == out[path] {
      var key, steps :| IsRootEntry(data, key, steps, out[path]) && key + Render(steps) == path;
      IndexAgreesWithNavigation(out', data, key, steps, out[path]);
    }
  }

  /** Two runs in different orders can give different maps. */
  ghost predicate OrderMatters(data: map<string, Json>) {
    exists d, d' :: VisitOf(d, Object(data)) && VisitOf(d', Object(data)) && FlatOf(data, d) != FlatOf(data, d')
  }

  /** In every run, the value under the path of an entry is that entry's node. */
  ghost predicate AlwaysNavigates(data: map<string, Json>) {
    forall d, key, steps, node | VisitOf(d, Object(data)) && IsRootEntry(data, key, steps, node) ::
      key + Render(steps) in FlatOf(data, d) && FlatOf(data, d)[key + Render(steps)] == node
  }

  /** The result depends on the order of the map loops exactly when two entries with the same path
      are different nodes; and exactly without such a clash every run agrees with navigation. */
  lemma OrderMattersIffClash(data: map<string, Json>)
    ensures OrderMatters(data) <==> Clash(data)
    ensures AlwaysNavigates(data) <==> !Clash(data)
  {
    if Clash(data) {
      var k, steps, node, l, steps', node' :|
        IsRootEntry(data, k, steps, node) && IsRootEntry(data, l, steps', node') && k + Render(steps) == l + Render(steps') && node != node';
      var d := RootEntryCanBeLast(data, k, steps, node);
      var d' := RootEntryCanBeLast(data, l, steps', node');
      assert FlatOf(data, d) != FlatOf(data, d');
      assert !AlwaysNavigates(data);
    } else {
      hide Clash;
      forall d, d' | VisitOf(d, Object(data)) && VisitOf(d', Object(data)) ensures FlatOf(data, d) == FlatOf(data, d') {
        FlatIsIndex(data, d);
        FlatIsIndex(data, d');
        IndexIsUnique(FlatOf(data, d), FlatOf(data, d'), data);
      }
      forall d, key, steps, node | VisitOf(d, Object(data)) && IsRootEntry(data, key, steps, node)
        ensures key + Render(steps) in FlatOf(data, d) && FlatOf(data, d)[key + Render(steps)] == node
      {
        FlatIsIndex(data, d);
        IndexAgreesWithNavigation(FlatOf(data, d), data, key, steps, node);
      }
    }
  }

  /** Here `a.b` is a key of its own and a path through `a`. */
  const DOTTED := map["a.b" := Bool(true), "a" := Object(map["b" := Bool(false)])]

  const INNER := Fields(["b"], [Once])
  const DOTTED_LAST := Fields(["a", "a.b"], [INNER, Once])
  const DOTTED_FIRST := Fields(["a.b", "a"], [Once, INNER])

  lemma OrdersOfDotted()
    ensures VisitOf(INNER, Object(map["b" := Bool(false)]))
    ensures VisitOf(DOTTED_LAST, Object(DOTTED)) && VisitOf(DOTTED_FIRST, Object(DOTTED))
  {
    assert |"a"| != |"a.b"|;
    assert Elements(["b"]) == map["b" := Bool(false)].Keys;
    assert VisitOf(Once, Bool(true)) && VisitOf(Once, Bool(false));
    assert VisitOf(INNER, Object(map["b" := Bool(false)]));
    assert Elements(["a", "a.b"]) == DOTTED.Keys == Elements(["a.b", "a"]);
  }

  lemma WritesOfDotted()
    requires VisitOf(INNER, Object(map["b" := Bool(false)])) && VisitOf(Once, Bool(true))
    ensures Writes("a", Object(map["b" := Bool(false)]), INNER) == [Write("a.b", Bool(false))]
    ensures Writes("a.b", Bool(true), Once) == [Write("a.b", Bool(true))]
  {
    var under := Object(map["b" := Bool(false)]);
    assert "a." + "b" == "a.b" && "a" + "." == "a.";
    assert FieldWrites("a.", under, INNER, 0) == [];
    assert FieldWrites("a.", under, INNER, 1) == FieldWrites("a.", under, INNER, 0) + Writes("a.b", Bool(false), Once);
  }

  lemma TwoWrites(p: string, x: Json, y: Json)
    ensures Stored(map[], [Write(p, x)] + [Write(p, y)]) == map[p := y]
  {
    var a, b := Write(p, x), Write(p, y);
    assert ([a] + [b])[..1] == [a] && [a][..0] == [];
    assert Stored(map[], [a]) == map[p := x];
  }

  /** Two runs over the same document give two maps: the key visited last wins. */
  lemma OrderCanDecide()
    ensures VisitOf(DOTTED_LAST, Object(DOTTED)) && VisitOf(DOTTED_FIRST, Object(DOTTED))
    ensures FlatOf(DOTTED, DOTTED_LAST) == map["a.b" := Bool(true)]
    ensures FlatOf(DOTTED, DOTTED_FIRST) == map["a.b" := Bool(false)]
  {
    OrdersOfDotted();
    WritesOfDotted();
    var v := Object(DOTTED);
    var own, through := Write("a.b", Bool(true)), Write("a.b", Bool(false));
    hide VisitOf, Writes, Stored;
    assert |"a"| != |"a.b"| && "" + "a" == "a" && "" + "a.b" == "a.b";
    assert FieldWrites("", v, DOTTED_LAST, 0) == [] == FieldWrites("", v, DOTTED_FIRST, 0);
    assert FieldWrites("", v, DOTTED_LAST, 1) == [through] && FieldWrites("", v, DOTTED_LAST, 2) == [through] + [own];
    assert FieldWrites("", v, DOTTED_FIRST, 1) == [own] && FieldWrites("", v, DOTTED_FIRST, 2) == [own] + [through];
    TwoWrites("a.b", Bool(false), Bool(true));
    TwoWrites("a.b", Bool(true), Bool(false));
  }
}
