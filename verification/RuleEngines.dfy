/** The webhook event, as far as the rules and the publish path look at it (pkg/core/event.go). */
module Events {
  import opened GoText
  import opened Json

  datatype Event = Event(
    provider: string, name: string, requestId: string, logId: string,
    data: Option<map<string, Json>>, rawPayload: string, rawObject: Option<Json>,
    stateId: string, tenantId: string, installationId: string, namespaceId: string, namespaceName: string)
}

/** The libraries the rule engine calls: uninterpreted, but functions of their arguments. */
module RuleLibraries {
  import opened GoText
  import opened Json

  datatype Library = Library(
    getPath: (string, Json) -> Option<Json>,                       // jsonpath.Get; None is an error
    parseJson: string -> Option<Json>,                             // json.Unmarshal; None is an error
    compile: string -> Option<seq<string>>,                        // govaluate: the variables of the expression
    evaluate: (string, Option<map<string, Json>>) -> Option<bool>, // govaluate: None is an error or not a boolean
    ruleHash: string -> string)                                    // "rule_" + hex(sha1(key))
}

/** pkg/core/rules_resolve.go: values for the variables of a rewritten rule. */
module RuleParams {
  import opened GoText
  import opened Json
  import opened Events
  import opened RuleLibraries
  import opened RuleRewrite

  type Params = Option<map<string, Json>>   // None is Go's nil map

  function NormalizeResult(v: Json): Json {
    if !v.Array? then v
    else if |v.items| == 0 then Null
    else if |v.items| == 1 then v.items[0]
    else v
  }

  function Lookup(lib: Library, path: string, doc: Json): Option<Json> {
    match lib.getPath(path, doc)
    case None => None
    case Some(v) => Some(NormalizeResult(v))
  }

  // resolveJSONPath: None is the error return.
  function ResolvePath(lib: Library, event: Event, path: string): Option<Json> {
    if event.rawObject.Some? then Lookup(lib, path, event.rawObject.value)
    else if event.rawPayload == "" then
      if event.data.Some? then Lookup(lib, path, Object(event.data.value)) else Some(Null)
    else match lib.parseJson(event.rawPayload)
      case None => None
      case Some(doc) => Lookup(lib, path, doc)
  }

  datatype Resolved = Resolved(value: Json, missing: Option<string>)

  /** One variable: its value, and what is reported missing for it. */
  function Resolve(lib: Library, event: Event, varMap: map<string, string>, name: string): Resolved {
    if name in varMap then
      match ResolvePath(lib, event, varMap[name])
      case None => Resolved(Null, Some(varMap[name]))
      case Some(v) => Resolved(v, if v == Null then Some(varMap[name]) else None)
    else if event.data.Some? && name in event.data.value then Resolved(event.data.value[name], None)
    else Resolved(Null, Some(name))
  }

  function ParamsOf(lib: Library, event: Event, varMap: map<string, string>, vars: seq<string>): Params {
    if vars == [] then (if event.rawPayload == "" then event.data else None)
    else Some(map name | name in vars :: Resolve(lib, event, varMap, name).value)
  }

  function MissingOf(lib: Library, event: Event, varMap: map<string, string>, vars: seq<string>): seq<string> {
    if vars == [] then []
    else
      var n := |vars| - 1;
      var m := Resolve(lib, event, varMap, vars[n]).missing;
      MissingOf(lib, event, varMap, vars[..n]) + if m.Some? then [m.value] else []
  }

  lemma NoneMissing(lib: Library, event: Event, varMap: map<string, string>)
    ensures MissingOf(lib, event, varMap, []) == []
  {
  }

  lemma MissingSnoc(lib: Library, event: Event, varMap: map<string, string>, vars: seq<string>, name: string)
    ensures var m := Resolve(lib, event, varMap, name).missing;
      MissingOf(lib, event, varMap, vars + [name]) == MissingOf(lib, event, varMap, vars) + if m.Some? then [m.value] else []
  {
    assert (vars + [name])[..|vars|] == vars;
  }

  method ResolveRuleParams(lib: Library, event: Event, vars: seq<string>, varMap: map<string, string>)
    returns (params: Params, missing: seq<string>)
    ensures params == ParamsOf(lib, event, varMap, vars)
    ensures missing == MissingOf(lib, event, varMap, vars)
  {
    if |vars| == 0 {
      if |event.rawPayload| == 0 {
        return event.data, [];
      }
      return None, [];
    }
    hide ResolvePath, MissingOf;
    NoneMissing(lib, event, varMap);
    var out: map<string, Json> := map[];
    missing := [];
    for i := 0 to |vars|
      invariant forall name :: name in out <==> name in vars[..i]
      invariant forall name | name in out :: out[name] == Resolve(lib, event, varMap, name).value
      invariant missing == MissingOf(lib, event, varMap, vars[..i])
    {
      var name := vars[i];
      assert vars[..i + 1] == vars[..i] + [name];
      MissingSnoc(lib, event, varMap, vars[..i], name);
      if name in varMap {
        var path := varMap[name];
        var value := ResolvePath(lib, event, path);
        if value.None? {
          missing := missing + [path];
          out := out[name := Null];
        } else {
          if value.value == Null {
            missing := missing + [path];
          }
          out := out[name := value.value];
        }
        continue;
      }
      if event.data.Some? && name in event.data.value {
        out := out[name := event.data.value[name]];
      } else {
        missing := missing + [name];
        out := out[name := Null];
      }
    }
    assert vars[..|vars|] == vars;
    assert out == map name | name in vars :: Resolve(lib, event, varMap, name).value;
    return Some(out), missing;
  }

  /** When the paths of an expression have distinct safe names, every path token gets the value
      at its own path, and is reported missing exactly when that lookup fails or finds nothing. */
  lemma PathsGetTheirOwnValue(lib: Library, event: Event, expr: string, vars: seq<string>, i: nat)
    requires NamesDistinct(Lex(expr)) && i < |Lex(expr)| && Lex(expr)[i].Path?
    requires NameAt(Lex(expr), i) in vars
    ensures var path := PathOf(Lex(expr)[i].text);
      var r := Resolve(lib, event, Bindings(Lex(expr)), NameAt(Lex(expr), i));
      && ParamsOf(lib, event, Bindings(Lex(expr)), vars).Some?
      && ParamsOf(lib, event, Bindings(Lex(expr)), vars).value[NameAt(Lex(expr), i)] == r.value
      && (ResolvePath(lib, event, path).Some? ==> r.value == ResolvePath(lib, event, path).value)
      && (r.missing == Some(path) <==> ResolvePath(lib, event, path) in [None, Some(Null)])
  {
    hide Lex, First, SafeVarName, PathOf;
    var segs := Lex(expr);
    var last := BindingsAreLast(segs, NameAt(segs, i));
    assert PathOf(segs[last].text) == PathOf(segs[i].text);
  }
}

/** pkg/core/rules.go and the expansion in pkg/webhook/match_helpers.go. */
module RuleEngines {
  import opened GoText
  import opened Sorting
  import opened Events
  import opened RuleLibraries
  import opened RuleRewrite
  import opened RuleParams

  datatype Rule = Rule(
    id: string, when: string, emit: seq<string>, driverId: string, transformJS: string,
    driverName: string, driverConfigJSON: string, driverEnabled: bool)

  datatype RulesConfig = RulesConfig(rules: seq<Rule>, strict: bool, tenantId: string)

  datatype CompiledRule = CompiledRule(
    id: string, when: string, emit: seq<string>, driverId: string, transformJS: string,
    driverName: string, driverConfigJSON: string, driverEnabled: bool,
    vars: seq<string>, varMap: map<string, string>, expr: string)

  datatype RuleSet = RuleSet(rules: seq<CompiledRule>, strict: bool)

  datatype RuleMatch = RuleMatch(
    topic: string, driverId: string, transformJS: string, driverName: string, ruleId: string,
    ruleWhen: string, driverConfigJSON: string, driverEnabled: bool)

  datatype MatchedRule = MatchedRule(
    id: string, when: string, emit: seq<string>, driverId: string, transformJS: string,
    driverName: string, driverConfigJSON: string, driverEnabled: bool)

  // ---------- compiling ----------

  /** The non-blank values, trimmed: EmitList.Values and normalizeRuleParts before it sorts. */
  function CleanParts(values: seq<string>): seq<string> {
    if values == [] then []
    else
      var rest := CleanParts(values[..|values| - 1]);
      var trimmed := TrimSpace(values[|values| - 1]);
      if trimmed == "" then rest else rest + [trimmed]
  }

  function Join(parts: seq<string>, sep: string): string {
    if parts == [] then "" else if |parts| == 1 then parts[0] else parts[0] + sep + Join(parts[1..], sep)
  }

  function ByText(): (string, string) -> bool { (a, b) => Less(a, b) }

  // ruleIDFromParts
  function RuleIdFromParts(lib: Library, when: string, emit: seq<string>, driverId: string): string {
    lib.ruleHash(TrimSpace(when) + "|" + Join(Sort(CleanParts(emit), ByText()), ",") + "|" + TrimSpace(driverId))
  }

  function CompileRule(lib: Library, rule: Rule): Option<CompiledRule> {
    match lib.compile(Rewritten(rule.when))
    case None => None
    case Some(vars) =>
      var emit := CleanParts(rule.emit);
      var id := TrimSpace(rule.id);
      Some(CompiledRule(
        if id == "" then RuleIdFromParts(lib, rule.when, emit, rule.driverId) else id,
        rule.when, emit, TrimSpace(rule.driverId), TrimSpace(rule.transformJS), TrimSpace(rule.driverName),
        TrimSpace(rule.driverConfigJSON), rule.driverEnabled, vars, Bindings(Lex(rule.when)), Rewritten(rule.when)))
  }

  /** None when some rule does not compile. */
  function CompileAll(lib: Library, rules: seq<Rule>): (r: Option<seq<CompiledRule>>)
    ensures r.Some? ==> |r.value| == |rules|
  {
    if rules == [] then Some([])
    else
      var n := |rules| - 1;
      match (CompileAll(lib, rules[..n]), CompileRule(lib, rules[n]))
      case (Some(init), Some(last)) => Some(init + [last])
      case _ => None
  }

  /** The set compiles when every rule does, and holds each rule's compiled form in its place. */
  lemma {:induction false} CompileAllIsPointwise(lib: Library, rules: seq<Rule>)
    ensures CompileAll(lib, rules).Some? <==> forall i | 0 <= i < |rules| :: CompileRule(lib, rules[i]).Some?
    ensures CompileAll(lib, rules).Some? ==>
      forall i | 0 <= i < |rules| :: CompileRule(lib, rules[i]) == Some(CompileAll(lib, rules).value[i])
  {
    hide CompileRule;
    if rules != [] {
      CompileAllIsPointwise(lib, rules[..|rules| - 1]);
    }
  }

  lemma {:induction false} PrefixCompiles(lib: Library, rules: seq<Rule>, k: nat)
    requires k <= |rules| && CompileAll(lib, rules[..k]).None?
    ensures CompileAll(lib, rules).None?
    decreases |rules|
  {
    hide CompileRule;
    if k == |rules| {
      assert rules[..k] == rules;
    } else {
      assert rules[..|rules| - 1][..k] == rules[..k];
      PrefixCompiles(lib, rules[..|rules| - 1], k);
    }
  }

  method EmitValues(e: seq<string>) returns (out: seq<string>)
    ensures out == CleanParts(e)
  {
    out := [];
    for i := 0 to |e|
      invariant out == CleanParts(e[..i])
    {
      assert e[..i + 1][..i] == e[..i];
      var trimmed := TrimSpace(e[i]);
      if trimmed != "" {
        out := out + [trimmed];
      }
    }
    assert e[..|e|] == e;
  }

  // ---------- matching ----------

  /** A rule matches when strict mode does not skip it and its expression is true. */
  predicate Fires(lib: Library, event: Event, strict: bool, r: CompiledRule) {
    && !(strict && MissingOf(lib, event, r.varMap, r.vars) != [])
    && lib.evaluate(r.expr, ParamsOf(lib, event, r.varMap, r.vars)) == Some(true)
  }

  function MatchOf(r: CompiledRule, topic: string): RuleMatch {
    RuleMatch(topic, r.driverId, r.transformJS, r.driverName, r.id, r.when, r.driverConfigJSON, r.driverEnabled)
  }

  function MatchedOf(r: CompiledRule): MatchedRule {
    MatchedRule(r.id, r.when, r.emit, r.driverId, r.transformJS, r.driverName, r.driverConfigJSON, r.driverEnabled)
  }

  /** The topic-level matches of `rules`, rule by rule. */
  function TopicMatches(lib: Library, event: Event, strict: bool, rules: seq<CompiledRule>): seq<RuleMatch> {
    if rules == [] then []
    else
      var n := |rules| - 1;
      var r := rules[n];
      TopicMatches(lib, event, strict, rules[..n])
      + if Fires(lib, event, strict, r) then seq(|r.emit|, k requires 0 <= k < |r.emit| => MatchOf(r, r.emit[k])) else []
  }

  /** The rule-level matches of `rules`. */
  function RuleMatches(lib: Library, event: Event, strict: bool, rules: seq<CompiledRule>): seq<MatchedRule> {
    if rules == [] then []
    else
      var n := |rules| - 1;
      RuleMatches(lib, event, strict, rules[..n])
      + if Fires(lib, event, strict, rules[n]) then [MatchedOf(rules[n])] else []
  }

  function TopicMatch(m: MatchedRule, topic: string): RuleMatch {
    RuleMatch(topic, m.driverId, m.transformJS, m.driverName, m.id, m.when, m.driverConfigJSON, m.driverEnabled)
  }

  /** One topic-level match for every topic of every matched rule. */
  function Expand(rules: seq<MatchedRule>): seq<RuleMatch> {
    if rules == [] then []
    else
      var n := |rules| - 1;
      var r := rules[n];
      Expand(rules[..n]) + seq(|r.emit|, k requires 0 <= k < |r.emit| => TopicMatch(r, r.emit[k]))
  }

  // ruleMatchesFromRules
  method RuleMatchesFromRules(rules: seq<MatchedRule>) returns (matches: seq<RuleMatch>)
    ensures matches == Expand(rules)
  {
    matches := [];
    for i := 0 to |rules|
      invariant matches == Expand(rules[..i])
    {
      var rule := rules[i];
      assert rules[..i + 1][..i] == rules[..i];
      ghost var all := seq(|rule.emit|, k requires 0 <= k < |rule.emit| => TopicMatch(rule, rule.emit[k]));
      for j := 0 to |rule.emit|
        invariant matches == Expand(rules[..i]) + all[..j]
      {
        matches := matches + [TopicMatch(rule, rule.emit[j])];
      }
      assert all[..|rule.emit|] == all;
    }
    assert rules[..|rules|] == rules;
  }

  // ---------- the engine ----------

  class RuleEngine {
    const lib: Library
    var rules: seq<CompiledRule>
    var strict: bool
    var tenant: map<string, RuleSet>

    constructor (lib: Library)
      ensures this.lib == lib && rules == [] && tenant == map[]
    {
      this.lib := lib;
      rules, strict, tenant := [], false, map[];
    }

    /** The rule set an evaluation for `tenantId` reads; None when the tenant has none. */
    function RuleSetFor(tenantId: string): Option<RuleSet>
      reads this
    {
      var t := TrimSpace(tenantId);
      if t == "" then Some(RuleSet(rules, strict)) else if t in tenant then Some(tenant[t]) else None
    }

    method Update(cfg: RulesConfig) returns (ok: bool)
      modifies this
      ensures ok <==> CompileAll(lib, cfg.rules).Some?
      ensures !ok ==> rules == old(rules) && strict == old(strict) && tenant == old(tenant)
      ensures ok && TrimSpace(cfg.tenantId) == "" ==>
        rules == CompileAll(lib, cfg.rules).value && strict == cfg.strict && tenant == old(tenant)
      ensures ok && TrimSpace(cfg.tenantId) != "" ==>
        && rules == old(rules) && strict == old(strict)
        && tenant == if cfg.rules == [] then old(tenant) - {TrimSpace(cfg.tenantId)}
                     else old(tenant)[TrimSpace(cfg.tenantId) := RuleSet(CompileAll(lib, cfg.rules).value, cfg.strict)]
      // Isolation: evaluations for every other tenant read what they read before.
      ensures forall t :: !ok || TrimSpace(t) != TrimSpace(cfg.tenantId) ==> RuleSetFor(t) == old(RuleSetFor(t))
    {
      hide TrimSpace, Rewritten, Bindings, Lex, CleanParts, RuleIdFromParts;
      var compiled: seq<CompiledRule> := [];
      for i := 0 to |cfg.rules|
        invariant CompileAll(lib, cfg.rules[..i]) == Some(compiled) && unchanged(this)
      {
        var rule := cfg.rules[i];
        assert cfg.rules[..i + 1][..i] == cfg.rules[..i];
        var rewritten, varMap := RewriteExpression(rule.when);
        var expr := lib.compile(rewritten);
        if expr.None? {
          assert CompileAll(lib, cfg.rules[..i + 1]).None?;
          PrefixCompiles(lib, cfg.rules, i + 1);
          return false;
        }
        var emit := EmitValues(rule.emit);
        var ruleId := TrimSpace(rule.id);
        if ruleId == "" {
          ruleId := RuleIdFromParts(lib, rule.when, emit, rule.driverId);
        }
        var c := CompiledRule(
          ruleId, rule.when, emit, TrimSpace(rule.driverId), TrimSpace(rule.transformJS), TrimSpace(rule.driverName),
          TrimSpace(rule.driverConfigJSON), rule.driverEnabled, expr.value, varMap, rewritten);
        assert CompileRule(lib, rule) == Some(c);
        compiled := compiled + [c];
      }
      assert cfg.rules[..|cfg.rules|] == cfg.rules;
      var tenantId := TrimSpace(cfg.tenantId);
      if tenantId == "" {
        rules := compiled;
        strict := cfg.strict;
      } else if |compiled| == 0 {
        tenant := tenant - {tenantId};
      } else {
        tenant := tenant[tenantId := RuleSet(compiled, cfg.strict)];
      }
      return true;
    }

    // evaluateWithLoggerForTenant
    method EvaluateForTenant(event: Event, tenantId: string) returns (matches: seq<RuleMatch>)
      ensures matches == match RuleSetFor(tenantId)
                         case None => []
                         case Some(s) => TopicMatches(lib, event, s.strict, s.rules)
      ensures TrimSpace(tenantId) == "" ==> matches == TopicMatches(lib, event, strict, rules)
      ensures TrimSpace(tenantId) != "" && TrimSpace(tenantId) !in tenant ==> matches == []
      ensures TrimSpace(tenantId) in tenant && TrimSpace(tenantId) != "" ==>
        matches == TopicMatches(lib, event, tenant[TrimSpace(tenantId)].strict, tenant[TrimSpace(tenantId)].rules)
    {
      hide TrimSpace, ParamsOf, MissingOf;
      var t := TrimSpace(tenantId);
      var active, isStrict := rules, strict;
      if t != "" {
        if t !in tenant { return []; }
        active, isStrict := tenant[t].rules, tenant[t].strict;
      }
      matches := [];
      for i := 0 to |active|
        invariant matches == TopicMatches(lib, event, isStrict, active[..i])
      {
        var rule := active[i];
        assert active[..i + 1][..i] == active[..i];
        var params, missing := ResolveRuleParams(lib, event, rule.vars, rule.varMap);
        if isStrict && |missing| > 0 { continue; }
        var result := lib.evaluate(rule.expr, params);
        if result == Some(true) {
          ghost var all := seq(|rule.emit|, k requires 0 <= k < |rule.emit| => MatchOf(rule, rule.emit[k]));
          for j := 0 to |rule.emit|
            invariant matches == TopicMatches(lib, event, isStrict, active[..i]) + all[..j]
          {
            matches := matches + [MatchOf(rule, rule.emit[j])];
          }
          assert all[..|rule.emit|] == all;
        }
      }
      assert active[..|active|] == active;
    }

    // evaluateRulesWithLoggerForTenant
    method EvaluateRulesForTenant(event: Event, tenantId: string) returns (matches: seq<MatchedRule>)
      ensures matches == match RuleSetFor(tenantId)
                         case None => []
                         case Some(s) => RuleMatches(lib, event, s.strict, s.rules)
      ensures TrimSpace(tenantId) == "" ==> matches == RuleMatches(lib, event, strict, rules)
      ensures TrimSpace(tenantId) != "" && TrimSpace(tenantId) !in tenant ==> matches == []
      ensures TrimSpace(tenantId) in tenant && TrimSpace(tenantId) != "" ==>
        matches == RuleMatches(lib, event, tenant[TrimSpace(tenantId)].strict, tenant[TrimSpace(tenantId)].rules)
    {
      hide TrimSpace, ParamsOf, MissingOf;
      var t := TrimSpace(tenantId);
      var active, isStrict := rules, strict;
      if t != "" {
        if t !in tenant { return []; }
        active, isStrict := tenant[t].rules, tenant[t].strict;
      }
      matches := [];
      for i := 0 to |active|
        invariant matches == RuleMatches(lib, event, isStrict, active[..i])
      {
        var rule := active[i];
        assert active[..i + 1][..i] == active[..i];
        var params, missing := ResolveRuleParams(lib, event, rule.vars, rule.varMap);
        if isStrict && |missing| > 0 { continue; }
        var result := lib.evaluate(rule.expr, params);
        if result == Some(true) {
          matches := matches + [MatchedOf(rule)];
        }
      }
      assert active[..|active|] == active;
    }
  }

  // ---------- the two evaluators are one ----------

  /** Expanding the rule-level matches gives the topic-level matches, in order. */
  lemma {:induction false} EvaluatorsAgree(lib: Library, event: Event, strict: bool, rules: seq<CompiledRule>)
    ensures Expand(RuleMatches(lib, event, strict, rules)) == TopicMatches(lib, event, strict, rules)
  {
    if rules != [] {
      var n := |rules| - 1;
      var r := rules[n];
      var before := RuleMatches(lib, event, strict, rules[..n]);
      EvaluatorsAgree(lib, event, strict, rules[..n]);
      assert before + [] == before && Expand(before) + [] == Expand(before);
      if Fires(lib, event, strict, r) {
        var m := MatchedOf(r);
        assert (before + [m])[..|before|] == before;
        assert seq(|m.emit|, k requires 0 <= k < |m.emit| => TopicMatch(m, m.emit[k]))
            == seq(|r.emit|, k requires 0 <= k < |r.emit| => MatchOf(r, r.emit[k]));
      }
    }
  }

  predicate IsSubsequence<T(==)>(a: seq<T>, b: seq<T>) {
    a == [] || (b != [] &&
      if a[|a| - 1] == b[|b| - 1] then IsSubsequence(a[..|a| - 1], b[..|b| - 1]) else IsSubsequence(a, b[..|b| - 1]))
  }

  lemma {:induction false} DropLastOfSubsequence<T>(a: seq<T>, b: seq<T>)
    requires a != [] && IsSubsequence(a, b)
    ensures IsSubsequence(a[..|a| - 1], b)
  {
    var a', b' := a[..|a| - 1], b[..|b| - 1];
    if a[|a| - 1] != b[|b| - 1] {
      DropLastOfSubsequence(a, b');
    }
    if a' != [] {
      if a'[|a'| - 1] == b[|b| - 1] {
        assert IsSubsequence(a', b');
        DropLastOfSubsequence(a', b');
      }
    }
  }

  lemma SubsequenceSkips<T>(a: seq<T>, b: seq<T>, x: T)
    requires IsSubsequence(a, b)
    ensures IsSubsequence(a, b + [x]) && IsSubsequence(a + [x], b + [x])
  {
    assert (b + [x])[..|b|] == b && (a + [x])[..|a|] == a;
    if a != [] {
      DropLastOfSubsequence(a, b);
    }
  }

  /** Strict mode only drops matches. */
  lemma {:induction false} StrictIsSubsequence(lib: Library, event: Event, rules: seq<CompiledRule>)
    ensures IsSubsequence(RuleMatches(lib, event, true, rules), RuleMatches(lib, event, false, rules))
  {
    if rules != [] {
      var n := |rules| - 1;
      StrictIsSubsequence(lib, event, rules[..n]);
      var s, t := RuleMatches(lib, event, true, rules[..n]), RuleMatches(lib, event, false, rules[..n]);
      assert s + [] == s && t + [] == t;
      SubsequenceSkips(RuleMatches(lib, event, true, rules[..n]), RuleMatches(lib, event, false, rules[..n]), MatchedOf(rules[n]));
    }
  }

  // ---------- generated rule ids ----------

  lemma {:induction false} CleanPartsAppend(a: seq<string>, b: seq<string>)
    ensures CleanParts(a + b) == CleanParts(a) + CleanParts(b)
  {
    hide TrimSpace;
    if b == [] {
      assert a + b == a;
    } else {
      assert (a + b)[..|a + b| - 1] == a + b[..|b| - 1];
      CleanPartsAppend(a, b[..|b| - 1]);
    }
  }

  lemma {:induction false} CleanPartsPermute(a: seq<string>, b: seq<string>)
    requires multiset(a) == multiset(b)
    ensures multiset(CleanParts(a)) == multiset(CleanParts(b))
  {
    hide CleanParts;
    SameMultisetSameElements(a, b);
    if a == [] {
      assert b == [];
    } else {
      var init, x := a[..|a| - 1], a[|a| - 1];
      assert a == init + [x];
      var b1, b2 := SplitPermutation(init, x, b);
      CleanPartsPermute(init, b1 + b2);
      CleanPartsAppend(init, [x]);
      CleanPartsAppend(b1, b2);
      CleanPartsAppend(b1, [x]);
      CleanPartsAppend(b1 + [x], b2);
      MoveToEnd(CleanParts(b1), CleanParts([x]), CleanParts(b2));
    }
  }

  /** A generated rule id does not depend on the order of the topics. */
  lemma RuleIdIgnoresEmitOrder(lib: Library, when: string, emit: seq<string>, emit': seq<string>, driverId: string)
    requires multiset(emit) == multiset(emit')
    ensures RuleIdFromParts(lib, when, emit, driverId) == RuleIdFromParts(lib, when, emit', driverId)
  {
    CleanPartsPermute(emit, emit');
    var s := Elements(CleanParts(emit));
    forall a, b | a in s && b in s ensures a != b ==> Less(a, b) || Less(b, a) {
      LessIsStrictTotal(a, b);
    }
    forall a: string ensures !Less(a, a) { LessIsStrictTotal(a, a); }
    forall a, b, c | Less(a, b) && Less(b, c) ensures Less(a, c) { LessTransitive(a, b, c); }
    SortOfPermutation(CleanParts(emit), CleanParts(emit'), ByText());
  }
}
