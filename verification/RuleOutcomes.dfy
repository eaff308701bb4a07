/** What an evaluation of rules means for the caller, from the configured rule to the match
    (pkg/core/rules.go, pkg/core/rules_resolve.go, pkg/webhook/match_helpers.go). */
module RuleOutcomes {
  import opened GoText
  import opened Json
  import opened Sorting
  import opened Events
  import opened RuleLibraries
  import opened RuleRewrite
  import opened RuleParams
  import opened RuleEngines
  import P = Publish

  // ---------- where a value comes from ----------

  /** The document a path is read in: the decoded object, else the payload, else the flat data. */
  predicate ReadIn(lib: Library, event: Event, doc: Json) {
    || event.rawObject == Some(doc)
    || (event.rawObject.None? && event.rawPayload != "" && lib.parseJson(event.rawPayload) == Some(doc))
    || (event.rawObject.None? && event.rawPayload == "" && event.data.Some? && doc == Object(event.data.value))
  }

  /** A list of one result is that result, an empty one is null, and anything else stays. */
  lemma PathIsReadInDocument(lib: Library, event: Event, path: string, doc: Json)
    requires ReadIn(lib, event, doc)
    ensures lib.getPath(path, doc).None? ==> ResolvePath(lib, event, path) == None
    ensures lib.getPath(path, doc) == Some(Array([])) ==> ResolvePath(lib, event, path) == Some(Null)
    ensures forall x :: lib.getPath(path, doc) == Some(Array([x])) ==> ResolvePath(lib, event, path) == Some(x)
    ensures forall v :: lib.getPath(path, doc) == Some(v) && (v.Array? ==> |v.items| > 1) ==> ResolvePath(lib, event, path) == Some(v)
  {
    forall v, x | v == Array([x]) ensures |v.items| == 1 && v.items[0] == x {
    }
  }

  /** Without a document every path is null, unless the payload is there and cannot be parsed. */
  lemma NothingToReadIn(lib: Library, event: Event, path: string)
    requires forall doc :: !ReadIn(lib, event, doc)
    ensures ResolvePath(lib, event, path) == if event.rawPayload == "" then Some(Null) else None
  {
    if event.rawObject.Some? {
      assert ReadIn(lib, event, event.rawObject.value);
    } else if event.rawPayload == "" {
      if event.data.Some? {
        assert ReadIn(lib, event, Object(event.data.value));
      }
    } else if lib.parseJson(event.rawPayload).Some? {
      assert ReadIn(lib, event, lib.parseJson(event.rawPayload).value);
    }
  }

  /** A variable has a value when its path leads to one that is not null, or, if it is no path, when
      the flat data have it. */
  predicate HasValue(lib: Library, event: Event, varMap: map<string, string>, name: string) {
    if name in varMap then ResolvePath(lib, event, varMap[name]) !in {None, Some(Null)}
    else event.data.Some? && name in event.data.value
  }

  /** The parameters of an evaluation: the value of every variable that has one, and null for the
      others; without variables the flat data, if there is no payload. */
  lemma ParamsAreValues(lib: Library, event: Event, varMap: map<string, string>, vars: seq<string>)
    ensures vars == [] ==> ParamsOf(lib, event, varMap, vars) == if event.rawPayload == "" then event.data else None
    ensures vars != [] ==>
      ParamsOf(lib, event, varMap, vars).Some? && forall name :: name in ParamsOf(lib, event, varMap, vars).value <==> name in vars
    ensures forall name | name in vars ::
      ParamsOf(lib, event, varMap, vars).value[name] ==
      if !HasValue(lib, event, varMap, name) then Null
      else if name in varMap then ResolvePath(lib, event, varMap[name]).value else event.data.value[name]
  {
    hide ResolvePath;
  }

  lemma {:induction false} MissingIff(lib: Library, event: Event, varMap: map<string, string>, vars: seq<string>)
    ensures MissingOf(lib, event, varMap, vars) == [] <==> forall name | name in vars :: HasValue(lib, event, varMap, name)
  {
    if vars != [] {
      var n := |vars| - 1;
      MissingIff(lib, event, varMap, vars[..n]);
      assert vars == vars[..n] + [vars[n]];
      assert Resolve(lib, event, varMap, vars[n]).missing.None? <==> HasValue(lib, event, varMap, vars[n]);
      hide ResolvePath, HasValue, Resolve;
    }
  }

  // ---------- which rules match ----------

  predicate IsComplete(lib: Library, event: Event, r: CompiledRule) {
    forall name | name in r.vars :: HasValue(lib, event, r.varMap, name)
  }

  predicate IsTrue(lib: Library, event: Event, r: CompiledRule) {
    lib.evaluate(r.expr, ParamsOf(lib, event, r.varMap, r.vars)) == Some(true)
  }

  function Complete(lib: Library, event: Event, rules: seq<CompiledRule>): seq<CompiledRule> {
    Filter(rules, r => IsComplete(lib, event, r))
  }

  lemma FiresIff(lib: Library, event: Event, strict: bool, r: CompiledRule)
    ensures Fires(lib, event, strict, r) <==> IsTrue(lib, event, r) && (strict ==> IsComplete(lib, event, r))
  {
    MissingIff(lib, event, r.varMap, r.vars);
    hide ParamsOf, MissingOf, HasValue;
  }

  lemma RuleMatchesSnoc(lib: Library, event: Event, strict: bool, rules: seq<CompiledRule>, r: CompiledRule)
    ensures RuleMatches(lib, event, strict, rules + [r]) == RuleMatches(lib, event, strict, rules) + if Fires(lib, event, strict, r) then [MatchedOf(r)] else []
  {
    assert (rules + [r])[..|rules|] == rules;
  }

  /** Strict mode evaluates exactly the rules of which every variable has a value, on either level. */
  lemma StrictKeepsTheComplete(lib: Library, event: Event, rules: seq<CompiledRule>)
    ensures RuleMatches(lib, event, true, rules) == RuleMatches(lib, event, false, Complete(lib, event, rules))
    ensures TopicMatches(lib, event, true, rules) == TopicMatches(lib, event, false, Complete(lib, event, rules))
  {
    StrictKeepsRules(lib, event, rules);
    EvaluatorsAgree(lib, event, true, rules);
    EvaluatorsAgree(lib, event, false, Complete(lib, event, rules));
  }

  lemma {:induction false} StrictKeepsRules(lib: Library, event: Event, rules: seq<CompiledRule>)
    ensures RuleMatches(lib, event, true, rules) == RuleMatches(lib, event, false, Complete(lib, event, rules))
  {
    if rules != [] {
      var init, r := rules[..|rules| - 1], rules[|rules| - 1];
      var keep := (x: CompiledRule) => IsComplete(lib, event, x);
      assert rules == init + [r];
      StrictKeepsRules(lib, event, init);
      FilterAppend(init, [r], keep);
      assert Filter([r], keep) == (if keep(r) then [r] else []) by { assert [r][1..] == []; }
      FiresIff(lib, event, true, r);
      FiresIff(lib, event, false, r);
      CompleteIs(lib, event, init, keep);
      CompleteIs(lib, event, rules, keep);
      hide Fires, IsComplete, IsTrue, RuleMatches, Filter, MatchedOf;
      RuleMatchesSnoc(lib, event, true, init, r);
      RuleMatchesSnoc(lib, event, false, Filter(init, keep), r);
      assert Filter(init, keep) + [] == Filter(init, keep);
      assert RuleMatches(lib, event, true, init) + [] == RuleMatches(lib, event, true, init);
    }
  }

  lemma CompleteIs(lib: Library, event: Event, rules: seq<CompiledRule>, keep: CompiledRule -> bool)
    requires forall r :: keep(r) <==> IsComplete(lib, event, r)
    ensures Complete(lib, event, rules) == Filter(rules, keep)
  {
    hide IsComplete;
    SamePredicate(rules, r => IsComplete(lib, event, r), keep);
  }

  lemma {:induction false} SamePredicate<T(!new)>(s: seq<T>, p: T -> bool, q: T -> bool)
    requires forall x :: p(x) <==> q(x)
    ensures Filter(s, p) == Filter(s, q)
  {
    if s != [] {
      SamePredicate(s[1..], p, q);
    }
  }

  // ---------- from the configured rule to the match ----------

  /** The rule's condition is true of the event and, in strict mode, none of its variables lacks a value. */
  predicate HoldsFor(lib: Library, event: Event, strict: bool, rule: Rule) {
    match lib.compile(Rewritten(rule.when))
    case None => false
    case Some(vars) =>
      var varMap := Bindings(Lex(rule.when));
      && lib.evaluate(Rewritten(rule.when), ParamsOf(lib, event, varMap, vars)) == Some(true)
      && (strict ==> forall name | name in vars :: HasValue(lib, event, varMap, name))
  }

  /** The match says what the configured rule says, outer blanks aside. */
  predicate SaysTheSame(m: MatchedRule, rule: Rule) {
    && (TrimSpace(rule.id) != "" ==> m.id == TrimSpace(rule.id))
    && m.when == rule.when && m.emit == CleanParts(rule.emit) && m.driverId == TrimSpace(rule.driverId)
    && m.transformJS == TrimSpace(rule.transformJS) && m.driverName == TrimSpace(rule.driverName)
    && m.driverConfigJSON == TrimSpace(rule.driverConfigJSON) && m.driverEnabled == rule.driverEnabled
  }

  lemma CompiledRuleMeans(lib: Library, event: Event, strict: bool, rule: Rule)
    requires CompileRule(lib, rule).Some?
    ensures var r := CompileRule(lib, rule).value;
      (Fires(lib, event, strict, r) <==> HoldsFor(lib, event, strict, rule)) && SaysTheSame(MatchedOf(r), rule)
  {
    hide Lex, Rewritten, Bindings, TrimSpace, CleanParts, ParamsOf, HasValue;
    FiresIff(lib, event, strict, CompileRule(lib, rule).value);
    hide Fires;
  }

  /** `at` are the places of the rules that hold, and the matches say what those rules say. */
  ghost predicate ArePlaces(lib: Library, event: Event, strict: bool, rules: seq<Rule>, out: seq<MatchedRule>, at: seq<nat>) {
    && |at| == |out|
    && (forall k | 0 <= k < |at| :: at[k] < |rules| && SaysTheSame(out[k], rules[at[k]]))
    && (forall k, l | 0 <= k < l < |at| :: at[k] < at[l])
    && (forall i: nat :: i in at <==> i < |rules| && HoldsFor(lib, event, strict, rules[i]))
  }

  lemma PlacesGrow(lib: Library, event: Event, strict: bool, init: seq<Rule>, rule: Rule, out: seq<MatchedRule>, m: MatchedRule, at: seq<nat>)
    requires ArePlaces(lib, event, strict, init, out, at) && SaysTheSame(m, rule)
    ensures ArePlaces(lib, event, strict, init + [rule], out, at) <==> !HoldsFor(lib, event, strict, rule)
    ensures HoldsFor(lib, event, strict, rule) ==> ArePlaces(lib, event, strict, init + [rule], out + [m], at + [|init|])
  {
    hide SaysTheSame, HoldsFor;
    assert |init| !in at;
    assert (init + [rule])[|init|] == rule;
  }

  /** An evaluation of a rule set gives one match for every configured rule that holds, and for no
      other, in their order, and each says what its rule says. `at` are their places. */
  lemma {:induction false} EvaluationMeans(lib: Library, event: Event, strict: bool, rules: seq<Rule>) returns (at: seq<nat>)
    requires CompileAll(lib, rules).Some?
    ensures ArePlaces(lib, event, strict, rules, RuleMatches(lib, event, strict, CompileAll(lib, rules).value), at)
  {
    hide CompileRule, Fires, HoldsFor, SaysTheSame, MatchedOf;
    at := [];
    if rules != [] {
      var n := |rules| - 1;
      var init := rules[..n];
      var before := EvaluationMeans(lib, event, strict, init);
      CompiledRuleMeans(lib, event, strict, rules[n]);
      var compiled, c := CompileAll(lib, init).value, CompileRule(lib, rules[n]).value;
      assert CompileAll(lib, rules).value == compiled + [c];
      hide CompileAll, RuleMatches;
      RuleMatchesSnoc(lib, event, strict, compiled, c);
      var out := RuleMatches(lib, event, strict, compiled);
      assert out + [] == out;
      assert ArePlaces(lib, event, strict, init, out, before);
      hide ArePlaces;
      PlacesGrow(lib, event, strict, init, rules[n], out, MatchedOf(c), before);
      at := if HoldsFor(lib, event, strict, rules[n]) then before + [n] else before;
      assert init + [rules[n]] == rules;
    }
  }

  /** A match on the topic level says what its rule says, for one of the rule's topics. */
  predicate SaysForTopic(m: RuleMatch, r: MatchedRule, topic: string) {
    && m.topic == topic && m.ruleId == r.id && m.ruleWhen == r.when && m.driverId == r.driverId && m.driverName == r.driverName
    && m.transformJS == r.transformJS && m.driverConfigJSON == r.driverConfigJSON && m.driverEnabled == r.driverEnabled
  }

  /** The topic-level matches go through the rules and the topics of each, one match for each. */
  lemma TopicsInTurn(lib: Library, event: Event, strict: bool, rules: seq<CompiledRule>, i: nat, j: nat)
    ensures var matched, out := RuleMatches(lib, event, strict, rules), TopicMatches(lib, event, strict, rules);
      && |out| == P.TopicsBefore(matched, |matched|)
      && (i < |matched| && j < |matched[i].emit| ==>
            P.TopicsBefore(matched, i) + j < |out| && SaysForTopic(out[P.TopicsBefore(matched, i) + j], matched[i], matched[i].emit[j]))
  {
    EvaluatorsAgree(lib, event, strict, rules);
    P.MatchAt(RuleMatches(lib, event, strict, rules), i, j);
    hide RuleMatches, TopicMatches, Expand, P.TopicsBefore;
  }

  /** The topics of a rule are its non-blank ones without outer blanks, in their order. */
  lemma TopicsAreTrimmed(emit: seq<string>, topic: string)
    ensures CleanParts([]) == []
    ensures CleanParts(emit + [topic]) == CleanParts(emit) + if TrimSpace(topic) == "" then [] else [TrimSpace(topic)]
  {
    assert (emit + [topic])[..|emit|] == emit;
  }

  /** A rule without an id is named by its trimmed condition and driver and its topics in order. */
  lemma GeneratedIdNamesTheRule(lib: Library, when: string, emit: seq<string>, driverId: string, parts: seq<string>)
    requires multiset(parts) == multiset(CleanParts(emit)) && Sorted(ByText(), parts)
    ensures RuleIdFromParts(lib, when, emit, driverId) == lib.ruleHash(TrimSpace(when) + "|" + Join(parts, ",") + "|" + TrimSpace(driverId))
    ensures forall a: string, b: string :: Join([a, b], ",") == a + "," + b && Join([a], ",") == a
  {
    var clean := CleanParts(emit);
    TextIsStrict(Elements(clean));
    SortPermutes(clean, ByText());
    SortSorts(clean, ByText());
    SortedIsUnique(Sort(clean, ByText()), parts, ByText());
    forall a: string, b: string ensures Join([a, b], ",") == a + "," + b {
      assert [a, b][1..] == [b];
    }
  }

  lemma TextIsStrict(s: set<string>)
    ensures StrictOn(ByText(), s)
  {
    forall a, b | a in s && b in s && a != b ensures Less(a, b) || Less(b, a) {
      LessIsStrictTotal(a, b);
    }
    forall a: string ensures !Less(a, a) { LessIsStrictTotal(a, a); }
    forall a, b, c | Less(a, b) && Less(b, c) ensures Less(a, c) { LessTransitive(a, b, c); }
  }
}
