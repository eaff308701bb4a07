/** What the tokens of a rule expression are, told byte by byte: where a path, a keyword, a function
    name and a string literal end (pkg/core/rules_rewrite.go). */
module RuleTokens {
  import opened GoText
  import opened RuleRewrite

  /** The bytes that end a path outside quotes and brackets. */
  const ENDS := " \t\n\r,;+-*/%=!<>&|)"

  predicate Letter(ch: char) { 'a' <= ch <= 'z' || 'A' <= ch <= 'Z' || ch == '_' }

  /** A byte of a dotted path such as `pull_request.draft` or `$.action`. */
  predicate PathByte(ch: char) { Letter(ch) || '0' <= ch <= '9' || ch == '.' || ch == '$' }

  predicate DottedPath(u: string) {
    u != "" && (Letter(u[0]) || u[0] == '$') && forall i | 0 <= i < |u| :: PathByte(u[i])
  }

  predicate Ends(t: string) { t == "" || t[0] in ENDS }

  lemma EndsAreTerminators(ch: char)
    ensures IsTerminator(ch) <==> ch in ENDS
  {
    assert ENDS == [' ', '\t', '\n', '\r', ',', ';', '+', '-', '*', '/', '%', '=', '!', '<', '>', '&', '|', ')'];
  }

  lemma ReadsOn(ch: char)
    requires PathByte(ch)
    ensures Read(START, ch) == Some(START)
  {
  }

  lemma {:induction false} PathRunsToEnd(u: string, t: string)
    requires (forall i | 0 <= i < |u| :: PathByte(u[i])) && Ends(t)
    ensures PathLen(u + t, START) == |u|
  {
    if u == [] {
      assert u + t == t;
      if t != [] {
        EndsAreTerminators(t[0]);
        ReadAtTopLevel(t[0]);
      }
    } else {
      assert (u + t)[0] == u[0] && (u + t)[1..] == u[1..] + t;
      ReadsOn(u[0]);
      PathRunsToEnd(u[1..], t);
    }
  }

  lemma {:induction false} IdentStops(s: string)
    ensures IdentLen(s) < |s| ==> !IsIdentPart(s[IdentLen(s)])
    ensures forall i | 0 <= i < IdentLen(s) :: IsIdentPart(s[i])
  {
    if s != [] && IsIdentPart(s[0]) {
      IdentStops(s[1..]);
      assert forall i | 1 <= i < IdentLen(s) :: s[i] == s[1..][i - 1];
    }
  }

  /** A dotted path is one token up to the first byte that ends it, dots included. */
  lemma DottedPathIsOneToken(u: string, t: string)
    requires DottedPath(u) && Ends(t) && u !in {"true", "false", "null", "contains", "like"}
    ensures First(u + t) == Path(u) && Rest(u + t) == t
  {
    var s := u + t;
    PathRunsToEnd(u, t);
    IdentStops(s);
    var n := IdentLen(s);
    assert n <= |u| by {
      if t != "" {
        EndsAreTerminators(t[0]);
        assert s[|u|] == t[0] && !IsIdentPart(t[0]);
      }
    }
    if n < |u| {
      assert s[n] == u[n] && (u[n] == '.' || u[n] == '$');
      assert s[n..][0] == u[n];
    } else {
      assert s[..n] == u;
    }
    assert s[..|u|] == u && s[0] == u[0];
  }

  /** A keyword stays as it is. */
  lemma KeywordIsKept(u: string, t: string)
    requires u in {"true", "false", "null"} && Ends(t)
    ensures First(u + t) == Keyword(u) && Rest(u + t) == t
  {
    assert DottedPath(u);
    var s := u + t;
    PathRunsToEnd(u, t);
    IdentThenNothing(u, t);
    assert s[..|u|] == u && s[0] == u[0];
  }

  lemma IdentThenNothing(u: string, t: string)
    requires (forall i | 0 <= i < |u| :: IsIdentPart(u[i])) && (t == "" || !IsIdentPart(t[0]))
    ensures IdentLen(u + t) == |u|
  {
    IdentThenStop(u, t);
  }

  /** `contains` and `like` are function names when a parenthesis follows, blanks aside, and
      ordinary paths otherwise. */
  lemma CallKeepsItsName(u: string, blanks: string, t: string)
    requires u in {"contains", "like"} && forall i | 0 <= i < |blanks| :: blanks[i] in " \t\n\r"
    ensures First(u + (blanks + ("(" + t))) == Function(u)
    ensures Ends(blanks + t) && (t == "" || t[0] !in " \t\n\r(") ==> First(u + (blanks + t)) == Path(u)
  {
    var rest := blanks + ("(" + t);
    assert rest[0] == '(' || rest[0] == blanks[0];
    assert !IsIdentPart(rest[0]) by { assert " \t\n\r" == [' ', '\t', '\n', '\r']; }
    IdentThenNothing(u, rest);
    SkipsBlanks(blanks, "(" + t);
    assert (u + rest)[..|u|] == u && (u + rest)[|u|..] == rest;
    if Ends(blanks + t) && (t == "" || t[0] !in " \t\n\r(") {
      var s := u + (blanks + t);
      assert DottedPath(u);
      PathRunsToEnd(u, blanks + t);
      if blanks + t != "" {
        EndsAreTerminators((blanks + t)[0]);
      }
      IdentThenNothing(u, blanks + t);
      SkipsBlanks(blanks, t);
      assert s[..|u|] == u && s[|u|..] == blanks + t;
    }
  }

  lemma {:induction false} SkipsBlanks(blanks: string, t: string)
    requires forall i | 0 <= i < |blanks| :: blanks[i] in " \t\n\r"
    ensures OpensCall(blanks + t) == OpensCall(t)
    ensures t == "" || t[0] !in " \t\n\r" ==> (OpensCall(t) <==> t != "" && t[0] == '(')
  {
    assert " \t\n\r" == [' ', '\t', '\n', '\r'];
    if blanks == [] {
      assert blanks + t == t;
    } else {
      assert (blanks + t)[1..] == blanks[1..] + t;
      SkipsBlanks(blanks[1..], t);
    }
  }

  /** Any other byte stands for itself. */
  lemma OtherByteIsKept(ch: char, t: string)
    requires !Letter(ch) && ch != '$' && ch != '"' && ch != '\''
    ensures First([ch] + t) == Other([ch]) && Rest([ch] + t) == t
  {
  }

  // ---------- quotes and brackets, counted from the left ----------

  /** The quote that is open before byte `i`. */
  function QuoteAt(s: string, i: nat): Option<char>
    requires i <= |s|
    decreases i, 1
  {
    if i == 0 then None
    else match QuoteAt(s, i - 1)
      case None => if s[i - 1] == '"' || s[i - 1] == '\'' then Some(s[i - 1]) else None
      case Some(q) => if s[i - 1] == q && !Escaped(s, i - 1) then None else Some(q)
  }

  /** A backslash inside quotes takes the next byte's meaning away. */
  predicate Escaped(s: string, i: nat)
    requires i <= |s|
    decreases i, 0
  {
    i > 0 && QuoteAt(s, i - 1).Some? && s[i - 1] == '\\' && !Escaped(s, i - 1)
  }

  /** The square brackets open before byte `i`, those in quotes aside. */
  function Brackets(s: string, i: nat): nat
    requires i <= |s|
  {
    if i == 0 then 0
    else
      var n := Brackets(s, i - 1);
      if QuoteAt(s, i - 1).Some? then n
      else if s[i - 1] == '[' then n + 1
      else if s[i - 1] == ']' && n > 0 then n - 1 else n
  }

  /** The parentheses open before byte `i`; one opens only inside brackets. */
  function Parens(s: string, i: nat): nat
    requires i <= |s|
  {
    if i == 0 then 0
    else
      var n := Parens(s, i - 1);
      if QuoteAt(s, i - 1).Some? then n
      else if s[i - 1] == '(' && Brackets(s, i - 1) > 0 then n + 1
      else if s[i - 1] == ')' && n > 0 then n - 1 else n
  }

  /** Byte `i` ends a path: it is one of ENDS, and once it is read no quote, bracket or parenthesis
      is open. */
  predicate EndsAt(s: string, i: nat)
    requires i < |s|
  {
    s[i] in ENDS && QuoteAt(s, i).None? && Brackets(s, i + 1) == 0 && Parens(s, i + 1) == 0
  }

  function StateAt(s: string, i: nat): Scan
    requires i <= |s|
  {
    Scan(Brackets(s, i), Parens(s, i), QuoteAt(s, i), Escaped(s, i))
  }

  lemma {:induction false} QuotesAreQuotes(s: string, i: nat)
    requires i <= |s|
    ensures QuoteAt(s, i).Some? ==> QuoteAt(s, i).value == '"' || QuoteAt(s, i).value == '\''
    ensures Escaped(s, i) ==> QuoteAt(s, i).Some?
  {
    if i > 0 {
      QuotesAreQuotes(s, i - 1);
    }
  }

  lemma ReadAt(s: string, i: nat)
    requires i < |s|
    ensures Read(StateAt(s, i), s[i]) == if EndsAt(s, i) then None else Some(StateAt(s, i + 1))
  {
    QuotesAreQuotes(s, i);
    EndsAreTerminators(s[i]);
    if QuoteAt(s, i).Some? {
      hide IsTerminator;
    } else {
      assert QuoteAt(s, i + 1) == if s[i] == '"' || s[i] == '\'' then Some(s[i]) else None;
      assert !Escaped(s, i) && !Escaped(s, i + 1);
      EndsAreTerminators('"');
      EndsAreTerminators('\'');
      assert '"' !in ENDS && '\'' !in ENDS;
      hide QuoteAt, Escaped, IsTerminator;
    }
  }

  lemma {:induction false} PathEndsFrom(s: string, i: nat)
    requires i <= |s|
    ensures var n := i + PathLen(s[i..], StateAt(s, i));
      && n <= |s| && (n < |s| ==> EndsAt(s, n)) && forall j | i <= j < n :: !EndsAt(s, j)
    decreases |s| - i
  {
    if i < |s| {
      ReadAt(s, i);
      assert s[i..][0] == s[i] && s[i..][1..] == s[i + 1..];
      hide Read, EndsAt, StateAt;
      PathEndsFrom(s, i + 1);
    }
  }

  /** A path token ends at the first byte that ends it outside quotes and brackets, and so never
      inside them; without such a byte it is all that is left. */
  lemma TokenEndsOutside(s: string)
    requires s != "" && (First(s).Path? || First(s).Keyword?)
    ensures var n := |First(s).text|;
      && (n < |s| ==> s[n] in ENDS && QuoteAt(s, n).None? && Brackets(s, n) == 0 && Parens(s, n + 1) == 0)
      && forall j | 0 <= j < n :: !EndsAt(s, j)
  {
    PathEndsFrom(s, 0);
    assert s[0..] == s && StateAt(s, 0) == START;
    var n := |First(s).text|;
    assert n == PathLen(s, START);
    if n < |s| {
      EndsAreTerminators(s[n]);
    }
  }

  lemma {:induction false} LiteralEndsFrom(s: string, i: nat)
    requires 0 < i <= |s| && QuoteAt(s, i).Some?
    ensures var n := i + LiteralRest(s[i..], QuoteAt(s, i).value, Escaped(s, i));
      && n <= |s| && (QuoteAt(s, n).None? || n == |s|) && forall j | i <= j < n :: QuoteAt(s, j) == QuoteAt(s, i)
    decreases |s| - i
  {
    if i < |s| {
      assert s[i..][0] == s[i] && s[i..][1..] == s[i + 1..];
      if QuoteAt(s, i + 1).Some? {
        LiteralEndsFrom(s, i + 1);
      }
    }
  }

  /** A string literal ends just after the quote that closes the one it began with; escapes
      included, it has no other end. */
  lemma LiteralEndsWithItsQuote(s: string)
    requires s != "" && (s[0] == '"' || s[0] == '\'')
    ensures First(s).Literal?
    ensures var n := |First(s).text|;
      && (QuoteAt(s, n).None? || n == |s|) && forall j | 0 < j < n :: QuoteAt(s, j) == Some(s[0])
  {
    assert QuoteAt(s, 0) == None && QuoteAt(s, 1) == Some(s[0]) && !Escaped(s, 0) && !Escaped(s, 1);
    LiteralEndsFrom(s, 1);
  }

  /** A quoted text without quotes or backslashes is one literal, whatever follows. */
  lemma QuotedTextIsOneLiteral(body: string, t: string)
    requires forall i | 0 <= i < |body| :: body[i] != '"' && body[i] != '\\'
    ensures First("\"" + body + "\"" + t) == Literal("\"" + body + "\"") && Rest("\"" + body + "\"" + t) == t
  {
    var u := "\"" + body + "\"";
    PlainTextCloses(body);
    assert u[1..] == body + "\"";
    LiteralThenAny(u[1..], t, '"', false);
    assert (u + t)[1..] == u[1..] + t && (u + t)[..|u|] == u && (u + t)[|u|..] == t;
  }

  lemma {:induction false} PlainTextCloses(body: string)
    requires forall i | 0 <= i < |body| :: body[i] != '"' && body[i] != '\\'
    ensures Closes(body + "\"", '"', false)
  {
    if body != [] {
      assert (body + "\"")[1..] == body[1..] + "\"";
      PlainTextCloses(body[1..]);
    }
  }

  // ---------- a rule of the documentation ----------

  /** docs/rules.md:21 */
  const RULE := "action == \"opened\" && " + "pull_request.draft == false"

  lemma LexWord(u: string, t: string)
    requires DottedPath(u) && Ends(t) && u !in {"true", "false", "null", "contains", "like"}
    ensures Lex(u + t) == [Path(u)] + Lex(t)
  {
    DottedPathIsOneToken(u, t);
    assert u + t != [];
  }

  lemma LexSign(c: char, t: string)
    requires c in " =&"
    ensures Lex([c] + t) == [Other([c])] + Lex(t)
  {
    assert " =&" == [' ', '=', '&'];
    OtherByteIsKept(c, t);
  }

  function Signs(c: char): seq<Segment> { [Other(" "), Other([c]), Other([c]), Other(" ")] }

  lemma FourThen<T>(a: T, b: T, c: T, d: T, rest: seq<T>)
    ensures [a, b, c, d] + rest == [a] + ([b] + ([c] + ([d] + rest)))
  {
  }

  /** A sign between blanks. */
  lemma LexSigns(c: char, t: string)
    requires c in "=&"
    ensures Lex([' ', c, c, ' '] + t) == Signs(c) + Lex(t)
  {
    assert c in " =&" && ' ' in " =&" by { assert " =&" == [' ', '=', '&'] && "=&" == ['=', '&']; }
    hide *;
    LexSign(' ', t);
    LexSign(c, [' '] + t);
    LexSign(c, [c] + ([' '] + t));
    LexSign(' ', [c] + ([c] + ([' '] + t)));
    FourThen(' ', c, c, ' ', t);
    FourThen(Other(" "), Other([c]), Other([c]), Other(" "), Lex(t));
  }

  lemma LexFalse()
    ensures Lex("false") == [Keyword("false")]
  {
    KeywordIsKept("false", "");
    assert "false" + "" == "false";
    assert Lex("") == [];
  }

  lemma LexOpened(t: string)
    ensures Lex("\"opened\"" + t) == [Literal("\"opened\"")] + Lex(t)
  {
    QuotedTextIsOneLiteral("opened", t);
    assert "\"" + "opened" + "\"" == "\"opened\"";
    hide First, Rest;
  }

  lemma PathsOfRule(t: string)
    ensures DottedPath("action") && DottedPath("pull_request.draft") && Ends(" == " + t)
    ensures [' ', '=', '=', ' '] == " == " && [' ', '&', '&', ' '] == " && " && '=' in "=&" && '&' in "=&"
  {
    assert "=&" == ['=', '&'];
  }

  lemma LexRight()
    ensures Lex("pull_request.draft" + (" == " + "false")) == AFTER_AND
  {
    hide Lex, DottedPath, Ends;
    LexFalse();
    PathsOfRule("false");
    LexSigns('=', "false");
    LexWord("pull_request.draft", " == " + "false");
  }

  lemma LexLeft(t: string)
    ensures Lex("action" + (" == " + ("\"opened\"" + t))) == [Path("action")] + (Signs('=') + ([Literal("\"opened\"")] + Lex(t)))
  {
    hide *;
    LexOpened(t);
    PathsOfRule("\"opened\"" + t);
    LexSigns('=', "\"opened\"" + t);
    LexWord("action", " == " + ("\"opened\"" + t));
  }

  const AFTER_AND := [Path("pull_request.draft")] + (Signs('=') + [Keyword("false")])

  lemma LexOfRule()
    ensures Lex(RULE) == [Path("action")] + (Signs('=') + ([Literal("\"opened\"")] + (Signs('&') + AFTER_AND)))
  {
    hide *;
    var right := "pull_request.draft" + (" == " + "false");
    RuleInParts();
    PathsOfRule("");
    LexRight();
    LexSigns('&', right);
    LexLeft(" && " + right);
  }

  lemma RuleInParts()
    ensures RULE == "action" + (" == " + ("\"opened\"" + (" && " + ("pull_request.draft" + (" == " + "false")))))
  {
  }

  lemma FinishOne(out: string, m: map<string, string>, f: Segment, rest: seq<Segment>)
    requires f.text != [] && Named(rest)
    ensures Finish(out, m, [f] + rest) == Finish(out + Rename(f).text, Bind(m, f), rest)
  {
    assert ([f] + rest)[1..] == rest;
  }

  lemma FinishSigns(out: string, m: map<string, string>, c: char, rest: seq<Segment>)
    requires Named(rest)
    ensures Named(Signs(c) + rest) && Finish(out, m, Signs(c) + rest) == Finish(out + [' ', c, c, ' '], m, rest)
  {
    var blank, sign := Other(" "), Other([c]);
    FourThen(blank, sign, sign, blank, rest);
    var r1 := [blank] + rest;
    var r2 := [sign] + r1;
    var r3 := [sign] + r2;
    FinishOne(out, m, blank, r3);
    FinishOne(out + " ", m, sign, r2);
    FinishOne(out + " " + [c], m, sign, r1);
    FinishOne(out + " " + [c] + [c], m, blank, rest);
    assert out + " " + [c] + [c] + " " == out + [' ', c, c, ' '];
  }

  lemma NamesOfRule()
    ensures SafeVarName(PathOf("action")) == "v___action" && PathOf("action") == "$.action"
    ensures SafeVarName(PathOf("pull_request.draft")) == "v___pull_request_draft" && PathOf("pull_request.draft") == "$.pull_request.draft"
  {
    ActionName();
    DraftName();
  }

  lemma ActionName()
    ensures SafeVarName(PathOf("action")) == "v___action" && PathOf("action") == "$.action"
  {
    assert "$." + "action" == "$.action";
    SafeNameIs("$.action", "v___action");
  }

  lemma DraftName()
    ensures SafeVarName(PathOf("pull_request.draft")) == "v___pull_request_draft" && PathOf("pull_request.draft") == "$.pull_request.draft"
  {
    assert "$." + "pull_request.draft" == "$.pull_request.draft";
    SafeNameIs("$.pull_request.draft", "v___pull_request_draft");
  }

  /** A safe name is `v_` and the path with every byte but letters, digits and `_` made `_`. */
  lemma SafeNameIs(path: string, name: string)
    requires |name| == |path| + 2 && name[0] == 'v' && name[1] == '_'
    requires forall i | 0 <= i < |path| :: name[i + 2] == if Letter(path[i]) || '0' <= path[i] <= '9' then path[i] else '_'
    ensures SafeVarName(path) == name
  {
  }

  const OUTPUT := "v___action" + (" == " + ("\"opened\"" + (" && " + ("v___pull_request_draft" + (" == " + "false")))))

  const VARIABLES := map["v___action" := "$.action", "v___pull_request_draft" := "$.pull_request.draft"]

  lemma FinishTail(out: string, m: map<string, string>)
    ensures Named(AFTER_AND)
    ensures Finish(out, m, AFTER_AND) == (out + ("v___pull_request_draft" + (" == " + "false")), m["v___pull_request_draft" := "$.pull_request.draft"])
  {
    var last := [Keyword("false")];
    var m2 := m["v___pull_request_draft" := "$.pull_request.draft"];
    var out1 := out + "v___pull_request_draft";
    PathsOfRule("");
    assert [Keyword("false")] + [] == last && Finish(out1 + " == " + "false", m2, []) == (out1 + " == " + "false", m2);
    hide Finish, SafeVarName, PathOf;
    DraftName();
    FinishOne(out, m, Path("pull_request.draft"), Signs('=') + last);
    FinishSigns(out1, m2, '=', last);
    FinishOne(out1 + " == ", m2, Keyword("false"), []);
    Joined(out1, " == ", "false");
    Joined(out, "v___pull_request_draft", " == " + "false");
  }

  lemma Joined(a: string, b: string, c: string)
    ensures a + b + c == a + (b + c)
  {
  }

  lemma FinishRule()
    ensures var segs := [Path("action")] + (Signs('=') + ([Literal("\"opened\"")] + (Signs('&') + AFTER_AND)));
      Named(segs) && Finish("", map[], segs) == (OUTPUT, VARIABLES)
  {
    var quoted := [Literal("\"opened\"")] + (Signs('&') + AFTER_AND);
    var m1 := map["v___action" := "$.action"];
    var tail := "v___pull_request_draft" + (" == " + "false");
    PathsOfRule("");
    assert m1["v___pull_request_draft" := "$.pull_request.draft"] == VARIABLES;
    assert "" + "v___action" == "v___action";
    hide Finish, SafeVarName, PathOf;
    ActionName();
    FinishTail("v___action" + " == " + "\"opened\"" + " && ", m1);
    FinishSigns("v___action" + " == " + "\"opened\"", m1, '&', AFTER_AND);
    FinishOne("v___action" + " == ", m1, Literal("\"opened\""), Signs('&') + AFTER_AND);
    FinishSigns("v___action", m1, '=', quoted);
    FinishOne("", map[], Path("action"), Signs('=') + quoted);
    Joined("v___action" + " == " + "\"opened\"", " && ", tail);
    Joined("v___action" + " == ", "\"opened\"", " && " + tail);
    Joined("v___action", " == ", "\"opened\"" + (" && " + tail));
  }

  lemma OutputInWhole()
    ensures OUTPUT == "v___action == \"opened\" && " + "v___pull_request_draft == false"
  {
  }

  /** The first rule of the documentation: a dot is part of a path; a quoted text and a keyword stay. */
  lemma RuleOfTheDocumentation()
    ensures RULE == "action == \"opened\" && " + "pull_request.draft == false"
    ensures Rewritten(RULE) == "v___action == \"opened\" && " + "v___pull_request_draft == false"
    ensures Bindings(Lex(RULE)) == map["v___action" := "$.action", "v___pull_request_draft" := "$.pull_request.draft"]
  {
    assert RULE[0..] == RULE;
    assert FinishFrom("", map[], RULE, 0) == Finish("", map[], Lex(RULE));
    assert RULE == "action == \"opened\" && " + "pull_request.draft == false" && VARIABLES == map["v___action" := "$.action", "v___pull_request_draft" := "$.pull_request.draft"];
    hide *;
    OutputInWhole();
    LexOfRule();
    FinishAll(RULE);
    FinishRule();
  }
}
