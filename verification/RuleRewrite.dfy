/** pkg/core/rules_rewrite.go: the byte scanner that turns a rule expression into a
    govaluate expression over safe variable names, and the lexer that specifies it. */
module RuleRewrite {
  import opened GoText

  // ---------- character classes ----------

  predicate IsIdentStart(ch: char) { 'a' <= ch <= 'z' || 'A' <= ch <= 'Z' || ch == '_' }

  predicate IsIdentPart(ch: char) { IsIdentStart(ch) || '0' <= ch <= '9' }

  predicate IsQuote(ch: char) { ch == '"' || ch == '\'' }

  predicate IsBlank(ch: char) { ch == ' ' || ch == '\t' || ch == '\n' || ch == '\r' }

  predicate IsTerminator(ch: char) {
    || IsBlank(ch)
    || ch == ',' || ch == ';'
    || ch == '+' || ch == '-' || ch == '*' || ch == '/' || ch == '%'
    || ch == '=' || ch == '!' || ch == '<' || ch == '>' || ch == '&' || ch == '|'
    || ch == ')'
  }

  predicate IsFunctionName(t: string) { t == "contains" || t == "like" }

  predicate IsKeyword(t: string) { t == "true" || t == "false" || t == "null" }

  // ---------- where lexemes end ----------

  /** Length of the identifier at the head of `s`. */
  function IdentLen(s: string): (n: nat)
    ensures n <= |s|
  {
    if s == [] || !IsIdentPart(s[0]) then 0 else 1 + IdentLen(s[1..])
  }

  predicate NextNonBlankIs(s: string, want: char) {
    s != [] && if IsBlank(s[0]) then NextNonBlankIs(s[1..], want) else s[0] == want
  }

  /** Blanks, then an opening parenthesis. */
  predicate OpensCall(s: string) { NextNonBlankIs(s, '(') }

  /** Length of what is left of a string literal, closing quote included. */
  function LiteralRest(s: string, quote: char, escaped: bool): (n: nat)
    ensures n <= |s|
  {
    if s == [] then 0
    else if escaped then 1 + LiteralRest(s[1..], quote, false)
    else if s[0] == quote then 1
    else 1 + LiteralRest(s[1..], quote, s[0] == '\\')
  }

  /** State of the path scanner between two bytes; `quote` is None outside quotes. */
  datatype Scan = Scan(bracket: nat, paren: nat, quote: Option<char>, escaped: bool)

  const START := Scan(0, 0, None, false)

  /** Reads one byte; None when the byte ends the path. */
  function Read(st: Scan, ch: char): Option<Scan> {
    if st.escaped then Some(st.(escaped := false))
    else if st.quote.Some? then
      Some(st.(quote := if ch == st.quote.value then None else st.quote, escaped := ch == '\\'))
    else if IsQuote(ch) then Some(st.(quote := Some(ch)))
    else
      var b := if ch == '[' then st.bracket + 1 else if ch == ']' && st.bracket > 0 then st.bracket - 1 else st.bracket;
      var p := if ch == '(' && st.bracket > 0 then st.paren + 1
               else if ch == ')' && st.paren > 0 then st.paren - 1 else st.paren;
      if b == 0 && p == 0 && IsTerminator(ch) then None else Some(Scan(b, p, None, false))
  }

  /** Length of the path token at the head of `s`: up to the first unquoted terminator
      outside brackets, or all of `s`. */
  function PathLen(s: string, st: Scan): (n: nat)
    ensures n <= |s|
  {
    if s == [] then 0
    else match Read(st, s[0])
      case None => 0
      case Some(next) => 1 + PathLen(s[1..], next)
  }

  lemma {:induction false} PathStopsAtTerminator(s: string, st: Scan)
    ensures PathLen(s, st) < |s| ==> IsTerminator(s[PathLen(s, st)])
  {
    if s != [] && Read(st, s[0]).Some? {
      PathStopsAtTerminator(s[1..], Read(st, s[0]).value);
    }
  }

  // ---------- the lexer ----------

  datatype Segment =
    | Literal(text: string)
    | Function(text: string)
    | Keyword(text: string)
    | Path(text: string)
    | Other(text: string)

  function First(s: string): (f: Segment)
    requires s != []
    ensures 0 < |f.text| <= |s| && f.text == s[..|f.text|]
  {
    var ch := s[0];
    assert ch == '$' || IsIdentStart(ch) ==> PathLen(s, START) > 0 by { ReadAtTopLevel(ch); }
    if IsQuote(ch) then Literal(s[..1 + LiteralRest(s[1..], ch, false)])
    else if ch == '$' || IsIdentStart(ch) then
      var ident := s[..IdentLen(s)];
      if IsIdentStart(ch) && IsFunctionName(ident) && OpensCall(s[|ident|..]) then Function(ident)
      else
        var token := s[..PathLen(s, START)];
        if IsKeyword(token) then Keyword(token) else Path(token)
    else Other([ch])
  }

  function Rest(s: string): (r: string)
    requires s != []
    ensures |r| < |s|
  {
    s[|First(s).text|..]
  }

  function Lex(s: string): (segs: seq<Segment>)
    ensures forall i | 0 <= i < |segs| :: segs[i].text != []
    decreases |s|
  {
    if s == [] then [] else [First(s)] + Lex(Rest(s))
  }

  function Texts(segs: seq<Segment>): string {
    if segs == [] then [] else segs[0].text + Texts(segs[1..])
  }

  // ---------- what the rewriter writes ----------

  function PathOf(token: string): (p: string)
    requires token != []
    ensures p != []
  {
    if token[0] == '$' then token else "$." + token
  }

  function SafeVarName(path: string): (v: string)
    ensures |v| == |path| + 2
  {
    "v_" + seq(|path|, i requires 0 <= i < |path| => if IsIdentPart(path[i]) then path[i] else '_')
  }

  function Rename(f: Segment): (g: Segment)
    requires f.text != []
    ensures g.text != []
  {
    if f.Path? then Path(SafeVarName(PathOf(f.text))) else f
  }

  function RenameAll(segs: seq<Segment>): (r: seq<Segment>)
    requires forall i | 0 <= i < |segs| :: segs[i].text != []
    ensures |r| == |segs|
    ensures forall i | 0 <= i < |segs| :: r[i] == Rename(segs[i])
  {
    if segs == [] then [] else [Rename(segs[0])] + RenameAll(segs[1..])
  }

  /** The variable map after all of `segs`: a later path overwrites an earlier one. */
  function Bindings(segs: seq<Segment>): (m: map<string, string>)
    requires forall i | 0 <= i < |segs| :: segs[i].text != []
  {
    if segs == [] then map[]
    else
      var m := Bindings(segs[..|segs| - 1]);
      var last := segs[|segs| - 1];
      if last.Path? then m[SafeVarName(PathOf(last.text)) := PathOf(last.text)] else m
  }

  function Rewritten(expr: string): string {
    Texts(RenameAll(Lex(expr)))
  }

  // ---------- lexing is lossless, and commutes with rewriting ----------

  lemma {:induction false} LexIsLossless(s: string)
    ensures Texts(Lex(s)) == s
    decreases |s|
  {
    if s != [] {
      var f, rest := First(s), Rest(s);
      LexIsLossless(rest);
      var tail := Lex(rest);
      assert ([f] + tail)[1..] == tail;
      assert Texts([f] + tail) == f.text + Texts(tail);
    }
  }

  lemma {:induction false} IdentThenStop(u: string, t: string)
    requires forall i | 0 <= i < |u| :: IsIdentPart(u[i])
    requires t == [] || !IsIdentPart(t[0])
    ensures IdentLen(u + t) == |u|
  {
    if u != [] {
      assert (u + t)[1..] == u[1..] + t;
      IdentThenStop(u[1..], t);
    } else {
      assert u + t == t;
    }
  }

  lemma ReadAtTopLevel(ch: char)
    ensures IsIdentPart(ch) || ch == '$' ==> Read(START, ch) == Some(START)
    ensures IsTerminator(ch) ==> Read(START, ch) == None
  {
  }

  lemma {:induction false} PathThenStop(u: string, t: string)
    requires forall i | 0 <= i < |u| :: IsIdentPart(u[i])
    requires t == [] || IsTerminator(t[0])
    ensures PathLen(u + t, START) == |u|
  {
    if u != [] {
      var s := u + t;
      assert s[0] == u[0] && s[1..] == u[1..] + t;
      ReadAtTopLevel(u[0]);
      PathThenStop(u[1..], t);
    } else {
      assert u + t == t;
      if t != [] { ReadAtTopLevel(t[0]); }
    }
  }

  predicate Closes(s: string, quote: char, escaped: bool) {
    s != [] && if escaped then Closes(s[1..], quote, false)
               else if s[0] == quote then |s| == 1
               else Closes(s[1..], quote, s[0] == '\\')
  }

  lemma {:induction false} LiteralThenAny(s: string, t: string, quote: char, escaped: bool)
    requires Closes(s, quote, escaped)
    ensures LiteralRest(s + t, quote, escaped) == |s|
  {
    assert (s + t)[1..] == s[1..] + t;
    if escaped || s[0] != quote {
      LiteralThenAny(s[1..], t, quote, !escaped && s[0] == '\\');
    }
  }

  lemma {:induction false} LiteralRunsOutOrCloses(s: string, quote: char, escaped: bool)
    ensures var n := LiteralRest(s, quote, escaped); n < |s| ==> Closes(s[..n], quote, escaped)
  {
    var n := LiteralRest(s, quote, escaped);
    if n < |s| {
      assert s[..n][1..] == s[1..][..n - 1];
      if escaped || s[0] != quote {
        LiteralRunsOutOrCloses(s[1..], quote, !escaped && s[0] == '\\');
      }
    }
  }

  /** `t` may stand where `rest` stood: it starts the same way as far as any scanner looks. */
  predicate Follows(rest: string, t: string) {
    && (t == [] <==> rest == [])
    && (rest != [] && IsTerminator(rest[0]) ==> t != [] && t[0] == rest[0])
    && (OpensCall(rest) ==> OpensCall(t))
  }

  lemma FirstOfLiteral(s: string, t: string)
    requires s != [] && IsQuote(s[0]) && Follows(Rest(s), t)
    ensures First(First(s).text + t) == First(s)
  {
    var u := First(s).text;
    LiteralRunsOutOrCloses(s[1..], s[0], false);
    assert (u + t)[1..] == u[1..] + t;
    if Rest(s) == [] {
      assert u == s && u + t == s;
    } else {
      assert u[1..] == s[1..][..LiteralRest(s[1..], s[0], false)];
      LiteralThenAny(u[1..], t, s[0], false);
      assert (u + t)[..|u|] == u;
    }
  }

  lemma FirstOfFunction(s: string, t: string)
    requires s != [] && First(s).Function? && Follows(Rest(s), t)
    ensures First(First(s).text + t) == First(s)
  {
    var u := First(s).text;
    IdentThenStop(u, t);
    assert (u + t)[..|u|] == u && (u + t)[|u|..] == t;
  }

  lemma WordIsFirst(u: string, t: string)
    requires u != [] && IsIdentStart(u[0]) && forall i | 0 <= i < |u| :: IsIdentPart(u[i])
    requires t == [] || IsTerminator(t[0])
    requires !IsFunctionName(u)
    ensures First(u + t) == if IsKeyword(u) then Keyword(u) else Path(u)
    ensures Rest(u + t) == t
  {
    PathThenStop(u, t);
    IdentThenStop(u, t);
    assert (u + t)[..|u|] == u && (u + t)[0] == u[0];
  }

  lemma FirstOfWord(s: string, t: string)
    requires s != [] && (First(s).Keyword? || First(s).Path?) && Follows(Rest(s), t)
    ensures First(Rename(First(s)).text + t) == Rename(First(s))
  {
    var f := First(s);
    var u := Rename(f).text;
    PathStopsAtTerminator(s, START);
    assert |f.text| < |s| ==> Rest(s)[0] == s[|f.text|];
    assert f.Path? ==> u[0] == 'v' && u[1] == '_';
    WordIsFirst(u, t);
  }

  lemma FirstOfRewritten(s: string, t: string)
    requires s != [] && Follows(Rest(s), t)
    ensures First(Rename(First(s)).text + t) == Rename(First(s))
    ensures Rest(Rename(First(s)).text + t) == t
  {
    match First(s)
    case Literal(_) => FirstOfLiteral(s, t);
    case Function(_) => FirstOfFunction(s, t);
    case Keyword(_) => FirstOfWord(s, t);
    case Path(_) => FirstOfWord(s, t);
    case Other(_) => assert ([s[0]] + t)[0] == s[0];
  }

  lemma RewrittenStep(s: string)
    requires s != []
    ensures Rewritten(s) == Rename(First(s)).text + Rewritten(Rest(s))
  {
    var f, tail := First(s), Lex(Rest(s));
    assert Lex(s)[0] == f && Lex(s)[1..] == tail;
    var r := RenameAll(Lex(s));
    assert r[1..] == RenameAll(tail);
  }

  lemma {:induction false} RewrittenFollows(s: string)
    ensures Follows(s, Rewritten(s))
    decreases |s|
  {
    if s != [] {
      RewrittenStep(s);
      RewrittenFollows(Rest(s));
      if IsTerminator(s[0]) || s[0] == '(' {
        assert First(s) == Other([s[0]]);
        assert Rest(s) == s[1..];
        assert Rewritten(s)[1..] == Rewritten(s[1..]);
      }
    }
  }

  /** Lexing the rewritten expression gives the source's segments, with each path token
      replaced by its safe name and everything else byte for byte. */
  lemma {:induction false} RewriteCommutesWithLex(s: string)
    ensures Lex(Rewritten(s)) == RenameAll(Lex(s))
    decreases |s|
  {
    if s != [] {
      var f, t := First(s), Rewritten(Rest(s));
      RewrittenStep(s);
      RewrittenFollows(Rest(s));
      FirstOfRewritten(s, t);
      RewriteCommutesWithLex(Rest(s));
      assert Lex(s)[0] == f && Lex(s)[1..] == Lex(Rest(s));
    }
  }

  // ---------- reading the variable map back ----------

  predicate Named(segs: seq<Segment>) {
    forall i | 0 <= i < |segs| :: segs[i].text != []
  }

  function NameAt(segs: seq<Segment>, i: nat): string
    requires i < |segs| && segs[i].text != []
  {
    SafeVarName(PathOf(segs[i].text))
  }

  function Concat(pieces: seq<string>): string {
    if pieces == [] then [] else pieces[0] + Concat(pieces[1..])
  }

  /** The expression with every path written out with its `$.` prefix. */
  function NormalPieces(segs: seq<Segment>): (r: seq<string>)
    requires Named(segs)
    ensures |r| == |segs|
    ensures forall i | 0 <= i < |segs| :: r[i] == if segs[i].Path? then PathOf(segs[i].text) else segs[i].text
  {
    seq(|segs|, i requires 0 <= i < |segs| => if segs[i].Path? then PathOf(segs[i].text) else segs[i].text)
  }

  /** Replaces every path token of `segs` by the path the variable map records for it. */
  function RestoredPieces(m: map<string, string>, segs: seq<Segment>): (r: seq<string>)
    ensures |r| == |segs|
  {
    seq(|segs|, i requires 0 <= i < |segs| =>
      if segs[i].Path? && segs[i].text in m then m[segs[i].text] else segs[i].text)
  }

  function Normalised(expr: string): string { Concat(NormalPieces(Lex(expr))) }

  function Restored(m: map<string, string>, out: string): string { Concat(RestoredPieces(m, Lex(out))) }

  /** Different paths of the expression have different safe names. */
  predicate NamesDistinct(segs: seq<Segment>)
    requires Named(segs)
  {
    forall i, j | 0 <= i < |segs| && 0 <= j < |segs| && segs[i].Path? && segs[j].Path? ::
      NameAt(segs, i) == NameAt(segs, j) ==> PathOf(segs[i].text) == PathOf(segs[j].text)
  }

  lemma BindingsSnoc(segs: seq<Segment>, f: Segment)
    requires Named(segs) && f.text != []
    ensures Bindings(segs + [f]) ==
            if f.Path? then Bindings(segs)[SafeVarName(PathOf(f.text)) := PathOf(f.text)] else Bindings(segs)
  {
    assert (segs + [f])[..|segs|] == segs;
  }

  /** The map has exactly the safe names of the expression's paths, and a name is bound to
      the last path that has it. */
  lemma {:induction false} BindingsAreLast(segs: seq<Segment>, name: string) returns (last: nat)
    requires Named(segs)
    ensures name in Bindings(segs) <==> exists i :: 0 <= i < |segs| && segs[i].Path? && NameAt(segs, i) == name
    ensures name in Bindings(segs) ==>
      && last < |segs| && segs[last].Path? && NameAt(segs, last) == name
      && Bindings(segs)[name] == PathOf(segs[last].text)
      && forall i | last < i < |segs| && segs[i].Path? :: NameAt(segs, i) != name
  {
    hide SafeVarName, PathOf;
    last := 0;
    if segs != [] {
      var n := |segs| - 1;
      if segs[n].Path? && NameAt(segs, n) == name {
        last := n;
      } else {
        last := BindingsAreLast(segs[..n], name);
      }
    }
  }

  lemma {:induction false} ConcatInjective(a: seq<string>, b: seq<string>)
    requires |a| == |b| && forall i | 0 <= i < |a| :: |a[i]| == |b[i]|
    requires Concat(a) == Concat(b)
    ensures a == b
  {
    if a != [] {
      assert a[0] == Concat(a)[..|a[0]|] == b[0];
      assert Concat(a)[|a[0]|..] == Concat(a[1..]) && Concat(b)[|a[0]|..] == Concat(b[1..]);
      ConcatInjective(a[1..], b[1..]);
    }
  }

  /** Substituting the variable map back into the rewritten expression gives the source with
      `$.` normalisation exactly when no two of its paths share a safe name. */
  lemma RestoreIffNamesDistinct(expr: string)
    ensures Restored(Bindings(Lex(expr)), Rewritten(expr)) == Normalised(expr) <==> NamesDistinct(Lex(expr))
  {
    RewriteCommutesWithLex(expr);
    PiecesMatchIffNamesDistinct(Lex(expr));
  }

  lemma PiecesMatchIffNamesDistinct(segs: seq<Segment>)
    requires Named(segs)
    ensures Concat(RestoredPieces(Bindings(segs), RenameAll(segs))) == Concat(NormalPieces(segs)) <==> NamesDistinct(segs)
  {
    var m := Bindings(segs);
    var restored, normal := RestoredPieces(m, RenameAll(segs)), NormalPieces(segs);
    forall i | 0 <= i < |segs|
      ensures |restored[i]| == |normal[i]|
      ensures NamesDistinct(segs) ==> restored[i] == normal[i]
      ensures segs[i].Path? ==> NameAt(segs, i) in m && restored[i] == m[NameAt(segs, i)]
    {
      if segs[i].Path? {
        var last := BindingsAreLast(segs, NameAt(segs, i));
      }
    }
    if Concat(restored) == Concat(normal) {
      ConcatInjective(restored, normal);
    } else {
      assert NamesDistinct(segs) ==> restored == normal;
    }
  }

  /** The names can clash: `a.b` and `a_b` are both `v___a_b`, so the map loses `$.a.b`. */
  lemma SafeNamesCanClash()
    ensures SafeVarName(PathOf("a.b")) == SafeVarName(PathOf("a_b")) == "v___a_b"
    ensures Bindings([Path("a.b"), Other("="), Path("a_b")]) == map["v___a_b" := "$.a_b"]
    ensures !NamesDistinct([Path("a.b"), Other("="), Path("a_b")])
  {
    var segs := [Path("a.b"), Other("="), Path("a_b")];
    assert SafeVarName("$.a.b") == SafeVarName("$.a_b") == "v___a_b";
    assert NameAt(segs, 0) == NameAt(segs, 2) && PathOf(segs[0].text)[3] != PathOf(segs[2].text)[3];
    var m0: map<string, string> := map[];
    BindingsSnoc([], segs[0]);
    BindingsSnoc([segs[0]], segs[1]);
    BindingsSnoc([segs[0], segs[1]], segs[2]);
    assert [] + [segs[0]] == [segs[0]] && [segs[0]] + [segs[1]] == [segs[0], segs[1]];
    assert [segs[0], segs[1]] + [segs[2]] == segs;
    assert m0["v___a_b" := "$.a.b"]["v___a_b" := "$.a_b"] == map["v___a_b" := "$.a_b"];
    assert PathOf("a.b") == "$.a.b" && PathOf("a_b") == "$.a_b";
    assert Bindings(segs) == Bindings([])["v___a_b" := "$.a.b"]["v___a_b" := "$.a_b"];
  }

  // ---------- the scanner, as the program runs it ----------

  method ParseIdentifier(expr: string, start: nat) returns (ident: string, next: nat)
    requires start <= |expr|
    ensures next == start + IdentLen(expr[start..]) && ident == expr[start..next]
  {
    var i := start;
    while i < |expr|
      invariant start <= i <= |expr|
      invariant i + IdentLen(expr[i..]) == start + IdentLen(expr[start..])
    {
      var ch := expr[i];
      if !IsIdentStart(ch) && !('0' <= ch <= '9') { break; }
      assert expr[i..][1..] == expr[i + 1..];
      i := i + 1;
    }
    return expr[start..i], i;
  }

  method NextNonSpaceIs(expr: string, start: nat, want: char) returns (r: bool)
    requires start <= |expr|
    ensures r <==> NextNonBlankIs(expr[start..], want)
  {
    var i := start;
    while i < |expr|
      invariant start <= i <= |expr|
      invariant NextNonBlankIs(expr[i..], want) == NextNonBlankIs(expr[start..], want)
    {
      if !IsBlank(expr[i]) { return expr[i] == want; }
      assert expr[i..][1..] == expr[i + 1..];
      i := i + 1;
    }
    return false;
  }

  lemma PathLenAt(s: string, i: nat, st: Scan)
    requires i < |s|
    ensures PathLen(s[i..], st) == match Read(st, s[i]) case None => 0 case Some(next) => 1 + PathLen(s[i + 1..], next)
  {
    assert s[i..][1..] == s[i + 1..];
  }

  method ParseJSONPathToken(expr: string, start: nat) returns (token: string, next: nat)
    requires start <= |expr|
    ensures next == start + PathLen(expr[start..], START) && token == expr[start..next]
  {
    var i := start;
    var bracketDepth, parenDepth: nat := 0, 0;
    var quote: Option<char> := None;
    while i < |expr|
      invariant start <= i <= |expr|
      invariant quote.Some? ==> IsQuote(quote.value)
      invariant i + PathLen(expr[i..], Scan(bracketDepth, parenDepth, quote, false)) == start + PathLen(expr[start..], START)
    {
      var ch := expr[i];
      ghost var st := Scan(bracketDepth, parenDepth, quote, false);
      PathLenAt(expr, i, st);
      if quote.Some? {
        if ch == '\\' && i + 1 < |expr| {
          assert Read(st, ch) == Some(st.(escaped := true));
          PathLenAt(expr, i + 1, st.(escaped := true));
          i := i + 2;
          continue;
        }
        assert ch == '\\' ==> expr[i + 1..] == [];
        if ch == quote.value { quote := None; }
        i := i + 1;
        continue;
      }
      if ch == '\'' || ch == '"' {
        quote := Some(ch);
        i := i + 1;
        continue;
      } else if ch == '[' {
        bracketDepth := bracketDepth + 1;
      } else if ch == ']' {
        if bracketDepth > 0 { bracketDepth := bracketDepth - 1; }
      } else if ch == '(' {
        if bracketDepth > 0 { parenDepth := parenDepth + 1; }
      } else if ch == ')' {
        if parenDepth > 0 { parenDepth := parenDepth - 1; }
      }
      if bracketDepth == 0 && parenDepth == 0 && IsTerminator(ch) { break; }
      i := i + 1;
    }
    return expr[start..i], i;
  }

  method BuildSafeVarName(token: string) returns (name: string)
    ensures name == SafeVarName(token)
  {
    name := "v_";
    for i := 0 to |token|
      invariant name == SafeVarName(token)[..i + 2]
    {
      var ch := token[i];
      if IsIdentStart(ch) || '0' <= ch <= '9' {
        name := name + [ch];
      } else {
        name := name + ['_'];
      }
    }
  }

  /** Output and map of a scan that has `segs` still to read. */
  function Finish(out: string, m: map<string, string>, segs: seq<Segment>): (string, map<string, string>)
    requires Named(segs)
    decreases |segs|
  {
    if segs == [] then (out, m) else Finish(out + Rename(segs[0]).text, Bind(m, segs[0]), segs[1..])
  }

  function Bind(m: map<string, string>, f: Segment): map<string, string>
    requires f.text != []
  {
    if f.Path? then m[SafeVarName(PathOf(f.text)) := PathOf(f.text)] else m
  }

  lemma {:induction false} FinishText(out: string, m: map<string, string>, segs: seq<Segment>)
    requires Named(segs)
    ensures Finish(out, m, segs).0 == out + Texts(RenameAll(segs))
    decreases |segs|
  {
    if segs != [] {
      var t := Rename(segs[0]).text;
      assert RenameAll(segs)[1..] == RenameAll(segs[1..]);
      hide Rename, Bind, RenameAll;
      FinishText(out + t, Bind(m, segs[0]), segs[1..]);
      assert (out + t) + Texts(RenameAll(segs[1..])) == out + (t + Texts(RenameAll(segs[1..])));
    }
  }

  lemma {:induction false} FinishMap(out: string, done: seq<Segment>, segs: seq<Segment>)
    requires Named(done) && Named(segs)
    ensures Finish(out, Bindings(done), segs).1 == Bindings(done + segs)
    decreases |segs|
  {
    if segs == [] {
      assert done + segs == done;
    } else {
      BindingsSnoc(done, segs[0]);
      FinishMap(out + Rename(segs[0]).text, done + [segs[0]], segs[1..]);
      assert done + [segs[0]] + segs[1..] == done + segs;
    }
  }

  function FinishFrom(out: string, m: map<string, string>, expr: string, i: nat): (string, map<string, string>)
    requires i <= |expr|
  {
    Finish(out, m, Lex(expr[i..]))
  }

  lemma FinishAtEnd(out: string, m: map<string, string>, expr: string)
    ensures FinishFrom(out, m, expr, |expr|) == (out, m)
  {
  }

  lemma FinishAll(expr: string)
    ensures FinishFrom("", map[], expr, 0) == (Rewritten(expr), Bindings(Lex(expr)))
  {
    hide First, Lex;
    assert expr[0..] == expr;
    FinishText("", map[], Lex(expr));
    FinishMap("", [], Lex(expr));
    assert [] + Lex(expr) == Lex(expr) && "" + Rewritten(expr) == Rewritten(expr);
    assert Bindings([]) == map[];
  }

  /** The scan reads the segment at `i`. */
  lemma ReadSegment(out: string, m: map<string, string>, expr: string, i: nat) returns (f: Segment, next: nat)
    requires i < |expr|
    ensures f == First(expr[i..]) && f.text != [] && next == i + |f.text| <= |expr| && f.text == expr[i..next]
    ensures FinishFrom(out, m, expr, i) == FinishFrom(out + Rename(f).text, Bind(m, f), expr, next)
  {
    var s := expr[i..];
    f, next := First(s), i + |First(s).text|;
    assert Rest(s) == expr[next..] && f.text == s[..|f.text|];
    assert Lex(s)[1..] == Lex(Rest(s));
  }

  lemma ReadLiteral(out: string, m: map<string, string>, expr: string, i: nat) returns (next: nat)
    requires i < |expr| && IsQuote(expr[i])
    ensures next == i + 1 + LiteralRest(expr[i + 1..], expr[i], false) <= |expr|
    ensures FinishFrom(out, m, expr, i) == FinishFrom(out + expr[i..next], m, expr, next)
  {
    var f;
    f, next := ReadSegment(out, m, expr, i);
    assert expr[i..][1..] == expr[i + 1..];
  }

  lemma ReadOther(out: string, m: map<string, string>, expr: string, i: nat)
    requires i < |expr| && !IsQuote(expr[i]) && expr[i] != '$' && !IsIdentStart(expr[i])
    ensures FinishFrom(out, m, expr, i) == FinishFrom(out + [expr[i]], m, expr, i + 1)
  {
    var f, next := ReadSegment(out, m, expr, i);
    assert f == Other([expr[i]]);
  }

  /** The segment at a `$` or an identifier, given the two ways of cutting it. */
  function WordAt(expr: string, i: nat, ident: string, token: string): Segment
    requires i + |ident| <= |expr| && i < |expr|
  {
    if IsIdentStart(expr[i]) && IsFunctionName(ident) && OpensCall(expr[i + |ident|..]) then Function(ident)
    else if IsKeyword(token) then Keyword(token)
    else Path(token)
  }

  lemma WordIsFirstAt(expr: string, i: nat, ident: string, token: string)
    requires i < |expr| && (expr[i] == '$' || IsIdentStart(expr[i]))
    requires i + IdentLen(expr[i..]) <= |expr| && ident == expr[i..i + IdentLen(expr[i..])]
    requires i + PathLen(expr[i..], START) <= |expr| && token == expr[i..i + PathLen(expr[i..], START)]
    ensures First(expr[i..]) == WordAt(expr, i, ident, token)
  {
    var s := expr[i..];
    assert s[IdentLen(s)..] == expr[i + |ident|..];
    assert s[..IdentLen(s)] == ident;
    assert s[..PathLen(s, START)] == token;
  }

  lemma ReadWord(out: string, m: map<string, string>, expr: string, i: nat, ident: string, token: string)
    returns (f: Segment)
    requires i < |expr| && (expr[i] == '$' || IsIdentStart(expr[i]))
    requires i + IdentLen(expr[i..]) <= |expr| && ident == expr[i..i + IdentLen(expr[i..])]
    requires i + PathLen(expr[i..], START) <= |expr| && token == expr[i..i + PathLen(expr[i..], START)]
    ensures f == WordAt(expr, i, ident, token) && f.text != [] && i + |f.text| <= |expr|
    ensures FinishFrom(out, m, expr, i) == FinishFrom(out + Rename(f).text, Bind(m, f), expr, i + |f.text|)
  {
    hide *;
    WordIsFirstAt(expr, i, ident, token);
    var next;
    f, next := ReadSegment(out, m, expr, i);
  }

  lemma LiteralRestAt(s: string, i: nat, quote: char, escaped: bool)
    requires i < |s|
    ensures LiteralRest(s[i..], quote, escaped) ==
            if !escaped && s[i] == quote then 1
            else 1 + LiteralRest(s[i + 1..], quote, !escaped && s[i] == '\\')
  {
    assert s[i..][1..] == s[i + 1..];
  }

  lemma CopyByte(out: string, expr: string, i: nat, end: nat)
    requires i < end <= |expr|
    ensures (out + [expr[i]]) + expr[i + 1..end] == out + expr[i..end]
  {
    assert expr[i..end] == [expr[i]] + expr[i + 1..end];
  }

  /** The branch of the scan loop that handles `$` and identifiers. */
  method RewriteWord(expr: string, i: nat, out0: string, varMap0: map<string, string>)
    returns (out: string, varMap: map<string, string>, next: nat)
    requires i < |expr| && (expr[i] == '$' || IsIdentStart(expr[i]))
    ensures i < next <= |expr|
    ensures FinishFrom(out, varMap, expr, next) == FinishFrom(out0, varMap0, expr, i)
  {
    hide First, Lex, Finish, FinishFrom, PathLen, IdentLen, NextNonBlankIs;
    ghost var end := i + PathLen(expr[i..], START);
    var ident;
    ident, next := ParseIdentifier(expr, i);
    ghost var f := ReadWord(out0, varMap0, expr, i, ident, expr[i..end]);
    if IsIdentStart(expr[i]) {
      var opens := NextNonSpaceIs(expr, next, '(');
      if IsFunctionName(ident) && opens {
        return out0 + ident, varMap0, next;
      }
    }
    var token;
    token, next := ParseJSONPathToken(expr, i);
    if IsKeyword(token) {
      return out0 + token, varMap0, next;
    }
    assert f == Path(token);
    var path := token;
    if token[0] != '$' {
      path := "$." + token;
    }
    var safe := BuildSafeVarName(path);
    return out0 + safe, varMap0[safe := path], next;
  }

  method RewriteExpression(expr: string) returns (out: string, varMap: map<string, string>)
    ensures out == Rewritten(expr)
    ensures varMap == Bindings(Lex(expr))
  {
    hide First, Lex, Finish, FinishFrom, LiteralRest, Rewritten, Bindings;
    out, varMap := "", map[];
    var inString, stringQuote := false, '\0';
    var i := 0;
    ghost var end := 0;   // where the string literal being copied ends
    ghost var goal := FinishFrom("", map[], expr, 0);
    assert out + expr[0..0] == "";
    while i < |expr|
      invariant i <= end <= |expr|
      invariant FinishFrom(out + expr[i..end], varMap, expr, end) == goal
      invariant if inString then end == i + LiteralRest(expr[i..], stringQuote, false) && IsQuote(stringQuote) else i == end
      decreases |expr| - i
    {
      var ch := expr[i];
      if inString {
        LiteralRestAt(expr, i, stringQuote, false);
        CopyByte(out, expr, i, end);
        out := out + [ch];
        if ch == '\\' && i + 1 < |expr| {
          LiteralRestAt(expr, i + 1, stringQuote, true);
          CopyByte(out, expr, i + 1, end);
          out := out + [expr[i + 1]];
          i := i + 2;
          continue;
        }
        assert ch == '\\' ==> expr[i + 1..] == [];
        if ch == stringQuote {
          inString := false;
        }
        i := i + 1;
        continue;
      }
      assert out + expr[i..end] == out;
      if ch == '"' || ch == '\'' {
        inString, stringQuote := true, ch;
        end := ReadLiteral(out, varMap, expr, i);
        CopyByte(out, expr, i, end);
        out := out + [ch];
        i := i + 1;
        continue;
      }
      if ch == '$' || IsIdentStart(ch) {
        out, varMap, i := RewriteWord(expr, i, out, varMap);
        end := i;
        assert out + expr[i..end] == out;
        continue;
      }
      ReadOther(out, varMap, expr, i);
      out := out + [ch];
      i := i + 1;
      end := i;
      assert out + expr[i..end] == out;
    }
    assert out + expr[i..end] == out;
    FinishAtEnd(out, varMap, expr);
    FinishAll(expr);
  }
}
