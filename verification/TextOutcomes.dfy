/** The text functions of Go's library told byte by byte, and the examples of section 10 of
    RFC 4648 for the encoding that page tokens use. */
module TextOutcomes {
  import opened GoText
  import opened Base64
  import opened PageTokens

  // ---------- strings ----------

  /** An ASCII white-space byte: tab, line feed, vertical tab, form feed, return or space. */
  predicate Blank(c: char) { 9 <= c as int <= 13 || c as int == 32 }

  predicate AllBlank(s: string) { forall i | 0 <= i < |s| :: Blank(s[i]) }

  lemma {:induction false} LeadingBlanksGo(a: string, u: string)
    requires AllBlank(a)
    ensures TrimLeft(a + u) == TrimLeft(u)
  {
    if a == "" {
      assert a + u == u;
    } else {
      assert (a + u)[0] == a[0] && (a + u)[1..] == a[1..] + u;
      LeadingBlanksGo(a[1..], u);
    }
  }

  lemma {:induction false} TrailingBlanksGo(u: string, b: string)
    requires AllBlank(b)
    ensures TrimRight(u + b) == TrimRight(u)
  {
    if b == "" {
      assert u + b == u;
    } else {
      var n := |b| - 1;
      assert (u + b)[|u + b| - 1] == b[n] && (u + b)[..|u + b| - 1] == u + b[..n];
      TrailingBlanksGo(u, b[..n]);
    }
  }

  /** TrimSpace takes away the blanks before and after a text that begins and ends with visible ASCII
      characters, and nothing else; of a text of blanks nothing is left. */
  lemma OuterBlanksGo(a: string, u: string, b: string)
    requires AllBlank(a) && AllBlank(b) && (u == "" || ('!' <= u[0] <= '~' && '!' <= u[|u| - 1] <= '~'))
    ensures TrimSpace(a + (u + b)) == u
  {
    hide TrimLeft, TrimRight;
    assert TrimSpace(a + (u + b)) == TrimRight(TrimLeft(a + (u + b)));
    LeadingBlanksGo(a, u + b);
    TrailingBlanksGo(u, b);
    if u == "" {
      assert u + b == b && b + "" == b;
      LeadingBlanksGo(b, "");
      assert TrimLeft("") == "" && TrimRight("") == "";
    } else {
      VisibleEnds(u, b);
      assert TrimLeft(u + b) == u + b && TrimRight(u) == u;
    }
  }

  lemma VisibleEnds(u: string, b: string)
    requires u != "" && '!' <= u[0] <= '~' && '!' <= u[|u| - 1] <= '~'
    ensures SpaceAtHead(u + b) == 0 && SpaceAtTail(u) == 0
  {
    assert (u + b)[0] == u[0];
  }

  /** ToLower of an ASCII text: each capital letter becomes the small one, every other byte stays. */
  lemma CapitalsAreLowered(s: string, i: nat)
    requires i < |s|
    ensures |Lower(s)| == |s|
    ensures 'A' <= s[i] <= 'Z' ==> Lower(s)[i] as int - 'a' as int == s[i] as int - 'A' as int
    ensures !('A' <= s[i] <= 'Z') ==> Lower(s)[i] == s[i]
  {
  }

  /** Decimal notation, as strconv writes and reads it. */
  lemma NumbersAreDecimal()
    ensures FormatInt(0) == "0" && FormatInt(205) == "205" && FormatInt(-17) == "-17"
    ensures ParseInt("205") == Some(205) && ParseInt("-17") == Some(-17)
  {
    assert DigitsOf(20) == "20" && DigitsOf(205) == "205" && DigitsOf(17) == "17";
    hide DigitsOf, ParseInt;
    ParseFormatInt(205);
    ParseFormatInt(-17);
  }

  lemma WhatIsNoNumber()
    ensures ParseInt("+3") == Some(3) && ParseInt("") == None && ParseInt("-") == None && ParseInt("4x") == None
  {
    assert "+3"[1..] == "3" && ValueOf("3") == 3 by { assert "3"[..0] == ""; }
    assert "-"[1..] == "";
    assert !IsDigit("4x"[1]);
  }

  // ---------- base64 ----------

  /** Section 10 of RFC 4648. */
  lemma ExamplesOfTheStandard()
    ensures EncodeToString("") == "" && EncodeToString("f") == "Zg==" && EncodeToString("fo") == "Zm8="
    ensures EncodeToString("foo") == "Zm9v" && EncodeToString("foobar") == "Zm9vYmFy"
  {
    assert EncodeToString("f") == [Symbol(25), Symbol(32), '=', '='];
    assert EncodeToString("fo") == [Symbol(25), Symbol(38), Symbol(60), '='];
    assert EncodeToString("") == "";
    hide EncodeToString;
    SymbolsOfFoobar();
    GroupOfThree('f', 'o', 'o', "");
    GroupOfThree('f', 'o', 'o', "bar");
    GroupOfThree('b', 'a', 'r', "");
    hide Symbol0, Symbol1, Symbol2, Symbol3;
    assert ['f', 'o', 'o'] + "" == "foo" && ['f', 'o', 'o'] + "bar" == "foobar" && ['b', 'a', 'r'] + "" == "bar";
  }

  lemma SymbolsOfFoobar()
    ensures Symbol0('f') == 'Z' && Symbol1('f', 'o') == 'm' && Symbol2('o', 'o') == '9' && Symbol3('o') == 'v'
    ensures Symbol0('b') == 'Y' && Symbol1('b', 'a') == 'm' && Symbol2('a', 'r') == 'F' && Symbol3('r') == 'y'
  {
  }

  /** Three bytes that use the last two symbols of the alphabet only. */
  lemma LastSymbols(a: byte, b: byte, c: byte)
    ensures a as int == 0xFB && b as int == 0xEF && c as int == 0xBE ==> EncodeToString([a, b, c]) == "++++"
    ensures a as int == b as int == c as int == 0xFF ==> EncodeToString([a, b, c]) == "////"
  {
    GroupOfThree(a, b, c, "");
    assert [a, b, c] + "" == [a, b, c];
    assert EncodeToString("") == "";
    hide EncodeToString;
  }

  lemma GroupOfThree(a: byte, b: byte, c: byte, rest: string)
    requires IsBytes(rest)
    ensures IsBytes([a, b, c] + rest)
    ensures EncodeToString([a, b, c] + rest) == [Symbol0(a), Symbol1(a, b), Symbol2(b, c), Symbol3(c)] + EncodeToString(rest)
  {
    assert ([a, b, c] + rest)[3..] == rest;
  }

  // ---------- page tokens ----------

  predicate IsCursorText(raw: string) { |raw| >= 2 && raw[0] == 'c' && raw[1] == ':' }

  /** A token is read by what it encodes: a number that is not negative is an offset, `c:` begins a
      cursor, and anything else is refused. */
  lemma TokensAreReadByTheirText(raw: string)
    requires IsBytes(raw) && raw != ""
    ensures var token := EncodeToString(raw);
      && (IsCursorText(raw) ==> DecodePageToken(token) == Some(0))
      && (!IsCursorText(raw) ==>
            && DecodeCursorToken(token) == NoCursor
            && DecodePageToken(token) == match ParseInt(raw) { case Some(n) => if n >= 0 then Some(n) else None case None => None })
  {
    EncodedIsTrimmed(raw);
    RoundTrip(raw);
    hide TrimSpace, EncodeToString, DecodeString, ParseInt, FirstColon;
  }

  /** A cursor is `c:`, the instant in nanoseconds, a colon and the trimmed id; without an id or with
      an instant that is no number it is refused. */
  lemma CursorsAreReadByTheirText(number: string, id: string)
    requires IsBytes(number) && IsBytes(id) && ':' !in number
    ensures var raw := "c:" + (number + (":" + id));
      IsBytes(raw) && DecodeCursorToken(EncodeToString(raw)) ==
        if ParseInt(number).None? || TrimSpace(id) == "" then BadCursor else Cursor(ParseInt(number).value, TrimSpace(id))
  {
    var body := number + (":" + id);
    var raw := "c:" + body;
    assert raw[2..] == body;
    assert body == number + ":" + id;
    FirstColonAfter(number, id);
    assert body[..|number|] == number && body[|number| + 1..] == id;
    hide TrimSpace, EncodeToString, DecodeString, ParseInt, FirstColon;
    EncodedIsTrimmed(raw);
    RoundTrip(raw);
  }

  /** A cursor without its second colon is refused. */
  lemma CursorNeedsAnId(number: string)
    requires IsBytes(number) && ':' !in number
    ensures IsBytes("c:" + number) && DecodeCursorToken(EncodeToString("c:" + number)) == BadCursor
  {
    hide TrimSpace, EncodeToString, DecodeString, ParseInt;
    var raw := "c:" + number;
    assert raw[2..] == number && FirstColon(number) == |number|;
    EncodedIsTrimmed(raw);
    RoundTrip(raw);
  }
}
