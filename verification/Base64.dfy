/** encoding/base64.StdEncoding: the encoding of section 4 of RFC 4648, as Go decodes it
    (line breaks are skipped, left-over bits of the last group are not checked). */
module Base64 {
  import opened GoText

  predicate IsBytes(s: string) { forall i | 0 <= i < |s| :: s[i] as int < 256 }

  // Table 1 of RFC 4648.
  function Symbol(v: nat): (c: char)
    requires v < 64
    ensures IsSymbol(c) && ValueOfSymbol(c) == v
  {
    if v < 26 then ('A' as int + v) as char
    else if v < 52 then ('a' as int + (v - 26)) as char
    else if v < 62 then ('0' as int + (v - 52)) as char
    else if v == 62 then '+' else '/'
  }

  predicate IsSymbol(c: char) {
    'A' <= c <= 'Z' || 'a' <= c <= 'z' || '0' <= c <= '9' || c == '+' || c == '/'
  }

  function ValueOfSymbol(c: char): (v: nat)
    requires IsSymbol(c)
    ensures v < 64
  {
    if 'A' <= c <= 'Z' then c as int - 'A' as int
    else if 'a' <= c <= 'z' then c as int - 'a' as int + 26
    else if '0' <= c <= '9' then c as int - '0' as int + 52
    else if c == '+' then 62 else 63
  }

  type byte = c: char | c as int < 256 witness '\0'

  // The four symbols of three bytes, and the bytes of those.
  function Symbol0(b0: byte): (c: char) ensures IsSymbol(c) { Symbol(b0 as int / 4) }
  function Symbol1(b0: byte, b1: byte): (c: char) ensures IsSymbol(c) { Symbol(b0 as int % 4 * 16 + b1 as int / 16) }
  function Symbol2(b1: byte, b2: byte): (c: char) ensures IsSymbol(c) { Symbol(b1 as int % 16 * 4 + b2 as int / 64) }
  function Symbol3(b2: byte): (c: char) ensures IsSymbol(c) { Symbol(b2 as int % 64) }

  function Byte0(c0: char, c1: char): byte
    requires IsSymbol(c0) && IsSymbol(c1)
  {
    (ValueOfSymbol(c0) * 4 + ValueOfSymbol(c1) / 16) as char
  }

  function Byte1(c1: char, c2: char): byte
    requires IsSymbol(c1) && IsSymbol(c2)
  {
    (ValueOfSymbol(c1) % 16 * 16 + ValueOfSymbol(c2) / 4) as char
  }

  function Byte2(c2: char, c3: char): byte
    requires IsSymbol(c2) && IsSymbol(c3)
  {
    (ValueOfSymbol(c2) % 4 * 64 + ValueOfSymbol(c3)) as char
  }

  lemma BytesOfSymbols(b0: byte, b1: byte, b2: byte)
    ensures Byte0(Symbol0(b0), Symbol1(b0, b1)) == b0
    ensures Byte1(Symbol1(b0, b1), Symbol2(b1, b2)) == b1
    ensures Byte2(Symbol2(b1, b2), Symbol3(b2)) == b2
  {
    hide *;
    FirstByte(b0, b1);
    SecondByte(b0, b1, b2);
    ThirdByte(b1, b2);
  }

  lemma FirstByte(b0: byte, b1: byte)
    ensures Byte0(Symbol0(b0), Symbol1(b0, b1)) == b0
  {
    hide Symbol, ValueOfSymbol, IsSymbol;
  }

  lemma SecondByte(b0: byte, b1: byte, b2: byte)
    ensures Byte1(Symbol1(b0, b1), Symbol2(b1, b2)) == b1
  {
    hide Symbol, ValueOfSymbol, IsSymbol;
    LowBits16(b0 as int % 4, b1 as int / 16);
    HighBits4(b1 as int % 16, b2 as int / 64);
  }

  lemma LowBits16(x: nat, y: nat)
    requires y < 16
    ensures (x * 16 + y) % 16 == y
  {
  }

  lemma HighBits4(x: nat, y: nat)
    requires y < 4
    ensures (x * 4 + y) / 4 == x
  {
  }

  lemma ThirdByte(b1: byte, b2: byte)
    ensures Byte2(Symbol2(b1, b2), Symbol3(b2)) == b2
  {
    hide Symbol, ValueOfSymbol, IsSymbol;
  }

  function EncodeToString(b: string): (s: string)
    requires IsBytes(b)
  {
    if b == [] then []
    else if |b| == 1 then [Symbol0(b[0]), Symbol1(b[0], '\0'), '=', '=']
    else if |b| == 2 then [Symbol0(b[0]), Symbol1(b[0], b[1]), Symbol2(b[1], '\0'), '=']
    else [Symbol0(b[0]), Symbol1(b[0], b[1]), Symbol2(b[1], b[2]), Symbol3(b[2])] + EncodeToString(b[3..])
  }

  function SkipLineBreaks(s: string): string {
    if s == [] then []
    else if s[0] == '\r' || s[0] == '\n' then SkipLineBreaks(s[1..])
    else [s[0]] + SkipLineBreaks(s[1..])
  }

  function DecodeGroups(s: string): (b: Option<string>)
    ensures b.Some? ==> IsBytes(b.value)
  {
    if s == [] then Some([])
    else if |s| < 4 || !IsSymbol(s[0]) || !IsSymbol(s[1]) then None
    else
      var b0 := Byte0(s[0], s[1]);
      if s[2] == '=' then (if s[3] == '=' && |s| == 4 then Some([b0]) else None)
      else if !IsSymbol(s[2]) then None
      else
        var b1 := Byte1(s[1], s[2]);
        if s[3] == '=' then (if |s| == 4 then Some([b0, b1]) else None)
        else if !IsSymbol(s[3]) then None
        else
          match DecodeGroups(s[4..])
          case None => None
          case Some(rest) => Some([b0, b1, Byte2(s[2], s[3])] + rest)
  }

  function DecodeString(s: string): (b: Option<string>)
    ensures b.Some? ==> IsBytes(b.value)
  {
    DecodeGroups(SkipLineBreaks(s))
  }

  predicate IsEncoded(s: string) { forall i | 0 <= i < |s| :: IsSymbol(s[i]) || s[i] == '=' }

  lemma {:induction false} EncodedIsPlain(b: string)
    requires IsBytes(b)
    ensures IsEncoded(EncodeToString(b))
    ensures EncodeToString(b) == [] <==> b == []
  {
    if |b| > 2 {
      EncodedIsPlain(b[3..]);
    }
  }

  lemma {:induction false} PlainHasNoLineBreaks(s: string)
    requires IsEncoded(s)
    ensures SkipLineBreaks(s) == s
  {
    if s != [] {
      PlainHasNoLineBreaks(s[1..]);
    }
  }

  lemma {:induction false} DecodeEncodedGroups(b: string)
    requires IsBytes(b)
    ensures DecodeGroups(EncodeToString(b)) == Some(b)
  {
    hide Symbol0, Symbol1, Symbol2, Symbol3, Byte0, Byte1, Byte2;
    if |b| == 1 {
      BytesOfSymbols(b[0], '\0', '\0');
      assert b == [b[0]];
    } else if |b| == 2 {
      BytesOfSymbols(b[0], b[1], '\0');
      assert b == [b[0], b[1]];
    } else if |b| > 2 {
      BytesOfSymbols(b[0], b[1], b[2]);
      DecodeEncodedGroups(b[3..]);
      assert EncodeToString(b)[4..] == EncodeToString(b[3..]);
      assert b == [b[0], b[1], b[2]] + b[3..];
    }
  }

  /** RFC 4648 encoding is undone by decoding, for every byte string. */
  lemma RoundTrip(b: string)
    requires IsBytes(b)
    ensures DecodeString(EncodeToString(b)) == Some(b)
  {
    EncodedIsPlain(b);
    PlainHasNoLineBreaks(EncodeToString(b));
    DecodeEncodedGroups(b);
  }
}
