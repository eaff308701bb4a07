/** The slice of Go's `strings` and `strconv` packages that the repository relies on.
    A Go string is a sequence of bytes; here every byte is one `char` below 256. */
module GoText {

  datatype Option<+T> = None | Some(value: T)

  // ---------- strings.TrimSpace, on UTF-8 bytes ----------

  /** Length in bytes of the white-space rune at the head of `s`; 0 when there is none. */
  function SpaceAtHead(s: string): (n: nat)
    ensures n <= |s| && n <= 3
  {
    if |s| >= 1 && (9 <= s[0] as int <= 13 || s[0] == ' ') then 1
    else if |s| >= 2 && WideSpace2(s[0], s[1]) then 2
    else if |s| >= 3 && WideSpace3(s[0], s[1], s[2]) then 3
    else 0
  }

  /** Length in bytes of the white-space rune that ends `s`; 0 when there is none. */
  function SpaceAtTail(s: string): (n: nat)
    ensures n <= |s| && n <= 3
  {
    var k := |s|;
    if k >= 1 && (9 <= s[k - 1] as int <= 13 || s[k - 1] == ' ') then 1
    else if k >= 2 && WideSpace2(s[k - 2], s[k - 1]) then 2
    else if k >= 3 && WideSpace3(s[k - 3], s[k - 2], s[k - 1]) then 3
    else 0
  }

  // U+0085 and U+00A0
  predicate WideSpace2(a: char, b: char) {
    a as int == 0xC2 && (b as int == 0x85 || b as int == 0xA0)
  }

  // U+1680, U+2000 to U+200A, U+2028, U+2029, U+202F, U+205F and U+3000
  predicate WideSpace3(a: char, b: char, c: char) {
    var (x, y, z) := (a as int, b as int, c as int);
    || (x == 0xE1 && y == 0x9A && z == 0x80)
    || (x == 0xE2 && y == 0x80 && (0x80 <= z <= 0x8A || z == 0xA8 || z == 0xA9 || z == 0xAF))
    || (x == 0xE2 && y == 0x81 && z == 0x9F)
    || (x == 0xE3 && y == 0x80 && z == 0x80)
  }

  function TrimLeft(s: string): (t: string)
    ensures SpaceAtHead(t) == 0 && |t| <= |s|
    ensures SpaceAtHead(s) == 0 ==> t == s
    decreases |s|
  {
    if SpaceAtHead(s) == 0 then s else TrimLeft(s[SpaceAtHead(s)..])
  }

  function TrimRight(s: string): (t: string)
    ensures SpaceAtTail(t) == 0 && t <= s
    ensures SpaceAtTail(s) == 0 ==> t == s
    decreases |s|
  {
    if SpaceAtTail(s) == 0 then s else TrimRight(s[..|s| - SpaceAtTail(s)])
  }

  function TrimSpace(s: string): (t: string)
  {
    TrimRight(TrimLeft(s))
  }

  predicate Trimmed(s: string) {
    SpaceAtHead(s) == 0 && SpaceAtTail(s) == 0
  }

  lemma TrimSpaceIsTrimmed(s: string)
    ensures Trimmed(TrimSpace(s))
    ensures Trimmed(s) ==> TrimSpace(s) == s
  {
    var u := TrimLeft(s);
    var t := TrimRight(u);
    assert forall i | 0 <= i < |t| :: t[i] == u[i];
  }

  /** A text that starts and ends with visible ASCII characters. */
  lemma VisibleIsTrimmed(s: string)
    requires s != [] && '!' <= s[0] <= '~' && '!' <= s[|s| - 1] <= '~'
    ensures TrimSpace(s) == s
  {
    TrimSpaceIsTrimmed(s);
    hide TrimSpace;
    assert Trimmed(s);
  }

  lemma TrimSpaceIdempotent(s: string)
    ensures TrimSpace(TrimSpace(s)) == TrimSpace(s)
  {
    TrimSpaceIsTrimmed(s);
    TrimSpaceIsTrimmed(TrimSpace(s));
  }

  // ---------- strings.ToLower ----------

  // Driver names are ASCII words; ToLower leaves every other byte alone here.
  function Lower(s: string): (t: string)
    ensures |t| == |s|
  {
    seq(|s|, i requires 0 <= i < |s| => if 'A' <= s[i] <= 'Z' then (s[i] as int + 32) as char else s[i])
  }

  lemma LowerIdempotent(s: string)
    ensures Lower(Lower(s)) == Lower(s)
  {
  }

  // ---------- byte-wise string order ----------

  predicate Less(a: string, b: string) {
    b != [] && (a == [] || a[0] < b[0] || (a[0] == b[0] && Less(a[1..], b[1..])))
  }

  lemma {:induction false} LessIsStrictTotal(a: string, b: string)
    ensures !(Less(a, b) && Less(b, a))
    ensures a == b <==> !Less(a, b) && !Less(b, a)
  {
    if a != [] && b != [] {
      LessIsStrictTotal(a[1..], b[1..]);
      assert a == [a[0]] + a[1..] && b == [b[0]] + b[1..];
    }
  }

  lemma {:induction false} LessTransitive(a: string, b: string, c: string)
    requires Less(a, b) && Less(b, c)
    ensures Less(a, c)
  {
    if a != [] && a[0] == b[0] && b[0] == c[0] {
      LessTransitive(a[1..], b[1..], c[1..]);
    }
  }

  // ---------- strconv ----------

  const MAX_INT64: int := 0x7FFF_FFFF_FFFF_FFFF
  const MIN_INT64: int := -0x8000_0000_0000_0000

  predicate IsDigit(c: char) { '0' <= c <= '9' }

  predicate AllDigits(s: string) { forall i | 0 <= i < |s| :: IsDigit(s[i]) }

  function DigitsOf(n: nat): (s: string)
    ensures s != [] && AllDigits(s)
  {
    var last := [('0' as int + n % 10) as char];
    if n < 10 then last else DigitsOf(n / 10) + last
  }

  function ValueOf(s: string): nat
    requires AllDigits(s)
  {
    if s == [] then 0 else ValueOf(s[..|s| - 1]) * 10 + (s[|s| - 1] as int - '0' as int)
  }

  lemma {:induction false} DigitsRoundTrip(n: nat)
    ensures ValueOf(DigitsOf(n)) == n
  {
    var s := DigitsOf(n);
    if n < 10 {
      assert s[..|s| - 1] == [];
    } else {
      DigitsRoundTrip(n / 10);
      assert s[..|s| - 1] == DigitsOf(n / 10);
    }
  }

  lemma DigitsInjective(m: nat, n: nat)
    requires DigitsOf(m) == DigitsOf(n)
    ensures m == n
  {
    DigitsRoundTrip(m);
    DigitsRoundTrip(n);
  }

  // strconv.FormatInt(n, 10) and strconv.Itoa(n)
  function FormatInt(n: int): (s: string)
    ensures s != []
  {
    if n < 0 then "-" + DigitsOf(-n) else DigitsOf(n)
  }

  // strconv.ParseInt(s, 10, 64) and strconv.Atoi(s) on a 64-bit platform; None is the error return.
  function ParseInt(s: string): (r: Option<int>)
    ensures r.Some? ==> MIN_INT64 <= r.value <= MAX_INT64
  {
    if s == [] then None
    else
      var negative := s[0] == '-';
      var digits := if negative || s[0] == '+' then s[1..] else s;
      if digits == [] || !AllDigits(digits) then None
      else
        var v := (if negative then -1 else 1) * ValueOf(digits);
        if MIN_INT64 <= v <= MAX_INT64 then Some(v) else None
  }

  lemma ParseFormatInt(n: int)
    ensures ParseInt(FormatInt(n)) == if MIN_INT64 <= n <= MAX_INT64 then Some(n) else None
  {
    if n < 0 {
      DigitsRoundTrip(-n);
      assert FormatInt(n)[1..] == DigitsOf(-n);
    } else {
      DigitsRoundTrip(n);
      assert IsDigit(FormatInt(n)[0]);
    }
  }
}
