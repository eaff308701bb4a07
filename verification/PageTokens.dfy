/** pkg/api/eventlogs_service.go: the page tokens of the event-log listing. A token is empty,
    an offset in base64, or a `c:<unix nanoseconds>:<id>` cursor in base64. */
module PageTokens {
  import opened GoText
  import opened Base64

  /** An instant: nanoseconds since the Unix epoch. Go's zero time is year 1. */
  type Time = int

  const ZERO_TIME: Time := -62135596800 * 1_000_000_000

  // time.Time.UnixNano: int64 nanoseconds, wrapping outside 1678..2262.
  function UnixNano(t: Time): (n: int)
    ensures MIN_INT64 <= n <= MAX_INT64
    ensures n == t <==> MIN_INT64 <= t <= MAX_INT64
  {
    (t - MIN_INT64) % 0x1_0000_0000_0000_0000 + MIN_INT64
  }

  predicate IsCursorPayload(raw: string) { |raw| >= 2 && raw[0] == 'c' && raw[1] == ':' }

  /** strings.SplitN(s, ":", 2) for a string that has a colon. */
  function FirstColon(s: string): (i: nat)
    ensures i <= |s|
    ensures i < |s| ==> s[i] == ':'
    ensures forall j | 0 <= j < i :: s[j] != ':'
  {
    if s == [] || s[0] == ':' then 0 else 1 + FirstColon(s[1..])
  }

  // decodePageToken: None is the "invalid page token" error.
  function DecodePageToken(token: string): (offset: Option<nat>)
  {
    var t := TrimSpace(token);
    if t == "" then Some(0)
    else match DecodeString(t)
      case None => None
      case Some(raw) =>
        if IsCursorPayload(raw) then Some(0)
        else match ParseInt(raw)
          case None => None
          case Some(n) => if n < 0 then None else Some(n)
  }

  datatype CursorResult = NoCursor | BadCursor | Cursor(createdAt: Time, id: string)

  // decodeEventLogCursorToken: BadCursor is the error return, which also reports a cursor.
  function DecodeCursorToken(token: string): CursorResult {
    var t := TrimSpace(token);
    if t == "" then NoCursor
    else match DecodeString(t)
      case None => NoCursor
      case Some(raw) =>
        if !IsCursorPayload(raw) then NoCursor
        else
          var body := raw[2..];
          var colon := FirstColon(body);
          if colon == |body| then BadCursor
          else match ParseInt(body[..colon])
            case None => BadCursor
            case Some(n) =>
              var id := TrimSpace(body[colon + 1..]);
              if id == "" then BadCursor else Cursor(n, id)
  }

  // encodeEventLogCursorToken
  function EncodeCursorToken(createdAt: Time, id: string): string
    requires IsBytes(id)
  {
    var id' := TrimSpace(id);
    if createdAt == ZERO_TIME || id' == "" then ""
    else
      TrimKeepsBytes(id); FormatIsBytes(UnixNano(createdAt));
      EncodeToString("c:" + FormatInt(UnixNano(createdAt)) + ":" + id')
  }

  // encodePageToken
  function EncodePageToken(offset: int): string {
    if offset <= 0 then "" else FormatIsBytes(offset); EncodeToString(FormatInt(offset))
  }

  lemma TrimKeepsBytes(s: string)
    requires IsBytes(s)
    ensures IsBytes(TrimSpace(s))
  {
    TrimLeftKeepsBytes(s);
  }

  lemma {:induction false} TrimLeftKeepsBytes(s: string)
    requires IsBytes(s)
    ensures IsBytes(TrimLeft(s))
    decreases |s|
  {
    if SpaceAtHead(s) != 0 {
      TrimLeftKeepsBytes(s[SpaceAtHead(s)..]);
    }
  }

  lemma FormatIsBytes(n: int)
    ensures IsBytes(FormatInt(n))
    ensures forall i | 0 <= i < |FormatInt(n)| :: FormatInt(n)[i] != ':' && FormatInt(n)[i] != 'c'
  {
    var d := DigitsOf(if n < 0 then -n else n);
    assert forall i | 0 <= i < |d| :: IsDigit(d[i]);
  }

  lemma EncodedIsTrimmed(b: string)
    requires IsBytes(b) && b != []
    ensures TrimSpace(EncodeToString(b)) == EncodeToString(b) != ""
  {
    hide EncodeToString, TrimSpace, Trimmed;
    EncodedIsPlain(b);
    PlainIsTrimmed(EncodeToString(b));
    TrimSpaceIsTrimmed(EncodeToString(b));
  }

  lemma PlainIsTrimmed(s: string)
    requires IsEncoded(s) && s != ""
    ensures Trimmed(s)
  {
    var first, last := s[0], s[|s| - 1];
    assert '+' <= first <= 'z' && '+' <= last <= 'z';
  }

  lemma FirstColonAfter(u: string, v: string)
    requires forall i | 0 <= i < |u| :: u[i] != ':'
    ensures FirstColon(u + ":" + v) == |u|
  {
    var s := u + ":" + v;
    assert s[|u|] == ':' && forall i | 0 <= i < |u| :: s[i] == u[i];
  }

  /** A cursor survives its token, ids with colons included: the id comes back trimmed, the
      instant comes back exactly when its nanoseconds fit 64 bits, and the token carries no
      offset. */
  lemma CursorTokenRoundTrip(createdAt: Time, id: string)
    requires IsBytes(id) && TrimSpace(id) != "" && createdAt != ZERO_TIME
    ensures DecodeCursorToken(EncodeCursorToken(createdAt, id)) == Cursor(UnixNano(createdAt), TrimSpace(id))
    ensures DecodeCursorToken(EncodeCursorToken(createdAt, id)) == Cursor(createdAt, TrimSpace(id))
            <==> MIN_INT64 <= createdAt <= MAX_INT64
    ensures DecodePageToken(EncodeCursorToken(createdAt, id)) == Some(0)
  {
    hide TrimSpace, EncodeToString, DecodeString, FormatInt, ParseInt, FirstColon;
    var digits, id' := FormatInt(UnixNano(createdAt)), TrimSpace(id);
    var raw := "c:" + digits + ":" + id';
    TrimKeepsBytes(id);
    FormatIsBytes(UnixNano(createdAt));
    EncodedIsTrimmed(raw);
    RoundTrip(raw);
    var body := raw[2..];
    assert body == digits + ":" + id';
    FirstColonAfter(digits, id');
    assert body[..|digits|] == digits && body[|digits| + 1..] == id';
    ParseFormatInt(UnixNano(createdAt));
    TrimSpaceIdempotent(id);
  }

  /** An offset survives its token, and the token is not a cursor. */
  lemma OffsetTokenRoundTrip(offset: int)
    requires 0 < offset <= MAX_INT64
    ensures DecodePageToken(EncodePageToken(offset)) == Some(offset)
    ensures DecodeCursorToken(EncodePageToken(offset)) == NoCursor
  {
    var raw := FormatInt(offset);
    FormatIsBytes(offset);
    assert raw[0] != 'c';
    EncodedIsTrimmed(raw);
    RoundTrip(raw);
    ParseFormatInt(offset);
  }

  /** No token is read both as a cursor and as an offset past the start. */
  lemma TokenIsCursorOrOffset(token: string)
    ensures DecodeCursorToken(token) == NoCursor || DecodePageToken(token) == Some(0)
    ensures DecodePageToken(token) == None ==> DecodeCursorToken(token) == NoCursor
  {
  }
}
