/** The opaque page cursors: big-endian numbers in base64url without padding (section 5 of RFC 4648). */
module CursorCodec {
  import opened Options

  type Byte = x: int | 0 <= x < 256

  // ---------------------------------------------------------------- base64url

  function Symbol(v: int): char
    requires 0 <= v < 64
  {
    if v < 26 then ('A' as int + v) as char
    else if v < 52 then ('a' as int + v - 26) as char
    else if v < 62 then ('0' as int + v - 52) as char
    else if v == 62 then '-' else '_'
  }

  function Value(c: char): (v: Option<int>)
    ensures v.Some? ==> 0 <= v.value < 64 && Symbol(v.value) == c
  {
    if 'A' <= c <= 'Z' then Some(c as int - 'A' as int)
    else if 'a' <= c <= 'z' then Some(c as int - 'a' as int + 26)
    else if '0' <= c <= '9' then Some(c as int - '0' as int + 52)
    else if c == '-' then Some(62) else if c == '_' then Some(63) else None
  }

  lemma SymbolHasValue(v: int)
    requires 0 <= v < 64
    ensures Value(Symbol(v)) == Some(v) && Symbol(v) != '\n' && Symbol(v) != '\r'
  {}

  // Four six-bit values out of three bytes, and back.

  function First(b0: Byte): (v: int)
    ensures 0 <= v < 64
  {
    b0 / 4
  }

  function Second(b0: Byte, b1: Byte): (v: int)
    ensures 0 <= v < 64
  {
    b0 % 4 * 16 + b1 / 16
  }

  function Third(b1: Byte, b2: Byte): (v: int)
    ensures 0 <= v < 64
  {
    b1 % 16 * 4 + b2 / 64
  }

  function Fourth(b2: Byte): (v: int)
    ensures 0 <= v < 64
  {
    b2 % 64
  }

  type Six = v: int | 0 <= v < 64

  function Byte0(c0: Six, c1: Six): Byte {
    c0 * 4 + c1 / 16
  }

  function Byte1(c1: Six, c2: Six): Byte {
    c1 % 16 * 16 + c2 / 4
  }

  function Byte2(c2: Six, c3: Six): Byte {
    c2 % 4 * 64 + c3
  }

  function Encode(b: seq<Byte>): string {
    if b == [] then ""
    else if |b| == 1 then [Symbol(First(b[0])), Symbol(Second(b[0], 0))]
    else if |b| == 2 then [Symbol(First(b[0])), Symbol(Second(b[0], b[1])), Symbol(Third(b[1], 0))]
    else [Symbol(First(b[0])), Symbol(Second(b[0], b[1])), Symbol(Third(b[1], b[2])), Symbol(Fourth(b[2]))]
         + Encode(b[3..])
  }

  /** The decoder skips line breaks wherever they stand. */
  function WithoutBreaks(text: string): string {
    if text == "" then ""
    else (if text[0] == '\n' || text[0] == '\r' then "" else [text[0]]) + WithoutBreaks(text[1..])
  }

  /** Decodes symbols only. The spare bits of a short last group are not looked at. */
  function DecodeSymbols(t: string): Option<seq<Byte>> {
    if t == "" then Some([])
    else if |t| == 1 then None
    else if Value(t[0]) == None || Value(t[1]) == None then None
    else
      var c0, c1 := Value(t[0]).value, Value(t[1]).value;
      if |t| == 2 then Some([Byte0(c0, c1)])
      else if Value(t[2]) == None then None
      else
        var c2 := Value(t[2]).value;
        if |t| == 3 then Some([Byte0(c0, c1), Byte1(c1, c2)])
        else if Value(t[3]) == None || DecodeSymbols(t[4..]) == None then None
        else Some([Byte0(c0, c1), Byte1(c1, c2), Byte2(c2, Value(t[3]).value)] + DecodeSymbols(t[4..]).value)
  }

  function Decode(text: string): Option<seq<Byte>> {
    DecodeSymbols(WithoutBreaks(text))
  }

  predicate Unbroken(text: string) {
    '\n' !in text && '\r' !in text
  }

  lemma {:induction false} UnbrokenStays(text: string)
    ensures Unbroken(WithoutBreaks(text))
    ensures Unbroken(text) <==> WithoutBreaks(text) == text
    ensures |WithoutBreaks(text)| <= |text|
  {
    if text == "" {
    } else {
      UnbrokenStays(text[1..]);
      assert text == [text[0]] + text[1..];
    }
  }

  lemma {:induction false} EncodeIsUnbroken(b: seq<Byte>)
    ensures Unbroken(Encode(b))
  {
    hide First, Second, Third, Fourth, Symbol;
    forall v | 0 <= v < 64 ensures Symbol(v) != '\n' && Symbol(v) != '\r' {
      SymbolHasValue(v);
    }
    if |b| > 2 {
      EncodeIsUnbroken(b[3..]);
    }
  }

  lemma ThreeBytes(b0: Byte, b1: Byte, b2: Byte)
    ensures Byte0(First(b0), Second(b0, b1)) == b0
    ensures Byte1(Second(b0, b1), Third(b1, b2)) == b1
    ensures Byte2(Third(b1, b2), Fourth(b2)) == b2
  {}

  lemma FourValues(c0: Six, c1: Six, c2: Six, c3: Six)
    ensures First(Byte0(c0, c1)) == c0 && Second(Byte0(c0, c1), Byte1(c1, c2)) == c1
    ensures Third(Byte1(c1, c2), Byte2(c2, c3)) == c2 && Fourth(Byte2(c2, c3)) == c3
  {}

  /** A short group gives back its last value exactly when the bits that no byte takes are zero. */
  lemma SpareFour(c0: Six, c1: Six)
    ensures First(Byte0(c0, c1)) == c0
    ensures Second(Byte0(c0, c1), 0) == c1 <==> c1 % 16 == 0
  {
    var q, r := c1 / 16, c1 % 16;
    assert c1 == q * 16 + r;
    assert Byte0(c0, c1) == c0 * 4 + q;
    assert (c0 * 4 + q) % 4 == q;
    assert Second(Byte0(c0, c1), 0) == q * 16;
  }

  lemma SpareTwo(c1: Six, c2: Six)
    ensures Third(Byte1(c1, c2), 0) == c2 <==> c2 % 4 == 0
  {
    var q, r := c2 / 4, c2 % 4;
    assert c2 == q * 4 + r;
    assert Byte1(c1, c2) == c1 % 16 * 16 + q;
    assert (c1 % 16 * 16 + q) % 16 == q;
    assert Third(Byte1(c1, c2), 0) == q * 4;
  }

  lemma {:induction false} SymbolsRoundTrip(b: seq<Byte>)
    ensures DecodeSymbols(Encode(b)) == Some(b)
  {
    hide Symbol, Value, First, Second, Third, Fourth, Byte0, Byte1, Byte2;
    forall v | 0 <= v < 64 ensures Value(Symbol(v)) == Some(v) {
      SymbolHasValue(v);
    }
    if |b| == 1 {
      ThreeBytes(b[0], 0, 0);
      assert b == [b[0]];
    } else if |b| == 2 {
      ThreeBytes(b[0], b[1], 0);
      assert b == [b[0], b[1]];
    } else if |b| > 2 {
      ThreeBytes(b[0], b[1], b[2]);
      SymbolsRoundTrip(b[3..]);
      assert Encode(b)[4..] == Encode(b[3..]);
      assert b == [b[0], b[1], b[2]] + b[3..];
    }
  }

  lemma RoundTrip(b: seq<Byte>)
    ensures Decode(Encode(b)) == Some(b)
  {
    EncodeIsUnbroken(b);
    UnbrokenStays(Encode(b));
    SymbolsRoundTrip(b);
  }

  /** The spare bits of a short last group are zero. */
  predicate NoSpareBits(t: string) {
    && (|t| % 4 == 2 ==> Value(t[|t| - 1]).Some? && Value(t[|t| - 1]).value % 16 == 0)
    && (|t| % 4 == 3 ==> Value(t[|t| - 1]).Some? && Value(t[|t| - 1]).value % 4 == 0)
  }

  lemma LongRoundTripBack(t: string)
    requires |t| >= 4 && DecodeSymbols(t).Some?
    ensures DecodeSymbols(t[4..]).Some?
    ensures Encode(DecodeSymbols(t).value) == t[..4] + Encode(DecodeSymbols(t[4..]).value)
  {
    hide Symbol, Value, First, Second, Third, Fourth, Byte0, Byte1, Byte2;
    var b, rest := DecodeSymbols(t).value, DecodeSymbols(t[4..]).value;
    assert b[3..] == rest;
    FourValues(Value(t[0]).value, Value(t[1]).value, Value(t[2]).value, Value(t[3]).value);
  }

  lemma SymbolIs(v: Six, c: char)
    requires Value(c).Some?
    ensures Symbol(v) == c <==> v == Value(c).value
  {
    SymbolHasValue(v);
  }

  lemma PairRoundTripBack(t: string)
    requires |t| == 2 && DecodeSymbols(t).Some?
    ensures Encode(DecodeSymbols(t).value) == t <==> NoSpareBits(t)
  {
    hide Symbol, Value, First, Second, Third, Fourth, Byte0, Byte1, Byte2;
    var c0, c1 := Value(t[0]).value, Value(t[1]).value;
    var b := DecodeSymbols(t).value;
    SpareFour(c0, c1);
    SymbolIs(First(b[0]), t[0]);
    SymbolIs(Second(b[0], 0), t[1]);
    assert t == [t[0], t[1]];
  }

  lemma TripleRoundTripBack(t: string)
    requires |t| == 3 && DecodeSymbols(t).Some?
    ensures Encode(DecodeSymbols(t).value) == t <==> NoSpareBits(t)
  {
    hide Symbol, Value, First, Second, Third, Fourth, Byte0, Byte1, Byte2;
    var c0, c1, c2 := Value(t[0]).value, Value(t[1]).value, Value(t[2]).value;
    var b := DecodeSymbols(t).value;
    FourValues(c0, c1, c2, 0);
    SpareTwo(c1, c2);
    SymbolIs(First(b[0]), t[0]);
    SymbolIs(Second(b[0], b[1]), t[1]);
    SymbolIs(Third(b[1], 0), t[2]);
    assert t == [t[0], t[1], t[2]];
  }

  lemma AtMostOne(t: string)
    requires |t| < 2 && DecodeSymbols(t).Some?
    ensures Encode(DecodeSymbols(t).value) == t && NoSpareBits(t)
  {}

  lemma {:induction false} SymbolsRoundTripBack(t: string)
    requires DecodeSymbols(t).Some?
    ensures Encode(DecodeSymbols(t).value) == t <==> NoSpareBits(t)
  {
    hide Encode, DecodeSymbols, Value;
    if |t| >= 4 {
      LongRoundTripBack(t);
      SymbolsRoundTripBack(t[4..]);
      assert t == t[..4] + t[4..];
      assert |t| > 4 ==> t[|t| - 1] == t[4..][|t| - 5];
      assert |t| % 4 == |t[4..]| % 4;
    } else if |t| == 3 {
      TripleRoundTripBack(t);
    } else if |t| == 2 {
      PairRoundTripBack(t);
    } else {
      AtMostOne(t);
    }
  }

  /** Only text without line breaks and without spare bits is what the encoder writes. */
  lemma RoundTripBackExactly(text: string)
    requires Decode(text).Some?
    ensures Encode(Decode(text).value) == text <==> Unbroken(text) && NoSpareBits(text)
  {
    UnbrokenStays(text);
    SymbolsRoundTripBack(WithoutBreaks(text));
    EncodeIsUnbroken(Decode(text).value);
  }

  // ---------------------------------------------------------------- hexadecimal

  function HexValue(c: char): (v: Option<int>)
    ensures v.Some? ==> 0 <= v.value < 16
  {
    if '0' <= c <= '9' then Some(c as int - '0' as int)
    else if 'a' <= c <= 'f' then Some(c as int - 'a' as int + 10)
    else if 'A' <= c <= 'F' then Some(c as int - 'A' as int + 10) else None
  }

  function HexDigit(v: int): char
    requires 0 <= v < 16
  {
    if v < 10 then ('0' as int + v) as char else ('a' as int + v - 10) as char
  }

  function HexDecode(s: string): Option<seq<Byte>> {
    if s == "" then Some([])
    else if |s| == 1 then None
    else
      match (HexValue(s[0]), HexValue(s[1]), HexDecode(s[2..]))
      case (Some(high), Some(low), Some(rest)) => Some([high * 16 + low] + rest)
      case _ => None
  }

  function HexEncode(b: seq<Byte>): string {
    if b == [] then "" else [HexDigit(b[0] / 16), HexDigit(b[0] % 16)] + HexEncode(b[1..])
  }

  function LowerChar(c: char): char {
    if 'A' <= c <= 'Z' then (c as int + 32) as char else c
  }

  function Lower(s: string): string {
    if s == "" then "" else [LowerChar(s[0])] + Lower(s[1..])
  }

  lemma HexDigitHasValue(v: int)
    requires 0 <= v < 16
    ensures HexValue(HexDigit(v)) == Some(v) && LowerChar(HexDigit(v)) == HexDigit(v)
  {}

  lemma HexValueHasDigit(c: char)
    requires HexValue(c).Some?
    ensures HexDigit(HexValue(c).value) == LowerChar(c)
  {}

  lemma LowerTwo(s: string)
    requires |s| >= 2
    ensures Lower(s) == [LowerChar(s[0]), LowerChar(s[1])] + Lower(s[2..])
  {
    assert s[1..][1..] == s[2..];
  }

  lemma {:induction false} HexRoundTrip(b: seq<Byte>)
    ensures HexDecode(HexEncode(b)) == Some(b) && |HexEncode(b)| == 2 * |b| && Lower(HexEncode(b)) == HexEncode(b)
  {
    hide HexValue, HexDigit, LowerChar;
    if b == [] {
    } else {
      HexRoundTrip(b[1..]);
      HexDigitHasValue(b[0] / 16);
      HexDigitHasValue(b[0] % 16);
      LowerTwo(HexEncode(b));
      assert b == [b[0]] + b[1..];
      assert HexEncode(b)[2..] == HexEncode(b[1..]);
    }
  }

  /** Reading hexadecimal digits and writing them again turns them into lower case. */
  lemma {:induction false} HexRoundTripBack(s: string)
    requires HexDecode(s).Some?
    ensures HexEncode(HexDecode(s).value) == Lower(s) && |s| == 2 * |HexDecode(s).value|
  {
    hide HexValue, HexDigit, LowerChar;
    if s == "" {
    } else {
      HexRoundTripBack(s[2..]);
      HexValueHasDigit(s[0]);
      HexValueHasDigit(s[1]);
      LowerTwo(s);
      var b := HexDecode(s).value;
      assert b[0] / 16 == HexValue(s[0]).value && b[0] % 16 == HexValue(s[1]).value;
      assert b[1..] == HexDecode(s[2..]).value;
    }
  }

  // ---------------------------------------------------------------- 64-bit numbers

  const TWO_TO_63 := 0x8000_0000_0000_0000
  const TWO_TO_64 := 0x1_0000_0000_0000_0000

  predicate IsInt64(n: int) {
    -TWO_TO_63 <= n < TWO_TO_63
  }

  function ToUnsigned(n: int): nat
    requires IsInt64(n)
  {
    if n < 0 then n + TWO_TO_64 else n
  }

  function ToSigned(u: int): int {
    if u >= TWO_TO_63 then u - TWO_TO_64 else u
  }

  function BigEndian(width: nat, u: nat): (b: seq<Byte>)
    ensures |b| == width
  {
    if width == 0 then [] else BigEndian(width - 1, u / 256) + [u % 256]
  }

  function FromBigEndian(b: seq<Byte>): nat {
    if b == [] then 0 else FromBigEndian(b[..|b| - 1]) * 256 + b[|b| - 1]
  }

  function Power256(width: nat): nat {
    if width == 0 then 1 else Power256(width - 1) * 256
  }

  lemma {:induction false} BigEndianRoundTrip(width: nat, u: nat)
    requires u < Power256(width)
    ensures FromBigEndian(BigEndian(width, u)) == u
  {
    if width == 0 {
    } else {
      BigEndianRoundTrip(width - 1, u / 256);
      assert BigEndian(width, u)[..width - 1] == BigEndian(width - 1, u / 256);
    }
  }

  lemma {:induction false} BigEndianRoundTripBack(b: seq<Byte>)
    ensures FromBigEndian(b) < Power256(|b|) && BigEndian(|b|, FromBigEndian(b)) == b
    decreases |b|
  {
    if b == [] {
    } else {
      BigEndianRoundTripBack(b[..|b| - 1]);
    }
  }

  lemma EightBytes()
    ensures Power256(8) == TWO_TO_64
  {
    assert Power256(4) == 0x1_0000_0000;
  }

  // ---------------------------------------------------------------- issue cursors

  datatype IssueCursor = IssueCursor(lastSeen: int, fingerprint: string)

  const ISSUE_CURSOR_VERSION: Byte := 1
  const ISSUE_CURSOR_SIZE := 41

  /** The encoded cursor; no cursor and a fingerprint that is not 32 bytes of hexadecimal give the empty string. */
  function IssueText(cursor: Option<IssueCursor>): string
    requires cursor.Some? ==> IsInt64(cursor.value.lastSeen)
  {
    if cursor == None then ""
    else match HexDecode(cursor.value.fingerprint)
      case None => ""
      case Some(digest) =>
        if |digest| != 32 then ""
        else Encode([ISSUE_CURSOR_VERSION] + BigEndian(8, ToUnsigned(cursor.value.lastSeen)) + digest)
  }

  method EncodeIssueCursor(cursor: Option<IssueCursor>) returns (text: string)
    requires cursor.Some? ==> IsInt64(cursor.value.lastSeen)
    ensures text == IssueText(cursor)
  {
    if cursor == None {
      return "";
    }
    var digest := HexDecode(cursor.value.fingerprint);
    if digest == None || |digest.value| != 32 {
      return "";
    }
    var encoded := new Byte[ISSUE_CURSOR_SIZE](_ => 0);
    encoded[0] := ISSUE_CURSOR_VERSION;
    PutUint64(encoded, 1, ToUnsigned(cursor.value.lastSeen));
    ghost var first := encoded[..9];
    assert first[..1] == [ISSUE_CURSOR_VERSION] && first[1..] == BigEndian(8, ToUnsigned(cursor.value.lastSeen));
    Copy(encoded, 9, digest.value);
    assert encoded[..] == encoded[..9] + encoded[9..];
    assert first == first[..1] + first[1..];
    text := Encode(encoded[..]);
  }

  /** PutUint64 into a slice of the buffer, most significant byte first. */
  method PutUint64(a: array<Byte>, at: nat, u: nat)
    requires at + 8 <= a.Length && u < TWO_TO_64
    modifies a
    ensures a[at..at + 8] == BigEndian(8, u)
    ensures a[..at] == old(a[..at]) && a[at + 8..] == old(a[at + 8..])
  {
    var left := u;
    for i := 8 downto 0
      invariant left >= 0 && a[..at] == old(a[..at]) && a[at + 8..] == old(a[at + 8..])
      invariant BigEndian(8, u) == BigEndian(i, left) + a[at + i..at + 8]
    {
      ghost var tail := a[at + i + 1..at + 8];
      a[at + i] := left % 256;
      assert a[at + i..at + 8] == [left % 256] + tail;
      left := left / 256;
    }
  }

  method Copy(a: array<Byte>, at: nat, b: seq<Byte>)
    requires at + |b| == a.Length
    modifies a
    ensures a[..at] == old(a[..at]) && a[at..] == b
  {
    for i := 0 to |b|
      invariant a[..at] == old(a[..at]) && a[at..at + i] == b[..i]
    {
      a[at + i] := b[i];
      assert a[at..at + i + 1] == a[at..at + i] + [b[i]];
    }
  }

  function DecodeIssueCursor(text: string): Option<IssueCursor> {
    match Decode(text)
    case None => None
    case Some(b) =>
      if |b| != ISSUE_CURSOR_SIZE || b[0] != ISSUE_CURSOR_VERSION then None
      else Some(IssueCursor(ToSigned(FromBigEndian(b[1..9])), HexEncode(b[9..])))
  }

  /** A cursor is encoded exactly when its fingerprint is 64 hexadecimal digits, of either case. */
  lemma IssueCursorIsEncoded(c: IssueCursor)
    requires IsInt64(c.lastSeen)
    ensures IssueText(Some(c)) != "" <==> |c.fingerprint| == 64 && HexDecode(c.fingerprint).Some?
  {
    if HexDecode(c.fingerprint).Some? {
      HexRoundTripBack(c.fingerprint);
    }
  }

  /**
   What comes back has the fingerprint in lower case, so the round trip is exact for lower-case cursors and no
   others.
   */
  lemma IssueCursorRoundTripExactly(c: IssueCursor)
    requires IsInt64(c.lastSeen) && IssueText(Some(c)) != ""
    ensures DecodeIssueCursor(IssueText(Some(c))) == Some(c.(fingerprint := Lower(c.fingerprint)))
    ensures DecodeIssueCursor(IssueText(Some(c))) == Some(c) <==> Lower(c.fingerprint) == c.fingerprint
  {
    hide Encode, Decode, BigEndian, FromBigEndian, HexDecode, HexEncode, Power256;
    var digest := HexDecode(c.fingerprint).value;
    var seen := BigEndian(8, ToUnsigned(c.lastSeen));
    var b := [ISSUE_CURSOR_VERSION] + seen + digest;
    RoundTrip(b);
    EightBytes();
    BigEndianRoundTrip(8, ToUnsigned(c.lastSeen));
    HexRoundTripBack(c.fingerprint);
    assert b[1..9] == seen && b[9..] == digest;
  }

  /**
   Every accepted text stands for a cursor that the encoder writes, and the text is that one exactly when it is
   plain.
   */
  lemma AcceptedIssueCursor(text: string)
    requires DecodeIssueCursor(text).Some?
    ensures var c := DecodeIssueCursor(text).value;
            && IsInt64(c.lastSeen) && Lower(c.fingerprint) == c.fingerprint && IssueText(Some(c)) != ""
            && DecodeIssueCursor(IssueText(Some(c))) == Some(c)
            && (IssueText(Some(c)) == text <==> Unbroken(text) && NoSpareBits(text))
  {
    hide Encode, Decode, BigEndian, FromBigEndian, HexDecode, HexEncode, Power256, Lower, NoSpareBits;
    var b := Decode(text).value;
    var c := DecodeIssueCursor(text).value;
    EightBytes();
    BigEndianRoundTripBack(b[1..9]);
    HexRoundTrip(b[9..]);
    RoundTripBackExactly(text);
    assert b == [b[0]] + b[1..9] + b[9..];
    assert IssueText(Some(c)) == Encode(b);
    IssueCursorIsEncoded(c);
    IssueCursorRoundTripExactly(c);
  }

  // ---------------------------------------------------------------- event cursors

  datatype EventCursor = EventCursor(receivedAt: int, sequence: int)

  const EVENT_CURSOR_VERSION: Byte := 1
  const EVENT_CURSOR_SIZE := 17

  function EventText(cursor: Option<EventCursor>): string
    requires cursor.Some? ==> IsInt64(cursor.value.receivedAt) && IsInt64(cursor.value.sequence)
  {
    if cursor == None || cursor.value.sequence < 1 then ""
    else Encode([EVENT_CURSOR_VERSION] + BigEndian(8, ToUnsigned(cursor.value.receivedAt))
                + BigEndian(8, ToUnsigned(cursor.value.sequence)))
  }

  method EncodeEventCursor(cursor: Option<EventCursor>) returns (text: string)
    requires cursor.Some? ==> IsInt64(cursor.value.receivedAt) && IsInt64(cursor.value.sequence)
    ensures text == EventText(cursor)
  {
    if cursor == None || cursor.value.sequence < 1 {
      return "";
    }
    var encoded := new Byte[EVENT_CURSOR_SIZE](_ => 0);
    encoded[0] := EVENT_CURSOR_VERSION;
    PutUint64(encoded, 1, ToUnsigned(cursor.value.receivedAt));
    ghost var first := encoded[..9];
    assert first[..1] == [EVENT_CURSOR_VERSION] && first[1..] == BigEndian(8, ToUnsigned(cursor.value.receivedAt));
    PutUint64(encoded, 9, ToUnsigned(cursor.value.sequence));
    assert encoded[..] == encoded[..9] + encoded[9..17];
    assert first == first[..1] + first[1..];
    text := Encode(encoded[..]);
  }

  function DecodeEventCursor(text: string): Option<EventCursor> {
    match Decode(text)
    case None => None
    case Some(b) =>
      if |b| != EVENT_CURSOR_SIZE || b[0] != EVENT_CURSOR_VERSION then None
      else
        var sequence := ToSigned(FromBigEndian(b[9..17]));
        if sequence < 1 then None else Some(EventCursor(ToSigned(FromBigEndian(b[1..9])), sequence))
  }

  /** Every positive sequence comes back, with its time; anything else is encoded as no cursor. */
  lemma EventCursorRoundTrip(c: EventCursor)
    requires IsInt64(c.receivedAt) && IsInt64(c.sequence)
    ensures if c.sequence >= 1 then DecodeEventCursor(EventText(Some(c))) == Some(c) else EventText(Some(c)) == ""
  {
    if c.sequence >= 1 {
      hide Encode, Decode, BigEndian, FromBigEndian, Power256;
      assert IsInt64(c.receivedAt);
      var received, sequence := BigEndian(8, ToUnsigned(c.receivedAt)), BigEndian(8, ToUnsigned(c.sequence));
      var b := [EVENT_CURSOR_VERSION] + received + sequence;
      RoundTrip(b);
      EightBytes();
      BigEndianRoundTrip(8, ToUnsigned(c.receivedAt));
      BigEndianRoundTrip(8, ToUnsigned(c.sequence));
      assert b[1..9] == received && b[9..17] == sequence;
    }
  }

  lemma AcceptedEventCursor(text: string)
    requires DecodeEventCursor(text).Some?
    ensures var c := DecodeEventCursor(text).value;
            && IsInt64(c.receivedAt) && IsInt64(c.sequence) && c.sequence >= 1
            && DecodeEventCursor(EventText(Some(c))) == Some(c)
            && (EventText(Some(c)) == text <==> Unbroken(text) && NoSpareBits(text))
  {
    hide Encode, Decode, BigEndian, FromBigEndian, Power256, NoSpareBits;
    var b := Decode(text).value;
    var c := DecodeEventCursor(text).value;
    EightBytes();
    BigEndianRoundTripBack(b[1..9]);
    BigEndianRoundTripBack(b[9..17]);
    RoundTripBackExactly(text);
    assert b == [b[0]] + b[1..9] + b[9..17];
    EventCursorRoundTrip(c);
  }
}
