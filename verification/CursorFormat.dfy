/** The cursor texts character by character and byte by byte. */
module CursorFormat {
  import opened Options
  import opened CursorCodec

  // ---------------------------------------------------------------- base64url

  /** `n` characters in the order of their codes. */
  function From(first: char, n: nat): (s: string)
    requires first as int + n <= 128
    ensures |s| == n && forall i :: 0 <= i < n ==> s[i] as int == first as int + i
  {
    if n == 0 then "" else From(first, n - 1) + [(first as int + n - 1) as char]
  }

  const ALPHABET := From('A', 26) + From('a', 26) + From('0', 10) + "-_"
  const HEXADECIMAL := From('0', 10) + From('a', 6)

  lemma AlphabetHas64()
    ensures |ALPHABET| == 64 && |HEXADECIMAL| == 16
  {}

  lemma SymbolIsLetter(v: int)
    requires 0 <= v < 64
    ensures |ALPHABET| == 64 && Symbol(v) == ALPHABET[v]
  {}

  lemma DigitIsLetter(v: int)
    requires 0 <= v < 16
    ensures |HEXADECIMAL| == 16 && HexDigit(v) == HEXADECIMAL[v]
  {}

  /** A byte, or zero behind the end. */
  function At(b: seq<Byte>, i: nat): Byte {
    if i < |b| then b[i] else 0
  }

  /** Three bytes as one number. */
  function Group(b: seq<Byte>, g: nat): nat {
    At(b, 3 * g) * 65536 + At(b, 3 * g + 1) * 256 + At(b, 3 * g + 2)
  }

  /** One of the four six-bit pieces of three bytes, the highest first. */
  function SixBits(n: nat, q: nat): (v: nat)
    requires n < 16777216 && q < 4
    ensures v < 64
  {
    if q == 0 then n / 262144 else if q == 1 then n / 4096 % 64 else if q == 2 then n / 64 % 64 else n % 64
  }

  lemma FourPieces(b0: Byte, b1: Byte, b2: Byte)
    ensures var n := b0 * 65536 + b1 * 256 + b2;
            && n < 16777216 && First(b0) == SixBits(n, 0) && Second(b0, b1) == SixBits(n, 1)
            && Third(b1, b2) == SixBits(n, 2) && Fourth(b2) == SixBits(n, 3)
  {
    var n := b0 * 65536 + b1 * 256 + b2;
    assert n == First(b0) * 262144 + Second(b0, b1) * 4096 + Third(b1, b2) * 64 + Fourth(b2);
    Digits64(n, First(b0), Second(b0, b1), Third(b1, b2), Fourth(b2));
  }

  lemma Digits64(n: nat, d0: Six, d1: Six, d2: Six, d3: Six)
    requires n == d0 * 262144 + d1 * 4096 + d2 * 64 + d3
    ensures n / 262144 == d0 && n / 4096 % 64 == d1 && n / 64 % 64 == d2 && n % 64 == d3
  {
    assert n / 4096 == d0 * 64 + d1;
    assert n / 64 == d0 * 4096 + d1 * 64 + d2;
  }

  lemma GroupIsBounded(b: seq<Byte>, g: nat)
    ensures Group(b, g) < 16777216
  {}

  lemma LaterGroup(b: seq<Byte>, g: nat)
    requires |b| >= 3 && g >= 1
    ensures Group(b, g) == Group(b[3..], g - 1)
  {}

  /** Place `i` of a text holds the letter for six bits of the bytes, padded with zero bits at the end. */
  predicate Spells(c: char, b: seq<Byte>, i: nat) {
    Group(b, i / 4) < 16777216 && |ALPHABET| == 64 && c == ALPHABET[SixBits(Group(b, i / 4), i % 4)]
  }

  /** Every place of an encoded text holds the right letter, and there is no padding. */
  lemma {:induction false} EncodedLetters(b: seq<Byte>)
    ensures |Encode(b)| == (8 * |b| + 5) / 6
    ensures forall i :: 0 <= i < |Encode(b)| ==> Spells(Encode(b)[i], b, i)
  {
    hide Encode, Spells;
    FirstLetters(b);
    if |b| >= 3 {
      EncodedLetters(b[3..]);
      LaterText(b);
      forall i | 4 <= i < |Encode(b)| ensures Spells(Encode(b)[i], b, i) {
        LaterLetter(Encode(b)[i], b, i);
        assert Encode(b)[i] == Encode(b)[4..][i - 4];
      }
    }
  }

  lemma LaterText(b: seq<Byte>)
    requires |b| >= 3
    ensures |Encode(b)| == 4 + |Encode(b[3..])| && Encode(b)[4..] == Encode(b[3..])
  {
    hide Symbol, First, Second, Third, Fourth;
  }

  lemma LaterLetter(c: char, b: seq<Byte>, i: nat)
    requires |b| >= 3 && i >= 4
    ensures Spells(c, b, i) == Spells(c, b[3..], i - 4)
  {
    hide Group, SixBits, From;
    LaterGroup(b, i / 4);
    assert (i - 4) / 4 == i / 4 - 1 && (i - 4) % 4 == i % 4;
  }

  lemma FirstLetters(b: seq<Byte>)
    ensures forall i :: 0 <= i < 4 && i < |Encode(b)| ==> Spells(Encode(b)[i], b, i)
    ensures |b| < 3 ==> |Encode(b)| == (8 * |b| + 5) / 6
  {
    hide Symbol, First, Second, Third, Fourth, SixBits, From, Spells;
    var b0, b1, b2 := At(b, 0), At(b, 1), At(b, 2);
    FirstLetter(b);
    assert b != [] ==> Encode(b)[0] == Symbol(First(b0)) && Encode(b)[1] == Symbol(Second(b0, b1));
    assert |b| > 1 ==> Encode(b)[2] == Symbol(Third(b1, b2));
    assert |b| > 2 ==> Encode(b)[3] == Symbol(Fourth(b2));
  }

  lemma FirstLetter(b: seq<Byte>)
    ensures var b0, b1, b2 := At(b, 0), At(b, 1), At(b, 2);
            && Spells(Symbol(First(b0)), b, 0) && Spells(Symbol(Second(b0, b1)), b, 1)
            && Spells(Symbol(Third(b1, b2)), b, 2) && Spells(Symbol(Fourth(b2)), b, 3)
  {
    var b0, b1, b2 := At(b, 0), At(b, 1), At(b, 2);
    FourPieces(b0, b1, b2);
    hide Symbol, First, Second, Third, Fourth, SixBits, From;
    assert Group(b, 0) == b0 as int * 65536 + b1 as int * 256 + b2 as int;
    SymbolIsLetter(First(b0));
    SymbolIsLetter(Second(b0, b1));
    SymbolIsLetter(Third(b1, b2));
    SymbolIsLetter(Fourth(b2));
  }

  // ---------------------------------------------------------------- the bytes of a cursor

  /** Eight bytes as an unsigned number, the most significant first. */
  function Unsigned(b: seq<Byte>): nat
    requires |b| == 8
  {
    b[0] as int * 0x100_0000_0000_0000 + b[1] as int * 0x1_0000_0000_0000 + b[2] as int * 0x100_0000_0000
    + b[3] as int * 0x1_0000_0000 + b[4] as int * 0x100_0000 + b[5] as int * 0x1_0000 + b[6] as int * 0x100
    + b[7] as int
  }

  /** Two's complement. */
  predicate Writes(b: seq<Byte>, n: int) {
    |b| == 8 && Unsigned(b) == if n < 0 then n + 0x1_0000_0000_0000_0000 else n
  }

  lemma UnsignedIs(b: seq<Byte>)
    requires |b| == 8
    ensures Unsigned(b) == FromBigEndian(b)
  {
    var b7, b6, b5, b4, b3, b2, b1 := b[..7], b[..6], b[..5], b[..4], b[..3], b[..2], b[..1];
    assert b7[..6] == b6 && b6[..5] == b5 && b5[..4] == b4 && b4[..3] == b3 && b3[..2] == b2 && b2[..1] == b1;
    assert FromBigEndian(b1) == b[0];
    assert FromBigEndian(b2) == FromBigEndian(b1) * 256 + b[1];
    assert FromBigEndian(b3) == FromBigEndian(b2) * 256 + b[2];
    assert FromBigEndian(b4) == FromBigEndian(b3) * 256 + b[3];
    assert FromBigEndian(b5) == FromBigEndian(b4) * 256 + b[4];
    assert FromBigEndian(b6) == FromBigEndian(b5) * 256 + b[5];
    assert FromBigEndian(b7) == FromBigEndian(b6) * 256 + b[6];
  }

  lemma EightBytesWrite(n: int)
    requires IsInt64(n)
    ensures Writes(BigEndian(8, ToUnsigned(n)), n)
  {
    EightBytes();
    BigEndianRoundTrip(8, ToUnsigned(n));
    UnsignedIs(BigEndian(8, ToUnsigned(n)));
  }

  /** An encoded issue cursor holds version 1, the time, and the 32 bytes of the fingerprint. */
  lemma IssueCursorBytes(c: IssueCursor) returns (b: seq<Byte>)
    requires IsInt64(c.lastSeen) && |c.fingerprint| == 64 && HexDecode(c.fingerprint).Some?
    ensures IssueText(Some(c)) == Encode(b)
    ensures |b| == 41 && b[0] == 1 && Writes(b[1..9], c.lastSeen)
    ensures |HEXADECIMAL| == 16 && |Lower(c.fingerprint)| == 64
    ensures forall i :: 0 <= i < 32 ==>
              Lower(c.fingerprint)[2 * i] == HEXADECIMAL[b[9 + i] / 16]
              && Lower(c.fingerprint)[2 * i + 1] == HEXADECIMAL[b[9 + i] % 16]
  {
    hide Encode, HexDecode, HexEncode, BigEndian, Lower, Writes;
    HexRoundTripBack(c.fingerprint);
    var digest := HexDecode(c.fingerprint).value;
    var seen := BigEndian(8, ToUnsigned(c.lastSeen));
    EightBytesWrite(c.lastSeen);
    HexRoundTrip(digest);
    b := [ISSUE_CURSOR_VERSION] + seen + digest;
    assert b[1..9] == seen;
    AlphabetHas64();
    forall i | 0 <= i < 32
      ensures HexEncode(digest)[2 * i] == HEXADECIMAL[b[9 + i] / 16]
      ensures HexEncode(digest)[2 * i + 1] == HEXADECIMAL[b[9 + i] % 16]
    {
      HexLetters(digest, i);
    }
  }

  lemma HexLength(b: seq<Byte>)
    ensures |HexEncode(b)| == 2 * |b|
  {
    HexRoundTrip(b);
  }

  lemma HexFirst(b: seq<Byte>)
    requires b != []
    ensures |HEXADECIMAL| == 16
    ensures HexEncode(b) == [HEXADECIMAL[b[0] / 16], HEXADECIMAL[b[0] % 16]] + HexEncode(b[1..])
  {
    hide HexDigit;
    DigitIsLetter(b[0] / 16);
    DigitIsLetter(b[0] % 16);
  }

  lemma {:induction false} HexLetters(b: seq<Byte>, i: nat)
    requires i < |b|
    ensures |HEXADECIMAL| == 16 && |HexEncode(b)| == 2 * |b|
    ensures HexEncode(b)[2 * i] == HEXADECIMAL[b[i] / 16] && HexEncode(b)[2 * i + 1] == HEXADECIMAL[b[i] % 16]
  {
    hide HexEncode, From;
    HexLength(b);
    HexFirst(b);
    if i > 0 {
      HexLetters(b[1..], i - 1);
      var text, rest := HexEncode(b), HexEncode(b[1..]);
      assert text[2 * i] == rest[2 * (i - 1)] && text[2 * i + 1] == rest[2 * (i - 1) + 1];
    }
  }

  /** An encoded event cursor holds version 1, the time, and the sequence number. */
  lemma EventCursorBytes(c: EventCursor) returns (b: seq<Byte>)
    requires IsInt64(c.receivedAt) && IsInt64(c.sequence) && c.sequence >= 1
    ensures EventText(Some(c)) == Encode(b)
    ensures |b| == 17 && b[0] == 1 && Writes(b[1..9], c.receivedAt) && Writes(b[9..17], c.sequence)
  {
    hide Encode, BigEndian, Writes;
    var received, sequence := BigEndian(8, ToUnsigned(c.receivedAt)), BigEndian(8, ToUnsigned(c.sequence));
    EightBytesWrite(c.receivedAt);
    EightBytesWrite(c.sequence);
    b := [EVENT_CURSOR_VERSION] + received + sequence;
    assert b[1..9] == received && b[9..17] == sequence;
  }
}
