/** The hashed bytes written out, the white space that is trimmed, and the lines that are Firefox frames. */
module HashedFormats {
  import opened Options
  import opened Fingerprint
  import opened StackFrames

  // ---------------------------------------------------------------- the bytes

  /** Reads a length back: little-endian, seven bits a byte. */
  function LengthOf(bytes: string): nat {
    if bytes == "" then 0 else bytes[0] as int % 128 + 128 * LengthOf(bytes[1..])
  }

  /** A length is written in bytes that are at least 128 but for the last one, which ends it. */
  lemma {:induction false} LengthReads(n: nat)
    ensures var bytes := Uvarint(n);
            && LengthOf(bytes) == n
            && forall i :: 0 <= i < |bytes| ==> (bytes[i] as int < 128 <==> i == |bytes| - 1) && bytes[i] as int < 256
    decreases n
  {
    var bytes := Uvarint(n);
    if n < 128 {
      assert LengthOf(bytes[1..]) == 0;
    } else {
      LengthReads(n / 128);
      assert bytes[1..] == Uvarint(n / 128);
      forall i | 0 < i < |bytes| ensures bytes[i] == Uvarint(n / 128)[i - 1] {
        assert bytes[1..][i - 1] == bytes[i];
      }
    }
  }

  /** A part behind its length. */
  function Counted(part: string): string {
    Uvarint(|part|) + part
  }

  /** The input of the version 2 hash: the version, then everything that groups an event, each behind its length. */
  lemma HashedBytes(e: Event, frame: string)
    requires frame == FirstFrame(Lines(e.stack), "")
    ensures Preimage(Parts(e))
         == Counted("error-tracer-v2") + (Counted(e.kind) + (Counted(e.message) + (Counted(e.sourceURL)
            + (Counted(Decimal(e.line)) + (Counted(Decimal(e.column)) + (Counted(frame) + ""))))))
  {
    hide Uvarint, Decimal, FirstFrame, Preimage;
    var parts := Parts(e);
    NothingHashed();
    PreimageFirst(parts);
    PreimageFirst(parts[1..]);
    PreimageFirst(parts[2..]);
    PreimageFirst(parts[3..]);
    PreimageFirst(parts[4..]);
    PreimageFirst(parts[5..]);
    PreimageFirst(parts[6..]);
    assert parts[1..][1..] == parts[2..] && parts[2..][1..] == parts[3..] && parts[3..][1..] == parts[4..];
    assert parts[4..][1..] == parts[5..] && parts[5..][1..] == parts[6..] && parts[6..][1..] == [];
    forall i, rest: string | 0 <= i < 7
      ensures Uvarint(|parts[i]|) + (parts[i] + rest) == Counted(parts[i]) + rest {}
  }

  lemma NothingHashed()
    ensures Preimage([]) == ""
  {}

  /** The input of the version 1 hash: the same fields, with the first line of the stack, between NUL bytes. */
  lemma LegacyBytes(e: Event)
    ensures Join(LegacyParts(e))
         == "error-tracer-v1" + [NUL] + (e.kind + [NUL] + (e.message + [NUL] + (e.sourceURL + [NUL]
            + (Decimal(e.line) + [NUL] + (Decimal(e.column) + [NUL] + FirstLine(Lines(e.stack)))))))
  {
    hide Decimal, FirstLine, Join;
    var parts := LegacyParts(e);
    JoinFirst(parts);
    JoinFirst(parts[1..]);
    JoinFirst(parts[2..]);
    JoinFirst(parts[3..]);
    JoinFirst(parts[4..]);
    JoinFirst(parts[5..]);
    JoinFirst(parts[6..]);
    assert parts[1..][1..] == parts[2..] && parts[2..][1..] == parts[3..] && parts[3..][1..] == parts[4..];
    assert parts[4..][1..] == parts[5..] && parts[5..][1..] == parts[6..];
  }

  lemma JoinFirst(parts: seq<string>)
    requires parts != []
    ensures Join(parts) == if |parts| == 1 then parts[0] else parts[0] + [NUL] + Join(parts[1..])
  {}

  // ---------------------------------------------------------------- white space

  /** The code points that Unicode calls white space. */
  const WHITE_SPACE: set<nat> := {
    9, 10, 11, 12, 13, 32, 0x85, 0xA0, 0x1680, 0x2000, 0x2001, 0x2002, 0x2003, 0x2004, 0x2005, 0x2006, 0x2007, 0x2008,
    0x2009, 0x200A, 0x2028, 0x2029, 0x202F, 0x205F, 0x3000
  }

  function Continuation(code: nat): char {
    (0x80 + code % 64) as char
  }

  /** The bytes of a code point of the basic plane (section 3 of RFC 3629). */
  function Utf8(code: nat): string
    requires code < 0x10000
  {
    if code < 0x80 then [code as char]
    else if code < 0x800 then [(0xC0 + code / 64) as char, Continuation(code)]
    else [(0xE0 + code / 4096) as char, Continuation(code / 64), Continuation(code)]
  }

  /** What is trimmed is the white space of Unicode and nothing else. */
  lemma SpaceExactly(c: string)
    ensures IsSpace(c) <==> exists code :: code in WHITE_SPACE && c == Utf8(code)
  {
    if IsSpace(c) {
      var code := CodeOf(c);
      assert code in WHITE_SPACE && c == Utf8(code);
    }
    forall code | code in WHITE_SPACE ensures IsSpace(Utf8(code)) {
      WhiteIsSpace(code);
    }
  }

  lemma WhiteIsSpace(code: nat)
    requires code in WHITE_SPACE
    ensures IsSpace(Utf8(code))
  {}

  /** The code point of one to three bytes. */
  function CodePoint(c: string): nat
    requires 1 <= |c| <= 3
  {
    if |c| == 1 then c[0] as int
    else if |c| == 2 then c[0] as int % 32 * 64 + c[1] as int % 64
    else c[0] as int % 16 * 4096 + c[1] as int % 64 * 64 + c[2] as int % 64
  }

  lemma CodeOf(c: string) returns (code: nat)
    requires IsSpace(c)
    ensures code in WHITE_SPACE && c == Utf8(code)
  {
    code := CodePoint(c);
    if |c| == 3 {
      ThreeBytes(c);
    } else if |c| == 2 {
      assert c == [c[0], c[1]];
    } else {
      assert c == [c[0]];
    }
  }

  lemma ThreeBytes(c: string)
    requires IsSpace(c) && |c| == 3
    ensures CodePoint(c) in WHITE_SPACE && c == Utf8(CodePoint(c))
  {
    var code := CodePoint(c);
    assert c[0] as int == 0xE1 ==> code == 0x1680;
    assert c[0] as int == 0xE3 ==> code == 0x3000;
    assert c[0] as int == 0xE2 && c[1] as int == 0x81 ==> code == 0x205F;
    assert c[0] as int == 0xE2 && c[1] as int == 0x80 ==> code == 0x2000 + c[2] as int - 0x80;
    assert Utf8(code) == [(0xE0 + code / 4096) as char, Continuation(code / 64), Continuation(code)];
    assert c == [c[0], c[1], c[2]];
  }

  /** A text made of white space characters. */
  ghost predicate AllSpace(s: string)
    decreases |s|
  {
    s == "" || exists n :: 0 < n <= |s| && IsSpace(s[..n]) && AllSpace(s[n..])
  }

  lemma {:induction false} AllSpaceConcat(a: string, b: string)
    requires AllSpace(a) && AllSpace(b)
    ensures AllSpace(a + b)
    decreases |a|
  {
    hide IsSpace;
    if a == "" {
      assert a + b == b;
    } else {
      var n :| 0 < n <= |a| && IsSpace(a[..n]) && AllSpace(a[n..]);
      AllSpaceConcat(a[n..], b);
      assert (a + b)[..n] == a[..n] && (a + b)[n..] == a[n..] + b;
    }
  }

  lemma NoSpaceIsAllSpace()
    ensures AllSpace("")
  {}

  lemma OneSpace(s: string)
    requires IsSpace(s)
    ensures AllSpace(s)
  {
    hide IsSpace;
    SpaceIsSome(s);
    assert s[..|s|] == s && s[|s|..] == "";
    assert AllSpace(s[|s|..]);
  }

  lemma SpaceIsSome(s: string)
    requires IsSpace(s)
    ensures s != ""
  {}

  lemma {:induction false} TrimLeftTakesSpace(s: string) returns (a: string)
    ensures AllSpace(a) && s == a + TrimLeft(s) && SpaceAhead(TrimLeft(s)) == 0
    decreases |s|
  {
    hide IsSpace, SpaceAhead, AllSpace;
    var n := SpaceAhead(s);
    NoSpaceIsAllSpace();
    if n == 0 {
      a := "";
      assert s == a + s;
    } else {
      var rest := TrimLeftTakesSpace(s[n..]);
      OneSpace(s[..n]);
      AllSpaceConcat(s[..n], rest);
      a := s[..n] + rest;
      assert s == s[..n] + s[n..];
    }
  }

  lemma {:induction false} TrimRightTakesSpace(s: string) returns (b: string)
    ensures AllSpace(b) && s == TrimRight(s) + b && SpaceBehind(TrimRight(s)) == 0
    decreases |s|
  {
    hide IsSpace, SpaceBehind, AllSpace;
    var n := SpaceBehind(s);
    NoSpaceIsAllSpace();
    if n == 0 {
      b := "";
      assert s == s + b;
    } else {
      var front := TrimRightTakesSpace(s[..|s| - n]);
      OneSpace(s[|s| - n..]);
      AllSpaceConcat(front, s[|s| - n..]);
      b := front + s[|s| - n..];
      assert s == s[..|s| - n] + s[|s| - n..];
    }
  }

  /** Trimming takes white space off both ends until there is none left. */
  lemma TrimMeans(s: string) returns (a: string, b: string)
    ensures AllSpace(a) && AllSpace(b) && s == a + Trim(s) + b
    ensures forall n :: 0 < n <= |Trim(s)| ==> !IsSpace(Trim(s)[..n]) && !IsSpace(Trim(s)[|Trim(s)| - n..])
  {
    hide IsSpace, SpaceBehind, SpaceAhead, AllSpace;
    a := TrimLeftTakesSpace(s);
    b := TrimRightTakesSpace(TrimLeft(s));
    var t := Trim(s);
    assert s == a + (t + b);
    forall n | 0 < n <= |t| ensures !IsSpace(t[..n]) && !IsSpace(t[|t| - n..]) {
      assert t[..n] == TrimLeft(s)[..n];
      NoSpaceAtStart(TrimLeft(s), n);
      NoSpaceAtEnd(t, n);
    }
  }

  lemma NoSpaceAtStart(s: string, n: nat)
    requires SpaceAhead(s) == 0 && 0 < n <= |s|
    ensures !IsSpace(s[..n])
  {
    SpacesAreShort(s[..n]);
    hide IsSpace;
  }

  lemma NoSpaceAtEnd(s: string, n: nat)
    requires SpaceBehind(s) == 0 && 0 < n <= |s|
    ensures !IsSpace(s[|s| - n..])
  {
    SpacesAreShort(s[|s| - n..]);
    hide IsSpace;
    if n <= 3 {
      NoneAtEnd(s, n);
    }
  }

  lemma SpacesAreShort(s: string)
    ensures IsSpace(s) ==> 1 <= |s| <= 3
  {}

  // ---------------------------------------------------------------- frames

  /** A V8 frame without a function name may stand in brackets. */
  lemma AnonymousFrame(clean: string, position: string)
    requires IsPosition(position)
    ensures IsV8Frame("at (" + (clean + position) + ")")
    ensures CanonicalFrame("at (" + (clean + position) + ")") == "at (" + CanonicalLocation(clean + position) + ")"
  {
    hide IsPosition, FindPosition, Trim, IndexOf, CanonicalLocation;
    var location := clean + position;
    var line := "at (" + location + ")";
    var inner := "(" + location + ")";
    assert line == "at " + inner && line[3..] == inner;
    BracketsStay(inner);
    assert inner[1..|inner| - 1] == location && inner[..1] == "(";
    assert SplitV8(line) == V8Frame("at " + "(", location, ")");
    PositionEnds(clean, position);
    assert "at " + "(" == "at (";
  }

  lemma BracketsStay(s: string)
    requires |s| >= 2 && s[0] == '(' && s[|s| - 1] == ')'
    ensures Trim(s) == s
  {}

  /** The white space that no Firefox frame holds: tab, line feed, form feed, carriage return and space. */
  const BLANKS: set<int> := {9, 10, 12, 13, 32}

  /** A name without colon, `@`, something, and a position, all without white space. */
  predicate FirefoxParts(line: string, name: string, location: string, position: string) {
    && line == name + "@" + location + position && location != "" && IsPosition(position)
    && ':' !in name && '@' !in name
  }

  lemma FirefoxFrameExactly(line: string)
    ensures IsFirefoxFrame(line) <==>
              && (forall i :: 0 <= i < |line| ==> line[i] as int !in BLANKS)
              && exists name, location, position :: FirefoxParts(line, name, location, position)
  {
    hide IsPosition, IndexFrom;
    assert forall c :: IsBlank(c) <==> c as int in BLANKS;
    hide IsBlank;
    if IsFirefoxFrame(line) {
      FirefoxHasParts(line);
    }
    if name, location, position :| FirefoxParts(line, name, location, position) {
      FirstAt(line, name, location + position);
      var k := |name| + 1 + |location|;
      assert line[k..] == position && line[..|name|] == name;
      PositionNonEmpty(position);
    }
  }

  lemma FirstAt(line: string, name: string, rest: string)
    requires line == name + "@" + rest && '@' !in name
    ensures IndexOf(line, "@") == Some(|name|)
  {
    assert line[|name|..] == "@" + rest;
    forall j | 0 <= j < |name| ensures !("@" <= line[j..]) {
      assert line[j..][0] == name[j];
    }
    var found := IndexFrom(line, "@", 0);
    assert "@" <= line[|name|..];
    assert found.Some? && found.value <= |name|;
  }

  lemma FirefoxHasParts(line: string)
    requires IsFirefoxFrame(line)
    ensures exists name, location, position :: FirefoxParts(line, name, location, position)
  {
    hide IsPosition, IndexFrom, IsBlank;
    var at := IndexOf(line, "@").value;
    var k :| at + 1 < k < |line| && IsPosition(line[k..]);
    var name, location, position := line[..at], line[at + 1..k], line[k..];
    assert "@" <= line[at..];
    assert line[at..][0] == line[at];
    forall j | 0 <= j < at ensures line[j] != '@' {
      assert !("@" <= line[j..]);
      assert line[j..][0] == line[j];
      assert line[j..][..1] == [line[j]];
    }
    assert line == name + "@" + location + position;
    assert FirefoxParts(line, name, location, position);
  }
}
