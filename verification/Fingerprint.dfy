/**
 What is hashed to group an event, and how a stack frame is made canonical.

 A string is a sequence of bytes, each written as one character. SHA-256 is not modelled: the lemmas are about
 the bytes fed to it.
 */
module Fingerprint {
  import opened Options

  // ---------------------------------------------------------------- numbers as bytes

  /** The variable-length encoding of a length: seven bits a byte, the high bit saying that more follow. */
  function Uvarint(n: nat): (bytes: string)
    ensures bytes != []
  {
    if n < 128 then [n as char] else [(n % 128 + 128) as char] + Uvarint(n / 128)
  }

  function Digit(d: nat): char
    requires d < 10
  {
    (d + 48) as char
  }

  predicate IsDigit(c: char) {
    '0' <= c <= '9'
  }

  function Natural(n: nat): (s: string)
    ensures s != [] && forall i :: 0 <= i < |s| ==> IsDigit(s[i])
  {
    if n < 10 then [Digit(n)] else Natural(n / 10) + [Digit(n % 10)]
  }

  function Decimal(n: int): string {
    if n < 0 then "-" + Natural(-n) else Natural(n)
  }

  lemma {:induction false} UvarintIsPrefixFree(a: nat, b: nat, x: string, y: string)
    requires Uvarint(a) + x == Uvarint(b) + y
    ensures a == b && x == y
    decreases a
  {
    var s, t := Uvarint(a) + x, Uvarint(b) + y;
    assert s[0] == Uvarint(a)[0] && t[0] == Uvarint(b)[0];
    if a < 128 {
      assert b < 128;
      assert s[1..] == x && t[1..] == y;
    } else {
      assert b >= 128;
      assert s[1..] == Uvarint(a / 128) + x && t[1..] == Uvarint(b / 128) + y;
      UvarintIsPrefixFree(a / 128, b / 128, x, y);
    }
  }

  lemma {:induction false} NaturalIsInjective(a: nat, b: nat)
    requires Natural(a) == Natural(b)
    ensures a == b
    decreases a
  {
    var s, t := Natural(a), Natural(b);
    assert s[|s| - 1] == t[|t| - 1];
    if a >= 10 && b >= 10 {
      assert s[..|s| - 1] == Natural(a / 10) && t[..|t| - 1] == Natural(b / 10);
      NaturalIsInjective(a / 10, b / 10);
    }
  }

  lemma DecimalIsInjective(a: int, b: int)
    requires Decimal(a) == Decimal(b)
    ensures a == b
  {
    assert Decimal(a)[0] == Decimal(b)[0];
    assert a < 0 <==> b < 0;
    if a < 0 {
      assert Decimal(a)[1..] == Natural(-a) && Decimal(b)[1..] == Natural(-b);
      NaturalIsInjective(-a, -b);
    } else {
      NaturalIsInjective(a, b);
    }
  }

  // ---------------------------------------------------------------- length-prefixed parts

  function Preimage(parts: seq<string>): string {
    if parts == [] then [] else Preimage(parts[..|parts| - 1]) + Uvarint(|parts[|parts| - 1]|) + parts[|parts| - 1]
  }

  lemma {:induction false} PreimageConcat(a: seq<string>, b: seq<string>)
    ensures Preimage(a + b) == Preimage(a) + Preimage(b)
    decreases |b|
  {
    if b == [] {
      assert a + b == a;
    } else {
      assert (a + b)[..|a + b| - 1] == a + b[..|b| - 1];
      PreimageConcat(a, b[..|b| - 1]);
    }
  }

  lemma PreimageFirst(parts: seq<string>)
    requires parts != []
    ensures Preimage(parts) == Uvarint(|parts[0]|) + (parts[0] + Preimage(parts[1..]))
  {
    assert parts == [parts[0]] + parts[1..];
    PreimageConcat([parts[0]], parts[1..]);
    assert [parts[0]][..0] == [];
  }

  /** The bytes can be taken apart in one way only. */
  lemma {:induction false} PreimageIsInjective(p: seq<string>, q: seq<string>)
    requires Preimage(p) == Preimage(q)
    ensures p == q
    decreases |p|
  {
    if p != [] {
      PreimageFirst(p);
    }
    if q != [] {
      PreimageFirst(q);
    }
    if p != [] && q != [] {
      UvarintIsPrefixFree(|p[0]|, |q[0]|, p[0] + Preimage(p[1..]), q[0] + Preimage(q[1..]));
      var s, t := p[0] + Preimage(p[1..]), q[0] + Preimage(q[1..]);
      assert s[..|p[0]|] == p[0] && t[..|p[0]|] == q[0];
      assert s[|p[0]|..] == Preimage(p[1..]) && t[|p[0]|..] == Preimage(q[1..]);
      PreimageIsInjective(p[1..], q[1..]);
    }
  }

  // ---------------------------------------------------------------- NUL-joined parts

  const NUL: char := 0 as char

  function Join(parts: seq<string>): string {
    if parts == [] then [] else if |parts| == 1 then parts[0] else parts[0] + [NUL] + Join(parts[1..])
  }

  /** The pieces between the separators. */
  function Split(s: string, separator: char): (pieces: seq<string>)
    ensures pieces != []
  {
    if s == [] then [""]
    else
      var rest := Split(s[1..], separator);
      if s[0] == separator then [""] + rest else [[s[0]] + rest[0]] + rest[1..]
  }

  predicate NulFree(parts: seq<string>) {
    forall i :: 0 <= i < |parts| ==> NUL !in parts[i]
  }

  lemma {:induction false} SplitConcat(x: string, y: string, separator: char)
    ensures Split(x + [separator] + y, separator) == Split(x, separator) + Split(y, separator)
  {
    var s := x + [separator] + y;
    if x == [] {
      assert s[1..] == y;
    } else {
      assert s[1..] == x[1..] + [separator] + y;
      SplitConcat(x[1..], y, separator);
    }
  }

  lemma {:induction false} SplitWhole(s: string, separator: char)
    ensures |Split(s, separator)| == 1 <==> separator !in s
    ensures separator !in s ==> Split(s, separator) == [s]
  {
    if s == [] {
    } else {
      SplitWhole(s[1..], separator);
      assert s == [s[0]] + s[1..];
    }
  }

  lemma {:induction false} PiecesAreFree(s: string, separator: char)
    ensures forall i :: 0 <= i < |Split(s, separator)| ==> separator !in Split(s, separator)[i]
  {
    if s == [] {
    } else {
      PiecesAreFree(s[1..], separator);
    }
  }

  lemma {:induction false} JoinConcat(p: seq<string>, q: seq<string>)
    requires p != [] && q != []
    ensures Join(p + q) == Join(p) + [NUL] + Join(q)
  {
    if |p| == 1 {
      assert (p + q)[1..] == q;
    } else {
      assert (p + q)[1..] == p[1..] + q;
      JoinConcat(p[1..], q);
    }
  }

  lemma {:induction false} JoinSplit(s: string)
    ensures Join(Split(s, NUL)) == s
  {
    if s == [] {
    } else {
      var rest := Split(s[1..], NUL);
      JoinSplit(s[1..]);
      if s[0] == NUL {
        assert ([""] + rest)[1..] == rest;
      } else {
        assert ([[s[0]] + rest[0]] + rest[1..])[1..] == rest[1..];
      }
    }
  }

  /** Cutting a join cuts its parts. */
  lemma {:induction false} SplitJoin(parts: seq<string>)
    requires parts != [] && NulFree(parts)
    ensures Split(Join(parts), NUL) == parts
  {
    SplitWhole(parts[0], NUL);
    if |parts| == 1 {
      assert parts == [parts[0]];
    } else {
      SplitConcat(parts[0], Join(parts[1..]), NUL);
      SplitJoin(parts[1..]);
      assert parts == [parts[0]] + parts[1..];
    }
  }

  // ---------------------------------------------------------------- events

  /** The fields that group an event. */
  datatype Event = Event(kind: string, message: string, sourceURL: string, line: int, column: int, stack: string)

  const TAG1 := "error-tracer-v1"
  const TAG2 := "error-tracer-v2"

  function Parts(e: Event): seq<string> {
    [TAG2, e.kind, e.message, e.sourceURL, Decimal(e.line), Decimal(e.column), FirstFrame(Lines(e.stack), "")]
  }

  function LegacyParts(e: Event): seq<string> {
    [TAG1, e.kind, e.message, e.sourceURL, Decimal(e.line), Decimal(e.column), FirstLine(Lines(e.stack))]
  }

  /** What Fingerprint writes to the hasher, part by part. */
  method WriteParts(parts: seq<string>) returns (written: string)
    ensures written == Preimage(parts)
  {
    written := [];
    for i := 0 to |parts|
      invariant written == Preimage(parts[..i])
    {
      assert parts[..i + 1][..i] == parts[..i];
      written := written + Uvarint(|parts[i]|);
      written := written + parts[i];
    }
    assert parts[..|parts|] == parts;
  }

  /** Two events are hashed alike exactly when all that groups them is equal. */
  lemma SameBytesSameGroup(a: Event, b: Event)
    ensures Preimage(Parts(a)) == Preimage(Parts(b))
       <==> a.(stack := "") == b.(stack := "") && FirstFrame(Lines(a.stack), "") == FirstFrame(Lines(b.stack), "")
  {
    if Preimage(Parts(a)) == Preimage(Parts(b)) {
      PreimageIsInjective(Parts(a), Parts(b));
      assert Parts(a)[1] == Parts(b)[1] && Parts(a)[2] == Parts(b)[2] && Parts(a)[3] == Parts(b)[3];
      assert Parts(a)[4] == Parts(b)[4] && Parts(a)[5] == Parts(b)[5] && Parts(a)[6] == Parts(b)[6];
      DecimalIsInjective(a.line, b.line);
      DecimalIsInjective(a.column, b.column);
    }
  }

  /** No version 1 bytes are version 2 bytes: one starts with a letter, the other with a length. */
  lemma VersionsAreApart(a: Event, b: Event)
    ensures Preimage(Parts(a)) != Join(LegacyParts(b))
  {
    PreimageFirst(Parts(a));
    assert Preimage(Parts(a))[0] == 15 as char;
    assert Join(LegacyParts(b))[0] == 'e';
  }

  // ---------------------------------------------------------------- lines and frames

  /** One white space character of Unicode in UTF-8, which is one to three bytes long. */
  predicate IsSpace(c: string) {
    match |c|
    case 1 => c[0] == ' ' || '\t' <= c[0] <= '\r'
    case 2 => c[0] as int == 0xC2 && (c[1] as int == 0x85 || c[1] as int == 0xA0)
    case 3 =>
      var first, second, third := c[0] as int, c[1] as int, c[2] as int;
      || (first == 0xE1 && second == 0x9A && third == 0x80)
      || (first == 0xE2 && second == 0x80
          && (0x80 <= third <= 0x8A || third == 0xA8 || third == 0xA9 || third == 0xAF))
      || (first == 0xE2 && second == 0x81 && third == 0x9F)
      || (first == 0xE3 && second == 0x80 && third == 0x80)
    case _ => false
  }

  /** How many bytes of white space a string starts with: one character, or none. */
  function SpaceAhead(s: string): (n: nat)
    ensures n <= |s| && n <= 3 && (n > 0 ==> IsSpace(s[..n]))
    ensures n == 0 ==> forall m :: 0 < m <= 3 && m <= |s| ==> !IsSpace(s[..m])
  {
    if |s| >= 1 && IsSpace(s[..1]) then 1
    else if |s| >= 2 && IsSpace(s[..2]) then 2
    else if |s| >= 3 && IsSpace(s[..3]) then 3
    else 0
  }

  function SpaceBehind(s: string): (n: nat)
    ensures n <= |s| && n <= 3 && (n > 0 ==> IsSpace(s[|s| - n..]))
  {
    if |s| >= 1 && IsSpace(s[|s| - 1..]) then 1
    else if |s| >= 2 && IsSpace(s[|s| - 2..]) then 2
    else if |s| >= 3 && IsSpace(s[|s| - 3..]) then 3
    else 0
  }

  function TrimLeft(s: string): string {
    if SpaceAhead(s) > 0 then TrimLeft(s[SpaceAhead(s)..]) else s
  }

  function TrimRight(s: string): string {
    if SpaceBehind(s) > 0 then TrimRight(s[..|s| - SpaceBehind(s)]) else s
  }

  function Trim(s: string): string {
    TrimRight(TrimLeft(s))
  }

  function Lines(s: string): (lines: seq<string>)
    ensures lines != []
  {
    Split(s, '\n')
  }

  function Starts(s: string, prefix: string): bool {
    prefix <= s
  }

  /** Index of the first occurrence at or after `i`. */
  function IndexFrom(s: string, wanted: string, i: nat): (found: Option<nat>)
    requires i <= |s|
    ensures found.Some? ==> i <= found.value <= |s| && wanted <= s[found.value..]
    ensures forall j :: i <= j < (if found.Some? then found.value else |s| + 1) ==> !(wanted <= s[j..])
    decreases |s| - i
  {
    if wanted <= s[i..] then Some(i) else if i == |s| then None else IndexFrom(s, wanted, i + 1)
  }

  function IndexOf(s: string, wanted: string): Option<nat> {
    IndexFrom(s, wanted, 0)
  }

  predicate Digits(s: string) {
    s != [] && forall i :: 0 <= i < |s| ==> IsDigit(s[i])
  }

  /** `:line` or `:line:column`. */
  predicate OnePosition(p: string) {
    p != [] && p[0] == ':' && Digits(p[1..])
  }

  predicate TwoPosition(p: string) {
    exists k :: 1 < k < |p| && OnePosition(p[..k]) && OnePosition(p[k..])
  }

  predicate IsPosition(p: string) {
    OnePosition(p) || TwoPosition(p)
  }

  /** The leftmost match, at or after `i`, of the position pattern, which is anchored at the end. */
  function FindFrom(s: string, i: nat): (found: Option<nat>)
    requires i <= |s|
    ensures found.Some? ==> i <= found.value < |s| && IsPosition(s[found.value..])
    ensures forall j :: i <= j < (if found.Some? then found.value else |s| + 1) ==> !IsPosition(s[j..])
    decreases |s| - i
  {
    if i == |s| then None else if IsPosition(s[i..]) then Some(i) else FindFrom(s, i + 1)
  }

  function FindPosition(s: string): Option<nat> {
    FindFrom(s, 0)
  }

  predicate Clean(s: string) {
    '?' !in s && '#' !in s
  }

  /** Everything before the first `?` or `#`. */
  function CutQuery(s: string): (cut: string)
    ensures Clean(cut) && cut <= s
  {
    if s == [] || s[0] == '?' || s[0] == '#' then [] else [s[0]] + CutQuery(s[1..])
  }

  function CanonicalLocation(location: string): string {
    match FindPosition(location)
    case Some(i) => CutQuery(location[..i]) + location[i..]
    case None => CutQuery(location)
  }

  datatype V8Frame = V8Frame(prefix: string, location: string, suffix: string)

  function SplitV8(frame: string): V8Frame {
    var location := Trim(if Starts(frame, "at ") then frame[3..] else frame);
    var open := if Starts(location, "(") then Some(0)
                else match IndexOf(location, " (") case Some(i) => Some(i + 1) case None => None;
    if open.Some? && open.value < |location| - 1 && location[|location| - 1] == ')'
    then V8Frame("at " + location[..open.value + 1], location[open.value + 1..|location| - 1], ")")
    else V8Frame("at ", location, "")
  }

  predicate IsV8Frame(frame: string) {
    Starts(frame, "at ") && FindPosition(SplitV8(frame).location).Some?
  }

  /** The white space of a regular expression, which is ASCII without the vertical tab. */
  predicate IsBlank(c: char) {
    c == ' ' || ('\t' <= c <= '\r' && c != 11 as char)
  }

  /** `name@location:line:column`, where the name holds no colon and the whole no white space. */
  predicate IsFirefoxFrame(frame: string) {
    var at := IndexOf(frame, "@");
    && at.Some? && (forall i :: 0 <= i < |frame| ==> !IsBlank(frame[i])) && ':' !in frame[..at.value]
    && exists k :: at.value + 1 < k < |frame| && IsPosition(frame[k..])
  }

  function CanonicalFrame(frame: string): string {
    if Starts(frame, "at ") then
      var v8 := SplitV8(frame);
      v8.prefix + CanonicalLocation(v8.location) + v8.suffix
    else match IndexOf(frame, "@")
      case None => frame
      case Some(at) => if at < |frame| then frame[..at + 1] + CanonicalLocation(frame[at + 1..]) else frame
  }

  function FirstLine(lines: seq<string>): string {
    if lines == [] then "" else if Trim(lines[0]) != "" then Trim(lines[0]) else FirstLine(lines[1..])
  }

  /** The first line that is a frame, made canonical; without one, the first line that is not blank. */
  function FirstFrame(lines: seq<string>, firstLine: string): string {
    if lines == [] then firstLine
    else
      var line := Trim(lines[0]);
      if line == "" then FirstFrame(lines[1..], firstLine)
      else if IsV8Frame(line) || IsFirefoxFrame(line) then CanonicalFrame(line)
      else FirstFrame(lines[1..], if firstLine == "" then line else firstLine)
  }

  method FirstStackFrame(stack: string) returns (frame: string)
    ensures frame == FirstFrame(Lines(stack), "")
  {
    var lines := Lines(stack);
    var firstLine := "";
    for i := 0 to |lines|
      invariant FirstFrame(lines, "") == FirstFrame(lines[i..], firstLine)
    {
      var line := Trim(lines[i]);
      if line != "" {
        if firstLine == "" {
          firstLine := line;
        }
        if IsV8Frame(line) {
          return CanonicalFrame(line);
        }
        if IsFirefoxFrame(line) {
          return CanonicalFrame(line);
        }
      }
    }
    return firstLine;
  }

  method FirstStackLine(stack: string) returns (line: string)
    ensures line == FirstLine(Lines(stack))
  {
    var lines := Lines(stack);
    for i := 0 to |lines|
      invariant FirstLine(lines) == FirstLine(lines[i..])
    {
      line := Trim(lines[i]);
      if line != "" {
        return;
      }
    }
    return "";
  }

  // ---------------------------------------------------------------- query strings do not separate frames

  lemma PositionIsClean(p: string)
    requires IsPosition(p)
    ensures Clean(p)
  {
    forall i | 0 <= i < |p| ensures p[i] == ':' || IsDigit(p[i]) {
      if OnePosition(p) {
        assert i > 0 ==> p[1..][i - 1] == p[i];
      } else {
        var k :| 1 < k < |p| && OnePosition(p[..k]) && OnePosition(p[k..]);
        assert 0 < i < k ==> p[..k][1..][i - 1] == p[i];
        assert i > k ==> p[k..][1..][i - k - 1] == p[i];
        assert p[..k][0] == p[0] && p[k..][0] == p[k];
      }
    }
  }

  lemma {:induction false} CutClean(clean: string, rest: string)
    requires Clean(clean) && (rest == [] || rest[0] == '?' || rest[0] == '#')
    ensures CutQuery(clean + rest) == clean
  {
    if clean == [] {
      assert clean + rest == rest;
    } else {
      assert (clean + rest)[1..] == clean[1..] + rest;
      CutClean(clean[1..], rest);
    }
  }

  lemma CleanConcat(a: string, b: string)
    ensures Clean(a + b) <==> Clean(a) && Clean(b)
  {}

  /**
   Making a location canonical leaves exactly the locations without `?` and `#` alone, so doing it twice is doing
   it once.
   */
  lemma FixedExactly(location: string)
    ensures CanonicalLocation(location) == location <==> Clean(location)
    ensures Clean(CanonicalLocation(location))
    ensures CanonicalLocation(CanonicalLocation(location)) == CanonicalLocation(location)
  {
    CanonicalIsClean(location);
    if Clean(location) {
      CleanIsFixed(location);
    }
    CleanIsFixed(CanonicalLocation(location));
  }

  lemma CanonicalIsClean(location: string)
    ensures Clean(CanonicalLocation(location))
  {
    match FindPosition(location)
    case None =>
    case Some(i) =>
      PositionIsClean(location[i..]);
      CleanConcat(CutQuery(location[..i]), location[i..]);
  }

  lemma CleanIsFixed(location: string)
    requires Clean(location)
    ensures CanonicalLocation(location) == location
  {
    match FindPosition(location)
    case None =>
      CutClean(location, "");
      assert location + "" == location;
    case Some(i) =>
      CleanConcat(location[..i], location[i..]);
      assert location == location[..i] + location[i..];
      CutClean(location[..i], "");
      assert location[..i] + "" == location[..i];
  }

  lemma OneColon(s: string)
    requires OnePosition(s)
    ensures forall m :: 0 < m < |s| ==> s[m] != ':'
  {
    forall m | 0 < m < |s| ensures s[m] != ':' {
      assert s[1..][m - 1] == s[m];
    }
  }

  lemma TwoColons(s: string) returns (n: nat)
    requires TwoPosition(s)
    ensures 1 < n < |s| && OnePosition(s[..n]) && OnePosition(s[n..])
    ensures forall m :: 0 < m < |s| && s[m] == ':' ==> m == n
  {
    n :| 1 < n < |s| && OnePosition(s[..n]) && OnePosition(s[n..]);
    OneColon(s[..n]);
    OneColon(s[n..]);
    forall m | 0 < m < n ensures s[m] != ':' {
      assert s[..n][m] == s[m];
    }
    forall m | n < m < |s| ensures s[m] != ':' {
      assert s[n..][m - n] == s[m];
    }
  }

  /** A position cannot start before text that holds two colons and ends in digits. */
  lemma TwoIsLeftmost(a: string, p: string, j: nat)
    requires TwoPosition(p) && j < |a|
    ensures !IsPosition((a + p)[j..])
  {
    var s := (a + p)[j..];
    var m := |a| - j;
    var k := TwoColons(p);
    assert p[..k][0] == ':' && p[k..][0] == ':';
    assert s[m] == p[0] == ':' && s[m + k] == p[k] == ':';
    if OnePosition(s) {
      OneColon(s);
    }
    if TwoPosition(s) {
      var n := TwoColons(s);
    }
  }

  /** With line and column, the query goes and nothing else does, whatever the query ends in. */
  lemma QueryDrops(clean: string, query: string, position: string)
    requires Clean(clean) && query != [] && (query[0] == '?' || query[0] == '#') && TwoPosition(position)
    ensures CanonicalLocation(clean + query + position) == clean + position
  {
    var a := clean + query;
    forall j | 0 <= j < |a| ensures !IsPosition((a + position)[j..]) {
      TwoIsLeftmost(a, position, j);
    }
    assert (a + position)[|a|..] == position && (a + position)[..|a|] == a;
    CutClean(clean, query);
  }

  ghost predicate EndsInPosition(s: string) {
    exists j :: 0 <= j < |s| && OnePosition(s[j..])
  }

  /** With a line only, what precedes it can be taken for the line, and it for the column. */
  lemma OneIsLeftmost(a: string, p: string, j: nat)
    requires OnePosition(p) && j < |a|
    ensures IsPosition((a + p)[j..]) <==> OnePosition(a[j..])
  {
    var s := (a + p)[j..];
    var m := |a| - j;
    assert s == a[j..] + p && s[m] == ':';
    if OnePosition(a[j..]) {
      assert s[..m] == a[j..] && s[m..] == p && m > 1;
      assert TwoPosition(s);
    }
    if OnePosition(s) {
      OneColon(s);
    }
    if TwoPosition(s) {
      var n := TwoColons(s);
      assert s[..m] == a[j..];
    }
  }

  /** A position in `clean + query` starts in the query. */
  lemma PositionInQuery(clean: string, query: string, j: nat)
    requires Clean(clean) && query != [] && (query[0] == '?' || query[0] == '#')
    requires j < |clean + query| && OnePosition((clean + query)[j..])
    ensures |clean| < j && (clean + query)[j..] == query[j - |clean|..]
  {
    var a := clean + query;
    PositionIsClean(a[j..]);
    forall i | j <= i < |a| ensures a[i] != '?' && a[i] != '#' {
      assert a[j..][i - j] == a[i];
    }
    assert a[|clean|] == query[0];
  }

  lemma QueryEndsInIt(clean: string, query: string, j: nat)
    requires Clean(clean) && query != [] && (query[0] == '?' || query[0] == '#')
    requires j < |clean + query| && OnePosition((clean + query)[j..])
    ensures EndsInPosition(query)
  {
    PositionInQuery(clean, query, j);
    assert OnePosition(query[j - |clean|..]);
  }

  /** Part of the query is kept when it ends in something that looks like a line. */
  lemma QueryStays(clean: string, query: string, position: string)
    requires Clean(clean) && query != [] && (query[0] == '?' || query[0] == '#') && OnePosition(position)
    requires EndsInPosition(query)
    ensures CanonicalLocation(clean + query + position) != clean + position
  {
    var a := clean + query;
    var s := a + position;
    var j :| 0 <= j < |query| && OnePosition(query[j..]);
    assert a[|clean| + j..] == query[j..];
    OneIsLeftmost(a, position, |clean| + j);
    var i := FindPosition(s).value;
    assert i <= |clean| + j;
    OneIsLeftmost(a, position, i);
    PositionInQuery(clean, query, i);
    assert s[..i] == clean + query[..i - |clean|];
    CutClean(clean, query[..i - |clean|]);
    assert |CanonicalLocation(s)| == |clean| + |s| - i;
  }

  /** Exactly when the query ends in something that looks like a line, part of it is kept. */
  lemma QueryDropsExactly(clean: string, query: string, position: string)
    requires Clean(clean) && query != [] && (query[0] == '?' || query[0] == '#') && OnePosition(position)
    ensures CanonicalLocation(clean + query + position) == clean + position <==> !EndsInPosition(query)
  {
    if EndsInPosition(query) {
      QueryStays(clean, query, position);
    } else {
      var a := clean + query;
      forall j | 0 <= j < |a| ensures !IsPosition((a + position)[j..]) {
        OneIsLeftmost(a, position, j);
        if OnePosition(a[j..]) {
          QueryEndsInIt(clean, query, j);
        }
      }
      assert (a + position)[|a|..] == position && (a + position)[..|a|] == a;
      CutClean(clean, query);
    }
  }

  /** A V8 frame line: a function name and a location in brackets. */
  function V8Line(name: string, location: string): string {
    "at " + name + " (" + location + ")"
  }

  /** A name that does not itself open a bracket. */
  predicate PlainName(name: string) {
    name != [] && SpaceAhead(name) == 0 && name[0] != '(' && IndexOf(name + " (", " (") == Some(|name|)
  }

  lemma V8Splits(name: string, location: string)
    requires PlainName(name)
    ensures SplitV8(V8Line(name, location)) == V8Frame("at " + name + " (", location, ")")
  {
    hide IndexOf, Trim, PlainName;
    var inner := name + " (" + location + ")";
    var line := V8Line(name, location);
    V8Inner(name, location);
    BracketAt(name, location);
    assert Trim(line[3..]) == inner;
    assert inner[..|name| + 2] == name + " (" && inner[|name| + 2..|inner| - 1] == location;
    assert "at " + (name + " (") == "at " + name + " (";
  }

  lemma V8Inner(name: string, location: string)
    requires PlainName(name)
    ensures var line, inner := V8Line(name, location), name + " (" + location + ")";
            Starts(line, "at ") && line[3..] == inner && Trim(inner) == inner && !Starts(inner, "(")
  {
    var inner := name + " (" + location + ")";
    assert V8Line(name, location) == "at " + inner;
    assert inner[0] == name[0];
    NoSpaceAhead(name, " (" + location + ")");
    assert inner == name + (" (" + location + ")");
    NoSpaceBehind(inner);
  }

  /** No white space character continues with ASCII. */
  lemma NoSpaceAhead(a: string, b: string)
    requires a != [] && SpaceAhead(a) == 0 && (b == [] || b[0] < 128 as char)
    ensures SpaceAhead(a + b) == 0
  {
    forall m | 0 < m <= 3 && m <= |a + b| ensures !IsSpace((a + b)[..m]) {
      if m <= |a| {
        assert (a + b)[..m] == a[..m];
      } else {
        assert (a + b)[..m][|a|] == b[0];
      }
    }
  }

  /** White space does not end in visible ASCII. */
  lemma NoSpaceBehind(s: string)
    requires s != [] && ' ' < s[|s| - 1] < 128 as char
    ensures SpaceBehind(s) == 0
  {
    hide IsSpace;
    if SpaceBehind(s) > 0 {
      NotSpace(s[|s| - SpaceBehind(s)..]);
    }
  }

  lemma NotSpace(c: string)
    requires c != [] && ' ' < c[|c| - 1] < 128 as char
    ensures !IsSpace(c)
  {}

  lemma BracketAt(name: string, location: string)
    requires PlainName(name)
    ensures IndexOf(name + " (" + location + ")", " (") == Some(|name|)
  {
    var inner, start := name + " (" + location + ")", name + " (";
    assert inner[|name|..] == " (" + (location + ")");
    forall j | 0 <= j < |name| ensures !(" (" <= inner[j..]) {
      assert !(" (" <= start[j..]);
      assert start[j..][..2] == inner[j..][..2];
    }
  }

  /** How a frame line writes its location: V8 with a name, V8 without one, or Firefox. */
  datatype Shape = Bracketed(name: string) | Bare | Firefox(name: string)

  function FrameLine(shape: Shape, location: string): string {
    match shape
    case Bracketed(name) => V8Line(name, location)
    case Bare => "at " + location
    case Firefox(name) => name + "@" + location
  }

  /** A name as these engines write it; a bare location has no white space around it. */
  predicate PlainShape(shape: Shape, location: string) {
    match shape
    case Bracketed(name) => PlainName(name)
    case Bare => location != [] && SpaceAhead(location) == 0 && IsDigit(location[|location| - 1])
    case Firefox(name) => '@' !in name && ' ' !in name
  }

  lemma BareSplits(location: string)
    requires PlainShape(Bare, location)
    ensures SplitV8("at " + location) == V8Frame("at ", location, "")
  {
    var line := "at " + location;
    assert line[3..] == location;
    NoSpaceBehind(location);
  }

  lemma FirefoxSplits(name: string, location: string)
    requires PlainShape(Firefox(name), location)
    ensures var line := FrameLine(Firefox(name), location);
            !Starts(line, "at ") && IndexOf(line, "@") == Some(|name|) && line[|name| + 1..] == location
  {
    var line := FrameLine(Firefox(name), location);
    if |name| > 2 {
      assert line[2] == name[2] && "at "[2] == ' ';
    } else {
      assert line[|name|] == '@' && "at "[|name|] != '@';
    }
    assert line[|name|..] == "@" + location;
    forall j | 0 <= j < |name| ensures !("@" <= line[j..]) {
      assert line[j] == name[j];
    }
  }

  /** A frame line is made canonical by making its location canonical, in every shape. */
  lemma CanonicalFrameIs(shape: Shape, location: string)
    requires PlainShape(shape, location)
    ensures CanonicalFrame(FrameLine(shape, location)) == FrameLine(shape, CanonicalLocation(location))
  {
    hide CanonicalLocation, SplitV8, IndexOf, PlainName, SpaceAhead, Starts;
    match shape
    case Bracketed(name) =>
      V8Splits(name, location);
      V8Inner(name, location);
    case Bare =>
      BareSplits(location);
      StartsAt(location);
      assert "at " + CanonicalLocation(location) + "" == "at " + CanonicalLocation(location);
    case Firefox(name) =>
      FirefoxSplits(name, location);
      var line := FrameLine(shape, location);
      assert line[..|name| + 1] == name + "@";
  }

  lemma StartsAt(location: string)
    ensures Starts("at " + location, "at ")
  {}

  lemma LineNamesLocation(shape: Shape, a: string, b: string)
    requires FrameLine(shape, a) == FrameLine(shape, b)
    ensures a == b
  {
    var s, t := FrameLine(shape, a), FrameLine(shape, b);
    match shape
    case Bracketed(name) =>
      var k := |"at " + name + " ("|;
      assert a == s[k..|s| - 1] && b == t[k..|t| - 1];
    case Bare =>
      assert a == s[3..] && b == t[3..];
    case Firefox(name) =>
      assert a == s[|name| + 1..] && b == t[|name| + 1..];
  }

  /**
   Frames that differ only in the query of their location are the same frame, in every shape, exactly when the
   position has a line and a column or the query does not end in what looks like a line.
   */
  lemma QueriesRegroup(shape: Shape, clean: string, query: string, position: string)
    requires PlainShape(shape, clean + query + position) && PlainShape(shape, clean + position)
    requires Clean(clean) && IsPosition(position) && query != [] && (query[0] == '?' || query[0] == '#')
    ensures CanonicalFrame(FrameLine(shape, clean + position)) == FrameLine(shape, clean + position)
    ensures CanonicalFrame(FrameLine(shape, clean + query + position)) == FrameLine(shape, clean + position)
       <==> TwoPosition(position) || !EndsInPosition(query)
  {
    hide CanonicalFrame, FrameLine, CanonicalLocation, PlainShape;
    CanonicalFrameIs(shape, clean + query + position);
    CanonicalFrameIs(shape, clean + position);
    PositionIsClean(position);
    CleanConcat(clean, position);
    CleanIsFixed(clean + position);
    if TwoPosition(position) {
      QueryDrops(clean, query, position);
    } else {
      QueryDropsExactly(clean, query, position);
      if FrameLine(shape, CanonicalLocation(clean + query + position)) == FrameLine(shape, clean + position) {
        LineNamesLocation(shape, CanonicalLocation(clean + query + position), clean + position);
      }
    }
  }
}
