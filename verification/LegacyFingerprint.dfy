/**
 Which events share their version 1 bytes. The fields are joined by NULs, and a message or a stack line may hold
 NULs itself, so the bytes can be read in more than one way.
 */
module LegacyFingerprint {
  import opened Fingerprint

  // ---------------------------------------------------------------- decimals

  /** What a line or a column is written as: digits without a needless zero, after a sign if it is negative. */
  predicate IsDecimal(s: string) {
    var digits := if s != [] && s[0] == '-' then s[1..] else s;
    Digits(digits) && (digits[0] != '0' || s == "0")
  }

  lemma {:induction false} NaturalLeads(n: nat)
    ensures Digits(Natural(n)) && (n > 0 ==> Natural(n)[0] != '0')
  {
    if n < 10 {
    } else {
      NaturalLeads(n / 10);
    }
  }

  lemma {:induction false} NaturalNumber(digits: string) returns (n: nat)
    requires Digits(digits) && (digits[0] != '0' || |digits| == 1)
    ensures Natural(n) == digits && (digits[0] != '0' ==> n > 0)
  {
    var last := |digits| - 1;
    var d := digits[last] as int - '0' as int;
    if last == 0 {
      n := d;
    } else {
      var m := NaturalNumber(digits[..last]);
      n := 10 * m + d;
      assert n / 10 == m && n % 10 == d;
    }
  }

  lemma DecimalExactly(s: string)
    ensures IsDecimal(s) <==> exists n :: Decimal(n) == s
  {
    if IsDecimal(s) {
      if s[0] == '-' {
        var n: int := NaturalNumber(s[1..]);
        assert Decimal(-n) == s;
      } else {
        var n := NaturalNumber(s);
        assert Decimal(n) == s;
      }
    }
    forall n | Decimal(n) == s ensures IsDecimal(s) {
      NaturalLeads(if n < 0 then -n else n);
      if n < 0 {
        assert s[1..] == Natural(-n);
      }
    }
  }

  lemma DecimalIsFree(n: int)
    ensures IsDecimal(Decimal(n)) && NUL !in Decimal(n)
  {
    DecimalExactly(Decimal(n));
  }

  // ---------------------------------------------------------------- first lines

  lemma {:induction false} TrimRightIs(s: string)
    ensures TrimRight(s) <= s && SpaceBehind(TrimRight(s)) == 0
    decreases |s|
  {
    if SpaceBehind(s) == 0 {
    } else {
      TrimRightIs(s[..|s| - SpaceBehind(s)]);
    }
  }

  lemma {:induction false} TrimLeftIs(s: string)
    ensures SpaceAhead(TrimLeft(s)) == 0 && forall c :: c in TrimLeft(s) ==> c in s
    decreases |s|
  {
    if SpaceAhead(s) == 0 {
    } else {
      TrimLeftIs(s[SpaceAhead(s)..]);
    }
  }

  lemma TrimTwice(s: string)
    ensures Trim(Trim(s)) == Trim(s) && forall c :: c in Trim(s) ==> c in s
  {
    hide SpaceAhead, SpaceBehind, IsSpace;
    var t := TrimLeft(s);
    TrimLeftIs(s);
    TrimRightIs(t);
    PrefixStartsAlike(TrimRight(t), t);
  }

  lemma PrefixStartsAlike(r: string, t: string)
    requires r <= t && SpaceAhead(t) == 0
    ensures SpaceAhead(r) == 0
  {
    hide IsSpace;
    forall m | 0 < m <= 3 && m <= |r| ensures !IsSpace(r[..m]) {
      assert r[..m] == t[..m];
    }
  }

  lemma {:induction false} FirstLineIs(lines: seq<string>)
    requires forall i :: 0 <= i < |lines| ==> '\n' !in lines[i]
    ensures var line := FirstLine(lines); '\n' !in line && Trim(line) == line
  {
    if lines == [] {
    } else {
      TrimTwice(lines[0]);
      FirstLineIs(lines[1..]);
    }
  }

  /** A first line is its own first line, so a text is one exactly when it is its own. */
  lemma FirstLineTwice(stack: string)
    ensures var line := FirstLine(Lines(stack)); FirstLine(Lines(line)) == line
  {
    var line := FirstLine(Lines(stack));
    PiecesAreFree(stack, '\n');
    FirstLineIs(Lines(stack));
    SplitWhole(line, '\n');
    hide Trim;
    assert FirstLine([line]) == line;
  }

  // ---------------------------------------------------------------- the pieces of the bytes

  function Bytes(e: Event): string {
    Join(LegacyParts(e))
  }

  function Pieces(e: Event): seq<string> {
    Split(Bytes(e), NUL)
  }

  /** Kinds are names, and a URL with a control character does not parse and is stored as empty. */
  predicate Ingested(e: Event) {
    NUL !in e.kind && NUL !in e.sourceURL
  }

  predicate SameGroup(a: Event, b: Event) {
    a.(stack := "") == b.(stack := "") && FirstLine(Lines(a.stack)) == FirstLine(Lines(b.stack))
  }

  /** Where an event's own line stands among the pieces of its bytes. */
  function Place(e: Event): nat {
    3 + |Split(e.message, NUL)|
  }

  function Assembled(kind: string, message: seq<string>, source: string, line: string, column: string,
                     rest: seq<string>): seq<string> {
    [TAG1, kind] + message + [source, line, column] + rest
  }

  lemma PieceOff(parts: seq<string>, i: nat)
    requires i + 1 < |parts|
    ensures Split(Join(parts[i..]), NUL) == Split(parts[i], NUL) + Split(Join(parts[i + 1..]), NUL)
  {
    SplitConcat(parts[i], Join(parts[i + 1..]), NUL);
    assert parts[i..][1..] == parts[i + 1..];
  }

  lemma JoinOne(part: string)
    ensures Join([part]) == part
  {}

  lemma PiecesAre(e: Event)
    requires Ingested(e)
    ensures Pieces(e) == Assembled(e.kind, Split(e.message, NUL), e.sourceURL, Decimal(e.line), Decimal(e.column),
                                   Split(FirstLine(Lines(e.stack)), NUL))
  {
    hide Split, Join, Lines, FirstLine, Decimal, IsDecimal;
    var p := LegacyParts(e);
    assert p[0..] == p && p[6..] == [p[6]];
    PieceOff(p, 0);
    PieceOff(p, 1);
    PieceOff(p, 2);
    PieceOff(p, 3);
    PieceOff(p, 4);
    PieceOff(p, 5);
    JoinOne(p[6]);
    DecimalIsFree(e.line);
    DecimalIsFree(e.column);
    SplitWhole(TAG1, NUL);
    SplitWhole(e.kind, NUL);
    SplitWhole(e.sourceURL, NUL);
    SplitWhole(Decimal(e.line), NUL);
    SplitWhole(Decimal(e.column), NUL);
  }

  // ---------------------------------------------------------------- another reading

  /** At place `k` the pieces can be read as a line and a column, with a first line of a stack behind them. */
  predicate ReadsAt(pieces: seq<string>, k: nat) {
    && 4 <= k && k + 2 < |pieces| && IsDecimal(pieces[k]) && IsDecimal(pieces[k + 1])
    && var rest := Join(pieces[k + 2..]);
       FirstLine(Lines(rest)) == rest
  }

  lemma OwnReading(e: Event)
    requires Ingested(e)
    ensures ReadsAt(Pieces(e), Place(e))
  {
    hide Split, Lines, FirstLine, IsDecimal, Decimal;
    PiecesAre(e);
    DecimalIsFree(e.line);
    DecimalIsFree(e.column);
    JoinSplit(FirstLine(Lines(e.stack)));
    FirstLineTwice(e.stack);
    assert Pieces(e)[Place(e) + 2..] == Split(FirstLine(Lines(e.stack)), NUL);
  }

  /** The event of another reading. */
  lemma ReadAs(a: Event, k: nat) returns (b: Event)
    requires Ingested(a) && ReadsAt(Pieces(a), k)
    ensures Ingested(b) && Bytes(b) == Bytes(a) && Place(b) == k
  {
    hide Lines, FirstLine, IsDecimal, Decimal, Split;
    var p := Pieces(a);
    PiecesAre(a);
    PiecesAreFree(Bytes(a), NUL);
    DecimalExactly(p[k]);
    DecimalExactly(p[k + 1]);
    var line :| Decimal(line) == p[k];
    var column :| Decimal(column) == p[k + 1];
    var message, rest := p[2..k - 1], Join(p[k + 2..]);
    b := Event(a.kind, Join(message), p[k - 1], line, column, rest);
    SplitJoin(message);
    SplitJoin(p[k + 2..]);
    PiecesAre(b);
    assert p == [TAG1, a.kind] + message + [p[k - 1], p[k], p[k + 1]] + p[k + 2..];
    assert Pieces(b) == p;
    JoinSplit(Bytes(a));
    JoinSplit(Bytes(b));
  }

  lemma SamePlaceSameGroup(a: Event, b: Event)
    requires Ingested(a) && Ingested(b) && Bytes(a) == Bytes(b) && Place(a) == Place(b)
    ensures SameGroup(a, b)
  {
    hide Lines, FirstLine, Decimal, Split;
    PiecesAre(a);
    PiecesAre(b);
    var p, k := Pieces(a), Place(a);
    assert p[2..k - 1] == Split(a.message, NUL) && p[2..k - 1] == Split(b.message, NUL);
    assert p[k + 2..] == Split(FirstLine(Lines(a.stack)), NUL) && p[k + 2..] == Split(FirstLine(Lines(b.stack)), NUL);
    assert p[1] == a.kind && p[1] == b.kind && p[k - 1] == a.sourceURL && p[k - 1] == b.sourceURL;
    assert p[k] == Decimal(a.line) && p[k] == Decimal(b.line) && p[k + 1] == Decimal(a.column)
        && p[k + 1] == Decimal(b.column);
    JoinSplit(a.message);
    JoinSplit(b.message);
    JoinSplit(FirstLine(Lines(a.stack)));
    JoinSplit(FirstLine(Lines(b.stack)));
    DecimalIsInjective(a.line, b.line);
    DecimalIsInjective(a.column, b.column);
  }

  ghost predicate Shares(a: Event, b: Event) {
    Ingested(b) && Bytes(b) == Bytes(a) && !SameGroup(a, b)
  }

  /**
   An event shares its version 1 bytes with an event of another group exactly when its pieces can be read at a
   place that is not its own: two neighbouring decimals, with the tag, the kind, a piece of a message and a source
   in front of them, and the first line of some stack behind them.
   */
  lemma BytesSharedExactly(a: Event)
    requires Ingested(a)
    ensures (exists b :: Shares(a, b)) <==> exists k :: k != Place(a) && ReadsAt(Pieces(a), k)
  {
    hide Bytes, Pieces, Place, ReadsAt, SameGroup;
    forall b | Shares(a, b) ensures exists k :: k != Place(a) && ReadsAt(Pieces(a), k) {
      OwnReading(b);
      SameBytesSamePieces(a, b);
      if Place(b) == Place(a) {
        SamePlaceSameGroup(a, b);
      }
    }
    forall k: nat | k != Place(a) && ReadsAt(Pieces(a), k) ensures exists b :: Shares(a, b) {
      var b := ReadAs(a, k);
      SameGroupSamePlace(a, b);
      assert Shares(a, b);
    }
  }

  lemma SameBytesSamePieces(a: Event, b: Event)
    requires Bytes(a) == Bytes(b)
    ensures Pieces(a) == Pieces(b)
  {}

  lemma SameGroupSamePlace(a: Event, b: Event)
    ensures SameGroup(a, b) ==> Place(a) == Place(b)
  {}

  /** Events without NULs share their version 1 bytes with events of their own group only. */
  lemma SameLegacyBytesSameGroup(a: Event, b: Event)
    requires NulFree(LegacyParts(a)) && Ingested(b)
    ensures Bytes(a) == Bytes(b) <==> SameGroup(a, b)
  {
    hide ReadsAt, Lines, FirstLine, Decimal;
    assert LegacyParts(a)[1] == a.kind && LegacyParts(a)[2] == a.message && LegacyParts(a)[3] == a.sourceURL;
    assert LegacyParts(a)[6] == FirstLine(Lines(a.stack));
    PiecesAre(a);
    SplitWhole(a.message, NUL);
    SplitWhole(FirstLine(Lines(a.stack)), NUL);
    if Bytes(a) == Bytes(b) {
      OwnReading(b);
      ReadingBounds(Pieces(b), Place(b));
      SamePlaceSameGroup(a, b);
    }
  }

  lemma ReadingBounds(pieces: seq<string>, k: nat)
    requires ReadsAt(pieces, k)
    ensures 4 <= k < |pieces| - 2
  {}

  // ---------------------------------------------------------------- a collision

  /** A NUL in the message, and a relative source that is a number. */
  const NUMBERED := Event("error", "x" + [NUL] + "y", "5", 1, 2, "f")

  /** The same bytes: the source is read as the line, the line as the column, the column as a piece of the stack. */
  const SHIFTED := Event("error", "x", "y", 5, 1, "2" + [NUL] + "f")

  /** A join does not tell a separator from a NUL inside a part. */
  lemma Inside(front: seq<string>, x: string, y: string, back: seq<string>)
    requires front != []
    ensures Join(front + [x + [NUL] + y] + back) == Join(front + [x, y] + back)
  {
    assert Join([x, y]) == x + [NUL] + y by {
      assert [x, y][1..] == [y];
    }
    JoinConcat(front, [x, y]);
    JoinConcat(front, [x + [NUL] + y]);
    if back == [] {
      assert front + [x + [NUL] + y] + back == front + [x + [NUL] + y] && front + [x, y] + back == front + [x, y];
    } else {
      JoinConcat(front + [x, y], back);
      JoinConcat(front + [x + [NUL] + y], back);
    }
  }

  lemma SmallDecimals()
    ensures Decimal(1) == "1" && Decimal(2) == "2" && Decimal(5) == "5"
  {}

  lemma LegacyCollision()
    ensures Ingested(NUMBERED) && Shares(NUMBERED, SHIFTED)
    ensures Preimage(Parts(NUMBERED)) != Preimage(Parts(SHIFTED))
  {
    hide Preimage, Join, Decimal, FirstLine, Lines, FirstFrame;
    var f, g := "f", "2" + [NUL] + "f";
    OneLine(f);
    OneLine(g);
    SmallDecimals();
    Inside([TAG1, "error"], "x", "y", ["5", "1", "2", f]);
    Inside([TAG1, "error", "x", "y", "5", "1"], "2", f, []);
    assert LegacyParts(NUMBERED) == [TAG1, "error"] + ["x" + [NUL] + "y"] + ["5", "1", "2", f];
    assert LegacyParts(SHIFTED) == [TAG1, "error", "x", "y", "5", "1"] + ["2" + [NUL] + f] + [];
    assert [TAG1, "error"] + ["x", "y"] + ["5", "1", "2", f] == [TAG1, "error", "x", "y", "5", "1"] + ["2", f] + [];
    assert NUMBERED.message != SHIFTED.message;
    SameBytesSameGroup(NUMBERED, SHIFTED);
  }

  lemma OneLine(line: string)
    requires line != [] && '\n' !in line && SpaceAhead(line) == 0 && SpaceBehind(line) == 0
    ensures FirstLine(Lines(line)) == line
  {
    SplitWhole(line, '\n');
  }
}
