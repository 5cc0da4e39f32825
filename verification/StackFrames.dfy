/** Which line of a whole stack is hashed, and what of it. */
module StackFrames {
  import opened Options
  import opened Fingerprint
  import opened LegacyFingerprint

  predicate IsFrame(line: string) {
    IsV8Frame(line) || IsFirefoxFrame(line)
  }

  /** Lines that the search for a frame passes over; blank ones are among them. */
  predicate NoFrames(lines: seq<string>) {
    forall i {:trigger lines[i]} :: 0 <= i < |lines| ==> !IsFrame(Trim(lines[i]))
  }

  /** The lines of a stack, joined by line feeds. */
  function Text(lines: seq<string>): string {
    if lines == [] then "" else if |lines| == 1 then lines[0] else lines[0] + ['\n'] + Text(lines[1..])
  }

  predicate OneLineEach(lines: seq<string>) {
    forall i {:trigger lines[i]} :: 0 <= i < |lines| ==> '\n' !in lines[i]
  }

  lemma {:induction false} LinesOfText(lines: seq<string>)
    requires lines != [] && OneLineEach(lines)
    ensures Lines(Text(lines)) == lines
  {
    SplitWhole(lines[0], '\n');
    if |lines| == 1 {
      assert lines == [lines[0]];
    } else {
      SplitConcat(lines[0], Text(lines[1..]), '\n');
      LinesOfText(lines[1..]);
      assert lines == [lines[0]] + lines[1..];
    }
  }

  // ---------------------------------------------------------------- what the search finds

  lemma BlankIsNoFrame()
    ensures !IsFrame("")
  {}

  /** The first frame is the answer, made canonical, whatever stands in front of it or behind it. */
  lemma {:induction false} FrameIsFound(before: seq<string>, line: string, behind: seq<string>, firstLine: string)
    requires NoFrames(before) && IsFrame(Trim(line))
    ensures FirstFrame(before + [line] + behind, firstLine) == CanonicalFrame(Trim(line))
    decreases |before|
  {
    hide IsV8Frame, IsFirefoxFrame, Trim, CanonicalFrame;
    var lines := before + [line] + behind;
    BlankIsNoFrame();
    if before == [] {
      assert lines[0] == line;
    } else {
      assert lines[0] == before[0] && lines[1..] == before[1..] + [line] + behind;
      var t := Trim(before[0]);
      FrameIsFound(before[1..], line, behind, if t != "" && firstLine == "" then t else firstLine);
    }
  }

  /** Without a frame it is the first line that is not blank. */
  lemma {:induction false} NoFrameFound(lines: seq<string>)
    requires NoFrames(lines)
    ensures FirstFrame(lines, "") == FirstLine(lines)
    decreases |lines|
  {
    hide IsV8Frame, IsFirefoxFrame, Trim, CanonicalFrame;
    if lines == [] {
    } else if Trim(lines[0]) == "" {
      NoFrameFound(lines[1..]);
    } else {
      FirstLineStays(lines[1..], Trim(lines[0]));
    }
  }

  lemma {:induction false} FirstLineStays(lines: seq<string>, firstLine: string)
    requires NoFrames(lines) && firstLine != ""
    ensures FirstFrame(lines, firstLine) == firstLine
    decreases |lines|
  {
    hide IsV8Frame, IsFirefoxFrame, Trim, CanonicalFrame;
    if lines == [] {
    } else {
      FirstLineStays(lines[1..], firstLine);
    }
  }

  /** The first line that is not blank, without the white space around it. */
  lemma {:induction false} FirstLineMeans(lines: seq<string>)
    ensures if forall i :: 0 <= i < |lines| ==> Trim(lines[i]) == "" then FirstLine(lines) == ""
            else exists i :: 0 <= i < |lines| && FirstLine(lines) == Trim(lines[i]) != ""
                             && forall j :: 0 <= j < i ==> Trim(lines[j]) == ""
    decreases |lines|
  {
    hide Trim;
    if lines == [] {
    } else if Trim(lines[0]) != "" {
      assert FirstLine(lines) == Trim(lines[0]);
    } else {
      FirstLineMeans(lines[1..]);
      assert forall i :: 0 <= i < |lines| - 1 ==> lines[1..][i] == lines[i + 1];
      if i :| 0 <= i < |lines| - 1 && FirstLine(lines[1..]) == Trim(lines[1..][i]) != ""
              && forall j :: 0 <= j < i ==> Trim(lines[1..][j]) == "" {
        assert FirstLine(lines) == Trim(lines[i + 1]) != "";
        assert forall j :: 0 < j < i + 1 ==> lines[j] == lines[1..][j - 1];
      }
    }
  }

  // ---------------------------------------------------------------- what a frame is

  lemma PositionIsFound(s: string)
    ensures FindPosition(s).Some? <==> EndsInPosition(s)
  {
    if FindPosition(s).Some? {
      var i := FindPosition(s).value;
      if TwoPosition(s[i..]) {
        var k := TwoColons(s[i..]);
        assert s[i..][k..] == s[i + k..];
      }
    }
    if EndsInPosition(s) {
      var j :| 0 <= j < |s| && OnePosition(s[j..]);
      assert IsPosition(s[j..]);
    }
  }

  lemma PositionEnds(clean: string, position: string)
    requires IsPosition(position)
    ensures EndsInPosition(clean + position) && FindPosition(clean + position).Some?
  {
    var s := clean + position;
    if TwoPosition(position) {
      var k := TwoColons(position);
      assert s[|clean| + k..] == position[k..];
    } else {
      assert s[|clean|..] == position;
    }
    PositionIsFound(s);
  }

  /** A position in a line that is recognised in its shape: Firefox lines hold no white space. */
  predicate Recognised(shape: Shape, clean: string, position: string) {
    && IsPosition(position) && PlainShape(shape, clean + position)
    && (shape.Firefox? ==>
          clean != "" && ':' !in shape.name && forall c :: c in shape.name + clean + position ==> !IsBlank(c))
  }

  /** A line of each shape is a frame if its location ends in a position. */
  lemma ShapesAreFrames(shape: Shape, clean: string, position: string)
    requires Recognised(shape, clean, position)
    ensures IsFrame(FrameLine(shape, clean + position))
  {
    hide IsPosition, FindPosition, PlainName, Trim, SplitV8, IndexOf, SpaceAhead;
    var location := clean + position;
    PositionEnds(clean, position);
    match shape
    case Bracketed(name) =>
      V8Splits(name, location);
      V8Inner(name, location);
    case Bare =>
      BareSplits(location);
      StartsAt(location);
    case Firefox(name) => FirefoxIsFrame(name, clean, position);
  }

  lemma FirefoxIsFrame(name: string, clean: string, position: string)
    requires Recognised(Firefox(name), clean, position)
    ensures IsFirefoxFrame(name + "@" + (clean + position))
  {
    hide IsPosition, IndexOf, IsBlank;
    var frame := name + "@" + (clean + position);
    FirefoxSplits(name, clean + position);
    assert frame == name + "@" + clean + position;
    assert frame[..|name|] == name;
    var k := |name| + 1 + |clean|;
    assert frame[k..] == position;
    PositionNonEmpty(position);
    AtIsNotBlank();
    assert forall c :: c in frame <==> c == '@' || c in name + clean + position;
  }

  lemma PositionNonEmpty(position: string)
    requires IsPosition(position)
    ensures position != ""
  {}

  lemma AtIsNotBlank()
    ensures !IsBlank('@')
  {}

  predicate EndsInDigit(s: string) {
    s != "" && IsDigit(s[|s| - 1])
  }

  /** What looks like a frame but is none: a frame ends in a digit, or in one and a bracket. */
  lemma FramesEndInDigits(line: string)
    requires IsFrame(line) && Trim(line) == line
    ensures EndsInDigit(line) || (line[|line| - 1] == ')' && EndsInDigit(line[..|line| - 1]))
    ensures Starts(line, "at ") || ('@' in line && forall c :: c in line ==> !IsBlank(c))
    ensures !Starts(line, "at ") ==> forall i :: 0 <= i < |line| && ':' == line[i] ==> '@' in line[..i]
  {
    hide IsPosition, SplitV8, FindPosition, Trim;
    if IsV8Frame(line) {
      V8EndsInDigit(line);
    }
    if IsFirefoxFrame(line) {
      FirefoxEndsInDigit(line);
    }
  }

  lemma PositionEndsInDigit(position: string)
    requires IsPosition(position)
    ensures IsDigit(position[|position| - 1])
  {
    if TwoPosition(position) {
      var k := TwoColons(position);
      assert position[k..][1..][|position| - k - 2] == position[|position| - 1];
    } else {
      assert position[1..][|position| - 2] == position[|position| - 1];
    }
  }

  lemma ColonIsBehind(line: string, at: nat, i: int)
    requires at < |line| && line[at] == '@' && ':' !in line[..at] && 0 <= i < |line| && line[i] == ':'
    ensures at < i
  {
    assert forall j :: 0 <= j < at ==> line[j] == line[..at][j];
  }

  lemma FirefoxEndsInDigit(line: string)
    requires IsFirefoxFrame(line)
    ensures EndsInDigit(line) && '@' in line && forall c :: c in line ==> !IsBlank(c)
    ensures forall i :: 0 <= i < |line| && ':' == line[i] ==> '@' in line[..i]
  {
    hide IsPosition, IsBlank, IndexFrom;
    var at := IndexOf(line, "@").value;
    var k :| at + 1 < k < |line| && IsPosition(line[k..]);
    PositionEndsInDigit(line[k..]);
    assert line[at] == '@' by {
      assert "@" <= line[at..];
      assert line[at..][0] == line[at];
    }
    forall i | 0 <= i < |line| && ':' == line[i] ensures '@' in line[..i] {
      ColonIsBehind(line, at, i);
      assert line[..i][at] == '@';
    }
  }

  lemma {:induction false} TrimLeftIsEnd(s: string)
    ensures |TrimLeft(s)| <= |s| && TrimLeft(s) == s[|s| - |TrimLeft(s)|..]
    decreases |s|
  {
    hide IsSpace;
    if SpaceAhead(s) == 0 {
    } else {
      var rest := s[SpaceAhead(s)..];
      TrimLeftIsEnd(rest);
      assert TrimLeft(s) == rest[|rest| - |TrimLeft(rest)|..];
    }
  }

  /** A text without white space at its end has none at the end of any part that it ends in. */
  lemma EndHasNoSpace(s: string, n: nat)
    requires n <= |s| && SpaceBehind(s) == 0
    ensures TrimRight(s[n..]) == s[n..]
  {
    hide IsSpace;
    var t := s[n..];
    var m := SpaceBehind(t);
    if m > 0 {
      assert t[|t| - m..] == s[|s| - m..];
      SpaceAtEnd(s, m);
    }
  }

  lemma SpaceAtEnd(s: string, m: nat)
    requires 0 < m <= 3 && m <= |s| && IsSpace(s[|s| - m..])
    ensures SpaceBehind(s) > 0
  {
    hide IsSpace;
    if SpaceBehind(s) == 0 {
      NoneAtEnd(s, m);
    }
  }

  lemma NoneAtEnd(s: string, m: nat)
    requires SpaceBehind(s) == 0 && 0 < m <= 3 && m <= |s|
    ensures !IsSpace(s[|s| - m..])
  {
    hide IsSpace;
    match m {
      case 1 => assert !IsSpace(s[|s| - 1..]);
      case 2 => assert !IsSpace(s[|s| - 2..]);
      case _ => assert !IsSpace(s[|s| - 3..]);
    }
  }

  lemma TrimmedEnd(line: string)
    requires Trim(line) == line && Starts(line, "at ")
    ensures var rest := Trim(line[3..]); |rest| <= |line| && rest == line[|line| - |rest|..]
  {
    hide IsSpace, SpaceBehind, SpaceAhead;
    TrimRightIs(TrimLeft(line));
    var rest := line[3..];
    TrimLeftIsEnd(rest);
    assert TrimLeft(rest) == line[|line| - |TrimLeft(rest)|..];
    EndHasNoSpace(line, |line| - |TrimLeft(rest)|);
  }

  /** A line that came out of a trim ends where its location does, or one bracket further on. */
  lemma V8EndsInDigit(line: string)
    requires IsV8Frame(line) && Trim(line) == line
    ensures EndsInDigit(line) || (line[|line| - 1] == ')' && EndsInDigit(line[..|line| - 1]))
  {
    hide Trim, IsPosition, IndexOf;
    TrimmedEnd(line);
    var rest, split := Trim(line[3..]), SplitV8(line);
    var i := FindPosition(split.location).value;
    PositionEndsInDigit(split.location[i..]);
    if split.suffix == ")" {
      assert rest[|rest| - 1] == ')' && split.location[|split.location| - 1] == rest[|rest| - 2];
    }
  }

  // ---------------------------------------------------------------- what is hashed of a whole stack

  /**
   Two events whose stacks differ in the query of the first frame, and in any lines behind it, are hashed alike
   exactly when the position has a line and a column or the query does not end in what looks like a line.
   */
  lemma StacksRegroup(e: Event, before: seq<string>, shape: Shape, clean: string, query: string, position: string,
                      line: string, behind: seq<string>, other: seq<string>, otherBehind: seq<string>,
                      plain: string)
    requires NoFrames(before) && NoFrames(other)
    requires OneLineEach(before + [line] + behind) && OneLineEach(other + [plain] + otherBehind)
    requires Clean(clean) && query != [] && (query[0] == '?' || query[0] == '#')
    requires Recognised(shape, clean + query, position) && Recognised(shape, clean, position)
    requires Trim(line) == FrameLine(shape, clean + query + position)
    requires Trim(plain) == FrameLine(shape, clean + position)
    ensures Preimage(Parts(e.(stack := Text(before + [line] + behind))))
         == Preimage(Parts(e.(stack := Text(other + [plain] + otherBehind))))
       <==> TwoPosition(position) || !EndsInPosition(query)
  {
    hide Preimage, Trim, FrameLine, CanonicalFrame, PlainShape, IsPosition, IsFrame, FirstFrame, Lines, Text;
    var a, b := e.(stack := Text(before + [line] + behind)), e.(stack := Text(other + [plain] + otherBehind));
    LinesOfText(before + [line] + behind);
    LinesOfText(other + [plain] + otherBehind);
    ShapesAreFrames(shape, clean + query, position);
    ShapesAreFrames(shape, clean, position);
    FrameIsFound(before, line, behind, "");
    FrameIsFound(other, plain, otherBehind, "");
    QueriesRegroup(shape, clean, query, position);
    SameBytesSameGroup(a, b);
  }

  /** A stack without frames is hashed as its first line that is not blank. */
  lemma StacksWithoutFrames(e: Event, lines: seq<string>)
    requires lines != [] && OneLineEach(lines) && NoFrames(lines)
    ensures Parts(e.(stack := Text(lines)))[6] == FirstLine(lines)
  {
    hide Text, Lines, FirstFrame, FirstLine;
    LinesOfText(lines);
    NoFrameFound(lines);
  }
}
