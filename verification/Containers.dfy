/** Indentation, tabs, and the container markers in front of a line of Markdown. */
module Containers {
  import opened Options

  /** The markers are matched by what they look like; `orderedStart` is the number of an ordered list marker. */
  datatype Container =
    | Quote
    | Footnote(indent: nat)
    | Item(indent: nat, markerIndent: nat, marker: string, orderedStart: Option<nat>)

  // ---------------------------------------------------------------- columns

  function Spaces(n: nat): string {
    if n == 0 then "" else " " + Spaces(n - 1)
  }

  predicate Blank(c: char) {
    c == ' ' || c == '\t'
  }

  function Advance(c: char, column: nat): nat {
    if c == '\t' then column + 4 - column % 4 else column + 1
  }

  /** The column behind `s`, which starts at `column`. */
  function ColumnAfter(s: string, column: nat): (after: nat)
    ensures after >= column + |s|
  {
    if s == "" then column else ColumnAfter(s[1..], Advance(s[0], column))
  }

  function Piece(c: char, column: nat): string {
    if c == '\t' then Spaces(4 - column % 4) else [c]
  }

  /** Tabs become the spaces up to the next multiple of four columns. */
  function Expanded(s: string, column: nat): string {
    if s == "" then "" else Piece(s[0], column) + Expanded(s[1..], Advance(s[0], column))
  }

  /** How many blanks a string starts with. */
  function Blanks(s: string): (n: nat)
    ensures n <= |s| && (forall i :: 0 <= i < n ==> Blank(s[i])) && (n < |s| ==> !Blank(s[n]))
  {
    if s == "" || !Blank(s[0]) then 0 else 1 + Blanks(s[1..])
  }

  /** Removes `width` columns of indentation; a tab that reaches further leaves spaces behind. */
  function StripIndent(line: string, width: nat): Option<string> {
    var n := Blanks(line);
    var column := ColumnAfter(line[..n], 0);
    if column < width then None else Some(Spaces(column - width) + Expanded(line[n..], column))
  }

  method ExpandTabs(value: string, initialColumn: nat) returns (expanded: string)
    ensures expanded == Expanded(value, initialColumn)
  {
    hide Spaces, Expanded;
    var column := initialColumn;
    expanded := "";
    assert value[0..] == value;
    for i := 0 to |value|
      invariant Expanded(value, initialColumn) == expanded + Expanded(value[i..], column)
    {
      ExpandedStep(expanded, value[i..], column);
      assert value[i..][0] == value[i] && value[i..][1..] == value[i + 1..];
      if value[i] == '\t' {
        var width := 4 - column % 4;
        expanded := expanded + Spaces(width);
        column := column + width;
      } else {
        expanded := expanded + [value[i]];
        column := column + 1;
      }
    }
    NothingExpands(column);
    assert value[|value|..] == "";
  }

  lemma NothingExpands(column: nat)
    ensures Expanded("", column) == ""
  {}

  lemma ExpandedStep(front: string, s: string, column: nat)
    requires s != ""
    ensures front + Expanded(s, column) == front + Piece(s[0], column) + Expanded(s[1..], Advance(s[0], column))
  {
    hide Piece, Advance;
    assert Expanded(s, column) == Piece(s[0], column) + Expanded(s[1..], Advance(s[0], column));
  }

  method StripIndentation(line: string, width: nat) returns (stripped: Option<string>)
    ensures stripped == StripIndent(line, width)
  {
    var column, index := 0, 0;
    while index < |line| && (line[index] == ' ' || line[index] == '\t')
      invariant 0 <= index <= Blanks(line) && column == ColumnAfter(line[..index], 0)
    {
      SnocColumn(line[..index], line[index], 0);
      assert line[..index + 1] == line[..index] + [line[index]];
      if line[index] == ' ' {
        column := column + 1;
      } else {
        column := column + 4 - column % 4;
      }
      index := index + 1;
    }
    if column < width {
      return None;
    }
    var rest := ExpandTabs(line[index..], column);
    return Some(Spaces(column - width) + rest);
  }

  lemma {:induction false} SnocColumn(s: string, c: char, column: nat)
    ensures ColumnAfter(s + [c], column) == Advance(c, ColumnAfter(s, column))
  {
    if s == "" {
      assert s + [c] == [c] && [c][1..] == "";
    } else {
      assert (s + [c])[1..] == s[1..] + [c];
      SnocColumn(s[1..], c, Advance(s[0], column));
    }
  }

  // ---------------------------------------------------------------- laws of indentation

  /** The characters that are not blanks; they are never added and never moved past each other. */
  function Ink(s: string): string {
    if s == "" then "" else (if Blank(s[0]) then "" else [s[0]]) + Ink(s[1..])
  }

  lemma {:induction false} InkConcat(a: string, b: string)
    ensures Ink(a + b) == Ink(a) + Ink(b)
  {
    if a == "" {
      assert a + b == b;
    } else {
      assert (a + b)[1..] == a[1..] + b;
      InkConcat(a[1..], b);
    }
  }

  lemma InkStarts(s: string)
    requires s != "" && !Blank(s[0])
    ensures Ink(s) == [s[0]] + Ink(s[1..])
  {}

  lemma {:induction false} SpacesAreBlank(n: nat)
    ensures |Spaces(n)| == n && Ink(Spaces(n)) == "" && forall i :: 0 <= i < n ==> Spaces(n)[i] == ' '
  {
    if n == 0 {
    } else {
      SpacesAreBlank(n - 1);
      assert Spaces(n)[1..] == Spaces(n - 1);
    }
  }

  lemma PieceIsPlain(c: char, column: nat)
    ensures Ink(Piece(c, column)) == (if Blank(c) then "" else [c]) && '\t' !in Piece(c, column)
    ensures column + |Piece(c, column)| == Advance(c, column)
  {
    SpacesAreBlank(4 - column % 4);
    assert [c][1..] == "";
  }

  /** Expanding tabs keeps the ink, leaves no tab, and keeps the columns. */
  lemma {:induction false} ExpandingKeepsInk(s: string, column: nat)
    ensures Ink(Expanded(s, column)) == Ink(s) && '\t' !in Expanded(s, column)
    ensures column + |Expanded(s, column)| == ColumnAfter(s, column)
  {
    if s == "" {
    } else {
      ExpandingKeepsInk(s[1..], Advance(s[0], column));
      PieceIsPlain(s[0], column);
      hide Piece, Advance, Spaces;
      InkConcat(Piece(s[0], column), Expanded(s[1..], Advance(s[0], column)));
    }
  }

  lemma {:induction false} BlanksHaveNoInk(s: string)
    ensures Ink(s) == Ink(s[Blanks(s)..])
  {
    if s != "" && Blank(s[0]) {
      BlanksHaveNoInk(s[1..]);
      assert s[1..][Blanks(s[1..])..] == s[Blanks(s)..];
    }
  }

  lemma {:induction false} NoTabsExpand(s: string, column: nat)
    requires '\t' !in s
    ensures Expanded(s, column) == s && ColumnAfter(s, column) == column + |s|
  {
    if s == "" {
    } else {
      assert s == [s[0]] + s[1..];
      NoTabsExpand(s[1..], column + 1);
    }
  }

  lemma {:induction false} BlanksOfSpaces(n: nat, rest: string)
    requires rest != "" ==> !Blank(rest[0])
    ensures Blanks(Spaces(n) + rest) == n
  {
    if n == 0 {
      assert Spaces(n) + rest == rest;
    } else {
      var s := Spaces(n) + rest;
      assert s[0] == ' ' && s[1..] == Spaces(n - 1) + rest;
      BlanksOfSpaces(n - 1, rest);
    }
  }

  /** Stripping twice strips the sum, tabs or no tabs. */
  lemma StrippingAdds(line: string, a: nat, b: nat)
    ensures StripIndent(line, a + b)
         == match StripIndent(line, a) case None => None case Some(rest) => StripIndent(rest, b)
  {
    var n := Blanks(line);
    var column := ColumnAfter(line[..n], 0);
    if column >= a {
      var tail := Expanded(line[n..], column);
      ExpandingKeepsInk(line[n..], column);
      assert tail != "" ==> !Blank(tail[0]);
      hide Expanded, Blanks, ColumnAfter, Ink;
      StripExpanded(column - a, tail, b);
    }
  }

  lemma StripExpanded(k: nat, tail: string, b: nat)
    requires '\t' !in tail && (tail != "" ==> !Blank(tail[0]))
    ensures StripIndent(Spaces(k) + tail, b) == if k < b then None else Some(Spaces(k - b) + tail)
  {
    hide Expanded, Spaces, Blanks, ColumnAfter;
    var rest := Spaces(k) + tail;
    BlanksOfSpaces(k, tail);
    SpacesAreBlank(k);
    assert rest[..k] == Spaces(k) && rest[k..] == tail;
    NoTabsExpand(Spaces(k), 0);
    NoTabsExpand(tail, k);
  }

  // ---------------------------------------------------------------- markers

  function LeadingSpaces(s: string): (n: nat)
    ensures n <= |s|
  {
    if s == "" || s[0] != ' ' then 0 else 1 + LeadingSpaces(s[1..])
  }

  /** What a block quote marker leaves of a line; the marker takes one column of the white space behind it. */
  function StripQuote(line: string): Option<string> {
    var k := LeadingSpaces(line);
    if k > 3 || k == |line| || line[k] != '>' then None
    else
      var after := line[k + 1..];
      var n := Blanks(after);
      var column := ColumnAfter(after[..n], k + 1);
      var width := column - (k + 1);
      Some(Spaces(if width > 0 then width - 1 else 0) + Expanded(after[n..], column))
  }

  /** A list marker: how much of the line it is, the column of its content, and what it looks like. */
  datatype ListMarker = ListMarker(length: nat, indent: nat, marker: string, markerIndent: nat,
                                   orderedStart: Option<nat>, empty: bool)

  predicate IsDigit(c: char) {
    '0' <= c <= '9'
  }

  function DigitCount(s: string): (n: nat)
    ensures n <= |s| && forall i :: 0 <= i < n ==> IsDigit(s[i])
  {
    if s == "" || !IsDigit(s[0]) then 0 else 1 + DigitCount(s[1..])
  }

  function NumberOf(digits: string): nat
    requires forall i :: 0 <= i < |digits| ==> IsDigit(digits[i])
  {
    if digits == "" then 0
    else
      assert IsDigit(digits[|digits| - 1]);
      NumberOf(digits[..|digits| - 1]) * 10 + (digits[|digits| - 1] as int - '0' as int)
  }

  /** A bullet, or one to nine digits and a delimiter: the marker's length and its number. */
  function MarkerAt(s: string): (m: Option<(nat, Option<nat>)>)
    ensures m.Some? ==> 1 <= m.value.0 <= |s| && !Blank(s[0])
  {
    if s == "" then None
    else if s[0] in "-+*" then Some((1, None))
    else
      var n := DigitCount(s);
      if 1 <= n <= 9 && n < |s| && (s[n] == '.' || s[n] == ')') then Some((n + 1, Some(NumberOf(s[..n])))) else None
  }

  /**
   Where the padding of a marker ends: behind all its blanks, or, if they are wider than four columns, behind the
   first.
   */
  function PaddingEnd(after: string, column: nat): (end: (nat, nat))
    requires after != "" && Blank(after[0])
    ensures 1 <= end.0 <= |after|
  {
    var n := Blanks(after);
    if ColumnAfter(after[..n], column) - column > 4 then (1, Advance(after[0], column))
    else (n, ColumnAfter(after[..n], column))
  }

  function ListMarkerPrefix(value: string): (list: Option<ListMarker>)
    ensures list.Some? ==> 1 <= list.value.length <= |value|
  {
    var k := LeadingSpaces(value);
    if k > 3 || MarkerAt(value[k..]) == None then None
    else
      var (length, start) := MarkerAt(value[k..]).value;
      var index := k + length;
      var column := ColumnAfter(value[..index], 0);
      var text := value[k..index];
      var after := value[index..];
      if Blanks(after) == |after| then Some(ListMarker(|value|, column + 1, text, k, start, true))
      else if !Blank(after[0]) then None
      else
        var (n, indent) := PaddingEnd(after, column);
        Some(ListMarker(index + n, indent, text, k, start, false))
  }

  /** The loop over the padding, which leaves as soon as it is wider than four columns. */
  method ScanPadding(after: string, markerColumn: nat) returns (n: nat, indent: nat)
    requires after != "" && Blank(after[0])
    ensures (n, indent) == PaddingEnd(after, markerColumn)
  {
    var index, column := 0, markerColumn;
    while index < |after| && (after[index] == ' ' || after[index] == '\t')
      invariant 0 <= index <= Blanks(after) && column == ColumnAfter(after[..index], markerColumn)
      invariant column - markerColumn <= 4
    {
      SnocColumn(after[..index], after[index], markerColumn);
      assert after[..index + 1] == after[..index] + [after[index]];
      column := Advance(after[index], column);
      if column - markerColumn > 4 {
        ColumnGrows(after[..index + 1], after[index + 1..Blanks(after)], markerColumn);
        assert after[..Blanks(after)] == after[..index + 1] + after[index + 1..Blanks(after)];
        return 1, Advance(after[0], markerColumn);
      }
      index := index + 1;
    }
    return index, column;
  }

  lemma {:induction false} ColumnGrows(a: string, b: string, column: nat)
    ensures ColumnAfter(a + b, column) == ColumnAfter(b, ColumnAfter(a, column)) >= ColumnAfter(a, column)
  {
    if a == "" {
      assert a + b == b;
    } else {
      assert (a + b)[1..] == a[1..] + b;
      ColumnGrows(a[1..], b, Advance(a[0], column));
    }
  }

  function WithoutReturn(line: string): string {
    if line != "" && line[|line| - 1] == '\r' then line[..|line| - 1] else line
  }

  // ---------------------------------------------------------------- parsing containers

  lemma {:induction false} LeadingSpacesHaveNoInk(s: string)
    ensures Ink(s) == Ink(s[LeadingSpaces(s)..])
  {
    if s != "" && s[0] == ' ' {
      LeadingSpacesHaveNoInk(s[1..]);
      assert s[1..][LeadingSpaces(s[1..])..] == s[LeadingSpaces(s)..];
    }
  }

  /** A quote marker takes exactly its own ink. */
  lemma QuoteTakesInk(line: string)
    requires StripQuote(line).Some?
    ensures Ink(line) == ">" + Ink(StripQuote(line).value)
  {
    hide Blanks, ColumnAfter, Expanded, Spaces, Ink, LeadingSpaces;
    var k := LeadingSpaces(line);
    var after := line[k + 1..];
    InkStarts(line[k..]);
    var n := Blanks(after);
    var column := ColumnAfter(after[..n], k + 1);
    var width := column - (k + 1);
    LeadingSpacesHaveNoInk(line);
    assert line[k..][1..] == after;
    BlanksHaveNoInk(after);
    SpacesAreBlank(if width > 0 then width - 1 else 0);
    ExpandingKeepsInk(after[n..], column);
    InkConcat(Spaces(if width > 0 then width - 1 else 0), Expanded(after[n..], column));
  }

  /** What a list marker leaves of a line. */
  function ItemContent(value: string): string
    requires ListMarkerPrefix(value).Some?
  {
    Expanded(value[ListMarkerPrefix(value).value.length..], ListMarkerPrefix(value).value.indent)
  }

  predicate EndsWith(s: string, end: string) {
    |end| <= |s| && s[|s| - |end|..] == end
  }

  lemma EndsWithConcat(front: string, end: string)
    ensures EndsWith(front + end, end)
  {}

  lemma EndsWithTransitive(a: string, b: string, c: string)
    requires EndsWith(a, b) && EndsWith(b, c)
    ensures EndsWith(a, c)
  {
    assert a[|a| - |b|..][|b| - |c|..] == a[|a| - |c|..];
  }

  /** A list marker takes some ink off the front, and nothing behind it. */
  lemma ItemTakesInk(value: string)
    requires ListMarkerPrefix(value).Some?
    ensures EndsWith(Ink(value), Ink(ItemContent(value))) && |Ink(ItemContent(value))| < |Ink(value)|
  {
    var k := MarkerStartsInInk(value);
    hide ListMarkerPrefix, Expanded, ColumnAfter, Ink;
    var list := ListMarkerPrefix(value).value;
    ExpandingKeepsInk(value[list.length..], list.indent);
    LessInk(value, k, list.length);
  }

  lemma LessInk(s: string, k: nat, m: nat)
    requires k < m <= |s| && !Blank(s[k])
    ensures EndsWith(Ink(s[k..]), Ink(s[m..])) && |Ink(s[m..])| < |Ink(s[k..])|
  {
    hide Ink;
    assert s[k..] == s[k..m] + s[m..];
    InkConcat(s[k..m], s[m..]);
    EndsWithConcat(Ink(s[k..m]), Ink(s[m..]));
    InkStarts(s[k..m]);
  }

  lemma MarkerStartsInInk(value: string) returns (k: nat)
    requires ListMarkerPrefix(value).Some?
    ensures k < ListMarkerPrefix(value).value.length && !Blank(value[k]) && Ink(value[k..]) == Ink(value)
  {
    hide ColumnAfter, PaddingEnd, Blanks, Ink;
    k := LeadingSpaces(value);
    LeadingSpacesHaveNoInk(value);
  }

  datatype Parsed = Parsed(content: string, containers: seq<Container>)

  /** Whether a marker may be refused inside a paragraph: an empty item, a number other than one, an indented block. */
  predicate Interrupting(list: ListMarker, value: string)
    requires list.length <= |value|
  {
    list.empty || (list.orderedStart.Some? && list.orderedStart != Some(1))
    || StripIndent(value[list.length..], 4).Some?
  }

  /**
   Takes markers off the front until none is left. Each one takes ink, so this ends even where tabs grow into
   spaces.
   */
  function ParseFrom(remaining: string, containers: seq<Container>,
                     canInterrupt: Option<seq<Container> -> bool>): Parsed
    decreases |Ink(remaining)|
  {
    if StripQuote(remaining).Some? then
      QuoteTakesInk(remaining);
      ParseFrom(StripQuote(remaining).value, containers + [Quote], canInterrupt)
    else if ListMarkerPrefix(remaining).Some? then
      var list := ListMarkerPrefix(remaining).value;
      if Interrupting(list, remaining) && canInterrupt.Some? && !canInterrupt.value(containers)
      then Parsed(remaining, containers)
      else
        ItemTakesInk(remaining);
        ParseFrom(ItemContent(remaining),
                  containers + [Item(list.indent, list.markerIndent, list.marker, list.orderedStart)], canInterrupt)
    else Parsed(remaining, containers)
  }

  function ParseContainers(line: string): Parsed {
    ParseFrom(WithoutReturn(line), [], None)
  }

  /** A list marker that the caller does not accept inside the paragraph. */
  ghost predicate Refused(content: string, containers: seq<Container>, canInterrupt: Option<seq<Container> -> bool>) {
    && ListMarkerPrefix(content).Some? && Interrupting(ListMarkerPrefix(content).value, content)
    && canInterrupt.Some? && !canInterrupt.value(containers)
  }

  /**
   Parsing stops at content without a marker, or at the first item that may not interrupt the paragraph. The ink of
   the content is the end of the ink there was, and each container has used some of the rest.
   */
  lemma {:induction false} ParsingEnds(remaining: string, containers: seq<Container>,
                                       canInterrupt: Option<seq<Container> -> bool>)
    ensures var p := ParseFrom(remaining, containers, canInterrupt);
            && StripQuote(p.content) == None
            && (ListMarkerPrefix(p.content) == None || Refused(p.content, p.containers, canInterrupt))
            && EndsWith(Ink(remaining), Ink(p.content))
            && containers <= p.containers && |Ink(p.content)| + |p.containers| - |containers| <= |Ink(remaining)|
    decreases |Ink(remaining)|
  {
    hide Ink, StripQuote, ListMarkerPrefix, Interrupting, ItemContent;
    if StripQuote(remaining).Some? {
      var rest := StripQuote(remaining).value;
      QuoteTakesInk(remaining);
      EndsWithConcat(">", Ink(rest));
      ParsingEnds(rest, containers + [Quote], canInterrupt);
      EndsWithTransitive(Ink(remaining), Ink(rest), Ink(ParseFrom(rest, containers + [Quote], canInterrupt).content));
    } else if ListMarkerPrefix(remaining).Some? && !Refused(remaining, containers, canInterrupt) {
      var list := ListMarkerPrefix(remaining).value;
      var item := Item(list.indent, list.markerIndent, list.marker, list.orderedStart);
      ItemTakesInk(remaining);
      ParsingEnds(ItemContent(remaining), containers + [item], canInterrupt);
      EndsWithTransitive(Ink(remaining), Ink(ItemContent(remaining)),
                         Ink(ParseFrom(ItemContent(remaining), containers + [item], canInterrupt).content));
    }
  }
}
