/** What indentation and markers do, said of the line as it looks once its tabs are spaces. */
module ContainerLaws {
  import opened Options
  import opened Containers
  import opened Paragraph
  import Fingerprint

  /** The line in columns. */
  function Columns(line: string): string {
    Expanded(line, 0)
  }

  /** A text that starts with so many spaces. */
  predicate Indented(text: string, width: nat) {
    width <= |text| && forall i :: 0 <= i < width ==> text[i] == ' '
  }

  /** A text that starts with exactly so many spaces. */
  predicate IndentedBy(text: string, width: nat) {
    Indented(text, width) && (width < |text| ==> text[width] != ' ')
  }

  // ---------------------------------------------------------------- columns

  lemma {:induction false} ExpandedConcat(a: string, b: string, column: nat)
    ensures Expanded(a + b, column) == Expanded(a, column) + Expanded(b, ColumnAfter(a, column))
  {
    hide Piece, Advance;
    if a == "" {
      assert a + b == b;
    } else {
      assert (a + b)[1..] == a[1..] + b;
      ExpandedConcat(a[1..], b, Advance(a[0], column));
    }
  }

  lemma SpacesAdd(m: nat, n: nat)
    ensures Spaces(m) + Spaces(n) == Spaces(m + n)
  {
    SpacesAreBlank(m);
    SpacesAreBlank(n);
    SpacesAreBlank(m + n);
  }

  lemma {:induction false} BlanksExpand(s: string, column: nat)
    requires forall i :: 0 <= i < |s| ==> Blank(s[i])
    ensures Expanded(s, column) == Spaces(ColumnAfter(s, column) - column)
  {
    if s == "" {
    } else {
      var next := Advance(s[0], column);
      BlanksExpand(s[1..], next);
      SpacesAdd(next - column, ColumnAfter(s, column) - next);
      assert Piece(s[0], column) == Spaces(next - column) by {
        assert Spaces(1) == " " + Spaces(0);
      }
    }
  }

  /** A tab reaches to the next multiple of four columns. */
  lemma TabStops(before: string, behind: string)
    ensures var column, tab := |Columns(before)|, |Columns(before + "\t")|;
            tab % 4 == 0 && column < tab <= column + 4
    ensures Columns(before + "\t" + behind) == Columns(before + "\t") + Expanded(behind, |Columns(before + "\t")|)
  {
    hide Expanded, ColumnAfter;
    ExpandingKeepsInk(before, 0);
    ExpandingKeepsInk(before + "\t", 0);
    SnocColumn(before, '\t', 0);
    ExpandedConcat(before + "\t", behind, 0);
  }

  /** Any other character takes one column. */
  lemma OneColumn(before: string, c: char)
    requires c != '\t'
    ensures Columns(before + [c]) == Columns(before) + [c]
  {
    ExpandedConcat(before, [c], 0);
    assert [c][1..] == "";
  }

  /** The blanks in front of a text, in columns, and what is behind them. */
  lemma LeadingColumns(s: string, column: nat)
    ensures var n := Blanks(s);
            var width := ColumnAfter(s[..n], column) - column;
            && Expanded(s, column) == Spaces(width) + Expanded(s[n..], column + width)
            && IndentedBy(Expanded(s, column), width)
  {
    hide Expanded, ColumnAfter, Spaces, Blanks;
    var n := Blanks(s);
    var width := ColumnAfter(s[..n], column) - column;
    assert s == s[..n] + s[n..];
    ExpandedConcat(s[..n], s[n..], column);
    BlanksExpand(s[..n], column);
    SpacesAreBlank(width);
    var tail := Expanded(s[n..], column + width);
    InkFirst(s[n..], column + width);
    assert tail != "" ==> Expanded(s, column)[width] == tail[0];
  }

  lemma InkFirst(s: string, column: nat)
    requires s != "" ==> !Blank(s[0])
    ensures s == "" ==> Expanded(s, column) == ""
    ensures s != "" ==> Expanded(s, column) != "" && Expanded(s, column)[0] == s[0]
  {}

  // ---------------------------------------------------------------- indentation and quotes

  /** A line loses `width` columns of spaces if it starts with them. */
  lemma StripExactly(line: string, width: nat)
    ensures StripIndent(line, width)
         == if Indented(Columns(line), width) then Some(Columns(line)[width..]) else None
  {
    hide Blanks, ColumnAfter, Expanded, Spaces;
    LeadingColumns(line, 0);
    var n := Blanks(line);
    var column := ColumnAfter(line[..n], 0);
    var tail := Expanded(line[n..], column);
    SpacesAreBlank(column);
    if column >= width {
      SpacesAdd(width, column - width);
      SpacesAreBlank(width);
      SpacesAreBlank(column - width);
      assert Columns(line) == Spaces(width) + (Spaces(column - width) + tail);
    }
  }

  /** A text without its first space, if it starts with one. */
  function WithoutSpace(text: string): string {
    if text != "" && text[0] == ' ' then text[1..] else text
  }

  /** A quote is up to three spaces and `>`, which takes one column of the white space behind it. */
  lemma QuoteExactly(line: string)
    ensures StripQuote(line).Some? <==> exists k :: 0 <= k <= 3 && k < |line| && Indented(line, k) && line[k] == '>'
    ensures forall k :: 0 <= k <= 3 && k < |line| && Indented(line, k) && line[k] == '>' ==>
              k < |Columns(line)| && Columns(line)[k] == '>'
              && StripQuote(line).value == WithoutSpace(Columns(line)[k + 1..])
  {
    hide Expanded, Blanks, ColumnAfter, Spaces;
    LeadingAre(line);
    forall k | 0 <= k <= 3 && k < |line| && Indented(line, k) && line[k] == '>'
      ensures k < |Columns(line)| && Columns(line)[k] == '>'
      ensures StripQuote(line).value == WithoutSpace(Columns(line)[k + 1..])
    {
      LeadingIs(line, k);
      QuoteColumns(line, k);
    }
    assert StripQuote(line).Some? ==> Indented(line, LeadingSpaces(line));
  }

  lemma {:induction false} LeadingAre(s: string)
    ensures IndentedBy(s, LeadingSpaces(s))
  {
    if s != "" && s[0] == ' ' {
      LeadingAre(s[1..]);
      assert forall i :: 0 < i < |s| ==> s[i] == s[1..][i - 1];
    }
  }

  lemma LeadingIs(s: string, k: nat)
    requires IndentedBy(s, k)
    ensures LeadingSpaces(s) == k
  {
    LeadingAre(s);
    hide LeadingSpaces;
    assert IndentedBy(s, LeadingSpaces(s));
  }

  /** In front of the first tab, characters are columns. */
  lemma FrontIsPlain(s: string, k: nat)
    requires k <= |s| && '\t' !in s[..k]
    ensures Columns(s) == s[..k] + Expanded(s[k..], k)
  {
    hide Expanded, ColumnAfter;
    assert s == s[..k] + s[k..];
    ExpandedConcat(s[..k], s[k..], 0);
    NoTabsExpand(s[..k], 0);
  }

  lemma QuoteColumns(line: string, k: nat)
    requires k < |line| && k <= 3 && LeadingSpaces(line) == k && line[k] == '>' && Indented(line, k)
    ensures k < |Columns(line)| && Columns(line)[k] == '>'
    ensures StripQuote(line).Some? && StripQuote(line).value == WithoutSpace(Columns(line)[k + 1..])
  {
    hide Expanded, Blanks, ColumnAfter, Spaces, LeadingSpaces;
    FrontIsPlain(line, k + 1);
    var after := line[k + 1..];
    LeadingColumns(after, k + 1);
    var n := Blanks(after);
    var width := ColumnAfter(after[..n], k + 1) - (k + 1);
    var tail := Expanded(after[n..], k + 1 + width);
    assert Columns(line)[k + 1..] == Spaces(width) + tail;
    SpaceTaken(width, tail);
  }

  lemma SpaceTaken(width: nat, tail: string)
    requires IndentedBy(Spaces(width) + tail, width)
    ensures WithoutSpace(Spaces(width) + tail) == Spaces(if width > 0 then width - 1 else 0) + tail
  {
    hide Spaces;
    SpacesAreBlank(width);
    if width > 0 {
      SpacesAdd(1, width - 1);
      SpacesAreBlank(1);
      assert Spaces(width) + tail == Spaces(1) + (Spaces(width - 1) + tail);
    } else {
      assert Spaces(0) + tail == tail;
    }
  }

  // ---------------------------------------------------------------- list markers

  /** A bullet, or one to nine digits and a point or a bracket. */
  predicate MarkerText(text: string) {
    || (|text| == 1 && text[0] in "-+*")
    || (2 <= |text| <= 10 && (text[|text| - 1] == '.' || text[|text| - 1] == ')')
        && forall i :: 0 <= i < |text| - 1 ==> IsDigit(text[i]))
  }

  /** Up to three spaces and a marker, at the end of the line or in front of a blank. */
  predicate MarkerIn(value: string, k: nat, end: nat) {
    k <= 3 && k < end <= |value| && Indented(value, k) && MarkerText(value[k..end])
    && (end < |value| ==> Blank(value[end]))
  }

  /** The number of an ordered marker. */
  function MarkerNumber(text: string): Option<nat>
    requires MarkerText(text)
  {
    if |text| == 1 then None else Some(NumberOf(text[..|text| - 1]))
  }

  lemma {:induction false} DigitsCounted(s: string, n: nat)
    requires n < |s| && !IsDigit(s[n]) && forall i :: 0 <= i < n ==> IsDigit(s[i])
    ensures DigitCount(s) == n
  {
    if n > 0 {
      DigitsCounted(s[1..], n - 1);
    }
  }

  /** The marker at the front of a text. */
  lemma MarkerRead(s: string, m: nat)
    requires m <= |s| && MarkerText(s[..m])
    ensures MarkerAt(s) == Some((m, MarkerNumber(s[..m])))
    ensures '\t' !in s[..m] && s[0] != ' '
  {
    var text := s[..m];
    assert text[0] == s[0] && text[m - 1] == s[m - 1];
    if m > 1 {
      forall i | 0 <= i < m - 1 ensures IsDigit(s[i]) {
        assert text[i] == s[i];
      }
      DigitsCounted(s, m - 1);
      assert text[..m - 1] == s[..m - 1];
    }
  }

  lemma MarkerPlace(value: string, k: nat, end: nat)
    requires MarkerIn(value, k, end)
    ensures LeadingSpaces(value) == k && ColumnAfter(value[..end], 0) == end
    ensures MarkerAt(value[k..]) == Some((end - k, MarkerNumber(value[k..end])))
    ensures '\t' !in value[..end]
  {
    hide MarkerAt, LeadingSpaces, ColumnAfter, MarkerText;
    assert value[k..][..end - k] == value[k..end];
    MarkerRead(value[k..], end - k);
    LeadingIs(value, k);
    assert value[..end] == value[..k] + value[k..end];
    NoTabsExpand(value[..end], 0);
  }

  lemma AllBlank(s: string)
    ensures Blanks(s) == |s| <==> forall i :: 0 <= i < |s| ==> Blank(s[i])
  {}

  lemma LeadingWhere(value: string, k: nat, m: nat)
    requires k <= |value| && LeadingSpaces(value) == k
    requires MarkerAt(value[k..]).Some? && MarkerAt(value[k..]).value.0 == m
    ensures k + m <= |value| && m >= 1 && Indented(value, k) && MarkerText(value[k..k + m])
  {
    hide LeadingSpaces, MarkerAt, MarkerText, Indented;
    LeadingIndents(value);
    MarkerFound(value[k..]);
    Sliced(value, k, m);
  }

  lemma LeadingIndents(value: string)
    ensures Indented(value, LeadingSpaces(value))
  {
    LeadingAre(value);
  }

  lemma Sliced(s: string, k: nat, m: nat)
    requires k + m <= |s|
    ensures s[k..][..m] == s[k..k + m]
  {}

  lemma MarkerFound(s: string)
    requires MarkerAt(s).Some?
    ensures MarkerText(s[..MarkerAt(s).value.0])
  {}

  /** Which lines start a list item. */
  lemma ItemExactly(value: string)
    ensures ListMarkerPrefix(value).Some? <==> exists k, end :: MarkerIn(value, k, end)
  {
    hide MarkerAt, MarkerText, MarkerNumber, LeadingSpaces, ColumnAfter, Indented, PaddingEnd;
    if ListMarkerPrefix(value).Some? {
      var k := LeadingSpaces(value);
      var m := MarkerAt(value[k..]).value.0;
      LeadingWhere(value, k, m);
      assert MarkerIn(value, k, k + m);
    }
    if k, end :| MarkerIn(value, k, end) {
      MarkerPlace(value, k, end);
    }
  }

  /**
   What a marker says: where its content is, which is behind one to four columns of white space or behind the first
   blank of more than that, and behind one column if there is none.
   */
  lemma ItemMeans(value: string, k: nat, end: nat)
    requires MarkerIn(value, k, end)
    ensures ListMarkerPrefix(value).Some?
    ensures var list, line := ListMarkerPrefix(value).value, Columns(value);
            && list.markerIndent == k && list.marker == value[k..end]
            && list.orderedStart == MarkerNumber(value[k..end])
            && (list.empty <==> forall i :: end <= i < |value| ==> Blank(value[i]))
            && (list.empty ==> list.indent == end + 1 && ItemContent(value) == "")
            && (!list.empty ==> Behind(value, end, list.indent) && ItemContent(value) == line[list.indent..])
  {
    hide MarkerAt, MarkerText, MarkerNumber, LeadingSpaces, ColumnAfter, Indented, PaddingEnd, Expanded;
    MarkerPlace(value, k, end);
    AllBlank(value[end..]);
    var after := value[end..];
    assert (forall i :: 0 <= i < |after| ==> Blank(after[i])) <==> forall i :: end <= i < |value| ==> Blank(value[i]);
    NothingExpands(ListMarkerPrefix(value).value.indent);
    if Blanks(after) < |after| {
      PaddingMeans(value, end);
    } else {
      assert value[|value|..] == "";
    }
  }

  /** A column that the content of an item may start in. */
  predicate Behind(value: string, end: nat, indent: nat) {
    && end < indent <= |Columns(value)| && (forall i :: end <= i < indent ==> Columns(value)[i] == ' ')
    && (indent < |Columns(value)| && Columns(value)[indent] == ' ' ==>
          end < |value| && (forall i :: end <= i < end + 5 && i < |Columns(value)| ==> Columns(value)[i] == ' ')
          && indent == if value[end] == '\t' then end + 4 - end % 4 else end + 1)
    && (indent - end <= 4)
  }

  lemma PaddingMeans(value: string, end: nat)
    requires end < |value| && '\t' !in value[..end] && Blank(value[end]) && Blanks(value[end..]) < |value[end..]|
    ensures var (n, indent) := PaddingEnd(value[end..], end);
            && Behind(value, end, indent)
            && Expanded(value[end + n..], indent) == Columns(value)[indent..]
  {
    hide Expanded, ColumnAfter, Spaces;
    var after := value[end..];
    FrontIsPlain(value, end);
    LeadingColumns(after, end);
    var n := Blanks(after);
    var width := ColumnAfter(after[..n], end) - end;
    SpacesAreBlank(width);
    var tail := Expanded(after[n..], end + width);
    assert after[n..] == value[end + n..];
    assert Columns(value) == value[..end] + (Spaces(width) + tail);
    InkFirst(after[n..], end + width);
    if width > 4 {
      FirstBlank(value, end);
    }
  }

  lemma FirstBlank(value: string, end: nat)
    requires end < |value| && '\t' !in value[..end] && Blank(value[end])
    ensures var indent := Advance(value[end], end);
            indent <= |Columns(value)| && Expanded(value[end + 1..], indent) == Columns(value)[indent..]
  {
    hide Spaces;
    FrontIsPlain(value, end);
    var after := value[end..];
    PieceIsPlain(value[end], end);
    assert after[1..] == value[end + 1..];
    assert Expanded(after, end) == Piece(after[0], end) + Expanded(after[1..], Advance(after[0], end));
  }

  /** The number of a marker is the one its digits write, leading zeros or not. */
  lemma {:induction false} NumberReads(n: nat)
    ensures forall i :: 0 <= i < |Fingerprint.Natural(n)| ==> IsDigit(Fingerprint.Natural(n)[i])
    ensures NumberOf(Fingerprint.Natural(n)) == n
    decreases n
  {
    var digits := Fingerprint.Natural(n);
    if n < 10 {
      assert digits[..0] == "" && NumberOf("") == 0;
    } else {
      NumberReads(n / 10);
      assert digits[..|digits| - 1] == Fingerprint.Natural(n / 10);
    }
  }

  lemma {:induction false} LeadingZero(digits: string)
    requires forall i :: 0 <= i < |digits| ==> IsDigit(digits[i])
    ensures NumberOf("0" + digits) == NumberOf(digits)
    decreases |digits|
  {
    if digits == "" {
      assert ("0" + digits)[..0] == "" && NumberOf("") == 0;
    } else {
      LeadingZero(digits[..|digits| - 1]);
      assert ("0" + digits)[..|digits|] == "0" + digits[..|digits| - 1];
    }
  }

  /** One carriage return at the end of a line does not belong to it. */
  lemma ReturnDropped(line: string)
    ensures WithoutReturn(line + "\r") == line
    ensures line == "" || line[|line| - 1] != '\r' ==> WithoutReturn(line) == line
  {}

  // ---------------------------------------------------------------- parsing

  predicate HasItem(containers: seq<Container>) {
    exists i :: 0 <= i < |containers| && containers[i].Item?
  }

  /** A line belongs to the containers that its own markers open, and starts a new item of them if one is an item. */
  lemma {:induction false} MarkerLineBelongs(remaining: string, outer: seq<Container>)
    ensures var p := ParseFrom(remaining, outer, None);
            && outer <= p.containers
            && ContentWithin(remaining, p.containers[|outer|..]) == Some(p.content)
            && (StartsNewItem(remaining, p.containers[|outer|..]) <==> HasItem(p.containers[|outer|..]))
    decreases |Ink(remaining)|
  {
    hide Ink, StripQuote, ListMarkerPrefix, Interrupting, ItemContent, StripIndent;
    var p := ParseFrom(remaining, outer, None);
    ParsingEnds(remaining, outer, None);
    var inner := p.containers[|outer|..];
    if StripQuote(remaining).Some? {
      QuoteTakesInk(remaining);
      MarkerLineBelongs(StripQuote(remaining).value, outer + [Quote]);
      OneMoreOpened(p.containers, outer, Quote);
    } else if ListMarkerPrefix(remaining).Some? {
      var list := ListMarkerPrefix(remaining).value;
      var item := Item(list.indent, list.markerIndent, list.marker, list.orderedStart);
      ItemTakesInk(remaining);
      MarkerLineBelongs(ItemContent(remaining), outer + [item]);
      OneMoreOpened(p.containers, outer, item);
    } else {
      assert inner == [];
    }
  }

  lemma OneMoreOpened(all: seq<Container>, outer: seq<Container>, c: Container)
    requires outer + [c] <= all
    ensures var inner := all[|outer|..];
            inner != [] && inner[0] == c && inner[1..] == all[|outer + [c]|..]
    ensures HasItem(all[|outer|..]) <==> c.Item? || HasItem(all[|outer + [c]|..])
  {
    var inner, rest := all[|outer|..], all[|outer + [c]|..];
    assert all[|outer|] == (outer + [c])[|outer|];
    assert inner == [c] + rest;
    forall i | 0 <= i < |rest| ensures inner[i + 1] == rest[i] {}
  }

  /** A caller that accepts every marker is no different from none. */
  lemma {:induction false} AcceptingAll(remaining: string, outer: seq<Container>, accept: seq<Container> -> bool)
    requires forall containers :: accept(containers)
    ensures ParseFrom(remaining, outer, Some(accept)) == ParseFrom(remaining, outer, None)
    decreases |Ink(remaining)|
  {
    hide Ink, StripQuote, ListMarkerPrefix, Interrupting, ItemContent;
    if StripQuote(remaining).Some? {
      QuoteTakesInk(remaining);
      AcceptingAll(StripQuote(remaining).value, outer + [Quote], accept);
    } else if ListMarkerPrefix(remaining).Some? {
      var list := ListMarkerPrefix(remaining).value;
      ItemTakesInk(remaining);
      AcceptingAll(ItemContent(remaining),
                   outer + [Item(list.indent, list.markerIndent, list.marker, list.orderedStart)], accept);
    }
  }

  /** What may be refused: an empty item, a number other than one, and content four columns or more behind its place. */
  lemma InterruptingExactly(value: string, k: nat, end: nat)
    requires MarkerIn(value, k, end)
    ensures ListMarkerPrefix(value).Some?
    ensures var list := ListMarkerPrefix(value).value;
            Interrupting(list, value) <==>
              || (forall i :: end <= i < |value| ==> Blank(value[i]))
              || (end > k + 1 && MarkerNumber(value[k..end]) != Some(1))
              || Indented(Columns(value[list.length..]), 4)
  {
    hide ListMarkerPrefix, Expanded, Indented, MarkerText, NumberOf, Behind;
    ItemMeans(value, k, end);
    StripExactly(value[ListMarkerPrefix(value).value.length..], 4);
    hide StripIndent;
  }

  // ---------------------------------------------------------------- lines inside containers

  /** A line written inside containers: quotes with a space behind them, everything else by its indentation. */
  function Wrap(containers: seq<Container>, text: string): string {
    if containers == [] then text
    else
      match containers[0]
      case Quote => "> " + Wrap(containers[1..], text)
      case Footnote(indent) => Spaces(indent) + Wrap(containers[1..], text)
      case Item(indent, _, _, _) => Spaces(indent) + Wrap(containers[1..], text)
  }

  /** The content of an item stands to the right of its marker. */
  predicate Proper(containers: seq<Container>) {
    forall i :: 0 <= i < |containers| && containers[i].Item? ==> containers[i].markerIndent < containers[i].indent
  }

  lemma {:induction false} NoTabsInWrap(containers: seq<Container>, text: string)
    requires '\t' !in text
    ensures '\t' !in Wrap(containers, text)
  {
    if containers == [] {
    } else {
      NoTabsInWrap(containers[1..], text);
      SpacesAreBlank(match containers[0] case Quote => 0 case Footnote(n) => n case Item(n, _, _, _) => n);
    }
  }

  lemma {:induction false} LeadingAtLeast(s: string, width: nat)
    requires Indented(s, width)
    ensures LeadingSpaces(s) >= width
  {
    if width > 0 {
      LeadingAtLeast(s[1..], width - 1);
    }
  }

  lemma IndentStrips(text: string, width: nat)
    requires '\t' !in text
    ensures StripIndent(Spaces(width) + text, width) == Some(text)
    ensures ListMarkerPrefix(Spaces(width) + text).Some? ==>
              ListMarkerPrefix(Spaces(width) + text).value.markerIndent >= width
  {
    var line := Spaces(width) + text;
    StripExactly(line, width);
    hide StripIndent, LeadingSpaces, MarkerAt, Blanks, ColumnAfter, PaddingEnd, Expanded, Spaces;
    SpacesAreBlank(width);
    NoTabsExpand(line, 0);
    assert line[width..] == text;
    LeadingAtLeast(line, width);
  }

  lemma QuoteStrips(text: string)
    requires '\t' !in text
    ensures StripQuote("> " + text) == Some(text)
  {
    var line := "> " + text;
    hide StripQuote, Expanded;
    QuoteExactly(line);
    NoTabsExpand(line, 0);
    assert line[0] == '>' && line[1..] == " " + text && (" " + text)[1..] == text;
  }

  /** A line written inside containers continues them all, starts no new item, and holds its text. */
  lemma {:induction false} WrappedContinues(containers: seq<Container>, text: string, more: seq<Container>)
    requires Proper(containers) && '\t' !in text
    ensures var line := Wrap(containers, text);
            && StartsNewItem(line, containers + more) == StartsNewItem(text, more)
            && ContentWithin(line, containers + more) == ContentWithin(text, more)
            && ContainerPrefix(line, containers + more)
               == Prefix(ContainerPrefix(text, more).content, |containers| + ContainerPrefix(text, more).count)
    decreases |containers|
  {
    hide StripQuote, StripIndent, ListMarkerPrefix, ItemContent, Spaces;
    var all := containers + more;
    if containers == [] {
      assert all == more;
    } else {
      var rest := Wrap(containers[1..], text);
      NoTabsInWrap(containers[1..], text);
      WrappedContinues(containers[1..], text, more);
      assert all[0] == containers[0] && all[1..] == containers[1..] + more;
      match containers[0] {
        case Quote => QuoteStrips(rest);
        case Footnote(indent) => IndentStrips(rest, indent);
        case Item(indent, _, _, _) => IndentStrips(rest, indent);
      }
    }
  }

  /** The line behind some containers starts a new item of the next list exactly with a marker in the same place. */
  lemma SiblingStarts(containers: seq<Container>, text: string, item: Container)
    requires Proper(containers) && '\t' !in text && item.Item?
    ensures StartsNewItem(Wrap(containers, text), containers + [item])
       <==> ListMarkerPrefix(text).Some? && ListMarkerPrefix(text).value.markerIndent == item.markerIndent
  {
    hide ListMarkerPrefix, StripIndent;
    WrappedContinues(containers, text, [item]);
  }

  /** A line that starts no new item belongs to the containers exactly when it continues them all. */
  lemma {:induction false} ContinuedBelongs(line: string, containers: seq<Container>)
    requires !StartsNewItem(line, containers)
    ensures var p := ContainerPrefix(line, containers);
            ContentWithin(line, containers) == if p.count == |containers| then Some(p.content) else None
    decreases |containers|
  {
    hide StripQuote, StripIndent, ListMarkerPrefix, ItemContent;
    if containers == [] {
    } else {
      match containers[0] {
        case Quote =>
          if StripQuote(line).Some? {
            ContinuedBelongs(StripQuote(line).value, containers[1..]);
          }
        case Footnote(indent) =>
          if StripIndent(line, indent).Some? {
            ContinuedBelongs(StripIndent(line, indent).value, containers[1..]);
          }
        case Item(indent, _, _, _) =>
          if StripIndent(line, indent).Some? {
            ContinuedBelongs(StripIndent(line, indent).value, containers[1..]);
          }
      }
    }
  }

  lemma {:induction false} WrapEnds(containers: seq<Container>, text: string)
    requires text == "" || text[|text| - 1] != '\r'
    ensures var line := Wrap(containers, text); line == "" || line[|line| - 1] != '\r'
  {
    if containers == [] {
    } else {
      WrapEnds(containers[1..], text);
      SpacesAreBlank(match containers[0] case Quote => 0 case Footnote(n) => n case Item(n, _, _, _) => n);
    }
  }

  /** A line that leaves a container continues a paragraph lazily if what it holds does; no other line does. */
  lemma LazyMeans(g: Grammar, containers: seq<Container>, text: string, more: seq<Container>)
    requires Proper(containers) && '\t' !in text && (text == "" || text[|text| - 1] != '\r')
    requires more != [] ==> ContainerPrefix(text, more).count == 0
    ensures Lazy(g, Wrap(containers, text), containers + more) <==> more != [] && g.openAfter(text, true, None)
  {
    WrapEnds(containers, text);
    ReturnDropped(Wrap(containers, text));
    WrappedContinues(containers, text, more);
    hide ContainerPrefix, Wrap;
    NoneContinued(text, more);
  }

  lemma NoneContinued(text: string, more: seq<Container>)
    requires ContainerPrefix(text, more).count == 0
    ensures ContainerPrefix(text, more).content == text
  {}
}
