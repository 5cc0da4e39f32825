/** What the scan answers: where a document can be cut without changing the answers behind the cut. */
module ParagraphLaws {
  import opened Options
  import opened Containers
  import opened Paragraph

  // ---------------------------------------------------------------- cutting off the front

  /** Nothing in front of line `k` shows in the state. */
  predicate Forgets(s: State, k: nat) {
    k <= s.index && if s.open then k <= s.start < s.index else s.start == -1
  }

  /** The same state for the lines from `k` on. */
  function Shifted(s: State, k: nat): State
    requires Forgets(s, k)
  {
    State(s.index - k, s.open, if s.open then s.start - k else -1, s.table)
  }

  lemma {:induction false} AheadShifts(lines: seq<string>, k: nat, next: nat, containers: seq<Container>)
    requires k <= next && k <= |lines|
    ensures Ahead(lines[k..], next - k, containers) == Ahead(lines, next, containers)
    decreases |lines| - next
  {
    hide Ahead, Continued;
    AheadUnfolds(lines, next, containers);
    AheadUnfolds(lines[k..], next - k, containers);
    if next >= |lines| {
    } else {
      assert lines[k..][next - k] == lines[next];
      AheadShifts(lines, k, next + 1, containers);
    }
  }

  lemma AheadUnfolds(lines: seq<string>, next: nat, containers: seq<Container>)
    ensures Ahead(lines, next, containers)
         == if next >= |lines| then [] else [Continued(lines[next], containers)] + Ahead(lines, next + 1, containers)
  {}

  lemma DefinitionShifts(g: Grammar, lines: seq<string>, k: nat, index: nat, content: string,
                         containers: seq<Container>)
    requires k <= index && k <= |lines|
    ensures DefinitionAt(g, lines[k..], index - k, content, containers)
        == DefinitionAt(g, lines, index, content, containers)
  {
    hide ParseContainers, Ahead;
    var nested := ParseContainers(content);
    AheadShifts(lines, k, index + 1, containers + nested.containers);
  }

  /** A turn looks at the line, at the start of an open paragraph, and ahead. */
  lemma StepShifts(g: Grammar, lines: seq<string>, k: nat, containers: seq<Container>, s: State)
    requires k <= |lines| && Forgets(s, k) && s.index < |lines|
    ensures StateOk(s) && StateOk(Shifted(s, k))
    ensures Forgets(Step(g, lines, containers, s), k)
    ensures Step(g, lines[k..], containers, Shifted(s, k)) == Shifted(Step(g, lines, containers, s), k)
  {
    hide StartsNewItem, ContentWithin, ParseContainers, DefinitionAt, Lazy;
    assert lines[k..][s.index - k] == lines[s.index];
    if s.open {
      assert lines[k..][s.start - k] == lines[s.start];
    }
    var content := ContentWithin(WithoutReturn(lines[s.index]), containers);
    if content.Some? {
      DefinitionShifts(g, lines, k, s.index, content.value, containers);
    }
  }

  lemma {:induction false} ScanShifts(g: Grammar, lines: seq<string>, k: nat, containers: seq<Container>, s: State,
                                      index: nat)
    requires k <= index <= |lines| && Forgets(s, k)
    ensures StateOk(s) && StateOk(Shifted(s, k)) && Forgets(Scan(g, lines, containers, s, index), k)
    ensures Scan(g, lines[k..], containers, Shifted(s, k), index - k)
        == Shifted(Scan(g, lines, containers, s, index), k)
    decreases |lines| - s.index
  {
    hide Step;
    if s.index < index {
      StepShifts(g, lines, k, containers, s);
      ScanShifts(g, lines, k, containers, Step(g, lines, containers, s), index);
    }
  }

  /** From a state that forgets what was before line `k`, the answers are those of the rest alone. */
  lemma AnswersShift(g: Grammar, lines: seq<string>, k: nat, containers: seq<Container>, s: State, index: nat)
    requires k <= index <= |lines| && Forgets(s, k)
    ensures StateOk(s) && StateOk(Shifted(s, k))
    ensures Answer(lines, containers, Scan(g, lines, containers, s, index), index)
         == Answer(lines[k..], containers, Scan(g, lines[k..], containers, Shifted(s, k), index - k), index - k)
  {
    hide Scan, StartsNewItem;
    ScanShifts(g, lines, k, containers, s, index);
    if index < |lines| {
      assert lines[k..][index - k] == lines[index];
    }
  }

  // ---------------------------------------------------------------- a new list item

  /** The scan from the first line stops in front of line `k`: no definition reaches over it. */
  predicate StopsAt(g: Grammar, lines: seq<string>, containers: seq<Container>, k: nat)
    requires k <= |lines|
  {
    Scan(g, lines, containers, INITIAL, k).index == k
  }

  /** A line that starts a new item is read as if nothing had been open. */
  lemma NewItemForgets(g: Grammar, lines: seq<string>, containers: seq<Container>, s: State)
    requires s.index < |lines| && StateOk(s) && StartsNewItem(WithoutReturn(lines[s.index]), containers)
    ensures var empty := State(s.index, false, -1, false);
            Step(g, lines, containers, s) == Step(g, lines, containers, empty) && Forgets(empty, s.index)
  {
    hide StartsNewItem, ContentWithin, ParseContainers, DefinitionAt, Lazy;
  }

  /** What precedes a new list item never shows in an answer behind it. */
  lemma NewItemStartsAfresh(g: Grammar, lines: seq<string>, containers: seq<Container>, k: nat, index: nat)
    requires k <= index <= |lines| && k < |lines|
    requires StartsNewItem(WithoutReturn(lines[k]), containers) && StopsAt(g, lines, containers, k)
    ensures Fresh(g, lines, containers, index) == Fresh(g, lines[k..], containers, index - k)
  {
    hide StartsNewItem, Step;
    assert lines[k..][0] == lines[k];
    if index > k {
      var s := Scan(g, lines, containers, INITIAL, k);
      ScanResumes(g, lines, containers, INITIAL, k, index);
      NewItemForgets(g, lines, containers, s);
      var empty := State(k, false, -1, false);
      assert Shifted(empty, k) == INITIAL;
      AnswersShift(g, lines, k, containers, empty, index);
      ScanFromStep(g, lines, containers, s, empty, index);
    }
  }

  lemma ScanFromStep(g: Grammar, lines: seq<string>, containers: seq<Container>, s: State, t: State, index: nat)
    requires index <= |lines| && s.index < index && t.index < index && StateOk(s) && StateOk(t)
    requires Step(g, lines, containers, s) == Step(g, lines, containers, t)
    ensures Scan(g, lines, containers, s, index) == Scan(g, lines, containers, t, index)
  {
    hide Step;
  }

  // ---------------------------------------------------------------- lines that end a paragraph

  /** Once the scan stands at `k` with nothing open, the answers behind are those of the rest of the lines. */
  lemma NothingOpen(g: Grammar, lines: seq<string>, containers: seq<Container>, k: nat, s: State, index: nat)
    requires k <= index <= |lines| && s == State(k, false, -1, false)
    ensures Answer(lines, containers, Scan(g, lines, containers, s, index), index)
         == Fresh(g, lines[k..], containers, index - k)
  {
    hide Scan, StartsNewItem;
    assert Shifted(s, k) == INITIAL;
    AnswersShift(g, lines, k, containers, s, index);
  }

  /** After a turn that leaves nothing open in front of line `m`. */
  lemma CutBehind(g: Grammar, lines: seq<string>, containers: seq<Container>, k: nat, m: nat, index: nat)
    requires k < m <= index <= |lines| && StopsAt(g, lines, containers, k)
    requires Step(g, lines, containers, Scan(g, lines, containers, INITIAL, k)) == State(m, false, -1, false)
    ensures Fresh(g, lines, containers, index) == Fresh(g, lines[m..], containers, index - m)
  {
    hide Step, Scan, StartsNewItem;
    ScanResumes(g, lines, containers, INITIAL, k, index);
    OneTurn(g, lines, containers, Scan(g, lines, containers, INITIAL, k), index);
    NothingOpen(g, lines, containers, m, State(m, false, -1, false), index);
  }

  lemma OutsideStep(g: Grammar, lines: seq<string>, containers: seq<Container>, s: State)
    requires s.index < |lines| && StateOk(s) && ContentWithin(WithoutReturn(lines[s.index]), containers) == None
    requires !Lazy(g, lines[s.index], containers) || !s.open || StartsNewItem(WithoutReturn(lines[s.index]), containers)
    ensures Step(g, lines, containers, s) == State(s.index + 1, false, -1, false)
  {
    hide Lazy, ContentWithin, ParseContainers, DefinitionAt, ReadContent, StartsNewItem;
  }

  /** A line outside the containers that continues no paragraph lazily cuts the document behind it. */
  lemma OutsideCloses(g: Grammar, lines: seq<string>, containers: seq<Container>, k: nat, index: nat)
    requires k < index <= |lines| && StopsAt(g, lines, containers, k)
    requires ContentWithin(WithoutReturn(lines[k]), containers) == None
    requires !Lazy(g, lines[k], containers) || !Fresh(g, lines, containers, k)
    ensures Fresh(g, lines, containers, index) == Fresh(g, lines[k + 1..], containers, index - k - 1)
  {
    hide Lazy, ContentWithin, StartsNewItem, Scan, Step;
    OutsideStep(g, lines, containers, Scan(g, lines, containers, INITIAL, k));
    CutBehind(g, lines, containers, k, k + 1, index);
  }

  lemma OneTurn(g: Grammar, lines: seq<string>, containers: seq<Container>, s: State, index: nat)
    requires s.index < index <= |lines| && StateOk(s)
    ensures Scan(g, lines, containers, s, index)
         == Scan(g, lines, containers, Step(g, lines, containers, s), index)
  {
    hide Step;
  }

  /** A lazy line keeps an open paragraph open. */
  lemma LazyKeepsOpen(g: Grammar, lines: seq<string>, containers: seq<Container>, k: nat)
    requires k < |lines| && StopsAt(g, lines, containers, k)
    requires ContentWithin(WithoutReturn(lines[k]), containers) == None && Lazy(g, lines[k], containers)
    requires Fresh(g, lines, containers, k)
    requires k + 1 < |lines| ==> !StartsNewItem(WithoutReturn(lines[k + 1]), containers)
    ensures Fresh(g, lines, containers, k + 1)
  {
    hide Lazy, ContentWithin, ParseContainers, DefinitionAt, ReadContent, StartsNewItem;
    var s := Scan(g, lines, containers, INITIAL, k);
    ScanResumes(g, lines, containers, INITIAL, k, k + 1);
    OneTurn(g, lines, containers, s, k + 1);
  }

  /** What a line adds to the paragraph that the line before it may have begun: a possible table header. */
  function HeaderOf(lines: seq<string>, containers: seq<Container>, s: State): Option<string>
    requires StateOk(s) && s.index < |lines|
  {
    if s.open && s.start + 1 == s.index then ContentWithin(WithoutReturn(lines[s.start]), containers) else None
  }

  lemma DefinitionStep(g: Grammar, lines: seq<string>, containers: seq<Container>, s: State, content: string,
                       taken: nat)
    requires s.index < |lines| && StateOk(s) && !StartsNewItem(WithoutReturn(lines[s.index]), containers)
    requires ContentWithin(WithoutReturn(lines[s.index]), containers) == Some(content)
    requires DefinitionAt(g, lines, s.index, content, containers) == Some(taken)
    requires !s.table || !g.openAfter(content, false, None)
    requires !s.open || !g.openAfter(content, true, HeaderOf(lines, containers, s))
    ensures Step(g, lines, containers, s) == State(s.index + 1 + taken, false, -1, false)
  {
    hide ContentWithin, ParseContainers, DefinitionAt, StartsNewItem, Lazy;
  }

  lemma {:induction false} AheadReads(lines: seq<string>, next: nat, containers: seq<Container>, i: nat)
    requires next + i < |lines|
    ensures |Ahead(lines, next, containers)| == |lines| - next
    ensures Ahead(lines, next, containers)[i] == Continued(lines[next + i], containers)
    decreases i
  {
    hide Continued;
    AheadLength(lines, next, containers);
    if i > 0 {
      AheadReads(lines, next + 1, containers, i - 1);
    }
  }

  lemma {:induction false} AheadLength(lines: seq<string>, next: nat, containers: seq<Container>)
    ensures |Ahead(lines, next, containers)| == if next >= |lines| then 0 else |lines| - next
    decreases |lines| - next
  {
    if next >= |lines| {
    } else {
      AheadLength(lines, next + 1, containers);
    }
  }

  /**
   Whether a line is a definition is asked of its content behind its own markers and of the lines behind it: of what
   each holds inside the same containers and those of the markers, or of nothing where it leaves them.
   */
  lemma DefinitionReads(g: Grammar, lines: seq<string>, index: nat, content: string, containers: seq<Container>)
    returns (ahead: seq<Option<string>>)
    requires index < |lines|
    ensures DefinitionAt(g, lines, index, content, containers) == g.definition(ParseContainers(content).content, ahead)
    ensures |ahead| == |lines| - index - 1
    ensures forall i :: 0 <= i < |ahead| ==>
              var all := containers + ParseContainers(content).containers;
              var p := ContainerPrefix(WithoutReturn(lines[index + 1 + i]), all);
              ahead[i] == if p.count == |all| then Some(p.content) else None
  {
    hide ParseContainers, Ahead, ContainerPrefix;
    var all := containers + ParseContainers(content).containers;
    ahead := Ahead(lines, index + 1, all);
    AheadLength(lines, index + 1, all);
    forall i | 0 <= i < |ahead| ensures ahead[i] == Continued(lines[index + 1 + i], all) {
      AheadReads(lines, index + 1, all, i);
    }
  }

  /** A link reference definition, where no paragraph goes on, cuts the document behind its last line. */
  lemma DefinitionCloses(g: Grammar, lines: seq<string>, containers: seq<Container>, k: nat, content: string,
                         taken: nat, index: nat)
    requires StandsAt(g, lines, containers, k, content) && k + 1 + taken <= index <= |lines|
    requires DefinitionAt(g, lines, k, content, containers) == Some(taken)
    requires var s := Scan(g, lines, containers, INITIAL, k);
             (!s.table || !g.openAfter(content, false, None))
             && (!s.open || !g.openAfter(content, true, HeaderOf(lines, containers, s)))
    ensures Fresh(g, lines, containers, index) == Fresh(g, lines[k + 1 + taken..], containers, index - k - 1 - taken)
  {
    hide ContentWithin, DefinitionAt, StartsNewItem, Scan, Step, HeaderOf;
    DefinitionStep(g, lines, containers, Scan(g, lines, containers, INITIAL, k), content, taken);
    CutBehind(g, lines, containers, k, k + 1 + taken, index);
  }

  /** The scan stops at a line that belongs to the containers and starts no new item. */
  predicate StandsAt(g: Grammar, lines: seq<string>, containers: seq<Container>, k: nat, content: string) {
    && k < |lines| && StopsAt(g, lines, containers, k)
    && !StartsNewItem(WithoutReturn(lines[k]), containers)
    && ContentWithin(WithoutReturn(lines[k]), containers) == Some(content)
  }

  /**
   A line of content that is neither a table row nor a definition: the grammar of lines says whether a paragraph is
   open behind it, given whether one is open in front of it and, if that began on the line before, what it says. A
   paragraph keeps its first line, and a delimiter under a header begins a table.
   */
  lemma ContentDecides(g: Grammar, lines: seq<string>, containers: seq<Container>, k: nat, content: string)
    requires StandsAt(g, lines, containers, k, content)
    requires var s := Scan(g, lines, containers, INITIAL, k);
             !s.table && (DefinitionAt(g, lines, k, content, containers) == None
                          || (s.open && g.openAfter(content, true, HeaderOf(lines, containers, s))))
    ensures var s := Scan(g, lines, containers, INITIAL, k);
            var after := Scan(g, lines, containers, INITIAL, k + 1);
            && after.index == k + 1
            && (after.open <==> g.openAfter(content, s.open, HeaderOf(lines, containers, s)))
            && (after.open ==> after.start == if s.open then s.start else k)
            && (after.table <==> g.delimiter(content, HeaderOf(lines, containers, s)))
  {
    hide ContentWithin, ParseContainers, DefinitionAt, StartsNewItem, Lazy;
    var s := Scan(g, lines, containers, INITIAL, k);
    ScanResumes(g, lines, containers, INITIAL, k, k + 1);
    OneTurn(g, lines, containers, s, k + 1);
  }

  /** In a table a line that would open a paragraph, or that only looks like a definition, is a row and opens none. */
  lemma RowsOpenNothing(g: Grammar, lines: seq<string>, containers: seq<Container>, k: nat, content: string)
    requires StandsAt(g, lines, containers, k, content) && Scan(g, lines, containers, INITIAL, k).table
    requires g.openAfter(content, false, None)
             || (ParseContainers(content).containers == [] && g.apparent(content)
                 && DefinitionAt(g, lines, k, content, containers) == None)
    ensures Scan(g, lines, containers, INITIAL, k + 1) == State(k + 1, false, -1, true)
  {
    hide ContentWithin, ParseContainers, DefinitionAt, StartsNewItem, Lazy;
    var s := Scan(g, lines, containers, INITIAL, k);
    ScanResumes(g, lines, containers, INITIAL, k, k + 1);
    OneTurn(g, lines, containers, s, k + 1);
  }

  /** Any other line of content ends the table, and is read as if there had been none. */
  lemma TableEnds(g: Grammar, lines: seq<string>, containers: seq<Container>, s: State, content: string)
    requires s.index < |lines| && StateOk(s) && s.table
    requires !StartsNewItem(WithoutReturn(lines[s.index]), containers)
    requires ContentWithin(WithoutReturn(lines[s.index]), containers) == Some(content)
    requires !g.openAfter(content, false, None)
    requires ParseContainers(content).containers != [] || !g.apparent(content)
             || DefinitionAt(g, lines, s.index, content, containers).Some?
    ensures Step(g, lines, containers, s) == Step(g, lines, containers, s.(table := false))
  {
    hide ContentWithin, ParseContainers, DefinitionAt, StartsNewItem, Lazy;
  }

  // ---------------------------------------------------------------- the key

  /** Equal in everything but the text and the number of a marker, and the indentation of a footnote. */
  predicate Similar(a: Container, b: Container) {
    match a
    case Quote => b.Quote?
    case Footnote(_) => b.Footnote?
    case Item(indent, markerIndent, _, start) =>
      b.Item? && b.indent == indent && b.markerIndent == markerIndent && (b.orderedStart == None <==> start == None)
  }

  /** Two stacks of containers share a cache entry exactly when they are similar, one by one. */
  lemma {:induction false} KeyExactly(a: seq<Container>, b: seq<Container>)
    ensures KeyOf(a) == KeyOf(b) <==> |a| == |b| && forall i :: 0 <= i < |a| ==> Similar(a[i], b[i])
    decreases |a|
  {
    if a == [] || b == [] {
      assert (a == [] <==> KeyOf(a) == []) && (b == [] <==> KeyOf(b) == []);
    } else {
      KeyExactly(a[1..], b[1..]);
      assert KeyOf(a)[1..] == KeyOf(a[1..]) && KeyOf(b)[1..] == KeyOf(b[1..]);
      assert KeyOf(a)[0] == KeyOf(b)[0] <==> Similar(a[0], b[0]);
      assert forall i :: 0 < i < |a| ==> a[i] == a[1..][i - 1];
      assert forall i :: 0 < i < |b| ==> b[i] == b[1..][i - 1];
    }
  }
}
