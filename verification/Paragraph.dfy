/** The memoised scan that tells whether a paragraph is open in front of a line. */
module Paragraph {
  import opened Options
  import opened Containers

  // ---------------------------------------------------------------- lines within containers

  /** Whether a line starts an item of one of the lists. */
  predicate StartsNewItem(remaining: string, containers: seq<Container>)
    decreases |containers|
  {
    if containers == [] then false
    else
      match containers[0]
      case Quote => StripQuote(remaining).Some? && StartsNewItem(StripQuote(remaining).value, containers[1..])
      case Footnote(indent) =>
        StripIndent(remaining, indent).Some? && StartsNewItem(StripIndent(remaining, indent).value, containers[1..])
      case Item(indent, markerIndent, _, _) =>
        var marker := ListMarkerPrefix(remaining);
        (marker.Some? && marker.value.markerIndent == markerIndent)
        || (StripIndent(remaining, indent).Some?
            && StartsNewItem(StripIndent(remaining, indent).value, containers[1..]))
  }

  /** What a line holds inside the containers, if it belongs to all of them; an item's own marker line does. */
  function ContentWithin(remaining: string, containers: seq<Container>): Option<string>
    decreases |containers|
  {
    if containers == [] then Some(remaining)
    else
      var inner :=
        match containers[0]
        case Quote => StripQuote(remaining)
        case Footnote(indent) => StripIndent(remaining, indent)
        case Item(indent, markerIndent, _, _) =>
          var marker := ListMarkerPrefix(remaining);
          if marker.Some? && marker.value.markerIndent == markerIndent then Some(ItemContent(remaining))
          else StripIndent(remaining, indent);
      match inner case None => None case Some(rest) => ContentWithin(rest, containers[1..])
  }

  datatype Prefix = Prefix(content: string, count: nat)

  /** How many of the containers a line continues, and what it holds inside those. */
  function ContainerPrefix(remaining: string, containers: seq<Container>): (p: Prefix)
    ensures p.count <= |containers|
    decreases |containers|
  {
    if containers == [] then Prefix(remaining, 0)
    else
      var inner :=
        match containers[0]
        case Quote => StripQuote(remaining)
        case Footnote(indent) => StripIndent(remaining, indent)
        case Item(indent, _, _, _) => StripIndent(remaining, indent);
      match inner
      case None => Prefix(remaining, 0)
      case Some(rest) =>
        var p := ContainerPrefix(rest, containers[1..]);
        Prefix(p.content, p.count + 1)
  }

  function Continued(line: string, containers: seq<Container>): Option<string> {
    var p := ContainerPrefix(WithoutReturn(line), containers);
    if p.count == |containers| then Some(p.content) else None
  }

  // ---------------------------------------------------------------- the scan

  /**
   The grammar of single lines: whether a paragraph is open after a line, whether it delimits a table under a
   header, whether it looks like a link reference definition, and, given what the lines behind it hold inside
   the same containers, whether it is one and how many of them it takes.
   */
  datatype Grammar = Grammar(openAfter: (string, bool, Option<string>) -> bool,
                             delimiter: (string, Option<string>) -> bool,
                             apparent: string -> bool,
                             definition: (string, seq<Option<string>>) -> Option<nat>)

  datatype State = State(index: nat, open: bool, start: int, table: bool)

  const INITIAL := State(0, false, -1, false)

  /** An open paragraph has started on a line that has been read. */
  predicate StateOk(s: State) {
    s.open ==> 0 <= s.start < s.index
  }

  function Ahead(lines: seq<string>, next: nat, containers: seq<Container>): seq<Option<string>>
    decreases |lines| - next
  {
    if next >= |lines| then [] else [Continued(lines[next], containers)] + Ahead(lines, next + 1, containers)
  }

  function DefinitionAt(g: Grammar, lines: seq<string>, index: nat, content: string,
                        containers: seq<Container>): Option<nat> {
    var nested := ParseContainers(content);
    g.definition(nested.content, Ahead(lines, index + 1, containers + nested.containers))
  }

  function Lazy(g: Grammar, line: string, containers: seq<Container>): bool {
    var p := ContainerPrefix(WithoutReturn(line), containers);
    p.count < |containers| && g.openAfter(p.content, true, None)
  }

  /** The part of a step that reads a line which belongs to the containers and is not part of a table. */
  function ReadContent(g: Grammar, lines: seq<string>, containers: seq<Container>, s: State, previous: nat,
                       content: string): State
    requires s.open ==> 0 <= s.start < |lines|
  {
    var header :=
      if s.open && s.start == previous - 1 then ContentWithin(WithoutReturn(lines[s.start]), containers) else None;
    var open := g.openAfter(content, s.open, header);
    var definition := DefinitionAt(g, lines, previous, content, containers);
    if (!s.open || !open) && definition.Some? then State(s.index + definition.value, false, -1, s.table)
    else State(s.index, open, if !open then -1 else if s.open then s.start else previous, g.delimiter(content, header))
  }

  /** One turn of the loop: reads the line at the state's index. */
  function Step(g: Grammar, lines: seq<string>, containers: seq<Container>, s: State): (s': State)
    requires s.index < |lines| && StateOk(s)
    ensures StateOk(s') && s'.index > s.index
  {
    var previous := s.index;
    var line := WithoutReturn(lines[previous]);
    var t := if StartsNewItem(line, containers) then State(s.index + 1, false, -1, false) else s.(index := s.index + 1);
    match ContentWithin(line, containers)
    case None =>
      var open := t.open && Lazy(g, lines[previous], containers);
      State(t.index, open, if open then t.start else -1, false)
    case Some(content) =>
      var nested := ParseContainers(content);
      if t.table && (g.openAfter(content, false, None)
                     || (nested.containers == [] && g.apparent(content)
                         && DefinitionAt(g, lines, previous, content, containers) == None))
      then State(t.index, false, -1, true)
      else ReadContent(g, lines, containers, t.(table := false), previous, content)
  }

  function Scan(g: Grammar, lines: seq<string>, containers: seq<Container>, s: State, index: nat): (s': State)
    requires index <= |lines| && StateOk(s)
    ensures StateOk(s') && s'.index >= index
    decreases |lines| - s.index
  {
    if s.index >= index then s else Scan(g, lines, containers, Step(g, lines, containers, s), index)
  }

  /** The answer read off a state that has reached the line. */
  predicate Answer(lines: seq<string>, containers: seq<Container>, s: State, index: nat) {
    !(index < |lines| && StartsNewItem(WithoutReturn(lines[index]), containers)) && s.open
  }

  /** The answer of a scan from the first line. */
  predicate Fresh(g: Grammar, lines: seq<string>, containers: seq<Container>, index: nat)
    requires index <= |lines|
  {
    Answer(lines, containers, Scan(g, lines, containers, INITIAL, index), index)
  }

  // ---------------------------------------------------------------- the key

  datatype Part = QuotePart | FootnotePart | ItemPart(markerIndent: nat, indent: nat, ordered: bool)

  const FOOTNOTE_INDENT := 4

  predicate WellFormed(containers: seq<Container>) {
    forall i :: 0 <= i < |containers| && containers[i].Footnote? ==> containers[i].indent == FOOTNOTE_INDENT
  }

  function PartOf(c: Container): Part {
    match c
    case Quote => QuotePart
    case Footnote(_) => FootnotePart
    case Item(indent, markerIndent, _, start) => ItemPart(markerIndent, indent, start.Some?)
  }

  function KeyOf(containers: seq<Container>): seq<Part> {
    if containers == [] then [] else [PartOf(containers[0])] + KeyOf(containers[1..])
  }

  /** Equal keys: equal in everything but the text and the number of a marker. */
  predicate Alike(a: seq<Container>, b: seq<Container>) {
    WellFormed(a) && WellFormed(b) && KeyOf(a) == KeyOf(b)
  }

  lemma AlikeParts(a: seq<Container>, b: seq<Container>)
    requires Alike(a, b) && a != []
    ensures b != [] && PartOf(a[0]) == PartOf(b[0]) && Alike(a[1..], b[1..])
    ensures a[0].Footnote? ==> a[0].indent == b[0].indent
  {
    assert KeyOf(a)[0] == PartOf(a[0]) && KeyOf(a)[1..] == KeyOf(a[1..]);
    assert KeyOf(b)[0] == PartOf(b[0]) && KeyOf(b)[1..] == KeyOf(b[1..]);
  }

  lemma {:induction false} AlikeRead(line: string, a: seq<Container>, b: seq<Container>)
    requires Alike(a, b)
    ensures StartsNewItem(line, a) == StartsNewItem(line, b)
    ensures ContentWithin(line, a) == ContentWithin(line, b)
    ensures ContainerPrefix(line, a) == ContainerPrefix(line, b) && |a| == |b|
    decreases |a|
  {
    hide StripQuote, StripIndent, ListMarkerPrefix, ItemContent;
    if a == [] {
      assert b != [] ==> KeyOf(b) != [];
    } else {
      AlikeParts(a, b);
      forall rest ensures StartsNewItem(rest, a[1..]) == StartsNewItem(rest, b[1..])
                       && ContentWithin(rest, a[1..]) == ContentWithin(rest, b[1..])
                       && ContainerPrefix(rest, a[1..]) == ContainerPrefix(rest, b[1..])
      {
        AlikeRead(rest, a[1..], b[1..]);
      }
      AlikeRead(line, a[1..], b[1..]);
    }
  }

  lemma {:induction false} AlikeConcat(a: seq<Container>, b: seq<Container>, c: seq<Container>)
    requires Alike(a, b) && WellFormed(c)
    ensures Alike(a + c, b + c)
    decreases |a|
  {
    if a == [] {
      assert b != [] ==> KeyOf(b) != [];
      assert a + c == c && b + c == c;
    } else {
      AlikeParts(a, b);
      AlikeConcat(a[1..], b[1..], c);
      assert (a + c)[1..] == a[1..] + c && (b + c)[1..] == b[1..] + c;
    }
  }

  lemma {:induction false} AlikeAhead(lines: seq<string>, next: nat, a: seq<Container>, b: seq<Container>)
    requires Alike(a, b)
    ensures Ahead(lines, next, a) == Ahead(lines, next, b)
    decreases |lines| - next
  {
    if next < |lines| {
      AlikeRead(WithoutReturn(lines[next]), a, b);
      AlikeAhead(lines, next + 1, a, b);
    }
  }

  /** Markers found on a line are quotes and items, never footnotes. */
  lemma {:induction false} ParsedIsWellFormed(remaining: string, containers: seq<Container>)
    requires WellFormed(containers)
    ensures WellFormed(ParseFrom(remaining, containers, None).containers)
    decreases |Ink(remaining)|
  {
    hide StripQuote, ListMarkerPrefix, Ink, ItemContent, Interrupting;
    if StripQuote(remaining).Some? {
      QuoteTakesInk(remaining);
      ParsedIsWellFormed(StripQuote(remaining).value, containers + [Quote]);
    } else if ListMarkerPrefix(remaining).Some? {
      var list := ListMarkerPrefix(remaining).value;
      ItemTakesInk(remaining);
      ParsedIsWellFormed(ItemContent(remaining),
                         containers + [Item(list.indent, list.markerIndent, list.marker, list.orderedStart)]);
    }
  }

  lemma AlikeDefinition(g: Grammar, lines: seq<string>, index: nat, content: string, a: seq<Container>,
                        b: seq<Container>)
    requires Alike(a, b)
    ensures DefinitionAt(g, lines, index, content, a) == DefinitionAt(g, lines, index, content, b)
  {
    var nested := ParseContainers(content).containers;
    ParsedIsWellFormed(WithoutReturn(content), []);
    AlikeConcat(a, b, nested);
    AlikeAhead(lines, index + 1, a + nested, b + nested);
  }

  /** The key determines what a step does. */
  lemma AlikeStep(g: Grammar, lines: seq<string>, a: seq<Container>, b: seq<Container>, s: State)
    requires Alike(a, b) && s.index < |lines| && StateOk(s)
    ensures Step(g, lines, a, s) == Step(g, lines, b, s)
  {
    hide StartsNewItem, ContentWithin, ContainerPrefix, DefinitionAt, ParseContainers, Alike;
    AlikeRead(WithoutReturn(lines[s.index]), a, b);
    if s.open {
      AlikeRead(WithoutReturn(lines[s.start]), a, b);
    }
    if ContentWithin(WithoutReturn(lines[s.index]), a).Some? {
      AlikeDefinition(g, lines, s.index, ContentWithin(WithoutReturn(lines[s.index]), a).value, a, b);
    }
  }

  lemma {:induction false} AlikeScan(g: Grammar, lines: seq<string>, a: seq<Container>, b: seq<Container>, s: State,
                                     index: nat)
    requires Alike(a, b) && index <= |lines| && StateOk(s)
    ensures Scan(g, lines, a, s, index) == Scan(g, lines, b, s, index)
    decreases |lines| - s.index
  {
    hide Step, Alike;
    if s.index < index {
      AlikeStep(g, lines, a, b, s);
      AlikeScan(g, lines, a, b, Step(g, lines, a, s), index);
    }
  }

  // ---------------------------------------------------------------- resuming

  /** Stopping on the way to a line changes nothing. */
  lemma {:induction false} ScanResumes(g: Grammar, lines: seq<string>, containers: seq<Container>, s: State, way: nat,
                                       index: nat)
    requires way <= index <= |lines| && StateOk(s)
    ensures Scan(g, lines, containers, Scan(g, lines, containers, s, way), index)
        == Scan(g, lines, containers, s, index)
    decreases |lines| - s.index
  {
    hide Step;
    if s.index < way {
      ScanResumes(g, lines, containers, Step(g, lines, containers, s), way, index);
    }
  }

  type Cache = map<seq<Part>, State>

  /** Every cached state is one that a scan from the first line reaches with the containers of its key. */
  ghost predicate OnOrbit(g: Grammar, lines: seq<string>, containers: seq<Container>, s: State) {
    exists way :: 0 <= way <= |lines| && s == Scan(g, lines, containers, INITIAL, way)
  }

  ghost predicate CacheOk(g: Grammar, lines: seq<string>, cache: Cache) {
    forall containers {:trigger KeyOf(containers)} :: WellFormed(containers) && KeyOf(containers) in cache ==>
      OnOrbit(g, lines, containers, cache[KeyOf(containers)])
  }

  /** The state from which a query goes on: the cached one, unless it has gone past the line. */
  function From(cache: Cache, key: seq<Part>, index: nat): State {
    if key in cache && cache[key].index <= index then cache[key] else INITIAL
  }

  lemma OrbitResumes(g: Grammar, lines: seq<string>, containers: seq<Container>, s: State, index: nat)
    requires index <= |lines| && OnOrbit(g, lines, containers, s) && s.index <= index
    ensures StateOk(s) && Scan(g, lines, containers, s, index) == Scan(g, lines, containers, INITIAL, index)
  {
    var way :| 0 <= way <= |lines| && s == Scan(g, lines, containers, INITIAL, way);
    ScanResumes(g, lines, containers, INITIAL, way, index);
  }

  lemma FromReaches(g: Grammar, lines: seq<string>, cache: Cache, containers: seq<Container>, index: nat)
    requires CacheOk(g, lines, cache) && WellFormed(containers) && index <= |lines|
    ensures var s := From(cache, KeyOf(containers), index);
            StateOk(s) && Scan(g, lines, containers, s, index) == Scan(g, lines, containers, INITIAL, index)
  {
    var key := KeyOf(containers);
    if key in cache && cache[key].index <= index {
      OrbitResumes(g, lines, containers, cache[key], index);
    }
  }

  lemma CacheStaysOk(g: Grammar, lines: seq<string>, cache: Cache, containers: seq<Container>, index: nat)
    requires CacheOk(g, lines, cache) && WellFormed(containers) && index <= |lines|
    ensures CacheOk(g, lines, cache[KeyOf(containers) := Scan(g, lines, containers, INITIAL, index)])
  {
    hide Scan;
    var cache' := cache[KeyOf(containers) := Scan(g, lines, containers, INITIAL, index)];
    forall other {:trigger KeyOf(other)} | WellFormed(other) && KeyOf(other) in cache'
      ensures OnOrbit(g, lines, other, cache'[KeyOf(other)])
    {
      if KeyOf(other) == KeyOf(containers) {
        AlikeScan(g, lines, containers, other, INITIAL, index);
      }
    }
  }

  // ---------------------------------------------------------------- any order of queries

  datatype Query = Query(containers: seq<Container>, index: nat)

  predicate Asked(lines: seq<string>, qs: seq<Query>) {
    forall i :: 0 <= i < |qs| ==> WellFormed(qs[i].containers) && qs[i].index <= |lines|
  }

  /** The cache after a query. */
  function Remember(g: Grammar, lines: seq<string>, cache: Cache, q: Query): Cache
    requires q.index <= |lines| && forall key :: key in cache ==> StateOk(cache[key])
  {
    cache[KeyOf(q.containers) := Scan(g, lines, q.containers, From(cache, KeyOf(q.containers), q.index), q.index)]
  }

  function CacheAfter(g: Grammar, lines: seq<string>, qs: seq<Query>): (cache: Cache)
    requires Asked(lines, qs)
    ensures forall key :: key in cache ==> StateOk(cache[key])
    decreases |qs|
  {
    if qs == [] then map[] else Remember(g, lines, CacheAfter(g, lines, qs[..|qs| - 1]), qs[|qs| - 1])
  }

  /** What the query that follows `qs` on the same cache answers. */
  predicate CachedAnswer(g: Grammar, lines: seq<string>, qs: seq<Query>, q: Query)
    requires Asked(lines, qs) && WellFormed(q.containers) && q.index <= |lines|
  {
    Answer(lines, q.containers, Remember(g, lines, CacheAfter(g, lines, qs), q)[KeyOf(q.containers)], q.index)
  }

  lemma {:induction false} CacheAfterOk(g: Grammar, lines: seq<string>, qs: seq<Query>)
    requires Asked(lines, qs)
    ensures CacheOk(g, lines, CacheAfter(g, lines, qs))
    decreases |qs|
  {
    if qs == [] {
    } else {
      hide Scan;
      var front, q := qs[..|qs| - 1], qs[|qs| - 1];
      CacheAfterOk(g, lines, front);
      FromReaches(g, lines, CacheAfter(g, lines, front), q.containers, q.index);
      CacheStaysOk(g, lines, CacheAfter(g, lines, front), q.containers, q.index);
    }
  }

  /** Whatever was asked before, in whatever order, the shared cache answers as a scan from the first line does. */
  lemma CachedAnswersAreFresh(g: Grammar, lines: seq<string>, qs: seq<Query>, q: Query)
    requires Asked(lines, qs) && WellFormed(q.containers) && q.index <= |lines|
    ensures CachedAnswer(g, lines, qs, q) == Fresh(g, lines, q.containers, q.index)
  {
    hide Scan;
    CacheAfterOk(g, lines, qs);
    FromReaches(g, lines, CacheAfter(g, lines, qs), q.containers, q.index);
  }

  /** The scanner of one document, with the cache that its queries share. */
  class Scanner {
    const grammar: Grammar
    const lines: seq<string>
    var cache: Cache

    ghost predicate Valid()
      reads this
    {
      CacheOk(grammar, lines, cache)
    }

    constructor (grammar: Grammar, lines: seq<string>)
      ensures Valid() && this.grammar == grammar && this.lines == lines
    {
      this.grammar, this.lines, cache := grammar, lines, map[];
    }

    method ParagraphOpenBefore(index: nat, containers: seq<Container>) returns (open: bool)
      requires Valid() && WellFormed(containers) && index <= |lines|
      modifies this
      ensures Valid() && open == Fresh(grammar, lines, containers, index)
    {
      hide Step, StartsNewItem, CacheOk;
      var key := KeyOf(containers);
      FromReaches(grammar, lines, cache, containers, index);
      CacheStaysOk(grammar, lines, cache, containers, index);
      var state := if key in cache && cache[key].index <= index then cache[key] else INITIAL;
      while state.index < index
        invariant StateOk(state)
        invariant Scan(grammar, lines, containers, state, index) == Scan(grammar, lines, containers, INITIAL, index)
        decreases |lines| - state.index
      {
        state := Step(grammar, lines, containers, state);
      }
      cache := cache[key := state];
      return !(index < |lines| && StartsNewItem(WithoutReturn(lines[index]), containers)) && state.open;
    }
  }
}
