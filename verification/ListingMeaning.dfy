/** What a listing selects and a page shows, in terms of the issues alone. */
module ListingMeaning {
  import opened Options
  import opened IssueLog
  import opened Listing

  /** The issues of the project, those with the status if one is asked for, most recently seen first. */
  lemma ListingMeans(issues: map<Key, Issue>, project: nat, filter: StatusFilter, l: seq<Issue>)
    requires IsListing(issues, project, filter, l) && filter != Unknown
    ensures forall x :: x in l <==>
              x.key in issues && issues[x.key] == x && x.key.project == project
                  && (filter.Only? ==> x.status == filter.status)
    ensures forall i, j :: 0 <= i < j < |l| ==>
              l[i].lastSeen > l[j].lastSeen
              || (l[i].lastSeen == l[j].lastSeen && l[i].key.fingerprint < l[j].key.fingerprint)
  {
    forall i, j | 0 <= i < j < |l|
      ensures l[i].lastSeen > l[j].lastSeen
              || (l[i].lastSeen == l[j].lastSeen && l[i].key.fingerprint < l[j].key.fingerprint)
    {
      assert Before(CursorOf(l[i]), CursorOf(l[j]));
    }
  }

  // ---------------------------------------------------------------- the three statuses

  function SetOf(l: seq<Issue>): set<Issue> {
    set x | x in l
  }

  lemma {:induction false} ListedOnce(l: seq<Issue>)
    requires InOrder(l)
    ensures |SetOf(l)| == |l|
  {
    if l == [] {
    } else {
      FirstIsOnce(l);
      ListedOnce(l[1..]);
      assert SetOf(l) == {l[0]} + SetOf(l[1..]);
    }
  }

  predicate InThatOrder(l: seq<Issue>, x: Issue, y: Issue) {
    exists a, b :: 0 <= a < b < |l| && l[a] == x && l[b] == y
  }

  /** Any two issues of the part come in the same order in the whole. */
  predicate KeepsOrder(part: seq<Issue>, all: seq<Issue>) {
    forall i, j :: 0 <= i < j < |part| ==> InThatOrder(all, part[i], part[j])
  }

  lemma OrderDecides(l: seq<Issue>, a: nat, b: nat)
    requires InOrder(l) && a < |l| && b < |l| && Before(CursorOf(l[a]), CursorOf(l[b]))
    ensures a < b
  {}

  lemma PartKeepsOrder(part: seq<Issue>, all: seq<Issue>)
    requires InOrder(part) && InOrder(all) && forall x :: x in part ==> x in all
    ensures KeepsOrder(part, all)
  {
    forall i, j | 0 <= i < j < |part| ensures InThatOrder(all, part[i], part[j]) {
      assert part[i] in part && part[j] in part;
      var a :| 0 <= a < |all| && all[a] == part[i];
      var b :| 0 <= b < |all| && all[b] == part[j];
      assert Before(CursorOf(part[i]), CursorOf(part[j]));
      OrderDecides(all, a, b);
    }
  }

  /** Which of the listings an issue is in. */
  lemma InOneOf(issues: map<Key, Issue>, project: nat, all: seq<Issue>, open: seq<Issue>, resolved: seq<Issue>,
                ignored: seq<Issue>, x: Issue)
    requires IsListing(issues, project, AnyStatus, all) && IsListing(issues, project, Only(Open), open)
    requires IsListing(issues, project, Only(Resolved), resolved) && IsListing(issues, project, Only(Ignored), ignored)
    ensures x in open <==> x in all && x.status == Open
    ensures x in resolved <==> x in all && x.status == Resolved
    ensures x in ignored <==> x in all && x.status == Ignored
  {
    hide InOrder;
  }

  lemma SizesAdd(all: set<Issue>, open: set<Issue>, resolved: set<Issue>, ignored: set<Issue>)
    requires forall x :: x in open <==> x in all && x.status == Open
    requires forall x :: x in resolved <==> x in all && x.status == Resolved
    requires forall x :: x in ignored <==> x in all && x.status == Ignored
    ensures |open| + |resolved| + |ignored| == |all|
  {
    assert all == open + resolved + ignored;
    assert open !! resolved && (open + resolved) !! ignored;
  }

  /** The listings of the open, the resolved and the ignored issues split the listing of all. */
  lemma StatusesSplit(issues: map<Key, Issue>, project: nat, all: seq<Issue>, open: seq<Issue>, resolved: seq<Issue>,
                      ignored: seq<Issue>)
    requires IsListing(issues, project, AnyStatus, all) && IsListing(issues, project, Only(Open), open)
    requires IsListing(issues, project, Only(Resolved), resolved) && IsListing(issues, project, Only(Ignored), ignored)
    ensures |open| + |resolved| + |ignored| == |all|
    ensures forall x :: x in open <==> x in all && x.status == Open
    ensures forall x :: x in resolved <==> x in all && x.status == Resolved
    ensures forall x :: x in ignored <==> x in all && x.status == Ignored
    ensures KeepsOrder(open, all) && KeepsOrder(resolved, all) && KeepsOrder(ignored, all)
  {
    hide IsListing, KeepsOrder;
    forall x
      ensures x in open <==> x in all && x.status == Open
      ensures x in resolved <==> x in all && x.status == Resolved
      ensures x in ignored <==> x in all && x.status == Ignored
    {
      InOneOf(issues, project, all, open, resolved, ignored, x);
    }
    ListingIsInOrder(issues, project, AnyStatus, all);
    ListingIsInOrder(issues, project, Only(Open), open);
    ListingIsInOrder(issues, project, Only(Resolved), resolved);
    ListingIsInOrder(issues, project, Only(Ignored), ignored);
    PartKeepsOrder(open, all);
    PartKeepsOrder(resolved, all);
    PartKeepsOrder(ignored, all);
    ListedOnce(all);
    ListedOnce(open);
    ListedOnce(resolved);
    ListedOnce(ignored);
    SizesAdd(SetOf(all), SetOf(open), SetOf(resolved), SetOf(ignored));
  }

  // ---------------------------------------------------------------- pages

  /** Which page sizes are served: the one asked for, 50 if none is, and never more than 100. */
  lemma PageSizes(o: ListOptions)
    ensures Normalized(o).limit == PageSize(o.limit)
    ensures 1 <= o.limit <= 100 ==> PageSize(o.limit) == o.limit
    ensures o.limit < 1 ==> PageSize(o.limit) == 50
    ensures o.limit > 100 ==> PageSize(o.limit) == 100
  {}

  /** Seen before the cursor's moment, or at that moment with a greater fingerprint. */
  predicate Behind(x: Issue, cursor: ListCursor) {
    x.lastSeen < cursor.lastSeen || (x.lastSeen == cursor.lastSeen && x.key.fingerprint > cursor.fingerprint)
  }

  /**
   The page that starts at a place: as many issues as are left and fit, the size of the whole listing, and a cursor
   for the last issue shown exactly when more are left behind it.
   */
  predicate Shows(l: seq<Issue>, start: nat, limit: int, page: IssuePage) {
    var end := start + |page.issues|;
    && end <= |l| && page.issues == l[start..end] && (|page.issues| == limit || (|page.issues| < limit && end == |l|))
    && page.total == |l| && page.limit == limit
    && (page.next.Some? <==> page.issues != [] && end < |l|)
    && (page.next.Some? ==> page.next.value == ListCursor(l[end - 1].lastSeen, l[end - 1].key.fingerprint))
  }

  /** Without a cursor a page starts at the offset, where a negative one counts as none. */
  lemma PageFromOffset(l: seq<Issue>, options: ListOptions)
    requires options.after == None
    ensures var o := Normalized(options);
            var offset := if options.offset > 0 then options.offset else 0;
            Page(l, o).offset == offset && Shows(l, if offset < |l| then offset else |l|, o.limit, Page(l, o))
  {}

  /** With a cursor it starts behind that, and the offset does not matter. */
  lemma PageFromCursor(l: seq<Issue>, options: ListOptions) returns (start: nat)
    requires InOrder(l) && options.after.Some?
    ensures var o := Normalized(options); Page(l, o).offset == 0 && Shows(l, start, o.limit, Page(l, o))
    ensures start <= |l| && forall i :: 0 <= i < |l| ==> (i >= start <==> Behind(l[i], options.after.value))
  {
    hide InOrder;
    start := Search(l, options.after.value);
    SearchSplits(l, options.after.value);
    forall i | 0 <= i < |l| ensures i >= start <==> Behind(l[i], options.after.value) {
      assert i < start <==> !Before(options.after.value, CursorOf(l[i]));
    }
  }

  // ---------------------------------------------------------------- pages of occurrences

  /** Received before the cursor's moment, or at that moment with a smaller number. */
  predicate Preceding(x: Numbered, cursor: EventCursor) {
    x.event.receivedAt < cursor.receivedAt || (x.event.receivedAt == cursor.receivedAt && x.sequence < cursor.sequence)
  }

  /**
   The page that starts at a place of a history: as many events as are left and fit, the size of the history, and a
   cursor for the last event shown exactly when more are left behind it.
   */
  predicate ShowsEvents(h: seq<Numbered>, start: nat, limit: int, page: EventPage) {
    var end := start + |page.events|;
    && end <= |h| && (forall i :: 0 <= i < |page.events| ==> page.events[i] == h[start + i].event)
    && (|page.events| == limit || (|page.events| < limit && end == |h|))
    && page.total == |h| && page.limit == limit
    && (page.next.Some? <==> page.events != [] && end < |h|)
    && (page.next.Some? ==> page.next.value == EventCursor(h[end - 1].event.receivedAt, h[end - 1].sequence))
  }

  /** A page starts at the newest event, or behind the cursor. */
  lemma EventPageFrom(h: seq<Numbered>, limit: int, after: Option<EventCursor>) returns (start: nat)
    requires NewestFirst(h) && limit >= 1
    ensures ShowsEvents(h, start, limit, HistoryPage(h, limit, after))
    ensures start <= |h| && forall i :: 0 <= i < |h| ==> (i >= start <==> after == None || Preceding(h[i], after.value))
  {
    hide NewestFirst;
    start := 0;
    if after.Some? {
      start := SearchOlder(h, after.value);
      AnyCursorCuts(h, after.value);
    }
  }
}
