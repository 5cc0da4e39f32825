/** Keyset pagination of issues and of occurrence histories. */
module Listing {
  import opened MinMax
  import opened Options
  import opened IssueLog

  const DEFAULT_PAGE_SIZE := 50
  const MAX_PAGE_SIZE := 100

  datatype StatusFilter = AnyStatus | Only(status: Status) | Unknown

  datatype ListCursor = ListCursor(lastSeen: int, fingerprint: nat)

  datatype ListOptions = ListOptions(limit: int, offset: int, status: StatusFilter, after: Option<ListCursor>)

  datatype IssuePage = IssuePage(issues: seq<Issue>, total: nat, limit: int, offset: int, next: Option<ListCursor>)

  function PageSize(limit: int): (size: int)
    ensures 1 <= size <= MAX_PAGE_SIZE
  {
    if limit <= 0 then DEFAULT_PAGE_SIZE else if limit > MAX_PAGE_SIZE then MAX_PAGE_SIZE else limit
  }

  function Normalized(o: ListOptions): ListOptions {
    o.(limit := PageSize(o.limit), offset := if o.offset < 0 || o.after.Some? then 0 else o.offset)
  }

  // ---------------------------------------------------------------- the order of a listing

  function CursorOf(issue: Issue): ListCursor {
    ListCursor(issue.lastSeen, issue.key.fingerprint)
  }

  /** Most recently seen first, then by fingerprint. */
  predicate Before(a: ListCursor, b: ListCursor) {
    a.lastSeen > b.lastSeen || (a.lastSeen == b.lastSeen && a.fingerprint < b.fingerprint)
  }

  predicate InOrder(l: seq<Issue>) {
    forall i, j :: 0 <= i < j < |l| ==> Before(CursorOf(l[i]), CursorOf(l[j]))
  }

  predicate Matches(issue: Issue, project: nat, filter: StatusFilter) {
    issue.key.project == project && (filter.AnyStatus? || filter == Only(issue.status))
  }

  /** Every issue is stored under its own key. */
  predicate Keyed(issues: map<Key, Issue>) {
    forall key :: key in issues ==> issues[key].key == key
  }

  predicate Holds(issues: map<Key, Issue>, x: Issue) {
    x.key in issues && issues[x.key] == x
  }

  /** `l` is the ordered listing of the matching issues. */
  ghost predicate IsListing(issues: map<Key, Issue>, project: nat, filter: StatusFilter, l: seq<Issue>) {
    InOrder(l) && forall x :: x in l <==> Holds(issues, x) && Matches(x, project, filter)
  }

  lemma FirstIsOnce(l: seq<Issue>)
    requires InOrder(l) && l != []
    ensures forall x :: x in l <==> x == l[0] || x in l[1..]
    ensures l[0] !in l[1..] && InOrder(l[1..])
  {
    assert l == [l[0]] + l[1..];
    forall i | 1 <= i < |l| ensures l[i] != l[0] {
      assert Before(CursorOf(l[0]), CursorOf(l[i]));
    }
  }

  lemma {:induction false} OrderedIsUnique(a: seq<Issue>, b: seq<Issue>)
    requires InOrder(a) && InOrder(b) && forall x :: x in a <==> x in b
    ensures a == b
  {
    assert b != [] ==> b[0] in a;
    if a == [] {
    } else {
      assert a[0] in b && b != [] && b[0] in a;
      var i :| 0 <= i < |a| && a[i] == b[0];
      var j :| 0 <= j < |b| && b[j] == a[0];
      assert a[0] == b[0];
      FirstIsOnce(a);
      FirstIsOnce(b);
      OrderedIsUnique(a[1..], b[1..]);
    }
  }

  /** Equal issues list equally, however the store went about it. */
  lemma ListingIsUnique(issues: map<Key, Issue>, project: nat, filter: StatusFilter, a: seq<Issue>, b: seq<Issue>)
    requires IsListing(issues, project, filter, a) && IsListing(issues, project, filter, b)
    ensures a == b
  {
    OrderedIsUnique(a, b);
  }

  lemma ListingIsInOrder(issues: map<Key, Issue>, project: nat, filter: StatusFilter, l: seq<Issue>)
    requires IsListing(issues, project, filter, l)
    ensures InOrder(l)
  {}

  function Slot(x: Issue, l: seq<Issue>): seq<Issue> {
    if l == [] then [x] else if Before(CursorOf(l[0]), CursorOf(x)) then [l[0]] + Slot(x, l[1..]) else [x] + l
  }

  lemma {:induction false} SlotKeepsOrder(x: Issue, l: seq<Issue>)
    requires InOrder(l) && forall i :: 0 <= i < |l| ==> CursorOf(l[i]) != CursorOf(x)
    ensures InOrder(Slot(x, l)) && forall y :: y in Slot(x, l) <==> y == x || y in l
  {
    if l == [] {
    } else {
      assert l == [l[0]] + l[1..];
      if Before(CursorOf(l[0]), CursorOf(x)) {
        SlotKeepsOrder(x, l[1..]);
        var rest := Slot(x, l[1..]);
        forall j | 0 <= j < |rest| ensures Before(CursorOf(l[0]), CursorOf(rest[j])) {
          assert rest[j] in rest;
        }
      }
    }
  }

  /** Collects the matching issues in map order and sorts them. */
  method Select(issues: map<Key, Issue>, project: nat, filter: StatusFilter) returns (l: seq<Issue>)
    requires Keyed(issues)
    ensures IsListing(issues, project, filter, l)
  {
    l := [];
    var left := issues.Keys;
    while left != {}
      invariant left <= issues.Keys && InOrder(l)
      invariant forall x :: x in l <==> Holds(issues, x) && x.key !in left && Matches(x, project, filter)
    {
      var key :| key in left;
      if Matches(issues[key], project, filter) {
        forall i | 0 <= i < |l| ensures CursorOf(l[i]) != CursorOf(issues[key]) {
          assert l[i] in l;
        }
        SlotKeepsOrder(issues[key], l);
        l := Slot(issues[key], l);
      }
      left := left - {key};
    }
  }

  // ---------------------------------------------------------------- pages of issues

  predicate IsAfter(issue: Issue, cursor: ListCursor) {
    Before(cursor, CursorOf(issue))
  }

  /** The first index that the cursor is before. */
  function Search(l: seq<Issue>, cursor: ListCursor): (start: nat)
    ensures start <= |l| && (forall i :: 0 <= i < start ==> !IsAfter(l[i], cursor))
    ensures start < |l| ==> IsAfter(l[start], cursor)
  {
    if l == [] || IsAfter(l[0], cursor) then 0 else 1 + Search(l[1..], cursor)
  }

  function StartOf(l: seq<Issue>, o: ListOptions): (start: nat)
    requires o.offset >= 0
    ensures start <= |l|
  {
    if o.after.Some? then Search(l, o.after.value) else Min(o.offset, |l|)
  }

  /** One page cut from the whole listing, for normalised options. */
  function Page(l: seq<Issue>, o: ListOptions): IssuePage
    requires o == Normalized(o)
  {
    var start := StartOf(l, o);
    var end := Min(start + o.limit, |l|);
    IssuePage(l[start..end], |l|, o.limit, o.offset,
              if end < |l| && end > start then Some(CursorOf(l[end - 1])) else None)
  }

  function KeepAfter(l: seq<Issue>, cursor: ListCursor): seq<Issue> {
    if l == [] then [] else (if IsAfter(l[0], cursor) then [l[0]] else []) + KeepAfter(l[1..], cursor)
  }

  function Drop(n: nat, l: seq<Issue>): seq<Issue> {
    if n <= |l| then l[n..] else []
  }

  /** One page fetched with a cursor condition, an offset, and one row more than the page holds. */
  function FetchedPage(l: seq<Issue>, o: ListOptions): IssuePage
    requires o == Normalized(o)
  {
    var matching := if o.after.Some? then KeepAfter(l, o.after.value) else l;
    var rest := Drop(o.offset, matching);
    var fetched := rest[..Min(o.limit + 1, |rest|)];
    if |fetched| > o.limit then
      IssuePage(fetched[..o.limit], |l|, o.limit, o.offset, Some(CursorOf(fetched[o.limit - 1])))
    else IssuePage(fetched, |l|, o.limit, o.offset, None)
  }

  lemma {:induction false} KeepAfterIsSuffix(l: seq<Issue>, cursor: ListCursor)
    requires InOrder(l)
    ensures KeepAfter(l, cursor) == l[Search(l, cursor)..]
  {
    if l == [] {
    } else {
      KeepAfterIsSuffix(l[1..], cursor);
      if IsAfter(l[0], cursor) {
        assert l[1..] != [] ==> IsAfter(l[1..][0], cursor);
        assert l == [l[0]] + l[1..];
      }
    }
  }

  lemma DropIsSuffix(l: seq<Issue>, o: ListOptions)
    requires InOrder(l) && o == Normalized(o)
    ensures var matching := if o.after.Some? then KeepAfter(l, o.after.value) else l;
            Drop(o.offset, matching) == l[StartOf(l, o)..]
  {
    if o.after.Some? {
      KeepAfterIsSuffix(l, o.after.value);
    }
  }

  /** Both stores cut the same page out of the same listing. */
  lemma PagesAgree(l: seq<Issue>, o: ListOptions)
    requires InOrder(l) && o == Normalized(o)
    ensures FetchedPage(l, o) == Page(l, o)
  {
    hide InOrder, KeepAfter, Drop, StartOf;
    DropIsSuffix(l, o);
    var start := StartOf(l, o);
    var end := Min(start + o.limit, |l|);
    var rest := l[start..];
    if |rest| > o.limit {
      assert end == start + o.limit;
      assert rest[..o.limit + 1][..o.limit] == rest[..o.limit] == l[start..end];
      assert rest[..o.limit + 1][o.limit - 1] == l[end - 1];
    } else {
      assert rest[..|rest|] == l[start..end];
    }
  }

  // ---------------------------------------------------------------- pages of occurrences

  datatype EventCursor = EventCursor(receivedAt: int, sequence: nat)

  datatype EventPage = EventPage(events: seq<Event>, total: nat, limit: int, next: Option<EventCursor>)

  function EventCursorOf(x: Numbered): EventCursor {
    EventCursor(x.event.receivedAt, x.sequence)
  }

  predicate Older(x: Numbered, cursor: EventCursor) {
    x.event.receivedAt < cursor.receivedAt || (x.event.receivedAt == cursor.receivedAt && x.sequence < cursor.sequence)
  }

  function SearchOlder(h: seq<Numbered>, cursor: EventCursor): (start: nat)
    ensures start <= |h|
  {
    if h == [] || Older(h[0], cursor) then 0 else 1 + SearchOlder(h[1..], cursor)
  }

  /** One page cut from the whole history. */
  function HistoryPage(h: seq<Numbered>, limit: int, after: Option<EventCursor>): EventPage
    requires limit >= 1
  {
    var start := if after.Some? then SearchOlder(h, after.value) else 0;
    var end := Min(start + limit, |h|);
    EventPage(Events(h[start..end]), |h|, limit,
              if end < |h| && end > start then Some(EventCursorOf(h[end - 1])) else None)
  }

  function KeepOlder(h: seq<Numbered>, cursor: EventCursor): seq<Numbered> {
    if h == [] then [] else (if Older(h[0], cursor) then [h[0]] else []) + KeepOlder(h[1..], cursor)
  }

  /** One page fetched with a cursor condition and one row more than the page holds. */
  function FetchedHistoryPage(h: seq<Numbered>, limit: int, after: Option<EventCursor>): EventPage
    requires limit >= 1
  {
    var rest := if after.Some? then KeepOlder(h, after.value) else h;
    var fetched := rest[..Min(limit + 1, |rest|)];
    if |fetched| > limit then EventPage(Events(fetched[..limit]), |h|, limit, Some(EventCursorOf(fetched[limit - 1])))
    else EventPage(Events(fetched), |h|, limit, None)
  }

  /** The cursor that stands behind the first `n` occurrences. */
  function CursorBehind(h: seq<Numbered>, n: nat): Option<EventCursor>
    requires n <= |h|
  {
    if n == 0 then None else Some(EventCursorOf(h[n - 1]))
  }

  /** A cursor cuts a history: what is older than it stands behind everything else. */
  predicate CutsAt(h: seq<Numbered>, cursor: EventCursor, n: nat) {
    n <= |h| && forall i :: 0 <= i < |h| ==> (Older(h[i], cursor) <==> i >= n)
  }

  lemma {:induction false} CutIsSuffix(h: seq<Numbered>, cursor: EventCursor, n: nat)
    requires CutsAt(h, cursor, n)
    ensures SearchOlder(h, cursor) == n && KeepOlder(h, cursor) == h[n..]
  {
    hide Older;
    if n > 0 {
      CutIsSuffix(h[1..], cursor, n - 1);
      assert h[1..][n - 1..] == h[n..];
    } else {
      AllOlder(h, cursor);
    }
  }

  lemma {:induction false} AllOlder(h: seq<Numbered>, cursor: EventCursor)
    requires forall i :: 0 <= i < |h| ==> Older(h[i], cursor)
    ensures KeepOlder(h, cursor) == h && SearchOlder(h, cursor) == 0
  {
    hide Older;
    if h == [] {
    } else {
      AllOlder(h[1..], cursor);
      assert h == [h[0]] + h[1..];
    }
  }

  /** Any cursor cuts any history, for what is newer than something that is not older than it is not either. */
  lemma AnyCursorCuts(h: seq<Numbered>, cursor: EventCursor)
    requires NewestFirst(h)
    ensures CutsAt(h, cursor, SearchOlder(h, cursor))
  {
    SearchOlderFirst(h, cursor);
    var n := SearchOlder(h, cursor);
    forall i | n < i < |h| ensures Older(h[i], cursor) {
      assert Newer(h[n], h[i]);
    }
  }

  lemma {:induction false} SearchOlderFirst(h: seq<Numbered>, cursor: EventCursor)
    ensures var n := SearchOlder(h, cursor);
            && (forall i :: 0 <= i < n ==> !Older(h[i], cursor)) && (n < |h| ==> Older(h[n], cursor))
  {
    if h != [] && !Older(h[0], cursor) {
      SearchOlderFirst(h[1..], cursor);
    }
  }

  /** The cursor of an occurrence cuts behind it. */
  lemma BehindCuts(h: seq<Numbered>, n: nat)
    requires NewestFirst(h) && 1 <= n <= |h|
    ensures CutsAt(h, EventCursorOf(h[n - 1]), n)
  {
    forall i | 0 <= i < |h| ensures Older(h[i], EventCursorOf(h[n - 1])) <==> i >= n {
      if i < n - 1 {
        assert Newer(h[i], h[n - 1]);
      } else if i >= n {
        assert Newer(h[n - 1], h[i]);
      }
    }
  }

  /** The place at which a cursor, or none, cuts. */
  predicate StandsAt(h: seq<Numbered>, cursor: Option<EventCursor>, n: nat) {
    if cursor == None then n == 0 else CutsAt(h, cursor.value, n)
  }

  /** Where the page behind the first `n` occurrences ends. */
  function PageEnd(h: seq<Numbered>, n: nat, limit: int): (end: nat)
    requires limit >= 1
  {
    Min(n + limit, |h|)
  }

  function PageFrom(h: seq<Numbered>, n: nat, limit: int): EventPage
    requires n <= |h| && limit >= 1
  {
    var end := PageEnd(h, n, limit);
    EventPage(Events(h)[n..end], |h|, limit, if end < |h| then CursorBehind(h, end) else None)
  }

  lemma PageAt(h: seq<Numbered>, cursor: Option<EventCursor>, n: nat, limit: int)
    requires StandsAt(h, cursor, n) && n <= |h| && limit >= 1
    ensures HistoryPage(h, limit, cursor) == PageFrom(h, n, limit)
  {
    hide CutsAt, SearchOlder;
    if cursor.Some? {
      CutIsSuffix(h, cursor.value, n);
    }
    var end := PageEnd(h, n, limit);
    assert Events(h[n..end]) == Events(h)[n..end];
  }

  lemma FetchedSlice(h: seq<Numbered>, n: nat, limit: nat)
    requires limit >= 1 && n + limit < |h|
    ensures h[n..][..limit + 1][..limit] == h[n..n + limit]
    ensures h[n..][..limit + 1][limit - 1] == h[n + limit - 1]
  {}

  lemma FetchedAt(h: seq<Numbered>, cursor: Option<EventCursor>, n: nat, limit: int)
    requires StandsAt(h, cursor, n) && n <= |h| && limit >= 1
    ensures FetchedHistoryPage(h, limit, cursor) == PageFrom(h, n, limit)
  {
    hide CutsAt, SearchOlder, KeepOlder;
    if cursor.Some? {
      CutIsSuffix(h, cursor.value, n);
    }
    var end := PageEnd(h, n, limit);
    var rest := if cursor.Some? then KeepOlder(h, cursor.value) else h;
    assert rest == h[n..];
    assert Events(h[n..end]) == Events(h)[n..end];
    if |rest| > limit {
      FetchedSlice(h, n, limit);
      assert end == n + limit;
    } else {
      assert end == |h|;
      assert rest[..|rest|] == rest;
      assert h[n..end] == h[n..];
    }
  }

  /** Equal pages: the same events and total, and next cursors that stand at the same place. */
  ghost predicate SamePage(h: seq<Numbered>, g: seq<Numbered>, page: EventPage, fetched: EventPage) {
    && |g| == |h| && page.events == fetched.events && page.total == fetched.total && page.limit == fetched.limit
    && exists m :: 0 <= m <= |h| && page.next == CursorBehind(h, m) && fetched.next == CursorBehind(g, m)
  }

  /**
   Equal histories give equal pages, though each store numbers its occurrences for itself, as long as the two
   cursors stand at the same place.
   */
  lemma HistoryPagesAgree(h: seq<Numbered>, g: seq<Numbered>, c: Option<EventCursor>, d: Option<EventCursor>,
                          n: nat, limit: int)
    requires Events(h) == Events(g) && n <= |h| && limit >= 1 && StandsAt(h, c, n) && StandsAt(g, d, n)
    ensures SamePage(h, g, HistoryPage(h, limit, c), FetchedHistoryPage(g, limit, d))
  {
    hide HistoryPage, FetchedHistoryPage, StandsAt;
    assert |Events(h)| == |h| && |Events(g)| == |g|;
    PageAt(h, c, n, limit);
    FetchedAt(g, d, n, limit);
    var end := PageEnd(h, n, limit);
    var m := if end < |h| then end else 0;
    assert CursorBehind(h, 0) == None;
  }

  // ---------------------------------------------------------------- walking through the pages

  /** One request of a walk: what the store held at that moment, its listing, the cursor sent, the page received. */
  datatype Visit = Visit(issues: map<Key, Issue>, listing: seq<Issue>, after: Option<ListCursor>, page: IssuePage)

  ghost predicate VisitOk(project: nat, filter: StatusFilter, limit: int, v: Visit) {
    && IsListing(v.issues, project, filter, v.listing)
    && v.page == Page(v.listing, Normalized(ListOptions(limit, 0, filter, v.after)))
  }

  /** Pages requested one after the other with the cursor of the page before, whatever the store does in between. */
  ghost predicate IsWalk(project: nat, filter: StatusFilter, limit: int, vs: seq<Visit>) {
    && (forall i {:trigger vs[i]} :: 0 <= i < |vs| ==> VisitOk(project, filter, limit, vs[i]))
    && (vs != [] ==> vs[0].after == None)
    && (forall i, j :: 0 <= i < j < |vs| && j == i + 1 ==> vs[j].after == vs[i].page.next && vs[j].after.Some?)
  }

  /** A page is a stretch of the listing: it starts behind its cursor, and the next cursor is its last issue. */
  lemma PageShape(project: nat, filter: StatusFilter, limit: int, v: Visit) returns (start: nat, end: nat)
    requires VisitOk(project, filter, limit, v)
    ensures start <= end <= |v.listing| && v.page.issues == v.listing[start..end]
    ensures forall i :: 0 <= i < |v.listing| ==>
              (i < start <==> v.after.Some? && !Before(v.after.value, CursorOf(v.listing[i])))
    ensures v.page.next == if end < |v.listing| then Some(CursorOf(v.listing[end - 1])) else None
    ensures end < |v.listing| ==> start < end
  {
    var o := Normalized(ListOptions(limit, 0, filter, v.after));
    start := StartOf(v.listing, o);
    end := Min(start + o.limit, |v.listing|);
    if v.after.Some? {
      SearchSplits(v.listing, v.after.value);
    }
  }

  lemma SearchSplits(l: seq<Issue>, cursor: ListCursor)
    requires InOrder(l)
    ensures forall i :: 0 <= i < |l| ==> (i < Search(l, cursor) <==> !Before(cursor, CursorOf(l[i])))
  {
    var start := Search(l, cursor);
    forall i | 0 <= i < |l| ensures i < start <==> !Before(cursor, CursorOf(l[i])) {
      if i < start {
        assert !IsAfter(l[i], cursor);
      } else {
        assert IsAfter(l[start], cursor);
        assert i > start ==> Before(CursorOf(l[start]), CursorOf(l[i]));
      }
    }
  }

  lemma PageIsBetween(project: nat, filter: StatusFilter, limit: int, v: Visit, x: Issue)
    requires VisitOk(project, filter, limit, v) && x in v.page.issues
    ensures Holds(v.issues, x)
    ensures v.after.Some? ==> Before(v.after.value, CursorOf(x))
    ensures v.page.next.Some? ==> CursorOf(x) == v.page.next.value || Before(CursorOf(x), v.page.next.value)
  {
    hide Holds, Page, Before, Matches, CursorOf, Normalized;
    var start, end := PageShape(project, filter, limit, v);
    var k :| 0 <= k < |v.page.issues| && v.page.issues[k] == x;
    assert v.listing[start + k] == x && x in v.listing;
  }

  /** Cursors only move forward along a walk. */
  lemma {:induction false} CursorsAdvance(project: nat, filter: StatusFilter, limit: int, vs: seq<Visit>, i: nat,
                                          j: nat)
    requires IsWalk(project, filter, limit, vs) && i < j < |vs|
    ensures vs[i].page.next.Some? && vs[j].after.Some?
    ensures vs[i].page.next == vs[j].after || Before(vs[i].page.next.value, vs[j].after.value)
    decreases j
  {
    hide Page, VisitOk;
    var v := vs[j - 1];
    assert VisitOk(project, filter, limit, v);
    assert vs[j].after == v.page.next;
    if i < j - 1 {
      CursorsAdvance(project, filter, limit, vs, i, j - 1);
      NextIsAhead(project, filter, limit, v);
    }
  }

  lemma NextIsAhead(project: nat, filter: StatusFilter, limit: int, v: Visit)
    requires VisitOk(project, filter, limit, v) && v.after.Some? && v.page.next.Some?
    ensures Before(v.after.value, v.page.next.value)
  {
    hide Page, Matches;
    var start, end := PageShape(project, filter, limit, v);
    var last := v.listing[end - 1];
    assert last == v.page.issues[end - 1 - start];
    PageIsBetween(project, filter, limit, v, last);
  }

  ghost predicate Returned(v: Visit, key: Key) {
    exists x :: x in v.page.issues && x.key == key
  }

  /** An issue comes back on a later page only if its last sighting has moved back, whatever the store has done. */
  lemma BackOnlyIfOlder(project: nat, filter: StatusFilter, limit: int, vs: seq<Visit>, i: nat, j: nat, key: Key)
    requires IsWalk(project, filter, limit, vs) && i < j < |vs| && Returned(vs[i], key) && Returned(vs[j], key)
    ensures key in vs[i].issues && key in vs[j].issues && vs[j].issues[key].lastSeen < vs[i].issues[key].lastSeen
  {
    hide VisitOk, Page;
    assert VisitOk(project, filter, limit, vs[i]) && VisitOk(project, filter, limit, vs[j]);
    CursorsAdvance(project, filter, limit, vs, i, j);
    var x :| x in vs[i].page.issues && x.key == key;
    var y :| y in vs[j].page.issues && y.key == key;
    PageIsBetween(project, filter, limit, vs[i], x);
    PageIsBetween(project, filter, limit, vs[j], y);
  }

  /** The visits find what a log means that grows along the walk: batches and status changes come in between. */
  ghost predicate Follows(vs: seq<Visit>, logs: seq<seq<Entry>>) {
    && |logs| == |vs|
    && (forall i, j :: 0 <= i < j < |logs| ==> logs[i] <= logs[j])
    && (forall i, key {:trigger key in vs[i].issues} :: 0 <= i < |vs| ==>
          IssueOf(logs[i], key) == if key in vs[i].issues then Some(vs[i].issues[key]) else None)
  }

  /** No issue is returned twice, whatever is recorded or triaged between the pages. */
  lemma NoIssueTwice(project: nat, filter: StatusFilter, limit: int, vs: seq<Visit>, logs: seq<seq<Entry>>,
                     i: nat, j: nat, key: Key)
    requires IsWalk(project, filter, limit, vs) && Follows(vs, logs) && i < j < |vs| && Returned(vs[i], key)
    ensures !Returned(vs[j], key)
  {
    hide IssueOf, IsWalk, Returned;
    if Returned(vs[j], key) {
      BackOnlyIfOlder(project, filter, limit, vs, i, j, key);
      assert logs[i] <= logs[j];
      SeenStays(logs[i], logs[j], key, vs[i].issues[key], vs[j].issues[key]);
    }
  }

  lemma SeenStays(a: seq<Entry>, b: seq<Entry>, key: Key, x: Issue, y: Issue)
    requires a <= b && IssueOf(a, key) == Some(x) && IssueOf(b, key) == Some(y)
    ensures x.lastSeen <= y.lastSeen
  {
    hide IssueOf;
    assert b == a + b[|a|..];
    SeenNeverMovesBack(a, b[|a|..], key);
  }

  /** The issue is in the page, or the next cursor is still before it. */
  lemma PageOrLater(project: nat, filter: StatusFilter, limit: int, v: Visit, x: Issue)
    requires VisitOk(project, filter, limit, v) && x in v.listing
    requires v.after.Some? ==> Before(v.after.value, CursorOf(x))
    ensures x in v.page.issues || (v.page.next.Some? && Before(v.page.next.value, CursorOf(x)))
  {
    hide Holds, Page, Before, Matches, CursorOf, Normalized;
    var start, end := PageShape(project, filter, limit, v);
    var k :| 0 <= k < |v.listing| && v.listing[k] == x;
    if k < end {
      assert v.page.issues[k - start] == x;
    } else {
      assert Before(CursorOf(v.listing[end - 1]), CursorOf(v.listing[k]));
    }
  }

  /** The issue matches at every visit and was last seen at the same time. */
  ghost predicate Unmoved(project: nat, filter: StatusFilter, vs: seq<Visit>, key: Key) {
    && (forall i {:trigger vs[i]} :: 0 <= i < |vs| ==>
          key in vs[i].issues && vs[i].issues[key].key == key && Matches(vs[i].issues[key], project, filter))
    && (forall i, j :: 0 <= i < j < |vs| ==> vs[i].issues[key].lastSeen == vs[j].issues[key].lastSeen)
  }

  lemma {:induction false} FoundBy(project: nat, filter: StatusFilter, limit: int, vs: seq<Visit>, key: Key, j: nat)
    requires IsWalk(project, filter, limit, vs) && Unmoved(project, filter, vs, key) && j < |vs|
    ensures (exists i :: 0 <= i <= j && Returned(vs[i], key))
         || (vs[j].page.next.Some? && Before(vs[j].page.next.value, CursorOf(vs[j].issues[key])))
    decreases j
  {
    hide Page;
    var v := vs[j];
    assert VisitOk(project, filter, limit, v);
    var x := v.issues[key];
    if j == 0 {
      PageOrLater(project, filter, limit, v, x);
    } else {
      FoundBy(project, filter, limit, vs, key, j - 1);
      assert CursorOf(vs[j - 1].issues[key]) == CursorOf(x);
      assert v.after == vs[j - 1].page.next;
      if !(exists i :: 0 <= i <= j - 1 && Returned(vs[i], key)) {
        PageOrLater(project, filter, limit, v, x);
      }
    }
  }

  ghost predicate ReturnedOnce(vs: seq<Visit>, key: Key) {
    exists i :: 0 <= i < |vs| && Returned(vs[i], key) && (forall j :: 0 <= j < |vs| && j != i ==> !Returned(vs[j], key))
  }

  /**
   A walk that ends has returned every issue that matched throughout and got no later event, exactly once, whatever
   else was recorded, triaged, migrated or evicted between the pages.
   */
  lemma NoneMissed(project: nat, filter: StatusFilter, limit: int, vs: seq<Visit>, key: Key)
    requires IsWalk(project, filter, limit, vs) && Unmoved(project, filter, vs, key)
    requires vs != [] && vs[|vs| - 1].page.next == None
    ensures ReturnedOnce(vs, key)
  {
    hide IsWalk, Returned;
    FoundBy(project, filter, limit, vs, key, |vs| - 1);
    var i :| 0 <= i < |vs| && Returned(vs[i], key);
    forall j | 0 <= j < |vs| && j != i ensures !Returned(vs[j], key) {
      if j < i && Returned(vs[j], key) {
        BackOnlyIfOlder(project, filter, limit, vs, j, i, key);
      } else if i < j && Returned(vs[j], key) {
        BackOnlyIfOlder(project, filter, limit, vs, i, j, key);
      }
    }
  }
}
