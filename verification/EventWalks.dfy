/** Walking through the pages of an issue's occurrences while batches and status changes come in between. */
module EventWalks {
  import opened Options
  import opened IssueLog
  import opened Sqlite
  import opened Listing
  import opened Memory
  import opened SqliteSimulation

  /** One request: the occurrences held at that moment, newest first, the cursor sent, and the page received. */
  datatype EventVisit = EventVisit(history: seq<Numbered>, after: Option<EventCursor>, page: EventPage)

  /** Either store's way of cutting the page. */
  predicate Served(limit: int, v: EventVisit)
    requires limit >= 1
  {
    v.page == HistoryPage(v.history, limit, v.after) || v.page == FetchedHistoryPage(v.history, limit, v.after)
  }

  /** Each page is asked for with the cursor of the page before. */
  ghost predicate Chained(vs: seq<EventVisit>) {
    && (vs != [] ==> vs[0].after == None)
    && (forall i, j :: 0 <= i < j < |vs| && j == i + 1 ==> vs[j].after == vs[i].page.next && vs[j].after.Some?)
  }

  ghost predicate IsEventWalk(limit: int, vs: seq<EventVisit>)
    requires limit >= 1
  {
    && (forall i {:trigger vs[i]} :: 0 <= i < |vs| ==> Served(limit, vs[i]) && NewestFirst(vs[i].history))
    && Chained(vs)
  }

  function Start(v: EventVisit): (start: nat)
    ensures start <= |v.history|
  {
    if v.after.Some? then SearchOlder(v.history, v.after.value) else 0
  }

  /** The occurrences whose events are on the page. */
  function Shown(limit: int, v: EventVisit): seq<Numbered>
    requires limit >= 1
  {
    v.history[Start(v)..PageEnd(v.history, Start(v), limit)]
  }

  lemma PageShows(limit: int, v: EventVisit)
    requires limit >= 1 && Served(limit, v) && NewestFirst(v.history)
    ensures StandsAt(v.history, v.after, Start(v))
    ensures v.page.events == Events(Shown(limit, v))
    ensures var end := PageEnd(v.history, Start(v), limit);
            v.page.next == if end < |v.history| then CursorBehind(v.history, end) else None
  {
    hide HistoryPage, FetchedHistoryPage, CutsAt, Older;
    if v.after.Some? {
      AnyCursorCuts(v.history, v.after.value);
    }
    PageAt(v.history, v.after, Start(v), limit);
    FetchedAt(v.history, v.after, Start(v), limit);
    assert Events(v.history[Start(v)..PageEnd(v.history, Start(v), limit)])
        == Events(v.history)[Start(v)..PageEnd(v.history, Start(v), limit)];
  }

  /** What a page shows is older than the cursor sent, and not older than the one received. */
  lemma ShownBetween(limit: int, v: EventVisit, x: Numbered)
    requires limit >= 1 && Served(limit, v) && NewestFirst(v.history) && x in Shown(limit, v)
    ensures v.after.Some? ==> Older(x, v.after.value)
    ensures v.page.next.Some? ==> !Older(x, v.page.next.value)
  {
    hide Older, NewestFirst, Served;
    PageShows(limit, v);
    var h, start, end := v.history, Start(v), PageEnd(v.history, Start(v), limit);
    var k :| 0 <= k < |Shown(limit, v)| && Shown(limit, v)[k] == x;
    assert h[start + k] == x;
    if end < |h| {
      BehindCuts(h, end);
    }
  }

  /** An occurrence that is still there and older than the cursor sent is shown, or older than the one received. */
  lemma ShownOrLater(limit: int, v: EventVisit, x: Numbered)
    requires limit >= 1 && Served(limit, v) && NewestFirst(v.history) && x in v.history
    requires v.after.Some? ==> Older(x, v.after.value)
    ensures x in Shown(limit, v) || (v.page.next.Some? && Older(x, v.page.next.value))
  {
    hide Older, NewestFirst, Served;
    PageShows(limit, v);
    var h, start, end := v.history, Start(v), PageEnd(v.history, Start(v), limit);
    var k :| 0 <= k < |h| && h[k] == x;
    assert k >= start;
    if k < end {
      assert Shown(limit, v)[k - start] == x;
    } else {
      BehindCuts(h, end);
    }
  }

  lemma OlderStill(x: Numbered, y: Numbered, cursor: EventCursor)
    requires Older(x, EventCursorOf(y)) && Older(y, cursor)
    ensures Older(x, cursor)
  {}

  /** The cursor received is that of an occurrence shown. */
  lemma NextIsShown(limit: int, v: EventVisit) returns (y: Numbered)
    requires limit >= 1 && Served(limit, v) && NewestFirst(v.history) && v.page.next.Some?
    ensures y in Shown(limit, v) && v.page.next == Some(EventCursorOf(y))
  {
    hide Older, NewestFirst, Served;
    PageShows(limit, v);
    var start, end := Start(v), PageEnd(v.history, Start(v), limit);
    y := v.history[end - 1];
    assert Shown(limit, v)[end - 1 - start] == y;
  }

  /** Cursors only move on to older occurrences. */
  lemma {:induction false} CursorsFall(limit: int, vs: seq<EventVisit>, i: nat, j: nat, x: Numbered)
    requires limit >= 1 && IsEventWalk(limit, vs) && i < j < |vs|
    ensures vs[i].page.next.Some? && vs[j].after.Some?
    ensures Older(x, vs[j].after.value) ==> Older(x, vs[i].page.next.value)
    decreases j
  {
    hide Older, NewestFirst, Served;
    var v := vs[j - 1];
    assert vs[j].after == v.page.next;
    if i < j - 1 {
      CursorsFall(limit, vs, i, j - 1, x);
      if Older(x, vs[j].after.value) {
        var y := NextIsShown(limit, v);
        ShownBetween(limit, v, y);
        OlderStill(x, y, v.after.value);
      }
    }
  }

  /** No occurrence is shown twice, whatever the store does between the pages. */
  lemma NoOccurrenceTwice(limit: int, vs: seq<EventVisit>, i: nat, j: nat, x: Numbered)
    requires limit >= 1 && IsEventWalk(limit, vs) && i < j < |vs| && x in Shown(limit, vs[i])
    ensures x !in Shown(limit, vs[j])
  {
    hide Older, NewestFirst, Served, Shown;
    ShownBetween(limit, vs[i], x);
    CursorsFall(limit, vs, i, j, x);
    if x in Shown(limit, vs[j]) {
      ShownBetween(limit, vs[j], x);
    }
  }

  lemma {:induction false} ShownBy(limit: int, vs: seq<EventVisit>, x: Numbered, j: nat)
    requires limit >= 1 && IsEventWalk(limit, vs) && j < |vs|
    requires forall i {:trigger vs[i]} :: 0 <= i < |vs| ==> x in vs[i].history
    ensures (exists i :: 0 <= i <= j && x in Shown(limit, vs[i]))
         || (vs[j].page.next.Some? && Older(x, vs[j].page.next.value))
    decreases j
  {
    hide Older, NewestFirst, Served, Shown;
    assert Served(limit, vs[j]);
    if j == 0 {
      ShownOrLater(limit, vs[j], x);
    } else {
      ShownBy(limit, vs, x, j - 1);
      assert vs[j].after == vs[j - 1].page.next;
      if !(exists i :: 0 <= i <= j - 1 && x in Shown(limit, vs[i])) {
        ShownOrLater(limit, vs[j], x);
      }
    }
  }

  ghost predicate ShownOnce(limit: int, vs: seq<EventVisit>, x: Numbered)
    requires limit >= 1
  {
    exists i :: 0 <= i < |vs| && x in Shown(limit, vs[i])
                && forall j :: 0 <= j < |vs| && j != i ==> x !in Shown(limit, vs[j])
  }

  /** A walk that ends has shown every occurrence that was held throughout exactly once. */
  lemma NoOccurrenceMissed(limit: int, vs: seq<EventVisit>, x: Numbered)
    requires limit >= 1 && IsEventWalk(limit, vs) && vs != [] && vs[|vs| - 1].page.next == None
    requires forall i {:trigger vs[i]} :: 0 <= i < |vs| ==> x in vs[i].history
    ensures ShownOnce(limit, vs, x)
  {
    hide IsEventWalk, Shown;
    ShownBy(limit, vs, x, |vs| - 1);
    var i :| 0 <= i < |vs| && x in Shown(limit, vs[i]);
    forall j | 0 <= j < |vs| && j != i ensures x !in Shown(limit, vs[j]) {
      if j < i {
        if x in Shown(limit, vs[j]) {
          NoOccurrenceTwice(limit, vs, j, i, x);
        }
      } else {
        NoOccurrenceTwice(limit, vs, i, j, x);
      }
    }
  }

  // ---------------------------------------------------------------- the two stores

  /** A walk through the in-memory store, which holds the newest occurrences of a log that grows. */
  ghost predicate MemoryWalk(n: nat, limit: int, key: Key, logs: seq<seq<Entry>>, vs: seq<EventVisit>)
    requires limit >= 1
  {
    && |logs| == |vs| && (forall i, j :: 0 <= i < j < |logs| ==> logs[i] <= logs[j])
    && (forall i {:trigger vs[i]} :: 0 <= i < |vs| ==>
          && vs[i].history == History(n, logs[i], key)
          && vs[i].page == HistoryPage(vs[i].history, limit, vs[i].after))
    && Chained(vs)
  }

  /** A walk through the SQLite store, which may give the numbers of trimmed occurrences out again. */
  ghost predicate SqliteWalk(scan: Scan, n: nat, limit: int, key: Key, runs: seq<seq<Operation>>, vs: seq<EventVisit>)
    requires limit >= 1
  {
    && |runs| == |vs| && (forall i, j :: 0 <= i < j < |runs| ==> runs[i] <= runs[j])
    && (forall i {:trigger vs[i]} :: 0 <= i < |vs| ==>
          && vs[i].history == Sort(Of(RunDb(scan, n, runs[i]).events, key))
          && vs[i].page == FetchedHistoryPage(vs[i].history, limit, vs[i].after))
    && Chained(vs)
  }

  lemma MemoryWalks(n: nat, limit: int, key: Key, logs: seq<seq<Entry>>, vs: seq<EventVisit>)
    requires limit >= 1 && MemoryWalk(n, limit, key, logs, vs)
    ensures IsEventWalk(limit, vs)
  {
    hide History, HistoryPage, FetchedHistoryPage, NewestFirst;
    forall i {:trigger vs[i]} | 0 <= i < |vs| ensures Served(limit, vs[i]) && NewestFirst(vs[i].history) {
      HistoryIsNewest(n, logs[i], key);
    }
  }

  lemma SqliteWalks(scan: Scan, n: nat, limit: int, key: Key, runs: seq<seq<Operation>>, vs: seq<EventVisit>)
    requires limit >= 1 && Sound(scan) && SqliteWalk(scan, n, limit, key, runs, vs)
    ensures IsEventWalk(limit, vs)
  {
    hide Sort, Of, RunDb, HistoryPage, FetchedHistoryPage, NewestFirst;
    forall i {:trigger vs[i]} | 0 <= i < |vs| ensures Served(limit, vs[i]) && NewestFirst(vs[i].history) {
      RowsAreNewestFirst(scan, n, runs[i], key);
    }
  }

  lemma RowsAreNewestFirst(scan: Scan, n: nat, ops: seq<Operation>, key: Key)
    requires Sound(scan)
    ensures NewestFirst(Sort(Of(RunDb(scan, n, ops).events, key)))
  {
    hide Sort, Of, RunDb, LogOf, History, IssueOf;
    var db := RunDb(scan, n, ops);
    RunTracks(scan, n, ops);
    OfRises(db.events, key);
    SortIsSorted(Of(db.events, key));
  }

  /** The in-memory store never takes a trimmed occurrence back, so what it holds at both ends it held throughout. */
  lemma HeldBetween(n: nat, a: seq<Entry>, b: seq<Entry>, c: seq<Entry>, key: Key, x: Numbered)
    requires a <= b <= c && x in History(n, a, key) && x in History(n, c, key)
    ensures x in History(n, b, key)
  {
    hide Sort, Arrivals, History, Since, Trim;
    HistoryGrows(n, b, c, key);
    var all := History(n, b, key) + Since(b, c, key);
    TrimMembers(n, Sort(all));
    SortMembers(all);
    assert x in all;
    NotSince(n, a, b, c, key, x);
  }

  lemma TrimMembers(n: nat, h: seq<Numbered>)
    ensures forall x :: x in Trim(n, h) ==> x in h
  {}

  /** What was recorded before is not among the later arrivals, which have greater numbers. */
  lemma NotSince(n: nat, a: seq<Entry>, b: seq<Entry>, c: seq<Entry>, key: Key, x: Numbered)
    requires a <= b <= c && x in History(n, a, key)
    ensures x !in Since(b, c, key)
  {
    hide Sort, Since, History;
    SinceGrowsAbove(a, b, c, key, x);
    HistoryIsNewest(n, a, key);
    assert x in Arrivals(a, key);
  }

  lemma SinceGrowsAbove(a: seq<Entry>, b: seq<Entry>, c: seq<Entry>, key: Key, x: Numbered)
    requires a <= b <= c
    ensures x in Arrivals(a, key) ==> x !in Since(b, c, key)
  {
    assert b == a + b[|a|..] && c == b + c[|b|..];
    hide Arrivals, Count;
    ArrivalsConcat(a, b[|a|..], key);
    ArrivalsConcat(b, c[|b|..], key);
    ArrivalsRise(c, key);
    var some, all := Arrivals(b, key), Arrivals(c, key);
    if x in Arrivals(a, key) {
      var i :| 0 <= i < |Arrivals(a, key)| && Arrivals(a, key)[i] == x;
      assert all[i] == x;
      forall k | |some| <= k < |all| ensures all[k] != x {
        assert all[i].sequence < all[k].sequence;
      }
      assert Since(b, c, key) == all[|some|..];
    }
  }

  /**
   Both stores, along any walk with batches and status changes between the pages: no occurrence is shown twice, and
   one that is held from the first page to the last is shown exactly once.
   */
  lemma MemoryWalkIsSound(n: nat, limit: int, key: Key, logs: seq<seq<Entry>>, vs: seq<EventVisit>, x: Numbered)
    requires limit >= 1 && MemoryWalk(n, limit, key, logs, vs)
    ensures forall i, j :: 0 <= i < j < |vs| ==> x !in Shown(limit, vs[i]) || x !in Shown(limit, vs[j])
    ensures vs != [] && vs[|vs| - 1].page.next == None && x in vs[0].history && x in vs[|vs| - 1].history ==>
              ShownOnce(limit, vs, x)
  {
    hide IsEventWalk, Shown, History, HistoryPage, ShownOnce;
    MemoryWalks(n, limit, key, logs, vs);
    forall i: nat, j: nat | i < j < |vs| && x in Shown(limit, vs[i]) ensures x !in Shown(limit, vs[j]) {
      NoOccurrenceTwice(limit, vs, i, j, x);
    }
    if vs != [] && vs[|vs| - 1].page.next == None && x in vs[0].history && x in vs[|vs| - 1].history {
      forall i {:trigger vs[i]} | 0 <= i < |vs| ensures x in vs[i].history {
        if 0 < i < |vs| - 1 {
          HeldBetween(n, logs[0], logs[i], logs[|vs| - 1], key, x);
        }
      }
      NoOccurrenceMissed(limit, vs, x);
    }
  }

  lemma SqliteWalkIsSound(scan: Scan, n: nat, limit: int, key: Key, runs: seq<seq<Operation>>, vs: seq<EventVisit>,
                          x: Numbered)
    requires limit >= 1 && Sound(scan) && SqliteWalk(scan, n, limit, key, runs, vs)
    ensures forall i, j :: 0 <= i < j < |vs| ==> x !in Shown(limit, vs[i]) || x !in Shown(limit, vs[j])
    ensures vs != [] && vs[|vs| - 1].page.next == None
            && (forall i {:trigger vs[i]} :: 0 <= i < |vs| ==> x in vs[i].history) ==>
              ShownOnce(limit, vs, x)
  {
    hide IsEventWalk, Shown, Sort, Of, RunDb, FetchedHistoryPage, ShownOnce;
    SqliteWalks(scan, n, limit, key, runs, vs);
    forall i: nat, j: nat | i < j < |vs| && x in Shown(limit, vs[i]) ensures x !in Shown(limit, vs[j]) {
      NoOccurrenceTwice(limit, vs, i, j, x);
    }
    if vs != [] && vs[|vs| - 1].page.next == None && forall i {:trigger vs[i]} :: 0 <= i < |vs| ==> x in vs[i].history {
      NoOccurrenceMissed(limit, vs, x);
    }
  }
}
