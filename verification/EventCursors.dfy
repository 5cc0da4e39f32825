/** Cursors of occurrences that were handed out before later writes. */
module EventCursors {
  import opened Options
  import opened IssueLog
  import opened Sqlite
  import opened Listing
  import opened Memory
  import opened SqliteSimulation

  /** Two histories hold the same events, and two cursors tell the same ones of them older. */
  predicate Aligned(h: seq<Numbered>, g: seq<Numbered>, c: EventCursor, d: EventCursor) {
    && |h| == |g| && Events(h) == Events(g)
    && forall i {:trigger h[i]} {:trigger g[i]} :: 0 <= i < |h| ==> (Older(h[i], c) <==> Older(g[i], d))
  }

  // ---------------------------------------------------------------- later occurrences

  /** A later occurrence goes to the same place in both and is older than neither cursor at equal times. */
  lemma {:induction false} PlaceAligned(h: seq<Numbered>, g: seq<Numbered>, x: Numbered, y: Numbered,
                                        c: EventCursor, d: EventCursor)
    requires Aligned(h, g, c, d) && x.event == y.event && c.receivedAt == d.receivedAt
    requires AllBelow(h, x.sequence) && AllBelow(g, y.sequence) && c.sequence < x.sequence && d.sequence < y.sequence
    ensures Aligned(Place(x, h), Place(y, g), c, d)
  {
    if h != [] {
      assert Events(h)[0] == h[0].event && Events(g)[0] == g[0].event;
      assert Events(h[1..]) == Events(h)[1..] && Events(g[1..]) == Events(g)[1..];
      NewerThanLast(h[0], x);
      NewerThanLast(g[0], y);
      hide Newer, Older;
      if Newer(h[0], x) {
        PlaceAligned(h[1..], g[1..], x, y, c, d);
        AlignedCons(h[0], g[0], Place(x, h[1..]), Place(y, g[1..]), c, d);
      } else {
        SameAge(x, y, c, d);
        AlignedCons(x, y, h, g, c, d);
      }
    } else {
      SameAge(x, y, c, d);
      AlignedCons(x, y, [], [], c, d);
      assert [x] + [] == [x] && [y] + [] == [y];
    }
  }

  lemma SameAge(x: Numbered, y: Numbered, c: EventCursor, d: EventCursor)
    requires x.event == y.event && c.receivedAt == d.receivedAt && c.sequence < x.sequence && d.sequence < y.sequence
    ensures Older(x, c) <==> Older(y, d)
  {}

  lemma AlignedCons(x: Numbered, y: Numbered, h: seq<Numbered>, g: seq<Numbered>, c: EventCursor, d: EventCursor)
    requires Aligned(h, g, c, d) && x.event == y.event && (Older(x, c) <==> Older(y, d))
    ensures Aligned([x] + h, [y] + g, c, d)
  {
    hide Older;
    EventsCons(x, h);
    EventsCons(y, g);
  }

  predicate AllPast(xs: seq<Numbered>, cursor: EventCursor) {
    forall i :: 0 <= i < |xs| ==> cursor.sequence < xs[i].sequence
  }

  lemma {:induction false} PlaceAllAligned(h: seq<Numbered>, g: seq<Numbered>, xs: seq<Numbered>, ys: seq<Numbered>,
                                           c: EventCursor, d: EventCursor)
    requires Aligned(h, g, c, d) && Events(xs) == Events(ys) && Rising(xs) && Rising(ys)
    requires AllAbove(h, xs) && AllAbove(g, ys) && AllPast(xs, c) && AllPast(ys, d) && c.receivedAt == d.receivedAt
    ensures Aligned(PlaceAll(h, xs), PlaceAll(g, ys), c, d)
    decreases |xs|
  {
    assert |Events(xs)| == |xs| && |Events(ys)| == |ys|;
    if xs == [] {
    } else {
      var front, last := xs[..|xs| - 1], xs[|xs| - 1];
      var front', last' := ys[..|ys| - 1], ys[|ys| - 1];
      assert Events(front) == Events(xs)[..|front|] && Events(front') == Events(ys)[..|front|];
      assert Events(xs)[|front|] == last.event && Events(ys)[|front|] == last'.event;
      PlaceAllAligned(h, g, front, front', c, d);
      PlaceAllBelow(h, front, last.sequence);
      PlaceAllBelow(g, front', last'.sequence);
      PlaceAligned(PlaceAll(h, front), PlaceAll(g, front'), last, last', c, d);
    }
  }

  lemma TrimAligned(n: nat, h: seq<Numbered>, g: seq<Numbered>, c: EventCursor, d: EventCursor)
    requires Aligned(h, g, c, d)
    ensures Aligned(Trim(n, h), Trim(n, g), c, d)
  {
    TrimAlike(n, h, g);
  }

  // ---------------------------------------------------------------- the highest number retained

  /** The issue still holds a number that is not below one it has handed out. */
  predicate Reaches(g: seq<Numbered>, sequence: nat) {
    exists i :: 0 <= i < |g| && sequence <= g[i].sequence
  }

  /** Trimming drops the oldest occurrence, and if that carried the highest number, a higher one has come in. */
  lemma TrimReaches(n: nat, g: seq<Numbered>, y: Numbered, sequence: nat)
    requires n >= 1 && |g| <= n && AllBelow(g, y.sequence) && Reaches(g, sequence)
    ensures Reaches(Trim(n, Place(y, g)), sequence) && |Trim(n, Place(y, g))| <= n
  {
    hide Newer;
    var i :| 0 <= i < |g| && sequence <= g[i].sequence;
    var p := PlaceSplits(y, g);
    var placed := Place(y, g);
    if p < n {
      assert Trim(n, placed)[p] == y;
    } else {
      assert Trim(n, placed)[i] == g[i];
    }
  }

  lemma {:induction false} PlaceSplits(y: Numbered, g: seq<Numbered>) returns (p: nat)
    ensures p <= |g| && Place(y, g) == g[..p] + [y] + g[p..]
  {
    hide Newer;
    if g == [] || !Newer(g[0], y) {
      p := 0;
    } else {
      var q := PlaceSplits(y, g[1..]);
      p := q + 1;
      assert g[..p] == [g[0]] + g[1..][..q] && g[1..][q..] == g[p..];
    }
  }

  lemma {:induction false} TrimAllReaches(n: nat, g: seq<Numbered>, ys: seq<Numbered>, sequence: nat)
    requires n >= 1 && |g| <= n && Rising(ys) && AllAbove(g, ys) && Reaches(g, sequence)
    ensures Reaches(Trim(n, PlaceAll(g, ys)), sequence) && |Trim(n, PlaceAll(g, ys))| <= n
    decreases |ys|
  {
    hide Reaches;
    if ys == [] {
    } else {
      var front, last := ys[..|ys| - 1], ys[|ys| - 1];
      TrimAllReaches(n, g, front, sequence);
      PlaceAllBelow(g, front, last.sequence);
      TrimReaches(n, Trim(n, PlaceAll(g, front)), last, sequence);
      TrimPlace(n, last, PlaceAll(g, front));
    }
  }

  // ---------------------------------------------------------------- runs

  /** The two stores, and a cursor that each handed out for one issue at the same time. */
  ghost predicate CursorsTrack(db: Db, n: nat, log: seq<Entry>, key: Key, c: EventCursor, d: EventCursor) {
    && c.receivedAt == d.receivedAt && c.sequence <= Count(log)
    && Aligned(History(n, log, key), Sort(Of(db.events, key)), c, d)
    && Reaches(Sort(Of(db.events, key)), d.sequence)
  }

  /** What a batch adds to an issue keeps the cursors together. */
  lemma GrownAligned(n: nat, base: seq<EventRow>, added: seq<EventRow>, start: seq<Entry>, log: seq<Entry>, key: Key,
                     c: EventCursor, d: EventCursor)
    requires n >= 1 && start <= log && InRowOrder(base + added) && c.receivedAt == d.receivedAt
    requires Events(Of(added, key)) == Events(Since(start, log, key)) && c.sequence <= Count(start)
    requires Aligned(History(n, start, key), Sort(Of(base, key)), c, d) && Reaches(Sort(Of(base, key)), d.sequence)
    ensures Aligned(History(n, log, key), Trim(n, Sort(Of(base + added, key))), c, d)
    ensures Reaches(Trim(n, Sort(Of(base + added, key))), d.sequence)
  {
    hide Place, Events, Newer, Since, Arrivals, AllAbove, NewestFirst, InRowOrder, Trim, Aligned, Reaches, Sort, Of,
        Older;
    var rows, recent := Of(added, key), Since(start, log, key);
    var h, g := History(n, start, key), Sort(Of(base, key));
    OfConcat(base, added, key);
    PlaceAllConcat([], Of(base, key), rows);
    SortIsPlaceAll(Of(base, key), rows);
    RowsAbove(base, added, key);
    SinceAbove(n, start, log, key);
    SincePast(start, log, key, c);
    RowsPast(g, rows, d);
    PlaceAllAligned(h, g, recent, rows, c, d);
    TrimAligned(n, PlaceAll(h, recent), PlaceAll(g, rows), c, d);
    SortedStays(h);
    SortIsPlaceAll(h, recent);
    HistoryGrows(n, start, log, key);
    AlignedLength(h, g, c, d);
    HistoryIsNewest(n, start, key);
    TrimAllReaches(n, g, rows, d.sequence);
  }

  lemma SortIsPlaceAll(a: seq<Numbered>, b: seq<Numbered>)
    ensures Sort(a + b) == PlaceAll(Sort(a), b)
  {
    PlaceAllConcat([], a, b);
  }

  lemma AlignedLength(h: seq<Numbered>, g: seq<Numbered>, c: EventCursor, d: EventCursor)
    requires Aligned(h, g, c, d)
    ensures |h| == |g|
  {}

  lemma SincePast(start: seq<Entry>, log: seq<Entry>, key: Key, c: EventCursor)
    requires start <= log && c.sequence <= Count(start)
    ensures AllPast(Since(start, log, key), c)
  {
    SinceNumbers(start, log, key);
  }

  /** Numbers given after `start` are above its count. */
  lemma {:induction false} SinceNumbers(start: seq<Entry>, log: seq<Entry>, key: Key)
    requires start <= log
    ensures forall i :: 0 <= i < |Since(start, log, key)| ==> Count(start) < Since(start, log, key)[i].sequence
    decreases |log|
  {
    hide Arrivals, Count;
    if |log| == |start| {
      assert log == start;
    } else {
      var front, last := log[..|log| - 1], log[|log| - 1];
      assert log == front + [last];
      SinceNumbers(start, front, key);
      assert front == start + front[|start|..];
      ArrivalsConcat(start, front[|start|..], key);
      OneMoreEntry(front, last, key);
      if last.Recorded? && About(last, key) {
        assert Since(start, log, key) == Since(start, front, key) + [Numbered(Count(front) + 1, last.event)];
      } else {
        assert Since(start, log, key) == Since(start, front, key);
      }
    }
  }

  lemma RowsPast(g: seq<Numbered>, rows: seq<Numbered>, d: EventCursor)
    requires Reaches(g, d.sequence) && AllAbove(g, rows)
    ensures AllPast(rows, d)
  {}

  lemma RecordingKeepsCursors(db: Db, scan: Scan, n: nat, log: seq<Entry>, project: nat, captured: seq<Event>, key: Key,
                              c: EventCursor, d: EventCursor)
    requires n >= 1 && Sound(scan) && Tracks(db, n, log) && CursorsTrack(db, n, log, key, c, d)
    ensures CursorsTrack(RecordBatch(db, scan, n, project, captured), n, log + Batch(project, captured), key, c, d)
  {
    hide IssueOf, Sort, Of, History, Since, Proper, AppendAll, MigrateAll, Stored, Batch, Aligned, Reaches, Count;
    NothingToMigrate(db, scan, project, captured);
    AppendAllExtends(db, n, log, project, captured);
    var log', full := log + Batch(project, captured), AppendAll(db, project, captured);
    var touched := Touched(project, captured);
    var added := full.events[|db.events|..];
    assert full.events == db.events + added;
    assert Events(Of(added, key)) == Events(Since(log, log', key));
    ArrivalsConcat(log, Batch(project, captured), key);
    TrimKeepsNewest(full.events, touched, n, key);
    if key in touched {
      GrownAligned(n, db.events, added, log, log', key, c, d);
    } else {
      UntouchedAlike(n, log, project, captured, key);
      NothingAdded(db.events, full.events, log, project, captured, key);
    }
  }

  lemma StatusKeepsCursors(db: Db, n: nat, log: seq<Entry>, changed: Key, status: Status, key: Key,
                           c: EventCursor, d: EventCursor)
    requires changed in db.issues && CursorsTrack(db, n, log, key, c, d)
    ensures CursorsTrack(SetStatus(db, changed, status), n, log + [StatusSet(changed, status)], key, c, d)
  {
    hide Sort, Of, History, Aligned, Reaches;
    StatusKeepsHistory(n, log, StatusSet(changed, status), key);
    OneMoreEntry(log, StatusSet(changed, status), key);
  }

  lemma {:induction false} RunKeepsCursors(scan: Scan, n: nat, ops: seq<Operation>, more: seq<Operation>, key: Key,
                                           c: EventCursor, d: EventCursor)
    requires n >= 1 && Sound(scan) && CursorsTrack(RunDb(scan, n, ops), n, LogOf(ops), key, c, d)
    ensures CursorsTrack(RunDb(scan, n, ops + more), n, LogOf(ops + more), key, c, d)
    decreases |more|
  {
    hide CursorsTrack, Tracks, RecordBatch, SetStatus, Batch, StatusRefusal;
    if more == [] {
      assert ops + more == ops;
    } else {
      var front, last := more[..|more| - 1], more[|more| - 1];
      assert (ops + more)[..|ops + more| - 1] == ops + front;
      RunKeepsCursors(scan, n, ops, front, key, c, d);
      RunTracks(scan, n, ops + front);
      var db, log := RunDb(scan, n, ops + front), LogOf(ops + front);
      match last
      case RecordCall(project, captured) =>
        if Refusal(project, captured) == None {
          RecordingKeepsCursors(db, scan, n, log, project.value, captured, key, c, d);
        }
      case StatusCall(project, fingerprint, status) =>
        SameRefusal(db, n, log, project, fingerprint, status);
        if SqlStatusRefusal(db, project, fingerprint, status) == None {
          StatusKeepsCursors(db, n, log, Key(project.value, fingerprint), status.value, key, c, d);
        }
    }
  }

  // ---------------------------------------------------------------- pages

  /** What the two stores hold for an issue after the same calls. */
  lemma SameHistories(scan: Scan, n: nat, ops: seq<Operation>, key: Key)
    requires Sound(scan)
    ensures var h, g := History(n, LogOf(ops), key), Sort(Of(RunDb(scan, n, ops).events, key));
            NewestFirst(h) && NewestFirst(g) && Events(h) == Events(g) && |h| == |g|
  {
    hide Sort, Of, History, LogOf, RunDb, Events, IssueOf;
    var db, log := RunDb(scan, n, ops), LogOf(ops);
    RunTracks(scan, n, ops);
    OfRises(db.events, key);
    SortIsSorted(Of(db.events, key));
    HistoryIsNewest(n, log, key);
    assert Events(Sort(Of(db.events, key))) == Events(History(n, log, key));
    EventsLength(History(n, log, key));
    EventsLength(Sort(Of(db.events, key)));
  }

  lemma EventsLength(h: seq<Numbered>)
    ensures |Events(h)| == |h|
  {}

  /** Cursors behind the same occurrence start together. */
  lemma CursorsStart(scan: Scan, n: nat, ops: seq<Operation>, key: Key, k: nat)
    requires Sound(scan) && 1 <= k <= |History(n, LogOf(ops), key)|
    ensures var h, g := History(n, LogOf(ops), key), Sort(Of(RunDb(scan, n, ops).events, key));
            && |g| == |h|
            && CursorsTrack(RunDb(scan, n, ops), n, LogOf(ops), key, EventCursorOf(h[k - 1]), EventCursorOf(g[k - 1]))
  {
    hide Sort, Of, History, LogOf, RunDb;
    var h, g := History(n, LogOf(ops), key), Sort(Of(RunDb(scan, n, ops).events, key));
    SameHistories(scan, n, ops, key);
    BehindCuts(h, k);
    BehindCuts(g, k);
    assert Events(h)[k - 1] == h[k - 1].event && Events(g)[k - 1] == g[k - 1].event;
    HistoryIsNewest(n, LogOf(ops), key);
    ArrivalsRise(LogOf(ops), key);
    assert h[k - 1] in Arrivals(LogOf(ops), key);
    assert g[k - 1].sequence <= g[k - 1].sequence;
  }

  lemma AlignedCut(h: seq<Numbered>, g: seq<Numbered>, c: EventCursor, d: EventCursor)
    requires Aligned(h, g, c, d) && NewestFirst(h)
    ensures CutsAt(h, c, SearchOlder(h, c)) && CutsAt(g, d, SearchOlder(h, c))
  {
    AnyCursorCuts(h, c);
  }

  /**
   Both stores answer a page of occurrences alike: from the start, or behind any occurrence that the issue held
   after `ops`, even if `more` calls came in between, trimmed that occurrence, and made SQLite give its numbers
   out again. The pages hold the same events and total, and their next cursors stand at the same place.
   */
  lemma {:induction false} EventPagesAgree(memory: Memory, scan: Scan, ops: seq<Operation>, more: seq<Operation>,
                                           key: Key, k: nat, limit: int)
    requires Sound(scan) && memory.Valid() && memory.log == LogOf(ops + more) && key in memory.events && limit >= 1
    requires k <= |History(memory.maxEventsPerIssue, LogOf(ops), key)|
    ensures var n := memory.maxEventsPerIssue;
            var past, pastRows := History(n, LogOf(ops), key), Sort(Of(RunDb(scan, n, ops).events, key));
            var rows := Sort(Of(RunDb(scan, n, ops + more).events, key));
            && |pastRows| == |past|
            && SamePage(memory.events[key], rows, HistoryPage(memory.events[key], limit, CursorBehind(past, k)),
                        FetchedHistoryPage(rows, limit, CursorBehind(pastRows, k)))
  {
    hide IssueOf, Sort, Of, History, Arrivals, Proper, LogOf, RunDb, HistoryPage, FetchedHistoryPage, SamePage, Aligned;
    var n := memory.maxEventsPerIssue;
    SameHistories(scan, n, ops, key);
    SameHistories(scan, n, ops + more, key);
    var h, g := memory.events[key], Sort(Of(RunDb(scan, n, ops + more).events, key));
    if k == 0 {
      HistoryPagesAgree(h, g, None, None, 0, limit);
    } else {
      CursorsStart(scan, n, ops, key, k);
      var c := EventCursorOf(History(n, LogOf(ops), key)[k - 1]);
      var d := EventCursorOf(Sort(Of(RunDb(scan, n, ops).events, key))[k - 1]);
      RunKeepsCursors(scan, n, ops, more, key, c, d);
      AlignedCut(h, g, c, d);
      HistoryPagesAgree(h, g, Some(c), Some(d), SearchOlder(h, c), limit);
    }
  }
}
