/** From a store without version 1 rows, SQLite and Memory hold and show the same. */
module SqliteSimulation {
  import opened Options
  import opened IssueLog
  import opened Sqlite
  import opened Listing
  import opened Memory

  /** The aggregate of an issue as a query returns it. */
  function Stored(db: Db, key: Key): Option<Issue> {
    if key in db.issues then Some(db.issues[key].issue) else None
  }

  /**
   The database says what the log means. Only the order of its numbers counts: a number freed at the end of the
   table is given out again, so they need not be the numbers that Memory gives.
   */
  ghost predicate Tracks(db: Db, n: nat, log: seq<Entry>) {
    && Proper(log) && InRowOrder(db.events)
    && (forall key {:trigger key in db.issues} :: key in db.issues ==> db.issues[key].version == 2)
    && (forall key {:trigger Stored(db, key)} {:trigger IssueOf(log, key)} :: Stored(db, key) == IssueOf(log, key))
    && (forall key {:trigger Of(db.events, key)} {:trigger History(n, log, key)} ::
          Events(Sort(Of(db.events, key))) == Events(History(n, log, key)))
  }

  // ---------------------------------------------------------------- equal events, different numbers

  /** The newest number goes to the same place in two histories that hold the same events. */
  lemma {:induction false} PlaceAlike(h: seq<Numbered>, g: seq<Numbered>, x: Numbered, y: Numbered)
    requires Events(h) == Events(g) && x.event == y.event && AllBelow(h, x.sequence) && AllBelow(g, y.sequence)
    ensures Events(Place(x, h)) == Events(Place(y, g))
  {
    assert |Events(h)| == |h| && |Events(g)| == |g|;
    if h == [] {
    } else {
      assert Events(h)[0] == h[0].event && Events(g)[0] == g[0].event;
      assert Events(h[1..]) == Events(h)[1..] && Events(g[1..]) == Events(g)[1..];
      NewerThanLast(h[0], x);
      NewerThanLast(g[0], y);
      if Newer(h[0], x) {
        PlaceAlike(h[1..], g[1..], x, y);
        EventsCons(h[0], Place(x, h[1..]));
        EventsCons(g[0], Place(y, g[1..]));
      } else {
        EventsCons(x, h);
        EventsCons(y, g);
      }
    }
  }

  lemma EventsCons(x: Numbered, h: seq<Numbered>)
    ensures Events([x] + h) == [x.event] + Events(h)
  {}

  lemma BelowMembers(h: seq<Numbered>, n: int)
    ensures AllBelow(h, n) <==> forall x :: x in h ==> x.sequence < n
  {}

  lemma {:induction false} PlaceAllBelow(h: seq<Numbered>, xs: seq<Numbered>, n: int)
    requires AllBelow(h, n) && AllBelow(xs, n)
    ensures AllBelow(PlaceAll(h, xs), n)
    decreases |xs|
  {
    if xs == [] {
    } else {
      var front, last := xs[..|xs| - 1], xs[|xs| - 1];
      PlaceAllBelow(h, front, n);
      PlaceKeeps(last, PlaceAll(h, front));
      BelowMembers(PlaceAll(h, front), n);
      forall x | x in PlaceAll(h, xs) ensures x.sequence < n {
        assert x in multiset(PlaceAll(h, xs));
      }
      BelowMembers(PlaceAll(h, xs), n);
    }
  }

  predicate AllAbove(h: seq<Numbered>, xs: seq<Numbered>) {
    forall i :: 0 <= i < |xs| ==> AllBelow(h, xs[i].sequence)
  }

  lemma {:induction false} PlaceAllAlike(h: seq<Numbered>, g: seq<Numbered>, xs: seq<Numbered>, ys: seq<Numbered>)
    requires Events(h) == Events(g) && Events(xs) == Events(ys) && Rising(xs) && Rising(ys)
    requires AllAbove(h, xs) && AllAbove(g, ys)
    ensures Events(PlaceAll(h, xs)) == Events(PlaceAll(g, ys))
    decreases |xs|
  {
    assert |Events(xs)| == |xs| && |Events(ys)| == |ys|;
    if xs == [] {
    } else {
      var front, last := xs[..|xs| - 1], xs[|xs| - 1];
      var front', last' := ys[..|ys| - 1], ys[|ys| - 1];
      assert Events(front) == Events(xs)[..|front|] && Events(front') == Events(ys)[..|front|];
      assert Events(xs)[|front|] == last.event && Events(ys)[|front|] == last'.event;
      PlaceAllAlike(h, g, front, front');
      PlaceAllBelow(h, front, last.sequence);
      PlaceAllBelow(g, front', last'.sequence);
      PlaceAlike(PlaceAll(h, front), PlaceAll(g, front'), last, last');
    }
  }

  lemma TrimAlike(n: nat, h: seq<Numbered>, g: seq<Numbered>)
    requires Events(h) == Events(g)
    ensures Events(Trim(n, h)) == Events(Trim(n, g))
  {
    assert |Events(h)| == |h| && |Events(g)| == |g|;
    assert |h| > n ==> Events(h[..n]) == Events(h)[..n] && Events(g[..n]) == Events(g)[..n];
  }

  // ---------------------------------------------------------------- recording

  lemma SomethingListed(keys: seq<Key>, s: set<Key>)
    requires Lists(keys, s) && keys != []
    ensures s != {}
  {
    assert keys[0] in keys;
  }

  lemma {:induction false} NothingToMigrate(db: Db, scan: Scan, project: nat, captured: seq<Event>)
    requires Sound(scan) && forall key {:trigger key in db.issues} :: key in db.issues ==> db.issues[key].version == 2
    ensures MigrateAll(db, scan, project, captured) == db
    decreases |captured|
  {
    if captured == [] {
    } else {
      var e := captured[|captured| - 1];
      NothingToMigrate(db, scan, project, captured[..|captured| - 1]);
      assert ExactCandidates(db, project, e) == {} && GroupedCandidates(db, project, e) == {};
      assert Lists(scan({}), {});
      if scan({}) != [] {
        SomethingListed(scan({}), {});
      }
    }
  }

  lemma UpsertAbsorbs(db: Db, project: nat, e: Event)
    requires Stored(db, Key(project, e.fingerprint)).Some? ==>
               db.issues[Key(project, e.fingerprint)].issue.key == Key(project, e.fingerprint)
    ensures var key := Key(project, e.fingerprint);
            UpsertRow(Find(db, key), project, e) == Row(Absorb(Stored(db, key), project, e), 2)
  {}

  /** The aggregates and the inserted rows match the log; nothing has been trimmed since `start`. */
  ghost predicate Extends(db: Db, n: nat, base: seq<EventRow>, start: seq<Entry>, log: seq<Entry>) {
    && start <= log && Proper(log) && InRowOrder(db.events) && base <= db.events
    && (forall key {:trigger key in db.issues} :: key in db.issues ==> db.issues[key].version == 2)
    && (forall key {:trigger Stored(db, key)} {:trigger IssueOf(log, key)} :: Stored(db, key) == IssueOf(log, key))
    && (forall key {:trigger Since(start, log, key)} ::
          Events(Of(db.events[|base|..], key)) == Events(Since(start, log, key)))
  }

  lemma OfSnoc(events: seq<EventRow>, row: EventRow, key: Key)
    ensures Of(events + [row], key)
         == if row.key == key then Of(events, key) + [Numbered(row.sequence, row.event)] else Of(events, key)
  {
    assert (events + [row])[..|events + [row]| - 1] == events;
  }

  lemma AppendExtends(db: Db, n: nat, base: seq<EventRow>, start: seq<Entry>, log: seq<Entry>, project: nat, e: Event)
    requires Extends(db, n, base, start, log)
    ensures Extends(Append(db, project, e), n, base, start, log + [Recorded(project, e)])
  {
    hide IssueOf, Since, Proper, Absorb, UpsertRow, Events;
    var log', db', key := log + [Recorded(project, e)], Append(db, project, e), Key(project, e.fingerprint);
    RecordedIssue(log, project, e, key);
    StoredKey(log, key);
    UpsertAbsorbs(db, project, e);
    forall k {:trigger IssueOf(log', k)} ensures Stored(db', k) == IssueOf(log', k) {
      RecordedIssue(log, project, e, k);
      assert Stored(db, k) == IssueOf(log, k);
    }
    forall k {:trigger Since(start, log', k)}
      ensures Events(Of(db'.events[|base|..], k)) == Events(Since(start, log', k))
    {
      AppendedAlike(db, base, start, log, project, e, k);
    }
  }

  lemma StoredKey(log: seq<Entry>, key: Key)
    ensures IssueOf(log, key).Some? ==> IssueOf(log, key).value.key == key
  {}

  lemma AppendedAlike(db: Db, base: seq<EventRow>, start: seq<Entry>, log: seq<Entry>, project: nat, e: Event, key: Key)
    requires start <= log && base <= db.events
    requires Events(Of(db.events[|base|..], key)) == Events(Since(start, log, key))
    ensures Events(Of(Append(db, project, e).events[|base|..], key))
        == Events(Since(start, log + [Recorded(project, e)], key))
  {
    hide Since, Of;
    SinceGrows(start, log, project, e, key);
    var row := EventRow(NextSequence(db.events), Key(project, e.fingerprint), e);
    assert Append(db, project, e).events[|base|..] == db.events[|base|..] + [row];
    OfSnoc(db.events[|base|..], row, key);
    EventsSnoc(Of(db.events[|base|..], key), Numbered(row.sequence, e));
    EventsSnoc(Since(start, log, key), Numbered(Count(log) + 1, e));
  }

  lemma EventsSnoc(h: seq<Numbered>, x: Numbered)
    ensures Events(h + [x]) == Events(h) + [x.event]
  {}

  lemma {:induction false} AppendAllExtends(db: Db, n: nat, start: seq<Entry>, project: nat, captured: seq<Event>)
    requires Tracks(db, n, start)
    ensures Extends(AppendAll(db, project, captured), n, db.events, start, start + Batch(project, captured))
    decreases |captured|
  {
    hide IssueOf, Since, Proper, Append, Extends, Tracks;
    if captured == [] {
      NothingExtends(db, n, start);
      assert start + Batch(project, captured) == start;
    } else {
      var k := |captured| - 1;
      AppendAllExtends(db, n, start, project, captured[..k]);
      var log := start + Batch(project, captured[..k]);
      AppendExtends(AppendAll(db, project, captured[..k]), n, db.events, start, log, project, captured[k]);
      BatchSnoc(project, captured, k);
      assert captured[..k + 1] == captured;
      assert start + Batch(project, captured) == log + [Recorded(project, captured[k])];
    }
  }

  lemma NothingExtends(db: Db, n: nat, start: seq<Entry>)
    requires Tracks(db, n, start)
    ensures Extends(db, n, db.events, start, start)
  {}

  lemma {:induction false} OfConcat(a: seq<EventRow>, b: seq<EventRow>, key: Key)
    ensures Of(a + b, key) == Of(a, key) + Of(b, key)
    decreases |b|
  {
    if b == [] {
      assert a + b == a;
    } else {
      assert (a + b)[..|a + b| - 1] == a + b[..|b| - 1];
      OfConcat(a, b[..|b| - 1], key);
    }
  }

  lemma RowsAbove(a: seq<EventRow>, b: seq<EventRow>, key: Key)
    requires InRowOrder(a + b)
    ensures Rising(Of(b, key)) && AllAbove(Sort(Of(a, key)), Of(b, key))
  {
    assert forall i :: 0 <= i < |a| ==> a[i] == (a + b)[i];
    assert forall i :: 0 <= i < |b| ==> b[i] == (a + b)[|a| + i];
    OfRises(b, key);
    forall i, x | 0 <= i < |Of(b, key)| && x in Sort(Of(a, key)) ensures x.sequence < Of(b, key)[i].sequence {
      var y := Of(b, key)[i];
      SortMembers(Of(a, key));
      OfMembers(a, key, x);
      OfMembers(b, key, y);
      var j :| 0 <= j < |a| && a[j] == EventRow(x.sequence, key, x.event);
      var k :| 0 <= k < |b| && b[k] == EventRow(y.sequence, key, y.event);
      assert (a + b)[j].sequence < (a + b)[|a| + k].sequence;
    }
    forall i | 0 <= i < |Of(b, key)| ensures AllBelow(Sort(Of(a, key)), Of(b, key)[i].sequence) {
      BelowMembers(Sort(Of(a, key)), Of(b, key)[i].sequence);
    }
  }

  lemma SinceAbove(n: nat, start: seq<Entry>, log: seq<Entry>, key: Key)
    requires start <= log
    ensures Rising(Since(start, log, key)) && AllAbove(History(n, start, key), Since(start, log, key))
    ensures NewestFirst(History(n, start, key))
  {
    hide Sort;
    assert log == start + log[|start|..];
    ArrivalsConcat(start, log[|start|..], key);
    ArrivalsRise(log, key);
    ArrivalsRise(start, key);
    HistoryIsNewest(n, start, key);
    var all, some, recent := Arrivals(log, key), Arrivals(start, key), Since(start, log, key);
    assert all == some + recent;
    forall i | 0 <= i < |recent| ensures AllBelow(History(n, start, key), recent[i].sequence) {
      forall x | x in History(n, start, key) ensures x.sequence < recent[i].sequence {
        var k :| 0 <= k < |some| && some[k] == x;
        assert all[k] == x && all[|some| + i] == recent[i];
      }
      BelowMembers(History(n, start, key), recent[i].sequence);
    }
  }

  /** Sorting the rows with the new ones among them gives the events of the grown history. */
  lemma GrownAlike(n: nat, base: seq<EventRow>, added: seq<EventRow>, start: seq<Entry>, log: seq<Entry>, key: Key)
    requires start <= log && InRowOrder(base + added)
    requires Events(Sort(Of(base, key))) == Events(History(n, start, key))
    requires Events(Of(added, key)) == Events(Since(start, log, key))
    ensures Events(Trim(n, Sort(Of(base + added, key)))) == Events(History(n, log, key))
  {
    hide Place, Events, Newer, Since, Arrivals, AllAbove, NewestFirst, InRowOrder, Trim;
    var rows, recent := Of(added, key), Since(start, log, key);
    OfConcat(base, added, key);
    PlaceAllConcat([], Of(base, key), rows);
    RowsAbove(base, added, key);
    SinceAbove(n, start, log, key);
    PlaceAllAlike(Sort(Of(base, key)), History(n, start, key), rows, recent);
    SortedStays(History(n, start, key));
    PlaceAllConcat([], History(n, start, key), recent);
    TrimAlike(n, Sort(Of(base + added, key)), PlaceAll(History(n, start, key), recent));
    HistoryGrows(n, start, log, key);
  }

  /** What a batch does to the database is what it does to the log. */
  lemma RecordingTracks(db: Db, scan: Scan, n: nat, log: seq<Entry>, project: nat, captured: seq<Event>)
    requires Sound(scan) && Tracks(db, n, log)
    ensures Tracks(RecordBatch(db, scan, n, project, captured), n, log + Batch(project, captured))
  {
    hide IssueOf, Sort, Of, History, Since, Proper, AppendAll, MigrateAll, Stored, Batch;
    NothingToMigrate(db, scan, project, captured);
    AppendAllExtends(db, n, log, project, captured);
    var log', full := log + Batch(project, captured), AppendAll(db, project, captured);
    var touched := Touched(project, captured);
    var after := TrimTouched(full.events, touched, n);
    FilterKeepsOrder(full.events, (row: EventRow) => Stays(full.events, touched, n, row));
    assert full.events == db.events + full.events[|db.events|..];
    forall key {:trigger Of(after, key)} ensures Events(Sort(Of(after, key))) == Events(History(n, log', key)) {
      assert Events(Sort(Of(db.events, key))) == Events(History(n, log, key));
      assert Events(Of(full.events[|db.events|..], key)) == Events(Since(log, log', key));
      TrimKeepsNewest(full.events, touched, n, key);
      GrownAlike(n, db.events, full.events[|db.events|..], log, log', key);
      if key !in touched {
        UntouchedAlike(n, log, project, captured, key);
        NothingAdded(db.events, full.events, log, project, captured, key);
      }
    }
    forall key {:trigger IssueOf(log', key)} ensures Stored(full.(events := after), key) == IssueOf(log', key) {
      StoredIgnoresEvents(full, after, key);
    }
  }

  lemma StoredIgnoresEvents(db: Db, events: seq<EventRow>, key: Key)
    ensures Stored(db.(events := events), key) == Stored(db, key)
  {}

  lemma TouchedFront(project: nat, captured: seq<Event>)
    requires captured != []
    ensures Touched(project, captured)
         == Touched(project, captured[..|captured| - 1]) + {Key(project, captured[|captured| - 1].fingerprint)}
  {
    var front := captured[..|captured| - 1];
    forall i | 0 <= i < |front| ensures Key(project, front[i].fingerprint) in Touched(project, captured) {
      assert captured[i] == front[i];
    }
    forall key | key in Touched(project, captured)
      ensures key in Touched(project, front) || key == Key(project, captured[|front|].fingerprint)
    {
      var i :| 0 <= i < |captured| && key == Key(project, captured[i].fingerprint);
      assert i < |front| ==> front[i] == captured[i];
    }
  }

  lemma {:induction false} NoArrival(log: seq<Entry>, project: nat, captured: seq<Event>, key: Key)
    requires key !in Touched(project, captured)
    ensures Arrivals(log + Batch(project, captured), key) == Arrivals(log, key)
    decreases |captured|
  {
    hide Arrivals, Count, Touched;
    if captured == [] {
      assert log + Batch(project, captured) == log;
    } else {
      var k := |captured| - 1;
      assert captured[..k + 1] == captured;
      BatchSnoc(project, captured, k);
      TouchedFront(project, captured);
      NoArrival(log, project, captured[..k], key);
      OneMoreEntry(log + Batch(project, captured[..k]), Recorded(project, captured[k]), key);
      assert log + Batch(project, captured) == log + Batch(project, captured[..k]) + [Recorded(project, captured[k])];
    }
  }

  lemma UntouchedAlike(n: nat, log: seq<Entry>, project: nat, captured: seq<Event>, key: Key)
    requires key !in Touched(project, captured)
    ensures History(n, log + Batch(project, captured), key) == History(n, log, key)
    ensures Since(log, log + Batch(project, captured), key) == []
  {
    NoArrival(log, project, captured, key);
  }

  lemma NothingAdded(base: seq<EventRow>, full: seq<EventRow>, log: seq<Entry>, project: nat, captured: seq<Event>,
                     key: Key)
    requires base <= full && key !in Touched(project, captured)
    requires Events(Of(full[|base|..], key)) == Events(Since(log, log + Batch(project, captured), key))
    ensures Of(full, key) == Of(base, key)
  {
    UntouchedAlike(0, log, project, captured, key);
    assert |Events(Of(full[|base|..], key))| == |Of(full[|base|..], key)|;
    OfConcat(base, full[|base|..], key);
    assert full == base + full[|base|..];
  }

  // ---------------------------------------------------------------- triage

  lemma StatusTracks(db: Db, n: nat, log: seq<Entry>, key: Key, status: Status)
    requires Tracks(db, n, log) && key in db.issues
    ensures Tracks(SetStatus(db, key, status), n, log + [StatusSet(key, status)])
  {
    hide IssueOf, Sort, Of, History, Proper, Arrivals;
    var log', db' := log + [StatusSet(key, status)], SetStatus(db, key, status);
    assert Stored(db, key) == IssueOf(log, key);
    StoredIssueArrived(log, key);
    StatusSetIssue(log, key, status, key);
    forall k {:trigger IssueOf(log', k)} ensures Stored(db', k) == IssueOf(log', k) {
      StatusSetIssue(log, key, status, k);
      assert Stored(db, k) == IssueOf(log, k);
    }
    forall k {:trigger History(n, log', k)} ensures Events(Sort(Of(db'.events, k))) == Events(History(n, log', k)) {
      StatusKeepsHistory(n, log, StatusSet(key, status), k);
      assert Events(Sort(Of(db.events, k))) == Events(History(n, log, k));
    }
  }

  // ---------------------------------------------------------------- every run

  datatype Operation = RecordCall(project: Option<nat>, captured: seq<Event>)
                     | StatusCall(project: Option<nat>, fingerprint: nat, status: Option<Status>)

  /** The log that a run leaves; refused calls leave nothing. */
  function LogOf(ops: seq<Operation>): seq<Entry> {
    if ops == [] then []
    else
      var before := LogOf(ops[..|ops| - 1]);
      match ops[|ops| - 1]
      case RecordCall(project, captured) =>
        if Refusal(project, captured).Some? then before else before + Batch(project.value, captured)
      case StatusCall(project, fingerprint, status) =>
        if StatusRefusal(before, project, fingerprint, status).Some? then before
        else before + [StatusSet(Key(project.value, fingerprint), status.value)]
  }

  function RunDb(scan: Scan, n: nat, ops: seq<Operation>): Db {
    if ops == [] then Db(map[], [])
    else
      var before := RunDb(scan, n, ops[..|ops| - 1]);
      match ops[|ops| - 1]
      case RecordCall(project, captured) =>
        if Refusal(project, captured).Some? then before else RecordBatch(before, scan, n, project.value, captured)
      case StatusCall(project, fingerprint, status) =>
        if SqlStatusRefusal(before, project, fingerprint, status).Some? then before
        else SetStatus(before, Key(project.value, fingerprint), status.value)
  }

  lemma EmptyTracks(n: nat)
    ensures Tracks(Db(map[], []), n, [])
  {}

  lemma {:induction false} RunTracks(scan: Scan, n: nat, ops: seq<Operation>)
    requires Sound(scan)
    ensures Tracks(RunDb(scan, n, ops), n, LogOf(ops))
    decreases |ops|
  {
    hide Tracks;
    if ops == [] {
      EmptyTracks(n);
    } else {
      var front := ops[..|ops| - 1];
      RunTracks(scan, n, front);
      var db, log := RunDb(scan, n, front), LogOf(front);
      match ops[|ops| - 1]
      case RecordCall(project, captured) =>
        if Refusal(project, captured) == None {
          RecordingTracks(db, scan, n, log, project.value, captured);
        }
      case StatusCall(project, fingerprint, status) =>
        SameRefusal(db, n, log, project, fingerprint, status);
        if SqlStatusRefusal(db, project, fingerprint, status) == None {
          StatusTracks(db, n, log, Key(project.value, fingerprint), status.value);
        }
    }
  }

  lemma SameRefusal(db: Db, n: nat, log: seq<Entry>, project: Option<nat>, fingerprint: nat, status: Option<Status>)
    requires Tracks(db, n, log)
    ensures SqlStatusRefusal(db, project, fingerprint, status) == StatusRefusal(log, project, fingerprint, status)
  {
    hide IssueOf;
    if project.Some? {
      assert Stored(db, Key(project.value, fingerprint)) == IssueOf(log, Key(project.value, fingerprint));
    }
  }

  /** After any run of calls the two stores hold equal aggregates and equal histories. */
  lemma SqliteSimulatesMemory(memory: Memory, scan: Scan, ops: seq<Operation>)
    requires Sound(scan) && memory.Valid() && memory.log == LogOf(ops)
    ensures var db := RunDb(scan, memory.maxEventsPerIssue, ops);
            && Aggregates(db) == memory.issues
            && (forall key {:trigger memory.events[key]} :: key in memory.events ==>
                  Events(Sort(Of(db.events, key))) == Events(memory.events[key]))
            && (forall key {:trigger Of(db.events, key)} :: key !in memory.events ==> Of(db.events, key) == [])
  {
    hide IssueOf, Sort, Of, History, Arrivals, Proper, LogOf, RunDb, Events;
    var n, log := memory.maxEventsPerIssue, memory.log;
    var db := RunDb(scan, n, ops);
    RunTracks(scan, n, ops);
    forall key ensures key in Aggregates(db) <==> key in memory.issues {
      assert Stored(db, key) == IssueOf(log, key);
    }
    forall key | key in memory.issues ensures Aggregates(db)[key] == memory.issues[key] {
      assert Stored(db, key) == IssueOf(log, key);
    }
    forall key {:trigger Of(db.events, key)} | key !in memory.events ensures Of(db.events, key) == [] {
      assert Events(Sort(Of(db.events, key))) == Events(History(n, log, key));
      NothingStored(n, log, key, Of(db.events, key));
    }
  }

  lemma NothingStored(n: nat, log: seq<Entry>, key: Key, rows: seq<Numbered>)
    requires Arrivals(log, key) == [] && Events(Sort(rows)) == Events(History(n, log, key))
    ensures rows == []
  {
    SortIsSorted(rows);
    assert |Events(Sort(rows))| == |rows| && |Events(History(n, log, key))| == 0;
  }

  /** Equal aggregates list equally, so either store's way of cutting a page gives the same page. */
  lemma IssuePagesAgree(memory: Memory, scan: Scan, ops: seq<Operation>, project: nat, options: ListOptions,
                        a: seq<Issue>, b: seq<Issue>)
    requires Sound(scan) && memory.Valid() && memory.log == LogOf(ops)
    requires IsListing(memory.issues, project, options.status, a)
    requires IsListing(Aggregates(RunDb(scan, memory.maxEventsPerIssue, ops)), project, options.status, b)
    ensures FetchedPage(b, Normalized(options)) == Page(a, Normalized(options))
  {
    hide IsListing, LogOf, RunDb, Page, FetchedPage;
    SqliteSimulatesMemory(memory, scan, ops);
    ListingIsUnique(memory.issues, project, options.status, a, b);
    ListingIsInOrder(memory.issues, project, options.status, a);
    PagesAgree(a, Normalized(options));
  }
}
