/**
 The SQLite issue store: two tables, and its statements as functions on them. A transaction is atomic.

 The `events` table is listed by its integer primary key, so the last row has the greatest number.
 */
module Sqlite {
  import opened MinMax
  import opened Options
  import opened IssueLog

  /** A row of `issues`; version 1 rows are grouped by the version 1 fingerprint. */
  datatype Row = Row(issue: Issue, version: int)

  datatype EventRow = EventRow(sequence: nat, key: Key, event: Event)

  datatype Db = Db(issues: map<Key, Row>, events: seq<EventRow>)

  /** The order in which the database returns the rows that a query without ORDER BY selects. */
  type Scan = set<Key> -> seq<Key>

  ghost predicate Lists(keys: seq<Key>, s: set<Key>) {
    (forall key :: key in keys <==> key in s) && (forall i, j :: 0 <= i < j < |keys| ==> keys[i] != keys[j])
  }

  ghost predicate Sound(scan: Scan) {
    forall s :: Lists(scan(s), s)
  }

  // ---------------------------------------------------------------- statements on events

  function Of(events: seq<EventRow>, key: Key): seq<Numbered> {
    if events == [] then []
    else
      var last := events[|events| - 1];
      Of(events[..|events| - 1], key) + (if last.key == key then [Numbered(last.sequence, last.event)] else [])
  }

  function NextSequence(events: seq<EventRow>): nat {
    if events == [] then 1 else events[|events| - 1].sequence + 1
  }

  /** A number freed at the end of the table is given out again. */
  function InsertEvent(events: seq<EventRow>, key: Key, e: Event): seq<EventRow> {
    events + [EventRow(NextSequence(events), key, e)]
  }

  function Doomed(n: nat, h: seq<Numbered>): seq<Numbered> {
    if |h| > n then h[n..] else []
  }

  function Filter(events: seq<EventRow>, keep: EventRow -> bool): seq<EventRow> {
    if events == [] then []
    else
      var last := events[|events| - 1];
      Filter(events[..|events| - 1], keep) + (if keep(last) then [last] else [])
  }

  /** Deletes what stands beyond the newest `n` events of an issue. */
  function TrimEvents(events: seq<EventRow>, key: Key, n: nat): seq<EventRow> {
    var doomed := Doomed(n, Sort(Of(events, key)));
    Filter(events, (row: EventRow) => !(row.key == key && Numbered(row.sequence, row.event) in doomed))
  }

  function MoveEvents(events: seq<EventRow>, to: Key, from: Key): seq<EventRow> {
    seq(|events|, i requires 0 <= i < |events| => if events[i].key == from then events[i].(key := to) else events[i])
  }

  /** The rows left when issues are deleted. */
  function Cascade(events: seq<EventRow>, gone: set<Key>): seq<EventRow> {
    Filter(events, (row: EventRow) => row.key !in gone)
  }

  // ---------------------------------------------------------------- statements on issues

  /** The aggregates that a query selects from. */
  function Aggregates(db: Db): map<Key, Issue> {
    map key | key in db.issues :: db.issues[key].issue
  }

  function UpsertRow(found: Option<Row>, project: nat, e: Event): Row {
    match found
    case None => Row(Issue(Key(project, e.fingerprint), e.head, Open, 1, e.receivedAt, e.receivedAt, e), 2)
    case Some(row) =>
      var past := row.issue;
      Row(Issue(past.key, past.head, if past.status == Resolved then Open else past.status, past.occurrences + 1,
                Min(past.firstSeen, e.receivedAt), Max(past.lastSeen, e.receivedAt),
                if e.receivedAt >= past.lastSeen then e else past.lastEvent), 2)
  }

  function Find(db: Db, key: Key): Option<Row> {
    if key in db.issues then Some(db.issues[key]) else None
  }

  /** The upsert of the aggregate and the insertion of the occurrence, for one event. */
  function Append(db: Db, project: nat, e: Event): Db {
    var key := Key(project, e.fingerprint);
    Db(db.issues[key := UpsertRow(Find(db, key), project, e)], InsertEvent(db.events, key, e))
  }

  function MergedStatus(a: Status, b: Status): Status {
    if a == Ignored || b == Ignored then Ignored else if a == Open || b == Open then Open else Resolved
  }

  function MergeRow(found: Option<Row>, to: Key, head: Head, from: Issue): Row {
    match found
    case None => Row(from.(key := to, head := head), 2)
    case Some(row) =>
      var past := row.issue;
      Row(Issue(past.key, past.head, MergedStatus(past.status, from.status), past.occurrences + from.occurrences,
                Min(past.firstSeen, from.firstSeen), Max(past.lastSeen, from.lastSeen),
                if from.lastSeen >= past.lastSeen then from.lastEvent else past.lastEvent), 2)
  }

  /** Merges one version 1 row into the row of `to`, moves its events, and deletes it with what is left of them. */
  function Merge(db: Db, to: Key, head: Head, from: Key): Db {
    var merged := if from in db.issues && db.issues[from].version == 1
                  then db.issues[to := MergeRow(Find(db, to), to, head, db.issues[from].issue)] else db.issues;
    Db(merged - {from}, Cascade(MoveEvents(db.events, to, from), {from}))
  }

  function MergeAll(db: Db, to: Key, head: Head, from: seq<Key>): Db {
    if from == [] then db else Merge(MergeAll(db, to, head, from[..|from| - 1]), to, head, from[|from| - 1])
  }

  // ---------------------------------------------------------------- migration of version 1 rows

  /** A version 1 row is a candidate when its last event hashes to its own key and to the new fingerprint. */
  predicate Candidate(key: Key, row: Row, project: nat, e: Event) {
    && key.project == project && row.version == 1
    && row.issue.lastEvent.legacy == key.fingerprint && row.issue.lastEvent.fingerprint == e.fingerprint
  }

  function ExactCandidates(db: Db, project: nat, e: Event): set<Key> {
    set key | key in db.issues && key.fingerprint == e.legacy && Candidate(key, db.issues[key], project, e)
  }

  function GroupedCandidates(db: Db, project: nat, e: Event): set<Key> {
    set key | key in db.issues && key.fingerprint != e.legacy && db.issues[key].issue.head == e.head
              && Candidate(key, db.issues[key], project, e)
  }

  function Candidates(db: Db, project: nat, e: Event): set<Key> {
    ExactCandidates(db, project, e) + GroupedCandidates(db, project, e)
  }

  function Migrate(db: Db, scan: Scan, project: nat, e: Event): Db {
    MergeAll(db, Key(project, e.fingerprint), e.head,
             scan(ExactCandidates(db, project, e)) + scan(GroupedCandidates(db, project, e)))
  }

  predicate Mentions(captured: seq<Event>, fingerprint: nat) {
    exists i :: 0 <= i < |captured| && captured[i].fingerprint == fingerprint
  }

  /** Each fingerprint of the batch is migrated once. */
  function MigrateAll(db: Db, scan: Scan, project: nat, captured: seq<Event>): Db {
    if captured == [] then db
    else
      var front, last := captured[..|captured| - 1], captured[|captured| - 1];
      var before := MigrateAll(db, scan, project, front);
      if Mentions(front, last.fingerprint) then before else Migrate(before, scan, project, last)
  }

  function AppendAll(db: Db, project: nat, captured: seq<Event>): Db {
    if captured == [] then db
    else Append(AppendAll(db, project, captured[..|captured| - 1]), project, captured[|captured| - 1])
  }

  function Touched(project: nat, captured: seq<Event>): set<Key> {
    set i | 0 <= i < |captured| :: Key(project, captured[i].fingerprint)
  }

  /** Whether a row is among the newest `n` of its issue, for the issues in `touched`. */
  predicate Stays(events: seq<EventRow>, touched: set<Key>, n: nat, row: EventRow) {
    row.key !in touched || Numbered(row.sequence, row.event) in Trim(n, Sort(Of(events, row.key)))
  }

  function TrimTouched(events: seq<EventRow>, touched: set<Key>, n: nat): seq<EventRow> {
    Filter(events, (row: EventRow) => Stays(events, touched, n, row))
  }

  function RecordBatch(db: Db, scan: Scan, n: nat, project: nat, captured: seq<Event>): Db {
    var full := AppendAll(MigrateAll(db, scan, project, captured), project, captured);
    full.(events := TrimTouched(full.events, Touched(project, captured), n))
  }

  /** Why a status change is refused, if it is: an UPDATE that finds no row reports that the issue is missing. */
  function SqlStatusRefusal(db: Db, project: Option<nat>, fingerprint: nat,
                            status: Option<Status>): Option<StoreError> {
    if project == None then Some(ProjectRequired)
    else if status == None then Some(InvalidStatus)
    else if Key(project.value, fingerprint) !in db.issues then Some(IssueNotFound)
    else None
  }

  function SetStatus(db: Db, key: Key, status: Status): Db
    requires key in db.issues
  {
    var row := db.issues[key];
    db.(issues := db.issues[key := row.(issue := row.issue.(status := status))])
  }

  // ---------------------------------------------------------------- the table of events

  predicate InRowOrder(events: seq<EventRow>) {
    forall i, j :: 0 <= i < j < |events| ==> events[i].sequence < events[j].sequence
  }

  /** Numbers start at one, and a new one is greater than all that are left. */
  lemma NextNumber(events: seq<EventRow>)
    requires InRowOrder(events) && forall i :: 0 <= i < |events| ==> events[i].sequence >= 1
    ensures events == [] ==> NextSequence(events) == 1
    ensures events != [] ==> NextSequence(events) == events[|events| - 1].sequence + 1
    ensures forall i :: 0 <= i < |events| ==> 1 <= events[i].sequence < NextSequence(events)
  {
    forall i | 0 <= i < |events| ensures events[i].sequence <= events[|events| - 1].sequence {
      assert i < |events| - 1 ==> events[i].sequence < events[|events| - 1].sequence;
    }
  }

  lemma {:induction false} OfMembers(events: seq<EventRow>, key: Key, x: Numbered)
    ensures x in Of(events, key) <==> EventRow(x.sequence, key, x.event) in events
    decreases |events|
  {
    if events == [] {
    } else {
      var front, last := events[..|events| - 1], events[|events| - 1];
      assert events == front + [last];
      OfMembers(front, key, x);
    }
  }

  lemma {:induction false} FilterMembers(events: seq<EventRow>, keep: EventRow -> bool, row: EventRow)
    ensures row in Filter(events, keep) <==> row in events && keep(row)
    decreases |events|
  {
    if events == [] {
    } else {
      var front, last := events[..|events| - 1], events[|events| - 1];
      assert events == front + [last];
      FilterMembers(front, keep, row);
    }
  }

  lemma {:induction false} FilterKeepsOrder(events: seq<EventRow>, keep: EventRow -> bool)
    requires InRowOrder(events)
    ensures InRowOrder(Filter(events, keep))
    decreases |events|
  {
    if events == [] {
    } else {
      var front, last := events[..|events| - 1], events[|events| - 1];
      FilterKeepsOrder(front, keep);
      var kept := Filter(front, keep);
      forall i | 0 <= i < |kept| ensures kept[i].sequence < last.sequence {
        FilterMembers(front, keep, kept[i]);
        var k :| 0 <= k < |front| && front[k] == kept[i];
        assert events[k].sequence < events[|events| - 1].sequence;
      }
    }
  }

  lemma {:induction false} FiltersAgree(events: seq<EventRow>, f: EventRow -> bool, g: EventRow -> bool)
    requires forall i {:trigger events[i]} :: 0 <= i < |events| ==> f(events[i]) == g(events[i])
    ensures Filter(events, f) == Filter(events, g)
    decreases |events|
  {
    if events == [] {
    } else {
      var front := events[..|events| - 1];
      forall i | 0 <= i < |front| ensures f(front[i]) == g(front[i]) {
        assert front[i] == events[i];
      }
      FiltersAgree(front, f, g);
    }
  }

  lemma {:induction false} FilterAll(events: seq<EventRow>, f: EventRow -> bool)
    requires forall i {:trigger events[i]} :: 0 <= i < |events| ==> f(events[i])
    ensures Filter(events, f) == events
    decreases |events|
  {
    if events == [] {
    } else {
      var front, last := events[..|events| - 1], events[|events| - 1];
      assert events == front + [last];
      forall i | 0 <= i < |front| ensures f(front[i]) {
        assert front[i] == events[i];
      }
      FilterAll(front, f);
    }
  }

  lemma {:induction false} FilterFilter(events: seq<EventRow>, f: EventRow -> bool, g: EventRow -> bool)
    ensures Filter(Filter(events, f), g) == Filter(events, (row: EventRow) => f(row) && g(row))
    decreases |events|
  {
    if events == [] {
    } else {
      var front, last := events[..|events| - 1], events[|events| - 1];
      FilterFilter(front, f, g);
      if f(last) {
        assert Filter(events, f)[..|Filter(events, f)| - 1] == Filter(front, f);
      } else {
        assert Filter(events, f) == Filter(front, f);
      }
    }
  }

  lemma {:induction false} OfRises(events: seq<EventRow>, key: Key)
    requires InRowOrder(events)
    ensures Rising(Of(events, key)) && Distinct(Of(events, key))
    ensures AllBelow(Of(events, key), NextSequence(events))
    decreases |events|
  {
    if events == [] {
    } else {
      var front, last := events[..|events| - 1], events[|events| - 1];
      OfRises(front, key);
      assert front != [] ==> front[|front| - 1] == events[|events| - 2];
    }
  }

  /** A filter that keeps all of an issue's rows leaves its occurrences alone. */
  lemma {:induction false} OfFilter(events: seq<EventRow>, keep: EventRow -> bool, key: Key)
    requires forall i {:trigger events[i]} :: 0 <= i < |events| && events[i].key == key ==> keep(events[i])
    ensures Of(Filter(events, keep), key) == Of(events, key)
    decreases |events|
  {
    if events == [] {
    } else {
      var front, last := events[..|events| - 1], events[|events| - 1];
      assert forall i :: 0 <= i < |front| ==> front[i] == events[i];
      OfFilter(front, keep, key);
      if keep(last) {
        assert Filter(events, keep)[..|Filter(events, keep)| - 1] == Filter(front, keep);
      } else {
        assert Filter(events, keep) == Filter(front, keep);
      }
    }
  }

  /** Trimming an issue leaves exactly its newest `n` events, and the other issues' events alone. */
  lemma TrimKeepsNewest(events: seq<EventRow>, touched: set<Key>, n: nat, key: Key)
    requires InRowOrder(events)
    ensures Sort(Of(TrimTouched(events, touched, n), key))
         == if key in touched then Trim(n, Sort(Of(events, key))) else Sort(Of(events, key))
  {
    var keep := (row: EventRow) => Stays(events, touched, n, row);
    var after := TrimTouched(events, touched, n);
    if key !in touched {
      OfFilter(events, keep, key);
    } else {
      FilterKeepsOrder(events, keep);
      OfRises(events, key);
      OfRises(after, key);
      SortIsSorted(Of(events, key));
      SortIsSorted(Of(after, key));
      var newest := Trim(n, Sort(Of(events, key)));
      forall x ensures x in Sort(Of(after, key)) <==> x in newest {
        SortMembers(Of(after, key));
        SortMembers(Of(events, key));
        OfMembers(after, key, x);
        OfMembers(events, key, x);
        FilterMembers(events, keep, EventRow(x.sequence, key, x.event));
      }
      NewestFirstByMembers(Sort(Of(after, key)), newest);
    }
  }

  /** One more TRIM statement covers one more issue. */
  lemma TrimOneMore(events: seq<EventRow>, done: set<Key>, key: Key, n: nat)
    requires InRowOrder(events) && key !in done
    ensures TrimEvents(TrimTouched(events, done, n), key, n) == TrimTouched(events, done + {key}, n)
  {
    var some := TrimTouched(events, done, n);
    var f := (row: EventRow) => Stays(events, done, n, row);
    OfFilter(events, f, key);
    var h := Sort(Of(events, key));
    var g := (row: EventRow) => !(row.key == key && Numbered(row.sequence, row.event) in Doomed(n, h));
    FilterFilter(events, f, g);
    var doomed := Doomed(n, Sort(Of(some, key)));
    FiltersAgree(some, (row: EventRow) => !(row.key == key && Numbered(row.sequence, row.event) in doomed), g);
    forall i | 0 <= i < |events| ensures (f(events[i]) && g(events[i])) == Stays(events, done + {key}, n, events[i]) {
      if events[i].key == key {
        KeptOrDoomed(events, n, events[i]);
      }
    }
    FiltersAgree(events, (row: EventRow) => f(row) && g(row), (row: EventRow) => Stays(events, done + {key}, n, row));
  }

  lemma KeptOrDoomed(events: seq<EventRow>, n: nat, row: EventRow)
    requires InRowOrder(events) && row in events
    ensures var h, x := Sort(Of(events, row.key)), Numbered(row.sequence, row.event);
            x in Trim(n, h) <==> x !in Doomed(n, h)
  {
    var h, x := Sort(Of(events, row.key)), Numbered(row.sequence, row.event);
    OfMembers(events, row.key, x);
    SortMembers(Of(events, row.key));
    OfRises(events, row.key);
    SortIsSorted(Of(events, row.key));
    HalvesAreApart(n, h, x);
  }

  lemma HalvesAreApart(n: nat, h: seq<Numbered>, x: Numbered)
    requires NewestFirst(h) && x in h
    ensures x in Trim(n, h) <==> x !in Doomed(n, h)
  {
    if |h| > n {
      assert h == h[..n] + h[n..];
      forall i, j | 0 <= i < n && 0 <= j < |h[n..]| ensures h[..n][i] != h[n..][j] {
        assert Newer(h[i], h[n + j]);
      }
    }
  }
}
