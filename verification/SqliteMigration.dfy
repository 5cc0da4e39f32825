/** What recording a batch keeps while version 1 rows are merged into version 2 groups. */
module SqliteMigration {
  import opened Options
  import opened IssueLog
  import opened Sqlite

  // ---------------------------------------------------------------- the tables

  /** The last event of a version 2 row hashes to the key of that row. */
  predicate RowOk(key: Key, row: Row) {
    && row.issue.key == key && row.issue.occurrences >= 1 && (row.version == 1 || row.version == 2)
    && (row.version == 2 ==> row.issue.lastEvent.fingerprint == key.fingerprint)
  }

  predicate RowsOk(issues: map<Key, Row>) {
    forall key {:trigger RowOk(key, issues[key])} {:trigger key in issues} :: key in issues ==> RowOk(key, issues[key])
  }

  /** Every occurrence belongs to an issue. */
  predicate Referenced(issues: map<Key, Row>, events: seq<EventRow>) {
    forall i :: 0 <= i < |events| ==> events[i].key in issues
  }

  predicate DbOk(db: Db) {
    RowsOk(db.issues) && InRowOrder(db.events) && Referenced(db.issues, db.events)
  }

  /**
   No version 1 row is stored under a fingerprint that the batch computes. What is hashed starts with a length
   byte for one fingerprint and with a letter for the other, so this fails only if SHA-256 has a collision.
   */
  predicate NoCollision(db: Db, captured: seq<Event>) {
    forall key {:trigger Mentions(captured, key.fingerprint)} {:trigger key in db.issues} ::
      key in db.issues && db.issues[key].version == 1 ==> !Mentions(captured, key.fingerprint)
  }

  // ---------------------------------------------------------------- the number of occurrences

  function Weight(key: Key, row: Row, project: nat): nat {
    if key.project == project then row.issue.occurrences else 0
  }

  /** The occurrences counted for a project. */
  ghost function Total(issues: map<Key, Row>, project: nat): nat
    decreases |issues|
  {
    if issues == map[] then 0
    else
      var key :| key in issues;
      Shrinks(issues, key);
      Weight(key, issues[key], project) + Total(issues - {key}, project)
  }

  lemma Shrinks(issues: map<Key, Row>, key: Key)
    requires key in issues
    ensures |issues - {key}| < |issues|
  {
    assert issues.Keys == (issues - {key}).Keys + {key};
  }

  lemma {:induction false} TotalWithout(issues: map<Key, Row>, key: Key, project: nat)
    requires key in issues
    ensures Total(issues, project) == Weight(key, issues[key], project) + Total(issues - {key}, project)
    decreases |issues|
  {
    var first :| first in issues && Total(issues, project)
                                 == Weight(first, issues[first], project) + Total(issues - {first}, project);
    if first != key {
      Shrinks(issues, first);
      Shrinks(issues, key);
      TotalWithout(issues - {first}, key, project);
      TotalWithout(issues - {key}, first, project);
      assert issues - {first} - {key} == issues - {key} - {first};
    }
  }

  lemma TotalWith(issues: map<Key, Row>, key: Key, row: Row, project: nat)
    ensures Total(issues[key := row], project) == Weight(key, row, project) + Total(issues - {key}, project)
  {
    TotalWithout(issues[key := row], key, project);
    assert issues[key := row] - {key} == issues - {key};
  }

  // ---------------------------------------------------------------- merging

  /** Version 1 rows that can be merged into `to` one after the other. */
  predicate Mergeable(db: Db, to: Key, from: seq<Key>) {
    && (forall i {:trigger from[i]} :: 0 <= i < |from| ==>
          from[i] in db.issues && db.issues[from[i]].version == 1 && from[i] != to && from[i].project == to.project
          && db.issues[from[i]].issue.lastEvent.fingerprint == to.fingerprint)
    && (forall i, j :: 0 <= i < j < |from| ==> from[i] != from[j])
  }

  function Rekeyed(row: EventRow, to: Key, from: seq<Key>): EventRow {
    if row.key in from then row.(key := to) else row
  }

  function MergedRow(db: Db, to: Key, head: Head, from: seq<Key>): Option<Row>
    requires forall i {:trigger from[i]} :: 0 <= i < |from| ==> from[i] in db.issues
  {
    if from == [] then Find(db, to)
    else Some(MergeRow(MergedRow(db, to, head, from[..|from| - 1]), to, head, db.issues[from[|from| - 1]].issue))
  }

  lemma CascadeNone(events: seq<EventRow>, gone: set<Key>)
    requires forall i {:trigger events[i]} :: 0 <= i < |events| ==> events[i].key !in gone
    ensures Cascade(events, gone) == events
  {
    FilterAll(events, (row: EventRow) => row.key !in gone);
  }

  /** Nothing is left for the cascade once the events of the merged row have moved. */
  lemma NothingCascades(events: seq<EventRow>, to: Key, from: Key)
    requires from != to
    ensures Cascade(MoveEvents(events, to, from), {from}) == MoveEvents(events, to, from)
  {
    CascadeNone(MoveEvents(events, to, from), {from});
  }

  lemma MergeablePrefix(db: Db, to: Key, from: seq<Key>)
    requires Mergeable(db, to, from) && from != []
    ensures Mergeable(db, to, from[..|from| - 1]) && from[|from| - 1] !in from[..|from| - 1]
    ensures from[|from| - 1] in db.issues && db.issues[from[|from| - 1]].version == 1 && from[|from| - 1] != to
  {
    var front := from[..|from| - 1];
    assert forall i :: 0 <= i < |front| ==> front[i] == from[i];
  }

  lemma MergeIs(db: Db, to: Key, head: Head, from: Key)
    requires from in db.issues && db.issues[from].version == 1 && from != to
    ensures Merge(db, to, head, from)
         == Db(db.issues[to := MergeRow(Find(db, to), to, head, db.issues[from].issue)] - {from},
               MoveEvents(db.events, to, from))
  {
    NothingCascades(db.events, to, from);
  }

  lemma RekeyedAgain(events: seq<EventRow>, moved: seq<EventRow>, to: Key, front: seq<Key>, last: Key)
    requires last != to && |moved| == |events|
    requires forall i {:trigger moved[i]} :: 0 <= i < |events| ==> moved[i] == Rekeyed(events[i], to, front)
    ensures forall i {:trigger MoveEvents(moved, to, last)[i]} :: 0 <= i < |events| ==>
              MoveEvents(moved, to, last)[i] == Rekeyed(events[i], to, front + [last])
  {
    forall i | 0 <= i < |events| ensures MoveEvents(moved, to, last)[i] == Rekeyed(events[i], to, front + [last]) {
      assert moved[i] == Rekeyed(events[i], to, front);
    }
  }

  /** The merged rows are gone, every event row has moved or stayed, and only the target has changed otherwise. */
  ghost predicate MergedTo(db: Db, db': Db, to: Key, head: Head, from: seq<Key>)
    requires Mergeable(db, to, from)
  {
    && (forall key {:trigger key in db'.issues} ::
          key in db'.issues <==> (key in db.issues && key !in from) || (key == to && from != []))
    && (forall key {:trigger db'.issues[key]} ::
          key in db.issues && key !in from && key != to ==> db'.issues[key] == db.issues[key])
    && Find(db', to) == MergedRow(db, to, head, from)
    && |db'.events| == |db.events|
    && (forall i {:trigger db'.events[i]} :: 0 <= i < |db.events| ==> db'.events[i] == Rekeyed(db.events[i], to, from))
  }

  lemma {:induction false} MergeAllIs(db: Db, to: Key, head: Head, from: seq<Key>)
    requires Mergeable(db, to, from)
    ensures MergedTo(db, MergeAll(db, to, head, from), to, head, from)
    decreases |from|
  {
    if from == [] {
    } else {
      var front, last := from[..|from| - 1], from[|from| - 1];
      assert from == front + [last];
      MergeablePrefix(db, to, from);
      MergeAllIs(db, to, head, front);
      MergedOnce(db, MergeAll(db, to, head, front), to, head, front, last);
    }
  }

  lemma MergedOnce(db: Db, before: Db, to: Key, head: Head, front: seq<Key>, last: Key)
    requires Mergeable(db, to, front) && Mergeable(db, to, front + [last]) && last !in front
    requires MergedTo(db, before, to, head, front) && last in db.issues && db.issues[last].version == 1 && last != to
    ensures MergedTo(db, Merge(before, to, head, last), to, head, front + [last])
  {
    hide MergeRow, Mergeable, MergedRow, Rekeyed;
    var from := front + [last];
    MergedRowSnoc(db, to, head, front, last);
    assert last in before.issues && before.issues[last] == db.issues[last];
    MergeIs(before, to, head, last);
    RekeyedAgain(db.events, before.events, to, front, last);
    assert forall key :: key in from <==> key in front || key == last;
  }

  lemma MergedRowSnoc(db: Db, to: Key, head: Head, front: seq<Key>, last: Key)
    requires Mergeable(db, to, front) && Mergeable(db, to, front + [last]) && last in db.issues
    ensures MergedRow(db, to, head, front + [last])
         == Some(MergeRow(MergedRow(db, to, head, front), to, head, db.issues[last].issue))
  {
    assert (front + [last])[..|front + [last]| - 1] == front;
  }

  lemma {:induction false} MergeKeepsTotal(db: Db, to: Key, head: Head, from: seq<Key>, project: nat)
    requires Mergeable(db, to, from)
    ensures Total(MergeAll(db, to, head, from).issues, project) == Total(db.issues, project)
    decreases |from|
  {
    if from == [] {
    } else {
      var front, last := from[..|from| - 1], from[|from| - 1];
      MergeablePrefix(db, to, from);
      MergeKeepsTotal(db, to, head, front, project);
      MergeAllIs(db, to, head, front);
      var before := MergeAll(db, to, head, front);
      assert last in before.issues && before.issues[last] == db.issues[last];
      MergeOneKeepsTotal(before, to, head, last, project);
    }
  }

  lemma MergeOneKeepsTotal(db: Db, to: Key, head: Head, from: Key, project: nat)
    requires from in db.issues && db.issues[from].version == 1 && from != to && from.project == to.project
    ensures Total(Merge(db, to, head, from).issues, project) == Total(db.issues, project)
  {
    var row := MergeRow(Find(db, to), to, head, db.issues[from].issue);
    TotalWithout(db.issues, from, project);
    TotalWith(db.issues - {from}, to, row, project);
    assert (db.issues - {from})[to := row] == db.issues[to := row] - {from};
    if to in db.issues {
      TotalWithout(db.issues - {from}, to, project);
    } else {
      assert db.issues - {from} - {to} == db.issues - {from};
    }
  }

  // ---------------------------------------------------------------- the merged row

  /**
   The merged row keeps the strictest status, the earliest and the latest sighting of all it was made from, and the
   last event of a part that was seen last.
   */
  ghost predicate Combines(db: Db, to: Key, from: seq<Key>, merged: Issue)
    requires forall i {:trigger from[i]} :: 0 <= i < |from| ==> from[i] in db.issues
  {
    && (forall key {:trigger Source(db, to, from, key)} :: Source(db, to, from, key) ==>
          var part := db.issues[key].issue;
          && merged.firstSeen <= part.firstSeen && part.lastSeen <= merged.lastSeen
          && (part.status == Ignored ==> merged.status == Ignored)
          && (part.status == Open ==> merged.status != Resolved))
    && (exists key :: Source(db, to, from, key) && db.issues[key].issue.firstSeen == merged.firstSeen)
    && (exists key :: Source(db, to, from, key) && db.issues[key].issue.lastSeen == merged.lastSeen
                      && db.issues[key].issue.lastEvent == merged.lastEvent)
    && (exists key :: Source(db, to, from, key) && db.issues[key].issue.status == merged.status)
  }

  predicate Source(db: Db, to: Key, from: seq<Key>, key: Key) {
    key in db.issues && (key == to || key in from)
  }

  lemma {:induction false} MergedRowCombines(db: Db, to: Key, head: Head, from: seq<Key>)
    requires forall i {:trigger from[i]} :: 0 <= i < |from| ==> from[i] in db.issues
    requires MergedRow(db, to, head, from).Some?
    ensures Combines(db, to, from, MergedRow(db, to, head, from).value.issue)
    decreases |from|
  {
    if from == [] {
      assert Source(db, to, from, to);
    } else {
      var front, last := from[..|from| - 1], from[|from| - 1];
      assert from == front + [last];
      assert Source(db, to, from, last);
      if MergedRow(db, to, head, front).Some? {
        MergedRowCombines(db, to, head, front);
      } else {
        NoSources(db, to, head, front);
      }
      MergedStep(db, to, head, from);
    }
  }

  lemma NoSources(db: Db, to: Key, head: Head, from: seq<Key>)
    requires forall i {:trigger from[i]} :: 0 <= i < |from| ==> from[i] in db.issues
    requires MergedRow(db, to, head, from) == None
    ensures from == [] && to !in db.issues
  {}

  lemma MergedStep(db: Db, to: Key, head: Head, from: seq<Key>)
    requires forall i {:trigger from[i]} :: 0 <= i < |from| ==> from[i] in db.issues
    requires from != []
    requires var found := MergedRow(db, to, head, from[..|from| - 1]);
             if found.Some? then Combines(db, to, from[..|from| - 1], found.value.issue)
             else from[..|from| - 1] == [] && to !in db.issues
    ensures Combines(db, to, from, MergedRow(db, to, head, from).value.issue)
  {
    hide Combines;
    var front, last := from[..|from| - 1], from[|from| - 1];
    assert from == front + [last];
    var found := MergedRow(db, to, head, front);
    if found.Some? {
      CombinesOneMore(db, to, head, front, last, found.value);
    } else {
      CombinesFirst(db, to, head, last);
    }
  }

  lemma CombinesFirst(db: Db, to: Key, head: Head, only: Key)
    requires only in db.issues && to !in db.issues
    ensures Combines(db, to, [only], MergeRow(None, to, head, db.issues[only].issue).issue)
  {
    assert Source(db, to, [only], only);
  }

  lemma CombinesOneMore(db: Db, to: Key, head: Head, front: seq<Key>, last: Key, found: Row)
    requires forall i {:trigger front[i]} :: 0 <= i < |front| ==> front[i] in db.issues
    requires last in db.issues && Combines(db, to, front, found.issue)
    ensures Combines(db, to, front + [last], MergeRow(Some(found), to, head, db.issues[last].issue).issue)
  {
    var m, part := found.issue, db.issues[last].issue;
    var merged := MergeRow(Some(found), to, head, part).issue;
    assert forall key :: Source(db, to, front + [last], key) <==> Source(db, to, front, key) || key == last;
    hide Source;
    var f :| Source(db, to, front, f) && db.issues[f].issue.firstSeen == m.firstSeen;
    var l :| Source(db, to, front, l) && db.issues[l].issue.lastSeen == m.lastSeen
        && db.issues[l].issue.lastEvent == m.lastEvent;
    var s :| Source(db, to, front, s) && db.issues[s].issue.status == m.status;
    var f' := if merged.firstSeen == m.firstSeen then f else last;
    var l' := if part.lastSeen >= m.lastSeen then last else l;
    var s' := if merged.status == m.status then s else last;
    assert Source(db, to, front + [last], f') && Source(db, to, front + [last], l')
        && Source(db, to, front + [last], s');
    assert db.issues[f'].issue.firstSeen == merged.firstSeen;
    assert db.issues[l'].issue.lastSeen == merged.lastSeen && db.issues[l'].issue.lastEvent == merged.lastEvent;
    assert db.issues[s'].issue.status == merged.status;
  }

  lemma {:induction false} MergedRowOk(db: Db, to: Key, head: Head, from: seq<Key>)
    requires RowsOk(db.issues) && Mergeable(db, to, from) && MergedRow(db, to, head, from).Some?
    requires to in db.issues ==> db.issues[to].version == 2
    ensures RowOk(to, MergedRow(db, to, head, from).value) && MergedRow(db, to, head, from).value.version == 2
    decreases |from|
  {
    if from == [] {
      assert RowOk(to, db.issues[to]);
    } else {
      var front, last := from[..|from| - 1], from[|from| - 1];
      MergeablePrefix(db, to, from);
      assert RowOk(last, db.issues[last]);
      if MergedRow(db, to, head, front).Some? {
        MergedRowOk(db, to, head, front);
      }
    }
  }

  // ---------------------------------------------------------------- migrating

  /** The version 1 rows that the batch's event brings forward, in the order of the query. */
  function Found(db: Db, scan: Scan, project: nat, e: Event): seq<Key> {
    scan(ExactCandidates(db, project, e)) + scan(GroupedCandidates(db, project, e))
  }

  /** The issue that an event fills is itself one of the candidates. */
  predicate MergesIntoItself(db: Db, project: nat, e: Event) {
    Key(project, e.fingerprint) in Candidates(db, project, e)
  }

  /** Without a collision no row is a candidate for itself. */
  lemma NoCollisionNoSelf(db: Db, project: nat, e: Event)
    requires NoCollision(db, [e])
    ensures !MergesIntoItself(db, project, e)
  {
    assert [e][0].fingerprint == e.fingerprint;
    assert Mentions([e], e.fingerprint);
  }

  lemma FoundIsMergeable(db: Db, scan: Scan, project: nat, e: Event)
    requires Sound(scan) && !MergesIntoItself(db, project, e)
    ensures Mergeable(db, Key(project, e.fingerprint), Found(db, scan, project, e))
    ensures Lists(Found(db, scan, project, e), Candidates(db, project, e))
  {
    var exact, grouped := ExactCandidates(db, project, e), GroupedCandidates(db, project, e);
    assert Lists(scan(exact), exact) && Lists(scan(grouped), grouped);
    var from := Found(db, scan, project, e);
    forall i | 0 <= i < |from| ensures from[i] in Candidates(db, project, e) {
      assert from[i] in from;
    }
    forall i, j | 0 <= i < j < |from| ensures from[i] != from[j] {
      if i < |scan(exact)| <= j {
        assert scan(exact)[i] in exact && scan(grouped)[j - |scan(exact)|] in grouped;
      }
    }
  }

  /** What a migration carries over: every event row, and every version 1 row that is still there. */
  ghost predicate Carried(db: Db, db': Db) {
    && |db'.events| == |db.events|
    && (forall i {:trigger db'.events[i]} :: 0 <= i < |db.events| ==>
          db'.events[i] == db.events[i].(key := db'.events[i].key))
    && (forall key {:trigger db'.issues[key]} :: key in db'.issues && db'.issues[key].version == 1 ==>
          key in db.issues && db'.issues[key] == db.issues[key])
    && (forall key {:trigger key in db'.issues} ::
          key in db.issues && db.issues[key].version == 2 ==> key in db'.issues)
  }

  lemma MigrateKeeps(db: Db, scan: Scan, project: nat, e: Event)
    requires Sound(scan) && DbOk(db) && NoCollision(db, [e])
    ensures DbOk(Migrate(db, scan, project, e)) && Carried(db, Migrate(db, scan, project, e))
    ensures forall p {:trigger Total(db.issues, p)} ::
              Total(Migrate(db, scan, project, e).issues, p) == Total(db.issues, p)
  {
    var to, from := Key(project, e.fingerprint), Found(db, scan, project, e);
    NoCollisionNoSelf(db, project, e);
    FoundIsMergeable(db, scan, project, e);
    MergeAllIs(db, to, e.head, from);
    forall p {:trigger Total(db.issues, p)}
      ensures Total(MergeAll(db, to, e.head, from).issues, p) == Total(db.issues, p) {
      MergeKeepsTotal(db, to, e.head, from, p);
    }
    TargetVersion(db, to, e);
    MergedKeepsOk(db, MergeAll(db, to, e.head, from), to, e.head, from);
  }

  lemma TargetVersion(db: Db, to: Key, e: Event)
    requires RowsOk(db.issues) && NoCollision(db, [e]) && to.fingerprint == e.fingerprint
    ensures to in db.issues ==> db.issues[to].version == 2
  {
    assert [e][0].fingerprint == e.fingerprint;
    assert Mentions([e], to.fingerprint);
  }

  lemma MergedKeepsOk(db: Db, db': Db, to: Key, head: Head, from: seq<Key>)
    requires DbOk(db) && Mergeable(db, to, from) && MergedTo(db, db', to, head, from)
    requires to in db.issues ==> db.issues[to].version == 2
    ensures DbOk(db') && Carried(db, db')
  {
    forall key | key in from ensures key in db.issues && db.issues[key].version == 1 {
      var i :| 0 <= i < |from| && from[i] == key;
    }
    hide MergedRow, Mergeable;
    if to in db'.issues {
      assert Find(db', to) == Some(db'.issues[to]);
      MergedRowOk(db, to, head, from);
    }
    forall i {:trigger db'.events[i]} | 0 <= i < |db'.events|
      ensures db'.events[i] == db.events[i].(key := db'.events[i].key)
    {
      assert db'.events[i] == Rekeyed(db.events[i], to, from);
    }
    forall key | key in db'.issues ensures RowOk(key, db'.issues[key]) {
      assert key != to ==> RowOk(key, db.issues[key]);
    }
    forall i | 0 <= i < |db'.events| ensures db'.events[i].key in db'.issues {
      assert db'.events[i] == Rekeyed(db.events[i], to, from);
      assert db.events[i].key in db.issues;
    }
    forall i, j | 0 <= i < j < |db'.events| ensures db'.events[i].sequence < db'.events[j].sequence {
      assert db'.events[i] == Rekeyed(db.events[i], to, from) && db'.events[j] == Rekeyed(db.events[j], to, from);
    }
  }

  lemma {:induction false} MigrateAllKeeps(db: Db, scan: Scan, project: nat, captured: seq<Event>)
    requires Sound(scan) && DbOk(db) && NoCollision(db, captured)
    ensures var db' := MigrateAll(db, scan, project, captured);
            && DbOk(db') && Carried(db, db') && NoCollision(db', captured)
            && forall p {:trigger Total(db.issues, p)} :: Total(db'.issues, p) == Total(db.issues, p)
    decreases |captured|
  {
    if captured == [] {
    } else {
      hide Total, RowOk, Migrate;
      var front, last := captured[..|captured| - 1], captured[|captured| - 1];
      NoCollisionParts(db, db, captured);
      MigrateAllKeeps(db, scan, project, front);
      var before := MigrateAll(db, scan, project, front);
      NoCollisionParts(db, before, captured);
      if !Mentions(front, last.fingerprint) {
        MigrateKeeps(before, scan, project, last);
        CarriedOn(db, before, Migrate(before, scan, project, last));
        NoCollisionParts(db, Migrate(before, scan, project, last), captured);
      }
    }
  }

  lemma CarriedOn(a: Db, b: Db, c: Db)
    requires Carried(a, b) && Carried(b, c) && RowsOk(b.issues)
    ensures Carried(a, c)
  {
    forall key | key in a.issues && a.issues[key].version == 2 ensures key in c.issues {
      assert RowOk(key, b.issues[key]);
    }
  }

  lemma NoCollisionParts(db: Db, db': Db, captured: seq<Event>)
    requires captured != [] && NoCollision(db, captured)
    requires forall key {:trigger key in db'.issues} :: key in db'.issues && db'.issues[key].version == 1 ==>
               key in db.issues && db'.issues[key] == db.issues[key]
    ensures NoCollision(db', captured) && NoCollision(db', captured[..|captured| - 1])
    ensures NoCollision(db', [captured[|captured| - 1]])
  {
    hide Mentions;
    MentionsParts(captured);
  }

  lemma MentionsParts(captured: seq<Event>)
    requires captured != []
    ensures forall fingerprint :: Mentions(captured, fingerprint)
              <==> (Mentions(captured[..|captured| - 1], fingerprint)
                    || Mentions([captured[|captured| - 1]], fingerprint))
  {
    var front, last := captured[..|captured| - 1], captured[|captured| - 1];
    forall fingerprint
      ensures Mentions(captured, fingerprint) <==> Mentions(front, fingerprint) || Mentions([last], fingerprint)
    {
      if Mentions(front, fingerprint) {
        var i :| 0 <= i < |front| && front[i].fingerprint == fingerprint;
        assert captured[i].fingerprint == fingerprint;
      }
      if Mentions([last], fingerprint) {
        assert captured[|captured| - 1].fingerprint == fingerprint;
      }
      if Mentions(captured, fingerprint) {
        var i :| 0 <= i < |captured| && captured[i].fingerprint == fingerprint;
        if i < |front| {
          assert front[i].fingerprint == fingerprint;
        } else {
          assert [last][0].fingerprint == fingerprint;
        }
      }
    }
  }

  // ---------------------------------------------------------------- recording

  lemma AppendKeeps(db: Db, project: nat, e: Event)
    requires DbOk(db) && NoCollision(db, [e])
    ensures var db' := Append(db, project, e);
            && DbOk(db')
            && (forall key {:trigger key in db'.issues} :: key in db'.issues && db'.issues[key].version == 1 ==>
                  key in db.issues && db'.issues[key] == db.issues[key])
            && forall p {:trigger Total(db.issues, p)} ::
                 Total(db'.issues, p) == Total(db.issues, p) + (if p == project then 1 else 0)
  {
    var key := Key(project, e.fingerprint);
    var row := UpsertRow(Find(db, key), project, e);
    TargetVersion(db, key, e);
    assert key in db.issues ==> RowOk(key, db.issues[key]);
    forall p {:trigger Total(db.issues, p)}
      ensures Total(db.issues[key := row], p) == Total(db.issues, p) + (if p == project then 1 else 0)
    {
      TotalWith(db.issues, key, row, p);
      if key in db.issues {
        TotalWithout(db.issues, key, p);
      } else {
        assert db.issues - {key} == db.issues;
      }
    }
  }

  lemma {:induction false} AppendAllKeeps(db: Db, project: nat, captured: seq<Event>)
    requires DbOk(db) && NoCollision(db, captured)
    ensures var db' := AppendAll(db, project, captured);
            && DbOk(db') && NoCollision(db', captured)
            && (forall key {:trigger key in db'.issues} :: key in db'.issues && db'.issues[key].version == 1 ==>
                  key in db.issues && db'.issues[key] == db.issues[key])
            && forall p {:trigger Total(db.issues, p)} ::
                 Total(db'.issues, p) == Total(db.issues, p) + (if p == project then |captured| else 0)
    decreases |captured|
  {
    if captured == [] {
    } else {
      hide Total, RowOk, Append, RowsOk, Referenced, InRowOrder;
      var front, last := captured[..|captured| - 1], captured[|captured| - 1];
      NoCollisionParts(db, db, captured);
      AppendAllKeeps(db, project, front);
      var before := AppendAll(db, project, front);
      NoCollisionParts(db, before, captured);
      AppendKeeps(before, project, last);
      NoCollisionParts(db, Append(before, project, last), captured);
    }
  }

  lemma TrimKeepsOk(db: Db, touched: set<Key>, n: nat)
    requires DbOk(db)
    ensures DbOk(db.(events := TrimTouched(db.events, touched, n)))
  {
    var keep := (row: EventRow) => Stays(db.events, touched, n, row);
    FilterKeepsOrder(db.events, keep);
    var after := Filter(db.events, keep);
    forall i | 0 <= i < |after| ensures after[i].key in db.issues {
      FilterMembers(db.events, keep, after[i]);
    }
  }

  /**
   Recording a batch counts each of its events exactly once, whatever version 1 rows it brings forward, and
   leaves the other projects' counts alone. Version 2 rows keep hashing to their own keys, occurrences keep
   their issues, and the version 1 rows that remain are untouched.
   */
  lemma RecordingConserves(db: Db, scan: Scan, n: nat, project: nat, captured: seq<Event>, p: nat)
    requires Sound(scan) && DbOk(db) && NoCollision(db, captured)
    ensures var db' := RecordBatch(db, scan, n, project, captured);
            && DbOk(db')
            && Total(db'.issues, p) == Total(db.issues, p) + (if p == project then |captured| else 0)
            && forall key :: key in db'.issues && db'.issues[key].version == 1 ==>
                 key in db.issues && db'.issues[key] == db.issues[key]
  {
    hide Total, RowOk, RowsOk, Referenced, InRowOrder, TrimTouched, MigrateAll, AppendAll;
    var migrated := MigrateAll(db, scan, project, captured);
    MigrateAllKeeps(db, scan, project, captured);
    AppendAllKeeps(migrated, project, captured);
    TrimKeepsOk(AppendAll(migrated, project, captured), Touched(project, captured), n);
    assert Total(migrated.issues, p) == Total(db.issues, p);
  }

  /** The cascade that deletes a merged row takes no event with it: every row is still there, in its place. */
  lemma MigrationLosesNoEvent(db: Db, scan: Scan, project: nat, captured: seq<Event>)
    requires Sound(scan) && DbOk(db) && NoCollision(db, captured)
    ensures var after := MigrateAll(db, scan, project, captured).events;
            && |after| == |db.events|
            && forall i :: 0 <= i < |after| ==>
                 after[i].sequence == db.events[i].sequence && after[i].event == db.events[i].event
  {
    MigrateAllKeeps(db, scan, project, captured);
    var after := MigrateAll(db, scan, project, captured).events;
    forall i | 0 <= i < |after|
      ensures after[i].sequence == db.events[i].sequence && after[i].event == db.events[i].event
    {
      assert after[i] == db.events[i].(key := after[i].key);
    }
  }

  lemma SourcesExist(db: Db, to: Key, from: seq<Key>)
    requires Mergeable(db, to, from)
    ensures forall i {:trigger from[i]} :: 0 <= i < |from| ==> from[i] in db.issues
  {}
}
