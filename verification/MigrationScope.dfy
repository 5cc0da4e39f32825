/** Which version 1 rows a batch brings forward, in terms of the rows and the events alone. */
module MigrationScope {
  import opened Options
  import opened IssueLog
  import opened Sqlite
  import opened SqliteMigration
  import opened BatchMigration

  /** No earlier event of the batch carries the fingerprint of this one. */
  predicate FirstWith(captured: seq<Event>, i: int) {
    0 <= i < |captured| && forall j :: 0 <= j < i ==> captured[j].fingerprint != captured[i].fingerprint
  }

  /**
   A version 1 row that the batch outdates: its last event hashes to its key as it did, and today to a fingerprint
   that the batch carries; and the first such event of the batch would have had the same key, or has the same head.
   */
  ghost predicate Outdated(issues: map<Key, Row>, project: nat, captured: seq<Event>, key: Key) {
    && key in issues && key.project == project
    && var row := issues[key];
    && row.version == 1 && row.issue.lastEvent.legacy == key.fingerprint
    && exists i {:trigger FirstWith(captured, i)} :: FirstWith(captured, i)
        && captured[i].fingerprint == row.issue.lastEvent.fingerprint
                   && (captured[i].legacy == key.fingerprint || captured[i].head == row.issue.head)
  }

  lemma FirstWithSnoc(front: seq<Event>, last: Event, i: int)
    ensures FirstWith(front + [last], i)
       <==> FirstWith(front, i) || (i == |front| && !Mentions(front, last.fingerprint))
  {
    var captured := front + [last];
    if i == |front| {
      assert captured[i] == last;
      assert forall j :: 0 <= j < i ==> captured[j] == front[j];
    } else if 0 <= i < |front| {
      assert forall j :: 0 <= j <= i ==> captured[j] == front[j];
    }
  }

  lemma OutdatedSnoc(issues: map<Key, Row>, project: nat, front: seq<Event>, last: Event, key: Key)
    requires key in issues && issues[key].version == 1 && key.project == project
    requires issues[key].issue.lastEvent.legacy == key.fingerprint
    ensures Outdated(issues, project, front + [last], key)
       <==> Outdated(issues, project, front, key)
            || (!Mentions(front, last.fingerprint) && issues[key].issue.lastEvent.fingerprint == last.fingerprint
                && (last.legacy == key.fingerprint || last.head == issues[key].issue.head))
  {
    hide FirstWith, Mentions;
    var captured, row := front + [last], issues[key];
    forall i ensures FirstWith(captured, i)
        <==> FirstWith(front, i) || (i == |front| && !Mentions(front, last.fingerprint)) {
      FirstWithSnoc(front, last, i);
    }
    assert captured[|front|] == last;
    forall i | FirstWith(front, i) ensures 0 <= i < |front| && captured[i] == front[i] {
      FirstInRange(front, i);
    }
  }

  lemma FirstInRange(captured: seq<Event>, i: int)
    requires FirstWith(captured, i)
    ensures 0 <= i < |captured|
  {}

  /** The candidates of all events of a batch are the rows it outdates. */
  lemma {:induction false} ClaimedAreOutdated(db: Db, project: nat, captured: seq<Event>, key: Key)
    ensures key in Claimed(db, project, captured) <==> Outdated(db.issues, project, captured, key)
    decreases |captured|
  {
    if captured == [] {
    } else {
      hide Outdated, Claimed, Mentions;
      var front, last := captured[..|captured| - 1], captured[|captured| - 1];
      assert captured == front + [last];
      ClaimedAreOutdated(db, project, front, key);
      ClaimedSnoc(db, project, front, last);
      if Suspect(db, project, key) {
        OutdatedSnoc(db.issues, project, front, last, key);
      } else {
        NotOutdated(db, project, captured, key);
        NotOutdated(db, project, front, key);
        NoCandidate(db, project, last, key);
      }
    }
  }

  predicate Suspect(db: Db, project: nat, key: Key) {
    && key in db.issues && db.issues[key].version == 1 && key.project == project
    && db.issues[key].issue.lastEvent.legacy == key.fingerprint
  }

  lemma NotOutdated(db: Db, project: nat, captured: seq<Event>, key: Key)
    requires !Suspect(db, project, key)
    ensures !Outdated(db.issues, project, captured, key)
  {}

  lemma NoCandidate(db: Db, project: nat, e: Event, key: Key)
    requires !Suspect(db, project, key)
    ensures key !in Candidates(db, project, e)
  {}

  lemma OutdatedByRow(issues: map<Key, Row>, after: map<Key, Row>, project: nat, captured: seq<Event>, key: Key)
    requires key in issues && key in after && issues[key] == after[key]
    ensures Outdated(issues, project, captured, key) == Outdated(after, project, captured, key)
  {}

  lemma TwoIsNotOutdated(issues: map<Key, Row>, project: nat, captured: seq<Event>, key: Key)
    requires key in issues && issues[key].version == 2
    ensures !Outdated(issues, project, captured, key)
  {}

  lemma NoRowNotOutdated(issues: map<Key, Row>, project: nat, captured: seq<Event>, key: Key)
    requires key !in issues
    ensures !Outdated(issues, project, captured, key)
  {}

  /** What recording a batch does to the row of a fingerprint that it does not carry. */
  lemma ElsewhereAfter(db: Db, scan: Scan, n: nat, project: nat, captured: seq<Event>, key: Key)
    requires Sound(scan) && NoCollision(db, captured)
    requires !(key.project == project && Mentions(captured, key.fingerprint))
    ensures var after := RecordBatch(db, scan, n, project, captured);
            Find(after, key) == if Outdated(db.issues, project, captured, key) then None else Find(db, key)
  {
    hide MigrateAll, TrimTouched, Mentions, NoCollision, Claimed, Outdated, MergedRow, AppendAll, Append;
    var m := MigrateAll(db, scan, project, captured);
    MigrateAllIs(db, scan, project, captured);
    ClaimedAreOutdated(db, project, captured, key);
    NotAppended(m, project, captured, key);
    var left := Find(m, key);
  }

  lemma {:induction false} NotAppended(db: Db, project: nat, captured: seq<Event>, key: Key)
    requires !(key.project == project && Mentions(captured, key.fingerprint))
    ensures Find(AppendAll(db, project, captured), key) == Find(db, key)
    decreases |captured|
  {
    if captured == [] {
    } else {
      var front, last := captured[..|captured| - 1], captured[|captured| - 1];
      assert captured == front + [last];
      MentionsAll(front, last);
      NotAppended(db, project, front, key);
    }
  }

  lemma CarriedAfter(db: Db, scan: Scan, n: nat, project: nat, captured: seq<Event>, fingerprint: nat)
    requires Mentions(captured, fingerprint)
    ensures var after := RecordBatch(db, scan, n, project, captured).issues;
            Key(project, fingerprint) in after && after[Key(project, fingerprint)].version == 2
  {
    hide MigrateAll, TrimTouched, Mentions, AppendAll;
    AppendAllAbsorbs(MigrateAll(db, scan, project, captured), project, captured, fingerprint);
  }

  /**
   Recording a batch brings forward every version 1 row that it outdates, whatever its status, and no other: the
   outdated rows are gone, all other version 1 rows are as they were, and nothing in the tables is outdated.
   */
  lemma OutdatedRowsGo(db: Db, scan: Scan, n: nat, project: nat, captured: seq<Event>)
    requires Sound(scan) && NoCollision(db, captured)
    ensures var after := RecordBatch(db, scan, n, project, captured).issues;
            && (forall key {:trigger Outdated(after, project, captured, key)} :: !Outdated(after, project, captured,
                                                                                           key))
            && (forall key {:trigger key in db.issues} :: key in db.issues && db.issues[key].version == 1 ==>
                  if Outdated(db.issues, project, captured, key) then key !in after
                  else key in after && after[key] == db.issues[key])
  {
    hide RecordBatch, Mentions, Outdated, NoCollision;
    var after := RecordBatch(db, scan, n, project, captured);
    forall key {:trigger Outdated(after.issues, project, captured, key)}
      ensures !Outdated(after.issues, project, captured, key)
    {
      if key.project == project && Mentions(captured, key.fingerprint) {
        CarriedAfter(db, scan, n, project, captured, key.fingerprint);
        TwoIsNotOutdated(after.issues, project, captured, key);
      } else {
        ElsewhereAfter(db, scan, n, project, captured, key);
        if key in after.issues {
          assert Find(after, key) == Some(after.issues[key]);
          OutdatedByRow(db.issues, after.issues, project, captured, key);
        } else {
          NoRowNotOutdated(after.issues, project, captured, key);
        }
      }
    }
    forall key {:trigger key in db.issues} | key in db.issues && db.issues[key].version == 1
      ensures if Outdated(db.issues, project, captured, key) then key !in after.issues
              else key in after.issues && after.issues[key] == db.issues[key]
    {
      OldKeyNotCarried(db, captured, key);
      ElsewhereAfter(db, scan, n, project, captured, key);
    }
  }

  lemma OldKeyNotCarried(db: Db, captured: seq<Event>, key: Key)
    requires NoCollision(db, captured) && key in db.issues && db.issues[key].version == 1
    ensures !Mentions(captured, key.fingerprint)
  {}

  /** The parts that a fingerprint's issue is made from are its row and the outdated rows of that fingerprint. */
  lemma PartsAreOutdated(db: Db, project: nat, captured: seq<Event>, fingerprint: nat, key: Key)
    requires Mentions(captured, fingerprint)
    ensures key in Parts(db, project, First(captured, fingerprint))
       <==> key in db.issues
            && (key == Key(project, fingerprint)
                || (Outdated(db.issues, project, captured, key)
                    && db.issues[key].issue.lastEvent.fingerprint == fingerprint))
  {
    var f := FirstPlace(captured, fingerprint);
    forall i | FirstWith(captured, i) && captured[i].fingerprint == fingerprint ensures i == f {
      OneFirst(captured, i, f);
    }
  }

  lemma OneFirst(captured: seq<Event>, i: int, j: int)
    requires FirstWith(captured, i) && FirstWith(captured, j) && captured[i].fingerprint == captured[j].fingerprint
    ensures i == j
  {}

  lemma {:induction false} FirstPlace(captured: seq<Event>, fingerprint: nat) returns (i: nat)
    requires Mentions(captured, fingerprint)
    ensures FirstWith(captured, i) && captured[i] == First(captured, fingerprint)
    decreases |captured|
  {
    var front, last := captured[..|captured| - 1], captured[|captured| - 1];
    assert captured == front + [last];
    MentionsAll(front, last);
    if Mentions(front, fingerprint) {
      i := FirstPlace(front, fingerprint);
    } else {
      i := |front|;
    }
    FirstWithSnoc(front, last, i);
  }
}
