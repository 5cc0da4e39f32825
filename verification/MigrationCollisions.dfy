/**
 What it takes for a migration to go wrong: a version 1 row under a fingerprint that the current algorithm computes,
 which is a collision of the hash. A row that is a candidate for itself would be deleted with its occurrences.
 */
module MigrationCollisions {
  import opened IssueLog
  import opened Sqlite
  import opened SqliteMigration
  import opened MigrationOrder
  import F = Fingerprint

  // ---------------------------------------------------------------- collisions

  /** Version 1 rows are stored under hashes of version 1 bytes, and a batch carries hashes of version 2 bytes. */
  ghost predicate Hashed(hash: string -> nat, db: Db, captured: seq<Event>) {
    && (forall key {:trigger key in db.issues} :: key in db.issues && db.issues[key].version == 1 ==>
          exists x {:trigger F.LegacyParts(x)} :: key.fingerprint == hash(F.Join(F.LegacyParts(x))))
    && (forall i {:trigger captured[i]} :: 0 <= i < |captured| ==>
          exists x {:trigger F.Parts(x)} :: captured[i].fingerprint == hash(F.Preimage(F.Parts(x))))
  }

  /** Where NoCollision fails, two different inputs hash alike. */
  lemma FailureIsACollision(hash: string -> nat, db: Db, captured: seq<Event>) returns (a: string, b: string)
    requires Hashed(hash, db, captured) && !NoCollision(db, captured)
    ensures a != b && hash(a) == hash(b)
  {
    hide F.LegacyParts, F.Parts, F.Join, F.Preimage;
    var key :| key in db.issues && db.issues[key].version == 1 && Mentions(captured, key.fingerprint);
    var i :| 0 <= i < |captured| && captured[i].fingerprint == key.fingerprint;
    var x: F.Event :| key.fingerprint == hash(F.Join(F.LegacyParts(x)));
    var y: F.Event :| captured[i].fingerprint == hash(F.Preimage(F.Parts(y)));
    F.VersionsAreApart(y, x);
    a, b := F.Join(F.LegacyParts(x)), F.Preimage(F.Parts(y));
  }

  // ---------------------------------------------------------------- a row that is merged into itself

  predicate HasEvent(events: seq<EventRow>, key: Key) {
    exists i :: 0 <= i < |events| && events[i].key == key
  }

  /**
   Some order of the candidates deletes occurrences: the issue is one of its own candidates, and at its turn it has
   occurrences, of its own or from a candidate that can come before it.
   */
  predicate CanLose(db: Db, project: nat, e: Event) {
    var to := Key(project, e.fingerprint);
    && MergesIntoItself(db, project, e)
    && (HasEvent(db.events, to)
        || (to in GroupedCandidates(db, project, e)
            && exists i :: 0 <= i < |db.events| && db.events[i].key in Candidates(db, project, e)))
  }

  lemma {:induction false} FilterShrinks(events: seq<EventRow>, keep: EventRow -> bool)
    ensures |Filter(events, keep)| <= |events|
    ensures (exists i :: 0 <= i < |events| && !keep(events[i])) ==> |Filter(events, keep)| < |events|
    decreases |events|
  {
    if events == [] {
    } else {
      var front := events[..|events| - 1];
      FilterShrinks(front, keep);
      forall i | 0 <= i < |front| && !keep(events[i]) ensures |Filter(front, keep)| < |front| {
        assert !keep(front[i]);
      }
    }
  }

  lemma CascadeShrinks(events: seq<EventRow>, gone: set<Key>, key: Key)
    ensures |Cascade(events, gone)| <= |events|
    ensures key in gone && HasEvent(events, key) ==> |Cascade(events, gone)| < |events|
  {
    var keep := (row: EventRow) => row.key !in gone;
    FilterShrinks(events, keep);
    if key in gone && HasEvent(events, key) {
      var i :| 0 <= i < |events| && events[i].key == key;
      assert !keep(events[i]);
    }
  }

  lemma MergeShrinks(db: Db, to: Key, head: Head, from: Key)
    ensures |Merge(db, to, head, from).events| <= |db.events|
    ensures from != to ==> (HasEvent(db.events, to) ==> HasEvent(Merge(db, to, head, from).events, to))
    ensures from == to && HasEvent(db.events, to) ==> |Merge(db, to, head, from).events| < |db.events|
  {
    var moved := MoveEvents(db.events, to, from);
    CascadeShrinks(moved, {from}, to);
    if from != to {
      NothingCascades(db.events, to, from);
      if HasEvent(db.events, to) {
        var i :| 0 <= i < |db.events| && db.events[i].key == to;
        assert moved[i].key == to;
      }
    } else if HasEvent(db.events, to) {
      var i :| 0 <= i < |db.events| && db.events[i].key == to;
      assert moved[i].key == to;
    }
  }

  lemma {:induction false} SelfMergeLoses(db: Db, to: Key, head: Head, from: seq<Key>)
    requires HasEvent(db.events, to)
    ensures |MergeAll(db, to, head, from).events| <= |db.events|
    ensures to in from ==> |MergeAll(db, to, head, from).events| < |db.events|
    ensures to !in from ==> HasEvent(MergeAll(db, to, head, from).events, to)
    decreases |from|
  {
    if from == [] {
    } else {
      hide Merge, HasEvent;
      var front, last := from[..|from| - 1], from[|from| - 1];
      assert from == front + [last];
      SelfMergeLoses(db, to, head, front);
      MergeShrinks(MergeAll(db, to, head, front), to, head, last);
    }
  }

  lemma MergeMovesOver(db: Db, to: Key, head: Head, from: Key, key: Key)
    requires from != to && HasEvent(db.events, key)
    ensures HasEvent(Merge(db, to, head, from).events, if key == from then to else key)
  {
    NothingCascades(db.events, to, from);
    var i :| 0 <= i < |db.events| && db.events[i].key == key;
    assert MoveEvents(db.events, to, from)[i].key == if key == from then to else key;
  }

  /** The occurrences of a candidate have moved to the target before the target's own turn. */
  lemma {:induction false} MergeAllMovesOver(db: Db, to: Key, head: Head, from: seq<Key>, key: Key)
    requires to !in from && HasEvent(db.events, key)
    ensures |MergeAll(db, to, head, from).events| <= |db.events|
    ensures HasEvent(MergeAll(db, to, head, from).events, if key in from then to else key)
    decreases |from|
  {
    hide Merge, HasEvent;
    if from == [] {
    } else {
      var front, last := from[..|from| - 1], from[|from| - 1];
      assert from == front + [last];
      assert last == from[|front|];
      MergeAllMovesOver(db, to, head, front, key);
      var before := MergeAll(db, to, head, front);
      MergeShrinks(before, to, head, last);
      MergeMovesOver(before, to, head, last, if key in front then to else key);
    }
  }

  lemma {:induction false} MergeAllConcat(db: Db, to: Key, head: Head, a: seq<Key>, b: seq<Key>)
    ensures MergeAll(db, to, head, a + b) == MergeAll(MergeAll(db, to, head, a), to, head, b)
    decreases |b|
  {
    if b == [] {
      assert a + b == a;
    } else {
      assert (a + b)[..|a + b| - 1] == a + b[..|b| - 1];
      MergeAllConcat(db, to, head, a, b[..|b| - 1]);
    }
  }

  /** Rows without occurrences are merged without touching the events, even into themselves. */
  lemma {:induction false} EmptyRowsMerge(db: Db, to: Key, head: Head, from: seq<Key>)
    requires forall i {:trigger db.events[i]} :: 0 <= i < |db.events| ==> db.events[i].key !in from
    ensures MergeAll(db, to, head, from).events == db.events
    decreases |from|
  {
    if from == [] {
    } else {
      var front, last := from[..|from| - 1], from[|from| - 1];
      assert from == front + [last];
      EmptyRowsMerge(db, to, head, front);
      assert MoveEvents(db.events, to, last) == db.events;
      CascadeNone(db.events, {last});
    }
  }

  /** With the target read last, all other candidates are read before it. */
  lemma OthersFirst(exact: seq<Key>, grouped: seq<Key>, to: Key) returns (front: seq<Key>)
    requires to !in exact && grouped != [] && grouped[|grouped| - 1] == to
    requires forall i, j :: 0 <= i < j < |grouped| ==> grouped[i] != grouped[j]
    ensures exact + grouped == front + [to] && to !in front
  {
    front := exact + grouped[..|grouped| - 1];
  }

  /** An occurrence of another candidate has moved to the target when that is merged into itself. */
  lemma MovedThenLost(db: Db, to: Key, head: Head, front: seq<Key>, key: Key)
    requires to !in front && HasEvent(db.events, key) && key in front + [to]
    ensures |MergeAll(db, to, head, front + [to]).events| < |db.events|
  {
    hide MergeAll, HasEvent;
    MergeAllMovesOver(db, to, head, front, key);
    MergeAllConcat(db, to, head, front, [to]);
    LastMerge(MergeAll(db, to, head, front), to, head);
  }

  lemma LosesUnderSomeScan(db: Db, project: nat, e: Event)
    requires CanLose(db, project, e)
    ensures var scan := ScanEndingWith(Key(project, e.fingerprint));
            Sound(scan) && |Migrate(db, scan, project, e).events| < |db.events|
  {
    hide MergeAll, Candidate;
    var to := Key(project, e.fingerprint);
    var scan := ScanEndingWith(to);
    var exact, grouped := ExactCandidates(db, project, e), GroupedCandidates(db, project, e);
    assert Lists(scan(exact), exact) && Lists(scan(grouped), grouped);
    SelfIsFound(db, scan, project, e);
    if HasEvent(db.events, to) {
      SelfMergeLoses(db, to, e.head, Found(db, scan, project, e));
    } else {
      assert to in grouped && to !in exact;
      assert scan(grouped) == EndingWith(to, grouped);
      hide ExactCandidates, GroupedCandidates;
      var i :| 0 <= i < |db.events| && db.events[i].key in Candidates(db, project, e);
      var front := OthersFirst(scan(exact), scan(grouped), to);
      assert db.events[i].key in front + [to];
      MovedThenLost(db, to, e.head, front, db.events[i].key);
    }
  }

  lemma LastMerge(db: Db, to: Key, head: Head)
    requires HasEvent(db.events, to)
    ensures |MergeAll(db, to, head, [to]).events| < |db.events|
  {
    MergeShrinks(db, to, head, to);
    assert [to][..0] == [];
    assert MergeAll(db, to, head, []) == db;
  }

  lemma {:induction false} ListedSize(keys: seq<Key>, s: set<Key>)
    requires Lists(keys, s)
    ensures |keys| == |s|
    decreases |keys|
  {
    if keys == [] {
      assert s == {};
    } else {
      var front, last := keys[..|keys| - 1], keys[|keys| - 1];
      assert keys == front + [last];
      ListedSize(front, s - {last});
    }
  }

  lemma OneListed(keys: seq<Key>, only: Key)
    requires Lists(keys, {only})
    ensures keys == [only]
  {
    ListedSize(keys, {only});
    assert keys[0] in keys;
  }

  /** The exact candidate is merged into itself first; without occurrences, only its row is lost. */
  lemma ExactSelfKeeps(db: Db, scan: Scan, project: nat, e: Event)
    requires Sound(scan) && Key(project, e.fingerprint) in ExactCandidates(db, project, e)
    requires !HasEvent(db.events, Key(project, e.fingerprint))
    ensures |Migrate(db, scan, project, e).events| == |db.events|
  {
    hide MergeAll;
    var to := Key(project, e.fingerprint);
    var exact, grouped := ExactCandidates(db, project, e), GroupedCandidates(db, project, e);
    assert Lists(scan(exact), exact) && Lists(scan(grouped), grouped);
    assert exact == {to};
    OneListed(scan(exact), to);
    MergeAllConcat(db, to, e.head, [to], scan(grouped));
    EmptyRowsMerge(db, to, e.head, [to]);
    RowGone(db, to, e.head);
    var after := MergeAll(db, to, e.head, [to]);
    forall i {:trigger scan(grouped)[i]} | 0 <= i < |scan(grouped)|
      ensures scan(grouped)[i] in grouped && scan(grouped)[i] != to && scan(grouped)[i] in after.issues
      ensures after.issues[scan(grouped)[i]] == db.issues[scan(grouped)[i]]
    {
      assert scan(grouped)[i] in scan(grouped);
    }
    MergeAllIs(after, to, e.head, scan(grouped));
  }

  lemma RowGone(db: Db, to: Key, head: Head)
    ensures forall key {:trigger key in MergeAll(db, to, head, [to]).issues} :: key != to ==>
              (key in MergeAll(db, to, head, [to]).issues <==> key in db.issues)
              && (key in db.issues ==> MergeAll(db, to, head, [to]).issues[key] == db.issues[key])
  {
    assert [to][..0] == [];
    assert MergeAll(db, to, head, []) == db;
  }

  lemma KeepsUnderEveryScan(db: Db, scan: Scan, project: nat, e: Event)
    requires Sound(scan) && !CanLose(db, project, e)
    ensures |Migrate(db, scan, project, e).events| == |db.events|
  {
    hide MergeAll, Mergeable, HasEvent, MergedRow;
    var to := Key(project, e.fingerprint);
    var exact, grouped := ExactCandidates(db, project, e), GroupedCandidates(db, project, e);
    var from := Found(db, scan, project, e);
    if !MergesIntoItself(db, project, e) {
      FoundIsMergeable(db, scan, project, e);
      MergeAllIs(db, to, e.head, from);
    } else if to in exact {
      ExactSelfKeeps(db, scan, project, e);
    } else {
      assert Lists(scan(exact), exact) && Lists(scan(grouped), grouped);
      EmptyRowsMerge(db, to, e.head, from);
    }
  }

  /** Which migrations keep every occurrence, whatever the order of the candidates. */
  lemma MigrationLosesNoEventExactly(db: Db, project: nat, e: Event)
    ensures (forall scan: Scan {:trigger Sound(scan)} :: Sound(scan) ==>
               |Migrate(db, scan, project, e).events| == |db.events|)
            <==> !CanLose(db, project, e)
  {
    hide Migrate, CanLose;
    if CanLose(db, project, e) {
      LosesUnderSomeScan(db, project, e);
      assert Sound(ScanEndingWith(Key(project, e.fingerprint)));
    } else {
      forall scan: Scan {:trigger Sound(scan)} | Sound(scan)
        ensures |Migrate(db, scan, project, e).events| == |db.events|
      {
        KeepsUnderEveryScan(db, scan, project, e);
      }
    }
  }

  lemma SelfIsFound(db: Db, scan: Scan, project: nat, e: Event)
    requires Sound(scan) && MergesIntoItself(db, project, e)
    ensures Key(project, e.fingerprint) in Found(db, scan, project, e) && Key(project, e.fingerprint) in db.issues
  {
    var exact, grouped := ExactCandidates(db, project, e), GroupedCandidates(db, project, e);
    assert Lists(scan(exact), exact) && Lists(scan(grouped), grouped);
  }
}
