/** What a whole batch makes of the version 1 rows it brings forward and of its own events. */
module BatchMigration {
  import opened Options
  import opened IssueLog
  import opened Sqlite
  import opened SqliteMigration

  /** The event of the batch whose fingerprint is migrated, the first that carries it. */
  function First(captured: seq<Event>, fingerprint: nat): (e: Event)
    requires Mentions(captured, fingerprint)
    ensures e.fingerprint == fingerprint
  {
    var front, last := captured[..|captured| - 1], captured[|captured| - 1];
    if Mentions(front, fingerprint) then First(front, fingerprint)
    else
      MentionsParts(captured);
      last
  }

  /** The version 1 rows that a batch brings forward. */
  function Claimed(db: Db, project: nat, captured: seq<Event>): set<Key> {
    if captured == [] then {}
    else
      var front, last := captured[..|captured| - 1], captured[|captured| - 1];
      Claimed(db, project, front) + if Mentions(front, last.fingerprint) then {} else Candidates(db, project, last)
  }

  /** The issue that an occurrence belongs to after the migration. */
  function NewHome(db: Db, project: nat, captured: seq<Event>, key: Key): Key {
    if key in Claimed(db, project, captured) && key in db.issues
    then Key(project, db.issues[key].issue.lastEvent.fingerprint) else key
  }

  ghost predicate TargetMerged(db: Db, m: Db, scan: Scan, project: nat, e: Event) {
    var to, from := Key(project, e.fingerprint), Found(db, scan, project, e);
    (forall i {:trigger from[i]} :: 0 <= i < |from| ==> from[i] in db.issues)
    && Find(m, to) == MergedRow(db, to, e.head, from)
  }

  /**
   The migration of a batch, without its steps: claimed rows are gone, each fingerprint of the batch has the row
   merged from what the database held before the call, other rows are as they were, and events follow their rows.
   */
  ghost predicate Migrated(db: Db, m: Db, scan: Scan, project: nat, captured: seq<Event>) {
    && (forall key: Key {:trigger Find(m, key)} :: !(key.project == project && Mentions(captured, key.fingerprint)) ==>
          Find(m, key) == if key in Claimed(db, project, captured) then None else Find(db, key))
    && (forall fingerprint: nat {:trigger Mentions(captured, fingerprint)} :: Mentions(captured, fingerprint) ==>
          TargetMerged(db, m, scan, project, First(captured, fingerprint)))
    && |m.events| == |db.events|
    && (forall i {:trigger m.events[i]} :: 0 <= i < |db.events| ==>
          m.events[i] == db.events[i].(key := NewHome(db, project, captured, db.events[i].key)))
  }

  /** Claimed rows are version 1 rows that hash to a fingerprint of the batch, so none is a target. */
  lemma {:induction false} ClaimedRows(db: Db, project: nat, captured: seq<Event>)
    ensures forall key {:trigger key in Claimed(db, project, captured)} :: key in Claimed(db, project, captured) ==>
              && key in db.issues && db.issues[key].version == 1 && key.project == project
              && Mentions(captured, db.issues[key].issue.lastEvent.fingerprint)
    decreases |captured|
  {
    if captured == [] {
    } else {
      var front, last := captured[..|captured| - 1], captured[|captured| - 1];
      ClaimedRows(db, project, front);
      MentionsParts(captured);
      assert [last][0].fingerprint == last.fingerprint;
      assert Mentions([last], last.fingerprint);
    }
  }

  lemma MergedIsVersionTwo(db: Db, to: Key, head: Head, from: seq<Key>)
    requires forall i {:trigger from[i]} :: 0 <= i < |from| ==> from[i] in db.issues
    ensures MergedRow(db, to, head, from).Some? && MergedRow(db, to, head, from).value.version == 1 ==>
              to in db.issues && db.issues[to].version == 1
  {}

  /** Migrating the other fingerprints of the batch leaves what the next one needs. */
  lemma SparedForNext(db: Db, m: Db, scan: Scan, project: nat, front: seq<Event>, last: Event)
    requires Sound(scan) && NoCollision(db, front + [last]) && Migrated(db, m, scan, project, front)
    requires !Mentions(front, last.fingerprint)
    ensures ExactCandidates(m, project, last) == ExactCandidates(db, project, last)
    ensures GroupedCandidates(m, project, last) == GroupedCandidates(db, project, last)
    ensures forall key :: key in Candidates(db, project, last) || key == Key(project, last.fingerprint) ==>
              Find(m, key) == Find(db, key) && key !in Claimed(db, project, front)
  {
    hide Claimed, Mentions, MergedRow;
    MentionsAll(front, last);
    ClaimedRows(db, project, front);
    forall key | key in db.issues && db.issues[key].version == 1
        && db.issues[key].issue.lastEvent.fingerprint == last.fingerprint
      ensures Find(m, key) == Find(db, key) && key !in Claimed(db, project, front)
    {
      assert !Mentions(front + [last], key.fingerprint);
    }
    forall key | key in m.issues && m.issues[key].version == 1 ensures Find(m, key) == Find(db, key) {
      if key.project == project && Mentions(front, key.fingerprint) {
        var e := First(front, key.fingerprint);
        assert TargetMerged(db, m, scan, project, e);
        MergedIsVersionTwo(db, key, e.head, Found(db, scan, project, e));
        assert Mentions(front + [last], key.fingerprint);
      }
    }
  }

  lemma MentionsAll(front: seq<Event>, last: Event)
    ensures forall fingerprint: nat :: Mentions(front + [last], fingerprint)
              <==> Mentions(front, fingerprint) || fingerprint == last.fingerprint
  {
    MentionsParts(front + [last]);
    assert (front + [last])[..|front + [last]| - 1] == front;
    assert [last][0].fingerprint == last.fingerprint;
  }

  /** The row merged for the next fingerprint is what the database before the call gives. */
  lemma {:induction false} MergedAlike(db: Db, m: Db, to: Key, head: Head, from: seq<Key>)
    requires forall i {:trigger from[i]} :: 0 <= i < |from| ==>
      from[i] in db.issues && Find(m, from[i]) == Find(db, from[i])
    requires Find(m, to) == Find(db, to)
    ensures forall i {:trigger from[i]} :: 0 <= i < |from| ==> from[i] in m.issues
    ensures MergedRow(m, to, head, from) == MergedRow(db, to, head, from)
    decreases |from|
  {
    forall i {:trigger from[i]} | 0 <= i < |from| ensures from[i] in m.issues {
      assert Find(m, from[i]) == Find(db, from[i]);
    }
    if from == [] {
    } else {
      var front, last := from[..|from| - 1], from[|from| - 1];
      assert forall i :: 0 <= i < |front| ==> front[i] == from[i];
      MergedAlike(db, m, to, head, front);
      assert Find(m, last) == Find(db, last);
    }
  }

  /** One more fingerprint is migrated. */
  lemma NextMigrated(db: Db, m: Db, scan: Scan, project: nat, front: seq<Event>, last: Event)
    requires Sound(scan) && NoCollision(db, front + [last]) && NoCollision(m, [last])
    requires Migrated(db, m, scan, project, front) && !Mentions(front, last.fingerprint)
    ensures Migrated(db, Migrate(m, scan, project, last), scan, project, front + [last])
  {
    hide Claimed, Mentions, MergedRow, MergeAll, Mergeable, NoCollision, ExactCandidates, GroupedCandidates, Candidate;
    var to, from, captured := Key(project, last.fingerprint), Found(m, scan, project, last), front + [last];
    var m' := Migrate(m, scan, project, last);
    SparedForNext(db, m, scan, project, front, last);
    MentionsAll(front, last);
    NoCollisionNoSelf(m, project, last);
    FoundIsMergeable(m, scan, project, last);
    MergeAllIs(m, to, last.head, from);
    ClaimedSnoc(db, project, front, last);
    assert from == Found(db, scan, project, last);
    forall key: Key {:trigger Find(m', key)} | !(key.project == project && Mentions(captured, key.fingerprint))
      ensures Find(m', key) == if key in Claimed(db, project, captured) then None else Find(db, key)
    {
      MergedElsewhere(m, m', to, last.head, from, key);
      assert key in from <==> key in Candidates(db, project, last);
    }
    forall fingerprint: nat {:trigger Mentions(captured, fingerprint)} | Mentions(captured, fingerprint)
      ensures TargetMerged(db, m', scan, project, First(captured, fingerprint))
    {
      FirstSnoc(front, last, fingerprint);
      if fingerprint == last.fingerprint {
        forall i {:trigger from[i]} | 0 <= i < |from|
          ensures from[i] in db.issues && Find(m, from[i]) == Find(db, from[i]) {
          assert from[i] in Candidates(db, project, last);
          CandidatesExist(db, project, last);
        }
        MergedAlike(db, m, to, last.head, from);
      } else {
        var key := Key(project, fingerprint);
        TargetsStay(db, project, last, captured, fingerprint);
        assert key in from <==> key in Candidates(db, project, last);
        MergedElsewhere(m, m', to, last.head, from, key);
        assert TargetMerged(db, m, scan, project, First(front, fingerprint));
      }
    }
    forall i {:trigger m'.events[i]} | 0 <= i < |db.events|
      ensures m'.events[i] == db.events[i].(key := NewHome(db, project, captured, db.events[i].key))
    {
      assert m.events[i] == db.events[i].(key := NewHome(db, project, front, db.events[i].key));
      assert m'.events[i] == Rekeyed(m.events[i], to, from);
      HomeSnoc(db, project, front, last, db.events[i].key);
      assert forall key :: key in from <==> key in Candidates(db, project, last);
    }
  }

  lemma ClaimedSnoc(db: Db, project: nat, front: seq<Event>, last: Event)
    ensures Claimed(db, project, front + [last])
         == Claimed(db, project, front)
            + if Mentions(front, last.fingerprint) then {} else Candidates(db, project, last)
  {
    assert (front + [last])[..|front + [last]| - 1] == front;
  }

  lemma MergedElsewhere(m: Db, m': Db, to: Key, head: Head, from: seq<Key>, key: Key)
    requires Mergeable(m, to, from) && MergedTo(m, m', to, head, from) && key != to
    ensures Find(m', key) == if key in from then None else Find(m, key)
  {
    hide Mergeable, MergedRow;
  }

  lemma CandidatesExist(db: Db, project: nat, e: Event)
    ensures forall key {:trigger key in Candidates(db, project, e)} :: key in Candidates(db, project, e) ==>
              key in db.issues && db.issues[key].version == 1
                  && db.issues[key].issue.lastEvent.fingerprint == e.fingerprint
  {}

  lemma TargetsStay(db: Db, project: nat, last: Event, captured: seq<Event>, fingerprint: nat)
    requires NoCollision(db, captured) && Mentions(captured, fingerprint)
    ensures Key(project, fingerprint) !in Candidates(db, project, last)
  {
    hide Mentions;
    CandidatesExist(db, project, last);
  }

  lemma FirstSnoc(front: seq<Event>, last: Event, fingerprint: nat)
    requires Mentions(front + [last], fingerprint)
    ensures First(front + [last], fingerprint)
         == if Mentions(front, fingerprint) then First(front, fingerprint) else last
  {
    assert (front + [last])[..|front + [last]| - 1] == front;
  }

  lemma HomeSnoc(db: Db, project: nat, front: seq<Event>, last: Event, key: Key)
    requires NoCollision(db, front + [last]) && !Mentions(front, last.fingerprint)
    ensures var home := NewHome(db, project, front, key);
            NewHome(db, project, front + [last], key)
            == if home in Candidates(db, project, last) then Key(project, last.fingerprint) else home
  {
    hide Claimed, Mentions;
    ClaimedRows(db, project, front);
    ClaimedSnoc(db, project, front, last);
    CandidatesExist(db, project, last);
    MentionsAll(front, last);
    if key in Claimed(db, project, front) {
      TargetsStay(db, project, last, front + [last], db.issues[key].issue.lastEvent.fingerprint);
    }
  }

  lemma NothingMigrated(db: Db, scan: Scan, project: nat)
    ensures Migrated(db, db, scan, project, [])
  {}

  lemma {:induction false} MigrateAllIs(db: Db, scan: Scan, project: nat, captured: seq<Event>)
    requires Sound(scan) && NoCollision(db, captured)
    ensures Migrated(db, MigrateAll(db, scan, project, captured), scan, project, captured)
    ensures NoCollision(MigrateAll(db, scan, project, captured), captured)
    decreases |captured|
  {
    if captured == [] {
      NothingMigrated(db, scan, project);
    } else {
      var front, last := captured[..|captured| - 1], captured[|captured| - 1];
      assert captured == front + [last];
      MentionsAll(front, last);
      hide Mentions, Migrated, Migrate;
      FrontNoCollision(db, front, last);
      MigrateAllIs(db, scan, project, front);
      var m := MigrateAll(db, scan, project, front);
      if Mentions(front, last.fingerprint) {
        SameMentions(db, m, scan, project, front, last);
      } else {
        StillNoCollision(db, m, scan, project, front, captured);
        FrontNoCollision(m, front, last);
        NextMigrated(db, m, scan, project, front, last);
        StillNoCollision(db, Migrate(m, scan, project, last), scan, project, captured, captured);
      }
    }
  }

  lemma FrontNoCollision(db: Db, front: seq<Event>, last: Event)
    requires NoCollision(db, front + [last])
    ensures NoCollision(db, front) && NoCollision(db, [last])
  {
    MentionsParts(front + [last]);
    assert (front + [last])[..|front + [last]| - 1] == front;
    hide Mentions;
  }

  /** Version 1 rows are only ever removed. */
  lemma StillNoCollision(db: Db, m: Db, scan: Scan, project: nat, done: seq<Event>, captured: seq<Event>)
    requires Migrated(db, m, scan, project, done) && NoCollision(db, captured)
    requires NoCollision(db, done)
    ensures NoCollision(m, captured)
  {
    hide Mentions, Claimed, MergedRow;
    forall key | key in m.issues && m.issues[key].version == 1 ensures !Mentions(captured, key.fingerprint) {
      if key.project == project && Mentions(done, key.fingerprint) {
        var e := First(done, key.fingerprint);
        assert TargetMerged(db, m, scan, project, e);
        MergedIsVersionTwo(db, key, e.head, Found(db, scan, project, e));
      }
      assert Find(m, key) == Find(db, key);
    }
  }

  /** An event whose fingerprint was migrated before changes nothing. */
  lemma SameMentions(db: Db, m: Db, scan: Scan, project: nat, front: seq<Event>, last: Event)
    requires Migrated(db, m, scan, project, front) && Mentions(front, last.fingerprint)
    requires NoCollision(m, front)
    ensures Migrated(db, m, scan, project, front + [last]) && NoCollision(m, front + [last])
  {
    hide Mentions, Claimed, MergedRow, Found;
    MentionsAll(front, last);
    ClaimedSnoc(db, project, front, last);
    forall fingerprint: nat {:trigger Mentions(front + [last], fingerprint)} | Mentions(front + [last], fingerprint)
      ensures TargetMerged(db, m, scan, project, First(front + [last], fingerprint))
    {
      FirstSnoc(front, last, fingerprint);
    }
    forall i {:trigger m.events[i]} | 0 <= i < |db.events|
      ensures m.events[i] == db.events[i].(key := NewHome(db, project, front + [last], db.events[i].key))
    {
      assert NewHome(db, project, front, db.events[i].key) == NewHome(db, project, front + [last], db.events[i].key);
    }
  }

  // ---------------------------------------------------------------- what a merged row is made from

  /** The rows that end up in the issue of a migrated event. */
  function Parts(db: Db, project: nat, e: Event): map<Key, Row> {
    map key | key in db.issues && (key in Candidates(db, project, e) || key == Key(project, e.fingerprint)) ::
      db.issues[key]
  }

  function PartsOf(db: Db, to: Key, from: seq<Key>): map<Key, Row> {
    map key | key in db.issues && (key in from || key == to) :: db.issues[key]
  }

  lemma TargetCounts(db: Db, to: Key)
    ensures Total(PartsOf(db, to, []), to.project) == if to in db.issues then db.issues[to].issue.occurrences else 0
  {
    hide Total;
    var none: map<Key, Row> := map[];
    NothingCounts(to.project);
    if to in db.issues {
      assert PartsOf(db, to, []) == none[to := db.issues[to]];
      TotalWith(none, to, db.issues[to], to.project);
      assert none - {to} == none;
    } else {
      assert PartsOf(db, to, []) == none;
    }
  }

  lemma OneMoreCounts(db: Db, to: Key, front: seq<Key>, last: Key)
    requires last in db.issues && last !in front && last != to && last.project == to.project
    ensures Total(PartsOf(db, to, front + [last]), to.project)
         == Total(PartsOf(db, to, front), to.project) + db.issues[last].issue.occurrences
  {
    hide Total;
    assert PartsOf(db, to, front + [last]) == PartsOf(db, to, front)[last := db.issues[last]];
    TotalWith(PartsOf(db, to, front), last, db.issues[last], to.project);
    assert PartsOf(db, to, front) - {last} == PartsOf(db, to, front);
  }

  /** The merged count is the sum of the parts' counts. */
  lemma {:induction false} MergedCount(db: Db, to: Key, head: Head, from: seq<Key>)
    requires Mergeable(db, to, from)
    ensures forall i {:trigger from[i]} :: 0 <= i < |from| ==> from[i] in db.issues
    ensures var merged := MergedRow(db, to, head, from);
            Total(PartsOf(db, to, from), to.project) == if merged.Some? then merged.value.issue.occurrences else 0
    decreases |from|
  {
    hide Total, PartsOf;
    SourcesExist(db, to, from);
    if from == [] {
      TargetCounts(db, to);
    } else {
      var front, last := from[..|from| - 1], from[|from| - 1];
      assert from == front + [last];
      MergeablePrefix(db, to, from);
      MergedCount(db, to, head, front);
      OneMoreCounts(db, to, front, last);
    }
  }

  lemma NothingCounts(project: nat)
    ensures Total(map[], project) == 0
  {}

  /** The merged row keeps the key and the head of a row that was there, and is a version 2 row. */
  lemma {:induction false} MergedHead(db: Db, to: Key, head: Head, from: seq<Key>)
    requires forall i {:trigger from[i]} :: 0 <= i < |from| ==> from[i] in db.issues
    ensures var merged := MergedRow(db, to, head, from);
            && (merged.Some? <==> to in db.issues || from != [])
            && (merged.Some? ==>
                  && merged.value.issue.head == (if to in db.issues then db.issues[to].issue.head else head)
                  && merged.value.issue.key == (if to in db.issues then db.issues[to].issue.key else to)
                  && merged.value.version == (if from == [] then db.issues[to].version else 2))
    decreases |from|
  {
    if from == [] {
    } else {
      MergedHead(db, to, head, from[..|from| - 1]);
    }
  }

  // ---------------------------------------------------------------- what the batch adds

  /** The number of events of the batch that carry the fingerprint. */
  function Times(captured: seq<Event>, fingerprint: nat): nat {
    if captured == [] then 0
    else
      var last := captured[|captured| - 1];
      Times(captured[..|captured| - 1], fingerprint) + if last.fingerprint == fingerprint then 1 else 0
  }

  predicate Carries(captured: seq<Event>, fingerprint: nat, i: int) {
    0 <= i < |captured| && captured[i].fingerprint == fingerprint
  }

  ghost predicate NoneAt(captured: seq<Event>, fingerprint: nat, start: int, time: int) {
    forall i {:trigger Carries(captured, fingerprint, i)} :: start <= i && Carries(captured, fingerprint, i) ==>
      captured[i].receivedAt != time
  }

  /** The last event of the fingerprint in the batch that was received at `time`. */
  ghost predicate LastAt(captured: seq<Event>, fingerprint: nat, i: int, time: int) {
    Carries(captured, fingerprint, i) && captured[i].receivedAt == time && NoneAt(captured, fingerprint, i + 1, time)
  }

  /** What the upserts of a batch make of the row of one fingerprint. */
  ghost predicate Absorbed(found: Option<Row>, captured: seq<Event>, fingerprint: nat, after: Option<Row>) {
    if !Mentions(captured, fingerprint) then after == found
    else
      && after.Some? && after.value.version == 2
      && var issue := after.value.issue;
      && issue.head == (if found.Some? then found.value.issue.head else First(captured, fingerprint).head)
      && issue.occurrences == (if found.Some? then found.value.issue.occurrences else 0) + Times(captured, fingerprint)
      && issue.status == (if found.Some? && found.value.issue.status == Ignored then Ignored else Open)
      && (found.Some? ==>
            issue.firstSeen <= found.value.issue.firstSeen && found.value.issue.lastSeen <= issue.lastSeen)
      && (forall i {:trigger Carries(captured, fingerprint, i)} :: Carries(captured, fingerprint, i) ==>
            issue.firstSeen <= captured[i].receivedAt <= issue.lastSeen)
      && ((found.Some? && issue.firstSeen == found.value.issue.firstSeen)
          || exists i :: Carries(captured, fingerprint, i) && issue.firstSeen == captured[i].receivedAt)
      && ((found.Some? && issue.lastSeen == found.value.issue.lastSeen && issue.lastEvent == found.value.issue.lastEvent
           && NoneAt(captured, fingerprint, 0, issue.lastSeen))
          || exists i :: LastAt(captured, fingerprint, i, issue.lastSeen) && issue.lastEvent == captured[i])
  }

  lemma {:induction false} AppendAllAbsorbs(db: Db, project: nat, captured: seq<Event>, fingerprint: nat)
    ensures var key := Key(project, fingerprint);
            Absorbed(Find(db, key), captured, fingerprint, Find(AppendAll(db, project, captured), key))
    decreases |captured|
  {
    if captured == [] {
    } else {
      hide Absorbed, Append;
      var front, last := captured[..|captured| - 1], captured[|captured| - 1];
      var key, before := Key(project, fingerprint), AppendAll(db, project, front);
      assert captured == front + [last];
      AppendAllAbsorbs(db, project, front, fingerprint);
      AbsorbedOneMore(Find(db, key), front, last, project, fingerprint, Find(before, key));
      AppendedRow(before, project, last, key);
    }
  }

  lemma AppendedRow(db: Db, project: nat, e: Event, key: Key)
    ensures Find(Append(db, project, e), key)
         == if key == Key(project, e.fingerprint) then Some(UpsertRow(Find(db, key), project, e)) else Find(db, key)
  {}

  lemma AbsorbedOneMore(found: Option<Row>, front: seq<Event>, last: Event, project: nat, fingerprint: nat,
                        before: Option<Row>)
    requires Absorbed(found, front, fingerprint, before)
    ensures Absorbed(found, front + [last], fingerprint,
                     if last.fingerprint == fingerprint then Some(UpsertRow(before, project, last)) else before)
  {
    hide Mentions, First;
    var captured := front + [last];
    MentionsAll(front, last);
    assert captured[..|captured| - 1] == front;
    assert forall i :: Carries(captured, fingerprint, i)
                       <==> Carries(front, fingerprint, i) || (i == |front| && last.fingerprint == fingerprint);
    if Mentions(captured, fingerprint) {
      FirstSnoc(front, last, fingerprint);
    } else {
      NeverCarried(front, fingerprint);
    }
    if !Mentions(front, fingerprint) {
      NeverCarried(front, fingerprint);
    }
    if last.fingerprint == fingerprint {
      assert Carries(captured, fingerprint, |front|);
    }
  }

  lemma {:induction false} NeverCarried(captured: seq<Event>, fingerprint: nat)
    requires !Mentions(captured, fingerprint)
    ensures Times(captured, fingerprint) == 0 && forall i :: !Carries(captured, fingerprint, i)
    decreases |captured|
  {
    if captured == [] {
    } else {
      MentionsParts(captured);
      assert [captured[|captured| - 1]][0] == captured[|captured| - 1];
      NeverCarried(captured[..|captured| - 1], fingerprint);
    }
  }

  /** An issue made from version 1 rows, the row that was there, and the events of a batch. */
  ghost predicate Gathers(parts: map<Key, Row>, captured: seq<Event>, key: Key, issue: Issue) {
    && Mentions(captured, key.fingerprint)
    && issue.head == (if key in parts then parts[key].issue.head else First(captured, key.fingerprint).head)
    && issue.occurrences == Total(parts, key.project) + Times(captured, key.fingerprint)
    && issue.status == (if exists part :: part in parts && parts[part].issue.status == Ignored then Ignored else Open)
    && (forall part :: part in parts ==>
          issue.firstSeen <= parts[part].issue.firstSeen && parts[part].issue.lastSeen <= issue.lastSeen)
    && (forall i {:trigger Carries(captured, key.fingerprint, i)} :: Carries(captured, key.fingerprint, i) ==>
          issue.firstSeen <= captured[i].receivedAt <= issue.lastSeen)
    && ((exists part :: part in parts && issue.firstSeen == parts[part].issue.firstSeen)
        || exists i :: Carries(captured, key.fingerprint, i) && issue.firstSeen == captured[i].receivedAt)
    && ((exists part :: part in parts && issue.lastSeen == parts[part].issue.lastSeen
                        && issue.lastEvent == parts[part].issue.lastEvent
                        && NoneAt(captured, key.fingerprint, 0, issue.lastSeen))
        || exists i :: LastAt(captured, key.fingerprint, i, issue.lastSeen) && issue.lastEvent == captured[i])
  }

  lemma MergedThenAbsorbed(db: Db, to: Key, head: Head, from: seq<Key>, captured: seq<Event>, after: Option<Row>)
    requires Mergeable(db, to, from) && Mentions(captured, to.fingerprint)
    requires head == First(captured, to.fingerprint).head
    requires forall i {:trigger from[i]} :: 0 <= i < |from| ==> from[i] in db.issues
    requires Absorbed(MergedRow(db, to, head, from), captured, to.fingerprint, after)
    ensures after.Some? && Gathers(PartsOf(db, to, from), captured, to, after.value.issue)
  {
    hide Mergeable, MergedRow, Total, Mentions, Times;
    var merged, parts := MergedRow(db, to, head, from), PartsOf(db, to, from);
    MergedCount(db, to, head, from);
    MergedHead(db, to, head, from);
    if merged.Some? {
      MergedRowCombines(db, to, head, from);
      assert forall part :: part in parts <==> Source(db, to, from, part);
    } else {
      assert parts == map[];
    }
  }

  /**
   The issue of each fingerprint that a batch carries, after recording it: its parts are the row it had and the
   version 1 rows that the migration of that fingerprint finds in the database as it was before the call.
   */
  lemma RecordedAggregate(db: Db, scan: Scan, n: nat, project: nat, captured: seq<Event>, fingerprint: nat)
    requires Sound(scan) && NoCollision(db, captured) && Mentions(captured, fingerprint)
    ensures var key, after := Key(project, fingerprint), RecordBatch(db, scan, n, project, captured).issues;
            && key in after
            && Gathers(Parts(db, project, First(captured, fingerprint)), captured, key, after[key].issue)
  {
    hide MigrateAll, AppendAll, TrimTouched, Mentions, NoCollision, MergedRow, Gathers, Absorbed, Mergeable;
    var key, e := Key(project, fingerprint), First(captured, fingerprint);
    var from := Found(db, scan, project, e);
    MigrateAllIs(db, scan, project, captured);
    assert TargetMerged(db, MigrateAll(db, scan, project, captured), scan, project, e);
    AppendAllAbsorbs(MigrateAll(db, scan, project, captured), project, captured, fingerprint);
    FirstNoCollision(db, captured, fingerprint);
    NoCollisionNoSelf(db, project, e);
    FoundIsMergeable(db, scan, project, e);
    MergedThenAbsorbed(db, key, e.head, from, captured,
                       Find(AppendAll(MigrateAll(db, scan, project, captured), project, captured), key));
    assert PartsOf(db, key, from) == Parts(db, project, e);
  }

  // ---------------------------------------------------------------- the order of the candidates

  lemma CombinesOneWay(db: Db, to: Key, a: seq<Key>, b: seq<Key>, m: Issue, m': Issue)
    requires forall i {:trigger a[i]} :: 0 <= i < |a| ==> a[i] in db.issues
    requires forall i {:trigger b[i]} :: 0 <= i < |b| ==> b[i] in db.issues
    requires (forall key :: key in a <==> key in b) && Combines(db, to, a, m) && Combines(db, to, b, m')
    ensures m.status == m'.status && m.firstSeen == m'.firstSeen && m.lastSeen == m'.lastSeen
  {
    assert forall key :: Source(db, to, a, key) <==> Source(db, to, b, key);
    var f :| Source(db, to, a, f) && db.issues[f].issue.firstSeen == m.firstSeen;
    var f' :| Source(db, to, b, f') && db.issues[f'].issue.firstSeen == m'.firstSeen;
    var l :| Source(db, to, a, l) && db.issues[l].issue.lastSeen == m.lastSeen;
    var l' :| Source(db, to, b, l') && db.issues[l'].issue.lastSeen == m'.lastSeen;
    var s :| Source(db, to, a, s) && db.issues[s].issue.status == m.status;
    var s' :| Source(db, to, b, s') && db.issues[s'].issue.status == m'.status;
  }

  predicate SameButLast(a: Row, b: Row) {
    a.version == b.version && a.issue.(lastEvent := b.issue.lastEvent) == b.issue
  }

  /** The order in which candidates are read leaves its mark on nothing but the last events. */
  ghost predicate AlmostSame(x: Db, y: Db) {
    && x.events == y.events
    && (forall key {:trigger key in x.issues} {:trigger key in y.issues} :: key in x.issues <==> key in y.issues)
    && (forall key {:trigger x.issues[key]} :: key in x.issues ==> SameButLast(x.issues[key], y.issues[key]))
  }

  lemma MergedOrderFree(db: Db, to: Key, head: Head, a: seq<Key>, b: seq<Key>)
    requires Mergeable(db, to, a) && Mergeable(db, to, b) && forall key :: key in a <==> key in b
    ensures forall i {:trigger a[i]} :: 0 <= i < |a| ==> a[i] in db.issues
    ensures forall i {:trigger b[i]} :: 0 <= i < |b| ==> b[i] in db.issues
    ensures var x, y := MergedRow(db, to, head, a), MergedRow(db, to, head, b);
            (x == None && y == None) || (x.Some? && y.Some? && SameButLast(x.value, y.value))
  {
    hide Mergeable, MergedRow, Total, Combines;
    MergedCount(db, to, head, a);
    MergedCount(db, to, head, b);
    MergedHead(db, to, head, a);
    MergedHead(db, to, head, b);
    assert PartsOf(db, to, a) == PartsOf(db, to, b);
    assert a != [] ==> a[0] in b;
    assert b != [] ==> b[0] in a;
    if MergedRow(db, to, head, a).Some? {
      MergedRowCombines(db, to, head, a);
      MergedRowCombines(db, to, head, b);
      CombinesOneWay(db, to, a, b, MergedRow(db, to, head, a).value.issue, MergedRow(db, to, head, b).value.issue);
    }
  }

  /** However the database orders the candidates, a batch's migration ends in the same tables but for last events. */
  lemma MigrationOrderFree(db: Db, a: Scan, b: Scan, project: nat, captured: seq<Event>)
    requires Sound(a) && Sound(b) && NoCollision(db, captured)
    ensures AlmostSame(MigrateAll(db, a, project, captured), MigrateAll(db, b, project, captured))
  {
    hide Claimed, MergedRow, Mentions, MigrateAll, NewHome, NoCollision;
    var x, y := MigrateAll(db, a, project, captured), MigrateAll(db, b, project, captured);
    MigrateAllIs(db, a, project, captured);
    MigrateAllIs(db, b, project, captured);
    forall key: Key
      ensures (key in x.issues <==> key in y.issues) && (key in x.issues ==> SameButLast(x.issues[key], y.issues[key]))
    {
      var left, right := Find(x, key), Find(y, key);
      if key.project == project && Mentions(captured, key.fingerprint) {
        var e := First(captured, key.fingerprint);
        assert TargetMerged(db, x, a, project, e) && TargetMerged(db, y, b, project, e);
        FirstNoCollision(db, captured, key.fingerprint);
        NoCollisionNoSelf(db, project, e);
        FoundIsMergeable(db, a, project, e);
        FoundIsMergeable(db, b, project, e);
        MergedOrderFree(db, key, e.head, Found(db, a, project, e), Found(db, b, project, e));
      }
    }
    forall i | 0 <= i < |db.events| ensures x.events[i] == y.events[i] {}
    assert x.events == y.events;
  }

  lemma FirstNoCollision(db: Db, captured: seq<Event>, fingerprint: nat)
    requires NoCollision(db, captured) && Mentions(captured, fingerprint)
    ensures NoCollision(db, [First(captured, fingerprint)])
  {
    var e := First(captured, fingerprint);
    forall key | key in db.issues && db.issues[key].version == 1 ensures !Mentions([e], key.fingerprint) {
      assert !Mentions(captured, key.fingerprint);
    }
  }

  lemma AppendAlmostSame(x: Db, y: Db, project: nat, e: Event)
    requires AlmostSame(x, y)
    ensures AlmostSame(Append(x, project, e), Append(y, project, e))
  {}

  lemma {:induction false} AppendAllAlmostSame(x: Db, y: Db, project: nat, captured: seq<Event>)
    requires AlmostSame(x, y)
    ensures AlmostSame(AppendAll(x, project, captured), AppendAll(y, project, captured))
    decreases |captured|
  {
    hide AlmostSame, Append;
    if captured == [] {
    } else {
      var front, last := captured[..|captured| - 1], captured[|captured| - 1];
      AppendAllAlmostSame(x, y, project, front);
      AppendAlmostSame(AppendAll(x, project, front), AppendAll(y, project, front), project, last);
    }
  }

  /** The same holds of recording the batch. */
  lemma RecordingOrderFree(db: Db, a: Scan, b: Scan, n: nat, project: nat, captured: seq<Event>)
    requires Sound(a) && Sound(b) && NoCollision(db, captured)
    ensures AlmostSame(RecordBatch(db, a, n, project, captured), RecordBatch(db, b, n, project, captured))
  {
    hide MigrateAll, AppendAll, TrimTouched;
    MigrationOrderFree(db, a, b, project, captured);
    AppendAllAlmostSame(MigrateAll(db, a, project, captured), MigrateAll(db, b, project, captured), project, captured);
  }
}
