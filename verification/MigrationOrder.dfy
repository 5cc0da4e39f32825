/**
 The order in which a migration reads its candidates decides nothing but the last event of the merged issue, and
 that only between grouped candidates that were last seen together.
 */
module MigrationOrder {
  import opened Options
  import opened IssueLog
  import opened Sqlite
  import opened SqliteMigration

  // ---------------------------------------------------------------- the last event of a merged row

  /** What a merged row is made from, in the order in which it is read. */
  function Order(db: Db, to: Key, from: seq<Key>): seq<Key> {
    (if to in db.issues then [to] else []) + from
  }

  /** The last of the rows in `order` that none of them was seen after. */
  predicate LastOfLatest(issues: map<Key, Row>, order: seq<Key>, k: nat) {
    && k < |order|
    && (forall i {:trigger order[i]} :: 0 <= i < |order| ==> order[i] in issues)
    && (forall i {:trigger order[i]} :: 0 <= i < |order| ==>
          issues[order[i]].issue.lastSeen <= issues[order[k]].issue.lastSeen)
    && (forall i {:trigger order[i]} :: k < i < |order| ==>
          issues[order[i]].issue.lastSeen < issues[order[k]].issue.lastSeen)
  }

  lemma {:induction false} SomeLastOfLatest(issues: map<Key, Row>, order: seq<Key>) returns (k: nat)
    requires order != [] && forall i {:trigger order[i]} :: 0 <= i < |order| ==> order[i] in issues
    ensures LastOfLatest(issues, order, k)
    decreases |order|
  {
    var last := |order| - 1;
    if last == 0 {
      k := 0;
    } else {
      var front := order[..last];
      assert forall i :: 0 <= i < last ==> front[i] == order[i];
      k := SomeLastOfLatest(issues, front);
      if issues[order[last]].issue.lastSeen >= issues[order[k]].issue.lastSeen {
        k := last;
      }
    }
  }

  /** Of the rows last seen at the greatest time, the one read last provides the last event. */
  lemma {:induction false} LastEventFollowsOrder(db: Db, to: Key, head: Head, from: seq<Key>, k: nat)
    requires forall i {:trigger from[i]} :: 0 <= i < |from| ==> from[i] in db.issues
    requires LastOfLatest(db.issues, Order(db, to, from), k)
    ensures var merged, winner := MergedRow(db, to, head, from), db.issues[Order(db, to, from)[k]].issue;
            merged.Some? && merged.value.issue.lastSeen == winner.lastSeen
                && merged.value.issue.lastEvent == winner.lastEvent
    decreases |from|
  {
    if from == [] {
      assert Order(db, to, from) == [to];
    } else {
      var front, last := from[..|from| - 1], from[|from| - 1];
      var order, before := Order(db, to, from), Order(db, to, front);
      assert order == before + [last];
      if before == [] {
        assert front == [] && to !in db.issues;
      } else {
        assert forall i :: 0 <= i < |before| ==> order[i] == before[i];
        assert order[|before|] == last;
        var j := SomeLastOfLatest(db.issues, before);
        LastEventFollowsOrder(db, to, head, front, j);
        if k < |before| {
          LastEventFollowsOrder(db, to, head, front, k);
        }
      }
    }
  }

  // ---------------------------------------------------------------- when the order does not matter

  function LastEventOf(db: Db, key: Key): Option<Event> {
    if key in db.issues then Some(db.issues[key].issue.lastEvent) else None
  }

  /** Everything that ends up in the issue of an event that is migrated. */
  predicate Contributes(db: Db, project: nat, e: Event, key: Key) {
    key in db.issues && (key == Key(project, e.fingerprint) || key in Candidates(db, project, e))
  }

  /** A grouped candidate that nothing it is merged with was seen after. */
  ghost predicate LatestGrouped(db: Db, project: nat, e: Event, key: Key) {
    && key in GroupedCandidates(db, project, e)
    && forall other {:trigger Contributes(db, project, e, other)} :: Contributes(db, project, e, other) ==>
         db.issues[other].issue.lastSeen <= db.issues[key].issue.lastSeen
  }

  ghost predicate OneLatestEvent(db: Db, project: nat, e: Event) {
    forall a, b {:trigger LatestGrouped(db, project, e, a), LatestGrouped(db, project, e, b)} ::
      LatestGrouped(db, project, e, a) && LatestGrouped(db, project, e, b) ==>
        db.issues[a].issue.lastEvent == db.issues[b].issue.lastEvent
  }

  /** The target is read before the exact candidate, and that before the grouped ones. */
  function Turn(db: Db, project: nat, e: Event, key: Key): nat {
    if key in GroupedCandidates(db, project, e) then 2 else if key in ExactCandidates(db, project, e) then 1 else 0
  }

  function OrderOf(db: Db, scan: Scan, project: nat, e: Event): seq<Key> {
    Order(db, Key(project, e.fingerprint), Found(db, scan, project, e))
  }

  lemma OrderLists(db: Db, scan: Scan, project: nat, e: Event)
    requires Sound(scan) && !MergesIntoItself(db, project, e)
    ensures forall key :: key in OrderOf(db, scan, project, e) <==> Contributes(db, project, e, key)
    ensures forall i, j :: 0 <= i < j < |OrderOf(db, scan, project, e)| ==>
              Turn(db, project, e, OrderOf(db, scan, project, e)[i])
              <= Turn(db, project, e, OrderOf(db, scan, project, e)[j])
  {
    var to, order := Key(project, e.fingerprint), OrderOf(db, scan, project, e);
    var exact, grouped := ExactCandidates(db, project, e), GroupedCandidates(db, project, e);
    assert Lists(scan(exact), exact) && Lists(scan(grouped), grouped);
    FoundIsMergeable(db, scan, project, e);
    assert to !in Found(db, scan, project, e);
    var head := if to in db.issues then [to] else [];
    assert order == head + scan(exact) + scan(grouped);
    assert forall i :: 0 <= i < |head| ==> order[i] == to;
    assert forall i :: |head| <= i < |head| + |scan(exact)| ==> order[i] in exact;
    assert forall i :: |head| + |scan(exact)| <= i < |order| ==> order[i] in grouped;
  }

  lemma LastEventIs(db: Db, scan: Scan, project: nat, e: Event, k: nat)
    requires Sound(scan) && !MergesIntoItself(db, project, e)
    requires LastOfLatest(db.issues, OrderOf(db, scan, project, e), k)
    ensures LastEventOf(Migrate(db, scan, project, e), Key(project, e.fingerprint))
         == Some(db.issues[OrderOf(db, scan, project, e)[k]].issue.lastEvent)
  {
    hide MergeAll, MergedRow, Mergeable, LastOfLatest;
    var to, from := Key(project, e.fingerprint), Found(db, scan, project, e);
    FoundIsMergeable(db, scan, project, e);
    SourcesExist(db, to, from);
    MergeAllIs(db, to, e.head, from);
    LastEventFollowsOrder(db, to, e.head, from, k);
  }

  lemma NothingToMerge(db: Db, scan: Scan, project: nat, e: Event)
    requires OrderOf(db, scan, project, e) == []
    ensures LastEventOf(Migrate(db, scan, project, e), Key(project, e.fingerprint)) == None
  {}

  /** Two orders end in the same row, unless both end in grouped candidates. */
  lemma WinnersAgree(db: Db, a: Scan, b: Scan, project: nat, e: Event, j: nat, k: nat)
    requires Sound(a) && Sound(b) && !MergesIntoItself(db, project, e)
    requires LastOfLatest(db.issues, OrderOf(db, a, project, e), j)
    requires LastOfLatest(db.issues, OrderOf(db, b, project, e), k)
    ensures var x, y := OrderOf(db, a, project, e)[j], OrderOf(db, b, project, e)[k];
            x == y || (LatestGrouped(db, project, e, x) && LatestGrouped(db, project, e, y))
  {
    var p, q := OrderOf(db, a, project, e), OrderOf(db, b, project, e);
    hide OrderOf, Contributes, Turn;
    OrderLists(db, a, project, e);
    OrderLists(db, b, project, e);
    assert p[j] in p && q[k] in q;
    var i :| 0 <= i < |p| && p[i] == q[k];
    var l :| 0 <= l < |q| && q[l] == p[j];
    assert db.issues[p[j]].issue.lastSeen == db.issues[q[k]].issue.lastSeen;
    assert i <= j && l <= k;
    assert Turn(db, project, e, p[j]) == Turn(db, project, e, q[k]);
    SameTurn(db, project, e, p[j], q[k]);
    forall other {:trigger Contributes(db, project, e, other)} | Contributes(db, project, e, other)
      ensures db.issues[other].issue.lastSeen <= db.issues[p[j]].issue.lastSeen
    {
      assert other in p;
    }
  }

  lemma SameTurn(db: Db, project: nat, e: Event, x: Key, y: Key)
    requires Contributes(db, project, e, x) && Contributes(db, project, e, y)
    requires Turn(db, project, e, x) == Turn(db, project, e, y)
    ensures x == y || (x in GroupedCandidates(db, project, e) && y in GroupedCandidates(db, project, e))
  {}

  // ---------------------------------------------------------------- scans

  /** Some order of the keys in a set. */
  ghost function Enumerate(s: set<Key>): (keys: seq<Key>)
    ensures Lists(keys, s)
    decreases |s|
  {
    if s == {} then []
    else
      var key :| key in s;
      var rest := Enumerate(s - {key});
      [key] + rest
  }

  ghost function EndingWith(last: Key, s: set<Key>): (keys: seq<Key>)
    ensures Lists(keys, s) && (last in s ==> keys != [] && keys[|keys| - 1] == last)
  {
    if last in s then Enumerate(s - {last}) + [last] else Enumerate(s)
  }

  /** A scan that returns one row after all others. */
  ghost function ScanEndingWith(last: Key): (scan: Scan)
    ensures Sound(scan) && forall s :: scan(s) == EndingWith(last, s)
  {
    s => EndingWith(last, s)
  }

  lemma ReadLast(db: Db, project: nat, e: Event, key: Key)
    requires !MergesIntoItself(db, project, e) && LatestGrouped(db, project, e, key)
    ensures LastEventOf(Migrate(db, ScanEndingWith(key), project, e), Key(project, e.fingerprint))
         == Some(db.issues[key].issue.lastEvent)
  {
    var scan := ScanEndingWith(key);
    var order := OrderOf(db, scan, project, e);
    assert scan(GroupedCandidates(db, project, e)) == EndingWith(key, GroupedCandidates(db, project, e));
    OrderLists(db, scan, project, e);
    hide OrderOf;
    assert order[|order| - 1] == key by {
      assert order == OrderOf(db, scan, project, e);
    }
    forall i {:trigger order[i]} | 0 <= i < |order| ensures Contributes(db, project, e, order[i]) {
      assert order[i] in order;
    }
    hide Contributes;
    LastEventIs(db, scan, project, e, |order| - 1);
  }

  // ---------------------------------------------------------------- the exact condition

  lemma BothEmpty(p: seq<Key>, q: seq<Key>)
    requires forall key :: key in p <==> key in q
    ensures p == [] <==> q == []
  {
    if p != [] {
      assert p[0] in q;
    }
    if q != [] {
      assert q[0] in p;
    }
  }

  lemma OneEventSuffices(db: Db, a: Scan, b: Scan, project: nat, e: Event)
    requires !MergesIntoItself(db, project, e) && OneLatestEvent(db, project, e) && Sound(a) && Sound(b)
    ensures var to := Key(project, e.fingerprint);
            LastEventOf(Migrate(db, a, project, e), to) == LastEventOf(Migrate(db, b, project, e), to)
  {
    hide Migrate, LastOfLatest, LatestGrouped, MergesIntoItself, OrderOf, LastEventOf;
    var p, q := OrderOf(db, a, project, e), OrderOf(db, b, project, e);
    OrderLists(db, a, project, e);
    OrderLists(db, b, project, e);
    BothEmpty(p, q);
    if p == [] {
      NothingToMerge(db, a, project, e);
      NothingToMerge(db, b, project, e);
    } else {
      forall i {:trigger p[i]} | 0 <= i < |p| ensures p[i] in db.issues {
        assert p[i] in p;
      }
      forall i {:trigger q[i]} | 0 <= i < |q| ensures q[i] in db.issues {
        assert q[i] in q;
      }
      var j := SomeLastOfLatest(db.issues, p);
      var k := SomeLastOfLatest(db.issues, q);
      LastEventIs(db, a, project, e, j);
      LastEventIs(db, b, project, e, k);
      WinnersAgree(db, a, b, project, e, j, k);
    }
  }

  /**
   The last event of a migrated issue is the same for every order in which the database may return the candidates,
   exactly when the grouped candidates that were seen last of all it is made from carry one last event.
   */
  lemma LastEventExactly(db: Db, project: nat, e: Event)
    requires !MergesIntoItself(db, project, e)
    ensures (forall a: Scan, b: Scan {:trigger Sound(a), Sound(b)} :: Sound(a) && Sound(b) ==>
               LastEventOf(Migrate(db, a, project, e), Key(project, e.fingerprint))
               == LastEventOf(Migrate(db, b, project, e), Key(project, e.fingerprint)))
            <==> OneLatestEvent(db, project, e)
  {
    hide Migrate, MergesIntoItself, LastEventOf;
    if OneLatestEvent(db, project, e) {
      forall a: Scan, b: Scan {:trigger Sound(a), Sound(b)} | Sound(a) && Sound(b)
        ensures LastEventOf(Migrate(db, a, project, e), Key(project, e.fingerprint))
             == LastEventOf(Migrate(db, b, project, e), Key(project, e.fingerprint))
      {
        OneEventSuffices(db, a, b, project, e);
      }
    } else {
      var x, y :| LatestGrouped(db, project, e, x) && LatestGrouped(db, project, e, y)
                  && db.issues[x].issue.lastEvent != db.issues[y].issue.lastEvent;
      ReadLast(db, project, e, x);
      ReadLast(db, project, e, y);
      assert Sound(ScanEndingWith(x)) && Sound(ScanEndingWith(y));
    }
  }

  // ---------------------------------------------------------------- two orders, two events

  const HEAD := Head("error", "x is undefined", "https://example.test/app.js", 3, 7)
  const INCOMING := Event(HEAD, 20, 9, 1, 0)
  const EARLIER := Event(HEAD, 10, 9, 2, 1)
  const TIED := Event(HEAD, 10, 9, 3, 2)

  /** Two version 1 issues that the current fingerprint puts together, last seen at the same time. */
  const TIED_DB := Db(map[Key(1, 2) := Row(Issue(Key(1, 2), HEAD, Open, 1, 10, 10, EARLIER), 1),
                          Key(1, 3) := Row(Issue(Key(1, 3), HEAD, Open, 1, 10, 10, TIED), 1)], [])

  /** One order makes the merged issue show the one event, the other order the other. */
  lemma TwoOrdersTwoEvents()
    ensures var first, second, to := ScanEndingWith(Key(1, 2)), ScanEndingWith(Key(1, 3)), Key(1, 9);
            && Sound(first) && Sound(second) && NoCollision(TIED_DB, [INCOMING])
            && LastEventOf(Migrate(TIED_DB, first, 1, INCOMING), to) == Some(EARLIER)
            && LastEventOf(Migrate(TIED_DB, second, 1, INCOMING), to) == Some(TIED)
  {
    hide Migrate, LastEventOf;
    assert LatestGrouped(TIED_DB, 1, INCOMING, Key(1, 2));
    assert LatestGrouped(TIED_DB, 1, INCOMING, Key(1, 3));
    NoCollisionNoSelf(TIED_DB, 1, INCOMING);
    ReadLast(TIED_DB, 1, INCOMING, Key(1, 2));
    ReadLast(TIED_DB, 1, INCOMING, Key(1, 3));
  }
}
