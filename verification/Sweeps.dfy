/** Retention: what the batched deletions leave behind. */
module Sweeps {
  import opened MinMax
  import opened Options
  import opened IssueLog
  import opened Listing
  import opened Sqlite

  const PRUNE_BATCH_SIZE := 500
  const RECONCILE_BATCH_SIZE := 100
  const DAY := 24 * 3600 * 1_000_000_000

  /** Deleting issues takes their events with them. */
  function DeleteIssues(db: Db, gone: set<Key>): Db {
    Db(db.issues - gone, Cascade(db.events, gone))
  }

  lemma DeleteTwice(db: Db, a: set<Key>, b: set<Key>)
    ensures DeleteIssues(DeleteIssues(db, a), b) == DeleteIssues(db, a + b)
  {
    var f, g := (row: EventRow) => row.key !in a, (row: EventRow) => row.key !in b;
    assert Cascade(Cascade(db.events, a), b) == Filter(Filter(db.events, f), g) by {
      FiltersAgree(db.events, f, (row: EventRow) => row.key !in a);
      FiltersAgree(Filter(db.events, f), g, (row: EventRow) => row.key !in b);
    }
    FilterFilter(db.events, f, g);
    FiltersAgree(db.events, (row: EventRow) => f(row) && g(row), (row: EventRow) => row.key !in a + b);
    assert db.issues - a - b == db.issues - (a + b);
  }

  lemma DeleteNone(db: Db)
    ensures DeleteIssues(db, {}) == db
  {
    CascadeNothing(db.events, {});
    assert db.issues - {} == db.issues;
  }

  lemma CascadeNothing(events: seq<EventRow>, gone: set<Key>)
    requires gone == {}
    ensures Cascade(events, gone) == events
  {
    FilterAll(events, (row: EventRow) => row.key !in gone);
  }

  // ---------------------------------------------------------------- the issue limit

  function KeysOf(l: seq<Issue>): set<Key> {
    set i | 0 <= i < |l| :: l[i].key
  }

  ghost predicate ListedAs(db: Db, project: nat, l: seq<Issue>) {
    IsListing(Aggregates(db), project, AnyStatus, l)
  }

  /** What one statement may delete: the excess over the limit, in bounded portions. */
  function Portion(count: nat, limit: int): nat
    requires limit >= 1
  {
    Min(PRUNE_BATCH_SIZE, if count > limit then count - limit else 0)
  }

  /** How many of the listed issues are left after so many statements. */
  function KeptAfter(count: nat, limit: int, statements: nat): (kept: nat)
    requires limit >= 1
    ensures kept <= count
  {
    count - Min(count - Min(limit, count), PRUNE_BATCH_SIZE * statements)
  }

  /** A portion is full exactly while the excess is not used up by it. */
  lemma PortionsAddUp(count: nat, limit: int, statements: nat)
    requires limit >= 1
    ensures var kept := KeptAfter(count, limit, statements);
            && Portion(kept, limit) <= PRUNE_BATCH_SIZE
            && kept - Portion(kept, limit) == KeptAfter(count, limit, statements + 1)
            && (Portion(kept, limit) == PRUNE_BATCH_SIZE
                <==> PRUNE_BATCH_SIZE * (statements + 1) <= count - Min(limit, count))
  {}

  /** The state in which the issues behind the first `keep` of the listing are gone. */
  function Shortened(db: Db, l: seq<Issue>, keep: nat): Db
    requires keep <= |l|
  {
    DeleteIssues(db, KeysOf(l[keep..]))
  }

  lemma ListedKeysDiffer(l: seq<Issue>, i: nat, j: nat)
    requires InOrder(l) && i < j < |l|
    ensures l[i].key != l[j].key || l[i].lastSeen != l[j].lastSeen
  {
    assert Before(CursorOf(l[i]), CursorOf(l[j]));
  }

  lemma KeptOrCut(l: seq<Issue>, keep: nat, x: Issue)
    requires x in l && keep <= |l|
    ensures x in l[..keep] || x.key in KeysOf(l[keep..])
  {
    var i :| 0 <= i < |l| && l[i] == x;
    if i < keep {
      assert l[..keep][i] == x;
    } else {
      assert l[keep..][i - keep].key == x.key;
    }
  }

  /** Cutting a listing short in the database cuts the listing short. */
  lemma ShortenedLists(db: Db, project: nat, l: seq<Issue>, keep: nat)
    requires ListedAs(db, project, l) && keep <= |l|
    ensures ListedAs(Shortened(db, l, keep), project, l[..keep])
  {
    hide Before;
    var after := Shortened(db, l, keep);
    forall i, j | 0 <= i < keep <= j < |l| ensures l[i].key != l[j].key {
      assert l[i] in l && l[j] in l;
      ListedKeysDiffer(l, i, j);
    }
    forall x ensures x in l[..keep] <==> Holds(Aggregates(after), x) && Matches(x, project, AnyStatus) {
      if x in l[..keep] {
        var i :| 0 <= i < keep && l[i] == x;
        assert x in l;
        assert x.key !in KeysOf(l[keep..]);
      }
      if x in l {
        KeptOrCut(l, keep, x);
      }
    }
  }

  lemma ShortenedTwice(db: Db, l: seq<Issue>, keep: nat, less: nat)
    requires less <= keep <= |l|
    ensures Shortened(Shortened(db, l, keep), l[..keep], less) == Shortened(db, l, less)
  {
    DeleteTwice(db, KeysOf(l[keep..]), KeysOf(l[..keep][less..]));
    var a, b, c := l[keep..], l[..keep][less..], l[less..];
    assert c == b + a;
    forall key ensures key in KeysOf(c) <==> key in KeysOf(a) + KeysOf(b) {
      if key in KeysOf(a) {
        var i :| 0 <= i < |a| && a[i].key == key;
        assert c[|b| + i].key == key;
      }
      if key in KeysOf(b) {
        var i :| 0 <= i < |b| && b[i].key == key;
        assert c[i].key == key;
      }
      if key in KeysOf(c) {
        var i :| 0 <= i < |c| && c[i].key == key;
        assert i < |b| ==> b[i].key == key;
        assert i >= |b| ==> a[i - |b|].key == key;
      }
    }
    assert KeysOf(c) == KeysOf(a) + KeysOf(b);
  }

  /**
   In a shortened state every issue of the project that is gone is older, in list order, than every one that is
   left, other projects' issues are untouched, and an occurrence is left exactly when its issue is.
   */
  lemma OldestGoFirst(db: Db, project: nat, l: seq<Issue>, keep: nat)
    requires ListedAs(db, project, l) && keep <= |l|
    requires forall key :: key in db.issues ==> db.issues[key].issue.key == key
    ensures var after := Shortened(db, l, keep);
            && (forall gone, left :: gone in db.issues && gone !in after.issues && left in after.issues
                                     && left.project == project ==>
                  gone.project == project && Before(CursorOf(db.issues[left].issue), CursorOf(db.issues[gone].issue)))
            && (forall key :: key in db.issues && key.project != project ==>
                  key in after.issues && after.issues[key] == db.issues[key])
            && (forall row :: row in after.events <==> row in db.events && row.key !in KeysOf(l[keep..]))
  {
    var after := Shortened(db, l, keep);
    forall key | key in KeysOf(l[keep..]) ensures key.project == project && key in db.issues {
      var i :| 0 <= i < |l[keep..]| && l[keep..][i].key == key;
      assert l[keep + i] in l;
    }
    forall gone, left | gone in db.issues && gone !in after.issues && left in after.issues && left.project == project
      ensures Before(CursorOf(db.issues[left].issue), CursorOf(db.issues[gone].issue))
    {
      var j :| 0 <= j < |l[keep..]| && l[keep..][j].key == gone;
      assert l[keep + j] in l;
      assert db.issues[left].issue in l;
      KeptOrCut(l, keep, db.issues[left].issue);
      var i :| 0 <= i < keep && l[i] == db.issues[left].issue;
      assert Before(CursorOf(l[i]), CursorOf(l[keep + j]));
    }
    forall row ensures row in after.events <==> row in db.events && row.key !in KeysOf(l[keep..]) {
      CascadeMembers(db.events, KeysOf(l[keep..]), row);
    }
  }

  lemma CascadeMembers(events: seq<EventRow>, gone: set<Key>, row: EventRow)
    ensures row in Cascade(events, gone) <==> row in events && row.key !in gone
  {
    FilterMembers(events, (r: EventRow) => r.key !in gone, row);
  }

  // ---------------------------------------------------------------- the retention period

  function Expired(db: Db, project: nat, cutoff: int): set<Key> {
    set key | key in db.issues && key.project == project && db.issues[key].issue.lastSeen < cutoff
  }

  /** What one statement may delete: expired issues only, the oldest ones, all of them if they are few. */
  ghost predicate OldestExpired(db: Db, project: nat, cutoff: int, gone: seq<Key>) {
    && |gone| <= PRUNE_BATCH_SIZE && (forall i, j :: 0 <= i < j < |gone| ==> gone[i] != gone[j])
    && (forall i {:trigger gone[i]} :: 0 <= i < |gone| ==> gone[i] in Expired(db, project, cutoff))
    && (forall key, i {:trigger gone[i], db.issues[key]} ::
          0 <= i < |gone| && key in Expired(db, project, cutoff) && key !in gone ==>
            db.issues[gone[i]].issue.lastSeen <= db.issues[key].issue.lastSeen)
    && (|gone| < PRUNE_BATCH_SIZE ==> forall key :: key in Expired(db, project, cutoff) ==> key in gone)
  }

  function Members(keys: seq<Key>): set<Key> {
    set key | key in keys
  }

  lemma ExpiredAfter(db: Db, project: nat, cutoff: int, gone: set<Key>)
    ensures Expired(DeleteIssues(db, gone), project, cutoff) == Expired(db, project, cutoff) - gone
  {}

  // ---------------------------------------------------------------- reconciliation at startup

  predicate KeyBefore(a: Key, b: Key) {
    a.project < b.project || (a.project == b.project && a.fingerprint < b.fingerprint)
  }

  predicate Past(cursor: Option<Key>, key: Key) {
    cursor == None || KeyBefore(cursor.value, key)
  }

  /** The issues that hold more than `n` events and stand behind the cursor. */
  function Oversized(events: seq<EventRow>, n: nat, cursor: Option<Key>): set<Key> {
    set i | 0 <= i < |events| && |Of(events, events[i].key)| > n && Past(cursor, events[i].key) :: events[i].key
  }

  lemma OversizedMembers(events: seq<EventRow>, n: nat, cursor: Option<Key>, key: Key)
    ensures key in Oversized(events, n, cursor) <==> |Of(events, key)| > n && Past(cursor, key)
  {
    if |Of(events, key)| > n {
      var x := Of(events, key)[0];
      OfMembers(events, key, x);
      var i :| 0 <= i < |events| && events[i] == EventRow(x.sequence, key, x.event);
      assert events[i].key == key;
    }
  }

  lemma {:induction false} FirstExists(keys: set<Key>) returns (first: Key)
    requires keys != {}
    ensures first in keys && forall key :: key in keys && key != first ==> KeyBefore(first, key)
    decreases |keys|
  {
    var some :| some in keys;
    if keys == {some} {
      first := some;
    } else {
      var rest := keys - {some};
      assert rest != {} by {
        assert keys == rest + {some};
      }
      var other := FirstExists(rest);
      first := if KeyBefore(some, other) then some else other;
      forall key | key in keys && key != first ensures KeyBefore(first, key) {
        assert key == some || key in rest;
      }
    }
  }

  /** A keyset page of groups: in order, and nothing behind the cursor is skipped. */
  ghost predicate NextGroups(events: seq<EventRow>, n: nat, cursor: Option<Key>, groups: seq<Key>) {
    && |groups| <= RECONCILE_BATCH_SIZE && (forall i, j :: 0 <= i < j < |groups| ==> KeyBefore(groups[i], groups[j]))
    && (forall i {:trigger groups[i]} :: 0 <= i < |groups| ==> groups[i] in Oversized(events, n, cursor))
    && (forall key, i :: key in Oversized(events, n, cursor) && key !in groups && 0 <= i < |groups| ==>
          KeyBefore(groups[i], key))
    && (groups == [] ==> Oversized(events, n, cursor) == {})
  }

  /** `SELECT ... GROUP BY ... HAVING COUNT(*) > ? ORDER BY ... LIMIT 100`. */
  method SelectGroups(events: seq<EventRow>, n: nat, cursor: Option<Key>) returns (groups: seq<Key>)
    ensures NextGroups(events, n, cursor, groups)
    ensures |groups| <= 100 && (|groups| < 100 ==> forall key :: key in Oversized(events, n, cursor) ==> key in groups)
    ensures forall i, j :: 0 <= i < j < |groups| ==>
              groups[i].project < groups[j].project
              || (groups[i].project == groups[j].project && groups[i].fingerprint < groups[j].fingerprint)
  {
    groups := [];
    var left := Oversized(events, n, cursor);
    while left != {} && |groups| < RECONCILE_BATCH_SIZE
      invariant |groups| <= RECONCILE_BATCH_SIZE && left <= Oversized(events, n, cursor)
      invariant forall i, j :: 0 <= i < j < |groups| ==> KeyBefore(groups[i], groups[j])
      invariant forall i {:trigger groups[i]} :: 0 <= i < |groups| ==> groups[i] in Oversized(events, n, cursor)
      invariant forall key :: key in Oversized(events, n, cursor) <==> key in left || key in groups
      invariant forall key, i :: key in left && 0 <= i < |groups| ==> KeyBefore(groups[i], key)
    {
      ghost var some := FirstExists(left);
      var first :| first in left && forall key :: key in left && key != first ==> KeyBefore(first, key);
      groups := groups + [first];
      left := left - {first};
    }
    assert forall key :: key in Oversized(events, n, cursor) ==> key in left || key in groups;
  }

  /** The oversized histories up to the cursor. */
  function Reached(events: seq<EventRow>, n: nat, cursor: Option<Key>): set<Key> {
    Oversized(events, n, None) - Oversized(events, n, cursor)
  }

  /** Reconciling the oversized histories leaves every history at its newest `n` events. */
  lemma ReconciledIsNewest(events: seq<EventRow>, n: nat, key: Key)
    requires InRowOrder(events)
    ensures Sort(Of(TrimTouched(events, Oversized(events, n, None), n), key)) == Trim(n, Sort(Of(events, key)))
  {
    TrimKeepsNewest(events, Oversized(events, n, None), n, key);
    OversizedMembers(events, n, None, key);
    SortIsSorted(Of(events, key));
  }

  /** A history that has been trimmed is no longer oversized, and one that has not is as it was. */
  lemma OversizedAfter(events: seq<EventRow>, n: nat, cursor: Option<Key>)
    requires InRowOrder(events)
    ensures Oversized(TrimTouched(events, Reached(events, n, cursor), n), n, cursor) == Oversized(events, n, cursor)
  {
    var some := TrimTouched(events, Reached(events, n, cursor), n);
    forall key ensures key in Oversized(some, n, cursor) <==> key in Oversized(events, n, cursor) {
      OversizedMembers(events, n, None, key);
      OversizedMembers(events, n, cursor, key);
      OversizedMembers(some, n, cursor, key);
      TrimKeepsNewest(events, Reached(events, n, cursor), n, key);
      SortIsSorted(Of(events, key));
      SortIsSorted(Of(some, key));
    }
  }

  /** Moving the cursor to the last group reaches the groups of the page and nothing else. */
  lemma CursorReaches(events: seq<EventRow>, n: nat, cursor: Option<Key>, groups: seq<Key>)
    requires NextGroups(events, n, cursor, groups) && groups != []
    ensures Oversized(events, n, Some(groups[|groups| - 1])) == Oversized(events, n, cursor) - Members(groups)
    ensures Reached(events, n, Some(groups[|groups| - 1])) == Reached(events, n, cursor) + Members(groups)
  {
    var last := Some(groups[|groups| - 1]);
    forall key ensures key in Oversized(events, n, last) <==> key in Oversized(events, n, cursor) && key !in groups {
      OversizedMembers(events, n, cursor, key);
      OversizedMembers(events, n, last, key);
      OversizedMembers(events, n, cursor, last.value);
      assert last.value in Oversized(events, n, cursor);
      if key in groups {
        var i :| 0 <= i < |groups| && groups[i] == key;
        assert i < |groups| - 1 ==> KeyBefore(groups[i], groups[|groups| - 1]);
      }
    }
    forall key ensures key in Reached(events, n, last) <==> key in Reached(events, n, cursor) || key in groups {
      OversizedMembers(events, n, None, key);
      OversizedMembers(events, n, cursor, key);
      if key in groups {
        var i :| 0 <= i < |groups| && groups[i] == key;
        assert groups[i] in Oversized(events, n, cursor);
      }
    }
  }
}
