/** The SQLite store as an object whose methods run the statements one after the other. */
module SqliteStore {
  import opened MinMax
  import opened Options
  import opened IssueLog
  import opened Listing
  import opened ListingMeaning
  import opened Sqlite
  import opened Sweeps

  class Store {
    var issues: map<Key, Row>
    var events: seq<EventRow>
    const maxEventsPerIssue: nat
    const scan: Scan

    ghost function View(): Db
      reads this
    {
      Db(issues, events)
    }

    ghost predicate Valid()
      reads this
    {
      TablesOk(View())
    }

    constructor (tables: Db, maximum: nat, scan: Scan)
      requires TablesOk(tables) && 1 <= maximum <= MAX_EVENTS_PER_ISSUE
      ensures Valid() && View() == tables && maxEventsPerIssue == maximum && this.scan == scan
    {
      issues, events, maxEventsPerIssue, this.scan := tables.issues, tables.events, maximum, scan;
    }

    /** Migrates, appends and trims in one transaction. */
    method RecordBatch(project: Option<nat>, captured: seq<Event>) returns (r: Result<seq<Issue>>)
      requires Valid()
      modifies this
      ensures Valid()
      ensures Refusal(project, captured).Some? ==> r == Err(Refusal(project, captured).value) && unchanged(this)
      ensures Refusal(project, captured) == None ==>
                && View() == Sqlite.RecordBatch(old(View()), scan, maxEventsPerIssue, project.value, captured)
                && r.Ok? && |r.value| == |captured|
                && forall i :: 0 <= i < |captured| ==>
                     var key := Key(project.value, captured[i].fingerprint);
                     key in issues && r.value[i] == issues[key].issue
    {
      hide MigrateAll, AppendAll, TrimTouched, TablesOk, Touched;
      if project == None {
        return Err(ProjectRequired);
      }
      if captured == [] {
        return Err(EventsRequired);
      }
      for i := 0 to |captured|
        invariant forall k :: 0 <= k < i ==> captured[k].receivedAt != ZERO_TIME
      {
        if captured[i].receivedAt == ZERO_TIME {
          return Err(ReceivedAtEmpty);
        }
      }
      MigrateBatch(project.value, captured);
      AppendBatch(project.value, captured);
      TrimBatch(Touched(project.value, captured));
      var recorded := [];
      for i := 0 to |captured|
        invariant |recorded| == i
        invariant forall k :: 0 <= k < i ==>
                    var key := Key(project.value, captured[k].fingerprint);
                    key in issues && recorded[k] == issues[key].issue
      {
        recorded := recorded + [issues[Key(project.value, captured[i].fingerprint)].issue];
      }
      return Ok(recorded);
    }

    method MigrateBatch(project: nat, captured: seq<Event>)
      requires Valid()
      modifies this
      ensures Valid() && View() == MigrateAll(old(View()), scan, project, captured)
    {
      hide Migrate, TablesOk;
      var migrated: set<nat> := {};
      for i := 0 to |captured|
        invariant Valid() && View() == MigrateAll(old(View()), scan, project, captured[..i])
        invariant forall fingerprint :: fingerprint in migrated <==> Mentions(captured[..i], fingerprint)
      {
        var e := captured[i];
        assert captured[..i + 1][..i] == captured[..i];
        MentionsSnoc(captured, i);
        if e.fingerprint !in migrated {
          MigrateEvent(project, e);
          migrated := migrated + {e.fingerprint};
        }
      }
      assert captured[..|captured|] == captured;
    }

    /** migrateLegacyIssueFingerprints. */
    method MigrateEvent(project: nat, e: Event)
      requires Valid()
      modifies this
      ensures Valid() && View() == Migrate(old(View()), scan, project, e)
    {
      hide MergeRow, Cascade, MoveEvents, TablesOk, ExactCandidates, GroupedCandidates;
      ghost var start := View();
      var to := Key(project, e.fingerprint);
      var candidates := scan(ExactCandidates(Db(issues, events), project, e))
                        + scan(GroupedCandidates(Db(issues, events), project, e));
      for k := 0 to |candidates|
        invariant Valid() && View() == MergeAll(start, to, e.head, candidates[..k])
      {
        var from := candidates[k];
        assert candidates[..k + 1][..k] == candidates[..k];
        MergeKeepsTables(View(), to, e.head, from);
        if from in issues && issues[from].version == 1 {
          var found := if to in issues then Some(issues[to]) else None;
          issues := issues[to := MergeRow(found, to, e.head, issues[from].issue)];
        }
        events := MoveEvents(events, to, from);
        issues := issues - {from};
        events := Cascade(events, {from});
      }
      assert candidates[..|candidates|] == candidates;
    }

    method AppendBatch(project: nat, captured: seq<Event>)
      requires Valid()
      modifies this
      ensures Valid() && View() == AppendAll(old(View()), project, captured)
      ensures forall i :: 0 <= i < |captured| ==> Key(project, captured[i].fingerprint) in issues
    {
      hide UpsertRow, TablesOk;
      ghost var start := View();
      for i := 0 to |captured|
        invariant Valid() && View() == AppendAll(start, project, captured[..i])
        invariant forall k :: 0 <= k < i ==> Key(project, captured[k].fingerprint) in issues
      {
        assert captured[..i + 1][..i] == captured[..i];
        AppendKeepsTables(View(), project, captured[i]);
        var key := Key(project, captured[i].fingerprint);
        issues := issues[key := UpsertRow(if key in issues then Some(issues[key]) else None, project, captured[i])];
        events := InsertEvent(events, key, captured[i]);
      }
      assert captured[..|captured|] == captured;
    }

    method TrimBatch(touched: set<Key>)
      requires Valid()
      modifies this`events
      ensures Valid() && events == TrimTouched(old(events), touched, maxEventsPerIssue)
    {
      hide Stays, TrimEvents;
      ghost var full := events;
      var left := touched;
      NothingTrimmed(full, maxEventsPerIssue);
      assert touched - touched == {};
      while left != {}
        invariant left <= touched && events == TrimTouched(full, touched - left, maxEventsPerIssue)
      {
        var key :| key in left;
        TrimOneMore(full, touched - left, key, maxEventsPerIssue);
        assert touched - left + {key} == touched - (left - {key});
        events := TrimEvents(events, key, maxEventsPerIssue);
        left := left - {key};
      }
      assert touched - {} == touched;
      FilterKeepsOrder(full, (row: EventRow) => Stays(full, touched, maxEventsPerIssue, row));
    }

    method SetIssueStatus(project: Option<nat>, fingerprint: nat, status: Option<Status>) returns (r: Result<Issue>)
      requires Valid()
      modifies this
      ensures Valid()
      ensures var refusal := SqlStatusRefusal(old(View()), project, fingerprint, status);
              if refusal.Some? then r == Err(refusal.value) && unchanged(this)
              else && View() == SetStatus(old(View()), Key(project.value, fingerprint), status.value)
                   && r == Ok(issues[Key(project.value, fingerprint)].issue)
    {
      if project == None {
        return Err(ProjectRequired);
      }
      if status == None {
        return Err(InvalidStatus);
      }
      var key := Key(project.value, fingerprint);
      if key !in issues {
        return Err(IssueNotFound);
      }
      issues := issues[key := issues[key].(issue := issues[key].issue.(status := status.value))];
      return Ok(issues[key].issue);
    }

    method GetIssue(project: Option<nat>, fingerprint: nat) returns (r: Result<Issue>)
      requires Valid()
      ensures r == if project == None then Err(ProjectRequired)
                   else match Find(View(), Key(project.value, fingerprint))
                        case None => Err(IssueNotFound)
                        case Some(row) => Ok(row.issue)
    {
      if project == None {
        return Err(ProjectRequired);
      }
      var key := Key(project.value, fingerprint);
      if key !in issues {
        return Err(IssueNotFound);
      }
      return Ok(issues[key].issue);
    }

    method ListIssues(project: Option<nat>, options: ListOptions)
      returns (r: Result<IssuePage>, ghost listing: seq<Issue>)
      requires Valid()
      ensures r == if project == None then Err(ProjectRequired)
                   else if options.status == Unknown then Err(InvalidStatus)
                   else Ok(FetchedPage(listing, Normalized(options)))
      ensures project.Some? && options.status != Unknown ==>
                && IsListing(Aggregates(View()), project.value, options.status, listing)
                && forall x :: x in listing <==>
                     Holds(Aggregates(View()), x) && x.key.project == project.value
                     && (options.status.Only? ==> x.status == options.status.status)
    {
      listing := [];
      if project == None {
        r := Err(ProjectRequired);
        return;
      }
      if options.status == Unknown {
        r := Err(InvalidStatus);
        return;
      }
      var rows := Select(Aggregates(Db(issues, events)), project.value, options.status);
      listing := rows;
      ListingMeans(Aggregates(View()), project.value, options.status, listing);
      r := Ok(FetchedPage(rows, Normalized(options)));
    }

    method ListIssueEvents(project: Option<nat>, fingerprint: nat, limit: int, after: Option<EventCursor>)
      returns (r: Result<EventPage>)
      requires Valid()
      ensures r == if project == None then Err(ProjectRequired)
                   else if Key(project.value, fingerprint) !in issues then Err(IssueNotFound)
                   else
                     var rows := Sort(Of(events, Key(project.value, fingerprint)));
                     Ok(FetchedHistoryPage(rows, PageSize(limit), after))
    {
      if project == None {
        return Err(ProjectRequired);
      }
      var key := Key(project.value, fingerprint);
      if key !in issues {
        return Err(IssueNotFound);
      }
      return Ok(FetchedHistoryPage(Sort(Of(events, key)), PageSize(limit), after));
    }

    // -------------------------------------------------------------- retention

    /** One bounded DELETE of the oldest excess. */
    method EnforceIssueLimit(project: Option<nat>, limit: int) returns (r: Result<nat>, ghost l: seq<Issue>)
      requires Valid()
      modifies this
      ensures Valid()
      ensures project == None ==> r == Err(ProjectRequired) && unchanged(this)
      ensures project.Some? && limit < 1 ==> r == Err(IssueLimitRequired) && unchanged(this)
      ensures project.Some? && limit >= 1 ==>
                && ListedAs(old(View()), project.value, l)
                && r == Ok(Portion(|l|, limit))
                && r == Ok(if |l| <= limit then 0 else if |l| <= limit + 500 then |l| - limit else 500)
                && View() == Shortened(old(View()), l, |l| - Portion(|l|, limit))
    {
      l := [];
      if project == None {
        r := Err(ProjectRequired);
        return;
      }
      if limit < 1 {
        r := Err(IssueLimitRequired);
        return;
      }
      var listed := Select(Aggregates(Db(issues, events)), project.value, AnyStatus);
      var portion := Portion(|listed|, limit);
      DeleteKeepsTables(View(), KeysOf(listed[|listed| - portion..]));
      Delete(KeysOf(listed[|listed| - portion..]));
      l := listed;
      r := Ok(portion);
    }

    method Delete(gone: set<Key>)
      modifies this
      ensures View() == DeleteIssues(old(View()), gone)
    {
      issues := issues - gone;
      events := Cascade(events, gone);
    }

    /** The sweep that calls EnforceIssueLimit until a portion is not full. `trail` holds the state after each call. */
    method SweepLimit(project: Option<nat>, limit: int)
      returns (r: Result<nat>, ghost l: seq<Issue>, ghost trail: seq<Db>)
      requires Valid()
      modifies this
      ensures Valid()
      ensures project == None ==> r == Err(ProjectRequired) && unchanged(this)
      ensures project.Some? && limit < 1 ==> r == Err(IssueLimitRequired) && unchanged(this)
      ensures project.Some? && limit >= 1 ==>
                var keep := Min(limit, |l|);
                && ListedAs(old(View()), project.value, l)
                && View() == Shortened(old(View()), l, keep) && ListedAs(View(), project.value, l[..keep])
                && r == Ok(|l| - keep)
                && |trail| == (|l| - keep) / 500 + 1 && trail[|trail| - 1] == View()
                && forall i {:trigger trail[i]} :: 0 <= i < |trail| ==>
                     trail[i] == Shortened(old(View()), l, KeptAfter(|l|, limit, i + 1))
    {
      hide ListedAs, Shortened, Portion, KeptAfter;
      var total := 0;
      trail := [];
      var evicted: Result<nat>;
      evicted, l := EnforceIssueLimit(project, limit);
      if evicted.Err? {
        r := evicted;
        return;
      }
      FirstCall(|l|, limit);
      ShortenedLists(old(View()), project.value, l, KeptAfter(|l|, limit, 1));
      total := evicted.value;
      trail := [View()];
      while evicted.value == PRUNE_BATCH_SIZE
        invariant Valid() && evicted.Ok? && evicted.value <= PRUNE_BATCH_SIZE && |trail| >= 1
        invariant total == |l| - KeptAfter(|l|, limit, |trail|) && trail[|trail| - 1] == View()
        invariant View() == Shortened(old(View()), l, KeptAfter(|l|, limit, |trail|))
        invariant ListedAs(View(), project.value, l[..KeptAfter(|l|, limit, |trail|)])
        invariant evicted.value == PRUNE_BATCH_SIZE <==> PRUNE_BATCH_SIZE * |trail| <= |l| - Min(limit, |l|)
        invariant PRUNE_BATCH_SIZE * (|trail| - 1) <= |l| - Min(limit, |l|)
        invariant forall i {:trigger trail[i]} :: 0 <= i < |trail| ==>
                    trail[i] == Shortened(old(View()), l, KeptAfter(|l|, limit, i + 1))
        decreases |l| - PRUNE_BATCH_SIZE * |trail|
      {
        ghost var part;
        ghost var keep, less := KeptAfter(|l|, limit, |trail|), KeptAfter(|l|, limit, |trail| + 1);
        PortionsAddUp(|l|, limit, |trail|);
        evicted, part := EnforceIssueLimit(project, limit);
        SameListing(Shortened(old(View()), l, keep), project.value, part, l[..keep]);
        ShortenedTwice(old(View()), l, keep, less);
        ShortenedLists(old(View()), project.value, l, less);
        total := total + evicted.value;
        trail := trail + [View()];
      }
      LastCall(|l|, limit, |trail|);
      r := Ok(total);
    }

    /** One bounded DELETE of the oldest expired issues; which of those last seen together go first is left open. */
    method PruneIssues(project: Option<nat>, cutoff: int) returns (r: Result<nat>, ghost gone: seq<Key>)
      requires Valid()
      modifies this
      ensures Valid()
      ensures project == None ==> r == Err(ProjectRequired) && unchanged(this)
      ensures project.Some? && cutoff == ZERO_TIME ==> r == Err(CutoffRequired) && unchanged(this)
      ensures project.Some? && cutoff != ZERO_TIME ==>
                && OldestExpired(old(View()), project.value, cutoff, gone)
                && r == Ok(|gone|) && View() == DeleteIssues(old(View()), Members(gone)) && |gone| <= 500
                && (forall i :: 0 <= i < |gone| ==>
                      gone[i] in old(issues) && gone[i].project == project.value
                      && old(issues)[gone[i]].issue.lastSeen < cutoff
                      && forall key :: key in issues && key.project == project.value ==>
                           issues[key].issue.lastSeen >= old(issues)[gone[i]].issue.lastSeen)
                && (|gone| < 500 ==> forall key :: key in issues && key.project == project.value ==>
                      issues[key].issue.lastSeen >= cutoff)
    {
      gone := [];
      if project == None {
        r := Err(ProjectRequired);
        return;
      }
      if cutoff == ZERO_TIME {
        r := Err(CutoffRequired);
        return;
      }
      var chosen := SelectExpired(Db(issues, events), project.value, cutoff);
      DeleteKeepsTables(View(), Members(chosen));
      Delete(Members(chosen));
      gone := chosen;
      r := Ok(|chosen|);
    }

    /** The sweep that calls PruneIssues until a portion is not full. */
    method SweepAge(project: Option<nat>, days: int, now: int) returns (r: Result<nat>, ghost gone: seq<Key>)
      requires Valid()
      modifies this
      ensures Valid()
      ensures project == None ==> r == Err(ProjectRequired) && unchanged(this)
      ensures project.Some? && now - days * DAY == ZERO_TIME ==> r == Err(CutoffRequired) && unchanged(this)
      ensures project.Some? && now - days * DAY != ZERO_TIME ==>
                var expired := Expired(old(View()), project.value, now - days * DAY);
                && View() == DeleteIssues(old(View()), expired) && Sqlite.Lists(gone, expired) && r == Ok(|gone|)
                && forall key :: key in gone <==>
                     key in old(issues) && key.project == project.value
                     && old(issues)[key].issue.lastSeen < now - days * 86_400_000_000_000
    {
      hide OldestExpired, TablesOk;
      var cutoff := now - days * DAY;
      gone := [];
      var deleted: Result<nat>;
      ghost var part;
      ghost var start := View();
      deleted, part := PruneIssues(project, cutoff);
      if deleted.Err? {
        r := deleted;
        return;
      }
      gone := part;
      var total := deleted.value;
      FirstPortion(start, project.value, cutoff, part);
      while deleted.value == PRUNE_BATCH_SIZE
        invariant Valid() && deleted.Ok? && deleted.value <= PRUNE_BATCH_SIZE && total == |gone|
        invariant PortionsSoFar(start, View(), project.value, cutoff, gone)
        invariant deleted.value < PRUNE_BATCH_SIZE ==> Expired(View(), project.value, cutoff) == {}
        decreases Expired(View(), project.value, cutoff), if deleted.value == PRUNE_BATCH_SIZE then 1 else 0
      {
        ghost var before := View();
        deleted, part := PruneIssues(project, cutoff);
        NextPortion(start, before, project.value, cutoff, gone, part);
        gone := gone + part;
        total := total + deleted.value;
      }
      AllPortions(start, View(), project.value, cutoff, gone);
      r := Ok(total);
    }

    /** reconcileSQLiteEventHistory: trims oversized histories a page of groups at a time. */
    method Reconcile()
      requires Valid()
      modifies this`events
      ensures Valid()
      ensures events == TrimTouched(old(events), Oversized(old(events), maxEventsPerIssue, None), maxEventsPerIssue)
      ensures forall key :: Sort(Of(events, key)) == Trim(maxEventsPerIssue, Sort(Of(old(events), key)))
    {
      hide TrimTouched, Oversized, NextGroups;
      ghost var start := events;
      var n := maxEventsPerIssue;
      var cursor: Option<Key> := None;
      NothingTrimmed(start, n);
      assert Reached(start, n, None) == {};
      var groups := SelectGroups(events, n, cursor);
      while groups != []
        invariant Valid() && events == TrimTouched(start, Reached(start, n, cursor), n)
        invariant NextGroups(start, n, cursor, groups)
        decreases Oversized(start, n, cursor), |groups|
      {
        GroupsShrink(start, n, cursor, groups);
        TrimGroups(start, Reached(start, n, cursor), groups);
        CursorReaches(start, n, cursor, groups);
        cursor := Some(groups[|groups| - 1]);
        groups := SelectGroups(events, n, cursor);
        OversizedAfter(start, n, cursor);
        SameGroups(start, events, n, cursor, groups);
      }
      EverythingReached(start, n, cursor);
      forall key ensures Sort(Of(events, key)) == Trim(n, Sort(Of(start, key))) {
        ReconciledIsNewest(start, n, key);
      }
    }

    /** One transaction of the reconciliation. */
    method TrimGroups(ghost start: seq<EventRow>, ghost done: set<Key>, groups: seq<Key>)
      requires Valid() && InRowOrder(start) && events == TrimTouched(start, done, maxEventsPerIssue)
      requires forall i {:trigger groups[i]} :: 0 <= i < |groups| ==> groups[i] !in done
      requires forall i, j :: 0 <= i < j < |groups| ==> KeyBefore(groups[i], groups[j])
      modifies this`events
      ensures Valid() && events == TrimTouched(start, done + Members(groups), maxEventsPerIssue)
    {
      hide Stays, TrimEvents, TrimTouched;
      assert done + Members(groups[..0]) == done;
      for k := 0 to |groups|
        invariant events == TrimTouched(start, done + Members(groups[..k]), maxEventsPerIssue)
      {
        MembersSnoc(groups, k);
        assert done + Members(groups[..k]) + {groups[k]} == done + Members(groups[..k + 1]);
        TrimOneMore(start, done + Members(groups[..k]), groups[k], maxEventsPerIssue);
        events := TrimEvents(events, groups[k], maxEventsPerIssue);
      }
      assert groups[..|groups|] == groups;
      TrimKeepsOrder(start, done + Members(groups), maxEventsPerIssue);
    }
  }

  /** Rows are stored under their own keys, and occurrences in the order of their numbers. */
  predicate TablesOk(db: Db) {
    InRowOrder(db.events) && forall key :: key in db.issues ==> db.issues[key].issue.key == key
  }

  lemma MergeKeepsTables(db: Db, to: Key, head: Head, from: Key)
    requires TablesOk(db)
    ensures TablesOk(Merge(db, to, head, from))
  {
    CascadeKeepsOrder(MoveEvents(db.events, to, from), {from});
  }

  lemma CascadeKeepsOrder(events: seq<EventRow>, gone: set<Key>)
    requires InRowOrder(events)
    ensures InRowOrder(Cascade(events, gone))
  {
    FilterKeepsOrder(events, (row: EventRow) => row.key !in gone);
  }

  lemma AppendKeepsTables(db: Db, project: nat, e: Event)
    requires TablesOk(db)
    ensures TablesOk(Append(db, project, e))
  {}

  lemma NothingTrimmed(events: seq<EventRow>, n: nat)
    ensures TrimTouched(events, {}, n) == events
  {
    FilterAll(events, (row: EventRow) => Stays(events, {}, n, row));
  }

  lemma MentionsSnoc(captured: seq<Event>, i: nat)
    requires i < |captured|
    ensures forall fingerprint :: Mentions(captured[..i + 1], fingerprint)
              <==> Mentions(captured[..i], fingerprint) || fingerprint == captured[i].fingerprint
  {
    forall fingerprint
      ensures Mentions(captured[..i + 1], fingerprint)
         <==> Mentions(captured[..i], fingerprint) || fingerprint == captured[i].fingerprint
    {
      assert captured[..i + 1][i] == captured[i];
      if Mentions(captured[..i], fingerprint) {
        var k :| 0 <= k < i && captured[..i][k].fingerprint == fingerprint;
        assert captured[..i + 1][k].fingerprint == fingerprint;
      }
      if Mentions(captured[..i + 1], fingerprint) {
        var k :| 0 <= k <= i && captured[..i + 1][k].fingerprint == fingerprint;
        assert k < i ==> captured[..i][k].fingerprint == fingerprint;
      }
    }
  }

  lemma TrimKeepsOrder(events: seq<EventRow>, touched: set<Key>, n: nat)
    requires InRowOrder(events)
    ensures InRowOrder(TrimTouched(events, touched, n))
  {
    FilterKeepsOrder(events, (row: EventRow) => Stays(events, touched, n, row));
  }

  lemma DeleteKeepsTables(db: Db, gone: set<Key>)
    requires TablesOk(db)
    ensures TablesOk(DeleteIssues(db, gone))
  {
    CascadeKeepsOrder(db.events, gone);
  }

  // ---------------------------------------------------------------- the limit sweep

  lemma FirstCall(count: nat, limit: int)
    requires limit >= 1
    ensures count - Portion(count, limit) == KeptAfter(count, limit, 1) && Portion(count, limit) <= PRUNE_BATCH_SIZE
    ensures Portion(count, limit) == PRUNE_BATCH_SIZE <==> PRUNE_BATCH_SIZE <= count - Min(limit, count)
  {
    PortionsAddUp(count, limit, 0);
  }

  lemma LastCall(count: nat, limit: int, calls: nat)
    requires limit >= 1 && calls >= 1
    requires PRUNE_BATCH_SIZE * (calls - 1) <= count - Min(limit, count) < PRUNE_BATCH_SIZE * calls
    ensures KeptAfter(count, limit, calls) == Min(limit, count)
    ensures calls == (count - Min(limit, count)) / PRUNE_BATCH_SIZE + 1
  {}

  lemma SameListing(db: Db, project: nat, a: seq<Issue>, b: seq<Issue>)
    requires ListedAs(db, project, a) && ListedAs(db, project, b)
    ensures a == b
  {
    ListingIsUnique(Aggregates(db), project, AnyStatus, a, b);
  }

  // ---------------------------------------------------------------- the age sweep

  /** The oldest expired issues are the end of the listing. */
  method SelectExpired(db: Db, project: nat, cutoff: int) returns (gone: seq<Key>)
    requires TablesOk(db)
    ensures OldestExpired(db, project, cutoff, gone)
  {
    var l := Select(Aggregates(db), project, AnyStatus);
    var k := |l|;
    while k > 0 && |l| - k < PRUNE_BATCH_SIZE && l[k - 1].lastSeen < cutoff
      invariant 0 <= k <= |l| && |l| - k <= PRUNE_BATCH_SIZE
      invariant forall i :: k <= i < |l| ==> l[i].lastSeen < cutoff
    {
      k := k - 1;
    }
    gone := seq(|l| - k, i requires 0 <= i < |l| - k => l[k + i].key);
    EndIsOldest(db, project, cutoff, l, k, gone);
  }

  /** `gone` are the keys of the listing from index `k` on. */
  predicate IsEnd(l: seq<Issue>, k: nat, gone: seq<Key>) {
    k <= |l| && |gone| == |l| - k && forall i {:trigger gone[i]} :: 0 <= i < |gone| ==> gone[i] == l[k + i].key
  }

  lemma ExpiredAtEnd(db: Db, project: nat, cutoff: int, l: seq<Issue>, k: nat, gone: seq<Key>, key: Key)
    requires TablesOk(db) && ListedAs(db, project, l) && IsEnd(l, k, gone) && key in Expired(db, project, cutoff)
    ensures key in gone || exists i :: 0 <= i < k && l[i] == db.issues[key].issue
  {
    assert db.issues[key].issue in l;
    var i :| 0 <= i < |l| && l[i] == db.issues[key].issue;
    if i >= k {
      assert gone[i - k] == key;
    }
  }

  lemma EndIsExpired(db: Db, project: nat, cutoff: int, l: seq<Issue>, k: nat, gone: seq<Key>, i: nat)
    requires ListedAs(db, project, l) && IsEnd(l, k, gone) && i < |gone| && l[k + i].lastSeen < cutoff
    ensures gone[i] in Expired(db, project, cutoff) && gone[i] in db.issues && db.issues[gone[i]].issue == l[k + i]
  {
    assert l[k + i] in l;
  }

  lemma EndDiffers(db: Db, project: nat, l: seq<Issue>, k: nat, gone: seq<Key>, i: nat, j: nat)
    requires ListedAs(db, project, l) && IsEnd(l, k, gone) && i < j < |gone|
    ensures gone[i] != gone[j]
  {
    assert l[k + i] in l && l[k + j] in l;
    ListedKeysDiffer(l, k + i, k + j);
  }

  lemma FrontSurvives(l: seq<Issue>, k: nat, cutoff: int)
    requires InOrder(l) && k <= |l| && (k == 0 || l[k - 1].lastSeen >= cutoff)
    ensures forall j :: 0 <= j < k ==> l[j].lastSeen >= cutoff
  {
    forall j | 0 <= j < k ensures l[j].lastSeen >= cutoff {
      assert j < k - 1 ==> Before(CursorOf(l[j]), CursorOf(l[k - 1]));
    }
  }

  lemma EndIsOldest(db: Db, project: nat, cutoff: int, l: seq<Issue>, k: nat, gone: seq<Key>)
    requires TablesOk(db) && ListedAs(db, project, l) && IsEnd(l, k, gone) && |gone| <= PRUNE_BATCH_SIZE
    requires forall i :: k <= i < |l| ==> l[i].lastSeen < cutoff
    requires k == 0 || |gone| == PRUNE_BATCH_SIZE || l[k - 1].lastSeen >= cutoff
    ensures OldestExpired(db, project, cutoff, gone)
  {
    hide TablesOk, Expired, IsEnd;
    assert InOrder(l);
    assert |gone| == |l| - k by { EndLength(l, k, gone); }
    hide ListedAs;
    forall i | 0 <= i < |gone|
      ensures gone[i] in Expired(db, project, cutoff) && gone[i] in db.issues && db.issues[gone[i]].issue == l[k + i]
    {
      EndIsExpired(db, project, cutoff, l, k, gone, i);
    }
    forall i, j | 0 <= i < j < |gone| ensures gone[i] != gone[j] {
      EndDiffers(db, project, l, k, gone, i, j);
    }
    forall key, i {:trigger gone[i], db.issues[key]} | 0 <= i < |gone| && key in Expired(db, project, cutoff)
        && key !in gone
      ensures key in db.issues && db.issues[gone[i]].issue.lastSeen <= db.issues[key].issue.lastSeen
    {
      ExpiredAtEnd(db, project, cutoff, l, k, gone, key);
      ExpiredIsStored(db, project, cutoff, key);
      EndIsExpired(db, project, cutoff, l, k, gone, i);
      var j :| 0 <= j < k && l[j] == db.issues[key].issue;
      assert Before(CursorOf(l[j]), CursorOf(l[k + i]));
    }
    if |gone| < PRUNE_BATCH_SIZE {
      FrontSurvives(l, k, cutoff);
      var expired := Expired(db, project, cutoff);
      forall key | key in expired ensures key in gone {
        ExpiredAtEnd(db, project, cutoff, l, k, gone, key);
        ExpiredIsStored(db, project, cutoff, key);
      }
    }
  }

  lemma EndLength(l: seq<Issue>, k: nat, gone: seq<Key>)
    requires IsEnd(l, k, gone)
    ensures |gone| == |l| - k
  {}

  lemma ExpiredIsStored(db: Db, project: nat, cutoff: int, key: Key)
    requires key in Expired(db, project, cutoff)
    ensures key in db.issues && db.issues[key].issue.lastSeen < cutoff
  {}

  ghost predicate PortionsSoFar(start: Db, now: Db, project: nat, cutoff: int, gone: seq<Key>) {
    && now == DeleteIssues(start, Members(gone)) && Members(gone) <= Expired(start, project, cutoff)
    && forall i, j :: 0 <= i < j < |gone| ==> gone[i] != gone[j]
  }

  lemma NextPortion(start: Db, before: Db, project: nat, cutoff: int, gone: seq<Key>, part: seq<Key>)
    requires PortionsSoFar(start, before, project, cutoff, gone) && OldestExpired(before, project, cutoff, part)
    ensures PortionsSoFar(start, DeleteIssues(before, Members(part)), project, cutoff, gone + part)
    ensures var after := DeleteIssues(before, Members(part));
            && Expired(after, project, cutoff) == Expired(before, project, cutoff) - Members(part)
            && |part| <= PRUNE_BATCH_SIZE
            && (|part| < PRUNE_BATCH_SIZE ==> Expired(after, project, cutoff) == {})
            && (|part| > 0 ==> part[0] in Expired(before, project, cutoff) && part[0] in Members(part))
  {
    DeleteTwice(start, Members(gone), Members(part));
    assert Members(gone + part) == Members(gone) + Members(part);
    ExpiredAfter(start, project, cutoff, Members(gone));
    ExpiredAfter(before, project, cutoff, Members(part));
    forall key | key in Members(part) ensures key in Expired(before, project, cutoff) {
      var i :| 0 <= i < |part| && part[i] == key;
    }
  }

  lemma FirstPortion(start: Db, project: nat, cutoff: int, part: seq<Key>)
    requires OldestExpired(start, project, cutoff, part)
    ensures var after := DeleteIssues(start, Members(part));
            && PortionsSoFar(start, after, project, cutoff, part) && |part| <= PRUNE_BATCH_SIZE
            && (|part| < PRUNE_BATCH_SIZE ==> Expired(after, project, cutoff) == {})
  {
    DeleteNone(start);
    assert Members([]) == {};
    assert [] + part == part;
    NextPortion(start, start, project, cutoff, [], part);
  }

  lemma AllPortions(start: Db, now: Db, project: nat, cutoff: int, gone: seq<Key>)
    requires PortionsSoFar(start, now, project, cutoff, gone) && Expired(now, project, cutoff) == {}
    ensures Members(gone) == Expired(start, project, cutoff) && Sqlite.Lists(gone, Expired(start, project, cutoff))
  {
    ExpiredAfter(start, project, cutoff, Members(gone));
    forall key | key in Expired(start, project, cutoff) ensures key in Members(gone) {
      assert key !in Expired(now, project, cutoff);
    }
  }

  // ---------------------------------------------------------------- the reconciliation

  lemma MembersSnoc(keys: seq<Key>, k: nat)
    requires k < |keys| && forall i, j :: 0 <= i < j < |keys| ==> KeyBefore(keys[i], keys[j])
    ensures Members(keys[..k + 1]) == Members(keys[..k]) + {keys[k]} && keys[k] !in Members(keys[..k])
  {
    assert keys[..k + 1] == keys[..k] + [keys[k]];
  }

  lemma GroupsShrink(events: seq<EventRow>, n: nat, cursor: Option<Key>, groups: seq<Key>)
    requires NextGroups(events, n, cursor, groups) && groups != []
    ensures forall i {:trigger groups[i]} :: 0 <= i < |groups| ==> groups[i] !in Reached(events, n, cursor)
    ensures forall i, j :: 0 <= i < j < |groups| ==> KeyBefore(groups[i], groups[j])
    ensures Oversized(events, n, Some(groups[|groups| - 1])) < Oversized(events, n, cursor)
  {
    CursorReaches(events, n, cursor, groups);
    assert groups[0] in Oversized(events, n, cursor) && groups[0] in Members(groups);
  }

  lemma SameGroups(start: seq<EventRow>, events: seq<EventRow>, n: nat, cursor: Option<Key>, groups: seq<Key>)
    requires NextGroups(events, n, cursor, groups) && Oversized(events, n, cursor) == Oversized(start, n, cursor)
    ensures NextGroups(start, n, cursor, groups)
  {}

  lemma EverythingReached(events: seq<EventRow>, n: nat, cursor: Option<Key>)
    requires NextGroups(events, n, cursor, [])
    ensures Reached(events, n, cursor) == Oversized(events, n, None)
  {}
}
