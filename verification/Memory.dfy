/** The in-memory issue store: two maps and a counter, kept equal to what the log of its calls means. */
module Memory {
  import opened Options
  import opened IssueLog
  import opened Listing
  import opened ListingMeaning

  /** An issue that got nothing since `start` keeps its history. */
  lemma UntouchedHistory(n: nat, start: seq<Entry>, log: seq<Entry>, key: Key)
    requires Arrivals(log, key) == Arrivals(start, key)
    ensures History(n, start, key) + Since(start, log, key) == History(n, log, key)
  {}

  lemma NoHistory(n: nat, start: seq<Entry>, log: seq<Entry>, key: Key)
    requires start <= log && Arrivals(log, key) == []
    ensures History(n, start, key) + Since(start, log, key) == []
  {
    assert log == start + log[|start|..];
    ArrivalsConcat(start, log[|start|..], key);
  }

  lemma RecordedEverywhere(start: seq<Entry>, log: seq<Entry>, project: nat, e: Event)
    requires start <= log && Proper(log)
    ensures var after, key := log + [Recorded(project, e)], Key(project, e.fingerprint);
            && start <= after && Proper(after)
            && (forall k {:trigger IssueOf(after, k)} ::
                  IssueOf(after, k) == if k == key then Some(Absorb(IssueOf(log, k), project, e)) else IssueOf(log, k))
            && (forall k {:trigger Since(start, after, k)} ::
                  Since(start, after, k)
                  == if k == key then Since(start, log, k) + [Numbered(Count(log) + 1, e)] else Since(start, log, k))
            && (forall k {:trigger Arrivals(after, k)} ::
                  Arrivals(after, k) != [] <==> k == key || Arrivals(log, k) != [])
  {
    hide IssueOf, Arrivals, Since, Absorb, Count, Proper;
    var after, key := log + [Recorded(project, e)], Key(project, e.fingerprint);
    RecordedIssue(log, project, e, key);
    forall k {:trigger IssueOf(after, k)}
      ensures IssueOf(after, k) == if k == key then Some(Absorb(IssueOf(log, k), project, e)) else IssueOf(log, k)
    {
      RecordedIssue(log, project, e, k);
    }
    forall k {:trigger Since(start, after, k)}
      ensures Since(start, after, k)
           == if k == key then Since(start, log, k) + [Numbered(Count(log) + 1, e)] else Since(start, log, k)
    {
      SinceGrows(start, log, project, e, k);
    }
    forall k {:trigger Arrivals(after, k)} ensures Arrivals(after, k) != [] <==> k == key || Arrivals(log, k) != [] {
      OneMoreEntry(log, Recorded(project, e), k);
    }
  }

  lemma TouchedGrows(start: seq<Entry>, log: seq<Entry>, project: nat, e: Event, key: Key)
    requires start <= log
    ensures Arrivals(log + [Recorded(project, e)], key) != Arrivals(start, key)
       <==> key == Key(project, e.fingerprint) || Arrivals(log, key) != Arrivals(start, key)
  {
    SinceGrows(start, log, project, e, key);
    OneMoreEntry(log, Recorded(project, e), key);
  }

  lemma BatchIs(project: nat, captured: seq<Event>)
    ensures |Batch(project, captured)| == |captured|
    ensures forall i :: 0 <= i < |captured| ==> Batch(project, captured)[i] == Recorded(project, captured[i])
  {}

  lemma NoBatch(project: nat)
    ensures Batch(project, []) == []
  {}

  class Memory {
    var issues: map<Key, Issue>
    var events: map<Key, seq<Numbered>>
    var nextEventSequence: nat
    const maxEventsPerIssue: nat
    ghost var log: seq<Entry>

    ghost predicate IssuesMatch()
      reads this
    {
      && Proper(log) && nextEventSequence == Count(log)
      && forall key {:trigger key in issues} {:trigger IssueOf(log, key)} ::
           IssueOf(log, key) == if key in issues then Some(issues[key]) else None
    }

    /** The histories of `start`, with what was recorded since appended to them. */
    ghost predicate EventsExtend(start: seq<Entry>)
      reads this
    {
      && start <= log
      && forall key {:trigger events[key]} {:trigger key in events} ::
           && (key in events <==> Arrivals(log, key) != [])
           && (key in events ==> events[key] == History(maxEventsPerIssue, start, key) + Since(start, log, key))
    }

    /** The whole state is a function of the log: whole-life aggregates and the newest events of each issue. */
    ghost predicate Valid()
      reads this
    {
      && 1 <= maxEventsPerIssue <= MAX_EVENTS_PER_ISSUE && IssuesMatch()
      && forall key {:trigger events[key]} {:trigger key in events} ::
           && (key in events <==> Arrivals(log, key) != [])
           && (key in events ==> events[key] == History(maxEventsPerIssue, log, key))
    }

    constructor (maximum: int)
      ensures Valid() && log == []
      ensures maxEventsPerIssue
           == if 1 <= maximum <= 1000 then maximum else 100
    {
      issues, events, nextEventSequence := map[], map[], 0;
      maxEventsPerIssue :=
        if maximum < 1 || maximum > MAX_EVENTS_PER_ISSUE then DEFAULT_MAX_EVENTS_PER_ISSUE else maximum;
      log := [];
    }

    method RecordBatch(project: Option<nat>, captured: seq<Event>) returns (r: Result<seq<Issue>>)
      requires Valid()
      modifies this
      ensures Valid()
      ensures Refusal(project, captured).Some? ==> r == Err(Refusal(project, captured).value) && unchanged(this)
      ensures Refusal(project, captured) == None ==>
                && log == old(log) + Batch(project.value, captured)
                && |log| == |old(log)| + |captured|
                && (forall i :: 0 <= i < |captured| ==> log[|old(log)| + i] == Recorded(project.value, captured[i]))
                && r.Ok? && |r.value| == |captured|
                && forall i :: 0 <= i < |captured| ==>
                     Some(r.value[i]) == IssueOf(log, Key(project.value, captured[i].fingerprint))
    {
      hide IssueOf, Arrivals, History, Since, Count, Proper, Batch;
      if project == None {
        return Err(ProjectRequired);
      }
      if captured == [] {
        return Err(EventsRequired);
      }
      for i := 0 to |captured|
        invariant forall k :: 0 <= k < i ==> captured[k].receivedAt != ZERO_TIME
      {
        if captured[i].receivedAt == ZERO_TIME {
          return Err(ReceivedAtEmpty);
        }
      }
      var touched := AppendBatch(project.value, captured);
      TrimTouched(touched, old(log));
      var recorded := ReadBack(project.value, captured, old(log));
      BatchIs(project.value, captured);
      return Ok(recorded);
    }

    method ReadBack(project: nat, captured: seq<Event>, ghost start: seq<Entry>) returns (recorded: seq<Issue>)
      requires IssuesMatch() && log == start + Batch(project, captured)
      ensures |recorded| == |captured|
      ensures forall i :: 0 <= i < |captured| ==>
                Some(recorded[i]) == IssueOf(log, Key(project, captured[i].fingerprint))
    {
      hide Arrivals, Count, Proper, Batch, StatusOf;
      recorded := [];
      for i := 0 to |captured|
        invariant |recorded| == i
        invariant forall k :: 0 <= k < i ==> Some(recorded[k]) == IssueOf(log, Key(project, captured[k].fingerprint))
      {
        var key := Key(project, captured[i].fingerprint);
        BatchArrives(start, project, captured, i);
        assert IssueOf(log, key).Some?;
        recorded := recorded + [issues[key]];
      }
    }

    method AppendBatch(project: nat, captured: seq<Event>) returns (touched: set<Key>)
      requires Valid()
      modifies this
      ensures log == old(log) + Batch(project, captured) && IssuesMatch() && EventsExtend(old(log))
      ensures forall key :: key in touched <==> Arrivals(log, key) != Arrivals(old(log), key)
    {
      hide IssueOf, Arrivals, History, Since, Count, Proper, Batch;
      touched := {};
      assert log + Batch(project, captured[..0]) == log by { NoBatch(project); }
      ghost var start := log;
      forall key ensures History(maxEventsPerIssue, start, key) + Since(start, start, key)
                      == History(maxEventsPerIssue, start, key)
      {
        NothingSince(maxEventsPerIssue, start, key);
      }
      for i := 0 to |captured|
        invariant IssuesMatch() && EventsExtend(start)
        invariant log == start + Batch(project, captured[..i])
        invariant forall key :: key in touched <==> Arrivals(log, key) != Arrivals(start, key)
      {
        BatchSnoc(project, captured, i);
        forall key {:trigger Arrivals(start, key)}
          ensures Arrivals(log + [Recorded(project, captured[i])], key) != Arrivals(start, key)
             <==> key == Key(project, captured[i].fingerprint) || Arrivals(log, key) != Arrivals(start, key)
        {
          TouchedGrows(start, log, project, captured[i], key);
        }
        AppendEvent(project, captured[i], start);
        touched := touched + {Key(project, captured[i].fingerprint)};
      }
      assert captured[..|captured|] == captured;
    }

    method AppendEvent(project: nat, item: Event, ghost start: seq<Entry>)
      requires IssuesMatch() && EventsExtend(start)
      modifies this
      ensures IssuesMatch() && EventsExtend(start) && log == old(log) + [Recorded(project, item)]
    {
      hide IssueOf, Arrivals, History, Since, Absorb, Count, Proper;
      var key := Key(project, item.fingerprint);
      ghost var after := log + [Recorded(project, item)];
      RecordedEverywhere(start, log, project, item);
      OneMoreEntry(log, Recorded(project, item), key);
      if key !in events {
        NoHistory(maxEventsPerIssue, start, log, key);
      }
      var found := if key in issues then Some(issues[key]) else None;
      issues := issues[key := Absorb(found, project, item)];
      nextEventSequence := nextEventSequence + 1;
      var history := if key in events then events[key] else [];
      events := events[key := history + [Numbered(nextEventSequence, item)]];
      log := log + [Recorded(project, item)];
    }

    method TrimTouched(touched: set<Key>, ghost start: seq<Entry>)
      requires 1 <= maxEventsPerIssue <= MAX_EVENTS_PER_ISSUE && IssuesMatch() && EventsExtend(start)
      requires forall key :: key in touched <==> Arrivals(log, key) != Arrivals(start, key)
      modifies this`events
      ensures Valid()
    {
      hide History, IssueOf, Arrivals, Proper, Sort, Since;
      ghost var appended := events;
      var left := touched;
      forall key | key in touched ensures Arrivals(log, key) != [] {
        assert log == start + log[|start|..];
        ArrivalsConcat(start, log[|start|..], key);
      }
      forall key | key in events && key !in touched
        ensures events[key] == History(maxEventsPerIssue, log, key)
      {
        UntouchedHistory(maxEventsPerIssue, start, log, key);
      }
      while left != {}
        invariant left <= touched && events.Keys == appended.Keys
        invariant forall key :: key in events && key in left ==> events[key] == appended[key]
        invariant forall key :: key in events && key !in left ==>
                    events[key] == History(maxEventsPerIssue, log, key)
      {
        var key :| key in left;
        HistoryGrows(maxEventsPerIssue, start, log, key);
        events := events[key := Trim(maxEventsPerIssue, Sort(events[key]))];
        left := left - {key};
      }
    }

    method SetIssueStatus(project: Option<nat>, fingerprint: nat, status: Option<Status>) returns (r: Result<Issue>)
      requires Valid()
      modifies this
      ensures Valid()
      ensures var refusal := StatusRefusal(old(log), project, fingerprint, status);
              if refusal.Some? then r == Err(refusal.value) && unchanged(this)
              else && log == old(log) + [StatusSet(Key(project.value, fingerprint), status.value)]
                   && r.Ok? && Some(r.value) == IssueOf(log, Key(project.value, fingerprint))
    {
      hide Arrivals, History, Count, Proper, StatusOf, Aggregate;
      if project == None {
        return Err(ProjectRequired);
      }
      if status == None {
        return Err(InvalidStatus);
      }
      var key := Key(project.value, fingerprint);
      if key !in issues {
        return Err(IssueNotFound);
      }
      ghost var entry := StatusSet(key, status.value);
      StoredIssueArrived(log, key);
      forall k ensures Arrivals(log + [entry], k) == Arrivals(log, k)
                    && History(maxEventsPerIssue, log + [entry], k) == History(maxEventsPerIssue, log, k)
      {
        StatusKeepsHistory(maxEventsPerIssue, log, entry, k);
      }
      forall k {:trigger IssueOf(log + [entry], k)}
        ensures IssueOf(log + [entry], k)
             == if k == key then Some(IssueOf(log, key).value.(status := status.value)) else IssueOf(log, k)
      {
        StatusSetIssue(log, key, status.value, k);
      }
      StatusSetIssue(log, key, status.value, key);
      OneMoreEntry(log, entry, key);
      issues := issues[key := issues[key].(status := status.value)];
      log := log + [entry];
      return Ok(issues[key]);
    }

    method GetIssue(project: Option<nat>, fingerprint: nat) returns (r: Result<Issue>)
      requires Valid()
      ensures r == if project == None then Err(ProjectRequired)
                   else match IssueOf(log, Key(project.value, fingerprint))
                        case None => Err(IssueNotFound)
                        case Some(issue) => Ok(issue)
    {
      if project == None {
        return Err(ProjectRequired);
      }
      var key := Key(project.value, fingerprint);
      if key !in issues {
        return Err(IssueNotFound);
      }
      return Ok(issues[key]);
    }

    method ListIssues(project: Option<nat>, options: ListOptions)
      returns (r: Result<IssuePage>, ghost listing: seq<Issue>)
      requires Valid()
      ensures r == if project == None then Err(ProjectRequired)
                   else if options.status == Unknown then Err(InvalidStatus)
                   else Ok(Page(listing, Normalized(options)))
      ensures project.Some? && options.status != Unknown ==>
                && IsListing(issues, project.value, options.status, listing)
                && forall x :: x in listing <==>
                     Holds(issues, x) && x.key.project == project.value
                     && (options.status.Only? ==> x.status == options.status.status)
    {
      hide Page, Proper, StatusOf;
      listing := [];
      if project == None {
        r := Err(ProjectRequired);
        return;
      }
      if options.status == Unknown {
        r := Err(InvalidStatus);
        return;
      }
      IssuesAreKeyed();
      var sorted := Select(issues, project.value, options.status);
      listing := sorted;
      ListingMeans(issues, project.value, options.status, listing);
      r := Ok(Page(sorted, Normalized(options)));
    }

    lemma IssuesAreKeyed()
      requires Valid()
      ensures Keyed(issues)
    {
      forall key | key in issues ensures issues[key].key == key {
        assert IssueOf(log, key) == Some(issues[key]);
      }
    }

    method ListIssueEvents(project: Option<nat>, fingerprint: nat, limit: int, after: Option<EventCursor>)
      returns (r: Result<EventPage>)
      requires Valid()
      ensures r == if project == None then Err(ProjectRequired)
                   else if IssueOf(log, Key(project.value, fingerprint)) == None then Err(IssueNotFound)
                   else Ok(HistoryPage(History(maxEventsPerIssue, log, Key(project.value, fingerprint)),
                                       PageSize(limit), after))
    {
      if project == None {
        return Err(ProjectRequired);
      }
      var key := Key(project.value, fingerprint);
      if key !in issues {
        return Err(IssueNotFound);
      }
      StoredIssueArrived(log, key);
      return Ok(HistoryPage(events[key], PageSize(limit), after));
    }
  }

  lemma StoredIssueArrived(log: seq<Entry>, key: Key)
    requires IssueOf(log, key).Some?
    ensures Arrivals(log, key) != []
  {}

  lemma StatusKeepsHistory(n: nat, log: seq<Entry>, entry: Entry, key: Key)
    requires entry.StatusSet?
    ensures Arrivals(log + [entry], key) == Arrivals(log, key) && History(n, log + [entry], key) == History(n, log, key)
  {
    OneMoreEntry(log, entry, key);
  }

  /** Two stores that were told the same hold the same, down to the sequence numbers. */
  lemma SameLogSameState(a: Memory, b: Memory)
    requires a.Valid() && b.Valid() && a.log == b.log && a.maxEventsPerIssue == b.maxEventsPerIssue
    ensures a.issues == b.issues && a.events == b.events && a.nextEventSequence == b.nextEventSequence
  {
    hide Arrivals, History, Count, Proper, StatusOf, Aggregate, IssueOf;
    forall key ensures (key in a.issues <==> key in b.issues) && (key in a.issues ==> a.issues[key] == b.issues[key]) {
      assert IssueOf(a.log, key) == IssueOf(b.log, key);
    }
    assert a.issues.Keys == b.issues.Keys;
    assert a.events.Keys == b.events.Keys;
  }

  /** Recording one batch leaves the same state as recording it in two parts. */
  lemma PartsMakeTheWhole(whole: Memory, parts: Memory, start: seq<Entry>, project: nat, a: seq<Event>, b: seq<Event>)
    requires whole.Valid() && parts.Valid() && whole.maxEventsPerIssue == parts.maxEventsPerIssue
    requires whole.log == start + Batch(project, a + b)
    requires parts.log == start + Batch(project, a) + Batch(project, b)
    ensures whole.issues == parts.issues && whole.events == parts.events
    ensures whole.nextEventSequence == parts.nextEventSequence
  {
    assert Batch(project, a + b) == Batch(project, a) + Batch(project, b);
    assert whole.log == parts.log;
    SameLogSameState(whole, parts);
  }
}
