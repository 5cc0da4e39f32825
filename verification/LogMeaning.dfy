/** An aggregate, a history and a refusal in terms of the entries of the log alone. */
module LogMeaning {
  import opened Options
  import opened IssueLog

  /** Entry number `i` records an event of the issue. */
  predicate RecordedAt(log: seq<Entry>, i: int, key: Key) {
    && 0 <= i < |log| && log[i].Recorded?
    && log[i].project == key.project && log[i].event.fingerprint == key.fingerprint
  }

  function RecordsOf(log: seq<Entry>, key: Key): set<int> {
    set i | 0 <= i < |log| && RecordedAt(log, i, key)
  }

  /** Every event recorded up to an entry, of whatever issue. */
  function RecordsUpTo(log: seq<Entry>, i: int): set<int> {
    set k | 0 <= k <= i && k < |log| && log[k].Recorded?
  }

  /** The last entry is one more record, or none. */
  lemma OneMoreRecord(log: seq<Entry>)
    requires log != []
    ensures var front, last := log[..|log| - 1], |log| - 1;
            |RecordsUpTo(log, last)| == |RecordsUpTo(front, last - 1)| + (if log[last].Recorded? then 1 else 0)
  {
    var front, last := log[..|log| - 1], |log| - 1;
    var before := RecordsUpTo(front, last - 1);
    assert forall k :: 0 <= k < last ==> front[k] == log[k];
    assert last !in before;
    if log[last].Recorded? {
      assert RecordsUpTo(log, last) == before + {last};
    } else {
      assert RecordsUpTo(log, last) == before;
    }
  }

  lemma {:induction false} CountIsSize(log: seq<Entry>)
    ensures Count(log) == |RecordsUpTo(log, |log| - 1)|
    decreases |log|
  {
    hide RecordsUpTo;
    if log == [] {
      NothingRecorded();
    } else {
      CountIsSize(log[..|log| - 1]);
      OneMoreRecord(log);
    }
  }

  lemma NothingRecorded()
    ensures RecordsUpTo([], -1) == {}
  {}

  /** The record numbers of an issue rise, so the k-th arrival is its k-th record. */
  lemma {:induction false} ArrivalAt(log: seq<Entry>, key: Key, k: nat) returns (i: int)
    requires k < |Arrivals(log, key)|
    ensures RecordedAt(log, i, key)
    ensures Arrivals(log, key)[k] == Numbered(|RecordsUpTo(log, i)|, log[i].event)
    ensures |Arrivals(log[..i], key)| == k
    decreases |log|
  {
    var front, last := log[..|log| - 1], |log| - 1;
    if k < |Arrivals(front, key)| {
      i := ArrivalAt(front, key, k);
      assert RecordsUpTo(log, i) == RecordsUpTo(front, i);
      assert front[..i] == log[..i];
    } else {
      i := last;
      CountIsSize(log);
    }
  }

  lemma {:induction false} RecordArrives(log: seq<Entry>, key: Key, i: int) returns (k: nat)
    requires RecordedAt(log, i, key)
    ensures k < |Arrivals(log, key)| && Arrivals(log, key)[k] == Numbered(|RecordsUpTo(log, i)|, log[i].event)
    ensures k == |Arrivals(log[..i], key)|
    decreases |log|
  {
    var front, last := log[..|log| - 1], |log| - 1;
    if i < last {
      k := RecordArrives(front, key, i);
      assert RecordsUpTo(log, i) == RecordsUpTo(front, i);
      assert front[..i] == log[..i];
    } else {
      k := |Arrivals(front, key)|;
      CountIsSize(log);
    }
  }

  lemma {:induction false} ArrivalsAreRecords(log: seq<Entry>, key: Key)
    ensures |Arrivals(log, key)| == |RecordsOf(log, key)|
    decreases |log|
  {
    if log == [] {
    } else {
      var front, last := log[..|log| - 1], |log| - 1;
      ArrivalsAreRecords(front, key);
      assert forall i :: RecordedAt(front, i, key) <==> i < last && RecordedAt(log, i, key);
      if RecordedAt(log, last, key) {
        assert RecordsOf(log, key) == RecordsOf(front, key) + {last};
      } else {
        assert RecordsOf(log, key) == RecordsOf(front, key);
      }
    }
  }

  /** Received later, or at the same time and recorded later. */
  predicate Later(log: seq<Entry>, i: int, j: int)
    requires 0 <= i < |log| && log[i].Recorded? && 0 <= j < |log| && log[j].Recorded?
  {
    log[i].event.receivedAt > log[j].event.receivedAt
    || (log[i].event.receivedAt == log[j].event.receivedAt && i > j)
  }

  lemma SizesGrow(log: seq<Entry>, i: int, j: int)
    requires 0 <= i < |log| && log[i].Recorded? && 0 <= j < |log| && log[j].Recorded?
    ensures |RecordsUpTo(log, i)| > |RecordsUpTo(log, j)| <==> i > j
  {
    if i > j {
      MoreRecords(log, i, j);
    } else if i < j {
      MoreRecords(log, j, i);
    }
  }

  lemma MoreRecords(log: seq<Entry>, i: int, j: int)
    requires 0 <= j < i < |log| && log[i].Recorded?
    ensures |RecordsUpTo(log, i)| > |RecordsUpTo(log, j)|
  {
    var more := RecordsUpTo(log, i) - RecordsUpTo(log, j);
    assert i in more;
    assert RecordsUpTo(log, i) == RecordsUpTo(log, j) + more;
  }

  /** An issue is there once an event of it has been recorded. */
  lemma IssueExists(log: seq<Entry>, key: Key)
    ensures IssueOf(log, key).Some? <==> exists i :: RecordedAt(log, i, key)
  {
    if Arrivals(log, key) != [] {
      var i := ArrivalAt(log, key, 0);
    }
    if i :| RecordedAt(log, i, key) {
      var k := RecordArrives(log, key, i);
    }
  }

  /**
   The issue counts all events recorded for it, has the head of the first one, the earliest and the latest time of
   any, and as its last event the latest one.
   */
  lemma IssueMeans(log: seq<Entry>, key: Key) returns (first: int, early: int, last: int)
    requires IssueOf(log, key).Some?
    ensures RecordedAt(log, first, key) && RecordedAt(log, early, key) && RecordedAt(log, last, key)
    ensures forall i :: RecordedAt(log, i, key) ==>
              i >= first && log[i].event.receivedAt >= log[early].event.receivedAt && (i == last || Later(log, last, i))
    ensures IssueOf(log, key).value
         == Issue(key, log[first].event.head, StatusOf(log, key), |RecordsOf(log, key)|, log[early].event.receivedAt,
                  log[last].event.receivedAt, log[last].event)
  {
    hide StatusOf, Sort, Earliest, Latest, Arrivals;
    var all := Arrivals(log, key);
    ArrivalsAreRecords(log, key);
    Extremes(all);
    ArrivalsRise(log, key);
    SortIsSorted(all);
    NewestIsLatest(all);
    first := ArrivalAt(log, key, 0);
    var e :| 0 <= e < |all| && all[e].event.receivedAt == Earliest(all);
    early := ArrivalAt(log, key, e);
    SortMembers(all);
    var newest := Sort(all)[0];
    assert newest in Sort(all);
    var n :| 0 <= n < |all| && all[n] == newest;
    last := ArrivalAt(log, key, n);
    forall i | RecordedAt(log, i, key)
      ensures i >= first && log[i].event.receivedAt >= log[early].event.receivedAt && (i == last || Later(log, last, i))
    {
      var k := RecordArrives(log, key, i);
      assert all[k].sequence >= all[0].sequence;
      SizesGrow(log, first, i);
      NewestOf(all, all[k]);
      SizesGrow(log, last, i);
      SizesGrow(log, i, last);
    }
  }

  lemma NewestOf(all: seq<Numbered>, x: Numbered)
    requires all != [] && Distinct(all) && x in all
    ensures |Sort(all)| == |all| && (x == Sort(all)[0] || Newer(Sort(all)[0], x))
  {
    SortIsSorted(all);
    SortMembers(all);
    var k :| 0 <= k < |all| && Sort(all)[k] == x;
  }

  // ---------------------------------------------------------------- refusals

  /** Midnight of 1 January of the year 1, in nanoseconds from 1970. */
  const YEAR_ONE := -62_135_596_800_000_000_000

  /** A batch is refused for want of a project, of events, or of a time, in this order. */
  lemma RefusalMeans(project: Option<nat>, captured: seq<Event>)
    ensures var undated := exists i :: 0 <= i < |captured| && captured[i].receivedAt == YEAR_ONE;
            && (Refusal(project, captured) == Some(ProjectRequired) <==> project == None)
            && (Refusal(project, captured) == Some(EventsRequired) <==> project.Some? && captured == [])
            && (Refusal(project, captured) == Some(ReceivedAtEmpty) <==> project.Some? && undated)
            && (Refusal(project, captured) == None <==> project.Some? && captured != [] && !undated)
  {}

  /** A status change is refused for want of a project, of a known status, or of an issue. */
  lemma StatusRefusalMeans(log: seq<Entry>, project: Option<nat>, fingerprint: nat, status: Option<Status>)
    ensures var refusal := StatusRefusal(log, project, fingerprint, status);
            && (refusal == Some(ProjectRequired) <==> project == None)
            && (refusal == Some(InvalidStatus) <==> project.Some? && status == None)
            && (refusal == Some(IssueNotFound) <==>
                  project.Some? && status.Some? && !exists i :: RecordedAt(log, i, Key(project.value, fingerprint)))
            && (refusal == None <==>
                  project.Some? && status.Some? && exists i :: RecordedAt(log, i, Key(project.value, fingerprint)))
  {
    hide IssueOf;
    if project.Some? {
      IssueExists(log, Key(project.value, fingerprint));
    }
  }
}
