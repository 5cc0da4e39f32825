/**
 What the issue store means, read off the log of everything ever recorded in it.

 Times are nanoseconds. Project identifiers and fingerprints are numbers: a fingerprint is 64 lower-case
 hexadecimal digits, which sort like the number they write.
 */
module IssueLog {
  import opened Options

  datatype Status = Open | Resolved | Ignored

  /** The event fields that an issue copies. */
  datatype Head = Head(kind: string, message: string, sourceURL: string, line: int, column: int)

  /** `fingerprint` and `legacy` are the current and the version 1 hash of the event. */
  datatype Event = Event(head: Head, receivedAt: int, fingerprint: nat, legacy: nat, rest: nat)

  datatype Key = Key(project: nat, fingerprint: nat)

  datatype Issue = Issue(key: Key, head: Head, status: Status, occurrences: nat,
                         firstSeen: int, lastSeen: int, lastEvent: Event)

  /** A stored occurrence with its sequence number. */
  datatype Numbered = Numbered(sequence: nat, event: Event)

  datatype StoreError = ProjectRequired | EventsRequired | ReceivedAtEmpty | InvalidStatus | IssueNotFound
                      | CutoffRequired | IssueLimitRequired

  datatype Result<+T> = Ok(value: T) | Err(error: StoreError)

  const MAX_EVENTS_PER_ISSUE := 1000
  const DEFAULT_MAX_EVENTS_PER_ISSUE := 100

  /** The zero time.Time, midnight of 1 January of the year 1, in nanoseconds from 1970. */
  const ZERO_TIME := -62_135_596_800_000_000_000

  datatype Entry = Recorded(project: nat, event: Event) | StatusSet(key: Key, status: Status)

  // ---------------------------------------------------------------- newest first

  predicate Newer(a: Numbered, b: Numbered) {
    a.event.receivedAt > b.event.receivedAt
    || (a.event.receivedAt == b.event.receivedAt && a.sequence > b.sequence)
  }

  predicate NewestFirst(h: seq<Numbered>) {
    forall i, j :: 0 <= i < j < |h| ==> Newer(h[i], h[j])
  }

  function Place(x: Numbered, h: seq<Numbered>): seq<Numbered> {
    if h == [] then [x] else if Newer(h[0], x) then [h[0]] + Place(x, h[1..]) else [x] + h
  }

  function PlaceAll(h: seq<Numbered>, xs: seq<Numbered>): seq<Numbered> {
    if xs == [] then h else Place(xs[|xs| - 1], PlaceAll(h, xs[..|xs| - 1]))
  }

  function Sort(xs: seq<Numbered>): seq<Numbered> {
    PlaceAll([], xs)
  }

  function Trim(n: nat, h: seq<Numbered>): seq<Numbered> {
    if |h| > n then h[..n] else h
  }

  function Events(h: seq<Numbered>): seq<Event> {
    seq(|h|, i requires 0 <= i < |h| => h[i].event)
  }

  predicate Distinct(xs: seq<Numbered>) {
    forall i, j :: 0 <= i < j < |xs| ==> xs[i].sequence != xs[j].sequence
  }

  predicate Rising(xs: seq<Numbered>) {
    forall i, j :: 0 <= i < j < |xs| ==> xs[i].sequence < xs[j].sequence
  }

  predicate AllBelow(xs: seq<Numbered>, n: int) {
    forall i :: 0 <= i < |xs| ==> xs[i].sequence < n
  }

  predicate Apart(x: Numbered, h: seq<Numbered>) {
    forall i :: 0 <= i < |h| ==> h[i].sequence != x.sequence
  }

  lemma NewerOrder(a: Numbered, b: Numbered, c: Numbered)
    ensures Newer(a, b) && Newer(b, c) ==> Newer(a, c)
    ensures a.sequence != b.sequence ==> Newer(a, b) || Newer(b, a)
    ensures !(Newer(a, b) && Newer(b, a)) && (Newer(a, b) ==> a.sequence != b.sequence || a != b)
  {}

  lemma {:induction false} PlaceKeeps(x: Numbered, h: seq<Numbered>)
    ensures multiset(Place(x, h)) == multiset(h) + multiset{x} && |Place(x, h)| == |h| + 1
  {
    hide Newer;
    if h == [] {
    } else {
      assert h == [h[0]] + h[1..];
      if Newer(h[0], x) {
        PlaceKeeps(x, h[1..]);
      }
    }
  }

  lemma {:induction false} PlaceSorts(x: Numbered, h: seq<Numbered>)
    requires NewestFirst(h) && Apart(x, h)
    ensures NewestFirst(Place(x, h))
  {
    hide Newer;
    if h == [] {
    } else {
      if Newer(h[0], x) {
        PlaceSorts(x, h[1..]);
        PlaceKeeps(x, h[1..]);
        var rest := Place(x, h[1..]);
        forall i | 0 <= i < |rest| ensures Newer(h[0], rest[i]) {
          assert rest[i] in multiset(rest);
          assert rest[i] in multiset(h[1..]) || rest[i] == x;
        }
      } else {
        forall j | 0 <= j < |h| ensures Newer(x, h[j]) {
          NewerOrder(h[0], x, x);
          NewerOrder(x, h[0], h[j]);
        }
      }
    }
  }

  lemma {:induction false} PlaceAllConcat(h: seq<Numbered>, a: seq<Numbered>, b: seq<Numbered>)
    ensures PlaceAll(h, a + b) == PlaceAll(PlaceAll(h, a), b)
    decreases |b|
  {
    if b == [] {
      assert a + b == a;
    } else {
      assert (a + b)[..|a + b| - 1] == a + b[..|b| - 1];
      PlaceAllConcat(h, a, b[..|b| - 1]);
    }
  }

  /** Sorting gives a newest-first arrangement of the same occurrences. */
  lemma {:induction false} SortIsSorted(xs: seq<Numbered>)
    ensures multiset(Sort(xs)) == multiset(xs) && |Sort(xs)| == |xs|
    ensures Distinct(xs) ==> NewestFirst(Sort(xs))
    decreases |xs|
  {
    if xs == [] {
    } else {
      var front, x := xs[..|xs| - 1], xs[|xs| - 1];
      assert xs == front + [x];
      SortIsSorted(front);
      PlaceKeeps(x, Sort(front));
      if Distinct(xs) {
        forall i | 0 <= i < |Sort(front)| ensures Sort(front)[i].sequence != x.sequence {
          assert Sort(front)[i] in multiset(front);
        }
        PlaceSorts(x, Sort(front));
      }
    }
  }

  lemma HeadsAgree(a: seq<Numbered>, b: seq<Numbered>)
    requires NewestFirst(a) && NewestFirst(b) && a != [] && b != [] && a[0] in b && b[0] in a
    ensures a[0] == b[0]
  {
    hide Newer;
    var i :| 0 <= i < |a| && a[i] == b[0];
    var j :| 0 <= j < |b| && b[j] == a[0];
    NewerOrder(a[0], b[0], b[0]);
  }

  lemma HeadIsOnce(a: seq<Numbered>)
    requires NewestFirst(a) && a != []
    ensures forall x :: x in a[1..] <==> x in a && x != a[0]
  {
    assert a == [a[0]] + a[1..];
    forall i | 1 <= i < |a| ensures a[i] != a[0] {
      assert Newer(a[0], a[i]);
    }
  }

  /** There is only one newest-first arrangement of the same occurrences. */
  lemma {:induction false} NewestFirstByMembers(a: seq<Numbered>, b: seq<Numbered>)
    requires NewestFirst(a) && NewestFirst(b) && forall x :: x in a <==> x in b
    ensures a == b
  {
    hide Newer;
    assert (a != [] ==> a[0] in b) && (b != [] ==> b[0] in a);
    if a == [] {
    } else {
      HeadsAgree(a, b);
      HeadIsOnce(a);
      HeadIsOnce(b);
      NewestFirstByMembers(a[1..], b[1..]);
    }
  }

  /** Whatever way of sorting puts the newest first, this is its result. */
  lemma SortIsTheArrangement(xs: seq<Numbered>, h: seq<Numbered>)
    requires Distinct(xs) && NewestFirst(h) && multiset(h) == multiset(xs)
    ensures Sort(xs) == h
  {
    hide Newer;
    SortIsSorted(xs);
    forall x ensures x in Sort(xs) <==> x in h {
      assert x in multiset(Sort(xs)) <==> x in multiset(h);
    }
    NewestFirstByMembers(Sort(xs), h);
  }

  lemma {:induction false} PlaceLast(x: Numbered, h: seq<Numbered>)
    requires forall i :: 0 <= i < |h| ==> Newer(h[i], x)
    ensures Place(x, h) == h + [x]
  {
    if h == [] {
    } else {
      PlaceLast(x, h[1..]);
      assert h == [h[0]] + h[1..];
    }
  }

  lemma {:induction false} SortedStays(h: seq<Numbered>)
    requires NewestFirst(h)
    ensures Sort(h) == h
    decreases |h|
  {
    hide Newer;
    if h == [] {
    } else {
      SortedStays(h[..|h| - 1]);
      PlaceLast(h[|h| - 1], h[..|h| - 1]);
    }
  }

  /** Trimming before an insertion changes nothing once the result is trimmed. */
  lemma {:induction false} TrimPlace(n: nat, x: Numbered, h: seq<Numbered>)
    ensures Trim(n, Place(x, Trim(n, h))) == Trim(n, Place(x, h))
    decreases n
  {
    hide Newer;
    PlaceLength(x, h);
    PlaceLength(x, Trim(n, h));
    if n > 0 && h != [] {
      var cut := Trim(n, h);
      assert cut[0] == h[0] && cut[1..] == Trim(n - 1, h[1..]);
      if Newer(h[0], x) {
        TrimPlace(n - 1, x, h[1..]);
        TrimCons(n, h[0], Place(x, h[1..]));
        TrimCons(n, h[0], Place(x, cut[1..]));
      } else {
        TrimCons(n, x, h);
        TrimCons(n, x, cut);
        assert Trim(n - 1, cut) == Trim(n - 1, h);
      }
    }
  }

  lemma PlaceLength(x: Numbered, h: seq<Numbered>)
    ensures |Place(x, h)| == |h| + 1
  {
    PlaceKeeps(x, h);
  }

  lemma TrimCons(n: nat, x: Numbered, h: seq<Numbered>)
    requires n > 0
    ensures Trim(n, [x] + h) == [x] + Trim(n - 1, h)
  {}

  lemma {:induction false} TrimPlaceAll(n: nat, h: seq<Numbered>, xs: seq<Numbered>)
    ensures Trim(n, PlaceAll(Trim(n, h), xs)) == Trim(n, PlaceAll(h, xs))
    decreases |xs|
  {
    if xs == [] {
    } else {
      var front, x := xs[..|xs| - 1], xs[|xs| - 1];
      TrimPlaceAll(n, h, front);
      TrimPlace(n, x, PlaceAll(Trim(n, h), front));
      TrimPlace(n, x, PlaceAll(h, front));
    }
  }

  // ---------------------------------------------------------------- what a log means

  function Count(log: seq<Entry>): nat {
    if log == [] then 0 else Count(log[..|log| - 1]) + (if log[|log| - 1].Recorded? then 1 else 0)
  }

  predicate About(entry: Entry, key: Key) {
    match entry
    case Recorded(project, event) => Key(project, event.fingerprint) == key
    case StatusSet(k, _) => k == key
  }

  /** The events recorded for one issue, numbered in the order in which the store received them. */
  function Arrivals(log: seq<Entry>, key: Key): seq<Numbered> {
    if log == [] then []
    else
      var last := log[|log| - 1];
      Arrivals(log[..|log| - 1], key)
      + (if last.Recorded? && About(last, key) then [Numbered(Count(log), last.event)] else [])
  }

  /** A recurrence reopens a resolved issue and leaves an ignored one alone. */
  function Recurs(status: Status): Status {
    if status == Resolved then Open else status
  }

  function StatusOf(log: seq<Entry>, key: Key): Status {
    if log == [] then Open
    else
      var last := log[|log| - 1];
      var before := StatusOf(log[..|log| - 1], key);
      if !About(last, key) then before else if last.StatusSet? then last.status else Recurs(before)
  }

  function Earliest(xs: seq<Numbered>): int
    requires xs != []
  {
    var t := xs[|xs| - 1].event.receivedAt;
    if |xs| == 1 || t < Earliest(xs[..|xs| - 1]) then t else Earliest(xs[..|xs| - 1])
  }

  function Latest(xs: seq<Numbered>): int
    requires xs != []
  {
    var t := xs[|xs| - 1].event.receivedAt;
    if |xs| == 1 || t > Latest(xs[..|xs| - 1]) then t else Latest(xs[..|xs| - 1])
  }

  /** The newest `n` of all the events ever recorded for an issue. */
  function History(n: nat, log: seq<Entry>, key: Key): seq<Numbered> {
    Trim(n, Sort(Arrivals(log, key)))
  }

  function Aggregate(key: Key, all: seq<Numbered>, status: Status): Option<Issue> {
    if all == [] then None
    else
      SortIsSorted(all);
      Some(Issue(key, all[0].event.head, status, |all|, Earliest(all), Latest(all), Sort(all)[0].event))
  }

  /** Lifetime count, minimum, maximum and newest event, whatever was trimmed. */
  function IssueOf(log: seq<Entry>, key: Key): Option<Issue> {
    Aggregate(key, Arrivals(log, key), StatusOf(log, key))
  }

  lemma {:induction false} ArrivalsConcat(a: seq<Entry>, b: seq<Entry>, key: Key)
    ensures Count(a + b) >= Count(a) && Arrivals(a, key) <= Arrivals(a + b, key)
    decreases |b|
  {
    if b == [] {
      assert a + b == a;
    } else {
      assert (a + b)[..|a + b| - 1] == a + b[..|b| - 1];
      ArrivalsConcat(a, b[..|b| - 1], key);
    }
  }

  lemma {:induction false} ArrivalsRise(log: seq<Entry>, key: Key)
    ensures Rising(Arrivals(log, key)) && AllBelow(Arrivals(log, key), Count(log) + 1)
    decreases |log|
  {
    if log == [] {
    } else {
      ArrivalsRise(log[..|log| - 1], key);
    }
  }

  lemma {:induction false} Extremes(xs: seq<Numbered>)
    requires xs != []
    ensures forall i :: 0 <= i < |xs| ==> Earliest(xs) <= xs[i].event.receivedAt <= Latest(xs)
    ensures exists i :: 0 <= i < |xs| && xs[i].event.receivedAt == Earliest(xs)
    ensures exists i :: 0 <= i < |xs| && xs[i].event.receivedAt == Latest(xs)
    decreases |xs|
  {
    var front, last := xs[..|xs| - 1], xs[|xs| - 1];
    assert xs[|xs| - 1] == last;
    if front == [] {
    } else {
      Extremes(front);
      var i :| 0 <= i < |front| && front[i].event.receivedAt == Earliest(front);
      var j :| 0 <= j < |front| && front[j].event.receivedAt == Latest(front);
      assert xs[i] == front[i] && xs[j] == front[j];
    }
  }

  lemma NewestIsLatest(xs: seq<Numbered>)
    requires xs != [] && Distinct(xs)
    ensures |Sort(xs)| == |xs| && Sort(xs)[0].event.receivedAt == Latest(xs)
  {
    SortIsSorted(xs);
    Extremes(xs);
    var s := Sort(xs);
    var i :| 0 <= i < |xs| && xs[i].event.receivedAt == Latest(xs);
    assert xs[i] in multiset(s) && s[0] in multiset(xs);
    var k :| 0 <= k < |s| && s[k] == xs[i];
    assert k > 0 ==> Newer(s[0], s[k]);
  }

  // ---------------------------------------------------------------- one more entry

  /** The part of RecordBatch that updates one aggregate. */
  function Absorb(found: Option<Issue>, project: nat, e: Event): Issue {
    var issue :=
      if found == None then Issue(Key(project, e.fingerprint), e.head, Open, 0, e.receivedAt, e.receivedAt, e)
      else found.value.(status := Recurs(found.value.status));
    var counted := issue.(occurrences := issue.occurrences + 1);
    var first := if e.receivedAt < counted.firstSeen then counted.(firstSeen := e.receivedAt) else counted;
    if e.receivedAt >= first.lastSeen then first.(lastSeen := e.receivedAt, lastEvent := e) else first
  }

  lemma OneMoreEntry(log: seq<Entry>, entry: Entry, key: Key)
    ensures Arrivals(log + [entry], key)
         == if entry.Recorded? && About(entry, key) then Arrivals(log, key) + [Numbered(Count(log) + 1, entry.event)]
            else Arrivals(log, key)
    ensures Count(log + [entry]) == Count(log) + (if entry.Recorded? then 1 else 0)
    ensures StatusOf(log + [entry], key)
         == if !About(entry, key) then StatusOf(log, key)
            else if entry.StatusSet? then entry.status else Recurs(StatusOf(log, key))
  {
    assert (log + [entry])[..|log + [entry]| - 1] == log;
  }

  lemma PlaceFront(xs: seq<Numbered>, x: Numbered)
    ensures xs == [] ==> Sort(xs + [x]) == [x]
    ensures xs != [] ==> |Sort(xs)| == |xs| && |Sort(xs + [x])| == |xs| + 1
    ensures xs != [] ==> Sort(xs + [x])[0] == if Newer(Sort(xs)[0], x) then Sort(xs)[0] else x
  {
    SortIsSorted(xs);
    SortIsSorted(xs + [x]);
    assert (xs + [x])[..|xs + [x]| - 1] == xs;
    assert xs == [] ==> [x][..0] == [];
  }

  lemma {:induction false} StatusBeforeArrival(log: seq<Entry>, key: Key)
    requires Arrivals(log, key) == [] && forall i :: 0 <= i < |log| ==> !(log[i].StatusSet? && log[i].key == key)
    ensures StatusOf(log, key) == Open
    decreases |log|
  {
    if log == [] {
    } else {
      StatusBeforeArrival(log[..|log| - 1], key);
    }
  }

  /** Statuses are only ever set on issues that exist. */
  predicate Proper(log: seq<Entry>) {
    log != [] ==>
      && Proper(log[..|log| - 1])
      && (log[|log| - 1].StatusSet? ==> Arrivals(log[..|log| - 1], log[|log| - 1].key) != [])
  }

  lemma {:induction false} ProperStatus(log: seq<Entry>, key: Key)
    requires Proper(log) && Arrivals(log, key) == []
    ensures StatusOf(log, key) == Open
    decreases |log|
  {
    if log == [] {
    } else {
      ProperStatus(log[..|log| - 1], key);
    }
  }

  lemma AbsorbArrival(key: Key, xs: seq<Numbered>, status: Status, x: Numbered)
    requires Rising(xs) && AllBelow(xs, x.sequence) && key.fingerprint == x.event.fingerprint
    requires xs == [] ==> status == Open
    ensures Aggregate(key, xs + [x], Recurs(status)) == Some(Absorb(Aggregate(key, xs, status), key.project, x.event))
  {
    hide Sort, Newer;
    assert (xs + [x])[..|xs + [x]| - 1] == xs;
    PlaceFront(xs, x);
    if xs != [] {
      NewestIsLatest(xs);
      SortIsSorted(xs);
      assert Sort(xs)[0] in multiset(xs);
      NewerThanLast(Sort(xs)[0], x);
    }
  }

  lemma NewerThanLast(a: Numbered, x: Numbered)
    requires a.sequence < x.sequence
    ensures Newer(a, x) <==> a.event.receivedAt > x.event.receivedAt
  {}

  /** Recording one event updates its own aggregate as the code does, and no other. */
  lemma RecordedIssue(log: seq<Entry>, project: nat, e: Event, key: Key)
    requires Proper(log)
    ensures Proper(log + [Recorded(project, e)])
    ensures IssueOf(log + [Recorded(project, e)], key)
         == if key == Key(project, e.fingerprint) then Some(Absorb(IssueOf(log, key), project, e))
             else IssueOf(log, key)
  {
    hide Sort, Newer, Aggregate, Absorb, Count, Arrivals, StatusOf;
    var entry := Recorded(project, e);
    OneMoreEntry(log, entry, key);
    assert (log + [entry])[..|log + [entry]| - 1] == log;
    if key == Key(project, e.fingerprint) {
      ArrivalsRise(log, key);
      if Arrivals(log, key) == [] {
        ProperStatus(log, key);
      }
      AbsorbArrival(key, Arrivals(log, key), StatusOf(log, key), Numbered(Count(log) + 1, e));
    }
  }

  lemma StatusSetIssue(log: seq<Entry>, changed: Key, status: Status, key: Key)
    requires Proper(log) && Arrivals(log, changed) != []
    ensures Proper(log + [StatusSet(changed, status)])
    ensures IssueOf(log + [StatusSet(changed, status)], key)
         == if key == changed then Some(IssueOf(log, key).value.(status := status)) else IssueOf(log, key)
  {
    hide Sort, Earliest, Latest, Count, StatusOf;
    var entry := StatusSet(changed, status);
    OneMoreEntry(log, entry, key);
    assert (log + [entry])[..|log + [entry]| - 1] == log;
  }

  // ---------------------------------------------------------------- batches

  function Batch(project: nat, captured: seq<Event>): seq<Entry> {
    seq(|captured|, i requires 0 <= i < |captured| => Recorded(project, captured[i]))
  }

  /** Why a batch is refused, if it is. A blank project identifier is None. */
  function Refusal(project: Option<nat>, captured: seq<Event>): Option<StoreError> {
    if project == None then Some(ProjectRequired)
    else if captured == [] then Some(EventsRequired)
    else if exists i :: 0 <= i < |captured| && captured[i].receivedAt == ZERO_TIME then Some(ReceivedAtEmpty)
    else None
  }

  /** Why a status change is refused, if it is. A status that is none of the three is None. */
  function StatusRefusal(log: seq<Entry>, project: Option<nat>, fingerprint: nat, status: Option<Status>)
    : Option<StoreError>
  {
    if project == None then Some(ProjectRequired)
    else if status == None then Some(InvalidStatus)
    else if IssueOf(log, Key(project.value, fingerprint)) == None then Some(IssueNotFound)
    else None
  }

  /** The arrivals of an issue that `log` has beyond its prefix `start`. */
  function Since(start: seq<Entry>, log: seq<Entry>, key: Key): seq<Numbered> {
    var a, b := Arrivals(start, key), Arrivals(log, key);
    if |a| <= |b| then b[|a|..] else []
  }

  /** Appending a batch to a trimmed history, sorting, and trimming again loses nothing that should be kept. */
  lemma HistoryGrows(n: nat, start: seq<Entry>, log: seq<Entry>, key: Key)
    requires start <= log
    ensures Trim(n, Sort(History(n, start, key) + Since(start, log, key))) == History(n, log, key)
  {
    hide Newer, Place, Arrivals;
    assert log == start + log[|start|..];
    ArrivalsConcat(start, log[|start|..], key);
    var a, recent := Arrivals(start, key), Since(start, log, key);
    var kept := Trim(n, Sort(a));
    assert Arrivals(log, key) == a + recent;
    ArrivalsRise(start, key);
    SortIsSorted(a);
    SortedStays(kept);
    PlaceAllConcat([], kept, recent);
    PlaceAllConcat([], a, recent);
    TrimPlaceAll(n, Sort(a), recent);
  }

  lemma BatchSnoc(project: nat, captured: seq<Event>, i: nat)
    requires i < |captured|
    ensures Batch(project, captured[..i + 1]) == Batch(project, captured[..i]) + [Recorded(project, captured[i])]
  {}

  /** Every event of a batch reaches its issue. */
  lemma BatchArrives(start: seq<Entry>, project: nat, captured: seq<Event>, i: nat)
    requires i < |captured|
    ensures Arrivals(start + Batch(project, captured), Key(project, captured[i].fingerprint)) != []
  {
    hide Arrivals, Count;
    var log := start + Batch(project, captured);
    var n := |start| + i;
    var key := Key(project, captured[i].fingerprint);
    assert log == log[..n] + [log[n]] + log[n + 1..];
    OneMoreEntry(log[..n], log[n], key);
    ArrivalsConcat(log[..n] + [log[n]], log[n + 1..], key);
  }

  lemma NothingSince(n: nat, start: seq<Entry>, key: Key)
    ensures History(n, start, key) + Since(start, start, key) == History(n, start, key)
  {}

  lemma SinceGrows(start: seq<Entry>, log: seq<Entry>, project: nat, e: Event, key: Key)
    requires start <= log
    ensures var log' := log + [Recorded(project, e)];
            && Arrivals(start, key) <= Arrivals(log, key)
            && Since(start, log', key)
            == if key == Key(project, e.fingerprint) then Since(start, log, key) + [Numbered(Count(log) + 1, e)]
               else Since(start, log, key)
  {
    hide Arrivals, Count;
    assert log == start + log[|start|..];
    ArrivalsConcat(start, log[|start|..], key);
    OneMoreEntry(log, Recorded(project, e), key);
  }

  // ---------------------------------------------------------------- what the aggregates promise

  /** The newest retained event is the issue's last event. */
  lemma LastEventIsNewest(n: nat, log: seq<Entry>, key: Key)
    requires n >= 1 && IssueOf(log, key).Some?
    ensures History(n, log, key) != [] && History(n, log, key)[0].event == IssueOf(log, key).value.lastEvent
    ensures IssueOf(log, key).value.lastEvent.receivedAt == IssueOf(log, key).value.lastSeen
  {
    ArrivalsRise(log, key);
    SortIsSorted(Arrivals(log, key));
    NewestIsLatest(Arrivals(log, key));
  }

  lemma SortMembers(xs: seq<Numbered>)
    ensures forall x :: x in Sort(xs) <==> x in xs
  {
    SortIsSorted(xs);
    forall x ensures x in Sort(xs) <==> x in xs {
      assert x in multiset(Sort(xs)) <==> x in multiset(xs);
    }
  }

  lemma CutIsNewest(n: nat, s: seq<Numbered>, x: Numbered, y: Numbered)
    requires NewestFirst(s) && x in s && x !in Trim(n, s) && y in Trim(n, s)
    ensures Newer(y, x)
  {
    hide Newer;
    var i :| 0 <= i < |s| && s[i] == x;
    var j :| 0 <= j < |Trim(n, s)| && Trim(n, s)[j] == y;
    forall k | 0 <= k < |Trim(n, s)| ensures s[k] in Trim(n, s) {
      assert Trim(n, s)[k] == s[k];
    }
  }

  /** What is retained is newer than everything dropped. */
  lemma HistoryIsNewest(n: nat, log: seq<Entry>, key: Key)
    ensures var all, kept := Arrivals(log, key), History(n, log, key);
            && NewestFirst(kept) && |kept| == (if |all| < n then |all| else n)
            && (forall x :: x in kept ==> x in all)
            && (forall x, y :: x in all && x !in kept && y in kept ==> Newer(y, x))
  {
    hide Sort, Newer, Arrivals;
    var all := Arrivals(log, key);
    ArrivalsRise(log, key);
    SortIsSorted(all);
    SortMembers(all);
    var kept := History(n, log, key);
    forall x, y | x in all && x !in kept && y in kept ensures Newer(y, x) {
      CutIsNewest(n, Sort(all), x, y);
    }
  }

  /** Index of the last entry about an issue that satisfies `p`, if any. */
  function LastWhere(log: seq<Entry>, p: Entry -> bool): (i: Option<nat>)
    ensures i.Some? ==> i.value < |log| && p(log[i.value])
    ensures forall k :: (if i.Some? then i.value < k else 0 <= k) && k < |log| ==> !p(log[k])
  {
    if log == [] then None
    else if p(log[|log| - 1]) then Some(|log| - 1) else LastWhere(log[..|log| - 1], p)
  }

  /**
   Triage: an issue is ignored while the last status set is ignored, resolved while nothing about it came
   after it was resolved, and open otherwise.
   */
  lemma {:induction false} StatusMeans(log: seq<Entry>, key: Key)
    ensures var chosen := LastWhere(log, e => About(e, key) && e.StatusSet?);
            var last := LastWhere(log, e => About(e, key));
            && (StatusOf(log, key) == Ignored <==> chosen.Some? && log[chosen.value].status == Ignored)
            && (StatusOf(log, key) == Resolved <==>
                  last.Some? && log[last.value].StatusSet? && log[last.value].status == Resolved)
    decreases |log|
  {
    if log == [] {
    } else {
      StatusMeans(log[..|log| - 1], key);
    }
  }

  /** However the log grows, an issue stays, its last sighting never moves back, and its count never falls. */
  lemma SeenNeverMovesBack(a: seq<Entry>, b: seq<Entry>, key: Key)
    requires IssueOf(a, key).Some?
    ensures IssueOf(a + b, key).Some?
    ensures IssueOf(a + b, key).value.lastSeen >= IssueOf(a, key).value.lastSeen
    ensures IssueOf(a + b, key).value.firstSeen <= IssueOf(a, key).value.firstSeen
    ensures IssueOf(a + b, key).value.occurrences >= IssueOf(a, key).value.occurrences
    ensures IssueOf(a + b, key).value.head == IssueOf(a, key).value.head
  {
    hide Sort, StatusOf;
    ArrivalsConcat(a, b, key);
    var some, all := Arrivals(a, key), Arrivals(a + b, key);
    Extremes(some);
    Extremes(all);
    var i :| 0 <= i < |some| && some[i].event.receivedAt == Latest(some);
    var j :| 0 <= j < |some| && some[j].event.receivedAt == Earliest(some);
    assert all[i] == some[i] && all[j] == some[j] && all[0] == some[0];
  }
}
