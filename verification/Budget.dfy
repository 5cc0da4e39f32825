/** The sliding one-minute capture budget of the browser client. */
module Budget {
  const WINDOW := 60_000

  function Keep(stamps: seq<int>, low: int, high: int): seq<int> {
    if stamps == [] then []
    else Keep(stamps[..|stamps| - 1], low, high)
         + (if low < stamps[|stamps| - 1] <= high then [stamps[|stamps| - 1]] else [])
  }

  predicate Sorted(stamps: seq<int>) {
    forall i, j :: 0 <= i < j < |stamps| ==> stamps[i] <= stamps[j]
  }

  predicate Within(stamps: seq<int>, low: int, high: int) {
    forall i :: 0 <= i < |stamps| ==> low < stamps[i] <= high
  }

  predicate AtMost(stamps: seq<int>, high: int) {
    forall i :: 0 <= i < |stamps| ==> stamps[i] <= high
  }

  /** The stamps that still count at time `now`. */
  function Window(stamps: seq<int>, now: int): seq<int> {
    Keep(stamps, now - WINDOW, now)
  }

  lemma {:induction false} KeepConcat(a: seq<int>, b: seq<int>, low: int, high: int)
    ensures Keep(a + b, low, high) == Keep(a, low, high) + Keep(b, low, high)
    decreases |b|
  {
    if b == [] {
      assert a + b == a;
    } else {
      assert (a + b)[..|a + b| - 1] == a + b[..|b| - 1];
      KeepConcat(a, b[..|b| - 1], low, high);
    }
  }

  lemma {:induction false} KeepAll(a: seq<int>, low: int, high: int)
    requires Within(a, low, high)
    ensures Keep(a, low, high) == a
    decreases |a|
  {
    if a == [] {
    } else {
      KeepAll(a[..|a| - 1], low, high);
    }
  }

  lemma {:induction false} KeepNone(a: seq<int>, low: int, high: int)
    requires forall i :: 0 <= i < |a| ==> !(low < a[i] <= high)
    ensures Keep(a, low, high) == []
    decreases |a|
  {
    if a == [] {
    } else {
      KeepNone(a[..|a| - 1], low, high);
    }
  }

  lemma {:induction false} KeepIsSorted(a: seq<int>, low: int, high: int)
    requires Sorted(a)
    ensures Sorted(Keep(a, low, high)) && |Keep(a, low, high)| <= |a|
    ensures Within(Keep(a, low, high), low, high)
    ensures a != [] ==> AtMost(Keep(a, low, high), a[|a| - 1])
    decreases |a|
  {
    if a == [] {
    } else {
      KeepIsSorted(a[..|a| - 1], low, high);
      var kept := Keep(a[..|a| - 1], low, high);
      if |a| > 1 {
        assert a[|a| - 2] <= a[|a| - 1];
        assert AtMost(kept, a[|a| - 1]);
      }
    }
  }

  lemma {:induction false} KeepKeep(a: seq<int>, low: int, high: int, low2: int, high2: int)
    requires low <= low2 && high <= high2
    ensures Keep(Keep(a, low, high), low2, high2) == Keep(a, low2, high)
    decreases |a|
  {
    if a == [] {
    } else {
      var front, last := a[..|a| - 1], a[|a| - 1];
      KeepKeep(front, low, high, low2, high2);
      if low < last <= high {
        KeepConcat(Keep(front, low, high), [last], low2, high2);
        KeepOne(last, low2, high2);
      } else {
        assert Keep(a, low, high) == Keep(front, low, high);
      }
    }
  }

  lemma {:induction false} KeepSameHigh(a: seq<int>, low: int, high: int, high2: int)
    requires AtMost(a, high) && AtMost(a, high2)
    ensures Keep(a, low, high) == Keep(a, low, high2)
    decreases |a|
  {
    if a == [] {
    } else {
      KeepSameHigh(a[..|a| - 1], low, high, high2);
    }
  }

  lemma KeepOne(x: int, low: int, high: int)
    ensures Keep([x], low, high) == if low < x <= high then [x] else []
  {
    assert [x][..0] == [];
  }

  /** Both loops of the check. The caller then compares the length with its maximum. */
  method TrimStamps(stamps: seq<int>, now: int) returns (sentAt: seq<int>)
    requires Sorted(stamps)
    ensures sentAt == Window(stamps, now)
  {
    sentAt := ShiftOld(stamps, now - WINDOW);
    assert Window(stamps, now) == Window(sentAt, now);
    if sentAt != [] && sentAt[|sentAt| - 1] > now {
      sentAt := DropAhead(sentAt, now);
    } else {
      KeepAll(sentAt, now - WINDOW, now);
    }
  }

  method ShiftOld(stamps: seq<int>, cutoff: int) returns (sentAt: seq<int>)
    requires Sorted(stamps)
    ensures Sorted(sentAt) && (forall i :: 0 <= i < |sentAt| ==> cutoff < sentAt[i])
    ensures forall high :: Keep(stamps, cutoff, high) == Keep(sentAt, cutoff, high)
  {
    sentAt := stamps;
    while sentAt != [] && sentAt[0] <= cutoff
      invariant Sorted(sentAt)
      invariant forall high :: Keep(stamps, cutoff, high) == Keep(sentAt, cutoff, high)
      decreases |sentAt|
    {
      forall high ensures Keep(sentAt, cutoff, high) == Keep(sentAt[1..], cutoff, high) {
        KeepTail(sentAt, cutoff, high);
      }
      sentAt := sentAt[1..];
    }
  }

  lemma KeepTail(a: seq<int>, low: int, high: int)
    requires a != [] && a[0] <= low
    ensures Keep(a, low, high) == Keep(a[1..], low, high)
  {
    assert a == [a[0]] + a[1..];
    KeepConcat([a[0]], a[1..], low, high);
    KeepOne(a[0], low, high);
  }

  method DropAhead(stamps: seq<int>, now: int) returns (filtered: seq<int>)
    requires forall i :: 0 <= i < |stamps| ==> now - WINDOW < stamps[i]
    ensures filtered == Window(stamps, now)
  {
    filtered := [];
    for i := 0 to |stamps|
      invariant filtered == Keep(stamps[..i], now - WINDOW, now)
    {
      assert stamps[..i + 1][..i] == stamps[..i];
      if stamps[i] <= now {
        filtered := filtered + [stamps[i]];
      }
    }
    assert stamps[..|stamps|] == stamps;
  }

  // ---------------------------------------------------------------- runs of captures

  /** A capture that reached the budget check: its clock reading, and whether the queue then took it. */
  datatype Reading = Reading(now: int, queued: bool)
  /** The stamps kept by the client, and every stamp ever recorded. */
  datatype Books = Books(sentAt: seq<int>, all: seq<int>)

  function Check(maximum: nat, b: Books, r: Reading): Books {
    var kept := Window(b.sentAt, r.now);
    if |kept| < maximum && r.queued then Books(kept + [r.now], b.all + [r.now]) else Books(kept, b.all)
  }

  function Run(maximum: nat, rs: seq<Reading>): Books {
    if rs == [] then Books([], []) else Check(maximum, Run(maximum, rs[..|rs| - 1]), rs[|rs| - 1])
  }

  lemma RunSnoc(maximum: nat, rs: seq<Reading>, r: Reading)
    ensures Run(maximum, rs + [r]) == Check(maximum, Run(maximum, rs), r)
  {
    assert (rs + [r])[..|rs|] == rs;
  }

  /** Whatever the clock does, one check leaves sorted stamps, none of them ahead, none too old, and not too many. */
  lemma CheckKeepsOrder(maximum: nat, b: Books, r: Reading)
    requires Sorted(b.sentAt) && |b.sentAt| <= maximum
    ensures var sentAt := Check(maximum, b, r).sentAt;
            Sorted(sentAt) && |sentAt| <= maximum && Within(sentAt, r.now - WINDOW, r.now)
  {
    KeepIsSorted(b.sentAt, r.now - WINDOW, r.now);
  }

  lemma {:induction false} AnyClockKeepsOrder(maximum: nat, rs: seq<Reading>)
    requires rs != []
    ensures var sentAt := Run(maximum, rs).sentAt;
            && Sorted(sentAt) && |sentAt| <= maximum
            && Within(sentAt, rs[|rs| - 1].now - WINDOW, rs[|rs| - 1].now)
    decreases |rs|
  {
    if |rs| > 1 {
      AnyClockKeepsOrder(maximum, rs[..|rs| - 1]);
    } else {
      assert rs[..0] == [];
    }
    CheckKeepsOrder(maximum, Run(maximum, rs[..|rs| - 1]), rs[|rs| - 1]);
  }

  predicate Steady(rs: seq<Reading>) {
    forall i, j :: 0 <= i < j < |rs| ==> rs[i].now <= rs[j].now
  }

  lemma {:induction false} KeepWidens(a: seq<int>, low: int, high: int, low2: int, high2: int)
    requires low2 <= low && high <= high2
    ensures |Keep(a, low, high)| <= |Keep(a, low2, high2)|
    decreases |a|
  {
    if a == [] {
    } else {
      KeepWidens(a[..|a| - 1], low, high, low2, high2);
    }
  }

  /** The kept stamps are exactly the recorded ones of the last minute. */
  predicate UpToDate(b: Books, now: int) {
    b.sentAt == Window(b.all, now) && AtMost(b.all, now)
  }

  lemma RewindowedIsWindow(all: seq<int>, past: int, now: int)
    requires AtMost(all, past) && past <= now
    ensures Window(Window(all, past), now) == Window(all, now)
  {
    KeepKeep(all, past - WINDOW, past, now - WINDOW, now);
    KeepSameHigh(all, now - WINDOW, past, now);
  }

  lemma WindowAppend(all: seq<int>, now: int)
    ensures Window(all + [now], now) == Window(all, now) + [now]
  {
    KeepConcat(all, [now], now - WINDOW, now);
    KeepOne(now, now - WINDOW, now);
  }

  lemma CheckKeepsUpToDate(maximum: nat, b: Books, past: int, r: Reading)
    requires UpToDate(b, past) && past <= r.now
    ensures UpToDate(Check(maximum, b, r), r.now)
  {
    RewindowedIsWindow(b.all, past, r.now);
    WindowAppend(b.all, r.now);
  }

  lemma {:induction false} SteadyClockIsUpToDate(maximum: nat, rs: seq<Reading>)
    requires Steady(rs) && rs != []
    ensures UpToDate(Run(maximum, rs), rs[|rs| - 1].now)
    decreases |rs|
  {
    var front, last := rs[..|rs| - 1], rs[|rs| - 1];
    if front != [] {
      SteadyClockIsUpToDate(maximum, front);
      CheckKeepsUpToDate(maximum, Run(maximum, front), front[|front| - 1].now, last);
    } else {
      CheckKeepsUpToDate(maximum, Books([], []), last.now, last);
    }
  }

  /** No minute (t - 60000, t] ever holds more than the maximum of recorded captures. */
  lemma {:induction false} EveryWindowIsBounded(maximum: nat, rs: seq<Reading>, t: int)
    requires Steady(rs)
    ensures |Window(Run(maximum, rs).all, t)| <= maximum
    decreases |rs|
  {
    if rs == [] {
    } else {
      var front, last := rs[..|rs| - 1], rs[|rs| - 1];
      EveryWindowIsBounded(maximum, front, t);
      if t < last.now {
        LaterIsOutside(maximum, Run(maximum, front), last, t);
      } else {
        AnyClockKeepsOrder(maximum, rs);
        SteadyClockIsUpToDate(maximum, rs);
        LaterSeesLess(Run(maximum, rs), last.now, t);
      }
    }
  }

  lemma LaterSeesLess(b: Books, now: int, t: int)
    requires UpToDate(b, now) && now <= t
    ensures |Window(b.all, t)| <= |b.sentAt|
  {
    KeepSameHigh(b.all, t - WINDOW, now, t);
    KeepWidens(b.all, t - WINDOW, now, now - WINDOW, now);
  }

  lemma LaterIsOutside(maximum: nat, b: Books, r: Reading, t: int)
    requires t < r.now
    ensures Window(Check(maximum, b, r).all, t) == Window(b.all, t)
  {
    KeepConcat(b.all, [r.now], t - WINDOW, t);
    KeepOne(r.now, t - WINDOW, t);
  }
}
