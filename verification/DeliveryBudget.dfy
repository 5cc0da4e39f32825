/** What a capture does to the queue and to the one-minute budget, on every run of the delivery machine. */
module DeliveryBudget {
  import opened Options
  import opened Batching
  import Budget
  import opened Delivery
  import opened DeliveryInvariant
  import opened DeliveryTheorems

  // ---------------------------------------------------------------- a queued capture is held

  /** A capture that is queued is held from then on, under the next number, and any other capture is not. */
  lemma TakenIsHeld(c: Config, s: State, candidate: Candidate, timers: Timers)
    requires ValidConfig(c) && Inv(c, s)
    ensures (exists e :: e in Held(Capture(c, s, candidate, timers)) && e.id == s.attempts) <==> Takes(c, s, candidate)
  {
    hide Inv, Held, Takes, Below;
    HeldIsBelow(c, s);
    if Takes(c, s, candidate) {
      var e := TakenIsIn(c, s, candidate, timers);
    } else {
      RefusedIsOut(c, s, candidate, timers);
      BelowHasNone(Held(s), s.attempts);
    }
  }

  lemma BelowHasNone(es: Batch, n: nat)
    requires Below(es, n)
    ensures !exists e :: e in es && e.id == n
  {}

  lemma TakenIsIn(c: Config, s: State, candidate: Candidate, timers: Timers) returns (e: Event)
    requires ValidConfig(c) && Inv(c, s) && Takes(c, s, candidate)
    ensures e in Held(Capture(c, s, candidate, timers)) && e.id == s.attempts
  {
    hide Inv, FitsAlone, All, Flush, Budget.Window;
    e := Event(s.attempts, candidate.size);
    var t := s.(attempts := s.attempts + 1, sentAt := Budget.Window(s.sentAt, candidate.now));
    StampsKeepInv(c, s, candidate.now);
    BudgetLeft(c, s, candidate.now);
    assert t.(attempts := e.id) == s.(sentAt := Budget.Window(s.sentAt, candidate.now));
    EnqueueKeepsInv(c, t, e, candidate.now);
    var q := Enqueue(c, t, e).0;
    var stamped := q.(sentAt := q.sentAt + [candidate.now]);
    assert stamped.queue[|stamped.queue| - 1] == e;
    FlushTakesHeld(c, stamped);
    FlushHoldsMoving(c, stamped, e);
  }

  lemma BudgetLeft(c: Config, s: State, now: int)
    requires Inv(c, s)
    ensures Budget.Sorted(Budget.Window(s.sentAt, now) + [now])
  {
    hide Inv;
    StampsKeepInv(c, s, now);
  }

  /** A flush closes nothing, so what it takes is held. */
  lemma FlushHoldsMoving(c: Config, s: State, e: Event)
    requires ValidConfig(c) && Inv(c, s) && e in Held(s)
    ensures e in Held(Flush(c, s))
  {
    hide Inv, Flush, All, Done;
    FlushKeepsInv(c, s);
    FlushKeepsRejected(c, s);
    var d := Done(s.closed);
    assert Trail(s) == d + Held(s) && Trail(Flush(c, s)) == d + Held(Flush(c, s));
    assert Held(s) == Trail(s)[|d|..] && Held(Flush(c, s)) == Trail(Flush(c, s))[|d|..];
  }

  lemma RefusedIsOut(c: Config, s: State, candidate: Candidate, timers: Timers)
    requires !Takes(c, s, candidate)
    ensures Held(Capture(c, s, candidate, timers)) == Held(s)
  {
    hide FitsAlone, All, Budget.Window;
  }

  // ---------------------------------------------------------------- the budget over a run

  /** The captures that reach the budget check: the clock reading, and whether the queue would take the event. */
  function ReadingOf(c: Config, s: State, step: Step): seq<Budget.Reading> {
    if step.CaptureCall? && !s.stopped && step.candidate.Captured?
       && FitsAlone(c.limits, Event(s.attempts, step.candidate.size))
    then [Budget.Reading(step.candidate.now, Enqueue(c, s, Event(s.attempts, step.candidate.size)).1)]
    else []
  }

  function Readings(c: Config, steps: seq<Step>): seq<Budget.Reading> {
    if steps == [] then []
    else
      var front := steps[..|steps| - 1];
      Readings(c, front) + ReadingOf(c, Run(c, INITIAL, front), steps[|steps| - 1])
  }

  function TakenIn(c: Config, s: State, step: Step): seq<int> {
    if step.CaptureCall? && Takes(c, s, step.candidate) then [step.candidate.now] else []
  }

  /** The clock readings of the captures that were queued. */
  function TakenAt(c: Config, steps: seq<Step>): seq<int> {
    if steps == [] then []
    else
      var front, last := steps[..|steps| - 1], steps[|steps| - 1];
      TakenAt(c, front) + TakenIn(c, Run(c, INITIAL, front), last)
  }

  lemma FlushKeepsStamps(c: Config, s: State)
    ensures Flush(c, s).sentAt == s.sentAt
  {
    hide MakeBatches, Flatten, Advanced;
  }

  lemma CaptureStamps(c: Config, s: State, candidate: Candidate, timers: Timers)
    ensures var readings := ReadingOf(c, s, CaptureCall(candidate, timers));
            Capture(c, s, candidate, timers).sentAt
            == if readings == [] then s.sentAt
               else Budget.Window(s.sentAt, readings[0].now)
                    + (if Takes(c, s, candidate) then [candidate.now] else [])
  {
    hide FitsAlone, Flush, Budget.Window;
    if !s.stopped && candidate.Captured? && FitsAlone(c.limits, Event(s.attempts, candidate.size)) {
      var kept := s.(attempts := s.attempts + 1, sentAt := Budget.Window(s.sentAt, candidate.now));
      var (q, queued) := Enqueue(c, kept, Event(s.attempts, candidate.size));
      FlushKeepsStamps(c, q.(sentAt := q.sentAt + [candidate.now]));
      assert Budget.Window(s.sentAt, candidate.now) + [] == Budget.Window(s.sentAt, candidate.now);
    }
  }

  lemma OtherStamps(c: Config, s: State, step: Step)
    requires !step.CaptureCall?
    ensures Apply(c, s, step).sentAt == s.sentAt
  {
    hide MakeBatches, Flatten, Advanced, BodySize, Flush;
    FlushKeepsStamps(c, s);
    FlushKeepsStamps(c, s.(stopped := true, timer := false));
    if step.Settles? && step.i < |s.jobs| && s.jobs[step.i].phase.Delivered? {
      var done := Put(s, step.i, s.jobs[step.i].(phase := Settled(s.jobs[step.i].phase.outcome)));
      FlushKeepsStamps(c, done.(flushPromise := None));
    }
  }

  /** A step does to the stamps of the machine what its reading, if it has one, does to the budget. */
  lemma StepKeepsBooks(c: Config, s: State, step: Step, b: Budget.Books)
    requires b.sentAt == s.sentAt
    ensures var readings := ReadingOf(c, s, step);
            && |readings| <= 1
            && Budget.Books(Apply(c, s, step).sentAt, b.all + TakenIn(c, s, step))
               == if readings == [] then b else Budget.Check(c.maxEventsPerMinute, b, readings[0])
  {
    hide Takes, Budget.Window, ReadingOf, Capture;
    assert b.all + [] == b.all;
    if step.CaptureCall? {
      CaptureStamps(c, s, step.candidate, step.timers);
      CaptureChecks(c, s, step.candidate, step.timers);
      if step.candidate.Captured? {
        assert Budget.Window(s.sentAt, step.candidate.now) + [] == Budget.Window(s.sentAt, step.candidate.now);
      }
    } else {
      hide Apply;
      OtherStamps(c, s, step);
      NoReading(c, s, step);
    }
  }

  /** The stamps of the machine are those of the budget alone, fed with the readings of the run. */
  lemma {:induction false} RunKeepsBooks(c: Config, steps: seq<Step>)
    ensures Budget.Run(c.maxEventsPerMinute, Readings(c, steps))
         == Budget.Books(Run(c, INITIAL, steps).sentAt, TakenAt(c, steps))
    decreases |steps|
  {
    if steps == [] {
    } else {
      hide Apply, ReadingOf, TakenIn, Budget.Check;
      var front, last := steps[..|steps| - 1], steps[|steps| - 1];
      RunKeepsBooks(c, front);
      var s := Run(c, INITIAL, front);
      StepKeepsBooks(c, s, last, Budget.Books(s.sentAt, TakenAt(c, front)));
      var readings := ReadingOf(c, s, last);
      if readings != [] {
        assert readings == [readings[0]];
        Budget.RunSnoc(c.maxEventsPerMinute, Readings(c, front), readings[0]);
      } else {
        assert Readings(c, front) + [] == Readings(c, front);
      }
      hide Budget.Run;
    }
  }

  lemma NoReading(c: Config, s: State, step: Step)
    requires !step.CaptureCall?
    ensures ReadingOf(c, s, step) == []
  {}

  lemma CaptureChecks(c: Config, s: State, candidate: Candidate, timers: Timers)
    ensures var readings := ReadingOf(c, s, CaptureCall(candidate, timers));
            && Apply(c, s, CaptureCall(candidate, timers)) == Capture(c, s, candidate, timers)
            && |readings| <= 1
            && (readings == [] ==> !Takes(c, s, candidate))
            && (readings != [] ==>
                  && readings[0].now == candidate.now
                  && (Takes(c, s, candidate)
                      <==> |Budget.Window(s.sentAt, candidate.now)| < c.maxEventsPerMinute && readings[0].queued))
  {
    hide FitsAlone, Budget.Window;
  }

  /** While the clock does not step back, no minute of any run holds more queued captures than the maximum. */
  lemma TakenPerMinute(c: Config, steps: seq<Step>, t: int)
    requires Budget.Steady(Readings(c, steps))
    ensures |Budget.Window(TakenAt(c, steps), t)| <= c.maxEventsPerMinute
  {
    RunKeepsBooks(c, steps);
    Budget.EveryWindowIsBounded(c.maxEventsPerMinute, Readings(c, steps), t);
  }
}
