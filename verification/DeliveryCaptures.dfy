/** What becomes of each capture: the event that is queued, the one that makes room for it, and the answer. */
module DeliveryCaptures {
  import opened Options
  import opened Batching
  import Budget
  import opened Delivery
  import opened DeliveryInvariant
  import opened DeliveryTimer
  import opened DeliveryBudget

  // ---------------------------------------------------------------- the verdict on a capture

  function One(b: bool): nat {
    if b then 1 else 0
  }

  /** The captures among some stamps that were made in the minute up to now. */
  function Recent(stamps: seq<int>, now: int): set<int> {
    set i | 0 <= i < |stamps| && now - 60_000 < stamps[i] <= now
  }

  /** Everything that may happen to a capture. */
  datatype Verdict = Ended | Skipped | Unusable | Withheld | TooLarge | TooMany | NoRoom | Displacing | Queued

  function VerdictOn(c: Config, s: State, candidate: Candidate): Verdict {
    if s.stopped then Ended
    else
      match candidate
      case Sampled => Skipped
      case Invalid => Unusable
      case Suppressed => Withheld
      case Captured(size, now) =>
        if c.limits.envelope + size > c.limits.maxBatchBytes then TooLarge
        else if |Recent(s.sentAt, now)| >= c.maxEventsPerMinute then TooMany
        else if |s.queue| + s.reservedCount < c.maxQueueSize then Verdict.Queued
        else if s.queue == [] then NoRoom else Displacing
  }

  lemma {:induction false} WindowIsRecent(stamps: seq<int>, now: int)
    ensures |Budget.Window(stamps, now)| == |Recent(stamps, now)|
    decreases |stamps|
  {
    if stamps == [] {
    } else {
      var front, last := stamps[..|stamps| - 1], |stamps| - 1;
      WindowIsRecent(front, now);
      if now - 60_000 < stamps[last] <= now {
        assert Recent(stamps, now) == Recent(front, now) + {last};
      } else {
        assert Recent(stamps, now) == Recent(front, now);
      }
    }
  }

  lemma AloneSize(l: Limits, e: Event)
    ensures FitsAlone(l, e) <==> l.envelope + e.size <= l.maxBatchBytes
  {
    BytesOne(e);
  }

  /** A candidate is queued under one of two verdicts. */
  lemma TakesMeans(c: Config, s: State, candidate: Candidate)
    ensures Takes(c, s, candidate) <==> VerdictOn(c, s, candidate) in {Verdict.Queued, Displacing}
  {
    if candidate.Captured? {
      AloneSize(c.limits, Event(s.attempts, candidate.size));
      WindowIsRecent(s.sentAt, candidate.now);
      hide FitsAlone, Budget.Window, Recent;
    }
  }

  // ---------------------------------------------------------------- the events a capture moves

  /** The trail that a capture leaves: its event is the newest one, in place of the oldest queued one if it must be. */
  function TrailAfter(c: Config, s: State, candidate: Candidate): Batch {
    match VerdictOn(c, s, candidate)
    case Queued => Moving(s) + s.queue + [Event(s.attempts, candidate.size)]
    case Displacing => Moving(s) + s.queue[1..] + [Event(s.attempts, candidate.size)]
    case _ => Moving(s) + s.queue
  }

  lemma ScheduleKeepsTrail(c: Config, s: State, timers: Timers)
    requires ValidConfig(c) && Inv(c, s)
    ensures Trail(ScheduleFlush(c, s, timers)) == Trail(s)
  {
    hide Inv, Flush, All, Done;
    FlushKeepsInv(c, s);
  }

  /** A capture adds its event at the end if it is queued, and takes the oldest queued one away if there is no room. */
  lemma CaptureTrail(c: Config, s: State, candidate: Candidate, timers: Timers)
    requires ValidConfig(c) && Inv(c, s)
    ensures Trail(Capture(c, s, candidate, timers)) == TrailAfter(c, s, candidate)
  {
    hide Inv, FitsAlone, All, Done, Flush, Budget.Window, ScheduleFlush, VerdictOn, Capture, Takes, Moving;
    TakesMeans(c, s, candidate);
    if Takes(c, s, candidate) {
      TakenTrailIs(c, s, candidate, timers);
    } else {
      NotTakenTrailIs(c, s, candidate, timers);
    }
  }

  lemma NotTakenTrailIs(c: Config, s: State, candidate: Candidate, timers: Timers)
    requires !Takes(c, s, candidate)
    ensures Trail(Capture(c, s, candidate, timers)) == Moving(s) + s.queue
  {
    hide FitsAlone, All, Done, Budget.Window, Flush, ScheduleFlush;
  }

  lemma TakenTrailIs(c: Config, s: State, candidate: Candidate, timers: Timers)
    requires ValidConfig(c) && Inv(c, s) && Takes(c, s, candidate)
    ensures Trail(Capture(c, s, candidate, timers)) == TrailAfter(c, s, candidate)
  {
    hide Inv, FitsAlone, All, Done, Flush, Budget.Window, ScheduleFlush, Recent;
    var e := Event(s.attempts, candidate.size);
    var t := s.(attempts := s.attempts + 1, sentAt := Budget.Window(s.sentAt, candidate.now));
    StampsKeepInv(c, s, candidate.now);
    BudgetIsSorted(c, s, candidate.now);
    assert t.(attempts := e.id) == s.(sentAt := Budget.Window(s.sentAt, candidate.now));
    EnqueueKeepsInv(c, t, e, candidate.now);
    var q := Enqueue(c, t, e).0;
    var stamped := q.(sentAt := q.sentAt + [candidate.now]);
    TakesMeans(c, s, candidate);
    assert Moving(stamped) == Moving(s);
    assert Trail(stamped) == TrailAfter(c, s, candidate);
    FlushKeepsInv(c, stamped);
    ScheduleKeepsTrail(c, stamped, timers);
  }

  lemma BudgetIsSorted(c: Config, s: State, now: int)
    requires Inv(c, s)
    ensures Budget.Sorted(Budget.Window(s.sentAt, now) + [now])
  {
    hide Inv;
    StampsKeepInv(c, s, now);
  }

  /** The state in which a flush has settled and nothing has been started for it. */
  function Closed(s: State, i: nat): State
    requires i < |s.jobs| && s.jobs[i].phase.Delivered?
  {
    var done := Put(s, i, s.jobs[i].(phase := Settled(s.jobs[i].phase.outcome)));
    if s.flushPromise == Some(i) then done.(flushPromise := None) else done
  }

  lemma ClosedKeepsInv(c: Config, s: State, i: nat)
    requires ValidConfig(c) && Inv(c, s) && i < |s.jobs| && s.jobs[i].phase.Delivered?
    ensures Inv(c, Closed(s, i)) && Trail(Closed(s, i)) == Trail(s)
  {
    hide Flatten, All, Done, Fits, BodySize, JobsOk, HistoryOk, AllAlone, Increasing, Below;
    TurnOf(s.jobs, i);
    SettleJobs(c, s.jobs, i, s.jobs[i].(phase := Settled(s.jobs[i].phase.outcome)));
    assert Trail(Closed(s, i)) == Trail(s);
  }

  /** Nothing else changes which events there are, or their order. */
  lemma OtherTrail(c: Config, s: State, step: Step)
    requires ValidConfig(c) && Inv(c, s) && !step.CaptureCall?
    ensures Trail(Apply(c, s, step)) == Trail(s)
  {
    hide Inv, Moving, SendPending, StartBatch, TransportAccepts, TransportRefuses, RetryFires, Settle, Flush, Capture;
    FlushKeepsInv(c, s);
    match step
    case FlushCall =>
    case TimerFires =>
    case Settles(i, timers) =>
      if i < |s.jobs| && s.jobs[i].phase.Delivered? {
        SettleTrail(c, s, i, timers);
      }
    case DestroyCall => DestroyTrail(c, s);
    case _ =>
      DeliveryKeepsInv(c, s, step);
      DeliveryLeavesQueue(c, s, step);
  }

  lemma SettleTrail(c: Config, s: State, i: nat, timers: Timers)
    requires ValidConfig(c) && Inv(c, s) && i < |s.jobs| && s.jobs[i].phase.Delivered?
    ensures Trail(Settle(c, s, i, timers)) == Trail(s)
  {
    hide Inv, Flush, ScheduleFlush, Trail;
    ClosedKeepsInv(c, s, i);
    FlushKeepsInv(c, Closed(s, i));
    ScheduleKeepsTrail(c, Closed(s, i), timers);
  }

  lemma DestroyTrail(c: Config, s: State)
    requires ValidConfig(c) && Inv(c, s)
    ensures Trail(Destroy(c, s)) == Trail(s)
  {
    hide Inv, All, Done, Flush, Destroy;
    FlushKeepsInv(c, s);
    DestroyIsFlush(c, s);
  }

  /** On every run a capture does that to the events which are closed or held, and no other step does anything. */
  lemma EventsAreKept(c: Config, steps: seq<Step>, step: Step)
    requires ValidConfig(c)
    ensures var s := Run(c, INITIAL, steps);
            Trail(Apply(c, s, step)) == if step.CaptureCall? then TrailAfter(c, s, step.candidate) else Trail(s)
  {
    hide Inv, Run, Trail, TrailAfter, Capture;
    InitialInv(c);
    RunKeepsInv(c, INITIAL, steps);
    var s := Run(c, INITIAL, steps);
    if step.CaptureCall? {
      CaptureTrail(c, s, step.candidate, step.timers);
    } else {
      hide Apply;
      OtherTrail(c, s, step);
    }
  }

  // ---------------------------------------------------------------- throttling

  /**
   While the clock does not step back, a capture is throttled exactly when as many as the maximum were queued in the
   minute before it, and no minute ever holds more.
   */
  lemma ThrottledExactly(c: Config, steps: seq<Step>, now: int, t: int)
    requires ValidConfig(c) && Budget.Steady(Readings(c, steps))
    requires Readings(c, steps) != [] ==> Readings(c, steps)[|Readings(c, steps)| - 1].now <= now
    ensures |Recent(Run(c, INITIAL, steps).sentAt, now)| == |Recent(TakenAt(c, steps), now)|
    ensures |Recent(TakenAt(c, steps), t)| <= c.maxEventsPerMinute
  {
    hide Recent, Run, Budget.Keep, Readings, TakenAt;
    var rs, s, all := Readings(c, steps), Run(c, INITIAL, steps), TakenAt(c, steps);
    RunKeepsBooks(c, steps);
    WindowIsRecent(s.sentAt, now);
    WindowIsRecent(all, now);
    if rs == [] {
      NoReadings(c.maxEventsPerMinute);
    } else {
      Budget.SteadyClockIsUpToDate(c.maxEventsPerMinute, rs);
      Budget.RewindowedIsWindow(all, rs[|rs| - 1].now, now);
    }
    TakenPerMinute(c, steps, t);
    WindowIsRecent(all, t);
  }

  lemma NoReadings(maximum: nat)
    ensures Budget.Run(maximum, []) == Budget.Books([], [])
  {}

  // ---------------------------------------------------------------- what capture answers

  /**
   False exactly when the event is not queued. The promise of a flush exactly when the capture fills a batch while
   the client is idle: it is the flush just started, which takes the event last. Otherwise true.
   */
  lemma AnswerMeans(c: Config, s: State, candidate: Candidate, timers: Timers)
    requires ValidConfig(c) && Inv(c, s)
    ensures var v, answer := VerdictOn(c, s, candidate), CaptureAnswer(c, s, candidate, timers);
            var after := Capture(c, s, candidate, timers);
            var taken := v == Verdict.Queued || v == Displacing;
            var full := |s.queue| + One(v == Verdict.Queued) >= c.limits.batchSize;
            && (answer == Already(false) <==> !taken)
            && (answer.Tracked? <==> taken && full && s.flushPromise == None)
            && (answer.Tracked? ==>
                  && answer.job == |s.jobs| && |after.jobs| == |s.jobs| + 1
                  && var pending := after.jobs[answer.job].pending;
                     pending != [] && pending[|pending| - 1] == Event(s.attempts, candidate.size))
  {
    hide Inv, VerdictOn, Flush, FitsAlone, Budget.Window, ScheduleFlush;
    TakesMeans(c, s, candidate);
    if Takes(c, s, candidate) {
      var e := Event(s.attempts, candidate.size);
      var t := s.(attempts := s.attempts + 1, sentAt := Budget.Window(s.sentAt, candidate.now));
      var q := Enqueue(c, t, e).0;
      var stamped := q.(sentAt := q.sentAt + [candidate.now]);
      QueueGrows(c, s, candidate);
      assert stamped.queue[|stamped.queue| - 1] == e;
      FlushStarts(c, stamped);
    }
  }

  lemma QueueGrows(c: Config, s: State, candidate: Candidate)
    requires Takes(c, s, candidate)
    ensures |Enqueue(c, s, Event(s.attempts, candidate.size)).0.queue|
         == |s.queue| + One(VerdictOn(c, s, candidate) == Verdict.Queued)
  {
    hide FitsAlone, Budget.Window, Recent;
    AloneSize(c.limits, Event(s.attempts, candidate.size));
    WindowIsRecent(s.sentAt, candidate.now);
  }

  lemma FlushStarts(c: Config, s: State)
    requires s.queue != []
    ensures var after := Flush(c, s);
            && |after.jobs| == |s.jobs| + 1 && after.jobs[|s.jobs|].pending == s.queue
            && after.flushPromise == Some(|s.jobs|)
  {
    hide MakeBatches, Flatten, PriorAccepted;
  }
}
