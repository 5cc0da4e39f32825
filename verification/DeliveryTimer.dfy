/** Every queued event gets a flush: one is under way, or the queue is short of a batch and the timer is armed. */
module DeliveryTimer {
  import opened Options
  import opened Batching
  import opened Delivery
  import opened DeliveryInvariant

  /** The timers that a step may meet. */
  function TimersOf(step: Step): Option<Timers> {
    match step
    case CaptureCall(_, timers) => Some(timers)
    case Refuses(_, timers) => Some(timers)
    case Settles(_, timers) => Some(timers)
    case _ => None
  }

  /** The host has a setTimeout whenever it is asked for; it may still throw. */
  predicate HasTimers(steps: seq<Step>) {
    forall i :: 0 <= i < |steps| ==> TimersOf(steps[i]) != Some(Absent)
  }

  /** An armed timer has something to flush, and no client without a flush in progress sits on a full batch. */
  predicate Orderly(c: Config, s: State) {
    && (s.timer ==> s.queue != [] && !s.stopped && c.flushInterval > 0)
    && (s.flushPromise == None ==> |s.queue| < c.limits.batchSize)
  }

  /** Queued events wait for a flush that is in progress or for the timer. */
  predicate Expected(s: State) {
    s.queue != [] && s.flushPromise == None ==> s.timer
  }

  lemma FlushIsOrderly(c: Config, s: State)
    requires ValidConfig(c)
    ensures Orderly(c, Flush(c, s)) && Expected(Flush(c, s)) && Flush(c, s).queue == [] && !Flush(c, s).timer
    ensures s.queue != [] ==> Flush(c, s).flushPromise.Some?
  {
    hide MakeBatches, Flatten, Advanced;
  }

  lemma ScheduleIsOrderly(c: Config, s: State, timers: Timers)
    requires ValidConfig(c) && Orderly(c, s)
    ensures Orderly(c, ScheduleFlush(c, s, timers))
    ensures c.flushInterval > 0 && timers != Absent && (s.stopped ==> s.queue == []) ==>
              Expected(ScheduleFlush(c, s, timers))
  {
    hide Flush;
    FlushIsOrderly(c, s);
  }

  lemma CaptureIsOrderly(c: Config, s: State, candidate: Candidate, timers: Timers)
    requires ValidConfig(c) && Orderly(c, s)
    ensures Orderly(c, Capture(c, s, candidate, timers))
    ensures c.flushInterval > 0 && timers != Absent && Expected(s) ==> Expected(Capture(c, s, candidate, timers))
  {
    hide Flush, FitsAlone, Budget.Window, ScheduleFlush;
    if !s.stopped && candidate.Captured? && FitsAlone(c.limits, Event(s.attempts, candidate.size)) {
      var e := Event(s.attempts, candidate.size);
      var kept := s.(attempts := s.attempts + 1, sentAt := Budget.Window(s.sentAt, candidate.now));
      if |kept.sentAt| < c.maxEventsPerMinute {
        AdmitIsOrderly(c, kept, e, candidate.now, timers);
      }
    }
  }

  lemma AdmitIsOrderly(c: Config, s: State, e: Event, now: int, timers: Timers)
    requires ValidConfig(c) && Orderly(c, s) && !s.stopped
    ensures Orderly(c, Admit(c, s, e, now, timers))
    ensures c.flushInterval > 0 && timers != Absent && Expected(s) ==> Expected(Admit(c, s, e, now, timers))
  {
    hide Flush, ScheduleFlush;
    var (q, queued) := Enqueue(c, s, e);
    if queued {
      var stamped := q.(sentAt := q.sentAt + [now]);
      FlushIsOrderly(c, stamped);
      if |stamped.queue| < c.limits.batchSize {
        ScheduleIsOrderly(c, stamped, timers);
      }
    }
  }

  lemma SettleIsOrderly(c: Config, s: State, i: nat, timers: Timers)
    requires ValidConfig(c) && Orderly(c, s) && i < |s.jobs| && s.jobs[i].phase.Delivered?
    ensures Orderly(c, Settle(c, s, i, timers))
    ensures c.flushInterval > 0 && timers != Absent && Expected(s) && (s.stopped ==> s.queue == []) ==>
              Expected(Settle(c, s, i, timers))
  {
    hide Flush, ScheduleFlush;
    var done := Put(s, i, s.jobs[i].(phase := Settled(s.jobs[i].phase.outcome)));
    var idle := done.(flushPromise := None);
    FlushIsOrderly(c, idle);
    if |idle.queue| < c.limits.batchSize {
      ScheduleIsOrderly(c, idle, timers);
    }
  }

  lemma StepIsOrderly(c: Config, s: State, step: Step)
    requires ValidConfig(c) && Inv(c, s) && Orderly(c, s)
    ensures Orderly(c, Apply(c, s, step))
    ensures c.flushInterval > 0 && TimersOf(step) != Some(Absent) && Expected(s) ==> Expected(Apply(c, s, step))
  {
    hide Flush, Capture, Settle, SendPending, StartBatch, TransportAccepts, TransportRefuses, RetryFires, Inv;
    StoppedIsEmpty(c, s);
    match step
    case CaptureCall(candidate, timers) => CaptureIsOrderly(c, s, candidate, timers);
    case FlushCall => FlushIsOrderly(c, s);
    case TimerFires => FlushIsOrderly(c, s);
    case DestroyCall => FlushIsOrderly(c, s.(stopped := true, timer := false));
    case Settles(i, timers) =>
      if i < |s.jobs| && s.jobs[i].phase.Delivered? {
        SettleIsOrderly(c, s, i, timers);
      }
    case _ => DeliveryLeavesQueue(c, s, step);
  }

  lemma StoppedIsEmpty(c: Config, s: State)
    requires Inv(c, s)
    ensures s.stopped ==> s.queue == []
  {}

  /** A delivery step touches neither the queue nor the timer nor the promise. */
  lemma DeliveryLeavesQueue(c: Config, s: State, step: Step)
    requires step.SnapshotStarts? || step.BatchStarts? || step.Accepts? || step.Refuses? || step.RetryStarts?
    ensures var s' := Apply(c, s, step);
            && s'.queue == s.queue && s'.timer == s.timer && s'.flushPromise == s.flushPromise
            && s'.stopped == s.stopped
  {
    hide MakeBatches, Flatten, Transmit, TransportRefuses, PriorAccepted;
    match step
    case BatchStarts(i) =>
      if i < |s.jobs| && s.jobs[i].phase.Ready? && s.jobs[i].phase.unsent != [] {
        var Ready(unsent, _) := s.jobs[i].phase;
        TransmitLeavesQueue(c, s, i, unsent[0], 0, unsent[1..]);
        TransmitLeavesQueue(c, s.(reservedCount := s.reservedCount - |unsent[0]|), i, unsent[0], 0, unsent[1..]);
      }
    case RetryStarts(i) =>
      if i < |s.jobs| && s.jobs[i].phase.BackingOff? {
        var BackingOff(b, attempt, unsent) := s.jobs[i].phase;
        TransmitLeavesQueue(c, s, i, b, attempt + 1, unsent);
      }
    case Refuses(i, timers) =>
      if i < |s.jobs| && s.jobs[i].phase.Sending? {
        RefusalLeavesQueue(c, s, i, timers);
      }
    case _ =>
  }

  predicate LeavesQueue(s: State, s': State) {
    s'.queue == s.queue && s'.timer == s.timer && s'.flushPromise == s.flushPromise && s'.stopped == s.stopped
  }

  lemma TransmitLeavesQueue(c: Config, s: State, i: nat, b: Batch, attempt: nat, unsent: seq<Batch>)
    requires i < |s.jobs|
    ensures LeavesQueue(s, Transmit(c, s, i, b, attempt, unsent))
  {
    hide BodySize, PriorAccepted;
  }

  lemma RefusalLeavesQueue(c: Config, s: State, i: nat, timers: Timers)
    requires i < |s.jobs| && s.jobs[i].phase.Sending?
    ensures LeavesQueue(s, TransportRefuses(c, s, i, timers))
  {
    hide Flatten, PriorAccepted;
  }

  lemma {:induction false} RunIsOrderly(c: Config, steps: seq<Step>)
    requires ValidConfig(c)
    ensures Orderly(c, Run(c, INITIAL, steps))
    ensures c.flushInterval > 0 && HasTimers(steps) ==> Expected(Run(c, INITIAL, steps))
    decreases |steps|
  {
    hide Apply, Orderly, Expected, Inv;
    if steps == [] {
      InitialIsOrderly(c);
    } else {
      var front := steps[..|steps| - 1];
      RunIsOrderly(c, front);
      InitialInv(c);
      RunKeepsInv(c, INITIAL, front);
      StepIsOrderly(c, Run(c, INITIAL, front), steps[|steps| - 1]);
    }
  }

  lemma InitialIsOrderly(c: Config)
    requires ValidConfig(c)
    ensures Orderly(c, INITIAL) && Expected(INITIAL)
  {}

  /**
   On every run the queue is short of a batch unless a flush is in progress. If the host has timers, a queued event
   then waits for an armed timer, and that starts a flush of the whole queue. A timer is armed for nothing else.
   */
  lemma QueuedEventsAreFlushed(c: Config, steps: seq<Step>)
    requires ValidConfig(c)
    ensures var s := Run(c, INITIAL, steps);
            && (s.flushPromise == None ==> |s.queue| < c.limits.batchSize)
            && (s.timer ==> s.queue != [] && !s.stopped && c.flushInterval > 0)
            && (c.flushInterval > 0 && HasTimers(steps) && s.queue != [] && s.flushPromise == None ==>
                  && s.timer
                  && var fired := Apply(c, s, TimerFires);
                     fired.queue == [] && fired.flushPromise == Some(|s.jobs|) && |fired.jobs| == |s.jobs| + 1
                     && fired.jobs[|s.jobs|].pending == s.queue)
  {
    hide Run, Inv, MakeBatches, Flatten, Advanced;
    RunIsOrderly(c, steps);
    var s := Run(c, INITIAL, steps);
    if s.timer && s.queue != [] {
      TimerTakesQueue(c, s);
    }
  }

  lemma TimerTakesQueue(c: Config, s: State)
    requires s.timer && s.queue != []
    ensures var fired := Apply(c, s, TimerFires);
            fired.queue == [] && fired.flushPromise == Some(|s.jobs|) && |fired.jobs| == |s.jobs| + 1
            && fired.jobs[|s.jobs|].pending == s.queue
  {
    hide MakeBatches, Flatten;
  }

  // ---------------------------------------------------------------- when a flush starts

  /** The step may start a flush: it asks for one, it fills a batch while the client is idle, or a timer throws. */
  predicate Due(c: Config, s: State, step: Step) {
    match step
    case FlushCall => true
    case DestroyCall => true
    case TimerFires => s.timer
    case CaptureCall(candidate, timers) =>
      Takes(c, s, candidate)
      && var queue := Enqueue(c, s, Event(s.attempts, candidate.size)).0.queue;
         if |queue| >= c.limits.batchSize then s.flushPromise == None else TimerThrows(c, s, timers)
    case Settles(i, timers) =>
      i < |s.jobs| && s.jobs[i].phase.Delivered? && s.flushPromise == Some(i) && s.queue != []
      && (|s.queue| >= c.limits.batchSize || TimerThrows(c, s, timers))
    case _ => false
  }

  /** A timer is asked for and cannot be had. */
  predicate TimerThrows(c: Config, s: State, timers: Timers) {
    timers == Throwing && !s.stopped && !s.timer && c.flushInterval > 0
  }

  /** A step takes the queue exactly when a flush is due; any other leaves what is queued where it is. */
  lemma FlushedExactly(c: Config, s: State, step: Step)
    requires ValidConfig(c)
    ensures var after := Apply(c, s, step);
            && (Due(c, s, step) ==> after.queue == [] && !after.timer)
            && (!Due(c, s, step) ==>
                  after.queue == if step.CaptureCall? && Takes(c, s, step.candidate)
                                 then Enqueue(c, s, Event(s.attempts, step.candidate.size)).0.queue else s.queue)
            && (|after.jobs| > |s.jobs| ==> Due(c, s, step))
  {
    hide Flush, FitsAlone, Budget.Window, SendPending, StartBatch, TransportAccepts, TransportRefuses, RetryFires;
    match step
    case FlushCall => FlushIsOrderly(c, s);
    case TimerFires => FlushIsOrderly(c, s);
    case DestroyCall => FlushIsOrderly(c, s.(stopped := true, timer := false));
    case CaptureCall(candidate, timers) => CapturedExactly(c, s, candidate, timers);
    case Settles(i, timers) =>
      if i < |s.jobs| && s.jobs[i].phase.Delivered? {
        FlushIsOrderly(c, Put(s, i, s.jobs[i].(phase := Settled(s.jobs[i].phase.outcome))).(flushPromise := None));
      }
    case _ =>
      DeliveryLeavesQueue(c, s, step);
      DeliveryStartsNone(c, s, step);
  }

  lemma CapturedExactly(c: Config, s: State, candidate: Candidate, timers: Timers)
    requires ValidConfig(c)
    ensures var after, step := Capture(c, s, candidate, timers), CaptureCall(candidate, timers);
            && (Due(c, s, step) ==> after.queue == [] && !after.timer)
            && (!Due(c, s, step) ==>
                  after.queue == if Takes(c, s, candidate)
                                 then Enqueue(c, s, Event(s.attempts, candidate.size)).0.queue else s.queue)
            && (|after.jobs| > |s.jobs| ==> Due(c, s, step))
  {
    hide Flush, FitsAlone, Budget.Window;
    if candidate.Captured? {
      var t := s.(attempts := s.attempts + 1, sentAt := Budget.Window(s.sentAt, candidate.now));
      var (q, queued) := Enqueue(c, t, Event(s.attempts, candidate.size));
      if queued {
        assert q.queue != [];
        FlushIsOrderly(c, q.(sentAt := q.sentAt + [candidate.now]));
      }
    }
  }

  lemma DeliveryStartsNone(c: Config, s: State, step: Step)
    requires step.SnapshotStarts? || step.BatchStarts? || step.Accepts? || step.Refuses? || step.RetryStarts?
    ensures |Apply(c, s, step).jobs| == |s.jobs|
  {
    hide MakeBatches, Flatten, BodySize, PriorAccepted;
  }
}
