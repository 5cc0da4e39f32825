/** The browser client as an object. Each method is one piece of client code between two callbacks. */
module Client {
  import opened Options
  import opened Batching
  import Budget
  import opened Delivery
  import opened DeliveryInvariant
  import opened DeliveryTheorems

  /** What getStats reports. */
  datatype Report = Report(queued: int, stats: Stats)

  lemma StampsAreSorted(c: Config, s: State)
    requires Inv(c, s)
    ensures Budget.Sorted(s.sentAt)
  {}

  lemma AnswerMeansTaken(c: Config, s: State, candidate: Candidate, timers: Timers)
    ensures CaptureAnswer(c, s, candidate, timers) == Already(false) <==> !Takes(c, s, candidate)
  {
    hide Takes, Capture, Enqueue;
  }

  class Tracker {
    const config: Config
    var queue: Batch
    var reservedCount: int
    var flushTimer: bool
    var flushPromise: Option<nat>
    var sentAt: seq<int>
    var stats: Stats
    var stopped: bool
    /** The promise callbacks that have not run yet, one job for each flush. */
    var jobs: seq<Job>
    ghost var attempts: nat
    ghost var closed: seq<Closing>
    ghost var lost: nat
    ghost var leaked: nat

    ghost function View(): State
      reads this
    {
      State(queue, reservedCount, flushTimer, flushPromise, sentAt, stats, stopped, jobs, attempts, closed, lost,
            leaked)
    }

    ghost predicate Valid()
      reads this
    {
      ValidConfig(config) && Inv(config, View())
    }

    constructor (config: Config)
      requires ValidConfig(config)
      ensures this.config == config && Valid() && View() == INITIAL
    {
      hide Inv;
      this.config := config;
      queue, reservedCount, flushTimer, flushPromise := [], 0, false, None;
      sentAt, stats, stopped, jobs := [], Stats(0, 0, 0, 0, 0, 0, 0, 0, 0), false, [];
      attempts, closed, lost, leaked := 0, [], 0, 0;
      new;
      InitialInv(config);
    }

    // -------------------------------------------------------------- flushing

    method FlushQueue() returns (promise: Promise)
      requires ValidConfig(config)
      modifies this
      ensures View() == Flush(config, old(View())) && promise == PromiseOf(View())
    {
      flushTimer := false;
      if |queue| == 0 {
        return if flushPromise.Some? then Tracked(flushPromise.value) else Already(true);
      }
      var pending := queue;
      queue := [];
      var active := flushPromise;
      jobs := jobs + [Job(active, pending, Waiting, true, 0, 0, 0)];
      var tracked := |jobs| - 1;
      flushPromise := Some(tracked);
      if active.Some? {
        reservedCount := reservedCount + |pending|;
      } else {
        SendSnapshot(tracked);
      }
      promise := Tracked(tracked);
    }

    /** sendPending: splits a snapshot, accounts for what no body can carry, and reserves the later batches. */
    method SendSnapshot(i: nat)
      requires ValidConfig(config) && i < |jobs|
      modifies this
      ensures View() == SendPending(config, old(View()), i)
    {
      var job := jobs[i];
      var batches, rejected := MakeBatchesInOrder(config.limits, job.pending);
      assert Grouped(batches, rejected) == MakeBatches(config.limits, job.pending);
      if rejected != 0 {
        if job.active.Some? {
          reservedCount := reservedCount - rejected;
        }
        stats := stats.(failed := stats.failed + rejected, dropped := stats.dropped + rejected);
      }
      if job.active == None {
        ReserveLater(batches);
      }
      jobs := jobs[i := Advanced(jobs, job.(ok := rejected == 0, dropped := rejected), batches, false)];
    }

    method ReserveLater(batches: seq<Batch>)
      modifies this`reservedCount
      ensures reservedCount == old(reservedCount) + (if batches == [] then 0 else |Flatten(batches[1..])|)
    {
      if batches == [] {
        return;
      }
      for k := 1 to |batches|
        invariant reservedCount == old(reservedCount) + |Flatten(batches[1..k])|
      {
        FlattenOne(batches[1..k], batches[k]);
        assert batches[1..k] + [batches[k]] == batches[1..k + 1];
        reservedCount := reservedCount + |batches[k]|;
      }
      assert batches[1..|batches|] == batches[1..];
    }

    method ArmTimer(timers: Timers)
      requires ValidConfig(config)
      modifies this
      ensures View() == ScheduleFlush(config, old(View()), timers)
    {
      if stopped || flushTimer || |queue| == 0 || config.flushInterval == 0 {
        return;
      }
      match timers {
        case Absent =>
        case Working => flushTimer := true;
        case Throwing =>
          var _ := FlushQueue();
      }
    }

    // -------------------------------------------------------------- capturing

    method HasBudget(now: int) returns (ok: bool)
      requires Budget.Sorted(sentAt)
      modifies this`sentAt
      ensures sentAt == Budget.Window(old(sentAt), now) && ok == (|sentAt| < config.maxEventsPerMinute)
    {
      sentAt := Budget.TrimStamps(sentAt, now);
      ok := |sentAt| < config.maxEventsPerMinute;
    }

    method Push(captured: Event) returns (queued: bool)
      modifies this`queue, this`stats
      ensures (View(), queued) == Enqueue(config, old(View()), captured)
    {
      if |queue| + reservedCount >= config.maxQueueSize {
        if |queue| == 0 {
          stats := stats.(dropped := stats.dropped + 1);
          return false;
        }
        queue := queue[1..];
        stats := stats.(dropped := stats.dropped + 1);
      }
      queue := queue + [captured];
      queued := true;
    }

    /** capture: a false answer means the event was not taken; the stats say why. */
    method Record(candidate: Candidate, timers: Timers, number: nat) returns (promise: Promise)
      requires Valid() && number == attempts
      modifies this
      ensures Valid() && View() == Capture(config, old(View()), candidate, timers)
      ensures promise == CaptureAnswer(config, old(View()), candidate, timers)
      ensures promise == Already(false) <==> !Takes(config, old(View()), candidate)
    {
      hide Inv, Moving, Flatten, MakeBatches, BodySize, Budget.Window, Flush, ScheduleFlush;
      AnswerMeansTaken(config, View(), candidate, timers);
      StampsAreSorted(config, View());
      CaptureKeepsInv(config, View(), candidate, timers);
      if stopped {
        return Already(false);
      }
      attempts := attempts + 1;
      match candidate {
        case Sampled =>
          stats := stats.(sampled := stats.sampled + 1);
          return Already(false);
        case Invalid =>
          stats := stats.(invalid := stats.invalid + 1);
          return Already(false);
        case Suppressed =>
          stats := stats.(suppressed := stats.suppressed + 1);
          return Already(false);
        case Captured(size, now) =>
          var captured := Event(number, size);
          if BodySize(config.limits, [captured]) > config.limits.maxBatchBytes {
            stats := stats.(failed := stats.failed + 1, dropped := stats.dropped + 1);
            return Already(false);
          }
          var room := HasBudget(now);
          if !room {
            stats := stats.(throttled := stats.throttled + 1);
            return Already(false);
          }
          promise := AdmitEvent(captured, now, timers);
      }
    }

    /** The part of capture behind the budget check. */
    method AdmitEvent(captured: Event, now: int, timers: Timers) returns (promise: Promise)
      requires ValidConfig(config)
      modifies this
      ensures View() == Admit(config, old(View()), captured, now, timers)
      ensures var (full, queued) := Enqueue(config, old(View()), captured);
              promise == if !queued then Already(false)
                         else if |full.queue| >= config.limits.batchSize && old(flushPromise) == None
                         then PromiseOf(View())
                         else Already(true)
    {
      hide Flush, ScheduleFlush;
      var queued := Push(captured);
      if !queued {
        return Already(false);
      }
      sentAt := sentAt + [now];
      if |queue| >= config.limits.batchSize {
        if flushPromise.Some? {
          return Already(true);
        }
        promise := FlushQueue();
        return;
      }
      ArmTimer(timers);
      return Already(true);
    }

    // -------------------------------------------------------------- delivering

    /** sendBatch up to the transport call. */
    method SendBatch(i: nat, events: Batch, attempt: nat, unsent: seq<Batch>)
      requires i < |jobs|
      modifies this
      ensures View() == Transmit(config, old(View()), i, events, attempt, unsent)
    {
      if BodySize(config.limits, events) > config.limits.maxBatchBytes {
        GiveUp(i, events, attempt, unsent);
        return;
      }
      jobs := jobs[i := jobs[i].(phase := Sending(events, attempt, unsent))];
    }

    method GiveUp(i: nat, events: Batch, calls: nat, unsent: seq<Batch>)
      requires i < |jobs|
      modifies this
      ensures View() == DropBatch(old(View()), i, events, calls, unsent)
    {
      stats := stats.(failed := stats.failed + |events|, dropped := stats.dropped + |events|);
      closed := closed + [Closing(i, events, calls, Dropped)];
      var job := jobs[i].(ok := false, dropped := jobs[i].dropped + |events|);
      jobs := jobs[i := Advanced(jobs, job, unsent, true)];
    }

    method BeginSnapshot(i: nat)
      requires Valid() && i < |jobs| && Released(jobs, jobs[i])
      modifies this
      ensures Valid() && View() == Apply(config, old(View()), SnapshotStarts(i))
    {
      hide Inv, Moving, Flatten, MakeBatches, BodySize, Budget.Window;
      StepKeepsInv(config, View(), SnapshotStarts(i));
      SendSnapshot(i);
    }

    method BeginBatch(i: nat)
      requires Valid() && i < |jobs| && jobs[i].phase.Ready? && jobs[i].phase.unsent != []
      modifies this
      ensures Valid() && View() == Apply(config, old(View()), BatchStarts(i))
    {
      hide Inv, Moving, Flatten, MakeBatches, BodySize, Budget.Window;
      StepKeepsInv(config, View(), BatchStarts(i));
      var Ready(unsent, started) := jobs[i].phase;
      if jobs[i].active.Some? || started {
        reservedCount := reservedCount - |unsent[0]|;
      }
      SendBatch(i, unsent[0], 0, unsent[1..]);
    }

    method TransportAccepted(i: nat)
      requires Valid() && i < |jobs| && jobs[i].phase.Sending?
      modifies this
      ensures Valid() && View() == Apply(config, old(View()), Accepts(i))
    {
      hide Inv, Moving, Flatten, MakeBatches, BodySize, Budget.Window;
      StepKeepsInv(config, View(), Accepts(i));
      var Sending(events, attempt, unsent) := jobs[i].phase;
      stats := stats.(sent := stats.sent + |events|, batches := stats.batches + 1);
      closed := closed + [Closing(i, events, attempt + 1, Sent)];
      jobs := jobs[i := Advanced(jobs, jobs[i].(sent := jobs[i].sent + |events|), unsent, true)];
    }

    /** retryBatch: backs off while attempts remain, then gives the batch up. */
    method TransportRefused(i: nat, timers: Timers)
      requires Valid() && i < |jobs| && jobs[i].phase.Sending?
      modifies this
      ensures Valid() && View() == Apply(config, old(View()), Refuses(i, timers))
    {
      hide Inv, Moving, Flatten, MakeBatches, BodySize, Budget.Window;
      StepKeepsInv(config, View(), Refuses(i, timers));
      var Sending(events, attempt, unsent) := jobs[i].phase;
      if attempt < config.maxRetries {
        stats := stats.(retries := stats.retries + 1);
        if timers.Throwing? {
          var left := |Flatten(unsent)|;
          jobs := jobs[i := jobs[i].(phase := Delivered(Rejected), lost := jobs[i].lost + |events| + left)];
          closed := closed + [Closing(i, events, attempt + 1, Lost)] + Abandoned(i, unsent);
          lost := lost + |events| + left;
          leaked := leaked + left;
          return;
        }
        jobs := jobs[i := jobs[i].(phase := BackingOff(events, attempt, unsent))];
        return;
      }
      GiveUp(i, events, attempt + 1, unsent);
    }

    method BackOffOver(i: nat)
      requires Valid() && i < |jobs| && jobs[i].phase.BackingOff?
      modifies this
      ensures Valid() && View() == Apply(config, old(View()), RetryStarts(i))
    {
      hide Inv, Moving, Flatten, MakeBatches, BodySize, Budget.Window;
      StepKeepsInv(config, View(), RetryStarts(i));
      var BackingOff(events, attempt, unsent) := jobs[i].phase;
      SendBatch(i, events, attempt + 1, unsent);
    }

    /** The finally callback of a flush. */
    method FlushSettled(i: nat, timers: Timers)
      requires Valid() && i < |jobs| && jobs[i].phase.Delivered?
      modifies this
      ensures Valid() && View() == Apply(config, old(View()), Settles(i, timers))
    {
      hide Inv, Moving, Flatten, MakeBatches, BodySize, Budget.Window;
      StepKeepsInv(config, View(), Settles(i, timers));
      jobs := jobs[i := jobs[i].(phase := Settled(jobs[i].phase.outcome))];
      if flushPromise != Some(i) {
        return;
      }
      flushPromise := None;
      if |queue| >= config.limits.batchSize {
        var _ := FlushQueue();
      } else {
        ArmTimer(timers);
      }
    }

    // -------------------------------------------------------------- timer, stop, report

    method TimerFired()
      requires Valid() && flushTimer
      modifies this
      ensures Valid() && View() == Apply(config, old(View()), TimerFires)
    {
      hide Inv, Moving, Flatten, MakeBatches, BodySize, Budget.Window;
      StepKeepsInv(config, View(), TimerFires);
      flushTimer := false;
      var _ := FlushQueue();
    }

    method Stop()
      requires Valid()
      modifies this
      ensures Valid() && View() == Apply(config, old(View()), DestroyCall) && Stopped(View())
    {
      hide Inv, Moving, Flatten, MakeBatches, BodySize, Budget.Window;
      StepKeepsInv(config, View(), DestroyCall);
      DestroyStops(config, View());
      stopped := true;
      flushTimer := false;
      var _ := FlushQueue();
    }

    /** The reported queue length is what is held, less the one batch being sent, plus leaked reservations. */
    method GetStats() returns (report: Report)
      requires Valid()
      ensures report.stats == stats && 0 <= report.queued <= config.maxQueueSize
      ensures report.queued == Live(View()) - Current(View()) + leaked
    {
      hide Inv, Flatten;
      BoundedIn(config, View());
      report := Report(|queue| + reservedCount, stats);
    }
  }
}
