/** The counters of the client, and how often a batch is tried before it is given up. */
module DeliveryCounters {
  import opened Options
  import opened Batching
  import Budget
  import opened Delivery
  import opened DeliveryInvariant
  import opened DeliveryTheorems
  import opened DeliveryCaptures

  // ---------------------------------------------------------------- attempts at sending

  /** Transport calls made for a batch that a job is sending or has had refused. */
  function TriesOf(j: Job): nat {
    match j.phase
    case Sending(_, attempt, _) => attempt + 1
    case BackingOff(_, attempt, _) => attempt + 1
    case _ => 0
  }

  /** Refusals that a job has counted as retries for the batch it is sending. */
  function RetriesOf(j: Job): nat {
    match j.phase
    case Sending(_, attempt, _) => attempt
    case BackingOff(_, attempt, _) => attempt + 1
    case _ => 0
  }

  function Tries(jobs: seq<Job>): nat {
    if jobs == [] then 0 else Tries(jobs[..|jobs| - 1]) + TriesOf(jobs[|jobs| - 1])
  }

  function Retries(jobs: seq<Job>): nat {
    if jobs == [] then 0 else Retries(jobs[..|jobs| - 1]) + RetriesOf(jobs[|jobs| - 1])
  }

  /** Transport calls for closed batches. */
  function ClosedTries(closed: seq<Closing>): nat {
    if closed == [] then 0 else ClosedTries(closed[..|closed| - 1]) + closed[|closed| - 1].attempts
  }

  /** Retries of a closed batch: one less than its attempts, unless the timer of the last retry threw. */
  function ClosedRetriesOf(d: Closing): int {
    if d.fate == Lost then d.attempts else d.attempts - 1
  }

  function ClosedRetries(closed: seq<Closing>): int {
    if closed == [] then 0 else ClosedRetries(closed[..|closed| - 1]) + ClosedRetriesOf(closed[|closed| - 1])
  }

  /** How many batches met a fate. */
  function Batches(closed: seq<Closing>, fate: Fate): nat {
    if closed == [] then 0
    else Batches(closed[..|closed| - 1], fate) + (if closed[|closed| - 1].fate == fate then 1 else 0)
  }

  lemma {:induction false} PutTries(jobs: seq<Job>, i: nat, j: Job)
    requires i < |jobs|
    ensures Tries(jobs[i := j]) == Tries(jobs) + TriesOf(j) - TriesOf(jobs[i])
    ensures Retries(jobs[i := j]) == Retries(jobs) + RetriesOf(j) - RetriesOf(jobs[i])
    decreases |jobs|
  {
    hide TriesOf, RetriesOf;
    var last := |jobs| - 1;
    if i == last {
      assert jobs[i := j][..last] == jobs[..last];
    } else {
      assert jobs[i := j][..last] == jobs[..last][i := j];
      PutTries(jobs[..last], i, j);
    }
  }

  lemma AppendTries(jobs: seq<Job>, j: Job)
    ensures Tries(jobs + [j]) == Tries(jobs) + TriesOf(j) && Retries(jobs + [j]) == Retries(jobs) + RetriesOf(j)
  {
    assert (jobs + [j])[..|jobs|] == jobs;
  }

  lemma CloseOne(closed: seq<Closing>, d: Closing)
    ensures ClosedTries(closed + [d]) == ClosedTries(closed) + d.attempts
    ensures ClosedRetries(closed + [d]) == ClosedRetries(closed) + ClosedRetriesOf(d)
    ensures forall fate :: Batches(closed + [d], fate) == Batches(closed, fate) + (if d.fate == fate then 1 else 0)
    ensures forall fate :: Fated(closed + [d], fate) == Fated(closed, fate) + (if d.fate == fate then d.batch else [])
  {
    assert (closed + [d])[..|closed|] == closed;
  }

  /** Abandoned batches were never tried. */
  lemma {:induction false} CloseUntried(closed: seq<Closing>, untried: seq<Closing>)
    requires forall k :: 0 <= k < |untried| ==> untried[k].attempts == 0 && untried[k].fate == Lost
    ensures ClosedTries(closed + untried) == ClosedTries(closed)
    ensures ClosedRetries(closed + untried) == ClosedRetries(closed)
    ensures Batches(closed + untried, Sent) == Batches(closed, Sent)
    ensures Fated(closed + untried, Dropped) == Fated(closed, Dropped)
    decreases |untried|
  {
    if untried == [] {
      assert closed + untried == closed;
    } else {
      var front, last := untried[..|untried| - 1], untried[|untried| - 1];
      assert closed + untried == (closed + front) + [last];
      CloseUntried(closed, front);
      CloseOne(closed + front, last);
    }
  }

  // ---------------------------------------------------------------- the books of a run

  /** The captures of a run on which the verdict was this one. */
  function Tally(c: Config, steps: seq<Step>, v: Verdict): nat {
    if steps == [] then 0
    else
      var front, last := steps[..|steps| - 1], steps[|steps| - 1];
      Tally(c, front, v) + One(last.CaptureCall? && VerdictOn(c, Run(c, INITIAL, front), last.candidate) == v)
  }

  /** A step that hands a batch to the transport: it leaves a job sending that was not. */
  predicate CallsTransport(c: Config, s: State, step: Step) {
    var after := Apply(c, s, step);
    && (step.BatchStarts? || step.RetryStarts?) && step.i < |s.jobs| && step.i < |after.jobs|
    && !s.jobs[step.i].phase.Sending? && after.jobs[step.i].phase.Sending?
  }

  function Calls(c: Config, steps: seq<Step>): nat {
    if steps == [] then 0
    else
      var front, last := steps[..|steps| - 1], steps[|steps| - 1];
      Calls(c, front) + One(CallsTransport(c, Run(c, INITIAL, front), last))
  }

  /** The counters that only captures raise, as they are after a verdict. */
  predicate Charged(s: State, s': State, v: Option<Verdict>) {
    && s'.attempts == s.attempts + One(v.Some? && v != Some(Ended))
    && s'.stats.sampled == s.stats.sampled + One(v == Some(Skipped))
    && s'.stats.invalid == s.stats.invalid + One(v == Some(Unusable))
    && s'.stats.suppressed == s.stats.suppressed + One(v == Some(Withheld))
    && s'.stats.throttled == s.stats.throttled + One(v == Some(TooMany))
    && s'.stats.failed - |Fated(s'.closed, Dropped)|
       == s.stats.failed - |Fated(s.closed, Dropped)| + One(v == Some(TooLarge))
    && s'.stats.dropped - s'.stats.failed
       == s.stats.dropped - s.stats.failed + One(v == Some(NoRoom)) + One(v == Some(Displacing))
  }

  /** The counters that only deliveries raise. */
  predicate Delivering(s: State, s': State, calls: bool) {
    && s'.stats.batches - Batches(s'.closed, Sent) == s.stats.batches - Batches(s.closed, Sent)
    && s'.stats.retries - ClosedRetries(s'.closed) - Retries(s'.jobs)
       == s.stats.retries - ClosedRetries(s.closed) - Retries(s.jobs)
    && ClosedTries(s'.closed) + Tries(s'.jobs) == ClosedTries(s.closed) + Tries(s.jobs) + One(calls)
  }

  lemma FlushCounts(c: Config, s: State)
    requires ValidConfig(c) && Inv(c, s)
    ensures Charged(s, Flush(c, s), None) && Delivering(s, Flush(c, s), false)
  {
    hide MakeBatches, Flatten, Advanced, JobOk, Fits;
    if s.queue != [] {
      GroupedOk(c, s.queue);
      var after := Flush(c, s);
      AppendTries(s.jobs, after.jobs[|s.jobs|]);
      FlushedJob(c, s);
    }
  }

  /** The job a flush starts has tried nothing yet. */
  lemma FlushedJob(c: Config, s: State)
    requires ValidConfig(c) && Inv(c, s) && s.queue != []
    ensures var after := Flush(c, s);
            && |after.jobs| == |s.jobs| + 1 && after.jobs == s.jobs + [after.jobs[|s.jobs|]]
            && TriesOf(after.jobs[|s.jobs|]) == RetriesOf(after.jobs[|s.jobs|]) == 0
            && after.stats == s.stats && after.closed == s.closed && after.attempts == s.attempts
  {
    hide MakeBatches, Flatten, JobOk, Fits, AllFit, PriorAccepted;
    GroupedOk(c, s.queue);
  }

  lemma ScheduleCounts(c: Config, s: State, timers: Timers)
    requires ValidConfig(c) && Inv(c, s)
    ensures Charged(s, ScheduleFlush(c, s, timers), None) && Delivering(s, ScheduleFlush(c, s, timers), false)
  {
    hide Flush, Inv;
    FlushCounts(c, s);
  }

  lemma CaptureCounts(c: Config, s: State, candidate: Candidate, timers: Timers)
    requires ValidConfig(c) && Inv(c, s)
    ensures Charged(s, Capture(c, s, candidate, timers), Some(VerdictOn(c, s, candidate)))
    ensures Delivering(s, Capture(c, s, candidate, timers), false)
  {
    hide Inv, FitsAlone, Flush, Budget.Window, ScheduleFlush, Recent, Admit;
    if candidate.Captured? {
      AloneSize(c.limits, Event(s.attempts, candidate.size));
      WindowIsRecent(s.sentAt, candidate.now);
      if !s.stopped && FitsAlone(c.limits, Event(s.attempts, candidate.size))
         && |Budget.Window(s.sentAt, candidate.now)| < c.maxEventsPerMinute {
        AdmitCounts(c, s, candidate, timers);
      }
    }
  }

  lemma AdmitCounts(c: Config, s: State, candidate: Candidate, timers: Timers)
    requires ValidConfig(c) && Inv(c, s) && candidate.Captured? && !s.stopped
    requires FitsAlone(c.limits, Event(s.attempts, candidate.size))
    requires |Budget.Window(s.sentAt, candidate.now)| < c.maxEventsPerMinute
    ensures var t := s.(attempts := s.attempts + 1, sentAt := Budget.Window(s.sentAt, candidate.now));
            var after := Admit(c, t, Event(s.attempts, candidate.size), candidate.now, timers);
            Charged(s, after, Some(VerdictOn(c, s, candidate))) && Delivering(s, after, false)
  {
    hide Inv, FitsAlone, Flush, Budget.Window, ScheduleFlush, Recent;
    hide Fated, Batches, ClosedRetries, ClosedTries, Retries, Tries, Trail, Moving;
    var e := Event(s.attempts, candidate.size);
    var t := s.(attempts := s.attempts + 1, sentAt := Budget.Window(s.sentAt, candidate.now));
    AloneSize(c.limits, e);
    WindowIsRecent(s.sentAt, candidate.now);
    StampsKeepInv(c, s, candidate.now);
    BudgetIsSorted(c, s, candidate.now);
    assert t.(attempts := e.id) == s.(sentAt := Budget.Window(s.sentAt, candidate.now));
    EnqueueKeepsInv(c, t, e, candidate.now);
    var (q, queued) := Enqueue(c, t, e);
    if queued {
      var stamped := q.(sentAt := q.sentAt + [candidate.now]);
      FlushCounts(c, stamped);
      ScheduleCounts(c, stamped, timers);
    }
  }

  lemma SettleCounts(c: Config, s: State, i: nat, timers: Timers)
    requires ValidConfig(c) && Inv(c, s) && i < |s.jobs| && s.jobs[i].phase.Delivered?
    ensures Charged(s, Settle(c, s, i, timers), None) && Delivering(s, Settle(c, s, i, timers), false)
  {
    hide Inv, Flush, ScheduleFlush, Fated, Batches, ClosedRetries, ClosedTries, Retries, Tries, Trail;
    PutTries(s.jobs, i, s.jobs[i].(phase := Settled(s.jobs[i].phase.outcome)));
    ClosedKeepsInv(c, s, i);
    FlushCounts(c, Closed(s, i));
    ScheduleCounts(c, Closed(s, i), timers);
  }

  lemma SnapshotCounts(c: Config, s: State, i: nat)
    requires ValidConfig(c) && Acts(c, s, i) && s.jobs[i].phase.Waiting?
    ensures Charged(s, SendPending(c, s, i), None) && Delivering(s, SendPending(c, s, i), false)
  {
    hide MakeBatches, Flatten, PriorAccepted, Fits, AllFit;
    GroupedOk(c, s.jobs[i].pending);
    PutTries(s.jobs, i, SendPending(c, s, i).jobs[i]);
  }

  lemma StartCounts(c: Config, s: State, i: nat)
    requires Acts(c, s, i) && s.jobs[i].phase.Ready? && s.jobs[i].phase.unsent != []
    ensures Charged(s, StartBatch(c, s, i), None) && Delivering(s, StartBatch(c, s, i), true)
    ensures |StartBatch(c, s, i).jobs| == |s.jobs| && StartBatch(c, s, i).jobs[i].phase.Sending?
  {
    hide Flatten, PriorAccepted, BodySize;
    var b := s.jobs[i].phase.unsent[0];
    assert Fits(c.limits, b);
    PutTries(s.jobs, i, StartBatch(c, s, i).jobs[i]);
  }

  lemma RetryCounts(c: Config, s: State, i: nat)
    requires Acts(c, s, i) && s.jobs[i].phase.BackingOff?
    ensures Charged(s, RetryFires(c, s, i), None) && Delivering(s, RetryFires(c, s, i), true)
    ensures |RetryFires(c, s, i).jobs| == |s.jobs| && RetryFires(c, s, i).jobs[i].phase.Sending?
  {
    hide Flatten, PriorAccepted, BodySize;
    PutTries(s.jobs, i, RetryFires(c, s, i).jobs[i]);
  }

  lemma AcceptCounts(c: Config, s: State, i: nat)
    requires Acts(c, s, i) && s.jobs[i].phase.Sending?
    ensures Charged(s, TransportAccepts(s, i), None) && Delivering(s, TransportAccepts(s, i), false)
  {
    hide Flatten, PriorAccepted, BodySize;
    var Sending(b, attempt, _) := s.jobs[i].phase;
    CloseOne(s.closed, Closing(i, b, attempt + 1, Sent));
    PutTries(s.jobs, i, TransportAccepts(s, i).jobs[i]);
  }

  lemma DropCounts(c: Config, s: State, i: nat)
    requires Acts(c, s, i) && s.jobs[i].phase.Sending? && s.jobs[i].phase.attempt == c.maxRetries
    ensures var Sending(b, attempt, unsent) := s.jobs[i].phase;
            var after := DropBatch(s, i, b, attempt + 1, unsent);
            Charged(s, after, None) && Delivering(s, after, false)
  {
    hide Flatten, PriorAccepted, BodySize;
    var Sending(b, attempt, unsent) := s.jobs[i].phase;
    CloseOne(s.closed, Closing(i, b, attempt + 1, Dropped));
    PutTries(s.jobs, i, DropBatch(s, i, b, attempt + 1, unsent).jobs[i]);
  }

  lemma AbandonCounts(c: Config, s: State, i: nat)
    requires Acts(c, s, i) && s.jobs[i].phase.Sending? && s.jobs[i].phase.attempt < c.maxRetries
    ensures Charged(s, TransportRefuses(c, s, i, Throwing), None)
    ensures Delivering(s, TransportRefuses(c, s, i, Throwing), false)
  {
    hide Flatten, PriorAccepted, BodySize, DropBatch, JobOk, HistoryOk, Turn, LinkOk, Abandoned;
    hide Fated, Batches, ClosedRetries, ClosedTries, Retries, Tries;
    var Sending(b, attempt, unsent) := s.jobs[i].phase;
    var lost := Closing(i, b, attempt + 1, Lost);
    AbandonedUntried(i, unsent);
    CloseOne(s.closed, lost);
    CloseUntried(s.closed + [lost], Abandoned(i, unsent));
    PutTries(s.jobs, i, TransportRefuses(c, s, i, Throwing).jobs[i]);
    assert Fated(s.closed, Dropped) + [] == Fated(s.closed, Dropped);
  }

  lemma AbandonedUntried(i: nat, unsent: seq<Batch>)
    ensures forall k {:trigger Abandoned(i, unsent)[k]} :: 0 <= k < |Abandoned(i, unsent)| ==>
              Abandoned(i, unsent)[k].attempts == 0 && Abandoned(i, unsent)[k].fate == Lost
  {}

  lemma RefuseCounts(c: Config, s: State, i: nat, timers: Timers)
    requires Acts(c, s, i) && s.jobs[i].phase.Sending?
    ensures Charged(s, TransportRefuses(c, s, i, timers), None)
    ensures Delivering(s, TransportRefuses(c, s, i, timers), false)
  {
    hide Flatten, PriorAccepted, BodySize, DropBatch, HistoryOk, Turn, LinkOk;
    hide Fated, Batches, ClosedRetries, ClosedTries, Retries, Tries;
    var Sending(b, attempt, unsent) := s.jobs[i].phase;
    if attempt == c.maxRetries {
      DropCounts(c, s, i);
    } else if timers.Throwing? {
      AbandonCounts(c, s, i);
    } else {
      PutTries(s.jobs, i, s.jobs[i].(phase := BackingOff(b, attempt, unsent)));
    }
  }

  function VerdictOf(c: Config, s: State, step: Step): Option<Verdict> {
    if step.CaptureCall? then Some(VerdictOn(c, s, step.candidate)) else None
  }

  lemma DeliveryCounts(c: Config, s: State, step: Step)
    requires ValidConfig(c) && Inv(c, s)
    requires step.SnapshotStarts? || step.BatchStarts? || step.Accepts? || step.Refuses? || step.RetryStarts?
    ensures Charged(s, Apply(c, s, step), None) && Delivering(s, Apply(c, s, step), CallsTransport(c, s, step))
  {
    hide Inv, SendPending, StartBatch, TransportAccepts, TransportRefuses, RetryFires, Acts, Charged, Delivering;
    Unmoved(s);
    match step
    case SnapshotStarts(i) =>
      if i < |s.jobs| && Released(s.jobs, s.jobs[i]) {
        ActsOf(c, s, i);
        SnapshotCounts(c, s, i);
      }
    case BatchStarts(i) =>
      if i < |s.jobs| && s.jobs[i].phase.Ready? && s.jobs[i].phase.unsent != [] {
        ActsOf(c, s, i);
        StartCounts(c, s, i);
      }
    case Accepts(i) =>
      if i < |s.jobs| && s.jobs[i].phase.Sending? {
        ActsOf(c, s, i);
        AcceptCounts(c, s, i);
      }
    case Refuses(i, timers) =>
      if i < |s.jobs| && s.jobs[i].phase.Sending? {
        ActsOf(c, s, i);
        RefuseCounts(c, s, i, timers);
      }
    case RetryStarts(i) =>
      if i < |s.jobs| && s.jobs[i].phase.BackingOff? {
        ActsOf(c, s, i);
        RetryCounts(c, s, i);
      }
    case _ =>
  }

  lemma Unmoved(s: State)
    ensures Charged(s, s, None) && Delivering(s, s, false)
  {}

  lemma DestroyCounts(c: Config, s: State)
    requires ValidConfig(c) && Inv(c, s)
    ensures Charged(s, Destroy(c, s), None) && Delivering(s, Destroy(c, s), false)
  {
    hide Inv, Flush, Destroy;
    FlushCounts(c, s);
    DestroyIsFlush(c, s);
  }

  lemma StepCounts(c: Config, s: State, step: Step)
    requires ValidConfig(c) && Inv(c, s)
    ensures Charged(s, Apply(c, s, step), VerdictOf(c, s, step))
    ensures Delivering(s, Apply(c, s, step), CallsTransport(c, s, step))
  {
    hide Inv, SendPending, StartBatch, TransportAccepts, TransportRefuses, RetryFires, Settle, Flush, Capture, Destroy;
    hide Charged, Delivering, VerdictOn;
    Unmoved(s);
    match step
    case CaptureCall(candidate, timers) => CaptureCounts(c, s, candidate, timers);
    case FlushCall => FlushCounts(c, s);
    case TimerFires => FlushCounts(c, s);
    case Settles(i, timers) =>
      if i < |s.jobs| && s.jobs[i].phase.Delivered? {
        SettleCounts(c, s, i, timers);
      }
    case DestroyCall => DestroyCounts(c, s);
    case _ => DeliveryCounts(c, s, step);
  }

  /** The counters of the captures, and where each is read off. */
  predicate CountsCaptures(c: Config, s: State, steps: seq<Step>) {
    && s.stats.sampled == Tally(c, steps, Skipped) && s.stats.invalid == Tally(c, steps, Unusable)
    && s.stats.suppressed == Tally(c, steps, Withheld) && s.stats.throttled == Tally(c, steps, TooMany)
    && s.stats.failed == Tally(c, steps, TooLarge) + |Fated(s.closed, Dropped)|
    && s.stats.dropped == s.stats.failed + Tally(c, steps, NoRoom) + Tally(c, steps, Displacing)
  }

  /** The counters of the deliveries. */
  predicate CountsDeliveries(c: Config, s: State, steps: seq<Step>) {
    && s.stats.batches == Batches(s.closed, Sent)
    && s.stats.retries == ClosedRetries(s.closed) + Retries(s.jobs)
    && Calls(c, steps) == ClosedTries(s.closed) + Tries(s.jobs)
  }

  lemma {:induction false} RunCounts(c: Config, steps: seq<Step>)
    requires ValidConfig(c)
    ensures CountsCaptures(c, Run(c, INITIAL, steps), steps) && CountsDeliveries(c, Run(c, INITIAL, steps), steps)
    decreases |steps|
  {
    hide Apply, Inv, VerdictOn, CallsTransport, Fated, Batches, ClosedRetries, Retries, ClosedTries, Tries;
    if steps == [] {
      NothingCounted(INITIAL);
    } else {
      var front, last := steps[..|steps| - 1], steps[|steps| - 1];
      RunCounts(c, front);
      InitialInv(c);
      RunKeepsInv(c, INITIAL, front);
      StepCounts(c, Run(c, INITIAL, front), last);
    }
  }

  lemma NothingCounted(s: State)
    requires s.jobs == [] && s.closed == []
    ensures Retries(s.jobs) == Tries(s.jobs) == ClosedTries(s.closed) == 0 && ClosedRetries(s.closed) == 0
    ensures forall fate :: Fated(s.closed, fate) == [] && Batches(s.closed, fate) == 0
  {}

  // ---------------------------------------------------------------- giving up

  /** A batch is given up after its last retry and not before, and lost only while retries are left. */
  predicate ClosedFairly(c: Config, closed: seq<Closing>) {
    forall k {:trigger closed[k]} :: 0 <= k < |closed| ==>
      && (closed[k].fate == Dropped ==> closed[k].attempts == c.maxRetries + 1)
      && (closed[k].fate == Sent ==> 1 <= closed[k].attempts <= c.maxRetries + 1)
      && (closed[k].fate == Lost ==> closed[k].attempts <= c.maxRetries)
  }

  lemma OnlyAnswersClose(c: Config, s: State, step: Step)
    requires ValidConfig(c) && Inv(c, s) && !step.Accepts? && !step.Refuses?
    ensures Apply(c, s, step).closed == s.closed
  {
    hide Inv, StartBatch, RetryFires, Acts, Flush, MakeBatches, Flatten, FitsAlone, Budget.Window;
    FlushKeepsRejected(c, s);
    match step
    case CaptureCall(candidate, timers) => CaptureClosesNothing(c, s, candidate, timers);
    case BatchStarts(i) =>
      if i < |s.jobs| && s.jobs[i].phase.Ready? && s.jobs[i].phase.unsent != [] {
        ActsOf(c, s, i);
        StartClosesNothing(c, s, i);
      }
    case RetryStarts(i) =>
      if i < |s.jobs| && s.jobs[i].phase.BackingOff? {
        ActsOf(c, s, i);
        RetryClosesNothing(c, s, i);
      }
    case Settles(i, timers) =>
      if i < |s.jobs| && s.jobs[i].phase.Delivered? {
        FlushKeepsRejected(c, Closed(s, i));
      }
    case DestroyCall => FlushKeepsRejected(c, s.(stopped := true, timer := false));
    case _ =>
  }

  lemma CaptureClosesNothing(c: Config, s: State, candidate: Candidate, timers: Timers)
    ensures Capture(c, s, candidate, timers).closed == s.closed
  {
    hide Flush, FitsAlone, Budget.Window;
    if candidate.Captured? {
      var t := s.(attempts := s.attempts + 1, sentAt := Budget.Window(s.sentAt, candidate.now));
      var q := Enqueue(c, t, Event(s.attempts, candidate.size)).0;
      FlushKeepsRejected(c, q.(sentAt := q.sentAt + [candidate.now]));
    }
  }

  lemma StartClosesNothing(c: Config, s: State, i: nat)
    requires Acts(c, s, i) && s.jobs[i].phase.Ready? && s.jobs[i].phase.unsent != []
    ensures StartBatch(c, s, i).closed == s.closed
  {
    hide Flatten, PriorAccepted, BodySize;
    assert Fits(c.limits, s.jobs[i].phase.unsent[0]);
  }

  lemma RetryClosesNothing(c: Config, s: State, i: nat)
    requires Acts(c, s, i) && s.jobs[i].phase.BackingOff?
    ensures RetryFires(c, s, i).closed == s.closed
  {
    hide Flatten, PriorAccepted, BodySize;
  }

  lemma StepClosesFairly(c: Config, s: State, step: Step)
    requires ValidConfig(c) && Inv(c, s) && ClosedFairly(c, s.closed)
    ensures ClosedFairly(c, Apply(c, s, step).closed)
  {
    hide Inv, Flatten, PriorAccepted, Acts;
    if step.Accepts? || step.Refuses? {
      if step.i < |s.jobs| && s.jobs[step.i].phase.Sending? {
        ActsOf(c, s, step.i);
        AttemptIsBounded(c, s, step.i);
        if step.Refuses? {
          AbandonedUntried(step.i, s.jobs[step.i].phase.unsent);
        }
        hide Abandoned;
      }
    } else {
      hide Apply;
      OnlyAnswersClose(c, s, step);
    }
  }

  lemma AttemptIsBounded(c: Config, s: State, i: nat)
    requires Acts(c, s, i) && s.jobs[i].phase.Sending?
    ensures s.jobs[i].phase.attempt <= c.maxRetries
  {}

  /** On every run a batch is sent at most once more than there are retries, and dropped only after all of them. */
  lemma {:induction false} GivenUpInTheEnd(c: Config, steps: seq<Step>)
    requires ValidConfig(c)
    ensures ClosedFairly(c, Run(c, INITIAL, steps).closed)
    decreases |steps|
  {
    hide Apply, Inv, ClosedFairly;
    if steps == [] {
      NothingClosed(c);
    } else {
      var front := steps[..|steps| - 1];
      GivenUpInTheEnd(c, front);
      InitialInv(c);
      RunKeepsInv(c, INITIAL, front);
      StepClosesFairly(c, Run(c, INITIAL, front), steps[|steps| - 1]);
    }
  }

  lemma NothingClosed(c: Config)
    ensures ClosedFairly(c, INITIAL.closed)
  {}

  // ---------------------------------------------------------------- refusals

  /**
   In any state, reachable or not, a snapshot sends the events that fit a body, in order. The others are counted as
   failed and dropped, their reservations are released, and the flush answers false.
   */
  lemma RefusalsAreCounted(c: Config, s: State, i: nat) returns (refused: nat)
    requires ValidConfig(c) && i < |s.jobs|
    ensures refused == |s.jobs[i].pending| - |Sendable(c.limits, s.jobs[i].pending)|
    ensures var after := SendPending(c, s, i);
            var j := after.jobs[i];
            && after.stats == s.stats.(failed := s.stats.failed + refused, dropped := s.stats.dropped + refused)
            && j.dropped == refused && (j.ok <==> refused == 0) && BacklogOf(j) == Sendable(c.limits, j.pending)
            && after.reservedCount == s.reservedCount + |ReservedOf(j)| - (if j.active.Some? then |j.pending| else 0)
            && (j.phase.Delivered? <==> refused == |j.pending|)
            && (j.phase.Delivered? ==> j.phase.outcome == Resolved(refused == 0 && PriorAccepted(s.jobs, j)))
  {
    hide MakeBatches, Sendable, Fits;
    var pending := s.jobs[i].pending;
    BatchesAreSound(c.limits, pending);
    var g := MakeBatches(c.limits, pending);
    refused := g.rejected;
    var j := SendPending(c, s, i).jobs[i];
    assert BacklogOf(j) == Flatten(g.batches);
    if g.batches != [] {
      FlattenFirst(g.batches);
      assert |Flatten(g.batches)| > 0;
    }
  }
}
