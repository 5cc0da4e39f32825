/** What the delivery machine promises on every run. */
module DeliveryTheorems {
  import opened Options
  import opened Batching
  import Budget
  import opened Delivery
  import opened DeliveryInvariant

  // ---------------------------------------------------------------- counting

  /** The batch on the wire, waiting for its retry, or taken from the queue without a reservation. */
  function Current(s: State): int {
    |All(Flying, s.jobs)| + |All(Queued, s.jobs)| - |All(Reserved, s.jobs)|
  }

  lemma CurrentOf(c: Config, j: Job)
    requires JobOk(c, j)
    ensures 0 <= |InFlightOf(j)| + |BacklogOf(j)| - |ReservedOf(j)| <= c.limits.batchSize
  {
    if j.phase.Ready? {
      FlattenFirst(j.phase.unsent);
      assert Fits(c.limits, j.phase.unsent[0]);
    }
  }

  lemma CurrentIsOneBatch(c: Config, s: State)
    requires Inv(c, s)
    ensures 0 <= Current(s) <= c.limits.batchSize
    ensures s.flushPromise == None ==> Current(s) == 0 && All(Reserved, s.jobs) == []
  {
    hide All, JobOk, VerdictOk, LinkOk, QueueOk, Balanced, OrderOk, HistoryOk, BudgetOk;
    if s.flushPromise == None {
      IdleIsSettled(s.jobs);
      AllSettled(s.jobs);
    } else {
      var i := FirstUnsettled(s.jobs);
      assert JobOk(c, s.jobs[i]);
      CurrentOf(c, s.jobs[i]);
      FocusAll(s.jobs, i, s.jobs[i]);
      SameWaiting(s.jobs[i + 1..]);
      assert PartOf(Flying, s.jobs[i]) == InFlightOf(s.jobs[i]) && PartOf(Queued, s.jobs[i]) == BacklogOf(s.jobs[i])
          && PartOf(Reserved, s.jobs[i]) == ReservedOf(s.jobs[i]);
    }
  }

  lemma {:induction false} SameWaiting(jobs: seq<Job>)
    requires forall k :: 0 <= k < |jobs| ==> jobs[k].phase.Waiting?
    ensures All(Queued, jobs) == All(Reserved, jobs)
    decreases |jobs|
  {
    if jobs == [] {
    } else {
      SameWaiting(jobs[..|jobs| - 1]);
    }
  }

  lemma FirstUnsettled(jobs: seq<Job>) returns (i: nat)
    requires InTurn(jobs) && LastUnsettled(jobs) != None
    ensures Turn(jobs, i)
  {
    i := |jobs| - 1;
    while i > 0 && !jobs[i - 1].phase.Settled?
      invariant i < |jobs| && !jobs[i].phase.Settled?
    {
      i := i - 1;
    }
    if i > 0 {
      var prior := jobs[i - 1];
      forall k | 0 <= k < i ensures jobs[k].phase.Settled? {
        assert k < i - 1 && !jobs[k].phase.Settled? ==> prior.phase.Waiting?;
      }
    }
  }

  /** The counters count the events of the closed batches: sent and lost all of them, dropped among others. */
  predicate CountsFates(s: State) {
    && s.stats.sent == |Fated(s.closed, Sent)| && s.lost == |Fated(s.closed, Lost)|
    && |Fated(s.closed, Dropped)| <= s.stats.dropped
  }

  lemma ConservedIn(c: Config, s: State)
    requires Inv(c, s)
    ensures Conserved(s) && s.stats.failed <= s.stats.dropped && CountsFates(s)
  {
    hide All, JobsOk, InTurn, OrderOk, BudgetOk, AllAlone, LastUnsettled;
  }

  predicate Conserved(s: State) {
    s.attempts == s.stats.sampled + s.stats.suppressed + s.stats.throttled + s.stats.invalid
                  + s.stats.dropped + s.stats.sent + s.lost
                  + |s.queue| + (s.reservedCount - s.leaked) + Current(s)
  }

  /**
   Every capture attempted before the stop is in exactly one place. `lost` and `leaked` are zero unless a
   timer threw while a batch was backing off (DeliveryLosses.LossesExactly).
   */
  lemma CapturesAreConserved(c: Config, steps: seq<Step>)
    requires ValidConfig(c)
    ensures var s := Run(c, INITIAL, steps);
            Conserved(s) && s.stats.failed <= s.stats.dropped && CountsFates(s)
  {
    hide Inv, Run, Conserved, CountsFates;
    InitialInv(c);
    RunKeepsInv(c, INITIAL, steps);
    ConservedIn(c, Run(c, INITIAL, steps));
  }

  predicate Bounded(c: Config, s: State) {
    && 0 <= |s.queue| + s.reservedCount <= c.maxQueueSize
    && s.reservedCount == s.leaked + |All(Reserved, s.jobs)|
    && (s.flushPromise == None ==> s.reservedCount == s.leaked)
    && Live(s) <= c.maxQueueSize + c.limits.batchSize
    && |s.sentAt| <= c.maxEventsPerMinute
  }

  lemma BoundedIn(c: Config, s: State)
    requires Inv(c, s)
    ensures Bounded(c, s)
  {
    hide All, JobsOk, InTurn, OrderOk, Balanced, HistoryOk, AllAlone, LastUnsettled;
    CurrentIsOneBatch(c, s);
  }

  /** The backlog never outgrows the queue bound, and an idle client holds no reservation but a leaked one. */
  lemma BacklogIsBounded(c: Config, steps: seq<Step>)
    requires ValidConfig(c)
    ensures Bounded(c, Run(c, INITIAL, steps))
  {
    hide Inv, Run, Bounded;
    InitialInv(c);
    RunKeepsInv(c, INITIAL, steps);
    BoundedIn(c, Run(c, INITIAL, steps));
  }

  // ---------------------------------------------------------------- serial, in order

  /** While a batch is with the transport or backing off, no other flush has anything started. */
  lemma DeliveryIsSerial(c: Config, steps: seq<Step>, i: nat, k: nat)
    requires ValidConfig(c)
    requires var jobs := Run(c, INITIAL, steps).jobs;
             i < |jobs| && k < |jobs| && i != k && (jobs[i].phase.Sending? || jobs[i].phase.BackingOff?)
    ensures var jobs := Run(c, INITIAL, steps).jobs;
            jobs[k].phase.Waiting? || jobs[k].phase.Settled?
  {
    hide JobsOk, QueueOk, OrderOk, Balanced, HistoryOk, BudgetOk;
    InitialInv(c);
    RunKeepsInv(c, INITIAL, steps);
  }

  lemma {:induction false} AcceptedIncreasing(closed: seq<Closing>)
    requires Increasing(Done(closed))
    ensures Increasing(Fated(closed, Sent))
    ensures forall n :: Below(Done(closed), n) ==> Below(Fated(closed, Sent), n)
    decreases |closed|
  {
    if closed == [] {
    } else {
      var front, b := closed[..|closed| - 1], closed[|closed| - 1].batch;
      assert Done(closed) == Done(front) + b;
      forall i, j | 0 <= i < j < |Done(front)| ensures Done(front)[i].id < Done(front)[j].id {
        assert Done(closed)[i] == Done(front)[i] && Done(closed)[j] == Done(front)[j];
      }
      AcceptedIncreasing(front);
      if closed[|closed| - 1].fate == Sent {
        AppendIncreasing(Done(front), Fated(front, Sent), b);
      }
      forall n | Below(Done(closed), n) ensures Below(Fated(closed, Sent), n) {
        BelowParts(Done(front), b, n);
        BelowParts(Fated(front, Sent), b, n);
      }
    }
  }

  lemma BelowParts(a: Batch, b: Batch, n: nat)
    ensures Below(a + b, n) <==> Below(a, n) && Below(b, n)
  {
    assert forall i :: 0 <= i < |a| ==> (a + b)[i] == a[i];
    assert forall i :: 0 <= i < |b| ==> (a + b)[|a| + i] == b[i];
  }

  lemma AppendIncreasing(all: Batch, some: Batch, b: Batch)
    requires Increasing(all + b) && Increasing(some)
    requires forall n :: Below(all, n) ==> Below(some, n)
    ensures Increasing(some + b)
  {
    forall i, j | 0 <= i < j < |some + b| ensures (some + b)[i].id < (some + b)[j].id {
      if j >= |some| {
        var k := j - |some|;
        assert (all + b)[|all| + k] == b[k];
        if i >= |some| {
          assert (all + b)[|all| + (i - |some|)] == b[i - |some|];
        } else {
          forall m | 0 <= m < |all| ensures all[m].id < b[k].id {
            assert (all + b)[m] == all[m];
          }
          assert Below(all, b[k].id);
        }
      }
    }
  }

  lemma PrefixIncreasing(a: Batch, b: Batch)
    requires Increasing(a + b)
    ensures Increasing(a)
  {
    assert forall i :: 0 <= i < |a| ==> (a + b)[i] == a[i];
  }

  /** The accepted batches, read one after another, are captures in order and without repetition. */
  lemma AcceptedInCaptureOrder(c: Config, steps: seq<Step>)
    requires ValidConfig(c)
    ensures var s := Run(c, INITIAL, steps);
            && Increasing(Fated(s.closed, Sent))
            && forall i {:trigger s.closed[i]} :: 0 <= i < |s.closed| ==>
                 s.closed[i].attempts <= c.maxRetries + 1 && Fits(c.limits, s.closed[i].batch)
  {
    hide All, Done, Fated, JobsOk, InTurn, QueueOk, Balanced, BudgetOk, Increasing, Below, Fits, Run, LastUnsettled;
    InitialInv(c);
    RunKeepsInv(c, INITIAL, steps);
    var s := Run(c, INITIAL, steps);
    var rest := All(Flying, s.jobs) + All(Queued, s.jobs) + s.queue;
    assert Trail(s) == Done(s.closed) + rest;
    PrefixIncreasing(Done(s.closed), rest);
    AcceptedIncreasing(s.closed);
    forall i | 0 <= i < |s.closed|
      ensures s.closed[i].attempts <= c.maxRetries + 1 && Fits(c.limits, s.closed[i].batch) {
      assert ClosedOk(c, s.closed[i]);
    }
  }

  // ---------------------------------------------------------------- what a flush promise means

  /** Nothing was dropped or lost by this flush or by any flush it waited for, back to when the client was idle. */
  predicate Clean(jobs: seq<Job>, i: nat)
    requires i < |jobs|
  {
    jobs[i].dropped == 0 && jobs[i].lost == 0 && (jobs[i].active.Some? ==> i > 0 && Clean(jobs, i - 1))
  }

  lemma {:induction false} PromiseValue(c: Config, jobs: seq<Job>, i: nat)
    requires JobsOk(c, jobs) && InTurn(jobs) && i < |jobs| && jobs[i].phase.Settled?
    ensures jobs[i].phase.outcome.Rejected? <==> jobs[i].lost > 0
    ensures jobs[i].phase.outcome.Resolved? ==> jobs[i].phase.outcome.value == Clean(jobs, i)
    decreases i
  {
    assert JobOk(c, jobs[i]) && VerdictOk(jobs, i) && LinkOk(jobs, i);
    if jobs[i].active.Some? {
      assert jobs[i - 1].phase.Settled?;
      PromiseValue(c, jobs, i - 1);
    }
  }

  predicate AtLeast(es: Batch, n: nat) {
    forall i :: 0 <= i < |es| ==> n <= es[i].id
  }

  /** Flushes after number p, and the queue, hold only captures made from number `mark` on. */
  predicate Frontier(s: State, p: nat, mark: nat) {
    && p < |s.jobs| && mark <= s.attempts && AtLeast(s.queue, mark)
    && forall k {:trigger s.jobs[k]} :: p < k < |s.jobs| ==> AtLeast(s.jobs[k].pending, mark)
  }

  lemma FrontierHasJob(s: State, p: nat, mark: nat)
    requires Frontier(s, p, mark)
    ensures p < |s.jobs|
  {}

  lemma FlushKeepsFrontier(c: Config, s: State, p: nat, mark: nat)
    requires Frontier(s, p, mark)
    ensures Frontier(Flush(c, s), p, mark)
  {
    hide MakeBatches, Flatten;
  }

  lemma CaptureKeepsFrontier(c: Config, s: State, candidate: Candidate, timers: Timers, p: nat, mark: nat)
    requires Frontier(s, p, mark)
    ensures Frontier(Capture(c, s, candidate, timers), p, mark)
  {
    hide MakeBatches, Flush, Flatten, FitsAlone;
    if !s.stopped && candidate.Captured? && FitsAlone(c.limits, Event(s.attempts, candidate.size)) {
      var kept := s.(attempts := s.attempts + 1, sentAt := Budget.Window(s.sentAt, candidate.now));
      var (q, queued) := Enqueue(c, kept, Event(s.attempts, candidate.size));
      assert Frontier(q, p, mark);
      FlushKeepsFrontier(c, q.(sentAt := q.sentAt + [candidate.now]), p, mark);
    }
  }

  lemma SettleKeepsFrontier(c: Config, s: State, i: nat, timers: Timers, p: nat, mark: nat)
    requires Frontier(s, p, mark) && i < |s.jobs| && s.jobs[i].phase.Delivered?
    ensures Frontier(Settle(c, s, i, timers), p, mark)
  {
    hide AtLeast, Flush;
    var done := Put(s, i, s.jobs[i].(phase := Settled(s.jobs[i].phase.outcome)));
    assert Frontier(done, p, mark);
    FlushKeepsFrontier(c, done.(flushPromise := None), p, mark);
  }

  predicate IsRejected(j: Job) {
    Over(j) && j.phase.outcome.Rejected?
  }

  /** The batches closed by a delivery step belong to its flush, and are lost only if that is rejected. */
  predicate Closes(s: State, s': State, i: nat)
    requires i < |s'.jobs|
  {
    && s.closed <= s'.closed
    && forall k {:trigger s'.closed[k]} :: |s.closed| <= k < |s'.closed| ==>
         s'.closed[k].job == i && (s'.closed[k].fate == Lost ==> IsRejected(s'.jobs[i]))
  }

  /** A delivery step puts one job back with the same snapshot. */
  predicate Puts(s: State, s': State, i: nat) {
    && i < |s.jobs| && |s'.jobs| == |s.jobs| && s'.jobs == s.jobs[i := s'.jobs[i]]
    && s'.jobs[i].pending == s.jobs[i].pending && !Over(s.jobs[i])
    && s'.queue == s.queue && s'.attempts == s.attempts && Closes(s, s', i)
    && s'.lost - s.lost == s'.jobs[i].lost - s.jobs[i].lost && s'.leaked - s.leaked <= s'.lost - s.lost
  }

  lemma PutPuts(s: State, t: State, i: nat, j: Job)
    requires i < |s.jobs| && !Over(s.jobs[i]) && j.pending == s.jobs[i].pending
    requires t.jobs == s.jobs && t.queue == s.queue && t.attempts == s.attempts && Closes(s, Put(t, i, j), i)
    requires t.lost - s.lost == j.lost - s.jobs[i].lost && t.leaked - s.leaked <= t.lost - s.lost
    ensures Puts(s, Put(t, i, j), i)
  {}

  lemma DropPuts(c: Config, s: State, i: nat, b: Batch, attempts: nat, unsent: seq<Batch>)
    requires i < |s.jobs| && !Over(s.jobs[i])
    ensures Puts(s, DropBatch(s, i, b, attempts, unsent), i)
  {
    hide PriorAccepted;
    var t := WithClosing(CountDropped(s, |b|), Closing(i, b, attempts, Dropped));
    var j := s.jobs[i];
    PutPuts(s, t, i, Advanced(s.jobs, j.(ok := false, dropped := j.dropped + |b|), unsent, true));
  }

  lemma TransmitPuts(c: Config, s: State, i: nat, b: Batch, attempt: nat, unsent: seq<Batch>)
    requires i < |s.jobs| && !Over(s.jobs[i])
    ensures Puts(s, Transmit(c, s, i, b, attempt, unsent), i)
  {
    hide BodySize, DropBatch;
    DropPuts(c, s, i, b, attempt, unsent);
  }

  lemma RefusePuts(c: Config, s: State, i: nat, timers: Timers)
    requires i < |s.jobs| && s.jobs[i].phase.Sending?
    ensures Puts(s, TransportRefuses(c, s, i, timers), i)
  {
    hide DropBatch, Flatten;
    var Sending(b, attempt, unsent) := s.jobs[i].phase;
    DropPuts(c, s, i, b, attempt + 1, unsent);
  }

  lemma StepPuts(c: Config, s: State, step: Step)
    requires step.SnapshotStarts? || step.BatchStarts? || step.Accepts? || step.Refuses? || step.RetryStarts?
    ensures Apply(c, s, step) == s || Puts(s, Apply(c, s, step), step.i)
  {
    hide MakeBatches, Flatten, Transmit, PriorAccepted, TransportRefuses;
    match step
    case SnapshotStarts(i) =>
    case BatchStarts(i) =>
      if i < |s.jobs| && s.jobs[i].phase.Ready? && s.jobs[i].phase.unsent != [] {
        var Ready(unsent, _) := s.jobs[i].phase;
        TransmitPuts(c, s, i, unsent[0], 0, unsent[1..]);
        TransmitPuts(c, s.(reservedCount := s.reservedCount - |unsent[0]|), i, unsent[0], 0, unsent[1..]);
      }
    case Accepts(i) =>
    case Refuses(i, timers) =>
      if i < |s.jobs| && s.jobs[i].phase.Sending? {
        RefusePuts(c, s, i, timers);
      }
    case RetryStarts(i) =>
      if i < |s.jobs| && s.jobs[i].phase.BackingOff? {
        var BackingOff(b, attempt, unsent) := s.jobs[i].phase;
        TransmitPuts(c, s, i, b, attempt + 1, unsent);
      }
    case _ =>
  }

  lemma PutKeepsFrontier(s: State, s': State, i: nat, p: nat, mark: nat)
    requires Frontier(s, p, mark) && (s' == s || Puts(s, s', i))
    ensures Frontier(s', p, mark)
  {
    hide AtLeast;
  }

  lemma StepKeepsFrontier(c: Config, s: State, step: Step, p: nat, mark: nat)
    requires Frontier(s, p, mark)
    ensures Frontier(Apply(c, s, step), p, mark)
  {
    hide MakeBatches, Flush, Flatten, Frontier, Capture, BodySize, Settle, Puts, SendPending, StartBatch,
      TransportAccepts, TransportRefuses, RetryFires;
    match step
    case CaptureCall(candidate, timers) => CaptureKeepsFrontier(c, s, candidate, timers, p, mark);
    case FlushCall => FlushKeepsFrontier(c, s, p, mark);
    case TimerFires => FlushKeepsFrontier(c, s, p, mark);
    case Settles(i, timers) =>
      if i < |s.jobs| && s.jobs[i].phase.Delivered? {
        SettleKeepsFrontier(c, s, i, timers, p, mark);
      }
    case DestroyCall =>
      FrontierIgnoresStop(s, p, mark);
      FlushKeepsFrontier(c, s.(stopped := true, timer := false), p, mark);
    case _ =>
      StepPuts(c, s, step);
      PutKeepsFrontier(s, Apply(c, s, step), step.i, p, mark);
  }

  lemma FrontierIgnoresStop(s: State, p: nat, mark: nat)
    requires Frontier(s, p, mark)
    ensures Frontier(s.(stopped := true, timer := false), p, mark)
  {}

  lemma {:induction false} RunKeepsFrontier(c: Config, s: State, steps: seq<Step>, p: nat, mark: nat)
    requires Frontier(s, p, mark)
    ensures Frontier(Run(c, s, steps), p, mark)
    decreases |steps|
  {
    hide Frontier, Apply;
    if steps == [] {
    } else {
      RunKeepsFrontier(c, s, steps[..|steps| - 1], p, mark);
      StepKeepsFrontier(c, Run(c, s, steps[..|steps| - 1]), steps[|steps| - 1], p, mark);
    }
  }

  lemma {:induction false} AllAtLeast(c: Config, part: Part, jobs: seq<Job>, p: nat, mark: nat)
    requires forall k {:trigger jobs[k]} :: 0 <= k < |jobs| ==> JobOk(c, jobs[k])
    requires forall k {:trigger jobs[k]} :: 0 <= k < |jobs| ==>
               if k <= p then jobs[k].phase.Settled? else AtLeast(jobs[k].pending, mark)
    ensures AtLeast(All(part, jobs), mark)
    decreases |jobs|
  {
    hide AllAlone, Sound, Fits;
    if jobs == [] {
    } else {
      AllAtLeast(c, part, jobs[..|jobs| - 1], p, mark);
      var j := jobs[|jobs| - 1];
      if !j.phase.Settled? {
        PartAtLeast(c, part, j, mark);
      }
    }
  }

  lemma PartAtLeast(c: Config, part: Part, j: Job, mark: nat)
    requires JobOk(c, j) && AtLeast(j.pending, mark)
    ensures AtLeast(PartOf(part, j), mark)
  {
    hide AllAlone, Fits, AllFit, Sound, Flatten;
    var live, base := LiveOf(j), |j.pending| - |LiveOf(j)|;
    assert forall i :: 0 <= i < |live| ==> live[i] == j.pending[base + i];
    assert AtLeast(live, mark);
    assert forall i :: 0 <= i < |InFlightOf(j)| ==> InFlightOf(j)[i] == live[i];
    assert forall i :: 0 <= i < |BacklogOf(j)| ==> BacklogOf(j)[i] == live[|InFlightOf(j)| + i];
    if j.phase.Ready? {
      FlattenFirst(j.phase.unsent);
      assert forall i :: 0 <= i < |Flatten(j.phase.unsent[1..])| ==>
        Flatten(j.phase.unsent[1..])[i] == BacklogOf(j)[|j.phase.unsent[0]| + i];
    }
  }

  /** Lost batches belong to rejected flushes. */
  predicate FatesOk(s: State) {
    forall k {:trigger s.closed[k]} :: 0 <= k < |s.closed| && s.closed[k].fate == Lost ==> RejectedAt(s, k)
  }

  lemma InitialFates()
    ensures FatesOk(INITIAL)
  {}

  lemma PutKeepsFates(s: State, s': State, i: nat)
    requires FatesOk(s) && Puts(s, s', i)
    ensures FatesOk(s')
  {
    forall k {:trigger s'.closed[k]} | 0 <= k < |s'.closed| && s'.closed[k].fate == Lost ensures RejectedAt(s', k) {
      if k < |s.closed| {
        assert s'.closed[k] == s.closed[k];
        assert RejectedAt(s, k);
      }
    }
  }

  lemma FlushKeepsFates(c: Config, s: State)
    requires FatesOk(s)
    ensures FatesOk(Flush(c, s))
  {
    hide MakeBatches, Flatten, Advanced;
    FlushKeepsRejected(c, s);
    forall k {:trigger s.closed[k]} | 0 <= k < |s.closed| && s.closed[k].fate == Lost
      ensures RejectedAt(Flush(c, s), k) {
      assert RejectedAt(s, k);
    }
  }

  lemma FlushKeepsRejected(c: Config, s: State)
    ensures s.jobs <= Flush(c, s).jobs && Flush(c, s).closed == s.closed
  {
    hide MakeBatches, Flatten, Advanced;
  }

  lemma CaptureKeepsFates(c: Config, s: State, candidate: Candidate, timers: Timers)
    requires FatesOk(s)
    ensures FatesOk(Capture(c, s, candidate, timers))
  {
    hide Flush, FitsAlone, Budget.Window;
    if !s.stopped && candidate.Captured? && FitsAlone(c.limits, Event(s.attempts, candidate.size)) {
      var kept := s.(attempts := s.attempts + 1, sentAt := Budget.Window(s.sentAt, candidate.now));
      var (q, queued) := Enqueue(c, kept, Event(s.attempts, candidate.size));
      FlushKeepsFates(c, q.(sentAt := q.sentAt + [candidate.now]));
    }
  }

  lemma SettleKeepsFates(c: Config, s: State, i: nat, timers: Timers)
    requires FatesOk(s) && i < |s.jobs| && s.jobs[i].phase.Delivered?
    ensures FatesOk(Settle(c, s, i, timers))
  {
    hide Flush;
    var done := Put(s, i, s.jobs[i].(phase := Settled(s.jobs[i].phase.outcome)));
    forall k {:trigger s.closed[k]} | 0 <= k < |s.closed| && s.closed[k].fate == Lost ensures RejectedAt(done, k) {
      assert RejectedAt(s, k);
    }
    FlushKeepsFates(c, done.(flushPromise := None));
  }

  lemma StepKeepsFates(c: Config, s: State, step: Step)
    requires FatesOk(s)
    ensures FatesOk(Apply(c, s, step))
  {
    hide Flush, Capture, Settle, SendPending, StartBatch, TransportAccepts, TransportRefuses, RetryFires, Puts;
    match step
    case CaptureCall(candidate, timers) => CaptureKeepsFates(c, s, candidate, timers);
    case FlushCall => FlushKeepsFates(c, s);
    case TimerFires => FlushKeepsFates(c, s);
    case Settles(i, timers) =>
      if i < |s.jobs| && s.jobs[i].phase.Delivered? {
        SettleKeepsFates(c, s, i, timers);
      }
    case DestroyCall => FlushKeepsFates(c, s.(stopped := true, timer := false));
    case _ =>
      StepPuts(c, s, step);
      if Apply(c, s, step) != s {
        PutKeepsFates(s, Apply(c, s, step), step.i);
      }
  }

  lemma {:induction false} RunKeepsFates(c: Config, s: State, steps: seq<Step>)
    requires FatesOk(s)
    ensures FatesOk(Run(c, s, steps))
    decreases |steps|
  {
    hide Apply, FatesOk;
    if steps == [] {
    } else {
      RunKeepsFates(c, s, steps[..|steps| - 1]);
      StepKeepsFates(c, Run(c, s, steps[..|steps| - 1]), steps[|steps| - 1]);
    }
  }

  /** The event was in a batch that is closed: accepted, given up, or lost with a flush that was rejected. */
  ghost predicate Accounted(s: State, e: Event) {
    exists k :: 0 <= k < |s.closed| && e in s.closed[k].batch && (s.closed[k].fate == Lost ==> RejectedAt(s, k))
  }

  /** The flush that the closed batch belonged to was rejected. */
  predicate RejectedAt(s: State, k: nat)
    requires k < |s.closed|
  {
    s.closed[k].job < |s.jobs| && IsRejected(s.jobs[s.closed[k].job])
  }

  /** Whatever is held: in flight, waiting for its turn, or queued. */
  function Held(s: State): Batch {
    All(Flying, s.jobs) + All(Queued, s.jobs) + s.queue
  }

  /**
   Let a flush be called in any reachable state and its promise settle later. Then every event that the client
   held at the call was accepted by the transport, given up, or lost with a rejected flush; `sent`, `dropped` and
   `lost` count these (CapturesAreConserved). None of them is held any more: what is held was captured after the
   call. A promise that resolves says whether nothing was dropped since the client was last idle. An immediate
   `true` means that nothing was held.
   */
  lemma FlushPromiseMeansDelivered(c: Config, before: seq<Step>, after: seq<Step>)
    requires ValidConfig(c)
    ensures var s := Run(c, INITIAL, before);
            var promise := PromiseOf(Flush(c, s));
            var later := Run(c, Flush(c, s), after);
            && Below(Held(s), s.attempts)
            && (promise.Already? ==> promise.value && Held(s) == [])
            && (promise.Tracked? ==>
                  && promise.job < |later.jobs|
                  && (later.jobs[promise.job].phase.Settled? ==>
                        && (forall e {:trigger Accounted(later, e)} :: e in Held(s) ==> Accounted(later, e))
                        && AtLeast(Held(later), s.attempts)
                        && var outcome := later.jobs[promise.job].phase.outcome;
                           outcome.Resolved? ==> outcome.value == Clean(later.jobs, promise.job)))
  {
    hide Inv, Run, Flush, Held, Below, AtLeast, Frontier, Clean, Moving, FatesOk, Accounted;
    var s := Run(c, INITIAL, before);
    InitialInv(c);
    RunKeepsInv(c, INITIAL, before);
    InitialFates();
    RunKeepsFates(c, INITIAL, before);
    HeldIsBelow(c, s);
    FlushKeepsInv(c, s);
    FlushKeepsFates(c, s);
    var flushed := Flush(c, s);
    if flushed.flushPromise == None {
      NothingHeld(c, s);
    } else {
      var p := flushed.flushPromise.value;
      FlushSetsFrontier(c, s);
      RunKeepsFrontier(c, flushed, after, p, s.attempts);
      RunKeepsInv(c, flushed, after);
      RunKeepsFates(c, flushed, after);
      var later := Run(c, flushed, after);
      FrontierHasJob(later, p, s.attempts);
      if later.jobs[p].phase.Settled? {
        SettledIsDrained(c, later, p, s.attempts);
        FlushTakesHeld(c, s);
        forall e {:trigger Accounted(later, e)} | e in Held(s) ensures Accounted(later, e) {
          TakenIsAccounted(s.attempts, Held(s), flushed, later, e);
        }
      }
    }
  }

  /** A flush takes everything held. */
  lemma FlushTakesHeld(c: Config, s: State)
    requires ValidConfig(c) && Inv(c, s)
    ensures forall e :: e in Held(s) ==> e in Moving(Flush(c, s))
  {
    hide Inv, Flush, All, Done;
    FlushKeepsInv(c, s);
    FlushEmptiesQueue(c, s);
    assert Trail(s) == Done(s.closed) + Held(s);
    assert Trail(Flush(c, s)) == Moving(Flush(c, s));
  }

  /** What a flush has taken and no job holds any more is in a closed batch. */
  lemma TakenIsAccounted(mark: nat, held: Batch, s: State, later: State, e: Event)
    requires e in held && Below(held, mark) && (forall x :: x in held ==> x in Moving(s))
    requires Moving(s) <= Moving(later) && AtLeast(Held(later), mark) && FatesOk(later)
    ensures Accounted(later, e)
  {
    hide Done, All;
    var moving := Moving(later);
    var i :| 0 <= i < |Moving(s)| && Moving(s)[i] == e;
    assert moving[i] == e;
    var done, rest := Done(later.closed), All(Flying, later.jobs) + All(Queued, later.jobs);
    assert moving == done + rest;
    assert Held(later) == rest + later.queue;
    assert forall n :: |done| <= n < |moving| ==> moving[n] == Held(later)[n - |done|];
    var m :| 0 <= m < |held| && held[m] == e;
    assert i < |done| && done[i] == e;
    var k := InClosed(later.closed, e);
  }

  lemma {:induction false} InClosed(closed: seq<Closing>, e: Event) returns (k: nat)
    requires e in Done(closed)
    ensures k < |closed| && e in closed[k].batch
    decreases |closed|
  {
    var front := closed[..|closed| - 1];
    if e in Done(front) {
      k := InClosed(front, e);
    } else {
      k := |closed| - 1;
    }
  }

  lemma HeldIsBelow(c: Config, s: State)
    requires Inv(c, s)
    ensures Below(Held(s), s.attempts)
  {
    hide All, Done, JobsOk, InTurn, QueueOk, Balanced, HistoryOk, BudgetOk, Increasing;
    var d := Done(s.closed);
    var trail := Trail(s);
    assert trail == d + Held(s);
    assert forall i :: 0 <= i < |Held(s)| ==> Held(s)[i] == trail[|d| + i];
  }

  lemma NothingHeld(c: Config, s: State)
    requires Inv(c, s) && Flush(c, s).flushPromise == None
    ensures s.flushPromise == None && Held(s) == []
  {
    hide All, JobsOk, QueueOk, Balanced, OrderOk, HistoryOk, BudgetOk, MakeBatches;
    IdleIsSettled(s.jobs);
    AllSettled(s.jobs);
  }

  lemma FlushSetsFrontier(c: Config, s: State)
    requires Inv(c, s) && Flush(c, s).flushPromise != None
    ensures Frontier(Flush(c, s), Flush(c, s).flushPromise.value, s.attempts)
  {
    hide JobsOk, QueueOk, Balanced, OrderOk, HistoryOk, BudgetOk, MakeBatches, InTurn;
  }

  lemma SettledIsDrained(c: Config, s: State, p: nat, mark: nat)
    requires Inv(c, s) && Frontier(s, p, mark) && s.jobs[p].phase.Settled?
    ensures AtLeast(Held(s), mark)
    ensures s.jobs[p].phase.outcome.Resolved? ==> s.jobs[p].phase.outcome.value == Clean(s.jobs, p)
  {
    hide AtLeast, All, JobOk, VerdictOk, LinkOk, QueueOk, Balanced, OrderOk, HistoryOk, BudgetOk;
    forall k {:trigger s.jobs[k]} | 0 <= k < |s.jobs| ensures JobOk(c, s.jobs[k]) {}
    AllAtLeast(c, Flying, s.jobs, p, mark);
    AllAtLeast(c, Queued, s.jobs, p, mark);
    PromiseValue(c, s.jobs, p);
    AtLeastParts(All(Flying, s.jobs), All(Queued, s.jobs), mark);
    AtLeastParts(All(Flying, s.jobs) + All(Queued, s.jobs), s.queue, mark);
  }

  lemma AtLeastParts(a: Batch, b: Batch, n: nat)
    requires AtLeast(a, n) && AtLeast(b, n)
    ensures AtLeast(a + b, n)
  {}

  // ---------------------------------------------------------------- the hard stop

  predicate Stopped(s: State) {
    s.stopped && !s.timer && s.queue == []
  }

  /** After the stop nothing is counted as attempted, and settled counts only grow. */
  predicate Quiet(s: State, s': State) {
    && Stopped(s') && s'.attempts == s.attempts && NotQueued(s'.stats) == NotQueued(s.stats)
    && s'.stats.sent >= s.stats.sent && s'.stats.dropped >= s.stats.dropped && s'.lost >= s.lost
  }

  lemma StoppedStepIsQuiet(c: Config, s: State, step: Step)
    requires Stopped(s)
    ensures Quiet(s, Apply(c, s, step))
  {
    hide MakeBatches, Flatten, BodySize;
  }

  lemma {:induction false} StoppedRunIsQuiet(c: Config, s: State, steps: seq<Step>)
    requires Stopped(s)
    ensures Quiet(s, Run(c, s, steps))
    decreases |steps|
  {
    hide Apply;
    if steps == [] {
    } else {
      StoppedRunIsQuiet(c, s, steps[..|steps| - 1]);
      StoppedStepIsQuiet(c, Run(c, s, steps[..|steps| - 1]), steps[|steps| - 1]);
    }
  }

  /** From destroy() on, whatever the page and the network do, no timer is armed and the live count never rises. */
  lemma DestroyIsFinal(c: Config, before: seq<Step>, after: seq<Step>, more: seq<Step>)
    requires ValidConfig(c)
    ensures var s := Destroy(c, Run(c, INITIAL, before));
            var mid := Run(c, s, after);
            var end := Run(c, mid, more);
            Stopped(mid) && Live(end) <= Live(mid) <= Live(s)
  {
    hide Run, Destroy, Live, Inv, Quiet;
    var s0 := Run(c, INITIAL, before);
    InitialInv(c);
    RunKeepsInv(c, INITIAL, before);
    DestroyKeepsInv(c, s0);
    var s := Destroy(c, s0);
    DestroyStops(c, s0);
    StoppedRunIsQuiet(c, s, after);
    RunKeepsInv(c, s, after);
    var mid := Run(c, s, after);
    QuietNeverRises(c, s, mid);
    StoppedRunIsQuiet(c, mid, more);
    RunKeepsInv(c, mid, more);
    QuietNeverRises(c, mid, Run(c, mid, more));
  }

  lemma QuietNeverRises(c: Config, s: State, s': State)
    requires Inv(c, s) && Inv(c, s') && Quiet(s, s')
    ensures Live(s') <= Live(s) && Stopped(s')
  {
    hide Live, JobsOk, InTurn, QueueOk, OrderOk, HistoryOk, BudgetOk, LastUnsettled;
  }

  lemma DestroyStops(c: Config, s: State)
    ensures Stopped(Destroy(c, s))
  {
    hide MakeBatches;
  }
}
