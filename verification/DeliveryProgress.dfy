/**
 Flush promises can settle, and do after a bounded number of steps, as long as the host goes on: as long as it runs
 the callbacks that are due, and the transport and the back-off timers come back.
 */
module DeliveryProgress {
  import opened Options
  import opened Batching
  import opened Delivery
  import opened DeliveryInvariant
  import opened DeliveryTheorems

  /** A step that takes a delivery on: the host runs a callback that is due, or the transport answers. */
  predicate Delivers(s: State, step: Step) {
    match step
    case SnapshotStarts(i) => i < |s.jobs| && Released(s.jobs, s.jobs[i])
    case BatchStarts(i) => i < |s.jobs| && s.jobs[i].phase.Ready? && s.jobs[i].phase.unsent != []
    case Accepts(i) => i < |s.jobs| && s.jobs[i].phase.Sending?
    case Refuses(i, _) => i < |s.jobs| && s.jobs[i].phase.Sending?
    case RetryStarts(i) => i < |s.jobs| && s.jobs[i].phase.BackingOff?
    case Settles(i, _) => i < |s.jobs| && s.jobs[i].phase.Delivered?
    case _ => false
  }

  predicate Finished(jobs: seq<Job>) {
    forall i :: 0 <= i < |jobs| ==> jobs[i].phase.Settled?
  }

  // ---------------------------------------------------------------- no flush is stuck

  lemma FirstTurn(c: Config, s: State) returns (i: nat)
    requires Inv(c, s) && !Finished(s.jobs)
    ensures Turn(s.jobs, i) && CanGoOn(s.jobs, s.jobs[i])
  {
    hide QueueOk, Balanced, OrderOk, HistoryOk, BudgetOk, JobOk, VerdictOk, LinkOk;
    var u :| 0 <= u < |s.jobs| && !s.jobs[u].phase.Settled?;
    if LastUnsettled(s.jobs) == None {
      IdleIsSettled(s.jobs);
    }
    i := FirstUnsettled(s.jobs);
    TurnGoesOn(c, s.jobs, i);
  }

  predicate CanGoOn(jobs: seq<Job>, j: Job) {
    (j.phase.Ready? ==> j.phase.unsent != []) && (j.phase.Waiting? ==> Released(jobs, j))
  }

  lemma TurnGoesOn(c: Config, jobs: seq<Job>, i: nat)
    requires Turn(jobs, i) && JobOk(c, jobs[i]) && LinkOk(jobs, i)
    ensures CanGoOn(jobs, jobs[i])
  {
    hide AllAlone, IsTail, Sound, Fits;
  }

  /** The first flush that has not settled can take its next step. */
  lemma NextStep(c: Config, s: State) returns (step: Step)
    requires Inv(c, s) && !Finished(s.jobs)
    ensures Delivers(s, step) && !step.CaptureCall?
  {
    hide Inv, Finished;
    var i := FirstTurn(c, s);
    match s.jobs[i].phase
    case Waiting => step := SnapshotStarts(i);
    case Ready(_, _) => step := BatchStarts(i);
    case Sending(_, _, _) => step := Accepts(i);
    case BackingOff(_, _, _) => step := RetryStarts(i);
    case Delivered(_) => step := Settles(i, Absent);
  }

  // ---------------------------------------------------------------- what is left to do

  /** Steps for a number of batches: each starts, and goes to the transport and comes back once for each attempt. */
  function Cost(c: Config, batches: nat): nat {
    batches * (2 * c.maxRetries + 2)
  }

  function RetriesLeft(c: Config, attempt: nat): nat {
    if attempt < c.maxRetries then c.maxRetries - attempt else 0
  }

  /** The steps that a flush may still take. */
  function Weight(c: Config, j: Job): nat {
    match j.phase
    case Waiting => Cost(c, |j.pending|) + 2
    case Ready(unsent, _) => Cost(c, |unsent|) + 1
    case Sending(_, attempt, unsent) => 2 * RetriesLeft(c, attempt) + Cost(c, |unsent|) + 2
    case BackingOff(_, attempt, unsent) => 2 * RetriesLeft(c, attempt) + Cost(c, |unsent|) + 1
    case Delivered(_) => 1
    case Settled(_) => 0
  }

  function Work(c: Config, jobs: seq<Job>): nat {
    if jobs == [] then 0 else Work(c, jobs[..|jobs| - 1]) + Weight(c, jobs[|jobs| - 1])
  }

  /** The steps that the client may still take without further captures. */
  function Effort(c: Config, s: State): nat {
    Work(c, s.jobs) + if s.queue == [] then 0 else Cost(c, |s.queue|) + 3
  }

  lemma CostGrows(c: Config, few: nat, many: nat)
    requires few <= many
    ensures Cost(c, few) <= Cost(c, many)
    ensures Cost(c, few + 1) == Cost(c, few) + 2 * c.maxRetries + 2
  {}

  lemma {:induction false} WorkConcat(c: Config, a: seq<Job>, b: seq<Job>)
    ensures Work(c, a + b) == Work(c, a) + Work(c, b)
    decreases |b|
  {
    if b == [] {
      assert a + b == a;
    } else {
      assert (a + b)[..|a + b| - 1] == a + b[..|b| - 1];
      WorkConcat(c, a, b[..|b| - 1]);
    }
  }

  lemma WorkOne(c: Config, j: Job)
    ensures Work(c, [j]) == Weight(c, j)
  {
    assert [j][..0] == [];
  }

  lemma WorkPut(c: Config, jobs: seq<Job>, i: nat, j: Job)
    requires i < |jobs|
    ensures Work(c, jobs[i := j]) == Work(c, jobs) - Weight(c, jobs[i]) + Weight(c, j)
  {
    hide Work, Weight;
    assert jobs == jobs[..i] + [jobs[i]] + jobs[i + 1..];
    assert jobs[i := j] == jobs[..i] + [j] + jobs[i + 1..];
    WorkConcat(c, jobs[..i] + [jobs[i]], jobs[i + 1..]);
    WorkConcat(c, jobs[..i] + [j], jobs[i + 1..]);
    WorkConcat(c, jobs[..i], [jobs[i]]);
    WorkConcat(c, jobs[..i], [j]);
    WorkOne(c, jobs[i]);
    WorkOne(c, j);
  }

  lemma {:induction false} SendableShrinks(l: Limits, pending: Batch)
    ensures |Sendable(l, pending)| <= |pending|
    decreases |pending|
  {
    if pending == [] {
    } else {
      SendableShrinks(l, pending[..|pending| - 1]);
    }
  }

  lemma {:induction false} FewBatches(bs: seq<Batch>)
    requires AllNonEmpty(bs)
    ensures |bs| <= |Flatten(bs)|
    decreases |bs|
  {
    if bs == [] {
    } else {
      assert bs[|bs| - 1] != [];
      FewBatches(bs[..|bs| - 1]);
    }
  }

  /** A snapshot makes no more batches than it has events. */
  lemma SnapshotWeight(c: Config, s: State, i: nat)
    requires ValidConfig(c) && i < |s.jobs|
    ensures Weight(c, SendPending(c, s, i).jobs[i]) <= Cost(c, |s.jobs[i].pending|) + 1
    ensures SendPending(c, s, i).jobs == s.jobs[i := SendPending(c, s, i).jobs[i]]
    ensures SendPending(c, s, i).queue == s.queue
  {
    hide MakeBatches, Flatten, PriorAccepted, Cost;
    var pending := s.jobs[i].pending;
    var batches := MakeBatches(c.limits, pending).batches;
    BatchesAreSound(c.limits, pending);
    SendableShrinks(c.limits, pending);
    FewBatches(batches);
    CostGrows(c, |batches|, |pending|);
  }

  lemma FlushEffort(c: Config, s: State)
    requires ValidConfig(c)
    ensures Effort(c, Flush(c, s)) <= Effort(c, s)
  {
    hide SendPending, Cost, Work, PriorAccepted;
    if s.queue != [] {
      var i := |s.jobs|;
      var j := Job(s.flushPromise, s.queue, Waiting, true, 0, 0, 0);
      WorkConcat(c, s.jobs, [j]);
      WorkOne(c, j);
      if s.flushPromise == None {
        var taken := s.(timer := false, queue := [], jobs := s.jobs + [j], flushPromise := Some(i));
        SnapshotWeight(c, taken, i);
        WorkPut(c, taken.jobs, i, SendPending(c, taken, i).jobs[i]);
      }
    }
  }

  /** A step that puts one lighter job back. */
  lemma PutEffort(c: Config, s: State, s': State, i: nat)
    requires i < |s.jobs| && |s'.jobs| == |s.jobs| && s'.jobs == s.jobs[i := s'.jobs[i]] && s'.queue == s.queue
    requires Weight(c, s'.jobs[i]) < Weight(c, s.jobs[i])
    ensures Effort(c, s') < Effort(c, s)
  {
    hide Weight, Work, Cost;
    WorkPut(c, s.jobs, i, s'.jobs[i]);
  }

  lemma TransmitWeight(c: Config, s: State, i: nat, b: Batch, attempt: nat, unsent: seq<Batch>)
    requires i < |s.jobs|
    ensures Weight(c, Transmit(c, s, i, b, attempt, unsent).jobs[i])
         <= 2 * RetriesLeft(c, attempt) + Cost(c, |unsent|) + 2
  {
    hide Cost, BodySize, PriorAccepted;
    CostGrows(c, 0, |unsent|);
  }

  lemma RefusedWeight(c: Config, s: State, i: nat, timers: Timers)
    requires i < |s.jobs| && s.jobs[i].phase.Sending?
    ensures Weight(c, TransportRefuses(c, s, i, timers).jobs[i]) < Weight(c, s.jobs[i])
  {
    hide Cost, Flatten, PriorAccepted;
  }

  lemma AcceptedWeight(c: Config, s: State, i: nat)
    requires i < |s.jobs| && s.jobs[i].phase.Sending?
    ensures Weight(c, TransportAccepts(s, i).jobs[i]) < Weight(c, s.jobs[i])
  {
    hide Cost, PriorAccepted;
  }

  lemma StartedWeight(c: Config, s: State, i: nat)
    requires i < |s.jobs| && s.jobs[i].phase.Ready? && s.jobs[i].phase.unsent != []
    ensures Weight(c, StartBatch(c, s, i).jobs[i]) < Weight(c, s.jobs[i])
  {
    hide Cost, Transmit;
    var Ready(unsent, started) := s.jobs[i].phase;
    CostGrows(c, |unsent[1..]|, |unsent[1..]|);
    TransmitWeight(c, s, i, unsent[0], 0, unsent[1..]);
    TransmitWeight(c, s.(reservedCount := s.reservedCount - |unsent[0]|), i, unsent[0], 0, unsent[1..]);
  }

  lemma RetriedWeight(c: Config, s: State, i: nat)
    requires i < |s.jobs| && s.jobs[i].phase.BackingOff? && s.jobs[i].phase.attempt < c.maxRetries
    ensures Weight(c, RetryFires(c, s, i).jobs[i]) < Weight(c, s.jobs[i])
  {
    hide Cost, Transmit;
    var BackingOff(b, attempt, unsent) := s.jobs[i].phase;
    TransmitWeight(c, s, i, b, attempt + 1, unsent);
  }

  lemma SettleEffort(c: Config, s: State, i: nat, timers: Timers)
    requires ValidConfig(c) && i < |s.jobs| && s.jobs[i].phase.Delivered?
    ensures Effort(c, Settle(c, s, i, timers)) < Effort(c, s)
  {
    hide Flush, Work, Cost;
    var done := Put(s, i, s.jobs[i].(phase := Settled(s.jobs[i].phase.outcome)));
    PutEffort(c, s, done, i);
    FlushEffort(c, done.(flushPromise := None));
  }

  /** Every delivery step leaves less to do, and nothing but a capture adds to it. */
  lemma StepEffort(c: Config, s: State, step: Step)
    requires ValidConfig(c) && Inv(c, s) && !step.CaptureCall?
    ensures Effort(c, Apply(c, s, step)) + (if Delivers(s, step) then 1 else 0) <= Effort(c, s)
  {
    hide Inv, Flush, Settle, SendPending, StartBatch, TransportAccepts, TransportRefuses, RetryFires, Effort,
        Weight, Puts;
    match step
    case FlushCall => FlushEffort(c, s);
    case TimerFires => FlushEffort(c, s);
    case DestroyCall =>
      FlushEffort(c, s.(stopped := true, timer := false));
      StopKeepsEffort(c, s);
    case Settles(i, timers) =>
      if Delivers(s, step) {
        SettleEffort(c, s, i, timers);
      }
    case _ =>
      if Delivers(s, step) {
        StepPuts(c, s, step);
        DeliveryEffort(c, s, step);
      }
  }

  lemma StopKeepsEffort(c: Config, s: State)
    ensures Effort(c, s.(stopped := true, timer := false)) == Effort(c, s)
  {}

  lemma DeliveryEffort(c: Config, s: State, step: Step)
    requires ValidConfig(c) && Inv(c, s) && Delivers(s, step) && !step.Settles?
    ensures Effort(c, Apply(c, s, step)) < Effort(c, s)
  {
    hide QueueOk, Balanced, OrderOk, HistoryOk, BudgetOk, InTurn, Effort, Weight, Flatten, Cost;
    hide SendPending, StartBatch, TransportAccepts, TransportRefuses, RetryFires;
    var i := step.i;
    assert JobOk(c, s.jobs[i]);
    StepPuts(c, s, step);
    match step {
      case SnapshotStarts(_) =>
        SnapshotWeight(c, s, i);
        WaitingWeight(c, s.jobs[i]);
      case BatchStarts(_) => StartedWeight(c, s, i);
      case Accepts(_) => AcceptedWeight(c, s, i);
      case Refuses(_, timers) => RefusedWeight(c, s, i, timers);
      case RetryStarts(_) => RetriedWeight(c, s, i);
    }
    PutEffort(c, s, Apply(c, s, step), i);
  }

  lemma WaitingWeight(c: Config, j: Job)
    requires j.phase.Waiting?
    ensures Weight(c, j) == Cost(c, |j.pending|) + 2
  {}

  // ---------------------------------------------------------------- every run

  function Deliveries(c: Config, s: State, steps: seq<Step>): nat {
    if steps == [] then 0
    else
      var front := steps[..|steps| - 1];
      Deliveries(c, s, front) + if Delivers(Run(c, s, front), steps[|steps| - 1]) then 1 else 0
  }

  predicate NoCapture(steps: seq<Step>) {
    forall i :: 0 <= i < |steps| ==> !steps[i].CaptureCall?
  }

  lemma {:induction false} RunEffort(c: Config, s: State, steps: seq<Step>)
    requires ValidConfig(c) && Inv(c, s) && NoCapture(steps)
    ensures Deliveries(c, s, steps) + Effort(c, Run(c, s, steps)) <= Effort(c, s)
    decreases |steps|
  {
    hide Inv, Apply, Effort, Delivers;
    if steps == [] {
    } else {
      var front := steps[..|steps| - 1];
      RunEffort(c, s, front);
      RunKeepsInv(c, s, front);
      StepEffort(c, Run(c, s, front), steps[|steps| - 1]);
    }
  }

  /** Finishes the deliveries one step after the other. */
  lemma {:induction false} Finish(c: Config, s: State) returns (steps: seq<Step>)
    requires ValidConfig(c) && Inv(c, s)
    ensures NoCapture(steps) && Finished(Run(c, s, steps).jobs)
    decreases Effort(c, s)
  {
    hide Inv, Apply, Effort, Delivers, Finished;
    if Finished(s.jobs) {
      steps := [];
    } else {
      var step := NextStep(c, s);
      StepEffort(c, s, step);
      StepKeepsInv(c, s, step);
      var rest := Finish(c, Apply(c, s, step));
      steps := [step] + rest;
      RunAfter(c, s, step, rest);
    }
  }

  lemma {:induction false} RunAfter(c: Config, s: State, step: Step, rest: seq<Step>)
    ensures Run(c, s, [step] + rest) == Run(c, Apply(c, s, step), rest)
    decreases |rest|
  {
    hide Apply;
    if rest == [] {
      assert [step] + rest == [step] && [step][..0] == [];
    } else {
      assert ([step] + rest)[..|rest|] == [step] + rest[..|rest| - 1];
      RunAfter(c, s, step, rest[..|rest| - 1]);
    }
  }

  /**
   After any run, calls of flush and destroy and timers do not keep deliveries going: without further captures there
   are at most `Effort` delivery steps, in any order; as long as a flush promise has not settled there is another one;
   and so there is a way for all of them to settle.
   */
  lemma EveryFlushCanSettle(c: Config, before: seq<Step>, after: seq<Step>)
    requires ValidConfig(c) && NoCapture(after)
    ensures var s := Run(c, INITIAL, before);
            var later := Run(c, s, after);
            && Deliveries(c, s, after) <= Effort(c, s)
            && (!Finished(later.jobs) ==> exists step :: Delivers(later, step))
            && (exists more :: NoCapture(more) && Finished(Run(c, later, more).jobs))
  {
    hide Inv, Effort, Delivers, Finished, NoCapture, Run;
    var s := Run(c, INITIAL, before);
    InitialInv(c);
    RunKeepsInv(c, INITIAL, before);
    RunEffort(c, s, after);
    var later := Run(c, s, after);
    RunKeepsInv(c, s, after);
    if !Finished(later.jobs) {
      var step := NextStep(c, later);
    }
    var more := Finish(c, later);
  }
}
