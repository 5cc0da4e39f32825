/** When the delivery machine loses events, and when it never gives a reservation back. */
module DeliveryLosses {
  import opened Options
  import opened Batching
  import Budget
  import opened Delivery
  import opened DeliveryInvariant
  import opened DeliveryTheorems

  // ---------------------------------------------------------------- which flushes lose events

  function LostIn(jobs: seq<Job>): nat {
    if jobs == [] then 0 else LostIn(jobs[..|jobs| - 1]) + jobs[|jobs| - 1].lost
  }

  lemma {:induction false} LostPut(jobs: seq<Job>, i: nat, j: Job)
    requires i < |jobs|
    ensures LostIn(jobs[i := j]) == LostIn(jobs) - jobs[i].lost + j.lost
    decreases |jobs|
  {
    var front := jobs[..|jobs| - 1];
    if i < |front| {
      LostPut(front, i, j);
      assert jobs[i := j][..|jobs| - 1] == front[i := j];
    } else {
      assert jobs[i := j][..|jobs| - 1] == front;
    }
  }

  lemma {:induction false} LostNone(jobs: seq<Job>)
    ensures LostIn(jobs) == 0 <==> forall i :: 0 <= i < |jobs| ==> jobs[i].lost == 0
    decreases |jobs|
  {
    if jobs == [] {
    } else {
      LostNone(jobs[..|jobs| - 1]);
    }
  }

  predicate LostOk(s: State) {
    s.lost == LostIn(s.jobs) && s.leaked <= s.lost
  }

  lemma FlushKeepsLost(c: Config, s: State)
    requires LostOk(s)
    ensures LostOk(Flush(c, s))
  {
    hide MakeBatches, Flatten;
    if s.queue != [] {
      var j := Job(s.flushPromise, s.queue, Waiting, true, 0, 0, 0);
      var taken := s.jobs + [j];
      assert taken[..|s.jobs|] == s.jobs;
      LostPut(taken, |s.jobs|, Flush(c, s).jobs[|s.jobs|]);
    }
  }

  lemma CaptureKeepsLost(c: Config, s: State, candidate: Candidate, timers: Timers)
    requires LostOk(s)
    ensures LostOk(Capture(c, s, candidate, timers))
  {
    hide Flush, LostIn, FitsAlone, Budget.Window;
    if !s.stopped && candidate.Captured? && FitsAlone(c.limits, Event(s.attempts, candidate.size)) {
      var kept := s.(attempts := s.attempts + 1, sentAt := Budget.Window(s.sentAt, candidate.now));
      var (q, queued) := Enqueue(c, kept, Event(s.attempts, candidate.size));
      FlushKeepsLost(c, q.(sentAt := q.sentAt + [candidate.now]));
    }
  }

  lemma SettleKeepsLost(c: Config, s: State, i: nat, timers: Timers)
    requires LostOk(s) && i < |s.jobs| && s.jobs[i].phase.Delivered?
    ensures LostOk(Settle(c, s, i, timers))
  {
    hide Flush, LostIn;
    var done := Put(s, i, s.jobs[i].(phase := Settled(s.jobs[i].phase.outcome)));
    PutKeepsLost(s, i, done);
    FlushKeepsLost(c, done.(flushPromise := None));
  }

  lemma StepKeepsLost(c: Config, s: State, step: Step)
    requires LostOk(s)
    ensures LostOk(Apply(c, s, step))
  {
    hide MakeBatches, Flatten, BodySize, Flush, LostIn, Capture, Settle, SendPending, StartBatch,
      TransportAccepts, TransportRefuses, RetryFires;
    match step
    case CaptureCall(candidate, timers) => CaptureKeepsLost(c, s, candidate, timers);
    case FlushCall => FlushKeepsLost(c, s);
    case TimerFires => FlushKeepsLost(c, s);
    case Settles(i, timers) =>
      if i < |s.jobs| && s.jobs[i].phase.Delivered? {
        SettleKeepsLost(c, s, i, timers);
      }
    case DestroyCall => FlushKeepsLost(c, s.(stopped := true, timer := false));
    case _ =>
      StepPuts(c, s, step);
      if Apply(c, s, step) != s {
        PutKeepsLost(s, step.i, Apply(c, s, step));
      }
  }

  lemma PutKeepsLost(s: State, i: nat, s': State)
    requires LostOk(s) && i < |s.jobs| && |s'.jobs| == |s.jobs| && s'.jobs == s.jobs[i := s'.jobs[i]]
    requires s'.lost - s.lost == s'.jobs[i].lost - s.jobs[i].lost && s'.leaked - s.leaked <= s'.lost - s.lost
    ensures LostOk(s')
  {
    LostPut(s.jobs, i, s'.jobs[i]);
  }

  lemma {:induction false} RunKeepsLost(c: Config, s: State, steps: seq<Step>)
    requires LostOk(s)
    ensures LostOk(Run(c, s, steps))
    decreases |steps|
  {
    hide Apply, LostOk;
    if steps == [] {
    } else {
      RunKeepsLost(c, s, steps[..|steps| - 1]);
      StepKeepsLost(c, Run(c, s, steps[..|steps| - 1]), steps[|steps| - 1]);
    }
  }

  predicate HasRejected(jobs: seq<Job>) {
    exists i :: 0 <= i < |jobs| && Over(jobs[i]) && jobs[i].phase.outcome.Rejected?
  }

  /** Events leave the books exactly when some flush promise was rejected, and only then can a reservation leak. */
  lemma LostOnlyByRejection(c: Config, steps: seq<Step>)
    requires ValidConfig(c)
    ensures var s := Run(c, INITIAL, steps);
            (s.lost > 0 <==> HasRejected(s.jobs)) && (s.leaked > 0 ==> s.lost > 0)
  {
    hide InTurn, QueueOk, Balanced, OrderOk, HistoryOk, BudgetOk, IsTail, AllAlone, Sound;
    InitialInv(c);
    RunKeepsInv(c, INITIAL, steps);
    RunKeepsLost(c, INITIAL, steps);
    var s := Run(c, INITIAL, steps);
    LostNone(s.jobs);
    forall i | 0 <= i < |s.jobs| ensures s.jobs[i].lost > 0 <==> Over(s.jobs[i]) && s.jobs[i].phase.outcome.Rejected? {
      assert JobOk(c, s.jobs[i]);
    }
  }

  // ---------------------------------------------------------------- which steps do it

  /** The transport refuses a batch that has attempts left, and setTimeout throws instead of arming the back-off. */
  predicate Abandons(c: Config, s: State, step: Step) {
    && step.Refuses? && step.timers.Throwing? && step.i < |s.jobs| && s.jobs[step.i].phase.Sending?
    && s.jobs[step.i].phase.attempt < c.maxRetries
  }

  /** The same while later batches of the snapshot have not been sent. */
  predicate Strands(c: Config, s: State, step: Step) {
    Abandons(c, s, step) && s.jobs[step.i].phase.unsent != []
  }

  /** What a step abandons: the batch it was about to retry with the rest of the snapshot, and that rest alone. */
  predicate Loses(s: State, s': State, all: nat, rest: nat) {
    s'.lost == s.lost + all && s'.leaked == s.leaked + rest
  }

  lemma FlushLoses(c: Config, s: State)
    ensures Loses(s, Flush(c, s), 0, 0)
  {
    hide MakeBatches, Flatten, Advanced;
  }

  lemma CaptureLoses(c: Config, s: State, candidate: Candidate, timers: Timers)
    ensures Loses(s, Capture(c, s, candidate, timers), 0, 0)
  {
    hide Flush, FitsAlone, Budget.Window;
    if !s.stopped && candidate.Captured? && FitsAlone(c.limits, Event(s.attempts, candidate.size)) {
      var kept := s.(attempts := s.attempts + 1, sentAt := Budget.Window(s.sentAt, candidate.now));
      var (q, queued) := Enqueue(c, kept, Event(s.attempts, candidate.size));
      FlushLoses(c, q.(sentAt := q.sentAt + [candidate.now]));
    }
  }

  lemma SettleLoses(c: Config, s: State, i: nat, timers: Timers)
    requires i < |s.jobs| && s.jobs[i].phase.Delivered?
    ensures Loses(s, Settle(c, s, i, timers), 0, 0)
  {
    hide Flush;
    var done := Put(s, i, s.jobs[i].(phase := Settled(s.jobs[i].phase.outcome)));
    FlushLoses(c, done.(flushPromise := None));
  }

  lemma StepLoses(c: Config, s: State, step: Step)
    ensures if Abandons(c, s, step)
            then Loses(s, Apply(c, s, step), |LiveOf(s.jobs[step.i])|, |BacklogOf(s.jobs[step.i])|)
            else Loses(s, Apply(c, s, step), 0, 0)
  {
    hide Flush, Capture, Settle, MakeBatches, Flatten, BodySize, Advanced;
    match step
    case CaptureCall(candidate, timers) => CaptureLoses(c, s, candidate, timers);
    case FlushCall => FlushLoses(c, s);
    case TimerFires => FlushLoses(c, s);
    case Settles(i, timers) =>
      if i < |s.jobs| && s.jobs[i].phase.Delivered? {
        SettleLoses(c, s, i, timers);
      }
    case DestroyCall => FlushLoses(c, s.(stopped := true, timer := false));
    case _ =>
  }

  /** In a reachable state, abandoning loses at least one event, and strands some exactly if batches are left. */
  lemma AbandonedIsSome(c: Config, s: State, step: Step)
    requires Inv(c, s) && Abandons(c, s, step)
    ensures LiveOf(s.jobs[step.i]) != [] && (BacklogOf(s.jobs[step.i]) != [] <==> Strands(c, s, step))
  {
    hide QueueOk, Balanced, OrderOk, HistoryOk, BudgetOk, InTurn, AllAlone, IsTail, Fits;
    var j := s.jobs[step.i];
    assert JobOk(c, j);
    if j.phase.unsent != [] {
      FlattenFirst(j.phase.unsent);
    }
  }

  predicate AbandonsAt(c: Config, steps: seq<Step>, k: nat)
    requires k < |steps|
  {
    Abandons(c, Run(c, INITIAL, steps[..k]), steps[k])
  }

  predicate StrandsAt(c: Config, steps: seq<Step>, k: nat)
    requires k < |steps|
  {
    Strands(c, Run(c, INITIAL, steps[..k]), steps[k])
  }

  /**
   Events are lost exactly on the runs in which setTimeout throws at some refusal with attempts left, and a
   reservation is never released exactly if the snapshot then had batches left to send.
   */
  lemma {:induction false} LossesExactly(c: Config, steps: seq<Step>)
    requires ValidConfig(c)
    ensures Run(c, INITIAL, steps).lost > 0 <==> exists k :: 0 <= k < |steps| && AbandonsAt(c, steps, k)
    ensures Run(c, INITIAL, steps).leaked > 0 <==> exists k :: 0 <= k < |steps| && StrandsAt(c, steps, k)
    decreases |steps|
  {
    hide Inv, Apply, LiveOf, BacklogOf, Abandons, Strands;
    if steps == [] {
    } else {
      var front, last := steps[..|steps| - 1], steps[|steps| - 1];
      LossesExactly(c, front);
      InitialInv(c);
      RunKeepsInv(c, INITIAL, front);
      var s := Run(c, INITIAL, front);
      StepLoses(c, s, last);
      StrandsAbandons(c, s, last);
      if Abandons(c, s, last) {
        AbandonedIsSome(c, s, last);
      }
      forall k | 0 <= k < |front| ensures AbandonsAt(c, front, k) == AbandonsAt(c, steps, k)
                                       && StrandsAt(c, front, k) == StrandsAt(c, steps, k)
      {
        assert front[..k] == steps[..k];
      }
      assert AbandonsAt(c, steps, |front|) == Abandons(c, s, last);
      assert StrandsAt(c, steps, |front|) == Strands(c, s, last);
    }
  }

  lemma StrandsAbandons(c: Config, s: State, step: Step)
    ensures Strands(c, s, step) ==> Abandons(c, s, step)
  {}

  // ---------------------------------------------------------------- an idle client that has lost room for good

  const NARROW := Config(Limits(60, 2, 1024), 2, 1, 10, 0)

  /** Two captures that need a batch each, a refusal, and a timer that throws. */
  const STRANDING := [CaptureCall(Captured(600, 0), Absent), CaptureCall(Captured(600, 0), Absent),
                      BatchStarts(0), Refuses(0, Throwing), Settles(0, Absent)]

  const E0 := Event(0, 600)
  const E1 := Event(1, 600)
  const COUNTED := Stats(0, 0, 0, 0, 1, 0, 0, 0, 0)

  function Stranded(phase: Phase, lost: nat): Job {
    Job(None, [E0, E1], phase, true, 0, 0, lost)
  }

  /** The client behind two captures, in a given phase of the flush that the second one started. */
  function Narrow(phase: Phase): State {
    State([], 1, false, Some(0), [0, 0], INITIAL.stats, false, [Stranded(phase, 0)], 2, [], 0, 0)
  }

  /** The client ends idle, with nothing held, and one of its two places taken for ever. */
  lemma StrandingRun()
    ensures ValidConfig(NARROW)
    ensures var s := Run(NARROW, INITIAL, STRANDING);
            && s.flushPromise == None && s.queue == [] && s.reservedCount == 1 && s.leaked == 1 && s.lost == 2
            && |s.jobs| == 1 && IsRejected(s.jobs[0])
  {
    hide Apply, IsRejected;
    RunFive(NARROW, STRANDING[0], STRANDING[1], STRANDING[2], STRANDING[3], STRANDING[4]);
    TwoCaptures();
    StrandingDelivery();
  }

  lemma TwoCaptures()
    ensures Apply(NARROW, Apply(NARROW, INITIAL, STRANDING[0]), STRANDING[1]) == Narrow(Ready([[E0], [E1]], false))
  {
    hide MakeBatches, Flatten;
    TwoBatches();
    Stamps();
    var one := INITIAL.(attempts := 1, queue := [E0], sentAt := [0]);
    assert Capture(NARROW, INITIAL, Captured(600, 0), Absent) == one;
    assert [E0] + [E1] == [E0, E1];
    assert Capture(NARROW, one, Captured(600, 0), Absent)
        == Flush(NARROW, one.(attempts := 2, queue := [E0, E1], sentAt := [0, 0]));
  }

  lemma Stamps()
    ensures Budget.Window([], 0) == [] && Budget.Window([0], 0) == [0]
  {
    assert [0][..0] == [];
  }

  lemma StrandingDelivery()
    ensures var s := Apply(NARROW, Apply(NARROW, Apply(NARROW, Narrow(Ready([[E0], [E1]], false)), STRANDING[2]),
                                         STRANDING[3]), STRANDING[4]);
            && s.flushPromise == None && s.queue == [] && s.reservedCount == 1 && s.leaked == 1 && s.lost == 2
            && |s.jobs| == 1 && IsRejected(s.jobs[0])
  {
    hide Flatten, MakeBatches, BodySize;
    TwoBatches();
    var sending := Narrow(Sending([E0], 0, [[E1]]));
    assert Apply(NARROW, Narrow(Ready([[E0], [E1]], false)), STRANDING[2]) == sending;
    var closed := [Closing(0, [E0], 1, Lost)] + Abandoned(0, [[E1]]);
    var rejected := sending.(stats := COUNTED, jobs := [Stranded(Delivered(Rejected), 2)], closed := closed,
                             lost := 2, leaked := 1);
    assert [] + [Closing(0, [E0], 1, Lost)] == [Closing(0, [E0], 1, Lost)];
    assert Apply(NARROW, sending, STRANDING[3]) == rejected;
    var idle := rejected.(jobs := [Stranded(Settled(Rejected), 2)], flushPromise := None);
    assert Apply(NARROW, rejected, STRANDING[4]) == idle;
  }

  lemma TwoBatches()
    ensures MakeBatches(NARROW.limits, [Event(0, 600), Event(1, 600)]) == Grouped([[Event(0, 600)], [Event(1, 600)]], 0)
    ensures FitsAlone(NARROW.limits, Event(0, 600)) && FitsAlone(NARROW.limits, Event(1, 600))
    ensures Flatten([[E1]]) == [E1]
  {
    var a, b := Event(0, 600), Event(1, 600);
    assert [a, b][..1] == [a] && [a][..0] == [];
    assert [] + [a] == [a];
    FlattenOne([], [E1]);
    assert [] + [[E1]] == [[E1]];
  }

  lemma RunFive(c: Config, a: Step, b: Step, d: Step, e: Step, f: Step)
    ensures Run(c, INITIAL, [a, b, d, e, f])
         == Apply(c, Apply(c, Apply(c, Apply(c, Apply(c, INITIAL, a), b), d), e), f)
  {
    hide Apply;
    assert [a, b, d, e, f][..4] == [a, b, d, e] && [a, b, d, e][..3] == [a, b, d];
    assert [a, b, d][..2] == [a, b] && [a, b][..1] == [a] && [a][..0] == [];
    assert Run(c, INITIAL, [a]) == Apply(c, INITIAL, a);
    assert Run(c, INITIAL, [a, b]) == Apply(c, Apply(c, INITIAL, a), b);
    assert Run(c, INITIAL, [a, b, d]) == Apply(c, Apply(c, Apply(c, INITIAL, a), b), d);
  }
}
