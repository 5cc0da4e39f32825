/** What a flush promise says about the batches: the counters of a flush are the events of its closed batches. */
module DeliveryVerdict {
  import opened Options
  import opened Batching
  import opened Delivery
  import opened DeliveryInvariant
  import opened DeliveryTheorems

  /** The events in the closed batches of one flush that met one fate. */
  function CountOf(closed: seq<Closing>, job: nat, fate: Fate): nat {
    if closed == [] then 0
    else
      var last := closed[|closed| - 1];
      CountOf(closed[..|closed| - 1], job, fate) + if last.job == job && last.fate == fate then |last.batch| else 0
  }

  function Tally(j: Job, fate: Fate): nat {
    match fate
    case Sent => j.sent
    case Dropped => j.dropped
    case Lost => j.lost
  }

  /** Each flush has counted exactly the events of its closed batches, and those belong to flushes that exist. */
  predicate BooksOk(s: State) {
    && (forall k {:trigger s.closed[k]} :: 0 <= k < |s.closed| ==> s.closed[k].job < |s.jobs|)
    && (forall i, fate {:trigger CountOf(s.closed, i, fate)} :: 0 <= i < |s.jobs| ==>
          Tally(s.jobs[i], fate) == CountOf(s.closed, i, fate))
  }

  lemma {:induction false} CountConcat(a: seq<Closing>, b: seq<Closing>, job: nat, fate: Fate)
    ensures CountOf(a + b, job, fate) == CountOf(a, job, fate) + CountOf(b, job, fate)
    decreases |b|
  {
    if b == [] {
      assert a + b == a;
    } else {
      assert (a + b)[..|a + b| - 1] == a + b[..|b| - 1];
      CountConcat(a, b[..|b| - 1], job, fate);
    }
  }

  lemma {:induction false} CountNone(closed: seq<Closing>, job: nat, fate: Fate)
    requires forall k {:trigger closed[k]} :: 0 <= k < |closed| ==> closed[k].job != job || closed[k].fate != fate
    ensures CountOf(closed, job, fate) == 0
    decreases |closed|
  {
    if closed == [] {
    } else {
      var front := closed[..|closed| - 1];
      assert forall k :: 0 <= k < |front| ==> front[k] == closed[k];
      CountNone(front, job, fate);
    }
  }

  /** Batches are not empty, so a count is zero only if there is none. */
  lemma {:induction false} CountSome(closed: seq<Closing>, k: nat)
    requires k < |closed| && closed[k].batch != []
    ensures CountOf(closed, closed[k].job, closed[k].fate) > 0
    decreases |closed|
  {
    if k < |closed| - 1 {
      CountSome(closed[..|closed| - 1], k);
    }
  }

  lemma CountOne(d: Closing, job: nat, fate: Fate)
    ensures CountOf([d], job, fate) == if d.job == job && d.fate == fate then |d.batch| else 0
  {
    assert [d][..0] == [];
  }

  lemma {:induction false} CountAbandoned(i: nat, unsent: seq<Batch>)
    ensures CountOf(Abandoned(i, unsent), i, Lost) == |Flatten(unsent)|
    decreases |unsent|
  {
    if unsent == [] {
    } else {
      var front := unsent[..|unsent| - 1];
      assert Abandoned(i, unsent)[..|front|] == Abandoned(i, front);
      CountAbandoned(i, front);
    }
  }

  // ---------------------------------------------------------------- steps

  /** What a step adds to the closed batches belongs to one flush, whose counters rise by it. */
  ghost predicate Posts(s: State, s': State, i: nat) {
    && i < |s.jobs| && |s'.jobs| == |s.jobs| && s'.jobs == s.jobs[i := s'.jobs[i]]
    && s.closed <= s'.closed
    && (forall k {:trigger s'.closed[k]} :: |s.closed| <= k < |s'.closed| ==> s'.closed[k].job == i)
    && (forall fate {:trigger Tally(s'.jobs[i], fate)} ::
          Tally(s'.jobs[i], fate) == Tally(s.jobs[i], fate) + CountOf(s'.closed[|s.closed|..], i, fate))
  }

  lemma PostsKeepsBooks(s: State, s': State, i: nat)
    requires BooksOk(s) && Posts(s, s', i)
    ensures BooksOk(s')
  {
    var added := s'.closed[|s.closed|..];
    assert s'.closed == s.closed + added;
    forall k {:trigger s'.closed[k]} | 0 <= k < |s'.closed| ensures s'.closed[k].job < |s'.jobs| {
      if k < |s.closed| {
        assert s'.closed[k] == s.closed[k];
      }
    }
    forall m, fate {:trigger CountOf(s'.closed, m, fate)} | 0 <= m < |s'.jobs|
      ensures Tally(s'.jobs[m], fate) == CountOf(s'.closed, m, fate)
    {
      CountConcat(s.closed, added, m, fate);
      assert Tally(s.jobs[m], fate) == CountOf(s.closed, m, fate);
      if m != i {
        assert forall k :: 0 <= k < |added| ==> added[k] == s'.closed[|s.closed| + k];
        CountNone(added, m, fate);
      }
    }
  }

  /** Nothing is closed, and one flush changes without its counters. */
  lemma PostsNothing(s: State, s': State, i: nat)
    requires i < |s.jobs| && |s'.jobs| == |s.jobs| && s'.jobs == s.jobs[i := s'.jobs[i]] && s'.closed == s.closed
    requires forall fate :: Tally(s'.jobs[i], fate) == Tally(s.jobs[i], fate)
    ensures Posts(s, s', i)
  {
    assert s'.closed[|s.closed|..] == [];
  }

  lemma PostsOne(s: State, s': State, i: nat, d: Closing)
    requires i < |s.jobs| && |s'.jobs| == |s.jobs| && s'.jobs == s.jobs[i := s'.jobs[i]] && s'.closed == s.closed + [d]
    requires d.job == i
    requires forall fate ::
               Tally(s'.jobs[i], fate) == Tally(s.jobs[i], fate) + if d.fate == fate then |d.batch| else 0
    ensures Posts(s, s', i)
  {
    assert s'.closed[|s.closed|..] == [d];
    forall fate {:trigger Tally(s'.jobs[i], fate)}
      ensures Tally(s'.jobs[i], fate) == Tally(s.jobs[i], fate) + CountOf(s'.closed[|s.closed|..], i, fate)
    {
      CountOne(d, i, fate);
    }
  }

  lemma DropPosts(s: State, i: nat, b: Batch, attempts: nat, unsent: seq<Batch>)
    requires i < |s.jobs|
    ensures Posts(s, DropBatch(s, i, b, attempts, unsent), i)
  {
    hide PriorAccepted, Posts;
    PostsOne(s, DropBatch(s, i, b, attempts, unsent), i, Closing(i, b, attempts, Dropped));
  }

  lemma TransmitPosts(c: Config, s: State, i: nat, b: Batch, attempt: nat, unsent: seq<Batch>)
    requires i < |s.jobs|
    ensures Posts(s, Transmit(c, s, i, b, attempt, unsent), i)
  {
    hide BodySize, DropBatch, Posts;
    if BodySize(c.limits, b) > c.limits.maxBatchBytes {
      DropPosts(s, i, b, attempt, unsent);
    } else {
      PostsNothing(s, Transmit(c, s, i, b, attempt, unsent), i);
    }
  }

  lemma StartPosts(c: Config, s: State, i: nat)
    requires i < |s.jobs| && s.jobs[i].phase.Ready? && s.jobs[i].phase.unsent != []
    ensures Posts(s, StartBatch(c, s, i), i)
  {
    hide Transmit;
    var Ready(unsent, started) := s.jobs[i].phase;
    TransmitPosts(c, s, i, unsent[0], 0, unsent[1..]);
    TransmitPosts(c, s.(reservedCount := s.reservedCount - |unsent[0]|), i, unsent[0], 0, unsent[1..]);
  }

  lemma AcceptPosts(s: State, i: nat)
    requires i < |s.jobs| && s.jobs[i].phase.Sending?
    ensures Posts(s, TransportAccepts(s, i), i)
  {
    hide PriorAccepted, Posts;
    var Sending(b, attempt, _) := s.jobs[i].phase;
    PostsOne(s, TransportAccepts(s, i), i, Closing(i, b, attempt + 1, Sent));
  }

  lemma AbandonPosts(c: Config, s: State, i: nat)
    requires i < |s.jobs| && s.jobs[i].phase.Sending? && s.jobs[i].phase.attempt < c.maxRetries
    ensures Posts(s, TransportRefuses(c, s, i, Throwing), i)
  {
    hide Flatten;
    var Sending(b, attempt, unsent) := s.jobs[i].phase;
    var s' := TransportRefuses(c, s, i, Throwing);
    var d, rest := Closing(i, b, attempt + 1, Lost), Abandoned(i, unsent);
    assert s'.closed == s.closed + ([d] + rest);
    assert s'.closed[|s.closed|..] == [d] + rest;
    forall fate {:trigger Tally(s'.jobs[i], fate)}
      ensures Tally(s'.jobs[i], fate) == Tally(s.jobs[i], fate) + CountOf([d] + rest, i, fate)
    {
      CountConcat([d], rest, i, fate);
      CountOne(d, i, fate);
      if fate == Lost {
        CountAbandoned(i, unsent);
      } else {
        CountNone(rest, i, fate);
      }
    }
  }

  lemma RefusePosts(c: Config, s: State, i: nat, timers: Timers)
    requires i < |s.jobs| && s.jobs[i].phase.Sending?
    ensures Posts(s, TransportRefuses(c, s, i, timers), i)
  {
    hide DropBatch, Flatten, Posts;
    var Sending(b, attempt, unsent) := s.jobs[i].phase;
    if attempt < c.maxRetries {
      if timers.Throwing? {
        AbandonPosts(c, s, i);
      } else {
        PostsNothing(s, TransportRefuses(c, s, i, timers), i);
      }
    } else {
      DropPosts(s, i, b, attempt + 1, unsent);
    }
  }

  lemma SnapshotPosts(c: Config, s: State, i: nat)
    requires ValidConfig(c) && i < |s.jobs| && JobOk(c, s.jobs[i]) && s.jobs[i].phase.Waiting?
    ensures Posts(s, SendPending(c, s, i), i)
  {
    hide MakeBatches, Flatten, PriorAccepted, Posts, Sound, IsTail, AllAlone;
    GroupedOk(c, s.jobs[i].pending);
    PostsNothing(s, SendPending(c, s, i), i);
  }

  // ---------------------------------------------------------------- flushes and captures

  /** Nothing is closed, and every flush that is added has counted nothing. */
  predicate Opens(s: State, s': State) {
    && s'.closed == s.closed && s.jobs <= s'.jobs
    && forall i :: |s.jobs| <= i < |s'.jobs| ==> s'.jobs[i].sent == s'.jobs[i].dropped == s'.jobs[i].lost == 0
  }

  lemma OpensKeepsBooks(s: State, s': State)
    requires BooksOk(s) && Opens(s, s')
    ensures BooksOk(s')
  {
    forall i, fate {:trigger CountOf(s'.closed, i, fate)} | 0 <= i < |s'.jobs|
      ensures Tally(s'.jobs[i], fate) == CountOf(s'.closed, i, fate)
    {
      if i < |s.jobs| {
        assert s'.jobs[i] == s.jobs[i];
        assert Tally(s.jobs[i], fate) == CountOf(s.closed, i, fate);
      } else {
        CountNone(s.closed, i, fate);
      }
    }
  }

  lemma FlushOpens(c: Config, s: State)
    requires ValidConfig(c) && AllAlone(c.limits, s.queue)
    ensures Opens(s, Flush(c, s))
  {
    hide MakeBatches, Flatten, PriorAccepted, Sound, AllAlone;
    if s.queue != [] {
      GroupedOk(c, s.queue);
    }
  }

  lemma CaptureOpens(c: Config, s: State, candidate: Candidate, timers: Timers)
    requires ValidConfig(c) && AllAlone(c.limits, s.queue)
    ensures Opens(s, Capture(c, s, candidate, timers))
  {
    hide Flush, FitsAlone, Budget.Window;
    if !s.stopped && candidate.Captured? && FitsAlone(c.limits, Event(s.attempts, candidate.size)) {
      var kept := s.(attempts := s.attempts + 1, sentAt := Budget.Window(s.sentAt, candidate.now));
      var (q, queued) := Enqueue(c, kept, Event(s.attempts, candidate.size));
      FlushOpens(c, q.(sentAt := q.sentAt + [candidate.now]));
    }
  }

  lemma SettleKeepsBooks(c: Config, s: State, i: nat, timers: Timers)
    requires ValidConfig(c) && AllAlone(c.limits, s.queue) && BooksOk(s) && i < |s.jobs| && s.jobs[i].phase.Delivered?
    ensures BooksOk(Settle(c, s, i, timers))
  {
    hide Flush, BooksOk, AllAlone, Posts;
    var done := Put(s, i, s.jobs[i].(phase := Settled(s.jobs[i].phase.outcome)));
    PostsNothing(s, done, i);
    PostsKeepsBooks(s, done, i);
    FlushOpens(c, done.(flushPromise := None));
    OpensKeepsBooks(done, Settle(c, s, i, timers));
  }

  lemma StepKeepsBooks(c: Config, s: State, step: Step)
    requires ValidConfig(c) && Inv(c, s) && BooksOk(s)
    ensures BooksOk(Apply(c, s, step))
  {
    hide Flush, Capture, Settle, SendPending, StartBatch, TransportAccepts, TransportRefuses, Transmit, Posts, BooksOk;
    hide Inv, AllAlone, Opens, JobOk;
    KnownOf(c, s);
    match step
    case CaptureCall(candidate, timers) =>
      CaptureOpens(c, s, candidate, timers);
      OpensKeepsBooks(s, Capture(c, s, candidate, timers));
    case FlushCall =>
      FlushOpens(c, s);
      OpensKeepsBooks(s, Flush(c, s));
    case TimerFires =>
      FlushOpens(c, s);
      OpensKeepsBooks(s, Flush(c, s));
    case DestroyCall =>
      var stopping := s.(stopped := true, timer := false);
      StopKeepsBooks(s);
      FlushOpens(c, stopping);
      OpensKeepsBooks(stopping, Flush(c, stopping));
    case Settles(i, timers) =>
      if i < |s.jobs| && s.jobs[i].phase.Delivered? {
        SettleKeepsBooks(c, s, i, timers);
      }
    case SnapshotStarts(i) =>
      if i < |s.jobs| && Released(s.jobs, s.jobs[i]) {
        SnapshotPosts(c, s, i);
        PostsKeepsBooks(s, SendPending(c, s, i), i);
      }
    case BatchStarts(i) =>
      if i < |s.jobs| && s.jobs[i].phase.Ready? && s.jobs[i].phase.unsent != [] {
        StartPosts(c, s, i);
        PostsKeepsBooks(s, StartBatch(c, s, i), i);
      }
    case Accepts(i) =>
      if i < |s.jobs| && s.jobs[i].phase.Sending? {
        AcceptPosts(s, i);
        PostsKeepsBooks(s, TransportAccepts(s, i), i);
      }
    case Refuses(i, timers) =>
      if i < |s.jobs| && s.jobs[i].phase.Sending? {
        RefusePosts(c, s, i, timers);
        PostsKeepsBooks(s, TransportRefuses(c, s, i, timers), i);
      }
    case RetryStarts(i) =>
      if i < |s.jobs| && s.jobs[i].phase.BackingOff? {
        var BackingOff(b, attempt, unsent) := s.jobs[i].phase;
        TransmitPosts(c, s, i, b, attempt + 1, unsent);
        PostsKeepsBooks(s, RetryFires(c, s, i), i);
      }
  }

  lemma StopKeepsBooks(s: State)
    requires BooksOk(s)
    ensures BooksOk(s.(stopped := true, timer := false))
  {}

  lemma KnownOf(c: Config, s: State)
    requires Inv(c, s)
    ensures AllAlone(c.limits, s.queue) && forall i {:trigger s.jobs[i]} :: 0 <= i < |s.jobs| ==> JobOk(c, s.jobs[i])
    ensures forall k {:trigger s.closed[k]} :: 0 <= k < |s.closed| ==> s.closed[k].batch != []
  {
    forall k {:trigger s.closed[k]} | 0 <= k < |s.closed| ensures s.closed[k].batch != [] {
      assert ClosedOk(c, s.closed[k]);
    }
  }

  lemma InitialBooks()
    ensures BooksOk(INITIAL)
  {}

  lemma {:induction false} RunKeepsBooks(c: Config, s: State, steps: seq<Step>)
    requires ValidConfig(c) && Inv(c, s) && BooksOk(s)
    ensures BooksOk(Run(c, s, steps))
    decreases |steps|
  {
    hide Inv, Apply, BooksOk;
    if steps == [] {
    } else {
      var front := steps[..|steps| - 1];
      RunKeepsBooks(c, s, front);
      RunKeepsInv(c, s, front);
      StepKeepsBooks(c, Run(c, s, front), steps[|steps| - 1]);
    }
  }

  // ---------------------------------------------------------------- what a promise says

  /** `i` is flush `last` or one it waited for, back to when the client was idle. */
  predicate Before(jobs: seq<Job>, i: int, last: nat)
    requires last < |jobs|
  {
    0 <= i <= last && forall k :: i < k <= last ==> jobs[k].active.Some?
  }

  ghost predicate OnlySent(s: State, last: nat)
    requires last < |s.jobs|
  {
    forall k {:trigger s.closed[k]} :: 0 <= k < |s.closed| && Before(s.jobs, s.closed[k].job, last) ==>
      s.closed[k].fate == Sent
  }

  lemma OwnBatches(s: State, i: nat)
    requires BooksOk(s) && i < |s.jobs|
    requires forall k {:trigger s.closed[k]} :: 0 <= k < |s.closed| ==> s.closed[k].batch != []
    ensures s.jobs[i].lost > 0 <==> exists k :: 0 <= k < |s.closed| && s.closed[k].job == i && s.closed[k].fate == Lost
    ensures s.jobs[i].dropped == 0 && s.jobs[i].lost == 0
       <==> forall k {:trigger s.closed[k]} :: 0 <= k < |s.closed| && s.closed[k].job == i ==> s.closed[k].fate == Sent
  {
    assert Tally(s.jobs[i], Lost) == CountOf(s.closed, i, Lost);
    assert Tally(s.jobs[i], Dropped) == CountOf(s.closed, i, Dropped);
    forall k | 0 <= k < |s.closed| && s.closed[k].job == i ensures CountOf(s.closed, i, s.closed[k].fate) > 0 {
      CountSome(s.closed, k);
    }
    if CountOf(s.closed, i, Lost) > 0
       && forall k :: 0 <= k < |s.closed| ==> s.closed[k].job != i || s.closed[k].fate != Lost {
      CountNone(s.closed, i, Lost);
    }
    if CountOf(s.closed, i, Dropped) > 0
       && forall k :: 0 <= k < |s.closed| ==> s.closed[k].job != i || s.closed[k].fate != Dropped {
      CountNone(s.closed, i, Dropped);
    }
  }

  /** A clean verdict is about the batches: every one of this flush and of those it waited for was accepted. */
  lemma {:induction false} CleanIsOnlySent(c: Config, s: State, i: nat)
    requires BooksOk(s) && JobsOk(c, s.jobs) && i < |s.jobs|
    requires forall k {:trigger s.closed[k]} :: 0 <= k < |s.closed| ==> s.closed[k].batch != []
    ensures Clean(s.jobs, i) <==> OnlySent(s, i)
    decreases i
  {
    hide BooksOk, JobOk, VerdictOk;
    assert LinkOk(s.jobs, i);
    OwnBatches(s, i);
    if s.jobs[i].active.Some? {
      CleanIsOnlySent(c, s, i - 1);
      assert forall k :: Before(s.jobs, k, i) <==> k == i || Before(s.jobs, k, i - 1);
    } else {
      assert forall k :: Before(s.jobs, k, i) <==> k == i;
    }
  }

  /**
   On every run, a flush promise is rejected exactly when a batch of its flush was lost, and otherwise resolves to
   true exactly when the transport accepted every batch of the flush and of all it waited for.
   */
  lemma PromiseMeansAccepted(c: Config, steps: seq<Step>, i: nat)
    requires ValidConfig(c)
    ensures var s := Run(c, INITIAL, steps);
            i < |s.jobs| && s.jobs[i].phase.Settled? ==>
              && (s.jobs[i].phase.outcome.Rejected?
                  <==> exists k :: 0 <= k < |s.closed| && s.closed[k].job == i && s.closed[k].fate == Lost)
              && (s.jobs[i].phase.outcome.Resolved? ==> s.jobs[i].phase.outcome.value == OnlySent(s, i))
  {
    hide Run, BooksOk, JobsOk, QueueOk, Balanced, OrderOk, HistoryOk, BudgetOk, InTurn, Clean, OnlySent;
    var s := Run(c, INITIAL, steps);
    InitialInv(c);
    InitialBooks();
    RunKeepsInv(c, INITIAL, steps);
    RunKeepsBooks(c, INITIAL, steps);
    if i < |s.jobs| && s.jobs[i].phase.Settled? {
      KnownOf(c, s);
      PromiseValue(c, s.jobs, i);
      OwnBatches(s, i);
      CleanIsOnlySent(c, s, i);
    }
  }
}
