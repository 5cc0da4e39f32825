/** What every step of the delivery machine keeps. */
module DeliveryInvariant {
  import opened Options
  import opened Batching
  import Budget
  import opened Delivery

  // ---------------------------------------------------------------- where events are

  function InFlightOf(j: Job): Batch {
    if j.phase.Sending? || j.phase.BackingOff? then j.phase.batch else []
  }

  function BacklogOf(j: Job): Batch {
    match j.phase
    case Waiting => j.pending
    case Ready(unsent, _) => Flatten(unsent)
    case Sending(_, _, unsent) => Flatten(unsent)
    case BackingOff(_, _, unsent) => Flatten(unsent)
    case _ => []
  }

  /** The part of the backlog that reservedCount covers: all but the first batch of an unchained flush. */
  function ReservedOf(j: Job): Batch {
    if j.phase.Ready? && j.active == None && !j.phase.started && j.phase.unsent != []
    then Flatten(j.phase.unsent[1..])
    else BacklogOf(j)
  }

  datatype Part = Flying | Queued | Reserved

  function PartOf(p: Part, j: Job): Batch {
    match p
    case Flying => InFlightOf(j)
    case Queued => BacklogOf(j)
    case Reserved => ReservedOf(j)
  }

  function All(p: Part, jobs: seq<Job>): Batch {
    if jobs == [] then [] else All(p, jobs[..|jobs| - 1]) + PartOf(p, jobs[|jobs| - 1])
  }

  function Done(closed: seq<Closing>): Batch {
    if closed == [] then [] else Done(closed[..|closed| - 1]) + closed[|closed| - 1].batch
  }

  function Fated(closed: seq<Closing>, fate: Fate): Batch {
    if closed == [] then []
    else
      Fated(closed[..|closed| - 1], fate)
      + (if closed[|closed| - 1].fate == fate then closed[|closed| - 1].batch else [])
  }

  /** Every event that a flush has taken, in the order in which they go through the machine. */
  function Moving(s: State): Batch {
    Done(s.closed) + All(Flying, s.jobs) + All(Queued, s.jobs)
  }

  /** Every event that is closed or held. */
  function Trail(s: State): Batch {
    Moving(s) + s.queue
  }

  function Live(s: State): nat {
    |All(Flying, s.jobs)| + |All(Queued, s.jobs)| + |s.queue|
  }

  predicate Increasing(es: Batch) {
    forall i, j :: 0 <= i < j < |es| ==> es[i].id < es[j].id
  }

  predicate Below(es: Batch, n: nat) {
    forall i :: 0 <= i < |es| ==> es[i].id < n
  }

  predicate AllAlone(l: Limits, es: Batch) {
    forall i {:trigger FitsAlone(l, es[i])} :: 0 <= i < |es| ==> FitsAlone(l, es[i])
  }

  // ---------------------------------------------------------------- the invariant

  predicate Over(j: Job) {
    j.phase.Delivered? || j.phase.Settled?
  }

  predicate Sound(l: Limits, bs: seq<Batch>) {
    AllFit(l, bs) && AllNonEmpty(bs)
  }

  predicate IsTail(part: Batch, whole: Batch) {
    |part| <= |whole| && part == whole[|whole| - |part|..]
  }

  function LiveOf(j: Job): Batch {
    InFlightOf(j) + BacklogOf(j)
  }

  /** One job on its own: its live events are the tail of its snapshot, and the rest are accounted for. */
  predicate JobOk(c: Config, j: Job) {
    && j.pending != [] && AllAlone(c.limits, j.pending)
    && IsTail(LiveOf(j), j.pending) && j.sent + j.dropped + j.lost + |LiveOf(j)| == |j.pending|
    && (!Over(j) ==> j.lost == 0 && j.ok == (j.dropped == 0))
    && match j.phase
       case Waiting => j.active.Some? && j.sent == j.dropped == 0
       case Ready(unsent, _) => unsent != [] && Sound(c.limits, unsent)
       case Sending(b, attempt, unsent) => b != [] && Fits(c.limits, b) && attempt <= c.maxRetries
           && Sound(c.limits, unsent)
       case BackingOff(b, attempt, unsent) => b != [] && Fits(c.limits, b) && attempt < c.maxRetries
           && Sound(c.limits, unsent)
       case Delivered(outcome) => outcome.Rejected? <==> j.lost > 0
       case Settled(outcome) => outcome.Rejected? <==> j.lost > 0
  }

  /** A flush promise resolves to true exactly when nothing was dropped, here or in the flushes it waited for. */
  predicate VerdictOk(jobs: seq<Job>, i: nat)
    requires i < |jobs|
  {
    Over(jobs[i]) && jobs[i].phase.outcome.Resolved? ==>
      jobs[i].phase.outcome.value == (jobs[i].dropped == 0 && PriorAccepted(jobs, jobs[i]))
  }

  predicate LinkOk(jobs: seq<Job>, i: nat)
    requires i < |jobs|
  {
    jobs[i].active == None || (i > 0 && jobs[i].active == Some(i - 1))
  }

  predicate JobsOk(c: Config, jobs: seq<Job>) {
    && (forall i {:trigger JobOk(c, jobs[i])} :: 0 <= i < |jobs| ==> JobOk(c, jobs[i]))
    && (forall i {:trigger VerdictOk(jobs, i)} :: 0 <= i < |jobs| ==> VerdictOk(jobs, i))
    && (forall i {:trigger LinkOk(jobs, i)} :: 0 <= i < |jobs| ==> LinkOk(jobs, i))
  }

  /** Flushes take turns: behind one that has not settled, every other is waiting. */
  predicate InTurn(jobs: seq<Job>) {
    forall i, k :: 0 <= i < k < |jobs| && !jobs[i].phase.Settled? ==> jobs[k].phase.Waiting?
  }

  function LastUnsettled(jobs: seq<Job>): Option<nat> {
    if jobs == [] || jobs[|jobs| - 1].phase.Settled? then None else Some(|jobs| - 1)
  }

  predicate QueueOk(c: Config, s: State) {
    && AllAlone(c.limits, s.queue)
    && s.reservedCount == s.leaked + |All(Reserved, s.jobs)|
    && |s.queue| + s.reservedCount <= c.maxQueueSize
    && (s.stopped ==> s.queue == [] && !s.timer)
  }

  function NotQueued(st: Stats): nat {
    st.sampled + st.suppressed + st.throttled + st.invalid
  }

  predicate Balanced(s: State) {
    && s.attempts == NotQueued(s.stats) + s.stats.dropped + s.stats.sent + s.lost + Live(s)
    && s.stats.failed <= s.stats.dropped && |Fated(s.closed, Dropped)| <= s.stats.dropped
  }

  predicate OrderOk(s: State) {
    Increasing(Trail(s)) && Below(Trail(s), s.attempts)
  }

  predicate ClosedOk(c: Config, d: Closing) {
    d.batch != [] && Fits(c.limits, d.batch) && d.attempts <= c.maxRetries + 1 && (d.fate != Lost ==> d.attempts >= 1)
  }

  predicate HistoryOk(c: Config, closed: seq<Closing>, sent: nat, lost: nat) {
    && sent == |Fated(closed, Sent)| && lost == |Fated(closed, Lost)|
    && (forall i {:trigger ClosedOk(c, closed[i])} :: 0 <= i < |closed| ==> ClosedOk(c, closed[i]))
  }

  predicate BudgetOk(c: Config, sentAt: seq<int>) {
    Budget.Sorted(sentAt) && |sentAt| <= c.maxEventsPerMinute
  }

  predicate Inv(c: Config, s: State) {
    && JobsOk(c, s.jobs) && InTurn(s.jobs) && s.flushPromise == LastUnsettled(s.jobs)
    && QueueOk(c, s) && Balanced(s) && OrderOk(s)
    && HistoryOk(c, s.closed, s.stats.sent, s.lost) && BudgetOk(c, s.sentAt)
  }

  // ---------------------------------------------------------------- sums over jobs

  lemma {:induction false} AllConcat(p: Part, a: seq<Job>, b: seq<Job>)
    ensures All(p, a + b) == All(p, a) + All(p, b)
    decreases |b|
  {
    if b == [] {
      assert a + b == a;
    } else {
      assert (a + b)[..|a + b| - 1] == a + b[..|b| - 1];
      AllConcat(p, a, b[..|b| - 1]);
    }
  }

  lemma AllOne(p: Part, j: Job)
    ensures All(p, [j]) == PartOf(p, j)
  {
    assert [j][..0] == [];
  }

  lemma {:induction false} AllNone(p: Part, jobs: seq<Job>)
    requires forall i :: 0 <= i < |jobs| ==> PartOf(p, jobs[i]) == []
    ensures All(p, jobs) == []
    decreases |jobs|
  {
    if jobs == [] {
    } else {
      AllNone(p, jobs[..|jobs| - 1]);
    }
  }

  predicate Turn(jobs: seq<Job>, i: nat) {
    && i < |jobs| && !jobs[i].phase.Settled?
    && (forall k :: 0 <= k < i ==> jobs[k].phase.Settled?)
    && (forall k :: i < k < |jobs| ==> jobs[k].phase.Waiting?)
  }

  /** Only the job whose turn it is and the waiting ones behind it hold events. */
  lemma Focus(p: Part, jobs: seq<Job>, i: nat, j: Job)
    requires i < |jobs| && forall k :: 0 <= k < i ==> jobs[k].phase.Settled?
    ensures All(p, jobs[i := j]) == PartOf(p, j) + All(p, jobs[i + 1..])
  {
    assert jobs[i := j] == (jobs[..i] + [j]) + jobs[i + 1..];
    AllConcat(p, jobs[..i] + [j], jobs[i + 1..]);
    AllConcat(p, jobs[..i], [j]);
    AllOne(p, j);
    AllNone(p, jobs[..i]);
  }

  lemma FocusAll(jobs: seq<Job>, i: nat, j: Job)
    requires Turn(jobs, i)
    ensures forall p :: All(p, jobs[i := j]) == PartOf(p, j) + All(p, jobs[i + 1..])
    ensures forall p :: All(p, jobs) == PartOf(p, jobs[i]) + All(p, jobs[i + 1..])
    ensures All(Flying, jobs[i + 1..]) == []
  {
    forall p ensures All(p, jobs[i := j]) == PartOf(p, j) + All(p, jobs[i + 1..])
             ensures All(p, jobs) == PartOf(p, jobs[i]) + All(p, jobs[i + 1..]) {
      Focus(p, jobs, i, j);
      Focus(p, jobs, i, jobs[i]);
      assert jobs[i := jobs[i]] == jobs;
    }
    AllNone(Flying, jobs[i + 1..]);
  }

  lemma TurnOf(jobs: seq<Job>, i: nat)
    requires InTurn(jobs) && i < |jobs| && !jobs[i].phase.Settled? && !jobs[i].phase.Waiting?
    ensures Turn(jobs, i)
  {}

  lemma DropMiddle(short: Batch, long: Batch, rest: Batch, n: nat)
    requires short <= long && Increasing(long + rest) && Below(long + rest, n)
    ensures Increasing(short + rest) && Below(short + rest, n)
  {
    var a, b := long + rest, short + rest;
    var shift := |long| - |short|;
    assert forall k :: 0 <= k < |b| ==> b[k] == a[if k < |short| then k else k + shift];
  }

  // ---------------------------------------------------------------- one job moves

  /** The job whose turn it is changes into j'. */
  predicate MovesJob(c: Config, jobs: seq<Job>, i: nat, j': Job) {
    && Turn(jobs, i) && j'.active == jobs[i].active && j'.pending == jobs[i].pending
    && !j'.phase.Waiting? && !j'.phase.Settled? && JobOk(c, j') && VerdictOk(jobs[i := j'], i)
  }

  lemma MoveKeepsJobs(c: Config, jobs: seq<Job>, i: nat, j': Job)
    requires JobsOk(c, jobs) && MovesJob(c, jobs, i, j')
    ensures JobsOk(c, jobs[i := j']) && InTurn(jobs[i := j']) && LastUnsettled(jobs[i := j']) == LastUnsettled(jobs)
  {
    hide JobOk;
    var jobs' := jobs[i := j'];
    forall k | 0 <= k < |jobs'| ensures JobOk(c, jobs'[k]) {
      assert k != i ==> JobOk(c, jobs[k]);
    }
    forall k | 0 <= k < |jobs'| ensures LinkOk(jobs', k) {
      assert LinkOk(jobs, k);
    }
    forall k | 0 <= k < |jobs'| ensures VerdictOk(jobs', k) {
      assert LinkOk(jobs, k) && VerdictOk(jobs, k);
    }
  }

  /** Events move along: some are closed, none disappears, none is reordered. */
  predicate MovesEvents(s: State, s': State, j: Job, j': Job) {
    && Done(s'.closed) + LiveOf(j') == Done(s.closed) + LiveOf(j)
    && |Fated(s'.closed, Dropped)| - |Fated(s.closed, Dropped)| <= s'.stats.dropped - s.stats.dropped
    && s'.stats.dropped + s'.stats.sent + s'.lost + |LiveOf(j')|
        == s.stats.dropped + s.stats.sent + s.lost + |LiveOf(j)|
    && s'.reservedCount <= s.reservedCount
    && s'.reservedCount - s'.leaked - |ReservedOf(j')| == s.reservedCount - s.leaked - |ReservedOf(j)|
    && s'.stats.failed - s.stats.failed <= s'.stats.dropped - s.stats.dropped
  }

  predicate SameOutside(s: State, s': State) {
    && s'.queue == s.queue && s'.timer == s.timer && s'.flushPromise == s.flushPromise && s'.sentAt == s.sentAt
    && s'.stopped == s.stopped && s'.attempts == s.attempts && NotQueued(s'.stats) == NotQueued(s.stats)
  }

  lemma Regroup(done: Batch, flying: Batch, backlog: Batch, tail: Batch)
    ensures done + (flying + []) + (backlog + tail) == (done + (flying + backlog)) + tail
  {}

  lemma TrailFocus(s: State, i: nat)
    requires Turn(s.jobs, i)
    ensures Moving(s) == (Done(s.closed) + LiveOf(s.jobs[i])) + All(Queued, s.jobs[i + 1..])
  {
    var j := s.jobs[i];
    FocusAll(s.jobs, i, j);
    assert PartOf(Flying, j) == InFlightOf(j) && PartOf(Queued, j) == BacklogOf(j);
    Regroup(Done(s.closed), InFlightOf(j), BacklogOf(j), All(Queued, s.jobs[i + 1..]));
  }

  lemma MoveKeepsTrail(s: State, s': State, i: nat, j': Job)
    requires Turn(s.jobs, i) && s'.jobs == s.jobs[i := j'] && s'.queue == s.queue && s'.attempts == s.attempts
    requires !j'.phase.Settled? && Done(s'.closed) + LiveOf(j') == Done(s.closed) + LiveOf(s.jobs[i])
    ensures Moving(s') == Moving(s) && Trail(s') == Trail(s)
  {
    TrailFocus(s, i);
    TrailFocus(s', i);
    assert s'.jobs[i + 1..] == s.jobs[i + 1..];
  }

  lemma MoveKeepsCounts(c: Config, s: State, s': State, i: nat, j': Job)
    requires Turn(s.jobs, i) && s'.jobs == s.jobs[i := j'] && SameOutside(s, s') && MovesEvents(s, s', s.jobs[i], j')
    requires QueueOk(c, s) && Balanced(s)
    ensures QueueOk(c, s') && Balanced(s')
  {
    var j := s.jobs[i];
    FocusAll(s.jobs, i, j');
    assert PartOf(Flying, j) == InFlightOf(j) && PartOf(Queued, j) == BacklogOf(j)
        && PartOf(Reserved, j) == ReservedOf(j);
    assert PartOf(Flying, j') == InFlightOf(j') && PartOf(Queued, j') == BacklogOf(j')
        && PartOf(Reserved, j') == ReservedOf(j');
  }

  predicate Moves(c: Config, s: State, s': State, i: nat) {
    && i < |s.jobs| && i < |s'.jobs| && s'.jobs == s.jobs[i := s'.jobs[i]] && SameOutside(s, s')
    && MovesJob(c, s.jobs, i, s'.jobs[i]) && MovesEvents(s, s', s.jobs[i], s'.jobs[i])
    && HistoryOk(c, s'.closed, s'.stats.sent, s'.lost)
  }

  lemma MoveKeepsInv(c: Config, s: State, s': State, i: nat)
    requires Inv(c, s) && Moves(c, s, s', i)
    ensures Inv(c, s') && Moving(s') == Moving(s)
  {
    var j' := s'.jobs[i];
    MoveKeepsJobs(c, s.jobs, i, j');
    MoveKeepsTrail(s, s', i, j');
    MoveKeepsCounts(c, s, s', i, j');
  }

  /** What a delivery step may rely on: it is the job's turn and its own books are in order. */
  predicate Acts(c: Config, s: State, i: nat) {
    && i < |s.jobs| && Turn(s.jobs, i) && JobOk(c, s.jobs[i]) && LinkOk(s.jobs, i)
    && HistoryOk(c, s.closed, s.stats.sent, s.lost)
  }

  lemma ActsOf(c: Config, s: State, i: nat)
    requires Inv(c, s) && i < |s.jobs|
    requires (!s.jobs[i].phase.Settled? && !s.jobs[i].phase.Waiting?) || Released(s.jobs, s.jobs[i])
    ensures Acts(c, s, i)
  {
    assert JobOk(c, s.jobs[i]) && LinkOk(s.jobs, i);
    if s.jobs[i].phase.Waiting? {
      WaitingTurn(s.jobs, i);
    } else {
      TurnOf(s.jobs, i);
    }
  }

  // ---------------------------------------------------------------- the steps of a delivery

  lemma GroupedOk(c: Config, pending: Batch)
    requires ValidConfig(c) && pending != [] && AllAlone(c.limits, pending)
    ensures var g := MakeBatches(c.limits, pending);
            g.rejected == 0 && g.batches != [] && Sound(c.limits, g.batches) && Flatten(g.batches) == pending
  {
    BatchesAreSound(c.limits, pending);
    SendableAll(c.limits, pending);
  }

  lemma WaitingTurn(jobs: seq<Job>, i: nat)
    requires InTurn(jobs) && i < |jobs| && LinkOk(jobs, i) && Released(jobs, jobs[i])
    ensures Turn(jobs, i)
  {
    var prior := jobs[i - 1];
    forall k | 0 <= k < i ensures jobs[k].phase.Settled? {
      assert k < i - 1 && !jobs[k].phase.Settled? ==> prior.phase.Waiting?;
    }
  }

  /** What is left to send after the batches already decided. */
  predicate Remaining(c: Config, j: Job, unsent: seq<Batch>) {
    && j.pending != [] && AllAlone(c.limits, j.pending) && Sound(c.limits, unsent)
    && IsTail(Flatten(unsent), j.pending) && j.sent + j.dropped + |Flatten(unsent)| == |j.pending|
    && j.lost == 0 && j.ok == (j.dropped == 0)
  }

  lemma AdvancedOk(c: Config, jobs: seq<Job>, i: nat, j: Job, unsent: seq<Batch>, started: bool)
    requires Turn(jobs, i) && LinkOk(jobs, i) && j.active == jobs[i].active && j.pending == jobs[i].pending
    requires Remaining(c, j, unsent)
    ensures MovesJob(c, jobs, i, Advanced(jobs, j, unsent, started))
    ensures LiveOf(Advanced(jobs, j, unsent, started)) == Flatten(unsent)
    ensures |ReservedOf(Advanced(jobs, j, unsent, true))| == |Flatten(unsent)|
  {
    hide AllAlone, Sound, IsTail;
    var j' := Advanced(jobs, j, unsent, started);
    assert LiveOf(j') == Flatten(unsent);
    assert j'.active.Some? ==> jobs[i := j'][j'.active.value] == jobs[j'.active.value];
  }

  lemma SnapshotMoves(c: Config, s: State, i: nat)
    requires ValidConfig(c) && Acts(c, s, i) && s.jobs[i].phase.Waiting?
    ensures Moves(c, s, SendPending(c, s, i), i)
  {
    hide IsTail, AllAlone, Sound, Flatten, All, Done, Fated, Fits, BodySize;
    var j := s.jobs[i];
    GroupedOk(c, j.pending);
    assert LiveOf(j) == j.pending;
    AdvancedOk(c, s.jobs, i, j, MakeBatches(c.limits, j.pending).batches, false);
  }

  lemma CloseKeepsHistory(c: Config, closed: seq<Closing>, sent: nat, lost: nat, d: Closing)
    requires HistoryOk(c, closed, sent, lost) && ClosedOk(c, d)
    ensures var n := |d.batch|;
            HistoryOk(c, closed + [d], if d.fate == Sent then sent + n else sent,
                      if d.fate == Lost then lost + n else lost)
    ensures Done(closed + [d]) == Done(closed) + d.batch
    ensures Fated(closed + [d], Dropped) == Fated(closed, Dropped) + (if d.fate == Dropped then d.batch else [])
  {
    var closed' := closed + [d];
    assert closed'[..|closed|] == closed;
    forall i | 0 <= i < |closed'| ensures ClosedOk(c, closed'[i]) {
      assert i < |closed| ==> ClosedOk(c, closed[i]);
    }
  }

  lemma SoundRest(l: Limits, bs: seq<Batch>)
    requires bs != [] && Sound(l, bs)
    ensures Sound(l, bs[1..]) && bs[0] != [] && Fits(l, bs[0]) && Flatten(bs) == bs[0] + Flatten(bs[1..])
  {
    FlattenFirst(bs);
  }

  lemma TailOfTail(a: Batch, b: Batch, whole: Batch)
    requires IsTail(a + b, whole)
    ensures IsTail(b, whole)
  {
    assert whole[|whole| - |a + b|..][|a|..] == whole[|whole| - |b|..];
  }

  /** A transport call for a batch that leaves the same events live. */
  lemma SendingOk(c: Config, jobs: seq<Job>, i: nat, j': Job)
    requires Turn(jobs, i) && JobOk(c, jobs[i]) && !jobs[i].phase.Waiting? && !Over(jobs[i])
    requires j' == jobs[i].(phase := j'.phase) && (j'.phase.Sending? || j'.phase.BackingOff?)
    requires LiveOf(j') == LiveOf(jobs[i]) && j'.phase.batch != [] && Fits(c.limits, j'.phase.batch)
    requires Sound(c.limits, j'.phase.unsent)
    requires if j'.phase.Sending? then j'.phase.attempt <= c.maxRetries else j'.phase.attempt < c.maxRetries
    ensures MovesJob(c, jobs, i, j')
  {}

  /** Starting the next batch releases its reservation and leaves the same events live. */
  lemma NextBatch(c: Config, j: Job)
    requires JobOk(c, j) && j.phase.Ready?
    ensures var b, unsent := j.phase.unsent[0], j.phase.unsent[1..];
            var j' := j.(phase := Sending(b, 0, unsent));
            && LiveOf(j') == LiveOf(j) && b != [] && Fits(c.limits, b) && Sound(c.limits, unsent)
            && |ReservedOf(j)| == |ReservedOf(j')| + (if j.active.Some? || j.phase.started then |b| else 0)
  {
    hide Flatten, AllAlone, AllFit, AllNonEmpty, Fits, IsTail;
    SoundRest(c.limits, j.phase.unsent);
    var j' := j.(phase := Sending(j.phase.unsent[0], 0, j.phase.unsent[1..]));
    assert LiveOf(j') == LiveOf(j);
  }

  lemma StartBatchMoves(c: Config, s: State, i: nat)
    requires Acts(c, s, i) && s.jobs[i].phase.Ready? && s.jobs[i].phase.unsent != []
    ensures Moves(c, s, StartBatch(c, s, i), i)
  {
    NextBatch(c, s.jobs[i]);
    SendingOk(c, s.jobs, i, s.jobs[i].(phase := Sending(s.jobs[i].phase.unsent[0], 0, s.jobs[i].phase.unsent[1..])));
    hide JobOk, MovesJob, Turn, Sound, LiveOf, ReservedOf, HistoryOk, LinkOk, DropBatch, Done, BodySize;
  }

  lemma RetryMoves(c: Config, s: State, i: nat)
    requires Acts(c, s, i) && s.jobs[i].phase.BackingOff?
    ensures Moves(c, s, RetryFires(c, s, i), i)
  {
    hide Sound, IsTail, AllAlone, HistoryOk, LinkOk, DropBatch, Done, BodySize, Flatten;
    SendingOk(c, s.jobs, i, RetryFires(c, s, i).jobs[i]);
  }

  lemma BackOffMoves(c: Config, s: State, i: nat, timers: Timers)
    requires Acts(c, s, i) && s.jobs[i].phase.Sending? && s.jobs[i].phase.attempt < c.maxRetries && !timers.Throwing?
    ensures Moves(c, s, TransportRefuses(c, s, i, timers), i)
  {
    hide Sound, IsTail, AllAlone, HistoryOk, LinkOk, DropBatch, Done, BodySize, Flatten;
    SendingOk(c, s.jobs, i, TransportRefuses(c, s, i, timers).jobs[i]);
  }

  /** The outcome of the batch on the wire leaves the rest of the snapshot to send. */
  lemma RestRemains(c: Config, i: nat, j: Job)
    requires JobOk(c, j) && j.phase.Sending?
    ensures var n, unsent := |j.phase.batch|, j.phase.unsent;
            && Remaining(c, j.(sent := j.sent + n), unsent)
            && Remaining(c, j.(ok := false, dropped := j.dropped + n), unsent)
            && LiveOf(j) == j.phase.batch + Flatten(unsent) && ReservedOf(j) == Flatten(unsent)
    ensures ClosedOk(c, Closing(i, j.phase.batch, j.phase.attempt + 1, Sent))
    ensures ClosedOk(c, Closing(i, j.phase.batch, j.phase.attempt + 1, Dropped))
  {
    TailOfTail(j.phase.batch, Flatten(j.phase.unsent), j.pending);
  }

  lemma AcceptMoves(c: Config, s: State, i: nat)
    requires Acts(c, s, i) && s.jobs[i].phase.Sending?
    ensures Moves(c, s, TransportAccepts(s, i), i)
  {
    hide Flatten, Done, Fated, JobOk, VerdictOk, LinkOk, Turn, MovesJob, Remaining, HistoryOk, ClosedOk, LiveOf,
        ReservedOf;
    var j := s.jobs[i];
    var Sending(b, attempt, unsent) := j.phase;
    RestRemains(c, i, j);
    CloseKeepsHistory(c, s.closed, s.stats.sent, s.lost, Closing(i, b, attempt + 1, Sent));
    AdvancedOk(c, s.jobs, i, j.(sent := j.sent + |b|), unsent, true);
    Reassociate(Done(s.closed), b, Flatten(unsent));
  }

  lemma DropMoves(c: Config, s: State, i: nat)
    requires Acts(c, s, i) && s.jobs[i].phase.Sending?
    ensures var Sending(b, attempt, unsent) := s.jobs[i].phase; Moves(c, s, DropBatch(s, i, b, attempt + 1, unsent), i)
  {
    hide Flatten, Done, Fated, JobOk, VerdictOk, LinkOk, Turn, MovesJob, Remaining, HistoryOk, ClosedOk, LiveOf,
        ReservedOf;
    var j := s.jobs[i];
    var Sending(b, attempt, unsent) := j.phase;
    RestRemains(c, i, j);
    CloseKeepsHistory(c, s.closed, s.stats.sent, s.lost, Closing(i, b, attempt + 1, Dropped));
    AdvancedOk(c, s.jobs, i, j.(ok := false, dropped := j.dropped + |b|), unsent, true);
    Reassociate(Done(s.closed), b, Flatten(unsent));
  }

  lemma Reassociate(a: Batch, b: Batch, d: Batch)
    ensures (a + b) + d == a + (b + d)
  {}

  lemma {:induction false} AbandonKeepsHistory(c: Config, closed: seq<Closing>, sent: nat, lost: nat, i: nat,
                                               unsent: seq<Batch>)
    requires HistoryOk(c, closed, sent, lost) && Sound(c.limits, unsent)
    ensures HistoryOk(c, closed + Abandoned(i, unsent), sent, lost + |Flatten(unsent)|)
    ensures Done(closed + Abandoned(i, unsent)) == Done(closed) + Flatten(unsent)
    ensures Fated(closed + Abandoned(i, unsent), Dropped) == Fated(closed, Dropped)
    decreases |unsent|
  {
    hide Fated, Done, HistoryOk, BodySize;
    if unsent == [] {
      assert closed + Abandoned(i, unsent) == closed;
    } else {
      var front, b := unsent[..|unsent| - 1], unsent[|unsent| - 1];
      assert Fits(c.limits, b);
      AbandonKeepsHistory(c, closed, sent, lost, i, front);
      CloseKeepsHistory(c, closed + Abandoned(i, front), sent, lost + |Flatten(front)|, Closing(i, b, 0, Lost));
      assert closed + Abandoned(i, unsent) == closed + Abandoned(i, front) + [Closing(i, b, 0, Lost)];
    }
  }

  lemma AbandonMoves(c: Config, s: State, i: nat)
    requires Acts(c, s, i) && s.jobs[i].phase.Sending? && s.jobs[i].phase.attempt < c.maxRetries
    ensures Moves(c, s, TransportRefuses(c, s, i, Throwing), i)
  {
    hide AllAlone, Sound, Flatten, All, Done, Fated, Fits, BodySize, HistoryOk, Abandoned;
    var Sending(b, attempt, unsent) := s.jobs[i].phase;
    var closing := Closing(i, b, attempt + 1, Lost);
    CloseKeepsHistory(c, s.closed, s.stats.sent, s.lost, closing);
    AbandonKeepsHistory(c, s.closed + [closing], s.stats.sent, s.lost + |b|, i, unsent);
    var j' := TransportRefuses(c, s, i, Throwing).jobs[i];
    assert LiveOf(j') == [];
    assert MovesJob(c, s.jobs, i, j');
    Reassociate(Done(s.closed), b, Flatten(unsent));
  }

  lemma RefuseMoves(c: Config, s: State, i: nat, timers: Timers)
    requires Acts(c, s, i) && s.jobs[i].phase.Sending?
    ensures Moves(c, s, TransportRefuses(c, s, i, timers), i)
  {
    hide Moves, DropBatch, JobOk, HistoryOk;
    if s.jobs[i].phase.attempt >= c.maxRetries {
      DropMoves(c, s, i);
    } else if timers.Throwing? {
      AbandonMoves(c, s, i);
    } else {
      BackOffMoves(c, s, i, timers);
    }
  }

  // ---------------------------------------------------------------- flushing, capturing, settling

  lemma AllAppend(jobs: seq<Job>, j: Job)
    ensures forall p :: All(p, jobs + [j]) == All(p, jobs) + PartOf(p, j)
  {
    assert (jobs + [j])[..|jobs|] == jobs;
  }

  lemma AllSettled(jobs: seq<Job>)
    requires forall k :: 0 <= k < |jobs| ==> jobs[k].phase.Settled?
    ensures forall p :: All(p, jobs) == []
  {
    forall p ensures All(p, jobs) == [] {
      AllNone(p, jobs);
    }
  }

  /** While no flush is active every job has settled. */
  lemma IdleIsSettled(jobs: seq<Job>)
    requires InTurn(jobs) && LastUnsettled(jobs) == None
    ensures forall k :: 0 <= k < |jobs| ==> jobs[k].phase.Settled?
  {
    if jobs != [] {
      var last := jobs[|jobs| - 1];
      forall k | 0 <= k < |jobs| ensures jobs[k].phase.Settled? {
        assert k < |jobs| - 1 && !jobs[k].phase.Settled? ==> last.phase.Waiting?;
      }
    }
  }

  lemma AppendKeepsJobs(c: Config, jobs: seq<Job>, j: Job)
    requires JobsOk(c, jobs) && InTurn(jobs)
    requires j.active == LastUnsettled(jobs) && JobOk(c, j) && !Over(j) && (j.active.Some? ==> j.phase.Waiting?)
    ensures JobsOk(c, jobs + [j]) && InTurn(jobs + [j]) && LastUnsettled(jobs + [j]) == Some(|jobs|)
  {
    hide JobOk;
    AppendKeepsTurns(jobs, j);
    var jobs' := jobs + [j];
    forall k | 0 <= k < |jobs'| ensures JobOk(c, jobs'[k]) && VerdictOk(jobs', k) && LinkOk(jobs', k) {
      assert k < |jobs| ==> LinkOk(jobs, k) && JobOk(c, jobs[k]) && VerdictOk(jobs, k);
    }
  }

  lemma AppendKeepsTurns(jobs: seq<Job>, j: Job)
    requires InTurn(jobs) && j.active == LastUnsettled(jobs) && (j.active.Some? ==> j.phase.Waiting?)
    ensures InTurn(jobs + [j])
  {
    if j.active == None {
      IdleIsSettled(jobs);
    }
  }

  lemma TakenTrail(s: State, s': State, j: Job)
    requires s'.jobs == s.jobs + [j] && s'.closed == s.closed && s'.queue == []
    requires LiveOf(j) == s.queue && InFlightOf(j) == []
    ensures Trail(s') == Trail(s) && Live(s') == Live(s)
    ensures |All(Reserved, s'.jobs)| == |All(Reserved, s.jobs)| + |ReservedOf(j)|
  {
    hide All, Done;
    AllAppend(s.jobs, j);
    assert PartOf(Flying, j) == [] && PartOf(Queued, j) == s.queue && PartOf(Reserved, j) == ReservedOf(j);
    assert All(Flying, s'.jobs) == All(Flying, s.jobs) && All(Queued, s'.jobs) == All(Queued, s.jobs) + s.queue;
  }

  /** A flush moves the queue to the end of the backlog and changes nothing else about the events. */
  lemma TakenKeepsInv(c: Config, s: State, s': State, j: Job)
    requires Inv(c, s) && s.queue != [] && s'.jobs == s.jobs + [j]
    requires s' == s.(timer := false, queue := [], jobs := s'.jobs, flushPromise := Some(|s.jobs|),
                      reservedCount := s'.reservedCount)
    requires j.active == s.flushPromise && JobOk(c, j) && !Over(j) && (j.active.Some? ==> j.phase.Waiting?)
    requires LiveOf(j) == s.queue && InFlightOf(j) == [] && s'.reservedCount == s.reservedCount + |ReservedOf(j)|
    requires |ReservedOf(j)| <= |s.queue|
    ensures Inv(c, s') && Trail(s') == Trail(s)
  {
    hide Flatten, All, Done, Fits, BodySize, Increasing, Below, JobOk, VerdictOk, JobsOk, InTurn, HistoryOk;
    AppendKeepsJobs(c, s.jobs, j);
    TakenTrail(s, s', j);
  }

  lemma ChainedFlushKeepsInv(c: Config, s: State)
    requires ValidConfig(c) && Inv(c, s) && s.queue != [] && s.flushPromise.Some?
    ensures Inv(c, Flush(c, s)) && Trail(Flush(c, s)) == Trail(s)
  {
    hide AllAlone, Flatten, All, Done, Fits, BodySize, Increasing, Below;
    var j := Job(s.flushPromise, s.queue, Waiting, true, 0, 0, 0);
    assert LiveOf(j) == s.queue;
    TakenKeepsInv(c, s, Flush(c, s), j);
  }

  lemma GroupedJobOk(c: Config, pending: Batch)
    requires ValidConfig(c) && pending != [] && AllAlone(c.limits, pending)
    ensures var g := MakeBatches(c.limits, pending);
            var j := Job(None, pending, Ready(g.batches, false), true, 0, 0, 0);
            && g.rejected == 0 && g.batches != [] && JobOk(c, j) && LiveOf(j) == pending
            && ReservedOf(j) == Flatten(g.batches[1..]) && |ReservedOf(j)| <= |pending|
  {
    hide Flatten, MakeBatches, AllAlone, Fits, AllFit, AllNonEmpty, Sound;
    GroupedOk(c, pending);
    var batches := MakeBatches(c.limits, pending).batches;
    SoundRest(c.limits, batches);
    assert LiveOf(Job(None, pending, Ready(batches, false), true, 0, 0, 0)) == pending;
  }

  lemma IdleFlushKeepsInv(c: Config, s: State)
    requires ValidConfig(c) && Inv(c, s) && s.queue != [] && s.flushPromise == None
    ensures Inv(c, Flush(c, s)) && Trail(Flush(c, s)) == Trail(s)
  {
    hide Flatten, All, Done, Fits, BodySize, Increasing, Below, JobOk, VerdictOk, JobsOk, InTurn, HistoryOk;
    hide AllAlone, LiveOf, ReservedOf;
    GroupedJobOk(c, s.queue);
    var j := Job(None, s.queue, Ready(MakeBatches(c.limits, s.queue).batches, false), true, 0, 0, 0);
    assert Flush(c, s).jobs == s.jobs + [j];
    TakenKeepsInv(c, s, Flush(c, s), j);
  }

  lemma FlushKeepsInv(c: Config, s: State)
    requires ValidConfig(c) && Inv(c, s)
    ensures Inv(c, Flush(c, s)) && Trail(Flush(c, s)) == Trail(s) && Moving(s) <= Moving(Flush(c, s))
  {
    hide Inv, Flush, Moving;
    if s.queue == [] {
      EmptyFlushKeepsInv(c, s);
    } else if s.flushPromise.Some? {
      ChainedFlushKeepsInv(c, s);
    } else {
      IdleFlushKeepsInv(c, s);
    }
    FlushEmptiesQueue(c, s);
    assert Trail(Flush(c, s)) == Moving(Flush(c, s));
  }

  lemma EmptyFlushKeepsInv(c: Config, s: State)
    requires Inv(c, s) && s.queue == []
    ensures Inv(c, Flush(c, s)) && Trail(Flush(c, s)) == Trail(s)
  {
    hide All, Done, Fated, JobsOk, HistoryOk, Increasing, Below, MakeBatches;
    assert Moving(Flush(c, s)) == Moving(s);
  }

  lemma FlushEmptiesQueue(c: Config, s: State)
    ensures Flush(c, s).queue == []
  {
    hide MakeBatches, Flatten, Advanced;
  }

  lemma ScheduleKeepsInv(c: Config, s: State, timers: Timers)
    requires ValidConfig(c) && Inv(c, s)
    ensures Inv(c, ScheduleFlush(c, s, timers)) && Moving(s) <= Moving(ScheduleFlush(c, s, timers))
  {
    hide Inv, Flush, All, Done;
    if !s.stopped {
      TimerKeepsInv(c, s);
    }
    FlushKeepsInv(c, s);
  }

  lemma TimerKeepsInv(c: Config, s: State)
    requires Inv(c, s) && !s.stopped
    ensures Inv(c, s.(timer := true)) && Moving(s.(timer := true)) == Moving(s)
  {
    hide All, Done, Fated, JobsOk, HistoryOk, Increasing, Below;
    assert Trail(s.(timer := true)) == Trail(s);
  }

  lemma EnqueueKeepsInv(c: Config, s: State, e: Event, now: int)
    requires ValidConfig(c) && !s.stopped && FitsAlone(c.limits, e)
    requires Inv(c, s.(attempts := e.id)) && s.attempts == e.id + 1
    requires |s.sentAt| < c.maxEventsPerMinute && Budget.Sorted(s.sentAt + [now])
    ensures var (q, queued) := Enqueue(c, s, e);
            && Inv(c, q) && (queued ==> Inv(c, q.(sentAt := q.sentAt + [now])))
            && Moving(q) == Moving(s) && Moving(q.(sentAt := q.sentAt + [now])) == Moving(s)
  {
    hide Flatten, All, Done, Fits, BodySize, JobsOk, HistoryOk;
    var (q, queued) := Enqueue(c, s, e);
    var moving := Done(s.closed) + All(Flying, s.jobs) + All(Queued, s.jobs);
    EnqueueKeepsOrder(moving, s.queue, e);
    assert Trail(s) == moving + s.queue && Trail(q) == moving + q.queue;
  }

  lemma EnqueueKeepsOrder(moving: Batch, queue: Batch, e: Event)
    requires Increasing(moving + queue) && Below(moving + queue, e.id)
    ensures Increasing(moving + (queue + [e])) && Below(moving + (queue + [e]), e.id + 1)
    ensures queue != [] ==> Increasing(moving + (queue[1..] + [e])) && Below(moving + (queue[1..] + [e]), e.id + 1)
  {
    assert moving + (queue + [e]) == (moving + queue) + [e];
    if queue != [] {
      assert moving + queue == (moving + [queue[0]]) + queue[1..];
      DropMiddle(moving, moving + [queue[0]], queue[1..], e.id);
      assert moving + (queue[1..] + [e]) == (moving + queue[1..]) + [e];
    }
  }

  /** A capture that ends in one of the counters. */
  lemma CountedKeepsInv(c: Config, s: State, stats: Stats)
    requires Inv(c, s) && stats.failed <= stats.dropped && stats.sent == s.stats.sent
    requires s.stats.dropped <= stats.dropped
    requires NotQueued(stats) + stats.dropped == NotQueued(s.stats) + s.stats.dropped + 1
    ensures Inv(c, s.(attempts := s.attempts + 1, stats := stats))
  {
    hide All, Done, JobsOk, InTurn, HistoryOk, AllAlone;
    assert Trail(s.(attempts := s.attempts + 1, stats := stats)) == Trail(s);
  }

  lemma AdmitKeepsInv(c: Config, s: State, e: Event, now: int, timers: Timers)
    requires ValidConfig(c) && !s.stopped && FitsAlone(c.limits, e)
    requires Inv(c, s.(attempts := e.id)) && s.attempts == e.id + 1
    requires |s.sentAt| < c.maxEventsPerMinute && Budget.Sorted(s.sentAt + [now])
    ensures Inv(c, Admit(c, s, e, now, timers)) && Moving(s) <= Moving(Admit(c, s, e, now, timers))
  {
    hide Inv, Moving, FitsAlone, Flush, ScheduleFlush;
    EnqueueKeepsInv(c, s, e, now);
    var (q, queued) := Enqueue(c, s, e);
    if queued {
      var stamped := q.(sentAt := q.sentAt + [now]);
      FlushKeepsInv(c, stamped);
      ScheduleKeepsInv(c, stamped, timers);
    }
  }

  lemma StampsKeepInv(c: Config, s: State, now: int)
    requires Inv(c, s)
    ensures var sentAt := Budget.Window(s.sentAt, now);
            Inv(c, s.(sentAt := sentAt)) && Budget.Sorted(sentAt + [now])
  {
    hide All, Done, JobsOk, InTurn, HistoryOk, AllAlone, Increasing, Below;
    Budget.KeepIsSorted(s.sentAt, now - Budget.WINDOW, now);
    assert Trail(s.(sentAt := Budget.Window(s.sentAt, now))) == Trail(s);
  }

  lemma CaptureKeepsInv(c: Config, s: State, candidate: Candidate, timers: Timers)
    requires ValidConfig(c) && Inv(c, s)
    ensures Inv(c, Capture(c, s, candidate, timers)) && Moving(s) <= Moving(Capture(c, s, candidate, timers))
  {
    hide All, Done, FitsAlone, Admit, QueueOk, OrderOk, JobsOk, InTurn, HistoryOk, BudgetOk, Live;
    if !s.stopped {
      var st := s.stats;
      match candidate
      case Sampled => CountedKeepsInv(c, s, st.(sampled := st.sampled + 1));
      case Invalid => CountedKeepsInv(c, s, st.(invalid := st.invalid + 1));
      case Suppressed => CountedKeepsInv(c, s, st.(suppressed := st.suppressed + 1));
      case Captured(size, now) =>
        var e := Event(s.attempts, size);
        StampsKeepInv(c, s, now);
        var kept := s.(sentAt := Budget.Window(s.sentAt, now));
        if !FitsAlone(c.limits, e) {
          CountedKeepsInv(c, s, st.(failed := st.failed + 1, dropped := st.dropped + 1));
        } else if |kept.sentAt| >= c.maxEventsPerMinute {
          CountedKeepsInv(c, kept, st.(throttled := st.throttled + 1));
        } else {
          assert kept == kept.(attempts := s.attempts + 1).(attempts := e.id);
          AdmitKeepsInv(c, kept.(attempts := s.attempts + 1), e, now, timers);
        }
    }
  }

  lemma SettleJobs(c: Config, jobs: seq<Job>, i: nat, j': Job)
    requires JobsOk(c, jobs) && Turn(jobs, i) && jobs[i].phase.Delivered?
    requires j' == jobs[i].(phase := Settled(jobs[i].phase.outcome))
    ensures JobsOk(c, jobs[i := j']) && InTurn(jobs[i := j'])
    ensures LastUnsettled(jobs[i := j']) == if i == |jobs| - 1 then None else LastUnsettled(jobs)
    ensures forall p :: All(p, jobs[i := j']) == All(p, jobs)
  {
    hide IsTail, AllAlone, Sound, Flatten, All, Done, Fated, Fits, BodySize;
    var jobs' := jobs[i := j'];
    forall k | 0 <= k < |jobs'| ensures JobOk(c, jobs'[k]) {
      assert JobOk(c, jobs[k]);
    }
    forall k | 0 <= k < |jobs'| ensures LinkOk(jobs', k) {
      assert LinkOk(jobs, k);
    }
    forall k | 0 <= k < |jobs'| ensures VerdictOk(jobs', k) {
      assert LinkOk(jobs, k) && VerdictOk(jobs, k);
    }
    FocusAll(jobs, i, j');
    forall p ensures PartOf(p, jobs[i]) == PartOf(p, j') {}
  }

  lemma SettleKeepsInv(c: Config, s: State, i: nat, timers: Timers)
    requires ValidConfig(c) && Inv(c, s) && i < |s.jobs| && s.jobs[i].phase.Delivered?
    ensures Inv(c, Settle(c, s, i, timers)) && Moving(s) <= Moving(Settle(c, s, i, timers))
  {
    hide Flatten, All, Done, Fits, BodySize, JobsOk, HistoryOk, AllAlone, Increasing, Below, Flush, FitsAlone;
    TurnOf(s.jobs, i);
    var j := s.jobs[i];
    var j' := j.(phase := Settled(j.phase.outcome));
    SettleJobs(c, s.jobs, i, j');
    var idle := s.flushPromise == Some(i);
    var done := Put(s, i, j').(flushPromise := if idle then None else s.flushPromise);
    assert Trail(done) == Trail(s);
    assert Inv(c, done);
    FlushKeepsInv(c, done);
    ScheduleKeepsInv(c, done, timers);
  }

  lemma DestroyIsFlush(c: Config, s: State)
    ensures Destroy(c, s) == Flush(c, s).(stopped := true)
    ensures Flush(c, s).queue == [] && !Flush(c, s).timer
  {
    hide MakeBatches, Flatten, Advanced;
  }

  lemma DestroyKeepsInv(c: Config, s: State)
    requires ValidConfig(c) && Inv(c, s)
    ensures Inv(c, Destroy(c, s)) && Destroy(c, s) == Flush(c, s).(stopped := true)
    ensures Moving(s) <= Moving(Destroy(c, s))
  {
    hide JobsOk, InTurn, HistoryOk, AllAlone, Increasing, Below, All, Done, Flush, Destroy;
    FlushKeepsInv(c, s);
    DestroyIsFlush(c, s);
    assert Moving(Destroy(c, s)) == Moving(Flush(c, s));
    assert Trail(Destroy(c, s)) == Trail(Flush(c, s));
  }

  // ---------------------------------------------------------------- every run

  /** A step of one delivery. */
  lemma DeliveryKeepsInv(c: Config, s: State, step: Step)
    requires ValidConfig(c) && Inv(c, s)
    requires step.SnapshotStarts? || step.BatchStarts? || step.Accepts? || step.Refuses? || step.RetryStarts?
    ensures Inv(c, Apply(c, s, step)) && Moving(Apply(c, s, step)) == Moving(s)
  {
    hide Inv, Moving, SendPending, StartBatch, TransportAccepts, TransportRefuses, RetryFires;
    hide Moves, Acts;
    match step
    case SnapshotStarts(i) =>
      if i < |s.jobs| && Released(s.jobs, s.jobs[i]) {
        ActsOf(c, s, i);
        SnapshotMoves(c, s, i);
        MoveKeepsInv(c, s, SendPending(c, s, i), i);
      }
    case BatchStarts(i) =>
      if i < |s.jobs| && s.jobs[i].phase.Ready? && s.jobs[i].phase.unsent != [] {
        ActsOf(c, s, i);
        StartBatchMoves(c, s, i);
        MoveKeepsInv(c, s, StartBatch(c, s, i), i);
      }
    case Accepts(i) =>
      if i < |s.jobs| && s.jobs[i].phase.Sending? {
        ActsOf(c, s, i);
        AcceptMoves(c, s, i);
        MoveKeepsInv(c, s, TransportAccepts(s, i), i);
      }
    case Refuses(i, timers) =>
      if i < |s.jobs| && s.jobs[i].phase.Sending? {
        ActsOf(c, s, i);
        RefuseMoves(c, s, i, timers);
        MoveKeepsInv(c, s, TransportRefuses(c, s, i, timers), i);
      }
    case RetryStarts(i) =>
      if i < |s.jobs| && s.jobs[i].phase.BackingOff? {
        ActsOf(c, s, i);
        RetryMoves(c, s, i);
        MoveKeepsInv(c, s, RetryFires(c, s, i), i);
      }
    case _ =>
  }

  lemma StepKeepsInv(c: Config, s: State, step: Step)
    requires ValidConfig(c) && Inv(c, s)
    ensures Inv(c, Apply(c, s, step)) && Moving(s) <= Moving(Apply(c, s, step))
  {
    hide Inv, Moving, SendPending, StartBatch, TransportAccepts, TransportRefuses, RetryFires, Settle, Flush, Capture;
    match step
    case CaptureCall(candidate, timers) => CaptureKeepsInv(c, s, candidate, timers);
    case FlushCall => FlushKeepsInv(c, s);
    case TimerFires => FlushKeepsInv(c, s);
    case Settles(i, timers) =>
      if i < |s.jobs| && s.jobs[i].phase.Delivered? {
        SettleKeepsInv(c, s, i, timers);
      }
    case DestroyCall => DestroyKeepsInv(c, s);
    case _ => DeliveryKeepsInv(c, s, step);
  }

  /** Along every run the invariant holds, and the events that a flush has taken stay taken, in their order. */
  lemma {:induction false} RunKeepsInv(c: Config, s: State, steps: seq<Step>)
    requires ValidConfig(c) && Inv(c, s)
    ensures Inv(c, Run(c, s, steps)) && Moving(s) <= Moving(Run(c, s, steps))
    decreases |steps|
  {
    hide Inv, Moving, Apply;
    if steps == [] {
    } else {
      RunKeepsInv(c, s, steps[..|steps| - 1]);
      StepKeepsInv(c, Run(c, s, steps[..|steps| - 1]), steps[|steps| - 1]);
    }
  }

  lemma InitialInv(c: Config)
    ensures Inv(c, INITIAL)
  {
    hide JobsOk, InTurn, QueueOk, Balanced, OrderOk, HistoryOk, BudgetOk, LastUnsettled;
    InitialJobs(c);
    InitialBooks(c, INITIAL);
    InitialHistory(c, INITIAL);
  }

  lemma InitialJobs(c: Config)
    ensures JobsOk(c, INITIAL.jobs) && InTurn(INITIAL.jobs) && INITIAL.flushPromise == LastUnsettled(INITIAL.jobs)
  {}

  predicate Unused(s: State) {
    && |s.queue| == |s.jobs| == |s.closed| == |s.sentAt| == 0 && !s.timer
    && s.reservedCount == s.attempts == s.lost == s.leaked == 0 && s.stats == Stats(0, 0, 0, 0, 0, 0, 0, 0, 0)
  }

  lemma InitialBooks(c: Config, s: State)
    requires Unused(s)
    ensures QueueOk(c, s) && Balanced(s)
  {
    hide All, Fated, FitsAlone;
    AllNone(Flying, s.jobs);
    AllNone(Queued, s.jobs);
    AllNone(Reserved, s.jobs);
    NoneFated(s.closed, Dropped);
  }

  lemma InitialHistory(c: Config, s: State)
    requires Unused(s)
    ensures OrderOk(s) && BudgetOk(c, s.sentAt) && HistoryOk(c, s.closed, s.stats.sent, s.lost)
  {
    hide All, Fated, ClosedOk;
    AllNone(Flying, s.jobs);
    AllNone(Queued, s.jobs);
    NoneFated(s.closed, Sent);
    NoneFated(s.closed, Lost);
  }

  lemma NoneFated(closed: seq<Closing>, fate: Fate)
    requires |closed| == 0
    ensures Fated(closed, fate) == [] && Done(closed) == []
  {}
}
