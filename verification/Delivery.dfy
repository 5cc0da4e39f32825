/**
 The delivery machine of the browser client: a bounded queue, snapshots reserved behind an active delivery,
 a chain of flush promises, batches, bounded retries, a flush timer and a hard stop.

 One function per piece of client code that runs without interruption. `Step` lists the pieces the host may
 run next (calls, timer callbacks, promise callbacks); a run is any sequence of steps.
 */
module Delivery {
  import opened Options
  import opened Batching
  import Budget

  datatype Config = Config(limits: Limits, maxQueueSize: nat, maxRetries: nat, maxEventsPerMinute: nat,
                           flushInterval: nat)

  /** What the host's setTimeout does when called: it may be missing, arm a timer, or throw. */
  datatype Timers = Absent | Working | Throwing

  datatype Outcome = Resolved(value: bool) | Rejected

  datatype Phase =
    | Waiting                                                     // chained behind the previous flush
    | Ready(unsent: seq<Batch>, started: bool)                    // the callback of the next batch has not run
    | Sending(batch: Batch, attempt: nat, unsent: seq<Batch>)     // a transport call is outstanding
    | BackingOff(batch: Batch, attempt: nat, unsent: seq<Batch>)  // waiting to repeat a refused batch
    | Delivered(outcome: Outcome)                                 // delivery is over, its finally has not run
    | Settled(outcome: Outcome)

  /**
   One flush that found a non-empty queue. `active` is the flush promise it was chained to. The last three
   fields say what became of the snapshot's events.
   */
  datatype Job = Job(active: Option<nat>, pending: Batch, phase: Phase, ok: bool, sent: nat, dropped: nat, lost: nat)

  datatype Stats = Stats(sent: nat, dropped: nat, failed: nat, batches: nat, retries: nat,
                         sampled: nat, suppressed: nat, throttled: nat, invalid: nat)

  /** What becomes of a batch: accepted, given up, or abandoned because a timer threw. */
  datatype Fate = Sent | Dropped | Lost

  /** A batch that will not be sent again, the flush it belonged to, and how often it went to the transport. */
  datatype Closing = Closing(job: nat, batch: Batch, attempts: nat, fate: Fate)

  /**
   `queue` to `stopped` are the fields of the client, `jobs` its pending promise callbacks. The rest is
   history: captures attempted, batches closed, events abandoned, reservations never released.
   */
  datatype State = State(queue: Batch, reservedCount: int, timer: bool, flushPromise: Option<nat>,
                         sentAt: seq<int>, stats: Stats, stopped: bool, jobs: seq<Job>,
                         attempts: nat, closed: seq<Closing>, lost: nat, leaked: nat)

  datatype Promise = Already(value: bool) | Tracked(job: nat)

  const INITIAL := State([], 0, false, None, [], Stats(0, 0, 0, 0, 0, 0, 0, 0, 0), false, [], 0, [], 0, 0)

  predicate ValidConfig(c: Config) {
    1 <= c.limits.batchSize <= c.maxQueueSize && 1 <= c.maxEventsPerMinute
  }

  // ---------------------------------------------------------------- flushing

  predicate PriorAccepted(jobs: seq<Job>, j: Job) {
    j.active.Some? ==> j.active.value < |jobs| && jobs[j.active.value].phase == Settled(Resolved(true))
  }

  /** The reduce over the batches moves on: to the next callback, or to the end of the delivery. */
  function Advanced(jobs: seq<Job>, j: Job, unsent: seq<Batch>, started: bool): Job {
    j.(phase := if unsent == [] then Delivered(Resolved(j.ok && PriorAccepted(jobs, j))) else Ready(unsent, started))
  }

  function Put(s: State, i: nat, j: Job): State
    requires i < |s.jobs|
  {
    s.(jobs := s.jobs[i := j])
  }

  function CountDropped(s: State, n: nat): State {
    s.(stats := s.stats.(failed := s.stats.failed + n, dropped := s.stats.dropped + n))
  }

  function SendPending(c: Config, s: State, i: nat): State
    requires i < |s.jobs|
  {
    var j := s.jobs[i];
    var g := MakeBatches(c.limits, j.pending);
    var later := if g.batches == [] then 0 else |Flatten(g.batches[1..])|;
    var reserved := if j.active.Some? then s.reservedCount - g.rejected else s.reservedCount + later;
    Put(CountDropped(s, g.rejected).(reservedCount := reserved), i,
        Advanced(s.jobs, j.(ok := g.rejected == 0, dropped := g.rejected), g.batches, false))
  }

  function Flush(c: Config, s: State): State {
    if s.queue == [] then s.(timer := false)
    else
      var i := |s.jobs|;
      var jobs := s.jobs + [Job(s.flushPromise, s.queue, Waiting, true, 0, 0, 0)];
      var taken := s.(timer := false, queue := [], jobs := jobs, flushPromise := Some(i));
      if s.flushPromise.Some? then taken.(reservedCount := s.reservedCount + |s.queue|)
      else SendPending(c, taken, i)
  }

  /** The promise a flush returns, read off the state it leaves. */
  function PromiseOf(s: State): Promise {
    if s.flushPromise.Some? then Tracked(s.flushPromise.value) else Already(true)
  }

  function ScheduleFlush(c: Config, s: State, timers: Timers): State {
    if s.stopped || s.timer || s.queue == [] || c.flushInterval == 0 then s
    else match timers
      case Absent => s
      case Working => s.(timer := true)
      case Throwing => Flush(c, s)
  }

  // ---------------------------------------------------------------- capturing

  /** How a candidate fares before it is measured; `now` is the clock reading, `size` the serialised length. */
  datatype Candidate = Sampled | Invalid | Suppressed | Captured(size: nat, now: int)

  function Enqueue(c: Config, s: State, e: Event): (State, bool) {
    if |s.queue| + s.reservedCount >= c.maxQueueSize then
      var full := s.(stats := s.stats.(dropped := s.stats.dropped + 1));
      if s.queue == [] then (full, false) else (full.(queue := s.queue[1..] + [e]), true)
    else (s.(queue := s.queue + [e]), true)
  }

  /** The part of capture after the size and budget checks; `now` has been found to have room. */
  function Admit(c: Config, s: State, e: Event, now: int, timers: Timers): State {
    var (q, queued) := Enqueue(c, s, e);
    if !queued then q
    else
      var stamped := q.(sentAt := q.sentAt + [now]);
      if |stamped.queue| >= c.limits.batchSize then
        if stamped.flushPromise.Some? then stamped else Flush(c, stamped)
      else ScheduleFlush(c, stamped, timers)
  }

  /** Whether a candidate is queued: the client is running, the event fits alone, and there is budget and room. */
  predicate Takes(c: Config, s: State, candidate: Candidate) {
    && !s.stopped && candidate.Captured? && FitsAlone(c.limits, Event(s.attempts, candidate.size))
    && |Budget.Window(s.sentAt, candidate.now)| < c.maxEventsPerMinute
    && Enqueue(c, s, Event(s.attempts, candidate.size)).1
  }

  function Capture(c: Config, s: State, candidate: Candidate, timers: Timers): State {
    if s.stopped then s
    else
      var t := s.(attempts := s.attempts + 1);
      match candidate
      case Sampled => t.(stats := t.stats.(sampled := t.stats.sampled + 1))
      case Invalid => t.(stats := t.stats.(invalid := t.stats.invalid + 1))
      case Suppressed => t.(stats := t.stats.(suppressed := t.stats.suppressed + 1))
      case Captured(size, now) =>
        var e := Event(s.attempts, size);
        if !FitsAlone(c.limits, e) then CountDropped(t, 1)
        else
          var kept := t.(sentAt := Budget.Window(t.sentAt, now));
          if |kept.sentAt| >= c.maxEventsPerMinute
          then kept.(stats := kept.stats.(throttled := kept.stats.throttled + 1))
          else Admit(c, kept, e, now, timers)
  }

  /** What capture answers: the flush it starts, or whether the event was queued. */
  function CaptureAnswer(c: Config, s: State, candidate: Candidate, timers: Timers): Promise {
    if !Takes(c, s, candidate) then Already(false)
    else
      var queue := Enqueue(c, s, Event(s.attempts, candidate.size)).0.queue;
      if |queue| >= c.limits.batchSize && s.flushPromise == None then PromiseOf(Capture(c, s, candidate, timers))
      else Already(true)
  }

  // ---------------------------------------------------------------- delivering

  function WithClosing(s: State, closing: Closing): State {
    s.(closed := s.closed + [closing])
  }

  /** The batches that are never sent once a delivery is rejected. */
  function Abandoned(i: nat, unsent: seq<Batch>): seq<Closing> {
    seq(|unsent|, k requires 0 <= k < |unsent| => Closing(i, unsent[k], 0, Lost))
  }

  function DropBatch(s: State, i: nat, b: Batch, attempts: nat, unsent: seq<Batch>): State
    requires i < |s.jobs|
  {
    var j := s.jobs[i];
    Put(WithClosing(CountDropped(s, |b|), Closing(i, b, attempts, Dropped)), i,
        Advanced(s.jobs, j.(ok := false, dropped := j.dropped + |b|), unsent, true))
  }

  /** sendBatch up to the transport call. */
  function Transmit(c: Config, s: State, i: nat, b: Batch, attempt: nat, unsent: seq<Batch>): State
    requires i < |s.jobs|
  {
    if BodySize(c.limits, b) > c.limits.maxBatchBytes then DropBatch(s, i, b, attempt, unsent)
    else Put(s, i, s.jobs[i].(phase := Sending(b, attempt, unsent)))
  }

  function StartBatch(c: Config, s: State, i: nat): State
    requires i < |s.jobs| && s.jobs[i].phase.Ready? && s.jobs[i].phase.unsent != []
  {
    var Ready(unsent, started) := s.jobs[i].phase;
    var b := unsent[0];
    var released := if s.jobs[i].active.Some? || started then s.(reservedCount := s.reservedCount - |b|) else s;
    Transmit(c, released, i, b, 0, unsent[1..])
  }

  function TransportAccepts(s: State, i: nat): State
    requires i < |s.jobs| && s.jobs[i].phase.Sending?
  {
    var j := s.jobs[i];
    var Sending(b, attempt, unsent) := j.phase;
    var stats := s.stats.(sent := s.stats.sent + |b|, batches := s.stats.batches + 1);
    Put(WithClosing(s.(stats := stats), Closing(i, b, attempt + 1, Sent)), i,
        Advanced(s.jobs, j.(sent := j.sent + |b|), unsent, true))
  }

  /** The transport answered false, rejected, or threw. A timer that throws here rejects the whole delivery. */
  function TransportRefuses(c: Config, s: State, i: nat, timers: Timers): State
    requires i < |s.jobs| && s.jobs[i].phase.Sending?
  {
    var j := s.jobs[i];
    var Sending(b, attempt, unsent) := j.phase;
    if attempt < c.maxRetries then
      var retried := s.(stats := s.stats.(retries := s.stats.retries + 1));
      if timers.Throwing? then
        var left := |Flatten(unsent)|;
        var closed := s.closed + [Closing(i, b, attempt + 1, Lost)] + Abandoned(i, unsent);
        Put(retried.(closed := closed), i, j.(phase := Delivered(Rejected), lost := j.lost + |b| + left))
          .(lost := s.lost + |b| + left, leaked := s.leaked + left)
      else Put(retried, i, j.(phase := BackingOff(b, attempt, unsent)))
    else DropBatch(s, i, b, attempt + 1, unsent)
  }

  function RetryFires(c: Config, s: State, i: nat): State
    requires i < |s.jobs| && s.jobs[i].phase.BackingOff?
  {
    var BackingOff(b, attempt, unsent) := s.jobs[i].phase;
    Transmit(c, s, i, b, attempt + 1, unsent)
  }

  /** The finally callback of a flush. */
  function Settle(c: Config, s: State, i: nat, timers: Timers): State
    requires i < |s.jobs| && s.jobs[i].phase.Delivered?
  {
    var j := s.jobs[i];
    var done := Put(s, i, j.(phase := Settled(j.phase.outcome)));
    if s.flushPromise != Some(i) then done
    else
      var idle := done.(flushPromise := None);
      if |idle.queue| >= c.limits.batchSize then Flush(c, idle) else ScheduleFlush(c, idle, timers)
  }

  function Destroy(c: Config, s: State): State {
    Flush(c, s.(stopped := true, timer := false))
  }

  // ---------------------------------------------------------------- runs

  datatype Step =
    | CaptureCall(candidate: Candidate, timers: Timers)
    | FlushCall
    | TimerFires
    | SnapshotStarts(i: nat)
    | BatchStarts(i: nat)
    | Accepts(i: nat)
    | Refuses(i: nat, timers: Timers)
    | RetryStarts(i: nat)
    | Settles(i: nat, timers: Timers)
    | DestroyCall

  /** A chained flush starts when the promise it was chained to has settled. */
  predicate Released(jobs: seq<Job>, j: Job) {
    j.phase.Waiting? && j.active.Some? && j.active.value < |jobs| && jobs[j.active.value].phase.Settled?
  }

  function Apply(c: Config, s: State, step: Step): State {
    match step
    case CaptureCall(candidate, timers) => Capture(c, s, candidate, timers)
    case FlushCall => Flush(c, s)
    case TimerFires => if s.timer then Flush(c, s) else s
    case SnapshotStarts(i) => if i < |s.jobs| && Released(s.jobs, s.jobs[i]) then SendPending(c, s, i) else s
    case BatchStarts(i) =>
      if i < |s.jobs| && s.jobs[i].phase.Ready? && s.jobs[i].phase.unsent != [] then StartBatch(c, s, i) else s
    case Accepts(i) => if i < |s.jobs| && s.jobs[i].phase.Sending? then TransportAccepts(s, i) else s
    case Refuses(i, timers) => if i < |s.jobs| && s.jobs[i].phase.Sending? then TransportRefuses(c, s, i, timers) else s
    case RetryStarts(i) => if i < |s.jobs| && s.jobs[i].phase.BackingOff? then RetryFires(c, s, i) else s
    case Settles(i, timers) => if i < |s.jobs| && s.jobs[i].phase.Delivered? then Settle(c, s, i, timers) else s
    case DestroyCall => Destroy(c, s)
  }

  function Run(c: Config, s: State, steps: seq<Step>): State {
    if steps == [] then s else Apply(c, Run(c, s, steps[..|steps| - 1]), steps[|steps| - 1])
  }
}
