/**
 The token-bucket limiter with a bounded, swept map and one shared overflow bucket.

 Times are integer nanoseconds. One token is UNIT parts, so a bucket gains exactly `perMinute` parts in
 each nanosecond and every quantity is an integer. Clients are compared only for equality.
 */
module RateLimiter {
  import opened MinMax
  import opened Options

  const SECOND := 1_000_000_000
  const MINUTE := 60 * SECOND
  const TTL := 10 * MINUTE
  const UNIT := MINUTE
  const DEFAULT_PER_MINUTE := 120
  const DEFAULT_BURST := 30
  const MAX_CLIENTS: nat := 10_000
  const RETRY_NEVER := -1

  type Identity = nat

  datatype Config = Config(perMinute: int, burst: int, maxClients: nat)
  datatype Bucket = Bucket(tokens: int, updated: int, lastSeen: int)
  datatype State = State(buckets: map<Identity, Bucket>, overflow: Option<Bucket>, lastSweep: Option<int>)
  datatype Answer = Answer(allowed: bool, retry: int)
  datatype Request = Request(client: Identity, tokens: int, now: int)

  const EMPTY := State(map[], None, None)

  predicate Valid(c: Config) {
    c.perMinute > 0 && c.burst > 0
  }

  function CeilDiv(a: int, b: int): int
    requires b > 0
  {
    (a + b - 1) / b
  }

  function Full(c: Config): int {
    c.burst * UNIT
  }

  // ---------------------------------------------------------------- one call

  function Fresh(c: Config, now: int): Bucket {
    Bucket(Full(c), now, now)
  }

  function Refill(c: Config, b: Bucket, now: int): Bucket {
    if now - b.updated > 0
    then Bucket(Min(Full(c), b.tokens + (now - b.updated) * c.perMinute), now, now)
    else b.(lastSeen := now)
  }

  /** Takes `tokens` from one bucket (None stands for a client that has none yet). */
  function Spend(c: Config, found: Option<Bucket>, tokens: int, now: int): (result: (Bucket, Answer))
    requires Valid(c)
  {
    var b := Refill(c, if found.Some? then found.value else Fresh(c, now), now);
    if b.tokens >= tokens * UNIT
    then (b.(tokens := b.tokens - tokens * UNIT), Answer(true, 0))
    else (b, Answer(false, CeilDiv(tokens * UNIT - b.tokens, c.perMinute)))
  }

  predicate Expired(b: Bucket, now: int) {
    now - b.lastSeen >= TTL
  }

  predicate SweepDue(s: State, now: int) {
    s.lastSweep == None || now - s.lastSweep.value >= MINUTE
  }

  function Sweep(s: State, now: int): State {
    if SweepDue(s, now)
    then s.(buckets := map k | k in s.buckets && !Expired(s.buckets[k], now) :: s.buckets[k], lastSweep := Some(now))
    else s
  }

  predicate UsesOverflow(c: Config, s: State, client: Identity) {
    client !in s.buckets && |s.buckets| >= c.maxClients
  }

  function Lookup(c: Config, s: State, client: Identity): Option<Bucket> {
    if UsesOverflow(c, s, client) then s.overflow
    else if client in s.buckets then Some(s.buckets[client])
    else None
  }

  function Store(c: Config, s: State, client: Identity, b: Bucket): State {
    if UsesOverflow(c, s, client) then s.(overflow := Some(b)) else s.(buckets := s.buckets[client := b])
  }

  predicate Weighed(c: Config, r: Request) {
    0 < r.tokens <= c.burst
  }

  /** The whole of one call: early answers, the sweep when due, then one bucket. */
  function AllowN(c: Config, s: State, r: Request): (result: (State, Answer))
    requires Valid(c)
  {
    if r.tokens <= 0 then (s, Answer(true, 0))
    else if r.tokens > c.burst then (s, Answer(false, RETRY_NEVER))
    else
      var swept := Sweep(s, r.now);
      var (b, answer) := Spend(c, Lookup(c, swept, r.client), r.tokens, r.now);
      (Store(c, swept, r.client, b), answer)
  }

  // ---------------------------------------------------------------- runs

  function After(c: Config, s: State, rs: seq<Request>): State
    requires Valid(c)
  {
    if rs == [] then s else AllowN(c, After(c, s, rs[..|rs| - 1]), rs[|rs| - 1]).0
  }

  /** The answer to the last request of a non-empty run. */
  function LastAnswer(c: Config, s: State, rs: seq<Request>): Answer
    requires Valid(c) && rs != []
  {
    AllowN(c, After(c, s, rs[..|rs| - 1]), rs[|rs| - 1]).1
  }

  function GrantOf(r: Request, answer: Answer): int {
    if r.tokens > 0 && answer.allowed then r.tokens else 0
  }

  function Granted(c: Config, s: State, rs: seq<Request>): int
    requires Valid(c)
  {
    if rs == [] then 0
    else
      Granted(c, s, rs[..|rs| - 1]) + GrantOf(rs[|rs| - 1], LastAnswer(c, s, rs))
  }

  predicate NonDecreasing(t: int, rs: seq<Request>) {
    rs == [] ||
    (NonDecreasing(t, rs[..|rs| - 1]) && Clock(t, rs[..|rs| - 1]) <= rs[|rs| - 1].now)
  }

  /** The time of the last request, or the starting time. */
  function Clock(t: int, rs: seq<Request>): int {
    if rs == [] then t else rs[|rs| - 1].now
  }

  lemma {:induction false} AfterConcat(c: Config, s: State, a: seq<Request>, b: seq<Request>)
    requires Valid(c)
    ensures After(c, s, a + b) == After(c, After(c, s, a), b)
    ensures Granted(c, s, a + b) == Granted(c, s, a) + Granted(c, After(c, s, a), b)
    decreases |b|
  {
    if b == [] {
      assert a + b == a;
    } else {
      assert (a + b)[..|a + b| - 1] == a + b[..|b| - 1];
      AfterConcat(c, s, a, b[..|b| - 1]);
    }
  }

  // ---------------------------------------------------------------- the map bound, for any clock

  lemma {:induction false} MapNeverExceedsMaximum(c: Config, s: State, rs: seq<Request>)
    requires Valid(c) && |s.buckets| <= c.maxClients
    ensures |After(c, s, rs).buckets| <= c.maxClients
    decreases |rs|
  {
    if rs == [] {
    } else {
      var before := After(c, s, rs[..|rs| - 1]);
      MapNeverExceedsMaximum(c, s, rs[..|rs| - 1]);
      var swept := Sweep(before, rs[|rs| - 1].now);
      assert swept.buckets.Keys <= before.buckets.Keys;
      SubsetSize(swept.buckets.Keys, before.buckets.Keys);
      assert |swept.buckets.Keys| == |swept.buckets| && |before.buckets.Keys| == |before.buckets|;
    }
  }

  lemma {:induction false} SubsetSize(a: set<Identity>, b: set<Identity>)
    requires a <= b
    ensures |a| <= |b|
  {
    assert b == a + (b - a);
  }

  // ---------------------------------------------------------------- state kept under a clock that never steps back

  predicate GoodBucket(c: Config, b: Bucket, t: int) {
    0 <= b.tokens <= Full(c) && b.updated == b.lastSeen <= t
  }

  predicate Good(c: Config, s: State, t: int) {
    && |s.buckets| <= c.maxClients
    && (forall k :: k in s.buckets ==> GoodBucket(c, s.buckets[k], t))
    && (s.overflow.Some? ==> GoodBucket(c, s.overflow.value, t))
  }

  lemma SpendKeepsGood(c: Config, found: Option<Bucket>, tokens: int, t: int, now: int)
    requires Valid(c) && 0 < tokens <= c.burst && t <= now
    requires found.Some? ==> GoodBucket(c, found.value, t)
    ensures GoodBucket(c, Spend(c, found, tokens, now).0, now)
  {
    if found.Some? && now > found.value.updated {
      Product(now - found.value.updated, c.perMinute);
    }
  }

  lemma Product(a: int, b: int)
    requires a >= 0 && b >= 0
    ensures a * b >= 0
  {}

  lemma SweepKeepsGood(c: Config, s: State, t: int, now: int)
    requires Good(c, s, t) && t <= now
    ensures Good(c, Sweep(s, now), now)
  {
    SubsetSize(Sweep(s, now).buckets.Keys, s.buckets.Keys);
    assert |Sweep(s, now).buckets.Keys| == |Sweep(s, now).buckets| && |s.buckets.Keys| == |s.buckets|;
  }

  lemma StepKeepsGood(c: Config, s: State, r: Request, t: int)
    requires Valid(c) && Good(c, s, t) && t <= r.now
    ensures Good(c, AllowN(c, s, r).0, r.now)
  {
    if Weighed(c, r) {
      var swept := Sweep(s, r.now);
      SweepKeepsGood(c, s, t, r.now);
      SpendKeepsGood(c, Lookup(c, swept, r.client), r.tokens, r.now, r.now);
    }
  }

  lemma {:induction false} RunKeepsGood(c: Config, s: State, rs: seq<Request>, t: int)
    requires Valid(c) && Good(c, s, t) && NonDecreasing(t, rs)
    ensures Good(c, After(c, s, rs), Clock(t, rs))
    decreases |rs|
  {
    if rs == [] {
    } else {
      RunKeepsGood(c, s, rs[..|rs| - 1], t);
      StepKeepsGood(c, After(c, s, rs[..|rs| - 1]), rs[|rs| - 1], Clock(t, rs[..|rs| - 1]));
    }
  }

  lemma Times(a: int, b: int, k: int)
    requires a <= b && k >= 0
    ensures a * k <= b * k
  {}
}
