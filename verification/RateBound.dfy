/** Over any window the limiter grants a bounded number of tokens to all clients together. */
module RateBound {
  import opened MinMax
  import opened Options
  import opened RateLimiter

  // ---------------------------------------------------------------- the global rate bound

  /** What a bucket would hold at time t. */
  function Level(c: Config, b: Bucket, t: int): int {
    Min(Full(c), b.tokens + (t - b.updated) * c.perMinute)
  }

  /** What a bucket is short of its burst at time t. */
  function Gap(c: Config, b: Bucket, t: int): int {
    Full(c) - Level(c, b, t)
  }

  function Gaps(c: Config, m: map<Identity, Bucket>, t: int): map<Identity, int> {
    map k | k in m :: Gap(c, m[k], t)
  }

  ghost function Sum(m: map<Identity, int>): int
    decreases |m|
  {
    if m == map[] then 0
    else
      var k :| k in m;
      m[k] + Sum(m - {k})
  }

  lemma {:induction false} SumWithout(m: map<Identity, int>, k: Identity)
    requires k in m
    ensures Sum(m) == m[k] + Sum(m - {k})
    decreases |m|
  {
    var j :| j in m && Sum(m) == m[j] + Sum(m - {j});
    if j != k {
      SumWithout(m - {j}, k);
      SumWithout(m - {k}, j);
      assert m - {j} - {k} == m - {k} - {j};
    }
  }

  lemma SumUpdate(m: map<Identity, int>, k: Identity, v: int)
    ensures Sum(m[k := v]) == Sum(m) + v - (if k in m then m[k] else 0)
  {
    SumWithout(m[k := v], k);
    if k in m {
      SumWithout(m, k);
      assert m[k := v] - {k} == m - {k};
    } else {
      assert m[k := v] - {k} == m;
    }
  }

  lemma {:induction false} SumShift(low: map<Identity, int>, high: map<Identity, int>, step: int)
    requires low.Keys == high.Keys
    requires forall k :: k in low ==> low[k] <= high[k] + step
    ensures Sum(low) <= Sum(high) + |low| * step
    decreases |low|
  {
    if low != map[] {
      var k :| k in low;
      SumWithout(low, k);
      SumWithout(high, k);
      SumShift(low - {k}, high - {k}, step);
      assert |low| == |low - {k}| + 1;
      OneMoreTerm(|low|, step);
    } else {
      assert high == map[];
    }
  }

  /** How far the whole limiter is from every bucket, cached or not, being full at time t. */
  ghost function Owed(c: Config, s: State, t: int): int {
    Sum(Gaps(c, s.buckets, t)) + (if s.overflow.Some? then Gap(c, s.overflow.value, t) else 0)
  }

  lemma GapShrinks(c: Config, b: Bucket, t: int, now: int)
    requires Valid(c) && t <= now
    ensures Gap(c, b, t) <= Gap(c, b, now) + (now - t) * c.perMinute
  {
    assert (now - b.updated) * c.perMinute == (t - b.updated) * c.perMinute + (now - t) * c.perMinute;
    Product(now - t, c.perMinute);
  }

  lemma OwedShrinks(c: Config, s: State, t: int, now: int)
    requires Valid(c) && Good(c, s, t) && t <= now
    ensures Owed(c, s, t) <= Owed(c, s, now) + (c.maxClients + 1) * ((now - t) * c.perMinute)
  {
    forall b ensures Gap(c, b, t) <= Gap(c, b, now) + (now - t) * c.perMinute {
      GapShrinks(c, b, t, now);
    }
    Product(now - t, c.perMinute);
    OwedShift(c, s, t, now, (now - t) * c.perMinute);
  }

  lemma OwedShift(c: Config, s: State, t: int, now: int, step: int)
    requires |s.buckets| <= c.maxClients && step >= 0
    requires forall b :: Gap(c, b, t) <= Gap(c, b, now) + step
    ensures Owed(c, s, t) <= Owed(c, s, now) + (c.maxClients + 1) * step
  {
    var low, high := Gaps(c, s.buckets, t), Gaps(c, s.buckets, now);
    assert low.Keys == high.Keys == s.buckets.Keys;
    SumShift(low, high, step);
    assert |low.Keys| == |low| && |s.buckets.Keys| == |s.buckets|;
    Slots(|low|, c.maxClients, step);
  }

  /** Ten idle minutes refill any bucket when the burst is at most ten minutes of refill. */
  lemma ExpiredIsFull(c: Config, b: Bucket, now: int)
    requires Valid(c) && GoodBucket(c, b, now) && Expired(b, now) && c.burst <= 10 * c.perMinute
    ensures Level(c, b, now) == Full(c)
  {
    Times(TTL, now - b.updated, c.perMinute);
  }

  lemma {:induction false} SumKeepsNonZero(m: map<Identity, int>, kept: map<Identity, int>)
    requires forall k :: k in kept ==> k in m && kept[k] == m[k]
    requires forall k :: k in m && k !in kept ==> m[k] == 0
    ensures Sum(m) == Sum(kept)
    decreases |m|
  {
    if k :| k in m && k !in kept {
      SumWithout(m, k);
      SumKeepsNonZero(m - {k}, kept);
    } else {
      assert m == kept;
    }
  }

  lemma SumAtMost(m: map<Identity, int>, bound: int)
    requires forall k :: k in m ==> m[k] <= bound
    ensures Sum(m) <= |m| * bound
  {
    var zero := map k | k in m :: 0;
    SumShift(m, zero, bound);
    SumKeepsNonZero(zero, map[]);
  }

  lemma {:induction false} SumNonNegative(m: map<Identity, int>)
    requires forall k :: k in m ==> m[k] >= 0
    ensures Sum(m) >= 0
    decreases |m|
  {
    if m != map[] {
      var k :| k in m;
      SumWithout(m, k);
      SumNonNegative(m - {k});
    }
  }

  lemma SweepKeepsOwed(c: Config, s: State, now: int)
    requires Valid(c) && c.burst <= 10 * c.perMinute && Good(c, s, now)
    ensures Owed(c, Sweep(s, now), now) == Owed(c, s, now)
  {
    var kept := Sweep(s, now).buckets;
    forall k | k in s.buckets && k !in kept ensures Gap(c, s.buckets[k], now) == 0 {
      ExpiredIsFull(c, s.buckets[k], now);
    }
    SumKeepsNonZero(Gaps(c, s.buckets, now), Gaps(c, kept, now));
  }

  lemma SpendWidensGap(c: Config, found: Option<Bucket>, tokens: int, now: int)
    requires Valid(c) && 0 < tokens <= c.burst
    requires found.Some? ==> GoodBucket(c, found.value, now)
    ensures var (b, answer) := Spend(c, found, tokens, now);
            Gap(c, b, now) == (if answer.allowed then tokens * UNIT else 0)
                              + (if found.Some? then Gap(c, found.value, now) else 0)
  {
    if found.Some? && now > found.value.updated {
      Product(now - found.value.updated, c.perMinute);
    }
  }

  function GapOf(c: Config, found: Option<Bucket>, t: int): int {
    if found.Some? then Gap(c, found.value, t) else 0
  }

  /** A bucket that is stored changes what is owed by its own gap: in the shared place... */
  lemma OverflowOwes(c: Config, s: State, client: Identity, b: Bucket, now: int)
    requires UsesOverflow(c, s, client)
    ensures Owed(c, Store(c, s, client, b), now)
        == Owed(c, s, now) + Gap(c, b, now) - GapOf(c, Lookup(c, s, client), now)
  {
    hide Sum, Gap;
  }

  /** ...or in a slot of the map. */
  lemma SlotOwes(c: Config, s: State, client: Identity, b: Bucket, now: int)
    requires !UsesOverflow(c, s, client)
    ensures Owed(c, Store(c, s, client, b), now)
        == Owed(c, s, now) + Gap(c, b, now) - GapOf(c, Lookup(c, s, client), now)
  {
    hide Sum, Gap;
    SumUpdate(Gaps(c, s.buckets, now), client, Gap(c, b, now));
    assert Gaps(c, s.buckets[client := b], now) == Gaps(c, s.buckets, now)[client := Gap(c, b, now)];
  }

  lemma SpendOwes(c: Config, s: State, r: Request)
    requires Valid(c) && c.burst <= 10 * c.perMinute && Good(c, s, r.now) && Weighed(c, r)
    ensures var (s', answer) := AllowN(c, s, r);
            Owed(c, s', r.now) == Owed(c, s, r.now) + GrantOf(r, answer) * UNIT
  {
    hide Sum, Gap, Spend, Owed, Store, Sweep;
    SweepKeepsGood(c, s, r.now, r.now);
    SweepKeepsOwed(c, s, r.now);
    var swept := Sweep(s, r.now);
    var found := Lookup(c, swept, r.client);
    SpendWidensGap(c, found, r.tokens, r.now);
    var b := Spend(c, found, r.tokens, r.now).0;
    if UsesOverflow(c, swept, r.client) {
      OverflowOwes(c, swept, r.client, b, r.now);
    } else {
      SlotOwes(c, swept, r.client, b, r.now);
    }
  }

  lemma StepOwed(c: Config, s: State, r: Request, t: int)
    requires Valid(c) && c.burst <= 10 * c.perMinute && Good(c, s, t) && t <= r.now
    ensures var (s', answer) := AllowN(c, s, r);
            GrantOf(r, answer) * UNIT + Owed(c, s, t)
            <= Owed(c, s', r.now) + (c.maxClients + 1) * ((r.now - t) * c.perMinute)
  {
    hide Owed, Spend, Store, Sweep, Lookup;
    OwedShrinks(c, s, t, r.now);
    if Weighed(c, r) {
      StillGood(c, s, t, r.now);
      SpendOwes(c, s, r);
    }
  }

  lemma StillGood(c: Config, s: State, t: int, now: int)
    requires Good(c, s, t) && t <= now
    ensures Good(c, s, now)
  {}

  /** What all slots and the overflow together refill during a run. */
  function Gained(c: Config, t: int, rs: seq<Request>): int {
    if rs == [] then 0
    else
      var mid := Clock(t, rs[..|rs| - 1]);
      Gained(c, t, rs[..|rs| - 1]) + (c.maxClients + 1) * ((rs[|rs| - 1].now - mid) * c.perMinute)
  }

  lemma {:induction false} RunOwed(c: Config, s: State, rs: seq<Request>, t: int)
    requires Valid(c) && c.burst <= 10 * c.perMinute && Good(c, s, t) && NonDecreasing(t, rs)
    ensures t <= Clock(t, rs)
    ensures Granted(c, s, rs) * UNIT + Owed(c, s, t)
         <= Owed(c, After(c, s, rs), Clock(t, rs)) + Gained(c, t, rs)
    decreases |rs|
  {
    if rs == [] {
    } else {
      var front, last := rs[..|rs| - 1], rs[|rs| - 1];
      RunOwed(c, s, front, t);
      RunKeepsGood(c, s, front, t);
      var mid := Clock(t, front);
      StepOwed(c, After(c, s, front), last, mid);
    }
  }

  lemma {:induction false} GainedIsElapsed(c: Config, t: int, rs: seq<Request>)
    ensures Gained(c, t, rs) == (c.maxClients + 1) * ((Clock(t, rs) - t) * c.perMinute)
    decreases |rs|
  {
    if rs == [] {
    } else {
      GainedIsElapsed(c, t, rs[..|rs| - 1]);
      Joined(c.maxClients + 1, t, Clock(t, rs[..|rs| - 1]), rs[|rs| - 1].now, c.perMinute);
    }
  }

  lemma Joined(n: int, a: int, b: int, d: int, k: int)
    ensures n * ((d - a) * k) == n * ((d - b) * k) + n * ((b - a) * k)
  {
    var x, y := (d - b) * k, (b - a) * k;
    assert (d - a) * k == x + y;
    assert n * (x + y) == n * x + n * y;
  }

  lemma OwedBounds(c: Config, s: State, t: int)
    requires Valid(c) && Good(c, s, t)
    ensures 0 <= Owed(c, s, t) <= (c.maxClients + 1) * Full(c)
  {
    var gaps := Gaps(c, s.buckets, t);
    forall k | k in s.buckets ensures 0 <= Gap(c, s.buckets[k], t) <= Full(c) {
      GapBounds(c, s.buckets[k], t);
    }
    assert |gaps.Keys| == |gaps| && gaps.Keys == s.buckets.Keys && |s.buckets.Keys| == |s.buckets|;
    SumNonNegative(gaps);
    SumAtMost(gaps, Full(c));
    if s.overflow.Some? {
      GapBounds(c, s.overflow.value, t);
    }
    Slots(|gaps|, c.maxClients, Full(c));
  }

  lemma Slots(used: nat, slots: nat, full: int)
    requires used <= slots && full >= 0
    ensures used * full + full <= (slots + 1) * full
  {
    Times(used + 1, slots + 1, full);
  }

  lemma GapBounds(c: Config, b: Bucket, t: int)
    requires Valid(c) && GoodBucket(c, b, t)
    ensures 0 <= Gap(c, b, t) <= Full(c)
  {
    Product(t - b.updated, c.perMinute);
  }

  /** The bound for one window: it opens in state s at time t and closes at the last request. */
  predicate WithinRate(c: Config, s: State, t: int, rs: seq<Request>)
    requires Valid(c)
  {
    Granted(c, s, rs) * UNIT <= (c.maxClients + 1) * (Full(c) + (Clock(t, rs) - t) * c.perMinute)
  }

  lemma GlobalRateBound(c: Config, s: State, rs: seq<Request>, t: int)
    requires Valid(c) && c.burst <= 10 * c.perMinute && Good(c, s, t) && NonDecreasing(t, rs)
    ensures WithinRate(c, s, t, rs)
  {
    RunOwed(c, s, rs, t);
    GainedIsElapsed(c, t, rs);
    RunKeepsGood(c, s, rs, t);
    OwedBounds(c, s, t);
    OwedBounds(c, After(c, s, rs), Clock(t, rs));
    Distribute(c.maxClients + 1, Full(c), (Clock(t, rs) - t) * c.perMinute);
  }

  lemma Distribute(n: int, a: int, b: int)
    ensures n * (a + b) == n * a + n * b
  {}

  // ---------------------------------------------------------------- the rate bound needs burst <= 10 * perMinute

  /** Clients 0 .. k-1 each ask for a whole burst at time t. */
  function Round(c: Config, k: nat, t: int): seq<Request> {
    if k == 0 then [] else Round(c, k - 1, t) + [Request(k - 1, c.burst, t)]
  }

  function Drained(k: nat, t: int): map<Identity, Bucket> {
    if k == 0 then map[] else Drained(k - 1, t)[k - 1 := Bucket(0, t, t)]
  }

  lemma {:induction false} DrainedShape(k: nat, t: int)
    ensures |Drained(k, t)| == k
    ensures forall i :: i in Drained(k, t) <==> 0 <= i < k
    ensures forall i :: i in Drained(k, t) ==> Drained(k, t)[i] == Bucket(0, t, t)
  {
    if k == 0 {
    } else {
      DrainedShape(k - 1, t);
    }
  }

  lemma FreshBurst(c: Config, t: int)
    requires Valid(c)
    ensures Spend(c, None, c.burst, t) == (Bucket(0, t, t), Answer(true, 0))
  {}

  ghost predicate Cleared(c: Config, s: State, t: int) {
    SweepDue(s, t) && Sweep(s, t).buckets == map[]
  }

  /** Request number k - 1 of a round meets k - 1 drained buckets and a free slot. */
  lemma NextInRound(c: Config, k: nat, t: int, s: State, before: State)
    requires Valid(c) && 0 < k <= c.maxClients && Cleared(c, s, t)
    requires before == if k == 1 then s else State(Drained(k - 1, t), s.overflow, Some(t))
    ensures AllowN(c, before, Request(k - 1, c.burst, t))
        == (State(Drained(k, t), s.overflow, Some(t)), Answer(true, 0))
  {
    FreshBurst(c, t);
    DrainedShape(k - 1, t);
    var swept := Sweep(before, t);
    assert Drained(0, t) == map[];
    assert swept.buckets == Drained(k - 1, t);
    assert swept == State(Drained(k - 1, t), s.overflow, Some(t));
    assert !UsesOverflow(c, swept, k - 1);
  }

  lemma {:induction false} RoundDrains(c: Config, k: nat, t: int, s: State)
    requires Valid(c) && k <= c.maxClients && Cleared(c, s, t)
    ensures Granted(c, s, Round(c, k, t)) == k * c.burst
    ensures After(c, s, Round(c, k, t)) == if k == 0 then s else State(Drained(k, t), s.overflow, Some(t))
  {
    if k == 0 {
    } else {
      RoundDrains(c, k - 1, t, s);
      var front := Round(c, k - 1, t);
      NextInRound(c, k, t, s, After(c, s, front));
      OneMore(c, s, front, Request(k - 1, c.burst, t), State(Drained(k, t), s.overflow, Some(t)), c.burst);
      OneMoreTerm(k, c.burst);
    }
  }

  lemma OneMoreTerm(k: int, b: int)
    ensures k * b == (k - 1) * b + b
  {}

  function Overrun(c: Config): seq<Request> {
    var n := c.maxClients;
    (Round(c, n, 0) + [Request(n, c.burst, 0)])
      + (Round(c, n, TTL) + [Request(n, 10 * c.perMinute, TTL)])
  }

  lemma {:induction false} RoundOnTime(c: Config, k: nat, t: int, from: int)
    requires from <= t
    ensures NonDecreasing(from, Round(c, k, t)) && Clock(from, Round(c, k, t)) <= t
    ensures k > 0 ==> Clock(from, Round(c, k, t)) == t
  {
    if k == 0 {
    } else {
      RoundOnTime(c, k - 1, t, from);
      assert Round(c, k, t)[..|Round(c, k, t)| - 1] == Round(c, k - 1, t);
    }
  }

  lemma {:induction false} NonDecreasingConcat(t: int, a: seq<Request>, b: seq<Request>)
    requires NonDecreasing(t, a) && NonDecreasing(Clock(t, a), b)
    ensures NonDecreasing(t, a + b) && Clock(t, a + b) == Clock(Clock(t, a), b)
    decreases |b|
  {
    if b == [] {
      assert a + b == a;
    } else {
      NonDecreasingConcat(t, a, b[..|b| - 1]);
      assert (a + b)[..|a + b| - 1] == a + b[..|b| - 1];
    }
  }

  lemma OverrunOnTime(c: Config)
    requires Valid(c)
    ensures NonDecreasing(0, Overrun(c)) && Clock(0, Overrun(c)) == TTL
  {
    var n := c.maxClients;
    var r1, r2 := Request(n, c.burst, 0), Request(n, 10 * c.perMinute, TTL);
    RoundOnTime(c, n, 0, 0);
    RoundOnTime(c, n, TTL, 0);
    assert (Round(c, n, 0) + [r1])[..|Round(c, n, 0)|] == Round(c, n, 0);
    assert (Round(c, n, TTL) + [r2])[..|Round(c, n, TTL)|] == Round(c, n, TTL);
    NonDecreasingConcat(0, Round(c, n, 0) + [r1], Round(c, n, TTL) + [r2]);
  }

  /** From a swept map, every slot is drained by a full burst and then the overflow bucket by one more request. */
  lemma RoundAndOverflow(c: Config, t: int, s: State, tokens: int)
    requires Valid(c) && c.maxClients >= 1 && Cleared(c, s, t) && 0 < tokens <= c.burst
    requires Spend(c, s.overflow, tokens, t) == (Bucket(0, t, t), Answer(true, 0))
    ensures var n := c.maxClients; var rs := Round(c, n, t) + [Request(n, tokens, t)];
            && After(c, s, rs) == State(Drained(n, t), Some(Bucket(0, t, t)), Some(t))
            && Granted(c, s, rs) == n * c.burst + tokens
  {
    hide Spend, Cleared, Granted, Round, Drained;
    var n := c.maxClients;
    RoundDrains(c, n, t, s);
    DrainedShape(n, t);
    var drained := State(Drained(n, t), s.overflow, Some(t));
    assert Sweep(drained, t) == drained;
    OneMore(c, s, Round(c, n, t), Request(n, tokens, t), drained.(overflow := Some(Bucket(0, t, t))), tokens);
  }

  lemma DrainedClears(c: Config, k: nat)
    requires Valid(c) && c.burst > 10 * c.perMinute
    ensures var s := State(Drained(k, 0), Some(Bucket(0, 0, 0)), Some(0));
            && Cleared(c, s, TTL)
            && Spend(c, s.overflow, 10 * c.perMinute, TTL) == (Bucket(0, TTL, TTL), Answer(true, 0))
  {
    hide Drained;
    DrainedShape(k, 0);
    assert Refill(c, Bucket(0, 0, 0), TTL) == Bucket(10 * c.perMinute * UNIT, TTL, TTL);
  }

  /** Every slot and the overflow are drained, ten minutes pass, and the sweep hands out full bursts again. */
  lemma OverrunGrants(c: Config)
    requires Valid(c) && c.burst > 10 * c.perMinute && c.maxClients >= 1
    ensures Granted(c, EMPTY, Overrun(c)) == 2 * (c.maxClients * c.burst) + c.burst + 10 * c.perMinute
  {
    hide Spend, Granted, After, Round, Drained;
    var n := c.maxClients;
    FreshBurst(c, 0);
    RoundAndOverflow(c, 0, EMPTY, c.burst);
    DrainedClears(c, n);
    RoundAndOverflow(c, TTL, State(Drained(n, 0), Some(Bucket(0, 0, 0)), Some(0)), 10 * c.perMinute);
    AfterConcat(c, EMPTY, Round(c, n, 0) + [Request(n, c.burst, 0)],
                Round(c, n, TTL) + [Request(n, 10 * c.perMinute, TTL)]);
  }

  lemma OneMore(c: Config, s: State, rs: seq<Request>, r: Request, s': State, tokens: int)
    requires Valid(c) && r.tokens == tokens > 0 && AllowN(c, After(c, s, rs), r) == (s', Answer(true, 0))
    ensures After(c, s, rs + [r]) == s' && Granted(c, s, rs + [r]) == Granted(c, s, rs) + tokens
  {
    assert (rs + [r])[..|rs + [r]| - 1] == rs;
  }

  lemma OverrunExceeds(n: int, burst: int, perMinute: int)
    requires n >= 1 && burst > 10 * perMinute
    ensures (2 * (n * burst) + burst + 10 * perMinute) * UNIT > (n + 1) * (burst * UNIT + TTL * perMinute)
  {
    var x, y := n * burst, n * (10 * perMinute);
    assert (n + 1) * (burst * UNIT + TTL * perMinute) == (x + burst + y + 10 * perMinute) * UNIT;
    assert n * (burst - 10 * perMinute) == x - y;
    Times(1, n, burst - 10 * perMinute);
  }

  /** The bound holds on every run and window exactly when ten minutes of refill cover the burst. */
  lemma GlobalRateBoundExactly(c: Config)
    requires Valid(c) && c.maxClients >= 1
    ensures (forall s, t, rs :: Good(c, s, t) && NonDecreasing(t, rs) ==> WithinRate(c, s, t, rs))
       <==> c.burst <= 10 * c.perMinute
  {
    if c.burst <= 10 * c.perMinute {
      forall s, t, rs | Good(c, s, t) && NonDecreasing(t, rs) ensures WithinRate(c, s, t, rs) {
        GlobalRateBound(c, s, rs, t);
      }
    } else {
      OverrunOnTime(c);
      OverrunGrants(c);
      assert Good(c, EMPTY, 0);
      OverrunExceeds(c.maxClients, c.burst, c.perMinute);
      assert !WithinRate(c, EMPTY, 0, Overrun(c));
    }
  }
}
