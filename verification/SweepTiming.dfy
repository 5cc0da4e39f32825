/** Which buckets the limiter keeps, and for how long. */
module SweepTiming {
  import opened Options
  import opened RateLimiter

  /** Ten minutes and one minute, in nanoseconds. */
  const IDLE := 600_000_000_000
  const INTERVAL := 60_000_000_000

  /** At the last sweep every bucket had been used within ten minutes, and none has been used less recently since. */
  predicate RecentlySwept(s: State) {
    match s.lastSweep
    case None => s.buckets == map[]
    case Some(time) => forall k :: k in s.buckets ==> time - s.buckets[k].lastSeen < IDLE
  }

  lemma StepKeepsRecent(c: Config, s: State, r: Request)
    requires Valid(c) && RecentlySwept(s) && (s.lastSweep.Some? ==> s.lastSweep.value <= r.now)
    ensures RecentlySwept(AllowN(c, s, r).0)
    ensures Weighed(c, r) ==>
              var last := AllowN(c, s, r).0.lastSweep; last.Some? && last.value <= r.now < last.value + INTERVAL
    ensures !Weighed(c, r) ==> AllowN(c, s, r).0 == s
  {
    if Weighed(c, r) {
      var swept := Sweep(s, r.now);
      assert RecentlySwept(swept);
      hide Sweep;
      var b := Spend(c, Lookup(c, swept, r.client), r.tokens, r.now).0;
      assert b.lastSeen == r.now;
      hide Spend;
    }
  }

  lemma {:induction false} RunKeepsRecent(c: Config, rs: seq<Request>, t: int)
    requires Valid(c) && NonDecreasing(t, rs)
    ensures var s := After(c, EMPTY, rs); RecentlySwept(s) && (s.lastSweep.Some? ==> s.lastSweep.value <= Clock(t, rs))
    decreases |rs|
  {
    hide AllowN, RecentlySwept;
    if rs == [] {
      NothingSwept();
    } else {
      RunKeepsRecent(c, rs[..|rs| - 1], t);
      StepKeepsRecent(c, After(c, EMPTY, rs[..|rs| - 1]), rs[|rs| - 1]);
    }
  }

  lemma NothingSwept()
    ensures RecentlySwept(EMPTY)
  {}

  /** On a run with a steady clock, a weighed request leaves no bucket that has been idle for eleven minutes. */
  lemma NoBucketLingers(c: Config, rs: seq<Request>, t: int, x: Identity)
    requires Valid(c) && NonDecreasing(t, rs) && rs != [] && Weighed(c, rs[|rs| - 1])
    requires x in After(c, EMPTY, rs).buckets
    ensures rs[|rs| - 1].now - After(c, EMPTY, rs).buckets[x].lastSeen < IDLE + INTERVAL
  {
    hide AllowN;
    var front, last := rs[..|rs| - 1], rs[|rs| - 1];
    RunKeepsRecent(c, front, t);
    StepKeepsRecent(c, After(c, EMPTY, front), last);
  }

  /** A bucket goes only in a sweep, a minute after the one before, and only when it has been idle for ten minutes. */
  lemma OnlyIdleGo(c: Config, s: State, r: Request, x: Identity)
    requires Valid(c) && x in s.buckets && x !in AllowN(c, s, r).0.buckets
    ensures Weighed(c, r) && r.now - s.buckets[x].lastSeen >= IDLE
    ensures s.lastSweep.Some? ==> r.now - s.lastSweep.value >= INTERVAL
    ensures AllowN(c, s, r).0.lastSweep == Some(r.now)
  {}

  /** A sweep comes no sooner than a minute after the one before. */
  lemma SweepsAreApart(c: Config, s: State, r: Request)
    requires Valid(c) && s.lastSweep.Some?
    ensures AllowN(c, s, r).0.lastSweep != s.lastSweep <==>
              Weighed(c, r) && r.now - s.lastSweep.value >= INTERVAL
  {}

  /** A client is served from the shared bucket only when it has none of its own and the map is full. */
  lemma OwnBucketUnlessFull(c: Config, s: State, r: Request)
    requires Valid(c) && Weighed(c, r)
    ensures var after := AllowN(c, s, r).0;
            && (r.client in s.buckets && !Expired(s.buckets[r.client], r.now) ==> r.client in after.buckets)
            && (r.client !in after.buckets ==> |after.buckets| >= c.maxClients)
            && (r.client in after.buckets ==>
                  after.buckets[r.client].lastSeen == r.now && after.overflow == s.overflow)
            && (r.client !in after.buckets ==> after.overflow.Some? && after.overflow.value.lastSeen == r.now)
  {}
}
