/** The advised wait is exact: the repeated request succeeds from that moment on and at none before. */
module RetryAdvice {
  import opened Options
  import opened RateLimiter

  /** A refused client that comes back at t2 finds exactly the bucket the refusal left. */
  lemma RetryOnBucket(c: Config, b: Bucket, tokens: int, t: int, t2: int)
    requires Valid(c) && 0 < tokens <= c.burst && b.tokens <= Full(c)
    requires !Spend(c, Some(b), tokens, t).1.allowed && t <= t2
    ensures var (left, answer) := Spend(c, Some(b), tokens, t);
            && answer.retry >= 1
            && (Spend(c, Some(left), tokens, t2).1.allowed
                <==> t2 >= (if b.updated > t then b.updated else t) + answer.retry)
  {
    var (left, answer) := Spend(c, Some(b), tokens, t);
    var need := tokens * UNIT - left.tokens;
    var wait := t2 - left.updated;
    CeilDivIsLeast(need, c.perMinute, wait);
    CeilDivIsLeast(need, c.perMinute, 0);
    if wait > 0 {
      Product(wait, c.perMinute);
    }
  }

  lemma CeilDivIsLeast(a: int, b: int, k: int)
    requires b > 0
    ensures k >= CeilDiv(a, b) <==> k * b >= a
  {
    var q := CeilDiv(a, b);
    assert a <= q * b < a + b;
    if k >= q {
      Times(q, k, b);
    } else {
      Times(k, q - 1, b);
      assert (q - 1) * b == q * b - b;
    }
  }

  // ---------------------------------------------------------------- what happens in between

  predicate BelowFull(c: Config, s: State) {
    && (forall x :: x in s.buckets ==> s.buckets[x].tokens <= Full(c))
    && (s.overflow.Some? ==> s.overflow.value.tokens <= Full(c))
  }

  lemma StepBelowFull(c: Config, s: State, r: Request)
    requires Valid(c) && BelowFull(c, s)
    ensures BelowFull(c, AllowN(c, s, r).0)
  {
    if Weighed(c, r) {
      var found := Lookup(c, Sweep(s, r.now), r.client);
      assert Spend(c, found, r.tokens, r.now).0.tokens <= Full(c);
    }
  }

  lemma NothingAboveFull(c: Config)
    ensures BelowFull(c, EMPTY)
  {}

  /** No bucket holds more than the burst, whatever the clock does. */
  lemma {:induction false} NeverAboveFull(c: Config, rs: seq<Request>)
    requires Valid(c)
    ensures BelowFull(c, After(c, EMPTY, rs))
    decreases |rs|
  {
    hide AllowN, BelowFull;
    if rs == [] {
      NothingAboveFull(c);
    } else {
      NeverAboveFull(c, rs[..|rs| - 1]);
      StepBelowFull(c, After(c, EMPTY, rs[..|rs| - 1]), rs[|rs| - 1]);
    }
  }

  /** Other clients' requests, and those of `x` that are answered without looking at a bucket. */
  predicate LeavesAlone(c: Config, rs: seq<Request>, x: Identity) {
    forall i {:trigger rs[i]} :: 0 <= i < |rs| ==> rs[i].client != x || !Weighed(c, rs[i])
  }

  /** Nobody else touches a client's bucket: it stays as it is until a sweep finds it idle for ten minutes. */
  lemma {:induction false} BucketLeftAlone(c: Config, s: State, rs: seq<Request>, x: Identity)
    requires Valid(c) && LeavesAlone(c, rs, x) && x in s.buckets
    ensures var later := After(c, s, rs).buckets;
            && (x in later ==> later[x] == s.buckets[x])
            && (x !in later ==> exists i :: 0 <= i < |rs| && rs[i].now - s.buckets[x].lastSeen >= TTL)
    decreases |rs|
  {
    if rs == [] {
    } else {
      var front, last := rs[..|rs| - 1], rs[|rs| - 1];
      assert forall i :: 0 <= i < |front| ==> front[i] == rs[i];
      BucketLeftAlone(c, s, front, x);
      OthersLeaveAlone(c, After(c, s, front), last, x);
      if x !in After(c, s, front).buckets {
        var i :| 0 <= i < |front| && front[i].now - s.buckets[x].lastSeen >= TTL;
        assert rs[i].now - s.buckets[x].lastSeen >= TTL;
      }
    }
  }

  lemma OthersLeaveAlone(c: Config, s: State, r: Request, x: Identity)
    requires Valid(c) && (r.client != x || !Weighed(c, r))
    ensures var later := AllowN(c, s, r).0.buckets;
            && (x in later
                <==> x in s.buckets && !(Weighed(c, r) && SweepDue(s, r.now) && Expired(s.buckets[x], r.now)))
            && (x in later ==> later[x] == s.buckets[x])
  {}

  /** When the client comes back, its bucket is the one the refusal left, unless a sweep found it idle. */
  lemma KeptOrSwept(c: Config, left: State, between: seq<Request>, r: Request, t2: int)
    requires Valid(c) && LeavesAlone(c, between, r.client)
    requires r.client in left.buckets && left.buckets[r.client].lastSeen == r.now
    ensures var swept := Sweep(After(c, left, between), t2);
            && (r.client in swept.buckets ==> swept.buckets[r.client] == left.buckets[r.client])
            && (WithinTen(between, r, t2) ==> r.client in swept.buckets)
  {
    hide After;
    BucketLeftAlone(c, left, between, r.client);
  }

  /** Nothing happens ten minutes after the refusal or later. */
  predicate WithinTen(between: seq<Request>, r: Request, t2: int) {
    t2 < r.now + TTL && forall i {:trigger between[i]} :: 0 <= i < |between| ==> between[i].now < r.now + TTL
  }

  /**
   A client with a bucket of its own is refused, and repeats the request at t2, whatever others ask for in between.
   As long as its bucket is kept, as it is for ten minutes, the client is allowed exactly from the advised moment on;
   the wait counts from the refusal, or from the bucket's own time stamp if the clock had stepped back behind it.
   Once the bucket is swept, the client is allowed as any new one.
   */
  lemma RetryAdviceIsExact(c: Config, before: seq<Request>, r: Request, between: seq<Request>, t2: int)
    requires Valid(c) && Weighed(c, r) && r.now <= t2
    requires !UsesOverflow(c, Sweep(After(c, EMPTY, before), r.now), r.client)
    requires !LastAnswer(c, EMPTY, before + [r]).allowed
    requires LeavesAlone(c, between, r.client)
    ensures r.client in After(c, EMPTY, before).buckets
    ensures var retry := LastAnswer(c, EMPTY, before + [r]).retry;
            var stamp := After(c, EMPTY, before).buckets[r.client].updated;
            var swept := Sweep(After(c, EMPTY, before + [r] + between), t2);
            var allowed := LastAnswer(c, EMPTY, before + [r] + between + [r.(now := t2)]).allowed;
            && retry >= 1
            && (r.client in swept.buckets ==> (allowed <==> t2 >= (if stamp > r.now then stamp else r.now) + retry))
            && (WithinTen(between, r, t2) ==> r.client in swept.buckets)
            && (r.client !in swept.buckets && !UsesOverflow(c, swept, r.client) ==> allowed)
  {
    hide After, Sweep, WithinTen, LeavesAlone, CeilDiv, Refill;
    var s, again := After(c, EMPTY, before), r.(now := t2);
    NeverAboveFull(c, before);
    var run := before + [r];
    assert run[..|run| - 1] == before;
    Refused(c, s, r);
    RunSnoc(c, EMPTY, before, r);
    var left := AllowN(c, s, r).0;
    AfterConcat(c, EMPTY, run, between);
    KeptOrSwept(c, left, between, r, t2);
    var whole := run + between + [again];
    assert whole[..|whole| - 1] == run + between;
    RetryOnBucket(c, s.buckets[r.client], r.tokens, r.now, t2);
    if r.client !in Sweep(After(c, left, between), t2).buckets
        && !UsesOverflow(c, Sweep(After(c, left, between), t2), r.client) {
      NewClientAllowed(c, After(c, left, between), again);
    }
  }

  lemma NewClientAllowed(c: Config, s: State, r: Request)
    requires Valid(c) && Weighed(c, r)
    requires r.client !in Sweep(s, r.now).buckets && !UsesOverflow(c, Sweep(s, r.now), r.client)
    ensures AllowN(c, s, r).1.allowed
  {}

  lemma RunSnoc(c: Config, s: State, rs: seq<Request>, r: Request)
    requires Valid(c)
    ensures After(c, s, rs + [r]) == AllowN(c, After(c, s, rs), r).0
  {
    assert (rs + [r])[..|rs + [r]| - 1] == rs;
  }

  /** A full bucket grants any weighed request, so only a bucket in use refuses, and the refusal stamps it. */
  lemma Refused(c: Config, s: State, r: Request)
    requires Valid(c) && Weighed(c, r) && !UsesOverflow(c, Sweep(s, r.now), r.client) && !AllowN(c, s, r).1.allowed
    ensures r.client in s.buckets && r.client in Sweep(s, r.now).buckets
    ensures r.client in AllowN(c, s, r).0.buckets
    ensures AllowN(c, s, r).0.buckets[r.client] == Spend(c, Some(s.buckets[r.client]), r.tokens, r.now).0
    ensures AllowN(c, s, r).1 == Spend(c, Some(s.buckets[r.client]), r.tokens, r.now).1
    ensures AllowN(c, s, r).0.buckets[r.client].lastSeen == r.now
  {}

  function RetryAfterHeader(retry: int): int {
    var seconds := CeilDiv(retry, SECOND);
    if seconds < 1 then 1 else seconds
  }

  /** Whole seconds are still enough, and no smaller positive whole number of seconds would be. */
  lemma HeaderIsLeastSufficient(retry: int, seconds: int)
    requires seconds >= 1
    ensures seconds >= RetryAfterHeader(retry) <==> seconds * SECOND >= retry
  {
    CeilDivIsLeast(retry, SECOND, seconds);
  }
}
