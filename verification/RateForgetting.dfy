/** Sweeping idle buckets goes unnoticed, so clients cannot affect each other. */
module RateForgetting {
  import opened Options
  import opened RateLimiter
  import opened RateBound

  // ---------------------------------------------------------------- forgetting is invisible

  /** The bucket of one client in an ideal limiter that keeps every bucket forever. */
  function Own(c: Config, rs: seq<Request>, x: Identity): Option<Bucket>
    requires Valid(c)
  {
    if rs == [] then None
    else
      var before, last := Own(c, rs[..|rs| - 1], x), rs[|rs| - 1];
      if last.client == x && Weighed(c, last) then Some(Spend(c, before, last.tokens, last.now).0) else before
  }

  function IdealAnswer(c: Config, rs: seq<Request>): Answer
    requires Valid(c) && rs != []
  {
    var last := rs[|rs| - 1];
    if last.tokens <= 0 then Answer(true, 0)
    else if last.tokens > c.burst then Answer(false, RETRY_NEVER)
    else Spend(c, Own(c, rs[..|rs| - 1], last.client), last.tokens, last.now).1
  }

  function OnlyOf(rs: seq<Request>, x: Identity): seq<Request> {
    if rs == [] then []
    else OnlyOf(rs[..|rs| - 1], x) + (if rs[|rs| - 1].client == x then [rs[|rs| - 1]] else [])
  }

  /** No request of the run found the map full of other clients. */
  predicate Unsaturated(c: Config, rs: seq<Request>)
    requires Valid(c)
  {
    rs == [] ||
    (Unsaturated(c, rs[..|rs| - 1]) &&
     var last := rs[|rs| - 1];
     !UsesOverflow(c, Sweep(After(c, EMPTY, rs[..|rs| - 1]), last.now), last.client))
  }

  ghost predicate Agrees(c: Config, s: State, rs: seq<Request>, t: int)
    requires Valid(c)
  {
    forall x :: Own(c, rs, x) == (if x in s.buckets then Some(s.buckets[x]) else None)
             || (x !in s.buckets && GoodBucket(c, Own(c, rs, x).value, t)
                 && Level(c, Own(c, rs, x).value, t) == Full(c))
  }

  lemma SweepKeepsAgreement(c: Config, s: State, rs: seq<Request>, t: int, now: int)
    requires Valid(c) && c.burst <= 10 * c.perMinute && Good(c, s, t) && Agrees(c, s, rs, t) && t <= now
    ensures Agrees(c, Sweep(s, now), rs, now)
  {
    var swept := Sweep(s, now);
    forall x ensures Own(c, rs, x) == (if x in swept.buckets then Some(swept.buckets[x]) else None)
             || (x !in swept.buckets && GoodBucket(c, Own(c, rs, x).value, now)
                 && Level(c, Own(c, rs, x).value, now) == Full(c)) {
      if x in s.buckets && x !in swept.buckets {
        ExpiredIsFull(c, s.buckets[x], now);
      } else if x !in s.buckets && Own(c, rs, x) != None {
        Times(t - Own(c, rs, x).value.updated, now - Own(c, rs, x).value.updated, c.perMinute);
      }
    }
  }

  /** A full bucket and no bucket at all spend alike. */
  lemma FullSpendsAsFresh(c: Config, b: Bucket, tokens: int, now: int)
    requires Valid(c) && GoodBucket(c, b, now) && Level(c, b, now) == Full(c)
    ensures Spend(c, Some(b), tokens, now) == Spend(c, None, tokens, now)
  {}

  lemma {:induction false} RunAgrees(c: Config, rs: seq<Request>, t: int)
    requires Valid(c) && c.burst <= 10 * c.perMinute && NonDecreasing(t, rs) && Unsaturated(c, rs)
    ensures Agrees(c, After(c, EMPTY, rs), rs, Clock(t, rs))
    ensures rs != [] ==> LastAnswer(c, EMPTY, rs) == IdealAnswer(c, rs)
    decreases |rs|
  {
    if rs == [] {
    } else {
      var front, last := rs[..|rs| - 1], rs[|rs| - 1];
      var before, mid := After(c, EMPTY, front), Clock(t, front);
      RunAgrees(c, front, t);
      assert Good(c, EMPTY, t);
      RunKeepsGood(c, EMPTY, front, t);
      SweepKeepsAgreement(c, before, front, mid, last.now);
      var swept := Sweep(before, last.now);
      if Weighed(c, last) {
        var own := Own(c, front, last.client);
        if own != None && last.client !in swept.buckets {
          FullSpendsAsFresh(c, own.value, last.tokens, last.now);
        }
        assert forall x :: x != last.client ==> Own(c, rs, x) == Own(c, front, x);
      } else {
        forall x ensures Own(c, rs, x) == Own(c, front, x) {}
        NoSweepAgrees(c, before, front, mid, last.now);
      }
    }
  }

  lemma NoSweepAgrees(c: Config, s: State, rs: seq<Request>, t: int, now: int)
    requires Valid(c) && Agrees(c, s, rs, t) && t <= now
    ensures Agrees(c, s, rs, now)
  {
    forall x | x !in s.buckets && Own(c, rs, x) != None
      ensures GoodBucket(c, Own(c, rs, x).value, now) && Level(c, Own(c, rs, x).value, now) == Full(c) {
      Times(t - Own(c, rs, x).value.updated, now - Own(c, rs, x).value.updated, c.perMinute);
    }
  }

  lemma {:induction false} OwnIgnoresOthers(c: Config, rs: seq<Request>, x: Identity)
    requires Valid(c)
    ensures Own(c, OnlyOf(rs, x), x) == Own(c, rs, x)
    decreases |rs|
  {
    if rs == [] {
    } else {
      OwnIgnoresOthers(c, rs[..|rs| - 1], x);
      if rs[|rs| - 1].client == x {
        var mine := OnlyOf(rs, x);
        assert mine[..|mine| - 1] == OnlyOf(rs[..|rs| - 1], x) && mine[|mine| - 1] == rs[|rs| - 1];
      } else {
        assert OnlyOf(rs, x) == OnlyOf(rs[..|rs| - 1], x);
      }
    }
  }

  /** Every answer is the one the client would get alone, from a limiter that never forgets. */
  lemma ClientsAreIndependent(c: Config, rs: seq<Request>, t: int)
    requires Valid(c) && c.burst <= 10 * c.perMinute && NonDecreasing(t, rs) && Unsaturated(c, rs) && rs != []
    ensures OnlyOf(rs, rs[|rs| - 1].client) != []
    ensures LastAnswer(c, EMPTY, rs) == IdealAnswer(c, OnlyOf(rs, rs[|rs| - 1].client))
  {
    RunAgrees(c, rs, t);
    var x := rs[|rs| - 1].client;
    OwnIgnoresOthers(c, rs[..|rs| - 1], x);
    assert OnlyOf(rs, x)[..|OnlyOf(rs, x)| - 1] == OnlyOf(rs[..|rs| - 1], x);
  }

  predicate Unnoticed(c: Config, t: int, rs: seq<Request>)
    requires Valid(c)
  {
    rs != [] && NonDecreasing(t, rs) && Unsaturated(c, rs) ==> LastAnswer(c, EMPTY, rs) == IdealAnswer(c, rs)
  }

  /** Spends the burst, waits ten minutes, and spends it again. */
  function TwoBursts(c: Config): seq<Request> {
    [Request(0, c.burst, 0), Request(0, c.burst, TTL)]
  }

  lemma FirstBurst(c: Config)
    requires Valid(c) && c.maxClients >= 1
    ensures var front := [Request(0, c.burst, 0)];
            && NonDecreasing(0, front) && Unsaturated(c, front)
            && After(c, EMPTY, front) == State(map[0 := Bucket(0, 0, 0)], None, Some(0))
            && Own(c, front, 0) == Some(Bucket(0, 0, 0))
  {
    hide Spend;
    var front := [Request(0, c.burst, 0)];
    FreshBurst(c, 0);
    assert front[..|front| - 1] == [];
    assert Sweep(EMPTY, 0) == State(map[], None, Some(0));
    assert !UsesOverflow(c, Sweep(EMPTY, 0), 0);
  }

  /** The bucket is swept, so the second burst is granted, while a kept bucket would not hold it yet. */
  lemma TwoBurstsNoticed(c: Config)
    requires Valid(c) && c.maxClients >= 1 && c.burst > 10 * c.perMinute
    ensures !Unnoticed(c, 0, TwoBursts(c))
  {
    hide After, Own, Spend;
    var rs := TwoBursts(c);
    var front, again := [Request(0, c.burst, 0)], Request(0, c.burst, TTL);
    FirstBurst(c);
    assert rs[..|rs| - 1] == front && rs[|rs| - 1] == again;
    var s := State(map[0 := Bucket(0, 0, 0)], None, Some(0));
    assert Sweep(s, TTL).buckets == map[];
    assert !UsesOverflow(c, Sweep(s, TTL), 0);
    FreshBurst(c, TTL);
    KeptTooLow(c);
  }

  lemma KeptTooLow(c: Config)
    requires Valid(c) && c.burst > 10 * c.perMinute
    ensures !Spend(c, Some(Bucket(0, 0, 0)), c.burst, TTL).1.allowed
  {
    assert TTL * c.perMinute == 10 * c.perMinute * UNIT;
  }

  /** Sweeping goes unnoticed on every unsaturated run exactly when ten minutes of refill cover the burst. */
  lemma ForgettingInvisibleExactly(c: Config)
    requires Valid(c) && c.maxClients >= 1
    ensures (forall t, rs :: Unnoticed(c, t, rs)) <==> c.burst <= 10 * c.perMinute
  {
    if c.burst <= 10 * c.perMinute {
      forall t, rs | rs != [] && NonDecreasing(t, rs) && Unsaturated(c, rs)
        ensures Unnoticed(c, t, rs) {
        RunAgrees(c, rs, t);
      }
    } else {
      TwoBurstsNoticed(c);
    }
  }
}
