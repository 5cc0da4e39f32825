/** When exactly a request is let through, said of the requests alone. */
module BucketLevels {
  import opened MinMax
  import opened Options
  import opened RateLimiter
  import opened RateForgetting

  /** The nanoseconds of a minute. */
  const NANOSECONDS := 60_000_000_000

  /** The tokens that the limiter granted to a client from request number `j` on. */
  function Taken(c: Config, rs: seq<Request>, x: Identity, j: nat): int
    requires Valid(c)
  {
    if |rs| <= j then 0
    else
      Taken(c, rs[..|rs| - 1], x, j)
      + (if rs[|rs| - 1].client == x then GrantOf(rs[|rs| - 1], LastAnswer(c, EMPTY, rs)) else 0)
  }

  /** Request number `j` is one of the client's own that names a possible amount. */
  predicate Started(c: Config, rs: seq<Request>, x: Identity, j: nat) {
    j < |rs| && rs[j].client == x && 0 < rs[j].tokens <= c.burst
  }

  /** What the window that request number `j` opened still leaves at time `now`. */
  function Left(c: Config, rs: seq<Request>, x: Identity, j: nat, now: int): int
    requires Valid(c) && j < |rs|
  {
    c.burst * UNIT + (now - rs[j].now) * c.perMinute - Taken(c, rs, x, j) * UNIT
  }

  /** A bucket holds what is left of the tightest window that the client's requests have opened. */
  ghost predicate HoldsTightest(c: Config, rs: seq<Request>, x: Identity, b: Option<Bucket>)
    requires Valid(c)
  {
    match b
    case None => forall j: nat :: !Started(c, rs, x, j)
    case Some(bucket) =>
      && (forall j: nat {:trigger Started(c, rs, x, j)} ::
            Started(c, rs, x, j) ==> bucket.tokens <= Left(c, rs, x, j, bucket.updated))
      && exists j: nat {:trigger Started(c, rs, x, j)} ::
           Started(c, rs, x, j) && bucket.tokens == Left(c, rs, x, j, bucket.updated)
  }

  /** No window that one of the client's own requests opened would be overdrawn, nor would the burst. */
  ghost predicate Affordable(c: Config, rs: seq<Request>, x: Identity, tokens: int, now: int)
    requires Valid(c)
  {
    && tokens <= c.burst
    && forall j: nat {:trigger Started(c, rs, x, j)} :: Started(c, rs, x, j) ==>
         (Taken(c, rs, x, j) + tokens) * NANOSECONDS <= c.burst * NANOSECONDS + (now - rs[j].now) * c.perMinute
  }

  lemma AnyNonDecreasing(t: int, rs: seq<Request>)
    requires rs != [] && NonDecreasing(t, rs)
    ensures NonDecreasing(t, rs[..|rs| - 1]) && Clock(t, rs[..|rs| - 1]) <= rs[|rs| - 1].now
  {}

  /** One more request charges the windows of its own client, and opens one if it names a possible amount. */
  lemma OneMoreRequest(c: Config, rs: seq<Request>, x: Identity, j: nat)
    requires Valid(c) && rs != [] && Started(c, rs, x, j)
    ensures var front, last := rs[..|rs| - 1], rs[|rs| - 1];
            var grant := if last.client == x then GrantOf(last, LastAnswer(c, EMPTY, rs)) else 0;
            && (j < |front| ==> Started(c, front, x, j) && Taken(c, rs, x, j) == Taken(c, front, x, j) + grant)
            && (j == |front| ==> last.client == x && Taken(c, rs, x, j) == grant)
  {
    hide After, LastAnswer;
    assert j < |rs| - 1 ==> rs[..|rs| - 1][j] == rs[j];
  }

  lemma StillStarted(c: Config, rs: seq<Request>, x: Identity, j: nat)
    requires rs != [] && Started(c, rs[..|rs| - 1], x, j)
    ensures Started(c, rs, x, j)
  {}

  /** A window in terms of the one seen before the last request. */
  lemma LeftMoves(c: Config, rs: seq<Request>, x: Identity, j: nat, past: int, now: int)
    requires Valid(c) && rs != [] && j < |rs| - 1
    ensures var grant := if rs[|rs| - 1].client == x then GrantOf(rs[|rs| - 1], LastAnswer(c, EMPTY, rs)) else 0;
            Left(c, rs, x, j, now)
            == Left(c, rs[..|rs| - 1], x, j, past) + (now - past) * c.perMinute - grant * UNIT
  {
    hide After, LastAnswer;
    var front := rs[..|rs| - 1];
    assert front[j] == rs[j];
    Moments(now, past, rs[j].now, c.perMinute);
    var grant := if rs[|rs| - 1].client == x then GrantOf(rs[|rs| - 1], LastAnswer(c, EMPTY, rs)) else 0;
    assert Taken(c, rs, x, j) == Taken(c, front, x, j) + grant;
  }

  lemma Moments(now: int, past: int, start: int, k: int)
    ensures (now - start) * k == (past - start) * k + (now - past) * k
  {}

  /** A request of somebody else, or for no possible amount, leaves the client's windows as they were. */
  lemma OthersKeepTightest(c: Config, rs: seq<Request>, x: Identity, b: Option<Bucket>)
    requires Valid(c) && rs != [] && HoldsTightest(c, rs[..|rs| - 1], x, b)
    requires rs[|rs| - 1].client != x || !Weighed(c, rs[|rs| - 1])
    ensures HoldsTightest(c, rs, x, b)
  {
    hide After, Left, Taken;
    var front, last := rs[..|rs| - 1], rs[|rs| - 1];
    assert last.client == x ==> GrantOf(last, LastAnswer(c, EMPTY, rs)) == 0;
    forall j: nat | Started(c, rs, x, j)
      ensures Started(c, front, x, j)
      ensures b.Some? ==> Left(c, rs, x, j, b.value.updated) == Left(c, front, x, j, b.value.updated)
    {
      OneMoreRequest(c, rs, x, j);
      if b.Some? {
        LeftMoves(c, rs, x, j, b.value.updated, b.value.updated);
      }
    }
    forall j: nat | Started(c, front, x, j) ensures Started(c, rs, x, j) {
      StillStarted(c, rs, x, j);
    }
  }

  /** What a client's bucket holds when its request is weighed. */
  lemma RefilledTightest(c: Config, rs: seq<Request>, x: Identity, b: Option<Bucket>)
    requires Valid(c) && rs != [] && HoldsTightest(c, rs[..|rs| - 1], x, b)
    requires rs[|rs| - 1].client == x && Weighed(c, rs[|rs| - 1])
    requires b.Some? ==> b.value.updated <= rs[|rs| - 1].now && b.value.tokens <= Full(c)
    requires LastAnswer(c, EMPTY, rs) == Spend(c, b, rs[|rs| - 1].tokens, rs[|rs| - 1].now).1
    ensures HoldsTightest(c, rs, x, Some(Spend(c, b, rs[|rs| - 1].tokens, rs[|rs| - 1].now).0))
  {
    hide After, LastAnswer, Left, Taken, Spend;
    var front, last := rs[..|rs| - 1], rs[|rs| - 1];
    var own := |front|;
    var grant := GrantOf(last, LastAnswer(c, EMPTY, rs));
    var after := Spend(c, b, last.tokens, last.now).0;
    SpentLevel(c, b, last.tokens, last.now);
    assert Started(c, rs, x, own);
    OneMoreRequest(c, rs, x, own);
    OwnWindow(c, rs, x);
    forall j: nat | Started(c, rs, x, j)
      ensures after.tokens <= Left(c, rs, x, j, last.now)
      ensures j < own && b.Some? ==>
                Started(c, front, x, j)
                && Left(c, rs, x, j, last.now)
                   == Left(c, front, x, j, b.value.updated) + (last.now - b.value.updated) * c.perMinute - grant * UNIT
    {
      OneMoreRequest(c, rs, x, j);
      if j < own && b.Some? {
        LeftMoves(c, rs, x, j, b.value.updated, last.now);
      }
    }
    if b.Some? {
      var k: nat :| Started(c, front, x, k) && b.value.tokens == Left(c, front, x, k, b.value.updated);
      StillStarted(c, rs, x, k);
    }
  }

  lemma SpentLevel(c: Config, b: Option<Bucket>, tokens: int, now: int)
    requires Valid(c) && tokens > 0 && (b.Some? ==> b.value.updated <= now && b.value.tokens <= Full(c))
    ensures var (after, answer) := Spend(c, b, tokens, now);
            var level := if b.Some? then Min(Full(c), b.value.tokens + (now - b.value.updated) * c.perMinute)
                else Full(c);
            && after.updated == now
            && after.tokens == level - (if answer.allowed then tokens else 0) * UNIT
            && (answer.allowed <==> level >= tokens * UNIT)
  {}

  lemma OwnWindow(c: Config, rs: seq<Request>, x: Identity)
    requires Valid(c) && rs != []
    ensures var j := |rs| - 1; Left(c, rs, x, j, rs[j].now) == Full(c) - Taken(c, rs, x, j) * UNIT
  {}

  /** While sweeping goes unnoticed, the ideal bucket of every client holds what its tightest window leaves. */
  lemma {:induction false} BucketsHoldTightest(c: Config, rs: seq<Request>, t: int, x: Identity)
    requires Valid(c) && c.burst <= 10 * c.perMinute && NonDecreasing(t, rs) && Unsaturated(c, rs)
    ensures HoldsTightest(c, rs, x, Own(c, rs, x))
    ensures var b := Own(c, rs, x); b.Some? ==> b.value.updated <= Clock(t, rs) && b.value.tokens <= Full(c)
    decreases |rs|
  {
    hide HoldsTightest, LastAnswer, After, Spend, UsesOverflow;
    if rs == [] {
      NothingStarted(c, x);
    } else {
      var front, last := rs[..|rs| - 1], rs[|rs| - 1];
      BucketsHoldTightest(c, front, t, x);
      RunAgrees(c, rs, t);
      var own := Own(c, front, x);
      if last.client == x && Weighed(c, last) {
        RefilledTightest(c, rs, x, own);
        SpentLevel(c, own, last.tokens, last.now);
      } else {
        OthersKeepTightest(c, rs, x, own);
      }
    }
  }

  lemma NothingStarted(c: Config, x: Identity)
    requires Valid(c)
    ensures HoldsTightest(c, [], x, None)
  {}

  /** A level that meets the tightest window meets them all. */
  lemma AffordableLevel(c: Config, rs: seq<Request>, x: Identity, b: Option<Bucket>, tokens: int, now: int)
    requires Valid(c) && HoldsTightest(c, rs, x, b) && 0 < tokens <= c.burst
    requires b.Some? ==> b.value.updated <= now && b.value.tokens <= Full(c)
    ensures Spend(c, b, tokens, now).1.allowed <==> Affordable(c, rs, x, tokens, now)
  {
    hide Taken, Spend;
    SpentLevel(c, b, tokens, now);
    if b.Some? {
      forall j: nat | Started(c, rs, x, j)
        ensures Left(c, rs, x, j, now) == Left(c, rs, x, j, b.value.updated) + (now - b.value.updated) * c.perMinute
      {
        Moments(now, b.value.updated, rs[j].now, c.perMinute);
      }
      var k: nat :| Started(c, rs, x, k) && b.value.tokens == Left(c, rs, x, k, b.value.updated);
      assert Left(c, rs, x, k, now) >= tokens * UNIT
        <==> (Taken(c, rs, x, k) + tokens) * NANOSECONDS <= c.burst * NANOSECONDS + (now - rs[k].now) * c.perMinute;
      hide Left;
    }
  }

  /**
   A request is let through exactly when, counted from each of the client's own requests so far, what it has been
   granted since then and what it asks for stay within a burst and a steady refill.
   */
  lemma AllowedExactly(c: Config, rs: seq<Request>, t: int)
    requires Valid(c) && c.burst <= 10 * c.perMinute && NonDecreasing(t, rs) && Unsaturated(c, rs) && rs != []
    ensures var front, last, answer := rs[..|rs| - 1], rs[|rs| - 1], LastAnswer(c, EMPTY, rs);
            && (last.tokens <= 0 ==> answer == Answer(true, 0))
            && (last.tokens > c.burst ==> answer == Answer(false, -1))
            && (last.tokens > 0 ==> (answer.allowed <==> Affordable(c, front, last.client, last.tokens, last.now)))
  {
    hide HoldsTightest, LastAnswer, After, Spend, UsesOverflow, Affordable;
    var front, last := rs[..|rs| - 1], rs[|rs| - 1];
    RunAgrees(c, rs, t);
    BucketsHoldTightest(c, front, t, last.client);
    if Weighed(c, last) {
      AffordableLevel(c, front, last.client, Own(c, front, last.client), last.tokens, last.now);
    } else if last.tokens > c.burst {
      TooMuch(c, front, last);
    }
  }

  lemma TooMuch(c: Config, rs: seq<Request>, r: Request)
    requires Valid(c) && r.tokens > c.burst
    ensures !Affordable(c, rs, r.client, r.tokens, r.now)
  {}
}
