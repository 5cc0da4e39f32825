/** The rate limiter as an object: the map, the sweep time and the overflow bucket that its calls update. */
module Limiter {
  import opened MinMax
  import opened Options
  import opened RateLimiter

  class Limiter {
    const perMinute: int
    const burst: int
    const maxClients: nat
    var buckets: map<Identity, Bucket>
    var lastSweepTime: Option<int>
    var overflow: Bucket
    var overflowReady: bool

    function Settings(): Config {
      Config(perMinute, burst, maxClients)
    }

    function View(): State
      reads this
    {
      State(buckets, if overflowReady then Some(overflow) else None, lastSweepTime)
    }

    constructor (perMinute: int, burst: int)
      ensures Valid(Settings()) && View() == EMPTY && maxClients == 10_000
      ensures this.perMinute == (if perMinute <= 0 then 120 else perMinute)
      ensures this.burst == (if burst <= 0 then 30 else burst)
    {
      this.perMinute := if perMinute <= 0 then DEFAULT_PER_MINUTE else perMinute;
      this.burst := if burst <= 0 then DEFAULT_BURST else burst;
      maxClients := MAX_CLIENTS;
      buckets := map[];
      lastSweepTime := None;
      overflow := Bucket(0, 0, 0);
      overflowReady := false;
    }

    method DropExpired(now: int)
      modifies this`buckets
      ensures buckets == map k | k in old(buckets) && !Expired(old(buckets)[k], now) :: old(buckets)[k]
    {
      var pending := buckets.Keys;
      while pending != {}
        invariant pending <= buckets.Keys <= old(buckets).Keys
        invariant forall k :: k in buckets ==> buckets[k] == old(buckets)[k]
        invariant forall k :: k in old(buckets) && k !in pending ==> (k in buckets <==> !Expired(old(buckets)[k], now))
        decreases |pending|
      {
        var key :| key in pending;
        if now - buckets[key].lastSeen >= TTL {
          buckets := buckets - {key};
        }
        pending := pending - {key};
      }
    }

    method StoreBucket(client: Identity, bucket: Bucket, useOverflow: bool)
      modifies this`buckets, this`overflow, this`overflowReady
      ensures View() == if useOverflow then old(View()).(overflow := Some(bucket))
                        else old(View()).(buckets := old(buckets)[client := bucket])
    {
      if useOverflow {
        overflow := bucket;
        overflowReady := true;
        return;
      }
      buckets := buckets[client := bucket];
    }

    method Allow(client: Identity, tokens: int, now: int) returns (allowed: bool, retry: int)
      requires Valid(Settings())
      modifies this
      ensures (View(), Answer(allowed, retry)) == AllowN(Settings(), old(View()), Request(client, tokens, now))
    {
      if tokens <= 0 {
        return true, 0;
      }
      if tokens > burst {
        return false, RETRY_NEVER;
      }
      if lastSweepTime == None || now - lastSweepTime.value >= MINUTE {
        DropExpired(now);
        lastSweepTime := Some(now);
      }
      assert View() == Sweep(old(View()), now);
      var found := client in buckets;
      var bucket := if found then buckets[client] else Bucket(0, 0, 0);
      var useOverflow := false;
      if !found {
        if |buckets| >= maxClients {
          bucket := overflow;
          found := overflowReady;
          useOverflow := true;
        }
        if !found {
          bucket := Bucket(burst * UNIT, now, now);
        }
      }
      var elapsed := now - bucket.updated;
      if elapsed > 0 {
        bucket := bucket.(tokens := Min(burst * UNIT, bucket.tokens + elapsed * perMinute), updated := now);
      }
      bucket := bucket.(lastSeen := now);
      if bucket.tokens >= tokens * UNIT {
        bucket := bucket.(tokens := bucket.tokens - tokens * UNIT);
        StoreBucket(client, bucket, useOverflow);
        return true, 0;
      }
      StoreBucket(client, bucket, useOverflow);
      return false, CeilDiv(tokens * UNIT - bucket.tokens, perMinute);
    }
  }
}
