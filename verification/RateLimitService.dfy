/** The rate limiter's mutable buckets and the guard that drives it. */
module RateLimitServices {
  import opened Basics
  import M = RateLimitModel

  datatype Entry = Entry(remaining: int, resetAt: Time)

  class InMemoryRateLimitStrategy {
    var buckets: M.Buckets

    constructor ()
      ensures buckets == map[]
    {
      buckets := map[];
    }

    method Consume(actorKey: M.ActorKey, tier: M.Tier, now: Time) returns (entry: Entry)
      modifies this
      ensures buckets == M.Consume(old(buckets), actorKey, tier, now)
      ensures actorKey in buckets
      ensures entry == Entry(M.Remaining(buckets[actorKey], tier), buckets[actorKey].resetAt)
    {
      if actorKey !in buckets || now >= buckets[actorKey].resetAt {
        buckets := buckets[actorKey := M.Bucket(0, now + tier.windowMs)];
      }
      var bucket := buckets[actorKey];
      bucket := bucket.(count := bucket.count + 1);
      buckets := buckets[actorKey := bucket];
      var remaining := if tier.maxRequests - bucket.count > 0 then tier.maxRequests - bucket.count else 0;
      return Entry(remaining, bucket.resetAt);
    }

    method Reset(actorKey: M.ActorKey)
      modifies this
      ensures buckets == old(buckets) - {actorKey}
    {
      buckets := buckets - {actorKey};
    }
  }

  class RateLimitGuard {
    const strategy: InMemoryRateLimitStrategy
    const tiers: M.Tiers

    constructor (strategy: InMemoryRateLimitStrategy, tiers: M.Tiers)
      ensures this.strategy == strategy && this.tiers == tiers
    {
      this.strategy := strategy;
      this.tiers := tiers;
    }

    /** A skipped handler consumes nothing; otherwise the answer is to pass, or the number of seconds to wait. */
    method CanActivate(request: M.HttpRequest, skip: bool, now: Time) returns (retryAfter: Option<int>)
      modifies strategy
      ensures skip ==> retryAfter == None && strategy.buckets == old(strategy.buckets)
      ensures !skip ==>
        var key := M.ResolveActorKey(request);
        var tier := M.TierOf(tiers, key);
        && strategy.buckets == M.Consume(old(strategy.buckets), key, tier, now)
        && (retryAfter == None <==> M.Admits(old(strategy.buckets), key, tier, now))
        && (retryAfter.Some? ==> retryAfter.value == M.RetryAfter(strategy.buckets[key], now))
    {
      if skip { return None; }
      var actorKey := M.ResolveActorKey(request);
      var tier := M.TierOf(tiers, actorKey);
      var entry := strategy.Consume(actorKey, tier, now);
      if entry.remaining <= 0 {
        return Some((entry.resetAt - now + 999) / 1000);
      }
      return None;
    }
  }
}
