/** The in-memory rate limiter and the guard in front of it, as values. */
module RateLimitModel {
  import opened Basics

  // ---------- Actors ----------

  datatype ActorType = AdminActor | BusinessActor | UserActor | AnonymousActor

  /** The bucket key; the source joins the two parts with a colon, which no actor type contains. */
  datatype ActorKey = ActorKey(actorType: ActorType, ident: string)

  datatype HttpRequest = HttpRequest(userId: Option<string>, role: Option<string>, ip: Option<string>)

  /** A present, non-empty string. */
  predicate Truthy(s: Option<string>) {
    s.Some? && s.value != ""
  }

  function UpperChar(c: char): char {
    if 'a' <= c <= 'z' then c - 'a' + 'A' else c
  }

  function Upper(s: string): string {
    seq(|s|, i requires 0 <= i < |s| => UpperChar(s[i]))
  }

  function ResolveActorType(request: HttpRequest): ActorType {
    if !Truthy(request.role) then AnonymousActor
    else
      var role := Upper(request.role.value);
      if role == "ADMIN" || role == "PLATFORM_ADMIN" then AdminActor
      else if role == "BUSINESS" then BusinessActor
      else UserActor
  }

  function ResolveActorKey(request: HttpRequest): ActorKey {
    var actorType := ResolveActorType(request);
    if Truthy(request.userId) then ActorKey(actorType, request.userId.value)
    else ActorKey(actorType, if request.ip.Some? then request.ip.value else "unknown")
  }

  // ---------- Buckets ----------

  datatype Tier = Tier(windowMs: nat, maxRequests: int)

  type Tiers = map<ActorType, Tier>

  const DEFAULT_TIERS: Tiers := map[
    AnonymousActor := Tier(60_000, 30), UserActor := Tier(60_000, 60),
    BusinessActor := Tier(60_000, 120), AdminActor := Tier(60_000, 300)]

  const NO_TIER := Tier(0, 0)

  /** Tiers left out of a custom configuration fall back to the anonymous one. */
  function TierOf(tiers: Tiers, key: ActorKey): Tier {
    if key.actorType in tiers then tiers[key.actorType]
    else if AnonymousActor in tiers then tiers[AnonymousActor] else NO_TIER
  }

  datatype Bucket = Bucket(count: nat, resetAt: Time)

  type Buckets = map<ActorKey, Bucket>

  /** The bucket a request falls in: a new one if there is none or its window has passed. */
  function BucketAt(buckets: Buckets, key: ActorKey, tier: Tier, now: Time): Bucket {
    if key !in buckets || now >= buckets[key].resetAt then Bucket(0, now + tier.windowMs) else buckets[key]
  }

  function Consume(buckets: Buckets, key: ActorKey, tier: Tier, now: Time): Buckets {
    var b := BucketAt(buckets, key, tier, now);
    buckets[key := b.(count := b.count + 1)]
  }

  function Remaining(b: Bucket, tier: Tier): int {
    if tier.maxRequests - b.count > 0 then tier.maxRequests - b.count else 0
  }

  /** The guard lets a request through when something remains after counting it. */
  predicate Admits(buckets: Buckets, key: ActorKey, tier: Tier, now: Time) {
    Remaining(Consume(buckets, key, tier, now)[key], tier) > 0
  }

  /** Seconds to wait, rounded up. */
  function RetryAfter(b: Bucket, now: Time): int {
    (b.resetAt - now + 999) / 1000
  }

  // ---------- Runs ----------

  datatype Event = Hit(key: ActorKey, now: Time) | Reset(key: ActorKey)

  function Next(tiers: Tiers, buckets: Buckets, e: Event): Buckets {
    match e
    case Hit(key, now) => Consume(buckets, key, TierOf(tiers, key), now)
    case Reset(key) => buckets - {key}
  }

  function Run(tiers: Tiers, events: seq<Event>): Buckets {
    if events == [] then map[] else Next(tiers, Run(tiers, events[..|events| - 1]), events[|events| - 1])
  }

  /** Requests arrive in clock order. */
  predicate Monotone(events: seq<Event>) {
    forall i, j | 0 <= i < j < |events| && events[i].Hit? && events[j].Hit? :: events[i].now <= events[j].now
  }
}
