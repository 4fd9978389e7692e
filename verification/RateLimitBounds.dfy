/** How many requests the limiter admits, over whole runs and any window. */
module RateLimitBounds {
  import opened Basics
  import opened RateLimitModel

  predicate Admitted(tiers: Tiers, before: seq<Event>, e: Event) {
    e.Hit? && Admits(Run(tiers, before), e.key, TierOf(tiers, e.key), e.now)
  }

  /** The number of admitted requests of one actor in a half-open window. */
  function AdmittedIn(tiers: Tiers, events: seq<Event>, key: ActorKey, from: Time, to: Time): nat {
    if events == [] then 0
    else
      var before, e := events[..|events| - 1], events[|events| - 1];
      AdmittedIn(tiers, before, key, from, to)
      + if e.Hit? && e.key == key && from <= e.now < to && Admitted(tiers, before, e) then 1 else 0
  }

  /** The number of requests of one actor, admitted or not, from an instant on. */
  function HitsFrom(events: seq<Event>, key: ActorKey, from: Time): nat {
    if events == [] then 0
    else
      var e := events[|events| - 1];
      HitsFrom(events[..|events| - 1], key, from) + if e.Hit? && e.key == key && from <= e.now then 1 else 0
  }

  /** One bucket admits one request less than the configured maximum. */
  function Quota(tier: Tier): nat {
    if tier.maxRequests > 1 then tier.maxRequests - 1 else 0
  }

  function Min(a: int, b: int): int { if a < b then a else b }

  /** The most a window of this length can admit when buckets last as long. */
  function Most(q: nat, w: nat): nat {
    if w >= 2 then 2 * q - Min(1, q) else if w == 1 then q else 0
  }

  /**
   * A full bucket, and another one less the request that opened it before the window; a window of one millisecond has no
   * room for the second bucket, and an empty window for none.
   */
  function WindowBound(tier: Tier): nat {
    Most(Quota(tier), tier.windowMs)
  }

  predicate NeverReset(events: seq<Event>, key: ActorKey) {
    forall i | 0 <= i < |events| :: events[i] != Reset(key)
  }

  /** All requests so far came at or before an instant. */
  predicate Until(events: seq<Event>, now: Time) {
    forall i | 0 <= i < |events| && events[i].Hit? :: events[i].now <= now
  }

  /** A request is admitted exactly when it is among the first `Quota` of its bucket. */
  lemma AdmitsIffWithinQuota(buckets: Buckets, key: ActorKey, tier: Tier, now: Time)
    ensures Admits(buckets, key, tier, now) <==> BucketAt(buckets, key, tier, now).count + 1 <= Quota(tier)
  {
  }

  lemma ConsumeBucket(buckets: Buckets, key: ActorKey, tier: Tier, now: Time)
    ensures key in Consume(buckets, key, tier, now)
    ensures var b, c := BucketAt(buckets, key, tier, now), Consume(buckets, key, tier, now)[key];
      c.count == b.count + 1 && c.resetAt == b.resetAt
  {
  }

  // ---------- One window ----------

  /** What a bucket with this count and end says about the requests admitted in a window of its own length. */
  predicate WindowOk(q: nat, w: nat, from: Time, count: nat, resetAt: Time, admitted: int) {
    var start, used := resetAt - w, Min(count, q);
    && (resetAt <= from ==> admitted == 0)
    && (start < from ==> admitted <= used - Min(1, q))
    && (start == from ==> admitted <= used)
    && (from < start < from + w ==> admitted <= q - Min(1, q) + used)
    && admitted <= Most(q, w)
  }

  lemma WindowHit(q: nat, w: nat, from: Time, count: nat, resetAt: Time, admitted: int, now: Time)
    requires count >= 1 && WindowOk(q, w, from, count, resetAt, admitted)
    requires resetAt - w <= now < resetAt
    ensures WindowOk(q, w, from, count + 1, resetAt,
              admitted + if from <= now < from + w && count + 1 <= q then 1 else 0)
  {
  }

  lemma WindowReset(q: nat, w: nat, from: Time, count: nat, resetAt: Time, admitted: int, now: Time)
    requires count >= 1 && WindowOk(q, w, from, count, resetAt, admitted) && resetAt <= now
    ensures WindowOk(q, w, from, 1, now + w, admitted + if from <= now < from + w && 1 <= q then 1 else 0)
  {
  }

  lemma WindowOpen(q: nat, w: nat, from: Time, now: Time)
    ensures WindowOk(q, w, from, 1, now + w, if from <= now < from + w && 1 <= q then 1 else 0)
  {
  }

  /** What the current bucket of an actor says about a window. */
  ghost predicate WindowTells(tiers: Tiers, events: seq<Event>, key: ActorKey, from: Time) {
    var tier := TierOf(tiers, key);
    var admitted := AdmittedIn(tiers, events, key, from, from + tier.windowMs);
    if key !in Run(tiers, events) then admitted == 0
    else
      var b := Run(tiers, events)[key];
      b.count >= 1 && WindowOk(Quota(tier), tier.windowMs, from, b.count, b.resetAt, admitted)
  }

  lemma {:induction false} WindowKeeps(tiers: Tiers, before: seq<Event>, now: Time, key: ActorKey, from: Time)
    requires WindowTells(tiers, before, key, from)
    requires key in Run(tiers, before) ==> Run(tiers, before)[key].resetAt - TierOf(tiers, key).windowMs <= now
    ensures WindowTells(tiers, before + [Hit(key, now)], key, from)
  {
    var events, tier, buckets := before + [Hit(key, now)], TierOf(tiers, key), Run(tiers, before);
    assert events[..|before|] == before;
    AdmitsIffWithinQuota(buckets, key, tier, now);
    ConsumeBucket(buckets, key, tier, now);
    var q, w := Quota(tier), tier.windowMs;
    var admitted := AdmittedIn(tiers, before, key, from, from + w);
    if key !in buckets {
      WindowOpen(q, w, from, now);
    } else if now >= buckets[key].resetAt {
      WindowReset(q, w, from, buckets[key].count, buckets[key].resetAt, admitted, now);
    } else {
      WindowHit(q, w, from, buckets[key].count, buckets[key].resetAt, admitted, now);
    }
  }

  /** The current bucket of an actor was opened no later than an instant. */
  predicate OpenBy(tiers: Tiers, events: seq<Event>, key: ActorKey, now: Time) {
    key in Run(tiers, events) ==> Run(tiers, events)[key].resetAt - TierOf(tiers, key).windowMs <= now
  }

  lemma {:induction false} BucketsOpenBy(tiers: Tiers, events: seq<Event>, key: ActorKey, now: Time)
    requires Until(events, now)
    ensures OpenBy(tiers, events, key, now)
  {
    if events != [] {
      var before, e := events[..|events| - 1], events[|events| - 1];
      BucketsOpenBy(tiers, before, key, now);
      if e.Hit? { ConsumeBucket(Run(tiers, before), e.key, TierOf(tiers, e.key), e.now); }
    }
  }

  lemma UntilLast(events: seq<Event>)
    requires Monotone(events) && events != [] && events[|events| - 1].Hit?
    ensures Until(events[..|events| - 1], events[|events| - 1].now)
  {
  }

  lemma {:induction false} TellsAlways(tiers: Tiers, events: seq<Event>, key: ActorKey, from: Time)
    requires Monotone(events) && NeverReset(events, key)
    ensures WindowTells(tiers, events, key, from)
  {
    if events != [] {
      var n := |events| - 1;
      var before, e := events[..n], events[n];
      TellsAlways(tiers, before, key, from);
      if e.Hit? && e.key == key {
        assert events == before + [Hit(key, e.now)];
        UntilLast(events);
        BucketsOpenBy(tiers, before, key, e.now);
        WindowKeeps(tiers, before, e.now, key, from);
      }
    }
  }

  /**
   * Over every run in clock order that never resets the actor, any half-open window of the configured length admits at
   * most `WindowBound`: two quotas less one request, unless the window is shorter than two milliseconds.
   */
  lemma {:induction false} AnyWindowBound(tiers: Tiers, events: seq<Event>, key: ActorKey, from: Time)
    requires Monotone(events) && NeverReset(events, key)
    ensures AdmittedIn(tiers, events, key, from, from + TierOf(tiers, key).windowMs) <= WindowBound(TierOf(tiers, key))
  {
    TellsAlways(tiers, events, key, from);
  }

  /** With the default tiers, a minute admits almost twice the number each tier names, and no more. */
  lemma {:induction false} DefaultMinute(events: seq<Event>, key: ActorKey, from: Time)
    requires Monotone(events) && NeverReset(events, key)
    ensures AdmittedIn(DEFAULT_TIERS, events, key, from, from + 60_000) <=
      match key.actorType
      case AnonymousActor => 57
      case UserActor => 117
      case BusinessActor => 237
      case AdminActor => 597
  {
    AnyWindowBound(DEFAULT_TIERS, events, key, from);
  }

  // ---------- The bound is attained ----------

  function Burst(key: ActorKey, now: Time, n: nat): seq<Event> {
    seq(n, _ => Hit(key, now))
  }

  lemma {:induction false} OneAdmitted(tiers: Tiers, before: seq<Event>, key: ActorKey, now: Time, from: Time, to: Time)
    requires from <= now < to && key in Run(tiers, before) && now < Run(tiers, before)[key].resetAt
    requires Run(tiers, before)[key].count + 1 <= Quota(TierOf(tiers, key))
    ensures var events := before + [Hit(key, now)];
      && key in Run(tiers, events)
      && Run(tiers, events)[key] == Bucket(Run(tiers, before)[key].count + 1, Run(tiers, before)[key].resetAt)
      && AdmittedIn(tiers, events, key, from, to) == AdmittedIn(tiers, before, key, from, to) + 1
  {
    var events := before + [Hit(key, now)];
    assert events[..|before|] == before && events[|before|] == Hit(key, now);
    AdmitsIffWithinQuota(Run(tiers, before), key, TierOf(tiers, key), now);
  }

  /** A burst inside an open bucket is admitted while the quota lasts. */
  lemma {:induction false} BurstAdmitted(tiers: Tiers, before: seq<Event>, key: ActorKey, now: Time, n: nat, from: Time, to: Time)
    requires from <= now < to && key in Run(tiers, before) && now < Run(tiers, before)[key].resetAt
    requires Run(tiers, before)[key].count + n <= Quota(TierOf(tiers, key))
    ensures var events := before + Burst(key, now, n);
      && key in Run(tiers, events)
      && Run(tiers, events)[key] == Bucket(Run(tiers, before)[key].count + n, Run(tiers, before)[key].resetAt)
      && AdmittedIn(tiers, events, key, from, to) == AdmittedIn(tiers, before, key, from, to) + n
    decreases n
  {
    if n == 0 {
      assert before + Burst(key, now, 0) == before;
    } else {
      BurstAdmitted(tiers, before, key, now, n - 1, from, to);
      var less, events := before + Burst(key, now, n - 1), before + Burst(key, now, n);
      assert events == less + [Hit(key, now)];
      OneAdmitted(tiers, less, key, now, from, to);
    }
  }

  /** A request, then a burst that uses up its bucket just before the window ends. */
  function FirstBucket(key: ActorKey, tier: Tier): seq<Event>
    requires tier.maxRequests >= 2
  {
    [Hit(key, 0)] + Burst(key, tier.windowMs - 1, Quota(tier) - 1)
  }

  /** The same followed by a full burst in the next bucket: a window at the bound, when there is room for both. */
  function TwoBuckets(key: ActorKey, tier: Tier): seq<Event>
    requires tier.maxRequests >= 2
  {
    FirstBucket(key, tier) + [Hit(key, tier.windowMs)] + Burst(key, tier.windowMs, Quota(tier) - 1)
  }

  function Worst(key: ActorKey, tier: Tier): seq<Event> {
    if tier.maxRequests < 2 || tier.windowMs == 0 then []
    else if tier.windowMs == 1 then [Hit(key, 1)] + Burst(key, 1, Quota(tier) - 1)
    else TwoBuckets(key, tier)
  }

  lemma WorstOrdered(key: ActorKey, tier: Tier)
    ensures Monotone(Worst(key, tier)) && NeverReset(Worst(key, tier), key)
  {
  }

  lemma {:induction false} FirstBucketAdmits(tiers: Tiers, key: ActorKey)
    requires TierOf(tiers, key).maxRequests >= 2 && TierOf(tiers, key).windowMs >= 2
    ensures var tier := TierOf(tiers, key);
      var b := FirstBucket(key, tier);
      && Run(tiers, b) == map[key := Bucket(Quota(tier), tier.windowMs)]
      && AdmittedIn(tiers, b, key, 1, 1 + tier.windowMs) == Quota(tier) - 1
  {
    var tier := TierOf(tiers, key);
    var w, q := tier.windowMs, Quota(tier);
    var a := [Hit(key, 0)];
    assert a[..0] == [];
    assert Run(tiers, a) == map[key := Bucket(1, w)];
    BurstAdmitted(tiers, a, key, w - 1, q - 1, 1, 1 + w);
    OnlyKey(tiers, FirstBucket(key, tier), key);
  }

  lemma {:induction false} OnlyKey(tiers: Tiers, events: seq<Event>, key: ActorKey)
    requires forall i | 0 <= i < |events| :: events[i].Hit? && events[i].key == key
    ensures Run(tiers, events).Keys <= {key}
    decreases |events|
  {
    if events != [] { OnlyKey(tiers, events[..|events| - 1], key); }
  }

  lemma {:induction false} OneBucketAdmits(tiers: Tiers, key: ActorKey)
    requires TierOf(tiers, key).maxRequests >= 2 && TierOf(tiers, key).windowMs == 1
    ensures AdmittedIn(tiers, Worst(key, TierOf(tiers, key)), key, 1, 2) == Quota(TierOf(tiers, key))
  {
    var q, a := Quota(TierOf(tiers, key)), [Hit(key, 1)];
    assert a[..0] == [];
    assert Run(tiers, a) == map[key := Bucket(1, 2)];
    AdmitsIffWithinQuota(map[], key, TierOf(tiers, key), 1);
    assert AdmittedIn(tiers, a, key, 1, 2) == 1;
    BurstAdmitted(tiers, a, key, 1, q - 1, 1, 2);
  }

  lemma {:induction false} TwoBucketsAdmit(tiers: Tiers, key: ActorKey)
    requires TierOf(tiers, key).maxRequests >= 2 && TierOf(tiers, key).windowMs >= 2
    ensures var tier := TierOf(tiers, key);
      AdmittedIn(tiers, TwoBuckets(key, tier), key, 1, 1 + tier.windowMs) == 2 * Quota(tier) - 1
  {
    var tier := TierOf(tiers, key);
    var w, q := tier.windowMs, Quota(tier);
    FirstBucketAdmits(tiers, key);
    var b := FirstBucket(key, tier);
    var c := b + [Hit(key, w)];
    assert c[..|b|] == b;
    AdmitsIffWithinQuota(Run(tiers, b), key, tier, w);
    ConsumeBucket(Run(tiers, b), key, tier, w);
    BurstAdmitted(tiers, c, key, w, q - 1, 1, 1 + w);
  }

  /** The bound cannot be improved for any tier: the limiter is a fixed window, not a sliding one. */
  lemma {:induction false} BoundAttained(tiers: Tiers, key: ActorKey)
    ensures var tier := TierOf(tiers, key);
      && Monotone(Worst(key, tier)) && NeverReset(Worst(key, tier), key)
      && AdmittedIn(tiers, Worst(key, tier), key, 1, 1 + tier.windowMs) == WindowBound(tier)
  {
    var tier := TierOf(tiers, key);
    WorstOrdered(key, tier);
    if tier.maxRequests >= 2 && tier.windowMs == 1 { OneBucketAdmits(tiers, key); }
    if tier.maxRequests >= 2 && tier.windowMs >= 2 { TwoBucketsAdmit(tiers, key); }
  }

  // ---------- Exact quota of a bucket ----------

  lemma {:induction false} NoHitsAfter(events: seq<Event>, key: ActorKey, now: Time, t: Time)
    requires Until(events, now) && t > now
    ensures HitsFrom(events, key, t) == 0
    decreases |events|
  {
    if events != [] { NoHitsAfter(events[..|events| - 1], key, now, t); }
  }

  lemma {:induction false} HitsFewer(events: seq<Event>, key: ActorKey, t: Time, u: Time)
    requires t <= u
    ensures HitsFrom(events, key, u) <= HitsFrom(events, key, t)
    decreases |events|
  {
    if events != [] { HitsFewer(events[..|events| - 1], key, t, u); }
  }

  /** The count of a bucket is the number of requests since it was opened, and none came after its window. */
  ghost predicate CountTells(tiers: Tiers, events: seq<Event>, key: ActorKey) {
    if key !in Run(tiers, events) then forall t :: HitsFrom(events, key, t) == 0
    else
      var b := Run(tiers, events)[key];
      b.count == HitsFrom(events, key, b.resetAt - TierOf(tiers, key).windowMs) && HitsFrom(events, key, b.resetAt) == 0
  }

  lemma {:induction false} CountKeeps(tiers: Tiers, before: seq<Event>, now: Time, key: ActorKey)
    requires CountTells(tiers, before, key) && TierOf(tiers, key).windowMs > 0
    requires Until(before, now) && OpenBy(tiers, before, key, now)
    ensures CountTells(tiers, before + [Hit(key, now)], key)
  {
    var events, tier, buckets := before + [Hit(key, now)], TierOf(tiers, key), Run(tiers, before);
    assert events[..|before|] == before;
    ConsumeBucket(buckets, key, tier, now);
    NoHitsAfter(before, key, now, now + tier.windowMs);
    if key in buckets && now >= buckets[key].resetAt { HitsFewer(before, key, buckets[key].resetAt, now); }
  }

  lemma {:induction false} CountsAlways(tiers: Tiers, events: seq<Event>, key: ActorKey)
    requires Monotone(events) && NeverReset(events, key) && TierOf(tiers, key).windowMs > 0
    ensures CountTells(tiers, events, key)
  {
    if events != [] {
      var n := |events| - 1;
      var before, e := events[..n], events[n];
      CountsAlways(tiers, before, key);
      if e.Hit? && e.key == key {
        assert events == before + [Hit(key, e.now)];
        UntilLast(events);
        BucketsOpenBy(tiers, before, key, e.now);
        CountKeeps(tiers, before, e.now, key);
      }
    }
  }

  /** In every run a request is admitted exactly when it is one of the first `maxRequests - 1` since its bucket opened. */
  lemma {:induction false} FirstOnesAdmitted(tiers: Tiers, before: seq<Event>, key: ActorKey, now: Time)
    requires Monotone(before + [Hit(key, now)]) && NeverReset(before, key) && TierOf(tiers, key).windowMs > 0
    ensures var events := before + [Hit(key, now)];
      && key in Run(tiers, events)
      && var start := Run(tiers, events)[key].resetAt - TierOf(tiers, key).windowMs;
      && (Admitted(tiers, before, Hit(key, now)) <==> HitsFrom(events, key, start) <= Quota(TierOf(tiers, key)))
      && start <= now < start + TierOf(tiers, key).windowMs
  {
    var events := before + [Hit(key, now)];
    assert events[..|before|] == before && events[|before|] == Hit(key, now);
    CountsAlways(tiers, events, key);
    AdmitsIffWithinQuota(Run(tiers, before), key, TierOf(tiers, key), now);
    ConsumeBucket(Run(tiers, before), key, TierOf(tiers, key), now);
    UntilLast(events);
    BucketsOpenBy(tiers, before, key, now);
  }

  // ---------- The announced remainder ----------

  /** The buckets after n requests more, all at one time. */
  function Again(buckets: Buckets, key: ActorKey, tier: Tier, now: Time, n: nat): Buckets {
    if n == 0 then buckets else Consume(Again(buckets, key, tier, now, n - 1), key, tier, now)
  }

  lemma {:induction false} AgainCounts(buckets: Buckets, key: ActorKey, tier: Tier, now: Time, n: nat)
    requires key in buckets && now < buckets[key].resetAt
    ensures key in Again(buckets, key, tier, now, n)
    ensures Again(buckets, key, tier, now, n)[key] == Bucket(buckets[key].count + n, buckets[key].resetAt)
    decreases n
  {
    if n > 0 { AgainCounts(buckets, key, tier, now, n - 1); }
  }

  /**
   * What is announced as remaining is one more than what is left: while the bucket lasts, the request that follows n
   * others is admitted exactly when n + 1 is less than the announced remainder.
   */
  lemma {:induction false} RemainderMeans(buckets: Buckets, key: ActorKey, tier: Tier, now: Time, n: nat)
    requires key in buckets && now < buckets[key].resetAt
    ensures Remaining(buckets[key], tier) >= 0
    ensures Admits(Again(buckets, key, tier, now, n), key, tier, now) <==> n + 1 < Remaining(buckets[key], tier)
  {
    AgainCounts(buckets, key, tier, now, n);
  }

  // ---------- Waiting ----------

  /** The announced wait outlasts the bucket by less than a second, and helps exactly when the tier admits anything at all. */
  lemma RetryHelpsIff(buckets: Buckets, key: ActorKey, tier: Tier, now: Time)
    requires !Admits(buckets, key, tier, now)
    ensures var after := Consume(buckets, key, tier, now);
      var later := now + 1000 * RetryAfter(after[key], now);
      && after[key].resetAt <= later < after[key].resetAt + 1000
      && (Admits(after, key, tier, later) <==> tier.maxRequests >= 2)
  {
  }

  /** Each default number is reached. */
  lemma {:induction false} DefaultMinuteReached(key: ActorKey)
    ensures var events := Worst(key, TierOf(DEFAULT_TIERS, key));
      && Monotone(events) && NeverReset(events, key)
      && AdmittedIn(DEFAULT_TIERS, events, key, 1, 60_001) ==
        match key.actorType
        case AnonymousActor => 57
        case UserActor => 117
        case BusinessActor => 237
        case AdminActor => 597
  {
    BoundAttained(DEFAULT_TIERS, key);
  }
}
