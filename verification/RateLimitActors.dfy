/** Whose requests share a bucket, in terms of the fields of the request. */
module RateLimitActors {
  import opened Basics
  import opened Letters
  import opened RateLimitModel
  import opened RateLimitBounds

  /** The role of the request is this word, up to case. */
  predicate HasRole(r: HttpRequest, word: string) {
    r.role.Some? && SameUpToCase(r.role.value, word)
  }

  /** The class a request belongs to by its role. */
  predicate IsOfClass(r: HttpRequest, t: ActorType) {
    match t
    case AdminActor => HasRole(r, "ADMIN") || HasRole(r, "PLATFORM_ADMIN")
    case BusinessActor => HasRole(r, "BUSINESS")
    case UserActor => r.role.Some? && r.role.value != "" && !HasRole(r, "ADMIN") && !HasRole(r, "PLATFORM_ADMIN") && !HasRole(r, "BUSINESS")
    case AnonymousActor => r.role.None? || r.role.value == ""
  }

  predicate SignedIn(r: HttpRequest, userId: string) {
    r.userId == Some(userId) && userId != ""
  }

  /** Whom the request comes from: the signed-in user, or else the address, or else nobody known. */
  predicate ComesFrom(r: HttpRequest, who: string) {
    if r.userId.Some? && r.userId.value != "" then who == r.userId.value
    else if r.ip.Some? then who == r.ip.value
    else who == "unknown"
  }

  lemma {:induction false} UpperMeans(s: string, t: string)
    requires NoSmallLetters(t)
    ensures Upper(s) == t <==> SameUpToCase(s, t)
  {
    if Upper(s) == t {
      assert |Upper(s)| == |s|;
      forall i | 0 <= i < |s| ensures SameLetter(s[i], t[i]) { assert Upper(s)[i] == t[i]; }
    }
    if SameUpToCase(s, t) {
      forall i | 0 <= i < |s| ensures Upper(s)[i] == t[i] { assert SameLetter(s[i], t[i]); }
      assert Upper(s) == t;
    }
  }

  /** The actor type is the class of the role. */
  lemma {:induction false} ClassIff(r: HttpRequest, t: ActorType)
    ensures ResolveActorType(r) == t <==> IsOfClass(r, t)
  {
    if r.role.Some? {
      UpperMeans(r.role.value, "ADMIN");
      UpperMeans(r.role.value, "PLATFORM_ADMIN");
      UpperMeans(r.role.value, "BUSINESS");
    }
  }

  /** Two requests are of one actor: the same class, and from the same user or, when not signed in, the same address. */
  ghost predicate OneActor(q: HttpRequest, r: HttpRequest) {
    && (exists t :: IsOfClass(q, t) && IsOfClass(r, t))
    && (exists who :: ComesFrom(q, who) && ComesFrom(r, who))
  }

  lemma WhoIsIdent(r: HttpRequest)
    ensures ComesFrom(r, ResolveActorKey(r).ident)
    ensures forall who :: ComesFrom(r, who) ==> who == ResolveActorKey(r).ident
    ensures ResolveActorKey(r).actorType == ResolveActorType(r)
  {
  }

  /** Two requests count against one bucket exactly when they are of one actor. */
  lemma {:induction false} OneKeyIff(q: HttpRequest, r: HttpRequest)
    ensures ResolveActorKey(q) == ResolveActorKey(r) <==> OneActor(q, r)
  {
    WhoIsIdent(q);
    WhoIsIdent(r);
    if ResolveActorKey(q) == ResolveActorKey(r) {
      ClassIff(q, ResolveActorType(q));
      ClassIff(r, ResolveActorType(q));
      assert ComesFrom(q, ResolveActorKey(q).ident) && ComesFrom(r, ResolveActorKey(q).ident);
    }
    if OneActor(q, r) {
      var t :| IsOfClass(q, t) && IsOfClass(r, t);
      ClassIff(q, t);
      ClassIff(r, t);
    }
  }

  /** Different signed-in users never share a bucket, whatever their roles and addresses. */
  lemma {:induction false} UsersApart(q: HttpRequest, r: HttpRequest, a: string, b: string)
    requires SignedIn(q, a) && SignedIn(r, b) && a != b
    ensures !OneActor(q, r)
  {
  }

  /** A request is charged to the tier of its class, or to the anonymous one if the table has none for it. */
  lemma {:induction false} TierIsOfClass(tiers: Tiers, r: HttpRequest, t: ActorType)
    requires IsOfClass(r, t)
    ensures t in tiers ==> TierOf(tiers, ResolveActorKey(r)) == tiers[t]
    ensures t !in tiers && AnonymousActor in tiers ==> TierOf(tiers, ResolveActorKey(r)) == tiers[AnonymousActor]
  {
    ClassIff(r, t);
  }

  // ---------- Runs of requests ----------

  datatype Visit = Visit(request: HttpRequest, now: Time)

  function HitOf(v: Visit): Event { Hit(ResolveActorKey(v.request), v.now) }

  function Hits(visits: seq<Visit>): seq<Event> {
    seq(|visits|, i requires 0 <= i < |visits| => HitOf(visits[i]))
  }

  /** The guard lets the request through after these others. */
  predicate LetThrough(tiers: Tiers, visits: seq<Visit>, v: Visit) {
    Admitted(tiers, Hits(visits), HitOf(v))
  }

  /** The visits of the same actor. */
  ghost function Own(visits: seq<Visit>, r: HttpRequest): seq<Visit> {
    if visits == [] then []
    else
      var last := visits[|visits| - 1];
      Own(visits[..|visits| - 1], r) + if OneActor(last.request, r) then [last] else []
  }

  lemma HitsSnoc(visits: seq<Visit>, v: Visit)
    ensures Hits(visits + [v]) == Hits(visits) + [HitOf(v)]
  {
  }

  lemma RunSnoc(tiers: Tiers, events: seq<Event>, e: Event)
    ensures Run(tiers, events + [e]) == Next(tiers, Run(tiers, events), e)
  {
    assert (events + [e])[..|events|] == events;
  }

  /** The bucket of an actor is the one its own visits alone would have left. */
  lemma {:induction false} OwnBucket(tiers: Tiers, visits: seq<Visit>, r: HttpRequest)
    ensures var key, all, own := ResolveActorKey(r), Run(tiers, Hits(visits)), Run(tiers, Hits(Own(visits, r)));
      (key in all <==> key in own) && (key in all ==> all[key] == own[key])
    decreases |visits|
  {
    if visits != [] {
      var front, last := visits[..|visits| - 1], visits[|visits| - 1];
      OwnBucket(tiers, front, r);
      OneKeyIff(last.request, r);
      assert visits == front + [last];
      HitsSnoc(front, last);
      RunSnoc(tiers, Hits(front), HitOf(last));
      if OneActor(last.request, r) {
        HitsSnoc(Own(front, r), last);
        RunSnoc(tiers, Hits(Own(front, r)), HitOf(last));
      } else {
        assert Own(visits, r) == Own(front, r);
      }
    }
  }

  /** Over every run, whether a request is let through depends on the visits of its own actor only. */
  lemma {:induction false} OnlyOwnVisitsCount(tiers: Tiers, visits: seq<Visit>, v: Visit)
    ensures LetThrough(tiers, visits, v) <==> LetThrough(tiers, Own(visits, v.request), v)
  {
    OwnBucket(tiers, visits, v.request);
  }

  lemma {:induction false} OwnJoin(a: seq<Visit>, b: seq<Visit>, r: HttpRequest)
    ensures Own(a + b, r) == Own(a, r) + Own(b, r)
    decreases |b|
  {
    if b == [] {
      assert a + b == a;
    } else {
      var front, last := b[..|b| - 1], b[|b| - 1];
      OwnJoin(a, front, r);
      assert (a + b)[..|a + b| - 1] == a + front && (a + b)[|a + b| - 1] == last;
    }
  }

  /** Over every run, a visit of another signed-in user, made at any time, changes nothing for this one. */
  lemma {:induction false} OtherUsersDoNotCount(
      tiers: Tiers, before: seq<Visit>, other: Visit, after: seq<Visit>, v: Visit, a: string, b: string)
    requires SignedIn(other.request, a) && SignedIn(v.request, b) && a != b
    ensures LetThrough(tiers, before + [other] + after, v) <==> LetThrough(tiers, before + after, v)
  {
    UsersApart(other.request, v.request, a, b);
    OwnJoin(before + [other], after, v.request);
    OwnJoin(before, [other], v.request);
    OwnJoin(before, after, v.request);
    assert [other][..0] == [];
    assert Own([other], v.request) == [];
    assert Own(before, v.request) + [] == Own(before, v.request);
    OnlyOwnVisitsCount(tiers, before + [other] + after, v);
    OnlyOwnVisitsCount(tiers, before + after, v);
  }
}
