/** Throttling and guessing bounds over whole runs. */
module OtpGuarantees {
  import opened Basics
  import opened OtpModel

  // ---------- The invariant ----------

  /** The two tables hold the same challenges up to consumption and attempts. */
  ghost predicate SameStamps(a: seq<Challenge>, b: seq<Challenge>) {
    |a| == |b| && forall i | 0 <= i < |a| ::
      a[i].phone == b[i].phone && a[i].createdAt == b[i].createdAt && a[i].expiresAt == b[i].expiresAt
  }

  /** Challenges live for the configured time, and a phone's are inserted a minute or more apart. */
  ghost predicate Spaced(cs: seq<Challenge>, cfg: Config) {
    && (forall i | 0 <= i < |cs| :: cs[i].expiresAt == cs[i].createdAt + cfg.ttl)
    && (forall i, j | 0 <= i < j < |cs| && cs[i].phone == cs[j].phone :: cs[j].createdAt - cs[i].createdAt >= MIN_GAP)
  }

  /** At the moment a challenge was created, the phone had at most five in the hour that ended then. */
  ghost predicate Capped(cs: seq<Challenge>) {
    forall j {:trigger cs[j]} | 0 <= j < |cs| :: CountSince(cs[..j + 1], cs[j].phone, cs[j].createdAt - HOUR) <= HOURLY_CAP
  }

  /** An older challenge of the phone is consumed, or had expired when the newer one was created. */
  ghost predicate Superseded(cs: seq<Challenge>) {
    forall i, j | 0 <= i < j < |cs| && cs[i].phone == cs[j].phone ::
      cs[i].consumedAt.Some? || cs[i].expiresAt <= cs[j].createdAt
  }

  function ProbesOf(probes: seq<Probe>, i: nat): nat {
    if probes == [] then 0
    else ProbesOf(probes[..|probes| - 1], i) + if probes[|probes| - 1].challenge == i then 1 else 0
  }

  /** Comparisons are limited by the attempts of their challenge; no clock comes into it. */
  ghost predicate Counted(s: OtpState, cfg: Config) {
    && (forall k | 0 <= k < |s.probes| :: s.probes[k].challenge < |s.challenges|)
    && (forall i {:trigger ProbesOf(s.probes, i)} | 0 <= i < |s.challenges| ::
          && ProbesOf(s.probes, i) <= cfg.maxAttempts
          && (s.challenges[i].consumedAt.None? ==> ProbesOf(s.probes, i) == s.challenges[i].attempts))
  }

  /** A comparison comes after the creation of its challenge and no later than that of the phone's next one. */
  ghost predicate Timely(p: Probe, cs: seq<Challenge>, now: Time) {
    && p.challenge < |cs| && cs[p.challenge].createdAt <= p.at <= now
    && forall j | p.challenge < j < |cs| && cs[j].phone == cs[p.challenge].phone :: p.at <= cs[j].createdAt
  }

  ghost predicate Timed(s: OtpState, now: Time) {
    forall k | 0 <= k < |s.probes| :: Timely(s.probes[k], s.challenges, now)
  }

  /** What holds of the table whatever the clock does: the throttle compares with the stored times only. */
  ghost predicate Table(cs: seq<Challenge>, cfg: Config) {
    Spaced(cs, cfg) && Capped(cs) && Superseded(cs)
  }

  ghost predicate CreatedBy(cs: seq<Challenge>, now: Time) {
    forall i | 0 <= i < |cs| :: cs[i].createdAt <= now
  }

  // ---------- Preservation ----------

  lemma {:induction false} CountSameStamps(a: seq<Challenge>, b: seq<Challenge>, phone: Phone, after: Time)
    requires SameStamps(a, b)
    ensures CountSince(a, phone, after) == CountSince(b, phone, after)
    decreases |a|
  {
    if a != [] { CountSameStamps(a[..|a| - 1], b[..|b| - 1], phone, after); }
  }

  lemma {:induction false} CappedSameStamps(a: seq<Challenge>, b: seq<Challenge>)
    requires SameStamps(a, b) && Capped(a)
    ensures Capped(b)
  {
    forall j | 0 <= j < |b| ensures CountSince(b[..j + 1], b[j].phone, b[j].createdAt - HOUR) <= HOURLY_CAP {
      assert a[j].phone == b[j].phone;
      CountSameStamps(a[..j + 1], b[..j + 1], b[j].phone, b[j].createdAt - HOUR);
    }
  }

  /** A challenge created after the instant is counted. */
  lemma {:induction false} CountedSince(cs: seq<Challenge>, phone: Phone, after: Time, i: nat)
    requires i < |cs| && cs[i].phone == phone && cs[i].createdAt > after
    ensures CountSince(cs, phone, after) > 0
    decreases |cs|
  {
    if i < |cs| - 1 { CountedSince(cs[..|cs| - 1], phone, after, i); }
  }

  lemma {:induction false} ProbesBeyond(probes: seq<Probe>, n: nat, i: nat)
    requires i >= n && forall k | 0 <= k < |probes| :: probes[k].challenge < n
    ensures ProbesOf(probes, i) == 0
    decreases |probes|
  {
    if probes != [] { ProbesBeyond(probes[..|probes| - 1], n, i); }
  }

  /** Any change to attempts and consumption that never revives a challenge keeps spacing, caps and supersession. */
  lemma {:induction false} TouchKeeps(a: seq<Challenge>, b: seq<Challenge>, cfg: Config)
    requires SameStamps(a, b) && Table(a, cfg)
    requires forall i | 0 <= i < |a| :: a[i].consumedAt.Some? ==> b[i].consumedAt.Some?
    ensures Table(b, cfg)
  {
    CappedSameStamps(a, b);
    forall i, j | 0 <= i < j < |b| && b[i].phone == b[j].phone
      ensures b[j].createdAt - b[i].createdAt >= MIN_GAP
      ensures b[i].consumedAt.Some? || b[i].expiresAt <= b[j].createdAt
    {
      assert a[i].phone == a[j].phone;
    }
  }

  /** The table after issuing: the superseded challenges, then the new one. */
  lemma {:induction false} IssueCapped(cs: seq<Challenge>, sup: seq<Challenge>, next: Challenge)
    requires SameStamps(cs, sup) && Capped(sup)
    requires CountSince(cs, next.phone, next.createdAt - HOUR) < HOURLY_CAP
    ensures Capped(sup + [next])
  {
    var cs' := sup + [next];
    forall j | 0 <= j < |cs'| ensures CountSince(cs'[..j + 1], cs'[j].phone, cs'[j].createdAt - HOUR) <= HOURLY_CAP {
      if j < |sup| {
        assert cs'[..j + 1] == sup[..j + 1] && cs'[j] == sup[j];
      } else {
        assert cs'[..j + 1] == cs' && cs'[..|sup|] == sup;
        CountSameStamps(cs, sup, next.phone, next.createdAt - HOUR);
      }
    }
  }

  lemma {:induction false} IssueSpaced(cs: seq<Challenge>, cfg: Config, next: Challenge)
    requires Spaced(cs, cfg) && next.expiresAt == next.createdAt + cfg.ttl
    requires CountSince(cs, next.phone, next.createdAt - MIN_GAP) == 0
    ensures Spaced(cs + [next], cfg)
  {
    var cs' := cs + [next];
    forall i | 0 <= i < |cs| && cs[i].phone == next.phone ensures next.createdAt - cs[i].createdAt >= MIN_GAP {
      if cs[i].createdAt > next.createdAt - MIN_GAP { CountedSince(cs, next.phone, next.createdAt - MIN_GAP, i); }
    }
    assert forall i | 0 <= i < |cs| :: cs'[i] == cs[i];
  }

  lemma IssueSupersedes(cs: seq<Challenge>, next: Challenge)
    requires Superseded(cs)
    requires forall i | 0 <= i < |cs| && cs[i].phone == next.phone :: cs[i].consumedAt.Some? || cs[i].expiresAt <= next.createdAt
    ensures Superseded(cs + [next])
  {
  }

  /** Superseding revives nothing, touches no stamp, and leaves the phone without a live challenge. */
  lemma SupersedeEffect(cs: seq<Challenge>, phone: Phone, now: Time)
    ensures var sup := Supersede(cs, phone, now);
      && SameStamps(cs, sup)
      && (forall i | 0 <= i < |cs| :: cs[i].consumedAt.Some? ==> sup[i].consumedAt.Some?)
      && (forall i | 0 <= i < |sup| :: sup[i].consumedAt.None? ==> sup[i] == cs[i])
      && (forall i | 0 <= i < |sup| && sup[i].phone == phone :: sup[i].consumedAt.Some? || sup[i].expiresAt <= now)
  {
  }

  lemma {:induction false} IssueTable(cs: seq<Challenge>, sup: seq<Challenge>, cfg: Config, next: Challenge)
    requires Table(cs, cfg) && SameStamps(cs, sup)
    requires forall i | 0 <= i < |cs| :: cs[i].consumedAt.Some? ==> sup[i].consumedAt.Some?
    requires forall i | 0 <= i < |sup| && sup[i].phone == next.phone :: sup[i].consumedAt.Some? || sup[i].expiresAt <= next.createdAt
    requires next.expiresAt == next.createdAt + cfg.ttl && Throttle(cs, next.phone, next.createdAt).None?
    ensures Table(sup + [next], cfg)
  {
    TouchKeeps(cs, sup, cfg);
    CountSameStamps(cs, sup, next.phone, next.createdAt - MIN_GAP);
    IssueCapped(cs, sup, next);
    IssueSpaced(sup, cfg, next);
    IssueSupersedes(sup, next);
  }

  lemma {:induction false} IssueKeeps(s: OtpState, cfg: Config, phone: Phone, code: Code, now: Time)
    requires Table(s.challenges, cfg) && Issue(s, cfg, phone, code, now).Ok?
    ensures Table(Issue(s, cfg, phone, code, now).value.challenges, cfg)
  {
    var next := Challenge(phone, Digest(phone, code), now, now + cfg.ttl, None, 0);
    var sup := Supersede(s.challenges, phone, now);
    SupersedeEffect(s.challenges, phone, now);
    IssueTable(s.challenges, sup, cfg, next);
    assert Issue(s, cfg, phone, code, now).value.challenges == sup + [next];
  }

  lemma {:induction false} VerifyKeeps(s: OtpState, cfg: Config, phone: Phone, code: Code, now: Time)
    requires Table(s.challenges, cfg)
    ensures Table(Verify(s, cfg, phone, code, now).0.challenges, cfg)
  {
    TouchKeeps(s.challenges, Verify(s, cfg, phone, code, now).0.challenges, cfg);
  }

  lemma {:induction false} ReachableTable(cfg: Config, calls: seq<OtpCall>)
    ensures Table(Run(cfg, calls).challenges, cfg)
  {
    if calls != [] {
      var s, c := Run(cfg, calls[..|calls| - 1]), calls[|calls| - 1];
      ReachableTable(cfg, calls[..|calls| - 1]);
      match c
      case IssueCall(phone, code, t) =>
        if Issue(s, cfg, phone, code, t).Ok? { IssueKeeps(s, cfg, phone, code, t); }
      case VerifyCall(phone, code, t) => VerifyKeeps(s, cfg, phone, code, t);
    }
  }

  // ---------- Bounded clocks ----------

  lemma StepCreatedBy(s: OtpState, cfg: Config, c: OtpCall, now: Time)
    requires CreatedBy(s.challenges, now) && c.now <= now
    ensures CreatedBy(Next(s, cfg, c).challenges, now)
  {
  }

  lemma {:induction false} ReachableCreatedBy(cfg: Config, calls: seq<OtpCall>, now: Time)
    requires forall i | 0 <= i < |calls| :: calls[i].now <= now
    ensures CreatedBy(Run(cfg, calls).challenges, now)
  {
    if calls != [] {
      ReachableCreatedBy(cfg, calls[..|calls| - 1], now);
      StepCreatedBy(Run(cfg, calls[..|calls| - 1]), cfg, calls[|calls| - 1], now);
    }
  }

  // ---------- Clocks in order ----------

  /** The probes stay timely when the stamps stay and a challenge made now may be added. */
  lemma {:induction false} TimedAfter(s: OtpState, cs: seq<Challenge>, now: Time)
    requires Timed(s, now)
    requires |s.challenges| <= |cs| && SameStamps(s.challenges, cs[..|s.challenges|])
    requires forall j | |s.challenges| <= j < |cs| :: cs[j].createdAt == now
    ensures Timed(OtpState(cs, s.probes), now)
  {
    var old' := cs[..|s.challenges|];
    forall k | 0 <= k < |s.probes| ensures Timely(s.probes[k], cs, now) {
      var p := s.probes[k];
      assert Timely(p, s.challenges, now);
      assert old'[p.challenge] == cs[p.challenge];
      forall j | p.challenge < j < |cs| && cs[j].phone == cs[p.challenge].phone ensures p.at <= cs[j].createdAt {
        if j < |s.challenges| { assert old'[j] == cs[j]; }
      }
    }
  }

  lemma {:induction false} IssueTimed(s: OtpState, cfg: Config, phone: Phone, code: Code, now: Time)
    requires Timed(s, now) && Issue(s, cfg, phone, code, now).Ok?
    ensures Timed(Issue(s, cfg, phone, code, now).value, now)
  {
    var sup := Supersede(s.challenges, phone, now);
    var next := Challenge(phone, Digest(phone, code), now, now + cfg.ttl, None, 0);
    SupersedeEffect(s.challenges, phone, now);
    assert (sup + [next])[..|sup|] == sup;
    TimedAfter(s, sup + [next], now);
  }

  /** A challenge that is still pending had expired before the phone's next one was made, so it is not compared later. */
  lemma {:induction false} CompareTimed(s: OtpState, i: nat, c: Challenge, now: Time)
    requires Timed(s, now) && Superseded(s.challenges) && CreatedBy(s.challenges, now)
    requires i < |s.challenges| && s.challenges[i].consumedAt.None? && now <= s.challenges[i].expiresAt
    requires c.phone == s.challenges[i].phone && c.createdAt == s.challenges[i].createdAt && c.expiresAt == s.challenges[i].expiresAt
    ensures Timed(OtpState(s.challenges[i := c], s.probes + [Probe(i, now)]), now)
  {
    var cs := s.challenges[i := c];
    TimedAfter(s, cs, now);
    forall j | i < j < |cs| && cs[j].phone == cs[i].phone ensures now <= cs[j].createdAt {
      assert s.challenges[j].phone == s.challenges[i].phone;
    }
    assert Timely(Probe(i, now), cs, now);
    var probes := s.probes + [Probe(i, now)];
    forall k | 0 <= k < |probes| ensures Timely(probes[k], cs, now) {
      if k < |s.probes| { assert Timely(s.probes[k], cs, now); }
    }
  }

  lemma {:induction false} VerifyTimed(s: OtpState, cfg: Config, phone: Phone, code: Code, now: Time)
    requires Timed(s, now) && Superseded(s.challenges) && CreatedBy(s.challenges, now)
    ensures Timed(Verify(s, cfg, phone, code, now).0, now)
  {
    var newest, s' := NewestPending(s.challenges, phone), Verify(s, cfg, phone, code, now).0;
    if s'.probes != s.probes {
      CompareTimed(s, newest.value, s'.challenges[newest.value], now);
    } else {
      TimedAfter(s, s'.challenges, now);
    }
  }

  lemma {:induction false} ReachableTimed(cfg: Config, calls: seq<OtpCall>, now: Time)
    requires Monotone(calls) && forall i | 0 <= i < |calls| :: calls[i].now <= now
    ensures Timed(Run(cfg, calls), now)
  {
    if calls != [] {
      var before, c := calls[..|calls| - 1], calls[|calls| - 1];
      ReachableTimed(cfg, before, c.now);
      ReachableTable(cfg, before);
      ReachableCreatedBy(cfg, before, c.now);
      StepTimed(Run(cfg, before), cfg, c, now);
    }
  }

  lemma {:induction false} StepTimed(s: OtpState, cfg: Config, c: OtpCall, now: Time)
    requires Timed(s, c.now) && c.now <= now && Superseded(s.challenges) && CreatedBy(s.challenges, c.now)
    ensures Timed(Next(s, cfg, c), now)
  {
    match c
    case IssueCall(phone, code, t) => if Issue(s, cfg, phone, code, t).Ok? { IssueTimed(s, cfg, phone, code, t); }
    case VerifyCall(phone, code, t) => VerifyTimed(s, cfg, phone, code, t);
    var s' := Next(s, cfg, c);
    forall k | 0 <= k < |s'.probes| ensures Timely(s'.probes[k], s'.challenges, now) {
      assert Timely(s'.probes[k], s'.challenges, c.now);
    }
  }

  // ---------- Attempts, by any clock ----------

  lemma {:induction false} IssueCounted(s: OtpState, cfg: Config, phone: Phone, code: Code, now: Time)
    requires Counted(s, cfg) && Issue(s, cfg, phone, code, now).Ok?
    ensures Counted(Issue(s, cfg, phone, code, now).value, cfg)
  {
    var s' := Issue(s, cfg, phone, code, now).value;
    ProbesBeyond(s.probes, |s.challenges|, |s.challenges|);
    forall i | 0 <= i < |s'.challenges|
      ensures && ProbesOf(s'.probes, i) <= cfg.maxAttempts
              && (s'.challenges[i].consumedAt.None? ==> ProbesOf(s'.probes, i) == s'.challenges[i].attempts)
    {
      if i < |s.challenges| { assert ProbesOf(s.probes, i) <= cfg.maxAttempts; }
    }
  }

  lemma {:induction false} CompareCounted(s: OtpState, cfg: Config, c: Challenge, i: nat, now: Time)
    requires Counted(s, cfg) && i < |s.challenges| && s.challenges[i].consumedAt.None?
    requires s.challenges[i].attempts < cfg.maxAttempts
    requires c.consumedAt.None? ==> c.attempts == s.challenges[i].attempts + 1
    ensures Counted(OtpState(s.challenges[i := c], s.probes + [Probe(i, now)]), cfg)
  {
    var s' := OtpState(s.challenges[i := c], s.probes + [Probe(i, now)]);
    assert s'.probes[..|s.probes|] == s.probes;
    forall j | 0 <= j < |s'.challenges|
      ensures && ProbesOf(s'.probes, j) <= cfg.maxAttempts
              && (s'.challenges[j].consumedAt.None? ==> ProbesOf(s'.probes, j) == s'.challenges[j].attempts)
    {
      assert ProbesOf(s.probes, j) <= cfg.maxAttempts;
      assert ProbesOf(s.probes, i) <= cfg.maxAttempts;
    }
  }

  /** Burning an exhausted challenge logs no comparison. */
  lemma BurnCounted(s: OtpState, cfg: Config, c: Challenge, i: nat)
    requires Counted(s, cfg) && i < |s.challenges| && c.consumedAt.Some?
    ensures Counted(s.(challenges := s.challenges[i := c]), cfg)
  {
  }

  lemma {:induction false} VerifyCounted(s: OtpState, cfg: Config, phone: Phone, code: Code, now: Time)
    requires Counted(s, cfg)
    ensures Counted(Verify(s, cfg, phone, code, now).0, cfg)
  {
    var newest := NewestPending(s.challenges, phone);
    if newest.Some? && s.challenges[newest.value].expiresAt >= now {
      var i := newest.value;
      var c := Verify(s, cfg, phone, code, now).0.challenges[i];
      if s.challenges[i].attempts >= cfg.maxAttempts { BurnCounted(s, cfg, c, i); } else { CompareCounted(s, cfg, c, i, now); }
    }
  }

  lemma {:induction false} ReachableCounted(cfg: Config, calls: seq<OtpCall>)
    ensures Counted(Run(cfg, calls), cfg)
  {
    if calls != [] {
      var s, c := Run(cfg, calls[..|calls| - 1]), calls[|calls| - 1];
      ReachableCounted(cfg, calls[..|calls| - 1]);
      match c
      case IssueCall(phone, code, t) =>
        if Issue(s, cfg, phone, code, t).Ok? { IssueCounted(s, cfg, phone, code, t); }
      case VerifyCall(phone, code, t) => VerifyCounted(s, cfg, phone, code, t);
    }
  }

  /** In every run, whatever the clock does, each challenge sees at most the configured number of comparisons. */
  lemma {:induction false} AttemptsBound(cfg: Config, calls: seq<OtpCall>, i: nat)
    ensures ProbesOf(Run(cfg, calls).probes, i) <= cfg.maxAttempts
  {
    ReachableCounted(cfg, calls);
    var s := Run(cfg, calls);
    if i >= |s.challenges| { ProbesBeyond(s.probes, |s.challenges|, i); }
  }

  // ---------- Throttling ----------

  /** The number of challenges of the phone created in a half-open window. */
  function CreatedIn(cs: seq<Challenge>, phone: Phone, from: Time, to: Time): nat {
    if cs == [] then 0
    else
      var last := cs[|cs| - 1];
      CreatedIn(cs[..|cs| - 1], phone, from, to) + if last.phone == phone && from <= last.createdAt < to then 1 else 0
  }

  lemma {:induction false} WindowWithin(cs: seq<Challenge>, phone: Phone, from: Time, to: Time, after: Time)
    requires from > after
    ensures CreatedIn(cs, phone, from, to) <= CountSince(cs, phone, after)
    decreases |cs|
  {
    if cs != [] { WindowWithin(cs[..|cs| - 1], phone, from, to, after); }
  }

  /** Looking back an hour from the last challenge of a window covers the window. */
  lemma {:induction false} HourCapped(cs: seq<Challenge>, phone: Phone, from: Time)
    requires Capped(cs)
    ensures CreatedIn(cs, phone, from, from + HOUR) <= HOURLY_CAP
    decreases |cs|
  {
    if cs != [] {
      var n := |cs| - 1;
      var last := cs[n];
      if last.phone == phone && from <= last.createdAt < from + HOUR {
        assert cs[..n + 1] == cs;
        WindowWithin(cs, phone, from, from + HOUR, last.createdAt - HOUR);
      } else {
        forall j | 0 <= j < n ensures CountSince(cs[..n][..j + 1], cs[..n][j].phone, cs[..n][j].createdAt - HOUR) <= HOURLY_CAP {
          assert cs[..n][..j + 1] == cs[..j + 1] && cs[..n][j] == cs[j];
        }
        HourCapped(cs[..n], phone, from);
      }
    }
  }

  /** In every run, whatever the clock does, a phone's later challenge is created at least a minute after the earlier. */
  lemma {:induction false} MinuteApart(cfg: Config, calls: seq<OtpCall>, i: nat, j: nat)
    requires var cs := Run(cfg, calls).challenges; i < j < |cs| && cs[i].phone == cs[j].phone
    ensures var cs := Run(cfg, calls).challenges; cs[j].createdAt - cs[i].createdAt >= 60_000
  {
    ReachableTable(cfg, calls);
  }

  /** In every run every window of an hour, at any alignment, contains at most five challenges of one phone. */
  lemma {:induction false} FivePerHour(cfg: Config, calls: seq<OtpCall>, phone: Phone, from: Time)
    ensures CreatedIn(Run(cfg, calls).challenges, phone, from, from + 3_600_000) <= 5
  {
    ReachableTable(cfg, calls);
    HourCapped(Run(cfg, calls).challenges, phone, from);
  }

  // ---------- Answering ----------

  /** In every run the challenge with the latest creation time is also the one inserted last: there are no ties. */
  lemma {:induction false} NewestIsLast(cfg: Config, calls: seq<OtpCall>, phone: Phone, i: nat)
    requires NewestPending(Run(cfg, calls).challenges, phone) == Some(i)
    ensures var cs := Run(cfg, calls).challenges;
      forall j | 0 <= j < |cs| && j != i && cs[j].phone == phone && cs[j].consumedAt.None? ::
        j < i && cs[j].createdAt < cs[i].createdAt
  {
    ReachableTable(cfg, calls);
  }

  /** A challenge that could still be answered after now. */
  predicate Answerable(c: Challenge, now: Time) {
    c.consumedAt.None? && c.expiresAt > now
  }

  /** After every run up to now a phone has at most one answerable challenge, and it is the phone's newest. */
  lemma {:induction false} OneAnswerable(cfg: Config, calls: seq<OtpCall>, now: Time, i: nat, j: nat)
    requires forall k | 0 <= k < |calls| :: calls[k].now <= now
    requires var cs := Run(cfg, calls).challenges;
      i < |cs| && j < |cs| && i != j && cs[i].phone == cs[j].phone && Answerable(cs[i], now)
    ensures var cs := Run(cfg, calls).challenges; j < i && !Answerable(cs[j], now)
  {
    ReachableTable(cfg, calls);
    ReachableCreatedBy(cfg, calls, now);
  }
}
