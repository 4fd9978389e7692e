/** How many guesses a phone can suffer in an hour, over whole runs: the bound and a run that reaches it. */
module OtpGuessing {
  import opened Basics
  import opened OtpModel
  import opened OtpGuarantees

  /** The number of comparisons in a window against the first n challenges, counting those of one phone. */
  function ProbesIn(probes: seq<Probe>, cs: seq<Challenge>, n: nat, phone: Phone, from: Time, to: Time): nat {
    if probes == [] then 0
    else
      var p := probes[|probes| - 1];
      ProbesIn(probes[..|probes| - 1], cs, n, phone, from, to)
      + if p.challenge < n && p.challenge < |cs| && cs[p.challenge].phone == phone && from <= p.at < to then 1 else 0
  }

  /** The comparisons against one phone in the hour that starts at `from`. */
  function GuessesIn(s: OtpState, phone: Phone, from: Time): nat {
    ProbesIn(s.probes, s.challenges, |s.challenges|, phone, from, from + 3_600_000)
  }

  ghost predicate AllTimely(probes: seq<Probe>, cs: seq<Challenge>, now: Time) {
    forall k | 0 <= k < |probes| :: Timely(probes[k], cs, now)
  }

  /** Counting one more challenge adds no more than its own comparisons, and nothing if it comes after the window. */
  lemma {:induction false} OneMoreChallenge(
      probes: seq<Probe>, cs: seq<Challenge>, n: nat, phone: Phone, from: Time, to: Time, now: Time)
    requires n < |cs| && AllTimely(probes, cs, now)
    ensures ProbesIn(probes, cs, n + 1, phone, from, to) <= ProbesIn(probes, cs, n, phone, from, to) + ProbesOf(probes, n)
    ensures cs[n].phone != phone || cs[n].createdAt >= to ==>
      ProbesIn(probes, cs, n + 1, phone, from, to) == ProbesIn(probes, cs, n, phone, from, to)
    decreases |probes|
  {
    if probes != [] {
      assert Timely(probes[|probes| - 1], cs, now);
      OneMoreChallenge(probes[..|probes| - 1], cs, n, phone, from, to, now);
    }
  }

  /** A challenge made before the window shuts the phone's earlier challenges out of it. */
  lemma {:induction false} ShutOut(
      probes: seq<Probe>, cs: seq<Challenge>, n: nat, phone: Phone, from: Time, to: Time, now: Time)
    requires n < |cs| && AllTimely(probes, cs, now) && cs[n].phone == phone && cs[n].createdAt < from
    ensures ProbesIn(probes, cs, n, phone, from, to) == 0
    decreases |probes|
  {
    if probes != [] {
      assert Timely(probes[|probes| - 1], cs, now);
      ShutOut(probes[..|probes| - 1], cs, n, phone, from, to, now);
    }
  }

  lemma {:induction false} NoChallengesNoProbes(probes: seq<Probe>, cs: seq<Challenge>, phone: Phone, from: Time, to: Time)
    ensures ProbesIn(probes, cs, 0, phone, from, to) == 0
    decreases |probes|
  {
    if probes != [] { NoChallengesNoProbes(probes[..|probes| - 1], cs, phone, from, to); }
  }

  /** Comparisons in a window are against the challenges created in it and at most one created before. */
  lemma {:induction false} ProbesByChallenges(s: OtpState, cfg: Config, n: nat, phone: Phone, from: Time, to: Time, now: Time)
    requires n <= |s.challenges| && Timed(s, now) && Counted(s, cfg)
    ensures ProbesIn(s.probes, s.challenges, n, phone, from, to)
         <= cfg.maxAttempts * (CreatedIn(s.challenges[..n], phone, from, to) + 1)
    decreases n
  {
    var cs := s.challenges;
    if n == 0 {
      NoChallengesNoProbes(s.probes, cs, phone, from, to);
    } else {
      ProbesByChallenges(s, cfg, n - 1, phone, from, to, now);
      OneMoreChallenge(s.probes, cs, n - 1, phone, from, to, now);
      assert cs[..n][..n - 1] == cs[..n - 1] && cs[..n][n - 1] == cs[n - 1];
      var before := CreatedIn(cs[..n - 1], phone, from, to);
      assert ProbesOf(s.probes, n - 1) <= cfg.maxAttempts;
      if cs[n - 1].phone == phone {
        if cs[n - 1].createdAt < from {
          ShutOut(s.probes, cs, n - 1, phone, from, to, now);
          MulMonotone(cfg.maxAttempts, 1, before + 1);
        } else if cs[n - 1].createdAt < to {
          MulStep(cfg.maxAttempts, before + 1);
        }
      }
    }
  }

  lemma MulMonotone(m: nat, a: nat, b: nat)
    requires a <= b
    ensures m * a <= m * b
  {
  }

  lemma MulStep(m: nat, a: nat)
    ensures m * (a + 1) == m * a + m
  {
  }

  /**
   * In every run, for every lifetime of the codes and at every alignment, an hour sees at most six times the permitted
   * attempts against one phone: those of the five challenges it can contain and of one left over from before.
   */
  lemma {:induction false} GuessBound(cfg: Config, calls: seq<OtpCall>, phone: Phone, from: Time)
    requires Monotone(calls)
    ensures GuessesIn(Run(cfg, calls), phone, from) <= cfg.maxAttempts * (HOURLY_CAP + 1)
  {
    var now := if calls == [] then 0 else calls[|calls| - 1].now;
    ReachableTable(cfg, calls);
    ReachableTimed(cfg, calls, now);
    ReachableCounted(cfg, calls);
    GuessBoundIn(Run(cfg, calls), cfg, phone, from, now);
  }

  lemma {:induction false} GuessBoundIn(s: OtpState, cfg: Config, phone: Phone, from: Time, now: Time)
    requires Capped(s.challenges) && Timed(s, now) && Counted(s, cfg)
    ensures GuessesIn(s, phone, from) <= cfg.maxAttempts * (HOURLY_CAP + 1)
  {
    var cs := s.challenges;
    ProbesByChallenges(s, cfg, |cs|, phone, from, from + HOUR, now);
    HourCapped(cs, phone, from);
    assert cs[..|cs|] == cs;
    MulMonotone(cfg.maxAttempts, CreatedIn(cs, phone, from, from + HOUR) + 1, HOURLY_CAP + 1);
  }

  /** With the default of five attempts, at most thirty guesses in any hour. */
  lemma {:induction false} GuessBoundDefault(calls: seq<OtpCall>, phone: Phone, from: Time)
    requires Monotone(calls)
    ensures GuessesIn(Run(DEFAULT_CONFIG, calls), phone, from) <= 30
  {
    GuessBound(DEFAULT_CONFIG, calls, phone, from);
  }

  // ---------- A run that reaches the bound ----------

  /** One challenge, and the time at which all the wrong codes for it are submitted. */
  datatype Strike = Strike(issuedAt: Time, guessedAt: Time)

  function Misses(phone: Phone, at: Time, n: nat): seq<OtpCall> {
    if n == 0 then [] else Misses(phone, at, n - 1) + [VerifyCall(phone, 0, at)]
  }

  function Round(phone: Phone, strike: Strike, n: nat): seq<OtpCall> {
    [IssueCall(phone, 1, strike.issuedAt)] + Misses(phone, strike.guessedAt, n)
  }

  function Attack(phone: Phone, plan: seq<Strike>, n: nat): seq<OtpCall> {
    if plan == [] then [] else Attack(phone, plan[..|plan| - 1], n) + Round(phone, plan[|plan| - 1], n)
  }

  /** The states the calls of a round and of an attack lead to. */
  function AfterMisses(s: OtpState, cfg: Config, phone: Phone, at: Time, n: nat): OtpState {
    if n == 0 then s else Next(AfterMisses(s, cfg, phone, at, n - 1), cfg, VerifyCall(phone, 0, at))
  }

  function AfterRound(s: OtpState, cfg: Config, phone: Phone, strike: Strike, n: nat): OtpState {
    AfterMisses(Next(s, cfg, IssueCall(phone, 1, strike.issuedAt)), cfg, phone, strike.guessedAt, n)
  }

  function AfterAttack(cfg: Config, phone: Phone, plan: seq<Strike>, n: nat): OtpState {
    if plan == [] then OtpState([], [])
    else AfterRound(AfterAttack(cfg, phone, plan[..|plan| - 1], n), cfg, phone, plan[|plan| - 1], n)
  }

  lemma RunStep(cfg: Config, calls: seq<OtpCall>, c: OtpCall)
    ensures Run(cfg, calls + [c]) == Next(Run(cfg, calls), cfg, c)
  {
    assert (calls + [c])[..|calls|] == calls;
  }

  lemma MissesJoin(calls: seq<OtpCall>, phone: Phone, at: Time, n: nat)
    requires n > 0
    ensures calls + Misses(phone, at, n) == calls + Misses(phone, at, n - 1) + [VerifyCall(phone, 0, at)]
  {
  }

  lemma {:induction false} MissesRun(cfg: Config, calls: seq<OtpCall>, phone: Phone, at: Time, n: nat)
    ensures Run(cfg, calls + Misses(phone, at, n)) == AfterMisses(Run(cfg, calls), cfg, phone, at, n)
    decreases n
  {
    if n == 0 {
      assert calls + Misses(phone, at, n) == calls;
    } else {
      MissesRun(cfg, calls, phone, at, n - 1);
      MissesJoin(calls, phone, at, n);
      RunStep(cfg, calls + Misses(phone, at, n - 1), VerifyCall(phone, 0, at));
    }
  }

  lemma {:induction false} RoundRun(cfg: Config, calls: seq<OtpCall>, phone: Phone, strike: Strike, n: nat)
    ensures Run(cfg, calls + Round(phone, strike, n)) == AfterRound(Run(cfg, calls), cfg, phone, strike, n)
  {
    var issue := IssueCall(phone, 1, strike.issuedAt);
    RunStep(cfg, calls, issue);
    MissesRun(cfg, calls + [issue], phone, strike.guessedAt, n);
    RoundJoins(calls, phone, strike, n);
  }

  lemma RoundJoins(calls: seq<OtpCall>, phone: Phone, strike: Strike, n: nat)
    ensures calls + Round(phone, strike, n)
         == calls + [IssueCall(phone, 1, strike.issuedAt)] + Misses(phone, strike.guessedAt, n)
  {
  }

  lemma {:induction false} AttackRun(cfg: Config, phone: Phone, plan: seq<Strike>, n: nat)
    ensures Run(cfg, Attack(phone, plan, n)) == AfterAttack(cfg, phone, plan, n)
    decreases |plan|
  {
    if plan != [] {
      AttackRun(cfg, phone, plan[..|plan| - 1], n);
      RoundRun(cfg, Attack(phone, plan[..|plan| - 1], n), phone, plan[|plan| - 1], n);
    }
  }

  /** Comparisons are counted by the phone of their challenge only. */
  lemma {:induction false} SamePhones(probes: seq<Probe>, a: seq<Challenge>, b: seq<Challenge>, phone: Phone, from: Time, to: Time)
    requires forall k | 0 <= k < |probes| :: probes[k].challenge < |a|
    requires |a| <= |b| && forall i | 0 <= i < |a| :: a[i].phone == b[i].phone
    ensures ProbesIn(probes, a, |a|, phone, from, to) == ProbesIn(probes, b, |b|, phone, from, to)
    decreases |probes|
  {
    if probes != [] { SamePhones(probes[..|probes| - 1], a, b, phone, from, to); }
  }

  /** The phone's last challenge waits for a code that no miss submits. */
  predicate Waiting(cs: seq<Challenge>, phone: Phone, at: Time) {
    && cs != []
    && var c := cs[|cs| - 1];
    && c.phone == phone && c.consumedAt.None? && c.attempts == 0 && c.codeHash != Digest(phone, 0) && at <= c.expiresAt
    && forall i | 0 <= i < |cs| && cs[i].phone == phone :: cs[i].createdAt <= c.createdAt
  }

  function WithAttempts(cs: seq<Challenge>, n: nat): seq<Challenge>
    requires cs != []
  {
    cs[|cs| - 1 := cs[|cs| - 1].(attempts := n)]
  }

  ghost predicate InRange(s: OtpState) {
    forall k | 0 <= k < |s.probes| :: s.probes[k].challenge < |s.challenges|
  }

  /** What one wrong code does. */
  lemma MissEffect(cs: seq<Challenge>, probes: seq<Probe>, cfg: Config, phone: Phone, at: Time, n: nat)
    requires Waiting(cs, phone, at) && n < cfg.maxAttempts
    ensures Verify(OtpState(WithAttempts(cs, n), probes), cfg, phone, 0, at).0
         == OtpState(WithAttempts(cs, n + 1), probes + [Probe(|cs| - 1, at)])
  {
    var before := WithAttempts(cs, n);
    assert NewestPending(before, phone) == Some(|cs| - 1);
    assert before[|cs| - 1 := before[|cs| - 1].(attempts := n + 1)] == WithAttempts(cs, n + 1);
  }

  lemma {:induction false} GuessesSame(probes: seq<Probe>, a: seq<Challenge>, b: seq<Challenge>, phone: Phone, from: Time)
    requires InRange(OtpState(a, probes))
    requires |a| <= |b| && forall i | 0 <= i < |a| :: a[i].phone == b[i].phone
    ensures GuessesIn(OtpState(b, probes), phone, from) == GuessesIn(OtpState(a, probes), phone, from)
  {
    SamePhones(probes, a, b, phone, from, from + HOUR);
  }

  lemma GuessesOneMore(probes: seq<Probe>, cs: seq<Challenge>, i: nat, at: Time, phone: Phone, from: Time)
    requires i < |cs| && cs[i].phone == phone && from <= at < from + HOUR
    ensures GuessesIn(OtpState(cs, probes + [Probe(i, at)]), phone, from) == GuessesIn(OtpState(cs, probes), phone, from) + 1
  {
    assert (probes + [Probe(i, at)])[..|probes|] == probes;
  }

  lemma {:induction false} MissCounts(s: OtpState, cs: seq<Challenge>, cfg: Config, phone: Phone, at: Time, n: nat, from: Time)
    requires Waiting(cs, phone, at) && n < cfg.maxAttempts && from <= at < from + HOUR
    requires s.challenges == WithAttempts(cs, n) && InRange(s)
    ensures var s' := Next(s, cfg, VerifyCall(phone, 0, at));
      && s'.challenges == WithAttempts(cs, n + 1) && InRange(s')
      && GuessesIn(s', phone, from) == GuessesIn(s, phone, from) + 1
  {
    MissEffect(cs, s.probes, cfg, phone, at, n);
    GuessesSame(s.probes, s.challenges, WithAttempts(cs, n + 1), phone, from);
    GuessesOneMore(s.probes, WithAttempts(cs, n + 1), |cs| - 1, at, phone, from);
  }

  /** The state after n misses. */
  lemma {:induction false} MissesCount(s: OtpState, cfg: Config, phone: Phone, at: Time, n: nat, from: Time)
    requires Waiting(s.challenges, phone, at) && InRange(s) && n <= cfg.maxAttempts && from <= at < from + HOUR
    ensures var s' := AfterMisses(s, cfg, phone, at, n);
      && s'.challenges == WithAttempts(s.challenges, n) && InRange(s')
      && GuessesIn(s', phone, from) == GuessesIn(s, phone, from) + n
    decreases n
  {
    if n == 0 {
      assert WithAttempts(s.challenges, 0) == s.challenges;
    } else {
      MissesCount(s, cfg, phone, at, n - 1, from);
      MissCounts(AfterMisses(s, cfg, phone, at, n - 1), s.challenges, cfg, phone, at, n - 1, from);
    }
  }

  /** The later table has the challenges of the earlier one, and one more of this phone. */
  ghost predicate OneMore(a: seq<Challenge>, b: seq<Challenge>, phone: Phone, issuedAt: Time) {
    && |b| == |a| + 1 && SameStamps(a, b[..|a|])
    && b[|a|].phone == phone && b[|a|].createdAt == issuedAt
  }

  lemma {:induction false} IssueEffect(s: OtpState, cfg: Config, phone: Phone, at: Time, until: Time)
    requires Throttle(s.challenges, phone, at).None? && until <= at + cfg.ttl
    ensures var s' := Next(s, cfg, IssueCall(phone, 1, at));
      && s'.probes == s.probes && OneMore(s.challenges, s'.challenges, phone, at) && Waiting(s'.challenges, phone, until)
  {
    forall i | 0 <= i < |s.challenges| && s.challenges[i].phone == phone ensures s.challenges[i].createdAt <= at {
      if s.challenges[i].createdAt > at { CountedSince(s.challenges, phone, at - MIN_GAP, i); }
    }
  }

  lemma OneMoreAttempted(a: seq<Challenge>, b: seq<Challenge>, phone: Phone, issuedAt: Time, n: nat)
    requires OneMore(a, b, phone, issuedAt)
    ensures OneMore(a, WithAttempts(b, n), phone, issuedAt)
  {
    assert WithAttempts(b, n)[..|a|] == b[..|a|];
  }

  lemma OneMoreGuessesSame(s: OtpState, s': OtpState, phone: Phone, issuedAt: Time, from: Time)
    requires InRange(s) && s'.probes == s.probes && OneMore(s.challenges, s'.challenges, phone, issuedAt)
    ensures GuessesIn(s', phone, from) == GuessesIn(s, phone, from)
  {
    assert forall i | 0 <= i < |s.challenges| :: s'.challenges[..|s.challenges|][i] == s'.challenges[i];
    GuessesSame(s.probes, s.challenges, s'.challenges, phone, from);
  }

  lemma {:induction false} IssueCounts(s: OtpState, cfg: Config, phone: Phone, strike: Strike, from: Time)
    requires Throttle(s.challenges, phone, strike.issuedAt).None? && strike.guessedAt <= strike.issuedAt + cfg.ttl && InRange(s)
    ensures var s' := Next(s, cfg, IssueCall(phone, 1, strike.issuedAt));
      && OneMore(s.challenges, s'.challenges, phone, strike.issuedAt) && Waiting(s'.challenges, phone, strike.guessedAt)
      && InRange(s') && GuessesIn(s', phone, from) == GuessesIn(s, phone, from)
  {
    IssueEffect(s, cfg, phone, strike.issuedAt, strike.guessedAt);
    OneMoreGuessesSame(s, Next(s, cfg, IssueCall(phone, 1, strike.issuedAt)), phone, strike.issuedAt, from);
  }

  /** A round adds one challenge and n guesses, if the throttle lets it through. */
  lemma {:induction false} RoundCounts(s: OtpState, cfg: Config, phone: Phone, strike: Strike, n: nat, from: Time)
    requires Throttle(s.challenges, phone, strike.issuedAt).None? && n <= cfg.maxAttempts && InRange(s)
    requires from <= strike.guessedAt < from + HOUR && strike.guessedAt <= strike.issuedAt + cfg.ttl
    ensures var s' := AfterRound(s, cfg, phone, strike, n);
      && OneMore(s.challenges, s'.challenges, phone, strike.issuedAt) && InRange(s')
      && GuessesIn(s', phone, from) == GuessesIn(s, phone, from) + n
  {
    IssueCounts(s, cfg, phone, strike, from);
    var issued := Next(s, cfg, IssueCall(phone, 1, strike.issuedAt));
    MissesCount(issued, cfg, phone, strike.guessedAt, n, from);
    OneMoreAttempted(s.challenges, issued.challenges, phone, strike.issuedAt, n);
  }

  // ---------- What the throttle sees of a plan ----------

  function IssuedSince(plan: seq<Strike>, after: Time): nat {
    if plan == [] then 0
    else IssuedSince(plan[..|plan| - 1], after) + if plan[|plan| - 1].issuedAt > after then 1 else 0
  }

  /** The table consists of the challenges of the plan. */
  ghost predicate Follows(cs: seq<Challenge>, plan: seq<Strike>, phone: Phone) {
    |cs| == |plan| && forall i | 0 <= i < |cs| :: cs[i].phone == phone && cs[i].createdAt == plan[i].issuedAt
  }

  lemma {:induction false} IssuedIsCounted(cs: seq<Challenge>, plan: seq<Strike>, phone: Phone, after: Time)
    requires Follows(cs, plan, phone)
    ensures CountSince(cs, phone, after) == IssuedSince(plan, after)
    decreases |cs|
  {
    if cs != [] { IssuedIsCounted(cs[..|cs| - 1], plan[..|plan| - 1], phone, after); }
  }

  lemma FollowsOneMore(a: seq<Challenge>, b: seq<Challenge>, plan: seq<Strike>, phone: Phone)
    requires plan != [] && Follows(a, plan[..|plan| - 1], phone) && OneMore(a, b, phone, plan[|plan| - 1].issuedAt)
    ensures Follows(b, plan, phone)
  {
    forall i | 0 <= i < |a| ensures b[i].phone == phone && b[i].createdAt == plan[i].issuedAt {
      assert b[..|a|][i] == b[i];
    }
  }

  /** Challenges issued up to the instant do not count. */
  lemma {:induction false} IssuedBefore(plan: seq<Strike>, k: nat, after: Time)
    requires k <= |plan| && forall i | 0 <= i < k :: plan[i].issuedAt <= after
    ensures IssuedSince(plan, after) <= |plan| - k
    decreases |plan|
  {
    if |plan| > k { IssuedBefore(plan[..|plan| - 1], k, after); }
    else if plan != [] { IssuedBefore(plan[..|plan| - 1], k - 1, after); }
  }

  /** The strike passes the throttle after those before it, and its guesses fall in the hour and in its lifetime. */
  predicate Fits(plan: seq<Strike>, strike: Strike, cfg: Config, from: Time) {
    && IssuedSince(plan, strike.issuedAt - MIN_GAP) == 0
    && IssuedSince(plan, strike.issuedAt - HOUR) < HOURLY_CAP
    && from <= strike.guessedAt < from + HOUR && strike.guessedAt <= strike.issuedAt + cfg.ttl
  }

  predicate Feasible(plan: seq<Strike>, cfg: Config, from: Time) {
    plan == [] || (Feasible(plan[..|plan| - 1], cfg, from) && Fits(plan[..|plan| - 1], plan[|plan| - 1], cfg, from))
  }

  lemma {:induction false} AttackCounts(cfg: Config, phone: Phone, plan: seq<Strike>, n: nat, from: Time)
    requires Feasible(plan, cfg, from) && n <= cfg.maxAttempts
    ensures var s := AfterAttack(cfg, phone, plan, n);
      Follows(s.challenges, plan, phone) && InRange(s) && GuessesIn(s, phone, from) == n * |plan|
    decreases |plan|
  {
    if plan != [] {
      var front, last := plan[..|plan| - 1], plan[|plan| - 1];
      AttackCounts(cfg, phone, front, n, from);
      StrikeCounts(AfterAttack(cfg, phone, front, n), cfg, phone, plan, n, from);
      MulStep(n, |front|);
    }
  }

  lemma {:induction false} StrikeCounts(s: OtpState, cfg: Config, phone: Phone, plan: seq<Strike>, n: nat, from: Time)
    requires plan != [] && Fits(plan[..|plan| - 1], plan[|plan| - 1], cfg, from) && n <= cfg.maxAttempts
    requires Follows(s.challenges, plan[..|plan| - 1], phone) && InRange(s)
    ensures var s' := AfterRound(s, cfg, phone, plan[|plan| - 1], n);
      Follows(s'.challenges, plan, phone) && InRange(s') && GuessesIn(s', phone, from) == GuessesIn(s, phone, from) + n
  {
    var front, last := plan[..|plan| - 1], plan[|plan| - 1];
    IssuedIsCounted(s.challenges, front, phone, last.issuedAt - MIN_GAP);
    IssuedIsCounted(s.challenges, front, phone, last.issuedAt - HOUR);
    RoundCounts(s, cfg, phone, last, n, from);
    FollowsOneMore(s.challenges, AfterRound(s, cfg, phone, last, n).challenges, plan, phone);
  }

  // ---------- The clock of a plan ----------

  ghost predicate Within(calls: seq<OtpCall>, from: Time, to: Time) {
    forall i | 0 <= i < |calls| :: from <= calls[i].now <= to
  }

  lemma MonotoneJoin(a: seq<OtpCall>, b: seq<OtpCall>, start: Time, mid: Time, end: Time)
    requires Monotone(a) && Monotone(b) && Within(a, start, mid) && Within(b, mid, end) && start <= mid <= end
    ensures Monotone(a + b) && Within(a + b, start, end)
  {
  }

  lemma {:induction false} MissesMonotone(phone: Phone, at: Time, n: nat)
    ensures Monotone(Misses(phone, at, n)) && Within(Misses(phone, at, n), at, at)
    decreases n
  {
    if n > 0 { MissesMonotone(phone, at, n - 1); }
  }

  function EndOf(plan: seq<Strike>, start: Time): Time {
    if plan == [] then start else plan[|plan| - 1].guessedAt
  }

  predicate Ordered(plan: seq<Strike>, start: Time) {
    plan == [] ||
    (Ordered(plan[..|plan| - 1], start) &&
     EndOf(plan[..|plan| - 1], start) <= plan[|plan| - 1].issuedAt <= plan[|plan| - 1].guessedAt)
  }

  lemma {:induction false} AttackMonotone(phone: Phone, plan: seq<Strike>, n: nat, start: Time)
    requires Ordered(plan, start)
    ensures start <= EndOf(plan, start)
    ensures Monotone(Attack(phone, plan, n)) && Within(Attack(phone, plan, n), start, EndOf(plan, start))
    decreases |plan|
  {
    if plan != [] {
      var front, last := plan[..|plan| - 1], plan[|plan| - 1];
      AttackMonotone(phone, front, n, start);
      MissesMonotone(phone, last.guessedAt, n);
      var mid := EndOf(front, start);
      MonotoneJoin([IssueCall(phone, 1, last.issuedAt)], Misses(phone, last.guessedAt, n), mid, last.guessedAt, last.guessedAt);
      MonotoneJoin(Attack(phone, front, n), Round(phone, last, n), start, mid, last.guessedAt);
    }
  }

  lemma {:induction false} OneMoreStrike(plan: seq<Strike>, strike: Strike, k: nat, cfg: Config)
    requires Feasible(plan, cfg, 0) && Ordered(plan, -1) && EndOf(plan, -1) <= strike.issuedAt <= strike.guessedAt
    requires k <= |plan| < HOURLY_CAP + k
    requires forall i | 0 <= i < |plan| :: plan[i].issuedAt <= strike.issuedAt - if i < k then HOUR else MIN_GAP
    requires 0 <= strike.guessedAt < HOUR && strike.guessedAt <= strike.issuedAt + cfg.ttl
    ensures Feasible(plan + [strike], cfg, 0) && Ordered(plan + [strike], -1)
  {
    IssuedBefore(plan, |plan|, strike.issuedAt - MIN_GAP);
    IssuedBefore(plan, k, strike.issuedAt - HOUR);
    assert (plan + [strike])[..|plan|] == plan;
  }

  /** One challenge just before the hour, four a minute apart, and one in the hour's last millisecond. */
  lemma {:induction false} WorstHour(cfg: Config) returns (plan: seq<Strike>)
    requires cfg.ttl >= 1
    ensures Feasible(plan, cfg, 0) && Ordered(plan, -1) && |plan| == HOURLY_CAP + 1
  {
    OneMoreStrike([], Strike(-1, 0), 0, cfg);
    plan := [Strike(-1, 0)];
    OneMoreStrike(plan, Strike(59_999, 59_999), 0, cfg);
    plan := plan + [Strike(59_999, 59_999)];
    OneMoreStrike(plan, Strike(119_999, 119_999), 0, cfg);
    plan := plan + [Strike(119_999, 119_999)];
    OneMoreStrike(plan, Strike(179_999, 179_999), 0, cfg);
    plan := plan + [Strike(179_999, 179_999)];
    OneMoreStrike(plan, Strike(239_999, 239_999), 0, cfg);
    plan := plan + [Strike(239_999, 239_999)];
    OneMoreStrike(plan, Strike(HOUR - 1, HOUR - 1), 1, cfg);
    plan := plan + [Strike(HOUR - 1, HOUR - 1)];
  }

  /** The bound is tight: whatever the attempts and the (positive) lifetime, some clock-ordered run reaches it. */
  lemma {:induction false} GuessBoundAttained(cfg: Config, phone: Phone)
    requires cfg.ttl >= 1
    ensures exists calls, from :: Monotone(calls) && GuessesIn(Run(cfg, calls), phone, from) == cfg.maxAttempts * (HOURLY_CAP + 1)
  {
    var plan := WorstHour(cfg);
    var calls := Attack(phone, plan, cfg.maxAttempts);
    AttackMonotone(phone, plan, cfg.maxAttempts, -1);
    AttackRun(cfg, phone, plan, cfg.maxAttempts);
    AttackCounts(cfg, phone, plan, cfg.maxAttempts, 0);
    assert Monotone(calls) && GuessesIn(Run(cfg, calls), phone, 0) == cfg.maxAttempts * (HOURLY_CAP + 1);
  }
}
