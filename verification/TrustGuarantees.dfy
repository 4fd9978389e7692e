/** What the trust score means, and that the stored score agrees with it. */
module TrustGuarantees {
  import opened Basics
  import opened TrustModel

  lemma {:induction false} PenaltySplit(reports: seq<ReportFlag>, k: nat)
    requires k < |reports|
    ensures Penalty(reports) == Penalty(reports[..k] + reports[k + 1..]) + Weight(reports[k])
    decreases |reports|
  {
    var n := |reports| - 1;
    if k < n {
      PenaltySplit(reports[..n], k);
      var without := reports[..k] + reports[k + 1..];
      assert without[..n - 1] == reports[..n][..k] + reports[..n][k + 1..];
      assert without[n - 1] == reports[n];
    } else {
      assert reports[..k] + reports[k + 1..] == reports[..n];
    }
  }

  lemma RemoveBoth(a: seq<ReportFlag>, b: seq<ReportFlag>, k: nat)
    requires a != [] && k < |b| && b[k] == a[|a| - 1] && multiset(a) == multiset(b)
    ensures multiset(b[..k] + b[k + 1..]) == multiset(a[..|a| - 1])
  {
    var x, front, rest := b[k], a[..|a| - 1], b[..k] + b[k + 1..];
    assert a == front + [x];
    assert b == b[..k] + [x] + b[k + 1..];
    assert multiset(a) == multiset(front) + multiset{x};
    assert multiset(b) == multiset(rest) + multiset{x};
    assert multiset(a) - multiset{x} == multiset(front);
    assert multiset(b) - multiset{x} == multiset(rest);
  }

  /** The penalty depends on which reports were filed, not on their order. */
  lemma {:induction false} PenaltyOrderless(a: seq<ReportFlag>, b: seq<ReportFlag>)
    requires multiset(a) == multiset(b)
    ensures Penalty(a) == Penalty(b)
    decreases |a|
  {
    if a == [] {
      assert |multiset(b)| == 0;
    } else {
      var n := |a| - 1;
      assert a[n] in multiset(b);
      var k :| 0 <= k < |b| && b[k] == a[n];
      RemoveBoth(a, b, k);
      PenaltySplit(b, k);
      PenaltyOrderless(a[..n], b[..k] + b[k + 1..]);
    }
  }

  /** Score, ban and bonus do not depend on the order of the reports. */
  lemma {:induction false} ScoreOrderless(createdAt: Time, a: seq<ReportFlag>, b: seq<ReportFlag>, now: Time, cfg: TrustConfig)
    requires multiset(a) == multiset(b)
    ensures CalculateTrustScore(createdAt, a, now, cfg) == CalculateTrustScore(createdAt, b, now, cfg)
  {
    PenaltyOrderless(a, b);
    assert forall r :: r in a <==> r in multiset(a);
    assert forall r :: r in b <==> r in multiset(b);
  }

  lemma {:induction false} PenaltyRange(reports: seq<ReportFlag>)
    ensures 0 <= Penalty(reports) <= 5 * PENALTY_PER_SEVERITY * |reports|
    decreases |reports|
  {
    if reports != [] { PenaltyRange(reports[..|reports| - 1]); }
  }

  /** The score lies between 0 and 100, the bonus between 0 and 20. */
  lemma ScoreRange(createdAt: Time, reports: seq<ReportFlag>, now: Time, cfg: TrustConfig)
    ensures var t := CalculateTrustScore(createdAt, reports, now, cfg);
      0 <= t.score <= 100 && 0 <= t.ageBonus <= 20 && 0 <= t.penalty <= 40 * |reports|
  {
    PenaltyRange(reports);
  }

  /** One more report, anywhere in the list, never raises the score and never lifts a ban. */
  lemma {:induction false} ReportNeverHelps(createdAt: Time, reports: seq<ReportFlag>, k: nat, r: ReportFlag, now: Time, cfg: TrustConfig)
    requires k <= |reports|
    ensures var before := CalculateTrustScore(createdAt, reports, now, cfg);
      var after := CalculateTrustScore(createdAt, reports[..k] + [r] + reports[k..], now, cfg);
      && after.score <= before.score
      && (before.isBanned ==> after.isBanned)
      && before.score - after.score <= 40
  {
    var more := reports[..k] + [r] + reports[k..];
    assert more[..k] + more[k + 1..] == reports;
    PenaltySplit(more, k);
    forall x | x in reports ensures x in more {
      var i :| 0 <= i < |reports| && reports[i] == x;
      assert if i < k then more[i] == x else more[i + 1] == x;
    }
  }

  /** Time alone never lowers the score. */
  lemma AgeNeverHurts(createdAt: Time, reports: seq<ReportFlag>, now: Time, later: Time, cfg: TrustConfig)
    requires now <= later
    ensures CalculateTrustScore(createdAt, reports, now, cfg).score <= CalculateTrustScore(createdAt, reports, later, cfg).score
  {
  }

  // ---------- The stored score ----------

  lemma ReportsOnOthers(reports: seq<ReportRow>, row: ReportRow, userId: UserId)
    ensures ReportsOn(reports + [row], userId) == ReportsOn(reports, userId) + if row.offenderId == userId then [row.flag] else []
  {
  }

  lemma {:induction false} NoReportsOnStrangers(calls: seq<TrustCall>, cfg: TrustConfig, userId: UserId)
    requires userId !in Run(calls, cfg).users
    ensures ReportsOn(Run(calls, cfg).reports, userId) == [] && LastScored(calls, cfg, userId) == None
  {
    if calls != [] {
      var before, c := calls[..|calls| - 1], calls[|calls| - 1];
      NoReportsOnStrangers(before, cfg, userId);
      if c.FileCall? { ReportsOnOthers(Run(before, cfg).reports, c.row, userId); }
    }
  }

  /** The stored score of a user last scored at a given time, or never. */
  predicate StoredAt(w: World, userId: UserId, at: Option<Time>, cfg: TrustConfig)
    requires userId in w.users
  {
    match at
    case Some(t) =>
      w.users[userId].trustScore ==
        CalculateTrustScore(w.users[userId].createdAt, ReportsOn(w.reports, userId), t, cfg).score
    case None => w.users[userId].trustScore == SCORE_MAX && ReportsOn(w.reports, userId) == []
  }

  lemma {:induction false} StepStores(w: World, c: TrustCall, cfg: TrustConfig, userId: UserId, at: Option<Time>)
    requires Step(w, c, cfg).Ok? && userId in Step(w, c, cfg).value.users
    requires if userId in w.users then StoredAt(w, userId, at, cfg) else at == None && ReportsOn(w.reports, userId) == []
    ensures var scores := match c
        case RegisterCall(_, _) => false
        case FileCall(row, _) => row.offenderId == userId
        case RecalculateCall(u, _) => u == userId;
      StoredAt(Step(w, c, cfg).value, userId, if scores then Some(c.now) else at, cfg)
  {
    if c.FileCall? {
      ReportsOnOthers(w.reports, c.row, userId);
      assert ReportsOn(w.reports, userId) + [] == ReportsOn(w.reports, userId);
    }
  }

  /**
   * After any run a stored score is the calculated one over all the reports on that user at the time it was last
   * written; a user who was never scored has no reports and the default score.
   */
  lemma {:induction false} StoredScoreAgrees(calls: seq<TrustCall>, cfg: TrustConfig, userId: UserId)
    requires userId in Run(calls, cfg).users
    ensures StoredAt(Run(calls, cfg), userId, LastScored(calls, cfg, userId), cfg)
  {
    if calls != [] {
      var before, c := calls[..|calls| - 1], calls[|calls| - 1];
      if userId in Run(before, cfg).users {
        StoredScoreAgrees(before, cfg, userId);
      } else {
        NoReportsOnStrangers(before, cfg, userId);
      }
      if Step(Run(before, cfg), c, cfg).Ok? {
        StepStores(Run(before, cfg), c, cfg, userId, LastScored(before, cfg, userId));
      }
    }
  }
}
