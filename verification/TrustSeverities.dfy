/** What a report costs, what an account's age earns, and what the stored score therefore is, in numbers. */
module TrustSeverities {
  import opened Basics
  import opened TrustModel
  import opened TrustGuarantees

  /** The severities that count, from 0 to 5, added up. */
  function Points(reports: seq<ReportFlag>): int {
    if reports == [] then 0
    else
      var s := reports[|reports| - 1].severity;
      Points(reports[..|reports| - 1]) + if s < 0 then 0 else if s > 5 then 5 else s
  }

  /** Between 0 and 100. */
  function Clamped(x: int): int {
    if x < 0 then 0 else if x > 100 then 100 else x
  }

  const THIRTY_DAYS: Time := 2_592_000_000

  /** So many full periods of thirty days lie between the two times; none if the account is from the future. */
  predicate FullMonths(createdAt: Time, now: Time, m: nat) {
    if now < createdAt then m == 0 else m * THIRTY_DAYS <= now - createdAt < (m + 1) * THIRTY_DAYS
  }

  lemma {:induction false} PenaltyIsPoints(reports: seq<ReportFlag>)
    ensures Penalty(reports) == 8 * Points(reports)
    decreases |reports|
  {
    if reports != [] { PenaltyIsPoints(reports[..|reports| - 1]); }
  }

  /** One more report costs eight points for each step of its severity, from 0 to 5. */
  lemma {:induction false} ReportCosts(createdAt: Time, reports: seq<ReportFlag>, r: ReportFlag, now: Time, cfg: TrustConfig)
    ensures CalculateTrustScore(createdAt, reports + [r], now, cfg).penalty == CalculateTrustScore(createdAt, reports, now, cfg).penalty
      + if r.severity < 0 then 0 else if r.severity > 5 then 40 else 8 * r.severity
  {
    assert (reports + [r])[..|reports|] == reports;
  }

  /** Without reports there is no penalty, and with the default base the score is full. */
  lemma NoReportsFullScore(createdAt: Time, now: Time)
    ensures var t := CalculateTrustScore(createdAt, [], now, DEFAULT_CONFIG);
      t.penalty == 0 && t.score == 100 && !t.isBanned
  {
  }

  /** Making one report more severe never raises the score. */
  lemma {:induction false} SeverityNeverHelps(
      createdAt: Time, reports: seq<ReportFlag>, k: nat, worse: ReportFlag, now: Time, cfg: TrustConfig)
    requires k < |reports| && worse.severity >= reports[k].severity
    ensures CalculateTrustScore(createdAt, reports[k := worse], now, cfg).score <= CalculateTrustScore(createdAt, reports, now, cfg).score
  {
    var changed := reports[k := worse];
    PenaltySplit(reports, k);
    PenaltySplit(changed, k);
    assert changed[..k] + changed[k + 1..] == reports[..k] + reports[k + 1..];
  }

  /** Two points for every full thirty days, up to twenty. */
  lemma {:induction false} BonusMeans(createdAt: Time, reports: seq<ReportFlag>, now: Time, cfg: TrustConfig, m: nat)
    requires FullMonths(createdAt, now, m)
    ensures CalculateTrustScore(createdAt, reports, now, cfg).ageBonus == if m < 10 then 2 * m else 20
  {
    if now >= createdAt { assert (now - createdAt) / MS_PER_MONTH == m; }
    else { assert (now - createdAt) / MS_PER_MONTH <= 0; }
  }

  /** The score is the base less eight points per step of severity plus the bonus, between 0 and 100. */
  lemma {:induction false} ScoreMeans(createdAt: Time, reports: seq<ReportFlag>, now: Time, cfg: TrustConfig, m: nat)
    requires FullMonths(createdAt, now, m)
    ensures CalculateTrustScore(createdAt, reports, now, cfg).score ==
      Clamped(cfg.base - 8 * Points(reports) + if m < 10 then 2 * m else 20)
  {
    BonusMeans(createdAt, reports, now, cfg, m);
    PenaltyIsPoints(reports);
  }

  /** With the defaults, banned means flagged platform-wide, or severities that outweigh the bonus by eighty points. */
  lemma {:induction false} BanMeaning(createdAt: Time, reports: seq<ReportFlag>, now: Time, m: nat)
    requires FullMonths(createdAt, now, m)
    ensures CalculateTrustScore(createdAt, reports, now, DEFAULT_CONFIG).isBanned <==>
      || (exists k :: 0 <= k < |reports| && reports[k].isPlatformWideBanned)
      || 8 * Points(reports) - (if m < 10 then 2 * m else 20) >= 80
  {
    ScoreMeans(createdAt, reports, now, DEFAULT_CONFIG, m);
    assert forall k | 0 <= k < |reports| :: reports[k] in reports;
  }

  // ---------- The stored score ----------

  /** The severities that count of the reports filed against a user. */
  function PointsAgainst(rows: seq<ReportRow>, userId: UserId): int {
    if rows == [] then 0
    else
      var last := rows[|rows| - 1];
      var s := last.flag.severity;
      PointsAgainst(rows[..|rows| - 1], userId)
      + if last.offenderId != userId || s < 0 then 0 else if s > 5 then 5 else s
  }

  lemma {:induction false} PointsOn(rows: seq<ReportRow>, userId: UserId)
    ensures Points(ReportsOn(rows, userId)) == PointsAgainst(rows, userId)
    decreases |rows|
  {
    if rows != [] {
      var front, last := rows[..|rows| - 1], rows[|rows| - 1];
      PointsOn(front, userId);
      var flags := ReportsOn(front, userId);
      if last.offenderId == userId {
        assert (flags + [last.flag])[..|flags|] == flags;
      } else {
        assert flags + [] == flags;
      }
    }
  }

  /** When the account was opened. */
  function OpenedAt(calls: seq<TrustCall>, userId: UserId): Option<Time> {
    if calls == [] then None
    else
      var before, c := calls[..|calls| - 1], calls[|calls| - 1];
      if OpenedAt(before, userId).Some? then OpenedAt(before, userId)
      else if c.RegisterCall? && c.userId == userId then Some(c.now) else None
  }

  lemma {:induction false} AccountsDateFromRegistration(calls: seq<TrustCall>, cfg: TrustConfig, userId: UserId)
    ensures userId in Run(calls, cfg).users <==> OpenedAt(calls, userId).Some?
    ensures userId in Run(calls, cfg).users ==> Run(calls, cfg).users[userId].createdAt == OpenedAt(calls, userId).value
  {
    if calls != [] { AccountsDateFromRegistration(calls[..|calls| - 1], cfg, userId); }
  }

  /**
   * After any run with the defaults: a user who was never scored stands at 100, and otherwise the stored score is 100 less
   * eight points per step of severity of all reports against the user, plus two per full thirty days from registration to
   * the last scoring, up to twenty, and between 0 and 100.
   */
  lemma {:induction false} StoredScoreMeans(calls: seq<TrustCall>, userId: UserId, m: nat)
    requires userId in Run(calls, DEFAULT_CONFIG).users
    requires LastScored(calls, DEFAULT_CONFIG, userId).Some? ==>
      OpenedAt(calls, userId).Some? && FullMonths(OpenedAt(calls, userId).value, LastScored(calls, DEFAULT_CONFIG, userId).value, m)
    ensures var w := Run(calls, DEFAULT_CONFIG);
      w.users[userId].trustScore ==
        match LastScored(calls, DEFAULT_CONFIG, userId)
        case None => 100
        case Some(_) => Clamped(100 - 8 * PointsAgainst(w.reports, userId) + if m < 10 then 2 * m else 20)
  {
    var w := Run(calls, DEFAULT_CONFIG);
    StoredScoreAgrees(calls, DEFAULT_CONFIG, userId);
    AccountsDateFromRegistration(calls, DEFAULT_CONFIG, userId);
    PointsOn(w.reports, userId);
    match LastScored(calls, DEFAULT_CONFIG, userId)
    case None =>
    case Some(t) => ScoreMeans(w.users[userId].createdAt, ReportsOn(w.reports, userId), t, DEFAULT_CONFIG, m);
  }

  /** Filing between known users appends the report and brings the offender's stored score up to date at once. */
  lemma {:induction false} FilingScores(calls: seq<TrustCall>, row: ReportRow, now: Time, m: nat)
    requires OpenedAt(calls, row.offenderId).Some? && FullMonths(OpenedAt(calls, row.offenderId).value, now, m)
    ensures var w := Run(calls, DEFAULT_CONFIG);
      var r := File(w, row, now, DEFAULT_CONFIG);
      if OpenedAt(calls, row.reporterId).None? then r == Err(ForeignKeyViolation)
      else
        && r.Ok? && r.value.reports == w.reports + [row] && row.offenderId in r.value.users
        && r.value.users[row.offenderId].trustScore ==
             Clamped(100 - 8 * PointsAgainst(w.reports + [row], row.offenderId) + if m < 10 then 2 * m else 20)
        && r.value.users.Keys == w.users.Keys
        && forall u | u in w.users && u != row.offenderId :: r.value.users[u] == w.users[u]
  {
    var w := Run(calls, DEFAULT_CONFIG);
    AccountsDateFromRegistration(calls, DEFAULT_CONFIG, row.offenderId);
    AccountsDateFromRegistration(calls, DEFAULT_CONFIG, row.reporterId);
    PointsOn(w.reports + [row], row.offenderId);
    ScoreMeans(w.users[row.offenderId].createdAt, ReportsOn(w.reports + [row], row.offenderId), now, DEFAULT_CONFIG, m);
  }

  /** What a refusal reports is the case. */
  lemma RefusalsTruthful(w: World, userId: UserId, row: ReportRow, now: Time, cfg: TrustConfig)
    ensures Compute(w, userId, now, cfg).Err? <==> userId !in w.users
    ensures Compute(w, userId, now, cfg).Err? ==> Compute(w, userId, now, cfg) == Err(UserNotFound)
    ensures Recalculate(w, userId, now, cfg).Err? ==> Recalculate(w, userId, now, cfg) == Err(UserNotFound)
    ensures Register(w, userId, now).Err? <==> userId in w.users
    ensures Register(w, userId, now).Err? ==> Register(w, userId, now) == Err(UniqueViolation)
    ensures File(w, row, now, cfg).Err? <==> row.reporterId !in w.users || row.offenderId !in w.users
    ensures File(w, row, now, cfg).Err? ==> File(w, row, now, cfg) == Err(ForeignKeyViolation)
  {
  }
}
