/** The trust-score and report services over the shared user and report tables. */
module TrustServices {
  import opened Basics
  import M = TrustModel

  class TrustScoreService {
    var users: map<UserId, M.User>
    var reports: seq<M.ReportRow>
    const config: M.TrustConfig

    ghost function View(): M.World
      reads this
    {
      M.World(users, reports)
    }

    constructor (config: M.TrustConfig)
      ensures this.config == config && View() == M.World(map[], [])
    {
      this.config := config;
      users, reports := map[], [];
    }

    method Compute(userId: UserId, now: Time) returns (r: Result<M.TrustScore, M.TrustError>)
      ensures r == M.Compute(View(), userId, now, config)
    {
      if userId !in users { return Err(M.UserNotFound); }
      var flags := M.ReportsOn(reports, userId);
      return Ok(M.CalculateTrustScore(users[userId].createdAt, flags, now, config));
    }

    method Recalculate(userId: UserId, now: Time) returns (r: Result<M.TrustScore, M.TrustError>)
      modifies `users
      ensures r == M.Compute(old(View()), userId, now, config)
      ensures match M.Recalculate(old(View()), userId, now, config)
              case Ok(w) => View() == w
              case Err(_) => View() == old(View())
    {
      r := Compute(userId, now);
      if r.Ok? {
        users := users[userId := users[userId].(trustScore := r.value.score)];
      }
    }
  }

  class ReportsService {
    const trust: TrustScoreService

    constructor (trust: TrustScoreService)
      ensures this.trust == trust
    {
      this.trust := trust;
    }

    /** Appends the report, then recalculates; the answer carries the offender's new score. */
    method File(row: M.ReportRow, now: Time) returns (r: Result<M.TrustScore, M.TrustError>)
      modifies trust
      ensures match M.File(old(trust.View()), row, now, trust.config)
              case Ok(w) => trust.View() == w && r.Ok? && r.value.score == w.users[row.offenderId].trustScore
              case Err(e) => trust.View() == old(trust.View()) && r == Err(e)
    {
      if row.reporterId !in trust.users || row.offenderId !in trust.users { return Err(M.ForeignKeyViolation); }
      trust.reports := trust.reports + [row];
      r := trust.Recalculate(row.offenderId, now);
    }
  }
}
