/** The trust score and the report pipeline that keeps it up to date, as values. */
module TrustModel {
  import opened Basics

  datatype ReportFlag = ReportFlag(severity: int, isPlatformWideBanned: bool)

  datatype TrustConfig = TrustConfig(base: int, banThreshold: int)

  const DEFAULT_CONFIG := TrustConfig(100, 20)

  datatype TrustScore = TrustScore(score: int, isBanned: bool, penalty: int, ageBonus: int)

  const PENALTY_PER_SEVERITY := 8
  const AGE_BONUS_PER_MONTH := 2
  const MAX_AGE_BONUS := 20
  const SCORE_MIN := 0
  const SCORE_MAX := 100
  const MS_PER_MONTH: Time := 1000 * 60 * 60 * 24 * 30

  function Min(a: int, b: int): int { if a < b then a else b }

  function Max(a: int, b: int): int { if a < b then b else a }

  /** Severities count from 0 to 5, whatever was filed. */
  function Weight(r: ReportFlag): int {
    Max(0, Min(5, r.severity)) * PENALTY_PER_SEVERITY
  }

  function Penalty(reports: seq<ReportFlag>): int {
    if reports == [] then 0 else Penalty(reports[..|reports| - 1]) + Weight(reports[|reports| - 1])
  }

  predicate HardBanned(reports: seq<ReportFlag>) {
    exists r | r in reports :: r.isPlatformWideBanned
  }

  function AgeBonus(createdAt: Time, now: Time): int {
    Min(MAX_AGE_BONUS, Max(0, (now - createdAt) / MS_PER_MONTH) * AGE_BONUS_PER_MONTH)
  }

  function CalculateTrustScore(createdAt: Time, reports: seq<ReportFlag>, now: Time, cfg: TrustConfig): TrustScore {
    var penalty := Penalty(reports);
    var ageBonus := AgeBonus(createdAt, now);
    var score := Max(SCORE_MIN, Min(SCORE_MAX, cfg.base - penalty + ageBonus));
    TrustScore(score, HardBanned(reports) || score <= cfg.banThreshold, penalty, ageBonus)
  }

  // ---------- The pipeline ----------

  datatype User = User(createdAt: Time, trustScore: int)

  datatype ReportRow = ReportRow(reporterId: UserId, offenderId: UserId, flag: ReportFlag)

  datatype World = World(users: map<UserId, User>, reports: seq<ReportRow>)

  datatype TrustError = UserNotFound | ForeignKeyViolation | UniqueViolation

  /** The flags filed against a user, in filing order. */
  function ReportsOn(reports: seq<ReportRow>, userId: UserId): seq<ReportFlag> {
    if reports == [] then []
    else
      var last := reports[|reports| - 1];
      ReportsOn(reports[..|reports| - 1], userId) + if last.offenderId == userId then [last.flag] else []
  }

  function Compute(w: World, userId: UserId, now: Time, cfg: TrustConfig): Result<TrustScore, TrustError> {
    if userId !in w.users then Err(UserNotFound)
    else Ok(CalculateTrustScore(w.users[userId].createdAt, ReportsOn(w.reports, userId), now, cfg))
  }

  function Recalculate(w: World, userId: UserId, now: Time, cfg: TrustConfig): Result<World, TrustError> {
    match Compute(w, userId, now, cfg)
    case Err(e) => Err(e)
    case Ok(t) => Ok(w.(users := w.users[userId := w.users[userId].(trustScore := t.score)]))
  }

  /** Files a report and brings the offender's stored score up to date; both users must exist. */
  function File(w: World, row: ReportRow, now: Time, cfg: TrustConfig): Result<World, TrustError> {
    if row.reporterId !in w.users || row.offenderId !in w.users then Err(ForeignKeyViolation)
    else Recalculate(w.(reports := w.reports + [row]), row.offenderId, now, cfg)
  }

  /** A new account starts with the column default. */
  function Register(w: World, userId: UserId, now: Time): Result<World, TrustError> {
    if userId in w.users then Err(UniqueViolation) else Ok(w.(users := w.users[userId := User(now, SCORE_MAX)]))
  }

  // ---------- Runs ----------

  datatype TrustCall =
    | RegisterCall(userId: UserId, now: Time)
    | FileCall(row: ReportRow, now: Time)
    | RecalculateCall(userId: UserId, now: Time)

  function Step(w: World, c: TrustCall, cfg: TrustConfig): Result<World, TrustError> {
    match c
    case RegisterCall(userId, now) => Register(w, userId, now)
    case FileCall(row, now) => File(w, row, now, cfg)
    case RecalculateCall(userId, now) => Recalculate(w, userId, now, cfg)
  }

  function Run(calls: seq<TrustCall>, cfg: TrustConfig): World {
    if calls == [] then World(map[], [])
    else
      var before := Run(calls[..|calls| - 1], cfg);
      match Step(before, calls[|calls| - 1], cfg)
      case Ok(w) => w
      case Err(_) => before
  }

  /** When the user's stored score was last written by a call that was carried out. */
  function LastScored(calls: seq<TrustCall>, cfg: TrustConfig, userId: UserId): Option<Time> {
    if calls == [] then None
    else
      var before, c := calls[..|calls| - 1], calls[|calls| - 1];
      var scores := match c
        case RegisterCall(_, _) => false
        case FileCall(row, _) => row.offenderId == userId
        case RecalculateCall(u, _) => u == userId;
      if scores && Step(Run(before, cfg), c, cfg).Ok? then Some(c.now) else LastScored(before, cfg, userId)
  }
}
