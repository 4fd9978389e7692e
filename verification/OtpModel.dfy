/** One-time passwords: issuing, throttling and verifying challenges, as values. */
module OtpModel {
  import opened Basics

  type Phone = int
  type Code = int

  /** A stored hash; hashing is taken to be injective in phone and code. */
  datatype Digest = Digest(phone: Phone, code: Code)

  datatype Challenge = Challenge(
    phone: Phone, codeHash: Digest, createdAt: Time, expiresAt: Time, consumedAt: Option<Time>, attempts: nat)

  /** A comparison of a submitted code with a stored hash: which challenge, and when. */
  datatype Probe = Probe(challenge: nat, at: Time)

  /** The challenges table in insertion order; `probes` is history, not stored by the service. */
  datatype OtpState = OtpState(challenges: seq<Challenge>, probes: seq<Probe>)

  datatype Config = Config(ttl: nat, maxAttempts: nat)

  const DEFAULT_CONFIG := Config(300_000, 5)

  datatype OtpError = TooSoon | HourlyCapReached | NoActiveChallenge | CodeExpired | TooManyAttempts | IncorrectCode

  const MIN_GAP: Time := 60_000
  const HOUR: Time := 3_600_000
  const HOURLY_CAP := 5
  const SUPERSEDED_ATTEMPTS := 99

  // ---------- Issuing ----------

  /** The number of challenges of the phone created after an instant. */
  function CountSince(cs: seq<Challenge>, phone: Phone, after: Time): nat {
    if cs == [] then 0
    else
      var last := cs[|cs| - 1];
      CountSince(cs[..|cs| - 1], phone, after) + if last.phone == phone && last.createdAt > after then 1 else 0
  }

  function Throttle(cs: seq<Challenge>, phone: Phone, now: Time): Option<OtpError> {
    if CountSince(cs, phone, now - MIN_GAP) > 0 then Some(TooSoon)
    else if CountSince(cs, phone, now - HOUR) >= HOURLY_CAP then Some(HourlyCapReached)
    else None
  }

  /** Marks every pending, unexpired challenge of the phone as consumed. */
  function Supersede(cs: seq<Challenge>, phone: Phone, now: Time): (r: seq<Challenge>)
    ensures |r| == |cs|
  {
    seq(|cs|, i requires 0 <= i < |cs| =>
      if cs[i].phone == phone && cs[i].consumedAt.None? && cs[i].expiresAt > now
      then cs[i].(consumedAt := Some(now), attempts := SUPERSEDED_ATTEMPTS) else cs[i])
  }

  function Issue(s: OtpState, cfg: Config, phone: Phone, code: Code, now: Time): Result<OtpState, OtpError> {
    match Throttle(s.challenges, phone, now)
    case Some(e) => Err(e)
    case None => Ok(s.(challenges :=
      Supersede(s.challenges, phone, now) + [Challenge(phone, Digest(phone, code), now, now + cfg.ttl, None, 0)]))
  }

  // ---------- Verifying ----------

  /** The phone's challenge that is not consumed and has the latest creation time. */
  function NewestPending(cs: seq<Challenge>, phone: Phone): (r: Option<nat>)
    ensures r.Some? ==> r.value < |cs| && cs[r.value].phone == phone && cs[r.value].consumedAt.None?
    ensures forall i | 0 <= i < |cs| && cs[i].phone == phone && cs[i].consumedAt.None? ::
      r.Some? && cs[i].createdAt <= cs[r.value].createdAt
  {
    if cs == [] then None
    else
      var last := cs[|cs| - 1];
      var r := NewestPending(cs[..|cs| - 1], phone);
      if last.phone == phone && last.consumedAt.None? && (r.None? || cs[r.value].createdAt <= last.createdAt)
      then Some(|cs| - 1) else r
  }

  /** A refused attempt still counts, and an exhausted challenge is burned, so the new state comes with the answer. */
  function Verify(s: OtpState, cfg: Config, phone: Phone, code: Code, now: Time): (OtpState, Option<OtpError>) {
    match NewestPending(s.challenges, phone)
    case None => (s, Some(NoActiveChallenge))
    case Some(i) =>
      var c := s.challenges[i];
      if c.expiresAt < now then (s, Some(CodeExpired))
      else if c.attempts >= cfg.maxAttempts then
        (s.(challenges := s.challenges[i := c.(consumedAt := Some(now))]), Some(TooManyAttempts))
      else
        var probes := s.probes + [Probe(i, now)];
        if c.codeHash != Digest(phone, code) then
          (OtpState(s.challenges[i := c.(attempts := c.attempts + 1)], probes), Some(IncorrectCode))
        else
          (OtpState(s.challenges[i := c.(consumedAt := Some(now))], probes), None)
  }

  // ---------- Runs ----------

  datatype OtpCall = IssueCall(phone: Phone, code: Code, now: Time) | VerifyCall(phone: Phone, code: Code, now: Time)

  function Next(s: OtpState, cfg: Config, c: OtpCall): OtpState {
    match c
    case IssueCall(phone, code, now) => (match Issue(s, cfg, phone, code, now) case Ok(s') => s' case Err(_) => s)
    case VerifyCall(phone, code, now) => Verify(s, cfg, phone, code, now).0
  }

  function Run(cfg: Config, calls: seq<OtpCall>): OtpState {
    if calls == [] then OtpState([], []) else Next(Run(cfg, calls[..|calls| - 1]), cfg, calls[|calls| - 1])
  }

  /** The clock never goes back. */
  predicate Monotone(calls: seq<OtpCall>) {
    forall i, j | 0 <= i < j < |calls| :: calls[i].now <= calls[j].now
  }
}
