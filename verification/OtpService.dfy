/** The one-time password service: challenge rows updated in place. */
module OtpServices {
  import opened Basics
  import M = OtpModel

  class OtpService {
    var challenges: seq<M.Challenge>
    /** Every comparison ever made, for stating bounds on guessing. */
    ghost var probes: seq<M.Probe>
    const config: M.Config

    ghost function View(): M.OtpState
      reads this
    {
      M.OtpState(challenges, probes)
    }

    constructor (config: M.Config)
      ensures this.config == config && View() == M.OtpState([], [])
    {
      this.config := config;
      challenges, probes := [], [];
    }

    method EnforcePerPhoneThrottle(phone: M.Phone, now: Time) returns (refused: Option<M.OtpError>)
      ensures refused == M.Throttle(challenges, phone, now)
    {
      var recentBurst := CountCreatedAfter(phone, now - M.MIN_GAP);
      var hourly := CountCreatedAfter(phone, now - M.HOUR);
      if recentBurst > 0 { return Some(M.TooSoon); }
      if hourly >= M.HOURLY_CAP { return Some(M.HourlyCapReached); }
      return None;
    }

    method CountCreatedAfter(phone: M.Phone, after: Time) returns (count: nat)
      ensures count == M.CountSince(challenges, phone, after)
    {
      count := 0;
      for i := 0 to |challenges|
        invariant count == M.CountSince(challenges[..i], phone, after)
      {
        assert challenges[..i + 1][..i] == challenges[..i];
        if challenges[i].phone == phone && challenges[i].createdAt > after { count := count + 1; }
      }
      assert challenges[..|challenges|] == challenges;
    }

    method Issue(phone: M.Phone, code: M.Code, now: Time) returns (r: Result<(), M.OtpError>)
      modifies this
      ensures match M.Issue(old(View()), config, phone, code, now)
              case Ok(s) => View() == s && r == Ok(())
              case Err(e) => View() == old(View()) && r == Err(e)
    {
      var refused := EnforcePerPhoneThrottle(phone, now);
      if refused.Some? { return Err(refused.value); }
      var expiresAt := now + config.ttl;
      ghost var was := challenges;
      for i := 0 to |challenges|
        invariant |challenges| == |was| && probes == old(probes)
        invariant forall j | 0 <= j < i :: challenges[j] == M.Supersede(was, phone, now)[j]
        invariant forall j | i <= j < |was| :: challenges[j] == was[j]
      {
        var c := challenges[i];
        if c.phone == phone && c.consumedAt.None? && c.expiresAt > now {
          challenges := challenges[i := c.(consumedAt := Some(now), attempts := M.SUPERSEDED_ATTEMPTS)];
        }
      }
      assert challenges == M.Supersede(was, phone, now);
      challenges := challenges + [M.Challenge(phone, M.Digest(phone, code), now, expiresAt, None, 0)];
      return Ok(());
    }

    method Verify(phone: M.Phone, code: M.Code, now: Time) returns (r: Result<bool, M.OtpError>)
      modifies this
      ensures var (s, refused) := M.Verify(old(View()), config, phone, code, now);
        View() == s && r == match refused case None => Ok(true) case Some(e) => Err(e)
    {
      var newest := M.NewestPending(challenges, phone);
      if newest.None? { return Err(M.NoActiveChallenge); }
      var i := newest.value;
      var challenge := challenges[i];
      if challenge.expiresAt < now { return Err(M.CodeExpired); }
      if challenge.attempts >= config.maxAttempts {
        challenges := challenges[i := challenge.(consumedAt := Some(now))];
        return Err(M.TooManyAttempts);
      }
      probes := probes + [M.Probe(i, now)];
      if challenge.codeHash != M.Digest(phone, code) {
        challenges := challenges[i := challenge.(attempts := challenge.attempts + 1)];
        return Err(M.IncorrectCode);
      }
      challenges := challenges[i := challenge.(consumedAt := Some(now))];
      return Ok(true);
    }
  }
}
