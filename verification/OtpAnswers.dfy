/** What the answer to a submitted code means, in terms of the calls made before. */
module OtpAnswers {
  import opened Basics
  import opened OtpModel
  import opened OtpGuarantees

  /** A code was sent to the phone by this call. */
  predicate Sends(s: OtpState, cfg: Config, c: OtpCall, phone: Phone) {
    c.IssueCall? && c.phone == phone && Issue(s, cfg, phone, c.code, c.now).Ok?
  }

  /** The answer to a submission after these calls; None lets the user in. */
  function Answer(cfg: Config, calls: seq<OtpCall>, phone: Phone, code: Code, now: Time): Option<OtpError> {
    Verify(Run(cfg, calls), cfg, phone, code, now).1
  }

  /** The last call that sent a code to the phone. */
  function LastSent(cfg: Config, calls: seq<OtpCall>, phone: Phone): Option<OtpCall> {
    if calls == [] then None
    else
      var before, c := calls[..|calls| - 1], calls[|calls| - 1];
      if Sends(Run(cfg, before), cfg, c, phone) then Some(c) else LastSent(cfg, before, phone)
  }

  /** The number of submissions since then that were answered as incorrect. */
  function WrongSince(cfg: Config, calls: seq<OtpCall>, phone: Phone): nat {
    if calls == [] then 0
    else
      var before, c := calls[..|calls| - 1], calls[|calls| - 1];
      if Sends(Run(cfg, before), cfg, c, phone) then 0
      else
        var wrong := c.VerifyCall? && c.phone == phone && Answer(cfg, before, phone, c.code, c.now) == Some(IncorrectCode);
        WrongSince(cfg, before, phone) + if wrong then 1 else 0
  }

  /** Some submission since then let the user in. */
  predicate LetInSince(cfg: Config, calls: seq<OtpCall>, phone: Phone) {
    if calls == [] then false
    else
      var before, c := calls[..|calls| - 1], calls[|calls| - 1];
      if Sends(Run(cfg, before), cfg, c, phone) then false
      else
        var letIn := c.VerifyCall? && c.phone == phone && Answer(cfg, before, phone, c.code, c.now) == None;
        letIn || LetInSince(cfg, before, phone)
  }

  // ---------- The table reflects the calls ----------

  /** The i-th row is the phone's last. */
  predicate IsLast(cs: seq<Challenge>, phone: Phone, i: nat) {
    i < |cs| && cs[i].phone == phone && forall j | i < j < |cs| :: cs[j].phone != phone
  }

  /** The phone's last row is that of the code sent last, and pending as long as the code is good for another try. */
  predicate Reflects(c: Challenge, cfg: Config, sent: OtpCall, wrong: nat, letIn: bool) {
    && c.codeHash == Digest(sent.phone, sent.code) && c.createdAt == sent.now && c.expiresAt == sent.now + cfg.ttl
    && (c.consumedAt.None? ==> c.attempts == wrong && !letIn)
    && (c.consumedAt.Some? ==> wrong >= cfg.maxAttempts || letIn)
  }

  ghost predicate TableTells(cfg: Config, calls: seq<OtpCall>, phone: Phone) {
    var cs := Run(cfg, calls).challenges;
    match LastSent(cfg, calls, phone)
    case None => forall j | 0 <= j < |cs| :: cs[j].phone != phone
    case Some(sent) =>
      && sent.IssueCall? && sent.phone == phone
      && exists i {:trigger cs[i]} :: 0 <= i < |cs| && IsLast(cs, phone, i)
           && Reflects(cs[i], cfg, sent, WrongSince(cfg, calls, phone), LetInSince(cfg, calls, phone))
  }

  /** Sending appends the phone's last row. */
  lemma SendTells(s: OtpState, cfg: Config, phone: Phone, code: Code, now: Time)
    requires Issue(s, cfg, phone, code, now).Ok?
    ensures var cs := Issue(s, cfg, phone, code, now).value.challenges;
      |cs| == |s.challenges| + 1 && cs[|s.challenges|] == Challenge(phone, Digest(phone, code), now, now + cfg.ttl, None, 0)
  {
  }

  /** Sending to one phone leaves the rows of the others alone. */
  lemma SendElsewhere(s: OtpState, cfg: Config, other: Phone, code: Code, now: Time, phone: Phone, i: nat)
    requires other != phone && IsLast(s.challenges, phone, i) && Issue(s, cfg, other, code, now).Ok?
    ensures var cs := Issue(s, cfg, other, code, now).value.challenges; IsLast(cs, phone, i) && cs[i] == s.challenges[i]
  {
  }

  lemma NoRowsElsewhere(s: OtpState, cfg: Config, c: OtpCall, phone: Phone)
    requires (forall j | 0 <= j < |s.challenges| :: s.challenges[j].phone != phone) && !Sends(s, cfg, c, phone)
    ensures forall j | 0 <= j < |Next(s, cfg, c).challenges| :: Next(s, cfg, c).challenges[j].phone != phone
  {
  }

  /** A pending last row is the one a submission is compared with, whatever the clock says. */
  lemma LastIsPicked(cs: seq<Challenge>, cfg: Config, phone: Phone, i: nat)
    requires Table(cs, cfg) && IsLast(cs, phone, i) && cs[i].consumedAt.None?
    ensures NewestPending(cs, phone) == Some(i)
  {
  }

  /** What a submission does to the phone's last row, and what it answers when that row is pending. */
  lemma {:induction false} SubmitTells(s: OtpState, cfg: Config, phone: Phone, code: Code, now: Time, i: nat)
    requires Table(s.challenges, cfg) && IsLast(s.challenges, phone, i)
    ensures var cs, answer := Verify(s, cfg, phone, code, now).0.challenges, Verify(s, cfg, phone, code, now).1;
      var c := s.challenges[i];
      && IsLast(cs, phone, i)
      && cs[i].codeHash == c.codeHash && cs[i].createdAt == c.createdAt && cs[i].expiresAt == c.expiresAt
      && (c.consumedAt.Some? ==> cs[i].consumedAt.Some?)
      && (c.consumedAt.None? ==>
            && answer == (if c.expiresAt < now then Some(CodeExpired)
                          else if c.attempts >= cfg.maxAttempts then Some(TooManyAttempts)
                          else if c.codeHash != Digest(phone, code) then Some(IncorrectCode) else None)
            && cs[i].attempts == c.attempts + (if answer == Some(IncorrectCode) then 1 else 0)
            && (cs[i].consumedAt.Some? <==> answer == Some(TooManyAttempts) || answer == None))
  {
    if s.challenges[i].consumedAt.None? { LastIsPicked(s.challenges, cfg, phone, i); }
  }

  lemma {:induction false} SubmitElsewhere(s: OtpState, cfg: Config, other: Phone, code: Code, now: Time, phone: Phone, i: nat)
    requires other != phone && IsLast(s.challenges, phone, i)
    ensures var cs := Verify(s, cfg, other, code, now).0.challenges; IsLast(cs, phone, i) && cs[i] == s.challenges[i]
  {
  }

  lemma {:induction false} TellsAlways(cfg: Config, calls: seq<OtpCall>, phone: Phone)
    ensures TableTells(cfg, calls, phone)
  {
    if calls != [] {
      var before, c := calls[..|calls| - 1], calls[|calls| - 1];
      TellsAlways(cfg, before, phone);
      ReachableTable(cfg, before);
      TellsNext(cfg, before, c, phone);
      assert before + [c] == calls;
    }
  }

  lemma {:induction false} TellsNext(cfg: Config, before: seq<OtpCall>, c: OtpCall, phone: Phone)
    requires TableTells(cfg, before, phone) && Table(Run(cfg, before).challenges, cfg)
    ensures TableTells(cfg, before + [c], phone)
  {
    var calls, s := before + [c], Run(cfg, before);
    assert calls[..|before|] == before && calls[|before|] == c;
    var cs := Run(cfg, calls).challenges;
    if Sends(s, cfg, c, phone) {
      SendTells(s, cfg, phone, c.code, c.now);
      assert IsLast(cs, phone, |s.challenges|) && Reflects(cs[|s.challenges|], cfg, c, 0, false);
    } else if LastSent(cfg, before, phone).None? {
      NoRowsElsewhere(s, cfg, c, phone);
    } else {
      var sent := LastSent(cfg, before, phone).value;
      var i :| 0 <= i < |s.challenges| && IsLast(s.challenges, phone, i)
        && Reflects(s.challenges[i], cfg, sent, WrongSince(cfg, before, phone), LetInSince(cfg, before, phone));
      LastRowNext(s, cfg, c, phone, i);
      assert IsLast(cs, phone, i);
      assert Reflects(cs[i], cfg, sent, WrongSince(cfg, calls, phone), LetInSince(cfg, calls, phone));
    }
  }

  /** The phone's last row after a call that sends it nothing. */
  lemma {:induction false} LastRowNext(s: OtpState, cfg: Config, c: OtpCall, phone: Phone, i: nat)
    requires Table(s.challenges, cfg) && IsLast(s.challenges, phone, i) && !Sends(s, cfg, c, phone)
    ensures var cs, row := Next(s, cfg, c).challenges, s.challenges[i];
      && IsLast(cs, phone, i)
      && cs[i].codeHash == row.codeHash && cs[i].createdAt == row.createdAt && cs[i].expiresAt == row.expiresAt
      && (row.consumedAt.Some? ==> cs[i].consumedAt.Some?)
      && (row.consumedAt.None? ==>
            if c.VerifyCall? && c.phone == phone then
              var answer := Verify(s, cfg, phone, c.code, c.now).1;
              && cs[i].attempts == row.attempts + (if answer == Some(IncorrectCode) then 1 else 0)
              && (cs[i].consumedAt.Some? <==> answer == Some(TooManyAttempts) || answer == None)
              && (answer == Some(TooManyAttempts) ==> row.attempts >= cfg.maxAttempts)
            else cs[i] == row)
  {
    match c
    case IssueCall(other, code, t) =>
      if Issue(s, cfg, other, code, t).Ok? { SendElsewhere(s, cfg, other, code, t, phone, i); }
    case VerifyCall(other, code, t) =>
      if other == phone { SubmitTells(s, cfg, phone, code, t, i); } else { SubmitElsewhere(s, cfg, other, code, t, phone, i); }
  }

  /** Sending a code uses up the phone's codes that could still be answered, and touches nothing else. */
  lemma SendingSupersedes(s: OtpState, cfg: Config, phone: Phone, code: Code, now: Time, i: nat)
    requires Issue(s, cfg, phone, code, now).Ok? && i < |s.challenges|
    ensures var row, row' := s.challenges[i], Issue(s, cfg, phone, code, now).value.challenges[i];
      if row.phone == phone && row.consumedAt.None? && now < row.expiresAt
      then row' == Challenge(phone, row.codeHash, row.createdAt, row.expiresAt, Some(now), 99)
      else row' == row
  {
  }

  // ---------- The meaning of the answers ----------

  /** The code sent last is good for another try: nobody was let in with it and fewer than the maximum were wrong. */
  predicate GoodForATry(cfg: Config, calls: seq<OtpCall>, phone: Phone) {
    !LetInSince(cfg, calls, phone) && WrongSince(cfg, calls, phone) < cfg.maxAttempts
  }

  /**
   * In every run, whatever the clock does, while the code sent last is good for another try: a submission after its
   * lifetime is answered as expired, that very code lets the user in, and any other code is answered as incorrect.
   */
  lemma {:induction false} GoodCodeAnswers(cfg: Config, calls: seq<OtpCall>, phone: Phone, code: Code, now: Time)
    requires LastSent(cfg, calls, phone).Some? && GoodForATry(cfg, calls, phone)
    ensures var sent := LastSent(cfg, calls, phone).value;
      && sent.IssueCall? && sent.phone == phone
      && (now > sent.now + cfg.ttl ==> Answer(cfg, calls, phone, code, now) == Some(CodeExpired))
      && (now <= sent.now + cfg.ttl && code == sent.code ==> Answer(cfg, calls, phone, code, now) == None)
      && (now <= sent.now + cfg.ttl && code != sent.code ==> Answer(cfg, calls, phone, code, now) == Some(IncorrectCode))
  {
    TellsAlways(cfg, calls, phone);
    ReachableTable(cfg, calls);
    var cs, sent := Run(cfg, calls).challenges, LastSent(cfg, calls, phone).value;
    var i :| 0 <= i < |cs| && IsLast(cs, phone, i)
      && Reflects(cs[i], cfg, sent, WrongSince(cfg, calls, phone), LetInSince(cfg, calls, phone));
    SubmitTells(Run(cfg, calls), cfg, phone, code, now, i);
  }

  /** After the moment a code was sent, earlier codes are never compared again. */
  lemma {:induction false} OlderRowsExpired(cs: seq<Challenge>, cfg: Config, phone: Phone, i: nat, j: nat, now: Time)
    requires Table(cs, cfg) && IsLast(cs, phone, i) && cs[i].createdAt < now
    requires j < |cs| && j != i && cs[j].phone == phone && cs[j].consumedAt.None?
    ensures cs[j].expiresAt < now
  {
    assert j < i;
  }

  /** Once the code sent last is used up, or exhausted, nothing lets the user in until another one is sent. */
  lemma {:induction false} SpentCodeRefused(cfg: Config, calls: seq<OtpCall>, phone: Phone, code: Code, now: Time)
    requires LastSent(cfg, calls, phone).Some? && !GoodForATry(cfg, calls, phone) && LastSent(cfg, calls, phone).value.now < now
    ensures Answer(cfg, calls, phone, code, now) in {Some(NoActiveChallenge), Some(CodeExpired), Some(TooManyAttempts)}
  {
    TellsAlways(cfg, calls, phone);
    ReachableTable(cfg, calls);
    var cs, sent := Run(cfg, calls).challenges, LastSent(cfg, calls, phone).value;
    var i :| 0 <= i < |cs| && IsLast(cs, phone, i)
      && Reflects(cs[i], cfg, sent, WrongSince(cfg, calls, phone), LetInSince(cfg, calls, phone));
    if cs[i].consumedAt.None? {
      SubmitTells(Run(cfg, calls), cfg, phone, code, now, i);
    } else {
      var r := NewestPending(cs, phone);
      if r.Some? { OlderRowsExpired(cs, cfg, phone, i, r.value, now); }
    }
  }

  /** A phone that was never sent a code has nothing to answer. */
  lemma {:induction false} NothingSent(cfg: Config, calls: seq<OtpCall>, phone: Phone, code: Code, now: Time)
    requires LastSent(cfg, calls, phone).None?
    ensures Answer(cfg, calls, phone, code, now) == Some(NoActiveChallenge)
  {
    TellsAlways(cfg, calls, phone);
  }

  /**
   * In every run, after the millisecond in which the last code was sent: a submission lets the user in exactly when it is
   * that code, within its lifetime, not used before, and after fewer than the permitted number of wrong ones.
   */
  lemma {:induction false} LetInIff(cfg: Config, calls: seq<OtpCall>, phone: Phone, code: Code, now: Time)
    requires LastSent(cfg, calls, phone).Some? ==> LastSent(cfg, calls, phone).value.now < now
    ensures Answer(cfg, calls, phone, code, now) == None <==>
      match LastSent(cfg, calls, phone)
      case None => false
      case Some(sent) =>
        && sent.code == code && now <= sent.now + cfg.ttl
        && !LetInSince(cfg, calls, phone) && WrongSince(cfg, calls, phone) < cfg.maxAttempts
  {
    if LastSent(cfg, calls, phone).None? {
      NothingSent(cfg, calls, phone, code, now);
    } else if GoodForATry(cfg, calls, phone) {
      GoodCodeAnswers(cfg, calls, phone, code, now);
    } else {
      SpentCodeRefused(cfg, calls, phone, code, now);
    }
  }

  /** Every row was made by a call that sent its code, and dates from that call. */
  lemma {:induction false} RowIsSent(cfg: Config, calls: seq<OtpCall>, j: nat) returns (k: nat)
    requires j < |Run(cfg, calls).challenges|
    ensures var row := Run(cfg, calls).challenges[j];
      && k < |calls| && Sends(Run(cfg, calls[..k]), cfg, calls[k], row.phone)
      && row.codeHash == Digest(row.phone, calls[k].code)
      && row.createdAt == calls[k].now && row.expiresAt == calls[k].now + cfg.ttl
  {
    var before, c := calls[..|calls| - 1], calls[|calls| - 1];
    var s := Run(cfg, before);
    if j < |s.challenges| {
      k := RowIsSent(cfg, before, j);
      assert before[..k] == calls[..k];
      RowStays(s, cfg, c, j);
    } else {
      k := |before|;
      SendTells(s, cfg, c.phone, c.code, c.now);
    }
  }

  lemma RowStays(s: OtpState, cfg: Config, c: OtpCall, j: nat)
    requires j < |s.challenges|
    ensures var cs, row := Next(s, cfg, c).challenges, s.challenges[j];
      j < |cs| && cs[j].phone == row.phone && cs[j].codeHash == row.codeHash && cs[j].createdAt == row.createdAt && cs[j].expiresAt == row.expiresAt
  {
  }

  lemma {:induction false} OlderRowAnswers(s: OtpState, cfg: Config, phone: Phone, code: Code, now: Time, i: nat) returns (j: nat)
    requires Table(s.challenges, cfg) && IsLast(s.challenges, phone, i)
    requires s.challenges[i].consumedAt.Some? && s.challenges[i].createdAt <= now && Verify(s, cfg, phone, code, now).1 == None
    ensures j < |s.challenges| && s.challenges[j].phone == phone && s.challenges[j].codeHash == Digest(phone, code)
    ensures s.challenges[j].expiresAt == now == s.challenges[i].createdAt
  {
    j := NewestPending(s.challenges, phone).value;
    assert j < i && s.challenges[j].expiresAt <= s.challenges[i].createdAt;
  }

  /**
   * The one other way in, in a run in clock order: in the very millisecond in which the last code was sent, and used up,
   * with an earlier code whose lifetime ends in that millisecond.
   */
  lemma {:induction false} OtherWayIn(cfg: Config, calls: seq<OtpCall>, phone: Phone, code: Code, now: Time) returns (k: nat)
    requires LastSent(cfg, calls, phone).Some? && LastSent(cfg, calls, phone).value.now <= now
    requires Answer(cfg, calls, phone, code, now) == None && !GoodForATry(cfg, calls, phone)
    ensures LastSent(cfg, calls, phone).value.now == now
    ensures k < |calls| && Sends(Run(cfg, calls[..k]), cfg, calls[k], phone)
    ensures calls[k].code == code && calls[k].now + cfg.ttl == now
  {
    if LastSent(cfg, calls, phone).value.now < now { SpentCodeRefused(cfg, calls, phone, code, now); }
    TellsAlways(cfg, calls, phone);
    ReachableTable(cfg, calls);
    var cs, sent := Run(cfg, calls).challenges, LastSent(cfg, calls, phone).value;
    var i :| 0 <= i < |cs| && IsLast(cs, phone, i)
      && Reflects(cs[i], cfg, sent, WrongSince(cfg, calls, phone), LetInSince(cfg, calls, phone));
    SubmitTells(Run(cfg, calls), cfg, phone, code, now, i);
    var j := OlderRowAnswers(Run(cfg, calls), cfg, phone, code, now, i);
    k := RowIsSent(cfg, calls, j);
  }

  /** Two codes, the second sent in the very millisecond in which the first runs out, and the second used at once. */
  const EDGE: seq<OtpCall> := [IssueCall(1, 1111, 0), IssueCall(1, 2222, 300_000), VerifyCall(1, 2222, 300_000)]

  /** In that millisecond the older code lets the user in as well: superseding spares what verifying still accepts. */
  lemma OldCodeAtItsLastMoment()
    ensures Monotone(EDGE)
    ensures LastSent(DEFAULT_CONFIG, EDGE, 1) == Some(EDGE[1]) && LetInSince(DEFAULT_CONFIG, EDGE, 1)
    ensures Answer(DEFAULT_CONFIG, EDGE, 1, 1111, 300_000) == None
  {
    var c0, c1, c2 := EDGE[0], EDGE[1], EDGE[2];
    assert [c0][..0] == [] && [c0, c1][..1] == [c0] && EDGE[..2] == [c0, c1];
    var first := Challenge(1, Digest(1, 1111), 0, 300_000, None, 0);
    var second := Challenge(1, Digest(1, 2222), 300_000, 600_000, None, 0);
    assert Run(DEFAULT_CONFIG, [c0]) == OtpState([first], []);
    assert [first][..0] == [];
    assert CountSince([first], 1, 300_000 - MIN_GAP) == 0 && CountSince([first], 1, 300_000 - HOUR) == 1;
    assert Supersede([first], 1, 300_000) == [first];
    assert Run(DEFAULT_CONFIG, [c0, c1]) == OtpState([first, second], []);
    assert [first, second][..1] == [first];
    assert NewestPending([first, second], 1) == Some(1);
    var used := second.(consumedAt := Some(300_000));
    assert Run(DEFAULT_CONFIG, EDGE) == OtpState([first, used], [Probe(1, 300_000)]);
    assert [first, used][..1] == [first];
    assert NewestPending([first, used], 1) == Some(0);
  }
}
