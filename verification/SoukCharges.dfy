/** Token charges and the books over whole runs of the marketplace. */
module SoukCharges {
  import opened Basics
  import L = TokenLedger
  import opened SoukModel
  import opened SoukInvariant
  import opened SoukPreservation
  import opened SoukTermination

  // ---------- Charged exactly once ----------

  predicate IsHold(t: L.Transaction, offerId: Id, userId: UserId) {
    t.activity == "SOUK_OFFER_HOLD" && t.reference == Some(offerId) && t.userId == userId
  }

  /** The number of hold transactions that name this offer and this user. */
  function HoldDebits(ts: seq<L.Transaction>, offerId: Id, userId: UserId): nat {
    if ts == [] then 0
    else HoldDebits(ts[..|ts| - 1], offerId, userId) + if IsHold(ts[|ts| - 1], offerId, userId) then 1 else 0
  }

  /** A direct spend by the user, outside the marketplace, that imitates a hold on this offer. */
  predicate IsImitation(w: World, c: Call, offerId: Id, userId: UserId) {
    && c.request.SpendCall? && Step(w, c).Ok?
    && c.request.userId == userId && c.request.activity == "SOUK_OFFER_HOLD" && c.request.reference == Some(offerId)
  }

  function Imitations(calls: seq<Call>, offerId: Id, userId: UserId): nat {
    if calls == [] then 0
    else
      var before := calls[..|calls| - 1];
      Imitations(before, offerId, userId)
      + if IsImitation(Run(before), calls[|calls| - 1], offerId, userId) then 1 else 0
  }

  /** The offer was accepted at some time. */
  predicate WasAccepted(o: Offer) {
    o.status == Accepted || o.status == HandoverPending || o.status == Confirmed || o.status == Cancelled
  }

  /** The marketplace owes exactly one debit to the buyer of an offer with a positive hold that was ever accepted. */
  function Charged(offers: Offers, offerId: Id, userId: UserId): nat {
    if offerId in offers && PositiveHold(offers[offerId]) && WasAccepted(offers[offerId]) && offers[offerId].buyerId == userId
    then 1 else 0
  }

  lemma HoldDebitsPost(l: L.Ledger, t: L.Transaction, offerId: Id, userId: UserId)
    ensures HoldDebits(L.Post(l, t).transactions, offerId, userId) ==
            HoldDebits(l.transactions, offerId, userId) + if IsHold(t, offerId, userId) then 1 else 0
  {
  }

  lemma CreditIsNoHold(l: L.Ledger, payee: UserId, amount: int, tt: L.TokenType, offerId: Id, userId: UserId)
    ensures HoldDebits(L.Credit(l, payee, amount, tt).transactions, offerId, userId) == HoldDebits(l.transactions, offerId, userId)
  {
  }

  /** Only an accept turns an offer that owes nothing into one that owes a charge. */
  lemma ChargedStable(a: Offers, b: Offers, opening: Option<Id>, offerId: Id, userId: UserId)
    requires Grows(a, b, opening)
    requires offerId in a && b[offerId].status.Accepted? ==> a[offerId].status.Accepted?
    ensures Charged(b, offerId, userId) == Charged(a, offerId, userId)
  {
  }

  /** The charge made by an accept matches the status it sets. */
  lemma {:induction false} AcceptCharges(w: World, id: Id, spared: set<Id>, now: Time, offerId: Id, userId: UserId)
    requires id in w.offers && w.offers[id].status.Open() && ChargeAndAccept(w, id, spared, now).Ok?
    ensures var w' := ChargeAndAccept(w, id, spared, now).value;
      HoldDebits(w'.ledger.transactions, offerId, userId) - HoldDebits(w.ledger.transactions, offerId, userId)
      == Charged(w'.offers, offerId, userId) - Charged(w.offers, offerId, userId)
  {
    var offer := w.offers[id];
    if offer.HasHold() {
      var t := L.Transaction(offer.buyerId, HOLD_ACTIVITY, L.Individual, -w.ledger.pricing[HOLD_ACTIVITY].cost, Some(id));
      HoldDebitsPost(w.ledger, t, offerId, userId);
    }
  }

  /** Only accepting, handing over and the wallet calls themselves write the ledger. */
  lemma OtherMoney(w: World, c: Call)
    requires Step(w, c).Ok?
    requires KindOf(c.request) != AcceptKind && KindOf(c.request) != HandoverKind && KindOf(c.request) != TokenKind
    ensures Step(w, c).value.ledger == w.ledger
  {
  }

  /** A handover call writes nothing to the ledger, or credits the buyer nothing. */
  lemma ReleaseLedger(w: World, c: Call)
    requires Step(w, c).Ok? && KindOf(c.request) == HandoverKind
    ensures var l' := Step(w, c).value.ledger;
      l' == w.ledger || l' == L.Credit(w.ledger, w.offers[c.request.offerId].buyerId, 0, L.Individual)
  {
  }

  lemma {:induction false} ReleaseDebits(w: World, c: Call, offerId: Id, userId: UserId)
    requires Step(w, c).Ok? && KindOf(c.request) == HandoverKind
    ensures HoldDebits(Step(w, c).value.ledger.transactions, offerId, userId) == HoldDebits(w.ledger.transactions, offerId, userId)
  {
    ReleaseLedger(w, c);
    CreditIsNoHold(w.ledger, w.offers[c.request.offerId].buyerId, 0, L.Individual, offerId, userId);
  }

  lemma {:induction false} WalletDebits(w: World, c: Call, offerId: Id, userId: UserId)
    requires Step(w, c).Ok? && KindOf(c.request) == TokenKind
    ensures HoldDebits(Step(w, c).value.ledger.transactions, offerId, userId) ==
            HoldDebits(w.ledger.transactions, offerId, userId) + if IsImitation(w, c, offerId, userId) then 1 else 0
  {
    var r := c.request;
    if r.CreditCall? {
      CreditIsNoHold(w.ledger, r.userId, r.amount, r.tokenType, offerId, userId);
    } else if r.SpendCall? {
      var cost := w.ledger.pricing[r.activity].cost;
      HoldDebitsPost(w.ledger, L.Transaction(r.userId, r.activity, r.tokenType, -cost, r.reference), offerId, userId);
    }
  }

  /** The transaction log after a call that is not an accept. */
  lemma {:induction false} OtherDebits(w: World, c: Call, offerId: Id, userId: UserId)
    requires KindOf(c.request) != AcceptKind
    ensures HoldDebits(Next(w, c).ledger.transactions, offerId, userId) ==
            HoldDebits(w.ledger.transactions, offerId, userId) + if IsImitation(w, c, offerId, userId) then 1 else 0
  {
    if Step(w, c).Ok? {
      match KindOf(c.request)
      case HandoverKind => ReleaseDebits(w, c, offerId, userId);
      case TokenKind => WalletDebits(w, c, offerId, userId);
      case _ => OtherMoney(w, c);
    }
  }

  lemma RetireAcceptsNothing(w: World, c: Call, offerId: Id)
    requires KindOf(c.request) == RetireKind
    requires offerId in w.offers && offerId in Next(w, c).offers && Next(w, c).offers[offerId].status.Accepted?
    ensures w.offers[offerId].status.Accepted?
  {
  }

  lemma NewOfferAcceptsNothing(w: World, c: Call, offerId: Id)
    requires KindOf(c.request) == NewOfferKind
    requires offerId in w.offers && offerId in Next(w, c).offers && Next(w, c).offers[offerId].status.Accepted?
    ensures w.offers[offerId].status.Accepted?
  {
  }

  /** Calls that accept nothing leave every status short of ACCEPTED. */
  lemma NothingAccepted(w: World, c: Call, offerId: Id)
    requires KindOf(c.request) != AcceptKind
    requires offerId in w.offers && offerId in Next(w, c).offers && Next(w, c).offers[offerId].status.Accepted?
    ensures w.offers[offerId].status.Accepted?
  {
    match KindOf(c.request)
    case ListingKind =>
    case RetireKind => RetireAcceptsNothing(w, c, offerId);
    case NewOfferKind => NewOfferAcceptsNothing(w, c, offerId);
    case HandoverKind =>
    case _ => OtherwiseSameOffers(w, c);
  }

  lemma {:induction false} StepCharges(w: World, c: Call, offerId: Id, userId: UserId)
    requires Inv(w)
    ensures HoldDebits(Next(w, c).ledger.transactions, offerId, userId) - Charged(Next(w, c).offers, offerId, userId) ==
            HoldDebits(w.ledger.transactions, offerId, userId) - Charged(w.offers, offerId, userId)
            + if IsImitation(w, c, offerId, userId) then 1 else 0
  {
    if KindOf(c.request) == AcceptKind {
      AcceptCallCharges(w, c, offerId, userId);
    } else {
      OtherDebits(w, c, offerId, userId);
      StepGrows(w, c);
      if offerId in w.offers && Next(w, c).offers[offerId].status.Accepted? { NothingAccepted(w, c, offerId); }
      ChargedStable(w.offers, Next(w, c).offers, Opening(w, c), offerId, userId);
    }
  }

  lemma {:induction false} AcceptCallCharges(w: World, c: Call, offerId: Id, userId: UserId)
    requires KindOf(c.request) == AcceptKind
    ensures HoldDebits(Next(w, c).ledger.transactions, offerId, userId) - Charged(Next(w, c).offers, offerId, userId) ==
            HoldDebits(w.ledger.transactions, offerId, userId) - Charged(w.offers, offerId, userId)
  {
    if Step(w, c).Ok? {
      var id := c.request.offerId;
      AcceptCharges(w, id, if c.request.AcceptOfferCall? then {} else {w.offers[id].parentOfferId.value}, c.now, offerId, userId);
    }
  }

  /**
   * Over every run the marketplace debits the buyer of an offer exactly once if the offer carries a positive hold and
   * reached ACCEPTED, and debits nobody for it otherwise; any further such transaction is the user's own direct spend.
   */
  lemma {:induction false} ChargedOnce(calls: seq<Call>, offerId: Id, userId: UserId)
    ensures var w := Run(calls);
      HoldDebits(w.ledger.transactions, offerId, userId) == Imitations(calls, offerId, userId) +
        if && offerId in w.offers && w.offers[offerId].buyerId == userId
           && w.offers[offerId].tokenHoldAmount.Some? && w.offers[offerId].tokenHoldAmount.value > 0
           && w.offers[offerId].status in {Accepted, HandoverPending, Confirmed, Cancelled}
        then 1 else 0
  {
    if calls != [] {
      var before := calls[..|calls| - 1];
      ChargedOnce(before, offerId, userId);
      ReachableInv(before);
      StepCharges(Run(before), calls[|calls| - 1], offerId, userId);
    }
  }

  // ---------- The books ----------

  /** What a call adds to the tokens in circulation. */
  function Issued(w: World, c: Call, tt: L.TokenType): int {
    if Step(w, c).Err? then 0
    else
      match c.request
      case CreditCall(_, amount, t) => if t == tt then amount else 0
      case SpendCall(_, activity, t, _) => if t == tt then -w.ledger.pricing[activity].cost else 0
      case AcceptOfferCall(id, _, _) => HoldPrice(w, id, tt)
      case BuyerAcceptCounterCall(id, _, _) => HoldPrice(w, id, tt)
      case _ => 0
  }

  /** The price of a hold is the configured one, whatever amount the offer announced. */
  function HoldPrice(w: World, id: Id, tt: L.TokenType): int
    requires id in w.offers && ChargeHold(w.ledger, id, w.offers[id]).Ok?
  {
    if PositiveHold(w.offers[id]) && tt == L.Individual then -w.ledger.pricing["SOUK_OFFER_HOLD"].cost else 0
  }

  lemma {:induction false} HoldBooks(l: L.Ledger, id: Id, offer: Offer, tt: L.TokenType)
    requires L.Agrees(l) && ChargeHold(l, id, offer).Ok?
    ensures var l' := ChargeHold(l, id, offer).value;
      var positive := offer.tokenHoldAmount.Some? && offer.tokenHoldAmount.value > 0;
      && L.Agrees(l') && (L.NonNegative(l) ==> L.NonNegative(l'))
      && (positive ==> "SOUK_OFFER_HOLD" in l.pricing)
      && L.Circulation(l', tt) ==
         L.Circulation(l, tt) - if positive && tt == L.Individual then l.pricing["SOUK_OFFER_HOLD"].cost else 0
  {
    if offer.HasHold() { L.SpendSafe(l, offer.buyerId, HOLD_ACTIVITY, L.Individual, Some(id)); }
  }

  /** A hold takes the amount the offer announced exactly when the administrators priced holds at that amount. */
  lemma {:induction false} HoldAsAnnouncedIff(l: L.Ledger, id: Id, offer: Offer)
    requires L.Agrees(l) && offer.tokenHoldAmount.Some? && offer.tokenHoldAmount.value > 0 && ChargeHold(l, id, offer).Ok?
    ensures "SOUK_OFFER_HOLD" in l.pricing
    ensures L.Circulation(ChargeHold(l, id, offer).value, L.Individual) ==
            L.Circulation(l, L.Individual) - offer.tokenHoldAmount.value
      <==> l.pricing["SOUK_OFFER_HOLD"].cost == offer.tokenHoldAmount.value
  {
    HoldBooks(l, id, offer, L.Individual);
  }

  /** Settings and earmarks are not money. */
  lemma SameMoney(l: L.Ledger, l': L.Ledger)
    requires L.Agrees(l) && l'.wallets == l.wallets && l'.transactions == l.transactions
    ensures L.Agrees(l') && (L.NonNegative(l) ==> L.NonNegative(l'))
    ensures forall tt :: L.Circulation(l', tt) == L.Circulation(l, tt)
  {
  }

  /** The books before and after a step that issues `issued` tokens; `fair` says that no credit is negative. */
  ghost predicate Booked(l: L.Ledger, l': L.Ledger, issued: int, fair: bool, tt: L.TokenType) {
    && L.Agrees(l')
    && (L.NonNegative(l) && fair ==> L.NonNegative(l'))
    && L.Circulation(l', tt) == L.Circulation(l, tt) + issued
  }

  predicate Fair(c: Call) {
    c.request.CreditCall? ==> c.request.amount >= 0
  }

  lemma {:induction false} AcceptBooks(w: World, c: Call, tt: L.TokenType)
    requires L.Agrees(w.ledger) && Step(w, c).Ok? && KindOf(c.request) == AcceptKind
    ensures Booked(w.ledger, Step(w, c).value.ledger, Issued(w, c, tt), Fair(c), tt)
  {
    HoldBooks(w.ledger, c.request.offerId, w.offers[c.request.offerId], tt);
  }

  lemma {:induction false} CreditBooks(l: L.Ledger, userId: UserId, amount: int, t: L.TokenType, tt: L.TokenType)
    requires L.Agrees(l)
    ensures Booked(l, L.Credit(l, userId, amount, t), if t == tt then amount else 0, amount >= 0, tt)
  {
    L.CreditSafe(l, userId, amount, t);
  }

  lemma {:induction false} ReleaseBooks(w: World, c: Call, tt: L.TokenType)
    requires L.Agrees(w.ledger) && Step(w, c).Ok? && KindOf(c.request) == HandoverKind
    ensures Booked(w.ledger, Step(w, c).value.ledger, 0, Fair(c), tt)
  {
    ReleaseLedger(w, c);
    CreditBooks(w.ledger, w.offers[c.request.offerId].buyerId, 0, L.Individual, tt);
  }

  lemma {:induction false} WalletBooks(w: World, c: Call, tt: L.TokenType)
    requires L.Agrees(w.ledger) && Step(w, c).Ok? && KindOf(c.request) == TokenKind
    ensures Booked(w.ledger, Step(w, c).value.ledger, Issued(w, c, tt), Fair(c), tt)
  {
    var r := c.request;
    if r.CreditCall? {
      CreditBooks(w.ledger, r.userId, r.amount, r.tokenType, tt);
    } else if r.SpendCall? {
      L.SpendSafe(w.ledger, r.userId, r.activity, r.tokenType, r.reference);
    } else {
      SameMoney(w.ledger, Step(w, c).value.ledger);
    }
  }

  /** One step keeps every balance explained, and changes circulation by exactly what it issues. */
  lemma {:induction false} StepBooks(w: World, c: Call, tt: L.TokenType)
    requires L.Agrees(w.ledger)
    ensures Booked(w.ledger, Next(w, c).ledger, Issued(w, c, tt), Fair(c), tt)
  {
    if Step(w, c).Ok? {
      match KindOf(c.request)
      case AcceptKind => AcceptBooks(w, c, tt);
      case HandoverKind => ReleaseBooks(w, c, tt);
      case TokenKind => WalletBooks(w, c, tt);
      case _ => OtherMoney(w, c);
    }
  }

  function IssuedBy(calls: seq<Call>, tt: L.TokenType): int {
    if calls == [] then 0
    else
      var before := calls[..|calls| - 1];
      IssuedBy(before, tt) + Issued(Run(before), calls[|calls| - 1], tt)
  }

  /** Over every run each balance is the sum of its transactions, and the total is what credits and charges issued. */
  lemma {:induction false} BooksBalance(calls: seq<Call>, tt: L.TokenType)
    ensures L.Agrees(Run(calls).ledger)
    ensures L.Circulation(Run(calls).ledger, tt) == IssuedBy(calls, tt)
  {
    if calls == [] {
      L.EmptyAgrees();
    } else {
      var before := calls[..|calls| - 1];
      BooksBalance(before, tt);
      StepBooks(Run(before), calls[|calls| - 1], tt);
    }
  }

  /** If no credit is negative no balance ever is, whatever the activity prices. */
  lemma {:induction false} NeverOverdrawn(calls: seq<Call>)
    requires forall i | 0 <= i < |calls| :: calls[i].request.CreditCall? ==> calls[i].request.amount >= 0
    ensures L.NonNegative(Run(calls).ledger)
  {
    if calls != [] {
      var before := calls[..|calls| - 1];
      NeverOverdrawn(before);
      BooksBalance(before, L.Individual);
      assert calls[|calls| - 1].request.CreditCall? ==> calls[|calls| - 1].request.amount >= 0;
      StepBooks(Run(before), calls[|calls| - 1], L.Individual);
    }
  }

  /** "Releasing" a hold refunds nothing: completing or cancelling a deal leaves every balance as it was. */
  lemma ReleaseRefundsNothing(w: World, c: Call, userId: UserId, tt: L.TokenType)
    requires c.request.ConfirmHandoverCall? || c.request.CancelOfferCall?
    ensures L.WalletOf(Next(w, c).ledger, userId).Balance(tt) == L.WalletOf(w.ledger, userId).Balance(tt)
  {
  }
}
