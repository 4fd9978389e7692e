/**
 * Which calls are carried out, and what each refusal means, read off the columns of the stored rows: a reference table of
 * rights that the guards of the service are proved to implement in every reachable state.
 */
module SoukAdmission {
  import opened Basics
  import L = TokenLedger
  import opened SoukModel
  import opened SoukInvariant
  import opened SoukPreservation
  import opened SoukGuarantees
  import opened SoukTermination
  import opened SoukRoles
  import opened SoukCounters

  predicate OnSale(w: World, l: Id) {
    l in w.listings && w.listings[l].status == Active
  }

  /** The user can pay the price of this activity from this balance. */
  predicate CanPay(l: L.Ledger, userId: UserId, activity: L.Activity, tokenType: L.TokenType) {
    && activity in l.pricing && l.pricing[activity].isActive && userId in l.wallets
    && (match tokenType
        case Business => l.wallets[userId].business >= l.pricing[activity].cost
        case Individual => l.wallets[userId].individual >= l.pricing[activity].cost)
  }

  predicate HoldPayable(w: World, o: Offer) {
    PositiveHold(o) ==> CanPay(w.ledger, o.buyerId, "SOUK_OFFER_HOLD", L.Individual)
  }

  predicate AwaitsHandover(o: Offer) {
    o.status == Accepted || o.status == HandoverPending
  }

  /** Who may do what, when. An offer that is pending is on an ACTIVE listing, so that need not be said. */
  ghost predicate Allowed(w: World, c: Call) {
    match c.request
    case CreateListingCall(newId, _, _, gate) =>
      && gate.trustScore.Some? && gate.trustScore.value > gate.banThreshold
      && gate.profileComplete && gate.photosOwned && newId !in w.listings
    case UpdateListingCall(l, u, _) => l in w.listings && w.listings[l].sellerId == u
    case DeleteListingCall(l, u) => l in w.listings && w.listings[l].sellerId == u
    case CreateOfferCall(newId, u, l, amount, _) =>
      && OnSale(w, l) && w.listings[l].sellerId != u && InBand(amount, w.listings[l].askingPrice)
      && newId !in w.offers && !exists i :: PendingBid(w.offers, i, l, u)
    case AcceptOfferCall(id, u, complete) =>
      && MaySettle(w, id, u) && complete && HoldPayable(w, w.offers[id])
    case BuyerAcceptCounterCall(id, u, complete) =>
      && MayAnswerCounter(w, id, u) && complete && HoldPayable(w, w.offers[id])
    case DeclineOfferCall(id, u) => MaySettle(w, id, u)
    case BuyerDeclineCounterCall(id, u) => MayAnswerCounter(w, id, u)
    case WithdrawOfferCall(id, u) => MayEdit(w, id, u)
    case UpdateOfferCall(id, u, amount, _) =>
      && MayEdit(w, id, u)
      && (amount.Some? ==>
            && w.offers[id].listingId in w.listings
            && InBand(amount.value, w.listings[w.offers[id].listingId].askingPrice))
    case CounterOfferCall(newId, id, u, amount) =>
      && id in w.offers && w.offers[id].sellerId == u && MayGrow(w, newId, id, amount)
      && (w.offers[id].parentOfferId.None? || OneAncestor(w.offers, id))
    case BuyerCounterOfferCall(newId, id, u, amount) =>
      && id in w.offers && w.offers[id].buyerId == u && MayGrow(w, newId, id, amount) && OneAncestor(w.offers, id)
    case ConfirmHandoverCall(id, u) => MayHandOver(w, id, u)
    case CancelOfferCall(id, u) => MayHandOver(w, id, u)
    case CreateDisputeCall(newId, id, u) =>
      && id in w.offers && (u == w.offers[id].buyerId || u == w.offers[id].sellerId)
      && newId !in w.disputes && (forall d | d in w.disputes :: w.disputes[d].offerId != id)
      && (AwaitsHandover(w.offers[id]) || FinishedWithin(w, id, c.now, 172_800_000))
    case ResolveDisputeCall(d, _) => d in w.disputes && w.disputes[d].status == DisputeOpen
    case RejectDisputeCall(d, _) => d in w.disputes && w.disputes[d].status == DisputeOpen
    case CreditCall(_, _, _) => true
    case SpendCall(u, activity, tt, _) => CanPay(w.ledger, u, activity, tt)
    case AllocateCall(u, _, tt, amount) =>
      && u in w.ledger.wallets
      && amount <= (match tt case Business => w.ledger.wallets[u].business case Individual => w.ledger.wallets[u].individual)
    case SetPricingCall(_, _, _) => true
  }

  /** The seller may settle a pending offer, and a countered one while the listing is still on sale. */
  predicate MaySettle(w: World, id: Id, u: UserId) {
    && id in w.offers && w.offers[id].sellerId == u
    && (w.offers[id].status == Pending || (w.offers[id].status == Countered && OnSale(w, w.offers[id].listingId)))
  }

  predicate MayAnswerCounter(w: World, id: Id, u: UserId) {
    id in w.offers && w.offers[id].buyerId == u && w.offers[id].status == Pending && w.offers[id].parentOfferId.Some?
  }

  predicate MayEdit(w: World, id: Id, u: UserId) {
    id in w.offers && w.offers[id].buyerId == u && w.offers[id].status == Pending
  }

  predicate MayGrow(w: World, newId: Id, id: Id, amount: int)
    requires id in w.offers
  {
    && w.offers[id].status == Pending && newId !in w.offers
    && w.offers[id].listingId in w.listings && InBand(amount, w.listings[w.offers[id].listingId].askingPrice)
  }

  predicate MayHandOver(w: World, id: Id, u: UserId) {
    id in w.offers && AwaitsHandover(w.offers[id]) && (u == w.offers[id].buyerId || u == w.offers[id].sellerId)
  }

  /** The deal was confirmed by both sides, or cancelled, at most so long ago. */
  predicate FinishedWithin(w: World, id: Id, now: Time, window: Time)
    requires id in w.offers
  {
    || (w.offers[id].status == Confirmed && id in w.handovers && w.handovers[id].bothConfirmedAt.Some?
        && now - w.handovers[id].bothConfirmedAt.value <= window)
    || (w.offers[id].status == Cancelled && now - w.offers[id].updatedAt <= window)
  }

  // ---------- The guards implement the table ----------

  /** An open offer is on a listing of its seller; if it is pending the listing is ACTIVE. */
  lemma {:induction false} OpenOffer(w: World, id: Id)
    requires Inv(w) && id in w.offers
    ensures w.offers[id].listingId in w.listings && w.listings[w.offers[id].listingId].sellerId == w.offers[id].sellerId
    ensures w.offers[id].status == Pending ==> OnSale(w, w.offers[id].listingId)
  {
    assert OfferRefs(w, id) && BidOk(w, id);
  }

  lemma ListingAdmission(w: World, c: Call)
    requires KindOf(c.request) == ListingKind
    ensures Step(w, c).Ok? <==> Allowed(w, c)
  {
  }

  lemma {:induction false} AcceptAdmission(w: World, c: Call)
    requires Inv(w) && KindOf(c.request) == AcceptKind
    ensures Step(w, c).Ok? <==> Allowed(w, c)
  {
    if c.request.offerId in w.offers { OpenOffer(w, c.request.offerId); }
  }

  lemma {:induction false} RetireAdmission(w: World, c: Call)
    requires Inv(w) && KindOf(c.request) == RetireKind
    ensures Step(w, c).Ok? <==> Allowed(w, c)
  {
    if c.request.offerId in w.offers {
      OpenOffer(w, c.request.offerId);
      if c.request.UpdateOfferCall? && c.request.newAmount.Some? {
        BandMeaning(c.request.newAmount.value, w.listings[w.offers[c.request.offerId].listingId].askingPrice);
      }
    }
  }

  lemma {:induction false} PendingBidSeen(offers: Offers, l: Id, u: UserId)
    ensures HasPendingBid(offers, l, u) <==> exists i :: PendingBid(offers, i, l, u)
  {
    if HasPendingBid(offers, l, u) {
      var i :| i in offers && offers[i].listingId == l && offers[i].buyerId == u && offers[i].status == Pending && offers[i].parentOfferId == None;
      assert PendingBid(offers, i, l, u);
    }
  }

  lemma {:induction false} BidAdmission(w: World, c: Call)
    requires c.request.CreateOfferCall?
    ensures Step(w, c).Ok? <==> Allowed(w, c)
  {
    var l, u := c.request.listingId, c.request.buyerId;
    PendingBidSeen(w.offers, l, u);
    if l in w.listings { BandMeaning(c.request.amount, w.listings[l].askingPrice); }
  }

  lemma {:induction false} CounterAdmission(w: World, c: Call)
    requires Inv(w) && (c.request.CounterOfferCall? || c.request.BuyerCounterOfferCall?)
    ensures Step(w, c).Ok? <==> Allowed(w, c)
  {
    var id := c.request.offerId;
    if id in w.offers {
      OpenOffer(w, id);
      BandMeaning(c.request.amount, w.listings[w.offers[id].listingId].askingPrice);
      if w.offers[id].parentOfferId.Some? {
        assert IsChild(w.offers, id, w.offers[id].parentOfferId.value);
        RoomForOneMore(w.offers, id);
      }
    }
  }

  lemma HandoverAdmission(w: World, c: Call)
    requires KindOf(c.request) == HandoverKind
    ensures Step(w, c).Ok? <==> Allowed(w, c)
  {
  }

  lemma {:induction false} DisputeCallsAdmission(w: World, c: Call)
    requires Inv(w) && KindOf(c.request) == DisputeKind
    ensures Step(w, c).Ok? <==> Allowed(w, c)
  {
    if c.request.CreateDisputeCall? && c.request.offerId in w.offers { assert HandshakeOk(w, c.request.offerId); }
  }

  lemma TokenAdmission(w: World, c: Call)
    requires KindOf(c.request) == TokenKind
    ensures Step(w, c).Ok? <==> Allowed(w, c)
  {
  }

  /** In every reachable state a call is carried out exactly when the table of rights allows it. */
  lemma {:induction false} CarriedOutIff(calls: seq<Call>, c: Call)
    ensures Step(Run(calls), c).Ok? <==> Allowed(Run(calls), c)
  {
    var w := Run(calls);
    ReachableInv(calls);
    match KindOf(c.request)
    case ListingKind => ListingAdmission(w, c);
    case AcceptKind => AcceptAdmission(w, c);
    case RetireKind => RetireAdmission(w, c);
    case NewOfferKind => if c.request.CreateOfferCall? { BidAdmission(w, c); } else { CounterAdmission(w, c); }
    case HandoverKind => HandoverAdmission(w, c);
    case DisputeKind => DisputeCallsAdmission(w, c);
    case TokenKind => TokenAdmission(w, c);
  }

  // ---------- What a refusal means ----------

  /** The offer a call is about. */
  function OfferOf(r: Request): Option<Id> {
    match r
    case AcceptOfferCall(id, _, _) => Some(id)
    case BuyerAcceptCounterCall(id, _, _) => Some(id)
    case DeclineOfferCall(id, _) => Some(id)
    case BuyerDeclineCounterCall(id, _) => Some(id)
    case WithdrawOfferCall(id, _) => Some(id)
    case UpdateOfferCall(id, _, _, _) => Some(id)
    case CounterOfferCall(_, id, _, _) => Some(id)
    case BuyerCounterOfferCall(_, id, _, _) => Some(id)
    case ConfirmHandoverCall(id, _) => Some(id)
    case CancelOfferCall(id, _) => Some(id)
    case CreateDisputeCall(_, id, _) => Some(id)
    case _ => None
  }

  /** The listing a call is about, directly or through its offer. */
  function ListingOf(w: World, r: Request): Option<Id> {
    match r
    case UpdateListingCall(l, _, _) => Some(l)
    case DeleteListingCall(l, _) => Some(l)
    case CreateOfferCall(_, _, l, _, _) => Some(l)
    case _ => if OfferOf(r).Some? && OfferOf(r).value in w.offers then Some(w.offers[OfferOf(r).value].listingId) else None
  }

  function AmountOf(r: Request): Option<int> {
    match r
    case CreateOfferCall(_, _, _, amount, _) => Some(amount)
    case UpdateOfferCall(_, _, amount, _) => amount
    case CounterOfferCall(_, _, _, amount) => Some(amount)
    case BuyerCounterOfferCall(_, _, _, amount) => Some(amount)
    case _ => None
  }

  predicate SaysIncomplete(r: Request) {
    match r
    case CreateListingCall(_, _, _, gate) => !gate.profileComplete
    case AcceptOfferCall(_, _, complete) => !complete
    case BuyerAcceptCounterCall(_, _, complete) => !complete
    case _ => false
  }

  predicate IdTaken(w: World, r: Request) {
    match r
    case CreateListingCall(newId, _, _, _) => newId in w.listings
    case CreateOfferCall(newId, _, _, _, _) => newId in w.offers
    case CounterOfferCall(newId, _, _, _) => newId in w.offers
    case BuyerCounterOfferCall(newId, _, _, _) => newId in w.offers
    case CreateDisputeCall(newId, id, _) =>
      newId in w.disputes || exists d | d in w.disputes :: w.disputes[d].offerId == id && w.disputes[d].status != DisputeOpen
    case _ => false
  }

  /** What the offer's status would have had to be. */
  predicate StatusSuits(r: Request, s: OfferStatus) {
    match r
    case AcceptOfferCall(_, _, _) => s == Pending || s == Countered
    case DeclineOfferCall(_, _) => s == Pending || s == Countered
    case ConfirmHandoverCall(_, _) => s == Accepted || s == HandoverPending
    case CancelOfferCall(_, _) => s == Accepted || s == HandoverPending
    case _ => s == Pending
  }

  /** The facts each refusal reports, error by error. */
  ghost predicate Truthful(w: World, c: Call, e: SoukError) {
    var r := c.request;
    match e
    case SellerNotFound => r.CreateListingCall? && r.gate.trustScore.None?
    case InsufficientTrust => r.CreateListingCall? && r.gate.trustScore.Some? && r.gate.trustScore.value <= r.gate.banThreshold
    case ProfileIncomplete => SaysIncomplete(r)
    case PhotoOwnershipMismatch => r.CreateListingCall? && !r.gate.photosOwned
    case ListingNotFound => ListingOf(w, r).Some? && ListingOf(w, r).value !in w.listings
    case NotOwner => OnListing(w, r, (listing: Listing) => Actor(r) != Some(listing.sellerId))
    case ListingNotActive => OnListing(w, r, (listing: Listing) => listing.status != Active)
    case OwnListing => OnListing(w, r, (listing: Listing) => Actor(r) == Some(listing.sellerId))
    case OfferNotFound => OfferOf(r).Some? && OfferOf(r).value !in w.offers
    case NotBuyer => OnOffer(w, r, (o: Offer) => Actor(r) != Some(o.buyerId))
    case NotSeller => OnOffer(w, r, (o: Offer) => Actor(r) != Some(o.sellerId))
    case NotParty => OnOffer(w, r, (o: Offer) => Actor(r) != Some(o.buyerId) && Actor(r) != Some(o.sellerId))
    case WrongStatus => OnOffer(w, r, (o: Offer) => !StatusSuits(r, o.status))
    case NotCounter => OnOffer(w, r, (o: Offer) => o.parentOfferId.None?)
    case InvalidAmount => AmountOf(r).Some? && AmountOf(r).value <= 0
    case OutOfBand =>
      AmountOf(r).Some? && AmountOf(r).value > 0 && OnListing(w, r, (listing: Listing) => !InBand(AmountOf(r).value, listing.askingPrice))
    case OfferAlreadyPending => r.CreateOfferCall? && exists i :: PendingBid(w.offers, i, r.listingId, r.buyerId)
    case DepthReached => OfferOf(r).Some? && TwoAncestors(w.offers, OfferOf(r).value)
    case TokenHoldFailed => OnOffer(w, r, (o: Offer) => !HoldPayable(w, o))
    case DisputeNotFound => (r.ResolveDisputeCall? || r.RejectDisputeCall?) && r.disputeId !in w.disputes
    case DisputeAlreadyOpen =>
      r.CreateDisputeCall? && exists d | d in w.disputes :: w.disputes[d].offerId == r.offerId && w.disputes[d].status == DisputeOpen
    case DisputeNotAllowed =>
      r.CreateDisputeCall? && OnOffer(w, r, (o: Offer) => !AwaitsHandover(o) && o.status != Confirmed && o.status != Cancelled)
    case DisputeWindowClosed =>
      && r.CreateDisputeCall? && r.offerId in w.offers
      && (w.offers[r.offerId].status == Confirmed || w.offers[r.offerId].status == Cancelled)
      && !FinishedWithin(w, r.offerId, c.now, 172_800_000)
    case DisputeAlreadyResolved =>
      (r.ResolveDisputeCall? || r.RejectDisputeCall?) && r.disputeId in w.disputes && w.disputes[r.disputeId].status != DisputeOpen
    case UniqueViolation => IdTaken(w, r)
    case TokensRefused(cause) => Short(w.ledger, r, cause)
  }

  ghost predicate OnListing(w: World, r: Request, p: Listing -> bool) {
    ListingOf(w, r).Some? && ListingOf(w, r).value in w.listings && p(w.listings[ListingOf(w, r).value])
  }

  ghost predicate OnOffer(w: World, r: Request, p: Offer -> bool) {
    OfferOf(r).Some? && OfferOf(r).value in w.offers && p(w.offers[OfferOf(r).value])
  }

  /** The activity has no price in force, or the wallet shows less than what was asked of it. */
  predicate Short(l: L.Ledger, r: Request, cause: L.TokenError) {
    match cause
    case InvalidActivity(a) => r.SpendCall? && r.activity == a && !(a in l.pricing && l.pricing[a].isActive)
    case InsufficientTokens(tt, required, available) =>
      && (r.SpendCall? || r.AllocateCall?) && r.tokenType == tt
      && (match tt
          case Business => available == if r.userId in l.wallets then l.wallets[r.userId].business else 0
          case Individual => available == if r.userId in l.wallets then l.wallets[r.userId].individual else 0)
      && (available < required || r.userId !in l.wallets)
      && (if r.SpendCall? then r.activity in l.pricing && required == l.pricing[r.activity].cost else required == r.amount)
  }

  lemma ListingRefusals(w: World, c: Call)
    requires KindOf(c.request) == ListingKind && Step(w, c).Err?
    ensures Truthful(w, c, Step(w, c).error)
  {
  }

  lemma AcceptRefusals(w: World, c: Call)
    requires c.request.AcceptOfferCall? && Step(w, c).Err?
    requires c.request.offerId in w.offers ==> w.offers[c.request.offerId].listingId in w.listings
    ensures Truthful(w, c, Step(w, c).error)
  {
  }

  lemma BuyerAcceptRefusals(w: World, c: Call)
    requires c.request.BuyerAcceptCounterCall? && Step(w, c).Err?
    requires c.request.offerId in w.offers ==> w.offers[c.request.offerId].listingId in w.listings
    ensures Truthful(w, c, Step(w, c).error)
  {
  }

  lemma {:induction false} DeclineRefusals(w: World, c: Call)
    requires Inv(w) && (c.request.DeclineOfferCall? || c.request.BuyerDeclineCounterCall?) && Step(w, c).Err?
    ensures Truthful(w, c, Step(w, c).error)
  {
    if c.request.offerId in w.offers { OpenOffer(w, c.request.offerId); }
  }

  lemma WithdrawRefusals(w: World, c: Call)
    requires c.request.WithdrawOfferCall? && Step(w, c).Err?
    ensures Truthful(w, c, Step(w, c).error)
  {
  }

  lemma {:induction false} EditRefusals(w: World, c: Call)
    requires Inv(w) && c.request.UpdateOfferCall? && Step(w, c).Err?
    ensures Truthful(w, c, Step(w, c).error)
  {
    var id := c.request.offerId;
    if id in w.offers && c.request.newAmount.Some? {
      OpenOffer(w, id);
      BandMeaning(c.request.newAmount.value, w.listings[w.offers[id].listingId].askingPrice);
    }
  }

  lemma {:induction false} BidRefusals(w: World, c: Call)
    requires c.request.CreateOfferCall? && Step(w, c).Err?
    ensures Truthful(w, c, Step(w, c).error)
  {
    var l, u := c.request.listingId, c.request.buyerId;
    PendingBidSeen(w.offers, l, u);
    if l in w.listings { BandMeaning(c.request.amount, w.listings[l].askingPrice); }
  }

  lemma {:induction false} CounterErrorMeans(w: World, newId: Id, id: Id, amount: int, now: Time)
    requires Inv(w) && id in w.offers && Counter(w, newId, id, amount, now).Err?
    ensures w.offers[id].listingId in w.listings
    ensures match Counter(w, newId, id, amount, now).error
      case WrongStatus => w.offers[id].status != Pending
      case InvalidAmount => amount <= 0
      case OutOfBand => amount > 0 && !InBand(amount, w.listings[w.offers[id].listingId].askingPrice)
      case DepthReached => TwoAncestors(w.offers, id)
      case UniqueViolation => newId in w.offers
      case _ => false
  {
    OpenOffer(w, id);
    BandMeaning(amount, w.listings[w.offers[id].listingId].askingPrice);
    if w.offers[id].parentOfferId.Some? {
      assert IsChild(w.offers, id, w.offers[id].parentOfferId.value);
      RoomForOneMore(w.offers, id);
    }
  }

  lemma {:induction false} CounterRefusals(w: World, c: Call)
    requires Inv(w) && (c.request.CounterOfferCall? || c.request.BuyerCounterOfferCall?) && Step(w, c).Err?
    ensures Truthful(w, c, Step(w, c).error)
  {
    var r := c.request;
    if r.offerId in w.offers && Counter(w, r.newId, r.offerId, r.amount, c.now).Err? {
      CounterErrorMeans(w, r.newId, r.offerId, r.amount, c.now);
    }
  }

  lemma HandoverRefusals(w: World, c: Call)
    requires KindOf(c.request) == HandoverKind && Step(w, c).Err?
    ensures Truthful(w, c, Step(w, c).error)
  {
  }

  lemma DisputeRefusals(w: World, c: Call)
    requires c.request.CreateDisputeCall? && Step(w, c).Err?
    requires c.request.offerId in w.offers ==> HandshakeOk(w, c.request.offerId)
    ensures Truthful(w, c, Step(w, c).error)
  {
  }

  lemma SettleRefusals(w: World, c: Call)
    requires (c.request.ResolveDisputeCall? || c.request.RejectDisputeCall?) && Step(w, c).Err?
    ensures Truthful(w, c, Step(w, c).error)
  {
  }

  lemma TokenRefusals(w: World, c: Call)
    requires KindOf(c.request) == TokenKind && Step(w, c).Err?
    ensures Truthful(w, c, Step(w, c).error)
  {
  }

  /** In every reachable state a refusal reports something that is the case, and writes nothing. */
  lemma {:induction false} RefusalsTruthful(calls: seq<Call>, c: Call)
    requires Step(Run(calls), c).Err?
    ensures Truthful(Run(calls), c, Step(Run(calls), c).error) && Next(Run(calls), c) == Run(calls)
  {
    var w := Run(calls);
    ReachableInv(calls);
    match KindOf(c.request)
    case ListingKind => ListingRefusals(w, c);
    case AcceptKind =>
      if c.request.offerId in w.offers { OpenOffer(w, c.request.offerId); }
      if c.request.AcceptOfferCall? { AcceptRefusals(w, c); } else { BuyerAcceptRefusals(w, c); }
    case RetireKind =>
      if c.request.UpdateOfferCall? { EditRefusals(w, c); }
      else if c.request.WithdrawOfferCall? { WithdrawRefusals(w, c); }
      else { DeclineRefusals(w, c); }
    case NewOfferKind => if c.request.CreateOfferCall? { BidRefusals(w, c); } else { CounterRefusals(w, c); }
    case HandoverKind => HandoverRefusals(w, c);
    case DisputeKind =>
      if c.request.CreateDisputeCall? {
        if c.request.offerId in w.offers { assert HandshakeOk(w, c.request.offerId); }
        DisputeRefusals(w, c);
      } else {
        SettleRefusals(w, c);
      }
    case TokenKind => TokenRefusals(w, c);
  }
}
