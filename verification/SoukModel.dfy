/**
 * The Souk ElKanto negotiation protocol on values: every service call is a function from the stored rows to either a
 * refusal or the new rows. A call is atomic and sees one clock reading.
 */
module SoukModel {
  import opened Basics
  import L = TokenLedger

  // ---------- Rows ----------

  datatype ListingStatus = Active | Reserved | Sold | PendingReview | Removed | ListingExpired

  datatype Listing = Listing(sellerId: UserId, askingPrice: int, status: ListingStatus)

  datatype OfferStatus =
    | Pending | Accepted | Declined | Countered | Withdrawn
    | Expired | HandoverPending | Confirmed | Closed | Cancelled
  {
    /** Still under negotiation: the set swept by the accept and delete cascades. */
    predicate Open() { Pending? || Countered? }

    /** Accepted and waiting for the two confirmations. */
    predicate InHandover() { Accepted? || HandoverPending? }

    /** A deal that is under way or done. */
    predicate Live() { InHandover() || Confirmed? }

    predicate Disputable() { Live() || Cancelled? }
  }

  datatype Offer = Offer(
    listingId: Id, buyerId: UserId, sellerId: UserId, amount: int, status: OfferStatus,
    parentOfferId: Option<Id>, tokenHoldAmount: Option<int>, updatedAt: Time)
  {
    predicate IsParty(userId: UserId) { userId == buyerId || userId == sellerId }

    predicate HasHold() { tokenHoldAmount.Some? && tokenHoldAmount.value > 0 }

    function Become(next: OfferStatus, now: Time): Offer { this.(status := next, updatedAt := now) }
  }

  type Offers = map<Id, Offer>

  /** One row per offer; the offer's id is its key. */
  datatype Handover = Handover(
    buyerConfirmedAt: Option<Time>, sellerConfirmedAt: Option<Time>,
    bothConfirmedAt: Option<Time>, ratingWindowEndsAt: Option<Time>)
  {
    predicate BothSides() { buyerConfirmedAt.Some? && sellerConfirmedAt.Some? }
  }

  datatype DisputeStatus = DisputeOpen | DisputeResolved | DisputeRejected

  datatype Dispute = Dispute(
    offerId: Id, filedById: UserId, againstId: UserId, status: DisputeStatus,
    resolvedById: Option<UserId>, resolvedAt: Option<Time>)

  datatype World = World(
    listings: map<Id, Listing>,
    offers: Offers,
    handovers: map<Id, Handover>,
    disputes: map<Id, Dispute>,
    ledger: L.Ledger)

  const EMPTY_WORLD := World(map[], map[], map[], map[], L.EMPTY_LEDGER)

  datatype SoukError =
    | SellerNotFound | InsufficientTrust | ProfileIncomplete | PhotoOwnershipMismatch
    | ListingNotFound | NotOwner | ListingNotActive | OwnListing
    | OfferNotFound | NotBuyer | NotSeller | NotParty | WrongStatus | NotCounter
    | InvalidAmount | OutOfBand | OfferAlreadyPending | DepthReached | TokenHoldFailed
    | DisputeNotFound | DisputeAlreadyOpen | DisputeNotAllowed | DisputeWindowClosed | DisputeAlreadyResolved
    | UniqueViolation | TokensRefused(cause: L.TokenError)

  type Outcome = Result<World, SoukError>

  // ---------- Constants ----------

  const MAX_COUNTER_DEPTH := 2
  const HOLD_ACTIVITY: L.Activity := "SOUK_OFFER_HOLD"
  const DISPUTE_WINDOW: Time := 48 * 60 * 60 * 1000
  const RATING_WINDOW: Time := 24 * 60 * 60 * 1000

  // ---------- Guards ----------

  /** Half the asking price rounded up to one and a half times it rounded down, and never zero or less. */
  function AssertAmountInBand(amount: int, askingPrice: int): Option<SoukError> {
    if amount <= 0 then Some(InvalidAmount)
    else
      var min := (askingPrice + 1) / 2;
      var max := (3 * askingPrice) / 2;
      if amount < min || amount > max then Some(OutOfBand) else None
  }

  /** The number of ancestors met by a walk of at most `fuel` steps that starts at `cursor`. */
  function BoundedDepth(offers: Offers, cursor: Option<Id>, fuel: nat): nat
    decreases fuel
  {
    if fuel == 0 || cursor.None? then 0
    else
      var up := if cursor.value in offers then offers[cursor.value].parentOfferId else None;
      1 + BoundedDepth(offers, up, fuel - 1)
  }

  predicate CounterDepthAllowed(offers: Offers, parentOfferId: Option<Id>) {
    BoundedDepth(offers, parentOfferId, MAX_COUNTER_DEPTH + 2) + 1 <= MAX_COUNTER_DEPTH
  }

  /** Foreign keys make the listing of an offer always present. */
  predicate OnActiveListing(w: World, offer: Offer) {
    offer.listingId in w.listings && w.listings[offer.listingId].status == Active
  }

  function SetListingStatus(listings: map<Id, Listing>, id: Id, status: ListingStatus): map<Id, Listing> {
    if id in listings then listings[id := listings[id].(status := status)] else listings
  }

  // ---------- Listings ----------

  /** What the trust, profile and photo checks found about a would-be seller. */
  datatype SellerGate = SellerGate(
    trustScore: Option<int>, banThreshold: int, profileComplete: bool, photosOwned: bool)

  function CreateListing(w: World, newId: Id, sellerId: UserId, askingPrice: int, gate: SellerGate): Outcome {
    if gate.trustScore.None? then Err(SellerNotFound)
    else if gate.trustScore.value <= gate.banThreshold then Err(InsufficientTrust)
    else if !gate.profileComplete then Err(ProfileIncomplete)
    else if !gate.photosOwned then Err(PhotoOwnershipMismatch)
    else if newId in w.listings then Err(UniqueViolation)
    else Ok(w.(listings := w.listings[newId := Listing(sellerId, askingPrice, Active)]))
  }

  function UpdateListing(w: World, id: Id, sellerId: UserId, askingPrice: Option<int>): Outcome {
    if id !in w.listings then Err(ListingNotFound)
    else if w.listings[id].sellerId != sellerId then Err(NotOwner)
    else
      match askingPrice
      case None => Ok(w)
      case Some(price) => Ok(w.(listings := w.listings[id := w.listings[id].(askingPrice := price)]))
  }

  /** Gives `verdict` to every open offer on the listing except the spared ones. */
  function CloseBids(offers: Offers, listingId: Id, spared: set<Id>, verdict: OfferStatus, now: Time): Offers {
    map i | i in offers ::
      if offers[i].listingId == listingId && i !in spared && offers[i].status.Open()
      then offers[i].Become(verdict, now) else offers[i]
  }

  function DeleteListing(w: World, id: Id, sellerId: UserId, now: Time): Outcome {
    if id !in w.listings then Err(ListingNotFound)
    else if w.listings[id].sellerId != sellerId then Err(NotOwner)
    else Ok(w.(offers := CloseBids(w.offers, id, {}, Expired, now),
               listings := SetListingStatus(w.listings, id, Removed)))
  }

  // ---------- Offers ----------

  /** The buyer already has a pending bid of their own (not a counter) on the listing. */
  predicate HasPendingBid(offers: Offers, listingId: Id, buyerId: UserId) {
    exists i | i in offers ::
      && offers[i].listingId == listingId && offers[i].buyerId == buyerId
      && offers[i].status == Pending && offers[i].parentOfferId == None
  }

  function CreateOffer(w: World, newId: Id, buyerId: UserId, listingId: Id, amount: int, hold: Option<int>, now: Time)
    : Outcome
  {
    if listingId !in w.listings then Err(ListingNotFound)
    else
      var listing := w.listings[listingId];
      if listing.status != Active then Err(ListingNotActive)
      else if listing.sellerId == buyerId then Err(OwnListing)
      else if AssertAmountInBand(amount, listing.askingPrice).Some? then Err(AssertAmountInBand(amount, listing.askingPrice).value)
      else if HasPendingBid(w.offers, listingId, buyerId) then Err(OfferAlreadyPending)
      else if newId in w.offers then Err(UniqueViolation)
      else Ok(w.(offers := w.offers[newId := Offer(listingId, buyerId, listing.sellerId, amount, Pending, None, hold, now)]))
  }

  /** The buyer pays the price of a hold, if the offer carries one. */
  function ChargeHold(l: L.Ledger, offerId: Id, offer: Offer): Result<L.Ledger, L.TokenError> {
    if offer.HasHold() then L.Spend(l, offer.buyerId, HOLD_ACTIVITY, L.Individual, Some(offerId)) else Ok(l)
  }

  /** The transaction of both accept calls: close the competing bids, accept this one, reserve the listing. */
  function CommitAccept(w: World, offerId: Id, spared: set<Id>, now: Time): World
    requires offerId in w.offers
  {
    var listingId := w.offers[offerId].listingId;
    var swept := CloseBids(w.offers, listingId, spared + {offerId}, Declined, now);
    w.(offers := swept[offerId := w.offers[offerId].Become(Accepted, now)],
       listings := SetListingStatus(w.listings, listingId, Reserved))
  }

  function ChargeAndAccept(w: World, offerId: Id, spared: set<Id>, now: Time): Outcome
    requires offerId in w.offers
  {
    match ChargeHold(w.ledger, offerId, w.offers[offerId])
    case Err(_) => Err(TokenHoldFailed)
    case Ok(l) => Ok(CommitAccept(w.(ledger := l), offerId, spared, now))
  }

  function AcceptOffer(w: World, offerId: Id, sellerId: UserId, profileComplete: bool, now: Time): Outcome {
    if offerId !in w.offers then Err(OfferNotFound)
    else
      var offer := w.offers[offerId];
      if offer.sellerId != sellerId then Err(NotSeller)
      else if !offer.status.Open() then Err(WrongStatus)
      else if !OnActiveListing(w, offer) then Err(ListingNotActive)
      else if !profileComplete then Err(ProfileIncomplete)
      else ChargeAndAccept(w, offerId, {}, now)
  }

  /** Like the seller's accept, except that the countered parent keeps its historical status. */
  function BuyerAcceptCounter(w: World, offerId: Id, buyerId: UserId, profileComplete: bool, now: Time): Outcome {
    if offerId !in w.offers then Err(OfferNotFound)
    else
      var offer := w.offers[offerId];
      if offer.buyerId != buyerId then Err(NotBuyer)
      else if offer.parentOfferId.None? then Err(NotCounter)
      else if offer.status != Pending then Err(WrongStatus)
      else if !OnActiveListing(w, offer) then Err(ListingNotActive)
      else if !profileComplete then Err(ProfileIncomplete)
      else ChargeAndAccept(w, offerId, {offer.parentOfferId.value}, now)
  }

  function SetOffer(w: World, offerId: Id, offer: Offer): World {
    w.(offers := w.offers[offerId := offer])
  }

  function DeclineOffer(w: World, offerId: Id, sellerId: UserId, now: Time): Outcome {
    if offerId !in w.offers then Err(OfferNotFound)
    else
      var offer := w.offers[offerId];
      if offer.sellerId != sellerId then Err(NotSeller)
      else if !offer.status.Open() then Err(WrongStatus)
      else if !OnActiveListing(w, offer) then Err(ListingNotActive)
      else Ok(SetOffer(w, offerId, offer.Become(Declined, now)))
  }

  function BuyerDeclineCounter(w: World, offerId: Id, buyerId: UserId, now: Time): Outcome {
    if offerId !in w.offers then Err(OfferNotFound)
    else
      var offer := w.offers[offerId];
      if offer.buyerId != buyerId then Err(NotBuyer)
      else if offer.parentOfferId.None? then Err(NotCounter)
      else if offer.status != Pending then Err(WrongStatus)
      else if !OnActiveListing(w, offer) then Err(ListingNotActive)
      else Ok(SetOffer(w, offerId, offer.Become(Declined, now)))
  }

  function WithdrawOffer(w: World, offerId: Id, buyerId: UserId, now: Time): Outcome {
    if offerId !in w.offers then Err(OfferNotFound)
    else
      var offer := w.offers[offerId];
      if offer.buyerId != buyerId then Err(NotBuyer)
      else if offer.status != Pending then Err(WrongStatus)
      else Ok(SetOffer(w, offerId, offer.Become(Withdrawn, now)))
  }

  /** The buyer edits the amount or the note; an empty edit writes nothing. Notes are not stored in the model. */
  function UpdateOffer(w: World, offerId: Id, buyerId: UserId, amount: Option<int>, editsNote: bool, now: Time): Outcome {
    if offerId !in w.offers then Err(OfferNotFound)
    else
      var offer := w.offers[offerId];
      if offer.buyerId != buyerId then Err(NotBuyer)
      else if offer.status != Pending then Err(WrongStatus)
      else
        match amount
        case None => Ok(if editsNote then SetOffer(w, offerId, offer.(updatedAt := now)) else w)
        case Some(a) =>
          if offer.listingId !in w.listings then Err(ListingNotFound)
          else if AssertAmountInBand(a, w.listings[offer.listingId].askingPrice).Some? then
            Err(AssertAmountInBand(a, w.listings[offer.listingId].askingPrice).value)
          else Ok(SetOffer(w, offerId, offer.(amount := a, updatedAt := now)))
  }

  /** Marks the parent as countered and adds its child, which inherits listing and parties but no hold. */
  function AddCounter(offers: Offers, parentId: Id, newId: Id, amount: int, now: Time): Offers
    requires parentId in offers
  {
    var parent := offers[parentId];
    offers[parentId := parent.Become(Countered, now)]
          [newId := Offer(parent.listingId, parent.buyerId, parent.sellerId, amount, Pending, Some(parentId), None, now)]
  }

  /** The checks and writes both counter calls share once the caller is authorised. */
  function Counter(w: World, newId: Id, parentId: Id, amount: int, now: Time): Outcome
    requires parentId in w.offers
  {
    var parent := w.offers[parentId];
    if parent.status != Pending then Err(WrongStatus)
    else if !OnActiveListing(w, parent) then Err(ListingNotActive)
    else
      var band := AssertAmountInBand(amount, w.listings[parent.listingId].askingPrice);
      if band.Some? then Err(band.value)
      else if !CounterDepthAllowed(w.offers, parent.parentOfferId) then Err(DepthReached)
      else if newId in w.offers then Err(UniqueViolation)
      else Ok(w.(offers := AddCounter(w.offers, parentId, newId, amount, now)))
  }

  function CounterOffer(w: World, newId: Id, offerId: Id, sellerId: UserId, amount: int, now: Time): Outcome {
    if offerId !in w.offers then Err(OfferNotFound)
    else if w.offers[offerId].sellerId != sellerId then Err(NotSeller)
    else Counter(w, newId, offerId, amount, now)
  }

  function BuyerCounterOffer(w: World, newId: Id, offerId: Id, buyerId: UserId, amount: int, now: Time): Outcome {
    if offerId !in w.offers then Err(OfferNotFound)
    else if w.offers[offerId].buyerId != buyerId then Err(NotBuyer)
    else if w.offers[offerId].parentOfferId.None? then Err(NotCounter)
    else Counter(w, newId, offerId, amount, now)
  }

  // ---------- Handover ----------

  /** Stamps the handover, confirms the offer, sells the listing and "releases" the hold by crediting nothing. */
  function FinalizeHandover(w: World, offerId: Id, row: Handover, now: Time): World
    requires offerId in w.offers
  {
    var offer := w.offers[offerId];
    w.(handovers := w.handovers[offerId := row.(bothConfirmedAt := Some(now), ratingWindowEndsAt := Some(now + RATING_WINDOW))],
       offers := w.offers[offerId := offer.Become(Confirmed, now)],
       listings := SetListingStatus(w.listings, offer.listingId, Sold),
       ledger := L.Credit(w.ledger, offer.buyerId, 0, L.Individual))
  }

  /** A side that already confirmed keeps its first confirmation time. */
  function Stamp(row: Handover, isBuyer: bool, now: Time): Handover {
    if isBuyer then (if row.buyerConfirmedAt.None? then row.(buyerConfirmedAt := Some(now)) else row)
    else (if row.sellerConfirmedAt.None? then row.(sellerConfirmedAt := Some(now)) else row)
  }

  const BLANK_HANDOVER := Handover(None, None, None, None)

  function ConfirmHandover(w: World, offerId: Id, userId: UserId, now: Time): Outcome {
    if offerId !in w.offers then Err(OfferNotFound)
    else
      var offer := w.offers[offerId];
      if !offer.status.InHandover() then Err(WrongStatus)
      else if !offer.IsParty(userId) then Err(NotParty)
      else
        var isBuyer := offer.buyerId == userId;
        if offerId in w.handovers then
          var row := Stamp(w.handovers[offerId], isBuyer, now);
          if row.BothSides() then Ok(FinalizeHandover(w, offerId, row, now))
          else Ok(w.(handovers := w.handovers[offerId := row]))
        else
          Ok(w.(handovers := w.handovers[offerId := Stamp(BLANK_HANDOVER, isBuyer, now)],
                offers := w.offers[offerId := offer.Become(HandoverPending, now)]))
  }

  /** Either party calls the deal off; the listing goes back to ACTIVE whatever its status was. */
  function CancelOffer(w: World, offerId: Id, callerId: UserId, now: Time): Outcome {
    if offerId !in w.offers then Err(OfferNotFound)
    else
      var offer := w.offers[offerId];
      if !offer.IsParty(callerId) then Err(NotParty)
      else if !offer.status.InHandover() then Err(WrongStatus)
      else Ok(w.(offers := w.offers[offerId := offer.Become(Cancelled, now)],
                 listings := SetListingStatus(w.listings, offer.listingId, Active),
                 ledger := if offer.HasHold() then L.Credit(w.ledger, offer.buyerId, 0, L.Individual) else w.ledger))
  }

  // ---------- Disputes ----------

  predicate HasDispute(disputes: map<Id, Dispute>, offerId: Id) {
    exists d | d in disputes :: disputes[d].offerId == offerId
  }

  predicate HasOpenDispute(disputes: map<Id, Dispute>, offerId: Id) {
    exists d | d in disputes :: disputes[d].offerId == offerId && disputes[d].status == DisputeOpen
  }

  /** When the window for disputing a finished deal starts. */
  function DisputeReference(w: World, offerId: Id): Time
    requires offerId in w.offers
  {
    if offerId in w.handovers && w.handovers[offerId].bothConfirmedAt.Some? then w.handovers[offerId].bothConfirmedAt.value
    else w.offers[offerId].updatedAt
  }

  /** The offer id is a unique key of the disputes table, so a settled dispute still blocks a second one. */
  function CreateDispute(w: World, newId: Id, offerId: Id, filedById: UserId, now: Time): Outcome {
    if offerId !in w.offers then Err(OfferNotFound)
    else
      var offer := w.offers[offerId];
      if !offer.IsParty(filedById) then Err(NotParty)
      else if HasOpenDispute(w.disputes, offerId) then Err(DisputeAlreadyOpen)
      else if !offer.status.Disputable() then Err(DisputeNotAllowed)
      else if (offer.status.Confirmed? || offer.status.Cancelled?) && now - DisputeReference(w, offerId) > DISPUTE_WINDOW then
        Err(DisputeWindowClosed)
      else if newId in w.disputes || HasDispute(w.disputes, offerId) then Err(UniqueViolation)
      else
        var againstId := if offer.buyerId == filedById then offer.sellerId else offer.buyerId;
        Ok(w.(disputes := w.disputes[newId := Dispute(offerId, filedById, againstId, DisputeOpen, None, None)]))
  }

  /** Resolving and rejecting differ only in the final status. */
  function SettleDispute(w: World, disputeId: Id, resolverId: UserId, verdict: DisputeStatus, now: Time): Outcome {
    if disputeId !in w.disputes then Err(DisputeNotFound)
    else if w.disputes[disputeId].status != DisputeOpen then Err(DisputeAlreadyResolved)
    else Ok(w.(disputes := w.disputes[disputeId :=
      w.disputes[disputeId].(status := verdict, resolvedById := Some(resolverId), resolvedAt := Some(now))]))
  }

  // ---------- Calls and runs ----------

  datatype Request =
    | CreateListingCall(newId: Id, sellerId: UserId, askingPrice: int, gate: SellerGate)
    | UpdateListingCall(listingId: Id, sellerId: UserId, newPrice: Option<int>)
    | DeleteListingCall(listingId: Id, sellerId: UserId)
    | CreateOfferCall(newId: Id, buyerId: UserId, listingId: Id, amount: int, hold: Option<int>)
    | AcceptOfferCall(offerId: Id, sellerId: UserId, profileComplete: bool)
    | BuyerAcceptCounterCall(offerId: Id, buyerId: UserId, profileComplete: bool)
    | DeclineOfferCall(offerId: Id, sellerId: UserId)
    | BuyerDeclineCounterCall(offerId: Id, buyerId: UserId)
    | WithdrawOfferCall(offerId: Id, buyerId: UserId)
    | UpdateOfferCall(offerId: Id, buyerId: UserId, newAmount: Option<int>, editsNote: bool)
    | CounterOfferCall(newId: Id, offerId: Id, sellerId: UserId, amount: int)
    | BuyerCounterOfferCall(newId: Id, offerId: Id, buyerId: UserId, amount: int)
    | ConfirmHandoverCall(offerId: Id, userId: UserId)
    | CancelOfferCall(offerId: Id, userId: UserId)
    | CreateDisputeCall(newId: Id, offerId: Id, userId: UserId)
    | ResolveDisputeCall(disputeId: Id, resolverId: UserId)
    | RejectDisputeCall(disputeId: Id, resolverId: UserId)
    | CreditCall(userId: UserId, amount: int, tokenType: L.TokenType)
    | SpendCall(userId: UserId, activity: L.Activity, tokenType: L.TokenType, reference: Option<Id>)
    | AllocateCall(userId: UserId, activity: L.Activity, tokenType: L.TokenType, amount: int)
    | SetPricingCall(activity: L.Activity, cost: int, isActive: bool)

  datatype Call = Call(request: Request, now: Time)

  /** Calls grouped by the rows they write. */
  datatype Kind = ListingKind | AcceptKind | RetireKind | NewOfferKind | HandoverKind | DisputeKind | TokenKind

  function KindOf(r: Request): Kind {
    match r
    case CreateListingCall(_, _, _, _) => ListingKind
    case UpdateListingCall(_, _, _) => ListingKind
    case DeleteListingCall(_, _) => ListingKind
    case AcceptOfferCall(_, _, _) => AcceptKind
    case BuyerAcceptCounterCall(_, _, _) => AcceptKind
    case DeclineOfferCall(_, _) => RetireKind
    case BuyerDeclineCounterCall(_, _) => RetireKind
    case WithdrawOfferCall(_, _) => RetireKind
    case UpdateOfferCall(_, _, _, _) => RetireKind
    case CreateOfferCall(_, _, _, _, _) => NewOfferKind
    case CounterOfferCall(_, _, _, _) => NewOfferKind
    case BuyerCounterOfferCall(_, _, _, _) => NewOfferKind
    case ConfirmHandoverCall(_, _) => HandoverKind
    case CancelOfferCall(_, _) => HandoverKind
    case CreateDisputeCall(_, _, _) => DisputeKind
    case ResolveDisputeCall(_, _) => DisputeKind
    case RejectDisputeCall(_, _) => DisputeKind
    case CreditCall(_, _, _) => TokenKind
    case SpendCall(_, _, _, _) => TokenKind
    case AllocateCall(_, _, _, _) => TokenKind
    case SetPricingCall(_, _, _) => TokenKind
  }

  function FromLedger(w: World, r: Result<L.Ledger, L.TokenError>): Outcome {
    match r
    case Ok(l) => Ok(w.(ledger := l))
    case Err(e) => Err(TokensRefused(e))
  }

  function Step(w: World, c: Call): Outcome {
    match c.request
    case CreateListingCall(newId, sellerId, askingPrice, gate) => CreateListing(w, newId, sellerId, askingPrice, gate)
    case UpdateListingCall(id, sellerId, newPrice) => UpdateListing(w, id, sellerId, newPrice)
    case DeleteListingCall(id, sellerId) => DeleteListing(w, id, sellerId, c.now)
    case CreateOfferCall(newId, buyerId, listingId, amount, hold) => CreateOffer(w, newId, buyerId, listingId, amount, hold, c.now)
    case AcceptOfferCall(id, sellerId, complete) => AcceptOffer(w, id, sellerId, complete, c.now)
    case BuyerAcceptCounterCall(id, buyerId, complete) => BuyerAcceptCounter(w, id, buyerId, complete, c.now)
    case DeclineOfferCall(id, sellerId) => DeclineOffer(w, id, sellerId, c.now)
    case BuyerDeclineCounterCall(id, buyerId) => BuyerDeclineCounter(w, id, buyerId, c.now)
    case WithdrawOfferCall(id, buyerId) => WithdrawOffer(w, id, buyerId, c.now)
    case UpdateOfferCall(id, buyerId, amount, editsNote) => UpdateOffer(w, id, buyerId, amount, editsNote, c.now)
    case CounterOfferCall(newId, id, sellerId, amount) => CounterOffer(w, newId, id, sellerId, amount, c.now)
    case BuyerCounterOfferCall(newId, id, buyerId, amount) => BuyerCounterOffer(w, newId, id, buyerId, amount, c.now)
    case ConfirmHandoverCall(id, userId) => ConfirmHandover(w, id, userId, c.now)
    case CancelOfferCall(id, userId) => CancelOffer(w, id, userId, c.now)
    case CreateDisputeCall(newId, id, userId) => CreateDispute(w, newId, id, userId, c.now)
    case ResolveDisputeCall(id, resolverId) => SettleDispute(w, id, resolverId, DisputeResolved, c.now)
    case RejectDisputeCall(id, resolverId) => SettleDispute(w, id, resolverId, DisputeRejected, c.now)
    case CreditCall(userId, amount, tokenType) => Ok(w.(ledger := L.Credit(w.ledger, userId, amount, tokenType)))
    case SpendCall(userId, activity, tokenType, reference) =>
      FromLedger(w, L.Spend(w.ledger, userId, activity, tokenType, reference))
    case AllocateCall(userId, activity, tokenType, amount) =>
      FromLedger(w, L.Allocate(w.ledger, userId, activity, tokenType, amount))
    case SetPricingCall(activity, cost, isActive) => Ok(w.(ledger := L.SetPricing(w.ledger, activity, cost, isActive)))
  }

  /** A refused call leaves the rows as they were. */
  function Next(w: World, c: Call): World {
    match Step(w, c)
    case Ok(w') => w'
    case Err(_) => w
  }

  /** The rows after a sequence of calls, starting from the empty store. */
  function Run(calls: seq<Call>): World {
    if calls == [] then EMPTY_WORLD else Next(Run(calls[..|calls| - 1]), calls[|calls| - 1])
  }

  /** The i-th call of the run was carried out. */
  predicate Succeeds(calls: seq<Call>, i: nat)
    requires i < |calls|
  {
    Step(Run(calls[..i]), calls[i]).Ok?
  }
}
