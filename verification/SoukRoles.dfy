/** Who may cause what: the callers and circumstances behind every new offer, status change and price change. */
module SoukRoles {
  import opened Basics
  import opened SoukModel
  import opened SoukInvariant
  import opened SoukPreservation
  import opened SoukGuarantees
  import opened SoukTermination

  /** The user on whose behalf a marketplace call is made. */
  function Actor(r: Request): Option<UserId> {
    match r
    case CreateListingCall(_, u, _, _) => Some(u)
    case UpdateListingCall(_, u, _) => Some(u)
    case DeleteListingCall(_, u) => Some(u)
    case CreateOfferCall(_, u, _, _, _) => Some(u)
    case AcceptOfferCall(_, u, _) => Some(u)
    case BuyerAcceptCounterCall(_, u, _) => Some(u)
    case DeclineOfferCall(_, u) => Some(u)
    case BuyerDeclineCounterCall(_, u) => Some(u)
    case WithdrawOfferCall(_, u) => Some(u)
    case UpdateOfferCall(_, u, _, _) => Some(u)
    case CounterOfferCall(_, _, u, _) => Some(u)
    case BuyerCounterOfferCall(_, _, u, _) => Some(u)
    case ConfirmHandoverCall(_, u) => Some(u)
    case CancelOfferCall(_, u) => Some(u)
    case CreateDisputeCall(_, _, u) => Some(u)
    case _ => None
  }

  /** The seller may answer any offer, the buyer only one that is itself an answer. */
  predicate MayAnswer(o: Offer, actor: Option<UserId>) {
    actor == Some(o.sellerId) || (actor == Some(o.buyerId) && o.parentOfferId.Some?)
  }

  predicate ByParty(o: Offer, actor: Option<UserId>) {
    actor.Some? && o.IsParty(actor.value)
  }

  /** Another offer on the same listing was accepted by the same call. */
  ghost predicate Outbid(w: World, w': World, i: Id)
    requires i in w.offers
  {
    exists j :: j != i && j in w.offers && j in w'.offers && w.offers[j].listingId == w.offers[i].listingId
      && w.offers[j].status.Open() && w'.offers[j].status.Accepted?
  }

  /** Why an offer may have taken on a new status in a step. */
  ghost predicate Justified(w: World, w': World, actor: Option<UserId>, i: Id)
    requires i in w.offers && i in w'.offers
  {
    var o := w.offers[i];
    match w'.offers[i].status
    case Withdrawn => o.status.Pending? && actor == Some(o.buyerId)
    case Countered => o.status.Pending? && OnActiveListing(w, o) && MayAnswer(o, actor) && HasChild(w'.offers, i)
    case Accepted =>
      && OnActiveListing(w, o) && MayAnswer(o, actor)
      && (o.status.Pending? || (o.status.Countered? && actor == Some(o.sellerId)))
      && o.listingId in w'.listings && w'.listings[o.listingId].status.Reserved?
    case Declined => o.status.Open() && OnActiveListing(w, o) && (MayAnswer(o, actor) || Outbid(w, w', i))
    case Expired =>
      && o.status.Open() && actor == Some(o.sellerId)
      && o.listingId in w'.listings && w'.listings[o.listingId].status.Removed?
    case HandoverPending => o.status.Accepted? && ByParty(o, actor)
    case Confirmed => o.status.HandoverPending? && ByParty(o, actor)
    case Cancelled => o.status.InHandover() && ByParty(o, actor)
    case _ => false
  }

  ghost predicate AllJustified(w: World, w': World, actor: Option<UserId>) {
    forall i {:trigger Justified(w, w', actor, i)} | i in w.offers && i in w'.offers ::
      w'.offers[i].status != w.offers[i].status ==> Justified(w, w', actor, i)
  }

  lemma {:induction false} DeleteJustified(w: World, c: Call)
    requires Inv(w) && Step(w, c).Ok? && KindOf(c.request) == ListingKind
    ensures AllJustified(w, Step(w, c).value, Actor(c.request))
  {
    forall i | i in w.offers && Step(w, c).value.offers[i].status != w.offers[i].status
      ensures Justified(w, Step(w, c).value, Actor(c.request), i)
    {
      assert OfferRefs(w, i);
    }
  }

  lemma {:induction false} AcceptJustified(w: World, c: Call)
    requires Step(w, c).Ok? && KindOf(c.request) == AcceptKind
    ensures AllJustified(w, Step(w, c).value, Actor(c.request))
  {
    var w' := Step(w, c).value;
    forall i | i in w.offers && w'.offers[i].status != w.offers[i].status ensures Justified(w, w', Actor(c.request), i) {
      assert i != c.request.offerId ==> w.offers[c.request.offerId].listingId == w.offers[i].listingId;
    }
  }

  lemma RetireJustified(w: World, c: Call)
    requires Step(w, c).Ok? && KindOf(c.request) == RetireKind
    ensures AllJustified(w, Step(w, c).value, Actor(c.request))
  {
  }

  lemma {:induction false} NewOfferJustified(w: World, c: Call)
    requires Step(w, c).Ok? && KindOf(c.request) == NewOfferKind
    ensures AllJustified(w, Step(w, c).value, Actor(c.request))
  {
    var w' := Step(w, c).value;
    if !c.request.CreateOfferCall? { assert IsChild(w'.offers, c.request.newId, c.request.offerId); }
  }

  lemma {:induction false} HandoverJustified(w: World, c: Call)
    requires Inv(w) && Step(w, c).Ok? && KindOf(c.request) == HandoverKind
    ensures AllJustified(w, Step(w, c).value, Actor(c.request))
  {
    assert HandshakeOk(w, c.request.offerId);
  }

  /**
   * In every reachable state, whatever call comes next, every offer whose status changes was changed by someone entitled
   * to it, from a status and on a listing where that is allowed.
   */
  lemma {:induction false} StatusChangesJustified(calls: seq<Call>, c: Call, i: Id)
    requires i in Run(calls).offers && i in Next(Run(calls), c).offers
    requires Next(Run(calls), c).offers[i].status != Run(calls).offers[i].status
    ensures Justified(Run(calls), Next(Run(calls), c), Actor(c.request), i)
  {
    ReachableInv(calls);
    var w := Run(calls);
    match KindOf(c.request)
    case ListingKind => DeleteJustified(w, c);
    case AcceptKind => AcceptJustified(w, c);
    case RetireKind => RetireJustified(w, c);
    case NewOfferKind => NewOfferJustified(w, c);
    case HandoverKind => HandoverJustified(w, c);
    case _ => OtherwiseSameOffers(w, c);
  }

  // ---------- New offers and prices ----------

  predicate InBand(amount: int, askingPrice: int) {
    amount > 0 && askingPrice <= 2 * amount <= 3 * askingPrice
  }

  /** How a new offer relates to its listing and, for a counter, to the offer it answers. */
  ghost predicate WellBorn(w: World, actor: Option<UserId>, o: Offer) {
    && OnActiveListing(w, o)
    && InBand(o.amount, w.listings[o.listingId].askingPrice)
    && o.status.Pending?
    && match o.parentOfferId
       case None =>
         && actor == Some(o.buyerId) && o.buyerId != o.sellerId
         && o.sellerId == w.listings[o.listingId].sellerId
         && !HasPendingBid(w.offers, o.listingId, o.buyerId)
       case Some(p) =>
         && p in w.offers && w.offers[p].status.Pending? && SameThread(o, w.offers[p])
         && MayAnswer(w.offers[p], actor) && o.tokenHoldAmount == None
  }

  /** Every new offer is priced within the band, on an ACTIVE listing, by someone entitled to make it. */
  lemma {:induction false} NewOffersWellBorn(w: World, c: Call, i: Id)
    requires i in Next(w, c).offers && i !in w.offers
    ensures WellBorn(w, Actor(c.request), Next(w, c).offers[i])
  {
    NewOfferFrom(w, c, i);
    NewOfferBorn(w, c, i);
  }

  lemma {:induction false} BidBorn(w: World, c: Call)
    requires c.request.CreateOfferCall? && Step(w, c).Ok?
    ensures WellBorn(w, Actor(c.request), Step(w, c).value.offers[c.request.newId])
  {
    BandMeaning(c.request.amount, w.listings[c.request.listingId].askingPrice);
  }

  lemma {:induction false} CounterBorn(w: World, c: Call)
    requires (c.request.CounterOfferCall? || c.request.BuyerCounterOfferCall?) && Step(w, c).Ok?
    ensures WellBorn(w, Actor(c.request), Step(w, c).value.offers[c.request.newId])
  {
    BandMeaning(c.request.amount, w.listings[w.offers[c.request.offerId].listingId].askingPrice);
  }

  lemma {:induction false} NewOfferBorn(w: World, c: Call, i: Id)
    requires KindOf(c.request) == NewOfferKind && i in Next(w, c).offers && i !in w.offers
    ensures WellBorn(w, Actor(c.request), Next(w, c).offers[i])
  {
    assert i == c.request.newId;
    if c.request.CreateOfferCall? { BidBorn(w, c); } else { CounterBorn(w, c); }
  }

  /** Only edits change the price of an existing offer. */
  lemma OtherwiseSamePrice(w: World, c: Call, i: Id)
    requires KindOf(c.request) == ListingKind || KindOf(c.request) == AcceptKind || KindOf(c.request) == HandoverKind
    requires i in w.offers && i in Next(w, c).offers
    ensures Next(w, c).offers[i].amount == w.offers[i].amount
  {
  }

  lemma CounterSamePrice(w: World, c: Call, i: Id)
    requires KindOf(c.request) == NewOfferKind && i in w.offers && i in Next(w, c).offers
    ensures Next(w, c).offers[i].amount == w.offers[i].amount
  {
  }

  /** An offer's price changes only while it is PENDING, by its own buyer, and to a price within the band. */
  lemma {:induction false} PriceChangesJustified(w: World, c: Call, i: Id)
    requires i in w.offers && i in Next(w, c).offers && Next(w, c).offers[i].amount != w.offers[i].amount
    ensures w.offers[i].status.Pending? && Actor(c.request) == Some(w.offers[i].buyerId)
    ensures w.offers[i].listingId in w.listings
    ensures InBand(Next(w, c).offers[i].amount, w.listings[w.offers[i].listingId].askingPrice)
  {
    match KindOf(c.request)
    case RetireKind => BandMeaning(Next(w, c).offers[i].amount, w.listings[w.offers[i].listingId].askingPrice);
    case NewOfferKind => CounterSamePrice(w, c, i);
    case DisputeKind => OtherwiseSameOffers(w, c);
    case TokenKind => OtherwiseSameOffers(w, c);
    case _ => OtherwiseSamePrice(w, c, i);
  }
}
