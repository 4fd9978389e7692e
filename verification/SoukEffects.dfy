/** What a carried-out call on an offer does to the rows: every column it writes, and that it writes no other. */
module SoukEffects {
  import opened Basics
  import L = TokenLedger
  import opened SoukModel
  import opened SoukInvariant
  import opened SoukPreservation
  import opened SoukTermination
  import opened SoukAdmission

  /** Nothing but offers and listings differs. */
  predicate SameElsewhere(w: World, w': World) {
    w'.handovers == w.handovers && w'.disputes == w.disputes
  }

  predicate OnlyOffers(w: World, w': World) {
    SameElsewhere(w, w') && w'.listings == w.listings && w'.ledger == w.ledger
  }

  /** The one listing has a new status, and nothing else about listings differs. */
  ghost predicate OnlyStatus(w: World, w': World, l: Id, s: ListingStatus) {
    && w'.listings.Keys == w.listings.Keys
    && forall k | k in w.listings ::
         w'.listings[k] == Listing(w.listings[k].sellerId, w.listings[k].askingPrice, if k == l then s else w.listings[k].status)
  }

  /** The offer with another status, written now. */
  function Marked(o: Offer, s: OfferStatus, now: Time): Offer {
    Offer(o.listingId, o.buyerId, o.sellerId, o.amount, s, o.parentOfferId, o.tokenHoldAmount, now)
  }

  /** One existing offer is as given, the others as before. */
  ghost predicate OnlyOffer(w: World, w': World, id: Id, o: Offer) {
    && id in w.offers && w'.offers.Keys == w.offers.Keys && w'.offers[id] == o
    && forall i | i in w.offers && i != id :: w'.offers[i] == w.offers[i]
  }

  /** Open offers of the listing get a verdict, but for this one and what is spared. */
  ghost predicate Swept(w: World, w': World, l: Id, winner: Option<Id>, spared: Option<Id>, verdict: OfferStatus, now: Time) {
    && w'.offers.Keys == w.offers.Keys
    && forall i | i in w.offers ::
         var o := w.offers[i];
         if winner == Some(i) then w'.offers[i] == Marked(o, Accepted, now)
         else if o.listingId == l && spared != Some(i) && (o.status == Pending || o.status == Countered)
         then w'.offers[i] == Marked(o, verdict, now)
         else w'.offers[i] == o
  }

  /** A credit of nothing to the buyer: balances as before, one more line in the log. */
  ghost predicate ZeroCredited(l: L.Ledger, l': L.Ledger, buyerId: UserId) {
    && l'.wallets.Keys == l.wallets.Keys + {buyerId}
    && (forall u | u in l.wallets :: l'.wallets[u] == l.wallets[u])
    && (buyerId !in l.wallets ==> l'.wallets[buyerId] == L.Wallet(0, 0))
    && l'.transactions == l.transactions + [L.Transaction(buyerId, "CREDIT", L.Individual, 0, None)]
    && l'.pricing == l.pricing && l'.allocations == l.allocations
  }

  /** The handover row after the caller's side has confirmed now, or had before. */
  predicate StampedNow(before: Option<Handover>, after: Handover, byBuyer: bool, now: Time) {
    && after.buyerConfirmedAt ==
         (if before.Some? && before.value.buyerConfirmedAt.Some? then before.value.buyerConfirmedAt else if byBuyer then Some(now) else None)
    && after.sellerConfirmedAt ==
         (if before.Some? && before.value.sellerConfirmedAt.Some? then before.value.sellerConfirmedAt else if byBuyer then None else Some(now))
  }

  ghost predicate HandedOver(w: World, w': World, id: Id, u: UserId, now: Time)
    requires id in w.offers
  {
    var o := w.offers[id];
    var before := if id in w.handovers then Some(w.handovers[id]) else None;
    && id in w'.handovers && w'.handovers.Keys == w.handovers.Keys + {id}
    && (forall i | i in w.handovers && i != id :: w'.handovers[i] == w.handovers[i])
    && w'.disputes == w.disputes
    && var row := w'.handovers[id];
    && StampedNow(before, row, u == o.buyerId, now)
    && if row.buyerConfirmedAt.Some? && row.sellerConfirmedAt.Some? then
         && row.bothConfirmedAt == Some(now) && row.ratingWindowEndsAt == Some(now + 86_400_000)
         && OnlyOffer(w, w', id, Marked(o, Confirmed, now)) && OnlyStatus(w, w', o.listingId, Sold)
         && ZeroCredited(w.ledger, w'.ledger, o.buyerId)
       else
         && row.bothConfirmedAt == None && w'.listings == w.listings && w'.ledger == w.ledger
         && OnlyOffer(w, w', id, if before.Some? then o else Marked(o, HandoverPending, now))
  }

  /** What each call on offers does. */
  ghost predicate Effect(w: World, w': World, c: Call) {
    match c.request
    case DeleteListingCall(l, _) =>
      SameElsewhere(w, w') && w'.ledger == w.ledger && Swept(w, w', l, None, None, Expired, c.now) && OnlyStatus(w, w', l, Removed)
    case CreateOfferCall(newId, u, l, amount, hold) =>
      && OnlyOffers(w, w') && l in w.listings
      && w'.offers == w.offers[newId := Offer(l, u, w.listings[l].sellerId, amount, Pending, None, hold, c.now)]
    case AcceptOfferCall(id, _, _) =>
      && id in w.offers && SameElsewhere(w, w') && OnlyStatus(w, w', w.offers[id].listingId, Reserved)
      && Swept(w, w', w.offers[id].listingId, Some(id), None, Declined, c.now)
    case BuyerAcceptCounterCall(id, _, _) =>
      && id in w.offers && SameElsewhere(w, w') && OnlyStatus(w, w', w.offers[id].listingId, Reserved)
      && Swept(w, w', w.offers[id].listingId, Some(id), w.offers[id].parentOfferId, Declined, c.now)
    case DeclineOfferCall(id, _) => id in w.offers && OnlyOffers(w, w') && OnlyOffer(w, w', id, Marked(w.offers[id], Declined, c.now))
    case BuyerDeclineCounterCall(id, _) => id in w.offers && OnlyOffers(w, w') && OnlyOffer(w, w', id, Marked(w.offers[id], Declined, c.now))
    case WithdrawOfferCall(id, _) => id in w.offers && OnlyOffers(w, w') && OnlyOffer(w, w', id, Marked(w.offers[id], Withdrawn, c.now))
    case UpdateOfferCall(id, _, amount, editsNote) =>
      && id in w.offers && OnlyOffers(w, w')
      && var o := w.offers[id];
         var price := if amount.Some? then amount.value else o.amount;
         var at := if amount.Some? || editsNote then c.now else o.updatedAt;
         OnlyOffer(w, w', id, Offer(o.listingId, o.buyerId, o.sellerId, price, o.status, o.parentOfferId, o.tokenHoldAmount, at))
    case CounterOfferCall(newId, id, _, amount) => id in w.offers && OnlyOffers(w, w') && Answered(w, w', newId, id, amount, c.now)
    case BuyerCounterOfferCall(newId, id, _, amount) => id in w.offers && OnlyOffers(w, w') && Answered(w, w', newId, id, amount, c.now)
    case ConfirmHandoverCall(id, u) => id in w.offers && HandedOver(w, w', id, u, c.now)
    case CancelOfferCall(id, _) =>
      && id in w.offers && SameElsewhere(w, w')
      && OnlyOffer(w, w', id, Marked(w.offers[id], Cancelled, c.now)) && OnlyStatus(w, w', w.offers[id].listingId, Active)
      && if PositiveHold(w.offers[id]) then ZeroCredited(w.ledger, w'.ledger, w.offers[id].buyerId) else w'.ledger == w.ledger
    case _ => w'.offers == w.offers && w'.handovers == w.handovers
  }

  /** The answered offer is marked, and its one new child is pending, without a hold, in the same thread. */
  ghost predicate Answered(w: World, w': World, newId: Id, id: Id, amount: int, now: Time)
    requires id in w.offers
  {
    var o := w.offers[id];
    && newId !in w.offers && w'.offers.Keys == w.offers.Keys + {newId}
    && w'.offers[id] == Marked(o, Countered, now)
    && w'.offers[newId] == Offer(o.listingId, o.buyerId, o.sellerId, amount, Pending, Some(id), None, now)
    && forall i | i in w.offers && i != id :: w'.offers[i] == w.offers[i]
  }

  lemma ListingEffect(w: World, c: Call)
    requires KindOf(c.request) == ListingKind && Step(w, c).Ok?
    ensures Effect(w, Next(w, c), c)
  {
  }

  lemma AcceptEffect(w: World, c: Call)
    requires KindOf(c.request) == AcceptKind && Step(w, c).Ok?
    ensures Effect(w, Next(w, c), c)
  {
  }

  lemma DeclineEffect(w: World, c: Call)
    requires (c.request.DeclineOfferCall? || c.request.BuyerDeclineCounterCall?) && Step(w, c).Ok?
    ensures Effect(w, Next(w, c), c)
  {
  }

  lemma EditEffect(w: World, c: Call)
    requires (c.request.WithdrawOfferCall? || c.request.UpdateOfferCall?) && Step(w, c).Ok?
    ensures Effect(w, Next(w, c), c)
  {
  }

  lemma NewOfferEffect(w: World, c: Call)
    requires KindOf(c.request) == NewOfferKind && Step(w, c).Ok?
    ensures Effect(w, Next(w, c), c)
  {
  }

  lemma FirstConfirmEffect(w: World, c: Call)
    requires c.request.ConfirmHandoverCall? && Step(w, c).Ok? && c.request.offerId !in w.handovers
    ensures Effect(w, Next(w, c), c)
  {
  }

  lemma LaterConfirmEffect(w: World, c: Call)
    requires c.request.ConfirmHandoverCall? && Step(w, c).Ok?
    requires c.request.offerId in w.offers && c.request.offerId in w.handovers && HalfDone(w.handovers[c.request.offerId])
    requires w.offers[c.request.offerId].listingId in w.listings
    ensures Effect(w, Next(w, c), c)
  {
  }

  lemma {:induction false} ConfirmEffect(w: World, c: Call)
    requires Inv(w) && c.request.ConfirmHandoverCall? && Step(w, c).Ok?
    ensures Effect(w, Next(w, c), c)
  {
    var id := c.request.offerId;
    assert HandshakeOk(w, id) && OfferRefs(w, id);
    if id in w.handovers { LaterConfirmEffect(w, c); } else { FirstConfirmEffect(w, c); }
  }

  lemma CancelEffect(w: World, c: Call)
    requires c.request.CancelOfferCall? && Step(w, c).Ok?
    ensures Effect(w, Next(w, c), c)
  {
  }

  /** In every reachable state a carried-out call does to the rows exactly what it is for. */
  lemma {:induction false} CarriedOutEffect(calls: seq<Call>, c: Call)
    requires Step(Run(calls), c).Ok?
    ensures Effect(Run(calls), Next(Run(calls), c), c)
  {
    var w := Run(calls);
    ReachableInv(calls);
    match KindOf(c.request)
    case ListingKind => ListingEffect(w, c);
    case AcceptKind => AcceptEffect(w, c);
    case RetireKind =>
      if c.request.DeclineOfferCall? || c.request.BuyerDeclineCounterCall? { DeclineEffect(w, c); } else { EditEffect(w, c); }
    case NewOfferKind => NewOfferEffect(w, c);
    case HandoverKind => if c.request.ConfirmHandoverCall? { ConfirmEffect(w, c); } else { CancelEffect(w, c); }
    case _ => OtherwiseSameOffers(w, c); OtherwiseSameHandovers(w, c);
  }

  lemma OtherwiseSameHandovers(w: World, c: Call)
    requires KindOf(c.request) == DisputeKind || KindOf(c.request) == TokenKind
    ensures Next(w, c).handovers == w.handovers
  {
  }
}
