/** What holds of the stored rows in every reachable state of the negotiation protocol. */
module SoukInvariant {
  import opened Basics
  import opened SoukModel

  // ---------- References ----------

  ghost predicate OfferRefs(w: World, i: Id)
    requires i in w.offers
  {
    var o := w.offers[i];
    && o.listingId in w.listings
    && w.listings[o.listingId].sellerId == o.sellerId
    && o.buyerId != o.sellerId
    && o.amount > 0
  }

  /** The offer announces a hold of more than nothing. */
  predicate PositiveHold(o: Offer) {
    o.tokenHoldAmount.Some? && o.tokenHoldAmount.value > 0
  }

  ghost predicate Integrity(w: World) {
    forall i {:trigger OfferRefs(w, i)} | i in w.offers :: OfferRefs(w, i)
  }

  // ---------- Threads ----------

  ghost predicate IsChild(offers: Offers, c: Id, p: Id) {
    c in offers && offers[c].parentOfferId == Some(p)
  }

  predicate SameThread(a: Offer, b: Offer) {
    a.listingId == b.listingId && a.buyerId == b.buyerId && a.sellerId == b.sellerId
  }

  /** A counter and the offer it answers. */
  ghost predicate Linked(offers: Offers, c: Id, p: Id) {
    && c in offers && p in offers
    && SameThread(offers[c], offers[p])
    && offers[c].tokenHoldAmount == None
    && !offers[p].status.Pending? && !offers[p].status.Withdrawn?
    && (offers[p].parentOfferId.Some? ==>
          && offers[p].parentOfferId.value in offers
          && offers[offers[p].parentOfferId.value].parentOfferId == None)
  }

  /** Offers form paths of at most three: each has at most one child, and a grandparent is always a root. */
  ghost predicate Threads(offers: Offers) {
    && (forall c, p {:trigger IsChild(offers, c, p)} :: IsChild(offers, c, p) ==> Linked(offers, c, p))
    && (forall c, d, p {:trigger IsChild(offers, c, p), IsChild(offers, d, p)} ::
          IsChild(offers, c, p) && IsChild(offers, d, p) ==> c == d)
    && (forall p {:trigger HasChild(offers, p)} ::
          p in offers && offers[p].status.Countered? ==> HasChild(offers, p))
  }

  ghost predicate HasChild(offers: Offers, p: Id) {
    exists c :: IsChild(offers, c, p)
  }

  // ---------- One live deal per listing ----------

  ghost predicate LiveOn(offers: Offers, i: Id, listingId: Id) {
    i in offers && offers[i].listingId == listingId && offers[i].status.Live()
  }

  ghost predicate HasLive(offers: Offers, listingId: Id) {
    exists i :: LiveOn(offers, i, listingId)
  }

  /** A listing under a live offer follows that offer, unless its seller removed it. */
  predicate Fits(listing: ListingStatus, live: OfferStatus) {
    match live
    case Accepted => listing.Reserved? || listing.Removed?
    case HandoverPending => listing.Reserved? || listing.Removed?
    case Confirmed => listing.Sold? || listing.Removed?
    case _ => true
  }

  ghost predicate LiveDeals(w: World) {
    && (forall i, j, l {:trigger LiveOn(w.offers, i, l), LiveOn(w.offers, j, l)} ::
          LiveOn(w.offers, i, l) && LiveOn(w.offers, j, l) ==> i == j)
    && (forall i, l {:trigger LiveOn(w.offers, i, l)} ::
          LiveOn(w.offers, i, l) ==> l in w.listings && Fits(w.listings[l].status, w.offers[i].status))
    && (forall l {:trigger HasLive(w.offers, l)} ::
          l in w.listings && (w.listings[l].status.Reserved? || w.listings[l].status.Sold?) ==> HasLive(w.offers, l))
    && (forall l | l in w.listings :: !w.listings[l].status.PendingReview? && !w.listings[l].status.ListingExpired?)
  }

  // ---------- Bidding closes with the listing ----------

  ghost predicate AnsweredByLive(offers: Offers, p: Id, listingId: Id) {
    exists c :: IsChild(offers, c, p) && LiveOn(offers, c, listingId)
  }

  ghost predicate BidOk(w: World, i: Id)
    requires i in w.offers
  {
    var o := w.offers[i];
    o.status.Open() && o.listingId in w.listings && !w.listings[o.listingId].status.Active? ==>
      && o.status.Countered?
      && (w.listings[o.listingId].status.Reserved? || w.listings[o.listingId].status.Sold?)
      && AnsweredByLive(w.offers, i, o.listingId)
  }

  ghost predicate Bidding(w: World) {
    forall i {:trigger BidOk(w, i)} | i in w.offers :: BidOk(w, i)
  }

  // ---------- One pending bid per buyer and listing ----------

  ghost predicate PendingBid(offers: Offers, i: Id, listingId: Id, buyerId: UserId) {
    && i in offers && offers[i].listingId == listingId && offers[i].buyerId == buyerId
    && offers[i].status.Pending? && offers[i].parentOfferId == None
  }

  ghost predicate OneBid(offers: Offers) {
    forall i, j, l, b {:trigger PendingBid(offers, i, l, b), PendingBid(offers, j, l, b)} ::
      PendingBid(offers, i, l, b) && PendingBid(offers, j, l, b) ==> i == j
  }

  // ---------- Handovers ----------

  /** The handover row an offer of each status has. */
  ghost predicate HandshakeOk(w: World, i: Id)
    requires i in w.offers
  {
    match w.offers[i].status
    case Accepted => i !in w.handovers
    case HandoverPending => i in w.handovers && HalfDone(w.handovers[i])
    case Confirmed => i in w.handovers && w.handovers[i].BothSides() && w.handovers[i].bothConfirmedAt.Some?
    case Cancelled => i in w.handovers ==> HalfDone(w.handovers[i])
    case _ => i !in w.handovers
  }

  predicate HalfDone(row: Handover) {
    row.buyerConfirmedAt.Some? != row.sellerConfirmedAt.Some? && row.bothConfirmedAt.None?
  }

  ghost predicate Handshakes(w: World) {
    && w.handovers.Keys <= w.offers.Keys
    && forall i {:trigger HandshakeOk(w, i)} | i in w.offers :: HandshakeOk(w, i)
  }

  // ---------- Disputes ----------

  ghost predicate DisputeOk(w: World, d: Id)
    requires d in w.disputes
  {
    var row := w.disputes[d];
    && row.offerId in w.offers
    && w.offers[row.offerId].status.Disputable()
    && ((row.filedById == w.offers[row.offerId].buyerId && row.againstId == w.offers[row.offerId].sellerId) ||
        (row.filedById == w.offers[row.offerId].sellerId && row.againstId == w.offers[row.offerId].buyerId))
  }

  ghost predicate Disputes(w: World) {
    && (forall d {:trigger DisputeOk(w, d)} | d in w.disputes :: DisputeOk(w, d))
    && (forall d, e | d in w.disputes && e in w.disputes && w.disputes[d].offerId == w.disputes[e].offerId :: d == e)
  }

  // ---------- Together ----------

  ghost predicate Inv(w: World) {
    && Integrity(w)
    && Threads(w.offers)
    && LiveDeals(w)
    && Bidding(w)
    && OneBid(w.offers)
    && Handshakes(w)
    && Disputes(w)
  }

  // ---------- How offers may change ----------

  /** The edges of the offer life cycle. */
  predicate Advances(a: OfferStatus, b: OfferStatus) {
    match a
    case Pending => b.Accepted? || b.Declined? || b.Countered? || b.Withdrawn? || b.Expired?
    case Countered => b.Accepted? || b.Declined? || b.Expired?
    case Accepted => b.HandoverPending? || b.Cancelled?
    case HandoverPending => b.Confirmed? || b.Cancelled?
    case _ => false
  }

  /** Listing, parties, ancestry and hold of an offer are fixed at birth; its status only advances. */
  predicate Ages(a: Offer, b: Offer) {
    && SameThread(a, b)
    && a.parentOfferId == b.parentOfferId
    && a.tokenHoldAmount == b.tokenHoldAmount
    && (a.status == b.status || Advances(a.status, b.status))
  }

  ghost predicate Evolves(a: Offers, b: Offers) {
    a.Keys <= b.Keys && forall i | i in a :: Ages(a[i], b[i])
  }
}
