/** The Souk ElKanto service: rows updated in place, each method proved against its function in `SoukModel`. */
module SoukServices {
  import opened Basics
  import L = TokenLedger
  import opened TokensServices
  import T = TrustModel
  import opened TrustServices
  import TS = TrustSeverities
  import opened Paths
  import M = SoukModel
  import opened SoukInvariant
  import opened SoukGuarantees
  import opened SoukThreads

  /** The call returned the row of `id`, or refused and wrote nothing. */
  ghost predicate ReturnsOffer(before: M.World, after: M.World, spec: M.Outcome, id: Id, r: Result<M.Offer, M.SoukError>) {
    match spec
    case Ok(w) => after == w && id in w.offers && r == Ok(w.offers[id])
    case Err(e) => after == before && r == Err(e)
  }

  ghost predicate ReturnsListing(before: M.World, after: M.World, spec: M.Outcome, id: Id, r: Result<M.Listing, M.SoukError>) {
    match spec
    case Ok(w) => after == w && id in w.listings && r == Ok(w.listings[id])
    case Err(e) => after == before && r == Err(e)
  }

  ghost predicate ReturnsDispute(before: M.World, after: M.World, spec: M.Outcome, id: Id, r: Result<M.Dispute, M.SoukError>) {
    match spec
    case Ok(w) => after == w && id in w.disputes && r == Ok(w.disputes[id])
    case Err(e) => after == before && r == Err(e)
  }

  const REPORT_SEVERITY := 3

  /** The trust tables after a dispute's report was filed; a report that cannot be filed is only logged. */
  function WithReport(w: T.World, dispute: M.Dispute, now: Time, cfg: T.TrustConfig): T.World {
    match T.File(w, T.ReportRow(dispute.filedById, dispute.againstId, T.ReportFlag(REPORT_SEVERITY, false)), now, cfg)
    case Ok(w') => w'
    case Err(_) => w
  }

  /**
   * When both parties are known users, filing for a dispute adds one report by the filer on the other party, of severity 3
   * and without a platform-wide flag, and the other party's stored score counts it from then on.
   */
  lemma {:induction false} ReportCounts(calls: seq<T.TrustCall>, dispute: M.Dispute, now: Time, m: nat)
    requires TS.OpenedAt(calls, dispute.filedById).Some? && TS.OpenedAt(calls, dispute.againstId).Some?
    requires TS.FullMonths(TS.OpenedAt(calls, dispute.againstId).value, now, m)
    ensures var w := T.Run(calls, T.DEFAULT_CONFIG);
      var w' := WithReport(w, dispute, now, T.DEFAULT_CONFIG);
      && w'.reports == w.reports + [T.ReportRow(dispute.filedById, dispute.againstId, T.ReportFlag(3, false))]
      && dispute.againstId in w'.users
      && w'.users[dispute.againstId].trustScore ==
           TS.Clamped(100 - 8 * (TS.PointsAgainst(w.reports, dispute.againstId) + 3) + if m < 10 then 2 * m else 20)
      && w'.users.Keys == w.users.Keys
      && forall u | u in w.users && u != dispute.againstId :: w'.users[u] == w.users[u]
  {
    var row := T.ReportRow(dispute.filedById, dispute.againstId, T.ReportFlag(3, false));
    TS.FilingScores(calls, row, now, m);
    var rows := T.Run(calls, T.DEFAULT_CONFIG).reports;
    assert (rows + [row])[..|rows|] == rows;
  }

  class SoukService {
    var listings: map<Id, M.Listing>
    var offers: M.Offers
    var handovers: map<Id, M.Handover>
    var disputes: map<Id, M.Dispute>
    const tokens: TokensService
    const reports: ReportsService

    /** The stored rows, the token ledger included, as one value. */
    ghost function View(): M.World
      reads this, tokens
    {
      M.World(listings, offers, handovers, disputes, tokens.View())
    }

    constructor (reports: ReportsService)
      ensures fresh(tokens) && this.reports == reports && View() == M.EMPTY_WORLD
    {
      listings, offers, handovers, disputes := map[], map[], map[], map[];
      tokens := new TokensService();
      this.reports := reports;
    }

    // ---------- Listings ----------

    method CreateListing(newId: Id, sellerId: UserId, askingPrice: int, gate: M.SellerGate)
      returns (r: Result<M.Listing, M.SoukError>)
      modifies `listings
      ensures ReturnsListing(old(View()), View(), M.CreateListing(old(View()), newId, sellerId, askingPrice, gate), newId, r)
    {
      if gate.trustScore.None? { return Err(M.SellerNotFound); }
      if gate.trustScore.value <= gate.banThreshold { return Err(M.InsufficientTrust); }
      if !gate.profileComplete { return Err(M.ProfileIncomplete); }
      if !gate.photosOwned { return Err(M.PhotoOwnershipMismatch); }
      if newId in listings { return Err(M.UniqueViolation); }
      listings := listings[newId := M.Listing(sellerId, askingPrice, M.Active)];
      return Ok(listings[newId]);
    }

    method UpdateListing(id: Id, sellerId: UserId, askingPrice: Option<int>) returns (r: Result<M.Listing, M.SoukError>)
      modifies `listings
      ensures ReturnsListing(old(View()), View(), M.UpdateListing(old(View()), id, sellerId, askingPrice), id, r)
    {
      if id !in listings { return Err(M.ListingNotFound); }
      var listing := listings[id];
      if listing.sellerId != sellerId { return Err(M.NotOwner); }
      if askingPrice.Some? {
        listings := listings[id := listing.(askingPrice := askingPrice.value)];
      }
      return Ok(listings[id]);
    }

    /** One bulk update of the given offers. */
    method UpdateMany(ids: set<Id>, status: M.OfferStatus, now: Time)
      modifies `offers
      ensures offers == map i | i in old(offers) :: if i in ids then old(offers)[i].Become(status, now) else old(offers)[i]
    {
      offers := map i | i in offers :: if i in ids then offers[i].Become(status, now) else offers[i];
    }

    method DeleteListing(id: Id, sellerId: UserId, now: Time) returns (r: Result<M.Listing, M.SoukError>)
      modifies `listings, `offers
      ensures ReturnsListing(old(View()), View(), M.DeleteListing(old(View()), id, sellerId, now), id, r)
    {
      if id !in listings { return Err(M.ListingNotFound); }
      var listing := listings[id];
      if listing.sellerId != sellerId { return Err(M.NotOwner); }
      var openOffers := set i | i in offers && offers[i].listingId == id && offers[i].status.Open();
      if openOffers != {} {
        UpdateMany(openOffers, M.Expired, now);
      }
      listings := listings[id := listing.(status := M.Removed)];
      assert offers == M.CloseBids(old(offers), id, {}, M.Expired, now);
      return Ok(listings[id]);
    }

    // ---------- Offers ----------

    method CreateOffer(newId: Id, buyerId: UserId, listingId: Id, amount: int, hold: Option<int>, now: Time)
      returns (r: Result<M.Offer, M.SoukError>)
      modifies `offers
      ensures ReturnsOffer(old(View()), View(), M.CreateOffer(old(View()), newId, buyerId, listingId, amount, hold, now), newId, r)
    {
      if listingId !in listings { return Err(M.ListingNotFound); }
      var listing := listings[listingId];
      if listing.status != M.Active { return Err(M.ListingNotActive); }
      if listing.sellerId == buyerId { return Err(M.OwnListing); }
      var band := M.AssertAmountInBand(amount, listing.askingPrice);
      if band.Some? { return Err(band.value); }
      if M.HasPendingBid(offers, listingId, buyerId) { return Err(M.OfferAlreadyPending); }
      if newId in offers { return Err(M.UniqueViolation); }
      offers := offers[newId := M.Offer(listingId, buyerId, listing.sellerId, amount, M.Pending, None, hold, now)];
      return Ok(offers[newId]);
    }

    /** The spend that both accept calls make before their transaction. */
    method LockTokens(offerId: Id) returns (locked: bool)
      requires offerId in offers
      modifies tokens
      ensures match M.ChargeHold(old(tokens.View()), offerId, offers[offerId])
              case Ok(l) => locked && tokens.View() == l
              case Err(_) => !locked && tokens.View() == old(tokens.View())
    {
      var offer := offers[offerId];
      if offer.tokenHoldAmount.Some? && offer.tokenHoldAmount.value > 0 {
        var spent := tokens.Spend(offer.buyerId, M.HOLD_ACTIVITY, L.Individual, Some(offerId));
        return spent.Ok?;
      }
      return true;
    }

    /** The transaction that both accept calls run. */
    method AcceptTransaction(offerId: Id, spared: set<Id>, now: Time)
      requires offerId in offers && offers[offerId].listingId in listings
      modifies `offers, `listings
      ensures View() == M.CommitAccept(old(View()), offerId, spared, now)
    {
      var offer := offers[offerId];
      var siblings := set i | i in offers &&
        offers[i].listingId == offer.listingId && i !in spared + {offerId} && offers[i].status.Open();
      if siblings != {} {
        UpdateMany(siblings, M.Declined, now);
      }
      assert offers == M.CloseBids(old(offers), offer.listingId, spared + {offerId}, M.Declined, now);
      offers := offers[offerId := offer.Become(M.Accepted, now)];
      listings := listings[offer.listingId := listings[offer.listingId].(status := M.Reserved)];
    }

    method AcceptOffer(offerId: Id, sellerId: UserId, profileComplete: bool, now: Time)
      returns (r: Result<M.Offer, M.SoukError>)
      modifies `offers, `listings, tokens
      ensures ReturnsOffer(old(View()), View(), M.AcceptOffer(old(View()), offerId, sellerId, profileComplete, now), offerId, r)
    {
      if offerId !in offers { return Err(M.OfferNotFound); }
      var offer := offers[offerId];
      if offer.sellerId != sellerId { return Err(M.NotSeller); }
      if offer.status != M.Pending && offer.status != M.Countered { return Err(M.WrongStatus); }
      if offer.listingId !in listings || listings[offer.listingId].status != M.Active { return Err(M.ListingNotActive); }
      if !profileComplete { return Err(M.ProfileIncomplete); }
      var locked := LockTokens(offerId);
      if !locked { return Err(M.TokenHoldFailed); }
      AcceptTransaction(offerId, {}, now);
      return Ok(offers[offerId]);
    }

    method BuyerAcceptCounter(offerId: Id, buyerId: UserId, profileComplete: bool, now: Time)
      returns (r: Result<M.Offer, M.SoukError>)
      modifies `offers, `listings, tokens
      ensures ReturnsOffer(old(View()), View(), M.BuyerAcceptCounter(old(View()), offerId, buyerId, profileComplete, now), offerId, r)
    {
      if offerId !in offers { return Err(M.OfferNotFound); }
      var offer := offers[offerId];
      if offer.buyerId != buyerId { return Err(M.NotBuyer); }
      if offer.parentOfferId == None { return Err(M.NotCounter); }
      if offer.status != M.Pending { return Err(M.WrongStatus); }
      if offer.listingId !in listings || listings[offer.listingId].status != M.Active { return Err(M.ListingNotActive); }
      if !profileComplete { return Err(M.ProfileIncomplete); }
      var locked := LockTokens(offerId);
      if !locked { return Err(M.TokenHoldFailed); }
      AcceptTransaction(offerId, {offer.parentOfferId.value}, now);
      return Ok(offers[offerId]);
    }

    method DeclineOffer(offerId: Id, sellerId: UserId, now: Time) returns (r: Result<M.Offer, M.SoukError>)
      modifies `offers
      ensures ReturnsOffer(old(View()), View(), M.DeclineOffer(old(View()), offerId, sellerId, now), offerId, r)
    {
      if offerId !in offers { return Err(M.OfferNotFound); }
      var offer := offers[offerId];
      if offer.sellerId != sellerId { return Err(M.NotSeller); }
      if offer.status != M.Pending && offer.status != M.Countered { return Err(M.WrongStatus); }
      if offer.listingId !in listings || listings[offer.listingId].status != M.Active { return Err(M.ListingNotActive); }
      offers := offers[offerId := offer.Become(M.Declined, now)];
      return Ok(offers[offerId]);
    }

    method BuyerDeclineCounter(offerId: Id, buyerId: UserId, now: Time) returns (r: Result<M.Offer, M.SoukError>)
      modifies `offers
      ensures ReturnsOffer(old(View()), View(), M.BuyerDeclineCounter(old(View()), offerId, buyerId, now), offerId, r)
    {
      if offerId !in offers { return Err(M.OfferNotFound); }
      var offer := offers[offerId];
      if offer.buyerId != buyerId { return Err(M.NotBuyer); }
      if offer.parentOfferId == None { return Err(M.NotCounter); }
      if offer.status != M.Pending { return Err(M.WrongStatus); }
      if offer.listingId !in listings || listings[offer.listingId].status != M.Active { return Err(M.ListingNotActive); }
      offers := offers[offerId := offer.Become(M.Declined, now)];
      return Ok(offers[offerId]);
    }

    method WithdrawOffer(offerId: Id, buyerId: UserId, now: Time) returns (r: Result<M.Offer, M.SoukError>)
      modifies `offers
      ensures ReturnsOffer(old(View()), View(), M.WithdrawOffer(old(View()), offerId, buyerId, now), offerId, r)
    {
      if offerId !in offers { return Err(M.OfferNotFound); }
      var offer := offers[offerId];
      if offer.buyerId != buyerId { return Err(M.NotBuyer); }
      if offer.status != M.Pending { return Err(M.WrongStatus); }
      offers := offers[offerId := offer.Become(M.Withdrawn, now)];
      return Ok(offers[offerId]);
    }

    method UpdateOffer(offerId: Id, buyerId: UserId, amount: Option<int>, editsNote: bool, now: Time)
      returns (r: Result<M.Offer, M.SoukError>)
      modifies `offers
      ensures ReturnsOffer(old(View()), View(), M.UpdateOffer(old(View()), offerId, buyerId, amount, editsNote, now), offerId, r)
    {
      if offerId !in offers { return Err(M.OfferNotFound); }
      var offer := offers[offerId];
      if offer.buyerId != buyerId { return Err(M.NotBuyer); }
      if offer.status != M.Pending { return Err(M.WrongStatus); }
      var data := offer;
      if amount.Some? {
        if offer.listingId !in listings { return Err(M.ListingNotFound); }
        var band := M.AssertAmountInBand(amount.value, listings[offer.listingId].askingPrice);
        if band.Some? { return Err(band.value); }
        data := data.(amount := amount.value);
      }
      if amount.None? && !editsNote {
        return Ok(offer);
      }
      offers := offers[offerId := data.(updatedAt := now)];
      return Ok(offers[offerId]);
    }

    // ---------- Counters ----------

    /** Walks up from the parent of the offer being countered, at most two steps past the cap. */
    method AssertCounterDepthAllowed(parentOfferId: Option<Id>) returns (allowed: bool)
      ensures allowed == M.CounterDepthAllowed(offers, parentOfferId)
    {
      var depth := 0;
      var cursor := parentOfferId;
      var i := 0;
      while i < M.MAX_COUNTER_DEPTH + 2 && cursor.Some?
        invariant 0 <= i <= M.MAX_COUNTER_DEPTH + 2
        invariant depth + M.BoundedDepth(offers, cursor, M.MAX_COUNTER_DEPTH + 2 - i)
               == M.BoundedDepth(offers, parentOfferId, M.MAX_COUNTER_DEPTH + 2)
      {
        depth := depth + 1;
        cursor := if cursor.value in offers then offers[cursor.value].parentOfferId else None;
        i := i + 1;
      }
      return depth + 1 <= M.MAX_COUNTER_DEPTH;
    }

    /** The part of both counter calls that follows the authorisation of the caller. */
    method AddCounter(newId: Id, offerId: Id, amount: int, now: Time) returns (r: Result<M.Offer, M.SoukError>)
      requires offerId in offers
      modifies `offers
      ensures ReturnsOffer(old(View()), View(), M.Counter(old(View()), newId, offerId, amount, now), newId, r)
    {
      var parent := offers[offerId];
      if parent.status != M.Pending { return Err(M.WrongStatus); }
      if parent.listingId !in listings || listings[parent.listingId].status != M.Active { return Err(M.ListingNotActive); }
      var band := M.AssertAmountInBand(amount, listings[parent.listingId].askingPrice);
      if band.Some? { return Err(band.value); }
      var allowed := AssertCounterDepthAllowed(parent.parentOfferId);
      if !allowed { return Err(M.DepthReached); }
      if newId in offers { return Err(M.UniqueViolation); }
      offers := offers[offerId := parent.Become(M.Countered, now)];
      offers := offers[newId :=
        M.Offer(parent.listingId, parent.buyerId, parent.sellerId, amount, M.Pending, Some(offerId), None, now)];
      return Ok(offers[newId]);
    }

    method CounterOffer(newId: Id, offerId: Id, sellerId: UserId, amount: int, now: Time)
      returns (r: Result<M.Offer, M.SoukError>)
      modifies `offers
      ensures ReturnsOffer(old(View()), View(), M.CounterOffer(old(View()), newId, offerId, sellerId, amount, now), newId, r)
    {
      if offerId !in offers { return Err(M.OfferNotFound); }
      if offers[offerId].sellerId != sellerId { return Err(M.NotSeller); }
      r := AddCounter(newId, offerId, amount, now);
    }

    method BuyerCounterOffer(newId: Id, offerId: Id, buyerId: UserId, amount: int, now: Time)
      returns (r: Result<M.Offer, M.SoukError>)
      modifies `offers
      ensures ReturnsOffer(old(View()), View(), M.BuyerCounterOffer(old(View()), newId, offerId, buyerId, amount, now), newId, r)
    {
      if offerId !in offers { return Err(M.OfferNotFound); }
      if offers[offerId].buyerId != buyerId { return Err(M.NotBuyer); }
      if offers[offerId].parentOfferId == None { return Err(M.NotCounter); }
      r := AddCounter(newId, offerId, amount, now);
    }

    // ---------- Handover ----------

    /** Returns the row as it was stamped, before a second confirmation finalises the deal. */
    method ConfirmHandover(offerId: Id, userId: UserId, now: Time) returns (r: Result<M.Handover, M.SoukError>)
      modifies `offers, `listings, `handovers, tokens
      ensures match M.ConfirmHandover(old(View()), offerId, userId, now)
              case Err(e) => View() == old(View()) && r == Err(e)
              case Ok(w) =>
                && View() == w
                && offerId in old(offers)
                && r == Ok(M.Stamp(if offerId in old(handovers) then old(handovers)[offerId] else M.BLANK_HANDOVER,
                                   old(offers)[offerId].buyerId == userId, now))
    {
      if offerId !in offers { return Err(M.OfferNotFound); }
      var offer := offers[offerId];
      if offer.status != M.Accepted && offer.status != M.HandoverPending { return Err(M.WrongStatus); }
      if offer.buyerId != userId && offer.sellerId != userId { return Err(M.NotParty); }
      var isBuyer := offer.buyerId == userId;
      if offerId in handovers {
        var row := handovers[offerId];
        if isBuyer && row.buyerConfirmedAt.None? { row := row.(buyerConfirmedAt := Some(now)); }
        if !isBuyer && row.sellerConfirmedAt.None? { row := row.(sellerConfirmedAt := Some(now)); }
        handovers := handovers[offerId := row];
        if row.buyerConfirmedAt.Some? && row.sellerConfirmedAt.Some? {
          FinalizeHandover(offerId, now);
          assert View() == M.FinalizeHandover(old(View()), offerId, row, now);
        }
        return Ok(row);
      }
      var row := M.Handover(if isBuyer then Some(now) else None, if !isBuyer then Some(now) else None, None, None);
      handovers := handovers[offerId := row];
      offers := offers[offerId := offer.Become(M.HandoverPending, now)];
      return Ok(row);
    }

    method FinalizeHandover(offerId: Id, now: Time)
      requires offerId in offers && offerId in handovers
      modifies `offers, `listings, `handovers, tokens
      ensures View() == M.FinalizeHandover(old(View()), offerId, old(handovers)[offerId], now)
    {
      var offer := offers[offerId];
      handovers := handovers[offerId :=
        handovers[offerId].(bothConfirmedAt := Some(now), ratingWindowEndsAt := Some(now + M.RATING_WINDOW))];
      offers := offers[offerId := offer.Become(M.Confirmed, now)];
      listings := M.SetListingStatus(listings, offer.listingId, M.Sold);
      var _ := tokens.Credit(offer.buyerId, 0, L.Individual);
    }

    method CancelOffer(offerId: Id, callerId: UserId, now: Time) returns (r: Result<M.Offer, M.SoukError>)
      modifies `offers, `listings, tokens
      ensures ReturnsOffer(old(View()), View(), M.CancelOffer(old(View()), offerId, callerId, now), offerId, r)
    {
      if offerId !in offers { return Err(M.OfferNotFound); }
      var offer := offers[offerId];
      if offer.buyerId != callerId && offer.sellerId != callerId { return Err(M.NotParty); }
      if offer.status != M.Accepted && offer.status != M.HandoverPending { return Err(M.WrongStatus); }
      offers := offers[offerId := offer.Become(M.Cancelled, now)];
      listings := M.SetListingStatus(listings, offer.listingId, M.Active);
      if offer.tokenHoldAmount.Some? && offer.tokenHoldAmount.value > 0 {
        var _ := tokens.Credit(offer.buyerId, 0, L.Individual);
      }
      return Ok(offers[offerId]);
    }

    // ---------- Disputes ----------

    method CreateDispute(newId: Id, offerId: Id, filedById: UserId, now: Time) returns (r: Result<M.Dispute, M.SoukError>)
      modifies `disputes
      ensures ReturnsDispute(old(View()), View(), M.CreateDispute(old(View()), newId, offerId, filedById, now), newId, r)
    {
      if offerId !in offers { return Err(M.OfferNotFound); }
      var offer := offers[offerId];
      if offer.buyerId != filedById && offer.sellerId != filedById { return Err(M.NotParty); }
      if M.HasOpenDispute(disputes, offerId) { return Err(M.DisputeAlreadyOpen); }
      if !offer.status.Disputable() { return Err(M.DisputeNotAllowed); }
      if offer.status == M.Confirmed || offer.status == M.Cancelled {
        var referenceTime := offer.updatedAt;
        if offerId in handovers && handovers[offerId].bothConfirmedAt.Some? {
          referenceTime := handovers[offerId].bothConfirmedAt.value;
        }
        if now - referenceTime > M.DISPUTE_WINDOW { return Err(M.DisputeWindowClosed); }
      }
      if newId in disputes || M.HasDispute(disputes, offerId) { return Err(M.UniqueViolation); }
      var againstId := if offer.buyerId == filedById then offer.sellerId else offer.buyerId;
      disputes := disputes[newId := M.Dispute(offerId, filedById, againstId, M.DisputeOpen, None, None)];
      return Ok(disputes[newId]);
    }

    /** On request the resolver also reports the other party, which lowers that party's trust score. */
    method ResolveDispute(disputeId: Id, resolverId: UserId, fileReport: bool, now: Time) returns (r: Result<M.Dispute, M.SoukError>)
      modifies `disputes, reports.trust
      ensures ReturnsDispute(old(View()), View(), M.SettleDispute(old(View()), disputeId, resolverId, M.DisputeResolved, now), disputeId, r)
      ensures reports.trust.View() ==
        if r.Ok? && fileReport then WithReport(old(reports.trust.View()), r.value, now, reports.trust.config)
        else old(reports.trust.View())
    {
      if disputeId !in disputes { return Err(M.DisputeNotFound); }
      if disputes[disputeId].status != M.DisputeOpen { return Err(M.DisputeAlreadyResolved); }
      disputes := disputes[disputeId :=
        disputes[disputeId].(status := M.DisputeResolved, resolvedAt := Some(now), resolvedById := Some(resolverId))];
      var dispute := disputes[disputeId];
      if fileReport {
        var _ := reports.File(T.ReportRow(dispute.filedById, dispute.againstId, T.ReportFlag(REPORT_SEVERITY, false)), now);
      }
      return Ok(dispute);
    }

    method RejectDispute(disputeId: Id, resolverId: UserId, now: Time) returns (r: Result<M.Dispute, M.SoukError>)
      modifies `disputes
      ensures ReturnsDispute(old(View()), View(), M.SettleDispute(old(View()), disputeId, resolverId, M.DisputeRejected, now), disputeId, r)
    {
      if disputeId !in disputes { return Err(M.DisputeNotFound); }
      if disputes[disputeId].status != M.DisputeOpen { return Err(M.DisputeAlreadyResolved); }
      disputes := disputes[disputeId :=
        disputes[disputeId].(status := M.DisputeRejected, resolvedAt := Some(now), resolvedById := Some(resolverId))];
      return Ok(disputes[disputeId]);
    }

    // ---------- The offer chain ----------

    /**
     * Walks up to the root, collecting every id it starts a round with. Terminates on every store, cyclic ones
     * included; on threads it ends at the root, having passed the root's child unless it started at the root.
     */
    method Ascend(offerId: Id) returns (rootId: Id, visited: set<Id>)
      ensures Threads(offers) && offerId in offers ==>
        && rootId in offers && offers[rootId].parentOfferId == None
        && (exists path :: IsPath(ParentsOf(offers), offerId, path) && rootId == RootOf(offerId, path))
        && (offers[offerId].parentOfferId == None ==> rootId == offerId && visited == {offerId})
        && (offers[offerId].parentOfferId.Some? ==> exists c :: c in visited && IsChild(offers, c, rootId))
      ensures rootId in visited
      ensures offerId !in offers ==> rootId == offerId
    {
      rootId, visited := offerId, {};
      ghost var threaded := Threads(offers) && offerId in offers;
      ghost var whole: seq<Id> := [];
      if threaded { whole := ThreadPath(offers, offerId); }
      ghost var above := whole;
      while true
        invariant offerId !in offers ==> rootId == offerId && visited == {}
        invariant visited == {} ==> rootId == offerId
        invariant threaded ==>
          && IsPath(ParentsOf(offers), offerId, whole)
          && IsPath(ParentsOf(offers), rootId, above)
          && RootOf(rootId, above) == RootOf(offerId, whole)
          && rootId !in visited && (forall p | p in above :: p !in visited)
          && (visited != {} ==> whole != [] && exists c :: c in visited && IsChild(offers, c, rootId))
        decreases offers.Keys - visited
      {
        if rootId in visited { break; }
        visited := visited + {rootId};
        if rootId !in offers || offers[rootId].parentOfferId == None { break; }
        ghost var child := rootId;
        rootId := offers[rootId].parentOfferId.value;
        if threaded {
          PathAcyclic(ParentsOf(offers), child, above);
          assert IsChild(offers, child, rootId);
          above := above[..|above| - 1];
        }
      }
    }

    /** Follows child links down from `start`, never entering a visited offer. Terminates on every store. */
    method Descend(start: Id, visited: set<Id>) returns (chain: seq<Id>)
      requires start in offers && start in visited
      ensures chain != [] && chain[0] == start && Descending(offers, chain) && NoRepeats(chain)
      ensures forall k | 0 < k < |chain| :: chain[k] !in visited
      ensures |chain| > 1 ==> IsChild(offers, chain[1], start)
      ensures var last := chain[|chain| - 1];
        HasChild(offers, last) ==> exists c :: IsChild(offers, c, last) && (c in visited || c in chain)
    {
      chain := [start];
      var seen := visited;
      var cursor := start;
      while exists c | c in offers :: offers[c].parentOfferId == Some(cursor)
        invariant chain != [] && chain[0] == start && cursor == chain[|chain| - 1] && cursor in offers
        invariant Descending(offers, chain) && NoRepeats(chain)
        invariant seen == visited + set c | c in chain
        invariant forall k | 0 < k < |chain| :: chain[k] !in visited
        decreases offers.Keys - seen
      {
        var child :| child in offers && offers[child].parentOfferId == Some(cursor);
        assert IsChild(offers, child, cursor);
        if child in seen { break; }
        seen := seen + {child};
        chain := chain + [child];
        cursor := child;
      }
    }

    /**
     * The offers linked to `offerId`. The descent shares its visited set with the ascent, so on threads a call on the
     * root returns the whole thread, and a call on any other member returns the root alone.
     */
    method GetOfferChain(offerId: Id) returns (r: Result<seq<Id>, M.SoukError>)
      ensures offerId !in offers ==> r == Err(M.OfferNotFound)
      ensures r.Ok? ==> r.value != [] && Descending(offers, r.value) && NoRepeats(r.value)
      ensures Threads(offers) && offerId in offers ==>
        && r.Ok?
        && (offers[offerId].parentOfferId == None ==> r.value[0] == offerId && WholeThread(offers, r.value))
        && (forall path | IsPath(ParentsOf(offers), offerId, path) && path != [] :: r.value == [path[0]])
        && (WholeThread(offers, r.value) <==> offers[offerId].parentOfferId == None)
    {
      var rootId, visited := Ascend(offerId);
      if rootId !in offers { return Err(M.OfferNotFound); }
      var chain := Descend(rootId, visited);
      if Threads(offers) && offerId in offers {
        if offers[offerId].parentOfferId == None {
          DescentIsWhole(offers, chain);
        } else {
          var c :| c in visited && IsChild(offers, c, rootId);
          forall path | IsPath(ParentsOf(offers), offerId, path) ensures [path[0]] == chain {
            var q :| IsPath(ParentsOf(offers), offerId, q) && rootId == RootOf(offerId, q);
            PathUnique(ParentsOf(offers), offerId, path, q);
          }
        }
      }
      r := Ok(chain);
    }

    /** The same walk with a fresh visited set for the descent: the whole thread from every member. */
    method GetOfferChainRepaired(offerId: Id) returns (r: Result<seq<Id>, M.SoukError>)
      ensures offerId !in offers ==> r == Err(M.OfferNotFound)
      ensures r.Ok? ==> r.value != [] && Descending(offers, r.value) && NoRepeats(r.value)
      ensures Threads(offers) && offerId in offers ==> r.Ok? && WholeThread(offers, r.value) && offerId in r.value
    {
      var rootId, _ := Ascend(offerId);
      if rootId !in offers { return Err(M.OfferNotFound); }
      var chain := Descend(rootId, {rootId});
      if Threads(offers) && offerId in offers {
        DescentIsWhole(offers, chain);
        WholeThreadExact(offers, chain);
      }
      r := Ok(chain);
    }
  }
}
