/** The two-party handover, over whole runs. */
module SoukHandovers {
  import opened Basics
  import opened SoukModel
  import opened SoukInvariant
  import opened SoukPreservation
  import opened SoukTermination

  /** The run contains a confirmHandover call by this user on this offer that was carried out. */
  ghost predicate ConfirmedBy(calls: seq<Call>, offerId: Id, userId: UserId) {
    exists i {:trigger Succeeds(calls, i)} ::
      0 <= i < |calls| && calls[i].request == ConfirmHandoverCall(offerId, userId) && Succeeds(calls, i)
  }

  lemma ConfirmedByExtends(calls: seq<Call>, c: Call, offerId: Id, userId: UserId)
    requires ConfirmedBy(calls, offerId, userId)
    ensures ConfirmedBy(calls + [c], offerId, userId)
  {
    var i :| 0 <= i < |calls| && calls[i].request == ConfirmHandoverCall(offerId, userId) && Succeeds(calls, i);
    assert (calls + [c])[..i] == calls[..i];
    assert Succeeds(calls + [c], i);
  }

  lemma ConfirmedByLast(calls: seq<Call>, c: Call, offerId: Id, userId: UserId)
    requires c.request == ConfirmHandoverCall(offerId, userId) && Step(Run(calls), c).Ok?
    ensures ConfirmedBy(calls + [c], offerId, userId)
  {
    assert (calls + [c])[..|calls|] == calls;
    assert Succeeds(calls + [c], |calls|);
  }

  lemma {:induction false} SameParties(w: World, c: Call, id: Id)
    requires Inv(w) && id in w.offers
    ensures id in Next(w, c).offers && SameThread(w.offers[id], Next(w, c).offers[id])
  {
    StepGrows(w, c);
    assert Ages(w.offers[id], Next(w, c).offers[id]);
  }

  /** A side is stamped on the row only by that side's own call. */
  lemma {:induction false} StampedByCaller(w: World, c: Call, id: Id)
    requires Inv(w) && id in Next(w, c).handovers
    ensures id in w.offers && id in Next(w, c).offers && SameThread(w.offers[id], Next(w, c).offers[id])
    ensures var row := Next(w, c).handovers[id];
      var mine := Step(w, c).Ok? && c.request.ConfirmHandoverCall? && c.request.offerId == id;
      && (row.buyerConfirmedAt.Some? ==>
            || (id in w.handovers && w.handovers[id].buyerConfirmedAt.Some?)
            || (mine && c.request.userId == w.offers[id].buyerId))
      && (row.sellerConfirmedAt.Some? ==>
            || (id in w.handovers && w.handovers[id].sellerConfirmedAt.Some?)
            || (mine && c.request.userId == w.offers[id].sellerId))
  {
    if KindOf(c.request) != HandoverKind { OnlyHandoverStamps(w, c); }
    SameParties(w, c, id);
  }

  /** No other kind of call touches the handover rows. */
  lemma OnlyHandoverStamps(w: World, c: Call)
    requires KindOf(c.request) != HandoverKind
    ensures Next(w, c).handovers == w.handovers
  {
    match KindOf(c.request)
    case ListingKind =>
    case AcceptKind =>
    case RetireKind =>
    case NewOfferKind =>
    case _ =>
  }

  ghost predicate Witnessed(calls: seq<Call>, id: Id)
    requires id in Run(calls).handovers && id in Run(calls).offers
  {
    var w := Run(calls);
    && (w.handovers[id].buyerConfirmedAt.Some? ==> ConfirmedBy(calls, id, w.offers[id].buyerId))
    && (w.handovers[id].sellerConfirmedAt.Some? ==> ConfirmedBy(calls, id, w.offers[id].sellerId))
  }

  lemma {:induction false} HandoversWitnessed(calls: seq<Call>, id: Id)
    requires id in Run(calls).handovers
    ensures id in Run(calls).offers && Witnessed(calls, id)
  {
    if calls != [] {
      var before, c := calls[..|calls| - 1], calls[|calls| - 1];
      assert calls == before + [c];
      ReachableInv(before);
      var w := Run(before);
      StampedByCaller(w, c, id);
      if id in w.handovers {
        HandoversWitnessed(before, id);
        if w.handovers[id].buyerConfirmedAt.Some? { ConfirmedByExtends(before, c, id, w.offers[id].buyerId); }
        if w.handovers[id].sellerConfirmedAt.Some? { ConfirmedByExtends(before, c, id, w.offers[id].sellerId); }
      }
      if Step(w, c).Ok? && c.request.ConfirmHandoverCall? && c.request.offerId == id {
        ConfirmedByLast(before, c, id, c.request.userId);
      }
    }
  }

  /** In every run a SOLD listing has a confirmed offer whose buyer and seller, two different users, both confirmed. */
  lemma {:induction false} SoldNeedsBothSides(calls: seq<Call>, l: Id)
    requires l in Run(calls).listings && Run(calls).listings[l].status == Sold
    ensures exists id | id in Run(calls).offers ::
      var o := Run(calls).offers[id];
      && o.listingId == l && o.status == Confirmed && o.buyerId != o.sellerId
      && ConfirmedBy(calls, id, o.buyerId) && ConfirmedBy(calls, id, o.sellerId)
  {
    ReachableInv(calls);
    var w := Run(calls);
    assert HasLive(w.offers, l);
    var id :| LiveOn(w.offers, id, l);
    assert HandshakeOk(w, id) && OfferRefs(w, id);
    HandoversWitnessed(calls, id);
  }

  /** The handover row of an offer in every reachable state, status by status. */
  lemma {:induction false} ReachableHandshake(calls: seq<Call>, id: Id)
    requires id in Run(calls).offers
    ensures var w := Run(calls);
      match w.offers[id].status
      case Accepted => id !in w.handovers
      case HandoverPending => id in w.handovers && HalfDone(w.handovers[id])
      case Confirmed => id in w.handovers && w.handovers[id].BothSides() && w.handovers[id].bothConfirmedAt.Some?
      case Cancelled => id in w.handovers ==> HalfDone(w.handovers[id])
      case _ => id !in w.handovers
  {
    ReachableInv(calls);
    assert HandshakeOk(Run(calls), id);
  }

  /** Confirming again from the side that already confirmed changes nothing at all. */
  lemma {:induction false} RepeatChangesNothing(calls: seq<Call>, id: Id, userId: UserId, now: Time)
    requires var w := Run(calls);
      && id in w.offers && w.offers[id].IsParty(userId) && w.offers[id].status == HandoverPending && id in w.handovers
      && (if userId == w.offers[id].buyerId then w.handovers[id].buyerConfirmedAt.Some? else w.handovers[id].sellerConfirmedAt.Some?)
    ensures ConfirmHandover(Run(calls), id, userId, now) == Ok(Run(calls))
  {
    ReachableInv(calls);
    var w := Run(calls);
    assert HandshakeOk(w, id);
    assert w.handovers[id := w.handovers[id]] == w.handovers;
  }

  /** From an accepted offer, one confirmation by each side, in either order, sells the listing. */
  lemma {:induction false} BothSidesSell(calls: seq<Call>, id: Id, first: UserId, second: UserId, t: Time, u: Time)
    requires id in Run(calls).offers
    requires var o := Run(calls).offers[id];
      o.status == Accepted && o.IsParty(first) && o.IsParty(second) && first != second
    ensures var w := Run(calls);
      && ConfirmHandover(w, id, first, t).Ok?
      && var half := ConfirmHandover(w, id, first, t).value;
      && half.offers[id].status == HandoverPending && half.listings == w.listings
      && ConfirmHandover(half, id, second, u).Ok?
      && var done := ConfirmHandover(half, id, second, u).value;
      && done.offers[id].status == Confirmed
      && w.offers[id].listingId in done.listings && done.listings[w.offers[id].listingId].status == Sold
      && done.handovers[id].bothConfirmedAt == Some(u)
      && done.handovers[id].ratingWindowEndsAt == Some(u + 24 * 60 * 60 * 1000)
      && (if first == w.offers[id].buyerId
          then done.handovers[id].buyerConfirmedAt == Some(t) && done.handovers[id].sellerConfirmedAt == Some(u)
          else done.handovers[id].sellerConfirmedAt == Some(t) && done.handovers[id].buyerConfirmedAt == Some(u))
  {
    ReachableInv(calls);
    assert HandshakeOk(Run(calls), id) && OfferRefs(Run(calls), id);
  }
}
