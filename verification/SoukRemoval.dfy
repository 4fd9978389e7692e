/** When a removed listing stays removed. */
module SoukRemoval {
  import opened Basics
  import opened SoukModel
  import opened SoukInvariant
  import opened SoukPreservation
  import opened SoukGuarantees
  import opened SoukTermination

  /** Some deal on the listing still awaits its handover. */
  ghost predicate AwaitsHandover(w: World, l: Id) {
    exists i | i in w.offers :: w.offers[i].listingId == l && w.offers[i].status.InHandover()
  }

  ghost predicate IsRemoved(w: World, l: Id) {
    l in w.listings && w.listings[l].status.Removed?
  }

  /** Removed for good: no deal is left that could bring the listing back. */
  ghost predicate Settled(w: World, l: Id) {
    IsRemoved(w, l) && !AwaitsHandover(w, l)
  }

  lemma ListingSettled(w: World, c: Call, l: Id)
    requires Settled(w, l) && KindOf(c.request) == ListingKind
    ensures Settled(Next(w, c), l)
  {
  }

  lemma AcceptSettled(w: World, c: Call, l: Id)
    requires Settled(w, l) && KindOf(c.request) == AcceptKind
    ensures Settled(Next(w, c), l)
  {
  }

  lemma RetireSettled(w: World, c: Call, l: Id)
    requires Settled(w, l) && KindOf(c.request) == RetireKind
    ensures Settled(Next(w, c), l)
  {
  }

  lemma NewOfferSettled(w: World, c: Call, l: Id)
    requires Settled(w, l) && KindOf(c.request) == NewOfferKind
    ensures Settled(Next(w, c), l)
  {
  }

  lemma HandoverSettled(w: World, c: Call, l: Id)
    requires Settled(w, l) && KindOf(c.request) == HandoverKind
    ensures Settled(Next(w, c), l)
  {
  }

  lemma OtherwiseSettled(w: World, c: Call, l: Id)
    requires Settled(w, l) && (KindOf(c.request) == DisputeKind || KindOf(c.request) == TokenKind)
    ensures Settled(Next(w, c), l)
  {
  }

  lemma {:induction false} StaysSettled(calls: seq<Call>, more: seq<Call>, l: Id)
    requires Settled(Run(calls), l)
    ensures Settled(Run(calls + more), l)
    decreases |more|
  {
    if more == [] {
      assert calls + more == calls;
    } else {
      var rest, c := more[..|more| - 1], more[|more| - 1];
      StaysSettled(calls, rest, l);
      assert calls + more == calls + rest + [c];
      RunStep(calls + rest, c);
      var w := Run(calls + rest);
      match KindOf(c.request)
      case ListingKind => ListingSettled(w, c, l);
      case AcceptKind => AcceptSettled(w, c, l);
      case RetireKind => RetireSettled(w, c, l);
      case NewOfferKind => NewOfferSettled(w, c, l);
      case HandoverKind => HandoverSettled(w, c, l);
      case DisputeKind => OtherwiseSettled(w, c, l);
      case TokenKind => OtherwiseSettled(w, c, l);
    }
  }

  /** A listing with a deal in handover is brought back by cancelling that deal. */
  lemma {:induction false} CancelRevives(calls: seq<Call>, l: Id, i: Id, now: Time)
    requires i in Run(calls).offers && Run(calls).offers[i].listingId == l && Run(calls).offers[i].status.InHandover()
    ensures !IsRemoved(Run(calls + [Call(CancelOfferCall(i, Run(calls).offers[i].buyerId), now)]), l)
  {
    ReachableInv(calls);
    assert OfferRefs(Run(calls), i);
    RunStep(calls, Call(CancelOfferCall(i, Run(calls).offers[i].buyerId), now));
  }

  /** A removed listing stays removed, whatever calls follow, exactly when no deal on it awaits its handover. */
  lemma {:induction false} RemovedForGoodIff(calls: seq<Call>, l: Id)
    requires IsRemoved(Run(calls), l)
    ensures (forall more :: IsRemoved(Run(calls + more), l)) <==> !AwaitsHandover(Run(calls), l)
  {
    if AwaitsHandover(Run(calls), l) {
      var i :| i in Run(calls).offers && Run(calls).offers[i].listingId == l && Run(calls).offers[i].status.InHandover();
      CancelRevives(calls, l, i, 0);
    } else {
      forall more ensures IsRemoved(Run(calls + more), l) { StaysSettled(calls, more, l); }
    }
  }

  /** Removing a listing whose deal awaits its handover leaves that deal as it was. */
  lemma {:induction false} RemovalKeepsDeal(w: World, id: Id, t: Time)
    requires Inv(w) && id in w.offers && w.offers[id].status.InHandover()
    ensures var o := w.offers[id];
      var removed := Next(w, Call(DeleteListingCall(o.listingId, o.sellerId), t));
      && Inv(removed) && IsRemoved(removed, o.listingId)
      && id in removed.offers && removed.offers[id] == o
  {
    assert OfferRefs(w, id);
    DeleteKeeps(w, w.offers[id].listingId, w.offers[id].sellerId, t);
  }

  /** Cancelling a deal makes its listing ACTIVE with no live offer left. */
  lemma {:induction false} CancelReopens(w: World, id: Id, userId: UserId, now: Time)
    requires Inv(w) && id in w.offers && w.offers[id].status.InHandover() && w.offers[id].IsParty(userId)
    ensures var l := w.offers[id].listingId;
      var cancelled := Next(w, Call(CancelOfferCall(id, userId), now));
      && l in cancelled.listings && cancelled.listings[l].status == Active
      && LiveOffers(cancelled, l) == {}
  {
    assert OfferRefs(w, id);
    CancelKeeps(w, id, userId, now);
    NoneLive(CancelOffer(w, id, userId, now).value, w.offers[id].listingId);
  }

  /** Confirmations by both parties sell the listing, whether or not one of them had confirmed before. */
  lemma {:induction false} BothConfirm(w: World, id: Id, u: Time, v: Time)
    requires Inv(w) && id in w.offers && w.offers[id].status.InHandover()
    ensures var o := w.offers[id];
      var half := Next(w, Call(ConfirmHandoverCall(id, o.buyerId), u));
      var done := Next(half, Call(ConfirmHandoverCall(id, o.sellerId), v));
      && id in done.offers && done.offers[id].status == Confirmed
      && o.listingId in done.listings && done.listings[o.listingId].status == Sold
  {
    assert OfferRefs(w, id) && HandshakeOk(w, id);
  }

  function RemoveListingOf(o: Offer, t: Time): Call { Call(DeleteListingCall(o.listingId, o.sellerId), t) }

  function Cancel(id: Id, o: Offer, t: Time): Call { Call(CancelOfferCall(id, o.buyerId), t) }

  function Confirm(id: Id, userId: UserId, t: Time): Call { Call(ConfirmHandoverCall(id, userId), t) }

  ghost predicate IsOnSale(w: World, l: Id) {
    l in w.listings && w.listings[l].status.Active? && LiveOffers(w, l) == {}
  }

  ghost predicate IsSold(w: World, l: Id) {
    l in w.listings && w.listings[l].status.Sold?
  }

  /**
   * Removing a listing whose deal awaits its handover keeps the deal alive: cancelling it makes the listing ACTIVE with
   * no live offer left, and the parties' confirmations make it SOLD, wherever the handover stood.
   */
  lemma {:induction false} RemovedComesBack(calls: seq<Call>, id: Id, t: Time, u: Time, v: Time)
    requires id in Run(calls).offers && Run(calls).offers[id].status.InHandover()
    ensures var o := Run(calls).offers[id];
      var removed := calls + [RemoveListingOf(o, t)];
      && IsRemoved(Run(removed), o.listingId)
      && IsOnSale(Run(removed + [Cancel(id, o, u)]), o.listingId)
      && IsSold(Run(removed + [Confirm(id, o.buyerId, u)] + [Confirm(id, o.sellerId, v)]), o.listingId)
  {
    ReachableInv(calls);
    var w := Run(calls);
    var o := w.offers[id];
    var removed := calls + [RemoveListingOf(o, t)];
    RunStep(calls, RemoveListingOf(o, t));
    RemovalKeepsDeal(w, id, t);
    RunStep(removed, Cancel(id, o, u));
    CancelReopens(Run(removed), id, o.buyerId, u);
    RunStep(removed, Confirm(id, o.buyerId, u));
    RunStep(removed + [Confirm(id, o.buyerId, u)], Confirm(id, o.sellerId, v));
    BothConfirm(Run(removed), id, u, v);
  }
}
