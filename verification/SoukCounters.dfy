/** Who made a counter, and who may answer it: a pending counter can be answered by the side that made it. */
module SoukCounters {
  import opened Basics
  import opened SoukModel
  import opened SoukInvariant
  import opened SoukPreservation
  import opened SoukGuarantees
  import opened SoukTermination
  import opened SoukRoles

  /** A counter call of this user that makes the offer `id`. */
  predicate Makes(r: Request, id: Id, userId: UserId) {
    match r
    case CounterOfferCall(newId, _, sellerId, _) => newId == id && sellerId == userId
    case BuyerCounterOfferCall(newId, _, buyerId, _) => newId == id && buyerId == userId
    case _ => false
  }

  /** The run contains such a call that was carried out. */
  ghost predicate MadeBy(calls: seq<Call>, id: Id, userId: UserId) {
    exists i {:trigger Succeeds(calls, i)} :: 0 <= i < |calls| && Makes(calls[i].request, id, userId) && Succeeds(calls, i)
  }

  /** The offer answers an opening bid. */
  predicate OneAncestor(offers: Offers, id: Id) {
    && id in offers && offers[id].parentOfferId.Some?
    && offers[id].parentOfferId.value in offers
    && offers[offers[id].parentOfferId.value].parentOfferId.None?
  }

  /** The offer answers a counter. */
  predicate TwoAncestors(offers: Offers, id: Id) {
    && id in offers && offers[id].parentOfferId.Some?
    && offers[id].parentOfferId.value in offers
    && offers[offers[id].parentOfferId.value].parentOfferId.Some?
  }

  lemma MadeBySnoc(calls: seq<Call>, c: Call, id: Id, userId: UserId)
    ensures MadeBy(calls + [c], id, userId) <==>
      MadeBy(calls, id, userId) || (Makes(c.request, id, userId) && Step(Run(calls), c).Ok?)
  {
    var all := calls + [c];
    assert all[..|calls|] == calls && all[|calls|] == c;
    if MadeBy(all, id, userId) {
      var i :| 0 <= i < |all| && Makes(all[i].request, id, userId) && Succeeds(all, i);
      if i < |calls| {
        assert all[..i] == calls[..i];
        assert Succeeds(calls, i);
      }
    }
    if MadeBy(calls, id, userId) {
      var i :| 0 <= i < |calls| && Makes(calls[i].request, id, userId) && Succeeds(calls, i);
      assert all[..i] == calls[..i];
      assert Succeeds(all, i);
    }
    if Makes(c.request, id, userId) && Step(Run(calls), c).Ok? {
      assert Succeeds(all, |calls|);
    }
  }

  /** What a carried-out counter call made. */
  lemma CounterMakes(w: World, c: Call, id: Id, userId: UserId)
    requires Makes(c.request, id, userId) && Step(w, c).Ok?
    ensures var w' := Next(w, c);
      && id !in w.offers && id in w'.offers
      && w'.offers[id].parentOfferId == Some(c.request.offerId)
      && c.request.offerId in w.offers && c.request.offerId in w'.offers
      && w'.offers[c.request.offerId].parentOfferId == w.offers[c.request.offerId].parentOfferId
      && (c.request.CounterOfferCall? ==> userId == w'.offers[id].sellerId)
      && (c.request.BuyerCounterOfferCall? ==> userId == w'.offers[id].buyerId && TwoAncestors(w'.offers, id))
  {
  }

  /** Ancestry never changes. */
  lemma {:induction false} AncestryFixed(calls: seq<Call>, c: Call, id: Id)
    requires id in Run(calls).offers
    ensures var w := Run(calls);
      var w' := Run(calls + [c]);
      && id in w'.offers && SameThread(w.offers[id], w'.offers[id])
      && w'.offers[id].parentOfferId == w.offers[id].parentOfferId
      && (OneAncestor(w'.offers, id) <==> OneAncestor(w.offers, id))
      && (TwoAncestors(w'.offers, id) <==> TwoAncestors(w.offers, id))
  {
    var w := Run(calls);
    ReachableInv(calls);
    RunStep(calls, c);
    StepGrows(w, c);
    assert Ages(w.offers[id], Next(w, c).offers[id]);
    if w.offers[id].parentOfferId.Some? {
      var p := w.offers[id].parentOfferId.value;
      assert IsChild(w.offers, id, p);
      assert Ages(w.offers[p], Next(w, c).offers[p]);
    }
  }

  lemma {:induction false} MadeStays(calls: seq<Call>, id: Id, userId: UserId)
    requires MadeBy(calls, id, userId)
    ensures id in Run(calls).offers && Run(calls).offers[id].IsParty(userId)
  {
    var before, c := calls[..|calls| - 1], calls[|calls| - 1];
    assert calls == before + [c];
    MadeBySnoc(before, c, id, userId);
    if MadeBy(before, id, userId) {
      MadeStays(before, id, userId);
      AncestryFixed(before, c, id);
    } else {
      CounterMakes(Run(before), c, id, userId);
    }
  }

  // ---------- Authorship ----------

  /** In every run an offer that answers an opening bid was made by its seller, through a carried-out counterOffer. */
  lemma {:induction false} AnswerToBidIsSellers(calls: seq<Call>, id: Id)
    requires OneAncestor(Run(calls).offers, id)
    ensures exists i {:trigger Succeeds(calls, i)} ::
      && 0 <= i < |calls| && Succeeds(calls, i)
      && calls[i].request.CounterOfferCall? && Makes(calls[i].request, id, Run(calls).offers[id].sellerId)
  {
    var before, c := calls[..|calls| - 1], calls[|calls| - 1];
    assert calls == before + [c];
    if id in Run(before).offers {
      AncestryFixed(before, c, id);
      AnswerToBidIsSellers(before, id);
      var i :| 0 <= i < |before| && Succeeds(before, i)
        && before[i].request.CounterOfferCall? && Makes(before[i].request, id, Run(before).offers[id].sellerId);
      assert calls[..i] == before[..i];
      assert Succeeds(calls, i);
    } else {
      NewOfferFrom(Run(before), c, id);
      assert Succeeds(calls, |before|);
    }
  }

  /** In every run a counter that its buyer made has two ancestors. */
  lemma {:induction false} BuyersCounterIsSecond(calls: seq<Call>, id: Id)
    requires id in Run(calls).offers && MadeBy(calls, id, Run(calls).offers[id].buyerId)
    ensures TwoAncestors(Run(calls).offers, id)
  {
    var before, c := calls[..|calls| - 1], calls[|calls| - 1];
    assert calls == before + [c];
    var buyerId := Run(calls).offers[id].buyerId;
    MadeBySnoc(before, c, id, buyerId);
    if MadeBy(before, id, buyerId) {
      MadeStays(before, id, buyerId);
      AncestryFixed(before, c, id);
      BuyersCounterIsSecond(before, id);
    } else {
      ReachableInv(calls);
      CounterMakes(Run(before), c, id, buyerId);
      assert OfferRefs(Run(calls), id);
    }
  }

  /** A counter to a counter leaves the same rows whichever side made it. */
  lemma {:induction false} EitherSideSameRows(w: World, c: Call, id: Id)
    requires c.request.CounterOfferCall? && c.request.newId == id && Step(w, c).Ok?
    requires TwoAncestors(Next(w, c).offers, id)
    ensures var o := Next(w, c).offers[id];
      var mirrored := Call(BuyerCounterOfferCall(id, c.request.offerId, o.buyerId, c.request.amount), c.now);
      Step(w, mirrored) == Step(w, c)
  {
  }

  /** Every state with a counter to a counter is also reached by a run in which the seller did not make it. */
  lemma {:induction false} BuyerCouldHaveMadeIt(calls: seq<Call>, id: Id) returns (other: seq<Call>)
    requires TwoAncestors(Run(calls).offers, id)
    ensures Run(other) == Run(calls) && !MadeBy(other, id, Run(calls).offers[id].sellerId)
  {
    var before, c := calls[..|calls| - 1], calls[|calls| - 1];
    assert calls == before + [c];
    var w, sellerId := Run(before), Run(calls).offers[id].sellerId;
    if id in w.offers {
      AncestryFixed(before, c, id);
      var other' := BuyerCouldHaveMadeIt(before, id);
      other := other' + [c];
      RunStep(other', c);
      MadeBySnoc(other', c, id, sellerId);
      if Makes(c.request, id, sellerId) && Step(w, c).Ok? { CounterMakes(w, c, id, sellerId); }
    } else {
      NewOfferFrom(w, c, id);
      ReachableInv(calls);
      assert OfferRefs(Run(calls), id);
      if MadeBy(before, id, sellerId) { MadeStays(before, id, sellerId); }
      var last := c;
      if c.request.CounterOfferCall? {
        EitherSideSameRows(w, c, id);
        last := Call(BuyerCounterOfferCall(id, c.request.offerId, Run(calls).offers[id].buyerId, c.request.amount), c.now);
      }
      other := before + [last];
      RunStep(before, last);
      MadeBySnoc(before, last, id, sellerId);
      if Makes(last.request, id, sellerId) { CounterMakes(w, last, id, sellerId); }
    }
  }

  /**
   * What the rows tell of a counter's author: every run that ends in these rows had the seller make it, exactly when it
   * has one ancestor. Nothing is said here of its amount, which the buyer may have rewritten.
   */
  lemma {:induction false} AuthorKnownIff(calls: seq<Call>, id: Id)
    requires id in Run(calls).offers && Run(calls).offers[id].parentOfferId.Some?
    ensures (forall other :: Run(other) == Run(calls) ==> MadeBy(other, id, Run(calls).offers[id].sellerId))
      <==> OneAncestor(Run(calls).offers, id)
  {
    ReachableInv(calls);
    assert IsChild(Run(calls).offers, id, Run(calls).offers[id].parentOfferId.value);
    if OneAncestor(Run(calls).offers, id) {
      forall other | Run(other) == Run(calls) ensures MadeBy(other, id, Run(calls).offers[id].sellerId) {
        AnswerToBidIsSellers(other, id);
      }
    } else {
      var other := BuyerCouldHaveMadeIt(calls, id);
    }
  }

  // ---------- Answers to counters, the maker's own included ----------

  lemma {:induction false} PendingCounter(calls: seq<Call>, id: Id)
    requires id in Run(calls).offers && Run(calls).offers[id].status.Pending? && Run(calls).offers[id].parentOfferId.Some?
    ensures OnActiveListing(Run(calls), Run(calls).offers[id]) && !Run(calls).offers[id].HasHold()
  {
    ReachableInv(calls);
    assert IsChild(Run(calls).offers, id, Run(calls).offers[id].parentOfferId.value);
    assert BidOk(Run(calls), id) && OfferRefs(Run(calls), id);
  }

  /** Either party can accept a pending counter, whoever made it, exactly when their profile is complete. */
  lemma {:induction false} EitherSideAccepts(calls: seq<Call>, id: Id, profileComplete: bool, now: Time)
    requires id in Run(calls).offers && Run(calls).offers[id].status.Pending? && Run(calls).offers[id].parentOfferId.Some?
    ensures var o := Run(calls).offers[id];
      && (AcceptOffer(Run(calls), id, o.sellerId, profileComplete, now).Ok? <==> profileComplete)
      && (BuyerAcceptCounter(Run(calls), id, o.buyerId, profileComplete, now).Ok? <==> profileComplete)
      && DeclineOffer(Run(calls), id, o.sellerId, now).Ok?
      && BuyerDeclineCounter(Run(calls), id, o.buyerId, now).Ok?
  {
    PendingCounter(calls, id);
  }

  lemma {:induction false} RoomForOneMore(offers: Offers, id: Id)
    requires OneAncestor(offers, id) || TwoAncestors(offers, id)
    ensures CounterDepthAllowed(offers, offers[id].parentOfferId) <==> OneAncestor(offers, id)
  {
    var up := offers[id].parentOfferId;
    var above := offers[up.value].parentOfferId;
    assert BoundedDepth(offers, up, 4) == 1 + BoundedDepth(offers, above, 3);
  }

  /** Either party can counter a counter exactly when that is pending and answers a bid, at a new id and within the band. */
  lemma {:induction false} CounterAgainIff(calls: seq<Call>, id: Id, newId: Id, amount: int, now: Time)
    requires id in Run(calls).offers && Run(calls).offers[id].parentOfferId.Some?
    ensures var w := Run(calls);
      var o := w.offers[id];
      var allowed :=
        && o.status.Pending? && OneAncestor(w.offers, id) && newId !in w.offers
        && o.listingId in w.listings && InBand(amount, w.listings[o.listingId].askingPrice);
      && (CounterOffer(w, newId, id, o.sellerId, amount, now).Ok? <==> allowed)
      && (BuyerCounterOffer(w, newId, id, o.buyerId, amount, now).Ok? <==> allowed)
  {
    var w := Run(calls);
    ReachableInv(calls);
    assert IsChild(w.offers, id, w.offers[id].parentOfferId.value);
    assert OfferRefs(w, id);
    if w.offers[id].status.Pending? { PendingCounter(calls, id); }
    RoomForOneMore(w.offers, id);
    BandMeaning(amount, w.listings[w.offers[id].listingId].askingPrice);
  }

  /** A buyer never counters its own counter. */
  lemma {:induction false} BuyerNeverCountersOwn(calls: seq<Call>, id: Id, newId: Id, amount: int, now: Time)
    requires id in Run(calls).offers && MadeBy(calls, id, Run(calls).offers[id].buyerId)
    ensures BuyerCounterOffer(Run(calls), newId, id, Run(calls).offers[id].buyerId, amount, now).Err?
  {
    BuyersCounterIsSecond(calls, id);
    CounterAgainIff(calls, id, newId, amount, now);
  }

  // ---------- Witnesses ----------

  const OPENING: seq<Call> := [
    Call(CreateListingCall(0, 1, 100, SellerGate(Some(100), 20, true, true)), 0),
    Call(CreateOfferCall(1, 2, 0, 60, None), 1),
    Call(CounterOfferCall(2, 1, 1, 90), 2)
  ]

  const BUYERS_ANSWER := Call(BuyerCounterOfferCall(3, 2, 2, 80), 3)

  /** The rows after the seller's counter. */
  lemma OpeningRows()
    ensures var w := Run(OPENING);
      && w.listings == map[0 := Listing(1, 100, Active)]
      && w.offers == map[1 := Offer(0, 2, 1, 60, Countered, None, None, 2), 2 := Offer(0, 2, 1, 90, Pending, Some(1), None, 2)]
  {
    var c0, c1, c2 := OPENING[0], OPENING[1], OPENING[2];
    assert [c0][..0] == [] && [c0, c1][..1] == [c0] && OPENING[..2] == [c0, c1];
    assert Run([c0]).listings == map[0 := Listing(1, 100, Active)] && Run([c0]).offers == map[];
    assert Run([c0, c1]).offers == map[1 := Offer(0, 2, 1, 60, Pending, None, None, 1)];
  }

  /** A run in which the seller accepts the counter it made itself. */
  lemma {:induction false} SellerAcceptsOwnCounter()
    ensures exists calls, id, sellerId, now ::
      MadeBy(calls, id, sellerId) && AcceptOffer(Run(calls), id, sellerId, true, now).Ok?
  {
    OpeningRows();
    assert Succeeds(OPENING, 2);
    EitherSideAccepts(OPENING, 2, true, 3);
    assert MadeBy(OPENING, 2, 1) && AcceptOffer(Run(OPENING), 2, 1, true, 3).Ok?;
  }

  /** A run in which the buyer accepts the counter it made itself, at a price the seller never agreed to. */
  lemma {:induction false} BuyerAcceptsOwnCounter()
    ensures exists calls, id, buyerId, now ::
      MadeBy(calls, id, buyerId) && BuyerAcceptCounter(Run(calls), id, buyerId, true, now).Ok?
  {
    OpeningRows();
    var calls := OPENING + [BUYERS_ANSWER];
    RunStep(OPENING, BUYERS_ANSWER);
    CounterAgainIff(OPENING, 2, 3, 80, 3);
    MadeBySnoc(OPENING, BUYERS_ANSWER, 3, 2);
    EitherSideAccepts(calls, 3, true, 4);
    assert MadeBy(calls, 3, 2) && BuyerAcceptCounter(Run(calls), 3, 2, true, 4).Ok?;
  }
}
