/** Whose price a deal closes at: the buyer of an offer may rewrite its amount, the seller's counter included. */
module SoukPrices {
  import opened Basics
  import opened SoukModel
  import opened SoukInvariant
  import opened SoukPreservation
  import opened SoukTermination
  import opened SoukRoles
  import opened SoukCounters

  /** The i-th call of the run was carried out and made the offer. */
  ghost predicate Made(calls: seq<Call>, i: nat, id: Id)
    requires i < |calls|
  {
    KindOf(calls[i].request) == NewOfferKind && calls[i].request.newId == id && Succeeds(calls, i)
  }

  /** An edit of the offer that names a new amount. */
  predicate Reprices(r: Request, id: Id) {
    r.UpdateOfferCall? && r.offerId == id && r.newAmount.Some?
  }

  /** The amount that the last carried-out edit of the offer named, if there was one. */
  function Rewritten(calls: seq<Call>, id: Id): Option<int> {
    if calls == [] then None
    else
      var before, c := calls[..|calls| - 1], calls[|calls| - 1];
      if Reprices(c.request, id) && Step(Run(before), c).Ok? then c.request.newAmount else Rewritten(before, id)
  }

  lemma RewrittenSnoc(calls: seq<Call>, c: Call, id: Id)
    ensures Rewritten(calls + [c], id) ==
      if Reprices(c.request, id) && Step(Run(calls), c).Ok? then c.request.newAmount else Rewritten(calls, id)
  {
    assert (calls + [c])[..|calls|] == calls;
  }

  lemma {:induction false} RewrittenPresent(calls: seq<Call>, id: Id)
    requires Rewritten(calls, id).Some?
    ensures id in Run(calls).offers
  {
    var before, c := calls[..|calls| - 1], calls[|calls| - 1];
    assert calls == before + [c];
    if !(Reprices(c.request, id) && Step(Run(before), c).Ok?) { RewrittenPresent(before, id); }
    AncestryFixed(before, c, id);
  }

  /** Only an edit that names an amount changes the amount, to what it names. */
  lemma {:induction false} StepAmount(w: World, c: Call, id: Id)
    requires id in w.offers && id in Next(w, c).offers
    ensures Next(w, c).offers[id].amount ==
      if Reprices(c.request, id) && Step(w, c).Ok? then c.request.newAmount.value else w.offers[id].amount
  {
    match KindOf(c.request)
    case RetireKind =>
    case NewOfferKind => CounterSamePrice(w, c, id);
    case DisputeKind => OtherwiseSameOffers(w, c);
    case TokenKind => OtherwiseSameOffers(w, c);
    case _ => OtherwiseSamePrice(w, c, id);
  }

  lemma NewAmount(w: World, c: Call, id: Id)
    requires KindOf(c.request) == NewOfferKind && c.request.newId == id && Step(w, c).Ok?
    ensures id !in w.offers && id in Next(w, c).offers && Next(w, c).offers[id].amount == c.request.amount
  {
  }

  /** In every run the amount of an offer is the one its last edit named, or else the one it was made with. */
  lemma {:induction false} AmountIsLastNamed(calls: seq<Call>, i: nat, id: Id)
    requires i < |calls| && Made(calls, i, id)
    ensures id in Run(calls).offers
    ensures Run(calls).offers[id].amount ==
      match Rewritten(calls, id)
      case None => calls[i].request.amount
      case Some(a) => a
    decreases |calls|
  {
    var before, c := calls[..|calls| - 1], calls[|calls| - 1];
    assert calls == before + [c];
    if i == |before| {
      assert calls[..i] == before;
      NewAmount(Run(before), c, id);
      if Rewritten(before, id).Some? { RewrittenPresent(before, id); }
    } else {
      assert before[..i] == calls[..i];
      assert Made(before, i, id);
      AmountIsLastNamed(before, i, id);
      AncestryFixed(before, c, id);
      StepAmount(Run(before), c, id);
    }
  }

  /** The i-th call is the seller's counter that made the offer. */
  ghost predicate SellersCounter(calls: seq<Call>, i: nat, id: Id)
    requires i < |calls|
  {
    && calls[i].request.CounterOfferCall? && Made(calls, i, id)
    && id in Run(calls).offers && calls[i].request.sellerId == Run(calls).offers[id].sellerId
  }

  /** The seller made the offer, as a counter at this amount. */
  ghost predicate SellerNamed(calls: seq<Call>, id: Id, amount: int) {
    exists i :: 0 <= i < |calls| && SellersCounter(calls, i, id) && calls[i].request.amount == amount
  }

  /**
   * In every run an answer to a bid was made at one amount, its seller's, and stands at that amount exactly when the buyer
   * never named another one or last named that very amount.
   */
  lemma {:induction false} SellersPriceIff(calls: seq<Call>, id: Id)
    requires OneAncestor(Run(calls).offers, id)
    ensures exists x :: SellerNamed(calls, id, x)
    ensures forall x | SellerNamed(calls, id, x) ::
      Run(calls).offers[id].amount == x <==> Rewritten(calls, id).None? || Rewritten(calls, id).value == x
  {
    AnswerToBidIsSellers(calls, id);
    var i :| 0 <= i < |calls| && Succeeds(calls, i)
      && calls[i].request.CounterOfferCall? && Makes(calls[i].request, id, Run(calls).offers[id].sellerId);
    assert SellersCounter(calls, i, id);
    assert SellerNamed(calls, id, calls[i].request.amount);
    forall x | SellerNamed(calls, id, x)
      ensures Run(calls).offers[id].amount == x <==> Rewritten(calls, id).None? || Rewritten(calls, id).value == x
    {
      var j :| 0 <= j < |calls| && SellersCounter(calls, j, id) && calls[j].request.amount == x;
      AmountIsLastNamed(calls, j, id);
    }
  }

  const BUYERS_EDIT := Call(UpdateOfferCall(2, 2, Some(50), false), 3)

  const BUYERS_ACCEPT := Call(BuyerAcceptCounterCall(2, 2, true), 4)

  /** A run in which the buyer accepts the seller's counter at a price the seller never named: made at 90, closed at 50. */
  lemma {:induction false} ClosedBelowCounter()
    ensures var w := Run(OPENING + [BUYERS_EDIT] + [BUYERS_ACCEPT]);
      && OPENING[2].request == CounterOfferCall(2, 1, 1, 90) && Succeeds(OPENING, 2)
      && OneAncestor(w.offers, 2) && w.offers[2].status == Accepted && w.offers[2].amount == 50
  {
    OpeningRows();
    RunStep(OPENING, BUYERS_EDIT);
    RunStep(OPENING + [BUYERS_EDIT], BUYERS_ACCEPT);
    EitherSideAccepts(OPENING + [BUYERS_EDIT], 2, true, 4);
  }

  // ---------- A counter at any amount ----------

  /** The same rows with another amount on one offer. */
  function Repriced(w: World, id: Id, amount: int): World
    requires id in w.offers
  {
    SetOffer(w, id, w.offers[id].(amount := amount))
  }

  function AskPrice(w: World, l: Id, price: int, now: Time): Call
    requires l in w.listings
  {
    Call(UpdateListingCall(l, w.listings[l].sellerId, Some(price)), now)
  }

  /** While the seller asks for twice the amount, anything from the amount to its triple is in the band. */
  lemma AskingTwice(amount: int, x: int)
    requires 0 < amount <= x <= 3 * amount
    ensures AssertAmountInBand(x, 2 * amount).None?
  {
  }

  function CounterAt(c: Call, x: int): Call
    requires c.request.CounterOfferCall?
  {
    Call(CounterOfferCall(c.request.newId, c.request.offerId, c.request.sellerId, x), c.now)
  }

  /** Raising the asking price for the time of one counter lets it name any amount, and leaves no trace. */
  lemma {:induction false} CounterWhileRaised(w: World, c: Call, x: int, ask: int)
    requires Inv(w) && c.request.CounterOfferCall? && Step(w, c).Ok? && AssertAmountInBand(x, ask).None?
    ensures var l := w.offers[c.request.offerId].listingId;
      && l in w.listings
      && var raised := Next(w, AskPrice(w, l, ask, c.now));
      && var countered := Next(raised, CounterAt(c, x));
      && Step(raised, CounterAt(c, x)).Ok?
      && Next(countered, AskPrice(w, l, w.listings[l].askingPrice, c.now)) == Repriced(Next(w, c), c.request.newId, x)
  {
    assert OfferRefs(w, c.request.offerId);
    var l := w.offers[c.request.offerId].listingId;
    var raised := Next(w, AskPrice(w, l, ask, c.now));
    assert raised == w.(listings := w.listings[l := w.listings[l].(askingPrice := ask)]);
    assert Next(raised, CounterAt(c, x)).offers == Repriced(Next(w, c), c.request.newId, x).offers;
    assert raised.listings[l := raised.listings[l].(askingPrice := w.listings[l].askingPrice)] == w.listings;
  }

  lemma {:induction false} SellersCounterSnoc(calls: seq<Call>, c: Call, i: nat, id: Id)
    requires i < |calls| && SellersCounter(calls, i, id)
    ensures SellersCounter(calls + [c], i, id)
  {
    assert (calls + [c])[..i] == calls[..i];
    AncestryFixed(calls, c, id);
  }

  lemma {:induction false} SellerNamedSnoc(calls: seq<Call>, c: Call, id: Id, amount: int)
    requires SellerNamed(calls, id, amount)
    ensures SellerNamed(calls + [c], id, amount)
  {
    var i :| 0 <= i < |calls| && SellersCounter(calls, i, id) && calls[i].request.amount == amount;
    SellersCounterSnoc(calls, c, i, id);
    assert (calls + [c])[i] == calls[i];
  }

  lemma {:induction false} SellerNames(calls: seq<Call>, c: Call)
    requires c.request.CounterOfferCall? && Step(Run(calls), c).Ok?
    ensures SellerNamed(calls + [c], c.request.newId, c.request.amount)
  {
    var all, id := calls + [c], c.request.newId;
    assert all[..|calls|] == calls && all[|calls|] == c;
    CounterMakes(Run(calls), c, id, c.request.sellerId);
    assert SellersCounter(all, |calls|, id);
  }

  lemma RunThree(calls: seq<Call>, a: Call, b: Call, c: Call)
    ensures Run(calls + [a] + [b] + [c]) == Next(Next(Next(Run(calls), a), b), c)
  {
    RunStep(calls, a);
    RunStep(calls + [a], b);
    RunStep(calls + [a] + [b], c);
  }

  lemma {:induction false} NotRewrittenByThree(calls: seq<Call>, a: Call, b: Call, c: Call, id: Id)
    requires id !in Run(calls).offers
    requires !Reprices(a.request, id) && !Reprices(b.request, id) && !Reprices(c.request, id)
    ensures Rewritten(calls + [a] + [b] + [c], id).None?
  {
    RewrittenSnoc(calls, a, id);
    RewrittenSnoc(calls + [a], b, id);
    RewrittenSnoc(calls + [a] + [b], c, id);
    if Rewritten(calls, id).Some? { RewrittenPresent(calls, id); }
  }

  /** The seller could have made the counter at any amount. */
  lemma {:induction false} MadeAt(before: seq<Call>, c: Call, x: int) returns (other: seq<Call>)
    requires c.request.CounterOfferCall? && Step(Run(before), c).Ok? && x > 0
    ensures c.request.newId in Next(Run(before), c).offers
    ensures Run(other) == Repriced(Next(Run(before), c), c.request.newId, x)
    ensures Rewritten(other, c.request.newId).None? && SellerNamed(other, c.request.newId, x)
  {
    ReachableInv(before);
    AskingTwice(x, x);
    CounterWhileRaised(Run(before), c, x, 2 * x);
    var l := Run(before).offers[c.request.offerId].listingId;
    var raise, restore := AskPrice(Run(before), l, 2 * x, c.now), AskPrice(Run(before), l, Run(before).listings[l].askingPrice, c.now);
    other := before + [raise] + [CounterAt(c, x)] + [restore];
    RunThree(before, raise, CounterAt(c, x), restore);
    NotRewrittenByThree(before, raise, CounterAt(c, x), restore, c.request.newId);
    RunStep(before, raise);
    SellerNames(before + [raise], CounterAt(c, x));
    SellerNamedSnoc(before + [raise] + [CounterAt(c, x)], restore, c.request.newId, x);
  }

  // ---------- No guard reads an amount ----------

  /** The outcome on repriced rows is the repriced outcome. */
  ghost predicate Blind(o: Outcome, r: Outcome, id: Id, a: int) {
    match o
    case Err(e) => r == Err(e)
    case Ok(w) => id in w.offers && r == Ok(Repriced(w, id, a))
  }

  lemma SweepBlind(offers: Offers, id: Id, o: Offer, l: Id, spared: set<Id>, verdict: OfferStatus, now: Time)
    requires id in offers && o == offers[id].(amount := o.amount)
    ensures CloseBids(offers[id := o], l, spared, verdict, now)
         == CloseBids(offers, l, spared, verdict, now)[id := CloseBids(offers, l, spared, verdict, now)[id].(amount := o.amount)]
  {
  }

  lemma DeleteBlind(w: World, id: Id, a: int, l: Id, sellerId: UserId, now: Time)
    requires id in w.offers
    ensures Blind(DeleteListing(w, l, sellerId, now), DeleteListing(Repriced(w, id, a), l, sellerId, now), id, a)
  {
    SweepBlind(w.offers, id, w.offers[id].(amount := a), l, {}, Expired, now);
  }

  lemma {:induction false} CommitBlind(w: World, id: Id, a: int, offerId: Id, spared: set<Id>, now: Time)
    requires id in w.offers && offerId in w.offers
    ensures CommitAccept(Repriced(w, id, a), offerId, spared, now) == Repriced(CommitAccept(w, offerId, spared, now), id, a)
  {
    var l := w.offers[offerId].listingId;
    SweepBlind(w.offers, id, w.offers[id].(amount := a), l, spared + {offerId}, Declined, now);
    var swept := CloseBids(w.offers, l, spared + {offerId}, Declined, now);
    SetBlind(w.(offers := swept), id, a, offerId, w.offers[offerId].Become(Accepted, now));
  }

  lemma ChargeAndAcceptBlind(w: World, id: Id, a: int, offerId: Id, spared: set<Id>, now: Time)
    requires id in w.offers && offerId in w.offers
    ensures Blind(ChargeAndAccept(w, offerId, spared, now), ChargeAndAccept(Repriced(w, id, a), offerId, spared, now), id, a)
  {
    match ChargeHold(w.ledger, offerId, w.offers[offerId])
    case Err(_) =>
    case Ok(ledger) => CommitBlind(w.(ledger := ledger), id, a, offerId, spared, now);
  }

  lemma AcceptBlind(w: World, id: Id, a: int, offerId: Id, sellerId: UserId, complete: bool, now: Time)
    requires id in w.offers
    ensures Blind(AcceptOffer(w, offerId, sellerId, complete, now), AcceptOffer(Repriced(w, id, a), offerId, sellerId, complete, now), id, a)
  {
    if offerId in w.offers { ChargeAndAcceptBlind(w, id, a, offerId, {}, now); }
  }

  lemma BuyerAcceptBlind(w: World, id: Id, a: int, offerId: Id, buyerId: UserId, complete: bool, now: Time)
    requires id in w.offers
    ensures Blind(BuyerAcceptCounter(w, offerId, buyerId, complete, now),
                  BuyerAcceptCounter(Repriced(w, id, a), offerId, buyerId, complete, now), id, a)
  {
    if offerId in w.offers && w.offers[offerId].parentOfferId.Some? {
      ChargeAndAcceptBlind(w, id, a, offerId, {w.offers[offerId].parentOfferId.value}, now);
    }
  }

  /** Writing one offer with everything but its amount fixed. */
  lemma SetBlind(w: World, id: Id, a: int, offerId: Id, o: Offer)
    requires id in w.offers
    ensures Repriced(SetOffer(w, offerId, o), id, a) ==
      SetOffer(Repriced(w, id, a), offerId, if offerId == id then o.(amount := a) else o)
  {
    assert Repriced(SetOffer(w, offerId, o), id, a).offers
        == SetOffer(Repriced(w, id, a), offerId, if offerId == id then o.(amount := a) else o).offers;
  }

  lemma DeclineBlind(w: World, id: Id, a: int, offerId: Id, sellerId: UserId, now: Time)
    requires id in w.offers
    ensures Blind(DeclineOffer(w, offerId, sellerId, now), DeclineOffer(Repriced(w, id, a), offerId, sellerId, now), id, a)
  {
    if offerId in w.offers { SetBlind(w, id, a, offerId, w.offers[offerId].Become(Declined, now)); }
  }

  lemma BuyerDeclineBlind(w: World, id: Id, a: int, offerId: Id, buyerId: UserId, now: Time)
    requires id in w.offers
    ensures Blind(BuyerDeclineCounter(w, offerId, buyerId, now), BuyerDeclineCounter(Repriced(w, id, a), offerId, buyerId, now), id, a)
  {
    if offerId in w.offers { SetBlind(w, id, a, offerId, w.offers[offerId].Become(Declined, now)); }
  }

  lemma WithdrawBlind(w: World, id: Id, a: int, offerId: Id, buyerId: UserId, now: Time)
    requires id in w.offers
    ensures Blind(WithdrawOffer(w, offerId, buyerId, now), WithdrawOffer(Repriced(w, id, a), offerId, buyerId, now), id, a)
  {
    if offerId in w.offers { SetBlind(w, id, a, offerId, w.offers[offerId].Become(Withdrawn, now)); }
  }

  lemma EditBlind(w: World, id: Id, a: int, offerId: Id, buyerId: UserId, amount: Option<int>, editsNote: bool, now: Time)
    requires id in w.offers && (offerId != id || amount.None?)
    ensures Blind(UpdateOffer(w, offerId, buyerId, amount, editsNote, now),
                  UpdateOffer(Repriced(w, id, a), offerId, buyerId, amount, editsNote, now), id, a)
  {
    if offerId in w.offers {
      var o := w.offers[offerId];
      SetBlind(w, id, a, offerId, if amount.Some? then o.(amount := amount.value, updatedAt := now) else o.(updatedAt := now));
    }
  }

  /** An edit that names an amount, on repriced rows, leaves the trace of one that names none. */
  lemma EditAsNote(w: World, id: Id, a: int, buyerId: UserId, amount: int, editsNote: bool, now: Time)
    requires id in w.offers && UpdateOffer(w, id, buyerId, Some(amount), editsNote, now).Ok?
    ensures UpdateOffer(Repriced(w, id, a), id, buyerId, None, true, now)
         == Ok(Repriced(UpdateOffer(w, id, buyerId, Some(amount), editsNote, now).value, id, a))
  {
    SetBlind(w, id, a, id, w.offers[id].(amount := amount, updatedAt := now));
  }

  lemma {:induction false} DepthBlind(offers: Offers, id: Id, o: Offer, cursor: Option<Id>, fuel: nat)
    requires id in offers && o.parentOfferId == offers[id].parentOfferId
    ensures BoundedDepth(offers[id := o], cursor, fuel) == BoundedDepth(offers, cursor, fuel)
    decreases fuel
  {
    if fuel > 0 && cursor.Some? {
      DepthBlind(offers, id, o, if cursor.value in offers then offers[cursor.value].parentOfferId else None, fuel - 1);
    }
  }

  lemma BidBlind(w: World, id: Id, a: int, newId: Id, buyerId: UserId, l: Id, amount: int, hold: Option<int>, now: Time)
    requires id in w.offers
    ensures Blind(CreateOffer(w, newId, buyerId, l, amount, hold, now),
                  CreateOffer(Repriced(w, id, a), newId, buyerId, l, amount, hold, now), id, a)
  {
    var r := Repriced(w, id, a);
    assert forall i | i in w.offers :: r.offers[i].(amount := 0) == w.offers[i].(amount := 0);
    assert HasPendingBid(r.offers, l, buyerId) <==> HasPendingBid(w.offers, l, buyerId);
    if CreateOffer(w, newId, buyerId, l, amount, hold, now).Ok? {
      SetBlind(w, id, a, newId, CreateOffer(w, newId, buyerId, l, amount, hold, now).value.offers[newId]);
    }
  }

  lemma {:induction false} CounterBlind(w: World, id: Id, a: int, newId: Id, parentId: Id, amount: int, now: Time)
    requires id in w.offers && parentId in w.offers
    ensures Blind(Counter(w, newId, parentId, amount, now), Counter(Repriced(w, id, a), newId, parentId, amount, now), id, a)
  {
    var r := Repriced(w, id, a);
    DepthBlind(w.offers, id, r.offers[id], w.offers[parentId].parentOfferId, MAX_COUNTER_DEPTH + 2);
    if Counter(w, newId, parentId, amount, now).Ok? {
      assert Counter(r, newId, parentId, amount, now).value.offers
          == Repriced(Counter(w, newId, parentId, amount, now).value, id, a).offers;
    }
  }

  lemma ConfirmBlind(w: World, id: Id, a: int, offerId: Id, userId: UserId, now: Time)
    requires id in w.offers
    ensures Blind(ConfirmHandover(w, offerId, userId, now), ConfirmHandover(Repriced(w, id, a), offerId, userId, now), id, a)
  {
    if offerId in w.offers {
      SetBlind(w, id, a, offerId, w.offers[offerId].Become(Confirmed, now));
      SetBlind(w, id, a, offerId, w.offers[offerId].Become(HandoverPending, now));
    }
  }

  lemma CancelBlind(w: World, id: Id, a: int, offerId: Id, userId: UserId, now: Time)
    requires id in w.offers
    ensures Blind(CancelOffer(w, offerId, userId, now), CancelOffer(Repriced(w, id, a), offerId, userId, now), id, a)
  {
    if offerId in w.offers { SetBlind(w, id, a, offerId, w.offers[offerId].Become(Cancelled, now)); }
  }

  lemma DisputeBlind(w: World, id: Id, a: int, newId: Id, offerId: Id, userId: UserId, now: Time)
    requires id in w.offers
    ensures Blind(CreateDispute(w, newId, offerId, userId, now), CreateDispute(Repriced(w, id, a), newId, offerId, userId, now), id, a)
  {
  }

  lemma MoneyBlind(w: World, c: Call, id: Id, a: int)
    requires KindOf(c.request) == TokenKind && id in w.offers
    ensures Blind(Step(w, c), Step(Repriced(w, id, a), c), id, a)
  {
  }

  lemma ListingBlind(w: World, c: Call, id: Id, a: int)
    requires KindOf(c.request) == ListingKind && id in w.offers
    ensures Blind(Step(w, c), Step(Repriced(w, id, a), c), id, a)
  {
    if c.request.DeleteListingCall? { DeleteBlind(w, id, a, c.request.listingId, c.request.sellerId, c.now); }
  }

  lemma AnswerBlind(w: World, c: Call, id: Id, a: int)
    requires KindOf(c.request) == RetireKind && !Reprices(c.request, id) && id in w.offers
    ensures Blind(Step(w, c), Step(Repriced(w, id, a), c), id, a)
  {
    match c.request
    case DeclineOfferCall(o, u) => DeclineBlind(w, id, a, o, u, c.now);
    case BuyerDeclineCounterCall(o, u) => BuyerDeclineBlind(w, id, a, o, u, c.now);
    case WithdrawOfferCall(o, u) => WithdrawBlind(w, id, a, o, u, c.now);
    case UpdateOfferCall(o, u, amount, note) => EditBlind(w, id, a, o, u, amount, note, c.now);
  }

  lemma NewOfferBlind(w: World, c: Call, id: Id, a: int)
    requires KindOf(c.request) == NewOfferKind && id in w.offers
    ensures Blind(Step(w, c), Step(Repriced(w, id, a), c), id, a)
  {
    match c.request
    case CreateOfferCall(newId, u, l, amount, hold) => BidBlind(w, id, a, newId, u, l, amount, hold, c.now);
    case CounterOfferCall(newId, o, _, amount) => if o in w.offers { CounterBlind(w, id, a, newId, o, amount, c.now); }
    case BuyerCounterOfferCall(newId, o, _, amount) => if o in w.offers { CounterBlind(w, id, a, newId, o, amount, c.now); }
  }

  lemma DealBlind(w: World, c: Call, id: Id, a: int)
    requires (KindOf(c.request) == AcceptKind || KindOf(c.request) == HandoverKind) && id in w.offers
    ensures Blind(Step(w, c), Step(Repriced(w, id, a), c), id, a)
  {
    match c.request
    case AcceptOfferCall(o, u, complete) => AcceptBlind(w, id, a, o, u, complete, c.now);
    case BuyerAcceptCounterCall(o, u, complete) => BuyerAcceptBlind(w, id, a, o, u, complete, c.now);
    case ConfirmHandoverCall(o, u) => ConfirmBlind(w, id, a, o, u, c.now);
    case CancelOfferCall(o, u) => CancelBlind(w, id, a, o, u, c.now);
  }

  lemma DisputeCallsBlind(w: World, c: Call, id: Id, a: int)
    requires KindOf(c.request) == DisputeKind && id in w.offers
    ensures Blind(Step(w, c), Step(Repriced(w, id, a), c), id, a)
  {
    if c.request.CreateDisputeCall? { DisputeBlind(w, id, a, c.request.newId, c.request.offerId, c.request.userId, c.now); }
  }

  /** Apart from edits of the offer itself, every call does the same whatever amount the offer stands at. */
  lemma {:induction false} AmountUnread(w: World, c: Call, id: Id, a: int)
    requires !Reprices(c.request, id) && id in w.offers
    ensures Blind(Step(w, c), Step(Repriced(w, id, a), c), id, a)
  {
    match KindOf(c.request)
    case ListingKind => ListingBlind(w, c, id, a);
    case AcceptKind => DealBlind(w, c, id, a);
    case RetireKind => AnswerBlind(w, c, id, a);
    case NewOfferKind => NewOfferBlind(w, c, id, a);
    case HandoverKind => DealBlind(w, c, id, a);
    case DisputeKind => DisputeCallsBlind(w, c, id, a);
    case TokenKind => MoneyBlind(w, c, id, a);
  }

  // ---------- The rows do not tell ----------

  /** A run to the same rows, but for the amount, in which the seller named this amount and the buyer none. */
  lemma {:induction false} NamedBySeller(calls: seq<Call>, id: Id, a: int) returns (other: seq<Call>)
    requires OneAncestor(Run(calls).offers, id) && a > 0
    ensures Run(other) == Repriced(Run(calls), id, a) && Rewritten(other, id).None? && SellerNamed(other, id, a)
  {
    var before, c := calls[..|calls| - 1], calls[|calls| - 1];
    assert calls == before + [c];
    if id in Run(before).offers {
      AncestryFixed(before, c, id);
      var other' := NamedBySeller(before, id, a);
      other := NamedStill(before, c, other', id, a);
    } else {
      NewOfferFrom(Run(before), c, id);
      other := MadeAt(before, c, a);
    }
  }

  /** An edit by the buyer that named an amount is replaced by one that only touches the note. */
  lemma {:induction false} NamedStill(before: seq<Call>, c: Call, other': seq<Call>, id: Id, a: int) returns (other: seq<Call>)
    requires id in Run(before).offers && Run(other') == Repriced(Run(before), id, a)
    requires Rewritten(other', id).None? && SellerNamed(other', id, a)
    ensures id in Next(Run(before), c).offers && Run(other) == Repriced(Next(Run(before), c), id, a)
    ensures Rewritten(other, id).None? && SellerNamed(other, id, a)
  {
    var w := Run(before);
    if Reprices(c.request, id) && Step(w, c).Err? {
      other := other';
    } else {
      var r := c.request;
      var c' := if Reprices(r, id) then Call(UpdateOfferCall(id, r.buyerId, None, true), c.now) else c;
      if Reprices(r, id) { EditAsNote(w, id, a, r.buyerId, r.newAmount.value, r.editsNote, c.now); } else { AmountUnread(w, c, id, a); }
      other := other' + [c'];
      RunStep(other', c');
      RewrittenSnoc(other', c', id);
      SellerNamedSnoc(other', c', id, a);
    }
  }

  /** The buyer may set the amount of a pending offer back to one that was in the band a moment before. */
  lemma {:induction false} RewriteToOriginal(w: World, c: Call, x: int)
    requires Inv(w) && c.request.CounterOfferCall? && Step(w, c).Ok?
    ensures var id := c.request.newId;
      && id in Next(w, c).offers
      && Next(Repriced(Next(w, c), id, x),
              Call(UpdateOfferCall(id, Next(w, c).offers[id].buyerId, Some(c.request.amount), false), c.now)) == Next(w, c)
  {
    var id, w' := c.request.newId, Next(w, c);
    SetBlind(w', id, x, id, w'.offers[id]);
    assert w'.offers[id := w'.offers[id].(amount := x)][id := w'.offers[id]] == w'.offers;
  }

  /** A run to the very same rows in which the seller named another amount than the one to avoid. */
  lemma {:induction false} RewrittenByBuyer(calls: seq<Call>, id: Id, avoid: int) returns (other: seq<Call>, x: int)
    requires OneAncestor(Run(calls).offers, id)
    ensures Run(other) == Run(calls) && SellerNamed(other, id, x) && x != avoid
  {
    var before, c := calls[..|calls| - 1], calls[|calls| - 1];
    assert calls == before + [c];
    if id in Run(before).offers {
      AncestryFixed(before, c, id);
      var other';
      other', x := RewrittenByBuyer(before, id, avoid);
      other := other' + [c];
      RunStep(other', c);
      SellerNamedSnoc(other', c, id, x);
    } else {
      NewOfferFrom(Run(before), c, id);
      x := if avoid == 1 then 2 else 1;
      var made := MadeAt(before, c, x);
      ReachableInv(before);
      RewriteToOriginal(Run(before), c, x);
      var rewrite := Call(UpdateOfferCall(id, Run(calls).offers[id].buyerId, Some(c.request.amount), false), c.now);
      other := made + [rewrite];
      RunStep(made, rewrite);
      SellerNamedSnoc(made, rewrite, id, x);
    }
  }

  /**
   * The rows never tell whose price an answer to a bid stands at. Whatever the run, the same rows are reached by one in
   * which the seller named the price and the buyer never touched it, and by one in which the seller named another.
   */
  lemma {:induction false} PriceNeverTold(calls: seq<Call>, id: Id)
    requires OneAncestor(Run(calls).offers, id)
    ensures exists other ::
      && Run(other) == Run(calls) && Rewritten(other, id).None? && SellerNamed(other, id, Run(calls).offers[id].amount)
    ensures exists other, x :: Run(other) == Run(calls) && SellerNamed(other, id, x) && x != Run(calls).offers[id].amount
  {
    var w := Run(calls);
    ReachableInv(calls);
    assert OfferRefs(w, id);
    var plain := NamedBySeller(calls, id, w.offers[id].amount);
    assert w.offers[id := w.offers[id]] == w.offers;
    var rewritten, x := RewrittenByBuyer(calls, id, w.offers[id].amount);
  }
}
