/** What an accept does to the buyer's tokens, read off the columns. */
module SoukHolds {
  import opened Basics
  import L = TokenLedger
  import opened SoukModel
  import opened SoukInvariant
  import opened SoukPreservation
  import opened SoukAdmission

  /** Everything an accept asks for but the tokens. */
  predicate AllButTokens(w: World, r: Request) {
    match r
    case AcceptOfferCall(id, u, complete) => MaySettle(w, id, u) && complete
    case BuyerAcceptCounterCall(id, u, complete) => MayAnswerCounter(w, id, u) && complete
    case _ => false
  }

  /** Taking the price of a hold from the buyer's individual balance, in the name of the offer. */
  ghost predicate Paid(l: L.Ledger, l': L.Ledger, buyerId: UserId, price: int, id: Id) {
    && buyerId in l.wallets && buyerId in l'.wallets
    && l'.wallets[buyerId].individual == l.wallets[buyerId].individual - price
    && l'.wallets[buyerId].business == l.wallets[buyerId].business
    && l'.wallets.Keys == l.wallets.Keys && (forall u | u in l.wallets && u != buyerId :: l'.wallets[u] == l.wallets[u])
    && l'.transactions == l.transactions + [L.Transaction(buyerId, "SOUK_OFFER_HOLD", L.Individual, -price, Some(id))]
    && l'.pricing == l.pricing && l'.allocations == l.allocations
  }

  /**
   * In every reachable state, once the other guards of an accept pass: with a positive hold it goes through exactly when
   * the activity is priced and active and the buyer's wallet exists with at least the price, and takes that price; without
   * one it goes through and touches no token. Otherwise the answer is that the hold failed, and nothing is written.
   */
  lemma {:induction false} HoldDecides(calls: seq<Call>, c: Call)
    requires AllButTokens(Run(calls), c.request)
    ensures var w := Run(calls);
      var id := c.request.offerId;
      var o := w.offers[id];
      var positive := o.tokenHoldAmount.Some? && o.tokenHoldAmount.value > 0;
      var payable :=
        && "SOUK_OFFER_HOLD" in w.ledger.pricing && w.ledger.pricing["SOUK_OFFER_HOLD"].isActive
        && o.buyerId in w.ledger.wallets
        && w.ledger.wallets[o.buyerId].individual >= w.ledger.pricing["SOUK_OFFER_HOLD"].cost;
      && (Step(w, c).Ok? <==> (positive ==> payable))
      && (Step(w, c).Ok? && positive ==>
            Paid(w.ledger, Next(w, c).ledger, o.buyerId, w.ledger.pricing["SOUK_OFFER_HOLD"].cost, id))
      && (Step(w, c).Ok? && !positive ==> Next(w, c).ledger == w.ledger)
      && (Step(w, c).Ok? ==> id in Next(w, c).offers && Next(w, c).offers[id].status == Accepted)
      && (Step(w, c).Err? ==> Step(w, c) == Err(TokenHoldFailed) && Next(w, c) == w)
  {
    ReachableInv(calls);
    OpenOffer(Run(calls), c.request.offerId);
  }
}
