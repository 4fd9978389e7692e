/** Every call of the negotiation protocol keeps the invariant. */
module SoukPreservation {
  import opened Basics
  import opened SoukModel
  import opened SoukInvariant

  /** No offer is created, and none becomes COUNTERED (only a counter call does that, and it creates a child). */
  ghost predicate Settles(a: Offers, b: Offers) {
    && a.Keys == b.Keys
    && forall i | i in a :: Ages(a[i], b[i]) && (b[i].status.Countered? ==> a[i].status.Countered?) && b[i].amount > 0
  }

  /** Listings keep their sellers. */
  ghost predicate SameSellers(a: map<Id, Listing>, b: map<Id, Listing>) {
    a.Keys <= b.Keys && forall l | l in a :: a[l].sellerId == b[l].sellerId
  }

  // ---------- Calls that create no offer ----------

  lemma {:induction false} SettlesThreads(a: Offers, b: Offers)
    requires Threads(a) && Settles(a, b)
    ensures Threads(b)
  {
    forall c, p | IsChild(b, c, p) ensures Linked(b, c, p) {
      assert IsChild(a, c, p);
      assert Linked(a, c, p);
      assert Ages(a[p], b[p]) && Ages(a[c], b[c]);
      if b[p].parentOfferId.Some? {
        var g := b[p].parentOfferId.value;
        assert g in a && Ages(a[g], b[g]);
      }
    }
    forall c, d, p | IsChild(b, c, p) && IsChild(b, d, p) ensures c == d {
      assert IsChild(a, c, p) && IsChild(a, d, p);
    }
    forall p | p in b && b[p].status.Countered? ensures HasChild(b, p) {
      assert HasChild(a, p);
      var c :| IsChild(a, c, p);
      assert IsChild(b, c, p);
    }
  }

  lemma {:induction false} SettlesOneBid(a: Offers, b: Offers)
    requires OneBid(a) && Settles(a, b)
    ensures OneBid(b)
  {
    forall i, j, l, u | PendingBid(b, i, l, u) && PendingBid(b, j, l, u) ensures i == j {
      assert PendingBid(a, i, l, u) && PendingBid(a, j, l, u);
    }
  }

  lemma {:induction false} SettlesRest(w: World, w': World)
    requires Inv(w) && Settles(w.offers, w'.offers) && SameSellers(w.listings, w'.listings)
    requires w'.disputes == w.disputes
    ensures Integrity(w') && Threads(w'.offers) && OneBid(w'.offers) && Disputes(w')
  {
    SettlesThreads(w.offers, w'.offers);
    SettlesOneBid(w.offers, w'.offers);
    forall i | i in w'.offers ensures OfferRefs(w', i) {
      assert OfferRefs(w, i);
    }
    forall d | d in w'.disputes ensures DisputeOk(w', d) {
      assert DisputeOk(w, d);
    }
  }

  /** The live offers and the listing statuses are those of before. */
  lemma {:induction false} SameLive(w: World, w': World)
    requires LiveDeals(w) && w.listings.Keys == w'.listings.Keys
    requires forall l | l in w.listings :: w.listings[l].status == w'.listings[l].status
    requires forall i, l :: LiveOn(w.offers, i, l) <==> LiveOn(w'.offers, i, l)
    requires forall i, l :: LiveOn(w'.offers, i, l) && l in w.listings ==> Fits(w.listings[l].status, w'.offers[i].status)
    ensures LiveDeals(w')
  {
    forall l | l in w'.listings && (w'.listings[l].status.Reserved? || w'.listings[l].status.Sold?) ensures HasLive(w'.offers, l) {
      assert HasLive(w.offers, l);
      var i :| LiveOn(w.offers, i, l);
      assert LiveOn(w'.offers, i, l);
    }
  }

  /** Retiring an open offer of an active listing: decline, buyer's decline, withdraw; or editing it. */
  lemma {:induction false} RetireKeeps(w: World, id: Id, offer: Offer)
    requires Inv(w) && id in w.offers && w.offers[id].status.Open() && OnActiveListing(w, w.offers[id])
    requires Ages(w.offers[id], offer) && offer.amount > 0
    requires offer.status == w.offers[id].status || offer.status.Declined? || offer.status.Withdrawn?
    ensures Inv(SetOffer(w, id, offer))
  {
    var w' := SetOffer(w, id, offer);
    assert Settles(w.offers, w'.offers) by {
      forall i | i in w.offers ensures w'.offers[i].amount > 0 { assert OfferRefs(w, i); }
    }
    SettlesRest(w, w');
    SameLive(w, w');
    forall i | i in w'.offers ensures BidOk(w', i) {
      assert BidOk(w, i);
      assert OfferRefs(w, i);
      if w'.offers[i].status.Open() && i != id && !w.listings[w.offers[i].listingId].status.Active? {
        AnswerKept(w.offers, w'.offers, i, w.offers[i].listingId);
      }
    }
    forall i | i in w'.offers ensures HandshakeOk(w', i) { assert HandshakeOk(w, i); }
  }

  lemma AnswerKept(a: Offers, b: Offers, p: Id, l: Id)
    requires p in a && l == a[p].listingId
    requires AnsweredByLive(a, p, l)
    requires forall c | c in a && a[c].listingId == l && a[c].status.Live() ::
               c in b && b[c].listingId == l && b[c].status.Live() && b[c].parentOfferId == a[c].parentOfferId
    ensures AnsweredByLive(b, p, l)
  {
    var c :| IsChild(a, c, p) && LiveOn(a, c, l);
    assert IsChild(b, c, p) && LiveOn(b, c, l);
  }

  lemma LedgerIrrelevant(w: World, w': World)
    requires Inv(w)
    requires w' == w.(ledger := w'.ledger)
    ensures Inv(w')
  {
    forall i | i in w.offers ensures OfferRefs(w', i) && BidOk(w', i) && HandshakeOk(w', i) {
      assert OfferRefs(w, i) && BidOk(w, i) && HandshakeOk(w, i);
    }
    forall d | d in w.disputes ensures DisputeOk(w', d) { assert DisputeOk(w, d); }
    forall l | l in w.listings && (w.listings[l].status.Reserved? || w.listings[l].status.Sold?) ensures HasLive(w'.offers, l) {
      assert HasLive(w.offers, l);
    }
  }

  // ---------- Accept ----------

  lemma NoneLive(w: World, l: Id)
    requires LiveDeals(w) && l in w.listings && w.listings[l].status.Active?
    ensures forall i :: !LiveOn(w.offers, i, l)
  {
  }

  lemma {:induction false} AcceptSettles(w: World, id: Id, spared: set<Id>, now: Time)
    requires Inv(w) && id in w.offers && w.offers[id].status.Open()
    ensures Settles(w.offers, CommitAccept(w, id, spared, now).offers)
  {
    forall i | i in w.offers ensures w.offers[i].amount > 0 { assert OfferRefs(w, i); }
  }

  /** Needs no more than the live deals themselves: not even that the accepted offer is still open. */
  lemma {:induction false} AcceptLive(w: World, id: Id, spared: set<Id>, now: Time)
    requires LiveDeals(w) && id in w.offers && OnActiveListing(w, w.offers[id])
    ensures LiveDeals(CommitAccept(w, id, spared, now))
  {
    var l, w' := w.offers[id].listingId, CommitAccept(w, id, spared, now);
    NoneLive(w, l);
    forall i, k | LiveOn(w'.offers, i, k) ensures (i == id && k == l) || (LiveOn(w.offers, i, k) && k != l && w'.offers[i] == w.offers[i]) {
      if i != id { assert LiveOn(w.offers, i, k); }
    }
    forall k | k in w'.listings && (w'.listings[k].status.Reserved? || w'.listings[k].status.Sold?) ensures HasLive(w'.offers, k) {
      if k == l {
        assert LiveOn(w'.offers, id, l);
      } else {
        assert HasLive(w.offers, k);
        var i :| LiveOn(w.offers, i, k);
        assert LiveOn(w'.offers, i, k);
      }
    }
  }

  /** Whether or not the countered parent is spared, no other bid on the listing stays open. */
  lemma {:induction false} AcceptBids(w: World, id: Id, spared: set<Id>, now: Time)
    requires Inv(w) && id in w.offers && w.offers[id].status.Open() && OnActiveListing(w, w.offers[id])
    requires forall p | p in spared :: IsChild(w.offers, id, p)
    ensures Bidding(CommitAccept(w, id, spared, now))
  {
    var l, w' := w.offers[id].listingId, CommitAccept(w, id, spared, now);
    forall i | i in w'.offers ensures BidOk(w', i) {
      assert BidOk(w, i) && OfferRefs(w, i);
      if w'.offers[i].status.Open() {
        if w.offers[i].listingId == l {
          assert i in spared && IsChild(w.offers, id, i);
          assert Linked(w.offers, id, i);
          assert IsChild(w'.offers, id, i) && LiveOn(w'.offers, id, l);
        } else if !w.listings[w.offers[i].listingId].status.Active? {
          AnswerKept(w.offers, w'.offers, i, w.offers[i].listingId);
        }
      }
    }
  }

  lemma {:induction false} CommitAcceptKeeps(w: World, id: Id, spared: set<Id>, now: Time)
    requires Inv(w) && id in w.offers && w.offers[id].status.Open() && OnActiveListing(w, w.offers[id])
    requires forall p | p in spared :: IsChild(w.offers, id, p)
    ensures Inv(CommitAccept(w, id, spared, now))
  {
    var w' := CommitAccept(w, id, spared, now);
    AcceptSettles(w, id, spared, now);
    SettlesRest(w, w');
    AcceptLive(w, id, spared, now);
    AcceptBids(w, id, spared, now);
    forall i | i in w'.offers ensures HandshakeOk(w', i) { assert HandshakeOk(w, i); }
  }

  lemma {:induction false} ChargeAndAcceptKeeps(w: World, id: Id, spared: set<Id>, now: Time)
    requires Inv(w) && id in w.offers && w.offers[id].status.Open() && OnActiveListing(w, w.offers[id])
    requires forall p | p in spared :: IsChild(w.offers, id, p)
    ensures ChargeAndAccept(w, id, spared, now).Ok? ==> Inv(ChargeAndAccept(w, id, spared, now).value)
  {
    match ChargeHold(w.ledger, id, w.offers[id])
    case Err(_) =>
    case Ok(l) =>
      LedgerIrrelevant(w, w.(ledger := l));
      CommitAcceptKeeps(w.(ledger := l), id, spared, now);
  }

  // ---------- Delete ----------

  lemma {:induction false} DeleteLive(w: World, id: Id, sellerId: UserId, now: Time)
    requires LiveDeals(w) && DeleteListing(w, id, sellerId, now).Ok?
    ensures LiveDeals(DeleteListing(w, id, sellerId, now).value)
  {
    var w' := DeleteListing(w, id, sellerId, now).value;
    forall i, l | LiveOn(w'.offers, i, l) ensures LiveOn(w.offers, i, l) && w.offers[i] == w'.offers[i] {
      assert LiveOn(w.offers, i, l);
    }
    forall l | l in w'.listings && (w'.listings[l].status.Reserved? || w'.listings[l].status.Sold?) ensures HasLive(w'.offers, l) {
      assert HasLive(w.offers, l);
      var i :| LiveOn(w.offers, i, l);
      assert LiveOn(w'.offers, i, l);
    }
  }

  lemma {:induction false} DeleteKeeps(w: World, id: Id, sellerId: UserId, now: Time)
    requires Inv(w) && DeleteListing(w, id, sellerId, now).Ok?
    ensures Inv(DeleteListing(w, id, sellerId, now).value)
  {
    var w' := DeleteListing(w, id, sellerId, now).value;
    assert Settles(w.offers, w'.offers) by {
      forall i | i in w.offers ensures w'.offers[i].amount > 0 { assert OfferRefs(w, i); }
    }
    SettlesRest(w, w');
    DeleteLive(w, id, sellerId, now);
    forall i | i in w'.offers ensures BidOk(w', i) && HandshakeOk(w', i) {
      assert BidOk(w, i) && OfferRefs(w, i) && HandshakeOk(w, i);
      var l := w.offers[i].listingId;
      if w'.offers[i].status.Open() && !w.listings[l].status.Active? {
        AnswerKept(w.offers, w'.offers, i, l);
      }
    }
  }

  // ---------- Handover ----------

  /** One offer in handover moves on to another status, and its listing moves with it. */
  ghost predicate Moves(w: World, w': World, id: Id) {
    && id in w.offers && w.offers[id].status.InHandover() && id in w'.offers
    && w'.offers[id := w.offers[id]] == w.offers
    && w'.offers[id].listingId == w.offers[id].listingId
    && var l := w.offers[id].listingId;
       && l in w.listings && w'.listings.Keys == w.listings.Keys
       && (forall k | k in w.listings && k != l :: w'.listings[k] == w.listings[k])
       && w'.listings[l].sellerId == w.listings[l].sellerId
       && if w'.offers[id].status.Live()
          then
            && Fits(w'.listings[l].status, w'.offers[id].status)
            && (w'.listings[l].status == w.listings[l].status || w'.listings[l].status.Sold?)
          else w'.listings[l].status.Active?
  }

  lemma {:induction false} MoveLive(w: World, w': World, id: Id)
    requires LiveDeals(w) && Moves(w, w', id)
    ensures LiveDeals(w')
  {
    var l := w.offers[id].listingId;
    assert LiveOn(w.offers, id, l);
    forall i, k | LiveOn(w'.offers, i, k) ensures LiveOn(w.offers, i, k) && (k == l ==> i == id) {
      assert LiveOn(w.offers, i, k);
    }
    forall k | k in w'.listings && (w'.listings[k].status.Reserved? || w'.listings[k].status.Sold?) ensures HasLive(w'.offers, k) {
      if k == l {
        assert LiveOn(w'.offers, id, l);
      } else {
        assert HasLive(w.offers, k);
        var i :| LiveOn(w.offers, i, k);
        assert LiveOn(w'.offers, i, k);
      }
    }
  }

  lemma {:induction false} MoveKeeps(w: World, w': World, id: Id)
    requires Inv(w) && Moves(w, w', id)
    requires Ages(w.offers[id], w'.offers[id]) && w'.offers[id].amount == w.offers[id].amount
    requires w'.disputes == w.disputes
    ensures Integrity(w') && Threads(w'.offers) && OneBid(w'.offers) && Disputes(w') && LiveDeals(w') && Bidding(w')
  {
    var l := w.offers[id].listingId;
    assert Settles(w.offers, w'.offers) by {
      forall i | i in w.offers ensures w'.offers[i].amount > 0 { assert OfferRefs(w, i); }
    }
    SettlesRest(w, w');
    MoveLive(w, w', id);
    assert LiveOn(w.offers, id, l);
    forall i | i in w'.offers ensures BidOk(w', i) {
      assert BidOk(w, i) && OfferRefs(w, i);
      var k := w.offers[i].listingId;
      if w'.offers[i].status.Open() && !w'.listings[k].status.Active? {
        assert !w.listings[k].status.Active?;
        AnswerKept(w.offers, w'.offers, i, k);
      }
    }
  }

  lemma {:induction false} ConfirmKeeps(w: World, id: Id, userId: UserId, now: Time)
    requires Inv(w) && ConfirmHandover(w, id, userId, now).Ok?
    ensures Inv(ConfirmHandover(w, id, userId, now).value)
  {
    var w' := ConfirmHandover(w, id, userId, now).value;
    assert OfferRefs(w, id) && HandshakeOk(w, id);
    assert LiveOn(w.offers, id, w.offers[id].listingId);
    assert w'.offers[id := w.offers[id]] == w.offers;
    MoveKeeps(w, w', id);
    forall i | i in w'.offers ensures HandshakeOk(w', i) { assert HandshakeOk(w, i); }
  }

  // ---------- Cancel ----------

  lemma {:induction false} CancelKeeps(w: World, id: Id, callerId: UserId, now: Time)
    requires Inv(w) && CancelOffer(w, id, callerId, now).Ok?
    ensures Inv(CancelOffer(w, id, callerId, now).value)
  {
    var w' := CancelOffer(w, id, callerId, now).value;
    assert OfferRefs(w, id) && HandshakeOk(w, id);
    assert LiveOn(w.offers, id, w.offers[id].listingId);
    assert w'.offers[id := w.offers[id]] == w.offers;
    MoveKeeps(w, w', id);
    forall i | i in w'.offers ensures HandshakeOk(w', i) { assert HandshakeOk(w, i); }
  }

  // ---------- Calls that add rows ----------

  lemma {:induction false} CreateListingKeeps(w: World, newId: Id, sellerId: UserId, askingPrice: int, gate: SellerGate)
    requires Inv(w) && CreateListing(w, newId, sellerId, askingPrice, gate).Ok?
    ensures Inv(CreateListing(w, newId, sellerId, askingPrice, gate).value)
  {
    var w' := CreateListing(w, newId, sellerId, askingPrice, gate).value;
    forall i | i in w.offers ensures OfferRefs(w', i) && BidOk(w', i) && HandshakeOk(w', i) {
      assert OfferRefs(w, i) && BidOk(w, i) && HandshakeOk(w, i);
    }
    forall d | d in w.disputes ensures DisputeOk(w', d) { assert DisputeOk(w, d); }
    forall l | l in w'.listings && (w'.listings[l].status.Reserved? || w'.listings[l].status.Sold?) ensures HasLive(w'.offers, l) {
      assert HasLive(w.offers, l);
    }
  }

  lemma {:induction false} UpdateListingKeeps(w: World, id: Id, sellerId: UserId, askingPrice: Option<int>)
    requires Inv(w) && UpdateListing(w, id, sellerId, askingPrice).Ok?
    ensures Inv(UpdateListing(w, id, sellerId, askingPrice).value)
  {
    var w' := UpdateListing(w, id, sellerId, askingPrice).value;
    forall i | i in w.offers ensures OfferRefs(w', i) && BidOk(w', i) && HandshakeOk(w', i) {
      assert OfferRefs(w, i) && BidOk(w, i) && HandshakeOk(w, i);
    }
    forall d | d in w.disputes ensures DisputeOk(w', d) { assert DisputeOk(w, d); }
    SameLive(w, w');
  }

  lemma {:induction false} CreateOfferKeeps(
      w: World, newId: Id, buyerId: UserId, listingId: Id, amount: int, hold: Option<int>, now: Time)
    requires Inv(w) && CreateOffer(w, newId, buyerId, listingId, amount, hold, now).Ok?
    ensures Inv(CreateOffer(w, newId, buyerId, listingId, amount, hold, now).value)
  {
    var w' := CreateOffer(w, newId, buyerId, listingId, amount, hold, now).value;
    RootThreads(w.offers, newId, w'.offers[newId]);
    forall i, j, l, b | PendingBid(w'.offers, i, l, b) && PendingBid(w'.offers, j, l, b) ensures i == j {
      assert i != newId ==> PendingBid(w.offers, i, l, b);
      assert j != newId ==> PendingBid(w.offers, j, l, b);
    }
    NewOfferRest(w, w', newId);
    forall i | i in w'.offers ensures BidOk(w', i) {
      if i != newId {
        assert BidOk(w, i) && OfferRefs(w, i);
        if w.offers[i].status.Open() && !w.listings[w.offers[i].listingId].status.Active? {
          AnswerKept(w.offers, w'.offers, i, w.offers[i].listingId);
        }
      }
    }
  }

  lemma {:induction false} RootThreads(offers: Offers, newId: Id, root: Offer)
    requires Threads(offers) && newId !in offers && root.parentOfferId == None && root.status == Pending
    ensures Threads(offers[newId := root])
  {
    var b := offers[newId := root];
    forall c, p | IsChild(b, c, p) ensures Linked(b, c, p) {
      assert IsChild(offers, c, p);
      assert Linked(offers, c, p);
    }
    forall c, d, p | IsChild(b, c, p) && IsChild(b, d, p) ensures c == d {
      assert IsChild(offers, c, p) && IsChild(offers, d, p);
    }
    forall p | p in b && b[p].status.Countered? ensures HasChild(b, p) {
      assert HasChild(offers, p);
      var c :| IsChild(offers, c, p);
      assert IsChild(b, c, p);
    }
  }

  /** Adding a pending offer on an active listing, possibly countering another one: all but threads and bids. */
  lemma {:induction false} NewOfferRest(w: World, w': World, newId: Id)
    requires Inv(w) && newId !in w.offers && w' == w.(offers := w'.offers)
    requires w'.offers.Keys == w.offers.Keys + {newId}
    requires forall i | i in w.offers ::
               && SameThread(w.offers[i], w'.offers[i]) && w'.offers[i].amount == w.offers[i].amount
               && (w'.offers[i].status == w.offers[i].status || (w.offers[i].status.Pending? && w'.offers[i].status.Countered?))
    requires w'.offers[newId].status == Pending && OfferRefs(w', newId)
    ensures Integrity(w') && LiveDeals(w') && Handshakes(w') && Disputes(w')
  {
    forall i | i in w'.offers ensures OfferRefs(w', i) {
      if i != newId { assert OfferRefs(w, i); }
    }
    forall i | i in w'.offers ensures HandshakeOk(w', i) {
      if i != newId { assert HandshakeOk(w, i); }
    }
    forall d | d in w'.disputes ensures DisputeOk(w', d) { assert DisputeOk(w, d); }
    SameLive(w, w');
  }

  /** The parent of a pending offer that may still be countered is a root. */
  lemma ParentIsRoot(offers: Offers, id: Id)
    requires Threads(offers) && id in offers && CounterDepthAllowed(offers, offers[id].parentOfferId)
    requires offers[id].parentOfferId.Some?
    ensures offers[id].parentOfferId.value in offers && offers[offers[id].parentOfferId.value].parentOfferId == None
  {
    var g := offers[id].parentOfferId.value;
    assert IsChild(offers, id, g);
    assert Linked(offers, id, g);
    assert BoundedDepth(offers, Some(g), 4) == 1 + BoundedDepth(offers, offers[g].parentOfferId, 3);
  }

  lemma {:induction false} CounterThreads(offers: Offers, parentId: Id, newId: Id, amount: int, now: Time)
    requires Threads(offers) && parentId in offers && newId !in offers
    requires offers[parentId].status == Pending && CounterDepthAllowed(offers, offers[parentId].parentOfferId)
    ensures Threads(AddCounter(offers, parentId, newId, amount, now))
  {
    var b := AddCounter(offers, parentId, newId, amount, now);
    forall c, p | IsChild(b, c, p)
      ensures if c == newId then p == parentId else IsChild(offers, c, p) && Linked(offers, c, p) && p != parentId && p != newId
    {
      if c != newId {
        assert IsChild(offers, c, p);
        assert Linked(offers, c, p);
      }
    }
    forall c, p | IsChild(b, c, p) ensures Linked(b, c, p) {
      if c == newId {
        if offers[parentId].parentOfferId.Some? { ParentIsRoot(offers, parentId); }
      } else {
        assert Linked(offers, c, p);
      }
    }
    forall p | p in b && b[p].status.Countered? ensures HasChild(b, p) {
      if p == parentId {
        assert IsChild(b, newId, p);
      } else {
        assert HasChild(offers, p);
        var c :| IsChild(offers, c, p);
        assert IsChild(b, c, p);
      }
    }
  }

  lemma {:induction false} CounterKeeps(w: World, newId: Id, parentId: Id, amount: int, now: Time)
    requires Inv(w) && parentId in w.offers && Counter(w, newId, parentId, amount, now).Ok?
    ensures Inv(Counter(w, newId, parentId, amount, now).value)
  {
    var w' := Counter(w, newId, parentId, amount, now).value;
    assert OfferRefs(w, parentId);
    CounterThreads(w.offers, parentId, newId, amount, now);
    forall i, j, l, b | PendingBid(w'.offers, i, l, b) && PendingBid(w'.offers, j, l, b) ensures i == j {
      assert PendingBid(w.offers, i, l, b) && PendingBid(w.offers, j, l, b);
    }
    NewOfferRest(w, w', newId);
    forall i | i in w'.offers ensures BidOk(w', i) {
      if i != newId {
        assert BidOk(w, i) && OfferRefs(w, i);
        if w.offers[i].status.Open() && !w.listings[w.offers[i].listingId].status.Active? {
          AnswerKept(w.offers, w'.offers, i, w.offers[i].listingId);
        }
      }
    }
  }

  lemma {:induction false} DisputeKeeps(w: World, w': World, d: Id)
    requires Inv(w) && w' == w.(disputes := w'.disputes)
    requires w'.disputes.Keys == w.disputes.Keys + {d}
    requires forall e | e in w.disputes ::
               && w'.disputes[e].offerId == w.disputes[e].offerId
               && w'.disputes[e].filedById == w.disputes[e].filedById && w'.disputes[e].againstId == w.disputes[e].againstId
    requires d !in w.disputes ==> DisputeOk(w', d) && !HasDispute(w.disputes, w'.disputes[d].offerId)
    ensures Inv(w')
  {
    forall i | i in w.offers ensures OfferRefs(w', i) && BidOk(w', i) && HandshakeOk(w', i) {
      assert OfferRefs(w, i) && BidOk(w, i) && HandshakeOk(w, i);
    }
    forall e | e in w'.disputes ensures DisputeOk(w', e) {
      if e in w.disputes { assert DisputeOk(w, e); }
    }
    forall l | l in w.listings && (w.listings[l].status.Reserved? || w.listings[l].status.Sold?) ensures HasLive(w'.offers, l) {
      assert HasLive(w.offers, l);
    }
  }

  // ---------- One step ----------

  lemma {:induction false} ListingCallsKeep(w: World, c: Call)
    requires Inv(w) && Step(w, c).Ok? && KindOf(c.request) == ListingKind
    ensures Inv(Step(w, c).value)
  {
    var r := c.request;
    if r.CreateListingCall? {
      CreateListingKeeps(w, r.newId, r.sellerId, r.askingPrice, r.gate);
    } else if r.UpdateListingCall? {
      UpdateListingKeeps(w, r.listingId, r.sellerId, r.newPrice);
    } else {
      DeleteKeeps(w, r.listingId, r.sellerId, c.now);
    }
  }

  lemma {:induction false} AcceptCallsKeep(w: World, c: Call)
    requires Inv(w) && Step(w, c).Ok? && KindOf(c.request) == AcceptKind
    ensures Inv(Step(w, c).value)
  {
    var id := c.request.offerId;
    if c.request.AcceptOfferCall? {
      ChargeAndAcceptKeeps(w, id, {}, c.now);
    } else {
      assert IsChild(w.offers, id, w.offers[id].parentOfferId.value);
      ChargeAndAcceptKeeps(w, id, {w.offers[id].parentOfferId.value}, c.now);
    }
  }

  lemma {:induction false} RetireCallsKeep(w: World, c: Call)
    requires Inv(w) && Step(w, c).Ok? && KindOf(c.request) == RetireKind
    ensures Inv(Step(w, c).value)
  {
    var id, w' := c.request.offerId, Step(w, c).value;
    assert BidOk(w, id) && OfferRefs(w, id);
    if w' != w { RetireKeeps(w, id, w'.offers[id]); }
  }

  lemma {:induction false} NewOfferCallsKeep(w: World, c: Call)
    requires Inv(w) && Step(w, c).Ok? && KindOf(c.request) == NewOfferKind
    ensures Inv(Step(w, c).value)
  {
    var r := c.request;
    if r.CreateOfferCall? {
      CreateOfferKeeps(w, r.newId, r.buyerId, r.listingId, r.amount, r.hold, c.now);
    } else {
      CounterKeeps(w, r.newId, r.offerId, r.amount, c.now);
    }
  }

  lemma {:induction false} HandoverCallsKeep(w: World, c: Call)
    requires Inv(w) && Step(w, c).Ok? && KindOf(c.request) == HandoverKind
    ensures Inv(Step(w, c).value)
  {
    if c.request.ConfirmHandoverCall? {
      ConfirmKeeps(w, c.request.offerId, c.request.userId, c.now);
    } else {
      CancelKeeps(w, c.request.offerId, c.request.userId, c.now);
    }
  }

  lemma {:induction false} DisputeCallsKeep(w: World, c: Call)
    requires Inv(w) && Step(w, c).Ok? && KindOf(c.request) == DisputeKind
    ensures Inv(Step(w, c).value)
  {
    DisputeKeeps(w, Step(w, c).value, if c.request.CreateDisputeCall? then c.request.newId else c.request.disputeId);
  }

  lemma {:induction false} TokenCallsKeep(w: World, c: Call)
    requires Inv(w) && Step(w, c).Ok? && KindOf(c.request) == TokenKind
    ensures Inv(Step(w, c).value)
  {
    LedgerIrrelevant(w, Step(w, c).value);
  }

  /** The invariant is kept by every call. */
  lemma {:induction false} StepKeeps(w: World, c: Call)
    requires Inv(w)
    ensures Inv(Next(w, c))
  {
    if Step(w, c).Ok? {
      match KindOf(c.request)
      case ListingKind => ListingCallsKeep(w, c);
      case AcceptKind => AcceptCallsKeep(w, c);
      case RetireKind => RetireCallsKeep(w, c);
      case NewOfferKind => NewOfferCallsKeep(w, c);
      case HandoverKind => HandoverCallsKeep(w, c);
      case DisputeKind => DisputeCallsKeep(w, c);
      case TokenKind => TokenCallsKeep(w, c);
    }
  }

  /** Every state that any sequence of calls can reach from the empty store satisfies the invariant. */
  lemma {:induction false} ReachableInv(calls: seq<Call>)
    ensures Inv(Run(calls))
  {
    if calls != [] {
      ReachableInv(calls[..|calls| - 1]);
      StepKeeps(Run(calls[..|calls| - 1]), calls[|calls| - 1]);
    }
  }
}
