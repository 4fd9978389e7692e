/** What the negotiation protocol promises in every reachable state, read off the invariant. */
module SoukGuarantees {
  import opened Basics
  import opened Paths
  import opened SoukModel
  import opened SoukInvariant
  import opened SoukPreservation

  // ---------- One live deal ----------

  ghost function LiveOffers(w: World, listingId: Id): set<Id> {
    set i | i in w.offers && LiveOn(w.offers, i, listingId)
  }

  ghost predicate ExactlyOneLive(w: World, listingId: Id, confirmed: bool) {
    exists i | i in w.offers :: LiveOffers(w, listingId) == {i} && w.offers[i].status.Confirmed? == confirmed
  }

  /**
   * In every reachable state: an ACTIVE listing has no live offer, a RESERVED one exactly one that awaits handover, a
   * SOLD one exactly one that is CONFIRMED, a REMOVED one at most one; the other two statuses are never reached.
   */
  lemma {:induction false} OneLiveDeal(calls: seq<Call>, l: Id)
    requires l in Run(calls).listings
    ensures var w := Run(calls);
            match w.listings[l].status
            case Active => LiveOffers(w, l) == {}
            case Reserved => ExactlyOneLive(w, l, false)
            case Sold => ExactlyOneLive(w, l, true)
            case Removed => |LiveOffers(w, l)| <= 1
            case _ => false
  {
    ReachableInv(calls);
    var w := Run(calls);
    if HasLive(w.offers, l) {
      var i :| LiveOn(w.offers, i, l);
      assert LiveOffers(w, l) == {i};
    } else {
      assert LiveOffers(w, l) == {};
    }
  }

  // ---------- Bidding closes with the listing ----------

  /** No PENDING offer on a listing that is not ACTIVE, and COUNTERED only for the parent of its unique live offer. */
  lemma {:induction false} BiddingCloses(calls: seq<Call>, i: Id)
    requires i in Run(calls).offers && Run(calls).offers[i].status.Open()
    ensures var w := Run(calls);
            var l := w.offers[i].listingId;
            && l in w.listings
            && (w.offers[i].status.Pending? ==> w.listings[l].status.Active?)
            && (!w.listings[l].status.Active? ==>
                  && !w.listings[l].status.Removed?
                  && exists c :: IsChild(w.offers, c, i) && LiveOffers(w, l) == {c})
  {
    ReachableInv(calls);
    var w := Run(calls);
    assert OfferRefs(w, i) && BidOk(w, i);
    var l := w.offers[i].listingId;
    if !w.listings[l].status.Active? {
      var c :| IsChild(w.offers, c, i) && LiveOn(w.offers, c, l);
      assert LiveOffers(w, l) == {c};
    }
  }

  /** A buyer never has two pending bids of their own on one listing. */
  lemma {:induction false} OnePendingBid(calls: seq<Call>, i: Id, j: Id)
    requires var offers := Run(calls).offers;
      && i in offers && j in offers && i != j
      && offers[i].status.Pending? && offers[j].status.Pending?
      && offers[i].parentOfferId == None && offers[j].parentOfferId == None
    ensures var offers := Run(calls).offers;
      offers[i].listingId != offers[j].listingId || offers[i].buyerId != offers[j].buyerId
  {
    ReachableInv(calls);
    var offers := Run(calls).offers;
    assert PendingBid(offers, i, offers[i].listingId, offers[i].buyerId);
    assert PendingBid(offers, j, offers[j].listingId, offers[j].buyerId);
  }

  // ---------- Cascades ----------

  /** The winner is ACCEPTED, every other unspared open bid on its listing is DECLINED, and no other row is written. */
  lemma AcceptCascade(w: World, id: Id, spared: set<Id>, now: Time, i: Id)
    requires id in w.offers && i in w.offers
    ensures var w' := CommitAccept(w, id, spared, now);
      var loses := w.offers[i].listingId == w.offers[id].listingId && w.offers[i].status.Open() && i !in spared;
      && w'.offers.Keys == w.offers.Keys
      && (i == id ==> w'.offers[i].status == Accepted)
      && (i != id && loses ==> w'.offers[i].status == Declined)
      && (i != id && !loses ==> w'.offers[i] == w.offers[i])
      && w'.handovers == w.handovers && w'.disputes == w.disputes && w'.ledger == w.ledger
  {
  }

  /** Removing a listing expires its open bids, keeps a live deal alive, and touches no other listing's offers. */
  lemma DeleteCascade(w: World, l: Id, sellerId: UserId, now: Time, i: Id)
    requires DeleteListing(w, l, sellerId, now).Ok? && i in w.offers
    ensures var w' := DeleteListing(w, l, sellerId, now).value;
      && w'.listings[l].status == Removed
      && w'.offers[i].status ==
           (if w.offers[i].listingId == l && w.offers[i].status.Open() then Expired else w.offers[i].status)
      && (w.offers[i].listingId != l || !w.offers[i].status.Open() ==> w'.offers[i] == w.offers[i])
  {
  }

  // ---------- Threads ----------

  ghost function ParentsOf(offers: Offers): Parents {
    map i | i in offers :: offers[i].parentOfferId
  }

  /** Every offer has a path of at most two ancestors, all of the same listing, buyer and seller. */
  lemma {:induction false} ThreadPath(offers: Offers, id: Id) returns (path: seq<Id>)
    requires Threads(offers) && id in offers
    ensures IsPath(ParentsOf(offers), id, path) && |path| <= 2
    ensures forall j | 0 <= j < |path| :: path[j] in offers && SameThread(offers[path[j]], offers[id])
  {
    path := [];
    if offers[id].parentOfferId.Some? {
      var p := offers[id].parentOfferId.value;
      assert IsChild(offers, id, p);
      assert Linked(offers, id, p);
      path := [p];
      assert IsPath(ParentsOf(offers), p, []) <==> offers[p].parentOfferId == None;
      if offers[p].parentOfferId.Some? {
        var g := offers[p].parentOfferId.value;
        assert IsChild(offers, p, g);
        assert Linked(offers, p, g);
        assert IsPath(ParentsOf(offers), g, []);
        assert [g, p][..1] == [g] && [g][..0] == [];
        assert IsPath(ParentsOf(offers), p, [g]);
        path := [g, p];
      } else {
        assert [p][..0] == [];
      }
    }
  }

  /** The first offer of the thread, given the path of one of its members. */
  function RootOf(id: Id, path: seq<Id>): Id {
    if path == [] then id else path[0]
  }

  /** In every reachable state the parent links form a forest, and a thread agrees on listing, buyer and seller. */
  lemma {:induction false} ReachableForest(calls: seq<Call>)
    ensures var w := Run(calls);
      && Forest(ParentsOf(w.offers))
      && forall id, path | IsPath(ParentsOf(w.offers), id, path) ::
           && id in w.offers && |path| <= 2
           && w.offers[id].buyerId != w.offers[id].sellerId
           && forall p | p in path :: p in w.offers && SameThread(w.offers[p], w.offers[id])
  {
    ReachableInv(calls);
    var w := Run(calls);
    var parents := ParentsOf(w.offers);
    forall id | id in parents ensures Rooted(parents, id) {
      var path := ThreadPath(w.offers, id);
    }
    forall id, path | IsPath(parents, id, path)
      ensures && id in w.offers && |path| <= 2
              && w.offers[id].buyerId != w.offers[id].sellerId
              && forall p | p in path :: p in w.offers && SameThread(w.offers[p], w.offers[id])
    {
      var q := ThreadPath(w.offers, id);
      PathUnique(parents, id, path, q);
      assert OfferRefs(w, id);
    }
  }

  /**
   * An offer has at most one child; it has one if it is COUNTERED; with one it is neither PENDING nor WITHDRAWN; and
   * counters carry no hold.
   */
  lemma {:induction false} ReachableChildren(calls: seq<Call>, p: Id)
    requires p in Run(calls).offers
    ensures var offers := Run(calls).offers;
      && (offers[p].status.Countered? ==> HasChild(offers, p))
      && (HasChild(offers, p) ==> !offers[p].status.Pending? && !offers[p].status.Withdrawn?)
      && (forall c, d | IsChild(offers, c, p) && IsChild(offers, d, p) :: c == d)
      && (offers[p].parentOfferId.Some? ==> offers[p].tokenHoldAmount == None)
  {
    ReachableInv(calls);
    var offers := Run(calls).offers;
    if HasChild(offers, p) {
      var c :| IsChild(offers, c, p);
      assert Linked(offers, c, p);
    }
    if offers[p].parentOfferId.Some? {
      assert IsChild(offers, p, offers[p].parentOfferId.value);
      assert Linked(offers, p, offers[p].parentOfferId.value);
    }
  }

  /** Two members of one thread lie on one path: the shorter of them is an ancestor of the longer. */
  lemma {:induction false} SameRootNested(offers: Offers, a: Id, pa: seq<Id>, b: Id, pb: seq<Id>)
    requires Threads(offers) && IsPath(ParentsOf(offers), a, pa) && IsPath(ParentsOf(offers), b, pb)
    requires RootOf(a, pa) == RootOf(b, pb) && |pa| <= |pb| && a != b
    ensures a in pb
    decreases |pa|
  {
    var parents := ParentsOf(offers);
    if pa != [] {
      var ua, ub := pa[|pa| - 1], pb[|pb| - 1];
      var qa, qb := pa[..|pa| - 1], pb[..|pb| - 1];
      assert RootOf(ua, qa) == RootOf(ub, qb);
      assert IsChild(offers, a, ua) && IsChild(offers, b, ub);
      if ua != ub {
        SameRootNested(offers, ua, qa, ub, qb);
        var j :| 0 <= j < |qb| && qb[j] == ua;
        assert pb[j] == ua && pb[j + 1] in pb;
        PathPrefix(parents, b, pb, j + 1);
        assert pb[..j + 1][j] == ua;
        assert IsChild(offers, pb[j + 1], ua);
      }
    }
  }

  /** A thread has at most one PENDING offer. */
  lemma {:induction false} OnePendingPerThread(calls: seq<Call>, a: Id, pa: seq<Id>, b: Id, pb: seq<Id>)
    requires IsPath(ParentsOf(Run(calls).offers), a, pa) && IsPath(ParentsOf(Run(calls).offers), b, pb)
    requires RootOf(a, pa) == RootOf(b, pb)
    requires Run(calls).offers[a].status.Pending? && Run(calls).offers[b].status.Pending?
    ensures a == b
  {
    ReachableInv(calls);
    var offers := Run(calls).offers;
    if a != b {
      if |pa| <= |pb| { PendingIsLeaf(offers, a, pa, b, pb); } else { PendingIsLeaf(offers, b, pb, a, pa); }
    }
  }

  lemma {:induction false} PendingIsLeaf(offers: Offers, a: Id, pa: seq<Id>, b: Id, pb: seq<Id>)
    requires Threads(offers) && IsPath(ParentsOf(offers), a, pa) && IsPath(ParentsOf(offers), b, pb)
    requires RootOf(a, pa) == RootOf(b, pb) && |pa| <= |pb| && a != b
    ensures !offers[a].status.Pending?
  {
    SameRootNested(offers, a, pa, b, pb);
    var j :| 0 <= j < |pb| && pb[j] == a;
    if j == |pb| - 1 {
      assert IsChild(offers, b, a);
      assert Linked(offers, b, a);
    } else {
      PathPrefix(ParentsOf(offers), b, pb, j + 1);
      assert pb[..j + 1][j] == a;
      assert IsChild(offers, pb[j + 1], a);
      assert Linked(offers, pb[j + 1], a);
    }
  }

  // ---------- The depth guard ----------

  /** On threads the capped walk counts the ancestors of an offer exactly. */
  lemma {:induction false} BoundedDepthIsAncestorCount(calls: seq<Call>, id: Id, path: seq<Id>)
    requires IsPath(ParentsOf(Run(calls).offers), id, path)
    ensures BoundedDepth(Run(calls).offers, Run(calls).offers[id].parentOfferId, MAX_COUNTER_DEPTH + 2) == |path|
    ensures CounterDepthAllowed(Run(calls).offers, Run(calls).offers[id].parentOfferId) <==> |path| < MAX_COUNTER_DEPTH
  {
    ReachableForest(calls);
    CappedWalk(Run(calls).offers, id, path, MAX_COUNTER_DEPTH + 2);
  }

  /** The capped walk is exact on every path that fits under the cap, in any store. */
  lemma {:induction false} CappedWalk(offers: Offers, id: Id, path: seq<Id>, fuel: nat)
    requires IsPath(ParentsOf(offers), id, path) && |path| <= fuel
    ensures BoundedDepth(offers, offers[id].parentOfferId, fuel) == |path|
    decreases |path|
  {
    if path != [] {
      CappedWalk(offers, path[|path| - 1], path[..|path| - 1], fuel - 1);
    }
  }

  /** The band check in exact arithmetic: between half and one and a half times the asking price. */
  lemma BandMeaning(amount: int, askingPrice: int)
    ensures AssertAmountInBand(amount, askingPrice).None? <==> amount > 0 && askingPrice <= 2 * amount <= 3 * askingPrice
    ensures AssertAmountInBand(amount, askingPrice) == Some(InvalidAmount) <==> amount <= 0
  {
  }

  // ---------- Disputes ----------

  /** In every reachable state an offer has at most one dispute, between its two parties, and it stays disputable. */
  lemma {:induction false} ReachableDisputes(calls: seq<Call>, d: Id)
    requires d in Run(calls).disputes
    ensures var w := Run(calls);
      var row := w.disputes[d];
      && row.offerId in w.offers
      && w.offers[row.offerId].status.Disputable()
      && row.filedById != row.againstId
      && w.offers[row.offerId].IsParty(row.filedById) && w.offers[row.offerId].IsParty(row.againstId)
      && (forall e | e in w.disputes && w.disputes[e].offerId == row.offerId :: e == d)
  {
    ReachableInv(calls);
    var w := Run(calls);
    assert DisputeOk(w, d);
    assert OfferRefs(w, w.disputes[d].offerId);
  }
}
