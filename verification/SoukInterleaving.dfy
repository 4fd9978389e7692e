/**
 * The guards of an accept call run before its transaction. This component separates the two phases: other calls may
 * be carried out between the check and the commit.
 */
module SoukInterleaving {
  import opened Basics
  import opened SoukModel
  import opened SoukInvariant
  import opened SoukPreservation
  import opened SoukGuarantees

  /** The guards of the seller's accept, as evaluated on the rows read first. */
  function CheckAccept(w: World, offerId: Id, sellerId: UserId, profileComplete: bool): Option<SoukError> {
    if offerId !in w.offers then Some(OfferNotFound)
    else if w.offers[offerId].sellerId != sellerId then Some(NotSeller)
    else if !w.offers[offerId].status.Open() then Some(WrongStatus)
    else if !OnActiveListing(w, w.offers[offerId]) then Some(ListingNotActive)
    else if !profileComplete then Some(ProfileIncomplete)
    else None
  }

  /** With nothing in between, check followed by charge and commit is the accept call. */
  lemma CheckThenCommit(w: World, offerId: Id, sellerId: UserId, profileComplete: bool, now: Time)
    ensures AcceptOffer(w, offerId, sellerId, profileComplete, now) ==
      match CheckAccept(w, offerId, sellerId, profileComplete)
      case Some(e) => Err(e)
      case None => ChargeAndAccept(w, offerId, {}, now)
  {
  }

  /**
   * The race: whenever two offers on one listing pass their checks in the same state, committing both leaves two live
   * deals, because a commit overwrites the status that the other commit's cascade had just set.
   */
  lemma {:induction false} DoubleAccept(w: World, a: Id, b: Id, sellerId: UserId, t: Time, u: Time)
    requires Inv(w) && a != b
    requires CheckAccept(w, a, sellerId, true).None? && CheckAccept(w, b, sellerId, true).None?
    requires w.offers[a].listingId == w.offers[b].listingId
    ensures var w' := CommitAccept(CommitAccept(w, a, {}, t), b, {}, u);
      && LiveOffers(w', w.offers[a].listingId) == {a, b}
      && !LiveDeals(w')
  {
    var l := w.offers[a].listingId;
    var w1 := CommitAccept(w, a, {}, t);
    var w' := CommitAccept(w1, b, {}, u);
    NoneLive(w, l);
    assert LiveOn(w'.offers, a, l) && LiveOn(w'.offers, b, l);
    forall i | LiveOn(w'.offers, i, l) ensures i == a || i == b {
      assert !LiveOn(w.offers, i, l);
    }
    assert LiveOffers(w', l) == {a, b};
  }

  /** The race is reachable: one seller, two buyers, four calls. */
  lemma DoubleAcceptReachable()
    ensures exists calls, a, b, sellerId ::
      && a != b
      && CheckAccept(Run(calls), a, sellerId, true).None? && CheckAccept(Run(calls), b, sellerId, true).None?
      && Run(calls).offers[a].listingId == Run(calls).offers[b].listingId
      && Run(calls).offers[a].buyerId != Run(calls).offers[b].buyerId
  {
    var c0 := Call(CreateListingCall(0, 1, 100, SellerGate(Some(100), 20, true, true)), 0);
    var c1 := Call(CreateOfferCall(1, 2, 0, 100, None), 1);
    var c2 := Call(CreateOfferCall(2, 3, 0, 100, None), 2);
    var w0 := World(map[0 := Listing(1, 100, Active)], map[], map[], map[], EMPTY_WORLD.ledger);
    assert [c0][..0] == [] && [c0, c1][..1] == [c0] && [c0, c1, c2][..2] == [c0, c1];
    assert Run([c0]) == w0;
    var o1 := Offer(0, 2, 1, 100, Pending, None, None, 1);
    assert Run([c0, c1]) == w0.(offers := map[1 := o1]);
    var o2 := Offer(0, 3, 1, 100, Pending, None, None, 2);
    assert !HasPendingBid(map[1 := o1], 0, 3);
    assert Run([c0, c1, c2]) == w0.(offers := map[1 := o1, 2 := o2]);
    assert CheckAccept(Run([c0, c1, c2]), 1, 1, true).None? && CheckAccept(Run([c0, c1, c2]), 2, 1, true).None?;
  }

  ghost predicate AtMostOneLive(w: World) {
    forall i, j, l {:trigger LiveOn(w.offers, i, l), LiveOn(w.offers, j, l)} ::
      LiveOn(w.offers, i, l) && LiveOn(w.offers, j, l) ==> i == j
  }

  /** A commit, however stale its check, is safe exactly when no other offer on the listing is live at that moment. */
  lemma {:induction false} CommitSafeIff(w: World, id: Id, spared: set<Id>, now: Time)
    requires LiveDeals(w) && id in w.offers
    ensures AtMostOneLive(CommitAccept(w, id, spared, now)) <==> LiveOffers(w, w.offers[id].listingId) <= {id}
  {
    var l, w' := w.offers[id].listingId, CommitAccept(w, id, spared, now);
    assert LiveOn(w'.offers, id, l);
    forall i, k | LiveOn(w'.offers, i, k) && i != id ensures LiveOn(w.offers, i, k) {}
    forall i, k | LiveOn(w.offers, i, k) ensures LiveOn(w'.offers, i, k) {}
    if !(LiveOffers(w, l) <= {id}) {
      var j :| j in LiveOffers(w, l) && j != id;
      assert LiveOn(w'.offers, j, l);
    } else {
      assert forall i, k | LiveOn(w.offers, i, k) :: i in LiveOffers(w, k);
    }
  }

  // ---------- The repair ----------

  /** A commit that reads the listing again, inside its transaction. */
  function RecheckedCommit(w: World, id: Id, spared: set<Id>, now: Time): World {
    if id in w.offers && OnActiveListing(w, w.offers[id]) then CommitAccept(w, id, spared, now) else w
  }

  /** Anything may happen: a whole call, or the second phase of an accept whose check is arbitrarily old. */
  datatype Event = Whole(call: Call) | Commit(offerId: Id, spared: set<Id>, now: Time)

  function After(w: World, e: Event): World {
    match e
    case Whole(c) => Next(w, c)
    case Commit(id, spared, now) => RecheckedCommit(w, id, spared, now)
  }

  function RunEvents(events: seq<Event>): World {
    if events == [] then EMPTY_WORLD else After(RunEvents(events[..|events| - 1]), events[|events| - 1])
  }

  lemma {:induction false} ListingLive(w: World, c: Call)
    requires LiveDeals(w) && Step(w, c).Ok? && KindOf(c.request) == ListingKind
    ensures LiveDeals(Step(w, c).value)
  {
    var w' := Step(w, c).value;
    if c.request.DeleteListingCall? {
      DeleteLive(w, c.request.listingId, c.request.sellerId, c.now);
    } else {
      forall l | l in w'.listings && (w'.listings[l].status.Reserved? || w'.listings[l].status.Sold?) ensures HasLive(w'.offers, l) {
        assert HasLive(w.offers, l);
      }
    }
  }

  lemma {:induction false} AcceptCallsLive(w: World, c: Call)
    requires LiveDeals(w) && Step(w, c).Ok? && KindOf(c.request) == AcceptKind
    ensures LiveDeals(Step(w, c).value)
  {
    var id := c.request.offerId;
    var charged := w.(ledger := ChargeHold(w.ledger, id, w.offers[id]).value);
    SameLive(w, charged);
    AcceptLive(charged, id, if c.request.AcceptOfferCall? then {} else {w.offers[id].parentOfferId.value}, c.now);
  }

  /** Writing an offer that is not live over none, or over one that is not live either. */
  lemma {:induction false} SetOfferLive(w: World, id: Id, offer: Offer)
    requires LiveDeals(w) && !offer.status.Live() && (id in w.offers ==> !w.offers[id].status.Live())
    ensures LiveDeals(SetOffer(w, id, offer))
  {
    SameLive(w, SetOffer(w, id, offer));
  }

  lemma {:induction false} RetireLive(w: World, c: Call)
    requires LiveDeals(w) && Step(w, c).Ok? && KindOf(c.request) == RetireKind
    ensures LiveDeals(Step(w, c).value)
  {
    SetOfferLive(w, c.request.offerId, Step(w, c).value.offers[c.request.offerId]);
  }

  lemma {:induction false} NewOfferLive(w: World, c: Call)
    requires LiveDeals(w) && Step(w, c).Ok? && KindOf(c.request) == NewOfferKind
    ensures LiveDeals(Step(w, c).value)
  {
    var w', newId := Step(w, c).value, c.request.newId;
    if c.request.CreateOfferCall? {
      SetOfferLive(w, newId, w'.offers[newId]);
    } else {
      var parent := SetOffer(w, c.request.offerId, w'.offers[c.request.offerId]);
      SetOfferLive(w, c.request.offerId, w'.offers[c.request.offerId]);
      SetOfferLive(parent, newId, w'.offers[newId]);
    }
  }

  lemma {:induction false} HandoverLive(w: World, c: Call)
    requires LiveDeals(w) && Step(w, c).Ok? && KindOf(c.request) == HandoverKind
    ensures LiveDeals(Step(w, c).value)
  {
    var id, w' := c.request.offerId, Step(w, c).value;
    assert LiveOn(w.offers, id, w.offers[id].listingId);
    if w'.offers == w.offers && w'.listings == w.listings {
      SameLive(w, w');
    } else {
      assert w'.offers[id := w.offers[id]] == w.offers;
      MoveLive(w, w', id);
    }
  }

  lemma {:induction false} OtherwiseLive(w: World, c: Call)
    requires LiveDeals(w) && Step(w, c).Ok? && (KindOf(c.request) == DisputeKind || KindOf(c.request) == TokenKind)
    ensures LiveDeals(Step(w, c).value)
  {
    SameLive(w, Step(w, c).value);
  }

  /** One live deal per listing is inductive on its own, for whole calls. */
  lemma {:induction false} StepLive(w: World, c: Call)
    requires LiveDeals(w)
    ensures LiveDeals(Next(w, c))
  {
    if Step(w, c).Ok? {
      match KindOf(c.request)
      case ListingKind => ListingLive(w, c);
      case AcceptKind => AcceptCallsLive(w, c);
      case RetireKind => RetireLive(w, c);
      case NewOfferKind => NewOfferLive(w, c);
      case HandoverKind => HandoverLive(w, c);
      case DisputeKind => OtherwiseLive(w, c);
      case TokenKind => OtherwiseLive(w, c);
    }
  }

  /** With the re-check, one live deal per listing survives every interleaving of calls and stale commits. */
  lemma {:induction false} RecheckRepairs(events: seq<Event>)
    ensures LiveDeals(RunEvents(events))
  {
    if events != [] {
      var w, e := RunEvents(events[..|events| - 1]), events[|events| - 1];
      RecheckRepairs(events[..|events| - 1]);
      match e
      case Whole(c) => StepLive(w, c);
      case Commit(id, spared, now) =>
        if id in w.offers && OnActiveListing(w, w.offers[id]) { AcceptLive(w, id, spared, now); }
    }
  }

  // ---------- The full repair ----------

  /** The listing alone is not enough: a stale commit accepts an offer that its buyer withdrew after the check. */
  lemma {:induction false} WithdrawnAccepted()
    ensures exists events, id, now ::
      && id in RunEvents(events).offers && RunEvents(events).offers[id].status == Withdrawn
      && id in RunEvents(events + [Commit(id, {}, now)]).offers
      && RunEvents(events + [Commit(id, {}, now)]).offers[id].status == Accepted
  {
    var e0 := Whole(Call(CreateListingCall(0, 1, 100, SellerGate(Some(100), 20, true, true)), 0));
    var e1 := Whole(Call(CreateOfferCall(1, 2, 0, 100, None), 1));
    var e2 := Whole(Call(WithdrawOfferCall(1, 2), 2));
    var events := [e0, e1, e2];
    assert [e0][..0] == [] && [e0, e1][..1] == [e0] && events[..2] == [e0, e1];
    assert RunEvents([e0]).listings == map[0 := Listing(1, 100, Active)] && RunEvents([e0]).offers == map[];
    assert RunEvents([e0, e1]).offers == map[1 := Offer(0, 2, 1, 100, Pending, None, None, 1)];
    assert RunEvents(events).offers[1].status == Withdrawn;
    assert (events + [Commit(1, {}, 3)])[..3] == events;
    assert RunEvents(events + [Commit(1, {}, 3)]).offers[1].status == Accepted;
  }

  /** A commit that reads the listing and the offer again, and spares nothing or the offer's parent. */
  function FullyRecheckedCommit(w: World, id: Id, sparesParent: bool, now: Time): World {
    if id in w.offers && w.offers[id].status.Open() && OnActiveListing(w, w.offers[id])
    then CommitAccept(w, id, if sparesParent && w.offers[id].parentOfferId.Some? then {w.offers[id].parentOfferId.value} else {}, now)
    else w
  }

  /** Whole calls, and commits of the seller's or the buyer's accept whose checks are arbitrarily old. */
  datatype GuardedEvent = GuardedWhole(call: Call) | GuardedCommit(offerId: Id, sparesParent: bool, now: Time)

  function RunGuarded(events: seq<GuardedEvent>): World {
    if events == [] then EMPTY_WORLD
    else
      var w := RunGuarded(events[..|events| - 1]);
      match events[|events| - 1]
      case GuardedWhole(c) => Next(w, c)
      case GuardedCommit(id, sparesParent, now) => FullyRecheckedCommit(w, id, sparesParent, now)
  }

  /** With both re-checks the whole joint invariant survives every interleaving of calls and stale commits. */
  lemma {:induction false} FullRecheckRepairs(events: seq<GuardedEvent>)
    ensures Inv(RunGuarded(events))
  {
    if events != [] {
      var w := RunGuarded(events[..|events| - 1]);
      FullRecheckRepairs(events[..|events| - 1]);
      match events[|events| - 1]
      case GuardedWhole(c) => StepKeeps(w, c);
      case GuardedCommit(id, sparesParent, now) => GuardedCommitKeeps(w, id, sparesParent, now);
    }
  }

  lemma {:induction false} GuardedCommitKeeps(w: World, id: Id, sparesParent: bool, now: Time)
    requires Inv(w)
    ensures Inv(FullyRecheckedCommit(w, id, sparesParent, now))
  {
    if id in w.offers && w.offers[id].status.Open() && OnActiveListing(w, w.offers[id]) {
      CommitAcceptKeeps(w, id, if sparesParent && w.offers[id].parentOfferId.Some? then {w.offers[id].parentOfferId.value} else {}, now);
    }
  }
}
