/** Negotiation terminates: offers only advance, and the number of offers is bounded by the number of opening bids. */
module SoukTermination {
  import opened Basics
  import opened Sums
  import opened SoukModel
  import opened SoukInvariant
  import opened SoukPreservation

  /** How many status changes an offer can still undergo. */
  function Rank(s: OfferStatus): nat {
    match s
    case Pending => 4
    case Countered => 3
    case Accepted => 2
    case HandoverPending => 1
    case _ => 0
  }

  /** The offer opened by a createOffer call that was carried out. */
  function Opening(w: World, c: Call): Option<Id> {
    if c.request.CreateOfferCall? && Step(w, c).Ok? then Some(c.request.newId) else None
  }

  /** The offers of before have only advanced; those that are new are PENDING, and counters but for the opening bid. */
  ghost predicate Grows(a: Offers, b: Offers, opening: Option<Id>) {
    && Evolves(a, b)
    && (forall i | i in b && i !in a :: b[i].status == Pending && (b[i].parentOfferId.None? <==> opening == Some(i)))
    && (opening.Some? ==> opening.value in b && opening.value !in a)
  }

  lemma ListingGrows(w: World, c: Call)
    requires KindOf(c.request) == ListingKind
    ensures Grows(w.offers, Next(w, c).offers, None)
  {
  }

  lemma AcceptGrows(w: World, c: Call)
    requires KindOf(c.request) == AcceptKind
    ensures Grows(w.offers, Next(w, c).offers, None)
  {
  }

  lemma DeclineGrows(w: World, c: Call)
    requires c.request.DeclineOfferCall? || c.request.BuyerDeclineCounterCall?
    ensures Grows(w.offers, Next(w, c).offers, None)
  {
  }

  lemma BuyerEditGrows(w: World, c: Call)
    requires c.request.WithdrawOfferCall? || c.request.UpdateOfferCall?
    ensures Grows(w.offers, Next(w, c).offers, None)
  {
  }

  lemma RetireGrows(w: World, c: Call)
    requires KindOf(c.request) == RetireKind
    ensures Grows(w.offers, Next(w, c).offers, None)
  {
    if c.request.DeclineOfferCall? || c.request.BuyerDeclineCounterCall? { DeclineGrows(w, c); } else { BuyerEditGrows(w, c); }
  }

  lemma CreateGrows(w: World, c: Call)
    requires c.request.CreateOfferCall?
    ensures Grows(w.offers, Next(w, c).offers, Opening(w, c))
  {
  }

  lemma CounterGrows(w: World, c: Call)
    requires c.request.CounterOfferCall? || c.request.BuyerCounterOfferCall?
    ensures Grows(w.offers, Next(w, c).offers, None)
  {
  }

  lemma HandoverGrows(w: World, c: Call)
    requires Inv(w) && KindOf(c.request) == HandoverKind
    ensures Grows(w.offers, Next(w, c).offers, None)
  {
    if Step(w, c).Ok? {
      assert HandshakeOk(w, c.request.offerId);
    }
  }

  lemma OtherwiseSameOffers(w: World, c: Call)
    requires KindOf(c.request) == DisputeKind || KindOf(c.request) == TokenKind
    ensures Next(w, c).offers == w.offers
  {
  }

  /** Every call advances offers along the life cycle, and offers are born PENDING. */
  lemma {:induction false} StepGrows(w: World, c: Call)
    requires Inv(w)
    ensures Grows(w.offers, Next(w, c).offers, Opening(w, c))
  {
    match KindOf(c.request)
    case ListingKind => ListingGrows(w, c);
    case AcceptKind => AcceptGrows(w, c);
    case RetireKind => RetireGrows(w, c);
    case NewOfferKind => if c.request.CreateOfferCall? { CreateGrows(w, c); } else { CounterGrows(w, c); }
    case HandoverKind => HandoverGrows(w, c);
    case DisputeKind => OtherwiseSameOffers(w, c);
    case TokenKind => OtherwiseSameOffers(w, c);
  }

  lemma SweepsMakeNoOffers(w: World, c: Call)
    requires KindOf(c.request) == ListingKind || KindOf(c.request) == AcceptKind
    ensures Next(w, c).offers.Keys == w.offers.Keys
  {
  }

  lemma RetiringMakesNoOffers(w: World, c: Call)
    requires KindOf(c.request) == RetireKind
    ensures Next(w, c).offers.Keys == w.offers.Keys
  {
  }

  lemma HandoverMakesNoOffers(w: World, c: Call)
    requires KindOf(c.request) == HandoverKind
    ensures Next(w, c).offers.Keys == w.offers.Keys
  {
  }

  /** Only a carried-out call of one of the three creating kinds makes a new offer. */
  lemma {:induction false} NewOfferFrom(w: World, c: Call, id: Id)
    requires id in Next(w, c).offers && id !in w.offers
    ensures KindOf(c.request) == NewOfferKind && c.request.newId == id && Step(w, c).Ok?
  {
    match KindOf(c.request)
    case ListingKind => SweepsMakeNoOffers(w, c);
    case AcceptKind => SweepsMakeNoOffers(w, c);
    case RetireKind => RetiringMakesNoOffers(w, c);
    case HandoverKind => HandoverMakesNoOffers(w, c);
    case NewOfferKind =>
    case _ => OtherwiseSameOffers(w, c);
  }

  ghost function Changed(a: Offers, b: Offers): set<Id> {
    set i | i in a && i in b && a[i].status != b[i].status
  }

  ghost function Ranks(offers: Offers): map<Id, int> {
    map i | i in offers :: Rank(offers[i].status)
  }

  ghost function Roots(offers: Offers): set<Id> {
    set i | i in offers && offers[i].parentOfferId == None
  }

  /** The number of offer status changes over a run. */
  ghost function StatusChanges(calls: seq<Call>): nat {
    if calls == [] then 0
    else
      var before := Run(calls[..|calls| - 1]);
      StatusChanges(calls[..|calls| - 1]) + |Changed(before.offers, Run(calls).offers)|
  }

  /** The number of createOffer calls that were carried out. */
  ghost function Bids(calls: seq<Call>): nat {
    if calls == [] then 0
    else
      var last := calls[|calls| - 1];
      Bids(calls[..|calls| - 1]) + if Opening(Run(calls[..|calls| - 1]), last).Some? then 1 else 0
  }

  lemma RankDrops(a: OfferStatus, b: OfferStatus)
    requires Advances(a, b)
    ensures Rank(b) < Rank(a)
  {
  }

  /** Each status change lowers the ranks, each new offer brings four. */
  lemma {:induction false} ChangesPaid(a: Offers, b: Offers, opening: Option<Id>)
    requires Grows(a, b, opening)
    ensures |Changed(a, b)| + Sum(Ranks(b)) <= Sum(Ranks(a)) + 4 * (|b.Keys| - |a.Keys|)
  {
    var ra, rb, changed := Ranks(a), Ranks(b), Changed(a, b);
    forall i | i in ra ensures rb[i] <= ra[i] - if i in changed then 1 else 0 {
      assert Ages(a[i], b[i]);
      if i in changed { RankDrops(a[i].status, b[i].status); }
    }
    forall i | i in rb && i !in ra ensures rb[i] <= 4 { assert b[i].status == Pending; }
    assert ra.Keys == a.Keys && rb.Keys == b.Keys;
    SumLowered(ra, rb, changed);
  }

  /** Work done plus work left never exceeds four per offer. */
  lemma {:induction false} ChangesBounded(calls: seq<Call>)
    ensures StatusChanges(calls) + Sum(Ranks(Run(calls).offers)) <= 4 * |Run(calls).offers.Keys|
  {
    if calls == [] {
      assert Ranks(map[]) == map[];
    } else {
      var w, c := Run(calls[..|calls| - 1]), calls[|calls| - 1];
      ChangesBounded(calls[..|calls| - 1]);
      ReachableInv(calls[..|calls| - 1]);
      StepGrows(w, c);
      ChangesPaid(w.offers, Next(w, c).offers, Opening(w, c));
    }
  }

  lemma NewRoots(a: Offers, b: Offers, opening: Option<Id>)
    requires Grows(a, b, opening)
    ensures |Roots(b)| == |Roots(a)| + if opening.Some? then 1 else 0
  {
    forall i | i in b ensures i in Roots(b) <==> i in Roots(a) || opening == Some(i) {
      if i in a { assert Ages(a[i], b[i]); }
    }
    forall i | i in Roots(a) ensures i in Roots(b) { assert Ages(a[i], b[i]); }
    if opening.Some? {
      assert Roots(b) == Roots(a) + {opening.value};
    } else {
      assert Roots(b) == Roots(a);
    }
  }

  /** Opening bids are exactly the offers without a parent. */
  lemma {:induction false} RootsAreBids(calls: seq<Call>)
    ensures |Roots(Run(calls).offers)| == Bids(calls)
  {
    if calls == [] {
      assert Roots(map[]) == {};
    } else {
      var w, c := Run(calls[..|calls| - 1]), calls[|calls| - 1];
      RootsAreBids(calls[..|calls| - 1]);
      ReachableInv(calls[..|calls| - 1]);
      StepGrows(w, c);
      NewRoots(w.offers, Next(w, c).offers, Opening(w, c));
    }
  }

  ghost function ParentMap(offers: Offers): map<Id, Id> {
    map i | i in offers && offers[i].parentOfferId.Some? :: offers[i].parentOfferId.value
  }

  /** Offers of depth one and of depth two are no more than the roots: siblings do not exist. */
  lemma {:induction false} GenerationsBounded(offers: Offers, above: set<Id>, below: set<Id>)
    requires Threads(offers)
    requires below <= ParentMap(offers).Keys
    requires forall i | i in below :: ParentMap(offers)[i] in above
    ensures |below| <= |above|
  {
    var parent := ParentMap(offers);
    forall i, j | i in below && j in below && parent[i] == parent[j] ensures i == j {
      assert IsChild(offers, i, parent[i]) && IsChild(offers, j, parent[i]);
    }
    InjectionBound(below, parent, above);
  }

  /** A thread has at most three offers, so there are at most three offers per root. */
  lemma {:induction false} ThreePerRoot(offers: Offers)
    requires Threads(offers)
    ensures |offers.Keys| <= 3 * |Roots(offers)|
  {
    var roots, parent := Roots(offers), ParentMap(offers);
    var children := set i | i in parent && parent[i] in roots;
    var grandchildren := parent.Keys - children;
    forall i | i in grandchildren ensures parent[i] in children {
      assert IsChild(offers, i, parent[i]);
      assert Linked(offers, i, parent[i]);
      assert parent[i] in offers && parent[i] !in roots;
      assert parent[i] in parent;
    }
    GenerationsBounded(offers, roots, children);
    GenerationsBounded(offers, children, grandchildren);
    forall i | i in offers ensures i in roots || i in parent {
    }
    assert offers.Keys == roots + children + grandchildren;
    assert |roots + children + grandchildren| <= |roots| + |children| + |grandchildren|;
  }

  /** With n opening bids there are at most 3n offers and at most 12n status changes, whatever the parties do. */
  lemma {:induction false} NegotiationTerminates(calls: seq<Call>)
    ensures |Run(calls).offers.Keys| <= 3 * Bids(calls)
    ensures StatusChanges(calls) <= 12 * Bids(calls)
  {
    ReachableInv(calls);
    RootsAreBids(calls);
    ThreePerRoot(Run(calls).offers);
    ChangesBounded(calls);
    var left := Ranks(Run(calls).offers);
    forall i | i in left ensures left[i] >= 0 { assert left[i] == Rank(Run(calls).offers[i].status); }
    SumNonNegative(Ranks(Run(calls).offers));
  }

  /** No call writes an offer whose status is terminal. */
  lemma TerminalFrozen(w: World, c: Call, i: Id)
    requires i in w.offers && Rank(w.offers[i].status) == 0
    ensures i in Next(w, c).offers && Next(w, c).offers[i] == w.offers[i]
  {
    match KindOf(c.request)
    case ListingKind =>
    case AcceptKind =>
    case RetireKind =>
    case NewOfferKind =>
    case HandoverKind =>
    case _ => OtherwiseSameOffers(w, c);
  }

  lemma RunStep(calls: seq<Call>, c: Call)
    ensures Run(calls + [c]) == Next(Run(calls), c)
  {
    assert (calls + [c])[..|calls|] == calls;
  }

  /** An offer that reached a terminal status is never written again, over any continuation of the run. */
  lemma {:induction false} TerminalForever(calls: seq<Call>, more: seq<Call>, i: Id)
    requires i in Run(calls).offers && Rank(Run(calls).offers[i].status) == 0
    ensures i in Run(calls + more).offers && Run(calls + more).offers[i] == Run(calls).offers[i]
    decreases |more|
  {
    if more == [] {
      assert calls + more == calls;
    } else {
      var rest := more[..|more| - 1];
      TerminalForever(calls, rest, i);
      assert calls + more == calls + rest + [more[|more| - 1]];
      RunStep(calls + rest, more[|more| - 1]);
      TerminalFrozen(Run(calls + rest), more[|more| - 1], i);
    }
  }
}
