/** That the rows are as the calls left them: prices, settlements, settings and statuses traced back over whole runs. */
module SoukRecords {
  import opened Basics
  import L = TokenLedger
  import opened SoukModel
  import opened SoukInvariant
  import opened SoukPreservation
  import opened SoukTermination
  import opened SoukRoles
  import opened SoukCounters
  import opened SoukAdmission

  // ---------- Listings ----------

  /** Who made the listing, and the price named last by a carried-out call. */
  ghost function LastListed(calls: seq<Call>, l: Id): Option<(UserId, int)> {
    if calls == [] then None
    else
      var before, c := calls[..|calls| - 1], calls[|calls| - 1];
      var was := LastListed(before, l);
      if !Allowed(Run(before), c) then was
      else
        match c.request
        case CreateListingCall(newId, seller, price, _) => if newId == l then Some((seller, price)) else was
        case UpdateListingCall(id, _, price) => if id == l && price.Some? && was.Some? then Some((was.value.0, price.value)) else was
        case _ => was
  }

  lemma ListingCallsRecord(w: World, c: Call, l: Id)
    requires KindOf(c.request) == ListingKind
    ensures l in Next(w, c).listings <==>
      l in w.listings || (c.request.CreateListingCall? && c.request.newId == l && Step(w, c).Ok?)
    ensures l in Next(w, c).listings ==>
      var listing := Next(w, c).listings[l];
      if c.request.CreateListingCall? && c.request.newId == l && Step(w, c).Ok?
      then listing.sellerId == c.request.sellerId && listing.askingPrice == c.request.askingPrice && listing.status == Active
      else
        && listing.sellerId == w.listings[l].sellerId
        && listing.askingPrice ==
             (if c.request.UpdateListingCall? && c.request.listingId == l && c.request.newPrice.Some? && Step(w, c).Ok?
              then c.request.newPrice.value else w.listings[l].askingPrice)
        && listing.status ==
             (if c.request.DeleteListingCall? && c.request.listingId == l && Step(w, c).Ok? then Removed else w.listings[l].status)
  {
  }

  lemma OtherCallsKeepListing(w: World, c: Call, l: Id)
    requires KindOf(c.request) != ListingKind
    ensures l in Next(w, c).listings <==> l in w.listings
    ensures l in w.listings ==>
      Next(w, c).listings[l].sellerId == w.listings[l].sellerId && Next(w, c).listings[l].askingPrice == w.listings[l].askingPrice
  {
    match KindOf(c.request)
    case AcceptKind =>
    case RetireKind =>
    case NewOfferKind =>
    case HandoverKind =>
    case DisputeKind =>
    case TokenKind =>
  }

  /** In every run a listing belongs to whoever made it, at the price that seller named last. */
  lemma {:induction false} ListingAsLastNamed(calls: seq<Call>, l: Id)
    ensures (if l in Run(calls).listings then Some((Run(calls).listings[l].sellerId, Run(calls).listings[l].askingPrice)) else None)
      == LastListed(calls, l)
  {
    if calls != [] {
      var before, c := calls[..|calls| - 1], calls[|calls| - 1];
      ListingAsLastNamed(before, l);
      CarriedOutIff(before, c);
      if KindOf(c.request) == ListingKind { ListingCallsRecord(Run(before), c, l); } else { OtherCallsKeepListing(Run(before), c, l); }
    }
  }

  // ---------- Disputes ----------

  /** The dispute as the calls left it: opened against the other party, and settled by the first verdict. */
  ghost function LastDisputed(calls: seq<Call>, d: Id): Option<Dispute> {
    if calls == [] then None
    else
      var before, c := calls[..|calls| - 1], calls[|calls| - 1];
      var was := LastDisputed(before, d);
      if Step(Run(before), c).Err? then was
      else
        match c.request
        case CreateDisputeCall(newId, id, u) =>
          if newId != d || id !in Run(before).offers then was
          else
            var o := Run(before).offers[id];
            Some(Dispute(id, u, if u == o.buyerId then o.sellerId else o.buyerId, DisputeOpen, None, None))
        case ResolveDisputeCall(id, u) =>
          if id == d && was.Some?
          then Some(was.value.(status := DisputeResolved, resolvedById := Some(u), resolvedAt := Some(c.now))) else was
        case RejectDisputeCall(id, u) =>
          if id == d && was.Some?
          then Some(was.value.(status := DisputeRejected, resolvedById := Some(u), resolvedAt := Some(c.now))) else was
        case _ => was
  }

  lemma OtherCallsKeepDisputes(w: World, c: Call)
    requires KindOf(c.request) != DisputeKind
    ensures Next(w, c).disputes == w.disputes
  {
    match KindOf(c.request)
    case ListingKind =>
    case AcceptKind =>
    case RetireKind =>
    case NewOfferKind =>
    case HandoverKind =>
    case TokenKind =>
  }

  /** In every run a dispute names its offer, its filer and the other party, and the verdict given on it, by whom and when. */
  lemma {:induction false} DisputeAsLastLeft(calls: seq<Call>, d: Id)
    ensures (if d in Run(calls).disputes then Some(Run(calls).disputes[d]) else None) == LastDisputed(calls, d)
  {
    if calls != [] {
      var before, c := calls[..|calls| - 1], calls[|calls| - 1];
      DisputeAsLastLeft(before, d);
      if KindOf(c.request) != DisputeKind { OtherCallsKeepDisputes(Run(before), c); }
    }
  }

  // ---------- Token settings ----------

  ghost function LastPricing(calls: seq<Call>, activity: L.Activity): Option<L.Pricing> {
    if calls == [] then None
    else
      var r := calls[|calls| - 1].request;
      if r.SetPricingCall? && r.activity == activity then Some(L.Pricing(r.cost, r.isActive))
      else LastPricing(calls[..|calls| - 1], activity)
  }

  ghost function LastAllocation(calls: seq<Call>, b: L.Budget): Option<int> {
    if calls == [] then None
    else
      var before, c := calls[..|calls| - 1], calls[|calls| - 1];
      var r := c.request;
      if r.AllocateCall? && L.Budget(r.userId, r.activity, r.tokenType) == b && Allowed(Run(before), c) then Some(r.amount)
      else LastAllocation(before, b)
  }

  lemma AcceptKeepsSettings(w: World, c: Call)
    requires KindOf(c.request) == AcceptKind
    ensures Next(w, c).ledger.pricing == w.ledger.pricing && Next(w, c).ledger.allocations == w.ledger.allocations
  {
  }

  lemma MarketKeepsSettings(w: World, c: Call)
    requires KindOf(c.request) != TokenKind
    ensures Next(w, c).ledger.pricing == w.ledger.pricing && Next(w, c).ledger.allocations == w.ledger.allocations
  {
    match KindOf(c.request)
    case ListingKind =>
    case AcceptKind => AcceptKeepsSettings(w, c);
    case RetireKind =>
    case NewOfferKind =>
    case HandoverKind =>
    case DisputeKind =>
  }

  lemma MoneyKeepsSettings(w: World, c: Call)
    requires c.request.CreditCall? || c.request.SpendCall?
    ensures Next(w, c).ledger.pricing == w.ledger.pricing && Next(w, c).ledger.allocations == w.ledger.allocations
  {
  }

  lemma AllocateRecords(w: World, c: Call)
    requires c.request.AllocateCall?
    ensures var l, l', r := w.ledger, Next(w, c).ledger, c.request;
      && l'.pricing == l.pricing
      && l'.allocations ==
           if Step(w, c).Ok? then l.allocations[L.Budget(r.userId, r.activity, r.tokenType) := r.amount] else l.allocations
  {
  }

  lemma SetPricingRecords(w: World, c: Call)
    requires c.request.SetPricingCall?
    ensures Next(w, c).ledger.pricing == w.ledger.pricing[c.request.activity := L.Pricing(c.request.cost, c.request.isActive)]
    ensures Next(w, c).ledger.allocations == w.ledger.allocations
  {
  }

  lemma TokenCallsRecord(w: World, c: Call)
    requires KindOf(c.request) == TokenKind
    ensures var l, l', r := w.ledger, Next(w, c).ledger, c.request;
      && l'.pricing == (if r.SetPricingCall? then l.pricing[r.activity := L.Pricing(r.cost, r.isActive)] else l.pricing)
      && l'.allocations ==
           (if r.AllocateCall? && Step(w, c).Ok? then l.allocations[L.Budget(r.userId, r.activity, r.tokenType) := r.amount]
            else l.allocations)
  {
    if c.request.AllocateCall? { AllocateRecords(w, c); }
    else if c.request.SetPricingCall? { SetPricingRecords(w, c); }
    else { MoneyKeepsSettings(w, c); }
  }

  /** In every run prices are as last set. */
  lemma {:induction false} PricingAsLastSet(calls: seq<Call>, activity: L.Activity)
    ensures var l := Run(calls).ledger;
      (if activity in l.pricing then Some(l.pricing[activity]) else None) == LastPricing(calls, activity)
  {
    if calls != [] {
      var before, c := calls[..|calls| - 1], calls[|calls| - 1];
      PricingAsLastSet(before, activity);
      if KindOf(c.request) == TokenKind { TokenCallsRecord(Run(before), c); } else { MarketKeepsSettings(Run(before), c); }
    }
  }

  /** In every run earmarks are as last set by a call that was carried out. */
  lemma {:induction false} AllocationAsLastSet(calls: seq<Call>, b: L.Budget)
    ensures var l := Run(calls).ledger;
      (if b in l.allocations then Some(l.allocations[b]) else None) == LastAllocation(calls, b)
  {
    if calls != [] {
      var before, c := calls[..|calls| - 1], calls[|calls| - 1];
      AllocationAsLastSet(before, b);
      CarriedOutIff(before, c);
      if KindOf(c.request) == TokenKind { TokenCallsRecord(Run(before), c); } else { MarketKeepsSettings(Run(before), c); }
    }
  }
}
