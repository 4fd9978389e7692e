/** Exclusive assignment of deliveries, over whole runs. */
module ExpressGuarantees {
  import opened Basics
  import opened ExpressModel

  /** Courier ids and national ids identify couriers; a courier under review is offline. */
  ghost predicate CouriersOk(w: World) {
    && (forall u, v | u in w.couriers && v in w.couriers && w.couriers[u].id == w.couriers[v].id :: u == v)
    && (forall u, v | u in w.couriers && v in w.couriers && w.couriers[u].nationalId == w.couriers[v].nationalId :: u == v)
    && (forall u | u in w.couriers :: w.couriers[u].status.CourierPending? ==> !w.couriers[u].isOnline)
  }

  /** The columns a delivery of each status has filled in. */
  predicate Filled(d: Delivery) {
    && (d.courierId.Some? <==> !d.status.Pending?)
    && (d.acceptedAt.Some? <==> !d.status.Pending?)
    && (d.pickedUpAt.Some? <==> d.status.PickedUp? || d.status.Delivered?)
    && (d.deliveredAt.Some? <==> d.status.Delivered?)
  }

  ghost predicate OneActiveEach(w: World) {
    forall d, e | d in w.deliveries && e in w.deliveries && w.deliveries[d].Active() && w.deliveries[e].Active()
      && w.deliveries[d].courierId == w.deliveries[e].courierId :: d == e
  }

  /** What holds whatever the clock does. */
  ghost predicate Books(w: World) {
    CouriersOk(w) && (forall d | d in w.deliveries :: Filled(w.deliveries[d])) && OneActiveEach(w)
  }

  lemma {:induction false} AcceptKeepsBooks(w: World, userId: UserId, id: Id, now: Time)
    requires Books(w) && AcceptDelivery(w, userId, id, now).Ok?
    ensures Books(AcceptDelivery(w, userId, id, now).value)
  {
    assert forall e | e in w.deliveries && w.deliveries[e].Active() :: w.deliveries[e].courierId != Some(w.couriers[userId].id);
  }

  lemma CourierCallsKeepBooks(w: World, c: Call)
    requires Books(w) && (c.request.CreateCourierCall? || c.request.ToggleOnlineCall? || c.request.ReviewCourierCall?)
    ensures Books(Next(w, c))
  {
  }

  lemma {:induction false} StepKeepsBooks(w: World, c: Call)
    requires Books(w)
    ensures Books(Next(w, c))
  {
    match c.request
    case AcceptDeliveryCall(userId, id) => if Step(w, c).Ok? { AcceptKeepsBooks(w, userId, id, c.now); }
    case CreateCourierCall(_, _, _) => CourierCallsKeepBooks(w, c);
    case ToggleOnlineCall(_, _) => CourierCallsKeepBooks(w, c);
    case ReviewCourierCall(_, _) => CourierCallsKeepBooks(w, c);
    case _ =>
  }

  lemma {:induction false} ReachableBooks(calls: seq<Call>)
    ensures Books(Run(calls))
  {
    if calls != [] {
      ReachableBooks(calls[..|calls| - 1]);
      StepKeepsBooks(Run(calls[..|calls| - 1]), calls[|calls| - 1]);
    }
  }

  /** Filled in, and in time order. */
  predicate Stamped(d: Delivery, now: Time) {
    && Filled(d)
    && (d.acceptedAt.Some? ==> d.acceptedAt.value <= now)
    && (d.pickedUpAt.Some? ==> d.acceptedAt.value <= d.pickedUpAt.value <= now)
    && (d.deliveredAt.Some? ==> d.pickedUpAt.value <= d.deliveredAt.value <= now)
  }

  /** The first was delivered before the second was accepted. */
  predicate Precedes(d: Delivery, e: Delivery) {
    d.deliveredAt.Some? && e.acceptedAt.Some? && d.deliveredAt.value <= e.acceptedAt.value
  }

  ghost predicate Apart(w: World, d: Id, e: Id)
    requires d in w.deliveries && e in w.deliveries
  {
    var x, y := w.deliveries[d], w.deliveries[e];
    x.courierId.Some? && x.courierId == y.courierId && d != e ==> Precedes(x, y) || Precedes(y, x)
  }

  ghost predicate Inv(w: World, now: Time) {
    && (forall d | d in w.deliveries :: Stamped(w.deliveries[d], now))
    && (forall d, e {:trigger Apart(w, d, e)} | d in w.deliveries && e in w.deliveries :: Apart(w, d, e))
  }

  /** One delivery is rewritten so that it stays apart from the others of its courier. */
  lemma {:induction false} RewriteKeeps(w: World, id: Id, d: Delivery, now: Time)
    requires Inv(w, now) && Stamped(d, now)
    requires forall e | e in w.deliveries && e != id && d.courierId.Some? && w.deliveries[e].courierId == d.courierId ::
               Precedes(d, w.deliveries[e]) || Precedes(w.deliveries[e], d)
    ensures Inv(w.(deliveries := w.deliveries[id := d]), now)
  {
    var w' := w.(deliveries := w.deliveries[id := d]);
    forall x, y | x in w'.deliveries && y in w'.deliveries ensures Apart(w', x, y) {
      if x != id && y != id { assert Apart(w, x, y); }
    }
  }

  lemma {:induction false} StepKeeps(w: World, c: Call)
    requires Inv(w, c.now)
    ensures Inv(Next(w, c), c.now)
  {
    if Step(w, c).Ok? {
      var w' := Step(w, c).value;
      match c.request
      case CreateDeliveryCall(id, _) => RewriteKeeps(w, id, w'.deliveries[id], c.now);
      case AcceptDeliveryCall(userId, id) =>
        AcceptApart(w, userId, id, c.now);
        RewriteKeeps(w, id, w'.deliveries[id], c.now);
      case PickupDeliveryCall(_, id) =>
        forall e | e in w.deliveries ensures Apart(w, id, e) { assert Apart(w, id, e); }
        RewriteKeeps(w, id, w'.deliveries[id], c.now);
      case CompleteDeliveryCall(_, id) =>
        forall e | e in w.deliveries ensures Apart(w, id, e) { assert Apart(w, id, e); }
        RewriteKeeps(w, id, w'.deliveries[id], c.now);
      case _ =>
        forall x, y | x in w'.deliveries && y in w'.deliveries ensures Apart(w', x, y) { assert Apart(w, x, y); }
    }
  }

  /** A courier who may accept has delivered everything assigned before. */
  lemma AcceptApart(w: World, userId: UserId, id: Id, now: Time)
    requires Inv(w, now) && AcceptDelivery(w, userId, id, now).Ok?
    ensures forall e | e in w.deliveries && w.deliveries[e].courierId == Some(w.couriers[userId].id) ::
      w.deliveries[e].deliveredAt.Some? && w.deliveries[e].deliveredAt.value <= now
  {
  }

  lemma Later(w: World, now: Time, later: Time)
    requires Inv(w, now) && now <= later
    ensures Inv(w, later)
  {
  }

  lemma {:induction false} ReachableInv(calls: seq<Call>, now: Time)
    requires Monotone(calls) && forall i | 0 <= i < |calls| :: calls[i].now <= now
    ensures Inv(Run(calls), now)
  {
    if calls != [] {
      var before, c := calls[..|calls| - 1], calls[|calls| - 1];
      ReachableInv(before, c.now);
      StepKeeps(Run(before), c);
      Later(Run(calls), c.now, now);
    }
  }

  lemma {:induction false} RunInv(calls: seq<Call>) returns (now: Time)
    requires Monotone(calls)
    ensures Inv(Run(calls), now)
  {
    now := if calls == [] then 0 else calls[|calls| - 1].now;
    ReachableInv(calls, now);
  }

  /** In every run two deliveries of one courier have disjoint accept-to-deliver intervals. */
  lemma {:induction false} IntervalsDisjoint(calls: seq<Call>, d: Id, e: Id)
    requires Monotone(calls)
    requires var ds := Run(calls).deliveries;
      d in ds && e in ds && d != e && ds[d].courierId.Some? && ds[d].courierId == ds[e].courierId
    ensures var ds := Run(calls).deliveries; Precedes(ds[d], ds[e]) || Precedes(ds[e], ds[d])
  {
    var now := RunInv(calls);
    assert Apart(Run(calls), d, e);
  }

  /** In every run, whatever the clock does, a courier has at most one delivery that is accepted or picked up. */
  lemma {:induction false} OneActive(calls: seq<Call>, d: Id, e: Id)
    requires var ds := Run(calls).deliveries;
      && d in ds && e in ds && ds[d].Active() && ds[e].Active() && ds[d].courierId == ds[e].courierId
    ensures d == e
  {
    ReachableBooks(calls);
  }

  /** In every run a delivery names a courier exactly from acceptance on, and a courier under review is offline. */
  lemma {:induction false} AssignedFromAcceptance(calls: seq<Call>, d: Id, u: UserId)
    ensures d in Run(calls).deliveries ==> (Run(calls).deliveries[d].courierId.Some? <==> Run(calls).deliveries[d].status != Pending)
    ensures u in Run(calls).couriers && Run(calls).couriers[u].status.CourierPending? ==> !Run(calls).couriers[u].isOnline
  {
    ReachableBooks(calls);
  }

  predicate Advances(a: DeliveryStatus, b: DeliveryStatus) {
    match a
    case Pending => b.Accepted?
    case Accepted => b.PickedUp?
    case PickedUp => b.Delivered?
    case Delivered => false
  }

  /** A step moves a delivery at most one stage on, and never changes an assignment or a stamp once made. */
  lemma StepAdvances(w: World, c: Call, d: Id)
    requires d in w.deliveries && (w.deliveries[d].courierId.Some? <==> !w.deliveries[d].status.Pending?)
    ensures d in Next(w, c).deliveries
    ensures var a, b := w.deliveries[d], Next(w, c).deliveries[d];
      && (a == b || Advances(a.status, b.status))
      && (a.courierId.Some? ==> b.courierId == a.courierId)
      && (b.courierId.Some? <==> !b.status.Pending?)
  {
  }

  /** Over any continuation of a run the courier of an accepted delivery stays the same. */
  lemma {:induction false} CourierFixed(calls: seq<Call>, more: seq<Call>, d: Id)
    requires d in Run(calls).deliveries && Run(calls).deliveries[d].courierId.Some?
    ensures d in Run(calls + more).deliveries
    ensures Run(calls + more).deliveries[d].courierId == Run(calls).deliveries[d].courierId
    ensures Run(calls + more).deliveries[d].courierId.Some? <==> !Run(calls + more).deliveries[d].status.Pending?
    decreases |more|
  {
    if more == [] {
      assert calls + more == calls;
      AssignedFromAcceptance(calls, d, 0);
    } else {
      var rest := more[..|more| - 1];
      CourierFixed(calls, rest, d);
      assert (calls + more)[..|calls + more| - 1] == calls + rest;
      StepAdvances(Run(calls + rest), more[|more| - 1], d);
    }
  }
}
