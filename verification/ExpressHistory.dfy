/** Who may do what with deliveries, what refusals mean, and where the stamps on a delivery come from. */
module ExpressHistory {
  import opened Basics
  import opened ExpressModel
  import opened ExpressGuarantees

  /** The courier has a delivery on the way. */
  ghost predicate OnTheWay(w: World, courierId: Id) {
    exists d :: d in w.deliveries && w.deliveries[d].courierId == Some(courierId)
      && (w.deliveries[d].status == Accepted || w.deliveries[d].status == PickedUp)
  }

  predicate IsCourierOf(w: World, userId: UserId, d: Id) {
    userId in w.couriers && d in w.deliveries && w.deliveries[d].courierId == Some(w.couriers[userId].id)
  }

  /** Who may do what, when, on the columns. */
  ghost predicate Allowed(w: World, r: Request) {
    match r
    case CreateCourierCall(newId, u, nationalId) =>
      && (u in w.couriers ==> w.couriers[u].status != CourierApproved)
      && (forall v | v in w.couriers && v != u :: w.couriers[v].nationalId != nationalId)
      && (u !in w.couriers ==> forall v | v in w.couriers :: w.couriers[v].id != newId)
    case ToggleOnlineCall(u, _) => u in w.couriers && w.couriers[u].status == CourierApproved
    case ReviewCourierCall(u, _) => u in w.couriers
    case CreateDeliveryCall(newId, kitchen) => kitchen == KitchenApproved && newId !in w.deliveries
    case AcceptDeliveryCall(u, d) =>
      && u in w.couriers && w.couriers[u].status == CourierApproved && w.couriers[u].isOnline
      && !OnTheWay(w, w.couriers[u].id) && d in w.deliveries && w.deliveries[d].status == Pending
    case PickupDeliveryCall(u, d) => IsCourierOf(w, u, d) && w.deliveries[d].status == Accepted
    case CompleteDeliveryCall(u, d) => IsCourierOf(w, u, d) && w.deliveries[d].status == PickedUp
  }

  lemma {:induction false} OnTheWaySeen(w: World, courierId: Id)
    ensures HasActive(w, courierId) <==> OnTheWay(w, courierId)
  {
    if HasActive(w, courierId) {
      var d :| d in w.deliveries && w.deliveries[d].courierId == Some(courierId) && w.deliveries[d].Active();
      assert w.deliveries[d].status == Accepted || w.deliveries[d].status == PickedUp;
    }
  }

  /** A call is carried out exactly when the table of rights allows it. */
  lemma {:induction false} CarriedOutIff(w: World, c: Call)
    ensures Step(w, c).Ok? <==> Allowed(w, c.request)
  {
    if c.request.AcceptDeliveryCall? && c.request.userId in w.couriers { OnTheWaySeen(w, w.couriers[c.request.userId].id); }
  }

  /** The courier profile a call is made from, and the delivery it is about. */
  function UserOf(r: Request): Option<UserId> {
    match r
    case CreateCourierCall(_, u, _) => Some(u)
    case ToggleOnlineCall(u, _) => Some(u)
    case ReviewCourierCall(u, _) => Some(u)
    case CreateDeliveryCall(_, _) => None
    case AcceptDeliveryCall(u, _) => Some(u)
    case PickupDeliveryCall(u, _) => Some(u)
    case CompleteDeliveryCall(u, _) => Some(u)
  }

  function DeliveryOf(r: Request): Option<Id> {
    match r
    case AcceptDeliveryCall(_, d) => Some(d)
    case PickupDeliveryCall(_, d) => Some(d)
    case CompleteDeliveryCall(_, d) => Some(d)
    case _ => None
  }

  /** The facts each refusal reports. */
  ghost predicate Truthful(w: World, r: Request, e: ExpressError) {
    var u, d := UserOf(r), DeliveryOf(r);
    match e
    case CourierNotFound => !r.CreateCourierCall? && u.Some? && u.value !in w.couriers
    case ProfileLocked => r.CreateCourierCall? && r.userId in w.couriers && w.couriers[r.userId].status == CourierApproved
    case NationalIdTaken =>
      r.CreateCourierCall? && exists v :: v in w.couriers && v != r.userId && w.couriers[v].nationalId == r.nationalId
    case NotApproved => (r.ToggleOnlineCall? || r.AcceptDeliveryCall?) && u.value in w.couriers && w.couriers[u.value].status != CourierApproved
    case NotOnline => r.AcceptDeliveryCall? && u.value in w.couriers && !w.couriers[u.value].isOnline
    case AlreadyActive => r.AcceptDeliveryCall? && u.value in w.couriers && OnTheWay(w, w.couriers[u.value].id)
    case DeliveryNotFound => d.Some? && d.value !in w.deliveries
    case NotAvailable => r.AcceptDeliveryCall? && d.value in w.deliveries && w.deliveries[d.value].status != Pending
    case NotAssigned => (r.PickupDeliveryCall? || r.CompleteDeliveryCall?) && d.value in w.deliveries && !IsCourierOf(w, u.value, d.value)
    case WrongStatus =>
      && d.Some? && d.value in w.deliveries
      && ((r.PickupDeliveryCall? && w.deliveries[d.value].status != Accepted)
          || (r.CompleteDeliveryCall? && w.deliveries[d.value].status != PickedUp))
    case KitchenNotFound => r.CreateDeliveryCall? && r.kitchen == NoKitchen
    case KitchenNotApproved => r.CreateDeliveryCall? && r.kitchen == KitchenPending
    case UniqueViolation =>
      || (r.CreateCourierCall? && exists v :: v in w.couriers && w.couriers[v].id == r.newId)
      || (r.CreateDeliveryCall? && r.newId in w.deliveries)
  }

  /** A refusal reports something that is the case, and writes nothing. */
  lemma {:induction false} RefusalsTruthful(w: World, c: Call)
    requires Step(w, c).Err?
    ensures Truthful(w, c.request, Step(w, c).error) && Next(w, c) == w
  {
    if c.request.AcceptDeliveryCall? && c.request.userId in w.couriers { OnTheWaySeen(w, w.couriers[c.request.userId].id); }
  }

  // ---------- Where the stamps come from ----------

  /** A call by this courier that moves this delivery to a status. */
  predicate Moves(w: World, r: Request, d: Id, courierId: Id, to: DeliveryStatus) {
    match r
    case AcceptDeliveryCall(u, id) => to == Accepted && id == d && u in w.couriers && w.couriers[u].id == courierId
    case PickupDeliveryCall(u, id) => to == PickedUp && id == d && u in w.couriers && w.couriers[u].id == courierId
    case CompleteDeliveryCall(u, id) => to == Delivered && id == d && u in w.couriers && w.couriers[u].id == courierId
    case _ => false
  }

  /** The i-th call of the run was carried out, and so moved the delivery, at this time. */
  ghost predicate MovedAt(calls: seq<Call>, i: nat, d: Id, courierId: Id, to: DeliveryStatus, at: Time)
    requires i < |calls|
  {
    && Moves(Run(calls[..i]), calls[i].request, d, courierId, to) && calls[i].now == at
    && Step(Run(calls[..i]), calls[i]).Ok?
  }

  ghost predicate Moved(calls: seq<Call>, d: Id, courierId: Id, to: DeliveryStatus, at: Time) {
    exists i :: 0 <= i < |calls| && MovedAt(calls, i, d, courierId, to, at)
  }

  lemma MovedExtends(calls: seq<Call>, c: Call, d: Id, courierId: Id, to: DeliveryStatus, at: Time)
    requires Moved(calls, d, courierId, to, at)
    ensures Moved(calls + [c], d, courierId, to, at)
  {
    var i :| 0 <= i < |calls| && MovedAt(calls, i, d, courierId, to, at);
    assert (calls + [c])[..i] == calls[..i];
    assert MovedAt(calls + [c], i, d, courierId, to, at);
  }

  lemma MovedLast(calls: seq<Call>, c: Call, d: Id, courierId: Id, to: DeliveryStatus)
    requires Moves(Run(calls), c.request, d, courierId, to) && Step(Run(calls), c).Ok?
    ensures Moved(calls + [c], d, courierId, to, c.now)
  {
    assert (calls + [c])[..|calls|] == calls;
    assert MovedAt(calls + [c], |calls|, d, courierId, to, c.now);
  }

  /** Every stamp of the delivery is the time of a call by its courier that moved it to that stage. */
  ghost predicate Witnessed(calls: seq<Call>, d: Id, x: Delivery) {
    x.courierId.Some? ==>
      && (x.acceptedAt.Some? ==> Moved(calls, d, x.courierId.value, Accepted, x.acceptedAt.value))
      && (x.pickedUpAt.Some? ==> Moved(calls, d, x.courierId.value, PickedUp, x.pickedUpAt.value))
      && (x.deliveredAt.Some? ==> Moved(calls, d, x.courierId.value, Delivered, x.deliveredAt.value))
  }

  /** What a step does to one delivery. */
  lemma {:induction false} StepMoves(w: World, c: Call, d: Id)
    requires d in Next(w, c).deliveries && (d in w.deliveries ==> Filled(w.deliveries[d]))
    ensures var y := Next(w, c).deliveries[d];
      || (d in w.deliveries && y == w.deliveries[d])
      || (d !in w.deliveries && y == Delivery(Pending, None, None, None, None))
      || (d in w.deliveries && Step(w, c).Ok? && y.courierId.Some? && Moves(w, c.request, d, y.courierId.value, y.status)
          && var x := w.deliveries[d];
             match y.status
             case Accepted => x.courierId.None? && y == x.(status := Accepted, courierId := y.courierId, acceptedAt := Some(c.now))
             case PickedUp => x.courierId == y.courierId && y == x.(status := PickedUp, pickedUpAt := Some(c.now))
             case Delivered => x.courierId == y.courierId && y == x.(status := Delivered, deliveredAt := Some(c.now))
             case Pending => false)
  {
  }

  lemma {:induction false} WitnessedExtends(calls: seq<Call>, c: Call, d: Id, x: Delivery)
    requires Witnessed(calls, d, x)
    ensures Witnessed(calls + [c], d, x)
  {
    if x.courierId.Some? {
      var k := x.courierId.value;
      if x.acceptedAt.Some? { MovedExtends(calls, c, d, k, Accepted, x.acceptedAt.value); }
      if x.pickedUpAt.Some? { MovedExtends(calls, c, d, k, PickedUp, x.pickedUpAt.value); }
      if x.deliveredAt.Some? { MovedExtends(calls, c, d, k, Delivered, x.deliveredAt.value); }
    }
  }

  /**
   * In every run each stage a delivery has reached was reached by a carried-out call of its one courier, at the time
   * stamped on it.
   */
  lemma {:induction false} StampsWitnessed(calls: seq<Call>, d: Id)
    requires d in Run(calls).deliveries
    ensures Filled(Run(calls).deliveries[d]) && Witnessed(calls, d, Run(calls).deliveries[d])
  {
    ReachableBooks(calls);
    var before, c := calls[..|calls| - 1], calls[|calls| - 1];
    assert calls == before + [c];
    var w, y := Run(before), Run(calls).deliveries[d];
    ReachableBooks(before);
    StepMoves(w, c, d);
    if d in w.deliveries {
      StampsWitnessed(before, d);
      WitnessedExtends(before, c, d, w.deliveries[d]);
      if y != w.deliveries[d] { MovedLast(before, c, d, y.courierId.value, y.status); }
    }
  }

  predicate MayTakeOn(w: World, u: UserId, courierId: Id) {
    u in w.couriers && w.couriers[u].id == courierId && w.couriers[u].status == CourierApproved && w.couriers[u].isOnline
  }

  /** A delivery is accepted only by an approved courier who is online and has nothing on the way. */
  lemma {:induction false} AcceptedByFreeCourier(calls: seq<Call>, i: nat, d: Id, courierId: Id, at: Time)
    requires i < |calls| && MovedAt(calls, i, d, courierId, Accepted, at)
    ensures exists u :: MayTakeOn(Run(calls[..i]), u, courierId)
    ensures !OnTheWay(Run(calls[..i]), courierId)
  {
    CarriedOutIff(Run(calls[..i]), calls[i]);
    assert MayTakeOn(Run(calls[..i]), calls[i].request.userId, courierId);
  }

  // ---------- Couriers ----------

  /** The last carried-out review of the courier since the profile was last submitted. */
  function LastVerdict(calls: seq<Call>, u: UserId): CourierStatus {
    if calls == [] then CourierPending
    else
      var before, c := calls[..|calls| - 1], calls[|calls| - 1];
      if Step(Run(before), c).Err? then LastVerdict(before, u)
      else
        match c.request
        case CreateCourierCall(_, v, _) => if v == u then CourierPending else LastVerdict(before, u)
        case ReviewCourierCall(v, approve) =>
          if v != u then LastVerdict(before, u) else if approve then CourierApproved else CourierRejected
        case _ => LastVerdict(before, u)
  }

  /** Whether the courier is online by the calls: off after a submission, then as last set. */
  function LastSwitch(calls: seq<Call>, u: UserId): bool {
    if calls == [] then false
    else
      var before, c := calls[..|calls| - 1], calls[|calls| - 1];
      if Step(Run(before), c).Err? then LastSwitch(before, u)
      else
        match c.request
        case CreateCourierCall(_, v, _) => if v == u then false else LastSwitch(before, u)
        case ToggleOnlineCall(v, isOnline) => if v == u then isOnline else LastSwitch(before, u)
        case _ => LastSwitch(before, u)
  }

  /** The id a courier was first registered with, and the national id submitted last. */
  function LastSubmitted(calls: seq<Call>, u: UserId): Option<(Id, int)> {
    if calls == [] then None
    else
      var before, c := calls[..|calls| - 1], calls[|calls| - 1];
      var was := LastSubmitted(before, u);
      if c.request.CreateCourierCall? && c.request.userId == u && Step(Run(before), c).Ok?
      then Some((if was.Some? then was.value.0 else c.request.newId, c.request.nationalId)) else was
  }

  /** In every run the couriers are those who registered, under their first id and their last national id. */
  lemma {:induction false} CourierAsSubmitted(calls: seq<Call>, u: UserId)
    ensures (if u in Run(calls).couriers then Some((Run(calls).couriers[u].id, Run(calls).couriers[u].nationalId)) else None)
      == LastSubmitted(calls, u)
  {
    if calls != [] { CourierAsSubmitted(calls[..|calls| - 1], u); }
  }

  /** In every run a courier's approval and online flag are those the calls last gave. */
  lemma {:induction false} CourierAsLastSet(calls: seq<Call>, u: UserId)
    requires u in Run(calls).couriers
    ensures Run(calls).couriers[u].status == LastVerdict(calls, u)
    ensures Run(calls).couriers[u].isOnline == LastSwitch(calls, u)
  {
    var before := calls[..|calls| - 1];
    if u in Run(before).couriers { CourierAsLastSet(before, u); }
  }
}
