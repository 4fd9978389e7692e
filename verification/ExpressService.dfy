/** The Express service: courier and delivery rows updated in place. */
module ExpressServices {
  import opened Basics
  import M = ExpressModel

  /** The call wrote exactly what its specification says, or was refused and wrote nothing. */
  ghost predicate Carries(before: M.World, after: M.World, spec: M.Outcome, refused: Option<M.ExpressError>) {
    match spec
    case Ok(w) => after == w && refused == None
    case Err(e) => after == before && refused == Some(e)
  }

  class ExpressService {
    var couriers: map<UserId, M.Courier>
    var deliveries: map<Id, M.Delivery>

    ghost function View(): M.World
      reads this
    {
      M.World(couriers, deliveries)
    }

    constructor ()
      ensures View() == M.EMPTY_WORLD
    {
      couriers, deliveries := map[], map[];
    }

    method CreateCourier(newId: Id, userId: UserId, nationalId: int) returns (refused: Option<M.ExpressError>)
      modifies `couriers
      ensures Carries(old(View()), View(), M.CreateCourier(old(View()), newId, userId, nationalId), refused)
    {
      var taken := exists u | u in couriers :: u != userId && couriers[u].nationalId == nationalId;
      if userId in couriers {
        var existing := couriers[userId];
        if existing.status == M.CourierApproved { return Some(M.ProfileLocked); }
        if taken { return Some(M.NationalIdTaken); }
        couriers := couriers[userId := existing.(nationalId := nationalId, status := M.CourierPending, isOnline := false)];
        return None;
      }
      if taken { return Some(M.NationalIdTaken); }
      if exists u | u in couriers :: couriers[u].id == newId { return Some(M.UniqueViolation); }
      couriers := couriers[userId := M.Courier(newId, nationalId, M.CourierPending, false)];
      return None;
    }

    method ToggleOnline(userId: UserId, isOnline: bool) returns (refused: Option<M.ExpressError>)
      modifies `couriers
      ensures Carries(old(View()), View(), M.ToggleOnline(old(View()), userId, isOnline), refused)
    {
      if userId !in couriers { return Some(M.CourierNotFound); }
      var courier := couriers[userId];
      if courier.status != M.CourierApproved { return Some(M.NotApproved); }
      couriers := couriers[userId := courier.(isOnline := isOnline)];
      return None;
    }

    method CreateDeliveryRequest(newId: Id, kitchen: M.KitchenGate) returns (refused: Option<M.ExpressError>)
      modifies `deliveries
      ensures Carries(old(View()), View(), M.CreateDeliveryRequest(old(View()), newId, kitchen), refused)
    {
      if kitchen == M.NoKitchen { return Some(M.KitchenNotFound); }
      if kitchen != M.KitchenApproved { return Some(M.KitchenNotApproved); }
      if newId in deliveries { return Some(M.UniqueViolation); }
      deliveries := deliveries[newId := M.Delivery(M.Pending, None, None, None, None)];
      return None;
    }

    /** Some delivery of the caller that is accepted or picked up, if there is one. */
    method GetActiveDelivery(userId: UserId) returns (r: Result<Option<Id>, M.ExpressError>)
      ensures userId !in couriers ==> r == Err(M.CourierNotFound)
      ensures userId in couriers ==> r.Ok? && (r.value.Some? <==> M.HasActive(View(), couriers[userId].id))
      ensures r.Ok? && r.value.Some? ==>
        && r.value.value in deliveries
        && deliveries[r.value.value].courierId == Some(couriers[userId].id) && deliveries[r.value.value].Active()
    {
      if userId !in couriers { return Err(M.CourierNotFound); }
      var courierId := couriers[userId].id;
      if exists d | d in deliveries :: deliveries[d].courierId == Some(courierId) && deliveries[d].Active() {
        var d :| d in deliveries && deliveries[d].courierId == Some(courierId) && deliveries[d].Active();
        return Ok(Some(d));
      }
      return Ok(None);
    }

    method AcceptDelivery(userId: UserId, deliveryId: Id, now: Time) returns (refused: Option<M.ExpressError>)
      modifies `deliveries
      ensures Carries(old(View()), View(), M.AcceptDelivery(old(View()), userId, deliveryId, now), refused)
    {
      if userId !in couriers { return Some(M.CourierNotFound); }
      var courier := couriers[userId];
      if courier.status != M.CourierApproved { return Some(M.NotApproved); }
      if !courier.isOnline { return Some(M.NotOnline); }
      var active := GetActiveDelivery(userId);
      if active.value.Some? { return Some(M.AlreadyActive); }
      if deliveryId !in deliveries { return Some(M.DeliveryNotFound); }
      if deliveries[deliveryId].status != M.Pending { return Some(M.NotAvailable); }
      deliveries := deliveries[deliveryId :=
        deliveries[deliveryId].(status := M.Accepted, courierId := Some(courier.id), acceptedAt := Some(now))];
      return None;
    }

    method PickupDelivery(userId: UserId, deliveryId: Id, now: Time) returns (refused: Option<M.ExpressError>)
      modifies `deliveries
      ensures Carries(old(View()), View(), M.PickupDelivery(old(View()), userId, deliveryId, now), refused)
    {
      if userId !in couriers { return Some(M.CourierNotFound); }
      if deliveryId !in deliveries { return Some(M.DeliveryNotFound); }
      var delivery := deliveries[deliveryId];
      if delivery.courierId != Some(couriers[userId].id) { return Some(M.NotAssigned); }
      if delivery.status != M.Accepted { return Some(M.WrongStatus); }
      deliveries := deliveries[deliveryId := delivery.(status := M.PickedUp, pickedUpAt := Some(now))];
      return None;
    }

    method CompleteDelivery(userId: UserId, deliveryId: Id, now: Time) returns (refused: Option<M.ExpressError>)
      modifies `deliveries
      ensures Carries(old(View()), View(), M.CompleteDelivery(old(View()), userId, deliveryId, now), refused)
    {
      if userId !in couriers { return Some(M.CourierNotFound); }
      if deliveryId !in deliveries { return Some(M.DeliveryNotFound); }
      var delivery := deliveries[deliveryId];
      if delivery.courierId != Some(couriers[userId].id) { return Some(M.NotAssigned); }
      if delivery.status != M.PickedUp { return Some(M.WrongStatus); }
      deliveries := deliveries[deliveryId := delivery.(status := M.Delivered, deliveredAt := Some(now))];
      return None;
    }
  }
}
