/** Express deliveries: couriers, their approval, and the assignment of deliveries to them, as values. */
module ExpressModel {
  import opened Basics

  datatype CourierStatus = CourierPending | CourierApproved | CourierRejected

  /** Keyed by the user the courier profile belongs to. */
  datatype Courier = Courier(id: Id, nationalId: int, status: CourierStatus, isOnline: bool)

  datatype DeliveryStatus = Pending | Accepted | PickedUp | Delivered

  datatype Delivery = Delivery(
    status: DeliveryStatus, courierId: Option<Id>,
    acceptedAt: Option<Time>, pickedUpAt: Option<Time>, deliveredAt: Option<Time>)
  {
    predicate Active() { status.Accepted? || status.PickedUp? }
  }

  datatype World = World(couriers: map<UserId, Courier>, deliveries: map<Id, Delivery>)

  const EMPTY_WORLD := World(map[], map[])

  datatype ExpressError =
    | CourierNotFound | ProfileLocked | NationalIdTaken | NotApproved | NotOnline | AlreadyActive
    | DeliveryNotFound | NotAvailable | NotAssigned | WrongStatus | KitchenNotFound | KitchenNotApproved | UniqueViolation

  type Outcome = Result<World, ExpressError>

  predicate NationalIdTakenByOther(w: World, userId: UserId, nationalId: int) {
    exists u | u in w.couriers :: u != userId && w.couriers[u].nationalId == nationalId
  }

  predicate IdTaken(w: World, id: Id) {
    exists u | u in w.couriers :: w.couriers[u].id == id
  }

  /** Registers a courier or, until approval, re-submits the profile for review. */
  function CreateCourier(w: World, newId: Id, userId: UserId, nationalId: int): Outcome {
    if userId in w.couriers && w.couriers[userId].status == CourierApproved then Err(ProfileLocked)
    else if NationalIdTakenByOther(w, userId, nationalId) then Err(NationalIdTaken)
    else if userId in w.couriers then
      Ok(w.(couriers := w.couriers[userId :=
        w.couriers[userId].(nationalId := nationalId, status := CourierPending, isOnline := false)]))
    else if IdTaken(w, newId) then Err(UniqueViolation)
    else Ok(w.(couriers := w.couriers[userId := Courier(newId, nationalId, CourierPending, false)]))
  }

  function ToggleOnline(w: World, userId: UserId, isOnline: bool): Outcome {
    if userId !in w.couriers then Err(CourierNotFound)
    else if w.couriers[userId].status != CourierApproved then Err(NotApproved)
    else Ok(w.(couriers := w.couriers[userId := w.couriers[userId].(isOnline := isOnline)]))
  }

  /** The administrator's verdict; the online flag is left alone. */
  function ReviewCourier(w: World, userId: UserId, approve: bool): Outcome {
    if userId !in w.couriers then Err(CourierNotFound)
    else
      var verdict := if approve then CourierApproved else CourierRejected;
      Ok(w.(couriers := w.couriers[userId := w.couriers[userId].(status := verdict)]))
  }

  /** What the lookup of the caller's kitchen found. */
  datatype KitchenGate = NoKitchen | KitchenPending | KitchenApproved

  function CreateDeliveryRequest(w: World, newId: Id, kitchen: KitchenGate): Outcome {
    if kitchen.NoKitchen? then Err(KitchenNotFound)
    else if !kitchen.KitchenApproved? then Err(KitchenNotApproved)
    else if newId in w.deliveries then Err(UniqueViolation)
    else Ok(w.(deliveries := w.deliveries[newId := Delivery(Pending, None, None, None, None)]))
  }

  predicate HasActive(w: World, courierId: Id) {
    exists d | d in w.deliveries :: w.deliveries[d].courierId == Some(courierId) && w.deliveries[d].Active()
  }

  function AcceptDelivery(w: World, userId: UserId, deliveryId: Id, now: Time): Outcome {
    if userId !in w.couriers then Err(CourierNotFound)
    else
      var courier := w.couriers[userId];
      if courier.status != CourierApproved then Err(NotApproved)
      else if !courier.isOnline then Err(NotOnline)
      else if HasActive(w, courier.id) then Err(AlreadyActive)
      else if deliveryId !in w.deliveries then Err(DeliveryNotFound)
      else if w.deliveries[deliveryId].status != Pending then Err(NotAvailable)
      else Ok(w.(deliveries := w.deliveries[deliveryId :=
        w.deliveries[deliveryId].(status := Accepted, courierId := Some(courier.id), acceptedAt := Some(now))]))
  }

  function PickupDelivery(w: World, userId: UserId, deliveryId: Id, now: Time): Outcome {
    if userId !in w.couriers then Err(CourierNotFound)
    else if deliveryId !in w.deliveries then Err(DeliveryNotFound)
    else
      var delivery := w.deliveries[deliveryId];
      if delivery.courierId != Some(w.couriers[userId].id) then Err(NotAssigned)
      else if delivery.status != Accepted then Err(WrongStatus)
      else Ok(w.(deliveries := w.deliveries[deliveryId := delivery.(status := PickedUp, pickedUpAt := Some(now))]))
  }

  function CompleteDelivery(w: World, userId: UserId, deliveryId: Id, now: Time): Outcome {
    if userId !in w.couriers then Err(CourierNotFound)
    else if deliveryId !in w.deliveries then Err(DeliveryNotFound)
    else
      var delivery := w.deliveries[deliveryId];
      if delivery.courierId != Some(w.couriers[userId].id) then Err(NotAssigned)
      else if delivery.status != PickedUp then Err(WrongStatus)
      else Ok(w.(deliveries := w.deliveries[deliveryId := delivery.(status := Delivered, deliveredAt := Some(now))]))
  }

  // ---------- Runs ----------

  datatype Request =
    | CreateCourierCall(newId: Id, userId: UserId, nationalId: int)
    | ToggleOnlineCall(userId: UserId, isOnline: bool)
    | ReviewCourierCall(userId: UserId, approve: bool)
    | CreateDeliveryCall(newId: Id, kitchen: KitchenGate)
    | AcceptDeliveryCall(userId: UserId, deliveryId: Id)
    | PickupDeliveryCall(userId: UserId, deliveryId: Id)
    | CompleteDeliveryCall(userId: UserId, deliveryId: Id)

  datatype Call = Call(request: Request, now: Time)

  function Step(w: World, c: Call): Outcome {
    match c.request
    case CreateCourierCall(newId, userId, nationalId) => CreateCourier(w, newId, userId, nationalId)
    case ToggleOnlineCall(userId, isOnline) => ToggleOnline(w, userId, isOnline)
    case ReviewCourierCall(userId, approve) => ReviewCourier(w, userId, approve)
    case CreateDeliveryCall(newId, kitchen) => CreateDeliveryRequest(w, newId, kitchen)
    case AcceptDeliveryCall(userId, id) => AcceptDelivery(w, userId, id, c.now)
    case PickupDeliveryCall(userId, id) => PickupDelivery(w, userId, id, c.now)
    case CompleteDeliveryCall(userId, id) => CompleteDelivery(w, userId, id, c.now)
  }

  function Next(w: World, c: Call): World {
    match Step(w, c)
    case Ok(w') => w'
    case Err(_) => w
  }

  function Run(calls: seq<Call>): World {
    if calls == [] then EMPTY_WORLD else Next(Run(calls[..|calls| - 1]), calls[|calls| - 1])
  }

  predicate Monotone(calls: seq<Call>) {
    forall i, j | 0 <= i < j < |calls| :: calls[i].now <= calls[j].now
  }
}
