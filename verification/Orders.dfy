/** The order lifecycle (orders/models.py, orders/services.py, fulfillment/services.py, reservations/policies.py). */
module Orders {
  import opened Common
  import opened Records
  import opened Storage
  import opened ReservationSelectors
  import opened Reservations
  import opened Placement

  // ---------- The order status machine ----------

  /** Order.ALLOWED_TRANSITIONS */
  predicate TransitionAllowed(from: OrderStatus, to: OrderStatus) {
    match from
    case Draft => to.Placed? || to.Cancelled?
    case Placed => to.Packed? || to.Cancelled?
    case Packed => to.Delivered?
    case Delivered => false
    case Cancelled => false
  }

  function MoveRow(row: OrderRow, target: OrderStatus): Result<OrderRow> {
    if row.status == target || TransitionAllowed(row.status, target) then Ok(row.(status := target))
    else Err(InvalidOrderStatusTransition)
  }

  /** An in-memory order loaded from a locked row. */
  class Order {
    const channel: Channel
    var status: OrderStatus

    function Row(): OrderRow
      reads this
    {
      OrderRow(channel, status)
    }

    constructor (row: OrderRow)
      ensures Row() == row
    {
      channel := row.channel;
      status := row.status;
    }

    function CanBeCancelled(): bool
      reads this
    {
      status.Draft? || status.Placed?
    }

    method TransitionTo(target: OrderStatus) returns (r: Result<()>)
      modifies this`status
      ensures r.Ok? <==> old(status) == target || TransitionAllowed(old(status), target)
      ensures status == if r.Ok? then target else old(status)
      ensures r.Err? ==> r.error == InvalidOrderStatusTransition
    {
      if status == target {
        return Ok(());
      }
      if !TransitionAllowed(status, target) {
        return Err(InvalidOrderStatusTransition);
      }
      status := target;
      return Ok(());
    }
  }

  /** mark_as_placed, mark_as_packed, mark_as_delivered and cancel, without their audit fields. */
  function MoveOrder(db: Db, o: nat, target: OrderStatus): Result<Db>
    requires o in db.orders
  {
    var row :- MoveRow(db.orders[o], target);
    Ok(db.(orders := db.orders[o := row]))
  }

  method SaveMoved(store: Database, o: nat, target: OrderStatus) returns (r: Result<()>)
    requires o in store.orders
    modifies store`orders
    ensures r == Reply(MoveOrder(old(store.Contents()), o, target))
    ensures store.Contents() == Committed(old(store.Contents()), MoveOrder(old(store.Contents()), o, target))
  {
    var order := new Order(store.orders[o]);
    r := order.TransitionTo(target);
    if r.Err? {
      return;
    }
    store.orders := store.orders[o := order.Row()];
    return Ok(());
  }

  // ---------- Placing, packing, cancelling, delivering, discarding ----------

  function PlaceBusinessSpec(db: Db, o: nat): Result<Db>
    requires OfferKeysOk(db)
  {
    if o !in db.orders then Err(DoesNotExist)
    else if !db.orders[o].status.Draft? then Err(InvalidOrderOperation)
    else
      var prepared :- PrepareBusinessSpec(db, o);
      MoveOrder(prepared, o, Placed)
  }

  method PlaceBusinessOrder(store: Database, o: nat) returns (r: Result<()>)
    requires OfferKeysOk(store.Contents())
    modifies store`orders, store`allocations, store`nextAllocation
    ensures r == Reply(PlaceBusinessSpec(old(store.Contents()), o))
    ensures store.Contents() == Committed(old(store.Contents()), PlaceBusinessSpec(old(store.Contents()), o))
  {
    if o !in store.orders {
      return Err(DoesNotExist);
    }
    if !store.orders[o].status.Draft? {
      return Err(InvalidOrderOperation);
    }
    r := PrepareBusinessOrderForPlacement(store, o);
    if r.Err? {
      return;
    }
    r := SaveMoved(store, o, Placed);
  }

  function Unmarked(db: Db, o: nat): Db {
    db.(marks := db.marks - (set i | i in db.allocations && db.allocations[i].order == o))
  }

  /** pack_order_and_clear_checklist over fulfillment.pack_order. */
  function PackSpec(db: Db, o: nat): Result<Db> {
    if o !in db.orders then Err(DoesNotExist)
    else if !db.orders[o].status.Placed? then Err(InvalidOrderOperation)
    else
      match ConsumeSpec(db, o)
      case Err(MissingReservations) => Err(InvalidOrderOperation)
      case Err(e) => Err(e)
      case Ok(consumed) =>
        var packed :- MoveOrder(consumed, o, Packed);
        Ok(Unmarked(packed, o))
  }

  method PackOrderAndClearChecklist(store: Database, o: nat) returns (r: Result<()>)
    requires AllocationKeysOk(store.Contents())
    modifies store`orders, store`batches, store`allocations, store`marks
    ensures r == Reply(PackSpec(old(store.Contents()), o))
    ensures store.Contents() == Committed(old(store.Contents()), PackSpec(old(store.Contents()), o))
  {
    if o !in store.orders {
      return Err(DoesNotExist);
    }
    if !store.orders[o].status.Placed? {
      return Err(InvalidOrderOperation);
    }
    r := ConsumeReservationsForOrder(store, o);
    match r
    case Err(MissingReservations) => return Err(InvalidOrderOperation);
    case Err(e) => return;
    case Ok(_) =>
      r := SaveMoved(store, o, Packed);
      store.marks := store.marks - (set i | i in store.allocations && store.allocations[i].order == o);
  }

  /** fulfillment.cancel_order */
  function CancelSpec(db: Db, o: nat): Result<Db> {
    if o !in db.orders then Err(DoesNotExist)
    else if !db.orders[o].status.Draft? && !db.orders[o].status.Placed? then Err(InvalidOrderOperation)
    else MoveOrder(db.(allocations := CancelMatching(db.allocations, ReservedBy(o))), o, OrderStatus.Cancelled)
  }

  method CancelOrder(store: Database, o: nat) returns (r: Result<()>)
    requires AllocationKeysOk(store.Contents())
    modifies store`orders, store`allocations
    ensures r == Reply(CancelSpec(old(store.Contents()), o))
    ensures store.Contents() == Committed(old(store.Contents()), CancelSpec(old(store.Contents()), o))
  {
    if o !in store.orders {
      return Err(DoesNotExist);
    }
    var order := new Order(store.orders[o]);
    if !order.CanBeCancelled() {
      return Err(InvalidOrderOperation);
    }
    CancelReservationsForOrder(store, o);
    r := SaveMoved(store, o, OrderStatus.Cancelled);
  }

  function DeliverSpec(db: Db, o: nat): Result<Db> {
    if o !in db.orders then Err(DoesNotExist) else MoveOrder(db, o, Delivered)
  }

  method DeliverOrder(store: Database, o: nat) returns (r: Result<()>)
    modifies store`orders
    ensures r == Reply(DeliverSpec(old(store.Contents()), o))
    ensures store.Contents() == Committed(old(store.Contents()), DeliverSpec(old(store.Contents()), o))
  {
    if o !in store.orders {
      return Err(DoesNotExist);
    }
    r := SaveMoved(store, o, Delivered);
  }

  function LineKeys(lines: Lines, o: nat): set<nat> {
    set l | l in lines && lines[l].order == o
  }

  function AttemptKeys(attempts: map<nat, AttemptRow>, o: nat): set<nat> {
    set a | a in attempts && attempts[a].order == o
  }

  /** Deleting an order cascades to its lines, attempts and checkout session. */
  function DiscardSpec(db: Db, o: nat): Result<Db> {
    if o !in db.orders then Err(DoesNotExist)
    else if !db.orders[o].status.Draft? then Err(InvalidOrderOperation)
    else if HasAllocations(db.allocations, o) then Err(InvalidOrderOperation)
    else Ok(db.(orders := db.orders - {o},
                lines := db.lines - LineKeys(db.lines, o),
                attempts := db.attempts - AttemptKeys(db.attempts, o),
                checkouts := db.checkouts - {o}))
  }

  method DiscardDraftOrder(store: Database, o: nat) returns (r: Result<()>)
    modifies store`orders, store`lines, store`attempts, store`checkouts
    ensures r == Reply(DiscardSpec(old(store.Contents()), o))
    ensures store.Contents() == Committed(old(store.Contents()), DiscardSpec(old(store.Contents()), o))
    ensures r.Ok? <==> && o in old(store.orders) && old(store.orders)[o].status.Draft?
                       && forall i :: i in store.allocations ==> store.allocations[i].order != o
    ensures r.Ok? ==>
              && o !in store.orders && o !in store.checkouts
              && (forall l :: l in store.lines ==> store.lines[l].order != o)
              && (forall a :: a in store.attempts ==> store.attempts[a].order != o)
    ensures forall p :: p in old(store.orders) && p != o ==> p in store.orders && store.orders[p] == old(store.orders)[p]
    ensures forall l :: l in old(store.lines) && old(store.lines)[l].order != o ==>
              l in store.lines && store.lines[l] == old(store.lines)[l]
    ensures forall a :: a in old(store.attempts) && old(store.attempts)[a].order != o ==>
              a in store.attempts && store.attempts[a] == old(store.attempts)[a]
    ensures r.Err? ==> store.Contents() == old(store.Contents())
  {
    if o !in store.orders {
      return Err(DoesNotExist);
    }
    if !store.orders[o].status.Draft? {
      return Err(InvalidOrderOperation);
    }
    if HasAllocations(store.allocations, o) {
      return Err(InvalidOrderOperation);
    }
    store.orders := store.orders - {o};
    store.lines := store.lines - LineKeys(store.lines, o);
    store.attempts := store.attempts - AttemptKeys(store.attempts, o);
    store.checkouts := store.checkouts - {o};
    return Ok(());
  }
}
