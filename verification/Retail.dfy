/** Retail checkout and its payment workflow (retail/services.py, retail/rules.py). */
module Retail {
  import opened Common
  import opened Records
  import opened Storage
  import opened Pricing
  import opened Reservations
  import opened Placement
  import opened Orders
  import opened OrderEdit
  import opened Payments

  const MIN_RETAIL_LINE_QUANTITY := 1
  const MAX_RETAIL_LINE_QUANTITY := 20
  const MAX_RETAIL_ORDER_LINES := 20
  const MAX_RETAIL_ORDER_TOTAL := 100000
  const TICKS_PER_MINUTE := 60 * 1000000
  const RETAIL_CHECKOUT_WINDOW := 90 * TICKS_PER_MINUTE
  const RETAIL_PAYMENT_RESERVATION_WINDOW := 35 * TICKS_PER_MINUTE

  // ---------- create_pending_retail_order ----------

  datatype RetailLineInput = RetailLineInput(offer: nat, quantity: int)

  predicate LinesAcceptable(inputs: seq<RetailLineInput>) {
    && 0 < |inputs| <= MAX_RETAIL_ORDER_LINES
    && forall i :: 0 <= i < |inputs| ==> MIN_RETAIL_LINE_QUANTITY <= inputs[i].quantity <= MAX_RETAIL_LINE_QUANTITY
  }

  /** _get_retail_price_and_amount, and for a batch price that its batch is sellable now. */
  predicate Resolvable(db: Db, k: nat)
    requires OfferKeysOk(db)
  {
    && k < |db.offers|
    && (assert OfferOk(db, k);
        var f := db.offers[k];
        && f.channel.Retail? && f.enabled && db.products[f.product].active && EUR in f.amounts
        && (f.batch.Some? ==> RetailPool(db, k, EUR) != []))
  }

  ghost predicate AllResolvable(db: Db, inputs: seq<RetailLineInput>)
    requires OfferKeysOk(db)
  {
    forall i :: 0 <= i < |inputs| ==> Resolvable(db, inputs[i].offer)
  }

  function ResolveOne(db: Db, input: RetailLineInput): ResolvedLine
    requires OfferKeysOk(db) && Resolvable(db, input.offer)
  {
    var f := db.offers[input.offer];
    ResolvedLine(f.product, input.quantity, Some(input.offer), Some(f.amounts[EUR]))
  }

  function Resolve(db: Db, inputs: seq<RetailLineInput>): seq<ResolvedLine>
    requires OfferKeysOk(db) && AllResolvable(db, inputs)
  {
    seq(|inputs|, i requires 0 <= i < |inputs| => ResolveOne(db, inputs[i]))
  }

  /** _calculate_order_total, of priced lines with positive quantities. */
  function LinesTotalPrice(lines: seq<ResolvedLine>): int {
    if lines == [] then 0
    else
      var last := lines[|lines| - 1];
      LinesTotalPrice(lines[..|lines| - 1]) + (if last.unitPrice.Some? then last.unitPrice.value * last.quantity else 0)
  }

  predicate RepeatsAPrice(inputs: seq<RetailLineInput>) {
    exists i, j :: 0 <= i < j < |inputs| && inputs[i].offer == inputs[j].offer
  }

  function CreateRetailSpec(db: Db, destinationSupported: bool, inputs: seq<RetailLineInput>): Result<Db>
    requires OfferKeysOk(db)
  {
    if !destinationSupported || !LinesAcceptable(inputs) then Err(InvalidRetailOrder)
    else if exists i :: 0 <= i < |inputs| && !Resolvable(db, inputs[i].offer) then Err(InvalidRetailOrder)
    else if RepeatsAPrice(inputs) then Err(InvalidRetailOrder)
    else
      var lines := Resolve(db, inputs);
      if LinesTotalPrice(lines) > MAX_RETAIL_ORDER_TOTAL then Err(InvalidRetailOrder)
      else Ok(WithRetailOrder(db, lines))
  }

  /** The rows of a new checkout: order, lines, and checkout session. */
  function WithRetailOrder(db: Db, lines: seq<ResolvedLine>): Db
    requires forall i :: 0 <= i < |lines| ==> StorableNew(lines[i])
  {
    db.(orders := db.orders[db.nextOrder := OrderRow(Retail, Draft)],
        nextOrder := db.nextOrder + 1,
        lines := AddLines(db.lines, db.nextLine, db.nextOrder, lines),
        nextLine := db.nextLine + |lines|,
        checkouts := db.checkouts[db.nextOrder := db.now + RETAIL_CHECKOUT_WINDOW])
  }

  method PersistRetailOrder(store: Database, lines: seq<ResolvedLine>)
    requires forall i :: 0 <= i < |lines| ==> StorableNew(lines[i])
    modifies store`orders, store`nextOrder, store`lines, store`nextLine, store`checkouts
    ensures store.Contents() == WithRetailOrder(old(store.Contents()), lines)
  {
    var order := store.nextOrder;
    store.orders := store.orders[order := OrderRow(Retail, Draft)];
    store.nextOrder := order + 1;
    CreateOrderLines(store, order, lines);
    store.checkouts := store.checkouts[order := store.now + RETAIL_CHECKOUT_WINDOW];
  }

  method ResolveRetailLines(store: Database, inputs: seq<RetailLineInput>) returns (r: Result<seq<ResolvedLine>>)
    requires OfferKeysOk(store.Contents())
    ensures r.Ok? <==> AllResolvable(store.Contents(), inputs)
    ensures r.Ok? ==> r.value == Resolve(store.Contents(), inputs)
    ensures r.Err? ==> r.error == InvalidRetailOrder
  {
    var lines: seq<ResolvedLine> := [];
    for i := 0 to |inputs|
      invariant |lines| == i
      invariant forall j :: 0 <= j < i ==> Resolvable(store.Contents(), inputs[j].offer)
                                           && lines[j] == ResolveOne(store.Contents(), inputs[j])
    {
      if !Resolvable(store.Contents(), inputs[i].offer) {
        return Err(InvalidRetailOrder);
      }
      lines := lines + [ResolveOne(store.Contents(), inputs[i])];
    }
    return Ok(lines);
  }

  method CalculateOrderTotal(lines: seq<ResolvedLine>) returns (total: int)
    ensures total == LinesTotalPrice(lines)
  {
    total := 0;
    for i := 0 to |lines|
      invariant total == LinesTotalPrice(lines[..i])
    {
      assert lines[..i + 1][..i] == lines[..i];
      if lines[i].unitPrice.Some? {
        total := total + lines[i].unitPrice.value * lines[i].quantity;
      }
    }
    assert lines[..|lines|] == lines;
  }

  method HasRepeatedPrice(inputs: seq<RetailLineInput>) returns (r: bool)
    ensures r == RepeatsAPrice(inputs)
  {
    var priceIds: set<nat> := {};
    for i := 0 to |inputs|
      invariant forall k :: k in priceIds <==> exists j :: 0 <= j < i && inputs[j].offer == k
      invariant forall j, k :: 0 <= j < k < i ==> inputs[j].offer != inputs[k].offer
    {
      if inputs[i].offer in priceIds {
        return true;
      }
      priceIds := priceIds + {inputs[i].offer};
    }
    return false;
  }

  method CreatePendingRetailOrder(store: Database, destinationSupported: bool, inputs: seq<RetailLineInput>)
    returns (r: Result<()>)
    requires OfferKeysOk(store.Contents())
    modifies store`orders, store`nextOrder, store`lines, store`nextLine, store`checkouts
    ensures r == Reply(CreateRetailSpec(old(store.Contents()), destinationSupported, inputs))
    ensures store.Contents() == Committed(old(store.Contents()), CreateRetailSpec(old(store.Contents()), destinationSupported, inputs))
  {
    if !destinationSupported || !LinesAcceptable(inputs) {
      return Err(InvalidRetailOrder);
    }
    var resolved := ResolveRetailLines(store, inputs);
    if resolved.Err? {
      return Err(InvalidRetailOrder);
    }
    var repeated := HasRepeatedPrice(inputs);
    if repeated {
      return Err(InvalidRetailOrder);
    }
    var total := CalculateOrderTotal(resolved.value);
    if total > MAX_RETAIL_ORDER_TOTAL {
      return Err(InvalidRetailOrder);
    }
    PersistRetailOrder(store, resolved.value);
    return Ok(());
  }

  // ---------- start_retail_payment ----------

  function StartPaymentSpec(db: Db, o: nat): Result<Db>
    requires OfferKeysOk(db)
  {
    if o !in db.checkouts || o !in db.orders then Err(DoesNotExist)
    else if db.checkouts[o] <= db.now then Err(InvalidRetailOrder)
    else if !db.orders[o].channel.Retail? then Err(InvalidRetailOrder)
    else if !db.orders[o].status.Draft? then Err(InvalidRetailOrder)
    else if HasPending(db.attempts, o) then Err(InvalidRetailOrder)
    else if OrderLines(db, o) == [] then Err(InvalidRetailOrder)
    else HoldAndChargeSpec(db, o)
  }

  /** Replace the order's temporary holds by fresh ones for every line. */
  function HoldSpec(db: Db, o: nat): Result<Db>
    requires OfferKeysOk(db)
  {
    var cleared := WithoutTemporary(db, o);
    OfferKeysFrame(db, cleared);
    ReserveLinesSpec(cleared, OrderLines(db, o), Retail, Some(db.now + RETAIL_PAYMENT_RESERVATION_WINDOW))
  }

  function HoldAndChargeSpec(db: Db, o: nat): Result<Db>
    requires OfferKeysOk(db)
  {
    var held :- HoldSpec(db, o);
    CreateAttemptSpec(held, o)
  }

  function WithoutTemporary(db: Db, o: nat): Db {
    db.(allocations := CancelMatching(db.allocations, TemporaryBy(o)))
  }

  lemma HoldUnfolds(db: Db, o: nat, cleared: Db, lines: seq<nat>, until: Option<int>)
    requires OfferKeysOk(db) && OfferKeysOk(cleared) && cleared == WithoutTemporary(db, o)
    requires lines == OrderLines(db, o) && until == Some(db.now + RETAIL_PAYMENT_RESERVATION_WINDOW)
    ensures HoldSpec(db, o) == ReserveLinesSpec(cleared, lines, Retail, until)
  {
    hide ReserveLinesSpec;
  }

  method HoldStock(store: Database, o: nat) returns (r: Result<()>)
    requires OfferKeysOk(store.Contents()) && AllocationKeysOk(store.Contents())
    modifies store`allocations, store`nextAllocation
    ensures r == Reply(HoldSpec(old(store.Contents()), o))
    ensures store.Contents() == Committed(old(store.Contents()), HoldSpec(old(store.Contents()), o))
  {
    hide ReserveLinesSpec;
    ghost var before := store.Contents();
    var savedAllocations := store.allocations;
    CancelTemporaryReservationsForOrder(store, o);
    ghost var cleared := store.Contents();
    assert cleared == WithoutTemporary(before, o);
    OfferKeysFrame(before, cleared);
    var until := Some(store.now + RETAIL_PAYMENT_RESERVATION_WINDOW);
    var lines := LinesOf(store.lines, store.nextLine, o);
    r := ReserveLines(store, lines, Retail, until);
    HoldUnfolds(before, o, cleared, lines, until);
    if r.Err? {
      store.allocations := savedAllocations;
      assert store.Contents() == before;
    }
  }

  method HoldAndCharge(store: Database, o: nat) returns (r: Result<()>)
    requires OfferKeysOk(store.Contents()) && AllocationKeysOk(store.Contents())
    modifies store`allocations, store`nextAllocation, store`attempts, store`nextAttempt
    ensures r == Reply(HoldAndChargeSpec(old(store.Contents()), o))
    ensures store.Contents() == Committed(old(store.Contents()), HoldAndChargeSpec(old(store.Contents()), o))
  {
    var savedAllocations, savedNext := store.allocations, store.nextAllocation;
    r := HoldStock(store, o);
    if r.Err? {
      return;
    }
    r := CreatePaymentAttempt(store, o);
    if r.Err? {
      store.allocations, store.nextAllocation := savedAllocations, savedNext;
    }
  }

  method StartRetailPayment(store: Database, o: nat) returns (r: Result<()>)
    requires OfferKeysOk(store.Contents()) && AllocationKeysOk(store.Contents())
    modifies store`allocations, store`nextAllocation, store`attempts, store`nextAttempt
    ensures r == Reply(StartPaymentSpec(old(store.Contents()), o))
    ensures store.Contents() == Committed(old(store.Contents()), StartPaymentSpec(old(store.Contents()), o))
  {
    if o !in store.checkouts || o !in store.orders {
      return Err(DoesNotExist);
    }
    if store.checkouts[o] <= store.now {
      return Err(InvalidRetailOrder);
    }
    if !store.orders[o].channel.Retail? {
      return Err(InvalidRetailOrder);
    }
    if !store.orders[o].status.Draft? {
      return Err(InvalidRetailOrder);
    }
    if HasPending(store.attempts, o) {
      return Err(InvalidRetailOrder);
    }
    var lines := LinesOf(store.lines, store.nextLine, o);
    if lines == [] {
      return Err(InvalidRetailOrder);
    }
    r := HoldAndCharge(store, o);
  }

  // ---------- complete_retail_payment and fail_retail_payment ----------

  /** place_order with make_order_reservations_permanent_before_placement. */
  function PlacePaidSpec(db: Db, o: nat): Result<Db>
    requires o in db.orders
  {
    if !db.orders[o].status.Draft? then Err(InvalidOrderOperation)
    else
      match MakePermanentSpec(db, o)
      case Err(MissingReservations) => Err(InvalidOrderOperation)
      case Err(e) => Err(e)
      case Ok(promoted) => MoveOrder(promoted, o, Placed)
  }

  function CompleteSpec(db: Db, a: nat, transactionId: Option<string>): Result<Db> {
    if a !in db.attempts || db.attempts[a].order !in db.orders then Err(DoesNotExist)
    else if !db.attempts[a].status.Pending? then Err(InvalidPaymentAttempt)
    else if !db.orders[db.attempts[a].order].channel.Retail? then Err(InvalidRetailOrder)
    else
      var placed :- PlacePaidSpec(db, db.attempts[a].order);
      MarkSucceededSpec(placed, a, transactionId)
  }

  function FailSpec(db: Db, a: nat): Result<Db> {
    if a !in db.attempts || db.attempts[a].order !in db.orders then Err(DoesNotExist)
    else if !db.attempts[a].status.Pending? then Err(InvalidPaymentAttempt)
    else if !db.orders[db.attempts[a].order].channel.Retail? then Err(InvalidRetailOrder)
    else if !db.orders[db.attempts[a].order].status.Draft? then Err(InvalidRetailOrder)
    else
      MarkFailedSpec(WithoutTemporary(db, db.attempts[a].order), a)
  }

  /** place_order with the retail preparation. */
  method PlacePaidOrder(store: Database, o: nat) returns (r: Result<()>)
    requires AllocationKeysOk(store.Contents()) && o in store.orders
    modifies store`orders, store`allocations
    ensures r == Reply(PlacePaidSpec(old(store.Contents()), o))
    ensures store.Contents() == Committed(old(store.Contents()), PlacePaidSpec(old(store.Contents()), o))
  {
    hide MakePermanentSpec;
    if !store.orders[o].status.Draft? {
      return Err(InvalidOrderOperation);
    }
    r := MakeReservationsPermanentForOrder(store, o);
    match r
    case Err(MissingReservations) => return Err(InvalidOrderOperation);
    case Err(e) => return Err(e);
    case Ok(_) =>
      r := SaveMoved(store, o, Placed);
  }

  lemma PlacePaidKeepsAttempts(db: Db, o: nat)
    requires o in db.orders
    ensures PlacePaidSpec(db, o).Ok? ==>
              var placed := PlacePaidSpec(db, o).value;
              placed == db.(orders := placed.orders, allocations := placed.allocations)
  {
  }

  method CompleteRetailPayment(store: Database, a: nat, transactionId: Option<string>) returns (r: Result<()>)
    requires AllocationKeysOk(store.Contents())
    modifies store`orders, store`allocations, store`attempts
    ensures r == Reply(CompleteSpec(old(store.Contents()), a, transactionId))
    ensures store.Contents() == Committed(old(store.Contents()), CompleteSpec(old(store.Contents()), a, transactionId))
  {
    hide PlacePaidSpec, MarkSucceededSpec, AllocationKeysOk, OnlyAttempt, Trimmed, AllBlank;
    ghost var before := store.Contents();
    if a !in store.attempts || store.attempts[a].order !in store.orders {
      return Err(DoesNotExist);
    }
    var o := store.attempts[a].order;
    if !store.attempts[a].status.Pending? {
      return Err(InvalidPaymentAttempt);
    }
    if !store.orders[o].channel.Retail? {
      return Err(InvalidRetailOrder);
    }
    var savedOrders, savedAllocations := store.orders, store.allocations;
    PlacePaidKeepsAttempts(before, o);
    r := PlacePaidOrder(store, o);
    if r.Err? {
      return;
    }
    r := MarkPaymentAttemptSucceeded(store, a, transactionId);
    if r.Err? {
      store.orders, store.allocations := savedOrders, savedAllocations;
      assert store.Contents() == before;
    }
  }

  method FailRetailPayment(store: Database, a: nat) returns (r: Result<()>)
    requires AllocationKeysOk(store.Contents())
    modifies store`allocations, store`attempts
    ensures r == Reply(FailSpec(old(store.Contents()), a))
    ensures store.Contents() == Committed(old(store.Contents()), FailSpec(old(store.Contents()), a))
  {
    if a !in store.attempts || store.attempts[a].order !in store.orders {
      return Err(DoesNotExist);
    }
    var o := store.attempts[a].order;
    if !store.attempts[a].status.Pending? {
      return Err(InvalidPaymentAttempt);
    }
    if !store.orders[o].channel.Retail? {
      return Err(InvalidRetailOrder);
    }
    if !store.orders[o].status.Draft? {
      return Err(InvalidRetailOrder);
    }
    CancelTemporaryReservationsForOrder(store, o);
    r := MarkPaymentAttemptFailed(store, a);
  }
}
