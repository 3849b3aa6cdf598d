/**
 The services as steps of one system, runs of that system, and what holds in every reachable state:
 stock is never oversold, every placed order can be packed, orders are covered line by line, and
 retail orders are paid once.
 */
module Runs {
  import opened Common
  import opened Records
  import opened Pricing
  import opened InventoryServices
  import opened Reservations
  import opened ReservationFacts
  import opened Placement
  import opened Orders
  import opened OrderEdit
  import opened Drafts
  import opened OpsOrders
  import opened Payments
  import opened Retail
  import opened Reconciliation
  import opened ReconciliationFacts
  import opened Invariant
  import opened StockSteps
  import opened OrderSteps
  import opened PackSteps
  import opened EditSteps
  import opened DraftSteps
  import opened RetailSteps

  /** One transaction, or the clock moving. */
  datatype Step =
    | CreateBatch(product: nat, quantity: int, bestBefore: int, code: string, allowNonFuture: bool)
    | UpdateBatch(batch: nat, quantity: int, bestBefore: int)
    | CloseBatch(batch: nat)
    | ReviseCatalog(products: seq<ProductRow>, offers: seq<OfferRow>)
    | CreateDraft(resolved: seq<ResolvedLine>)
    | PlaceOrder(order: nat)
    | EditOrder(order: nat, resolved: seq<ResolvedLine>)
    | EditInPortal(order: nat, inputs: seq<OfferLineInput>)
    | ToggleMark(order: nat, allocation: nat)
    | PackOrder(order: nat)
    | CancelOrder(order: nat)
    | DeliverOrder(order: nat)
    | DiscardDraft(order: nat)
    | CheckOut(destinationSupported: bool, cart: seq<RetailLineInput>)
    | StartPayment(order: nat)
    | AttachProvider(attempt: nat, paymentId: string)
    | CompletePayment(attempt: nat, transactionId: Option<string>)
    | FailPayment(attempt: nat)
    | ReconcilePayment(attempt: nat, provider: Provider)
    | ReconcileAll(provider: Provider)
    | Tick(now: int, today: int)

  predicate IsStockStep(step: Step) {
    step.CreateBatch? || step.UpdateBatch? || step.CloseBatch? || step.ReviseCatalog? || step.Tick?
  }

  predicate IsPaymentStep(step: Step) {
    step.StartPayment? || step.AttachProvider? || step.CompletePayment? || step.FailPayment?
    || step.ReconcilePayment? || step.ReconcileAll?
  }

  function ApplyStock(db: Db, step: Step): Result<Db>
    requires IsStockStep(step)
  {
    match step
    case CreateBatch(product, quantity, bestBefore, code, any) => CreateBatchSpec(db, product, quantity, bestBefore, code, any)
    case UpdateBatch(batch, quantity, bestBefore) => UpdateBatchSpec(db, batch, quantity, bestBefore)
    case CloseBatch(batch) => CloseBatchSpec(db, batch)
    case ReviseCatalog(products, offers) => ReviseSpec(db, products, offers)
    case Tick(now, today) => TickSpec(db, now, today)
  }

  function ApplyPayment(db: Db, step: Step): Result<Db>
    requires OfferKeysOk(db) && IsPaymentStep(step)
  {
    match step
    case StartPayment(order) => StartPaymentSpec(db, order)
    case AttachProvider(attempt, paymentId) => AttachProviderSpec(db, attempt, paymentId)
    case CompletePayment(attempt, transactionId) => CompleteSpec(db, attempt, transactionId)
    case FailPayment(attempt) => FailSpec(db, attempt)
    case ReconcilePayment(attempt, provider) => ReconcileSpec(db, attempt, provider)
    case ReconcileAll(provider) => Ok(BatchSpec(db, PendingIds(db, db.nextAttempt), provider))
  }

  function ApplyOrder(db: Db, step: Step): Result<Db>
    requires OfferKeysOk(db) && LineKeysBelow(db) && !IsStockStep(step) && !IsPaymentStep(step)
  {
    match step
    case CreateDraft(resolved) => CreateDraftSpec(db, resolved)
    case PlaceOrder(order) => PlaceBusinessSpec(db, order)
    case EditOrder(order, resolved) => UpdatePlacedSpec(db, order, resolved)
    case EditInPortal(order, inputs) => OpsEditSpec(db, order, inputs)
    case ToggleMark(order, allocation) => ToggleSpec(db, order, allocation)
    case PackOrder(order) => PackSpec(db, order)
    case CancelOrder(order) => CancelSpec(db, order)
    case DeliverOrder(order) => DeliverSpec(db, order)
    case DiscardDraft(order) => DiscardSpec(db, order)
    case CheckOut(supported, cart) => CreateRetailSpec(db, supported, cart)
  }

  function Apply(db: Db, step: Step): Result<Db>
    requires OfferKeysOk(db) && LineKeysBelow(db)
  {
    if IsStockStep(step) then ApplyStock(db, step)
    else if IsPaymentStep(step) then ApplyPayment(db, step)
    else ApplyOrder(db, step)
  }

  lemma InvGivesKeys(db: Db)
    requires Inv(db)
    ensures OfferKeysOk(db) && LineKeysBelow(db)
  {
    TablesGiveKeys(db);
  }

  lemma StockStepKeepsInv(db: Db, step: Step, db': Db)
    requires Inv(db) && OfferKeysOk(db) && LineKeysBelow(db) && IsStockStep(step) && Apply(db, step) == Ok(db')
    ensures Inv(db')
  {
    hide Inv, OfferKeysOk, LineKeysBelow, CreateBatchSpec, UpdateBatchSpec, CloseBatchSpec, ReviseSpec, TickSpec;
    match step {
      case CreateBatch(product, quantity, bestBefore, code, any) =>
        CreateBatchKeepsInv(db, product, quantity, bestBefore, code, any, db');
      case UpdateBatch(batch, quantity, bestBefore) => UpdateBatchKeepsInv(db, batch, quantity, bestBefore, db');
      case CloseBatch(batch) => CloseBatchKeepsInv(db, batch, db');
      case ReviseCatalog(products, offers) => ReviseKeepsInv(db, products, offers, db');
      case Tick(now, today) => TickKeepsInv(db, now, today, db');
    }
  }

  lemma PaymentStepKeepsInv(db: Db, step: Step, db': Db)
    requires Inv(db) && OfferKeysOk(db) && LineKeysBelow(db) && IsPaymentStep(step) && Apply(db, step) == Ok(db')
    ensures Inv(db')
  {
    hide Inv, OfferKeysOk, LineKeysBelow, StartPaymentSpec, AttachProviderSpec, CompleteSpec, FailSpec, ReconcileSpec, BatchSpec;
    match step {
      case StartPayment(order) => StartPaymentKeepsInv(db, order, db');
      case AttachProvider(attempt, paymentId) => AttachKeepsInv(db, attempt, paymentId, db');
      case CompletePayment(attempt, transactionId) => CompleteKeepsInv(db, attempt, transactionId, db');
      case FailPayment(attempt) => FailKeepsInv(db, attempt, db');
      case ReconcilePayment(attempt, provider) => ReconcileKeepsInv(db, attempt, provider, db');
      case ReconcileAll(provider) => BatchKeepsInv(db, PendingIds(db, db.nextAttempt), provider);
    }
  }

  lemma EditInPortalUnfolds(db: Db, o: nat, inputs: seq<OfferLineInput>, db': Db)
    requires OfferKeysOk(db) && LineKeysBelow(db) && OpsEditSpec(db, o, inputs) == Ok(db')
    ensures ResolveOfferLinesSpec(db, inputs).Ok? && AllOffered(ResolveOfferLinesSpec(db, inputs).value)
    ensures KeepMarksSpec(db, o, ResolveOfferLinesSpec(db, inputs).value) == Ok(db')
  {
    hide ResolveOfferLinesSpec, KeepMarksSpec;
  }

  lemma OrderStepKeepsInv(db: Db, step: Step, db': Db)
    requires Inv(db) && OfferKeysOk(db) && LineKeysBelow(db) && !IsStockStep(step) && !IsPaymentStep(step)
    requires Apply(db, step) == Ok(db')
    ensures Inv(db')
  {
    hide Inv, OfferKeysOk, LineKeysBelow, CreateDraftSpec, PlaceBusinessSpec, UpdatePlacedSpec, OpsEditSpec, ToggleSpec,
         PackSpec, CancelSpec, DeliverSpec, DiscardSpec, CreateRetailSpec, KeepMarksSpec, ResolveOfferLinesSpec;
    match step {
      case CreateDraft(resolved) => CreateDraftKeepsInv(db, resolved, db');
      case PlaceOrder(order) => PlaceBusinessKeepsInv(db, order, db');
      case EditOrder(order, resolved) => UpdatePlacedKeepsInv(db, order, resolved, db');
      case EditInPortal(order, inputs) =>
        EditInPortalUnfolds(db, order, inputs, db');
        KeepMarksKeepsInv(db, order, ResolveOfferLinesSpec(db, inputs).value, db');
      case ToggleMark(order, allocation) => ToggleKeepsInv(db, order, allocation, db');
      case PackOrder(order) => PackKeepsInv(db, order, db');
      case CancelOrder(order) => CancelKeepsInv(db, order, db');
      case DeliverOrder(order) => DeliverKeepsInv(db, order, db');
      case DiscardDraft(order) => DiscardKeepsInv(db, order, db');
      case CheckOut(supported, cart) => CreateRetailKeepsInv(db, supported, cart, db');
    }
  }

  /** Every step keeps the invariant. */
  lemma StepKeepsInv(db: Db, step: Step, db': Db)
    requires Inv(db) && OfferKeysOk(db) && LineKeysBelow(db) && Apply(db, step) == Ok(db')
    ensures Inv(db')
  {
    hide Apply, Inv, OfferKeysOk, LineKeysBelow;
    if IsStockStep(step) {
      StockStepKeepsInv(db, step, db');
    } else if IsPaymentStep(step) {
      PaymentStepKeepsInv(db, step, db');
    } else {
      OrderStepKeepsInv(db, step, db');
    }
  }

  /** The state after one step: a failing transaction rolls back. */
  function After(db: Db, step: Step): (db': Db)
    requires Inv(db)
    ensures Inv(db')
  {
    InvGivesKeys(db);
    match Apply(db, step)
    case Ok(db') => StepKeepsInv(db, step, db'); db'
    case Err(_) => db
  }

  /** The state after any sequence of transactions. */
  function Run(db: Db, steps: seq<Step>): (db': Db)
    requires Inv(db)
    ensures Inv(db')
  {
    if steps == [] then db else After(Run(db, steps[..|steps| - 1]), steps[|steps| - 1])
  }

  /** An empty database at some time. */
  function Initial(now: int, today: int): (db: Db)
    ensures Inv(db)
  {
    var db := Db([], [], [], map[], 0, map[], 0, map[], 0, map[], 0, map[], {}, now, today);
    db
  }

  function Reached(now: int, today: int, steps: seq<Step>): (db: Db)
    ensures Inv(db)
  {
    Run(Initial(now, today), steps)
  }

  // ---------- What holds in every reachable state ----------

  /** No oversell: active reservations never exceed the physical quantity, and a closed batch has none. */
  lemma NeverOversold(now: int, today: int, steps: seq<Step>, b: nat)
    ensures var db := Reached(now, today, steps);
            b < |db.batches| ==>
              && ActiveReserved(db, b) <= db.batches[b].quantity
              && (db.batches[b].status.Closed? ==> ActiveReserved(db, b) == 0)
              && (!db.batches[b].status.Closed? ==> (db.batches[b].status.Active? <==> db.batches[b].quantity > 0))
  {
    var db := Reached(now, today, steps);
    if b < |db.batches| {
      assert StockOk(db);
      assert BatchOk(db, b);
    }
  }

  /** Whatever happened to batches or the clock since placement, packing a PLACED order succeeds. */
  lemma PlacedOrdersCanBePacked(now: int, today: int, steps: seq<Step>, o: nat)
    ensures var db := Reached(now, today, steps);
            o in db.orders && db.orders[o].status.Placed? ==>
              && PackSpec(db, o).Ok?
              && (forall b :: 0 <= b < |db.batches| ==> PickFor(db, o, b).Ok?)
              && !HoldsNothing(db.allocations, o)
  {
    hide Inv, Reached, PackSpec, PickFor, HoldsNothing;
    var db := Reached(now, today, steps);
    if o in db.orders && db.orders[o].status.Placed? {
      PackingNeverFails(db, o);
    }
  }

  /** The RESERVED rows of a line. */
  ghost predicate FitsLine(db: Db, i: nat, l: nat)
    requires i in db.allocations && l in db.lines
  {
    && db.allocations[i].order == db.lines[l].order
    && db.allocations[i].batch < |db.batches|
    && db.batches[db.allocations[i].batch].product == db.lines[l].product
  }

  /** Coverage of a placed order's line: exact, from its product, each batch once, without deadline. */
  ghost predicate HeldExactly(db: Db, l: nat, until: Option<int>)
    requires l in db.lines
  {
    && Total(db.allocations, db.nextAllocation, ReservedFor(l)) == db.lines[l].quantity
    && (forall i :: i in db.allocations && Matches(db.allocations[i], ReservedFor(l)) ==>
          i < db.nextAllocation && FitsLine(db, i, l) && db.allocations[i].reservedUntil == until)
    && (forall i, j :: i in db.allocations && j in db.allocations && i != j
          && Matches(db.allocations[i], ReservedFor(l)) && Matches(db.allocations[j], ReservedFor(l))
          ==> db.allocations[i].batch != db.allocations[j].batch)
  }

  lemma CoveredIsExact(db: Db, o: nat, until: Option<int>, l: nat)
    requires Inv(db) && Covered(db, o, until) && l in db.lines && db.lines[l].order == o
    ensures HeldExactly(db, l, until)
  {
    assert LineHeld(db, l);
    forall i | i in db.allocations && Matches(db.allocations[i], ReservedFor(l))
      ensures i < db.nextAllocation && FitsLine(db, i, l) && db.allocations[i].reservedUntil == until
    {
      assert AllocationOk(db, i);
      assert Matches(db.allocations[i], ReservedBy(o));
    }
    assert OneRowPerLineAndBatch(db.allocations);
  }

  /** Exact coverage per line: by RESERVED rows in PLACED orders, by CONSUMED rows in PACKED and
      DELIVERED ones; cancelled orders and business drafts hold nothing. */
  lemma LinesAreCovered(now: int, today: int, steps: seq<Step>, l: nat)
    ensures var db := Reached(now, today, steps);
            l in db.lines ==>
              && db.lines[l].order in db.orders
              && (var order := db.orders[db.lines[l].order];
                  && (order.status.Placed? ==> HeldExactly(db, l, None))
                  && (order.status.Packed? || order.status.Delivered? ==>
                        && Total(db.allocations, db.nextAllocation, ConsumedFor(l)) == db.lines[l].quantity
                        && Total(db.allocations, db.nextAllocation, ReservedFor(l)) == 0)
                  && (order.status.Cancelled? || (order.status.Draft? && order.channel.Business?) ==>
                        HoldsNothing(db.allocations, db.lines[l].order)))
  {
    var db := Reached(now, today, steps);
    if l in db.lines {
      assert LineOk(db, l);
      var o := db.lines[l].order;
      assert OrderOk(db, o);
      if db.orders[o].status.Placed? {
        CoveredIsExact(db, o, None, l);
      }
      if db.orders[o].status.Packed? || db.orders[o].status.Delivered? {
        assert LineShipped(db, l);
        NothingHeldForLine(db, o, l);
      }
    }
  }

  /** A retail draft holds nothing, or every line exactly until one common deadline. */
  lemma RetailHoldsAreAllOrNothing(now: int, today: int, steps: seq<Step>, o: nat)
    ensures var db := Reached(now, today, steps);
            o in db.orders && db.orders[o].channel.Retail? && db.orders[o].status.Draft? ==>
              HoldsNothing(db.allocations, o)
              || exists d: int :: forall l :: l in db.lines && db.lines[l].order == o ==> HeldExactly(db, l, Some(d))
  {
    var db := Reached(now, today, steps);
    if o in db.orders && db.orders[o].channel.Retail? && db.orders[o].status.Draft? && !HoldsNothing(db.allocations, o) {
      assert OrderOk(db, o);
      var d: int :| Covered(db, o, Some(d));
      forall l | l in db.lines && db.lines[l].order == o ensures HeldExactly(db, l, Some(d)) {
        CoveredIsExact(db, o, Some(d), l);
      }
    }
  }

  lemma PromotionCoversEveryLine(db: Db, o: nat, l: nat)
    requires AllocationsOk(db) && OneRowPerLineAndBatch(db.allocations) && AllOrNothing(db, o)
    requires MakePermanentSpec(db, o).Ok? && l in db.lines && db.lines[l].order == o
    ensures l in MakePermanentSpec(db, o).value.lines && HeldExactly(MakePermanentSpec(db, o).value, l, None)
  {
    hide MakePermanentSpec, AllocationsOk, OneRowPerLineAndBatch, AllOrNothing, Covered, Weakened, HeldExactly;
    var promoted := MakePermanentSpec(db, o).value;
    PromotionIsTotal(db, o, promoted);
    PromotedIsExact(db, o, promoted, l);
  }

  /** Promotion raises exactly when nothing is held or every hold has expired. */
  lemma PromotionRefuses(db: Db, o: nat)
    requires AllOrNothing(db, o)
    ensures MakePermanentSpec(db, o).Err? <==>
              forall i :: i in db.allocations && Matches(db.allocations[i], ReservedBy(o)) ==>
                db.allocations[i].reservedUntil.Some? && db.allocations[i].reservedUntil.value <= db.now
  {
    if !HoldsNothing(db.allocations, o) {
      var d: int :| Covered(db, o, Some(d));
      assert Deadline(db.allocations, o, Some(d));
    }
  }

  /** Promoting the holds of a retail draft makes every line permanently covered; it raises exactly
      when nothing is held or the common deadline has passed. */
  lemma PromotionIsAllOrNothing(now: int, today: int, steps: seq<Step>, o: nat)
    ensures var db := Reached(now, today, steps);
            o in db.orders && db.orders[o].channel.Retail? && db.orders[o].status.Draft? ==>
              && (MakePermanentSpec(db, o).Ok? ==>
                    forall l :: l in db.lines && db.lines[l].order == o ==>
                      l in MakePermanentSpec(db, o).value.lines && HeldExactly(MakePermanentSpec(db, o).value, l, None))
              && (MakePermanentSpec(db, o).Err? <==>
                    forall i :: i in db.allocations && Matches(db.allocations[i], ReservedBy(o)) ==>
                      db.allocations[i].reservedUntil.Some? && db.allocations[i].reservedUntil.value <= db.now)
  {
    hide MakePermanentSpec, StockOk, PaymentsOk, OffersOk, LinesOk, KeysOk, AllocationsOk, OneRowPerLineAndBatch, AllOrNothing, HeldExactly, Reached;
    var db := Reached(now, today, steps);
    if o in db.orders && db.orders[o].channel.Retail? && db.orders[o].status.Draft? {
      assert OrderOk(db, o);
      PromotionRefuses(db, o);
      if MakePermanentSpec(db, o).Ok? {
        forall l | l in db.lines && db.lines[l].order == o
          ensures l in MakePermanentSpec(db, o).value.lines && HeldExactly(MakePermanentSpec(db, o).value, l, None)
        {
          PromotionCoversEveryLine(db, o, l);
        }
      }
    }
  }

  lemma PromotedIsExact(db: Db, o: nat, promoted: Db, l: nat)
    requires AllocationsOk(db) && OneRowPerLineAndBatch(db.allocations)
    requires promoted == db.(allocations := promoted.allocations) && Weakened(db, promoted, o) && Covered(promoted, o, None)
    requires l in db.lines && db.lines[l].order == o
    ensures HeldExactly(promoted, l, None)
  {
    assert LineHeld(promoted, l);
    forall i | i in promoted.allocations && Matches(promoted.allocations[i], ReservedFor(l))
      ensures i < promoted.nextAllocation && FitsLine(promoted, i, l) && promoted.allocations[i].reservedUntil == None
    {
      assert AllocationOk(db, i);
      assert Matches(promoted.allocations[i], ReservedBy(o));
    }
  }

  // ---------- Paid once, for the right amount ----------

  ghost predicate Pays(db: Db, a: nat, o: nat) {
    a in db.attempts && db.attempts[a].order == o && db.attempts[a].status.Succeeded?
  }

  ghost predicate PaidOnce(db: Db, o: nat) {
    exists a :: Pays(db, a, o) && forall b :: Pays(db, b, o) ==> b == a
  }

  /** A retail order that was placed has exactly one SUCCEEDED attempt, a draft none, a cancelled one
      at most one, and its amount is the order's total, payable and within the limit. */
  lemma RetailOrdersArePaidOnce(now: int, today: int, steps: seq<Step>, o: nat)
    ensures var db := Reached(now, today, steps);
            o in db.orders && db.orders[o].channel.Retail? ==>
              var status := db.orders[o].status;
              && (status.Placed? || status.Packed? || status.Delivered? ==> PaidOnce(db, o))
              && (status.Draft? ==> forall a :: !Pays(db, a, o))
              && (forall a, b :: Pays(db, a, o) && Pays(db, b, o) ==> a == b)
              && (forall a :: Pays(db, a, o) ==>
                    OrderTotal(db, o) == Some(db.attempts[a].amount) && 0 < db.attempts[a].amount <= 100000)
  {
    hide StockOk, OrdersOk, OneRowPerLineAndBatch, Tables;
    var db := Reached(now, today, steps);
    if o in db.orders && db.orders[o].channel.Retail? {
      assert PaidOk(db, o);
      forall a | Pays(db, a, o) ensures OrderTotal(db, o) == Some(db.attempts[a].amount) && !db.orders[o].status.Draft? {
        assert AttemptOk(db, a);
      }
      forall a, b | Pays(db, a, o) && Pays(db, b, o) ensures a == b {
        assert AttemptsApart(db.attempts);
      }
      if IsPaid(db.attempts, o) {
        var a :| a in db.attempts && db.attempts[a].order == o && db.attempts[a].status.Succeeded?;
        assert Pays(db, a, o);
      }
    }
  }
}
