/** Running the services themselves: whatever they do step by step is a run of the system. */
module Execution {
  import opened Common
  import opened Records
  import opened Storage
  import opened InventoryServices
  import opened Reservations
  import opened Placement
  import opened Orders
  import opened OrderEdit
  import opened OpsOrders
  import opened Payments
  import opened Retail
  import opened Reconciliation
  import opened Invariant
  import opened StockSteps
  import opened Runs

  method ExecuteStock(store: Database, step: Step) returns (r: Result<()>)
    requires IsStockStep(step)
    modifies store
    ensures r == Reply(ApplyStock(old(store.Contents()), step))
    ensures store.Contents() == Committed(old(store.Contents()), ApplyStock(old(store.Contents()), step))
  {
    r := Ok(());
    match step
    case CreateBatch(product, quantity, bestBefore, code, allowNonFuture) =>
      r := InventoryServices.CreateBatch(store, product, quantity, bestBefore, code, allowNonFuture);
    case UpdateBatch(batch, quantity, bestBefore) =>
      r := InventoryServices.UpdateBatch(store, batch, quantity, bestBefore);
    case CloseBatch(batch) =>
      r := InventoryServices.CloseBatch(store, batch);
    case ReviseCatalog(products, offers) =>
      if RevisionAllowed(store.Contents(), products, offers) {
        store.products, store.offers := products, offers;
      } else {
        r := Err(IntegrityError);
      }
    case Tick(now, today) =>
      store.now, store.today := Max(store.now, now), Max(store.today, today);
  }

  method ExecutePayment(store: Database, step: Step) returns (r: Result<()>)
    requires OfferKeysOk(store.Contents()) && AllocationKeysOk(store.Contents()) && IsPaymentStep(step)
    modifies store
    ensures r == Reply(ApplyPayment(old(store.Contents()), step))
    ensures store.Contents() == Committed(old(store.Contents()), ApplyPayment(old(store.Contents()), step))
  {
    hide OfferKeysOk, AllocationKeysOk, StartPaymentSpec, AttachProviderSpec, CompleteSpec, FailSpec, ReconcileSpec, BatchSpec;
    match step
    case StartPayment(order) =>
      r := StartRetailPayment(store, order);
    case AttachProvider(attempt, paymentId) =>
      r := PersistProviderPayment(store, attempt, paymentId);
    case CompletePayment(attempt, transactionId) =>
      r := CompleteRetailPayment(store, attempt, transactionId);
    case FailPayment(attempt) =>
      r := FailRetailPayment(store, attempt);
    case ReconcilePayment(attempt, provider) =>
      r := ReconcileRetailPayment(store, attempt, provider);
    case ReconcileAll(provider) =>
      var summary := ReconcilePendingRetailPayments(store, provider);
      r := Ok(());
  }

  method ExecuteOrder(store: Database, step: Step) returns (r: Result<()>)
    requires OfferKeysOk(store.Contents()) && LineKeysBelow(store.Contents()) && AllocationKeysOk(store.Contents())
    requires !IsStockStep(step) && !IsPaymentStep(step)
    modifies store
    ensures r == Reply(ApplyOrder(old(store.Contents()), step))
    ensures store.Contents() == Committed(old(store.Contents()), ApplyOrder(old(store.Contents()), step))
  {
    hide OfferKeysOk, LineKeysBelow, AllocationKeysOk, CreateDraftSpec, PlaceBusinessSpec, UpdatePlacedSpec, OpsEditSpec,
         PackSpec, CancelSpec, DeliverSpec, DiscardSpec, CreateRetailSpec;
    match step
    case CreateDraft(resolved) =>
      r := CreateDraftOrder(store, resolved);
    case PlaceOrder(order) =>
      r := PlaceBusinessOrder(store, order);
    case EditOrder(order, resolved) =>
      r := UpdatePlacedOrder(store, order, resolved);
    case EditInPortal(order, inputs) =>
      r := UpdatePlacedOrderAndPreserveChecklist(store, order, inputs);
    case ToggleMark(order, allocation) =>
      var marked := ToggleChecklistMark(store, order, allocation);
      r := if marked.Ok? then Ok(()) else Err(marked.error);
    case PackOrder(order) =>
      r := PackOrderAndClearChecklist(store, order);
    case CancelOrder(order) =>
      r := Orders.CancelOrder(store, order);
    case DeliverOrder(order) =>
      r := Orders.DeliverOrder(store, order);
    case DiscardDraft(order) =>
      r := DiscardDraftOrder(store, order);
    case CheckOut(destinationSupported, cart) =>
      r := CreatePendingRetailOrder(store, destinationSupported, cart);
  }

  /** One transaction on a database that satisfies the invariant: it commits what the step describes or
      rolls back, and the invariant holds again. */
  method Execute(store: Database, step: Step) returns (r: Result<()>)
    requires Inv(store.Contents())
    modifies store
    ensures Inv(store.Contents())
    ensures store.Contents() == After(old(store.Contents()), step)
  {
    hide Inv, OfferKeysOk, LineKeysBelow, AllocationKeysOk, ApplyStock, ApplyPayment, ApplyOrder;
    ghost var before := store.Contents();
    InvGivesKeys(before);
    InvGivesAllocationKeys(store.Contents());
    if IsStockStep(step) {
      r := ExecuteStock(store, step);
    } else if IsPaymentStep(step) {
      r := ExecutePayment(store, step);
    } else {
      r := ExecuteOrder(store, step);
    }
    assert Inv(After(before, step)) && store.Contents() == After(before, step);
  }

  lemma InvGivesAllocationKeys(db: Db)
    requires Inv(db)
    ensures AllocationKeysOk(db)
  {
    AllocationKeys(db);
  }

  /** Calling the services one after the other is a run. */
  method ExecuteAll(store: Database, steps: seq<Step>)
    requires Inv(store.Contents())
    modifies store
    ensures Inv(store.Contents())
    ensures store.Contents() == Run(old(store.Contents()), steps)
  {
    hide Inv, After;
    ghost var before := store.Contents();
    for i := 0 to |steps|
      invariant Inv(store.Contents()) && store.Contents() == Run(before, steps[..i])
    {
      var r := Execute(store, steps[i]);
      assert steps[..i + 1][..i] == steps[..i];
    }
    assert steps[..|steps|] == steps;
  }
}
