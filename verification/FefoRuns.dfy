/** Every reservation that any step of the system makes is picked first expired, first out. */
module FefoRuns {
  import opened Common
  import opened Records
  import opened Storage
  import opened Pricing
  import opened Reservations
  import opened ReservationFacts
  import opened Placement
  import opened Orders
  import opened OrderEdit
  import opened Drafts
  import opened OpsOrders
  import opened Payments
  import opened Retail
  import opened Reconciliation
  import opened Invariant
  import opened OrderSteps
  import opened EditFacts
  import opened Runs
  import opened PlacementLaws

  lemma PlacedRows(db: Db, o: nat, db': Db, i: nat)
    requires Inv(db) && OfferKeysOk(db) && PlaceBusinessSpec(db, o) == Ok(db')
    requires i in db'.allocations && i !in db.allocations
    ensures PickedFefo(db', i, Business, None) && db'.allocations[i].order == o
  {
    hide ReserveLinesSpec, PickedFefo, StockOk, OrdersOk, PaymentsOk, OneRowPerLineAndBatch, OfferKeysOk;
    LineIdsFacts(db, o);
    AllocationKeys(db);
    var prepared := PrepareBusinessSpec(db, o).value;
    ReservedListIsFefo(db, OrderLines(db, o), Business, None, prepared, i);
    OrderOfLine(prepared, i, Business, None);
    PickedFefoFrame(prepared, db', i, Business, None);
  }

  lemma OrderOfLine(db: Db, i: nat, channel: Channel, until: Option<int>)
    requires PickedFefo(db, i, channel, until)
    ensures i in db.allocations && db.allocations[i].line in db.lines
    ensures db.allocations[i].order == db.lines[db.allocations[i].line].order
  {
  }

  lemma EditedRowsAreFefo(db: Db, o: nat, incoming: seq<ResolvedLine>, db': Db, i: nat)
    requires Inv(db) && OfferKeysOk(db) && LineKeysBelow(db) && UpdatePlacedSpec(db, o, incoming) == Ok(db')
    requires i in db'.allocations && i !in db.allocations
    ensures PickedFefo(db', i, Business, None) && db'.allocations[i].order == o
  {
    hide UpdatePlacedSpec, ReserveLinesSpec, PickedFefo, StockOk, OrdersOk, PaymentsOk, OneRowPerLineAndBatch, OfferKeysOk,
         EditAccepted, LinesAre, OffersOk, LinesOk, KeysOk, LineKeysBelow;
    EditUnfolds(db, o, incoming);
    AcceptedShape(db, o, incoming);
    MidStateIsSound(db, o, incoming);
    MidAllocations(db, o, incoming);
    var mid := MidEditState(db, o, incoming);
    LineIdsFacts(mid, o);
    AllocationKeys(mid);
    ReservedListIsFefo(mid, OrderLines(mid, o), Business, None, db', i);
    OrderOfLine(db', i, Business, None);
  }

  lemma MidAllocations(db: Db, o: nat, incoming: seq<ResolvedLine>)
    requires AllOffered(incoming) && EditStorable(incoming, OffersOf(db.lines, o))
    ensures MidEditState(db, o, incoming).allocations.Keys <= db.allocations.Keys
  {
    hide AddLines, KeptLines, NewLines, ByOffer;
  }

  lemma HeldRowsAreFefo(db: Db, o: nat, db': Db, i: nat)
    requires Inv(db) && OfferKeysOk(db) && StartPaymentSpec(db, o) == Ok(db')
    requires i in db'.allocations && i !in db.allocations
    ensures PickedFefo(db', i, Retail, Some(db.now + 35 * 60 * 1000000)) && db'.allocations[i].order == o
  {
    hide Inv, ReserveLinesSpec, PickedFefo, OfferKeysOk, AllocationKeysOk, HoldSpec, WithoutTemporary, OrderLines, CreateAttemptSpec;
    var cleared := WithoutTemporary(db, o);
    var until := Some(db.now + RETAIL_PAYMENT_RESERVATION_WINDOW);
    var held := HoldSpec(db, o).value;
    ClearedForHolding(db, o);
    AttemptOnly(held, o);
    HoldUnfolds(db, o, cleared, OrderLines(db, o), until);
    ReservedListIsFefo(cleared, OrderLines(db, o), Retail, until, held, i);
    OrderOfLine(held, i, Retail, until);
    HeldLines(db, o, cleared, held);
    PickedFefoFrame(held, db', i, Retail, until);
  }

  lemma ClearedForHolding(db: Db, o: nat)
    requires Inv(db) && OfferKeysOk(db)
    ensures var cleared := WithoutTemporary(db, o);
            && OfferKeysOk(cleared) && AllocationKeysOk(cleared) && AreLines(cleared, OrderLines(db, o))
            && cleared == db.(allocations := cleared.allocations) && cleared.allocations.Keys == db.allocations.Keys
            && forall l :: l in OrderLines(db, o) ==> l in db.lines && db.lines[l].order == o
  {
    hide StockOk, OrdersOk, PaymentsOk, OneRowPerLineAndBatch, OffersOk, KeysOk, OrderLines, CancelMatching, OfferKeysOk;
    var cleared := WithoutTemporary(db, o);
    CancelEffect(db, o, TemporaryBy(o), cleared);
    CancellingKeepsKeys(db.allocations, TemporaryBy(o));
    LineIdsFacts(db, o);
    AllocationKeys(cleared);
    OfferKeysFrame(db, cleared);
  }

  lemma AttemptOnly(held: Db, o: nat)
    ensures CreateAttemptSpec(held, o).Ok? ==>
              var db' := CreateAttemptSpec(held, o).value;
              db' == held.(attempts := db'.attempts, nextAttempt := db'.nextAttempt)
  {
  }

  lemma HeldLines(db: Db, o: nat, cleared: Db, held: Db)
    requires OfferKeysOk(db) && cleared == WithoutTemporary(db, o) && HoldSpec(db, o) == Ok(held)
    ensures held.lines == db.lines
  {
    hide ReserveLinesSpec;
  }

  lemma CancellingKeepsKeys(t: Allocations, q: Query)
    ensures CancelMatching(t, q).Keys == t.Keys
  {
  }

  // ---------- All other steps ----------

  ghost predicate AddsNoRows(db: Db, db': Db) {
    db'.allocations.Keys <= db.allocations.Keys
  }

  lemma StockStepAddsNoRows(db: Db, step: Step, db': Db)
    requires IsStockStep(step) && ApplyStock(db, step) == Ok(db')
    ensures AddsNoRows(db, db')
  {
  }

  lemma SettlingAddsNoRows(db: Db, a: nat, transactionId: Option<string>)
    ensures AddsNoRows(db, Committed(db, CompleteSpec(db, a, transactionId)))
    ensures AddsNoRows(db, Committed(db, FailSpec(db, a)))
  {
    hide Strip, Matches, ActiveFor;
  }

  lemma ReconcilingAddsNoRows(db: Db, a: nat, provider: Provider)
    ensures AddsNoRows(db, Committed(db, ReconcileSpec(db, a, provider)))
  {
    hide CompleteSpec, FailSpec;
    if a in db.attempts && db.attempts[a].providerPaymentId in provider {
      SettlingAddsNoRows(db, a, provider[db.attempts[a].providerPaymentId].transactionId);
    }
  }

  lemma {:induction false} BatchAddsNoRows(db: Db, ids: seq<nat>, provider: Provider)
    ensures AddsNoRows(db, BatchSpec(db, ids, provider))
  {
    hide ReconcileSpec;
    if ids != [] {
      var n := |ids| - 1;
      BatchAddsNoRows(db, ids[..n], provider);
      ReconcilingAddsNoRows(BatchSpec(db, ids[..n], provider), ids[n], provider);
    }
  }

  lemma PaymentStepAddsNoRows(db: Db, step: Step, db': Db)
    requires OfferKeysOk(db) && IsPaymentStep(step) && !step.StartPayment? && ApplyPayment(db, step) == Ok(db')
    ensures AddsNoRows(db, db')
  {
    hide CompleteSpec, FailSpec, ReconcileSpec, BatchSpec, AddsNoRows;
    match step {
      case AttachProvider(attempt, paymentId) => AttachingAddsNoRows(db, attempt, paymentId);
      case CompletePayment(attempt, transactionId) => SettlingAddsNoRows(db, attempt, transactionId);
      case FailPayment(attempt) => SettlingAddsNoRows(db, attempt, None);
      case ReconcilePayment(attempt, provider) => ReconcilingAddsNoRows(db, attempt, provider);
      case ReconcileAll(provider) => BatchAddsNoRows(db, PendingIds(db, db.nextAttempt), provider);
    }
  }

  lemma AttachingAddsNoRows(db: Db, a: nat, paymentId: string)
    ensures AddsNoRows(db, Committed(db, AttachProviderSpec(db, a, paymentId)))
  {
  }

  predicate Reserves(step: Step) {
    step.PlaceOrder? || step.EditOrder? || step.EditInPortal? || step.StartPayment?
  }

  lemma OrderStepAddsNoRows(db: Db, step: Step, db': Db)
    requires OfferKeysOk(db) && LineKeysBelow(db) && !IsStockStep(step) && !IsPaymentStep(step) && !Reserves(step)
    requires ApplyOrder(db, step) == Ok(db')
    ensures AddsNoRows(db, db')
  {
    hide OfferKeysOk, LineKeysBelow, Matches, AddLines, PickedBatches, TransitionAllowed;
  }

  /** Every new allocation row, whichever step adds it, is a RESERVED row of the step's order, lies on
      an active, unexpired batch that the line's offer may sell from, and left no free unit behind on a
      batch that expires before it; a payment start holds it for 35 minutes, the others for good. */
  lemma EveryReservationIsFefo(db: Db, step: Step, db': Db, i: nat)
    requires Inv(db) && OfferKeysOk(db) && LineKeysBelow(db) && Apply(db, step) == Ok(db')
    requires i in db'.allocations && i !in db.allocations
    ensures Reserves(step) && db'.allocations[i].order == step.order
    ensures db'.allocations[i].batch < |db'.batches|
    ensures var batch := db'.batches[db'.allocations[i].batch];
            batch.status.Active? && batch.quantity > 0 && batch.bestBefore > db'.today
    ensures if step.StartPayment? then PickedFefo(db', i, Retail, Some(db.now + 35 * 60 * 1000000))
            else PickedFefo(db', i, Business, None)
  {
    hide Inv, OfferKeysOk, LineKeysBelow, ApplyStock, UpdatePlacedSpec, PlaceBusinessSpec, StartPaymentSpec, OpsEditSpec, KeepMarksSpec,
         ResolveOfferLinesSpec, PickedFefo;
    if Reserves(step) {
      match step {
        case PlaceOrder(o) => PlacedRows(db, o, db', i);
        case EditOrder(o, resolved) => EditedRowsAreFefo(db, o, resolved, db', i);
        case EditInPortal(o, inputs) =>
          EditInPortalUnfolds(db, o, inputs, db');
          PortalRowsAreFefo(db, o, ResolveOfferLinesSpec(db, inputs).value, db', i);
        case StartPayment(o) => HeldRowsAreFefo(db, o, db', i);
      }
      PickedIsOrderable(db', i, if step.StartPayment? then Retail else Business,
                        if step.StartPayment? then Some(db.now + 35 * 60 * 1000000) else None);
    } else {
      OtherStepsAddNoRows(db, step, db');
    }
  }

  lemma PickedIsOrderable(db: Db, i: nat, channel: Channel, until: Option<int>)
    requires PickedFefo(db, i, channel, until)
    ensures i in db.allocations && db.allocations[i].batch < |db.batches|
    ensures var batch := db.batches[db.allocations[i].batch];
            batch.status.Active? && batch.quantity > 0 && batch.bestBefore > db.today
  {
  }

  lemma OtherStepsAddNoRows(db: Db, step: Step, db': Db)
    requires OfferKeysOk(db) && LineKeysBelow(db) && Apply(db, step) == Ok(db') && !Reserves(step)
    ensures AddsNoRows(db, db')
  {
    hide OfferKeysOk, LineKeysBelow, ApplyStock, ApplyPayment, ApplyOrder, AddsNoRows;
    if IsStockStep(step) {
      StockStepAddsNoRows(db, step, db');
    } else if IsPaymentStep(step) {
      PaymentStepAddsNoRows(db, step, db');
    } else {
      OrderStepAddsNoRows(db, step, db');
    }
  }

  lemma PortalRowsAreFefo(db: Db, o: nat, lines: seq<ResolvedLine>, db': Db, i: nat)
    requires Inv(db) && OfferKeysOk(db) && LineKeysBelow(db) && AllOffered(lines) && KeepMarksSpec(db, o, lines) == Ok(db')
    requires i in db'.allocations && i !in db.allocations
    ensures PickedFefo(db', i, Business, None) && db'.allocations[i].order == o
  {
    hide UpdatePlacedSpec, Inv, OfferKeysOk, LineKeysBelow, PickedFefo, UnchangedLines, ByOffer;
    var updated := UpdatePlacedSpec(db, o, lines).value;
    EditedRowsAreFefo(db, o, lines, updated, i);
    PickedFefoFrame(updated, db', i, Business, None);
  }
}
