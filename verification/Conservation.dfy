/**
 What no run can lose: physical units are conserved, consumed allocations and terminal payment
 attempts are never changed, and a closed batch is frozen.
 */
module Conservation {
  import opened Common
  import opened Records
  import opened Pricing
  import opened InventoryServices
  import opened Reservations
  import opened ReservationFacts
  import opened Placement
  import opened Orders
  import opened OrderEdit
  import opened Drafts
  import opened OpsOrders
  import opened Payments
  import opened Retail
  import opened Reconciliation
  import opened ReconciliationFacts
  import opened Invariant
  import opened StockSteps
  import opened OrderSteps
  import opened EditSteps
  import opened RetailSteps
  import opened Runs

  // ---------- Consumed rows ----------

  /** Both tables have the same CONSUMED rows. */
  ghost predicate SameConsumed(t: Allocations, t': Allocations) {
    && (forall i :: i in t && t[i].status.Consumed? ==> i in t' && t'[i] == t[i])
    && (forall i :: i in t' && t'[i].status.Consumed? ==> i in t && t'[i] == t[i])
  }

  lemma SameConsumedTransitive(a: Allocations, b: Allocations, c: Allocations)
    requires SameConsumed(a, b) && SameConsumed(b, c)
    ensures SameConsumed(a, c)
  {
  }

  function ShippedUnits(db: Db, b: nat): nat {
    Total(db.allocations, db.nextAllocation, ConsumedOn(b))
  }

  lemma SameConsumedTotals(db: Db, db': Db, b: nat)
    requires AllocationsOk(db) && AllocationsOk(db') && SameConsumed(db.allocations, db'.allocations)
    ensures ShippedUnits(db', b) == ShippedUnits(db, b)
  {
    AllocationKeys(db);
    AllocationKeys(db');
    var n := Max(db.nextAllocation, db'.nextAllocation);
    TotalBeyond(db.allocations, db.nextAllocation, n, ConsumedOn(b));
    TotalBeyond(db'.allocations, db'.nextAllocation, n, ConsumedOn(b));
    TotalSame(db.allocations, n, ConsumedOn(b), db'.allocations, ConsumedOn(b));
  }

  /** When only one order's rows change and it has nothing consumed, consumed rows stay. */
  lemma OthersKeepConsumed(t: Allocations, t': Allocations, o: nat)
    requires forall p :: p != o ==> SameAllocationsFor(t, t', p)
    requires NothingConsumed(t, o) && NothingConsumed(t', o)
    ensures SameConsumed(t, t')
  {
    forall i | i in t && t[i].status.Consumed? ensures i in t' && t'[i] == t[i] {
      assert SameAllocationsFor(t, t', t[i].order);
    }
    forall i | i in t' && t'[i].status.Consumed? ensures i in t && t'[i] == t[i] {
      assert SameAllocationsFor(t, t', t'[i].order);
    }
  }

  lemma OpenOrderHasNothingConsumed(db: Db, o: nat)
    requires OrdersOk(db) && o in db.orders
    requires db.orders[o].status.Draft? || db.orders[o].status.Placed?
    ensures NothingConsumed(db.allocations, o)
  {
    assert OrderOk(db, o);
  }

  /** Nothing but what is reserved, held, edited or paid changes; no batch does. */
  ghost predicate NothingShips(db: Db, db': Db) {
    db'.batches == db.batches && SameConsumed(db.allocations, db'.allocations)
  }

  lemma PlacingShipsNothing(db: Db, o: nat, db': Db)
    requires Inv(db) && OfferKeysOk(db) && PlaceBusinessSpec(db, o) == Ok(db')
    ensures NothingShips(db, db')
  {
    hide ReserveLinesSpec, StockOk, PaymentsOk, Tables, SameAllocationsFor, NothingConsumed;
    PlaceBusinessKeepsInv(db, o, db');
    OpenOrderHasNothingConsumed(db, o);
    OpenOrderHasNothingConsumed(db', o);
    OthersKeepConsumed(db.allocations, db'.allocations, o);
  }

  lemma EditingShipsNothing(db: Db, o: nat, lines: seq<ResolvedLine>, db': Db)
    requires Inv(db) && OfferKeysOk(db) && LineKeysBelow(db) && UpdatePlacedSpec(db, o, lines) == Ok(db')
    ensures NothingShips(db, db')
  {
    hide ReserveLinesSpec, StockOk, PaymentsOk, Tables, SameAllocationsFor, NothingConsumed, AddLines, KeptLines, NewLines, ByOffer;
    UpdatePlacedKeepsInv(db, o, lines, db');
    OpenOrderHasNothingConsumed(db, o);
    OpenOrderHasNothingConsumed(db', o);
    OthersKeepConsumed(db.allocations, db'.allocations, o);
  }

  lemma PortalEditShipsNothing(db: Db, o: nat, inputs: seq<OfferLineInput>, db': Db)
    requires Inv(db) && OfferKeysOk(db) && LineKeysBelow(db) && OpsEditSpec(db, o, inputs) == Ok(db')
    ensures NothingShips(db, db')
  {
    hide Inv, UpdatePlacedSpec, ResolveOfferLinesSpec, CheckedKeys, SameConsumed;
    var lines := ResolveOfferLinesSpec(db, inputs).value;
    EditingShipsNothing(db, o, lines, UpdatePlacedSpec(db, o, lines).value);
  }

  lemma HoldingShipsNothing(db: Db, o: nat, db': Db)
    requires Inv(db) && OfferKeysOk(db) && StartPaymentSpec(db, o) == Ok(db')
    ensures NothingShips(db, db')
  {
    hide ReserveLinesSpec, StockOk, PaymentsOk, Tables, SameAllocationsFor, NothingConsumed, CancelMatching;
    StartPaymentKeepsInv(db, o, db');
    OpenOrderHasNothingConsumed(db, o);
    OpenOrderHasNothingConsumed(db', o);
    OthersKeepConsumed(db.allocations, db'.allocations, o);
  }

  lemma CompletingShipsNothing(db: Db, a: nat, transactionId: Option<string>, db': Db)
    requires CompleteSpec(db, a, transactionId) == Ok(db')
    ensures NothingShips(db, db')
  {
    hide Strip;
  }

  lemma FailingShipsNothing(db: Db, a: nat, db': Db)
    requires FailSpec(db, a) == Ok(db')
    ensures NothingShips(db, db')
  {
  }

  lemma ReconcilingShipsNothing(db: Db, a: nat, provider: Provider, db': Db)
    requires ReconcileSpec(db, a, provider) == Ok(db')
    ensures NothingShips(db, db')
  {
    hide CompleteSpec, FailSpec;
    var external := provider[db.attempts[a].providerPaymentId];
    if external.status.Succeeded? && db.attempts[a].status.Pending? {
      CompletingShipsNothing(db, a, external.transactionId, db');
    } else if external.status.Failed? && db.attempts[a].status.Pending? {
      FailingShipsNothing(db, a, db');
    }
  }

  lemma {:induction false} BatchShipsNothing(db: Db, ids: seq<nat>, provider: Provider)
    ensures NothingShips(db, BatchSpec(db, ids, provider))
  {
    if ids != [] {
      hide ReconcileSpec, SameConsumed;
      var n := |ids| - 1;
      var r := BatchSpec(db, ids[..n], provider);
      BatchShipsNothing(db, ids[..n], provider);
      if IsChecked(r, ids[n]) && ReconcileSpec(r, ids[n], provider).Ok? {
        ReconcilingShipsNothing(r, ids[n], provider, ReconcileSpec(r, ids[n], provider).value);
        SameConsumedTransitive(db.allocations, r.allocations, BatchSpec(db, ids, provider).allocations);
      }
    }
  }

  predicate IsPureOrderStep(step: Step) {
    step.CreateDraft? || step.ToggleMark? || step.DeliverOrder? || step.DiscardDraft? || step.CheckOut? || step.AttachProvider?
  }

  lemma PureOrderStepShipsNothing(db: Db, step: Step, db': Db)
    requires OfferKeysOk(db) && LineKeysBelow(db) && IsPureOrderStep(step) && Apply(db, step) == Ok(db')
    ensures db'.batches == db.batches && db'.allocations == db.allocations
  {
    hide AddLines, Resolve, LinesTotalPrice, AllResolvable;
  }

  /** Every step but packing and stock keeping leaves batches and consumed rows alone. */
  lemma StepShipsNothing(db: Db, step: Step, db': Db)
    requires Inv(db) && OfferKeysOk(db) && LineKeysBelow(db) && !IsStockStep(step) && !step.PackOrder?
    requires Apply(db, step) == Ok(db')
    ensures NothingShips(db, db')
  {
    if IsPureOrderStep(step) {
      hide Apply, Inv;
      PureOrderStepShipsNothing(db, step, db');
    } else {
      hide Inv, OfferKeysOk, LineKeysBelow, PlaceBusinessSpec, UpdatePlacedSpec, OpsEditSpec, StartPaymentSpec,
           CompleteSpec, FailSpec, ReconcileSpec, BatchSpec;
      match step {
        case PlaceOrder(order) => PlacingShipsNothing(db, order, db');
        case EditOrder(order, resolved) => EditingShipsNothing(db, order, resolved, db');
        case EditInPortal(order, inputs) => PortalEditShipsNothing(db, order, inputs, db');
        case CancelOrder(order) =>
        case StartPayment(order) => HoldingShipsNothing(db, order, db');
        case CompletePayment(attempt, transactionId) => CompletingShipsNothing(db, attempt, transactionId, db');
        case FailPayment(attempt) => FailingShipsNothing(db, attempt, db');
        case ReconcilePayment(attempt, provider) => ReconcilingShipsNothing(db, attempt, provider, db');
        case ReconcileAll(provider) => BatchShipsNothing(db, PendingIds(db, db.nextAttempt), provider);
      }
    }
  }

  lemma StockStepKeepsAllocations(db: Db, step: Step, db': Db)
    requires OfferKeysOk(db) && LineKeysBelow(db) && IsStockStep(step) && Apply(db, step) == Ok(db')
    ensures db'.allocations == db.allocations && db'.nextAllocation == db.nextAllocation
  {
  }

  lemma PackingShips(db: Db, o: nat, db': Db)
    requires PackSpec(db, o) == Ok(db')
    ensures |db'.batches| == |db.batches| && db'.allocations == ConsumeMatching(db.allocations, o)
    ensures db'.nextAllocation == db.nextAllocation && db'.attempts == db.attempts && db'.nextAttempt == db.nextAttempt
    ensures forall b :: 0 <= b < |db.batches| ==> PickFor(db, o, b) == Ok(db'.batches[b])
  {
    hide ConsumeMatching, Held;
  }

  /** Consumed rows are never deleted or changed, even though removed lines cascade. */
  lemma StepKeepsConsumed(db: Db, step: Step, i: nat)
    requires Inv(db) && i in db.allocations && db.allocations[i].status.Consumed?
    ensures i in After(db, step).allocations && After(db, step).allocations[i] == db.allocations[i]
  {
    hide Apply, Inv;
    InvGivesKeys(db);
    if Apply(db, step).Ok? {
      var db' := Apply(db, step).value;
      if IsStockStep(step) {
        StockStepKeepsAllocations(db, step, db');
      } else if step.PackOrder? {
        ApplyPack(db, step.order);
        PackingShips(db, step.order, db');
      } else {
        StepShipsNothing(db, step, db');
      }
    }
  }

  lemma ApplyPack(db: Db, o: nat)
    requires OfferKeysOk(db) && LineKeysBelow(db)
    ensures Apply(db, PackOrder(o)) == PackSpec(db, o)
  {
  }

  lemma {:induction false} ConsumedForever(db: Db, steps: seq<Step>, i: nat)
    requires Inv(db) && i in db.allocations && db.allocations[i].status.Consumed?
    ensures i in Run(db, steps).allocations && Run(db, steps).allocations[i] == db.allocations[i]
  {
    hide Inv, After;
    if steps != [] {
      ConsumedForever(db, steps[..|steps| - 1], i);
      StepKeepsConsumed(Run(db, steps[..|steps| - 1]), steps[|steps| - 1], i);
    }
  }

  // ---------- Physical units ----------

  function Physical(db: Db, b: nat): nat {
    if b < |db.batches| then db.batches[b].quantity else 0
  }

  /** Units received by, or corrected (up or down) by, one step. */
  function Received(db: Db, step: Step, b: nat): int
    requires OfferKeysOk(db) && LineKeysBelow(db)
  {
    if Apply(db, step).Err? then 0
    else match step
      case CreateBatch(_, quantity, _, _, _) => if b == |db.batches| then quantity else 0
      case UpdateBatch(batch, quantity, _) => if b == batch then quantity - Physical(db, b) else 0
      case _ => 0
  }

  lemma StockStepUnits(db: Db, step: Step, db': Db, b: nat)
    requires OfferKeysOk(db) && LineKeysBelow(db) && IsStockStep(step) && Apply(db, step) == Ok(db')
    ensures Physical(db', b) == Physical(db, b) + Received(db, step, b)
    ensures ShippedUnits(db', b) == ShippedUnits(db, b)
  {
  }

  lemma ShippedByPacking(db: Db, o: nat, b: nat)
    ensures Total(ConsumeMatching(db.allocations, o), db.nextAllocation, ConsumedOn(b))
         == ShippedUnits(db, b) + Held(db, o, b)
  {
    TotalSplits(ConsumeMatching(db.allocations, o), db.nextAllocation, ConsumedOn(b),
                db.allocations, ConsumedOn(b), db.allocations, HeldOn(o, b));
  }

  /** Packing turns units on the shelf into shipped units, one for one. */
  lemma PackUnits(db: Db, o: nat, db': Db, b: nat)
    requires AllocationsOk(db) && PackSpec(db, o) == Ok(db')
    ensures Physical(db', b) + ShippedUnits(db', b) == Physical(db, b) + ShippedUnits(db, b)
    ensures b < |db.batches| ==> db'.batches[b].quantity == db.batches[b].quantity - Held(db, o, b)
  {
    hide PackSpec, ConsumeMatching, Total;
    PackingShips(db, o, db');
    ShippedByPacking(db, o, b);
    if b >= |db.batches| {
      NothingHeldBeyond(db, o, b);
    } else {
      assert PickFor(db, o, b) == Ok(db'.batches[b]);
    }
  }

  lemma NothingHeldBeyond(db: Db, o: nat, b: nat)
    requires AllocationsOk(db) && b >= |db.batches|
    ensures Held(db, o, b) == 0
  {
    forall i | 0 <= i < db.nextAllocation ensures Weight(db.allocations, i, HeldOn(o, b)) == 0 {
      if i in db.allocations {
        assert AllocationOk(db, i);
      }
    }
    TotalZero(db.allocations, db.nextAllocation, HeldOn(o, b));
  }

  lemma StepConserves(db: Db, step: Step, b: nat)
    requires Inv(db) && OfferKeysOk(db) && LineKeysBelow(db)
    ensures Physical(After(db, step), b) + ShippedUnits(After(db, step), b)
         == Physical(db, b) + ShippedUnits(db, b) + Received(db, step, b)
  {
    hide Apply, ShippedUnits, StockOk, OrdersOk, PaymentsOk, OneRowPerLineAndBatch, OffersOk, LinesOk, KeysOk;
    if Apply(db, step).Ok? {
      var db' := Apply(db, step).value;
      if IsStockStep(step) {
        StockStepUnits(db, step, db', b);
      } else if step.PackOrder? {
        ApplyPack(db, step.order);
        PackUnits(db, step.order, db', b);
      } else {
        StepShipsNothing(db, step, db');
        StepKeepsInv(db, step, db');
        SameConsumedTotals(db, db', b);
      }
    }
  }

  /** Units received plus the signed corrections of a batch, over a whole run. */
  function ReceivedOver(db: Db, steps: seq<Step>, b: nat): int
    requires Inv(db)
  {
    if steps == [] then 0
    else
      var before := Run(db, steps[..|steps| - 1]);
      InvGivesKeys(before);
      ReceivedOver(db, steps[..|steps| - 1], b) + Received(before, steps[|steps| - 1], b)
  }

  lemma {:induction false} RunConserves(db: Db, steps: seq<Step>, b: nat)
    requires Inv(db)
    ensures Physical(Run(db, steps), b) + ShippedUnits(Run(db, steps), b)
         == Physical(db, b) + ShippedUnits(db, b) + ReceivedOver(db, steps, b)
  {
    hide Inv, After, Physical, ShippedUnits, Received;
    if steps != [] {
      var before := Run(db, steps[..|steps| - 1]);
      InvGivesKeys(before);
      RunConserves(db, steps[..|steps| - 1], b);
      StepConserves(before, steps[|steps| - 1], b);
    }
  }

  /** In every run, for every batch: units on the shelf plus units shipped are the units received plus
      the signed sum of the corrections. */
  lemma StockIsConserved(now: int, today: int, steps: seq<Step>, b: nat)
    ensures var db := Reached(now, today, steps);
            Physical(db, b) + ShippedUnits(db, b) == ReceivedOver(Initial(now, today), steps, b)
  {
    hide Inv, ReceivedOver;
    RunConserves(Initial(now, today), steps, b);
  }

  // ---------- Closed batches ----------

  /** A closed batch is frozen: no step changes its row. */
  lemma StepKeepsClosed(db: Db, step: Step, b: nat)
    requires Inv(db) && b < |db.batches| && db.batches[b].status.Closed?
    ensures b < |After(db, step).batches| && After(db, step).batches[b] == db.batches[b]
  {
    hide Inv, Apply;
    InvGivesKeys(db);
    if Apply(db, step).Ok? {
      var db' := Apply(db, step).value;
      if IsStockStep(step) {
        StockStepKeepsClosed(db, step, db', b);
      } else if step.PackOrder? {
        ApplyPack(db, step.order);
        PackingShips(db, step.order, db');
        assert PickFor(db, step.order, b) == Ok(db'.batches[b]);
      } else {
        StepShipsNothing(db, step, db');
      }
    }
  }

  lemma StockStepKeepsClosed(db: Db, step: Step, db': Db, b: nat)
    requires OfferKeysOk(db) && LineKeysBelow(db) && IsStockStep(step) && Apply(db, step) == Ok(db')
    requires b < |db.batches| && db.batches[b].status.Closed?
    ensures b < |db'.batches| && db'.batches[b] == db.batches[b]
  {
    hide OfferKeysOk, LineKeysBelow, RevisionAllowed, CodeTaken, ActiveReserved;
  }

  lemma {:induction false} ClosedForever(db: Db, steps: seq<Step>, b: nat)
    requires Inv(db) && b < |db.batches| && db.batches[b].status.Closed?
    ensures b < |Run(db, steps).batches| && Run(db, steps).batches[b] == db.batches[b]
  {
    hide Inv, After;
    if steps != [] {
      ClosedForever(db, steps[..|steps| - 1], b);
      StepKeepsClosed(Run(db, steps[..|steps| - 1]), steps[|steps| - 1], b);
    }
  }

  // ---------- Terminal payment attempts ----------

  /** A decided attempt keeps its row as long as its order exists; a SUCCEEDED one is never deleted. */
  ghost predicate AttemptKept(db: Db, db': Db, a: nat)
    requires a in db.attempts
  {
    && db.nextAttempt <= db'.nextAttempt
    && (a in db'.attempts ==> db'.attempts[a] == db.attempts[a])
    && (db.attempts[a].status.Succeeded? ==> a in db'.attempts)
  }

  lemma TouchingAnotherKeeps(db: Db, b: nat, db': Db, a: nat)
    requires b in db.attempts && OnlyTouches(db, db', b) && a in db.attempts && a != b
    ensures AttemptKept(db, db', a)
  {
  }

  lemma AttachingKeepsTerminal(db: Db, b: nat, paymentId: string, db': Db, a: nat)
    requires AttachProviderSpec(db, b, paymentId) == Ok(db') && a in db.attempts && !db.attempts[a].status.Pending?
    ensures AttemptKept(db, db', a)
  {
  }

  lemma PaymentStepKeepsTerminal(db: Db, step: Step, db': Db, a: nat)
    requires OfferKeysOk(db) && LineKeysBelow(db) && IsPaymentStep(step) && Apply(db, step) == Ok(db')
    requires a in db.attempts && a < db.nextAttempt && !db.attempts[a].status.Pending?
    ensures AttemptKept(db, db', a)
  {
    hide StartPaymentSpec, OfferKeysOk, LineKeysBelow, BatchSpec, ReconcileSpec, CompleteSpec, FailSpec, AttachProviderSpec,
         AttemptKept, OnlyTouches;
    match step {
      case StartPayment(order) => HoldingKeepsAttempts(db, order, db', a);
      case AttachProvider(attempt, paymentId) => AttachingKeepsTerminal(db, attempt, paymentId, db', a);
      case CompletePayment(attempt, transactionId) =>
        CompletesPendingOnly(db, attempt, transactionId);
        CompleteTouches(db, attempt, transactionId, db');
        TouchingAnotherKeeps(db, attempt, db', a);
      case FailPayment(attempt) =>
        FailsPendingOnly(db, attempt);
        FailTouches(db, attempt, db');
        TouchingAnotherKeeps(db, attempt, db', a);
      case ReconcilePayment(attempt, provider) => ReconcilingKeepsTerminal(db, attempt, provider, db', a);
      case ReconcileAll(provider) => BatchKeepsTerminal(db, PendingIds(db, db.nextAttempt), provider, a);
    }
  }

  lemma CompletesPendingOnly(db: Db, a: nat, transactionId: Option<string>)
    requires CompleteSpec(db, a, transactionId).Ok?
    ensures a in db.attempts && db.attempts[a].status.Pending?
  {
    hide PlacePaidSpec, Strip;
  }

  lemma FailsPendingOnly(db: Db, a: nat)
    requires FailSpec(db, a).Ok?
    ensures a in db.attempts && db.attempts[a].status.Pending?
  {
  }

  lemma HoldingKeepsAttempts(db: Db, o: nat, db': Db, a: nat)
    requires OfferKeysOk(db) && StartPaymentSpec(db, o) == Ok(db') && a in db.attempts && a < db.nextAttempt
    ensures AttemptKept(db, db', a)
  {
    hide ReserveLinesSpec, OrderTotal;
  }

  lemma ReconcilingKeepsTerminal(db: Db, b: nat, provider: Provider, db': Db, a: nat)
    requires ReconcileSpec(db, b, provider) == Ok(db')
    requires a in db.attempts && !db.attempts[a].status.Pending?
    ensures AttemptKept(db, db', a)
  {
    hide ReconcileSpec;
    if IsChecked(db, b) {
      PassTouches(db, b, provider);
    } else {
      ReconcilingUnchecked(db, b, provider);
    }
  }

  lemma ReconcilingUnchecked(db: Db, b: nat, provider: Provider)
    requires ReconcileSpec(db, b, provider).Ok? && !IsChecked(db, b)
    ensures ReconcileSpec(db, b, provider).value == db
  {
  }

  lemma {:induction false} BatchKeepsTerminal(db: Db, ids: seq<nat>, provider: Provider, a: nat)
    requires a in db.attempts && !db.attempts[a].status.Pending?
    ensures AttemptKept(db, BatchSpec(db, ids, provider), a) && a in BatchSpec(db, ids, provider).attempts
  {
    hide PassSpec;
    if ids != [] {
      var n := |ids| - 1;
      BatchKeepsTerminal(db, ids[..n], provider, a);
      PassTouches(BatchSpec(db, ids[..n], provider), ids[n], provider);
    }
  }

  lemma EditingKeepsAttempts(db: Db, o: nat, lines: seq<ResolvedLine>)
    requires OfferKeysOk(db) && LineKeysBelow(db)
    ensures UpdatePlacedSpec(db, o, lines).Ok? ==>
              UpdatePlacedSpec(db, o, lines).value.attempts == db.attempts
              && UpdatePlacedSpec(db, o, lines).value.nextAttempt == db.nextAttempt
  {
    hide ReserveLinesSpec, AddLines, KeptLines, NewLines, ByOffer;
  }

  /** Outside the payment steps, attempts only go with a discarded draft. */
  lemma OrderStepAttempts(db: Db, step: Step, db': Db)
    requires OfferKeysOk(db) && LineKeysBelow(db) && !IsPaymentStep(step) && Apply(db, step) == Ok(db')
    ensures db'.nextAttempt == db.nextAttempt
    ensures step.DiscardDraft? ==>
              && db'.attempts == db.attempts - AttemptKeys(db.attempts, step.order)
              && step.order in db.orders && db.orders[step.order].status.Draft?
    ensures !step.DiscardDraft? ==> db'.attempts == db.attempts
  {
    if IsStockStep(step) {
      hide OfferKeysOk, LineKeysBelow, RevisionAllowed, CodeTaken, ActiveReserved;
    } else {
      hide AddLines, Resolve, LinesTotalPrice, AllResolvable, PrepareBusinessSpec, OfferKeysOk, LineKeysBelow, Resolvable,
           ResolveOfferLinesSpec, CarriedMarks, CheckedKeys, UnchangedLines, UpdatePlacedSpec, CancelMatching, PackSpec;
      match step {
        case EditOrder(order, resolved) => EditingKeepsAttempts(db, order, resolved);
        case EditInPortal(order, inputs) =>
          EditInPortalUnfolds(db, order, inputs, db');
          EditingKeepsAttempts(db, order, ResolveOfferLinesSpec(db, inputs).value);
        case PackOrder(order) => PackingShips(db, order, db');
        case _ =>
      }
    }
  }

  lemma OrderStepKeepsAttempts(db: Db, step: Step, db': Db, a: nat)
    requires OfferKeysOk(db) && LineKeysBelow(db) && !IsPaymentStep(step) && Apply(db, step) == Ok(db')
    requires a in db.attempts && a < db.nextAttempt
    requires db.attempts[a].status.Succeeded? ==> db.attempts[a].order in db.orders && !db.orders[db.attempts[a].order].status.Draft?
    ensures AttemptKept(db, db', a)
  {
    hide Apply, OfferKeysOk, LineKeysBelow;
    OrderStepAttempts(db, step, db');
  }

  lemma StepKeepsTerminal(db: Db, step: Step, a: nat)
    requires Inv(db) && a in db.attempts && !db.attempts[a].status.Pending?
    ensures AttemptKept(db, After(db, step), a)
  {
    hide Apply, StockOk, OrdersOk, OneRowPerLineAndBatch, OffersOk, LinesOk, AllocationsOk;
    InvGivesKeys(db);
    assert AttemptOk(db, a);
    if Apply(db, step).Ok? {
      var db' := Apply(db, step).value;
      if IsPaymentStep(step) {
        PaymentStepKeepsTerminal(db, step, db', a);
      } else {
        OrderStepKeepsAttempts(db, step, db', a);
      }
    }
  }

  /** Terminal attempts never change in any run, and a successful one never disappears. */
  lemma {:induction false} TerminalForever(db: Db, steps: seq<Step>, a: nat)
    requires Inv(db) && a in db.attempts && !db.attempts[a].status.Pending?
    ensures AttemptKept(db, Run(db, steps), a)
  {
    hide Inv, After;
    if steps != [] {
      var before, step := Run(db, steps[..|steps| - 1]), steps[|steps| - 1];
      TerminalForever(db, steps[..|steps| - 1], a);
      if a in before.attempts {
        StepKeepsTerminal(before, step, a);
      } else {
        AttemptKeyIsFree(db, before, a);
        StepReusesNoAttemptKey(before, step, a);
      }
    }
  }

  lemma AttemptKeyIsFree(db: Db, before: Db, a: nat)
    requires Inv(db) && a in db.attempts && db.nextAttempt <= before.nextAttempt
    ensures a < before.nextAttempt
  {
    assert KeysOk(db);
  }

  /** Deleted attempt keys are not used again. */
  lemma StepReusesNoAttemptKey(db: Db, step: Step, a: nat)
    requires Inv(db) && a !in db.attempts && a < db.nextAttempt
    ensures a !in After(db, step).attempts && db.nextAttempt <= After(db, step).nextAttempt
  {
    hide Apply, Inv;
    InvGivesKeys(db);
    if Apply(db, step).Ok? {
      StepAddsNextAttempt(db, step, Apply(db, step).value, a);
    }
  }

  lemma StepAddsNextAttempt(db: Db, step: Step, db': Db, a: nat)
    requires OfferKeysOk(db) && LineKeysBelow(db) && Apply(db, step) == Ok(db')
    requires a !in db.attempts && a < db.nextAttempt
    ensures a !in db'.attempts && db.nextAttempt <= db'.nextAttempt
  {
    hide Apply, OfferKeysOk, LineKeysBelow;
    if IsPaymentStep(step) {
      PaymentStepAddsNext(db, step, db', a);
    } else {
      OrderStepAttempts(db, step, db');
    }
  }

  lemma PaymentStepAddsNext(db: Db, step: Step, db': Db, a: nat)
    requires OfferKeysOk(db) && LineKeysBelow(db) && IsPaymentStep(step) && Apply(db, step) == Ok(db')
    requires a !in db.attempts && a < db.nextAttempt
    ensures a !in db'.attempts && db.nextAttempt <= db'.nextAttempt
  {
    hide ReserveLinesSpec, OrderTotal, Strip, PlacePaidSpec, OfferKeysOk, LineKeysBelow, BatchSpec, ReconcileSpec, CompleteSpec, CancelMatching;
    match step {
      case StartPayment(order) =>
      case AttachProvider(_, _) =>
      case CompletePayment(attempt, transactionId) => CompleteTouches(db, attempt, transactionId, db');
      case FailPayment(attempt) =>
      case ReconcilePayment(attempt, provider) => ReconcilingAddsNone(db, attempt, provider, db', a);
      case ReconcileAll(provider) => BatchAddsNone(db, PendingIds(db, db.nextAttempt), provider, a);
    }
  }

  lemma ReconcilingAddsNone(db: Db, b: nat, provider: Provider, db': Db, a: nat)
    requires ReconcileSpec(db, b, provider) == Ok(db') && a !in db.attempts
    ensures a !in db'.attempts && db'.nextAttempt == db.nextAttempt
  {
    hide ReconcileSpec;
    if IsChecked(db, b) {
      PassTouches(db, b, provider);
    } else {
      ReconcilingUnchecked(db, b, provider);
    }
  }

  lemma {:induction false} BatchAddsNone(db: Db, ids: seq<nat>, provider: Provider, a: nat)
    requires a !in db.attempts
    ensures a !in BatchSpec(db, ids, provider).attempts && BatchSpec(db, ids, provider).nextAttempt == db.nextAttempt
  {
    hide PassSpec;
    if ids != [] {
      var n := |ids| - 1;
      BatchAddsNone(db, ids[..n], provider, a);
      PassTouches(BatchSpec(db, ids[..n], provider), ids[n], provider);
    }
  }
}
