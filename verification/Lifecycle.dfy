/** Orders only move forward along their lifecycle, in every run. */
module Lifecycle {
  import opened Common
  import opened Records
  import opened Storage
  import opened InventoryServices
  import opened Reservations
  import opened Placement
  import opened Orders
  import opened OrderEdit
  import opened Drafts
  import opened OpsOrders
  import opened Payments
  import opened Retail
  import opened Reconciliation
  import opened ReconciliationFacts
  import opened Invariant
  import opened StockSteps
  import opened Runs

  /** Zero or more allowed transitions lead from one status to the other. */
  predicate Leads(from: OrderStatus, to: OrderStatus) {
    || from == to
    || from.Draft?
    || (from.Placed? && !to.Draft?)
    || (from.Packed? && to.Delivered?)
  }

  /** A chain of allowed transitions from the first status to the last. */
  ghost predicate IsChain(chain: seq<OrderStatus>) {
    chain != [] && forall i :: 0 <= i < |chain| - 1 ==> TransitionAllowed(chain[i], chain[i + 1])
  }

  ghost predicate Connects(chain: seq<OrderStatus>, from: OrderStatus, to: OrderStatus) {
    IsChain(chain) && chain[0] == from && chain[|chain| - 1] == to
  }

  lemma {:induction false} ChainsLead(chain: seq<OrderStatus>)
    requires IsChain(chain)
    ensures Leads(chain[0], chain[|chain| - 1])
  {
    if |chain| > 1 {
      ChainsLead(chain[1..]);
    }
  }

  function ShortestChain(from: OrderStatus, to: OrderStatus): seq<OrderStatus>
    requires Leads(from, to)
  {
    if from == to then [from]
    else match from
      case Draft =>
        if to.Delivered? then [from, Placed, Packed, to] else if to.Packed? then [from, Placed, to] else [from, to]
      case Placed => if to.Delivered? then [from, Packed, to] else [from, to]
      case Packed => [from, to]
  }

  /** Leads is exactly what finite chains of allowed transitions reach. */
  lemma LeadsIsReachability(from: OrderStatus, to: OrderStatus)
    ensures Leads(from, to) <==> exists chain :: Connects(chain, from, to)
  {
    if chain :| Connects(chain, from, to) {
      ChainsLead(chain);
    }
    if Leads(from, to) {
      assert Connects(ShortestChain(from, to), from, to);
    }
  }

  lemma LeadsIsTransitive(from: OrderStatus, via: OrderStatus, to: OrderStatus)
    requires Leads(from, via) && Leads(via, to)
    ensures Leads(from, to)
  {
  }

  /** The order is gone, or still of its channel and not moved backwards; its key is not reused. */
  ghost predicate MovedForward(db: Db, db': Db, o: nat) {
    && db.nextOrder <= db'.nextOrder
    && (o in db.orders && o in db'.orders ==>
          db'.orders[o].channel == db.orders[o].channel && Leads(db.orders[o].status, db'.orders[o].status))
    && (o !in db.orders && o < db.nextOrder ==> o !in db'.orders)
  }

  lemma CompletingMoves(db: Db, a: nat, transactionId: Option<string>, db': Db)
    requires CompleteSpec(db, a, transactionId) == Ok(db')
    ensures a in db.attempts && db.attempts[a].order in db.orders && db.orders[db.attempts[a].order].status.Draft?
    ensures db'.orders == db.orders[db.attempts[a].order := db.orders[db.attempts[a].order].(status := Placed)]
    ensures db'.nextOrder == db.nextOrder
  {
    hide Strip;
  }

  lemma ReconcilingMoves(db: Db, a: nat, provider: Provider, o: nat)
    ensures MovedForward(db, Committed(db, ReconcileSpec(db, a, provider)), o)
  {
    hide CompleteSpec;
    if ReconcileSpec(db, a, provider).Ok? {
      var external := provider[db.attempts[a].providerPaymentId];
      if external.status.Succeeded? && db.attempts[a].status.Pending? {
        CompletingMoves(db, a, external.transactionId, ReconcileSpec(db, a, provider).value);
      }
    }
  }

  lemma {:induction false} BatchMoves(db: Db, ids: seq<nat>, provider: Provider, o: nat)
    ensures MovedForward(db, BatchSpec(db, ids, provider), o)
    ensures BatchSpec(db, ids, provider).orders.Keys == db.orders.Keys
  {
    hide ReconcileSpec;
    if ids != [] {
      var n := |ids| - 1;
      var r := BatchSpec(db, ids[..n], provider);
      BatchMoves(db, ids[..n], provider, o);
      ReconcilingMoves(r, ids[n], provider, o);
      PassTouches(r, ids[n], provider);
    }
  }

  lemma PaymentStepMoves(db: Db, step: Step, db': Db, o: nat)
    requires OfferKeysOk(db) && LineKeysBelow(db) && IsPaymentStep(step) && Apply(db, step) == Ok(db')
    ensures MovedForward(db, db', o)
  {
    hide PlacePaidSpec, HoldSpec, OfferKeysOk, LineKeysBelow, BatchSpec, ReconcileSpec, CompleteSpec, StartPaymentSpec, FailSpec;
    match step {
      case StartPayment(order) => HoldingMovesNothing(db, order, db');
      case AttachProvider(_, _) =>
      case CompletePayment(attempt, transactionId) => CompletingMoves(db, attempt, transactionId, db');
      case FailPayment(attempt) => FailingMovesNothing(db, attempt, db');
      case ReconcilePayment(attempt, provider) => ReconcilingMoves(db, attempt, provider, o);
      case ReconcileAll(provider) => BatchMoves(db, PendingIds(db, db.nextAttempt), provider, o);
    }
  }

  lemma FailingMovesNothing(db: Db, a: nat, db': Db)
    requires FailSpec(db, a) == Ok(db')
    ensures db'.orders == db.orders && db'.nextOrder == db.nextOrder
  {
  }

  lemma StockStepMoves(db: Db, step: Step, db': Db)
    requires OfferKeysOk(db) && LineKeysBelow(db) && IsStockStep(step) && Apply(db, step) == Ok(db')
    ensures db'.orders == db.orders && db'.nextOrder == db.nextOrder
  {
    hide OfferKeysOk, LineKeysBelow, RevisionAllowed, CodeTaken, ActiveReserved;
  }

  lemma StepMovesForward(db: Db, step: Step, db': Db, o: nat)
    requires OfferKeysOk(db) && LineKeysBelow(db) && Apply(db, step) == Ok(db')
    requires o in db.orders ==> o < db.nextOrder
    ensures MovedForward(db, db', o)
  {
    hide Apply, OfferKeysOk, LineKeysBelow;
    if IsPaymentStep(step) {
      PaymentStepMoves(db, step, db', o);
    } else if IsStockStep(step) {
      StockStepMoves(db, step, db');
    } else {
      OrderStepMoves(db, step, db', o);
    }
  }

  lemma OrderStepMoves(db: Db, step: Step, db': Db, o: nat)
    requires OfferKeysOk(db) && LineKeysBelow(db) && Apply(db, step) == Ok(db')
    requires !IsPaymentStep(step) && !IsStockStep(step)
    requires o in db.orders ==> o < db.nextOrder
    ensures MovedForward(db, db', o)
  {
    hide AddLines, Resolve, LinesTotalPrice, AllResolvable, ConsumeSpec, PrepareBusinessSpec, OfferKeysOk, LineKeysBelow,
         ResolveOfferLinesSpec, CarriedMarks, CheckedKeys, UnchangedLines, UpdatePlacedSpec, CancelMatching, Resolvable;
    match step {
      case EditOrder(order, resolved) => EditingMovesNothing(db, order, resolved);
      case EditInPortal(order, inputs) =>
        EditInPortalUnfolds(db, order, inputs, db');
        EditingMovesNothing(db, order, ResolveOfferLinesSpec(db, inputs).value);
      case PackOrder(order) => ConsumingMovesNothing(db, order);
      case _ =>
    }
  }

  lemma ConsumingMovesNothing(db: Db, o: nat)
    ensures ConsumeSpec(db, o).Ok? ==>
              ConsumeSpec(db, o).value == db.(batches := ConsumeSpec(db, o).value.batches, allocations := ConsumeSpec(db, o).value.allocations)
  {
    hide PickFor, HoldsNothing;
  }

  lemma EditingMovesNothing(db: Db, o: nat, lines: seq<ResolvedLine>)
    requires OfferKeysOk(db) && LineKeysBelow(db)
    ensures UpdatePlacedSpec(db, o, lines).Ok? ==>
              UpdatePlacedSpec(db, o, lines).value.orders == db.orders
              && UpdatePlacedSpec(db, o, lines).value.nextOrder == db.nextOrder
  {
    hide ReserveLinesSpec, AddLines, KeptLines, NewLines, ByOffer;
  }

  lemma HoldingMovesNothing(db: Db, o: nat, db': Db)
    requires OfferKeysOk(db) && StartPaymentSpec(db, o) == Ok(db')
    ensures db'.orders == db.orders && db'.nextOrder == db.nextOrder
  {
    hide ReserveLinesSpec, OrderTotal;
  }

  /** In every run an order keeps its channel and never moves backwards: DELIVERED and CANCELLED are
      final, and what was packed is never cancelled. The key of a deleted order is never used again. */
  lemma {:induction false} OrdersOnlyMoveForward(db: Db, steps: seq<Step>, o: nat)
    requires Inv(db) && o < db.nextOrder
    ensures MovedForward(db, Run(db, steps), o) && o < Run(db, steps).nextOrder
  {
    hide Inv, Apply;
    if steps != [] {
      var before, step := Run(db, steps[..|steps| - 1]), steps[|steps| - 1];
      OrdersOnlyMoveForward(db, steps[..|steps| - 1], o);
      InvGivesKeys(before);
      if Apply(before, step).Ok? {
        StepMovesForward(before, step, Apply(before, step).value, o);
        if o in db.orders && o in before.orders && o in Run(db, steps).orders {
          LeadsIsTransitive(db.orders[o].status, before.orders[o].status, Run(db, steps).orders[o].status);
        }
      }
    }
  }
}
