/** Identifiers that stay unique in every run: batch codes, and the provider's payment ids. */
module Uniqueness {
  import opened Common
  import opened Records
  import opened InventoryServices
  import opened Reservations
  import opened Placement
  import opened Orders
  import opened OrderEdit
  import opened Drafts
  import opened Payments
  import opened Retail
  import opened Reconciliation
  import opened ReconciliationFacts
  import opened Invariant
  import opened StockSteps
  import opened Runs
  import opened Conservation

  // ---------- Batch codes ----------

  lemma PackingKeepsCodes(db: Db, o: nat, db': Db)
    requires PackSpec(db, o) == Ok(db')
    ensures |db'.batches| == |db.batches| && forall b :: 0 <= b < |db.batches| ==> db'.batches[b].code == db.batches[b].code
  {
    hide PackSpec, Held;
    PackingShips(db, o, db');
    forall b | 0 <= b < |db.batches| ensures db'.batches[b].code == db.batches[b].code {
      assert PickFor(db, o, b) == Ok(db'.batches[b]);
    }
  }

  lemma StockStepKeepsCodes(db: Db, step: Step, db': Db)
    requires OfferKeysOk(db) && LineKeysBelow(db) && IsStockStep(step) && Apply(db, step) == Ok(db')
    requires CodesDistinct(db.batches)
    ensures CodesDistinct(db'.batches)
  {
    hide OfferKeysOk, LineKeysBelow, RevisionAllowed, ActiveReserved;
    if step.CreateBatch? {
      FreshCode(db.batches, step.code);
    }
  }

  lemma FreshCode(batches: seq<BatchRow>, code: string)
    ensures !CodeTaken(batches, code) ==> forall b :: 0 <= b < |batches| ==> batches[b].code != code
  {
  }

  lemma StepKeepsCodes(db: Db, step: Step)
    requires Inv(db) && CodesDistinct(db.batches)
    ensures CodesDistinct(After(db, step).batches)
  {
    hide Inv, Apply;
    InvGivesKeys(db);
    if Apply(db, step).Ok? {
      var db' := Apply(db, step).value;
      if IsStockStep(step) {
        StockStepKeepsCodes(db, step, db');
      } else if step.PackOrder? {
        ApplyPack(db, step.order);
        PackingKeepsCodes(db, step.order, db');
      } else {
        StepShipsNothing(db, step, db');
      }
    }
  }

  /** No two batches ever share a code. */
  lemma {:induction false} BatchCodesStayUnique(now: int, today: int, steps: seq<Step>)
    ensures CodesDistinct(Reached(now, today, steps).batches)
  {
    hide After;
    if steps != [] {
      BatchCodesStayUnique(now, today, steps[..|steps| - 1]);
      StepKeepsCodes(Reached(now, today, steps[..|steps| - 1]), steps[|steps| - 1]);
    }
  }

  // ---------- Provider payment ids ----------

  /** No attempt has another payment id than before; a new attempt has none. */
  ghost predicate KeepsPaymentIds(db: Db, db': Db) {
    forall a :: a in db'.attempts ==>
      db'.attempts[a].providerPaymentId == (if a in db.attempts then db.attempts[a].providerPaymentId else "")
  }

  lemma ReconcilingKeepsIds(db: Db, a: nat, provider: Provider, db': Db)
    requires ReconcileSpec(db, a, provider) == Ok(db')
    ensures KeepsPaymentIds(db, db')
  {
    hide ReconcileSpec;
    if IsChecked(db, a) {
      PassTouches(db, a, provider);
    } else {
      ReconcilingUnchecked(db, a, provider);
    }
  }

  lemma {:induction false} BatchKeepsIds(db: Db, ids: seq<nat>, provider: Provider)
    ensures KeepsPaymentIds(db, BatchSpec(db, ids, provider)) && BatchSpec(db, ids, provider).attempts.Keys == db.attempts.Keys
  {
    hide PassSpec;
    if ids != [] {
      var n := |ids| - 1;
      BatchKeepsIds(db, ids[..n], provider);
      PassTouches(BatchSpec(db, ids[..n], provider), ids[n], provider);
    }
  }

  lemma PaymentStepKeepsIds(db: Db, step: Step, db': Db)
    requires OfferKeysOk(db) && LineKeysBelow(db) && IsPaymentStep(step) && Apply(db, step) == Ok(db')
    requires forall a :: a in db.attempts ==> a < db.nextAttempt
    ensures step.AttachProvider? || KeepsPaymentIds(db, db')
  {
    hide StartPaymentSpec, OfferKeysOk, LineKeysBelow, BatchSpec, ReconcileSpec, CompleteSpec, FailSpec;
    match step {
      case StartPayment(order) => HoldingAddsNoId(db, order, db');
      case AttachProvider(_, _) =>
      case CompletePayment(attempt, transactionId) => CompleteTouches(db, attempt, transactionId, db');
      case FailPayment(attempt) => FailTouches(db, attempt, db');
      case ReconcilePayment(attempt, provider) => ReconcilingKeepsIds(db, attempt, provider, db');
      case ReconcileAll(provider) => BatchKeepsIds(db, PendingIds(db, db.nextAttempt), provider);
    }
  }

  lemma HoldingAddsNoId(db: Db, o: nat, db': Db)
    requires OfferKeysOk(db) && StartPaymentSpec(db, o) == Ok(db') && forall a :: a in db.attempts ==> a < db.nextAttempt
    ensures KeepsPaymentIds(db, db')
  {
    hide ReserveLinesSpec, OrderTotal;
  }

  lemma OrderStepKeepsIds(db: Db, step: Step, db': Db)
    requires OfferKeysOk(db) && LineKeysBelow(db) && !IsPaymentStep(step) && Apply(db, step) == Ok(db')
    ensures KeepsPaymentIds(db, db')
  {
    hide Apply, OfferKeysOk, LineKeysBelow;
    OrderStepAttempts(db, step, db');
  }

  lemma AttachKeepsIdsDistinct(db: Db, a: nat, paymentId: string, db': Db)
    requires AttachProviderSpec(db, a, paymentId) == Ok(db') && PaymentIdsDistinct(db.attempts)
    ensures PaymentIdsDistinct(db'.attempts)
  {
    if paymentId != "" {
      assert forall b :: b in db.attempts ==> db.attempts[b].providerPaymentId != paymentId;
    }
  }

  lemma StepKeepsIdsDistinct(db: Db, step: Step)
    requires Inv(db) && PaymentIdsDistinct(db.attempts)
    ensures PaymentIdsDistinct(After(db, step).attempts)
  {
    hide Apply, Inv;
    InvGivesKeys(db);
    AttemptKeysBelow(db);
    if Apply(db, step).Ok? {
      var db' := Apply(db, step).value;
      if step.AttachProvider? {
        ApplyAttach(db, step.attempt, step.paymentId);
        AttachKeepsIdsDistinct(db, step.attempt, step.paymentId, db');
      } else if IsPaymentStep(step) {
        PaymentStepKeepsIds(db, step, db');
      } else {
        OrderStepKeepsIds(db, step, db');
      }
    }
  }

  lemma AttemptKeysBelow(db: Db)
    requires Inv(db)
    ensures forall a :: a in db.attempts ==> a < db.nextAttempt
  {
    assert KeysOk(db);
  }

  lemma ApplyAttach(db: Db, a: nat, paymentId: string)
    requires OfferKeysOk(db) && LineKeysBelow(db)
    ensures Apply(db, AttachProvider(a, paymentId)) == AttachProviderSpec(db, a, paymentId)
  {
  }

  /** A provider payment never belongs to two attempts, so one answer concerns one attempt. */
  lemma {:induction false} PaymentIdsStayUnique(now: int, today: int, steps: seq<Step>)
    ensures PaymentIdsDistinct(Reached(now, today, steps).attempts)
  {
    hide After;
    if steps != [] {
      PaymentIdsStayUnique(now, today, steps[..|steps| - 1]);
      StepKeepsIdsDistinct(Reached(now, today, steps[..|steps| - 1]), steps[|steps| - 1]);
    }
  }
}
