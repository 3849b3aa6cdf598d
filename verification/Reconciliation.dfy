/**
 Reconciling payment attempts with what the provider says (payments/services.py, retail/payments.py),
 and the batch job over all pending retail attempts (retail/reconciliation.py). The provider is a
 table of its answers; a payment without an entry is a call that raised.
 */
module Reconciliation {
  import opened Common
  import opened Records
  import opened Storage
  import opened Reservations
  import opened Orders
  import opened Payments
  import opened Retail

  datatype ExternalStatus = Pending | Succeeded | Failed
  datatype ExternalState = ExternalState(paymentId: string, status: ExternalStatus, transactionId: Option<string>)
  type Provider = map<string, ExternalState>

  // ---------- reconcile_payment_attempt ----------

  /** Both sides know a transaction id, and not the same one. */
  predicate TransactionIdsDiffer(row: AttemptRow, external: ExternalState) {
    && external.transactionId.Some? && external.transactionId.value != ""
    && row.providerTransactionId != "" && external.transactionId.value != row.providerTransactionId
  }

  /** _apply_reconciliation with the retail outcomes as callbacks */
  function ApplySpec(db: Db, a: nat, external: ExternalState): Result<Db>
    requires a in db.attempts
  {
    var row := db.attempts[a];
    match external.status
    case Pending => Ok(db)
    case Succeeded =>
      if row.status.Succeeded? then
        if TransactionIdsDiffer(row, external) then Err(PaymentReconciliationConflict) else Ok(db)
      else if !row.status.Pending? then Err(PaymentReconciliationConflict)
      else CompleteSpec(db, a, external.transactionId)
    case Failed =>
      if row.status.Failed? || row.status.Cancelled? then Ok(db)
      else if row.status.Succeeded? then Err(PaymentReconciliationConflict)
      else FailSpec(db, a)
  }

  /** The local status after a successful reconciliation agrees with the provider's. */
  predicate Agrees(external: ExternalStatus, before: AttemptStatus, after: AttemptStatus) {
    match external
    case Pending => after == before
    case Succeeded => after.Succeeded?
    case Failed => after.Failed? || after.Cancelled?
  }

  /** A decided attempt is accepted exactly when both sides tell the same outcome. */
  predicate SameOutcome(row: AttemptRow, external: ExternalState) {
    match external.status
    case Pending => true
    case Succeeded => row.status.Succeeded? && !TransactionIdsDiffer(row, external)
    case Failed => row.status.Failed? || row.status.Cancelled?
  }

  lemma AppliedAgrees(db: Db, a: nat, external: ExternalState)
    requires a in db.attempts
    ensures ApplySpec(db, a, external).Ok? ==>
              && a in ApplySpec(db, a, external).value.attempts
              && Agrees(external.status, db.attempts[a].status, ApplySpec(db, a, external).value.attempts[a].status)
    ensures !db.attempts[a].status.Pending? ==>
              && Committed(db, ApplySpec(db, a, external)) == db
              && (ApplySpec(db, a, external).Ok? <==> SameOutcome(db.attempts[a], external))
              && (ApplySpec(db, a, external).Err? ==> ApplySpec(db, a, external).error == PaymentReconciliationConflict)
  {
    hide Strip;
  }

  function ReconcileSpec(db: Db, a: nat, provider: Provider): Result<Db> {
    if a !in db.attempts then Err(DoesNotExist)
    else if db.attempts[a].providerPaymentId == "" then Err(InvalidPaymentAttempt)
    else if db.attempts[a].providerPaymentId !in provider then Err(ProviderFailure)
    else
      var external := provider[db.attempts[a].providerPaymentId];
      if external.paymentId != db.attempts[a].providerPaymentId then Err(PaymentReconciliationConflict)
      else ApplySpec(db, a, external)
  }

  method ApplyReconciliation(store: Database, a: nat, external: ExternalState) returns (r: Result<()>)
    requires a in store.attempts && AllocationKeysOk(store.Contents())
    modifies store`orders, store`allocations, store`attempts
    ensures r == Reply(ApplySpec(old(store.Contents()), a, external))
    ensures store.Contents() == Committed(old(store.Contents()), ApplySpec(old(store.Contents()), a, external))
    ensures r.Ok? ==> a in store.attempts && Agrees(external.status, old(store.attempts)[a].status, store.attempts[a].status)
    ensures !old(store.attempts)[a].status.Pending? ==>
              && store.Contents() == old(store.Contents())
              && (r.Ok? <==> SameOutcome(old(store.attempts)[a], external))
              && (r.Err? ==> r.error == PaymentReconciliationConflict)
    ensures r.Err? ==> store.Contents() == old(store.Contents())
  {
    AppliedAgrees(store.Contents(), a, external);
    hide CompleteSpec, FailSpec, AllocationKeysOk;
    var attempt := store.attempts[a];
    match external.status
    case Pending =>
      return Ok(());
    case Succeeded =>
      if attempt.status.Succeeded? {
        if TransactionIdsDiffer(attempt, external) {
          return Err(PaymentReconciliationConflict);
        }
        return Ok(());
      }
      if !attempt.status.Pending? {
        return Err(PaymentReconciliationConflict);
      }
      r := CompleteRetailPayment(store, a, external.transactionId);
    case Failed =>
      if attempt.status.Failed? || attempt.status.Cancelled? {
        return Ok(());
      }
      if attempt.status.Succeeded? {
        return Err(PaymentReconciliationConflict);
      }
      r := FailRetailPayment(store, a);
  }

  method ReconcileRetailPayment(store: Database, a: nat, provider: Provider) returns (r: Result<()>)
    requires AllocationKeysOk(store.Contents())
    modifies store`orders, store`allocations, store`attempts
    ensures r == Reply(ReconcileSpec(old(store.Contents()), a, provider))
    ensures store.Contents() == Committed(old(store.Contents()), ReconcileSpec(old(store.Contents()), a, provider))
    ensures r.Ok? ==>
              && a in old(store.attempts) && a in store.attempts
              && old(store.attempts)[a].providerPaymentId in provider
              && (var external := provider[old(store.attempts)[a].providerPaymentId];
                  && external.paymentId == old(store.attempts)[a].providerPaymentId != ""
                  && Agrees(external.status, old(store.attempts)[a].status, store.attempts[a].status))
    ensures r.Err? ==> store.Contents() == old(store.Contents())
  {
    hide ApplySpec, AllocationKeysOk;
    if a !in store.attempts {
      return Err(DoesNotExist);
    }
    var paymentId := store.attempts[a].providerPaymentId;
    if paymentId == "" {
      return Err(InvalidPaymentAttempt);
    }
    if paymentId !in provider {
      return Err(ProviderFailure);
    }
    if provider[paymentId].paymentId != paymentId {
      return Err(PaymentReconciliationConflict);
    }
    r := ApplyReconciliation(store, a, provider[paymentId]);
  }

  // ---------- Idempotence ----------

  /** A success that is recorded under another transaction id than the provider's. */
  predicate RecordsStrippedId(db: Db, a: nat, provider: Provider)
    requires a in db.attempts && db.attempts[a].providerPaymentId in provider
  {
    var external := provider[db.attempts[a].providerPaymentId];
    && db.attempts[a].status.Pending? && external.status.Succeeded?
    && external.transactionId.Some? && !Trimmed(external.transactionId.value)
  }

  ghost predicate IsCompleted(db: Db, a: nat, provider: Provider)
    requires ReconcileSpec(db, a, provider).Ok?
  {
    db.attempts[a].status.Pending? && provider[db.attempts[a].providerPaymentId].status.Succeeded?
  }

  /** A completed attempt is recorded under the stripped transaction id. */
  lemma CompletedAttempt(db: Db, a: nat, transactionId: Option<string>)
    requires CompleteSpec(db, a, transactionId).Ok?
    ensures a in db.attempts
    ensures CompleteSpec(db, a, transactionId).value.attempts
         == db.attempts[a := db.attempts[a].(status := AttemptStatus.Succeeded,
              providerTransactionId := if transactionId.Some? then Strip(transactionId.value) else db.attempts[a].providerTransactionId)]
    ensures transactionId.Some? ==> Strip(transactionId.value) != ""
  {
    hide Strip;
  }

  /** After a first success, reapplying the same answer changes nothing and raises nothing, exactly
      when the provider's transaction id is absent or has no surrounding blanks, or was not recorded
      by that first application. */
  lemma ReconcilingTwice(db: Db, a: nat, provider: Provider, db1: Db)
    requires ReconcileSpec(db, a, provider) == Ok(db1)
    ensures ReconcileSpec(db1, a, provider) == Ok(db1) <==> !RecordsStrippedId(db, a, provider)
    ensures RecordsStrippedId(db, a, provider) ==> ReconcileSpec(db1, a, provider) == Err(PaymentReconciliationConflict)
  {
    hide Strip, IsBlank;
    if IsCompleted(db, a, provider) {
      CompletedAttempt(db, a, provider[db.attempts[a].providerPaymentId].transactionId);
    }
    var external := provider[db.attempts[a].providerPaymentId];
    if external.transactionId.Some? {
      StripIsTrimming(external.transactionId.value);
    }
  }

  /** Reconciling an attempt that is not pending never changes anything. */
  lemma TerminalAttemptsStay(db: Db, a: nat, provider: Provider)
    requires a in db.attempts && !db.attempts[a].status.Pending?
    ensures Committed(db, ReconcileSpec(db, a, provider)) == db
  {
  }

  // ---------- reconcile_pending_retail_payments ----------

  datatype Summary = Summary(
    selected: nat, checked: nat, succeeded: nat, failed: nat, pending: nat, cancelled: nat, unresolved: nat, errors: nat)

  predicate IsPendingRetail(db: Db, a: nat) {
    && a in db.attempts && db.attempts[a].status.Pending?
    && db.attempts[a].order in db.orders && db.orders[db.attempts[a].order].channel.Retail?
  }

  /** list_pending_payment_attempt_ids, in key order. */
  function PendingIds(db: Db, n: nat): (ids: seq<nat>)
    ensures forall a: nat :: a in ids <==> a < n && IsPendingRetail(db, a)
    ensures forall i :: 0 <= i < |ids| ==> ids[i] < n
    ensures forall i, j :: 0 <= i < j < |ids| ==> ids[i] < ids[j]
  {
    if n == 0 then [] else PendingIds(db, n - 1) + (if IsPendingRetail(db, n - 1) then [n - 1] else [])
  }

  /** Does the loop ask the provider about this attempt? */
  predicate IsChecked(db: Db, a: nat) {
    a in db.attempts && db.attempts[a].status.Pending? && db.attempts[a].providerPaymentId != ""
  }

  /** One pass of the loop: the state it leaves. */
  function PassSpec(db: Db, a: nat, provider: Provider): Db {
    if IsChecked(db, a) then Committed(db, ReconcileSpec(db, a, provider)) else db
  }

  /** One pass of the loop: the counters it leaves. */
  function PassCounts(s: Summary, db: Db, a: nat, provider: Provider): Summary {
    if a !in db.attempts then s.(errors := s.errors + 1)
    else if !db.attempts[a].status.Pending? then s
    else if db.attempts[a].providerPaymentId == "" then s.(unresolved := s.unresolved + 1)
    else
      var c := s.(checked := s.checked + 1);
      if ReconcileSpec(db, a, provider).Err? then c.(errors := c.errors + 1)
      else CountStatus(c, PassSpec(db, a, provider), a)
  }

  function CountStatus(c: Summary, db: Db, a: nat): Summary {
    if a !in db.attempts then c.(errors := c.errors + 1)
    else match db.attempts[a].status
      case Succeeded => c.(succeeded := c.succeeded + 1)
      case Failed => c.(failed := c.failed + 1)
      case Pending => c.(pending := c.pending + 1)
      case Cancelled => c.(cancelled := c.cancelled + 1)
  }

  function BatchSpec(db: Db, ids: seq<nat>, provider: Provider): Db {
    if ids == [] then db
    else PassSpec(BatchSpec(db, ids[..|ids| - 1], provider), ids[|ids| - 1], provider)
  }

  function BatchCounts(db: Db, ids: seq<nat>, provider: Provider): Summary {
    if ids == [] then Summary(0, 0, 0, 0, 0, 0, 0, 0)
    else
      var n := |ids| - 1;
      PassCounts(BatchCounts(db, ids[..n], provider), BatchSpec(db, ids[..n], provider), ids[n], provider)
  }

  lemma PassKeepsAllocationKeys(db: Db, a: nat, provider: Provider)
    requires AllocationKeysOk(db)
    ensures AllocationKeysOk(PassSpec(db, a, provider))
  {
  }

  lemma BatchStep(db: Db, ids: seq<nat>, i: nat, provider: Provider)
    requires i < |ids|
    ensures BatchSpec(db, ids[..i + 1], provider) == PassSpec(BatchSpec(db, ids[..i], provider), ids[i], provider)
    ensures BatchCounts(db, ids[..i + 1], provider)
         == PassCounts(BatchCounts(db, ids[..i], provider), BatchSpec(db, ids[..i], provider), ids[i], provider)
  {
    hide PassSpec, PassCounts;
    assert ids[..i + 1][..i] == ids[..i];
  }

  lemma NothingInBatch(db: Db, ids: seq<nat>, provider: Provider)
    ensures BatchSpec(db, ids[..0], provider) == db
    ensures BatchCounts(db, ids[..0], provider) == Summary(0, 0, 0, 0, 0, 0, 0, 0)
  {
  }

  method ReconcilePendingRetailPayments(store: Database, provider: Provider) returns (s: Summary)
    requires AllocationKeysOk(store.Contents())
    modifies store`orders, store`allocations, store`attempts
    ensures var ids := PendingIds(old(store.Contents()), old(store.nextAttempt));
            && store.Contents() == BatchSpec(old(store.Contents()), ids, provider)
            && s == BatchCounts(old(store.Contents()), ids, provider).(selected := |ids|)
  {
    hide ReconcileSpec, AllocationKeysOk, BatchSpec, BatchCounts, Agrees;
    ghost var before := store.Contents();
    var attemptIds := PendingIds(store.Contents(), store.nextAttempt);
    var checked, succeeded, failed, pending, cancelled, unresolved, errors := 0, 0, 0, 0, 0, 0, 0;
    NothingInBatch(before, attemptIds, provider);
    for i := 0 to |attemptIds|
      invariant AllocationKeysOk(store.Contents())
      invariant store.Contents() == BatchSpec(before, attemptIds[..i], provider)
      invariant Summary(0, checked, succeeded, failed, pending, cancelled, unresolved, errors)
             == BatchCounts(before, attemptIds[..i], provider)
    {
      BatchStep(before, attemptIds, i, provider);
      var a := attemptIds[i];
      PassKeepsAllocationKeys(store.Contents(), a, provider);
      if a !in store.attempts {
        errors := errors + 1;
      } else if !store.attempts[a].status.Pending? {
      } else if store.attempts[a].providerPaymentId == "" {
        unresolved := unresolved + 1;
      } else {
        checked := checked + 1;
        var reconciled := ReconcileRetailPayment(store, a, provider);
        if reconciled.Err? || a !in store.attempts {
          errors := errors + 1;
        } else {
          match store.attempts[a].status
          case Succeeded => succeeded := succeeded + 1;
          case Failed => failed := failed + 1;
          case Pending => pending := pending + 1;
          case Cancelled => cancelled := cancelled + 1;
        }
      }
    }
    assert attemptIds[..|attemptIds|] == attemptIds;
    s := Summary(|attemptIds|, checked, succeeded, failed, pending, cancelled, unresolved, errors);
  }
}
